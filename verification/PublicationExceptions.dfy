/** The statements that get past the triggers and undo a justification do exist:
    one store that meets every constraint, and such statements for every table. */
module PublicationExceptions {
  import opened Outcomes
  import opened PublicationInvariants
  import opened PublicationSteps
  import opened PublicationTables
  import opened PublicationTriggers

  function SomePublications(): map<Key, Publication> {
    map[
      1 := Publication(11, 21, 31, 41, Some(51), Some(61), Published, None, None, 1, None, 1, [], None, Some(9), 3),
      2 := Publication(12, 22, 32, 42, Some(51), Some(62), Available, None, None, 0, None, 0, [], None, None, 1),
      3 := Publication(13, 23, 33, 42, Some(51), Some(63), Available, None, None, 0, None, 0, [], None, None, 1)]
  }

  function SomeEvents(): map<Key, seq<OwnerEvent>> {
    map[1 := [OwnerEvent(Acquired, Some(7), 1, []), OwnerEvent(PublishedEvent, Some(7), 1, [])], 2 := [], 3 := []]
  }

  function SomeValidations(): map<Key, Validation> {
    map[
      11 := Validation(21, 31, 41, 51, true, Some(71), 81), 12 := Validation(22, 32, 42, 51, true, None, 82),
      13 := Validation(23, 33, 42, 51, true, None, 83), 14 := Validation(24, 34, 42, 51, false, None, 84)]
  }

  function SomeCertificates(): map<Key, CertificateRow> { map[71 := CertificateRow(91, 51, true), 72 := CertificateRow(92, 51, false)] }

  function SomeLineages(): map<Key, bool> { map[41 := true, 42 := true, 43 := false] }

  function SomeHoldouts(): map<Key, Holdout> { map[41 := Holdout(51, Some(11)), 42 := Holdout(51, None)] }

  function SomeEntries(): map<Key, RegistryEntry> { map[61 := RegistryEntry(1, 11, 21, 31, 41), 63 := RegistryEntry(3, 13, 23, 33, 42)] }

  /** A published publication 1 beside two unpublished ones, with spare rows to move. */
  function Exposed(): Database {
    EMPTY.(publications := SomePublications(), events := SomeEvents(), validations := SomeValidations(), certificates := SomeCertificates(),
           lineages := SomeLineages(), holdouts := SomeHoldouts(), registry := SomeEntries())
  }

  /** A table after one of its rows has moved onto the key of another. */
  function Onto<T>(table: map<Key, T>, key: Key, onto: Key): map<Key, T>
    requires key in table
  {
    Removed(table, key)[onto := table[key]]
  }

  /** For every table a statement that puts another row where a justifying one stood,
      an insert into the registry besides, and two that claim a justifying row's number. */
  function Replacements(): seq<Statement> {
    var db := Exposed();
    [
      OnValidations(Update(14, 11, db.validations[14], true, None)),
      OnCertificates(Update(72, 71, db.certificates[72], true, None)),
      OnLineages(Update(43, 41, db.lineages[43], true, None)),
      OnHoldouts(Update(42, 41, db.holdouts[42], true, None)),
      OnPublications(Update(2, 1, db.publications[2], true, None)),
      OnRegistry(Update(63, 61, db.registry[63], true, None)),
      OnRegistry(Insert(61, RegistryEntry(2, 12, 22, 32, 42), true, None)),
      OnRegistry(Insert(64, RegistryEntry(2, 12, 22, 32, 42), true, Some(61))),
      OnHoldouts(Update(42, 42, db.holdouts[42], true, Some(41)))
    ]
  }

  lemma {:induction false} ExposedRows(id: Key)
    requires id in Exposed().publications
    ensures RowSound(Exposed(), id)
  {
    var db := Exposed();
    if id == 1 {
      hide Count;
      var events := db.events[1];
      assert events == [] + [events[0], events[1]];
      NoEvents();
      CountTwo([], events[0], events[1], Acquired);
      CountTwo([], events[0], events[1], FailedAttempt);
      CountTwo([], events[0], events[1], PublishedEvent);
    }
  }

  lemma {:induction false} NoEvents()
    ensures forall kind :: Count([], kind) == 0
  {
  }

  lemma {:induction false} ExposedKeys()
    ensures Keyed(Exposed()) && AllJobsSound(Exposed().jobs)
  {
  }

  lemma {:induction false} ExposedIsSound()
    ensures Inv(Exposed())
  {
    hide Keyed, AllJobsSound, RowSound, Exposed;
    ExposedKeys();
    forall id | id in Exposed().publications ensures RowSound(Exposed(), id) { ExposedRows(id); }
  }

  lemma {:induction false} ExposedIsJustified()
    ensures Justified(Exposed(), 1) && References(Exposed())
  {
  }

  lemma {:induction false} OnlyOneIsPublished(v: Key)
    ensures PublishedFor(Exposed(), v) ==> v == 11
    ensures PublishedCertificate(Exposed(), v) ==> v == 71
  {
  }

  /** Moving a row that collides with nothing but the key it takes. */
  lemma {:induction false} Moving<T>(table: map<Key, T>, key: Key, onto: Key, collides: (T, T) -> bool)
    requires key in table && forall k :: k in table && k != key && k != onto ==> !collides(table[k], table[key])
    ensures Edited(table, Update(key, onto, table[key], true, None), collides) == Some(Onto(table, key, onto))
  {
    assert Edited(table, Update(key, onto, table[key], true, None), collides).value == Onto(table, key, onto);
  }

  /** What each of them leaves behind. */
  function Replaced(i: nat): Database
    requires i < |Replacements()|
  {
    var db := Exposed();
    match i
    case 0 => db.(validations := Onto(SomeValidations(), 14, 11))
    case 1 => db.(certificates := Onto(SomeCertificates(), 72, 71))
    case 2 => db.(lineages := Onto(SomeLineages(), 43, 41))
    case 3 => db.(holdouts := Onto(SomeHoldouts(), 42, 41))
    case 4 => db.(publications := Onto(SomePublications(), 2, 1))
    case 5 => db.(registry := Onto(SomeEntries(), 63, 61))
    case 6 => db.(registry := SomeEntries()[61 := RegistryEntry(2, 12, 22, 32, 42)])
    case 7 => db.(registry := Removed(SomeEntries(), 61)[64 := RegistryEntry(2, 12, 22, 32, 42)])
    case _ => db.(holdouts := Removed(SomeHoldouts(), 41))
  }

  lemma {:induction false} NoneIsFrozen(i: nat)
    requires i < |Replacements()|
    ensures !Frozen(Exposed(), Replacements()[i])
  {
    OnlyOneIsPublished(14);
    OnlyOneIsPublished(72);
  }

  lemma {:induction false} NoCollisions()
    ensures forall k :: k in SomeValidations() && k != 14 ==> !SameContent(SomeValidations()[k], SomeValidations()[14])
    ensures forall k :: k in SomeCertificates() && k != 72 ==> !SameSearchRun(SomeCertificates()[k], SomeCertificates()[72])
    ensures forall k :: k in SomePublications() && k != 2 ==> !SamePublication(SomePublications()[k], SomePublications()[2])
    ensures forall k :: k in SomeEntries() && k != 63 ==> !SameEntry(SomeEntries()[k], SomeEntries()[63])
  {
  }

  lemma {:induction false} EachIsReplaced(i: nat)
    requires i < |Replacements()|
    ensures Attempted(Exposed(), Replacements()[i]) == Some(Replaced(i))
  {
    hide Onto, Edited, SomeValidations, SomePublications, SomeCertificates, SomeEntries, SomeLineages, SomeHoldouts, SomeEvents,
         SameContent, SameSearchRun, SamePublication, SameEntry;
    SomeKeys();
    NoCollisions();
    match i
    case 0 => Moving(SomeValidations(), 14, 11, SameContent);
    case 1 => Moving(SomeCertificates(), 72, 71, SameSearchRun);
    case 2 => Moving(SomeLineages(), 43, 41, Never<bool>);
    case 3 => Moving(SomeHoldouts(), 42, 41, Never<Holdout>);
    case 4 => Moving(SomePublications(), 2, 1, SamePublication);
    case 5 => Moving(SomeEntries(), 63, 61, SameEntry);
    case 6 => Inserting();
    case _ => Claiming();
  }

  lemma {:induction false} SomeKeys()
    ensures SomeValidations().Keys == {11, 12, 13, 14} && SomePublications().Keys == {1, 2, 3} && SomeEntries().Keys == {61, 63}
    ensures SomeCertificates().Keys == {71, 72} && SomeLineages().Keys == {41, 42, 43} && SomeHoldouts().Keys == {41, 42}
  {
  }

  /** What the rows refer to. */
  lemma {:induction false} SomeTargets()
    ensures forall k :: k in SomeValidations() ==> SomeValidations()[k].lineage in {41, 42} && SomeValidations()[k].certificate in {None, Some(71)}
    ensures forall k :: k in SomeHoldouts() ==> SomeHoldouts()[k].consumedBy in {None, Some(11)}
    ensures forall k :: k in SomePublications() ==>
      SomePublications()[k].validation in {11, 12, 13} && SomePublications()[k].lineage in {41, 42} && SomePublications()[k].ownerJob.None?
    ensures forall k :: k in SomeEntries() ==> SomeEntries()[k].publication in {1, 3} && SomeEntries()[k].validation in {11, 13}
    ensures forall k :: k in SomeEvents() && SomeEvents()[k] != [] ==> k == 1
  {
  }

  lemma {:induction false} OntoRows<T>(table: map<Key, T>, key: Key, onto: Key)
    requires key in table && key != onto
    ensures Onto(table, key, onto).Keys == table.Keys - {key} + {onto}
    ensures forall k :: k in Onto(table, key, onto) ==> Onto(table, key, onto)[k] == table[if k == onto then key else k]
  {
  }

  lemma {:induction false} Inserting()
    ensures var row := RegistryEntry(2, 12, 22, 32, 42);
      Edited(SomeEntries(), Insert(61, row, true, None), SameEntry) == Some(SomeEntries()[61 := row])
  {
    var row := RegistryEntry(2, 12, 22, 32, 42);
    assert Edited(SomeEntries(), Insert(61, row, true, None), SameEntry).value == SomeEntries()[61 := row];
  }

  lemma {:induction false} Claiming()
    ensures var row := RegistryEntry(2, 12, 22, 32, 42);
      Edited(SomeEntries(), Insert(64, row, true, Some(61)), SameEntry) == Some(Removed(SomeEntries(), 61)[64 := row])
    ensures Edited(SomeHoldouts(), Update(42, 42, SomeHoldouts()[42], true, Some(41)), Never<Holdout>) == Some(Removed(SomeHoldouts(), 41))
  {
    var row := RegistryEntry(2, 12, 22, 32, 42);
    assert Edited(SomeEntries(), Insert(64, row, true, Some(61)), SameEntry).value == Removed(SomeEntries(), 61)[64 := row];
    assert Edited(SomeHoldouts(), Update(42, 42, SomeHoldouts()[42], true, Some(41)), Never<Holdout>).value == Removed(SomeHoldouts(), 41);
  }

  lemma {:induction false} ValidationRowsRefer(i: nat)
    requires i < 2
    ensures References(Replaced(i))
  {
    hide Onto, SomeValidations, SomePublications, SomeCertificates, SomeEntries, SomeLineages, SomeHoldouts, SomeEvents;
    SomeKeys();
    SomeTargets();
    if i == 0 { OntoRows(SomeValidations(), 14, 11); } else { OntoRows(SomeCertificates(), 72, 71); }
  }

  lemma {:induction false} LineageRowsRefer(i: nat)
    requires 2 <= i < 4
    ensures References(Replaced(i))
  {
    hide Onto, SomeValidations, SomePublications, SomeCertificates, SomeEntries, SomeLineages, SomeHoldouts, SomeEvents;
    SomeKeys();
    SomeTargets();
    if i == 2 { OntoRows(SomeLineages(), 43, 41); } else { OntoRows(SomeHoldouts(), 42, 41); }
  }

  lemma {:induction false} PublicationRowsRefer(i: nat)
    requires 4 <= i < 7
    ensures References(Replaced(i))
  {
    hide Onto, SomeValidations, SomePublications, SomeCertificates, SomeEntries, SomeLineages, SomeHoldouts, SomeEvents;
    SomeKeys();
    SomeTargets();
    match i
    case 4 => OntoRows(SomePublications(), 2, 1);
    case 5 => OntoRows(SomeEntries(), 63, 61);
    case _ =>
  }

  lemma {:induction false} RemovedRows<T>(table: map<Key, T>, key: Key)
    ensures Removed(table, key).Keys == table.Keys - {key}
    ensures forall k :: k in Removed(table, key) ==> Removed(table, key)[k] == table[k]
  {
  }

  lemma {:induction false} ClaimedRowsRefer(i: nat)
    requires 7 <= i < |Replacements()|
    ensures References(Replaced(i))
  {
    hide Removed, SomeValidations, SomePublications, SomeCertificates, SomeEntries, SomeLineages, SomeHoldouts, SomeEvents;
    SomeKeys();
    SomeTargets();
    if i == 7 { RemovedRows(SomeEntries(), 61); } else { RemovedRows(SomeHoldouts(), 41); }
  }

  lemma {:induction false} EachUndoes(i: nat)
    requires i < |Replacements()| && Justified(Exposed(), 1)
    ensures Undoes(Exposed(), Replacements()[i], 1)
  {
  }

  /** The exceptions are real: in a store that meets every constraint each of these
      statements is let through and undoes the justification of publication 1. */
  lemma {:induction false} EachExceptionHappens(i: nat)
    requires i < |Replacements()|
    ensures Inv(Exposed()) && References(Exposed()) && Justified(Exposed(), 1)
    ensures Execute(Exposed(), Replacements()[i]).Some? && !Justified(Execute(Exposed(), Replacements()[i]).value, 1)
  {
    hide Inv, References, Justified, Exposed, Undoes, Frozen, Attempted, Replacements, Replaced;
    ExposedIsSound();
    ExposedIsJustified();
    NoneIsFrozen(i);
    EachIsReplaced(i);
    if i < 2 { ValidationRowsRefer(i); } else if i < 4 { LineageRowsRefer(i); } else if i < 7 { PublicationRowsRefer(i); } else { ClaimedRowsRefer(i); }
    EachUndoes(i);
    JustificationHoldsExactly(Exposed(), Replacements()[i], 1);
  }
}
