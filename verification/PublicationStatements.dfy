/** Which statements go through, column by column: what a statement leaves in a table, which ones a
    trigger aborts, and which ones a foreign key does. */
module PublicationStatements {
  import opened Outcomes
  import opened PublicationTables
  import opened PublicationTriggers

  // ---------------------------------------------------------------- what a statement leaves

  /** Under which key an edit writes which row, if it writes at all. */
  function WrittenBy<T>(table: map<Key, T>, edit: Edit<T>): Option<(Key, T)> {
    match edit
    case Insert(key, row, _, _) => Some((key, row))
    case Update(key, newKey, newRow, _, _) => if key in table then Some((newKey, newRow)) else None
    case Delete(_) => None
  }

  /** The edit removes the row it names before it writes. */
  predicate Vacates<T>(edit: Edit<T>, key: Key) { !edit.Insert? && edit.key == key }

  /** A row other than the one the edit names stands in the way of what it writes. */
  predicate InTheWay<T>(table: map<Key, T>, edit: Edit<T>, collides: (T, T) -> bool, key: Key) {
    && key in table && !Vacates(edit, key) && WrittenBy(table, edit).Some?
    && (key == WrittenBy(table, edit).value.0 || (!edit.Delete? && edit.claims == Some(key)) || collides(table[key], WrittenBy(table, edit).value.1))
  }

  /** A statement fails exactly when it is plain and some row is in its way; otherwise it leaves the row
      it writes and every row it neither names nor finds in its way. */
  lemma {:induction false} EditedExactly<T>(table: map<Key, T>, edit: Edit<T>, collides: (T, T) -> bool)
    ensures var after := Edited(table, edit, collides);
      && (after.None? <==> !edit.Delete? && !edit.replace && exists k :: InTheWay(table, edit, collides, k))
      && (after.Some? && WrittenBy(table, edit).Some? ==>
            WrittenBy(table, edit).value.0 in after.value && after.value[WrittenBy(table, edit).value.0] == WrittenBy(table, edit).value.1)
      && (after.Some? ==> forall k :: WrittenBy(table, edit).None? || k != WrittenBy(table, edit).value.0 ==>
            (k in after.value <==> k in table && !Vacates(edit, k) && !InTheWay(table, edit, collides, k))
            && (k in after.value ==> after.value[k] == table[k]))
  {
    if WrittenBy(table, edit).Some? {
      var (key, row) := WrittenBy(table, edit).value;
      var rest := if edit.Insert? then table else Removed(table, edit.key);
      assert Edited(table, edit, collides) == Written(rest, key, row, edit.replace, edit.claims, collides);
      forall k ensures InTheWay(table, edit, collides, k)
                  <==> k in rest && (k == key || edit.claims == Some(k) || collides(rest[k], row))
      {
      }
    }
  }

  // ---------------------------------------------------------------- which triggers fire

  /** A published publication rests on a validation. */
  ghost predicate PublishedOn(db: Database, validation: Key) {
    exists k :: k in db.publications && db.publications[k].state == Published && db.publications[k].validation == validation
  }

  /** The triggers on validations abort exactly the statements that update or delete one that a published
      publication rests on, and the inserts that repeat its key or its content hash. */
  lemma {:induction false} ValidationsFreezeExactly(db: Database, edit: Edit<Validation>)
    ensures Frozen(db, OnValidations(edit)) <==> (
      exists v :: v in db.validations && PublishedOn(db, v)
        && (edit.key == v || (edit.Insert? && edit.row.contentHash == db.validations[v].contentHash)))
  {
  }

  /** Those on certificates abort exactly the same for the certificate of such a validation, by its key or its search run. */
  lemma {:induction false} CertificatesFreezeExactly(db: Database, edit: Edit<CertificateRow>)
    ensures Frozen(db, OnCertificates(edit)) <==> (
      exists c, v :: c in db.certificates && v in db.validations && PublishedOn(db, v)
        && db.validations[v].certificate == Some(c)
        && (edit.key == c || (edit.Insert? && edit.row.searchRun == db.certificates[c].searchRun)))
  {
    hide PublishedOn, PublishedFor;
    forall v ensures PublishedOn(db, v) <==> PublishedFor(db, v) { PublishedOnAgrees(db, v); }
  }

  lemma {:induction false} PublishedOnAgrees(db: Database, v: Key)
    ensures PublishedOn(db, v) <==> PublishedFor(db, v)
  {
  }

  /** The row names its validation's profile, and so do the validation's certificate and its consumed holdout slot. */
  ghost predicate Provenanced(db: Database, p: Publication) {
    exists c, h :: c in db.certificates && h in db.holdouts && p.validation in db.validations
      && db.validations[p.validation].certificate == Some(c) && db.validations[p.validation].lineage == h
      && p.profile == Some(db.validations[p.validation].profile) && p.profile == Some(db.certificates[c].profile)
      && p.profile == Some(db.holdouts[h].profile) && db.holdouts[h].consumedBy == Some(p.validation)
  }

  lemma {:induction false} ProvenanceExactly(db: Database, p: Publication)
    ensures Provenance(db, p) <==> Provenanced(db, p)
  {
  }

  /** Those on publications abort exactly: any write to a published row, or in place of one by its key or validation;
      a change to a set registry identity or profile; a row published without its provenance. */
  lemma {:induction false} PublicationsFreezeExactly(db: Database, edit: Edit<Publication>)
    ensures edit.Delete? ==> (Frozen(db, OnPublications(edit)) <==> edit.key in db.publications && db.publications[edit.key].state == Published)
    ensures edit.Insert? ==> (Frozen(db, OnPublications(edit)) <==>
      || (edit.row.state == Published && !Provenanced(db, edit.row))
      || exists k :: k in db.publications && db.publications[k].state == Published && (k == edit.key || db.publications[k].validation == edit.row.validation))
    ensures edit.Update? ==> (Frozen(db, OnPublications(edit)) <==> (
      edit.key in db.publications &&
      var was := db.publications[edit.key];
      || was.state == Published
      || (edit.newRow.state == Published && !Provenanced(db, edit.newRow))
      || (was.registry != None && edit.newRow.registry != was.registry)
      || (was.profile != None && edit.newRow.profile != was.profile)))
  {
    hide Provenance, Provenanced;
    if edit.Insert? { ProvenanceExactly(db, edit.row); }
    if edit.Update? { ProvenanceExactly(db, edit.newRow); }
  }

  /** Those on the other tables abort exactly: any write to a closed lineage or a consumed holdout slot, or an insert over
      one; any write to the registry entry of a published publication, and any insert of another for it. */
  lemma {:induction false} OthersFreezeExactly(db: Database, lineage: Edit<bool>, holdout: Edit<Holdout>, entry: Edit<RegistryEntry>)
    ensures Frozen(db, OnLineages(lineage)) <==> (lineage.key, true) in db.lineages.Items
    ensures Frozen(db, OnHoldouts(holdout)) <==> holdout.key in db.holdouts && db.holdouts[holdout.key].consumedBy != None
    ensures Frozen(db, OnRegistry(entry)) <==> (
      exists p :: p in db.publications && db.publications[p].state == Published
        && (if entry.Insert? then entry.row.publication == p else entry.key in db.registry && db.registry[entry.key].publication == p))
  {
  }

  // ---------------------------------------------------------------- which statements go through

  /** The foreign keys, column by column. */
  lemma {:induction false} ReferencesExactly(db: Database)
    ensures References(db) <==>
      && (forall k :: k in db.validations ==>
           db.validations[k].lineage in db.lineages && forall c :: db.validations[k].certificate == Some(c) ==> c in db.certificates)
      && (forall k :: k in db.holdouts ==> k in db.lineages && forall v :: db.holdouts[k].consumedBy == Some(v) ==> v in db.validations)
      && (forall k :: k in db.publications ==>
           && db.publications[k].validation in db.validations && db.publications[k].lineage in db.lineages
           && forall j :: db.publications[k].ownerJob == Some(j) ==> j in db.jobs)
      && (forall k :: k in db.events && k !in db.publications ==> db.events[k] == [])
      && (forall k :: k in db.registry ==> db.registry[k].publication in db.publications && db.registry[k].validation in db.validations)
  {
    hide ValidationRefers, HoldoutRefers, PublicationRefers;
    forall k | k in db.validations { RefersExactly(db, db.validations[k]); }
    forall k | k in db.holdouts { SlotRefersExactly(db, k, db.holdouts[k]); }
    forall k | k in db.publications { RowRefersExactly(db, db.publications[k]); }
  }

  lemma {:induction false} RefersExactly(db: Database, v: Validation)
    ensures ValidationRefers(db, v) <==> v.lineage in db.lineages && forall c :: v.certificate == Some(c) ==> c in db.certificates
  {
    Names(v.certificate, db.certificates.Keys);
  }

  lemma {:induction false} SlotRefersExactly(db: Database, lineage: Key, h: Holdout)
    ensures HoldoutRefers(db, lineage, h) <==> lineage in db.lineages && forall v :: h.consumedBy == Some(v) ==> v in db.validations
  {
    Names(h.consumedBy, db.validations.Keys);
  }

  lemma {:induction false} RowRefersExactly(db: Database, p: Publication)
    ensures PublicationRefers(db, p)
       <==> p.validation in db.validations && p.lineage in db.lineages && forall j :: p.ownerJob == Some(j) ==> j in db.jobs
  {
    Names(p.ownerJob, db.jobs.Keys);
  }

  lemma {:induction false} Names(name: Option<Key>, keys: set<Key>)
    ensures (name.Some? ==> name.value in keys) <==> forall k :: name == Some(k) ==> k in keys
  {
  }

  /** The unique columns: no two rows share one. */
  ghost predicate UniqueColumns(db: Database) {
    && (forall a, b :: a in db.validations && b in db.validations && a != b ==> db.validations[a].contentHash != db.validations[b].contentHash)
    && (forall a, b :: a in db.certificates && b in db.certificates && a != b ==> db.certificates[a].searchRun != db.certificates[b].searchRun)
    && (forall a, b :: a in db.publications && b in db.publications && a != b ==>
         db.publications[a].validation != db.publications[b].validation
         && (db.publications[a].registry == None || db.publications[a].registry != db.publications[b].registry))
    && (forall a, b :: a in db.registry && b in db.registry && a != b ==>
         db.registry[a].publication != db.registry[b].publication && db.registry[a].validation != db.registry[b].validation)
  }

  ghost predicate Apart<T>(table: map<Key, T>, collides: (T, T) -> bool) {
    forall a, b :: a in table && b in table && a != b ==> !collides(table[a], table[b])
  }

  /** Whatever goes through, plain or OR REPLACE, leaves no two rows that share a unique column. */
  lemma {:induction false} UniqueColumnsStay(db: Database, statement: Statement)
    requires UniqueColumns(db) && Execute(db, statement).Some?
    ensures UniqueColumns(Execute(db, statement).value)
  {
    hide Edited, References, Frozen;
    match statement
    case OnValidations(edit) => StillApart(db.validations, edit, SameContent);
    case OnCertificates(edit) => StillApart(db.certificates, edit, SameSearchRun);
    case OnPublications(edit) => StillApart(db.publications, edit, SamePublication);
    case OnRegistry(edit) => StillApart(db.registry, edit, SameEntry);
    case _ =>
  }

  lemma {:induction false} StillApart<T>(table: map<Key, T>, edit: Edit<T>, collides: (T, T) -> bool)
    requires Apart(table, collides) && Edited(table, edit, collides).Some? && forall x, y :: collides(x, y) == collides(y, x)
    ensures Apart(Edited(table, edit, collides).value, collides)
  {
    hide Edited;
    EditedExactly(table, edit, collides);
  }

  /** A plain insert under a free key that shares no unique column and claims no row's number adds its row. */
  lemma {:induction false} FreshRowsGoIn(db: Database, statement: Statement)
    ensures statement.OnValidations? && statement.validation.Insert? && statement.validation.claims == None ==>
      var edit := statement.validation;
      edit.key !in db.validations && (forall k :: k in db.validations ==> db.validations[k].contentHash != edit.row.contentHash) ==>
        Attempted(db, statement) == Some(db.(validations := db.validations[edit.key := edit.row]))
    ensures statement.OnCertificates? && statement.certificate.Insert? && statement.certificate.claims == None ==>
      var edit := statement.certificate;
      edit.key !in db.certificates && (forall k :: k in db.certificates ==> db.certificates[k].searchRun != edit.row.searchRun) ==>
        Attempted(db, statement) == Some(db.(certificates := db.certificates[edit.key := edit.row]))
    ensures statement.OnPublications? && statement.publication.Insert? && statement.publication.claims == None ==>
      var edit := statement.publication;
      edit.key !in db.publications
      && (forall k :: k in db.publications ==>
           db.publications[k].validation != edit.row.validation
           && (edit.row.registry == None || db.publications[k].registry != edit.row.registry)) ==>
        Attempted(db, statement) == Some(db.(publications := db.publications[edit.key := edit.row]))
    ensures statement.OnRegistry? && statement.entry.Insert? && statement.entry.claims == None ==>
      var edit := statement.entry;
      edit.key !in db.registry
      && (forall k :: k in db.registry ==> db.registry[k].publication != edit.row.publication && db.registry[k].validation != edit.row.validation) ==>
        Attempted(db, statement) == Some(db.(registry := db.registry[edit.key := edit.row]))
  {
    hide Edited;
    match statement
    case OnValidations(edit) =>
      if edit.Insert? && edit.claims == None && edit.key !in db.validations && forall k :: k in db.validations ==> !SameContent(db.validations[k], edit.row) {
        FreshRow(db.validations, edit, SameContent);
      }
    case OnCertificates(edit) =>
      if edit.Insert? && edit.claims == None && edit.key !in db.certificates
         && forall k :: k in db.certificates ==> !SameSearchRun(db.certificates[k], edit.row) {
        FreshRow(db.certificates, edit, SameSearchRun);
      }
    case OnPublications(edit) =>
      if edit.Insert? && edit.claims == None && edit.key !in db.publications
         && forall k :: k in db.publications ==> !SamePublication(db.publications[k], edit.row) {
        FreshRow(db.publications, edit, SamePublication);
      }
    case OnRegistry(edit) =>
      if edit.Insert? && edit.claims == None && edit.key !in db.registry && forall k :: k in db.registry ==> !SameEntry(db.registry[k], edit.row) {
        FreshRow(db.registry, edit, SameEntry);
      }
    case _ =>
  }

  lemma {:induction false} FreshRow<T>(table: map<Key, T>, edit: Edit<T>, collides: (T, T) -> bool)
    requires edit.Insert? && edit.claims == None && edit.key !in table && forall k :: k in table ==> !collides(table[k], edit.row)
    ensures Edited(table, edit, collides) == Some(table[edit.key := edit.row])
  {
    if edit.replace { assert Edited(table, edit, collides).value == table[edit.key := edit.row]; }
  }

  /** While nothing is published, no statement on validations, certificates or the registry is frozen, and none on
      publications that publishes nothing and leaves set identities alone: what aborts them is a constraint. */
  lemma {:induction false} NothingPublishedNothingFrozen(db: Database, statement: Statement)
    requires forall k :: k in db.publications ==> db.publications[k].state != Published
    ensures statement.OnValidations? || statement.OnCertificates? || statement.OnRegistry? ==>
      (Execute(db, statement).Some? <==> Attempted(db, statement).Some? && References(Attempted(db, statement).value))
    ensures statement.OnPublications? && statement.publication.Delete? ==>
      (Execute(db, statement).Some? <==> References(Attempted(db, statement).value))
  {
    hide References, Edited;
    match statement
    case OnValidations(edit) => ValidationsFreezeExactly(db, edit);
    case OnCertificates(edit) => CertificatesFreezeExactly(db, edit);
    case OnRegistry(edit) => OthersFreezeExactly(db, Delete(0), Delete(0), edit);
    case OnPublications(edit) => PublicationsFreezeExactly(db, edit); EditedExactly(db.publications, edit, SamePublication);
    case _ =>
  }
}
