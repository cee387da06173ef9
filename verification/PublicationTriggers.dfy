/** The freeze triggers: which statements the store lets through once a
    publication is published, and what they can still undo. */
module PublicationTriggers {
  import opened Outcomes
  import opened PublicationInvariants
  import opened PublicationSteps
  import opened PublicationTables

  /** One SQL statement against a table: an insert or an update of one row, key
      included, each plain or OR REPLACE; a delete. No table is declared WITHOUT ROWID,
      so beside its key a row has a unique row number, and a statement may claim the
      number of another row. */
  datatype Edit<T> =
    | Insert(key: Key, row: T, replace: bool, claims: Option<Key>)
    | Update(key: Key, newKey: Key, newRow: T, replace: bool, claims: Option<Key>)
    | Delete(key: Key)

  datatype Statement =
    | OnValidations(validation: Edit<Validation>)
    | OnCertificates(certificate: Edit<CertificateRow>)
    | OnLineages(lineage: Edit<bool>)
    | OnHoldouts(holdout: Edit<Holdout>)
    | OnPublications(publication: Edit<Publication>)
    | OnRegistry(entry: Edit<RegistryEntry>)

  function Removed<T>(table: map<Key, T>, key: Key): map<Key, T> { map k | k in table && k != key :: table[k] }

  /** Writes a row under a key: OR REPLACE removes every other row that collides on the
      key, a unique column or the row number, and no delete trigger fires for it, as the
      connection leaves recursive triggers off; otherwise a collision aborts. */
  function Written<T>(table: map<Key, T>, key: Key, row: T, replace: bool, claims: Option<Key>, collides: (T, T) -> bool): Option<map<Key, T>> {
    if replace then Some((map k | k in table && claims != Some(k) && !collides(table[k], row) :: table[k])[key := row])
    else if key in table || exists k :: k in table && (claims == Some(k) || collides(table[k], row)) then None
    else Some(table[key := row])
  }

  /** What a statement makes of a table; an update writes its row among the others. */
  function Edited<T>(table: map<Key, T>, edit: Edit<T>, collides: (T, T) -> bool): Option<map<Key, T>> {
    match edit
    case Delete(key) => Some(Removed(table, key))
    case Insert(key, row, replace, claims) => Written(table, key, row, replace, claims, collides)
    case Update(key, newKey, newRow, replace, claims) =>
      if key !in table then Some(table) else Written(Removed(table, key), newKey, newRow, replace, claims, collides)
  }

  // ---------------------------------------------------------------- the triggers' conditions

  predicate PublishedFor(db: Database, validation: Key) {
    exists k :: k in db.publications && db.publications[k].state.Published? && db.publications[k].validation == validation
  }

  predicate PublishedCertificate(db: Database, certificate: Key) {
    exists v :: v in db.validations && db.validations[v].certificate == Some(certificate) && PublishedFor(db, v)
  }

  predicate IsPublished(db: Database, publication: Key) {
    publication in db.publications && db.publications[publication].state.Published?
  }

  /** The columns whose collisions the UNIQUE constraints forbid, primary keys apart. */
  predicate SameContent(a: Validation, b: Validation) { a.contentHash == b.contentHash }

  predicate SameSearchRun(a: CertificateRow, b: CertificateRow) { a.searchRun == b.searchRun }

  predicate SamePublication(a: Publication, b: Publication) {
    a.validation == b.validation || SameRegistry(a, b)
  }

  predicate SameEntry(a: RegistryEntry, b: RegistryEntry) { a.publication == b.publication || a.validation == b.validation }

  predicate Never<T>(a: T, b: T) { false }

  /** Which edits of each table some BEFORE trigger aborts. The update triggers look at
      the row as it was, never at the key or the row it is about to become. */
  predicate ValidationFrozen(db: Database, edit: Edit<Validation>) {
    match edit
    case Insert(key, row, _, _) =>
      (key in db.validations && PublishedFor(db, key))
      || exists v :: v in db.validations && PublishedFor(db, v) && SameContent(db.validations[v], row)
    case Update(key, _, _, _, _) => key in db.validations && PublishedFor(db, key)
    case Delete(key) => key in db.validations && PublishedFor(db, key)
  }

  predicate CertificateFrozen(db: Database, edit: Edit<CertificateRow>) {
    match edit
    case Insert(key, row, _, _) =>
      (key in db.certificates && PublishedCertificate(db, key))
      || exists c :: c in db.certificates && PublishedCertificate(db, c) && SameSearchRun(db.certificates[c], row)
    case Update(key, _, _, _, _) => key in db.certificates && PublishedCertificate(db, key)
    case Delete(key) => key in db.certificates && PublishedCertificate(db, key)
  }

  predicate LineageFrozen(db: Database, key: Key) { key in db.lineages && db.lineages[key] }

  predicate HoldoutFrozen(db: Database, key: Key) { key in db.holdouts && db.holdouts[key].consumedBy.Some? }

  /** What the provenance triggers ask of a row that becomes published. */
  predicate Provenance(db: Database, p: Publication) {
    && p.validation in db.validations &&
    var v := db.validations[p.validation];
    && v.certificate.Some? && v.certificate.value in db.certificates && v.lineage in db.holdouts
    && p.profile == Some(v.profile) && db.certificates[v.certificate.value].profile == v.profile
    && db.holdouts[v.lineage].profile == v.profile && db.holdouts[v.lineage].consumedBy == Some(p.validation)
  }

  predicate PublicationFrozen(db: Database, edit: Edit<Publication>) {
    match edit
    case Insert(key, row, _, _) =>
      (exists k :: k in db.publications && db.publications[k].state.Published? && (k == key || db.publications[k].validation == row.validation))
      || (row.state.Published? && !Provenance(db, row))
    case Update(key, _, row, _, _) =>
      key in db.publications &&
      var current := db.publications[key];
      current.state.Published? || (current.registry.Some? && row.registry != current.registry) || (current.profile.Some? && row.profile != current.profile)
      || (row.state.Published? && !Provenance(db, row))
    case Delete(key) => IsPublished(db, key)
  }

  predicate EntryFrozen(db: Database, edit: Edit<RegistryEntry>) {
    match edit
    case Insert(_, row, _, _) => IsPublished(db, row.publication)
    case Update(key, _, _, _, _) => key in db.registry && IsPublished(db, db.registry[key].publication)
    case Delete(key) => key in db.registry && IsPublished(db, db.registry[key].publication)
  }

  /** The foreign keys among these tables, which the store enforces on every statement. */
  predicate References(db: Database) {
    && (forall k :: k in db.validations ==> ValidationRefers(db, db.validations[k]))
    && (forall k :: k in db.holdouts ==> HoldoutRefers(db, k, db.holdouts[k]))
    && (forall k :: k in db.publications ==> PublicationRefers(db, db.publications[k]))
    && (forall k :: k in db.events && db.events[k] != [] ==> k in db.publications)
    && (forall k :: k in db.registry ==> EntryRefers(db, db.registry[k]))
  }

  predicate ValidationRefers(db: Database, v: Validation) {
    v.lineage in db.lineages && (v.certificate.Some? ==> v.certificate.value in db.certificates)
  }

  predicate HoldoutRefers(db: Database, lineage: Key, h: Holdout) {
    lineage in db.lineages && (h.consumedBy.Some? ==> h.consumedBy.value in db.validations)
  }

  predicate PublicationRefers(db: Database, p: Publication) {
    p.validation in db.validations && p.lineage in db.lineages && (p.ownerJob.Some? ==> p.ownerJob.value in db.jobs)
  }

  predicate EntryRefers(db: Database, e: RegistryEntry) { e.publication in db.publications && e.validation in db.validations }

  /** Some trigger aborts the statement. */
  predicate Frozen(db: Database, statement: Statement) {
    match statement
    case OnValidations(edit) => ValidationFrozen(db, edit)
    case OnCertificates(edit) => CertificateFrozen(db, edit)
    case OnLineages(edit) => LineageFrozen(db, edit.key)
    case OnHoldouts(edit) => HoldoutFrozen(db, edit.key)
    case OnPublications(edit) => PublicationFrozen(db, edit)
    case OnRegistry(edit) => EntryFrozen(db, edit)
  }

  /** The tables a statement would leave, unique columns permitting. */
  function Attempted(db: Database, statement: Statement): Option<Database> {
    match statement
    case OnValidations(edit) =>
      var table := Edited(db.validations, edit, SameContent);
      if table.None? then None else Some(db.(validations := table.value))
    case OnCertificates(edit) =>
      var table := Edited(db.certificates, edit, SameSearchRun);
      if table.None? then None else Some(db.(certificates := table.value))
    case OnLineages(edit) =>
      var table := Edited(db.lineages, edit, Never<bool>);
      if table.None? then None else Some(db.(lineages := table.value))
    case OnHoldouts(edit) =>
      var table := Edited(db.holdouts, edit, Never<Holdout>);
      if table.None? then None else Some(db.(holdouts := table.value))
    case OnPublications(edit) =>
      var table := Edited(db.publications, edit, SamePublication);
      if table.None? then None else Some(db.(publications := table.value))
    case OnRegistry(edit) =>
      var table := Edited(db.registry, edit, SameEntry);
      if table.None? then None else Some(db.(registry := table.value))
  }

  /** The tables after a statement, or nothing when a trigger, a unique column or a foreign key aborts it. */
  function Execute(db: Database, statement: Statement): Option<Database> {
    var after := Attempted(db, statement);
    if Frozen(db, statement) || after.None? || !References(after.value) then None else after
  }

  // ---------------------------------------------------------------- justification

  /** The registry holds a publication's entry, under the identity the row pinned. */
  predicate RegisteredAs(db: Database, id: Key, p: Publication) {
    && p.registry.Some? && p.registry.value in db.registry
    && db.registry[p.registry.value] == RegistryEntry(id, p.validation, p.strategy, p.candidate, p.lineage)
  }

  /** A published row whose prerequisites stand and whose entry is in the registry. */
  predicate JustifiedAs(db: Database, id: Key, p: Publication) {
    p.state.Published? && Prerequisites(db, p) && RegisteredAs(db, id, p)
  }

  /** Everything that justifies a published publication still stands. */
  predicate Justified(db: Database, id: Key) {
    id in db.publications && JustifiedAs(db, id, db.publications[id])
  }

  /** An OR REPLACE update that moves another row of a table onto a key. */
  predicate MovesOnto<T>(table: map<Key, T>, edit: Edit<T>, key: Key) {
    edit.Update? && edit.replace && edit.key in table && edit.newKey == key
  }

  /** An OR REPLACE write of another row that claims the row number of the row under a key. */
  predicate Evicts<T>(table: map<Key, T>, edit: Edit<T>, key: Key) {
    || (edit.Insert? && edit.replace && edit.claims == Some(key) && edit.key != key)
    || (edit.Update? && edit.replace && edit.claims == Some(key) && edit.key in table && edit.newKey != key)
  }

  /** An OR REPLACE write of some row that takes an entry's key or one of its unique columns. */
  predicate TakesEntry(db: Database, edit: Edit<RegistryEntry>, r: Key, entry: RegistryEntry) {
    || (edit.Insert? && edit.replace && (edit.key == r || SameEntry(entry, edit.row)))
    || (edit.Update? && edit.replace && edit.key in db.registry && (edit.newKey == r || SameEntry(entry, edit.newRow)))
  }

  /** The ways around the triggers: an OR REPLACE update that moves another row onto a
      justifying row and does not itself serve in its place; where nothing refers to the
      row, which is so for holdout slots and registry entries, also an OR REPLACE write
      that claims its row number; in the registry, also an OR REPLACE insert under its
      key, or a collision on a unique column. */
  predicate Undoes(db: Database, statement: Statement, id: Key)
    requires Justified(db, id)
  {
    var p := db.publications[id];
    var v := db.validations[p.validation];
    match statement
    case OnValidations(edit) => MovesOnto(db.validations, edit, p.validation) && !Supports(db, p, edit.newRow)
    case OnCertificates(edit) =>
      MovesOnto(db.certificates, edit, v.certificate.value) && !(edit.newRow.passed && edit.newRow.profile == v.profile)
    case OnLineages(edit) => MovesOnto(db.lineages, edit, v.lineage) && !edit.newRow
    case OnHoldouts(edit) =>
      || (MovesOnto(db.holdouts, edit, v.lineage) && edit.newRow != Holdout(v.profile, Some(p.validation)))
      || Evicts(db.holdouts, edit, v.lineage)
    case OnPublications(edit) => MovesOnto(db.publications, edit, id) && !JustifiedAs(db, id, edit.newRow)
    case OnRegistry(edit) =>
      var entry := db.registry[p.registry.value];
      || (TakesEntry(db, edit, p.registry.value, entry) && !(edit.Update? && edit.newKey == p.registry.value && edit.newRow == entry))
      || Evicts(db.registry, edit, p.registry.value)
  }

  /** Committing makes a publication justified: its prerequisites were true at that moment. */
  lemma {:induction false} PublishingJustifies(db: Database, now: nat, id: Key, seen: Publication, registryId: Key, json: Report, html: Report)
    requires Inv(db) && PublishAtomically(db, now, id, seen, registryId, json, html).answer.Ok?
    ensures Justified(PublishAtomically(db, now, id, seen, registryId, json, html).db, id)
    ensures Provenance(db, PublishedRow(db.publications[id], now))
  {
    hide Inv, LinkedPublished, RegistryConflict, Conflicts;
  }

  /** What becomes of one row of a table under a statement on another: it stays, unless
      OR REPLACE writes over its key or removes it for a unique column or its row number. */
  lemma {:induction false} RowFate<T>(table: map<Key, T>, edit: Edit<T>, collides: (T, T) -> bool, key: Key)
    requires key in table && Edited(table, edit, collides).Some?
    requires edit.Update? || edit.Delete? ==> edit.key != key
    ensures var after := Edited(table, edit, collides).value;
      if edit.Delete? || (edit.Update? && edit.key !in table) then key in after && after[key] == table[key]
      else
        var (written, row) := if edit.Insert? then (edit.key, edit.row) else (edit.newKey, edit.newRow);
        if written == key then edit.replace && key in after && after[key] == row
        else if edit.claims == Some(key) || collides(table[key], row) then edit.replace && key !in after
        else key in after && after[key] == table[key]
  {
    if edit.Update? && edit.key in table {
      assert Removed(table, edit.key)[key] == table[key];
    }
  }

  lemma {:induction false} SamePrerequisites(db: Database, after: Database, p: Publication)
    requires Prerequisites(db, p) && after.validations == db.validations && after.certificates == db.certificates
    requires after.lineages == db.lineages && after.holdouts == db.holdouts
    ensures Prerequisites(after, p)
  {
  }

  lemma {:induction false} ValidationsDecide(db: Database, edit: Edit<Validation>, id: Key)
    requires Justified(db, id) && Execute(db, OnValidations(edit)).Some?
    ensures Justified(Execute(db, OnValidations(edit)).value, id) <==> !Undoes(db, OnValidations(edit), id)
  {
    var after := Execute(db, OnValidations(edit)).value;
    var p := db.publications[id];
    assert PublishedFor(db, p.validation);
    RowFate(db.validations, edit, SameContent, p.validation);
    assert PublicationRefers(after, p);
  }

  lemma {:induction false} CertificatesDecide(db: Database, edit: Edit<CertificateRow>, id: Key)
    requires Justified(db, id) && Execute(db, OnCertificates(edit)).Some?
    ensures Justified(Execute(db, OnCertificates(edit)).value, id) <==> !Undoes(db, OnCertificates(edit), id)
  {
    var after := Execute(db, OnCertificates(edit)).value;
    var p := db.publications[id];
    var v := db.validations[p.validation];
    assert PublishedFor(db, p.validation);
    assert PublishedCertificate(db, v.certificate.value);
    RowFate(db.certificates, edit, SameSearchRun, v.certificate.value);
    assert ValidationRefers(after, v);
  }

  lemma {:induction false} LineagesDecide(db: Database, edit: Edit<bool>, id: Key)
    requires Justified(db, id) && Execute(db, OnLineages(edit)).Some?
    ensures Justified(Execute(db, OnLineages(edit)).value, id) <==> !Undoes(db, OnLineages(edit), id)
  {
    var p := db.publications[id];
    RowFate(db.lineages, edit, Never<bool>, p.lineage);
    assert PublicationRefers(Execute(db, OnLineages(edit)).value, p);
  }

  lemma {:induction false} HoldoutsDecide(db: Database, edit: Edit<Holdout>, id: Key)
    requires Justified(db, id) && Execute(db, OnHoldouts(edit)).Some?
    ensures Justified(Execute(db, OnHoldouts(edit)).value, id) <==> !Undoes(db, OnHoldouts(edit), id)
  {
    RowFate(db.holdouts, edit, Never<Holdout>, db.publications[id].lineage);
  }

  lemma {:induction false} PublicationsDecide(db: Database, edit: Edit<Publication>, id: Key)
    requires Justified(db, id) && Execute(db, OnPublications(edit)).Some?
    ensures Justified(Execute(db, OnPublications(edit)).value, id) <==> !Undoes(db, OnPublications(edit), id)
  {
    hide Supports, Provenance;
    var after := Execute(db, OnPublications(edit)).value;
    var p := db.publications[id];
    assert IsPublished(db, id);
    RowFate(db.publications, edit, SamePublication, id);
    assert EntryRefers(after, db.registry[p.registry.value]);
    forall q: Publication ensures Prerequisites(after, q) <==> Prerequisites(db, q) {
      if q.validation in db.validations { SupportsAlike(db, after, q, db.validations[q.validation]); }
    }
  }

  lemma {:induction false} SupportsAlike(db: Database, after: Database, p: Publication, v: Validation)
    requires after.certificates == db.certificates && after.lineages == db.lineages && after.holdouts == db.holdouts
    ensures Supports(after, p, v) <==> Supports(db, p, v)
  {
  }

  lemma {:induction false} RegistryDecides(db: Database, edit: Edit<RegistryEntry>, id: Key)
    requires Justified(db, id) && Execute(db, OnRegistry(edit)).Some?
    ensures Justified(Execute(db, OnRegistry(edit)).value, id) <==> !Undoes(db, OnRegistry(edit), id)
  {
    hide Prerequisites;
    var after := Execute(db, OnRegistry(edit)).value;
    var p := db.publications[id];
    assert IsPublished(db, id);
    SamePrerequisites(db, after, p);
    RowFate(db.registry, edit, SameEntry, p.registry.value);
  }

  /** A justified publication stays justified under every statement the triggers and
      constraints let through, except exactly those that replace a justifying row. */
  lemma {:induction false} JustificationHoldsExactly(db: Database, statement: Statement, id: Key)
    requires Justified(db, id) && Execute(db, statement).Some?
    ensures Justified(Execute(db, statement).value, id) <==> !Undoes(db, statement, id)
  {
    hide Justified, Execute, Undoes;
    match statement
    case OnValidations(edit) => ValidationsDecide(db, edit, id);
    case OnCertificates(edit) => CertificatesDecide(db, edit, id);
    case OnLineages(edit) => LineagesDecide(db, edit, id);
    case OnHoldouts(edit) => HoldoutsDecide(db, edit, id);
    case OnPublications(edit) => PublicationsDecide(db, edit, id);
    case OnRegistry(edit) => RegistryDecides(db, edit, id);
  }
}
