/** Whole runs against the triggers: repository steps interleaved with any statement
    other writers get past the triggers, and what published rows can rely on. */
module PublicationJustification {
  import opened PublicationInvariants
  import opened PublicationRuns
  import opened PublicationSteps
  import opened PublicationTables
  import opened PublicationTriggers

  // ---------------------------------------------------------------- repository steps

  /** No repository step touches the validation tables, and registry entries only accrue. */
  lemma {:induction false} StepsKeepProvenance(db: Database, step: Step)
    requires Inv(db)
    ensures var after := Apply(db, step).db;
      && after.validations == db.validations && after.certificates == db.certificates
      && after.lineages == db.lineages && after.holdouts == db.holdouts
      && forall r :: r in db.registry ==> r in after.registry && after.registry[r] == db.registry[r]
  {
    hide Inv, CreateJob, ClaimNext, TransitionJob, RecoverInterrupted, GetOrCreate, Acquire, StageArtifacts, FailAttempt, PublishAtomically;
    InvKeyed(db);
  }

  /** Repository steps never undo a justification. */
  lemma {:induction false} StepsKeepJustification(db: Database, step: Step, id: Key)
    requires Inv(db) && Justified(db, id)
    ensures Justified(Apply(db, step).db, id)
  {
    hide Inv, Apply, Prerequisites, Evolves, JobsLater;
    InvKeyed(db);
    var after := Apply(db, step).db;
    StepEvolves(db, step);
    EvolvesLater(step, id, db.publications[id], after.publications[id]);
    StepsKeepProvenance(db, step);
    SamePrerequisites(db, after, db.publications[id]);
  }

  lemma {:induction false} InvKeyed(db: Database)
    requires Inv(db)
    ensures Keyed(db)
  {
  }

  ghost predicate AllJustified(db: Database) { forall id :: IsPublished(db, id) ==> Justified(db, id) }

  /** A step publishes nothing unjustified. */
  lemma {:induction false} StepsJustify(db: Database, step: Step)
    requires Inv(db) && AllJustified(db)
    ensures AllJustified(Apply(db, step).db)
  {
    hide Inv, Apply, Justified, Evolves, JobsLater, Later;
    InvKeyed(db);
    var after := Apply(db, step).db;
    forall id | IsPublished(after, id) ensures Justified(after, id) {
      if IsPublished(db, id) {
        StepsKeepJustification(db, step, id);
      } else {
        StepEvolves(db, step);
        assert id in db.publications;
        OnlyPublishingPublishes(step, id, db.publications[id], after.publications[id]);
        PublishedNow(db, step);
      }
    }
  }

  lemma {:induction false} OnlyPublishingPublishes(step: Step, id: Key, p: Publication, q: Publication)
    requires Evolves(step, id, p, q) && !p.state.Published? && q.state.Published?
    ensures step.Publish? && step.publication == id
  {
    hide FirstOf;
  }

  lemma {:induction false} PublishedNow(db: Database, step: Step)
    requires Inv(db) && step.Publish? && !IsPublished(db, step.publication) && IsPublished(Apply(db, step).db, step.publication)
    ensures Justified(Apply(db, step).db, step.publication)
  {
    hide Inv, Justified, PublishAtomically;
    InvKeyed(db);
    PublishingAnswers(db, step);
    PublishingJustifies(db, step.now, step.publication, step.seen, step.registryId, step.json, step.html);
  }

  lemma {:induction false} PublishingAnswers(db: Database, step: Step)
    requires Inv(db) && step.Publish? && Apply(db, step).db != db
    ensures PublishAtomically(db, step.now, step.publication, step.seen, step.registryId, step.json, step.html).answer.Ok?
  {
    hide RowSound, AllJobsSound, UniqueJobs, UniquePublications, Prerequisites, LinkedPublished, RegistryConflict, Conflicts, Committed;
  }

  // ---------------------------------------------------------------- foreign keys

  /** Repository steps keep the foreign keys, so that a statement is judged in a store that meets them. */
  lemma {:induction false} StepsKeepReferences(db: Database, step: Step)
    requires Inv(db) && References(db)
    ensures References(Apply(db, step).db)
  {
    hide Inv, Apply, PublicationRefers, EntryRefers, ValidationRefers, HoldoutRefers, Evolves, JobsLater;
    InvKeyed(db);
    var after := Apply(db, step).db;
    StepsKeepProvenance(db, step);
    StepEvolves(db, step);
    StepKeeps(db, step);
    InvKeyed(after);
    SameTargets(db, after);
    forall id | id in after.publications ensures PublicationRefers(after, after.publications[id]) {
      RowRefers(db, step, id);
    }
    forall r | r in after.registry ensures EntryRefers(after, after.registry[r]) {
      EntriesRefer(db, step, r);
    }
  }

  lemma {:induction false} SameTargets(db: Database, after: Database)
    requires after.validations == db.validations && after.certificates == db.certificates && after.lineages == db.lineages
    ensures forall v :: ValidationRefers(after, v) <==> ValidationRefers(db, v)
    ensures forall k, h :: HoldoutRefers(after, k, h) <==> HoldoutRefers(db, k, h)
  {
  }

  lemma {:induction false} RowRefers(db: Database, step: Step, id: Key)
    requires Inv(db) && References(db)
    requires id in Apply(db, step).db.publications
    ensures PublicationRefers(Apply(db, step).db, Apply(db, step).db.publications[id])
  {
    hide Inv, Apply, Evolves, JobsLater;
    InvKeyed(db);
    var after := Apply(db, step).db;
    StepsKeepProvenance(db, step);
    StepEvolves(db, step);
    StepKeeps(db, step);
    OwnerExists(after, id);
    if id in db.publications {
      assert PublicationRefers(db, db.publications[id]);
      EvolvesLater(step, id, db.publications[id], after.publications[id]);
    } else {
      NewRowRefers(db, step, id);
    }
  }

  lemma {:induction false} OwnerExists(db: Database, id: Key)
    requires Inv(db) && id in db.publications
    ensures db.publications[id].ownerJob.Some? ==> db.publications[id].ownerJob.value in db.jobs
  {
    hide Audited, UniqueJobs, UniquePublications, AllJobsSound;
    assert RowSound(db, id);
  }

  /** Only opening adds a publication, and only for a validation and a lineage that exist. */
  lemma {:induction false} NewRowRefers(db: Database, step: Step, id: Key)
    requires Inv(db) && id !in db.publications && id in Apply(db, step).db.publications
    ensures var p := Apply(db, step).db.publications[id]; p.validation in db.validations && p.lineage in db.lineages
  {
    hide Inv, UniqueJobs, UniquePublications, GetOrCreate, CreateJob, ClaimNext, TransitionJob, RecoverInterrupted, Acquire, StageArtifacts,
         FailAttempt, PublishAtomically;
    InvKeyed(db);
    if step.Open? { OpenedRefers(db, step.command, id); } else { NoNewRows(db, step); }
  }

  lemma {:induction false} OpenedRefers(db: Database, c: Command, id: Key)
    requires UniquePublications(db.publications) && id !in db.publications && id in GetOrCreate(db, c).db.publications
    ensures var p := GetOrCreate(db, c).db.publications[id]; p.validation in db.validations && p.lineage in db.lineages
  {
    hide UniquePublications, RegistryTaken, PinProfile, PinRegistry, SameIdentity;
  }

  lemma {:induction false} NoNewRows(db: Database, step: Step)
    requires Inv(db) && !step.Open?
    ensures Apply(db, step).db.publications.Keys == db.publications.Keys
  {
    hide Inv, CreateJob, ClaimNext, TransitionJob, RecoverInterrupted, GetOrCreate, Acquire, StageArtifacts, FailAttempt, PublishAtomically;
    InvKeyed(db);
  }

  lemma {:induction false} EntriesRefer(db: Database, step: Step, r: Key)
    requires Inv(db) && References(db) && r in Apply(db, step).db.registry
    ensures EntryRefers(Apply(db, step).db, Apply(db, step).db.registry[r])
  {
    hide Inv, Apply, Evolves, JobsLater;
    InvKeyed(db);
    StepEvolves(db, step);
    StepsKeepProvenance(db, step);
    if r in db.registry {
      assert EntryRefers(db, db.registry[r]);
    } else {
      NewEntryRefers(db, step, r);
    }
  }

  lemma {:induction false} NewEntryRefers(db: Database, step: Step, r: Key)
    requires Inv(db) && r !in db.registry && r in Apply(db, step).db.registry
    ensures var e := Apply(db, step).db.registry[r]; e.publication in db.publications && e.validation in db.validations
  {
    hide RowSound, AllJobsSound, UniqueJobs, UniquePublications, LinkedPublished, RegistryConflict, Conflicts, CreateJob, ClaimNext,
         TransitionJob, RecoverInterrupted, GetOrCreate, Acquire, StageArtifacts, FailAttempt, Supports;
  }

  // ---------------------------------------------------------------- whole runs

  datatype Move = Repository(step: Step) | Elsewhere(statement: Statement)

  /** A repository step, or a statement of another writer with whatever it leaves. */
  function After(db: Database, move: Move): Database
    requires Keyed(db)
  {
    match move
    case Repository(step) => Apply(db, step).db
    case Elsewhere(statement) => if Execute(db, statement).Some? then Execute(db, statement).value else db
  }

  /** Other writers leave publications to the repository and replace no justifying row. */
  ghost predicate Harmless(db: Database, move: Move) {
    move.Elsewhere? ==> !move.statement.OnPublications? && forall id :: Justified(db, id) ==> !Undoes(db, move.statement, id)
  }

  /** States from the empty store on, by steps and statements in any order. */
  ghost predicate IsHistory(states: seq<Database>, moves: seq<Move>) {
    && |states| == |moves| + 1 && states[0] == EMPTY
    && forall i :: 0 <= i < |moves| ==> Keyed(states[i]) && Harmless(states[i], moves[i]) && states[i + 1] == After(states[i], moves[i])
  }

  /** What holds in every reachable state. */
  ghost predicate Trustworthy(db: Database) { Inv(db) && References(db) && AllJustified(db) }

  lemma {:induction false} MoveKeepsTrust(db: Database, move: Move)
    requires Trustworthy(db) && Keyed(db) && Harmless(db, move)
    ensures Trustworthy(After(db, move))
  {
    hide Inv, References, Justified, Apply, Undoes, IsPublished, Execute;
    match move
    case Repository(step) =>
      StepKeeps(db, step);
      StepsKeepReferences(db, step);
      StepsJustify(db, step);
    case Elsewhere(statement) =>
      if Execute(db, statement).Some? {
        StatementKeepsTrust(db, statement);
      }
  }

  lemma {:induction false} StatementKeepsTrust(db: Database, statement: Statement)
    requires Trustworthy(db) && Execute(db, statement).Some? && !statement.OnPublications?
    requires forall id :: Justified(db, id) ==> !Undoes(db, statement, id)
    ensures Trustworthy(Execute(db, statement).value)
  {
    hide Inv, References, Justified, Undoes, Frozen, Edited;
    var after := Execute(db, statement).value;
    SameTables(db, after);
    forall id | IsPublished(after, id) ensures Justified(after, id) {
      assert IsPublished(db, id);
      JustificationHoldsExactly(db, statement, id);
    }
  }

  /** From the empty store on, along any interleaving of repository steps with statements on
      the validation tables and the registry that replace no justifying row, everything
      published is justified. */
  lemma {:induction false} PublishedStayJustified(states: seq<Database>, moves: seq<Move>, i: nat)
    requires IsHistory(states, moves) && i < |states|
    ensures Trustworthy(states[i])
  {
    hide Inv, References, AllJustified, After, Harmless, Keyed, Trustworthy;
    if i > 0 {
      PublishedStayJustified(states, moves, i - 1);
      MoveKeepsTrust(states[i - 1], moves[i - 1]);
    } else {
      EmptyIsTrustworthy();
    }
  }

  lemma {:induction false} EmptyIsTrustworthy()
    ensures Trustworthy(EMPTY)
  {
  }
}
