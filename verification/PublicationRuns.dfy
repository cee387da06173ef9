/** Safety over whole runs: any interleaving of repository steps with any changes
    other writers make to the validation tables. */
module PublicationRuns {
  import opened Octets
  import opened Outcomes
  import opened PublicationInvariants
  import opened PublicationSteps
  import opened PublicationTables

  datatype Action =
    | Repository(step: Step)
    | Elsewhere(validations: map<Key, Validation>, certificates: map<Key, CertificateRow>, lineages: map<Key, bool>, holdouts: map<Key, Holdout>)

  function Next(db: Database, action: Action): Database
    requires Keyed(db)
  {
    match action
    case Repository(step) => Apply(db, step).db
    case Elsewhere(validations, certificates, lineages, holdouts) =>
      db.(validations := validations, certificates := certificates, lineages := lineages, holdouts := holdouts)
  }

  /** Each state follows from the one before by the action between them. */
  ghost predicate IsRun(states: seq<Database>, actions: seq<Action>) {
    && |states| == |actions| + 1 && Inv(states[0])
    && forall i :: 0 <= i < |actions| ==> Keyed(states[i]) && states[i + 1] == Next(states[i], actions[i])
  }

  lemma {:induction false} NextKeeps(db: Database, action: Action)
    requires Inv(db)
    ensures Inv(Next(db, action))
  {
    hide Apply;
    if action.Repository? {
      StepKeeps(db, action.step);
    } else {
      SameTables(db, Next(db, action));
    }
  }

  /** The invariant holds after every action of every run. */
  lemma {:induction false} RunKeeps(states: seq<Database>, actions: seq<Action>, i: nat)
    requires IsRun(states, actions) && i < |states|
    ensures Inv(states[i])
  {
    hide Inv, Next, Keyed;
    if i > 0 {
      RunKeeps(states, actions, i - 1);
      Follows(states, actions, i - 1);
      NextKeeps(states[i - 1], actions[i - 1]);
    }
  }

  lemma {:induction false} Follows(states: seq<Database>, actions: seq<Action>, i: nat)
    requires IsRun(states, actions) && i < |actions|
    ensures Keyed(states[i]) && states[i + 1] == Next(states[i], actions[i])
  {
    hide Inv, Next, Keyed;
  }

  // ---------------------------------------------------------------- rows only move forward

  /** A publication's later row: the same, or of a higher version; a published one is final
      and epochs never fall. */
  ghost predicate Later(p: Publication, q: Publication) {
    && (q == p || q.rowVersion > p.rowVersion) && (p.state.Published? ==> q == p) && p.epoch <= q.epoch
    && q.validation == p.validation && q.strategy == p.strategy && q.candidate == p.candidate && q.lineage == p.lineage
  }

  ghost predicate PublicationsLater(a: map<Key, Publication>, b: map<Key, Publication>) {
    forall id :: id in a ==> id in b && Later(a[id], b[id])
  }

  /** A terminal job never changes again. */
  ghost predicate JobsLater(a: map<Key, Job>, b: map<Key, Job>) {
    forall k :: k in a ==> k in b && (a[k].status.Terminal() ==> b[k] == a[k])
  }

  /** All a step can do to one publication's row. */
  ghost predicate Evolves(step: Step, id: Key, p: Publication, q: Publication) {
    || q == p
    || (step.Open? && !p.state.Published? && q == PinProfile(PinRegistry(p, step.command.registry), step.command.profile))
    || ((step.Move? || step.Recover?) && p.state.Preparing? && q == Released(p))
    || (step.Lease? && step.publication == id && !p.state.Published?
        && q == TakenOver(if p.state.Preparing? then Released(p) else p, step.job, step.token, step.expires))
    || (step.Stage? && step.publication == id && Owns(p, step.seen) && q == p.(staged := step.hashes, rowVersion := p.rowVersion + 1))
    || (step.Fail? && step.publication == id && Owns(p, step.seen)
        && q == Released(p).(staged := FirstOf(p.staged + step.orphans), failure := Some(step.failure)))
    || (step.Publish? && step.publication == id && Owns(p, step.seen) && p.staged == [step.json.hash, step.html.hash]
        && q == PublishedRow(p, step.now))
  }

  ghost predicate AllEvolve(step: Step, a: map<Key, Publication>, b: map<Key, Publication>) {
    && (forall id :: id in a ==> id in b && Evolves(step, id, a[id], b[id]))
    && (forall id :: id in b && id !in a ==> b[id].state.Available?)
  }

  lemma {:induction false} OneEvolves(step: Step, publications: map<Key, Publication>, id: Key, row: Publication)
    requires id in publications && Evolves(step, id, publications[id], row)
    ensures AllEvolve(step, publications, publications[id := row])
  {
  }

  lemma {:induction false} NoneEvolves(step: Step, publications: map<Key, Publication>)
    ensures AllEvolve(step, publications, publications)
  {
  }

  lemma {:induction false} RevokedEvolve(step: Step, db: Database, owners: set<Key>)
    requires step.Move? || step.Recover?
    ensures AllEvolve(step, db.publications, Revoked(db, owners).publications)
  {
  }

  lemma {:induction false} CreateEvolves(db: Database, step: Step)
    requires Inv(db) && step.Create?
    ensures var after := Apply(db, step).db; AllEvolve(step, db.publications, after.publications) && JobsLater(db.jobs, after.jobs)
  {
    hide RowSound, AllJobsSound, UniqueJobs, UniquePublications, CreateJob, AllEvolve, JobsLater;
    NoneEvolves(step, db.publications);
    JobsAdded(db.jobs, Apply(db, step).db.jobs);
  }

  lemma {:induction false} JobsAdded(a: map<Key, Job>, b: map<Key, Job>)
    requires forall k :: k in a ==> k in b && b[k] == a[k]
    ensures JobsLater(a, b)
  {
  }

  lemma {:induction false} ClaimEvolves(db: Database, step: Step)
    requires Inv(db) && step.Claim?
    ensures var after := Apply(db, step).db; AllEvolve(step, db.publications, after.publications) && JobsLater(db.jobs, after.jobs)
  {
    hide RowSound, Evolves, OldestQueued, IsOldest;
    NoneEvolves(step, db.publications);
    if QueuedJobs(db.jobs) != {} { QueuedOldest(db.jobs, OldestQueued(db.jobs)); }
  }

  lemma {:induction false} MoveEvolves(db: Database, step: Step)
    requires Inv(db) && step.Move?
    ensures var after := Apply(db, step).db; AllEvolve(step, db.publications, after.publications) && JobsLater(db.jobs, after.jobs)
  {
    hide RowSound, AllJobsSound, UniqueJobs, UniquePublications, Evolves, Transitioned, AllEvolve, Revoked;
    NoneEvolves(step, db.publications);
    if Apply(db, step).answer.Ok? {
      var row := Transitioned(db.jobs[step.id], step.now, step.target, step.newStage, step.newProgress, step.resultRef, step.hasError);
      var moved := db.(jobs := db.jobs[step.id := row]);
      RevokedEvolve(step, moved, {step.id});
      RevokedJobs(moved, {step.id});
    }
  }

  lemma {:induction false} RecoverEvolves(db: Database, step: Step)
    requires Inv(db) && step.Recover?
    ensures var after := Apply(db, step).db; AllEvolve(step, db.publications, after.publications) && JobsLater(db.jobs, after.jobs)
  {
    hide RowSound, AllJobsSound, UniqueJobs, UniquePublications, AllEvolve, Revoked, JobsLater, Interrupted;
    var failed := db.(jobs := Interrupted(db.jobs, RunningJobs(db.jobs), step.now));
    RevokedEvolve(step, failed, RunningJobs(db.jobs));
    RevokedJobs(failed, RunningJobs(db.jobs));
    InterruptedLater(db.jobs, step.now);
  }

  lemma {:induction false} InterruptedLater(jobs: map<Key, Job>, now: nat)
    ensures JobsLater(jobs, Interrupted(jobs, RunningJobs(jobs), now))
  {
  }

  lemma {:induction false} RevokedJobs(db: Database, owners: set<Key>)
    ensures Revoked(db, owners).jobs == db.jobs
  {
  }

  lemma {:induction false} PinnedRow(db: Database, k: Key, c: Command)
    requires k in db.publications
    ensures var after := PinExisting(db, k, c).db;
      after == db
      || (k == c.publication
          && after == db.(publications := db.publications[k := PinProfile(PinRegistry(db.publications[k], c.registry), c.profile)]))
  {
    hide RegistryTaken, PinProfile, PinRegistry, SameIdentity;
  }

  /** Opening leaves the rows alone, adds a fresh one, or pins identities on an existing one. */
  lemma {:induction false} OpenedRow(db: Database, c: Command)
    requires Keyed(db)
    ensures var after := GetOrCreate(db, c).db;
      after.jobs == db.jobs
      && (after.publications == db.publications
          || (c.publication !in db.publications && after.publications == db.publications[c.publication := Fresh(c)])
          || (c.publication in db.publications
              && after.publications == db.publications[c.publication := PinProfile(PinRegistry(db.publications[c.publication], c.registry), c.profile)]))
  {
    hide UniquePublications, UniqueJobs, PublicationOf, PinExisting, RegistryTaken, PinProfile, PinRegistry, Fresh;
    if PublicationsOf(db.publications, c.validation) != {} {
      PinnedRow(db, PublicationOf(db.publications, c.validation), c);
    }
  }

  lemma {:induction false} OpenEvolves(db: Database, step: Step)
    requires Inv(db) && step.Open?
    ensures var after := Apply(db, step).db; AllEvolve(step, db.publications, after.publications) && after.jobs == db.jobs
  {
    hide RowSound, AllJobsSound, UniqueJobs, UniquePublications, PinRegistry, PinProfile, Fresh, AllEvolve, GetOrCreate;
    var c := step.command;
    OpenedRow(db, c);
    NoneEvolves(step, db.publications);
    if c.publication !in db.publications {
      FreshEvolves(step, db.publications);
    } else {
      PinsNothingPublished(db.publications[c.publication], c);
      OneEvolves(step, db.publications, c.publication, PinProfile(PinRegistry(db.publications[c.publication], c.registry), c.profile));
    }
  }

  lemma {:induction false} FreshEvolves(step: Step, publications: map<Key, Publication>)
    requires step.Open? && step.command.publication !in publications
    ensures AllEvolve(step, publications, publications[step.command.publication := Fresh(step.command)])
  {
  }

  lemma {:induction false} PinsNothingPublished(p: Publication, c: Command)
    ensures p.state.Published? ==> PinProfile(PinRegistry(p, c.registry), c.profile) == p
  {
  }

  lemma {:induction false} TakeOverRow(before: Database, db: Database, id: Key, job: Key, token: Key, expires: nat)
    requires id in db.publications && id in db.events && SameRecords(before, db)
    ensures var after := TakeOver(before, db, id, job, token, expires).db;
      after == before || (after.jobs == db.jobs && after.publications == db.publications[id := TakenOver(db.publications[id], job, token, expires)])
  {
    hide RunningWorker, TakenOver;
  }

  /** An acquisition leaves the rows alone or takes over exactly its own. */
  lemma {:induction false} AcquiredRow(db: Database, now: nat, id: Key, seen: Publication, job: Key, token: Key, expires: nat)
    requires db.events.Keys == db.publications.Keys
    ensures var after := Acquire(db, now, id, seen, job, token, expires).db;
      after == db
      || (after.jobs == db.jobs && id in db.publications && !db.publications[id].state.Published?
          && var p := db.publications[id];
             after.publications == db.publications[id := TakenOver(if p.state.Preparing? then Released(p) else p, job, token, expires)])
  {
    hide TakeOver, ReleaseEvents, Released, TakenOver;
    if id in db.publications {
      var p, freed := db.publications[id], Reclaimed(db, id);
      TakeOverRow(db, freed, id, job, token, expires);
      var row := TakenOver(freed.publications[id], job, token, expires);
      assert freed.publications[id := row] == db.publications[id := row];
    }
  }

  lemma {:induction false} LeaseEvolves(db: Database, step: Step)
    requires Inv(db) && step.Lease?
    ensures var after := Apply(db, step).db; AllEvolve(step, db.publications, after.publications) && after.jobs == db.jobs
  {
    hide RowSound, AllJobsSound, UniqueJobs, UniquePublications, AllEvolve, Acquire, TakenOver, Released;
    AcquiredRow(db, step.now, step.publication, step.seen, step.job, step.token, step.expires);
    NoneEvolves(step, db.publications);
    var after := Apply(db, step).db;
    if after.publications != db.publications {
      OneEvolves(step, db.publications, step.publication, after.publications[step.publication]);
    }
  }

  lemma {:induction false} StageEvolves(db: Database, step: Step)
    requires Inv(db) && step.Stage?
    ensures var after := Apply(db, step).db; AllEvolve(step, db.publications, after.publications) && after.jobs == db.jobs
  {
    hide RowSound, AllJobsSound, UniqueJobs, UniquePublications, AllEvolve, HasNoRepeats;
    NoneEvolves(step, db.publications);
    if Apply(db, step).answer.Ok? {
      var p := db.publications[step.publication];
      OneEvolves(step, db.publications, step.publication, p.(staged := step.hashes, rowVersion := p.rowVersion + 1));
    }
  }

  lemma {:induction false} FailEvolves(db: Database, step: Step)
    requires Inv(db) && step.Fail?
    ensures var after := Apply(db, step).db; AllEvolve(step, db.publications, after.publications) && after.jobs == db.jobs
  {
    hide RowSound, AllJobsSound, UniqueJobs, UniquePublications, AllEvolve, FirstOf;
    NoneEvolves(step, db.publications);
    if Apply(db, step).answer.Ok? && !db.publications[step.publication].state.Published? {
      var p := db.publications[step.publication];
      OneEvolves(step, db.publications, step.publication,
                 Released(p).(staged := FirstOf(p.staged + step.orphans), failure := Some(step.failure)));
    }
  }

  lemma {:induction false} PublishEvolves(db: Database, step: Step)
    requires Inv(db) && step.Publish?
    ensures var after := Apply(db, step).db;
      && AllEvolve(step, db.publications, after.publications) && JobsLater(db.jobs, after.jobs)
      && (after.publications != db.publications ==> after.links == db.links[step.publication := (step.json.hash, step.html.hash)])
  {
    hide RowSound, AllJobsSound, UniqueJobs, UniquePublications, Prerequisites, LinkedPublished, RegistryConflict, Conflicts, AllEvolve;
    var after := Apply(db, step).db;
    NoneEvolves(step, db.publications);
    if Apply(db, step).answer.Ok? {
      OneEvolves(step, db.publications, step.publication, after.publications[step.publication]);
    }
  }

  /** Every step moves each publication in one of the listed ways and leaves terminal jobs alone. */
  lemma {:induction false} StepEvolves(db: Database, step: Step)
    requires Inv(db)
    ensures AllEvolve(step, db.publications, Apply(db, step).db.publications) && JobsLater(db.jobs, Apply(db, step).db.jobs)
  {
    hide RowSound, AllJobsSound, UniqueJobs, UniquePublications, Apply, AllEvolve, JobsLater;
    SameLater(db);
    match step
    case Create(_, _, _, _, _, _, _) => CreateEvolves(db, step);
    case Claim(_) => ClaimEvolves(db, step);
    case Move(_, _, _, _, _, _, _, _) => MoveEvolves(db, step);
    case Recover(_) => RecoverEvolves(db, step);
    case Open(_) => OpenEvolves(db, step);
    case Lease(_, _, _, _, _, _) => LeaseEvolves(db, step);
    case Stage(_, _, _, _) => StageEvolves(db, step);
    case Fail(_, _, _, _) => FailEvolves(db, step);
    case Publish(_, _, _, _, _, _) => PublishEvolves(db, step);
  }

  lemma {:induction false} EvolvesLater(step: Step, id: Key, p: Publication, q: Publication)
    requires Evolves(step, id, p, q)
    ensures Later(p, q)
  {
    hide FirstOf;
  }

  lemma {:induction false} ActionAdvances(db: Database, action: Action)
    requires Inv(db)
    ensures PublicationsLater(db.publications, Next(db, action).publications) && JobsLater(db.jobs, Next(db, action).jobs)
  {
    hide RowSound, AllJobsSound, UniqueJobs, UniquePublications, Later, Apply, Evolves, JobsLater;
    SameLater(db);
    if action.Repository? {
      StepEvolves(db, action.step);
      var after := Apply(db, action.step).db;
      forall id | id in db.publications ensures id in after.publications && Later(db.publications[id], after.publications[id]) {
        EvolvesLater(action.step, id, db.publications[id], after.publications[id]);
      }
    }
  }

  lemma {:induction false} SameLater(db: Database)
    ensures PublicationsLater(db.publications, db.publications) && JobsLater(db.jobs, db.jobs)
  {
  }

  /** Along any run rows move forward only: published rows and terminal jobs are
      final, and a row that has changed never returns to an old version. */
  lemma {:induction false} RunAdvances(states: seq<Database>, actions: seq<Action>, i: nat, j: nat)
    requires IsRun(states, actions) && i <= j < |states|
    ensures PublicationsLater(states[i].publications, states[j].publications) && JobsLater(states[i].jobs, states[j].jobs)
    decreases j
  {
    hide Inv, Next, Keyed;
    if i == j {
      SameLater(states[i]);
    } else {
      RunAdvances(states, actions, i, j - 1);
      RunKeeps(states, actions, j - 1);
      Follows(states, actions, j - 1);
      ActionAdvances(states[j - 1], actions[j - 1]);
    }
  }

  ghost predicate Presents(step: Step, id: Key, seen: Publication) {
    (step.Stage? || step.Fail? || step.Publish?) && step.publication == id && step.seen == seen
  }

  /** A stage, fail or publish call holding a snapshot the row has moved past changes no table at all. */
  lemma {:induction false} SupersededNeverWrites(states: seq<Database>, actions: seq<Action>, i: nat, j: nat, id: Key, step: Step)
    requires IsRun(states, actions) && i <= j < |states| && id in states[i].publications
    requires Presents(step, id, states[i].publications[id])
    requires id in states[j].publications && states[j].publications[id] != states[i].publications[id]
    ensures Keyed(states[j]) && Apply(states[j], step).db == states[j]
  {
    hide RowSound, Prerequisites, LinkedPublished, RegistryConflict, Conflicts, FirstOf;
    RunKeeps(states, actions, j);
    RunAdvances(states, actions, i, j);
    assert Later(states[i].publications[id], states[j].publications[id]);
  }

  // ---------------------------------------------------------------- staged in the same epoch

  /** The action that last wrote this publication's staged hashes staged exactly
      these, under this epoch. */
  ghost predicate StagedBy(states: seq<Database>, actions: seq<Action>, i: nat, id: Key, epoch: nat, hashes: seq<Digest>) {
    && i < |actions| && i < |states| && actions[i].Repository? && actions[i].step.Stage?
    && actions[i].step.publication == id && actions[i].step.hashes == hashes
    && id in states[i].publications && states[i].publications[id].state.Preparing? && states[i].publications[id].epoch == epoch
  }

  /** What one action does to a publication that comes out of it in preparation with staged hashes. */
  lemma {:induction false} StagingOrigin(db: Database, action: Action, id: Key)
    requires Inv(db) && id in Next(db, action).publications
    requires Next(db, action).publications[id].state.Preparing? && Next(db, action).publications[id].staged != []
    ensures id in db.publications && db.publications[id].state.Preparing? && db.publications[id].epoch == Next(db, action).publications[id].epoch
    ensures var q := Next(db, action).publications[id];
      db.publications[id].staged == q.staged
      || (action.Repository? && action.step.Stage? && action.step.publication == id && action.step.hashes == q.staged)
  {
    hide RowSound, AllJobsSound, UniqueJobs, UniquePublications, Apply, Evolves;
    if action.Repository? {
      StepEvolves(db, action.step);
      assert id in db.publications;
      EvolvesStaging(action.step, id, db.publications[id], Apply(db, action.step).db.publications[id]);
    }
  }

  lemma {:induction false} EvolvesStaging(step: Step, id: Key, p: Publication, q: Publication)
    requires Evolves(step, id, p, q) && q.state.Preparing? && q.staged != []
    ensures p.state.Preparing? && p.epoch == q.epoch
    ensures p.staged == q.staged || (step.Stage? && step.publication == id && step.hashes == q.staged)
  {
    hide FirstOf;
  }

  /** From an empty store on, hashes staged for a publication in preparation were staged in its present epoch. */
  lemma {:induction false} StagedInEpoch(states: seq<Database>, actions: seq<Action>, j: nat, id: Key) returns (i: nat)
    requires IsRun(states, actions) && states[0].publications == map[] && j < |states|
    requires id in states[j].publications && states[j].publications[id].state.Preparing? && states[j].publications[id].staged != []
    ensures i < j && StagedBy(states, actions, i, id, states[j].publications[id].epoch, states[j].publications[id].staged)
    decreases j
  {
    hide Inv, Next, Keyed;
    assert j > 0;
    RunKeeps(states, actions, j - 1);
    Follows(states, actions, j - 1);
    StagingOrigin(states[j - 1], actions[j - 1], id);
    var action, q := actions[j - 1], states[j].publications[id];
    if action.Repository? && action.step.Stage? && action.step.publication == id && action.step.hashes == q.staged {
      i := j - 1;
    } else {
      i := StagedInEpoch(states, actions, j - 1, id);
    }
  }

  /** Whatever a run publishes was staged, both hashes together, in the very epoch
      that publishes it, and the report links are those hashes. */
  lemma {:induction false} PublishesWhatItStaged(states: seq<Database>, actions: seq<Action>, j: nat, id: Key) returns (i: nat)
    requires IsRun(states, actions) && states[0].publications == map[] && j < |actions|
    requires id in states[j].publications && !states[j].publications[id].state.Published?
    requires id in states[j + 1].publications && states[j + 1].publications[id].state.Published?
    ensures i < j && id in states[j + 1].links
    ensures StagedBy(states, actions, i, id, states[j].publications[id].epoch, [states[j + 1].links[id].0, states[j + 1].links[id].1])
    ensures states[j].publications[id].state.Preparing? && states[j + 1].publications[id].epoch == states[j].publications[id].epoch
  {
    hide Inv, Next, Keyed;
    RunKeeps(states, actions, j);
    Follows(states, actions, j);
    PublishingStep(states[j], actions[j], id);
    i := StagedInEpoch(states, actions, j, id);
  }

  lemma {:induction false} PublishingStep(db: Database, action: Action, id: Key)
    requires Inv(db) && id in db.publications && !db.publications[id].state.Published?
    requires id in Next(db, action).publications && Next(db, action).publications[id].state.Published?
    ensures var after := Next(db, action);
      && db.publications[id].state.Preparing? && after.publications[id].epoch == db.publications[id].epoch
      && id in after.links && db.publications[id].staged == [after.links[id].0, after.links[id].1]
  {
    hide RowSound, AllJobsSound, UniqueJobs, UniquePublications, Apply, Evolves, JobsLater;
    assert action.Repository?;
    StepEvolves(db, action.step);
    EvolvesPublishing(action.step, id, db.publications[id], Apply(db, action.step).db.publications[id]);
    PublishEvolves(db, action.step);
  }

  lemma {:induction false} EvolvesPublishing(step: Step, id: Key, p: Publication, q: Publication)
    requires Evolves(step, id, p, q) && !p.state.Published? && q.state.Published?
    ensures step.Publish? && step.publication == id && p.state.Preparing? && q.epoch == p.epoch && p.staged == [step.json.hash, step.html.hash]
  {
    hide FirstOf;
  }

  /** In every reachable state the audit trail accounts for each epoch, at most one of them published. */
  lemma {:induction false} EpochsAccounted(states: seq<Database>, actions: seq<Action>, i: nat, id: Key)
    requires IsRun(states, actions) && i < |states| && id in states[i].publications
    ensures id in states[i].events && Audited(states[i].publications[id], states[i].events[id])
    ensures Count(states[i].events[id], PublishedEvent) <= 1
    ensures Owned(states[i].jobs, id, states[i].publications[id])
  {
    hide Count, Owned;
    RunKeeps(states, actions, i);
    assert RowSound(states[i], id);
  }
}
