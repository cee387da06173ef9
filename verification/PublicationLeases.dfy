/** Leases: who may take a publication over and when, and what can end an epoch. */
module PublicationLeases {
  import opened Outcomes
  import opened PublicationInvariants
  import opened PublicationRuns
  import opened PublicationSteps
  import opened PublicationTables

  // ---------------------------------------------------------------- acquiring

  /** The job is the running local worker that publishes this resource. */
  predicate Works(db: Database, job: Key, publication: Key) {
    job in db.jobs && db.jobs[job].kind == PublishJob && db.jobs[job].resource == publication && db.jobs[job].status == Running && db.jobs[job].worker
  }

  /** A live lease is left alone: the acquisition answers nothing and changes no table. */
  lemma {:induction false} LiveLeaseHolds(db: Database, now: nat, id: Key, seen: Publication, job: Key, token: Key, expires: nat)
    requires Inv(db) && job != BLANK && token != BLANK && expires > now
    requires id in db.publications && db.publications[id].state == Preparing
    ensures db.publications[id].expires.Some?
    ensures db.publications[id].expires.value > now ==>
      Acquire(db, now, id, seen, job, token, expires) == Outcome(db, Ok(Nothing))
  {
    hide Audited, Owned, UniqueJobs, UniquePublications, AllJobsSound;
    assert RowSound(db, id);
  }

  /** What an acquisition leaves of the row it takes. */
  ghost predicate Taken(p: Publication, q: Publication, job: Key, token: Key, expires: nat) {
    && q.state == Preparing && q.ownerJob == Some(job) && q.ownerToken == Some(token) && q.expires == Some(expires)
    && q.epoch == p.epoch + 1 && q.attempts == p.attempts + 1 && q.staged == [] && q.failure == None && q.publishedAt == p.publishedAt
    && q.validation == p.validation && q.strategy == p.strategy && q.candidate == p.candidate && q.lineage == p.lineage
    && q.profile == p.profile && q.registry == p.registry && q.rowVersion == p.rowVersion + (if p.state == Preparing then 2 else 1)
  }

  /** The events an acquisition appends: for a lease it takes from another owner that owner's end too. */
  function TakingEvents(p: Publication, job: Key): seq<OwnerEvent> {
    (if p.state == Preparing
     then [OwnerEvent(ReleasedStale, p.ownerJob, p.epoch, p.staged), OwnerEvent(FailedAttempt, p.ownerJob, p.epoch, p.staged)] else [])
    + [OwnerEvent(Acquired, Some(job), p.epoch + 1, [])]
  }

  /** The rows an acquisition may take: those waiting in the version the caller saw, and those whose
      lease has run out under another token. */
  predicate Takeable(p: Publication, now: nat, seen: Publication, token: Key) {
    match p.state
    case Preparing => p.expires.Some? && p.expires.value <= now && p.ownerToken != Some(token)
    case Published => false
    case _ => p.rowVersion == seen.rowVersion
  }

  /** An acquisition takes a row exactly when its arguments are well formed, the row can be taken and
      the job works on it; otherwise it changes nothing and says why. */
  lemma {:induction false} AcquiresExactly(db: Database, now: nat, id: Key, seen: Publication, job: Key, token: Key, expires: nat)
    requires Inv(db)
    ensures var o := Acquire(db, now, id, seen, job, token, expires);
      var valid := job != BLANK && token != BLANK && expires > now;
      && (o.answer == Ok(PublicationRow(id)) <==>
            valid && id in db.publications && Takeable(db.publications[id], now, seen, token) && Works(db, job, id))
      && (o.answer != Ok(PublicationRow(id)) ==> o.db == db)
      && (!valid ==> o.answer == Err(InvalidArgument))
      && (valid && id !in db.publications ==> o.answer == Err(StateConflict))
      && (valid && id in db.publications && Takeable(db.publications[id], now, seen, token) && !Works(db, job, id) ==> o.answer == Err(StateConflict))
      && (valid && id in db.publications && !Takeable(db.publications[id], now, seen, token) ==>
            o.answer == if db.publications[id].state == Preparing && db.publications[id].expires.value <= now then Err(StateConflict) else Ok(Nothing))
  {
    hide Audited, Owned, UniqueJobs, UniquePublications, AllJobsSound, Reclaimed, TakenOver, Changed;
    if id in db.publications { assert RowSound(db, id); }
  }

  /** What it changes then: that row and its events, and nothing else. */
  lemma {:induction false} AcquisitionTakes(db: Database, now: nat, id: Key, seen: Publication, job: Key, token: Key, expires: nat)
    requires Inv(db) && Acquire(db, now, id, seen, job, token, expires).answer == Ok(PublicationRow(id))
    ensures var o := Acquire(db, now, id, seen, job, token, expires);
      && id in db.publications && id in db.events && id in o.db.publications
      && Taken(db.publications[id], o.db.publications[id], job, token, expires)
      && o.db == db.(publications := db.publications[id := o.db.publications[id]],
                     events := db.events[id := db.events[id] + TakingEvents(db.publications[id], job)])
  {
    hide Inv, Reclaimed, TakeOver, Taken, TakingEvents;
    InvKeyed(db);
    TakingOver(db, id, job, token, expires);
  }

  lemma {:induction false} TakingOver(db: Database, id: Key, job: Key, token: Key, expires: nat)
    requires id in db.publications && id in db.events
    requires TakeOver(db, Reclaimed(db, id), id, job, token, expires).answer.Ok?
    ensures var after := TakeOver(db, Reclaimed(db, id), id, job, token, expires).db;
      && id in after.publications && Taken(db.publications[id], after.publications[id], job, token, expires)
      && after == db.(publications := db.publications[id := after.publications[id]],
                      events := db.events[id := db.events[id] + TakingEvents(db.publications[id], job)])
  {
    hide RunningWorker;
    var p := db.publications[id];
    TakingTwice(db.events[id], p, job);
    WrittenTwice(db.publications, id, Released(p), TakenOver(Released(p), job, token, expires));
    WrittenTwice(db.events, id, db.events[id] + ReleaseEvents(p), db.events[id] + TakingEvents(p, job));
  }

  lemma {:induction false} TakingTwice(events: seq<OwnerEvent>, p: Publication, job: Key)
    ensures p.state != Preparing ==> TakingEvents(p, job) == [OwnerEvent(Acquired, Some(job), p.epoch + 1, [])]
    ensures p.state == Preparing ==> (events + ReleaseEvents(p)) + [OwnerEvent(Acquired, Some(job), p.epoch + 1, [])] == events + TakingEvents(p, job)
  {
  }

  lemma {:induction false} WrittenTwice<T>(m: map<Key, T>, k: Key, a: T, b: T)
    ensures m[k := a][k := b] == m[k := b]
  {
  }

  /** A lease that has run out is always given to a running worker with a fresh token. */
  lemma {:induction false} ExpiredLeaseIsTaken(db: Database, now: nat, id: Key, seen: Publication, job: Key, token: Key, expires: nat)
    requires Inv(db) && job != BLANK && token != BLANK && expires > now && Works(db, job, id)
    requires id in db.publications && db.publications[id].state == Preparing
    requires db.publications[id].expires == None || db.publications[id].expires.value <= now
    requires db.publications[id].ownerToken != Some(token)
    ensures var o := Acquire(db, now, id, seen, job, token, expires);
      && o.answer == Ok(PublicationRow(id)) && id in o.db.publications
      && o.db.publications[id].ownerJob == Some(job) && o.db.publications[id].epoch == db.publications[id].epoch + 1
  {
    hide Acquire, Inv;
    LiveLeaseHolds(db, now, id, seen, job, token, expires);
    AcquiresExactly(db, now, id, seen, job, token, expires);
    AcquisitionTakes(db, now, id, seen, job, token, expires);
  }

  // ---------------------------------------------------------------- what ends an epoch

  /** A publication is being prepared in some epoch. */
  ghost predicate InEpoch(db: Database, id: Key, epoch: nat) {
    id in db.publications && db.publications[id].state == Preparing && db.publications[id].epoch == epoch
  }

  /** The actions that can end a publication's epoch: the owner's own failure or commit, the end of
      its job, recovery, and an acquisition after its lease has run out. */
  ghost predicate MayEnd(db: Database, action: Action, id: Key)
    requires id in db.publications
  {
    action.Repository? &&
    var p, step := db.publications[id], action.step;
    match step
    case Fail(publication, seen, _, _) => publication == id && seen.ownerToken == p.ownerToken && seen.epoch == p.epoch && seen.rowVersion == p.rowVersion
    case Publish(_, publication, seen, _, _, _) =>
      publication == id && seen.ownerToken == p.ownerToken && seen.epoch == p.epoch && seen.rowVersion == p.rowVersion
    case Move(_, job, _, target, _, _, _, _) => p.ownerJob == Some(job) && (target == Failed || target == Cancelled)
    case Recover(_) => p.ownerJob.Some? && p.ownerJob.value in db.jobs && db.jobs[p.ownerJob.value].status == Running
    case Lease(now, publication, _, _, _, _) => publication == id && p.expires.Some? && p.expires.value <= now
    case _ => false
  }

  /** While an epoch goes on its lease and owner stay as they are. */
  lemma {:induction false} EpochStep(db: Database, action: Action, id: Key)
    requires Inv(db) && id in db.publications && db.publications[id].state == Preparing
    ensures var after := Next(db, action);
      if InEpoch(after, id, db.publications[id].epoch)
      then after.publications[id].expires == db.publications[id].expires && after.publications[id].ownerJob == db.publications[id].ownerJob
           && after.publications[id].ownerToken == db.publications[id].ownerToken
      else MayEnd(db, action, id)
  {
    hide Inv, Apply, Evolves, JobsLater;
    if action.Repository? {
      InvKeyed(db);
      StepEvolves(db, action.step);
      EpochEvolves(db, action.step, id);
    }
  }

  lemma {:induction false} InvKeyed(db: Database)
    requires Inv(db)
    ensures Keyed(db)
  {
  }

  lemma {:induction false} EpochEvolves(db: Database, step: Step, id: Key)
    requires Inv(db) && id in db.publications && db.publications[id].state == Preparing && id in Apply(db, step).db.publications
    requires Evolves(step, id, db.publications[id], Apply(db, step).db.publications[id])
    ensures var p, q := db.publications[id], Apply(db, step).db.publications[id];
      if q.state == Preparing && q.epoch == p.epoch then q.expires == p.expires && q.ownerJob == p.ownerJob && q.ownerToken == p.ownerToken
      else MayEnd(db, Repository(step), id)
  {
    hide Inv, Apply, FirstOf;
    InvKeyed(db);
    var p, q := db.publications[id], Apply(db, step).db.publications[id];
    if q != p && step.Move? { MoveEnds(db, step, id); }
    if q != p && step.Recover? { RecoverEnds(db, step, id); }
    if q != p && step.Lease? { LeaseEnds(db, step, id); }
  }

  lemma {:induction false} MoveEnds(db: Database, step: Step, id: Key)
    requires Inv(db) && step.Move? && id in db.publications && id in Apply(db, step).db.publications
    requires Apply(db, step).db.publications[id] != db.publications[id]
    ensures MayEnd(db, Repository(step), id)
  {
    hide Inv, TransitionJob, Released, ReleaseEvents;
    MoveRevokes(db, step.now, step.id, step.expected, step.target, step.newStage, step.newProgress, step.resultRef, step.hasError);
  }

  /** A transition leaves the publications alone unless the job failed or was cancelled, which releases what it was preparing. */
  lemma {:induction false} MoveRevokes(db: Database, now: nat, job: Key, expected: JobStatus, target: JobStatus, stage: Option<Key>, progress: Option<Key>,
                                       resultRef: Option<Key>, hasError: bool)
    ensures var after := TransitionJob(db, now, job, expected, target, stage, progress, resultRef, hasError).db;
      || after.publications == db.publications
      || ((target == Failed || target == Cancelled)
          && after.publications == map k | k in db.publications :: if OwnedBy(db.publications[k], {job}) then Released(db.publications[k]) else db.publications[k])
  {
    hide OwnedBy, Released, ReleaseEvents, Transitioned, LegalTransition, Job.Check;
    if job in db.jobs {
      var moved := db.(jobs := db.jobs[job := Transitioned(db.jobs[job], now, target, stage, progress, resultRef, hasError)]);
      assert Revoked(moved, {job}).publications
          == map k | k in db.publications :: if OwnedBy(db.publications[k], {job}) then Released(db.publications[k]) else db.publications[k];
    }
  }

  lemma {:induction false} RecoverEnds(db: Database, step: Step, id: Key)
    requires Inv(db) && step.Recover? && id in db.publications && id in Apply(db, step).db.publications
    requires Apply(db, step).db.publications[id] != db.publications[id]
    ensures MayEnd(db, Repository(step), id)
  {
    hide RowSound, AllJobsSound, UniqueJobs, UniquePublications, Interrupted, Released;
  }

  lemma {:induction false} LeaseEnds(db: Database, step: Step, id: Key)
    requires Inv(db) && step.Lease? && id in db.publications && db.publications[id].state == Preparing && id in Apply(db, step).db.publications
    requires Apply(db, step).db.publications[id] != db.publications[id]
    ensures MayEnd(db, Repository(step), id)
  {
    hide Inv, Acquire, Takeable, Works, Taken;
    InvKeyed(db);
    AcquiresExactly(db, step.now, step.publication, step.seen, step.job, step.token, step.expires);
    if Acquire(db, step.now, step.publication, step.seen, step.job, step.token, step.expires).answer == Ok(PublicationRow(step.publication)) {
      AcquisitionTakes(db, step.now, step.publication, step.seen, step.job, step.token, step.expires);
    }
    LiveLeaseHolds(db, step.now, id, step.seen, if step.job == BLANK then 1 else step.job, if step.token == BLANK then 1 else step.token, step.now + 1);
    LiveLeaseStays(db, step, id);
  }

  lemma {:induction false} LiveLeaseStays(db: Database, step: Step, id: Key)
    requires Inv(db) && Keyed(db) && step.Lease? && id in db.publications && db.publications[id].state == Preparing
    ensures step.publication == id && db.publications[id].expires.Some? && db.publications[id].expires.value > step.now ==> Apply(db, step).db == db
  {
    hide Inv, Reclaimed, TakeOver;
  }

  /** An epoch that is over by some state of a run was ended, before its lease ran out, by its own
      failure or commit, by the end of its job or by recovery; an acquisition ends it only later. */
  lemma {:induction false} EpochEndedBy(states: seq<Database>, actions: seq<Action>, i: nat, j: nat, id: Key) returns (k: nat)
    requires IsRun(states, actions) && i <= j < |states| && id in states[i].publications
    requires InEpoch(states[i], id, states[i].publications[id].epoch) && !InEpoch(states[j], id, states[i].publications[id].epoch)
    ensures i <= k < j && InEpoch(states[k], id, states[i].publications[id].epoch) && !InEpoch(states[k + 1], id, states[i].publications[id].epoch)
    ensures states[k].publications[id].expires == states[i].publications[id].expires
    ensures states[k].publications[id].ownerJob == states[i].publications[id].ownerJob
    ensures MayEnd(states[k], actions[k], id)
    decreases j - i
  {
    hide Inv, Next, MayEnd, IsRun;
    RunKeeps(states, actions, i);
    RunSteps(states, actions, i);
    EpochStep(states[i], actions[i], id);
    if InEpoch(states[i + 1], id, states[i].publications[id].epoch) {
      k := EpochEndedBy(states, actions, i + 1, j, id);
    } else {
      k := i;
    }
  }

  lemma {:induction false} RunSteps(states: seq<Database>, actions: seq<Action>, i: nat)
    requires IsRun(states, actions) && i + 1 < |states|
    ensures i < |actions| && Keyed(states[i]) && states[i + 1] == Next(states[i], actions[i])
  {
    hide Keyed, Next, Inv;
  }
}
