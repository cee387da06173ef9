/** What every interleaving of publication and job steps keeps. */
module PublicationInvariants {
  import opened Octets
  import opened Outcomes
  import opened PublicationSteps
  import opened PublicationTables

  function Count(events: seq<OwnerEvent>, kind: OwnerEventKind): nat {
    if events == [] then 0
    else Count(events[..|events| - 1], kind) + if events[|events| - 1].kind == kind then 1 else 0
  }

  lemma {:induction false} CountOne(events: seq<OwnerEvent>, e: OwnerEvent, kind: OwnerEventKind)
    ensures Count(events + [e], kind) == Count(events, kind) + if e.kind == kind then 1 else 0
  {
    assert (events + [e])[..|events|] == events;
  }

  lemma {:induction false} CountTwo(events: seq<OwnerEvent>, e: OwnerEvent, f: OwnerEvent, kind: OwnerEventKind)
    ensures Count(events + [e, f], kind) == Count(events, kind) + (if e.kind == kind then 1 else 0) + (if f.kind == kind then 1 else 0)
  {
    hide Count;
    CountOne(events, e, kind);
    CountOne(events + [e], f, kind);
    assert events + [e, f] == events + [e] + [f];
  }

  /** A job holds the worker exactly while it runs, and its timestamps follow its status. */
  ghost predicate JobSound(job: Job) {
    job.Check() && (job.worker <==> job.status.Running?)
  }

  /** The audit trail accounts for every epoch: one acquisition each, and an end
      for each but the one still being prepared. */
  ghost predicate Audited(p: Publication, events: seq<OwnerEvent>) {
    && p.epoch == p.attempts == Count(events, Acquired)
    && Count(events, FailedAttempt) + Count(events, PublishedEvent) + (if p.state.Preparing? then 1 else 0) == p.epoch
    && Count(events, PublishedEvent) == (if p.state.Published? then 1 else 0)
    && (p.state.Available? ==> p.epoch == 0)
  }

  /** A publication being prepared belongs to a publishing job of its own that is running or has succeeded. */
  ghost predicate Owned(jobs: map<Key, Job>, id: Key, p: Publication) {
    p.state.Preparing? ==>
      && p.ownerJob.Some? && p.ownerJob.value in jobs
      && var job := jobs[p.ownerJob.value];
         job.kind.PublishJob? && job.resource == id && (job.status.Running? || job.status.Succeeded?)
  }

  ghost predicate RowSound(db: Database, id: Key)
    requires id in db.publications && id in db.events
  {
    db.publications[id].Readable() && Audited(db.publications[id], db.events[id]) && Owned(db.jobs, id, db.publications[id])
  }

  ghost predicate AllJobsSound(jobs: map<Key, Job>) { forall k :: k in jobs ==> JobSound(jobs[k]) }

  ghost predicate Inv(db: Database) {
    Keyed(db) && AllJobsSound(db.jobs) && forall id :: id in db.publications ==> RowSound(db, id)
  }

  const EMPTY: Database := Database(map[], map[], map[], map[], map[], map[], map[], map[], map[], map[])

  lemma {:induction false} EmptyIsSound()
    ensures Inv(EMPTY)
  {
  }

  // ---------------------------------------------------------------- one row or one job changes

  /** A step that rewrites one publication keeps the invariant when the new row is
      sound and its unique columns are. */
  lemma {:induction false} RowChange(db: Database, after: Database, id: Key)
    requires Inv(db) && id in db.publications && id in after.publications && id in after.events
    requires after.jobs == db.jobs
    requires after.publications == db.publications[id := after.publications[id]] && after.events == db.events[id := after.events[id]]
    requires RowSound(after, id) && UniquePublications(after.publications)
    ensures Inv(after)
  {
    hide Audited, Owned;
    forall k | k in after.publications ensures RowSound(after, k) {
      if k != id { assert RowSound(db, k); }
    }
  }

  lemma {:induction false} SameColumnsUnique(publications: map<Key, Publication>, id: Key, row: Publication)
    requires UniquePublications(publications) && id in publications
    requires row.validation == publications[id].validation
    requires row.registry == publications[id].registry || (row.registry.Some? && !RegistryTaken(publications, row.registry.value))
    ensures UniquePublications(publications[id := row])
  {
    var after := publications[id := row];
    forall a, b | a in after && b in after && SameRegistry(after[a], after[b]) ensures a == b {
      if a != id && b != id { assert SameRegistry(publications[a], publications[b]); }
      if row.registry == publications[id].registry { assert SameRegistry(publications[a], publications[b]); }
    }
  }

  /** Jobs may change as long as every owner stands and unique columns stay unique. */
  lemma {:induction false} JobChange(db: Database, after: Database)
    requires Inv(db) && after.publications == db.publications && after.events == db.events
    requires AllJobsSound(after.jobs) && UniqueJobs(after.jobs)
    requires forall id :: id in db.publications ==> Owned(after.jobs, id, db.publications[id])
    ensures Inv(after)
  {
    hide Audited, Owned;
    forall id | id in after.publications ensures RowSound(after, id) { assert RowSound(db, id); }
  }

  lemma {:induction false} SameColumnsUniqueJobs(jobs: map<Key, Job>, id: Key, row: Job)
    requires UniqueJobs(jobs) && id in jobs && row.kind == jobs[id].kind && row.fingerprint == jobs[id].fingerprint
    ensures UniqueJobs(jobs[id := row])
  {
    var after := jobs[id := row];
    forall a, b | a in after && b in after && after[a].kind == after[b].kind && after[a].fingerprint == after[b].fingerprint ensures a == b {
      assert jobs[a].kind == jobs[b].kind && jobs[a].fingerprint == jobs[b].fingerprint;
    }
  }

  // ---------------------------------------------------------------- job steps

  lemma {:induction false} CreateKeeps(db: Database, now: nat, id: Key, kind: JobKind, resource: Key, fingerprint: Key, stage: Key, progress: Key)
    requires Inv(db)
    ensures Inv(CreateJob(db, now, id, kind, resource, fingerprint, stage, progress).db)
  {
    hide Audited, RowSound, JobFor;
    var after := CreateJob(db, now, id, kind, resource, fingerprint, stage, progress).db;
    if after != db {
      assert JobsFor(db.jobs, kind, fingerprint) == {};
      forall a, b | a in after.jobs && b in after.jobs && after.jobs[a].kind == after.jobs[b].kind && after.jobs[a].fingerprint == after.jobs[b].fingerprint
        ensures a == b
      {
        assert a != id ==> a !in JobsFor(db.jobs, kind, fingerprint);
        assert b != id ==> b !in JobsFor(db.jobs, kind, fingerprint);
      }
      forall p | p in db.publications ensures Owned(after.jobs, p, db.publications[p]) { RowOwned(db, p); }
      JobChange(db, after);
    }
  }

  lemma {:induction false} RowOwned(db: Database, id: Key)
    requires Inv(db) && id in db.publications
    ensures Owned(db.jobs, id, db.publications[id])
  {
    hide Audited;
    assert RowSound(db, id);
  }

  /** The oldest queued job never loses its claim. */
  lemma {:induction false} ClaimNeverLoses(db: Database, now: nat)
    requires Inv(db)
    ensures ClaimNext(db, now).answer.Ok?
    ensures QueuedJobs(db.jobs) != {} ==>
      var k := OldestQueued(db.jobs);
      ClaimNext(db, now) == Returned(db.(jobs := db.jobs[k := Started(db.jobs[k], now)]), JobRow(k))
  {
    hide RowSound, OldestQueued;
    if QueuedJobs(db.jobs) != {} { assert JobSound(db.jobs[OldestQueued(db.jobs)]); }
  }

  lemma {:induction false} ClaimKeeps(db: Database, now: nat)
    requires Inv(db)
    ensures Inv(ClaimNext(db, now).db)
  {
    hide Audited, RowSound, OldestQueued, IsOldest;
    ClaimNeverLoses(db, now);
    if QueuedJobs(db.jobs) != {} {
      var k := OldestQueued(db.jobs);
      QueuedOldest(db.jobs, k);
      var after := ClaimNext(db, now).db;
      assert JobSound(db.jobs[k]);
      SameColumnsUniqueJobs(db.jobs, k, Started(db.jobs[k], now));
      forall p | p in db.publications ensures Owned(after.jobs, p, db.publications[p]) { RowOwned(db, p); }
      JobChange(db, after);
    }
  }

  lemma {:induction false} QueuedOldest(jobs: map<Key, Job>, k: Key)
    requires IsOldest(jobs, k)
    ensures k in jobs && jobs[k].status.Queued?
  {
  }

  /** Releasing whatever some jobs were preparing keeps the invariant even if those
      jobs no longer qualify as owners. */
  lemma {:induction false} RevokeKeeps(db: Database, jobs: map<Key, Job>, owners: set<Key>)
    requires Inv(db) && AllJobsSound(jobs) && UniqueJobs(jobs)
    requires forall id :: id in db.publications && !OwnedBy(db.publications[id], owners) ==> Owned(jobs, id, db.publications[id])
    ensures Inv(Revoked(db.(jobs := jobs), owners))
  {
    hide Audited, Owned;
    var after := Revoked(db.(jobs := jobs), owners);
    forall id | id in after.publications ensures RowSound(after, id) {
      assert RowSound(db, id);
      if OwnedBy(db.publications[id], owners) { ReleasedSound(db.publications[id], db.events[id], jobs, id); }
    }
    RevokedUnique(db.publications, after.publications);
  }

  lemma {:induction false} RevokedUnique(before: map<Key, Publication>, after: map<Key, Publication>)
    requires UniquePublications(before) && after.Keys == before.Keys
    requires forall k :: k in after ==> after[k].validation == before[k].validation && after[k].registry == before[k].registry
    ensures UniquePublications(after)
  {
    forall a, b | a in after && b in after && SameRegistry(after[a], after[b]) ensures a == b { assert SameRegistry(before[a], before[b]); }
  }

  lemma {:induction false} ReleasedSound(p: Publication, events: seq<OwnerEvent>, jobs: map<Key, Job>, id: Key)
    requires p.Readable() && p.state.Preparing? && Audited(p, events)
    ensures Released(p).Readable() && Audited(Released(p), events + ReleaseEvents(p)) && Owned(jobs, id, Released(p))
  {
    hide Count;
    var e := ReleaseEvents(p);
    CountTwo(events, e[0], e[1], Acquired);
    CountTwo(events, e[0], e[1], FailedAttempt);
    CountTwo(events, e[0], e[1], PublishedEvent);
    assert e == [e[0], e[1]];
  }

  lemma {:induction false} MoveKeeps(db: Database, now: nat, id: Key, expected: JobStatus, target: JobStatus, stage: Option<Key>, progress: Option<Key>,
                                     resultRef: Option<Key>, hasError: bool)
    requires Inv(db)
    ensures Inv(TransitionJob(db, now, id, expected, target, stage, progress, resultRef, hasError).db)
  {
    hide Audited, RowSound;
    var outcome := TransitionJob(db, now, id, expected, target, stage, progress, resultRef, hasError);
    if outcome.answer.Ok? {
      var row := Transitioned(db.jobs[id], now, target, stage, progress, resultRef, hasError);
      var jobs := db.jobs[id := row];
      assert JobSound(db.jobs[id]);
      SameColumnsUniqueJobs(db.jobs, id, row);
      forall p | p in db.publications && !OwnedBy(db.publications[p], {id}) ensures Owned(jobs, p, db.publications[p]) { RowOwned(db, p); }
      if target.Failed? || target.Cancelled? {
        RevokeKeeps(db, jobs, {id});
      } else {
        forall p | p in db.publications ensures Owned(jobs, p, db.publications[p]) { RowOwned(db, p); }
        JobChange(db, outcome.db);
      }
    }
  }

  /** A requested transition succeeds exactly when the request is well formed, the
      job is where the caller expects it, and the target is not RUNNING: that
      listed transition violates the table's own CHECK every time. */
  lemma {:induction false} TransitionsExactly(db: Database, now: nat, id: Key, expected: JobStatus, target: JobStatus, stage: Option<Key>, progress: Option<Key>,
                                              resultRef: Option<Key>, hasError: bool)
    requires Inv(db)
    ensures TransitionJob(db, now, id, expected, target, stage, progress, resultRef, hasError).answer.Ok?
       <==> && LegalTransition(expected, target) && !target.Running? && stage != Some(BLANK) && (target.Failed? <==> hasError)
            && (target.Succeeded? ==> resultRef.Some? && resultRef.value != BLANK)
            && id in db.jobs && db.jobs[id].status == expected
  {
    hide RowSound;
    if id in db.jobs { assert JobSound(db.jobs[id]); }
  }

  lemma {:induction false} RecoverKeeps(db: Database, now: nat)
    requires Inv(db)
    ensures Inv(RecoverInterrupted(db, now).db)
  {
    hide Audited, RowSound;
    var running, jobs := RunningJobs(db.jobs), Interrupted(db.jobs, RunningJobs(db.jobs), now);
    forall k | k in jobs ensures JobSound(jobs[k]) { assert JobSound(db.jobs[k]); }
    forall p | p in db.publications && !OwnedBy(db.publications[p], running) ensures Owned(jobs, p, db.publications[p]) { RowOwned(db, p); }
    RevokeKeeps(db, jobs, running);
  }

  /** After recovery nothing runs, and what is still being prepared belongs to a job that succeeded. */
  lemma {:induction false} RecoveryClears(db: Database, now: nat)
    requires Inv(db)
    ensures var after := RecoverInterrupted(db, now).db;
      && RunningJobs(after.jobs) == {}
      && forall id :: id in after.publications && after.publications[id].state.Preparing? ==>
           after.publications[id].ownerJob.Some? && after.publications[id].ownerJob.value in after.jobs
           && after.jobs[after.publications[id].ownerJob.value].status.Succeeded?
  {
    hide Audited, RowSound;
    var after := RecoverInterrupted(db, now).db;
    forall id | id in after.publications && after.publications[id].state.Preparing?
      ensures after.publications[id].ownerJob.Some? && after.publications[id].ownerJob.value in after.jobs
           && after.jobs[after.publications[id].ownerJob.value].status.Succeeded?
    {
      RowOwned(db, id);
    }
  }

  // ---------------------------------------------------------------- publication steps

  lemma {:induction false} OpenKeeps(db: Database, c: Command)
    requires Inv(db)
    ensures Inv(GetOrCreate(db, c).db)
  {
    hide Audited, RowSound;
    var after := GetOrCreate(db, c).db;
    if PublicationsOf(db.publications, c.validation) == {} {
      if after != db { OpenedFresh(db, c); }
    } else if GetOrCreate(db, c).answer.Ok? {
      var k := PublicationOf(db.publications, c.validation);
      PinnedSound(db, k, c);
      SameColumnsUnique(db.publications, k, after.publications[k]);
      RowChange(db, after, k);
    }
  }

  lemma {:induction false} PinnedSound(db: Database, id: Key, c: Command)
    requires Inv(db) && id in db.publications
    ensures var row := PinProfile(PinRegistry(db.publications[id], c.registry), c.profile);
      RowSound(db.(publications := db.publications[id := row]), id)
  {
    hide Count;
    assert RowSound(db, id);
  }

  lemma {:induction false} OpenedFresh(db: Database, c: Command)
    requires Inv(db) && PublicationsOf(db.publications, c.validation) == {}
    requires c.publication !in db.publications && !RegistryTaken(db.publications, c.registry)
    ensures Inv(db.(publications := db.publications[c.publication := Fresh(c)], events := db.events[c.publication := []]))
  {
    hide Owned;
    var after := db.(publications := db.publications[c.publication := Fresh(c)], events := db.events[c.publication := []]);
    forall k | k in after.publications ensures RowSound(after, k) {
      if k != c.publication { assert RowSound(db, k); } else { FreshSound(db.jobs, c); }
    }
    FreshUnique(db.publications, c);
  }

  lemma {:induction false} FreshSound(jobs: map<Key, Job>, c: Command)
    ensures Fresh(c).Readable() && Audited(Fresh(c), []) && Owned(jobs, c.publication, Fresh(c))
  {
  }

  lemma {:induction false} FreshUnique(publications: map<Key, Publication>, c: Command)
    requires UniquePublications(publications) && PublicationsOf(publications, c.validation) == {}
    requires c.publication !in publications && !RegistryTaken(publications, c.registry)
    ensures UniquePublications(publications[c.publication := Fresh(c)])
  {
    var after := publications[c.publication := Fresh(c)];
    forall a, b | a in after && b in after && after[a].validation == after[b].validation ensures a == b {
      assert a != c.publication ==> a !in PublicationsOf(publications, c.validation);
      assert b != c.publication ==> b !in PublicationsOf(publications, c.validation);
    }
    forall a, b | a in after && b in after && SameRegistry(after[a], after[b]) ensures a == b {
      if a != c.publication && b != c.publication { assert SameRegistry(publications[a], publications[b]); }
    }
  }

  lemma {:induction false} TakenOverSound(jobs: map<Key, Job>, id: Key, p: Publication, events: seq<OwnerEvent>, job: Key, token: Key, expires: nat)
    requires p.Readable() && Audited(p, events) && (p.state.Available? || p.state.FailedRetryable?)
    requires RunningWorker(jobs, job, id) && job != BLANK && token != BLANK
    ensures var row := TakenOver(p, job, token, expires);
      row.Readable() && Audited(row, events + [OwnerEvent(Acquired, Some(job), row.epoch, [])]) && Owned(jobs, id, row)
  {
    hide Count;
    var e := OwnerEvent(Acquired, Some(job), p.epoch + 1, []);
    CountOne(events, e, Acquired);
    CountOne(events, e, FailedAttempt);
    CountOne(events, e, PublishedEvent);
  }

  lemma {:induction false} TakeOverKeeps(before: Database, db: Database, id: Key, job: Key, token: Key, expires: nat)
    requires Inv(before) && Inv(db) && id in db.publications && SameRecords(before, db) && job != BLANK && token != BLANK
    requires db.publications[id].state.Available? || db.publications[id].state.FailedRetryable?
    ensures Inv(TakeOver(before, db, id, job, token, expires).db)
  {
    hide Audited, Owned;
    if RunningWorker(db.jobs, job, id) {
      assert RowSound(db, id);
      TakenOverSound(db.jobs, id, db.publications[id], db.events[id], job, token, expires);
      SameColumnsUnique(db.publications, id, TakenOver(db.publications[id], job, token, expires));
      RowChange(db, TakeOver(before, db, id, job, token, expires).db, id);
    }
  }

  lemma {:induction false} ReclaimKeeps(db: Database, id: Key)
    requires Inv(db) && id in db.publications
    ensures id in db.events && Inv(Reclaimed(db, id))
  {
    hide Audited, Owned, ReleaseEvents;
    if db.publications[id].state.Preparing? {
      assert RowSound(db, id);
      ReleasedSound(db.publications[id], db.events[id], db.jobs, id);
      SameColumnsUnique(db.publications, id, Released(db.publications[id]));
      RowChange(db, Reclaimed(db, id), id);
    }
  }

  lemma {:induction false} LeaseKeeps(db: Database, now: nat, id: Key, seen: Publication, job: Key, token: Key, expires: nat)
    requires Inv(db)
    ensures Inv(Acquire(db, now, id, seen, job, token, expires).db)
  {
    hide Inv, TakeOver;
    if id in db.publications {
      ReclaimKeeps(db, id);
      if !db.publications[id].state.Published? && job != BLANK && token != BLANK {
        TakeOverKeeps(db, Reclaimed(db, id), id, job, token, expires);
      }
    }
  }

  lemma {:induction false} StageKeeps(db: Database, now: nat, id: Key, seen: Publication, hashes: seq<Digest>)
    requires Inv(db)
    ensures Inv(StageArtifacts(db, now, id, seen, hashes).db)
  {
    hide Count;
    var after := StageArtifacts(db, now, id, seen, hashes).db;
    if after != db {
      assert RowSound(db, id);
      SameColumnsUnique(db.publications, id, after.publications[id]);
      RowChange(db, after, id);
    }
  }

  lemma {:induction false} FailedSound(jobs: map<Key, Job>, id: Key, p: Publication, events: seq<OwnerEvent>, kind: FailureKind, retained: seq<Digest>)
    requires p.Readable() && p.state.Preparing? && Audited(p, events) && HasNoRepeats(retained)
    ensures var row := Released(p).(staged := retained, failure := Some(kind));
      row.Readable() && Audited(row, events + [OwnerEvent(FailedAttempt, p.ownerJob, p.epoch, retained)]) && Owned(jobs, id, row)
  {
    hide Count;
    var e := OwnerEvent(FailedAttempt, p.ownerJob, p.epoch, retained);
    CountOne(events, e, Acquired);
    CountOne(events, e, FailedAttempt);
    CountOne(events, e, PublishedEvent);
  }

  lemma {:induction false} FailKeeps(db: Database, id: Key, seen: Publication, kind: FailureKind, orphans: seq<Digest>)
    requires Inv(db)
    ensures Inv(FailAttempt(db, id, seen, kind, orphans).db)
  {
    hide Audited, Owned, FirstOf;
    var after := FailAttempt(db, id, seen, kind, orphans).db;
    if after != db {
      assert RowSound(db, id);
      var current := db.publications[id];
      FailedSound(db.jobs, id, current, db.events[id], kind, FirstOf(current.staged + orphans));
      SameColumnsUnique(db.publications, id, after.publications[id]);
      RowChange(db, after, id);
    }
  }

  lemma {:induction false} PublishedSound(jobs: map<Key, Job>, id: Key, p: Publication, events: seq<OwnerEvent>, now: nat)
    requires p.Readable() && p.state.Preparing? && Audited(p, events)
    ensures var row := PublishedRow(p, now);
      row.Readable() && Audited(row, events + [OwnerEvent(PublishedEvent, p.ownerJob, p.epoch, [])]) && Owned(jobs, id, row)
  {
    hide Count;
    var e := OwnerEvent(PublishedEvent, p.ownerJob, p.epoch, []);
    CountOne(events, e, Acquired);
    CountOne(events, e, FailedAttempt);
    CountOne(events, e, PublishedEvent);
  }

  lemma {:induction false} PublishKeeps(db: Database, now: nat, id: Key, seen: Publication, registryId: Key, json: Report, html: Report)
    requires Inv(db)
    ensures Inv(PublishAtomically(db, now, id, seen, registryId, json, html).db)
  {
    hide Audited, Owned, Prerequisites, LinkedPublished, RegistryConflict, Conflicts;
    if PublishAtomically(db, now, id, seen, registryId, json, html).answer.Ok? {
      assert RowSound(db, id);
      var current := db.publications[id];
      var job := current.ownerJob.value;
      PublishedSound(db.jobs, id, current, db.events[id], now);
      SameColumnsUnique(db.publications, id, PublishedRow(current, now));
      var event := OwnerEvent(PublishedEvent, current.ownerJob, current.epoch, []);
      var moved := Changed(db, id, PublishedRow(current, now), [event]);
      RowChange(db, moved, id);
      var finished := moved.(jobs := db.jobs[job := FinishedJob(db.jobs[job], now, json.hash)]);
      JobSucceeds(moved, finished, job, now, json.hash);
      SameTables(finished, Committed(db, now, id, registryId, json, html));
    }
  }

  lemma {:induction false} JobSucceeds(db: Database, after: Database, job: Key, now: nat, result: Digest)
    requires Inv(db) && job in db.jobs && db.jobs[job].status.Running?
    requires after == db.(jobs := db.jobs[job := FinishedJob(db.jobs[job], now, result)])
    ensures Inv(after)
  {
    hide Audited, RowSound;
    assert JobSound(db.jobs[job]);
    SameColumnsUniqueJobs(db.jobs, job, after.jobs[job]);
    forall p | p in db.publications ensures Owned(after.jobs, p, db.publications[p]) { RowOwned(db, p); }
    JobChange(db, after);
  }

  lemma {:induction false} SameTables(db: Database, after: Database)
    requires Inv(db) && after.jobs == db.jobs && after.publications == db.publications && after.events == db.events
    ensures Inv(after)
  {
    hide Audited, Owned;
    forall id | id in after.publications ensures RowSound(after, id) { assert RowSound(db, id); }
  }

  /** Every step keeps the invariant, whether it commits or rolls back. */
  lemma {:induction false} StepKeeps(db: Database, step: Step)
    requires Inv(db)
    ensures Inv(Apply(db, step).db)
  {
    hide Inv, CreateJob, ClaimNext, TransitionJob, RecoverInterrupted, GetOrCreate, Acquire, StageArtifacts, FailAttempt, PublishAtomically;
    match step
    case Create(now, id, kind, resource, fingerprint, stage, progress) => CreateKeeps(db, now, id, kind, resource, fingerprint, stage, progress);
    case Claim(now) => ClaimKeeps(db, now);
    case Move(now, id, expected, target, stage, progress, resultRef, hasError) => MoveKeeps(db, now, id, expected, target, stage, progress, resultRef, hasError);
    case Recover(now) => RecoverKeeps(db, now);
    case Open(command) => OpenKeeps(db, command);
    case Lease(now, id, seen, job, token, expires) => LeaseKeeps(db, now, id, seen, job, token, expires);
    case Stage(now, id, seen, hashes) => StageKeeps(db, now, id, seen, hashes);
    case Fail(id, seen, kind, orphans) => FailKeeps(db, id, seen, kind, orphans);
    case Publish(now, id, seen, registryId, json, html) => PublishKeeps(db, now, id, seen, registryId, json, html);
  }
}
