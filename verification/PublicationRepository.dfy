/** The store itself: tables updated in place, one transaction a method, rolled
    back whenever the source raises. */
module PublicationRepository {
  import opened Octets
  import opened Outcomes
  import opened PublicationInvariants
  import opened PublicationSteps
  import opened PublicationTables

  /** A publication and its events once some jobs have lost what they were preparing. */
  function RowAfter(p: Publication, owners: set<Key>): Publication {
    if OwnedBy(p, owners) then Released(p) else p
  }

  function EventsAfter(p: Publication, events: seq<OwnerEvent>, owners: set<Key>): seq<OwnerEvent> {
    if OwnedBy(p, owners) then events + ReleaseEvents(p) else events
  }

  /** All rows but some have been released from a job. */
  ghost predicate Halfway(db: Database, publications: map<Key, Publication>, events: map<Key, seq<OwnerEvent>>, rows: set<Key>, owner: Key) {
    && db.events.Keys == db.publications.Keys == publications.Keys == events.Keys && rows <= publications.Keys
    && (forall k :: k in rows ==> OwnedBy(db.publications[k], {owner}))
    && (forall k :: k in publications ==> publications[k] == if k in rows then db.publications[k] else RowAfter(db.publications[k], {owner}))
    && (forall k :: k in events ==> events[k] == if k in rows then db.events[k] else EventsAfter(db.publications[k], db.events[k], {owner}))
  }

  lemma {:induction false} RevokingStarts(db: Database, rows: set<Key>, owner: Key)
    requires db.events.Keys == db.publications.Keys
    requires rows == set k | k in db.publications && OwnedBy(db.publications[k], {owner})
    ensures Halfway(db, db.publications, db.events, rows, owner)
  {
    hide Released, ReleaseEvents;
  }

  lemma {:induction false} RevokingStep(db: Database, publications: map<Key, Publication>, events: map<Key, seq<OwnerEvent>>, rows: set<Key>,
                                        owner: Key, k: Key)
    requires Halfway(db, publications, events, rows, owner) && k in rows
    ensures k in publications && k in events
    ensures Halfway(db, publications[k := Released(publications[k])], events[k := events[k] + ReleaseEvents(publications[k])], rows - {k}, owner)
  {
    hide Released, ReleaseEvents, OwnedBy;
  }

  lemma {:induction false} RevokingEnds(db: Database, publications: map<Key, Publication>, events: map<Key, seq<OwnerEvent>>, owner: Key)
    requires Halfway(db, publications, events, {}, owner)
    ensures Revoked(db, {owner}) == db.(publications := publications, events := events)
  {
    hide Released, ReleaseEvents, OwnedBy;
    var r := Revoked(db, {owner});
    assert r.publications == publications;
    assert r.events == events;
  }

  /** Failing one more job and then releasing its publications extends a partial recovery by that job. */
  lemma {:induction false} RecoveryStep(db: Database, done: set<Key>, k: Key, now: nat)
    requires k in db.jobs && k !in done
    ensures var partial := Revoked(db.(jobs := Interrupted(db.jobs, done, now)), done);
      && k in partial.jobs && partial.jobs[k] == db.jobs[k]
      && Revoked(partial.(jobs := partial.jobs[k := InterruptedJob(db.jobs[k], now)]), {k})
         == Revoked(db.(jobs := Interrupted(db.jobs, done + {k}, now)), done + {k})
  {
    hide InterruptedJob, ReleaseEvents;
    var partial := Revoked(db.(jobs := Interrupted(db.jobs, done, now)), done);
    var left := Revoked(partial.(jobs := partial.jobs[k := InterruptedJob(db.jobs[k], now)]), {k});
    var right := Revoked(db.(jobs := Interrupted(db.jobs, done + {k}, now)), done + {k});
    assert left.jobs == right.jobs;
    assert left.publications == right.publications;
    assert left.events == right.events;
  }

  class MetadataStore {
    var jobs: map<Key, Job>
    var publications: map<Key, Publication>
    var events: map<Key, seq<OwnerEvent>>
    var validations: map<Key, Validation>
    var certificates: map<Key, CertificateRow>
    var lineages: map<Key, bool>
    var holdouts: map<Key, Holdout>
    var registry: map<Key, RegistryEntry>
    var artifacts: map<Digest, Artifact>
    var links: map<Key, (Digest, Digest)>

    function Tables(): Database
      reads this
    {
      Database(jobs, publications, events, validations, certificates, lineages, holdouts, registry, artifacts, links)
    }

    ghost predicate Valid()
      reads this
    {
      Inv(Tables())
    }

    /** An empty store. */
    constructor ()
      ensures Valid() && Tables() == EMPTY
    {
      jobs, publications, events, validations, certificates := map[], map[], map[], map[], map[];
      lineages, holdouts, registry, artifacts, links := map[], map[], map[], map[], map[];
      new;
      EmptyIsSound();
    }

    method Rollback(saved: Database)
      modifies this
      ensures Tables() == saved
    {
      jobs, publications, events, validations, certificates := saved.jobs, saved.publications, saved.events, saved.validations, saved.certificates;
      lineages, holdouts, registry, artifacts, links := saved.lineages, saved.holdouts, saved.registry, saved.artifacts, saved.links;
    }

    method AppendOwnerEvent(id: Key, event: OwnerEvent)
      requires id in events
      modifies this`events
      ensures events == old(events)[id := old(events)[id] + [event]]
    {
      events := events[id := events[id] + [event]];
    }

    method CreateJob(now: nat, id: Key, kind: JobKind, resource: Key, fingerprint: Key, stage: Key, progress: Key) returns (answer: Result<Answer, StepError>)
      requires Valid()
      modifies this`jobs
      ensures Valid() && Outcome(Tables(), answer) == PublicationSteps.CreateJob(old(Tables()), now, id, kind, resource, fingerprint, stage, progress)
    {
      hide RowSound, AllJobsSound, UniqueJobs, UniquePublications, JobFor;
      CreateKeeps(Tables(), now, id, kind, resource, fingerprint, stage, progress);
      if fingerprint == BLANK || stage == BLANK {
        return Err(InvalidArgument);
      }
      if JobsFor(jobs, kind, fingerprint) != {} {
        var existing := JobFor(jobs, kind, fingerprint);
        if jobs[existing].resource != resource {
          return Err(StateConflict);
        }
        return Ok(JobRow(existing));
      }
      if id in jobs {
        return Err(IntegrityFailure);
      }
      jobs := jobs[id := Job(kind, resource, Queued, fingerprint, stage, progress, None, false, false, now, None, None, 1)];
      return Ok(JobRow(id));
    }

    method ClaimNextQueuedJob(now: nat) returns (answer: Result<Answer, StepError>)
      requires Valid()
      modifies this`jobs
      ensures Valid() && Outcome(Tables(), answer) == ClaimNext(old(Tables()), now) && answer.Ok?
    {
      hide RowSound, AllJobsSound, UniqueJobs, UniquePublications, OldestQueued, IsOldest;
      ClaimKeeps(Tables(), now);
      ClaimNeverLoses(Tables(), now);
      if QueuedJobs(jobs) == {} {
        return Ok(Nothing);
      }
      var k := OldestQueued(jobs);
      QueuedOldest(jobs, k);
      var job := jobs[k].(status := Running, startedAt := Some(now), worker := true, rowVersion := jobs[k].rowVersion + 1);
      if jobs[k].worker {
        return Err(StateConflict);
      }
      if !job.Check() {
        return Err(IntegrityFailure);
      }
      jobs := jobs[k := job];
      return Ok(JobRow(k));
    }

    /** The job row a transition writes. */
    static method MovedRow(row: Job, now: nat, target: JobStatus, stage: Option<Key>, progress: Option<Key>, resultRef: Option<Key>, hasError: bool)
      returns (moved: Job)
      ensures moved == Transitioned(row, now, target, stage, progress, resultRef, hasError)
    {
      var startedAt := row.startedAt;
      if target.Cancelled? && startedAt.None? {
        startedAt := Some(now);
      }
      var terminal := target.Succeeded? || target.Failed? || target.Cancelled?;
      moved := row.(status := target, stage := if stage.Some? then stage.value else row.stage,
                    progress := if progress.Some? then progress.value else row.progress,
                    resultRef := if target.Succeeded? then resultRef else row.resultRef, hasError := hasError,
                    worker := if terminal then false else row.worker, startedAt := startedAt,
                    finishedAt := if terminal then Some(now) else row.finishedAt, rowVersion := row.rowVersion + 1);
    }

    method TransitionJob(now: nat, id: Key, expected: JobStatus, target: JobStatus, stage: Option<Key>, progress: Option<Key>, resultRef: Option<Key>, hasError: bool)
      returns (answer: Result<Answer, StepError>)
      requires Valid()
      modifies this`jobs, this`publications, this`events
      ensures Valid() && Outcome(Tables(), answer) == PublicationSteps.TransitionJob(old(Tables()), now, id, expected, target, stage, progress, resultRef, hasError)
    {
      hide RowSound, AllJobsSound, UniqueJobs, UniquePublications, Revoked, Transitioned;
      MoveKeeps(Tables(), now, id, expected, target, stage, progress, resultRef, hasError);
      if !LegalTransition(expected, target) {
        return Err(StateConflict);
      }
      if stage == Some(BLANK) || (target.Failed? && !hasError) || (!target.Failed? && hasError) {
        return Err(InvalidArgument);
      }
      if target.Succeeded? && (resultRef.None? || resultRef.value == BLANK) {
        return Err(InvalidArgument);
      }
      if id !in jobs || jobs[id].status != expected {
        return Err(StateConflict);
      }
      var moved := MovedRow(jobs[id], now, target, stage, progress, resultRef, hasError);
      if !moved.Check() {
        return Err(IntegrityFailure);
      }
      jobs := jobs[id := moved];
      if target.Failed? || target.Cancelled? {
        RevokeOwnedChildren(id);
      }
      return Ok(JobRow(id));
    }

    /** Releases every publication a job was preparing, row by row. */
    method RevokeOwnedChildren(owner: Key)
      requires events.Keys == publications.Keys
      modifies this`publications, this`events
      ensures Tables() == Revoked(old(Tables()), {owner})
    {
      hide Halfway, Revoked;
      ghost var base := Tables();
      var rows := set k | k in publications && OwnedBy(publications[k], {owner});
      RevokingStarts(base, rows, owner);
      while rows != {}
        invariant Halfway(base, publications, events, rows, owner)
        invariant Tables() == base.(publications := publications, events := events)
        decreases |rows|
      {
        var k :| k in rows;
        RevokingStep(base, publications, events, rows, owner, k);
        ReleaseChild(k);
        rows := rows - {k};
      }
      RevokingEnds(base, publications, events, owner);
    }

    method ReleaseChild(id: Key)
      requires id in publications && id in events
      modifies this`publications, this`events
      ensures publications == old(publications)[id := Released(old(publications)[id])]
      ensures events == old(events)[id := old(events)[id] + ReleaseEvents(old(publications)[id])]
    {
      var row := publications[id];
      publications := publications[id := row.(state := FailedRetryable, ownerToken := None, ownerJob := None, expires := None,
                                              failure := Some(OwnerInterrupted), rowVersion := row.rowVersion + 1)];
      AppendOwnerEvent(id, OwnerEvent(ReleasedStale, row.ownerJob, row.epoch, row.staged));
      AppendOwnerEvent(id, OwnerEvent(FailedAttempt, row.ownerJob, row.epoch, row.staged));
      var before := old(events)[id];
      assert before + ReleaseEvents(row) == (before + [ReleaseEvents(row)[0]]) + [ReleaseEvents(row)[1]];
    }

    /** Fails one more interrupted job and releases what it was preparing. */
    method FailInterrupted(k: Key, now: nat, ghost base: Database, ghost done: set<Key>)
      requires k in base.jobs && k !in done && events.Keys == publications.Keys
      requires Tables() == Revoked(base.(jobs := Interrupted(base.jobs, done, now)), done)
      modifies this`jobs, this`publications, this`events
      ensures Tables() == Revoked(base.(jobs := Interrupted(base.jobs, done + {k}, now)), done + {k}) && events.Keys == publications.Keys
    {
      hide Revoked, Interrupted, InterruptedJob;
      RecoveryStep(base, done, k, now);
      jobs := jobs[k := InterruptedJob(jobs[k], now)];
      RevokedKeys(Tables(), {k});
      RevokeOwnedChildren(k);
    }

    method RecoverInterruptedJobs(now: nat) returns (answer: Result<Answer, StepError>)
      requires Valid()
      modifies this`jobs, this`publications, this`events
      ensures Valid() && Outcome(Tables(), answer) == RecoverInterrupted(old(Tables()), now)
    {
      hide RowSound, AllJobsSound, UniqueJobs, UniquePublications, Revoked, Interrupted, InterruptedJob;
      ghost var base := Tables();
      RecoverKeeps(base, now);
      var running := RunningJobs(jobs);
      var rows := running;
      NothingRecovered(base, now);
      while rows != {}
        invariant rows <= running && events.Keys == publications.Keys
        invariant Tables() == Revoked(base.(jobs := Interrupted(base.jobs, running - rows, now)), running - rows)
        decreases |rows|
      {
        var k :| k in rows;
        FailInterrupted(k, now, base, running - rows);
        assert running - (rows - {k}) == running - rows + {k};
        rows := rows - {k};
      }
      assert running - rows == running;
      return Ok(JobRows(running));
    }

    method GetOrCreateAvailable(c: Command) returns (answer: Result<Answer, StepError>)
      requires Valid()
      modifies this
      ensures Valid() && Outcome(Tables(), answer) == GetOrCreate(old(Tables()), c)
    {
      hide RowSound, AllJobsSound, UniqueJobs, UniquePublications, PublicationOf, RegistryTaken, PinExisting;
      ghost var base := Tables();
      OpenKeeps(base, c);
      if PublicationsOf(publications, c.validation) == {} {
        if c.publication in publications || RegistryTaken(publications, c.registry) || c.validation !in validations || c.lineage !in lineages {
          return Err(IntegrityFailure);
        }
        publications := publications[c.publication := Fresh(c)];
        events := events[c.publication := []];
        return Ok(PublicationRow(c.publication));
      }
      answer := PinIdentity(PublicationOf(publications, c.validation), c);
    }

    /** Pins a row's registry entry and profile where it has none yet, or undoes both. */
    method PinIdentity(k: Key, c: Command) returns (answer: Result<Answer, StepError>)
      requires k in publications
      modifies this
      ensures Outcome(Tables(), answer) == PinExisting(old(Tables()), k, c)
    {
      hide RegistryTaken, PinRegistry, PinProfile, SameIdentity;
      var saved := Tables();
      var row := publications[k];
      if k != c.publication || !SameIdentity(row, c) {
        return Err(StateConflict);
      }
      var registered := PinRegistry(row, c.registry);
      if registered != row {
        if RegistryTaken(publications, c.registry) {
          return Err(IntegrityFailure);
        }
        publications := publications[k := registered];
      }
      assert saved.publications[k := row] == saved.publications;
      answer := PinProfileToo(saved, k, registered, c);
    }

    method PinProfileToo(saved: Database, k: Key, registered: Publication, c: Command) returns (answer: Result<Answer, StepError>)
      requires k in saved.publications && Tables() == saved.(publications := saved.publications[k := registered])
      modifies this
      ensures var pinned := PinProfile(registered, c.profile);
        Outcome(Tables(), answer)
        == if registered.registry != Some(c.registry) || pinned.profile != Some(c.profile) then Raised(saved, StateConflict)
           else Returned(saved.(publications := saved.publications[k := pinned]), PublicationRow(k))
    {
      if registered.registry != Some(c.registry) {
        Rollback(saved);
        return Err(StateConflict);
      }
      if registered.profile.None? && !registered.state.Published? {
        publications := publications[k := registered.(profile := Some(c.profile), rowVersion := registered.rowVersion + 1)];
      }
      if publications[k].profile != Some(c.profile) {
        Rollback(saved);
        return Err(StateConflict);
      }
      assert publications == saved.publications[k := publications[k]];
      return Ok(PublicationRow(k));
    }

    method Acquire(now: nat, id: Key, seen: Publication, job: Key, token: Key, expires: nat) returns (answer: Result<Answer, StepError>)
      requires Valid()
      modifies this
      ensures Valid() && Outcome(Tables(), answer) == PublicationSteps.Acquire(old(Tables()), now, id, seen, job, token, expires)
    {
      hide RowSound, AllJobsSound, UniqueJobs, UniquePublications, Released, ReleaseEvents, TakeOver;
      ghost var base := Tables();
      LeaseKeeps(base, now, id, seen, job, token, expires);
      if job == BLANK || token == BLANK || expires <= now {
        return Err(InvalidArgument);
      }
      if id !in publications {
        return Err(StateConflict);
      }
      var saved := Tables();
      var current := publications[id];
      if current.state.Preparing? {
        if current.expires.None? {
          return Err(StateConflict);
        }
        if current.expires.value > now {
          return Ok(Nothing);
        }
        if current.ownerToken == Some(token) {
          return Err(StateConflict);
        }
        ReleaseChild(id);
      } else if current.state.Published? {
        return Ok(Nothing);
      } else if current.rowVersion != seen.rowVersion {
        return Ok(Nothing);
      }
      answer := TakeOwnership(saved, id, job, token, expires);
    }

    /** Hands the freed publication to a running worker, or undoes everything since `saved`. */
    method TakeOwnership(saved: Database, id: Key, job: Key, token: Key, expires: nat) returns (answer: Result<Answer, StepError>)
      requires id in publications && id in events && SameRecords(saved, Tables())
      modifies this
      ensures Outcome(Tables(), answer) == TakeOver(saved, old(Tables()), id, job, token, expires)
    {
      hide TakenOver;
      if !RunningWorker(jobs, job, id) {
        Rollback(saved);
        return Err(StateConflict);
      }
      publications := publications[id := TakenOver(publications[id], job, token, expires)];
      AppendOwnerEvent(id, OwnerEvent(Acquired, Some(job), publications[id].epoch, []));
      return Ok(PublicationRow(id));
    }

    method RecordStagedArtifacts(now: nat, id: Key, seen: Publication, hashes: seq<Digest>) returns (answer: Result<Answer, StepError>)
      requires Valid()
      modifies this`publications
      ensures Valid() && Outcome(Tables(), answer) == StageArtifacts(old(Tables()), now, id, seen, hashes)
    {
      hide RowSound, AllJobsSound, UniqueJobs, UniquePublications, HasNoRepeats;
      StageKeeps(Tables(), now, id, seen, hashes);
      if !(|hashes| == 1 || |hashes| == 2) || !HasNoRepeats(hashes) {
        return Err(InvalidArgument);
      }
      if id !in publications {
        return Err(StateConflict);
      }
      var current := publications[id];
      if !Owns(current, seen) || !LeaseLive(current, now) {
        return Err(StateConflict);
      }
      if !(current.staged <= hashes) {
        return Err(StateConflict);
      }
      publications := publications[id := current.(staged := hashes, rowVersion := current.rowVersion + 1)];
      return Ok(PublicationRow(id));
    }

    /** The hashes already staged and the new ones, each kept once, in order. */
    method Retain(staged: seq<Digest>, orphans: seq<Digest>) returns (retained: seq<Digest>)
      ensures retained == FirstOf(staged + orphans)
    {
      var all := staged + orphans;
      retained := [];
      for i := 0 to |all|
        invariant retained == FirstOf(all[..i])
      {
        assert all[..i + 1][..i] == all[..i];
        if all[i] !in retained {
          retained := retained + [all[i]];
        }
      }
      assert all[..|all|] == all;
    }

    method FailAttempt(id: Key, seen: Publication, kind: FailureKind, orphans: seq<Digest>) returns (answer: Result<Answer, StepError>)
      requires Valid()
      modifies this`publications, this`events
      ensures Valid() && Outcome(Tables(), answer) == PublicationSteps.FailAttempt(old(Tables()), id, seen, kind, orphans)
    {
      hide RowSound, AllJobsSound, UniqueJobs, UniquePublications, FirstOf;
      FailKeeps(Tables(), id, seen, kind, orphans);
      if id !in publications {
        return Err(StateConflict);
      }
      var current := publications[id];
      if current.state.Published? {
        return Ok(PublicationRow(id));
      }
      if !Owns(current, seen) {
        return Err(StateConflict);
      }
      var retained := Retain(current.staged, orphans);
      publications := publications[id := current.(state := FailedRetryable, ownerToken := None, ownerJob := None, expires := None,
                                                  staged := retained, failure := Some(kind), rowVersion := current.rowVersion + 1)];
      AppendOwnerEvent(id, OwnerEvent(FailedAttempt, current.ownerJob, current.epoch, retained));
      return Ok(PublicationRow(id));
    }

    /** Finds the artifact a report was stored as, or records it. */
    method EnsureArtifact(report: Report, json: bool) returns (ok: bool)
      modifies this`artifacts
      ensures ok <==> !Conflicts(old(artifacts), report, json)
      ensures artifacts == if ok then old(artifacts)[report.hash := Artifact(report.size, json)] else old(artifacts)
    {
      if report.hash in artifacts {
        return artifacts[report.hash] == Artifact(report.size, json);
      }
      artifacts := artifacts[report.hash := Artifact(report.size, json)];
      return true;
    }

    /** Both reports' artifacts, found or recorded. */
    method EnsureArtifacts(json: Report, html: Report) returns (ok: bool)
      requires json.hash != html.hash
      modifies this`artifacts
      ensures ok <==> !Conflicts(old(artifacts), json, true) && !Conflicts(old(artifacts), html, false)
      ensures ok ==> artifacts == old(artifacts)[json.hash := Artifact(json.size, true)][html.hash := Artifact(html.size, false)]
    {
      ok := EnsureArtifact(json, true);
      if ok {
        ok := EnsureArtifact(html, false);
      }
    }

    method PublishAtomically(now: nat, id: Key, seen: Publication, registryId: Key, json: Report, html: Report)
      returns (answer: Result<Answer, StepError>)
      requires Valid()
      modifies this
      ensures Valid() && Outcome(Tables(), answer) == PublicationSteps.PublishAtomically(old(Tables()), now, id, seen, registryId, json, html)
    {
      hide RowSound, AllJobsSound, UniqueJobs, UniquePublications, Prerequisites, LinkedPublished, RegistryConflict, Committed, Conflicts;
      ghost var base := Tables();
      PublishKeeps(base, now, id, seen, registryId, json, html);
      if id !in publications || !Owns(publications[id], seen) {
        return Err(StateConflict);
      }
      var saved := Tables();
      var current := publications[id];
      if !LeaseLive(current, now) || current.ownerJob.None? || current.registry != Some(registryId) {
        return Err(StateConflict);
      }
      if !Prerequisites(saved, current) || current.staged != [json.hash, html.hash] {
        return Err(StateConflict);
      }
      StagedDiffer(base, id, json.hash, html.hash);
      var stored := EnsureArtifacts(json, html);
      if !stored {
        Rollback(saved);
        return Err(StateConflict);
      }
      answer := Commit(saved, now, id, registryId, json, html);
    }

    /** Writes links, registry entry, row, event and job success together, or undoes everything since `saved`. */
    method Commit(saved: Database, now: nat, id: Key, registryId: Key, json: Report, html: Report) returns (answer: Result<Answer, StepError>)
      requires id in publications && id in events && publications[id].ownerJob.Some?
      requires Tables() == saved.(artifacts := saved.artifacts[json.hash := Artifact(json.size, true)][html.hash := Artifact(html.size, false)])
      modifies this
      ensures var current := saved.publications[id];
        Outcome(Tables(), answer)
        == if id in saved.links || LinkedPublished(saved, json.hash) || LinkedPublished(saved, html.hash)
              || RegistryConflict(saved.registry, registryId, id, current.validation) then Raised(saved, IntegrityFailure)
           else if !RunningWorker(saved.jobs, current.ownerJob.value, id) then Raised(saved, StateConflict)
           else Returned(Committed(saved, now, id, registryId, json, html), PublicationRow(id))
    {
      hide LinkedPublished, RegistryConflict, PublishedRow, FinishedJob;
      var current := publications[id];
      if id in links || LinkedPublished(saved, json.hash) || LinkedPublished(saved, html.hash) {
        Rollback(saved);
        return Err(IntegrityFailure);
      }
      links := links[id := (json.hash, html.hash)];
      if RegistryConflict(registry, registryId, id, current.validation) {
        Rollback(saved);
        return Err(IntegrityFailure);
      }
      registry := registry[registryId := RegistryEntry(id, current.validation, current.strategy, current.candidate, current.lineage)];
      publications := publications[id := PublishedRow(current, now)];
      AppendOwnerEvent(id, OwnerEvent(PublishedEvent, current.ownerJob, current.epoch, []));
      var job := current.ownerJob.value;
      if !RunningWorker(jobs, job, id) {
        Rollback(saved);
        return Err(StateConflict);
      }
      jobs := jobs[job := FinishedJob(jobs[job], now, json.hash)];
      return Ok(PublicationRow(id));
    }
  }

  lemma {:induction false} NothingRecovered(db: Database, now: nat)
    requires db.events.Keys == db.publications.Keys
    ensures Revoked(db.(jobs := Interrupted(db.jobs, {}, now)), {}) == db
    ensures RunningJobs(db.jobs) - RunningJobs(db.jobs) == {}
  {
    assert Interrupted(db.jobs, {}, now) == db.jobs;
    var r := Revoked(db, {});
    assert r.publications == db.publications;
    assert r.events == db.events;
  }

  lemma {:induction false} RevokedKeys(db: Database, owners: set<Key>)
    ensures Revoked(db, owners).publications.Keys == db.publications.Keys && Revoked(db, owners).events.Keys == db.events.Keys
  {
  }

  lemma {:induction false} StagedDiffer(db: Database, id: Key, a: Digest, b: Digest)
    requires Inv(db) && id in db.publications && db.publications[id].staged == [a, b]
    ensures a != b
  {
    hide Audited, Owned;
    assert RowSound(db, id);
    assert db.publications[id].staged[0] != db.publications[id].staged[1];
  }
}
