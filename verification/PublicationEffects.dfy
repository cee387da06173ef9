/** When each repository operation succeeds and exactly what it then writes, column by column. */
module PublicationEffects {
  import opened Octets
  import opened Outcomes
  import opened PublicationInvariants
  import opened PublicationLeases
  import opened PublicationSteps
  import opened PublicationTables

  // ---------------------------------------------------------------- jobs

  /** Creating a job is idempotent by kind and fingerprint: an equal request finds the job there is,
      one for another resource conflicts, and only a new one adds a queued row. */
  lemma {:induction false} CreatesExactly(db: Database, now: nat, id: Key, kind: JobKind, resource: Key, fingerprint: Key, stage: Key, progress: Key, k: Key)
    requires Inv(db)
    ensures var o := CreateJob(db, now, id, kind, resource, fingerprint, stage, progress);
      var valid := fingerprint != BLANK && stage != BLANK;
      var equal := k in db.jobs && db.jobs[k].kind == kind && db.jobs[k].fingerprint == fingerprint;
      && (!valid ==> o == Outcome(db, Err(InvalidArgument)))
      && (valid && equal ==> o == Outcome(db, if db.jobs[k].resource == resource then Ok(JobRow(k)) else Err(StateConflict)))
      && (valid && (forall other :: other in db.jobs ==> db.jobs[other].kind != kind || db.jobs[other].fingerprint != fingerprint) ==>
            if id in db.jobs then o == Outcome(db, Err(IntegrityFailure))
            else o == Outcome(db.(jobs := db.jobs[id := Job(kind, resource, Queued, fingerprint, stage, progress, None, false, false, now,
                                                            None, None, 1)]),
                              Ok(JobRow(id))))
  {
    hide AllJobsSound, UniquePublications, RowSound;
    if k in db.jobs && db.jobs[k].kind == kind && db.jobs[k].fingerprint == fingerprint {
      assert k in JobsFor(db.jobs, kind, fingerprint);
    }
  }

  /** Asked again, in whatever state the job is by then, a creation finds the job it made. */
  lemma {:induction false} CreatingAgainFinds(db: Database, now: nat, id: Key, kind: JobKind, resource: Key, fingerprint: Key, stage: Key, progress: Key,
                                              later: Database, laterNow: nat, otherId: Key, otherStage: Key, otherProgress: Key)
    requires Inv(db) && Inv(later) && otherStage != BLANK
    requires CreateJob(db, now, id, kind, resource, fingerprint, stage, progress).answer == Ok(JobRow(id))
    requires id in later.jobs && later.jobs[id].kind == kind && later.jobs[id].fingerprint == fingerprint && later.jobs[id].resource == resource
    ensures CreateJob(later, laterNow, otherId, kind, resource, fingerprint, otherStage, otherProgress) == Outcome(later, Ok(JobRow(id)))
  {
    hide Inv, CreateJob;
    CreatesExactly(db, now, id, kind, resource, fingerprint, stage, progress, id);
    CreatesExactly(later, laterNow, otherId, kind, resource, fingerprint, otherStage, otherProgress, id);
  }

  /** A claim starts the queued job that is first by creation time and then identifier. */
  lemma {:induction false} ClaimsExactly(db: Database, now: nat, k: Key)
    requires Inv(db) && k in db.jobs && db.jobs[k].status == Queued
    requires forall other :: other in db.jobs && db.jobs[other].status == Queued && other != k ==>
      db.jobs[k].createdAt < db.jobs[other].createdAt || (db.jobs[k].createdAt == db.jobs[other].createdAt && k < other)
    ensures ClaimNext(db, now)
         == Outcome(db.(jobs := db.jobs[k := db.jobs[k].(status := Running, startedAt := Some(now), worker := true,
                                                         rowVersion := db.jobs[k].rowVersion + 1)]),
                    Ok(JobRow(k)))
  {
    hide UniqueJobs, UniquePublications, RowSound;
    ClaimNeverLoses(db, now);
    assert k in QueuedJobs(db.jobs);
    var oldest := OldestQueued(db.jobs);
    QueuedOldest(db.jobs, oldest);
    assert NoLater(db.jobs, oldest, k);
    assert oldest == k;
  }

  /** What a publication loses when its owner is lost. */
  function Lost(p: Publication): Publication {
    p.(state := FailedRetryable, ownerToken := None, ownerJob := None, expires := None, failure := Some(OwnerInterrupted), rowVersion := p.rowVersion + 1)
  }

  /** The publications and events once some jobs have lost what they were preparing. */
  ghost predicate Abandoned(db: Database, after: Database, owners: set<Key>) {
    && after.publications.Keys == db.publications.Keys && after.events.Keys == db.events.Keys
    && forall id :: id in db.publications && id in db.events ==>
         var p := db.publications[id];
         if p.state == Preparing && p.ownerJob.Some? && p.ownerJob.value in owners then
           && after.publications[id] == Lost(p)
           && after.events[id] == db.events[id] + [OwnerEvent(ReleasedStale, p.ownerJob, p.epoch, p.staged), OwnerEvent(FailedAttempt, p.ownerJob, p.epoch, p.staged)]
         else after.publications[id] == p && after.events[id] == db.events[id]
  }

  lemma {:induction false} RevokedAbandons(db: Database, jobs: map<Key, Job>, owners: set<Key>)
    ensures Abandoned(db, Revoked(db.(jobs := jobs), owners), owners)
    ensures Revoked(db.(jobs := jobs), owners) == db.(jobs := jobs, publications := Revoked(db.(jobs := jobs), owners).publications,
                                                      events := Revoked(db.(jobs := jobs), owners).events)
  {
  }

  /** A transition succeeds for a queued job exactly to cancelled and for a running one to any terminal
      status, with an error exactly on failure and a result on success. */
  lemma {:induction false} MovesExactly(db: Database, now: nat, id: Key, expected: JobStatus, target: JobStatus, stage: Option<Key>, progress: Option<Key>,
                                        resultRef: Option<Key>, hasError: bool)
    requires Inv(db)
    ensures var o := TransitionJob(db, now, id, expected, target, stage, progress, resultRef, hasError);
      && (o.answer == Ok(JobRow(id)) <==>
            && ((expected == Queued && target == Cancelled) || (expected == Running && target in {Succeeded, Failed, Cancelled}))
            && stage != Some(BLANK) && hasError == (target == Failed) && (target == Succeeded ==> resultRef.Some? && resultRef.value != BLANK)
            && id in db.jobs && db.jobs[id].status == expected)
      && (o.answer != Ok(JobRow(id)) ==> o.db == db)
      && (o.answer == Ok(JobRow(id)) ==>
            && id in db.jobs
            && var job := db.jobs[id];
            && o.db.jobs == db.jobs[id := job.(status := target, finishedAt := Some(now), worker := false, hasError := hasError,
                                               startedAt := if target == Cancelled && job.startedAt == None then Some(now) else job.startedAt,
                                               stage := if stage.Some? then stage.value else job.stage,
                                               progress := if progress.Some? then progress.value else job.progress,
                                               resultRef := if target == Succeeded then resultRef else job.resultRef,
                                               rowVersion := job.rowVersion + 1)]
            && (if target == Succeeded then o.db == db.(jobs := o.db.jobs)
                else Abandoned(db, o.db, {id}) && o.db == db.(jobs := o.db.jobs, publications := o.db.publications, events := o.db.events)))
  {
    hide Abandoned, Revoked, UniqueJobs, UniquePublications, RowSound;
    TransitionsExactly(db, now, id, expected, target, stage, progress, resultRef, hasError);
    if id in db.jobs {
      var row := Transitioned(db.jobs[id], now, target, stage, progress, resultRef, hasError);
      RevokedAbandons(db, db.jobs[id := row], {id});
    }
  }

  /** Recovery fails every running job, and every publication one of them was preparing loses its owner. */
  lemma {:induction false} RecoversExactly(db: Database, now: nat, running: set<Key>)
    requires forall k :: k in running <==> k in db.jobs && db.jobs[k].status == Running
    ensures var o := RecoverInterrupted(db, now);
      && o.answer == Ok(JobRows(running)) && Abandoned(db, o.db, running)
      && o.db == db.(jobs := o.db.jobs, publications := o.db.publications, events := o.db.events)
      && o.db.jobs.Keys == db.jobs.Keys
      && forall k :: k in db.jobs ==>
           o.db.jobs[k] == if db.jobs[k].status == Running
                           then db.jobs[k].(status := Failed, hasError := true, worker := false, finishedAt := Some(now), rowVersion := db.jobs[k].rowVersion + 1)
                           else db.jobs[k]
  {
    hide Abandoned, Revoked;
    assert running == RunningJobs(db.jobs);
    RevokedAbandons(db, Interrupted(db.jobs, running, now), running);
  }

  // ---------------------------------------------------------------- opening a publication

  /** Opening for a validation without a publication adds an available row under the command's
      identities, or fails when one of its keys is taken or a row it refers to is missing. */
  lemma {:induction false} OpensNew(db: Database, c: Command)
    requires Inv(db) && forall k :: k in db.publications ==> db.publications[k].validation != c.validation
    ensures var o := GetOrCreate(db, c);
      if c.publication in db.publications || (exists k :: k in db.publications && db.publications[k].registry == Some(c.registry))
         || c.validation !in db.validations || c.lineage !in db.lineages
      then o == Outcome(db, Err(IntegrityFailure))
      else o == Outcome(db.(publications := db.publications[c.publication :=
                              Publication(c.validation, c.strategy, c.candidate, c.lineage, Some(c.profile), Some(c.registry), Available,
                                          None, None, 0, None, 0, [], None, None, 1)],
                            events := db.events[c.publication := []]),
                        Ok(PublicationRow(c.publication)))
  {
    hide UniqueJobs, UniquePublications, AllJobsSound, RowSound;
    assert PublicationsOf(db.publications, c.validation) == {};
  }

  /** Opening for a validation that has one returns it when every identity agrees, filling in the
      identities it has not pinned yet unless it is published; anything else conflicts. */
  lemma {:induction false} OpensExisting(db: Database, c: Command, k: Key)
    requires Inv(db) && k in db.publications && db.publications[k].validation == c.validation
    ensures var o, p := GetOrCreate(db, c), db.publications[k];
      var same := k == c.publication && p.strategy == c.strategy && p.candidate == c.candidate && p.lineage == c.lineage;
      var pins := p.state != Published && p.registry == None;
      var agrees := (p.registry == Some(c.registry) || pins) && (p.profile == Some(c.profile) || (p.state != Published && p.profile == None));
      && (o.answer == Ok(PublicationRow(k)) <==>
            same && agrees && (pins ==> forall other :: other in db.publications ==> db.publications[other].registry != Some(c.registry)))
      && (o.answer != Ok(PublicationRow(k)) ==> o.db == db && o.answer.Err?)
      && (o.answer == Ok(PublicationRow(k)) ==>
            && k in o.db.publications
            && o.db == db.(publications := db.publications[k := o.db.publications[k]])
            && var q := o.db.publications[k];
               q == p.(registry := Some(c.registry), profile := Some(c.profile), rowVersion := q.rowVersion) && q.rowVersion >= p.rowVersion
               && (q.rowVersion == p.rowVersion <==> p.registry == Some(c.registry) && p.profile == Some(c.profile)))
  {
    hide Inv, PinExisting;
    FindsExisting(db, c, k);
    PinsExactly(db, k, c);
  }

  lemma {:induction false} FindsExisting(db: Database, c: Command, k: Key)
    requires Inv(db) && k in db.publications && db.publications[k].validation == c.validation
    ensures Keyed(db) && GetOrCreate(db, c) == PinExisting(db, k, c)
  {
    hide UniqueJobs, AllJobsSound, RowSound, PinExisting;
    assert k in PublicationsOf(db.publications, c.validation);
    assert PublicationOf(db.publications, c.validation) == k;
  }

  /** What pinning makes of a row the command names. */
  function Pinned(p: Publication, c: Command): Publication { PinProfile(PinRegistry(p, c.registry), c.profile) }

  lemma {:induction false} PinsExactly(db: Database, k: Key, c: Command)
    requires k in db.publications && db.publications[k].validation == c.validation
    ensures var o, p := PinExisting(db, k, c), db.publications[k];
      var same := k == c.publication && p.strategy == c.strategy && p.candidate == c.candidate && p.lineage == c.lineage;
      var pins := p.state != Published && p.registry == None;
      var agrees := (p.registry == Some(c.registry) || pins) && (p.profile == Some(c.profile) || (p.state != Published && p.profile == None));
      && (o.answer == Ok(PublicationRow(k)) <==> same && agrees && (pins ==> !RegistryTaken(db.publications, c.registry)))
      && (o.answer != Ok(PublicationRow(k)) ==> o.db == db && o.answer.Err?)
      && (o.answer == Ok(PublicationRow(k)) ==>
            && k in o.db.publications
            && o.db == db.(publications := db.publications[k := o.db.publications[k]])
            && var q := o.db.publications[k];
               q == p.(registry := Some(c.registry), profile := Some(c.profile), rowVersion := q.rowVersion) && q.rowVersion >= p.rowVersion
               && (q.rowVersion == p.rowVersion <==> p.registry == Some(c.registry) && p.profile == Some(c.profile)))
  {
    hide RegistryTaken, PinRegistry, PinProfile, Pinned, PinExisting;
    PinnedColumns(db.publications[k], c);
    PinsOr(db, k, c);
    OneRowWritten(db, k, Pinned(db.publications[k], c));
  }

  lemma {:induction false} OneRowWritten(db: Database, k: Key, q: Publication)
    ensures var after := db.(publications := db.publications[k := q]);
      k in after.publications && after.publications[k] == q && after == db.(publications := db.publications[k := after.publications[k]])
  {
  }

  lemma {:induction false} PinsOr(db: Database, k: Key, c: Command)
    requires k in db.publications && db.publications[k].validation == c.validation
    ensures var o, p := PinExisting(db, k, c), db.publications[k];
      var one, q := PinRegistry(p, c.registry), Pinned(p, c);
      if k == c.publication && p.strategy == c.strategy && p.candidate == c.candidate && p.lineage == c.lineage
         && (one == p || !RegistryTaken(db.publications, c.registry)) && one.registry == Some(c.registry) && q.profile == Some(c.profile)
      then o == Outcome(db.(publications := db.publications[k := q]), Ok(PublicationRow(k)))
      else o.db == db && o.answer.Err?
  {
    hide RegistryTaken, PinRegistry, PinProfile;
  }

  lemma {:induction false} PinnedColumns(p: Publication, c: Command)
    ensures var one, q := PinRegistry(p, c.registry), Pinned(p, c);
      && (one != p <==> p.state != Published && p.registry == None)
      && (one.registry == Some(c.registry) <==> p.registry == Some(c.registry) || (p.state != Published && p.registry == None))
      && (q.profile == Some(c.profile) <==> p.profile == Some(c.profile) || (p.state != Published && p.profile == None))
      && q == p.(registry := one.registry, profile := q.profile, rowVersion := q.rowVersion) && q.rowVersion >= p.rowVersion
      && (one.registry == Some(c.registry) && q.profile == Some(c.profile) ==>
            (q.rowVersion == p.rowVersion <==> p.registry == Some(c.registry) && p.profile == Some(c.profile)))
  {
  }

  // ---------------------------------------------------------------- staging, failing, publishing

  /** The caller's snapshot is the row's present one, and the row is being prepared. */
  predicate Holds(p: Publication, seen: Publication) {
    && p.state == Preparing && p.ownerToken == seen.ownerToken && p.ownerJob == seen.ownerJob && p.epoch == seen.epoch && p.rowVersion == seen.rowVersion
  }

  /** Staging succeeds exactly for the holder of a live lease who adds to what is staged. */
  lemma {:induction false} StagesExactly(db: Database, now: nat, id: Key, seen: Publication, hashes: seq<Digest>)
    ensures var o := StageArtifacts(db, now, id, seen, hashes);
      && (o.answer == Ok(PublicationRow(id)) <==>
            && 1 <= |hashes| <= 2 && (|hashes| == 2 ==> hashes[0] != hashes[1])
            && id in db.publications && Holds(db.publications[id], seen)
            && db.publications[id].expires.Some? && db.publications[id].expires.value > now
            && |db.publications[id].staged| <= |hashes| && db.publications[id].staged == hashes[..|db.publications[id].staged|])
      && (o.answer != Ok(PublicationRow(id)) ==> o.db == db)
      && (o.answer == Ok(PublicationRow(id)) ==>
            && id in db.publications
            && o.db == db.(publications := db.publications[id := db.publications[id].(staged := hashes, rowVersion := db.publications[id].rowVersion + 1)]))
  {
  }

  /** Failing an attempt succeeds exactly for the holder, lease or no lease, and does nothing to a
      published row; it keeps every staged or orphaned hash once. */
  lemma {:induction false} FailsExactly(db: Database, id: Key, seen: Publication, kind: FailureKind, orphans: seq<Digest>)
    requires Inv(db)
    ensures var o := FailAttempt(db, id, seen, kind, orphans);
      && (o.answer == Ok(PublicationRow(id)) <==> id in db.publications && (db.publications[id].state == Published || Holds(db.publications[id], seen)))
      && (o.answer != Ok(PublicationRow(id)) ==> o == Outcome(db, Err(StateConflict)))
      && (id in db.publications && db.publications[id].state == Published ==> o.db == db)
      && (id in db.publications && Holds(db.publications[id], seen) ==>
            && id in db.events && id in o.db.publications
            && var p, q := db.publications[id], o.db.publications[id];
            && q == p.(state := FailedRetryable, ownerToken := None, ownerJob := None, expires := None, failure := Some(kind), staged := q.staged,
                       rowVersion := p.rowVersion + 1)
            && HasNoRepeats(q.staged) && (forall h :: h in q.staged <==> h in p.staged || h in orphans)
            && o.db == db.(publications := db.publications[id := q],
                           events := db.events[id := db.events[id] + [OwnerEvent(FailedAttempt, p.ownerJob, p.epoch, q.staged)]]))
  {
    hide UniqueJobs, UniquePublications, AllJobsSound, RowSound, FirstOf;
    if id in db.publications { FirstOfMembers(db.publications[id].staged, orphans); }
  }

  lemma {:induction false} FirstOfMembers(a: seq<Digest>, b: seq<Digest>)
    ensures HasNoRepeats(FirstOf(a + b)) && forall h :: h in FirstOf(a + b) <==> h in a || h in b
  {
  }

  /** What a publication rests on, row by row: a passing validation of its strategy, candidate and
      lineage, a passing certificate, a closed lineage, the holdout slot this validation consumed, and one
      profile hash on all four. */
  ghost predicate RestsOn(db: Database, p: Publication) {
    && p.validation in db.validations
    && var v := db.validations[p.validation];
    && v.passed && v.strategy == p.strategy && v.candidate == p.candidate && v.lineage == p.lineage
    && v.lineage in db.lineages && db.lineages[v.lineage] == true
    && v.certificate.Some? && v.certificate.value in db.certificates && db.certificates[v.certificate.value].passed
    && v.lineage in db.holdouts && db.holdouts[v.lineage].consumedBy == Some(p.validation)
    && p.profile == Some(v.profile) && v.profile == db.certificates[v.certificate.value].profile == db.holdouts[v.lineage].profile
  }

  lemma {:induction false} RestsExactly(db: Database, p: Publication)
    ensures Prerequisites(db, p) <==> RestsOn(db, p)
  {
  }

  /** No published publication links one of these artifacts, and no registry entry names the
      publication, its validation or the identifier. */
  ghost predicate NothingTaken(db: Database, id: Key, registryId: Key, json: Digest, html: Digest)
    requires id in db.publications
  {
    && id !in db.links && registryId !in db.registry
    && (forall k :: k in db.registry ==> db.registry[k].publication != id && db.registry[k].validation != db.publications[id].validation)
    && forall k :: k in db.links && k in db.publications && db.publications[k].state == Published ==>
         json != db.links[k].0 && json != db.links[k].1 && html != db.links[k].0 && html != db.links[k].1
  }

  ghost predicate FitsArtifact(db: Database, report: Report, json: bool) {
    report.hash in db.artifacts ==> db.artifacts[report.hash] == Artifact(report.size, json)
  }

  /** Publishing succeeds exactly for the holder of a live lease whose job still works, with the two
      staged reports, the pinned registry identity, everything the publication rests on, and no
      conflicting artifact, link or entry. */
  lemma {:induction false} PublishesExactly(db: Database, now: nat, id: Key, seen: Publication, registryId: Key, json: Report, html: Report)
    requires Inv(db)
    ensures var o := PublishAtomically(db, now, id, seen, registryId, json, html);
      && (o.answer == Ok(PublicationRow(id)) <==>
            && id in db.publications && Holds(db.publications[id], seen)
            && db.publications[id].expires.Some? && db.publications[id].expires.value > now
            && db.publications[id].ownerJob.Some? && Works(db, db.publications[id].ownerJob.value, id)
            && db.publications[id].registry == Some(registryId) && db.publications[id].staged == [json.hash, html.hash]
            && RestsOn(db, db.publications[id]) && FitsArtifact(db, json, true) && FitsArtifact(db, html, false)
            && NothingTaken(db, id, registryId, json.hash, html.hash))
      && (o.answer != Ok(PublicationRow(id)) ==> o.db == db)
  {
    hide UniqueJobs, UniquePublications, AllJobsSound, RowSound, Committed, Prerequisites, RestsOn, RunningWorker, Works, LinkedPublished, RegistryConflict,
         NothingTaken;
    if id in db.publications {
      RestsExactly(db, db.publications[id]);
      TakenExactly(db, id, registryId, json.hash, html.hash);
      if db.publications[id].ownerJob.Some? { WorksExactly(db, db.publications[id].ownerJob.value, id); }
    }
  }

  lemma {:induction false} WorksExactly(db: Database, job: Key, id: Key)
    ensures RunningWorker(db.jobs, job, id) <==> Works(db, job, id)
  {
  }

  lemma {:induction false} TakenExactly(db: Database, id: Key, registryId: Key, json: Digest, html: Digest)
    requires id in db.publications
    ensures NothingTaken(db, id, registryId, json, html) <==>
      id !in db.links && !LinkedPublished(db, json) && !LinkedPublished(db, html)
      && !RegistryConflict(db.registry, registryId, id, db.publications[id].validation)
  {
  }

  /** What a commit writes, everything at once: the published row and its event, both artifacts and
      links, the registry entry and the finished job. */
  lemma {:induction false} PublishingWrites(db: Database, now: nat, id: Key, seen: Publication, registryId: Key, json: Report, html: Report)
    requires Inv(db) && PublishAtomically(db, now, id, seen, registryId, json, html).answer == Ok(PublicationRow(id))
    ensures id in db.publications && id in db.events && db.publications[id].ownerJob.Some? && db.publications[id].ownerJob.value in db.jobs
    ensures var p, job := db.publications[id], db.publications[id].ownerJob.value;
      PublishAtomically(db, now, id, seen, registryId, json, html).db
      == db.(publications := db.publications[id := p.(state := Published, ownerToken := None, ownerJob := None, expires := None, staged := [],
                                                      failure := None, publishedAt := Some(now), rowVersion := p.rowVersion + 1)],
             events := db.events[id := db.events[id] + [OwnerEvent(PublishedEvent, p.ownerJob, p.epoch, [])]],
             artifacts := db.artifacts[json.hash := Artifact(json.size, true)][html.hash := Artifact(html.size, false)],
             links := db.links[id := (json.hash, html.hash)],
             registry := db.registry[registryId := RegistryEntry(id, p.validation, p.strategy, p.candidate, p.lineage)],
             jobs := db.jobs[job := db.jobs[job].(status := Succeeded, stage := PUBLISHED_STAGE, resultRef := Some(json.hash), hasError := false,
                                                  worker := false, finishedAt := Some(now), rowVersion := db.jobs[job].rowVersion + 1)])
  {
    hide UniqueJobs, UniquePublications, AllJobsSound, RowSound, Prerequisites, LinkedPublished, RegistryConflict, Conflicts;
  }
}
