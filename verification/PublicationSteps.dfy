/** Each repository operation as one atomic step: the tables it leaves, or the
    error it raises with the tables rolled back. */
module PublicationSteps {
  import opened Octets
  import opened Outcomes
  import opened PublicationTables

  datatype StepError = InvalidArgument | StateConflict | IntegrityFailure

  datatype Answer = Nothing | JobRow(job: Key) | PublicationRow(publication: Key) | JobRows(jobs: set<Key>)

  /** The tables after a step and what it returned or raised. */
  datatype Outcome = Outcome(db: Database, answer: Result<Answer, StepError>)

  function Raised(db: Database, error: StepError): Outcome { Outcome(db, Err(error)) }

  function Returned(db: Database, answer: Answer): Outcome { Outcome(db, Ok(answer)) }

  /** Only jobs, publications and owner events may differ. */
  ghost predicate SameRecords(a: Database, b: Database) {
    b == a.(jobs := b.jobs, publications := b.publications, events := b.events)
  }

  /** The validation tables are the same. */
  ghost predicate SameProvenance(a: Database, b: Database) {
    b == a.(jobs := b.jobs, publications := b.publications, events := b.events, registry := b.registry,
            artifacts := b.artifacts, links := b.links)
  }

  // ---------------------------------------------------------------- jobs

  function JobsFor(jobs: map<Key, Job>, kind: JobKind, fingerprint: Key): set<Key> {
    set k | k in jobs && jobs[k].kind == kind && jobs[k].fingerprint == fingerprint
  }

  function JobFor(jobs: map<Key, Job>, kind: JobKind, fingerprint: Key): (k: Key)
    requires UniqueJobs(jobs) && JobsFor(jobs, kind, fingerprint) != {}
    ensures k in JobsFor(jobs, kind, fingerprint)
  {
    var k :| k in JobsFor(jobs, kind, fingerprint);
    k
  }

  function CreateJob(db: Database, now: nat, id: Key, kind: JobKind, resource: Key, fingerprint: Key, stage: Key, progress: Key): (o: Outcome)
    requires UniqueJobs(db.jobs)
    ensures SameRecords(db, o.db) && o.db == db.(jobs := o.db.jobs)
    ensures forall k :: k in db.jobs ==> k in o.db.jobs && o.db.jobs[k] == db.jobs[k]
  {
    if fingerprint == BLANK || stage == BLANK then Raised(db, InvalidArgument)
    else if JobsFor(db.jobs, kind, fingerprint) != {} then
      var k := JobFor(db.jobs, kind, fingerprint);
      if db.jobs[k].resource != resource then Raised(db, StateConflict) else Returned(db, JobRow(k))
    else if id in db.jobs then Raised(db, IntegrityFailure)
    else
      Returned(db.(jobs := db.jobs[id := Job(kind, resource, Queued, fingerprint, stage, progress, None, false, false, now, None, None, 1)]), JobRow(id))
  }

  function QueuedJobs(jobs: map<Key, Job>): set<Key> { set k | k in jobs && jobs[k].status.Queued? }

  predicate NoLater(jobs: map<Key, Job>, a: Key, b: Key)
    requires a in jobs && b in jobs
  {
    jobs[a].createdAt < jobs[b].createdAt || (jobs[a].createdAt == jobs[b].createdAt && a <= b)
  }

  /** The queued job that was created first, the smallest identifier among equals. */
  predicate IsOldest(jobs: map<Key, Job>, k: Key) {
    k in QueuedJobs(jobs) && forall other :: other in QueuedJobs(jobs) ==> NoLater(jobs, k, other)
  }

  function Started(job: Job, now: nat): Job {
    job.(status := Running, startedAt := Some(now), worker := true, rowVersion := job.rowVersion + 1)
  }

  /** Claiming one particular queued row: the update's own guard, then the CHECK. */
  function ClaimRow(db: Database, now: nat, k: Key): (o: Outcome)
    requires k in db.jobs
    ensures SameRecords(db, o.db) && o.db.publications.Keys == db.publications.Keys
  {
    var job := db.jobs[k];
    if job.worker then Raised(db, StateConflict)
    else if !Started(job, now).Check() then Raised(db, IntegrityFailure)
    else Returned(db.(jobs := db.jobs[k := Started(job, now)]), JobRow(k))
  }

  lemma {:induction false} OldestExists(jobs: map<Key, Job>, candidates: set<Key>) returns (k: Key)
    requires candidates != {} && candidates <= jobs.Keys
    ensures k in candidates && forall other :: other in candidates ==> NoLater(jobs, k, other)
    decreases |candidates|
  {
    var first :| first in candidates;
    var rest := candidates - {first};
    k := first;
    if rest != {} {
      var least := OldestExists(jobs, rest);
      if NoLater(jobs, least, first) { k := least; }
    }
    forall other | other in candidates ensures NoLater(jobs, k, other) {
      assert other == first || other in rest;
    }
  }

  function OldestQueued(jobs: map<Key, Job>): (k: Key)
    requires QueuedJobs(jobs) != {}
    ensures IsOldest(jobs, k)
  {
    assert exists k :: IsOldest(jobs, k) by { var k := OldestExists(jobs, QueuedJobs(jobs)); assert IsOldest(jobs, k); }
    var k :| IsOldest(jobs, k);
    k
  }

  function ClaimNext(db: Database, now: nat): (o: Outcome)
    ensures SameRecords(db, o.db) && o.db.publications.Keys == db.publications.Keys
  {
    if QueuedJobs(db.jobs) == {} then Returned(db, Nothing) else ClaimRow(db, now, OldestQueued(db.jobs))
  }

  predicate LegalTransition(from: JobStatus, to: JobStatus) {
    match from
    case Queued => to.Running? || to.Cancelled?
    case Running => to.Succeeded? || to.Failed? || to.Cancelled?
    case _ => false
  }

  function Transitioned(job: Job, now: nat, target: JobStatus, stage: Option<Key>, progress: Option<Key>, resultRef: Option<Key>,
                        hasError: bool): Job {
    job.(status := target, stage := if stage.Some? then stage.value else job.stage,
         progress := if progress.Some? then progress.value else job.progress,
         resultRef := if target.Succeeded? then resultRef else job.resultRef, hasError := hasError,
         worker := if target.Terminal() then false else job.worker,
         startedAt := if target.Cancelled? && job.startedAt.None? then Some(now) else job.startedAt,
         finishedAt := if target.Terminal() then Some(now) else job.finishedAt,
         rowVersion := job.rowVersion + 1)
  }

  function TransitionJob(db: Database, now: nat, id: Key, expected: JobStatus, target: JobStatus, stage: Option<Key>, progress: Option<Key>,
                         resultRef: Option<Key>, hasError: bool): (o: Outcome)
    ensures SameRecords(db, o.db) && o.db.publications.Keys == db.publications.Keys
  {
    if !LegalTransition(expected, target) then Raised(db, StateConflict)
    else if stage == Some(BLANK) || target.Failed? != hasError
            || (target.Succeeded? && (resultRef.None? || resultRef.value == BLANK)) then Raised(db, InvalidArgument)
    else if id !in db.jobs || db.jobs[id].status != expected then Raised(db, StateConflict)
    else
      var row := Transitioned(db.jobs[id], now, target, stage, progress, resultRef, hasError);
      if !row.Check() then Raised(db, IntegrityFailure)
      else
        var moved := db.(jobs := db.jobs[id := row]);
        Returned(if target.Failed? || target.Cancelled? then Revoked(moved, {id}) else moved, JobRow(id))
  }

  // ---------------------------------------------------------------- losing an owner

  predicate OwnedBy(p: Publication, owners: set<Key>) {
    p.state.Preparing? && p.ownerJob.Some? && p.ownerJob.value in owners
  }

  function Released(p: Publication): Publication {
    p.(state := FailedRetryable, ownerToken := None, ownerJob := None, expires := None, failure := Some(OwnerInterrupted),
       rowVersion := p.rowVersion + 1)
  }

  function ReleaseEvents(p: Publication): seq<OwnerEvent> {
    [OwnerEvent(ReleasedStale, p.ownerJob, p.epoch, p.staged), OwnerEvent(FailedAttempt, p.ownerJob, p.epoch, p.staged)]
  }

  /** Every publication these jobs were preparing is released, with both audit events. */
  function Revoked(db: Database, owners: set<Key>): Database {
    db.(publications := map k | k in db.publications ::
          if OwnedBy(db.publications[k], owners) then Released(db.publications[k]) else db.publications[k],
        events := map k | k in db.events ::
          if k in db.publications && OwnedBy(db.publications[k], owners) then db.events[k] + ReleaseEvents(db.publications[k])
          else db.events[k])
  }

  function RunningJobs(jobs: map<Key, Job>): set<Key> { set k | k in jobs && jobs[k].status.Running? }

  function InterruptedJob(job: Job, now: nat): Job {
    job.(status := Failed, hasError := true, worker := false, finishedAt := Some(now), rowVersion := job.rowVersion + 1)
  }

  function Interrupted(jobs: map<Key, Job>, failing: set<Key>, now: nat): map<Key, Job> {
    map k | k in jobs :: if k in failing then InterruptedJob(jobs[k], now) else jobs[k]
  }

  /** Startup recovery: every running job fails and loses its publications. */
  function RecoverInterrupted(db: Database, now: nat): (o: Outcome)
    ensures SameRecords(db, o.db) && o.db.publications.Keys == db.publications.Keys
  {
    var running := RunningJobs(db.jobs);
    Returned(Revoked(db.(jobs := Interrupted(db.jobs, running, now)), running), JobRows(running))
  }

  // ---------------------------------------------------------------- publications

  datatype Command = Command(
    publication: Key, validation: Key, strategy: Key, candidate: Digest, lineage: Key, registry: Key, profile: Digest)

  function PublicationsOf(publications: map<Key, Publication>, validation: Key): set<Key> {
    set k | k in publications && publications[k].validation == validation
  }

  function PublicationOf(publications: map<Key, Publication>, validation: Key): (k: Key)
    requires UniquePublications(publications) && PublicationsOf(publications, validation) != {}
    ensures k in PublicationsOf(publications, validation)
  {
    var k :| k in PublicationsOf(publications, validation);
    k
  }

  predicate RegistryTaken(publications: map<Key, Publication>, registry: Key) {
    exists k :: k in publications && publications[k].registry == Some(registry)
  }

  predicate SameIdentity(p: Publication, c: Command) {
    p.validation == c.validation && p.strategy == c.strategy && p.candidate == c.candidate && p.lineage == c.lineage
  }

  function Fresh(c: Command): Publication {
    Publication(c.validation, c.strategy, c.candidate, c.lineage, Some(c.profile), Some(c.registry), Available, None, None, 0, None, 0,
                [], None, None, 1)
  }

  /** An identity that was never pinned is pinned now, unless the row is published. */
  function PinRegistry(p: Publication, registry: Key): Publication {
    if p.registry.None? && !p.state.Published? then p.(registry := Some(registry), rowVersion := p.rowVersion + 1) else p
  }

  function PinProfile(p: Publication, profile: Digest): Publication {
    if p.profile.None? && !p.state.Published? then p.(profile := Some(profile), rowVersion := p.rowVersion + 1) else p
  }

  /** An existing row: its identity must match, and what it has not pinned yet it pins now. */
  function PinExisting(db: Database, k: Key, c: Command): (o: Outcome)
    requires k in db.publications
    ensures SameRecords(db, o.db)
  {
    var row := db.publications[k];
    var pinned := PinRegistry(row, c.registry);
    if k != c.publication || !SameIdentity(row, c) then Raised(db, StateConflict)
    else if pinned != row && RegistryTaken(db.publications, c.registry) then Raised(db, IntegrityFailure)
    else if pinned.registry != Some(c.registry) || PinProfile(pinned, c.profile).profile != Some(c.profile) then Raised(db, StateConflict)
    else Returned(db.(publications := db.publications[k := PinProfile(pinned, c.profile)]), PublicationRow(k))
  }

  function GetOrCreate(db: Database, c: Command): (o: Outcome)
    requires UniquePublications(db.publications)
    ensures SameRecords(db, o.db)
  {
    if PublicationsOf(db.publications, c.validation) != {} then PinExisting(db, PublicationOf(db.publications, c.validation), c)
    else if c.publication in db.publications || RegistryTaken(db.publications, c.registry)
            || c.validation !in db.validations || c.lineage !in db.lineages then Raised(db, IntegrityFailure)
    else
      Returned(db.(publications := db.publications[c.publication := Fresh(c)], events := db.events[c.publication := []]),
               PublicationRow(c.publication))
  }

  predicate RunningWorker(jobs: map<Key, Job>, job: Key, publication: Key) {
    job in jobs && jobs[job].kind.PublishJob? && jobs[job].resource == publication && jobs[job].status.Running? && jobs[job].worker
  }

  function Changed(db: Database, id: Key, row: Publication, events: seq<OwnerEvent>): (r: Database)
    requires id in db.events
    ensures SameRecords(db, r)
  {
    db.(publications := db.publications[id := row], events := db.events[id := db.events[id] + events])
  }

  function TakenOver(p: Publication, job: Key, token: Key, expires: nat): Publication {
    p.(state := Preparing, ownerToken := Some(token), ownerJob := Some(job), epoch := p.epoch + 1, expires := Some(expires),
       attempts := p.attempts + 1, staged := [], failure := None, rowVersion := p.rowVersion + 1)
  }

  /** The second half of an acquisition, over the tables a reclaimed lease may already have changed. */
  function TakeOver(before: Database, db: Database, id: Key, job: Key, token: Key, expires: nat): (o: Outcome)
    requires id in db.publications && id in db.events && SameRecords(before, db)
    ensures SameRecords(before, o.db)
    ensures o.db.publications.Keys == before.publications.Keys || o.db.publications.Keys == db.publications.Keys
  {
    if !RunningWorker(db.jobs, job, id) then Raised(before, StateConflict)
    else
      var row := TakenOver(db.publications[id], job, token, expires);
      Returned(Changed(db, id, row, [OwnerEvent(Acquired, Some(job), row.epoch, [])]), PublicationRow(id))
  }

  /** The tables once an expired lease has been reclaimed, if there was one. */
  function Reclaimed(db: Database, id: Key): (r: Database)
    requires id in db.publications && id in db.events
    ensures SameRecords(db, r) && r.jobs == db.jobs && id in r.publications && id in r.events
  {
    var current := db.publications[id];
    if current.state.Preparing? then Changed(db, id, Released(current), ReleaseEvents(current)) else db
  }

  function Acquire(db: Database, now: nat, id: Key, seen: Publication, job: Key, token: Key, expires: nat): (o: Outcome)
    requires id in db.publications ==> id in db.events
    ensures SameRecords(db, o.db) && o.db.publications.Keys == db.publications.Keys
  {
    if job == BLANK || token == BLANK || expires <= now then Raised(db, InvalidArgument)
    else if id !in db.publications then Raised(db, StateConflict)
    else
      var current := db.publications[id];
      if current.state.Preparing? && current.expires.None? then Raised(db, StateConflict)
      else if current.state.Preparing? && current.expires.value > now then Returned(db, Nothing)
      else if current.state.Preparing? && current.ownerToken == Some(token) then Raised(db, StateConflict)
      else if current.state.Published? || (!current.state.Preparing? && current.rowVersion != seen.rowVersion) then Returned(db, Nothing)
      else TakeOver(db, Reclaimed(db, id), id, job, token, expires)
  }

  /** The caller's snapshot still is the row: same owner, same epoch, same version. */
  predicate Owns(current: Publication, seen: Publication) {
    && current.state.Preparing? && current.ownerToken == seen.ownerToken && current.ownerJob == seen.ownerJob
    && current.epoch == seen.epoch && current.rowVersion == seen.rowVersion
  }

  predicate LeaseLive(current: Publication, now: nat) { current.expires.Some? && current.expires.value > now }

  function StageArtifacts(db: Database, now: nat, id: Key, seen: Publication, hashes: seq<Digest>): (o: Outcome)
    ensures SameRecords(db, o.db) && o.db.publications.Keys == db.publications.Keys
  {
    if !(|hashes| == 1 || |hashes| == 2) || !HasNoRepeats(hashes) then Raised(db, InvalidArgument)
    else if id !in db.publications || !Owns(db.publications[id], seen) || !LeaseLive(db.publications[id], now)
            || !(db.publications[id].staged <= hashes) then Raised(db, StateConflict)
    else
      var current := db.publications[id];
      var row := current.(staged := hashes, rowVersion := current.rowVersion + 1);
      Returned(db.(publications := db.publications[id := row]), PublicationRow(id))
  }

  /** `dict.fromkeys`: the items in order, each kept at its first place. */
  function FirstOf(items: seq<Digest>): (r: seq<Digest>)
    ensures HasNoRepeats(r) && forall x :: x in r <==> x in items
  {
    if items == [] then []
    else
      var front, last := FirstOf(items[..|items| - 1]), items[|items| - 1];
      assert items == items[..|items| - 1] + [last];
      if last in front then front else front + [last]
  }

  function FailAttempt(db: Database, id: Key, seen: Publication, kind: FailureKind, orphans: seq<Digest>): (o: Outcome)
    requires id in db.publications ==> id in db.events
    ensures SameRecords(db, o.db) && o.db.publications.Keys == db.publications.Keys
  {
    if id !in db.publications then Raised(db, StateConflict)
    else
      var current := db.publications[id];
      if current.state.Published? then Returned(db, PublicationRow(id))
      else if !Owns(current, seen) then Raised(db, StateConflict)
      else
        var retained := FirstOf(current.staged + orphans);
        var row := Released(current).(staged := retained, failure := Some(kind));
        Returned(Changed(db, id, row, [OwnerEvent(FailedAttempt, current.ownerJob, current.epoch, retained)]), PublicationRow(id))
  }

  // ---------------------------------------------------------------- publishing

  /** A validation row, with the rows it refers to, supports a publication. */
  predicate Supports(db: Database, p: Publication, v: Validation) {
    && v.strategy == p.strategy && v.candidate == p.candidate && v.lineage == p.lineage && v.passed
    && v.lineage in db.lineages && db.lineages[v.lineage]
    && v.certificate.Some? && v.certificate.value in db.certificates && db.certificates[v.certificate.value].passed
    && v.lineage in db.holdouts && db.holdouts[v.lineage].consumedBy == Some(p.validation)
    && p.profile == Some(v.profile) && db.certificates[v.certificate.value].profile == v.profile && db.holdouts[v.lineage].profile == v.profile
  }

  /** Everything a publication rests on holds of the rows as they are now. */
  predicate Prerequisites(db: Database, p: Publication) {
    p.validation in db.validations && Supports(db, p, db.validations[p.validation])
  }

  datatype Report = Report(hash: Digest, size: nat)

  predicate Conflicts(artifacts: map<Digest, Artifact>, report: Report, json: bool) {
    report.hash in artifacts && artifacts[report.hash] != Artifact(report.size, json)
  }

  /** An artifact already linked to a published publication cannot be linked again. */
  predicate LinkedPublished(db: Database, hash: Digest) {
    exists k :: k in db.links && k in db.publications && db.publications[k].state.Published? && (db.links[k].0 == hash || db.links[k].1 == hash)
  }

  predicate RegistryConflict(registry: map<Key, RegistryEntry>, id: Key, publication: Key, validation: Key) {
    id in registry || exists k :: k in registry && (registry[k].publication == publication || registry[k].validation == validation)
  }

  function PublishedRow(p: Publication, now: nat): Publication {
    p.(state := Published, ownerToken := None, ownerJob := None, expires := None, staged := [], failure := None,
       publishedAt := Some(now), rowVersion := p.rowVersion + 1)
  }

  function FinishedJob(job: Job, now: nat, result: Digest): Job {
    job.(status := Succeeded, stage := PUBLISHED_STAGE, resultRef := Some(result), hasError := false, worker := false, finishedAt := Some(now),
         rowVersion := job.rowVersion + 1)
  }

  function Committed(db: Database, now: nat, id: Key, registryId: Key, json: Report, html: Report): Database
    requires id in db.publications && id in db.events && db.publications[id].ownerJob.Some? && db.publications[id].ownerJob.value in db.jobs
  {
    var current := db.publications[id];
    var job := current.ownerJob.value;
    Changed(db, id, PublishedRow(current, now), [OwnerEvent(PublishedEvent, current.ownerJob, current.epoch, [])])
      .(artifacts := db.artifacts[json.hash := Artifact(json.size, true)][html.hash := Artifact(html.size, false)],
        links := db.links[id := (json.hash, html.hash)],
        registry := db.registry[registryId := RegistryEntry(id, current.validation, current.strategy, current.candidate, current.lineage)],
        jobs := db.jobs[job := FinishedJob(db.jobs[job], now, json.hash)])
  }

  function PublishAtomically(db: Database, now: nat, id: Key, seen: Publication, registryId: Key, json: Report, html: Report): (o: Outcome)
    requires id in db.publications ==> id in db.events
    ensures SameProvenance(db, o.db) && o.db.publications.Keys == db.publications.Keys && forall r :: r in db.registry ==> r in o.db.registry && o.db.registry[r] == db.registry[r]
  {
    if id !in db.publications || !Owns(db.publications[id], seen) then Raised(db, StateConflict)
    else
      var current := db.publications[id];
      if !LeaseLive(current, now) || current.ownerJob.None? || current.registry != Some(registryId)
         || !Prerequisites(db, current) || current.staged != [json.hash, html.hash]
         || Conflicts(db.artifacts, json, true) || Conflicts(db.artifacts, html, false) then Raised(db, StateConflict)
      else if id in db.links || LinkedPublished(db, json.hash) || LinkedPublished(db, html.hash)
              || RegistryConflict(db.registry, registryId, id, current.validation) then Raised(db, IntegrityFailure)
      else if !RunningWorker(db.jobs, current.ownerJob.value, id) then Raised(db, StateConflict)
      else Returned(Committed(db, now, id, registryId, json, html), PublicationRow(id))
  }

  // ---------------------------------------------------------------- any step

  datatype Step =
    | Create(now: nat, id: Key, kind: JobKind, resource: Key, fingerprint: Key, stage: Key, progress: Key)
    | Claim(now: nat)
    | Move(now: nat, id: Key, expected: JobStatus, target: JobStatus, newStage: Option<Key>, newProgress: Option<Key>, resultRef: Option<Key>, hasError: bool)
    | Recover(now: nat)
    | Open(command: Command)
    | Lease(now: nat, publication: Key, seen: Publication, job: Key, token: Key, expires: nat)
    | Stage(now: nat, publication: Key, seen: Publication, hashes: seq<Digest>)
    | Fail(publication: Key, seen: Publication, failure: FailureKind, orphans: seq<Digest>)
    | Publish(now: nat, publication: Key, seen: Publication, registryId: Key, json: Report, html: Report)

  /** The keys every step relies on: unique columns, and an event list for each publication. */
  ghost predicate Keyed(db: Database) {
    UniqueJobs(db.jobs) && UniquePublications(db.publications) && db.events.Keys == db.publications.Keys
  }

  function Apply(db: Database, step: Step): Outcome
    requires Keyed(db)
  {
    match step
    case Create(now, id, kind, resource, fingerprint, stage, progress) => CreateJob(db, now, id, kind, resource, fingerprint, stage, progress)
    case Claim(now) => ClaimNext(db, now)
    case Move(now, id, expected, target, stage, progress, resultRef, hasError) => TransitionJob(db, now, id, expected, target, stage, progress, resultRef, hasError)
    case Recover(now) => RecoverInterrupted(db, now)
    case Open(command) => GetOrCreate(db, command)
    case Lease(now, id, seen, job, token, expires) => Acquire(db, now, id, seen, job, token, expires)
    case Stage(now, id, seen, hashes) => StageArtifacts(db, now, id, seen, hashes)
    case Fail(id, seen, kind, orphans) => FailAttempt(db, id, seen, kind, orphans)
    case Publish(now, id, seen, registryId, json, html) => PublishAtomically(db, now, id, seen, registryId, json, html)
  }
}
