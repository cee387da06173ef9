/** The rows of the metadata store that publications and jobs live in, and the
    constraints the schema puts on each. */
module PublicationTables {
  import opened Octets
  import opened Outcomes

  /** An identifier or other text value; its order is the store's text order and
      the empty text comes first. */
  type Key = nat

  const BLANK: Key := 0

  /** The stage a publishing job ends in. */
  const PUBLISHED_STAGE: Key := 1

  datatype JobKind = PublishJob | OtherJob

  datatype JobStatus = Queued | Running | Succeeded | Failed | Cancelled {
    predicate Terminal() { Succeeded? || Failed? || Cancelled? }
  }

  datatype Job = Job(
    kind: JobKind, resource: Key, status: JobStatus, fingerprint: Key, stage: Key, progress: Key, resultRef: Option<Key>, hasError: bool,
    worker: bool, createdAt: nat, startedAt: Option<nat>, finishedAt: Option<nat>, rowVersion: nat)
  {
    /** The table's CHECK: timestamps follow the status. */
    predicate Check() {
      match status
      case Queued => startedAt.None? && finishedAt.None?
      case Running => startedAt.Some? && finishedAt.None?
      case _ => finishedAt.Some?
    }
  }

  datatype PublicationState = Available | Preparing | Published | FailedRetryable

  datatype FailureKind = ArtifactIo | ReportRender | StorageCommit | OwnerInterrupted

  datatype Publication = Publication(
    validation: Key, strategy: Key, candidate: Digest, lineage: Key, profile: Option<Digest>, registry: Option<Key>,
    state: PublicationState, ownerToken: Option<Key>, ownerJob: Option<Key>, epoch: nat, expires: Option<nat>, attempts: nat,
    staged: seq<Digest>, failure: Option<FailureKind>, publishedAt: Option<nat>, rowVersion: nat)
  {
    /** The table's CHECKs. */
    predicate Check() {
      && (if state.Preparing? then ownerToken.Some? && ownerJob.Some? && epoch >= 1 && expires.Some?
          else ownerToken.None? && ownerJob.None? && expires.None?)
      && (if state.Published? then publishedAt.Some? && failure.None? else publishedAt.None?)
    }

    /** What reading the row back as a value object further demands. */
    predicate Readable() {
      && Check() && HasNoRepeats(staged)
      && (state.Preparing? ==> ownerToken != Some(BLANK) && ownerJob != Some(BLANK))
      && (state.Published? ==> staged == [])
      && (state.Available? ==> failure.None? && staged == [])
      && (state.FailedRetryable? ==> failure.Some?)
    }
  }

  predicate HasNoRepeats(s: seq<Digest>) {
    forall i, j :: 0 <= i < j < |s| ==> s[i] != s[j]
  }

  datatype OwnerEventKind = Acquired | ReleasedStale | FailedAttempt | PublishedEvent

  datatype OwnerEvent = OwnerEvent(kind: OwnerEventKind, job: Option<Key>, epoch: nat, orphans: seq<Digest>)

  datatype Validation = Validation(
    strategy: Key, candidate: Digest, lineage: Key, profile: Digest, passed: bool, certificate: Option<Key>, contentHash: Digest)

  datatype CertificateRow = CertificateRow(searchRun: Key, profile: Digest, passed: bool)

  datatype Holdout = Holdout(profile: Digest, consumedBy: Option<Key>)

  datatype RegistryEntry = RegistryEntry(publication: Key, validation: Key, strategy: Key, candidate: Digest, lineage: Key)

  datatype Artifact = Artifact(size: nat, json: bool)

  /** The tables; `events` groups the append-only owner events by publication and
      `links` the two report artifacts, JSON first. A lineage maps to whether it is closed. */
  datatype Database = Database(
    jobs: map<Key, Job>, publications: map<Key, Publication>, events: map<Key, seq<OwnerEvent>>,
    validations: map<Key, Validation>, certificates: map<Key, CertificateRow>, lineages: map<Key, bool>,
    holdouts: map<Key, Holdout>, registry: map<Key, RegistryEntry>,
    artifacts: map<Digest, Artifact>, links: map<Key, (Digest, Digest)>)

  /** UNIQUE (kind, command_fingerprint). */
  ghost predicate UniqueJobs(jobs: map<Key, Job>) {
    forall a, b :: a in jobs && b in jobs && jobs[a].kind == jobs[b].kind && jobs[a].fingerprint == jobs[b].fingerprint ==> a == b
  }

  /** UNIQUE (validation_id) and the unique index on registry_entry_id. */
  ghost predicate UniquePublications(publications: map<Key, Publication>) {
    && (forall a, b :: a in publications && b in publications && publications[a].validation == publications[b].validation ==> a == b)
    && (forall a, b :: a in publications && b in publications && SameRegistry(publications[a], publications[b]) ==> a == b)
  }

  predicate SameRegistry(a: Publication, b: Publication) { a.registry.Some? && a.registry == b.registry }
}
