/** The database tables that ingestion reads and writes, one row type per table.

    Columns that no decision depends on (file names, MIME types, correlation and error
    texts, timestamps kept for display) are left out. */
module IngestTables {
  import opened Prelude

  type Id = string

  /** Instants are microseconds; intervals in the program are whole seconds. */
  const SECOND: int := 1_000_000

  datatype Status = Queued | Running | Done | Failed | Dead
  datatype Scope = TenantScope | GlobalScope
  datatype Visibility = Private | Shared | TenantWide

  /** A content hash. Distinct texts have distinct hashes. */
  datatype Digest = Sha256(of: string)

  /** One embedding coordinate: a finite number, or a NaN or an infinity. */
  datatype Coordinate = Finite(value: real) | NotFinite

  /** The key of a corpus epoch row. */
  datatype ScopeKey = GlobalKey | TenantKey(tenantId: Id)

  datatype Permissions = Permissions(ownerId: Id, visibility: Visibility, aclUserIds: seq<Id>, scope: Scope)

  datatype Document = Document(
    tenantId: Id, permissions: Permissions, blobPath: string, contentSha: Digest,
    version: nat, indexedVersion: Option<nat>, activeGeneration: Option<Id>)

  datatype Job = Job(
    documentId: Id, tenantId: Id, createdAt: int, stage: string, status: Status, attempts: nat,
    availableAt: int, leaseToken: Option<Id>, leaseExpiresAt: Option<int>, generationId: Option<Id>,
    blobPath: Option<string>, contentSha: Option<Digest>, version: Option<nat>)

  datatype Chunk = Chunk(id: Id, ordinal: nat, text: string, contentSha: Digest)

  datatype Generation = Generation(
    documentId: Id, tenantId: Id, jobId: Id, version: nat, contentSha: Option<Digest>, blobPath: string,
    parent: Option<Id>, chunks: seq<Chunk>, profileId: Id)

  datatype Payload = Payload(
    documentId: Id, content: string, permissions: Permissions, version: nat,
    generationId: Option<Id>, profileId: Option<Id>)

  datatype Point = Point(chunkId: Id, tenantId: Id, vector: seq<Coordinate>, payload: Payload)

  /** A row of vector_chunks; rows without a generation predate publication. */
  datatype VectorRow = VectorRow(
    tenantId: Id, documentId: Id, scope: Scope, deleted: bool, embedding: seq<Coordinate>,
    payload: Payload, generationId: Option<Id>)

  datatype ChunkRow = ChunkRow(tenantId: Id, documentId: Id, chunk: Chunk, generationId: Option<Id>)

  /** `issued` holds the random identifiers (lease tokens and generation ids) drawn so far. */
  datatype State = State(
    documents: map<Id, Document>,
    jobs: map<Id, Job>,
    generations: map<Id, Generation>,
    vectors: map<Id, VectorRow>,
    chunks: map<Id, ChunkRow>,
    deletedDocuments: map<Id, Id>,
    epochs: map<ScopeKey, nat>,
    profile: Option<Id>,
    issued: set<Id>)

  datatype Failure = StaleLease | InvalidInput | UniqueViolation | Conflict

  type Outcome = Result<State, Failure>

  function EpochKey(scope: Scope, tenantId: Id): ScopeKey {
    if scope == GlobalScope then GlobalKey else TenantKey(tenantId)
  }

  function Bump(epochs: map<ScopeKey, nat>, key: ScopeKey): map<ScopeKey, nat> {
    epochs[key := (if key in epochs then epochs[key] else 0) + 1]
  }

  predicate ActiveJob(job: Job) {
    job.status == Queued || job.status == Running
  }

  /** The partial unique index: a document has at most one queued or running job. */
  predicate HasActiveJob(jobs: map<Id, Job>, documentId: Id) {
    exists j :: j in jobs && jobs[j].documentId == documentId && ActiveJob(jobs[j])
  }
}
