/** Publication of a generation: one transaction that rechecks the lease, the source version
    and the expected parent, inserts the generation and its rows, and finishes the job. */
module Publication {
  import opened Prelude
  import opened IngestTables
  import opened TaskQueue

  /** The worker's own copy of the document row, possibly pinned to the job's content. */
  datatype Snapshot = Snapshot(
    id: Id, tenantId: Id, permissions: Permissions, blobPath: string, contentSha: Option<Digest>,
    version: nat, activeGeneration: Option<Id>)

  datatype Request = Request(
    jobId: Id, job: Job, document: Snapshot, chunks: seq<Chunk>, points: seq<Point>,
    profileId: Id, dimensions: nat)

  /** A job carrying a content snapshot overrides what the document row says now. */
  function Pin(document: Snapshot, job: Job): Snapshot {
    if job.blobPath.None? then document
    else document.(
           blobPath := job.blobPath.value,
           contentSha := job.contentSha,
           version := if job.version.Some? && job.version.value != 0 then job.version.value else document.version)
  }

  /** The points the runner builds: one per chunk, carrying the chunk's own text. */
  function BuildPoints(document: Snapshot, chunks: seq<Chunk>, vectors: seq<seq<Coordinate>>): seq<Point>
    requires |chunks| == |vectors|
  {
    seq(|chunks|, i requires 0 <= i < |chunks| =>
      Point(chunks[i].id, document.tenantId, vectors[i],
            Payload(document.id, chunks[i].text, document.permissions, document.version, None, None)))
  }

  predicate PairAccepted(r: Request, chunk: Chunk, point: Point) {
    && chunk.id == point.chunkId
    && point.tenantId == r.document.tenantId
    && |point.vector| == r.dimensions
    && (forall k :: 0 <= k < |point.vector| ==> point.vector[k].Finite?)
    && chunk.contentSha == Sha256(chunk.text)
  }

  /** The checks made before the transaction opens. */
  predicate Accepted(r: Request) {
    && r.chunks != []
    && |r.chunks| == |r.points|
    && forall i :: 0 <= i < |r.chunks| ==> PairAccepted(r, r.chunks[i], r.points[i])
  }

  function NewGeneration(r: Request, current: Document): Generation {
    Generation(r.document.id, r.document.tenantId, r.jobId, r.document.version, r.document.contentSha,
               r.document.blobPath, current.activeGeneration, r.chunks, r.profileId)
  }

  function NewVectorRow(r: Request, generation: Id, current: Document, chunk: Chunk, point: Point): (Id, VectorRow) {
    (chunk.id,
     VectorRow(r.document.tenantId, r.document.id, current.permissions.scope, false, point.vector,
               point.payload.(profileId := Some(r.profileId), generationId := Some(generation),
                              version := r.document.version, permissions := current.permissions),
               Some(generation)))
  }

  function NewVectorRows(r: Request, generation: Id, current: Document): (rows: seq<(Id, VectorRow)>)
    requires |r.chunks| == |r.points|
  {
    seq(|r.chunks|, i requires 0 <= i < |r.chunks| => NewVectorRow(r, generation, current, r.chunks[i], r.points[i]))
  }

  function NewChunkRow(r: Request, generation: Id, chunk: Chunk): (Id, ChunkRow) {
    (chunk.id, ChunkRow(r.document.tenantId, r.document.id, chunk, Some(generation)))
  }

  function NewChunkRows(r: Request, generation: Id): (rows: seq<(Id, ChunkRow)>) {
    seq(|r.chunks|, i requires 0 <= i < |r.chunks| => NewChunkRow(r, generation, r.chunks[i]))
  }

  /** DELETE FROM chunks for one document. */
  function WithoutChunksOf(chunks: map<Id, ChunkRow>, d: Id, tenantId: Id): map<Id, ChunkRow> {
    map c | c in chunks && !(chunks[c].documentId == d && chunks[c].tenantId == tenantId) :: chunks[c]
  }

  /** Rows that predate publication stop being live when the document first gets a generation. */
  function RetireUnversioned(vectors: map<Id, VectorRow>, d: Id, tenantId: Id): map<Id, VectorRow> {
    map c | c in vectors ::
      if vectors[c].documentId == d && vectors[c].tenantId == tenantId && vectors[c].generationId.None?
      then vectors[c].(deleted := true) else vectors[c]
  }

  /** The document row and the job the transaction locks, or the reason it is refused. */
  function Admit(s: State, r: Request, clock: int): (result: Result<Document, Failure>) {
    var d := r.document.id;
    if r.job.leaseToken.None? || r.job.generationId.None? then Err(StaleLease)
    else if !Accepted(r) || s.profile != Some(r.profileId) then Err(InvalidInput)
    else if d !in s.documents || s.documents[d].tenantId != r.document.tenantId then Err(StaleLease)
    else if
      || !Holds(s.jobs, r.jobId, r.job.leaseToken.value, clock)
      || s.jobs[r.jobId].documentId != d
      || s.jobs[r.jobId].generationId != r.job.generationId
    then Err(StaleLease)
    else if s.documents[d].version != r.document.version || Some(s.documents[d].contentSha) != r.document.contentSha
    then Err(StaleLease)
    else if s.documents[d].activeGeneration != r.document.activeGeneration then Err(StaleLease)
    else Ok(s.documents[d])
  }

  /** The new contents of the vector and chunk tables, before the last lease check. */
  datatype Prepared = Prepared(current: Document, vectors: map<Id, VectorRow>, chunks: map<Id, ChunkRow>)

  function Prepare(s: State, r: Request, start: int): Result<Prepared, Failure> {
    var current :- Admit(s, r, start);
    var d := r.document.id;
    var g := r.job.generationId.value;
    if g in s.generations then Err(UniqueViolation)
    else
      var vectors := InsertAll(s.vectors, NewVectorRows(r, g, current));
      if vectors.None? then Err(UniqueViolation)
      else
        var chunks := InsertAll(WithoutChunksOf(s.chunks, d, r.document.tenantId), NewChunkRows(r, g));
        if chunks.None? then Err(UniqueViolation)
        else Ok(Prepared(current, RetireUnversioned(vectors.value, d, r.document.tenantId), chunks.value))
  }

  /** The writes at the end of the transaction, if the lease still holds. */
  function Commit(s: State, r: Request, prepared: Prepared, commit: int): Outcome
    requires r.job.leaseToken.Some? && r.job.generationId.Some?
  {
    var d := r.document.id;
    var g := r.job.generationId.value;
    var current := prepared.current;
    if !Holds(s.jobs, r.jobId, r.job.leaseToken.value, commit) then Err(StaleLease)
    else Ok(s.(
           generations := s.generations[g := NewGeneration(r, current)],
           vectors := prepared.vectors,
           chunks := prepared.chunks,
           documents := s.documents[d := current.(activeGeneration := Some(g), indexedVersion := Some(r.document.version))],
           epochs := Bump(s.epochs, EpochKey(current.permissions.scope, r.document.tenantId)),
           jobs := s.jobs[r.jobId := Finished(s.jobs[r.jobId])]))
  }

  /** The whole transaction. `start` and `commit` are the clock at the first and the last lease check. */
  function Publish(s: State, r: Request, start: int, commit: int): Outcome {
    var prepared :- Prepare(s, r, start);
    Commit(s, r, prepared, commit)
  }
}
