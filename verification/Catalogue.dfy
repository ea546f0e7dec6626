/** The steps of the metadata store and of the vector store that change documents, create jobs
    and remove documents, each one transaction. */
module Catalogue {
  import opened Prelude
  import opened IngestTables
  import opened Publication

  datatype Content = Content(blobPath: string, sha: Digest)

  function NewJob(d: Id, tenantId: Id, createdAt: int, content: Content, version: nat): Job {
    Job(d, tenantId, createdAt, "parse", Queued, 0, createdAt, None, None, None,
        Some(content.blobPath), Some(content.sha), Some(version))
  }

  /** A new document at version 1 together with its first job. */
  function CreateDocument(s: State, d: Id, tenantId: Id, permissions: Permissions, content: Content, j: Id, now: int): Outcome {
    if d in s.documents || j in s.jobs || HasActiveJob(s.jobs, d) then Err(UniqueViolation)
    else Ok(s.(
           documents := s.documents[d := Document(tenantId, permissions, content.blobPath, content.sha, 1, None, None)],
           jobs := s.jobs[j := NewJob(d, tenantId, now, content, 1)]))
  }

  predicate Idle(s: State, tenantId: Id, d: Id) {
    d in s.documents && s.documents[d].tenantId == tenantId && !HasActiveJob(s.jobs, d)
  }

  /** New bytes for a document: the version goes up and a job pinned to that version is queued. */
  function UpdateContent(s: State, tenantId: Id, d: Id, content: Content, visibility: Visibility, scope: Scope,
                         j: Id, expectedVersion: Option<nat>, now: int): Outcome {
    if !Idle(s, tenantId, d) then Err(Conflict)
    else
      var previous := s.documents[d];
      if expectedVersion.Some? && expectedVersion.value != previous.version then Err(Conflict)
      else if j in s.jobs then Err(UniqueViolation)
      else
        var key := if scope == GlobalScope || previous.permissions.scope == GlobalScope then GlobalKey else TenantKey(tenantId);
        var permissions := previous.permissions.(visibility := visibility, scope := scope);
        Ok(s.(
           documents := s.documents[d := previous.(blobPath := content.blobPath, contentSha := content.sha,
                                                   permissions := permissions, version := previous.version + 1)],
           jobs := s.jobs[j := NewJob(d, tenantId, now, content, previous.version + 1)],
           epochs := Bump(s.epochs, key)))
  }

  /** Reprocessing: another job for the content the document has now. */
  function CreateJob(s: State, tenantId: Id, d: Id, j: Id, now: int): Outcome {
    if !Idle(s, tenantId, d) then Err(Conflict)
    else if j in s.jobs then Err(UniqueViolation)
    else
      var row := s.documents[d];
      Ok(s.(jobs := s.jobs[j := NewJob(d, tenantId, now, Content(row.blobPath, row.contentSha), row.version)]))
  }

  function UpdateAccess(s: State, tenantId: Id, d: Id, visibility: Visibility, scope: Scope): Outcome {
    if d !in s.documents || s.documents[d].tenantId != tenantId then Err(InvalidInput)
    else
      var row := s.documents[d];
      var key := if scope == GlobalScope || row.permissions.scope == GlobalScope then GlobalKey else TenantKey(tenantId);
      Ok(s.(documents := s.documents[d := row.(permissions := row.permissions.(visibility := visibility, scope := scope))],
            epochs := Bump(s.epochs, key)))
  }

  /** Marks every vector row of a document deleted; the first half of removing a document. */
  function TombstoneVectors(s: State, tenantId: Id, d: Id): Outcome {
    Ok(s.(vectors := map c | c in s.vectors ::
      if s.vectors[c].documentId == d && s.vectors[c].tenantId == tenantId
      then s.vectors[c].(deleted := true) else s.vectors[c]))
  }

  /** Removes the document row with its jobs, chunks and generations; its id stays recorded. */
  function DeleteDocument(s: State, tenantId: Id, d: Id): Outcome {
    if d !in s.documents || s.documents[d].tenantId != tenantId then Ok(s)
    else Ok(s.(
           deletedDocuments := if d in s.deletedDocuments then s.deletedDocuments else s.deletedDocuments[d := tenantId],
           epochs := Bump(s.epochs, EpochKey(s.documents[d].permissions.scope, tenantId)),
           chunks := WithoutChunksOf(s.chunks, d, tenantId),
           jobs := map j | j in s.jobs && !(s.jobs[j].documentId == d && s.jobs[j].tenantId == tenantId) :: s.jobs[j],
           generations := map g | g in s.generations && s.generations[g].documentId != d :: s.generations[g],
           documents := s.documents - {d}))
  }
}
