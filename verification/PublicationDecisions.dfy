/** When a publication succeeds: the exact conditions, in any reachable state. */
module PublicationDecisions {
  import opened Prelude
  import opened IngestTables
  import opened IngestRuns
  import TaskQueue
  import Publication
  import Visibility

  /** The request still describes the document: same content, same head. */
  predicate DescribesDocument(s: State, r: Publication.Request) {
    var d := r.document.id;
    && d in s.documents && s.documents[d].tenantId == r.document.tenantId
    && s.documents[d].version == r.document.version && Some(s.documents[d].contentSha) == r.document.contentSha
    && s.documents[d].activeGeneration == r.document.activeGeneration
  }

  /** The worker still holds the job it claimed for this document, at the first check and at the last. */
  predicate HoldsJob(s: State, r: Publication.Request, start: int, commit: int) {
    && r.job.leaseToken.Some? && r.job.generationId.Some?
    && TaskQueue.Holds(s.jobs, r.jobId, r.job.leaseToken.value, start)
    && TaskQueue.Holds(s.jobs, r.jobId, r.job.leaseToken.value, commit)
    && s.jobs[r.jobId].documentId == r.document.id && s.jobs[r.jobId].generationId == r.job.generationId
  }

  /** No chunk id is taken twice, by another vector row, or by a chunk of another document. */
  ghost predicate FreeIds(s: State, r: Publication.Request) {
    && Visibility.DistinctIds(r.chunks)
    && forall i :: 0 <= i < |r.chunks| ==>
         && r.chunks[i].id !in s.vectors
         && (r.chunks[i].id in s.chunks ==>
               && s.chunks[r.chunks[i].id].documentId == r.document.id
               && s.chunks[r.chunks[i].id].tenantId == r.document.tenantId)
  }

  ghost predicate Publishable(s: State, r: Publication.Request, start: int, commit: int) {
    && Publication.Accepted(r) && s.profile == Some(r.profileId)
    && HoldsJob(s, r, start, commit) && DescribesDocument(s, r) && FreeIds(s, r)
  }

  lemma AdmitsExactlyWhen(s: State, r: Publication.Request, start: int)
    ensures Publication.Admit(s, r, start).Ok? <==>
              && Publication.Accepted(r) && s.profile == Some(r.profileId)
              && HoldsJob(s, r, start, start) && DescribesDocument(s, r)
    ensures Publication.Admit(s, r, start).Ok? ==> Publication.Admit(s, r, start) == Ok(s.documents[r.document.id])
  {
    hide Publication.Accepted;
  }

  lemma KeysFree(s: State, r: Publication.Request, g: Id, current: Document)
    requires |r.chunks| == |r.points|
    ensures
      && NewKeys(s.vectors, Publication.NewVectorRows(r, g, current))
      && NewKeys(Publication.WithoutChunksOf(s.chunks, r.document.id, r.document.tenantId), Publication.NewChunkRows(r, g))
      <==> FreeIds(s, r)
  {
    var rows, chunkRows := Publication.NewVectorRows(r, g, current), Publication.NewChunkRows(r, g);
    var kept := Publication.WithoutChunksOf(s.chunks, r.document.id, r.document.tenantId);
    forall i | 0 <= i < |r.chunks| ensures rows[i].0 == r.chunks[i].id == chunkRows[i].0 {
    }
    if NewKeys(s.vectors, rows) && NewKeys(kept, chunkRows) {
      Visibility.RowKeys(r, g, current);
      forall i | 0 <= i < |r.chunks|
        ensures r.chunks[i].id !in s.vectors && r.chunks[i].id !in kept
      {
        assert rows[i].0 !in s.vectors && chunkRows[i].0 !in kept;
      }
    }
  }

  lemma PreparesExactlyWhen(s: State, r: Publication.Request, start: int)
    requires r.job.generationId.Some? && r.job.generationId.value !in s.generations
    ensures Publication.Prepare(s, r, start).Ok? <==> Publication.Admit(s, r, start).Ok? && FreeIds(s, r)
  {
    hide Publication.Admit, InsertAll, FreeIds, NewKeys, Publication.NewVectorRows, Publication.NewChunkRows;
    if Publication.Admit(s, r, start).Ok? {
      AdmitsExactlyWhen(s, r, start);
      var g, current := r.job.generationId.value, s.documents[r.document.id];
      KeysFree(s, r, g, current);
      InsertAllContents(s.vectors, Publication.NewVectorRows(r, g, current));
      InsertAllContents(Publication.WithoutChunksOf(s.chunks, r.document.id, r.document.tenantId), Publication.NewChunkRows(r, g));
    }
  }

  lemma GenerationIsNew(s: State, r: Publication.Request, start: int)
    requires Visibility.RunsUnpublished(s) && Publication.Admit(s, r, start).Ok?
    ensures r.job.generationId.Some? && r.job.generationId.value !in s.generations
  {
    AdmitsExactlyWhen(s, r, start);
    assert Visibility.Unpublished(s, s.jobs[r.jobId].generationId.value);
  }

  /** In every state of every run a publication succeeds exactly when its input is accepted under the active profile, the
      worker holds its job at both checks, the document is as it was read, and no chunk id is taken: the generation id is
      never the obstacle. */
  lemma PublishesExactlyWhen(states: seq<State>, events: seq<Event>, k: nat, r: Publication.Request, start: int, commit: int)
    requires Run(states, events) && Visibility.RunnerOnly(events) && k < |states|
    ensures Publication.Publish(states[k], r, start, commit).Ok? <==> Publishable(states[k], r, start, commit)
  {
    hide Publication.Prepare, Publication.Admit, FreeIds, Publication.Accepted;
    var s := states[k];
    Visibility.VisibleAlways(states, events, k);
    AdmitsExactlyWhen(s, r, start);
    if Publication.Admit(s, r, start).Ok? {
      GenerationIsNew(s, r, start);
      PreparesExactlyWhen(s, r, start);
    } else {
      RefusedNotPrepared(s, r, start);
    }
  }

  lemma RefusedNotPrepared(s: State, r: Publication.Request, start: int)
    requires Publication.Admit(s, r, start).Err?
    ensures Publication.Prepare(s, r, start).Err?
  {
  }
}
