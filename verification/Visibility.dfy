/** Over every run in which publications come from the ingestion runner, a document's searchable
    rows are all chunks of its head generation or none, and a removed document stays invisible. */
module Visibility {
  import opened Prelude
  import opened IngestTables
  import opened IngestRuns
  import opened RetrievalView
  import Leases
  import Lineage
  import TaskQueue
  import Publication
  import Catalogue

  /** The points carry the text of their chunks, as the runner builds them. */
  ghost predicate FromRunner(r: Publication.Request) {
    && |r.points| == |r.chunks|
    && forall i :: 0 <= i < |r.chunks| ==>
         r.points[i].payload.content == r.chunks[i].text && r.points[i].payload.documentId == r.document.id
  }

  lemma RunnerPointsCarryText(document: Publication.Snapshot, chunks: seq<Chunk>, vectors: seq<seq<Coordinate>>, r: Publication.Request)
    requires |chunks| == |vectors|
    requires r.document == document && r.chunks == chunks && r.points == Publication.BuildPoints(document, chunks, vectors)
    ensures FromRunner(r)
  {
  }

  /** The vector row stored for a chunk of a generation. */
  ghost predicate RowOf(row: VectorRow, g: Id, generation: Generation, chunk: Chunk) {
    && row.generationId == Some(g)
    && row.documentId == generation.documentId
    && row.tenantId == generation.tenantId
    && row.payload.documentId == generation.documentId
    && row.payload.content == chunk.text
    && row.payload.version == generation.version
    && row.payload.profileId == Some(generation.profileId)
  }

  ghost predicate ChunkStored(vectors: map<Id, VectorRow>, g: Id, generation: Generation, i: nat)
    requires i < |generation.chunks|
  {
    && generation.chunks[i].id in vectors
    && RowOf(vectors[generation.chunks[i].id], g, generation, generation.chunks[i])
    && vectors[generation.chunks[i].id].deleted ==
       (generation.chunks[0].id in vectors && vectors[generation.chunks[0].id].deleted)
  }

  ghost predicate DistinctIds(chunks: seq<Chunk>) {
    forall i, j :: 0 <= i < j < |chunks| ==> chunks[i].id != chunks[j].id
  }

  /** Every chunk of the generation has its row, all of them live or all of them deleted. */
  ghost predicate GenerationStored(vectors: map<Id, VectorRow>, g: Id, generation: Generation) {
    && generation.chunks != []
    && DistinctIds(generation.chunks)
    && forall i :: 0 <= i < |generation.chunks| ==> ChunkStored(vectors, g, generation, i)
  }

  ghost predicate AllStored(s: State) {
    forall g :: g in s.generations ==> GenerationStored(s.vectors, g, s.generations[g])
  }

  ghost predicate ChunkIdIn(chunks: seq<Chunk>, c: Id) {
    exists i :: 0 <= i < |chunks| && chunks[i].id == c
  }

  /** No row belongs to a generation without being one of its chunks. */
  ghost predicate NoStrayRows(s: State) {
    forall c :: c in s.vectors && s.vectors[c].generationId.Some? && s.vectors[c].generationId.value in s.generations ==>
      ChunkIdIn(s.generations[s.vectors[c].generationId.value].chunks, c)
  }

  ghost predicate GenerationsIssued(s: State) {
    && (forall g :: g in s.generations ==> g in s.issued)
    && (forall c :: c in s.vectors && s.vectors[c].generationId.Some? ==> s.vectors[c].generationId.value in s.issued)
  }

  ghost predicate Unpublished(s: State, g: Id) {
    g !in s.generations && forall c :: c in s.vectors ==> s.vectors[c].generationId != Some(g)
  }

  /** The generation a running job works towards does not exist yet. */
  ghost predicate RunsUnpublished(s: State) {
    forall j :: j in s.jobs && s.jobs[j].status == Running && s.jobs[j].generationId.Some? ==>
      Unpublished(s, s.jobs[j].generationId.value)
  }

  /** Rows that predate publication are deleted as soon as their document has a generation. */
  ghost predicate UnversionedRetired(s: State) {
    forall c :: c in s.vectors && s.vectors[c].generationId.None? && Joined(s, s.vectors[c])
                && s.documents[s.vectors[c].documentId].activeGeneration.Some? ==>
      s.vectors[c].deleted
  }

  ghost predicate ChunkTableOf(s: State, d: Id, g: Id)
    requires d in s.documents && g in s.generations
  {
    var rows := ChunksOf(s, s.documents[d].tenantId, d);
    && (forall c :: c in rows ==> ChunkIdIn(s.generations[g].chunks, c))
    && (forall i :: 0 <= i < |s.generations[g].chunks| ==>
          var chunk := s.generations[g].chunks[i];
          chunk.id in rows && rows[chunk.id].chunk == chunk && rows[chunk.id].generationId == Some(g))
  }

  ghost predicate ChunkTables(s: State) {
    forall d :: d in s.documents && s.documents[d].activeGeneration.Some? && s.documents[d].activeGeneration.value in s.generations ==>
      ChunkTableOf(s, d, s.documents[d].activeGeneration.value)
  }

  ghost predicate LiveDocuments(s: State) {
    forall d :: d in s.documents ==> d !in s.deletedDocuments
  }

  ghost predicate VisibleInv(s: State) {
    AllStored(s) && NoStrayRows(s) && GenerationsIssued(s) && RunsUnpublished(s) && UnversionedRetired(s)
    && ChunkTables(s) && LiveDocuments(s)
  }

  // ---------------------------------------------------------------- publication

  /** The rows after a publication: the old ones, with unversioned rows of the document retired,
      and one new live row per chunk. */
  ghost predicate RowsPublished(s: State, after: State, r: Publication.Request, g: Id) {
    && |r.points| == |r.chunks|
    && r.chunks != []
    && DistinctIds(r.chunks)
    && r.document.id in s.documents
    && s.documents[r.document.id].tenantId == r.document.tenantId
    && (forall i :: 0 <= i < |r.chunks| ==>
          && r.chunks[i].id !in s.vectors
          && r.chunks[i].id in after.vectors
          && after.vectors[r.chunks[i].id] ==
             Publication.NewVectorRow(r, g, s.documents[r.document.id], r.chunks[i], r.points[i]).1)
    && (forall c :: c in s.vectors ==>
          && c in after.vectors
          && after.vectors[c] ==
             if s.vectors[c].documentId == r.document.id && s.vectors[c].tenantId == r.document.tenantId && s.vectors[c].generationId.None?
             then s.vectors[c].(deleted := true) else s.vectors[c])
    && (forall c :: c in after.vectors ==> c in s.vectors || ChunkIdIn(r.chunks, c))
  }

  ghost predicate ChunksPublished(s: State, after: State, r: Publication.Request, g: Id) {
    && (forall i :: 0 <= i < |r.chunks| ==>
          r.chunks[i].id in after.chunks && after.chunks[r.chunks[i].id] == Publication.NewChunkRow(r, g, r.chunks[i]).1)
    && (forall c :: c in after.chunks ==>
          || ChunkIdIn(r.chunks, c)
          || (c in s.chunks && after.chunks[c] == s.chunks[c]
              && !(s.chunks[c].documentId == r.document.id && s.chunks[c].tenantId == r.document.tenantId)))
    && (forall c :: c in s.chunks && !(s.chunks[c].documentId == r.document.id && s.chunks[c].tenantId == r.document.tenantId) ==>
          c in after.chunks && after.chunks[c] == s.chunks[c])
  }

  lemma RowKeys(r: Publication.Request, g: Id, current: Document)
    requires |r.points| == |r.chunks|
    ensures var rows := Publication.NewVectorRows(r, g, current);
      forall i :: 0 <= i < |r.chunks| ==> rows[i].0 == r.chunks[i].id
    ensures DistinctKeys(Publication.NewVectorRows(r, g, current)) ==> DistinctIds(r.chunks)
  {
    var rows := Publication.NewVectorRows(r, g, current);
    if DistinctKeys(rows) {
      forall i, j | 0 <= i < j < |r.chunks| ensures r.chunks[i].id != r.chunks[j].id {
        assert rows[i].0 != rows[j].0;
      }
    }
  }

  lemma InsertedRow(vectors: map<Id, VectorRow>, r: Publication.Request, g: Id, current: Document, inserted: map<Id, VectorRow>, i: nat)
    requires |r.points| == |r.chunks| && i < |r.chunks|
    requires NewKeys(vectors, Publication.NewVectorRows(r, g, current))
    requires Inserted(vectors, Publication.NewVectorRows(r, g, current), inserted)
    ensures r.chunks[i].id !in vectors && r.chunks[i].id in inserted
    ensures inserted[r.chunks[i].id] == Publication.NewVectorRow(r, g, current, r.chunks[i], r.points[i]).1
  {
    var rows := Publication.NewVectorRows(r, g, current);
    assert rows[i].0 == r.chunks[i].id;
  }

  lemma InsertedRows(vectors: map<Id, VectorRow>, r: Publication.Request, g: Id, current: Document, inserted: map<Id, VectorRow>)
    requires |r.points| == |r.chunks|
    requires NewKeys(vectors, Publication.NewVectorRows(r, g, current))
    requires Inserted(vectors, Publication.NewVectorRows(r, g, current), inserted)
    ensures DistinctIds(r.chunks)
    ensures forall i :: 0 <= i < |r.chunks| ==>
              && r.chunks[i].id !in vectors
              && r.chunks[i].id in inserted
              && inserted[r.chunks[i].id] == Publication.NewVectorRow(r, g, current, r.chunks[i], r.points[i]).1
    ensures forall c :: c in inserted ==> c in vectors || ChunkIdIn(r.chunks, c)
  {
    RowKeys(r, g, current);
    forall i | 0 <= i < |r.chunks|
      ensures && r.chunks[i].id !in vectors
              && r.chunks[i].id in inserted
              && inserted[r.chunks[i].id] == Publication.NewVectorRow(r, g, current, r.chunks[i], r.points[i]).1
    {
      InsertedRow(vectors, r, g, current, inserted, i);
    }
    var rows := Publication.NewVectorRows(r, g, current);
    forall c | c in inserted && c !in vectors ensures ChunkIdIn(r.chunks, c) {
      var i :| 0 <= i < |rows| && rows[i].0 == c;
      assert r.chunks[i].id == c;
    }
  }

  lemma PublishVectorTable(s: State, r: Publication.Request, start: int, commit: int)
    requires Publication.Publish(s, r, start, commit).Ok?
    ensures r.job.generationId.Some? && r.document.id in s.documents && |r.chunks| == |r.points|
    ensures r.chunks != [] && s.documents[r.document.id].tenantId == r.document.tenantId
    ensures
      var inserted := InsertAll(s.vectors, Publication.NewVectorRows(r, r.job.generationId.value, s.documents[r.document.id]));
      inserted.Some? && Publication.Publish(s, r, start, commit).value.vectors
                        == Publication.RetireUnversioned(inserted.value, r.document.id, r.document.tenantId)
  {
    hide InsertAll, Publication.NewVectorRows, Publication.RetireUnversioned;
  }

  lemma PublishRows(s: State, r: Publication.Request, start: int, commit: int)
    requires Publication.Publish(s, r, start, commit).Ok?
    ensures r.job.generationId.Some?
    ensures RowsPublished(s, Publication.Publish(s, r, start, commit).value, r, r.job.generationId.value)
  {
    hide Publication.Publish, InsertAll;
    PublishVectorTable(s, r, start, commit);
    var rows := Publication.NewVectorRows(r, r.job.generationId.value, s.documents[r.document.id]);
    InsertAllContents(s.vectors, rows);
    InsertedRows(s.vectors, r, r.job.generationId.value, s.documents[r.document.id], InsertAll(s.vectors, rows).value);
  }

  lemma PublishChunkTable(s: State, r: Publication.Request, start: int, commit: int)
    requires Publication.Publish(s, r, start, commit).Ok?
    ensures r.job.generationId.Some?
    ensures
      var rows := Publication.NewChunkRows(r, r.job.generationId.value);
      Some(Publication.Publish(s, r, start, commit).value.chunks)
      == InsertAll(Publication.WithoutChunksOf(s.chunks, r.document.id, r.document.tenantId), rows)
  {
    hide InsertAll;
  }

  lemma InsertedChunks(kept: map<Id, ChunkRow>, after: map<Id, ChunkRow>, r: Publication.Request, g: Id)
    requires Some(after) == InsertAll(kept, Publication.NewChunkRows(r, g))
    ensures forall i :: 0 <= i < |r.chunks| ==>
              r.chunks[i].id in after && after[r.chunks[i].id] == Publication.NewChunkRow(r, g, r.chunks[i]).1
    ensures forall c :: c in after && c !in kept ==> ChunkIdIn(r.chunks, c)
    ensures forall c :: c in kept ==> c in after && after[c] == kept[c]
  {
    var rows := Publication.NewChunkRows(r, g);
    InsertAllContents(kept, rows);
    hide InsertAll;
    forall i | 0 <= i < |r.chunks|
      ensures r.chunks[i].id in after && after[r.chunks[i].id] == Publication.NewChunkRow(r, g, r.chunks[i]).1
    {
      assert rows[i] == Publication.NewChunkRow(r, g, r.chunks[i]);
    }
    forall c | c in after && c !in kept ensures ChunkIdIn(r.chunks, c) {
      assert c in KeysOf(rows);
      var i :| 0 <= i < |rows| && rows[i].0 == c;
      assert r.chunks[i].id == c;
    }
  }

  lemma PublishChunks(s: State, r: Publication.Request, start: int, commit: int)
    requires Publication.Publish(s, r, start, commit).Ok?
    ensures r.job.generationId.Some?
    ensures ChunksPublished(s, Publication.Publish(s, r, start, commit).value, r, r.job.generationId.value)
  {
    hide InsertAll, Publication.Publish, ChunkIdIn;
    PublishChunkTable(s, r, start, commit);
    InsertedChunks(Publication.WithoutChunksOf(s.chunks, r.document.id, r.document.tenantId),
                   Publication.Publish(s, r, start, commit).value.chunks, r, r.job.generationId.value);
  }

  /** Everything a successful publication does, seen from the tables. */
  ghost predicate PublishedRows(s: State, after: State, r: Publication.Request, g: Id) {
    && Lineage.Published(s, after, r.document.id, g)
    && RowsPublished(s, after, r, g)
    && ChunksPublished(s, after, r, g)
    && after.generations[g].chunks == r.chunks
    && after.generations[g].profileId == r.profileId
    && after.documents[r.document.id].permissions == s.documents[r.document.id].permissions
    && r.document.version == s.documents[r.document.id].version
    && after.issued == s.issued
    && after.deletedDocuments == s.deletedDocuments
    && r.jobId in s.jobs
    && s.jobs[r.jobId].status == Running
    && s.jobs[r.jobId].leaseToken.Some?
    && s.jobs[r.jobId].generationId == Some(g)
    && after.jobs == s.jobs[r.jobId := TaskQueue.Finished(s.jobs[r.jobId])]
  }

  lemma PublishedEffect(s: State, r: Publication.Request, start: int, commit: int)
    requires Publication.Publish(s, r, start, commit).Ok?
    ensures r.job.generationId.Some?
    ensures PublishedRows(s, Publication.Publish(s, r, start, commit).value, r, r.job.generationId.value)
  {
    Lineage.PublishEffect(s, r, start, commit);
    PublishRows(s, r, start, commit);
    PublishChunks(s, r, start, commit);
  }

  lemma PublishedStored(s: State, after: State, r: Publication.Request, g: Id)
    requires AllStored(s) && PublishedRows(s, after, r, g) && FromRunner(r)
    ensures AllStored(after)
  {
    forall h | h in after.generations ensures GenerationStored(after.vectors, h, after.generations[h]) {
      var generation := after.generations[h];
      if h == g {
        forall i | 0 <= i < |r.chunks| ensures ChunkStored(after.vectors, g, generation, i) {
          assert r.chunks[0].id in after.vectors;
        }
      } else {
        assert GenerationStored(s.vectors, h, s.generations[h]);
        forall i | 0 <= i < |generation.chunks| ensures ChunkStored(after.vectors, h, generation, i) {
          assert ChunkStored(s.vectors, h, generation, 0) && ChunkStored(s.vectors, h, generation, i);
        }
      }
    }
  }

  lemma PublishedNoStrays(s: State, after: State, r: Publication.Request, g: Id)
    requires NoStrayRows(s) && RunsUnpublished(s) && PublishedRows(s, after, r, g)
    ensures NoStrayRows(after)
  {
    assert Unpublished(s, g);
    forall c | c in after.vectors && after.vectors[c].generationId.Some? && after.vectors[c].generationId.value in after.generations
      ensures ChunkIdIn(after.generations[after.vectors[c].generationId.value].chunks, c)
    {
      if c in s.vectors {
        assert after.vectors[c].generationId == s.vectors[c].generationId;
        assert after.vectors[c].generationId != Some(g);
      } else {
        assert ChunkIdIn(r.chunks, c);
      }
    }
  }

  lemma PublishedIssued(s: State, after: State, r: Publication.Request, g: Id)
    requires Leases.LeaseInv(s) && GenerationsIssued(s) && PublishedRows(s, after, r, g)
    ensures GenerationsIssued(after)
  {
    assert Leases.WellLeased(s.jobs[r.jobId], s.issued);
    forall c | c in after.vectors && after.vectors[c].generationId.Some? ensures after.vectors[c].generationId.value in after.issued {
      if c !in s.vectors {
        assert ChunkIdIn(r.chunks, c);
      }
    }
  }

  lemma PublishedRuns(s: State, after: State, r: Publication.Request, g: Id)
    requires Leases.LeaseInv(s) && RunsUnpublished(s) && PublishedRows(s, after, r, g)
    ensures RunsUnpublished(after)
  {
    forall j | j in after.jobs && after.jobs[j].status == Running && after.jobs[j].generationId.Some?
      ensures Unpublished(after, after.jobs[j].generationId.value)
    {
      assert j != r.jobId && after.jobs[j] == s.jobs[j];
      assert Leases.SeparateJobs(s.jobs[j], s.jobs[r.jobId]);
      assert Leases.WellLeased(s.jobs[j], s.issued);
      var h := s.jobs[j].generationId.value;
      assert Unpublished(s, h) && h != g;
      forall c | c in after.vectors ensures after.vectors[c].generationId != Some(h) {
        if c !in s.vectors {
          assert ChunkIdIn(r.chunks, c);
        }
      }
    }
  }

  lemma PublishedRetired(s: State, after: State, r: Publication.Request, g: Id)
    requires UnversionedRetired(s) && PublishedRows(s, after, r, g)
    ensures UnversionedRetired(after)
  {
    forall c | c in after.vectors && after.vectors[c].generationId.None? && Joined(after, after.vectors[c])
               && after.documents[after.vectors[c].documentId].activeGeneration.Some?
      ensures after.vectors[c].deleted
    {
      assert c in s.vectors || ChunkIdIn(r.chunks, c);
      if after.vectors[c].documentId != r.document.id {
        assert after.documents[s.vectors[c].documentId] == s.documents[s.vectors[c].documentId];
      }
    }
  }

  lemma PublishedChunkTables(s: State, after: State, r: Publication.Request, g: Id)
    requires ChunkTables(s) && Lineage.AllIndexed(s) && PublishedRows(s, after, r, g)
    ensures ChunkTables(after)
  {
    forall d | d in after.documents && after.documents[d].activeGeneration.Some? && after.documents[d].activeGeneration.value in after.generations
      ensures ChunkTableOf(after, d, after.documents[d].activeGeneration.value)
    {
      hide ChunkTableOf;
      if d == r.document.id {
        NewChunkTable(s, after, r, g);
      } else {
        assert Lineage.IndexedAsHead(s.generations, s.documents[d]);
        OtherChunkTable(s, after, r, g, d);
      }
    }
  }

  lemma NewChunkTable(s: State, after: State, r: Publication.Request, g: Id)
    requires PublishedRows(s, after, r, g)
    ensures ChunkTableOf(after, r.document.id, g)
  {
  }

  lemma OtherChunkTable(s: State, after: State, r: Publication.Request, g: Id, d: Id)
    requires PublishedRows(s, after, r, g) && d in s.documents && d != r.document.id
    requires s.documents[d].activeGeneration.Some? && s.documents[d].activeGeneration.value in s.generations
    requires ChunkTableOf(s, d, s.documents[d].activeGeneration.value)
    ensures ChunkTableOf(after, d, s.documents[d].activeGeneration.value)
  {
    var tenantId := s.documents[d].tenantId;
    assert after.documents[d] == s.documents[d];
    assert forall c :: c in ChunksOf(after, tenantId, d) ==> c in ChunksOf(s, tenantId, d);
  }

  lemma PublishedVisible(s: State, after: State, r: Publication.Request, g: Id)
    requires Leases.LeaseInv(s) && Lineage.LineageInv(s) && VisibleInv(s)
    requires PublishedRows(s, after, r, g) && FromRunner(r)
    ensures VisibleInv(after)
  {
    PublishedStored(s, after, r, g);
    PublishedNoStrays(s, after, r, g);
    PublishedIssued(s, after, r, g);
    PublishedRuns(s, after, r, g);
    PublishedRetired(s, after, r, g);
    PublishedChunkTables(s, after, r, g);
  }

  // ---------------------------------------------------------------- the other steps

  lemma TombstonedVisible(s: State, tenantId: Id, d: Id)
    requires VisibleInv(s)
    ensures VisibleInv(Catalogue.TombstoneVectors(s, tenantId, d).value)
  {
    var after := Catalogue.TombstoneVectors(s, tenantId, d).value;
    forall g | g in after.generations ensures GenerationStored(after.vectors, g, after.generations[g]) {
      var generation := s.generations[g];
      assert GenerationStored(s.vectors, g, generation);
      forall i | 0 <= i < |generation.chunks| ensures ChunkStored(after.vectors, g, generation, i) {
        assert ChunkStored(s.vectors, g, generation, 0) && ChunkStored(s.vectors, g, generation, i);
      }
    }
    assert forall c :: c in after.vectors ==> c in s.vectors && after.vectors[c].generationId == s.vectors[c].generationId;
    forall j | j in after.jobs && after.jobs[j].status == Running && after.jobs[j].generationId.Some?
      ensures Unpublished(after, after.jobs[j].generationId.value)
    {
      assert Unpublished(s, s.jobs[j].generationId.value);
    }
    forall e | e in after.documents && after.documents[e].activeGeneration.Some? && after.documents[e].activeGeneration.value in after.generations
      ensures ChunkTableOf(after, e, after.documents[e].activeGeneration.value)
    {
      assert ChunkTableOf(s, e, s.documents[e].activeGeneration.value);
    }
  }

  lemma DeletedChunkTables(s: State, tenantId: Id, d: Id)
    requires ChunkTables(s) && Lineage.LineageInv(s)
    ensures ChunkTables(Catalogue.DeleteDocument(s, tenantId, d).value)
  {
    var after := Catalogue.DeleteDocument(s, tenantId, d).value;
    forall e | e in after.documents && after.documents[e].activeGeneration.Some? && after.documents[e].activeGeneration.value in after.generations
      ensures ChunkTableOf(after, e, after.documents[e].activeGeneration.value)
    {
      assert e in s.documents && after.documents[e] == s.documents[e];
      assert ChunkTableOf(s, e, s.documents[e].activeGeneration.value);
      assert forall c :: c in ChunksOf(after, s.documents[e].tenantId, e) ==> c in ChunksOf(s, s.documents[e].tenantId, e);
    }
  }

  lemma DeletedVisible(s: State, tenantId: Id, d: Id)
    requires VisibleInv(s) && Lineage.LineageInv(s)
    ensures VisibleInv(Catalogue.DeleteDocument(s, tenantId, d).value)
  {
    var after := Catalogue.DeleteDocument(s, tenantId, d).value;
    DeletedChunkTables(s, tenantId, d);
    assert after.vectors == s.vectors && after.issued == s.issued;
    forall j | j in after.jobs && after.jobs[j].status == Running && after.jobs[j].generationId.Some?
      ensures Unpublished(after, after.jobs[j].generationId.value)
    {
      assert Unpublished(s, s.jobs[j].generationId.value);
    }
    forall c | c in after.vectors && after.vectors[c].generationId.None? && Joined(after, after.vectors[c])
               && after.documents[after.vectors[c].documentId].activeGeneration.Some?
      ensures after.vectors[c].deleted
    {
      assert Joined(s, s.vectors[c]);
    }
  }

  ghost predicate Created(s: State, after: State, d: Id) {
    && d !in s.documents && d in after.documents
    && after.documents == s.documents[d := after.documents[d]]
    && after.documents[d].activeGeneration.None?
    && d !in s.deletedDocuments
    && (forall c :: c in s.vectors ==> s.vectors[c].documentId != d)
    && after == s.(documents := after.documents, jobs := after.jobs)
    && (forall j :: j in after.jobs ==> after.jobs[j].status == Queued || (j in s.jobs && after.jobs[j] == s.jobs[j]))
  }

  lemma CreatedEffect(s: State, e: Event)
    requires e.CreateDocument? && Fresh(s, e) && Step(s, e).Ok?
    ensures Created(s, Next(s, e), e.d)
  {
  }

  lemma CreatedVisible(s: State, after: State, d: Id)
    requires VisibleInv(s) && Created(s, after, d)
    ensures VisibleInv(after)
  {
    forall j | j in after.jobs && after.jobs[j].status == Running && after.jobs[j].generationId.Some?
      ensures Unpublished(after, after.jobs[j].generationId.value)
    {
      assert Unpublished(s, s.jobs[j].generationId.value);
    }
    forall e | e in after.documents && after.documents[e].activeGeneration.Some? && after.documents[e].activeGeneration.value in after.generations
      ensures ChunkTableOf(after, e, after.documents[e].activeGeneration.value)
    {
      assert e in s.documents && after.documents[e] == s.documents[e];
      assert ChunkTableOf(s, e, s.documents[e].activeGeneration.value);
    }
  }

  /** The step only moves jobs, permissions, content versions or epochs. */
  ghost predicate RowsUntouched(s: State, after: State) {
    && Lineage.SameHistories(s, after)
    && after.vectors == s.vectors
    && after.chunks == s.chunks
    && after.deletedDocuments == s.deletedDocuments
    && s.issued <= after.issued
    && (forall j :: j in after.jobs && after.jobs[j].status == Running && after.jobs[j].generationId.Some? ==>
          || after.jobs[j].generationId.value !in s.issued
          || (j in s.jobs && s.jobs[j].status == Running && s.jobs[j].generationId == after.jobs[j].generationId))
  }

  lemma RowsUntouchedBy(s: State, e: Event)
    requires Fresh(s, e)
    requires !e.CreateDocument? && !e.DeleteDocument? && !e.Publish? && !e.TombstoneVectors?
    ensures RowsUntouched(s, Next(s, e))
  {
    Lineage.HistoriesKept(s, e);
    if QueueStep(e) {
      QueueTouchesOnlyJobs(s, e);
    }
    forall j | j in Next(s, e).jobs && Next(s, e).jobs[j].status == Running && Next(s, e).jobs[j].generationId.Some?
      ensures
        || Next(s, e).jobs[j].generationId.value !in s.issued
        || (j in s.jobs && s.jobs[j].status == Running && s.jobs[j].generationId == Next(s, e).jobs[j].generationId)
    {
      LeaseOrigin(s, e, j);
    }
  }

  lemma UntouchedVisible(s: State, after: State)
    requires VisibleInv(s) && RowsUntouched(s, after)
    ensures VisibleInv(after)
  {
    forall j | j in after.jobs && after.jobs[j].status == Running && after.jobs[j].generationId.Some?
      ensures Unpublished(after, after.jobs[j].generationId.value)
    {
      if after.jobs[j].generationId.value in s.issued {
        assert Unpublished(s, s.jobs[j].generationId.value);
      }
    }
    forall d | d in after.documents && after.documents[d].activeGeneration.Some? && after.documents[d].activeGeneration.value in after.generations
      ensures ChunkTableOf(after, d, after.documents[d].activeGeneration.value)
    {
      assert ChunkTableOf(s, d, s.documents[d].activeGeneration.value);
    }
  }

  lemma VisibleInvStep(s: State, e: Event)
    requires Leases.LeaseInv(s) && Lineage.LineageInv(s) && VisibleInv(s) && Fresh(s, e)
    requires e.Publish? ==> FromRunner(e.request)
    ensures VisibleInv(Next(s, e))
  {
    if e.Publish? {
      if Step(s, e).Ok? {
        PublishedEffect(s, e.request, e.start, e.commit);
        PublishedVisible(s, Next(s, e), e.request, e.request.job.generationId.value);
      }
    } else if e.TombstoneVectors? {
      TombstonedVisible(s, e.tenantId, e.d);
    } else if e.DeleteDocument? {
      DeletedVisible(s, e.tenantId, e.d);
    } else if e.CreateDocument? {
      if Step(s, e).Ok? {
        CreatedEffect(s, e);
        CreatedVisible(s, Next(s, e), e.d);
      }
    } else {
      RowsUntouchedBy(s, e);
      UntouchedVisible(s, Next(s, e));
    }
  }

  // ---------------------------------------------------------------- theorems over runs

  ghost predicate RunnerOnly(events: seq<Event>) {
    forall i :: 0 <= i < |events| && events[i].Publish? ==> FromRunner(events[i].request)
  }

  lemma {:induction false} VisibleAlways(states: seq<State>, events: seq<Event>, k: nat)
    requires Run(states, events) && RunnerOnly(events) && k < |states|
    ensures VisibleInv(states[k])
  {
    if k > 0 {
      VisibleAlways(states, events, k - 1);
      Leases.LeaseInvAlways(states, events, k - 1);
      Lineage.LineageAlways(states, events, k - 1);
      assert StepAt(states, events, k - 1);
      VisibleInvStep(states[k - 1], events[k - 1]);
    }
  }

  /** The rows are the chunks of this generation, every one of them, under the document's current permissions. */
  ghost predicate ExactlyGeneration(rows: map<Id, VectorRow>, permissions: Permissions, g: Id, generation: Generation) {
    && (forall c :: c in rows ==> ChunkIdIn(generation.chunks, c))
    && (forall i :: 0 <= i < |generation.chunks| ==>
          var chunk := generation.chunks[i];
          && chunk.id in rows
          && RowOf(rows[chunk.id], g, generation, chunk)
          && rows[chunk.id].payload.permissions == permissions
          && rows[chunk.id].scope == permissions.scope)
  }

  ghost predicate LiveHead(s: State, d: Id) {
    && d in s.documents
    && s.documents[d].activeGeneration.Some?
    && var g := s.documents[d].activeGeneration.value;
    && g in s.generations
    && s.generations[g].chunks != []
    && var first := s.generations[g].chunks[0].id;
    && first in s.vectors
    && !s.vectors[first].deleted
  }

  lemma ExposedRowsOfHead(s: State, d: Id, c: Id)
    requires Lineage.LineageInv(s) && VisibleInv(s)
    requires d in s.documents && s.documents[d].activeGeneration.Some?
    requires c in s.vectors && s.vectors[c].documentId == d && s.vectors[c].tenantId == s.documents[d].tenantId
    requires Exposed(s, s.vectors[c]) && !s.vectors[c].deleted
    ensures s.vectors[c].generationId == s.documents[d].activeGeneration
    ensures s.documents[d].activeGeneration.value in s.generations
    ensures ChunkIdIn(s.generations[s.documents[d].activeGeneration.value].chunks, c)
  {
    assert Lineage.IndexedAsHead(s.generations, s.documents[d]);
    assert Joined(s, s.vectors[c]);
  }

  lemma HeadRowsExposed(s: State, d: Id, g: Id, i: nat)
    requires Lineage.LineageInv(s) && VisibleInv(s)
    requires d in s.documents && s.documents[d].activeGeneration == Some(g) && g in s.generations && i < |s.generations[g].chunks|
    ensures
      var generation := s.generations[g];
      var c := generation.chunks[i].id;
      && generation.documentId == d
      && c in s.vectors
      && s.vectors[c].documentId == d
      && s.vectors[c].tenantId == s.documents[d].tenantId
      && Exposed(s, s.vectors[c])
      && s.vectors[c].deleted == !LiveHead(s, d)
      && RowOf(s.vectors[c], g, generation, generation.chunks[i])
  {
    Lineage.HeadOwned(s.generations, d, Some(g));
    assert Lineage.Linear(s.generations, d, Some(g));
    assert GenerationStored(s.vectors, g, s.generations[g]);
    assert ChunkStored(s.vectors, g, s.generations[g], i) && ChunkStored(s.vectors, g, s.generations[g], 0);
  }

  lemma ShownRowsAreOfHead(s: State, d: Id, c: Id)
    requires Lineage.LineageInv(s) && VisibleInv(s)
    requires d in s.documents && s.documents[d].activeGeneration.Some?
    requires c in Searchable(s, s.documents[d].tenantId, d)
    ensures s.documents[d].activeGeneration.value in s.generations
    ensures ChunkIdIn(s.generations[s.documents[d].activeGeneration.value].chunks, c) && LiveHead(s, d)
  {
    ExposedRowsOfHead(s, d, c);
    var g := s.documents[d].activeGeneration.value;
    var i :| 0 <= i < |s.generations[g].chunks| && s.generations[g].chunks[i].id == c;
    HeadRowsExposed(s, d, g, i);
  }

  lemma RowShown(s: State, d: Id, c: Id)
    requires d in s.documents && c in s.vectors && !s.vectors[c].deleted && Exposed(s, s.vectors[c])
    requires s.vectors[c].documentId == d && s.vectors[c].tenantId == s.documents[d].tenantId
    ensures
      var rows := Searchable(s, s.documents[d].tenantId, d);
      && c in rows && rows[c] == Overlay(s, s.vectors[c])
      && rows[c].payload.permissions == s.documents[d].permissions && rows[c].scope == s.documents[d].permissions.scope
  {
  }

  lemma HeadRowShown(s: State, d: Id, g: Id, i: nat)
    requires Lineage.LineageInv(s) && VisibleInv(s) && LiveHead(s, d)
    requires s.documents[d].activeGeneration == Some(g) && i < |s.generations[g].chunks|
    ensures
      var rows, chunk := Searchable(s, s.documents[d].tenantId, d), s.generations[g].chunks[i];
      && chunk.id in rows
      && RowOf(rows[chunk.id], g, s.generations[g], chunk)
      && rows[chunk.id].payload.permissions == s.documents[d].permissions
      && rows[chunk.id].scope == s.documents[d].permissions.scope
  {
    hide VisibleInv, Lineage.LineageInv, Searchable, Exposed;
    HeadRowsExposed(s, d, g, i);
    RowShown(s, d, s.generations[g].chunks[i].id);
  }

  ghost predicate ShowsHead(s: State, d: Id)
    requires d in s.documents && s.documents[d].activeGeneration.Some?
  {
    var row := s.documents[d];
    var g := row.activeGeneration.value;
    && g in s.generations
    && ChunkTableOf(s, d, g)
    && (if LiveHead(s, d)
        then ExactlyGeneration(Searchable(s, row.tenantId, d), row.permissions, g, s.generations[g])
        else Searchable(s, row.tenantId, d) == map[])
  }

  lemma WholeGenerationOrNothing(s: State, d: Id)
    requires Lineage.LineageInv(s) && VisibleInv(s)
    requires d in s.documents && s.documents[d].activeGeneration.Some?
    ensures ShowsHead(s, d)
  {
    var row := s.documents[d];
    var g := row.activeGeneration.value;
    assert g in s.generations by {
      assert Lineage.IndexedAsHead(s.generations, row);
    }
    assert ChunkTableOf(s, d, g);
    var rows := Searchable(s, row.tenantId, d);
    forall c | c in rows ensures ChunkIdIn(s.generations[g].chunks, c) && LiveHead(s, d) {
      ShownRowsAreOfHead(s, d, c);
    }
    if LiveHead(s, d) {
      forall i | 0 <= i < |s.generations[g].chunks|
        ensures
          var chunk := s.generations[g].chunks[i];
          && chunk.id in rows
          && RowOf(rows[chunk.id], g, s.generations[g], chunk)
          && rows[chunk.id].payload.permissions == row.permissions
          && rows[chunk.id].scope == row.permissions.scope
      {
        HeadRowShown(s, d, g, i);
      }
    }
  }

  /** Main theorem: in every reachable state a published document shows either its whole head generation,
      with the same chunks as the generation row and the chunks table and with current permissions, or nothing. */
  lemma PublishedDocumentsShowOneGeneration(states: seq<State>, events: seq<Event>, k: nat, d: Id)
    requires Run(states, events) && RunnerOnly(events) && k < |states|
    requires d in states[k].documents && states[k].documents[d].activeGeneration.Some?
    ensures ShowsHead(states[k], d)
  {
    Lineage.LineageAlways(states, events, k);
    VisibleAlways(states, events, k);
    WholeGenerationOrNothing(states[k], d);
  }

  ghost predicate Withdraws(e: Event, d: Id) {
    (e.TombstoneVectors? || e.DeleteDocument?) && e.d == d
  }

  lemma PublishedIsLive(s: State, after: State, r: Publication.Request, g: Id)
    requires PublishedRows(s, after, r, g)
    ensures LiveHead(after, r.document.id)
  {
  }

  lemma PublishKeepsLive(s: State, after: State, r: Publication.Request, g: Id, d: Id)
    requires PublishedRows(s, after, r, g) && LiveHead(s, d)
    requires s.vectors[s.generations[s.documents[d].activeGeneration.value].chunks[0].id].generationId.Some?
    ensures LiveHead(after, d)
  {
    if d == r.document.id {
      PublishedIsLive(s, after, r, g);
    }
  }

  lemma OtherDocumentsKeepLive(s: State, e: Event, d: Id)
    requires e.TombstoneVectors? || e.DeleteDocument? || e.CreateDocument?
    requires LiveHead(s, d) && !Withdraws(e, d)
    requires
      var g := s.documents[d].activeGeneration.value;
      s.generations[g].documentId == d && s.vectors[s.generations[g].chunks[0].id].documentId == d
    ensures LiveHead(Next(s, e), d)
  {
  }

  lemma UntouchedKeepLive(s: State, after: State, d: Id)
    requires RowsUntouched(s, after) && LiveHead(s, d)
    ensures LiveHead(after, d)
  {
  }

  lemma LiveHeadKept(s: State, e: Event, d: Id)
    requires VisibleInv(s) && Lineage.LineageInv(s) && Fresh(s, e)
    requires LiveHead(s, d) && !Withdraws(e, d)
    ensures LiveHead(Next(s, e), d)
  {
    hide VisibleInv, Lineage.LineageInv, Publication.Publish, Fresh;
    HeadRowsExposed(s, d, s.documents[d].activeGeneration.value, 0);
    if e.Publish? {
      if Step(s, e).Ok? {
        PublishedEffect(s, e.request, e.start, e.commit);
        PublishKeepsLive(s, Next(s, e), e.request, e.request.job.generationId.value, d);
      }
    } else if e.TombstoneVectors? || e.DeleteDocument? || e.CreateDocument? {
      OtherDocumentsKeepLive(s, e, d);
    } else {
      RowsUntouchedBy(s, e);
      UntouchedKeepLive(s, Next(s, e), d);
    }
  }

  lemma LiveHeadKeptAt(states: seq<State>, events: seq<Event>, k: nat, d: Id)
    requires Run(states, events) && RunnerOnly(events) && k < |events|
    requires LiveHead(states[k], d) && !Withdraws(events[k], d)
    ensures LiveHead(states[k + 1], d)
  {
    assert StepAt(states, events, k);
    Lineage.LineageAlways(states, events, k);
    VisibleAlways(states, events, k);
    LiveHeadKept(states[k], events[k], d);
  }

  ghost predicate NotWithdrawn(events: seq<Event>, d: Id, i: nat, k: nat)
    requires k <= |events|
  {
    forall m :: i <= m < k ==> !Withdraws(events[m], d)
  }

  lemma LiveAfterPublication(states: seq<State>, events: seq<Event>, i: nat)
    requires Run(states, events) && i < |events|
    requires events[i].Publish? && Step(states[i], events[i]).Ok?
    ensures LiveHead(states[i + 1], events[i].request.document.id)
  {
    assert StepAt(states, events, i);
    var s, e := states[i], events[i];
    PublishedEffect(s, e.request, e.start, e.commit);
    PublishedIsLive(s, Next(s, e), e.request, e.request.job.generationId.value);
  }

  /** Once published, a document stays searchable (at its then head generation) until its vectors are
      tombstoned or it is deleted, whatever else happens in between. */
  lemma {:induction false} SearchableUntilWithdrawn(states: seq<State>, events: seq<Event>, i: nat, k: nat, d: Id)
    requires Run(states, events) && RunnerOnly(events) && i < k < |states|
    requires events[i].Publish? && events[i].request.document.id == d && Step(states[i], events[i]).Ok?
    requires NotWithdrawn(events, d, i, k)
    ensures LiveHead(states[k], d)
    decreases k
  {
    hide Step, Next, LiveHead, StepAt, Init, RunnerOnly;
    if k == i + 1 {
      LiveAfterPublication(states, events, i);
    } else {
      assert !Withdraws(events[k - 1], d);
      SearchableUntilWithdrawn(states, events, i, k - 1, d);
      LiveHeadKeptAt(states, events, k - 1, d);
    }
  }

  /** Chunk ids are never shared between two generations, of one document or of two. */
  lemma ChunkIdsDistinctAcrossGenerations(states: seq<State>, events: seq<Event>, k: nat, g: Id, h: Id, i: nat, j: nat)
    requires Run(states, events) && RunnerOnly(events) && k < |states|
    requires g in states[k].generations && h in states[k].generations
    requires i < |states[k].generations[g].chunks| && j < |states[k].generations[h].chunks|
    requires states[k].generations[g].chunks[i].id == states[k].generations[h].chunks[j].id
    ensures g == h && i == j
  {
    VisibleAlways(states, events, k);
    var s := states[k];
    assert GenerationStored(s.vectors, g, s.generations[g]) && GenerationStored(s.vectors, h, s.generations[h]);
    assert ChunkStored(s.vectors, g, s.generations[g], i) && ChunkStored(s.vectors, h, s.generations[h], j);
  }

  lemma DeletionRecorded(s: State, e: Event)
    ensures forall d :: d in s.deletedDocuments ==> d in Next(s, e).deletedDocuments && Next(s, e).deletedDocuments[d] == s.deletedDocuments[d]
  {
  }

  lemma {:induction false} DeletionRemembered(states: seq<State>, events: seq<Event>, i: nat, k: nat, d: Id)
    requires Run(states, events) && i <= k < |states| && d in states[i].deletedDocuments
    ensures d in states[k].deletedDocuments && states[k].deletedDocuments[d] == states[i].deletedDocuments[d]
  {
    if i < k {
      DeletionRemembered(states, events, i, k - 1, d);
      assert StepAt(states, events, k - 1);
      DeletionRecorded(states[k - 1], events[k - 1]);
    }
  }

  /** Once the document row is gone nothing of it is ever visible again, even if a publication slipped in
      between the tombstoning of its vectors and the removal of the row. */
  lemma RemovedDocumentStaysInvisible(states: seq<State>, events: seq<Event>, i: nat, k: nat, tenantId: Id, d: Id)
    requires Run(states, events) && RunnerOnly(events) && i < k < |states|
    requires events[i] == Event.DeleteDocument(tenantId, d)
    requires d in states[i].documents && states[i].documents[d].tenantId == tenantId
    ensures d !in states[k].documents
    ensures Searchable(states[k], tenantId, d) == map[]
  {
    VisibleAlways(states, events, i);
    VisibleAlways(states, events, k);
    assert StepAt(states, events, i);
    assert d !in states[i].deletedDocuments;
    DeletionRemembered(states, events, i + 1, k, d);
  }
}
