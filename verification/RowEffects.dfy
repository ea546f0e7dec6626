/** What each step writes, column by column, and what that means for later steps: how long a lease holds, which vector a
    chunk is stored with, what a removal leaves. */
module RowEffects {
  import opened Prelude
  import opened IngestTables
  import opened IngestRuns
  import Catalogue
  import CorpusEpochs
  import Leases
  import Publication
  import TaskQueue
  import Visibility

  const MICROSECONDS: int := 1_000_000

  // ---------------------------------------------------------------- leases

  /** The lease of the job as every worker update reads it. */
  predicate LeaseUntil(job: Job, token: Id, end: int) {
    job.status == Running && job.leaseToken == Some(token) && job.leaseExpiresAt == Some(end)
  }

  /** A lease is good for every operation before its end, for none from then on, and for no other token. */
  lemma LeaseMeans(jobs: map<Id, Job>, j: Id, token: Id, end: int)
    requires j in jobs && LeaseUntil(jobs[j], token, end)
    ensures forall t: int :: TaskQueue.Holds(jobs, j, token, t) <==> t < end
    ensures forall t: int, other: Id :: other != token ==> !TaskQueue.Holds(jobs, j, other, t)
  {
  }

  /** The reaper takes exactly the unlocked running jobs whose lease has ended. */
  lemma ReapedExactly(s: State, maxAttempts: nat, now: int, locked: set<Id>, j: Id, token: Id, end: int)
    requires j in s.jobs && LeaseUntil(s.jobs[j], token, end)
    ensures
      var after := Next(s, ReapExpired(maxAttempts, now, locked));
      && j in after.jobs
      && (after.jobs[j] == s.jobs[j] <==> now < end || j in locked)
      && (end <= now && j !in locked ==> after.jobs[j].status != Running && after.jobs[j].leaseToken.None?)
  {
  }

  /** The oldest due job that is not locked. */
  ghost predicate OldestDue(jobs: map<Id, Job>, now: int, locked: set<Id>, j: Id) {
    && j in jobs && j !in locked && jobs[j].status == Queued && jobs[j].availableAt <= now
    && forall k :: k in jobs && k !in locked && jobs[k].status == Queued && jobs[k].availableAt <= now ==>
         jobs[j].createdAt <= jobs[k].createdAt
  }

  lemma NextDueMeans(jobs: map<Id, Job>, now: int, locked: set<Id>, j: Id)
    ensures TaskQueue.NextDue(jobs, now, locked, j) <==> OldestDue(jobs, now, locked, j)
  {
  }

  /** A claim takes the oldest due job that is not locked, and its lease holds for exactly the seconds asked for. */
  lemma ClaimLasts(s: State, j: Id, now: int, locked: set<Id>, token: Id, generation: Id, leaseSeconds: nat)
    ensures
      var after := Next(s, Claim(j, now, locked, token, generation, leaseSeconds));
      if OldestDue(s.jobs, now, locked, j) then
        && after == s.(jobs := after.jobs, issued := s.issued + {token, generation})
        && after.jobs == s.jobs[j := s.jobs[j].(status := Running, leaseToken := Some(token), generationId := Some(generation),
                                                leaseExpiresAt := Some(now + leaseSeconds * MICROSECONDS))]
        && (forall t: int :: TaskQueue.Holds(after.jobs, j, token, t) <==> t < now + leaseSeconds * MICROSECONDS)
      else after == s
  {
    hide TaskQueue.NextDue, OldestDue;
    NextDueMeans(s.jobs, now, locked, j);
    assert OldestDue(s.jobs, now, locked, j) ==> j in s.jobs by { OldestIsThere(s.jobs, now, locked, j); }
  }

  lemma OldestIsThere(jobs: map<Id, Job>, now: int, locked: set<Id>, j: Id)
    ensures OldestDue(jobs, now, locked, j) ==> j in jobs && jobs[j].status == Queued
  {
  }

  /** A renewal moves the end of the lease, and nothing else, to so many seconds from now: until then every operation with
      the token is accepted and no reaper takes the job. */
  lemma RenewalLasts(s: State, j: Id, token: Id, clock: int, leaseSeconds: nat)
    requires Step(s, Renew(j, token, clock, leaseSeconds)).Ok?
    ensures
      var after := Next(s, Renew(j, token, clock, leaseSeconds));
      var end := clock + leaseSeconds * MICROSECONDS;
      && j in s.jobs && after == s.(jobs := after.jobs)
      && after.jobs == s.jobs[j := s.jobs[j].(leaseExpiresAt := Some(end))]
      && (forall t: int :: TaskQueue.Holds(after.jobs, j, token, t) <==> t < end)
      && (forall maxAttempts: nat, now: int, locked: set<Id> :: now < end ==>
            Next(after, ReapExpired(maxAttempts, now, locked)).jobs[j] == after.jobs[j])
  {
    var after := Next(s, Renew(j, token, clock, leaseSeconds));
    var end := clock + leaseSeconds * MICROSECONDS;
    LeaseMeans(after.jobs, j, token, end);
    forall maxAttempts: nat, now: int, locked: set<Id> | now < end
      ensures Next(after, ReapExpired(maxAttempts, now, locked)).jobs[j] == after.jobs[j]
    {
      ReapedExactly(after, maxAttempts, now, locked, j, token, end);
    }
  }

  /** The worker updates are accepted exactly from the holder of a lease that has not ended. */
  lemma UpdatesExactlyWhen(s: State, j: Id, token: Id, clock: int, stage: string, maxAttempts: nat, now: int, leaseSeconds: nat)
    ensures
      var held := && j in s.jobs && s.jobs[j].status == Running && s.jobs[j].leaseToken == Some(token)
                  && s.jobs[j].leaseExpiresAt.Some? && clock < s.jobs[j].leaseExpiresAt.value;
      && (Step(s, SetStage(j, stage, token, clock)).Ok? <==> held)
      && (Step(s, Renew(j, token, clock, leaseSeconds)).Ok? <==> held)
      && (Step(s, Complete(j, token, clock)).Ok? <==> held)
      && (Step(s, RetryOrDead(j, maxAttempts, token, now, clock)).Ok? <==> held)
      && (!held ==>
            && Step(s, SetStage(j, stage, token, clock)) == Err(StaleLease)
            && Step(s, Renew(j, token, clock, leaseSeconds)) == Err(StaleLease)
            && Step(s, Complete(j, token, clock)) == Err(StaleLease)
            && Step(s, RetryOrDead(j, maxAttempts, token, now, clock)) == Err(StaleLease))
  {
  }

  /** What the accepted updates write. */
  lemma UpdatesWrite(s: State, j: Id, token: Id, clock: int, stage: string)
    requires TaskQueue.Holds(s.jobs, j, token, clock)
    ensures j in s.jobs
    ensures Next(s, SetStage(j, stage, token, clock)) == s.(jobs := s.jobs[j := s.jobs[j].(stage := stage)])
    ensures
      Next(s, Complete(j, token, clock))
      == s.(jobs := s.jobs[j := s.jobs[j].(status := Done, stage := "done", leaseToken := None, leaseExpiresAt := None)])
  {
  }

  /** A failed job: one attempt more, no lease, and queued or dead; nothing else about it changes. */
  predicate FailedJob(before: Job, after: Job, maxAttempts: nat, now: int) {
    var attempts := before.attempts + 1;
    && after == before.(attempts := attempts, status := after.status, leaseToken := None, leaseExpiresAt := None,
                        availableAt := now + TaskQueue.RetryDelaySeconds(attempts) * MICROSECONDS)
    && after.status == (if attempts >= maxAttempts then Dead else Queued)
  }

  lemma FailuresWrite(s: State, j: Id, token: Id, clock: int, maxAttempts: nat, now: int, locked: set<Id>)
    ensures
      var after := Next(s, RetryOrDead(j, maxAttempts, token, now, clock));
      TaskQueue.Holds(s.jobs, j, token, clock) ==>
        && after == s.(jobs := after.jobs) && j in after.jobs && after.jobs == s.jobs[j := after.jobs[j]]
        && FailedJob(s.jobs[j], after.jobs[j], maxAttempts, now)
    ensures
      var after := Next(s, ReapExpired(maxAttempts, now, locked));
      && after == s.(jobs := after.jobs) && after.jobs.Keys == s.jobs.Keys
      && forall k :: k in s.jobs ==>
           if (&& s.jobs[k].status == Running && s.jobs[k].leaseExpiresAt.Some?
               && s.jobs[k].leaseExpiresAt.value <= now && k !in locked)
           then FailedJob(s.jobs[k], after.jobs[k], maxAttempts, now) else after.jobs[k] == s.jobs[k]
  {
    hide TaskQueue.RetryDelaySeconds;
  }

  /** Putting a job back by hand: queued from now on, without a lease, refused beside another active job. */
  lemma EnqueueWrites(s: State, j: Id, now: int)
    ensures
      var step := Step(s, Enqueue(j, now));
      if j !in s.jobs then step == Ok(s)
      else if (&& s.jobs[j].status != Queued && s.jobs[j].status != Running
               && exists k :: k in s.jobs && s.jobs[k].documentId == s.jobs[j].documentId
                              && (s.jobs[k].status == Queued || s.jobs[k].status == Running))
      then step == Err(UniqueViolation)
      else step == Ok(s.(jobs := s.jobs[j := s.jobs[j].(status := Queued, availableAt := now, leaseToken := None)]))
  {
  }

  /** Nothing is done in the name of the lease, the job is neither put back nor removed, and the reaper passes before the
      end of the lease or while the row is locked. */
  predicate LeavesLease(e: Event, j: Id, job: Job, token: Id, end: int) {
    && !Leases.Bears(e, j, token)
    && (e.Enqueue? ==> e.j != j)
    && (e.DeleteDocument? ==> e.d != job.documentId)
    && (e.ReapExpired? ==> e.now < end || j in e.locked)
  }

  lemma LeaseStep(s: State, e: Event, j: Id, token: Id, end: int)
    requires j in s.jobs && LeaseUntil(s.jobs[j], token, end) && LeavesLease(e, j, s.jobs[j], token, end)
    ensures j in Next(s, e).jobs && Next(s, e).jobs[j] == s.jobs[j]
  {
    hide Next, LeavesLease, LeaseUntil;
    if e.SetStage? || e.Renew? || e.Complete? || e.RetryOrDead? || e.Publish? {
      OtherHolderStep(s, e, j, token, end);
    } else if e.ReapExpired? || e.Claim? || e.Enqueue? {
      QueueStepLeavesLease(s, e, j, token, end);
    } else {
      CatalogueLeavesLease(s, e, j, token, end);
    }
  }

  lemma OtherHolderStep(s: State, e: Event, j: Id, token: Id, end: int)
    requires e.SetStage? || e.Renew? || e.Complete? || e.RetryOrDead? || e.Publish?
    requires j in s.jobs && LeaseUntil(s.jobs[j], token, end) && LeavesLease(e, j, s.jobs[j], token, end)
    ensures j in Next(s, e).jobs && Next(s, e).jobs[j] == s.jobs[j]
  {
    hide Next, Step;
    NextOfStep(s, e);
    if e.Publish? {
      PublishStepIs(s, e);
      if Step(s, e).Ok? {
        PublicationWritesHead(s, e.request, e.start, e.commit);
        PublicationHeld(s, e.request, e.start, e.commit);
      }
    } else {
      OtherWorkerStep(s, e, j, token, end);
    }
  }

  lemma PublishStepIs(s: State, e: Event)
    requires e.Publish?
    ensures Step(s, e) == Publication.Publish(s, e.request, e.start, e.commit)
  {
    hide Publication.Publish;
  }

  lemma OtherWorkerStep(s: State, e: Event, j: Id, token: Id, end: int)
    requires e.SetStage? || e.Renew? || e.Complete? || e.RetryOrDead?
    requires j in s.jobs && LeaseUntil(s.jobs[j], token, end) && LeavesLease(e, j, s.jobs[j], token, end)
    ensures j in Next(s, e).jobs && Next(s, e).jobs[j] == s.jobs[j]
  {
  }

  lemma PublicationHeld(s: State, r: Publication.Request, start: int, commit: int)
    requires Publication.Publish(s, r, start, commit).Ok?
    ensures r.job.leaseToken.Some? && TaskQueue.Holds(s.jobs, r.jobId, r.job.leaseToken.value, commit)
  {
    hide Publication.Accepted, InsertAll, Publication.NewVectorRows, Publication.NewChunkRows, Publication.WithoutChunksOf;
  }

  lemma QueueStepLeavesLease(s: State, e: Event, j: Id, token: Id, end: int)
    requires e.ReapExpired? || e.Claim? || e.Enqueue?
    requires j in s.jobs && LeaseUntil(s.jobs[j], token, end) && LeavesLease(e, j, s.jobs[j], token, end)
    ensures j in Next(s, e).jobs && Next(s, e).jobs[j] == s.jobs[j]
  {
    hide Next;
    if e.ReapExpired? {
      ReapedExactly(s, e.maxAttempts, e.now, e.locked, j, token, end);
    } else if e.Claim? {
      ClaimLasts(s, e.j, e.now, e.locked, e.token, e.generation, e.leaseSeconds);
      OldestIsThere(s.jobs, e.now, e.locked, e.j);
    } else {
      EnqueueWrites(s, e.j, e.now);
      NextOfStep(s, e);
    }
  }

  lemma NextOfStep(s: State, e: Event)
    ensures Step(s, e).Ok? ==> Next(s, e) == Step(s, e).value
    ensures Step(s, e).Err? ==> Next(s, e) == s
  {
  }

  lemma CatalogueLeavesLease(s: State, e: Event, j: Id, token: Id, end: int)
    requires e.CreateDocument? || e.UpdateContent? || e.CreateJob? || e.UpdateAccess? || e.TombstoneVectors? || e.DeleteDocument?
    requires j in s.jobs && LeaseUntil(s.jobs[j], token, end) && LeavesLease(e, j, s.jobs[j], token, end)
    ensures j in Next(s, e).jobs && Next(s, e).jobs[j] == s.jobs[j]
  {
  }

  /** A lease is the holder's until it ends: over every run the job stays as it is while its holder does nothing, nobody puts
      it back or removes its document, and no reaper passes at or after the end, whatever all others do. */
  lemma {:induction false} LeaseKept(states: seq<State>, events: seq<Event>, i: nat, k: nat, j: Id, token: Id, end: int)
    requires Run(states, events) && i <= k < |states|
    requires j in states[i].jobs && LeaseUntil(states[i].jobs[j], token, end)
    requires forall m :: i <= m < k ==> LeavesLease(events[m], j, states[i].jobs[j], token, end)
    ensures j in states[k].jobs && states[k].jobs[j] == states[i].jobs[j]
    decreases k - i
  {
    hide Next, Init, Fresh, LeavesLease, LeaseUntil;
    if i < k {
      LeaseKept(states, events, i, k - 1, j, token, end);
      assert StepAt(states, events, k - 1);
      LeaseStep(states[k - 1], events[k - 1], j, token, end);
    }
  }

  // ---------------------------------------------------------------- publication

  /** The row of one chunk of a publication, column by column. */
  predicate StoredRow(row: VectorRow, r: Publication.Request, i: nat, g: Id, permissions: Permissions)
    requires i < |r.points|
  {
    var point := r.points[i];
    && row.tenantId == r.document.tenantId && row.documentId == r.document.id && row.scope == permissions.scope
    && !row.deleted && row.generationId == Some(g)
    && row.embedding == point.vector
    && row.payload == Payload(point.payload.documentId, point.payload.content, permissions, r.document.version, Some(g), Some(r.profileId))
  }

  /** The columns of a chunk row. */
  predicate StoredChunk(row: ChunkRow, r: Publication.Request, i: nat, g: Id)
    requires i < |r.chunks|
  {
    row == ChunkRow(r.document.tenantId, r.document.id, r.chunks[i], Some(g))
  }

  /** Every chunk is stored with its own point's vector, which is finite and has the configured dimension. */
  lemma PublicationStoresRows(s: State, r: Publication.Request, start: int, commit: int)
    requires Publication.Publish(s, r, start, commit).Ok?
    ensures |r.chunks| == |r.points| && r.job.generationId.Some? && r.document.id in s.documents
    ensures
      var after := Publication.Publish(s, r, start, commit).value;
      var permissions := s.documents[r.document.id].permissions;
      forall i :: 0 <= i < |r.chunks| ==>
        && r.chunks[i].id !in s.vectors && r.chunks[i].id in after.vectors && r.chunks[i].id in after.chunks
        && StoredRow(after.vectors[r.chunks[i].id], r, i, r.job.generationId.value, permissions)
        && StoredChunk(after.chunks[r.chunks[i].id], r, i, r.job.generationId.value)
  {
    hide Publication.Publish, Publication.NewVectorRow, Publication.NewChunkRow;
    Visibility.PublishRows(s, r, start, commit);
    Visibility.PublishChunks(s, r, start, commit);
    var g, current := r.job.generationId.value, s.documents[r.document.id];
    forall i | 0 <= i < |r.chunks|
      ensures StoredRow(Publication.NewVectorRow(r, g, current, r.chunks[i], r.points[i]).1, r, i, g, current.permissions)
      ensures StoredChunk(Publication.NewChunkRow(r, g, r.chunks[i]).1, r, i, g)
    {
      NewRowColumns(r, i, g, current);
    }
  }

  lemma NewRowColumns(r: Publication.Request, i: nat, g: Id, current: Document)
    requires i < |r.chunks| == |r.points|
    ensures StoredRow(Publication.NewVectorRow(r, g, current, r.chunks[i], r.points[i]).1, r, i, g, current.permissions)
    ensures StoredChunk(Publication.NewChunkRow(r, g, r.chunks[i]).1, r, i, g)
  {
  }

  /** All other rows stay, but for rows of the document that predate publication, which are marked deleted, and its earlier
      chunk rows, which go. */
  lemma PublicationKeepsOthers(s: State, r: Publication.Request, start: int, commit: int)
    requires Publication.Publish(s, r, start, commit).Ok?
    ensures
      var after := Publication.Publish(s, r, start, commit).value;
      && (forall c :: c in s.vectors ==>
            && c in after.vectors
            && after.vectors[c] == s.vectors[c].(deleted :=
                 s.vectors[c].deleted || (&& s.vectors[c].documentId == r.document.id && s.vectors[c].tenantId == r.document.tenantId
                                          && s.vectors[c].generationId.None?)))
      && (forall c :: c in after.vectors && c !in s.vectors ==> exists i :: 0 <= i < |r.chunks| && r.chunks[i].id == c)
      && (forall c :: c in after.chunks ==>
            || (exists i :: 0 <= i < |r.chunks| && r.chunks[i].id == c)
            || (c in s.chunks && after.chunks[c] == s.chunks[c]
                && (s.chunks[c].documentId != r.document.id || s.chunks[c].tenantId != r.document.tenantId)))
      && (forall c :: c in s.chunks && (s.chunks[c].documentId != r.document.id || s.chunks[c].tenantId != r.document.tenantId) ==>
            c in after.chunks && after.chunks[c] == s.chunks[c])
  {
    hide Publication.Publish, Publication.NewVectorRow, Publication.NewChunkRow;
    Visibility.PublishRows(s, r, start, commit);
    Visibility.PublishChunks(s, r, start, commit);
    var after := Publication.Publish(s, r, start, commit).value;
    forall c | c in after.vectors && c !in s.vectors ensures exists i :: 0 <= i < |r.chunks| && r.chunks[i].id == c {
      assert Visibility.ChunkIdIn(r.chunks, c);
    }
    forall c | c in after.chunks
      ensures || (exists i :: 0 <= i < |r.chunks| && r.chunks[i].id == c)
              || (c in s.chunks && after.chunks[c] == s.chunks[c]
                  && (s.chunks[c].documentId != r.document.id || s.chunks[c].tenantId != r.document.tenantId))
    {
    }
  }

  /** The generation, the document, the epoch and the job after a publication; nothing else of these tables changes. */
  lemma PublicationWritesHead(s: State, r: Publication.Request, start: int, commit: int)
    requires Publication.Publish(s, r, start, commit).Ok?
    ensures r.job.generationId.Some? && r.document.id in s.documents && r.jobId in s.jobs
    ensures
      var after, d, g := Publication.Publish(s, r, start, commit).value, r.document.id, r.job.generationId.value;
      var before, key := s.documents[d], if s.documents[d].permissions.scope == GlobalScope then GlobalKey else TenantKey(r.document.tenantId);
      && g !in s.generations
      && after.generations == s.generations[g := Generation(d, r.document.tenantId, r.jobId, r.document.version, r.document.contentSha,
                                                            r.document.blobPath, before.activeGeneration, r.chunks, r.profileId)]
      && after.documents == s.documents[d := before.(activeGeneration := Some(g), indexedVersion := Some(r.document.version))]
      && after.epochs == s.epochs[key := CorpusEpochs.Revision(s, key) + 1]
      && after.jobs == s.jobs[r.jobId := s.jobs[r.jobId].(status := Done, stage := "done", leaseToken := None, leaseExpiresAt := None)]
      && after.deletedDocuments == s.deletedDocuments && after.profile == s.profile && after.issued == s.issued
  {
    hide Publication.Accepted, InsertAll, Publication.NewVectorRows, Publication.NewChunkRows, Publication.WithoutChunksOf;
  }

  /** The two updates that concern a document's earlier rows, on their own. */
  lemma EarlierRows(s: State, d: Id, tenantId: Id)
    ensures
      var retired := Publication.RetireUnversioned(s.vectors, d, tenantId);
      && (forall c :: c in retired <==> c in s.vectors)
      && forall c :: c in s.vectors ==>
           retired[c] == s.vectors[c].(deleted :=
             s.vectors[c].deleted || (s.vectors[c].documentId == d && s.vectors[c].tenantId == tenantId && s.vectors[c].generationId == None))
    ensures
      var kept := Publication.WithoutChunksOf(s.chunks, d, tenantId);
      && (forall c :: c in kept <==> c in s.chunks && (s.chunks[c].documentId != d || s.chunks[c].tenantId != tenantId))
      && forall c :: c in kept ==> kept[c] == s.chunks[c]
  {
  }

  /** What is asked of the chunks and points of a publication. */
  lemma AcceptedMeans(r: Publication.Request)
    ensures Publication.Accepted(r) <==>
              && r.chunks != [] && |r.chunks| == |r.points|
              && forall i :: 0 <= i < |r.chunks| ==>
                   && r.points[i].chunkId == r.chunks[i].id && r.points[i].tenantId == r.document.tenantId
                   && r.chunks[i].contentSha == Sha256(r.chunks[i].text)
                   && |r.points[i].vector| == r.dimensions
                   && forall k :: 0 <= k < |r.points[i].vector| ==> r.points[i].vector[k].Finite?
  {
    if Publication.Accepted(r) {
      forall i | 0 <= i < |r.chunks| ensures Publication.PairAccepted(r, r.chunks[i], r.points[i]) {
      }
    }
  }

  /** The row was stored by the m-th step, for the i-th chunk of its publication, with that chunk's finite vector of the
      dimension configured then. */
  ghost predicate StoredBy(states: seq<State>, events: seq<Event>, m: nat, i: nat, c: Id, row: VectorRow)
    requires |states| == |events| + 1 && m < |events|
  {
    && events[m].Publish? && Step(states[m], events[m]).Ok?
    && var r := events[m].request;
       && i < |r.chunks| == |r.points| && r.chunks[i].id == c && row.generationId == r.job.generationId
       && row.embedding == r.points[i].vector && |row.embedding| == r.dimensions
       && (forall k :: 0 <= k < |row.embedding| ==> row.embedding[k].Finite?)
       && row.payload.content == r.points[i].payload.content && row.documentId == r.document.id
  }

  lemma NewRowsArePublished(s: State, e: Event, c: Id)
    requires c in Next(s, e).vectors && c !in s.vectors
    ensures e.Publish? && Step(s, e).Ok? && Next(s, e) == Step(s, e).value
  {
    if QueueStep(e) {
      QueueTouchesOnlyJobs(s, e);
    }
  }

  lemma PublishedRowStored(states: seq<State>, events: seq<Event>, m: nat, c: Id) returns (i: nat)
    requires |states| == |events| + 1 && m < |events| && states[m + 1] == Next(states[m], events[m])
    requires c in states[m + 1].vectors && c !in states[m].vectors
    ensures StoredBy(states, events, m, i, c, states[m + 1].vectors[c])
  {
    hide Next, Step, Publication.Publish, Publication.Accepted;
    NewRowsArePublished(states[m], events[m], c);
    PublishStepIs(states[m], events[m]);
    var r, start, commit := events[m].request, events[m].start, events[m].commit;
    PublicationStoresRows(states[m], r, start, commit);
    PublicationKeepsOthers(states[m], r, start, commit);
    PublicationAccepted(states[m], r, start, commit);
    AcceptedMeans(r);
    i :| 0 <= i < |r.chunks| && r.chunks[i].id == c;
    assert StoredRow(states[m + 1].vectors[c], r, i, r.job.generationId.value, states[m].documents[r.document.id].permissions);
  }

  lemma PublicationAccepted(s: State, r: Publication.Request, start: int, commit: int)
    requires Publication.Publish(s, r, start, commit).Ok?
    ensures Publication.Accepted(r)
  {
    hide Publication.Accepted, InsertAll, Publication.NewVectorRows, Publication.NewChunkRows, Publication.WithoutChunksOf;
  }

  lemma KeptRowStored(states: seq<State>, events: seq<Event>, m: nat, i: nat, c: Id, row: VectorRow, later: VectorRow)
    requires |states| == |events| + 1 && m < |events| && StoredBy(states, events, m, i, c, row)
    requires later.(deleted := false) == row.(deleted := false)
    ensures StoredBy(states, events, m, i, c, later)
  {
    hide Step;
    assert later == row.(deleted := later.deleted);
  }

  /** Over every run each row of a generation carries the vector its own chunk was published with. */
  lemma {:induction false} RowsCarryTheirVectors(states: seq<State>, events: seq<Event>, k: nat, c: Id) returns (m: nat, i: nat)
    requires Run(states, events) && k < |states| && c in states[k].vectors && states[k].vectors[c].generationId.Some?
    ensures m < k && StoredBy(states, events, m, i, c, states[k].vectors[c])
    decreases k
  {
    hide Next, Fresh, StoredBy;
    if k > 0 {
      assert StepAt(states, events, k - 1);
      if c in states[k - 1].vectors {
        CorpusEpochs.StepKeepsRows(states[k - 1], events[k - 1]);
        m, i := RowsCarryTheirVectors(states, events, k - 1, c);
        KeptRowStored(states, events, m, i, c, states[k - 1].vectors[c], states[k].vectors[c]);
      } else {
        m := k - 1;
        i := PublishedRowStored(states, events, m, c);
      }
    }
  }

  /** With one dimension configured throughout, every row of a generation has it. */
  lemma RowsHaveDimension(states: seq<State>, events: seq<Event>, k: nat, c: Id, dimensions: nat)
    requires Run(states, events) && k < |states| && c in states[k].vectors && states[k].vectors[c].generationId.Some?
    requires forall m :: 0 <= m < |events| && events[m].Publish? ==> events[m].request.dimensions == dimensions
    ensures |states[k].vectors[c].embedding| == dimensions
    ensures forall i :: 0 <= i < dimensions ==> states[k].vectors[c].embedding[i].Finite?
  {
    hide Step, Init, StepAt;
    var m, i := RowsCarryTheirVectors(states, events, k, c);
  }

  // ---------------------------------------------------------------- documents and jobs

  /** A queued or running job of the document exists. */
  ghost predicate Busy(s: State, d: Id) {
    exists j :: j in s.jobs && s.jobs[j].documentId == d && (s.jobs[j].status == Queued || s.jobs[j].status == Running)
  }

  lemma BusyMeans(s: State, d: Id)
    ensures HasActiveJob(s.jobs, d) <==> Busy(s, d)
  {
  }

  /** A job for this content: queued from now on, no attempt made, pinned to the version. */
  function QueuedJob(d: Id, tenantId: Id, now: int, content: Catalogue.Content, version: nat): Job {
    Job(documentId := d, tenantId := tenantId, createdAt := now, stage := "parse", status := Queued, attempts := 0,
        availableAt := now, leaseToken := None, leaseExpiresAt := None, generationId := None,
        blobPath := Some(content.blobPath), contentSha := Some(content.sha), version := Some(version))
  }

  lemma CreationWrites(s: State, d: Id, tenantId: Id, permissions: Permissions, content: Catalogue.Content, j: Id, now: int)
    ensures
      Step(s, CreateDocument(d, tenantId, permissions, content, j, now))
      == if d in s.documents || j in s.jobs || Busy(s, d) then Err(UniqueViolation)
         else Ok(s.(documents := s.documents[d := Document(tenantId := tenantId, permissions := permissions, blobPath := content.blobPath,
                                                           contentSha := content.sha, version := 1, indexedVersion := None,
                                                           activeGeneration := None)],
                    jobs := s.jobs[j := QueuedJob(d, tenantId, now, content, 1)]))
  {
    hide HasActiveJob;
    BusyMeans(s, d);
  }

  /** The epoch row that a change of this document advances: the global one when it is or becomes global. */
  function ChangedScope(tenantId: Id, before: Scope, after: Scope): ScopeKey {
    if before == TenantScope && after == TenantScope then TenantKey(tenantId) else GlobalKey
  }

  lemma UpdateWrites(s: State, tenantId: Id, d: Id, content: Catalogue.Content, visibility: IngestTables.Visibility, scope: Scope, j: Id,
                     expectedVersion: Option<nat>, now: int)
    ensures
      var step := Step(s, UpdateContent(tenantId, d, content, visibility, scope, j, expectedVersion, now));
      if d !in s.documents || s.documents[d].tenantId != tenantId || Busy(s, d) then step == Err(Conflict)
      else if expectedVersion.Some? && s.documents[d].version != expectedVersion.value then step == Err(Conflict)
      else if j in s.jobs then step == Err(UniqueViolation)
      else
        var before := s.documents[d];
        var key := ChangedScope(tenantId, before.permissions.scope, scope);
        step == Ok(s.(documents := s.documents[d := Document(
                                     tenantId := tenantId, blobPath := content.blobPath, contentSha := content.sha,
                                     permissions := Permissions(before.permissions.ownerId, visibility, before.permissions.aclUserIds, scope),
                                     version := before.version + 1, indexedVersion := before.indexedVersion,
                                     activeGeneration := before.activeGeneration)],
                      jobs := s.jobs[j := QueuedJob(d, tenantId, now, content, before.version + 1)],
                      epochs := s.epochs[key := CorpusEpochs.Revision(s, key) + 1]))
  {
    hide HasActiveJob;
    BusyMeans(s, d);
  }

  lemma RequeueWrites(s: State, tenantId: Id, d: Id, j: Id, now: int)
    ensures
      var step := Step(s, CreateJob(tenantId, d, j, now));
      if d !in s.documents || s.documents[d].tenantId != tenantId || Busy(s, d) then step == Err(Conflict)
      else if j in s.jobs then step == Err(UniqueViolation)
      else
        var row := s.documents[d];
        step == Ok(s.(jobs := s.jobs[j := QueuedJob(d, tenantId, now, Catalogue.Content(row.blobPath, row.contentSha), row.version)]))
  {
    hide HasActiveJob;
    BusyMeans(s, d);
  }

  lemma AccessWrites(s: State, tenantId: Id, d: Id, visibility: IngestTables.Visibility, scope: Scope)
    ensures
      var step := Step(s, UpdateAccess(tenantId, d, visibility, scope));
      if d !in s.documents || s.documents[d].tenantId != tenantId then step == Err(InvalidInput)
      else
        var before := s.documents[d].permissions;
        var key := ChangedScope(tenantId, before.scope, scope);
        step == Ok(s.(documents := s.documents[d := s.documents[d].(permissions := Permissions(before.ownerId, visibility, before.aclUserIds, scope))],
                      epochs := s.epochs[key := CorpusEpochs.Revision(s, key) + 1]))
  {
  }

  /** The first half of a removal. */
  lemma TombstonesWrite(s: State, tenantId: Id, d: Id)
    ensures
      var after := Next(s, TombstoneVectors(tenantId, d));
      && after == s.(vectors := after.vectors) && after.vectors.Keys == s.vectors.Keys
      && forall c :: c in s.vectors ==>
           after.vectors[c] == s.vectors[c].(deleted := s.vectors[c].deleted || (s.vectors[c].documentId == d && s.vectors[c].tenantId == tenantId))
  {
  }

  /** The second half: the document row goes with its jobs, chunks and generations, and its id stays recorded. */
  lemma RemovalWrites(s: State, tenantId: Id, d: Id)
    ensures
      var after := Next(s, DeleteDocument(tenantId, d));
      if d !in s.documents || s.documents[d].tenantId != tenantId then after == s
      else
        var key := if s.documents[d].permissions.scope == GlobalScope then GlobalKey else TenantKey(tenantId);
        && d !in after.documents && (forall x :: x in s.documents && x != d ==> x in after.documents && after.documents[x] == s.documents[x])
        && (forall x :: x in after.documents ==> x in s.documents)
        && d in after.deletedDocuments && (d !in s.deletedDocuments ==> after.deletedDocuments == s.deletedDocuments[d := tenantId])
        && (d in s.deletedDocuments ==> after.deletedDocuments == s.deletedDocuments)
        && after.epochs == s.epochs[key := CorpusEpochs.Revision(s, key) + 1]
        && (forall c :: c in after.chunks <==> c in s.chunks && (s.chunks[c].documentId != d || s.chunks[c].tenantId != tenantId))
        && (forall c :: c in after.chunks ==> after.chunks[c] == s.chunks[c])
        && (forall j :: j in after.jobs <==> j in s.jobs && (s.jobs[j].documentId != d || s.jobs[j].tenantId != tenantId))
        && (forall j :: j in after.jobs ==> after.jobs[j] == s.jobs[j])
        && (forall g :: g in after.generations <==> g in s.generations && s.generations[g].documentId != d)
        && (forall g :: g in after.generations ==> after.generations[g] == s.generations[g])
        && after.vectors == s.vectors && after.profile == s.profile && after.issued == s.issued
  {
  }
}
