/** Runs of the ingestion system: any number of API processes, workers and reapers taking
    atomic steps in any order. A refused transaction rolls back, so it leaves the state alone. */
module IngestRuns {
  import opened Prelude
  import opened IngestTables
  import TaskQueue
  import Publication
  import Catalogue

  datatype Event =
    | CreateDocument(d: Id, tenantId: Id, permissions: Permissions, content: Catalogue.Content, j: Id, now: int)
    | UpdateContent(tenantId: Id, d: Id, content: Catalogue.Content, visibility: Visibility, scope: Scope,
                    j: Id, expectedVersion: Option<nat>, now: int)
    | CreateJob(tenantId: Id, d: Id, j: Id, now: int)
    | UpdateAccess(tenantId: Id, d: Id, visibility: Visibility, scope: Scope)
    | TombstoneVectors(tenantId: Id, d: Id)
    | DeleteDocument(tenantId: Id, d: Id)
    | Enqueue(j: Id, now: int)
    | Claim(j: Id, now: int, locked: set<Id>, token: Id, generation: Id, leaseSeconds: nat)
    | SetStage(j: Id, stage: string, token: Id, clock: int)
    | Renew(j: Id, token: Id, clock: int, leaseSeconds: nat)
    | Complete(j: Id, token: Id, clock: int)
    | RetryOrDead(j: Id, maxAttempts: nat, token: Id, now: int, clock: int)
    | ReapExpired(maxAttempts: nat, now: int, locked: set<Id>)
    | Publish(request: Publication.Request, start: int, commit: int)

  function Step(s: State, e: Event): Outcome {
    match e
    case CreateDocument(d, tenantId, permissions, content, j, now) =>
      Catalogue.CreateDocument(s, d, tenantId, permissions, content, j, now)
    case UpdateContent(tenantId, d, content, visibility, scope, j, expectedVersion, now) =>
      Catalogue.UpdateContent(s, tenantId, d, content, visibility, scope, j, expectedVersion, now)
    case CreateJob(tenantId, d, j, now) => Catalogue.CreateJob(s, tenantId, d, j, now)
    case UpdateAccess(tenantId, d, visibility, scope) => Catalogue.UpdateAccess(s, tenantId, d, visibility, scope)
    case TombstoneVectors(tenantId, d) => Catalogue.TombstoneVectors(s, tenantId, d)
    case DeleteDocument(tenantId, d) => Catalogue.DeleteDocument(s, tenantId, d)
    case Enqueue(j, now) => TaskQueue.Enqueue(s, j, now)
    case Claim(j, now, locked, token, generation, leaseSeconds) =>
      TaskQueue.Claim(s, j, now, locked, token, generation, leaseSeconds)
    case SetStage(j, stage, token, clock) => TaskQueue.SetStage(s, j, stage, token, clock)
    case Renew(j, token, clock, leaseSeconds) => TaskQueue.Renew(s, j, token, clock, leaseSeconds)
    case Complete(j, token, clock) => TaskQueue.Complete(s, j, token, clock)
    case RetryOrDead(j, maxAttempts, token, now, clock) => TaskQueue.RetryOrDead(s, j, maxAttempts, token, now, clock)
    case ReapExpired(maxAttempts, now, locked) => TaskQueue.ReapExpired(s, maxAttempts, now, locked)
    case Publish(request, start, commit) => Publication.Publish(s, request, start, commit)
  }

  function Next(s: State, e: Event): State {
    var outcome := Step(s, e);
    if outcome.Ok? then outcome.value else s
  }

  /** What the environment guarantees of new identifiers: a random token or generation id was never
      drawn before, and a new document id was never used, not even by rows left over from a removal. */
  ghost predicate Fresh(s: State, e: Event) {
    match e
    case CreateDocument(d, _, _, _, _, _) =>
      && d !in s.deletedDocuments
      && (forall c :: c in s.vectors ==> s.vectors[c].documentId != d)
      && (forall c :: c in s.chunks ==> s.chunks[c].documentId != d)
    case Claim(_, _, _, token, generation, _) =>
      token !in s.issued && generation !in s.issued && token != generation
    case _ => true
  }

  /** A database before the first publication: documents without generations, queued jobs,
      and possibly vector rows and chunks that predate publication. */
  ghost predicate Init(s: State) {
    && s.generations == map[]
    && s.deletedDocuments == map[]
    && (forall d :: d in s.documents ==> s.documents[d].activeGeneration.None? && s.documents[d].indexedVersion.None?)
    && (forall j :: j in s.jobs ==>
          && s.jobs[j].status != Running
          && s.jobs[j].leaseToken.None?
          && s.jobs[j].documentId in s.documents
          && s.jobs[j].tenantId == s.documents[s.jobs[j].documentId].tenantId)
    && (forall j, k :: j in s.jobs && k in s.jobs && j != k && ActiveJob(s.jobs[j]) && ActiveJob(s.jobs[k]) ==>
          s.jobs[j].documentId != s.jobs[k].documentId)
    && (forall c :: c in s.vectors ==> s.vectors[c].generationId.None?)
  }

  ghost predicate StepAt(states: seq<State>, events: seq<Event>, i: nat)
    requires |states| == |events| + 1 && i < |events|
  {
    Fresh(states[i], events[i]) && states[i + 1] == Next(states[i], events[i])
  }

  ghost predicate Run(states: seq<State>, events: seq<Event>) {
    && |states| == |events| + 1
    && Init(states[0])
    && forall i :: 0 <= i < |events| ==> StepAt(states, events, i)
  }

  predicate QueueStep(e: Event) {
    e.Enqueue? || e.Claim? || e.SetStage? || e.Renew? || e.Complete? || e.RetryOrDead? || e.ReapExpired? || e.CreateJob?
  }

  /** The task queue writes no table but the jobs table. */
  lemma QueueTouchesOnlyJobs(s: State, e: Event)
    requires QueueStep(e)
    ensures var after := Next(s, e); after == s.(jobs := after.jobs, issued := after.issued) && s.issued <= after.issued
  {
  }

  ghost predicate SameLease(before: Job, after: Job) {
    before.status == after.status && before.leaseToken == after.leaseToken && before.generationId == after.generationId
  }

  predicate Leased(job: Job) {
    job.status == Running || job.leaseToken.Some?
  }

  lemma WorkerLeaseOrigin(s: State, e: Event, j: Id)
    requires e.SetStage? || e.Renew? || e.Complete? || e.RetryOrDead?
    requires j in Next(s, e).jobs && Leased(Next(s, e).jobs[j])
    ensures j in s.jobs && SameLease(s.jobs[j], Next(s, e).jobs[j])
  {
    if e.SetStage? {
    } else if e.Renew? {
    } else if e.Complete? {
    } else {
    }
  }

  lemma CatalogueLeaseOrigin(s: State, e: Event, j: Id)
    requires e.CreateDocument? || e.UpdateContent? || e.CreateJob? || e.UpdateAccess? || e.TombstoneVectors? || e.DeleteDocument?
    requires j in Next(s, e).jobs && Leased(Next(s, e).jobs[j])
    ensures j in s.jobs && SameLease(s.jobs[j], Next(s, e).jobs[j])
  {
  }

  /** A job that holds a lease after a step held the same lease before it, or has just been claimed. */
  lemma LeaseOrigin(s: State, e: Event, j: Id)
    requires j in Next(s, e).jobs && Leased(Next(s, e).jobs[j])
    ensures
      var job := Next(s, e).jobs[j];
      || (j in s.jobs && SameLease(s.jobs[j], job))
      || (e.Claim? && e.j == j && job.leaseToken == Some(e.token) && job.generationId == Some(e.generation))
  {
    if e.SetStage? || e.Renew? || e.Complete? || e.RetryOrDead? {
      WorkerLeaseOrigin(s, e, j);
    } else if !e.Enqueue? && !e.Claim? && !e.ReapExpired? && !e.Publish? {
      CatalogueLeaseOrigin(s, e, j);
    }
  }
}
