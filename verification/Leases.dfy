/** The lease invariant and fencing: over every run, a lease token that a job has lost never
    again lets an operation change a row. */
module Leases {
  import opened Prelude
  import opened IngestTables
  import opened IngestRuns
  import TaskQueue
  import Publication

  ghost predicate WellLeased(job: Job, issued: set<Id>) {
    && (job.status == Running <==> job.leaseToken.Some?)
    && (job.leaseToken.Some? ==>
          && job.leaseExpiresAt.Some?
          && job.generationId.Some?
          && job.leaseToken.value in issued
          && job.generationId.value in issued)
  }

  /** Two jobs share neither a lease, nor a generation, nor, while active, a document. */
  ghost predicate SeparateJobs(a: Job, b: Job) {
    && (a.leaseToken.Some? && b.leaseToken.Some? ==> a.leaseToken != b.leaseToken && a.generationId != b.generationId)
    && (ActiveJob(a) && ActiveJob(b) ==> a.documentId != b.documentId)
  }

  /** A job is running exactly when it has a lease token, no two jobs share a token or a generation id,
      and a document has at most one active job. */
  ghost predicate LeaseInv(s: State) {
    && (forall j :: j in s.jobs ==> WellLeased(s.jobs[j], s.issued))
    && (forall j, k :: j in s.jobs && k in s.jobs && j != k ==> SeparateJobs(s.jobs[j], s.jobs[k]))
  }

  /** Jobs belong to existing documents of the same tenant. */
  ghost predicate OwnedInv(s: State) {
    forall j :: j in s.jobs ==>
      s.jobs[j].documentId in s.documents && s.jobs[j].tenantId == s.documents[s.jobs[j].documentId].tenantId
  }

  lemma ReplacedJob(s: State, after: State, j: Id, job: Job)
    requires LeaseInv(s)
    requires after.jobs == s.jobs[j := job] && s.issued <= after.issued
    requires WellLeased(job, after.issued)
    requires forall k :: k in s.jobs && k != j ==> SeparateJobs(job, s.jobs[k])
    ensures LeaseInv(after)
  {
    forall a, b | a in after.jobs && b in after.jobs && a != b ensures SeparateJobs(after.jobs[a], after.jobs[b]) {
      if a != j && b != j {
        assert SeparateJobs(s.jobs[a], s.jobs[b]);
      }
    }
  }

  /** A step that only shrinks leases: no job becomes active or gains a token. */
  lemma ReleasedJob(s: State, after: State, j: Id, job: Job)
    requires LeaseInv(s) && j in s.jobs
    requires after.jobs == s.jobs[j := job] && s.issued <= after.issued
    requires WellLeased(job, after.issued)
    requires job.documentId == s.jobs[j].documentId
    requires job.leaseToken.Some? ==> job.leaseToken == s.jobs[j].leaseToken && job.generationId == s.jobs[j].generationId
    requires ActiveJob(job) ==> ActiveJob(s.jobs[j])
    ensures LeaseInv(after)
  {
    forall k | k in s.jobs && k != j ensures SeparateJobs(job, s.jobs[k]) {
      assert SeparateJobs(s.jobs[j], s.jobs[k]);
    }
    ReplacedJob(s, after, j, job);
  }

  lemma ReapedJobs(s: State, e: Event)
    requires LeaseInv(s) && e.ReapExpired?
    ensures LeaseInv(Next(s, e))
  {
    var after := Next(s, e);
    forall a, b | a in after.jobs && b in after.jobs && a != b ensures SeparateJobs(after.jobs[a], after.jobs[b]) {
      assert SeparateJobs(s.jobs[a], s.jobs[b]);
    }
  }

  lemma JobQueued(s: State, e: Event)
    requires LeaseInv(s) && OwnedInv(s)
    requires e.CreateDocument? || e.UpdateContent? || e.CreateJob?
    ensures LeaseInv(Next(s, e))
  {
    var after := Next(s, e);
    if Step(s, e).Ok? {
      ReplacedJob(s, after, e.j, after.jobs[e.j]);
    }
  }

  lemma JobEnqueued(s: State, e: Event)
    requires LeaseInv(s) && e.Enqueue?
    ensures LeaseInv(Next(s, e))
  {
    var after := Next(s, e);
    if Step(s, e).Ok? && e.j in s.jobs {
      if ActiveJob(s.jobs[e.j]) {
        ReleasedJob(s, after, e.j, after.jobs[e.j]);
      } else {
        ReplacedJob(s, after, e.j, after.jobs[e.j]);
      }
    }
  }

  lemma JobClaimed(s: State, e: Event)
    requires LeaseInv(s) && e.Claim? && Fresh(s, e)
    ensures LeaseInv(Next(s, e))
  {
    var after := Next(s, e);
    if TaskQueue.NextDue(s.jobs, e.now, e.locked, e.j) {
      forall k | k in s.jobs && k != e.j ensures SeparateJobs(after.jobs[e.j], s.jobs[k]) {
        assert SeparateJobs(s.jobs[e.j], s.jobs[k]);
      }
      ReplacedJob(s, after, e.j, after.jobs[e.j]);
    }
  }

  lemma JobUpdatedByWorker(s: State, e: Event)
    requires LeaseInv(s)
    requires e.SetStage? || e.Renew? || e.Complete? || e.RetryOrDead?
    ensures LeaseInv(Next(s, e))
  {
    var after := Next(s, e);
    if Step(s, e).Ok? {
      ReleasedJob(s, after, e.j, after.jobs[e.j]);
    }
  }

  lemma JobPublished(s: State, e: Event)
    requires LeaseInv(s) && e.Publish?
    ensures LeaseInv(Next(s, e))
  {
    var after := Next(s, e);
    if Step(s, e).Ok? {
      ReleasedJob(s, after, e.request.jobId, after.jobs[e.request.jobId]);
    }
  }

  lemma LeaseInvStep(s: State, e: Event)
    requires LeaseInv(s) && OwnedInv(s) && Fresh(s, e)
    ensures LeaseInv(Next(s, e))
  {
    hide LeaseInv, OwnedInv, Fresh, Step;
    if e.CreateDocument? || e.UpdateContent? || e.CreateJob? {
      JobQueued(s, e);
    } else if e.Enqueue? {
      JobEnqueued(s, e);
    } else if e.Claim? {
      JobClaimed(s, e);
    } else if e.SetStage? || e.Renew? || e.Complete? || e.RetryOrDead? {
      JobUpdatedByWorker(s, e);
    } else if e.ReapExpired? {
      ReapedJobs(s, e);
    } else if e.Publish? {
      JobPublished(s, e);
    } else {
      OtherStepsKeepLeases(s, e);
    }
  }

  lemma OtherStepsKeepLeases(s: State, e: Event)
    requires LeaseInv(s) && (e.UpdateAccess? || e.TombstoneVectors? || e.DeleteDocument?)
    ensures LeaseInv(Next(s, e))
  {
    assert Next(s, e).issued == s.issued;
    assert forall j :: j in Next(s, e).jobs ==> j in s.jobs && Next(s, e).jobs[j] == s.jobs[j];
  }

  lemma OwnedInvStep(s: State, e: Event)
    requires OwnedInv(s)
    ensures OwnedInv(Next(s, e))
  {
    if QueueStep(e) {
      QueueKeepsOwners(s, e);
    } else if e.Publish? {
      PublishKeepsOwners(s, e.request, e.start, e.commit);
    }
  }

  lemma JobOwnerFixed(s: State, e: Event, j: Id)
    requires QueueStep(e) && !e.CreateJob? && j in Next(s, e).jobs
    ensures j in s.jobs && Next(s, e).jobs[j].documentId == s.jobs[j].documentId && Next(s, e).jobs[j].tenantId == s.jobs[j].tenantId
  {
  }

  lemma QueueKeepsOwners(s: State, e: Event)
    requires OwnedInv(s) && QueueStep(e)
    ensures OwnedInv(Next(s, e))
  {
    QueueTouchesOnlyJobs(s, e);
    if !e.CreateJob? {
      forall j | j in Next(s, e).jobs
        ensures Next(s, e).jobs[j].documentId in s.documents
        ensures Next(s, e).jobs[j].tenantId == s.documents[Next(s, e).jobs[j].documentId].tenantId
      {
        JobOwnerFixed(s, e, j);
      }
    }
  }

  lemma PublishKeepsOwners(s: State, r: Publication.Request, start: int, commit: int)
    requires OwnedInv(s)
    ensures Publication.Publish(s, r, start, commit).Ok? ==> OwnedInv(Publication.Publish(s, r, start, commit).value)
  {
  }

  /** Main invariant over every run: any interleaving of API calls, workers and reapers. */
  lemma {:induction false} LeaseInvAlways(states: seq<State>, events: seq<Event>, k: nat)
    requires Run(states, events) && k < |states|
    ensures LeaseInv(states[k]) && OwnedInv(states[k])
  {
    if k > 0 {
      LeaseInvAlways(states, events, k - 1);
      assert StepAt(states, events, k - 1);
      LeaseInvStep(states[k - 1], events[k - 1]);
      OwnedInvStep(states[k - 1], events[k - 1]);
    }
  }

  /** The operation is carried out in the name of this job and this lease token. */
  predicate Bears(e: Event, j: Id, token: Id) {
    match e
    case SetStage(j', _, t, _) => j' == j && t == token
    case Renew(j', t, _, _) => j' == j && t == token
    case Complete(j', t, _) => j' == j && t == token
    case RetryOrDead(j', _, t, _, _) => j' == j && t == token
    case Publish(request, _, _) => request.jobId == j && request.job.leaseToken == Some(token)
    case _ => false
  }

  /** The token was issued once, and the job does not hold it (or no longer exists). */
  ghost predicate Fenced(s: State, j: Id, token: Id) {
    token in s.issued && (j in s.jobs ==> s.jobs[j].leaseToken != Some(token))
  }

  lemma IssuedGrows(s: State, e: Event)
    ensures s.issued <= Next(s, e).issued
  {
  }

  /** Only a claim can set a token, and it sets a new one. */
  lemma FencedStep(s: State, e: Event, j: Id, token: Id)
    requires Fenced(s, j, token) && Fresh(s, e)
    ensures Fenced(Next(s, e), j, token)
  {
    IssuedGrows(s, e);
    var after := Next(s, e);
    if j in after.jobs && after.jobs[j].leaseToken.Some? {
      LeaseOrigin(s, e, j);
    }
  }

  lemma FencedOperationRefused(s: State, e: Event, j: Id, token: Id)
    requires Fenced(s, j, token) && Bears(e, j, token)
    ensures Step(s, e).Err? && Next(s, e) == s
  {
  }

  lemma {:induction false} FencedForever(states: seq<State>, events: seq<Event>, i: nat, m: nat, j: Id, token: Id)
    requires Run(states, events) && i <= m < |states|
    requires Fenced(states[i], j, token)
    ensures Fenced(states[m], j, token)
  {
    if i < m {
      FencedForever(states, events, i, m - 1, j, token);
      assert StepAt(states, events, m - 1);
      FencedStep(states[m - 1], events[m - 1], j, token);
    }
  }

  lemma {:induction false} IssuedNeverShrinks(states: seq<State>, events: seq<Event>, i: nat, m: nat)
    requires Run(states, events) && i <= m < |states|
    ensures states[i].issued <= states[m].issued
  {
    if i < m {
      IssuedNeverShrinks(states, events, i, m - 1);
      assert StepAt(states, events, m - 1);
      IssuedGrows(states[m - 1], events[m - 1]);
    }
  }

  /** Fencing: a worker held the token at `held`; by `lost` the job had been reaped, retried, enqueued
      again, finished or removed. Whatever that worker attempts later is refused and changes no row. */
  lemma StaleWorkerChangesNothing(states: seq<State>, events: seq<Event>, held: nat, lost: nat, m: nat, j: Id, token: Id)
    requires Run(states, events) && held <= lost <= m < |events|
    requires j in states[held].jobs && states[held].jobs[j].leaseToken == Some(token)
    requires j !in states[lost].jobs || states[lost].jobs[j].status != Running || states[lost].jobs[j].leaseToken != Some(token)
    requires Bears(events[m], j, token)
    ensures Step(states[m], events[m]).Err? && states[m + 1] == states[m]
  {
    LeaseInvAlways(states, events, held);
    LeaseInvAlways(states, events, lost);
    IssuedNeverShrinks(states, events, held, lost);
    FencedForever(states, events, lost, m, j, token);
    assert StepAt(states, events, m);
    FencedOperationRefused(states[m], events[m], j, token);
  }

  /** At any moment at most one job can be operated on with a given token. */
  lemma TokenNamesOneJob(states: seq<State>, events: seq<Event>, m: nat, j: Id, k: Id, token: Id, clock: int, later: int)
    requires Run(states, events) && m < |states|
    requires TaskQueue.Holds(states[m].jobs, j, token, clock) && TaskQueue.Holds(states[m].jobs, k, token, later)
    ensures j == k
  {
    LeaseInvAlways(states, events, m);
    assert j != k ==> SeparateJobs(states[m].jobs[j], states[m].jobs[k]);
  }
}
