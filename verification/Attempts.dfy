/** How often a job can be claimed and how soon: attempts are a budget that every failed, reaped or
    superseded run uses up, and every failure holds the job back. */
module Attempts {
  import opened Prelude
  import opened IngestTables
  import opened IngestRuns
  import TaskQueue

  /** How a run of the pipeline can end for the worker. */
  datatype JobError = StaleLeaseRejected | UnsafeContent | OtherError

  /** What the worker records about a failed run: nothing when it lost its lease, and a single
      attempt's limit when the content itself is unsafe. */
  function FailureEvent(error: JobError, j: Id, token: Id, maxAttempts: nat, now: int, clock: int): Option<Event> {
    match error
    case StaleLeaseRejected => None
    case UnsafeContent => Some(RetryOrDead(j, 1, token, now, clock))
    case OtherError => Some(RetryOrDead(j, maxAttempts, token, now, clock))
  }

  /** The event is how a worker with this limit handles some failure. */
  ghost predicate Handled(e: Event, maxAttempts: nat)
    requires e.RetryOrDead?
  {
    exists error: JobError :: FailureEvent(error, e.j, e.token, maxAttempts, e.now, e.clock) == Some(e)
  }

  /** One attempt limit for the whole deployment, failures handled as the worker does, and nobody re-enqueues this job by
      hand. */
  ghost predicate Policy(e: Event, j: Id, maxAttempts: nat) {
    && (e.RetryOrDead? ==> Handled(e, maxAttempts))
    && (e.ReapExpired? ==> e.maxAttempts == maxAttempts)
    && (e.Enqueue? ==> e.j != j)
  }

  /** A failure is charged against the limit, or against a single attempt. */
  lemma HandledLimit(e: Event, maxAttempts: nat)
    requires e.RetryOrDead? && Handled(e, maxAttempts)
    ensures e.maxAttempts == 1 || e.maxAttempts == maxAttempts
  {
  }

  ghost predicate Claims(s: State, e: Event, j: Id) {
    e.Claim? && e.j == j && TaskQueue.NextDue(s.jobs, e.now, e.locked, j)
  }

  ghost function ClaimCount(states: seq<State>, events: seq<Event>, j: Id, i: nat, k: nat): nat
    requires |states| == |events| + 1 && i <= k <= |events|
    decreases k - i
  {
    if i == k then 0
    else ClaimCount(states, events, j, i, k - 1) + if Claims(states[k - 1], events[k - 1], j) then 1 else 0
  }

  /** Claims accounted for by the row: one per failed attempt, and the one in progress or completed. */
  function Spent(job: Job): nat {
    job.attempts + if job.status == Running || job.status == Done then 1 else 0
  }

  ghost predicate WithinLimit(job: Job, maxAttempts: nat) {
    match job.status
    case Queued => job.attempts == 0 || job.attempts < maxAttempts
    case Running => job.attempts == 0 || job.attempts < maxAttempts
    case Done => job.attempts == 0 || job.attempts < maxAttempts
    case Dead => job.attempts <= 1 || job.attempts <= maxAttempts
    case Failed => false
  }

  lemma OtherStepsKeepJob(s: State, e: Event, j: Id)
    requires j in s.jobs && j in Next(s, e).jobs
    requires !e.Claim? && !e.Enqueue? && !e.SetStage? && !e.Renew? && !e.Complete? && !e.RetryOrDead? && !e.ReapExpired? && !e.Publish?
    ensures Next(s, e).jobs[j] == s.jobs[j]
  {
  }

  lemma WorkerStepSpendsNothing(s: State, e: Event, j: Id)
    requires j in s.jobs && j in Next(s, e).jobs
    requires e.SetStage? || e.Renew? || e.Complete? || e.RetryOrDead? || e.ReapExpired? || e.Publish?
    ensures Spent(Next(s, e).jobs[j]) == Spent(s.jobs[j])
  {
  }

  lemma ClaimStepSpends(s: State, e: Event, j: Id)
    requires j in s.jobs && j in Next(s, e).jobs && e.Claim?
    ensures Spent(Next(s, e).jobs[j]) == Spent(s.jobs[j]) + if Claims(s, e, j) then 1 else 0
  {
    DueIsQueued(s, e);
    hide TaskQueue.NextDue;
  }

  lemma DueIsQueued(s: State, e: Event)
    requires e.Claim?
    ensures TaskQueue.NextDue(s.jobs, e.now, e.locked, e.j) ==> e.j in s.jobs && s.jobs[e.j].status == Queued
  {
  }

  lemma EnqueueSpendsNothing(s: State, e: Event, j: Id)
    requires j in s.jobs && j in Next(s, e).jobs && e.Enqueue? && e.j != j
    ensures Next(s, e).jobs[j] == s.jobs[j]
  {
  }

  lemma ClaimSpends(s: State, e: Event, j: Id)
    requires j in s.jobs && j in Next(s, e).jobs
    requires e.Enqueue? ==> e.j != j
    ensures Spent(Next(s, e).jobs[j]) == Spent(s.jobs[j]) + if Claims(s, e, j) then 1 else 0
  {
    hide Next, Spent;
    if e.SetStage? || e.Renew? || e.Complete? || e.RetryOrDead? || e.ReapExpired? || e.Publish? {
      WorkerStepSpendsNothing(s, e, j);
    } else if e.Claim? {
      ClaimStepSpends(s, e, j);
    } else if e.Enqueue? {
      EnqueueSpendsNothing(s, e, j);
    } else {
      OtherStepsKeepJob(s, e, j);
    }
  }

  lemma LimitKept(s: State, e: Event, j: Id, maxAttempts: nat)
    requires j in s.jobs && j in Next(s, e).jobs
    requires WithinLimit(s.jobs[j], maxAttempts) && Policy(e, j, maxAttempts)
    ensures WithinLimit(Next(s, e).jobs[j], maxAttempts)
  {
    if e.RetryOrDead? {
      HandledLimit(e, maxAttempts);
    }
  }

  ghost predicate Present(states: seq<State>, j: Id, i: nat, k: nat)
    requires i <= k < |states|
  {
    forall m :: i <= m <= k ==> j in states[m].jobs
  }

  ghost predicate PolicyThroughout(events: seq<Event>, j: Id, maxAttempts: nat, i: nat, k: nat)
    requires i <= k <= |events|
  {
    forall m :: i <= m < k ==> Policy(events[m], j, maxAttempts)
  }

  /** A new job: queued, never failed. */
  predicate FirstQueued(job: Job) {
    job.status == Queued && job.attempts == 0
  }

  /** The row accounts for every claim since the job was created. */
  lemma {:induction false} ClaimsAccounted(states: seq<State>, events: seq<Event>, j: Id, maxAttempts: nat, i: nat, k: nat)
    requires Run(states, events) && i <= k <= |events|
    requires Present(states, j, i, k) && PolicyThroughout(events, j, maxAttempts, i, k)
    requires FirstQueued(states[i].jobs[j])
    ensures ClaimCount(states, events, j, i, k) == Spent(states[k].jobs[j])
    ensures WithinLimit(states[k].jobs[j], maxAttempts)
    decreases k - i
  {
    if i < k {
      ClaimsAccounted(states, events, j, maxAttempts, i, k - 1);
      assert StepAt(states, events, k - 1);
      ClaimSpends(states[k - 1], events[k - 1], j);
      LimitKept(states[k - 1], events[k - 1], j, maxAttempts);
    }
  }

  /** Main theorem: a job is claimed at most `maxAttempts` times (once, when the limit is zero), counting
      reaped and superseded runs. */
  lemma ClaimsBounded(states: seq<State>, events: seq<Event>, j: Id, maxAttempts: nat, i: nat, k: nat)
    requires Run(states, events) && i <= k <= |events|
    requires Present(states, j, i, k) && PolicyThroughout(events, j, maxAttempts, i, k)
    requires FirstQueued(states[i].jobs[j])
    ensures ClaimCount(states, events, j, i, k) <= if maxAttempts == 0 then 1 else maxAttempts
  {
    ClaimsAccounted(states, events, j, maxAttempts, i, k);
  }

  // ---------------------------------------------------------------- backoff

  /** The step ends a running attempt of `j` in failure, by retry or by reaping, and leaves it queued. */
  ghost predicate FailsAt(s: State, e: Event, j: Id) {
    && j in s.jobs && s.jobs[j].status == Running
    && j in Next(s, e).jobs && Next(s, e).jobs[j].status == Queued
    && (e.RetryOrDead? || e.ReapExpired?)
  }

  lemma FailureHoldsBack(s: State, e: Event, j: Id)
    requires FailsAt(s, e, j)
    ensures Next(s, e).jobs[j].attempts == s.jobs[j].attempts + 1
    ensures Next(s, e).jobs[j].availableAt == e.now + TaskQueue.RetryDelaySeconds(s.jobs[j].attempts + 1) * SECOND
  {
  }

  lemma QueuedUntilClaimed(s: State, e: Event, j: Id)
    requires j in s.jobs && s.jobs[j].status == Queued && j in Next(s, e).jobs
    requires (e.Enqueue? ==> e.j != j) && !Claims(s, e, j)
    ensures Next(s, e).jobs[j] == s.jobs[j]
  {
  }

  ghost predicate LeftAlone(states: seq<State>, events: seq<Event>, j: Id, i: nat, k: nat)
    requires |states| == |events| + 1 && i <= k <= |events|
  {
    forall m :: i <= m < k ==>
      j in states[m].jobs && (events[m].Enqueue? ==> events[m].j != j) && !Claims(states[m], events[m], j)
  }

  lemma {:induction false} StillHeldBack(states: seq<State>, events: seq<Event>, j: Id, i: nat, k: nat)
    requires Run(states, events) && i <= k <= |events| && LeftAlone(states, events, j, i, k)
    requires j in states[i].jobs && states[i].jobs[j].status == Queued
    requires j in states[k].jobs
    ensures states[k].jobs[j] == states[i].jobs[j]
    decreases k - i
  {
    hide Next, Claims;
    if i < k {
      assert j in states[k - 1].jobs;
      StillHeldBack(states, events, j, i, k - 1);
      assert StepAt(states, events, k - 1);
      QueuedUntilClaimed(states[k - 1], events[k - 1], j);
    }
  }

  /** Main theorem: the next claim after a job's n-th failure starts at least RetryDelaySeconds(n) later. */
  lemma NoClaimBeforeDelay(states: seq<State>, events: seq<Event>, j: Id, i: nat, k: nat)
    requires Run(states, events) && i < k < |events|
    requires FailsAt(states[i], events[i], j)
    requires LeftAlone(states, events, j, i + 1, k) && Claims(states[k], events[k], j)
    ensures events[k].now >= events[i].now + TaskQueue.RetryDelaySeconds(states[i + 1].jobs[j].attempts) * SECOND
  {
    assert StepAt(states, events, i);
    FailureHoldsBack(states[i], events[i], j);
    StillHeldBack(states, events, j, i + 1, k);
  }

  lemma {:induction false} PowerOfTwoGrows(m: nat, n: nat)
    requires m <= n
    ensures 1 <= TaskQueue.Power(2, m) <= TaskQueue.Power(2, n)
    decreases n
  {
    if m < n {
      PowerOfTwoGrows(m, n - 1);
    } else if 0 < m {
      PowerOfTwoGrows(m - 1, n - 1);
    }
  }

  /** The schedule doubles from two seconds and is capped at sixty from the sixth failure on. */
  lemma DelaySchedule(n: int)
    ensures n < 1 ==> TaskQueue.RetryDelaySeconds(n) == 0
    ensures 1 <= n < 6 ==> TaskQueue.RetryDelaySeconds(n) == TaskQueue.Power(2, n)
    ensures 6 <= n ==> TaskQueue.RetryDelaySeconds(n) == 60
    ensures TaskQueue.RetryDelaySeconds(n) <= TaskQueue.RetryDelaySeconds(n + 1)
  {
    assert TaskQueue.Power(2, 2) == 4 && TaskQueue.Power(2, 3) == 8;
    assert TaskQueue.Power(2, 4) == 16 && TaskQueue.Power(2, 5) == 32;
    assert TaskQueue.Power(2, 6) == 64;
    if 6 <= n {
      PowerOfTwoGrows(6, n);
    } else if 1 <= n {
      PowerOfTwoGrows(n, 5);
    }
    if 1 <= n {
      PowerOfTwoGrows(n, n + 1);
    }
  }
}
