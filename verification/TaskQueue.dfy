/** The steps of the Postgres task queue: each is one guarded transaction on the jobs table.
    `now` is the transaction's start time, `clock` the wall clock read inside it. */
module TaskQueue {
  import opened Prelude
  import opened IngestTables

  const RETRY_BASE_SECONDS: nat := 2
  const RETRY_MAX_SECONDS: nat := 60

  function Power(base: nat, exponent: nat): nat {
    if exponent == 0 then 1 else base * Power(base, exponent - 1)
  }

  /** Seconds a job is held back after its `attempts`-th failure. */
  function RetryDelaySeconds(attempts: int): nat {
    if attempts < 1 then 0
    else
      var delay := Power(RETRY_BASE_SECONDS, attempts);
      if delay < RETRY_MAX_SECONDS then delay else RETRY_MAX_SECONDS
  }

  /** The condition every worker update carries: running, this token, lease not yet expired. */
  predicate Holds(jobs: map<Id, Job>, j: Id, token: Id, clock: int) {
    && j in jobs
    && jobs[j].status == Running
    && jobs[j].leaseToken == Some(token)
    && jobs[j].leaseExpiresAt.Some?
    && clock < jobs[j].leaseExpiresAt.value
  }

  function Enqueue(s: State, j: Id, now: int): Outcome {
    if j !in s.jobs then Ok(s)
    else if !ActiveJob(s.jobs[j]) && HasActiveJob(s.jobs, s.jobs[j].documentId) then Err(UniqueViolation)
    else Ok(s.(jobs := s.jobs[j := s.jobs[j].(status := Queued, availableAt := now, leaseToken := None)]))
  }

  predicate Due(jobs: map<Id, Job>, now: int, locked: set<Id>, j: Id) {
    j in jobs && j !in locked && jobs[j].status == Queued && jobs[j].availableAt <= now
  }

  /** The row `ORDER BY created_at LIMIT 1 ... SKIP LOCKED` may return. */
  predicate NextDue(jobs: map<Id, Job>, now: int, locked: set<Id>, j: Id) {
    && Due(jobs, now, locked, j)
    && forall k :: k in jobs && Due(jobs, now, locked, k) ==> jobs[j].createdAt <= jobs[k].createdAt
  }

  function Claimed(job: Job, now: int, token: Id, generation: Id, leaseSeconds: nat): Job {
    job.(status := Running, leaseToken := Some(token), generationId := Some(generation),
         leaseExpiresAt := Some(now + leaseSeconds * SECOND))
  }

  /** Starts a lease on the oldest due job; nothing to claim leaves the table alone. */
  function Claim(s: State, j: Id, now: int, locked: set<Id>, token: Id, generation: Id, leaseSeconds: nat): Outcome {
    if !NextDue(s.jobs, now, locked, j) then Ok(s)
    else Ok(s.(jobs := s.jobs[j := Claimed(s.jobs[j], now, token, generation, leaseSeconds)],
               issued := s.issued + {token, generation}))
  }

  function SetStage(s: State, j: Id, stage: string, token: Id, clock: int): Outcome {
    if !Holds(s.jobs, j, token, clock) then Err(StaleLease)
    else Ok(s.(jobs := s.jobs[j := s.jobs[j].(stage := stage)]))
  }

  function Renew(s: State, j: Id, token: Id, clock: int, leaseSeconds: nat): Outcome {
    if !Holds(s.jobs, j, token, clock) then Err(StaleLease)
    else Ok(s.(jobs := s.jobs[j := s.jobs[j].(leaseExpiresAt := Some(clock + leaseSeconds * SECOND))]))
  }

  function Finished(job: Job): Job {
    job.(status := Done, stage := "done", leaseToken := None, leaseExpiresAt := None)
  }

  function Complete(s: State, j: Id, token: Id, clock: int): Outcome {
    if !Holds(s.jobs, j, token, clock) then Err(StaleLease)
    else Ok(s.(jobs := s.jobs[j := Finished(s.jobs[j])]))
  }

  /** One more failed attempt: queued again after a delay, or dead when attempts run out. */
  function FailedOnce(job: Job, now: int, maxAttempts: nat): Job {
    var attempts := job.attempts + 1;
    job.(attempts := attempts,
         status := if attempts < maxAttempts then Queued else Dead,
         leaseToken := None, leaseExpiresAt := None,
         availableAt := now + RetryDelaySeconds(attempts) * SECOND)
  }

  function RetryOrDead(s: State, j: Id, maxAttempts: nat, token: Id, now: int, clock: int): Outcome {
    if !Holds(s.jobs, j, token, clock) then Err(StaleLease)
    else Ok(s.(jobs := s.jobs[j := FailedOnce(s.jobs[j], now, maxAttempts)]))
  }

  predicate Expired(job: Job, now: int) {
    job.status == Running && job.leaseExpiresAt.Some? && job.leaseExpiresAt.value <= now
  }

  /** Every unlocked running job whose lease has expired loses it, counting one attempt. */
  function ReapedJobs(jobs: map<Id, Job>, maxAttempts: nat, now: int, locked: set<Id>): map<Id, Job> {
    map j | j in jobs ::
      if Expired(jobs[j], now) && j !in locked then FailedOnce(jobs[j], now, maxAttempts) else jobs[j]
  }

  function ReapExpired(s: State, maxAttempts: nat, now: int, locked: set<Id>): Outcome {
    Ok(s.(jobs := ReapedJobs(s.jobs, maxAttempts, now, locked)))
  }
}
