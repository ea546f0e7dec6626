/** The task queue, the publication store and the vector tombstones as programs over mutable tables,
    each proved to take exactly one step of the state machine. A transaction works on its own copies and
    assigns the tables only when it commits. */
module IngestDatabase {
  import opened Prelude
  import opened IngestTables
  import TaskQueue
  import Publication
  import IngestRuns

  class Database {
    var documents: map<Id, Document>
    var jobs: map<Id, Job>
    var generations: map<Id, Generation>
    var vectors: map<Id, VectorRow>
    var chunks: map<Id, ChunkRow>
    var deletedDocuments: map<Id, Id>
    var epochs: map<ScopeKey, nat>
    var profile: Option<Id>
    ghost var issued: set<Id>

    ghost function Tables(): State
      reads this
    {
      State(documents, jobs, generations, vectors, chunks, deletedDocuments, epochs, profile, issued)
    }

    /** Claims the oldest due job that no other transaction has locked. */
    method ClaimNext(now: int, locked: set<Id>, token: Id, generation: Id, leaseSeconds: nat) returns (claimed: Option<Id>)
      modifies this
      ensures claimed.None? ==>
                Tables() == old(Tables()) && forall k :: k in jobs ==> !TaskQueue.Due(jobs, now, locked, k)
      ensures claimed.Some? ==>
                && TaskQueue.NextDue(old(jobs), now, locked, claimed.value)
                && Tables() == IngestRuns.Next(old(Tables()), IngestRuns.Claim(claimed.value, now, locked, token, generation, leaseSeconds))
    {
      claimed := None;
      var rest := jobs.Keys;
      while rest != {}
        invariant rest <= jobs.Keys && Tables() == old(Tables())
        invariant claimed.None? ==> forall k :: k in jobs.Keys - rest ==> !TaskQueue.Due(jobs, now, locked, k)
        invariant claimed.Some? ==>
                    && TaskQueue.Due(jobs, now, locked, claimed.value)
                    && forall k :: k in jobs.Keys - rest && TaskQueue.Due(jobs, now, locked, k) ==>
                         jobs[claimed.value].createdAt <= jobs[k].createdAt
        decreases rest
      {
        var k :| k in rest;
        if TaskQueue.Due(jobs, now, locked, k) && (claimed.None? || jobs[k].createdAt < jobs[claimed.value].createdAt) {
          claimed := Some(k);
        }
        rest := rest - {k};
      }
      if claimed.Some? {
        var j := claimed.value;
        jobs := jobs[j := TaskQueue.Claimed(jobs[j], now, token, generation, leaseSeconds)];
        issued := issued + {token, generation};
      }
    }

    method Enqueue(j: Id, now: int) returns (result: Result<(), Failure>)
      modifies this
      ensures Tables() == IngestRuns.Next(old(Tables()), IngestRuns.Enqueue(j, now))
      ensures result.Err? <==> IngestRuns.Step(old(Tables()), IngestRuns.Enqueue(j, now)).Err?
    {
      if j in jobs {
        var job := jobs[j];
        if !ActiveJob(job) && HasActiveJob(jobs, job.documentId) {
          return Err(UniqueViolation);
        }
        jobs := jobs[j := job.(status := Queued, availableAt := now, leaseToken := None)];
      }
      return Ok(());
    }

    method SetStage(j: Id, stage: string, token: Id, clock: int) returns (result: Result<(), Failure>)
      modifies this
      ensures Tables() == IngestRuns.Next(old(Tables()), IngestRuns.SetStage(j, stage, token, clock))
      ensures result == if TaskQueue.Holds(old(jobs), j, token, clock) then Ok(()) else Err(StaleLease)
    {
      if !TaskQueue.Holds(jobs, j, token, clock) {
        return Err(StaleLease);
      }
      jobs := jobs[j := jobs[j].(stage := stage)];
      return Ok(());
    }

    method Renew(j: Id, token: Id, clock: int, leaseSeconds: nat) returns (result: Result<(), Failure>)
      modifies this
      ensures Tables() == IngestRuns.Next(old(Tables()), IngestRuns.Renew(j, token, clock, leaseSeconds))
      ensures result == if TaskQueue.Holds(old(jobs), j, token, clock) then Ok(()) else Err(StaleLease)
    {
      if !TaskQueue.Holds(jobs, j, token, clock) {
        return Err(StaleLease);
      }
      jobs := jobs[j := jobs[j].(leaseExpiresAt := Some(clock + leaseSeconds * SECOND))];
      return Ok(());
    }

    method Complete(j: Id, token: Id, clock: int) returns (result: Result<(), Failure>)
      modifies this
      ensures Tables() == IngestRuns.Next(old(Tables()), IngestRuns.Complete(j, token, clock))
      ensures result == if TaskQueue.Holds(old(jobs), j, token, clock) then Ok(()) else Err(StaleLease)
    {
      if !TaskQueue.Holds(jobs, j, token, clock) {
        return Err(StaleLease);
      }
      jobs := jobs[j := jobs[j].(status := Done, stage := "done", leaseExpiresAt := None, leaseToken := None)];
      return Ok(());
    }

    /** Returns the status the job ends up in. */
    method RetryOrDead(j: Id, maxAttempts: nat, token: Id, now: int, clock: int) returns (result: Result<Status, Failure>)
      modifies this
      ensures Tables() == IngestRuns.Next(old(Tables()), IngestRuns.RetryOrDead(j, maxAttempts, token, now, clock))
      ensures TaskQueue.Holds(old(jobs), j, token, clock) ==> j in jobs && result == Ok(jobs[j].status)
      ensures !TaskQueue.Holds(old(jobs), j, token, clock) ==> result == Err(StaleLease)
    {
      if !TaskQueue.Holds(jobs, j, token, clock) {
        return Err(StaleLease);
      }
      var attempts := jobs[j].attempts + 1;
      var status := if attempts < maxAttempts then Queued else Dead;
      var delay := TaskQueue.RetryDelaySeconds(attempts);
      jobs := jobs[j := jobs[j].(attempts := attempts, status := status, leaseExpiresAt := None, leaseToken := None,
                                 availableAt := now + delay * SECOND)];
      return Ok(status);
    }

    /** Takes every unlocked job with an expired lease back, one row at a time. */
    method ReapExpired(maxAttempts: nat, now: int, locked: set<Id>) returns (reclaimed: nat)
      modifies this
      ensures Tables() == IngestRuns.Next(old(Tables()), IngestRuns.ReapExpired(maxAttempts, now, locked))
      ensures reclaimed == |set j | j in old(jobs) && TaskQueue.Expired(old(jobs)[j], now) && j !in locked|
    {
      var expired := set j | j in jobs && TaskQueue.Expired(jobs[j], now) && j !in locked;
      var after := jobs;
      var rest := expired;
      while rest != {}
        invariant rest <= expired && after.Keys == jobs.Keys
        invariant forall j :: j in jobs ==>
                    after[j] == if j in expired - rest then TaskQueue.FailedOnce(jobs[j], now, maxAttempts) else jobs[j]
        decreases rest
      {
        var j :| j in rest;
        var attempts := after[j].attempts + 1;
        var status := if attempts < maxAttempts then Queued else Dead;
        var delay := TaskQueue.RetryDelaySeconds(attempts);
        var reaped := after[j].(attempts := attempts, status := status, leaseExpiresAt := None, leaseToken := None,
                                availableAt := now + delay * SECOND);
        assert reaped == TaskQueue.FailedOnce(jobs[j], now, maxAttempts);
        hide TaskQueue.FailedOnce, TaskQueue.RetryDelaySeconds;
        after := after[j := reaped];
        rest := rest - {j};
      }
      hide TaskQueue.FailedOnce;
      assert after == TaskQueue.ReapedJobs(jobs, maxAttempts, now, locked);
      jobs := after;
      return |expired|;
    }

    /** Marks the live rows of a document deleted; returns how many there were. */
    method DeleteByDocument(tenantId: Id, d: Id) returns (removed: nat)
      modifies this
      ensures Tables() == IngestRuns.Next(old(Tables()), IngestRuns.TombstoneVectors(tenantId, d))
      ensures removed == |set c | c in old(vectors) && old(vectors)[c].documentId == d
                                  && old(vectors)[c].tenantId == tenantId && !old(vectors)[c].deleted|
    {
      var live := set c | c in vectors && vectors[c].documentId == d && vectors[c].tenantId == tenantId && !vectors[c].deleted;
      vectors := map c | c in vectors :: if c in live then vectors[c].(deleted := true) else vectors[c];
      return |live|;
    }

    /** Publishes a generation, or changes nothing. */
    method Publish(r: Publication.Request, start: int, commit: int) returns (result: Result<Id, Failure>)
      modifies this
      ensures Tables() == IngestRuns.Next(old(Tables()), IngestRuns.Publish(r, start, commit))
      ensures
        match IngestRuns.Step(old(Tables()), IngestRuns.Publish(r, start, commit))
        case Ok(_) => result.Ok? && r.job.generationId == Some(result.value)
        case Err(e) => result == Err(e)
    {
      var prepared := Prepare(r, start);
      if prepared.Err? {
        return Err(prepared.error);
      }
      result := Commit(r, prepared.value, commit);
    }

    method Commit(r: Publication.Request, prepared: Publication.Prepared, commit: int) returns (result: Result<Id, Failure>)
      requires r.job.leaseToken.Some? && r.job.generationId.Some?
      modifies this
      ensures
        match Publication.Commit(old(Tables()), r, prepared, commit)
        case Ok(after) => Tables() == after && result == Ok(r.job.generationId.value)
        case Err(e) => Tables() == old(Tables()) && result == Err(e)
    {
      var d, g, current := r.document.id, r.job.generationId.value, prepared.current;
      if !TaskQueue.Holds(jobs, r.jobId, r.job.leaseToken.value, commit) {
        return Err(StaleLease);
      }
      generations := generations[g := Publication.NewGeneration(r, current)];
      vectors := prepared.vectors;
      chunks := prepared.chunks;
      documents := documents[d := current.(activeGeneration := Some(g), indexedVersion := Some(r.document.version))];
      epochs := Bump(epochs, EpochKey(current.permissions.scope, r.document.tenantId));
      jobs := jobs[r.jobId := TaskQueue.Finished(jobs[r.jobId])];
      return Ok(g);
    }

    /** Checks the request and works out the new rows on private copies of the tables. */
    method Prepare(r: Publication.Request, start: int) returns (result: Result<Publication.Prepared, Failure>)
      ensures result == Publication.Prepare(Tables(), r, start)
    {
      var admitted := Admit(r, start);
      if admitted.Err? {
        return Err(admitted.error);
      }
      var current := admitted.value;
      var d, g := r.document.id, r.job.generationId.value;
      if g in generations {
        return Err(UniqueViolation);
      }
      var newVectors := InsertVectorRows(vectors, r, g, current);
      if newVectors.None? {
        return Err(UniqueViolation);
      }
      var newChunks := InsertChunkRows(Publication.WithoutChunksOf(chunks, d, r.document.tenantId), r, g);
      if newChunks.None? {
        return Err(UniqueViolation);
      }
      return Ok(Publication.Prepared(current, Publication.RetireUnversioned(newVectors.value, d, r.document.tenantId), newChunks.value));
    }

    /** The checks before anything is written; yields the locked document row. */
    method Admit(r: Publication.Request, start: int) returns (result: Result<Document, Failure>)
      ensures result == Publication.Admit(Tables(), r, start)
    {
      if r.job.leaseToken.None? || r.job.generationId.None? {
        return Err(StaleLease);
      }
      var accepted := Validate(r);
      if !accepted || profile != Some(r.profileId) {
        return Err(InvalidInput);
      }
      var d := r.document.id;
      if d !in documents || documents[d].tenantId != r.document.tenantId {
        return Err(StaleLease);
      }
      var current := documents[d];
      if !TaskQueue.Holds(jobs, r.jobId, r.job.leaseToken.value, start)
         || jobs[r.jobId].documentId != d || jobs[r.jobId].generationId != r.job.generationId {
        return Err(StaleLease);
      }
      if current.version != r.document.version || Some(current.contentSha) != r.document.contentSha {
        return Err(StaleLease);
      }
      if current.activeGeneration != r.document.activeGeneration {
        return Err(StaleLease);
      }
      return Ok(current);
    }
  }

  /** Chunk by chunk: matching ids and tenant, finite vectors of the configured dimension, true hashes. */
  method Validate(r: Publication.Request) returns (accepted: bool)
    ensures accepted <==>
              && r.chunks != []
              && |r.chunks| == |r.points|
              && forall i :: 0 <= i < |r.chunks| ==> Publication.PairAccepted(r, r.chunks[i], r.points[i])
  {
    if r.chunks == [] || |r.chunks| != |r.points| {
      return false;
    }
    for i := 0 to |r.chunks|
      invariant forall k :: 0 <= k < i ==> Publication.PairAccepted(r, r.chunks[k], r.points[k])
    {
      if !Publication.PairAccepted(r, r.chunks[i], r.points[i]) {
        return false;
      }
    }
    return true;
  }

  method InsertVectorRows(vectors: map<Id, VectorRow>, r: Publication.Request, g: Id, current: Document)
    returns (after: Option<map<Id, VectorRow>>)
    requires |r.chunks| == |r.points|
    ensures after == InsertAll(vectors, Publication.NewVectorRows(r, g, current))
  {
    ghost var rows := Publication.NewVectorRows(r, g, current);
    var table := vectors;
    for i := 0 to |r.chunks|
      invariant InsertAll(vectors, rows) == InsertAll(table, rows[i..])
    {
      var row := Publication.NewVectorRow(r, g, current, r.chunks[i], r.points[i]);
      assert rows[i..][0] == row && rows[i..][1..] == rows[i + 1..];
      if row.0 in table {
        return None;
      }
      table := table[row.0 := row.1];
    }
    return Some(table);
  }

  method InsertChunkRows(chunks: map<Id, ChunkRow>, r: Publication.Request, g: Id) returns (after: Option<map<Id, ChunkRow>>)
    ensures after == InsertAll(chunks, Publication.NewChunkRows(r, g))
  {
    ghost var rows := Publication.NewChunkRows(r, g);
    var table := chunks;
    for i := 0 to |r.chunks|
      invariant InsertAll(chunks, rows) == InsertAll(table, rows[i..])
    {
      var row := Publication.NewChunkRow(r, g, r.chunks[i]);
      assert rows[i..][0] == row && rows[i..][1..] == rows[i + 1..];
      if row.0 in table {
        return None;
      }
      table := table[row.0 := row.1];
    }
    return Some(table);
  }
}
