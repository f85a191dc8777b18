/** The leased job queue: every operation of `DurableJobQueue` is one database transaction on the job table.
    Times are integers in the order of the stored time stamps. */
module Queue {
  import opened Wrappers

  datatype JobStatus = Queued | Running | Succeeded | Dead

  datatype Lease = Lease(owner: string, token: string, until: int)

  datatype Job = Job(
    status: JobStatus, attempts: nat, maxAttempts: int, runAfter: int, createdAt: int,
    leaseOwner: Option<string>, leaseToken: Option<string>, leasedUntil: Option<int>, lastError: Option<string>)

  type Table = map<string, Job>

  /* ---------- the transactions as functions of the table ---------- */

  function NewJob(maxAttempts: int, runAfter: int, stamp: int): Job
  {
    Job(Queued, 0, maxAttempts, runAfter, stamp, None, None, None, None)
  }

  /** Queued, or running with a lease that ended before `now`. */
  predicate Claimable(job: Job, now: int)
  {
    job.status == Queued || (job.status == Running && job.leasedUntil.Some? && job.leasedUntil.value < now)
  }

  /** The `where` clause of both candidate queries. */
  predicate Eligible(job: Job, now: int)
  {
    job.runAfter <= now && Claimable(job, now)
  }

  function Claimed(job: Job, worker: string, token: string, until: int): Job
  {
    job.(status := Running, leaseOwner := Some(worker), leaseToken := Some(token), leasedUntil := Some(until),
         attempts := job.attempts + 1)
  }

  /** The live-lease test shared by renew, complete and fail. */
  predicate Holds(job: Job, worker: string, token: string, now: int)
  {
    && job.status == Running && job.leaseOwner == Some(worker) && job.leaseToken == Some(token)
    && job.leasedUntil.Some? && job.leasedUntil.value >= now
  }

  function Released(job: Job, status: JobStatus): Job
  {
    job.(status := status, leaseOwner := None, leaseToken := None, leasedUntil := None)
  }

  function FailStatus(job: Job): JobStatus
  {
    if job.attempts as int >= job.maxAttempts then Dead else Queued
  }

  function AfterFail(job: Job, runAfter: int, error: string): Job
  {
    Released(job, FailStatus(job)).(runAfter := runAfter, lastError := Some(if |error| <= 4000 then error else error[..4000]))
  }

  /* ---------- the transactions as they run ---------- */

  class JobTable {
    var jobs: Table

    constructor ()
      ensures jobs == map[]
    {
      jobs := map[];
    }

    method Enqueue(id: string, maxAttempts: int, runAfter: int, stamp: int)
      requires id !in jobs
      modifies this
      ensures jobs == old(jobs)[id := NewJob(maxAttempts, runAfter, stamp)]
    {
      jobs := jobs[id := NewJob(maxAttempts, runAfter, stamp)];
    }

    /** The row-lock claim: the first eligible row by run-after and creation time that no other transaction
        has locked. */
    method ClaimRow(worker: string, token: string, now: int, leaseSeconds: int, locked: set<string>) returns (claimed: Option<string>)
      modifies this
      ensures match claimed
        case None => jobs == old(jobs) && forall id :: id in jobs && id !in locked ==> !Eligible(jobs[id], now)
        case Some(id) =>
          && id in old(jobs) && id !in locked && Eligible(old(jobs)[id], now)
          && (forall other :: other in old(jobs) && other !in locked && Eligible(old(jobs)[other], now) ==>
                || old(jobs)[id].runAfter < old(jobs)[other].runAfter
                || (old(jobs)[id].runAfter == old(jobs)[other].runAfter && old(jobs)[id].createdAt <= old(jobs)[other].createdAt))
          && jobs == old(jobs)[id := Claimed(old(jobs)[id], worker, token, now + leaseSeconds)]
    {
      var rest := jobs.Keys;
      claimed := None;
      while rest != {}
        invariant rest <= jobs.Keys && jobs == old(jobs)
        invariant claimed.Some? ==> claimed.value in jobs && claimed.value !in locked && Eligible(jobs[claimed.value], now)
        invariant forall id :: id in jobs && id !in rest && id !in locked && Eligible(jobs[id], now) ==>
          (claimed.Some? && !Earlier(jobs[id], jobs[claimed.value]))
        decreases |rest|
      {
        var id :| id in rest;
        rest := rest - {id};
        if id !in locked && Eligible(jobs[id], now) && (claimed.None? || Earlier(jobs[id], jobs[claimed.value])) {
          claimed := Some(id);
        }
      }
      if claimed.Some? {
        jobs := jobs[claimed.value := Claimed(jobs[claimed.value], worker, token, now + leaseSeconds)];
      }
    }

    /** The compare-and-swap claim over candidates listed earlier: each attempt re-tests only that the job
        is claimable. */
    method ClaimCandidates(candidates: seq<string>, worker: string, token: string, now: int, leaseSeconds: int)
      returns (claimed: Option<nat>)
      modifies this
      ensures match claimed
        case None => jobs == old(jobs) && forall i :: 0 <= i < |candidates| ==> !Swappable(old(jobs), candidates[i], now)
        case Some(k) =>
          && k < |candidates| && Swappable(old(jobs), candidates[k], now)
          && (forall i :: 0 <= i < k ==> !Swappable(old(jobs), candidates[i], now))
          && jobs == old(jobs)[candidates[k] := Claimed(old(jobs)[candidates[k]], worker, token, now + leaseSeconds)]
    {
      for i := 0 to |candidates|
        invariant jobs == old(jobs)
        invariant forall j :: 0 <= j < i ==> !Swappable(jobs, candidates[j], now)
      {
        var id := candidates[i];
        if Swappable(jobs, id, now) {
          jobs := jobs[id := Claimed(jobs[id], worker, token, now + leaseSeconds)];
          return Some(i);
        }
      }
      return None;
    }

    method Renew(id: string, worker: string, token: string, now: int, leaseSeconds: int) returns (accepted: bool)
      modifies this
      ensures accepted <==> id in old(jobs) && Holds(old(jobs)[id], worker, token, now)
      ensures jobs == if accepted then old(jobs)[id := old(jobs)[id].(leasedUntil := Some(now + leaseSeconds))] else old(jobs)
    {
      accepted := id in jobs && Holds(jobs[id], worker, token, now);
      if accepted {
        jobs := jobs[id := jobs[id].(leasedUntil := Some(now + leaseSeconds))];
      }
    }

    method Complete(id: string, worker: string, token: string, now: int) returns (accepted: bool)
      modifies this
      ensures accepted <==> id in old(jobs) && Holds(old(jobs)[id], worker, token, now)
      ensures jobs == if accepted then old(jobs)[id := Released(old(jobs)[id], Succeeded)] else old(jobs)
    {
      accepted := id in jobs && Holds(jobs[id], worker, token, now);
      if accepted {
        jobs := jobs[id := Released(jobs[id], Succeeded)];
      }
    }

    method Fail(id: string, worker: string, token: string, error: string, now: int, runAfter: int) returns (status: Option<JobStatus>)
      modifies this
      ensures status.Some? <==> id in old(jobs) && Holds(old(jobs)[id], worker, token, now)
      ensures status.Some? ==> status.value == FailStatus(old(jobs)[id])
      ensures jobs == if status.Some? then old(jobs)[id := AfterFail(old(jobs)[id], runAfter, error)] else old(jobs)
    {
      if id !in jobs || !Holds(jobs[id], worker, token, now) {
        return None;
      }
      status := Some(FailStatus(jobs[id]));
      jobs := jobs[id := AfterFail(jobs[id], runAfter, error)];
    }
  }

  /** `order_by(run_after, created_at)`, strictly before. */
  predicate Earlier(a: Job, b: Job)
  {
    a.runAfter < b.runAfter || (a.runAfter == b.runAfter && a.createdAt < b.createdAt)
  }

  predicate Swappable(jobs: Table, id: string, now: int)
  {
    id in jobs && Claimable(jobs[id], now)
  }
}
