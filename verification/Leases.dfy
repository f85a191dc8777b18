/** All interleavings of queue transactions by any number of workers: fencing tokens, lease exclusion, retry
    accounting. */
module Leases {
  import opened Wrappers
  import opened Queue

  /** A transaction, with the clock reading it was issued with (possibly stale when it commits). */
  datatype Op =
    | Enqueue(id: string, maxAttempts: int, runAfter: int, stamp: int)
    | ClaimRow(id: string, token: string, worker: string, now: int, leaseSeconds: int)
    | ClaimSwap(id: string, token: string, worker: string, now: int, leaseSeconds: int)
    | Renew(id: string, token: string, worker: string, now: int, leaseSeconds: int)
    | Complete(id: string, token: string, worker: string, now: int)
    | Fail(id: string, token: string, worker: string, now: int, retryAt: int, error: string)
    | Tick(to: int)

  /** What the history records of an accepted transaction. */
  datatype Entry =
    | Claimed(id: string, token: string, reclaim: bool)
    | Renewed(id: string, token: string)
    | Completed(id: string, token: string)
    | Failed(id: string, token: string, terminal: bool)

  /** The table, the real clock, and the history of accepted transactions. */
  datatype State = State(jobs: Table, clock: int, log: seq<Entry>)

  const Initial: State := State(map[], 0, [])

  predicate TokenUsed(log: seq<Entry>, token: string)
  {
    exists i :: 0 <= i < |log| && log[i].Claimed? && log[i].token == token
  }

  /** What the environment guarantees: job ids and lease tokens are fresh identifiers, the clock only moves
      forward, and a reading is never ahead of it. */
  predicate Possible(s: State, op: Op)
  {
    match op
    case Enqueue(id, _, _, _) => id !in s.jobs
    case ClaimRow(_, token, _, now, _) => !TokenUsed(s.log, token) && now <= s.clock
    case ClaimSwap(_, token, _, now, _) => !TokenUsed(s.log, token) && now <= s.clock
    case Tick(to) => to >= s.clock
    case _ => op.now <= s.clock
  }

  function Claim(s: State, id: string, token: string, worker: string, until: int): State
    requires id in s.jobs
  {
    s.(jobs := s.jobs[id := Queue.Claimed(s.jobs[id], worker, token, until)],
       log := s.log + [Claimed(id, token, s.jobs[id].status == Running)])
  }

  /** One committed transaction; a refused one changes nothing. */
  function Step(s: State, op: Op): State
  {
    match op
    case Enqueue(id, maxAttempts, runAfter, stamp) => s.(jobs := s.jobs[id := NewJob(maxAttempts, runAfter, stamp)])
    case ClaimRow(id, token, worker, now, leaseSeconds) =>
      if id in s.jobs && Eligible(s.jobs[id], now) then Claim(s, id, token, worker, now + leaseSeconds) else s
    case ClaimSwap(id, token, worker, now, leaseSeconds) =>
      if Swappable(s.jobs, id, now) then Claim(s, id, token, worker, now + leaseSeconds) else s
    case Renew(id, token, worker, now, leaseSeconds) =>
      if id in s.jobs && Holds(s.jobs[id], worker, token, now) then
        s.(jobs := s.jobs[id := s.jobs[id].(leasedUntil := Some(now + leaseSeconds))], log := s.log + [Renewed(id, token)])
      else s
    case Complete(id, token, worker, now) =>
      if id in s.jobs && Holds(s.jobs[id], worker, token, now) then
        s.(jobs := s.jobs[id := Released(s.jobs[id], Succeeded)], log := s.log + [Completed(id, token)])
      else s
    case Fail(id, token, worker, now, retryAt, error) =>
      if id in s.jobs && Holds(s.jobs[id], worker, token, now) then
        s.(jobs := s.jobs[id := AfterFail(s.jobs[id], retryAt, error)],
           log := s.log + [Failed(id, token, FailStatus(s.jobs[id]) == Dead)])
      else s
    case Tick(to) => s.(clock := to)
  }

  /** Each step is what the queue's own transaction does to the job table. */
  method Perform(table: JobTable, ghost s: State, op: Op)
    requires table.jobs == s.jobs && Possible(s, op)
    modifies table
    ensures table.jobs == Step(s, op).jobs
  {
    match op
    case Enqueue(id, maxAttempts, runAfter, stamp) => table.Enqueue(id, maxAttempts, runAfter, stamp);
    case ClaimRow(id, token, worker, now, leaseSeconds) =>
      var _ := table.ClaimRow(worker, token, now, leaseSeconds, table.jobs.Keys - {id});
    case ClaimSwap(id, token, worker, now, leaseSeconds) =>
      var candidates := [id];
      assert candidates[0] == id;
      var _ := table.ClaimCandidates(candidates, worker, token, now, leaseSeconds);
    case Renew(id, token, worker, now, leaseSeconds) => var _ := table.Renew(id, worker, token, now, leaseSeconds);
    case Complete(id, token, worker, now) => var _ := table.Complete(id, worker, token, now);
    case Fail(id, token, worker, now, retryAt, error) => var _ := table.Fail(id, worker, token, error, now, retryAt);
    case Tick(_) =>
  }

  /** Any interleaving: the transactions of all workers in commit order. */
  predicate Run(s: State, ops: seq<Op>)
    decreases |ops|
  {
    ops == [] || (Possible(s, ops[0]) && Run(Step(s, ops[0]), ops[1..]))
  }

  function Final(s: State, ops: seq<Op>): State
    decreases |ops|
  {
    if ops == [] then s else Final(Step(s, ops[0]), ops[1..])
  }

  /* ---------- the lifecycle of one job, read off the history ---------- */

  /** The last entry about a job, renewals aside. */
  function Last(log: seq<Entry>, id: string): Option<Entry>
  {
    if log == [] then None
    else
      var e := log[|log| - 1];
      if e.id == id && !e.Renewed? then Some(e) else Last(log[..|log| - 1], id)
  }

  /** What may come next for a job: a claim when it is free, or a reclaim with a fresh token; and a renewal,
      completion or failure only with the token of the latest claim. */
  predicate Follows(log: seq<Entry>, e: Entry)
  {
    var last := Last(log, e.id);
    match e
    case Claimed(_, token, reclaim) =>
      && !TokenUsed(log, token)
      && if reclaim then last.Some? && last.value.Claimed?
         else last.None? || (last.value.Failed? && !last.value.terminal)
    case _ => last.Some? && last.value.Claimed? && last.value.token == e.token
  }

  predicate Disciplined(log: seq<Entry>)
  {
    forall k {:trigger log[..k]} :: 0 <= k < |log| ==> Follows(log[..k], log[k])
  }

  function Count(log: seq<Entry>, id: string, kind: Entry -> bool): nat
  {
    if log == [] then 0
    else Count(log[..|log| - 1], id, kind) + (if log[|log| - 1].id == id && kind(log[|log| - 1]) then 1 else 0)
  }

  function Claims(log: seq<Entry>, id: string): nat { Count(log, id, (e: Entry) => e.Claimed?) }
  function Reclaims(log: seq<Entry>, id: string): nat { Count(log, id, (e: Entry) => e.Claimed? && e.reclaim) }
  function Completions(log: seq<Entry>, id: string): nat { Count(log, id, (e: Entry) => e.Completed?) }

  function Budget(job: Job): nat
  {
    if job.maxAttempts > 1 then job.maxAttempts else 1
  }

  /** The row of a job is what its history says. */
  predicate RowMatches(job: Job, last: Option<Entry>)
  {
    && (job.status == Running <==> job.leaseOwner.Some?)
    && (job.status == Running <==> job.leaseToken.Some?)
    && (job.status == Running <==> job.leasedUntil.Some?)
    && match last
       case None => job.status == Queued && job.attempts == 0
       case Some(Claimed(_, token, _)) => job.status == Running && job.leaseToken == Some(token)
       case Some(Completed(_, _)) => job.status == Succeeded
       case Some(Failed(_, _, terminal)) =>
         if terminal then job.status == Dead else job.status == Queued && job.attempts < job.maxAttempts
       case Some(Renewed(_, _)) => false
  }

  predicate JobInv(s: State, id: string)
    requires id in s.jobs
  {
    && RowMatches(s.jobs[id], Last(s.log, id))
    && s.jobs[id].attempts == Claims(s.log, id)
    && s.jobs[id].attempts <= Budget(s.jobs[id]) + Reclaims(s.log, id)
    && Completions(s.log, id) == (if s.jobs[id].status == Succeeded then 1 else 0)
  }

  predicate Inv(s: State)
  {
    && Disciplined(s.log)
    && (forall k :: 0 <= k < |s.log| ==> s.log[k].id in s.jobs)
    && forall id :: id in s.jobs ==> JobInv(s, id)
  }

  /* ---------- every step keeps the invariant ---------- */

  lemma AppendOther(log: seq<Entry>, e: Entry, id: string, kind: Entry -> bool)
    ensures (log + [e])[..|log|] == log
    ensures Count(log + [e], id, kind) == Count(log, id, kind) + if e.id == id && kind(e) then 1 else 0
    ensures Last(log + [e], id) == if e.id == id && !e.Renewed? then Some(e) else Last(log, id)
  {
    assert (log + [e])[..|log|] == log;
  }

  lemma AppendDisciplined(log: seq<Entry>, e: Entry)
    requires Disciplined(log) && Follows(log, e)
    ensures Disciplined(log + [e])
  {
    var longer := log + [e];
    forall k {:trigger longer[..k]} | 0 <= k < |longer| ensures Follows(longer[..k], longer[k]) {
      if k < |log| {
        assert longer[..k] == log[..k];
      } else {
        assert longer[..k] == log;
      }
    }
  }

  lemma {:induction false} NoEntries(log: seq<Entry>, id: string, kind: Entry -> bool)
    requires forall k :: 0 <= k < |log| ==> log[k].id != id
    ensures Last(log, id) == None && Count(log, id, kind) == 0
  {
    if log != [] {
      NoEntries(log[..|log| - 1], id, kind);
    }
  }

  /** Appending an entry keeps every other job's part of the invariant. */
  lemma OtherJobKept(s: State, t: State, e: Entry, id: string)
    requires id in s.jobs && JobInv(s, id) && e.id != id
    requires id in t.jobs && t.jobs[id] == s.jobs[id] && t.log == s.log + [e]
    ensures JobInv(t, id)
  {
    AppendOther(s.log, e, id, (x: Entry) => x.Claimed?);
    AppendOther(s.log, e, id, (x: Entry) => x.Claimed? && x.reclaim);
    AppendOther(s.log, e, id, (x: Entry) => x.Completed?);
  }

  lemma OwnCounts(log: seq<Entry>, e: Entry)
    ensures Last(log + [e], e.id) == if e.Renewed? then Last(log, e.id) else Some(e)
    ensures Claims(log + [e], e.id) == Claims(log, e.id) + if e.Claimed? then 1 else 0
    ensures Reclaims(log + [e], e.id) == Reclaims(log, e.id) + if e.Claimed? && e.reclaim then 1 else 0
    ensures Completions(log + [e], e.id) == Completions(log, e.id) + if e.Completed? then 1 else 0
  {
    AppendOther(log, e, e.id, (x: Entry) => x.Claimed?);
    AppendOther(log, e, e.id, (x: Entry) => x.Claimed? && x.reclaim);
    AppendOther(log, e, e.id, (x: Entry) => x.Completed?);
  }

  /** A step that appends one entry and changes that entry's row. */
  lemma EntryKeepsInv(s: State, t: State, e: Entry)
    requires Inv(s) && e.id in s.jobs && Follows(s.log, e)
    requires t.log == s.log + [e] && t.jobs.Keys == s.jobs.Keys
    requires forall id :: id in s.jobs && id != e.id ==> t.jobs[id] == s.jobs[id]
    requires JobInv(t, e.id)
    ensures Inv(t)
  {
    AppendDisciplined(s.log, e);
    forall id | id in t.jobs ensures JobInv(t, id) {
      if id != e.id { OtherJobKept(s, t, e, id); }
    }
  }

  lemma ClaimKeepsInv(s: State, id: string, token: string, worker: string, now: int, until: int)
    requires Inv(s) && id in s.jobs && Claimable(s.jobs[id], now) && !TokenUsed(s.log, token)
    ensures Inv(Claim(s, id, token, worker, until))
  {
    var t := Claim(s, id, token, worker, until);
    var e := Claimed(id, token, s.jobs[id].status == Running);
    assert JobInv(s, id);
    OwnCounts(s.log, e);
    EntryKeepsInv(s, t, e);
  }

  /** The operations of a lease holder. */
  predicate HeldOp(s: State, op: Op)
  {
    (op.Renew? || op.Complete? || op.Fail?) && op.id in s.jobs && Holds(s.jobs[op.id], op.worker, op.token, op.now)
  }

  function EntryOf(s: State, op: Op): Entry
    requires HeldOp(s, op)
  {
    match op
    case Renew(id, token, _, _, _) => Renewed(id, token)
    case Complete(id, token, _, _) => Completed(id, token)
    case Fail(id, token, _, _, _, _) => Failed(id, token, FailStatus(s.jobs[id]) == Dead)
  }

  lemma HolderAppends(s: State, op: Op)
    requires Inv(s) && HeldOp(s, op)
    ensures Follows(s.log, EntryOf(s, op))
    ensures var t := Step(s, op);
            t.log == s.log + [EntryOf(s, op)] && t.jobs.Keys == s.jobs.Keys &&
            forall id :: id in s.jobs && id != op.id ==> t.jobs[id] == s.jobs[id]
  {
    assert JobInv(s, op.id);
  }

  lemma HolderRowKept(s: State, op: Op)
    requires Inv(s) && HeldOp(s, op)
    ensures op.id in Step(s, op).jobs && JobInv(Step(s, op), op.id)
  {
    assert JobInv(s, op.id);
    OwnCounts(s.log, EntryOf(s, op));
  }

  lemma HolderKeepsInv(s: State, op: Op)
    requires Inv(s) && HeldOp(s, op)
    ensures Inv(Step(s, op))
  {
    HolderAppends(s, op);
    HolderRowKept(s, op);
    EntryKeepsInv(s, Step(s, op), EntryOf(s, op));
  }

  lemma EnqueueKeepsInv(s: State, op: Op)
    requires Inv(s) && op.Enqueue? && op.id !in s.jobs
    ensures Inv(Step(s, op))
  {
    var t := Step(s, op);
    NoEntries(s.log, op.id, (x: Entry) => x.Claimed?);
    NoEntries(s.log, op.id, (x: Entry) => x.Claimed? && x.reclaim);
    NoEntries(s.log, op.id, (x: Entry) => x.Completed?);
    forall id | id in t.jobs ensures JobInv(t, id) {
      if id != op.id { assert JobInv(s, id); }
    }
  }

  lemma StepKeepsInv(s: State, op: Op)
    requires Inv(s) && Possible(s, op)
    ensures Inv(Step(s, op))
  {
    if op.Enqueue? {
      EnqueueKeepsInv(s, op);
    } else if op.ClaimRow? || op.ClaimSwap? {
      ClaimStepKeepsInv(s, op);
    } else if op.Tick? {
      TickKeepsInv(s, op.to);
    } else {
      HolderStepKeepsInv(s, op);
    }
  }

  lemma ClaimStepIs(s: State, op: Op)
    requires op.ClaimRow? || op.ClaimSwap?
    ensures Step(s, op) == s
      || (op.id in s.jobs && Claimable(s.jobs[op.id], op.now)
          && Step(s, op) == Claim(s, op.id, op.token, op.worker, op.now + op.leaseSeconds))
  {
  }

  lemma ClaimTokenIsFresh(s: State, op: Op)
    requires Possible(s, op) && (op.ClaimRow? || op.ClaimSwap?)
    ensures !TokenUsed(s.log, op.token)
  {
  }

  lemma ClaimStepKeepsInv(s: State, op: Op)
    requires Inv(s) && Possible(s, op) && (op.ClaimRow? || op.ClaimSwap?)
    ensures Inv(Step(s, op))
  {
    ClaimStepIs(s, op);
    ClaimTokenIsFresh(s, op);
    if Step(s, op) != s {
      ClaimKeepsInv(s, op.id, op.token, op.worker, op.now, op.now + op.leaseSeconds);
    }
  }

  lemma TickKeepsInv(s: State, to: int)
    requires Inv(s)
    ensures Inv(s.(clock := to))
  {
    forall id | id in s.jobs ensures JobInv(s.(clock := to), id) {
      assert JobInv(s, id);
    }
  }

  lemma HolderStepKeepsInv(s: State, op: Op)
    requires Inv(s) && (op.Renew? || op.Complete? || op.Fail?)
    ensures Inv(Step(s, op))
  {
    if op.id in s.jobs && Holds(s.jobs[op.id], op.worker, op.token, op.now) {
      HolderKeepsInv(s, op);
    }
  }

  lemma {:induction false} RunKeepsInv(s: State, ops: seq<Op>)
    requires Inv(s) && Run(s, ops)
    ensures Inv(Final(s, ops))
    decreases |ops|
  {
    if ops != [] {
      StepKeepsInv(s, ops[0]);
      RunKeepsInv(Step(s, ops[0]), ops[1..]);
    }
  }

  predicate Reachable(ops: seq<Op>)
  {
    Run(Initial, ops)
  }

  lemma ReachableInv(ops: seq<Op>)
    requires Reachable(ops)
    ensures Inv(Final(Initial, ops))
  {
    RunKeepsInv(Initial, ops);
  }

  /* ---------- reading the history ---------- */

  /** Where the last entry about a job is. */
  lemma {:induction false} LastPosition(log: seq<Entry>, id: string) returns (p: nat)
    requires Last(log, id).Some?
    ensures p < |log| && log[p] == Last(log, id).value && log[p].id == id && !log[p].Renewed?
    ensures forall k :: p < k < |log| && log[k].id == id ==> log[k].Renewed?
  {
    var n := |log| - 1;
    if log[n].id == id && !log[n].Renewed? {
      p := n;
    } else {
      p := LastPosition(log[..n], id);
      assert log[..n][p] == log[p];
      assert forall k :: p < k < n ==> log[..n][k] == log[k];
    }
  }

  lemma {:induction false} LastAtOrAfter(log: seq<Entry>, id: string, j: nat) returns (p: nat)
    requires j < |log| && log[j].id == id && !log[j].Renewed?
    ensures j <= p < |log| && Last(log, id) == Some(log[p])
  {
    var n := |log| - 1;
    if log[n].id == id && !log[n].Renewed? {
      p := n;
    } else {
      p := LastAtOrAfter(log[..n], id, j);
    }
  }

  lemma ClaimTokensDistinct(log: seq<Entry>, i: nat, j: nat)
    requires Disciplined(log) && i < j < |log| && log[i].Claimed? && log[j].Claimed?
    ensures log[i].token != log[j].token
  {
    assert Follows(log[..j], log[j]);
    assert log[..j][i] == log[i];
  }

  /** An accepted renewal, completion or failure carries the token of the job's latest claim. */
  lemma {:induction false} HolderIsLatestClaim(log: seq<Entry>, k: nat) returns (p: nat)
    requires Disciplined(log) && k < |log| && !log[k].Claimed?
    ensures p < k && log[p].Claimed? && log[p].id == log[k].id && log[p].token == log[k].token
    ensures forall m :: p < m < k && log[m].id == log[k].id ==> log[m].Renewed?
  {
    assert Follows(log[..k], log[k]);
    p := LastPosition(log[..k], log[k].id);
    assert forall m :: 0 <= m < k ==> log[..k][m] == log[m];
  }

  lemma {:induction false} LogGrows(s: State, ops: seq<Op>)
    ensures s.log <= Final(s, ops).log
    decreases |ops|
  {
    if ops != [] {
      LogGrows(Step(s, ops[0]), ops[1..]);
      assert s.log <= Step(s, ops[0]).log;
    }
  }

  /* ---------- fencing ---------- */

  /** Once a job has been claimed again, no renew, complete or fail with the earlier token is accepted, in this
      state or any later one, whoever sends it and whatever clock reading it carries. */
  lemma {:induction false} FencedForever(s: State, ops: seq<Op>, i: nat, j: nat, worker: string, now: int)
    requires Inv(s) && Run(s, ops)
    requires i < j < |s.log| && s.log[i].Claimed? && s.log[j].Claimed? && s.log[i].id == s.log[j].id
    ensures var final := Final(s, ops);
      s.log[i].id in final.jobs && !Holds(final.jobs[s.log[i].id], worker, s.log[i].token, now)
  {
    var final, id := Final(s, ops), s.log[i].id;
    RunKeepsInv(s, ops);
    LogGrows(s, ops);
    assert final.log[i] == s.log[i] && final.log[j] == s.log[j];
    assert final.log[i].id in final.jobs;
    assert JobInv(final, id);
    var p := LastAtOrAfter(final.log, id, j);
    if final.log[p].Claimed? {
      ClaimTokensDistinct(final.log, i, p);
    }
  }

  /** Each claim gets at most one accepted complete or fail. */
  lemma OneVerdictPerClaim(s: State, i: nat, k: nat)
    requires Inv(s) && i < k < |s.log|
    requires (s.log[i].Completed? || s.log[i].Failed?) && (s.log[k].Completed? || s.log[k].Failed?)
    requires s.log[i].id == s.log[k].id
    ensures s.log[i].token != s.log[k].token
  {
    var p := HolderIsLatestClaim(s.log, i);
    var q := HolderIsLatestClaim(s.log, k);
    ClaimTokensDistinct(s.log, p, q);
  }

  lemma {:induction false} CountTwo(log: seq<Entry>, id: string, kind: Entry -> bool, i: nat, k: nat)
    requires i < k < |log| && log[i].id == id && log[k].id == id && kind(log[i]) && kind(log[k])
    ensures Count(log, id, kind) >= 2
  {
    var n := |log| - 1;
    if k < n {
      CountTwo(log[..n], id, kind, i, k);
    } else {
      CountOne(log[..n], id, kind, i);
    }
  }

  lemma {:induction false} CountOne(log: seq<Entry>, id: string, kind: Entry -> bool, i: nat)
    requires i < |log| && log[i].id == id && kind(log[i])
    ensures Count(log, id, kind) >= 1
  {
    var n := |log| - 1;
    if i < n {
      CountOne(log[..n], id, kind, i);
    }
  }

  /** Each job gets at most one accepted completion. */
  lemma OneCompletionPerJob(s: State, i: nat, k: nat)
    requires Inv(s) && i < k < |s.log| && s.log[i].Completed? && s.log[k].Completed?
    ensures s.log[i].id != s.log[k].id
  {
    assert JobInv(s, s.log[i].id);
    if s.log[i].id == s.log[k].id {
      CountTwo(s.log, s.log[i].id, (e: Entry) => e.Completed?, i, k);
    }
  }

  /** Succeeded and dead jobs are never touched again. */
  lemma {:induction false} TerminalForever(s: State, ops: seq<Op>, id: string)
    requires Run(s, ops) && id in s.jobs && s.jobs[id].status in {Succeeded, Dead}
    ensures id in Final(s, ops).jobs && Final(s, ops).jobs[id] == s.jobs[id]
    decreases |ops|
  {
    if ops != [] {
      TerminalForever(Step(s, ops[0]), ops[1..], id);
    }
  }

  /* ---------- lease exclusion ---------- */

  /** No operation of another worker takes a job whose lease is live, even when it acts on a stale candidate
      list and a stale clock reading: until the lease runs out the row stays as it is, and its holder is
      still accepted. */
  lemma {:induction false} LiveLeaseIsKept(s: State, ops: seq<Op>, id: string, worker: string, token: string)
    requires Run(s, ops) && id in s.jobs && Holds(s.jobs[id], worker, token, s.clock)
    requires Final(s, ops).clock <= s.jobs[id].leasedUntil.value
    requires forall i :: 0 <= i < |ops| && (ops[i].Renew? || ops[i].Complete? || ops[i].Fail?) && ops[i].id == id ==>
      (ops[i].token != token)
    ensures var final := Final(s, ops);
      id in final.jobs && final.jobs[id] == s.jobs[id] && Holds(final.jobs[id], worker, token, final.clock)
    decreases |ops|
  {
    if ops != [] {
      var t := Step(s, ops[0]);
      ClockMonotone(t, ops[1..]);
      assert t.clock <= Final(s, ops).clock;
      assert ops[0].Tick? || t.clock == s.clock;
      LiveLeaseIsKept(t, ops[1..], id, worker, token);
    }
  }

  lemma {:induction false} ClockMonotone(s: State, ops: seq<Op>)
    requires Run(s, ops)
    ensures s.clock <= Final(s, ops).clock
    decreases |ops|
  {
    if ops != [] {
      ClockMonotone(Step(s, ops[0]), ops[1..]);
    }
  }

  /* ---------- accounting ---------- */

  /** In every reachable state: attempts count the claims and exceed the retry budget only by reclaims of
      expired leases; lease fields are set exactly while running; and the lease token is the latest claim's. */
  lemma {:induction false} Accounting(ops: seq<Op>, id: string)
    requires Reachable(ops) && id in Final(Initial, ops).jobs
    ensures var s := Final(Initial, ops);
      var job := s.jobs[id];
      && job.attempts == Claims(s.log, id)
      && job.attempts <= Budget(job) + Reclaims(s.log, id)
      && (job.status == Running <==> job.leaseOwner.Some?)
      && (job.status == Running <==> job.leaseToken.Some?)
      && (job.status == Running <==> job.leasedUntil.Some?)
      && (job.status == Succeeded <==> Completions(s.log, id) == 1)
      && Completions(s.log, id) <= 1
  {
    ReachableInv(ops);
    assert JobInv(Final(Initial, ops), id);
  }

  /* ---------- acceptance and effect, on the fields of the row ---------- */

  /** A new job is queued, untried and unleased, with the limits it was given. */
  lemma EnqueueMeans(s: State, op: Op)
    requires op.Enqueue?
    ensures Step(s, op) == s.(jobs := s.jobs[op.id := Job(Queued, 0, op.maxAttempts, op.runAfter, op.stamp, None, None, None, None)])
  {
  }

  /** A row lock claims what is due and either queued or running on a lease that ended before the clock reading; a swap
      claims the same without asking whether it is due. An accepted claim is logged as a reclaim when the job was
      running, starts the next attempt under a new lease, and leaves the rest of the row alone. */
  lemma ClaimIff(s: State, op: Op)
    requires op.ClaimRow? || op.ClaimSwap?
    ensures Step(s, op).log != s.log <==>
              op.id in s.jobs &&
              var job := s.jobs[op.id];
              && (op.ClaimRow? ==> job.runAfter <= op.now)
              && (job.status == Queued || (job.status == Running && job.leasedUntil.Some? && job.leasedUntil.value < op.now))
    ensures Step(s, op).log == s.log ==> Step(s, op) == s
    ensures Step(s, op).log != s.log ==>
              var was := s.jobs[op.id];
              && Step(s, op).log == s.log + [Claimed(op.id, op.token, was.status == Running)]
              && Step(s, op).jobs == s.jobs[op.id :=
                   Job(Running, was.attempts + 1, was.maxAttempts, was.runAfter, was.createdAt,
                       Some(op.worker), Some(op.token), Some(op.now + op.leaseSeconds), was.lastError)]
  {
  }

  /** What a failing attempt leaves of its error text. */
  predicate Shortened(text: string, error: string)
  {
    text <= error && |text| <= 4000 && (text != error ==> |text| == 4000)
  }

  /** Renewing, completing and failing are accepted from the owner of a running job, under the lease's token, up to and
      including the lease's last moment. A failure retries while attempts are left and is terminal otherwise. */
  lemma HolderIff(s: State, op: Op)
    requires op.Renew? || op.Complete? || op.Fail?
    ensures Step(s, op).log != s.log <==>
              op.id in s.jobs &&
              var job := s.jobs[op.id];
              && job.status == Running && job.leaseOwner == Some(op.worker) && job.leaseToken == Some(op.token)
              && job.leasedUntil.Some? && op.now <= job.leasedUntil.value
    ensures Step(s, op).log == s.log ==> Step(s, op) == s
    ensures Step(s, op).log != s.log ==>
              var was, now := s.jobs[op.id], Step(s, op).jobs[op.id];
              && Step(s, op).jobs == s.jobs[op.id := now]
              && now.attempts == was.attempts && now.maxAttempts == was.maxAttempts && now.createdAt == was.createdAt
              && match op
                 case Renew(_, _, _, at, seconds) => now == was.(leasedUntil := Some(at + seconds))
                 case Complete(_, _, _, _) =>
                   now.status == Succeeded && Unleased(now) && now.runAfter == was.runAfter && now.lastError == was.lastError
                 case Fail(_, _, _, _, retryAt, error) =>
                   && now.status == (if was.attempts < was.maxAttempts then Queued else Dead) && Unleased(now)
                   && now.runAfter == retryAt && now.lastError.Some? && Shortened(now.lastError.value, error)
  {
    if Step(s, op).log != s.log {
      assert Step(s, op).log[|s.log|] == EntryOf(s, op);
    }
  }

  predicate Unleased(job: Job)
  {
    job.leaseOwner == None && job.leaseToken == None && job.leasedUntil == None
  }

  /** The job of a worker that stopped is taken up again, on either claim path: it is claimed at time 0 for 60 units and,
      at time 61, claimed again under a new token. */
  lemma ExpiredLeaseIsReclaimed(bySwap: bool)
    ensures var enqueue, tick := Enqueue("j", 5, 0, 0), Tick(61);
            var first := if bySwap then ClaimSwap("j", "a", "w", 0, 60) else ClaimRow("j", "a", "w", 0, 60);
            var again := if bySwap then ClaimSwap("j", "b", "v", 61, 60) else ClaimRow("j", "b", "v", 61, 60);
            && Reachable([enqueue] + [first, tick] + [again])
            && Step(Final(Initial, [enqueue] + [first, tick]), again).log == [Claimed("j", "a", false), Claimed("j", "b", true)]
            && Step(Final(Initial, [enqueue] + [first, tick]), again).jobs
               == map["j" := Job(Running, 2, 5, 0, 0, Some("v"), Some("b"), Some(121), None)]
  {
    var enqueue, tick := Enqueue("j", 5, 0, 0), Tick(61);
    var first := if bySwap then ClaimSwap("j", "a", "w", 0, 60) else ClaimRow("j", "a", "w", 0, 60);
    var again := if bySwap then ClaimSwap("j", "b", "v", 61, 60) else ClaimRow("j", "b", "v", 61, 60);
    var s1 := Step(Initial, enqueue);
    var s2 := Step(s1, first);
    var s3 := Step(s2, tick);
    FourSteps(enqueue, first, tick, again);
    ClaimIff(s1, first);
    assert s3.log == [Claimed("j", "a", false)] && !TokenUsed(s3.log, "b");
    ClaimIff(s3, again);
  }

  /* ---------- run-after ---------- */

  /** The retry time set by the last accepted failure of the job, if the operations contain one. */
  function LastRetry(s: State, ops: seq<Op>, id: string): Option<int>
    decreases |ops|
  {
    if ops == [] then None
    else
      var later := LastRetry(Step(s, ops[0]), ops[1..], id);
      if later.Some? then later
      else if FailsNow(s, ops[0], id) then Some(ops[0].retryAt)
      else None
  }

  predicate FailsNow(s: State, op: Op, id: string)
  {
    op.Fail? && op.id == id && id in s.jobs && Holds(s.jobs[id], op.worker, op.token, op.now)
  }

  /** Only an accepted failure moves a job's run-after time. */
  lemma RunAfterOfStep(s: State, op: Op, id: string)
    requires Possible(s, op) && id in s.jobs
    ensures id in Step(s, op).jobs
    ensures Step(s, op).jobs[id].runAfter == if FailsNow(s, op, id) then op.retryAt else s.jobs[id].runAfter
  {
  }

  lemma {:induction false} RunAfterOfRun(s: State, ops: seq<Op>, id: string)
    requires Run(s, ops) && id in s.jobs
    ensures id in Final(s, ops).jobs
    ensures Final(s, ops).jobs[id].runAfter == (match LastRetry(s, ops, id) case Some(t) => t case None => s.jobs[id].runAfter)
    decreases |ops|
  {
    if ops != [] {
      RunAfterOfStep(s, ops[0], id);
      RunAfterOfRun(Step(s, ops[0]), ops[1..], id);
    }
  }

  /** The transaction starts a job whose run-after time lies beyond `moment`. */
  predicate StartsBefore(s: State, op: Op, moment: int)
  {
    (op.ClaimRow? || op.ClaimSwap?) && Step(s, op) != s && op.id in s.jobs && s.jobs[op.id].runAfter > moment
  }

  /** A swap claim works on a candidate list that was read with the same clock reading. */
  predicate Listed(s: State, op: Op)
  {
    op.ClaimSwap? ==> op.id in s.jobs && Eligible(s.jobs[op.id], op.now)
  }

  /** When a claim runs before the job's run-after time: never on the row-lock path; on the swap path, whatever
      happened between listing and swap, exactly when the job is still claimable and its last accepted failure
      since the listing asked for a later retry. `moment` is the clock reading of the claim or any later time, such
      as the real clock. */
  lemma {:induction false} ClaimStartsEarlyIff(s: State, ops: seq<Op>, op: Op, moment: int)
    requires Run(s, ops) && (op.ClaimRow? || op.ClaimSwap?) && Listed(s, op) && op.now <= moment
    ensures var last := LastRetry(s, ops, op.id);
      StartsBefore(Final(s, ops), op, moment) <==>
      op.ClaimSwap? && Swappable(Final(s, ops).jobs, op.id, op.now) && last.Some? && last.value > moment
  {
    var t := Final(s, ops);
    if op.ClaimSwap? {
      RunAfterOfRun(s, ops, op.id);
      if Swappable(t.jobs, op.id, op.now) {
        assert |Step(t, op).log| == |t.log| + 1;
      }
    }
  }

  predicate OnSwapPath(ops: seq<Op>)
  {
    forall i :: 0 <= i < |ops| ==> !ops[i].ClaimRow?
  }

  /** Such a run on the swap path alone: two workers list the job at time 0; the first claims it and fails with a
      retry time of 10; the second then claims it at time 0. */
  lemma SwapClaimCanStartRetryEarly()
    ensures var before := [Enqueue("j", 5, 0, 0)];
      var between := [ClaimSwap("j", "a", "w", 0, 60), Fail("j", "a", "w", 0, 10, "")];
      var op := ClaimSwap("j", "b", "v", 0, 60);
      var listing, s := Final(Initial, before), Final(Initial, before + between);
      && OnSwapPath(before + between + [op]) && Reachable(before + between + [op])
      && Listed(listing, between[0]) && Listed(listing, op)
      && StartsBefore(s, op, s.clock)
  {
    var enqueue := Enqueue("j", 5, 0, 0);
    var first, fail := ClaimSwap("j", "a", "w", 0, 60), Fail("j", "a", "w", 0, 10, "");
    var op := ClaimSwap("j", "b", "v", 0, 60);
    var s1 := Step(Initial, enqueue);
    var s2 := Step(s1, first);
    var s3 := Step(s2, fail);
    FourSteps(enqueue, first, fail, op);
    assert s3.log == [Claimed("j", "a", false), Failed("j", "a", false)];
    assert !TokenUsed(s3.log, "b");
    assert |Step(s3, op).log| == 3;
  }

  /** Runs written as lists, step by step. */
  lemma FourSteps(a: Op, b: Op, c: Op, d: Op)
    ensures var s1 := Step(Initial, a); var s2 := Step(s1, b); var s3 := Step(s2, c);
      && Final(Initial, [a]) == s1 && Final(Initial, [a] + [b, c]) == s3
      && (Run(Initial, [a] + [b, c] + [d]) <==> Possible(Initial, a) && Possible(s1, b) && Possible(s2, c) && Possible(s3, d))
  {
    var s1 := Step(Initial, a);
    var s2 := Step(s1, b);
    var s3 := Step(s2, c);
    assert [a][1..] == [] && [a] + [b, c] == [a, b, c] && [a] + [b, c] + [d] == [a, b, c, d];
    assert [a, b, c][1..] == [b, c] && [b, c][1..] == [c] && [c][1..] == [];
    assert [a, b, c, d][1..] == [b, c, d] && [b, c, d][1..] == [c, d] && [c, d][1..] == [d] && [d][1..] == [];
    assert Final(s3, []) == s3 && Final(s2, [c]) == s3 && Final(s1, [b, c]) == s3;
    assert Run(s3, [d]) <==> Possible(s3, d);
    assert Run(s2, [c, d]) <==> Possible(s2, c) && Run(s3, [d]);
    assert Run(s1, [b, c, d]) <==> Possible(s1, b) && Run(s2, [c, d]);
  }
}
