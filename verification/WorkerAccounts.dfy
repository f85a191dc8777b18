/** The workers' books balance: every accepted completion or failure is reported by exactly one audit entry, written or
    still owed by the session that was heard, and every finished session has written exactly one entry.
    Source: src/difoundry/production/worker.py:31-103. */
module WorkerAccounts {
  import opened Wrappers
  import opened Queue
  import opened Leases
  import opened Worker

  /* ---------- counting entries and sessions ---------- */

  function Written(audit: seq<AuditEntry>, action: AuditAction, job: string): nat
  {
    if audit == [] then 0
    else Written(audit[..|audit| - 1], action, job) + if audit[|audit| - 1] == AuditEntry(action, job) then 1 else 0
  }

  lemma OneMoreWritten(audit: seq<AuditEntry>, e: AuditEntry, action: AuditAction, job: string)
    ensures Written(audit + [e], action, job) == Written(audit, action, job) + if e == AuditEntry(action, job) then 1 else 0
  {
    assert (audit + [e])[..|audit|] == audit;
  }

  type Sessions = map<string, Session>

  predicate Owes(w: Session, job: string, success: bool)
  {
    w.job == job && w.phase == Acknowledged(success)
  }

  function Owing(sessions: Sessions, job: string, success: bool): set<string>
  {
    set a | a in sessions && Owes(sessions[a], job, success)
  }

  function Done(sessions: Sessions): set<string>
  {
    set a | a in sessions && sessions[a].phase.Finished?
  }

  function One(condition: bool): nat
  {
    if condition then 1 else 0
  }

  /** The size of a set in which only the membership of one element changed. */
  lemma OneChanged(before: set<string>, after: set<string>, a: string)
    requires before - {a} == after - {a}
    ensures |after| + One(a in before) == |before| + One(a in after)
  {
    var rest := before - {a};
    assert after == if a in after then rest + {a} else rest;
    assert before == if a in before then rest + {a} else rest;
  }

  lemma OwingUpdate(sessions: Sessions, a: string, w: Session, job: string, success: bool)
    ensures |Owing(sessions[a := w], job, success)| + One(a in sessions && Owes(sessions[a], job, success))
         == |Owing(sessions, job, success)| + One(Owes(w, job, success))
  {
    OneChanged(Owing(sessions, job, success), Owing(sessions[a := w], job, success), a);
  }

  lemma DoneUpdate(sessions: Sessions, a: string, w: Session)
    ensures |Done(sessions[a := w])| + One(a in sessions && sessions[a].phase.Finished?)
         == |Done(sessions)| + One(w.phase.Finished?)
  {
    OneChanged(Done(sessions), Done(sessions[a := w]), a);
  }

  /* ---------- accepted verdicts ---------- */

  function Failures(log: seq<Entry>, job: string): nat { Count(log, job, (e: Entry) => e.Failed?) }

  function Verdicts(log: seq<Entry>, job: string, success: bool): nat
  {
    if success then Completions(log, job) else Failures(log, job)
  }

  predicate IsVerdict(op: Op, job: string, success: bool)
  {
    !op.Tick? && op.id == job && if success then op.Complete? else op.Fail?
  }

  lemma VerdictsAfter(s: State, op: Op, job: string, success: bool)
    requires !op.Tick?
    ensures Verdicts(Step(s, op).log, job, success) == Verdicts(s.log, job, success) + One(Accepts(s, op) && IsVerdict(op, job, success))
  {
    var t := Step(s, op);
    if t.log != s.log {
      AppendOther(s.log, t.log[|s.log|], job, (e: Entry) => e.Completed?);
      AppendOther(s.log, t.log[|s.log|], job, (e: Entry) => e.Failed?);
    }
  }

  /* ---------- the balance ---------- */

  function Reporting(success: bool): AuditAction
  {
    if success then JobSucceeded else JobFailed
  }

  /** Entries written and entries owed make up the verdicts accepted. */
  predicate Balances(p: Platform, job: string, success: bool)
  {
    Written(p.audit, Reporting(success), job) + |Owing(p.sessions, job, success)| == Verdicts(p.queue.log, job, success)
  }

  lemma QueueingBalances(p: Platform, m: Move, job: string, success: bool)
    requires Enabled(p, m) && (m.Queueing? || m.Start?) && Balances(p, job, success)
    ensures Balances(Next(p, m), job, success)
  {
    var op := m.op;
    if !op.Tick? {
      VerdictsAfter(p.queue, op, job, success);
    }
    if m.Start? {
      OwingUpdate(p.sessions, m.session, Session(op.id, op.token, op.worker, Executing(false)), job, success);
    }
  }

  lemma BeatBalances(p: Platform, m: Move, job: string, success: bool)
    requires Enabled(p, m) && (m.Heartbeat? || m.StopHeartbeat?) && Balances(p, job, success)
    ensures Balances(Next(p, m), job, success)
  {
    var w := p.sessions[m.session];
    if m.Heartbeat? {
      VerdictsAfter(p.queue, QueueOp(p, m), job, success);
    }
    OwingUpdate(p.sessions, m.session, Next(p, m).sessions[m.session], job, success);
  }

  lemma AcknowledgeBalances(p: Platform, m: Move, job: string, success: bool)
    requires Enabled(p, m) && m.Acknowledge? && Balances(p, job, success)
    ensures Balances(Next(p, m), job, success)
  {
    var w := p.sessions[m.session];
    VerdictsAfter(p.queue, QueueOp(p, m), job, success);
    OwingUpdate(p.sessions, m.session, Next(p, m).sessions[m.session], job, success);
    OneMoreWritten(p.audit, AuditEntry(JobLeaseLost, w.job), Reporting(success), job);
  }

  lemma WriteBalances(p: Platform, m: Move, job: string, success: bool)
    requires Enabled(p, m) && m.WriteAudit? && Balances(p, job, success)
    ensures Balances(Next(p, m), job, success)
  {
    var w := p.sessions[m.session];
    OwingUpdate(p.sessions, m.session, Next(p, m).sessions[m.session], job, success);
    OneMoreWritten(p.audit, AuditEntry(Reporting(w.phase.success), w.job), Reporting(success), job);
  }

  lemma {:induction false} PlayBalances(p: Platform, moves: seq<Move>, job: string, success: bool)
    requires Balances(p, job, success) && Plays(p, moves)
    ensures Balances(Outcome(p, moves), job, success)
    decreases |moves|
  {
    if moves != [] {
      match moves[0] {
        case Queueing(_) => QueueingBalances(p, moves[0], job, success);
        case Start(_, _) => QueueingBalances(p, moves[0], job, success);
        case Heartbeat(_, _, _, _) => BeatBalances(p, moves[0], job, success);
        case StopHeartbeat(_, _) => BeatBalances(p, moves[0], job, success);
        case Acknowledge(_, _, _, _) => AcknowledgeBalances(p, moves[0], job, success);
        case WriteAudit(_) => WriteBalances(p, moves[0], job, success);
      }
      PlayBalances(Next(p, moves[0]), moves[1..], job, success);
    }
  }

  /** Over every play: the `job.succeeded` entries of a job and the sessions about to write one make up its accepted
      completions, and the same holds for `job.failed` and accepted failures; nothing is reported twice or without a
      verdict, and nothing is forgotten. */
  lemma EveryVerdictReportedOnce(moves: seq<Move>, job: string, success: bool)
    requires Plays(Empty, moves)
    ensures var p := Outcome(Empty, moves);
            Written(p.audit, if success then JobSucceeded else JobFailed, job) + |Owing(p.sessions, job, success)|
            == if success then Completions(p.queue.log, job) else Failures(p.queue.log, job)
  {
    assert Owing(Empty.sessions, job, success) == {};
    PlayBalances(Empty, moves, job, success);
  }

  lemma MoveAddsEntry(p: Platform, m: Move)
    requires Enabled(p, m) && |p.audit| == |Done(p.sessions)|
    ensures |Next(p, m).audit| == |Done(Next(p, m).sessions)|
  {
    if m.Start? {
      DoneUpdate(p.sessions, m.session, Session(m.op.id, m.op.token, m.op.worker, Executing(false)));
    } else if !m.Queueing? {
      DoneUpdate(p.sessions, m.session, Next(p, m).sessions[m.session]);
    }
  }

  lemma {:induction false} PlayAddsEntries(p: Platform, moves: seq<Move>)
    requires |p.audit| == |Done(p.sessions)| && Plays(p, moves)
    ensures |Outcome(p, moves).audit| == |Done(Outcome(p, moves).sessions)|
    decreases |moves|
  {
    if moves != [] {
      MoveAddsEntry(p, moves[0]);
      PlayAddsEntries(Next(p, moves[0]), moves[1..]);
    }
  }

  /** Every session that finished wrote one entry: a success, a failure, or that it lost its lease. */
  lemma OneEntryPerSession(moves: seq<Move>)
    requires Plays(Empty, moves)
    ensures var p := Outcome(Empty, moves); |p.audit| == |Done(p.sessions)|
  {
    assert Done(Empty.sessions) == {};
    PlayAddsEntries(Empty, moves);
  }

  /** A worker whose heartbeat failed sends no verdict and reports the loss; one whose heartbeat held reports the loss if
      and only if its verdict is refused. */
  lemma AcknowledgeMeans(p: Platform, m: Move)
    requires Enabled(p, m) && m.Acknowledge?
    ensures var w, q := p.sessions[m.session], Next(p, m);
            var refused := w.phase.leaseLost || !Accepts(p.queue, QueueOp(p, m));
            && (refused <==> q.sessions[m.session].phase.Finished?)
            && (refused ==> q.queue == p.queue)
            && q.audit == (if refused then p.audit + [AuditEntry(JobLeaseLost, w.job)] else p.audit)
            && (!refused ==> q.queue == Step(p.queue, QueueOp(p, m)) && Owes(q.sessions[m.session], w.job, !w.phase.failed))
            && (QueueOp(p, m).Complete? <==> !w.phase.failed) && (QueueOp(p, m).Fail? <==> w.phase.failed)
  {
  }

  /** A heartbeat marks the lease lost if and only if it could not reach the store or its renewal was refused; a mark that
      was set stays, and a beat after the execution ended marks nothing. */
  lemma BeatMeans(p: Platform, m: Move)
    requires Enabled(p, m) && m.Heartbeat?
    ensures var w, q := p.sessions[m.session], Next(p, m);
            && q.queue == (if m.storeFails then p.queue else Step(p.queue, QueueOp(p, m))) && q.audit == p.audit
            && q.sessions == p.sessions[m.session := w.(phase := q.sessions[m.session].phase)]
            && (w.phase.Executing? ==>
                 q.sessions[m.session].phase == Executing(w.phase.leaseLost || m.storeFails || !Accepts(p.queue, QueueOp(p, m))))
            && (!w.phase.Executing? ==> q.sessions[m.session].phase == w.phase)
  {
  }

  lemma PlayStep(p: Platform, m: Move, rest: seq<Move>)
    requires Enabled(p, m) && Plays(Next(p, m), rest)
    ensures Plays(p, [m] + rest) && Outcome(p, [m] + rest) == Outcome(Next(p, m), rest)
  {
    assert ([m] + rest)[0] == m && ([m] + rest)[1..] == rest;
  }

  /** One job from claim to report, on either claim path, with one heartbeat on the way. */
  function Moves(bySwap: bool, failed: bool): seq<Move>
  {
    [Queueing(Enqueue("j", 5, 0, 0))] +
    ([Start("s", if bySwap then ClaimSwap("j", "a", "w", 0, 60) else ClaimRow("j", "a", "w", 0, 60))] +
    ([Queueing(Tick(20))] +
    ([Heartbeat("s", 20, 60, false)] +
    ([StopHeartbeat("s", failed)] +
    ([Acknowledge("s", 20, 30, "no")] +
    ([WriteAudit("s")] + []))))))
  }

  /** It can be played, and ends with the one entry that says how the execution went. */
  lemma JobIsReported(bySwap: bool, failed: bool)
    ensures Plays(Empty, Moves(bySwap, failed))
    ensures Outcome(Empty, Moves(bySwap, failed)).audit == [AuditEntry(if failed then JobFailed else JobSucceeded, "j")]
  {
    var start := Start("s", if bySwap then ClaimSwap("j", "a", "w", 0, 60) else ClaimRow("j", "a", "w", 0, 60));
    var p1 := Next(Empty, Queueing(Enqueue("j", 5, 0, 0)));
    var p2 := Next(p1, start);
    var p3 := Next(p2, Queueing(Tick(20)));
    Started(p1, start, p3);
    EndsWell(p3, failed);
    var rest := [Heartbeat("s", 20, 60, false)] + ([StopHeartbeat("s", failed)] + ([Acknowledge("s", 20, 30, "no")] + ([WriteAudit("s")] + [])));
    PlayStep(p2, Queueing(Tick(20)), rest);
    PlayStep(p1, start, [Queueing(Tick(20))] + rest);
    PlayStep(Empty, Queueing(Enqueue("j", 5, 0, 0)), [start] + ([Queueing(Tick(20))] + rest));
  }

  /** The state in which the job has been claimed and 20 units have passed. */
  predicate ClaimedAt20(p: Platform)
  {
    && p.queue.jobs == map["j" := Job(Running, 1, 5, 0, 0, Some("w"), Some("a"), Some(60), None)] && p.queue.clock == 20
    && p.sessions == map["s" := Session("j", "a", "w", Executing(false))] && p.audit == []
  }

  lemma Started(p1: Platform, start: Move, p3: Platform)
    requires Enabled(Empty, Queueing(Enqueue("j", 5, 0, 0))) && p1 == Next(Empty, Queueing(Enqueue("j", 5, 0, 0)))
    requires start in {Start("s", ClaimSwap("j", "a", "w", 0, 60)), Start("s", ClaimRow("j", "a", "w", 0, 60))}
    requires Enabled(p1, start) && Enabled(Next(p1, start), Queueing(Tick(20)))
    requires p3 == Next(Next(p1, start), Queueing(Tick(20)))
    ensures ClaimedAt20(p3)
  {
    ClaimIff(p1.queue, start.op);
  }

  lemma EndsWell(p3: Platform, failed: bool)
    requires ClaimedAt20(p3)
    ensures var rest := [Heartbeat("s", 20, 60, false)] +
                        ([StopHeartbeat("s", failed)] + ([Acknowledge("s", 20, 30, "no")] + ([WriteAudit("s")] + [])));
            Plays(p3, rest) && Outcome(p3, rest).audit == [AuditEntry(if failed then JobFailed else JobSucceeded, "j")]
  {
    var p4 := Next(p3, Heartbeat("s", 20, 60, false));
    HolderIff(p3.queue, QueueOp(p3, Heartbeat("s", 20, 60, false)));
    var p5 := Next(p4, StopHeartbeat("s", failed));
    HolderIff(p5.queue, QueueOp(p5, Acknowledge("s", 20, 30, "no")));
    var p6 := Next(p5, Acknowledge("s", 20, 30, "no"));
    var p7 := Next(p6, WriteAudit("s"));
    assert Plays(p7, []) && Outcome(p7, []) == p7;
    PlayStep(p6, WriteAudit("s"), []);
    PlayStep(p5, Acknowledge("s", 20, 30, "no"), [WriteAudit("s")] + []);
    PlayStep(p4, StopHeartbeat("s", failed), [Acknowledge("s", 20, 30, "no")] + ([WriteAudit("s")] + []));
    PlayStep(p3, Heartbeat("s", 20, 60, false),
             [StopHeartbeat("s", failed)] + ([Acknowledge("s", 20, 30, "no")] + ([WriteAudit("s")] + [])));
  }
}
