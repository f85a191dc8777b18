/** The worker protocol of `run_once`: claim, heartbeat while executing, then complete or fail and write the
    audit entry. Many workers interleave step by step, and any of them may stop at any point. */
module Worker {
  import opened Queue
  import opened Leases

  /** Where a worker is between two transactions. */
  datatype Phase =
    | Executing(leaseLost: bool)
    | Stopped(leaseLost: bool, failed: bool)
    | Acknowledged(success: bool)
    | Finished

  datatype Session = Session(job: string, token: string, worker: string, phase: Phase)

  datatype AuditAction = JobSucceeded | JobFailed | JobLeaseLost

  datatype AuditEntry = AuditEntry(action: AuditAction, job: string)

  /** The queue, every worker session by session id, and the audit entries written by workers. */
  datatype Platform = Platform(queue: State, sessions: map<string, Session>, audit: seq<AuditEntry>)

  datatype Move =
    | Queueing(op: Op)                                        // enqueue, or time passing
    | Start(session: string, op: Op)                          // claim
    | Heartbeat(session: string, now: int, leaseSeconds: int, storeFails: bool)
    | StopHeartbeat(session: string, failed: bool)            // execution ended
    | Acknowledge(session: string, now: int, retryAt: int, error: string)
    | WriteAudit(session: string)

  const Empty: Platform := Platform(Initial, map[], [])

  predicate IsClaim(op: Op)
  {
    op.ClaimRow? || op.ClaimSwap?
  }

  predicate Enabled(p: Platform, m: Move)
  {
    match m
    case Queueing(op) => (op.Enqueue? || op.Tick?) && Possible(p.queue, op)
    case Start(session, op) => session !in p.sessions && IsClaim(op) && Possible(p.queue, op)
    case Heartbeat(session, now, _, _) => session in p.sessions && now <= p.queue.clock
    case StopHeartbeat(session, _) => session in p.sessions && p.sessions[session].phase.Executing?
    case Acknowledge(session, now, _, _) =>
      session in p.sessions && p.sessions[session].phase.Stopped? && now <= p.queue.clock
    case WriteAudit(session) => session in p.sessions && p.sessions[session].phase.Acknowledged?
  }

  /** A beat that fails for any reason marks the lease lost; a beat after the thread was told to stop can
      still reach the database, but nobody reads the mark any more. */
  function AfterBeat(phase: Phase, accepted: bool): Phase
  {
    if phase.Executing? then Executing(phase.leaseLost || !accepted) else phase
  }

  function Accepts(s: State, op: Op): bool
  {
    Step(s, op).log != s.log
  }

  function Next(p: Platform, m: Move): Platform
    requires Enabled(p, m)
  {
    match m
    case Queueing(op) => p.(queue := Step(p.queue, op))
    case Start(session, op) =>
      if Accepts(p.queue, op) then
        p.(queue := Step(p.queue, op), sessions := p.sessions[session := Session(op.id, op.token, op.worker, Executing(false))])
      else p
    case Heartbeat(session, now, leaseSeconds, storeFails) =>
      var w := p.sessions[session];
      var op := Renew(w.job, w.token, w.worker, now, leaseSeconds);
      if storeFails then p.(sessions := p.sessions[session := w.(phase := AfterBeat(w.phase, false))])
      else p.(queue := Step(p.queue, op),
              sessions := p.sessions[session := w.(phase := AfterBeat(w.phase, Accepts(p.queue, op)))])
    case StopHeartbeat(session, failed) =>
      var w := p.sessions[session];
      p.(sessions := p.sessions[session := w.(phase := Stopped(w.phase.leaseLost, failed))])
    case Acknowledge(session, now, retryAt, error) =>
      var w := p.sessions[session];
      if w.phase.leaseLost then
        p.(sessions := p.sessions[session := w.(phase := Finished)], audit := p.audit + [AuditEntry(JobLeaseLost, w.job)])
      else
        var op := if w.phase.failed then Fail(w.job, w.token, w.worker, now, retryAt, error)
                  else Complete(w.job, w.token, w.worker, now);
        if Accepts(p.queue, op) then
          p.(queue := Step(p.queue, op), sessions := p.sessions[session := w.(phase := Acknowledged(!w.phase.failed))])
        else
          p.(sessions := p.sessions[session := w.(phase := Finished)], audit := p.audit + [AuditEntry(JobLeaseLost, w.job)])
    case WriteAudit(session) =>
      var w := p.sessions[session];
      p.(sessions := p.sessions[session := w.(phase := Finished)],
         audit := p.audit + [AuditEntry(if w.phase.success then JobSucceeded else JobFailed, w.job)])
  }

  predicate Plays(p: Platform, moves: seq<Move>)
    decreases |moves|
  {
    moves == [] || (Enabled(p, moves[0]) && Plays(Next(p, moves[0]), moves[1..]))
  }

  function Outcome(p: Platform, moves: seq<Move>): Platform
    requires Plays(p, moves)
    decreases |moves|
  {
    if moves == [] then p else Outcome(Next(p, moves[0]), moves[1..])
  }

  /* ---------- one success entry per job ---------- */

  function Successes(audit: seq<AuditEntry>, job: string): nat
  {
    if audit == [] then 0
    else
      var last := if audit[|audit| - 1] == AuditEntry(JobSucceeded, job) then 1 else 0;
      Successes(audit[..|audit| - 1], job) + last
  }

  predicate AboutToReport(p: Platform, session: string, job: string)
  {
    session in p.sessions && p.sessions[session].job == job && p.sessions[session].phase == Acknowledged(true)
  }

  /** Every success entry, written or still owed by a session, is backed by its own accepted completion. */
  ghost predicate ReportInv(p: Platform, job: string)
  {
    && Successes(p.audit, job) <= Completions(p.queue.log, job)
    && (forall a :: AboutToReport(p, a, job) ==> Successes(p.audit, job) + 1 <= Completions(p.queue.log, job))
    && forall a, b :: AboutToReport(p, a, job) && AboutToReport(p, b, job) ==> a == b
  }

  ghost predicate PlatformInv(p: Platform)
  {
    Inv(p.queue) && forall job :: ReportInv(p, job)
  }

  lemma AuditGrows(audit: seq<AuditEntry>, e: AuditEntry, job: string)
    ensures Successes(audit + [e], job) == Successes(audit, job) + if e == AuditEntry(JobSucceeded, job) then 1 else 0
  {
    assert (audit + [e])[..|audit|] == audit;
  }

  /** A transaction other than a completion of the job leaves its completion count; an accepted completion
      adds one. */
  lemma CompletionsAfter(s: State, op: Op, job: string)
    ensures Completions(Step(s, op).log, job) ==
            Completions(s.log, job) + if op.Complete? && op.id == job && Accepts(s, op) then 1 else 0
  {
    var t := Step(s, op);
    if t.log != s.log {
      AppendOther(s.log, t.log[|s.log|], job, (e: Entry) => e.Completed?);
    }
  }

  lemma AtMostOneCompletion(s: State, job: string)
    requires Inv(s)
    ensures Completions(s.log, job) <= 1
  {
    if job in s.jobs {
      assert JobInv(s, job);
    } else {
      NoEntries(s.log, job, (e: Entry) => e.Completed?);
    }
  }

  /** A move that writes no success entry and lets no session become a reporter. */
  lemma QuietMove(p: Platform, q: Platform, job: string)
    requires ReportInv(p, job)
    requires Completions(q.queue.log, job) >= Completions(p.queue.log, job)
    requires Successes(q.audit, job) == Successes(p.audit, job)
    requires forall a :: AboutToReport(q, a, job) ==> AboutToReport(p, a, job)
    ensures ReportInv(q, job)
  {
  }

  lemma AcknowledgeKeeps(p: Platform, m: Move, job: string)
    requires PlatformInv(p) && m.Acknowledge? && Enabled(p, m) && Inv(Next(p, m).queue)
    ensures ReportInv(Next(p, m), job)
  {
    var q, w := Next(p, m), p.sessions[m.session];
    assert ReportInv(p, job);
    AuditGrows(p.audit, AuditEntry(JobLeaseLost, w.job), job);
    if !w.phase.leaseLost {
      var op := if w.phase.failed then Fail(w.job, w.token, w.worker, m.now, m.retryAt, m.error)
                else Complete(w.job, w.token, w.worker, m.now);
      CompletionsAfter(p.queue, op, job);
      AtMostOneCompletion(q.queue, job);
      if Accepts(p.queue, op) && !w.phase.failed && w.job == job {
        assert Completions(p.queue.log, job) == 0;
        ReportersAfter(p, m, job);
      } else {
        QuietMove(p, q, job);
      }
    } else {
      QuietMove(p, q, job);
    }
  }

  /** A move that turns the one owed entry into a written one. */
  lemma ReportingMove(p: Platform, q: Platform, session: string, job: string)
    requires ReportInv(p, job) && AboutToReport(p, session, job)
    requires q.queue == p.queue && Successes(q.audit, job) == Successes(p.audit, job) + 1
    requires forall a :: AboutToReport(q, a, job) ==> a == session || AboutToReport(p, a, job)
    requires !AboutToReport(q, session, job)
    ensures ReportInv(q, job)
  {
  }

  lemma WriteAuditKeeps(p: Platform, m: Move, job: string)
    requires ReportInv(p, job) && m.WriteAudit? && Enabled(p, m)
    ensures ReportInv(Next(p, m), job)
  {
    var w := p.sessions[m.session];
    AuditGrows(p.audit, AuditEntry(if w.phase.success then JobSucceeded else JobFailed, w.job), job);
    ReportersAfter(p, m, job);
    if AboutToReport(p, m.session, job) {
      ReportingMove(p, Next(p, m), m.session, job);
    } else {
      QuietMove(p, Next(p, m), job);
    }
  }

  /** Only the acknowledging session can become a reporter, and writing the entry ends its report. */
  lemma ReportersAfter(p: Platform, m: Move, job: string)
    requires Enabled(p, m) && (m.Acknowledge? || m.WriteAudit?)
    ensures forall a :: AboutToReport(Next(p, m), a, job) ==> a == m.session || AboutToReport(p, a, job)
    ensures m.WriteAudit? ==> !AboutToReport(Next(p, m), m.session, job)
  {
  }

  /** The queue transaction inside a move. */
  function QueueOp(p: Platform, m: Move): Op
    requires Enabled(p, m)
  {
    match m
    case Queueing(op) => op
    case Start(_, op) => op
    case Heartbeat(session, now, leaseSeconds, _) =>
      Renew(p.sessions[session].job, p.sessions[session].token, p.sessions[session].worker, now, leaseSeconds)
    case Acknowledge(session, now, retryAt, error) =>
      var w := p.sessions[session];
      if w.phase.failed then Fail(w.job, w.token, w.worker, now, retryAt, error) else Complete(w.job, w.token, w.worker, now)
    case _ => Tick(p.queue.clock)
  }

  lemma QueueOfNext(p: Platform, m: Move)
    requires Enabled(p, m)
    ensures Possible(p.queue, QueueOp(p, m))
    ensures Next(p, m).queue == p.queue || Next(p, m).queue == Step(p.queue, QueueOp(p, m))
  {
  }

  lemma OtherMoveKeeps(p: Platform, m: Move, job: string)
    requires ReportInv(p, job) && Enabled(p, m) && !m.Acknowledge? && !m.WriteAudit?
    ensures ReportInv(Next(p, m), job)
  {
    QueueOfNext(p, m);
    CompletionsAfter(p.queue, QueueOp(p, m), job);
    OtherMoveReports(p, m, job);
    QuietMove(p, Next(p, m), job);
  }

  lemma OtherMoveReports(p: Platform, m: Move, job: string)
    requires Enabled(p, m) && !m.Acknowledge? && !m.WriteAudit?
    ensures Next(p, m).audit == p.audit
    ensures forall a :: AboutToReport(Next(p, m), a, job) ==> AboutToReport(p, a, job)
  {
  }

  lemma MoveKeepsInv(p: Platform, m: Move)
    requires PlatformInv(p) && Enabled(p, m)
    ensures PlatformInv(Next(p, m))
  {
    var q := Next(p, m);
    QueueOfNext(p, m);
    StepKeepsInv(p.queue, QueueOp(p, m));
    forall job ensures ReportInv(q, job) {
      if m.Acknowledge? {
        AcknowledgeKeeps(p, m, job);
      } else if m.WriteAudit? {
        assert ReportInv(p, job);
        WriteAuditKeeps(p, m, job);
      } else {
        assert ReportInv(p, job);
        OtherMoveKeeps(p, m, job);
      }
    }
  }

  lemma {:induction false} PlayKeepsInv(p: Platform, moves: seq<Move>)
    requires PlatformInv(p) && Plays(p, moves)
    ensures PlatformInv(Outcome(p, moves))
    decreases |moves|
  {
    if moves != [] {
      MoveKeepsInv(p, moves[0]);
      PlayKeepsInv(Next(p, moves[0]), moves[1..]);
    }
  }

  /** However the workers interleave, crash or lose leases: a job has at most one `job.succeeded` audit entry,
      and only if its completion was accepted. */
  lemma {:induction false} AtMostOneSuccessEntry(moves: seq<Move>, job: string)
    requires Plays(Empty, moves)
    ensures var p := Outcome(Empty, moves);
      Successes(p.audit, job) <= Completions(p.queue.log, job) <= 1
  {
    PlayKeepsInv(Empty, moves);
    AtMostOneCompletion(Outcome(Empty, moves).queue, job);
    assert ReportInv(Outcome(Empty, moves), job);
  }

  /* ---------- lease tokens of sessions ---------- */

  /** A completion or failure sent with this token. */
  predicate VerdictWith(e: Entry, token: string)
  {
    (e.Completed? || e.Failed?) && e.token == token
  }

  /** No completion or failure with this token was ever accepted. */
  ghost predicate Silent(log: seq<Entry>, token: string)
  {
    forall i :: 0 <= i < |log| ==> !VerdictWith(log[i], token)
  }

  predicate Pending(phase: Phase)
  {
    phase.Executing? || phase.Stopped?
  }

  /** Whoever was heard was a session that has acknowledged. */
  ghost predicate Heard(p: Platform, token: string)
  {
    exists a :: a in p.sessions && p.sessions[a].token == token && !Pending(p.sessions[a].phase)
  }

  /** Sessions hold distinct claimed tokens, and every accepted completion or failure was sent by a session that
      is past its acknowledgement. */
  ghost predicate TokenInv(p: Platform)
  {
    && (forall a :: a in p.sessions ==> TokenUsed(p.queue.log, p.sessions[a].token))
    && (forall a, b :: a in p.sessions && b in p.sessions && p.sessions[a].token == p.sessions[b].token ==> a == b)
    && (forall i :: 0 <= i < |p.queue.log| && (p.queue.log[i].Completed? || p.queue.log[i].Failed?)
          ==> Heard(p, p.queue.log[i].token))
  }

  lemma PendingIsSilent(p: Platform, session: string)
    requires TokenInv(p) && session in p.sessions && Pending(p.sessions[session].phase)
    ensures Silent(p.queue.log, p.sessions[session].token)
  {
  }

  lemma TokensStayUsed(log: seq<Entry>, e: Entry, token: string)
    ensures TokenUsed(log + [e], token) <==> TokenUsed(log, token) || (e.Claimed? && e.token == token)
  {
    if TokenUsed(log, token) {
      var i :| 0 <= i < |log| && log[i].Claimed? && log[i].token == token;
      assert (log + [e])[i] == log[i];
    }
    if e.Claimed? && e.token == token {
      assert (log + [e])[|log|] == e;
    }
  }

  /** What one move adds to the history, and whose session it touches. */
  datatype Effect = Nothing | Adds(entry: Entry)

  function EffectOf(p: Platform, m: Move): Effect
    requires Enabled(p, m)
  {
    var log := Next(p, m).queue.log;
    if |log| > |p.queue.log| then Adds(log[|log| - 1]) else Nothing
  }

  /** Sessions keep their token and, once past acknowledgement, never go back; only the moving session changes. */
  lemma SessionsAfter(p: Platform, m: Move)
    requires Enabled(p, m)
    ensures forall a :: a in p.sessions ==>
      a in Next(p, m).sessions && Next(p, m).sessions[a].token == p.sessions[a].token
      && (!Pending(p.sessions[a].phase) ==> !Pending(Next(p, m).sessions[a].phase))
    ensures forall a :: a in Next(p, m).sessions && a !in p.sessions ==>
      m.Start? && a == m.session && Next(p, m).sessions[a].token == m.op.token && !TokenUsed(p.queue.log, m.op.token)
      && EffectOf(p, m).Adds? && EffectOf(p, m).entry.Claimed? && EffectOf(p, m).entry.token == m.op.token
  {
  }

  lemma LogAfter(p: Platform, m: Move)
    requires Enabled(p, m)
    ensures match EffectOf(p, m)
      case Nothing => Next(p, m).queue.log == p.queue.log
      case Adds(e) => Next(p, m).queue.log == p.queue.log + [e]
  {
  }

  /** A completion or failure is sent by an acknowledging session whose lease mark is still good. */
  lemma VerdictFrom(p: Platform, m: Move)
    requires Enabled(p, m) && EffectOf(p, m).Adds?
    requires EffectOf(p, m).entry.Completed? || EffectOf(p, m).entry.Failed?
    ensures m.Acknowledge? && m.session in p.sessions && !p.sessions[m.session].phase.leaseLost
    ensures EffectOf(p, m).entry.token == p.sessions[m.session].token
    ensures Next(p, m).sessions[m.session].phase.Acknowledged?
  {
  }

  lemma HeardStays(p: Platform, m: Move, token: string)
    requires Enabled(p, m) && Heard(p, token)
    ensures Heard(Next(p, m), token)
  {
    SessionsAfter(p, m);
    var a :| a in p.sessions && p.sessions[a].token == token && !Pending(p.sessions[a].phase);
    assert a in Next(p, m).sessions;
  }

  lemma TokensUsedAfter(p: Platform, m: Move, a: string)
    requires TokenInv(p) && Enabled(p, m) && a in Next(p, m).sessions
    ensures TokenUsed(Next(p, m).queue.log, Next(p, m).sessions[a].token)
  {
    SessionsAfter(p, m);
    LogAfter(p, m);
    match EffectOf(p, m)
    case Nothing => assert a in p.sessions;
    case Adds(e) => TokensStayUsed(p.queue.log, e, Next(p, m).sessions[a].token);
  }

  lemma TokensDistinctAfter(p: Platform, m: Move, a: string, b: string)
    requires TokenInv(p) && Enabled(p, m) && a in Next(p, m).sessions && b in Next(p, m).sessions
    requires Next(p, m).sessions[a].token == Next(p, m).sessions[b].token
    ensures a == b
  {
    SessionsAfter(p, m);
    assert a in p.sessions ==> TokenUsed(p.queue.log, p.sessions[a].token);
    assert b in p.sessions ==> TokenUsed(p.queue.log, p.sessions[b].token);
  }

  lemma HeardAfter(p: Platform, m: Move, i: nat)
    requires TokenInv(p) && Enabled(p, m) && i < |Next(p, m).queue.log|
    requires Next(p, m).queue.log[i].Completed? || Next(p, m).queue.log[i].Failed?
    ensures Heard(Next(p, m), Next(p, m).queue.log[i].token)
  {
    LogAfter(p, m);
    SessionsAfter(p, m);
    if i < |p.queue.log| {
      assert Next(p, m).queue.log[i] == p.queue.log[i];
      HeardStays(p, m, p.queue.log[i].token);
    } else {
      VerdictFrom(p, m);
      assert m.session in Next(p, m).sessions && !Pending(Next(p, m).sessions[m.session].phase);
    }
  }

  lemma MoveKeepsTokens(p: Platform, m: Move)
    requires TokenInv(p) && Enabled(p, m)
    ensures TokenInv(Next(p, m))
  {
    var q := Next(p, m);
    forall a | a in q.sessions ensures TokenUsed(q.queue.log, q.sessions[a].token) {
      TokensUsedAfter(p, m, a);
    }
    forall a, b | a in q.sessions && b in q.sessions && q.sessions[a].token == q.sessions[b].token ensures a == b {
      TokensDistinctAfter(p, m, a, b);
    }
    forall i | 0 <= i < |q.queue.log| && (q.queue.log[i].Completed? || q.queue.log[i].Failed?)
      ensures Heard(q, q.queue.log[i].token)
    {
      HeardAfter(p, m, i);
    }
  }

  lemma {:induction false} PlayKeepsTokens(p: Platform, moves: seq<Move>)
    requires TokenInv(p) && Plays(p, moves)
    ensures TokenInv(Outcome(p, moves))
    decreases |moves|
  {
    if moves != [] {
      MoveKeepsTokens(p, moves[0]);
      PlayKeepsTokens(Next(p, moves[0]), moves[1..]);
    }
  }

  /* ---------- a lost lease is never acknowledged ---------- */

  /** The lease mark is down, or the run is over. */
  predicate Lost(phase: Phase)
  {
    match phase
    case Executing(lost) => lost
    case Stopped(lost, _) => lost
    case Acknowledged(_) => false
    case Finished => true
  }

  lemma LostStaysSilent(p: Platform, m: Move, session: string)
    requires TokenInv(p) && Enabled(p, m) && session in p.sessions
    requires Lost(p.sessions[session].phase) && Silent(p.queue.log, p.sessions[session].token)
    ensures session in Next(p, m).sessions && Next(p, m).sessions[session].token == p.sessions[session].token
    ensures Lost(Next(p, m).sessions[session].phase) && Silent(Next(p, m).queue.log, p.sessions[session].token)
  {
    LogAfter(p, m);
    var effect := EffectOf(p, m);
    if effect.Adds? && (effect.entry.Completed? || effect.entry.Failed?) {
      VerdictFrom(p, m);
      assert m.session != session;
    }
  }

  lemma {:induction false} LostForever(p: Platform, moves: seq<Move>, session: string)
    requires TokenInv(p) && Plays(p, moves) && session in p.sessions
    requires Lost(p.sessions[session].phase) && Silent(p.queue.log, p.sessions[session].token)
    ensures Silent(Outcome(p, moves).queue.log, p.sessions[session].token)
    decreases |moves|
  {
    if moves != [] {
      LostStaysSilent(p, moves[0], session);
      MoveKeepsTokens(p, moves[0]);
      LostForever(Next(p, moves[0]), moves[1..], session);
    }
  }

  /** Once a worker's heartbeat has noticed that the lease is gone, that run never completes or fails the job: in
      the whole history of the queue, then and later, no completion or failure was accepted with its token. */
  lemma {:induction false} LostLeaseNeverAcknowledged(before: seq<Move>, moves: seq<Move>, session: string)
    requires Plays(Empty, before) && Plays(Outcome(Empty, before), moves)
    requires session in Outcome(Empty, before).sessions
    requires var phase := Outcome(Empty, before).sessions[session].phase; Pending(phase) && phase.leaseLost
    ensures var p := Outcome(Empty, before);
      forall e :: e in Outcome(p, moves).queue.log && (e.Completed? || e.Failed?) ==> e.token != p.sessions[session].token
  {
    var p := Outcome(Empty, before);
    PlayKeepsTokens(Empty, before);
    PendingIsSilent(p, session);
    LostForever(p, moves, session);
    forall e | e in Outcome(p, moves).queue.log && (e.Completed? || e.Failed?) ensures e.token != p.sessions[session].token {
      var i :| 0 <= i < |Outcome(p, moves).queue.log| && Outcome(p, moves).queue.log[i] == e;
      assert !VerdictWith(e, p.sessions[session].token);
    }
  }
}
