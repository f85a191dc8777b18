/** Whole runs of the audit ledger: any number of append calls interleave between reading the head, committing
    and writing the external anchor. */
module AuditRun {
  import opened Wrappers
  import opened Audit
  import opened AuditAppend
  import A = Anchors

  datatype Phase<D> =
    | Ready
    | HeadRead(event: Event, seen: Seen<D>)
    | Committed(sequence: nat, digest: D)
    | Anchored
    | GaveUp

  datatype Session<D> = Session(tenantId: string, tries: nat, phase: Phase<D>)

  /** The tables, every call in progress, and the anchors written so far in order of arrival. */
  datatype Machine<D> = Machine(db: Tables<D>, sessions: map<int, Session<D>>, anchors: seq<A.Record<D>>)

  datatype Move =
    | Begin(call: int, tenantId: string)
    | Read(call: int, event: Event)
    | TryCommit(call: int)
    | WriteAnchor(call: int)

  predicate Enabled<D>(m: Machine<D>, v: Move)
  {
    match v
    case Begin(call, _) => call !in m.sessions
    case Read(call, event) =>
      call in m.sessions && m.sessions[call].phase.Ready? && event.tenantId == m.sessions[call].tenantId
    case TryCommit(call) =>  // the invariant below shows that a version read is never negative
      call in m.sessions && m.sessions[call].phase.HeadRead? && m.sessions[call].phase.seen.version >= 0
    case WriteAnchor(call) => call in m.sessions && m.sessions[call].phase.Committed?
  }

  function With<D>(m: Machine<D>, call: int, phase: Phase<D>): map<int, Session<D>>
    requires call in m.sessions
  {
    m.sessions[call := m.sessions[call].(phase := phase)]
  }

  function Next<D>(m: Machine<D>, v: Move, hash: Hash<D>, zero: D): Machine<D>
    requires Enabled(m, v)
  {
    match v
    case Begin(call, tenantId) => m.(sessions := m.sessions[call := Session(tenantId, 0, Ready)])
    case Read(call, event) =>
      m.(sessions := With(m, call, HeadRead(event, ReadHead(m.db, event.tenantId, zero))))
    case TryCommit(call) =>
      var w := m.sessions[call];
      (match Commit(m.db, w.tenantId, w.phase.seen, w.phase.event, hash)
       case Some(db) =>
         m.(db := db,
            sessions := With(m, call, Committed(w.phase.seen.version + 1,
                                               hash(w.phase.event, w.phase.seen.version + 1, w.phase.seen.previous))))
       case None =>
         m.(sessions := m.sessions[call := Session(w.tenantId, w.tries + 1, if w.tries + 1 == MAX_TRIES then GaveUp else Ready)]))
    case WriteAnchor(call) =>
      var w := m.sessions[call];
      m.(sessions := With(m, call, Anchored), anchors := m.anchors + [A.Record(w.tenantId, w.phase.sequence, w.phase.digest)])
  }

  predicate Plays<D>(m: Machine<D>, moves: seq<Move>, hash: Hash<D>, zero: D)
    decreases |moves|
  {
    moves == [] || (Enabled(m, moves[0]) && Plays(Next(m, moves[0], hash, zero), moves[1..], hash, zero))
  }

  function Outcome<D>(m: Machine<D>, moves: seq<Move>, hash: Hash<D>, zero: D): Machine<D>
    requires Plays(m, moves, hash, zero)
    decreases |moves|
  {
    if moves == [] then m else Outcome(Next(m, moves[0], hash, zero), moves[1..], hash, zero)
  }

  function Fresh<D>(): Machine<D>
  {
    Machine(Tables(map[], map[]), map[], [])
  }

  /* ---------- the invariant ---------- */

  /** The tenant's row with this sequence has this hash. */
  predicate RowHash<D(==)>(db: Tables<D>, tenantId: string, sequence: nat, digest: D)
  {
    1 <= sequence <= |Rows(db, tenantId)| && Rows(db, tenantId)[sequence - 1].eventHash == digest
  }

  predicate SessionInv<D(==)>(db: Tables<D>, w: Session<D>, zero: D)
  {
    match w.phase
    case HeadRead(event, seen) => event.tenantId == w.tenantId && WasHead(db, w.tenantId, seen, zero) && w.tries < MAX_TRIES
    case Committed(sequence, digest) => RowHash(db, w.tenantId, sequence, digest)
    case Ready => w.tries < MAX_TRIES
    case _ => true
  }

  predicate AnchorInv<D(==)>(db: Tables<D>, r: A.Record<D>)
  {
    RowHash(db, r.tenantId, r.sequence, r.headHash)
  }

  /** Either the anchor for this row has been written, or the call that committed it still owes it. */
  ghost predicate Covered<D>(m: Machine<D>, tenantId: string, sequence: nat)
  {
    || (exists i :: 0 <= i < |m.anchors| && m.anchors[i].tenantId == tenantId && m.anchors[i].sequence == sequence)
    || (exists call :: call in m.sessions && m.sessions[call].tenantId == tenantId
          && m.sessions[call].phase.Committed? && m.sessions[call].phase.sequence == sequence)
  }

  ghost predicate Inv<D>(m: Machine<D>, hash: Hash<D>, zero: D)
  {
    && Valid(m.db, hash, zero)
    && (forall call :: call in m.sessions ==> SessionInv(m.db, m.sessions[call], zero))
    && (forall i :: 0 <= i < |m.anchors| ==> AnchorInv(m.db, m.anchors[i]))
    && forall t, s {:trigger Covered(m, t, s)} :: 1 <= s <= |Rows(m.db, t)| ==> Covered(m, t, s)
  }

  /* ---------- every move keeps it ---------- */

  /** Tables that only grow keep what sessions and anchors know. */
  ghost predicate Grows<D>(a: Tables<D>, b: Tables<D>)
  {
    forall t :: Rows(a, t) <= Rows(b, t)
  }

  lemma GrowthKeeps<D>(a: Tables<D>, b: Tables<D>, w: Session<D>, r: A.Record<D>, zero: D)
    requires Grows(a, b)
    ensures SessionInv(a, w, zero) ==> SessionInv(b, w, zero)
    ensures AnchorInv(a, r) ==> AnchorInv(b, r)
  {
    assert Rows(a, w.tenantId) <= Rows(b, w.tenantId);
    assert Rows(a, r.tenantId) <= Rows(b, r.tenantId);
    if SessionInv(a, w, zero) && w.phase.HeadRead? {
      var n := w.phase.seen.version;
      assert Rows(a, w.tenantId)[..n] == Rows(b, w.tenantId)[..n];
    }
  }

  lemma CommitGrows<D>(db: Tables<D>, tenantId: string, seen: Seen<D>, event: Event, hash: Hash<D>)
    requires Commit(db, tenantId, seen, event, hash).Some?
    ensures Grows(db, Commit(db, tenantId, seen, event, hash).value)
  {
  }

  /** A move that leaves tables and anchors alone and drops no owed anchor. */
  lemma SessionMove<D>(m: Machine<D>, n: Machine<D>, call: int, hash: Hash<D>, zero: D)
    requires Inv(m, hash, zero) && n.db == m.db && n.anchors == m.anchors
    requires call in n.sessions && n.sessions == m.sessions[call := n.sessions[call]]
    requires SessionInv(m.db, n.sessions[call], zero)
    requires call in m.sessions ==> !m.sessions[call].phase.Committed?
    ensures Inv(n, hash, zero)
  {
    forall t, s {:trigger Covered(n, t, s)} | 1 <= s <= |Rows(n.db, t)| ensures Covered(n, t, s) {
      assert Covered(m, t, s);
      if c :| c in m.sessions && m.sessions[c].tenantId == t && m.sessions[c].phase.Committed? && m.sessions[c].phase.sequence == s {
        assert c in n.sessions && n.sessions[c] == m.sessions[c];
      }
    }
  }

  lemma SuccessfulCommit<D>(m: Machine<D>, call: int, hash: Hash<D>, zero: D)
    requires Inv(m, hash, zero) && Enabled(m, TryCommit(call))
    requires Commit(m.db, m.sessions[call].tenantId, m.sessions[call].phase.seen, m.sessions[call].phase.event, hash).Some?
    ensures Inv(Next(m, TryCommit(call), hash, zero), hash, zero)
  {
    var w, n := m.sessions[call], Next(m, TryCommit(call), hash, zero);
    assert SessionInv(m.db, w, zero) && ValidTenant(m.db, w.tenantId, hash, zero);
    CommitIff(m.db, w.tenantId, w.phase.seen, w.phase.event, hash, zero);
    CommitKeepsValid(m.db, w.tenantId, w.phase.seen, w.phase.event, hash, zero);
    CommitGrows(m.db, w.tenantId, w.phase.seen, w.phase.event, hash);
    forall c | c in n.sessions ensures SessionInv(n.db, n.sessions[c], zero) {
      if c != call {
        GrowthKeeps(m.db, n.db, m.sessions[c], A.Record("", 0, zero), zero);
      }
    }
    forall i | 0 <= i < |n.anchors| ensures AnchorInv(n.db, n.anchors[i]) {
      GrowthKeeps(m.db, n.db, w, m.anchors[i], zero);
    }
    forall t, s {:trigger Covered(n, t, s)} | 1 <= s <= |Rows(n.db, t)| ensures Covered(n, t, s) {
      StillCovered(m, n, call, t, s, zero);
    }
  }

  lemma StillCovered<D>(m: Machine<D>, n: Machine<D>, call: int, t: string, s: nat, zero: D)
    requires call in m.sessions && call in n.sessions && n.sessions == m.sessions[call := n.sessions[call]]
    requires n.anchors == m.anchors && !m.sessions[call].phase.Committed?
    requires n.sessions[call].tenantId == m.sessions[call].tenantId && n.sessions[call].phase.Committed?
    requires n.sessions[call].phase.sequence == |Rows(m.db, m.sessions[call].tenantId)| + 1
    requires |Rows(n.db, t)| == |Rows(m.db, t)| + (if t == m.sessions[call].tenantId then 1 else 0)
    requires 1 <= s <= |Rows(n.db, t)| && (s <= |Rows(m.db, t)| ==> Covered(m, t, s))
    ensures Covered(n, t, s)
  {
    if s <= |Rows(m.db, t)| {
      if c :| c in m.sessions && m.sessions[c].tenantId == t && m.sessions[c].phase.Committed? && m.sessions[c].phase.sequence == s {
        assert c in n.sessions && n.sessions[c] == m.sessions[c];
      }
    } else {
      assert call in n.sessions && n.sessions[call].tenantId == t;
    }
  }

  lemma AnchorMove<D>(m: Machine<D>, call: int, hash: Hash<D>, zero: D)
    requires Inv(m, hash, zero) && Enabled(m, WriteAnchor(call))
    ensures Inv(Next(m, WriteAnchor(call), hash, zero), hash, zero)
  {
    var w, n := m.sessions[call], Next(m, WriteAnchor(call), hash, zero);
    assert SessionInv(m.db, w, zero);
    forall t, s {:trigger Covered(n, t, s)} | 1 <= s <= |Rows(n.db, t)| ensures Covered(n, t, s) {
      assert Covered(m, t, s);
      if i :| 0 <= i < |m.anchors| && m.anchors[i].tenantId == t && m.anchors[i].sequence == s {
        assert n.anchors[i] == m.anchors[i];
      } else {
        var c :| c in m.sessions && m.sessions[c].tenantId == t && m.sessions[c].phase.Committed? && m.sessions[c].phase.sequence == s;
        if c == call {
          assert n.anchors[|m.anchors|] == A.Record(t, s, w.phase.digest);
        } else {
          assert c in n.sessions && n.sessions[c] == m.sessions[c];
        }
      }
    }
  }

  lemma MoveKeepsInv<D>(m: Machine<D>, v: Move, hash: Hash<D>, zero: D)
    requires Inv(m, hash, zero) && Enabled(m, v)
    ensures Inv(Next(m, v, hash, zero), hash, zero)
  {
    var n := Next(m, v, hash, zero);
    match v
    case Begin(call, _) => SessionMove(m, n, call, hash, zero);
    case Read(call, event) =>
      assert SessionInv(m.db, m.sessions[call], zero) && ValidTenant(m.db, event.tenantId, hash, zero);
      HeadWasHead(m.db, event.tenantId, hash, zero);
      SessionMove(m, n, call, hash, zero);
    case TryCommit(call) =>
      var w := m.sessions[call];
      assert SessionInv(m.db, w, zero);
      if Commit(m.db, w.tenantId, w.phase.seen, w.phase.event, hash).Some? {
        SuccessfulCommit(m, call, hash, zero);
      } else {
        SessionMove(m, n, call, hash, zero);
      }
    case WriteAnchor(call) => AnchorMove(m, call, hash, zero);
  }

  lemma {:induction false} PlayKeepsInv<D>(m: Machine<D>, moves: seq<Move>, hash: Hash<D>, zero: D)
    requires Inv(m, hash, zero) && Plays(m, moves, hash, zero)
    ensures Inv(Outcome(m, moves, hash, zero), hash, zero)
    decreases |moves|
  {
    if moves != [] {
      MoveKeepsInv(m, moves[0], hash, zero);
      PlayKeepsInv(Next(m, moves[0], hash, zero), moves[1..], hash, zero);
    }
  }

  /* ---------- what holds over every run ---------- */

  /** Every ledger reached by any interleaving of appends verifies without an anchor store. */
  lemma {:induction false} EveryLedgerVerifies<D>(moves: seq<Move>, hash: Hash<D>, zero: D, tenantId: string)
    requires Plays(Fresh<D>(), moves, hash, zero)
    ensures var db := Outcome(Fresh<D>(), moves, hash, zero).db;
      ValidLedger(Rows(db, tenantId), HeadOf(db, tenantId), hash, zero)
  {
    PlayKeepsInv(Fresh<D>(), moves, hash, zero);
    assert ValidTenant(Outcome(Fresh<D>(), moves, hash, zero).db, tenantId, hash, zero);
  }

  /** Anchors arrive in any order but never contradict each other. */
  lemma AnchorsConsistent<D>(m: Machine<D>, hash: Hash<D>, zero: D)
    requires Inv(m, hash, zero) && forall t :: |Rows(m.db, t)| < A.LIMIT
    ensures A.Consistent(m.anchors)
  {
    forall r | r in m.anchors ensures r.sequence < A.LIMIT {
      assert AnchorInv(m.db, r);
    }
    forall r, q | r in m.anchors && q in m.anchors && r.tenantId == q.tenantId && r.sequence == q.sequence ensures r == q {
      assert AnchorInv(m.db, r) && AnchorInv(m.db, q);
    }
  }

  /** Once every committed append has written its anchor, the file store's latest anchor is the head. */
  lemma LatestAnchorIsHead<D>(m: Machine<D>, hash: Hash<D>, zero: D, tenantId: string)
    requires Inv(m, hash, zero) && Rows(m.db, tenantId) != []
    requires forall call :: call in m.sessions ==> !m.sessions[call].phase.Committed?
    ensures A.FileLatest(m.anchors, tenantId) == Some(A.Record(tenantId, |Rows(m.db, tenantId)|, LastHash(Rows(m.db, tenantId), zero)))
  {
    var n := |Rows(m.db, tenantId)|;
    assert Covered(m, tenantId, n);
    var i :| 0 <= i < |m.anchors| && m.anchors[i].tenantId == tenantId && m.anchors[i].sequence == n;
    A.FileLatestIsGreatest(m.anchors, tenantId);
    assert m.anchors[i] in m.anchors;
    var top := A.FileLatest(m.anchors, tenantId).value;
    assert AnchorInv(m.db, top);
  }

  /** Then verification against the external anchor succeeds, whichever store answers: the scanned file, or
      the directory that received the same anchors in the same order of arrival. */
  lemma {:induction false} VerifiesAgainstEitherStore<D>(
      moves: seq<Move>, hash: Hash<D>, zero: D, tenantId: string, key: A.TenantKey, latest: Option<A.Record<D>>)
    requires Plays(Fresh<D>(), moves, hash, zero)
    requires A.FixedWidth(key) && A.KeysApart(key, A.TenantsOf(Outcome(Fresh<D>(), moves, hash, zero).anchors))
    requires var m := Outcome(Fresh<D>(), moves, hash, zero);
      && (forall call :: call in m.sessions ==> !m.sessions[call].phase.Committed?)
      && (forall t :: |Rows(m.db, t)| < A.LIMIT)
      && Rows(m.db, tenantId) != []
    ensures var m := Outcome(Fresh<D>(), moves, hash, zero);
      && A.Deliver(key, m.anchors).Some?
      && (latest == A.FileLatest(m.anchors, tenantId) || A.GreatestName(key, A.Deliver(key, m.anchors).value, tenantId, latest)
          ==> latest.Some? && AnchorAgrees(Latest(latest.value.sequence, latest.value.headHash), HeadOf(m.db, tenantId), zero))
  {
    var m := Outcome(Fresh<D>(), moves, hash, zero);
    PlayKeepsInv(Fresh<D>(), moves, hash, zero);
    AnchorsConsistent(m, hash, zero);
    LatestAnchorIsHead(m, hash, zero, tenantId);
    A.ConsistentFilesApart(key, m.anchors);
    A.StoresAgree(key, m.anchors, tenantId, latest);
    assert ValidTenant(m.db, tenantId, hash, zero);
  }

  /** A commit is refused only because another append of the same tenant was committed in between. */
  lemma RetryMeansProgress<D>(m: Machine<D>, call: int, hash: Hash<D>, zero: D)
    requires Inv(m, hash, zero) && Enabled(m, TryCommit(call))
    ensures var w := m.sessions[call];
      Next(m, TryCommit(call), hash, zero).db == m.db <==> w.phase.seen.version < |Rows(m.db, w.tenantId)|
  {
    var w := m.sessions[call];
    assert SessionInv(m.db, w, zero) && ValidTenant(m.db, w.tenantId, hash, zero);
    CommitIff(m.db, w.tenantId, w.phase.seen, w.phase.event, hash, zero);
    match Commit(m.db, w.tenantId, w.phase.seen, w.phase.event, hash)
    case Some(db) => assert |Rows(db, w.tenantId)| == |Rows(m.db, w.tenantId)| + 1;
    case None =>
  }
}
