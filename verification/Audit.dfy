/** The audit hash chain: what a valid ledger is, the verify loop, and what a verified head pins.
    The hash is a parameter; where its collision resistance matters it is an explicit assumption. */
module Audit {
  import opened Wrappers
  import opened Json

  /** The event fields that enter the hashed material besides its sequence and predecessor. */
  datatype Event = Event(
    auditId: string, tenantId: string, userId: Option<string>, action: string, resourceType: string,
    resourceId: Option<string>, details: Value, createdAt: string)

  /** SHA-256 over the canonical JSON of an event, its sequence number and the previous hash. */
  type Hash<!D> = (Event, int, D) -> D

  datatype Row<D> = Row(event: Event, sequence: int, previousHash: D, eventHash: D)

  datatype Head<D> = Head(hash: D, version: int)

  datatype Anchor<D> = NoStore | Unreadable | Missing | Latest(sequence: int, hash: D)

  datatype AuditError =
    | SequenceGap(expected: int, got: int)
    | BrokenLink(at: int)
    | InvalidHash(at: int)
    | CountMismatch
    | HeadMismatch
    | AnchorInvalid
    | AnchorMissing
    | AnchorSequenceMismatch
    | AnchorHashMismatch

  /* ---------- the declarative chain ---------- */

  function LastHash<D>(rows: seq<Row<D>>, zero: D): D
  {
    if rows == [] then zero else rows[|rows| - 1].eventHash
  }

  predicate Linked<D(==)>(rows: seq<Row<D>>, i: nat, hash: Hash<D>, zero: D)
    requires i < |rows|
  {
    && rows[i].sequence == i + 1
    && rows[i].previousHash == LastHash(rows[..i], zero)
    && rows[i].eventHash == hash(rows[i].event, rows[i].sequence, rows[i].previousHash)
  }

  predicate Chain<D(==)>(rows: seq<Row<D>>, hash: Hash<D>, zero: D)
  {
    forall i {:trigger Linked(rows, i, hash, zero)} :: 0 <= i < |rows| ==> Linked(rows, i, hash, zero)
  }

  function HeadHash<D>(head: Option<Head<D>>, zero: D): D
  {
    if head.Some? then head.value.hash else zero
  }

  function HeadVersion<D>(head: Option<Head<D>>): int
  {
    if head.Some? then head.value.version else 0
  }

  predicate HeadAgrees<D(==)>(rows: seq<Row<D>>, head: Option<Head<D>>, zero: D)
  {
    HeadVersion(head) == |rows| && HeadHash(head, zero) == LastHash(rows, zero)
  }

  predicate AnchorAgrees<D(==)>(anchor: Anchor<D>, head: Option<Head<D>>, zero: D)
  {
    match anchor
    case NoStore => true
    case Latest(sequence, hash) => sequence == HeadVersion(head) && hash == HeadHash(head, zero)
    case _ => false
  }

  predicate ValidLedger<D(==)>(rows: seq<Row<D>>, head: Option<Head<D>>, hash: Hash<D>, zero: D)
  {
    Chain(rows, hash, zero) && HeadAgrees(rows, head, zero)
  }

  /** The stored hash is not the hash of the stored material. */
  predicate Corrupt<D(==)>(row: Row<D>, hash: Hash<D>)
  {
    row.eventHash != hash(row.event, row.sequence, row.previousHash)
  }

  /* ---------- the verify loop ---------- */

  /** `AuditLedger.verify`: it reports no error exactly when the ledger is valid and the anchor agrees, and
      every row whose stored hash is wrong is named. */
  method Verify<D(==)>(rows: seq<Row<D>>, head: Option<Head<D>>, anchor: Anchor<D>, hash: Hash<D>, zero: D)
    returns (errors: seq<AuditError>)
    ensures errors == [] <==> ValidLedger(rows, head, hash, zero) && AnchorAgrees(anchor, head, zero)
    ensures errors == [] <==>
              && (forall i :: 0 <= i < |rows| ==>
                    && rows[i].sequence == i + 1 && rows[i].previousHash == (if i == 0 then zero else rows[i - 1].eventHash)
                    && rows[i].eventHash == hash(rows[i].event, i + 1, rows[i].previousHash))
              && (if head.Some? then head.value.version == |rows| else rows == [])
              && (if head.Some? then head.value.hash else zero) == (if rows == [] then zero else rows[|rows| - 1].eventHash)
              && (anchor.NoStore? || (anchor.Latest? && anchor.sequence == |rows| &&
                                      anchor.hash == if head.Some? then head.value.hash else zero))
    ensures forall i :: 0 <= i < |rows| && Corrupt(rows[i], hash) ==> InvalidHash(rows[i].sequence) in errors
  {
    var previous := zero;
    errors := [];
    var expected := 1;
    for i := 0 to |rows|
      invariant previous == LastHash(rows[..i], zero)
      invariant expected == if i == 0 then 1 else rows[i - 1].sequence + 1
      invariant errors == [] <==> Chain(rows[..i], hash, zero)
      invariant forall j :: 0 <= j < i && Corrupt(rows[j], hash) ==> InvalidHash(rows[j].sequence) in errors
    {
      var row := rows[i];
      ChainExtends(rows, i, hash, zero);
      if row.sequence != expected {
        errors := errors + [SequenceGap(expected, row.sequence)];
      }
      if row.previousHash != previous {
        errors := errors + [BrokenLink(row.sequence)];
      }
      var calculated := hash(row.event, row.sequence, row.previousHash);
      if calculated != row.eventHash {
        errors := errors + [InvalidHash(row.sequence)];
      }
      previous := row.eventHash;
      expected := row.sequence + 1;
    }
    assert rows[..|rows|] == rows;
    ChainMeans(rows, hash, zero);
    if HeadVersion(head) != |rows| {
      errors := errors + [CountMismatch];
    }
    if HeadHash(head, zero) != previous {
      errors := errors + [HeadMismatch];
    }
    match anchor {
      case NoStore =>
      case Unreadable => errors := errors + [AnchorInvalid];
      case Missing => errors := errors + [AnchorMissing];
      case Latest(sequence, anchored) =>
        if sequence != HeadVersion(head) {
          errors := errors + [AnchorSequenceMismatch];
        }
        if anchored != HeadHash(head, zero) {
          errors := errors + [AnchorHashMismatch];
        }
    }
  }

  lemma LinkedMeans<D>(rows: seq<Row<D>>, i: nat, hash: Hash<D>, zero: D)
    requires i < |rows|
    ensures Linked(rows, i, hash, zero) <==>
              && rows[i].sequence == i + 1 && rows[i].previousHash == (if i == 0 then zero else rows[i - 1].eventHash)
              && rows[i].eventHash == hash(rows[i].event, i + 1, rows[i].previousHash)
  {
    assert i > 0 ==> rows[..i][|rows[..i]| - 1] == rows[i - 1];
  }

  lemma ChainMeans<D>(rows: seq<Row<D>>, hash: Hash<D>, zero: D)
    ensures Chain(rows, hash, zero) <==> forall i :: 0 <= i < |rows| ==>
              && rows[i].sequence == i + 1 && rows[i].previousHash == (if i == 0 then zero else rows[i - 1].eventHash)
              && rows[i].eventHash == hash(rows[i].event, i + 1, rows[i].previousHash)
  {
    forall i {:trigger Linked(rows, i, hash, zero)} {:trigger rows[i]} | 0 <= i < |rows|
      ensures Linked(rows, i, hash, zero) <==>
              && rows[i].sequence == i + 1 && rows[i].previousHash == (if i == 0 then zero else rows[i - 1].eventHash)
              && rows[i].eventHash == hash(rows[i].event, i + 1, rows[i].previousHash)
    {
      LinkedMeans(rows, i, hash, zero);
    }
  }

  lemma LinkedInPrefix<D>(rows: seq<Row<D>>, n: nat, i: nat, hash: Hash<D>, zero: D)
    requires i < n <= |rows|
    ensures Linked(rows[..n], i, hash, zero) == Linked(rows, i, hash, zero)
  {
    assert rows[..n][..i] == rows[..i] && rows[..n][i] == rows[i];
  }

  lemma ChainExtends<D>(rows: seq<Row<D>>, i: nat, hash: Hash<D>, zero: D)
    requires i < |rows|
    ensures Chain(rows[..i + 1], hash, zero) <==> Chain(rows[..i], hash, zero) && Linked(rows, i, hash, zero)
    ensures Chain(rows[..i], hash, zero) && i > 0 ==> rows[i - 1].sequence == i
    ensures LastHash(rows[..i + 1], zero) == rows[i].eventHash
  {
    if Chain(rows[..i + 1], hash, zero) {
      forall j | 0 <= j < i ensures Linked(rows[..i], j, hash, zero) {
        assert Linked(rows[..i + 1], j, hash, zero);
        LinkedInPrefix(rows, i + 1, j, hash, zero);
        LinkedInPrefix(rows, i, j, hash, zero);
      }
      assert Linked(rows[..i + 1], i, hash, zero);
      LinkedInPrefix(rows, i + 1, i, hash, zero);
    }
    if Chain(rows[..i], hash, zero) && Linked(rows, i, hash, zero) {
      var longer := rows[..i + 1];
      forall j {:trigger Linked(longer, j, hash, zero)} | 0 <= j < |longer| ensures Linked(longer, j, hash, zero) {
        LinkedInPrefix(rows, i + 1, j, hash, zero);
        if j < i {
          assert Linked(rows[..i], j, hash, zero);
          LinkedInPrefix(rows, i, j, hash, zero);
        }
      }
    }
    if Chain(rows[..i], hash, zero) && i > 0 {
      assert Linked(rows[..i], i - 1, hash, zero);
    }
  }

  /* ---------- what a verified head pins ---------- */

  /** No two materials hash alike. */
  ghost predicate Injective<D(!new)>(hash: Hash<D>)
  {
    forall a, b, i, j, p, q {:trigger hash(a, i, p), hash(b, j, q)} ::
      hash(a, i, p) == hash(b, j, q) ==> a == b && i == j && p == q
  }

  /** A digest that remembers everything it was computed from. */
  datatype Digest = Genesis | Hashed(event: Event, sequence: int, previous: Digest)

  /** Hash functions without collisions, and without the genesis value among their results, exist. */
  lemma InjectiveHashExists()
    ensures exists hash: Hash<Digest> :: Injective(hash) && forall e, i, p :: hash(e, i, p) != Genesis
  {
    var hash: Hash<Digest> := (e: Event, i: int, p: Digest) => Hashed(e, i, p);
    assert Injective(hash) && forall e, i, p :: hash(e, i, p) != Genesis;
  }

  lemma ChainPrefix<D>(rows: seq<Row<D>>, n: nat, hash: Hash<D>, zero: D)
    requires Chain(rows, hash, zero) && n <= |rows|
    ensures Chain(rows[..n], hash, zero)
  {
    forall i | 0 <= i < n ensures Linked(rows[..n], i, hash, zero) {
      LinkedInPrefix(rows, n, i, hash, zero);
    }
  }

  /** Two chains of the same length with the same last hash are the same chain. */
  lemma {:induction false} SameHeadSameChain<D(!new)>(a: seq<Row<D>>, b: seq<Row<D>>, hash: Hash<D>, zero: D)
    requires Injective(hash) && Chain(a, hash, zero) && Chain(b, hash, zero)
    requires |a| == |b| && LastHash(a, zero) == LastHash(b, zero)
    ensures a == b
    decreases |a|
  {
    if a != [] {
      var n := |a| - 1;
      var x, y := a[n], b[n];
      assert Linked(a, n, hash, zero) && Linked(b, n, hash, zero);
      assert hash(x.event, x.sequence, x.previousHash) == hash(y.event, y.sequence, y.previousHash);
      ChainPrefix(a, n, hash, zero);
      ChainPrefix(b, n, hash, zero);
      SameHeadSameChain(a[..n], b[..n], hash, zero);
      assert a == a[..n] + [x] && b == b[..n] + [y];
    }
  }

  /** A valid verification against one anchor pins the whole history: any two ledgers that both verify
      against it hold the same rows and the same head. */
  lemma {:induction false} AnchorPinsHistory<D(!new)>(
      a: seq<Row<D>>, headA: Option<Head<D>>, b: seq<Row<D>>, headB: Option<Head<D>>, anchor: Anchor<D>, hash: Hash<D>, zero: D)
    requires Injective(hash) && anchor.Latest?
    requires ValidLedger(a, headA, hash, zero) && AnchorAgrees(anchor, headA, zero)
    requires ValidLedger(b, headB, hash, zero) && AnchorAgrees(anchor, headB, zero)
    ensures a == b && HeadHash(headA, zero) == HeadHash(headB, zero) && HeadVersion(headA) == HeadVersion(headB)
  {
    SameHeadSameChain(a, b, hash, zero);
  }

  /** The head hash alone pins the history, length included, when no event hashes to the genesis value. */
  lemma {:induction false} HeadHashPinsHistory<D(!new)>(a: seq<Row<D>>, b: seq<Row<D>>, hash: Hash<D>, zero: D)
    requires Injective(hash) && forall e, i, p :: hash(e, i, p) != zero
    requires Chain(a, hash, zero) && Chain(b, hash, zero) && LastHash(a, zero) == LastHash(b, zero)
    ensures a == b
  {
    LastIsHashed(a, hash, zero);
    LastIsHashed(b, hash, zero);
    if a != [] && b != [] {
      var x, y := a[|a| - 1], b[|b| - 1];
      assert hash(x.event, |a|, x.previousHash) == hash(y.event, |b|, y.previousHash);
    }
    SameHeadSameChain(a, b, hash, zero);
  }

  lemma LastIsHashed<D>(rows: seq<Row<D>>, hash: Hash<D>, zero: D)
    requires Chain(rows, hash, zero)
    ensures rows != [] ==> LastHash(rows, zero) == hash(rows[|rows| - 1].event, |rows|, rows[|rows| - 1].previousHash)
  {
    if rows != [] {
      assert Linked(rows, |rows| - 1, hash, zero);
    }
  }

  /* ---------- growing a chain ---------- */

  function NextRow<D>(rows: seq<Row<D>>, event: Event, hash: Hash<D>, zero: D): Row<D>
  {
    var previous := LastHash(rows, zero);
    Row(event, |rows| + 1, previous, hash(event, |rows| + 1, previous))
  }

  /** Appending the next row keeps a ledger valid. */
  lemma NextRowKeepsChain<D>(rows: seq<Row<D>>, event: Event, hash: Hash<D>, zero: D)
    requires Chain(rows, hash, zero)
    ensures Chain(rows + [NextRow(rows, event, hash, zero)], hash, zero)
  {
    var longer := rows + [NextRow(rows, event, hash, zero)];
    assert longer[..|rows|] == rows && longer[..|rows| + 1] == longer;
    ChainExtends(longer, |rows|, hash, zero);
  }
}
