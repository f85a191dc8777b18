/** Concurrent appends to the audit ledger: read the head, then commit conditionally, retrying up to sixteen
    times; anchors are written after the commit, in any order. */
module AuditAppend {
  import opened Wrappers
  import opened Audit

  const MAX_TRIES: nat := 16

  /** The event and head tables. */
  datatype Tables<D> = Tables(rows: map<string, seq<Row<D>>>, heads: map<string, Head<D>>)

  function Rows<D>(db: Tables<D>, tenantId: string): seq<Row<D>>
  {
    if tenantId in db.rows then db.rows[tenantId] else []
  }

  function HeadOf<D>(db: Tables<D>, tenantId: string): Option<Head<D>>
  {
    if tenantId in db.heads then Some(db.heads[tenantId]) else None
  }

  /** The head as an append saw it. */
  datatype Seen<D> = Seen(present: bool, version: int, previous: D)

  function ReadHead<D>(db: Tables<D>, tenantId: string, zero: D): Seen<D>
  {
    if tenantId in db.heads then Seen(true, db.heads[tenantId].version, db.heads[tenantId].hash) else Seen(false, 0, zero)
  }

  /** The conditional commit: update the head only at the version that was read, or insert it only if there
      is none, and store the event in the same transaction. None when the head has moved. */
  function Commit<D>(db: Tables<D>, tenantId: string, seen: Seen<D>, event: Event, hash: Hash<D>): Option<Tables<D>>
  {
    var sequence := seen.version + 1;
    var digest := hash(event, sequence, seen.previous);
    var unmoved :=
      if seen.present then tenantId in db.heads && db.heads[tenantId].version == seen.version else tenantId !in db.heads;
    if unmoved then
      Some(Tables(db.rows[tenantId := Rows(db, tenantId) + [Row(event, sequence, seen.previous, digest)]],
                  db.heads[tenantId := Head(digest, sequence)]))
    else None
  }

  /* ---------- what every ledger keeps ---------- */

  /** A head row exists exactly for tenants with events, and the tenant's ledger verifies. */
  predicate ValidTenant<D(==)>(db: Tables<D>, tenantId: string, hash: Hash<D>, zero: D)
  {
    && ValidLedger(Rows(db, tenantId), HeadOf(db, tenantId), hash, zero)
    && (tenantId in db.heads <==> Rows(db, tenantId) != [])
  }

  ghost predicate Valid<D>(db: Tables<D>, hash: Hash<D>, zero: D)
  {
    forall tenantId :: ValidTenant(db, tenantId, hash, zero)
  }

  /** What was seen was the head at some moment of the tenant's chain. */
  predicate WasHead<D(==)>(db: Tables<D>, tenantId: string, seen: Seen<D>, zero: D)
  {
    && 0 <= seen.version <= |Rows(db, tenantId)|
    && (seen.present <==> seen.version > 0)
    && seen.previous == LastHash(Rows(db, tenantId)[..seen.version], zero)
  }

  lemma HeadWasHead<D>(db: Tables<D>, tenantId: string, hash: Hash<D>, zero: D)
    requires ValidTenant(db, tenantId, hash, zero)
    ensures WasHead(db, tenantId, ReadHead(db, tenantId, zero), zero)
  {
    var rows := Rows(db, tenantId);
    assert rows[..|rows|] == rows;
  }

  /** A commit on something that was the head succeeds exactly when it still is, and then appends the next
      row of the chain. */
  lemma CommitIff<D>(db: Tables<D>, tenantId: string, seen: Seen<D>, event: Event, hash: Hash<D>, zero: D)
    requires ValidTenant(db, tenantId, hash, zero) && WasHead(db, tenantId, seen, zero)
    ensures Commit(db, tenantId, seen, event, hash).Some? <==> seen.version == |Rows(db, tenantId)|
    ensures Commit(db, tenantId, seen, event, hash).Some? ==>
      Rows(Commit(db, tenantId, seen, event, hash).value, tenantId)
        == Rows(db, tenantId) + [NextRow(Rows(db, tenantId), event, hash, zero)]
  {
    var rows := Rows(db, tenantId);
    assert rows[..|rows|] == rows;
  }

  lemma CommitKeepsValid<D>(db: Tables<D>, tenantId: string, seen: Seen<D>, event: Event, hash: Hash<D>, zero: D)
    requires Valid(db, hash, zero) && WasHead(db, tenantId, seen, zero)
    requires Commit(db, tenantId, seen, event, hash).Some?
    ensures Valid(Commit(db, tenantId, seen, event, hash).value, hash, zero)
  {
    var after := Commit(db, tenantId, seen, event, hash).value;
    assert ValidTenant(db, tenantId, hash, zero);
    CommitIff(db, tenantId, seen, event, hash, zero);
    NextRowKeepsChain(Rows(db, tenantId), event, hash, zero);
    forall other ensures ValidTenant(after, other, hash, zero) {
      assert ValidTenant(db, other, hash, zero);
    }
  }

  /* ---------- one append call ---------- */

  /** An append that runs alone. */
  function AppendAlone<D>(db: Tables<D>, event: Event, hash: Hash<D>, zero: D): Option<Tables<D>>
  {
    Commit(db, event.tenantId, ReadHead(db, event.tenantId, zero), event, hash)
  }

  lemma AppendAloneSucceeds<D>(db: Tables<D>, event: Event, hash: Hash<D>, zero: D)
    requires Valid(db, hash, zero)
    ensures AppendAlone(db, event, hash, zero).Some?
    ensures Valid(AppendAlone(db, event, hash, zero).value, hash, zero)
    ensures Rows(AppendAlone(db, event, hash, zero).value, event.tenantId)
         == Rows(db, event.tenantId) + [NextRow(Rows(db, event.tenantId), event, hash, zero)]
    ensures forall other :: other != event.tenantId ==>
      Rows(AppendAlone(db, event, hash, zero).value, other) == Rows(db, other)
  {
    assert ValidTenant(db, event.tenantId, hash, zero);
    HeadWasHead(db, event.tenantId, hash, zero);
    CommitIff(db, event.tenantId, ReadHead(db, event.tenantId, zero), event, hash, zero);
    CommitKeepsValid(db, event.tenantId, ReadHead(db, event.tenantId, zero), event, hash, zero);
  }

  class Ledger<D(==)> {
    var db: Tables<D>

    constructor ()
      ensures db == Tables(map[], map[])
    {
      db := Tables(map[], map[]);
    }

    /** Other replicas committing between this call's read and its commit. */
    method Rivals(events: seq<Event>, hash: Hash<D>, zero: D)
      requires Valid(db, hash, zero)
      modifies this
      ensures Valid(db, hash, zero)
      ensures forall t :: Rows(old(db), t) <= Rows(db, t)
      ensures forall t :: (forall i :: 0 <= i < |events| ==> events[i].tenantId != t) ==> Rows(db, t) == Rows(old(db), t)
      ensures forall t :: (exists i :: 0 <= i < |events| && events[i].tenantId == t) ==> |Rows(db, t)| > |Rows(old(db), t)|
    {
      for i := 0 to |events|
        invariant Valid(db, hash, zero)
        invariant forall t :: Rows(old(db), t) <= Rows(db, t)
        invariant forall t :: (forall j :: 0 <= j < i ==> events[j].tenantId != t) ==> Rows(db, t) == Rows(old(db), t)
        invariant forall t :: (exists j :: 0 <= j < i && events[j].tenantId == t) ==> |Rows(db, t)| > |Rows(old(db), t)|
      {
        AppendAloneSucceeds(db, events[i], hash, zero);
        db := AppendAlone(db, events[i], hash, zero).value;
      }
    }

    /** `append` against any interference: `rivals[k]` is what others commit during the k-th try. It gives up
        only if in each of the sixteen tries another event of the tenant was committed first; otherwise its
        event is the newest row, and the ledger of every tenant stays valid. */
    method Append(event: Event, rivals: seq<seq<Event>>, hash: Hash<D>, zero: D) returns (sequence: Option<int>)
      requires Valid(db, hash, zero) && |rivals| == MAX_TRIES
      modifies this
      ensures Valid(db, hash, zero)
      ensures forall t :: Rows(old(db), t) <= Rows(db, t)
      ensures sequence.None? <==> forall k :: 0 <= k < MAX_TRIES ==> Contended(rivals[k], event.tenantId)
      ensures sequence.Some? ==>
        var rows := Rows(db, event.tenantId);
        sequence.value == |rows| && rows != [] && rows[|rows| - 1].event == event
    {
      for k := 0 to MAX_TRIES
        invariant Valid(db, hash, zero)
        invariant forall t :: Rows(old(db), t) <= Rows(db, t)
        invariant forall j :: 0 <= j < k ==> Contended(rivals[j], event.tenantId)
      {
        assert ValidTenant(db, event.tenantId, hash, zero);
        var seen := ReadHead(db, event.tenantId, zero);
        HeadWasHead(db, event.tenantId, hash, zero);
        ghost var before := Rows(db, event.tenantId);
        Rivals(rivals[k], hash, zero);
        assert ValidTenant(db, event.tenantId, hash, zero);
        assert before == Rows(db, event.tenantId)[..|before|];
        assert before[..seen.version] == Rows(db, event.tenantId)[..seen.version];
        CommitIff(db, event.tenantId, seen, event, hash, zero);
        var committed := Commit(db, event.tenantId, seen, event, hash);
        if committed.Some? {
          CommitKeepsValid(db, event.tenantId, seen, event, hash, zero);
          db := committed.value;
          return Some(seen.version + 1);
        }
      }
      return None;
    }
  }

  predicate Contended(events: seq<Event>, tenantId: string)
  {
    exists i :: 0 <= i < |events| && events[i].tenantId == tenantId
  }
}
