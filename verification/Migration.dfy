/** The v1 to v2 migration of the audit tables: every tenant's events, in query order, become a freshly hashed
    chain with contiguous sequence numbers. */
module Migration {
  import opened Audit
  import opened AuditAppend

  /** One tenant's old rows, in query order. */
  function OfTenant(events: seq<Event>, tenantId: string): seq<Event>
  {
    if events == [] then []
    else
      var last := events[|events| - 1];
      OfTenant(events[..|events| - 1], tenantId) + if last.tenantId == tenantId then [last] else []
  }

  /** The rows keep their order, and those of other tenants are left out. */
  lemma {:induction false} OfTenantInOrder(a: seq<Event>, b: seq<Event>, event: Event, tenantId: string)
    ensures OfTenant(a + b, tenantId) == OfTenant(a, tenantId) + OfTenant(b, tenantId)
    ensures OfTenant([event], tenantId) == if event.tenantId == tenantId then [event] else []
    decreases |b|
  {
    assert [event][..0] == [] && OfTenant([], tenantId) == [];
    if b == [] {
      assert a + b == a;
    } else {
      OfTenantInOrder(a, b[..|b| - 1], event, tenantId);
      assert (a + b)[..|a + b| - 1] == a + b[..|b| - 1];
    }
  }

  /** The rebuilt chain of one tenant. */
  function Rehashed<D>(events: seq<Event>, hash: Hash<D>, zero: D): seq<Row<D>>
  {
    if events == [] then []
    else
      var before := Rehashed(events[..|events| - 1], hash, zero);
      before + [NextRow(before, events[|events| - 1], hash, zero)]
  }

  /** `hash_audit_row` and the re-hash loop over one tenant's rows. */
  method Rehash<D>(events: seq<Event>, hash: Hash<D>, zero: D) returns (rows: seq<Row<D>>, head: Head<D>)
    ensures rows == Rehashed(events, hash, zero)
    ensures head == Head(LastHash(rows, zero), |events|)
  {
    rows := [];
    var previous := zero;
    for i := 0 to |events|
      invariant rows == Rehashed(events[..i], hash, zero) && |rows| == i
      invariant previous == LastHash(rows, zero)
    {
      assert events[..i + 1][..i] == events[..i];
      var eventHash := hash(events[i], i + 1, previous);
      rows := rows + [Row(events[i], i + 1, previous, eventHash)];
      previous := eventHash;
    }
    assert events[..|events|] == events;
    head := Head(previous, |events|);
  }

  /** The rebuilt chain holds the same events in the same order and verifies. */
  lemma {:induction false} RehashedIsValid<D>(events: seq<Event>, hash: Hash<D>, zero: D)
    ensures var rows := Rehashed(events, hash, zero);
      && |rows| == |events|
      && (forall i :: 0 <= i < |events| ==> rows[i].event == events[i])
      && Chain(rows, hash, zero)
    decreases |events|
  {
    if events != [] {
      var init := events[..|events| - 1];
      RehashedIsValid(init, hash, zero);
      NextRowKeepsChain(Rehashed(init, hash, zero), events[|events| - 1], hash, zero);
    }
  }

  /** Every tenant's ledger is its own old events, rebuilt. */
  ghost predicate Rebuilt<D>(db: Tables<D>, oldRows: seq<Event>, done: set<string>, hash: Hash<D>, zero: D)
  {
    && db.rows.Keys == done && db.heads.Keys == done
    && forall t :: t in done ==>
         && db.rows[t] == Rehashed(OfTenant(oldRows, t), hash, zero)
         && db.heads[t] == Head(LastHash(db.rows[t], zero), |OfTenant(oldRows, t)|)
  }

  /** `grouped[str(row["tenant_id"])].append(dict(row))`. */
  method GroupByTenant(oldRows: seq<Event>) returns (grouped: map<string, seq<Event>>)
    ensures grouped.Keys == Tenants(oldRows)
    ensures forall t :: t in grouped ==> grouped[t] == OfTenant(oldRows, t)
  {
    grouped := map[];
    for i := 0 to |oldRows|
      invariant grouped.Keys == Tenants(oldRows[..i])
      invariant forall t :: t in grouped ==> grouped[t] == OfTenant(oldRows[..i], t)
    {
      OneMoreRow(oldRows, i);
      var row := oldRows[i];
      var before := if row.tenantId in grouped then grouped[row.tenantId] else [];
      grouped := grouped[row.tenantId := before + [row]];
    }
    assert oldRows[..|oldRows|] == oldRows;
  }

  ghost function Tenants(events: seq<Event>): set<string>
  {
    set e | e in events :: e.tenantId
  }

  lemma OneMoreRow(oldRows: seq<Event>, i: nat)
    requires i < |oldRows|
    ensures Tenants(oldRows[..i + 1]) == Tenants(oldRows[..i]) + {oldRows[i].tenantId}
    ensures forall t :: OfTenant(oldRows[..i + 1], t) == OfTenant(oldRows[..i], t) + if oldRows[i].tenantId == t then [oldRows[i]] else []
    ensures oldRows[i].tenantId !in Tenants(oldRows[..i]) ==> OfTenant(oldRows[..i], oldRows[i].tenantId) == []
  {
    assert oldRows[..i + 1][..i] == oldRows[..i];
    assert oldRows[..i + 1] == oldRows[..i] + [oldRows[i]];
    NoTenantNoEvents(oldRows[..i], oldRows[i].tenantId);
  }

  lemma TenantRebuilt<D>(db: Tables<D>, oldRows: seq<Event>, done: set<string>, t: string, rows: seq<Row<D>>, head: Head<D>,
                         hash: Hash<D>, zero: D)
    requires Rebuilt(db, oldRows, done, hash, zero) && rows == Rehashed(OfTenant(oldRows, t), hash, zero)
    requires head == Head(LastHash(rows, zero), |OfTenant(oldRows, t)|)
    ensures Rebuilt(Tables(db.rows[t := rows], db.heads[t := head]), oldRows, done + {t}, hash, zero)
  {
  }

  /** The audit part of the migration: group by tenant, then rebuild each chain and its head. */
  method MigrateAudit<D>(oldRows: seq<Event>, hash: Hash<D>, zero: D) returns (db: Tables<D>)
    ensures Rebuilt(db, oldRows, Tenants(oldRows), hash, zero)
    ensures Valid(db, hash, zero)
  {
    var grouped := GroupByTenant(oldRows);
    db := Tables(map[], map[]);
    var remaining := grouped.Keys;
    while remaining != {}
      invariant remaining <= grouped.Keys
      invariant Rebuilt(db, oldRows, grouped.Keys - remaining, hash, zero)
      decreases |remaining|
    {
      var t :| t in remaining;
      var rows, head := Rehash(grouped[t], hash, zero);
      TenantRebuilt(db, oldRows, grouped.Keys - remaining, t, rows, head, hash, zero);
      db := Tables(db.rows[t := rows], db.heads[t := head]);
      assert grouped.Keys - (remaining - {t}) == grouped.Keys - remaining + {t};
      remaining := remaining - {t};
    }
    RebuiltIsValid(db, oldRows, hash, zero);
  }

  lemma RebuiltIsValid<D>(db: Tables<D>, oldRows: seq<Event>, hash: Hash<D>, zero: D)
    requires Rebuilt(db, oldRows, Tenants(oldRows), hash, zero)
    ensures Valid(db, hash, zero)
  {
    forall t ensures ValidTenant(db, t, hash, zero) {
      if t in Tenants(oldRows) { TenantHasEvents(oldRows, t); }
      RehashedIsValid(OfTenant(oldRows, t), hash, zero);
    }
  }

  lemma {:induction false} TenantHasEvents(oldRows: seq<Event>, tenantId: string)
    requires exists e :: e in oldRows && e.tenantId == tenantId
    ensures OfTenant(oldRows, tenantId) != []
  {
    var e :| e in oldRows && e.tenantId == tenantId;
    if oldRows[|oldRows| - 1].tenantId != tenantId {
      assert e in oldRows[..|oldRows| - 1];
      TenantHasEvents(oldRows[..|oldRows| - 1], tenantId);
    }
  }

  /** After the migration each tenant verifies, its events are exactly its old events in order, and the next
      append extends that chain. */
  lemma {:induction false} MigratedLedgerExtends<D>(db: Tables<D>, oldRows: seq<Event>, hash: Hash<D>, zero: D, event: Event)
    requires Rebuilt(db, oldRows, Tenants(oldRows), hash, zero)
    ensures Valid(db, hash, zero) && AppendAlone(db, event, hash, zero).Some?
    ensures var after := AppendAlone(db, event, hash, zero).value;
      var earlier := OfTenant(oldRows, event.tenantId);
      var rows := Rows(after, event.tenantId);
      && ValidTenant(after, event.tenantId, hash, zero)
      && |rows| == |earlier| + 1 && rows[|earlier|].event == event
      && forall i :: 0 <= i < |earlier| ==> rows[i].event == earlier[i] && rows[i].sequence == i + 1
  {
    RebuiltIsValid(db, oldRows, hash, zero);
    AppendAloneSucceeds(db, event, hash, zero);
    RehashedIsValid(OfTenant(oldRows, event.tenantId), hash, zero);
    NoTenantNoEvents(oldRows, event.tenantId);
    var after := AppendAlone(db, event, hash, zero).value;
    assert ValidTenant(after, event.tenantId, hash, zero);
    forall i | 0 <= i < |OfTenant(oldRows, event.tenantId)| ensures Rows(after, event.tenantId)[i].sequence == i + 1 {
      assert Linked(Rows(after, event.tenantId), i, hash, zero);
    }
  }

  lemma {:induction false} NoTenantNoEvents(oldRows: seq<Event>, tenantId: string)
    ensures (forall e :: e in oldRows ==> e.tenantId != tenantId) ==> OfTenant(oldRows, tenantId) == []
  {
    if oldRows != [] {
      NoTenantNoEvents(oldRows[..|oldRows| - 1], tenantId);
      assert oldRows[|oldRows| - 1] in oldRows;
    }
  }
}
