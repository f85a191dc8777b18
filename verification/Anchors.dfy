/** The two external anchor stores of the audit ledger: an append-only file that is scanned, and a directory
    with one immutable, zero-padded file name per sequence. */
module Anchors {
  import opened Wrappers
  import opened Text
  import opened Sorting

  datatype Record<D> = Record(tenantId: string, sequence: nat, headHash: D)

  /* ---------- the file store ---------- */

  /** `SignedFileAuditAnchorStore.latest`: the scan keeps the first record with the greatest sequence. */
  function FileLatest<D>(records: seq<Record<D>>, tenantId: string): Option<Record<D>>
  {
    if records == [] then None
    else
      var before, r := FileLatest(records[..|records| - 1], tenantId), records[|records| - 1];
      if r.tenantId == tenantId && (before.None? || r.sequence > before.value.sequence) then Some(r) else before
  }

  method ScanFile<D>(records: seq<Record<D>>, tenantId: string) returns (latest: Option<Record<D>>)
    ensures latest == FileLatest(records, tenantId)
  {
    latest := None;
    for i := 0 to |records|
      invariant latest == FileLatest(records[..i], tenantId)
    {
      assert records[..i + 1][..i] == records[..i];
      if records[i].tenantId == tenantId && (latest.None? || records[i].sequence > latest.value.sequence) {
        latest := Some(records[i]);
      }
    }
    assert records[..|records|] == records;
  }

  /** The scan returns a record of the tenant with the greatest sequence, and nothing only if there is none. */
  lemma {:induction false} FileLatestIsGreatest<D>(records: seq<Record<D>>, tenantId: string)
    ensures match FileLatest(records, tenantId)
      case None => forall r :: r in records ==> r.tenantId != tenantId
      case Some(top) =>
        top in records && top.tenantId == tenantId &&
        forall r :: r in records && r.tenantId == tenantId ==> r.sequence <= top.sequence
  {
    if records != [] {
      var init := records[..|records| - 1];
      FileLatestIsGreatest(init, tenantId);
      assert forall r :: r in records <==> r in init || r == records[|records| - 1];
    }
  }

  /** Of several records with the greatest sequence it is the first. */
  lemma {:induction false} FileLatestIsFirst<D>(records: seq<Record<D>>, tenantId: string) returns (k: nat)
    requires FileLatest(records, tenantId).Some?
    ensures k < |records| && records[k] == FileLatest(records, tenantId).value
    ensures forall i :: 0 <= i < k && records[i].tenantId == tenantId ==> records[i].sequence < records[k].sequence
  {
    var last := |records| - 1;
    FileLatestIsGreatest(records[..last], tenantId);
    if FileLatest(records, tenantId) == FileLatest(records[..last], tenantId) {
      k := FileLatestIsFirst(records[..last], tenantId);
      assert forall i :: 0 <= i < k ==> records[..last][i] == records[i];
    } else {
      k := last;
      assert forall i :: 0 <= i < last ==> records[i] in records[..last];
    }
  }

  /* ---------- zero-padded names ---------- */

  const WIDTH: nat := 20
  const LIMIT: nat := 100_000_000_000_000_000_000

  function Zeros(n: nat): string
  {
    if n == 0 then "" else "0" + Zeros(n - 1)
  }

  /** `f"{sequence:020d}"`. */
  function Padded(n: nat): string
  {
    var digits := Decimal(n);
    if |digits| >= WIDTH then digits else Zeros(WIDTH - |digits|) + digits
  }

  /** The last k decimal digits. */
  function Digits(n: nat, k: nat): (s: string)
    ensures |s| == k
  {
    if k == 0 then "" else Digits(n / 10, k - 1) + [DigitChar(n % 10)]
  }

  function Power10(k: nat): nat
  {
    if k == 0 then 1 else 10 * Power10(k - 1)
  }

  lemma {:induction false} DigitsOfZero(k: nat)
    ensures Digits(0, k) == Zeros(k)
  {
    if k > 0 {
      DigitsOfZero(k - 1);
      ZerosEnd(k - 1);
    }
  }

  lemma {:induction false} ZerosEnd(k: nat)
    ensures Zeros(k) + "0" == "0" + Zeros(k)
  {
    if k > 0 {
      ZerosEnd(k - 1);
      assert Zeros(k) + "0" == "0" + (Zeros(k - 1) + "0");
    }
  }

  lemma {:induction false} DigitsArePadded(n: nat, k: nat)
    requires k >= 1 && n < Power10(k)
    ensures |Decimal(n)| <= k && Digits(n, k) == Zeros(k - |Decimal(n)|) + Decimal(n)
  {
    if n < 10 {
      DigitsOfZero(k - 1);
    } else {
      assert k >= 2 by { assert Power10(1) == 10 * Power10(0); }
      DigitsArePadded(n / 10, k - 1);
      var z := Zeros(k - |Decimal(n)|);
      assert (z + Decimal(n / 10)) + [DigitChar(n % 10)] == z + (Decimal(n / 10) + [DigitChar(n % 10)]);
    }
  }

  lemma PaddedIsDigits(n: nat)
    requires n < LIMIT
    ensures Padded(n) == Digits(n, WIDTH)
  {
    assert Power10(WIDTH) == LIMIT by {
      assert Power10(5) == 100_000;
      assert Power10(10) == 10_000_000_000;
      assert Power10(15) == 1_000_000_000_000_000;
    }
    DigitsArePadded(n, WIDTH);
    if |Decimal(n)| == WIDTH {
      assert Zeros(0) + Decimal(n) == Decimal(n);
    }
  }

  lemma {:induction false} LessLast(a: string, b: string, c: char, d: char)
    requires |a| == |b|
    ensures Less(a + [c], b + [d]) <==> Less(a, b) || (a == b && c < d)
  {
    if a == [] {
      assert [c][1..] == [] && [d][1..] == [];
      assert a + [c] == [c] && b + [d] == [d];
    } else {
      LessLast(a[1..], b[1..], c, d);
      assert (a + [c])[1..] == a[1..] + [c] && (b + [d])[1..] == b[1..] + [d];
      if a[0] == b[0] {
        assert a == b <==> a[1..] == b[1..] by {
          assert a == [a[0]] + a[1..] && b == [b[0]] + b[1..];
        }
      }
    }
  }

  lemma {:induction false} DigitsOrder(a: nat, b: nat, k: nat)
    requires a < Power10(k) && b < Power10(k)
    ensures Less(Digits(a, k), Digits(b, k)) <==> a < b
    ensures Digits(a, k) == Digits(b, k) <==> a == b
  {
    if k > 0 {
      DigitsOrder(a / 10, b / 10, k - 1);
      LessLast(Digits(a / 10, k - 1), Digits(b / 10, k - 1), DigitChar(a % 10), DigitChar(b % 10));
      var x, y := Digits(a / 10, k - 1) + [DigitChar(a % 10)], Digits(b / 10, k - 1) + [DigitChar(b % 10)];
      assert x[..k - 1] == Digits(a / 10, k - 1) && y[..k - 1] == Digits(b / 10, k - 1);
      assert x[k - 1] == DigitChar(a % 10) && y[k - 1] == DigitChar(b % 10);
    }
  }

  /** Sequence numbers that fit twenty digits sort by name as they sort by number. */
  lemma PaddedOrder(a: nat, b: nat)
    requires a < LIMIT && b < LIMIT
    ensures |Padded(a)| == WIDTH
    ensures Less(Padded(a), Padded(b)) <==> a < b
    ensures Padded(a) == Padded(b) <==> a == b
  {
    PaddedIsDigits(a);
    PaddedIsDigits(b);
    assert Power10(WIDTH) == LIMIT by {
      assert Power10(5) == 100_000;
      assert Power10(10) == 10_000_000_000;
      assert Power10(15) == 1_000_000_000_000_000;
    }
    DigitsOrder(a, b, WIDTH);
  }

  lemma {:induction false} LessAfterPrefix(p: string, x: string, y: string)
    ensures Less(p + x, p + y) <==> Less(x, y)
  {
    if p == [] {
      assert p + x == x && p + y == y;
    } else {
      LessAfterPrefix(p[1..], x, y);
      assert (p + x)[1..] == p[1..] + x && (p + y)[1..] == p[1..] + y;
    }
  }

  lemma {:induction false} LessBeforeSuffix(x: string, y: string, s: string)
    requires |x| == |y| && x != y
    ensures Less(x + s, y + s) <==> Less(x, y)
  {
    if x[0] == y[0] {
      assert x == [x[0]] + x[1..] && y == [y[0]] + y[1..];
      LessBeforeSuffix(x[1..], y[1..], s);
      assert (x + s)[1..] == x[1..] + s && (y + s)[1..] == y[1..] + s;
    }
  }

  /* ---------- the directory store ---------- */

  /** `_tenant_key`: a fixed-width digest of the tenant id. */
  type TenantKey = string -> string

  /** A hexadecimal SHA-256 digest has 64 characters. */
  ghost predicate FixedWidth(key: TenantKey)
  {
    forall t :: |key(t)| == 64
  }

  type Files<D> = map<string, Record<D>>

  const SUFFIX: string := ".json"

  function Prefix(key: TenantKey, tenantId: string): string
  {
    key(tenantId) + "-"
  }

  /** `_record_path`. */
  function FileName(key: TenantKey, tenantId: string, sequence: nat): string
  {
    Prefix(key, tenantId) + Padded(sequence) + SUFFIX
  }

  /** What exclusive creation leaves in the directory; None where a conflicting record makes it raise. */
  function Stored<D(==)>(key: TenantKey, files: Files<D>, r: Record<D>): Option<Files<D>>
  {
    var name := FileName(key, r.tenantId, r.sequence);
    if name !in files then Some(files[name := r])
    else if files[name] == r then Some(files)
    else None
  }

  /** The names `glob` lists for a tenant. */
  function Candidates<D>(key: TenantKey, files: Files<D>, tenantId: string): set<string>
  {
    set name | name in files && Prefix(key, tenantId) <= name
  }

  /** The record under the greatest listed name that belongs to the tenant. */
  ghost predicate GreatestName<D>(key: TenantKey, files: Files<D>, tenantId: string, latest: Option<Record<D>>)
  {
    match latest
    case None => forall name :: name in Candidates(key, files, tenantId) ==> files[name].tenantId != tenantId
    case Some(r) =>
      r.tenantId == tenantId &&
      exists name :: name in Candidates(key, files, tenantId) && files[name] == r && Topmost(key, files, tenantId, name)
  }

  ghost predicate Topmost<D>(key: TenantKey, files: Files<D>, tenantId: string, name: string)
  {
    forall other :: other in Candidates(key, files, tenantId) && files[other].tenantId == tenantId ==>
      other == name || Less(other, name)
  }

  class AnchorDirectory<D(==)> {
    const key: TenantKey
    var files: Files<D>

    constructor (key: TenantKey)
      ensures this.key == key && files == map[]
    {
      this.key := key;
      files := map[];
    }

    /** `append`: a written anchor is never replaced. */
    method Append(r: Record<D>) returns (ok: bool)
      modifies this
      ensures ok <==> Stored(key, old(files), r).Some?
      ensures files == if ok then Stored(key, old(files), r).value else old(files)
      ensures forall name :: name in old(files) ==> name in files && files[name] == old(files)[name]
    {
      var name := FileName(key, r.tenantId, r.sequence);
      if name in files {
        return files[name] == r;
      }
      files := files[name := r];
      return true;
    }

    /** `latest`: candidate names in descending order, up to the first record of the tenant. */
    method Latest(tenantId: string) returns (latest: Option<Record<D>>)
      ensures GreatestName(key, files, tenantId, latest)
    {
      var names := Sorted(Candidates(key, files, tenantId));
      var i := |names|;
      assert forall j :: 0 <= j < |names| ==> names[j] in names;
      while i > 0
        invariant 0 <= i <= |names|
        invariant forall j :: i <= j < |names| ==> names[j] in files && files[names[j]].tenantId != tenantId
      {
        i := i - 1;
        var name := names[i];
        assert name in names;
        if files[name].tenantId == tenantId {
          forall other | other in Candidates(key, files, tenantId) && files[other].tenantId == tenantId
            ensures other == name || Less(other, name)
          {
            assert other in names;
            var j :| 0 <= j < |names| && names[j] == other;
          }
          return Some(files[name]);
        }
      }
      forall name | name in Candidates(key, files, tenantId) ensures files[name].tenantId != tenantId {
        assert name in names;
      }
      return None;
    }
  }

  /* ---------- both stores fed the same anchors ---------- */

  /** Every record's file after a list of appends. */
  function Deliver<D(==)>(key: TenantKey, records: seq<Record<D>>): Option<Files<D>>
  {
    if records == [] then Some(map[])
    else
      match Deliver(key, records[..|records| - 1])
      case None => None
      case Some(files) => Stored(key, files, records[|records| - 1])
  }

  /** Anchors that agree wherever they name the same tenant and sequence, in the range of stored integers. */
  predicate Consistent<D(==)>(records: seq<Record<D>>)
  {
    && InRange(records)
    && forall r, q :: r in records && q in records && r.tenantId == q.tenantId && r.sequence == q.sequence ==> r == q
  }

  predicate InRange<D(==)>(records: seq<Record<D>>)
  {
    forall r :: r in records ==> r.sequence < LIMIT
  }

  /** No two different records want the same file. */
  predicate FilesApart<D(==)>(key: TenantKey, records: seq<Record<D>>)
  {
    forall r, q :: r in records && q in records && key(r.tenantId) == key(q.tenantId) && r.sequence == q.sequence ==> r == q
  }

  function TenantsOf<D(==)>(records: seq<Record<D>>): set<string>
  {
    set r | r in records :: r.tenantId
  }

  /** The digests of these tenants do not collide. */
  predicate KeysApart(key: TenantKey, tenants: set<string>)
  {
    forall s, t :: s in tenants && t in tenants && key(s) == key(t) ==> s == t
  }

  /** Among tenants whose digests differ, non-conflicting anchors never want the same file. */
  lemma ConsistentFilesApart<D>(key: TenantKey, records: seq<Record<D>>)
    requires Consistent(records) && KeysApart(key, TenantsOf(records))
    ensures FilesApart(key, records)
  {
    forall r, q | r in records && q in records && key(r.tenantId) == key(q.tenantId) && r.sequence == q.sequence
      ensures r == q
    {
      assert r.tenantId in TenantsOf(records) && q.tenantId in TenantsOf(records);
    }
  }

  /* ---------- file names ---------- */

  /** The parts of a file name sit at fixed places. */
  lemma NameSlices(key: TenantKey, r: string, m: nat)
    requires FixedWidth(key) && m < LIMIT
    ensures |Padded(m)| == WIDTH && |FileName(key, r, m)| == 90
    ensures FileName(key, r, m)[..64] == key(r) && FileName(key, r, m)[..65] == Prefix(key, r)
    ensures FileName(key, r, m)[65..85] == Padded(m)
  {
    PaddedIsDigits(m);
    var a := FileName(key, r, m);
    assert a == key(r) + ("-" + Padded(m) + SUFFIX) && a == Prefix(key, r) + (Padded(m) + SUFFIX);
  }

  lemma SameName(key: TenantKey, r: string, m: nat, t: string, n: nat)
    requires FixedWidth(key) && m < LIMIT && n < LIMIT
    ensures FileName(key, r, m) == FileName(key, t, n) <==> key(r) == key(t) && m == n
  {
    NameSlices(key, r, m);
    NameSlices(key, t, n);
    PaddedOrder(m, n);
    PaddedOrder(n, m);
  }

  /** Within one tenant, names sort as the sequence numbers do. */
  lemma NameOrder(key: TenantKey, t: string, m: nat, n: nat)
    requires FixedWidth(key) && m < LIMIT && n < LIMIT
    ensures Less(FileName(key, t, m), FileName(key, t, n)) <==> m < n
  {
    PaddedOrder(m, n);
    NameTail(key, t, m, n);
    if m != n {
      NameSlices(key, t, m);
      NameSlices(key, t, n);
      LessBeforeSuffix(Padded(m), Padded(n), SUFFIX);
    } else {
      LessTotal(FileName(key, t, m), FileName(key, t, n));
    }
  }

  lemma NameTail(key: TenantKey, t: string, m: nat, n: nat)
    ensures Less(FileName(key, t, m), FileName(key, t, n)) <==> Less(Padded(m) + SUFFIX, Padded(n) + SUFFIX)
  {
    LessAfterPrefix(Prefix(key, t), Padded(m) + SUFFIX, Padded(n) + SUFFIX);
    assert FileName(key, t, m) == Prefix(key, t) + (Padded(m) + SUFFIX);
    assert FileName(key, t, n) == Prefix(key, t) + (Padded(n) + SUFFIX);
  }

  /* ---------- what was delivered ---------- */

  /** The directory holds exactly the delivered records, each under its own name. */
  ghost predicate Holds<D>(key: TenantKey, files: Files<D>, records: seq<Record<D>>)
  {
    && (forall r :: r in records ==>
          FileName(key, r.tenantId, r.sequence) in files && files[FileName(key, r.tenantId, r.sequence)] == r)
    && forall name :: name in files ==> files[name] in records && name == FileName(key, files[name].tenantId, files[name].sequence)
  }

  /** The directory takes every record exactly when no two of them want the same file. */
  lemma {:induction false} DeliveredRecords<D>(key: TenantKey, records: seq<Record<D>>)
    requires FixedWidth(key) && InRange(records)
    ensures Deliver(key, records).Some? <==> FilesApart(key, records)
    ensures Deliver(key, records).Some? ==> Holds(key, Deliver(key, records).value, records)
  {
    if records != [] {
      var init, r := records[..|records| - 1], records[|records| - 1];
      assert forall q :: q in records <==> q in init || q == r;
      DeliveredRecords(key, init);
      if Deliver(key, init).Some? {
        OneMoreDelivered(key, Deliver(key, init).value, init, r, records);
      }
    }
  }

  lemma OneMoreDelivered<D>(key: TenantKey, files: Files<D>, init: seq<Record<D>>, r: Record<D>, records: seq<Record<D>>)
    requires FixedWidth(key) && InRange(records) && FilesApart(key, init) && Holds(key, files, init)
    requires forall q :: q in records <==> q in init || q == r
    ensures Stored(key, files, r).Some? <==> FilesApart(key, records)
    ensures Stored(key, files, r).Some? ==> Holds(key, Stored(key, files, r).value, records)
  {
    var name := FileName(key, r.tenantId, r.sequence);
    forall q | q in init
      ensures FileName(key, q.tenantId, q.sequence) == name <==> key(q.tenantId) == key(r.tenantId) && q.sequence == r.sequence
    {
      SameName(key, q.tenantId, q.sequence, r.tenantId, r.sequence);
    }
    if name in files {
      assert files[name] in init;
    }
  }

  /** A record of the tenant that was delivered is listed under its own name. */
  lemma DeliveredIsListed<D>(key: TenantKey, files: Files<D>, records: seq<Record<D>>, r: Record<D>)
    requires FixedWidth(key) && InRange(records) && Holds(key, files, records) && r in records
    ensures var name := FileName(key, r.tenantId, r.sequence);
      name in Candidates(key, files, r.tenantId) && files[name] == r
  {
    NameSlices(key, r.tenantId, r.sequence);
  }

  lemma TopmostIsGreatest<D>(key: TenantKey, files: Files<D>, records: seq<Record<D>>, tenantId: string, name: string, top: Record<D>)
    requires FixedWidth(key) && InRange(records) && Holds(key, files, records)
    requires name in Candidates(key, files, tenantId) && files[name].tenantId == tenantId && Topmost(key, files, tenantId, name)
    requires top in records && top.tenantId == tenantId && forall r :: r in records && r.tenantId == tenantId ==> r.sequence <= top.sequence
    ensures files[name] == top
  {
    DeliveredIsListed(key, files, records, top);
    NameOrder(key, tenantId, files[name].sequence, top.sequence);
    NameOrder(key, tenantId, top.sequence, files[name].sequence);
    LessTotal(name, FileName(key, tenantId, top.sequence));
  }

  /** Fed the same anchors in any order and with any repeats, the directory takes them all exactly when no two
      of them want the same file, and then its name-sorted answer and the file's scan are the same record, or
      both nothing. */
  lemma {:induction false} StoresAgree<D>(key: TenantKey, records: seq<Record<D>>, tenantId: string, latest: Option<Record<D>>)
    requires FixedWidth(key) && InRange(records)
    ensures Deliver(key, records).Some? <==> FilesApart(key, records)
    ensures Deliver(key, records).Some? ==>
      (GreatestName(key, Deliver(key, records).value, tenantId, latest) <==> latest == FileLatest(records, tenantId))
  {
    DeliveredRecords(key, records);
    if Deliver(key, records).Some? {
      LatestAgrees(key, Deliver(key, records).value, records, tenantId, latest);
    }
  }

  lemma LatestAgrees<D>(key: TenantKey, files: Files<D>, records: seq<Record<D>>, tenantId: string, latest: Option<Record<D>>)
    requires FixedWidth(key) && InRange(records) && Holds(key, files, records)
    ensures GreatestName(key, files, tenantId, latest) <==> latest == FileLatest(records, tenantId)
  {
    FileLatestIsGreatest(records, tenantId);
    match FileLatest(records, tenantId)
    case None =>
    case Some(top) =>
      DeliveredIsListed(key, files, records, top);
      GreatestIsTopmost(key, files, records, tenantId, top);
      if GreatestName(key, files, tenantId, latest) && latest.Some? {
        var name :| name in Candidates(key, files, tenantId) && files[name] == latest.value && Topmost(key, files, tenantId, name);
        TopmostIsGreatest(key, files, records, tenantId, name, top);
      }
  }

  lemma GreatestIsTopmost<D>(key: TenantKey, files: Files<D>, records: seq<Record<D>>, tenantId: string, top: Record<D>)
    requires FixedWidth(key) && InRange(records) && Holds(key, files, records)
    requires top in records && top.tenantId == tenantId && forall r :: r in records && r.tenantId == tenantId ==> r.sequence <= top.sequence
    ensures Topmost(key, files, tenantId, FileName(key, tenantId, top.sequence))
  {
    forall other | other in Candidates(key, files, tenantId) && files[other].tenantId == tenantId
      ensures other == FileName(key, tenantId, top.sequence) || Less(other, FileName(key, tenantId, top.sequence))
    {
      NameAtMost(key, tenantId, files[other].sequence, top.sequence);
    }
  }

  lemma NameAtMost(key: TenantKey, t: string, m: nat, n: nat)
    requires FixedWidth(key) && m <= n < LIMIT
    ensures FileName(key, t, m) == FileName(key, t, n) || Less(FileName(key, t, m), FileName(key, t, n))
  {
    NameOrder(key, t, m, n);
  }

  /* ---------- such key functions exist ---------- */

  function IndexOf(tenants: seq<string>, t: string): (i: nat)
    ensures i <= |tenants|
    ensures i < |tenants| ==> tenants[i] == t
    ensures t in tenants ==> i < |tenants|
  {
    if tenants == [] then 0 else if tenants[0] == t then 0 else 1 + IndexOf(tenants[1..], t)
  }

  function Numbered(tenants: seq<string>): TenantKey
  {
    t => Zeros(44) + Padded(IndexOf(tenants, t))
  }

  lemma {:induction false} ZerosSize(n: nat)
    ensures |Zeros(n)| == n
  {
    if n > 0 { ZerosSize(n - 1); }
  }

  lemma NumberedKeys(tenants: seq<string>)
    requires |tenants| < LIMIT
    ensures FixedWidth(Numbered(tenants))
    ensures KeysApart(Numbered(tenants), set t | t in tenants)
  {
    var key := Numbered(tenants);
    ZerosSize(44);
    forall t ensures |key(t)| == 64 {
      PaddedIsDigits(IndexOf(tenants, t));
    }
    forall s, t | s in tenants && t in tenants && key(s) == key(t) ensures s == t {
      var i, j := IndexOf(tenants, s), IndexOf(tenants, t);
      assert key(s)[44..] == Padded(i) && key(t)[44..] == Padded(j);
      PaddedOrder(i, j);
      PaddedOrder(j, i);
    }
  }

  /** The tenants of any list of anchors can be told apart by keys of 64 characters. */
  lemma KeysExist<D>(records: seq<Record<D>>)
    requires |records| < LIMIT
    ensures exists key :: FixedWidth(key) && KeysApart(key, TenantsOf(records))
  {
    var tenants := seq(|records|, i requires 0 <= i < |records| => records[i].tenantId);
    NumberedKeys(tenants);
    assert TenantsOf(records) <= set t | t in tenants by {
      forall t | t in TenantsOf(records) ensures t in tenants {
        var r :| r in records && r.tenantId == t;
        var i :| 0 <= i < |records| && records[i] == r;
        assert tenants[i] == t;
      }
    }
    assert FixedWidth(Numbered(tenants)) && KeysApart(Numbered(tenants), TenantsOf(records));
  }
}
