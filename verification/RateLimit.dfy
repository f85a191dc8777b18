/** The database-backed token bucket and its sweep of stale buckets.
    Source: src/difoundry/production/rate_limit.py:12-67. */
module RateLimit {
  import opened Reals
  import opened Wrappers

  datatype Bucket = Bucket(tokens: real, updatedAt: real)

  type Buckets = map<string, Bucket>

  type Verdict = (bool, int)

  /** Python's int(): truncation towards zero. */
  function Truncate(x: real): int
  {
    if x >= 0.0 then x.Floor else -((-x).Floor)
  }

  /** A capacity and how many tokens a span of seconds brings back. */
  datatype Limit = Limit(capacity: real, accrue: real -> real)

  /** Tokens refilled in a span of seconds, at the constant rate that brings the capacity back in a minute. */
  function Refill(capacity: real, seconds: real): real
  {
    seconds * (capacity / 60.0)
  }

  /** The limiter's own limit. */
  function PerMinute(capacity: real): Limit
  {
    Limit(capacity, seconds => Refill(capacity, seconds))
  }

  function Available(limit: Limit, bucket: Bucket, now: real): real
  {
    Min(limit.capacity, bucket.tokens + limit.accrue(Max(0.0, now - bucket.updatedAt)))
  }

  /** One transaction on one bucket: its new content (None: no row) and verdict. */
  function Draw(limit: Limit, bucket: Option<Bucket>, cost: real, now: real): (Option<Bucket>, Verdict)
  {
    match bucket
    case None =>
      if limit.capacity - cost < 0.0 then (None, (false, 0))
      else (Some(Bucket(limit.capacity - cost, now)), (true, Truncate(limit.capacity - cost)))
    case Some(b) =>
      var available := Available(limit, b, now);
      var allowed := available >= cost;
      var remaining := if allowed then available - cost else available;
      (Some(Bucket(remaining, now)), (allowed, if Truncate(remaining) < 0 then 0 else Truncate(remaining)))
  }

  function At(buckets: Buckets, key: string): Option<Bucket>
  {
    if key in buckets then Some(buckets[key]) else None
  }

  function Transact(limit: Limit, buckets: Buckets, key: string, cost: real, now: real): Buckets
  {
    match Draw(limit, At(buckets, key), cost, now).0
    case None => buckets
    case Some(b) => buckets[key := b]
  }

  function Swept(buckets: Buckets, cutoff: real): Buckets
  {
    map key | key in buckets && buckets[key].updatedAt >= cutoff :: buckets[key]
  }

  class SqlRateLimiter {
    const capacity: real
    var buckets: Buckets
    var operations: nat

    constructor (limitPerMinute: int)
      requires limitPerMinute >= 1
      ensures capacity == limitPerMinute as real && buckets == map[] && operations == 0
    {
      capacity := limitPerMinute as real;
      buckets := map[];
      operations := 0;
    }

    method ConsumeTransaction(key: string, cost: real, now: real) returns (allowed: bool, left: int)
      modifies `buckets
      ensures buckets == Transact(PerMinute(capacity), old(buckets), key, cost, now)
      ensures (allowed, left) == Draw(PerMinute(capacity), At(old(buckets), key), cost, now).1
    {
      if key !in buckets {
        var remaining := capacity - cost;
        if remaining < 0.0 {
          return false, 0;
        }
        buckets := buckets[key := Bucket(remaining, now)];
        return true, Truncate(remaining);
      }
      var row := buckets[key];
      var available := Available(PerMinute(capacity), row, now);
      allowed := available >= cost;
      var remaining := if allowed then available - cost else available;
      buckets := buckets[key := Bucket(remaining, now)];
      left := if Truncate(remaining) < 0 then 0 else Truncate(remaining);
    }

    method Sweep(now: real, olderThan: real) returns (removed: nat)
      modifies `buckets
      ensures buckets == Swept(old(buckets), now - olderThan)
      ensures removed == |old(buckets)| - |buckets|
    {
      var fewer := Swept(buckets, now - olderThan);
      assert fewer.Keys <= buckets.Keys;
      assert buckets.Keys == fewer.Keys + (buckets.Keys - fewer.Keys);
      assert |buckets.Keys| == |fewer.Keys| + |buckets.Keys - fewer.Keys|;
      removed := |buckets| - |fewer|;
      buckets := fewer;
    }

    /** Every thousandth call sweeps first; the two steps read the clock separately. */
    method Consume(key: string, cost: real, sweepClock: real, clock: real) returns (allowed: bool, left: int)
      modifies this
      ensures operations == old(operations) + 1
      ensures var before := if operations % 1000 == 0 then Swept(old(buckets), sweepClock - 3600.0) else old(buckets);
              buckets == Transact(PerMinute(capacity), before, key, cost, clock)
              && (allowed, left) == Draw(PerMinute(capacity), At(before, key), cost, clock).1
    {
      operations := operations + 1;
      if operations % 1000 == 0 {
        var _ := Sweep(sweepClock, 3600.0);
      }
      allowed, left := ConsumeTransaction(key, cost, clock);
    }
  }

  /* ---------- one call and one sweep ---------- */

  /** What a bucket holds when it is drawn from: a full one if there is none, and otherwise what it held plus a sixtieth of
      the capacity for every second since, never more than the capacity. A clock set back adds nothing. */
  ghost predicate HoldsNow(capacity: real, bucket: Option<Bucket>, now: real, tokens: real)
  {
    match bucket
    case None => tokens == capacity
    case Some(b) =>
      var elapsed := if now > b.updatedAt then now - b.updatedAt else 0.0;
      var refilled := b.tokens + elapsed * (capacity / 60.0);
      if refilled <= capacity then tokens == refilled else tokens == capacity
  }

  /** The whole tokens in an amount, as int() counts them. */
  predicate WholePart(x: real, n: int)
  {
    if x >= 0.0 then n as real <= x < n as real + 1.0 else n as real - 1.0 < x <= n as real
  }

  /** A call is granted if and only if the bucket holds its cost; it then takes exactly that and otherwise nothing, and
      the bucket is dated. The number reported is the whole tokens left, never less than 0; only a refused call on a
      missing bucket leaves no bucket and reports 0. */
  lemma DrawMeans(capacity: real, bucket: Option<Bucket>, cost: real, now: real, tokens: real)
    requires HoldsNow(capacity, bucket, now, tokens)
    ensures var (after, verdict) := Draw(PerMinute(capacity), bucket, cost, now);
            var left := if cost <= tokens then tokens - cost else tokens;
            && (verdict.0 <==> cost <= tokens)
            && (after.None? <==> bucket.None? && cost > tokens)
            && (after.Some? ==> after.value == Bucket(left, now))
            && (after.None? ==> verdict.1 == 0)
            && (after.Some? && left >= 0.0 ==> verdict.1 >= 0 && WholePart(left, verdict.1))
            && (after.Some? && left < 0.0 ==> verdict.1 == 0)
  {
    var left := if cost <= tokens then tokens - cost else tokens;
    TruncateMeans(left);
    if bucket.Some? {
      AvailableMeans(capacity, bucket.value, now, tokens);
    }
  }

  lemma TruncateMeans(x: real)
    ensures x >= 0.0 ==> Truncate(x) >= 0 && WholePart(x, Truncate(x))
    ensures x < 0.0 ==> Truncate(x) <= 0
  {
  }

  lemma AvailableMeans(capacity: real, bucket: Bucket, now: real, tokens: real)
    requires HoldsNow(capacity, Some(bucket), now, tokens)
    ensures Available(PerMinute(capacity), bucket, now) == tokens
  {
    assert Max(0.0, now - bucket.updatedAt) == if now > bucket.updatedAt then now - bucket.updatedAt else 0.0;
  }

  /** A sweep keeps exactly the buckets dated at or after the cutoff, as they are. */
  lemma SweepMeans(buckets: Buckets, cutoff: real, key: string)
    ensures key in Swept(buckets, cutoff) <==> key in buckets && !(buckets[key].updatedAt < cutoff)
    ensures key in Swept(buckets, cutoff) ==> Swept(buckets, cutoff)[key] == buckets[key]
  {
  }

  /* ---------- runs ---------- */

  datatype Event = Call(key: string, cost: real, now: real) | Sweeping(now: real, olderThan: real)

  function Step(limit: Limit, buckets: Buckets, e: Event): Buckets
  {
    match e
    case Call(key, cost, now) => Transact(limit, buckets, key, cost, now)
    case Sweeping(now, olderThan) => Swept(buckets, now - olderThan)
  }

  function Run(limit: Limit, buckets: Buckets, events: seq<Event>): Buckets
    decreases |events|
  {
    if events == [] then buckets else Run(limit, Step(limit, buckets, events[0]), events[1..])
  }

  /** The verdicts of a run's calls, in order. */
  function Verdicts(limit: Limit, buckets: Buckets, events: seq<Event>): seq<Verdict>
    decreases |events|
  {
    if events == [] then []
    else
      var rest := Verdicts(limit, Step(limit, buckets, events[0]), events[1..]);
      if events[0].Call? then [Draw(limit, At(buckets, events[0].key), events[0].cost, events[0].now).1] + rest else rest
  }

  function WithoutSweeps(events: seq<Event>): seq<Event>
  {
    if events == [] then []
    else if events[0].Call? then [events[0]] + WithoutSweeps(events[1..])
    else WithoutSweeps(events[1..])
  }

  /** What the proofs use of a limit: at least one token fits, and waiting brings tokens additively, the whole
      capacity within a minute. */
  ghost predicate Sound(limit: Limit) {
    && limit.capacity >= 1.0
    && limit.accrue(60.0) >= limit.capacity
    && (forall t: real :: t >= 0.0 ==> limit.accrue(t) >= 0.0)
    && (forall t: real, u: real :: limit.accrue(t) + limit.accrue(u) == limit.accrue(t + u))
  }

  lemma PerMinuteSound(capacity: real)
    requires capacity >= 1.0
    ensures Sound(PerMinute(capacity))
  {
    forall t: real, u: real ensures PerMinute(capacity).accrue(t) + PerMinute(capacity).accrue(u) == PerMinute(capacity).accrue(t + u) {
      Distribute(t, u, capacity / 60.0);
    }
    forall t: real | t >= 0.0 ensures PerMinute(capacity).accrue(t) >= 0.0 {
      ProductNonNegative(t, capacity / 60.0);
    }
  }

  /* ---------- the token bound ---------- */

  function Allowed(limit: Limit, buckets: Buckets, e: Event): bool
    requires e.Call?
  {
    Draw(limit, At(buckets, e.key), e.cost, e.now).1.0
  }

  /** Cost granted to a key over a run. */
  function Granted(limit: Limit, buckets: Buckets, calls: seq<Event>, key: string): real
    decreases |calls|
  {
    if calls == [] then 0.0
    else
      var e := calls[0];
      Spent(limit, buckets, e, key) + Granted(limit, Step(limit, buckets, e), calls[1..], key)
  }

  /** The forward clock steps the key's bucket saw, one per call. */
  function Waits(limit: Limit, buckets: Buckets, calls: seq<Event>, key: string): seq<real>
    decreases |calls|
  {
    if calls == [] then []
    else
      var rest := Waits(limit, Step(limit, buckets, calls[0]), calls[1..], key);
      match Waited(buckets, calls[0], key) case None => rest case Some(w) => [w] + rest
  }

  function Sum(xs: seq<real>): real
  {
    if xs == [] then 0.0 else xs[0] + Sum(xs[1..])
  }

  function Forward(limit: Limit, buckets: Buckets, calls: seq<Event>, key: string): real
  {
    Sum(Waits(limit, buckets, calls, key))
  }

  /** Tokens a key could still draw on: a key without a row starts full. */
  function Level(limit: Limit, buckets: Buckets, key: string): real
  {
    if key in buckets then buckets[key].tokens else limit.capacity
  }

  ghost predicate NoSweeps(events: seq<Event>) {
    forall i :: 0 <= i < |events| ==> events[i].Call?
  }

  function Spent(limit: Limit, buckets: Buckets, e: Event, key: string): real
  {
    if e.Call? && e.key == key && Allowed(limit, buckets, e) then e.cost else 0.0
  }

  function Waited(buckets: Buckets, e: Event, key: string): Option<real>
  {
    if e.Call? && e.key == key && key in buckets then Some(Max(0.0, e.now - buckets[key].updatedAt)) else None
  }

  /** Tokens those steps brought, step by step. */
  function Refilled(limit: Limit, waits: seq<real>): real
  {
    if waits == [] then 0.0 else limit.accrue(waits[0]) + Refilled(limit, waits[1..])
  }

  lemma {:induction false} GrantedStepwise(limit: Limit, buckets: Buckets, calls: seq<Event>, key: string)
    requires NoSweeps(calls)
    ensures Granted(limit, buckets, calls, key) + Level(limit, Run(limit, buckets, calls), key)
         <= Level(limit, buckets, key) + Refilled(limit, Waits(limit, buckets, calls, key))
    decreases |calls|
  {
    if calls != [] {
      GrantedStepwise(limit, Step(limit, buckets, calls[0]), calls[1..], key);
      WaitsHead(limit, buckets, calls, key);
    }
  }

  lemma WaitsHead(limit: Limit, buckets: Buckets, calls: seq<Event>, key: string)
    requires calls != []
    ensures var waits, rest := Waits(limit, buckets, calls, key), Waits(limit, Step(limit, buckets, calls[0]), calls[1..], key);
            match Waited(buckets, calls[0], key)
            case None => waits == rest
            case Some(w) => waits != [] && waits[0] == w && waits[1..] == rest
  {
  }

  lemma {:induction false} RefilledIsLinear(capacity: real, waits: seq<real>)
    ensures Refilled(PerMinute(capacity), waits) == Refill(capacity, Sum(waits))
  {
    if waits != [] {
      RefilledIsLinear(capacity, waits[1..]);
      Distribute(waits[0], Sum(waits[1..]), capacity / 60.0);
    }
  }

  /** The amortized bound: over any run without sweeps, for any costs and any clock, what a key is granted plus
      what it has left is at most what it started with plus the refill over the forward clock steps. */
  lemma {:induction false} GrantedBound(capacity: real, buckets: Buckets, calls: seq<Event>, key: string)
    requires NoSweeps(calls)
    ensures var limit := PerMinute(capacity);
            Granted(limit, buckets, calls, key) + Level(limit, Run(limit, buckets, calls), key)
            <= Level(limit, buckets, key) + Refill(capacity, Forward(limit, buckets, calls, key))
  {
    GrantedStepwise(PerMinute(capacity), buckets, calls, key);
    RefilledIsLinear(capacity, Waits(PerMinute(capacity), buckets, calls, key));
  }

  ghost predicate ClockFrom(events: seq<Event>, start: real) {
    && (events != [] ==> start <= events[0].now)
    && forall i, j :: 0 <= i < j < |events| ==> events[i].now <= events[j].now
  }

  function Since(buckets: Buckets, key: string, start: real): real
  {
    if key in buckets then buckets[key].updatedAt else start
  }

  /** Under a monotone clock the forward steps add up to at most the time passed. */
  lemma {:induction false} ForwardBound(limit: Limit, buckets: Buckets, calls: seq<Event>, key: string, start: real, end: real)
    requires NoSweeps(calls) && ClockFrom(calls, start) && start <= end
    requires calls != [] ==> calls[|calls| - 1].now <= end
    requires Since(buckets, key, start) <= start
    ensures Forward(limit, buckets, calls, key) <= end - Since(buckets, key, start)
    decreases |calls|
  {
    if calls != [] {
      var e, next := calls[0], Step(limit, buckets, calls[0]);
      assert calls[1..] != [] ==> calls[1..][0] == calls[1] && calls[1..][|calls| - 2] == calls[|calls| - 1];
      ForwardBound(limit, next, calls[1..], key, e.now, end);
      WaitsHead(limit, buckets, calls, key);
    }
  }

  ghost predicate TokensNonNegative(buckets: Buckets) {
    forall key :: key in buckets ==> buckets[key].tokens >= 0.0
  }

  lemma StepNonNegative(limit: Limit, buckets: Buckets, e: Event)
    requires Sound(limit) && TokensNonNegative(buckets)
    ensures TokensNonNegative(Step(limit, buckets, e))
  {
    if e.Call? && e.key in buckets {
      assert limit.accrue(Max(0.0, e.now - buckets[e.key].updatedAt)) >= 0.0;
    }
  }

  lemma {:induction false} RunNonNegative(limit: Limit, buckets: Buckets, events: seq<Event>)
    requires Sound(limit) && TokensNonNegative(buckets)
    ensures TokensNonNegative(Run(limit, buckets, events))
    decreases |events|
  {
    if events != [] {
      StepNonNegative(limit, buckets, events[0]);
      RunNonNegative(limit, Step(limit, buckets, events[0]), events[1..]);
    }
  }

  lemma GrantedFromEmpty(limit: Limit, calls: seq<Event>, key: string)
    requires Sound(limit) && NoSweeps(calls) && calls != [] && ClockFrom(calls, calls[0].now)
    ensures Granted(limit, map[], calls, key) <= limit.capacity + Refilled(limit, Waits(limit, map[], calls, key))
    ensures Sum(Waits(limit, map[], calls, key)) <= calls[|calls| - 1].now - calls[0].now
  {
    GrantedStepwise(limit, map[], calls, key);
    ForwardBound(limit, map[], calls, key, calls[0].now, calls[|calls| - 1].now);
    RunNonNegative(limit, map[], calls);
    assert Level(limit, Run(limit, map[], calls), key) >= 0.0;
  }

  /** From an empty table and under a monotone clock, what a key is granted is at most the capacity plus the
      refill over the elapsed time. */
  lemma {:induction false} GrantedWithinElapsed(capacity: real, calls: seq<Event>, key: string)
    requires capacity >= 1.0 && NoSweeps(calls) && calls != [] && ClockFrom(calls, calls[0].now)
    ensures Granted(PerMinute(capacity), map[], calls, key)
         <= capacity + Refill(capacity, calls[|calls| - 1].now - calls[0].now)
  {
    var waits := Waits(PerMinute(capacity), map[], calls, key);
    PerMinuteSound(capacity);
    GrantedFromEmpty(PerMinute(capacity), calls, key);
    RefilledWithin(capacity, waits, calls[|calls| - 1].now - calls[0].now);
  }

  lemma RefilledWithin(capacity: real, waits: seq<real>, elapsed: real)
    requires capacity >= 1.0 && Sum(waits) <= elapsed
    ensures Refilled(PerMinute(capacity), waits) <= Refill(capacity, elapsed)
  {
    RefilledIsLinear(capacity, waits);
    Scale(Sum(waits), elapsed, capacity / 60.0);
  }

  lemma ProductNonNegative(a: real, b: real)
    requires a >= 0.0 && b >= 0.0
    ensures a * b >= 0.0
  {
  }

  lemma Distribute(a: real, b: real, c: real)
    ensures (a + b) * c == a * c + b * c
  {
  }

  lemma Scale(a: real, b: real, c: real)
    requires a <= b && c >= 0.0
    ensures a * c <= b * c
  {
    ProductNonNegative(b - a, c);
    Distribute(b - a, a, c);
  }

  /* ---------- sweeping is invisible ---------- */

  /** By the clock reading, the bucket has refilled. */
  ghost predicate Full(limit: Limit, b: Bucket, clock: real) {
    b.updatedAt <= clock && b.tokens + limit.accrue(clock - b.updatedAt) >= limit.capacity
  }

  lemma StaleIsFull(limit: Limit, b: Bucket, clock: real, olderThan: real)
    requires Sound(limit) && b.tokens >= 0.0 && olderThan >= 60.0 && b.updatedAt < clock - olderThan
    ensures Full(limit, b, clock)
  {
    var beyond := clock - b.updatedAt - 60.0;
    assert limit.accrue(beyond) + limit.accrue(60.0) == limit.accrue(beyond + 60.0);
  }

  lemma FullStays(limit: Limit, b: Bucket, clock: real, later: real)
    requires Sound(limit) && Full(limit, b, clock) && clock <= later
    ensures Full(limit, b, later)
  {
    var span, more := clock - b.updatedAt, later - clock;
    assert limit.accrue(span) + limit.accrue(more) == limit.accrue(span + more);
  }

  /** A call cannot tell a full bucket from a missing one exactly when its cost fits the capacity; otherwise the
      reported remainder gives it away. */
  lemma FullLooksMissingIff(limit: Limit, b: Bucket, cost: real, now: real)
    requires Sound(limit) && Full(limit, b, now)
    ensures Draw(limit, Some(b), cost, now) == Draw(limit, None, cost, now) <==> cost <= limit.capacity
    ensures Draw(limit, Some(b), cost, now).1 == Draw(limit, None, cost, now).1 <==> cost <= limit.capacity
  {
    assert Available(limit, b, now) == limit.capacity;
    if cost <= limit.capacity {
      assert Truncate(limit.capacity - cost) >= 0;
    } else {
      assert Truncate(limit.capacity) >= 1;
    }
  }

  /** The swept table lacks only buckets that have refilled. */
  ghost predicate Covers(limit: Limit, kept: Buckets, swept: Buckets, clock: real) {
    && TokensNonNegative(kept)
    && forall key :: KeyCovered(limit, kept, swept, clock, key)
  }

  ghost predicate KeyCovered(limit: Limit, kept: Buckets, swept: Buckets, clock: real, key: string) {
    At(swept, key) == At(kept, key) || (key !in swept && key in kept && Full(limit, kept[key], clock))
  }

  ghost predicate Modest(limit: Limit, e: Event) {
    if e.Call? then e.cost <= limit.capacity else e.olderThan >= 60.0
  }

  lemma DrawsAlike(limit: Limit, kept: Buckets, swept: Buckets, clock: real, e: Event)
    requires Sound(limit) && e.Call? && Modest(limit, e) && clock <= e.now
    requires KeyCovered(limit, kept, swept, clock, e.key)
    ensures Draw(limit, At(kept, e.key), e.cost, e.now) == Draw(limit, At(swept, e.key), e.cost, e.now)
  {
    if At(swept, e.key) != At(kept, e.key) {
      FullStays(limit, kept[e.key], clock, e.now);
      FullLooksMissingIff(limit, kept[e.key], e.cost, e.now);
    }
  }

  lemma OthersCovered(limit: Limit, kept: Buckets, swept: Buckets, clock: real, later: real, key: string)
    requires Sound(limit) && clock <= later && KeyCovered(limit, kept, swept, clock, key)
    ensures KeyCovered(limit, kept, swept, later, key)
  {
    if At(swept, key) != At(kept, key) {
      FullStays(limit, kept[key], clock, later);
    }
  }

  lemma CallLocal(limit: Limit, buckets: Buckets, e: Event, key: string)
    requires e.Call?
    ensures key != e.key ==> At(Step(limit, buckets, e), key) == At(buckets, key)
    ensures At(Step(limit, buckets, e), e.key)
         == var after := Draw(limit, At(buckets, e.key), e.cost, e.now).0; if after.Some? then after else At(buckets, e.key)
  {
  }

  lemma CallCovered(limit: Limit, kept: Buckets, swept: Buckets, clock: real, e: Event)
    requires Sound(limit) && e.Call? && Modest(limit, e) && clock <= e.now
    requires Covers(limit, kept, swept, clock)
    ensures Covers(limit, Step(limit, kept, e), Step(limit, swept, e), e.now)
    ensures Draw(limit, At(kept, e.key), e.cost, e.now) == Draw(limit, At(swept, e.key), e.cost, e.now)
  {
    StepNonNegative(limit, kept, e);
    assert KeyCovered(limit, kept, swept, clock, e.key);
    DrawsAlike(limit, kept, swept, clock, e);
    forall key ensures KeyCovered(limit, Step(limit, kept, e), Step(limit, swept, e), e.now, key) {
      assert KeyCovered(limit, kept, swept, clock, key);
      KeyStaysCovered(limit, kept, swept, clock, e, key);
    }
  }

  lemma KeyStaysCovered(limit: Limit, kept: Buckets, swept: Buckets, clock: real, e: Event, key: string)
    requires Sound(limit) && e.Call? && Modest(limit, e) && clock <= e.now
    requires KeyCovered(limit, kept, swept, clock, key)
    ensures KeyCovered(limit, Step(limit, kept, e), Step(limit, swept, e), e.now, key)
  {
    OthersCovered(limit, kept, swept, clock, e.now, key);
    CallLocal(limit, kept, e, key);
    CallLocal(limit, swept, e, key);
    if key == e.key {
      DrawsAlike(limit, kept, swept, clock, e);
    }
  }

  lemma SweepCovered(limit: Limit, kept: Buckets, swept: Buckets, clock: real, e: Event)
    requires Sound(limit) && e.Sweeping? && Modest(limit, e) && clock <= e.now
    requires Covers(limit, kept, swept, clock)
    ensures Covers(limit, kept, Step(limit, swept, e), e.now)
  {
    forall key ensures KeyCovered(limit, kept, Step(limit, swept, e), e.now, key) {
      assert KeyCovered(limit, kept, swept, clock, key);
      if At(swept, key) != At(kept, key) {
        FullStays(limit, kept[key], clock, e.now);
      } else if key in swept && swept[key].updatedAt < e.now - e.olderThan {
        StaleIsFull(limit, kept[key], e.now, e.olderThan);
      }
    }
  }

  lemma {:induction false} Simulates(limit: Limit, kept: Buckets, swept: Buckets, clock: real, events: seq<Event>)
    requires Sound(limit) && Covers(limit, kept, swept, clock) && ClockFrom(events, clock)
    requires forall i :: 0 <= i < |events| ==> Modest(limit, events[i])
    ensures Verdicts(limit, swept, events) == Verdicts(limit, kept, WithoutSweeps(events))
    decreases |events|
  {
    if events != [] {
      var e, rest := events[0], events[1..];
      assert forall i :: 0 <= i < |rest| ==> rest[i] == events[i + 1];
      if e.Call? {
        CallCovered(limit, kept, swept, clock, e);
        Simulates(limit, Step(limit, kept, e), Step(limit, swept, e), e.now, rest);
        assert WithoutSweeps(events)[1..] == WithoutSweeps(rest);
      } else {
        SweepCovered(limit, kept, swept, clock, e);
        Simulates(limit, kept, Step(limit, swept, e), e.now, rest);
      }
    }
  }

  /** Sweeps after at least a minute, at any points of a run under a monotone clock, change no verdict of any
      call whose cost fits the capacity. */
  lemma {:induction false} SweepsInvisible(capacity: real, events: seq<Event>)
    requires capacity >= 1.0 && (events != [] ==> ClockFrom(events, events[0].now))
    requires forall i :: 0 <= i < |events| ==> Modest(PerMinute(capacity), events[i])
    ensures var limit := PerMinute(capacity); Verdicts(limit, map[], events) == Verdicts(limit, map[], WithoutSweeps(events))
  {
    PerMinuteSound(capacity);
    if events != [] {
      Simulates(PerMinute(capacity), map[], map[], events[0].now, events);
    }
  }
}
