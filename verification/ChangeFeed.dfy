/** Polling a source for changed records: each record's fingerprint is stored, and after the first completed
    poll every record whose fingerprint is new or different is put on the event queue.
    Source: src/difoundry/lite/service.py:602-660. */
module ChangeFeed {
  import opened Wrappers
  import Json

  /** A polled record with the key the poller derives for it. */
  datatype Record = Record(key: string, body: Json.Value)

  /** One connection's rows in the trigger-state, poll-status and event tables. */
  datatype State<F> = State(fingerprints: map<string, F>, initialized: bool, queue: seq<Record>)

  /** How a poll's record loop ended: the number of events queued, or an exception because the connection was no
      longer enabled. */
  datatype Outcome = Completed(changed: nat) | Raised

  predicate Fresh<F(==)>(s: State<F>, r: Record, digest: Json.Value -> F) {
    r.key !in s.fingerprints || s.fingerprints[r.key] != digest(r.body)
  }

  /** The fingerprint is committed before the event is queued. */
  function Remember<F>(s: State<F>, r: Record, digest: Json.Value -> F): State<F>
  {
    s.(fingerprints := s.fingerprints[r.key := digest(r.body)])
  }

  function Observe<F(==)>(s: State<F>, r: Record, enabled: bool, digest: Json.Value -> F): (State<F>, Outcome)
  {
    var noted := Remember(s, r, digest);
    if !(s.initialized && Fresh(s, r, digest)) then (noted, Completed(0))
    else if !enabled then (noted, Raised)
    else (noted.(queue := s.queue + [r]), Completed(1))
  }

  /** The record loop; items that are not objects are skipped. Whether the connection is still enabled is read
      again at each event. */
  function Loop<F(==)>(s: State<F>, items: seq<Option<Record>>, enabled: seq<bool>, digest: Json.Value -> F): (State<F>, Outcome)
    requires |enabled| == |items|
    decreases |items|
  {
    if items == [] then (s, Completed(0))
    else
      var last := |items| - 1;
      var (before, outcome) := Loop(s, items[..last], enabled[..last], digest);
      if outcome.Raised? || items[last].None? then (before, outcome)
      else
        var (after, one) := Observe(before, items[last].value, enabled[last], digest);
        if one.Raised? then (after, Raised) else (after, Completed(outcome.changed + one.changed))
  }

  function Poll<F(==)>(s: State<F>, items: seq<Option<Record>>, enabled: seq<bool>, digest: Json.Value -> F): (State<F>, Outcome)
    requires |enabled| == |items|
  {
    var (after, outcome) := Loop(s, items, enabled, digest);
    if outcome.Raised? then (after, Raised) else (after.(initialized := true), outcome)
  }

  class Feed<F(==)> {
    const digest: Json.Value -> F
    var fingerprints: map<string, F>
    var initialized: bool
    var queue: seq<Record>

    ghost function Now(): State<F>
      reads this
    {
      State(fingerprints, initialized, queue)
    }

    constructor (digest: Json.Value -> F)
      ensures this.digest == digest && Now() == State(map[], false, [])
    {
      this.digest := digest;
      fingerprints, initialized, queue := map[], false, [];
    }

    method PollOnce(items: seq<Option<Record>>, enabled: seq<bool>) returns (outcome: Outcome)
      requires |enabled| == |items|
      modifies this
      ensures (Now(), outcome) == Poll(old(Now()), items, enabled, digest)
    {
      ghost var start := Now();
      var first, changed := initialized, 0;
      for i := 0 to |items|
        invariant initialized == first == start.initialized
        invariant Loop(start, items[..i], enabled[..i], digest) == (Now(), Completed(changed))
      {
        assert items[..i + 1][..i] == items[..i] && enabled[..i + 1][..i] == enabled[..i];
        assert items == items[..i + 1] + items[i + 1..] && enabled == enabled[..i + 1] + enabled[i + 1..];
        if items[i].Some? {
          var record := items[i].value;
          var existing := if record.key in fingerprints then Some(fingerprints[record.key]) else None;
          var fingerprint := digest(record.body);
          fingerprints := fingerprints[record.key := fingerprint];
          if first && (existing.None? || existing.value != fingerprint) {
            if !enabled[i] {
              RaisedStays(start, items, enabled, digest, i + 1);
              return Raised;
            }
            queue := queue + [record];
            changed := changed + 1;
          }
        }
      }
      assert items[..|items|] == items && enabled[..|items|] == enabled;
      initialized := true;
      outcome := Completed(changed);
    }
  }

  /** After an exception the rest of the poll is not looked at. */
  lemma {:induction false} RaisedStays<F>(s: State<F>, items: seq<Option<Record>>, enabled: seq<bool>, digest: Json.Value -> F, n: nat)
    requires |enabled| == |items| && n <= |items|
    requires Loop(s, items[..n], enabled[..n], digest).1.Raised?
    ensures Loop(s, items, enabled, digest) == Loop(s, items[..n], enabled[..n], digest)
    decreases |items|
  {
    if n == |items| {
      assert items[..n] == items && enabled[..n] == enabled;
    } else {
      var last := |items| - 1;
      assert items[..last][..n] == items[..n] && enabled[..last][..n] == enabled[..n];
      RaisedStays(s, items[..last], enabled[..last], digest, n);
    }
  }

  /** Events are only added behind the ones already queued, and the number reported is the number added. */
  lemma {:induction false} LoopCounts<F>(s: State<F>, items: seq<Option<Record>>, enabled: seq<bool>, digest: Json.Value -> F)
    requires |enabled| == |items|
    ensures s.queue <= Loop(s, items, enabled, digest).0.queue
    ensures var (after, outcome) := Loop(s, items, enabled, digest);
            outcome.Completed? ==> outcome.changed == |after.queue| - |s.queue|
    decreases |items|
  {
    if items != [] {
      LoopCounts(s, items[..|items| - 1], enabled[..|items| - 1], digest);
    }
  }

  /* ---------- silence ---------- */

  /** The first completed poll takes a baseline: it cannot raise and queues nothing, whatever it reads. */
  lemma {:induction false} FirstPollSilent<F>(s: State<F>, items: seq<Option<Record>>, enabled: seq<bool>, digest: Json.Value -> F)
    requires |enabled| == |items| && !s.initialized
    ensures Loop(s, items, enabled, digest).1 == Completed(0)
    ensures Loop(s, items, enabled, digest).0.queue == s.queue && !Loop(s, items, enabled, digest).0.initialized
    decreases |items|
  {
    if items != [] {
      FirstPollSilent(s, items[..|items| - 1], enabled[..|items| - 1], digest);
    }
  }

  predicate Known<F(==)>(s: State<F>, item: Option<Record>, digest: Json.Value -> F) {
    item.Some? ==> !Fresh(s, item.value, digest)
  }

  ghost predicate AllKnown<F>(s: State<F>, items: seq<Option<Record>>, digest: Json.Value -> F) {
    forall i :: 0 <= i < |items| ==> Known(s, items[i], digest)
  }

  /** A later poll is silent exactly when it reads nothing but fingerprints already stored; it then leaves the
      tables as they are. */
  lemma {:induction false} SilentIff<F>(s: State<F>, items: seq<Option<Record>>, enabled: seq<bool>, digest: Json.Value -> F)
    requires |enabled| == |items| && s.initialized
    ensures Loop(s, items, enabled, digest).1 == Completed(0) <==> AllKnown(s, items, digest)
    ensures AllKnown(s, items, digest) ==> Loop(s, items, enabled, digest).0 == s
    decreases |items|
  {
    if items != [] {
      var last := |items| - 1;
      SilentIff(s, items[..last], enabled[..last], digest);
      assert AllKnown(s, items, digest) <==> AllKnown(s, items[..last], digest) && Known(s, items[last], digest) by {
        assert forall i :: 0 <= i < last ==> items[..last][i] == items[i];
      }
      if Known(s, items[last], digest) && items[last].Some? {
        var r := items[last].value;
        assert s.fingerprints[r.key := digest(r.body)] == s.fingerprints;
      }
    }
  }

  predicate SameKey(a: Option<Record>, b: Option<Record>) {
    a.Some? && b.Some? && a.value.key == b.value.key
  }

  /** No key occurs twice in the poll with different content. */
  ghost predicate Consistent<F>(items: seq<Option<Record>>, digest: Json.Value -> F) {
    forall i, j :: 0 <= i < j < |items| && SameKey(items[i], items[j]) ==> digest(items[i].value.body) == digest(items[j].value.body)
  }

  /** What the loop leaves stored for the keys it read: the last fingerprint. */
  lemma {:induction false} LoopStores<F>(s: State<F>, items: seq<Option<Record>>, enabled: seq<bool>, digest: Json.Value -> F, i: nat)
    requires |enabled| == |items| && i < |items| && items[i].Some?
    requires !Loop(s, items, enabled, digest).1.Raised?
    requires forall j :: i < j < |items| ==> !SameKey(items[i], items[j])
    ensures !Fresh(Loop(s, items, enabled, digest).0, items[i].value, digest)
    decreases |items|
  {
    var last := |items| - 1;
    if i < last {
      LoopStores(s, items[..last], enabled[..last], digest, i);
      assert !SameKey(items[i], items[last]);
    }
  }

  lemma {:induction false} LastOfKey(items: seq<Option<Record>>, i: nat) returns (j: nat)
    requires i < |items| && items[i].Some?
    ensures i <= j < |items| && SameKey(items[i], items[j])
    ensures forall k :: j < k < |items| ==> !SameKey(items[j], items[k])
    decreases |items| - i
  {
    if k :| i < k < |items| && SameKey(items[i], items[k]) {
      j := LastOfKey(items, k);
    } else {
      j := i;
    }
  }

  /** Polling an unchanged source again queues nothing if and only if the source does not list one key twice
      with different content; with distinct keys it never does. */
  lemma {:induction false} RepollSilentIff<F>(s: State<F>, items: seq<Option<Record>>, enabled: seq<bool>, again: seq<bool>, digest: Json.Value -> F)
    requires |enabled| == |items| == |again|
    requires !Poll(s, items, enabled, digest).1.Raised?
    ensures Poll(Poll(s, items, enabled, digest).0, items, again, digest).1 == Completed(0) <==> Consistent(items, digest)
  {
    var loop, after := Loop(s, items, enabled, digest).0, Poll(s, items, enabled, digest).0;
    SilentIff(after, items, again, digest);
    if Consistent(items, digest) {
      forall i | 0 <= i < |items| ensures Known(after, items[i], digest) {
        if items[i].Some? {
          var j := LastOfKey(items, i);
          LoopStores(s, items, enabled, digest, j);
        }
      }
    }
    if AllKnown(after, items, digest) {
      forall i, j | 0 <= i < j < |items| && SameKey(items[i], items[j])
        ensures digest(items[i].value.body) == digest(items[j].value.body)
      {
        assert Known(after, items[i], digest) && Known(after, items[j], digest);
      }
    }
  }

  /* ---------- completeness ---------- */

  /** The records of a poll laid over a view, in order: what the source last showed for every key. */
  function Overlay(view: map<string, Json.Value>, records: seq<Record>): map<string, Json.Value>
  {
    if records == [] then view
    else Overlay(view, records[..|records| - 1])[records[|records| - 1].key := records[|records| - 1].body]
  }

  function Shown(view: map<string, Json.Value>, items: seq<Option<Record>>): map<string, Json.Value>
  {
    if items == [] then view
    else
      var before := Shown(view, items[..|items| - 1]);
      match items[|items| - 1] case None => before case Some(r) => before[r.key := r.body]
  }

  ghost predicate Injective<F(!new)>(digest: Json.Value -> F) {
    forall a, b :: digest(a) == digest(b) ==> a == b
  }

  /** Such fingerprints exist: the record itself is one. */
  lemma InjectiveDigestExists()
    ensures exists digest: Json.Value -> Json.Value :: Injective(digest)
  {
    assert Injective((v: Json.Value) => v);
  }

  /** The stored fingerprints are those of the view. */
  ghost predicate Matches<F>(s: State<F>, view: map<string, Json.Value>, digest: Json.Value -> F) {
    s.fingerprints.Keys == view.Keys && forall k :: k in view ==> s.fingerprints[k] == digest(view[k])
  }

  /** A consumer that laid the queued events over the baseline would hold what the source last showed. */
  ghost predicate Tracks<F>(s: State<F>, baseline: map<string, Json.Value>, view: map<string, Json.Value>, digest: Json.Value -> F) {
    Matches(s, view, digest) && Overlay(baseline, s.queue) == view
  }

  lemma OverlayAppend(view: map<string, Json.Value>, records: seq<Record>, r: Record)
    ensures Overlay(view, records + [r]) == Overlay(view, records)[r.key := r.body]
  {
    assert (records + [r])[..|records|] == records;
  }

  /** One record keeps consumer and source in step if and only if the connection is enabled or the record is
      unchanged; otherwise the change is lost, since its fingerprint is already stored. */
  lemma RecordTracksIff<F(!new)>(s: State<F>, baseline: map<string, Json.Value>, view: map<string, Json.Value>, r: Record, enabled: bool, digest: Json.Value -> F)
    requires Injective(digest) && s.initialized && Tracks(s, baseline, view, digest)
    ensures Tracks(Observe(s, r, enabled, digest).0, baseline, view[r.key := r.body], digest)
       <==> enabled || (r.key in view && view[r.key] == r.body)
    ensures r.key in view && view[r.key] == r.body <==> !Fresh(s, r, digest)
  {
    OverlayAppend(baseline, s.queue, r);
    assert r.key in view && view[r.key] == r.body ==> view[r.key := r.body] == view;
  }

  /** The item is not a record, finds the connection enabled, or shows what was last seen for its key. */
  predicate Kept(view: map<string, Json.Value>, item: Option<Record>, enabled: bool)
  {
    item.None? || enabled || (item.value.key in view && view[item.value.key] == item.value.body)
  }

  /** Every item of the poll is kept, given what the items before it show. */
  predicate PollKept(view: map<string, Json.Value>, items: seq<Option<Record>>, enabled: seq<bool>)
    requires |enabled| == |items|
    decreases |items|
  {
    items == [] ||
    var last := |items| - 1;
    PollKept(view, items[..last], enabled[..last]) && Kept(Shown(view, items[..last]), items[last], enabled[last])
  }

  /** A consumer that laid the queued events over the baseline would hold something else than what was read. */
  ghost predicate Parted<F(!new)>(s: State<F>, baseline: map<string, Json.Value>, digest: Json.Value -> F) {
    forall view :: !Tracks(s, baseline, view, digest)
  }

  lemma MatchesOne<F(!new)>(s: State<F>, v: map<string, Json.Value>, w: map<string, Json.Value>, digest: Json.Value -> F)
    requires Injective(digest) && Matches(s, v, digest) && Matches(s, w, digest)
    ensures v == w
  {
    assert forall k :: k in v ==> digest(v[k]) == digest(w[k]);
  }

  lemma RecordParts<F(!new)>(s: State<F>, baseline: map<string, Json.Value>, view: map<string, Json.Value>, r: Record, digest: Json.Value -> F)
    requires Injective(digest) && s.initialized && Tracks(s, baseline, view, digest) && !Kept(view, Some(r), false)
    ensures Parted(Observe(s, r, false, digest).0, baseline, digest)
  {
    RecordTracksIff(s, baseline, view, r, false, digest);
    var after := Observe(s, r, false, digest).0;
    forall v ensures !Tracks(after, baseline, v, digest) {
      if Matches(after, v, digest) {
        MatchesOne(after, v, view[r.key := r.body], digest);
      }
    }
  }

  /** A poll of a tracked source completes if and only if every item is kept. It then tracks what the poll showed;
      otherwise it has lost a change and tracks nothing. */
  lemma {:induction false} PollTracksIff<F(!new)>(s: State<F>, baseline: map<string, Json.Value>, view: map<string, Json.Value>,
      items: seq<Option<Record>>, enabled: seq<bool>, digest: Json.Value -> F)
    requires Injective(digest) && s.initialized && Tracks(s, baseline, view, digest) && |enabled| == |items|
    ensures var (after, outcome) := Loop(s, items, enabled, digest);
            after.initialized && (outcome.Completed? <==> PollKept(view, items, enabled)) &&
            if outcome.Completed? then Tracks(after, baseline, Shown(view, items), digest) else Parted(after, baseline, digest)
    decreases |items|
  {
    if items != [] {
      var last := |items| - 1;
      PollTracksIff(s, baseline, view, items[..last], enabled[..last], digest);
      var (before, outcome) := Loop(s, items[..last], enabled[..last], digest);
      if outcome.Completed? && items[last].Some? {
        RecordTracksIff(before, baseline, Shown(view, items[..last]), items[last].value, enabled[last], digest);
        if !Kept(Shown(view, items[..last]), items[last], enabled[last]) {
          RecordParts(before, baseline, Shown(view, items[..last]), items[last].value, digest);
        }
      }
    }
  }

  lemma {:induction false} BaselineMatches<F>(s: State<F>, view: map<string, Json.Value>, items: seq<Option<Record>>, enabled: seq<bool>, digest: Json.Value -> F)
    requires |enabled| == |items| && !s.initialized && Matches(s, view, digest)
    ensures Matches(Loop(s, items, enabled, digest).0, Shown(view, items), digest)
    ensures Loop(s, items, enabled, digest).1.Completed? && !Loop(s, items, enabled, digest).0.initialized
    decreases |items|
  {
    if items != [] {
      BaselineMatches(s, view, items[..|items| - 1], enabled[..|items| - 1], digest);
    }
  }

  /** One flag for each item of each poll: whether the connection is found enabled there. */
  predicate Flagged(polls: seq<seq<Option<Record>>>, flags: seq<seq<bool>>)
  {
    |flags| == |polls| && forall p :: 0 <= p < |polls| ==> |flags[p]| == |polls[p]|
  }

  /** The state after some polls, and whether all of them completed. */
  function Polls<F(==)>(s: State<F>, polls: seq<seq<Option<Record>>>, flags: seq<seq<bool>>, digest: Json.Value -> F): (State<F>, bool)
    requires Flagged(polls, flags)
    decreases |polls|
  {
    if polls == [] then (s, true)
    else
      var last := |polls| - 1;
      var (before, completed) := Polls(s, polls[..last], flags[..last], digest);
      var (after, outcome) := Poll(before, polls[last], flags[last], digest);
      (after, completed && outcome.Completed?)
  }

  function LastSeen(polls: seq<seq<Option<Record>>>): map<string, Json.Value>
  {
    if polls == [] then map[] else Shown(LastSeen(polls[..|polls| - 1]), polls[|polls| - 1])
  }

  /** In every poll but the first, every change finds the connection enabled. */
  predicate AllKept(polls: seq<seq<Option<Record>>>, flags: seq<seq<bool>>)
    requires Flagged(polls, flags)
    decreases |polls|
  {
    |polls| <= 1 ||
    var last := |polls| - 1;
    AllKept(polls[..last], flags[..last]) && PollKept(LastSeen(polls[..last]), polls[last], flags[last])
  }

  /** Over any sequence of polls, all polls complete if and only if every change after the first poll finds the
      connection enabled. Laying the queued events over the first poll then gives, for every key, the record last
      seen: no change is missed and none comes out of order, duplicate keys or not. */
  lemma {:induction false} FeedIsCompleteIff<F(!new)>(polls: seq<seq<Option<Record>>>, flags: seq<seq<bool>>, digest: Json.Value -> F)
    requires Injective(digest) && polls != [] && Flagged(polls, flags)
    ensures var (after, completed) := Polls(State(map[], false, []), polls, flags, digest);
            after.initialized && (completed <==> AllKept(polls, flags)) &&
            (completed ==> Tracks(after, Shown(map[], polls[0]), LastSeen(polls), digest))
    decreases |polls|
  {
    var last := |polls| - 1;
    var start: State<F> := State(map[], false, []);
    var (before, completed) := Polls(start, polls[..last], flags[..last], digest);
    if last == 0 {
      assert polls[..last] == [] && before == start;
      FirstPollSilent(start, polls[0], flags[0], digest);
      BaselineMatches(start, map[], polls[0], flags[0], digest);
    } else {
      FeedIsCompleteIff(polls[..last], flags[..last], digest);
      assert polls[..last][0] == polls[0];
      if completed {
        PollTracksIff(before, Shown(map[], polls[0]), LastSeen(polls[..last]), polls[last], flags[last], digest);
      } else {
        LoopKeepsInitialized(before, polls[last], flags[last], digest);
      }
    }
  }

  lemma {:induction false} LoopKeepsInitialized<F>(s: State<F>, items: seq<Option<Record>>, enabled: seq<bool>, digest: Json.Value -> F)
    requires |enabled| == |items|
    ensures Loop(s, items, enabled, digest).0.initialized == s.initialized
    decreases |items|
  {
    if items != [] {
      LoopKeepsInitialized(s, items[..|items| - 1], enabled[..|items| - 1], digest);
    }
  }

  predicate AllEnabled(flags: seq<seq<bool>>)
  {
    forall p, i :: 0 <= p < |flags| && 0 <= i < |flags[p]| ==> flags[p][i]
  }

  lemma {:induction false} EnabledPollKept(view: map<string, Json.Value>, items: seq<Option<Record>>, enabled: seq<bool>)
    requires |enabled| == |items| && forall i :: 0 <= i < |enabled| ==> enabled[i]
    ensures PollKept(view, items, enabled)
    decreases |items|
  {
    if items != [] {
      EnabledPollKept(view, items[..|items| - 1], enabled[..|items| - 1]);
    }
  }

  lemma {:induction false} EnabledKept(polls: seq<seq<Option<Record>>>, flags: seq<seq<bool>>)
    requires Flagged(polls, flags) && AllEnabled(flags)
    ensures AllKept(polls, flags)
    decreases |polls|
  {
    if |polls| > 1 {
      var last := |polls| - 1;
      assert forall p :: 0 <= p < last ==> flags[..last][p] == flags[p];
      EnabledKept(polls[..last], flags[..last]);
      EnabledPollKept(LastSeen(polls[..last]), polls[last], flags[last]);
    }
  }

  /** A connection that stays enabled misses nothing. */
  lemma FeedIsComplete<F(!new)>(polls: seq<seq<Option<Record>>>, flags: seq<seq<bool>>, digest: Json.Value -> F)
    requires Injective(digest) && polls != [] && Flagged(polls, flags) && AllEnabled(flags)
    ensures var (after, completed) := Polls(State(map[], false, []), polls, flags, digest);
            completed && Overlay(Shown(map[], polls[0]), after.queue) == LastSeen(polls)
  {
    EnabledKept(polls, flags);
    FeedIsCompleteIff(polls, flags, digest);
  }

  /* ---------- a change that is lost ---------- */

  function Reading(n: real): seq<Option<Record>>
  {
    [Some(Record("k", Json.Num(n)))]
  }

  lemma OneRecord<F>(s: State<F>, n: real, enabled: bool, digest: Json.Value -> F)
    ensures Loop(s, Reading(n), [enabled], digest).0 == Observe(s, Record("k", Json.Num(n)), enabled, digest).0
    ensures Loop(s, Reading(n), [enabled], digest).1 == Observe(s, Record("k", Json.Num(n)), enabled, digest).1
  {
    assert Reading(n)[..0] == [] && [enabled][..0] == [];
    assert Loop(s, [], [], digest) == (s, Completed(0));
  }

  /** The record changes from 1 to 2 while the connection is disabled: the second poll raises, the third, enabled
      again, is silent, and the queue never holds the change. */
  lemma ChangeIsLost<F(!new)>(digest: Json.Value -> F)
    requires Injective(digest)
    ensures var start := State(map[], false, []);
            var first := Poll(start, Reading(1.0), [true], digest);
            var second := Poll(first.0, Reading(2.0), [false], digest);
            var third := Poll(second.0, Reading(2.0), [true], digest);
            first.1 == Completed(0) && second.1 == Raised && third.1 == Completed(0) && third.0.queue == []
    ensures LastSeen([Reading(1.0), Reading(2.0), Reading(2.0)]) != Overlay(Shown(map[], Reading(1.0)), [])
  {
    var start: State<F> := State(map[], false, []);
    OneRecord(start, 1.0, true, digest);
    var first := Poll(start, Reading(1.0), [true], digest).0;
    assert digest(Json.Num(1.0)) != digest(Json.Num(2.0));
    OneRecord(first, 2.0, false, digest);
    var second := Poll(first, Reading(2.0), [false], digest).0;
    OneRecord(second, 2.0, true, digest);
    LastReading();
  }

  lemma LastReading()
    ensures Shown(map[], Reading(1.0)) == map["k" := Json.Num(1.0)]
    ensures LastSeen([Reading(1.0), Reading(2.0), Reading(2.0)])["k"] == Json.Num(2.0)
  {
    var polls := [Reading(1.0), Reading(2.0), Reading(2.0)];
    assert Reading(1.0)[..0] == [] && Reading(2.0)[..0] == [];
    var before := Shown(LastSeen(polls[..2]), []);
    assert Shown(LastSeen(polls[..2]), Reading(2.0)) == before["k" := Json.Num(2.0)];
  }
}
