/** The dependency graph of a coordination workflow: layered topological order, cycles, and the length of
    dependency chains (`CoordinationWorkflow._topological_order`). */
module Graph {
  import opened Wrappers
  import opened Sorting

  /** Step id to the ids it depends on. */
  type Dependencies = map<string, set<string>>

  /** `validate_graph` has checked that every dependency is a known step. */
  predicate Closed(g: Dependencies)
  {
    forall k :: k in g ==> g[k] <= g.Keys
  }

  /* ---------- the layered sort ---------- */

  function Ready(g: Dependencies): set<string>
  {
    set k | k in g && g[k] == {}
  }

  /** The rest of the graph once the ready steps are popped and discharged. */
  function Drop(g: Dependencies): (r: Dependencies)
    ensures r.Keys == g.Keys - Ready(g)
    ensures Closed(g) ==> Closed(r)
  {
    map k | k in g && k !in Ready(g) :: g[k] - Ready(g)
  }

  lemma DropShrinks(g: Dependencies)
    requires Ready(g) != {}
    ensures |Drop(g)| < |g|
  {
    var k :| k in Ready(g);
    assert Drop(g).Keys <= g.Keys - {k};
    SubsetSize(Drop(g).Keys, g.Keys - {k});
    assert |g.Keys - {k}| == |g.Keys| - 1;
  }

  lemma {:induction false} SubsetSize<T>(a: set<T>, b: set<T>)
    requires a <= b
    ensures |a| <= |b|
    decreases |a|
  {
    if a != {} {
      var x :| x in a;
      SubsetSize(a - {x}, b - {x});
    }
  }

  /** The order `_topological_order` returns; None where it raises. */
  function Order(g: Dependencies): Option<seq<string>>
    decreases |g|
  {
    if g == map[] then Some([])
    else if Ready(g) == {} then None
    else
      DropShrinks(g);
      match Order(Drop(g))
      case Some(rest) => Some(Sorted(Ready(g)) + rest)
      case None => None
  }

  /* ---------- the sort as it runs ---------- */

  /** An entry of the `remaining` dictionary. The dictionary lists its entries in the order the steps were given. */
  datatype Pending = Pending(key: string, dependencies: set<string>)

  predicate UniqueKeys(remaining: seq<Pending>)
  {
    forall i, j :: 0 <= i < j < |remaining| ==> remaining[i].key != remaining[j].key
  }

  /** What the dictionary says, whatever its order. */
  function GraphOf(remaining: seq<Pending>): (g: Dependencies)
    ensures forall k :: k in g <==> exists i :: 0 <= i < |remaining| && remaining[i].key == k
  {
    if remaining == [] then map[]
    else GraphOf(remaining[..|remaining| - 1])[remaining[|remaining| - 1].key := remaining[|remaining| - 1].dependencies]
  }

  /** The keys without dependencies, in dictionary order. */
  function ReadyKeys(remaining: seq<Pending>): seq<string>
  {
    if remaining == [] then []
    else
      var front, last := ReadyKeys(remaining[..|remaining| - 1]), remaining[|remaining| - 1];
      if last.dependencies == {} then front + [last.key] else front
  }

  /** Popping the ready keys and discharging them from the other entries. */
  function Discharge(remaining: seq<Pending>, ready: seq<string>): seq<Pending>
  {
    if remaining == [] then []
    else
      var front, last := Discharge(remaining[..|remaining| - 1], ready), remaining[|remaining| - 1];
      if last.key in ready then front else front + [Pending(last.key, last.dependencies - set x | x in ready)]
  }

  lemma {:induction false} GraphAt(remaining: seq<Pending>, i: nat)
    requires UniqueKeys(remaining) && i < |remaining|
    ensures remaining[i].key in GraphOf(remaining) && GraphOf(remaining)[remaining[i].key] == remaining[i].dependencies
  {
    var last := |remaining| - 1;
    if i < last {
      GraphAt(remaining[..last], i);
      assert remaining[i].key != remaining[last].key;
    }
  }

  lemma LastKeyIsNew(remaining: seq<Pending>)
    requires UniqueKeys(remaining) && remaining != []
    ensures var front := remaining[..|remaining| - 1];
      forall i :: 0 <= i < |front| ==> front[i].key != remaining[|remaining| - 1].key
  {
    var last := |remaining| - 1;
    forall i | 0 <= i < last ensures remaining[..last][i].key != remaining[last].key {
      assert remaining[i].key != remaining[last].key;
    }
  }

  lemma {:induction false} ReadyKeysFrom(remaining: seq<Pending>)
    requires UniqueKeys(remaining)
    ensures forall k :: k in ReadyKeys(remaining) <==>
      exists i :: 0 <= i < |remaining| && remaining[i].key == k && remaining[i].dependencies == {}
    ensures Distinct(ReadyKeys(remaining))
  {
    if remaining != [] {
      var front, last := remaining[..|remaining| - 1], remaining[|remaining| - 1];
      ReadyKeysFrom(front);
      LastKeyIsNew(remaining);
      assert forall k :: k in ReadyKeys(front) ==> k != last.key;
      DistinctConcat(ReadyKeys(front), [last.key]);
    }
  }

  /** The ready keys are the ready steps of the graph, so sorting them forgets the dictionary order. */
  lemma SortedReady(remaining: seq<Pending>)
    requires UniqueKeys(remaining)
    ensures SortList(ReadyKeys(remaining)) == Sorted(Ready(GraphOf(remaining)))
  {
    ReadyKeysFrom(remaining);
    forall k ensures k in ReadyKeys(remaining) <==> k in Ready(GraphOf(remaining)) {
      if k in GraphOf(remaining) {
        var i :| 0 <= i < |remaining| && remaining[i].key == k;
        GraphAt(remaining, i);
      }
    }
    SortListIsSorted(ReadyKeys(remaining), Ready(GraphOf(remaining)));
  }

  lemma {:induction false} DischargeKeys(remaining: seq<Pending>, ready: seq<string>)
    requires UniqueKeys(remaining)
    ensures UniqueKeys(Discharge(remaining, ready))
    ensures forall p :: p in Discharge(remaining, ready) ==>
      exists i :: 0 <= i < |remaining| && remaining[i].key == p.key && p.key !in ready
    ensures |Discharge(remaining, ready)| <= |remaining|
  {
    if remaining != [] {
      var front, last := remaining[..|remaining| - 1], remaining[|remaining| - 1];
      DischargeKeys(front, ready);
      forall p | p in Discharge(front, ready) ensures p.key != last.key {
        var i :| 0 <= i < |front| && front[i].key == p.key;
        assert remaining[i].key != remaining[|remaining| - 1].key;
      }
    }
  }

  lemma {:induction false} DischargedGraph(remaining: seq<Pending>, ready: seq<string>)
    requires UniqueKeys(remaining)
    ensures GraphOf(Discharge(remaining, ready)) == Discharged(GraphOf(remaining), ready)
  {
    if remaining != [] {
      var front, last := remaining[..|remaining| - 1], remaining[|remaining| - 1];
      DischargedGraph(front, ready);
      DischargeStep(front, last, remaining, ready);
      DischargedAdds(GraphOf(front), last, ready);
    }
  }

  function Discharged(g: Dependencies, ready: seq<string>): Dependencies
  {
    map k | k in g && k !in ready :: g[k] - set x | x in ready
  }

  lemma DischargedAdds(g: Dependencies, last: Pending, ready: seq<string>)
    requires last.key !in g
    ensures Discharged(g[last.key := last.dependencies], ready) ==
      if last.key in ready then Discharged(g, ready)
      else Discharged(g, ready)[last.key := last.dependencies - set x | x in ready]
  {
  }

  lemma DischargeStep(front: seq<Pending>, last: Pending, remaining: seq<Pending>, ready: seq<string>)
    requires remaining == front + [last] && UniqueKeys(remaining)
    ensures last.key !in GraphOf(front)
    ensures GraphOf(remaining) == GraphOf(front)[last.key := last.dependencies]
    ensures GraphOf(Discharge(remaining, ready)) ==
      if last.key in ready then GraphOf(Discharge(front, ready))
      else GraphOf(Discharge(front, ready))[last.key := last.dependencies - set x | x in ready]
  {
    assert remaining[..|remaining| - 1] == front;
    LastKeyIsNew(remaining);
    var d, p := Discharge(front, ready), Pending(last.key, last.dependencies - set x | x in ready);
    assert (d + [p])[..|d + [p]| - 1] == d;
  }

  /** One round of the loop is one layer of the graph. */
  lemma RoundIsDrop(remaining: seq<Pending>)
    requires UniqueKeys(remaining)
    ensures UniqueKeys(Discharge(remaining, SortList(ReadyKeys(remaining))))
    ensures GraphOf(Discharge(remaining, SortList(ReadyKeys(remaining)))) == Drop(GraphOf(remaining))
  {
    var ready := SortList(ReadyKeys(remaining));
    SortedReady(remaining);
    DischargeKeys(remaining, ready);
    DischargedGraph(remaining, ready);
    LayerIsDrop(GraphOf(remaining), ready);
  }

  lemma LayerIsDrop(g: Dependencies, ready: seq<string>)
    requires forall x :: x in ready <==> x in Ready(g)
    ensures Discharged(g, ready) == Drop(g)
  {
    assert (set x | x in ready) == Ready(g);
  }

  function After(prefix: seq<string>, rest: Option<seq<string>>): (r: Option<seq<string>>)
    ensures prefix == [] ==> r == rest
  {
    match rest
    case Some(tail) => assert [] + tail == tail; Some(prefix + tail)
    case None => None
  }

  lemma ReadyGraph(remaining: seq<Pending>)
    requires UniqueKeys(remaining)
    ensures SortList(ReadyKeys(remaining)) == [] <==> Ready(GraphOf(remaining)) == {}
  {
    SortedReady(remaining);
    if Ready(GraphOf(remaining)) == {} {
    } else {
      assert |Sorted(Ready(GraphOf(remaining)))| > 0;
    }
  }

  /** The order computed from the dictionary as it is listed. */
  function Layers(remaining: seq<Pending>): Option<seq<string>>
    requires UniqueKeys(remaining)
    decreases |GraphOf(remaining)|
  {
    if remaining == [] then Some([])
    else
      var ready := SortList(ReadyKeys(remaining));
      if ready == [] then None
      else
        ReadyGraph(remaining);
        RoundIsDrop(remaining);
        DropShrinks(GraphOf(remaining));
        After(ready, Layers(Discharge(remaining, ready)))
  }

  /** However the dictionary is listed, the order depends on its content alone. */
  lemma {:induction false} LayersAreOrder(remaining: seq<Pending>)
    requires UniqueKeys(remaining)
    ensures Layers(remaining) == Order(GraphOf(remaining))
    decreases |GraphOf(remaining)|
  {
    EmptyGraph(remaining);
    ReadyGraph(remaining);
    if remaining != [] && Ready(GraphOf(remaining)) != {} {
      SortedReady(remaining);
      RoundIsDrop(remaining);
      DropShrinks(GraphOf(remaining));
      LayersAreOrder(Discharge(remaining, SortList(ReadyKeys(remaining))));
    }
  }

  lemma EmptyGraph(remaining: seq<Pending>)
    ensures GraphOf(remaining) == map[] <==> remaining == []
  {
    if remaining != [] {
      assert remaining[0].key in GraphOf(remaining);
    }
  }

  /** `_topological_order`, as the loop that pops layer after layer. */
  method TopologicalOrder(steps: seq<Pending>) returns (r: Option<seq<string>>)
    requires UniqueKeys(steps)
    ensures r == Layers(steps) && r == Order(GraphOf(steps))
  {
    LayersAreOrder(steps);
    var remaining := steps;
    var ordered: seq<string> := [];
    while remaining != []
      invariant UniqueKeys(remaining)
      invariant Layers(steps) == After(ordered, Layers(remaining))
      decreases |GraphOf(remaining)|
    {
      var ready := SortList(ReadyKeys(remaining));
      if ready == [] {
        return None;
      }
      ReadyGraph(remaining);
      RoundIsDrop(remaining);
      DropShrinks(GraphOf(remaining));
      AfterTwice(ordered, ready, Layers(Discharge(remaining, ready)));
      ordered := ordered + ready;
      remaining := Discharge(remaining, ready);
    }
    assert ordered + [] == ordered;
    return Some(ordered);
  }

  lemma AfterTwice(a: seq<string>, b: seq<string>, rest: Option<seq<string>>)
    ensures After(a, After(b, rest)) == After(a + b, rest)
  {
    if rest.Some? {
      assert a + (b + rest.value) == a + b + rest.value;
    }
  }

  /* ---------- soundness: every dependency comes earlier ---------- */

  predicate Distinct(o: seq<string>)
  {
    forall i, j :: 0 <= i < j < |o| ==> o[i] != o[j]
  }

  ghost predicate SameElements(g: Dependencies, o: seq<string>)
  {
    forall x :: x in o <==> x in g
  }

  ghost predicate DependenciesEarlier(g: Dependencies, o: seq<string>)
    requires SameElements(g, o)
  {
    forall i, d :: 0 <= i < |o| && d in g[o[i]] ==> d in o[..i]
  }

  /** A permutation of the steps in which every dependency comes before its dependants. */
  ghost predicate Linear(g: Dependencies, o: seq<string>)
  {
    Distinct(o) && SameElements(g, o) && DependenciesEarlier(g, o)
  }

  lemma {:induction false} OrderIsLinear(g: Dependencies)
    requires Closed(g) && Order(g).Some?
    ensures Linear(g, Order(g).value)
    decreases |g|
  {
    if g != map[] {
      DropShrinks(g);
      OrderIsLinear(Drop(g));
      LayerThenLinear(g, Order(Drop(g)).value);
    }
  }

  lemma LayerThenLinear(g: Dependencies, rest: seq<string>)
    requires Closed(g) && Linear(Drop(g), rest)
    ensures Linear(g, Sorted(Ready(g)) + rest)
  {
    var first := Sorted(Ready(g));
    SortedDistinct(Ready(g));
    DistinctConcat(first, rest);
    assert SameElements(g, first + rest) by {
      assert forall x :: x in first + rest <==> x in first || x in rest;
    }
    LayersKeepOrder(g, first, rest);
  }

  lemma LayersKeepOrder(g: Dependencies, first: seq<string>, rest: seq<string>)
    requires Linear(Drop(g), rest) && first == Sorted(Ready(g)) && SameElements(g, first + rest)
    ensures DependenciesEarlier(g, first + rest)
  {
    var o := first + rest;
    forall i, d | 0 <= i < |o| && d in g[o[i]] ensures d in o[..i] {
      EarlierInLayers(g, first, rest, i, d);
    }
  }

  lemma EarlierInLayers(g: Dependencies, first: seq<string>, rest: seq<string>, i: nat, d: string)
    requires Linear(Drop(g), rest) && first == Sorted(Ready(g))
    requires i < |first + rest| && (first + rest)[i] in g && d in g[(first + rest)[i]]
    ensures d in (first + rest)[..i]
  {
    if i < |first| {
      FirstLayerFree(g, first, i);
    } else {
      LaterLayer(g, first, rest, i - |first|, d);
    }
  }

  lemma FirstLayerFree(g: Dependencies, first: seq<string>, i: nat)
    requires first == Sorted(Ready(g)) && i < |first|
    ensures first[i] in g && g[first[i]] == {}
  {
    assert first[i] in first;
  }

  lemma DistinctConcat(a: seq<string>, b: seq<string>)
    requires Distinct(a) && Distinct(b) && forall x :: x in a ==> x !in b
    ensures Distinct(a + b)
  {
    forall i, j | 0 <= i < j < |a + b| ensures (a + b)[i] != (a + b)[j] {
      if i < |a| <= j { assert a[i] in a && b[j - |a|] in b; }
    }
  }

  lemma LaterLayer(g: Dependencies, first: seq<string>, rest: seq<string>, i: nat, d: string)
    requires i < |rest| && Linear(Drop(g), rest) && first == Sorted(Ready(g))
    requires rest[i] in g && d in g[rest[i]]
    ensures d in (first + rest)[..i + |first|]
  {
    assert rest[i] in rest;
    assert (first + rest)[..i + |first|] == first + rest[..i];
    if d !in Ready(g) {
      assert d in Drop(g)[rest[i]];
      assert d in rest[..i];
    } else {
      assert d in first;
    }
  }

  /* ---------- completeness: it fails exactly on cycles ---------- */

  /** Each step depends on the next, and the last on the first. */
  predicate Cycle(g: Dependencies, c: seq<string>)
  {
    && c != []
    && (forall i :: 0 <= i < |c| ==> c[i] in g)
    && (forall i :: 0 <= i < |c| - 1 ==> c[i + 1] in g[c[i]])
    && c[0] in g[c[|c| - 1]]
  }

  function Position(o: seq<string>, x: string): (p: nat)
    requires x in o
    ensures p < |o| && o[p] == x
  {
    if o[0] == x then 0 else 1 + Position(o[1..], x)
  }

  lemma EarlierPosition(g: Dependencies, o: seq<string>, k: string, d: string)
    requires Linear(g, o) && k in g && d in g[k]
    ensures d in o && k in o && Position(o, d) < Position(o, k)
  {
    var i := Position(o, k);
    var j :| 0 <= j < i && o[..i][j] == d;
    assert o[j] == d && o[Position(o, d)] == d;
  }

  lemma {:induction false} PositionsFall(g: Dependencies, o: seq<string>, c: seq<string>, i: nat)
    requires Linear(g, o) && Cycle(g, c) && i < |c|
    ensures c[0] in o && c[i] in o && Position(o, c[i]) <= Position(o, c[0]) - i
  {
    assert c[0] in g && c[i] in g;
    if i > 0 {
      PositionsFall(g, o, c, i - 1);
      EarlierPosition(g, o, c[i - 1], c[i]);
    }
  }

  lemma LinearHasNoCycle(g: Dependencies, o: seq<string>, c: seq<string>)
    requires Linear(g, o)
    ensures !Cycle(g, c)
  {
    if Cycle(g, c) {
      PositionsFall(g, o, c, |c| - 1);
      EarlierPosition(g, o, c[|c| - 1], c[0]);
    }
  }

  /** Follow any dependency, n times. */
  ghost function WalkBack(g: Dependencies, k: string, n: nat): (w: seq<string>)
    requires Closed(g) && k in g && Ready(g) == {}
    ensures |w| == n + 1 && w[0] == k
    ensures forall i :: 0 <= i < |w| ==> w[i] in g
    ensures forall i :: 0 <= i < |w| - 1 ==> w[i + 1] in g[w[i]]
    decreases n
  {
    if n == 0 then [k]
    else
      assert g[k] != {} by { assert k !in Ready(g); }
      var d :| d in g[k];
      [k] + WalkBack(g, d, n - 1)
  }

  lemma {:induction false} Pigeonhole(w: seq<string>, s: set<string>)
    requires |w| > |s| && forall i :: 0 <= i < |w| ==> w[i] in s
    ensures !Distinct(w)
    decreases |w|
  {
    if Distinct(w) {
      var last := w[|w| - 1];
      var shorter := w[..|w| - 1];
      forall i | 0 <= i < |shorter| ensures shorter[i] in s - {last} {
        assert w[i] != w[|w| - 1];
      }
      Pigeonhole(shorter, s - {last});
    }
  }

  lemma StuckHasCycle(g: Dependencies) returns (c: seq<string>)
    requires Closed(g) && g != map[] && Ready(g) == {}
    ensures Cycle(g, c)
  {
    var k :| k in g;
    var w := WalkBack(g, k, |g.Keys|);
    Pigeonhole(w, g.Keys);
    var i, j :| 0 <= i < j < |w| && w[i] == w[j];
    c := w[i..j];
    assert c[0] == w[i] && c[|c| - 1] == w[j - 1] && w[j] in g[w[j - 1]];
  }

  lemma {:induction false} FailureHasCycle(g: Dependencies) returns (c: seq<string>)
    requires Closed(g) && Order(g).None?
    ensures Cycle(g, c)
    decreases |g|
  {
    if Ready(g) == {} {
      c := StuckHasCycle(g);
    } else {
      DropShrinks(g);
      c := FailureHasCycle(Drop(g));
      forall i | 0 <= i < |c| - 1 ensures c[i + 1] in g[c[i]] {
        assert c[i + 1] in Drop(g)[c[i]];
      }
    }
  }

  /** The sort raises exactly when the dependency graph has a cycle. */
  lemma OrderFailsIffCyclic(g: Dependencies)
    requires Closed(g)
    ensures Order(g).None? <==> exists c :: Cycle(g, c)
  {
    if Order(g).None? {
      var c := FailureHasCycle(g);
    } else {
      OrderIsLinear(g);
      forall c ensures !Cycle(g, c) {
        LinearHasNoCycle(g, Order(g).value, c);
      }
    }
  }

  /* ---------- layers and chains ---------- */

  /** The round in which a step is popped, counting from 1. */
  function Layer(g: Dependencies, k: string): (n: nat)
    requires Order(g).Some? && k in g
    ensures n >= 1
    decreases |g|
  {
    if k in Ready(g) then 1
    else
      DropShrinks(g);
      1 + Layer(Drop(g), k)
  }

  lemma LayerAbove(g: Dependencies, k: string, d: string)
    requires Closed(g) && Order(g).Some? && k in g && d in g[k]
    ensures Layer(g, d) < Layer(g, k)
    decreases |g|
  {
    assert k !in Ready(g) && k in Drop(g);
    DropShrinks(g);
    if d !in Ready(g) {
      assert d in Drop(g)[k];
      LayerAbove(Drop(g), k, d);
    }
  }

  lemma {:induction false} LayerJustAbove(g: Dependencies, k: string) returns (d: string)
    requires Closed(g) && Order(g).Some? && k in g && g[k] != {}
    ensures d in g[k] && Layer(g, k) == Layer(g, d) + 1
    decreases |g|
  {
    assert k !in Ready(g) && k in Drop(g);
    DropShrinks(g);
    if Drop(g)[k] == {} {
      d :| d in g[k];
      assert d in Ready(g);
      assert k in Ready(Drop(g));
    } else {
      d := LayerJustAbove(Drop(g), k);
    }
  }

  /** A dependency chain that ends at k: each element is a dependency of the next. */
  predicate Chain(g: Dependencies, c: seq<string>, k: string)
  {
    && c != [] && c[|c| - 1] == k
    && (forall i :: 0 <= i < |c| ==> c[i] in g)
    && forall i :: 0 <= i < |c| - 1 ==> c[i] in g[c[i + 1]]
  }

  lemma {:induction false} ChainsAreShort(g: Dependencies, c: seq<string>, k: string)
    requires Closed(g) && Order(g).Some? && Chain(g, c, k)
    ensures |c| <= Layer(g, k)
    decreases |c|
  {
    if |c| > 1 {
      var init := c[..|c| - 1];
      assert Chain(g, init, c[|c| - 2]);
      ChainsAreShort(g, init, c[|c| - 2]);
      assert c[|c| - 2] in g[c[|c| - 1]];
      LayerAbove(g, k, c[|c| - 2]);
    }
  }

  lemma ChainExtends(g: Dependencies, init: seq<string>, d: string, k: string)
    requires Chain(g, init, d) && k in g && d in g[k]
    ensures Chain(g, init + [k], k)
  {
    var c := init + [k];
    forall i | 0 <= i < |c| - 1 ensures c[i] in g[c[i + 1]] {
      if i == |init| - 1 { assert c[i] == d; }
    }
  }

  lemma {:induction false} ChainOfLayerLength(g: Dependencies, k: string) returns (c: seq<string>)
    requires Closed(g) && Order(g).Some? && k in g
    ensures Chain(g, c, k) && |c| == Layer(g, k)
    decreases Layer(g, k)
  {
    if g[k] == {} {
      c := [k];
      assert k in Ready(g);
    } else {
      var d := LayerJustAbove(g, k);
      assert d in g;
      c := ChainOfLayerLength(g, d);
      ChainExtends(g, c, d, k);
      c := c + [k];
    }
  }

  /** A step's layer is the length of the longest dependency chain that ends there. */
  lemma LayerIsLongestChain(g: Dependencies, k: string)
    requires Closed(g) && Order(g).Some? && k in g
    ensures exists c :: Chain(g, c, k) && |c| == Layer(g, k)
    ensures forall c :: Chain(g, c, k) ==> |c| <= Layer(g, k)
  {
    var longest := ChainOfLayerLength(g, k);
    forall c | Chain(g, c, k) ensures |c| <= Layer(g, k) {
      ChainsAreShort(g, c, k);
    }
  }

  /* ---------- ancestors ---------- */

  /** a is a direct or indirect dependency of k. */
  ghost predicate Ancestor(g: Dependencies, a: string, k: string)
  {
    exists c :: Chain(g, c, k) && |c| >= 2 && c[0] == a
  }

  lemma DependencyIsAncestor(g: Dependencies, d: string, k: string)
    requires k in g && d in g && d in g[k]
    ensures Ancestor(g, d, k)
  {
    assert Chain(g, [d, k], k);
  }

  /** Either a direct dependency, or an ancestor of one. */
  lemma AncestorSplits(g: Dependencies, a: string, k: string) returns (d: string)
    requires Ancestor(g, a, k)
    ensures k in g && d in g[k] && d in g && (a == d || Ancestor(g, a, d))
  {
    var c :| Chain(g, c, k) && |c| >= 2 && c[0] == a;
    d := c[|c| - 2];
    assert c[|c| - 2] in g[c[|c| - 1]];
    var init := c[..|c| - 1];
    assert Chain(g, init, d);
    if |init| >= 2 {
      assert init[0] == a;
    }
  }

  lemma {:induction false} AncestorsComeFirst(g: Dependencies, o: seq<string>, a: string, i: nat)
    requires Linear(g, o) && i < |o| && Ancestor(g, a, o[i])
    ensures a in o[..i]
    decreases i
  {
    var d := AncestorSplits(g, a, o[i]);
    assert d in o[..i];
    var j :| 0 <= j < i && o[..i][j] == d;
    if a != d {
      AncestorsComeFirst(g, o, a, j);
      assert o[..j] <= o[..i];
      var m :| 0 <= m < j && o[..j][m] == a;
      assert o[..i][m] == a;
    }
  }
}
