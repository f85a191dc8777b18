/** What sharing means for a mapped payload: exactly when a call leaves every older object as it was and gives the
    payload of the rules on values, what follows for targets, rule order and whole plans, and what happens otherwise. */
module MappingLaws {
  import opened Wrappers
  import opened Json
  import opened Text
  import opened JsonPath
  import opened Mapping
  import opened Objects
  import opened Sharing
  import opened SharedMapping

  /* ---------- the exact condition ---------- */

  /** Peacefulness of a whole call: the payload starts as an empty dictionary of its own. */
  predicate PeacefulCall(source: Value, rs: seq<MappingRule>, apply: Transform)
  {
    Peaceful(source, rs, apply, map[], Made(map[]))
  }

  /** A heap without dangling references in which live source and rules stand for the given ones. */
  ghost predicate Callable(h: Heap, live: Node, source: Value, rules: seq<SharedRule>, rs: seq<MappingRule>)
  {
    Apart(h, |h|) && Ready(h, |h|, live, source, rules, rs)
  }

  lemma OutputAdded(h: Heap, live: Node, source: Value, rules: seq<SharedRule>, rs: seq<MappingRule>)
    requires Callable(h, live, source, rules, rs)
    ensures var start := h + [map[]];
            Calm(h, start, |h|) && Apart(start, |h|) && Ready(start, |h|, live, source, rules, rs)
  {
    SameBelowIsCalm(h, h + [map[]], |h|);
    forall i | 0 <= i < |rs| ensures SameRule(h + [map[]], |h|, rules[i], rs[i]) {
      assert SameRule(h, |h|, rules[i], rs[i]);
    }
  }

  /** Every rule leaves the source, the defaults, the configuration and all other older objects as they were if and
      only if no rule writes something new strictly below a shared object; then the payload is that of the rules on
      values, with the same error if one is raised. */
  lemma SourceKeptIff(h: Heap, live: Node, source: Value, rules: seq<SharedRule>, rs: seq<MappingRule>,
                      t: SharedTransform, apply: Transform)
    requires Callable(h, live, source, rules, rs) && Lifts(t, apply, live, source)
    ensures Undisturbed(h + [map[]], |h|, live, rules, t) <==> PeacefulCall(source, rs, apply)
    ensures PeacefulCall(source, rs, apply) ==> Agrees(h, |h|, MapShared(h, live, rules, t), MapAll(source, rs, apply, map[]))
  {
    var start := h + [map[]];
    OutputAdded(h, live, source, rules, rs);
    RunIff(start, map[|h| := []], |h|, live, source, rules, rs, t, apply, Made(map[]), map[]);
    if PeacefulCall(source, rs, apply) {
      CalmTwice(h, start, MapShared(h, live, rules, t).heap, |h|);
    }
  }

  /* ---------- a condition on the targets alone ---------- */

  /** No target lies strictly below the target of an earlier rule. */
  predicate NoneBelow(rules: seq<MappingRule>)
  {
    forall i, j :: 0 <= i < j < |rules| && PathTokens(rules[i].target) <= PathTokens(rules[j].target) ==>
      PathTokens(rules[i].target) == PathTokens(rules[j].target)
  }

  /** A write along the path ends before it meets a shared object. */
  predicate Clear(shape: Shape, tokens: seq<string>)
    decreases |tokens|
  {
    shape.Made? && (|tokens| >= 2 && tokens[0] in shape.members ==> Clear(shape.members[tokens[0]], tokens[1..]))
  }

  lemma {:induction false} ClearWrite(shape: Shape, m: Members, tokens: seq<string>, v: Value)
    requires tokens != [] && Clear(shape, tokens)
    ensures !Disturbs(shape, m, tokens, v)
    decreases |tokens|
  {
    if |tokens| > 1 {
      ClearWrite(ShapeBelow(shape, m, tokens[0]), Descend(m, tokens[0]), tokens[1..], v);
    }
  }

  lemma {:induction false} ClearKept(shape: Shape, m: Members, a: seq<string>, b: seq<string>)
    requires a != [] && Clear(shape, b) && (a <= b ==> a == b)
    ensures Clear(ShapeAfter(shape, m, a), b)
    decreases |a|
  {
    if |b| >= 2 && a[0] == b[0] {
      assert a == [a[0]] + a[1..] && b == [b[0]] + b[1..];
      if |a| >= 2 {
        ClearKept(ShapeBelow(shape, m, a[0]), Descend(m, a[0]), a[1..], b[1..]);
      }
    }
  }

  lemma NoneBelowTail(rules: seq<MappingRule>)
    requires NoneBelow(rules) && rules != []
    ensures NoneBelow(rules[1..])
  {
    forall i, j | 0 <= i < j < |rules| - 1 && PathTokens(rules[1..][i].target) <= PathTokens(rules[1..][j].target)
      ensures PathTokens(rules[1..][i].target) == PathTokens(rules[1..][j].target)
    {
      assert rules[1..][i] == rules[i + 1] && rules[1..][j] == rules[j + 1];
    }
  }

  predicate AllClear(shape: Shape, rules: seq<MappingRule>)
  {
    forall i :: 0 <= i < |rules| ==> PathTokens(rules[i].target) != [] ==> Clear(shape, PathTokens(rules[i].target))
  }

  lemma AllClearKept(rules: seq<MappingRule>, output: Members, shape: Shape, v: Value)
    requires NoneBelow(rules) && rules != [] && AllClear(shape, rules)
    ensures AllClear(PathShape(shape, output, rules[0].target, v), rules[1..])
  {
    var a := PathTokens(rules[0].target);
    forall i | 0 <= i < |rules| - 1 && PathTokens(rules[1..][i].target) != []
      ensures Clear(PathShape(shape, output, rules[0].target, v), PathTokens(rules[1..][i].target))
    {
      var b := PathTokens(rules[i + 1].target);
      assert a <= b ==> a == b;
      if a != [] {
        ClearKept(shape, output, a, b);
      }
    }
  }

  lemma {:induction false} NoneBelowRuns(source: Value, rules: seq<MappingRule>, apply: Transform, output: Members, shape: Shape)
    requires NoneBelow(rules) && AllClear(shape, rules)
    ensures Peaceful(source, rules, apply, output, shape)
    decreases |rules|
  {
    if rules != [] && RuleValue(source, rules[0], apply).Success? {
      var v, path := RuleValue(source, rules[0], apply).value, rules[0].target;
      if SetPath(output, path, v).Some? {
        if PathTokens(path) != [] {
          ClearWrite(shape, output, PathTokens(path), v);
        }
        NoneBelowTail(rules);
        AllClearKept(rules, output, shape, v);
        NoneBelowRuns(source, rules[1..], apply, SetPath(output, path, v).value, PathShape(shape, output, path, v));
      }
    }
  }

  /** Rules none of which writes strictly below an earlier target are peaceful, whatever the source; prefix-free
      targets are a case of it. */
  lemma NoneBelowIsPeaceful(source: Value, rules: seq<MappingRule>, apply: Transform)
    requires NoneBelow(rules) || PrefixFree(rules)
    ensures PeacefulCall(source, rules, apply)
  {
    if PrefixFree(rules) {
      forall i, j | 0 <= i < j < |rules| ensures !(PathTokens(rules[i].target) <= PathTokens(rules[j].target)) {
        assert Unrelated(PathTokens(rules[i].target), PathTokens(rules[j].target));
      }
    }
    NoneBelowRuns(source, rules, apply, map[], Made(map[]));
  }

  /* ---------- targets ---------- */

  /** With prefix-free targets, every target of the live payload reads its own rule's value. */
  lemma EveryTargetReadsItsValue(h: Heap, live: Node, source: Value, rules: seq<SharedRule>, rs: seq<MappingRule>,
                                 t: SharedTransform, apply: Transform, k: nat)
    requires Callable(h, live, source, rules, rs) && Lifts(t, apply, live, source)
    requires PrefixFree(rs) && k < |rs| && rs[k].target != "$"
    requires MapShared(h, live, rules, t).error == None
    ensures RuleValue(source, rs[k], apply).Success?
    ensures var after := MapShared(h, live, rules, t).heap;
            Same(after, Read(after, Dict(|h|), rs[k].target), Some(RuleValue(source, rs[k], apply).value))
  {
    var after := MapShared(h, live, rules, t).heap;
    NoneBelowIsPeaceful(source, rs, apply);
    SourceKeptIff(h, live, source, rules, rs, t, apply);
    EveryTargetHoldsItsValue(source, rs, apply, map[], k);
    ReadSame(after, Dict(|h|), Obj(MapAll(source, rs, apply, map[]).value), rs[k].target);
  }

  /* ---------- the order of rules ---------- */

  lemma BelowAfter(shape: Shape, m: Members, a: seq<string>, token: string, v: Value)
    requires a != [] && shape.Made? && (a[0] == token ==> |a| >= 2)
    ensures var below, inner := ShapeBelow(shape, m, token), Descend(m, token);
            Descend(Assign(m, a, v), token) == (if a[0] == token then Assign(inner, a[1..], v) else inner) &&
            ShapeBelow(ShapeAfter(shape, m, a), Assign(m, a, v), token)
              == (if a[0] == token then ShapeAfter(below, inner, a[1..]) else below)
  {
  }

  /** Neither of two writes, done one after the other, disturbs. */
  predicate BothQuiet(shape: Shape, m: Members, a: seq<string>, b: seq<string>, x: Value, y: Value)
    requires a != [] && b != []
  {
    !Disturbs(shape, m, a, x) && !Disturbs(ShapeAfter(shape, m, a), Assign(m, a, x), b, y)
  }

  function ShapeTwice(shape: Shape, m: Members, a: seq<string>, b: seq<string>, x: Value): Shape
    requires a != [] && b != []
  {
    ShapeAfter(ShapeAfter(shape, m, a), Assign(m, a, x), b)
  }

  lemma SameHead(shape: Shape, m: Members, a: seq<string>, b: seq<string>, x: Value, y: Value)
    requires |a| >= 2 && |b| >= 2 && a[0] == b[0] && shape.Made?
    ensures var below, inner := ShapeBelow(shape, m, a[0]), Descend(m, a[0]);
            (BothQuiet(shape, m, a, b, x, y) <==> BothQuiet(below, inner, a[1..], b[1..], x, y)) &&
            ShapeTwice(shape, m, a, b, x) == Made(shape.members[a[0] := ShapeTwice(below, inner, a[1..], b[1..], x)])
  {
    BelowAfter(shape, m, a, a[0], x);
    var below, inner := ShapeBelow(shape, m, a[0]), Descend(m, a[0]);
    var once, twice := ShapeAfter(below, inner, a[1..]), ShapeTwice(below, inner, a[1..], b[1..], x);
    assert shape.members[a[0] := once][b[0] := twice] == shape.members[a[0] := twice];
  }

  /** The shape a write stores under its first token. */
  function StoredShape(shape: Shape, m: Members, a: seq<string>): Shape
    requires a != [] && shape.Made?
  {
    if |a| == 1 then Shared else ShapeAfter(ShapeBelow(shape, m, a[0]), Descend(m, a[0]), a[1..])
  }

  lemma OtherHead(shape: Shape, m: Members, a: seq<string>, b: seq<string>, x: Value, y: Value)
    requires a != [] && b != [] && a[0] != b[0] && shape.Made?
    ensures BothQuiet(shape, m, a, b, x, y) <==> !Disturbs(shape, m, a, x) && !Disturbs(shape, m, b, y)
    ensures ShapeTwice(shape, m, a, b, x)
         == Made(shape.members[a[0] := StoredShape(shape, m, a)][b[0] := StoredShape(shape, m, b)])
  {
    BelowAfter(shape, m, a, b[0], x);
  }

  /** Writes to unrelated paths are undisturbing in both orders or in neither, and give the same shape. */
  lemma {:induction false} DisturbsCommutes(shape: Shape, m: Members, a: seq<string>, b: seq<string>, x: Value, y: Value)
    requires Unrelated(a, b) && a != [] && b != []
    ensures BothQuiet(shape, m, a, b, x, y) <==> BothQuiet(shape, m, b, a, y, x)
    ensures ShapeTwice(shape, m, a, b, x) == ShapeTwice(shape, m, b, a, y)
    decreases |a|
  {
    UnrelatedTails(a, b);
    if shape.Made? {
      if a[0] == b[0] {
        SameHead(shape, m, a, b, x, y);
        SameHead(shape, m, b, a, y, x);
        DisturbsCommutes(ShapeBelow(shape, m, a[0]), Descend(m, a[0]), a[1..], b[1..], x, y);
      } else {
        HeadsApart(shape, m, a, b, x, y);
      }
    }
  }

  lemma HeadsApart(shape: Shape, m: Members, a: seq<string>, b: seq<string>, x: Value, y: Value)
    requires a != [] && b != [] && a[0] != b[0] && shape.Made?
    ensures BothQuiet(shape, m, a, b, x, y) <==> BothQuiet(shape, m, b, a, y, x)
    ensures ShapeTwice(shape, m, a, b, x) == ShapeTwice(shape, m, b, a, y)
  {
    OtherHead(shape, m, a, b, x, y);
    OtherHead(shape, m, b, a, y, x);
    UpdatesCommute(shape.members, a[0], b[0], StoredShape(shape, m, a), StoredShape(shape, m, b));
  }

  lemma UpdatesCommute(members: map<string, Shape>, a: string, b: string, p: Shape, q: Shape)
    requires a != b
    ensures members[a := p][b := q] == members[b := q][a := p]
  {
  }

  /** Peace rule by rule. */
  lemma PeaceStep(source: Value, rules: seq<MappingRule>, apply: Transform, output: Members, shape: Shape)
    requires rules != [] && RuleValue(source, rules[0], apply).Success?
    requires SetPath(output, rules[0].target, RuleValue(source, rules[0], apply).value).Some?
    ensures var v, path := RuleValue(source, rules[0], apply).value, rules[0].target;
            Peaceful(source, rules, apply, output, shape) <==>
              !PathDisturbs(shape, output, path, v) &&
              Peaceful(source, rules[1..], apply, SetPath(output, path, v).value, PathShape(shape, output, path, v))
  {
  }

  /** The first two rules of a peaceful run, done. */
  lemma TwoPeaceful(source: Value, rules: seq<MappingRule>, apply: Transform, output: Members, shape: Shape)
    requires |rules| >= 2 && PathTokens(rules[0].target) != [] && PathTokens(rules[1].target) != []
    requires RuleValue(source, rules[0], apply).Success? && RuleValue(source, rules[1], apply).Success?
    ensures var a, b := PathTokens(rules[0].target), PathTokens(rules[1].target);
            var x, y := RuleValue(source, rules[0], apply).value, RuleValue(source, rules[1], apply).value;
            Peaceful(source, rules, apply, output, shape) <==>
              BothQuiet(shape, output, a, b, x, y) &&
              Peaceful(source, rules[2..], apply, Assign(Assign(output, a, x), b, y), ShapeTwice(shape, output, a, b, x))
  {
    var a, x := PathTokens(rules[0].target), RuleValue(source, rules[0], apply).value;
    assert rules[1..][0] == rules[1] && rules[1..][1..] == rules[2..];
    PeaceStep(source, rules, apply, output, shape);
    PeaceStep(source, rules[1..], apply, Assign(output, a, x), ShapeAfter(shape, output, a));
  }

  lemma FirstTwoPeaceful(source: Value, rules: seq<MappingRule>, apply: Transform, output: Members, shape: Shape)
    requires |rules| >= 2 && Unrelated(PathTokens(rules[0].target), PathTokens(rules[1].target))
    requires MapAll(source, rules, apply, output).Success?
    ensures Peaceful(source, Exchanged(rules, 0), apply, output, shape) <==> Peaceful(source, rules, apply, output, shape)
  {
    var a, b := PathTokens(rules[0].target), PathTokens(rules[1].target);
    UnrelatedTails(a, b);
    assert rules[1..][0] == rules[1];
    var x, y := RuleValue(source, rules[0], apply).value, RuleValue(source, rules[1], apply).value;
    TwoPeaceful(source, rules, apply, output, shape);
    TwoPeaceful(source, Exchanged(rules, 0), apply, output, shape);
    DisturbsCommutes(shape, output, a, b, x, y);
    AssignCommutes(output, a, b, x, y);
    assert Exchanged(rules, 0)[2..] == rules[2..];
  }

  /** The shape after a list of rules. */
  function ShapeAll(source: Value, rules: seq<MappingRule>, apply: Transform, output: Members, shape: Shape): Shape
    requires MapAll(source, rules, apply, output).Success?
    decreases |rules|
  {
    if rules == [] then shape
    else
      ShapeAll(source, rules[1..], apply, AfterFirst(source, rules, apply, output),
               PathShape(shape, output, rules[0].target, RuleValue(source, rules[0], apply).value))
  }

  /** A list of rules is peaceful when its two parts are, one after the other. */
  lemma {:induction false} PeacefulConcat(source: Value, a: seq<MappingRule>, b: seq<MappingRule>, apply: Transform,
                                          output: Members, shape: Shape)
    requires MapAll(source, a, apply, output).Success?
    ensures Peaceful(source, a + b, apply, output, shape) <==>
              Peaceful(source, a, apply, output, shape) &&
              Peaceful(source, b, apply, MapAll(source, a, apply, output).value, ShapeAll(source, a, apply, output, shape))
    decreases |a|
  {
    if a == [] {
      assert a + b == b;
    } else {
      assert (a + b)[0] == a[0] && (a + b)[1..] == a[1..] + b;
      FirstRule(source, a, apply, output);
      var v, next := RuleValue(source, a[0], apply).value, AfterFirst(source, a, apply, output);
      PeacefulConcat(source, a[1..], b, apply, next, PathShape(shape, output, a[0].target, v));
      PeaceStep(source, a, apply, output, shape);
      PeaceStep(source, a + b, apply, output, shape);
    }
  }

  /** Exchanging two neighbouring rules with unrelated targets neither breaks the peace nor makes it. */
  lemma PeacefulExchanged(source: Value, rules: seq<MappingRule>, apply: Transform, output: Members, shape: Shape, k: nat)
    requires k + 1 < |rules| && Unrelated(PathTokens(rules[k].target), PathTokens(rules[k + 1].target))
    requires MapAll(source, rules, apply, output).Success?
    ensures Peaceful(source, Exchanged(rules, k), apply, output, shape) <==> Peaceful(source, rules, apply, output, shape)
  {
    var before, after := rules[..k], rules[k..];
    ExchangedSplit(rules, k);
    MapAllConcat(source, before, after, apply, output);
    var middle, shapeThen := MapAll(source, before, apply, output).value, ShapeAll(source, before, apply, output, shape);
    PeacefulConcat(source, before, after, apply, output, shape);
    PeacefulConcat(source, before, Exchanged(after, 0), apply, output, shape);
    FirstTwoPeaceful(source, after, apply, middle, shapeThen);
  }

  /** The same live rules with one adjacent pair exchanged. */
  function ExchangedLive(rules: seq<SharedRule>, k: nat): seq<SharedRule>
    requires k + 1 < |rules|
  {
    rules[k := rules[k + 1]][k + 1 := rules[k]]
  }

  lemma ExchangedStand(h: Heap, o: nat, rules: seq<SharedRule>, rs: seq<MappingRule>, k: nat)
    requires SameRules(h, o, rules, rs) && k + 1 < |rs|
    ensures SameRules(h, o, ExchangedLive(rules, k), Exchanged(rs, k))
  {
    forall i | 0 <= i < |rs| ensures SameRule(h, o, ExchangedLive(rules, k)[i], Exchanged(rs, k)[i]) {
      assert SameRule(h, o, rules[if i == k then k + 1 else if i == k + 1 then k else i],
                            rs[if i == k then k + 1 else if i == k + 1 then k else i]);
    }
  }

  /** In a peaceful call, two neighbouring rules with unrelated targets may be exchanged: both orders finish with
      payloads that stand for one value, and neither changes an older object. */
  lemma RuleOrderIrrelevant(h: Heap, live: Node, source: Value, rules: seq<SharedRule>, rs: seq<MappingRule>,
                            t: SharedTransform, apply: Transform, k: nat)
    requires Callable(h, live, source, rules, rs) && Lifts(t, apply, live, source)
    requires k + 1 < |rs| && Unrelated(PathTokens(rs[k].target), PathTokens(rs[k + 1].target))
    requires PeacefulCall(source, rs, apply) && MapShared(h, live, rules, t).error == None
    ensures MapAll(source, rs, apply, map[]).Success?
    ensures Agrees(h, |h|, MapShared(h, live, rules, t), MapAll(source, rs, apply, map[]))
    ensures Agrees(h, |h|, MapShared(h, live, ExchangedLive(rules, k), t), MapAll(source, rs, apply, map[]))
  {
    SourceKeptIff(h, live, source, rules, rs, t, apply);
    PeacefulExchanged(source, rs, apply, map[], Made(map[]), k);
    ExchangeKeepsMapAll(source, rs, apply, map[], k);
    ExchangedStand(h, |h|, rules, rs, k);
    SourceKeptIff(h, live, source, ExchangedLive(rules, k), Exchanged(rs, k), t, apply);
  }

  /* ---------- a call that is not peaceful ---------- */

  /** The source `{"a": {"k": 1}, "b": 5}`. */
  function LiveSource(): Heap
  {
    [map["a" := Dict(1), "b" := Leaf(Num(5.0))], map["k" := Leaf(Num(1.0))]]
  }

  function SourceValue(k: real): Value
  {
    Obj(map["a" := Obj(map["k" := Num(k)]), "b" := Num(5.0)])
  }

  function Payload(k: real, z: real): Members
  {
    map["x" := Obj(map["k" := Num(k)]), "z" := Num(z)]
  }

  function LiveRule(source: string, target: string): SharedRule
  {
    SharedRule(source, target, false, Leaf(Null), [])
  }

  function PlainRule(source: string, target: string): MappingRule
  {
    MappingRule(source, target, false, Null, [])
  }

  /** `a` to `x`, `b` to `x.k`, `a.k` to `z`. */
  function LiveRules(): seq<SharedRule>
  {
    [LiveRule("a", "x"), LiveRule("b", "x.k"), LiveRule("a.k", "z")]
  }

  function PlainRules(): seq<MappingRule>
  {
    [PlainRule("a", "x"), PlainRule("b", "x.k"), PlainRule("a.k", "z")]
  }

  lemma Paths()
    ensures PathTokens("a") == ["a"] && PathTokens("b") == ["b"] && PathTokens("x") == ["x"] && PathTokens("z") == ["z"]
    ensures PathTokens("x.k") == ["x", "k"] && PathTokens("a.k") == ["a", "k"]
  {
    OnePartPath("a");
    OnePartPath("b");
    OnePartPath("x");
    OnePartPath("z");
    TwoPartPath("x", "k");
    TwoPartPath("a", "k");
    assert "x" + "." + "k" == "x.k" && "a" + "." + "k" == "a.k";
  }

  /** A rule that copies from one path to another and does nothing else. */
  predicate Copies(rule: SharedRule, from: seq<string>, to: seq<string>)
  {
    rule.transforms == [] && !rule.required && rule.source !in {"", "$", "."} &&
    PathTokens(rule.source) == from && PathTokens(rule.target) == to != []
  }

  predicate PlainCopies(rule: MappingRule, from: seq<string>, to: seq<string>)
  {
    rule.transforms == [] && !rule.required && rule.source !in {"", "$", "."} &&
    PathTokens(rule.source) == from && PathTokens(rule.target) == to != []
  }

  lemma RulesCopy()
    ensures Copies(LiveRule("a", "x"), ["a"], ["x"]) && PlainCopies(PlainRule("a", "x"), ["a"], ["x"])
    ensures Copies(LiveRule("b", "x.k"), ["b"], ["x", "k"]) && PlainCopies(PlainRule("b", "x.k"), ["b"], ["x", "k"])
    ensures Copies(LiveRule("a.k", "z"), ["a", "k"], ["z"]) && PlainCopies(PlainRule("a.k", "z"), ["a", "k"], ["z"])
  {
    Paths();
  }

  lemma LiveStep(h: Heap, output: nat, rule: SharedRule, from: seq<string>, to: seq<string>, n: Node, t: SharedTransform)
    requires output < |h| && Copies(rule, from, to) && Reach(h, Dict(0), from) == Some(n)
    ensures SharedStep(h, output, Dict(0), rule, t) == Success(Write(h, output, to, n))
  {
  }

  /** Source and payload on the heap, with the value of `a.k` and, once stored, of `z`. */
  function State(k: real, z: Option<real>): Heap
  {
    [map["a" := Dict(1), "b" := Leaf(Num(5.0))], map["k" := Leaf(Num(k))],
     if z.Some? then map["x" := Dict(1), "z" := Leaf(Num(z.value))] else map["x" := Dict(1)]]
  }

  lemma StateStands(k: real, z: real)
    ensures Represents(State(k, Some(z)), Dict(2), Obj(Payload(k, z)))
    ensures Represents(State(k, Some(z)), Dict(0), SourceValue(k))
  {
    var h := State(k, Some(z));
    assert h[0].Keys == SourceValue(k).members.Keys && h[2].Keys == Payload(k, z).Keys;
    assert h[1].Keys == Payload(k, z)["x"].members.Keys;
    assert Represents(h, Dict(1), Obj(map["k" := Num(k)]));
  }

  lemma StoreX(rule: SharedRule, t: SharedTransform)
    requires Copies(rule, ["a"], ["x"])
    ensures SharedStep(LiveSource() + [map[]], 2, Dict(0), rule, t) == Success(State(1.0, None))
  {
    var h := LiveSource() + [map[]];
    assert ["a"][1..] == [] && Reach(h, Dict(1), []) == Some(Dict(1));
    LiveStep(h, 2, rule, ["a"], ["x"], Dict(1), t);
    assert h[2]["x" := Dict(1)] == State(1.0, None)[2];
    assert Write(h, 2, ["x"], Dict(1)) == State(1.0, None);
  }

  lemma StoreXK(z: Option<real>, rule: SharedRule, t: SharedTransform)
    requires Copies(rule, ["b"], ["x", "k"])
    ensures SharedStep(State(1.0, z), 2, Dict(0), rule, t) == Success(State(5.0, z))
  {
    var h := State(1.0, z);
    assert ["b"][1..] == [] && Reach(h, Leaf(Num(5.0)), []) == Some(Leaf(Num(5.0)));
    LiveStep(h, 2, rule, ["b"], ["x", "k"], Leaf(Num(5.0)), t);
    assert ["x", "k"][1..] == ["k"] && HoldsDict(h, 2, "x");
    assert h[1]["k" := Leaf(Num(5.0))] == State(5.0, z)[1];
    assert Write(h, 1, ["k"], Leaf(Num(5.0))) == State(5.0, z);
  }

  lemma ReachAK(k: real)
    ensures Reach(State(k, None), Dict(0), ["a", "k"]) == Some(Leaf(Num(k)))
  {
    assert ["a", "k"][1..] == ["k"] && ["k"][1..] == [];
    assert Reach(State(k, None), Leaf(Num(k)), []) == Some(Leaf(Num(k)));
    assert Reach(State(k, None), Dict(1), ["k"]) == Some(Leaf(Num(k)));
  }

  lemma StoreZ(k: real, rule: SharedRule, t: SharedTransform)
    requires Copies(rule, ["a", "k"], ["z"])
    ensures SharedStep(State(k, None), 2, Dict(0), rule, t) == Success(State(k, Some(k)))
  {
    var h := State(k, None);
    ReachAK(k);
    LiveStep(h, 2, rule, ["a", "k"], ["z"], Leaf(Num(k)), t);
    assert h[2]["z" := Leaf(Num(k))] == State(k, Some(k))[2];
    assert Write(h, 2, ["z"], Leaf(Num(k))) == State(k, Some(k));
  }

  lemma ThreeSteps(h: Heap, o: nat, rules: seq<SharedRule>, t: SharedTransform, first: Heap, second: Heap, third: Heap)
    requires |rules| == 3 && o < |h| && o < |first| && o < |second|
    requires SharedStep(h, o, Dict(0), rules[0], t) == Success(first)
    requires SharedStep(first, o, Dict(0), rules[1], t) == Success(second)
    requires SharedStep(second, o, Dict(0), rules[2], t) == Success(third)
    ensures RunShared(h, o, Dict(0), rules, t) == Finished(third, None)
  {
    assert rules[1..][0] == rules[1] && rules[1..][1..] == rules[2..];
    assert rules[2..][0] == rules[2] && rules[2..][1..] == [];
    assert RunShared(third, o, Dict(0), [], t) == Finished(third, None);
    assert RunShared(second, o, Dict(0), rules[2..], t) == Finished(third, None);
  }

  lemma ValueStep(source: Value, rule: MappingRule, from: seq<string>, to: seq<string>, apply: Transform, v: Value)
    requires PlainCopies(rule, from, to) && Lookup(source, from) == Some(v)
    ensures RuleValue(source, rule, apply) == Success(v)
  {
  }

  lemma LookupAK()
    ensures Lookup(SourceValue(1.0), ["a"]) == Some(Obj(map["k" := Num(1.0)]))
    ensures Lookup(SourceValue(1.0), ["b"]) == Some(Num(5.0))
    ensures Lookup(SourceValue(1.0), ["a", "k"]) == Some(Num(1.0))
  {
    var a := Obj(map["k" := Num(1.0)]);
    assert ["a"][1..] == [] && ["b"][1..] == [] && ["k"][1..] == [] && ["a", "k"][1..] == ["k"];
    assert Lookup(a, []) == Some(a) && Lookup(Num(1.0), []) == Some(Num(1.0)) && Lookup(Num(5.0), []) == Some(Num(5.0));
    assert Lookup(a, ["k"]) == Some(Num(1.0));
  }

  /** Three rules with the paths of the example. */
  predicate ThreeRules(rules: seq<MappingRule>)
  {
    |rules| == 3 && PlainCopies(rules[0], ["a"], ["x"]) && PlainCopies(rules[1], ["b"], ["x", "k"]) &&
    PlainCopies(rules[2], ["a", "k"], ["z"])
  }

  lemma Values(rules: seq<MappingRule>, apply: Transform)
    requires ThreeRules(rules)
    ensures RuleValue(SourceValue(1.0), rules[0], apply) == Success(Obj(map["k" := Num(1.0)]))
    ensures RuleValue(SourceValue(1.0), rules[1], apply) == Success(Num(5.0))
    ensures RuleValue(SourceValue(1.0), rules[2], apply) == Success(Num(1.0))
  {
    var source := SourceValue(1.0);
    LookupAK();
    ValueStep(source, rules[0], ["a"], ["x"], apply, Obj(map["k" := Num(1.0)]));
    ValueStep(source, rules[1], ["b"], ["x", "k"], apply, Num(5.0));
    ValueStep(source, rules[2], ["a", "k"], ["z"], apply, Num(1.0));
  }

  lemma SecondWrite()
    ensures var m := map["x" := Obj(map["k" := Num(1.0)])];
            Assign(m, ["x", "k"], Num(5.0)) == map["x" := Obj(map["k" := Num(5.0)])] &&
            Disturbs(Made(map["x" := Shared]), m, ["x", "k"], Num(5.0))
  {
    var inner := map["k" := Num(1.0)];
    assert ["x", "k"][1..] == ["k"];
    assert inner["k" := Num(5.0)] == map["k" := Num(5.0)] && inner["k"] != Num(5.0);
    assert Assign(inner, ["k"], Num(5.0)) == map["k" := Num(5.0)];
    assert Disturbs(Shared, inner, ["k"], Num(5.0));
  }

  lemma ByValue(rules: seq<MappingRule>, apply: Transform)
    requires ThreeRules(rules)
    ensures MapAll(SourceValue(1.0), rules, apply, map[]) == Success(Payload(5.0, 1.0))
  {
    Values(rules, apply);
    SecondWrite();
    var source := SourceValue(1.0);
    var first, second := map["x" := Obj(map["k" := Num(1.0)])], map["x" := Obj(map["k" := Num(5.0)])];
    assert rules[1..][0] == rules[1] && rules[1..][1..] == rules[2..] && rules[2..][1..] == [];
    assert second["z" := Num(1.0)] == Payload(5.0, 1.0);
    assert MapAll(source, rules[2..], apply, second) == MapAll(source, [], apply, Payload(5.0, 1.0));
    assert MapAll(source, rules[1..], apply, first) == MapAll(source, rules[2..], apply, second);
  }

  lemma NotPeaceful(rules: seq<MappingRule>, apply: Transform)
    requires ThreeRules(rules)
    ensures !PeacefulCall(SourceValue(1.0), rules, apply)
  {
    Values(rules, apply);
    SecondWrite();
    var source, first := SourceValue(1.0), map["x" := Obj(map["k" := Num(1.0)])];
    assert rules[1..][0] == rules[1];
    PeaceStep(source, rules, apply, map[], Made(map[]));
    PeaceStep(source, rules[1..], apply, first, Made(map["x" := Shared]));
  }

  /** Rule order matters for these unrelated targets: in the listed order the second rule writes 5 into the source's
      own object and the third reads it back; exchanged, the third reads 1. Either way the source is changed. */
  lemma RuleOrderMatters(t: SharedTransform, apply: Transform)
    ensures Unrelated(PathTokens("x.k"), PathTokens("z")) && !PeacefulCall(SourceValue(1.0), PlainRules(), apply)
    ensures MapAll(SourceValue(1.0), PlainRules(), apply, map[]) == Success(Payload(5.0, 1.0))
    ensures Represents(LiveSource(), Dict(0), SourceValue(1.0))
    ensures var run := MapShared(LiveSource(), Dict(0), LiveRules(), t);
            run.error == None && Represents(run.heap, Dict(2), Obj(Payload(5.0, 5.0))) &&
            Represents(run.heap, Dict(0), SourceValue(5.0))
    ensures var run := MapShared(LiveSource(), Dict(0), ExchangedLive(LiveRules(), 1), t);
            run.error == None && Represents(run.heap, Dict(2), Obj(Payload(5.0, 1.0))) &&
            Represents(run.heap, Dict(0), SourceValue(5.0))
  {
    Paths();
    RulesCopy();
    ByValue(PlainRules(), apply);
    NotPeaceful(PlainRules(), apply);
    SourceStands();
    ListedOrder(LiveRules(), t);
    OtherOrder(LiveRules(), t);
    StateStands(5.0, 5.0);
    StateStands(5.0, 1.0);
  }

  lemma SourceStands()
    ensures Represents(LiveSource(), Dict(0), SourceValue(1.0))
  {
    assert Represents(LiveSource(), Dict(1), Obj(map["k" := Num(1.0)]));
  }

  predicate ThreeLiveRules(rules: seq<SharedRule>)
  {
    |rules| == 3 && Copies(rules[0], ["a"], ["x"]) && Copies(rules[1], ["b"], ["x", "k"]) && Copies(rules[2], ["a", "k"], ["z"])
  }

  lemma ListedOrder(rules: seq<SharedRule>, t: SharedTransform)
    requires ThreeLiveRules(rules)
    ensures MapShared(LiveSource(), Dict(0), rules, t) == Finished(State(5.0, Some(5.0)), None)
  {
    StoreX(rules[0], t);
    StoreXK(None, rules[1], t);
    StoreZ(5.0, rules[2], t);
    ThreeSteps(LiveSource() + [map[]], 2, rules, t, State(1.0, None), State(5.0, None), State(5.0, Some(5.0)));
  }

  lemma OtherOrder(rules: seq<SharedRule>, t: SharedTransform)
    requires ThreeLiveRules(rules)
    ensures MapShared(LiveSource(), Dict(0), ExchangedLive(rules, 1), t) == Finished(State(5.0, Some(1.0)), None)
  {
    StoreX(rules[0], t);
    StoreZ(1.0, rules[2], t);
    StoreXK(Some(1.0), rules[1], t);
    ThreeSteps(LiveSource() + [map[]], 2, ExchangedLive(rules, 1), t,
               State(1.0, None), State(1.0, Some(1.0)), State(5.0, Some(1.0)));
  }
}
