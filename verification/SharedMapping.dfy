/** `MappingEngine.map_payload` as it runs: values are stored by reference, so the payload shares objects with the
    source, the rule defaults and the transform configuration, and a rule can write into them. */
module SharedMapping {
  import opened Wrappers
  import opened Json
  import opened JsonPath
  import opened Mapping
  import opened Objects
  import opened Sharing

  /** A mapping rule whose default and transform specifications are live objects. */
  datatype SharedRule = SharedRule(source: string, target: string, required: bool, default: Node, transforms: seq<Node>)

  /** The transform registry on live objects: it may return the value, a part of its configuration, or a new scalar.
      No built-in transform creates a dictionary or writes to one. */
  type SharedTransform = (Heap, Node, Node) -> Option<Node>

  function SharedTransformed(h: Heap, n: Node, transforms: seq<Node>, t: SharedTransform): Option<Node>
    decreases |transforms|
  {
    if transforms == [] then Some(n)
    else
      match t(h, n, transforms[0])
      case Some(next) => SharedTransformed(h, next, transforms[1..], t)
      case None => None
  }

  /** In the order listed, each on what the one before it gave. */
  lemma {:induction false} SharedTransformsInOrder(h: Heap, n: Node, transforms: seq<Node>, last: Node, t: SharedTransform)
    ensures SharedTransformed(h, n, [], t) == Some(n)
    ensures SharedTransformed(h, n, transforms + [last], t) ==
            match SharedTransformed(h, n, transforms, t) case Some(next) => t(h, next, last) case None => None
    decreases |transforms|
  {
    if transforms == [] {
      assert [] + [last] == [last] && [last][1..] == [];
    } else {
      assert (transforms + [last])[1..] == transforms[1..] + [last];
      if t(h, n, transforms[0]).Some? {
        SharedTransformsInOrder(h, t(h, n, transforms[0]).value, transforms[1..], last, t);
      }
    }
  }

  /** The node one rule writes. */
  function SharedValue(h: Heap, source: Node, rule: SharedRule, t: SharedTransform): Result<Node, MappingError>
  {
    var read := Read(h, source, rule.source);
    var start := if read.Some? then read.value else rule.default;
    if read.None? && rule.required && start == Leaf(Null) then Failure(MissingRequired)
    else
      match SharedTransformed(h, start, rule.transforms, t)
      case None => Failure(TransformFailed)
      case Some(n) => if rule.required && n == Leaf(Null) then Failure(ProducedNone) else Success(n)
  }

  /** One rule: a rule that raises has written nothing. */
  function SharedStep(h: Heap, output: nat, source: Node, rule: SharedRule, t: SharedTransform): (r: Result<Heap, MappingError>)
    requires output < |h|
    ensures r.Success? ==> |h| <= |r.value|
  {
    var n :- SharedValue(h, source, rule, t);
    match WritePath(h, output, rule.target, n)
    case None => Failure(RootAssignment)
    case Some(after) => Success(after)
  }

  /** What a call leaves: the heap and the error it raised, if any. */
  datatype Finished = Finished(heap: Heap, error: Option<MappingError>)

  function RunShared(h: Heap, output: nat, source: Node, rules: seq<SharedRule>, t: SharedTransform): Finished
    requires output < |h|
    decreases |rules|
  {
    if rules == [] then Finished(h, None)
    else
      match SharedStep(h, output, source, rules[0], t)
      case Failure(e) => Finished(h, Some(e))
      case Success(after) => RunShared(after, output, source, rules[1..], t)
  }

  /** `map_payload`: the output is a new dictionary. */
  function MapShared(h: Heap, source: Node, rules: seq<SharedRule>, t: SharedTransform): Finished
  {
    RunShared(h + [map[]], |h|, source, rules, t)
  }

  /** The loop over rules and transforms. */
  method MapPayload(store: Store, source: Node, rules: seq<SharedRule>, t: SharedTransform)
    returns (output: nat, error: Option<MappingError>)
    modifies store
    ensures output == |old(store.objects)|
    ensures Finished(store.objects, error) == MapShared(old(store.objects), source, rules, t)
  {
    output := |store.objects|;
    store.objects := store.objects + [map[]];
    ghost var result := RunShared(store.objects, output, source, rules, t);
    for i := 0 to |rules|
      invariant output < |store.objects|
      invariant result == RunShared(store.objects, output, source, rules[i..], t)
    {
      var rule := rules[i];
      assert rules[i..][0] == rule && rules[i..][1..] == rules[i + 1..];
      var read := store.Get(source, rule.source);
      var value := if read.Some? then read.value else rule.default;
      if read.None? && rule.required && value == Leaf(Null) { return output, Some(MissingRequired); }
      ghost var start := value;
      for j := 0 to |rule.transforms|
        invariant SharedTransformed(store.objects, start, rule.transforms, t)
               == SharedTransformed(store.objects, value, rule.transforms[j..], t)
      {
        assert rule.transforms[j..][1..] == rule.transforms[j + 1..];
        var next := t(store.objects, value, rule.transforms[j]);
        if next.None? { return output, Some(TransformFailed); }
        value := next.value;
      }
      if rule.required && value == Leaf(Null) { return output, Some(ProducedNone); }
      var ok := store.Set(output, rule.target, value);
      if !ok { return output, Some(RootAssignment); }
    }
    return output, None;
  }

  /* ---------- rules and transforms by value and by reference ---------- */

  /** The live rule stands for the rule. */
  predicate SameRule(h: Heap, o: nat, rule: SharedRule, r: MappingRule)
  {
    rule.source == r.source && rule.target == r.target && rule.required == r.required &&
    Stands(h, o, rule.default, r.default) && |rule.transforms| == |r.transforms| &&
    forall i :: 0 <= i < |r.transforms| ==> Stands(h, o, rule.transforms[i], r.transforms[i])
  }

  predicate SameRules(h: Heap, o: nat, rules: seq<SharedRule>, rs: seq<MappingRule>)
  {
    |rules| == |rs| && forall i :: 0 <= i < |rs| ==> SameRule(h, o, rules[i], rs[i])
  }

  ghost predicate SameNode(h: Heap, o: nat, n: Option<Node>, v: Option<Value>)
  {
    match (n, v)
    case (Some(node), Some(value)) => Stands(h, o, node, value)
    case (None, None) => true
    case _ => false
  }

  /** The live transform does what the transform does, as long as the source still stands for its value. */
  ghost predicate Lifts(t: SharedTransform, apply: Transform, live: Node, source: Value)
  {
    forall h: Heap, o: nat, n, v, spec, w ::
      Apart(h, o) && Stands(h, o, live, source) && Stands(h, o, n, v) && Stands(h, o, spec, w) ==>
      SameNode(h, o, t(h, n, spec), apply(v, w))
  }

  lemma {:induction false} TransformedSame(h: Heap, o: nat, live: Node, source: Value, n: Node, v: Value,
                                           specs: seq<Node>, ws: seq<Value>, t: SharedTransform, apply: Transform)
    requires Lifts(t, apply, live, source) && Apart(h, o) && Stands(h, o, live, source) && Stands(h, o, n, v)
    requires |specs| == |ws| && forall i :: 0 <= i < |ws| ==> Stands(h, o, specs[i], ws[i])
    ensures SameNode(h, o, SharedTransformed(h, n, specs, t), Transformed(v, ws, apply))
    decreases |ws|
  {
    if ws != [] {
      assert SameNode(h, o, t(h, n, specs[0]), apply(v, ws[0]));
      if apply(v, ws[0]).Some? {
        TransformedSame(h, o, live, source, t(h, n, specs[0]).value, apply(v, ws[0]).value, specs[1..], ws[1..], t, apply);
      }
    }
  }

  lemma {:induction false} ReachOutside(h: Heap, o: nat, n: Node, tokens: seq<string>)
    requires Apart(h, o) && Outside(n, o)
    ensures Reach(h, n, tokens).Some? ==> Outside(Reach(h, n, tokens).value, o)
    decreases |tokens|
  {
    if tokens != [] && StepTo(h, n, tokens[0]).Some? {
      ReachOutside(h, o, StepTo(h, n, tokens[0]).value, tokens[1..]);
    }
  }

  ghost predicate SameResult(h: Heap, o: nat, n: Result<Node, MappingError>, v: Result<Value, MappingError>)
  {
    match (n, v)
    case (Success(node), Success(value)) => Stands(h, o, node, value)
    case (Failure(e), Failure(f)) => e == f
    case _ => false
  }

  lemma ValueSame(h: Heap, o: nat, live: Node, source: Value, rule: SharedRule, r: MappingRule, t: SharedTransform, apply: Transform)
    requires Lifts(t, apply, live, source) && Apart(h, o) && Stands(h, o, live, source) && SameRule(h, o, rule, r)
    ensures SameResult(h, o, SharedValue(h, live, rule, t), RuleValue(source, r, apply))
  {
    ReadSame(h, live, source, r.source);
    ReachOutside(h, o, live, PathTokens(r.source));
    var read, found := Read(h, live, rule.source), GetPath(source, r.source);
    var n, v := if read.Some? then read.value else rule.default, if found.Some? then found.value else r.default;
    assert Stands(h, o, n, v);
    NullSame(h, n, v);
    TransformedSame(h, o, live, source, n, v, rule.transforms, r.transforms, t, apply);
    var node, value := SharedTransformed(h, n, rule.transforms, t), Transformed(v, r.transforms, apply);
    if value.Some? {
      NullSame(h, node.value, value.value);
    }
  }

  lemma NullSame(h: Heap, n: Node, v: Value)
    requires Represents(h, n, v)
    ensures n == Leaf(Null) <==> v == Null
  {
  }

  /** The `default` transform, the others raising: None and the empty string are replaced by the configured value. */
  function DefaultByValue(v: Value, spec: Value): Option<Value>
  {
    if spec != Str("default") && Lookup(spec, ["name"]) != Some(Str("default")) then None
    else if v !in {Null, Str("")} then Some(v)
    else if Lookup(spec, ["config", "value"]).None? then Some(Null)
    else Lookup(spec, ["config", "value"])
  }

  function DefaultByReference(h: Heap, n: Node, spec: Node): Option<Node>
  {
    if spec != Leaf(Str("default")) && Reach(h, spec, ["name"]) != Some(Leaf(Str("default"))) then None
    else if n !in {Leaf(Null), Leaf(Str(""))} then Some(n)
    else if Reach(h, spec, ["config", "value"]).None? then Some(Leaf(Null))
    else Reach(h, spec, ["config", "value"])
  }

  /** A registry whose transform hands out configuration objects meets the condition on transforms. */
  lemma DefaultLifts(live: Node, source: Value)
    ensures Lifts(DefaultByReference, DefaultByValue, live, source)
  {
    forall h: Heap, o: nat, n, v, spec, w |
      Apart(h, o) && Stands(h, o, live, source) && Stands(h, o, n, v) && Stands(h, o, spec, w)
      ensures SameNode(h, o, DefaultByReference(h, n, spec), DefaultByValue(v, w))
    {
      ReachSame(h, spec, w, ["name"]);
      ReachSame(h, spec, w, ["config", "value"]);
      ReachOutside(h, o, spec, ["config", "value"]);
    }
  }

  /* ---------- one rule ---------- */

  /** All members of an object copied into the output are shared. */
  function RootShape(members: Members): Shape
  {
    Made(map k | k in members :: Shared)
  }

  function PathShape(shape: Shape, output: Members, path: string, value: Value): Shape
  {
    if PathTokens(path) != [] then ShapeAfter(shape, output, PathTokens(path))
    else if value.Obj? then RootShape(value.members)
    else shape
  }

  predicate PathDisturbs(shape: Shape, output: Members, path: string, value: Value)
  {
    PathTokens(path) != [] && Disturbs(shape, output, PathTokens(path), value)
  }

  lemma RootWriteFits(h: Heap, own: Own, o: nat, shape: Shape, m: Members, n: Node, v: Members)
    requires Fits(h, own, o, Dict(o), [], shape, Obj(m)) && shape.Made? && Stands(h, o, n, Obj(v))
    ensures n.Dict? && n.ref < o < |h|
    ensures var after := h[o := h[n.ref]];
            Calm(h, after, o) && Fits(after, own, o, Dict(o), [], RootShape(v), Obj(v))
  {
    SameBelowIsCalm(h, h[o := h[n.ref]], o);
  }

  /** An undisturbing `set_path` does to the output what it does to the value it stands for. */
  lemma PathWriteFits(h: Heap, own: Own, o: nat, shape: Shape, m: Members, path: string, n: Node, v: Value) returns (ownAfter: Own)
    requires Fits(h, own, o, Dict(o), [], shape, Obj(m)) && shape.Made? && Stands(h, o, n, v)
    requires !PathDisturbs(shape, m, path, v)
    ensures WritePath(h, o, path, n).Some? <==> SetPath(m, path, v).Some?
    ensures SetPath(m, path, v).Some? ==>
              var after := WritePath(h, o, path, n).value;
              Calm(h, after, o) && PathShape(shape, m, path, v).Made? &&
              Fits(after, ownAfter, o, Dict(o), [], PathShape(shape, m, path, v), Obj(SetPath(m, path, v).value))
  {
    ownAfter := own;
    if PathTokens(path) != [] {
      ownAfter := WriteFits(h, own, o, o, [], shape, m, PathTokens(path), n, v);
    } else if v.Obj? {
      RootWriteFits(h, own, o, shape, m, n, v.members);
    }
  }

  /** A `set_path` is noticed outside exactly when it disturbs. */
  lemma PathDisturbsIff(h: Heap, own: Own, o: nat, shape: Shape, m: Members, path: string, n: Node, v: Value)
    requires Fits(h, own, o, Dict(o), [], shape, Obj(m)) && shape.Made? && Stands(h, o, n, v)
    requires WritePath(h, o, path, n).Some?
    ensures Calm(h, WritePath(h, o, path, n).value, o) <==> !PathDisturbs(shape, m, path, v)
  {
    if PathDisturbs(shape, m, path, v) {
      DisturbingWrite(h, own, o, o, [], shape, m, PathTokens(path), n, v);
    } else {
      var _ := PathWriteFits(h, own, o, shape, m, path, n, v);
    }
  }

  /* ---------- the run ---------- */

  /** Every rule that runs leaves what is outside as it was. */
  ghost predicate Undisturbed(h: Heap, o: nat, live: Node, rules: seq<SharedRule>, t: SharedTransform)
    requires o < |h|
    decreases |rules|
  {
    rules == [] ||
    match SharedStep(h, o, live, rules[0], t)
    case Failure(_) => true
    case Success(after) => Calm(h, after, o) && Undisturbed(after, o, live, rules[1..], t)
  }

  /** No rule that runs stores something new strictly below an object that an earlier rule put into the payload. */
  predicate Peaceful(source: Value, rules: seq<MappingRule>, apply: Transform, output: Members, shape: Shape)
    decreases |rules|
  {
    rules == [] ||
    match RuleValue(source, rules[0], apply)
    case Failure(_) => true
    case Success(value) =>
      match SetPath(output, rules[0].target, value)
      case None => true
      case Some(next) =>
        !PathDisturbs(shape, output, rules[0].target, value) &&
        Peaceful(source, rules[1..], apply, next, PathShape(shape, output, rules[0].target, value))
  }

  /** The run has the outcome of the run on values, and what was outside is as it was. */
  ghost predicate Agrees(h: Heap, o: nat, run: Finished, byValue: Result<Members, MappingError>)
  {
    Calm(h, run.heap, o) &&
    match byValue
    case Success(m) => run.error == None && Represents(run.heap, Dict(o), Obj(m))
    case Failure(e) => run.error == Some(e)
  }

  lemma RulesStand(h: Heap, after: Heap, o: nat, rules: seq<SharedRule>, rs: seq<MappingRule>)
    requires SameRules(h, o, rules, rs) && Calm(h, after, o) && rules != []
    ensures SameRules(after, o, rules[1..], rs[1..])
  {
    forall i | 0 <= i < |rs| - 1 ensures SameRule(after, o, rules[1..][i], rs[1..][i]) {
      assert SameRule(h, o, rules[i + 1], rs[i + 1]);
    }
  }

  /** A call's starting point: the live source and rules stand for the given ones. */
  ghost predicate Ready(h: Heap, o: nat, live: Node, source: Value, rules: seq<SharedRule>, rs: seq<MappingRule>)
  {
    Stands(h, o, live, source) && SameRules(h, o, rules, rs)
  }

  /** The run on objects is undisturbed exactly when the one on values is peaceful, and then they agree. */
  ghost predicate Matches(h: Heap, o: nat, live: Node, source: Value, rules: seq<SharedRule>, rs: seq<MappingRule>,
                          t: SharedTransform, apply: Transform, shape: Shape, m: Members)
    requires o < |h|
  {
    (Undisturbed(h, o, live, rules, t) <==> Peaceful(source, rs, apply, m, shape)) &&
    (Peaceful(source, rs, apply, m, shape) ==> Agrees(h, o, RunShared(h, o, live, rules, t), MapAll(source, rs, apply, m)))
  }

  lemma {:induction false} RunIff(h: Heap, own: Own, o: nat, live: Node, source: Value, rules: seq<SharedRule>,
                                  rs: seq<MappingRule>, t: SharedTransform, apply: Transform, shape: Shape, m: Members)
    requires Ready(h, o, live, source, rules, rs) && Lifts(t, apply, live, source)
    requires Fits(h, own, o, Dict(o), [], shape, Obj(m)) && shape.Made?
    ensures Matches(h, o, live, source, rules, rs, t, apply, shape, m)
    decreases |rs|
  {
    if rs == [] {
      MirrorsRepresents(h, own, o, Dict(o), [], shape, Obj(m));
    } else {
      assert SameRule(h, o, rules[0], rs[0]);
      ValueSame(h, o, live, source, rules[0], rs[0], t, apply);
      if RuleValue(source, rs[0], apply).Success? {
        var n, v, path := SharedValue(h, live, rules[0], t).value, RuleValue(source, rs[0], apply).value, rs[0].target;
        var ownAfter := OneRule(h, own, o, shape, m, path, n, v);
        if SetPath(m, path, v).Some? && !PathDisturbs(shape, m, path, v) {
          var after := WritePath(h, o, path, n).value;
          RulesStand(h, after, o, rules, rs);
          RunIff(after, ownAfter, o, live, source, rules[1..], rs[1..], t, apply,
                 PathShape(shape, m, path, v), SetPath(m, path, v).value);
          FirstRuleMatches(h, o, live, source, rules, rs, t, apply, shape, m, after);
        }
      }
    }
  }

  lemma OneRule(h: Heap, own: Own, o: nat, shape: Shape, m: Members, path: string, n: Node, v: Value) returns (ownAfter: Own)
    requires Fits(h, own, o, Dict(o), [], shape, Obj(m)) && shape.Made? && Stands(h, o, n, v)
    ensures WritePath(h, o, path, n).Some? <==> SetPath(m, path, v).Some?
    ensures SetPath(m, path, v).Some? ==>
              var after := WritePath(h, o, path, n).value;
              (Calm(h, after, o) <==> !PathDisturbs(shape, m, path, v)) &&
              (Calm(h, after, o) ==>
                 PathShape(shape, m, path, v).Made? &&
                 Fits(after, ownAfter, o, Dict(o), [], PathShape(shape, m, path, v), Obj(SetPath(m, path, v).value)))
  {
    ownAfter := own;
    if WritePath(h, o, path, n).Some? {
      PathDisturbsIff(h, own, o, shape, m, path, n, v);
    }
    if !PathDisturbs(shape, m, path, v) {
      ownAfter := PathWriteFits(h, own, o, shape, m, path, n, v);
    }
  }

  lemma FirstRuleMatches(h: Heap, o: nat, live: Node, source: Value, rules: seq<SharedRule>, rs: seq<MappingRule>,
                         t: SharedTransform, apply: Transform, shape: Shape, m: Members, after: Heap)
    requires o < |h| && rules != [] && rs != [] && RuleValue(source, rs[0], apply).Success?
    requires SharedStep(h, o, live, rules[0], t) == Success(after) && Calm(h, after, o)
    requires var v, path := RuleValue(source, rs[0], apply).value, rs[0].target;
             SetPath(m, path, v).Some? && !PathDisturbs(shape, m, path, v) &&
             Matches(after, o, live, source, rules[1..], rs[1..], t, apply, PathShape(shape, m, path, v), SetPath(m, path, v).value)
    ensures Matches(h, o, live, source, rules, rs, t, apply, shape, m)
  {
    var run := RunShared(after, o, live, rules[1..], t);
    if Calm(after, run.heap, o) {
      CalmTwice(h, after, run.heap, o);
    }
  }
}
