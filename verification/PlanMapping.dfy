/** The planner's payloads: `plan` maps one live event payload once per action, so whatever one call writes into it
    every later call reads. */
module PlanMapping {
  import opened Wrappers
  import opened Json
  import opened JsonPath
  import opened Mapping
  import opened Objects
  import opened Sharing
  import opened SharedMapping
  import opened MappingLaws

  /** The heap at the end, the payloads in order of the actions, and the error that ended the plan, if any. */
  datatype Planned = Planned(heap: Heap, payloads: seq<nat>, error: Option<MappingError>)

  function PlanShared(h: Heap, live: Node, actions: seq<seq<SharedRule>>, t: SharedTransform): Planned
    decreases |actions|
  {
    if actions == [] then Planned(h, [], None)
    else
      var call := MapShared(h, live, actions[0], t);
      if call.error.Some? then Planned(call.heap, [], call.error)
      else
        var rest := PlanShared(call.heap, live, actions[1..], t);
        Planned(rest.heap, [|h|] + rest.payloads, rest.error)
  }

  /** What is planned from one moment on, put behind the payloads already mapped. */
  function Behind(payloads: seq<nat>, rest: Planned): Planned
  {
    Planned(rest.heap, payloads + rest.payloads, rest.error)
  }

  lemma NextAction(h: Heap, live: Node, actions: seq<seq<SharedRule>>, t: SharedTransform, i: nat, payloads: seq<nat>)
    requires i < |actions|
    ensures var call := MapShared(h, live, actions[i], t);
            Behind(payloads, PlanShared(h, live, actions[i..], t)) ==
              if call.error.Some? then Planned(call.heap, payloads, call.error)
              else Behind(payloads + [|h|], PlanShared(call.heap, live, actions[i + 1..], t))
  {
    assert actions[i..][0] == actions[i] && actions[i..][1..] == actions[i + 1..];
    var rest := PlanShared(MapShared(h, live, actions[i], t).heap, live, actions[i + 1..], t).payloads;
    assert payloads + ([|h|] + rest) == payloads + [|h|] + rest;
    assert payloads + [] == payloads;
  }

  /** The loop over actions. */
  method PlanPayloads(store: Store, live: Node, actions: seq<seq<SharedRule>>, t: SharedTransform)
    returns (payloads: seq<nat>, error: Option<MappingError>)
    modifies store
    ensures Planned(store.objects, payloads, error) == PlanShared(old(store.objects), live, actions, t)
  {
    payloads := [];
    ghost var all := PlanShared(store.objects, live, actions, t);
    assert actions[0..] == actions;
    for i := 0 to |actions|
      invariant all == Behind(payloads, PlanShared(store.objects, live, actions[i..], t))
    {
      ghost var before, mapped := store.objects, payloads;
      ghost var call := MapShared(before, live, actions[i], t);
      NextAction(before, live, actions, t, i, mapped);
      var payload, raised := MapPayload(store, live, actions[i], t);
      assert call == Finished(store.objects, raised) && payload == |before|;
      if raised.Some? { return payloads, raised; }
      payloads := payloads + [payload];
    }
    return payloads, None;
  }

  /** The payloads of the actions when each is mapped from the event as it came in. */
  function PlanAll(source: Value, actions: seq<seq<MappingRule>>, apply: Transform): (seq<Members>, Option<MappingError>)
    decreases |actions|
  {
    if actions == [] then ([], None)
    else
      match MapAll(source, actions[0], apply, map[])
      case Failure(e) => ([], Some(e))
      case Success(m) =>
        var rest := PlanAll(source, actions[1..], apply);
        ([m] + rest.0, rest.1)
  }

  /** The payloads are those of the first actions in their order; a plan that ends early ends with the error of the next
      action, and one that does not has a payload for each. */
  lemma {:induction false} PlanAllMeans(source: Value, actions: seq<seq<MappingRule>>, apply: Transform)
    ensures var (payloads, error) := PlanAll(source, actions, apply);
            && |payloads| <= |actions|
            && (forall i :: 0 <= i < |payloads| ==> MapAll(source, actions[i], apply, map[]) == Success(payloads[i]))
            && (error.None? <==> |payloads| == |actions|)
            && (error.Some? ==> MapAll(source, actions[|payloads|], apply, map[]) == Failure(error.value))
    decreases |actions|
  {
    if actions != [] && MapAll(source, actions[0], apply, map[]).Success? {
      PlanAllMeans(source, actions[1..], apply);
      assert forall i :: 1 <= i < |actions| ==> actions[i] == actions[1..][i - 1];
    }
  }

  /* ---------- no reference dangles ---------- */

  /** A transform returns nothing but objects that exist. */
  predicate InHeap(h: Heap, n: Node)
  {
    Apart(h, |h|) && Outside(n, |h|)
  }

  ghost predicate Tidy(t: SharedTransform)
  {
    forall h: Heap, n, spec :: InHeap(h, n) && InHeap(h, spec) && t(h, n, spec).Some? ==> InHeap(h, t(h, n, spec).value)
  }

  lemma DefaultIsTidy()
    ensures Tidy(DefaultByReference)
  {
    forall h: Heap, n, spec | InHeap(h, n) && InHeap(h, spec) && DefaultByReference(h, n, spec).Some?
      ensures InHeap(h, DefaultByReference(h, n, spec).value)
    {
      ReachOutside(h, |h|, spec, ["config", "value"]);
    }
  }

  lemma {:induction false} OutsideMore(n: Node, o: nat, p: nat)
    requires Outside(n, o) && o <= p
    ensures Outside(n, p)
    decreases n
  {
    if n.List? {
      forall i | 0 <= i < |n.items| ensures Outside(n.items[i], p) {
        OutsideMore(n.items[i], o, p);
      }
    }
  }

  lemma StillInHeap(h: Heap, after: Heap, n: Node)
    requires InHeap(h, n) && |h| <= |after| && Apart(after, |after|)
    ensures InHeap(after, n)
  {
    OutsideMore(n, |h|, |after|);
  }

  lemma GrownApart(h: Heap)
    requires Apart(h, |h|)
    ensures Apart(h + [map[]], |h| + 1)
  {
    var after := h + [map[]];
    forall r, k | 0 <= r < |h| + 1 && k in after[r] ensures Outside(after[r][k], |h| + 1) {
      OutsideMore(h[r][k], |h|, |h| + 1);
    }
  }

  lemma StoredApart(h: Heap, r: nat, key: string, n: Node)
    requires InHeap(h, n) && r < |h|
    ensures Apart(h[r := h[r][key := n]], |h|)
  {
  }

  lemma {:induction false} WriteApart(h: Heap, r: nat, tokens: seq<string>, n: Node)
    requires InHeap(h, n) && r < |h| && tokens != []
    ensures Apart(Write(h, r, tokens, n), |Write(h, r, tokens, n)|)
    decreases |tokens|
  {
    if |tokens| == 1 {
      StoredApart(h, r, tokens[0], n);
    } else if HoldsDict(h, r, tokens[0]) {
      WriteApart(h, h[r][tokens[0]].ref, tokens[1..], n);
    } else {
      var grown := h + [map[]];
      GrownApart(h);
      StoredApart(grown, r, tokens[0], Dict(|h|));
      assert grown[r := grown[r][tokens[0] := Dict(|h|)]] == WithChild(h, r, tokens[0]);
      StillInHeap(h, WithChild(h, r, tokens[0]), n);
      WriteApart(WithChild(h, r, tokens[0]), |h|, tokens[1..], n);
    }
  }

  lemma WritePathApart(h: Heap, r: nat, path: string, n: Node)
    requires InHeap(h, n) && r < |h| && WritePath(h, r, path, n).Some?
    ensures var after := WritePath(h, r, path, n).value; Apart(after, |after|)
  {
    if PathTokens(path) != [] {
      WriteApart(h, r, PathTokens(path), n);
    }
  }

  predicate RuleInHeap(h: Heap, rule: SharedRule)
  {
    InHeap(h, rule.default) && forall i :: 0 <= i < |rule.transforms| ==> InHeap(h, rule.transforms[i])
  }

  predicate RulesInHeap(h: Heap, rules: seq<SharedRule>)
  {
    forall i :: 0 <= i < |rules| ==> RuleInHeap(h, rules[i])
  }

  lemma {:induction false} TransformedInHeap(h: Heap, n: Node, transforms: seq<Node>, t: SharedTransform)
    requires Tidy(t) && InHeap(h, n) && forall i :: 0 <= i < |transforms| ==> InHeap(h, transforms[i])
    ensures SharedTransformed(h, n, transforms, t).Some? ==> InHeap(h, SharedTransformed(h, n, transforms, t).value)
    decreases |transforms|
  {
    if transforms != [] && t(h, n, transforms[0]).Some? {
      assert InHeap(h, t(h, n, transforms[0]).value);
      TransformedInHeap(h, t(h, n, transforms[0]).value, transforms[1..], t);
    }
  }

  lemma StepInHeap(h: Heap, o: nat, live: Node, rule: SharedRule, t: SharedTransform)
    requires Tidy(t) && InHeap(h, live) && RuleInHeap(h, rule) && o < |h|
    requires SharedStep(h, o, live, rule, t).Success?
    ensures var after := SharedStep(h, o, live, rule, t).value; Apart(after, |after|)
  {
    ReachOutside(h, |h|, live, PathTokens(rule.source));
    var read := Read(h, live, rule.source);
    TransformedInHeap(h, if read.Some? then read.value else rule.default, rule.transforms, t);
    WritePathApart(h, o, rule.target, SharedValue(h, live, rule, t).value);
  }

  lemma RulesStayInHeap(h: Heap, after: Heap, rules: seq<SharedRule>)
    requires RulesInHeap(h, rules) && |h| <= |after| && Apart(after, |after|)
    ensures RulesInHeap(after, rules)
  {
    forall i | 0 <= i < |rules| ensures RuleInHeap(after, rules[i]) {
      assert RuleInHeap(h, rules[i]);
      StillInHeap(h, after, rules[i].default);
      forall j | 0 <= j < |rules[i].transforms| ensures InHeap(after, rules[i].transforms[j]) {
        StillInHeap(h, after, rules[i].transforms[j]);
      }
    }
  }

  /** A call leaves a heap without dangling references, whether it succeeds, raises or disturbs. */
  lemma {:induction false} RunInHeap(h: Heap, o: nat, live: Node, rules: seq<SharedRule>, t: SharedTransform)
    requires Tidy(t) && InHeap(h, live) && RulesInHeap(h, rules) && o < |h|
    ensures var run := RunShared(h, o, live, rules, t); Apart(run.heap, |run.heap|) && |h| <= |run.heap|
    decreases |rules|
  {
    if rules != [] && SharedStep(h, o, live, rules[0], t).Success? {
      var after := SharedStep(h, o, live, rules[0], t).value;
      assert RuleInHeap(h, rules[0]);
      StepInHeap(h, o, live, rules[0], t);
      StillInHeap(h, after, live);
      RulesStayInHeap(h, after, rules);
      RunInHeap(after, o, live, rules[1..], t);
    }
  }

  /* ---------- plans ---------- */

  ghost predicate PlanUndisturbed(h: Heap, live: Node, actions: seq<seq<SharedRule>>, t: SharedTransform)
    decreases |actions|
  {
    actions == [] ||
    var call := MapShared(h, live, actions[0], t);
    Undisturbed(h + [map[]], |h|, live, actions[0], t) &&
    (call.error == None ==> PlanUndisturbed(call.heap, live, actions[1..], t))
  }

  predicate PlanPeaceful(source: Value, actions: seq<seq<MappingRule>>, apply: Transform)
    decreases |actions|
  {
    actions == [] ||
    (PeacefulCall(source, actions[0], apply) &&
     (MapAll(source, actions[0], apply, map[]).Success? ==> PlanPeaceful(source, actions[1..], apply)))
  }

  predicate SameActions(h: Heap, o: nat, actions: seq<seq<SharedRule>>, plain: seq<seq<MappingRule>>)
  {
    |actions| == |plain| && forall i :: 0 <= i < |plain| ==> SameRules(h, o, actions[i], plain[i])
  }

  /** Live event, rules and transforms stand for the given ones. */
  ghost predicate Plannable(h: Heap, live: Node, source: Value, actions: seq<seq<SharedRule>>, plain: seq<seq<MappingRule>>)
  {
    Apart(h, |h|) && Stands(h, |h|, live, source) && SameActions(h, |h|, actions, plain)
  }

  /** The plan's payloads stand for those of the event as it came in, and what existed before is as it was. */
  ghost predicate PlanAgrees(h: Heap, planned: Planned, byValue: (seq<Members>, Option<MappingError>))
  {
    Calm(h, planned.heap, |h|) && planned.error == byValue.1 && |planned.payloads| == |byValue.0| &&
    forall i :: 0 <= i < |byValue.0| ==> Represents(planned.heap, Dict(planned.payloads[i]), Obj(byValue.0[i]))
  }

  lemma StandsLater(h: Heap, after: Heap, n: Node, v: Value)
    requires Stands(h, |h|, n, v) && Calm(h, after, |h|)
    ensures Stands(after, |after|, n, v)
  {
    OutsideMore(n, |h|, |after|);
  }

  lemma PlannableLater(h: Heap, after: Heap, live: Node, source: Value, actions: seq<seq<SharedRule>>, plain: seq<seq<MappingRule>>)
    requires Plannable(h, live, source, actions, plain) && Calm(h, after, |h|) && Apart(after, |after|) && plain != []
    ensures Plannable(after, live, source, actions[1..], plain[1..])
  {
    StandsLater(h, after, live, source);
    forall i | 0 <= i < |plain| - 1 ensures SameRules(after, |after|, actions[1..][i], plain[1..][i]) {
      assert SameRules(h, |h|, actions[i + 1], plain[i + 1]);
      RulesLater(h, after, actions[i + 1], plain[i + 1]);
    }
  }

  lemma RulesLater(h: Heap, after: Heap, rules: seq<SharedRule>, rs: seq<MappingRule>)
    requires SameRules(h, |h|, rules, rs) && Calm(h, after, |h|)
    ensures SameRules(after, |after|, rules, rs)
  {
    forall i | 0 <= i < |rs| ensures SameRule(after, |after|, rules[i], rs[i]) {
      assert SameRule(h, |h|, rules[i], rs[i]);
      StandsLater(h, after, rules[i].default, rs[i].default);
      forall j | 0 <= j < |rs[i].transforms| ensures Stands(after, |after|, rules[i].transforms[j], rs[i].transforms[j]) {
        StandsLater(h, after, rules[i].transforms[j], rs[i].transforms[j]);
      }
    }
  }

  lemma CallInHeap(h: Heap, live: Node, source: Value, rules: seq<SharedRule>, rs: seq<MappingRule>, t: SharedTransform)
    requires Callable(h, live, source, rules, rs) && Tidy(t)
    ensures var call := MapShared(h, live, rules, t); Apart(call.heap, |call.heap|) && |h| < |call.heap|
  {
    var start := h + [map[]];
    GrownApart(h);
    StillInHeap(h, start, live);
    assert RulesInHeap(h, rules) by {
      forall i | 0 <= i < |rs| ensures RuleInHeap(h, rules[i]) {
        assert SameRule(h, |h|, rules[i], rs[i]);
      }
    }
    RulesStayInHeap(h, start, rules);
    RunInHeap(start, |h|, live, rules, t);
  }

  /** The payload of a call and everything older outlast the rest of the plan. */
  lemma FirstPayloadKept(h: Heap, mid: Heap, rest: Planned, m: Members, byValue: (seq<Members>, Option<MappingError>))
    requires Calm(h, mid, |h|) && |h| < |mid| && Represents(mid, Dict(|h|), Obj(m)) && PlanAgrees(mid, rest, byValue)
    ensures PlanAgrees(h, Planned(rest.heap, [|h|] + rest.payloads, rest.error), ([m] + byValue.0, byValue.1))
  {
    forall n, v | Outside(n, |h|) && Represents(h, n, v) ensures Represents(rest.heap, n, v) {
      OutsideMore(n, |h|, |mid|);
    }
    assert Outside(Dict(|h|), |mid|);
    var payloads, members := [|h|] + rest.payloads, [m] + byValue.0;
    forall i | 0 <= i < |members| ensures Represents(rest.heap, Dict(payloads[i]), Obj(members[i])) {
      assert i > 0 ==> payloads[i] == rest.payloads[i - 1] && members[i] == byValue.0[i - 1];
    }
  }

  /** A plan leaves the event and all other older objects as they were, call by call and rule by rule, if and only if
      each of its mappings is peaceful on the event as it came in; then every action gets the payload of its own rules
      on that event, whatever actions precede it, and keeps it to the end of the plan. */
  lemma {:induction false} PlanIff(h: Heap, live: Node, source: Value, actions: seq<seq<SharedRule>>, plain: seq<seq<MappingRule>>,
                                   t: SharedTransform, apply: Transform)
    requires Plannable(h, live, source, actions, plain) && Lifts(t, apply, live, source) && Tidy(t)
    ensures PlanUndisturbed(h, live, actions, t) <==> PlanPeaceful(source, plain, apply)
    ensures PlanPeaceful(source, plain, apply) ==> PlanAgrees(h, PlanShared(h, live, actions, t), PlanAll(source, plain, apply))
    decreases |actions|
  {
    if actions != [] {
      assert SameRules(h, |h|, actions[0], plain[0]);
      SourceKeptIff(h, live, source, actions[0], plain[0], t, apply);
      var call, mapped := MapShared(h, live, actions[0], t), MapAll(source, plain[0], apply, map[]);
      if PeacefulCall(source, plain[0], apply) && mapped.Success? {
        CallInHeap(h, live, source, actions[0], plain[0], t);
        PlannableLater(h, call.heap, live, source, actions, plain);
        PlanIff(call.heap, live, source, actions[1..], plain[1..], t, apply);
        if PlanPeaceful(source, plain[1..], apply) {
          FirstPayloadKept(h, call.heap, PlanShared(call.heap, live, actions[1..], t), mapped.value, PlanAll(source, plain[1..], apply));
        }
      }
    }
  }
}
