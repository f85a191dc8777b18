/** Whole-run properties of coordination: the outcome of a run does not depend on which linear extension
    of the dependencies is followed, and a step is dispatched only on successful ancestors. */
module Confluence {
  import opened Wrappers
  import opened Json
  import opened Text
  import opened JsonPath
  import opened Graph
  import opened Coordination

  /* ---------- inputs that read only declared ancestors ---------- */

  /** The path names the root event, or something that is not a step, or a step that is an ancestor. */
  ghost predicate ReadsDeclared(g: Dependencies, k: string, source: string)
  {
    source !in {"", "$", "."} &&
    var tokens := PathTokens(source);
    tokens != [] && (tokens[0] == "steps" ==> |tokens| >= 2 && (tokens[1] !in g || Ancestor(g, tokens[1], k)))
  }

  ghost predicate LocalInputs(steps: Steps)
  {
    forall k, i :: k in steps && 0 <= i < |steps[k].inputs|
      ==> ReadsDeclared(DependenciesOf(steps), k, steps[k].inputs[i].source)
  }

  /** Both runs hold the same outcome for every ancestor of k. */
  ghost predicate AgreeBefore(g: Dependencies, k: string, x: Executions, y: Executions)
  {
    forall a {:trigger Ancestor(g, a, k)} :: Ancestor(g, a, k) ==> a in x && a in y && x[a] == y[a]
  }

  predicate InWorkflow(steps: Steps, x: Executions)
  {
    x.Keys <= steps.Keys
  }

  lemma LookupInContext(world: World, steps: Steps, x: Executions, tokens: seq<string>)
    requires InWorkflow(steps, x) && tokens != []
    ensures tokens[0] == "root" ==> Lookup(Context(world, steps, x), tokens) == Lookup(world.root, tokens[1..])
    ensures tokens[0] == "steps" && |tokens| >= 2 ==>
      (Lookup(Context(world, steps, x), tokens) ==
       if tokens[1] in x then Lookup(world.render(steps[tokens[1]], x[tokens[1]]), tokens[2..]) else None)
    ensures tokens[0] !in {"root", "steps"} ==> Lookup(Context(world, steps, x), tokens) == None
  {
    LookupHead(Context(world, steps, x), tokens);
    if tokens[0] == "steps" && |tokens| >= 2 {
      LookupHead(Context(world, steps, x).members["steps"], tokens[1..]);
      assert tokens[1..][0] == tokens[1] && tokens[1..][1..] == tokens[2..];
    }
  }

  lemma LookupHead(node: Value, tokens: seq<string>)
    requires tokens != [] && node.Obj?
    ensures Lookup(node, tokens) == if tokens[0] in node.members then Lookup(node.members[tokens[0]], tokens[1..]) else None
  {
  }

  lemma SameRead(world: World, steps: Steps, k: string, source: string, x: Executions, y: Executions)
    requires InWorkflow(steps, x) && InWorkflow(steps, y)
    requires AgreeBefore(DependenciesOf(steps), k, x, y) && ReadsDeclared(DependenciesOf(steps), k, source)
    ensures GetPath(Context(world, steps, x), source) == GetPath(Context(world, steps, y), source)
  {
    var tokens := PathTokens(source);
    LookupInContext(world, steps, x, tokens);
    LookupInContext(world, steps, y, tokens);
    if tokens[0] == "steps" && tokens[1] in steps {
      assert Ancestor(DependenciesOf(steps), tokens[1], k);
    }
  }

  lemma {:induction false} SameInputs(world: World, steps: Steps, k: string, inputs: seq<Input>, payload: Members, x: Executions, y: Executions)
    requires InWorkflow(steps, x) && InWorkflow(steps, y) && AgreeBefore(DependenciesOf(steps), k, x, y)
    requires forall i :: 0 <= i < |inputs| ==> ReadsDeclared(DependenciesOf(steps), k, inputs[i].source)
    ensures MapInputs(Context(world, steps, x), inputs, payload) == MapInputs(Context(world, steps, y), inputs, payload)
    decreases |inputs|
  {
    if inputs != [] {
      SameRead(world, steps, k, inputs[0].source, x, y);
      var read := GetPath(Context(world, steps, x), inputs[0].source);
      var value := if read.Some? then read.value else inputs[0].default;
      match SetPath(payload, inputs[0].target, value)
      case Some(next) => SameInputs(world, steps, k, inputs[1..], next, x, y);
      case None =>
    }
  }

  lemma RootPayloadDeclared(g: Dependencies, k: string)
    ensures ReadsDeclared(g, k, "root.payload")
  {
    TwoPartPath("root", "payload");
    assert "root" + "." + "payload" == "root.payload";
  }

  lemma SamePayload(world: World, steps: Steps, k: string, x: Executions, y: Executions)
    requires k in steps && LocalInputs(steps)
    requires InWorkflow(steps, x) && InWorkflow(steps, y) && AgreeBefore(DependenciesOf(steps), k, x, y)
    ensures StepPayload(Context(world, steps, x), steps[k]) == StepPayload(Context(world, steps, y), steps[k])
  {
    RootPayloadDeclared(DependenciesOf(steps), k);
    SameRead(world, steps, k, "root.payload", x, y);
    SameInputs(world, steps, k, steps[k].inputs, map[], x, y);
    PayloadReads(steps[k], Context(world, steps, x), Context(world, steps, y));
  }

  /** The payload depends on the context through these two reads only. */
  lemma PayloadReads(step: Step, a: Value, b: Value)
    requires GetPath(a, "root.payload") == GetPath(b, "root.payload")
    requires MapInputs(a, step.inputs, map[]) == MapInputs(b, step.inputs, map[])
    ensures StepPayload(a, step) == StepPayload(b, step)
  {
  }

  /* ---------- a step's outcome is determined by its ancestors ---------- */

  lemma {:induction false} SameHop(dependsOn: seq<string>, x: Executions, y: Executions)
    requires dependsOn != [] && forall d :: d in dependsOn ==> d in x && d in y && x[d] == y[d]
    ensures MaxHop(dependsOn, x) == MaxHop(dependsOn, y)
  {
    if |dependsOn| > 1 { SameHop(dependsOn[1..], x, y); }
  }

  lemma {:induction false} SameCauses(dependsOn: seq<string>, x: Executions, y: Executions)
    requires forall d :: d in dependsOn ==> d in x && d in y && x[d] == y[d]
    ensures Causes(dependsOn, x) == Causes(dependsOn, y)
  {
    if dependsOn != [] { SameCauses(dependsOn[1..], x, y); }
  }

  lemma DependenciesAgree(steps: Steps, k: string, x: Executions, y: Executions)
    requires WellFormed(steps) && k in steps && AgreeBefore(DependenciesOf(steps), k, x, y)
    ensures forall d :: d in steps[k].dependsOn ==> d in x && d in y && x[d] == y[d] && d in steps
  {
    var g := DependenciesOf(steps);
    forall d | d in steps[k].dependsOn ensures d in x && d in y && x[d] == y[d] && d in steps {
      assert d in g[k];
      DependencyIsAncestor(g, d, k);
    }
  }

  lemma SameDispatch(world: World, steps: Steps, k: string, x: Executions, y: Executions, payload: Members)
    requires k in steps && Known(steps, steps[k], x) && Known(steps, steps[k], y)
    requires forall d :: d in steps[k].dependsOn ==> x[d] == y[d]
    ensures Dispatch(world, steps, steps[k], x, payload) == Dispatch(world, steps, steps[k], y, payload)
  {
    if steps[k].dependsOn != [] {
      SameHop(steps[k].dependsOn, x, y);
    }
    SameCauses(steps[k].dependsOn, x, y);
    assert StepEvent(world, steps, steps[k], x, payload) == StepEvent(world, steps, steps[k], y, payload);
  }

  lemma OutcomeFromAncestors(world: World, steps: Steps, k: string, x: Executions, y: Executions)
    requires WellFormed(steps) && LocalInputs(steps) && k in steps
    requires InWorkflow(steps, x) && InWorkflow(steps, y) && AgreeBefore(DependenciesOf(steps), k, x, y)
    ensures Known(steps, steps[k], x) && Known(steps, steps[k], y)
    ensures RunStep(world, steps, steps[k], x) == RunStep(world, steps, steps[k], y)
  {
    DependenciesAgree(steps, k, x, y);
    SamePayload(world, steps, k, x, y);
    match StepPayload(Context(world, steps, x), steps[k])
    case None =>
    case Some(payload) => SameDispatch(world, steps, k, x, y, payload);
  }

  /* ---------- final outcomes along an order ---------- */

  /** x holds, for the i-th step, its outcome after the steps before it. */
  ghost predicate HoldsOutcome(world: World, steps: Steps, order: seq<string>, i: nat, x: Executions)
    requires i < |order|
  {
    && Ordered(steps, order[..i]) && order[i] in steps && order[i] in x
    && Known(steps, steps[order[i]], RunAll(world, steps, order[..i]))
    && x[order[i]] == RunStep(world, steps, steps[order[i]], RunAll(world, steps, order[..i]))
  }

  lemma HoldsLater(world: World, steps: Steps, order: seq<string>, i: nat, k: string, x: Executions)
    requires i < |order| && HoldsOutcome(world, steps, order, i, x)
    requires k in steps && Known(steps, steps[k], x) && order[i] != k
    ensures HoldsOutcome(world, steps, order, i, Record(world, steps, k, x))
  {
  }

  /** After running the first j steps, the i-th one has its outcome. */
  ghost predicate HoldsAfter(world: World, steps: Steps, order: seq<string>, i: nat, j: nat)
    requires i < |order| && j <= |order|
  {
    Ordered(steps, order[..j]) && HoldsOutcome(world, steps, order, i, RunAll(world, steps, order[..j]))
  }

  lemma HoldsNow(world: World, steps: Steps, order: seq<string>, i: nat)
    requires Ordered(steps, order) && i < |order|
    ensures HoldsAfter(world, steps, order, i, i + 1)
  {
    RunOneMore(world, steps, order, i);
  }

  ghost predicate Carries(p: nat -> bool, j: nat) {
    p(j) ==> p(j + 1)
  }

  lemma {:induction false} Upwards(p: nat -> bool, low: nat, high: nat)
    requires low <= high && p(low)
    requires forall j :: low <= j < high ==> Carries(p, j)
    ensures p(high)
    decreases high - low
  {
    if low < high {
      assert Carries(p, low);
      Upwards(p, low + 1, high);
    }
  }

  ghost function Holding(world: World, steps: Steps, order: seq<string>, i: nat): nat -> bool
    requires i < |order|
  {
    (j: nat) => j <= |order| && HoldsAfter(world, steps, order, i, j)
  }

  lemma KeptOneMore(world: World, steps: Steps, order: seq<string>, i: nat, j: nat)
    requires Ordered(steps, order) && Distinct(order) && i < j < |order|
    requires Holding(world, steps, order, i)(j)
    ensures Holding(world, steps, order, i)(j + 1)
  {
    RunOneMore(world, steps, order, j);
    HoldsLater(world, steps, order, i, order[j], RunAll(world, steps, order[..j]));
  }

  lemma HoldingCarries(world: World, steps: Steps, order: seq<string>, i: nat, j: nat)
    requires Ordered(steps, order) && Distinct(order) && i < j < |order|
    ensures Carries(Holding(world, steps, order, i), j)
  {
    if Holding(world, steps, order, i)(j) {
      KeptOneMore(world, steps, order, i, j);
    }
  }

  /** Running more steps does not change the outcome of an earlier one. */
  lemma OutcomeIsFinal(world: World, steps: Steps, order: seq<string>, i: nat)
    requires Ordered(steps, order) && Distinct(order) && i < |order|
    ensures HoldsOutcome(world, steps, order, i, RunAll(world, steps, order))
  {
    HoldsNow(world, steps, order, i);
    forall j: nat | i + 1 <= j < |order| ensures Carries(Holding(world, steps, order, i), j) {
      HoldingCarries(world, steps, order, i, j);
    }
    Upwards(Holding(world, steps, order, i), i + 1, |order|);
    assert order[..|order|] == order;
  }

  lemma PrefixAgrees(world: World, steps: Steps, order: seq<string>, i: nat, m: nat)
    requires Ordered(steps, order) && Distinct(order) && m < i <= |order|
    ensures Ordered(steps, order[..i])
    ensures RunAll(world, steps, order[..i])[order[m]] == RunAll(world, steps, order)[order[m]]
  {
    OrderedPrefix(steps, order, i);
    var prefix := order[..i];
    assert prefix[m] == order[m] && prefix[..m] == order[..m];
    assert prefix[m] in prefix && order[m] in order;
    OutcomeIsFinal(world, steps, prefix, m);
    OutcomeIsFinal(world, steps, order, m);
  }

  /* ---------- confluence ---------- */

  ghost predicate Extension(steps: Steps, order: seq<string>)
  {
    Linear(DependenciesOf(steps), order)
  }

  ghost predicate TwoExtensions(steps: Steps, o1: seq<string>, o2: seq<string>)
  {
    && WellFormed(steps) && LocalInputs(steps)
    && Extension(steps, o1) && Extension(steps, o2) && Ordered(steps, o1) && Ordered(steps, o2)
  }

  lemma {:induction false} SameOutcome(world: World, steps: Steps, o1: seq<string>, o2: seq<string>, i: nat, j: nat)
    requires TwoExtensions(steps, o1, o2) && i < |o1| && j < |o2| && o1[i] == o2[j]
    ensures o1[i] in o1 && o1[i] in o2
    ensures RunAll(world, steps, o1)[o1[i]] == RunAll(world, steps, o2)[o1[i]]
    decreases i, 1
  {
    OutcomeIsFinal(world, steps, o1, i);
    OutcomeIsFinal(world, steps, o2, j);
    PrefixInWorkflow(world, steps, o1, i);
    PrefixInWorkflow(world, steps, o2, j);
    PrefixesAgree(world, steps, o1, o2, i, j);
    OutcomeFromAncestors(world, steps, o1[i], RunAll(world, steps, o1[..i]), RunAll(world, steps, o2[..j]));
  }

  lemma {:induction false} PrefixesAgree(world: World, steps: Steps, o1: seq<string>, o2: seq<string>, i: nat, j: nat)
    requires TwoExtensions(steps, o1, o2) && i < |o1| && j < |o2| && o1[i] == o2[j]
    requires Ordered(steps, o1[..i]) && Ordered(steps, o2[..j])
    ensures AgreeBefore(DependenciesOf(steps), o1[i], RunAll(world, steps, o1[..i]), RunAll(world, steps, o2[..j]))
    decreases i, 0
  {
    var g, k := DependenciesOf(steps), o1[i];
    forall a {:trigger Ancestor(g, a, k)} | Ancestor(g, a, k)
      ensures a in RunAll(world, steps, o1[..i]) && a in RunAll(world, steps, o2[..j])
      ensures RunAll(world, steps, o1[..i])[a] == RunAll(world, steps, o2[..j])[a]
    {
      AncestorsComeFirst(g, o1, a, i);
      AncestorsComeFirst(g, o2, a, j);
      var m :| 0 <= m < i && o1[..i][m] == a;
      var n :| 0 <= n < j && o2[..j][n] == a;
      SameOutcome(world, steps, o1, o2, m, n);
      PrefixAgrees(world, steps, o1, i, m);
      PrefixAgrees(world, steps, o2, j, n);
    }
  }

  lemma PrefixInWorkflow(world: World, steps: Steps, order: seq<string>, i: nat)
    requires Extension(steps, order) && Ordered(steps, order) && i <= |order|
    ensures Ordered(steps, order[..i]) && InWorkflow(steps, RunAll(world, steps, order[..i]))
  {
    OrderedPrefix(steps, order, i);
    forall k | k in RunAll(world, steps, order[..i]) ensures k in steps {
      var m :| 0 <= m < i && order[..i][m] == k;
      assert order[m] in order;
    }
  }

  /** Any two linear extensions of the dependencies give every step the same outcome. */
  lemma {:induction false} Confluent(world: World, steps: Steps, o1: seq<string>, o2: seq<string>)
    requires WellFormed(steps) && LocalInputs(steps) && Extension(steps, o1) && Extension(steps, o2)
    ensures Ordered(steps, o1) && Ordered(steps, o2)
    ensures RunAll(world, steps, o1) == RunAll(world, steps, o2)
  {
    LinearIsOrdered(steps, o1);
    LinearIsOrdered(steps, o2);
    var x, y := RunAll(world, steps, o1), RunAll(world, steps, o2);
    forall k ensures k in x <==> k in y {
      SameKeys(steps, o1, o2, k);
    }
    forall k | k in x ensures x[k] == y[k] {
      SameStep(world, steps, o1, o2, k);
    }
  }

  lemma SameKeys(steps: Steps, o1: seq<string>, o2: seq<string>, k: string)
    requires Extension(steps, o1) && Extension(steps, o2)
    ensures k in o1 <==> k in o2
  {
    assert k in o1 ==> k in DependenciesOf(steps);
    assert k in o2 ==> k in DependenciesOf(steps);
  }

  lemma SameStep(world: World, steps: Steps, o1: seq<string>, o2: seq<string>, k: string)
    requires TwoExtensions(steps, o1, o2) && k in o1 && k in o2
    ensures RunAll(world, steps, o1)[k] == RunAll(world, steps, o2)[k]
  {
    var i :| 0 <= i < |o1| && o1[i] == k;
    var j :| 0 <= j < |o2| && o2[j] == k;
    SameOutcome(world, steps, o1, o2, i, j);
  }

  /** In particular, every linear extension gives what the coordinator's layered order gives. */
  lemma {:induction false} AgreesWithCoordinator(world: World, steps: Steps, order: seq<string>)
    requires Sortable(steps) && LocalInputs(steps) && Extension(steps, order)
    ensures Ordered(steps, order) && RunAll(world, steps, order) == Coordinated(world, steps)
  {
    SortableOrdered(steps);
    OrderIsLinear(DependenciesOf(steps));
    Confluent(world, steps, order, Order(DependenciesOf(steps)).value);
  }

  /* ---------- skipping ---------- */

  /** The outcome of k was computed from executions that already held its dependencies' final outcomes. */
  ghost predicate Settled(world: World, steps: Steps, final: Executions, k: string, before: Executions)
  {
    && k in steps && k in final && Known(steps, steps[k], before)
    && final[k] == RunStep(world, steps, steps[k], before)
    && forall d :: d in steps[k].dependsOn ==> d in final && before[d] == final[d]
  }

  lemma DependencyFinal(world: World, steps: Steps, order: seq<string>, i: nat, d: string)
    requires Ordered(steps, order) && Distinct(order) && i < |order|
    requires order[i] in steps && d in steps[order[i]].dependsOn
    ensures Ordered(steps, order[..i])
    ensures d in order && d in order[..i] && RunAll(world, steps, order[..i])[d] == RunAll(world, steps, order)[d]
  {
    assert ReadyAt(steps, order, i);
    var m :| 0 <= m < i && order[..i][m] == d;
    assert order[m] == d;
    PrefixAgrees(world, steps, order, i, m);
  }

  lemma SettledIn(world: World, steps: Steps, order: seq<string>, k: string) returns (before: Executions)
    requires Extension(steps, order) && Ordered(steps, order) && k in steps
    ensures Settled(world, steps, RunAll(world, steps, order), k, before)
  {
    assert k in DependenciesOf(steps);
    var i :| 0 <= i < |order| && order[i] == k;
    OutcomeIsFinal(world, steps, order, i);
    before := RunAll(world, steps, order[..i]);
    forall d | d in steps[k].dependsOn ensures d in order && before[d] == RunAll(world, steps, order)[d] {
      DependencyFinal(world, steps, order, i, d);
    }
  }

  /** In the coordinator's own run. */
  lemma SettledInRun(world: World, steps: Steps, k: string) returns (before: Executions)
    requires Sortable(steps) && k in steps
    ensures Settled(world, steps, Coordinated(world, steps), k, before)
  {
    SortableOrdered(steps);
    OrderIsLinear(DependenciesOf(steps));
    before := SettledIn(world, steps, Order(DependenciesOf(steps)).value, k);
  }

  lemma SkippedIffDependencyNotDone(world: World, steps: Steps, k: string)
    requires Sortable(steps) && k in steps
    ensures var final := Coordinated(world, steps);
      final[k].DependencyFailed? <==> exists d :: d in DependenciesOf(steps)[k] && !Done(final[d])
  {
    var before := SettledInRun(world, steps, k);
    SkippedFromSettled(world, steps, k, Coordinated(world, steps), before);
    assert DependenciesOf(steps)[k] == set d | d in steps[k].dependsOn;
  }

  lemma SkippedFromSettled(world: World, steps: Steps, k: string, final: Executions, before: Executions)
    requires Settled(world, steps, final, k, before)
    ensures final[k].DependencyFailed? <==> exists d :: d in steps[k].dependsOn && !Done(final[d])
  {
    SkipMeans(world, steps, steps[k], before);
  }

  lemma SkipMeans(world: World, steps: Steps, step: Step, x: Executions)
    requires Known(steps, step, x)
    ensures RunStep(world, steps, step, x).DependencyFailed? <==> exists d :: d in step.dependsOn && !Done(x[d])
  {
  }

  lemma {:induction false} AncestorBlocks(world: World, steps: Steps, k: string, a: string)
    requires Sortable(steps) && Ancestor(DependenciesOf(steps), a, k)
    ensures k in steps && a in steps
    ensures !Done(Coordinated(world, steps)[a]) ==> Coordinated(world, steps)[k].DependencyFailed?
    decreases if k in steps then Layer(DependenciesOf(steps), k) else 0
  {
    var g := DependenciesOf(steps);
    var d := AncestorSplits(g, a, k);
    LayerAbove(g, k, d);
    if a != d {
      AncestorBlocks(world, steps, d, a);
    }
    SkippedIffDependencyNotDone(world, steps, k);
  }

  /** A step is skipped exactly when a direct or indirect dependency did not end succeeded or simulated; so
      whatever reaches input mapping, policy or a daughter has only successful ancestors. */
  lemma SkippedIffAncestorNotDone(world: World, steps: Steps, k: string)
    requires Sortable(steps) && k in steps
    ensures Coordinated(world, steps)[k].DependencyFailed? <==>
            exists a :: Ancestor(DependenciesOf(steps), a, k) && a in steps && !Done(Coordinated(world, steps)[a])
  {
    var g := DependenciesOf(steps);
    SkippedIffDependencyNotDone(world, steps, k);
    if Coordinated(world, steps)[k].DependencyFailed? {
      var d :| d in g[k] && !Done(Coordinated(world, steps)[d]);
      DependencyIsAncestor(g, d, k);
    }
    if a :| Ancestor(g, a, k) && a in steps && !Done(Coordinated(world, steps)[a]) {
      AncestorBlocks(world, steps, k, a);
    }
  }

  /* ---------- hop counts ---------- */

  lemma {:induction false} MaxHopBounds(dependsOn: seq<string>, x: Executions)
    requires dependsOn != [] && forall d :: d in dependsOn ==> d in x
    ensures forall d :: d in dependsOn ==> HopOf(x[d]) <= MaxHop(dependsOn, x)
    ensures exists d :: d in dependsOn && HopOf(x[d]) == MaxHop(dependsOn, x)
  {
    if |dependsOn| > 1 {
      MaxHopBounds(dependsOn[1..], x);
      var d :| d in dependsOn[1..] && HopOf(x[d]) == MaxHop(dependsOn[1..], x);
      assert d in dependsOn;
    } else {
      assert dependsOn[0] in dependsOn;
    }
  }

  /** If every dependency carries its own layer, the hop count is the step's layer. */
  lemma HopIsLayer(steps: Steps, k: string, x: Executions)
    requires Sortable(steps) && k in steps && Known(steps, steps[k], x)
    requires forall d :: d in steps[k].dependsOn ==> HopOf(x[d]) == Layer(DependenciesOf(steps), d)
    ensures HopCount(steps[k], x) == Layer(DependenciesOf(steps), k)
  {
    var g := DependenciesOf(steps);
    if steps[k].dependsOn == [] {
      assert g[k] == {} && k in Ready(g);
    } else {
      MaxHopBounds(steps[k].dependsOn, x);
      assert steps[k].dependsOn[0] in g[k];
      var just := LayerJustAbove(g, k);
      assert just in steps[k].dependsOn;
      var d :| d in steps[k].dependsOn && HopOf(x[d]) == MaxHop(steps[k].dependsOn, x);
      LayerAbove(g, k, d);
    }
  }

  lemma {:induction false} DispatchedHop(world: World, steps: Steps, k: string)
    requires Sortable(steps) && k in steps
    ensures HopAgrees(world, steps, k)
    decreases Layer(DependenciesOf(steps), k)
  {
    var g := DependenciesOf(steps);
    forall d | d in steps[k].dependsOn ensures d in steps && HopAgrees(world, steps, d) {
      assert d in g[k];
      LayerAbove(g, k, d);
      DispatchedHop(world, steps, d);
    }
    HopFromDependencies(world, steps, k);
  }

  ghost predicate HopAgrees(world: World, steps: Steps, k: string)
    requires Sortable(steps) && k in steps
  {
    var outcome := Coordinated(world, steps)[k];
    Dispatched(outcome) ==> outcome.event.hopCount == Layer(DependenciesOf(steps), k)
  }

  predicate Dispatched(outcome: Outcome) {
    outcome.Ran? || outcome.PolicyDenied?
  }

  /** A step is dispatched only after its dependencies are done, with the hop count they give. */
  lemma DispatchMeans(world: World, steps: Steps, step: Step, x: Executions)
    requires Known(steps, step, x) && Dispatched(RunStep(world, steps, step, x))
    ensures RunStep(world, steps, step, x).event.hopCount == HopCount(step, x)
    ensures forall d :: d in step.dependsOn ==> Done(x[d])
  {
  }

  predicate HasLayer(steps: Steps, final: Executions, d: string)
    requires Sortable(steps)
  {
    d in steps && d in final && (Dispatched(final[d]) ==> final[d].event.hopCount == Layer(DependenciesOf(steps), d))
  }

  lemma HopFromSettled(world: World, steps: Steps, k: string, final: Executions, before: Executions)
    requires Sortable(steps) && Settled(world, steps, final, k, before) && Dispatched(final[k])
    requires forall d :: d in steps[k].dependsOn ==> HasLayer(steps, final, d)
    ensures final[k].event.hopCount == Layer(DependenciesOf(steps), k)
  {
    DispatchMeans(world, steps, steps[k], before);
    HopsOfDone(steps, steps[k].dependsOn, final, before);
    HopIsLayer(steps, k, before);
  }

  lemma HopsOfDone(steps: Steps, dependsOn: seq<string>, final: Executions, before: Executions)
    requires Sortable(steps)
    requires forall d :: d in dependsOn ==> d in before && d in final && before[d] == final[d] && Done(before[d]) && HasLayer(steps, final, d)
    ensures forall d :: d in dependsOn ==> d in steps && HopOf(before[d]) == Layer(DependenciesOf(steps), d)
  {
    forall d | d in dependsOn ensures d in steps && HopOf(before[d]) == Layer(DependenciesOf(steps), d) {
      assert HasLayer(steps, final, d);
    }
  }

  lemma HopFromDependencies(world: World, steps: Steps, k: string)
    requires Sortable(steps) && k in steps
    requires forall d :: d in steps[k].dependsOn ==> d in steps && HopAgrees(world, steps, d)
    ensures HopAgrees(world, steps, k)
  {
    var before := SettledInRun(world, steps, k);
    if Dispatched(Coordinated(world, steps)[k]) {
      HopFromSettled(world, steps, k, Coordinated(world, steps), before);
    }
  }

  /** The hop count a dispatched step is checked against is the length of the longest dependency chain that
      ends at it. */
  lemma HopCountIsLongestChain(world: World, steps: Steps, k: string)
    requires Sortable(steps) && k in steps
    ensures var outcome := Coordinated(world, steps)[k];
      outcome.Ran? || outcome.PolicyDenied? ==>
        && (exists c :: Chain(DependenciesOf(steps), c, k) && |c| == outcome.event.hopCount)
        && (forall c :: Chain(DependenciesOf(steps), c, k) ==> |c| <= outcome.event.hopCount)
  {
    DispatchedHop(world, steps, k);
    LayerIsLongestChain(DependenciesOf(steps), k);
  }

  /* ---------- the classification of a run ---------- */

  /** A run is reported succeeded (or simulated) exactly when every step did; partial when only optional
      steps did not; failed when a required daughter run failed; blocked otherwise. */
  lemma ClassificationIff(steps: Steps, final: Executions, simulate: bool)
    requires final.Keys == steps.Keys
    ensures var status := Classify(steps, final, simulate);
      var allDone := forall k :: k in steps ==> Done(final[k]);
      var requiredDone := forall k :: k in steps && steps[k].required ==> Done(final[k]);
      && (status.RunSucceeded? <==> allDone && !simulate)
      && (status.RunSimulated? <==> allDone && simulate)
      && (status.RunPartial? <==> requiredDone && !allDone)
      && (status.RunFailed? <==> exists k :: k in steps && steps[k].required && StatusOf(final[k]) == Failed)
  {
    var requiredFailures := set k | k in steps && steps[k].required && !Done(final[k]);
    var optionalFailures := set k | k in steps && StatusOf(final[k]) in {Failed, Blocked, Skipped};
    if k :| k in steps && !Done(final[k]) {
      assert k in optionalFailures;
    }
    if k :| k in steps && steps[k].required && !Done(final[k]) {
      assert k in requiredFailures;
    }
    if k :| k in steps && steps[k].required && StatusOf(final[k]) == Failed {
      assert k in requiredFailures;
    }
  }

  /* ---------- the list the steps were given in ---------- */

  lemma {:induction false} ByIdHolds(list: seq<Step>, step: Step)
    requires UniqueIds(list) && step in list
    ensures step.stepId in ById(list) && ById(list)[step.stepId] == step
  {
    var last := |list| - 1;
    if step != list[last] {
      assert step in list[..last];
      var i :| 0 <= i < last && list[i] == step;
      assert list[i].stepId != list[last].stepId;
      ByIdHolds(list[..last], step);
    }
  }

  predicate SameSteps(a: seq<Step>, b: seq<Step>)
  {
    (forall s :: s in a ==> s in b) && forall s :: s in b ==> s in a
  }

  lemma ByIdCovered(a: seq<Step>, b: seq<Step>, k: string)
    requires UniqueIds(b) && k in ById(a) && forall s :: s in a ==> s in b
    ensures k in ById(b) && ById(b)[k] == ById(a)[k]
  {
    ByIdHolds(b, ById(a)[k]);
  }

  lemma ByIdIncluded(a: seq<Step>, b: seq<Step>)
    requires UniqueIds(b) && forall s :: s in a ==> s in b
    ensures forall k :: k in ById(a) ==> k in ById(b) && ById(b)[k] == ById(a)[k]
  {
    forall k | k in ById(a) ensures k in ById(b) && ById(b)[k] == ById(a)[k] {
      ByIdCovered(a, b, k);
    }
  }

  lemma ByIdSame(a: seq<Step>, b: seq<Step>)
    requires UniqueIds(a) && UniqueIds(b) && SameSteps(a, b)
    ensures ById(a) == ById(b)
  {
    ByIdIncluded(a, b);
    ByIdIncluded(b, a);
  }

  /** Reordering the step list reorders the dictionary the sort starts from, but what its loop computes from the
      one or the other is the same order of execution; hence the run is the same. */
  lemma {:induction false} ListOrderIrrelevant(a: seq<Step>, b: seq<Step>)
    requires UniqueIds(a) && UniqueIds(b) && SameSteps(a, b)
    ensures ById(a) == ById(b)
    ensures UniqueKeys(Remaining(a)) && UniqueKeys(Remaining(b))
    ensures Layers(Remaining(a)) == Layers(Remaining(b)) == Order(DependenciesOf(ById(a)))
  {
    ByIdSame(a, b);
    RemainingOf(a);
    RemainingOf(b);
    LayersAreOrder(Remaining(a));
    LayersAreOrder(Remaining(b));
  }
}
