/** Which steps of a coordinated run execute: the condition on dependencies, payload, hop count, registration, policy
    rules and approvals, stated on the workflow and the policy themselves; and what the dispatched event carries.
    Source: src/difoundry/nervous.py:338-373, 470-640, 669-690. */
module Governance {
  import opened Wrappers
  import opened Json
  import opened JsonPath
  import opened Mapping
  import opened Graph
  import opened Coordination
  import opened Confluence

  /* ---------- the policy, spelled out ---------- */

  /** The step's event comes from a daughter of that id: the one of a dependency, or "external" without any. */
  ghost predicate ComesFrom(steps: Steps, step: Coordination.Step, source: string)
  {
    if step.dependsOn == [] then source == "external"
    else exists i :: 0 <= i < |step.dependsOn| && step.dependsOn[i] in steps && steps[step.dependsOn[i]].daughterId == source
  }

  /** The step's event shows a value under a metadata key, where a missing key shows null. */
  predicate Shows(world: World, step: Coordination.Step, key: string, value: Value)
  {
    if key == "event_type" then value == Str(step.eventType)
    else if key == "source_object" then value == Str(step.sourceObject)
    else if key == "workflow_version" then value == world.workflowVersion
    else if key in step.metadata then value == step.metadata[key]
    else value == Null
  }

  /** The rule speaks about the step. */
  ghost predicate Applies(world: World, steps: Steps, step: Coordination.Step, rule: Rule)
  {
    && (rule.source != "*" ==> ComesFrom(steps, step, rule.source))
    && (rule.target != "*" ==> rule.target == step.daughterId)
    && (rule.capability != "*" ==> rule.capability == step.capabilityId)
    && (rule.eventType != "*" ==> rule.eventType == step.eventType)
    && forall key :: key in rule.metadataEquals ==> Shows(world, step, key, rule.metadataEquals[key])
  }

  /** Rule i applies, every other rule that applies has a lower priority or the same one and a later place. */
  ghost predicate Governs(world: World, steps: Steps, step: Coordination.Step, i: nat)
  {
    var rules := world.policy.rules;
    i < |rules| && Applies(world, steps, step, rules[i]) &&
    forall j :: 0 <= j < |rules| && j != i && Applies(world, steps, step, rules[j]) ==>
      rules[j].priority < rules[i].priority || (rules[j].priority == rules[i].priority && i < j)
  }

  /** An effect lets a step run, with the approval it asks for. */
  predicate Lets(world: World, effect: Effect, key: string)
  {
    match effect
    case Allow => true
    case Deny => false
    case RequireApproval => key in world.approvals
  }

  function ApprovalKey(world: World, ruleId: string): string
  {
    if ruleId == "" then world.policy.policyId else ruleId
  }

  /** The governing rule lets the step run, or no rule applies and the default does. */
  ghost predicate Permitted(world: World, steps: Steps, step: Coordination.Step)
  {
    var rules := world.policy.rules;
    || (exists i :: 0 <= i < |rules| && Governs(world, steps, step, i) && Lets(world, rules[i].effect, ApprovalKey(world, rules[i].ruleId)))
    || ((forall i :: 0 <= i < |rules| ==> !Applies(world, steps, step, rules[i]))
        && Lets(world, world.policy.defaultEffect, world.policy.policyId))
  }

  /* ---------- the event of a step ---------- */

  lemma {:induction false} SourcesAre(steps: Steps, dependsOn: seq<string>)
    requires forall d :: d in dependsOn ==> d in steps
    ensures |Sources(steps, dependsOn)| == |dependsOn|
    ensures forall i :: 0 <= i < |dependsOn| ==> Sources(steps, dependsOn)[i] == steps[dependsOn[i]].daughterId
  {
    if dependsOn != [] {
      SourcesAre(steps, dependsOn[1..]);
    }
  }

  predicate IsEventId(outcome: Outcome, id: string)
  {
    Dispatched(outcome) && outcome.event.eventId == id
  }

  lemma {:induction false} CausesAre(dependsOn: seq<string>, x: Executions)
    requires forall i :: 0 <= i < |dependsOn| ==> dependsOn[i] in x && Dispatched(x[dependsOn[i]])
    ensures |Causes(dependsOn, x)| == |dependsOn|
    ensures forall i :: 0 <= i < |dependsOn| ==> IsEventId(x[dependsOn[i]], Causes(dependsOn, x)[i])
  {
    if dependsOn != [] {
      CausesAre(dependsOn[1..], x);
    }
  }

  lemma ShowsIff(world: World, steps: Steps, step: Coordination.Step, x: Executions, payload: Members, key: string, value: Value)
    requires Known(steps, step, x)
    ensures MetadataGet(StepEvent(world, steps, step, x, payload).metadata, key, Null) == value <==> Shows(world, step, key, value)
  {
  }

  lemma SourceIff(world: World, steps: Steps, step: Coordination.Step, x: Executions, payload: Members, source: string)
    requires Known(steps, step, x)
    ensures source in StepEvent(world, steps, step, x, payload).sources <==> ComesFrom(steps, step, source)
  {
    if step.dependsOn != [] {
      SourcesAre(steps, step.dependsOn);
      var sources := Sources(steps, step.dependsOn);
      if source in sources {
        var i :| 0 <= i < |sources| && sources[i] == source;
        assert step.dependsOn[i] in steps && steps[step.dependsOn[i]].daughterId == source;
      }
      if ComesFrom(steps, step, source) {
        var i :| 0 <= i < |step.dependsOn| && step.dependsOn[i] in steps && steps[step.dependsOn[i]].daughterId == source;
        assert sources[i] == source;
      }
    }
  }

  lemma MatchesIff(world: World, steps: Steps, step: Coordination.Step, x: Executions, payload: Members, rule: Rule)
    requires Known(steps, step, x)
    ensures Matches(rule, StepEvent(world, steps, step, x, payload)) <==> Applies(world, steps, step, rule)
  {
    SourceIff(world, steps, step, x, payload, rule.source);
    forall key | key in rule.metadataEquals
      ensures MetadataGet(StepEvent(world, steps, step, x, payload).metadata, key, Null) == rule.metadataEquals[key]
         <==> Shows(world, step, key, rule.metadataEquals[key])
    {
      ShowsIff(world, steps, step, x, payload, key, rule.metadataEquals[key]);
    }
    EventTypeShown(world, steps, step, x, payload);
  }

  lemma EventTypeShown(world: World, steps: Steps, step: Coordination.Step, x: Executions, payload: Members)
    requires Known(steps, step, x)
    ensures MetadataGet(StepEvent(world, steps, step, x, payload).metadata, "event_type", Str("*")) == Str(step.eventType)
  {
  }

  /* ---------- the decision ---------- */

  lemma OneGoverns(world: World, steps: Steps, step: Coordination.Step, i: nat, j: nat)
    requires Governs(world, steps, step, i) && Governs(world, steps, step, j)
    ensures i == j
  {
  }

  lemma PermittedByRule(world: World, steps: Steps, step: Coordination.Step, k: nat)
    requires Governs(world, steps, step, k)
    ensures Permitted(world, steps, step)
       <==> Lets(world, world.policy.rules[k].effect, ApprovalKey(world, world.policy.rules[k].ruleId))
  {
    forall i: nat | Governs(world, steps, step, i) ensures i == k {
      OneGoverns(world, steps, step, i, k);
    }
  }

  lemma PermittedByDefault(world: World, steps: Steps, step: Coordination.Step)
    requires forall i :: 0 <= i < |world.policy.rules| ==> !Applies(world, steps, step, world.policy.rules[i])
    ensures Permitted(world, steps, step) <==> Lets(world, world.policy.defaultEffect, world.policy.policyId)
  {
  }

  lemma BestGoverns(world: World, steps: Steps, step: Coordination.Step, x: Executions, payload: Members) returns (k: nat)
    requires Known(steps, step, x) && BestRule(world.policy.rules, StepEvent(world, steps, step, x, payload)).Some?
    ensures Governs(world, steps, step, k)
    ensures world.policy.rules[k] == BestRule(world.policy.rules, StepEvent(world, steps, step, x, payload)).value
  {
    var rules, event := world.policy.rules, StepEvent(world, steps, step, x, payload);
    BestRuleIsFirstOfHighest(rules, event);
    forall j | 0 <= j < |rules| ensures Matches(rules[j], event) <==> Applies(world, steps, step, rules[j]) {
      MatchesIff(world, steps, step, x, payload, rules[j]);
    }
    var best := BestRule(rules, event).value;
    k :| 0 <= k < |rules| && rules[k] == best && Matches(best, event)
         && (forall i :: 0 <= i < |rules| && Matches(rules[i], event) ==> rules[i].priority <= best.priority)
         && (forall i :: 0 <= i < k && Matches(rules[i], event) ==> rules[i].priority < best.priority);
  }

  lemma NoneApplies(world: World, steps: Steps, step: Coordination.Step, x: Executions, payload: Members)
    requires Known(steps, step, x) && BestRule(world.policy.rules, StepEvent(world, steps, step, x, payload)).None?
    ensures forall i :: 0 <= i < |world.policy.rules| ==> !Applies(world, steps, step, world.policy.rules[i])
  {
    var rules, event := world.policy.rules, StepEvent(world, steps, step, x, payload);
    BestRuleIsFirstOfHighest(rules, event);
    forall i | 0 <= i < |rules| ensures !Applies(world, steps, step, rules[i]) {
      MatchesIff(world, steps, step, x, payload, rules[i]);
    }
  }

  function DecisionFor(world: World, event: Event, supported: bool): Decision
  {
    Approved(Evaluate(world.policy, event, supported), world.policy, world.approvals)
  }

  lemma DecisionIff(world: World, steps: Steps, step: Coordination.Step, x: Executions, payload: Members)
    requires Known(steps, step, x)
    ensures var event := StepEvent(world, steps, step, x, payload);
            DecisionFor(world, event, world.supports(step)).allowed <==>
              && event.hopCount <= world.policy.maximumHops
              && (world.policy.requireRegisteredCapability ==> world.supports(step))
              && Permitted(world, steps, step)
  {
    if BestRule(world.policy.rules, StepEvent(world, steps, step, x, payload)).Some? {
      var k := BestGoverns(world, steps, step, x, payload);
      PermittedByRule(world, steps, step, k);
    } else {
      NoneApplies(world, steps, step, x, payload);
      PermittedByDefault(world, steps, step);
    }
  }

  /* ---------- the run ---------- */

  lemma RunsIffAllowed(world: World, steps: Steps, step: Coordination.Step, x: Executions)
    requires Known(steps, step, x) && Dispatched(RunStep(world, steps, step, x))
    ensures var o := RunStep(world, steps, step, x);
            && StepPayload(Context(world, steps, x), step) == Some(o.event.payload)
            && o.event == StepEvent(world, steps, step, x, o.event.payload)
            && (o.Ran? <==> DecisionFor(world, o.event, world.supports(step)).allowed)
            && (o.Ran? ==> o.result == world.process(step, o.event, world.simulate || !step.execute))
  {
  }

  lemma ChainsWithin(world: World, steps: Steps, k: string, limit: nat)
    requires Sortable(steps) && k in steps && Dispatched(Coordinated(world, steps)[k])
    ensures Coordinated(world, steps)[k].event.hopCount <= limit <==>
            forall c :: Chain(DependenciesOf(steps), c, k) ==> |c| <= limit
  {
    HopCountIsLongestChain(world, steps, k);
  }

  /** Of the steps whose dependencies are done and whose payload maps, exactly those run that no dependency chain puts
      beyond the hop limit, whose capability is registered where that is required, and whose governing rule (or, without
      one, the default) lets them, given the approvals. */
  lemma GovernedIff(world: World, steps: Steps, k: string)
    requires Sortable(steps) && k in steps && Dispatched(Coordinated(world, steps)[k])
    ensures Coordinated(world, steps)[k].Ran? <==>
            && (forall c :: Chain(DependenciesOf(steps), c, k) ==> |c| <= world.policy.maximumHops)
            && (world.policy.requireRegisteredCapability ==> world.supports(steps[k]))
            && Permitted(world, steps, steps[k])
  {
    var before := SettledInRun(world, steps, k);
    RunsIffAllowed(world, steps, steps[k], before);
    var o := Coordinated(world, steps)[k];
    DecisionIff(world, steps, steps[k], before, o.event.payload);
    ChainsWithin(world, steps, k, world.policy.maximumHops);
  }

  /** What a step's outcome was computed from holds its ancestors' final outcomes. */
  lemma BeforeAgrees(world: World, steps: Steps, order: seq<string>, i: nat)
    requires WellFormed(steps) && Extension(steps, order) && Ordered(steps, order) && i < |order|
    ensures Ordered(steps, order[..i])
    ensures AgreeBefore(DependenciesOf(steps), order[i], RunAll(world, steps, order[..i]), RunAll(world, steps, order))
  {
    var g := DependenciesOf(steps);
    OrderedPrefix(steps, order, i);
    forall a {:trigger Ancestor(g, a, order[i])} | Ancestor(g, a, order[i])
      ensures a in order[..i] && a in order && RunAll(world, steps, order[..i])[a] == RunAll(world, steps, order)[a]
    {
      AncestorsComeFirst(g, order, a, i);
      var m :| 0 <= m < i && order[..i][m] == a;
      assert order[m] == a;
      PrefixAgrees(world, steps, order, i, m);
    }
  }

  ghost predicate ComputedFrom(world: World, steps: Steps, k: string, before: Executions)
    requires Sortable(steps)
  {
    var final := Coordinated(world, steps);
    Settled(world, steps, final, k, before) &&
    StepPayload(Context(world, steps, before), steps[k]) == StepPayload(Context(world, steps, final), steps[k])
  }

  lemma PayloadFinal(world: World, steps: Steps, k: string) returns (before: Executions)
    requires Sortable(steps) && LocalInputs(steps) && k in steps
    ensures ComputedFrom(world, steps, k, before)
  {
    SortableOrdered(steps);
    OrderIsLinear(DependenciesOf(steps));
    var order := Order(DependenciesOf(steps)).value;
    var i :| 0 <= i < |order| && order[i] == k;
    OutcomeIsFinal(world, steps, order, i);
    before := RunAll(world, steps, order[..i]);
    forall d | d in steps[k].dependsOn ensures d in order && before[d] == RunAll(world, steps, order)[d] {
      DependencyFinal(world, steps, order, i, d);
    }
    BeforeAgrees(world, steps, order, i);
    PrefixInWorkflow(world, steps, order, i);
    SamePayload(world, steps, k, before, RunAll(world, steps, order));
  }

  /** Each step ends in one way: skipped when a dependency is not done, blocked on its input when its payload does not
      map from the finished run, and dispatched otherwise. */
  lemma DispatchedIff(world: World, steps: Steps, k: string)
    requires Sortable(steps) && LocalInputs(steps) && k in steps
    ensures var final := Coordinated(world, steps);
            && (Dispatched(final[k]) <==>
                 (forall d :: d in DependenciesOf(steps)[k] ==> Done(final[d])) &&
                 StepPayload(Context(world, steps, final), steps[k]).Some?)
            && (final[k].InputMissing? <==>
                 (forall d :: d in DependenciesOf(steps)[k] ==> Done(final[d])) &&
                 StepPayload(Context(world, steps, final), steps[k]).None?)
  {
    var before := PayloadFinal(world, steps, k);
    FourWays(world, steps, steps[k], before);
    SkippedIffDependencyNotDone(world, steps, k);
  }

  lemma FourWays(world: World, steps: Steps, step: Coordination.Step, x: Executions)
    requires Known(steps, step, x)
    ensures var o, maps := RunStep(world, steps, step, x), StepPayload(Context(world, steps, x), step).Some?;
            (Dispatched(o) <==> !o.DependencyFailed? && maps) && (o.InputMissing? <==> !o.DependencyFailed? && !maps)
  {
  }

  /* ---------- what the daughter receives ---------- */

  /** The event of a dispatched step: addressed by the step, numbered by its own fresh id, carrying the payload that
      maps from the finished run; the daughter simulates when the run does or the step is not to be executed. */
  lemma EventCarries(world: World, steps: Steps, k: string)
    requires Sortable(steps) && LocalInputs(steps) && k in steps && Dispatched(Coordinated(world, steps)[k])
    ensures var final, step := Coordinated(world, steps), steps[k];
            var event := final[k].event;
            && event.eventId == world.freshId(k) && event.target == step.daughterId && event.capability == step.capabilityId
            && StepPayload(Context(world, steps, final), step) == Some(event.payload)
            && (final[k].Ran? ==> final[k].result == world.process(step, event, world.simulate || !step.execute))
  {
    var before := PayloadFinal(world, steps, k);
    RunsIffAllowed(world, steps, steps[k], before);
  }

  lemma EventLineage(world: World, steps: Steps, step: Coordination.Step, x: Executions, payload: Members)
    requires Known(steps, step, x) && forall d :: d in step.dependsOn ==> Dispatched(x[d])
    ensures var event, deps := StepEvent(world, steps, step, x, payload), step.dependsOn;
            if deps == [] then event.sources == ["external"] && event.causes == [world.rootEventId]
            else
              && |event.sources| == |event.causes| == |deps|
              && forall i :: 0 <= i < |deps| ==>
                   event.sources[i] == steps[deps[i]].daughterId && IsEventId(x[deps[i]], event.causes[i])
  {
    SourcesAre(steps, step.dependsOn);
    CausesAre(step.dependsOn, x);
  }

  /** It comes from the daughters of the step's dependencies and is caused by their events, in the order the step lists
      them; without dependencies it is external and caused by the root event. */
  lemma EventCauses(world: World, steps: Steps, k: string)
    requires Sortable(steps) && k in steps && Dispatched(Coordinated(world, steps)[k])
    ensures var final, deps := Coordinated(world, steps), steps[k].dependsOn;
            var event := final[k].event;
            if deps == [] then event.sources == ["external"] && event.causes == [world.rootEventId]
            else
              && |event.sources| == |event.causes| == |deps|
              && forall i :: 0 <= i < |deps| ==>
                   deps[i] in steps && event.sources[i] == steps[deps[i]].daughterId && IsEventId(final[deps[i]], event.causes[i])
  {
    var before := SettledInRun(world, steps, k);
    CausesFromSettled(world, steps, k, Coordinated(world, steps), before);
  }

  lemma CausesFromSettled(world: World, steps: Steps, k: string, final: Executions, before: Executions)
    requires Settled(world, steps, final, k, before) && Dispatched(final[k])
    ensures var deps, event := steps[k].dependsOn, final[k].event;
            if deps == [] then event.sources == ["external"] && event.causes == [world.rootEventId]
            else
              && |event.sources| == |event.causes| == |deps|
              && forall i :: 0 <= i < |deps| ==>
                   deps[i] in steps && deps[i] in final &&
                   event.sources[i] == steps[deps[i]].daughterId && IsEventId(final[deps[i]], event.causes[i])
  {
    RunsIffAllowed(world, steps, steps[k], before);
    DispatchMeans(world, steps, steps[k], before);
    EventLineage(world, steps, steps[k], before, final[k].event.payload);
    var deps := steps[k].dependsOn;
    forall i | 0 <= i < |deps| ensures deps[i] in steps && deps[i] in final && before[deps[i]] == final[deps[i]] {
      assert deps[i] in deps;
    }
  }

  /** What counts as done, and how the other outcomes are reported. */
  lemma StatusMeans(outcome: Outcome)
    ensures Done(outcome) <==> outcome.Ran? && outcome.result.status in {LocalSucceeded, LocalSimulated, LocalPlanned}
    ensures StatusOf(outcome) == Succeeded <==> outcome.Ran? && outcome.result.status == LocalSucceeded
    ensures StatusOf(outcome) == Failed <==> outcome.Ran? && outcome.result.status == LocalFailed
    ensures StatusOf(outcome) == Skipped <==> outcome.DependencyFailed?
  {
  }

  /* ---------- the payload ---------- */

  /** What an input contributes: what its source reads, or its default. */
  function InputValue(context: Value, input: Input): Value
  {
    match GetPath(context, input.source) case Some(v) => v case None => input.default
  }

  /** A required input with neither a value nor a default, or one that would replace the whole payload by no object. */
  predicate Unusable(context: Value, input: Input)
  {
    || (input.required && GetPath(context, input.source).None? && input.default == Null)
    || (PathTokens(input.target) == [] && !InputValue(context, input).Obj?)
  }

  lemma {:induction false} InputsMapIff(context: Value, inputs: seq<Input>, payload: Members)
    ensures MapInputs(context, inputs, payload).Some? <==> forall i :: 0 <= i < |inputs| ==> !Unusable(context, inputs[i])
    decreases |inputs|
  {
    if inputs != [] {
      var next := SetPath(payload, inputs[0].target, InputValue(context, inputs[0]));
      if next.Some? {
        InputsMapIff(context, inputs[1..], next.value);
      }
      assert forall i :: 1 <= i < |inputs| ==> inputs[i] == inputs[1..][i - 1];
    }
  }

  function AsRule(input: Input): MappingRule
  {
    MappingRule(input.source, input.target, false, input.default, [])
  }

  function AsRules(inputs: seq<Input>): seq<MappingRule>
  {
    seq(|inputs|, i requires 0 <= i < |inputs| => AsRule(inputs[i]))
  }

  lemma {:induction false} InputsAsRules(context: Value, inputs: seq<Input>, apply: Transform, payload: Members)
    requires MapInputs(context, inputs, payload).Some?
    ensures MapAll(context, AsRules(inputs), apply, payload) == Success(MapInputs(context, inputs, payload).value)
    decreases |inputs|
  {
    if inputs != [] {
      assert AsRules(inputs)[1..] == AsRules(inputs[1..]);
      assert RuleValue(context, AsRule(inputs[0]), apply) == Success(InputValue(context, inputs[0]));
      InputsAsRules(context, inputs[1..], apply, SetPath(payload, inputs[0].target, InputValue(context, inputs[0])).value);
    }
  }

  /** A step's payload maps unless one of its inputs is unusable. With targets none of which is a prefix of another, it
      then holds every input's value at its target. */
  lemma PayloadHoldsInputs(context: Value, step: Coordination.Step)
    requires step.inputs != []
    ensures StepPayload(context, step).Some? <==> forall i :: 0 <= i < |step.inputs| ==> !Unusable(context, step.inputs[i])
    ensures StepPayload(context, step).Some? && PrefixFree(AsRules(step.inputs)) ==>
              forall i :: 0 <= i < |step.inputs| && step.inputs[i].target != "$" ==>
                GetPath(Obj(StepPayload(context, step).value), step.inputs[i].target) == Some(InputValue(context, step.inputs[i]))
  {
    InputsMapIff(context, step.inputs, map[]);
    if StepPayload(context, step).Some? && PrefixFree(AsRules(step.inputs)) {
      var apply: Transform := (v: Value, w: Value) => None;
      InputsAsRules(context, step.inputs, apply, map[]);
      forall i | 0 <= i < |step.inputs| && step.inputs[i].target != "$"
        ensures GetPath(Obj(StepPayload(context, step).value), step.inputs[i].target) == Some(InputValue(context, step.inputs[i]))
      {
        assert AsRules(step.inputs)[i] == AsRule(step.inputs[i]);
        EveryTargetHoldsItsValue(context, AsRules(step.inputs), apply, map[], i);
        assert RuleValue(context, AsRule(step.inputs[i]), apply) == Success(InputValue(context, step.inputs[i]));
      }
    }
  }

  lemma ReadRootPayload(world: World, steps: Steps, x: Executions, path: string)
    requires PathTokens(path) == ["root", "payload"] && path !in {"", "$", "."} && InWorkflow(steps, x)
    ensures GetPath(Context(world, steps, x), path) == JsonPath.Step(world.root, "payload")
  {
    var tokens := ["root", "payload"];
    assert tokens[1..] == ["payload"] && ["payload"][1..] == [];
    LookupInContext(world, steps, x, tokens);
    match JsonPath.Step(world.root, "payload")
    case Some(v) => assert Lookup(v, []) == Some(v);
    case None =>
  }

  /** What a step without inputs makes of the root payload: wrapped if it is no object, empty if there is none. */
  function Wrapped(payload: Option<Value>): Members
  {
    match payload
    case None => map[]
    case Some(v) => if v.Obj? then v.members else map["value" := v]
  }

  lemma WithoutInputs(context: Value, step: Coordination.Step, root: Option<Value>)
    requires step.inputs == [] && GetPath(context, "root.payload") == root
    ensures StepPayload(context, step) == Some(Wrapped(root))
  {
  }

  /** A step without inputs gets the root event's payload. */
  lemma RootPayload(world: World, steps: Steps, x: Executions, step: Coordination.Step)
    requires step.inputs == [] && InWorkflow(steps, x)
    ensures StepPayload(Context(world, steps, x), step) == Some(Wrapped(JsonPath.Step(world.root, "payload")))
  {
    TwoPartPath("root", "payload");
    assert "root" + "." + "payload" == "root.payload";
    ReadRootPayload(world, steps, x, "root.payload");
    WithoutInputs(Context(world, steps, x), step, JsonPath.Step(world.root, "payload"));
  }
}
