/** The workflow coordinator of `nervous.py`: policy evaluation, payload mapping, dependency-driven
    skipping and the classification of a finished run. */
module Coordination {
  import opened Wrappers
  import opened Json
  import opened JsonPath
  import opened Graph

  datatype Input = Input(source: string, target: string, required: bool, default: Value)

  datatype Step = Step(
    stepId: string, daughterId: string, capabilityId: string, sourceObject: string, eventType: string,
    dependsOn: seq<string>, inputs: seq<Input>, required: bool, execute: bool, metadata: Members)

  /* ---------- global policy ---------- */

  datatype Effect = Allow | Deny | RequireApproval

  datatype Rule = Rule(
    ruleId: string, effect: Effect, source: string, target: string, capability: string, eventType: string,
    metadataEquals: Members, priority: int)

  datatype Policy = Policy(
    policyId: string, defaultEffect: Effect, rules: seq<Rule>, maximumHops: nat, requireRegisteredCapability: bool)

  datatype Decision = Decision(allowed: bool, approvalRequired: bool, ruleId: Option<string>)

  datatype Event = Event(
    eventId: string, target: string, capability: string, hopCount: nat, payload: Members,
    sources: seq<string>, causes: seq<string>, metadata: Members)

  function MetadataGet(metadata: Members, key: string, default: Value): Value
  {
    if key in metadata then metadata[key] else default
  }

  /** `GlobalPolicyEngine._matches`. */
  predicate Matches(rule: Rule, event: Event)
  {
    && (rule.source == "*" || rule.source in event.sources)
    && rule.target in {"*", event.target}
    && rule.capability in {"*", event.capability}
    && (rule.eventType == "*" || Str(rule.eventType) == MetadataGet(event.metadata, "event_type", Str("*")))
    && forall key :: key in rule.metadataEquals ==> MetadataGet(event.metadata, key, Null) == rule.metadataEquals[key]
  }

  /** The head of the matching rules after the stable sort by descending priority. */
  function BestRule(rules: seq<Rule>, event: Event): Option<Rule>
  {
    if rules == [] then None
    else
      var later := BestRule(rules[1..], event);
      if Matches(rules[0], event) && (later.None? || later.value.priority <= rules[0].priority) then Some(rules[0])
      else later
  }

  /** The rule applied matches, no matching rule has a higher priority, and among equals it is the first;
      no rule is applied exactly when none matches. */
  lemma {:induction false} BestRuleIsFirstOfHighest(rules: seq<Rule>, event: Event)
    ensures match BestRule(rules, event)
      case None => forall i :: 0 <= i < |rules| ==> !Matches(rules[i], event)
      case Some(best) =>
        exists k :: 0 <= k < |rules| && rules[k] == best && Matches(best, event)
          && (forall i :: 0 <= i < |rules| && Matches(rules[i], event) ==> rules[i].priority <= best.priority)
          && (forall i :: 0 <= i < k && Matches(rules[i], event) ==> rules[i].priority < best.priority)
  {
    if rules != [] {
      var rest := rules[1..];
      BestRuleIsFirstOfHighest(rest, event);
      assert forall i :: 1 <= i < |rules| ==> rules[i] == rest[i - 1];
      match BestRule(rest, event) {
        case None =>
          if Matches(rules[0], event) { assert rules[0] == BestRule(rules, event).value; }
        case Some(later) =>
          var k :| 0 <= k < |rest| && rest[k] == later && Matches(later, event)
            && (forall i :: 0 <= i < |rest| && Matches(rest[i], event) ==> rest[i].priority <= later.priority)
            && (forall i :: 0 <= i < k && Matches(rest[i], event) ==> rest[i].priority < later.priority);
          if BestRule(rules, event) == Some(rules[0]) && Matches(rules[0], event) && later.priority <= rules[0].priority {
            assert rules[0] == BestRule(rules, event).value;
          } else {
            assert rules[k + 1] == later;
          }
      }
    }
  }

  /** `GlobalPolicyEngine.evaluate`; `supported` is what the daughter registration answers. */
  function Evaluate(policy: Policy, event: Event, supported: bool): Decision
  {
    if event.hopCount > policy.maximumHops then Decision(false, false, None)
    else if policy.requireRegisteredCapability && !supported then Decision(false, false, None)
    else
      match BestRule(policy.rules, event)
      case Some(rule) => Decision(rule.effect.Allow?, rule.effect.RequireApproval?, Some(rule.ruleId))
      case None => Decision(policy.defaultEffect.Allow?, policy.defaultEffect.RequireApproval?, None)
  }

  /** The approval gate of `coordinate`. */
  function Approved(decision: Decision, policy: Policy, approvals: set<string>): Decision
  {
    if decision.approvalRequired then
      var key := match decision.ruleId case Some(id) => (if id == "" then policy.policyId else id) case None => policy.policyId;
      decision.(allowed := key in approvals)
    else decision
  }

  /* ---------- one step ---------- */

  datatype LocalStatus = LocalSucceeded | LocalSimulated | LocalFailed | LocalBlocked | LocalAbstained | LocalDuplicate | LocalPlanned

  datatype LocalResult = LocalResult(status: LocalStatus, detail: Value)

  datatype Status = Succeeded | Simulated | Failed | Blocked | Skipped

  datatype Outcome =
    | DependencyFailed
    | InputMissing
    | PolicyDenied(event: Event, decision: Decision)
    | Ran(event: Event, decision: Decision, result: LocalResult)

  function StatusOf(outcome: Outcome): Status
  {
    match outcome
    case DependencyFailed => Skipped
    case InputMissing => Blocked
    case PolicyDenied(_, _) => Blocked
    case Ran(_, _, result) =>
      match result.status
      case LocalSucceeded => Succeeded
      case LocalSimulated => Simulated
      case LocalPlanned => Simulated
      case LocalFailed => Failed
      case _ => Blocked
  }

  predicate Done(outcome: Outcome)
  {
    StatusOf(outcome) in {Succeeded, Simulated}
  }

  /** Everything a run reads besides the steps: the root event, policy and approvals, the daughters as fixed
      functions, fresh event ids, and how an outcome is written into the context for later inputs. */
  datatype World = World(
    root: Value, rootEventId: string, workflowVersion: Value, policy: Policy, approvals: set<string>, simulate: bool,
    supports: (Step) -> bool,
    process: (Step, Event, bool) -> LocalResult,
    render: (Step, Outcome) -> Value,
    freshId: string -> string)

  type Steps = map<string, Step>
  type Executions = map<string, Outcome>

  function Context(world: World, steps: Steps, executions: Executions): Value
  {
    Obj(map["root" := world.root,
            "steps" := Obj(map k | k in executions && k in steps :: world.render(steps[k], executions[k]))])
  }

  function MapInputs(context: Value, inputs: seq<Input>, payload: Members): Option<Members>
    decreases |inputs|
  {
    if inputs == [] then Some(payload)
    else
      var read := GetPath(context, inputs[0].source);
      var value := if read.Some? then read.value else inputs[0].default;
      if read.None? && inputs[0].required && value == Null then None
      else
        match SetPath(payload, inputs[0].target, value)
        case Some(next) => MapInputs(context, inputs[1..], next)
        case None => None
  }

  /** `_map_step_payload`; None where it raises KeyError or ValueError. */
  function StepPayload(context: Value, step: Step): Option<Members>
  {
    if step.inputs == [] then
      match GetPath(context, "root.payload")
      case None => Some(map[])
      case Some(Obj(members)) => Some(members)
      case Some(other) => Some(map["value" := other])
    else MapInputs(context, step.inputs, map[])
  }

  method MapStepPayload(context: Value, step: Step) returns (r: Option<Members>)
    ensures r == StepPayload(context, step)
  {
    if step.inputs == [] {
      var root := Get(context, "root.payload", Some(Obj(map[])));
      match root {
        case Some(Obj(members)) => return Some(members);
        case Some(other) => return Some(map["value" := other]);
        case None => assert false;
      }
    }
    var payload := new Dictionary();
    for i := 0 to |step.inputs|
      invariant StepPayload(context, step) == MapInputs(context, step.inputs[i..], payload.members)
    {
      var item := step.inputs[i];
      assert step.inputs[i..][1..] == step.inputs[i + 1..];
      var read := Get(context, item.source, None);
      var value := if read.Some? then read.value else item.default;
      if read.None? && item.required && value == Null { return None; }
      var ok := payload.Set(item.target, value);
      if !ok { return None; }
    }
    return Some(payload.members);
  }

  function HopOf(outcome: Outcome): nat
  {
    if outcome.Ran? then outcome.event.hopCount else 1
  }

  function MaxHop(dependsOn: seq<string>, executions: Executions): nat
    requires dependsOn != [] && forall d :: d in dependsOn ==> d in executions
  {
    var first := HopOf(executions[dependsOn[0]]);
    if |dependsOn| == 1 then first
    else
      var rest := MaxHop(dependsOn[1..], executions);
      if first >= rest then first else rest
  }

  /** `_hop_count`. */
  function HopCount(step: Step, executions: Executions): nat
    requires forall d :: d in step.dependsOn ==> d in executions
  {
    if step.dependsOn == [] then 1 else 1 + MaxHop(step.dependsOn, executions)
  }

  function Sources(steps: Steps, dependsOn: seq<string>): seq<string>
    requires forall d :: d in dependsOn ==> d in steps
  {
    if dependsOn == [] then [] else [steps[dependsOn[0]].daughterId] + Sources(steps, dependsOn[1..])
  }

  function Causes(dependsOn: seq<string>, executions: Executions): seq<string>
    requires forall d :: d in dependsOn ==> d in executions
  {
    if dependsOn == [] then []
    else
      var outcome := executions[dependsOn[0]];
      (if outcome.Ran? || outcome.PolicyDenied? then [outcome.event.eventId] else []) + Causes(dependsOn[1..], executions)
  }

  predicate Known(steps: Steps, step: Step, executions: Executions)
  {
    forall d :: d in step.dependsOn ==> d in executions && d in steps
  }

  function StepEvent(world: World, steps: Steps, step: Step, executions: Executions, payload: Members): Event
    requires Known(steps, step, executions)
  {
    Event(
      world.freshId(step.stepId), step.daughterId, step.capabilityId, HopCount(step, executions), payload,
      if step.dependsOn == [] then ["external"] else Sources(steps, step.dependsOn),
      if step.dependsOn == [] then [world.rootEventId] else Causes(step.dependsOn, executions),
      step.metadata["event_type" := Str(step.eventType)]["source_object" := Str(step.sourceObject)]["workflow_version" := world.workflowVersion])
  }

  /** Everything after the payload of a step has been mapped. */
  function Dispatch(world: World, steps: Steps, step: Step, executions: Executions, payload: Members): Outcome
    requires Known(steps, step, executions)
  {
    var event := StepEvent(world, steps, step, executions, payload);
    var decision := Approved(Evaluate(world.policy, event, world.supports(step)), world.policy, world.approvals);
    if !decision.allowed then PolicyDenied(event, decision)
    else Ran(event, decision, world.process(step, event, world.simulate || !step.execute))
  }

  /** The body of the loop in `coordinate`. */
  function RunStep(world: World, steps: Steps, step: Step, executions: Executions): Outcome
    requires Known(steps, step, executions)
  {
    if exists d :: d in step.dependsOn && !Done(executions[d]) then DependencyFailed
    else
      match StepPayload(Context(world, steps, executions), step)
      case None => InputMissing
      case Some(payload) => Dispatch(world, steps, step, executions, payload)
  }

  /* ---------- workflows ---------- */

  function DependenciesOf(steps: Steps): Dependencies
  {
    map k | k in steps :: (set d | d in steps[k].dependsOn)
  }

  /** `{step.step_id: step for step in self.steps}`. */
  function ById(list: seq<Step>): (steps: Steps)
    ensures forall k :: k in steps ==> steps[k] in list && steps[k].stepId == k
    ensures forall i :: 0 <= i < |list| ==> list[i].stepId in steps
  {
    if list == [] then map[]
    else
      var last := list[|list| - 1];
      ById(list[..|list| - 1])[last.stepId := last]
  }

  /** `{step.step_id: set(step.depends_on) for step in self.steps}`, in list order. */
  function Remaining(list: seq<Step>): (remaining: seq<Pending>)
    ensures |remaining| == |list|
  {
    seq(|list|, i requires 0 <= i < |list| => Pending(list[i].stepId, set d | d in list[i].dependsOn))
  }

  predicate UniqueIds(list: seq<Step>)
  {
    forall i, j :: 0 <= i < j < |list| ==> list[i].stepId != list[j].stepId
  }

  /** The dictionary that the sort starts from describes the dependencies of the steps. */
  lemma {:induction false} RemainingOf(list: seq<Step>)
    requires UniqueIds(list)
    ensures UniqueKeys(Remaining(list)) && GraphOf(Remaining(list)) == DependenciesOf(ById(list))
  {
    if list != [] {
      var front, last := list[..|list| - 1], list[|list| - 1];
      RemainingOf(front);
      RemainingAdds(list);
      AddDependencies(ById(front), last);
    }
    RemainingUnique(list);
  }

  lemma RemainingAdds(list: seq<Step>)
    requires list != []
    ensures var front, last := list[..|list| - 1], list[|list| - 1];
      GraphOf(Remaining(list)) == GraphOf(Remaining(front))[last.stepId := set d | d in last.dependsOn]
  {
    assert Remaining(list)[..|list| - 1] == Remaining(list[..|list| - 1]);
  }

  lemma RemainingUnique(list: seq<Step>)
    requires UniqueIds(list)
    ensures UniqueKeys(Remaining(list))
  {
  }

  lemma AddDependencies(steps: Steps, last: Step)
    ensures DependenciesOf(steps[last.stepId := last]) == DependenciesOf(steps)[last.stepId := set d | d in last.dependsOn]
  {
  }

  predicate WellFormed(steps: Steps)
  {
    && (forall k :: k in steps ==> steps[k].stepId == k)
    && Closed(DependenciesOf(steps))
  }

  /** The i-th step is known and its dependencies come before it. */
  predicate ReadyAt(steps: Steps, order: seq<string>, i: nat)
    requires i < |order|
  {
    order[i] in steps && forall d :: d in steps[order[i]].dependsOn ==> d in order[..i] && d in steps
  }

  predicate Ordered(steps: Steps, order: seq<string>)
  {
    forall i {:trigger ReadyAt(steps, order, i)} :: 0 <= i < |order| ==> ReadyAt(steps, order, i)
  }

  lemma OrderedPrefix(steps: Steps, order: seq<string>, i: nat)
    requires Ordered(steps, order) && i <= |order|
    ensures Ordered(steps, order[..i])
  {
    forall j | 0 <= j < i ensures ReadyAt(steps, order[..i], j) {
      assert ReadyAt(steps, order, j);
      assert order[..i][..j] == order[..j];
    }
  }

  lemma KnownAtLast(steps: Steps, order: seq<string>, executions: Executions)
    requires Ordered(steps, order) && order != []
    requires forall k :: k in order[..|order| - 1] ==> k in executions
    ensures order[|order| - 1] in steps && Known(steps, steps[order[|order| - 1]], executions)
  {
    assert ReadyAt(steps, order, |order| - 1);
  }

  /** The executions after running the steps in this order. */
  function RunAll(world: World, steps: Steps, order: seq<string>): (executions: Executions)
    requires Ordered(steps, order)
    ensures forall k :: k in executions <==> k in order
    decreases |order|
  {
    if order == [] then map[]
    else
      var init, k := order[..|order| - 1], order[|order| - 1];
      OrderedPrefix(steps, order, |init|);
      var before := RunAll(world, steps, init);
      KnownAtLast(steps, order, before);
      assert order == init + [k];
      Record(world, steps, k, before)
  }

  function Record(world: World, steps: Steps, k: string, before: Executions): (after: Executions)
    requires k in steps && Known(steps, steps[k], before)
    ensures after.Keys == before.Keys + {k}
  {
    before[k := RunStep(world, steps, steps[k], before)]
  }

  /* ---------- the loop ---------- */

  datatype RunStatus = RunSucceeded | RunSimulated | RunPartial | RunFailed | RunBlocked

  /** How `coordinate` classifies a finished run. */
  function Classify(steps: Steps, executions: Executions, simulate: bool): RunStatus
    requires executions.Keys == steps.Keys
  {
    var requiredFailures := set k | k in steps && steps[k].required && !Done(executions[k]);
    var optionalFailures := set k | k in steps && StatusOf(executions[k]) in {Failed, Blocked, Skipped};
    if requiredFailures != {} then
      if exists k :: k in requiredFailures && StatusOf(executions[k]) == Failed then RunFailed else RunBlocked
    else if optionalFailures != {} then RunPartial
    else if simulate then RunSimulated
    else RunSucceeded
  }

  /** The coordinator's record of one run. */
  class Coordinator {
    var executions: Executions

    constructor ()
      ensures executions == map[]
    {
      executions := map[];
    }

    /** `coordinate`, from the topological order to the classification. */
    method Coordinate(world: World, list: seq<Step>) returns (status: RunStatus)
      requires UniqueIds(list) && Sortable(ById(list))
      modifies this
      ensures executions == Coordinated(world, ById(list))
      ensures status == Classify(ById(list), executions, world.simulate)
    {
      var steps := ById(list);
      RemainingOf(list);
      var result := TopologicalOrder(Remaining(list));
      SortableOrdered(steps);
      RunSteps(world, steps, result.value);
      status := Classify(steps, executions, world.simulate);
    }

    /** The loop over the ordered steps. */
    method RunSteps(world: World, steps: Steps, order: seq<string>)
      requires Ordered(steps, order)
      modifies this
      ensures executions == RunAll(world, steps, order)
    {
      executions := map[];
      assert order[..0] == [];
      for i := 0 to |order|
        invariant Ordered(steps, order[..i])
        invariant executions == RunAll(world, steps, order[..i])
      {
        RunOneMore(world, steps, order, i);
        executions := Record(world, steps, order[i], executions);
      }
      assert order[..|order|] == order;
    }
  }

  /** A workflow that `validate_graph` has accepted. */
  predicate Sortable(steps: Steps)
  {
    WellFormed(steps) && Order(DependenciesOf(steps)).Some?
  }

  lemma SortableOrdered(steps: Steps)
    requires Sortable(steps)
    ensures Ordered(steps, Order(DependenciesOf(steps)).value)
    ensures forall k :: k in Order(DependenciesOf(steps)).value <==> k in steps
  {
    OrderIsLinear(DependenciesOf(steps));
    LinearIsOrdered(steps, Order(DependenciesOf(steps)).value);
  }

  /** The executions of a run in the coordinator's own order. */
  function Coordinated(world: World, steps: Steps): (executions: Executions)
    requires Sortable(steps)
    ensures executions.Keys == steps.Keys
  {
    SortableOrdered(steps);
    RunAll(world, steps, Order(DependenciesOf(steps)).value)
  }

  lemma RunOneMore(world: World, steps: Steps, order: seq<string>, i: nat)
    requires Ordered(steps, order) && i < |order|
    ensures Ordered(steps, order[..i]) && Ordered(steps, order[..i + 1])
    ensures order[i] in steps && Known(steps, steps[order[i]], RunAll(world, steps, order[..i]))
    ensures RunAll(world, steps, order[..i + 1]) == Record(world, steps, order[i], RunAll(world, steps, order[..i]))
  {
    OrderedPrefix(steps, order, i);
    OrderedPrefix(steps, order, i + 1);
    var longer := order[..i + 1];
    assert longer[..|longer| - 1] == order[..i] && longer[|longer| - 1] == order[i];
    KnownAtLast(steps, longer, RunAll(world, steps, order[..i]));
  }

  lemma LinearIsOrdered(steps: Steps, order: seq<string>)
    requires WellFormed(steps) && Linear(DependenciesOf(steps), order)
    ensures Ordered(steps, order)
  {
    var g := DependenciesOf(steps);
    forall i | 0 <= i < |order| ensures ReadyAt(steps, order, i) {
      assert order[i] in order;
      forall d | d in steps[order[i]].dependsOn ensures d in order[..i] && d in steps {
        assert d in g[order[i]];
        var j :| 0 <= j < i && order[..i][j] == d;
        assert order[j] == d && order[j] in order;
      }
    }
  }
}
