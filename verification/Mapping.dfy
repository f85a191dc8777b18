/** `MappingEngine.map_payload` on values: each rule reads a source path, transforms the value and writes a target.
    The code stores values by reference; `SharedMapping` models that and `MappingLaws` shows when the two agree. */
module Mapping {
  import opened Wrappers
  import opened Json
  import opened JsonPath

  datatype MappingRule = MappingRule(source: string, target: string, required: bool, default: Value, transforms: seq<Value>)

  datatype MappingError = MissingRequired | TransformFailed | ProducedNone | RootAssignment

  /** The transform registry in a fixed mapping context; None where a transform raises. */
  type Transform = (Value, Value) -> Option<Value>

  function Transformed(value: Value, transforms: seq<Value>, apply: Transform): Option<Value>
    decreases |transforms|
  {
    if transforms == [] then Some(value)
    else
      match apply(value, transforms[0])
      case Some(next) => Transformed(next, transforms[1..], apply)
      case None => None
  }

  /** The value one rule writes. */
  function RuleValue(source: Value, rule: MappingRule, apply: Transform): Result<Value, MappingError>
  {
    var read := GetPath(source, rule.source);
    var start := if read.Some? then read.value else rule.default;
    if read.None? && rule.required && start == Null then Failure(MissingRequired)
    else
      match Transformed(start, rule.transforms, apply)
      case None => Failure(TransformFailed)
      case Some(value) => if rule.required && value == Null then Failure(ProducedNone) else Success(value)
  }

  /** The payload when every value written is a copy. */
  function MapAll(source: Value, rules: seq<MappingRule>, apply: Transform, output: Members): Result<Members, MappingError>
  {
    if rules == [] then Success(output)
    else
      var value :- RuleValue(source, rules[0], apply);
      match SetPath(output, rules[0].target, value)
      case None => Failure(RootAssignment)
      case Some(next) => MapAll(source, rules[1..], apply, next)
  }

  /* ---------- the value of a rule ---------- */

  /** Transforms run in the order listed, each on what the one before it gave; the first that raises ends the chain. */
  lemma {:induction false} TransformsInOrder(value: Value, transforms: seq<Value>, last: Value, apply: Transform)
    ensures Transformed(value, [], apply) == Some(value)
    ensures Transformed(value, transforms + [last], apply) ==
            match Transformed(value, transforms, apply) case Some(v) => apply(v, last) case None => None
    decreases |transforms|
  {
    if transforms == [] {
      assert [] + [last] == [last] && [last][1..] == [];
    } else {
      assert (transforms + [last])[1..] == transforms[1..] + [last];
      if apply(value, transforms[0]).Some? {
        TransformsInOrder(apply(value, transforms[0]).value, transforms[1..], last, apply);
      }
    }
  }

  /** What a rule starts from: the value its source reads, or its default. */
  function StartOf(source: Value, rule: MappingRule): Value
  {
    match GetPath(source, rule.source) case Some(v) => v case None => rule.default
  }

  /** A rule fails for one reason only: first a required source that is missing without a default, then a transform that
      raises, then a required value that comes out as none; otherwise it writes its transformed start value. */
  lemma RuleValueMeans(source: Value, rule: MappingRule, apply: Transform)
    ensures var r, missing := RuleValue(source, rule, apply), rule.required && GetPath(source, rule.source).None? && rule.default == Null;
            var value := Transformed(StartOf(source, rule), rule.transforms, apply);
            && (r == Failure(MissingRequired) <==> missing)
            && (r == Failure(TransformFailed) <==> !missing && value.None?)
            && (r == Failure(ProducedNone) <==> !missing && rule.required && value == Some(Null))
            && (r.Success? <==> !missing && value.Some? && !(rule.required && value == Some(Null)))
            && (r.Success? ==> value == Some(r.value))
  {
  }

  /* ---------- what the payload holds ---------- */

  /** No target is a token prefix of another. */
  predicate PrefixFree(rules: seq<MappingRule>)
  {
    forall i, j :: 0 <= i < j < |rules| ==> Unrelated(PathTokens(rules[i].target), PathTokens(rules[j].target))
  }

  /** A path that was written and is unrelated to every later target keeps its value. */
  lemma {:induction false} LaterRulesKeep(source: Value, rules: seq<MappingRule>, apply: Transform, output: Members, tokens: seq<string>)
    requires MapAll(source, rules, apply, output).Success?
    requires forall i :: 0 <= i < |rules| ==> Unrelated(PathTokens(rules[i].target), tokens)
    requires Spine(output, tokens)
    ensures Lookup(Obj(MapAll(source, rules, apply, output).value), tokens) == Lookup(Obj(output), tokens)
    decreases |rules|
  {
    if rules != [] {
      var value := RuleValue(source, rules[0], apply).value;
      var a := PathTokens(rules[0].target);
      UnrelatedTails(a, tokens);
      SpineKept(output, a, tokens, value);
      LookupFrame(output, a, tokens, value);
      LaterRulesKeep(source, rules[1..], apply, Assign(output, a, value), tokens);
    }
  }

  lemma PrefixFreeTail(rules: seq<MappingRule>)
    requires PrefixFree(rules) && rules != []
    ensures PrefixFree(rules[1..])
  {
    var rest := rules[1..];
    forall i, j | 0 <= i < j < |rest| ensures Unrelated(PathTokens(rest[i].target), PathTokens(rest[j].target)) {
      assert rest[i] == rules[i + 1] && rest[j] == rules[j + 1];
    }
  }

  /** Payload after the first rule. */
  function AfterFirst(source: Value, rules: seq<MappingRule>, apply: Transform, output: Members): Members
    requires rules != [] && MapAll(source, rules, apply, output).Success?
  {
    SetPath(output, rules[0].target, RuleValue(source, rules[0], apply).value).value
  }

  lemma FirstRule(source: Value, rules: seq<MappingRule>, apply: Transform, output: Members)
    requires rules != [] && MapAll(source, rules, apply, output).Success?
    ensures RuleValue(source, rules[0], apply).Success?
    ensures SetPath(output, rules[0].target, RuleValue(source, rules[0], apply).value).Some?
    ensures MapAll(source, rules, apply, output) == MapAll(source, rules[1..], apply, AfterFirst(source, rules, apply, output))
  {
  }

  /** What the first rule wrote, if unrelated to every later target, is read back from the finished payload. */
  lemma FirstTarget(source: Value, rules: seq<MappingRule>, apply: Transform, output: Members)
    requires PrefixFree(rules) && rules != [] && rules[0].target != "$" && MapAll(source, rules, apply, output).Success?
    ensures RuleValue(source, rules[0], apply).Success?
    ensures GetPath(Obj(MapAll(source, rules, apply, output).value), rules[0].target)
         == Some(RuleValue(source, rules[0], apply).value)
  {
    FirstRule(source, rules, apply, output);
    var value, rest := RuleValue(source, rules[0], apply).value, rules[1..];
    var path, tokens, next := rules[0].target, PathTokens(rules[0].target), AfterFirst(source, rules, apply, output);
    GetAfterSet(output, path, value);
    forall i | 0 <= i < |rest| ensures Unrelated(PathTokens(rest[i].target), tokens) {
      assert Unrelated(tokens, PathTokens(rules[i + 1].target));
    }
    if tokens != [] {
      AssignMakesSpine(output, tokens, value);
      RootSpellings();
    }
    LaterRulesKeep(source, rest, apply, next, tokens);
  }

  /** With prefix-free targets, every target of the payload reads exactly its own rule's transformed value;
      "$", which `get_path` reads as the root, is the one spelling excluded. */
  lemma {:induction false} EveryTargetHoldsItsValue(source: Value, rules: seq<MappingRule>, apply: Transform, output: Members, k: nat)
    requires PrefixFree(rules) && k < |rules| && rules[k].target != "$"
    requires MapAll(source, rules, apply, output).Success?
    ensures RuleValue(source, rules[k], apply).Success?
    ensures GetPath(Obj(MapAll(source, rules, apply, output).value), rules[k].target)
         == Some(RuleValue(source, rules[k], apply).value)
    decreases |rules|
  {
    if k == 0 {
      FirstTarget(source, rules, apply, output);
    } else {
      FirstRule(source, rules, apply, output);
      PrefixFreeTail(rules);
      EveryTargetHoldsItsValue(source, rules[1..], apply, AfterFirst(source, rules, apply, output), k - 1);
    }
  }

  /** The same rule list with one adjacent pair exchanged. */
  function Exchanged(rules: seq<MappingRule>, k: nat): seq<MappingRule>
    requires k + 1 < |rules|
  {
    rules[k := rules[k + 1]][k + 1 := rules[k]]
  }

  lemma TwoRules(source: Value, rules: seq<MappingRule>, apply: Transform, output: Members)
    requires |rules| >= 2
    requires PathTokens(rules[0].target) != [] && PathTokens(rules[1].target) != []
    requires RuleValue(source, rules[0], apply).Success? && RuleValue(source, rules[1], apply).Success?
    ensures MapAll(source, rules, apply, output) ==
            MapAll(source, rules[2..], apply,
              Assign(Assign(output, PathTokens(rules[0].target), RuleValue(source, rules[0], apply).value),
                     PathTokens(rules[1].target), RuleValue(source, rules[1], apply).value))
  {
    assert rules[1..][0] == rules[1] && rules[1..][1..] == rules[2..];
  }

  lemma FirstTwoExchange(source: Value, rules: seq<MappingRule>, apply: Transform, output: Members)
    requires |rules| >= 2 && Unrelated(PathTokens(rules[0].target), PathTokens(rules[1].target))
    requires MapAll(source, rules, apply, output).Success?
    ensures MapAll(source, Exchanged(rules, 0), apply, output) == MapAll(source, rules, apply, output)
  {
    var a, b := PathTokens(rules[0].target), PathTokens(rules[1].target);
    UnrelatedTails(a, b);
    assert rules[1..][0] == rules[1];
    var x, y := RuleValue(source, rules[0], apply).value, RuleValue(source, rules[1], apply).value;
    AssignCommutes(output, a, b, x, y);
    TwoRules(source, rules, apply, output);
    TwoRules(source, Exchanged(rules, 0), apply, output);
    assert Exchanged(rules, 0)[2..] == rules[2..];
  }

  /** Running a list of rules is running its two parts one after the other. */
  lemma {:induction false} MapAllConcat(source: Value, a: seq<MappingRule>, b: seq<MappingRule>, apply: Transform, output: Members)
    ensures MapAll(source, a + b, apply, output) ==
            (match MapAll(source, a, apply, output) case Success(next) => MapAll(source, b, apply, next) case Failure(e) => Failure(e))
  {
    if a == [] {
      assert a + b == b;
    } else {
      assert (a + b)[1..] == a[1..] + b;
      var value := RuleValue(source, a[0], apply);
      if value.Success? && SetPath(output, a[0].target, value.value).Some? {
        MapAllConcat(source, a[1..], b, apply, SetPath(output, a[0].target, value.value).value);
      }
    }
  }

  lemma ExchangedSplit(rules: seq<MappingRule>, k: nat)
    requires k + 1 < |rules|
    ensures rules == rules[..k] + rules[k..]
    ensures Exchanged(rules, k) == rules[..k] + Exchanged(rules[k..], 0)
  {
  }

  /** On values, two neighbouring rules with unrelated targets may be exchanged. */
  lemma ExchangeKeepsMapAll(source: Value, rules: seq<MappingRule>, apply: Transform, output: Members, k: nat)
    requires k + 1 < |rules| && Unrelated(PathTokens(rules[k].target), PathTokens(rules[k + 1].target))
    requires MapAll(source, rules, apply, output).Success?
    ensures MapAll(source, Exchanged(rules, k), apply, output) == MapAll(source, rules, apply, output)
  {
    var before, after := rules[..k], rules[k..];
    ExchangedSplit(rules, k);
    MapAllConcat(source, before, after, apply, output);
    MapAllConcat(source, before, Exchanged(after, 0), apply, output);
    FirstTwoExchange(source, after, apply, MapAll(source, before, apply, output).value);
  }
}
