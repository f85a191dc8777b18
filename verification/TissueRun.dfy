/** What every run of tissue operations keeps: each branch is changed only by the operations addressed to it,
    the tissue's counters are the sums of its branches', failures are attributed one for one, and specialists
    stay few and well formed.
    Source: src/difoundry/tissue.py:177-184, 269-300, 317-363, 543-546. */
module TissueRun {
  import opened Wrappers
  import opened Features
  import opened Learning
  import opened Tissue

  ghost function Run(config: Config, s: State, ops: seq<Operation>): State
    decreases |ops|
  {
    if ops == [] then s else Apply(config, Run(config, s, ops[..|ops| - 1]), ops[|ops| - 1])
  }

  /** Ownership keys embed the two ids, so unique keys mean unique pairs. */
  ghost predicate DistinctOwners(branches: seq<Branch>) {
    forall i, j :: 0 <= i < j < |branches| ==> !SameOwner(branches[i], branches[j])
  }

  predicate SameOwner(a: Branch, b: Branch) {
    a.routeId == b.routeId && a.branchId == b.branchId
  }

  /* ---------- one step ---------- */

  lemma OnBranchKeeps(b: Branch, config: Config, op: Operation)
    requires OnBranch(b, config, op).Some?
    ensures var after := OnBranch(b, config, op).value;
            && SameOwner(after, b) && after.ownershipKey == b.ownershipKey
            && after.localVersion == b.localVersion + 1
            && after.failures == b.failures + (if op.Outcome? && !op.success then 1 else 0)
            && (b.successes + b.failures <= b.observations <= b.localVersion
                ==> after.successes + after.failures <= after.observations <= after.localVersion)
  {
  }

  /** The branch an operation is addressed to is the only one it can change. */
  lemma ApplyAt(config: Config, s: State, op: Operation, i: nat)
    requires i < |s.branches| && DistinctOwners(s.branches)
    ensures |Apply(config, s, op).branches| == |s.branches|
    ensures Apply(config, s, op).branches[i] == BranchAfter(s.branches[i], config, op)
    ensures SameOwner(Apply(config, s, op).branches[i], s.branches[i])
  {
    var at := Target(s.branches, op);
    if at.Some? {
      assert i < at.value ==> !SameOwner(s.branches[i], s.branches[at.value]);
      assert i > at.value ==> !SameOwner(s.branches[at.value], s.branches[i]);
    } else {
      assert s.branches[i] in s.branches;
    }
    if OnBranch(s.branches[i], config, op).Some? {
      OnBranchKeeps(s.branches[i], config, op);
    }
  }

  lemma ApplyKeepsOwners(config: Config, s: State, op: Operation)
    requires DistinctOwners(s.branches)
    ensures |Apply(config, s, op).branches| == |s.branches|
    ensures DistinctOwners(Apply(config, s, op).branches)
  {
    forall i | 0 <= i < |s.branches|
      ensures |Apply(config, s, op).branches| == |s.branches| && SameOwner(Apply(config, s, op).branches[i], s.branches[i])
    {
      ApplyAt(config, s, op, i);
    }
  }

  /* ---------- isolation of branches ---------- */

  ghost function BranchAfter(b: Branch, config: Config, op: Operation): Branch
  {
    if Addresses(op, b.routeId, b.branchId) && OnBranch(b, config, op).Some? then OnBranch(b, config, op).value else b
  }

  /** One branch folded over a list of operations, on its own. */
  ghost function RunBranch(b: Branch, config: Config, ops: seq<Operation>): Branch
    decreases |ops|
  {
    if ops == [] then b else BranchAfter(RunBranch(b, config, ops[..|ops| - 1]), config, ops[|ops| - 1])
  }

  lemma {:induction false} RunKeepsOwners(config: Config, s: State, ops: seq<Operation>)
    requires DistinctOwners(s.branches)
    ensures DistinctOwners(Run(config, s, ops).branches) && |Run(config, s, ops).branches| == |s.branches|
    decreases |ops|
  {
    if ops != [] {
      RunKeepsOwners(config, s, ops[..|ops| - 1]);
      ApplyKeepsOwners(config, Run(config, s, ops[..|ops| - 1]), ops[|ops| - 1]);
    }
  }

  lemma {:induction false} RunAt(config: Config, s: State, ops: seq<Operation>, i: nat)
    requires DistinctOwners(s.branches) && i < |s.branches|
    ensures |Run(config, s, ops).branches| == |s.branches|
    ensures Run(config, s, ops).branches[i] == RunBranch(s.branches[i], config, ops)
    ensures SameOwner(Run(config, s, ops).branches[i], s.branches[i])
    decreases |ops|
  {
    if ops != [] {
      RunAt(config, s, ops[..|ops| - 1], i);
      RunKeepsOwners(config, s, ops[..|ops| - 1]);
      ApplyAt(config, Run(config, s, ops[..|ops| - 1]), ops[|ops| - 1], i);
    }
  }

  function OnlyFor(ops: seq<Operation>, routeId: string, branchId: string): seq<Operation>
  {
    if ops == [] then []
    else
      var front := OnlyFor(ops[..|ops| - 1], routeId, branchId);
      if Addresses(ops[|ops| - 1], routeId, branchId) then front + [ops[|ops| - 1]] else front
  }

  lemma {:induction false} OthersSkipped(b: Branch, config: Config, ops: seq<Operation>)
    ensures RunBranch(b, config, ops) == RunBranch(b, config, OnlyFor(ops, b.routeId, b.branchId))
    ensures SameOwner(RunBranch(b, config, ops), b)
    decreases |ops|
  {
    if ops != [] {
      var front, last := ops[..|ops| - 1], ops[|ops| - 1];
      OthersSkipped(b, config, front);
      var kept := OnlyFor(front, b.routeId, b.branchId);
      assert (kept + [last])[..|kept|] == kept;
      if OnBranch(RunBranch(b, config, front), config, last).Some? {
        OnBranchKeeps(RunBranch(b, config, front), config, last);
      }
    }
  }

  /** No cross-branch update: a branch ends in the state it would have reached had every operation addressed
      elsewhere never happened. */
  lemma {:induction false} BranchesIsolated(config: Config, s: State, ops: seq<Operation>, i: nat)
    requires DistinctOwners(s.branches) && i < |s.branches|
    ensures |Run(config, s, ops).branches| == |s.branches|
    ensures var own := OnlyFor(ops, s.branches[i].routeId, s.branches[i].branchId);
            && |Run(config, s, own).branches| == |s.branches|
            && Run(config, s, ops).branches[i] == Run(config, s, own).branches[i]
  {
    var own := OnlyFor(ops, s.branches[i].routeId, s.branches[i].branchId);
    RunAt(config, s, ops, i);
    RunAt(config, s, own, i);
    OthersSkipped(s.branches[i], config, ops);
  }

  /* ---------- counters ---------- */

  function Total(branches: seq<Branch>, measure: Branch -> nat): nat
  {
    if branches == [] then 0 else measure(branches[0]) + Total(branches[1..], measure)
  }

  lemma {:induction false} TotalUpdate(branches: seq<Branch>, i: nat, b: Branch, measure: Branch -> nat)
    requires i < |branches|
    ensures Total(branches[i := b], measure) == Total(branches, measure) - measure(branches[i]) + measure(b)
  {
    if i == 0 {
      assert branches[i := b][1..] == branches[1..];
    } else {
      assert branches[i := b][1..] == branches[1..][i - 1 := b];
      TotalUpdate(branches[1..], i - 1, b, measure);
    }
  }

  function VersionOf(b: Branch): nat { b.localVersion }

  function FailuresOf(b: Branch): nat { b.failures }

  predicate Names(a: Attribution, b: Branch) {
    a.routeId == b.routeId && a.branchId == b.branchId
  }

  /** How many attributions name a branch. */
  function Blamed(attributions: seq<Attribution>, b: Branch): nat
  {
    if attributions == [] then 0
    else Blamed(attributions[..|attributions| - 1], b) + if Names(attributions[|attributions| - 1], b) then 1 else 0
  }

  lemma {:induction false} BlamedSame(attributions: seq<Attribution>, a: Branch, b: Branch)
    requires SameOwner(a, b)
    ensures Blamed(attributions, a) == Blamed(attributions, b)
  {
    if attributions != [] {
      BlamedSame(attributions[..|attributions| - 1], a, b);
    }
  }

  ghost predicate CountsAt(s: State, i: nat)
    requires i < |s.branches|
  {
    var b := s.branches[i];
    Blamed(s.attributions, b) == b.failures && b.successes + b.failures <= b.observations <= b.localVersion
  }

  ghost predicate Dated(s: State) {
    && (forall k :: 0 <= k < |s.attributions| ==> 1 <= s.attributions[k].tissueVersion <= s.version)
    && (forall j, k :: 0 <= j < k < |s.attributions| ==> s.attributions[j].tissueVersion < s.attributions[k].tissueVersion)
  }

  /** The version runs ahead of the sum of the local versions by a given number. */
  ghost predicate BalancedUpTo(s: State, ahead: nat) {
    && DistinctOwners(s.branches)
    && s.version == Total(s.branches, VersionOf) + ahead
    && |s.attributions| == Total(s.branches, FailuresOf)
    && (forall i :: 0 <= i < |s.branches| ==> CountsAt(s, i))
    && Dated(s)
  }

  ghost predicate Balanced(s: State) {
    BalancedUpTo(s, 0)
  }

  lemma TotalsKept(config: Config, s: State, op: Operation, ahead: nat)
    requires s.version == Total(s.branches, VersionOf) + ahead
    requires |s.attributions| == Total(s.branches, FailuresOf)
    ensures Apply(config, s, op).version == Total(Apply(config, s, op).branches, VersionOf) + ahead
    ensures |Apply(config, s, op).attributions| == Total(Apply(config, s, op).branches, FailuresOf)
  {
    var at := Target(s.branches, op);
    if at.Some? && OnBranch(s.branches[at.value], config, op).Some? {
      var changed := OnBranch(s.branches[at.value], config, op).value;
      OnBranchKeeps(s.branches[at.value], config, op);
      TotalUpdate(s.branches, at.value, changed, VersionOf);
      TotalUpdate(s.branches, at.value, changed, FailuresOf);
    }
  }

  lemma CountsKept(config: Config, s: State, op: Operation, i: nat)
    requires DistinctOwners(s.branches) && i < |s.branches| && CountsAt(s, i)
    ensures |Apply(config, s, op).branches| == |s.branches|
    ensures CountsAt(Apply(config, s, op), i)
  {
    var next := Apply(config, s, op);
    ApplyAt(config, s, op, i);
    BlamedSame(s.attributions, s.branches[i], next.branches[i]);
    if next.attributions != s.attributions {
      assert next.attributions[..|s.attributions|] == s.attributions;
    }
    if OnBranch(s.branches[i], config, op).Some? {
      OnBranchKeeps(s.branches[i], config, op);
    }
    TargetsOther(s, op, i);
  }

  lemma TargetsOther(s: State, op: Operation, i: nat)
    requires DistinctOwners(s.branches) && i < |s.branches|
    ensures Addresses(op, s.branches[i].routeId, s.branches[i].branchId) <==> Target(s.branches, op) == Some(i)
  {
    var at := Target(s.branches, op);
    if at.Some? {
      assert i < at.value ==> !SameOwner(s.branches[i], s.branches[at.value]);
      assert i > at.value ==> !SameOwner(s.branches[at.value], s.branches[i]);
    } else {
      assert s.branches[i] in s.branches;
    }
  }

  lemma StepBalanced(config: Config, s: State, op: Operation, ahead: nat)
    requires BalancedUpTo(s, ahead)
    ensures BalancedUpTo(Apply(config, s, op), ahead)
  {
    ApplyKeepsOwners(config, s, op);
    TotalsKept(config, s, op, ahead);
    forall i | 0 <= i < |s.branches| ensures |Apply(config, s, op).branches| == |s.branches| && CountsAt(Apply(config, s, op), i) {
      CountsKept(config, s, op, i);
    }
    DatedKept(config, s, op);
  }

  lemma {:induction false} RunBalanced(config: Config, s: State, ops: seq<Operation>)
    requires Balanced(s)
    ensures Balanced(Run(config, s, ops))
    decreases |ops|
  {
    if ops != [] {
      RunBalanced(config, s, ops[..|ops| - 1]);
      StepBalanced(config, Run(config, s, ops[..|ops| - 1]), ops[|ops| - 1], 0);
    }
  }

  lemma DatedKept(config: Config, s: State, op: Operation)
    requires Dated(s)
    ensures Dated(Apply(config, s, op))
  {
  }

  /* ---------- specialists ---------- */

  ghost predicate GoodConfig(config: Config) {
    0.0 < config.learningRate <= 1.0 && 1 <= config.maxSpecialists
  }

  ghost predicate GoodOperation(op: Operation) {
    op.Learn? ==> Binary(op.features) && -1.0 <= op.reward <= 1.0
  }

  ghost predicate GoodSpecialist(s: Specialist) {
    !s.disabled && InRange(s.prototype) && s.successes + s.failures <= s.observations
  }

  ghost predicate GoodBranch(b: Branch, config: Config) {
    |b.specialists| <= config.maxSpecialists && forall k :: 0 <= k < |b.specialists| ==> GoodSpecialist(b.specialists[k])
  }

  lemma TrainedGood(s: Specialist, features: Weights, config: Config, reward: real)
    requires GoodSpecialist(s) && GoodConfig(config)
    ensures GoodSpecialist(Trained(s, features, config, reward))
  {
    AdjustedInRange(s.prototype, features, config.learningRate, reward);
  }

  lemma LearnGood(b: Branch, features: Weights, config: Config, reward: real, freshId: string)
    requires GoodBranch(b, config) && GoodConfig(config) && Binary(features)
    requires LearnIn(b, features, config, reward, freshId).Success?
    ensures GoodBranch(LearnIn(b, features, config, reward, freshId).value.0, config)
  {
    var after, k := LearnIn(b, features, config, reward, freshId).value.0, LearnIn(b, features, config, reward, freshId).value.1;
    var spawns := Spawns(b, features, config, reward);
    var pool := if spawns then b.specialists + [Newborn(freshId, features)] else b.specialists;
    assert GoodSpecialist(pool[k]);
    TrainedGood(pool[k], features, config, reward);
    NearestOfEnabled(b, features, config);
  }

  /** No specialist is ever disabled, so "no enabled specialist" means "none at all", and the branch that spawns
      without looking at the limit is safe. */
  lemma NearestOfEnabled(b: Branch, features: Weights, config: Config)
    requires GoodBranch(b, config)
    ensures Nearest(b.specialists, features).None? <==> b.specialists == []
  {
    ArgmaxFound(Scores(b.specialists, features));
    if b.specialists != [] {
      assert GoodSpecialist(b.specialists[0]);
      assert Scores(b.specialists, features)[0].Some?;
    }
  }

  lemma {:induction false} CreditGood(specialists: seq<Specialist>, ids: seq<string>, success: bool)
    requires forall k :: 0 <= k < |specialists| ==> GoodSpecialist(specialists[k])
    ensures |CreditAll(specialists, ids, success)| == |specialists|
    ensures forall k :: 0 <= k < |specialists| ==> GoodSpecialist(CreditAll(specialists, ids, success)[k])
    decreases |ids|
  {
    if ids != [] {
      CreditGood(specialists, ids[..|ids| - 1], success);
    }
  }

  lemma BranchGood(b: Branch, config: Config, op: Operation)
    requires GoodBranch(b, config) && GoodConfig(config) && GoodOperation(op)
    ensures GoodBranch(BranchAfter(b, config, op), config)
  {
    match op
    case Learn(_, _, features, reward, freshId) =>
      if LearnIn(b, features, config, reward, freshId).Success? {
        LearnGood(b, features, config, reward, freshId);
      }
    case Outcome(action, success, _) =>
      CreditGood(b.specialists, action.specialistIds, success);
    case Enable(_, _, _) =>
  }

  lemma {:induction false} BranchRunGood(b: Branch, config: Config, ops: seq<Operation>)
    requires GoodBranch(b, config) && GoodConfig(config)
    requires forall op :: op in ops ==> GoodOperation(op)
    ensures GoodBranch(RunBranch(b, config, ops), config)
    decreases |ops|
  {
    if ops != [] {
      BranchRunGood(b, config, ops[..|ops| - 1]);
      BranchGood(RunBranch(b, config, ops[..|ops| - 1]), config, ops[|ops| - 1]);
    }
  }

  /* ---------- the theorem over all runs ---------- */

  ghost predicate Initial(s: State) {
    && s.version == 0 && s.attributions == [] && DistinctOwners(s.branches)
    && forall i :: 0 <= i < |s.branches| ==> Blank(s.branches[i])
  }

  predicate Blank(b: Branch) {
    b.specialists == [] && b.observations == 0 && b.successes == 0 && b.failures == 0 && b.localVersion == 0
  }

  lemma {:induction false} BlankTotals(branches: seq<Branch>)
    requires forall i :: 0 <= i < |branches| ==> Blank(branches[i])
    ensures Total(branches, VersionOf) == 0 && Total(branches, FailuresOf) == 0
  {
    if branches != [] {
      BlankTotals(branches[1..]);
    }
  }

  lemma InitialBalanced(s: State)
    requires Initial(s)
    ensures Balanced(s)
  {
    BlankTotals(s.branches);
    assert forall i :: 0 <= i < |s.branches| ==> Blank(s.branches[i]) ==> CountsAt(s, i);
  }

  /** From a new tissue, after any operations whatever: the version is the sum of the local versions; failures
      and attributions match in total and branch by branch; attributions carry increasing versions; no branch
      holds more specialists than configured, none of them is disabled, and every prototype weight lies in
      [0.02, 1]. */
  lemma {:induction false} EveryRun(config: Config, s: State, ops: seq<Operation>)
    requires Initial(s) && GoodConfig(config)
    requires forall op :: op in ops ==> GoodOperation(op)
    ensures Balanced(Run(config, s, ops))
    ensures forall b :: b in Run(config, s, ops).branches ==> GoodBranch(b, config)
  {
    InitialBalanced(s);
    RunBalanced(config, s, ops);
    forall i | 0 <= i < |s.branches|
      ensures |Run(config, s, ops).branches| == |s.branches| && GoodBranch(Run(config, s, ops).branches[i], config)
    {
      assert Blank(s.branches[i]);
      BranchRunGood(s.branches[i], config, ops);
      RunAt(config, s, ops, i);
    }
    RunKeepsOwners(config, s, ops);
  }

  /* ---------- what one example does to the specialist it trains ---------- */

  /** Of the branch's specialists only one is touched; a new one starts out identical to the example, an old one
      moves the way the reward says. */
  lemma LearnMovesTheRightWay(b: Branch, config: Config, features: Weights, reward: real, freshId: string)
    requires GoodBranch(b, config) && GoodConfig(config) && Binary(features) && -1.0 <= reward <= 1.0
    requires LearnIn(b, features, config, reward, freshId).Success?
    ensures var after, k := LearnIn(b, features, config, reward, freshId).value.0, LearnIn(b, features, config, reward, freshId).value.1;
            && (forall j :: 0 <= j < |b.specialists| && j != k ==> after.specialists[j] == b.specialists[j])
            && (k < |b.specialists| && reward >= 0.0
                ==> Jaccard(features, after.specialists[k].prototype) >= Jaccard(features, b.specialists[k].prototype))
            && (k < |b.specialists| && reward < 0.0
                ==> Jaccard(features, after.specialists[k].prototype) <= Jaccard(features, b.specialists[k].prototype))
            && (k == |b.specialists| ==> after.specialists[k].prototype == features && after.specialists[k].id == freshId)
  {
    var k := LearnIn(b, features, config, reward, freshId).value.1;
    if k < |b.specialists| {
      assert GoodSpecialist(b.specialists[k]);
      LearningDirection(b.specialists[k].prototype, features, config.learningRate, reward);
    } else {
      TowardItself(features, Rate(config.learningRate, reward));
    }
  }

  lemma TowardItself(features: Weights, rate: real)
    requires Binary(features)
    ensures Toward(features, features, rate) == features
  {
    forall key | key in features ensures Blend(features, features, rate, key) == 1.0 {
      assert (1.0 - rate) * 1.0 + rate * 1.0 == 1.0;
    }
  }
}
