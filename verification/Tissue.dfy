/** The routing tissue's own bookkeeping: training, outcome recording and enabling, each of which touches one
    branch plus the tissue's counters.
    Source: src/difoundry/tissue.py:119-123, 201-228, 269-300, 317-363, 518-527, 543-546. */
module Tissue {
  import opened Wrappers
  import opened Features
  import opened Learning

  datatype Config = Config(learningRate: real, spawnBelow: real, maxSpecialists: nat)

  datatype Specialist = Specialist(
    id: string, prototype: Weights, observations: nat, successes: nat, failures: nat, disabled: bool)

  datatype Branch = Branch(
    routeId: string, branchId: string, ownershipKey: string, specialists: seq<Specialist>,
    observations: nat, successes: nat, failures: nat, localVersion: nat, disabled: bool, lastFailure: Option<string>)

  datatype Attribution = Attribution(
    actionId: string, routeId: string, branchId: string, ownershipKey: string,
    specialistIds: seq<string>, signature: string, tissueVersion: nat)

  /** The action whose outcome is recorded; empty strings stand for absent ids. */
  datatype Action = Action(
    actionId: string, routeId: string, branchId: string, ownershipKey: string, specialistIds: seq<string>)

  datatype Error = UnknownOwner | BranchDisabled | NoSpecialist

  datatype State = State(version: nat, branches: seq<Branch>, attributions: seq<Attribution>)

  /* ---------- finding a branch and its nearest specialist ---------- */

  predicate Owns(b: Branch, routeId: string, branchId: string) {
    b.routeId == routeId && b.branchId == branchId
  }

  /** The first branch with the two ids. */
  function Find(branches: seq<Branch>, routeId: string, branchId: string): (at: Option<nat>)
    ensures at.Some? ==> at.value < |branches| && Owns(branches[at.value], routeId, branchId)
    ensures at.None? ==> forall b :: b in branches ==> !Owns(b, routeId, branchId)
  {
    if branches == [] then None
    else if Owns(branches[0], routeId, branchId) then Some(0)
    else match Find(branches[1..], routeId, branchId)
      case None => None
      case Some(n) => Some(n + 1)
  }

  /** The position of the highest score, the earliest on a tie: the head of a stable descending sort of the
      entries that have one. */
  function Argmax(scores: seq<Option<real>>): (at: Option<nat>)
    ensures at.Some? ==> at.value < |scores| && scores[at.value].Some?
  {
    if scores == [] then None
    else
      var last := |scores| - 1;
      var before := Argmax(scores[..last]);
      if scores[last].None? then before
      else if before.None? || scores[last].value > scores[before.value].value then Some(last)
      else before
  }

  ghost predicate FirstBest(scores: seq<Option<real>>, k: nat)
    requires k < |scores|
  {
    && scores[k].Some?
    && (forall j :: 0 <= j < |scores| && scores[j].Some? ==> scores[j].value <= scores[k].value)
    && (forall j :: 0 <= j < k && scores[j].Some? ==> scores[j].value < scores[k].value)
  }

  lemma {:induction false} ArgmaxFound(scores: seq<Option<real>>)
    ensures var at := Argmax(scores);
            if at.None? then forall j :: 0 <= j < |scores| ==> scores[j].None? else FirstBest(scores, at.value)
  {
    if scores != [] {
      var last := |scores| - 1;
      ArgmaxFound(scores[..last]);
      assert forall j :: 0 <= j < last ==> scores[..last][j] == scores[j];
    }
  }

  /** The entry that none beats and no earlier one equals is the one found. */
  lemma {:induction false} ArgmaxIsFirstBest(scores: seq<Option<real>>, k: nat)
    requires k < |scores|
    ensures Argmax(scores) == Some(k) <==> FirstBest(scores, k)
  {
    ArgmaxFound(scores);
  }

  /** The similarity of every enabled specialist. */
  ghost function Scores(specialists: seq<Specialist>, features: Weights): seq<Option<real>>
  {
    seq(|specialists|, i requires 0 <= i < |specialists| =>
      if specialists[i].disabled then None else Some(Jaccard(features, specialists[i].prototype)))
  }

  ghost function Nearest(specialists: seq<Specialist>, features: Weights): (at: Option<nat>)
    ensures at.Some? ==> at.value < |specialists|
  {
    Argmax(Scores(specialists, features))
  }

  method FindNearest(specialists: seq<Specialist>, features: Weights) returns (at: Option<nat>, similarity: real)
    ensures at == Nearest(specialists, features)
    ensures at.None? ==> similarity == 0.0
    ensures at.Some? ==> similarity == Jaccard(features, specialists[at.value].prototype)
  {
    ghost var scores := Scores(specialists, features);
    at, similarity := None, 0.0;
    for i := 0 to |specialists|
      invariant at == Argmax(scores[..i])
      invariant at.None? ==> similarity == 0.0
      invariant at.Some? ==> scores[at.value] == Some(similarity)
    {
      assert scores[..i + 1][..i] == scores[..i];
      if !specialists[i].disabled {
        var candidate := WeightedJaccard(features, specialists[i].prototype);
        if at.None? || candidate > similarity {
          at, similarity := Some(i), candidate;
        }
      }
    }
    assert scores[..|specialists|] == scores;
  }

  /* ---------- learning ---------- */

  function Trained(s: Specialist, features: Weights, config: Config, reward: real): Specialist
  {
    s.(prototype := Adjusted(s.prototype, features, config.learningRate, reward), observations := s.observations + 1)
  }

  ghost predicate Spawns(b: Branch, features: Weights, config: Config, reward: real) {
    var at := Nearest(b.specialists, features);
    reward > 0.0
    && (at.None? || (Jaccard(features, b.specialists[at.value].prototype) < config.spawnBelow
                     && |b.specialists| < config.maxSpecialists))
  }

  function Newborn(id: string, features: Weights): Specialist
  {
    Specialist(id, features, 0, 0, 0, false)
  }

  /** The branch and the index of the specialist that was trained. */
  ghost function LearnIn(b: Branch, features: Weights, config: Config, reward: real, freshId: string): (r: Result<(Branch, nat), Error>)
    ensures r.Success? ==> r.value.1 < |r.value.0.specialists|
  {
    if b.disabled then Failure(BranchDisabled)
    else
      var at := Nearest(b.specialists, features);
      var spawns := Spawns(b, features, config, reward);
      if !spawns && at.None? then Failure(NoSpecialist)
      else
        var k := if spawns then |b.specialists| else at.value;
        var pool := if spawns then b.specialists + [Newborn(freshId, features)] else b.specialists;
        Success((b.(specialists := pool[k := Trained(pool[k], features, config, reward)],
               observations := b.observations + 1,
               localVersion := b.localVersion + 1), k))
  }

  method TrainOne(s: Specialist, features: Weights, config: Config, reward: real) returns (trained: Specialist)
    ensures trained == Trained(s, features, config, reward)
  {
    var prototype := new Prototype(s.prototype);
    prototype.Adjust(features, config.learningRate, reward);
    trained := s.(prototype := prototype.weights, observations := s.observations + 1);
  }

  /** The part of learning that happens inside the addressed branch. */
  method LearnOwner(b: Branch, features: Weights, config: Config, reward: real, freshId: string) returns (r: Result<(Branch, nat), Error>)
    ensures r == LearnIn(b, features, config, reward, freshId)
  {
    if b.disabled {
      return Failure(BranchDisabled);
    }
    var nearest, similarity := FindNearest(b.specialists, features);
    var pool, k := b.specialists, 0;
    if reward > 0.0 && (nearest.None? || (similarity < config.spawnBelow && |pool| < config.maxSpecialists)) {
      k := |pool|;
      pool := pool + [Newborn(freshId, features)];
    } else if nearest.None? {
      return Failure(NoSpecialist);
    } else {
      k := nearest.value;
    }
    var trained := TrainOne(pool[k], features, config, reward);
    r := Success((b.(specialists := pool[k := trained], observations := b.observations + 1, localVersion := b.localVersion + 1), k));
  }

  /* ---------- outcomes ---------- */

  /** The position a dictionary built from the list would give for an id: the last one holding it. */
  function Position(specialists: seq<Specialist>, id: string): (at: Option<nat>)
    ensures at.Some? ==> at.value < |specialists| && specialists[at.value].id == id
    ensures at.None? ==> forall s :: s in specialists ==> s.id != id
  {
    if specialists == [] then None
    else
      var last := |specialists| - 1;
      if specialists[last].id == id then Some(last) else Position(specialists[..last], id)
  }

  function Credited(s: Specialist, success: bool): Specialist
  {
    if success then s.(observations := s.observations + 1, successes := s.successes + 1)
    else s.(observations := s.observations + 1, failures := s.failures + 1)
  }

  function Credit(specialists: seq<Specialist>, id: string, success: bool): seq<Specialist>
  {
    match Position(specialists, id)
    case None => specialists
    case Some(k) => specialists[k := Credited(specialists[k], success)]
  }

  function CreditAll(specialists: seq<Specialist>, ids: seq<string>, success: bool): seq<Specialist>
    decreases |ids|
  {
    if ids == [] then specialists
    else Credit(CreditAll(specialists, ids[..|ids| - 1], success), ids[|ids| - 1], success)
  }

  function OutcomeIn(b: Branch, action: Action, success: bool, signature: string): Branch
  {
    b.(specialists := CreditAll(b.specialists, action.specialistIds, success),
       observations := b.observations + 1,
       successes := if success then b.successes + 1 else b.successes,
       failures := if success then b.failures else b.failures + 1,
       lastFailure := if success then b.lastFailure else Some(signature),
       localVersion := b.localVersion + 1)
  }

  function Or(text: string, fallback: string): string
  {
    if text == "" then fallback else text
  }

  function AttributionFor(b: Branch, action: Action, signature: string, version: nat): Attribution
  {
    Attribution(action.actionId, action.routeId, action.branchId, Or(action.ownershipKey, b.ownershipKey),
                action.specialistIds, Or(signature, "failure:unknown"), version)
  }

  function EnabledAs(b: Branch, enabled: bool): Branch
  {
    b.(disabled := !enabled, localVersion := b.localVersion + 1)
  }

  /* ---------- operations on the whole tissue ---------- */

  datatype Operation =
    | Learn(routeId: string, branchId: string, features: Weights, reward: real, freshId: string)
    | Outcome(action: Action, success: bool, signature: string)
    | Enable(routeId: string, branchId: string, enabled: bool)

  /** What an operation does to the branch it addresses; None when it raises. */
  ghost function OnBranch(b: Branch, config: Config, op: Operation): Option<Branch>
  {
    match op
    case Learn(_, _, features, reward, freshId) =>
      var learned := LearnIn(b, features, config, reward, freshId);
      if learned.Success? then Some(learned.value.0) else None
    case Outcome(action, success, signature) => Some(OutcomeIn(b, action, success, signature))
    case Enable(_, _, enabled) => Some(EnabledAs(b, enabled))
  }

  /** An outcome without both ids is ignored. */
  predicate Addresses(op: Operation, routeId: string, branchId: string) {
    match op
    case Learn(r, b, _, _, _) => r == routeId && b == branchId
    case Outcome(action, _, _) => action.routeId == routeId != "" && action.branchId == branchId != ""
    case Enable(r, b, _) => r == routeId && b == branchId
  }

  function Target(branches: seq<Branch>, op: Operation): (at: Option<nat>)
    ensures at.Some? ==> at.value < |branches| && Addresses(op, branches[at.value].routeId, branches[at.value].branchId)
    ensures at.None? ==> forall b :: b in branches ==> !Addresses(op, b.routeId, b.branchId)
  {
    match op
    case Learn(r, b, _, _, _) => Find(branches, r, b)
    case Outcome(action, _, _) =>
      if action.routeId == "" || action.branchId == "" then None else Find(branches, action.routeId, action.branchId)
    case Enable(r, b, _) => Find(branches, r, b)
  }

  ghost function Apply(config: Config, s: State, op: Operation): State
  {
    var at := Target(s.branches, op);
    if at.None? then s
    else
      var changed := OnBranch(s.branches[at.value], config, op);
      if changed.None? then s
      else
        var fails := op.Outcome? && !op.success;
        State(s.version + 1, s.branches[at.value := changed.value],
              if fails then s.attributions + [AttributionFor(s.branches[at.value], op.action, op.signature, s.version + 1)]
              else s.attributions)
  }

  /** The tissue object. Every method ends in the state Apply gives. */
  class DendritronTissue {
    const config: Config
    var version: nat
    var branches: seq<Branch>
    var attributions: seq<Attribution>

    ghost function Now(): State
      reads this
    {
      State(version, branches, attributions)
    }

    /** One branch per (route, branch) pair of the contract. */
    constructor FromContract(config: Config, contractId: string, owners: seq<(string, string)>)
      ensures this.config == config && version == 0 && attributions == []
      ensures |branches| == |owners|
      ensures forall i :: 0 <= i < |owners| ==> branches[i] == Unborn(contractId, owners[i].0, owners[i].1)
    {
      this.config := config;
      version := 0;
      branches := seq(|owners|, i requires 0 <= i < |owners| => Unborn(contractId, owners[i].0, owners[i].1));
      attributions := [];
    }

    method LearnExample(routeId: string, branchId: string, features: Weights, reward: real, freshId: string)
      returns (r: Result<string, Error>)
      modifies this
      ensures Now() == Apply(config, old(Now()), Learn(routeId, branchId, features, reward, freshId))
      ensures var at := Find(old(branches), routeId, branchId);
              if at.None? then r == Failure(UnknownOwner)
              else match LearnIn(old(branches)[at.value], features, config, reward, freshId)
                case Failure(e) => r == Failure(e)
                case Success((b, k)) => r == Success(b.specialists[k].id)
    {
      var at := Find(branches, routeId, branchId);
      if at.None? {
        return Failure(UnknownOwner);
      }
      var learned := LearnOwner(branches[at.value], features, config, reward, freshId);
      if learned.Failure? {
        return Failure(learned.error);
      }
      var (owner, k) := learned.value;
      branches := branches[at.value := owner];
      version := version + 1;
      r := Success(owner.specialists[k].id);
    }

    method RecordOutcome(action: Action, success: bool, signature: string) returns (r: Result<Option<Attribution>, Error>)
      modifies this
      ensures Now() == Apply(config, old(Now()), Outcome(action, success, signature))
      ensures action.routeId == "" || action.branchId == "" ==> r == Success(None)
      ensures action.routeId != "" && action.branchId != ""
              ==> (r == Failure(UnknownOwner) <==> Find(old(branches), action.routeId, action.branchId).None?)
      ensures r.Success? && r.value.Some? <==> |attributions| == |old(attributions)| + 1
      ensures r.Success? && r.value.Some? ==> attributions == old(attributions) + [r.value.value]
    {
      if action.routeId == "" || action.branchId == "" {
        return Success(None);
      }
      var at := Find(branches, action.routeId, action.branchId);
      if at.None? {
        return Failure(UnknownOwner);
      }
      var owner := branches[at.value];
      owner := owner.(observations := owner.observations + 1);
      if success {
        owner := owner.(successes := owner.successes + 1);
      } else {
        owner := owner.(failures := owner.failures + 1, lastFailure := Some(signature));
      }
      var pool := CreditEach(owner.specialists, action.specialistIds, success);
      owner := owner.(specialists := pool, localVersion := owner.localVersion + 1);
      branches := branches[at.value := owner];
      version := version + 1;
      if success {
        return Success(None);
      }
      var attribution := AttributionFor(owner, action, signature, version);
      attributions := attributions + [attribution];
      r := Success(Some(attribution));
    }

    method SetBranchEnabled(routeId: string, branchId: string, enabled: bool) returns (r: Result<(), Error>)
      modifies this
      ensures Now() == Apply(config, old(Now()), Enable(routeId, branchId, enabled))
      ensures r.Failure? <==> Find(old(branches), routeId, branchId).None?
    {
      var at := Find(branches, routeId, branchId);
      if at.None? {
        return Failure(UnknownOwner);
      }
      var owner := branches[at.value];
      owner := owner.(disabled := !enabled, localVersion := owner.localVersion + 1);
      branches := branches[at.value := owner];
      version := version + 1;
      r := Success(());
    }
  }

  function Unborn(contractId: string, routeId: string, branchId: string): Branch
  {
    Branch(routeId, branchId, contractId + ":" + routeId + ":" + branchId, [], 0, 0, 0, 0, false, None)
  }

  method CreditEach(specialists: seq<Specialist>, ids: seq<string>, success: bool) returns (pool: seq<Specialist>)
    ensures pool == CreditAll(specialists, ids, success)
  {
    pool := specialists;
    for i := 0 to |ids|
      invariant pool == CreditAll(specialists, ids[..i], success)
    {
      assert ids[..i + 1][..i] == ids[..i];
      var k := Position(pool, ids[i]);
      if k.Some? {
        pool := pool[k.value := Credited(pool[k.value], success)];
      }
    }
    assert ids[..|ids|] == ids;
  }
}
