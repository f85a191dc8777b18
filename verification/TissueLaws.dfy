/** Training and outcomes, read off the branch: when a specialist is created, which one is trained and how, when training
    raises, and what an outcome records.
    Source: src/difoundry/tissue.py:269-345. */
module TissueLaws {
  import opened Wrappers
  import opened Features
  import opened Learning
  import opened Tissue

  /* ---------- training ---------- */

  predicate NoneEnabled(b: Branch)
  {
    forall i :: 0 <= i < |b.specialists| ==> b.specialists[i].disabled
  }

  /** Every enabled specialist is less similar to the example than the configuration asks. */
  ghost predicate AllNovel(b: Branch, features: Weights, config: Config)
  {
    forall i :: 0 <= i < |b.specialists| && !b.specialists[i].disabled ==>
      Jaccard(features, b.specialists[i].prototype) < config.spawnBelow
  }

  /** Enabled, and no enabled specialist is more similar to the example, nor an earlier one equally similar. */
  ghost predicate NearestAt(b: Branch, features: Weights, k: nat)
  {
    k < |b.specialists| && !b.specialists[k].disabled &&
    forall i :: 0 <= i < |b.specialists| && !b.specialists[i].disabled ==>
      var here, best := Jaccard(features, b.specialists[i].prototype), Jaccard(features, b.specialists[k].prototype);
      here < best || (here == best && k <= i)
  }

  lemma NearestIs(b: Branch, features: Weights)
    ensures Nearest(b.specialists, features).None? <==> NoneEnabled(b)
    ensures Nearest(b.specialists, features).Some? ==> NearestAt(b, features, Nearest(b.specialists, features).value)
  {
    var scores := Scores(b.specialists, features);
    ArgmaxFound(scores);
    forall i | 0 <= i < |b.specialists| ensures scores[i].None? <==> b.specialists[i].disabled {
    }
    if Nearest(b.specialists, features).Some? {
      var k := Nearest(b.specialists, features).value;
      assert FirstBest(scores, k);
      forall i | 0 <= i < |b.specialists| && !b.specialists[i].disabled
        ensures var here, best := Jaccard(features, b.specialists[i].prototype), Jaccard(features, b.specialists[k].prototype);
                here < best || (here == best && k <= i)
      {
        assert scores[i].value <= scores[k].value;
        assert i < k ==> scores[i].value < scores[k].value;
      }
    }
  }

  /** A positive reward meets a branch that knows nothing like the example and may still grow, or knows nothing at all. */
  ghost predicate Grows(b: Branch, features: Weights, config: Config, reward: real)
  {
    reward > 0.0 &&
    (NoneEnabled(b) || (AllNovel(b, features, config) && |b.specialists| < config.maxSpecialists))
  }

  lemma SpawnsIff(b: Branch, features: Weights, config: Config, reward: real)
    ensures Spawns(b, features, config, reward) <==> Grows(b, features, config, reward)
  {
    NearestIs(b, features);
  }

  /** Training raises on a disabled branch, and without a positive reward on one that has no enabled specialist; otherwise
      it succeeds. */
  lemma LearnRaisesIff(b: Branch, features: Weights, config: Config, reward: real, freshId: string)
    ensures var r := LearnIn(b, features, config, reward, freshId);
            && (r == Failure(BranchDisabled) <==> b.disabled)
            && (r == Failure(NoSpecialist) <==> !b.disabled && reward <= 0.0 && NoneEnabled(b))
            && (r.Success? <==> !b.disabled && (reward > 0.0 || !NoneEnabled(b)))
  {
    NearestIs(b, features);
  }

  /** The direction is that of the reward, the rate the learning rate times its size. */
  function Moved(prototype: Weights, features: Weights, learningRate: real, reward: real): Weights
  {
    if reward < 0.0 then Away(prototype, features, learningRate * -reward) else Toward(prototype, features, learningRate * reward)
  }

  /** What training does to a specialist. */
  function AfterExample(s: Specialist, features: Weights, config: Config, reward: real): Specialist
  {
    s.(observations := s.observations + 1,
       prototype := Moved(s.prototype, features, config.learningRate, reward))
  }

  /** A growing branch gets one more specialist, which starts as the example and is trained on it; any other trains its
      nearest one. No other specialist changes, and the branch counts one observation and one version. */
  lemma LearnTrains(b: Branch, features: Weights, config: Config, reward: real, freshId: string)
    requires LearnIn(b, features, config, reward, freshId).Success?
    ensures var after, k := LearnIn(b, features, config, reward, freshId).value.0, LearnIn(b, features, config, reward, freshId).value.1;
            && after == b.(specialists := after.specialists, observations := b.observations + 1, localVersion := b.localVersion + 1)
            && if Grows(b, features, config, reward) then
                 k == |b.specialists| && after.specialists ==
                   b.specialists + [AfterExample(Specialist(freshId, features, 0, 0, 0, false), features, config, reward)]
               else
                 NearestAt(b, features, k) &&
                 after.specialists == b.specialists[k := AfterExample(b.specialists[k], features, config, reward)]
  {
    SpawnsIff(b, features, config, reward);
    NearestIs(b, features);
    if Grows(b, features, config, reward) {
      TrainedAs(Newborn(freshId, features), features, config, reward);
      var pool, k := b.specialists + [Newborn(freshId, features)], |b.specialists|;
      assert pool[k] == Newborn(freshId, features);
      assert pool[k := Trained(pool[k], features, config, reward)] == b.specialists + [Trained(pool[k], features, config, reward)];
    } else {
      TrainedAs(b.specialists[Nearest(b.specialists, features).value], features, config, reward);
    }
  }

  lemma TrainedAs(s: Specialist, features: Weights, config: Config, reward: real)
    ensures Trained(s, features, config, reward) == AfterExample(s, features, config, reward)
  {
    AdjustedAs(s.prototype, features, config.learningRate, reward);
  }

  lemma AdjustedAs(prototype: Weights, features: Weights, learningRate: real, reward: real)
    ensures Adjusted(prototype, features, learningRate, reward) ==
            Moved(prototype, features, learningRate, reward)
  {
    var rate := Rate(learningRate, reward);
    if reward < 0.0 {
      assert rate == learningRate * -reward;
    } else {
      assert rate == learningRate * reward;
    }
  }

  /** A new branch is enabled and knows nothing; its ownership key names the contract, the route and the branch. */
  lemma UnbornMeans(contractId: string, routeId: string, branchId: string)
    ensures var b := Unborn(contractId, routeId, branchId);
            && b.routeId == routeId && b.branchId == branchId && b.specialists == [] && !b.disabled && b.lastFailure == None
            && b.observations == b.successes == b.failures == b.localVersion == 0
            && b.ownershipKey == contractId + [':'] + (routeId + [':'] + branchId)
  {
    assert contractId + ":" + routeId + ":" + branchId == contractId + [':'] + (routeId + [':'] + branchId);
  }

  /* ---------- outcomes ---------- */

  function Occurrences(ids: seq<string>, id: string): nat
  {
    if ids == [] then 0 else Occurrences(ids[..|ids| - 1], id) + if ids[|ids| - 1] == id then 1 else 0
  }

  /** The specialist a dictionary by id holds under its id: the last one that has it. */
  predicate Holds(specialists: seq<Specialist>, p: nat)
    requires p < |specialists|
  {
    forall q :: p < q < |specialists| ==> specialists[q].id != specialists[p].id
  }

  lemma {:induction false} PositionIs(specialists: seq<Specialist>, id: string, p: nat)
    requires p < |specialists|
    ensures Position(specialists, id) == Some(p) <==> specialists[p].id == id && Holds(specialists, p)
  {
    var last := |specialists| - 1;
    if specialists[last].id != id && p < last {
      PositionIs(specialists[..last], id, p);
      assert Holds(specialists[..last], p) && specialists[p].id == id <==> Holds(specialists, p) && specialists[p].id == id;
    }
  }

  /** A specialist after some outcomes of one kind. */
  function Recorded(s: Specialist, times: nat, success: bool): Specialist
  {
    s.(observations := s.observations + times,
       successes := s.successes + (if success then times else 0),
       failures := s.failures + (if success then 0 else times))
  }

  /** The specialist at a position after the outcomes of a list of ids. */
  function CreditedAt(specialists: seq<Specialist>, ids: seq<string>, success: bool, p: nat): Specialist
    requires p < |specialists|
  {
    Recorded(specialists[p], if Holds(specialists, p) then Occurrences(ids, specialists[p].id) else 0, success)
  }

  lemma OneMoreId(specialists: seq<Specialist>, ids: seq<string>, id: string, success: bool, p: nat)
    requires p < |specialists|
    ensures CreditedAt(specialists, ids + [id], success, p) ==
            Recorded(CreditedAt(specialists, ids, success, p), if Holds(specialists, p) && specialists[p].id == id then 1 else 0, success)
  {
    assert (ids + [id])[..|ids|] == ids;
  }

  lemma CreditOne(pool: seq<Specialist>, id: string, success: bool, p: nat)
    requires p < |pool|
    ensures |Credit(pool, id, success)| == |pool|
    ensures Credit(pool, id, success)[p] == Recorded(pool[p], if Holds(pool, p) && pool[p].id == id then 1 else 0, success)
  {
    PositionIs(pool, id, p);
  }

  lemma {:induction false} CreditsCount(specialists: seq<Specialist>, ids: seq<string>, success: bool)
    ensures |CreditAll(specialists, ids, success)| == |specialists|
    ensures forall p :: 0 <= p < |specialists| ==> CreditAll(specialists, ids, success)[p] == CreditedAt(specialists, ids, success, p)
    decreases |ids|
  {
    if ids != [] {
      var front, id := ids[..|ids| - 1], ids[|ids| - 1];
      CreditsCount(specialists, front, success);
      var pool := CreditAll(specialists, front, success);
      assert ids == front + [id];
      forall p | 0 <= p < |specialists|
        ensures |Credit(pool, id, success)| == |pool| && Credit(pool, id, success)[p] == CreditedAt(specialists, ids, success, p)
      {
        SameIds(specialists, pool, p);
        CreditOne(pool, id, success, p);
        OneMoreId(specialists, front, id, success, p);
      }
    }
  }

  lemma SameIds(specialists: seq<Specialist>, pool: seq<Specialist>, p: nat)
    requires |pool| == |specialists| && p < |pool|
    requires forall q :: 0 <= q < |pool| ==> pool[q].id == specialists[q].id
    ensures Holds(pool, p) <==> Holds(specialists, p)
  {
  }

  /** An outcome with both ids of a known branch records, on that branch, one observation, one success or failure, its
      signature if it failed, and one version; and on each of its specialists one outcome for every time the action
      names it. It changes nothing else of the branch. */
  lemma OutcomeRecords(b: Branch, action: Action, success: bool, signature: string)
    ensures var after := OutcomeIn(b, action, success, signature);
            && after == b.(specialists := after.specialists, observations := b.observations + 1,
                           successes := after.successes, failures := after.failures,
                           lastFailure := after.lastFailure, localVersion := b.localVersion + 1)
            && (success ==> after.successes == b.successes + 1 && after.failures == b.failures && after.lastFailure == b.lastFailure)
            && (!success ==>
                 after.successes == b.successes && after.failures == b.failures + 1 && after.lastFailure == Some(signature))
            && |after.specialists| == |b.specialists|
            && forall p :: 0 <= p < |b.specialists| ==>
                 after.specialists[p] == CreditedAt(b.specialists, action.specialistIds, success, p)
  {
    CreditsCount(b.specialists, action.specialistIds, success);
  }

  /** A recorded failure is attributed to the action, its branch and its specialists; an ownership key the action lacks is
      the branch's, and a missing signature is named as unknown. */
  lemma AttributionMeans(b: Branch, action: Action, signature: string, version: nat)
    ensures var a := AttributionFor(b, action, signature, version);
            && a.actionId == action.actionId && a.routeId == action.routeId && a.branchId == action.branchId
            && a.specialistIds == action.specialistIds && a.tissueVersion == version
            && (action.ownershipKey != "" ==> a.ownershipKey == action.ownershipKey)
            && (action.ownershipKey == "" ==> a.ownershipKey == b.ownershipKey)
            && (signature != "" ==> a.signature == signature)
            && (signature == "" ==> a.signature == "failure:unknown")
  {
  }
}
