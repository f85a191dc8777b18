/** How one specialist's prototype moves towards an example (reward >= 0) or away from it (reward < 0), and what
    that does to its similarity.
    Source: src/difoundry/tissue.py:289-293, 498-516. */
module Learning {
  import opened Features
  import opened Reals

  /** Weights below this are pruned from a prototype. */
  const PRUNE := 0.02

  /** m.get(key, 0.0) */
  function Get(m: Weights, key: string): real
  {
    if key in m then m[key] else 0.0
  }

  function Blend(prototype: Weights, features: Weights, rate: real, key: string): real
  {
    (1.0 - rate) * Get(prototype, key) + rate * Get(features, key)
  }

  function Toward(prototype: Weights, features: Weights, rate: real): Weights
  {
    map key | key in prototype.Keys + features.Keys && Blend(prototype, features, rate, key) >= PRUNE
      :: Min(1.0, Blend(prototype, features, rate, key))
  }

  function Fade(weight: real, rate: real): real
  {
    weight * (1.0 - rate)
  }

  function Faded(prototype: Weights, features: Weights, rate: real, key: string): real
    requires key in prototype
  {
    if key in features then Fade(prototype[key], rate) else prototype[key]
  }

  function Away(prototype: Weights, features: Weights, rate: real): Weights
  {
    map key | key in prototype && (key !in features || Faded(prototype, features, rate, key) >= PRUNE)
      :: Faded(prototype, features, rate, key)
  }

  function Rate(learningRate: real, reward: real): real
  {
    learningRate * (if reward < 0.0 then -reward else reward)
  }

  /** One learning step with the sign of the reward choosing the direction. */
  function Adjusted(prototype: Weights, features: Weights, learningRate: real, reward: real): Weights
  {
    var rate := Rate(learningRate, reward);
    if reward >= 0.0 then Toward(prototype, features, rate) else Away(prototype, features, rate)
  }

  /** A dictionary part way through a pass: keys still to visit hold what they held before, the others already
      hold their goal. */
  ghost function Stage(before: Weights, goal: Weights, rest: set<string>): Weights
  {
    map key | key in (before.Keys * rest) + (goal.Keys - rest) :: if key in rest then before[key] else goal[key]
  }

  /** Visiting one key: it is set to its goal, or dropped when it has none. */
  lemma StageStep(before: Weights, goal: Weights, rest: set<string>, key: string)
    requires key in rest
    ensures Get(Stage(before, goal, rest), key) == Get(before, key)
    ensures key in goal ==> Stage(before, goal, rest - {key}) == Stage(before, goal, rest)[key := goal[key]]
    ensures key !in goal ==> Stage(before, goal, rest - {key}) == Stage(before, goal, rest) - {key}
  {
  }

  lemma StageStart(before: Weights, goal: Weights, rest: set<string>)
    requires forall key :: key !in rest ==> (key in before <==> key in goal)
    requires forall key :: key !in rest && key in before ==> before[key] == goal[key]
    ensures Stage(before, goal, rest) == before
    ensures Stage(before, goal, {}) == goal
  {
  }

  /** The new value of one key, computed from the half-updated dictionary, is the one its original content
      gives. */
  lemma TowardStep(before: Weights, features: Weights, rate: real, rest: set<string>, key: string, weights: Weights)
    requires key in rest && rest <= before.Keys + features.Keys
    requires weights == Stage(before, Toward(before, features, rate), rest)
    ensures var updated := Blend(weights, features, rate, key);
            Stage(before, Toward(before, features, rate), rest - {key})
            == if updated < PRUNE then weights - {key} else weights[key := Min(1.0, updated)]
  {
    var goal := Toward(before, features, rate);
    StageStep(before, goal, rest, key);
    assert Blend(weights, features, rate, key) == Blend(before, features, rate, key);
    assert key in goal <==> Blend(before, features, rate, key) >= PRUNE;
  }

  lemma AwayStep(before: Weights, features: Weights, rate: real, rest: set<string>, key: string, weights: Weights)
    requires key in rest && rest <= before.Keys * features.Keys
    requires weights == Stage(before, Away(before, features, rate), rest)
    ensures key in weights
    ensures var updated := Fade(weights[key], rate);
            Stage(before, Away(before, features, rate), rest - {key})
            == if updated < PRUNE then weights - {key} else weights[key := updated]
  {
    var goal := Away(before, features, rate);
    StageStep(before, goal, rest, key);
    assert weights[key] == before[key];
    assert Fade(weights[key], rate) == Faded(before, features, rate, key);
    assert key in goal <==> Faded(before, features, rate, key) >= PRUNE;
  }

  lemma AwayStart(before: Weights, features: Weights, rate: real)
    ensures Stage(before, Away(before, features, rate), features.Keys * before.Keys) == before
    ensures Stage(before, Away(before, features, rate), {}) == Away(before, features, rate)
  {
    StageStart(before, Away(before, features, rate), features.Keys * before.Keys);
  }

  /** The dictionary the code updates key by key. */
  class Prototype {
    var weights: Weights

    constructor (initial: Weights)
      ensures weights == initial
    {
      weights := initial;
    }

    method MoveToward(features: Weights, rate: real)
      modifies this
      ensures weights == Toward(old(weights), features, rate)
    {
      ghost var before, goal := weights, Toward(weights, features, rate);
      var rest := weights.Keys + features.Keys;
      StageStart(before, goal, rest);
      while rest != {}
        invariant rest <= before.Keys + features.Keys
        invariant weights == Stage(before, goal, rest)
        decreases |rest|
      {
        var key :| key in rest;
        TowardStep(before, features, rate, rest, key, weights);
        var updated := Blend(weights, features, rate, key);
        weights := if updated < PRUNE then weights - {key} else weights[key := Min(1.0, updated)];
        rest := rest - {key};
      }
    }

    method MoveAway(features: Weights, rate: real)
      modifies this
      ensures weights == Away(old(weights), features, rate)
    {
      ghost var before, goal := weights, Away(weights, features, rate);
      var rest := features.Keys * weights.Keys;
      AwayStart(before, features, rate);
      while rest != {}
        invariant rest <= features.Keys * before.Keys
        invariant weights == Stage(before, goal, rest)
        decreases |rest|
      {
        var key :| key in rest;
        AwayStep(before, features, rate, rest, key, weights);
        var updated := Fade(weights[key], rate);
        weights := if updated < PRUNE then weights - {key} else weights[key := updated];
        rest := rest - {key};
      }
    }

    method Adjust(features: Weights, learningRate: real, reward: real)
      modifies this
      ensures weights == Adjusted(old(weights), features, learningRate, reward)
    {
      var rate := Rate(learningRate, reward);
      if reward >= 0.0 {
        MoveToward(features, rate);
      } else {
        MoveAway(features, rate);
      }
    }
  }

  /* ---------- the invariant of every prototype ---------- */

  ghost predicate InRange(m: Weights) {
    forall key :: key in m ==> PRUNE <= m[key] <= 1.0
  }

  /** What the feature encoder produces: every feature present has weight 1. */
  ghost predicate Binary(m: Weights) {
    forall key :: key in m ==> m[key] == 1.0
  }

  lemma AdjustedInRange(prototype: Weights, features: Weights, learningRate: real, reward: real)
    requires InRange(prototype)
    requires 0.0 <= learningRate
    ensures InRange(Adjusted(prototype, features, learningRate, reward))
  {
    var rate := Rate(learningRate, reward);
    assert rate >= 0.0;
    if reward < 0.0 {
      forall key | key in Away(prototype, features, rate)
        ensures PRUNE <= Away(prototype, features, rate)[key] <= 1.0
      {
        FadeBound(prototype[key], rate);
      }
    }
  }

  lemma FadeBound(weight: real, rate: real)
    requires 0.0 <= weight && 0.0 <= rate
    ensures Fade(weight, rate) <= weight
  {
    assert weight * (1.0 - rate) == weight - weight * rate;
  }

  /* ---------- towards ---------- */

  lemma BlendBetween(had: real, target: real, rate: real)
    requires 0.0 <= rate <= 1.0
    ensures Min(had, target) <= (1.0 - rate) * had + rate * target <= Max(had, target)
  {
    assert (1.0 - rate) * had + rate * target == had + rate * (target - had);
    assert (1.0 - rate) * had + rate * target == target + (1.0 - rate) * (had - target);
    if had <= target {
      SignOfProduct(rate, target - had);
      SignOfProduct(1.0 - rate, target - had);
    } else {
      SignOfProduct(rate, had - target);
      SignOfProduct(1.0 - rate, had - target);
    }
  }

  lemma SignOfProduct(a: real, b: real)
    requires a >= 0.0 && b >= 0.0
    ensures a * b >= 0.0 && a * -b == -(a * b)
  {
  }

  /** Key by key, a move towards the example keeps at least the shared weight and at most the covering weight:
      pruning never removes a key both maps hold. */
  lemma TowardPerKey(prototype: Weights, features: Weights, rate: real, key: string)
    requires InRange(prototype) && InRange(features) && 0.0 <= rate <= 1.0
    ensures Low(features, prototype)(key) <= Low(features, Toward(prototype, features, rate))(key)
    ensures High(features, prototype)(key) >= High(features, Toward(prototype, features, rate))(key)
  {
    var had, wanted, updated := Get(prototype, key), Get(features, key), Blend(prototype, features, rate, key);
    BlendBetween(had, wanted, rate);
    assert key in prototype ==> PRUNE <= prototype[key] <= 1.0;
    assert key in features ==> PRUNE <= features[key] <= 1.0;
    SettledBetween(had, wanted, updated);
    assert WeightAt(prototype, key) == had && WeightAt(features, key) == wanted;
    assert key in prototype.Keys + features.Keys
      ==> WeightAt(Toward(prototype, features, rate), key) == Settled(updated);
  }

  function Settled(updated: real): real
  {
    if updated < PRUNE then 0.0 else Min(1.0, updated)
  }

  lemma SettledBetween(had: real, wanted: real, updated: real)
    requires had == 0.0 || PRUNE <= had <= 1.0
    requires wanted == 0.0 || PRUNE <= wanted <= 1.0
    requires Min(had, wanted) <= updated <= Max(had, wanted)
    ensures Min(wanted, had) <= Min(wanted, Settled(updated))
    ensures Max(wanted, Settled(updated)) <= Max(wanted, had)
  {
  }

  /** A non-negative reward never lowers the similarity of the prototype it trains to the example it was trained
      on. */
  lemma TowardNeverLowers(prototype: Weights, features: Weights, rate: real)
    requires InRange(prototype) && InRange(features) && 0.0 <= rate <= 1.0
    ensures Jaccard(features, prototype) <= Jaccard(features, Toward(prototype, features, rate))
  {
    var moved := Toward(prototype, features, rate);
    var keys := features.Keys + prototype.Keys;
    forall key | key in keys
      ensures Low(features, prototype)(key) <= Low(features, moved)(key)
      ensures High(features, prototype)(key) >= High(features, moved)(key)
    {
      TowardPerKey(prototype, features, rate, key);
    }
    SumMonotone(keys, Low(features, prototype), Low(features, moved));
    SumMonotone(keys, High(features, moved), High(features, prototype));
    OverWiderKeys(features, moved, keys);
    SumsOrdered(features, prototype);
    SumsOrdered(features, moved);
    RatioMonotone(Shared(features, prototype), Covered(features, prototype),
                  Shared(features, moved), Covered(features, moved));
  }

  lemma OverWiderKeys(left: Weights, right: Weights, keys: set<string>)
    requires left.Keys + right.Keys <= keys
    ensures Shared(left, right) == Sum(keys, Low(left, right))
    ensures Covered(left, right) == Sum(keys, High(left, right))
  {
    SumExtend(left.Keys + right.Keys, keys, Low(left, right));
    SumExtend(left.Keys + right.Keys, keys, High(left, right));
  }

  /* ---------- away ---------- */

  /** The features dominate the prototype where both are present; encoder output does, because its weights are 1
      and prototype weights at most 1. */
  ghost predicate Dominates(features: Weights, prototype: Weights) {
    forall key :: key in features && key in prototype ==> features[key] >= prototype[key]
  }

  lemma AwayPerKey(prototype: Weights, features: Weights, rate: real, key: string)
    requires InRange(prototype) && InRange(features) && Dominates(features, prototype) && 0.0 <= rate <= 1.0
    ensures Low(features, prototype)(key) >= Low(features, Away(prototype, features, rate))(key)
    ensures High(features, prototype)(key) == High(features, Away(prototype, features, rate))(key)
  {
    if key in prototype {
      FadeBound(prototype[key], rate);
      assert PRUNE <= prototype[key] <= 1.0;
      assert key in features ==> features[key] >= prototype[key];
      assert Fade(prototype[key], rate) >= 0.0;
    }
  }

  /** A negative reward never raises it. */
  lemma AwayNeverRaises(prototype: Weights, features: Weights, rate: real)
    requires InRange(prototype) && InRange(features) && Dominates(features, prototype) && 0.0 <= rate <= 1.0
    ensures Jaccard(features, Away(prototype, features, rate)) <= Jaccard(features, prototype)
  {
    var moved := Away(prototype, features, rate);
    var keys := features.Keys + prototype.Keys;
    forall key | key in keys
      ensures Low(features, prototype)(key) >= Low(features, moved)(key)
      ensures High(features, prototype)(key) == High(features, moved)(key)
    {
      AwayPerKey(prototype, features, rate, key);
    }
    SumMonotone(keys, Low(features, moved), Low(features, prototype));
    SumMonotone(keys, High(features, moved), High(features, prototype));
    SumMonotone(keys, High(features, prototype), High(features, moved));
    OverWiderKeys(features, moved, keys);
    SumsOrdered(features, prototype);
    SumsOrdered(features, moved);
    RatioMonotone(Shared(features, moved), Covered(features, moved),
                  Shared(features, prototype), Covered(features, prototype));
  }

  /** The hypothesis of domination is needed, though not a fault of the code: fading a weight that exceeds the
      feature's brings the two maps closer. The encoder never produces the fractional feature used here. */
  lemma AwayCanRaiseWithoutDomination()
    ensures var prototype, features := map["a" := 1.0], map["a" := 0.5];
            InRange(prototype) && InRange(features)
            && Jaccard(features, prototype) < Jaccard(features, Away(prototype, features, 0.5))
  {
    var prototype: Weights, features: Weights := map["a" := 1.0], map["a" := 0.5];
    assert Away(prototype, features, 0.5) == features by {
      assert Faded(prototype, features, 0.5, "a") == 0.5;
    }
    JaccardOneIff(features, features);
    JaccardOneIff(features, prototype);
    JaccardRange(features, prototype);
    assert features["a"] != prototype["a"];
  }

  lemma RateRange(learningRate: real, reward: real)
    requires 0.0 < learningRate <= 1.0 && -1.0 <= reward <= 1.0
    ensures 0.0 <= Rate(learningRate, reward) <= 1.0
  {
    var size := if reward < 0.0 then -reward else reward;
    assert 0.0 <= learningRate * size;
    assert size - learningRate * size == (1.0 - learningRate) * size >= 0.0;
  }

  /** Both directions for encoder output and the code's own rate. */
  lemma LearningDirection(prototype: Weights, features: Weights, learningRate: real, reward: real)
    requires InRange(prototype) && Binary(features)
    requires 0.0 < learningRate <= 1.0 && -1.0 <= reward <= 1.0
    ensures reward >= 0.0 ==> Jaccard(features, prototype) <= Jaccard(features, Adjusted(prototype, features, learningRate, reward))
    ensures reward < 0.0 ==> Jaccard(features, Adjusted(prototype, features, learningRate, reward)) <= Jaccard(features, prototype)
  {
    RateRange(learningRate, reward);
    var rate := Rate(learningRate, reward);
    if reward >= 0.0 {
      TowardNeverLowers(prototype, features, rate);
    } else {
      AwayNeverRaises(prototype, features, rate);
    }
  }
}
