/** What similarity and one learning step amount to: on encoder output similarity is the Jaccard index of the feature
    sets, a step closes or opens the distance to the example by the rate, and it strictly moves the similarity.
    Source: src/difoundry/features.py:73-79; src/difoundry/tissue.py:289-293, 498-516. */
module LearningLaws {
  import opened Reals
  import opened Features
  import opened Learning

  /* ---------- similarity on feature sets ---------- */

  lemma {:induction false} SumCounts(keys: set<string>, ones: set<string>, w: string -> real)
    requires forall k :: k in keys ==> w(k) == if k in ones then 1.0 else 0.0
    ensures Sum(keys, w) == |keys * ones| as real
    decreases |keys|
  {
    if keys != {} {
      var k :| k in keys;
      SumRemove(keys, k, w);
      SumCounts(keys - {k}, ones, w);
      if k in ones {
        assert keys * ones == (keys - {k}) * ones + {k};
      } else {
        assert keys * ones == (keys - {k}) * ones;
      }
    } else {
      assert keys * ones == {};
    }
  }

  /** Where every weight is 1, similarity is the number of shared features over the number of features of either. */
  lemma JaccardOfSets(left: Weights, right: Weights)
    requires Binary(left) && Binary(right)
    ensures left.Keys + right.Keys == {} ==> Jaccard(left, right) == 0.0
    ensures left.Keys + right.Keys != {} ==>
              Jaccard(left, right) == |left.Keys * right.Keys| as real / |left.Keys + right.Keys| as real
  {
    var all, both := left.Keys + right.Keys, left.Keys * right.Keys;
    SumCounts(all, both, Low(left, right));
    SumCounts(all, all, High(left, right));
    assert all * both == both && all * all == all;
  }

  /* ---------- one step, key by key ---------- */

  /** What is left of a weight: the example's, plus the share 1 - rate of the distance to it. */
  function Left(was: real, goal: real, rate: real): real
  {
    goal + (1.0 - rate) * (was - goal)
  }

  /** A move towards the example leaves, per key, the share 1 - rate of the distance to it; what ends below the threshold
      is dropped, and nothing else is. */
  lemma TowardShrinksDistance(prototype: Weights, features: Weights, rate: real, key: string)
    requires InRange(prototype) && Binary(features) && 0.0 <= rate <= 1.0
    ensures var was, goal := Get(prototype, key), Get(features, key);
            var left := Left(was, goal, rate);
            && (key in Toward(prototype, features, rate) <==> left >= PRUNE)
            && (left >= PRUNE ==> Toward(prototype, features, rate)[key] == left)
  {
    var was, goal := Get(prototype, key), Get(features, key);
    BlendBetween(was, goal, rate);
    assert key in prototype ==> PRUNE <= prototype[key] <= 1.0;
    assert (1.0 - rate) * was + rate * goal == goal + (1.0 - rate) * (was - goal);
    assert Blend(prototype, features, rate, key) == goal + (1.0 - rate) * (was - goal);
  }

  /** A move away takes the share `rate` off every weight the example shares and touches no other; what ends below the
      threshold is dropped. */
  lemma AwayScalesShared(prototype: Weights, features: Weights, rate: real, key: string)
    requires InRange(prototype) && 0.0 <= rate <= 1.0
    ensures var after := Away(prototype, features, rate);
            if key !in prototype then key !in after
            else if key !in features then key in after && after[key] == prototype[key]
            else
              var left := prototype[key] - rate * prototype[key];
              (key in after <==> left >= PRUNE) && (left >= PRUNE ==> after[key] == left)
  {
    if key in prototype {
      assert Fade(prototype[key], rate) == prototype[key] - rate * prototype[key];
    }
  }

  /** The rate is the learning rate times the size of the reward, whatever its sign. */
  lemma RateIsProduct(learningRate: real, size: real)
    requires size >= 0.0
    ensures Rate(learningRate, size) == learningRate * size == Rate(learningRate, -size)
  {
  }

  /* ---------- strict progress ---------- */

  lemma RatioRises(n: real, d: real, n': real, d': real)
    requires 0.0 <= n <= n' <= d' <= d && d' > 0.0
    requires n < n' || (n' > 0.0 && d' < d)
    ensures Ratio(n, d) < Ratio(n', d')
  {
    assert n * d' < n' * d by {
      CrossLess(n, d, n', d');
    }
    LessQuotient(n, d, n', d');
  }

  lemma CrossLess(n: real, d: real, n': real, d': real)
    requires 0.0 <= n <= n' <= d' <= d && d' > 0.0
    requires n < n' || (n' > 0.0 && d' < d)
    ensures n * d' < n' * d
  {
    if n < n' {
      Product(n, n', d');
      ProductMonotone(d', d, n');
    } else {
      Product(d', d, n');
    }
  }

  lemma Product(a: real, b: real, c: real)
    requires a < b && c > 0.0
    ensures a * c < b * c && c * a < c * b
  {
    assert (b - a) * c > 0.0;
  }

  lemma ProductMonotone(a: real, b: real, c: real)
    requires a <= b && c >= 0.0
    ensures c * a <= c * b
  {
    assert c * (b - a) >= 0.0;
  }

  lemma LessQuotient(n: real, d: real, n': real, d': real)
    requires d > 0.0 && d' > 0.0 && n * d' < n' * d
    ensures n / d < n' / d'
  {
    var q, q' := n / d, n' / d';
    assert n == q * d && n' == q' * d';
    assert q * (d * d') == n * d' && q' * (d * d') == n' * d;
    assert (q' - q) * (d * d') > 0.0;
    PositiveProduct(d, d');
    Positive(q' - q, d * d');
  }

  lemma PositiveProduct(a: real, b: real)
    requires a > 0.0 && b > 0.0
    ensures a * b > 0.0
  {
  }

  lemma Positive(a: real, b: real)
    requires b > 0.0 && a * b > 0.0
    ensures a > 0.0
  {
  }

  lemma Regroup(was: real, rate: real)
    ensures Left(was, 1.0, rate) == was + (1.0 - was) * rate
    ensures Left(was, 1.0, rate) == rate + (1.0 - rate) * was
  {
    assert (1.0 - rate) * (was - 1.0) == was - 1.0 - rate * was + rate;
  }

  lemma NonNegative(a: real, b: real)
    requires a >= 0.0 && b >= 0.0
    ensures a * b >= 0.0 && (a > 0.0 && b > 0.0 ==> a * b > 0.0)
  {
  }

  lemma StepUp(was: real, rate: real)
    requires 0.0 <= was <= 1.0 && PRUNE <= rate <= 1.0
    ensures Left(was, 1.0, rate) >= rate && (was < 1.0 ==> Left(was, 1.0, rate) > was)
  {
    Regroup(was, rate);
    NonNegative(1.0 - rate, was);
    if was < 1.0 {
      StrictlyUp(was, rate);
    }
  }

  lemma StrictlyUp(was: real, rate: real)
    requires was < 1.0 && rate > 0.0
    ensures Left(was, 1.0, rate) > was
  {
    var extra := (1.0 - was) * rate;
    NonNegative(1.0 - was, rate);
    Regroup(was, rate);
    assert Left(was, 1.0, rate) == was + extra;
  }

  lemma StepDown(was: real, rate: real)
    requires 0.0 < was && 0.0 < rate <= 1.0
    ensures 0.0 <= Left(was, 0.0, rate) < was
  {
    Product(0.0, was, rate);
    ProductMonotone(0.0, was, 1.0 - rate);
    assert Left(was, 0.0, rate) == (1.0 - rate) * was == was - rate * was;
  }

  lemma WeightLeft(prototype: Weights, features: Weights, rate: real, key: string)
    requires InRange(prototype) && Binary(features) && 0.0 <= rate <= 1.0
    ensures WeightAt(Toward(prototype, features, rate), key) ==
            var left := Left(Get(prototype, key), Get(features, key), rate);
            if left >= PRUNE then left else 0.0
  {
    TowardShrinksDistance(prototype, features, rate, key);
  }

  lemma WeightWas(prototype: Weights, features: Weights, key: string)
    requires InRange(prototype) && Binary(features)
    ensures WeightAt(prototype, key) == Get(prototype, key) && WeightAt(features, key) == Get(features, key)
    ensures Get(features, key) == if key in features then 1.0 else 0.0
    ensures 0.0 <= Get(prototype, key) <= 1.0
  {
  }

  lemma LeftMoves(was: real, rate: real)
    requires 0.0 <= was <= 1.0 && PRUNE <= rate <= 1.0
    ensures Left(was, 1.0, rate) >= PRUNE && (was < 1.0 ==> Left(was, 1.0, rate) > was)
    ensures was > 0.0 ==> 0.0 <= Left(was, 0.0, rate) < was
  {
    StepUp(was, rate);
    if was > 0.0 {
      StepDown(was, rate);
    }
  }

  /** The weight a key has after the move, next to what it was. */
  lemma NewWeight(prototype: Weights, features: Weights, rate: real, key: string)
    requires InRange(prototype) && Binary(features) && PRUNE <= rate <= 1.0
    ensures var was, now := Get(prototype, key), WeightAt(Toward(prototype, features, rate), key);
            && (key in features ==> now > 0.0 && (was < 1.0 ==> now > was))
            && (key !in features && was > 0.0 ==> now < was)
  {
    WeightLeft(prototype, features, rate, key);
    WeightWas(prototype, features, key);
    LeftMoves(Get(prototype, key), rate);
  }

  /** A key whose weight differs from the example's moves, unless it is not there and stays below the threshold. */
  lemma TowardMovesKey(prototype: Weights, features: Weights, rate: real, key: string)
    requires InRange(prototype) && Binary(features) && PRUNE <= rate <= 1.0
    requires Get(prototype, key) != Get(features, key)
    ensures var moved := Toward(prototype, features, rate);
            if key in features then Low(features, prototype)(key) < Low(features, moved)(key)
            else High(features, moved)(key) < High(features, prototype)(key)
  {
    NewWeight(prototype, features, rate, key);
    WeightWas(prototype, features, key);
  }

  lemma SumsMove(prototype: Weights, features: Weights, rate: real)
    requires InRange(prototype) && Binary(features) && 0.0 <= rate <= 1.0
    ensures var moved, keys := Toward(prototype, features, rate), features.Keys + prototype.Keys;
            && (forall key :: key in keys ==> Low(features, prototype)(key) <= Low(features, moved)(key))
            && (forall key :: key in keys ==> High(features, moved)(key) <= High(features, prototype)(key))
            && Shared(features, moved) == Sum(keys, Low(features, moved))
            && Covered(features, moved) == Sum(keys, High(features, moved))
            && Shared(features, prototype) <= Shared(features, moved) && Covered(features, moved) <= Covered(features, prototype)
  {
    var moved, keys := Toward(prototype, features, rate), features.Keys + prototype.Keys;
    forall key | key in keys
      ensures Low(features, prototype)(key) <= Low(features, moved)(key)
      ensures High(features, prototype)(key) >= High(features, moved)(key)
    {
      TowardPerKey(prototype, features, rate, key);
    }
    OverWiderKeys(features, moved, keys);
    SumMonotone(keys, Low(features, prototype), Low(features, moved));
    SumMonotone(keys, High(features, moved), High(features, prototype));
  }

  /** A reward strong enough to leave a trace makes the trained prototype strictly more similar to its example, unless it
      was identical already. */
  lemma TowardRaises(prototype: Weights, features: Weights, rate: real)
    requires InRange(prototype) && Binary(features) && PRUNE <= rate <= 1.0
    requires features != map[] && prototype != features
    ensures Jaccard(features, prototype) < Jaccard(features, Toward(prototype, features, rate))
  {
    var moved, keys := Toward(prototype, features, rate), features.Keys + prototype.Keys;
    SumsMove(prototype, features, rate);
    SumsOrdered(features, prototype);
    SumsOrdered(features, moved);
    SharesSomething(prototype, features, rate);
    var key := DifferingKey(prototype, features);
    TowardMovesKey(prototype, features, rate, key);
    if key in features {
      SumStrict(keys, Low(features, prototype), Low(features, moved), key);
    } else {
      SumStrict(keys, High(features, moved), High(features, prototype), key);
    }
    RatioRises(Shared(features, prototype), Covered(features, prototype), Shared(features, moved), Covered(features, moved));
  }

  lemma SameWeights(prototype: Weights, features: Weights)
    requires InRange(prototype) && Binary(features)
    requires forall key :: key in features.Keys + prototype.Keys ==> Get(prototype, key) == Get(features, key)
    ensures prototype == features
  {
    forall key | key in features.Keys + prototype.Keys
      ensures key in features && key in prototype && features[key] == prototype[key]
    {
      assert Get(prototype, key) == Get(features, key);
    }
    assert prototype.Keys == features.Keys;
  }

  lemma DifferingKey(prototype: Weights, features: Weights) returns (key: string)
    requires InRange(prototype) && Binary(features) && prototype != features
    ensures key in features.Keys + prototype.Keys && Get(prototype, key) != Get(features, key)
  {
    if forall k :: k in features.Keys + prototype.Keys ==> Get(prototype, k) == Get(features, k) {
      SameWeights(prototype, features);
      assert false;
    }
    key :| key in features.Keys + prototype.Keys && Get(prototype, key) != Get(features, key);
  }

  /** After the move, every feature of the example is in the prototype. */
  lemma SharesSomething(prototype: Weights, features: Weights, rate: real)
    requires InRange(prototype) && Binary(features) && PRUNE <= rate <= 1.0 && features != map[]
    ensures Shared(features, Toward(prototype, features, rate)) > 0.0
    ensures Covered(features, Toward(prototype, features, rate)) > 0.0
  {
    var moved := Toward(prototype, features, rate);
    var key :| key in features;
    NewWeight(prototype, features, rate, key);
    WeightWas(prototype, features, key);
    var keys := features.Keys + moved.Keys;
    SumExtend({}, keys, _ => 0.0);
    SumStrict(keys, _ => 0.0, Low(features, moved), key);
    SumsOrdered(features, moved);
  }

  /** A negative reward makes it strictly less similar, if it shares anything with the example. */
  lemma AwayLowers(prototype: Weights, features: Weights, rate: real, shared: string)
    requires InRange(prototype) && Binary(features) && 0.0 < rate <= 1.0
    requires shared in prototype && shared in features
    ensures Jaccard(features, Away(prototype, features, rate)) < Jaccard(features, prototype)
  {
    var moved, keys := Away(prototype, features, rate), features.Keys + prototype.Keys;
    assert forall key :: key in prototype ==> PRUNE <= prototype[key] <= 1.0;
    forall key | key in keys
      ensures Low(features, prototype)(key) >= Low(features, moved)(key)
      ensures High(features, prototype)(key) == High(features, moved)(key)
    {
      AwayPerKey(prototype, features, rate, key);
    }
    AwayScalesShared(prototype, features, rate, shared);
    Product(0.0, prototype[shared], rate);
    OverWiderKeys(features, moved, keys);
    SumStrict(keys, Low(features, moved), Low(features, prototype), shared);
    SumMonotone(keys, High(features, moved), High(features, prototype));
    SumMonotone(keys, High(features, prototype), High(features, moved));
    SumsOrdered(features, prototype);
    SumsOrdered(features, moved);
    RatioRises(Shared(features, moved), Covered(features, moved), Shared(features, prototype), Covered(features, prototype));
  }
}
