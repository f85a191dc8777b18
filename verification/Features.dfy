/** The similarity measure of the routing tissue: weighted Jaccard over sparse feature maps, computed by one
    pass over the union of the keys.
    Source: src/difoundry/features.py:73-79. */
module Features {
  import opened Reals

  type Weights = map<string, real>

  /** max(m.get(key, 0.0), 0.0) */
  function WeightAt(m: Weights, key: string): (w: real)
    ensures 0.0 <= w
  {
    if key in m then Max(m[key], 0.0) else 0.0
  }

  /* ---------- sums over a finite set of keys ---------- */

  ghost function Sum(keys: set<string>, w: string -> real): real
  {
    if keys == {} then 0.0 else var k :| k in keys; w(k) + Sum(keys - {k}, w)
  }

  /** A sum does not depend on the order in which the keys are visited. */
  lemma {:induction false} SumRemove(keys: set<string>, k: string, w: string -> real)
    requires k in keys
    ensures Sum(keys, w) == w(k) + Sum(keys - {k}, w)
    decreases |keys|
  {
    var first :| first in keys && Sum(keys, w) == w(first) + Sum(keys - {first}, w);
    if first != k {
      SumRemove(keys - {first}, k, w);
      SumRemove(keys - {k}, first, w);
      assert keys - {first} - {k} == keys - {k} - {first};
    }
  }

  lemma {:induction false} SumMonotone(keys: set<string>, v: string -> real, w: string -> real)
    requires forall k :: k in keys ==> v(k) <= w(k)
    ensures Sum(keys, v) <= Sum(keys, w)
    decreases |keys|
  {
    if keys != {} {
      var k :| k in keys;
      SumRemove(keys, k, v);
      SumRemove(keys, k, w);
      SumMonotone(keys - {k}, v, w);
    }
  }

  lemma SumStrict(keys: set<string>, v: string -> real, w: string -> real, k: string)
    requires forall x :: x in keys ==> v(x) <= w(x)
    requires k in keys && v(k) < w(k)
    ensures Sum(keys, v) < Sum(keys, w)
  {
    SumRemove(keys, k, v);
    SumRemove(keys, k, w);
    SumMonotone(keys - {k}, v, w);
  }

  /** Keys of weight zero may be added freely. */
  lemma {:induction false} SumExtend(few: set<string>, many: set<string>, w: string -> real)
    requires few <= many
    requires forall k :: k in many - few ==> w(k) == 0.0
    ensures Sum(few, w) == Sum(many, w)
    decreases |many - few|
  {
    if many - few == {} {
      assert few == many;
    } else {
      var k :| k in many - few;
      SumRemove(many, k, w);
      assert many - {k} - few == many - few - {k};
      SumExtend(few, many - {k}, w);
    }
  }

  /* ---------- weighted Jaccard ---------- */

  /** Per key: the shared weight and the covering weight of two maps. */
  ghost function Low(left: Weights, right: Weights): string -> real
  {
    k => Min(WeightAt(left, k), WeightAt(right, k))
  }

  ghost function High(left: Weights, right: Weights): string -> real
  {
    k => Max(WeightAt(left, k), WeightAt(right, k))
  }

  ghost function Shared(left: Weights, right: Weights): real
  {
    Sum(left.Keys + right.Keys, Low(left, right))
  }

  ghost function Covered(left: Weights, right: Weights): real
  {
    Sum(left.Keys + right.Keys, High(left, right))
  }

  function Ratio(numerator: real, denominator: real): real
  {
    if denominator == 0.0 then 0.0 else numerator / denominator
  }

  ghost function Jaccard(left: Weights, right: Weights): real
  {
    Ratio(Shared(left, right), Covered(left, right))
  }

  /** The code's expression: both sums run over the union of the key sets, in whatever order the set yields
      them. */
  method WeightedJaccard(left: Weights, right: Weights) returns (similarity: real)
    ensures similarity == Jaccard(left, right)
  {
    var keys := left.Keys + right.Keys;
    if keys == {} {
      return 0.0;
    }
    var numerator, denominator := 0.0, 0.0;
    var rest := keys;
    while rest != {}
      invariant rest <= keys
      invariant numerator + Sum(rest, Low(left, right)) == Shared(left, right)
      invariant denominator + Sum(rest, High(left, right)) == Covered(left, right)
      decreases |rest|
    {
      var key :| key in rest;
      SumRemove(rest, key, Low(left, right));
      SumRemove(rest, key, High(left, right));
      numerator := numerator + Min(WeightAt(left, key), WeightAt(right, key));
      denominator := denominator + Max(WeightAt(left, key), WeightAt(right, key));
      rest := rest - {key};
    }
    similarity := if denominator == 0.0 then 0.0 else numerator / denominator;
  }

  lemma SumsOrdered(left: Weights, right: Weights)
    ensures 0.0 <= Shared(left, right) <= Covered(left, right)
  {
    var keys := left.Keys + right.Keys;
    SumExtend({}, keys, _ => 0.0);
    SumMonotone(keys, _ => 0.0, Low(left, right));
    SumMonotone(keys, Low(left, right), High(left, right));
  }

  lemma RatioRange(n: real, d: real)
    requires 0.0 <= n <= d
    ensures 0.0 <= Ratio(n, d) <= 1.0
    ensures d > 0.0 ==> (Ratio(n, d) == 1.0 <==> n == d)
  {
    if d > 0.0 {
      assert n / d * d == n;
    }
  }

  /** Whatever the weights, the similarity is symmetric and lies in [0, 1]. */
  lemma JaccardRange(left: Weights, right: Weights)
    ensures 0.0 <= Jaccard(left, right) <= 1.0
    ensures Jaccard(left, right) == Jaccard(right, left)
  {
    SumsOrdered(left, right);
    RatioRange(Shared(left, right), Covered(left, right));
    assert left.Keys + right.Keys == right.Keys + left.Keys;
    SumMonotone(left.Keys + right.Keys, Low(left, right), Low(right, left));
    SumMonotone(left.Keys + right.Keys, Low(right, left), Low(left, right));
    SumMonotone(left.Keys + right.Keys, High(left, right), High(right, left));
    SumMonotone(left.Keys + right.Keys, High(right, left), High(left, right));
  }

  ghost predicate Positive(m: Weights) {
    forall k :: k in m ==> m[k] > 0.0
  }

  lemma CoveredPositive(left: Weights, right: Weights)
    requires Positive(left) && Positive(right) && (left != map[] || right != map[])
    ensures Covered(left, right) > 0.0
  {
    var keys := left.Keys + right.Keys;
    if left != map[] {
      var k :| k in left;
      SumExtend({}, keys, _ => 0.0);
      SumStrict(keys, _ => 0.0, High(left, right), k);
    } else {
      var k :| k in right;
      SumExtend({}, keys, _ => 0.0);
      SumStrict(keys, _ => 0.0, High(left, right), k);
    }
  }

  /** On maps of positive weights, similarity 1 means being the same map, not merely having the same keys. */
  lemma JaccardOneIff(left: Weights, right: Weights)
    requires Positive(left) && Positive(right)
    ensures Jaccard(left, right) == 1.0 <==> left == right && left != map[]
  {
    var keys := left.Keys + right.Keys;
    if left == map[] && right == map[] {
      assert keys == {};
    } else {
      CoveredPositive(left, right);
      SumsOrdered(left, right);
      RatioRange(Shared(left, right), Covered(left, right));
      if left == right {
        SumMonotone(keys, High(left, right), Low(left, right));
      } else {
        var k :| k in keys && (k !in left || k !in right || left[k] != right[k]);
        SumStrict(keys, Low(left, right), High(left, right), k);
      }
    }
  }

  /** A pair of sums with more shared and no more covered weight has no lower ratio. */
  lemma RatioMonotone(n: real, d: real, n': real, d': real)
    requires 0.0 <= n <= n' <= d' <= d
    ensures Ratio(n, d) <= Ratio(n', d')
  {
    if d' > 0.0 {
      assert n * d' <= n * d;
      assert n * d <= n' * d;
      DivideBoth(n, d, n', d');
    }
  }

  lemma DivideBoth(n: real, d: real, n': real, d': real)
    requires d > 0.0 && d' > 0.0 && n * d' <= n' * d
    ensures n / d <= n' / d'
  {
    var q, q' := n / d, n' / d';
    assert n == q * d && n' == q' * d';
    assert q * (d * d') == n * d' && q' * (d * d') == n' * d;
    MulCancel(q, q', d * d');
  }

  lemma MulCancel(a: real, b: real, c: real)
    requires c > 0.0 && a * c <= b * c
    ensures a <= b
  {
    assert a * c - b * c == (a - b) * c;
  }
}
