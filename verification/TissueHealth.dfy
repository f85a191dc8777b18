/** How recorded outcomes move the tissue's decisions: successes raise a specialist's health and with it its score,
    failures lower them, and of two branches that differ in their records alone the worse one is never selected.
    Source: src/difoundry/tissue.py:62-64, 317-345, 404-440, 529-541. */
module TissueHealth {
  import opened Reals
  import opened Features
  import opened Ranking
  import opened Routing
  import opened TissueRouting
  import T = Tissue

  /* ---------- health ---------- */

  /** Health is the share of successes once one success and one failure have been added. */
  lemma HealthIsShare(s: T.Specialist)
    ensures Health(s) * ((s.successes + s.failures + 2) as real) == (s.successes + 1) as real
    ensures 0.0 < Health(s) < 1.0
    ensures s.successes == s.failures ==> Health(s) == 0.5
  {
    ShareOf(s.successes, s.failures);
  }

  function Share(successes: nat, failures: nat): real
  {
    (successes as real + 1.0) / ((successes + failures) as real + 2.0)
  }

  lemma ShareOf(a: nat, b: nat)
    ensures Share(a, b) * ((a + b + 2) as real) == (a + 1) as real
    ensures 0.0 < Share(a, b) < 1.0
    ensures a == b ==> Share(a, b) == 0.5
  {
    var n := (a + b) as real + 2.0;
    assert Share(a, b) * n == a as real + 1.0;
  }

  /** At least as many successes, at most as many failures, and not both equal. */
  predicate BetterRecord(s: T.Specialist, t: T.Specialist)
  {
    s.successes >= t.successes && s.failures <= t.failures && (s.successes, s.failures) != (t.successes, t.failures)
  }

  lemma SharesOrdered(a: nat, b: nat, c: nat, d: nat)
    requires a >= c && b <= d && (a, b) != (c, d)
    ensures Share(a, b) > Share(c, d)
  {
    var p, q, r, t := a as real + 1.0, b as real + 1.0, c as real + 1.0, d as real + 1.0;
    CrossOrdered(p, q, r, t);
    assert (a + b) as real + 2.0 == p + q && (c + d) as real + 2.0 == r + t;
  }

  lemma Times(a: real, b: real, c: real)
    requires a >= b && c > 0.0
    ensures a * c >= b * c && (a > b ==> a * c > b * c)
  {
    assert (a - b) * c >= 0.0 && (a > b ==> (a - b) * c > 0.0);
  }

  lemma CrossOrdered(p: real, q: real, r: real, t: real)
    requires p > 0.0 && q > 0.0 && r > 0.0 && t > 0.0 && p >= r && q <= t && (p > r || q < t)
    ensures p / (p + q) > r / (r + t)
  {
    Products(p, q, r, t);
    Expand(p, r, t);
    Expand(r, p, q);
    Quotients(p, p + q, r, r + t);
  }

  lemma Products(p: real, q: real, r: real, t: real)
    requires p > 0.0 && q > 0.0 && r > 0.0 && t > 0.0 && p >= r && q <= t && (p > r || q < t)
    ensures p * t > r * q && p * r == r * p
  {
    Times(p, r, t);
    Times(t, q, r);
  }

  lemma Expand(a: real, b: real, c: real)
    ensures a * (b + c) == a * b + a * c
  {
  }

  lemma Quotients(a: real, b: real, c: real, d: real)
    requires b > 0.0 && d > 0.0 && a * d > c * b
    ensures a / b > c / d
  {
    var x, y := a / b, c / d;
    assert x * b == a && y * d == c;
    Times(b, 0.0, d);
    assert (x - y) * (b * d) == a * d - c * b;
    PositiveFactor(x - y, b * d);
  }

  lemma PositiveFactor(a: real, b: real)
    requires b > 0.0 && a * b > 0.0
    ensures a > 0.0
  {
  }

  /** A better record means better health; in particular a success raises it and a failure lowers it. */
  lemma HealthFollowsRecord(s: T.Specialist, t: T.Specialist)
    requires BetterRecord(s, t)
    ensures Health(s) > Health(t)
  {
    SharesOrdered(s.successes, s.failures, t.successes, t.failures);
  }

  /** What an outcome records on a specialist, and which way its health goes. */
  lemma OutcomeMovesHealth(s: T.Specialist)
    ensures T.Credited(s, true) == s.(observations := s.observations + 1, successes := s.successes + 1)
    ensures T.Credited(s, false) == s.(observations := s.observations + 1, failures := s.failures + 1)
    ensures Health(T.Credited(s, true)) > Health(s) > Health(T.Credited(s, false))
  {
    HealthFollowsRecord(T.Credited(s, true), s);
    HealthFollowsRecord(s, T.Credited(s, false));
  }

  /* ---------- scores ---------- */

  /** Health moves a score between 85 and 100 percent of the similarity, in proportion. */
  lemma ScoreWithinSimilarity(s: T.Specialist, features: Weights)
    ensures var similarity := Jaccard(features, s.prototype);
            Adjusted(s, features) == similarity - 0.15 * similarity * (1.0 - Health(s)) &&
            0.85 * similarity <= Adjusted(s, features) <= similarity
  {
    var similarity := Jaccard(features, s.prototype);
    JaccardRange(features, s.prototype);
    HealthIsShare(s);
    ScaleLinear(similarity, Health(s));
  }

  lemma ScaleLinear(similarity: real, health: real)
    requires 0.0 <= similarity && 0.0 < health < 1.0
    ensures Adjust(similarity, health) == similarity - 0.15 * similarity * (1.0 - health)
    ensures 0.85 * similarity <= Adjust(similarity, health) <= similarity
  {
    assert similarity * (0.85 + 0.15 * health) == 0.85 * similarity + 0.15 * (similarity * health);
    assert 0.0 <= similarity * health <= similarity;
  }

  /** On equal prototypes the better record scores at least as high, and higher when there is any similarity. */
  lemma ScoreFollowsRecord(s: T.Specialist, t: T.Specialist, features: Weights)
    requires s.prototype == t.prototype && BetterRecord(s, t)
    ensures Adjusted(s, features) >= Adjusted(t, features)
    ensures Jaccard(features, t.prototype) > 0.0 ==> Adjusted(s, features) > Adjusted(t, features)
  {
    JaccardRange(features, t.prototype);
    HealthFollowsRecord(s, t);
    ScaleOrdered(Jaccard(features, t.prototype), Health(s), Health(t));
  }

  lemma ScaleOrdered(similarity: real, a: real, b: real)
    requires 0.0 <= similarity && a > b
    ensures Adjust(similarity, a) >= Adjust(similarity, b)
    ensures similarity > 0.0 ==> Adjust(similarity, a) > Adjust(similarity, b)
  {
    assert Adjust(similarity, a) - Adjust(similarity, b) == 0.15 * (similarity * (a - b));
    Times(similarity, 0.0, a - b);
  }

  /* ---------- what a branch has learned ---------- */

  ghost predicate Best(specialists: seq<T.Specialist>, features: Weights, s: T.Specialist)
  {
    s in specialists && !s.disabled &&
    forall t :: t in specialists && !t.disabled ==> Adjusted(t, features) <= Adjusted(s, features)
  }

  lemma TopScore(specialists: seq<T.Specialist>, features: Weights) returns (s: T.Specialist)
    requires Enabled(specialists) != []
    ensures Scores(specialists, features) != [] && Scores(specialists, features)[0].activation == Adjusted(s, features)
    ensures Best(specialists, features, s)
  {
    var enabled := Enabled(specialists);
    var rows := ScoreRows(enabled, features);
    First(rows);
    var best := Rank(rows)[0];
    s := enabled[best.at];
    assert s in enabled;
    forall t | t in specialists && !t.disabled ensures Adjusted(t, features) <= Adjusted(s, features) {
      assert t in enabled;
      var j :| 0 <= j < |enabled| && enabled[j] == t;
      assert j != best.at ==> Ahead(best, rows[j]);
    }
  }

  /** What an eligible branch brings into the decision: the score of its best enabled specialist; without one, everything
      if no branch of the route has learned yet, and nothing otherwise. */
  lemma LearnedIsBest(config: Config, route: Route, owners: seq<T.Branch>, features: Weights, k: nat)
    requires Aligned(route, owners) && k < |owners| && config.topK >= 1
    requires EligibleOf(config, BranchesOf(route)[k], owners[k])
    ensures var c := Candidates(config, route, owners, features)[k];
            && (Enabled(owners[k].specialists) == [] ==> c.learned == if TrainedRoute(owners) then 0.0 else 1.0)
            && (Enabled(owners[k].specialists) != [] ==>
                 exists s :: Best(owners[k].specialists, features, s) && c.learned == Adjusted(s, features))
            && c.activation == if false in BranchesOf(route)[k].conditions then 0.0 else 0.40 + 0.60 * c.learned
  {
    var scores := Scores(owners[k].specialists, features);
    LearnedFrom(config, BranchesOf(route)[k], owners[k], TrainedRoute(owners), scores);
    if Enabled(owners[k].specialists) != [] {
      var s := TopScore(owners[k].specialists, features);
      assert Best(owners[k].specialists, features, s);
    }
  }

  lemma LearnedFrom(config: Config, d: Definition, owner: T.Branch, trained: bool, scores: seq<Row>)
    requires EligibleOf(config, d, owner) && config.topK >= 1
    ensures var c := CandidateFrom(config, d, owner, trained, scores);
            && c.learned == (if scores != [] then scores[0].activation else if trained then 0.0 else 1.0)
            && c.activation == if false in d.conditions then 0.0 else 0.40 + 0.60 * c.learned
  {
    HardIsConjunction(d);
    BlendOf(Hard(d), CandidateFrom(config, d, owner, trained, scores).learned);
  }

  /** The enabled specialists keep their order. */
  lemma {:induction false} EnabledInOrder(a: seq<T.Specialist>, b: seq<T.Specialist>, s: T.Specialist)
    ensures Enabled(a + b) == Enabled(a) + Enabled(b)
    ensures Enabled([s]) == if s.disabled then [] else [s]
    decreases |b|
  {
    assert [s][..0] == [] && Enabled([]) == [];
    if b == [] {
      assert a + b == a;
    } else {
      EnabledInOrder(a, b[..|b| - 1], s);
      assert (a + b)[..|a + b| - 1] == a + b[..|b| - 1];
    }
  }

  /** The ranked scores of a branch are a descending permutation of the scores of its enabled specialists, the earlier one
      first on a tie. */
  lemma ScoresRanked(specialists: seq<T.Specialist>, features: Weights)
    ensures var ranked, enabled := Scores(specialists, features), Enabled(specialists);
            && multiset(ranked) == multiset(ScoreRows(enabled, features)) && Ordered(ranked)
            && forall i :: 0 <= i < |ranked| ==>
                 ranked[i].at < |enabled| && ranked[i].activation == Adjusted(enabled[ranked[i].at], features)
  {
    var rows := ScoreRows(Enabled(specialists), features);
    RankOrders(rows);
    forall i | 0 <= i < |Rank(rows)| ensures Rank(rows)[i].at < |rows| && rows[Rank(rows)[i].at] == Rank(rows)[i] {
      FromRank(rows, i);
    }
  }

  lemma LastId(enabled: seq<T.Specialist>, chosen: seq<Row>, row: Row)
    requires row.at < |enabled|
    ensures IdsOf(enabled, chosen + [row]) == IdsOf(enabled, chosen) + [enabled[row.at].id]
  {
    assert (chosen + [row])[..|chosen|] == chosen;
  }

  lemma {:induction false} IdsInOrder(enabled: seq<T.Specialist>, chosen: seq<Row>)
    requires forall i :: 0 <= i < |chosen| ==> chosen[i].at < |enabled|
    ensures |IdsOf(enabled, chosen)| == |chosen|
    ensures forall i :: 0 <= i < |chosen| ==> IdsOf(enabled, chosen)[i] == enabled[chosen[i].at].id
  {
    if chosen != [] {
      var front, last := chosen[..|chosen| - 1], chosen[|chosen| - 1];
      IdsInOrder(enabled, front);
      LastId(enabled, front, last);
      assert chosen == front + [last];
    }
  }

  /** The specialists that act for an eligible branch are the first of the ranking, as many as allowed and there are; for
      any other branch none acts. */
  lemma BestSpecialistsAct(config: Config, route: Route, owners: seq<T.Branch>, features: Weights, k: nat)
    requires Aligned(route, owners) && k < |owners|
    ensures var ids, ranked := Candidates(config, route, owners, features)[k].ids, Scores(owners[k].specialists, features);
            var enabled := Enabled(owners[k].specialists);
            if EligibleOf(config, BranchesOf(route)[k], owners[k]) then
              && |ids| == (if config.topK <= |ranked| then config.topK else |ranked|)
              && forall i :: 0 <= i < |ids| ==> ranked[i].at < |enabled| && ids[i] == enabled[ranked[i].at].id
            else ids == []
  {
    ScoresRanked(owners[k].specialists, features);
    if EligibleOf(config, BranchesOf(route)[k], owners[k]) {
      IdsInOrder(Enabled(owners[k].specialists), Take(Scores(owners[k].specialists, features), config.topK));
    }
  }

  /* ---------- decisions ---------- */

  /** Every enabled specialist of the second branch has a counterpart in the first with the same prototype and a better
      record. */
  predicate Outdoes(first: T.Branch, second: T.Branch)
  {
    forall t :: t in second.specialists && !t.disabled ==> Outdone(first, t)
  }

  predicate Outdone(first: T.Branch, t: T.Specialist)
  {
    exists s :: s in first.specialists && !s.disabled && s.prototype == t.prototype && BetterRecord(s, t)
  }

  ghost predicate Resembles(b: T.Branch, features: Weights)
  {
    exists t :: t in b.specialists && !t.disabled && Jaccard(features, t.prototype) > 0.0
  }

  lemma LearnsMore(first: T.Branch, second: T.Branch, features: Weights, s: T.Specialist, t: T.Specialist)
    requires Outdoes(first, second) && Resembles(second, features)
    requires Best(first.specialists, features, s) && Best(second.specialists, features, t)
    ensures Adjusted(s, features) > Adjusted(t, features)
  {
    assert Outdone(first, t);
    var r :| r in first.specialists && !r.disabled && r.prototype == t.prototype && BetterRecord(r, t);
    ScoreFollowsRecord(r, t, features);
    var near :| near in second.specialists && !near.disabled && Jaccard(features, near.prototype) > 0.0;
    ScoreWithinSimilarity(near, features);
    ScoreWithinSimilarity(t, features);
    assert Adjusted(near, features) <= Adjusted(t, features);
  }

  /** Of two branches with the same conditions and threshold, one whose specialists have the better records is the more
      active, and the other is not selected. */
  lemma BetterRecordWins(config: Config, route: Route, owners: seq<T.Branch>, features: Weights, i: nat, j: nat)
    requires Aligned(route, owners) && i < |owners| && j < |owners| && config.topK >= 1
    requires BranchesOf(route)[i].conditions == BranchesOf(route)[j].conditions
    requires BranchesOf(route)[i].minimum == BranchesOf(route)[j].minimum && !owners[i].disabled
    requires Outdoes(owners[i], owners[j]) && Resembles(owners[j], features)
    ensures TissueDecision(config, route, owners, features) != Select(BranchesOf(route)[j].branchId, j)
    ensures var cs := Candidates(config, route, owners, features);
            EligibleOf(config, BranchesOf(route)[j], owners[j]) && false !in BranchesOf(route)[j].conditions ==>
              cs[i].activation > cs[j].activation
  {
    SelectedNeeds(config, route, owners, features, j);
    if EligibleOf(config, BranchesOf(route)[j], owners[j]) && false !in BranchesOf(route)[j].conditions {
      MoreActive(config, route, owners, features, i, j);
    }
  }

  /** A selected branch is eligible, satisfies its conditions and is as active as any other. */
  lemma SelectedNeeds(config: Config, route: Route, owners: seq<T.Branch>, features: Weights, k: nat)
    requires Aligned(route, owners) && k < |owners|
    ensures TissueDecision(config, route, owners, features) == Select(BranchesOf(route)[k].branchId, k) ==>
              && EligibleOf(config, BranchesOf(route)[k], owners[k]) && false !in BranchesOf(route)[k].conditions
              && var cs := Candidates(config, route, owners, features);
                 forall j :: 0 <= j < |cs| ==> cs[j].activation <= cs[k].activation
  {
    if TissueDecision(config, route, owners, features) == Select(BranchesOf(route)[k].branchId, k) {
      SelectedIff(config, route, owners, features, k);
      SelectionRespectsGate(config, route, owners, features, k);
      WinnerMostActive(Candidates(config, route, owners, features), k);
    }
  }

  lemma WinnerMostActive(cs: seq<Candidate>, k: nat)
    requires k < |cs| && Wins(RowsOf(cs), k)
    ensures forall j :: 0 <= j < |cs| ==> cs[j].activation <= cs[k].activation
  {
    forall j | 0 <= j < |cs| ensures cs[j].activation <= cs[k].activation {
      assert j != k ==> Ahead(RowsOf(cs)[k], RowsOf(cs)[j]);
    }
  }

  lemma MoreActive(config: Config, route: Route, owners: seq<T.Branch>, features: Weights, i: nat, j: nat)
    requires Aligned(route, owners) && i < |owners| && j < |owners| && config.topK >= 1
    requires BranchesOf(route)[i].conditions == BranchesOf(route)[j].conditions
    requires BranchesOf(route)[i].minimum == BranchesOf(route)[j].minimum && !owners[i].disabled
    requires Outdoes(owners[i], owners[j]) && Resembles(owners[j], features)
    requires EligibleOf(config, BranchesOf(route)[j], owners[j]) && false !in BranchesOf(route)[j].conditions
    ensures Candidates(config, route, owners, features)[i].activation > Candidates(config, route, owners, features)[j].activation
  {
    LearnedIsBest(config, route, owners, features, i);
    LearnedIsBest(config, route, owners, features, j);
    var near :| near in owners[j].specialists && !near.disabled && Jaccard(features, near.prototype) > 0.0;
    assert near in Enabled(owners[j].specialists);
    assert Outdone(owners[i], near);
    var r :| r in owners[i].specialists && !r.disabled && r.prototype == near.prototype && BetterRecord(r, near);
    assert r in Enabled(owners[i].specialists);
    var cs := Candidates(config, route, owners, features);
    var s :| Best(owners[i].specialists, features, s) && cs[i].learned == Adjusted(s, features);
    var t :| Best(owners[j].specialists, features, t) && cs[j].learned == Adjusted(t, features);
    LearnsMore(owners[i], owners[j], features, s, t);
  }
}
