/** The declarative router: branches activate when all their conditions hold, the strongest branch wins, and the
    router abstains below the branch's threshold or on a tie.
    Source: src/difoundry/routing.py:20-112. */
module Routing {
  import opened Ranking

  /** One branch of a route, with the truth of each of its conditions in the event at hand. */
  datatype Definition = Definition(branchId: string, priority: int, minimum: real, conditions: seq<bool>)

  datatype Route = Route(routeId: string, branches: seq<Definition>, abstainOnTie: bool)

  datatype Decision = Abstain | Select(branchId: string, at: nat)

  const DEFAULT := Definition("default", 0, 1.0, [])

  function BranchesOf(route: Route): (branches: seq<Definition>)
    ensures branches != []
  {
    if route.branches == [] then [DEFAULT] else route.branches
  }

  function Condition(matched: bool): real
  {
    if matched then 1.0 else 0.0
  }

  function Least(conditions: seq<bool>): real
    requires conditions != []
  {
    if |conditions| == 1 then Condition(conditions[0])
    else
      var rest := Least(conditions[1..]);
      if rest < Condition(conditions[0]) then rest else Condition(conditions[0])
  }

  /** The activation of a branch: the minimum over its conditions. */
  function Hard(d: Definition): real
  {
    if d.conditions == [] then 1.0 else Least(d.conditions)
  }

  lemma {:induction false} LeastIsConjunction(conditions: seq<bool>)
    requires conditions != []
    ensures Least(conditions) == if false in conditions then 0.0 else 1.0
  {
    if |conditions| > 1 {
      LeastIsConjunction(conditions[1..]);
      assert conditions == [conditions[0]] + conditions[1..];
    }
  }

  /** Activation is all or nothing, and conjunctive. */
  lemma HardIsConjunction(d: Definition)
    ensures Hard(d) == if false in d.conditions then 0.0 else 1.0
  {
    if d.conditions != [] {
      LeastIsConjunction(d.conditions);
    }
  }

  function Rows(branches: seq<Definition>): (rows: seq<Row>)
    ensures |rows| == |branches| && Numbered(rows)
  {
    seq(|branches|, i requires 0 <= i < |branches| => Row(Hard(branches[i]), branches[i].priority, i))
  }

  /* ---------- the decision ---------- */

  /** Row k wins: none is ahead of it. */
  ghost predicate Wins(rows: seq<Row>, k: nat)
    requires k < |rows|
  {
    forall j :: 0 <= j < |rows| && j != k ==> Ahead(rows[k], rows[j])
  }

  function CountTied(ranked: seq<Row>, best: Row): nat
  {
    if ranked == [] then 0 else CountTied(ranked[..|ranked| - 1], best) + if Tied(ranked[|ranked| - 1], best) then 1 else 0
  }

  function Declarative(route: Route): Decision
  {
    if route.branches == [] then Select("default", 0)
    else
      var ranked := Rank(Rows(route.branches));
      if ranked == [] || ranked[0].at >= |route.branches| then Abstain
      else
        var best := route.branches[ranked[0].at];
        if ranked[0].activation < best.minimum then Abstain
        else if route.abstainOnTie && CountTied(ranked, ranked[0]) > 1 then Abstain
        else Select(best.branchId, ranked[0].at)
  }

  /** The loop over one route's branches, scoring each. */
  method SelectDeclarative(route: Route) returns (decision: Decision)
    ensures decision == Declarative(route)
  {
    if route.branches == [] {
      return Select("default", 0);
    }
    var scored: seq<Row> := [];
    for i := 0 to |route.branches|
      invariant scored == Rows(route.branches)[..i]
    {
      var branch := route.branches[i];
      scored := scored + [Row(Hard(branch), branch.priority, i)];
    }
    assert scored == Rows(route.branches);
    var ranked := Rank(scored);
    First(scored);
    var best := route.branches[ranked[0].at];
    var tied := 0;
    for i := 0 to |ranked|
      invariant tied == CountTied(ranked[..i], ranked[0])
    {
      assert ranked[..i + 1][..i] == ranked[..i];
      if Tied(ranked[i], ranked[0]) {
        tied := tied + 1;
      }
    }
    assert ranked[..|ranked|] == ranked;
    if ranked[0].activation < best.minimum {
      decision := Abstain;
    } else if route.abstainOnTie && tied > 1 {
      decision := Abstain;
    } else {
      decision := Select(best.branchId, ranked[0].at);
    }
  }

  lemma {:induction false} CountTiedPositive(ranked: seq<Row>, best: Row, p: nat)
    requires p < |ranked| && Tied(ranked[p], best)
    ensures CountTied(ranked, best) >= 1
  {
    if p < |ranked| - 1 {
      CountTiedPositive(ranked[..|ranked| - 1], best, p);
    }
  }

  lemma {:induction false} CountTiedTwo(ranked: seq<Row>, best: Row, p: nat, q: nat)
    requires p < q < |ranked| && Tied(ranked[p], best) && Tied(ranked[q], best)
    ensures CountTied(ranked, best) >= 2
  {
    if q < |ranked| - 1 {
      CountTiedTwo(ranked[..|ranked| - 1], best, p, q);
    } else {
      CountTiedPositive(ranked[..|ranked| - 1], best, p);
    }
  }

  lemma {:induction false} CountTiedSplits(ranked: seq<Row>, best: Row)
    ensures CountTied(ranked, best) >= 1 ==> exists p :: 0 <= p < |ranked| && Tied(ranked[p], best)
    ensures CountTied(ranked, best) >= 2 ==> exists p, q :: 0 <= p < q < |ranked| && Tied(ranked[p], best) && Tied(ranked[q], best)
  {
    if ranked != [] {
      var last := |ranked| - 1;
      CountTiedSplits(ranked[..last], best);
      if CountTied(ranked[..last], best) >= 2 {
        var p, q :| 0 <= p < q < last && Tied(ranked[..last][p], best) && Tied(ranked[..last][q], best);
        assert Tied(ranked[p], best) && Tied(ranked[q], best);
      } else if CountTied(ranked[..last], best) >= 1 {
        var p :| 0 <= p < last && Tied(ranked[..last][p], best);
        assert Tied(ranked[p], best);
      }
    }
  }

  /** The count exceeds one exactly when another row shares the best key. */
  lemma TiedMoreThanOnce(rows: seq<Row>)
    requires rows != [] && Numbered(rows)
    ensures Rank(rows) != [] && Rank(rows)[0].at < |rows|
    ensures CountTied(Rank(rows), Rank(rows)[0]) > 1 <==> Contested(rows, Rank(rows)[0].at)
  {
    First(rows);
    RankSize(rows);
    var ranked, best := Rank(rows), Rank(rows)[0];
    if CountTied(ranked, best) > 1 {
      CountTiedSplits(ranked, best);
      var p, q :| 0 <= p < q < |ranked| && Tied(ranked[p], best) && Tied(ranked[q], best);
      RankOrders(rows);
      assert Ahead(ranked[0], ranked[q]);
      FromRank(rows, q);
      assert Tied(rows[ranked[q].at], rows[best.at]);
    }
    if Contested(rows, best.at) {
      var j :| 0 <= j < |rows| && j != best.at && Tied(rows[j], rows[best.at]);
      InRank(rows, j);
      var q :| 0 <= q < |ranked| && ranked[q] == rows[j];
      CountTiedTwo(ranked, best, 0, q);
    }
  }

  /** The router selects branch k exactly when k wins, reaches its own threshold and, where ties abstain, shares
      its key with no other branch. */
  lemma DeclarativeIff(route: Route, k: nat)
    requires k < |route.branches|
    ensures Declarative(route) == Select(route.branches[k].branchId, k) <==>
            (var rows := Rows(route.branches);
             Wins(rows, k) && Hard(route.branches[k]) >= route.branches[k].minimum
             && !(route.abstainOnTie && Contested(rows, k)))
  {
    var rows := Rows(route.branches);
    First(rows);
    TiedMoreThanOnce(rows);
    if Wins(rows, k) {
      FirstIs(rows, k);
    }
  }
}
