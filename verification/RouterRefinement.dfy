/** The untrained tissue against the declarative router: they decide alike on every event and every
    configuration except in three families of cases, all of them needing a minimum activation outside (0, 1].
    Source: src/difoundry/tissue.py:395-481; src/difoundry/routing.py:32-77. */
module RouterRefinement {
  import opened Wrappers
  import opened Features
  import opened Ranking
  import opened Routing
  import opened TissueRouting
  import T = Tissue

  /** Branches whose conditions all hold, and all branches. */
  ghost function Matching(branches: seq<Definition>): set<nat>
  {
    set i: nat | i < |branches| && Hard(branches[i]) == 1.0
  }

  ghost function All(branches: seq<Definition>): set<nat>
  {
    set i: nat | i < |branches| && IsIndex(branches, i)
  }

  predicate IsIndex(branches: seq<Definition>, i: nat) {
    i < |branches|
  }

  function Chosen(branches: seq<Definition>, k: nat): Decision
    requires k < |branches|
  {
    Select(branches[k].branchId, k)
  }

  /** Every decision is an abstention or the choice of one of the branches. */
  lemma DeclarativeShape(route: Route)
    ensures Declarative(route).Abstain?
            || (Declarative(route).at < |BranchesOf(route)| && Declarative(route) == Chosen(BranchesOf(route), Declarative(route).at))
  {
  }

  lemma TissueShape(config: Config, route: Route, owners: seq<T.Branch>, features: Weights)
    requires Aligned(route, owners)
    ensures var decision := TissueDecision(config, route, owners, features);
            decision.Abstain?
            || (decision.at < |BranchesOf(route)| && decision == Chosen(BranchesOf(route), decision.at))
  {
    First(RowsOf(Candidates(config, route, owners, features)));
  }

  /** The declarative router selects the leader of the matching branches if that branch's minimum is at most 1;
      when nothing matches, the leader of all branches if its minimum is at most 0. */
  ghost predicate DeclarativeSelects(route: Route, k: nat)
    requires k < |BranchesOf(route)|
  {
    var branches := BranchesOf(route);
    || (Leads(branches, Matching(branches), route.abstainOnTie, k) && branches[k].minimum <= 1.0)
    || (Matching(branches) == {} && Leads(branches, All(branches), route.abstainOnTie, k) && branches[k].minimum <= 0.0)
  }

  lemma DeclarativeChoice(route: Route, k: nat)
    requires k < |BranchesOf(route)|
    ensures Declarative(route) == Chosen(BranchesOf(route), k) <==> DeclarativeSelects(route, k)
  {
    var branches := BranchesOf(route);
    var rows, matching := Rows(branches), Matching(branches);
    forall j | 0 <= j < |branches| ensures Hard(branches[j]) == if j in matching then 1.0 else 0.0 {
      HardIsConjunction(branches[j]);
    }
    if route.branches == [] {
      assert Leads(branches, matching, route.abstainOnTie, 0);
    } else {
      DeclarativeIff(route, k);
      if k in matching {
        LeadsRows(rows, branches, matching, 1.0, 0.0, route.abstainOnTie, k);
      } else if matching == {} {
        LeadsRows(rows, branches, All(branches), 0.0, -1.0, route.abstainOnTie, k);
      } else {
        var j :| j in matching;
        assert !Ahead(rows[k], rows[j]);
      }
    }
  }

  /** When the two part ways: nothing matches but the leader asks for no activation at all; or a matching branch
      asks for more than 1 and either leads (no gate) or is not beaten by the branch that leads without it. */
  ghost predicate PartWays(config: Config, route: Route) {
    var branches := BranchesOf(route);
    var matching, live := Matching(branches), LiveSet(config, branches);
    || (matching == {} && exists k: nat :: k < |branches| && Leads(branches, All(branches), route.abstainOnTie, k) && branches[k].minimum <= 0.0)
    || (exists j: nat :: j < |branches| && j in matching && branches[j].minimum > 1.0 && InTheWay(config, route, j))
  }

  ghost predicate InTheWay(config: Config, route: Route, j: nat)
    requires j < |BranchesOf(route)|
  {
    var branches := BranchesOf(route);
    if config.hardContractGate then
      exists k: nat :: k < |branches| && Leads(branches, LiveSet(config, branches), route.abstainOnTie, k)
                       && !Beats(branches, route.abstainOnTie, k, j)
    else Leads(branches, Matching(branches), route.abstainOnTie, j)
  }

  lemma SameAt(config: Config, route: Route, owners: seq<T.Branch>, features: Weights, k: nat)
    requires Aligned(route, owners) && Untrained(owners) && k < |owners|
    requires !PartWays(config, route)
    ensures Declarative(route) == Chosen(BranchesOf(route), k) <==> TissueDecision(config, route, owners, features) == Chosen(BranchesOf(route), k)
  {
    DeclarativeChoice(route, k);
    UntrainedSelects(config, route, owners, features, k);
    SameLeader(config, route, k);
  }

  lemma SameLeader(config: Config, route: Route, k: nat)
    requires k < |BranchesOf(route)| && !PartWays(config, route)
    ensures DeclarativeSelects(route, k) <==> Leads(BranchesOf(route), LiveSet(config, BranchesOf(route)), route.abstainOnTie, k)
  {
    var branches := BranchesOf(route);
    var matching, live := Matching(branches), LiveSet(config, branches);
    if Leads(branches, live, route.abstainOnTie, k) {
      assert k in matching;
      if config.hardContractGate {
        forall j | 0 <= j < |branches| && j in matching && j != k ensures Beats(branches, route.abstainOnTie, k, j) {
          assert j in live || branches[j].minimum > 1.0;
        }
      } else {
        assert live == matching;
      }
    }
  }

  /** Where they part ways, one branch tells them apart. */
  lemma DifferAt(config: Config, route: Route) returns (k: nat)
    requires PartWays(config, route)
    ensures k < |BranchesOf(route)|
    ensures DeclarativeSelects(route, k) <==> !Leads(BranchesOf(route), LiveSet(config, BranchesOf(route)), route.abstainOnTie, k)
  {
    var branches := BranchesOf(route);
    var matching, live := Matching(branches), LiveSet(config, branches);
    if matching == {} {
      k :| k < |branches| && Leads(branches, All(branches), route.abstainOnTie, k) && branches[k].minimum <= 0.0;
      assert k !in matching;
    } else {
      var j: nat :| j < |branches| && j in matching && branches[j].minimum > 1.0 && InTheWay(config, route, j);
      if config.hardContractGate {
        k :| k < |branches| && Leads(branches, live, route.abstainOnTie, k) && !Beats(branches, route.abstainOnTie, k, j);
        assert j != k;
      } else {
        assert live == matching;
        k := j;
      }
    }
  }

  /** The main refinement, for every route, event and configuration: an untrained tissue with no disabled branch
      makes the declarative router's decision if and only if the minima do not part them. */
  lemma {:induction false} RefinesIff(config: Config, route: Route, owners: seq<T.Branch>, features: Weights)
    requires Aligned(route, owners) && Untrained(owners)
    ensures TissueDecision(config, route, owners, features) == Declarative(route) <==> !PartWays(config, route)
  {
    DeclarativeShape(route);
    TissueShape(config, route, owners, features);
    if PartWays(config, route) {
      var k := DifferAt(config, route);
      DeclarativeChoice(route, k);
      UntrainedSelects(config, route, owners, features, k);
    } else {
      if Declarative(route).Select? {
        SameAt(config, route, owners, features, Declarative(route).at);
      }
      if TissueDecision(config, route, owners, features).Select? {
        SameAt(config, route, owners, features, TissueDecision(config, route, owners, features).at);
      }
    }
  }

  /** Within the range the contracts use, they never part. */
  lemma {:induction false} RefinesForUsualMinima(config: Config, route: Route, owners: seq<T.Branch>, features: Weights)
    requires Aligned(route, owners) && Untrained(owners)
    requires forall d :: d in route.branches ==> 0.0 < d.minimum <= 1.0
    ensures TissueDecision(config, route, owners, features) == Declarative(route)
  {
    RefinesIff(config, route, owners, features);
    assert forall k :: 0 <= k < |BranchesOf(route)| ==> 0.0 < BranchesOf(route)[k].minimum <= 1.0;
  }

  /** A matching branch with a minimum above 1 blocks the declarative router but is simply passed over by the
      gated tissue. */
  lemma MinimumAboveOneSplitsThem(features: Weights)
    ensures var config := Config(2, 0.43, 0.04, true, true);
            var route := Route("r", [Definition("a", 1, 2.0, []), Definition("b", 0, 1.0, [])], true);
            var blank := T.Branch("r", "a", "k", [], 0, 0, 0, 0, false, None);
            var owners := [blank, blank.(branchId := "b")];
            Declarative(route) == Abstain && TissueDecision(config, route, owners, features) == Select("b", 1)
  {
    var config := Config(2, 0.43, 0.04, true, true);
    var route := Route("r", [Definition("a", 1, 2.0, []), Definition("b", 0, 1.0, [])], true);
    var blank := T.Branch("r", "a", "k", [], 0, 0, 0, 0, false, None);
    var owners := [blank, blank.(branchId := "b")];
    UntrainedSelects(config, route, owners, features, 1);
    DeclarativeShape(route);
    assert 0 in Matching(route.branches) && 1 in Matching(route.branches);
    forall k: nat | k < 2 ensures !DeclarativeSelects(route, k) {
      assert !Beats(route.branches, true, 1, 0);
    }
    DeclarativeChoice(route, 0);
    DeclarativeChoice(route, 1);
  }
}
