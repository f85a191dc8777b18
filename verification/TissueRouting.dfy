/** How the tissue routes: hard gates first, then the best specialists of each eligible branch, then abstention
    on novelty, ties and thin margins. While untrained it must decide as the declarative router does.
    Source: src/difoundry/tissue.py:62-64, 395-481, 529-541. */
module TissueRouting {
  import opened Features
  import opened Ranking
  import opened Routing
  import T = Tissue

  datatype Config = Config(
    topK: nat, noveltyThreshold: real, ownershipMargin: real, abstainOnNovelty: bool, hardContractGate: bool)

  /* ---------- specialists of one branch ---------- */

  function Health(s: T.Specialist): real
  {
    (s.successes as real + 1.0) / ((s.successes + s.failures) as real + 2.0)
  }

  function Adjust(similarity: real, health: real): real
  {
    similarity * (0.85 + 0.15 * health)
  }

  ghost function Adjusted(s: T.Specialist, features: Weights): real
  {
    Adjust(Jaccard(features, s.prototype), Health(s))
  }

  function Enabled(specialists: seq<T.Specialist>): (enabled: seq<T.Specialist>)
    ensures forall s :: s in enabled <==> s in specialists && !s.disabled
  {
    if specialists == [] then []
    else
      var last := specialists[|specialists| - 1];
      var front := Enabled(specialists[..|specialists| - 1]);
      assert specialists == specialists[..|specialists| - 1] + [last];
      if last.disabled then front else front + [last]
  }

  ghost function ScoreRows(enabled: seq<T.Specialist>, features: Weights): (rows: seq<Row>)
    ensures |rows| == |enabled| && Numbered(rows)
  {
    seq(|enabled|, i requires 0 <= i < |enabled| => Row(Adjusted(enabled[i], features), 0, i))
  }

  lemma ScoreRowsStep(specialists: seq<T.Specialist>, features: Weights, i: nat)
    requires i < |specialists|
    ensures var before, s := ScoreRows(Enabled(specialists[..i]), features), specialists[i];
            ScoreRows(Enabled(specialists[..i + 1]), features)
            == if s.disabled then before else before + [Row(Adjusted(s, features), 0, |before|)]
  {
    assert specialists[..i + 1][..i] == specialists[..i];
  }

  /** Enabled specialists by adjusted similarity, best first. */
  ghost function Scores(specialists: seq<T.Specialist>, features: Weights): (ranked: seq<Row>)
    ensures |ranked| == |Enabled(specialists)|
  {
    RankSize(ScoreRows(Enabled(specialists), features));
    Rank(ScoreRows(Enabled(specialists), features))
  }

  method SpecialistScores(specialists: seq<T.Specialist>, features: Weights) returns (ranked: seq<Row>)
    ensures ranked == Scores(specialists, features)
  {
    var scored: seq<Row> := [];
    for i := 0 to |specialists|
      invariant scored == ScoreRows(Enabled(specialists[..i]), features)
    {
      ScoreRowsStep(specialists, features, i);
      if !specialists[i].disabled {
        var similarity := WeightedJaccard(features, specialists[i].prototype);
        scored := scored + [Row(Adjust(similarity, Health(specialists[i])), 0, |scored|)];
      }
    }
    assert specialists[..|specialists|] == specialists;
    ranked := Rank(scored);
  }

  function Take(ranked: seq<Row>, k: nat): seq<Row>
  {
    if |ranked| <= k then ranked else ranked[..k]
  }

  function IdsOf(enabled: seq<T.Specialist>, chosen: seq<Row>): seq<string>
  {
    if chosen == [] then []
    else IdsOf(enabled, chosen[..|chosen| - 1])
         + (if chosen[|chosen| - 1].at < |enabled| then [enabled[chosen[|chosen| - 1].at].id] else [])
  }

  /* ---------- candidates ---------- */

  datatype Candidate = Candidate(activation: real, priority: int, learned: real, eligible: bool, ids: seq<string>)

  function Blend(hard: real, learned: real): real
  {
    hard * (0.40 + 0.60 * learned)
  }

  predicate EligibleOf(config: Config, d: Definition, owner: T.Branch) {
    !owner.disabled && (!config.hardContractGate || Hard(d) >= d.minimum)
  }

  function CandidateFrom(config: Config, d: Definition, owner: T.Branch, trained: bool, scores: seq<Row>): Candidate
  {
    var eligible := EligibleOf(config, d, owner);
    var selected := if eligible then Take(scores, config.topK) else [];
    var learned := if selected != [] then selected[0].activation else if !trained then 1.0 else 0.0;
    Candidate(if eligible then Blend(Hard(d), learned) else 0.0, d.priority, learned, eligible,
              IdsOf(Enabled(owner.specialists), selected))
  }

  ghost function CandidateOf(config: Config, d: Definition, owner: T.Branch, features: Weights, trained: bool): Candidate
  {
    CandidateFrom(config, d, owner, trained, Scores(owner.specialists, features))
  }

  /** The branches of a route and their owners in the tissue, position by position. */
  ghost predicate Aligned(route: Route, owners: seq<T.Branch>) {
    |owners| == |BranchesOf(route)|
  }

  predicate TrainedRoute(owners: seq<T.Branch>) {
    exists i :: 0 <= i < |owners| && owners[i].specialists != []
  }

  ghost function Candidates(config: Config, route: Route, owners: seq<T.Branch>, features: Weights): (cs: seq<Candidate>)
    requires Aligned(route, owners)
    ensures |cs| == |owners|
  {
    var branches := BranchesOf(route);
    seq(|owners|, i requires 0 <= i < |owners| => CandidateOf(config, branches[i], owners[i], features, TrainedRoute(owners)))
  }

  function RowsOf(cs: seq<Candidate>): (rows: seq<Row>)
    ensures |rows| == |cs| && Numbered(rows)
  {
    seq(|cs|, i requires 0 <= i < |cs| => Row(cs[i].activation, cs[i].priority, i))
  }

  /** The chain of abstention tests, in the code's order, on the ranked rows. */
  predicate Abstains(config: Config, abstainOnTie: bool, trained: bool, best: Candidate, ranked: seq<Row>)
    requires ranked != []
  {
    if !best.eligible || best.activation <= 0.0 then true
    else if trained && config.abstainOnNovelty && best.learned < config.noveltyThreshold then true
    else if |ranked| > 1 then
      if abstainOnTie && Tied(ranked[0], ranked[1]) then true
      else trained && ranked[0].activation - ranked[1].activation < config.ownershipMargin
    else false
  }

  function Decide(config: Config, route: Route, trained: bool, cs: seq<Candidate>): Decision
    requires |cs| == |BranchesOf(route)|
  {
    First(RowsOf(cs));
    var ranked := Rank(RowsOf(cs));
    if Abstains(config, route.abstainOnTie, trained, cs[ranked[0].at], ranked) then Abstain
    else Select(BranchesOf(route)[ranked[0].at].branchId, ranked[0].at)
  }

  ghost function TissueDecision(config: Config, route: Route, owners: seq<T.Branch>, features: Weights): Decision
    requires Aligned(route, owners)
  {
    Decide(config, route, TrainedRoute(owners), Candidates(config, route, owners, features))
  }

  method AnyTrained(owners: seq<T.Branch>) returns (trained: bool)
    ensures trained == TrainedRoute(owners)
  {
    trained := false;
    for i := 0 to |owners|
      invariant trained <==> exists j :: 0 <= j < i && owners[j].specialists != []
    {
      trained := trained || owners[i].specialists != [];
    }
  }

  method ScoreBranch(config: Config, d: Definition, owner: T.Branch, features: Weights, trained: bool) returns (c: Candidate)
    ensures c == CandidateOf(config, d, owner, features, trained)
  {
    var scores := SpecialistScores(owner.specialists, features);
    c := CandidateFrom(config, d, owner, trained, scores);
  }

  method ScoreBranches(config: Config, route: Route, owners: seq<T.Branch>, features: Weights, trained: bool)
    returns (candidates: seq<Candidate>)
    requires Aligned(route, owners) && trained == TrainedRoute(owners)
    ensures candidates == Candidates(config, route, owners, features)
  {
    var branches := BranchesOf(route);
    candidates := [];
    for i := 0 to |owners|
      invariant |candidates| == i
      invariant forall j :: 0 <= j < i ==> candidates[j] == CandidateOf(config, branches[j], owners[j], features, trained)
    {
      var candidate := ScoreBranch(config, branches[i], owners[i], features, trained);
      candidates := candidates + [candidate];
    }
  }

  method SelectRoute(config: Config, route: Route, owners: seq<T.Branch>, features: Weights)
    returns (decision: Decision, specialistIds: seq<string>)
    requires Aligned(route, owners)
    ensures decision == TissueDecision(config, route, owners, features)
    ensures decision.Abstain? ==> specialistIds == []
    ensures decision.Select? ==> decision.at < |owners| && specialistIds == Candidates(config, route, owners, features)[decision.at].ids
  {
    var trained := AnyTrained(owners);
    var candidates := ScoreBranches(config, route, owners, features, trained);
    First(RowsOf(candidates));
    var ranked := Rank(RowsOf(candidates));
    var best := candidates[ranked[0].at];
    if Abstains(config, route.abstainOnTie, trained, best, ranked) {
      decision, specialistIds := Abstain, [];
    } else {
      decision, specialistIds := Select(BranchesOf(route)[ranked[0].at].branchId, ranked[0].at), best.ids;
    }
  }

  /* ---------- when a branch is selected ---------- */

  ghost predicate Margin(rows: seq<Row>, k: nat, margin: real)
    requires k < |rows|
  {
    forall j :: 0 <= j < |rows| && j != k ==> rows[k].activation - rows[j].activation >= margin
  }

  /** Comparing with the runner-up alone amounts to comparing with every rival. */
  lemma RunnerUpSuffices(rows: seq<Row>, margin: real)
    requires |rows| > 1 && Numbered(rows)
    ensures |Rank(rows)| > 1 && Rank(rows)[0].at < |rows|
    ensures Margin(rows, Rank(rows)[0].at, margin) <==> Rank(rows)[0].activation - Rank(rows)[1].activation >= margin
  {
    First(rows);
    Second(rows);
    var best, next := Rank(rows)[0], Rank(rows)[1];
    if Margin(rows, best.at, margin) {
      assert rows[best.at].activation - rows[next.at].activation >= margin;
    } else {
      var j :| 0 <= j < |rows| && j != best.at && rows[best.at].activation - rows[j].activation < margin;
      assert j != next.at ==> Ahead(next, rows[j]);
    }
  }

  /** The exact condition under which the tissue gives branch k the event. */
  ghost predicate Owns(config: Config, route: Route, trained: bool, cs: seq<Candidate>, k: nat)
    requires k < |cs|
  {
    var rows := RowsOf(cs);
    && Wins(rows, k)
    && cs[k].eligible && cs[k].activation > 0.0
    && (trained && config.abstainOnNovelty ==> cs[k].learned >= config.noveltyThreshold)
    && !(route.abstainOnTie && Contested(rows, k))
    && (trained ==> Margin(rows, k, config.ownershipMargin))
  }

  lemma DecideIff(config: Config, route: Route, trained: bool, cs: seq<Candidate>, k: nat)
    requires |cs| == |BranchesOf(route)| && k < |cs|
    ensures Decide(config, route, trained, cs) == Select(BranchesOf(route)[k].branchId, k) <==> Owns(config, route, trained, cs, k)
  {
    var rows := RowsOf(cs);
    First(rows);
    RankSize(rows);
    if |rows| > 1 {
      TieIsWithSecond(rows);
      RunnerUpSuffices(rows, config.ownershipMargin);
    }
    if Wins(rows, k) {
      FirstIs(rows, k);
    }
  }

  lemma {:induction false} SelectedIff(config: Config, route: Route, owners: seq<T.Branch>, features: Weights, k: nat)
    requires Aligned(route, owners) && k < |owners|
    ensures TissueDecision(config, route, owners, features) == Select(BranchesOf(route)[k].branchId, k)
       <==> Owns(config, route, TrainedRoute(owners), Candidates(config, route, owners, features), k)
  {
    DecideIff(config, route, TrainedRoute(owners), Candidates(config, route, owners, features), k);
  }

  lemma BlendOf(hard: real, learned: real)
    ensures hard == 0.0 ==> Blend(hard, learned) == 0.0
    ensures hard == 1.0 ==> Blend(hard, learned) == 0.40 + 0.60 * learned
  {
  }

  /** Fail closed: whatever was learned, a selected branch is enabled, satisfies every condition of its
      contract, and, behind the gate, reaches its minimum. */
  lemma {:induction false} SelectionRespectsGate(config: Config, route: Route, owners: seq<T.Branch>, features: Weights, k: nat)
    requires Aligned(route, owners) && k < |owners|
    requires TissueDecision(config, route, owners, features) == Select(BranchesOf(route)[k].branchId, k)
    ensures !owners[k].disabled
    ensures false !in BranchesOf(route)[k].conditions
    ensures config.hardContractGate ==> BranchesOf(route)[k].minimum <= 1.0
  {
    SelectedIff(config, route, owners, features, k);
    HardIsConjunction(BranchesOf(route)[k]);
    BlendOf(Hard(BranchesOf(route)[k]), Candidates(config, route, owners, features)[k].learned);
  }

  lemma {:induction false} IdsComeFrom(enabled: seq<T.Specialist>, chosen: seq<Row>, id: string)
    ensures |IdsOf(enabled, chosen)| <= |chosen|
    ensures id in IdsOf(enabled, chosen) ==> exists s :: s in enabled && s.id == id
  {
    if chosen != [] {
      IdsComeFrom(enabled, chosen[..|chosen| - 1], id);
      var at := chosen[|chosen| - 1].at;
      if at < |enabled| && id == enabled[at].id {
        assert enabled[at] in enabled;
      }
    }
  }

  /** Sparse activation: at most topK specialists act, all enabled and all of the selected branch. */
  lemma {:induction false} ActiveSpecialistsAreLocal(config: Config, route: Route, owners: seq<T.Branch>, features: Weights, k: nat, id: string)
    requires Aligned(route, owners) && k < |owners|
    ensures var ids := Candidates(config, route, owners, features)[k].ids;
            |ids| <= config.topK && (id in ids ==> exists s :: s in owners[k].specialists && !s.disabled && s.id == id)
  {
    var owner := owners[k];
    var eligible := EligibleOf(config, BranchesOf(route)[k], owner);
    var chosen := if eligible then Take(Scores(owner.specialists, features), config.topK) else [];
    IdsComeFrom(Enabled(owner.specialists), chosen, id);
  }

  /* ---------- untrained, the tissue refines the declarative router ---------- */

  ghost predicate Untrained(owners: seq<T.Branch>) {
    forall i :: 0 <= i < |owners| ==> owners[i].specialists == [] && !owners[i].disabled
  }

  /** A branch counts for the tissue when its conditions hold and the gate, if on, lets its minimum through. */
  ghost predicate Live(config: Config, d: Definition) {
    Hard(d) == 1.0 && (config.hardContractGate ==> d.minimum <= 1.0)
  }

  lemma UntrainedCandidate(config: Config, route: Route, owners: seq<T.Branch>, features: Weights, k: nat)
    requires Aligned(route, owners) && Untrained(owners) && k < |owners|
    ensures var c, d := Candidates(config, route, owners, features)[k], BranchesOf(route)[k];
            && c.priority == d.priority
            && c.activation == (if Live(config, d) then 1.0 else 0.0)
            && (c.eligible && c.activation > 0.0 <==> Live(config, d))
  {
    var d := BranchesOf(route)[k];
    HardIsConjunction(d);
    BlendOf(Hard(d), 1.0);
    assert owners[k].specialists == [];
    assert !TrainedRoute(owners);
  }

  /** Branch k wins among the branches that satisfy a test, and, where ties abstain, uncontested among them. */
  ghost predicate Leads(branches: seq<Definition>, live: set<nat>, abstainOnTie: bool, k: nat)
    requires k < |branches|
  {
    && k in live
    && (forall j :: 0 <= j < |branches| && j in live && j != k ==> Beats(branches, abstainOnTie, k, j))
  }

  predicate Beats(branches: seq<Definition>, strictly: bool, k: nat, j: nat)
    requires k < |branches| && j < |branches|
  {
    branches[k].priority > branches[j].priority || (branches[k].priority == branches[j].priority && !strictly && k < j)
  }

  ghost function LiveSet(config: Config, branches: seq<Definition>): set<nat>
  {
    set i: nat | i < |branches| && Live(config, branches[i])
  }

  /** Untrained: the highest priority among the live branches, the first on equal priority unless ties abstain. */
  lemma {:induction false} UntrainedSelects(config: Config, route: Route, owners: seq<T.Branch>, features: Weights, k: nat)
    requires Aligned(route, owners) && Untrained(owners) && k < |owners|
    ensures TissueDecision(config, route, owners, features) == Select(BranchesOf(route)[k].branchId, k)
       <==> Leads(BranchesOf(route), LiveSet(config, BranchesOf(route)), route.abstainOnTie, k)
  {
    SelectedIff(config, route, owners, features, k);
    var cs, branches := Candidates(config, route, owners, features), BranchesOf(route);
    var rows, live := RowsOf(cs), LiveSet(config, branches);
    forall j | 0 <= j < |owners|
      ensures rows[j] == Row(if j in live then 1.0 else 0.0, branches[j].priority, j)
      ensures cs[j].eligible && cs[j].activation > 0.0 <==> j in live
    {
      UntrainedCandidate(config, route, owners, features, j);
    }
    assert !TrainedRoute(owners);
    if k in live {
      LeadsRows(rows, branches, live, 1.0, 0.0, route.abstainOnTie, k);
    }
  }

  lemma LeadsRows(rows: seq<Row>, branches: seq<Definition>, live: set<nat>, high: real, low: real, abstainOnTie: bool, k: nat)
    requires |rows| == |branches| && k < |rows| && low < high
    requires forall j :: 0 <= j < |rows| ==> rows[j] == Row(if j in live then high else low, branches[j].priority, j)
    requires k in live
    ensures Wins(rows, k) && !(abstainOnTie && Contested(rows, k)) <==> Leads(branches, live, abstainOnTie, k)
  {
    if Leads(branches, live, abstainOnTie, k) {
      forall j | 0 <= j < |rows| && j != k ensures Ahead(rows[k], rows[j]) && (abstainOnTie ==> !Tied(rows[j], rows[k])) {
        assert j in live ==> Beats(branches, abstainOnTie, k, j);
      }
    }
    if Wins(rows, k) && !(abstainOnTie && Contested(rows, k)) {
      forall j | 0 <= j < |branches| && j in live && j != k ensures Beats(branches, abstainOnTie, k, j) {
        assert Ahead(rows[k], rows[j]);
        assert abstainOnTie ==> !Tied(rows[j], rows[k]);
      }
    }
  }
}
