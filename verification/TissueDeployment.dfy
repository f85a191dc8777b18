/** Deploying a repair also moves the tissue: its version always, the owner's branch when the candidate names one.
    Source: src/difoundry/repair.py:935-950. */
module TissueDeployment {
  import opened Wrappers
  import opened Tissue
  import opened TissueRun

  /** The tissue part of `deploy`, on the copied state; empty strings stand for absent ids. */
  function Deployed(s: State, routeId: string, branchId: string): Result<State, Error>
  {
    if routeId == "" || branchId == "" then Success(s.(version := s.version + 1))
    else
      match Find(s.branches, routeId, branchId)
      case None => Failure(UnknownOwner)
      case Some(at) =>
        var owner := s.branches[at];
        Success(s.(version := s.version + 1,
                   branches := s.branches[at := owner.(disabled := false, localVersion := owner.localVersion + 1)]))
  }

  /** The tissue that is live afterwards: the old one when the deployment raises. */
  function AfterDeployment(s: State, routeId: string, branchId: string): State
  {
    match Deployed(s, routeId, branchId)
    case Success(t) => t
    case Failure(_) => s
  }

  /** With both ids, a deployment does to the tissue what enabling the owner's branch does; it raises when there is no
      such branch. */
  lemma OwnedDeploymentEnables(config: Config, s: State, routeId: string, branchId: string)
    requires routeId != "" && branchId != ""
    ensures AfterDeployment(s, routeId, branchId) == Apply(config, s, Enable(routeId, branchId, true))
    ensures Deployed(s, routeId, branchId).Failure? <==> forall b :: b in s.branches ==> !Owns(b, routeId, branchId)
  {
  }

  lemma OwnerlessAhead(s: State, ahead: nat)
    requires BalancedUpTo(s, ahead)
    ensures BalancedUpTo(s.(version := s.version + 1), ahead + 1)
  {
    var t := s.(version := s.version + 1);
    forall i | 0 <= i < |s.branches| ensures CountsAt(t, i) {
      assert CountsAt(s, i);
    }
  }

  /** A deployment keeps the version equal to the sum of the local versions if and only if the candidate names both
      its route and its branch. */
  lemma DeploymentBalancedIff(config: Config, s: State, routeId: string, branchId: string)
    requires Balanced(s)
    ensures Balanced(AfterDeployment(s, routeId, branchId)) <==> routeId != "" && branchId != ""
  {
    if routeId != "" && branchId != "" {
      OwnedDeploymentEnables(config, s, routeId, branchId);
      StepBalanced(config, s, Enable(routeId, branchId, true), 0);
    }
  }

  /* ---------- runs with deployments ---------- */

  datatype Change = Operate(op: Operation) | Deploy(routeId: string, branchId: string)

  ghost function Changed(config: Config, s: State, change: Change): State
  {
    match change
    case Operate(op) => Apply(config, s, op)
    case Deploy(routeId, branchId) => AfterDeployment(s, routeId, branchId)
  }

  ghost function RunChanges(config: Config, s: State, changes: seq<Change>): State
    decreases |changes|
  {
    if changes == [] then s else Changed(config, RunChanges(config, s, changes[..|changes| - 1]), changes[|changes| - 1])
  }

  predicate Ownerless(change: Change)
  {
    change.Deploy? && (change.routeId == "" || change.branchId == "")
  }

  /** How many deployments named no owner. */
  function OwnerlessIn(changes: seq<Change>): nat
  {
    if changes == [] then 0
    else OwnerlessIn(changes[..|changes| - 1]) + if Ownerless(changes[|changes| - 1]) then 1 else 0
  }

  ghost predicate GoodBranches(s: State, config: Config)
  {
    forall i :: 0 <= i < |s.branches| ==> GoodBranch(s.branches[i], config)
  }

  lemma OperationGood(config: Config, s: State, op: Operation)
    requires DistinctOwners(s.branches) && GoodBranches(s, config) && GoodConfig(config) && GoodOperation(op)
    ensures GoodBranches(Apply(config, s, op), config)
  {
    var t := Apply(config, s, op);
    ApplyKeepsOwners(config, s, op);
    forall i | 0 <= i < |t.branches| ensures GoodBranch(t.branches[i], config) {
      ApplyAt(config, s, op, i);
      BranchGood(s.branches[i], config, op);
    }
  }

  lemma ChangeKeeps(config: Config, s: State, change: Change, ahead: nat)
    requires BalancedUpTo(s, ahead) && GoodBranches(s, config) && GoodConfig(config)
    requires change.Operate? ==> GoodOperation(change.op)
    ensures BalancedUpTo(Changed(config, s, change), ahead + if Ownerless(change) then 1 else 0)
    ensures GoodBranches(Changed(config, s, change), config)
  {
    if Ownerless(change) {
      OwnerlessAhead(s, ahead);
    } else {
      var op := if change.Operate? then change.op else Enable(change.routeId, change.branchId, true);
      if change.Deploy? {
        OwnedDeploymentEnables(config, s, change.routeId, change.branchId);
      }
      StepBalanced(config, s, op, ahead);
      OperationGood(config, s, op);
    }
  }

  /** From a new tissue, after any operations and deployments whatever: the version is the sum of the local versions
      plus the number of deployments without an owner, so it is that sum exactly when there was none; attributions,
      specialists and weights are as in a run without deployments. */
  lemma {:induction false} EveryRunWithDeployments(config: Config, s: State, changes: seq<Change>)
    requires Initial(s) && GoodConfig(config)
    requires forall c :: c in changes && c.Operate? ==> GoodOperation(c.op)
    ensures BalancedUpTo(RunChanges(config, s, changes), OwnerlessIn(changes))
    ensures Balanced(RunChanges(config, s, changes)) <==> forall c :: c in changes ==> !Ownerless(c)
    ensures GoodBranches(RunChanges(config, s, changes), config)
    decreases |changes|
  {
    if changes == [] {
      InitialBalanced(s);
      assert forall i :: 0 <= i < |s.branches| ==> Blank(s.branches[i]) ==> GoodBranch(s.branches[i], config);
    } else {
      var last := |changes| - 1;
      EveryRunWithDeployments(config, s, changes[..last]);
      ChangeKeeps(config, RunChanges(config, s, changes[..last]), changes[last], OwnerlessIn(changes[..last]));
    }
    NoneOwnerless(changes);
  }

  lemma {:induction false} NoneOwnerless(changes: seq<Change>)
    ensures OwnerlessIn(changes) == 0 <==> forall c :: c in changes ==> !Ownerless(c)
    decreases |changes|
  {
    if changes != [] {
      var last := |changes| - 1;
      NoneOwnerless(changes[..last]);
      assert changes == changes[..last] + [changes[last]];
    }
  }
}
