# Verified model of DIFoundry's stateful cores

DIFoundry connects systems through integration contracts, repairs those
contracts when the systems drift, and runs the result in production. This
project models the parts of it whose guarantees hold over whole runs and proves
those guarantees in Dafny:

- **Repair** (`Pointer`, `Patch`, `Rollback`, `Scope`, `Generator`,
  `Lifecycle`): JSON-Patch-like edits of contracts and profiles, the inverse
  patches computed on a scratch copy and exactly when they restore every
  document, the edit scope and what it protects, and the
  verify-approve-sign-deploy gate against arbitrary edits in between.
- **Coordination** (`Graph`, `Coordination`, `Confluence`, `Governance`): layered
  topological order, cycles, skipping, hop counts, the policy that decides which
  steps run, and the independence of a run from the order of independent steps.
- **Leased jobs** (`Queue`, `Leases`, `Worker`, `WorkerAccounts`): every interleaving of claims by
  row lock and by compare-and-swap, heartbeats, expiry, fencing tokens, retries
  and dead letters, with stale clock readings.
- **Audit chain** (`Audit`, `AuditAppend`, `AuditRun`, `Anchors`, `Migration`):
  optimistic concurrent append, the verify loop, two external anchor stores fed
  out of order, and the v1 to v2 re-hash.
- **Routing tissue** (`Features`, `Learning`, `LearningLaws`, `Tissue`,
  `TissueLaws`, `TissueRun`, `TissueDeployment`, `Ranking`, `Routing`,
  `TissueRouting`, `TissueHealth`, `RouterRefinement`): similarity, learning,
  bookkeeping over all runs and repair deployments, what outcomes do to later
  decisions, and the untrained tissue as a refinement of the declarative router.
- **Mapping** (`JsonPath`, `Mapping`, `Objects`, `Sharing`, `SharedMapping`,
  `MappingLaws`, `PlanMapping`): path laws, the mapper on values, the mapper on
  live dictionaries that share objects, and exactly when the two agree.
- **Smaller cores** (`Schema`, `SchemaLaws`, `RateLimit`, `ChangeFeed`): schema
  normalization on cyclic references, the token bucket and its sweep, and the
  change feed.

`Wrappers`, `Json`, `Text`, `Reals` and `Sorting` hold what they share. `dafny verify
dfyconfig.toml` checks everything.

Code that updates state in place is modelled by classes and loops, each proved
against a specification function; the lemmas are about those functions and
about runs of them. A database transaction is one atomic step. Numbers that the
code holds as floats are reals, timestamps of queue and feed are ordered
integers, and those of the token bucket are reals. Hashes, digests and
fingerprints are function parameters; where a result needs them to be free of
collisions, the lemma says so in its `requires`, and a lemma beside it shows that
such functions exist (`Audit.InjectiveHashExists`, `Lifecycle.InjectiveCryptoExists`,
`ChangeFeed.InjectiveDigestExists`, `Anchors.KeysExist`). Fresh tokens are arguments that
must not have been used before.

## Where the code does less than one might expect

Each of these is stated as a lemma, by the exact condition under which the
expected property holds, by a concrete input for which it does not, or both.

- An `add` onto an object member that exists is rolled back by removing the
  member (`Rollback.AddOntoExistingMemberIsNotRestored`); the condition is
  `Rollback.UndoableAt`.
- The compare-and-swap claim re-tests a candidate's status, not its run-after
  time, so a stale candidate list can start a retry early
  (`Leases.SwapClaimCanStartRetryEarly`, `Leases.ClaimStartsEarlyIff`).
- A minimum activation above 1, or one of at most 0 when nothing matches, makes
  the untrained tissue and the declarative router differ
  (`RouterRefinement.MinimumAboveOneSplitsThem`, `RouterRefinement.RefinesIff`).
- The poller stores a record's fingerprint before it queues the event, so a
  change is lost when the connection is disabled in between
  (`ChangeFeed.PollTracksIff`, `ChangeFeed.ChangeIsLost`); a source that lists
  one key twice with different content is reported as changed on every poll
  (`ChangeFeed.RepollSilentIff`).
- A sweep shows to a call whose cost exceeds the capacity
  (`RateLimit.FullLooksMissingIff`).
- `set_path` on "$" writes a member of that name, which `get_path` then reads as
  the root (`JsonPath.GetAfterSet`).
- `map_payload` stores what it reads without copying it, and `set_path` descends
  into any dictionary it finds. A rule whose target lies strictly below an
  earlier target can therefore write into the source, a rule default or a
  transform's configuration. Later rules read the change, and so does every
  later action of the plan, since the planner passes the live event payload;
  an altered default stays altered. Rule order then matters even for unrelated
  targets (`MappingLaws.RuleOrderMatters`); the exact condition is
  `MappingLaws.SourceKeptIff` for one call and `PlanMapping.PlanIff` for a plan.
  It asks about every rule, not about the end of the call alone, because a later
  rule may write the old value back. `Coordination` is not affected: its payloads
  are made of deep copies.
- Deploying a repair that names no owner moves the tissue's version without any
  local version (`TissueDeployment.DeploymentBalancedIff`).
- A reference to a schema that is itself a reference is expanded once only
  (`SchemaLaws.LeftoverReferenceIff`).

## Model

| member | source | states |
|---|---|---|
| `Pointer.UnescapeEscape` | src/difoundry/repair.py:462-464 | every string survives escaping and unescaping |
| `Pointer.EscapeUnescape` | src/difoundry/repair.py:725-727 | unescape then escape is the identity exactly on the reference tokens RFC 6901, section 3, allows |
| `Pointer.TokensOfRender` | src/difoundry/repair.py:433-434 | a pointer built from any list of keys is split back into exactly those keys, so an escaped key stays one segment |
| `Patch.ReadAfterPatch` | src/difoundry/repair.py:432-460 | after a successful patch the addressed container differs from before exactly as the operation says: one member set or removed, one item inserted, replaced or popped, nothing for a test |
| `Patch.TestIff` | src/difoundry/repair.py:441-446 | a test passes if and only if its path reads the expected value, a missing member counting as null; it changes nothing |
| `Patch.AppliesIff` | src/difoundry/repair.py:437-460 | any other patch applies if and only if its parent is reached and takes the operation: objects take every add and replace, lists an add at "-" or any integer, and everything else needs something to be there |
| `Patch.SubscriptIs` | src/difoundry/repair.py:440-460 | a list subscript denotes the position that agrees with it modulo the length, if it is within one length of zero |
| `Patch.InsertAtIs` | src/difoundry/repair.py:452 | a list insertion takes the position nearest to the one asked for |
| `Patch.WalkPut` | src/difoundry/repair.py:438-440 | a walk along the patched path reaches the edited container |
| `Patch.PutFrame` | src/difoundry/repair.py:432-460 | every path that parts from the patched one reads the same before and after |
| `Rollback.Workspace.ApplyPointer` | src/difoundry/repair.py:432-460 | the walk-and-edit loop replaces the one document by the specified result, or raises and leaves all documents alone |
| `Rollback.Workspace.Apply` | src/difoundry/repair.py:405-423 | the patch loop reaches the state of applying the patches left to right, or raises the first error |
| `Rollback.Workspace.RollbackPatches` | src/difoundry/repair.py:642-668 | the scratch-copy loop returns the inverses, last patch first, each computed on the state just before its patch |
| `Rollback.InverseMeans` | src/difoundry/repair.py:647-677 | an inverse exists for every addition that does not append to a non-list and for every removal or replacement of a value that is there, and carries that value |
| `Rollback.LastPatchLast` | src/difoundry/repair.py:405-423 | the last patch of a list is applied last, to what the others left |
| `Rollback.UndoAtIff` | src/difoundry/repair.py:445-460 | per container and operation: the inverse edit restores it if and only if a condition on the target holds (absent member, index in range or the stated equal-neighbour cases) |
| `Rollback.InverseRestoresIff` | src/difoundry/repair.py:642-693 | applying a generated inverse right after its patch restores the document if and only if the patch is undoable there |
| `Rollback.RollbackRestores` | src/difoundry/repair.py:642-668 | rollback is exact: for every patch list whose patches are undoable where they apply, patches then inverses give back every document |
| `Rollback.OnePatchRollbackIff` | src/difoundry/repair.py:642-668 | for a single patch, exact rollback holds if and only if the patch is undoable |
| `Rollback.RetracesIff` | src/difoundry/repair.py:642-668 | for lists of any length: the rollback passes back through every intermediate state if and only if every patch is undoable where it applies |
| `Rollback.MaskedPatchIsStillRolledBack` | src/difoundry/repair.py:642-668 | a concrete list with a patch that is not undoable which is still rolled back to the original documents |
| `Rollback.AddOntoExistingMemberIsNotRestored` | src/difoundry/repair.py:651-659 | a concrete repair whose rollback loses a member: `add` onto a member that exists |
| `Scope.ScopedRoot` | src/difoundry/repair.py:489-498 | a path that passes the scope check addresses a member under an allowed root, strictly below it in the contract |
| `Scope.ScopeAcceptsIff` | src/difoundry/repair.py:489-498 | a path written from keys is in scope exactly below the three allowed members of the contract, below the three of a profile, or at a profile member whose name starts with version |
| `Scope.ScopeProtects` | src/difoundry/repair.py:489-498 | any repair in scope leaves every other top-level member of every document unchanged |
| `Scope.RepairsKeepIdentity` | src/difoundry/repair.py:151-156 | contract id, name and trigger and each profile's system id, base URL and authentication survive every repair in scope |
| `Scope.RollbackRestoresAllButVersion` | src/difoundry/repair.py:405-430 | with the version bump of `apply` in between, rollback restores everything except the contract version |
| `Generator.ProposedRollbackRestores` | src/difoundry/repair.py:530-614 | every structured repair the generator accepts is undone exactly by the rollback it carries |
| `Generator.DashSystemIsRefused` | src/difoundry/repair.py:669-677 | granting a first permission is refused exactly for a system called "-", whose path reads as an append |
| `Generator.RenameAddresses` | src/difoundry/repair.py:530-552 | a renamed field: the patch replaces the target of that one mapping rule by the new name |
| `Generator.RequiredFieldAddresses` | src/difoundry/repair.py:554-582 | a newly required field: the patch appends the rule to the action's mappings |
| `Generator.PermissionAddresses` | src/difoundry/repair.py:583-602 | a changed permission: the operation's required permissions and the system's grant are set, the grant by replace or add |
| `Generator.EndpointAddresses` | src/difoundry/repair.py:604-613 | a moved endpoint: the operation's path is replaced |
| `Lifecycle.RepairCandidate.RecordVerification` | src/difoundry/repair.py:826-828 | verification records the report, the resulting status and a fresh content hash, keeping any signature |
| `Lifecycle.RepairCandidate.Approve` | src/difoundry/repair.py:896-905 | approval needs a passed report, clears the signature and rehashes; otherwise nothing changes |
| `Lifecycle.RepairCandidate.Reject` | src/difoundry/repair.py:908-913 | rejection clears the signature and rehashes |
| `Lifecycle.RepairCandidate.Sign` | src/difoundry/repair.py:868-878 | signing needs approval and a passed report and covers content, report and approval |
| `Lifecycle.RepairCandidate.Verify` | src/difoundry/repair.py:881-891 | the signature check recomputes content hash, signed hash and digest |
| `Lifecycle.RepairCandidate.Deploy` | src/difoundry/repair.py:920-986 | deployment passes the signature, state and report gates in that order before it changes the status |
| `Lifecycle.OnlySignedStatesDeploy` | src/difoundry/repair.py:928-933 | over every run, with arbitrary edits of every field in between, only a candidate whose content, report and approval were signed with that key as they stand is deployed |
| `Lifecycle.SigningOpensTheGateIff` | src/difoundry/repair.py:868-933 | signing succeeds exactly for a passed and approved candidate, which the gate then lets through under the signing key and no other |
| `Lifecycle.SignatureBindsEverything` | src/difoundry/repair.py:202-209 | one signature verifies for at most one content, report and approval |
| `Lifecycle.LaterStepsVoidSignature` | src/difoundry/repair.py:826-828 | recording a report keeps the signature only if it is the signed one; another approval in place of the signed one, a further approval and a rejection void it |
| `Lifecycle.DecidingMeans` | src/difoundry/repair.py:893-913 | approval needs a passed report; approving and rejecting record who, what and why and drop any signature |
| `Lifecycle.DeployingMeans` | src/difoundry/repair.py:929-935 | a deployment goes through exactly for a signed candidate with a passed report, a signature that holds and patches that apply; the first gate that fails names the error |
| `Lifecycle.PathToDeployment` | src/difoundry/repair.py:826-937 | verified with success, approved, signed and shipped with one key, a candidate is deployed with its content unchanged |
| `Lifecycle.RejectionHolds` | src/difoundry/repair.py:906-937 | after a rejection no verification, signing or shipping leads to a deployment until somebody approves again |
| `JsonPath.Get` | src/difoundry/jsonpath.py:8-24 | the read loop returns what the path denotes, the default, or fails |
| `JsonPath.TokensOfJoin` | src/difoundry/jsonpath.py:11-15 | a path written from names, with or without the leading "$.", is read back as those names, unless the first is "$" with something behind it |
| `JsonPath.ItemRead` | src/difoundry/jsonpath.py:18-19 | a list is read by a position written in decimal, and by nothing that is not digits |
| `JsonPath.Dictionary.Set` | src/difoundry/jsonpath.py:27-43 | on a dictionary that shares no object with others, the write loop leaves the specified assignment, or raises and changes nothing |
| `JsonPath.GetAfterSet` | src/difoundry/jsonpath.py:8-43 | a path just set reads back the value, for every path except "$" |
| `JsonPath.AssignCommutes` | src/difoundry/jsonpath.py:27-43 | writes to two paths neither of which is a token prefix of the other commute |
| `JsonPath.LookupFrame` | src/difoundry/jsonpath.py:27-43 | such a write changes what the other path reads if and only if it replaces a list that path reads through |
| `JsonPath.SpineKept` | src/difoundry/jsonpath.py:27-43 | a path already written stays readable through objects after unrelated writes |
| `Objects.Store.Get` | src/difoundry/jsonpath.py:8-24 | on live dictionaries, the read loop returns the object the path leads to, not a copy, or fails |
| `Objects.Store.Set` | src/difoundry/jsonpath.py:27-43 | on live dictionaries, the write loop descends into whatever dictionary is stored, creates one where there is none and stores the object itself; a root assignment copies members; or it raises and changes nothing |
| `Sharing.WriteFits` | src/difoundry/jsonpath.py:27-43 | a write that ends before it meets a shared object, or stores in it what is already there, leaves the payload standing for the assigned value and every older object standing for what it did |
| `Sharing.DisturbingWrite` | src/difoundry/jsonpath.py:27-43 | any other write changes what some older object stands for |
| `Mapping.EveryTargetHoldsItsValue` | src/difoundry/mapping.py:18-33 | on values, with prefix-free targets every target of the finished payload reads exactly its rule's transformed value |
| `Mapping.TransformsInOrder` | src/difoundry/mapping.py:28-29 | transforms run in the order listed, each on what the one before it gave |
| `Mapping.RuleValueMeans` | src/difoundry/mapping.py:21-31 | a rule fails for exactly one of three reasons, in the code's order, and otherwise writes its transformed start value |
| `SharedMapping.MapPayload` | src/difoundry/mapping.py:18-33 | the rule and transform loops on live objects leave the heap of the specified run, with its output and its error |
| `SharedMapping.SharedTransformsInOrder` | src/difoundry/mapping.py:28-29 | the same order on live objects |
| `SharedMapping.DefaultLifts` | src/difoundry/transforms.py:38 | the `default` transform, which hands out an object of its configuration, does on live objects what it does on values |
| `MappingLaws.SourceKeptIff` | src/difoundry/mapping.py:18-33 | every rule leaves source, defaults, configuration and all other older objects as they were if and only if no rule stores something new strictly below a shared object; then payload or error are those of the rules on values |
| `MappingLaws.NoneBelowIsPeaceful` | src/difoundry/mapping.py:31-32 | targets none of which lies strictly below an earlier one, prefix-free ones for example, meet that condition for every source |
| `MappingLaws.EveryTargetReadsItsValue` | src/difoundry/mapping.py:18-33 | with prefix-free targets every target of the live payload reads its own rule's transformed value |
| `MappingLaws.PeacefulExchanged` | src/difoundry/mapping.py:18-33 | exchanging two neighbouring rules with unrelated targets neither breaks nor makes the condition |
| `MappingLaws.RuleOrderIrrelevant` | src/difoundry/mapping.py:18-33 | under that condition two neighbouring rules with unrelated targets can be exchanged: both live payloads stand for one value and no older object changes |
| `MappingLaws.RuleOrderMatters` | src/difoundry/mapping.py:18-33 | a concrete source and three rules, two neighbours unrelated, whose two orders give different payloads and both change the source |
| `PlanMapping.PlanPayloads` | src/difoundry/planner.py:40-53 | the loop over actions maps the one live event payload once per action |
| `PlanMapping.PlanAllMeans` | src/difoundry/planner.py:40-53 | the payloads are those of the first actions in their order; a plan that ends early ends with the next action's error |
| `PlanMapping.PlanIff` | src/difoundry/planner.py:40-53 | a plan leaves the event and all older objects as they were if and only if each of its mappings meets the condition on the event as it came in; then every action gets, and keeps to the end, the payload of its own rules on that event |
| `Graph.TopologicalOrder` | src/difoundry/nervous.py:124-136 | the loop that pops ready layers from the dictionary, as it is listed, returns the layered order of the graph, or none |
| `Graph.LayersAreOrder` | src/difoundry/nervous.py:124-136 | whatever the listing order of the dictionary, sorting each layer gives the order of the graph it describes |
| `Sorting.SortListIsSorted` | src/difoundry/nervous.py:128 | sorting a list without repetitions depends on its elements alone |
| `Graph.OrderIsLinear` | src/difoundry/nervous.py:124-136 | an order found is a permutation of the steps with every dependency earlier |
| `Graph.OrderFailsIffCyclic` | src/difoundry/nervous.py:110-136 | the sort raises if and only if the dependencies contain a cycle |
| `Graph.LayerIsLongestChain` | src/difoundry/nervous.py:124-136 | the layer of a step is the length of the longest dependency chain ending there |
| `Graph.AncestorsComeFirst` | src/difoundry/nervous.py:124-136 | in every linear order all transitive dependencies of a step come before it |
| `Coordination.BestRuleIsFirstOfHighest` | src/difoundry/nervous.py:338-373 | the policy rule applied matches, has the highest priority and is the first such; none is applied exactly when none matches |
| `Coordination.MapStepPayload` | src/difoundry/nervous.py:660-673 | the input loop builds the specified payload or raises |
| `Coordination.Coordinator.Coordinate` | src/difoundry/nervous.py:487-657 | for a step list: the topological order of its dictionary, the run in that order and its classification |
| `Coordination.Coordinator.RunSteps` | src/difoundry/nervous.py:510-629 | the loop over the ordered steps fills the executions of the specified run |
| `Governance.GovernedIff` | src/difoundry/nervous.py:338-373 | of the dispatched steps exactly those run that no dependency chain puts beyond the hop limit, whose capability is registered where required, and whose governing rule, spelled out on rule and step, or else the default lets them, given the approvals |
| `Governance.DispatchedIff` | src/difoundry/nervous.py:510-536 | a step is dispatched if and only if its dependencies are done and its payload maps from the finished run, and blocked on its input when only the latter fails |
| `Governance.EventCarries` | src/difoundry/nervous.py:553-618 | the event is addressed by the step, carries the payload that maps from the finished run, and is simulated when the run is or the step is not to be executed |
| `Governance.EventCauses` | src/difoundry/nervous.py:537-552 | the event names the daughters and the events of the step's dependencies in their order, or else the root event |
| `Governance.StatusMeans` | src/difoundry/nervous.py:701-709 | done means run with local status succeeded, simulated or planned; the other reported states are characterized |
| `Governance.PayloadHoldsInputs` | src/difoundry/nervous.py:660-673 | a payload maps unless an input is unusable, and with prefix-free targets holds every input's value or default at its target |
| `Governance.RootPayload` | src/difoundry/nervous.py:661-663 | a step without inputs gets the root payload, wrapped if it is no object, empty if there is none |
| `Confluence.OutcomeFromAncestors` | src/difoundry/nervous.py:510-600 | a step's outcome is a function of its transitive dependencies' outcomes |
| `Confluence.Confluent` | src/difoundry/nervous.py:510-629 | any two linear extensions of the dependencies give every step the same outcome |
| `Confluence.AgreesWithCoordinator` | src/difoundry/nervous.py:510-629 | in particular every linear extension agrees with the coordinator's own order |
| `Confluence.SkippedIffAncestorNotDone` | src/difoundry/nervous.py:510-522 | a step is skipped if and only if some transitive dependency did not end succeeded or simulated |
| `Confluence.HopCountIsLongestChain` | src/difoundry/nervous.py:676-681 | the hop count checked for a dispatched step is the length of the longest dependency chain ending there |
| `Confluence.ClassificationIff` | src/difoundry/nervous.py:631-643 | succeeded, simulated, partial and failed each hold exactly under the stated condition on the steps |
| `Confluence.ListOrderIrrelevant` | src/difoundry/nervous.py:124-141 | two listings of the same steps start the sort from differently ordered dictionaries and give the same order of execution and the same run |
| `Queue.JobTable.Enqueue` | src/difoundry/production/queue.py:25-54 | adds one queued job and nothing else |
| `Queue.JobTable.ClaimRow` | src/difoundry/production/queue.py:60-90 | the row-lock path claims an eligible unlocked job none of which is older, or there is none |
| `Queue.JobTable.ClaimCandidates` | src/difoundry/production/queue.py:92-130 | the compare-and-swap path claims the first listed candidate still claimable, or none is |
| `Queue.JobTable.Renew` | src/difoundry/production/queue.py:132-147 | accepted if and only if worker and token hold a live lease; extends only that lease |
| `Queue.JobTable.Complete` | src/difoundry/production/queue.py:149-170 | accepted under the same condition; ends the job succeeded and clears the lease |
| `Queue.JobTable.Fail` | src/difoundry/production/queue.py:172-215 | accepted under the same condition; retries or dead-letters by the attempts left |
| `Leases.Perform` | src/difoundry/production/queue.py:25-215 | each step of the interleaving machine is one of the queue's transactions |
| `Leases.EnqueueMeans` | src/difoundry/production/queue.py:25-54 | a new job is queued, untried and unleased, with the limits it was given |
| `Leases.ClaimIff` | src/difoundry/production/queue.py:60-130 | on the row's fields: a row lock claims what is due and queued or running on an expired lease, a swap claim the same without asking whether it is due; a claim of a running job is logged as a reclaim |
| `Leases.HolderIff` | src/difoundry/production/queue.py:132-215 | on the row's fields: when renewing, completing and failing are accepted, and what they leave of the row |
| `Leases.ExpiredLeaseIsReclaimed` | src/difoundry/production/queue.py:60-130 | a reachable run on either path: enqueue, claim, time past the lease, and a reclaim under a new token |
| `Leases.RunKeepsInv` | src/difoundry/production/queue.py:56-215 | every interleaving keeps the row of each job in line with its history |
| `Leases.HolderIsLatestClaim` | src/difoundry/production/queue.py:132-215 | an accepted renew, complete or fail carries the token of the latest claim |
| `Leases.FencedForever` | src/difoundry/production/queue.py:132-215 | once a job is claimed again no operation with an earlier token is ever accepted, whatever clock reading it carries |
| `Leases.OneVerdictPerClaim` | src/difoundry/production/queue.py:149-215 | each claim gets at most one accepted complete or fail |
| `Leases.OneCompletionPerJob` | src/difoundry/production/queue.py:149-170 | each job gets at most one accepted complete |
| `Leases.TerminalForever` | src/difoundry/production/queue.py:56-215 | succeeded and dead jobs are never touched again |
| `Leases.LiveLeaseIsKept` | src/difoundry/production/queue.py:56-130 | while a lease is live no other worker takes the job, even with a stale candidate list and a stale clock reading |
| `Leases.Accounting` | src/difoundry/production/queue.py:77-125 | attempts count the claims, exceed max(1, max_attempts) by at most the reclaims of expired leases, and lease fields are set exactly while running |
| `Leases.ClaimStartsEarlyIff` | src/difoundry/production/queue.py:60-130 | a claim runs before the job's run-after time never on the row-lock path, and on the swap path exactly when the job is still claimable and its last accepted failure since the listing asked for a later retry |
| `Leases.SwapClaimCanStartRetryEarly` | src/difoundry/production/queue.py:92-130 | a concrete run on the swap path, with the listing it works on, that starts a retry before its run-after time |
| `Worker.AtMostOneSuccessEntry` | src/difoundry/production/worker.py:78-103 | however workers interleave, crash or lose leases, a job has at most one success entry, and only after an accepted completion |
| `WorkerAccounts.EveryVerdictReportedOnce` | src/difoundry/production/worker.py:78-103 | over all plays: success entries written or owed make up the accepted completions of a job, and failure entries the accepted failures |
| `WorkerAccounts.OneEntryPerSession` | src/difoundry/production/worker.py:78-103 | every finished session has written exactly one audit entry |
| `WorkerAccounts.AcknowledgeMeans` | src/difoundry/production/worker.py:78-103 | a worker whose heartbeat failed sends no verdict and reports the loss; otherwise it reports the loss if and only if its verdict is refused |
| `WorkerAccounts.BeatMeans` | src/difoundry/production/worker.py:48-59 | a heartbeat marks the lease lost if and only if it could not reach the store or its renewal was refused |
| `WorkerAccounts.JobIsReported` | src/difoundry/production/worker.py:31-103 | a concrete play on either claim path ends with the one entry that says how the execution went |
| `Worker.PlayKeepsTokens` | src/difoundry/production/worker.py:39-103 | over all plays, sessions hold distinct claimed tokens and every accepted completion or failure was sent by a session past its acknowledgement |
| `Worker.LostLeaseNeverAcknowledged` | src/difoundry/production/worker.py:48-80 | once the heartbeat has seen the lease lost, the queue's history never holds an accepted completion or failure with that run's token |
| `Audit.Verify` | src/difoundry/production/audit.py:255-324 | the verify loop reports no error if and only if the declarative ledger predicate and the anchor agree; every corrupt row is named |
| `Audit.SameHeadSameChain` | src/difoundry/production/audit.py:255-300 | two valid chains of equal length and last hash are the same rows |
| `Audit.AnchorPinsHistory` | src/difoundry/production/audit.py:293-324 | two ledgers that verify against the same anchor hold the same rows and head |
| `Audit.HeadHashPinsHistory` | src/difoundry/production/audit.py:255-300 | the head hash alone pins rows and length when no row hashes to the genesis value |
| `AuditAppend.CommitIff` | src/difoundry/production/audit.py:176-227 | a commit on a former head succeeds exactly while it is still the head, and then appends the next row of the chain |
| `AuditAppend.CommitKeepsValid` | src/difoundry/production/audit.py:176-227 | a commit keeps every tenant's ledger valid |
| `AuditAppend.Ledger.Append` | src/difoundry/production/audit.py:163-243 | against any interference an append gives up exactly when another event of the tenant was committed in each of sixteen tries; otherwise its event is the newest row |
| `AuditRun.EveryLedgerVerifies` | src/difoundry/production/audit.py:163-324 | every ledger reached by any interleaving of appends verifies |
| `AuditRun.AnchorsConsistent` | src/difoundry/production/audit.py:228-229 | anchors written out of order never contradict each other |
| `AuditRun.LatestAnchorIsHead` | src/difoundry/production/audit.py:61-77 | once every committed append has written its anchor, the latest anchor is the head |
| `AuditRun.VerifiesAgainstEitherStore` | src/difoundry/production/audit.py:302-324 | then verification succeeds against either anchor store, when the digests of the tenants that occur do not collide |
| `AuditRun.RetryMeansProgress` | src/difoundry/production/audit.py:173-214 | a refused commit means another append of that tenant was committed in between |
| `Anchors.ScanFile` | src/difoundry/production/audit.py:61-77 | the scan loop returns the first record of greatest sequence of the tenant |
| `Anchors.FileLatestIsGreatest` | src/difoundry/production/audit.py:61-77 | the scan's answer is of the tenant and none has a greater sequence |
| `Anchors.FileLatestIsFirst` | src/difoundry/production/audit.py:64-82 | of several records with the greatest sequence the scan keeps the first |
| `Anchors.PaddedOrder` | src/difoundry/production/audit.py:98-99 | zero-padded names sort as the numbers they stand for |
| `Anchors.AnchorDirectory.Append` | src/difoundry/production/audit.py:101-140 | a written anchor is never replaced; a repeat is accepted, a conflict refused |
| `Anchors.AnchorDirectory.Latest` | src/difoundry/production/audit.py:142-155 | the name-sorted search returns the record of the greatest name of the tenant |
| `Anchors.StoresAgree` | src/difoundry/production/audit.py:37-155 | fed the same anchors in any order and with repeats, the directory takes them all if and only if no two want the same file, and then answers exactly what the file scan answers |
| `Anchors.ConsistentFilesApart` | src/difoundry/production/audit.py:94-99 | non-conflicting anchors of tenants whose digests differ never want the same file |
| `Anchors.KeysExist` | src/difoundry/production/audit.py:94-96 | the tenants of any list of anchors can be told apart by keys of 64 characters |
| `Migration.Rehash` | scripts/migrate_v1_to_v2.py:156-168 | the per-tenant loop returns the rehashed chain and its head |
| `Migration.GroupByTenant` | scripts/migrate_v1_to_v2.py:152-154 | grouping gives each tenant its rows in query order |
| `Migration.OfTenantInOrder` | scripts/migrate_v1_to_v2.py:145-168 | a tenant's rows keep their query order and other tenants' rows are left out |
| `Migration.MigrateAudit` | scripts/migrate_v1_to_v2.py:145-168 | the rebuilt tables hold every tenant's chain and are valid for all tenants |
| `Migration.RehashedIsValid` | scripts/migrate_v1_to_v2.py:76-89 | a rebuilt chain holds the same events in the same order and verifies |
| `Migration.MigratedLedgerExtends` | scripts/migrate_v1_to_v2.py:222-245 | after migration the next append extends exactly the rebuilt chain |
| `Features.WeightedJaccard` | src/difoundry/features.py:73-79 | the two sums over the key union give the similarity, in whatever order the keys come |
| `Features.JaccardRange` | src/difoundry/features.py:73-79 | the similarity is symmetric and lies in [0, 1], for any weights |
| `Features.JaccardOneIff` | src/difoundry/features.py:73-79 | on positive weights it is 1 if and only if the maps are equal and not empty |
| `LearningLaws.JaccardOfSets` | src/difoundry/features.py:73-79 | on weights of 1 the similarity is the number of shared features over the number of features of either |
| `Learning.Prototype.MoveToward` | src/difoundry/tissue.py:498-507 | the key loop gives every key its blended, pruned and capped weight at once |
| `Learning.Prototype.MoveAway` | src/difoundry/tissue.py:509-516 | the key loop fades exactly the shared keys and prunes the small ones |
| `Learning.AdjustedInRange` | src/difoundry/tissue.py:498-516 | prototype weights stay in [0.02, 1] under every learning step |
| `Learning.TowardNeverLowers` | src/difoundry/tissue.py:498-507 | a move towards an example never lowers the similarity to it |
| `Learning.AwayNeverRaises` | src/difoundry/tissue.py:509-516 | a move away never raises it, when the feature weights dominate the prototype's |
| `Learning.LearningDirection` | src/difoundry/tissue.py:289-293 | for encoder output: non-negative rewards never lower and negative rewards never raise the similarity |
| `LearningLaws.TowardShrinksDistance` | src/difoundry/tissue.py:498-507 | a move towards the example leaves per key the share 1 - rate of the distance, and drops what ends below the threshold |
| `LearningLaws.AwayScalesShared` | src/difoundry/tissue.py:509-516 | a move away takes the share rate off every shared weight, touches no other, and drops what ends below the threshold |
| `LearningLaws.TowardRaises` | src/difoundry/tissue.py:289-293 | a positive reward strong enough to leave a trace strictly raises the similarity to the example, unless it was identical |
| `LearningLaws.AwayLowers` | src/difoundry/tissue.py:289-293 | a negative reward strictly lowers it if anything is shared |
| `Learning.AwayCanRaiseWithoutDomination` | src/difoundry/tissue.py:509-516 | the hypothesis of domination is needed: a fractional feature weight, which the encoder never produces, for which moving away raises the similarity |
| `Tissue.FindNearest` | src/difoundry/tissue.py:518-527 | the loop finds the enabled specialist of highest similarity, the earliest on a tie |
| `Tissue.ArgmaxIsFirstBest` | src/difoundry/tissue.py:525-527 | the one found is the one that none beats and no earlier one equals |
| `Tissue.LearnOwner` | src/difoundry/tissue.py:273-300 | spawning, training and the errors of one example inside its branch |
| `TissueLaws.LearnRaisesIff` | src/difoundry/tissue.py:273-286 | training raises exactly on a disabled branch, and without a positive reward on one that has no enabled specialist |
| `TissueLaws.LearnTrains` | src/difoundry/tissue.py:276-299 | a positive reward on a branch that knows nothing as similar as configured, and may grow or knows nothing at all, adds a specialist; any other trains the nearest; nothing else changes |
| `TissueLaws.OutcomeRecords` | src/difoundry/tissue.py:317-343 | an outcome records one observation and one success or failure on the branch, and one on a specialist for every time the action names it |
| `TissueLaws.AttributionMeans` | src/difoundry/tissue.py:344-355 | an attribution names action, branch and specialists; a missing ownership key is the branch's and a missing signature is unknown |
| `TissueLaws.UnbornMeans` | src/difoundry/tissue.py:209-228 | a new branch is enabled, knows nothing and is keyed by contract, route and branch |
| `Tissue.DendritronTissue.FromContract` | src/difoundry/tissue.py:209-228 | a new tissue holds one blank branch per owner and starts at version 0 |
| `Tissue.DendritronTissue.LearnExample` | src/difoundry/tissue.py:269-300 | the tissue after one example, and the id of the specialist trained or the error raised |
| `Tissue.DendritronTissue.RecordOutcome` | src/difoundry/tissue.py:317-355 | the tissue after an outcome; an attribution is returned exactly when one is stored |
| `Tissue.DendritronTissue.SetBranchEnabled` | src/difoundry/tissue.py:357-363 | enabling changes the addressed branch and the version, nothing else |
| `TissueRun.BranchesIsolated` | src/difoundry/tissue.py:177-184 | over any run a branch ends as if the operations addressed to other branches had never happened |
| `TissueRun.EveryRun` | src/difoundry/tissue.py:269-363 | over any run: version is the sum of local versions, attributions match failures in total and per branch, specialists stay within the limit and enabled, weights in range |
| `TissueDeployment.OwnedDeploymentEnables` | src/difoundry/repair.py:945-949 | deploying a repair with both ids enables the owner's branch and raises if and only if there is none |
| `TissueDeployment.DeploymentBalancedIff` | src/difoundry/repair.py:935-949 | a deployment keeps the version equal to the sum of local versions if and only if the candidate names both route and branch |
| `TissueDeployment.EveryRunWithDeployments` | src/difoundry/repair.py:935-949 | over any run of operations and deployments the version is the sum of local versions plus the number of deployments without an owner; everything else is as without deployments |
| `TissueRun.LearnMovesTheRightWay` | src/difoundry/tissue.py:276-293 | one example touches one specialist; a new one equals the example, an old one moves as the reward says |
| `Ranking.RankOrders` | src/difoundry/tissue.py:435 | the sort is a permutation, descending by activation and priority, and stable |
| `Ranking.TieIsWithSecond` | src/difoundry/tissue.py:443-445 | some rival ties with the winner exactly when the runner-up does |
| `Routing.SelectDeclarative` | src/difoundry/routing.py:32-72 | the scoring and tie-counting loops make the specified decision |
| `Routing.HardIsConjunction` | src/difoundry/routing.py:74-77 | a branch activation is 1 when all conditions hold and 0 otherwise |
| `Routing.DeclarativeIff` | src/difoundry/routing.py:41-72 | a branch is selected if and only if it wins, reaches its own minimum and is not tied where ties abstain |
| `TissueRouting.SpecialistScores` | src/difoundry/tissue.py:529-541 | the loop scores the enabled specialists and ranks them |
| `TissueHealth.HealthIsShare` | src/difoundry/tissue.py:62-64 | health is the share of successes once one success and one failure are added: strictly between 0 and 1, and a half on equal counts |
| `TissueHealth.OutcomeMovesHealth` | src/difoundry/tissue.py:62-64 | a success strictly raises it and a failure strictly lowers it |
| `TissueHealth.ScoreWithinSimilarity` | src/difoundry/tissue.py:537-539 | a score is the similarity less 15 percent of it in proportion to what health lacks |
| `TissueHealth.LearnedIsBest` | src/difoundry/tissue.py:412-415 | a branch brings in the score of its best enabled specialist, everything on an untrained route, and nothing otherwise |
| `TissueHealth.BestSpecialistsAct` | src/difoundry/tissue.py:412-413 | the specialists that act for an eligible branch are the best-ranked ones, as many as allowed and there are; for any other branch none acts |
| `TissueHealth.BetterRecordWins` | src/difoundry/tissue.py:404-440 | of two branches alike but for their records, the one with the better records is the more active, and the other is not selected |
| `TissueRouting.SelectRoute` | src/difoundry/tissue.py:395-481 | the route loop makes the specified decision and returns the chosen branch's active specialists |
| `TissueRouting.SelectedIff` | src/difoundry/tissue.py:435-449 | a branch is selected if and only if it wins, is eligible and active, familiar enough, untied where ties abstain, and ahead of every rival by the margin |
| `TissueRouting.SelectionRespectsGate` | src/difoundry/tissue.py:408-411 | whatever was learned, a selected branch is enabled, meets all its conditions and, behind the gate, its minimum |
| `TissueRouting.ActiveSpecialistsAreLocal` | src/difoundry/tissue.py:412-413 | at most top-k specialists act, all enabled and of the selected branch |
| `TissueRouting.UntrainedSelects` | src/difoundry/tissue.py:395-481 | an untrained tissue selects the leading branch among those its gate lets through |
| `RouterRefinement.DeclarativeChoice` | src/difoundry/routing.py:41-72 | the declarative router selects the leader of the matching branches, within its minimum |
| `RouterRefinement.RefinesIff` | src/difoundry/tissue.py:395-481 | an untrained tissue makes the declarative router's decision if and only if no out-of-range minimum parts them |
| `RouterRefinement.RefinesForUsualMinima` | src/difoundry/tissue.py:395-481 | with minima in (0, 1] the two always agree, ties and their order included |
| `RouterRefinement.MinimumAboveOneSplitsThem` | src/difoundry/tissue.py:408-415 | a concrete route on which a minimum above 1 makes them differ |
| `Schema.ResolveLocalRef` | src/difoundry/discovery/schema.py:10-21 | the segment loop finds the referenced object merged with the reference's own members, or raises |
| `Schema.Normalize` | src/difoundry/discovery/schema.py:24-50 | normalization ends on every document and schema, cyclic references included; its result has no `allOf` reachable through properties and items and mentions no new reference |
| `SchemaLaws.FinishedUnchanged` | src/difoundry/discovery/schema.py:24-50 | a schema with no reference and no `allOf` left is returned unchanged |
| `SchemaLaws.NormalizeIsStep` | src/difoundry/discovery/schema.py:27-50 | the result depends only on the resolved members and the references seen |
| `SchemaLaws.ReferenceMeansTarget` | src/difoundry/discovery/schema.py:28-33 | a reference normalizes to what its target does with the reference marked as seen |
| `SchemaLaws.LeftoverReferenceIff` | src/difoundry/discovery/schema.py:28-33 | a reference remains in the result exactly when the target itself is a reference |
| `SchemaLaws.AllOfProperties` | src/difoundry/discovery/schema.py:34-42 | merged properties are the union of the parts', unless own properties replace them |
| `SchemaLaws.AllOfPropertyValue` | src/difoundry/discovery/schema.py:35-47 | under allOf a property is the normalization of the schema's own if it has properties, and otherwise of the last part's that provides it |
| `SchemaLaws.AllOfMembers` | src/difoundry/discovery/schema.py:33-41 | the schema's other members stay, and the type is object unless it says otherwise |
| `SchemaLaws.WithoutAllOf` | src/difoundry/discovery/schema.py:42-49 | without allOf every property and the items are normalized and everything else stays as it resolved |
| `SchemaLaws.ResolvedMembers` | src/difoundry/discovery/schema.py:10-21 | members beside a reference win over the target's, and the reference is gone unless the target has one |
| `SchemaLaws.LookupIsWalk` | src/difoundry/discovery/schema.py:17-18 | a reference is followed as a pointer is, with every step a member of an object |
| `SchemaLaws.EndsOfRecursion` | src/difoundry/discovery/schema.py:25-31 | a schema that is no object becomes the empty one, and a reference met again is marked instead of followed |
| `SchemaLaws.AllOfRequired` | src/difoundry/discovery/schema.py:34-42 | merged required names are the sorted union of the parts', unless own names replace them |
| `RateLimit.SqlRateLimiter.ConsumeTransaction` | src/difoundry/production/rate_limit.py:36-59 | the transaction updates one bucket and returns the verdict of the token arithmetic |
| `RateLimit.DrawMeans` | src/difoundry/production/rate_limit.py:40-60 | a call is granted if and only if the bucket, refilled at a sixtieth of its capacity a second, holds the cost; it takes exactly that and reports the whole tokens left |
| `RateLimit.SqlRateLimiter.Sweep` | src/difoundry/production/rate_limit.py:61-67 | a sweep deletes exactly the buckets older than the cutoff and counts them |
| `RateLimit.SqlRateLimiter.Consume` | src/difoundry/production/rate_limit.py:27-34 | every thousandth call sweeps before it draws |
| `RateLimit.GrantedBound` | src/difoundry/production/rate_limit.py:36-59 | over any run without sweeps, any costs and any clock: granted plus left is at most the start level plus refill over the forward clock steps |
| `RateLimit.GrantedWithinElapsed` | src/difoundry/production/rate_limit.py:36-59 | under a monotone clock that is at most capacity plus refill over the time elapsed |
| `RateLimit.FullLooksMissingIff` | src/difoundry/production/rate_limit.py:42-59 | a refilled bucket and a missing one answer alike if and only if the cost fits the capacity |
| `RateLimit.SweepsInvisible` | src/difoundry/production/rate_limit.py:27-67 | sweeping buckets idle for a minute or more changes no verdict of a whole run under a monotone clock |
| `ChangeFeed.Feed.PollOnce` | src/difoundry/lite/service.py:619-646 | the record loop stores fingerprints and queues changes as specified, or raises part way |
| `ChangeFeed.LoopCounts` | src/difoundry/lite/service.py:638-640 | events are only added behind those queued, and the count returned is the number added |
| `ChangeFeed.FirstPollSilent` | src/difoundry/lite/service.py:619-640 | before the first completed poll nothing is queued |
| `ChangeFeed.RepollSilentIff` | src/difoundry/lite/service.py:622-640 | polling an unchanged source again is silent if and only if no key is listed twice with different content |
| `ChangeFeed.RecordTracksIff` | src/difoundry/lite/service.py:631-640 | a record keeps consumer and source in step if and only if the connection is enabled or the record is unchanged |
| `ChangeFeed.PollTracksIff` | src/difoundry/lite/service.py:619-646 | a later poll completes if and only if each record finds the connection enabled or repeats what was last seen; it then tracks what it showed, and otherwise what was read can no longer be rebuilt from the queue |
| `ChangeFeed.FeedIsCompleteIff` | src/difoundry/lite/service.py:602-660 | over any polls, all complete if and only if every change after the first poll finds the connection enabled; the queued events laid over the first poll then give the record last seen for every key |
| `ChangeFeed.FeedIsComplete` | src/difoundry/lite/service.py:602-660 | a connection that stays enabled misses nothing |
| `ChangeFeed.ChangeIsLost` | src/difoundry/lite/service.py:631-640 | a concrete run: a change read while disabled is never queued, although the next poll is enabled |

## Left out

- Rollback.RollbackRestores: one direction for the final documents of a list, because a patch that is not undoable can be masked by the others (`Rollback.MaskedPatchIsStillRolledBack`); exact for one patch (`Rollback.OnePatchRollbackIff`) and for retracing every step of a list (`Rollback.RetracesIff`).
- Rollback.Workspace.Apply: the version assignment is in `Scope.Versioned`; the pydantic and contract validation that follow it in `apply` are not modelled.
- Lifecycle.RepairCandidate.RecordVerification: the replay that produces the report, and whether applying the patches succeeds at deployment, are inputs; files written at deployment are not modelled, nor is the check of the redeployed tissue against the repaired contract; what deployment does to the tissue is in `TissueDeployment`.
- JsonPath.Dictionary.Set: nested dictionaries are values written back on the way up; it is used where the code writes deep copies (`Coordination`). Writes to live dictionaries are in `Objects.Store.Set`. Values in `Rollback.Workspace` are copied before use as well.
- SharedMapping.MapPayload: the transform registry is a function on live objects that creates no dictionary and writes to none, which holds of the built-in transforms; dictionaries are compared by members, lists are never written to and have no identity.
- PlanMapping.PlanPayloads: routing, certification and parameters of an action are not modelled; an action's mappings run as soon as it is reached.
- Tissue.DendritronTissue.FromContract: takes the (route, branch) pairs already listed; the check that ownership keys are unique is the precondition `TissueRun.DistinctOwners` of the run lemmas.
- Tissue.DendritronTissue.LearnExample: branches and specialists are values replaced in a list, so sharing of specialist objects is not captured; the prototype dictionary itself is a class.
- Learning.LearningDirection: that the encoder gives every feature weight 1.0 is a precondition; the encoder is not modelled.
- Routing.SelectDeclarative: the truth of each condition in the event is an input; comparison operators on JSON values are not modelled. The same holds for `TissueRouting.SelectRoute`.
- Confluence.Confluent: daughters, policy support and rendering of results are fixed functions of the step and its payload, and inputs are read only from the root event and declared ancestors.
- Schema.Normalize: a `required` list holding anything but strings is taken to raise; the kind of exception is not distinguished.
- ChangeFeed.Feed.PollOnce: one connection; records with their keys are inputs, so the reading of the response and the derivation of keys are not modelled.
- Anchors.StoresAgree: anchor signatures are taken to be valid, sequences to fit twenty digits and tenant digests to have 64 characters.
- Audit.Verify: `details_json` enters the hash as the decoded value.
- Python's equality of `True` and `1`, dictionary order, Unicode digits and floating-point rounding.
- HTTP and browser surfaces, command line, settings, key storage, OAuth, discovery providers, lexical scoring, benchmarks and plain CRUD.
