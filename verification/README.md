# NiFiControl: verified models of its reconcile protocols

NiFiControl is a Kubernetes operator whose reconcile loops act as crash-resumable protocols: every
reconcile takes at most one durable step against a mutable NiFi server and a persisted status. This
project models the hardest of those loops in Dafny and proves what they keep over whole runs.

Each protocol appears twice. A pure step function says what one reconcile does to the persisted
status and to the server, for every combination of answers the outside calls can give. A class with
loops and in-place updates does the same work in the controller's own form and is proved to take
exactly that step. The theorems are about the step functions and therefore about the controllers, and
they are stated on the fields of the status, the spec and the server, not through the functions that
compute them.

| files | subject |
|---|---|
| `Text` | decimal rendering, the byte order of `sort.Strings`, sorted key lists, white space |
| `Drift`, `DriftLaws`, `DriftSeen`, `DriftDiff`, `DriftRun` | flow normaliser, its idempotence, exactly what it sees, the capped differ |
| `ScaleDown`, `ScaleDownSteps`, `ScaleDownRun` | graceful scale-down of the primary pool and of node groups on one cluster |
| `BlueGreen`, `BlueGreenLaws`, `BlueGreenRuns`, `BlueGreenSteps`, `BlueGreenWrites`, `BlueGreenProgress`, `BlueGreenController` | transactional traffic switch, rollback and promotion; single steps; lost writes; progress |
| `Rollout`, `RolloutLaws`, `RolloutRuns`, `RolloutSteps`, `RolloutDeploys`, `RolloutTruth`, `RolloutController` | in-place replace, retries, rollback, history and its ConfigMaps; from a failed target to rest, from a wanted one to deployed |
| `Composition` | the BlueGreen protocol and the deployment's status put together |
| `Policy`, `PolicyRuns` | access policies shared by several objects |
| `Overrides`, `OverridesScript` | configuration overrides: rendering and the node start script |
| `RemotePorts` | remote port reconciliation under optimistic revisions |

`dafny verify dfyconfig.toml` checks the whole project.

## Hypotheses

- A reconcile is one atomic step of its run; between reconciles an explicit environment step may
  change anything its predicate allows. Failed calls are answers of the step; the one that is excluded
  is named below. Scale-down and policy runs also allow lost status writes, and scale-down arbitrary
  persisted status.
- BlueGreen: every reconcile's final status write lands (`BlueGreenWrites.LostWriteBreaksBoundary`
  states for every reconcile what a lost one costs), the target digest and the BlueGreen strategy stay
  the same during a rollout, a rollout started by drift goes on finding drift (`Composition.RolloutFate`
  states when a rollout is abandoned), the ports of both groups and the drain policy do not change
  during it, NiFi hands out fresh connection ids, nobody else touches a recorded connection, and on the
  way back the lookup of a green connection does not fail (`LookupFailureDuplicates` and
  `SoleNeedsLookup` state what happens when it does). The calls that start stopped sources again,
  whose errors the code ignores, go through. Listing the candidate's ports may fail; what that
  does is `PortListingAborts`.
- Scale-down: the StatefulSet object exists throughout, nodes leave the cluster only by the operator's
  delete, and a node is OFFLOADED only when its queues are empty. The protocol sees one status per
  address; a listing that repeats an address is covered for the step itself, not for the runs.
- In-place rollouts: every reconcile's final status write lands (`LostWriteLosesTarget` states what a
  lost one costs) and a failure report counts as one, others may add ConfigMaps but do not delete or
  change them, the deployment's name is fixed and its snapshot is not blank. Truncated digests may
  collide. What is put down as deployed is compared with what was sent for one target name, so that a
  digest stands for one snapshot.
- Overrides: starts run the script to its end, the configuration files end in a newline, the image's
  default file has been captured, and names use the validated alphabet, for which the script's patterns
  match exactly the prefix of a line.
- Remote ports: port ids are distinct in each direction, configured names are distinct, nobody else
  changes the group during a pass, and NiFi keeps a field that an update does not carry.

## Findings

Where the code does less than its comments or the obvious reading promise, the code is modelled as it
is and the exact condition is proved.

- `nifipolicy_controller.go:23-25` says a policy "grants exactly those tenants". A reconcile only adds
  tenants: it grants exactly the desired ones if and only if nobody else was granted before
  (`GrantsExactlyIff`), and a tenant dropped from the spec stays granted (`DroppedTenantStays`).
- Deleting one policy object revokes a tenant another object still records (`DeleteRevokesIff`); the
  other object's next reconcile grants it again (`SharedTenantComesBack`).
- `useCompression` is omitted from the request body when false (`pkg/nifi/remoteprocessgroups.go:57`),
  so compression can never be turned off: such a port is stopped, updated to no effect and started
  again on every pass (`PassSettlesIff`, `CompressionOffNeverSettles`).
- When the source changes while an in-place rollout waits for readiness, be it to something new or back
  to the last success, the gate puts the changed digest down as deployed although its flow was not sent
  (`DeployedIsSent`, `ReadinessDeploysUnsent`).
- A history ConfigMap is never overwritten, and its name carries only twelve digest characters: another
  snapshot under the same name, from a colliding digest or from the same digest with a renamed target,
  stops every replace before it reaches NiFi (`NamesCollideIff`, `CollisionStopsReplace`).
- A rollback that finished in NiFi is put on record only if the restored flow can then be started. If
  that call fails under StopAllThenApply the rollback's request is already gone, nothing blocks the
  target that failed, and the next reconciles stop the group and send it again
  (`UnstartedRollbackIsForgotten`).
- A field is at its default by the literal it is written with: 1 and 1.0 concurrent tasks are reported
  as drift although they are the same number (`DefaultByLiteral`).
- Trimming deletes ConfigMaps before the status that stops naming them is written
  (`LostWriteLosesTarget`, `LimitOneLosesTarget`).
- Under OnTimeout Fail an OFFLOADED node is removed if and only if its timer has not expired; an expired
  timer holds the pool for good (`OffloadedNodeGoesIff`, `ExpiryHoldsThePool`, `OffloadedNodeIsHeld`).
- A promotion whose rename fails has already recorded the candidate as the live group; a rollback
  afterwards leaves the deployment naming a deleted group (`LiveGroupAfterRollback`,
  `RenameFailureExample`).
- A lost status write breaks the boundary if and only if its reconcile deletes a recorded connection on
  the way forward or restores one on the way back (`LostWriteBreaksBoundary`, `LostSwitchExample`). A
  restored connection whose record was not written is restored again, and the completed rollback leaves
  both copies (`RetryDuplicates`, `CopySurvivesRollback`, `LostRestoreExample`).
- A BlueGreen rollout is dropped where it stands, with its boundary half switched, when the strategy or
  the source digest changes or when the live flow of a drift-started rollout matches again
  (`RolloutFate`, `AbandonedBoundary`, `AbandonedExample`).
- A rollback does not move while `spec.rollout.cancel` stays set (`CancelHolds`).
- Dropping an override of a key the operator writes itself brings back the image's line after the
  operator wrote its own, for one start (`DroppedOverrideHidesOperator`).

## Model

| member | source | states |
|---|---|---|
| `Drift.StableSortCorrect` | internal/controller/flow_deployment_drift.go:75-80 | the sort is an ordering permutation and keeps the order of equal identities |
| `Drift.SortsAlike` | internal/controller/flow_deployment_drift.go:75-80 | two lists sort to the same list if and only if they carry, for every identity, the same elements in the same order |
| `DriftLaws.NormalFormClean` | internal/controller/flow_deployment_drift.go:49-94 | a normal form holds no null, no raw number literal and nothing empty, at any depth |
| `DriftLaws.DefaultTestIsStable` | internal/controller/flow_deployment_drift.go:114-130 | a kept field is not mistaken for a default once its value is normalised, although the test reads raw children |
| `DriftLaws.NormalizeIdempotent` | internal/controller/flow_deployment_drift.go:49-94 | normalising a normal form changes nothing, for every tree, path and ignore list |
| `DriftLaws.SnapshotIdempotent` | internal/controller/flow_deployment_drift.go:31-47 | the same for whole snapshots |
| `DriftLaws.NormalizeBlind` | internal/controller/flow_deployment_drift.go:49-169 | trees that differ, at any depth, only in volatile, ignored or defaulted fields and in the order of lists with distinct identities have the same normal form |
| `DriftLaws.PermutedDistinct` | internal/controller/flow_deployment_drift.go:146-169 | a permutation of elements with distinct non-empty identities is ordered to the same list |
| `DriftLaws.IrrelevantField` | internal/controller/flow_deployment_drift.go:96-144 | setting, changing or removing a volatile or ignored field is invisible |
| `DriftLaws.DefaultedField` | internal/controller/flow_deployment_drift.go:114-130 | adding a field at its exact default is invisible |
| `DriftLaws.CanonicalFlowSnapshot` | internal/controller/flow_snapshot_controller.go:44-72 | unwrapping, rejection, the hashed tree and the renamed target are the canonical form |
| `DriftLaws.RenamingIsInvisible` | internal/controller/flow_snapshot_controller.go:53-72 | the hashed tree does not depend on the target name, and two names never show up as drift |
| `DriftLaws.CanonicalIff` | internal/controller/flow_snapshot_controller.go:44-72 | a snapshot is accepted if and only if it has flow contents; what is sent differs from it only in the flow's name, what is hashed does not, and a registry's wrapping makes no difference |
| `DriftSeen.NormalizeSees` | internal/controller/flow_deployment_drift.go:49-169 | two trees have one normal form if and only if they are equivalent, a relation on the decoded trees: both empty, the same boolean, text or number, objects that show the same fields with equivalent values, or lists whose non-empty elements are pairwise equivalent, in order or id by id |
| `DriftSeen.SnapshotSees` | internal/controller/flow_deployment_drift.go:31-47 | the same for whole snapshots |
| `DriftSeen.EmptyIff` | internal/controller/flow_deployment_drift.go:49-94 | exactly null, the empty string and what holds nothing else that is kept is dropped |
| `DriftSeen.BearsIdentity` | internal/controller/flow_deployment_drift.go:158-169 | a list is ordered by the kept id, or else the kept name, of its elements, never by the instance identifier |
| `DriftSeen.ChangedFieldIsSeen` | internal/controller/flow_deployment_drift.go:49-69 | setting one field is invisible if and only if it shows neither before nor after, or shows an equivalent value |
| `DriftSeen.ScalarChangeIsSeen` | internal/controller/flow_deployment_drift.go:49-94 | a kept scalar that changes, however deep, changes the normal form, a number by its value |
| `DriftSeen.DefaultByLiteral` | internal/controller/flow_deployment_drift.go:114-130 | the same number written differently from the default is seen |
| `DriftSeen.MetadataIsInvisible` | internal/controller/flow_deployment_drift.go:96-112 | registry metadata, the flow's own name and every identifier, coordinate and component state are invisible |
| `DriftSeen.OtherFieldsShow` | internal/controller/flow_deployment_drift.go:96-144 | any other non-empty field that is not ignored or defaulted shows, and removing it is seen |
| `DriftSeen.DefaultsAreInvisible` | internal/controller/flow_deployment_drift.go:114-130 | adding a field at the default NiFi fills in is invisible, for every such field |
| `DriftSeen.CoversIff` | internal/controller/flow_deployment_drift.go:132-144 | an ignore entry, padded or prefixed, covers exactly its field and the paths that end in it after a dot |
| `DriftDiff.RenderExample` | internal/controller/flow_deployment_drift.go:187-225 | how a reported location is shown |
| `DriftDiff.DifferencesExact` | internal/controller/flow_deployment_drift.go:171-218 | the uncapped list holds exactly the locations where the trees have the same shape on the way and disagree there |
| `DriftDiff.UnequalDisagree` | internal/controller/flow_deployment_drift.go:171-218 | unequal trees without null fields disagree somewhere |
| `DriftDiff.NoDifferencesIffEqual` | internal/controller/flow_deployment_drift.go:171-218 | without null fields, no difference is found if and only if the trees are equal |
| `DriftDiff.NullFieldGoesUnreported` | internal/controller/flow_deployment_drift.go:180-194 | a null field against a missing one goes unreported, so the no-null hypothesis is needed |
| `DriftRun.NormalizeFlowValue` | internal/controller/flow_deployment_drift.go:49-94 | the looping normaliser computes the normal form, which another tree shares if and only if it is equivalent as a decoded tree, and which is missing exactly for empty trees |
| `DriftRun.NormalizeFlowSnapshot` | internal/controller/flow_deployment_drift.go:31-47 | a snapshot nothing of which is kept becomes the empty object |
| `DriftRun.DifferenceLog.Collect` | internal/controller/flow_deployment_drift.go:171-218 | appends the rendered differences below a path, up to the cap, and nothing else |
| `DriftRun.CompareFlowSnapshots` | internal/controller/flow_deployment_drift.go:17-29 | for decoded snapshots the report is empty if and only if the snapshots are equivalent as decoded trees (and so if their normal forms are equal), has at most 20 entries, and every entry names a real disagreement |
| `DriftRun.CappedReportIsFaithful` | internal/controller/flow_deployment_drift.go:171-218 | the cap never hides all drift and invents none |
| `ScaleDown.AddressInjective` | internal/controller/managed_cluster_scaledown.go:67-69 | equal addresses come from equal StatefulSet names and ordinals, for all names |
| `ScaleDown.ResolvePolicy` | internal/controller/managed_cluster_scaledown.go:35-56 | offload is off only when switched off, force only on an explicit OnTimeout Force, a timeout that is not positive becomes 600 seconds |
| `ScaleDown.GroupPolicy` | internal/controller/nifinodegroup_scaledown.go:17-43 | a group's own policy is used as a whole, the cluster's only without one |
| `ScaleDown.OffloadStepSafe` | internal/controller/managed_cluster_scaledown.go:104-159 | a graceful step removes the node only when OFFLOADED and lowers the count only when the node is absent or just removed |
| `ScaleDown.ReconcileSafe` | internal/controller/managed_cluster_scaledown.go:163-208 | one reconcile keeps every queued file and lets a pod go only when its node is gone, for any answers and any persisted status |
| `ScaleDown.RunKeepsFiles` | internal/controller/managed_cluster_scaledown.go:104-208 | over every interleaving of all pools with the environment, every file ever queued is still on a node of the cluster or delivered |
| `ScaleDown.RunDropsOnlyGoneNodes` | internal/controller/managed_cluster_scaledown.go:104-208 | at every step of every run pods leave only after their nodes have |
| `ScaleDown.FilesLostExactlyByForce` | internal/controller/managed_cluster_scaledown.go:126-134 | with any policy a reconcile loses files if and only if it force-removes a timed-out node that holds some |
| `ScaleDown.ForceLosesAFile` | internal/controller/managed_cluster_scaledown.go:126-134 | a concrete node stuck OFFLOADING takes its file with it |
| `ScaleDown.PoolsDoNotInterfere` | internal/controller/nifinodegroup_scaledown.go:48-88 | a reconcile of one pool leaves the nodes of other pools, and its own lower ordinals, as they were |
| `ScaleDown.PrimaryNodeZeroUntouched` | internal/controller/managed_cluster_scaledown.go:163-172 | no pool ever disconnects, offloads or removes the primary pool's first node |
| `ScaleDown.StepsDownByOne` | internal/controller/managed_cluster_scaledown.go:104-159 | an offloading step changes the count by 0 or -1 and not past desired |
| `ScaleDownSteps.SpecIsFloor` | internal/controller/managed_cluster.go:1275-1280 | no reconcile takes a pool from at or above spec.replicas to below it, and the primary pool never loses its last node |
| `ScaleDownSteps.ScalesUp` | internal/controller/managed_cluster_scaledown.go:163-172 | a pool at or below the size its spec asks for is set to it at once, without touching a node |
| `ScaleDownSteps.WithoutOffload` | internal/controller/managed_cluster_scaledown.go:163-172 | without offload a pool goes to that size in one reconcile, even when NiFi does not answer |
| `ScaleDownSteps.FairRunReachesSpec` | internal/controller/nifinodegroup_pod.go:37-42 | a fair run takes a pool that is too large to exactly spec.replicas, or to one node for the primary and none for a group when that is not positive |
| `ScaleDownSteps.CallsFollowStates` | internal/controller/managed_cluster_scaledown.go:136-158 | within its time a node is disconnected, offloaded and removed, each exactly in its state, and otherwise waited for |
| `ScaleDownSteps.ProgressNamesPhase` | internal/controller/managed_cluster_scaledown.go:136-158 | the reported progress names the node and the phase it was brought to |
| `ScaleDownSteps.StatesReadApart` | internal/controller/managed_cluster_scaledown.go:126-134 | no two documented node states read alike in the status |
| `ScaleDownSteps.ExpiredNodeGoesIff` | internal/controller/managed_cluster_scaledown.go:126-134 | a timed-out node is removed, its pod and progress with it, if and only if force is set and the call succeeds |
| `ScaleDownSteps.PersistIff` | internal/controller/managed_cluster_scaledown.go:192-208 | unchanged progress keeps its start time; a new size is written if and only if the step and the writes before it succeeded |
| `ScaleDownSteps.FreshNodeHasFullTime` | internal/controller/managed_cluster_scaledown.go:221-226 | a node taken on anew has its full time whatever the progress before it |
| `ScaleDownSteps.TimedOutIff` | internal/controller/managed_cluster_scaledown.go:126-134 | a node has timed out if and only if more than its time has passed since its recorded start |
| `ScaleDownSteps.AddressIsPodName` | internal/controller/managed_cluster_scaledown.go:67-69 | an address is the pod's name, set name and ordinal, in the headless Service's domain |
| `ScaleDown.StartTimeIsKept` | internal/controller/managed_cluster_scaledown.go:221-242 | a persisted start time stays until the address changes or the status is cleared |
| `ScaleDown.ExpiryHoldsThePool` | internal/controller/managed_cluster_scaledown.go:126-134 | under OnTimeout Fail an expired timer holds the pool and its nodes, whatever the calls answer, and stays expired |
| `ScaleDown.OffloadedNodeGoesIff` | internal/controller/managed_cluster_scaledown.go:126-151 | under OnTimeout Fail, with the calls succeeding, an OFFLOADED node is removed and the count drops if and only if its timer has not expired |
| `ScaleDown.OffloadedNodeIsHeld` | internal/controller/managed_cluster_scaledown.go:126-134 | a concrete OFFLOADED node that is held because it became so too late |
| `ScaleDown.FairRoundProgress` | internal/controller/managed_cluster_scaledown.go:136-158 | a fair round lowers the measure of nodes to remove, then node state |
| `ScaleDown.FairRunReachesDesired` | internal/controller/managed_cluster_scaledown.go:104-208 | a fair run reaches the desired size within that measure |
| `ScaleDownRun.FindClusterNodeByAddress` | internal/controller/managed_cluster_scaledown.go:210-217 | finds the first node at the address, also in a listing that repeats it, or reports that there is none |
| `ScaleDownRun.ComputeOffloadStep` | internal/controller/managed_cluster_scaledown.go:104-159 | for any listing, the outcome of the step function for the first node at the address, and exactly that node changed or removed |
| `ScaleDownRun.PoolReconciler.StoreProgress` | internal/controller/managed_cluster_scaledown.go:228-242 | writes only a changed address or phase, and reports a lost write |
| `ScaleDownRun.PoolReconciler.Reconcile` | internal/controller/managed_cluster_scaledown.go:163-208 | for any listing, the pool changes as the protocol step says, never from at or above spec.replicas to below it and straight up to it from below, and exactly the first node at the top address is called for |
| `ScaleDownRun.ReconciledView` | internal/controller/managed_cluster_scaledown.go:104-208 | on a listing with distinct addresses and ids the node list then shows the node states of the protocol step |
| `BlueGreenLaws.InventoryExact` | internal/controller/flow_deployment_bluegreen.go:468-517 | the records are those of exactly the connections that cross blue's edge, each once, in listing order, with definition, direction and port; the inventory refuses if and only if one has a source that cannot be stopped |
| `BlueGreenLaws.SwitchedRecord` | internal/controller/flow_deployment_bluegreen.go:253-311 | a switch attempt leaves its record at blue, at the candidate's port, or lost by a failed create, and nothing else |
| `BlueGreenLaws.SwitchedShape` | internal/controller/flow_deployment_bluegreen.go:223-249 | an attempt moves the switched prefix on by the first unswitched record only |
| `BlueGreenLaws.RollbackStepShape` | internal/controller/flow_deployment_bluegreen.go:371-402 | a rollback step shrinks the switched interval from its front and retries a failed create |
| `BlueGreenLaws.ReconcileKeeps` | internal/controller/flow_deployment_bluegreen.go:85-115 | every reconcile, cancelled or not, keeps the interval shape and creates no second copy of a connection; a record is lost if and only if a forward create fails after its delete, and it is the first unswitched one |
| `BlueGreenRuns.RunKeepsShape` | internal/controller/flow_deployment_bluegreen.go:199-402 | in every reachable state the switched records form an interval, a prefix while switching, without second copies; a record is lost if and only if a forward create failed before |
| `BlueGreenRuns.BoundaryConserved` | internal/controller/flow_deployment_bluegreen.go:199-402 | while no create fails, every recorded connection is live exactly once, at its recorded endpoints or at the candidate's same-named port, and nothing else recorded or created is live |
| `BlueGreenRuns.CompletedRollbackRestores` | internal/controller/flow_deployment_bluegreen.go:365-434 | a completed rollback leaves every record live exactly once at its recorded endpoints, except one if and only if a forward create failed after its delete: the first unswitched record of that reconcile |
| `BlueGreenRuns.PromotionGate` | internal/controller/flow_deployment_bluegreen.go:213-249 | Promoting is reached only with every record switched and live at the candidate; only promotion marks blue for retirement |
| `BlueGreenRuns.RetiredGroupIsUnreferenced` | internal/controller/flow_deployment_bluegreen.go:313-355 | when blue is marked for retirement, of all connections recorded or created exactly those whose external end lies in blue still reference it |
| `BlueGreenRuns.StillReferencesBlue` | internal/controller/flow_deployment_bluegreen.go:296-303 | a switched connection still references blue if and only if its external end is in blue |
| `BlueGreenRuns.LoopIsRecordedInbound` | internal/controller/flow_deployment_bluegreen.go:493-504 | a blue-to-blue loop is recorded as inbound only |
| `BlueGreenRuns.OneFlipPerReconcile` | internal/controller/flow_deployment_bluegreen.go:223-249 | a reconcile flips at most one record, and a rollback never turns forward |
| `BlueGreenRuns.SwitchDiscards` | internal/controller/flow_deployment_bluegreen.go:271-286 | switching discards queued files if and only if the drain timed out under Drop |
| `BlueGreenRuns.ForwardStepKeepsQueues` | internal/controller/flow_deployment_bluegreen.go:253-294 | under Fail a forward step discards nothing and deletes only a recorded connection whose source it stopped and whose queue was empty |
| `BlueGreenRuns.NoForwardLoss` | internal/controller/flow_deployment_bluegreen.go:253-355 | under Fail no queued file is discarded in any run up to and including promotion |
| `BlueGreenRuns.PortListingAborts` | internal/controller/flow_deployment_bluegreen.go:218-221 | a failed port listing ends the rollout without a rollback; blue is whole if and only if nothing was switched |
| `BlueGreenSteps.AttemptIff` | internal/controller/flow_deployment_bluegreen.go:253-311 | an attempt switches, waits or fails, each exactly under its condition, and stops the connection's source and nothing else |
| `BlueGreenSteps.DrainClock` | internal/controller/flow_deployment_bluegreen.go:262-286 | the drain timer starts with the first attempt and is not moved |
| `BlueGreenSteps.SwitchingTurns` | internal/controller/flow_deployment_bluegreen.go:199-249 | a switching reconcile turns to promotion, turns back or stays, each exactly under its condition |
| `BlueGreenSteps.PromotionCompletesIff` | internal/controller/flow_deployment_bluegreen.go:313-355 | a promotion is complete if and only if the candidate was read, started and renamed and the success recorded; then the candidate is live and blue is to be retired |
| `BlueGreenSteps.PromotionRestartsSources` | internal/controller/flow_deployment_bluegreen.go:336-345 | after promotion the source of every inbound record runs again |
| `BlueGreenSteps.RollbackRestartsSources` | internal/controller/flow_deployment_bluegreen.go:404-419 | after a completed rollback the source of every record runs again |
| `BlueGreenSteps.ReadinessGate` | internal/controller/flow_deployment_bluegreen.go:137-174 | a candidate goes on if and only if it is ready and is given up, and deleted, if and only if its time is over |
| `BlueGreenSteps.TrafficMovesOnlyWhenReady` | internal/controller/flow_deployment_bluegreen.go:85-174 | in every run the boundary is touched only after the candidate was found ready |
| `BlueGreenSteps.BlueDeletedOnlyAfterPromotion` | internal/controller/flow_deployment_bluegreen.go:437-466 | in every run the live group is deleted only after a promotion |
| `BlueGreenWrites.LostWriteBreaksBoundary` | internal/controller/flow_deployment_bluegreen.go:199-402 | from a whole boundary, losing the status write of any reconcile breaks it if and only if the reconcile deletes a recorded connection while switching, or changes one while rolling back |
| `BlueGreenWrites.LostSwitchExample` | internal/controller/flow_deployment_bluegreen.go:223-249 | a concrete rollout whose boundary breaks so |
| `BlueGreenWrites.RetryDuplicates` | internal/controller/flow_deployment_bluegreen.go:371-402 | after a lost write of a restored connection the next attempt leaves both copies live with the recorded definition, only one of them on record |
| `BlueGreenWrites.CopySurvivesRollback` | internal/controller/flow_deployment_bluegreen.go:365-434 | no reconcile of a rollback removes a connection no record names, so the second copy outlives the rollback |
| `BlueGreenWrites.LostRestoreExample` | internal/controller/flow_deployment_bluegreen.go:365-434 | a concrete rollback that completes with two copies of one connection |
| `BlueGreenProgress.CancelHolds` | internal/controller/flow_deployment_readiness.go:187-190 | while the rollout stays cancelled a rollback does not move |
| `BlueGreenProgress.RollbackCompletesInTime` | internal/controller/flow_deployment_bluegreen.go:365-434 | with the calls succeeding and cancel released a rollback completes in as many rounds as there are switched records, plus one, whatever the environment does between them |
| `BlueGreenProgress.PromotedInTime` | internal/controller/flow_deployment_bluegreen.go:199-355 | with queues drained and the calls succeeding a switching rollout is promoted in as many rounds as there are unswitched records, plus two |
| `Composition.RolloutFate` | internal/controller/flow_snapshot_controller.go:326-443 | in one reconcile of its deployment a BlueGreen rollout goes on, is abandoned, or nothing changes, each exactly under its condition |
| `Composition.ReconcileRefines` | internal/controller/flow_deployment_bluegreen.go:85-115 | while it goes on, the deployment status and the protocol stay coupled: same live group, same group to retire, under way together |
| `Composition.FailedCandidateComesToRest` | internal/controller/flow_deployment_bluegreen.go:404-434 | when the protocol's last rollback step ends a rollout, the deployment is at rest for the generation and digest that failed, and no later reconcile for that target changes anything |
| `Composition.AbandonedBoundary` | internal/controller/flow_snapshot_controller.go:386-406 | an abandoned rollout's boundary is at blue if and only if no record was switched and none lost |
| `Composition.AbandonedExample` | internal/controller/flow_snapshot_controller.go:386-406 | a concrete drift-started rollout that is marked in sync with its connection at the candidate |
| `BlueGreenRuns.LookupFailureDuplicates` | internal/controller/flow_deployment_bluegreen.go:380-390 | the restored connection stands alone if and only if the lookup of the green one succeeded |
| `BlueGreenRuns.SoleNeedsLookup` | internal/controller/flow_deployment_bluegreen.go:380-390 | the restoring step leaves no second copy if and only if that lookup succeeded |
| `BlueGreenRuns.LiveGroupWhileActive` | internal/controller/flow_deployment_bluegreen.go:329-335 | while a rollout is active the deployment names blue if and only if no promotion failed at the rename |
| `BlueGreenRuns.LiveGroupAfterRollback` | internal/controller/flow_deployment_bluegreen.go:329-434 | after a completed rollback the deployment names blue if and only if no promotion failed at the rename; otherwise it names a deleted group |
| `BlueGreenRuns.RenameFailureExample` | internal/controller/flow_deployment_bluegreen.go:329-434 | a concrete run that ends so |
| `BlueGreenController.PortNameToId` | internal/controller/flow_deployment_bluegreen.go:556-568 | maps exactly the named ports that have an id |
| `BlueGreenController.Controller.InventoryBoundary` | internal/controller/flow_deployment_bluegreen.go:468-517 | the loop yields the inventory or refuses with it |
| `BlueGreenController.Controller.SwitchRecord` | internal/controller/flow_deployment_bluegreen.go:253-311 | updates record and canvas exactly as the switch step; a switched record's new connection ends at the candidate's port of the recorded name, with the other end and the settings as recorded |
| `BlueGreenController.Controller.RecordBoundary` | internal/controller/flow_deployment_bluegreen.go:203-211 | the first switching reconcile takes the inventory or gives the rollout up |
| `BlueGreenController.Controller.SwitchBoundary` | internal/controller/flow_deployment_bluegreen.go:199-249 | one switching reconcile takes the protocol step |
| `BlueGreenController.Controller.PromoteCandidate` | internal/controller/flow_deployment_bluegreen.go:313-355 | promotion takes the protocol step, with its partial failures |
| `BlueGreenController.Controller.RollBackBoundary` | internal/controller/flow_deployment_bluegreen.go:365-434 | one rollback reconcile takes the protocol step |
| `BlueGreenController.Controller.ReconcileRollout` | internal/controller/flow_deployment_bluegreen.go:85-115 | the dispatcher takes exactly the protocol step |
| `RolloutLaws.TrimSpares` | internal/controller/flow_deployment_history.go:58-87 | a trim keeps the newest entries up to the limit, deletes exactly the ConfigMaps only dropped entries name, spares LastSuccessful's, and changes none |
| `RolloutLaws.FailureOnRecord` | internal/controller/flow_deployment_history.go:40-56 | a failure is the newest entry of the history, with its version, digest and reason, and the history keeps at most the configured number of entries, or five |
| `RolloutLaws.FailureBookedOnce` | internal/controller/flow_deployment_history.go:48-56 | the same failure booked again adds no entry |
| `RolloutLaws.RecordKeeps` | internal/controller/flow_deployment_history.go:18-38 | recording a success leaves it readable under its ConfigMap with exactly its bytes |
| `RolloutLaws.RolledBackKeeps` | internal/controller/flow_deployment_rollout.go:167-206 | a completed rollback can always be recorded, restores LastSuccessful's digest and bytes, and completes the rollback on record |
| `RolloutLaws.FailureKeeps` | internal/controller/flow_snapshot_controller.go:602-674 | failure handling keeps the invariant, sends at most one request and none for a failed rollback, so it nests at most once |
| `RolloutLaws.RollbackSendsLastSuccess` | internal/controller/flow_snapshot_controller.go:602-674 | a rollback is sent if and only if no retry is left, rollback is enabled, something succeeded and NiFi accepts; what is sent is the bytes of the last success |
| `RolloutLaws.RollbackUnavailableIffNoSuccess` | internal/controller/flow_deployment_history.go:126-136 | a failed rollout finds no rollback snapshot if and only if nothing ever succeeded |
| `RolloutLaws.ReconcileKeeps` | internal/controller/flow_snapshot_controller.go:310-481 | every reconcile keeps the availability and retry invariant, for any spec changes and answers |
| `RolloutLaws.RollbackTargetAvailable` | internal/controller/flow_snapshot_controller.go:512-547 | in every run LastSuccessful and the checkpoint of a request in flight are readable with the right bytes, no completed request misses its snapshot, successful history entries are readable, retries stay in budget |
| `RolloutRuns.CompletedRollbackIsQuiet` | internal/controller/flow_deployment_rollout.go:167-211 | however a rollback completes, nothing is in flight and the target on record is the one that failed: in place the one named when the rollback was sent, BlueGreen the spec's generation and digest |
| `RolloutRuns.QuiescentAfterRollback` | internal/controller/flow_snapshot_controller.go:320-377 | from then on, while generation and digest stay the same, no run imports, replaces or starts anything |
| `RolloutSteps.RollbackRecordTold` | internal/controller/flow_snapshot_controller.go:654-674 | a reconcile leaves the rollback on record alone, forgets it, puts one on record for this generation and the target of the request it learns failed, or completes one |
| `RolloutSteps.RollbackNamesFailedTarget` | internal/controller/flow_deployment_rollout.go:174-196 | in every run from a fresh deployment the rollback on record is for the generation and digest of a rollout that failed earlier in the run |
| `RolloutSteps.UndoingStep` | internal/controller/flow_snapshot_controller.go:512-547 | a rollback under way sends nothing and comes to rest at the last success exactly when NiFi is done and the calls go through |
| `RolloutSteps.FailureIsUndone` | internal/controller/flow_snapshot_controller.go:602-674 | the reconcile that sees the failure sends the last success's bytes once and puts the failed request's target on record |
| `RolloutSteps.FailedTargetComesToRest` | internal/controller/flow_deployment_rollout.go:167-211 | from the failing reconcile on, while generation and digest stay, exactly one request is sent and every state is rolling that target back or at rest for it |
| `RolloutSteps.FailedTargetRestsInTwo` | internal/controller/flow_deployment_rollout.go:167-211 | two served reconciles after the failure the last success is deployed again and a further reconcile for the failed target changes nothing |
| `RolloutDeploys.RestingDeploysIff` | internal/controller/flow_deployment_rollout.go:208-211 | a wanted target reaches NiFi if and only if it is not the generation and digest last rolled back, its checkpoint can be stored and the calls succeed |
| `RolloutDeploys.StopsFirst` | internal/controller/flow_deployment_rollout.go:48-82 | with StopAllThenApply the first reconcile sends nothing and is prepared exactly when the group was stopped |
| `RolloutDeploys.StoppedThenSent` | internal/controller/flow_snapshot_controller.go:434-480 | and the next one sends the spec's bytes with their checkpoint stored |
| `RolloutDeploys.PollReports` | internal/controller/flow_snapshot_controller.go:483-510 | a poll takes over NiFi's word on the request and nothing else |
| `RolloutDeploys.FinishedDeploys` | internal/controller/flow_snapshot_controller.go:512-556 | a finished request deploys its target or hands it to the readiness gate |
| `RolloutDeploys.GateDeploysIff` | internal/controller/flow_deployment_readiness.go:82-110 | the gate deploys the spec's target if and only if it is ready, the last check passes and the snapshot can be recorded |
| `RolloutDeploys.TimeoutGivesUpIff` | internal/controller/flow_deployment_readiness.go:112-125 | a gate that times out starts over within the retry budget and gives up beyond it, and never deploys |
| `RolloutDeploys.TargetIsDeployed` | internal/controller/flow_snapshot_controller.go:310-556 | a wanted target is sent once, polled, completed, gated when asked for, put down as deployed and last success, and then left alone |
| `RolloutDeploys.InSyncDeploys` | internal/controller/flow_deployment_rollout.go:97-134 | marking in sync succeeds if and only if the success can be recorded; it deploys what it names, with entry and bytes on record, and forgets only the rollback of an older generation |
| `RolloutDeploys.DeployedStays` | internal/controller/flow_snapshot_controller.go:379-432 | a deployed target stays as it is while the live flow matches or is only reported on |
| `RolloutDeploys.FirstImport` | internal/controller/flow_snapshot_controller.go:346-363 | a deployment without a group is imported, and what was imported is put down as deployed |
| `RolloutDeploys.ImportedDeploys` | internal/controller/flow_snapshot_controller.go:414-432 | the reconcile after an import records the success if and only if its calls go through |
| `RolloutDeploys.PromotionDeploys` | internal/controller/flow_deployment_bluegreen.go:313-355 | a promotion puts the spec's target down in the candidate group if and only if it can be recorded, and the next reconcile retires blue |
| `RolloutDeploys.BlueGreenOutcomes` | internal/controller/flow_deployment_bluegreen.go:85-115 | what every other outcome of a BlueGreen step leaves in the status |
| `RolloutDeploys.RetriesIff` | internal/controller/flow_deployment_readiness.go:171-184 | a failed request is tried again if and only if the budget lasts: one retry counted, the rollout starts over, no request left |
| `RolloutDeploys.FailedRequestCloses` | internal/controller/flow_snapshot_controller.go:602-634 | without retry or rollback the failed request stays on record, closed exactly when NiFi let it be deleted |
| `RolloutDeploys.CancelDrops` | internal/controller/flow_deployment_readiness.go:187-202 | cancelling an in-place rollout drops its record and its request and nothing else |
| `RolloutDeploys.UnstartedRollbackIsForgotten` | internal/controller/flow_snapshot_controller.go:525-547 | a finished rollback is at rest if and only if the restored flow can be started; otherwise the failed target is prepared and sent again |
| `RolloutTruth.DeployedIsSent` | internal/controller/flow_deployment_readiness.go:82-158 | whenever a rollout in flight ends in sync or rolled back, the digest put down as deployed is that of the flow sent if and only if the source did not change during the readiness wait |
| `RolloutTruth.ReconcileTells` | internal/controller/flow_snapshot_controller.go:310-481 | every reconcile records nothing or marks one digest as deployed and last success, with the bytes of that digest |
| `RolloutTruth.DeployedFlowsWereSent` | internal/controller/flow_deployment_readiness.go:82-158 | the same in every run from a fresh deployment |
| `RolloutTruth.ReadinessDeploysUnsent` | internal/controller/flow_deployment_readiness.go:82-90 | otherwise, for a new source and for one back at the last success, the unsent digest is put down as deployed and nothing is sent |
| `RolloutRuns.LostWriteLosesTarget` | internal/controller/flow_deployment_rollout.go:108-133 | losing the status write of a success loses the rollback target if and only if the old ConfigMap is one the trim deleted |
| `RolloutRuns.LimitOneLosesTarget` | internal/controller/flow_deployment_rollout.go:108-133 | with a history limit of one every success under another name does so |
| `RolloutRuns.NamesCollideIff` | internal/controller/flow_deployment_history.go:151-173 | two digests share a ConfigMap name if and only if they agree on twelve hex digits; the name is the deployment's, the word history and those digits, and has at most 63 characters |
| `RolloutRuns.CollisionStopsReplace` | internal/controller/flow_deployment_history.go:89-124 | a prepared rollout reaches NiFi if and only if its name is free or holds its snapshot, and the calls succeed |
| `RolloutController.Retained` | internal/controller/flow_deployment_history.go:67-75 | collects the names of the kept entries and of LastSuccessful |
| `RolloutController.DeleteUnretained` | internal/controller/flow_deployment_history.go:76-86 | deletes exactly the other names of the removed entries |
| `RolloutController.Deployment.TrimHistory` | internal/controller/flow_deployment_history.go:58-87 | is the trim of the specification |
| `RolloutController.Deployment.Persist` | internal/controller/flow_deployment_history.go:89-124 | creates a missing ConfigMap and never overwrites one |
| `RolloutController.Deployment.Record` | internal/controller/flow_deployment_history.go:18-38 | records a success or changes nothing |
| `RolloutController.Deployment.MarkSynced` | internal/controller/flow_deployment_rollout.go:97-134 | marks the deployment in sync and writes the status, or changes nothing |
| `RolloutController.Deployment.MarkRestored` | internal/controller/flow_deployment_rollout.go:167-206 | marks the rollback complete and writes the status, or changes nothing |
| `RolloutController.Deployment.RetryIfAllowed` | internal/controller/flow_deployment_readiness.go:171-184 | retries if and only if the budget allows it |
| `RolloutController.Deployment.HandleFailed` | internal/controller/flow_snapshot_controller.go:602-674 | takes the failure step and always ends in a status write |
| `RolloutController.Deployment.Poll` | internal/controller/flow_snapshot_controller.go:483-510 | persists the polling step |
| `RolloutController.Deployment.Finish` | internal/controller/flow_deployment_readiness.go:127-158 | persists the finish step; an unrecorded success leaves the status as it was |
| `RolloutController.Deployment.Complete` | internal/controller/flow_snapshot_controller.go:512-556 | persists the completion step |
| `RolloutController.Deployment.Await` | internal/controller/flow_deployment_readiness.go:82-123 | persists the readiness step |
| `RolloutController.Deployment.Start` | internal/controller/flow_deployment_rollout.go:48-82 | persists the preparation step and sends when prepared |
| `RolloutController.Deployment.Send` | internal/controller/flow_snapshot_controller.go:447-480 | persists checkpoint and request |
| `RolloutController.Deployment.FinishSwitchBack` | internal/controller/flow_deployment_bluegreen.go:420-433 | persists the end of a BlueGreen rollback, with the spec's generation and the rollout's own version and digest as what failed |
| `RolloutController.Deployment.ReconcileDeployment` | internal/controller/flow_snapshot_controller.go:310-481 | one reconcile persists exactly the protocol step |
| `Policy.MergeTenantRefs` | internal/controller/nifipolicy_controller.go:275-292 | the loop computes the merge of the specification |
| `Policy.RemoveTenantRefs` | internal/controller/nifipolicy_controller.go:294-308 | the loop computes the removal of the specification |
| `Policy.TenantSetContainsAll` | internal/controller/nifipolicy_controller.go:310-324 | true if and only if every named desired tenant is named by the existing list |
| `Policy.SameTenantSet` | internal/controller/tenants.go:78-92 | true if and only if the lengths agree and every right-hand id occurs on the left |
| `Policy.MergeExact` | internal/controller/nifipolicy_controller.go:275-292 | a merge keeps the existing references in place, names exactly the union, and adds no duplicate |
| `Policy.MergeSettles` | internal/controller/nifipolicy_controller.go:270-292 | after a merge no update is needed, and merging again changes nothing |
| `Policy.RemoveExact` | internal/controller/nifipolicy_controller.go:294-308 | a removal keeps exactly the references not named |
| `Policy.SameTenantsExact` | internal/controller/tenants.go:78-92 | with a duplicate-free right-hand list the test is set equality |
| `Policy.SameTenantsNeedsDistinct` | internal/controller/tenants.go:78-92 | with duplicates it is not |
| `Policy.SameTenantsAfterRemoval` | internal/controller/nifipolicy_controller.go:186-191 | where deletion uses it, it holds if and only if nothing was removed, even with duplicates |
| `PolicyRuns.ReconcileGrants` | internal/controller/nifipolicy_controller.go:118-144 | a reconcile grants exactly the earlier and the desired tenants and leaves nothing to update |
| `PolicyRuns.GrantsExactlyIff` | internal/controller/nifipolicy_controller.go:118-144 | it grants exactly the desired tenants if and only if nobody else was granted |
| `PolicyRuns.DeleteRevokesIff` | internal/controller/nifipolicy_controller.go:154-210 | a deletion revokes a tenant if and only if its object deletes, names the live policy and recorded the tenant |
| `PolicyRuns.PolicyDeletedOnlyWhenOwned` | internal/controller/nifipolicy_controller.go:186-191 | the policy is deleted only when the object recorded every tenant in it |
| `PolicyRuns.ReconcileRecords` | internal/controller/nifipolicy_controller.go:387-395 | a saved reconcile records the policy and exactly the desired tenants for its own object; one with nothing to add does not change the policy |
| `PolicyRuns.DeleteAfterReconcile` | internal/controller/nifipolicy_controller.go:118-210 | deleting an object after a reconcile takes back exactly the tenants it asked for and forgets the object |
| `PolicyRuns.ForgottenOnlyByDeletion` | internal/controller/nifipolicy_controller.go:154-210 | a deletion touches no other object's record |
| `PolicyRuns.UnrecordedTenantsStay` | internal/controller/nifipolicy_controller.go:39-210 | over any interleaving of reconciles and deletions of many objects, a tenant none records stays granted and its policy stays |
| `PolicyRuns.DroppedTenantStays` | internal/controller/nifipolicy_controller.go:118-144 | a tenant dropped from a spec stays granted in every later run in which no object records it |
| `PolicyRuns.SharedTenantComesBack` | internal/controller/nifipolicy_controller.go:118-210 | a shared tenant is lost with one object and granted again by the other's reconcile |
| `PolicyRuns.PolicyController.ReconcilePolicy` | internal/controller/nifipolicy_controller.go:82-144 | one reconcile changes policy and record as the step says |
| `PolicyRuns.PolicyController.DeletePolicy` | internal/controller/nifipolicy_controller.go:154-210 | one deletion changes policy and record as the step says |
| `Overrides.ValidatedIsClean` | internal/controller/managed_cluster_overrides.go:185-196 | a map is accepted if and only if its names are proper and separator-free, its values are on one line, and nothing in it is operator-managed |
| `Overrides.ResolveProperties` | internal/controller/managed_cluster_overrides.go:141-163 | succeeds if and only if every Secret entry is accepted; the result is the Secrets merged in order under the inline entries |
| `Overrides.LayeredExact` | internal/controller/managed_cluster_overrides.go:144-156 | a merged entry exists if and only if some Secret has its key, with the value of the last one |
| `Overrides.ResolvedIsClean` | internal/controller/managed_cluster_overrides.go:141-163 | the resolved map is safe to render, and only an inline entry can name an operator-managed property |
| `Overrides.RenderPropertiesFileLines` | internal/controller/managed_cluster_overrides.go:200-217 | the body is one line per entry in sorted key order |
| `Overrides.RoundTrip` | internal/controller/managed_cluster_overrides.go:200-217 | splitting and parsing the rendered body returns the map, for every clean map |
| `Overrides.RenderInjective` | internal/controller/managed_cluster_overrides.go:200-217 | equal bodies come from equal maps |
| `OverridesScript.Node.RestoreDropped` | internal/controller/managed_cluster_overrides.go:70-79 | the first loop restores exactly the recorded keys no longer overridden and removes the record |
| `OverridesScript.Node.ApplyConfigOverrides` | internal/controller/managed_cluster_overrides.go:68-91 | one run of the script is one start of the specification |
| `OverridesScript.SelectsKey` | internal/controller/managed_cluster_overrides.go:73-76 | for a valid name the prefix match selects exactly the lines of that key |
| `OverridesScript.NamelessLineIsSkipped` | internal/controller/managed_cluster_overrides.go:80-91 | a line without a key is neither applied nor recorded |
| `OverridesScript.StartKind` | internal/controller/managed_cluster_overrides.go:68-91 | what one start does to the lines of each key, and to the record |
| `OverridesScript.HistoryIndependent` | internal/controller/managed_cluster_overrides.go:60-91 | after any sequence of starts the file is the image's lines overridden by the last map, for every key the operator does not write, and the record is its domain |
| `OverridesScript.SameLastSameFile` | internal/controller/managed_cluster_overrides.go:60-91 | two nodes with the same last overrides agree on those keys, whatever came before |
| `OverridesScript.DroppedOverrideHidesOperator` | internal/controller/managed_cluster_overrides.go:70-79 | for a key no longer overridden the operator's lines survive a start if and only if the key was not overridden at the start before or the image ships the same lines |
| `RemotePorts.UpdateSettlesIff` | internal/controller/nifiremoteprocessgroup_controller.go:754-791 | an update leaves the port with every field the configuration sets and the others as they were; it is then as configured if and only if compression need not be turned off |
| `RemotePorts.PassSettlesIff` | internal/controller/nifiremoteprocessgroup_controller.go:280-341 | after a pass a port has every field its configuration sets and its transmission state unless it is waited on; the next pass makes no call if and only if compression need not be turned off |
| `RemotePorts.DiffersIff` | internal/controller/nifiremoteprocessgroup_controller.go:754-775 | an update is sent exactly for a port that lacks a field its configuration sets or differs in compression |
| `RemotePorts.NoCallIff` | internal/controller/nifiremoteprocessgroup_controller.go:280-341 | a pass makes no call for a port if and only if it is as configured and transmits as it should or cannot yet |
| `RemotePorts.WaitNamesReason` | internal/controller/nifiremoteprocessgroup_controller.go:280-335 | a wait says that no port of the name is discovered, or that the first one has no connection to transmit over |
| `RemotePorts.CompressionOffNeverSettles` | internal/controller/nifiremoteprocessgroup_controller.go:280-341 | otherwise every pass stops, updates and restarts the port |
| `RemotePorts.PassAllExact` | internal/controller/nifiremoteprocessgroup_controller.go:343-354 | each configured port is settled by its own configuration and every other port is untouched |
| `RemotePorts.WaitsExact` | internal/controller/nifiremoteprocessgroup_controller.go:280-335 | nothing is waited on if and only if every configured port is discovered and can reach its transmission state |
| `RemotePorts.PassConverges` | internal/controller/nifiremoteprocessgroup_controller.go:264-355 | on success with nothing waited on every configured port has its transmission state, every field its configuration sets, the others as they were, and compression on if it was on or is asked for |
| `RemotePorts.Reconciler.Switch` | internal/controller/nifiremoteprocessgroup_controller.go:357-365 | starts or stops one port with the current revision |
| `RemotePorts.Reconciler.Configure` | internal/controller/nifiremoteprocessgroup_controller.go:286-319 | edits one port, stopped first, with current revisions |
| `RemotePorts.Reconciler.ReconcileOne` | internal/controller/nifiremoteprocessgroup_controller.go:280-341 | every call carries the current revision and no update reaches a transmitting port; without errors exactly the configured port changes, as specified |
| `RemotePorts.Reconciler.ReconcilePorts` | internal/controller/nifiremoteprocessgroup_controller.go:264-355 | on success both directions are exactly the specified passes, what is waited on is listed, and with nothing waited on every configured port has reached its configuration |

## Left out

- JSON decoding and encoding, SHA-256 and the checksums: trees and texts are compared instead, and a recorded connection's definition is kept as a value.
- Kubernetes and HTTP clients, watches, events, conditions and requeue times: plumbing around the modelled steps.
- Whether a repeated failure report is skipped because the status already says the same: a report counts as a status write.
- The readiness evaluation, the queue draining before StopAllThenApply and the drift check inside a rollout: their outcomes are answers of the step, and the drift check itself is modelled in `Drift`.
- BlueGreen readiness tolerance and the scheduling of the blue group on rollback: they do not touch boundary connections.
- Runs of the composed machine: `Composition` relates the BlueGreen protocol and the deployment's status one reconcile at a time, and the run theorems are about each of the two.
- Aliasing of status pointers: the status attributes of `RolloutController.Deployment` are values.
- Interrupted runs of the override script, the logback part of the script and the operator's own property writes beyond which keys they touch.
- Autoscaler, backup, restore, validate-only, TLS and StatefulSet rendering: mostly field copying that would add easier members.
- ScaleDown.FairRunReachesDesired: fairness is a hypothesis on rounds (NiFi finishes each transition before the timeout), because under OnTimeout Fail an expired timer holds the pool for good.
