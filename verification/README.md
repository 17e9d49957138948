# Federation control plane: a verified model

This project models four connected pieces of the federation control plane and proves what they are for.

- **Replica planner.** `Plan` splits a number of replicas over clusters under minimums, maximums, weights,
  estimated capacities and the rule that running replicas stay where they are. The imperative algorithm is in
  `Planner.dfy`; `PlannerPromise.dfy` says what a plan promises its caller, and `PlannerKeeps.dfy` proves it;
  `PlannerModel.dfy` says what each step does to the planning state, and the other `Planner*` files
  prove conservation, bounds, work conservation, fairness, priorities, pass counts, the meaning of the overflow,
  independence of the order of clusters, and when 64-bit arithmetic suffices. `Scheduler.dfy` turns plans into
  schedules and writes them to placements and overrides.
- **Delaying deliverer.** A binary heap with an exact index of key positions (`DelivererHeap.dfy`), the loop that
  delivers, sleeps and accepts requests (`Deliverer.dfy`), and the delivery guarantees of whole runs
  (`DeliveryLog.dfy`).
- **Propagation.** Placement, operations, the parallel updater and the record of propagated versions
  (`Placement.dfy`, `Sync.dfy`, `Updater.dfy`, `PropagatedVersion.dfy`), whole runs with arbitrarily stale caches
  (`SyncRun.dfy`), progress of repeated rounds (`Convergence.dfy`), and the guard against acting on a stale record
  (`RecordGuard.dfy`).
- **Informer and deletion.** The map of running target informers and their stop channels (`Informer.dfy`), the
  finalizer protocol (`Deletion.dfy`), and the life of a template as a whole (`DeletionRun.dfy`).

API servers and stores are maps, time is an integer, the name hash is an arbitrary function, resource versions are
numbers with 0 for the empty string. Failures, timeouts and orders of arrival are parameters, so a statement about a
method or a run holds for all of them. Sorting may return any sorted arrangement: `Plan` hands out the one it used as
the ghost result `order`, and everything is proved for each.

## Where the code and what is written about it differ

- The planner's comment puts ties in order of cluster name; the code orders them by hash.
- The planner's comment expects a logarithmic number of passes. One cluster can need as many passes as there are
  replicas (`OneClusterNeedsTotalPasses`); the bound that does hold is linear (`PlanningIsLinear`).
- An estimated capacity is a difference that is never clamped. The planned count is negative exactly where the
  capacity is (`NegativeExactlyWhereCapacityIs`).
- The comment above `EnsureFinalizers` says that orphaning leads to a cascading deletion; the code orphans when the
  orphan finalizer is present.
- A new propagated version is created with its status, and what creation returned is then written as the status. A
  server that clears the status of created objects, as the declared status subresource makes it do, thereby gets an
  empty record, and every selected cluster is updated once more (`ClearedRecordRepeatsWork`; `AfterFullSuccess` gives
  the exact condition).
- Duplicate cluster names hide a missing override (`DuplicateNamesHideMissingCluster`), and nothing else does
  (`AllNamedIffUnique`).
- A placement that lists no clusters is stored without its list, which never compares equal to an empty one, so an
  empty schedule is written again each time (`ReconcilePlacement`).
- A negative capacity can leave the first cluster short of its minimum while later ones get theirs
  (`NegativeCapacityUpsetsPriority`).
- At a weight sum of 2^32 the sum inside a share can pass the largest int64; the share comes out right only because it
  wraps around twice (`WeightBoundIsExact`, `SurvivalBoundIsExact`).
- A cluster deletion seen only as a tombstone leaves its informer running (`ObserveVanish`).
- The pending mark is cleared by any event for a known record, not only by that of the update. A status update that is
  applied but answered with an error defeats it (`LostReplyDefeatsGuard`), and so does a relist
  (`RelistDefeatsGuard`); `GuardFailsIffClearedEarly` says exactly when the guard fails.
- A stored record without cluster versions reads back with a nil list, which never compares equal to the empty list
  just made. It is marked and written although nothing changes, and no event clears the mark
  (`UnchangedRecordBlocks`); so it goes with a record whose status the server kept when it was created
  (`KeptStatusBlocks`). `BlockedIffStanding` says exactly when a mark blocks reconciling.
- That every store has synced does not mean that it has seen the latest write, and unregistering a cluster deletes
  nothing in it. An object can outlive its template if the finalizer is released while a creation that timed out is
  on its way (`LateWriteOutlivesTemplate`), before a store has shown the object (`UnseenObjectOutlivesTemplate`) or
  while the cluster that holds it is not registered (`DepartedObjectOutlivesTemplate`), and exactly then
  (`OutlivesExactlyWhenExposed`).

## Model

| member | source | states |
|---|---|---|
| Planner.GatherPreferences | pkg/controller/util/planner/planner.go:87-97 | the loop gathers a preference for every cluster with its own or the "*" entry and plans zero for the others |
| PlannerOrder.GatheredFacts | pkg/controller/util/planner/planner.go:74-97 | each available cluster occurs once, with its own preferences if it has any and the "*" ones otherwise, and with its hash |
| Planner.SortPreferences | pkg/controller/util/planner/planner.go:38-98 | the result is a permutation in which heavier clusters come first, and of equally heavy ones those with smaller hashes |
| Planner.AssignMinimums | pkg/controller/util/planner/planner.go:100-111 | the loop over the maps computes the minimum phase |
| Planner.Preallocate | pkg/controller/util/planner/planner.go:117-140 | the loop over the three maps computes the preallocation phase |
| Planner.AssignCluster | pkg/controller/util/planner/planner.go:173-197 | of the wanted replicas the maximum is applied first, what then exceeds the capacity is spilled, and full means anything was cut |
| Planner.DistributeOnce | pkg/controller/util/planner/planner.go:157-215 | one loop iteration over the mutable maps computes one distribution pass |
| Planner.Distribute | pkg/controller/util/planner/planner.go:142-216 | the loop ends, and in the state the passes lead to |
| Planner.TrimOverflow | pkg/controller/util/planner/planner.go:220-230 | each overflow is lowered to the unplaced amount, and dropped exactly if that leaves nothing |
| Planner.Plan | pkg/controller/util/planner/planner.go:67-232 | in terms of the call alone: the plan covers exactly the available clusters, each within its maximum and capacity; places at most the total, and less only when every weighted cluster is at its maximum or, with an overflow reported, at its capacity; serves all minimums if and only if they fit and heavier clusters first; without rebalancing keeps all running replicas if and only if they fit, and moves one only when the whole total is placed; and shares by weight when nothing limits it. Plan and overflow are those of the planned state over the sorted preferences |
| PlannerKeeps.PlacedAndUnplaced | pkg/controller/util/planner/planner.go:67-232 | summed over the available clusters as the caller lists them, the plan and the unplaced replicas are the total |
| PlannerKeeps.PlannedFulfils | pkg/controller/util/planner/planner.go:67-232 | for every arrangement the sort may produce, the plan keeps all of these promises to the caller |
| PlannerKeeps.MinimumsKept | pkg/controller/util/planner/planner.go:100-111 | while no capacity is negative, every available cluster gets its minimum, as far as its capacity allows, if and only if these add up to at most the total |
| PlannerKeeps.HeavierServedFirst | pkg/controller/util/planner/planner.go:43-47 | while no capacity is negative, if a cluster misses its minimum every lighter one, or one as heavy with a larger hash, gets nothing |
| PlannerKeeps.RunningFloorsKept | pkg/controller/util/planner/planner.go:113-140 | without rebalancing, and while no capacity is negative, every available cluster keeps its minimum and what runs there as far as maximum and capacity allow, if and only if these floors add up to at most the total |
| PlannerKeeps.MovingKept | pkg/controller/util/planner/planner.go:113-140 | without rebalancing a running replica that could stay is given up only when the whole total is placed |
| PlannerKeeps.SharesKept | pkg/controller/util/planner/planner.go:155-216 | with no maximum, no capacity and nothing to be kept, every available cluster gets its minimum and its share by weight of the rest, up to rounding |
| PlannerOrder.PlanIgnoresClusterOrder | pkg/controller/util/planner/planner.go:43-98 | for any two listings of the clusters, and any two sorts, the outcome is the same when no two clusters of equal weight share a hash |
| PlannerPass.ShareBounds | pkg/controller/util/planner/planner.go:169-170 | the share is the exact share rounded up: at least it, and over it by less than one replica |
| PlannerPass.AssignEffect | pkg/controller/util/planner/planner.go:168-205 | one assignment never takes replicas back, pays for what it adds, uses preallocation first, respects maximum and capacity, and gives the full share unless the cluster ends full |
| PlannerPass.AssignKeepsSane | pkg/controller/util/planner/planner.go:166-214 | after every single assignment planned plus remaining is the total, nothing is negative and all bounds hold; the loop's measure drops with the first modification |
| PlannerPass.PassFacts | pkg/controller/util/planner/planner.go:157-215 | a pass keeps the invariant, never lowers a count, drops only full clusters, and if it modifies nothing every weighted cluster in it is full |
| PlannerPass.DistributedKeeps | pkg/controller/util/planner/planner.go:155-216 | conservation, bounds and monotonicity over the whole loop, however many passes |
| PlannerPass.LinearlyManyPasses | pkg/controller/util/planner/planner.go:142-155 | at most remaining plus preallocated plus one passes |
| PlannerPass.LeftoverMeansSaturated | pkg/controller/util/planner/planner.go:155-216 | from any loop state: if replicas stay unplaced, every weighted cluster sits at its maximum or capacity |
| PlannerRounding.SharesAddUp | pkg/controller/util/planner/planner.go:169-170 | the rounded-up shares together are at least the amount to distribute |
| PlannerRounding.UnfilledPassPlacesAllButPreallocated | pkg/controller/util/planner/planner.go:144-150 | a pass that fills no cluster leaves unplaced at most the preallocation it consumed |
| PlannerRounding.FewPassesWhenRebalancing | pkg/controller/util/planner/planner.go:144-149 | without preallocation at most one pass more than there are clusters |
| PlannerFairness.PassIsFair | pkg/controller/util/planner/planner.go:166-183 | in every pass each cluster takes its proportional share up to rounding, or is full |
| PlannerFairness.UnlimitedPlanIsProportional | pkg/controller/util/planner/planner.go:55-216 | without limits, and with rebalancing or nothing running, each cluster ends with its minimum plus its proportional share of the rest up to rounding, and nothing is left |
| PlannerPhases.MinPhaseSane | pkg/controller/util/planner/planner.go:103-111 | conservation and bounds after each cluster of the minimum phase |
| PlannerPhases.PrePhaseSane | pkg/controller/util/planner/planner.go:119-140 | conservation and bounds after each cluster of the preallocation phase, which only adds |
| PlannerPhases.PlanConserves | pkg/controller/util/planner/planner.go:100-216 | the finished plan and the unplaced rest add up to the total within all bounds, over exactly the available clusters |
| PlannerPhases.NegativeExactlyWhereCapacityIs | pkg/controller/util/planner/planner.go:105-110 | a planned count is negative if and only if the capacity is, and then equals it |
| PlannerPhases.UnplacedOnlyWhenSaturated | pkg/controller/util/planner/planner.go:155-216 | work conservation of the whole plan |
| PlannerPhases.PlanningIsLinear | pkg/controller/util/planner/planner.go:144-155 | passes of a whole call: at most clusters plus one when rebalancing, at most the total plus one with non-negative capacities |
| PlannerPriorities.MinPhaseIsGreedy | pkg/controller/util/planner/planner.go:103-111 | whatever the capacities, each capped minimum in sorted order as far as replicas last; without negative capacities that is decided by the sum of the minimums before it |
| PlannerPriorities.MinPhaseServesIffPrefixesFit | pkg/controller/util/planner/planner.go:103-111 | whatever the capacities, the minimum phase serves every capped minimum if and only if, however far one follows the sorted list, the minimums up to there fit the total |
| PlannerPriorities.MinimumsMetIfPrefixesFit | pkg/controller/util/planner/planner.go:100-216 | whatever the capacities, minimums that fit in this way are met by the finished plan |
| PlannerPriorities.NegativeCapacityUpsetsPriority | pkg/controller/util/planner/planner.go:105-110 | with a negative capacity in between the first cluster can miss its minimum while the last gets all of its own |
| PlannerPriorities.PrePhaseIsGreedy | pkg/controller/util/planner/planner.go:119-140 | closed form: each keepable running replica in sorted order as far as replicas last |
| PlannerPriorities.MinimumsMetIffTheyFit | pkg/controller/util/planner/planner.go:55-111 | every cluster ends with its capped minimum if the minimums fit the total however far one follows the sorted list, and only if all together do; while no capacity is negative that is an if and only if |
| PlannerPriorities.MissedMinimumStarvesLater | pkg/controller/util/planner/planner.go:56-59 | if a cluster misses its capped minimum, every cluster sorted after it ends with zero if and only if none of those has a negative capacity, and then nothing is left |
| PlannerPriorities.RunningKeptIffTheyFit | pkg/controller/util/planner/planner.go:113-140 | without rebalancing every cluster keeps its minimum and its keepable running replicas only if these add up to at most the total, and exactly then while the minimums fit however far one follows the list, as they do without negative capacities |
| PlannerPriorities.RunningMovedOnlyWhenAllPlaced | pkg/controller/util/planner/planner.go:119-140 | without rebalancing a running replica is given up only when the whole total has been placed |
| PlannerOverflow.PlannedOverflowSound | pkg/controller/util/planner/planner.go:186-197 | overflow exists only at clusters planned at capacity, and with it they stay within maximum and total |
| PlannerOverflow.UnplacedIsReported | pkg/controller/util/planner/planner.go:183-197 | if replicas stay unplaced, every weighted cluster is at its maximum or at its capacity with an overflow |
| PlannerOverflow.OneClusterNeedsTotalPasses | pkg/controller/util/planner/planner.go:149-152 | for every total there is an input that takes that many passes |
| PlannerOverflow.PlanningFitsInt64 | pkg/controller/util/planner/planner.go:157-170 | with weights summing to less than 2^32, and the total plus what negative capacities hand back in the int32 range, neither product nor sum of any share of any pass leaves int64 |
| PlannerOverflow.WeightBoundIsExact | pkg/controller/util/planner/planner.go:170 | for the largest total one cluster fits if and only if its weight is less than 2^32 |
| PlannerOverflow.SharesSurviveWraparound | pkg/controller/util/planner/planner.go:157-170 | under the same bound on what is to be placed, and with weights summing to at most 2^32, every share of every pass, computed with wraparound, is still the right one |
| PlannerOverflow.SurvivalBoundIsExact | pkg/controller/util/planner/planner.go:170 | for the largest total one cluster gets its share in wrapping arithmetic if and only if its weight is at most 2^32 |
| Sorting.Sort | pkg/controller/util/planner/planner.go:98 | in-place sorting through the comparison yields a sorted permutation |
| Sorting.SortedIsUnique | pkg/controller/util/planner/planner.go:43-47 | two sorted arrangements of the same elements agree when no two different elements tie |
| Scheduler.CombineInto | pkg/controller/replicaschedulingpreference/scheduler/scheduler.go:298-308 | the result covers current and planned clusters, with plan and overflow added |
| Scheduler.Schedule | pkg/controller/replicaschedulingpreference/scheduler/scheduler.go:292-328 | the schedule is that of a plan that keeps all promises to its caller, with its overflow added; it covers the given clusters and those replicas were counted in, the latter with zero if not given |
| Scheduler.SchedulingResult | pkg/controller/replicaschedulingpreference/scheduler/scheduler.go:274-290 | the result is a schedule for the preferences given, or, exactly if none are given, for weight 1 everywhere; it covers exactly the clusters given, each within its maximum and, while no capacity is negative, between zero and the total; without any preference counts are even up to rounding when nothing limits them, and add up to the total if some cluster has no known capacity |
| Scheduler.DefaultPlacesEverything | pkg/controller/replicaschedulingpreference/scheduler/scheduler.go:281-289 | under the default preference a cluster of unknown capacity leaves nothing unplaced, whatever the capacities of the others |
| Scheduler.DefaultSpreadsEvenly | pkg/controller/replicaschedulingpreference/scheduler/scheduler.go:281-289 | under the default preference, without capacities and with nothing to be kept, every cluster gets an equal share up to rounding |
| Scheduler.ScheduleCoversClusters | pkg/controller/replicaschedulingpreference/scheduler/scheduler.go:298-308 | the schedule's clusters are exactly the ready clusters asked for |
| Scheduler.ScheduleWithinBounds | pkg/controller/replicaschedulingpreference/scheduler/scheduler.go:303-308 | each count, overflow included, is within the maximum, is negative only where the capacity is, and without rebalancing exceeds capacity by at most the unplaced amount; while no capacity is negative it is between zero and the total |
| Scheduler.UnlimitedClusterTakesTheRest | pkg/controller/util/planner/planner.go:155-216 | one weighted cluster without limits makes the plan complete |
| Scheduler.OverridesFor | pkg/controller/replicaschedulingpreference/scheduler/deployment.go:126-149 | the overrides represent the result: one entry for each cluster with its count |
| Scheduler.OverrideUpdateNeeded | pkg/controller/replicaschedulingpreference/scheduler/deployment.go:166-178 | exactly when the loop asks for an update |
| Scheduler.NoUpdateIffRepresented | pkg/controller/replicaschedulingpreference/scheduler/deployment.go:159-178 | with unique names no update is needed if and only if the overrides represent the result |
| Scheduler.AllNamedIffUnique | pkg/controller/replicaschedulingpreference/scheduler/deployment.go:159-178 | whenever the check is content, every scheduled cluster has an override if and only if no cluster name is repeated |
| Scheduler.DuplicateNamesHideMissingCluster | pkg/controller/replicaschedulingpreference/scheduler/deployment.go:159-178 | with a duplicate name the check is content although a scheduled cluster has no override |
| Scheduler.OverridesReadBack | pkg/controller/replicaschedulingpreference/scheduler/deployment.go:126-133 | counts in the int32 range are read back unchanged |
| Scheduler.ReconcileOverride | pkg/controller/replicaschedulingpreference/scheduler/deployment.go:111-157 | success leaves overrides the check is content with, and which represent the result if they were written or their names were unique; failure changes nothing; it writes exactly when the check was not content before, so a second run writes nothing |
| Scheduler.PlacementUpdateNeeded | pkg/controller/replicaschedulingpreference/scheduler/deployment.go:159-164 | no update exactly when both lists hold the same names with the same multiplicity, nil being different from empty |
| Scheduler.ReconcilePlacement | pkg/controller/replicaschedulingpreference/scheduler/deployment.go:80-109 | success leaves a placement naming exactly the scheduled clusters; it writes exactly when the stored list was missing, empty or different |
| Scheduler.ReconcileTargets | pkg/controller/replicaschedulingpreference/scheduler/scheduler.go:227-244 | success leaves both resources saying what the result does; when both can be read, it succeeds without writing if and only if both did before; without writing both stay as they were |
| Scheduler.ReconcilePreference | pkg/controller/replicaschedulingpreference/scheduler/scheduler.go:227-290 | from the preference to what is stored: the result is a schedule for the preferences given; with an int32 total and no negative capacity the overrides read back as exactly that schedule; what is then in place makes the next reconcile to the same schedule write nothing |
| DelivererHeap.RootIsEarliest | pkg/controller/util/delaying_deliverer.go:103-106 | the first item of the slice is the earliest pending one |
| DelivererHeap.Heap.Swap | pkg/controller/util/delaying_deliverer.go:52-56 | swapping keeps the index exact and the pending items the same |
| DelivererHeap.Heap.Push | pkg/controller/util/delaying_deliverer.go:58-62 | appending a new key keeps the index exact |
| DelivererHeap.Heap.Pop | pkg/controller/util/delaying_deliverer.go:64-70 | removing the last item keeps the index exact |
| DelivererHeap.Heap.HeapPush | pkg/controller/util/delaying_deliverer.go:133 | heap order and index are kept and exactly the item is added to the pending map |
| DelivererHeap.Heap.HeapPop | pkg/controller/util/delaying_deliverer.go:106 | removes an earliest item and nothing else, keeping order and index |
| DelivererHeap.Heap.HeapFix | pkg/controller/util/delaying_deliverer.go:129 | restores heap order around any one changed position without changing what is pending |
| DelivererHeap.Heap.Accept | pkg/controller/util/delaying_deliverer.go:125-134 | refines the map from key to earliest request: a known key is replaced only by a strictly earlier request |
| Deliverer.DelayingDeliverer.Deliver | pkg/controller/util/delaying_deliverer.go:100-109 | sends exactly the items due at the time given, each once, in non-decreasing order of time, all logged with that time, and keeps the rest |
| Deliverer.DelayingDeliverer.NextWakeUp | pkg/controller/util/delaying_deliverer.go:116-120 | never later than any pending item, equal to an earliest one, an hour ahead when there is none |
| Deliverer.DelayingDeliverer.TakeTurn | pkg/controller/util/delaying_deliverer.go:112-138 | one turn of the loop extends the log legally, by what the turn did, with everything sent at the clock the turn read |
| Deliverer.DelayingDeliverer.Run | pkg/controller/util/delaying_deliverer.go:111-139 | over any sequence of turns the log only grows, is legal and clocked by the turns, records them up to the stop, and lists what was sent |
| DeliveryLog.NothingLostOrLate | pkg/controller/util/delaying_deliverer.go:100-139 | once the loop has slept at or after a request's time, its key has been emitted since, no later than requested |
| DeliveryLog.EmittedOnceAndEarliest | pkg/controller/util/delaying_deliverer.go:100-139 | each emitted item was requested after its key was last emitted, was due when emitted, and is the earliest such request |
| DeliveryLog.EmittedByTheClock | pkg/controller/util/delaying_deliverer.go:112-120 | nothing is sent early: each item was emitted at the one time its turn read from the clock, which is the time the loop then went to sleep at, and was due by then |
| DeliveryLog.EmittedInOrder | pkg/controller/util/delaying_deliverer.go:100-109 | without requests in between, items leave in order of time |
| Updater.ExecuteAll | pkg/controller/util/federated_updater.go:101-185 | the receive loop collects versions by arrival; no errors if and only if all arrived and succeeded, where a delete that finds nothing counts as a success and nothing else that finds nothing does; a timeout error exactly when one is missing |
| Updater.CollectedExactly | pkg/controller/util/federated_updater.go:118-178 | with distinct clusters the map holds exactly the clusters whose own operation arrived and succeeded, with its version |
| Updater.ArrivalOrderIsIrrelevant | pkg/controller/util/federated_updater.go:161-178 | with distinct clusters the map depends only on which results arrived |
| Updater.NoErrorsMeansAllClusters | pkg/controller/util/federated_updater.go:156-184 | without errors the map's clusters are exactly the operations' clusters |
| Updater.SharedClusterDependsOnOrder | pkg/controller/util/federated_updater.go:173 | two operations on one cluster make the map depend on the order of arrival |
| Placement.PlacementPartitions | pkg/controller/sync/placement/resource.go:51-68 | exactly a malformed directive is an error; otherwise selected and unselected clusters partition the ready ones without repetition, by the directive |
| PropagatedVersion.SortedSlice | pkg/controller/util/propagatedversion.go:79-85 | whatever the order of visiting the map, the slice lists its entries in order of cluster name |
| PropagatedVersion.SliceIsCanonical | pkg/controller/util/propagatedversion.go:79-94 | the same entries have only one sorted slice |
| PropagatedVersion.EquivalentIffSameMeaning | pkg/controller/util/propagatedversion.go:87-94 | a stored status compares equal to one just made if and only if both record the same and list some cluster, since a stored empty list is nil |
| PropagatedVersion.ListedReadsBack | pkg/controller/sync/controller.go:649-654 | reading a stored slice gives back the map it was made from |
| PropagatedVersion.GetClusterVersions | pkg/controller/sync/controller.go:633-657 | exactly the listed versions if template and override versions match, else none |
| PropagatedVersion.MergeVersions | pkg/controller/sync/controller.go:750-779 | entry by entry: a new version wins, an old one is retained for a selected cluster only, and an empty one is dropped |
| PropagatedVersion.NewVersion | pkg/controller/sync/controller.go:717-748 | a new record lists the reported versions, in order of cluster name |
| PropagatedVersion.Recorder.OnUpdate | pkg/controller/sync/controller.go:213-221 | a reported update clears the pending mark of its key |
| PropagatedVersion.Recorder.UpdatePropagatedVersion | pkg/controller/sync/controller.go:659-715 | in every case of failing calls: what the server holds afterwards, entry by entry; that the key is marked after a write, unmarked after a failed status update, and as before when nothing was sent; and that other keys stay as they are. Nothing is sent only for a stored record that would not change and lists some cluster |
| Sync.ObjectForCluster | pkg/controller/sync/controller.go:883-964 | the first override entry that names the cluster decides the field if it has data, and nothing else differs from the template body; an error exactly without a body, or with overrides and no field |
| Sync.OperationsOkIff | pkg/controller/sync/controller.go:783-881 | there are operations, and no error, exactly when every cluster can be read and there is an object to write to the selected ones |
| Sync.ClusterOperations | pkg/controller/sync/controller.go:781-881 | the loops compute the operation list or the first error |
| Sync.SelectedOperationsExactly | pkg/controller/sync/controller.go:790-861 | selected clusters get an add or update of the desired object exactly when missing or not at the recorded version |
| Sync.UnselectedOperationsExactly | pkg/controller/sync/controller.go:863-878 | other clusters get a delete exactly when they hold the object |
| Sync.OneOperationPerCluster | pkg/controller/sync/controller.go:783-881 | over a placement partition no cluster is operated on twice |
| Sync.NothingToDoIffInStep | pkg/controller/sync/controller.go:605-607 | no operations if and only if all selected clusters hold the recorded versions and no other holds the object |
| Sync.SyncToClusters | pkg/controller/sync/controller.go:585-631 | the stored record, the pending marks and the status that follow from the operations and the results that arrive |
| SyncRun.AppliedHolds | pkg/controller/sync/controller.go:252-273 | after a batch each applied operation's cluster holds its object at the version it reported, and the others are unchanged |
| SyncRun.UpdatedIsSound | pkg/controller/sync/controller.go:587-622 | reported versions name objects written from the template and override of the attempt |
| SyncRun.RunsAreSound | pkg/controller/sync/controller.go:635-715 | over every run each record names objects written from exactly its template and override |
| SyncRun.NothingToDoMeansPropagated | pkg/controller/sync/controller.go:783-881 | in every run, with any stale caches, an empty operation list means every selected cluster was read with its desired object and no other with any |
| Convergence.OperationsAreOutstanding | pkg/controller/sync/controller.go:783-881 | operations are computed for exactly the outstanding clusters |
| Convergence.RoundShrinks | pkg/controller/sync/controller.go:587-631 | after any mix of success, failure and timeout what is outstanding was so before, and was not reported done if the record was kept |
| Convergence.AfterFullSuccess | pkg/controller/sync/controller.go:587-687 | after full success a cluster is outstanding if and only if the record was not kept and it was a selected outstanding one |
| Convergence.ClearedRecordRepeatsWork | pkg/controller/sync/controller.go:671-687 | a fully successful first round is followed by updating every selected cluster when the server clears the created status |
| Convergence.RoundsConverge | pkg/controller/sync/controller.go:751-779 | over any number of rounds what is outstanding at the end always was and was never reported done |
| Convergence.RoundsFinish | pkg/controller/sync/controller.go:587-631 | once every cluster has been reported done in some round nothing is outstanding |
| RecordGuard.KeysDiffer | pkg/controller/sync/controller.go:482-487 | different templates of a kind have records of different keys, although kinds are lower-cased and names joined |
| RecordGuard.WriteTakesSteps | pkg/controller/sync/controller.go:659-715 | what recording does to the server and to the mark, in every case of failing calls, is what the steps of a write in the protocol below do |
| RecordGuard.WriteRecord | pkg/controller/sync/controller.go:659-715 | the recorder itself takes these steps: its mark and the server's record are those of the protocol afterwards |
| RecordGuard.HandleEvent | pkg/controller/sync/controller.go:213-221 | so does the handler of record events |
| RecordGuard.NoSyncOnStaleRecord | pkg/controller/sync/controller.go:486-504 | as long as no reply is lost and no older event is pending while a write is under way, no reconcile reaches the clusters while a status update is unreported, so each reads the server's record or none just created |
| RecordGuard.UnbreachedReadsServer | pkg/controller/sync/controller.go:482-507 | in every run a reconcile that does not act in breach of the guard reads the server's record or none just created, and one that does reads a replaced one |
| RecordGuard.GuardFailsIffClearedEarly | pkg/controller/sync/controller.go:213-221 | in every run, with broken watches and lost replies, the guard fails somewhere if and only if the mark is somewhere cleared early: by an error handled for an applied update, or by an event older than the update |
| RecordGuard.CanBreachIffDisturbed | pkg/controller/sync/controller.go:213-221 | at every moment of every run with a write under way, its regular course can defeat the guard if and only if an event older than the update, which would be taken for its report, is still to be handled, and the update changes something or has been applied |
| RecordGuard.BlockedIffStanding | pkg/controller/sync/controller.go:671-714 | after any write with the mark set, reconciling stays blocked until the watch breaks if and only if no event is left to handle but perhaps the one that adds the record |
| RecordGuard.UnchangedRecordBlocks | pkg/controller/sync/controller.go:700-714 | a run in which a record without cluster versions is rewritten as it is, and the mark is left standing with no update to be reported |
| RecordGuard.KeptStatusBlocks | pkg/controller/sync/controller.go:671-687 | so does creating a record on a server that keeps the status it is created with |
| RecordGuard.LostReplyDefeatsGuard | pkg/controller/sync/controller.go:708-714 | a run in which an applied update answered with an error lets a reconcile act on a replaced record |
| RecordGuard.RelistDefeatsGuard | vendor/k8s.io/client-go/tools/cache/controller.go:301-321 | a run without a lost reply in which a relist clears the mark and a reconcile acts on a replaced record |
| Informer.FederatedInformer.AddCluster | pkg/controller/util/federated_informer.go:407-425 | an informer is started exactly for a ready stored cluster with a client; other entries are untouched |
| Informer.FederatedInformer.DeleteCluster | pkg/controller/util/federated_informer.go:427-436 | the cluster's channel, if any, is closed and its entry removed |
| Informer.FederatedInformer.OnAdd | pkg/controller/util/federated_informer.go:201-211 | only a ready added cluster starts an informer |
| Informer.FederatedInformer.OnUpdate | pkg/controller/util/federated_informer.go:212-242 | a change restarts the informer, with a new stop channel and the old one closed, if ready; no change leaves everything alone, and other clusters are untouched |
| Informer.FederatedInformer.ObserveVanish | pkg/controller/util/federated_informer.go:188-200 | after a tombstone the informers still agree if and only if none was running for the cluster |
| Informer.LatestDecides | pkg/controller/util/federated_informer.go:187-243 | the latest change of a cluster decides whether it is registered, and how |
| Informer.OnlyOwnFailureCounts | pkg/controller/util/federated_informer.go:407-425 | a cluster is left without an informer only for want of a client of its own at its latest restart, never for another cluster's failure |
| Informer.FederatedInformer.ObserveAll | pkg/controller/util/federated_informer.go:187-243 | for every event sequence without tombstones the running informers are the ready clusters except those whose own latest restart found no client, and no channel leaks or is closed twice |
| Informer.FederatedInformer.Stop | pkg/controller/util/federated_informer.go:288-303 | every open channel is closed once and no entry remains |
| Informer.FederatedInformer.GetReadyClusters | pkg/controller/util/federated_informer.go:359-376 | exactly the ready clusters, each once |
| Informer.FederatedInformer.GetUnreadyClusters | pkg/controller/util/federated_informer.go:341-357 | exactly the unready clusters, each once |
| Informer.FederatedInformer.ClustersSynced | pkg/controller/util/federated_informer.go:507-539 | true if and only if informers run for exactly the given clusters and all have synced |
| Deletion.ObjectMeta.AddFinalizers | pkg/controller/util/finalizers/finalizers.go:36-50 | set union, reported as an update exactly when something was missing |
| Deletion.ObjectMeta.RemoveFinalizers | pkg/controller/util/finalizers/finalizers.go:52-66 | set difference, reported as an update exactly when something was there |
| Deletion.DeletionHelper.EnsureFinalizers | pkg/controller/util/deletionhelper/deletion_helper.go:67-98 | success means both finalizers were on the copy read, and nothing is written, or are now on the server, and no other changed; a lagging copy cannot be written |
| Deletion.DeletionHelper.GetFromAllClusters | pkg/controller/util/federated_informer.go:482-498 | exactly the running informers whose store holds the object |
| Deletion.DeletionHelper.DeleteOperations | pkg/controller/util/deletionhelper/deletion_helper.go:146-162 | one delete for exactly every held, not exempt copy |
| Deletion.DeletionHelper.HandleObjectInUnderlyingClusters | pkg/controller/util/deletionhelper/deletion_helper.go:100-190 | from a copy that may lag, the finalizer goes if and only if the object is to be orphaned, or no store holds it and no cluster is unready, and the update succeeds; orphaning issues no operation |
| Deletion.IsSynced | pkg/controller/sync/controller.go:375-397 | true if and only if all caches are synced and informers run for exactly the ready clusters |
| Deletion.ReconcileDeleted | pkg/controller/sync/controller.go:410-452 | without orphaning, a delete is issued for exactly the copies held, and the finalizer is released if and only if, in that snapshot, informers run and are synced for all registered clusters and none holds the object; when it reports success |
| Deletion.ReconcileLive | pkg/controller/sync/controller.go:454-507 | exactly when clusters are reached: in sync, under both finalizers as read or just written, with a readable placement and without a pending record; then, if all can be read and rendered, one operation with the desired object for exactly the clusters out of step, success exactly if all arrived and succeeded, and the record and mark that follow; otherwise nothing changes |
| DeletionRun.RunsAreCovered | pkg/controller/util/deletionhelper/deletion_helper.go:35-43 | in every run in which no release happens while exposed, objects and creations are out there only under the finalizer, unless orphaned |
| DeletionRun.NoObjectOutlivesItsTemplate | pkg/controller/util/deletionhelper/deletion_helper.go:177-189 | over every run, with stores that lag and clusters that leave and return, in which no release happens while a creation is on its way or a cluster holds an object no store shows, no object outlives its template |
| DeletionRun.OutlivesExactlyWhenExposed | pkg/controller/util/deletionhelper/deletion_helper.go:137-189 | at every release without orphaning in every run, an object can outlive the template if and only if at that moment a creation is on its way, or a cluster holds an object that its synced store has not shown or that it left the federation with |
| DeletionRun.UnseenObjectOutlivesTemplate | pkg/controller/util/deletionhelper/deletion_helper.go:137-139 | a run without timed-out writes in which the finalizer is released before the store has shown the object |
| DeletionRun.DepartedObjectOutlivesTemplate | pkg/controller/util/federated_informer.go:427-436 | a run in which a cluster leaves with the object before the release, and is registered again after it |
| DeletionRun.LateWriteOutlivesTemplate | pkg/controller/util/federated_updater.go:97-100 | a run in which a timed-out write lands after the release |

## Left out

- Plan: weights, minimums and the total are taken as non-negative and a minimum as at most its maximum, since the loop is not meant for anything else; cluster names are taken as distinct, as stores list them.
- Plan: computes on unbounded integers; `PlanningFitsInt64` says when int64 agrees.
- Sort: Go's library may use another algorithm; only what is proved for every sorted permutation is used of it.
- HeapPush, HeapPop, HeapFix: Go's container/heap is not part of the repository; its loops are written out over Swap, Push and Pop.
- MinimumsMetIffTheyFit: with negative capacities, which hand replicas back to clusters that come later (`NegativeCapacityUpsetsPriority`), a gap is left between the condition that suffices and the one that is needed; for the minimum phase itself `MinPhaseServesIffPrefixesFit` has none.
- NoSyncOnStaleRecord: a list may be older than the server, but not older than what the informer has already been told; deleting a record is not modelled.
- GuardFailsIffClearedEarly: assumes the same of lists.
- ReconcileDeleted: reads its stores and cluster lists in one snapshot; the code takes several locked reads in a row. Deleting the propagated version and the template itself afterwards are plain calls that are not modelled.
- ReconcileLive: cache read errors before the operations are computed, event recording, back-off and the periodic redelivery are not modelled.
- NoObjectOutlivesItsTemplate: judges a release by one snapshot; objects in clusters that never return to the federation do not count.
- ObjectForCluster: name, namespace, kind and API version, which are the same in every cluster, are not part of the content; a field path is one key of the content map.
- Namespace kinds: the primary cluster appears only as exempt copies on deletion; their placement and object construction are not modelled.
- Comparison by generation, and merging of Service cluster IPs and node ports, on updates.
- Counting replicas and pods to estimate capacities: both are inputs of the planner.
- Locking: methods of a shared object run one after the other; interleavings are modelled between the updater's results, between record writes and events, and between reconciles and everything else.
- Clearing of pending marks eventually: a lost event can keep a mark forever, as the code notes, so only safety is proved.
- Type configuration, DNS, cluster health and the join command.
