# Verified model of the autoscaler's decisions

This Dafny project models the decision engine of the cluster autoscaler: the drain simulation and its
usage tracker, the two node estimators, the cluster state registry, the scale-up and scale-down limits,
the history of unneeded nodes, the main loop with its cooldowns and its asynchronous drains, the cache of
predicate results and the cache of AWS auto-scaling groups. Two neighbours are modelled as well: the
aggregation of metrics in Heapster and the addon resizer.

Objects whose methods update their fields are classes (`UsageTracker`, `BasicNodeEstimator`,
`ClusterStateRegistry`, `ScaleDown`, `NodeDeleteStatus`, `StaticAutoscaler`, `AsgCache`, `AwsNodeGroup`,
`PodSchedulableMap`, `DataBatch`, `Deployment`, and `Process` for the main loop with its drains), proved
against functions on values; the lemmas are about those functions. Times are integers, quantities are
integers or exact rationals, an iteration over a Go map takes its keys in an arbitrary order. The scheduler
predicates, the drain rules, the provider and the AWS service are parameters.

`dafny verify dfyconfig.toml` checks everything.

## What the main results say

- **Usage tracker.** After any sequence of operations the bounded two-way index covers the exact,
  unbounded relation of live usages, so removing a node invalidates everyone who shares a live target with
  it (`TrackerRuns`).
- **Estimators.** First fit conserves pods, opens a node only when all others refuse and stays under twice
  any packing; the older estimator is a lower bound of every feasible packing and of first fit
  (`FirstFitBounds`, `FactorTwo`, `EstimatorOrder`).
- **Registry.** A refresh reaches a fixpoint and decides exactly which requests survive; first-observed
  times are exactly the starts of the longest current stretches (`ClusterState`, `FirstSeen`,
  `ClusterFixes`).
- **Scale-down.** A node is removed only if every evaluation over a span strictly longer than its threshold
  found it unneeded, over any number of iterations, and only if it is empty within all limits at once or
  all its pods were placed on other nodes; a bulk deletion keeps the configured minimums, for GPUs exactly if
  no more is counted than there is
  (`Drain`, `DrainSoundness`, `ScaleDownLimits`, `ScaleDownTotals`, `ScaleDown`, `Turns`).
- **Main loop.** In every interleaving with drains: the cooldowns hold, at most one drain is in flight, and
  no result is handed out twice; a result is lost only to a newer one of the same node, and exactly when that
  can happen is shown (`LoopProtocol`, `LostResults`). Every interleaving is equivalent to one in which drains
  act between iterations and the same iterations find the gate open or closed; the objects follow the
  protocol in those (`Interleaving`, `StaticAutoscaler`, `MainLoop`).
- **Scale-up cap, predicate cache, AWS cache.** Exact, order-independent, and with the exact condition under
  which each promise holds (`ScaleUpLimits`, `PodCache`, `AsgCache`).
- **Metrics.** With uniform types, summing containers to pods, pods to namespaces and namespaces to the
  cluster neither loses nor double-counts anything (`MetricConservation`); the pods' values do not depend on
  the order of their containers exactly if those agree on types (`PodOrder`).
- **Addon resizer.** With a recommendation that is not wider than what is acceptable it never changes a
  deployment twice at the same node count; where it does not settle it changes some deployment at every poll
  (`Nanny`).

## Where the code does not do what one might expect

- A scale-up request that passed `checkScaleUpDeltaWithinLimits` can still fail in
  `applyScaleUpResourcesLimits`: a limit that is unknown fails the cap even if a node needs none of the
  resource (`ScaleUpLimits.CheckedMayStillFail`; the exact condition is in `ApplyResourcesLimits`).
- A resource without a configured maximum has the greatest integer as its maximum, which is also the
  sentinel for an unknown limit, so a cluster that has none of it yet reads the limit as unknown
  (`ScaleUpLimits.NoMaximumReadsAsUnknown`).
- Removing a node from the tracker invalidates nodes that share a target with it, not nodes that rely on
  the removed node itself (`TrackerRuns.RelierStays`; `TrackerRuns.RemovalIsExactWithoutSaturation` says which).
- `DeleteInstances`, called with several instances that were not screened, or were screened before the
  last refresh, formats the name of a nil group when an uncached instance follows cached ones
  (`AsgCache.NilDereferenceIff`, `AwsNodeGroup.RefreshAfterScreenMayFail`). Its caller `DeleteNodes` screens
  every node, which rules that out while the index stays the same (`AwsNodeGroup.ScreenedAreCommon`), and the
  core passes it one node at a time, which rules it out altogether (`AwsNodeGroup.OneInstanceNeverFails`).
- The GPUs of the first node of a group are counted for every node of the group, so that a bulk deletion may
  go below the configured minimum (`ScaleDownTotals.GpuMinimumMayBreak`): exactly if more is counted than
  there is (`ScaleDownTotals.GpuMinimumsKeptIff`).
- The flags of the addon resizer are checked one by one but not against each other
  (`autoscaler/addon-resizer/nanny/main/pod_nanny.go:73-74`); with a recommendation wider than what is acceptable it
  changes a deployment at every poll (`Nanny.WideRecommendationFlaps`).
- If the containers of a pod report a metric with different types, the pod gets the value of the one that
  happens to be taken first, and values of other types are dropped (`PodOrder.MixedTypesDependOnOrder`); the
  order matters exactly then (`PodOrder.OrderMattersIff`, `PodOrder.DeterminedIff`).
- The delay after a deletion starts only after a bulk deletion of empty nodes; the end of a drain starts no
  delay (`LostResults.DelaysCountFrom`, `LostResults.DrainDelaysNothing`).
- The in-progress flag of a drain is cleared before its result is recorded, so the next drain may start
  before the result of the last one can be handed out. If it is of the same node, the older result
  may be lost (`LostResults.ResultIsLost`); if no such drain is started, none is
  (`LostResults.CarefulRunsLoseNothing`, `LostResults.StartIsSafeIff`).
- `FindNodesToRemove` never returns an error, so the branch of `UpdateUnneededNodes` that handles one is
  dead and not modelled.

## Model

| member | source | states |
|---|---|---|
| Tracker.UsageTracker.RegisterUsage | autoscaler/cluster-autoscaler/simulator/tracker.go:54-84 | The record of the user gains the target and that of the target the user, each with the time, or the side is flagged as having too many once it holds 50 entries; nothing else changes. |
| Tracker.UsageTracker.Unregister | autoscaler/cluster-autoscaler/simulator/tracker.go:87-101 | The node's record goes, and the node disappears from the records its own record pointed to, and only from those. |
| Tracker.FilterOutOld | autoscaler/cluster-autoscaler/simulator/tracker.go:103-113 | Exactly the entries not older than the cutoff stay. |
| Tracker.UsageTracker.CleanUp | autoscaler/cluster-autoscaler/simulator/tracker.go:116-132 | Both sides of every record are filtered unless they are saturated; exactly the records left empty and unsaturated are deleted. |
| Tracker.KeysToRemove | autoscaler/cluster-autoscaler/simulator/tracker.go:135-154 | The keys to drop are all of them if the node or one of its targets is saturated, else every user of one of its targets. |
| Tracker.RemoveNodeFromTracker | autoscaler/cluster-autoscaler/simulator/tracker.go:135-161 | The utilization map loses the node and everything invalidated by its removal, and the node is unregistered. |
| TrackerRuns.StepKeepsInvariant | autoscaler/cluster-autoscaler/simulator/tracker.go:54-132 | Every operation keeps, for every pair of nodes: live usages are recorded on both unsaturated sides with their latest time, and unsaturated sides record nothing else unless the other node was lost while saturated. |
| TrackerRuns.RunKeepsInvariant | autoscaler/cluster-autoscaler/simulator/tracker.go:54-161 | The same after any sequence of operations: the bounded tracker covers the exact usage relation. |
| TrackerRuns.RemovalInvalidatesSharers | autoscaler/cluster-autoscaler/simulator/tracker.go:135-161 | After any run, removing a node invalidates every node that shares a live target with it. |
| TrackerRuns.RemovalIsExactWithoutSaturation | autoscaler/cluster-autoscaler/simulator/tracker.go:135-161 | Where nothing was ever saturated, it invalidates exactly those. |
| TrackerRuns.RelierStays | autoscaler/cluster-autoscaler/simulator/tracker.go:135-161 | So a node that relies on the removed node itself, and shares no target with it, is not invalidated. |
| TrackerRuns.SidesMirror | autoscaler/cluster-autoscaler/simulator/tracker.go:54-132 | The two sides agree, times included, for every user and target that are unsaturated and were not lost while saturated. |
| TrackerRuns.RecordsStaySmall | autoscaler/cluster-autoscaler/simulator/tracker.go:54-84 | No side of a record ever holds more than 50 entries. |
| TrackerRuns.UnregisterLeavesNoMention | autoscaler/cluster-autoscaler/simulator/tracker.go:87-101 | Unregistering a node that was never saturated leaves no mention of it in any unsaturated side. |
| FirstFit.CalculatePodScore | autoscaler/cluster-autoscaler/estimator/binpacking_estimator.go:90-119 | Every pod once, in order, with its share of the template's allocatable CPU plus its share of the memory. |
| FirstFit.SortByDescendingScore | autoscaler/cluster-autoscaler/estimator/binpacking_estimator.go:56 | A permutation with non-increasing scores; ties in any order. |
| FirstFit.BinpackingNodeEstimator.PlaceOne | autoscaler/cluster-autoscaler/estimator/binpacking_estimator.go:63-83 | One pod goes to the first node that accepts it, or to a new node built from the template. |
| FirstFit.BinpackingNodeEstimator.Estimate | autoscaler/cluster-autoscaler/estimator/binpacking_estimator.go:53-85 | The number of nodes that first fit opens for the pods in some order of non-increasing score. |
| FirstFitBounds.Conservation | autoscaler/cluster-autoscaler/estimator/binpacking_estimator.go:53-85 | Every pod ends up on exactly one node; the pods on all nodes are those of the upcoming nodes, one copy of the template's per new node, and the given ones; the count is between 0 and the number of pods. |
| FirstFitBounds.FirstFitDiscipline | autoscaler/cluster-autoscaler/estimator/binpacking_estimator.go:63-83 | Each pod was accepted where it was placed if it fits an empty template, every earlier node refuses it, and a new node is opened only when all existing ones refuse. |
| FactorTwo.NewNodesExceed | autoscaler/cluster-autoscaler/estimator/binpacking_estimator.go:63-83 | With one limited resource, any two new nodes together carry more than the room of one. |
| FactorTwo.NewNodesBound | autoscaler/cluster-autoscaler/estimator/binpacking_estimator.go:46-85 | For every order of the pods and k >= 2 new nodes, k times the room of a node is less than twice all requests. |
| FactorTwo.UnderTwiceAnyPacking | autoscaler/cluster-autoscaler/estimator/binpacking_estimator.go:46-85 | With no upcoming nodes, first fit opens fewer than twice the nodes of any packing of the same pods. |
| BasicEstimator.CountPorts | autoscaler/cluster-autoscaler/estimator/basic_estimator.go:71-76 | Each host port of a pod is counted once more, whatever the order. |
| BasicEstimator.BasicNodeEstimator.Add | autoscaler/cluster-autoscaler/estimator/basic_estimator.go:55-79 | The sums and port counts are those of the pods added so far and the new one. |
| BasicEstimator.BasicNodeEstimator.Estimate | autoscaler/cluster-autoscaler/estimator/basic_estimator.go:101-148 | The least number of new nodes whose capacity, with the upcoming nodes, covers CPU, memory, pod slots and every host port; for a resource the template has none of, it is at least what the quotient by zero is converted to. |
| EstimatorOrder.BasicNeverOverestimates | autoscaler/cluster-autoscaler/estimator/basic_estimator.go:33-148 | The estimate is at most the number of new nodes of any feasible packing of the pods, exactly if the converted quotients by zero are; that is so whenever negative infinity and undefined quotients do not become positive. |
| EstimatorOrder.FirstFitPacks | autoscaler/cluster-autoscaler/estimator/binpacking_estimator.go:53-85 | If each pod fits an empty template, the result of first fit is a feasible packing. |
| EstimatorOrder.BasicAtMostBinpacking | autoscaler/cluster-autoscaler/estimator/basic_estimator.go:101-148 | On the same input the lower-bound estimator never asks for more nodes than bin packing, with the same condition on quotients by zero. |
| ClusterReadiness.ReadinessPartitions | autoscaler/cluster-autoscaler/clusterstate/clusterstate.go:450-535 | In every group each registered node is in exactly one of the five readiness classes, so the provisioned count is never negative. |
| ClusterReadiness.UnexpiredExpireLater | autoscaler/cluster-autoscaler/clusterstate/clusterstate.go:208-215 | The scale-down requests kept are exactly those that expire after the current time. |
| ClusterState.GetTargetSizes | autoscaler/cluster-autoscaler/clusterstate/clusterstate.go:278-288 | All target sizes, or failure if one group does not answer. |
| ClusterState.GetNotRegisteredNodes | autoscaler/cluster-autoscaler/clusterstate/clusterstate.go:878-906 | The instances of the provider that are no cluster nodes, or failure if a group does not list its instances. |
| ClusterState.ClusterStateRegistry.RegisterScaleUp | autoscaler/cluster-autoscaler/clusterstate/clusterstate.go:158-172 | A further request for a group adds to the pending increase and takes over the new times. |
| ClusterState.ClusterStateRegistry.RegisterScaleDown | autoscaler/cluster-autoscaler/clusterstate/clusterstate.go:175-179 | The request is appended. |
| ClusterState.ClusterStateRegistry.UpdateReadinessStats | autoscaler/cluster-autoscaler/clusterstate/clusterstate.go:473-535 | The readiness counts are those of the nodes and of the instances waiting to register. |
| ClusterState.ClusterStateRegistry.UpdateAcceptableRanges | autoscaler/cluster-autoscaler/clusterstate/clusterstate.go:426-448 | The range of every group, from its target and the pending requests. |
| ClusterState.ClusterStateRegistry.UpdateScaleRequests | autoscaler/cluster-autoscaler/clusterstate/clusterstate.go:182-216 | Which scale-ups are finished, timed out and kept, and which deletions are kept. |
| ClusterState.ClusterStateRegistry.Refresh | autoscaler/cluster-autoscaler/clusterstate/clusterstate.go:255-260 | Ranges from the requests, requests from the ranges, ranges again. |
| ClusterState.ClusterStateRegistry.UpdateIncorrectNodeGroupSizes | autoscaler/cluster-autoscaler/clusterstate/clusterstate.go:538-572 | A group off its range keeps its entry while the same pair of sizes lasts, gets a new one when it changes, and loses it when the range is met. |
| ClusterState.ClusterStateRegistry.UpdateUnregisteredNodes | autoscaler/cluster-autoscaler/clusterstate/clusterstate.go:574-584 | Nodes that stay unregistered keep the time they were first seen. |
| ClusterState.ClusterStateRegistry.Recalculate | autoscaler/cluster-autoscaler/clusterstate/clusterstate.go:266-275 | Only the ranges are recomputed; if target sizes are unavailable every target counts as zero. |
| ClusterState.ClusterStateRegistry.UpdateFrom | autoscaler/cluster-autoscaler/clusterstate/clusterstate.go:247-262 | All registry data after a successful answer of the provider. |
| ClusterState.ClusterStateRegistry.UpdateNodes | autoscaler/cluster-autoscaler/clusterstate/clusterstate.go:236-263 | A refresh succeeds exactly if all sizes and instances are known; otherwise nothing changes; if it succeeds, counts, requests, ranges and both histories are updated. |
| ClusterState.SurvivingScaleUps | autoscaler/cluster-autoscaler/clusterstate/clusterstate.go:182-206 | A scale-up request survives, unchanged, exactly if its group is listed, its target exceeds the provisioned nodes and its deadline has not passed. |
| ClusterState.RefreshIsFixpoint | autoscaler/cluster-autoscaler/clusterstate/clusterstate.go:236-263 | Refreshing again at the same time with the same answers changes nothing. |
| ClusterState.PendingAreCounted | autoscaler/cluster-autoscaler/clusterstate/clusterstate.go:436-446 | The deletions counted for a group are the pending requests for it. |
| ClusterState.RangeOfListedGroup | autoscaler/cluster-autoscaler/clusterstate/clusterstate.go:426-448 | After an update the minimum of a listed group is its target less long-unregistered and pending nodes, and the maximum its target plus pending deletions. |
| FirstSeen.EntryIsStreakStart | autoscaler/cluster-autoscaler/clusterstate/clusterstate.go:538-584 | An entry carries the time of the observation at which the longest current stretch of its value began. |
| FirstSeen.NoEntryNoStreak | autoscaler/cluster-autoscaler/clusterstate/clusterstate.go:538-584 | Without an entry there is no current stretch. |
| FirstSeen.SinceIsExact | autoscaler/cluster-autoscaler/clusterstate/clusterstate.go:538-584 | An entry with that value and time is there exactly if a longest stretch of the value began at that time. |
| ClusterFixes.DueIsLasting | autoscaler/cluster-autoscaler/core/utils.go:435-457 | A decrease of a group's target is due exactly for a shortage of that size seen at every update for longer than the limit. |
| ClusterFixes.FixNodeGroupSize | autoscaler/cluster-autoscaler/core/utils.go:435-457 | Exactly the due decreases are requested, in order, up to the first the provider refuses. |
| ClusterFixes.OverdueIsLasting | autoscaler/cluster-autoscaler/core/utils.go:393-402 | A node is overdue exactly if it was unregistered at every update for longer than the limit. |
| ClusterFixes.RemoveOne | autoscaler/cluster-autoscaler/core/utils.go:396-427 | One overdue node is removed from its group, skipped if the group has no room above its minimum, or fails. |
| ClusterFixes.RemoveOldUnregisteredNodes | autoscaler/cluster-autoscaler/core/utils.go:393-430 | Only overdue nodes are removed, group sizes fall by exactly the nodes removed and never below the minimum, and without an error every overdue node that could be removed was. |
| Drain.ShuffleNodes | autoscaler/cluster-autoscaler/simulator/cluster.go:284-294 | A permutation of the nodes. |
| Drain.FindTarget | autoscaler/cluster-autoscaler/simulator/cluster.go:249-277 | The hinted node if it accepts the pod, else some accepting node, and none only if every other listed node refuses. |
| Drain.FindPlaceFor | autoscaler/cluster-autoscaler/simulator/cluster.go:195-282 | Each pod placed was accepted by a node other than the removed one with all earlier pods placed; failure means some pod is refused everywhere else under any shuffle; hints and usages are those of the placements. |
| Drain.FindNodesToRemove | autoscaler/cluster-autoscaler/simulator/cluster.go:71-131 | The processed prefix of the candidates is split exactly, in order, into removable and unremovable, each verdict with its placement; it stops only when enough are found. |
| DrainSoundness.OnlyTargetsGrow | autoscaler/cluster-autoscaler/simulator/cluster.go:199-236 | The simulated state is the given one with each pod added to its target; nothing else changes. |
| DrainSoundness.RemovedReceivesNothing | autoscaler/cluster-autoscaler/simulator/cluster.go:255-266 | The removed node receives none of the pods. |
| DrainSoundness.ReceiversStayWithin | autoscaler/cluster-autoscaler/simulator/cluster.go:220-232 | If passing the predicates keeps a node within its limits, every receiver is within them at the end. |
| DrainSoundness.HintsNameTargets | autoscaler/cluster-autoscaler/simulator/cluster.go:226-232 | The hint of each pod names the node it was placed on. |
| DrainSoundness.UsagesAreARun | autoscaler/cluster-autoscaler/simulator/cluster.go:243-280 | What a simulation does to the tracker is a run that registers its targets. |
| DrainSoundness.DrainIsInvalidatedBySharers | autoscaler/cluster-autoscaler/simulator/cluster.go:195-282 | A drain result is dropped when a node sharing one of its live targets is removed. |
| NodeDeletion.NodeDeleteStatus.IsDeleteInProgress | autoscaler/cluster-autoscaler/core/scale_down.go:80-84 | The current status. |
| NodeDeletion.NodeDeleteStatus.SetDeleteInProgress | autoscaler/cluster-autoscaler/core/scale_down.go:87-91 | The status becomes the given one; the results stay. |
| NodeDeletion.NodeDeleteStatus.AddNodeDeleteResult | autoscaler/cluster-autoscaler/core/scale_down.go:94-98 | The result of that node is recorded, in place of an earlier one. |
| NodeDeletion.NodeDeleteStatus.DrainNodeDeleteResults | autoscaler/cluster-autoscaler/core/scale_down.go:101-107 | All results are handed out and none is kept. |
| ScaleDownLimits.ComputeResourcesLeftLimits | autoscaler/cluster-autoscaler/core/scale_down.go:115-155 | A limit for exactly the supported resources with a positive minimum: what is above it, or unknown. |
| ScaleDownLimits.CheckDeltaWithinLimits | autoscaler/cluster-autoscaler/core/scale_down.go:270-285 | Exactly the resources of which more is taken than is left, or whose limit is unknown. |
| ScaleDownLimits.TryDecrementLimitsByDelta | autoscaler/cluster-autoscaler/core/scale_down.go:287-299 | All limits are lowered, or none if one would be exceeded. |
| ScaleDownLimits.GetEmptyNodes | autoscaler/cluster-autoscaler/core/scale_down.go:760-813 | The first nodes, up to the maximum, of those chosen one by one within group sizes and limits. |
| ScaleDownLimits.BulkRespectsAll | autoscaler/cluster-autoscaler/core/scale_down.go:760-813 | At once: at most the maximum number of nodes, at most what each group can spare, at most each known limit, and nothing of a resource with an unknown limit. |
| ScaleDownLimits.BulkKeepsMinimum | autoscaler/cluster-autoscaler/core/scale_down.go:115-155 | With a limit computed from a total and a minimum, what is left of the total is at least the smaller of the two. |
| ScaleDownTotals.CalculateCoresMemoryTotal | autoscaler/cluster-autoscaler/core/scale_down.go:157-171 | What the nodes that are not being deleted have together. |
| ScaleDownTotals.CalculateGpusTotal | autoscaler/cluster-autoscaler/core/scale_down.go:173-225 | GPUs counted node by node, the first node of a group speaking for all of it; failure exactly where a lookup that is needed fails. |
| ScaleDownTotals.GpuTotalsAreSums | autoscaler/cluster-autoscaler/core/scale_down.go:173-225 | If the counted nodes of a group have the same GPUs, the totals are the sums over all counted nodes. |
| ScaleDownTotals.BulkKeepsMinimums | autoscaler/cluster-autoscaler/core/scale_down.go:115-171 | With limits computed from the nodes of the cluster, a bulk deletion leaves at least the configured minimum of each limited resource, or all there was; for GPUs if no more is counted than the counted nodes have. |
| ScaleDownTotals.GpuMinimumsKeptIff | autoscaler/cluster-autoscaler/core/scale_down.go:115-225 | Every bulk deletion keeps every minimum of a GPU type, whatever the provider, the minimum, the candidates and the number of deletions, exactly if no more of it is counted than there is. |
| ScaleDownTotals.GpuMinimumMayBreak | autoscaler/cluster-autoscaler/core/scale_down.go:194-222 | An input where it does not: four GPUs and one are counted as eight, and a bulk deletion leaves less than the minimum. |
| ScaleDownLimits.ChosenAreOffered | autoscaler/cluster-autoscaler/core/scale_down.go:772-806 | Every node is chosen at most as often as it was offered. |
| ScaleDownLimits.ChoiceIsMaximal | autoscaler/cluster-autoscaler/core/scale_down.go:772-806 | A node passed over could not be taken in addition to the chosen ones. |
| ScaleDown.ScaleDown.CleanUp | autoscaler/cluster-autoscaler/core/scale_down.go:330-332 | Usages older than the unneeded time are forgotten. |
| ScaleDown.ScaleDown.CleanUpUnneededNodes | autoscaler/cluster-autoscaler/core/scale_down.go:340-343 | No node is unneeded, and the history restarts. |
| ScaleDown.ScaleDown.UpdateUnremovableNodes | autoscaler/cluster-autoscaler/core/scale_down.go:509-527 | Only entries of nodes that still exist stay. |
| ScaleDown.ScaleDown.FilterRefused | autoscaler/cluster-autoscaler/core/scale_down.go:363-374 | Exactly the nodes not refused recently are checked; refusals whose time has come are deleted. |
| ScaleDown.ScaleDown.ChooseCandidates | autoscaler/cluster-autoscaler/core/scale_down.go:544-560 | The nodes unneeded before and the others, in order; all are candidates when their number is not limited. |
| ScaleDown.ScaleDown.SimulateCandidates | autoscaler/cluster-autoscaler/core/scale_down.go:431-469 | The drain of every current candidate is simulated, then those of a pool of others up to the wanted number; the tracker gains exactly the usages of both simulations. |
| ScaleDown.ScaleDown.RecordUnneeded | autoscaler/cluster-autoscaler/core/scale_down.go:474-485 | Nodes that stay unneeded keep their time, others get the present. |
| ScaleDown.ScaleDown.UpdateUnneededNodes | autoscaler/cluster-autoscaler/core/scale_down.go:349-504 | The unneeded nodes are those found by the two simulations and the empty ones that can be spared; the history gains one evaluation; hints, refusals and the usages registered in the tracker are those of the simulations. |
| ScaleDown.UnneededAreJustified | autoscaler/cluster-autoscaler/core/scale_down.go:349-504 | Every node found unneeded is suitable, and empty or shown to have room for all its pods elsewhere. |
| ScaleDown.UnneededStaysOrIsRefused | autoscaler/cluster-autoscaler/core/scale_down.go:431-469 | An unneeded node that is still suitable stops being unneeded only if the simulation of its drain failed. |
| ScaleDown.OldMeansLong | autoscaler/cluster-autoscaler/core/scale_down.go:598-619 | A remembered time that is old enough means that every evaluation over a strictly longer span found the node unneeded. |
| ScaleDown.ScaleDown.PickCandidates | autoscaler/cluster-autoscaler/core/scale_down.go:595-657 | Exactly the eligible nodes, and each of them was unneeded in every evaluation over a span strictly longer than its threshold. |
| ScaleDown.ScaleDown.RemoveFromTracker | autoscaler/cluster-autoscaler/core/scale_down.go:712-713 | The node and everything invalidated are forgotten, and no unneeded node is left that shares a live target with it. |
| ScaleDown.ScaleDown.StartDrain | autoscaler/cluster-autoscaler/core/scale_down.go:683-718 | One candidate with room for all its pods elsewhere is drained, or every candidate was shown to have none; the history goes on with nodes being forgotten, and the tracker with the usages of the simulation and the removal of the node. |
| ScaleDown.ScaleDown.TryToScaleDown | autoscaler/cluster-autoscaler/core/scale_down.go:577-741 | Results are handed out first; then empty candidates are removed in bulk, or one node is drained, or nothing is done, each exactly when it should; what is removed was unneeded long enough and is forgotten; the history goes on with nodes being forgotten; the tracker gains, for each branch, exactly the removals of the nodes and the usages of the simulation. |
| ScaleDown.RemovedAreCandidates | autoscaler/cluster-autoscaler/core/scale_down.go:577-741 | Only candidates are removed, and only empty ones or ones with room for their pods elsewhere. |
| LoopProtocol.StepKeepsOneDrain | autoscaler/cluster-autoscaler/core/scale_down.go:716-736 | No step of the loop or of a drain breaks: the in-progress flag says whether a drain is under way, and at most one is. |
| LoopProtocol.StepKeepsResults | autoscaler/cluster-autoscaler/core/scale_down.go:94-107 | The results that can be handed out are exactly those recorded and not yet handed out or replaced. |
| LoopProtocol.RunKeepsInvariant | autoscaler/cluster-autoscaler/core/static_autoscaler.go:119-399 | Every state of every interleaved run satisfies the whole invariant. |
| LoopProtocol.CooldownsAreKept | autoscaler/cluster-autoscaler/core/static_autoscaler.go:302-396 | In any run no scale-down is tried in an iteration whose scale-up succeeded, nor before the delays after the start, scale-ups, deletions and failures are over. |
| LoopProtocol.OneDrainAtATime | autoscaler/cluster-autoscaler/core/static_autoscaler.go:353-396 | At every moment at most one node is drained, and no scale-down is past the gate then. |
| LoopProtocol.ResultsAreHandedOutOnce | autoscaler/cluster-autoscaler/core/scale_down.go:94-107 | No result is recorded or handed out twice. |
| LoopProtocol.HandedOutWereRecorded | autoscaler/cluster-autoscaler/core/scale_down.go:94-107 | Only results recorded before are handed out. |
| LoopProtocol.FateOfResults | autoscaler/cluster-autoscaler/core/scale_down.go:720-736 | A recorded result was handed out, or is waiting, or a newer one of the same node was recorded before results were handed out and took its place, so that it never is. |
| LostResults.CarefulRunsLoseNothing | autoscaler/cluster-autoscaler/core/scale_down.go:716-736 | If no drain of a node is started while the result of an ended one is outstanding, no result is ever replaced. |
| LostResults.StartIsSafeIff | autoscaler/cluster-autoscaler/core/scale_down.go:716-736 | Where nothing was lost so far, a start puts no result in danger before the next careless start, exactly if no ended drain of the node is outstanding. |
| LostResults.ResultIsLost | autoscaler/cluster-autoscaler/core/scale_down.go:716-736 | A run in which a result is lost: the node is drained again before its result was recorded. |
| LostResults.DrainDelaysNothing | autoscaler/cluster-autoscaler/core/static_autoscaler.go:353-367 | A run in which the gate is passed at the very time a drain ends. |
| LostResults.DelaysCountFrom | autoscaler/cluster-autoscaler/core/static_autoscaler.go:353-396 | In every run the delays count from the last scale-up, bulk deletion and failure, or the start; drains have no part in it. |
| StaticAutoscaler.StaticAutoscaler.TryToScaleUp | autoscaler/cluster-autoscaler/core/static_autoscaler.go:256-319 | When a scale-up ends the iteration, when it fails, and when scaling down is forbidden. |
| StaticAutoscaler.StaticAutoscaler.TryToScaleDown | autoscaler/cluster-autoscaler/core/static_autoscaler.go:353-396 | A scale-down is tried exactly if it is not forbidden, no delay is running and no node is being deleted; else the iteration is held back or forbidden; the times of deletions and failures follow; the history only gains that nodes are forgotten, the tracker what the scale-down does to it, and the results waiting are reported. |
| StaticAutoscaler.StaticAutoscaler.RunOnce | autoscaler/cluster-autoscaler/core/static_autoscaler.go:119-399 | What an iteration does, exactly when; which times change; when unneeded nodes are forgotten; that every node found unneeded was shown to be; that removed nodes were unneeded long enough; how the history continues; and which results are reported. |
| StaticAutoscaler.IterationIsARun | autoscaler/cluster-autoscaler/core/static_autoscaler.go:119-399 | An iteration as RunOnce promises it is a run of the protocol that ends in the same times, flag and waiting results. |
| Interleaving.RunsAreSerializable | autoscaler/cluster-autoscaler/core/scale_down.go:716-736 | Every interleaved run of complete iterations has one in which drains act only between iterations, with the same steps of the loop, open and closed gates included, and of the drains, each in the same order, the same events and the same end. |
| Turns.RemovedWasUnneeded | autoscaler/cluster-autoscaler/main.go:302-321 | A node whose removal begins in an iteration was shown to be unneeded by every evaluation in a row of iterations that reaches back further than its threshold; in none of them was the cluster in a bad state or the node removed. |
| MainLoop.Process.EndDrain | autoscaler/cluster-autoscaler/core/scale_down.go:720-724 | The in-progress flag of the object follows the step of the protocol. |
| MainLoop.Process.RecordResult | autoscaler/cluster-autoscaler/core/scale_down.go:720-736 | The results of the object follow the step of the protocol. |
| MainLoop.Process.Iterate | autoscaler/cluster-autoscaler/main.go:302-321 | Iterations and drain steps in any order keep times, flag, waiting results and history those of a run of the protocol and of the iterations so far; removed nodes were unneeded for long; the results reported are those that waited. |
| MainLoop.LogIsSafe | autoscaler/cluster-autoscaler/main.go:302-321 | So what the protocol promises of delays, drains and results holds of the objects. |
| ScaleUpLimits.ComputeResourcesLeftLimits | autoscaler/cluster-autoscaler/core/scale_up.go:50-102 | What may still be added of exactly the supported resources with a positive maximum, or failure. |
| ScaleUpLimits.CheckDeltaWithinLimits | autoscaler/cluster-autoscaler/core/scale_up.go:208-223 | Exactly the resources of which one node would exceed the limit. |
| ScaleUpLimits.ApplyResourcesLimits | autoscaler/cluster-autoscaler/core/scale_up.go:713-751 | The greatest number of nodes up to the request that respects every limit; it fails exactly if one node does not fit or a limit is unknown, in whatever order the resources are taken. |
| ScaleUpLimits.CapIsUnique | autoscaler/cluster-autoscaler/core/scale_up.go:713-751 | There is only one such number. |
| ScaleUpLimits.CapKeepsMaximum | autoscaler/cluster-autoscaler/core/scale_up.go:174-179 | The capped nodes keep the cluster within the configured maximum or what it already has. |
| ScaleUpLimits.CheckedMayStillFail | autoscaler/cluster-autoscaler/core/scale_up.go:727-749 | The check beforehand does not rule the error out: an unknown limit of a resource that the node does not use passes the check and still fails the cap. |
| ScaleUpLimits.NoMaximumReadsAsUnknown | autoscaler/cluster-autoscaler/core/scale_up.go:174-179 | With the greatest integer as maximum, what is left reads as unknown exactly when the cluster has none of the resource. |
| PodCache.PodSchedulableMap.Get | autoscaler/cluster-autoscaler/core/utils.go:81-95 | The verdict of the first entry that matches the pod. |
| PodCache.PodSchedulableMap.Set | autoscaler/cluster-autoscaler/core/utils.go:97-108 | An entry is added at the end of the controller's list; pods without a controller are not cached. |
| PodCache.FilterOutSchedulable | autoscaler/cluster-autoscaler/core/utils.go:113-149 | In order, exactly the pods whose representative fits nowhere; the predicates run once for each class of alike pods. |
| PodCache.CheckPodsSchedulableOnNode | autoscaler/cluster-autoscaler/core/utils.go:182-215 | For every pod the verdict of its representative; the predicates run once for each class of alike pods. |
| PodCache.CachedEqualsUncachedIff | autoscaler/cluster-autoscaler/core/utils.go:113-149 | The cached filter equals the uncached one exactly if every pod passes or fails as its representative does. |
| PodCache.ImpartialJudgeIsShared | autoscaler/cluster-autoscaler/core/utils.go:60-66 | If alike pods get the same verdict, every pod gets its own. |
| AsgCache.AsgCache.ParseExplicitAsgs | autoscaler/cluster-autoscaler/cloudprovider/aws/auto_scaling_groups.go:81-92 | Exactly the configured groups, each once, with the bounds first given for its name; failure exactly if one specification is not well-formed. |
| AsgCache.AsgCache.Register | autoscaler/cluster-autoscaler/cloudprovider/aws/auto_scaling_groups.go:95-127 | A known group takes over the data, but for the bounds of a configured one; a new group is appended. |
| AsgCache.AsgCache.Unregister | autoscaler/cluster-autoscaler/cloudprovider/aws/auto_scaling_groups.go:130-143 | Exactly the groups with that ref are dropped. |
| AsgCache.AsgCache.DeleteInstances | autoscaler/cluster-autoscaler/cloudprovider/aws/auto_scaling_groups.go:216-258 | What happens to instances of one group, of several, or uncached ones; the size of the group falls by the instances terminated and no other data changes. |
| AsgCache.NilDereferenceIff | autoscaler/cluster-autoscaler/cloudprovider/aws/auto_scaling_groups.go:228-239 | The error branch runs into a nil group exactly if an uncached instance follows cached ones of one group. |
| AwsNodeGroup.AwsNodeGroup.Belongs | autoscaler/cluster-autoscaler/cloudprovider/aws/aws_cloud_provider.go:235-248 | Whether the instance of a node is cached with the ref of the group, or its ID is wrong, or it is not cached. |
| AwsNodeGroup.AwsNodeGroup.DeleteNodes | autoscaler/cluster-autoscaler/cloudprovider/aws/aws_cloud_provider.go:251-271 | Nothing at the minimum size; else the first node that is not in the group is reported; else the instances are deleted up to the first refused termination, and only the size of the group falls. |
| AwsNodeGroup.ScreenedAreCommon | autoscaler/cluster-autoscaler/cloudprovider/aws/aws_cloud_provider.go:256-270 | With the index unchanged since the screen, the deletion comes neither to the nil group nor to different groups nor to an uncached instance. |
| AwsNodeGroup.RefreshAfterScreenMayFail | autoscaler/cluster-autoscaler/cloudprovider/aws/auto_scaling_groups.go:228-239 | Two screened instances, of which a refresh drops the second, lead to the nil group. |
| AwsNodeGroup.OneInstanceNeverFails | autoscaler/cluster-autoscaler/cloudprovider/aws/auto_scaling_groups.go:228-239 | One instance never does, screened or not. |
| AsgCache.AsgCache.BuildAsgNames | autoscaler/cluster-autoscaler/cloudprovider/aws/auto_scaling_groups.go:277-303 | The configured names, each once, then the discovered ones that are not configured. |
| AsgCache.AsgCache.Regenerate | autoscaler/cluster-autoscaler/cloudprovider/aws/auto_scaling_groups.go:306-356 | A refresh that succeeds leaves the refreshed groups and the indexes of what AWS described; one that fails leaves the indexes and drops no group; the cache stays consistent in both cases. |
| AsgCache.RefreshedIsExact | autoscaler/cluster-autoscaler/cloudprovider/aws/auto_scaling_groups.go:306-351 | After a successful refresh exactly the configured and the described groups are registered, each once, configured bounds kept. |
| AsgCache.LastDescriptionShows | autoscaler/cluster-autoscaler/cloudprovider/aws/auto_scaling_groups.go:327-342 | The record of a described group shows its last description, but for configured bounds. |
| AsgCache.IndexesAreInverseIff | autoscaler/cluster-autoscaler/cloudprovider/aws/auto_scaling_groups.go:327-342 | With no group described twice, the two instance indexes are inverse exactly if no instance is in two groups. |
| MetricSets.Aggregate | heapster/metrics/processors/helper.go:23-48 | All listed metrics of one set are added to another, or it fails at the first whose types do not agree. |
| MetricSets.TypedAdd | heapster/metrics/processors/helper.go:23-48 | With uniform types it succeeds, adds each metric that is listed once and leaves those that are not listed. |
| PodAggregator.AddContainer | heapster/metrics/processors/pod_aggregator.go:72-98 | Every metric of a container, in any order: skipped, taken over, added where sums are required, or left; failure exactly for a type that cannot be added. |
| PodAggregator.Process | heapster/metrics/processors/pod_aggregator.go:42-105 | The containers are merged one after the other in some order until one cannot be; with uniform types the order does not matter: every pod, existing or new, has its own value of a metric or else the sum over its containers. |
| PodOrder.OrderMattersIff | heapster/metrics/processors/pod_aggregator.go:72-98 | For a metric of a pod that is summed up, the value or the failure is the same in every order, exactly if all containers that report it report it with the same type. |
| PodOrder.StageMerges | heapster/metrics/processors/pod_aggregator.go:42-105 | In any order the stage fails exactly if merging a metric of a pod does; else each pod has what merging gives, or the value it had, or none of a skipped metric. |
| PodOrder.DeterminedIff | heapster/metrics/processors/pod_aggregator.go:42-105 | The stage succeeds in every order with the same values, exactly if any two containers of a pod report each metric that is summed up for it with values that can be added. |
| PodOrder.MixedTypesDependOnOrder | heapster/metrics/processors/pod_aggregator.go:72-98 | An input where the order matters: of two containers with values of different types, the one that is taken first gives the pod its value. |
| Aggregators.NamespaceAggregator | heapster/metrics/processors/namespace_aggregator.go:30-63 | The pods are added one after the other in some order until one cannot be; with uniform types every namespace set is what it was plus the sum over the pods of the namespace; sets are created as needed. |
| Aggregators.RegularOutcome | heapster/metrics/processors/namespace_aggregator.go:30-63 | With uniform types every order succeeds and leaves the same sums. |
| Aggregators.NodeAggregator | heapster/metrics/processors/node_aggregator.go:31-56 | The pods are added one after the other in some order until one cannot be; whatever the batch holds, only values of node sets change; with uniform types each node set gains the sum over its pods. |
| Aggregators.ClusterAggregator | heapster/metrics/processors/cluster_aggregator.go:27-40 | The cluster set is replaced by one to which the namespaces were added one after the other in some order, or nothing changes if one cannot be; with uniform types it holds the sum over all namespaces. |
| MetricConservation.NamespacesHoldPods | heapster/metrics/processors/namespace_aggregator.go:30-63 | All namespaces together hold what all pods hold. |
| MetricConservation.ClusterHoldsPods | heapster/metrics/processors/cluster_aggregator.go:27-40 | The cluster value of a metric is the sum over all pods of the pod-level value or else of its containers. |
| MetricConservation.AggregateAll | heapster/metrics/heapster.go:271-283 | The four stages on one batch conserve every listed metric that is not skipped. |
| Nanny.CalculateResources | autoscaler/addon-resizer/nanny/estimator.go:95-113 | For each name the base plus the amount for all nodes; the last entry of a name counts. |
| Nanny.OffsetsNest | autoscaler/addon-resizer/nanny/estimator.go:63-82 | Node counts moved by a larger offset enclose those moved by a smaller one, and never wrap below zero. |
| Nanny.RecommendedIsAcceptable | autoscaler/addon-resizer/nanny/estimator.go:86-91 | For every node count the recommended range lies in the acceptable one. |
| Nanny.ShouldOverwriteResources | autoscaler/addon-resizer/nanny/nanny_lib.go:57-68 | The first objection to limits or requests, in order. |
| Nanny.NothingToDoIff | autoscaler/addon-resizer/nanny/nanny_lib.go:31-68 | Nothing is overwritten exactly if limits and requests have exactly the estimated resources, all within range. |
| Nanny.PollOnce | autoscaler/addon-resizer/nanny/nanny_lib.go:86-123 | One poll: no change unless the server answers, an update is due and it is accepted. |
| Nanny.UpdateSettles | autoscaler/addon-resizer/nanny/nanny_lib.go:57-68 | After an update there is nothing to do at the same node count. |
| Nanny.NoFlapping | autoscaler/addon-resizer/nanny/nanny_lib.go:86-124 | However often it polls, at a constant node count the deployment changes at most once. |
| Nanny.FlapsIff | autoscaler/addon-resizer/nanny/nanny_lib.go:57-124 | At a node count where an update may leave something to do, some deployment is changed at every poll, however many; at any other none is changed twice. |
| Nanny.WideRecommendationFlaps | autoscaler/addon-resizer/nanny/nanny_lib.go:57-124 | With a wider recommendation and a resource that grows, some deployment is changed at every poll at a hundred nodes. |
| Nanny.AlwaysSettlesIff | autoscaler/addon-resizer/nanny/nanny_lib.go:57-68 | Updates settle at every node count exactly if the recommendation is not wider than what is acceptable, or no resource grows with the nodes. |

## Left out

- BasicEstimator.BasicNodeEstimator.Estimate: what the conversion of an infinite or undefined quotient to an
  integer gives depends on the machine and is a parameter; negative capacities are excluded.
- ScaleUpLimits.ApplyResourcesLimits: requires at least one node to be requested and non-negative limits and
  deltas, as its caller provides.
- ScaleDownLimits.GetEmptyNodes: a negative maximum for bulk deletions, which makes the code slice out of
  range, is excluded by the type.
- ScaleDown.ScaleDown.UpdateUnneededNodes: a negative pool size, which makes the code slice out of range, is
  excluded; the utilization of nodes is a given property of a node info.
- ClusterState.ClusterStateRegistry.UpdateNodes: an unregistered instance of a listed group has a group; the
  code would dereference nil otherwise.
- StaticAutoscaler.StaticAutoscaler.RunOnce: the steps before the scale-down part (listing, refreshing,
  fixing sizes, choosing and executing a scale-up) are given outcomes; their order and what follows from
  each are modelled. Drains running at the same time are modelled in `LoopProtocol`.
- MainLoop.Process.Iterate: iterations start at times that do not decrease, as the clock gives them, and a
  negative pool size is excluded; `RunOnce` is one call: runs with drain steps inside iterations are covered
  in the protocol, up to the equivalence of `Interleaving.RunsAreSerializable`.
- PodAggregator.Process: a failing stage returns no batch, so that what it left in the given one is not
  stated.
- Aggregators.NamespaceAggregator: the same; part of the metrics of the set at which it fails may have been
  added by then.
- PodOrder.DeterminedIff: no container set is kept under the key of a pod, as the key functions ensure;
  values are compared by type and amount, not by the unused one of their two fields.
- AwsNodeGroup.AwsNodeGroup.DeleteNodes: the cache is not refreshed between the screen and the deletion; the
  parsing of provider IDs is a parameter.
- ScaleDownTotals.BulkKeepsMinimums: no two nodes have the same name, and no GPU type is named like the CPU
  or memory resource.
- MetricConservation.AggregateAll: two keys of a batch never share one metric set, and float values are
  added exactly.
- Nanny.RecommendedIsAcceptable: node counts are below two to the 63, as the code's conversions need;
  products and quantities are exact, without float rounding or formatting.
- PodCache.FilterOutSchedulable: specs and labels are compared as values; the semantic equality of the API
  machinery (empty against absent, quantities written differently) is not modelled.
- AsgCache.AsgCache.ParseExplicitAsgs: splitting a specification string into sizes and a name.
- The sort of the pod scores is any permutation with non-increasing scores, and scores are exact rationals.
- Node infos, scale requests and metric sets are values; pointers shared between maps are not modelled.
- Scheduler predicates, drain rules and disruption budgets, utilization, GPU lookup, back-off of node groups
  and similar-group balancing are parameters or absent.
- Clearing of TPU requests, expendable and young pods and the choice among expansion options.
- The answers of the provider do not change during one update of the registry.
- Taints, evictions and retries, events, metrics, logging, status maps, locks.
- Integer overflow, other than the unsigned node counts of the addon resizer.
- The flags of the addon resizer and their parsing; `pod_nanny.go:116-121` gives storage the extra memory
  per node, not the extra storage.
- Strings that collide as concatenated keys: keys are tuples.
- The other Heapster processors, sources and sinks; the rest of the AWS provider; the other cloud providers.
