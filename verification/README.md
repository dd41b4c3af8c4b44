# KubeDevice scheduler: a verified model

KubeDevice extends the Kubernetes scheduler with hierarchical device resources. This project models the parts of it
that decide where things go and keep count of them, and proves what they promise. The model is written in Dafny 4.11;
`dafny verify dfyconfig.toml` checks all of it.

**The group allocator** (`Placement`, `SubGroupTable`, `ResourceUsage`, `GroupAllocation`, `GroupRoom`, `GrpAllocators`,
`GroupFit`, `Accounting`, `Scorer`, `Popcount`). `GrpAllocator` places a tree of required resource groups onto a tree of
allocatable ones. It tries each location on a clone, takes resources step by step, goes back to a restore point, and
charges the chosen locations once more in one batch. Resource names are sequences of path segments. The usage tables and
the table of locations are heap objects, as in the source: a sub group shares those of its parent, and a clone has
copies of its own. Proved: a placement is total and keeps the group hierarchy; the batch gives the same usage as the
steps, so that in an allocation of plain quantities that starts within capacity neither the call nor any call it leads
to reaches the error branch for a batch that fails after a successful trial; an allocation writes to no table that
existed before it, whether it succeeds or not, whereas a container that comes with its locations is charged in the
caller's tables, even in part when it does not fit; every location is tried once and the right one is kept; a group with
ample room somewhere for its whole tree of sub groups is always placed; a pod that comes with locations fits exactly if
its charge is within capacity, and one without fits if the node is spacious; a pod that fits is charged the greater of
the sum of its running containers and the most that one init container draws, within capacity; taking and returning pods
conserves usage over every run; no run of fitted pods overcommits. The bit-parallel `popcount` is proved equal to a
count of the bits, and the score of bit masks is stated bit by bit.

**The scheduler cache** (`NodeInfoList`, `CacheState`, `CacheVersions`, `CacheTotals`, `PodPhases`, `Snapshots`,
`SchedulerCaches`, `NodeInfos`, `NodeRing`, `NodeTrees`). The doubly linked list is modelled with its pointers. Proved
of every run, whatever the callers pass: the list holds the entries of the map in strictly decreasing generation; the
snapshot that stops at the first unchanged entry agrees with a full copy; the panic and the missing deadline of the
cleanup are not reached; no pod expires before its binding has finished; of each node the cache has what it was last
told. Proved of every run whose updates are between versions of one pod: every tracked pod is on exactly the node of its
record; the totals of every entry are the sums over its pods, under an exact condition on the versions of a pod that the
callers hand in; pods follow the documented state machine, and an assumed pod leaves at a cleanup exactly if the
deadline of its last finished binding has passed. Proved besides: the zones of the tree take turns; every window of
`NumNodes` calls of `Next` visits each place once, across resets, and returns different names exactly when no name is in
two zones; the incremental sums of a NodeInfo equal sums recomputed from its pods.

**The queue and the scheduling algorithms** (`KeyedHeap`, `PodBackoffs`, `BackoffQueues`, `SchedulingQueue`,
`FilterScan`, `Preemption`, `PickNode`). Proved: the indexed heap stays ordered and its two tables inverse, also when
its comparison changes between operations without turning round what it decided; so podBackoffQ, which is ordered by
backoff entries that change underneath it, gives up exactly the pods that have completed their backoff; in every run no
wakeup is lost, and a pending pod stays pending until an operation of its own takes it away; Pop returns a pod of the
highest priority that has waited longest; each operation takes each pod to one queue; the three queues stay disjoint
under updates of one pod; the concurrent scan ends and fills its slots exactly, under every interleaving; victim
selection is the lexicographic optimum among feasible choices; the tie-break returns a lexicographic minimum and never
overruns its buffers.

Go maps and the sorted orders derived from them are walked in an arbitrary order, so every result holds for each order.
`int64` is an unbounded integer except in the bit masks, `float64` is `real`, times are integers, and methods that hold a
lock are single steps.

Nine places where the code does not do what one would expect are stated as they are, with an input at which the
expectation fails and the exact condition under which it holds:

- An init container that draws twice from one resource is charged less by the accounting than by the fit
  (`GroupFit.DrawingTwiceChargesLess`); `GroupFit.ChargeEqualsFitExactly` says exactly when the two agree.
- A removed node stays in the snapshot when entries without a node make up for it in number
  (`Snapshots.RemovedNodeStays`); `Snapshots.RefreshedDropsGone` says exactly when.
- A node that is added under one name to two zones is returned twice in a sweep of the tree (`NodeTrees.SameNodeTwice`);
  `NodeRing.WindowNames`, `NodeTrees.NamesDifferInTree` and `FilterScan.SlotNames` say that this is the only way, and
  `NodeTrees.AddKeepsOneZone`, `RemoveKeepsOneZone` and `UpdateKeepsOneZone` which operations avoid it.
- `Update` of the queue can leave a pod in two queues (`SchedulingQueue.UpdateWithoutOldPodBreaks`,
  `SchedulingQueue.UpdateOfAnotherPodBreaks`); `SchedulingQueue.UpdateKeepsPartition` says exactly when.
- `Update` of the queue can drop a pod from all queues (`SchedulingQueue.UpdateLosesPod`);
  `SchedulingQueue.UpdateKeepsPending` says exactly when.
- `UpdatePod` of the cache with versions of two different pods breaks the cache (`CacheState.UpdateOfAnotherPodBreaks`);
  `CacheState.UpdateOfAnotherPod` says that no other successful update does.
- `AddNode` and `UpdateNode` of the cache move the entry to the head of the list before `SetNode` can fail, and then leave
  it there without a new generation (`CacheState.FailedNodeBreaks`), so that a refreshed snapshot can miss a pod
  (`Snapshots.FailedNodeHidesPod`); `CacheState.FailedNodeKeepsList` says exactly when the list stays in order.
- `AddPod` that confirms an assumed pod on its node puts the new version on record and leaves the old one in the entry, so
  that a later removal subtracts what was never added (`CacheTotals.ConfirmedPodBreaks`); `CacheTotals.StepKeepsTotals`,
  `StepKeepsRecord` and `ConfirmThenRemove` say exactly when the totals stay right.
- The comment on `LeftoverScoreFunc` promises a score between 0 and 1 (`Scorer.NegativeUseScoresBelowZero` is an input with
  a negative one); `Scorer.LeftoverScoreRange` says exactly when a fitting request gets one.

## Model

| member | source | states |
|---|---|---|
| `SubGroupTable.FindSubGroups` | device-scheduler/grpalloc/grpallocate.go:15-31 | the table holds, under each group name and index, exactly the names below that group instance; the flags mark exactly the names that lie in some sub group |
| `Placement.PlacedInSubGroup` | device-scheduler/grpalloc/grpallocate.go:76-95 | a placement of a sub group below its own bases is a placement below the enclosing bases: shapes and shared groups carry over one level up |
| `Placement.PlacedUnion` | device-scheduler/grpalloc/grpallocate.go:192-219 | placements of two name sets that share no group instance combine into one placement: shapes stay, and names of one instance are still drawn from one instance |
| `Placement.PlacementIsMap` | device-scheduler/grpalloc/grpallocate.go:76-384 | an allocation is one parent-consistent map of group instances: each required instance goes to an instance of the same group below the place of its parent, and every leaf is drawn from the place of its group |
| `GroupAllocation.SubGroupPlaced` | device-scheduler/grpalloc/grpallocate.go:192-219 | placing one more sub group instance keeps the placement of all instances before it |
| `GrpAllocators.GrpAllocator.CreateSubGroup` | device-scheduler/grpalloc/grpallocate.go:76-95 | the sub group has exactly the required names of its instance, at each index of the group exactly the allocatable names of the location below that instance, and a shorter remaining path, and shares the three tables of the enclosing group: they are the same objects |
| `GrpAllocators.GrpAllocator.CloneGroup` | device-scheduler/grpalloc/grpallocate.go:98-122 | a clone has equal state in three tables that are new and different objects, filled entry by entry, so work on it cannot show in the original |
| `GrpAllocators.GrpAllocator.ResourceAvailable` | device-scheduler/grpalloc/grpallocate.go:140-188 | success places every name of the group itself under the location, and moves usage of each resource by exactly what is drawn from it, within capacity; it succeeds whenever there is room for each name of the group itself |
| `GrpAllocators.GrpAllocator.AllocateSubGroups` | device-scheduler/grpalloc/grpallocate.go:192-219 | success places all names of all sub groups with their hierarchy, moves usage by exactly what they draw, and changes no other choice; it succeeds if there are none, and whenever some placement of the sub groups below the location exists on resources that each have room for all they request |
| `GrpAllocators.GrpAllocator.CollectRequests` | device-scheduler/grpalloc/grpallocate.go:225-237 | the requests collected against each allocatable resource add up to what the chosen locations draw from it; it succeeds exactly when every required name has an allocatable location |
| `GrpAllocators.GrpAllocator.FindScoreAndUpdate` | device-scheduler/grpalloc/grpallocate.go:221-262 | each plain resource at the location with room for the total drawn from it is charged with that total, in the allocator's own tables, whether or not the others have room; success means that all had room, within capacity, touches no other resource, and scores the group by the average over its resources of how full they are or, for bit masks, of the share of bits in use; with plain resources only it succeeds if and only if every name has an allocatable location and every resource has room |
| `GroupAllocation.TrialMakesBatchFit` | device-scheduler/grpalloc/grpallocate.go:264-293 | after a successful trial that started within capacity the batch from the restore point fits |
| `GroupAllocation.BatchAgreesWithTrial` | device-scheduler/grpalloc/grpallocate.go:264-293 | two-phase agreement: the batch gives every resource exactly the pod and node usage that the steps of the trial gave it |
| `GrpAllocators.GrpAllocator.AllocateGroupAt` | device-scheduler/grpalloc/grpallocate.go:264-293 | success is a placement of the whole group at the location with batch usage; for a running container with plain quantities that starts within capacity, a successful trial always leads to a successful batch with equal usage, usage stays within capacity in any case, and no batch fails in this call or any call below it, so the error branch is unreachable; the trial succeeds wherever there is ample room for the group |
| `GroupAllocation.ChoiceStep` | device-scheduler/grpalloc/grpallocate.go:335-371 | replacing the best so far as the loop does keeps it the right choice among all outcomes: a group already in use if preferred, then the highest score, then the last of several with that score |
| `GrpAllocators.GrpAllocator.FindBest` | device-scheduler/grpalloc/grpallocate.go:328-373 | every location is tried exactly once, and what came of it is a real allocation of the group or a failure at a location without room for a flat group and without ample room for a nested one; the kept one is the right choice among the successes in the order of the visits: a group that was in use before if preferred, the highest score, the last of equal scores; no table that existed before is written |
| `GrpAllocators.GrpAllocator.AllocateGroup` | device-scheduler/grpalloc/grpallocate.go:313-384 | on failure and on success alike no table that existed before the call is written; success leaves the allocator with new tables that hold usage and choices of an allocation at the best location, with every required name placed and the hierarchy kept; failure leaves it with the tables it had; the record of used groups only gains names below the group's prefix, among them the chosen location; plain usage stays within capacity and no batch fails; a group that requires nothing is found, and so is every group of plain nonnegative requests, at usage between zero and capacity, for which some placement of its whole tree exists on resources that each have room for all it requests; the recursion ends because the remaining paths get shorter |
| `Placement.PlacedBelow` | device-scheduler/grpalloc/grpallocate.go:76-95 | the converse of PlacedInSubGroup: a placement of one instance's names below the enclosing bases lies inside a single instance of the same group, and is a placement below the bases of the sub group there |
| `GroupRoom.SubGroupIsRoomy` | device-scheduler/grpalloc/grpallocate.go:192-219 | ample room for the sub groups that are left at a location is ample room for each of them at some location of its own |
| `GroupRoom.OthersStayRoomy` | device-scheduler/grpalloc/grpallocate.go:192-219 | placing one sub group, wherever it ends up, leaves ample room for those that are left |
| `GroupRoom.RoomyIsChosen` | device-scheduler/grpalloc/grpallocate.go:328-373 | a location with ample room is tried, works and scores no less than the search starts from, so something is chosen |
| `GroupRoom.NegativeUseHidesRoom` | device-scheduler/grpalloc/grpallocate.go:328-373 | a group that requests 1 of a resource of which 5 less than nothing of 10 is used has ample room and can be allocated, and yet is not found, because that scores below zero |
| `GroupFit.AllocateContainer` | device-scheduler/grpalloc/grpallocate.go:408-471 | the container's locations are total on its grouped requests and keep the hierarchy; plain grouped resources are charged within capacity; failure leaves the usage as it was; a container without grouped requests is found, and so is a plain running one for which there is a placement with room for all of it on each resource; the score is the average over the node's grouped resources once it is charged |
| `GroupFit.RecheckContainer` | device-scheduler/grpalloc/grpallocate.go:470-478 | a container that comes with locations is charged in the caller's tables: exactly the resources with room for what it draws, even when it does not fit as a whole; on a node with plain grouped resources it fits if and only if every grouped request is drawn from a grouped resource of the node and every grouped resource has room |
| `GroupFit.ContainerFits` | device-scheduler/grpalloc/grpallocate.go:387-493 | success charges each plain grouped resource with what the container draws, within capacity, and nothing else; locations already chosen are kept, missing ones are chosen well; a container without grouped requests fits, one with locations exactly if it fits where it is, and a running one without locations whenever there is ample room |
| `GroupFit.PodFits` | device-scheduler/grpalloc/grpallocate.go:526-576 | a pod that fits gives every plain grouped resource the usage Used plus the greater of what its running containers draw together and the most that one init container draws, at most Allocatable; all other resources are unchanged; each container's locations are kept or well chosen; a pod without grouped requests fits; a pod with nonnegative requests whose containers all have locations fits, on a node with plain grouped resources, if and only if every grouped request is drawn from a grouped resource of the node and, if there is one, Used plus the pod's charge is at most Allocatable on every grouped resource; a pod whose running containers come without locations and whose init containers request nothing fits if each container has a placement on resources that each have room for all the pod requests; the score is that of the running container fitted last |
| `GroupFit.FitsNext` | device-scheduler/grpalloc/grpallocate.go:532-576 | one more container, running or init, fits into the books of a pod that fits if and only if the pod with it fits |
| `GroupFit.FitsGrows` | device-scheduler/grpalloc/grpallocate.go:532-576 | a pod fits only if it does without any one of its containers |
| `GroupFit.RunNeverOvercommits` | device-scheduler/grpalloc/grpallocate.go:526-647 | in every run of Take and Return of pods with nonnegative requests, each fitted against Used before its Take, a plain resource that starts within Allocatable stays within it |
| `GroupFit.ChargeWithinFit` | device-scheduler/grpalloc/grpallocate.go:579-629 | for nonnegative requests the accounting never charges a pod more than the fit did |
| `GroupFit.ChargeEqualsFit` | device-scheduler/grpalloc/grpallocate.go:579-629 | the two charges are equal when no init container draws twice from the resource |
| `GroupFit.ChargeEqualsFitExactly` | device-scheduler/grpalloc/grpallocate.go:579-629 | the two charges are equal if and only if what each init container draws is reached by the running containers together or by a single init request |
| `GroupFit.DrawingTwiceChargesLess` | device-scheduler/grpalloc/grpallocate.go:585-592 | an init container with two requests drawn from one resource is charged their maximum by the accounting and their sum by the fit |
| `GroupFit.FitThenTake` | device-scheduler/grpalloc/grpallocate.go:632-638 | taking a freshly fitted pod gives every plain grouped resource at most the fit's usage and so at most Allocatable; equal when no init container draws twice |
| `Accounting.NodeInfo.UpdateForContainer` | device-scheduler/grpalloc/grpallocate.go:579-595 | every resource ends with the usage that its draws give it, whatever the order of the requests |
| `Accounting.NodeInfo.ComputePodGroupResources` | device-scheduler/grpalloc/grpallocate.go:598-629 | the pod's usage is the running total raised to the greatest init request, and the node's usage moves by exactly that, up or down, whatever the order of containers and requests |
| `Accounting.NodeInfo.TakePodGroupResource` | device-scheduler/grpalloc/grpallocate.go:632-638 | Used grows by the pod's charge on every plain resource |
| `Accounting.NodeInfo.ReturnPodGroupResource` | device-scheduler/grpalloc/grpallocate.go:641-647 | Used shrinks by the pod's charge on every plain resource |
| `Accounting.UsedIsConserved` | device-scheduler/grpalloc/grpallocate.go:632-647 | after any sequence of Take and Return, Used is its initial value plus the charges of the resident pods |
| `Accounting.ReturnUndoesTake` | device-scheduler/grpalloc/grpallocate.go:632-647 | a Return after a Take of the same pod restores every plain resource |
| `Scorer.LeftoverComposes` | device-scheduler/grpalloc/scorer/scorer.go:11-46 | for running containers, scoring some requests and then others on top leaves the same usage, score and verdict as scoring all at once |
| `Scorer.LeftoverInitOrder` | device-scheduler/grpalloc/scorer/scorer.go:11-46 | for init containers, scoring in two goes gives the same usage, score and verdict in either order, and scoring the same requests again changes nothing |
| `Scorer.FractionIsShare` | device-scheduler/grpalloc/scorer/scorer.go:35-45 | the score of a quantity is the share of it in use |
| `Scorer.NegativeUseScoresBelowZero` | device-scheduler/grpalloc/scorer/scorer.go:35-45 | a fitting request on a node with negative usage has a negative score |
| `Scorer.LeftoverScoreRange` | device-scheduler/grpalloc/scorer/scorer.go:35-45 | a fitting request scores between 0 and 1 exactly when nothing is allocatable, the use equals the capacity, or the capacity is positive and the use not negative |
| `Scorer.EnumScorer` | device-scheduler/grpalloc/scorer/scorer.go:76-107 | the loop computes the bit-mask score; the counts are those of Popcount |
| `Scorer.EnumScoreBits` | device-scheduler/grpalloc/scorer/scorer.go:76-107 | bit by bit: masks fit exactly if no bit is requested or at least one that is allocatable is, and the pod then uses exactly the allocatable bits that it used or some request asks for |
| `Scorer.EnumScoreRange` | device-scheduler/grpalloc/scorer/scorer.go:86-96 | the bit-mask score is between 0 and 1 for all masks |
| `Popcount.Popcount` | device-scheduler/grpalloc/scorer/scorer.go:62-73 | for every 64-bit word the bit-parallel computation returns the number of its one bits |
| `NodeInfoList.Unlink` | kube-scheduler/pkg/internal/cache/cache.go:145-150 | next and prev pointers of the other items run through the list without the item, in both directions |
| `NodeInfoList.MoveToFront` | kube-scheduler/pkg/internal/cache/cache.go:134-157 | the pointers run through the same items with this one first; no NodeInfo changes |
| `SchedulerCaches.SchedulerCache.MoveNodeInfoToHead` | kube-scheduler/pkg/internal/cache/cache.go:134-157 | the linked list keeps all entries, with the named one first and the others in their order; an unknown name changes nothing |
| `SchedulerCaches.SchedulerCache.RemoveNodeInfoFromList` | kube-scheduler/pkg/internal/cache/cache.go:162-180 | list and map lose exactly the named entry |
| `CacheState.ToHeadSorted` | kube-scheduler/pkg/internal/cache/cache.go:349-357 | moving an entry to the head with an unused generation keeps the list in strictly decreasing generation |
| `CacheState.WithPodKeeps` | kube-scheduler/pkg/internal/cache/cache.go:349-357 | addPod of an untracked pod keeps the order and puts the pod on exactly its node |
| `CacheState.WithoutPodKeeps` | kube-scheduler/pkg/internal/cache/cache.go:369-383 | removePod of a tracked pod succeeds, takes it off its node only, and drops the entry exactly when nothing is left of it |
| `CacheState.NodeKeeps` | kube-scheduler/pkg/internal/cache/cache.go:510-570 | adding, updating and removing a node keep the invariant: an entry exists exactly for a known node or for pods |
| `CacheState.ExpireKeeps` | kube-scheduler/pkg/internal/cache/cache.go:632-663 | one turn of the cleanup never panics nor dereferences a missing deadline, and keeps the invariant |
| `CacheState.StepKeepsInv` | kube-scheduler/pkg/internal/cache/cache.go:274-475 | every operation, UpdatePod with versions of one pod, keeps the whole invariant: list order, assumed pods within the records, each tracked pod on exactly the node of its record, entries only for known nodes or pods |
| `CacheState.StepKeepsList` | kube-scheduler/pkg/internal/cache/cache.go:274-663 | every operation with any arguments keeps the list in strictly decreasing generation |
| `CacheState.CleanupIsSafe` | kube-scheduler/pkg/internal/cache/cache.go:632-663 | in a state that operations with any arguments lead to, a turn of the cleanup meets neither the panic nor a missing deadline, and does what removing the overdue pod does |
| `CacheState.RunKeepsCore` | kube-scheduler/pkg/internal/cache/cache.go:274-663 | in every run with any arguments the list is in order, entries are under the names of their nodes, and assumed pods have a record, with a deadline once their binding has finished |
| `CacheState.UpdateOfAnotherPodBreaks` | kube-scheduler/pkg/internal/cache/cache.go:420-446 | from the empty cache: a pod is added and then updated to another pod; the update goes through and breaks the invariant |
| `CacheState.FailedNodeKeepsList` | kube-scheduler/pkg/internal/cache/cache.go:510-544 | when SetNode fails, the list stays in order exactly if the node is new to the cache or was first in the list |
| `CacheState.FailedNodeKeepsInv` | kube-scheduler/pkg/internal/cache/cache.go:510-544 | and so does the whole invariant |
| `CacheState.FailedNodeBreaks` | kube-scheduler/pkg/internal/cache/cache.go:510-544 | from the empty cache: two nodes are added, and a failing update of the first breaks the order of the list |
| `CacheTotals.StepMovesPods` | kube-scheduler/pkg/internal/cache/cache.go:349-383 | every operation changes the pods of the entries only by taking one version of a pod off an entry and putting one on |
| `CacheTotals.StepKeepsTotals` | kube-scheduler/pkg/internal/cache/cache.go:349-475 | an operation keeps every total the sum over the pods of its entry exactly when the version it takes off requests what the version in the entry does, or the entry has no node and no other pod |
| `CacheTotals.StepKeepsRecord` | kube-scheduler/pkg/internal/cache/cache.go:385-418 | the records go on to request what the entries hold exactly unless a confirmation changes what the pod requests |
| `CacheTotals.RunKeepsTotals` | kube-scheduler/pkg/internal/cache/cache.go:274-663 | in every run whose callers hand in versions that request what the record does, all totals are sums over the pods |
| `CacheTotals.ConfirmThenRemove` | kube-scheduler/pkg/internal/cache/cache.go:385-475 | confirming an assumed pod on its node and removing it leaves the totals right exactly when both versions request the same or the entry has no node and no other pod |
| `CacheTotals.ConfirmedPodBreaks` | kube-scheduler/pkg/internal/cache/cache.go:385-475 | from the empty cache: on a known node, a pod assumed, confirmed with other requests and removed leaves a wrong total |
| `CacheState.UpdateOfAnotherPod` | kube-scheduler/pkg/internal/cache/cache.go:420-446 | an update that goes through keeps the invariant exactly when both versions are of one pod |
| `CacheState.RunKeepsInv` | kube-scheduler/pkg/internal/cache/cache.go:274-570 | the invariant holds after every prefix of every run of cache operations whose updates are of one pod |
| `CacheVersions.NodeFollows` | kube-scheduler/pkg/internal/cache/cache.go:510-572 | AddNode and UpdateNode leave the cache with the node they were given, RemoveNode with none, and no other operation changes what is known of a node |
| `CacheVersions.RunKnowsNodes` | kube-scheduler/pkg/internal/cache/cache.go:510-572 | in every run, with any arguments, the cache has of each node what it was last told |
| `CacheVersions.HeldFollows` | kube-scheduler/pkg/internal/cache/cache.go:274-475 | which version of a pod is on which node after an operation: the given one where an assumed, added or updated pod goes, none of a pod that leaves the cache, and otherwise what was there; a pod confirmed on its node keeps the assumed version there |
| `CacheVersions.RecordFollows` | kube-scheduler/pkg/internal/cache/cache.go:274-475 | the version on record is the one last given to AssumePod, AddPod or UpdatePod with success |
| `PodPhases.StepFollowsDiagram` | kube-scheduler/pkg/internal/cache/interface.go:33-59 | an operation on a pod moves it along the arrows of the documented state machine and no others; expiry needs a finished binding and a passed deadline |
| `PodPhases.OthersKeepPhase` | kube-scheduler/pkg/internal/cache/interface.go:33-59 | an operation leaves the phase of every other pod alone |
| `PodPhases.FatalOnlyOnMismatch` | kube-scheduler/pkg/internal/cache/cache.go:420-475 | the process ends only in UpdatePod or RemovePod of an added pod, and only when a given node contradicts the record |
| `PodPhases.FinishThenExpire` | kube-scheduler/pkg/internal/cache/cache.go:300-317 | an assumed pod whose binding finishes with a deadline is gone after a cleanup later than the deadline and still assumed after an earlier one |
| `PodPhases.LastFinishOnRecord` | kube-scheduler/pkg/internal/cache/cache.go:300-317 | in every run, with any arguments, an assumed pod is on record as finished exactly if its binding has finished since it was assumed, with the deadline of the last time |
| `PodPhases.ExpiresAfterDeadline` | kube-scheduler/pkg/internal/cache/cache.go:632-663 | in every run, with any arguments, an assumed pod leaves at a cleanup only if its binding has finished since, the last time with a deadline before the cleanup; with updates between versions of one pod it leaves if and only if so |
| `Snapshots.StepIsLater` | kube-scheduler/pkg/nodeinfo/node_info.go:101-103 | whatever a cache operation changes has a generation that was not used before |
| `Snapshots.RefreshedIsFresh` | kube-scheduler/pkg/internal/cache/cache.go:210-246 | after a refresh every cached entry with a known node is in the snapshot as it is in the cache |
| `Snapshots.RefreshedDropsGone` | kube-scheduler/pkg/internal/cache/cache.go:238-244 | a refresh leaves no removed name in the snapshot exactly when there was none or the removed names outnumber the nodeless entries the snapshot never saw |
| `Snapshots.RefreshedIsFullCopy` | kube-scheduler/pkg/internal/cache/cache.go:210-246 | when every cached entry has a node, the incremental snapshot equals the full copy, names and contents |
| `Snapshots.RunRefreshIsFresh` | kube-scheduler/pkg/internal/cache/cache.go:210-246 | over every run, with any arguments and refreshes at any points, each refresh leaves every known node in the snapshot as it is in the cache |
| `Snapshots.FailedNodeHidesPod` | kube-scheduler/pkg/internal/cache/cache.go:220-232 | from the empty cache: two nodes are added, a snapshot taken, a pod added on the second and a failing update made of the first; the refreshed snapshot lacks the pod |
| `Snapshots.RemovedNodeStays` | kube-scheduler/pkg/internal/cache/cache.go:238-244 | a node removed while a pod sits on an unknown node stays in the refreshed snapshot |
| `SchedulerCaches.CopyChanged` | kube-scheduler/pkg/internal/cache/cache.go:220-232 | the walk along the list copies exactly the entries with a node in front of the first unchanged entry, whether or not the list is in order |
| `Snapshots.WalkDone` | kube-scheduler/pkg/internal/cache/cache.go:220-232 | because the list is in decreasing generation, nothing that changed lies beyond the point where the walk stops |
| `SchedulerCaches.SchedulerCache.UpdateNodeInfoSnapshot` | kube-scheduler/pkg/internal/cache/cache.go:210-246 | the snapshot becomes what the walk makes of it, on any cache; if the list is in order, that is the refreshed one: changed known nodes copied, newest generation, pruned when it has more names than the cache |
| `SchedulerCaches.SchedulerCache.AssumePod` | kube-scheduler/pkg/internal/cache/cache.go:274-293 | an unknown pod with a UID is added to its node and recorded as assumed; otherwise it fails and nothing changes |
| `SchedulerCaches.SchedulerCache.FinishBinding` | kube-scheduler/pkg/internal/cache/cache.go:300-317 | an assumed pod gets its deadline and counts as finished, so that the cleanup expires it after that (`PodPhases.FinishThenExpire`); any other pod is left alone |
| `SchedulerCaches.SchedulerCache.ForgetPod` | kube-scheduler/pkg/internal/cache/cache.go:319-346 | an assumed pod on the given node leaves node and records; otherwise it fails and nothing changes |
| `SchedulerCaches.SchedulerCache.AddPod` | kube-scheduler/pkg/internal/cache/cache.go:385-418 | an assumed pod is confirmed, moved if it turned up on another node; an unknown pod is added; an added pod fails |
| `SchedulerCaches.SchedulerCache.UpdatePod` | kube-scheduler/pkg/internal/cache/cache.go:420-446 | the old version is replaced by the new one on its node; the order of the list is kept in any case, and the invariant when both are of one pod |
| `SchedulerCaches.SchedulerCache.RemovePod` | kube-scheduler/pkg/internal/cache/cache.go:448-475 | an added pod leaves node and records; a contradicting node is fatal |
| `SchedulerCaches.SchedulerCache.SetNode` | kube-scheduler/pkg/internal/cache/cache.go:510-544 | the entry gets the node and a new generation and comes first in the list; if the node cannot be decoded it fails with the entry first but without a new generation, and the list stays in order exactly if the node was new or first |
| `SchedulerCaches.SchedulerCache.RemoveNode` | kube-scheduler/pkg/internal/cache/cache.go:546-570 | the entry loses its node and stays, first in the list, only if it has pods |
| `SchedulerCaches.SchedulerCache.CleanupAssumedPods` | kube-scheduler/pkg/internal/cache/cache.go:632-663 | on any cache the state is that after one turn for each assumed pod, in some order; on a valid one exactly the assumed pods with a finished binding and a passed deadline leave the records, whatever the order |
| `NodeInfos.CalculateResource` | kube-scheduler/pkg/nodeinfo/node_info.go:597-609 | CPU, memory, ephemeral storage and each scalar are the sums of what the containers request, a missing request counting for nothing, and the two nonzero figures are the sums with 100 millicores and 200 MB for a missing request |
| `NodeInfos.NodeInfo.AddPod` | kube-scheduler/pkg/nodeinfo/node_info.go:504-533 | the pod is appended, all sums and the affinity list still equal those recomputed from the pods, and the generation grows to one that was not given out before |
| `NodeInfos.NodeInfo.RemovePod` | kube-scheduler/pkg/nodeinfo/node_info.go:536-595 | the first pod with the UID leaves by a swap with the last, only its cell of the array changes, and the generation grows; all sums and the affinity list still equal those recomputed exactly when the pod handed in requests what the pod found does and the affinity list has that pod first under the UID, or none if it has no affinity; when there is none it fails, and pods, sums, affinity list and generation are as before |
| `NodeInfos.SummedRemove` | kube-scheduler/pkg/nodeinfo/node_info.go:565-580 | subtracting what one version of a pod requests for the loss of another keeps the sums exactly when both request the same |
| `NodeInfos.NodeInfo.Clone` | kube-scheduler/pkg/nodeinfo/node_info.go:439-475 | the clone has equal contents on an array of its own |
| `NodeTrees.DeleteGoingOn` | kube-scheduler/pkg/internal/cache/node_tree.go:125-132 | the in-place deletion that goes on after a hit removes exactly the zone, because zones are distinct |
| `NodeTrees.NodeTree.AddNode` | kube-scheduler/pkg/internal/cache/node_tree.go:79-95 | the node is appended to its zone unless it is there; the count stays right |
| `NodeTrees.NodeTree.RemoveNode` | kube-scheduler/pkg/internal/cache/node_tree.go:104-121 | exactly the node leaves, and an empty zone with it; it fails when there is no such node |
| `NodeTrees.NodeTree.UpdateNode` | kube-scheduler/pkg/internal/cache/node_tree.go:135-150 | a node that changed zone is moved, or added when it was unknown |
| `NodeTrees.NodeTree.NumNodesIsCount` | kube-scheduler/pkg/internal/cache/node_tree.go:189-193 | numNodes is the number of nodes in all zones |
| `NodeTrees.NodeTree.Next` | kube-scheduler/pkg/internal/cache/node_tree.go:161-186 | Next ends, returns the visit of the round-robin ring and leaves the ring one visit on; an empty tree gives the empty name |
| `NodeRing.RoundRobin` | kube-scheduler/pkg/internal/cache/node_tree.go:159-186 | in a sweep the zones take turns: of two visits the later one is to a later position of its zone, or to the same position of a later zone |
| `NodeRing.FirstSweep` | kube-scheduler/pkg/internal/cache/node_tree.go:152-186 | from a fresh state the zones run out after exactly NumNodes visits, no sooner |
| `NodeRing.Periodic` | kube-scheduler/pkg/internal/cache/node_tree.go:152-186 | the visits repeat with period NumNodes across resets |
| `NodeRing.WindowVisitsEachOnce` | kube-scheduler/pkg/internal/cache/node_tree.go:161-186 | every window of NumNodes consecutive visits, at any start, visits each place (zone and position) exactly once |
| `NodeRing.WindowNames` | kube-scheduler/pkg/internal/cache/node_tree.go:161-186 | the names of such a window are pairwise different exactly when no name is at two places |
| `NodeTrees.NamesDifferInTree` | kube-scheduler/pkg/internal/cache/node_tree.go:79-95 | in a valid tree no name is at two places exactly when no name is in two zones |
| `NodeTrees.AddKeepsOneZone` | kube-scheduler/pkg/internal/cache/node_tree.go:79-95 | adding a node keeps every name in one zone exactly when the name is in no other zone |
| `NodeTrees.RemoveKeepsOneZone` | kube-scheduler/pkg/internal/cache/node_tree.go:104-121 | removing a node always keeps every name in one zone |
| `NodeTrees.UpdateKeepsOneZone` | kube-scheduler/pkg/internal/cache/node_tree.go:135-150 | updating a node keeps every name in one zone exactly when its zone stays or the name is in no zone but the two |
| `NodeTrees.SameNodeTwice` | kube-scheduler/pkg/internal/cache/node_tree.go:79-186 | a node added under one name in two zones counts as two, and two calls of Next return it twice |
| `KeyedHeap.FirstIsLeast` | kube-scheduler/pkg/util/heap.go:186-192 | in an ordered heap nothing goes before the first object |
| `KeyedHeap.SwapKeepsInverse` | kube-scheduler/pkg/util/heap.go:87-93 | swapping two keys with their indices keeps key map and queue mutually inverse and swaps the two objects |
| `KeyedHeap.DownStep` | kube-scheduler/pkg/util/heap.go:134-146 | a sift step downwards to the smaller child leaves one disorder, one level down |
| `KeyedHeap.Heap.Swap` | kube-scheduler/pkg/util/heap.go:87-93 | key map and queue stay inverse, contents stay, two objects trade places |
| `KeyedHeap.Heap.Sift` | kube-scheduler/pkg/util/heap.go:134-146 | down and then up repair any change at one index, keep the contents and leave later positions alone |
| `KeyedHeap.Heap.Add` | kube-scheduler/pkg/util/heap.go:134-146 | the object is inserted or replaces the one with its key; the heap stays ordered and inverse; other objects are conserved |
| `KeyedHeap.Heap.AddIfNotPresent` | kube-scheduler/pkg/util/heap.go:150-159 | the object is inserted unless its key is there |
| `KeyedHeap.Heap.Delete` | kube-scheduler/pkg/util/heap.go:168-178 | exactly the object with that key leaves, wherever it is; it fails when there is none |
| `KeyedHeap.Heap.Peek` | kube-scheduler/pkg/util/heap.go:181-183 | an object that no other goes before, or none on an empty heap |
| `KeyedHeap.Heap.Pop` | kube-scheduler/pkg/util/heap.go:186-192 | an object that no other goes before leaves, all others stay |
| `KeyedHeap.Heap.GetByKey` | kube-scheduler/pkg/util/heap.go:204-210 | the object stored under the key, if any |
| `PodBackoffs.PodBackoff.GetEntry` | kube-scheduler/pkg/util/backoff_utils.go:119-133 | the entry of the pod, added with the default duration if there was none |
| `PodBackoffs.PodBackoff.BackoffPod` | kube-scheduler/pkg/util/backoff_utils.go:136-143 | the pod's backoff lasts from now for the returned duration, which is the next one; other entries stay |
| `PodBackoffs.PodBackoff.OldestTells` | kube-scheduler/pkg/util/backoff_utils.go:166-183 | the least recently updated entry tells whether any entry has expired |
| `PodBackoffs.PodBackoff.Gc` | kube-scheduler/pkg/util/backoff_utils.go:166-183 | although it stops at the first live head, exactly the expired entries are removed |
| `PodBackoffs.PodBackoff.GetBackoffTime` | kube-scheduler/pkg/util/backoff_utils.go:186-195 | the start of the pod's backoff plus its duration, if it has an entry |
| `PodBackoffs.PodBackoff.RestartedUntil` | kube-scheduler/pkg/internal/queue/scheduling_queue.go:398-406 | a backoff that has not run out goes on; otherwise the pod is backing off until now plus the default duration, or plus twice the last one, capped, and no other pod's backoff changes |
| `PodBackoffs.PodBackoff.ClearPodBackoff` | kube-scheduler/pkg/util/backoff_utils.go:198-207 | exactly the pod's entry leaves |
| `PodBackoffs.BackoffDoubles` | kube-scheduler/pkg/util/backoff_utils.go:69-81 | after n+1 backoffs the duration is the default times 2 to the n, capped at the maximum |
| `KeyedHeap.Heap.Reorder` | kube-scheduler/pkg/internal/queue/scheduling_queue.go:758-765 | a heap whose comparison changes is still a heap if the new comparison decides nothing between its objects that the old one did not decide |
| `BackoffQueues.OrderGoesOn` | kube-scheduler/pkg/internal/queue/scheduling_queue.go:758-765 | as time goes on and entries of other pods change, the order by backoff time, with all past times equal, only loses distinctions |
| `BackoffQueues.BackoffQueue.GcKeepsRanks` | kube-scheduler/pkg/util/backoff_utils.go:166-183 | an entry that is garbage collected has completed its backoff, so the order does not change with it |
| `BackoffQueues.BackoffQueue.Backoff` | kube-scheduler/pkg/internal/queue/scheduling_queue.go:398-406 | podBackoffQ stays a heap while entries expire and the backoff of a pod outside it starts again |
| `BackoffQueues.BackoffQueue.PopReady` | kube-scheduler/pkg/internal/queue/scheduling_queue.go:456-486 | the head leaves podBackoffQ unless it is backing off, and if it is, every pod in podBackoffQ is |
| `SchedulingQueue.ActiveQCompIsStrictWeak` | kube-scheduler/pkg/internal/queue/scheduling_queue.go:280-286 | priority, then time, is a strict weak order, as the heap needs |
| `SchedulingQueue.PriorityQueue.AddPod` | kube-scheduler/pkg/internal/queue/scheduling_queue.go:320-340 | the pod is active and in no other queue |
| `SchedulingQueue.PriorityQueue.AddPodIfNotPresent` | kube-scheduler/pkg/internal/queue/scheduling_queue.go:344-366 | the pod becomes active unless it is pending |
| `SchedulingQueue.PriorityQueue.BackoffPod` | kube-scheduler/pkg/internal/queue/scheduling_queue.go:398-406 | expired backoffs go, and the pod's backoff starts again if it has none or it has run out |
| `SchedulingQueue.PriorityQueue.AddUnschedulableIfNotPresent` | kube-scheduler/pkg/internal/queue/scheduling_queue.go:419-453 | a pod that is not pending goes to podBackoffQ if a move was requested since its cycle and to unschedulableQ otherwise, expired backoff entries go and its own starts again if it has run out; a pending pod fails and changes nothing |
| `SchedulingQueue.PriorityQueue.FlushBackoffQCompleted` | kube-scheduler/pkg/internal/queue/scheduling_queue.go:456-486 | exactly the pods of podBackoffQ that are not backing off move to activeQ, although it stops at the first head that is |
| `SchedulingQueue.PriorityQueue.FlushUnschedulableQLeftover` | kube-scheduler/pkg/internal/queue/scheduling_queue.go:490-506 | exactly the pods unschedulable for more than 60 seconds move on |
| `SchedulingQueue.PriorityQueue.PopPod` | kube-scheduler/pkg/internal/queue/scheduling_queue.go:511-530 | a look at a nonempty activeQ returns an active pod such that no active pod has a higher priority and none of the same priority an earlier timestamp; it leaves activeQ, and the scheduling cycle grows by one; a look at an empty one fails exactly if the queue is closed and otherwise waits, and changes nothing |
| `SchedulingQueue.PriorityQueue.UpdatePod` | kube-scheduler/pkg/internal/queue/scheduling_queue.go:549-604 | the pod is replaced where it is, and becomes active when it was backing off, changed while unschedulable, or unknown; its backoff entry is cleared exactly when it changed while unschedulable |
| `SchedulingQueue.PriorityQueue.DeletePod` | kube-scheduler/pkg/internal/queue/scheduling_queue.go:608-619 | the pod leaves activeQ, or else both other queues and the backoff entries |
| `SchedulingQueue.PriorityQueue.AssignedPodChanged` | kube-scheduler/pkg/internal/queue/scheduling_queue.go:623-635 | exactly the unschedulable pods with a matching affinity term move on, and the move request is recorded |
| `SchedulingQueue.PriorityQueue.MoveAllToActiveQueue` | kube-scheduler/pkg/internal/queue/scheduling_queue.go:641-659 | every unschedulable pod moves, to podBackoffQ while it is backing off and to activeQ otherwise |
| `SchedulingQueue.PriorityQueue.MovePodsToActiveQueue` | kube-scheduler/pkg/internal/queue/scheduling_queue.go:662-678 | the given pods move on, each to the queue its backoff calls for, whatever the order, and the move request is recorded |
| `SchedulingQueue.PlaceFollowsArrow` | kube-scheduler/pkg/internal/queue/scheduling_queue.go:320-678 | where every operation leaves every pod: a moved pod in podBackoffQ if it is backing off and in activeQ otherwise, an updated pod in activeQ, or still in unschedulableQ if it is the same but for its status, with the timestamp it had, and so on for each operation; all other pods stay |
| `SchedulingQueue.StepKeepsPartition` | kube-scheduler/pkg/internal/queue/scheduling_queue.go:320-678 | every operation, Update with versions of one pod, keeps the three queues pairwise disjoint |
| `SchedulingQueue.StepKeepsPending` | kube-scheduler/pkg/internal/queue/scheduling_queue.go:320-678 | which pods are pending after each operation: only Pop and Delete remove one, and Delete leaves the pod in no queue |
| `SchedulingQueue.StepKeepsApart` | kube-scheduler/pkg/internal/queue/scheduling_queue.go:320-678 | no operation, whatever it is called with, brings a pod into podBackoffQ and unschedulableQ at once |
| `SchedulingQueue.UpdateKeepsPartition` | kube-scheduler/pkg/internal/queue/scheduling_queue.go:549-604 | any update keeps the queues disjoint exactly when the new pod does not wait in a queue that Update does not take it from |
| `SchedulingQueue.UpdateWithoutOldPodBreaks` | kube-scheduler/pkg/internal/queue/scheduling_queue.go:549-604 | from the empty queue: a pod put into podBackoffQ after a move and updated without its old version is in two queues |
| `SchedulingQueue.UpdateOfAnotherPodBreaks` | kube-scheduler/pkg/internal/queue/scheduling_queue.go:549-604 | from the empty queue: so is one that replaces an active pod with another key |
| `SchedulingQueue.RunKeepsPartition` | kube-scheduler/pkg/internal/queue/scheduling_queue.go:320-678 | the queues are disjoint after every prefix of every run whose updates are of one pod |
| `SchedulingQueue.PendingUntilTaken` | kube-scheduler/pkg/internal/queue/scheduling_queue.go:320-678 | in every run, with any arguments, a pending pod stays pending until it is popped, deleted or replaced by a pod with another key |
| `SchedulingQueue.UpdateKeepsPending` | kube-scheduler/pkg/internal/queue/scheduling_queue.go:549-604 | any update leaves every pending pod pending exactly when it does not take an old pod out of podBackoffQ for a new one with another key |
| `SchedulingQueue.UpdateLosesPod` | kube-scheduler/pkg/internal/queue/scheduling_queue.go:549-604 | from the empty queue: a pod in podBackoffQ that is updated to one with another key is in no queue |
| `SchedulingQueue.NoLostWakeup` | kube-scheduler/pkg/internal/queue/scheduling_queue.go:419-453 | in every run, with any arguments, a pod popped as cycle c and put back with c goes to podBackoffQ if and only if a move was requested after that Pop |
| `FilterScan.SlotWrittenOnce` | kube-scheduler/pkg/core/generic_scheduler.go:469-521 | under every interleaving a store writes a slot below the limit that no store wrote before |
| `FilterScan.RunKeepsInv` | kube-scheduler/pkg/core/generic_scheduler.go:469-521 | under every interleaving the counter is the number of claims plus the workers about to take an increment back, each claimed slot is filled or about to be by one worker, and no visit is forgotten |
| `FilterScan.ScanResult` | kube-scheduler/pkg/core/generic_scheduler.go:469-521 | when all workers are done, filteredLen is the lesser of the limit and the number of visited nodes that fit, the slots below it are filled with different fitting visits, and every node was visited if there are fewer than the limit |
| `FilterScan.PiecesStep` | vendor/k8s.io/client-go/util/workqueue/parallelizer.go:38-71 | a piece that was taken leads to one visit unless the scan is cancelled, and never more visits than nodes |
| `FilterScan.ScanEnds` | kube-scheduler/pkg/core/generic_scheduler.go:469-521 | under every interleaving all workers are done after at most seven steps for each node and one for each worker |
| `FilterScan.NoNodeTwice` | kube-scheduler/pkg/core/generic_scheduler.go:469-521 | with the ring of the node tree underneath, different slots hold different places of the tree, and different nodes if no name is at two places |
| `FilterScan.SlotNames` | kube-scheduler/pkg/core/generic_scheduler.go:469-521 | a scan that asks for all nodes and finds all to fit has different nodes in its slots exactly when no name is at two places |
| `Preemption.RemoveLowerPriority` | kube-scheduler/pkg/core/generic_scheduler.go:1047-1067 | the loop over the slice that RemovePod shrinks and overwrites visits each original pod once: it collects exactly the lower-priority pods, in order, and leaves exactly the others |
| `Preemption.CollectStep` | kube-scheduler/pkg/nodeinfo/node_info.go:536-595 | a swap-delete at or before the cell being visited does not disturb the cells still to be visited |
| `Preemption.FilterPodsWithPDBViolation` | kube-scheduler/pkg/core/generic_scheduler.go:984-1016 | the pods are split, in order, into those that a budget with nothing left to disrupt selects and the others |
| `Preemption.SortByPriority` | kube-scheduler/pkg/util/utils.go:78-100 | the result is sorted by descending priority and has the same pods |
| `Preemption.SelectVictimsOnNode` | kube-scheduler/pkg/core/generic_scheduler.go:1033-1107 | it succeeds exactly when the pod fits without the lower-priority pods; the victims are those the greedy pass over violating and then other pods, each by priority, does not keep |
| `Preemption.SelectionFits` | kube-scheduler/pkg/core/generic_scheduler.go:1033-1107 | the pod fits once exactly the victims are gone |
| `Preemption.CountIsRight` | kube-scheduler/pkg/core/generic_scheduler.go:1093-1106 | the returned count is the number of victims that violate a budget |
| `Preemption.NothingBeatsGreedy` | kube-scheduler/pkg/core/generic_scheduler.go:1080-1105 | for a fit that is antitone in the resident pods, no feasible choice of pods to keep beats the greedy one lexicographically, and the greedy one beats every other |
| `Preemption.VictimsAreLower` | kube-scheduler/pkg/core/generic_scheduler.go:1060-1066 | every victim is a pod of the node with a lower priority than the pod to be scheduled |
| `Preemption.NoVictimCanReturn` | kube-scheduler/pkg/core/generic_scheduler.go:1033-1107 | for a fit that is antitone in the resident pods, no victim can be put back |
| `Preemption.SelectionIsBest` | kube-scheduler/pkg/core/generic_scheduler.go:1033-1107 | no feasible kept set beats the result in the order violating by priority, then others by priority, also when there are no victims |
| `PickNode.KeepLeast` | kube-scheduler/pkg/core/generic_scheduler.go:870-887 | one tie-break stage over a reused buffer keeps exactly the nodes with the least score, without overrunning it |
| `PickNode.PickOneNodeForPreemption` | kube-scheduler/pkg/core/generic_scheduler.go:838-941 | it returns nothing exactly on no candidates, a node without victims if there is one, and otherwise a node no worse than any other in the number of budget violations, then the priority of the first victim, then the sum over its victims of priority plus 2^31, then the number of victims; the last error branch is unreachable |

## Left out

- GrpAllocators.GrpAllocator.AllocateGroup: promises success only where there is ample room; the greedy search is not complete. It asks that no use is negative, because a place that scores below zero is not taken (`GroupRoom.NegativeUseHidesRoom`).
- GroupFit.PodFits: promises of containers without locations that they fit only on a spacious node and with init containers that request nothing; init containers are left out for the reason below.
- The two-phase agreement is stated for running containers, plain quantities and no per-request scorer, because init containers are maximised request by request in the trial and over their sum in the batch.
- The helpers of the KubeDevice-API module (resource name patterns, the device group prefix, prechecked and enumerated resources) are not part of this model; the prefix is a parameter with at least two segments, as the code needs.
- `AlwaysFoundScoreFunc`, `SetScorer` and `GetDefaultScorer` are one-line case selections.
- Overflow of `int64` sums and rounding of `float64` scores.
- Host ports, devices, images, taints and transient information in NodeInfo; the cache's entries are values with a node, pods and a generation.
- Image states and the node tree as fields of the cache.
- GrpAllocators.GrpAllocator.FindScoreAndUpdate: says of a bit mask that its score is the share of the bits it ends with, and not which bits those are; `Scorer.EnumScoreBits` states that for one call.
- The wake-up of a waiting Pop by the condition variable: a wait is an outcome of one look at the queue.
- SchedulingQueue.PriorityQueue.UpdatePod: asks that a pod in unschedulableQ is not in podBackoffQ as well, which `SchedulingQueue.StepKeepsApart` gives after any operations, and comes with its old version, because the code dereferences that.
- SchedulingQueue.PriorityQueue.AddUnschedulableIfNotPresent: asks that the clock does not go back.
- SchedulingQueue.PriorityQueue.FlushBackoffQCompleted: asks that the clock does not go back.
- SchedulingQueue.PriorityQueue.BackoffPod: asks that the clock does not go back, and for a pod outside podBackoffQ, as its caller has it.
- PodBackoffs.PodBackoff.constructor: asks that the default duration is at most the maximum; the queue uses 1 and 10 seconds.
- SchedulingQueue.PriorityQueue.DeletePod: takes the pod out of podBackoffQ before it clears the pod's entry, where the code does it after; the heap does not look at an object that it removes.
- KeyedHeap.Heap.Pop: asks for a nonempty heap, because `container/heap` indexes out of range on an empty one.
- Nominated pods, the FIFO queue, pod status updates and metrics.
- Individual predicates, label selectors and inter-pod affinity: a fit is a predicate on the resident pods, and a budget says which pods it selects.
- PickNode.PickOneNodeForPreemption: asks for violations of at most MaxInt32 and victim lists short enough for the sums to fit in 64 bits, because the code compares with those limits.
- Extenders, volumes, priority functions, and everything that talks to the API server.
