# Verified model of the serving control plane

This project models the memory, admission, batching and routing logic of the serving
control plane, and proves properties of it over every input and every run.

- `Models`: requests, GPU nodes and KV blocks. Gigabytes are exact rationals, one KV block is
  2/1024 GB, and `time.monotonic()` is an arbitrary stream of readings.
- `EvictionPolicies`, `BlockPools`: LRU, LFU and Belady, plus any other policy that chooses by the
  history of its hook calls, under one contract; scans of a pool and of the prefix index.
- `KVCache`, `KVCacheProofs`, `KVCacheRuns`, `KVCacheManagers`: the cache manager as functions on
  values, what one operation does, what whole runs keep, and the class over block objects whose
  loops are proved to do the same.
- `AccessTimes`, `AccessHistories`, `AccessCounts`, `ClockReadings`: what LRU, LFU and Belady know
  of a block after a run, in terms of what the operations did with it, and what they therefore
  evict.
- `BatchOptimizers`, `BatchMinimality`: sort and greedy cut, optimal among contiguous cuts, and
  the exact condition under which it is optimal among all groupings.
- `Placement`, `NodeChoices`, `Harness`, `BenchmarkHarnesses`, `RequestSpread`, `Fairness`:
  placement and the three baseline schedulers, which node they choose in terms of its counters,
  the replay loop of the benchmark harness, how it spreads requests over the nodes, and Jain's
  index.
- `Admission`, `AdmissionDecisions`, `LoadShedding`, `KVAware`, `KVAwareRuns`,
  `KVAwareSchedulers`: the admission gate, when it gives each answer and when it sheds load, and
  the KV-aware scheduler with its ledger, over every run of arrivals, completions, failures and
  cache operations by whoever shares its manager.
- `KVAwareReplays`, `KVAwareHarnesses`, `DoubleAllocations`, `StrandedRequests`: the benchmark
  harness with that scheduler, on the shared manager, as one of those runs; what it means that
  both allocate for the same request, and that nobody completes what was placed from the queue.
- `WaitingRequests`: that replay from a start with nothing in flight, where who waits waits for
  good.
- `MoERouting`, `ExpertChoices`, `CacheSimulator`, `SimulatorVictims`: the expert router and what
  its choice weighs; the cache simulator and what its policies evict.
- `FailureInjection`, `FailureRuns`, `FaultStrength`, `FailureInjectors`: the fault injector as
  functions, its runs, when and how strongly it strikes, and its class.

State-changing code has two forms here: a function on values, about which the theorems are
stated, and a class or method with the source's own loops and fields whose `ensures` ties its
new state to that function. Random draws, spill risks and latency estimates are parameters,
so the theorems hold for all of them.

Preconditions follow the source: a positive block size, fresh request ids, completions and
failures that come with the assigned node, and, for the theorems about memory pressure, nodes
that start idle with a pool inside the 60 % share.

## What the code does that its documentation does not say

- README.md:169-171 of the repository reports spills and a 0 % cache hit rate for the baselines in
  the harness. In the code they can never spill (`Harness.FreshClustersNeverSpill`).
- README.md:83 says preemption frees room for REALTIME requests. It cannot change the placement
  (`KVAware.SecondPlaceFails`). It frees cache blocks exactly when the most loaded node holds an
  unpinned live block and too few vacant ones (`KVAwareRuns.PreemptionFreesIff`), and the
  scheduler never unpins any itself, since completions free an empty list
  (control_plane/scheduler/kv_aware_scheduler.py:195): while nobody else frees on the manager, no
  preemption frees a block (`KVAwareRuns.PreemptionNeverFrees`). The benchmark harness does free
  on it (benchmarks/harness.py:131), but from fresh nodes its ledger is empty whenever a request
  arrives or is drained, so there no preemption ever frees a block either
  (`WaitingRequests.LedgerStaysEmpty`, with the proviso on the spill-risk model below).
- README.md:172 reports a cache hit rate for the KV-aware scheduler. In the harness admission has
  allocated for a request, and registered its prefix, before the harness looks it up, so a
  completed request that names a prefix counts as a hit whenever admission got a block for it, the
  first request included (`DoubleAllocations.AdmissionAnswersItself`). The blocks that admission
  allocates for completed requests without a prefix are never given back, whatever else the trace
  holds (`DoubleAllocations.LeaksAddUp`), so over any trace they add up to no more than the pool
  (`DoubleAllocations.PoolRunsDry`).
- While nobody else forces evictions, the headroom that admission reads comes back only when a
  preemption frees blocks (`KVAwareRuns.HeadroomNeedsPreemption`): until then a size of request
  refused for lack of it stays refused (`KVAwareRuns.ExhaustionIsPermanent`). In the harness from
  fresh nodes it is refused for good (`WaitingRequests.RefusedForGood`).
- The harness records a request that waits as rejected. From fresh nodes that is the last word on
  it: it waits for good, and between requests nothing is in flight and all nodes are idle
  (`WaitingRequests.LedgerStaysEmpty`), given that the spill-risk model, if it is on, is a
  function of the request and the nodes. From other starts, or with a risk that changes, a
  completion may place it all the same (`WaitingRequests.StrandedIff`,
  `WaitingRequests.SomeoneIsStranded`), and then it holds its node for good
  (`StrandedRequests.NobodyCompletesDrained`).
- control_plane/scheduler/round_robin.py:21 calls round-robin perfectly fair in terms of request
  count. In the replay that holds of every trace from a set of requests if and only if each of
  them fits all nodes or none (`RequestSpread.RoundRobinEvenIff`). The load-aware baselines see no
  load in the harness and do not spread requests at all (`RequestSpread.LoadAwareNeverSpreads`).
- `BatchOptimizer` forms minimal batches among contiguous cuts of the sorted list. Among all
  groupings it does so for every list of a range of token counts if and only if the number of
  requests decides what fits (`BatchMinimality.AlwaysMinimalIff`); otherwise reordering can save
  batches (`BatchMinimality.MiddleBlocks`, `BatchMinimality.ReorderingCanBeat`).
- The imbalance of the expert router is documented as 0.0 for perfect balance; it is never 0, and
  1 for a router that has routed nothing (`MoERouting.ImbalanceRange`).
- A scheduled transient fault that names its node, or has struck before, does not stay recovered:
  it strikes again at the next step (`FailureRuns.RecoveryLastsOneStep`). A memory spike can free
  KV blocks (`FailureRuns.SpikeOnFullPool`).
- The cache simulator counts hits on an empty pool (`CacheSimulator.EmptyPoolReportsHits`).
- The count of LFU is that of the accesses since a block was last filled, unless the block was
  freed while it was empty (`AccessCounts.CountsSinceFilledIff`,
  `AccessCounts.FreeingEmptyCounts`).

## Model

| member | source | states |
|---|---|---|
| Models.Request.KvBlocksNeeded | core/models.py:270-274 | the least positive number of 16-token blocks that holds prompt and output |
| Models.DerivedKvTotalIsLargest | core/models.py:85-90 | the pool a node derives is the largest one whose blocks fit in 60 % of its memory |
| Models.GPUNode.constructor | core/models.py:85-90 | a new node is idle, and a derived pool fits the 60 % share while one block more would not |
| Models.GPUNode.Allocate | core/models.py:117-120 | the counters after an allocation, all other attributes unchanged |
| Models.GPUNode.Release | core/models.py:122-125 | the counters after a release, each clamped at zero, all other attributes unchanged |
| Models.FitsIff | core/models.py:111-115 | fitting in terms of the counters: the blocks are left in the pool and their 2 MiB each in memory |
| Models.PressureIsShare | core/models.py:96-99 | memory pressure times total memory is used memory |
| EvictionPolicies.FirstLeastIsFirstLeast | control_plane/kv_cache_manager/eviction_policy.py:64 | min returns a least-ranked element and the first of those |
| EvictionPolicies.PickVictimContract | control_plane/kv_cache_manager/eviction_policy.py:60-64 | every policy names an unpinned candidate, names none only if all are pinned, and LRU, LFU and Belady name one of least rank; what that rank is, the next three rows say |
| EvictionPolicies.LRUTakesEarliest | control_plane/kv_cache_manager/eviction_policy.py:60-64 | LRU takes the first unpinned candidate with the earliest recorded time |
| EvictionPolicies.LFUTakesLeastUsed | control_plane/kv_cache_manager/eviction_policy.py:88-92 | LFU takes the first unpinned candidate with the smallest count |
| EvictionPolicies.BeladyTakesFurthest | control_plane/kv_cache_manager/eviction_policy.py:119-128 | Belady takes the first unpinned candidate that no other is used later than, one that is never used again if there is any |
| EvictionPolicies.EvictionPolicy.OnAccess | control_plane/kv_cache_manager/eviction_policy.py:50-52 | only LRU reads the clock, and it writes the same reading into its table and into the block |
| EvictionPolicies.EvictionPolicy.OnAllocate | control_plane/kv_cache_manager/eviction_policy.py:54-55 | the policy state after on_allocate; only LRU reads the clock |
| EvictionPolicies.EvictionPolicy.OnFree | control_plane/kv_cache_manager/eviction_policy.py:57-58 | the policy forgets the block |
| EvictionPolicies.EvictionPolicy.PickVictim | control_plane/kv_cache_manager/eviction_policy.py:60-64 | the loops over block objects pick exactly the victim that the policy value picks, so under LRU, LFU and Belady the one that the rows above describe |
| BlockPools.SelectIds | control_plane/kv_cache_manager/kv_cache_manager.py:222-225 | a comprehension over the pool yields the blocks of its kind, each once, in pool order |
| BlockPools.UnlinkSpec | control_plane/kv_cache_manager/kv_cache_manager.py:231-236 | eviction drops exactly the victim from its prefix entry, drops an emptied entry and touches no other |
| BlockPools.RemoveTakesFirst | control_plane/kv_cache_manager/kv_cache_manager.py:233-234 | removing a block from an entry takes out its first place and keeps the others in order |
| KVCacheProofs.FreeBlocksIsVacant | control_plane/kv_cache_manager/kv_cache_manager.py:264-266 | the reported free blocks are exactly the empty unpinned blocks a scan of the node finds |
| KVCacheProofs.MaybeEvictSpec | control_plane/kv_cache_manager/kv_cache_manager.py:210-248 | the loop ends having evicted exactly min(max(0, needed - free), evictable) blocks, a least-ranked set of them under LRU, LFU and Belady, and index and counters still agree with the pool |
| KVCacheProofs.ReusedSpec | control_plane/kv_cache_manager/kv_cache_manager.py:122-132 | a prefix is reused whole or not at all, and every reused block is live on the node and carries the prefix |
| KVCacheProofs.AllocateServed | control_plane/kv_cache_manager/kv_cache_manager.py:106-182 | the whole effect of one allocate: evicted blocks emptied, reused ones pinned, taken ones filled and pinned, every other block, entry and node counter unchanged |
| KVCacheProofs.AllocateKeepsInv | control_plane/kv_cache_manager/kv_cache_manager.py:106-182 | allocate keeps the prefix index and the counters equal to a scan of the pool |
| KVCacheProofs.AllocateHandsOut | control_plane/kv_cache_manager/kv_cache_manager.py:148-182 | the caller receives distinct, live, pinned blocks of the node carrying its prefix; their number is r + min(max(0, needed - r), unpinned blocks left) |
| KVCacheProofs.SpillMeansAllPinned | control_plane/kv_cache_manager/kv_cache_manager.py:154-164 | the spill counter rises exactly when fewer blocks than needed are returned, and then every block of the node is pinned |
| KVCacheRuns.EmptyInv | control_plane/kv_cache_manager/kv_cache_manager.py:47-65 | a manager without nodes is consistent |
| KVCacheRuns.AddNodeKeepsInv | control_plane/kv_cache_manager/kv_cache_manager.py:74-91 | adding a node the manager does not know keeps it consistent; the node starts with zero counters and nothing pinned |
| KVCacheRuns.ApplyKeepsInv | control_plane/kv_cache_manager/kv_cache_manager.py:74-252 | allocate, free with kept prefixes, force_evict and add_node each keep index and counters equal to the pool |
| KVCacheRuns.Run | control_plane/kv_cache_manager/kv_cache_manager.py:74-252 | every run of these operations and of add_node, on any nodes and under any policy, keeps index and counters equal to the pool |
| KVCacheRuns.StepConserves | control_plane/kv_cache_manager/kv_cache_manager.py:175-244 | one operation: used blocks plus evictions grow by the fresh blocks handed out, and only force_evict gives headroom back |
| KVCacheRuns.FreshIsUsedPlusEvicted | control_plane/kv_cache_manager/kv_cache_manager.py:175-244 | over every run, fresh blocks handed out are the blocks in use plus the blocks evicted |
| KVCacheRuns.HeadroomNeverGrows | control_plane/kv_cache_manager/kv_cache_manager.py:264-266 | over every run without force_evict the free block count of a node never grows |
| KVCacheRuns.CountersCountAnswers | control_plane/kv_cache_manager/kv_cache_manager.py:119-182 | over every run the hit and miss counters of a node count the hit flags that its callers got |
| KVCacheRuns.StepCounts | control_plane/kv_cache_manager/kv_cache_manager.py:119-164 | one operation: only an allocate moves these counters, by one hit or one miss as it reports, and by one spill exactly if it returns too few blocks |
| KVCacheRuns.PinnedSurvives | control_plane/kv_cache_manager/kv_cache_manager.py:221-245 | over every run a pinned block that nobody frees stays pinned with its tokens and prefix |
| KVCacheRuns.PinnedNeverReissued | control_plane/kv_cache_manager/kv_cache_manager.py:149-176 | and no later allocate hands it out as a fresh block |
| KVCacheRuns.NodesAreIndependent | control_plane/kv_cache_manager/kv_cache_manager.py:106-248 | runs on other nodes leave a node's blocks and statistics exactly as they were |
| KVCacheRuns.RunKeepsDated | control_plane/kv_cache_manager/eviction_policy.py:50-58 | under LRU the recorded access time of every live block stays equal to its last_accessed field |
| KVCacheRuns.LRUEvictsOldest | control_plane/kv_cache_manager/eviction_policy.py:60-64 | after any run no evictable survivor of an eviction under LRU is older than any victim |
| AccessTimes.AllocateDates | control_plane/kv_cache_manager/kv_cache_manager.py:119-173 | under LRU an allocate stamps every block it reuses or takes with a clock reading of this call, and no other live block |
| AccessTimes.FreeDates | control_plane/kv_cache_manager/kv_cache_manager.py:188-204 | under LRU a free stamps every listed block with a reading of this call, and no other live block |
| AccessTimes.MaybeEvictTicks | control_plane/kv_cache_manager/kv_cache_manager.py:238-242 | an eviction stamps exactly the blocks that go, with readings of this call |
| AccessTimes.RunDates | control_plane/kv_cache_manager/eviction_policy.py:50-55 | after any run under LRU a live block carries a reading taken in the last operation that reused, took or freed it |
| AccessTimes.LRUEvictsLeastRecent | control_plane/kv_cache_manager/eviction_policy.py:39-64 | after any run, if the clock moves on with every reading, the last access of a block that LRU gives up comes no later in the run than that of any evictable block it keeps |
| AccessCounts.ApplyFollows | control_plane/kv_cache_manager/kv_cache_manager.py:106-252 | one operation moves the count of LFU and the queue of Belady of every block exactly by what it did with the block, read off its answer: reused, taken, listed or evicted |
| AccessCounts.RunFollows | control_plane/kv_cache_manager/kv_cache_manager.py:106-252 | so does every run, on any nodes |
| AccessCounts.LFUEvictsLeastUsed | control_plane/kv_cache_manager/eviction_policy.py:67-92 | after any run no evictable block that LFU keeps was accessed less often, since it was last emptied or created, than one it gives up |
| AccessCounts.BeladyEvictsFurthest | control_plane/kv_cache_manager/eviction_policy.py:107-128 | after any run no evictable block that Belady keeps is used later than one it gives up, each access of the run having consumed one known use |
| AccessCounts.LFUCountsSinceFilled | control_plane/kv_cache_manager/eviction_policy.py:79-86 | over every run in which free is given only live blocks, the count of LFU is the number of accesses since the block was last filled, and an empty block has none |
| AccessCounts.CountsSinceFilledIff | control_plane/kv_cache_manager/eviction_policy.py:79-86 | over every run at all, exactly when that count is the number of accesses since the last filling: if and only if the block was not freed while empty |
| AccessCounts.FreeingEmptyCounts | control_plane/kv_cache_manager/kv_cache_manager.py:188-204 | a run where it is not: one block, freed before it was ever filled |
| AccessCounts.EvictedIsForgotten | control_plane/kv_cache_manager/kv_cache_manager.py:238-239 | the policy forgets exactly the blocks that an eviction takes |
| KVCacheRuns.DropKeepsInvIffClean | control_plane/kv_cache_manager/kv_cache_manager.py:196-204 | freeing without keeping prefixes leaves the manager consistent if and only if no listed block is still indexed, no live one is on another node and the list counts the live blocks it empties |
| KVCacheRuns.DropAfterAllocateIff | control_plane/kv_cache_manager/kv_cache_manager.py:196-204 | giving back all that an allocate returned, fresh or reused, without keeping prefixes leaves the manager consistent if and only if the request named no prefix or got no block |
| KVCacheManagers.KVCacheManager.AddNode | control_plane/kv_cache_manager/kv_cache_manager.py:74-91 | the objects and dictionaries built for a new node, through the clock readings taken for them; a consistent manager stays so |
| KVCacheManagers.KVCacheManager.ChooseVictim | control_plane/kv_cache_manager/kv_cache_manager.py:222-226 | the victim object is the one the policy names among the scanned candidates |
| KVCacheManagers.KVCacheManager.RemoveBlock | control_plane/kv_cache_manager/kv_cache_manager.py:233-234 | list.remove on block objects is removal by block id |
| KVCacheManagers.KVCacheManager.MaybeEvict | control_plane/kv_cache_manager/kv_cache_manager.py:210-248 | the loop over block objects ends in the specified state and returns how many blocks it evicted |
| KVCacheManagers.KVCacheManager.ForceEvict | control_plane/kv_cache_manager/kv_cache_manager.py:250-252 | force_evict tops the free blocks up to n and returns how many it evicted, on any manager, also one that an earlier free left inconsistent |
| KVCacheManagers.KVCacheManager.Free | control_plane/kv_cache_manager/kv_cache_manager.py:188-204 | both modes of free, block by block, on any manager; a consistent one stays so exactly if prefixes are kept or the drop is clean |
| KVCacheManagers.KVCacheManager.Lookup | control_plane/kv_cache_manager/kv_cache_manager.py:119-143 | the prefix lookup: reused objects, pins, recency and the hit or miss count |
| KVCacheManagers.KVCacheManager.Take | control_plane/kv_cache_manager/kv_cache_manager.py:148-180 | the allocation loop, the counters and the new index entry |
| KVCacheManagers.KVCacheManager.Allocate | control_plane/kv_cache_manager/kv_cache_manager.py:106-182 | allocate on objects, on any manager, ends in the specified state and returns the reused then the taken blocks and the hit flag; a consistent manager stays so |
| BatchOptimizers.StableSortIsStable | ml/batch_optimizer/batch_optimizer.py:87-91 | the sort orders by its keys, loses nothing and keeps equal keys in order; which class comes first, the next row says |
| BatchOptimizers.SortServesInOrder | ml/batch_optimizer/batch_optimizer.py:87-91 | REALTIME comes before every other class, BATCH after every other, and each class goes by arrival |
| BatchOptimizers.FormBatches | ml/batch_optimizer/batch_optimizer.py:74-112 | the loop cuts the sorted list into batches that serve REALTIME first and BATCH last, each class by arrival; a batch of several requests keeps both caps and ends only where the next request would break one; nothing is lost or duplicated, and no feasible contiguous cut has fewer batches |
| BatchOptimizers.StaysAhead | ml/batch_optimizer/batch_optimizer.py:97-112 | after k batches the greedy cut has covered at least as much as any feasible cut |
| BatchOptimizers.TightCutIsShortest | ml/batch_optimizer/batch_optimizer.py:97-112 | no feasible contiguous cut has fewer batches |
| BatchOptimizers.NobodyWaitsLonger | ml/batch_optimizer/batch_optimizer.py:97-112 | no request sits in a later batch than in any other feasible cut |
| BatchOptimizers.TightCutsAreOptimal | ml/batch_optimizer/batch_optimizer.py:88-112 | a cut closed only when the next request would not fit is a minimal cut of the sorted list and holds exactly the pending requests |
| BatchOptimizers.TightCount | ml/batch_optimizer/batch_optimizer.py:97-112 | every batch but the last is full or heavy together with the next |
| BatchOptimizers.BatchCountBound | ml/batch_optimizer/batch_optimizer.py:97-112 | at most 1 + n / max_size + 2 T / max_tokens batches |
| BatchOptimizers.AnyGroupingBound | ml/batch_optimizer/batch_optimizer.py:74-112 | against groupings in any order the greedy cut needs at most 1 + 3 m batches |
| BatchMinimality.CountDecidesOptimal | ml/batch_optimizer/batch_optimizer.py:74-112 | if any k requests of the range fit in a batch and no k + 1 do, form_batches is minimal among all groupings, contiguous or not, and forms exactly as many batches as k at a time need |
| BatchMinimality.SmallLoadsOptimal | ml/batch_optimizer/batch_optimizer.py:74-112 | so it is whenever max_size requests of the largest token count stay within max_tokens |
| BatchMinimality.EqualLoadsOptimal | ml/batch_optimizer/batch_optimizer.py:74-112 | and whenever all requests have the same token count, whatever the caps |
| BatchMinimality.MiddleBlocks | ml/batch_optimizer/batch_optimizer.py:97-112 | whenever the first and third of three requests in arrival order fit together and neither fits with the second, form_batches needs three batches where two hold them |
| BatchMinimality.ReorderingCanBeat | ml/batch_optimizer/batch_optimizer.py:48-50 | such a pending list, for which everything form_batches can return is longer than another grouping |
| BatchMinimality.AlwaysMinimalIff | ml/batch_optimizer/batch_optimizer.py:74-112 | exactly when form_batches is minimal among all groupings for every pending list with token counts in a range: if and only if the number of requests alone decides what fits |
| Fairness.CauchySchwarz | benchmarks/harness.py:216-225 | the square of a sum is at most n times the sum of squares, with equality exactly for equal positive rates |
| Fairness.IndexRange | benchmarks/harness.py:216-225 | the index of n positive rates lies in [1/n, 1] and is 1 exactly when all are equal |
| Fairness.FairnessIsShare | benchmarks/harness.py:216-225 | whatever the results, the reported fairness is positive, at most 1, and at least one over the number of positive rates |
| Fairness.FairIff | benchmarks/harness.py:216-225 | the reported fairness is 1 exactly if the tokens and times of all served requests are proportional, whatever the results |
| Placement.BestIsFirstMaximum | control_plane/placement_engine/placement_engine.py:89-90 | max returns the first best of the feasible entries, and nothing only if there is none |
| Placement.PlaceFindsBest | control_plane/placement_engine/placement_engine.py:62-106 | place returns a decision exactly when some node fits, and then a fitting node of highest score |
| NodeChoices.PlaceWeighs | control_plane/placement_engine/placement_engine.py:89-149 | the node placed has no disadvantage against any that fits and an advantage over every earlier one, weighing the differences of free share, pressure, load, hit rate, NVLink and TTFT estimate |
| Placement.RotateSpec | control_plane/scheduler/round_robin.py:31-49 | the cursor visits each node at most once per call, takes the first fitting one in cyclic order and stops behind it |
| Placement.BaselinesConserveWork | control_plane/scheduler/least_loaded.py:27-44 | round-robin, least-loaded and memory-aware accept exactly the same requests in the same state, namely when some node fits |
| NodeChoices.LeastLoadedChoice | control_plane/scheduler/least_loaded.py:27-44 | least-loaded takes the first fitting node with the fewest running requests, and the lowest pressure among those |
| NodeChoices.LeastLoadedStaysEven | control_plane/scheduler/least_loaded.py:37-39 | over every run without completions on nodes that all keep fitting, the counts of running requests stay within one of each other |
| NodeChoices.MemoryAwareChoice | control_plane/scheduler/memory_aware.py:38-53 | memory-aware takes the first fitting node whose greater free share, weighed by alpha, makes up for its greater load, weighed by beta, against every fitting node |
| NodeChoices.MemoryAwareNeverPassesOver | control_plane/scheduler/memory_aware.py:38-53 | so with positive weights no fitting node is passed over for one with no more room and more load, or less room and no less load |
| Harness.RoundTrip | core/models.py:117-125 | releasing right after allocating gives an idle node back as it was |
| Harness.NoSpill | control_plane/kv_cache_manager/kv_cache_manager.py:145-166 | with nothing pinned a request that fits the node's pool never spills, however full the pool is of cached prefixes |
| Harness.FreedUnpins | benchmarks/harness.py:106-132 | freeing what was allocated unpins everything again and keeps the manager consistent |
| Harness.ReplayRound | benchmarks/harness.py:84-135 | one replayed request: nodes idle and nothing pinned afterwards, the outcome faithful to the request |
| Harness.RoundKeepsSteady | benchmarks/harness.py:84-135 | one round keeps the manager consistent and serving all nodes, whatever was busy or pinned before |
| Harness.Replay | benchmarks/harness.py:84-135 | a whole trace can be replayed from any state that a consistent manager serves, busy nodes and pinned blocks included, and ends in such a state; one outcome per request |
| Harness.BaselinesNeverSpill | benchmarks/harness.py:84-135 | for every trace and baseline every node is idle and no block pinned between requests, a request is rejected exactly when no idle node fits it, and no spill is ever counted |
| Harness.RoundMovesCounters | benchmarks/harness.py:84-135 | one request, also on busy nodes: the outcome names the node chosen, and that node counts one hit or miss as reported, and a spill exactly if too few blocks came back |
| Harness.ReplayReportsCounters | benchmarks/harness.py:84-135 | over every trace the outcomes report the hits and misses that the manager counted on each node |
| Harness.FreshIsBetween | control_plane/kv_cache_manager/kv_cache_manager.py:47-91 | idle nodes with distinct ids, the manager built for them under any policy and any baseline are a state the replay can start from |
| Harness.FreshClustersNeverSpill | benchmarks/harness.py:84-135 | end to end: from fresh nodes with derived pools, over every trace, exactly the requests larger than every pool are rejected, and every spill counter is still 0 |
| Harness.RejectedMeansTooBig | benchmarks/harness.py:88-101 | on nodes with a derived pool a rejected request is one larger than every node's whole pool |
| RequestSpread.EvenTurns | control_plane/scheduler/round_robin.py:31-49 | over every trace of requests that fit all nodes or none, the node j places ahead of the cursor has served exactly m / n of the m accepted requests, plus one if j < m mod n |
| RequestSpread.RoundRobinEvenIff | control_plane/scheduler/round_robin.py:15-25 | exactly when no node serves two requests more than another, on every trace from a set of requests: if and only if each of them fits all nodes or none |
| RequestSpread.LoadAwareNeverSpreads | control_plane/scheduler/least_loaded.py:27-44 | in the replay least-loaded and memory-aware send every accepted request to the first node that it fits |
| BenchmarkHarnesses.BaselineScheduler.NextFitting | control_plane/scheduler/round_robin.py:31-49 | the loop over node objects moves the cursor and finds the node as specified |
| BenchmarkHarnesses.BaselineScheduler.BestFeasible | control_plane/scheduler/memory_aware.py:38-53 | the loop over node objects finds the node with the fewest running requests and the lowest pressure, or the one whose weighed share and load are best, first among equals |
| BenchmarkHarnesses.BaselineScheduler.Schedule | control_plane/scheduler/least_loaded.py:27-44 | the node so chosen, or the next fitting one in turn, and only that node is charged |
| BenchmarkHarnesses.BaselineScheduler.OnComplete | control_plane/scheduler/round_robin.py:51-52 | the node is released by what the request needs |
| BenchmarkHarnesses.BenchmarkHarness.Serve | benchmarks/harness.py:87-132 | one request through a baseline scheduler, the manager and the release, on objects, also on busy nodes |
| BenchmarkHarnesses.BenchmarkHarness.Run | benchmarks/harness.py:84-135 | the replay loop with a baseline scheduler, on objects, produces the specified outcomes and final state, also from busy nodes; from idle ones the outcomes are faithful and the nodes unchanged |
| Admission.DecideAccounts | control_plane/admission_controller/admission_controller.py:82-141 | each decision is counted once in accepted, rejected or the queue; only a BATCH request is queued, at the tail, and never beyond the maximum |
| AdmissionDecisions.DecideIff | control_plane/admission_controller/admission_controller.py:82-141 | exactly when decide gives each of its answers, in terms of the means of the nodes' counters: shed exactly a REALTIME request at pressure up to 0.99 and load above 0.85 whose draw times 0.15 is below 0.95 times the excess |
| AdmissionDecisions.DecideCounts | control_plane/admission_controller/admission_controller.py:82-169 | what each answer does to the counters and the queue |
| AdmissionDecisions.LowPressureAccepts | control_plane/admission_controller/admission_controller.py:90-141 | below the memory thresholds a request other than BATCH that is not shed is accepted exactly if some node has headroom and the model, if on, draws at most 0.85 |
| AdmissionDecisions.ShedNeedsLoad | control_plane/sla_policy/sla_policy.py:129-136 | nobody is shed unless more than 17 requests per node are running on average |
| LoadShedding.ShedOnlyUnderLoad | control_plane/sla_policy/sla_policy.py:129-136 | after every run of the scheduler who is shed is REALTIME, and more than 17 requests per node are in flight |
| LoadShedding.NobodyIsShed | benchmarks/harness.py:84-135 | in the replay from fresh nodes nobody is ever shed, whatever is drawn |
| Admission.PopSplits | control_plane/admission_controller/admission_controller.py:143-157 | pop_queued splits the queue into an exact prefix, of up to n while pressure is below the threshold, and the rest, counts the prefix as accepted and changes nothing else |
| Admission.ClusterPressureBound | control_plane/admission_controller/admission_controller.py:176-179 | if every node uses at most 60 % of its memory, so does the cluster on average |
| Admission.LowPressureDecisions | control_plane/admission_controller/admission_controller.py:100-126 | below that pressure no memory branch is taken and a BATCH request is never rejected |
| KVAware.SecondPlaceFails | control_plane/scheduler/kv_aware_scheduler.py:140-144 | after a failed placement, preemption cannot make the second placement succeed |
| KVAware.AnswersAre | control_plane/scheduler/kv_aware_scheduler.py:116-189 | each answer of schedule in terms of the gate's decision: placed exactly if the gate accepts and some node fits, and counted once |
| KVAware.ScheduleWeighs | control_plane/scheduler/kv_aware_scheduler.py:137-154 | a placed request goes to a fitting node without a disadvantage against any other that fits, at the hit rates of the manager |
| KVAware.HintsAre | control_plane/placement_engine/placement_engine.py:119-124 | the hit rate that placement reads is hits over lookups of the node |
| KVAware.MostLoadedIs | control_plane/scheduler/kv_aware_scheduler.py:248-249 | preemption asks the first node that uses the greatest part of its memory |
| KVAware.BalancedIsLow | core/models.py:111-115 | a node whose counters are the sums over its requests uses at most 60 % of its memory, and fitting is a matter of blocks alone |
| KVAware.CommitBalances | control_plane/scheduler/kv_aware_scheduler.py:161-168 | entering a request on a node that fits it keeps each node's counters equal to the sums over its requests |
| KVAware.ReleaseBalances | control_plane/scheduler/kv_aware_scheduler.py:192-196 | releasing an entry keeps them so, and no clamp fires |
| KVAwareRuns.ScheduleKeeps | control_plane/scheduler/kv_aware_scheduler.py:106-189 | one schedule call keeps the whole invariant, takes one decision and at most appends its request to the queue |
| KVAwareRuns.RetireKeeps | control_plane/scheduler/kv_aware_scheduler.py:192-196 | taking a request off its node keeps the invariant, and the request is no longer in flight |
| KVAwareRuns.DrainFacts | control_plane/scheduler/kv_aware_scheduler.py:198-201 | draining decides each popped request once, keeps those still waiting in front and rejects no BATCH request while there is room for all that were popped |
| KVAwareRuns.CompletionDropsNobody | control_plane/scheduler/kv_aware_scheduler.py:191-201 | a completion re-decides the first 16 waiting requests and never drops one at a full queue |
| KVAwareRuns.StepKeeps | control_plane/scheduler/kv_aware_scheduler.py:106-207 | every arrival, completion, failure and cache operation by whoever shares the manager keeps the invariant, accounts for its decisions and only moves the queue forward |
| KVAwareRuns.Run | control_plane/scheduler/kv_aware_scheduler.py:106-207 | in every run, with any allocate, free, force_evict or add_node by others in between, each node's counters are the sums over its requests in flight, within its pool, the manager is consistent and only BATCH requests wait |
| KVAwareRuns.StartIsGood | control_plane/scheduler/kv_aware_scheduler.py:66-100 | idle nodes, an empty queue and the default thresholds satisfy the invariant, whatever the manager holds |
| KVAwareRuns.PressureStaysLow | core/models.py:96-115 | in every reachable state memory pressure is at most 0.60 and a request fits exactly when its blocks do |
| KVAwareRuns.MemoryBranchesAreDead | control_plane/admission_controller/admission_controller.py:100-126 | after any run the memory branches of decide are unreachable and a BATCH request is accepted or queued |
| KVAwareRuns.AdmissionConserves | control_plane/admission_controller/admission_controller.py:82-169 | over every run accepted plus rejected plus waiting grows by the number of decide calls |
| KVAwareRuns.QueueAdvances | control_plane/scheduler/kv_aware_scheduler.py:198-201 | each completion moves a waiting request 16 places forward, whatever arrives in between |
| KVAwareRuns.BoundedWaiting | control_plane/scheduler/kv_aware_scheduler.py:198-201 | a request at index i of the queue is re-decided by completion number i / 16 + 1 at the latest |
| KVAwareRuns.PreemptionNeverFrees | control_plane/scheduler/kv_aware_scheduler.py:213-246 | while nobody else frees on the manager, no preemption of any run frees a block: everything live is still pinned |
| KVAwareRuns.PreemptionFreesIff | control_plane/scheduler/kv_aware_scheduler.py:213-246 | exactly when a preemption frees: it may preempt, the most loaded node holds an unpinned live block, and fewer blocks are vacant there than the request needs; and exactly then it is counted |
| KVAwareRuns.HeadroomNeedsPreemption | control_plane/scheduler/kv_aware_scheduler.py:213-246 | over every run without outside evictions a node shows more free cache blocks than before only if a preemption has freed some |
| KVAwareRuns.ExhaustionIsPermanent | control_plane/admission_controller/admission_controller.py:127-138 | once no node shows enough free cache blocks, no request of that size is accepted in any later state until a preemption has freed blocks; with everything live pinned and no outside free, or with preemption off, none ever does |
| KVAwareRuns.FailWithoutNode | control_plane/scheduler/kv_aware_scheduler.py:203-207 | on_fail without a node keeps the node counters right if and only if the request was not in flight |
| KVAwareSchedulers.AdmissionController.LoadNow | control_plane/admission_controller/admission_controller.py:171-174 | the mean of the compute utilisations, by loop over node objects |
| KVAwareSchedulers.AdmissionController.PressureNow | control_plane/admission_controller/admission_controller.py:176-179 | the mean of the memory pressures, by loop over node objects |
| KVAwareSchedulers.AdmissionController.HeadroomNow | control_plane/admission_controller/admission_controller.py:127-132 | some node has enough free cache blocks |
| KVAwareSchedulers.AdmissionController.Decide | control_plane/admission_controller/admission_controller.py:82-141 | every branch of decide on the controller's own fields, with the answers of AdmissionDecisions.DecideIff |
| KVAwareSchedulers.AdmissionController.PopQueued | control_plane/admission_controller/admission_controller.py:143-157 | the loop that splits the queue |
| KVAwareSchedulers.KVAwareSLAScheduler.TryPreemptFor | control_plane/scheduler/kv_aware_scheduler.py:213-246 | preemption on objects: which node is asked, what is evicted and counted |
| KVAwareSchedulers.KVAwareSLAScheduler.CommitTo | control_plane/scheduler/kv_aware_scheduler.py:154-170 | allocation, node update, ledger entry and counter |
| KVAwareSchedulers.KVAwareSLAScheduler.Schedule | control_plane/scheduler/kv_aware_scheduler.py:106-189 | schedule on objects gives the specified state and answer |
| KVAwareSchedulers.KVAwareSLAScheduler.OnComplete | control_plane/scheduler/kv_aware_scheduler.py:191-201 | completion and draining on objects give the specified state, also when the ledger is wrong; a good state stays good |
| KVAwareSchedulers.KVAwareSLAScheduler.OnFail | control_plane/scheduler/kv_aware_scheduler.py:203-207 | failure on objects gives the specified state |
| KVAwareReplays.RoundIsARun | benchmarks/harness.py:84-135 | one request of the harness is a short legal run: arrival, the harness's own allocate and free on the shared manager, completion; and it leaves no new id behind |
| KVAwareReplays.ReplayIsARun | benchmarks/harness.py:84-135 | the harness with the KV-aware scheduler, over every trace of fresh ids, is a legal run, so every run theorem holds of it |
| KVAwareReplays.ReplayStaysLow | benchmarks/harness.py:84-135 | after any such trace memory pressure is at most 0.60 everywhere and a BATCH request would not be rejected |
| KVAwareReplays.ReplayExhausts | benchmarks/harness.py:84-135 | in the harness from any start, although it frees on the shared manager, a size of request for which no node shows headroom is not accepted again before a preemption has freed blocks |
| KVAwareReplays.FreshIsGood | control_plane/scheduler/kv_aware_scheduler.py:66-100 | fresh nodes with derived pools and the manager built for them satisfy what that replay needs |
| KVAwareHarnesses.KVAwareHarness.UseCache | benchmarks/harness.py:104-131 | the harness's own allocate and free on the manager it shares with the scheduler, on objects |
| KVAwareHarnesses.KVAwareHarness.Serve | benchmarks/harness.py:87-132 | one request through the KV-aware scheduler and the shared manager, on objects |
| KVAwareHarnesses.KVAwareHarness.Run | benchmarks/harness.py:84-135 | the replay loop with the KV-aware scheduler, on objects, produces the specified outcomes and final state |
| DoubleAllocations.AgainReuses | control_plane/kv_cache_manager/kv_cache_manager.py:119-180 | allocating again for the same request reuses exactly the blocks of the first time if it names a prefix, and none otherwise |
| DoubleAllocations.FirstBlocksAfter | benchmarks/harness.py:104-131 | admission's blocks after the harness has allocated and freed its own: unpinned if and only if the request names a prefix |
| DoubleAllocations.AdmissionAnswersItself | benchmarks/harness.py:87-107 | in the harness a request is completed exactly if schedule places it, on that node; it is a cache hit if and only if it names a prefix and admission got a block for it, also when nobody asked for that prefix before, and spilled if and only if it got too few blocks |
| DoubleAllocations.ServeLeaks | benchmarks/harness.py:87-132 | one request, with or without a prefix: no lost pin comes back, and without a prefix every block that admission allocated for it joins the lost ones |
| DoubleAllocations.LeaksAddUp | benchmarks/harness.py:84-135 | over every trace, prefixes or not, the lost pins grow by all that admission allocated for the completed requests without a prefix |
| DoubleAllocations.PoolRunsDry | benchmarks/harness.py:84-135 | so over every trace what admission allocates for completed requests without a prefix never adds up to more than the pool, and is never given back |
| StrandedRequests.ServeAppends | control_plane/scheduler/kv_aware_scheduler.py:191-201 | one request of the harness leaves all that was in flight in flight, and what joins was waiting or is recorded as rejected |
| StrandedRequests.NobodyCompletesDrained | benchmarks/harness.py:84-135 | over every trace and from every start, what completions place while draining stays in flight: those requests were waiting or are recorded as rejected, and their blocks and slots on the nodes are never given back |
| WaitingRequests.WaitingPlacedIff | control_plane/admission_controller/admission_controller.py:100-141 | exactly when a waiting request that is drained gets placed: some node shows enough free cache blocks, the risk drawn is not above 0.85 and some node fits it |
| WaitingRequests.DrainTurnsQueue | control_plane/scheduler/kv_aware_scheduler.py:198-201 | draining requests that lack headroom or are too risky only turns the queue round |
| WaitingRequests.RoundSettles | benchmarks/harness.py:87-132 | one request of the harness, with nothing in flight and everyone who waits stuck: the nodes come back exactly as they were, nothing stays in flight, no headroom is gained and who waited still waits and is still stuck |
| WaitingRequests.LedgerStaysEmpty | benchmarks/harness.py:84-135 | over every trace from such a start: nothing in flight and all nodes idle between requests, no preemption has freed a block, and who waits waits for good |
| WaitingRequests.RefusedForGood | control_plane/admission_controller/admission_controller.py:127-138 | from such a start a size of request for which no node shows enough free cache blocks is accepted after no further trace |
| WaitingRequests.FreshIsSettled | control_plane/scheduler/kv_aware_scheduler.py:66-100 | fresh nodes with derived pools, the manager built for them and an empty scheduler are such a start |
| WaitingRequests.StrandedIff | control_plane/scheduler/kv_aware_scheduler.py:191-201 | with one request waiting, exactly when a completion leaves it in flight, where nobody completes it |
| WaitingRequests.SomeoneIsStranded | benchmarks/harness.py:84-135 | two requests from fresh nodes, the risk of the first drawn high and then low: it is recorded as rejected and stays in flight |
| MoERouting.StandingRange | control_plane/moe_routing/moe_router.py:189-200 | KV, memory and NVLink terms together lie between 0 and 0.6 |
| MoERouting.RankedSpec | control_plane/moe_routing/moe_router.py:141 | the ranking lists every expert in order of score, lower id first among equals |
| MoERouting.SelectedAreBest | control_plane/moe_routing/moe_router.py:139-142 | the selection is min(top_k, experts) distinct experts, each scoring above everyone left out or equal with the lower id |
| MoERouting.AddTokensSpec | control_plane/moe_routing/moe_router.py:149-151 | the counters grow by the prompt at the selected experts and nowhere else |
| MoERouting.RouteSpec | control_plane/moe_routing/moe_router.py:132-160 | one call either raises and changes nothing or moves the tokens to the preferred experts |
| MoERouting.MissingGroupsComeLast | control_plane/moe_routing/moe_router.py:180-183 | an expert without a group is selected only when every expert with one is |
| ExpertChoices.SelectedByEdge | control_plane/moe_routing/moe_router.py:141-202 | an expert is selected whenever one is that it is preferred to: 0.35 for the free share, 0.15 for the pressure, 0.1 for NVLink on a prompt over 8192 tokens, 0.4 E / (total + 1) for each token fewer; ties by id |
| ExpertChoices.BetterExpertGoesFirst | control_plane/moe_routing/moe_router.py:141-202 | so with no more tokens, no smaller free share, no higher pressure and no worse link, and better in one of them or lower in id |
| ExpertChoices.DecisionSays | control_plane/moe_routing/moe_router.py:144-160 | the decision plans blocks for exactly the selected experts with a group, charges the overhead of the slowest, and reports the imbalance before the call |
| ExpertChoices.RaisesIff | control_plane/moe_routing/moe_router.py:204-263 | route divides by zero exactly if top_k is 0, there are fewer than two experts, or the slowest selected group has no bandwidth |
| MoERouting.TokensConserved | control_plane/moe_routing/moe_router.py:149-151 | over every run the counters grow by min(top_k, experts) times the tokens routed |
| MoERouting.RouteKeepsLead | control_plane/moe_routing/moe_router.py:139-151 | one call keeps the bound on the lead of one expert over another |
| MoERouting.LeadOverRun | control_plane/moe_routing/moe_router.py:132-160 | over every run an expert leads another by at most the longest prompt plus what a better standing buys |
| MoERouting.EqualGroupsStayBalanced | control_plane/moe_routing/moe_router.py:185-200 | experts whose groups stand equal at every call never differ by more than the longest prompt |
| MoERouting.LoadAlwaysSteers | control_plane/moe_routing/moe_router.py:185-200 | for any groups within their memory: 0.4 E (lead - longest) is at most 0.6 (total + 1) |
| MoERouting.ImbalanceRange | control_plane/moe_routing/moe_router.py:255-263 | the imbalance lies above 0 and up to 1, and is 1 exactly when at most one expert has tokens |
| MoERouting.ClusterIsPartitioned | control_plane/moe_routing/moe_router.py:281-289 | every expert gets nodes; with enough nodes each node serves exactly one expert, with too few each expert gets one node |
| MoERouting.MoERouter.ScoreExperts | control_plane/moe_routing/moe_router.py:175-202 | the scoring loop on node objects gives the scores that ExpertChoices.SelectedByEdge weighs |
| MoERouting.MoERouter.Route | control_plane/moe_routing/moe_router.py:132-160 | route on objects gives the specified counters and decision, or none where a division by zero is raised; who is selected and what is said of it, the rows of ExpertChoices state |
| CacheSimulator.MakeRoomSpec | simulator/cache_eviction/cache_sim.py:103-124 | the eviction loop keeps the dictionary exact, evicts what is missing or all there is, and spills exactly when more is needed than the pool holds |
| CacheSimulator.SettleKeepsExact | simulator/cache_eviction/cache_sim.py:126-135 | filling and listing keep the dictionary exact |
| CacheSimulator.RoundSpec | simulator/cache_eviction/cache_sim.py:86-135 | one request: a hit means some live block carries the prefix, a spill that the residual demand exceeds the capacity; the dictionary stays equal to a scan of the pool |
| CacheSimulator.RoundExactIff | simulator/cache_eviction/cache_sim.py:133-135 | a request leaves the dictionary exact if and only if the pool has a block or the request names no prefix |
| CacheSimulator.RunIsExact | simulator/cache_eviction/cache_sim.py:86-135 | over every trace the dictionary is exact at each request boundary, hits and misses add up to the requests, and spills count the requests larger than the pool |
| CacheSimulator.FittingTracesNeverSpill | simulator/cache_eviction/cache_sim.py:106-112 | no spill is counted on a trace whose requests fit the pool |
| CacheSimulator.RepeatIsHit | simulator/cache_eviction/cache_sim.py:89-99 | asking again for the prefix just served is a hit |
| CacheSimulator.PoliciesAgreeWithoutPrefixes | simulator/cache_eviction/cache_sim.py:139-147 | on a trace without prefixes all policies report the same counts |
| CacheSimulator.EmptyPoolReportsHits | simulator/cache_eviction/cache_sim.py:89-99 | with no block at all, every repeated prefix is still reported as a hit |
| SimulatorVictims.VictimsAreLeast | simulator/cache_eviction/cache_sim.py:103-109 | what one request evicts: no block found and kept has a smaller count under LFU, an earlier time under LRU or a later next use under Belady than one that goes, the hit of this request included |
| SimulatorVictims.GoneCount | simulator/cache_eviction/cache_sim.py:103-124 | as many blocks go as evictions are counted |
| SimulatorVictims.RoundFollows | simulator/cache_eviction/cache_sim.py:86-135 | one request moves the count of LFU and the queue of Belady of every block exactly by what it did with the block: hit, evicted or filled |
| SimulatorVictims.LFUCountsHits | simulator/cache_eviction/cache_sim.py:86-135 | over every trace the count of LFU is the number of hits on the block since it was last filled |
| SimulatorVictims.LFUEvictsLeastHit | simulator/cache_eviction/cache_sim.py:103-109 | after every trace no block that LFU keeps was hit less often since it was last filled than one it evicts |
| SimulatorVictims.RunDates | simulator/cache_eviction/cache_sim.py:86-135 | after every trace under LRU a live block carries a time read in the last request that hit or filled it |
| SimulatorVictims.LRUEvictsLeastRecent | simulator/cache_eviction/cache_sim.py:103-109 | after every trace, if the clock moves on with every reading, no block that LRU keeps was hit or filled earlier than one it evicts |
| SimulatorVictims.RoundLists | simulator/cache_eviction/cache_sim.py:126-135 | the filled blocks join the end of their prefix's list in the order of the free list, and no other list changes then |
| CacheSimulator.KVCacheSimulator.CheckPrefix | simulator/cache_eviction/cache_sim.py:87-101 | the lookup loop |
| CacheSimulator.KVCacheSimulator.EvictLoop | simulator/cache_eviction/cache_sim.py:103-124 | the eviction loop |
| CacheSimulator.KVCacheSimulator.Place | simulator/cache_eviction/cache_sim.py:126-135 | the fill loop and the new dictionary entry |
| CacheSimulator.KVCacheSimulator.Simulate | simulator/cache_eviction/cache_sim.py:65-137 | the nested loops of run give the specified result; hits and misses add up to the requests |
| FailureRuns.ApplyKeepsInv | simulator/failure_injection/failure_injector.py:159-211 | a fault that clashes with no active one remembers its node's original attributes |
| FailureRuns.RecoverKeepsInv | simulator/failure_injection/failure_injector.py:213-231 | a recovery puts them back and leaves every other difference accounted for |
| FailureRuns.RunKeepsInv | simulator/failure_injection/failure_injector.py:102-133 | in every run without a clash each difference from the original nodes is remembered by an active event, and exactly the nodes lost are dead |
| FailureRuns.RecoverAllRestores | simulator/failure_injection/failure_injector.py:145-149 | after any such run recover_all restores every attribute of every node and empties the dead set |
| FailureRuns.SeparateTargetsRestore | simulator/failure_injection/failure_injector.py:145-149 | events that name their nodes and share no node and attribute restore after any run at all |
| FailureRuns.OverlapOnNode | simulator/failure_injection/failure_injector.py:168-221 | two overlapping faults recovered in the order they came restore the node if and only if the first changed nothing both disturb; in the opposite order always |
| FailureRuns.OverlapRestoredIff | simulator/failure_injection/failure_injector.py:145-149 | the same for recover_all, which goes by registration, in terms of the two faults themselves |
| FailureRuns.RecoverAllRestoresIff | simulator/failure_injection/failure_injector.py:145-149 | in any state, with any number of overlapping faults: recover_all restores every node if and only if for each attribute the last registered active event that saved it saved the original value, or none saved it and it is original; and nobody stays dead if and only if active losses name all the dead |
| FailureRuns.RunRestoredIff | simulator/failure_injection/failure_injector.py:145-149 | the same after any run of any events, overlapping, untargeted or random |
| FailureRuns.HistoryBalances | simulator/failure_injection/failure_injector.py:208-231 | over every run, for each label, strikes minus recoveries in the history grow by as much as the active faults |
| FailureRuns.RunKeepsEvent | simulator/failure_injection/failure_injector.py:102-207 | over every run an event keeps its trigger time and any target it names, and it names one once it has struck in the run |
| FailureRuns.RecoveryLastsOneStep | simulator/failure_injection/failure_injector.py:110-131 | after its time a scheduled fault that names its node, or has struck before, is never inactive after two steps in a row, whatever other faults do |
| FailureRuns.SpikeOnFullPool | simulator/failure_injection/failure_injector.py:180-188 | a memory spike on a node with a full pool raises its free blocks if and only if it leaves memory free |
| FaultStrength.HitIsHitBy | simulator/failure_injection/failure_injector.py:168-205 | how strongly each fault hits: a lost node is full, a spike adds its share of the memory and sets the blocks to the memory share rounded down, a degraded link loses its share of the bandwidth, a slow node its share of the compute and half of it of the bandwidth |
| FaultStrength.TurnEnds | simulator/failure_injection/failure_injector.py:110-118 | an active fault ends in its turn exactly if it recovers by itself and its duration is over, and the history records it |
| FaultStrength.TurnStrikes | simulator/failure_injection/failure_injector.py:120-207 | an inactive fault strikes in its turn exactly if it is due and some node can be struck: the one it names, or else one that is up, with its full strength, and no other; the history records the node and the time |
| FaultStrength.FiredIff | simulator/failure_injection/failure_injector.py:102-133 | step returns exactly the faults that were inactive and due when their turn came, struck or not |
| FaultStrength.NodesShowFaults | simulator/failure_injection/failure_injector.py:102-207 | in every run without a clash each node shows exactly the faults active on it, each with its strength measured on the original, and is original in the rest |
| FailureInjectors.FailureInjector.Add | simulator/failure_injection/failure_injector.py:95-100 | an event joins the list, labelled by its kind and place if it has no label |
| FailureInjectors.DefaultLabelsDiffer | simulator/failure_injection/failure_injector.py:95-100 | events of one kind labelled by their places get different labels |
| FailureInjectors.FailureInjector.Strike | simulator/failure_injection/failure_injector.py:168-205 | each kind of fault on a node object and what it saves |
| FailureInjectors.FailureInjector.Apply | simulator/failure_injection/failure_injector.py:159-207 | _apply on objects, with its history entry |
| FailureInjectors.FailureInjector.Recover | simulator/failure_injection/failure_injector.py:213-226 | _recover on objects, with its history entry |
| FailureInjectors.FailureInjector.Step | simulator/failure_injection/failure_injector.py:102-133 | step on objects, with the list of fired events that it returns |
| FailureInjectors.FailureInjector.RecoverAll | simulator/failure_injection/failure_injector.py:145-149 | recover_all on objects, with its history entries |

## Left out

- Eviction policies: a sum type instead of a class hierarchy; a policy outside LRU, LFU and Belady is a function of its hook history and the candidates, so one that draws random numbers or reads the clock by itself is not modelled.
- Per-node block lists: one pool in block order with node names, instead of one list per node; a node id is added once.
- Aliasing: allocate returns the list object that it also stores in the index; here both are values, so a caller that edits the returned list is not modelled.
- BeladyEvictionPolicy: its claim to be an upper bound on hit rates; requests need several blocks and count partial hits, so the classic theorem is not about this code.
- CacheSimulator.KVCacheSimulator.Simulate: keeps the blocks of the simulated pool as values in a sequence, not as objects.
- FailureInjectors.FailureInjector.Step: calls no callback; block counts are naturals, so a negative magnitude that would drive used blocks below zero is not modelled.
- FailureInjectors.FailureInjector.Strike: a negative block count, which only a negative magnitude gives, is 0 here.
- FailureRuns.OverlapRestoredIff: two faults on one node, stated in terms of the faults; the general form, for any events and any state, is FailureRuns.RecoverAllRestoresIff.
- KVCacheRuns.AddNodeKeepsInv: a node id already known, which the source overwrites while the index keeps the old blocks, because a pool here never loses a block.
- KVCacheManagers.KVCacheManager.AddNode: the same.
- BenchmarkHarnesses.BenchmarkHarness.Serve: baseline schedulers and a consistent manager; the KV-aware scheduler is KVAwareHarnesses.KVAwareHarness.
- BenchmarkHarnesses.BenchmarkHarness.Run: the same.
- MoERouting.MoERouter.Route: takes the sort as a function, not as a loop; a call that divides by zero returns no decision instead of raising.
- Floating point: memory, scores, pressures and rates are exact reals, so rounding is not modelled.
- BatchPlan: the predicted throughput, TPOT and memory fields, analyze_tradeoff and fit_tpot_model.
- PlacementEngine: the TTFT heuristic is an arbitrary input; rank_nodes is left out.
- Scheduler counters by SLA class, stats properties and update_nodes: bookkeeping that no modelled decision reads.
- Harness: the latency, contention and metrics formulas other than Jain's index, and the execution time between allocate and free.
- compute_prefix_hash: the hash is an opaque string of the request.
- SLAPolicy: check_result, preemption_score and cost accounting.
- Concurrent sharing of a pinned prefix: pins are booleans, so one sharer's free unpins for all; the run theorems state what they promise in terms of the ids passed to free.
- RL scheduler, latency and spill-risk models, mock runtime, contention model, workload generation, topology tables, tracing, vLLM client and dashboard: learning, formulas, I/O or user interface.
