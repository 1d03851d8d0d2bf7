# A model of the exact control plane of fastkpc

The search for a skeleton runs its independence tests out of order on a device, in batches that share a
conditioning set, behind caches, worker pools and pipelines. This project models that control plane and
the self-contained algorithms around it, and proves that the fast forms compute what the simple
sequential ones do.

| files | subject |
|---|---|
| `Plan`, `Skeleton`, `Decimal` | the layer plan, the sequential search, the keys of conditioning sets |
| `Frontier`, `FrontierRun`, `OneCall`, `SearchMeaning` | the frontier scheduler, its waves and warm caches, the search over all levels, and what its results are |
| `PcalgOrder`, `PermutationRun`, `PermutationSearch` | the permutation methods, whose p-values advance a random generator |
| `LruCache`, `SetupCache`, `Arena` | the bounded caches, the two-tier setup cache, the coefficient arena |
| `SlotPool` | optimizer workers over shared slots and a copy stream |
| `Prefill`, `PrefillRun` | the depth-one prefill pipeline of a level and over a run |
| `Shuffles` | permutation tables: shuffles, masked rejection, the sealed table |
| `Orientation`, `OrientationMeaning` | colliders and the closure under three orientation rules, and what the rules mean |
| `Odometer` | the exponent vectors of a polynomial null space and their number |
| `Vectors`, `LinearSolve`, `Dcov`, `Spline` | elimination and linear residuals, distance covariance, spline penalties and bases |
| `Json`, `JsonSpelling`, `JsonCanonical`, `JsonReader`, `JsonRoundTrip` | strict contract documents, the ways to spell them and their canonical text (sections 4, 6 and 7 of RFC 8259, restricted to ASCII strings and bounded integers) |
| `Grids`, `Arith`, `Ordering`, `Collections` | square matrices by rows; products and remainders; the order of texts; facts on sequences and sets |

Doubles are exact reals and integers are unbounded. The independence test is an arbitrary function of
the two variables, the conditioning set and, for the permutation methods, a generator state. Random
numbers come from a tape of draws in [0, 1). Scheduling heuristics, interleavings of threads and points
of failure are arbitrary choices, so what is proved holds for all of them.

One property holds only under a condition: elimination nudges a pivot column that holds only entries
below 1e-12, and then the residuals of a linear regression are orthogonal to its columns if and only if
the normal equations have a solution that is zero there (`LinearSolve.ResidualizeLm`);
`LinearSolve.NudgedExample` is data on which they are not. What is solved exactly, nudged or not, is a
system that differs from the given one by 1e-8 in one entry for every nudged pivot
(`LinearSolve.SolveLinearSystem`).

`dafny verify dfyconfig.toml` checks the project.

## Model

| member | source | states |
|---|---|---|
| `LayerPlan.Enumerate` | fastkpc/src/skeleton_task_scheduler.cpp:25-48 | The recursive enumeration visits exactly the selections that the specification `Combos` lists, in its order. |
| `LayerPlan.CombosAscend` | fastkpc/src/skeleton_task_scheduler.cpp:36-47 | The selections come in strictly ascending lexicographic order, hence without repetition. |
| `LayerPlan.CombosComplete` | fastkpc/src/skeleton_task_scheduler.cpp:36-47 | Every ascending selection of the requested size is visited. |
| `LayerPlan.NeighborsFromSnapshot` | fastkpc/src/skeleton_task_scheduler.cpp:14-23 | The neighbours found are those of the specification: all adjacent vertices but the excluded one, ascending (`LayerPlan.NeighborsShape`). |
| `LayerPlan.EdgeKeyInjective` | fastkpc/src/skeleton_task_scheduler.cpp:97 | The key of an unordered pair of vertices determines the pair. |
| `LayerPlan.MakeLayerPlan` | fastkpc/src/skeleton_task_scheduler.cpp:70-132 | The nested loops build the specified plan: edge by edge, first the tests from the lower vertex, then those from the higher. |
| `LayerPlan.PlanShape` | fastkpc/src/skeleton_task_scheduler.cpp:70-122 | Every planned test belongs to a currently adjacent pair, conditions on exactly `level` neighbours of its oriented source, and the tests of one edge stand in ascending pcalg order. |
| `LayerPlan.PlanComplete` | fastkpc/src/skeleton_task_scheduler.cpp:82-121 | Every selection of `level` neighbours of either end of an adjacent pair is planned. |
| `Skeleton.ReplayIgnoresInterleaving` | fastkpc/src/full_cuda_ci_one_call.cpp:7885-7934 | Two logs that agree edge by edge leave the same maxima, separating sets and deletions, however they interleave the edges. |
| `Skeleton.ReplaySymmetric` | fastkpc/src/full_cuda_ci_one_call.cpp:7894-7907 | Replaying any log keeps maxima, separating sets and deletions symmetric. |
| `Skeleton.ReachedIsSequential` | fastkpc/src/skeleton_engine.cpp:144-207 | Walking the plan and skipping the tests of already deleted edges performs exactly the tests of the sequential search, in its order. |
| `Skeleton.LevelSearch` | fastkpc/src/skeleton_engine.cpp:144-207 | What the sequential search of a level performs, without its recursion: a planned test is in the log exactly if no earlier performed test of its edge accepts; the log stands in plan order, and its p-values are the oracle's. |
| `Decimal.ConditioningKeyInjective` | fastkpc/src/full_cuda_ci_one_call.cpp:412-419 | Equal textual keys mean equal conditioning sets, so a bucket cannot mix sets. |
| `Frontier.BuildQueues` | fastkpc/src/full_cuda_ci_one_call.cpp:7446-7453 | Each edge gets a queue of exactly its own tests, in plan order. |
| `Frontier.BuildReady` | fastkpc/src/full_cuda_ci_one_call.cpp:7465-7477 | Every nonempty queue waits in the bucket of its head's conditioning set, and is counted active. |
| `Frontier.Open` | fastkpc/src/full_cuda_ci_one_call.cpp:7446-7477 | The bookkeeping of a level starts consistent. |
| `Frontier.NeverStalls` | fastkpc/src/full_cuda_ci_one_call.cpp:7479-7481 | An active edge without a pending test waits in some bucket: the "made no progress" failure is unreachable. |
| `Frontier.TakeBucket` | fastkpc/src/full_cuda_ci_one_call.cpp:7638-7639 | Taking a bucket makes its edges pending and keeps the bookkeeping consistent. |
| `Frontier.Complete` | fastkpc/src/full_cuda_ci_one_call.cpp:7831-7877 | Completing the head of a pending edge keeps the bookkeeping consistent whichever of the three outcomes follows (edge deleted, queue exhausted, next head bucketed), touches no other edge and lowers the remaining work. |
| `Frontier.AllAccounted` | fastkpc/src/full_cuda_ci_one_call.cpp:7859-7863 | Results, cut-off tests and open tests always add up to the plan. |
| `Frontier.CloseFrontier` | fastkpc/src/full_cuda_ci_one_call.cpp:7880-7881 | The loop ends exactly when no bucket is left; then nothing remains and every planned test was replayed or ignored, once. |
| `FrontierRun.CoherentStep` | fastkpc/src/full_cuda_ci_one_call.cpp:7676-7690 | Looking up or inserting true p-values keeps a warm cache coherent with the tests it stands for. |
| `FrontierRun.SelectWork` | fastkpc/src/full_cuda_ci_one_call.cpp:7638-7697 | A selected batch holds the heads of one bucket, all with one conditioning set, and splits them into true cache hits and misses. |
| `FrontierRun.FillWave` | fastkpc/src/full_cuda_ci_one_call.cpp:7507-7718 | For any choice of buckets and any early end of the wave, the batches collected are disjoint heads of pending edges. |
| `FrontierRun.RunWave` | fastkpc/src/full_cuda_ci_one_call.cpp:7726-7878 | Executing the collected batches one after another keeps the bookkeeping consistent and lowers the remaining work. |
| `FrontierRun.FrontierExact` | fastkpc/src/full_cuda_ci_one_call.cpp:7853-7876 | At the end a test has a result exactly when the sequential search reaches it. |
| `FrontierRun.RunFrontier` | fastkpc/src/full_cuda_ci_one_call.cpp:7446-7881 | For every bucket choice, wave capacity, early wave end and coherent warm cache: the loop terminates, executes exactly the tests the sequential search reaches, with their p-values, deletes exactly the pairs it deletes, and agrees with it on whether the next level opens. |
| `OneCall.CanonicalReplay` | fastkpc/src/full_cuda_ci_one_call.cpp:7885-7934 | The replay loop in plan order leaves the maxima and separating sets of replaying the kept records, and counts them and the accepted ones. What these cells mean is `SearchMeaning.SearchMaximum` and `SearchMeaning.SearchSepset`. |
| `OneCall.KeptIsReached` | fastkpc/src/full_cuda_ci_one_call.cpp:7883-7886 | The records replayed are the tests reached by the sequential search. |
| `OneCall.FrontierDeletes` | fastkpc/src/full_cuda_ci_one_call.cpp:7847-7851 | The pairs the frontier deletes out of order are the pairs the canonical replay deletes. |
| `OneCall.StopIsFinal` | fastkpc/src/full_cuda_ci_one_call.cpp:7841 | If no test performed at a level opened the next, the remaining graph has nothing to test at any later level. |
| `OneCall.IdleForever` | fastkpc/src/full_cuda_ci_one_call.cpp:7961 | Stopping early loses nothing: all later levels would leave the search as it is. |
| `OneCall.RunLevel` | fastkpc/src/full_cuda_ci_one_call.cpp:7404-7952 | One level returns exactly the next state of the sequential search, its stop flag, and counts where every planned test is replayed or ignored once. |
| `OneCall.RunSkeleton` | fastkpc/src/full_cuda_ci_one_call.cpp:7367-7962 | Over all levels, whatever the buckets picked, the wave capacity and the warm cache: graph, maxima and separating sets are those of the sequential search that never stops early, the counts are exact level by level, and the search stops at the first level none of whose tests opens the next. |
| `OneCall.LevelKeeps` | fastkpc/src/full_cuda_ci_one_call.cpp:7885-7939 | One level keeps the search invariant, only removes edges, gives every removed edge a separating set of the level's size and leaves all other absent pairs untouched. |
| `OneCall.RunInvariant` | fastkpc/src/full_cuda_ci_one_call.cpp:7367-7376 | After any number of levels: adjacency and separating sets are symmetric, an adjacency entry (diagonal included) is 0 exactly where the maximum is at least alpha, and the size of a removed pair's separating set is the level that removed it. |
| `OneCall.RunKeeps` | fastkpc/src/full_cuda_ci_one_call.cpp:7885-7939 | Over a run adjacency only shrinks, and a pair that is no longer adjacent keeps its separating set and its maximum. |
| `OneCall.RemovedForGood` | fastkpc/src/full_cuda_ci_one_call.cpp:7885-7939 | A pair removed at level k stays removed in every later state, with the separating set of size k and the maximum it got there. |
| `SearchMeaning.SearchMaximum` | fastkpc/src/full_cuda_ci_one_call.cpp:7898-7901 | After any number of levels, the maximum of a pair is minus infinity exactly if no test of the pair was performed; otherwise it is the p-value of one of its performed tests, and none has a greater one. |
| `SearchMeaning.SearchSepset` | fastkpc/src/full_cuda_ci_one_call.cpp:7902-7907 | A pair removed at level k has, in every later state, the conditioning set of a test of the pair performed at level k with a p-value of at least alpha; a pair still adjacent has none. |
| `PcalgOrder.PcalgLessTransitive` | fastkpc/src/full_cuda_ci_one_call.cpp:488-498 | `pcalg_task_less` is transitive. |
| `PcalgOrder.PcalgLessStrict` | fastkpc/src/full_cuda_ci_one_call.cpp:488-498 | It is irreflexive, orders no two tests both ways, and orders any two that differ in orientation or conditioning set. |
| `PcalgOrder.OrderBelowShape` | fastkpc/src/full_cuda_ci_one_call.cpp:488-498 | The pcalg nested-loop order is strictly ascending under `pcalg_task_less`. |
| `PcalgOrder.SameTests` | fastkpc/src/full_cuda_ci_one_call.cpp:488-498 | On a symmetric graph the pcalg order and the layer plan hold the same tests. |
| `PcalgOrder.AscendingUnique` | fastkpc/src/full_cuda_ci_one_call.cpp:488-498 | Two ascending logs with the same records are equal. |
| `PcalgOrder.PerformIsDrawn` | fastkpc/src/full_cuda_ci_one_call.cpp:7529-7563 | The sequential search in any order, without its recursion: the tests not cut off, in order, threaded by generator states from the first to the last. |
| `PermutationRun.SelectLeast` | fastkpc/src/full_cuda_ci_one_call.cpp:7529-7557 | Scanning all buckets finds the least ready head. |
| `PermutationRun.TakeHead` | fastkpc/src/full_cuda_ci_one_call.cpp:7556-7563 | Removing that head from its bucket, and the bucket if it empties, keeps the bookkeeping consistent. |
| `PermutationRun.LeastIsNext` | fastkpc/src/full_cuda_ci_one_call.cpp:7529-7557 | The least ready head is the next test of the sequential order whose edge is not deleted. |
| `PermutationRun.RunFrontier` | fastkpc/src/full_cuda_ci_one_call.cpp:7529-7563 | Although every p-value depends on and advances the generator: tests executed, p-values, deletions and final generator state are those of the sequential search in pcalg order. A test of the order is in the log exactly if no earlier logged test of its edge accepts, and there are generator states from the incoming to the outgoing one such that each logged test draws its p-value from one and leaves the next. |
| `PermutationSearch.ReplayAgrees` | fastkpc/src/full_cuda_ci_one_call.cpp:7885-7934 | Replaying the results in plan order leaves the state of replaying them in execution order. |
| `PermutationSearch.PlanIsContract` | fastkpc/src/skeleton_task_scheduler.cpp:70-122 | The layer plan meets what the permutation frontier needs: one key per edge and ascending queues. |
| `PermutationSearch.RunLevel` | fastkpc/src/full_cuda_ci_one_call.cpp:7404-7952 | One permutation level returns the next state and generator state of the sequential search, stops exactly when no sequential test opened the next level, and counts exactly: replayed tests are those of the sequential log, deletions its accepted ones. |
| `PermutationSearch.RunSkeleton` | fastkpc/src/full_cuda_ci_one_call.cpp:7367-7962 | The permutation search returns graph, maxima, separating sets and generator state of the sequential pcalg search that never stops early, with exact counts level by level; it stops at the first level none of whose tests opens the next, and the levels it skips would change nothing. |
| `SearchMeaning.LevelsAreDrawn` | fastkpc/src/full_cuda_ci_one_call.cpp:7367-7962 | Every level draws from the generator state the level before it left, test after test in pcalg order, accepted tests included. |
| `SearchMeaning.DrawnMaximum` | fastkpc/src/full_cuda_ci_one_call.cpp:7898-7901 | Also in the permutation search the maximum of a pair is the largest p-value of its performed tests. |
| `SearchMeaning.DrawnSepset` | fastkpc/src/full_cuda_ci_one_call.cpp:7902-7907 | And a removed pair has the conditioning set of a test of the level that removed it, which accepted. |
| `LruCache.Cache.Lookup` | fastkpc/src/full_cuda_ci_one_call.cpp:2275-2301 | A hit returns the value held and moves the key to the front; a miss changes nothing; hits and misses sum to requests (with `LruCache.Cache.Valid`). |
| `LruCache.RunHolds` | fastkpc/src/full_cuda_ci_one_call.cpp:2275-2332 | After any operations a key still held has the value last inserted for it, or the one it had at the start if none was inserted since. |
| `LruCache.HitIsLatest` | fastkpc/src/full_cuda_ci_one_call.cpp:2275-2332 | From an empty cache, a hit returns the value of the last insertion of its key, whatever was evicted and reinserted between. |
| `LruCache.Cache.Insert` | fastkpc/src/full_cuda_ci_one_call.cpp:2303-2332 | An update moves the key to the front; a new key first evicts from the back down to the capacity; the order list stays a permutation of the map's keys. |
| `LruCache.Cache.Configure` | fastkpc/src/full_cuda_ci_one_call.cpp:2339-2352 | Shrinking keeps the most recent entries. |
| `LruCache.Cache.Reset` | fastkpc/src/full_cuda_ci_one_call.cpp:2354-2365 | Resetting empties the cache and its counters. |
| `LruCache.ApplyDistinct` | fastkpc/src/full_cuda_ci_one_call.cpp:2275-2332 | No operation repeats a key or exceeds the capacity. |
| `LruCache.Inclusion` | fastkpc/src/full_cuda_ci_one_call.cpp:2275-2332 | On the same operations everything held at capacity c is held, with the same value, at capacity c + 1. |
| `LruCache.RunByRecency` | fastkpc/src/full_cuda_ci_one_call.cpp:2275-2332 | The list is in the order of last use: every key held was named by an operation, the keys in front by a later one than those behind. |
| `LruCache.EvictsLeastRecent` | fastkpc/src/full_cuda_ci_one_call.cpp:2303-2332 | An insertion evicts only for a new key in a full cache, and then the key whose last use is the earliest. |
| `SetupCache.DormantExists` | fastkpc/src/full_cuda_ci_one_call.cpp:3412-3425 | A full host tier always has an entry without device counterpart (by counting): the "no dormant eviction candidate" failure is unreachable. |
| `SetupCache.Cache.EvictOne` | fastkpc/src/full_cuda_ci_one_call.cpp:3427-3440 | Evicting a device entry removes its conditioning key from the live keys and its handle. |
| `SetupCache.Cache.EvictHostOne` | fastkpc/src/full_cuda_ci_one_call.cpp:3412-3425 | The least recently used dormant host entry goes. |
| `SetupCache.Cache.Get` | fastkpc/src/full_cuda_ci_one_call.cpp:3296-3360 | Device hit, host hit and miss all return what building would give, keep device keys within host keys, the three tier bounds, the live keys and "hits plus misses are requests", and leave exactly the stated orders. |
| `SetupCache.Cache.MaterializeDevice` | fastkpc/src/full_cuda_ci_one_call.cpp:3362-3369 | Gives a deferred context its device handle; a second call changes nothing, and a context whose device entry is gone leaves the cache as it is. |
| `SetupCache.Cache.ContainsConditioningKey` | fastkpc/src/full_cuda_ci_one_call.cpp:3371-3374 | The live keys are exactly the keys of the device entries. |
| `Arena.FiledLaid` | fastkpc/src/full_cuda_ci_one_call.cpp:1218-1233 | Filing a batch at consecutive offsets behind the used prefix keeps live columns in disjoint ranges below the used size. |
| `Arena.FiledStores` | fastkpc/src/full_cuda_ci_one_call.cpp:1205-1233 | It stores exactly the batch's columns under its keys and keeps every earlier column. |
| `Arena.CoefficientArena.BeginLevel` | fastkpc/src/full_cuda_ci_one_call.cpp:1144-1155 | A level begins empty, in the storage at hand. |
| `Arena.CoefficientArena.EnsureStorage` | fastkpc/src/full_cuda_ci_one_call.cpp:1427-1467 | Doubling terminates, reaches the required size without more than doubling past it, and preserves the used prefix. |
| `Arena.CoefficientArena.ReserveSlotLayer` | fastkpc/src/full_cuda_ci_one_call.cpp:1129-1134 | Only an empty active level can be reserved; then the space for all targets is there. |
| `Arena.CoefficientArena.EnqueueStore` | fastkpc/src/full_cuda_ci_one_call.cpp:1157-1240 | Succeeds exactly when the level matches and the keys are nonempty, distinct and new; then the arena holds the old columns and the batch. Even a failure half way leaves the old columns. Within the reserved capacity nothing is reallocated. |
| `Arena.CoefficientArena.Gather` | fastkpc/src/full_cuda_ci_one_call.cpp:1265-1321 | Succeeds exactly for keys that are all stored with the requested dimension; then the staging buffer holds exactly their columns, in the order asked. |
| `Arena.CoefficientArena.FinishLevel` | fastkpc/src/full_cuda_ci_one_call.cpp:1323-1334 | Finishing the level empties the arena, after a failed store too. |
| `Arena.CoefficientArena.Close` | fastkpc/src/full_cuda_ci_one_call.cpp:1342-1375 | After closing, allocations equal frees. |
| `SlotPool.StepKeeps` | fastkpc/src/full_cuda_ci_one_call.cpp:5715-5760 | Every step of every worker and of the copy stream, failures included, keeps the invariant. |
| `SlotPool.NeverGrows` | fastkpc/src/full_cuda_ci_one_call.cpp:5695 | There is always reserved room for a job not yet stored: the arena cannot grow while workers run. |
| `SlotPool.TakesOnce` | fastkpc/src/full_cuda_ci_one_call.cpp:5718-5720 | A request index is handed out when no worker holds it and it is not complete: at most one worker takes it. |
| `SlotPool.LeaseOutlivesCopies` | fastkpc/src/full_cuda_ci_one_call.cpp:5740-5758 | A slot's output lease is released, on success or failure, only when no copy from it is still queued. |
| `SlotPool.CopiesOwnData` | fastkpc/src/full_cuda_ci_one_call.cpp:5740-5745 | Every copy the stream carries out writes the columns of its own request. |
| `SlotPool.JoinDrains` | fastkpc/src/full_cuda_ci_one_call.cpp:5761-5770 | After the join, with or without an error, the stream is empty and no slot is leased. |
| `SlotPool.JoinCompletes` | fastkpc/src/full_cuda_ci_one_call.cpp:5769-5770 | A join without error means every request is complete. |
| `SlotPool.JoinedColumn` | fastkpc/src/full_cuda_ci_one_call.cpp:5733-5749 | Then the arena holds, under every key of every request, exactly its column; `SlotPool.JoinedCell` says so number by number. |
| `SlotPool.JoinedCell` | fastkpc/src/full_cuda_ci_one_call.cpp:5733-5749 | Number j of the column of target t of a request is number t * dim + j of the request's output. |
| `SlotPool.JoinedFull` | fastkpc/src/full_cuda_ci_one_call.cpp:5695 | The reserved space is used up exactly. |
| `SlotPool.CleanRun` | fastkpc/src/full_cuda_ci_one_call.cpp:5715-5760 | If no key is asked for twice, a run in which no step fails ends without an error. |
| `SlotPool.JoinedApart` | fastkpc/src/full_cuda_ci_one_call.cpp:5739-5745 | Conversely a join without error is possible only if no key is asked for twice. |
| `SlotPool.CancelStops` | fastkpc/src/full_cuda_ci_one_call.cpp:5718-5754 | After a failure at most the workers that had passed the flag still take a request each. |
| `SlotPool.InterleavingDoesNotMatter` | fastkpc/src/full_cuda_ci_one_call.cpp:5708-5770 | Two error-free runs, with any interleavings and numbers of slots, leave the same map from keys to columns. |
| `SlotPool.CanMove` | fastkpc/src/full_cuda_ci_one_call.cpp:5715-5760 | No deadlock: while a worker has not stopped, some step other than a failure is possible. |
| `SlotPool.RunsEnd` | fastkpc/src/full_cuda_ci_one_call.cpp:5715-5760 | Every run is finite: its length is bounded by a rank of its first state. |
| `Prefill.PrepareWindow` | fastkpc/src/full_cuda_ci_one_call.cpp:5245-5286 | The lookups of a window give the specified cache and the specified requests. |
| `Prefill.Finish` | fastkpc/src/full_cuda_ci_one_call.cpp:5427-5486 | Completing a window inserts its targets' states in order. Which result goes under which target is `Prefill.PipelinedHolds` and `Prefill.LatestHeld`. |
| `Prefill.PipelinedHolds` | fastkpc/src/full_cuda_ci_one_call.cpp:5463-5486 | Whatever is held after the pipeline was held at the start, with the same value, or is result j of a published request under the key of the request's set and its target j. |
| `Prefill.CompletedInserts` | fastkpc/src/full_cuda_ci_one_call.cpp:5463-5486 | Completing a window is inserting the results of its requests, request after request and target after target, each under the key of its own target. |
| `Prefill.LatestHeld` | fastkpc/src/full_cuda_ci_one_call.cpp:5463-5486 | The other way round, up to eviction: of results inserted under different keys the last ones, as many as the capacity, are held, the latest first. |
| `Prefill.PreparedRequests` | fastkpc/src/full_cuda_ci_one_call.cpp:5245-5286 | The requests of a window are, group after group, those of the groups with enough uncached targets; each asks for exactly these, ascending. The lookups change no key. |
| `Prefill.PipelineExact` | fastkpc/src/full_cuda_ci_one_call.cpp:5833-5931 | On groups of different conditioning sets of which no target is cached, the depth-one pipeline ends with the same cache, in the same order and after the same evictions, and the same batches as the unpipelined loop. |
| `Prefill.StaleCacheDiffers` | fastkpc/src/full_cuda_ci_one_call.cpp:7454-7461 | The guard that skips the prefill when the cache already holds the dataset matters: without it, on a full cache holding a later window's target, the two loops would end differently. |
| `Prefill.RunWindow` | fastkpc/src/full_cuda_ci_one_call.cpp:5834-5906 | One turn of the pipeline looks the next window up, finishes the outstanding one and launches the next; at most one is outstanding. |
| `Prefill.PrefillLevel` | fastkpc/src/full_cuda_ci_one_call.cpp:5828-5936 | The groups are cut, in order, into nonempty windows of one width not exceeding it; batches are published in window order; the outcome is the pipeline's, and every state held is an old one or the result of a published request under the key of its own target. |
| `PrefillRun.GroupTasks` | fastkpc/src/full_cuda_ci_one_call.cpp:5796-5803 | Grouping the plan by conditioning key gives one nonempty entry per key, in the order of the keys, with exactly the served tasks of that key in plan order. |
| `PrefillRun.CollectTargets` | fastkpc/src/full_cuda_ci_one_call.cpp:5257-5262 | The targets of a group are exactly the variables its tasks relate, ascending and without repetition. |
| `PrefillRun.GroupsFit` | fastkpc/src/full_cuda_ci_one_call.cpp:5796-5803 | The groups of a level have different conditioning sets, all of the level's size. |
| `PrefillRun.BelowIsFresh` | fastkpc/src/full_cuda_ci_one_call.cpp:7456-7461 | While the cache holds states of the dataset for smaller conditioning sets only, no target of the level is cached. |
| `PrefillRun.PrefillBelow` | fastkpc/src/full_cuda_ci_one_call.cpp:5789-5936 | The prefill of a level leaves states of conditioning sets up to the level's size only. |
| `PrefillRun.TestedBelow` | fastkpc/src/full_cuda_ci_one_call.cpp:5999-6233 | So do the lookups and insertions of the level's tests, whatever they are. |
| `PrefillRun.RunExact` | fastkpc/src/full_cuda_ci_one_call.cpp:7258-7461 | Over a whole run, on any warm cache: every level ends with the same cache and publishes the same batches whether or not the prefill is pipelined. Nothing about fresh keys is assumed; it follows from the guard and the sizes of the sets. |
| `PrefillRun.RunResults` | fastkpc/src/full_cuda_ci_one_call.cpp:7258-7461 | After every level of a pipelined run a state held was held before the level, is the result of a published request under the key of its own target, or was inserted by the tests of the level. |
| `PrefillRun.PrefillPlan` | fastkpc/src/full_cuda_ci_one_call.cpp:5789-5936 | The prefill of a planned level: groups from the plan, windows, pipeline; before it the cache holds smaller sets of the dataset only, as in every run, the outcome is the unpipelined one. |
| `Prefill.CutCohorts` | fastkpc/src/full_cuda_ci_one_call.cpp:4703-4754 | Cohorts are consecutive and cover all targets, as few as fit sixteen each, sizes differing by at most one, none of size one unless the request has one target. |
| `Shuffles.PicksInjective` | fastkpc/src/full_cuda_ci_one_call.cpp:694-719 | Different in-range picks from a pool of different elements take out different sequences. |
| `Shuffles.PicksSurjective` | fastkpc/src/full_cuda_ci_one_call.cpp:694-719 | Every permutation of the pool is taken out by some in-range picks. |
| `Shuffles.TakesPermutation` | fastkpc/src/full_cuda_ci_one_call.cpp:694-719 | A full sequence of picks takes out a permutation. |
| `Shuffles.SwapRow` | fastkpc/src/full_cuda_ci_one_call.cpp:668-678 | The in-place swaps with n - 1 draws turn the incoming row into the reversed sequence taken out by those picks. |
| `Shuffles.SwapRowsInjective` | fastkpc/src/full_cuda_ci_one_call.cpp:664-678 | For a fixed incoming row different picks give different outgoing rows. |
| `Shuffles.SwapRowsSurjective` | fastkpc/src/full_cuda_ci_one_call.cpp:664-678 | For a fixed incoming row every permutation of it is some outgoing row. |
| `Shuffles.PickedUnclamped` | fastkpc/src/full_cuda_ci_one_call.cpp:670-674 | Over exact reals the two clamps never act. |
| `Shuffles.BitsAre` | fastkpc/src/full_cuda_ci_one_call.cpp:700-702 | A draw u has bits b exactly if b <= u * 65536 < b + 1. |
| `Shuffles.BitsMonotone` | fastkpc/src/full_cuda_ci_one_call.cpp:700-702 | A larger draw has no smaller bits. |
| `Shuffles.AcceptedMeans` | fastkpc/src/full_cuda_ci_one_call.cpp:697-706 | Masking and rejecting is taking the first remainder modulo a power of two that lies in the pool. |
| `Shuffles.NoneMeans` | fastkpc/src/full_cuda_ci_one_call.cpp:697-706 | No draw left is acceptable exactly if all their remainders lie out of the pool. |
| `Shuffles.TakenShrinks` | fastkpc/src/full_cuda_ci_one_call.cpp:694-719 | What picks take out, step by step: the element at the picked position, the last element of the pool moving there. |
| `Shuffles.RejectionMask` | fastkpc/src/full_cuda_ci_one_call.cpp:7355-7360 | The mask is one less than the least power of two that is no smaller than the pool. |
| `Shuffles.MaskIsMod` | fastkpc/src/full_cuda_ci_one_call.cpp:704 | Bitwise masking with it is the remainder modulo that power. |
| `Shuffles.EqualPreimages` | fastkpc/src/full_cuda_ci_one_call.cpp:697-706 | Each value of k masked bits has the same number of 16-bit preimages. |
| `Shuffles.AcceptedUniform` | fastkpc/src/full_cuda_ci_one_call.cpp:697-706 | With the mask of a pool of at most 65536 every index of the pool has the same, positive number of 16-bit preimages: rejection leaves the accepted index uniform. |
| `Shuffles.UnifIndex` | fastkpc/src/full_cuda_ci_one_call.cpp:697-706 | The index is that of the first draw accepted: with a mask of k bits, the remainder modulo 2^k of the part of the unit interval, among 65536 equal ones, in which the draw lies; all draws before it have remainders out of the pool. It fails exactly when no draw left on the tape is acceptable. |
| `Shuffles.PoolRow` | fastkpc/src/full_cuda_ci_one_call.cpp:689-720 | One replicate takes out the sequence of its picks from a fresh pool; its draws are the indices taken plus the rejections; it fails exactly when no acceptable draw is left for the next index. |
| `Shuffles.RowDrawnOnce` | fastkpc/src/full_cuda_ci_one_call.cpp:689-720 | The tape determines the row drawn from a place, and where it ends. |
| `Shuffles.DrawnNotStuck` | fastkpc/src/full_cuda_ci_one_call.cpp:697-706 | A row that can be drawn is never given up. |
| `Shuffles.CarriedTable` | fastkpc/src/full_cuda_ci_one_call.cpp:660-683 | The table is filled exactly if the tape holds n - 1 draws a row, otherwise as far as it does. Every row is a permutation: what its own n - 1 draws make of the row before within its pair, the first of a pair starting from the identity. |
| `Shuffles.CarriedOnce` | fastkpc/src/full_cuda_ci_one_call.cpp:660-683 | The tape determines every row of the table. |
| `Shuffles.PairAlone` | fastkpc/src/full_cuda_ci_one_call.cpp:660-683 | Pairs share no permutation: the rows of a pair are those of a table of that pair alone, drawn from where its draws begin. |
| `Shuffles.PooledTable` | fastkpc/src/full_cuda_ci_one_call.cpp:687-727 | Every row is a permutation: the one taken out of a fresh pool by the first accepted masked draws from where the row before stopped, from the beginning of the tape; draws are n indices a row plus rejections. If it fails, the rows before are in the table and no acceptable draw is left for some index of the next one. |
| `Shuffles.TableDecided` | fastkpc/src/full_cuda_ci_one_call.cpp:687-727 | All rows can be drawn, or drawing gets stuck behind some of them; never both. |
| `Shuffles.TableBuilder.AppendRow` | fastkpc/src/full_cuda_ci_one_call.cpp:538-570 | A row is committed exactly if the builder is active and it fits, behind the rows committed before. |
| `Shuffles.TableBuilder.Seal` | fastkpc/src/full_cuda_ci_one_call.cpp:572-591 | Sealing succeeds exactly on a complete nonempty active table whose digest never failed, and the digest covers exactly the sealed contents; a digest that failed earlier is reported here and closes the builder without an artifact. |
| `Shuffles.TableBuilder.Reclaim` | fastkpc/src/full_cuda_ci_one_call.cpp:593-605 | Storage can be reclaimed exactly from a valid artifact by an inactive builder; the artifact is void afterwards. |
| `Orientation.OrientShows` | fastkpc/src/orientation_rules.cpp:53-68 | One demanded direction joins the edge's state with it; without conflict solving this needs demands in the order of their heads. |
| `Orientation.DemandsJoin` | fastkpc/src/orientation_rules.cpp:53-68 | With conflict solving the outcome depends only on the set of demanded directions, not on their order or number. |
| `Orientation.OrientColliders` | fastkpc/src/orientation_rules.cpp:155-192 | The result is the one given by the directions demanded by unshielded triples; the count is the number of triples, head by head in order, one of whose two orientations changes a mark, and zero exactly when there is no such triple. |
| `Orientation.CollidersRead` | fastkpc/src/orientation_rules.cpp:155-192 | With conflict solving an edge is undirected, directed or conflicting exactly as no, one or both of its directions are demanded; without it a doubly demanded edge points into its higher-numbered node and no conflict mark appears. |
| `Orientation.CollidersKeepGaps` | fastkpc/src/orientation_rules.cpp:155-192 | Collider orientation keeps the skeleton. |
| `Orientation.OrientRuleEdge` | fastkpc/src/orientation_rules.cpp:70-83 | On an undirected edge, the only kind the rules pass it, the edge is directed and reported changed. |
| `Orientation.ScanPairs` | fastkpc/src/orientation_rules.cpp:85-110 | The scans list exactly the directed, or the undirected, pairs, by second and then by first node. |
| `Orientation.ApplyRule1` | fastkpc/src/orientation_rules.cpp:194-221 | One pass: going through the pairs directed at its beginning in scan order, and through the third nodes ascending, a step is taken exactly if it can be when it is its turn. No other step is taken. |
| `Orientation.ApplyRule2` | fastkpc/src/orientation_rules.cpp:223-250 | The same for rule 2 over the pairs undirected at the beginning of the pass: each is directed by the first node that lets it, if there is one when it is its turn. |
| `Orientation.ApplyRule3` | fastkpc/src/orientation_rules.cpp:252-299 | The same for rule 3, by the first two nodes that let it. |
| `Orientation.DerivationDrops` | fastkpc/src/orientation_rules.cpp:194-299 | Every application uses up one undirected edge. |
| `Orientation.DerivationKeeps` | fastkpc/src/orientation_rules.cpp:194-299 | Applications change only undirected edges, and only into directed ones: the conflict branch is unreachable from the rules. |
| `Orientation.ApplyRulesUntilConverged` | fastkpc/src/orientation_rules.cpp:301-327 | The closure terminates. It consists of rounds, each a pass of every enabled rule in turn, and ends with the first that changes nothing; the three counts are the numbers of steps of each rule, and no enabled rule applies any more. |
| `OrientationMeaning.PassUnique` | fastkpc/src/orientation_rules.cpp:194-299 | Two passes of a rule over the same marks take the same steps. |
| `OrientationMeaning.ClosureUnique` | fastkpc/src/orientation_rules.cpp:301-327 | Marks and options determine the whole closure: its rounds, their steps and the outcome. |
| `OrientationMeaning.StepIsForced` | fastkpc/src/orientation_rules.cpp:194-299 | The rules are sound: an order of the nodes that agrees with the directed edges and has no collider on an undirected edge agrees with the direction a rule chooses. |
| `OrientationMeaning.ClosureExtends` | fastkpc/src/orientation_rules.cpp:301-327 | So every such order of the marks is one of the closure. |
| `OrientationMeaning.Rule1When` | fastkpc/src/orientation_rules.cpp:194-221 | Rule 1 applies exactly where the other direction would make a new collider. |
| `OrientationMeaning.Rule2When` | fastkpc/src/orientation_rules.cpp:223-250 | Rule 2 applies exactly where the other direction would close a circle. |
| `OrientationMeaning.Rule3When` | fastkpc/src/orientation_rules.cpp:252-299 | Rule 3 applies exactly where, after the other direction, rule 2 would direct two edges into a new collider. |
| `Odometer.NextRank` | fastkpc/src/full_cuda_ci_native_setup.cpp:176-196 | The odometer goes from each exponent vector to the one in the next place of the order. |
| `Odometer.Advance` | fastkpc/src/full_cuda_ci_native_setup.cpp:176-196 | The in-place carry loop computes that next vector. |
| `Odometer.PolynomialPowers` | fastkpc/src/full_cuda_ci_native_setup.cpp:165-198 | The t-th vector listed has total degree below the order and place t. |
| `Odometer.ListsEachOnce` | fastkpc/src/full_cuda_ci_native_setup.cpp:165-198 | Every exponent vector of degree below the order is listed exactly once. |
| `Odometer.CountIsChoose` | fastkpc/src/full_cuda_ci_native_setup.cpp:154-163 | Their number is the binomial coefficient C(d + m - 1, d). |
| `Odometer.NullSpaceDimension` | fastkpc/src/full_cuda_ci_native_setup.cpp:154-163 | The raised order and the falling product divided term by term, every division exact, give the number of exponent vectors below that order. |
| `Odometer.NullSpace` | fastkpc/src/full_cuda_ci_native_setup.cpp:690-742 | The order chosen is the least proper one, and running the odometer for the computed number of terms lists every exponent vector of degree below it, each once; too small a basis is refused. |
| `LinearSolve.StepKeeps` | fastkpc/src/dcov_exact_cpu.cpp:133-169 | One column of elimination: where the finished rows hold, every row stays exactly as far from being satisfied as the original row it comes from, with the nudges so far added to the original entries they belong to. |
| `LinearSolve.Pivoted` | fastkpc/src/dcov_exact_cpu.cpp:134-153 | The pivot is the first largest entry of the column, or the nudged diagonal if all are below 1e-12; the singular-system error is unreachable over exact reals. |
| `LinearSolve.BackSubstitute` | fastkpc/src/dcov_exact_cpu.cpp:171-178 | Back substitution solves the triangular system. |
| `LinearSolve.SolveLinearSystem` | fastkpc/src/dcov_exact_cpu.cpp:130-179 | The result is the exact and only solution of the system with 1e-8 added to one entry for every nudged pivot, each in a row and a column of its own. So it solves the system itself if and only if the system has a solution that is zero at every nudged pivot, `Nudges` being the columns in which elimination meets only entries below 1e-12; without such a column it always does. |
| `LinearSolve.FinishedSolves` | fastkpc/src/dcov_exact_cpu.cpp:130-169 | The eliminated system has exactly the solutions of that perturbed system. |
| `LinearSolve.TriangularUnique` | fastkpc/src/dcov_exact_cpu.cpp:171-178 | The reduced system has one solution only. |
| `LinearSolve.NudgedExample` | fastkpc/src/dcov_exact_cpu.cpp:282-314 | The nudge is not harmless: on two observations whose conditioning column is 0 and 1e-7 the second pivot is nudged, and the residuals returned are not orthogonal to the columns regressed on. |
| `LinearSolve.NormalEquations` | fastkpc/src/dcov_exact_cpu.cpp:286-300 | The accumulated matrices are the normal equations of the design. |
| `LinearSolve.ResidualizeLm` | fastkpc/src/dcov_exact_cpu.cpp:282-314 | The coefficients solve the normal equations, or exactly the perturbed ones. The residuals are orthogonal to the intercept and every conditioning column if and only if the normal equations have a solution that is zero at every nudged pivot; without a nudge they always are. |
| `LinearSolve.LeastSquares` | fastkpc/src/dcov_exact_cpu.cpp:302-313 | Orthogonal residuals have the least sum of squares of all coefficient choices. |
| `Dcov.CenterDistance` | fastkpc/src/dcov_exact_cpu.cpp:46-67 | The loops compute the doubly centered matrix. |
| `Dcov.CenteredRows` | fastkpc/src/dcov_exact_cpu.cpp:46-67 | Every row of a centered matrix sums to zero. |
| `Dcov.CenteredColumns` | fastkpc/src/dcov_exact_cpu.cpp:46-67 | So does every column if the distances are symmetric. |
| `Dcov.OnlyCentering` | fastkpc/src/dcov_exact_cpu.cpp:46-67 | A matrix is the centered one of symmetric distances if and only if it differs from them by a number for each row and a number for each column and all its rows and columns sum to zero. |
| `Dcov.CenteringCommutes` | fastkpc/src/dcov_exact_cpu.cpp:46-67 | Centering commutes with permuting the sample. |
| `Dcov.PermutedIsRecomputed` | fastkpc/src/dcov_exact_cpu.cpp:90-102 | The statistic permuted on once-centered matrices equals the statistic recomputed from the permuted sample. |
| `Dcov.StatisticPermuted` | fastkpc/src/dcov_exact_cpu.cpp:90-102 | The double loop is the inner product with the relabelled matrix, divided by n. |
| `Dcov.InnerUpdate` | fastkpc/src/dcov_exact_cpu.cpp:82-88 | The inner product: changing one entry of one matrix changes it by that much of the other's entry; on the zero matrix it is zero (`Dcov.InnerZero`). |
| `Dcov.ErasePermutation` | fastkpc/src/dcov_exact_cpu.cpp:114-128 | Drawing by erasing succeeds exactly if the tape holds a draw for every element, and gives the permutation that these picks erase. |
| `Dcov.ErasedInjective` | fastkpc/src/dcov_exact_cpu.cpp:114-128 | Different picks erase different sequences. |
| `Dcov.ErasedSurjective` | fastkpc/src/dcov_exact_cpu.cpp:114-128 | Every permutation is erased by some picks. |
| `Dcov.ErasedMeans` | fastkpc/src/dcov_exact_cpu.cpp:114-128 | Element i of the permutation erased is the number that as many unused numbers lie below as pick i says. |
| `Dcov.PermutationTest` | fastkpc/src/dcov_exact_cpu.cpp:220-280 | For any given permutations the p-value is the share of permuted samples whose recomputed statistic reaches the observed one, the observed sample counted in on request. |
| `Dcov.ExceedancesCount` | fastkpc/src/dcov_exact_cpu.cpp:220-280 | The exceedances counted are as many as the replicates whose recomputed statistic reaches the observed one. |
| `Dcov.DrawnPermutationTest` | fastkpc/src/dcov_exact_cpu.cpp:220-280 | The same for permutations drawn by erasing, one a replicate from the beginning of the tape; it fails exactly if the tape ends within a replicate. |
| `Spline.SecondDifferencePenalty` | fastkpc/src/fastspline_basis.cpp:776-790 | For every coefficient vector the form is the sum of squared second differences, or of squares below three coefficients. |
| `Spline.PenaltyMeaning` | fastkpc/src/fastspline_basis.cpp:776-790 | The penalty is never negative and, for three coefficients or more, zero exactly on affine sequences. |
| `Spline.PenaltyIs` | fastkpc/src/fastspline_basis.cpp:776-790 | It is the squared length of the vector of second differences. |
| `Spline.AddAlongLines` | fastkpc/src/fastspline_basis.cpp:341-360 | Adding a block entry by entry along a family of grid lines adds its form on every line. |
| `Spline.PenaltiesAddUp` | fastkpc/src/fastspline_basis.cpp:331-360 | The penalties of a family of lines are the sum of the penalties of its lines. |
| `Spline.TensorPenalty` | fastkpc/src/fastspline_basis.cpp:331-360 | For every coefficient vector the tensor form is the sum of the penalties of all grid columns and all grid rows, the intercept free. |
| `Spline.BasisRow` | fastkpc/src/fastspline_basis.cpp:702-740 | The weights are nonnegative, sum to one and are proportional to the cubes of how far x lies within the width of each center; out of every center's reach all weight is on the first nearest one. This determines them (`Spline.RowOnce`). |
| `Spline.RowOnce` | fastkpc/src/fastspline_basis.cpp:702-740 | Only one row has these weights. |
| `Spline.NearConstant` | fastkpc/src/fastspline_basis.cpp:65-75 | A sample is near constant exactly if no two values differ by more than 100 epsilon times the largest magnitude in it, or one. |
| `Spline.CubicBsplineBasis` | fastkpc/src/fastspline_basis.cpp:648-740 | All rows are partitions of unity. Of a near-constant sample every row is the first column; otherwise each has the weights at its own value, for a width of 2.5 times the least positive step between successive centers, or of 2.5 if there is none. |
| `Spline.Nearest` | fastkpc/src/fastspline_basis.cpp:719-727 | The fallback picks the first nearest center. |
| `JsonReader.JsonParser.ParseString` | fastkpc/src/full_cuda_ci_contract.cpp:176-217 | The character loop reads what the grammar reads: escapes, control characters, the ASCII bound and the missing end quote included. |
| `JsonReader.JsonParser.ParseInteger` | fastkpc/src/full_cuda_ci_contract.cpp:268-304 | Numbers: no leading zeros, no fractions or exponents, only the safe range. |
| `JsonReader.JsonParser.ParseElements` | fastkpc/src/full_cuda_ci_contract.cpp:219-237 | The array loop reads what the grammar reads. |
| `JsonReader.JsonParser.ParseMembers` | fastkpc/src/full_cuda_ci_contract.cpp:239-266 | The object loop reads what the grammar reads: nonempty unique string keys. |
| `JsonReader.JsonParser.ParseValue` | fastkpc/src/full_cuda_ci_contract.cpp:128-152 | The recursive descent reads exactly what the grammar reads, and fails exactly when it does. |
| `JsonReader.JsonParser.Parse` | fastkpc/src/full_cuda_ci_contract.cpp:87-93 | A document is one value with nothing but blanks around it. |
| `JsonRoundTrip.RoundTrip` | fastkpc/src/full_cuda_ci_contract.cpp:83-366 | Reading the canonical text of a representable value gives the value back. |
| `JsonReader.JsonParser.ParseChar` | fastkpc/src/full_cuda_ci_contract.cpp:182-214 | One character: plain ASCII, a short escape, or a four-digit escape of an ASCII code; surrogates and other codes fail. |
| `JsonRoundTrip.CanonicalInjective` | fastkpc/src/full_cuda_ci_contract.cpp:332-366 | Canonical text identifies values. |
| `JsonRoundTrip.CanonicalIsFixed` | fastkpc/src/full_cuda_ci_contract.cpp:83-366 | Every accepted document denotes a representable value whose canonical text is accepted, reads the same and is a fixed point. |
| `JsonSpelling.DocumentReads` | fastkpc/src/full_cuda_ci_contract.cpp:83-304 | A text reads as a value if and only if it spells it: any blanks around any token, any escape of any character, members of different keys in any order. Everything else is refused. |
| `JsonSpelling.SpellingsAgree` | fastkpc/src/full_cuda_ci_contract.cpp:83-366 | Any two spellings of a value are accepted and have the same canonical text. |
| `JsonSpelling.SpellingUnique` | fastkpc/src/full_cuda_ci_contract.cpp:83-304 | No text spells two values. |
| `JsonSpelling.SortedUnique` | fastkpc/src/full_cuda_ci_contract.cpp:247-264 | The same fields have one order only, so the order in which members are written is lost. |
| `Ordering.LessIs` | fastkpc/src/full_cuda_ci_contract.cpp:41 | Keys are ordered as texts: at the first character in which two differ, or by length if one is the beginning of the other. |
| `JsonRoundTrip.AcceptedOrdered` | fastkpc/src/full_cuda_ci_contract.cpp:83-304 | In every object of an accepted document each key stands before the next in that order. |
| `JsonSpelling.CharReads` | fastkpc/src/full_cuda_ci_contract.cpp:176-217 | A character reads the same in all its spellings: plain, by letter, or by four hexadecimal digits in either case. |
| `JsonRoundTrip.CanonicalIsSpelling` | fastkpc/src/full_cuda_ci_contract.cpp:332-366 | Canonical text is one of the spellings of its value; which one is `JsonCanonical.CanonicalIs`. |
| `JsonCanonical.CanonicalIs` | fastkpc/src/full_cuda_ci_contract.cpp:307-366 | A text is the canonical one of a value if and only if it is the spelling without blanks, with keys in ascending order, plain characters where they may be, short escapes where there are any and otherwise four lower-case hexadecimal digits, and no sign on zero. |
| `JsonCanonical.PreferredText` | fastkpc/src/full_cuda_ci_contract.cpp:307-330 | The printer writes each character in its preferred spelling. |
| `JsonCanonical.NumeralUnique` | fastkpc/src/full_cuda_ci_contract.cpp:332-345 | A number has one numeral without sign on zero and without leading zeros. |
| `JsonRoundTrip.CanonicalDecides` | fastkpc/src/full_cuda_ci_contract.cpp:83-366 | Two documents have the same canonical text if and only if they spell the same value. |
| `JsonSpelling.BlanksVanish` | fastkpc/src/full_cuda_ci_contract.cpp:118-126 | Blanks in front of a token disappear. |
| `JsonRoundTrip.FilingCommutes` | fastkpc/src/full_cuda_ci_contract.cpp:247-264 | Two members of different keys may be filed into an object in either order. |
| `JsonRoundTrip.HexEscapeReads` | fastkpc/src/full_cuda_ci_contract.cpp:160-174 | An ASCII character spelled by its hexadecimal code, in either case, reads as that character. |
| `JsonRoundTrip.EscapeReads` | fastkpc/src/full_cuda_ci_contract.cpp:307-330 | Each escape the printer writes reads back as its character. |

## Left out

- CUDA streams, events, kernels and memory calls: only the FIFO copy stream, slot leases, buffer contents and allocation counts that the protocols need are modelled; a device call that fails is a failing step of a worker.
- Floating-point rounding, infinities and NaN: p-values are reals in [0, 1], so the checks for non-finite values have no counterpart.
- Row-major index arithmetic: matrices are rows of values; only the edge key `x * p + y` and the tensor positions `1 + a * n2 + b` keep theirs. Vectors that the source updates in place inside one function are local sequences that the methods reassign.
- Integer overflow checks of sizes and the overflow of `null_space_dimension` for huge arguments.
- The choice of the ready bucket (largest, cached, positive-miss prediction): any choice is allowed.
- Task numbers, traces, timings, diagnostics counters and memory accounting.
- The optimizers, residual fits, kernels, LAPACK calls and gamma tails themselves: a job's result is a function of the job, and prepared setups are a function of the conditioning set.
- The digest of a permutation table is the sequence of values digested; SHA-256 is not modelled.
- `R_unif_index` and `std::shuffle` are library code: the masked rejection drawn inline is modelled.
- Dcov.PermutationTest: takes its permutations as given, because `std::shuffle` is library code; `Dcov.DrawnPermutationTest` draws its own.
- The R interface, environment policies, contract validators and the semantic ABI tables.
- Spline.CubicBsplineBasis: holds for any centers; the quantile knots are not modelled.
- The residual search and neighbourhood loop of the generalised orientation phase around the rule closure.
- LruCache.Cache.Lookup: the DatasetKey cross-check of a found entry and the lock are not modelled; a cached value is looked up by its full key.
- SetupCache.Cache.MaterializeDevice: the handle given to a context whose device entry has been evicted is not followed, because the model keeps handles by device entry.
- Arena.CoefficientArena.EnqueueStore: the copy takes effect at once here, its asynchronous completion being modelled in `SlotPool`; the checks that the producer still is the one that computed the columns are left out.
- Arena.CoefficientArena.Gather: the checks of route, rank and solver information stored with a column are left out.
- Prefill.PrefillLevel: component finalisation and the arena stores of a finished window are left out; the coefficients depend only on the window's requests.
- PrefillRun.RunExact: the levels whose optimizers run in slots store through `SlotPool` and are levels without windows here; what a level's tests do with the cache is any function of the cache.
- Keys of prepared sets and of targets are the texts the source hashes; that SHA-256 keeps them apart is not part of this model.
- Shuffles.PooledTable: the loops over pairs and replicates are one loop over all rows; no generator state is kept besides the tape.
- `TargetStateCache` works like `CompactResultCache`; `LruCache` models both, and `Prefill` uses its list form.
- OneCall.RunSkeleton: a failed level and its cleanup are not modelled.
