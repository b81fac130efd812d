# Verified models of the node's core algorithms

Eight parts of the node are modelled here in Dafny, each with the properties it exists for.
`dafny verify dfyconfig.toml` checks everything.

**Cluster linearization** (`FeeRates` to `PostLinearization`). A cluster is a graph of transactions
with fees and sizes; a linearization is an order with ancestors first. The spanning-forest algorithm
keeps a set of active dependencies. Chunks are its connected components, and for every active
dependency the top set is the part left on the parent's side when it is cut. The model keeps the
stored form of the source (set indices, cached feerates, reachable sets, queues) in a class and
proves that every operation keeps it equal to the forest it stands for. Feerates are compared by
cross-multiplication and reasoned about as reals; an order is judged by its feerate diagram, that
is, for every feerate by what its best prefix earns above it. The main results are `Linearize` and
`PostLinearize`. All random choices are nondeterministic; the cost model is that of the source, with
bounds for every operation in `CostBounds`.

**Check queue** (`CheckQueues`). The master/worker protocol is a system of atomic steps, one per
critical section or check, over any number of workers, batch sizes, rounds and checks.

**Address manager** (`AddressTables`, `AddressManagers`). Five redundant indexes, related by one
invariant that every operation keeps, with `loose` and `transit` entries in the middle of one.
Bucket hashes are arbitrary functions in range; the clock, the draws of the stochastic test and the
validity of addresses are parameters, other random choices are nondeterministic.

**Coins caches** (`CoinsCaches` to `CoinsOverlays`). A stack of write-back caches of any depth over
a database refines plain maps; the list of flagged entries is also modelled with its links; the
parallel prefetcher is a step system.

**Headers sync** (`HeaderChains`, `HeaderSyncs`). The two-phase download with one-bit commitments.
Block hash, salted hasher, permitted difficulty transitions and proofs of work are arbitrary
functions. The model requires a redownload buffer of at least one header, as all networks have:
with none, the code would compare difficulties with the first block instead of the previous one.

**256-bit arithmetic** (`Limbs` to `CompactTargets`). Limb arithmetic in place, of any width,
against integers; the compact form of targets; the work of a block.

**Block index** (`BlockIndexes` to `BlockChains`). Linked entries with skip links against the plain
line of ancestors, and how few steps the skip links leave.

**Address strings** (`Bech32Checksums` to `Base58`). Bech32 of BIP 173 (section "Bech32",
"Checksum") and Bech32m of BIP 350 (section "Bech32m") on bytes, the checksum on 32-bit vectors
against the division of polynomials over the field of 32 elements; Base58 with its digit buffers.

Where the code and its documentation differ, the code is followed, and the difference is stated:

- `Linearize` is documented to be at least as good as the old linearization. That holds for every
  valid one (`Linearization.Linearize`). For one declared non-topological no algorithm can promise
  it: an old order can be matched whatever the fees exactly if it is valid
  (`OldOrders.MatchedExactly`), and `OldOrders.NotAsGoodAsInvalid` gives a pair that cannot.
- The budget of `Linearize` is documented as an upper bound on its work. It is not one: setting up
  costs something in any case, loading is not limited by it, and the last step may go beyond it, by a
  bounded amount (`Linearization.Linearize`).
- `FindEarliestAtLeast` is documented to find the earliest block with a late enough timestamp at or
  above a height. `BlockChains.EarliestExactly` states exactly when it does, and
  `BlockChains.NotEarliest` gives timestamps for which it does not.

## Model

| member | source | states |
|---|---|---|
| `FeeRates.CompareIsRatioOrder` | bitcoin-source/src/util/feefrac.h:235-268 | cross-multiplication orders feerates of positive size exactly as the quotients do |
| `FeeRates.Mediant` | bitcoin-source/src/cluster_linearize.h:556-558 | the feerate of a union lies between the feerates of its parts, strictly if they differ |
| `Forests.AddEdgeValid` | bitcoin-source/src/cluster_linearize.h:567-579 | activating a dependency between two chunks keeps the forest: chunks are the connected components, every top set is the part left on the parent side |
| `Forests.RemoveEdgeValid` | bitcoin-source/src/cluster_linearize.h:577-600 | deactivating a dependency splits its chunk into exactly the top set and the rest and keeps the forest |
| `Forests.EdgeCount` | bitcoin-source/src/cluster_linearize.h:570-572 | every chunk of N transactions has exactly N - 1 active dependencies |
| `Forests.ForestUnique` | bitcoin-source/src/cluster_linearize.h:549-552 | chunks and top sets are functions of the set of active dependencies |
| `Forests.AddThenRemove` | bitcoin-source/src/cluster_linearize.h:818-946 | deactivating what was just activated restores the forest |
| `ForestStore.ActivatedValid` | bitcoin-source/src/cluster_linearize.h:818-887 | the stored form after activation (set indices, cached feerates, reachable sets, top sets updated by union) is consistent and stands for the forest with that edge added |
| `ForestStore.DeactivatedValid` | bitcoin-source/src/cluster_linearize.h:891-946 | the stored form after deactivation (sets updated by difference, new index for the top) is consistent and stands for the forest with that edge removed |
| `ForestInit.FreshValid` | bitcoin-source/src/cluster_linearize.h:1177-1210 | the initial state with every transaction alone is a valid stored form |
| `ForestInit.InitialStore` | bitcoin-source/src/cluster_linearize.h:1177-1210 | builds that state, with parents and children from the reduced graph, in an arbitrary chunk order, and counts its sets and dependencies |
| `ForestInit.GatherNeighbours` | bitcoin-source/src/cluster_linearize.h:1188-1199 | parents and children of every transaction are its reduced parents and children, and their number is that of the dependencies |
| `DepGraphs.DependencyMeaning` | bitcoin-source/src/cluster_linearize.h:176-201 | after adding parents, u is an ancestor of v exactly if it was, or v descends from the child and u precedes one of the parents |
| `DepGraphs.DependenciesClosed` | bitcoin-source/src/cluster_linearize.h:176-201 | ancestor sets stay reflexively and transitively closed and descendant sets stay their inverse |
| `DepGraphs.DependenciesLeast` | bitcoin-source/src/cluster_linearize.h:176-201 | the new ancestor sets are the least closed ones with the new parents |
| `DepGraphs.GetReducedParents` | bitcoin-source/src/cluster_linearize.h:211-222 | removing ancestors of ancestors in any order leaves the transitive reduction |
| `DepGraphs.ReductionIsDual` | bitcoin-source/src/cluster_linearize.h:203-243 | reduced parents and reduced children are each other's inverse |
| `DepGraphs.ReductionCovers` | bitcoin-source/src/cluster_linearize.h:203-222 | every proper ancestor is reached through some reduced parent |
| `DepGraphs.ClosedByReduction` | bitcoin-source/src/cluster_linearize.h:203-222 | a set holds all ancestors of its members exactly if it holds their reduced parents |
| `TransactionGraphs.DepGraph.constructor` | bitcoin-source/src/cluster_linearize.h:71 | the empty graph |
| `TransactionGraphs.DepGraph.AddTransaction` | bitcoin-source/src/cluster_linearize.h:131-149 | a new unconnected transaction at the lowest free position |
| `TransactionGraphs.DepGraph.RemoveTransactions` | bitcoin-source/src/cluster_linearize.h:151-174 | positions are freed and every remaining ancestor relation, also through removed ones, is kept |
| `TransactionGraphs.DepGraph.AddDependencies` | bitcoin-source/src/cluster_linearize.h:176-201 | the stored sets become those of the graph with the new dependencies |
| `TransactionGraphs.WithoutClosed` | bitcoin-source/src/cluster_linearize.h:151-174 | the graph without the removed transactions is closed again |
| `TransactionGraphs.AcyclicExactly` | bitcoin-source/src/cluster_linearize.h:329-337 | new dependencies close no cycle exactly if no parent, other than the child itself, descends from the child |
| `Topology.MergeKeepsState` | bitcoin-source/src/cluster_linearize.h:643-651 | merging with the lowest-feerate chunk it depends on keeps the state of an upward merge sequence: only the grown chunk may violate dependencies, and what depends on it is below all it depends on |
| `Topology.MergeDone` | bitcoin-source/src/cluster_linearize.h:1065-1078 | when no merge is left the region is topological |
| `Diagrams.MergeKeepsDiagram` | bitcoin-source/src/cluster_linearize.h:649-651 | a merge sequence never lowers the feerate diagram below that without its starting chunk |
| `Improvement.ImprovedTopological` | bitcoin-source/src/cluster_linearize.h:1082-1114 | after the split, one upward sequence from the top and one downward sequence from the bottom make the partition topological again |
| `Improvement.ImprovedDiagram` | bitcoin-source/src/cluster_linearize.h:649-651 | and at no feerate is the diagram lower than before |
| `Improvement.ImprovedStrictly` | bitcoin-source/src/cluster_linearize.h:706-710 | if top and bottom do not end up together again, the diagram is strictly higher at the feerate of the chunk that was split |
| `Optimality.UpClosedPartLow` | bitcoin-source/src/cluster_linearize.h:597-606 | if no active dependency has a top of higher feerate, no part of a chunk that holds its in-chunk parents has a higher feerate |
| `Optimality.DiagramIsOptimal` | bitcoin-source/src/cluster_linearize.h:602-606 | then no ancestor-closed set beats the diagram of the chunks at any feerate |
| `Minimality.PivotSearched` | bitcoin-source/src/cluster_linearize.h:672-685 | if no equal-feerate split shows on an active dependency with the pivot on one side, then no equal-feerate part has the pivot on that side |
| `Minimality.PivotInherits` | bitcoin-source/src/cluster_linearize.h:1357-1447 | what was found for a pivot carries over to the part the pivot is in |
| `Minimality.EvenSplitDiagram` | bitcoin-source/src/cluster_linearize.h:624-625 | an equal-feerate split leaves the diagram as it is |
| `Minimality.EvenCutWorked` | bitcoin-source/src/cluster_linearize.h:1357-1447 | after an equal-feerate split neither part has a dependency worth splitting |
| `Minimality.EvenJoinWorked` | bitcoin-source/src/cluster_linearize.h:1357-1447 | nor has the result of merging the parts again |
| `Minimality.EvenSplitOrderly` | bitcoin-source/src/cluster_linearize.h:617-618 | an equal-feerate split whose parts do not depend on each other both ways keeps the chunk graph acyclic |
| `Minimality.TopologicalOrderly` | bitcoin-source/src/cluster_linearize.h:581-591 | a topological state has an acyclic chunk graph |
| `Loading.LoadsStep` | bitcoin-source/src/cluster_linearize.h:1215-1226 | merging upward while an existing linearization is loaded keeps what is loaded topological but for the growing chunk |
| `Loading.LoadsDone` | bitcoin-source/src/cluster_linearize.h:663-670 | after each transaction of the old order, the loaded part is topological and no worse |
| `SpanningForests.SpanningForest.constructor` | bitcoin-source/src/cluster_linearize.h:1177-1210 | a valid state with every transaction in its own chunk |
| `SpanningForests.SpanningForest.Activate` | bitcoin-source/src/cluster_linearize.h:818-887 | the state becomes the stored form with the dependency active; returns the merged chunk |
| `SpanningForests.SpanningForest.Deactivate` | bitcoin-source/src/cluster_linearize.h:891-946 | the state becomes the stored form with the dependency inactive; returns both parts |
| `SpanningForests.SpanningForest.PickMergeCandidate` | bitcoin-source/src/cluster_linearize.h:1004-1051 | the lowest-feerate chunk among those depended on that is not above the chunk (mirrored for downward merges), or proof that none is left |
| `SpanningForests.SpanningForest.PickDependency` | bitcoin-source/src/cluster_linearize.h:957-985 | some dependency between two chunks that have one |
| `SpanningForests.SpanningForest.MergePair` | bitcoin-source/src/cluster_linearize.h:948-988 | two chunks that depend on each other become one, all else unchanged |
| `SpanningForests.SpanningForest.MergeStep` | bitcoin-source/src/cluster_linearize.h:1054-1062 | merges with the best candidate or proves that no merge is left |
| `SpanningForests.SpanningForest.MergeSequence` | bitcoin-source/src/cluster_linearize.h:1065-1079 | ends with the region topological, everything outside unchanged and the result queued |
| `SpanningForests.SpanningForest.Improve` | bitcoin-source/src/cluster_linearize.h:1082-1114 | from a topological state, ends topological, with every unqueued chunk without a dependency worth splitting, no worse at any feerate, and either with the same chunks or strictly better at the feerate of the chunk that was split |
| `SpanningForests.SpanningForest.LoadLinearization` | bitcoin-source/src/cluster_linearize.h:1215-1226 | a valid old order gives a topological state whose diagram reaches every prefix of it; any order keeps the forest valid |
| `SpanningForests.SpanningForest.MakeTopological` | bitcoin-source/src/cluster_linearize.h:1229-1296 | ends topological though chunks not made by a merge are tried in one direction only; a topological state is left unchanged |
| `SpanningForests.SpanningForest.StartOptimizing` | bitcoin-source/src/cluster_linearize.h:1299-1314 | queues every chunk once |
| `SpanningForests.SpanningForest.PickChunkToOptimize` | bitcoin-source/src/cluster_linearize.h:1117-1137 | the first queued index that is still a chunk; no live chunk is lost from the queue |
| `SpanningForests.SpanningForest.PickDependencyToSplit` | bitcoin-source/src/cluster_linearize.h:1141-1172 | an active dependency whose top has a higher feerate than its chunk, or proof that there is none |
| `SpanningForests.SpanningForest.OptimizeStep` | bitcoin-source/src/cluster_linearize.h:1317-1333 | keeps the state topological and the queue invariant, is never worse, leaves the chunks as they are or is strictly better at the feerate of one of them, returns false exactly when its queue is empty, when no chunk has a dependency worth splitting, and costs no more than the bound for one step |
| `SpanningForests.SpanningForest.StartMinimizing` | bitcoin-source/src/cluster_linearize.h:1337-1354 | queues every chunk with a pivot |
| `SpanningForests.SpanningForest.PickEvenDependency` | bitcoin-source/src/cluster_linearize.h:1371-1399 | a dependency that splits the chunk at its own feerate with the pivot on the wanted side, or proof that no such part exists |
| `SpanningForests.SpanningForest.SplitEvenly` | bitcoin-source/src/cluster_linearize.h:1409-1445 | the chunk is split, or merged back if the parts depend on each other, with the invariant kept and the diagram unchanged |
| `SpanningForests.SpanningForest.MinimizeStep` | bitcoin-source/src/cluster_linearize.h:1357-1447 | keeps an optimal state with acyclic chunk graph in which every unqueued chunk is minimal; returns false exactly when the queue was empty, and costs no more than the bound for one step |
| `SpanningForests.SpanningForest.GetLinearization` | bitcoin-source/src/cluster_linearize.h:1465-1605 | see Emitting.GetLinearization |
| `ForestSteps.UntanglingDone` | bitcoin-source/src/cluster_linearize.h:1229-1296 | when the queue of MakeTopological is empty, every dependency is good |
| `ForestSteps.UntanglingMerged` | bitcoin-source/src/cluster_linearize.h:1229-1296 | a merge queued for both directions keeps every bad dependency covered by the queue |
| `MinimizeSteps.Requeued` | bitcoin-source/src/cluster_linearize.h:1357-1447 | taking a chunk off the queue, reworking it and queueing what came of it keeps the minimization invariant |
| `Ordering.PopFirst` | bitcoin-source/src/cluster_linearize.h:1506-1560 | takes the entry that comes after no other in the heap order |
| `Ordering.ChunkTies` | bitcoin-source/src/cluster_linearize.h:1453-1458 | of chunks that could come next, the one that does has the highest feerate, then the smallest size, then the lowest highest transaction |
| `Ordering.TxTies` | bitcoin-source/src/cluster_linearize.h:1459-1464 | of transactions of a chunk that could come next, the one that does has the highest feerate, then the smallest size, then is the lowest |
| `Ordering.RatesFall` | bitcoin-source/src/cluster_linearize.h:1449-1464 | chunks come out in non-increasing feerate although only ready ones are considered |
| `Ordering.SequenceReaches` | bitcoin-source/src/cluster_linearize.h:1449-1464 | an order that lists the chunks so is at least as good as the chunks at every feerate |
| `Ordering.TxSequenceClosed` | bitcoin-source/src/cluster_linearize.h:1449-1464 | taking the best ready transaction repeats nothing and puts everything after what it depends on |
| `Emitting.CountAll` | bitcoin-source/src/cluster_linearize.h:1475-1493 | dependency counts of transactions and chunks are exact |
| `Emitting.TellChildren` | bitcoin-source/src/cluster_linearize.h:1579-1599 | after a transaction goes out, counts and both heaps are exact again |
| `Emitting.NoStall` | bitcoin-source/src/cluster_linearize.h:1563-1600 | while a chunk is not out completely, one of its transactions is ready |
| `Emitting.EmitChunk` | bitcoin-source/src/cluster_linearize.h:1562-1600 | puts out exactly the transactions of a chunk, best ready one first |
| `Emitting.EmissionComplete` | bitcoin-source/src/cluster_linearize.h:1556-1602 | when no chunk is ready, all are out |
| `Emitting.GetLinearization` | bitcoin-source/src/cluster_linearize.h:1465-1605 | a valid order of all transactions that lists the chunks in the documented order, each internally in the documented order, and reaches their diagram |
| `Linearization.DrainedIsOptimal` | bitcoin-source/src/cluster_linearize.h:602-606 | a state whose optimization queue has drained beats every ancestor-closed set at every feerate |
| `Linearization.StartingPoint` | bitcoin-source/src/cluster_linearize.h:1812-1819 | the state after loading is topological, and as good as a valid old order, at a bounded cost |
| `Linearization.Optimize` | bitcoin-source/src/cluster_linearize.h:1820-1827 | never worse; drained exactly when the queue is empty, and then optimal; otherwise the budget is used up, and by no more than one step |
| `Linearization.Minimize` | bitcoin-source/src/cluster_linearize.h:1828-1839 | never worse; it reports success or has used up the budget, by no more than one step; with success all chunks are optimal and minimal |
| `Linearization.AllMinimal` | bitcoin-source/src/cluster_linearize.h:1797-1800 | the blocks of an optimal state with minimal chunks, listed in the documented order, are exactly the chunks of that order |
| `Linearization.ChunksAreMinimal` | bitcoin-source/src/cluster_linearize.h:1797-1800 | so however the chunks of the result are computed, none can be split at its own feerate |
| `Linearization.Linearize` | bitcoin-source/src/cluster_linearize.h:1783-1841 | for every acyclic graph, budget, fallback order and old order: a permutation with ancestors first, in the documented order of chunks and of transactions inside, at least as good as a valid old order, and if flagged, optimal against every ancestor-closed set at every feerate, with chunks of the result that cannot be split at their own feerate; flagged whenever budget is left; the cost is at least that of the initial state, and beyond the budget by less than one step unless loading alone uses it up |
| `OldOrders.MatchedExactly` | bitcoin-source/src/cluster_linearize.h:1797-1798 | an old order of all transactions can be matched by a valid order, whatever the fees, if and only if it is itself valid: the documented promise holds exactly then |
| `OldOrders.NotMatched` | bitcoin-source/src/cluster_linearize.h:1797-1798 | for any list that puts a transaction before one it needs there are fees for which no valid order is as good |
| `OldOrders.NotAsGoodAsInvalid` | bitcoin-source/src/cluster_linearize.h:1797-1798 | a concrete valid cluster of two, with a valid order, and an old order that no valid order is as good as |
| `Chunkings.ChunkLinearization` | bitcoin-source/src/cluster_linearize.h:427-444 | computes a chunking: parts of falling feerate, each with only lower proper prefixes, with their transactions and total feerates |
| `Chunkings.ChunkingUnique` | bitcoin-source/src/cluster_linearize.h:427-444 | an order has exactly one chunking |
| `GroupOrders.SwapNoWorse` | bitcoin-source/src/cluster_linearize.h:1871-1881 | swapping a group with one of no higher feerate before it is no worse at any feerate |
| `GroupOrders.SwapValid` | bitcoin-source/src/cluster_linearize.h:1879-1880 | and keeps the order valid if it does not depend on it |
| `GroupOrders.MergedDominated` | bitcoin-source/src/cluster_linearize.h:1877-1878 | a merged group has no prefix that earns more than it |
| `GroupOrders.RevNoWorse` | bitcoin-source/src/cluster_linearize.h:1883-1887 | no worse with fees and order reversed is no worse |
| `GroupLists.AddedOk` | bitcoin-source/src/cluster_linearize.h:1965-1974 | adding a singleton group keeps the circular list of linked groups well formed |
| `GroupLists.SwappedOk` | bitcoin-source/src/cluster_linearize.h:2005-2015 | relinking two neighbouring groups in place swaps them in the list |
| `GroupLists.MergedOk` | bitcoin-source/src/cluster_linearize.h:1990-2003 | relinking in place puts one group in front of its successor |
| `GroupShapes.MergedTreeLike` | bitcoin-source/src/cluster_linearize.h:1866-1868 | in a graph where nothing has two dependents, no part of a merged group beats it |
| `GroupGuarantees.TreesOptimal` | bitcoin-source/src/cluster_linearize.h:1866-1868 | one pass over such a graph gives an optimal order |
| `GroupGuarantees.AncestorsChain` | bitcoin-source/src/cluster_linearize.h:1851-1852 | with at most one parent each, two ancestors of a transaction are ancestors of each other |
| `MovedLeaves.AsideInPlace` | bitcoin-source/src/cluster_linearize.h:1869 | a transaction that nothing needs ends up where it does at least as well as at the end |
| `MovedLeaves.MovedNext` | bitcoin-source/src/cluster_linearize.h:1853-1857 | step by step, the pass catches up with the order in which the first transaction came later |
| `PostLinearization.Settle` | bitcoin-source/src/cluster_linearize.h:1976-2017 | merges the last group with, or moves it before, groups of lower feerate: order valid, no worse, groups sorted, connected and without better prefixes |
| `PostLinearization.GroupAll` | bitcoin-source/src/cluster_linearize.h:1955-2018 | takes up every transaction from the back or the front; besides what Settle keeps, the order is no worse than with the first transaction moved to any later valid place |
| `PostLinearization.WriteBack` | bitcoin-source/src/cluster_linearize.h:2020-2040 | writes the groups back in place, in the orientation of the pass |
| `PostLinearization.RunPass` | bitcoin-source/src/cluster_linearize.h:1953-2041 | one pass in either direction: valid, no worse |
| `PostLinearization.PostLinearize` | bitcoin-source/src/cluster_linearize.h:1843-2042 | valid and no worse; chunks connected; optimal if no transaction has more than one parent or none more than one child; no worse than the order was before its last transaction was moved to the end and its fee was raised |
| `PostLinearization.RaisedFee` | bitcoin-source/src/cluster_linearize.h:1853-1857 | an order no worse than another is no worse than the other was when one transaction paid less for the same size |
| `CheckQueues.StepOk` | bitcoin-source/src/checkqueue.h:73-190 | every step of any thread keeps the invariant: counters exact, results from the current round only, no stale local result |
| `CheckQueues.RunKeeps` | bitcoin-source/src/checkqueue.h:73-190 | it holds in every state of every run with any number of workers |
| `CheckQueues.RoundsAreRight` | bitcoin-source/src/checkqueue.h:18-31 | every round returned no error exactly if all its checks pass, else the error of one of them |
| `CheckQueues.TodoIsExact` | bitcoin-source/src/checkqueue.h:58-63 | nTodo is the number of checks queued plus those in the hands of threads |
| `CheckQueues.ReturnsWhenDone` | bitcoin-source/src/checkqueue.h:99-107 | Complete returns only when nothing is queued or held |
| `CheckQueues.MasterNotStuck` | bitcoin-source/src/checkqueue.h:90-111 | no wake-up is lost: until Complete returns, some thread can run a check, account for a batch, or be the master looking for work when told to |
| `CheckQueues.WorkFalls` | bitcoin-source/src/checkqueue.h:81-137 | every working step makes the remaining work strictly less |
| `CheckQueues.LeftFalls` | bitcoin-source/src/checkqueue.h:81-137 | while Complete goes on every such step leaves strictly fewer of them, and no other step leaves more |
| `CheckQueues.CompleteReturns` | bitcoin-source/src/checkqueue.h:90-137 | in every run Complete goes on through a bounded number of such steps, and one is possible all the time: it returns in every fair run |
| `AddressTables.CreatedOk` | bitcoin-source/src/addrman.cpp:397-411 | a new entry keeps all tables in agreement |
| `AddressTables.SwappedOk` | bitcoin-source/src/addrman.cpp:413-435 | so does exchanging two places of the random order with both back-pointers |
| `AddressTables.DroppedOk` | bitcoin-source/src/addrman.cpp:437-452 | and removing a last, unreferenced entry |
| `AddressTables.ClearedOk` | bitcoin-source/src/addrman.cpp:454-470 | freeing a slot of the new table leaves one reference less |
| `AddressTables.FilledOk` | bitcoin-source/src/addrman.cpp:591-594 | filling one leaves one more |
| `AddressTables.DepartedOk` | bitcoin-source/src/addrman.cpp:487-490 | an entry out of all new buckets no longer counts as new |
| `AddressTables.EvictedOk` | bitcoin-source/src/addrman.cpp:497-507 | a tried slot is freed with all counters |
| `AddressTables.ReturnedOk` | bitcoin-source/src/addrman.cpp:509-519 | the evicted entry re-enters the new table with one reference |
| `AddressTables.PromotedOk` | bitcoin-source/src/addrman.cpp:525-528 | an entry enters its one tried slot |
| `AddressTables.AgreePassesCheck` | bitcoin-source/src/addrman.cpp:1044-1147 | between operations none of the conditions of CheckAddrman fails |
| `AddressManagers.AddrMan.constructor` | bitcoin-source/src/addrman.cpp:90-106 | an empty manager |
| `AddressManagers.AddrMan.Find` | bitcoin-source/src/addrman.cpp:382-395 | the one entry with this address; nothing exactly if no entry has it |
| `AddressManagers.AddrMan.Create` | bitcoin-source/src/addrman.cpp:397-411 | a fresh id, in no bucket |
| `AddressManagers.AddrMan.SwapRandom` | bitcoin-source/src/addrman.cpp:413-435 | the two places are exchanged, in the order and in the entries, all else unchanged |
| `AddressManagers.AddrMan.Delete` | bitcoin-source/src/addrman.cpp:437-452 | the entry is gone from every index, other entries unchanged |
| `AddressManagers.AddrMan.ClearNew` | bitcoin-source/src/addrman.cpp:454-470 | the slot is free; its entry is gone if this was its last reference |
| `AddressManagers.AddrMan.LeaveNew` | bitcoin-source/src/addrman.cpp:476-490 | walking the buckets from the entry's own bucket finds every reference |
| `AddressManagers.AddrMan.MakeTried` | bitcoin-source/src/addrman.cpp:472-529 | the entry is in its tried slot and no other tried slot changes; the new table loses exactly the entry and gains the evicted one in the slot of its own source; otherwise entries only change the tables they are in |
| `AddressManagers.AddrMan.MakeRoom` | bitcoin-source/src/addrman.cpp:496-522 | the tried slot is free and its entry is in the new table |
| `AddressManagers.AddrMan.AddSingle` | bitcoin-source/src/addrman.cpp:531-605 | inserted exactly if the address is routable and, when known, there is news, it is not tried, not at eight references and the draw, one in 2^n for n references, is lucky, and its hashed slot is free or held by another entry that is terrible or that can be spared; then exactly that slot changes, else none; the entry of an address known or inserted holds what was told of it, and all other entries stay but the one that gives up its slot |
| `AddressManagers.AddrMan.Place` | bitcoin-source/src/addrman.cpp:580-604 | takes the slot exactly if it is free or held by another entry that is terrible, or that has more references when this one has none; else drops an unreferenced entry |
| `AddressManagers.AddrMan.Add` | bitcoin-source/src/addrman.cpp:662-672 | every address of the list is added in turn, each as AddSingle does it, and the result is whether any of them went in |
| `AddressManagers.AddrMan.Good` | bitcoin-source/src/addrman.cpp:607-660 | exactly when the entry moves to the tried table, what both tables then are, when the collision is remembered, and what is recorded of the success |
| `AddressManagers.AddrMan.Attempt` | bitcoin-source/src/addrman.cpp:674-692 | the attempt is recorded and counted at most once since the last success |
| `AddressManagers.AddrMan.Connected` | bitcoin-source/src/addrman.cpp:858-875 | the time is updated if it is old |
| `AddressManagers.AddrMan.SetServices` | bitcoin-source/src/addrman.cpp:877-891 | the services are replaced |
| `AddressManagers.AddrMan.ResolveCollisions` | bitcoin-source/src/addrman.cpp:893-954 | an entry connected to within four hours keeps its tried slot; a collision is no longer pending only if the waiting entry is gone or invalid or its slot is held by an entry connected to within four hours, such as itself; it stays pending only if it was too early to decide |
| `AddressManagers.AddrMan.Resolve` | bitcoin-source/src/addrman.cpp:897-953 | exactly when the collision stays pending, and exactly when the waiting entry takes its tried slot, with a success recorded and the history of all other entries kept |
| `AddressManagers.AddrMan.SelectTriedCollision` | bitcoin-source/src/addrman.cpp:956-982 | the slot looked up for a waiting entry is never empty, and the answer is the address and last try of the entry in it |
| `AddressManagers.AddrMan.GetAddr` | bitcoin-source/src/addrman.cpp:793-832 | different known addresses of the network and quality asked for, at most the wanted number and share, and all such addresses if there are fewer; nothing but the random order changes |
| `AddressManagers.TerribleCases` | bitcoin-source/src/addrman.cpp:50-73 | the five cases in which an entry is terrible or safe, with the times in seconds |
| `AddressManagers.OddsAre` | bitcoin-source/src/addrman.cpp:568-572 | an entry with n references is let into one more bucket in one of 2^n draws |
| `AddressManagers.CollisionsStay` | bitcoin-source/src/addrman.cpp:641-651 | a tried slot once occupied stays occupied and ids are never reused, so waiting entries keep pointing to occupied slots |
| `CoinsCaches.StoredOk` | bitcoin-source/src/coins.cpp:73-123 | storing an entry that fits the level below keeps flags, dirty list, counters and usage exact and changes the view at one outpoint |
| `CoinsCaches.ErasedOk` | bitcoin-source/src/coins.cpp:137-159 | dropping an entry likewise |
| `CoinsCaches.WrittenOk` | bitcoin-source/src/coins.cpp:194-263 | writing a child's entry never meets a misapplied FRESH flag and gives the parent that coin |
| `CoinsCaches.MergedAll` | bitcoin-source/src/coins.cpp:194-263 | with all dirty entries written the level below presents the view of the cache |
| `CoinsStacks.CoinsStack.constructor` | bitcoin-source/src/coins.cpp:36-41 | a database without caches |
| `CoinsStacks.CoinsStack.Push` | bitcoin-source/src/coins.cpp:36-41 | an empty cache on top presents the same view |
| `CoinsStacks.CoinsStack.FetchCoin` | bitcoin-source/src/coins.cpp:52-65 | changes no view; exactly the caches that reading gets down to gain a clean copy of the coin, if it exists; found exactly if cached or unspent below |
| `CoinsStacks.CoinsStack.GetCoin` | bitcoin-source/src/coins.cpp:67-71 | the coin of the view, filling the same caches |
| `CoinsStacks.CoinsStack.PeekCoin` | bitcoin-source/src/coins.cpp:28-34 | the coin of the view without filling caches |
| `CoinsStacks.CoinsStack.AddCoin` | bitcoin-source/src/coins.cpp:73-114 | the view gains the coin, with the exact entry and flags; refused exactly if an unspent coin is cached and overwriting is not allowed |
| `CoinsStacks.CoinsStack.SpendCoin` | bitcoin-source/src/coins.cpp:137-161 | the view loses the coin, which is handed out; a FRESH entry is gone, any other is now spent and dirty |
| `CoinsStacks.CoinsStack.Uncache` | bitcoin-source/src/coins.cpp:296-309 | no view changes; exactly a clean entry is dropped |
| `CoinsStacks.CoinsStack.Reset` | bitcoin-source/src/coins.cpp:288-294 | the cache is empty and presents the level below |
| `CoinsStacks.CoinsStack.BatchWrite` | bitcoin-source/src/coins.cpp:194-263 | never fails; the level below presents what the cache presented, with the exact entries and flags of the cache written to; nothing further down changes |
| `CoinsStacks.CoinsStack.Flush` | bitcoin-source/src/coins.cpp:265-275 | the view is unchanged and the level below has it |
| `CoinsStacks.CoinsStack.Sync` | bitcoin-source/src/coins.cpp:277-286 | likewise; exactly the unspent coins of the cache stay in it, all clean |
| `CoinsStacks.CoinsStack.Pop` | bitcoin-source/src/coins.cpp:36-41 | taking a cache off leaves all lower views |
| `FlagLists.AppendedOk` | bitcoin-source/src/coins.h:138-151 | linking before the sentinel appends to the list |
| `FlagLists.RemovedOk` | bitcoin-source/src/coins.h:186-193 | unlinking takes out one entry and keeps the order of the others |
| `FlagLists.FlagList.AddFlags` | bitcoin-source/src/coins.h:138-151 | appends an entry unless it is in the list |
| `FlagLists.FlagList.SetClean` | bitcoin-source/src/coins.h:186-193 | removes it if it is |
| `FlagLists.FlagList.Walk` | bitcoin-source/src/coins.h:286-305 | following the links visits exactly the list, also when every entry is unlinked as the walk goes past it, which leaves the list empty |
| `FlagLists.FlagList.constructor` | bitcoin-source/src/coins.h:212-218 | the empty list |
| `CoinsOverlays.StepOk` | bitcoin-source/src/coins.h:653-701 | every step of prefetch workers and main thread keeps the invariant |
| `CoinsOverlays.RunKeeps` | bitcoin-source/src/coins.h:653-701 | it holds in every state of every run |
| `CoinsOverlays.LookupsAreSerial` | bitcoin-source/src/coins.h:686-701 | every lookup is answered as PeekCoin on the base would |
| `CoinsOverlays.ClaimedOnce` | bitcoin-source/src/coins.h:653-664 | no input is claimed twice |
| `CoinsOverlays.NothingTouched` | bitcoin-source/src/coins.h:653-684 | in no state of any run has a worker or the main thread touched an input that is not there, nor has an assertion of the program failed; what a worker holds is there and not ready |
| `CoinsOverlays.KeptUntilCleared` | bitcoin-source/src/coins.h:668-684 | the inputs stay until the main thread clears them, which resets everything but the answers given |
| `CoinsOverlays.WorkFalls` | bitcoin-source/src/coins.h:653-664 | every step of a worker leaves strictly less to do |
| `CoinsOverlays.WaitIsBounded` | bitcoin-source/src/coins.h:668-697 | while the main thread waits, for an input or for all workers to stop, only workers take steps, and at most as many as they have left |
| `CoinsOverlays.NotStuck` | bitcoin-source/src/coins.h:668-697 | and as long as it waits it can go on or some worker can take a step, so every wait ends |
| `HeaderChains.Compress` | patch_headerssync_h.py:57-80 | GetFullHeader with the right previous hash gives the header back |
| `HeaderChains.ExpandedPush` | bitcoin-source/src/headerssync.cpp:277-280 | a stored header that links to the last one expands to itself at the end |
| `HeaderChains.BitsExactly` | bitcoin-source/src/headerssync.cpp:200-211 | a chain has one commitment for every height after the start that is the offset modulo the period, in the order of heights |
| `HeaderChains.BitsPrefix` | bitcoin-source/src/headerssync.cpp:200-211 | commitments of a prefix are a prefix of the commitments |
| `HeaderSyncs.AcceptedPasses` | bitcoin-source/src/headerssync.cpp:220-283 | headers that link, have permitted difficulties and match the commitments are accepted one by one |
| `HeaderSyncs.ResendAccepted` | bitcoin-source/src/headerssync.cpp:220-283 | a peer that sends its chain again, possibly extended, passes every linkage, difficulty and commitment check |
| `HeaderSyncs.RedownloadNext` | bitcoin-source/src/headerssync.cpp:220-283 | accepting a header keeps: linked from the start, permitted difficulties, work exact, commitments matched until the work is reached |
| `HeaderSyncs.HeadersSync.constructor` | bitcoin-source/src/headerssync.cpp:22-51 | the first phase with nothing seen |
| `HeaderSyncs.HeadersSync.ProcessSingle` | bitcoin-source/src/headerssync.cpp:182-218 | accepted exactly if the difficulty is permitted and commitments stay within the bound |
| `HeaderSyncs.HeadersSync.StoreCommitments` | bitcoin-source/src/headerssync.cpp:144-180 | accepted exactly if connected, permitted and within the bound; enough work starts the second phase |
| `HeaderSyncs.HeadersSync.CheckCommitment` | bitcoin-source/src/headerssync.cpp:255-275 | compares with the next commitment, at heights that have one and before the work is reached |
| `HeaderSyncs.HeadersSync.StoreRedownloaded` | bitcoin-source/src/headerssync.cpp:220-283 | accepted exactly if linked, permitted and matching the next commitment |
| `HeaderSyncs.HeadersSync.StoreAllRedownloaded` | bitcoin-source/src/headerssync.cpp:108-117 | accepted exactly if all link, have permitted difficulties and match the commitments until the work is reached; a resent chain is never refused |
| `HeaderSyncs.HeadersSync.PopReady` | bitcoin-source/src/headerssync.cpp:285-299 | releases in order, only with enough headers behind or the work reached, everything in the latter case |
| `HeaderSyncs.HeadersSync.Finalize` | bitcoin-source/src/headerssync.cpp:53-68 | nothing is kept, every field is reset |
| `HeaderSyncs.HeadersSync.ProcessNext` | bitcoin-source/src/headerssync.cpp:70-142 | over any run: released headers followed by the buffer expanded are the accepted headers, linked from the start and matching the commitments until the work is reached; never released early; commitments never above the bound; exact outcome of both phases: success, whether more is asked for, the next phase, and how many headers are released; resent chains always succeed |
| `BaseUints.BaseUint.Set` | bitcoin-source/src/arith_uint256.h:70-77 | the value is the 64-bit number |
| `BaseUints.BaseUint.Add` | bitcoin-source/src/arith_uint256.h:117-127 | sum modulo 2^BITS for any width, the carry never leaves 64 bits |
| `BaseUints.BaseUint.Invert` | bitcoin-source/src/arith_uint256.h:51-57 | 2^BITS - 1 minus the value |
| `BaseUints.BaseUint.Increment` | bitcoin-source/src/arith_uint256.h:155-162 | plus one modulo 2^BITS |
| `BaseUints.BaseUint.Negate` | bitcoin-source/src/arith_uint256.h:59-66 | the negative modulo 2^BITS |
| `BaseUints.BaseUint.Subtract` | bitcoin-source/src/arith_uint256.h:129-133 | the difference modulo 2^BITS |
| `BaseUints.BaseUint.MultiplySmall` | bitcoin-source/src/arith_uint256.cpp:48-58 | product by a 32-bit number modulo 2^BITS |
| `BaseUints.BaseUint.Multiply` | bitcoin-source/src/arith_uint256.cpp:60-74 | product modulo 2^BITS, no 64-bit overflow in any step |
| `BaseUints.BaseUint.ShiftLeft` | bitcoin-source/src/arith_uint256.cpp:14-29 | times a power of two modulo 2^BITS |
| `BaseUints.BaseUint.ShiftRight` | bitcoin-source/src/arith_uint256.cpp:31-46 | floor division by a power of two |
| `BaseUints.BaseUint.CompareTo` | bitcoin-source/src/arith_uint256.cpp:102-112 | numeric order |
| `BaseUints.BaseUint.Bits` | bitcoin-source/src/arith_uint256.cpp:156-169 | position of the highest set bit plus one |
| `BaseUints.BaseUint.Divide` | bitcoin-source/src/arith_uint256.cpp:76-100 | floor quotient; fails exactly for divisor zero, leaving zero |
| `LimbShifts.LeftNext` | bitcoin-source/src/arith_uint256.cpp:20-27 | each limb lands in its two places without colliding bits, what leaves the top is a multiple of 2^BITS |
| `LimbShifts.RightNext` | bitcoin-source/src/arith_uint256.cpp:37-44 | each limb lands in its two places, what leaves the bottom is below one unit |
| `LimbDivision.DivStart` | bitcoin-source/src/arith_uint256.cpp:82-89 | aligning the divisor by bit counts does not overflow |
| `LimbDivision.DivStep` | bitcoin-source/src/arith_uint256.cpp:90-97 | quotient times divisor plus remainder stays the number, remainder below twice the shifted divisor |
| `CompactForms.OverflowExactly` | bitcoin-source/src/arith_uint256.cpp:189-192 | the overflow test holds exactly if the true value is at least 2^256 |
| `CompactForms.CompactRoundsDown` | bitcoin-source/src/arith_uint256.cpp:196-217 | the compact form stands for a number not above, and above by less than one unit of the last kept byte |
| `CompactForms.CompactIsBest` | bitcoin-source/src/arith_uint256.cpp:196-217 | no non-negative compact form stands for a higher number that is not above |
| `CompactForms.CompactStable` | bitcoin-source/src/arith_uint256.cpp:176-217 | the compact form of what a compact form stands for is the same form |
| `CompactForms.SignedParts` | bitcoin-source/src/arith_uint256.cpp:184-216 | a form with the sign bit set reads as the same number with a sign |
| `CompactTargets.SetCompact` | bitcoin-source/src/arith_uint256.cpp:174-194 | the value modulo 2^256, negative and overflow flags, for every 32-bit number |
| `CompactTargets.GetCompact` | bitcoin-source/src/arith_uint256.cpp:196-217 | the compact form, with the sign bit if asked for and the word is not zero |
| `CompactTargets.GetBitsProof` | bitcoin-source/src/chain.cpp:120-133 | zero for negative, overflowing and zero targets, else floor(2^256 / (target + 1)); neither addition wraps |
| `BlockIndexes.LowestOneBits` | bitcoin-source/src/chain.cpp:68-69 | n & (n - 1) on 32 bits stands for the number with its lowest set bit cleared |
| `BlockIndexes.GetSkipHeight` | bitcoin-source/src/chain.cpp:68-80 | strictly below the height, and of the same parity |
| `BlockIndexes.SkipHeightBits` | bitcoin-source/src/chain.cpp:71-80 | on 32-bit numbers, the expression of the code gives that height |
| `BlockIndexes.BlockIndex.constructor` | bitcoin-source/src/node/blockstorage.cpp:241-247 | a block below its parent |
| `BlockIndexes.BlockIndex.GetAncestor` | bitcoin-source/src/chain.cpp:82-107 | what the walk over parents finds, also where skip links are missing; where none is, in the number of steps that the heights determine |
| `SkipSteps.StepsBound` | bitcoin-source/src/chain.cpp:76-106 | which for a height of b bits is at most 2b^2 + 6b + 1 |
| `SkipSteps.FurtherZeros` | bitcoin-source/src/chain.cpp:93-99 | a skip link of the parent is preferred only where it leads to a height with more trailing zeros |
| `BlockIndexes.BlockIndex.BuildSkip` | bitcoin-source/src/chain.cpp:114-118 | the ancestor at the skip height |
| `BlockChains.BlockTree.Insert` | bitcoin-source/src/node/blockstorage.cpp:241-247 | over any run of insertions every block has its ancestors and skip links |
| `BlockChains.LastCommonAncestor` | bitcoin-source/src/chain.cpp:152-177 | the highest common ancestor, for any two blocks with the same first block, without missing links |
| `BlockChains.Chain.SetTip` | bitcoin-source/src/chain.cpp:16-24 | stopping early still leaves exactly the ancestors of the tip |
| `BlockChains.Chain.FindFork` | bitcoin-source/src/chain.cpp:50-58 | the highest common ancestor with the tip, or none if there is none |
| `BlockChains.FindEarliestAtLeast` | bitcoin-source/src/chain.cpp:60-66 | the first block at or above a height by which the time was reached |
| `BlockChains.EarliestExactly` | bitcoin-source/src/chain.h:452-453 | it is the earliest block with such a timestamp, as documented, exactly unless an earlier block below the height was late enough and the block at the height is not |
| `BlockChains.NotEarliest` | bitcoin-source/src/chain.h:452-453 | timestamps for which it is not |
| `Bech32Checksums.StepLinear` | bitcoin-source/src/bech32.cpp:177-216 | one step of the checksum is linear over exclusive or |
| `Bech32Checksums.StepInjective` | bitcoin-source/src/bech32.cpp:177-216 | only zero goes to zero |
| `Bech32Checksums.FoldLinear` | bitcoin-source/src/bech32.cpp:130-216 | so is the checksum of whole lists |
| `Bech32Checksums.BurstDetected` | bitcoin-source/src/bech32.cpp:137-142 | lists that differ only within six consecutive places, in particular in one, have different checksums at any length |
| `Bech32Checksums.GroupsFold` | bitcoin-source/src/bech32.cpp:347-352 | the six groups of a remainder produce it |
| `Bech32Polynomials.OneTimes` | bitcoin-source/src/bech32.cpp:49-77 | one is the unit of multiplication in the field of 32 elements |
| `Bech32Polynomials.TimesDistributes` | bitcoin-source/src/bech32.cpp:49-77 | multiplication in the field of 32 elements distributes over addition |
| `Bech32Polynomials.TimesDouble` | bitcoin-source/src/bech32.cpp:49-77 | and commutes with multiplication by the root of x^5 + x^3 + 1, which with the unit determines it |
| `Bech32Polynomials.StepDivides` | bitcoin-source/src/bech32.cpp:145-190 | one step of the checksum multiplies by x, adds the next coefficient and subtracts the generator as often as the highest coefficient says |
| `Bech32Polynomials.FoldDivides` | bitcoin-source/src/bech32.cpp:130-216 | the checksum is a remainder: x^n plus the list is a multiple of the generator plus it |
| `Bech32Polynomials.RemainderUnique` | bitcoin-source/src/bech32.cpp:130-216 | and the only one |
| `Bech32Characters.Charset` | bitcoin-source/src/bech32.cpp:21-22 | the characters of the 32 symbols, in order |
| `Bech32Characters.CasesAre` | bitcoin-source/src/bech32.cpp:287-304 | which characters are letters of which case, and how they are made lower case |
| `Bech32Characters.SymbolOfChar` | bitcoin-source/src/bech32.cpp:22-35 | reading a written symbol gives it back |
| `Bech32Characters.CharOfSymbol` | bitcoin-source/src/bech32.cpp:22-35 | only the characters of symbols, in either case, are read |
| `Bech32Strings.VerifiedExactly` | bitcoin-source/src/bech32.cpp:120-125 | data is valid for Bech32 exactly if dividing by the generator leaves 1, for Bech32m exactly if it leaves 0x2bc830a3 |
| `Bech32Strings.PublishedBech32` | bitcoin-source/src/test/bech32_tests.cpp:17-35 | the string a12uel5l decodes as Bech32 |
| `Bech32Strings.PublishedBech32m` | bitcoin-source/src/test/bech32_tests.cpp:37-55 | the string A1LQFN3A decodes as Bech32m |
| `Bech32Strings.ChecksumVerifies` | bitcoin-source/src/bech32.cpp:326-353 | the checksum makes data valid for its encoding |
| `Bech32Strings.ChecksumUnique` | bitcoin-source/src/bech32.cpp:326-353 | no other six symbols do |
| `Bech32Strings.ChangedDataDetected` | bitcoin-source/src/bech32.cpp:326-339 | valid data changed within six consecutive places is not valid for the same encoding |
| `Bech32Strings.DecodeUndoesEncode` | bitcoin-source/src/bech32.cpp:357-400 | decoding gives back what was encoded exactly if the readable part is printable and not empty and the string within the limit, else nothing |
| `Bech32Strings.EncodeUndoesDecode` | bitcoin-source/src/bech32.cpp:357-400 | what decodes is the encoding of the result, up to case |
| `Bech32Strings.PolyMod` | bitcoin-source/src/bech32.cpp:130-216 | the loop computes the remainder |
| `Bech32Strings.CheckCharacters` | bitcoin-source/src/bech32.cpp:286-309 | exactly the positions of characters that are not printable or of letters not of the case of the first letter, in increasing order; none exactly if all are printable and of one case |
| `Bech32Strings.PrepareCoefficients` | bitcoin-source/src/bech32.cpp:311-324 | high bits, zero, low bits, data |
| `Bech32Strings.CreateChecksum` | bitcoin-source/src/bech32.cpp:341-353 | the checksum |
| `Bech32Strings.VerifyChecksum` | bitcoin-source/src/bech32.cpp:326-339 | the encoding it is valid for |
| `Bech32Strings.Encode` | bitcoin-source/src/bech32.cpp:357-371 | the encoded string |
| `Bech32Strings.FindSeparator` | bitcoin-source/src/bech32.cpp:377-377 | the last separator |
| `Bech32Strings.Decode` | bitcoin-source/src/bech32.cpp:373-400 | the decoded parts or nothing |
| `Numerals.MultiplyAdd` | bitcoin-source/src/base58.cpp:103-113 | the carry loop multiplies the number in the buffer and adds a digit, the carry ends zero, and the returned length is exact |
| `Numerals.PowSuffices` | bitcoin-source/src/base58.cpp:98-99 | a power inequality for one exponent gives it for all sizes |
| `Base58.CharsExactly` | bitcoin-source/src/base58.cpp:19-38 | exactly the letters and digits other than 0, I, O and l are read |
| `Base58.CharsIncrease` | bitcoin-source/src/base58.cpp:19-20 | and go up with the numbers they stand for |
| `Base58.SpacesExactly` | bitcoin-source/src/base58.cpp:42-44 | the characters skipped around a string |
| `Base58.EncodeFits` | bitcoin-source/src/base58.cpp:98-99 | 138/100 of the input plus one is enough digits for every length |
| `Base58.DecodeFits` | bitcoin-source/src/base58.cpp:53-54 | 733/1000 of the input plus one is enough bytes for every length |
| `Base58.DecodeUndoesEncode` | bitcoin-source/src/base58.cpp:40-127 | decoding gives back every byte string, exactly within the limit |
| `Base58.EncodeUndoesDecode` | bitcoin-source/src/base58.cpp:40-127 | what decodes is the encoding of the result but for spaces around it |
| `Base58.EncodeBase58` | bitcoin-source/src/base58.cpp:89-127 | leading zeros as ones, the rest as one number in base 58 |
| `Base58.DecodeBase58` | bitcoin-source/src/base58.cpp:40-87 | the bytes, or nothing for NUL, bad characters, inner spaces or too many bytes, found while reading |
| `Base58.ReadDigits` | bitcoin-source/src/base58.cpp:53-73 | the buffer holds the number read so far with its exact length |

## Left out

- FeeRates.CompareIsRatioOrder: integers are unbounded; the 64-bit fees, 32-bit sizes and 96-bit products of the source are not modelled.
- Linearization.Linearize: as random choices are arbitrary, nothing is claimed about how large a budget reaches the optimum.
- TransactionGraphs.DepGraph.AddTransaction: the fixed number of positions of the bit set is not modelled; a free position always exists.
- `DepGraph` remapping, `GetConnectedComponent`, `AppendTopo`, `Compact` and memory figures: easy members.
- CheckQueues.StepOk: a waiting thread may wake at any time, so only the notification of the master is tracked; creating and joining threads is not modelled.
- `Select`, `GetChance`, `FindAddressEntry`, `GetEntries`, serialization of the address manager, and the consistency check ratio: randomness, floating point and stream formats.
- CoinsStacks.CoinsStack.AddCoin: the caller contract that no unspent coin is hidden below when overwriting is not allowed is a precondition, as in the source.
- The best-block hash, `EmplaceCoinInternalDANGER`, cache reallocation and byte figures of coins; a coin has an abstract usage.
- CoinsOverlays.StepOk: memory orderings are modelled as atomic steps, and the claim counter does not wrap.
- `NextHeadersRequestLocator`, `LocatorEntries`, logging, and the clock behind the commitment bound, which is a parameter.
- HeaderSyncs.HeadersSync.StoreCommitments: as in the source, only the first header of a message is checked to connect in the first phase; the caller checks the others.
- BaseUints.BaseUint.Multiply: `--`, bitwise operators, hexadecimal and floating-point output are not modelled; bits set by the source with `|=` go through a bitwise or defined on integers.
- `GetBlockProofEquivalentTime`, `GetBlockProof` beyond `GetBitsProof`: easy members.
- SkipSteps.StepsBound: heights are unbounded, and the bound is not the smallest one.
- Bech32Checksums.BurstDetected: detection of up to four errors anywhere in 90 characters rests on enumeration over the field tables and is not stated; `LocateErrors`, `Syndrome` and the GF(1024) tables are not modelled.
- Bech32Strings.PrepareCoefficients: characters above 127 in a readable part, which are negative in the source and which decoding always rejects, are shifted as unsigned.
- Base58.DecodeBase58: lengths are unbounded; `EncodeBase58Check` and `DecodeBase58Check` only add a hash.
- Proof-of-work search and verification, mining, wallet, network, storage, RPC and start-up code.
