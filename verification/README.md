# Verified models of an RDMA hash table and its substrate

This project models, in Dafny, the parts of the repository that carry its guarantees, and proves what they promise.

* **The interlocked hash table over RDMA** (`LevelHash`, `IhtHeap`, `IhtUpdates`, `IhtCache`, `IhtConcurrent`,
  `IhtSafety`, `IhtRuns`, `IhtProgress`, `IhtOrder`, `IhtLinearizable`, `IhtLostKeys`, `IhtSequential`, `IhtInstances`). PLists are arrays of pointer-lock pairs that
  form a tree; ELists at the leaves hold a few pairs; a full EList is rehashed into a PList twice as large and its
  bucket is calcified for ever. `IhtConcurrent` is a state machine in which each read of a bucket, compare-and-swap,
  read or write of an EList or of a pointer, and each landing of an unlocking write is one step of any number of
  clients; `IhtRuns`, `IhtProgress` and `IhtLinearizable` draw the conclusions for whole runs, and `IhtLostKeys` builds
  two runs that go wrong. `IhtSequential` is the table object run by one client, with its loops, cache arrays and landing buffer,
  refining a finite map; `IhtInstances` has concrete keys for its limits.
* **The local table** (`IhtLocal`, `LocalRuns`, `LocalProgress`, `LocalOrder`, `LocalMap`, `LocalLostKeys`): lock and reclamation
  discipline of `iht_carumap`, one step per access, when it is a concurrent map, and a run in which it forgets a key.
* **The memory pool** (`CompletionCounters`, `CompletionRuns`, `CompletionOrder`, `Allocator`, `AllocatorRuns`): completions
  that any thread may consume for any other, the order and effect of every request, and a slab allocator with a shared
  bump head and per-thread free lists.
* **Connections** (`Handshake`, `HandshakeRuns`, `MessageRing`): the all-to-all handshake of any number of nodes, and the
  two-sided message ring over in-order reliable transport.
* **The two-sided partitioned map** (`KeyPartition`, `PartitionedMap`, `PartitionedRuns`, `PartitionedProgress`): clients, server
  threads, locks and channels.
* **Streaming statistics** (`ATree`, `Summary`): the augmented search tree in memory, order statistics, running
  moments over exact reals.
* **Messages** (`Wire`, `WireGrammar`, `Messages`, `MessageMeaning`, `WireIO`, `MessageObjects`): encoding, parsing and
  merging of the three schema messages; `WireGrammar` says which bytes are accepted, and `MessageMeaning` what they mean
  and what is written. The wire primitives follow the public Protocol Buffers encoding guide ("Base 128 Varints", "Packed Repeated
  Fields", "Last One Wins").

`Linearizability` defines histories, linear orders and linearizability, and is shared by the hash table and the
partitioned map. Runs are sequences of states and actions; main results hold for every run.

`dafny verify dfyconfig.toml` checks the whole project.

## What turned out to need a condition

* With two concurrent inserters the RDMA table can lose a key: it is linearizable in every run if and only if at most
  one client is allowed to insert (`IhtLostKeys.LinearizableIffOneInserter`). The pointer that `do_with` uses after
  locking is the one read before locking, so an insert that read a null pointer overwrites whatever the bucket holds by
  then. With any number of inserters a run is linearizable if every such insert finds the pointer still null
  (`IhtLinearizable.IhtIsLinearizable`), which holds exactly when no EList is ever replaced by another one
  (`FreshIffListsStay`), and always with one inserter at a time (`OneInserterIsFresh`). An insert that overwrites a list
  with pairs loses them (`OverwritingLosesPairs`; `IhtLostKeys.TwoInsertersLoseAKey` is such a run with a history that
  is not linearizable, `IhtInstances.SourceLosesKey0` one for the benchmark's sizes and hash). Overwriting an empty list
  is right as a write on its own (`StaleNullInsertRightIff`) and not as part of a run: another insert may still put its
  key into the orphaned list (`IhtLostKeys.OrphanLosesAKey`).
* A cached PList is found under its own path only, for every hash up to cache depth 2, and not at depth 3 when two keys
  have clashing paths: `IhtCache.CacheSoundIffShallow`. With the benchmark's sizes and hash the keys 24 and 30 clash, and
  one of them gets the PList of the other: `IhtInstances.SourceCacheSoundIffShallow`, `IhtInstances.DeepCacheMistakes`.
* `insert` goes past the end of `bucket_path` exactly when the key is absent and `ELIST_SIZE` stored keys share its
  first eight buckets: `IhtSequential.RdmaIHT.Insert`. With the benchmark's PLIST_SIZE and one pair per EList,
  `IhtInstances.OverrunBucketPath` is a table that does.
* The local table's `rehash` hashes with the parent's level and count, so a pair is found afterwards exactly when its
  buckets at the two levels have the same index: `LocalRuns.FoundAfterRehashIff`. A run whose rehashes all meet this is
  linearizable (`LocalMap.LocalIsLinearizable`), and a run loses no lookup to a rehash if and only if they all do
  (`LocalMap.AlignedIffLookupsStay`). In a run that inserts one key too many into a bucket a key that is still in the
  table is answered to be absent: `LocalLostKeys.RehashLosesAKey`, and `LocalLostKeys.SourceForgetsKey2` with the
  source's sizes and hash. The comment on `level_hash` there promises better.
* Reusing a freed block zeroes the whole slab class, which stays inside the block exactly for powers of two:
  `Allocator.WipeFitsIffPowerOfTwo`. All blocks stay aligned and apart in every run exactly when a program asks for
  powers of two only: `Allocator.SoundIffPowersOfTwo`, with a run that zeroes memory in use for every other multiple
  of 64 in `Allocator.ReuseWipesNeighbour`.
* A percentile that amounts to less than one sample can end anywhere: `ATree.PercentileFindsIff` is the exact condition and
  `ATree.TenthOfThree` an instance. The percentiles that the summary uses never meet it.
* `to_id` multiplies in 32-bit words: it is right for all keys if and only if the number of nodes times the length of
  the key space stays below 2^31 (`KeyPartition.ToId32RightIff`). The two-sided map is proved for the exact product.
* The tree stays within `window_size_` for windows of at least one; with a smaller window it only grows:
  `Summary.Summary.Observe`.

## Model

| member | source | states |
|---|---|---|
| LevelHash.MixBijective | oldAPIHelpMark/iht/iht_ds.h:215-223 | the 64-bit finalizer has an inverse on both sides, so it loses nothing |
| LevelHash.MixedInjective | oldAPIHelpMark/iht/iht_ds.h:216-223 | at one level the mixed word determines the key number, in both directions |
| LevelHash.CollisionsComeFromModulus | oldAPIHelpMark/iht/iht_ds.h:215-231 | two different numbers share a bucket exactly when their different mixed words agree modulo `count - 1`; the last bucket is never chosen |
| LevelHash.NumberIs | oldAPIHelpMark/iht/iht_ds.h:216-217 | a key is hashed as its 64-bit two's complement word, so a negative key `k` as 2^64 + k |
| IhtSequential.SourceConfigValid | oldAPIHelpMark/iht/iht_ds.h:215-231 | the source's sizes and hash satisfy what every theorem about the table assumes of them |
| IhtCache.ShallowSlotsInjective | oldAPIHelpMark/iht/iht_ds.h:294-318 | up to cache depth 2 a cache slot belongs to one bucket path only |
| IhtCache.ThirdLayerClashes | oldAPIHelpMark/iht/iht_ds.h:299-312 | at cache depth 3 two keys with different first buckets get the same slot |
| IhtCache.CacheSoundIffShallow | oldAPIHelpMark/iht/iht_ds.h:294-358 | for a hash with two such keys, no two bucket paths of keys clash if and only if the cache depth is at most 2 |
| IhtInstances.SourceCacheSoundIffShallow | oldAPIHelpMark/iht/iht_ds.h:294-358 | with the benchmark's sizes and `level_hash`, no two bucket paths of keys clash if and only if the cache depth is at most 2 |
| IhtInstances.DeepCacheMistakes | oldAPIHelpMark/iht/iht_ds.h:299-318 | with cache depth 3 a client that cached the PList below key 24 takes it for the one below key 30 |
| IhtHeap.RehashConserves | oldAPIHelpMark/iht/iht_ds.h:239-272 | the new buckets together hold exactly the old pairs, counted: rehashing loses and duplicates nothing |
| IhtHeap.PartMembers | oldAPIHelpMark/iht/iht_ds.h:258-267 | a new EList holds exactly the pairs that hash to its bucket, at most as many as the old one, with distinct keys |
| IhtHeap.WithoutRemoves | oldAPIHelpMark/iht/iht_ds.h:610-619 | moving the last pair over the removed one removes exactly that key and keeps keys distinct |
| IhtHeap.LeafDecides | oldAPIHelpMark/iht/iht_ds.h:403-437 | the bucket where the descent for a key ends stores a pair of that key if and only if the table does |
| IhtHeap.OnePlacePerKey | oldAPIHelpMark/iht/iht_ds.h:239-272 | in a well-formed table each key sits in exactly one EList with one value |
| IhtUpdates.NewElistStores | oldAPIHelpMark/iht/iht_ds.h:553-562 | a new EList on a null pointer adds exactly its pair to the stored map |
| IhtUpdates.AddPairStores | oldAPIHelpMark/iht/iht_ds.h:577-583 | appending to an EList with room adds exactly one pair to the stored map |
| IhtUpdates.RemoveKeyStores | oldAPIHelpMark/iht/iht_ds.h:608-621 | writing back the shortened EList removes exactly that key from the stored map |
| IhtUpdates.CalcifyKeepsTree | oldAPIHelpMark/iht/iht_ds.h:575-592 | after a rehash the PLists still form a tree of doubling sizes whose locks tell what the pointers refer to |
| IhtUpdates.CalcifyKeepsData | oldAPIHelpMark/iht/iht_ds.h:239-272 | after a rehash every key still sits on its hash path, in a list within the size limit with distinct keys |
| IhtUpdates.CalcifyStores | oldAPIHelpMark/iht/iht_ds.h:239-272 | a rehash leaves the stored map as it was |
| IhtSafety.SafeStep | oldAPIHelpMark/iht/iht_ds.h:170-188 | every step of every client keeps the safety invariant, and pointers to PLists and calcified buckets only ever grow |
| IhtRuns.MutualExclusion | oldAPIHelpMark/iht/iht_ds.h:170-188 | in every run, whoever inserts, a client working on a bucket is alone there, its lock word says so and no unlock of it is on the way |
| IhtRuns.CalcifiedForever | oldAPIHelpMark/iht/iht_ds.h:170-188 | `P_UNLOCKED` is absorbing, and the pointer of such a bucket is to a PList and never changes again |
| IhtRuns.CacheAgreesForever | oldAPIHelpMark/iht/iht_ds.h:294-358 | a cached PList equals the remote one at every later step, and is cached under the path that leads to it |
| IhtRuns.LastBucketNeverUsed | oldAPIHelpMark/iht/iht_ds.h:230-230 | the bucket that caching does not check stays null and unlocked for ever |
| IhtRuns.NoClientStuck | oldAPIHelpMark/iht/iht_ds.h:378-449 | a client inside an operation always has a next step that finds the kind of list it expects |
| IhtRuns.OnlyFullListsRehashed | oldAPIHelpMark/iht/iht_ds.h:577-592 | a bucket comes to lead to a PList only when a client at work on it inserts a key that is not in its list, and the list is full |
| IhtRuns.FullListsAreRehashed | oldAPIHelpMark/iht/iht_ds.h:585-592 | and whenever it does, the bucket leads to a new PList |
| IhtRuns.KeptWhenCalcified | oldAPIHelpMark/iht/iht_ds.h:322-358 | a PList that was read is cached exactly when the layers reach it, its slot is empty and all of its buckets but the last were calcified; what is cached is what was read |
| IhtRuns.CachedIsNotRead | oldAPIHelpMark/iht/iht_ds.h:389-418 | a cached PList is not read again: the descent goes on at once with what the remote PList holds; any other is read |
| IhtProgress.MovesAreBounded | oldAPIHelpMark/iht/iht_ds.h:378-449 | whatever other clients do, an operation that stays within given levels takes a bounded number of moves, not counting looks at a locked bucket |
| IhtProgress.LockedIsTaken | oldAPIHelpMark/iht/iht_ds.h:170-188 | a client that finds a bucket locked finds another client at work on it, or an unlocking write on its way |
| IhtProgress.EveryOperationReturns | oldAPIHelpMark/iht/iht_ds.h:378-449 | from every reachable state there is a continuation without new operations in which all operations return, or a client goes below the given level, with level 8 past the end of `bucket_path` |
| IhtOrder.LinStep | oldAPIHelpMark/iht/iht_ds.h:378-449 | every step that overwrites no list keeps a linear order that explains all answers and replays to the stored map; an operation on a stale null pointer is put back at its snapshot |
| IhtLinearizable.IhtIsLinearizable | oldAPIHelpMark/iht/iht_ds.h:378-449 | with any number of inserters, every run in which each insert on a null snapshot finds the pointer still null is linearizable, and the linear order replays to exactly the stored pairs |
| IhtLinearizable.FreshIffListsStay | oldAPIHelpMark/iht/iht_ds.h:427-437 | that condition holds if and only if no EList of the run is ever replaced by another EList |
| IhtLinearizable.OneInserterIsFresh | oldAPIHelpMark/iht/iht_ds.h:378-449 | with inserts from one client at a time, and any number of other clients, it always holds, so every such run is linearizable |
| IhtLinearizable.OnePlaceAlways | oldAPIHelpMark/iht/iht_ds.h:549-595 | under the same condition each key is in at most one place with one value at every step |
| IhtConcurrent.WrittenStores | oldAPIHelpMark/iht/iht_ds.h:524-626 | what each operation writes to the EList of its key is its effect on the map, and an unchanged list means no effect |
| IhtLinearizable.StaleNullInsertRightIff | oldAPIHelpMark/iht/iht_ds.h:427-437 | the one write of an insert on a stale null pointer, on its own, has the right effect and answer if and only if the bucket stores nothing |
| IhtLinearizable.OverwritingLosesPairs | oldAPIHelpMark/iht/iht_ds.h:427-437 | the first insert of a run that overwrites a list with pairs leaves every one of them stored nowhere |
| IhtLostKeys.LinearizableIffOneInserter | oldAPIHelpMark/iht/iht_ds.h:378-449 | for any table and any set of clients that may insert: every run is linearizable if and only if the set has at most one client |
| IhtLostKeys.TwoInsertersLoseAKey | oldAPIHelpMark/iht/iht_ds.h:427-437 | for every table, any two clients and any two keys of one bucket, a run loses a key that was inserted and never removed: its history is not linearizable |
| IhtLostKeys.OrphanLosesAKey | oldAPIHelpMark/iht/iht_ds.h:427-437 | the same although every list that is overwritten is empty: the key goes into the orphaned list |
| IhtInstances.SourceLosesKey0 | oldAPIHelpMark/iht/iht_ds.h:427-437 | with the benchmark's sizes and hash any two clients can lose key 0 to key 1 |
| IhtInstances.SourceOrphansKey0 | oldAPIHelpMark/iht/iht_ds.h:427-437 | and so they can when every list that is overwritten is empty |
| IhtLostKeys.MissedKey | oldAPIHelpMark/iht/iht_ds.h:517-523 | a completed insert, no remove of the key, and a later lookup that misses it make a history not linearizable |
| Linearizability.TimedIsLinearization | oldAPIHelpMark/iht/iht_ds.h:517-523 | points inside their operations' intervals, sorted by time, respect real-time order: the notion the concurrent results use |
| IhtSequential.RdmaIHT.constructor | oldAPIHelpMark/iht/iht_ds.h:452-472 | a new table is valid, empty, with empty caches; as in the source, PLIST_SIZE must be a multiple of 4 |
| IhtSequential.RdmaIHT.FetchCache | oldAPIHelpMark/iht/iht_ds.h:294-318 | returns what the slot of the path holds, and nothing for a path below the cached layers |
| IhtSequential.RdmaIHT.TryCache | oldAPIHelpMark/iht/iht_ds.h:322-358 | stores a copy exactly when the layer is cached, the slot empty and all buckets but the last calcified; other slots stay |
| IhtSequential.RdmaIHT.Fetch | oldAPIHelpMark/iht/iht_ds.h:389-399 | whether from the cache or by a read, the PList obtained is the remote one, and the caches stay right |
| IhtSequential.RdmaIHT.Acquire | oldAPIHelpMark/iht/iht_ds.h:170-181 | true exactly when the lock was open, and then only that lock changed |
| IhtSequential.RdmaIHT.Rehash | oldAPIHelpMark/iht/iht_ds.h:239-272 | the loop builds exactly the PList and ELists of the partition by hash, at fresh addresses |
| IhtSequential.RdmaIHT.SearchAndRemove | oldAPIHelpMark/iht/iht_ds.h:608-623 | the loop, which goes on after the swap, removes the key once and returns its value |
| IhtSequential.RdmaIHT.Visit | oldAPIHelpMark/iht/iht_ds.h:420-447 | lock, apply and unlock together are one visit of the bucket as a function of the memory |
| IhtSequential.VisitCore | oldAPIHelpMark/iht/iht_ds.h:524-626 | a visit answers as the map does and changes the stored map as the operation does, or rehashes and changes nothing stored |
| IhtSequential.VisitCrowd | oldAPIHelpMark/iht/iht_ds.h:575-592 | a visit that finishes proves the key was not crowded out; one that rehashes at level 8 proves that it was |
| IhtSequential.RdmaIHT.DoWith | oldAPIHelpMark/iht/iht_ds.h:378-449 | the descent terminates, answers and acts as the map, and overruns `bucket_path` exactly for a crowded insert |
| IhtSequential.RdmaIHT.Contains | oldAPIHelpMark/iht/iht_ds.h:524-541 | returns the value of the key, if any, and changes nothing stored |
| IhtSequential.RdmaIHT.Insert | oldAPIHelpMark/iht/iht_ds.h:549-595 | adds a missing key, never overwrites, returns the value that stopped it; overflow if and only if the key is missing and `ELIST_SIZE` stored keys share its first eight buckets |
| IhtInstances.KeysCrowd | oldAPIHelpMark/iht/iht_ds.h:215-231 | under `level_hash` with the benchmark's PLIST_SIZE the keys 29112688 and 73065905 share their first eight buckets |
| IhtInstances.OverrunBucketPath | oldAPIHelpMark/iht/iht_ds.h:385-448 | a table of that PLIST_SIZE with one pair per EList, which the constructor accepts, goes past the end of `bucket_path` when it takes both keys |
| IhtSequential.RdmaIHT.Remove | oldAPIHelpMark/iht/iht_ds.h:602-626 | takes the key out and returns the value it had |
| IhtLocal.StepInv | oldAPIHelpMark/iht/iht_local.h:104-307 | every access of every thread keeps locks, pointers, lists and private rehash parts in order |
| LocalRuns.TouchedIsLive | oldAPIHelpMark/iht/iht_local.h:146-307 | the thread that touches an EList holds the lock of the one bucket that points to it, alone, and the EList is not reclaimed |
| LocalRuns.ListsStaySound | oldAPIHelpMark/iht/iht_local.h:266-307 | every EList holds distinct keys and at most `ELIST_SIZE` pairs, and is live when its bucket is open |
| LocalRuns.AlwaysEnabled | oldAPIHelpMark/iht/iht_local.h:183-307 | no thread ever follows a dangling pointer or leaves a list: its next step is always possible |
| LocalProgress.StepsAreBounded | oldAPIHelpMark/iht/iht_local.h:183-307 | whatever other threads do, an operation that stays within given levels takes a bounded number of steps, not counting looks at a locked bucket |
| LocalProgress.LockedIsTaken | oldAPIHelpMark/iht/iht_local.h:104-115 | a thread that finds a bucket locked finds another thread at work on it |
| LocalProgress.EveryOperationReturns | oldAPIHelpMark/iht/iht_local.h:183-307 | from every reachable state there is a continuation without new operations in which all operations return, or a thread goes below the given level |
| LocalProgress.RehashedIffFull | oldAPIHelpMark/iht/iht_local.h:287-305 | a search ends in a rehash exactly when it inserts a key that is not in the list and the list is full |
| LocalRuns.SearchAnswers | oldAPIHelpMark/iht/iht_local.h:200-216 | a search answers what the EList says about the key |
| IhtLocal.StepConserves | oldAPIHelpMark/iht/iht_local.h:146-168 | each step keeps the multiset of all pairs but for the one an insert adds or a remove takes |
| LocalRuns.RunConserves | oldAPIHelpMark/iht/iht_local.h:146-307 | at every moment the table holds exactly the pairs added less those removed, counted |
| LocalRuns.FoundAfterRehashIff | oldAPIHelpMark/iht/iht_local.h:155-188 | after a rehash a lookup finds what it found before if and only if the key was absent or its bucket indices at the two levels agree |
| LocalMap.LocalIsLinearizable | oldAPIHelpMark/iht/iht_local.h:146-307 | every run whose rehashes are aligned, the pairs going where lookups of the next level search, is linearizable to a finite map, and undisturbed lookups find exactly that map |
| LocalMap.AlignedIffLookupsStay | oldAPIHelpMark/iht/iht_local.h:155-188 | no rehash of a run changes a lookup if and only if all of them are aligned |
| LocalMap.MisalignedLosesKey | oldAPIHelpMark/iht/iht_local.h:155-188 | the first rehash of a run that is not aligned makes the lookup of a stored key wrong |
| LocalOrder.StepLin | oldAPIHelpMark/iht/iht_local.h:183-307 | every step but a rehash that is not aligned keeps a linear order that explains all answers and replays to the stored pairs |
| LocalLostKeys.RehashLosesAKey | oldAPIHelpMark/iht/iht_local.h:146-307 | for any sizes and hash and `ELIST_SIZE` + 1 keys of one bucket, a run without removes answers that the first key is absent although the table holds it, if its bucket at the next level differs |
| LocalLostKeys.SourceForgetsKey2 | oldAPIHelpMark/iht/rpc.h:78-78 | with the sizes that the two-sided map uses and the real hash, nine inserts make the table forget key 2 |
| LocalLostKeys.SourceConfigValid | oldAPIHelpMark/iht/iht_local.h:121-140 | the source's sizes and hash satisfy what the theorems about the local table assume of them |
| CompletionRuns.CounterIsOutstanding | oldAPIHelpMark/rdma/memory_pool.h:601-626 | each counter equals the thread's signaled requests about to be posted, in flight, completed but not polled, or polled but not decremented; at most one |
| CompletionRuns.SynchronizationHolds | oldAPIHelpMark/rdma/memory_pool.h:614-620 | whoever decrements a counter finds it at least 1, so "Broken synchronization" never fires |
| CompletionRuns.CallsGoOn | oldAPIHelpMark/rdma/memory_pool.h:724-739 | a thread in a call always has a next step |
| CompletionRuns.StepsUseWork | oldAPIHelpMark/rdma/memory_pool.h:601-626 | every useful step lowers a measure, polling leaves it, and only a new call or another try of a swap raises it, by a constant |
| CompletionRuns.CallsAreFinite | oldAPIHelpMark/rdma/memory_pool.h:601-626 | in every run the useful steps are bounded by the calls begun and the tries repeated, so apart from polling no call goes on for ever |
| CompletionRuns.NobodyPollsInVain | oldAPIHelpMark/rdma/memory_pool.h:614-626 | while any thread is inside a call a useful step is possible, at once or after one look at a counter or queue |
| CompletionRuns.ReturnsOwnResult | oldAPIHelpMark/rdma/memory_pool.h:637-821 | in every run a call returns after its own request was carried out: a read with the word it met, a write having left its word, a compare-and-swap with the word it found, having stored its new word if and only if that was the expected one; a swap replaced the word it returns and its other tries changed nothing |
| CompletionOrder.CarriedInOrder | oldAPIHelpMark/rdma/memory_pool.h:560-745 | the requests of a connection are carried out in the order posted, each once, with the effect that the operands of the posting call ask for; unacknowledged writes included |
| CompletionOrder.PostsOnce | oldAPIHelpMark/rdma/memory_pool.h:560-632 | a call that is no swap posts exactly one request, with its own operands, between its start and its return |
| CompletionOrder.SwapTries | oldAPIHelpMark/rdma/memory_pool.h:661-685 | each try of a swap replaces the word exactly when it finds the hint, at first, or what the last try found |
| CompletionCounters.StepInv | oldAPIHelpMark/rdma/memory_pool.h:666-680 | every step of every thread, connection and outside writer keeps the counting |
| Allocator.UpperLog2IsCeiling | oldAPIHelpMark/rdma/memory_pool.h:262-279 | `UpperLog2`, by table, is the least exponent whose power of two reaches its argument, for every 32-bit argument |
| Allocator.TableRight | oldAPIHelpMark/rdma/memory_pool.h:262-268 | every entry of the table from 1 on is the position of the highest bit |
| Allocator.FreedClass | oldAPIHelpMark/rdma/memory_pool.h:326-334 | a free no larger than its block never gets a class larger than the block |
| Allocator.BelowIs | oldAPIHelpMark/rdma/memory_pool.h:313-320 | the new block is aligned, ends at or below the head that was seen, and its 64-bit address does not wrap |
| Allocator.StepInv | oldAPIHelpMark/rdma/memory_pool.h:286-334 | every step of every thread keeps blocks apart and free lists, bits and blocks in agreement |
| Allocator.BlocksApart | oldAPIHelpMark/rdma/memory_pool.h:286-334 | in every concurrent run that asks for powers of two, all live and free blocks are aligned, inside the region and pairwise disjoint |
| Allocator.WipeStaysInside | oldAPIHelpMark/rdma/memory_pool.h:297-310 | the zeroing on reuse covers exactly the block handed out and touches no other block |
| Allocator.BitIffBlock | oldAPIHelpMark/rdma/memory_pool.h:297-333 | in every run, whatever sizes are asked for, the alignment bit of a class is set exactly when its free list has a block |
| Allocator.WipeFitsIffPowerOfTwo | oldAPIHelpMark/rdma/memory_pool.h:308-308 | the zeroing of a block freed with its own size fits into it if and only if the size is 2^k for some k |
| Allocator.ReuseWipesNeighbour | oldAPIHelpMark/rdma/memory_pool.h:297-320 | for every multiple of 64 that is no power of two, a run frees one of two neighbouring blocks and reusing it zeroes bytes of the other, which is in use |
| Allocator.SoundIffPowersOfTwo | oldAPIHelpMark/rdma/memory_pool.h:286-334 | for any set of sizes: all blocks stay aligned, inside and apart in every run that asks for these sizes only, if and only if all of them are powers of two |
| AllocatorRuns.SwapOutcome | oldAPIHelpMark/rdma/memory_pool.h:313-324 | a request for new memory ends without a block if and only if the aligned head it saw less its size is below the region; else with that block, which becomes the head, if the head has not moved; else it tries again with the current head |
| AllocatorRuns.RefusedIffFull | oldAPIHelpMark/rdma/memory_pool.h:313-324 | in runs that ask for powers of two, a request is refused only when the region cannot hold it beside all that was taken, and what is given fits |
| AllocatorRuns.Capacity | oldAPIHelpMark/rdma/memory_pool.h:286-324 | a region asked for one power of two only gives exactly as many blocks as fit between its base and its aligned end |
| AllocatorRuns.OldestFirst | oldAPIHelpMark/rdma/memory_pool.h:297-334 | a request takes the oldest block of its class that its thread freed and has not taken again, and goes to the head exactly when there is none |
| AllocatorRuns.NoBlockLost | oldAPIHelpMark/rdma/memory_pool.h:286-334 | every block ever taken is in use or in exactly one place of one free list, of a class no larger than the block |
| AllocatorRuns.AnyoneMayCall | oldAPIHelpMark/rdma/memory_pool.h:286-334 | in every run a thread outside a request may ask for any size up to the largest class, and free any part of any block in use |
| Handshake.StepInv | oldAPIHelpMark/rdma/connection_manager.h:453-724 | every step of every loop and handler keeps locks, messages and tables in agreement |
| HandshakeRuns.OneConnectionPerPair | oldAPIHelpMark/rdma/connection_manager.h:453-724 | two nodes share at most one connection: both entries name it, or only the acceptor's does and the initiator awaits that ESTABLISHED event |
| HandshakeRuns.EmplaceSucceeds | oldAPIHelpMark/rdma/connection_manager.h:519-694 | both `emplace` assertions hold in every run; the branches for an existing entry are dead |
| HandshakeRuns.StepsUseWork | oldAPIHelpMark/rdma/connection_manager.h:774-787 | every step but the start of a new attempt or of a `GetConnection` uses up work, so every pending request is answered |
| HandshakeRuns.Progress | oldAPIHelpMark/rdma/connection_manager.h:774-785 | while anything is under way some step other than such a start is possible: a handler never waits for its own node |
| HandshakeRuns.NeverDeadlocked | oldAPIHelpMark/rdma/connection_manager.h:774-787 | every reachable state is finished and at rest, or has a possible step |
| HandshakeRuns.FinishedMesh | oldAPIHelpMark/rdma/memory_pool.h:455-462 | when every connect loop has finished the tables form a full symmetric mesh of matching connections |
| HandshakeRuns.MeshStays | oldAPIHelpMark/rdma/connection_manager.h:726-741 | from then on no step changes a table, so `GetConnection` keeps finding the same connections |
| HandshakeRuns.BackoffGrows | oldAPIHelpMark/rdma/connection_manager.h:702-712 | the waiting time after rejections only grows, from its minimum up to its maximum |
| HandshakeRuns.BackoffIs | oldAPIHelpMark/rdma/connection_manager.h:704-707 | after `k` rejections node `n` waits 2^(k-1) (100 + 200 n) - 200 n microseconds, at most 5000000 |
| HandshakeRuns.MeshAlwaysPossible | oldAPIHelpMark/rdma/memory_pool.h:455-462 | from every reachable state some continuation ends with every loop finished |
| MessageRing.Link.Post | oldAPIHelpMark/rdma/connection_manager.h:77-141 | a message of 256 bytes or more is refused; any other is copied, unbroken, inside the send buffer and posted |
| MessageRing.Link.Transfer | oldAPIHelpMark/rdma/connection_manager.h:241-253 | the posted bytes land in the next posted slot, and no message that waits to be delivered is overwritten |
| MessageRing.Link.TryDeliver | oldAPIHelpMark/rdma/connection_manager.h:191-231 | the next message delivered is the next one sent, or nothing has arrived; after the last slot all receives are posted again, when the assertion on the count holds |
| MessageRing.Link.PrepareRecvBuffer | oldAPIHelpMark/rdma/connection_manager.h:241-253 | posts one receive for each slot, in order, under the asserted condition |
| MessageRing.Link.ReceiverCanGoOn | oldAPIHelpMark/rdma/connection_manager.h:191-253 | when no posted receive is left a message is ready for delivery, so a waiting sender is never stuck |
| MessageRing.CounterWraps | oldAPIHelpMark/rdma/connection_manager.h:222-242 | the 32-bit completion count still counts modulo the number of slots after it wraps |
| MessageRing.SlotsApart | oldAPIHelpMark/rdma/connection_manager.h:246-251 | arrivals of one batch have disjoint slots |
| KeyPartition.ToIdInRange | oldAPIHelpMark/iht/rpc.h:48-53 | every key of the space has a node, and the upper bound belongs to the last one |
| KeyPartition.ToIdMonotone | oldAPIHelpMark/iht/rpc.h:48-53 | larger keys never have smaller nodes |
| KeyPartition.NodeOwnsRange | oldAPIHelpMark/iht/rpc.h:48-53 | below the upper bound a node owns exactly a contiguous range |
| KeyPartition.SharesEven | oldAPIHelpMark/iht/rpc.h:48-53 | the ranges tile the keys below the upper bound and differ in size by at most one |
| KeyPartition.ToId32RightIff | oldAPIHelpMark/iht/rpc.h:48-53 | the computation in 32-bit words finds the right node for all keys if and only if the number of nodes times the length of the key space is below 2^31 |
| PartitionedMap.StepLin | oldAPIHelpMark/iht/rpc.h:92-234 | every step of clients and servers keeps a linear order that explains all answers and replays to the node maps |
| PartitionedRuns.TwoSidedIsLinearizable | oldAPIHelpMark/iht/rpc.h:92-234 | every interleaving of any number of clients and server threads is linearizable to one global map, the node maps glued together |
| PartitionedRuns.OpcodesMatch | oldAPIHelpMark/iht/rpc.h:108-233 | a server only meets requests, and a client is answered by an error or its own kind of response: the opcode assertions never fail |
| PartitionedRuns.SharesKept | oldAPIHelpMark/iht/rpc.h:92-137 | no node stores a key of another share, and no pair of channels ever holds two messages |
| PartitionedProgress.EveryRequestAnswered | oldAPIHelpMark/iht/rpc.h:92-234 | with a server thread on every node, every reachable state has a continuation without new operations in which every operation under way returns |
| PartitionedMap.ServedRight | oldAPIHelpMark/iht/rpc.h:108-234 | what the server does and what the client reads off the response are effect and result of the operation |
| ATree.Tree.FindInternal | oldAPIHelpMark/metrics/atree/atree.h:228-245 | finds the node of the key or the place below which it belongs, with the nodes passed |
| ATree.Tree.Link | oldAPIHelpMark/metrics/atree/atree.h:258-273 | the new node hangs where the search ended, counts itself, and nothing else changes |
| ATree.Tree.InsertOrUpdate | oldAPIHelpMark/metrics/atree/atree.h:293-313 | order and subtree counts are kept, the samples gain exactly this key, the size grows only for a new key |
| ATree.Tree.VisitAll | oldAPIHelpMark/metrics/summary.h:81-103 | the visits from the stack recount every node passed and no other |
| ATree.Tree.Clear | oldAPIHelpMark/metrics/atree/atree.h:381-387 | the tree is empty and the old one is kept for the destructor |
| ATree.Tree.FindNthPercentile | oldAPIHelpMark/metrics/summary.h:247-293 | terminates with both assertions holding for every percentile p of n samples, and returns the sample at the largest k with 100 k <= p n, or at 1 if there is none, if and only if p is 0 or p n >= 100 or the node of the smallest sample has no right child; so for 0 and from 50 on always |
| ATree.PercentileFindsIff | oldAPIHelpMark/metrics/summary.h:247-293 | the search by subtree counts ends at that position of the sorted samples under exactly that condition, for all percentiles |
| ATree.PercentileFinds | oldAPIHelpMark/metrics/summary.h:247-293 | the percentiles in use always meet it |
| ATree.SortedIsSorted | oldAPIHelpMark/metrics/atree/atree.h:228-245 | the listing that positions refer to is in increasing order |
| ATree.DescendZeroIff | oldAPIHelpMark/metrics/summary.h:257-290 | a rank that truncates to 0 finds the smallest sample if and only if its node has no right child |
| ATree.TenthOfThree | oldAPIHelpMark/metrics/summary.h:257-290 | the tenth percentile of three samples inserted in order comes out as the largest |
| Summary.Summary.Observe | oldAPIHelpMark/metrics/summary.h:208-224 | mean is the arithmetic mean, variance the population variance and not negative; exactly a full window is flushed first; the tree stays within a window of at least one, and only grows with a smaller one |
| Summary.Summary.Flush | oldAPIHelpMark/metrics/summary.h:153-176 | the first flush takes, for each percentile p, the sample of the sorted window at its position; a later one moves each middle statistic by (sample - old) / total and widens the extremes; afterwards min <= p50 <= p90 <= p95 <= p99 <= p999 <= max, with min and max the exact extremes of all samples ever seen |
| Summary.Summary.UpdatePercentile | oldAPIHelpMark/metrics/summary.h:178-206 | the named statistic moves towards its sample by the share of one over all samples, or widens at the extremes, and all the others stay |
| Summary.Summary.GetPercentile | oldAPIHelpMark/metrics/summary.h:226-246 | a getter flushes as stated there and returns the statistic of its own percentile, 0 before any sample |
| Summary.VarianceIs | oldAPIHelpMark/metrics/summary.h:219-222 | the mean of squares less the squared mean is the population variance, never negative |
| Summary.LaterInOrder | oldAPIHelpMark/metrics/summary.h:178-206 | moving all statistics by the same share keeps their order |
| Summary.TakesInOrder | oldAPIHelpMark/metrics/summary.h:153-206 | whatever the window, what a flush does to the statistics leaves them in order |
| Summary.FlushCovers | oldAPIHelpMark/metrics/summary.h:153-206 | old extremes and window extremes together are the extremes of all samples, first flush or later |
| Wire.VarintRoundTrip | src/rdma/message/message.pb.cc:248-256 | reading a written varint gives the number and the rest |
| Wire.ParseEncoded | src/rdma/message/message.pb.cc:245-308 | the parse loop on written records takes them in one by one and goes on with the rest |
| WireGrammar.ReadVarintIff | src/rdma/message/message.pb.cc:248-256 | reading accepts exactly the runs of bytes of which only the last is below 128, within the limit, with the value of their 7-bit digits |
| WireGrammar.VarintShortest | src/rdma/message/message.pb.cc:310-333 | no varint of a number is shorter than the one written |
| WireGrammar.ParseMeaning | src/rdma/message/message.pb.cc:245-308 | an input spells at most one list of records; parsing it takes them in one after the other, and an input that spells none is refused |
| WireGrammar.UnpackIff | src/rdma/message/message.pb.cc:579-598 | a packed payload is accepted exactly when it is a list of varints |
| MessageMeaning.CommandParsed | src/rdma/message/message.pb.cc:245-308 | any bytes are accepted exactly when they spell records that a command knows; then each number is the last one given, or the old one, and the strings are appended in order |
| MessageMeaning.ConsensusParsed | src/rdma/message/message.pb.cc:543-633 | the same, with repeated numbers appended in order whether they come packed or one at a time |
| MessageMeaning.MsgParsed | src/rdma/message/message.pb.cc:942-999 | the same, with the enumeration as a signed 32-bit integer; the embedded object means the records of all embedded objects together |
| MessageMeaning.CommandWritten | src/rdma/message/message.pb.cc:310-350 | fields are written in the order of their tags, numbers at most once, and no zero |
| MessageMeaning.ConsensusWritten | src/rdma/message/message.pb.cc:635-699 | the same, with repeated numbers packed and no empty field |
| MessageMeaning.MsgWritten | src/rdma/message/message.pb.cc:1001-1040 | the same, with one embedded object if and only if there is one |
| Messages.CommandParse | src/rdma/message/message.pb.cc:245-430 | parsing an encoded command takes its numbers unless they are 0, appends its strings, and leaves the rest to be parsed |
| Messages.ConsensusParse | src/rdma/message/message.pb.cc:543-819 | the same for the consensus object, packed numbers included |
| Messages.MsgParse | src/rdma/message/message.pb.cc:942-1120 | the same for the message with its embedded object and its enumeration |
| Messages.CommandRoundTrip | src/rdma/message/message.pb.cc:245-345 | parse undoes serialize |
| Messages.ConsensusRoundTrip | src/rdma/message/message.pb.cc:543-699 | parse undoes serialize |
| Messages.MsgRoundTrip | src/rdma/message/message.pb.cc:942-1040 | parse undoes serialize, for negative enumeration values too |
| Messages.CommandConcatenation | src/rdma/message/message.pb.cc:413-430 | parsing two concatenated encodings gives of each number the second unless it is 0, and the strings of both |
| Messages.ConsensusConcatenation | src/rdma/message/message.pb.cc:797-819 | the same for all fields of a consensus object |
| Messages.MsgConcatenation | src/rdma/message/message.pb.cc:1101-1120 | the same, with an embedded object as the two embedded encodings one after the other give it |
| MessageObjects.CommandObject.ByteSizeLong | src/rdma/message/message.pb.cc:352-395 | exactly the length of the serialized form |
| MessageObjects.CommandObject.Serialize | src/rdma/message/message.pb.cc:310-350 | appends exactly the encoding at the target pointer |
| MessageObjects.CommandObject.ParseFrom | src/rdma/message/message.pb.cc:245-308 | the loop, with its inner loop for consecutive commands, computes the parse function |
| MessageObjects.CommandObject.MergeFrom | src/rdma/message/message.pb.cc:413-430 | of each number the other one counts unless it is 0, and the strings are appended |
| MessageObjects.ConsensusObject.ByteSizeLong | src/rdma/message/message.pb.cc:701-780 | exactly the length of the serialized form, with the packed sizes cached |
| MessageObjects.ConsensusObject.Serialize | src/rdma/message/message.pb.cc:635-699 | with the cached sizes appends exactly the encoding |
| MessageObjects.ConsensusObject.ParseFrom | src/rdma/message/message.pb.cc:543-633 | the loop computes the parse function |
| MessageObjects.ConsensusObject.MergeFrom | src/rdma/message/message.pb.cc:797-819 | of each number the other one counts unless it is 0, and repeated fields are appended |
| MessageObjects.MsgObject.ByteSizeLong | src/rdma/message/message.pb.cc:1042-1084 | exactly the length of the serialized form, the embedded object's sizes cached |
| MessageObjects.MsgObject.Serialize | src/rdma/message/message.pb.cc:1001-1040 | with the cached sizes appends exactly the encoding, the embedded object in place |
| MessageObjects.MsgObject.ParseFrom | src/rdma/message/message.pb.cc:942-999 | the loop computes the parse function, parsing into the embedded object that is there |
| MessageObjects.MsgObject.MergeFrom | src/rdma/message/message.pb.cc:1101-1120 | of each number the other one counts unless it is 0; an embedded object is merged field by field into the one that is there, or copied |

## Left out

- Addresses of freed lists are never reused in the two hash tables; in the local one every access to a freed list is excluded, in the RDMA one freeing an EList is not modelled.
- A pointer-lock pair of a PList is read atomically, and one table object serves one client thread.
- The unacknowledged unlocking write is taken with the value it had when posted, although its landing buffer is shared.
- Keys and values of the hash tables are integers; the hash is an arbitrary function except for its range, and `LevelHash` shows that the real one qualifies.
- IhtLinearizable.IhtIsLinearizable: assumes that no insert overwrites a list, because a run in which one does can lose a key (`IhtLostKeys`); a run that overwrites lists and is linearizable all the same, because nobody looks or a pending remove explains the loss, is not singled out.
- IhtSequential.RdmaIHT.Acquire: takes a bucket that is not locked, because one client alone would spin on a locked one for ever; the spin is a step of `IhtConcurrent`.
- Depth is unbounded in the concurrent table; the bound of eight levels is proved for the sequential one, and `IhtProgress` bounds operations by the levels they go through.
- `fetch_cache` and `try_cache` at cache depth 3 beyond the clash and the wrong PList that are proved: the runs take depths 0 to 2, and no run at depth 3 is built, which would first have to calcify a whole PList of the third layer.
- In a run of one client `acquire` never fails after the bucket was read, so `RdmaIHT.Visit` asserts that and has no refetch; the refetch is a step of `IhtConcurrent`.
- Allocator.BlocksApart: takes requests that are powers of two from 64 bytes up to the largest class, because exactly these keep the blocks sound (`SoundIffPowersOfTwo`). All requests use alignment 64, and the region starts above the first megabyte.
- Handshake: every broker accepts from the start, nothing disconnects, a compare-and-swap that only spins is no step, loopback connections and the error returns that keep the lock are not modelled.
- MessageRing: posting and completing a send are two operations, so that the peer may deliver in between; `TryPollMessage` is not modelled.
- `ReadInternal` with more than one chunk: callers always produce one.
- The two-sided map's own node maps are atomic, as `LocalMap` shows them to be while every rehash is aligned; shutdown is left out.
- `ATree::Insert`, `Remove`, `FindSuccessors` and the destructor, which the summary does not use, and `Summary::Accumulate`.
- Floating-point rounding: statistics are exact reals.
- Unknown protobuf fields (parsing reports failure on them), arenas, UTF-8 checks (strings are byte sequences taken as valid), and the library's size limits below 64 bits.
- Weak-MVC consensus: only its message schema exists here.
- ibverbs, rdma_cm, sockets, threads, address resolution, huge pages, logging, workload drivers and scripts: posts, completions, compare-and-swaps and channels are atomic steps.
