# Verified models of the RocksDB cache and column-family cores, and of the crate publishing order

Dafny models of the parts of this repository where state, sharing and arithmetic meet, with proofs of what they promise.
`dafny verify dfyconfig.toml` covers all of it.

| area | files | form |
|---|---|---|
| SuperVersion hand-off of a column family | `SuperVersionProtocol`, `SuperVersionSafety`, `SuperVersionTheorems`, `SuperVersionLaws` | step relation over any number of threads |
| CLOCK cache shard under concurrency | `ClockProtocol`, `ClockSafety`, `ClockTheorems`, `ClockLaws`, `ClockSections` | step relation over any number of tasks |
| CLOCK eviction sweep | `ClockSweep` | class over the circular list, and its specification |
| LRU hash table | `HandleTable` | pointers: bucket array and chains through `nextHash` |
| LRU list | `LruRing`, `LruList` | pointers: circular doubly linked list with a sentinel and a split pointer |
| LRU shard | `LruModel`, `LruTheorems`, `LruLaws`, `LruShard` | value model with its theorems, and the class that refines it in memory |
| Scanning a sharded cache | `ShardScan` | loops over shards whose tables change between calls |
| Cache key packing | `CacheKeys` | words as 64-long bit sequences |
| Cache reservations | `Reservation` | class with loops |
| Publishing order | `PublishOrder`, `PublishTheorems` | loops over a dependency graph, and its specification |
| shared | `Sums`, `Sequences`, `Powers`, `Options`, `Paths` | sums of a measure, distinct sequences, shifts, optional values, uninterrupted steps |

How the concurrent models read the code: every atomic operation is one step; a section under a mutex is a chain of sub-steps
between which lock-free steps of others may fall; a *run* is any sequence of enabled steps from the initial state. The theorems
quantify over every run and every position in it. The modules named `Laws` and `Sections` say what each operation achieves: *alone*
means that its steps follow each other, from any reachable state.

How the LRU shard is layered: `LruModel` says what each operation does to a value (`Shard`), `LruTheorems` proves what holds over
every run of those operations, and `LruShards.LruShard` performs them on linked memory with `ensures s == <model>(old(s))`, so the
theorems speak about the memory too. Invariants written under `Open(b)` stay folded in a proof until `Open` is asserted.

## What the proofs found

- A reader whose compare-and-swap fails does not always hold an obsolete SuperVersion, against the comment at
  `other/rocksdb/db/column_family.cc:1250-1254`: `RefusedWhileCurrent` is a run in which it holds the installed one, and
  `RefusedIsObsoleteIff` says exactly when it is obsolete, and on the lock-free path it always is (`FastRefusedIsObsolete`). The assertion there holds in every run (`EveryAssertionHolds`).
- The race asked about at `other/rocksdb/cache/clock_cache.cc:650-658` cannot happen: the flags that Insert overwrites never carry
  a reference (`StoreWipesNothing`), and a late Ref of a recycled handle fails (`LateRefFails`).
- A Lookup of a mapped key can fail though nobody else takes a step: exactly while an eviction has cleared the in-cache bit and not
  yet erased the key (`LookupFinds`).
- The CLOCK sweep can report failure although its last eviction made room (`FailsWithRoomMade`); `FailsThoughItFitsIff` gives the
  exact condition.
- Cache keys of one session are distinct for file numbers below 2^61 with no further condition (`UniqueInSession`) and below 2^62
  if the zero fix-up is not taken (`UniqueWithoutFixUp`); `FixUpCollides` and `TopBitsAreLost` are collisions beyond that, and
  `CollisionIff` is the exact condition on all inputs.
- The guarantee for one process at `other/rocksdb/cache/cache_key.cc:105-112` fails when the zero fix-up of one session meets
  another session (`FixUpCollidesInProcess`); `ProcessCollisionIff` shows that this is the only exception.
- `other/rocksdb/cache/sharded_cache.cc:171` takes the smaller of the option and one, so a call visits one bucket whatever the
  option says, and with the option at zero the scan never moves (`EndsIff`); `lru_cache.cc:169` asserts against that.
- `SetCapacity` changes the size of the high-priority pool without demoting what no longer fits
  (`CapacityOverfills`); `CapacityOverfillsIff` says when, and without lowered capacities the pool always fits (`PoolAlwaysFits`).
- The publishing script looks only at dependencies whose names start with `solana`, while its comment speaks of `analog`:
  dependencies of other names do not order anything (`OtherNamesUnordered`); `FullOrderIff` says exactly when the list respects
  them all the same.

## Model

| member | source | states |
|---|---|---|
| `SuperVersionSafety.InitInv` | other/rocksdb/db/column_family.cc:1259-1300 | the initial state keeps the invariant on counts, slots, phases of the installer and ownership |
| `SuperVersionSafety.KeepStep` | other/rocksdb/db/column_family.cc:1179-1318 | every step of every thread and of the installer keeps the invariant |
| `SuperVersionSafety.KeepJob` | other/rocksdb/db/column_family.cc:1265-1318 | the mutex section never gets stuck, and every sub-step of it keeps the invariant: publish, renumber, scrape slot by slot, drain, unref, clean up, break the cycle |
| `SuperVersionSafety.SlotNotLast` | other/rocksdb/db/column_family.cc:479-492 | a SuperVersion cached in a thread-local slot has at least two references, so dropping the slot's never drops the last |
| `SuperVersionSafety.ScrapedNotLast` | other/rocksdb/db/column_family.cc:1302-1317 | a scraped SuperVersion is the one being replaced and has at least two references |
| `SuperVersionSafety.HolderSees` | other/rocksdb/db/column_family.cc:436-446 | a SuperVersion somebody holds has a positive count and has not been cleaned up |
| `SuperVersionSafety.ReaderKeepsPublished` | other/rocksdb/db/column_family.cc:1192-1239 | while a reader holds the column family a SuperVersion stays installed |
| `SuperVersionTheorems.EveryStateInv` | other/rocksdb/db/column_family.cc:1179-1318 | every state of every run keeps the invariant |
| `SuperVersionTheorems.CountsAreExact` | other/rocksdb/db/column_family.cc:436-476 | in every state a count is exactly the number of holders: installed or being replaced, slots, threads in flight, outside; a held SuperVersion is not cleaned up, and none is cleaned up twice |
| `SuperVersionTheorems.CleanedStaysDead` | other/rocksdb/db/column_family.cc:448-463 | once cleaned up, never held and never cleaned up again in the rest of the run |
| `SuperVersionTheorems.EveryAssertionHolds` | other/rocksdb/db/column_family.cc:1204-1256 | the assertions of the source hold at every step of every run: Get never swaps out kSVInUse, a failed compare-and-swap sees kSVObsolete, no slot held the last reference |
| `SuperVersionTheorems.ThreadAssertions` | other/rocksdb/db/column_family.cc:1192-1257 | the same for the steps outside the mutex, in every state that keeps the invariant |
| `SuperVersionTheorems.JobAssertions` | other/rocksdb/db/column_family.cc:1302-1317 | the same for the sub-steps under the mutex, in every state that keeps the invariant |
| `SuperVersionTheorems.SlotContents` | other/rocksdb/db/column_family.cc:1204-1317 | a slot is obsolete, in use only while its own thread is reading, or caches the installed SuperVersion or, until it is scraped, the one being replaced or torn down, which is alive and not at its last reference |
| `SuperVersionTheorems.FastPathIsCurrent` | other/rocksdb/db/column_family.cc:1204-1239 | the lock-free path returns the installed SuperVersion or, while the new one waits for the number to advance, the one it replaces |
| `SuperVersionTheorems.RefusedIsObsoleteIff` | other/rocksdb/db/column_family.cc:1241-1257 | a reader that began to read by either path and is refused by Return holds an obsolete SuperVersion exactly if its slot was in use when it began, or another has been installed since; on the lock-free path the slot always is in use |
| `SuperVersionTheorems.FastRefusedIsObsolete` | other/rocksdb/db/column_family.cc:1204-1257 | a reader that swapped its SuperVersion out of its slot, carried it since and is refused holds an obsolete one, in every run |
| `SuperVersionTheorems.ObsoleteByNumberIff` | other/rocksdb/db/column_family.cc:1210-1213 | what a reader holds is obsolete exactly if its number is not the column family's or a newer one is just being numbered |
| `SuperVersionTheorems.EveryStateUnshared` | other/rocksdb/db/column_family.cc:1259-1300 | until it has its number, a new SuperVersion is referenced by its installer alone |
| `SuperVersionTheorems.RefusedWhileCurrent` | other/rocksdb/db/column_family.cc:1241-1257 | a run in which the refused reader holds the installed SuperVersion |
| `SuperVersionTheorems.NotTornDownEarly` | other/rocksdb/db/column_family.cc:673-700 | deleted at most once, and not while anyone outside holds the column family or a SuperVersion |
| `SuperVersionTheorems.TeardownProgress` | other/rocksdb/db/column_family.cc:448-463 | without clients every step but a thread's exit brings the teardown nearer its end |
| `SuperVersionTheorems.TeardownComplete` | other/rocksdb/db/column_family.cc:673-700 | without clients either a step is possible or everything is deleted |
| `SuperVersionTheorems.CycleAlwaysBroken` | other/rocksdb/db/column_family.cc:448-700 | and from every such state some schedule reaches that end within the bound |
| `SuperVersionTheorems.EveryTeardownEnds` | other/rocksdb/db/column_family.cc:448-700 | whatever the schedule: from a reachable state without clients there are at most so many steps other than exits, and where no other step is left everything is deleted once |
| `SuperVersionLaws.ReturnPutsBack` | other/rocksdb/db/column_family.cc:1241-1257 | in every state of every run Return caches the SuperVersion exactly if the slot is still in use and otherwise leaves it obsolete; the count stays, and what does not go into the slot goes to the caller |
| `SuperVersionLaws.CheckIff` | other/rocksdb/db/column_family.cc:1204-1216 | Get stays off the mutex exactly if the slot had a SuperVersion with the column family's number |
| `SuperVersionLaws.RoundTrip` | other/rocksdb/db/column_family.cc:1192-1257 | a SuperVersion returned to its slot is read again without the mutex if the slot is left alone and the number is still its own, whatever happens in between |
| `SuperVersionLaws.GetGivesCurrent` | other/rocksdb/db/column_family.cc:1192-1239 | from every reachable state with the mutex free, Get alone comes to read the installed SuperVersion, in two steps from a filled slot and four from an empty one, taking a reference exactly in the second case |
| `SuperVersionLaws.NoStaleGet` | other/rocksdb/db/column_family.cc:1192-1300 | once a SuperVersion is installed and the number has advanced, nobody gets an older one on either path |
| `SuperVersionLaws.ReferencedGivesOne` | other/rocksdb/db/column_family.cc:1179-1190 | GetReferencedSuperVersion gives its caller exactly one reference, whether or not the return is refused |
| `SuperVersionLaws.ExitGivesBack` | other/rocksdb/db/column_family.cc:479-492 | a thread that ends leaves an empty slot and gives back its reference, never the last |
| `SuperVersionLaws.AlwaysClosable` | other/rocksdb/db/column_family.cc:436-700 | nothing is held for good: from every reachable state the clients can give back what they hold, and then everything is deleted once |
| `ClockSafety.KeepStep` | other/rocksdb/cache/clock_cache.cc:471-768 | every atomic step of Lookup, Release, Insert, Erase, Evict and EraseUnRefEntries keeps the invariant |
| `ClockSafety.OwnerSees` | other/rocksdb/cache/clock_cache.cc:515-555 | a handle somebody has to recycle is out of the cache, unreferenced, not spare and not counted as pinned, and has one such owner |
| `ClockSafety.HolderSees` | other/rocksdb/cache/clock_cache.cc:494-513 | a referenced handle has a positive count, is not spare, and nobody has to recycle it |
| `ClockSafety.LastIsCharged` | other/rocksdb/cache/clock_cache.cc:515-540 | the last holder, if it is not itself still to add the charge, finds the handle counted as pinned |
| `ClockTheorems.EveryStateInv` | other/rocksdb/cache/clock_cache.cc:471-768 | every state of every run keeps the invariant |
| `ClockTheorems.RecycledOncePerLife` | other/rocksdb/cache/clock_cache.cc:471-481 | in every state a life of a handle has entered the recycle bin exactly once if it is over and not at all before, never while it is held; its value is deleted at most once, and not before |
| `ClockTheorems.BinIsExclusive` | other/rocksdb/cache/clock_cache.cc:471-481 | a handle in the bin is there once, out of the cache, unreferenced and owned by nobody |
| `ClockTheorems.OneStepOneOwner` | other/rocksdb/cache/clock_cache.cc:494-570 | the single atomic step that brings a handle to not-in-cache with no reference makes its task, alone, the one to recycle it |
| `ClockTheorems.EvictedIsListed` | other/rocksdb/cache/clock_cache.cc:557-570 | the erase after an eviction finds the handle in the hash map, under its own key, and leaves it unmapped |
| `ClockTheorems.StoreWipesNothing` | other/rocksdb/cache/clock_cache.cc:633-658 | the flags that Insert overwrites carry neither the in-cache bit nor a reference |
| `ClockTheorems.LateRefFails` | other/rocksdb/cache/clock_cache.cc:494-513 | a compare-and-swap of Ref on a handle that is in the bin, owned for recycling or being filled changes no handle and fails or retries |
| `ClockTheorems.LookupIsPinned` | other/rocksdb/cache/clock_cache.cc:703-726 | a successful Lookup holds a handle that stores the key asked for, whose life is not over and whose value is not deleted |
| `ClockTheorems.StableWhileHeld` | other/rocksdb/cache/clock_cache.cc:703-726 | from a successful Lookup until its release the handle keeps key, value and charge in every interleaving |
| `ClockTheorems.BornStays` | other/rocksdb/cache/clock_cache.cc:633-648 | what a life of a handle was filled with stays on record through the run |
| `ClockTheorems.NoUnderflow` | other/rocksdb/cache/clock_cache.cc:471-540 | neither usage_ nor pinned_usage_ is ever decreased below zero |
| `ClockTheorems.QuietAccounting` | other/rocksdb/cache/clock_cache.cc:471-768 | with no operation in flight the table maps exactly the in-cache handles by key, usage_ is the charge outside the bin and pinned_usage_ that of the referenced handles, every ended life has been deleted, and the bin holds exactly the handles neither in the cache nor referenced, so none leaks |
| `ClockTheorems.NeverStuck` | other/rocksdb/cache/clock_cache.cc:471-768 | an operation in flight can always take its next step, except to wait for the mutex |
| `ClockLaws.LookupFinds` | other/rocksdb/cache/clock_cache.cc:703-726 | from every reachable state a Lookup of a mapped key, alone, ends with the mapped handle held and one reference more, exactly if the handle is in the cache; if it is not, an eviction is between its two steps |
| `ClockLaws.LookupFailsOnlyIf` | other/rocksdb/cache/clock_cache.cc:703-726 | in every run a Lookup that finds the key mapped ends with that handle, unless at some moment since the handle was out of the cache or stored another key |
| `ClockLaws.LookupMisses` | other/rocksdb/cache/clock_cache.cc:703-707 | a Lookup finds nothing at once exactly if the key is not mapped |
| `ClockLaws.ReleaseGivesUp` | other/rocksdb/cache/clock_cache.cc:515-540 | from every reachable state with the mutex free, a release, alone, sets the usage bit and gives up one reference; the last one takes the charge off pinned_usage_ and, if the handle has left the cache, recycles it |
| `ClockLaws.TryEvictIff` | other/rocksdb/cache/clock_cache.cc:557-570 | an attempt to evict takes a handle out of the cache exactly if it is there unused and unreferenced, and otherwise only clears its usage bit |
| `ClockLaws.EvictRecycles` | other/rocksdb/cache/clock_cache.cc:557-570 | an evicted handle goes to the bin and its charge off usage_, and the sweep goes on |
| `ClockLaws.StoreStarts` | other/rocksdb/cache/clock_cache.cc:639-658 | a new entry starts in the cache, unused, with a reference exactly if the client wants to hold it |
| `ClockLaws.TakeReuses` | other/rocksdb/cache/clock_cache.cc:631-640 | a new entry takes the handle last put into the bin; the list grows only if the bin is empty |
| `ClockLaws.CleanupDeletes` | other/rocksdb/cache/clock_cache.cc:483-492 | the cleanup of an operation deletes all values of the lives it has ended, each once |
| `ClockSections.EraseTakesOut` | other/rocksdb/cache/clock_cache.cc:745-756 | in every run, when an Erase of a mapped key lets go of the mutex, the key is not in the table, its handle is out of the cache and not mapped, and recycled if it had no reference when the in-cache bit was cleared |
| `ClockSections.EraseOfNothing` | other/rocksdb/cache/clock_cache.cc:745-756 | an Erase of a key that is not mapped changes nothing |
| `ClockSections.BackOnlyByInsert` | other/rocksdb/cache/clock_cache.cc:613-672 | a key that has left the table comes back only by another Insert of it |
| `ClockSections.InsertPutsIn` | other/rocksdb/cache/clock_cache.cc:613-672 | in every run, when an Insert lets go of the mutex, its key is mapped to a handle in a new life, in the cache, with its value and charge, held if that was wanted; unless it was refused, with nothing stored |
| `ClockSections.ClearEmpties` | other/rocksdb/cache/clock_cache.cc:758-768 | in every run, when EraseUnRefEntries lets go of the mutex, the table is empty and no handle is in the cache |
| `ClockSections.SectionsEnd` | other/rocksdb/cache/clock_cache.cc:515-768 | in every run each step of a mutex section but the attempts to evict brings it nearer its end |
| `ClockSweep.ClockShard.TryEvict` | other/rocksdb/cache/clock_cache.cc:557-570 | evicts exactly an unused, unreferenced in-cache handle, and otherwise clears the usage bit; the new state is the specified one |
| `ClockSweep.ClockShard.Sweep` | other/rocksdb/cache/clock_cache.cc:572-596 | the loop makes m examinations in circular order, at most two rounds, and its state and result are those specified for m |
| `ClockSweep.ClockShard.EvictFromCache` | other/rocksdb/cache/clock_cache.cc:572-596 | the result of the sweep for every shard, the one without usage included; it succeeds exactly if the charge fits beside the referenced handles and the last one examined, if that has a second chance; after a failure nothing evictable has a charge; the shard stays consistent and usage_ is not negative |
| `ClockSweep.ClockShard.SetCapacity` | other/rocksdb/cache/clock_cache.cc:598-606 | afterwards the usage fits the capacity or nothing evictable is left |
| `ClockSweep.EvictedByTurn` | other/rocksdb/cache/clock_cache.cc:557-596 | the first m examinations evict exactly the evictable handles whose turn is below m, by turn: unused ones in circular order, then used ones |
| `ClockSweep.VictimOrder` | other/rocksdb/cache/clock_cache.cc:572-596 | two rounds evict each evictable handle exactly once, unused ones first, each group in circular order |
| `ClockSweep.UsedOnlyInSecondRound` | other/rocksdb/cache/clock_cache.cc:557-596 | a handle with its usage bit set is evicted only after every handle has been examined once |
| `ClockSweep.TwoRoundsEvictAll` | other/rocksdb/cache/clock_cache.cc:572-596 | after two rounds no unreferenced in-cache handle is left |
| `ClockSweep.ShortestPrefix` | other/rocksdb/cache/clock_cache.cc:572-596 | what is evicted is a prefix of that order, and no shorter prefix makes room |
| `ClockSweep.SweptConsistent` | other/rocksdb/cache/clock_cache.cc:557-570 | every stage of the sweep is consistent and usage_ never underflows |
| `ClockSweep.FailsIff` | other/rocksdb/cache/clock_cache.cc:586-596 | on the shard before the call: the sweep fails exactly if the charge does not fit beside the referenced handles and the handle before the head, in case that is evictable and used |
| `ClockSweep.FailsThoughItFitsIff` | other/rocksdb/cache/clock_cache.cc:586-591 | on the shard before the call: it fails with room made exactly if the handle before the head is evictable and used, and the charge fits beside the referenced handles but not with that one too |
| `ClockSweep.TwoRoundsLeave` | other/rocksdb/cache/clock_cache.cc:572-596 | two rounds leave in usage_ exactly the charge of the referenced handles |
| `ClockSweep.FailureLeavesNone` | other/rocksdb/cache/clock_cache.cc:586-591 | a failed sweep leaves no evictable handle |
| `ClockSweep.FailsWithRoomMade` | other/rocksdb/cache/clock_cache.cc:586-591 | a one-entry shard on which that happens |
| `ClockSweep.MakesRoom` | other/rocksdb/cache/clock_cache.cc:598-606 | a sweep for no charge leaves usage within the capacity or nothing evictable |
| `HandleTables.HandleTable.constructor` | other/rocksdb/cache/lru_cache.cc:23-27 | an empty table of 16 buckets |
| `HandleTables.HandleTable.FindPointer` | other/rocksdb/cache/lru_cache.cc:69-75 | the slot of the entry under this hash and key, or the slot past the end of its chain |
| `HandleTables.HandleTable.Lookup` | other/rocksdb/cache/lru_cache.cc:39-41 | the map's answer |
| `HandleTables.HandleTable.Insert` | other/rocksdb/cache/lru_cache.cc:43-57 | refines a map update, returns the displaced entry, and keeps the structure `EachOnce` speaks of, through any resize |
| `HandleTables.HandleTable.Remove` | other/rocksdb/cache/lru_cache.cc:59-67 | refines the removal of a key, returns the entry |
| `HandleTables.HandleTable.Resize` | other/rocksdb/cache/lru_cache.cc:77-110 | doubles the table unless at its bit limit, with the same contents |
| `HandleTables.HandleTable.Rehash` | other/rocksdb/cache/lru_cache.cc:92-109 | the rehashing loops move every entry to the chain of its bits in the new array and count all of them |
| `HandleTables.HandleTable.EachOnce` | other/rocksdb/cache/lru_cache.cc:39-110 | in every valid table an entry is in the chain of its upper hash bits, once, and in no other; elems_ is the true count, and the load stays below one until the bit limit |
| `HandleTables.HandleTable.ApplyToEntriesRange` | other/rocksdb/cache/lru_cache.h:244-255 | the walk over a range of buckets meets exactly the entries whose bucket is in it, each once |
| `LruRing.NextWithout` | other/rocksdb/cache/lru_cache.cc:216-224 | joining the neighbours of an entry gives the successors of the ring without it |
| `LruRing.NextWith` | other/rocksdb/cache/lru_cache.cc:234-257 | linking an entry in gives the successors and predecessors of the ring with it |
| `LruLists.LruList.Remove` | other/rocksdb/cache/lru_cache.cc:216-232 | takes the entry out of the ring, moves the split if the entry was before it, and discharges it from the counters; its requires are the assertions of the source, proved at each call |
| `LruLists.LruList.Insert` | other/rocksdb/cache/lru_cache.cc:234-258 | puts the entry at the newest end or at the newest end of the low-priority pool; flags and split agree afterwards |
| `LruLists.LruList.Enter` | other/rocksdb/cache/lru_cache.cc:234-258 | does to ring, split and counters what the value model says |
| `LruLists.LruList.MaintainPoolSize` | other/rocksdb/cache/lru_cache.cc:260-271 | the loop moves the split past the oldest entries as far as needed, never past the end, and leaves the pool counter at the charge of the high-priority suffix |
| `LruModel.LeastOverflow` | other/rocksdb/cache/lru_cache.cc:260-271 | the split moves to the least point from which the rest of the ring fits the pool |
| `LruModel.NegativePoolNeverFits` | other/rocksdb/cache/lru_cache.cc:260-264 | with a negative pool size no split satisfies the loop, so the assertion in it fails |
| `LruModel.ShortestPrefix` | other/rocksdb/cache/lru_cache.cc:273-287 | eviction takes the shortest prefix from the old end that makes room, or all of the ring |
| `LruModel.RemovedRing` | other/rocksdb/cache/lru_cache.cc:216-232 | removal keeps both list counters equal to the sums they stand for |
| `LruModel.EnteredRing` | other/rocksdb/cache/lru_cache.cc:234-271 | so does insertion, with any demotions it causes |
| `LruModel.EvictedSound` | other/rocksdb/cache/lru_cache.cc:273-287 | eviction keeps the shard's invariant and leaves room or nothing to evict |
| `LruModel.SetCapacitySound` | other/rocksdb/cache/lru_cache.cc:289-308 | SetCapacity keeps the invariant |
| `LruModel.InsertedSound` | other/rocksdb/cache/lru_cache.cc:315-385 | InsertItem keeps the invariant: refused, dropped, overwriting and plain |
| `LruModel.LookedUpSound` | other/rocksdb/cache/lru_cache.cc:419-437 | Lookup keeps it |
| `LruModel.ReferencedSound` | other/rocksdb/cache/lru_cache.cc:494-501 | Ref keeps it |
| `LruModel.SetRatioSound` | other/rocksdb/cache/lru_cache.cc:503-508 | a new pool ratio keeps it |
| `LruModel.ReleasedSound` | other/rocksdb/cache/lru_cache.cc:510-550 | Release keeps it, forced or not |
| `LruModel.ErasedSound` | other/rocksdb/cache/lru_cache.cc:586-611 | Erase keeps it |
| `LruModel.EraseUnRefSound` | other/rocksdb/cache/lru_cache.cc:135-156 | EraseUnRefEntries keeps it |
| `LruTheorems.EveryStateSound` | other/rocksdb/cache/lru_cache.h:30-50 | every state of every run of the shard keeps the invariant |
| `LruTheorems.UsageIsExact` | other/rocksdb/cache/lru_cache.cc:630-634 | in every run usage_ is the charge of the list and of the referenced entries, lru_usage_ that of the list, their difference that of the referenced entries, the pool counter that of the suffix, and none is negative |
| `LruTheorems.RefusedIff` | other/rocksdb/cache/lru_cache.cc:326-331 | whether an insertion is refused depends on the referenced entries alone: exactly if their charge and the new one exceed the capacity and the limit is strict or no handle is wanted |
| `LruTheorems.StrictLimit` | other/rocksdb/cache/lru_cache.cc:326-346 | with the strict limit on from the start and the capacity never lowered, usage_ never exceeds capacity_ in any run |
| `LruTheorems.StrictTotal` | other/rocksdb/cache/sharded_cache.cc:39-47 | over any histories of the shards of a strict cache, each with its share rounded up and at any position: their usage together is below the capacity plus the number of shards |
| `LruTheorems.StepKnown` | other/rocksdb/cache/lru_cache.cc:315-385 | no operation but an accepting insertion adds to the entries the shard answers for, and none loses any |
| `LruTheorems.LifeOfAnEntry` | other/rocksdb/cache/lru_cache.h:30-50 | at every state of every run an accepted entry is on the list exactly if it is in the table and unreferenced, and deleted exactly if it is neither; nothing is deleted twice |
| `LruTheorems.IncompleteNeverDeleted` | other/rocksdb/cache/lru_cache.cc:333-344 | an entry whose insertion was Incomplete, or that was never inserted, is nowhere in the shard and never deleted by it |
| `LruTheorems.LookupFindsLatest` | other/rocksdb/cache/lru_cache.cc:345-352 | in every run a lookup finds nothing or the entry of the latest insertion of that key that was stored |
| `LruTheorems.LookupPins` | other/rocksdb/cache/lru_cache.cc:426-436 | a found entry has the key asked for, gains one reference and the hit flag, and no other count changes |
| `LruTheorems.DroppedLeavesOlder` | other/rocksdb/cache/lru_cache.cc:328-344 | an insertion dropped for space leaves an older referenced entry of the key visible |
| `LruTheorems.PoolWithin` | other/rocksdb/cache/lru_cache.cc:234-271 | after an insertion into the high-priority pool the pool is within its size |
| `LruTheorems.CapacityOverfillsIff` | other/rocksdb/cache/lru_cache.cc:289-308 | for every shard and capacity, evictions included: after SetCapacity the pool is over its size exactly if what it had beyond the shortest sufficient prefix charges more than the new size |
| `LruTheorems.CapacityOverfills` | other/rocksdb/cache/lru_cache.cc:289-308 | a run in which that happens: an entry of charge 8, and the capacity lowered from 20 to 10 with half of it for the pool |
| `LruTheorems.PoolAlwaysFits` | other/rocksdb/cache/lru_cache.cc:234-271 | in every run whose capacity is never lowered and whose ratios are not negative, the pool is within its size at every state |
| `LruLaws.InsertedIff` | other/rocksdb/cache/lru_cache.cc:342-371 | an insertion that is not refused: the entry is what a lookup of its id finds; it has one reference and is off the list exactly if a handle is wanted, and is on the list otherwise |
| `LruLaws.RefusedLeaves` | other/rocksdb/cache/lru_cache.cc:326-341 | a refused insertion deletes the entry at once exactly if no handle is wanted, and leaves it nowhere in the shard |
| `LruLaws.OverwrittenIff` | other/rocksdb/cache/lru_cache.cc:342-360 | the status: Incomplete exactly if refused with a handle wanted, overwritten exactly if an older entry of the id is left after making room; that one is unmapped, and deleted unless it is referenced |
| `LruLaws.ReleasedIff` | other/rocksdb/cache/lru_cache.cc:510-550 | a count above one goes down by one and nothing else changes; the last release puts the entry back on the list exactly if it is in the table, the shard is within its capacity and erasing is not forced, and otherwise unmaps and deletes it |
| `LruLaws.ReleaseKeepsOthers` | other/rocksdb/cache/lru_cache.cc:510-550 | a release unmaps and deletes no other entry |
| `LruLaws.ErasedIff` | other/rocksdb/cache/lru_cache.cc:586-611 | Erase takes the id and no other out of the table; its entry is deleted exactly if it is on the list, and lives on with its count if it is referenced |
| `LruLaws.EraseUnRefIff` | other/rocksdb/cache/lru_cache.cc:135-156 | EraseUnRefEntries empties the list, deletes what was on it and leaves exactly the referenced entries in the table |
| `LruLaws.ReferencedIff` | other/rocksdb/cache/lru_cache.cc:494-501 | Ref adds one to the count of its entry and changes nothing else |
| `LruLaws.EnteredWhere` | other/rocksdb/cache/lru_cache.cc:234-258 | LRU_Insert puts an entry at the newest end exactly if there is a pool and the entry is of high priority or was hit; it is in the high-priority pool exactly if it fits there alone as well; any other becomes the newest of the low-priority pool |
| `LruLaws.HandlesKeepAlive` | other/rocksdb/cache/lru_cache.cc:315-550 | over every run the count of an entry is the number of references handed to clients and not given back; while there is one the entry is neither deleted nor on the list |
| `LruLaws.HitIff` | other/rocksdb/cache/lru_cache.cc:426-436 | over every run an entry counts as hit exactly if some lookup has found it |
| `LruShards.LruShard.constructor` | other/rocksdb/cache/lru_cache.cc:112-133 | an empty shard with the limits asked for, for every capacity and ratio |
| `LruShards.LruShard.EvictFromLRU` | other/rocksdb/cache/lru_cache.cc:273-287 | the loop in memory evicts exactly the model's prefix, from list, table and usage, its assertions holding at each round |
| `LruShards.LruShard.SetCapacity` | other/rocksdb/cache/lru_cache.cc:289-308 | does what the model says, deleters called for the evicted entries in order |
| `LruShards.LruShard.SetStrictCapacityLimit` | other/rocksdb/cache/lru_cache.cc:310-313 | changes the limit only |
| `LruShards.LruShard.InsertItem` | other/rocksdb/cache/lru_cache.cc:315-385 | does what the model says in every branch, with the status and the handle of the source; a handle given out has the only reference, and its entry is mapped and off the list |
| `LruShards.LruShard.Insert` | other/rocksdb/cache/lru_cache.cc:552-584 | the same for a newly made entry |
| `LruShards.LruShard.Lookup` | other/rocksdb/cache/lru_cache.cc:419-437 | returns the mapped entry, off the list and with one more reference |
| `LruShards.LruShard.Ref` | other/rocksdb/cache/lru_cache.cc:494-501 | one more reference to a referenced entry |
| `LruShards.LruShard.SetHighPriorityPoolRatio` | other/rocksdb/cache/lru_cache.cc:503-508 | new ratio and pool size, with the demotions they cause; asks that the new size is not negative, without which the assertion of the source fails |
| `LruShards.LruShard.Release` | other/rocksdb/cache/lru_cache.cc:510-550 | does what the model says; returns true exactly if the entry has been deleted; the assertion that a full cache has an empty list holds |
| `LruShards.LruShard.Erase` | other/rocksdb/cache/lru_cache.cc:586-611 | out of the table; deleted unless referenced |
| `LruShards.LruShard.EraseUnRefEntries` | other/rocksdb/cache/lru_cache.cc:135-156 | empties the list, deleters in order |
| `LruShards.LruShard.GetPinnedUsage` | other/rocksdb/cache/lru_cache.cc:630-634 | the charge of the referenced entries, without underflow |
| `ShardScan.NextResumable` | other/rocksdb/cache/lru_cache.cc:171-181 | a call goes on to a bucket boundary past its own start, which is never the done marker |
| `ShardScan.VisitsRange` | other/rocksdb/cache/lru_cache.cc:171-191 | a call visits exactly the entries with hashes from its state up to the next |
| `ShardScan.AlignedGrows` | other/rocksdb/cache/lru_cache.cc:77-110 | a resume state is still a bucket boundary after the table has grown |
| `ShardScan.AtMostOnce` | other/rocksdb/cache/sharded_cache.cc:160-183 | no entry is visited by two calls, whatever happens to the shard between them |
| `ShardScan.ExactlyOnce` | other/rocksdb/cache/sharded_cache.cc:160-183 | an entry present at every call of a finished scan is visited by exactly one |
| `ShardScan.AssertionHolds` | other/rocksdb/cache/lru_cache.cc:166-173 | the second assertion of ApplyToSomeEntries holds at every call of a scan that starts with a positive option, and the index arithmetic stays within 32 bits |
| `ShardScan.EndsIff` | other/rocksdb/cache/sharded_cache.cc:169-171 | the scan of a shard ends exactly if the option is positive |
| `ShardScan.ApplyToSomeEntries` | other/rocksdb/cache/lru_cache.cc:158-192 | on a table in memory: visits the entries of the range, each once, and returns the next state |
| `ShardScan.ApplyToAllEntries` | other/rocksdb/cache/sharded_cache.cc:160-183 | the rotating loops end, with every shard scanned to its end |
| `ShardScan.ScanVisitsOnce` | other/rocksdb/cache/sharded_cache.cc:160-183 | in what ApplyToAllEntries visits, an entry present throughout occurs exactly once |
| `CacheKeys.BytesLeaveRoom` | other/rocksdb/cache/cache_key.cc:225-239 | the number of packed file-number bytes is the largest that leaves room for the offset, within three |
| `CacheKeys.StandardEncodingIff` | other/rocksdb/cache/cache_key.h:123-124 | three bytes are packed exactly up to the standard-encoding bound |
| `CacheKeys.OffsetPartIff` | other/rocksdb/cache/cache_key.cc:241-245 | with equally many bytes packed, offset halves agree exactly if the offsets and the packed bits of the file numbers do |
| `CacheKeys.SessionModifierIff` | other/rocksdb/cache/cache_key.cc:247-253 | session modifiers agree exactly if equally many bytes are packed and the remaining file-number bits that fit agree |
| `CacheKeys.CollisionIff` | other/rocksdb/cache/cache_key.cc:213-268 | two blocks of one session share a key exactly if they are the same block as far as bits are kept, or the fix-up of one meets the other with equal offset halves; on all inputs |
| `CacheKeys.UniqueInSession` | other/rocksdb/cache/cache_key.cc:213-268 | for file numbers below 2^61, blocks of one session share a key exactly if packing, file number and offset are equal, whatever the maximal offsets and the fix-up |
| `CacheKeys.UniqueWithoutFixUp` | other/rocksdb/cache/cache_key.cc:213-268 | the same below 2^62 when the zero fix-up is not taken |
| `CacheKeys.FixUpNeedsHugeFile` | other/rocksdb/cache/cache_key.cc:262-267 | the fix-up meets another key of the session only if a file has bit 61 of its number set and nothing packed |
| `CacheKeys.FixUpCollides` | other/rocksdb/cache/cache_key.cc:262-267 | for every file number without bit 61 there is a session, of nonzero lower word, in which it shares a key, through the fix-up, with the number that has the bit |
| `CacheKeys.TopBitsAreLost` | other/rocksdb/cache/cache_key.cc:247-253 | with nothing packed, in every session and for every file number, setting bit 62 or 63 leaves the key as it is, with or without the fix-up |
| `CacheKeys.ProcessCollisionIff` | other/rocksdb/cache/cache_key.cc:105-112 | over all sessions of one process, in the standard encoding and with session ids times file numbers within 2^86, two blocks share a key exactly if session, file and offset are equal, or the fix-up of one session's zero meets another session with equal offset halves |
| `CacheKeys.UniqueInProcess` | other/rocksdb/cache/cache_key.cc:105-112 | so the documented law holds for keys whose session half needs no fix-up |
| `CacheKeys.FixUpCollidesInProcess` | other/rocksdb/cache/cache_key.cc:262-267 | two sessions of one process, with nonzero lower words and an upper word within the 39 bits a session id keeps, that share a key through the fix-up, both with their file number 2^24 |
| `CacheKeys.NeverEmpty` | other/rocksdb/cache/cache_key.cc:262-268 | the session half of a file's key is never zero |
| `CacheKeys.DbHashIff` | other/rocksdb/cache/cache_key.cc:199-217 | the same block of the same session has equal keys exactly if the hashes of the DB id are equal |
| `CacheKeys.KeySource.ForCacheLifetime` | other/rocksdb/cache/cache_key.cc:27-33 | a key of the range planned for it, not issued before by either counter |
| `CacheKeys.KeySource.ForProcessLifetime` | other/rocksdb/cache/cache_key.cc:35-44 | a key of the range planned for it, not issued before by either counter |
| `CacheKeys.KeySource.FileKeysApart` | other/rocksdb/cache/cache_key.cc:18-25 | no key of a file is ever issued by a counter, and none is the empty key |
| `Reservation.LeastMultiple` | other/rocksdb/cache/cache_reservation_manager.cc:125-128 | the least multiple of 256 KiB that covers the memory used |
| `Reservation.CacheReservationManager.IncreaseCacheReservation` | other/rocksdb/cache/cache_reservation_manager.cc:102-119 | succeeds exactly if the cache takes every missing dummy entry; what was taken before a failure stays reserved |
| `Reservation.CacheReservationManager.DecreaseCacheReservation` | other/rocksdb/cache/cache_reservation_manager.cc:121-138 | gives dummy entries back newest first, down to the least sufficient multiple |
| `Reservation.CacheReservationManager.UpdateCacheReservation` | other/rocksdb/cache/cache_reservation_manager.cc:39-67 | succeeds exactly if the reserve suffices or the cache takes every missing entry; then the reserve is the least sufficient multiple or, in delayed mode with usage from three quarters of it, unchanged; a failed update leaves it short but no smaller |
| `Reservation.CacheReservationManager.MakeCacheReservation` | other/rocksdb/cache/cache_reservation_manager.cc:80-90 | memory used is the sum over live handles, also when the cache failed |
| `Reservation.CacheReservationManager.DropReservation` | other/rocksdb/cache/cache_reservation_manager.cc:174-182 | dropping a handle takes its memory off without underflow and keeps the sum over live handles |
| `Reservation.CacheReservationManager.ReleaseAll` | other/rocksdb/cache/cache_reservation_manager.cc:33-37 | every dummy handle is given back |
| `PublishOrder.RoundsPartition` | testnet/ci/order-crates-for-publishing.py:51-69 | after any number of rounds every package is taken once or still left |
| `PublishOrder.TakenInOrder` | testnet/ci/order-crates-for-publishing.py:59-67 | whatever is taken comes after all its dependencies in the workspace |
| `PublishOrder.Progress` | testnet/ci/order-crates-for-publishing.py:50-57 | after k rounds at least k packages are taken, or no further round takes any |
| `PublishOrder.LeftIff` | testnet/ci/order-crates-for-publishing.py:51-69 | after at least as many rounds as packages, exactly those are left from which a walk comes to a cycle |
| `PublishOrder.EmptiedIff` | testnet/ci/order-crates-for-publishing.py:51-69 | the rounds empty the graph exactly if it has no cycle |
| `PublishOrder.PairIsCycle` | testnet/ci/order-crates-for-publishing.py:35-46 | a pair reported as circular is a cycle |
| `PublishOrder.OutcomeIff` | testnet/ci/order-crates-for-publishing.py:24-72 | success exactly if there is no cycle, every package listed once after its dependencies; a suspicion names exactly the packages that lead to a cycle |
| `PublishOrder.DirectPairs` | testnet/ci/order-crates-for-publishing.py:36-40 | the loops find exactly the pairs that depend on each other |
| `PublishOrder.Round` | testnet/ci/order-crates-for-publishing.py:59-69 | one round splits the graph into the packages with no dependency left and the rest, in order |
| `PublishOrder.OrderPackages` | testnet/ci/order-crates-for-publishing.py:48-72 | the loop with its limit comes to the specified outcome |
| `PublishTheorems.GetPackages` | testnet/ci/order-crates-for-publishing.py:24-72 | the whole script, from any metadata: it succeeds exactly if no cycle of the workspace lies within the family, and lists every package once, after its dependencies of the family |
| `PublishTheorems.ScriptIff` | testnet/ci/order-crates-for-publishing.py:24-72 | on any metadata, by its own dependencies: success, the list and the suspected packages, which are those from which a walk through the family comes to a cycle |
| `PublishTheorems.DirectIff` | testnet/ci/order-crates-for-publishing.py:35-46 | direct circular dependencies are reported exactly if two packages of the family, or one, depend on each other |
| `PublishTheorems.FamilyWorkspace` | testnet/ci/order-crates-for-publishing.py:29-72 | if all dependencies in the workspace are of the family, success means no cycle at all, and the list is in the order of all of them |
| `PublishTheorems.RestIsDeep` | testnet/ci/order-crates-for-publishing.py:51-69 | after k rounds exactly those packages are left from which a chain of k dependencies starts |
| `PublishTheorems.ListedIff` | testnet/ci/order-crates-for-publishing.py:51-69 | one package is listed before another exactly if its longest chain of dependencies is shorter, or as long and it comes first in the metadata |
| `PublishTheorems.FullOrderIff` | testnet/ci/order-crates-for-publishing.py:29-72 | the list is in the order of all dependencies in the workspace exactly if each one outside the family has a shorter longest chain of family dependencies than its dependent, or an equal one and an earlier place |
| `PublishTheorems.LoadedFiltered` | testnet/ci/order-crates-for-publishing.py:29-33 | the dictionary loaded is the workspace, in order, with dependencies outside the family left out |
| `PublishTheorems.UnseenUnordered` | testnet/ci/order-crates-for-publishing.py:29-33 | whatever its name outside the family, an only dependency that comes later in the metadata is listed after its dependent |
| `PublishTheorems.OtherNamesUnordered` | testnet/ci/order-crates-for-publishing.py:29-33 | a workspace of another family that is listed against its dependency |

## Left out

- The secondary cache tier (Promote, pending handles, WaitAll): the LRU accounting is for shards without it.
- Release with force-erase and external Ref in the concurrent CLOCK model: a task of that model does one operation at a time and holds one reference.
- ClockProtocol.DoRefuse: does not record that a refused insertion without a handle wanted deletes the caller's value (clock_cache.cc:626-628); the model follows the values that handles have stored.
- The order in which the concurrent CLOCK model examines handles is free; the order of the sweep, without interference, is in `ClockSweep`.
- Weak memory ordering: atomic operations are sequentially consistent.
- Overflow of `size_t` and of the 32-bit hash table counter, and `malloc_usable_size`: charges are natural numbers, fixed for the life of an entry.
- LruShards.LruShard.SetHighPriorityPoolRatio: asks that the new pool size is not negative, because otherwise the assertion in MaintainPoolSize fails (`NegativePoolNeverFits`); the ratio and the pool size are reals, without rounding.
- LruShards.LruShard.InsertItem: the deleters of evicted entries are logged before the new entry is stored instead of after the mutex is released, in the same order.
- LruShards.LruShard.Release: asks for a handle the caller holds a reference to, as the source's assertion does.
- ShardScan.ApplyToAllEntries: asks for a positive option, as the assertion at lru_cache.cc:169 does; with zero the loop of the source does not end (`EndsIff`); what others do between its calls is an arbitrary sequence of tables that only grow in length.
- CacheKeys.KeySource.ForCacheLifetime: asks that the counter has not left its range, as the source's assertion does; the counter is not shared between threads.
- CacheKeys.KeySource.ForProcessLifetime: the same for the counter that counts down.
- Reservation.CacheReservationManager.IncreaseCacheReservation: what the cache answers to each insertion is a parameter, and dummy keys are not modelled.
- Readers in the SuperVersion model start after the first InstallSuperVersion and hold a column-family reference while they read.
- What a SuperVersion holds (memtables and versions) and the deletion of memtables.
- Hash functions, session id generation and decoding: their results are arbitrary words.
- SanitizeOptions, write-stall selection and option validation in column_family.cc: long case splits with easy claims.
- Reading the workspace metadata and printing paths, in the publishing script.
- Everything else in the repository: clients, user interfaces, bindings, benchmarks and scripts; analog/src/deadlock.rs has no code outside comments.
