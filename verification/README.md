# Verified model of nemo

A Dafny model of the parts of nemo where correctness is hardest to see from the code, with proofs of
what those parts promise. nemo manages two tiers of memory, fast DRAM and slow CXL-attached memory,
for applications that keep loading and storing while their pages move. The repository also holds a
key-value server, word-level bitmaps and a driver for the device that counts accesses.

`dafny verify dfyconfig.toml` checks the whole project.

| component | source | modules |
|---|---|---|
| one migration against running application threads | src/ucm/migration.c, src/app/remap.c, src/ucm/uffd.c | MigrationProtocol |
| the central manager (UCM): descriptors, lists, indexes, counters, free rings | src/ucm | UcmState, UcmInvariant, UcmSafety, UcmMigration, UcmRuns, UcmRollback, UcmEpoch, UcmEffects, UcmLists, Ucm |
| page lists, the hottest-first iterator, hotness levels and cooling | src/ucm/ds, src/ucm/core-util.c | PageList, PageIterator, Hotness |
| the single-producer single-consumer ring | src/ucm/ds/spsc-ring.c | SpscRing, SequentialRing |
| FlexKVS: hash table, log-structured allocator, cleaner, maintenance | apps/flexkvs/server | KvState, KvTable, KvLog, KvStore, KvClean, KvRuns, KvScan, KvAlloc, KvMaintain, KvSteady, KvRelocate, KvProgram, KvHazard |
| the hash of keys | apps/flexkvs/server/jenkins_hash.c | JenkinsHash |
| bitmaps | libs/util | Bitops, Bitmap, BitmapCopy |
| the device driver's shadow registers | libs/cxl-dev/cxl-dev.c | CxlDevice |

## How the model is built

- Code that changes state is modelled twice. A specification is a function on a value that holds the
  whole state (`UcmState`, `KvState`), and the program is a class whose methods, with the source's
  loops and branches, are proved to compute it (`Ucm.Manager`, `KvProgram.Store`). Invariants and
  whole runs are proved on the specification.
- The two concurrent parts, migration and the ring, are transition systems over single loads and
  stores under sequential consistency. Their theorems quantify over every interleaving.
- State that is not in the program but that invariants speak about is marked as such: the owner of a
  frame, the log of migrations, the references held by callers, the items of a segment in order.
- Folding. Large invariants are wrapped in a predicate that takes a `depth` with a default value and
  only reaches the invariant at depth 0. Proofs that pass the invariant along then never look inside,
  and the lemma `Unfold...` of the same name opens it. Comments say "X, folded". A few functions
  (`KvAlloc.Room`, `KvAlloc.CleanTurn`, `KvProgram.Replaced`) are folded in the same way.

## Assumptions

- `CONFIG_PEBS` is on; without it a promoted page goes on the cold list whatever its level.
- A policy epoch drains the free ring of a process before it picks candidates, and no free request
  arrives in between. What happens otherwise is stated exactly; see Findings.
- Pages come from `ucm_allocate_memory`, and every page has the default size.
- Every remap request to the application succeeds, and one request is outstanding at a time.
- The kernel blocks a store to a write-protected page, and `MAP_FIXED` replaces a mapping by an
  unprotected one in a single step.
- The application does not unmap a page while it is being migrated, nor a page that one of its own
  threads sleeps on. `MigrationProtocol.FreeDuringMigrationIsVisible` states what the first leads to.
- The hash tables of the manager are maps whose entries are deleted by identity, because a
  descriptor's offset is overwritten before its entry is deleted.
- FlexKVS callers release what they look up, never put an item that is already in the table, and ask
  for items smaller than a segment. Requests of the maintenance thread and of workers are atomic.
- Bitmap macros have their usual 64-bit meanings; the device has 8192 counters per datapath.

## Model

| member | source | states |
|---|---|---|
| `MigrationProtocol.StepRefinesFlat` | src/ucm/migration.c:64-253 | every step of an application thread, of the fault handler, of the allocator and of a migration keeps the invariant and is a step of one flat memory |
| `MigrationProtocol.LoadsSeeLastStore` | src/ucm/migration.c:33-253 | in every interleaving from a fresh manager, each load returns the value last stored to that word, or the zero of a fresh page, whatever migrations are under way |
| `MigrationProtocol.RunAgrees` | src/ucm/migration.c:33-253 | over any run, what the application sees is what its history of events wrote |
| `MigrationProtocol.RemapGood` | src/app/remap.c:33-88 | replacing the mapping of a migrated page is invisible to the application |
| `MigrationProtocol.MigrationCompletes` | src/ucm/migration.c:64-253 | from every reachable state the migration under way can be driven to its end, without an event the application could see |
| `MigrationProtocol.WakeAndRetry` | src/ucm/uffd.c:263-310 | with no migration under way, a sleeping thread is woken and its store lands |
| `MigrationProtocol.FaultedStoreCanComplete` | src/ucm/uffd.c:37-119 | a thread asleep on a protected page always has a way to finish its store: no store is stranded |
| `MigrationProtocol.FreeDuringMigrationIsVisible` | src/app/remap.c:33-65 | in every phase, unmapping the page being migrated is a step of flat memory, and what the migration still does is invisible if and only if the remap has been made; otherwise the remap brings the page back |
| `UcmRuns.InitIsGood` | src/ucm/mm.c:189-221 | the invariant holds after initialisation, for any number of huge pages per tier |
| `UcmRuns.DescendingAt` | src/ucm/mm.c:189-221 | a fresh free list runs from the highest page to the lowest, which is taken first |
| `UcmSafety.TakeKeeps` | src/ucm/ucm.c:42-94 | allocating one page keeps the invariant |
| `UcmSafety.OffsetUnused` | src/ucm/mm.c:89-109 | the offset of a slow frame that no tracked page has is in neither offset index |
| `UcmSafety.RemoveKeeps` | src/ucm/mm.c:68-87 | a free request keeps the invariant: out of all indexes at once, once in the free ring |
| `UcmSafety.DrainReady` | src/ucm/mm-async.c:342-354 | the assertions of the drain hold: a drained page belongs to the process and is on the list its tier and hotness name |
| `UcmSafety.DrainKeeps` | src/ucm/mm-async.c:325-382 | draining one page keeps the invariant |
| `UcmSafety.RehotKeeps` | src/ucm/mm-async.c:82-142 | moving a page to another hotness level keeps the invariant |
| `UcmMigration.FirstEligibleIsFirst` | src/ucm/policy/migrate.c:22-40 | the scan of one list stops at its first eligible page |
| `UcmMigration.HottestSlowIsHottest` | src/ucm/policy/migrate.c:15-43 | the promotion candidate is eligible and at the hottest level that has an eligible page; there is none only if no slow page is eligible |
| `UcmMigration.ColdestFastIsColdest` | src/ucm/policy/migrate.c:45-73 | the demotion candidate is eligible and at the coldest level, below the limit, that has an eligible page; there is none only if none is eligible |
| `UcmMigration.MigrateEffect` | src/ucm/migration.c:255-415 | a turn whose candidate is not waiting to be freed exchanges the frames of the candidate and of the oldest free page, moves both to the lists of their new tier, and updates indexes and counters to match |
| `UcmMigration.MigrateKeeps` | src/ucm/migration.c:255-415 | a turn in either direction keeps the invariant if there is no free page to take or the candidate is not waiting to be freed |
| `UcmMigration.LookupFinds` | src/ucm/mm.c:50-56 | looking up a live page by its address finds that page |
| `UcmMigration.DrainedPicksAreLive` | src/ucm/migration.c:290-294 | after a drain every candidate is live and the lookups before a promotion or demotion find it |
| `UcmMigration.DemotionIsSafeExactlyWhen` | src/ucm/migration.c:284-308 | a demotion keeps the invariant if and only if there is no free slow page or the candidate is not waiting to be freed |
| `UcmMigration.PromotionIsDefinedExactlyWhen` | src/ucm/mm.c:111-116 | a promotion deletes its candidate from the offset index unconditionally; the entry is there if and only if the candidate is not waiting to be freed |
| `UcmMigration.LostPages` | src/ucm/migration.c:290-294 | if the candidate's address is no longer indexed, candidate and free page end on no list |
| `UcmMigration.WaitingPageIndexed` | src/ucm/migration.c:147-157 | if the address has been allocated again, a page waiting to be freed is entered in the offset index |
| `UcmRuns.FreeRequestBeforeDemotion` | src/ucm/migration.c:267-308 | from every state with a live candidate and a free slow page, a free request for the candidate followed by the demotion breaks the invariant |
| `UcmRuns.FreeRequestBeforePromotion` | src/ucm/migration.c:147-157 | from every state with a live candidate, a free request for the candidate leaves it the candidate and its promotion without an entry to delete |
| `UcmRuns.EveryReachableState` | src/ucm/mm.c:21-221 | in every reachable state descriptors and frames correspond one to one, each descriptor is once on the one list its tier, owner and hotness name, the three indexes hold exactly the live pages and the live slow pages, and the byte counters equal what each process owns |
| `UcmRuns.MigrationsAreSpaced` | src/ucm/policy/migrate.c:30-34 | over every run two migrations of one page are at least five epochs apart unless the earlier was in epoch 0 |
| `UcmRuns.MigratedTwiceInEpochZero` | src/ucm/policy/migrate.c:30-34 | for any number of huge pages per tier there is a run from initialisation that migrates a page up and down in epoch 0 |
| `UcmRuns.MigratedAgainAfterFive` | src/ucm/policy/migrate.c:30-34 | for every epoch there is a run that migrates a page in that epoch and again five epochs later |
| `UcmRuns.SuspectedBugsUnreachable` | src/ucm/mm.c:73-101 | the two branches marked as suspected bugs are unreachable: an offset to be added is never indexed, a slow page to be removed always is |
| `UcmRollback.AllocatedPages` | src/ucm/ucm.c:42-96 | an allocation touches only descriptors that were free, and makes each a live page at one of the addresses |
| `UcmRollback.AllocatedAddresses` | src/ucm/ucm.c:42-96 | the address index gains exactly the addresses of the pages allocated |
| `UcmRollback.RemovedPages` | src/ucm/ucm.c:161-173 | removing a range marks exactly the live pages at its addresses as waiting |
| `UcmRollback.RemovedAddresses` | src/ucm/ucm.c:161-173 | the address index loses exactly the addresses of the range |
| `UcmRollback.DrainedPages` | src/ucm/mm-async.c:325-382 | a drain frees exactly the waiting pages of the process |
| `UcmRollback.RollbackRestores` | src/ucm/ucm.c:98-107 | an allocation that runs out of memory, rolled back and drained, leaves indexes, free frames and byte counters as a drain without it would |
| `UcmRollback.RollbackRestoresExactly` | src/ucm/ucm.c:98-107 | with nothing waiting beforehand that is the state before the request |
| `UcmRollback.FailsOnlyWithoutMemory` | src/ucm/ucm.c:50-53 | an allocation fails only when no slow page is free and no fast one the process may have |
| `UcmEpoch.TurnMoves` | src/ucm/migration.c:255-415 | a turn that moves a page moves one page of bytes between the two counters of the process and uses one free page of the destination |
| `UcmEpoch.TurnWithoutRoom` | src/ucm/migration.c:309-316 | a turn without a free page changes only the candidate's place and level |
| `UcmEffects.AllocationEffect` | src/ucm/policy/alloc.c:8-111 | from which tier one page of an allocation comes, when there is none, and what becomes of it: owner, address, 2 MiB on the counter of its tier, front of the coldest list |
| `UcmEffects.LimitsHold` | src/ucm/policy/alloc.c:17-36 | over any run without promotions and without allocations that prefer slow memory, no process gets a page or more above its limit of fast memory |
| `UcmEffects.RequestEffect` | src/ucm/mm-async.c:82-142 | a hot or cold request brings a page in use to the level asked for and leaves everything else alone |
| `UcmEffects.DeallocationEffect` | src/ucm/mm.c:68-87 | a freed page leaves the indexes, keeps its place and its bytes, and waits behind the others of its process |
| `UcmEffects.DrainEffect` | src/ucm/mm-async.c:325-382 | the page that has waited longest is reset, goes in front of the free list of its tier, and its bytes are taken off |
| `UcmEffects.PromotionCandidate` | src/ucm/policy/migrate.c:15-43 | in page fields and numbers: no candidate if and only if every slow page of the process has migrated less than five epochs ago; otherwise one that may move, and none that may move is hotter |
| `UcmEffects.DemotionCandidate` | src/ucm/policy/migrate.c:45-73 | the same for fast pages below level 10, and none that may move is colder |
| `UcmEffects.TurnEffect` | src/ucm/migration.c:255-415 | every field, list and counter after a turn of either migration loop |
| `Ucm.Manager.constructor` | src/ucm/mm.c:189-221 | initialisation yields one free descriptor per huge page of each tier |
| `Ucm.Manager.InitFreeLists` | src/ucm/mm.c:189-221 | the two loops build descriptors and free lists in the order repeated enqueueing gives |
| `Ucm.Manager.AllocatePage` | src/ucm/policy/alloc.c:8-111 | preferring fast memory, the page is fast if and only if the process is below its limit and a fast page is free, and slow if and only if not and a slow page is free; preferring slow, slow if and only if a slow page is free, fast if and only if none is and a fast page is free; always the one free longest |
| `Ucm.Manager.AllocateMemory` | src/ucm/ucm.c:31-108 | every 2 MiB of the range, and nothing else, joins the address index; or -1, only when memory has run out, and a state that a drain makes equal to a drain without the request |
| `Ucm.Manager.DeallocateMemory` | src/ucm/ucm.c:148-176 | exactly the 2 MiB pages that the range touches leave the index, and the count returned is how many of them were indexed |
| `Ucm.BoundariesAre` | src/ucm/ucm.c:42-43 | an allocation visits every 2 MiB from the start while in the range |
| `Ucm.BoundariesTouch` | src/ucm/ucm.c:153-173 | a deallocation visits exactly the 2 MiB boundaries of the pages the range touches |
| `Ucm.Manager.DrainFreeRing` | src/ucm/mm-async.c:325-382 | the ring is drained page by page until empty |
| `Ucm.Manager.HandleRequest` | src/ucm/mm-async.c:384-513 | a freed page is left alone; any other is at the level asked for, in front of its list if it had to move, and nothing else has changed place |
| `Ucm.Manager.FindHottestSlow` | src/ucm/policy/migrate.c:15-43 | returns a slow page never migrated or not for five epochs, and none such is hotter; nothing only if there is none |
| `Ucm.Manager.FindColdestFast` | src/ucm/policy/migrate.c:45-73 | returns a fast page below level 10 never migrated or not for five epochs, and none such is colder; nothing only if there is none |
| `Ucm.Manager.MigrateTurn` | src/ucm/migration.c:255-415 | the candidate and the page of the other tier that has been free longest trade frames; a promoted page gets the level its counters give now, a demoted one keeps its level, and both go in front of their new lists; without a free page the candidate goes back in front of its list |
| `Ucm.Manager.MigrateBytes` | src/ucm/migration.c:255-415 | the bytes reported move from one counter to the other, one page per migration, within a page of the budget and the rate limit, and short of both only when no page is eligible or the other tier is full |
| `PageList.List.Enqueue` | src/ucm/ds/fifo.c:10-27 | the page becomes the first of a well-linked list |
| `PageList.List.Dequeue` | src/ucm/ds/fifo.c:29-53 | the last page is unlinked, or nothing is there |
| `PageList.List.Remove` | src/ucm/ds/fifo.c:55-87 | one page is unlinked wherever it is and the others keep their order |
| `PageList.List.NextPage` | src/ucm/ds/fifo.c:89-108 | the successor, the first page for null, nothing for a page of another list |
| `PageList.List.PrevPage` | src/ucm/ds/fifo.c:110-129 | the predecessor, the last page for null, nothing for a page of another list |
| `UcmLists.FreshRepresents` | src/ucm/mm.c:189-221 | empty list heads and fresh descriptors represent the empty lists of the specification |
| `UcmLists.EnqueuePage` | src/ucm/ds/fifo.c:10-27 | over all lists at once, linking a descriptor that is on none does what the specification does to its sequences, and every other list stays as it is |
| `UcmLists.DequeuePage` | src/ucm/ds/fifo.c:29-53 | so does unlinking the oldest, which is then on no list |
| `UcmLists.RemovePage` | src/ucm/ds/fifo.c:55-87 | so does unlinking a page wherever it is, which is then on no list |
| `UcmLists.UnlinkedIsFree` | src/ucm/ds/fifo.c:55-87 | no two lists, and no list twice, name a descriptor, so one that is unlinked can be linked again |
| `UcmLists.MovePage` | src/ucm/mm-async.c:82-142 | moving a page from one list to the front of another is the move of the specification |
| `PageIterator.VisitOrderIsHottestOldestFirst` | src/ucm/ds/page-iterator.c:30-67 | in the order of visit levels never rise, and within a level pages go from oldest to newest |
| `PageIterator.AllVisited` | src/ucm/ds/page-iterator.c:30-67 | every page of the levels is in the order of visit |
| `PageIterator.OrderHasNoRepeats` | src/ucm/ds/page-iterator.c:30-67 | no page is in it twice |
| `PageIterator.UnlinkKeepsRemaining` | src/ucm/ds/page-iterator.c:69-100 | unlinking a page that was handed out leaves the rest of the iteration as it was |
| `PageIterator.RevIterator.Advance` | src/ucm/ds/page-iterator.c:43-67 | the page after the one handed out is found before the caller can unlink that one |
| `PageIterator.RevIterator.Next` | src/ucm/ds/page-iterator.c:69-100 | hands out the pages in the order of visit, then null for ever |
| `PageIterator.VisitAll` | src/ucm/ds/page-iterator.c:30-100 | a caller that unlinks any of the pages as it is handed them still sees every page once, hottest level first, oldest first |
| `Hotness.LazyCoolingIsEager` | src/ucm/mm-async.c:411-416 | one shift by the clock difference equals halving at every tick |
| `Hotness.LevelMonotone` | src/ucm/core-util.c:6-15 | a larger counter never has a lower level |
| `Hotness.AccessLevel` | src/ucm/core-util.c:6-24 | level 0 is no access, level k from 1 to 10 is 2^(k-1) to 2^k - 1, level 11 is 1024 or more, of the sum in 64 bits |
| `Hotness.TickOfBothClocks` | src/ucm/core-util.c:17-24 | one tick of both clocks raises a page's level if and only if the 64-bit sum had wrapped to below 1024, and lowers it by at most two |
| `Hotness.WrapRaisesLevel` | src/ucm/core-util.c:17-24 | two counters at 2^63 have level 0, and level 11 after a tick |
| `Hotness.SampleIsLostExactlyWhen` | src/ucm/telem/handler/pebs.c:57-74 | a sample taken while a page lags counts if and only if the incremented counter is a multiple of 2 to the lag |
| `Hotness.LazyNeverExceedsEager` | src/ucm/telem/handler/pebs.c:57-74 | over any run the lazy counter never exceeds the eager one |
| `Hotness.LazyRunIsEager` | src/ucm/telem/handler/pebs.c:57-74 | runs that lose no sample cool lazily exactly as eagerly |
| `SpscRing.FullTestExact` | src/ucm/ds/spsc-ring.c:127-134 | the full test is right if and only if it is not made in its window |
| `SpscRing.EmptyTestExact` | src/ucm/ds/spsc-ring.c:121-125 | the emptiness test is right if and only if it is not made in its window |
| `SpscRing.StepKeepsInvExactlyWhen` | src/ucm/ds/spsc-ring.c:14-134 | a load or store keeps the ring a queue if and only if it does not decide inside a window |
| `SpscRing.StepRefinesQueue` | src/ucm/ds/spsc-ring.c:14-134 | outside the windows the store of head appends the item put, the store of tail takes the oldest item, and nothing else changes the queue |
| `SpscRing.SafeRunIsFifo` | src/ucm/ds/spsc-ring.c:14-134 | in every interleaving that stays outside, items are got in the order they were put, none twice and none skipped |
| `SpscRing.FifoExactlyOutsideTheWindows` | src/ucm/ds/spsc-ring.c:14-134 | a run that never decides inside a window never breaks the queue, and one that does can be continued after its first such step until the queue is broken |
| `SpscRing.OverrunLosesQueue` | src/ucm/ds/spsc-ring.c:93-105 | a put that passes its test in the window makes the ring read as empty with all slots waiting |
| `SpscRing.PhantomGet` | src/ucm/ds/spsc-ring.c:107-119 | a get whose test falls in the window takes an item from an empty ring |
| `SpscRing.FullWindowIsReachable` | src/ucm/ds/spsc-ring.c:14-34 | the first window is reached from a fresh ring |
| `SpscRing.EmptyWindowIsReachable` | src/ucm/ds/spsc-ring.c:14-34 | the second window is reached from a fresh ring |
| `SequentialRing.RingBuffer.Put` | src/ucm/ds/spsc-ring.c:85-91 | one call at a time: appends, dropping the oldest item of a full ring |
| `SequentialRing.RingBuffer.TryPut` | src/ucm/ds/spsc-ring.c:93-105 | appends if and only if the ring is not full |
| `SequentialRing.RingBuffer.Get` | src/ucm/ds/spsc-ring.c:107-119 | takes the oldest item, or reports an empty ring |
| `SequentialRing.RingBuffer.Size` | src/ucm/ds/spsc-ring.c:63-77 | the number of waiting items, except that a full ring reports its capacity |
| `KvTable.FindIsLookup` | apps/flexkvs/server/hashtable.c:140-174 | the search of slots and chain returns exactly what the map holds for the key |
| `KvTable.PutRefinesMap` | apps/flexkvs/server/hashtable.c:177-254 | a put keeps keys unique and only the last slot chained, and overwrites exactly its key; a compare-and-set either does that, for the item it names in a slot, or changes nothing |
| `KvTable.PutIs` | apps/flexkvs/server/hashtable.c:177-254 | which of replacing in a slot, replacing in the chain, inserting and nothing a put amounts to |
| `KvTable.FreeSlotIs` | apps/flexkvs/server/hashtable.c:194-197 | a new item goes into the last empty slot, and into the last slot only if none is empty |
| `KvLog.GetKeeps` | apps/flexkvs/server/hashtable.c:166-169 | a lookup keeps every count equal to the references held by table, queue and callers |
| `KvLog.PutKeeps` | apps/flexkvs/server/hashtable.c:177-254 | so does a put, plain or compare-and-set |
| `KvLog.ReleaseKeeps` | apps/flexkvs/server/iokvs.h:239-246 | so does letting go, which counts the bytes of a dead item as freed |
| `KvLog.EnqueueKeeps` | apps/flexkvs/server/iokvs.h:223-233 | so does taking a reference for the cleanup queue, if the item still has one |
| `KvStore.FreshAddress` | apps/flexkvs/server/ialloc.c:201-228 | the address a segment hands out next holds no item |
| `KvStore.AllocKeeps` | apps/flexkvs/server/ialloc.c:222-227 | a new item belongs to its caller alone and the segment's accounts stay balanced |
| `KvStore.FillKeeps` | apps/flexkvs/server/ialloc.c:206-220 | giving up a tail keeps offset equal to freed bytes plus bytes of live items |
| `KvStore.NothingLive` | apps/flexkvs/server/ialloc.c:440-446 | a segment whose bytes are all freed holds no item that table, queue or a caller refers to |
| `KvStore.RecycleKeeps` | apps/flexkvs/server/ialloc.c:171-192 | so reusing it loses nothing |
| `KvClean.RelocateKeeps` | apps/flexkvs/server/main.c:569-583 | moving one item elsewhere changes no key's value, whether or not the table still held it |
| `KvClean.CleanOneKeeps` | apps/flexkvs/server/main.c:567-585 | one turn of the cleaner keeps the counts and every value |
| `KvRuns.NextRefines` | apps/flexkvs/server/hashtable.c:140-254 | every operation does to the map of keys and values what its name says |
| `KvRuns.LookupReturns` | apps/flexkvs/server/hashtable.c:140-174 | a lookup returns an item with the map's value, or nothing if the map has none |
| `KvRuns.RunRefinesMap` | apps/flexkvs/server/hashtable.c:140-254 | after any run of requests, cleaning, scanning and reuse the store holds what the set requests say |
| `KvScan.FillerFitsExactly` | apps/flexkvs/server/ialloc.c:210-217 | the filler spans the tail if and only if its length fits in 16 bits; otherwise the scan lands short |
| `KvScan.ScanSegment` | apps/flexkvs/server/ialloc.c:479-496 | a scan from offset 0 visits exactly the items allocated in the segment, in order, then the filler, and ends at the size |
| `KvAlloc.SegmentForIs` | apps/flexkvs/server/ialloc.c:109-176 | a segment handed out is empty and nobody's, the first of the free list or else one never used; there is none if and only if the free list is empty and all are handed out |
| `KvAlloc.Room` | apps/flexkvs/server/ialloc.c:259-300 | an allocation fails if and only if it is not allowed or every segment is in use; otherwise the segment it is at has room and nothing anyone refers to changed |
| `KvAlloc.LiveElsewhere` | apps/flexkvs/server/ialloc.c:302-306 | an item with a reference lies neither in a free nor in the reserved segment |
| `KvAlloc.CleanLogKeepsContent` | apps/flexkvs/server/main.c:556-587 | cleaning any queue leaves every key with its value, whether each copy takes the item's place, loses to a newer one, meets a chained one, or finds no room; otherwise it takes off the queue what it was allowed to |
| `KvMaintain.BestIs` | apps/flexkvs/server/ialloc.c:448-456 | the candidate is the first of the segments with the most freed, and there is one whenever any is worth cleaning |
| `KvMaintain.DropKeeps` | apps/flexkvs/server/ialloc.c:440-447 | giving a dead segment to the free list keeps the allocator in order |
| `KvMaintain.QueueAllIs` | apps/flexkvs/server/ialloc.c:489-492 | the scan queues exactly the live items it passes, in order, and changes no value |
| `KvMaintain.ScanRunKeeps` | apps/flexkvs/server/ialloc.c:479-497 | from any offset of any segment the scan changes no value and only adds to the queue |
| `KvMaintain.ScanRunStops` | apps/flexkvs/server/ialloc.c:479-497 | from any offset it stops inside the segment: at its end, with the queue full, or astray |
| `KvMaintain.ScanRunInOrder` | apps/flexkvs/server/ialloc.c:479-497 | from an item boundary of a full segment it never goes astray and passes the items in order |
| `KvSteady.CleanLogSteady` | apps/flexkvs/server/main.c:556-587 | cleaning leaves the scan of a segment where it was and every filler spanning its tail |
| `KvRelocate.RelocateRedirects` | apps/flexkvs/server/main.c:569-583 | copying an item makes the table lead to the copy if and only if it led to the item by a slot; every other item, key and value is as before |
| `KvRelocate.TurnHandles` | apps/flexkvs/server/main.c:567-585 | a turn that finds room: an item with no other reference dies; one the table held in a slot loses two references and its key leads to a copy with the same value in the current segment; any other loses one; nothing else changes or revives |
| `KvRelocate.TurnFrees` | apps/flexkvs/server/main.c:584 | an item left without a reference adds its size to the bytes freed in its segment |
| `KvRelocate.CleaningEmpties` | apps/flexkvs/server/main.c:556-587 | cleaning the whole queue leaves a segment dead if its live items are queued once, in nobody's hands and in slots as far as the table has them |
| `KvRelocate.ScanAndCleanEmpty` | apps/flexkvs/server/ialloc.c:479-497 | a segment whose live items are all in slots, scanned through and its queue cleaned with room for every copy, is dead |
| `KvSteady.RoundSteady` | apps/flexkvs/server/ialloc.c:419-498 | after a round of maintenance the scan is in order if and only if the round did not start with a chosen, unscanned, dead segment and a full queue |
| `KvSteady.ReuseKeepsScanExactlyWhen` | apps/flexkvs/server/ialloc.c:115-127 | handing out the segment being scanned leaves the scan in order if and only if it was through |
| `KvSteady.ScanRunsPastTheItems` | apps/flexkvs/server/ialloc.c:479-496 | otherwise the scan comes to bytes that nobody has written |
| `KvSteady.RoundIsLoose` | apps/flexkvs/server/ialloc.c:461-497 | wherever the scan is, a round changes no value, keeps every filler spanning its tail and leaves the scan inside its segment; astray means at bytes that are neither an item nor a filler |
| `KvProgram.Store.constructor` | apps/flexkvs/server/ialloc.c:231-257 | an empty table, a segment to allocate from and one in reserve are in order, with no scan under way |
| `KvProgram.Store.HashtGet` | apps/flexkvs/server/hashtable.c:140-174 | walking slots and next pointers returns what the map holds, with a reference for the caller |
| `KvProgram.Store.HashtPut` | apps/flexkvs/server/hashtable.c:177-254 | walking slots and next pointers does what the specification of put says, and the map changes at its key or not at all |
| `KvProgram.Store.IallocAlloc` | apps/flexkvs/server/ialloc.c:259-300 | null if and only if there is no room; otherwise one new item, behind the last of the current segment if it fits and else at the start of the first free segment, of one never used, or for the cleaner of the reserve; the second attempt cannot fail |
| `KvProgram.Store.CleanupItem` | apps/flexkvs/server/ialloc.c:317-339 | the next queued item, within a request's share of 32; the reserve is missing afterwards only if no segment is left |
| `KvProgram.Store.CleanNext` | apps/flexkvs/server/main.c:566-586 | one turn does to the item it takes off the queue what TurnHandles says |
| `KvProgram.Store.RunCleaner` | apps/flexkvs/server/main.c:556-587 | the loop keeps every value, takes 32 items off the queue or when idle all, and stops early only for want of room; when idle it leaves every segment dead that it could empty |
| `KvProgram.Store.GetOrderly` | apps/flexkvs/server/hashtable.c:140-174 | a lookup leaves the scan of a segment in order if it was, and the rest of the store in order either way |
| `KvProgram.Store.PutOrderly` | apps/flexkvs/server/hashtable.c:177-254 | so does a put |
| `KvProgram.Store.LetGoOrderly` | apps/flexkvs/server/iokvs.h:239-246 | so does letting go of an item |
| `KvProgram.Store.AllocOrderly` | apps/flexkvs/server/ialloc.c:259-300 | so does an allocation, and every filler spans its tail while no request exceeds a header and 65536 bytes |
| `KvProgram.Store.CleanOrderly` | apps/flexkvs/server/main.c:556-587 | so does the cleaner |
| `KvProgram.Store.Sweep` | apps/flexkvs/server/ialloc.c:425-459 | exactly the dead segments older than the current one go to the free list, the others keep their order, and the best to clean is found |
| `KvProgram.Store.ScanOn` | apps/flexkvs/server/ialloc.c:479-497 | from any offset the loop computes the specified scan; from an item boundary of a full segment it goes on, without going astray, until the queue is full or the segment is through |
| `KvProgram.Store.Maintain` | apps/flexkvs/server/ialloc.c:419-498 | a round frees dead segments and goes on with the scan, wherever that is; its length comes from the segment scanned before, so a round that begins with none only chooses one; no value changes; a scan in order does not go astray, and stays in order if and only if the round did not start at the hazard |
| `KvHazard.ReachHazard` | apps/flexkvs/server/ialloc.c:434-472 | the hazard is reached from an empty store by four allocations, two releases and three rounds, for any table size, any cleaning ratio up to 0.9 (the default is 0.8) and four segments or more, with a queue of one |
| `KvHazard.HazardLeadsAstray` | apps/flexkvs/server/ialloc.c:419-498 | the whole run in one: from the empty store to the hazard, and from there to a round that reads bytes nobody has written |
| `JenkinsHash.RotRotates` | apps/flexkvs/server/jenkins_hash.c:34 | the macro is a rotation: the bits that leave on the left come back on the right |
| `JenkinsHash.MixAsWritten` | apps/flexkvs/server/jenkins_hash.c:80-88 | the rounds of the model are the eighteen assignments |
| `JenkinsHash.MixIsBijective` | apps/flexkvs/server/jenkins_hash.c:36-41 | mixing is a bijection on three 32-bit words |
| `JenkinsHash.RoundsAreBijective` | apps/flexkvs/server/jenkins_hash.c:80-88 | so is any sequence of its rounds, whatever the rotations |
| `JenkinsHash.FinalAsWritten` | apps/flexkvs/server/jenkins_hash.c:115-124 | the steps of the model are the seven lines of final |
| `JenkinsHash.FinalIsBijective` | apps/flexkvs/server/jenkins_hash.c:115-124 | what final does to the three words can be undone |
| `JenkinsHash.TailWord32` | apps/flexkvs/server/jenkins_hash.c:165-182 | masking a whole word adds exactly the bytes of the key in it |
| `JenkinsHash.Hash32` | apps/flexkvs/server/jenkins_hash.c:138-182 | the aligned path computes the hash of the key's bytes |
| `JenkinsHash.Hash16` | apps/flexkvs/server/jenkins_hash.c:206-252 | so does the 16-bit path |
| `JenkinsHash.Hash8` | apps/flexkvs/server/jenkins_hash.c:253-298 | so does the byte path |
| `JenkinsHash.HashAsWritten` | apps/flexkvs/server/jenkins_hash.c:127-298 | 0xdeadbeef for the empty key; otherwise three words of 0xdeadbeef plus the length, the key added in blocks of twelve little-endian bytes, the eighteen assignments of mix after each block but the last and the seven lines of final after that |
| `JenkinsHash.TrailingZerosTell` | apps/flexkvs/server/jenkins_hash.c:134-135 | a key of at most twelve bytes and the same key with zeros behind it reach final in different states |
| `JenkinsHash.JenkinsHash` | apps/flexkvs/server/jenkins_hash.c:127-298 | whatever the address of the key the result is the hash of its bytes alone, as HashAsWritten spells it out: the paths agree and nothing past the end matters |
| `Bitops.LowMaskValue` | libs/util/bitmap.c:447-465 | the masks of low bits have the value 2^k - 1 the code computes them as |
| `Bitops.FindNextBit` | libs/util/bitops.c:19-77 | the least set bit at or after the offset, or the size if there is none |
| `Bitops.FindNextZeroBit` | libs/util/bitops.c:83-125 | the least clear bit at or after the offset, or the size |
| `Bitops.FindLastBit` | libs/util/bitops.c:127-153 | the greatest set bit, or the size |
| `Bitmap.Assign` | libs/util/bitmap.c:153-231 | setting or clearing a range changes exactly the bits of the range |
| `Bitmap.RangeIsBits` | libs/util/bitmap.c:153-231 | the same, bit by bit |
| `Bitmap.AlignUpIsLeast` | libs/util/bitmap.c:354-355 | aligning gives the least multiple at or above |
| `Bitmap.FindNextZeroArea` | libs/util/bitmap.c:347-367 | terminates with the least aligned free run at or after the start, or above the size if and only if there is none |
| `BitmapCopy.CopyFromOffset` | libs/util/bitmap.c:433-467 | the destination gets exactly the bits from the offset on |
| `BitmapCopy.CopyToOffset` | libs/util/bitmap.c:474-509 | the bits arrive at the offset and those below it are kept |
| `BitmapCopy.ThereAndBack` | libs/util/bitmap.c:433-509 | for all offsets and lengths, copying out and back gives the original bits |
| `CxlDevice.OrIsSum` | libs/cxl-dev/cxl-dev.c:276-395 | the parts of an address and of a table entry have no bit in common, so or-ing them is adding them |
| `CxlDevice.AddressesAsWritten` | libs/cxl-dev/cxl-dev.c:276-411 | the route and sub-address of every register are the bits the driver sets: 17 or 19, the pipeline from 13 on, the field or the entry from 3 on |
| `CxlDevice.SystemAddressesAsWritten` | libs/cxl-dev/cxl-dev.c:216-227 | the selector and the control path are at bit 18 and 0x20 or 0x28 |
| `CxlDevice.AddressInjective` | libs/cxl-dev/cxl-dev.c:276-411 | no two registers share a route and a sub-address |
| `CxlDevice.PlainRunHoldsLastSet` | libs/cxl-dev/cxl-dev.c:245-259 | without elision every register holds the last value set |
| `CxlDevice.SetKeepsExact` | libs/cxl-dev/cxl-dev.c:276-411 | setting a register and its shadow disturbs no other |
| `CxlDevice.SelectorCanStayElsewhere` | libs/cxl-dev/cxl-dev.c:229-235 | a skipped write can leave the selector where the unskipped one would not |
| `CxlDevice.DecodeRoundTrip` | libs/cxl-dev/cxl-dev.c:384-464 | an entry is written with bit 13 set and read back; a cleared one is invalid |
| `CxlDevice.FullTableFitsExactly` | libs/cxl-dev/cxl-dev.c:362-376 | the identity table fits if and only if the two shifts agree |
| `CxlDevice.TranslationCovers` | libs/cxl-dev/cxl-dev.c:362-376 | the largest entry is such that the entries, each 2^d counters wide, are the 8192 counters |
| `CxlDevice.PopCountOne` | libs/cxl-dev/cxl-dev.c:669-672 | exactly one bit is set in the powers of two |
| `CxlDevice.Fpga.Do` | libs/cxl-dev/cxl-dev.c:276-411 | one call leaves the registers as without elision; the selector too if and only if the write was not skipped or the selector was already there |
| `CxlDevice.Fpga.Run` | libs/cxl-dev/cxl-dev.c:229-411 | any run of calls leaves every shadow exact and the registers as the same calls without elision would |
| `CxlDevice.Fpga.InitFpga` | libs/cxl-dev/cxl-dev.c:536-574 | brings a device in any state under control: every shadow exact, every register zero |
| `CxlDevice.Fpga.GetTranslation` | libs/cxl-dev/cxl-dev.c:450-468 | the translation the shadow reports is the one the device applies |
| `CxlDevice.Fpga.InstallPipeline` | libs/cxl-dev/cxl-dev.c:653-735 | finishes if and only if the sampling mask is one below a power of two and the shifts agree; then the table is the identity, and other pipelines are never touched |

## Findings

Where a property turned out false of the code, the model follows the code, and the exact condition is
proved.

- The ring is not a FIFO in every interleaving (src/ucm/ds/spsc-ring.c:121-134). Two tests can decide
  in a window where an index equals the capacity: the full test when
  `head + 1 == capacity && tail == capacity`, the emptiness test when `head == capacity && tail == 0`.
  `SpscRing.FifoExactlyOutsideTheWindows` is the exact statement, and both windows are reached from a
  fresh ring of two slots.
- Demoting a page that waits to be freed breaks the invariant exactly when a free slow page exists
  (src/ucm/migration.c:284-308, `UcmMigration.DemotionIsSafeExactlyWhen`).
- Promoting a page that waits to be freed deletes an entry of the offset index that is no longer there
  (src/ucm/mm.c:111-116). The delete is not guarded and the macro assumes a linked element
  (src/ucm/ds/uthash.h:502-534), so what follows is undefined. The entry is there exactly when the page
  is not waiting (`UcmMigration.PromotionIsDefinedExactlyWhen`).
- The sum of the two access counters is taken in 64 bits, so a tick of cooling can raise the level of a
  page (src/ucm/core-util.c:17-24, `Hotness.TickOfBothClocks`).
- A sample is added before the counter is brought up to date, so a sample taken while a page lags is
  usually lost (src/ucm/telem/handler/pebs.c:57-74, `Hotness.SampleIsLostExactlyWhen`).
- A page migrated in epoch 0 counts as never migrated (src/ucm/policy/migrate.c:30-34), so it can
  migrate twice in that epoch (`UcmRuns.MigratedTwiceInEpochZero`). From epoch 1 on the spacing holds
  (`UcmRuns.MigrationsAreSpaced`).
- Unmapping a page during its migration, before the remap, brings the page back (src/ucm/ucm.c:161-173,
  src/app/remap.c:33-65, `MigrationProtocol.FreeDuringMigrationIsVisible`).
- Write elision can leave the selector register elsewhere than plain writes would; the configuration
  registers never differ (libs/cxl-dev/cxl-dev.c:229-235, `CxlDevice.Fpga.Do`).
- The filler at the end of a segment stores its length in 16 bits
  (apps/flexkvs/server/ialloc.c:210-217, `KvScan.FillerFitsExactly`). It fits as long as no request
  exceeds a header and 65536 bytes (`KvProgram.Store.AllocOrderly`).
- A segment chosen for cleaning while the queue is full, and dead before its scan begins, is freed with
  the scan still at its start (apps/flexkvs/server/ialloc.c:440-472). Once it is handed out again the
  scan reads bytes that nobody has written. `KvSteady.RoundSteady` is exact, once a scan has begun this
  cannot happen, and `KvHazard.HazardLeadsAstray` is a run from the empty store that does it.
- A compare-and-set put replaces only an item in a direct slot; for a chained item it changes nothing
  (apps/flexkvs/server/hashtable.c:194-217, `KvTable.PutRefinesMap`).
- A round of maintenance that begins without a segment under scan chooses one and queues nothing,
  because the length of the scan was taken before the choice
  (apps/flexkvs/server/ialloc.c:462-465, `KvProgram.Store.Maintain`).
- Comments and code disagree about demotion: the comment allows a page at or below level 10, the loop
  stops below it (src/ucm/policy/migrate.c:8-9 and 50). The model follows the loop.

## Left out

- The branch for an application that exits during a remap, and the teardown of processes.
- Allocation on a missing-page fault, which puts the page on no hotness list.
- Mutexes. Operations of the manager, of the store and of maintenance are atomic, and lock balance is
  not claimed.
- The cooling bookmark and the incremental cooling loop. Access counters appear in Hotness; in the
  manager they are a count of samples, and the level a page gets is any level `access_to_index` returns.
- The thresholds that bound how many hot and cold requests are handled at a time, and `ring_present`.
- Waiting for room in a full free ring; the ring of each process is a sequence.
- `Ucm.Manager` keeps its lists as sequences in a map. UcmLists proves that the linked lists represent
  them under every list operation; the manager's methods are not repeated over the linked form.
- The array of page records that an allocation sends back to the application.
- Several remap requests in one read, and the timeout of the wait for a migration.
- Wrap-around of 16-bit reference counts, of 64-bit byte counters and of bitmap indexes; shifts by 64 or
  more.
- Unmapping a page after its migration has remapped it and before the migration ends, as a step of the
  protocol.
- FlexKVS deletion, updates in place and connections. The cleanup ring is a sequence with a capacity,
  addresses are pairs of a segment and an offset, and a freed segment keeps its accounts until it is
  handed out.
- KvRelocate.TurnFrees: says nothing of an item in the current segment, where the same turn may add the
  copy and give up the tail; the scan queues items of full segments only.
- KvProgram.Store.Maintain: reports that the scan has gone astray and stops there, where the program
  takes what it finds for an item, because that depends on stale bytes.
- `install_skew`, clearing of counters and reading of device state.
- Sockets, memory mapping, statistics, logging, option parsing, benchmarks and plotting.
- Workload distributions: floating point.
