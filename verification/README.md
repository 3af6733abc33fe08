# Oceanic kernel, verified core

This project models the parts of the Oceanic x86-64 microkernel whose correctness does not depend on the
hardware, and proves what they promise. Each component has its own modules:

- **Work queues** (`Deque.dfy`, `DequeReturns.dfy`, `DequeCalls.dfy`; `Injector.dfy`, `InjectorFates.dfy`,
  `InjectorCalls.dfy`, `InjectorProgress.dfy`). The FIFO worker/stealer deque and the block-linked injector, as state
  machines of sequentially consistent atomic steps. The theorems speak about every interleaving of one owner and any
  number of stealers, or of any number of pushers and stealers: what was returned to whom, which calls took effect,
  and that nobody waits for a thread that is gone.
- **Physical pages** (`Buddy.dfy`, `Pmm.dfy`). Order tags, XOR buddies and free lists. `BuddyTags` holds the
  theory of well-formed tags; `Pmm.Manager` is the allocator that updates tags and lists in place.
- **Page tables** (`PageEntry.dfy`, `PageTree.dfy`, `PagePlan.dfy`, `Paging.dfy`, `PageSplit.dfy`, `PageCuts.dfy`,
  `PageErrors.dfy`, `PageRollback.dfy`). Four-level paging as in section 4.5 of the Intel SDM, Volume 3A: a tree of
  tables, a translation function, the pages the allocator handed out for tables, and what failing calls leave.
- **Hash map** (`Buckets.dfy`, `CHashMap.dfy`). Linear probing with tombstones, growing and shrinking, refined
  to a plain map for any hash function.
- **Boot filesystem** (`BootfsBytes.dfy`, `BootfsTree.dfy`, `BootfsImage.dfy`, `BootfsParse.dfy`,
  `BootfsGen.dfy`). The breadth-first image generator and the parser that undoes it.
- **Scheduling** (`SchedCpu.dfy`, `Scheduler.dfy`, `SchedMoves.dfy`, `SchedObject.dfy`, `SelectCpu.dfy`). The steps
  of one CPU, any number of CPUs as a state machine, where each move puts its tasks, one CPU's scheduler as the object
  it is, and the choice of a CPU from the published loads.
- **Waking** (`Timers.dfy`, `Waits.dfy`, `TimerCalls.dfy`; `Dispatcher.dfy`, `DispatcherDrains.dfy`,
  `DispatcherCalls.dfy`). Timers, wait queues, futexes and the bounded completion queue, with every shared access a
  separate step, and the loops as they run alone.
- **Placement and clock** (`Placement.dfy`, `Clock.dfy`). Randomised address placement, and the factor that turns
  ticks into nanoseconds.

`Bits.dfy` holds the bit arithmetic on unbounded naturals and `Types.dfy` the two result types. Random numbers,
clock readings, the hash function, the page allocator's supply and the interleaving are parameters.

## What the code does differently from what one would expect

- `alloc_pages_exact(0)` wraps to order 0: it answers an address while the set of free pages stays as it was.
- A 4 KiB mapping with the `LARGE_PAT` attribute and an even frame translates to the next page
  (`PageEntry.EntryRoundTrip` and `Paging.MapsTranslates` give the exact target, `PageSplit.LargePatMoves` an
  instance).
- Splitting a large leaf keeps bit 7, which means `PAT` in the pieces, and a leaf with `LARGE_PAT` has its pieces
  shifted by one page (`PageSplit.PieceTranslates`, with the instance `PageSplit.LargePatSplits`). The entry is
  cleared before the table for the pieces is allocated, so with no page left the whole leaf is lost
  (`PageSplit.SplitWithoutPage`).
- The 2 MiB pieces of a 1 GiB leaf all come out with `LARGE_PAT`, because its bit 7 is read as `PAT`; split again, they
  send every remaining 4 KiB page one page too far (`PageCuts.GigabyteCut`, with the instance
  `PageCuts.DoubleSplitMoves`).
- `query` adds bits 48 to 63 of the virtual address to the physical one; `Paging.MapsTranslates` states the sum,
  which is the promised address in the lower half.
- `new_page` looks for a page of the level asked for or a larger one only: an address mapped by smaller pages is mapped
  over, and their table is lost (`PageErrors.MappedOverIff`, with the instance `PageErrors.LargeOverSmall`).
- A failed `maps` unmaps what it had mapped, but with levels chosen from the length of that part.
  `PageRollback.RollbackIff` gives the exact condition under which every translation is as before;
  `PageRollback.RollbackFails` is a call that leaves pages mapped.
- Every tick charges a task the whole time since it was switched to, so a task that keeps its CPU is charged more than
  it ran as soon as two ticks find it running (`SchedMoves.TicksCharge`, `SchedMoves.ChargeExactIff`,
  `SchedMoves.ChargedTwice`).
- `shrink` leaves a table exactly as large as its contents, so the retry in `insert` is a real path. With fewer
  slots than entries it would drop entries that `len` still counts (`CHashMap.HashMap.Shrink`).
- `name_eq` accepts a path component followed by NULs (`BootfsParse.NameEqIff`).
- The running-state union encodes a clock reading of zero as "not running"; readings are positive here.
- A futex requeued onto itself turns round and reports every turn (`Waits.WaitSystem.Requeue`).
- `try_find_alloc` subtracts rounded ends without looking: with an alignment above a page, a gap without an
  aligned address yields numbers for addresses outside the range. `Placement.NumbersFitIffGood` gives the exact
  condition and `Placement.SmallGapMisleads` an instance.
- `find_alloc` takes a remainder by zero exactly when nothing fits and no gap lacks an aligned address
  (`Placement.FindAlloc`).

## Model

| member | source | states |
|---|---|---|
| `Deque.HandOutsFollowPushes` | h2o/kernel/src/sched/imp/deque.rs:640-683 | after any interleaving the i-th hand-out is the i-th pushed task (unread only while the owner's pop stands between its `fetch_add` and its read), and every task not handed out is intact in the live buffer |
| `DequeCalls.PushesTakeEffect` | h2o/kernel/src/sched/imp/deque.rs:402-432 | over every interleaving the tasks pushed are those of the pushes that began, in order, growing or not; only the one still under way is missing |
| `DequeCalls.PopsAnswer` | h2o/kernel/src/sched/imp/deque.rs:449-487 | every pop that began has answered or is under way |
| `DequeCalls.OwnerGoes` | h2o/kernel/src/sched/imp/deque.rs:294-487 | every step of the owner's own brings its call, resizes included, nearer to the end, and no stealer sets it back |
| `DequeCalls.PushAlone` | h2o/kernel/src/sched/imp/deque.rs:402-432 | a push left alone finishes: its task alone is added, and the buffer has doubled exactly when it was full |
| `DequeCalls.PopAlone` | h2o/kernel/src/sched/imp/deque.rs:449-487 | a pop left alone answers the oldest task or that there is none; the buffer has been halved exactly when it was above the least capacity and at most a quarter full |
| `DequeCalls.StealAlone` | h2o/kernel/src/sched/imp/deque.rs:640-683 | a steal left alone never retries, whatever the owner is in the middle of: it takes the oldest task or reports that there is none |
| `Deque.QuiescentPrefix` | h2o/kernel/src/sched/imp/deque.rs:402-487 | between the owner's calls the hand-outs, whoever got them, are a prefix of the pushes |
| `DequeReturns.EachReturnedOnce` | h2o/kernel/src/sched/imp/deque.rs:402-683 | over every interleaving the returned hand-outs have pairwise different numbers, each returned value is the task pushed under its number, and between the owner's calls every hand-out has been returned |
| `DequeReturns.ReturnsAreHonest` | h2o/kernel/src/sched/imp/deque.rs:449-487 | what a taker shows is its own hand-out, so two takers never show the same one; a pop that returns nothing found all tasks handed out; a steal that reports empty saw the queue empty when it loaded `front` |
| `Deque.PopKeeps` | h2o/kernel/src/sched/imp/deque.rs:453-476 | a pop that overshoots `front` and restores it breaks nothing: the protocol invariant survives each of its steps |
| `Deque.PushKeeps` | h2o/kernel/src/sched/imp/deque.rs:402-432 | each step of a push, a growing one included, keeps the invariant; what becomes of its task is `DequeCalls.PushesTakeEffect` |
| `Deque.ResizeStartKeeps` | h2o/kernel/src/sched/imp/deque.rs:294-310 | a resize starts from indices under which every unclaimed task fits the new buffer |
| `Deque.ResizeCopyKeeps` | h2o/kernel/src/sched/imp/deque.rs:303-325 | each copied element and the final swap keep every unclaimed task while stealers go on |
| `Deque.StealKeeps` | h2o/kernel/src/sched/imp/deque.rs:640-683 | every step of a stealer keeps the invariant, whatever the owner is in the middle of |
| `Deque.RunKeeps` | h2o/kernel/src/sched/imp/deque.rs:402-683 | the invariant holds along every run |
| `Injector.NoUseAfterFree` | h2o/kernel/src/sched/imp/deque.rs:1188-1206 | in every reachable state the block any pusher or stealer touches next exists and has not been freed |
| `Injector.FreedAtMostOnce` | h2o/kernel/src/sched/imp/deque.rs:1188-1206 | at most one thread destroys a block, it is freed at most once, and only after every slot was written and all but the last marked read |
| `InjectorFates.FreedExactlyOnce` | h2o/kernel/src/sched/imp/deque.rs:1188-1206 | no leak: in every reachable state where nobody is inside a steal, each block the head has passed has been freed exactly once |
| `InjectorFates.StealsFollowPushes` | h2o/kernel/src/sched/imp/deque.rs:1368-1444 | over every interleaving successful steals return pairwise different numbers, each to the thread that claimed it and with the task pushed under it; with nobody inside a steal exactly the numbers below the head's have been returned; a steal that reports empty had every pushed task claimed |
| `Injector.LenCounts` | h2o/kernel/src/sched/imp/deque.rs:1807-1840 | the index arithmetic of `len` is the number of tasks pushed and not claimed |
| `Injector.LenIsExact` | h2o/kernel/src/sched/imp/deque.rs:1807-1840 | with any steps between its three loads, `len` returns the number of tasks that were in the queue when the head was loaded, once the second load of the tail agrees with the first |
| `Injector.ClaimTail` | h2o/kernel/src/sched/imp/deque.rs:1293-1351 | claiming the tail slot keeps the invariant of the whole queue |
| `Injector.ClaimHead` | h2o/kernel/src/sched/imp/deque.rs:1368-1416 | claiming the head slot keeps the invariant of the whole queue |
| `Injector.MarkedBlock` | h2o/kernel/src/sched/imp/deque.rs:1436-1443 | a reader that marks its slot and finds `DESTROY` takes over the destruction, once |
| `Injector.SweptBlock` | h2o/kernel/src/sched/imp/deque.rs:1188-1206 | a destroyer that meets an unread slot hands the destruction to that slot's reader |
| `Injector.RunKeeps` | h2o/kernel/src/sched/imp/deque.rs:1293-1444 | the invariant holds along every run |
| `InjectorCalls.PushesTakeEffect` | h2o/kernel/src/sched/imp/deque.rs:1293-1351 | over every interleaving the queue is what the pushers' steps appended, and what a thread appended are the tasks of its pushes, in order; only one without a position yet is missing |
| `InjectorProgress.RunOwed` | h2o/kernel/src/sched/imp/deque.rs:1293-1444 | a position claimed for writing is published or its pusher under way, a block left by the tail is linked or about to be, and an index at a block's end is being moved on |
| `InjectorProgress.AllPublished` | h2o/kernel/src/sched/imp/deque.rs:1293-1351 | with no push under way every position before the tail holds its task, published, and every block is linked to the next |
| `InjectorProgress.PushGoes` | h2o/kernel/src/sched/imp/deque.rs:1326-1343 | a pusher past its claim finishes in at most five steps of its own, whatever others do |
| `InjectorProgress.StealGoes` | h2o/kernel/src/sched/imp/deque.rs:1416-1444 | a stealer past its claim gets nearer to returning that claim with every step, unless it waits for a pusher |
| `InjectorProgress.PushAlone` | h2o/kernel/src/sched/imp/deque.rs:1293-1351 | a push left alone while nobody else installs a block finishes: its task is last in the queue, and published |
| `InjectorProgress.StealAlone` | h2o/kernel/src/sched/imp/deque.rs:1368-1444 | a steal left alone, with no push under way, never retries: it takes the oldest task or reports that there is none |
| `BuddyTags.BuddyArith` | h2o/libs/pmm/src/buddy.rs:437-470 | the XOR buddy and the AND of the pair are the neighbour and the start of the doubled block, inside the same zone |
| `BuddyTags.StaysInZone` | h2o/libs/pmm/src/buddy.rs:140-160 | no aligned block crosses the 4 GiB boundary |
| `BuddyTags.InOneBlock` | h2o/libs/pmm/src/buddy.rs:390-413 | a free aligned run always lies inside one free block, so fragmentation never hides it |
| `BuddyTags.Canonical` | h2o/libs/pmm/src/buddy.rs:488-527 | a page heads a free block of an order if and only if its aligned run is free and, below the largest order, the doubled run around it is not |
| `BuddyTags.SameFreeSameTags` | h2o/libs/pmm/src/buddy.rs:488-527 | the set of free pages alone determines every order tag |
| `BuddyTags.WithWf` | h2o/libs/pmm/src/buddy.rs:519-526 | linking a block whose buddy is not free at its order keeps all tags disjoint, aligned and merged |
| `BuddyTags.WithFree` | h2o/libs/pmm/src/buddy.rs:519-526 | it frees exactly the pages of that block |
| `BuddyTags.WithoutFree` | h2o/libs/pmm/src/buddy.rs:390-413 | unlinking a block takes exactly its pages out of the free set |
| `Pmm.NothingFits` | h2o/libs/pmm/src/buddy.rs:390-413 | when every list from the order up is empty the zone has no aligned free run of that order |
| `Pmm.SameFreeSameLists` | h2o/libs/pmm/src/buddy.rs:488-527 | the free pages determine every free list as a set |
| `Pmm.ChunkFits` | h2o/libs/pmm/src/buddy.rs:660-676 | the chunk chosen by trailing zeros and length is aligned, inside the range and inside one zone |
| `Pmm.Manager.AllocTyped` | h2o/libs/pmm/src/buddy.rs:390-413 | fails exactly when the zone has no aligned free run of that order; otherwise takes exactly such a run, from the front of the smallest sufficient list, and every list keeps its order with new blocks behind |
| `Pmm.Manager.SplitPage` | h2o/libs/pmm/src/buddy.rs:350-372 | frees exactly the pages above the lower order, each half at the back of its list, with no assertion on a tag failing |
| `Pmm.Manager.DeallocTyped` | h2o/libs/pmm/src/buddy.rs:488-527 | frees exactly the block's pages, merging as far as possible, the result at the back of its list, with no assertion on a tag failing |
| `Pmm.Manager.AllocPages` | h2o/libs/pmm/src/buddy.rs:538-553 | fails exactly when no allowed zone has a run; without a named zone the low one is used only when the high one has none |
| `Pmm.Manager.AllocExact` | h2o/libs/pmm/src/buddy.rs:591-634 | takes exactly n pages, for every 64-bit n, all in the zone asked for, and fails exactly when no run of the covering order exists |
| `Pmm.Manager.DeallocExact` | h2o/libs/pmm/src/buddy.rs:654-681 | terminates and frees exactly the n given pages, whatever their alignment and zones |
| `Pmm.Manager.RoundTrip` | h2o/libs/pmm/src/buddy.rs:390-527 | allocating a block and freeing it restores every free list as a set |
| `Pmm.Manager.ExactRoundTrip` | h2o/libs/pmm/src/buddy.rs:624-681 | the same for an exact number of pages |
| `Bits.Log2cIsLeast` | h2o/libs/bitop_ex/src/lib.rs:52-73 | `log2c` is the least order that holds n pages, and 0 for zero after wrapping |
| `Bits.MaskIsMod` | h2o/kernel/src/sched/imp/deque.rs:62-66 | masking an index with a power of two less one is the remainder |
| `Bits.AlignedIsMultiple` | h2o/libs/pmm/src/buddy.rs:437-470 | the alignment of blocks, read off their low bits, is divisibility by their size |
| `Buckets.FindRead` | h2o/libs/collection_ex/src/chash_map/inner.rs:106-121 | finds a slot with the key, or no slot has it |
| `Buckets.Locate` | h2o/libs/collection_ex/src/chash_map/inner.rs:158-176 | finds the key's slot whenever the key is present, else the first free slot of its path, which keeps it reachable, else the table is full of data |
| `Buckets.StopsAtEmpty` | h2o/libs/collection_ex/src/chash_map/inner.rs:158-176 | a key not met before the first empty slot of its path is nowhere |
| `Buckets.FindFree` | h2o/libs/collection_ex/src/chash_map/inner.rs:140-156 | finds the first free slot of the key's path, which keeps it reachable, unless every slot holds data |
| `Buckets.MoveFrom` | h2o/libs/collection_ex/src/chash_map/inner.rs:178-189 | rehashing keeps exactly the contents, or, when the new table is too small, exactly the first entries that fill it |
| `Buckets.CountIsSize` | h2o/libs/collection_ex/src/chash_map.rs:93-95 | the number of data slots is the size of the map |
| `CHashMap.HashMap.Insert` | h2o/libs/collection_ex/src/chash_map.rs:176-207 | the map gains or replaces the binding, the old entry is returned, the retry after growing always succeeds, and the capacity grows exactly when a new key makes the table 70% full or finds it full |
| `CHashMap.HashMap.Get` | h2o/libs/collection_ex/src/chash_map.rs:140-152 | returns the map's value for the key |
| `CHashMap.HashMap.RemoveEntryIf` | h2o/libs/collection_ex/src/chash_map.rs:257-279 | removes and returns the entry if and only if it is there and wanted, and shrinks exactly a table left less than 35% full |
| `CHashMap.HashMap.TryRemoveEntry` | h2o/libs/collection_ex/src/chash_map.rs:281-306 | tells missing, refused and removed apart and changes the map only when removed |
| `CHashMap.HashMap.RetainMut` | h2o/libs/collection_ex/src/chash_map.rs:347-364 | keeps exactly the wanted bindings, with their changed values |
| `CHashMap.HashMap.Take` | h2o/libs/collection_ex/src/chash_map.rs:102-113 | hands over the whole map and leaves an empty one |
| `CHashMap.HashMap.Grow` | h2o/libs/collection_ex/src/chash_map.rs:115-126 | loses nothing |
| `CHashMap.HashMap.Shrink` | h2o/libs/collection_ex/src/chash_map.rs:128-138 | gives exactly the capacity asked for or eight, and loses nothing if and only if the entries fit |
| `CHashMap.SweptIsRetained` | h2o/libs/collection_ex/src/chash_map.rs:347-364 | clearing slots one by one is filtering the map |
| `CHashMap.PerformAll` | h2o/libs/collection_ex/src/chash_map.rs:102-364 | over any sequence of calls, all the modelled ones among them, every result and the final contents are those of a plain map |
| `PageEntry.FitAll` | h2o/libs/paging/src/level.rs:33-41 | the chosen level divides the start, the length and the physical start |
| `PageEntry.FitAllLargest` | h2o/libs/paging/src/level.rs:18-41 | and no larger one does |
| `PageEntry.EntryRoundTrip` | h2o/libs/paging/src/entry.rs:129-160 | the rights survive an entry, and an aligned address does too, except that `LARGE_PAT` on a 4 KiB page with an even frame moves it by one page |
| `PageEntry.EntryKeepsCache` | h2o/libs/paging/src/level.rs:97-111 | the cache type survives an entry: above the lowest level `PAT` moves to bit 12 |
| `PageTree.RawKinds` | h2o/libs/paging/src/entry.rs:145-158 | the bit tests on entry words tell absent, leaf and table apart, and find the page of a table |
| `PageTree.NewPageLookup` | h2o/libs/paging/src/inner.rs:113-153 | a successful `new_page` changes the lookups of its own page and no others |
| `PageErrors.NewPageExact` | h2o/libs/paging/src/inner.rs:5-41 | `new_page` fails with an existing entry exactly when the address is mapped by a page at least as large, which then stays as it is, and otherwise for lack of memory exactly when a table is missing a page |
| `PageErrors.NewPageFails` | h2o/libs/paging/src/inner.rs:113-153 | a failing `new_page` changes no lookup |
| `PageErrors.MappedOverIff` | h2o/libs/paging/src/inner.rs:136-147 | a mapped address is mapped over if and only if its page is smaller than the new one |
| `PageErrors.LargeOverSmall` | h2o/libs/paging/src/inner.rs:136-147 | a 2 MiB page mapped over a 4 KiB page: the call succeeds and address 0 has a new target |
| `PageTree.NewPageShape` | h2o/libs/paging/src/inner.rs:5-41 | mapping an unmapped page adds no idle table and keeps every table and leaf |
| `PageTree.NewPagePages` | h2o/libs/paging/src/inner.rs:5-41 | every page taken from the allocator ends up in the tree |
| `PageTree.DropPageLookup` | h2o/libs/paging/src/inner.rs:209-250 | dropping a page mapped at its level unmaps it and nothing else |
| `PageErrors.DropPageExact` | h2o/libs/paging/src/inner.rs:209-250 | `drop_page` on an address not mapped, or only by smaller pages, fails and changes nothing; on a larger page it fails exactly when fewer pages are left than levels to split |
| `PageTree.DropPageShape` | h2o/libs/paging/src/inner.rs:89-107 | it leaves no empty table behind |
| `PageTree.DropPagePages` | h2o/libs/paging/src/inner.rs:89-107 | every table page it unlinks goes back to the allocator |
| `PageTree.ExtensionIsSame` | h2o/libs/paging/src/inner.rs:89-107 | a tree without empty tables that contains another and maps no more is that tree |
| `PagePlan.MapPlanMaps` | h2o/libs/paging/src/lib.rs:68-93 | mapping a list of pages leaves each of them mapped as asked |
| `PagePlan.MapPlanOutside` | h2o/libs/paging/src/lib.rs:68-93 | and no address outside them touched |
| `PagePlan.MapPlanShape` | h2o/libs/paging/src/lib.rs:68-93 | on a clear stretch it adds no idle table and loses no page |
| `PagePlan.DropPlanRestores` | h2o/libs/paging/src/lib.rs:149-177 | dropping the pages of a plan gives back the old tree and every page |
| `Paging.LevelsRise` | h2o/libs/paging/src/lib.rs:68-93 | the pages of a whole range tile it, and their levels never fall |
| `Paging.MapsIsPlan` | h2o/libs/paging/src/lib.rs:68-93 | the loop of `maps` carries out the plan of its range, errors included |
| `Paging.UnmapsIsPlan` | h2o/libs/paging/src/lib.rs:149-177 | on a range just mapped, `unmaps`, which re-derives each level, follows the same plan |
| `Paging.MapsTranslates` | h2o/libs/paging/src/lib.rs:56-104 | after a successful `maps` every address of the range translates to the physical start plus its offset, with the rights asked for, for any mix of page sizes and any attributes; off by one page exactly where `LARGE_PAT` meets a 4 KiB page with an even frame |
| `Paging.MapsElsewhere` | h2o/libs/paging/src/lib.rs:56-104 | no translation outside the range changes |
| `Paging.MapsUnmapsRestores` | h2o/libs/paging/src/lib.rs:149-177 | mapping a clear range and unmapping it gives back exactly the same tree and returns every table page |
| `Paging.Check` | h2o/libs/paging/src/inner.rs:252-281 | accepts exactly the non-empty ranges with aligned ends and physical start, and tells which of them is misaligned |
| `Paging.AddressSpace.Maps` | h2o/libs/paging/src/lib.rs:56-104 | the mutating loop computes the mapping function; after a failure it unmaps what it had mapped |
| `PageErrors.MapsRefuses` | h2o/libs/paging/src/lib.rs:56-104 | a range whose first page is taken is refused with an existing entry, and tree and pool stay as they were |
| `PageErrors.FirstPageTaken` | h2o/libs/paging/src/lib.rs:68-93 | the same of the mapping loop |
| `PageErrors.MapsErrors` | h2o/libs/paging/src/lib.rs:68-93 | `maps` succeeds only when no page of the range is taken; it reports an existing entry only for a page taken before the call, the first such, and lack of memory only with no page left |
| `PageErrors.NotMappedTwice` | h2o/libs/paging/src/lib.rs:56-104 | page 0 mapped twice: the second call fails, and the first mapping stays |
| `PageRollback.MapsLays` | h2o/libs/paging/src/lib.rs:68-93 | however `maps` ends, the pages up to where it stopped are mapped and nothing else has changed |
| `PageRollback.RollbackIff` | h2o/libs/paging/src/lib.rs:95-102 | after a failed `maps` every translation is as before the call if and only if the levels chosen again for the mapped part are those that were used |
| `PageRollback.RollbackFails` | h2o/libs/paging/src/lib.rs:95-102 | 1 GiB and 2 MiB mapped at 0 with the last 2 MiB taken: the rollback leaves pages mapped |
| `Paging.AddressSpace.Unmaps` | h2o/libs/paging/src/lib.rs:149-177 | the mutating loop computes the unmapping function |
| `PageErrors.UnmapsClear` | h2o/libs/paging/src/lib.rs:149-177 | unmapping a range of which nothing is mapped changes nothing |
| `Paging.AddressSpace.QueryAddr` | h2o/libs/paging/src/inner.rs:186-207 | the loop that tests one raw entry word per level, indexed straight from the address, computes the translation function |
| `PageSplit.SplitDrop` | h2o/libs/paging/src/inner.rs:43-87 | dropping a page out of a leaf one level larger unmaps that page, turns the rest into its pieces and uses one table page |
| `PageSplit.PieceTranslates` | h2o/libs/paging/src/inner.rs:43-63 | pieces of a 2 MiB leaf keep its rights; their target is off by the low frame bits, so it is kept if and only if those are clear |
| `PageSplit.UnmapsPart` | h2o/libs/paging/src/lib.rs:149-177 | unmapping a proper page-aligned part of a 2 MiB leaf removes exactly that part |
| `PageSplit.UnmapsPartTranslates` | h2o/libs/paging/src/inner.rs:209-250 | every other address keeps its write, user and execute bits, and its physical target up to that distance |
| `PageSplit.LargePatMoves` | h2o/libs/paging/src/entry.rs:129-160 | frame 0 mapped with `LARGE_PAT` as one 4 KiB page translates to frame 1 |
| `PageSplit.LargePatSplits` | h2o/libs/paging/src/inner.rs:43-63 | a 2 MiB page with `LARGE_PAT` translates as asked, and one page further once its first 4 KiB are unmapped |
| `PageSplit.SplitWithoutPage` | h2o/libs/paging/src/inner.rs:43-63 | with no page for the split the whole leaf is lost and the error is reported |
| `PageCuts.CutDrop` | h2o/libs/paging/src/inner.rs:209-250 | dropping a page out of a leaf of any larger level, with a page for every split: the rest of the leaf is served by the pieces of the successive splits, and nothing else changes |
| `PageCuts.GigabytePiece` | h2o/libs/paging/src/inner.rs:43-63 | the 2 MiB pieces of a 1 GiB leaf keep its target and rights, but all carry `LARGE_PAT` |
| `PageCuts.GigabyteCut` | h2o/libs/paging/src/inner.rs:43-63 | a 4 KiB page cut out of a 1 GiB leaf: the 4 KiB pieces left are all off by one page, the 2 MiB pieces right |
| `PageCuts.DoubleSplitMoves` | h2o/libs/paging/src/inner.rs:43-63 | 1 GiB mapped at 0 and its first 4 KiB unmapped: the next page translates one page too far |
| `BootfsTree.BfsLayout` | src/lib/bootfs/src/gen.rs:19-56 | every directory's children occupy consecutive entries from the index computed as entry index plus queue length |
| `BootfsGen.Split` | src/lib/bootfs/src/gen.rs:19-56 | the queue loop yields exactly the entries of the breadth-first order, and the file contents in that order |
| `BootfsGen.WriteOffsets` | src/lib/bootfs/src/gen.rs:93-111 | writes the offset table |
| `BootfsGen.WriteMetas` | src/lib/bootfs/src/gen.rs:113-131 | writes the metadata table and places the files one after another |
| `BootfsGen.WriteFiles` | src/lib/bootfs/src/gen.rs:133-158 | writes every file and the zeros up to the next file's offset or the rounded end |
| `BootfsGen.Generate` | src/lib/bootfs/src/gen.rs:75-161 | writes exactly the image of the breadth-first layout |
| `BootfsGen.GenerateAndParse` | src/lib/bootfs/src/gen.rs:75-161 | generating and parsing gives back the whole tree, and lookups agree with walking it, for every tree with NUL-free names under 64 bytes |
| `BootfsImage.OffsetAt` | src/lib/bootfs/src/gen.rs:93-111 | each word of the offset table points at its entry |
| `BootfsImage.MetaAt` | src/lib/bootfs/src/gen.rs:113-131 | each entry lies where its offset word says |
| `BootfsImage.FileAt` | src/lib/bootfs/src/gen.rs:133-158 | each file's bytes lie at its recorded offset |
| `BootfsImage.FileExtent` | src/lib/bootfs/src/gen.rs:93-157 | every file's page-rounded extent is page-aligned, inside the image and behind the header and the tables |
| `BootfsImage.FilesApart` | src/lib/bootfs/src/gen.rs:93-157 | the extents of different files do not overlap |
| `BootfsParse.ReadsNode` | src/lib/bootfs/src/parse.rs:65-114 | reading entry i of an image gives the i-th node with everything below it |
| `BootfsParse.MetaParsesOnly` | src/lib/bootfs/src/parse.rs:65-86 | an entry is read only from the bytes that writing it gives, but for the padding; other versions and unknown types are refused |
| `BootfsParse.RootIff` | src/lib/bootfs/src/parse.rs:15-26 | an image is accepted exactly when its header is there, of this version, and points inside it |
| `BootfsParse.EntriesOfRange` | src/lib/bootfs/src/parse.rs:65-86 | iterating over a directory's slice of the offset table yields exactly its children's entries |
| `BootfsParse.ImageRoundTrip` | src/lib/bootfs/src/parse.rs:15-33 | parsing the image from its root gives back names, child order and contents |
| `BootfsParse.FindAgrees` | src/lib/bootfs/src/parse.rs:39-53 | `find` agrees with walking the tree by first matching child until a file is reached |
| `BootfsParse.Find` | src/lib/bootfs/src/parse.rs:43-53 | for every path and separator the loop finds, on the image generated from a tree, what walking the tree along the pieces of the path finds |
| `BootfsParse.NameEqIff` | src/lib/bootfs/src/parse.rs:93-96 | a component matches if and only if it is the name, possibly followed by NULs |
| `BootfsParse.NameEqPlain` | src/lib/bootfs/src/parse.rs:93-96 | without NULs in the component that is plain equality |
| `BootfsParse.SplitJoins` | src/lib/bootfs/src/parse.rs:43-53 | splitting a path is the inverse of joining it, and no piece holds a separator |
| `SchedObject.Scheduler.constructor` | h2o/kernel/src/sched/task/idle.rs:22-48 | with its idle task queued, a CPU's scheduler is in order |
| `SchedObject.Scheduler.EnqueueTask` | h2o/kernel/src/sched/imp.rs:83-103 | keeps the CPU in order, gains and charges exactly that task, and displaces the running one exactly when preemption is allowed and it has run over a millisecond longer |
| `SchedObject.Scheduler.LeaveCurrent` | h2o/kernel/src/sched/imp.rs:126-195 | a non-idle task always finds a successor, the front of the queue, which runs next, and only it is lost; without a successor the load has been lowered all the same |
| `SchedObject.Scheduler.UpdateCurrent` | h2o/kernel/src/sched/imp.rs:281-311 | keeps the CPU in order with the same tasks, charges exactly the time since the switch, and leaves a task that is to be switched marked so |
| `SchedObject.Scheduler.Tick` | h2o/kernel/src/sched/imp.rs:197-327 | keeps every task, and gives the CPU to the front of the queue exactly when the slice is used up, a switch was asked for or nothing runs, and somebody waits |
| `SchedObject.Scheduler.MigrateOne` | h2o/kernel/src/sched/imp.rs:433-448 | takes over the oldest task sent to this CPU and keeps all others in place |
| `Scheduling.RunKeeps` | h2o/kernel/src/sched/imp.rs:66-448 | the scheduling invariant holds along every run on any number of CPUs |
| `Scheduling.ExactlyOnePlace` | h2o/kernel/src/sched/imp.rs:66-159 | over every run each task is in exactly one place: current of one CPU, one position of a run or migration queue, with a holder, or exited |
| `Scheduling.LoadIsCharge` | h2o/kernel/src/sched/imp.rs:83-103 | the published load of every CPU is one slice for each queued or running task; queued tasks are not running, the current one is, and all may be on that CPU |
| `Scheduling.AlwaysASuccessor` | h2o/kernel/src/sched/imp.rs:126-311 | no block, suspend, exit or kill of a non-idle task finds an empty run queue, and no tick reaches the panic on a task that is not running |
| `Scheduling.NothingComesBack` | h2o/kernel/src/sched/task/sm.rs:256-262 | tasks never vanish and an exited one stays exited |
| `Scheduling.QueuesAreFifo` | h2o/kernel/src/sched/imp.rs:329-369 | every step serves both queues first come, first served: whoever leaves the run queue was at its front and now runs; a running task loses its CPU only to that front or to a newcomer that has run over a millisecond less |
| `Scheduling.TickSwitches` | h2o/kernel/src/sched/imp.rs:197-327 | in every reachable state a tick takes the CPU away exactly when the slice is used up or a switch was asked for, and somebody waits; the front of the queue runs next |
| `Scheduling.EnqueueOk` | h2o/kernel/src/sched/imp.rs:83-103 | enqueueing, preempting or not, keeps one CPU in order and gains exactly that task |
| `Scheduling.LeaveOk` | h2o/kernel/src/sched/imp.rs:126-159 | a non-idle task that leaves always finds a successor, and only it leaves |
| `Scheduling.UnblockKeeps` | h2o/kernel/src/sched/imp.rs:66-81 | readying a held task here or on another CPU keeps the invariant |
| `Scheduling.MigrateKeeps` | h2o/kernel/src/sched/imp.rs:433-448 | so does taking over a migrated one |
| `Scheduling.HoldKeeps` | h2o/kernel/src/sched/imp.rs:126-159 | so does blocking or suspending; where it puts the task is `SchedMoves.LeavingPuts` |
| `Scheduling.FinishKeeps` | h2o/kernel/src/sched/imp.rs:169-195 | so does exiting or being killed |
| `Scheduling.TickKeeps` | h2o/kernel/src/sched/imp.rs:197-215 | so does a tick |
| `SchedMoves.LeavingPuts` | h2o/kernel/src/sched/imp.rs:126-279 | in every reachable state blocking hands the running task to the timer, suspending to the signal's slot, exiting ends it; each lets the front of the queue run and discharges one slice, and the idle task does none of it |
| `SchedMoves.UnblockPuts` | h2o/kernel/src/sched/imp.rs:66-103 | readying takes a task from its holder onto its own CPU, preempting exactly when allowed and the running one has run over a millisecond longer, or to the back of another CPU's migration queue |
| `SchedMoves.MigratePuts` | h2o/kernel/src/sched/imp.rs:433-448 | the oldest migrated task is enqueued likewise |
| `SchedMoves.CreatePuts` | h2o/kernel/src/sched/task/sm.rs:210-224 | a created task is with its creator; a number in use or an affinity without a CPU is refused |
| `SchedMoves.TickPuts` | h2o/kernel/src/sched/imp.rs:197-327 | in every reachable state a tick charges the time since the switch and lets the front run exactly when that is more than a slice or a switch was asked for, and somebody waits |
| `SchedMoves.YieldPuts` | h2o/kernel/src/sched/task/syscall.rs:57-66 | a yield asks for a switch and changes nothing else |
| `SchedMoves.TicksCharge` | h2o/kernel/src/sched/imp.rs:281-311 | a task that keeps its CPU through any series of ticks is charged the sum of all the times since it was switched to |
| `SchedMoves.ChargeExactIff` | h2o/kernel/src/sched/imp.rs:281-311 | that is the time it has been running if and only if no tick but the last came after its start |
| `SchedMoves.ChargedTwice` | h2o/kernel/src/sched/imp.rs:281-311 | ticks 10 and 20 nanoseconds after the switch charge 30 |
| `SelectCpu.SelectCpu` | h2o/kernel/src/sched/imp.rs:372-428 | the loop returns an allowed CPU if there is one; an idle current CPU wins outright; if no two loads differ by one the CPU returned has the least load, and ties go to the last CPU, the current one, the lowest index |
| `SelectCpu.WeightDecides` | h2o/kernel/src/sched/imp.rs:391-424 | the weighted sum of logarithms decides exactly as that order, for loads that never differ by one |
| `SelectCpu.DecidesIffSpread` | h2o/kernel/src/sched/imp.rs:410-424 | and that condition is exact: with two loads one apart some pair is decided the other way |
| `SelectCpu.LoadsAreFit` | h2o/kernel/src/sched/imp.rs:43-56 | in every reachable state the loads meet that condition, and least load means fewest tasks |
| `Timers.RunKeeps` | h2o/kernel/src/cpu/time/timer.rs:134-191 | the wakeup invariant holds along every interleaving |
| `Timers.WokenAtMostOnce` | h2o/kernel/src/cpu/time/timer.rs:149-163 | no blocking of a task is ended twice, however firing and cancelling interleave |
| `Timers.WaitTells` | h2o/kernel/src/sched/wait.rs:28-42 | a wait reports success exactly when its one wakeup was a cancellation |
| `Timers.NobodyLost` | h2o/kernel/src/sched/wait/futex.rs:57-69 | once every agent is done each blocked task has been woken, or still waits: in exactly one queue if it joined one, across all requeues, and in the clock's heap if it has a deadline |
| `Timers.ResultsStay` | h2o/kernel/src/sched/wait.rs:28-42 | what a wait has reported stays reported |
| `Timers.SoleOwner` | h2o/kernel/src/cpu/time/timer.rs:149-163 | whoever has taken a callback is alone with it and its task has not been woken |
| `TimerCalls.QueuesInOrder` | h2o/kernel/src/sched/wait.rs:28-42 | as long as nobody requeues, every wait queue is in the order in which its tasks blocked, in every reachable state |
| `TimerCalls.BlockPuts` | h2o/kernel/src/sched/imp.rs:126-159 | a task that blocks gets the next timer, at the back of its wait queue and in the clock's heap |
| `TimerCalls.DiscardDrops` | h2o/kernel/src/cpu/time/timer.rs:173-186 | the clock drops a timer once its callback is gone, and not before |
| `TimerCalls.FireAlone` | h2o/kernel/src/cpu/time/timer.rs:149-163 | a live timer fired alone wakes its task, as fired; a dead one is dropped |
| `TimerCalls.NotifyAlone` | h2o/kernel/src/sched/wait.rs:44-56 | a notifier left alone wakes the first live waiters, as many as asked for, or as can be counted for zero |
| `TimerCalls.RequeueAlone` | h2o/kernel/src/sched/wait/futex.rs:57-69 | a requeuer left alone moves waiters front to back, as many as asked for or as there are; onto the same futex it goes round |
| `TimerCalls.ResumeTells` | h2o/kernel/src/sched/wait.rs:28-42 | in every reachable state a woken task that resumes learns whether its wakeup was a cancellation |
| `Waits.WaitSystem.Cancel` | h2o/kernel/src/cpu/time/timer.rs:149-157 | readies the blocked task exactly when the callback was still there |
| `Waits.WaitSystem.Notify` | h2o/kernel/src/sched/wait.rs:44-56 | wakes exactly the smaller of the number asked for and the live waiters, those first in the queue, in order; zero asks for as many as can be counted |
| `Waits.WaitSystem.Requeue` | h2o/kernel/src/sched/wait/futex.rs:57-69 | moves waiters front to back in order; onto itself the queue turns round |
| `Waits.RotateBelow` | h2o/kernel/src/sched/wait/futex.rs:57-69 | requeueing the first waiters of a futex onto itself cuts the queue behind them and swaps the two parts |
| `Waits.WaitSystem.WakeAndRequeue` | h2o/kernel/src/sched/wait/futex.rs:108-131 | the live waiters, in the order they came, split into woken, moved behind the other futex's own, and staying; exactly the reported number is moved, and fewer than asked for only when none is left |
| `Waits.RequeueKeepsOrder` | h2o/kernel/src/sched/wait/futex.rs:57-69 | a moved batch keeps its order behind those already waiting |
| `Waits.WaitSystem.NextDue` | h2o/kernel/src/cpu/time/timer.rs:173-186 | drops dead timers from the top and returns a due timer no later than any other, or none is due |
| `Waits.WaitSystem.Tick` | h2o/kernel/src/cpu/time/timer.rs:170-191 | afterwards no live timer was due at the last clock reading; each fired timer was due at the reading just before it fired, none fired twice, and firing followed the deadlines |
| `Waits.NotifierAlone` | h2o/kernel/src/sched/wait.rs:44-56 | a notifier of the interleaved machine that is left alone wakes exactly those the loop of `Notify` wakes: the first live waiters, in queue order, as many as it may |
| `Dispatcher.RunKeeps` | h2o/kernel/src/sched/imp/waiter.rs:158-262 | the completion-queue invariant holds along every interleaving |
| `Dispatcher.NeverOverfull` | h2o/kernel/src/sched/imp/waiter.rs:158-182 | pending and ready requests never exceed the capacity, and the capacity subtraction never underflows |
| `Dispatcher.OneOfThree` | h2o/kernel/src/sched/imp/waiter.rs:158-262 | between drains every accepted key is in exactly one of pending, ready and popped, once |
| `Dispatcher.PoppedOnce` | h2o/kernel/src/sched/imp/waiter.rs:184-199 | no key is popped twice and every popped key was accepted |
| `Dispatcher.MatchesIff` | h2o/kernel/src/sched/ipc.rs:145-151 | the test on missing bits accepts a request if and only if its event is the one signalled, all its bits are there, and it is not an edge-triggered one merely being waited for |
| `Dispatcher.SignalCovers` | h2o/kernel/src/sched/ipc.rs:145-151 | in every run a completion answers a request that its cause meets in that sense |
| `Dispatcher.PopsFollowCompletions` | h2o/kernel/src/sched/imp/waiter.rs:184-199 | completions are popped in the order they were made |
| `Dispatcher.DrainSplits` | h2o/kernel/src/sched/imp/waiter.rs:207-262 | a drain drops and doubles nothing |
| `Dispatcher.DrainDecides` | h2o/kernel/src/sched/imp/waiter.rs:235-262 | a drain leaves no request that its cause meets, and completes only such |
| `DispatcherDrains.DrainIsAtomic` | h2o/kernel/src/sched/imp/waiter.rs:207-262 | among any steps of others, a drain from taking the lock to letting go completes the requests its cause meets, in order, and leaves the others, in order; none that it meets is left pending |
| `DispatcherCalls.PushAlone` | h2o/kernel/src/sched/imp/waiter.rs:158-182 | a push left alone is accepted, behind the other pending requests, exactly when pending and ready ones are fewer than the capacity |
| `DispatcherCalls.DrainAlone` | h2o/kernel/src/sched/imp/waiter.rs:207-262 | a cancellation or notification left alone finishes and does what its one-step form does |
| `DispatcherCalls.TurnedAway` | h2o/kernel/src/sched/imp/waiter.rs:235-238 | a notification is turned away exactly when the ready queue is full, and then nothing is pending |
| `DispatcherCalls.PopTakes` | h2o/kernel/src/sched/imp/waiter.rs:184-199 | a consumer gets the oldest completion, and only it is taken |
| `Dispatcher.Queue.Push` | h2o/kernel/src/sched/imp/waiter.rs:158-182 | accepts exactly when there is room, under a fresh key either way |
| `Dispatcher.Queue.Pop` | h2o/kernel/src/sched/imp/waiter.rs:184-199 | returns the oldest completion |
| `Dispatcher.Queue.Drain` | h2o/kernel/src/sched/imp/waiter.rs:235-262 | completes the requests that the cause meets, in order, keeps the others in order, and reports whether any were completed and whether any are left |
| `Placement.TryFindAlloc` | h2o/kernel/src/mem/space/virt.rs:378-421 | the loop over children finds the place with the given number, or returns the full count |
| `Placement.PlacesAreNumbered` | h2o/kernel/src/mem/space/virt.rs:378-421 | a number finds an address exactly when it is below the count, and every place that fits has a number; if no gap lacks an aligned address the numbers name nothing else, in address order |
| `Placement.NumbersFitIffGood` | h2o/kernel/src/mem/space/virt.rs:385-398 | for any alignment: all numbered places fit if and only if no gap lacks an aligned address |
| `Placement.CountExact` | h2o/kernel/src/mem/space/virt.rs:385-398 | the count is the number of places under the same condition, and never less |
| `Placement.AlignedGapsGood` | h2o/kernel/src/mem/space/virt.rs:403-421 | with page alignment and page-aligned children the condition holds |
| `Placement.GapsAreGaps` | h2o/kernel/src/mem/space/virt.rs:403-421 | the gaps are exactly where nothing overlaps a child |
| `Placement.FindAlloc` | h2o/kernel/src/mem/space/virt.rs:363-371 | the two attempts answer an address if and only if one fits or some gap lacks an aligned address, and otherwise take a remainder by zero; without such a gap the answer fits |
| `Placement.SmallGapMisleads` | h2o/kernel/src/mem/space/virt.rs:385-398 | an alignment of four pages and a gap of one page: an address is answered though nothing fits |
| `Clock.FactorFromFreq` | h2o/kernel/src/cpu/time/chip.rs:61-72 | for every frequency from 1 kHz the shift is the largest up to 32 whose rounded multiplier has 32 bits, and at least 12; the multiplier is the nearest |
| `Clock.NoOverflow` | h2o/kernel/src/cpu/time/chip.rs:61-72 | the numerator stays below 2^64 |
| `Clock.ConversionError` | h2o/kernel/src/cpu/time/chip.rs:61-72 | before truncation a conversion is off by at most ticks / 2^(shift + 1) nanoseconds |
| `Clock.Truncation` | h2o/kernel/src/cpu/x86_64/tsc.rs:30-36 | a reading is the scaled value rounded down |
| `Clock.NanosMonotone` | h2o/kernel/src/cpu/x86_64/tsc.rs:30-36 | readings never go back while the counter does not |

## Left out

- Weak memory orderings, epoch reclamation, the LIFO flavour and batch steals of the deque: steps are sequentially consistent and only the operations the kernel calls are modelled.
- Wrap-around of deque indices, dispatcher keys and the load counter: they are unbounded integers here.
- Page-table entries are updated along a walk by pointers; here the walk is recursion on tree values, so aliasing of tables (the same table linked twice) is not represented.
- `modify_page`, `reprotect` and TLB invalidation.
- PageRollback.RollbackIff: speaks about translations, not about the tree, because tables created before a failure stay, empty; the part mapped before the failure must have been clear.
- What mapping a range that leaves the 48-bit window achieves: the loops are modelled for it, but the theorems about translations are for ranges inside the window.
- `CHashMap.get_or_insert`, iteration order, per-bucket locks and races between `shrink` and `insert`: each call is one step.
- Bootfs image alignment in memory, and input/output errors of the generator; padding bytes are zero here.
- BootfsParse.ImageRoundTrip: the tree reader takes a depth, and the statement is for every depth at least the tree's height, because the parser itself is lazy.
- Atomicity of the load snapshot: `SelectCpu.SelectCpu` gets one snapshot, while `Scheduling` lets any allowed CPU be chosen.
- Tasks migrated to a CPU before its idle task has been queued, and idle tasks that would block or exit.
- Allocation failure in `Timer::activate`, timers set on events, heap internals (the binary heap yields some earliest timer), and locks found taken by `try_read` and `try_borrow_mut` during a tick.
- Blockers, the wait and notify race inside events, and the events a dispatcher signals to its own waiters.
- Placement at an explicit offset and the overlap scans of `reprotect` and `unmap`; addresses near 2^64 are excluded by the requirements on the range.
- Heap slabs, range maps, the id allocator, the memory map parser, handles, channels and the RPC layer: they would add only easier members or rest on unseen libraries.
- Boot loader, drivers, interrupts, context switching, assembly and system call stubs.
