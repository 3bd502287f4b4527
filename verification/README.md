# Kernel data structures, modelled in Dafny

This project models the parts of an LK-derived kernel whose correctness spans several functions, and proves
what they promise. Each part is modelled in the form of its source: tables, lists, rings and counters are
fields that methods change in place, and each method is proved against a function on values about which the
properties are then proved.

- **Virtual memory.** `PageTable` is the recursive multi-level page table with block mappings and rollback, as
  trees; `MapRoom` says exactly when it can map; `PageMemory` is the same on pages of memory; `PteBits` the
  descriptor bits (section D8.3 of the Arm Architecture Reference Manual, DDI 0487 issue J), `MmuFlags` the
  mapping flags over whole runs. `Pmm` is the physical page allocator, `PmmEffects` the order of its free
  lists, `RunSearch` the 32-bit positions of its aligned-run search, `Vmm` the region list and its searches,
  `VmmTables` the tables as an address space uses them, and `VmmSpace` the allocation paths over all three.
- **Threads.** `Scheduler` is the run queues, wait queues and reschedule path, `SchedEffects` what each of its
  critical sections leaves behind, `Joining` how threads end, `Mutex`, `Semaphore` and `Event` the protocols
  over a wait queue with timeouts (`WaitQueue`), `SyncThreads` those protocols on the scheduler's own wait
  queues, `Timer` the timer queue on wrapping 32-bit time and `TimerEffects` what becomes of each timer.
- **Queues and rings.** `Port` (with its blocked readers in `PortWait`, both joined in `PortDelivery`, and
  with rings by value in `PortModel`), `Cbuf` and `Virtio` (split virtqueues, section 2.7 of VIRTIO 1.2), over
  `Rings`.
- **Storage.** `BlockCache` is the write-back cache, `CacheModel` the list of blocks it stands for, `Bio` byte
  access through blocks, `BioWindows` windows on devices nested to any depth.
- **Boot.** `Init` is the search that orders the initialisation hooks.

A concurrent part is a transition system: one step is one critical section under its lock, or a part of one
where another thread can see the middle of it. A timeout callback is a step of its own, and so is the code
after a blocking call, which runs when the thread next does. Whatever the code cannot see is a parameter: how
many page tables can be allocated, whether a structure can be, what a timer callback does, what a device has
put in a ring.

Some promises turn out false of the code. The model keeps the code, and each has a concrete counterexample
and the exact condition:

- Unmap removes exactly its range if and only if the range cuts no block (`PageTable.UnmapFlat`, `UnmapCuts`).
- A map of a range with nothing mapped in it can be refused by an empty table (`MapRoom.EmptyTableRefuses`); it
  succeeds exactly as `MapRoom.MapExactly` says.
- Mapping flags are read back if and only if the memory type is one of the three defined
  (`PteBits.RoundTripExactly`, `MemoryTypeThree`).
- A mapping failure in an allocation restores the mappings if and only if nothing was mapped in the range given
  to the region (`VmmSpace.UndoneExactly`, `LostMapping`); it always does where every leaf lies in a region.
- The search for a run of pages keeps its positions in 32 bits; it is right on every arena if and only if they
  fit (`Pmm.FitsExactly`, `RunSearch.SoundExactly`), and otherwise it need not end (`Pmm.SearchStuck`).
- With finite timeouts an unowned mutex can keep waiters for good, and a waiter can be left beside a free
  semaphore token (`Mutex.LostWakeup`, `StuckForever`, `StuckIsReachable`, `Semaphore.PassedOver`,
  `StarvedIsReachable`).
- Times are compared rightly if and only if they are at most half the range apart (`Timer.OffsetsCompare`,
  `LongDelayIsDue`).
- Requests to block devices are trimmed rightly if and only if their end does not overflow (`Bio.TrimRangeIs`,
  `TrimFails`, `TrimBlocksIs`, `TrimBlocksFails`), and the direct path copies within its buffer if and only if
  the whole blocks are below 4 GiB (`Bio.MiddleLeavesPart`, `MiddleFails`).
- An erase through a window stays in it if and only if its end does not overflow or the window ends where the
  disk does (`BioWindows.EraseStays`, `EraseReachesSibling`).
- A window on a device with erase geometry can lie in no erase region, and outside its parent
  (`BioWindows.GeometryExactly`, `OutsideAccepted`).
- Each used-ring element reaches the callback if and only if fewer than a ring's worth came at once
  (`Virtio.VRing.ServiceUsed`, `MissesFullRing`).
- The mode test of port_create refuses nothing, so only its callers keep big buffers to unicast ports
  (`Port.NeverRefused`, `StepBigRule`, `BigWithoutUnicast`); two ports can get one name
  (`Port.StepDistinct`, `RaceDuplicates`), and a batch can leave a reader blocked beside a packet
  (`PortWait.StepClaimed`, `Stranded`).

`dafny verify dfyconfig.toml` checks the whole project.

## Model

| member | source | states |
|---|---|---|
| PageTable.RunIsFlat | mk/arch/arm64/mmu.c:94-488 | After any sequence of maps and unmaps from empty tables whose unmaps cut no block, a query answers for every address with the physical address and attributes of the latest successful call that covered it, and not found otherwise. |
| PageTable.MapFlat | mk/arch/arm64/mmu.c:365-464 | A map that succeeds found nothing in its range and adds exactly that range; one that fails, at any depth and for any reason, changes no translation; tables stay well formed. |
| PageTable.UnmapFlat | mk/arch/arm64/mmu.c:312-363 | Unmap removes exactly its range from the flat map if and only if the range cuts no block mapping. |
| PageTable.UnmapCuts | mk/arch/arm64/mmu.c:327-355 | A block of two pages whose first page is unmapped loses its second page too. |
| MapRoom.MapExactly | mk/arch/arm64/mmu.c:365-437 | Map succeeds if and only if address, physical address and size are on pages, every path in the range is open down to the level where its leaf has to go, and there are as many spare pages as tables to add; on success exactly that many are used. |
| MapRoom.RunExactly | mk/arch/arm64/mmu.c:380-430 | The same for the loop of one level. |
| MapRoom.SlotExactly | mk/arch/arm64/mmu.c:387-424 | The same for one entry: a block goes only into an invalid entry, anything else needs a table there or a page for one. |
| MapRoom.PageRoom | mk/arch/arm64/mmu.c:365-437 | A single page can be placed exactly where none is mapped, and takes at most one table for each level below the top. |
| MapRoom.EmptyTableRefuses | mk/arch/arm64/mmu.c:408-413 | An empty table that stands where a block would go refuses the map although nothing is mapped in the range. |
| PageTable.UnmapWholeAt | mk/arch/arm64/mmu.c:312-363 | For a range that cuts no block, the translation of each single address after unmap. |
| PageTable.UnmapAt | mk/arch/arm64/mmu.c:312-363 | In general unmap removes exactly the leaves its range touches, whole, so a block cut by the range goes entirely. |
| PageTable.UnmapWhole | mk/arch/arm64/mmu.c:323-346 | Unmapping a whole slot leaves only invalid descriptors in the table behind it, which is what lets that table be freed. |
| PageTable.MapRunAt | mk/arch/arm64/mmu.c:380-430 | The part of the request mapped before the loop stops is laid over unmapped addresses with the right physical addresses, and nothing else changes. |
| PageTable.MapIntoAt | mk/arch/arm64/mmu.c:365-437 | One level of map with its rollback: all of the range on success, nothing on failure, for any level. |
| PageTable.MapUndoneAt | mk/arch/arm64/mmu.c:434-437 | Unmapping what the loop had mapped gives back every translation there was before. |
| PageTable.WalkUniform | mk/arch/arm64/mmu.c:135-161 | Every address of a leaf finds that same leaf. |
| PageTable.IndexIs | mk/arch/arm64/mmu.c:136-137 | The slot arithmetic used throughout is division and remainder by the size of an entry, which is what the shifts compute. |
| PageTable.BlockIs | mk/arch/arm64/mmu.c:161 | The size of an entry at each level is two to the index shift, which drops by the page shift minus 3 per level. |
| PageMemory.Mmu.Map | mk/arch/arm64/mmu.c:439-464 | On memory written in place, map leaves the tables and gives the answer that the tree function gives with as many spare pages; the pages in use stay exactly those reachable, and none is lost or shared. |
| PageMemory.Mmu.Unmap | mk/arch/arm64/mmu.c:466-488 | On memory written in place, unmap does what the tree function does, and the pages of tables it frees return to the free list. |
| PageMemory.Mmu.QueryAt | mk/arch/arm64/mmu.c:94-207 | Out of range outside the address space; inside it the walk over memory returns the translation of the tree, or not found. |
| PageMemory.Mmu.MapPt | mk/arch/arm64/mmu.c:365-437 | The recursive map with rollback changes only pages under its own table and equals the tree function. |
| PageMemory.Mmu.MapLoop | mk/arch/arm64/mmu.c:380-430 | The loop stops at the first slot it cannot fill, with what it has mapped so far and the bytes left. |
| PageMemory.Mmu.MapEntry | mk/arch/arm64/mmu.c:397-424 | One entry: descend through a table, or write a leaf only in an empty slot. |
| PageMemory.Mmu.GetPageTable | mk/arch/arm64/mmu.c:256-293 | Returns the table behind a slot, links a fresh zeroed one behind an empty slot if a page is to be had, and fails on a leaf. |
| PageMemory.Mmu.UnmapPt | mk/arch/arm64/mmu.c:312-363 | The recursive unmap changes only pages under its own table and equals the tree function. |
| PageMemory.Mmu.UnmapEntry | mk/arch/arm64/mmu.c:327-355 | One entry: descend and free the child table when the whole slot went or the child is clear, or clear the leaf. |
| PageMemory.Mmu.Collect | mk/arch/arm64/mmu.c:335-346 | A table is freed only when every descriptor in it is invalid. |
| PageMemory.Mmu.PageTableIsClear | mk/arch/arm64/mmu.c:295-310 | The scan answers whether every descriptor of the table is invalid. |
| PageMemory.Mmu.constructor | mk/arch/arm64/mmu.c:551-592 | Empty top table; the pages in use are exactly those reachable. |
| PteBits.RoundTrip | mk/arch/arm64/mmu.c:42-92 | Address, entry kind and flags written in a leaf descriptor are read back by the query. |
| PteBits.RoundTripExactly | mk/arch/arm64/mmu.c:165-203 | The flags come back if and only if the memory type is not 3 and no unknown bits are set. |
| PteBits.MemoryTypeThree | mk/arch/arm64/mmu.c:54-58 | For memory type 3 the error code is used as attribute bits: address and flags are lost. |
| MmuFlags.RunKeepsFlags | mk/arch/arm64/mmu.c:94-488 | After any sequence of maps and unmaps from empty tables whose unmaps cut no block, a query answers for every address with the physical address and the mapping flags of the latest successful call that covered it, read back from the bits of the leaf. |
| MmuFlags.LatestIs | mk/arch/arm64/mmu.c:42-92 | The attribute bits that the latest call left at an address decode to the flags it was given. |
| VmmTables.MapLeaf | mk/arch/arm64/mmu.c:490-521 | For every address: a map that succeeds gives it a leaf inside the range, at the right physical address, where there was none; one that fails, or an address outside, keeps its leaf. |
| VmmTables.MapExactly | mk/arch/arm64/mmu.c:490-521 | arch_mmu_map succeeds if and only if the range is on pages and in the tables, no entry stands where a leaf has to go, and the tables to add can be had. |
| VmmTables.MapPageExactly | mk/arch/arm64/mmu.c:490-521 | For one page: if and only if no page is mapped there and its tables, at most one for each level, can be had. |
| VmmTables.UnmapLeaf | mk/arch/arm64/mmu.c:523-549 | arch_mmu_unmap takes away, whole, exactly the leaves its range touches; with an address off a page boundary it does nothing. |
| VmmTables.UnmapExactly | mk/arch/arm64/mmu.c:523-549 | It removes exactly the translations of its range if and only if no leaf lies partly in the range. |
| VmmTables.UnmapNothing | mk/arch/arm64/mmu.c:523-549 | It changes no leaf if and only if nothing is mapped in the range. |
| VmmTables.LeafIs | mk/arch/arm64/mmu.c:94-207 | A leaf covers the address it was found at and is found from each of its addresses. |
| Pmm.PagesConserved | mk/kernel/vm/pmm.c:66-366 | In every run each page of an arena is on that arena's free list, once, with NONFREE clear, or handed out with NONFREE set; free_count is the length of the list. |
| Pmm.StepGood | mk/kernel/vm/pmm.c:66-366 | Adding an arena, any allocation and any free keep the pages partitioned and the arenas in priority order. |
| Pmm.TakenTotal | mk/kernel/vm/pmm.c:121-134 | Taking a list of free pages lowers the total free count by its length. |
| Pmm.GivenTotal | mk/kernel/vm/pmm.c:212-229 | Returning a list of pages raises the total free count by its length. |
| Pmm.Allocator.AddArena | mk/kernel/vm/pmm.c:66-109 | A new arena goes after those of equal or smaller priority, with all its pages free in order. |
| Pmm.Allocator.AllocPages | mk/kernel/vm/pmm.c:111-143 | Hands out the first free pages in arena and list order, as many as there are up to the count. |
| Pmm.Allocator.AllocRange | mk/kernel/vm/pmm.c:158-202 | Hands out the free pages at consecutive addresses from the one asked for, and stops only where no arena still to be looked at has a free page at the next address. |
| Pmm.Allocator.AllocContiguous | mk/kernel/vm/pmm.c:288-366 | Returns the lowest aligned run of free pages of the first KMAP arena that has one, and nothing only when no KMAP arena has any. |
| Pmm.SearchArena | mk/kernel/vm/pmm.c:297-342 | The search that skips past a used page finds the least aligned start of a free run, or shows there is none, including when rounding the base wraps. |
| Pmm.NextStart | mk/kernel/vm/pmm.c:318-330 | Skipping from a used page to the next aligned start misses no run and does not overflow. |
| PmmEffects.AddedArena | mk/kernel/vm/pmm.c:66-109 | The pages of a new arena are new, free, in order on its list and at the addresses from its base on; it has its KMAP flag and priority, and stands after every arena of its priority or a smaller one. |
| PmmEffects.TakenList | mk/kernel/vm/pmm.c:111-202 | Taking pages leaves the others on each free list in their order. |
| PmmEffects.GivenList | mk/kernel/vm/pmm.c:212-229 | Returned pages go to the head of their own arena's list, the last one first, before those that were there. |
| RunSearch.SoundExactly | mk/kernel/vm/pmm.c:313-332 | Whatever pages are in use, every turn of the 32-bit search makes the right end test and goes on to the right next start, if and only if the bounds hold: fewer than 2^32 pages; if no run fits from the first start, its end below 2^32; otherwise the last start a run fits from plus the count rounded up, and the last start in the arena plus the count, below 2^32. |
| RunSearch.BoundsSuffice | mk/kernel/vm/pmm.c:313-332 | In bounds, each turn of the search on any arena is sound. |
| RunSearch.BoundsNeeded | mk/kernel/vm/pmm.c:313-332 | If no contents of the arena lead a turn astray then the bounds hold. |
| RunSearch.NextInBounds | mk/kernel/vm/pmm.c:326-330 | In bounds the next start, rounded in 64 bits and kept in 32, is the next multiple of the alignment after the page in use. |
| RunSearch.EndTestExactly | mk/kernel/vm/pmm.c:320 | The 32-bit test whether a run from a start in the arena ends in it is right if and only if that end is below 2^32 or in the arena. |
| Pmm.FitsExactly | mk/kernel/vm/pmm.c:297-332 | The condition that the allocator asks of an arena is exactly that no contents of the arena lead its search astray. |
| Pmm.SearchStuck | mk/kernel/vm/pmm.c:313-332 | With an alignment of 2^44 and one page, in use, the search is back at its start after every number of turns: it never ends. |
| Pmm.FindUsed | mk/kernel/vm/pmm.c:322-333 | The inner loop stops at the first page of the run that is in use. |
| Pmm.AlignedIs | mk/kernel/vm/pmm.c:304-311 | Alignment of the start address in bytes is alignment of its page number. |
| Pmm.StartIs | mk/kernel/vm/pmm.c:304-311 | The offset computed from the rounded base is a page of the arena at an aligned address. |
| Pmm.NoStart | mk/kernel/vm/pmm.c:305-306 | When the rounded base wraps or lies past the arena, no page of the arena is aligned. |
| Pmm.StartIsLeast | mk/kernel/vm/pmm.c:308-309 | No aligned page lies before the computed offset. |
| Pmm.Allocator.TakeRun | mk/kernel/vm/pmm.c:337-349 | Takes exactly the pages of the run, in order. |
| Pmm.Allocator.Free | mk/kernel/vm/pmm.c:204-234 | Every page goes to the head of the free list of the arena it belongs to. |
| Pmm.AddressIs | mk/kernel/vm/pmm.c:45-64 | The page of an address and the address of a page are inverse on page addresses. |
| Vmm.InsideIs | mk/kernel/vm/vmm.c:48-69 | The 64-bit range test with its overflow check is exact containment. |
| Vmm.AddRegionToAspace | mk/kernel/vm/vmm.c:115-155 | A specific request succeeds exactly when it is in range and meets no region, and is told apart from out of range; the list gains the region at its place or is unchanged. |
| Vmm.InsertIs | mk/kernel/vm/vmm.c:115-155 | Inserting adds the region at one place, after those with smaller bases, and keeps the others and their order. |
| Vmm.InsertOk | mk/kernel/vm/vmm.c:115-155 | Inserting a region that is in range and meets no other keeps the list sorted, disjoint and inside the space. |
| Vmm.CheckGap | mk/kernel/vm/vmm.c:162-212 | In one gap: the lowest aligned address that fits, none, or none from here on (wrap-around or end of the space). |
| Vmm.AllocSpot | mk/kernel/vm/vmm.c:214-247 | The lowest aligned address that fits anywhere, and failure only when no gap fits, including a space that ends at the top of memory. |
| Vmm.AllocRegion | mk/kernel/vm/vmm.c:250-288 | Succeeds exactly when the request can be granted and a region structure is to be had; the list stays sorted, disjoint and inside. |
| VmmSpace.Space.Alloc | mk/kernel/vm/vmm.c:485-587 | Which status, exactly: invalid arguments for size 0 or a specific request without an address, no memory if and only if a region structure, the pages or the room cannot be had, map failure if and only if the mapping loop fails on the tables. On success the first free pages are taken, the region is granted and inserted, and byte k of it translates to byte k of its pages, with no other leaf changed. On failure the region list and the set of free pages are as before; so is every leaf whenever every leaf lay in a region, and then a map failure needs a misaligned address or a want of tables. |
| VmmSpace.Space.AllocMapped | mk/kernel/vm/vmm.c:522-587 | The same once the pages are in hand, for failures of the region and of any page. |
| VmmSpace.Space.AllocContiguous | mk/kernel/vm/vmm.c:399-483 | The same with pages consecutive in physical memory: no memory if and only if there is no aligned run, no structure or no room; map failure if and only if the one mapping fails. |
| VmmSpace.Space.MapContiguous | mk/kernel/vm/vmm.c:440-483 | The same once the run is in hand. |
| VmmSpace.Space.MapAll | mk/kernel/vm/vmm.c:538-559 | The loop maps the pages of the list one after another and stops at the first that fails; it gets to the end exactly when each map succeeds on the tables left by those before. |
| VmmSpace.Space.FreeRegion | mk/kernel/vm/vmm.c:631-655 | Succeeds exactly when a region holds the address; returns exactly its pages and unmaps its range, which removes exactly its translations whenever every leaf lay in a region. |
| VmmSpace.Space.RemoveRegionLocked | mk/kernel/vm/vmm.c:609-629 | Takes the region that holds the address off the list and unmaps its range in the tables. |
| VmmSpace.UndoneExactly | mk/kernel/vm/vmm.c:568-582 | After a map failure every leaf is as before if and only if the range given to the region was off a page boundary or held nothing. |
| VmmSpace.LosesLeaf | mk/kernel/vm/vmm.c:485-587 | In every space, allocating one page over a leaf that no region holds fails and takes away all the translations of that leaf. |
| VmmSpace.LostMapping | mk/kernel/vm/vmm.c:485-587 | A client: a 2 MiB block mapped outside every region, one page allocated in it at a given address, and all 512 pages are unmapped. |
| VmmSpace.RoomIsUnmapped | mk/kernel/vm/vmm.c:485-587 | Where every leaf lies in a region, the room for a new region holds no leaf. |
| VmmSpace.RegionIsUncut | mk/kernel/vm/vmm.c:609-629 | Where every leaf lies in a region, unmapping a region cuts no leaf. |
| VmmSpace.CoveredMaps | mk/kernel/vm/vmm.c:538-559 | Where every leaf lies in a region, the pages of a new region can all be mapped given a table for each page and level. |
| VmmSpace.EachExactly | mk/kernel/vm/vmm.c:538-559 | With that many tables the loop maps all its pages if and only if nothing was mapped in the range. |
| VmmSpace.RunBacked | mk/kernel/vm/vmm.c:454-459 | One mapping of a run translates each byte as its pages mapped one by one do. |
| VmmSpace.BackedNext | mk/kernel/vm/vmm.c:543-559 | One page more: its bytes translate to it and no other leaf changes. |
| VmmSpace.GivesBack | mk/kernel/vm/vmm.c:577-585 | Two lists that together are the pages taken put every free list back, up to order. |
| Scheduler.EveryRunLocates | mk/kernel/thread.c:80-100 | In every run a ready thread that is not idle is in exactly one run queue, that of its priority; a blocked one exactly in the list of its wait queue; a running one on no list and current on exactly one CPU; counts are list lengths and bitmap bits are set exactly for non-empty queues. |
| Scheduler.Booted | mk/kernel/thread.c:856-882 | The state in which every CPU runs its idle thread satisfies the location invariant. |
| Joining.NobodyJoinsTheDead | mk/kernel/thread.c:307-424 | In every run each thread that can be joined has a queue of its own, and nobody waits on the queue of a thread that is dead. |
| Joining.StepJoin | mk/kernel/thread.c:307-424 | Every step keeps that, whichever threads it creates, ends, joins, detaches or reaps. |
| Joining.ExitJoin | mk/kernel/thread.c:382-424 | A thread that exits releases everyone waiting to join it before the CPU goes on. |
| Scheduler.ReschedOk | mk/kernel/thread.c:469-601 | Replacing the thread that left a CPU restores the location invariant. |
| Scheduler.NextOk | mk/kernel/thread.c:431-457 | The thread chosen is off every list and, if it is an idle thread, the one of this CPU. |
| Scheduler.ChooseIs | mk/kernel/thread.c:431-457 | The choice is the first eligible thread of the highest priority that has one, and the idle thread exactly when none is eligible. |
| Scheduler.RoundRobin | mk/kernel/thread.c:612-631 | With only yields and nothing of a higher priority, the k-th eligible thread queued at the top priority runs after k yields. |
| Scheduler.PreemptKeeps | mk/kernel/thread.c:648-676 | A preempted thread with quantum left goes on running unless something of a higher priority can run. |
| Scheduler.WokenRunsFirst | mk/kernel/thread.c:1141-1176 | A wake with reschedule runs the woken thread at once if nothing above it can run. |
| Scheduler.Sched.GetTopThread | mk/kernel/thread.c:431-457 | The bitmap loop takes the chosen thread off its queue, clears the bit when the queue empties, and falls back to the idle thread. |
| Scheduler.Sched.InsertInRunQueueHead | mk/kernel/thread.c:80-89 | Puts a ready thread at the head of the queue of its priority and sets the bit. |
| Scheduler.Sched.InsertInRunQueueTail | mk/kernel/thread.c:91-100 | Puts a ready thread at the tail of the queue of its priority and sets the bit. |
| Scheduler.Sched.ThreadResched | mk/kernel/thread.c:469-601 | Switches the CPU to the chosen thread, renewing its quantum if used up and moving CPU ownership. |
| Scheduler.Sched.ThreadYield | mk/kernel/thread.c:612-631 | The running thread goes to the tail with no quantum, an idle thread on no queue, and the CPU is rescheduled. |
| Scheduler.Sched.ThreadPreempt | mk/kernel/thread.c:648-676 | The running thread goes to the head if it has quantum left and to the tail if not. |
| Scheduler.Sched.ThreadTimerTick | mk/kernel/thread.c:714-726 | Counts the quantum down except for real-time and idle threads, and asks for a reschedule when it is used up. |
| Scheduler.Sched.ThreadSleep | mk/kernel/thread.c:755-771 | The running thread sleeps on no list and the CPU is rescheduled. |
| Scheduler.Sched.ThreadSleepHandler | mk/kernel/thread.c:729-743 | A sleeper becomes ready at the head of its queue. |
| Scheduler.Sched.ThreadSetPriority | mk/kernel/thread.c:831-847 | The priority is brought into 1 to 31, and the thread queued under the new one. |
| Scheduler.Sched.WaitQueueBlock | mk/kernel/thread.c:1092-1125 | A zero timeout changes nothing; otherwise the thread is blocked at the tail of the wait list and counted. |
| Scheduler.Sched.WaitQueueWakeOne | mk/kernel/thread.c:1141-1176 | Wakes the head of the wait list, if any, with the current thread queued before it when rescheduling. |
| Scheduler.Sched.WaitQueueWakeAll | mk/kernel/thread.c:1192-1240 | Empties the wait list, each thread at the head of its run queue, and reports how many. |
| Scheduler.Sched.UnblockFromWaitQueue | mk/kernel/thread.c:1268-1289 | Takes one blocked thread out of whatever list it is in, and does nothing to a thread that is not blocked. |
| Scheduler.Sched.ThreadCreate | mk/kernel/thread.c:146-222 | A new thread is suspended, on no list, with an empty queue for those who join it. |
| Scheduler.Sched.ThreadResume | mk/kernel/thread.c:275-297 | A suspended thread becomes ready at the head of its queue; any other thread is left alone. |
| Scheduler.Sched.ThreadExit | mk/kernel/thread.c:382-424 | The running thread is dead, on no list; those joining it are ready; the CPU is rescheduled. |
| Scheduler.Sched.ThreadJoin | mk/kernel/thread.c:307-325 | Blocks the caller on the queue of a living thread, unless that thread is detached or there is no time. |
| Scheduler.Sched.ThreadDetach | mk/kernel/thread.c:354-373 | Releases those joining with the detached error; a dead thread is removed, a living one can no longer be joined. |
| Scheduler.Sched.constructor | mk/kernel/thread.c:856-882 | Every CPU runs its idle thread. |
| SchedEffects.StepDoes | mk/kernel/thread.c:146-1289 | What each of the sixteen critical sections leaves behind, field by field: the state, priority, quantum, CPU and wait result of every thread it moves, its place on run queue or wait list, the bitmap, and that nothing else changes. |
| SchedEffects.ReschedDoes | mk/kernel/thread.c:469-609 | A CPU goes to the first eligible thread of the highest queue that has one, or else to its idle thread; a thread that comes on with no quantum left gets 5; the one that leaves gives up its CPU. |
| SchedEffects.DrainedIs | mk/kernel/thread.c:1192-1240 | Waking a list one after the other puts its threads ahead of those already ready, the last one woken first, each with the result passed. |
| SchedEffects.SleeperWakes | mk/kernel/thread.c:729-743 | A sleeper whose time is up is ready at the head of its own queue, on no other list, and nothing else changes. |
| SchedEffects.UsedUpMakesWay | mk/kernel/thread.c:648-697 | A preempted thread with its quantum used up makes way for the first of its equals that can run, and waits last. |
| SchedEffects.TicksCount | mk/kernel/thread.c:714-727 | Any number of ticks counts the quantum of the running thread down by that number, and changes nothing else. |
| SchedEffects.ResultStays | mk/kernel/thread.c:1092-1125 | Through any run until the thread blocks again, its wait has the result it was woken with. |
| SchedEffects.WakeGivesResult | mk/kernel/thread.c:1141-1176 | The thread that a wake takes off the list has the result passed to it. |
| Mutex.MutualExclusion | mk/kernel/mutex.c:63-127 | Under every interleaving of acquires, releases and timeouts the count is owner plus blocked plus timed out and still to run, and there is at most one owner. |
| Mutex.RunInv | mk/kernel/mutex.c:63-127 | Every run keeps the counting invariant. |
| Mutex.UnownedIsFree | mk/kernel/mutex.c:63-127 | In runs with timeouts of 0 or infinity only, an unowned mutex has no waiters. |
| Mutex.OwnedInOrder | mk/kernel/mutex.c:63-127 | In runs with timeouts of 0 or infinity only, threads own the mutex in the order in which they came for it, those that find it free at once, and none is lost. |
| Mutex.LostWakeup | mk/kernel/mutex.c:74-88 | A step leaves waiters on an unowned mutex exactly when it blocks while unowned because a timed-out waiter has not run yet. |
| Mutex.StuckForever | mk/kernel/mutex.c:104-127 | From then on an untimed waiter is never woken and nobody owns the mutex again. |
| Mutex.StuckIsReachable | mk/kernel/mutex.c:63-127 | A run of six steps that gets there. |
| Mutex.Lock.AcquireTimeout | mk/kernel/mutex.c:63-99 | The critical section up to the return or the switch: acquired if and only if the count was 0, timed out at once with nothing changed if and only if it was not and there is no time, blocked at the end of the queue otherwise; holder and count in each case. |
| Mutex.Lock.AfterBlock | mk/kernel/mutex.c:74-94 | When the thread runs again: owner, or backed out of the count after a timeout. |
| Mutex.Lock.ReleaseBy | mk/kernel/mutex.c:104-127 | Clears the holder, lowers the count and hands the mutex to the first waiter, if the count says there is one. |
| Mutex.Lock.TimeoutHandler | mk/kernel/thread.c:1057-1072 | Takes a timed waiter off the list; a thread no longer waiting is left alone. |
| Semaphore.TokensConserved | mk/kernel/semaphore.c:33-93 | In every run count = initial + posts - grants - blocked - timed out and still to run, and grants never exceed initial + posts. |
| Semaphore.BlockedIsDeficit | mk/kernel/semaphore.c:33-93 | In runs with timeouts of 0 or infinity only, exactly max(0, -count) threads are blocked. |
| Semaphore.GrantedInOrder | mk/kernel/semaphore.c:33-93 | In runs with timeouts of 0 or infinity only, the threads given a token are the first ones that came for one, in order. |
| Semaphore.PassedOver | mk/kernel/semaphore.c:78-93 | A step leaves a thread blocked beside a free token exactly when it blocks on a shortage that is owed to timed-out waiters still to run. |
| Semaphore.StarvedIsReachable | mk/kernel/semaphore.c:33-93 | A run of five steps that gets there. |
| Semaphore.Sem.SemPost | mk/kernel/semaphore.c:33-48 | Adds a token and hands it to the first waiter when the count was negative. |
| Semaphore.Sem.TimedWait | mk/kernel/semaphore.c:50-93 | Takes a token if and only if the count is positive, times out at once with nothing changed if and only if it is not and there is no time, and blocks at the end of the queue otherwise. |
| Semaphore.Sem.TryWaitBy | mk/kernel/semaphore.c:65-76 | Takes a token only when the count is positive. |
| Semaphore.Sem.AfterTimeout | mk/kernel/semaphore.c:83-88 | A timed-out waiter gives back its place in the count when it runs again. |
| Semaphore.Sem.TimeoutHandler | mk/kernel/thread.c:1057-1072 | Takes a timed waiter off the list; a thread no longer waiting is left alone. |
| Timer.OrderIs | mk/lib/libc/include/sys/types.h:35-40 | Among times in any window around now that is at most half the 32-bit range wide, the wrapping comparison is the order of their distances from now. |
| Timer.OffsetsCompare | mk/lib/libc/include/sys/types.h:35-40 | Of two times x and y after now the earlier is found earlier if and only if they are at most half the range apart. |
| Timer.LongDelayIsDue | mk/kernel/timer.c:70-106 | A timer just set is not yet due if and only if its delay is between 1 and half the range. |
| Timer.AlwaysSorted | mk/kernel/timer.c:51-270 | In every run of sets, cancels, ticks and passing time, across wraps of the clock, with delays and periods below the window ahead and no more than the window back between ticks, the queue is in order under the wrapping comparison with each timer once, and after a tick nothing in it is due. |
| Timer.GoodLater | mk/kernel/timer.c:51-68 | A queue in order at one moment is in order at any later one while its deadlines stay in a window there. |
| Timer.PassKept | mk/kernel/timer.c:198-222 | Time may pass up to the window back after a tick. |
| Timer.SortedIs | mk/kernel/timer.c:51-68 | The queue is in order under the wrapping comparison. |
| Timer.InsertedGood | mk/kernel/timer.c:51-68 | Insertion keeps the queue in order with each timer once. |
| Timer.NextIs | mk/kernel/timer.c:250-255 | The next deadline of a periodic timer is not before now and lighter (late 2, due now 1, later 0) than the one that fired. |
| Timer.FiredLighter | mk/kernel/timer.c:214-259 | Whatever the callback cancels or arms, one turn of the tick loop lowers the total weight of the queue and leaves nothing due before the timer that fired. |
| Timer.DoAllLoad | mk/kernel/timer.c:232-237 | Nothing a callback does adds a timer that is already due. |
| Timer.SetIsLater | mk/kernel/timer.c:122-147 | A timer set now or later, with its delay raised to at least 1, is due after now. |
| TimerEffects.TickIs | mk/kernel/timer.c:198-270 | Whatever the other callbacks do, a timer that none of them names fires at a tick if and only if it is due, twice if its period brings it to just now; afterwards it is set for the first of deadline plus period and now plus period that is after now, or unset if it has no period; one due later is left alone. |
| TimerEffects.FiredIs | mk/kernel/timer.c:214-259 | One turn: the head is set again a period on, or a period from now if that is past, or unset if it has no period, unless its own callback set or cancelled it; every other timer is as the callback left it. |
| TimerEffects.DoIs | mk/kernel/timer.c:70-195 | Setting a timer leaves it set so, cancelling it leaves it unset with no period, and no other timer changes. |
| TimerEffects.EventIs | mk/kernel/timer.c:70-270 | How each single timer stands after a set, a stop, a tick and the passing of time. |
| TimerEffects.PeriodicStays | mk/kernel/timer.c:214-259 | In every run a periodic timer that nobody sets or cancels stays set, with its period. |
| Timer.TimerQueue.InsertTimerInQueue | mk/kernel/timer.c:51-68 | Puts the timer before the first one due later. |
| Timer.TimerQueue.TimerSet | mk/kernel/timer.c:70-106 | Sets the deadline to the clock plus the delay on 32 bits and queues the timer. |
| Timer.TimerQueue.TimerCancel | mk/kernel/timer.c:152-195 | Takes the timer off the queue and stops its period, so that its own callback does not requeue it. |
| Timer.TimerQueue.TimerTick | mk/kernel/timer.c:198-270 | The loop ends for every behaviour of the callbacks; no timer fires before its deadline; timers fire in order; every timer left is due strictly after now; the queue stays in order. |
| Timer.TimerQueue.FireHead | mk/kernel/timer.c:224-258 | One turn: the head leaves the queue, its callback runs, and it is requeued if it is periodic, not queued and not stopped, as `TimerEffects.FiredIs` says of every timer. |
| Virtio.Partition | mk/dev/virtio/virtio.c:240-295 | In every run, following next from free_list visits exactly free_count distinct descriptors; each chain handed out is a walk of distinct descriptors with F_NEXT on all but the last; no descriptor is in two of them and every one is in one. |
| Virtio.ChainLength | mk/dev/virtio/virtio.c:263-295 | A chain has exactly the length asked for, or nothing changes when too few descriptors are free. |
| Virtio.StepIs | mk/dev/virtio/virtio.c:240-295 | The free list is a stack: a chain takes its first descriptors, the last one taken being the head, and the head of a chain goes back on top; other chains are left alone. |
| Virtio.PopInv | mk/dev/virtio/virtio.c:268-289 | Moving the head of the free list to the front of a chain keeps the partition. |
| Virtio.PushInv | mk/dev/virtio/virtio.c:240-246 | Returning the first descriptor of a chain keeps the partition. |
| Virtio.VRing.constructor | mk/dev/virtio/virtio.c:364-372 | A new ring has every descriptor on the free list, nothing submitted, and memory of its own. |
| Virtio.VRing.FreeDesc | mk/dev/virtio/virtio.c:240-246 | Links the descriptor in at the head of the free list and counts it. |
| Virtio.VRing.AllocDesc | mk/dev/virtio/virtio.c:248-261 | Takes the head of the free list, or answers 0xffff when it is empty; the available ring stays as it is. |
| Virtio.VRing.AllocDescChain | mk/dev/virtio/virtio.c:263-295 | Builds the chain back to front from the free list, or fails and changes nothing; the available ring stays as it is. |
| Virtio.VRing.SubmitChain | mk/dev/virtio/virtio.c:297-310 | The available ring shows the latest submissions in order across index wrap. |
| Virtio.VRing.ServiceUsed | mk/dev/virtio/virtio.c:92-105 | The loop makes (entries added) mod (ring size) callbacks, so each new element reaches the callback once and in order if and only if fewer than a ring's worth were added; the position is up to date afterwards. |
| Virtio.SubmitOne | mk/dev/virtio/virtio.c:263-310 | A client: a chain of any length taken from a new ring and submitted is what slot 0 of the available ring shows. |
| Virtio.MissesFullRing | mk/dev/virtio/virtio.c:92-105 | For every ring size: after as many chains of one descriptor are submitted as the ring has, the device returns all of them at once and no callback is made. |
| Virtio.ModMod | mk/dev/virtio/virtio.c:92-94 | The 16-bit index and the ring position agree because the ring size divides 65536. |
| Port.Delivery | mk/kernel/port.c:360-427 | For every open reader, what it has read then what waits for it equals what it started with then the batches it accepted, in order, each whole or not at all. |
| Port.OneOwner | mk/kernel/port.c:116-241 | In every run a write port owns a ring exactly when it has no readers, and no ring has two owners. |
| Port.OpenBacklog | mk/kernel/port.c:174-241 | The first reader starts with the backlog of the write port, a further one with nothing, and a second reader of a unicast port is refused with nothing changed. |
| Port.CloseBacklog | mk/kernel/port.c:512-521 | The last reader to close leaves what it had not read as the backlog. |
| PortModel.StepIs | mk/kernel/port.c:116-533 | With each ring held by value, as the backlog of a port or the queue of one reader, every operation is the plain one: a batch is added whole to the backlog or to each queue that has room, a first reader takes the backlog, the last one leaves it, a closed port takes nothing. |
| PortModel.BacklogKept | mk/kernel/port.c:375-377 | While nobody opens its name, a port keeps its backlog and adds to it, in order, each batch written to it while it is open that still fits. |
| PortModel.FirstReaderReads | mk/kernel/port.c:174-241 | Through any run, the first reader to open the port reads that backlog in order before anything written later. |
| PortModel.ClosedStays | mk/kernel/port.c:371-375 | A write port that was closed stays closed in every run. |
| PortModel.CloseCloses | mk/kernel/port.c:505-533 | Closing a write port closes it. |
| PortModel.CreatingIs | mk/kernel/port.c:116-172 | A lookup enters a thread as creating a port if and only if the name is short enough and not in use; an addition and a failure take it off. |
| Port.WriteAllIs | mk/kernel/port.c:384-404 | Each reader's ring takes the batch once, whole or not at all, and no other ring changes. |
| Port.NeverRefused | mk/kernel/port.c:120-124 | The mode test of port_create refuses no mode, because the broadcast bit it looks for is 0. |
| Port.StepBigRule | mk/kernel/port.c:120-172 | A step keeps the promise that only unicast ports have a large buffer if and only if it does not add a port whose mode asks for the big buffer and not for unicast. |
| Port.BigWithoutUnicast | mk/kernel/port.c:116-172 | For every name: a caller that asks for a big buffer and not for unicast gets a port that breaks the promise. |
| Port.BigRuleHolds | mk/kernel/port.c:116-241 | In every run whose callers ask for big buffers only with unicast, the promise holds throughout, whoever owns the ring. |
| Port.StepDistinct | mk/kernel/port.c:164-168 | A step leaves the names of the ports distinct if and only if it does not add a name that was added since it was looked up. |
| Port.NamesDistinct | mk/kernel/port.c:116-172 | Names stay distinct in every run in which no lookup of a name begins while a port of that name is being created. |
| Port.RaceDuplicates | mk/kernel/port.c:164-168 | For every name and mode: two lookups before two additions make two ports of one name. |
| Port.ShadowedForever | mk/kernel/port.c:174-241 | The later of two ports of one name stays without readers in every run. |
| Port.PortBuf.Write | mk/kernel/port.c:92-102 | The ring takes a batch whole, in order after what waits, or refuses it and stays as it is. |
| Port.PortBuf.Read | mk/kernel/port.c:104-111 | Returns the oldest packet, or reports that there is none. |
| Port.PortBuf.constructor | mk/kernel/port.c:78-88 | An empty ring of 8 or 64 packets. |
| Port.Ports.PortLookup | mk/kernel/port.c:116-146 | The first critical section: refuses a long name, finds a port of that name open or closed, or goes on to create one. |
| Port.Ports.PortAdd | mk/kernel/port.c:148-172 | The second one: adds the port with a ring of the size its mode asks for. |
| Port.Ports.PortOpen | mk/kernel/port.c:174-241 | Hands over the write port's ring to a first reader, gives a further reader a new one, or refuses. |
| Port.Ports.PortWrite | mk/kernel/port.c:360-409 | Writes to the port's own ring or to every reader's. Bad handle exactly when closed; not enough buffer exactly when the port's own ring lacks room; partial write exactly when some reader's ring does. |
| Port.WroteAll | mk/kernel/port.c:381-387 | Every ring in the list took the batch if and only if every reader of the port had room for it. |
| Port.Ports.PortRead | mk/kernel/port.c:411-427 | One pass of a read: the oldest packet of the reader's ring, if any. |
| Port.Ports.PortClose | mk/kernel/port.c:505-533 | Takes the reader off its write port; the last one hands its ring back, others drop theirs. |
| PortWait.StepClaimed | mk/kernel/port.c:381-398 | While readers are blocked there is a woken thread for every packet; a step breaks this if and only if it is a batch longer than the threads woken, with another reader left blocked. |
| PortWait.SinglesClaimed | mk/kernel/port.c:360-427 | With single packets every run keeps it. |
| PortWait.Stranded | mk/kernel/port.c:389-397 | A batch of two for two blocked readers leaves one of them blocked beside a packet. |
| PortDelivery.Refines | mk/kernel/port.c:360-427 | On the ports and their rings, every write, read, wake and timeout does to a read port and its threads what the counting model of it says. |
| PortDelivery.Delivered | mk/kernel/port.c:360-427 | In every run of ports and reading threads, what the threads got then what waits in the ring is what was there then the batches that arrived, in order, each packet to one thread. |
| PortDelivery.RunClaimed | mk/kernel/port.c:381-427 | With single packets, every run on the ports keeps a woken thread for each packet while a reader is blocked. |
| PortDelivery.Drained | mk/kernel/port.c:411-427 | As many woken threads as packets: when they run, each gets the next packet and the ring is empty. |
| PortDelivery.ClaimedAreDelivered | mk/kernel/port.c:360-427 | With single packets, after any run that leaves a reader blocked, the threads already woken take every waiting packet in order, and nobody blocked is needed. |
| PortWait.ReadPort.Deliver | mk/kernel/port.c:381-398 | Takes the batch if it fits and wakes one reader. |
| PortWait.ReadPort.PortRead | mk/kernel/port.c:411-427 | A packet at once, or the end of the queue, or nothing when there is no time. |
| PortWait.ReadPort.AfterWake | mk/kernel/port.c:411-427 | A woken reader takes a packet or blocks again. |
| PortWait.ReadPort.TimeoutHandler | mk/kernel/thread.c:1057-1072 | A blocked reader whose time is up leaves the queue. |
| BlockCache.ViewIsLatest | mk/lib/bcache/bcache.c:75-304 | Over every run, whatever was evicted, refilled and flushed, each block number holds the last value stored in it. |
| BlockCache.StepView | mk/lib/bcache/bcache.c:107-304 | What one operation makes of the contents of each block number. |
| BlockCache.HeldStays | mk/lib/bcache/bcache.c:132-163 | A block with references is never given to another block number. |
| BlockCache.FlushWritesView | mk/lib/bcache/bcache.c:288-304 | After a flush the device holds the view of every block that no holder has still to mark dirty. |
| BlockCache.ClaimedView | mk/lib/bcache/bcache.c:132-163 | Taking a block from the free list or from the least recently used unreferenced one, written back if dirty, changes no other block number's contents. |
| BlockCache.StepInv | mk/lib/bcache/bcache.c:75-304 | Every operation keeps: no block number cached twice, and a block that differs from the device is dirty or held by someone who has still to mark it. |
| CacheModel.StepIs | mk/lib/bcache/bcache.c:107-304 | Every operation of the cache is the plain one on a list of blocks, least recently used first: what it does to references, dirty flags, contents, order, the block that is evicted and the device. |
| CacheModel.FlushKeepsLatest | mk/lib/bcache/bcache.c:248-304 | If every store to a block number in a run is marked later on, a flush at the end leaves the last value stored on the device. |
| CacheModel.MarkMakesDirty | mk/lib/bcache/bcache.c:248-263 | Marking a cached block sets its dirty flag, ends what was unmarked, and leaves contents and references. |
| CacheModel.StepRefs | mk/lib/bcache/bcache.c:212-246 | A get adds a reference to its block, a put takes one away, and no operation changes the references of any other block. |
| CacheModel.RunRefs | mk/lib/bcache/bcache.c:212-246 | In every run a block has as many references more as it was got more often than put. |
| CacheModel.BalancedCanHold | mk/lib/bcache/bcache.c:132-163 | After any run in which every block was put as often as it was got, a buffer can be had for any block. |
| BlockCache.BCache.constructor | mk/lib/bcache/bcache.c:49-73 | An empty cache over the device, with every buffer on the free list. |
| BlockCache.BCache.FindBlock | mk/lib/bcache/bcache.c:107-129 | Finds a cached block and moves it to the tail of the list. |
| BlockCache.BCache.AllocBlock | mk/lib/bcache/bcache.c:132-163 | Gives a free buffer, or the first unreferenced one written back if dirty, or fails. |
| BlockCache.BCache.FindOrFillBlock | mk/lib/bcache/bcache.c:165-195 | The block for a number, filled from the device on a miss. |
| BlockCache.BCache.ReadBlock | mk/lib/bcache/bcache.c:197-210 | Returns the current contents of the block number. |
| BlockCache.BCache.GetBlock | mk/lib/bcache/bcache.c:212-230 | Hands out a buffer with the current contents and holds it. |
| BlockCache.BCache.PutBlock | mk/lib/bcache/bcache.c:232-246 | Lets go of one reference. |
| BlockCache.BCache.MarkBlockDirty | mk/lib/bcache/bcache.c:248-263 | Marks a cached block dirty and reports a block that is not cached. |
| BlockCache.BCache.ZeroBlock | mk/lib/bcache/bcache.c:265-286 | The block number reads as zeros afterwards, or nothing changes when no buffer is to be had. |
| BlockCache.BCache.Flush | mk/lib/bcache/bcache.c:288-304 | With nothing left to mark, the device equals the view afterwards. |
| Bio.TrimRangeIs | mk/lib/bio/bio.c:305-317 | The trimmed length is the part of the request on the device if and only if the end of the request is a positive 64-bit offset. |
| Bio.TrimFails | mk/lib/bio/bio.c:305-317 | A length for which it is not. |
| Bio.TrimBlocksIs | mk/lib/bio/bio.c:319-328 | The trimmed count is the part of the request on the device if and only if the 32-bit end of the request does not wrap round into the device. |
| Bio.TrimBlocksFails | mk/lib/bio/bio.c:319-328 | A count for which it does. |
| Bio.MiddleLeavesPart | mk/lib/bio/bio.c:86-100 | The whole-block transfer leaves less than a block for the last copy if and only if the length is below 4 GiB. |
| Bio.MiddleFails | mk/lib/bio/bio.c:86-100 | At 4 GiB it moves no block at all and leaves everything to the last copy. |
| Bio.OverlayAt | mk/lib/bio/bio.c:128-243 | What writing means: the bytes written in their place and every other byte as it was. |
| Bio.Disk.DefaultRead | mk/lib/bio/bio.c:33-126 | Returns exactly the bytes of the range, on the direct and the bounce-buffer path. |
| Bio.Disk.DefaultWrite | mk/lib/bio/bio.c:128-243 | Changes exactly the bytes of the range, on the direct and the bounce-buffer path. |
| Bio.Disk.PatchBlock | mk/lib/bio/bio.c:141-167 | Reading a block, replacing part and writing it back replaces that part only. |
| Bio.Disk.DefaultErase | mk/lib/bio/bio.c:245-270 | Writes the erase byte over the range up to the end of the device, and stops there. |
| Bio.Disk.Read | mk/lib/bio/bio.c:357-369 | Returns exactly the part of the request that lies on the device. |
| Bio.Disk.Write | mk/lib/bio/bio.c:385-397 | Changes exactly the part of the request that lies on the device and reports its length. |
| Bio.Disk.Erase | mk/lib/bio/bio.c:413-424 | Erases exactly the part of the request that lies on the device and reports its length, for every length, also where the trim is wrong. |
| BioWindows.PublishIs | mk/lib/bio/subdev.c:143-152 | The 32-bit range test accepts exactly the windows that lie in the parent. |
| BioWindows.WindowRead | mk/lib/bio/subdev.c:32-36 | Through windows nested to any depth a read returns the window's own bytes. |
| BioWindows.WindowWrite | mk/lib/bio/subdev.c:44-48 | Through windows nested to any depth a write changes exactly its range of the window. |
| BioWindows.WriteThenRead | mk/lib/bio/subdev.c:32-48 | Through any depth, what is written is read back from the same place. |
| BioWindows.EraseThenRead | mk/lib/bio/subdev.c:32-60 | Through any depth, what is erased reads as the erase byte. |
| BioWindows.WindowReadBlocks | mk/lib/bio/subdev.c:38-42 | Through any depth the block hook reads the window's own blocks, those that exist. |
| BioWindows.WindowWriteBlocks | mk/lib/bio/subdev.c:50-54 | Through any depth the block hook replaces exactly those blocks. |
| BioWindows.WindowErase | mk/lib/bio/subdev.c:56-60 | Through any depth an erase whose end does not overflow erases exactly its range of the window. |
| BioWindows.EraseOverflows | mk/lib/bio/subdev.c:56-60 | Through any depth one whose end overflows is trimmed at no level and erases from there to the end of the disk. |
| BioWindows.EraseStays | mk/lib/bio/bio.c:413-424 | Whatever the disk holds, an erase leaves the disk after its window alone if and only if its end does not overflow or the window ends where the disk does. |
| BioWindows.EraseReachesSibling | mk/lib/bio/subdev.c:56-60 | Erasing 2^64 - 1 bytes through the first half of a disk erases the second half too. |
| BioWindows.WindowsApart | mk/lib/bio/subdev.c:32-60 | Writing bytes, writing blocks or erasing through one window, with an end that does not overflow, leaves every window that shares no block with it as it was. |
| BioWindows.PublishGeometry | mk/lib/bio/subdev.c:105-142 | With erase geometry a window is accepted if and only if it is on the erase units of the first region that contains it or, if none does, of the last region. |
| BioWindows.SearchGeometry | mk/lib/bio/subdev.c:113-121 | The search stops at the first region that contains the range and otherwise at the last one. |
| BioWindows.GeometryExactly | mk/lib/bio/subdev.c:99-134 | An accepted window lies in one erase region, on its units, except if and only if no region contains it and it is on the units of the last. |
| BioWindows.OutsideAccepted | mk/lib/bio/subdev.c:113-134 | A window that begins after the end of its parent is accepted. |
| Init.InitLevel | mk/top/init.c:27-82 | Calls exactly the sequence of hooks that a stable sort by level gives, and ends. |
| Init.FindNext | mk/top/init.c:38-70 | One pass finds the next hook after the last one called, in order of level and then position. |
| Init.StableSort | mk/top/init.c:27-82 | That sequence is ordered by level, and within a level by position, so no hook comes twice. |
| Init.ByLevelIs | mk/top/init.c:45-50 | It holds exactly the hooks with the flag and a level in range. |
| Init.RangesJoin | mk/top/init.c:27-82 | Running two adjacent ranges one after the other calls what one run over both calls. |
| Cbuf.Fifo | mk/lib/cbuf/cbuf.c:49-162 | Over every run of writes, reads and waits, bytes read then bytes left are the bytes there were then those accepted, in order. |
| Cbuf.PutAndTake | mk/lib/cbuf/cbuf.c:49-162 | A write takes all of its bytes or fills the buffer; a read takes all there is or as many bytes as asked for. |
| Cbuf.NobodyBlocked | mk/lib/cbuf/cbuf.c:49-162 | However waits fall between the halves of writes and reads, nobody is blocked on the event while the buffer holds data and its lock is free; a reader past the event is then given data, and one about to wait passes. |
| Cbuf.ReadersKept | mk/lib/cbuf/cbuf.c:106-162 | In every run a blocking reader that has begun is still reading or has been given data. |
| Cbuf.StepReaders | mk/lib/cbuf/cbuf.c:106-162 | Each step adds the reader that begins and takes away the one that is given data, and no other. |
| Cbuf.ModularIs | mk/lib/cbuf/cbuf.c:40-47 | The pointer and space arithmetic is arithmetic modulo the buffer length. |
| Cbuf.CircularBuffer.PutLocked | mk/lib/cbuf/cbuf.c:49-92 | Takes the lock and as many bytes as fit below capacity minus one, in order. |
| Cbuf.CircularBuffer.SignalAndUnlock | mk/lib/cbuf/cbuf.c:94-97 | Signals the event if the buffer is not empty, which releases everyone blocked, and gives up the lock. |
| Cbuf.CircularBuffer.Write | mk/lib/cbuf/cbuf.c:49-104 | The two in a row. |
| Cbuf.CircularBuffer.TakeLocked | mk/lib/cbuf/cbuf.c:117-144 | Takes the lock and the oldest bytes, at most as many as asked for; a blocking reader that gets none goes back to wait. |
| Cbuf.CircularBuffer.ClearAndUnlock | mk/lib/cbuf/cbuf.c:146-155 | Clears the event if the read emptied the buffer, and gives up the lock. |
| Cbuf.CircularBuffer.Read | mk/lib/cbuf/cbuf.c:106-162 | One pass: the two in a row. |
| Cbuf.CircularBuffer.Peek | mk/lib/cbuf/cbuf.c:164-189 | The two regions together are the whole content in order. |
| Cbuf.CircularBuffer.WriteChar | mk/lib/cbuf/cbuf.c:191-211 | One byte if there is room. |
| Cbuf.CircularBuffer.ReadChar | mk/lib/cbuf/cbuf.c:213-244 | The oldest byte if there is one. |
| Cbuf.CircularBuffer.SpaceAvail | mk/lib/cbuf/cbuf.c:40-43 | Free space is the length minus one minus what is held. |
| Cbuf.CircularBuffer.EventWait | mk/lib/cbuf/cbuf.c:111-115 | Outside the lock, whoever holds it: the reader passes if the event is signaled and is blocked if not. |
| Event.OneForEach | mk/kernel/event.c:83-149 | With the automatic flag, in every run signals given to an unsignaled event are threads released plus signals cleared plus the one still there, so no signal releases two threads. |
| Event.GateOpen | mk/kernel/event.c:83-149 | Without it, from a signal on and until it is cleared, the event stays signaled and nobody is blocked. |
| Event.Apply | mk/kernel/event.c:83-169 | Nobody waits on a signaled event, with either kind, whatever waits, signals, clearings and timeouts happen. |
| Event.ReleasedInOrder | mk/kernel/event.c:83-149 | In every run without timeouts, threads are released in the order in which they came, those that find the event signaled at once, and none is lost. |
| Event.ExpiredLeaves | mk/kernel/thread.c:1057-1072 | A wait that times out takes its own thread off the queue and no other, and leaves the signal. |
| Event.SignaledIs | mk/kernel/event.c:83-169 | Whether the event is signaled after each step. |
| Event.EventObject.EventWaitTimeout | mk/kernel/event.c:83-104 | Passes exactly when signaled, taking the signal if automatic; times out at once with no time; blocks otherwise. |
| Event.EventObject.EventSignal | mk/kernel/event.c:123-149 | Releases the first thread, or everyone, or leaves the event signaled; a second signal does nothing. |
| Event.EventObject.EventUnsignal | mk/kernel/event.c:163-169 | The event is no longer signaled. |
| Event.EventObject.TimeoutHandler | mk/kernel/thread.c:1057-1072 | Takes a timed waiter off the list; a thread no longer waiting is left alone. |
| SyncThreads.QueueIsBlocked | mk/kernel/thread.c:1057-1289 | In every run of the scheduler together with a mutex, a semaphore or an event, a thread is in the queue of the primitive if and only if the scheduler has it blocked there, in the same order, and then it is on no CPU. |
| SyncThreads.CallCoupled | mk/kernel/thread.c:1057-1289 | After each call that the primitives make, blocking, waking one, waking all or a timeout, the list of blocked threads is the queue of the primitive. |
| SyncThreads.ElsewhereKeeps | mk/kernel/thread.c:146-1289 | Every other critical section of the scheduler leaves the wait list of the primitive alone. |
| SyncThreads.ActedIs | mk/kernel/mutex.c:63-127 | What the mutex, the semaphore and the event do to their queue is what the call they make to the scheduler does. |
| SyncThreads.RunningMayWait | mk/kernel/thread.c:1092-1125 | A running thread is in no queue of a primitive, so it waits on one at a time. |
| SyncThreads.OwnerNotBlocked | mk/kernel/mutex.c:63-127 | In every run of the scheduler and a mutex there is at most one owner, and an owner is not blocked on the mutex. |

## Left out

- PageMemory.Mmu.Unmap: tables of one page are assumed; the source frees one page of a larger table and keeps the rest.
- PageMemory.Mmu.Map: the same, with one spare page taken for each table.
- MmuFlags.RunKeepsFlags: no map asks for memory type 3, for which `PteBits.MemoryTypeThree` shows what the descriptor becomes.
- Pmm.Allocator.AllocContiguous: needs the exact bound of `Pmm.FitsExactly` in each arena it searches; outside it the search can go astray.
- Pmm.SearchArena: the same bound.
- VmmSpace.Space.AllocContiguous: the same bound, since it asks for a run with that search, and fewer than 2^32 pages, to which the source truncates the count.
- VmmSpace.Space.Alloc: page tables are drawn from a budget beside the arenas, so the pages they hold are not in the set of free pages it speaks of.
- Bio.Disk.DefaultRead: needs the middle of the transfer below 4 GiB on the direct path, the exact bound of `Bio.MiddleLeavesPart`; device errors are not modelled.
- Bio.Disk.DefaultWrite: the same bound; device errors are not modelled.
- Bio.Disk.Read: needs what `Bio.TrimRangeIs` and, on the direct path for the trimmed length, `Bio.MiddleLeavesPart` need.
- Bio.Disk.Write: the same bounds.
- BioWindows.WindowRead: needs the end of the request not to overflow, the exact bound of `Bio.TrimRangeIs`.
- BioWindows.WindowWrite: the same bound.
- BioWindows.WindowReadBlocks: needs the end of the request not to wrap, the exact bound of `Bio.TrimBlocksIs`.
- BioWindows.WindowWriteBlocks: the same bound.
- Timer.TimerQueue.TimerTick: deadlines lie in a window around now no wider than half the range, the bound of `Timer.OffsetsCompare`; programming the hardware timer is not modelled.
- BlockCache.BCache.FindOrFillBlock: reads and writes succeed, the block number is on the device and a buffer can be had, as the source asserts.
- Cbuf.CircularBuffer.Read: one pass over the buffer; the loop back to the wait, which for a length of 0 never ends, is a new step.
- Scheduler.Sched.ThreadCreate: a priority of 32 or more, which the source does not check, is excluded.
- SyncThreads.QueueIsBlocked: one primitive beside the scheduler; others are among its remaining wait queues.
- Cache and TLB maintenance, memory barriers, interrupts and context-switch frames.
- The x86 and RISC-V page tables, which have the same flat-map property with less structure.
- Destroying mutexes, semaphores, events and ports, and port groups.
- vmm_reserve_space, vmm_alloc_physical and address-space teardown, which combine the same steps.
- Errors of device reads and writes, and the erase geometry a window itself gets.
- Thread statistics, real-time CPU flags and inter-processor wake-ups.
