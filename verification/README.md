# RT-Thread kernel core and litter-box controller: verified model

The firmware of the litter box is an RT-Thread application. This project models the parts of it whose
correctness rests on state that many calls share, and proves what their users rely on:

- the heap this build uses, `mem.c` (HeapBlocks, SmallMem, SmallMemLaws), the ring-based `memheap.c`
  (Memheap, MemheapLaws) and the zone allocator `slab.c` (SlabSizes, SlabPages, SlabZones, SlabLaws,
  SlabHeap, SlabPartition, SlabAlign);
- the intrusive lists of `rtservice.h` (WaitList) and, on top of them, the blocking objects of `ipc.c`:
  mutex with priority inheritance (Mutex, MutexLaws), event (Event, EventLaws), mailbox (Mailbox) and message queue
  (MessageQueue, MessageRuns, MessageLaws, MessageMachine), and the memory pool of `mempool.c` (Mempool), with one account of
  sleeping and being resumed (Wakeup) and one of linked chains (Chains);
- the ready queues and the priority bitmap of `scheduler.c` (Scheduler);
- the seven-state machine of `app_logic/fsm.c` and the control pass of `app_logic/logic.c` (Fsm, FsmLaws, Logic, LogicLaws) with
  theorems over whole runs (LogicSafety, LogicRuns, LogicTiming, LogicTrail);
- the bounded formatter of `kservice.c` (Formatter, FormatterLaws).

How it is built. What the program keeps in memory is kept in arrays and fields here: block headers in the
pool, ring links, list links, free chains through blocks, queue offsets. Each operation is a method that
stores to them as the program does, and its contract equates the new state with a function of the old one,
or says outright what it found. What the operations promise over many calls is proved about these functions
in lemmas: each step keeps an invariant, and every run from the initial state therefore does. What one call does
is stated a second time without these functions, from the state before it: who is woken, which pages change hands,
which thread runs, which state follows, what a directive prints. Interleavings
of threads are runs of steps, one step for each region in which interrupts are off; sending and receiving
through a message queue takes three, because the copy in the middle runs with interrupts on.

Configuration as in `rtconfig.h`: one core, no signals, 32-bit words, alignment 4, 32 priorities,
`RT_PRINTF_PRECISION` on and the long-long and special formatter variants off. Offsets and sizes in `mem.c`
and `memheap.c` are counted in words of four bytes, which is exact because every size there is rounded up first;
the rounding itself, and the sum in the test for growing a block of `memheap.c`, are modelled in 32-bit arithmetic, and
pools are smaller than the address space, so that nothing else wraps. Ticks wrap at 2^32. Assertions of the program are
preconditions where they concern the caller and proved otherwise.

Where the code departs from its description, the code is modelled:

- `rt_memheap_alloc` compares the request strictly with `available_size`, so it refuses a request for exactly
  what is left even if one block could serve it (AllocSucceedsIff gives the exact condition, ExactFitRefused
  an instance for every heap size).
- Sizes above 0xFFFFFFFC wrap when they are rounded up. `rt_smem_realloc` then frees the block, although the size
  is not zero, and allocations serve the smallest size (ReallocMeaning, AllocMeaning and RequestCovers give the
  exact conditions).
- `rt_memheap_realloc` adds RT_MEMHEAP_MINIALLOC to the new size in 32-bit arithmetic (`rt-thread/src/memheap.c:430`).
  For sizes from 0xFFFFFFF1 to 0xFFFFFFFC that sum wraps, and a block with a free one behind it is then "grown" by a
  header built over its own; the pointer is returned and the pool holds no block ring any more. ReallocMeaning and
  Heap.Realloc give the exact condition and what is overwritten, OverrunInstance a heap and a size.
- `rt_mp_init` does not check that the region has room for a block. Without a block it stores the end of the free list
  one stride before the region, and block sizes near 2^32 give a stride of 0 or empty blocks (InitMeaning gives the
  exact conditions, InitTooSmall an instance).
- `slab.c` means to align requests for powers of two to their size. It does up to the page size; for more it does
  exactly when the first page of what serves the request happens to be aligned (AllocAligned, which names that page),
  and on some heaps it is not (NotAlways).
- A deadline of the controller that wraps to tick 0 means "none" (`app_logic/fsm.c:386`), so that wait never
  ends; WaitEndsOnTime states exactly when a wait does end and WrappedWaitNeverEnds reaches the case.
- A waiter's timeout does not take its priority boost back from the owner of a mutex (BoostOutlivesWaiter);
  BoostIs says what the owner's priority is instead. The last release restores it.
- `rt_vsnprintf` is documented to return the number of characters written; it returns the length of the whole
  rendering, which is the same exactly when the text fits. Precision 0 suppresses the digits of every number, not
  only of 0. A field width also cuts strings short. Every base other than 10 is printed in base 16, so `%o` is
  hexadecimal.
- `rt_mp_alloc` puts a suspended thread at the front of the waiting list, so the last to come is the first to
  be resumed (AlwaysNewestFirst).
- `rt_smem_alloc` does not maintain `prev` of the end marker on a split (`rt-thread/src/mem.c:351-354`); the link
  invariant leaves that one word out.

## Model

| member | source | states |
|---|---|---|
| SmallMem.Heap.constructor | rt-thread/src/mem.c:178-242 | the pool is one free block up to `heap_end`, nothing is used, and the history of block lists begins with it |
| SmallMem.Heap.Swallow | rt-thread/src/mem.c:125-163 | relinking around a free block that its free predecessor swallows leaves headers that spell out the joined list, and every live payload as it was |
| SmallMem.Heap.PlugHoles | rt-thread/src/mem.c:125-163 | a block that was just freed is merged with its free neighbours on both sides, `lfree` ends at the lowest free block of the merged list, and no live payload changes |
| SmallMem.Heap.Split | rt-thread/src/mem.c:337-356 | a split stores exactly one new header and the links on either side of it; only the header behind, and not that of `heap_end`, gets a new `prev` |
| SmallMem.Heap.AdvanceLfree | rt-thread/src/mem.c:381-388 | the walk from a used `lfree` stops at the lowest free block, or at `heap_end` |
| SmallMem.Heap.Alloc | rt-thread/src/mem.c:279-404 | first fit in place: the scan that starts at `lfree` and stops `size` below the end hands out the lowest block that fits, the pool still spells out a well-formed list with correct `lfree`, `used` and `max`, live payloads are untouched, and a failure touches nothing |
| SmallMem.Heap.Free | rt-thread/src/mem.c:512-556 | the block leaves the live ones, the list becomes the one without free neighbours, `lfree` and `used` follow, `max` stays, and every other live payload keeps its words |
| SmallMem.Heap.ShrinkInPlace | rt-thread/src/mem.c:464-491 | the tail of a live block becomes free and is merged forwards; the words kept are the old ones and no other live payload changes |
| SmallMem.Heap.CopyPayload | rt-thread/src/mem.c:494-503 | the copy moves the words asked for and touches nothing but the payload it writes to |
| SmallMem.Heap.Move | rt-thread/src/mem.c:494-503 | allocate, copy, free: the new block holds the first min(old capacity, new size) words, all other live payloads are as before, and a failed allocation changes nothing |
| SmallMem.Heap.Realloc | rt-thread/src/mem.c:418-503 | for every pointer and size: the result, the new block list and all lists on the way, the words carried over when a pointer is resized, and all other live payloads unchanged |
| SmallMemLaws.AllocMeaning | rt-thread/src/mem.c:299-404 | NULL for a non-zero size exactly when no free block can hold max(aligned size, minimum); otherwise the lowest-address block that can, cut to within a header and a minimum payload, newly live, with all else live as before; it covers the request if and only if rounding did not wrap |
| SmallMemLaws.AllocFreeIdentity | rt-thread/src/mem.c:279-556 | allocating and at once freeing gives back the same block list |
| SmallMemLaws.ReallocMeaning | rt-thread/src/mem.c:418-503 | for every non-zero size: a NULL result leaves the heap unchanged if and only if the size is at most 0xFFFFFFFC, above which the block is freed; any other result covers the request, and all other live blocks keep their extent |
| SmallMemLaws.ReallocDecides | rt-thread/src/mem.c:443-503 | for every non-zero size that does not wrap: the block stays exactly if its size is right or the rest can be split off; else the lowest free block that is large enough takes over; NULL is returned exactly when the block cannot stay and no free block fits; no more than a header and a minimum payload is wasted |
| SmallMemLaws.ReallocEnds | rt-thread/src/mem.c:432-441 | a resize of NULL makes one new block live exactly if a free block is large enough, and a resize to size 0 makes exactly the block go |
| SmallMemLaws.RunKeeps | rt-thread/src/mem.c:125-556 | after any sequence of legal alloc, realloc and free calls the blocks tile the pool exactly and no two neighbours are both free |
| SmallMemLaws.LiveBlocksDecide | rt-thread/src/mem.c:125-163 | two runs that leave the same live blocks leave the same heap, whatever was allocated and freed on the way |
| SmallMemLaws.AllFreed | rt-thread/src/mem.c:512-556 | when every live block has been freed, in any order, the heap is the single initial free block and nothing is used |
| SmallMemLaws.LiveDisjoint | rt-thread/src/mem.c:279-503 | in every run two live blocks share no word |
| HeapBlocks.AlignCovers | rt-thread/src/mem.c:292-304 | RT_ALIGN in 32 bits covers a request exactly when the request is at most 0xFFFFFFFC; above that the rounded size wraps to 0 |
| HeapBlocks.Canonical | rt-thread/src/mem.c:125-163 | a tiling without adjacent free blocks is determined by its live blocks |
| HeapBlocks.CarveKeeps | rt-thread/src/mem.c:317-378 | allocation keeps the tiling, separates no free blocks into neighbours, and makes exactly one block live that was not |
| HeapBlocks.CoalesceKeeps | rt-thread/src/mem.c:125-163 | merging forwards and then backwards restores the form without free neighbours and leaves the live blocks alone |
| HeapBlocks.ReleaseKeeps | rt-thread/src/mem.c:512-556 | freeing takes exactly the one block out of the live ones and restores the form without free neighbours |
| HeapBlocks.AllocThenFree | rt-thread/src/mem.c:279-556 | releasing the block just carved gives the original list, whether or not it had been split |
| HeapBlocks.FreesCommute | rt-thread/src/mem.c:512-556 | two blocks may be freed in either order |
| Memheap.Heap.constructor | rt-thread/src/memheap.c:74-150 | the block ring holds one free block and the used tail, the free ring holds that block, and the sizes agree |
| Memheap.Heap.Detach | rt-thread/src/memheap.c:41-49 | taking a node off the free ring leaves the ring of the others, the block ring and all payloads |
| Memheap.Heap.Attach | rt-thread/src/memheap.c:273-277 | a node goes right behind `free_header`, and both rings stay well-formed |
| Memheap.Heap.SplitOff | rt-thread/src/memheap.c:235-265 | a free header built inside a used block becomes its successor on the block ring |
| Memheap.Heap.Fuse | rt-thread/src/memheap.c:650-684 | taking a header out of the block ring lets its predecessor reach to where it ended |
| Memheap.Heap.Search | rt-thread/src/memheap.c:202-228 | the loop along the free ring finds the first listed block that is large enough, or ends at `free_header` with a size that is too small |
| Memheap.Heap.Alloc | rt-thread/src/memheap.c:183-346 | in place: block ring, free ring and `available_size` stay consistent, `max_used_size` is exactly the larger of what it was and the used part, the first listed block that fits is handed out when the request is below `available_size`, and live payloads are untouched; otherwise nothing changes |
| Memheap.Heap.Free | rt-thread/src/memheap.c:597-724 | the block is merged left and then right, listed unless its predecessor swallowed it, `available_size` grows by its payload and the headers gained, and every other live payload keeps its words |
| Memheap.Heap.GrowInPlace | rt-thread/src/memheap.c:408-485 | the free block behind is taken off both rings and what is left of it is built and listed anew; the words of all blocks live before stay where they are. If newsize + RT_MEMHEAP_MINIALLOC has wrapped, the new header lies over that of the block itself: its six words, the fields that now point to it and the wrapped `available_size` are given, all other live payloads stay, and no rings are left |
| Memheap.GrowTest | rt-thread/src/memheap.c:408-430 | the 32-bit test for growing agrees with the sum it means unless that wraps; then it says yes whenever the next block is free, although both blocks together are too small |
| Memheap.SpoiledBreaks | rt-thread/src/memheap.c:452-476 | once the link of a used block leads into its own header, no list of blocks and no free list whatever is spelled out by the pool |
| Memheap.Heap.ShrinkInPlace | rt-thread/src/memheap.c:521-587 | what lies beyond the new size is split off, merged with a free block behind it and listed; the live payloads that are left keep their words |
| Memheap.Heap.Move | rt-thread/src/memheap.c:494-503 | allocate, copy, free: a failure leaves every word of the pool, a success moves the old words to the new block and leaves all others |
| Memheap.Heap.Realloc | rt-thread/src/memheap.c:361-588 | two well-formed rings are left if and only if it is not the case that the size is in 0xFFFFFFF1..0xFFFFFFFC and the pointer is live with a free block behind it. Then, whichever way a resize takes, the first min(old capacity, new size) words arrive, blocks live before and after keep theirs, and both sizes stay consistent; otherwise the pointer comes back and the words overwritten are given. NULL for a non-zero size means that no word changed |
| MemheapLaws.RingFinds | rt-thread/src/memheap.c:202-231 | the search along the free ring finds a block exactly when some free block of the pool is large enough |
| MemheapLaws.AllocSucceedsIff | rt-thread/src/memheap.c:200-231 | the exact condition for success: some free block is large enough and the request is not for the whole of `available_size` |
| MemheapLaws.AllocMeaning | rt-thread/src/memheap.c:202-300 | exactly one new block becomes live: the first on the free ring that is large enough, all before it being too small, cut to within a header and a minimum payload; the ring keeps its order, with what is left in front |
| MemheapLaws.FreeMeaning | rt-thread/src/memheap.c:645-714 | exactly the freed block goes, no two free blocks stay side by side, and the ring gains it in front unless the block before was free, and loses the block behind if that was |
| MemheapLaws.RequestCovers | rt-thread/src/memheap.c:186-194 | the size searched for covers the request if and only if rounding it did not wrap; otherwise it is the smallest size |
| MemheapLaws.ExactFitRefused | rt-thread/src/memheap.c:200-202 | on a fresh heap of any size the request for exactly its one free block is refused although that block fits |
| MemheapLaws.ReallocMeaning | rt-thread/src/memheap.c:361-588 | for every non-zero size: a resize fails and changes nothing, or replaces the one block by a large enough one and leaves all other live blocks, with blocks that tile the pool, if and only if the size is not in 0xFFFFFFF1..0xFFFFFFFC with a free block behind; there the pointer is returned although the block and the free one together are too small |
| MemheapLaws.ReallocDecides | rt-thread/src/memheap.c:361-588 | wherever the test for growing does not wrap: the block stays exactly if it is large enough or the free one behind it makes it so with more than a minimum to spare; NULL is returned exactly when it cannot stay and no free block fits or it would take exactly all that is left; else the first block on the ring that fits takes over |
| MemheapLaws.ReallocEnds | rt-thread/src/memheap.c:371-386 | a resize of NULL makes one new block live exactly if an allocation succeeds, and a resize to size 0 makes exactly the block go |
| MemheapLaws.PeakMeaning | rt-thread/src/memheap.c:361-588 | the list that decides the maximum a resize records: with both blocks live while a block moves, the grown one when it grew in place, and the one it began with otherwise |
| MemheapLaws.OverrunInstance | rt-thread/src/memheap.c:430-476 | a heap of 30 words with one block of 12 bytes overruns at 0xFFFFFFF4: `next` points into the header, and `magic`, `pool_ptr` and the links of the new block replace `prev`, `next_free`, `prev_free` and the payload |
| Memheap.RingRemove | rt-thread/src/memheap.c:41-49 | bypassing one node of a ring whose headers do not overlap leaves the ring of the others |
| Memheap.EitherOrder | rt-thread/src/memheap.c:649-688 | merging left before right comes to the same list as merging right before left |
| SlabSizes.ZoneIndex | rt-thread/src/slab.c:408-466 | adding, masking with a complement and dividing yields the index and the size that BestClass is about |
| SlabSizes.Masking | rt-thread/src/slab.c:408-466 | adding one less than a power of two and taking the bitwise and with the 32-bit complement of that rounds up to a multiple |
| SlabSizes.BestClass | rt-thread/src/slab.c:408-466 | every size below 16K gets the index of the smallest class that can hold it, one index stands for one chunk size, and the size is rounded to that class |
| SlabSizes.ZoneSize | rt-thread/src/slab.c:359-361 | the loop of the initialisation picks a power of two between 32K and 128K, below 1/1024 of the heap unless it is the smallest, its double not below that unless it is the largest |
| SlabSizes.AtLeastTwo | rt-thread/src/slab.c:621-639 | every zone that can be laid out holds at least two chunks, behind its header and inside its pages |
| SlabSizes.OffsetMeaning | rt-thread/src/slab.c:628-636 | chunks begin at the first multiple of their size behind the header if that is a power of two, else of 8 |
| SlabPages.TakenMeaning | rt-thread/src/slab.c:211-241 | taking n pages uses up exactly n consecutive free pages and leaves a sorted list with gaps between its runs |
| SlabPages.TakenFailsIff | rt-thread/src/slab.c:211-241 | no run is found exactly when no n consecutive pages are free |
| SlabPages.GivenMeaning | rt-thread/src/slab.c:252-294 | giving pages back frees exactly them and keeps the runs sorted and maximal, whichever neighbours they touch |
| SlabPages.CanonicalUnique | rt-thread/src/slab.c:252-294 | the page list is determined by the set of free pages |
| SlabPages.TakeThenGive | rt-thread/src/slab.c:211-294 | giving back what was just taken restores the list |
| SlabPages.PageList.constructor | rt-thread/src/slab.c:299-306 | all pages form one run |
| SlabPages.PageList.Take | rt-thread/src/slab.c:211-241 | first fit over the links stored in the first page of each run, with the remainder left in place |
| SlabPages.PageList.Give | rt-thread/src/slab.c:252-294 | the insertion walk merges with the run before, behind or both, or links a new run in between |
| SlabZones.HandingSound | rt-thread/src/slab.c:541-575 | a zone with `z_nfree` above 0 gives a chunk that nobody holds: a never used one or one off its free list |
| SlabZones.ReturningSound | rt-thread/src/slab.c:783-800 | a chunk given back is no longer held, every other chunk is held as before, and `z_nfree` counts never used plus listed chunks |
| SlabZones.FreshSound | rt-thread/src/slab.c:617-646 | a zone laid out for a request has chunks of that class, at least two, and holds exactly chunk 0 |
| SlabZones.FromZoneLists | rt-thread/src/slab.c:541-550 | a zone leaves its `zone_array` list exactly when its last chunk is handed out |
| SlabZones.SparedLists | rt-thread/src/slab.c:802-832 | a wholly free zone moves to the spare list, which then holds at most one more than the threshold |
| SlabLaws.AllocMeaning | rt-thread/src/slab.c:487-653 | an allocation returns memory that nobody holds and that can hold the request, changing nothing for other pointers; it returns nothing exactly for size 0, or when there is no listed zone, no spare zone and no long enough run of pages |
| SlabLaws.WrappedRequest | rt-thread/src/slab.c:503-511 | rounding a size up to pages wraps to no page exactly for the last 4095 sizes, for which the unbounded count of the model fails as well in any heap that can be addressed |
| SlabLaws.FreeMeaning | rt-thread/src/slab.c:736-853 | freeing takes exactly that pointer out of use and keeps every invariant, at most two spare zones among them |
| SlabLaws.ChunkInside | rt-thread/src/slab.c:541-653 | a live chunk lies behind its zone's header and inside its zone's pages |
| SlabLaws.RecoverZone | rt-thread/src/slab.c:759-784 | the page table leads from the address of any live pointer back to its zone, or to the size of its large block |
| SlabLaws.LiveApart | rt-thread/src/slab.c:487-653 | two live pointers share no byte |
| SlabAlign.AllocAligned | rt-thread/src/slab.c:494-632 | a request for a power of two succeeds if and only if the state before it has a first page for it: that of the first listed zone of its class, else of the first spare zone, else of the first run with enough pages. Up to the page size the result is aligned to the request, and above it if and only if that page is |
| SlabAlign.NotAlways | rt-thread/src/slab.c:578-632 | a concrete heap, with addresses counted from its first page, on which the first request served from chunks of 8192, and the first one for 8192 bytes, are not aligned to 8192 |
| SlabLaws.After | rt-thread/src/slab.c:321-853 | in every run from `rt_slab_init` the slab is sound: runs, zones and large blocks lie apart, `zone_array[i]` lists exactly the zones of class i with free chunks, and the page table is accurate |
| SlabPartition.LargeClaims | rt-thread/src/slab.c:499-528 | a large request takes exactly the pages it needs out of the free ones, as one new area, and changes no zone |
| SlabPartition.SmallClaims | rt-thread/src/slab.c:536-690 | a small request is served by the first listed zone of its class, else by the first spare zone, else by a new zone whose pages, and no others, were free |
| SlabPartition.LargeYields | rt-thread/src/slab.c:758-779 | freeing a large block makes exactly its pages free and changes no zone |
| SlabPartition.ChunkYields | rt-thread/src/slab.c:781-853 | a zone goes exactly when its last chunk is freed and another zone of the class has free chunks; it becomes a spare zone, or, with two of those, exactly its pages become free; else no page changes hands |
| SlabPartition.AlwaysDivided | rt-thread/src/slab.c:211-853 | in every run each page is the page table's, free, or in exactly one area, and the areas are the zones in use, the spare zones and the live large blocks |
| SlabPartition.AllGivenBack | rt-thread/src/slab.c:736-853 | once nothing is live, in whatever order it was freed, every page behind the table is free but for at most one zone of each class and at most two spare zones |
| SlabHeap.Slab.constructor | rt-thread/src/slab.c:321-380 | the page table, of 4 bytes an entry, takes the first pages, which always suffice, and every list is empty |
| SlabHeap.Slab.Allocate | rt-thread/src/slab.c:487-653 | in place, the allocator does what the allocation function says and returns the address of that pointer |
| SlabHeap.Slab.Release | rt-thread/src/slab.c:736-853 | given only the address, the code finds the zone or block through the page table and does what the release function says |
| SlabHeap.Slab.HandOut | rt-thread/src/slab.c:541-575 | the first listed zone hands out a chunk and is unlisted when it has none left |
| SlabHeap.Slab.ReleaseSpare | rt-thread/src/slab.c:830-851 | a spare zone's pages are unmarked and go back to the page list |
| WaitList.Links.Init | rt-thread/include/rtservice.h:47-50 | a node becomes a ring of its own and no other link changes |
| WaitList.Links.InsertAfter | rt-thread/include/rtservice.h:58-65 | the ring gains the node right behind the given one |
| WaitList.Links.InsertBefore | rt-thread/include/rtservice.h:73-80 | the ring gains the node right before the given one |
| WaitList.Links.Remove | rt-thread/include/rtservice.h:86-92 | the ring loses the node, which ends up in a ring of its own |
| WaitList.Links.IsEmpty | rt-thread/include/rtservice.h:98-101 | true exactly when the head is alone |
| WaitList.Links.Len | rt-thread/include/rtservice.h:107-118 | the number of nodes other than the head |
| WaitList.Links.QueueByPriority | rt-thread/src/ipc.c:143-163 | the walk and the insertion in place put the thread where the ordered insertion says |
| WaitList.QueuedSorted | rt-thread/src/ipc.c:143-163 | the list stays sorted by priority, and the newcomer goes behind everybody as urgent as itself and before everybody less urgent |
| WaitList.Splice | rt-thread/include/rtservice.h:58-80 | splicing a node between two neighbours makes a ring with the node between them |
| WaitList.Bridge | rt-thread/include/rtservice.h:86-92 | bridging over a node leaves the ring of the others |
| Mutex.TakeKeeps | rt-thread/src/ipc.c:914-1052 | every take, by the owner, by another thread or refused, keeps the mutex valid, and blocks exactly the threads that end up waiting |
| Mutex.ReleaseKeeps | rt-thread/src/ipc.c:1090-1198 | every release, nested, last, with a hand-off or by a thread that is not the owner, keeps the mutex valid |
| Mutex.ExpireKeeps | rt-thread/src/thread.c:126-155 | a waiter's timeout keeps the mutex valid and takes that waiter off the list |
| Mutex.Lock.DoTake | rt-thread/src/ipc.c:914-1052 | the code on fields and links does what the take function says, with its return code |
| Mutex.Lock.DoRelease | rt-thread/src/ipc.c:1090-1198 | the code on fields and links does what the release function says, with its return code |
| Mutex.Lock.DoHandOff | rt-thread/src/ipc.c:1142-1173 | the first waiter becomes the owner, with its own priority saved |
| Mutex.Lock.DoExpire | rt-thread/src/thread.c:126-155 | the timeout removes the waiter and records the error |
| MutexLaws.AlwaysInherited | rt-thread/src/ipc.c:914-1198 | in every interleaving: `value` is 1 iff nobody owns the mutex iff `hold` is 0, waiters are sorted, the owner is at least as urgent as each of them, also right after a hand-off, and everybody else runs at its own priority |
| MutexLaws.AlwaysFair | rt-thread/src/ipc.c:122-169 | in every interleaving, waiters of equal priority stand in the order in which they began to wait |
| MutexLaws.LastRelease | rt-thread/src/ipc.c:1128-1191 | the last release restores the priority its owner had and hands over to the first of the most urgent waiters, who gets no error |
| MutexLaws.TakeThenRelease | rt-thread/src/ipc.c:914-1198 | a granted take followed by a release gives the mutex back as it was |
| MutexLaws.FullMeans | rt-thread/src/ipc.c:941-1165 | a take is refused as full exactly at hold 255 by the owner, and a release never is |
| MutexLaws.TakeMeaning | rt-thread/src/ipc.c:941-1052 | each take in full with its answer: granted to the owner below 255 holds and to anybody while the mutex is free; else given up, or waited for behind all as urgent, the owner getting the more urgent of both priorities |
| MutexLaws.ReleaseMeaning | rt-thread/src/ipc.c:1112-1198 | each release in full with its answer: refused to all but the owner; one hold less; at the last one the priority given back and the mutex passed to the first waiter or free |
| MutexLaws.BoostIs | rt-thread/src/ipc.c:991-1010 | the owner's priority is exactly the most urgent of its own and of all that have queued behind it, still there or not |
| MutexLaws.BoostOutlivesWaiter | rt-thread/src/thread.c:126-155 | a concrete run in which the waiter times out and the owner stays at the waiter's priority |
| Wakeup.WakeServed | rt-thread/src/ipc.c:191-204 | one more available together with one more resumed keeps every available item accounted for |
| Wakeup.TakeServed | rt-thread/src/ipc.c:2277-2357 | a thread that takes an item, resumed or just passing, keeps the rest accounted for |
| Mempool.TakenSound | rt-thread/src/mempool.c:319-407 | the block handed out was free, is no longer, and no other changes hands |
| Mempool.FreedSound | rt-thread/src/mempool.c:415-465 | exactly the given block becomes free |
| Mempool.FreeThenTake | rt-thread/src/mempool.c:319-465 | the block freed last is handed out next, and then the pool is as before |
| Mempool.AlwaysSound | rt-thread/src/mempool.c:319-465 | in every run the free list holds no block twice, and with no resumed thread still to run nobody sleeps beside a free block |
| Mempool.DoMeaning | rt-thread/src/mempool.c:319-465 | what each step does to blocks and threads: exactly the first free block passes to the caller, exactly the freed block comes back in front and the first waiter is resumed, and without a block the caller waits in front or goes on |
| Mempool.FreedInBetween | rt-thread/src/mempool.c:319-465 | in every run, between two calls that get the same block, the block is freed |
| Mempool.AlwaysNewestFirst | rt-thread/src/mempool.c:319-465 | in every run the waiting threads stand in the reverse order of the times at which they began to wait, so the one resumed first came last |
| Mempool.InitMeaning | rt-thread/src/mempool.c:108-133 | for all sizes: the blocks lie inside the region and hold what was asked for if and only if the region, rounded down, has room for one rounded block and its link word; the sizes for which the stride is 0 or wraps, how many blocks there are, and where the end of the free list is stored in 32-bit arithmetic, one stride before the region if there is no block |
| Mempool.InitTooSmall | rt-thread/src/mempool.c:108-133 | a region of 8 bytes for blocks of 8 has no block, and the word 12 bytes before it is overwritten |
| Mempool.Pool.constructor | rt-thread/src/mempool.c:89-136 | when the region has room for a block, the loop threads all blocks onto the free list in address order |
| Mempool.Pool.TryAllocate | rt-thread/src/mempool.c:319-407 | over links stored in the blocks: nothing is returned exactly when the count is 0, and then the caller waits in front if it is willing to; else the block returned was free and is no longer, its first word names the pool, the count is one less, and no other block changes hands |
| Mempool.Pool.Release | rt-thread/src/mempool.c:415-465 | the word before the block names the pool, and the block goes to the front of the free list and wakes the first waiter |
| Mailbox.AlwaysSound | rt-thread/src/ipc.c:1991-2425 | in every run the box is never overfull, and with no resumed thread still to run nobody waits for a mail or for room that is there |
| Mailbox.CallsMeaning | rt-thread/src/ipc.c:1991-2375 | each call in full with its answer: a mail is accepted exactly if there is room, at the end or in front, and received exactly if there is one, the first; the first thread on the other side is resumed; who finds nothing gives up or sleeps at its place |
| Mailbox.UrgentIsNext | rt-thread/src/ipc.c:2164-2375 | however many mails are sent behind it, an urgent mail stays first, with the mails that were there before right behind it, until it is received |
| Mailbox.FirstInFirstOut | rt-thread/src/ipc.c:1991-2375 | in every run without urgent mails and resets the mails accepted are exactly the mails received followed by those in the box, in order |
| Mailbox.AlwaysConserved | rt-thread/src/ipc.c:1991-2425 | in every run, with everything allowed, each mail accepted was received once, is in the box or was dropped by a reset |
| Mailbox.Box.DoSend | rt-thread/src/ipc.c:1991-2120 | the ring of words with its two offsets and `entry` does what appending to a bounded queue does, and wakes the first receiver |
| Mailbox.Box.DoUrgent | rt-thread/src/ipc.c:2164-2216 | stepping `out_offset` back, with its wrap, puts a mail in front |
| Mailbox.Box.DoReceive | rt-thread/src/ipc.c:2245-2375 | what is received is the first mail, and the first sender is woken |
| Mailbox.Box.DoReset | rt-thread/src/ipc.c:2393-2425 | a reset empties the box and dismisses all waiters |
| Mailbox.PutFirst | rt-thread/src/ipc.c:2183-2197 | in a ring of any size, writing before `out_offset` prepends, and `in_offset` is still (out + entry) mod size |
| MessageQueue.Queue.constructor | rt-thread/src/ipc.c:2486-2537 | all nodes are on the free list, the last laid out first |
| MessageQueue.Queue.DoReserve | rt-thread/src/ipc.c:2780-2859 | the first critical region of a send takes the first free node for the caller alone, or suspends |
| MessageQueue.Queue.DoFill | rt-thread/src/ipc.c:2861-2864 | the copy into the private node changes no other node and no list; for an ordinary send the node then links to nothing |
| MessageQueue.Queue.DoLinkBack | rt-thread/src/ipc.c:2866-2909 | the last critical region appends the node, keeps `entry` equal to the length, never returns the overflow error, and leaves every other private node and its link alone |
| MessageQueue.Queue.DoLinkFront | rt-thread/src/ipc.c:3000-3038 | an urgent send puts its node in front, also of an empty queue, never returns the overflow error, and leaves every other private node and its link alone |
| MessageQueue.Queue.DoPop | rt-thread/src/ipc.c:3094-3184 | a receive takes the first node for the caller alone, or suspends |
| MessageQueue.Queue.DoGiveBack | rt-thread/src/ipc.c:3186-3216 | the node goes back to the free list and the first sender is woken |
| MessageQueue.Queue.DoReset | rt-thread/src/ipc.c:3234-3282 | all queued nodes go to the free list one by one, and all waiters are dismissed |
| MessageMachine.Perform | rt-thread/src/ipc.c:2749-3282 | any step of any thread, between any two steps of others, can be carried out on the linked nodes and does what the step of the run does; nodes in other threads' hands keep their links and contents |
| MessageMachine.Execute | rt-thread/src/ipc.c:2749-3282 | every run can be carried out by the methods from an initialised queue and ends in the state the run theorems speak of, so neither send ever takes its overflow return |
| MessageRuns.AlwaysSound | rt-thread/src/ipc.c:2749-3282 | for any interleaving of the three-step sends, urgent sends and receives with resets and timeouts: each node is on exactly one list or with exactly one thread, and copies in and out are intact |
| MessageRuns.AlwaysDeque | rt-thread/src/ipc.c:2749-3282 | in every run each step treats the waiting messages as a queue open at both ends: send appends, urgent prepends, receive takes the first, reset empties, all else leaves them |
| MessageRuns.ReceivedWasFirst | rt-thread/src/ipc.c:3068-3216 | what a receiver has copied out is what was first in the queue when it took the node |
| MessageRuns.NobodySleepsInVain | rt-thread/src/ipc.c:2749-3216 | with no resumed thread still to run, no receiver sleeps beside a message and no sender beside a free node |
| MessageLaws.BeginMeaning | rt-thread/src/ipc.c:2780-2859 | the first region of a send, an urgent send and a receive in full: who gets the first free node or the first message, who is refused, and who gives up or sleeps |
| MessageLaws.CopyMeaning | rt-thread/src/ipc.c:2861-2864 | the copy makes the message the beginning of the sender's own node, or hands the receiver the contents of its node, and changes no other |
| MessageLaws.FinishMeaning | rt-thread/src/ipc.c:2866-2909 | the last region links the sender's node at its end of the queue and resumes the first receiver, or gives the receiver's node back and resumes the first sender |
| MessageLaws.InOrder | rt-thread/src/ipc.c:2749-3216 | in every interleaving without urgent messages and resets the messages leave in exactly the order in which they were linked |
| Event.VisitsKeep | rt-thread/src/ipc.c:1467-1516 | whoever is left on the list after the walk is not satisfied by the flags that are left, although waiters with CLEAR take flags away during the walk |
| Event.SendSound | rt-thread/src/ipc.c:1440-1529 | after a send no waiting thread's AND or OR condition holds |
| Event.SendShares | rt-thread/src/ipc.c:1467-1516 | every flag set before or by the send is afterwards still set or was handed to exactly one of the woken threads that clear |
| Event.ReceiveSound | rt-thread/src/ipc.c:1565-1685 | a receive, granted, refused or suspended, leaves no waiting thread satisfied |
| EventLaws.SendMeaning | rt-thread/src/ipc.c:1455-1516 | going along the list, a thread is woken exactly if all it waits for, or some of it, is among the flags left by those woken before it, and gets what it asked for of them; the others keep their order and wishes; only woken threads that clear take flags |
| EventLaws.WokenGot | rt-thread/src/ipc.c:1467-1506 | a woken thread got flags that were there: all it had asked for, or a non-empty part |
| EventLaws.ReceiveMeaning | rt-thread/src/ipc.c:1565-1685 | which answer a receive gives and what it changes, with both conditions written out on the flags |
| Event.After | rt-thread/src/ipc.c:1440-1732 | in every run no suspended thread's condition holds |
| Event.Object.DoSend | rt-thread/src/ipc.c:1440-1529 | the walk over the links does what the send function says, and the EINVAL return inside it is not reached |
| Event.Object.DoReceive | rt-thread/src/ipc.c:1565-1685 | the code does what the receive function says; a granted receive reports exactly the wanted flags that were set, and at least one |
| Event.Object.DoExpire | rt-thread/src/thread.c:126-155 | a waiter's timeout takes it off the ring |
| Event.Object.DoReset | rt-thread/src/ipc.c:1703-1732 | the loop takes everybody off the ring, first to last, and no flag stays set |
| Scheduler.ScheduleMeaning | rt-thread/src/scheduler.c:423-545 | an unlocked schedule leaves the running thread at least as urgent as every ready one and loses no thread that can run; a locked one does nothing |
| Scheduler.ScheduleDecides | rt-thread/src/scheduler.c:423-545 | the running thread keeps the processor exactly if every ready thread is less urgent, or as urgent while it has not yielded, and then no queue, bit or state changes; else the head of the most urgent queue replaces it and it joins the end of its own; its yield flag is cleared unless nobody is ready |
| Scheduler.StepsMeaning | rt-thread/src/thread.c:718-915 | waking, starting, suspending and changing the priority of a thread, each in full |
| Scheduler.TopIs | rt-thread/src/scheduler.c:169-191 | the lowest bit of the group names a non-empty queue whose head no ready thread is more urgent than |
| Scheduler.SwitchedValid | rt-thread/src/scheduler.c:443-476 | the old thread goes behind its equals if it can still run and the new one leaves its queue |
| Scheduler.TurnRotates | rt-thread/src/thread.c:541-554 | a yield at the top priority moves the ring of equals on by one |
| Scheduler.TurnsRotate | rt-thread/src/scheduler.c:423-545 | after k yields among n equals thread k mod n of the ring runs, so each runs within n |
| Scheduler.DoValid | rt-thread/src/scheduler.c:423-845 | every step, insert, remove, suspend, resume, change of priority, schedule or yield, keeps the table valid |
| Scheduler.After | rt-thread/src/scheduler.c:169-845 | in every run each bit of the group is set iff its queue is non-empty, and no thread is queued twice or while it runs |
| Scheduler.Table.constructor | rt-thread/src/scheduler.c:197-242 | 32 empty rings, every thread linked to itself, the first one running |
| Scheduler.Relinked | rt-thread/src/scheduler.c:718-845 | relinking one queue disturbs neither the rings of the other 31 priorities nor any thread that is on none |
| Scheduler.Table.DoInsert | rt-thread/src/scheduler.c:718-752 | the thread's node is linked in before the head of the ring of its priority, every other ring and lone node is as before, and the bit is set; the current thread only becomes running |
| Scheduler.Table.DoRemove | rt-thread/src/scheduler.c:815-845 | whether the thread is queued or alone, unlinking its node leaves the ring of the others and a ring of its own, and the bit is cleared if and only if the head is left alone |
| Scheduler.Table.DoSuspend | rt-thread/src/thread.c:836-870 | the running thread was on no queue: no queue and no bit changes, only its state, and the table stays valid |
| Scheduler.Table.DoResume | rt-thread/src/thread.c:881-915 | a suspended thread becomes ready as the last of its queue with its bit set, or runs on if it is still the current one; any other thread changes nothing |
| Scheduler.Table.DoChangePriority | rt-thread/src/thread.c:718-771 | a ready thread ends up last in the queue of its new priority, all queues but these two and all states stay, and for any other thread only the number changes |
| Scheduler.Table.Highest | rt-thread/src/scheduler.c:169-191 | the node behind the head of the first ring in use is a ready thread other than the current one, and no ready thread is more urgent |
| Scheduler.Table.DoSchedule | rt-thread/src/scheduler.c:423-545 | in place on the linked rings: the locked and the empty case, the running thread staying on exactly when it should, and the switch agree with the schedule function, and the table stays valid |
| Scheduler.Table.DoYield | rt-thread/src/thread.c:541-554 | a yield sets the flag and schedules |
| Fsm.Machine.DoDispatch | app_logic/fsm.c:431-631 | whatever the event: motor, phase, active flag and fault code, if they fitted the state before, fit it afterwards; a cleaning begins if and only if it was requested in IDLE or OCCUPIED, or requested or due in CLEAN_DELAY, with nobody there, room in the bin and no protection; a running one goes to the next phase exactly on the report it waits for; and six events always leave the motor standing |
| Fsm.Machine.DoTick | app_logic/fsm.c:633-697 | a tick obeys the same rules as the event that is due at that moment, if any |
| Fsm.DispatchObeys | app_logic/fsm.c:284-631 | the rules above hold of the transition function for every context, event and tick |
| Fsm.TickObeys | app_logic/fsm.c:633-697 | which event a tick amounts to, with its effect on a cleaning |
| FsmLaws.DispatchTable | app_logic/fsm.c:427-631 | in each of the seven states every event leads to the state of the transition table, and every field of the context is given, with the deadlines in ticks |
| FsmLaws.TickTable | app_logic/fsm.c:633-697 | which event a tick amounts to and what it does, with all timeouts in ticks |
| Logic.Sensor.DoPoll | app_logic/logic.c:204-256 | the debounce in place, including which calls report a change |
| Logic.Sensor.DoReport | app_logic/logic.c:258-299 | the report to the machine and the memory of what was last reported |
| Logic.Controller.constructor | app_logic/logic.c:369-409 | the start from whatever the sensors say |
| Logic.Controller.InjectTimeout | app_logic/logic.c:513-524 | outside CLEANING nothing changes; in CLEANING the machine ends in FAULT with the timeout code, the motor stopped, no phase and no deadline |
| Logic.Controller.Run | app_logic/logic.c:529-608 | one pass over globals, hall state and machine does what the pass function says |
| LogicSafety.RunningKeepsSafe | app_logic/logic.c:529-608 | one pass keeps the interlocks from any safe state, for any samples, requests and tick |
| LogicSafety.StartedIsSafe | app_logic/logic.c:369-409 | the start satisfies the interlocks whatever the sensors say |
| LogicSafety.HeardKeeps | app_logic/logic.c:258-299 | a hall report can only take a cleaning at its target to the next phase, or from the last phase to IDLE |
| LogicRuns.AlwaysSafe | app_logic/logic.c:529-608 | in every run: the motor turns only in CLEANING and as the phase asks, a full bin means SAFE_STOP or FAULT, the quiet states mean an empty box, OCCUPIED and SAFE_STOP an occupied one, and the fault code fits the state |
| LogicRuns.ExpiresOnTime | app_logic/fsm.c:384-392 | across the wrap of the 32-bit tick a deadline expires exactly when its real time has come, unless it is 0 |
| LogicTiming.EnteredMeans | app_logic/fsm.c:284-382 | the index the timing theorems measure from is the action that brought the machine into the state it has been in since |
| LogicTiming.QuietBeforeCleaning | app_logic/fsm.c:666-692 | a cleaning that nobody asked for comes after at least 7000 ticks in which every sample found the box empty |
| LogicTiming.CleaningIsShort | app_logic/fsm.c:74-96 | a cleaning lasts less than 17000 ticks plus three gaps between passes |
| LogicTiming.TotalTimeoutNeverFires | app_logic/fsm.c:656-692 | the branch for 20000 ticks of cleaning is never taken: some phase times out first |
| LogicTiming.WaitEndsOnTime | app_logic/fsm.c:384-392 | undisturbed, LEAVE_CONFIRM and CLEAN_DELAY end at the first pass not before their due time, exactly unless that time is a multiple of 2^32, when they never end |
| LogicTiming.WrappedWaitNeverEnds | app_logic/fsm.c:384-392 | a concrete start and departure reach the excluded case: from there LEAVE_CONFIRM lasts through any number of quiet passes at any times |
| LogicTrail.TrailBehind | app_logic/fsm.c:568-600 | in every run a cleaning in some phase has consumed exactly the positions before that phase |
| LogicTrail.DoneTrail | app_logic/fsm.c:568-600 | a cleaning that ends in IDLE without a reset has consumed POS2, POS3 and POS1 in this order |
| LogicTrail.ReportedExactlyOnTarget | app_logic/logic.c:258-299 | in every run a pass reports a position exactly when the machine is cleaning and the stable position is its target, so the dedupe suppresses nothing that matters |
| LogicTrail.CandidateStep | app_logic/logic.c:204-256 | at a sample the candidate becomes stable exactly when it has been the candidate for the debounce time |
| LogicTrail.StableWasSteady | app_logic/logic.c:204-256 | a new stable position was decoded from every sample for at least the debounce time |
| LogicLaws.DecodeMeaning | app_logic/logic.c:152-168 | exactly one active sensor names its position, none means in between, more than one is invalid |
| LogicLaws.PollMeaning | app_logic/logic.c:204-256 | a sample at most every 10 ticks; a position becomes stable at a sample 20 ticks or more after it became the candidate |
| LogicLaws.PassMeaning | app_logic/logic.c:529-608 | a pass is the chain of inputs, full bin, occupancy, clean request, reset, arrival and tick, each doing what the table says, with what outlasts it |
| LogicLaws.StartMeaning | app_logic/logic.c:369-409 | the start in full: faulted with a full bin, else occupied or idle, motor stopped |
| LogicLaws.CleanIsServed | app_logic/logic.c:529-608 | a clean request in a clear idle box starts the motor in the same pass |
| LogicLaws.EntryStops | app_logic/logic.c:529-608 | somebody who comes near during a cleaning stops the motor in the same pass |
| LogicLaws.TimeoutStays | app_logic/logic.c:529-608 | a timeout fault stays until a reset is asked for while the bin has room |
| LogicLaws.ReleaseConfirms | app_logic/logic.c:529-608 | a stopped box that was left goes on to two seconds of confirmation, with the motor standing |
| Formatter.SkipAtoi | rt-thread/src/kservice.c:696-703 | the value of the decimal digits and where they end |
| Formatter.Disassemble | rt-thread/src/kservice.c:663-779 | digit by digit, in base 10 or else 16, the 16 characters of the local buffer are enough for the digits of every word, stored last first |
| Formatter.PrintNumber | rt-thread/src/kservice.c:713-871 | sign, padding, precision and digits come out as the unbounded text of the number |
| Formatter.DigitsDenote | rt-thread/src/kservice.c:713-871 | the digits denote the number in their base |
| Formatter.DigitsLead | rt-thread/src/kservice.c:713-871 | no number other than 0 begins with a zero digit |
| Formatter.DecimalRoundTrip | rt-thread/src/kservice.c:696-871 | what is printed in decimal is read back by skip_atoi, whatever follows |
| Formatter.PlainDecimal | rt-thread/src/kservice.c:713-1146 | a plain %d of any number below 2^31 prints digits that read back to it |
| Formatter.NumberLength | rt-thread/src/kservice.c:713-871 | how long a printed number is, for every width, precision and flag, including the digits that precision 0 leaves out |
| Formatter.StringLength | rt-thread/src/kservice.c:1019-1049 | a string is padded to its field and cut to its field width and to a positive precision; what is shown is its beginning, in place |
| FormatterLaws.DirectiveReads | rt-thread/src/kservice.c:926-989 | a directive that is written with any flags, width, precision and qualifier, anywhere in a format, is read as exactly those |
| FormatterLaws.StarReads | rt-thread/src/kservice.c:941-970 | widths and precisions given as `*` take the next arguments; a negative width aligns left, a negative precision is 0 |
| FormatterLaws.NumberPrinted | rt-thread/src/kservice.c:1051-1143 | d, i, u, x, X, o and p print the value of their own argument: sign, a numeral in the radix and case of the conversion that reads back to the value, 16 bits with h, and padding as flags and sizes ask |
| FormatterLaws.OthersPrinted | rt-thread/src/kservice.c:994-1072 | c, s and % print the character, the beginning of the string, and one percent sign, on the side that `-` asks for; anything else is printed as it stands |
| FormatterLaws.LiteralText | rt-thread/src/kservice.c:907-924 | text outside directives stands for itself |
| FormatterLaws.DirectivePrints | rt-thread/src/kservice.c:907-1143 | a numeric directive as written prints the number it should and leaves the other arguments to what follows |
| FormatterLaws.PlainNumbers | rt-thread/src/kservice.c:1074-1143 | plain d, i, u, x and X print exactly the digits of the word, d behind a minus sign for 2^32 - n from 2^31 on |
| FormatterLaws.TwoNumbers | rt-thread/src/kservice.c:907-1143 | two directives print two arguments in their order |
| Formatter.Writer.Put | rt-thread/src/kservice.c:886-1146 | a character past the end is counted but not stored |
| Formatter.ReadDirective | rt-thread/src/kservice.c:926-989 | flags, width, precision and qualifier are read as the directive reader says |
| Formatter.PutConverted | rt-thread/src/kservice.c:991-1143 | every conversion writes the text its directive stands for and goes on behind it |
| Formatter.Vsnprintf | rt-thread/src/kservice.c:886-1146 | for any buffer, format and arguments: terminates, returns the length of the unbounded rendering, stores its beginning and a NUL, and touches nothing behind; the result is the number of characters stored if and only if it is less than the size, or nothing was to be written |

## Left out

- SmallMem.Heap.Realloc: contents are counted in words, so what is said of a request covers its bytes up to the rounded size.
- Memheap.Heap.constructor: a pool without room for two headers is excluded, because `available_size` would wrap and the two headers would overlap.
- Memheap.Heap.Realloc: the semaphore around the heap is not part of the model, `pool_ptr` is stored in headers that are built but never read, and the stores of one relinking are made in an order that may differ where they touch different words.
- SlabHeap.Slab.Allocate: lists of zones and of free chunks are sequences rather than links through memory, chunk addresses and page numbers are arithmetic on numbers rather than masks on pointers, and the used and max statistics are not kept.
- SlabHeap.Slab.constructor: what the page table holds before its first use is arbitrary, as in the program.
- Scheduler.Table.DoSchedule: the bitmap is a set of bit numbers; switching contexts, stack checks and the idle thread are not part of the model, and a schedule with nobody ready keeps the current thread.
- Event.Object.DoSend: the 32 flags are a set of flag numbers.
- Mempool.Pool.constructor: regions without room for a block are excluded from the method, because the initialisation writes outside of them; Mempool.InitMeaning says where.
- Mutex.Lock.DoTake: a thread that holds several mutexes at a time is not modelled, because a release restores one saved priority; priorities are not changed from outside while the mutex is used.
- Mailbox.Box.DoReceive: how long a thread is still willing to wait after being resumed is an input of each turn of the loop rather than computed from ticks; the same goes for message queue and memory pool.
- Logic.Controller.Run: one clock reading serves a whole pass, and the counter of box visits and the log lines are left out.
- Formatter.Vsnprintf: widths and precisions are unbounded, so the overflow of their reading is not modelled; a missing argument reads as 0 or as a null string; a buffer whose end would wrap around the address space is excluded.
- Timers and `thread.c` beyond suspend, resume, yield, timeout and change of priority: any waiting thread may time out between any two steps.
- Semaphores, object creation, deletion and detaching, names, hooks, memory tracing, SMP and signals.
- `rt_slab_realloc` and the shell commands that print heap statistics.
- MQTT, display, drivers and board files: only the requests and samples they produce enter the model, as inputs.
