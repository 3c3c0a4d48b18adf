# A verified model of the OS/161 kernel's paging, heap, scheduler and locks

This project models three parts of the kernel and proves what they are for.

**Demand paging.** RAM, the coremap, the two-level page table, the swap file and the TLB together behave like
one flat memory: every load returns the last value stored, or the initial byte of the executable or the stack,
through any sequence of faults, evictions, swap-ins, kernel allocations and TLB flushes
(`PagingRuns.PagingIsTransparent`). `Segments`, `Coremap` and `PageTables` hold the algorithms below it;
`Paging` states each operation as a function on the machine state, `PagingInvariant`, `PagingFault` and
`PagingKernel` prove what each keeps, and class `VmMachine.Vm` performs the same operations in place on
arrays, each method proved equal to its function; `VmRuns` carries whole runs over to the arrays. `PagingAlloc`,
`PagingOutcomes` and `PagingCounters` say, from the state before a step and without the step's own function, when a
frame can be had and which one it is, when the kernel halts and an access is refused, and what each counter gains.
`SegmentLookup`, `PagingShortRead` and `PagingEviction` state exactly when the code does not do what it is meant to.

**Kernel heap.** `Kheap` is the heap as a value: pages of blocks with their free lists, the page lists, and the
pool of pagerefs. `KheapInvariant` and `KheapRuns` prove that every interleaving of the critical sections of
kmalloc and kfree keeps it sound and never hands out overlapping blocks; `KheapCalls` that freeing the block
just allocated restores the heap exactly; `KheapRefs` that the assertions of freepageref cannot fail while at most 256
pagerefs are reserved, and `KheapRefsExample` that 257 are enough to fail one.
Class `Kmalloc.Allocator` keeps the heap in linked records and words of memory (`KmallocLinks`), and proves
that the debug checkers `checksubpage` and `checksubpages` always succeed; kmalloc and kfree answer exactly as the
lists, the bitmaps and the pages offered require.

**Threads.** `ThreadLists` is the sentinel list; `Sched` and `SchedInvariant` are the thread placement machine
(switch, idle, sleep, wake, fork, migrate, exit, bury) over any number of CPUs; `Balance` is the migration
algorithm; `Spl` and `SplSwitch` are the interrupt-level accounting across context switches; `Semaphore`
and `LockCv` are the synchronisation primitives; `WaitsFor` and `Hangman` are the deadlock detector. Beside each of
these machines stands a module that judges its runs by the operations made so far and not by the machine's own records:
`SchedHistory`, `SplLevels`, `SemaphoreHistory`, `LockHistory`, and `WaitsHistory` with `HangmanRuns`.

The code is concurrent where the machines are: `Sched`, `SplSwitch`, `Semaphore`, `LockCv` and `KheapRuns` step
at the granularity of spinlock sections, and their theorems quantify over every legal sequence of steps of all CPUs
and threads. Page-aligned addresses are kept as page, frame and slot numbers; hardware (TLB instructions,
interrupt enable, the byte copy of a vnode read or write, `ram_stealmem` as a bump pointer) is modelled by its effect.

## Findings

Properties that the code does not have in full, each with its exact condition or a concrete input:

- The victim search never considers the last frame, and when no run of evictable frames starts at frame 1 or at the
  cursor it does not terminate (`Coremap.SearchDiverges`); when one exists it ends within two laps (`Coremap.GetVictim`).
  `PagingEviction.LastFrameExample` is a machine whose only evictable frame is the last: every fault on another page hangs.
- A request for all frames but one, or more, has no run. The search ends all the same exactly when every frame but the
  first and the last is evictable (`Coremap.OverlongExactly`), and then names a run that begins at frame 0 or below.
- A kernel allocation that has to evict keeps the paging invariant if and only if the run it evicts contains no free
  frame (`PagingKernel.EvictingExactly`): a free frame is swapped out under the page number it had before. Contents are
  lost exactly when such a frame is the last of the run with its number, the number is that of a user page, and the
  bytes differ (`PagingEviction.EvictionLosesExactly`); a number of 0 loses nothing. `PagingEviction.StaleFrameExample`
  loses a page. One-page evictions are always sound (`PagingKernel.OnePageEvictsDirty`).
- `seg_load_page` can load a whole segment, whichever byte faults first, if and only if the offset of `p_vaddr` in its
  page plus `p_memsz` fits in `p_memsz` rounded up to pages (`Segments.SegmentLoadableIff`), because the page count
  uses the offset of the fault address; an aligned `p_vaddr` always does. `Segments.UnalignedOverrunExample` overruns the frame.
- `as_get_segment` includes a segment's top. A fault exactly at an aligned top, the only fault address in no user page
  (`PagingFault.AlignedTop`), fails an assertion (`PagingFault.AlignedTopHalts`). Every byte of every segment is attributed
  to its own segment if and only if no top lies in a segment tested later (`SegmentLookup.LookupExactly`); with adjacent
  segments the first byte of the second is not (`SegmentLookup.AdjacentSegmentsExample`).
- A page is loaded from one segment only. All addresses of each page get the same segment if and only if no segment
  reaches a page of another (`SegmentLookup.OneSegmentPerPage`); in `SegmentLookup.SharedPageExample` two segments that
  share a page but no byte are each looked up correctly, and the first data byte is 7 in the file and 0 in memory.
- vm_fault answers EFAULT for an address of a segment if and only if the page is untouched, gets a frame, and the file
  lacks one of its bytes; the page then stays mapped, outside the TLB (`PagingShortRead.ShortReadExactly`). So the first
  access to such a page is refused and the second served, with zeros for the missing bytes (`PagingShortRead.TwoLoads`,
  `PagingShortRead.TruncatedFileExample`), and the counters are off by one for each such fault (`PagingFault.FaultOk`).
- `freepageref` asserts that a root without a page has no bit set; for one call the exact condition is in
  `Kmalloc.Allocator.FreePageref`. It holds in every run in which at most 256 pagerefs are reserved at any time, counting
  those leaked when no pageref page could be had (`KheapRefs.FreePagerefNeverPanics`). The bound cannot be raised:
  `KheapRefsExample.FreePagerefCanPanic` is a run with 257.

## Model

| member | source | states |
|---|---|---|
| Segments.SegLoadPage | kern/vm/segments.c:91-182 | for any fault address at or above p_vaddr: the asserts fail exactly for a missing vnode or a page index past the page count, the copy leaves the frame exactly when it is not load-safe, and otherwise the frame is byte for byte the page's image (file bytes, then zeros) and a short read is reported exactly when the file lacks one of those bytes |
| Segments.PlanFillsImage | kern/vm/segments.c:115-180 | a copy plan with the right source, destination and length fills the frame with exactly the page's image |
| Segments.SegmentLoadableIff | kern/vm/segments.c:104-127 | every byte of a segment can fault first and be loaded if and only if the segment is compact; an aligned p_vaddr always is |
| Segments.UnalignedOverrunExample | kern/vm/segments.c:104-163 | a concrete unaligned segment whose second page would be copied beyond its frame |
| Coremap.GetVictim | kern/vm/coremap.c:89-118 | for any size and cursor: when a run of evictable frames exists at the cursor or from frame 1, the search ends within two laps with the first run from the cursor on, else the first from frame 1, contiguous and in bounds, and the cursor just behind it; without one it answers only an overlong request, with a run that begins at frame 0 or below, and is otherwise reported as endless |
| Coremap.SearchDiverges | kern/vm/coremap.c:95-115 | without a run, and unless the request is overlong, the loop never finds one, however many iterations it makes |
| Coremap.OverlongExactly | kern/vm/coremap.c:95-115 | a request for all frames but one, or more, has no run, and its search ends exactly when every frame but the first and the last is evictable |
| Coremap.VictimUnique | kern/vm/coremap.c:89-118 | the round-robin rule determines the victim |
| Coremap.FindFreeRun | kern/vm/coremap.c:276-287 | finds the lowest run of npages free frames if and only if there is one, frame 0 not being free |
| Coremap.FindFreeFrame | kern/vm/coremap.c:162-167 | finds the lowest free frame if and only if there is one |
| PageTables.AddressSplit | kern/vm/pt.c:23-45 | outer index, inner index and offset are in range and determine the address; the first two determine the page |
| PageTables.PageTable.constructor | kern/vm/pt.c:54-72 | a new directory maps nothing |
| PageTables.PageTable.DefineInner | kern/vm/pt.c:129-147 | defining an inner table adds no mapping and loses none |
| PageTables.PageTable.GetPa | kern/vm/pt.c:156-175 | the frame mapped for the page, or 0 |
| PageTables.PageTable.SetPa | kern/vm/pt.c:184-205 | sets the page's frame, keeps its swap slot, and changes no other page |
| PageTables.PageTable.GetOffset | kern/vm/pt.c:215-245 | the swap slot of the page, or -1 |
| PageTables.PageTable.SetOffset | kern/vm/pt.c:255-284 | sets the page's slot, keeps its frame, and changes no other page |
| SegmentLookup.LookupExactly | kern/vm/addrspace.c:260-283 | for segments that share no byte, every byte is attributed to its own segment if and only if no segment's top lies in a later one |
| SegmentLookup.OneSegmentPerPage | kern/vm/addrspace.c:260-283 | all addresses of each page get the segment its bytes lie in if and only if no segment reaches a page of another |
| SegmentLookup.AdjacentSegmentsExample | kern/vm/addrspace.c:260-283 | with adjacent segments the first byte of the second is attributed to the first |
| SegmentLookup.SharedPageExample | kern/vm/addrspace.c:260-283 | two segments that share a page but no byte, each looked up correctly: the page loaded for the first has a zero where the second has its first byte, 7 |
| Paging.FreeSlot | kern/vm/swapfile.c:55-61 | the lowest free swap slot, if there is one |
| Paging.TlbProbe | kern/vm/vm_tlb.c:34-44 | the TLB slot that holds the page number, valid or not, if there is one |
| PagingInvariant.PageTrichotomy | kern/vm/vmc1.c:149-190 | each virtual page is exactly one of untouched, resident or swapped |
| PagingInvariant.Bijection | kern/vm/coremap.c:181-208 | resident pages and dirty frames correspond one to one, as do swapped pages and busy swap slots |
| PagingInvariant.TlbRemoveOk | kern/vm/vm_tlb.c:19-48 | removing a page from the TLB keeps every other entry coherent and leaves no valid entry for the page |
| PagingInvariant.EvictOk | kern/vm/coremap.c:182-195 | evicting a dirty frame keeps the invariant and the content of every page |
| PagingInvariant.AllocUserOk | kern/vm/coremap.c:149-211 | a user allocation fails exactly if no frame is free or unused and none can be evicted; otherwise, with or without eviction, it keeps the invariant and every content, and hands over a frame no page maps |
| PagingAlloc.AllocUserExactly | kern/vm/coremap.c:149-211 | from any state in which frame 0 is not for users: None exactly if no frame is Free, none was never used, and no frame but the last is Dirty or no swap slot is free; otherwise the lowest Free frame, else the first unused, else the victim, whose page has moved to the lowest free slot and out of page table and TLB |
| PagingAlloc.VictimIsAny | kern/vm/coremap.c:89-118 | when no frame is free, the search for one frame has something to find exactly if some frame other than the first and the last is Dirty, and it finds a Dirty one |
| PagingInvariant.MapNewOk | kern/vm/vmc1.c:157-175 | mapping a filled frame for an untouched page keeps everything and gives the page its image |
| PagingInvariant.MapSwappedOk | kern/vm/vmc1.c:176-190 | swapping a page in frees its slot and keeps its content and everybody else's |
| PagingInvariant.FillTlbOk | kern/vm/vmc1.c:206-223 | writing the TLB slot of the round-robin victim keeps the TLB coherent and without duplicates |
| PagingFault.FaultSegment | kern/vm/addrspace.c:260-283 | a fault address lies in the segment of its page unless it is an aligned segment top, where the page index is out of range |
| PagingFault.PageLoads | kern/vm/segments.c:104-127 | inside a compact segment every page loads, whichever of its bytes faulted |
| PagingFault.StackImageIsZero | kern/vm/segments.c:69-88 | the initial image of a stack page is zero |
| PagingFault.NewPageOk | kern/vm/vmc1.c:157-198 | the first fault on a page keeps the invariant and every content, and counts one zeroed page or one disk read |
| PagingFault.SwapInOk | kern/vm/vmc1.c:176-190 | a fault on a swapped page keeps the invariant and every content, and counts one swap read |
| PagingFault.ReloadOk | kern/vm/vmc1.c:149-152 | a fault on a resident page only refills the TLB |
| PagingFault.SegmentFaultOk | kern/vm/vmc1.c:139-229 | the kernel halts exactly when the page is not resident and no frame is free, unused or evictable, the page is no user page, or a file page has no vnode; otherwise invariant, contents and counters are kept |
| PagingFault.AlignedTop | kern/vm/addrspace.c:273-279 | a fault address with a segment is in no user page if and only if it is the page-aligned top of that segment |
| PagingFault.AlignedTopHalts | kern/vm/segments.c:125-127 | a fault exactly at the page-aligned top of its segment fails the assertion on the page index |
| PagingFault.FaultOk | kern/vm/vmc1.c:91-230 | vm_fault as a whole: after success the page is in the TLB with the right permission, refusals change nothing, and invariant, contents and accounting are kept |
| PagingShortRead.ShortReadExactly | kern/vm/vmc1.c:157-198 | a fault in a segment is answered EFAULT if and only if its page is untouched, gets a frame and takes a byte the file does not have; the page is then resident with its image and not in the TLB |
| PagingShortRead.MissingBytesAreZero | kern/vm/segments.c:165-182 | the bytes the file lacks are zero in the image of their page |
| PagingShortRead.NextFaultServed | kern/vm/vmc1.c:149-152 | the next fault on a page left mapped by a short read is served |
| PagingShortRead.TwoLoads | kern/vm/vmc1.c:157-198 | for any byte of any page whose file is too short: the first load from boot is refused, the second returns the image's byte |
| PagingShortRead.TruncatedFileExample | kern/vm/vmc1.c:194-198 | a one-page program cut off in its file: the first load of the last byte is refused, the second returns zero |
| PagingKernel.FaultKeepsKernel | kern/vm/coremap.c:89-118 | no fault evicts, reuses or writes a fixed frame |
| PagingKernel.KernelAllocOk | kern/vm/coremap.c:214-302 | an allocation that evicts only dirty frames keeps the invariant and every user page, and returns frames that were not fixed |
| PagingKernel.KernelAllocLive | kern/vm/coremap.c:214-302 | a new kernel block is disjoint from every live one |
| PagingKernel.KernelFreeOk | kern/vm/coremap.c:324-350 | free_kpages frees exactly the frames of the block and touches no other block and no user page |
| PagingKernel.KernelStoreOk | kern/vm/coremap.c:123-131 | writing kernel frames changes no user page |
| PagingKernel.OnePageEvictsDirty | kern/vm/coremap.c:89-118 | a one-page kernel eviction only ever evicts a dirty frame |
| PagingKernel.EvictingExactly | kern/vm/coremap.c:230-265 | an evicting allocation keeps the invariant if and only if its run holds no free frame |
| PagingKernel.StaleSlotClash | kern/vm/coremap.c:239-252 | swapping out a free frame under its old page number makes two places claim one page |
| PagingKernel.AllocUserKeepsKernel | kern/vm/coremap.c:149-211 | a frame given to a user page was not fixed, becomes dirty under that page's number, and no other entry and no byte changes |
| PagingEviction.EvictRunLeaves | kern/vm/coremap.c:239-252 | a run of evictions leaves each page as it was, or in the slot of the last frame of the run that carries its number |
| PagingEviction.ContentAfterEviction | kern/vm/coremap.c:239-265 | after the allocation each page holds what it held, or what that last frame held |
| PagingEviction.EvictionLosesExactly | kern/vm/coremap.c:239-265 | the allocation keeps every content if and only if no free frame of the run, the last with its number, carries a user page's number and other bytes than the page |
| PagingEviction.StaleFrameExample | kern/vm/coremap.c:109-109 | a machine that satisfies the invariant, where two frames for the kernel destroy the bytes of a user page |
| PagingEviction.LastFrameExample | kern/vm/coremap.c:98-100 | a machine that satisfies the invariant, whose only dirty frame is the last: no victim is found, however long the search goes on |
| PagingRuns.LoadOk | kern/vm/vmc1.c:91-230 | a load that returns gives the byte of the page's content, after a fault if need be |
| PagingRuns.StoreOk | kern/vm/vmc1.c:91-230 | a store that succeeds changes one byte of a writable page and nothing else; one that fails changes no content |
| PagingRuns.ActivateOk | kern/vm/addrspace.c:122-146 | flushing the TLB on activation keeps the invariant and every content, and leaves no page mapped |
| PagingRuns.StepOk | kern/vm/vmc1.c:91-230 | one load, store, kernel allocation, kernel free, kernel write or activation keeps the run invariant, and its event is that of a flat memory |
| PagingRuns.PagingIsTransparent | kern/vm/vmc1.c:91-230 | in every run from boot each load returns the last value stored at its address or the address's initial byte, stores only reach writable pages, and the invariant and the counters hold at the end |
| PagingRuns.StatisticsConsistent | kern/vm/statistics.c:82-100 | without short reads the three identities hold, so the printed warnings are unreachable |
| PagingRuns.AlwaysOneToOne | kern/vm/coremap.c:181-208 | in every state that a run from boot reaches, each page is untouched, in one frame or in one slot, and frames and slots hold exactly the pages they name |
| PagingRuns.FaultAnswers | kern/vm/vmc1.c:107-118 | EACCES is the answer to a fault on a read-only page and to no other, EINVAL to a fault of unknown kind and to no other |
| PagingOutcomes.EvictRunExactly | kern/vm/coremap.c:239-252 | a run of n evictions succeeds exactly if at least n slots are free, and leaves n fewer |
| PagingOutcomes.KernelAllocExactly | kern/vm/coremap.c:214-302 | from any state: which n frames the kernel gets (the lowest free run, else the first unused, else the victims), their coremap entries, and exactly when it gets none, panics or does not end |
| PagingOutcomes.FaultExactly | kern/vm/vmc1.c:91-230 | on a TLB miss: the kernel halts, EFAULT or success, each if and only if segment, page table, coremap, swap slots and file require it |
| PagingOutcomes.LoadExactly | kern/vm/vmc1.c:91-230 | every load halts, is refused or is answered, exactly by that |
| PagingOutcomes.StoreExactly | kern/vm/vmc1.c:91-230 | every store likewise; it is refused with EACCES exactly if it is served and the page is read-only |
| PagingOutcomes.NextEventExactly | kern/vm/vmc1.c:91-230 | after any run from boot and for any next operation: the run grows by one event, and which kind of event is told from the state the run has reached |
| PagingCounters.FaultCounts | kern/vm/vmc1.c:149-223 | each counter grows by one exactly if the page was resident, swapped, takes a byte of the file or takes none, another page had to move out, or the fault was served; a served fault writes the TLB slot at the cursor, counted as free or replaced by what was in it, and only the evicted page's slot changes besides |
| PagingCounters.FileBytes | kern/vm/segments.c:129-163 | the loader counts a zeroed page exactly if no byte of the page lies in the file part of the segment |
| PagingCounters.RoundRobin | kern/vm/vmc1.c:32-44 | after every run from boot the TLB cursor has moved on by exactly the number of served faults, modulo the number of slots |
| VmMachine.Vm.constructor | kern/vm/coremap.c:47-69 | boot: all frames clean, all swap slots free, empty page table, empty TLB, zero counters |
| VmMachine.Vm.NewIsBooted | kern/vm/addrspace.c:59-72 | a new machine is the start state of the theorems about runs |
| VmMachine.Vm.Increment | kern/vm/statistics.c:48-55 | exactly the named counter grows by one |
| VmMachine.Vm.GetTlbVictim | kern/vm/vmc1.c:32-44 | TLB slots are taken in turn, wrapping at the end |
| VmMachine.Vm.TlbRemoveByVa | kern/vm/vm_tlb.c:19-48 | the probed slot is invalidated under its own kernel page number, if there is one |
| VmMachine.Vm.SwapOut | kern/vm/swapfile.c:43-89 | the frame's bytes go to the lowest free slot, which records the page; no slot is the panic |
| VmMachine.Vm.SwapInPage | kern/vm/swapfile.c:92-126 | the slot's bytes reach the frame and the slot is free again |
| VmMachine.Vm.EvictFrame | kern/vm/coremap.c:182-195 | swap-out, the two page-table updates and the TLB removal together are the abstract eviction |
| VmMachine.Vm.GetPageUser | kern/vm/coremap.c:149-211 | a free frame, else a frame never used, else a victim's: on the arrays, the abstract allocation step by step |
| VmMachine.Vm.PageAlloc | kern/vm/coremap.c:134-211 | no frame exactly if none is free or unused and there is no evictable frame or no free slot; otherwise the lowest free frame, else the first unused, else the round-robin victim, whose page is then in the lowest free slot |
| VmMachine.Vm.LoadTlb | kern/vm/vmc1.c:206-223 | writes the victim slot, counting a free or a replaced entry |
| VmMachine.Vm.LoadElf | kern/vm/segments.c:91-182 | loads the page into the frame through SegLoadPage with the counters of each outcome |
| VmMachine.Vm.VmFault | kern/vm/vmc1.c:91-230 | the imperative fault handler returns and leaves exactly what the abstract fault says |
| VmMachine.Vm.UserLoad | kern/vm/vmc1.c:91-230 | a user load on the arrays is the abstract load, and unless the kernel halts the machine is ready for the next |
| VmMachine.Vm.UserStore | kern/vm/vmc1.c:91-230 | a user store on the arrays is the abstract store, and unless the kernel halts the machine is ready for the next |
| VmMachine.Vm.ActivateTlb | kern/vm/addrspace.c:122-146 | every TLB slot is invalidated and one invalidation counted |
| VmMachine.Vm.GetPPages | kern/vm/coremap.c:214-302 | the kernel allocator on the arrays is the abstract one, for requests of any size |
| VmMachine.Vm.EvictFrames | kern/vm/coremap.c:239-254 | the eviction loop evicts the whole run in order, or reports a full swap file |
| VmMachine.Vm.EvictForKernel | kern/vm/coremap.c:228-270 | victim search, the test for an address space, eviction and marking are the abstract allocation |
| VmMachine.Vm.FreeKPages | kern/vm/coremap.c:324-350 | exactly the block's frames become free |
| VmRuns.Perform | kern/vm/vmc1.c:91-230 | one operation on the arrays gives the event and the state of the functional step, and keeps the invariant of runs |
| VmRuns.Execute | kern/vm/vmc1.c:91-230 | a whole run on the arrays gives the events of the functional run and leaves its machine |
| VmRuns.RunFromBoot | kern/vm/vmc1.c:91-230 | from a new machine on, every load on the arrays returns what a flat memory would |
| KheapInvariant.BlocksApart | kern/vm/kmalloc.c:1003-1013 | two different blocks, free or in use, of any sizes, never overlap |
| KheapInvariant.BlockApartFromPages | kern/vm/kmalloc.c:225-256 | no block overlaps a multi-page block or a page of pagerefs |
| KheapInvariant.BlockAligned | kern/vm/kmalloc.c:1003-1013 | every block is aligned to its block size |
| KheapInvariant.TakeBlockOk | kern/vm/kmalloc.c:925-958 | the head of the free list is large enough, aligned, was free and is in use; nothing else changes and the invariant holds |
| KheapInvariant.ReserveOk | kern/vm/kmalloc.c:263-303 | marking the lowest free pageref keeps bitmaps and counts matching the pagerefs in use |
| KheapInvariant.InstallRootOk | kern/vm/kmalloc.c:225-256 | a root gets its page once, and the invariant holds whoever was faster |
| KheapInvariant.LinkPageOk | kern/vm/kmalloc.c:983-1022 | a new page on both lists with its last block taken keeps the invariant and every other block's status |
| KheapInvariant.FreeBlockOk | kern/vm/kmalloc.c:1121-1156 | freeing a block ends exactly that block's use; a page that becomes completely free leaves both lists and the bitmap |
| KheapInvariant.UnlinkPageOk | kern/vm/kmalloc.c:827-850 | a completely free page leaves the heap without disturbing the others |
| KheapInvariant.PigeonHole | kern/vm/kmalloc.c:545-561 | a free list without repetition of indices below n has at most n entries, and fewer when one index is missing |
| KheapCalls.FindBlock | kern/vm/kmalloc.c:1077-1089 | the address of any block leads back to its page, whatever the list order |
| KheapCalls.FindNone | kern/vm/kmalloc.c:1091-1095 | a multi-page block is on no heap page |
| KheapCalls.FreeUndoesTake | kern/vm/kmalloc.c:1121-1145 | freeing the block just taken from an existing page restores free list, lists and bitmap exactly |
| KheapCalls.FreeUndoesLink | kern/vm/kmalloc.c:1146-1153 | freeing the only block of a page just linked restores both lists and the bitmap exactly |
| KheapCalls.ListsAgree | kern/vm/kmalloc.c:585-608 | the size lists together hold as many pages as the list of all pages |
| KheapRuns.BlockType | kern/vm/kmalloc.c:858-872 | the smallest size class that fits |
| KheapRuns.StepOk | kern/vm/kmalloc.c:880-1165 | every critical section, in any state reached by any interleaving, keeps the heap sound and the blocks in use equal to the blocks clients hold; an address granted is held by nobody |
| KheapRuns.FreeTarget | kern/vm/kmalloc.c:1077-1102 | for a held block the search and the alignment test always succeed: never the panic on an invalid address |
| KheapRuns.LoansApart | kern/vm/kmalloc.c:1174-1228 | two blocks held at the same time never overlap and each is as large as requested |
| KheapRuns.HeldBlocksNeverOverlap | kern/vm/kmalloc.c:1174-1228 | the same in every reachable state of every interleaving from boot |
| KheapRuns.GrantedIsNew | kern/vm/kmalloc.c:1174-1228 | no allocation in any run returns an address that a client still holds |
| KheapRefs.FreePagerefSafe | kern/vm/kmalloc.c:310-342 | with the roots in order, all assertions of freepageref hold for a page of the heap |
| KheapRefs.FreePagerefNeverPanics | kern/vm/kmalloc.c:310-342 | in every run with at most 256 pagerefs reserved at any time, every assertion of freepageref holds |
| KheapRefsExample.FreePagerefCanPanic | kern/vm/kmalloc.c:310-342 | a run of 261 critical sections with at most 257 pagerefs reserved after which the assertion on passed roots fails |
| KmallocLinks.TakeStored | kern/vm/kmalloc.c:929-947 | unhooking the head of a threaded free list stores the shortened list |
| KmallocLinks.PutStored | kern/vm/kmalloc.c:1121-1143 | pushing a block writes one word and stores the longer list; no other page's list is touched |
| KmallocLinks.NewPageStored | kern/vm/kmalloc.c:1003-1013 | the threaded new page stores the full free list and disturbs no other page |
| KmallocLinks.LinkStored | kern/vm/kmalloc.c:1015-1019 | the two pushes store the page at the head of both lists |
| KmallocLinks.SameUnlinked | kern/vm/kmalloc.c:835-841 | redirecting one size-list pointer stores the list without the page |
| KmallocLinks.AllUnlinked | kern/vm/kmalloc.c:843-849 | redirecting one pointer of the list of all pages stores the list without the page |
| Kmalloc.BlockTypeFor | kern/vm/kmalloc.c:858-872 | the loop finds the smallest size class that fits and never panics for a subpage size |
| Kmalloc.Allocator.constructor | kern/vm/kmalloc.c:219-352 | the static data before the first call is the empty heap |
| Kmalloc.Allocator.Take | kern/vm/kmalloc.c:925-958 | hands out the head of the free list; all assertions hold |
| Kmalloc.Allocator.TakeFrom | kern/vm/kmalloc.c:915-960 | takes from the first page of the size list with a free block, or finds none and changes nothing |
| Kmalloc.Allocator.AllocPageref | kern/vm/kmalloc.c:263-303 | reserves the lowest free pageref, or finds all in use |
| Kmalloc.Allocator.InstallPage | kern/vm/kmalloc.c:244-255 | the root keeps the first page it gets; a later one is surplus |
| Kmalloc.Allocator.Thread | kern/vm/kmalloc.c:1003-1013 | the loop threads every block to the one below it and writes only inside the page |
| Kmalloc.Allocator.LinkNew | kern/vm/kmalloc.c:994-1022 | a new page is described, threaded, pushed on both lists and its last block handed out |
| Kmalloc.Allocator.RemoveSame | kern/vm/kmalloc.c:835-841 | the page leaves its size list; all other lists stay |
| Kmalloc.Allocator.RemoveAll | kern/vm/kmalloc.c:843-849 | the page leaves the list of all pages |
| Kmalloc.Allocator.FreePageref | kern/vm/kmalloc.c:310-342 | clears exactly the pageref's bit, and fails exactly when a passed root without a page is not empty |
| Kmalloc.Allocator.Search | kern/vm/kmalloc.c:1077-1095 | the first page in list order that contains the address, or none |
| Kmalloc.Allocator.Push | kern/vm/kmalloc.c:1121-1143 | the block becomes the head of its page's free list |
| Kmalloc.Allocator.Unlink | kern/vm/kmalloc.c:1146-1153 | a completely free page leaves lists and bitmap, unless freepageref panics |
| Kmalloc.Allocator.SubpageKfree | kern/vm/kmalloc.c:1031-1165 | the four outcomes, each exactly characterised, with the heap it leaves |
| Kmalloc.Allocator.NewPage | kern/vm/kmalloc.c:971-1022 | with any failure of either page request, the sections make up a run of the heap machine; no block comes back exactly if there is no page, every pageref is taken, or the next one's root has no page and none is given; otherwise the last block of the new page, with the pageref that is next |
| Kmalloc.Allocator.Kmalloc | kern/vm/kmalloc.c:1175-1211 | for less than a page: the head block of the first listed page of the class that has one, and nothing else changes; without such a page, the answer of NewPage; for more, the pages given; a result is an address nobody held, recorded with the size requested, and without one no block held has changed |
| Kmalloc.FirstFoundIsFirst | kern/vm/kmalloc.c:915-960 | the search of a size list finds a page exactly if one on it has a free block, and then the first such page |
| Kmalloc.NewPageGot | kern/vm/kmalloc.c:225-303 | with a page, a free pageref, and a page for its root, there is a block |
| Kmalloc.Allocator.Kfree | kern/vm/kmalloc.c:1217-1228 | freeing a held block is the machine's free step, never a bad address, and never a panic while the roots are in order; which of its answers it gives follows from the block's owner and its page's free count |
| Kmalloc.Allocator.CheckSubpage | kern/vm/kmalloc.c:500-573 | every test of the page checker succeeds on every page of the heap |
| Kmalloc.Allocator.CheckSubpages | kern/vm/kmalloc.c:585-608 | every test of the heap checker succeeds |
| ThreadLists.ReversedTwice | kern/include/threadlist.h:94-102 | walking a list backwards twice is walking it forwards |
| ThreadLists.ThreadList.constructor | kern/thread/threadlist.c:61-72 | a new list is empty |
| ThreadLists.ThreadList.IsEmpty | kern/thread/threadlist.c:92-97 | the count is zero exactly for the empty sequence |
| ThreadLists.ThreadList.InsertAfterNode | kern/thread/threadlist.c:107-120 | four link updates insert the node behind a node of the list, a sentinel included; the count is the caller's |
| ThreadLists.ThreadList.InsertBeforeNode | kern/thread/threadlist.c:127-141 | the mirror image |
| ThreadLists.ThreadList.RemoveNode | kern/thread/threadlist.c:148-158 | removes exactly the node and clears its links |
| ThreadLists.ThreadList.AddHead | kern/thread/threadlist.c:164-171 | the thread becomes the first element |
| ThreadLists.ThreadList.AddTail | kern/thread/threadlist.c:174-181 | the thread becomes the last element |
| ThreadLists.ThreadList.RemHead | kern/thread/threadlist.c:184-199 | returns and removes the first element, or null exactly for an empty list |
| ThreadLists.ThreadList.RemTail | kern/thread/threadlist.c:202-217 | returns and removes the last element, or null exactly for an empty list |
| ThreadLists.ThreadList.InsertAfter | kern/thread/threadlist.c:220-225 | insertion in the middle |
| ThreadLists.ThreadList.InsertBefore | kern/thread/threadlist.c:228-233 | insertion in the middle |
| ThreadLists.ThreadList.Remove | kern/thread/threadlist.c:236-241 | removal from the middle |
| ThreadLists.ThreadList.Forward | kern/include/threadlist.h:94-97 | the forward traversal visits the sequence |
| ThreadLists.ThreadList.Backward | kern/include/threadlist.h:99-102 | the backward traversal visits its reverse |
| ThreadLists.Move | kern/thread/thread.c:884-887 | moving a thread between two lists leaves a third list as it was |
| SchedInvariant.SwitchOutOk | kern/thread/thread.c:601-626 | putting the current thread on the run queue, a channel or the zombie list keeps the placement invariant |
| SchedInvariant.PickOk | kern/thread/thread.c:645-665 | taking the next thread and making it current keeps it |
| SchedInvariant.MoveOk | kern/thread/thread.c:454-484 | a thread that goes from one list to another keeps it, whichever CPU it is queued on |
| SchedInvariant.ForkOk | kern/thread/thread.c:519-525 | creating a thread, before it is queued, keeps it |
| SchedInvariant.RunnableOk | kern/thread/thread.c:454-484 | queueing a woken or newly forked thread on its own CPU, from whichever CPU, keeps it, interrupt included |
| SchedInvariant.MigTakeOk | kern/thread/thread.c:884-887 | taking a victim keeps it, and the own queue is not empty |
| SchedInvariant.BuryOk | kern/thread/thread.c:300-309 | destroying a zombie keeps it |
| SchedInvariant.StepOk | kern/thread/thread.c:566-732 | every step of every CPU keeps it; a fork is two steps, between which the parent may be preempted and migrate |
| SchedInvariant.CurrentOnce | kern/thread/thread.c:655-665 | in every reachable state a thread is current on at most one CPU |
| SchedInvariant.OnOneList | kern/thread/thread.c:601-626 | and on at most one list, once |
| SchedInvariant.QueuedOwner | kern/thread/thread.c:898-927 | a queued thread is ready, belongs to that CPU, and is current only there and only while that CPU is idle |
| SchedInvariant.NobodyLost | kern/thread/thread.c:566-732 | every thread is on a list, or is the current thread of its CPU which is not idle: exactly one of the two |
| SchedInvariant.BurySafe | kern/thread/thread.c:300-309 | a buried thread is a zombie and no CPU's current thread |
| SchedInvariant.MigrationSafe | kern/thread/thread.c:881-941 | under any interference the own queue never runs empty while victims are taken, and no CPU's current thread is sent away |
| SchedInvariant.NoIdleWithWork | kern/thread/thread.c:473-479 | an idle CPU with a queued thread has been interrupted or has the interrupt pending |
| SchedInvariant.OthersAppend | kern/thread/thread.c:469-471 | a step of another CPU appends at most one thread to a run queue and removes none |
| SchedInvariant.OwnerTakesEnds | kern/thread/thread.c:645-665 | on its own queue Pick takes the head and makes it current, MigTake takes the tail, a yield appends the current thread, and every other step at most appends |
| SchedInvariant.ChannelIsFifo | kern/thread/thread.c:1027-1083 | a sleeper joins its channel at the tail, a waker takes its head and appends it to its own list, and no other step touches the channel |
| SchedHistory.WhereIs | kern/thread/thread.c:566-732 | in every reachable state a thread is on exactly the list that the last step moving it put it on |
| SchedHistory.AsleepUntilWoken | kern/thread/thread.c:1008-1083 | a thread that goes to sleep on a channel does not run again before a waker has taken it off that channel's head and then queued it |
| SchedHistory.DeadUntilBuried | kern/thread/thread.c:300-309 | a thread that has exited does not run again before its CPU has destroyed it |
| SchedHistory.KeepsOrder | kern/thread/thread.c:454-484 | in every reachable state each run queue, channel, zombie list and list of woken threads is in the order in which its threads joined it |
| SchedHistory.LongestFirst | kern/thread/thread.c:645-653 | a CPU runs the thread that has been on its queue longest, and a waker takes the one that has slept longest |
| SchedHistory.CpuIsWhere | kern/thread/thread.c:566-732 | in every reachable state a CPU's phase, migration and awakening are what its own steps amount to, its current thread is the one it picked last, and its interrupt is pending exactly if another CPU has queued a thread on it while idle and it has not been interrupted since |
| SchedHistory.IdleCpuRuns | kern/thread/thread.c:645-731 | an idle CPU with work can be interrupted, then looks again, and then runs the first thread of its queue |
| SchedHistory.BurialsEnd | kern/thread/thread.c:300-309 | exorcise ends with all zombies of the CPU destroyed and no other thread |
| SchedHistory.QueueGetsUnlocked | kern/thread/thread.c:589-720 | whoever holds a run queue lock can release it by at most two steps of its own |
| SchedHistory.OnTheWay | kern/thread/thread.c:454-484 | a forked, woken or set-aside thread can be queued as soon as the lock of its queue is free; the current thread among the victims is skipped and every other can be sent |
| SchedHistory.RunningCpuMay | kern/thread/thread.c:566-626 | a running CPU can put its thread to sleep, exit, fork and start a migration at any time, can yield exactly if another thread is queued, and can wake exactly if one sleeps |
| SchedHistory.MigrationGoesOn | kern/thread/thread.c:881-957 | a migration can always take the next victim, return the rest, and end |
| Balance.ShareCovers | kern/thread/thread.c:876-876 | the share times the number of CPUs covers all threads |
| Balance.Cpus.CountAll | kern/thread/thread.c:864-874 | the sum of the queue lengths |
| Balance.Cpus.TakeVictims | kern/thread/thread.c:881-888 | the last threads of the own queue, in order; the queue never runs out |
| Balance.Cpus.Fill | kern/thread/thread.c:890-941 | a receiver gets the next victims in order up to its share, and an interrupt exactly when it idles and got one; the current thread is skipped |
| Balance.Cpus.Deal | kern/thread/thread.c:890-941 | the receivers are served in CPU order until enough victims were sent |
| Balance.Cpus.PutBack | kern/thread/thread.c:948-954 | leftovers return to the own queue in order |
| Balance.Capacity | kern/thread/thread.c:876-941 | without interference the receivers have room for every victim |
| Balance.Cpus.ConsiderMigration | kern/thread/thread.c:856-958 | no thread is lost or duplicated, every queued thread's t_cpu names its queue, the current thread never moves, the sender keeps exactly its share (and the current thread if it was among the victims), the receivers are given the other victims in order, CPU by CPU, each up to its share and none passed over, and an idle CPU is interrupted exactly when it got a thread |
| Spl.BalanceKept | kern/thread/spl.c:87-160 | each spl call and each spinlock operation keeps count = level + spinlocks with interrupts on exactly at zero; acquire and release cancel |
| Spl.NestingBalanced | kern/thread/spl.c:60-86 | for any overlap of spl calls and spinlocks, interrupts are on again only when the last reason is gone |
| Spl.Cpu.Splraise | kern/thread/spl.c:87-104 | one more reason; interrupts off on the first |
| Spl.Cpu.Spllower | kern/thread/spl.c:107-124 | one reason less; interrupts on after the last |
| Spl.Cpu.Splx | kern/thread/spl.c:132-160 | sets the level, returns the old one, keeps the balance |
| Spl.Cpu.Acquire | kern/thread/spinlock.c:76-122 | one attempt, for any state of the lock: taken exactly when the word was clear, spinning with the lock already counted and interrupts off, or the panic exactly when this CPU holds it |
| Spl.Cpu.Release | kern/thread/spinlock.c:128-142 | drops the lock and its reason |
| SplSwitch.LeaveOk | kern/thread/thread.c:574-626 | leaving a thread, asleep or ready, keeps the accounting, whatever level it is at |
| SplSwitch.ArriveOk | kern/thread/thread.c:717-731 | arriving in a thread, old or new, keeps it |
| SplSwitch.StepOk | kern/thread/spinlock.c:76-142 | every spl, spinlock, interrupt, idle, switch and fork step of every CPU keeps it |
| SplSwitch.IntEnterOk | kern/arch/mips/locore/trap.c:178-184 | when an interrupt comes the level and the count are zero |
| SplSwitch.IntExitOk | kern/arch/mips/locore/trap.c:191-196 | when it ends nothing has leaked |
| SplSwitch.CountsBalance | kern/thread/spl.c:60-160 | in every reachable state outside cpu_idle the running thread's count is its level plus the CPU's spinlocks, and interrupts are on exactly at zero |
| SplSwitch.FrozenAtTwo | kern/thread/thread.c:538-543 | every switched-out or newly forked thread is frozen at a count of two |
| SplSwitch.HandOff | kern/thread/thread.c:717-731 | an arriving thread's CPU holds its run queue lock and no other, so the release balances whoever took it; the level it comes back to is SplLevels.RestoredOnArrival |
| SplLevels.LevelKept | kern/thread/thread.c:574-731 | in every reachable state a running thread is at the level its own spl calls and interrupts have set, and any other will come back to it |
| SplLevels.RestoredOnArrival | kern/thread/thread.c:574-731 | in every run: when a thread arrives, on whatever CPU, its level is the one it had just before it left |
| SplLevels.NewThreadLevel | kern/thread/thread.c:743-768 | a forked thread that has never left arrives first at IPL_NONE |
| SplLevels.InterruptRestores | kern/arch/mips/locore/trap.c:178-196 | a thread comes out of an interrupt handler with the level, the count and the interrupts it went in with, even if it was switched away and moved |
| SplLevels.OwnerIsHolder | kern/thread/spinlock.c:76-142 | in every reachable state the holder of each spinlock is who took it last and has not released it, by its own calls or inside thread_switch |
| SplLevels.CpuIsWhere | kern/thread/thread.c:566-732 | in every reachable state a CPU is where its own steps have led it, executes the thread it switched to last, and spins for the lock it asked for last |
| SplLevels.NeverStuck | kern/thread/thread.c:566-732 | in every reachable state a CPU can go on or waits for a lock that another CPU holds, never one of its own |
| Semaphore.StepOk | kern/thread/synch.c:89-135 | every step of every P and V keeps the accounting and the wakeup bound |
| Semaphore.Conservation | kern/thread/synch.c:89-135 | whenever the lock is free, count plus completed P equals initial count plus completed V |
| Semaphore.NoLostWakeup | kern/thread/synch.c:103-135 | while a thread sleeps and the lock is free, the count is at most the number of woken threads that have not re-tested |
| Semaphore.SomebodyRetests | kern/thread/synch.c:103-135 | so with a unit available and a sleeper, some woken thread is on its way |
| SemaphoreHistory.InsideIs | kern/thread/synch.c:89-135 | the threads inside P and V are those whose last call has not returned, by the calls alone |
| SemaphoreHistory.ReturnedCallsBalance | kern/thread/synch.c:89-135 | whenever the lock is free, count plus returned calls of P equals initial count plus returned calls of V, all counted from the list of steps |
| SemaphoreHistory.SleepersInOrder | kern/thread/thread.c:1008-1045 | in every reachable state the channel is in the order in which its threads went to sleep |
| SemaphoreHistory.WakesFirst | kern/thread/synch.c:124-135 | V wakes the thread that has slept longest, if any, and no other |
| SemaphoreHistory.NeverStuck | kern/thread/synch.c:89-135 | while a thread is inside P or V and not asleep, some thread can go on with its call |
| LockCv.StepOk | kern/thread/synch.c:196-384 | every step of acquire, release, wait, signal and broadcast keeps the invariant; what each call returns with is LockHistory.ReturnLaw |
| LockCv.MutualExclusion | kern/thread/synch.c:196-251 | at most one thread owns the mutex, in every reachable state |
| LockCv.NoLostLock | kern/thread/synch.c:219-251 | a free mutex with sleepers has a woken thread about to try again |
| LockCv.NoMissedSignal | kern/thread/synch.c:327-384 | while a signaller picks, nobody has released the mutex in cv_wait without being on the channel; it wakes exactly the first waiter, or all |
| LockCv.SleepsWithOneSpinlock | kern/thread/thread.c:1013-1017 | a thread goes to sleep holding the channel's spinlock and not the other |
| LockHistory.PastFits | kern/thread/synch.c:196-384 | in every reachable state a thread is at a place inside the call it made last |
| LockHistory.ReturnLaw | kern/thread/synch.c:196-384 | in every run: a thread back from lock_acquire, cv_signal or cv_broadcast owns the mutex; one back from cv_wait owns it too, and has slept and been picked by a signaller; one back from lock_release does not |
| LockHistory.SleepersInOrder | kern/thread/thread.c:1008-1045 | in every reachable state both channels are in the order in which their threads went to sleep |
| LockHistory.QueueStep | kern/thread/synch.c:327-384 | a waiter joins at the tail; a signal takes the first waiter off, a broadcast all, and no other step touches the channel |
| LockHistory.ReleaseWakesFirst | kern/thread/synch.c:232-251 | lock_release wakes the thread that has slept longest, and no other |
| LockHistory.NeverStuck | kern/thread/synch.c:196-384 | while a thread is inside a call and not asleep, some thread can go on with its call |
| WaitsFor.WaitClosesCycle | kern/thread/hangman.c:110-129 | a new wait keeps the graph acyclic if and only if the holder does not already wait for the actor |
| WaitsFor.AcquireKeepsAcyclic | kern/thread/hangman.c:132-157 | acquiring keeps the graph acyclic; that the graph then names the new holder is WaitsHistory.HolderIs |
| WaitsFor.ReleaseKeepsAcyclic | kern/thread/hangman.c:160-182 | releasing keeps the graph acyclic |
| WaitsFor.ChainBound | kern/thread/hangman.c:57-67 | on an acyclic graph no chain is longer than the number of waiting actors |
| WaitsFor.ChainEnds | kern/thread/hangman.c:57-67 | from every actor the chain ends at one that runs or waits for something nobody holds |
| WaitsFor.RunAcyclic | kern/thread/hangman.c:110-182 | the graph is acyclic after every run of calls that returned |
| WaitsFor.DeadlockReportedExactly | kern/thread/hangman.c:52-129 | after every such run the next wait is reported exactly when it would close a cycle in the graph; by the calls alone, WaitsHistory.AnsweredByHistory |
| WaitsHistory.HolderIs | kern/thread/hangman.c:132-182 | after every run the recorded holder of each lock is the actor of the last call that acquired it, if none has released it since |
| WaitsHistory.WaitIs | kern/thread/hangman.c:110-157 | and what an actor is recorded to wait for is the lock of its last wait, if it has not acquired since |
| WaitsHistory.CycleIsCycle | kern/thread/hangman.c:52-94 | the graph has a cycle exactly if the calls put some actors in a circle of waiting |
| WaitsHistory.AnsweredByHistory | kern/thread/hangman.c:52-182 | over every run of calls that returned there is no such circle, and the answer to the next call is the one that the calls before it require: a wait is reported exactly if it closes a circle, and each panic happens exactly if the caller breaks the order of calls |
| WaitsHistory.CrossedLocks | kern/thread/hangman.c:52-129 | two actors that take two locks in opposite orders: the second wait is reported |
| HangmanRuns.Perform | kern/thread/hangman.c:52-182 | the same for the detector's own linked records: each entry point answers as the calls before it require |
| Hangman.Detector.Check | kern/thread/hangman.c:52-94 | terminates, and finds the path exactly when there is one |
| Hangman.Detector.Wait | kern/thread/hangman.c:110-129 | its answer and the graph it leaves |
| Hangman.Detector.Acquire | kern/thread/hangman.c:132-157 | its answer, both panics included, and the graph it leaves |
| Hangman.Detector.Release | kern/thread/hangman.c:160-182 | its answer, both panics included, and the graph it leaves |

## Left out

- VmMachine.Vm.VmFault: assumes a current process with an address space (without one the code answers EFAULT), and leaves out the process exit after a write to a read-only page.
- Segments.SegLoadPage: an I/O error returned by the vnode read is no outcome; vm_fault answers it with EFAULT like a short read.
- PagingRuns.PagingIsTransparent: speaks of one address space from boot to before its destruction, of kernel evictions that hit no free frame, and of segments whose pages are apart; outside, the code does not have the property (see Findings).
- VmMachine.Vm.GetPPages: after an overlong request has been answered with a run below frame 1 the machine is not followed further; the result is reported as a halt.
- Multi-process paging, `as_copy`, `pt_destroy` and `as_destroy`: the page table pointer is shared and the swap list is reset by each `as_create`.
- `page_free`, the owner pointer in coremap entries and the frame address in swap entries: written and never read in the single address space modelled.
- Concurrency inside the VM code, which takes no lock across a fault.
- Allocation failures of page-table tables, segments and address spaces: taken from outside the paged frames.
- Kmalloc.Allocator.AllocPageref: the bitmap is kept as booleans, so the word and mask arithmetic of the inner loops is not modelled.
- Kmalloc.Allocator.NewPage: composes its critical sections without interference; their interleavings are covered by KheapRuns.StepOk.
- Kmalloc.Allocator.SubpageKfree: excludes an address that is on a free list already, which kfree's callers must not pass and the code does not test for.
- Kmalloc.Allocator.Kmalloc: composes the critical sections without interference; their interleavings are covered by KheapRuns.StepOk.
- The GUARDS, LABELS and CHECKBEEF builds, heap printing and the 0xdeadbeef fill.
- Balance.Cpus.ConsiderMigration: without interference from other CPUs; what holds under interference is SchedInvariant.MigrationSafe and SchedInvariant.NobodyLost.
- Sched, SplSwitch, Semaphore and LockCv are state machines on values, one function per critical section: the order of the writes inside one section, and updating the records in place, are not captured there.
- Sched keeps lists as sequences; that the linked lists are sequences is ThreadLists.
- Spl.Cpu.Acquire: stops after the first reading of the word; that a spin ends is not stated.
- Fairness: that an enabled step eventually happens. Stated is which steps are enabled: SchedHistory.IdleCpuRuns, SchedHistory.QueueGetsUnlocked, SplLevels.NeverStuck, SemaphoreHistory.NeverStuck, LockHistory.NeverStuck.
- Before `curcpu` exists, `thread_panic`, `thread_shutdown`, TLB shootdown and other IPIs than unidle.
- The semaphore-based variant of locks, and `sem_destroy`, `lock_destroy`, `cv_destroy`.
- Context switch assembly, memory barriers, and everything in the file system, devices, system calls and libraries.
