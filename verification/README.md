# A verified model of KazuOS

KazuOS is an SMP x86_64 kernel with user programs. This project models its memory
management, its threads and wake-ups, its RAM file system and its argument passing in
Dafny, and proves what those parts promise over every input, every run or every
reachable state. `dafny verify dfyconfig.toml` checks all of it.

Code that works in place is a class whose methods are proved against a plain value: the
page tables against a map from pages to frames, the bitmap against a set of free frames,
the linked free list against the set of bytes it covers, the object, channel, pipe and
node tables against their abstract contents. Concurrent protocols are transition systems
whose steps are single atomic operations or single sections of the thread lock; their
theorems quantify over every run.

| file | what it models |
|---|---|
| `PhysicalFrames` | the frame bitmap: cyclic and contiguous allocation |
| `PageTables`, `EntryWords`, `TableDemand`, `AddressSpaces` | four-level tables as a forest of unshared tables, down to the words; mapping, unmapping, translation, user-range checks, the table pages they need |
| `SharedMemory`, `SharedObjects` | shared-memory objects over frames and page tables |
| `FreeLists`, `HeapOwnership`, `Alignment` | the coalescing free list in memory, and who owns which word of a heap |
| `KernelHeap`, `UserHeap` | per-CPU caches and headers; arenas borrowed from the kernel |
| `SpinLock` | the reentrant lock, one atomic operation at a time |
| `Lifecycle` | spawn, join, exit and teardown, one lock section at a time |
| `BlockingSyscall` | block, commit, wake and resume of the threads of a process, with their register layouts |
| `Scheduler` | the round-robin choice |
| `Ipc` | channels with bounded queues and waiter lists |
| `Pipes` | pipes and the descriptor tables that count their ends |
| `Paths`, `Vfs`, `KfsImage`, `KfsTree`, `Bytes`, `Utf8` | the node table with generation-tagged handles, and the image format |
| `ExecArgs` | the argument vector from caller to callee |

Assumptions: memory is sequentially consistent;
a CPU runs system calls with interrupts off; table pages come zeroed, aligned and fresh;
`sys_heap_alloc` lends pages that the program does not have yet; requests obey the rules
of Rust's `Layout`, so sizes do not overflow.

Several promises turn out not to hold on all inputs; for each there is a concrete
witness and the exact condition:

- Contiguous allocation never takes a run that ends at the last frame
  (`PhysicalFrames.LastStartIsNotTried`, `PhysicalFrames.FrameAllocator.AllocFrames`).
- An entirely free user arena is kept when a neighbouring byte is free, or when the
  table of arenas was full (`UserHeap.FreeNeighboursStay`, `UserHeap.ReturnedIff`).
- A thread can sleep on a thread that is gone, when a worker reads the console
  (`Lifecycle.JoinerCanBeStranded`, `Lifecycle.SleepersIff`).
- A pipe, channel or console read puts the main thread to sleep; a worker that reads never
  runs again, and the main thread can get the answer (`BlockingSyscall.MainAnsweredForWorker`,
  `BlockingSyscall.ReaderServedIff`, `BlockingSyscall.WorkerNeverResumes`).
- A worker's read can come at the moment when the timer has saved the main thread: the CPU
  goes on with it unnoticed, and all that it computes, and any call that it makes and that
  does not return, is undone when it is resumed (`BlockingSyscall.DriftUndoesWork`,
  `BlockingSyscall.GivenBackIff`).
- A thread that was woken from a join can be put to sleep again for nothing, when a worker
  reads the console (`Lifecycle.JoinerCanBeLost`, `Lifecycle.JoinerIsLostIff`).
- Two threads that leave by `SYS_THREAD_EXIT` at once leave a process record without
  threads (`Lifecycle.OrphanCanHappen`, `Lifecycle.OrphanIff`).
- The address space of a process is lost when its main thread is not the last to leave
  (`Lifecycle.AddressSpaceCanLeak`, `Lifecycle.AddressSpaceFreedIff`).
- A wake that is not by a pipe and comes before the commit answers with a left-over
  value (`BlockingSyscall.EarlyWakeCanAnswerWrong`, `BlockingSyscall.OtherWakeDeliversIff`).
- `sys_pipe` with a full descriptor table leaves a pipe behind that nothing can close
  (`Pipes.FullTableLeaks`, `Pipes.Descriptors.SysPipe`).
- A pipe that is closed while a descriptor for it is being passed to a child leaves the
  child a descriptor for a free slot (`Pipes.StaleEntryDangles`, `Pipes.OverwriteKeepsIff`).
- A sleeping pipe reader can be answered with no bytes, as at the end of the file, while a
  writer is left, when another reader took them first (`Pipes.OvertakenReader`,
  `Pipes.WokenGetsSlice`).
- A second thread of a process that waits on a channel puts the channel table out of
  order by waiting too, or by closing the last reference (`Ipc.SecondThreadBreaks`,
  `Ipc.SecondWaitIff`, `Ipc.SecondSendIff`, `Ipc.CloseKeepsIff`).
- An empty argument cuts the argument vector off (`ExecArgs.EmptyArgumentCutsOff`,
  `ExecArgs.EncodingRoundTrip`).
- A path that is not UTF-8 is lost on the way through `sys_exec` (the same members).
- An image may have a file below a file (`KfsTree.FileCanBeParent`,
  `KfsTree.AcceptedIsTreeIff`).
- A path may end in two dots, though not hold them further up (`Paths.DotsAtTheEnd`,
  `Paths.ValidIff`).
- A file handle reaches a later file after 2^32 reuses of its slot (`Vfs.HandleCanAlias`,
  `Vfs.HandleAliasesIff`).

## Model

| member | source | states |
|---|---|---|
| `PhysicalFrames.WithBitChangesOneBit` | crates/kernel/src/memory/pmm.rs:123-141 | setting or clearing a bit of a byte changes that bit and no other |
| `PhysicalFrames.FrameAllocator.SetBit` | crates/kernel/src/memory/pmm.rs:123-133 | one frame joins or leaves the set of free frames |
| `PhysicalFrames.FrameAllocator.GetBit` | crates/kernel/src/memory/pmm.rs:135-141 | the bit says whether the frame is in use |
| `PhysicalFrames.FrameAllocator.MarkRegion` | crates/kernel/src/memory/pmm.rs:101-121 | exactly the frames that the region touches change, and the answer is how many were not in that state before |
| `PhysicalFrames.TouchedIff` | crates/kernel/src/memory/pmm.rs:101-121 | a region touches a frame exactly when they share a byte, or when it is empty and starts inside the frame |
| `PhysicalFrames.CyclicIsMod` | crates/kernel/src/memory/pmm.rs:166-190 | the wrapping scan visits the frames modulo the total |
| `PhysicalFrames.FrameAllocator.AllocFrame` | crates/kernel/src/memory/pmm.rs:166-190 | takes the first free frame in cyclic order from the hint; fails exactly when no frame is free |
| `PhysicalFrames.FrameAllocator.AllocFrames` | crates/kernel/src/memory/pmm.rs:210-237 | takes the lowest all-free run that ends before the last frame; fails exactly when there is none |
| `PhysicalFrames.LastStartIsNotTried` | crates/kernel/src/memory/pmm.rs:217 | with only the last frame free, a run of one frame is refused |
| `PhysicalFrames.FrameAllocator.FreeFrame` | crates/kernel/src/memory/pmm.rs:192-207 | exactly that frame becomes free; an address beyond the bitmap changes nothing |
| `PhysicalFrames.FrameAllocator.FreeFrames` | crates/kernel/src/memory/pmm.rs:239-247 | exactly the frames of the run that the bitmap has become free |
| `PhysicalFrames.FrameAllocator.NoDoubleHandout` | crates/kernel/src/memory/pmm.rs:166-247 | over the whole life of an allocator, a frame handed out twice was freed in between |
| `PhysicalFrames.FrameAllocator.FreeMeansGiven` | crates/kernel/src/memory/pmm.rs:166-247 | a frame that was handed out and is free has been freed since |
| `PageTables.IndicesInjective` | crates/kernel/src/memory/vmm.rs:140-143 | different pages have different index paths |
| `PageTables.WalkStaysInForest` | crates/kernel/src/memory/vmm.rs:202-222 | a walk meets tables of the right level only |
| `PageTables.WalksMeetOnlyOnSamePath` | crates/kernel/src/memory/vmm.rs:134-152 | two walks reach one table only along the same path of the same address space |
| `PageTables.LeafWriteChangesOnePath` | crates/kernel/src/memory/vmm.rs:148-150 | writing a leaf entry changes the meaning of one path of one address space |
| `PageTables.LinkKeepsForest` | crates/kernel/src/memory/vmm.rs:259-274 | linking a zeroed table keeps the tables an unshared forest |
| `PageTables.LinkChangesNoMapping` | crates/kernel/src/memory/vmm.rs:259-274 | linking a zeroed table changes no mapping and no permission |
| `PageTables.OpenIff` | crates/kernel/src/memory/vmm.rs:224-246 | a walk keeps all permissions exactly when every table entry on the way grants user and write access and forbids no execution |
| `PageTables.ReplacedRoot` | crates/kernel/src/memory/vmm.rs:112-132 | a new or cleared PML4 affects its own address space alone |
| `EntryWords.LeafDecodes` | crates/kernel/src/memory/vmm.rs:148-149 | the 64-bit word that is written for a page decodes to the entry of the model, flags and address |
| `EntryWords.TableDecodes` | crates/kernel/src/memory/vmm.rs:269-272 | so does the word that links a table |
| `EntryWords.TestsDecode` | crates/kernel/src/memory/vmm.rs:236-238 | the masked tests for PRESENT and for USER and WRITABLE answer what the decoded entry says |
| `EntryWords.WriteDecodes` | crates/kernel/src/memory/vmm.rs:148-271 | writing a leaf, a link or zero to a table of words is the write of that entry to the decoded table |
| `EntryWords.IndexIs` | crates/kernel/src/memory/vmm.rs:140-143 | shifting and masking an address gives the index of its page at each level |
| `EntryWords.UserAccessible` | crates/kernel/src/memory/vmm.rs:228-246 | the loop over words answers exactly what the walk over decoded entries grants |
| `TableDemand.OneLink` | crates/kernel/src/memory/vmm.rs:259-274 | linking a table gives one table to the walks of one path prefix of one address space, and no other |
| `TableDemand.BuiltMore` | crates/kernel/src/memory/vmm.rs:154-171 | after a run of pages there are the tables from before and those above these pages |
| `TableDemand.MissingIsNew` | crates/kernel/src/memory/vmm.rs:154-171 | a page of a run lacks exactly the tables that neither were there nor came with the page before it |
| `AddressSpaces.LeafWriteRefines` | crates/kernel/src/memory/vmm.rs:134-189 | a leaf write is one update of the plain map |
| `AddressSpaces.Paging.constructor` | crates/kernel/src/memory/vmm.rs:45-76 | a kernel PML4 without user entries stands for the empty map |
| `AddressSpaces.Paging.NextTable` | crates/kernel/src/memory/vmm.rs:259-274 | gives the table below, made if missing, without changing what is mapped; fails exactly when it is missing and no table page is left; a new entry is writable, for user programs as asked, and has no other flag |
| `AddressSpaces.Paging.MapPage` | crates/kernel/src/memory/vmm.rs:134-152 | success updates the map at exactly that page, with permissions cut down by the tables above; failure changes no mapping; it runs out of memory exactly when fewer table pages are left than the walk lacks; the entry at which the walk of the page ends is present and has the address and the five flags asked for |
| `AddressSpaces.StaysOpen` | crates/kernel/src/memory/vmm.rs:134-152 | mapping a page for user programs closes no other page |
| `AddressSpaces.MappedInOpen` | crates/kernel/src/memory/vmm.rs:134-152 | where nothing above takes a permission away, a page is just what was asked for |
| `AddressSpaces.Paging.MapRange` | crates/kernel/src/memory/vmm.rs:154-171 | maps the pages in order; a failure leaves exactly the pages before it mapped; an address is invalid exactly when misaligned, and memory runs out exactly when fewer table pages are left than the run needs |
| `AddressSpaces.WithRunAt` | crates/kernel/src/memory/vmm.rs:154-171 | the mapped run replaces its own pages with consecutive frames and nothing else |
| `AddressSpaces.Paging.UnmapPage` | crates/kernel/src/memory/vmm.rs:173-189 | removes exactly that page from the map |
| `AddressSpaces.Paging.UnmapRange` | crates/kernel/src/memory/vmm.rs:191-199 | removes exactly the pages of the range |
| `AddressSpaces.Paging.Translate` | crates/kernel/src/memory/vmm.rs:202-222 | gives the frame that the map has for the page, or none |
| `AddressSpaces.Paging.UserAccessible` | crates/kernel/src/memory/vmm.rs:228-246 | true exactly when the map grants user access, and write access if asked |
| `AddressSpaces.Paging.TableIfPresent` | crates/kernel/src/memory/vmm.rs:248-257 | the next table of the walk, or null exactly when there is none |
| `AddressSpaces.Paging.CreateAddressSpace` | crates/kernel/src/memory/vmm.rs:112-132 | a new root with the kernel's entries and no user page, open everywhere |
| `AddressSpaces.Paging.FreeUserAddressSpace` | crates/kernel/src/memory/vmm.rs:297-310 | removes every user page of that address space and of no other; the kernel root and a null root stay as they are |
| `AddressSpaces.Paging.ValidateRange` | crates/kernel/src/memory/uaccess.rs:18-43 | an empty range passes; any other exactly when it is within the limits and every byte of it is accessible |
| `SharedMemory.RangesDisjoint` | crates/kernel/src/memory/shm.rs:117-169 | the ranges of one process never overlap |
| `SharedMemory.OverlapIff` | crates/kernel/src/memory/shm.rs:170-205 | two ranges overlap exactly when they share a byte |
| `SharedMemory.UnmappedMeansUnreachable` | crates/kernel/src/memory/shm.rs:239-301 | an object that nobody maps has no frame in any address space |
| `SharedMemory.CreateKeepsInv` | crates/kernel/src/memory/shm.rs:51-92 | a new object over loose frames keeps the invariant |
| `SharedMemory.GrantKeepsInv` | crates/kernel/src/memory/shm.rs:94-115 | another holder keeps the invariant |
| `SharedMemory.MapKeepsInv` | crates/kernel/src/memory/shm.rs:117-169 | a mapping that extends the map in order keeps the invariant |
| `SharedMemory.UnmapKeepsInv` | crates/kernel/src/memory/shm.rs:227-237 | dropping the range of a mapping keeps the invariant |
| `SharedMemory.DropHolderKeepsInv` | crates/kernel/src/memory/shm.rs:239-275 | dropping one of several holders keeps the invariant |
| `SharedMemory.RemoveKeepsInv` | crates/kernel/src/memory/shm.rs:239-275 | a removed object leaves its frames allocated, unowned and unmapped |
| `SharedMemory.FreeKeepsInv` | crates/kernel/src/memory/shm.rs:268-272 | such frames can be freed one after another |
| `SharedMemory.TakeKeepsInv` | crates/kernel/src/memory/shm.rs:67-80 | a frame fresh from the allocator is in no object and no address space |
| `SharedMemory.ForeignMapKeepsInv` | crates/kernel/src/memory/vmm.rs:134-152 | other parts of the kernel may map other frames at other pages |
| `SharedObjects.JumpSkipsNothing` | crates/kernel/src/memory/shm.rs:178-194 | the jump to the largest overlapping end skips no usable address |
| `SharedObjects.BumpSkipsNothing` | crates/kernel/src/memory/shm.rs:195-201 | neither does the step to the next page |
| `SharedObjects.SharedTable.FindFreeRange` | crates/kernel/src/memory/shm.rs:171-206 | the lowest usable page-aligned address of the window; none exactly when there is none |
| `SharedObjects.SharedTable.Create` | crates/kernel/src/memory/shm.rs:51-92 | a fresh id over frames that leave the free set; fails exactly on a bad size, exhausted ids or too few frames, and then takes nothing |
| `SharedObjects.SharedTable.Grant` | crates/kernel/src/memory/shm.rs:94-115 | succeeds exactly when the caller owns and holds the object and the target is a live process, which becomes a holder |
| `SharedObjects.SharedTable.Map` | crates/kernel/src/memory/shm.rs:117-169 | maps the frames in order at the lowest usable address, gives an existing address back, and rolls back on failure; a holder fails exactly without a usable address or with too few table pages for the lowest; every page is its frame, not executable, cached, and for user programs and writable as far as the tables there allow; if they allow all, a user program may write to every byte |
| `SharedObjects.MapFrames` | crates/kernel/src/memory/shm.rs:138-156 | all frames are mapped in order where nothing was, or nothing changes and that exactly for lack of table pages; each page has the flags asked for as far as the tables allow |
| `SharedObjects.SharedTable.UnmapHolder` | crates/kernel/src/memory/shm.rs:227-237 | takes one process's mapping and exactly its pages away |
| `SharedObjects.SharedTable.Unmap` | crates/kernel/src/memory/shm.rs:208-225 | succeeds exactly for a single-threaded process that maps the object |
| `SharedObjects.SharedTable.Close` | crates/kernel/src/memory/shm.rs:239-275 | drops mapping and reference; the last reference frees the frames, which were in use and which nothing maps |
| `SharedObjects.SharedTable.CleanupPid` | crates/kernel/src/memory/shm.rs:277-301 | the process is gone from every object, its shared pages from its space, and exactly the frames that only it held are free |
| `SharedObjects.Finished` | crates/kernel/src/memory/shm.rs:277-301 | once every row is done the clean-up has reached that result |
| `SharedObjects.SharedTable.TakeFrames` | crates/kernel/src/memory/shm.rs:67-80 | takes that many distinct free frames; fails exactly when there are fewer, and then takes none |
| `SharedObjects.SharedTable.GiveBack` | crates/kernel/src/memory/shm.rs:268-272 | exactly these frames become free |
| `SharedObjects.SwapRemove` | crates/kernel/src/memory/shm.rs:230 | the last element takes the place of the removed one |
| `FreeLists.CanonicalIsUnique` | crates/kernel/src/memory/allocator.rs:76-101 | a sorted, coalesced list is determined by the bytes it covers |
| `FreeLists.SpliceLinks` | crates/kernel/src/memory/allocator.rs:82-91 | linking a node between its neighbours keeps the list in memory |
| `FreeLists.MergeLinks` | crates/kernel/src/memory/allocator.rs:92-99 | joining two nodes keeps the list in memory |
| `FreeLists.RemoveLinks` | crates/kernel/src/memory/allocator.rs:111-116 | unlinking a node keeps the list in memory |
| `FreeLists.InsertedCoalesced` | crates/kernel/src/memory/allocator.rs:76-101 | after an insertion no two blocks touch |
| `FreeLists.BlockIffIsolated` | userspace/runtime/runtime.rs:165-177 | a region is one block exactly when it is free and both its neighbours are not |
| `FreeLists.FreeList.Insert` | crates/kernel/src/memory/allocator.rs:76-101 | the list stays sorted, disjoint and coalesced, covers exactly the inserted bytes more, and writes only into free blocks; a block too small for a node is ignored |
| `FreeLists.FreeList.Take` | crates/kernel/src/memory/allocator.rs:104-134 | carves the first fit, all of it when the rest could not hold a node; fails exactly when nothing fits |
| `FreeLists.FreeList.FindExact` | userspace/runtime/runtime.rs:167-177 | finds the block with exactly this address and size |
| `FreeLists.FreeList.Unlink` | userspace/runtime/runtime.rs:171-172 | the block leaves the list and no other byte does |
| `Alignment.AlignUp` | crates/kernel/src/memory/allocator.rs:36-38 | the smallest multiple that is not below |
| `HeapOwnership.AcquireKeeps` | crates/kernel/src/memory/allocator.rs:104-134 | a block taken from the list keeps the partition of the words exact |
| `HeapOwnership.ReleaseKeeps` | crates/kernel/src/memory/allocator.rs:136-140 | a block given to the list keeps the partition exact |
| `HeapOwnership.TransferKeeps` | crates/kernel/src/memory/allocator.rs:201-247 | a block that changes hands keeps the partition exact |
| `HeapOwnership.TenantsDisjoint` | crates/kernel/src/memory/allocator.rs:190-255 | two blocks in use never share a byte |
| `HeapOwnership.WriteLeavesOthers` | crates/kernel/src/memory/allocator.rs:260-268 | writes into one block do not disturb another |
| `HeapOwnership.ListLeavesTenants` | crates/kernel/src/memory/allocator.rs:76-140 | work on the list does not disturb blocks in use |
| `HeapOwnership.PointerFits` | crates/kernel/src/memory/allocator.rs:190-268 | the aligned pointer, its header and its payload lie inside the block |
| `HeapOwnership.FreshPointer` | crates/kernel/src/memory/allocator.rs:260-268 | a pointer handed out is not in use already |
| `HeapOwnership.Ground.Carve` | crates/kernel/src/memory/allocator.rs:211-224 | a fresh, aligned pointer with a header that names its block, which is taken off the first fit; fails exactly when nothing fits |
| `HeapOwnership.Ground.Release` | crates/kernel/src/memory/allocator.rs:136-140 | the block goes back to the list and to nobody else |
| `KernelHeap.ClassFor` | crates/kernel/src/memory/allocator.rs:42-44 | the smallest class that is large enough |
| `KernelHeap.ExactClass` | crates/kernel/src/memory/allocator.rs:48-50 | the class of exactly this size |
| `KernelHeap.CpusDiffer` | crates/kernel/src/memory/allocator.rs:182-188 | every CPU has a cache of its own |
| `KernelHeap.ClassesDouble` | crates/kernel/src/memory/allocator.rs:30-50 | the classes are the powers of two from 64 to 2048 |
| `KernelHeap.CachedToLive` | crates/kernel/src/memory/allocator.rs:201-210 | popping a cache keeps every stack, count and header |
| `KernelHeap.LiveToCached` | crates/kernel/src/memory/allocator.rs:238-247 | pushing to a cache keeps every stack, count and header |
| `KernelHeap.Heap.constructor` | crates/kernel/src/memory/allocator.rs:173-179 | all words of the heap are free, or none if it could not hold a node |
| `KernelHeap.Heap.Alloc` | crates/kernel/src/memory/allocator.rs:190-228 | an aligned pointer into the top block of the CPU's cache, or else into the first fit of the list; no word is lost, no other block disturbed; fails exactly when cache and list have nothing |
| `KernelHeap.Heap.Dealloc` | crates/kernel/src/memory/allocator.rs:230-255 | finds that very block through the header and gives it to the cache with room, or else to the list |
| `KernelHeap.FreedIsReused` | crates/kernel/src/memory/allocator.rs:190-255 | a block that goes into a cache is the first to come out: the next request of its class on that CPU gets that very block |
| `KernelHeap.Heap.Store` | crates/kernel/src/memory/allocator.rs:190-228 | whatever is written behind a pointer keeps the heap valid |
| `UserHeap.LendKeeps` | userspace/runtime/runtime.rs:138-154 | a new arena joins the heap without overlap |
| `UserHeap.ReturnKeeps` | userspace/runtime/runtime.rs:158-180 | a returned arena takes exactly its words along |
| `UserHeap.Heap.Grow` | userspace/runtime/runtime.rs:138-154 | the arena is noted in the first empty slot, if there is one, and all of it becomes free; refused exactly when the kernel answers 0 or all ones |
| `UserHeap.Heap.Take` | userspace/runtime/runtime.rs:184-213 | first fit with header; fails exactly when nothing fits |
| `UserHeap.Heap.Alloc` | userspace/runtime/runtime.rs:220-237 | first fit, after a new arena has joined the list if nothing fitted before; fails exactly when nothing fits and the kernel refuses; free and live blocks stay an exact partition of the arenas |
| `UserHeap.Heap.ReleaseEmptyArenas` | userspace/runtime/runtime.rs:158-180 | exactly the arenas that are one free block go back; live blocks stay |
| `UserHeap.Heap.Dealloc` | userspace/runtime/runtime.rs:239-248 | the block joins the free list, and then exactly the noted arenas that are one free block go back |
| `UserHeap.SweptMeansFree` | userspace/runtime/runtime.rs:158-180 | what went back was free to the last byte |
| `UserHeap.ReturnedIff` | userspace/runtime/runtime.rs:156-180 | an arena goes back exactly when it is noted and free and neither neighbouring byte is |
| `UserHeap.FreeNeighboursStay` | userspace/runtime/runtime.rs:156-180 | two arenas side by side are lent for two allocations and both are freed: all bytes are free, and both arenas are still on loan |
| `SpinLock.StepKeepsInv` | crates/kernel/src/util.rs:97-119 | every atomic operation of every CPU keeps the invariant |
| `SpinLock.ReachableInv` | crates/kernel/src/util.rs:97-139 | the invariant holds after any run |
| `SpinLock.Safety` | crates/kernel/src/util.rs:97-139 | mutual exclusion, depth equals nesting, the fast path is the holder's, also in the two windows of the owner field |
| `SpinLock.QuietMeansFree` | crates/kernel/src/util.rs:114-119 | when every guard is gone the lock is as it was at first |
| `SpinLock.FreeLockIsTaken` | crates/kernel/src/util.rs:97-119 | from any reachable state, a CPU that wants a free lock has it after four operations |
| `SpinLock.HolderTakesAgain` | crates/kernel/src/util.rs:97-119 | the CPU that has the lock takes it again in three operations |
| `SpinLock.UnlockGivesBack` | crates/kernel/src/util.rs:97-119 | an unlock gives one guard back, and the last one frees the lock |
| `SpinLock.OthersSpin` | crates/kernel/src/util.rs:97-119 | while another CPU has the lock, a CPU that wants it changes nothing |
| `SpinLock.StepRefinesMutex` | crates/kernel/src/util.rs:97-119 | each operation is a step of a plain reentrant mutex, or no step |
| `SpinLock.RunsRefineMutex` | crates/kernel/src/util.rs:97-119 | every run of the lock is a run of that mutex |
| `Lifecycle.AllAreLive` | crates/kernel/src/task/process.rs:356-374 | the live count is the size of the process's thread list |
| `Lifecycle.CurrentThread` | crates/kernel/src/task/scheduler.rs:84-91 | a current thread is live, in its process, and current on one CPU only |
| `Lifecycle.PreemptedRunsAgain` | crates/kernel/src/handlers/interrupts.rs:165-244 | a preempted thread that is taken up again: all is as before |
| `Lifecycle.BlockedRunsAgain` | crates/kernel/src/task/process.rs:327-334 | a thread that blocks, is woken and taken up again: all is as before, but that it waits for nothing |
| `Lifecycle.KillMarks` | crates/kernel/src/task/process.rs:745-766 | a kill marks the process, makes its main thread ready and changes no other thread |
| `Lifecycle.MarkStays` | crates/kernel/src/task/process.rs:628-648 | the mark of a kill stays for as long as the process does |
| `Lifecycle.LeftKeepsInv` | crates/kernel/src/task/process.rs:305-323 | a thread that leaves keeps the invariant |
| `Lifecycle.JoinersWake` | crates/kernel/src/task/thread.rs:729-742 | when a thread leaves, whoever sleeps on it is ready and waits for nothing, and every other thread is as it was |
| `Lifecycle.LeftProcess` | crates/kernel/src/task/process.rs:305-460 | the thread leaves the record of its process, which is marked if the process exits and goes with the last thread |
| `Lifecycle.ExitChecksOnly` | crates/kernel/src/task/process.rs:400-420 | no other step of an exit changes a thread or a process |
| `Lifecycle.LostStepIff` | crates/kernel/src/syscall/runtime.rs:924-927 | a thread is asleep without a target after a step exactly when that is the second section of a console read after a wake |
| `Lifecycle.JoinerIsLostIff` | crates/kernel/src/task/process.rs:338-353 | over any run, a thread that has joined never sleeps on without a target exactly while no console read puts it to sleep after a wake |
| `Lifecycle.JoinerCanBeLost` | crates/kernel/src/syscall/runtime.rs:924-927 | a run with a worker in a console read that leaves a joiner asleep without a target |
| `Lifecycle.TeardownIsSafe` | crates/kernel/src/task/process.rs:400-460 | at teardown the thread is the last one, the process was never torn down, and no other CPU is in it |
| `Lifecycle.TeardownStep` | crates/kernel/src/task/process.rs:421-472 | teardown keeps the invariant |
| `Lifecycle.StepKeepsInv` | crates/kernel/src/task/process.rs:282-472 | every lock section of every CPU keeps the invariant |
| `Lifecycle.ReachableInv` | crates/kernel/src/task/process.rs:282-472 | the invariant holds after any run |
| `Lifecycle.SleepBreaksIff` | crates/kernel/src/syscall/runtime.rs:924-927 | the one section that can put a thread to sleep on one that is gone is the second of a console read, and it does exactly on a stale target |
| `Lifecycle.SleepersIff` | crates/kernel/src/syscall/runtime.rs:924-927 | a run never has a thread asleep on one that is gone exactly when no console read goes to sleep on a stale target |
| `Lifecycle.MainReadersSleepWell` | crates/kernel/src/syscall/runtime.rs:924-927 | so no run in which only main threads read the console has one |
| `Lifecycle.JoinerCanBeStranded` | crates/kernel/src/task/process.rs:745-766 | a run with a worker in a console read, a join, a kill and an exit that leaves the main thread asleep on a thread that is gone |
| `Lifecycle.Safety` | crates/kernel/src/task/process.rs:305-472 | after any run: no process was torn down twice, no two CPUs share a current thread, a teardown is alone in its process; and no thread sleeps on one that is gone unless a console read slept on a stale target |
| `Lifecycle.ForgottenThreadStays` | crates/kernel/src/handlers/interrupts.rs:184-195 | after any run, a thread that is current on no CPU keeps its process and its address space under every step |
| `Lifecycle.AddressSpaceFreedIff` | crates/kernel/src/task/process.rs:441-445 | teardown frees the address space exactly when the main thread is the last |
| `Lifecycle.AddressSpaceCanLeak` | crates/kernel/src/task/process.rs:441-445 | a run that tears a process down without freeing its address space |
| `Lifecycle.OrphanIff` | crates/kernel/src/syscall/process.rs:18-28 | after any run, a process record has no threads exactly when its last thread left by SYS_THREAD_EXIT |
| `Lifecycle.OrphanStepIff` | crates/kernel/src/syscall/process.rs:18-28 | a step leaves a process without threads exactly when it is exit_current_thread by the last one after SYS_THREAD_EXIT |
| `Lifecycle.CountWasAboveOne` | crates/kernel/src/syscall/process.rs:18-28 | the live count that sent the thread that way was above one, so it had gone stale when the last thread left |
| `Lifecycle.OrphanStays` | crates/kernel/src/syscall/process.rs:18-28 | no step tears such a record down or gives it a thread |
| `Lifecycle.OrphanCanHappen` | crates/kernel/src/syscall/process.rs:18-28 | a run that leaves such a record |
| `BlockingSyscall.SyscallFrameFits` | crates/kernel/src/syscall.rs:50-66 | popping the frame, or building a context from it, gives the pushed registers back with the new rax |
| `BlockingSyscall.TimerFrameFits` | crates/kernel/src/task/scheduler.rs:139-163 | the timer saves the registers it interrupted |
| `BlockingSyscall.ContextFits` | crates/kernel/src/task/scheduler.rs:171-278 | the three frames built from a context restore the same registers |
| `BlockingSyscall.ResumeRestores` | crates/kernel/src/task/scheduler.rs:318-435 | the three ways of resuming agree: after a blocking call every register is as it was, with the answer in rax; otherwise all registers are those of the last preemption |
| `BlockingSyscall.StepKeepsInv` | crates/kernel/src/task/thread.rs:380-674 | every step of every thread of the process keeps the invariant, user code and the steps of a thread that its CPU has forgotten included |
| `BlockingSyscall.RegistersSurvive` | crates/kernel/src/task/thread.rs:380-674 | over any run, every resume of a thread that its CPU had not forgotten gives all its registers back, but for rax after a blocking call; a forgotten one gets those of its last preemption |
| `BlockingSyscall.SavedAtLastPreempt` | crates/kernel/src/handlers/interrupts.rs:165-178 | those are the registers that the thread had at its last preemption in the run |
| `BlockingSyscall.GivenBackIff` | crates/kernel/src/handlers/interrupts.rs:165-252 | over any run, a resume gives the registers back exactly when the CPU had not forgotten the thread or they are still those of its last preemption |
| `BlockingSyscall.SurviveIfOnlyMainWaits` | crates/kernel/src/task/thread.rs:380-674 | in a run where only the main thread waits on pipes, channels and the console, every resume of every thread gives its registers back |
| `BlockingSyscall.PipeReaderResumes` | crates/kernel/src/task/thread.rs:776-818 | a blocked thread that no other one put to sleep again is resumed only after it was woken, and after a pipe wake with rax equal to the bytes copied, whichever of wake and commit came first |
| `BlockingSyscall.PipeWakeDeliversIff` | crates/kernel/src/task/thread.rs:776-818 | the bytes of a pipe wake are the answer exactly when the thread could still take them or had that answer already |
| `BlockingSyscall.WorkerNeverResumes` | crates/kernel/src/syscall/runtime.rs:947-955 | a thread other than the main one that blocks on a pipe, a channel or the console never runs again, whatever follows |
| `BlockingSyscall.ReaderServedIff` | crates/kernel/src/syscall/runtime.rs:938-957 | from any reachable state, a reader that blocks and is served, before or after the commit, can be resumed with the count exactly when it is the main thread |
| `BlockingSyscall.MainAnsweredForWorker` | crates/kernel/src/task/process.rs:811-825 | a run in which the main thread, asleep in a call of its own, is answered with the bytes of another thread's read |
| `BlockingSyscall.SlipsOnlyIfForeign` | crates/kernel/src/handlers/interrupts.rs:184-195 | a preempted thread goes on without being current only if it is the main thread and another one put it to sleep |
| `BlockingSyscall.DriftUndoesWork` | crates/kernel/src/handlers/interrupts.rs:184-252 | for any registers a run in which the main thread, saved by the timer and then put to sleep by a worker, computes them, and may make a call that blocks, and is resumed with what the timer had saved |
| `BlockingSyscall.OtherWakeDeliversIff` | crates/kernel/src/task/thread.rs:627-659 | a wake that is not by a pipe delivers its value exactly when it came after the commit or that was the answer already |
| `BlockingSyscall.WakeHandsOver` | crates/kernel/src/task/thread.rs:627-757 | from any reachable state in which a thread sleeps off its CPU, a wake with v, a pick and a resume leave the registers of the call with rax equal to v if the frame is committed, and to the answer it had if not |
| `BlockingSyscall.EarlyWakeHandsOver` | crates/kernel/src/task/thread.rs:627-674 | a wake before the commit: the bytes of a pipe are the answer, any other value is lost to what the last one had left |
| `BlockingSyscall.InterruptedResumes` | crates/kernel/src/task/process.rs:594-602 | a signal or a kill ends the sleep, and the thread runs again with the answer that it had |
| `BlockingSyscall.CallReturns` | crates/kernel/src/syscall.rs:50-103 | a call that does not block leaves all registers as they were, and rax is its answer |
| `BlockingSyscall.CountStays` | crates/kernel/src/task/thread.rs:809-812 | a run in which a pipe wake after the commit leaves its count behind |
| `BlockingSyscall.EarlyWakeCanAnswerWrong` | crates/kernel/src/task/thread.rs:627-674 | a run in which an early wake with 0 answers 5, left over from a pipe |
| `Scheduler.ScheduleNext` | crates/kernel/src/task/scheduler.rs:115-137 | the lowest ready thread above the current one, or the lowest of all; in terms of the table: one that is ready and pinned to this CPU, or 0 exactly when there is none |
| `Scheduler.TurnComesNearer` | crates/kernel/src/task/scheduler.rs:115-137 | a decision that does not take a ready thread brings its turn nearer |
| `Scheduler.BoundedWaiting` | crates/kernel/src/handlers/interrupts.rs:165-180 | on a CPU with N threads, one that stays ready is taken within N timer decisions |
| `Ipc.PushOk` | crates/kernel/src/ipc.rs:108-128 | a send by anybody keeps the no-lost-wakeup bounds and the message order |
| `Ipc.PopOk` | crates/kernel/src/ipc.rs:187-215 | a receive keeps them |
| `Ipc.ReplaceOk` | crates/kernel/src/ipc.rs:144-170 | a send that drops the oldest message keeps them |
| `Ipc.AwaitMessageOk` | crates/kernel/src/ipc.rs:193-201 | registering a receiver, with a reference or without, keeps them |
| `Ipc.AwaitRoomOk` | crates/kernel/src/ipc.rs:130-142 | registering a sender, with a reference or without, keeps them |
| `Ipc.AbortOk` | crates/kernel/src/ipc.rs:241-250 | aborting all senders keeps them |
| `Ipc.CloseOk` | crates/kernel/src/ipc.rs:261-280 | a holder gives up a reference and keeps them, whoever waits, while the channel stays |
| `Ipc.QuietReceiver` | crates/kernel/src/ipc.rs:187-215 | a receiver sleeps with nobody on the way only on an empty queue |
| `Ipc.QuietSender` | crates/kernel/src/ipc.rs:130-142 | a sender sleeps with nobody on the way only on a full queue |
| `Ipc.CloseKeepsIff` | crates/kernel/src/ipc.rs:261-280 | a close by anybody leaves the table in order exactly when the slot goes with nobody waiting, or stays and the reference was the caller's |
| `Ipc.HolderMayClose` | crates/kernel/src/ipc.rs:261-280 | for a holder: exactly unless that frees a slot that somebody waits on |
| `Ipc.SecondWaitIff` | crates/kernel/src/ipc.rs:193-201 | a receiver that blocks leaves it in order exactly when its process is not asleep on a channel already |
| `Ipc.SecondSendIff` | crates/kernel/src/ipc.rs:130-142 | the same for a sender that is not in the list yet |
| `Ipc.SecondThreadBreaks` | crates/kernel/src/ipc.rs:193-201 | a process with two threads: the second waits as well and stands in the list twice, or closes the last reference and leaves the first asleep on a free slot |
| `Ipc.AudioSenderWaits` | crates/kernel/src/drivers/audio.rs:18-86 | a program without a reference sleeps on the full audio queue and is woken by the driver or by its end, with the table in order throughout |
| `Ipc.Channels.Open` | crates/kernel/src/ipc.rs:56-96 | one more reference to the channel of that name, or a new empty one in the first free slot where none has it; fails exactly on a bad name or a full table |
| `Ipc.Channels.Make` | crates/kernel/src/ipc.rs:73-94 | a new empty channel in the first free slot or at the end; fails exactly when the table is full |
| `Ipc.Channels.TrySendReliable` | crates/kernel/src/ipc.rs:108-128 | enqueues last and wakes the first receiver, or refuses exactly when full |
| `Ipc.Channels.WaitSendSpace` | crates/kernel/src/ipc.rs:130-142 | answers that the caller must wait exactly when full, and then a user process is registered and asleep; the table stays in order exactly when the process was there already or is not asleep |
| `Ipc.Channels.TrySend` | crates/kernel/src/ipc.rs:144-170 | enqueues last, in place of the oldest when full |
| `Ipc.Channels.TryRecv` | crates/kernel/src/ipc.rs:187-215 | gives the oldest message cut to the buffer and wakes the first sender, or registers and sleeps in the same section; the table stays in order exactly when a process that has to wait is not asleep on a channel |
| `Ipc.Channels.TryRecvNonblock` | crates/kernel/src/ipc.rs:220-239 | gives the oldest message cut to the buffer and wakes the first sender; empty exactly when the queue is |
| `Ipc.Channels.AbortSenders` | crates/kernel/src/ipc.rs:241-250 | empties the queue and wakes every sender |
| `Ipc.Channels.Close` | crates/kernel/src/ipc.rs:261-280 | takes the slot to what a reference less leaves of it, and frees it with the last one and an empty queue; the table stays in order exactly when `CloseKeepsIff` says so |
| `Pipes.InstallKeepsCounts` | crates/kernel/src/fs/fd.rs:156-162 | a new entry and its clone keep counts equal to entries |
| `Pipes.RemoveKeepsCounts` | crates/kernel/src/fs/fd.rs:164-174 | a closed entry does too, and the slot goes exactly with the last one |
| `Pipes.OverwriteKeepsIff` | crates/kernel/src/fs/fd.rs:62-81 | an entry written over another keeps the counts right exactly when that one is no end of a pipe and the pipe of the new one is there |
| `Pipes.NamedIsLive` | crates/kernel/src/fs/fd.rs:109-115 | whatever a descriptor names is a live pipe |
| `Pipes.ServeConserves` | crates/kernel/src/task/thread.rs:776-818 | what woken readers got, in order, and what is left are what was buffered |
| `Pipes.AllServed` | crates/kernel/src/task/thread.rs:776-818 | every sleeping reader of the pipe with a writable buffer is woken with no more than it asked for, and nobody else |
| `Pipes.WokenGetsSlice` | crates/kernel/src/task/thread.rs:776-818 | a woken reader gets exactly the bytes after what was asked before it, and none exactly when that was all there is |
| `Pipes.SettledOk` | crates/kernel/src/task/thread.rs:776-818 | after a notification whoever still sleeps on the pipe had a buffer that was not writable, and nobody there is due any more |
| `Pipes.PendingOk` | crates/kernel/src/syscall/runtime.rs:1017-1018 | between a write and its notification the sleepers of the pipe are due and all others sleep rightly |
| `Pipes.DropKeepsSleepers` | crates/kernel/src/fs/fd.rs:164-174 | a closed entry leaves every sleeper on an empty pipe with a writer, except those of a pipe that lost a writer |
| `Pipes.CloseWakesIff` | crates/kernel/src/fs/fd.rs:144-174 | closing entries wakes a sleeping thread exactly when its buffer is writable and an end for writing to its pipe is among them |
| `Pipes.Descriptors.CreatePipe` | crates/kernel/src/fs/pipe.rs:25-38 | an unused slot becomes an empty pipe without references; the others stay |
| `Pipes.Descriptors.AllocFd` | crates/kernel/src/fs/fd.rs:83-107 | the lowest free descriptor, counted; none exactly when all are taken |
| `Pipes.Descriptors.AllocFdAt` | crates/kernel/src/fs/fd.rs:62-81 | that descriptor, counted, and no other changed; the counts stay right exactly when no end of a pipe is overwritten and the pipe of the entry is there |
| `Pipes.Descriptors.FreeFd` | crates/kernel/src/fs/fd.rs:130-142 | clears the entry; a pipe is freed exactly when nothing names it any more; no byte of a pipe that stays is lost and other histories stay; when a writer goes sleeping readers are served, and nobody sleeps who could be, but for those a writer has yet to notify |
| `Pipes.Descriptors.CloseAll` | crates/kernel/src/fs/fd.rs:144-154 | clears the table; a pipe that it named stays exactly while something else names it, every other pipe stays as it is, no byte of a pipe that stays is lost; pipes and readers are those of the entries closed in order; the same of all sleepers holds |
| `Pipes.Descriptors.Notify` | crates/kernel/src/task/thread.rs:776-818 | serves the sleeping readers in order, conserves the stream, and leaves nobody asleep on the pipe who could be served; writers of other pipes may be between write and notification |
| `Pipes.Descriptors.Write` | crates/kernel/src/fs/pipe.rs:56-65 | appends everything, or nothing when no reader is left; the sleepers of the pipe are due from then on |
| `Pipes.Descriptors.Read` | crates/kernel/src/syscall/runtime.rs:938-957 | takes the first bytes, or sleeps exactly when the pipe is empty with a writer left; in any state between the sections of other calls |
| `Pipes.Descriptors.SysWrite` | crates/kernel/src/syscall/runtime.rs:1014-1020 | the two sections in a row: accepted bytes go to sleeping readers in order and then to the buffer |
| `Pipes.Descriptors.SysRead` | crates/kernel/src/syscall/runtime.rs:931-958 | lookup and section in a row: the first bytes; none exactly when empty without a writer; sleep exactly when empty with one |
| `Pipes.OvertakenReader` | crates/kernel/src/syscall/runtime.rs:1014-1020 | a run of write, read by another thread and notification that is in order throughout and answers the first reader with no bytes while a writer is left |
| `Pipes.Descriptors.SysPipe` | crates/kernel/src/syscall/runtime.rs:703-733 | both ends at the two lowest free descriptors, exactly when there are two and the answer can be written; otherwise no descriptor changes, and the new pipe stays behind exactly when the table was full; no other pipe, history or process is touched, and no reader except one left asleep on an earlier pipe of the slot |
| `Pipes.FullTableLeaks` | crates/kernel/src/syscall/runtime.rs:703-733 | a process with all descriptors taken leaves a pipe that nothing names |
| `Pipes.Descriptors.Exec` | crates/kernel/src/syscall/runtime.rs:662-691 | descriptors 0 and 1 of the child are those of the caller that were named, or the console; 2 is the console and 3 a terminal if asked; every end of a pipe counts the child's descriptors for it more, and no byte moves |
| `Pipes.StaleEntryDangles` | crates/kernel/src/task/exec.rs:69-82 | a descriptor looked up, its pipe closed, and then installed in a child: the child has an entry for a pipe that is gone |
| `Paths.ParentValid` | crates/kernel/src/fs/vfs.rs:372-389 | the parent of a valid path is valid and shorter |
| `Paths.ValidIff` | crates/kernel/src/fs/vfs.rs:379-389 | a path is accepted exactly when its last component has a name and what is before that is the root, or accepted and does not end in one or two dots |
| `Paths.DotsAtTheEnd` | crates/kernel/src/fs/vfs.rs:379-389 | `/a/..` is accepted and `/../a` is not |
| `Paths.ChildIffParent` | crates/kernel/src/fs/vfs.rs:372-401 | `is_child` holds exactly when `parent_of` gives the parent |
| `Vfs.AddKeepsTree` | crates/kernel/src/fs/vfs.rs:306-333 | a new path under a directory keeps the tree |
| `Vfs.RemoveKeepsTree` | crates/kernel/src/fs/vfs.rs:335-364 | removing what has no child keeps the tree |
| `Vfs.HandleIsExact` | crates/kernel/src/fs/vfs.rs:245-255 | a handle reaches the file it was issued for or nothing, short of 2^32 reuses |
| `Vfs.HandleAliasesIff` | crates/kernel/src/fs/vfs.rs:245-255 | it reaches the current use exactly when the uses differ by a multiple of 2^32 |
| `Vfs.HandleCanAlias` | crates/kernel/src/fs/vfs.rs:306-345 | a run of create and unlink after which the handle of `/a` reaches `/b` |
| `Vfs.ReadsBack` | crates/kernel/src/fs/vfs.rs:257-293 | what is written is read back and every other byte is as before or zero |
| `Vfs.ConsecutiveReads` | crates/kernel/src/fs/vfs.rs:257-268 | reads that each start where the one before ended give the contents in order |
| `Vfs.ReadToTheEnd` | crates/kernel/src/fs/vfs.rs:257-268 | reads until one gives nothing have given the whole file |
| `Vfs.FileSystem.Make` | crates/kernel/src/fs/vfs.rs:306-333 | creates under an existing directory, in the first free slot and with a handle never issued before; each outcome exactly in its case |
| `Vfs.FileSystem.Unlink` | crates/kernel/src/fs/vfs.rs:335-345 | removes that file alone; each outcome exactly in its case |
| `Vfs.FileSystem.Rmdir` | crates/kernel/src/fs/vfs.rs:347-364 | removes that directory alone, and only without children; each outcome exactly in its case |
| `Vfs.FileSystem.ReadAt` | crates/kernel/src/fs/vfs.rs:257-268 | as many bytes of the file behind the handle as asked for and there are from the offset on, and nothing for any other handle |
| `Vfs.FileSystem.WriteAt` | crates/kernel/src/fs/vfs.rs:280-293 | overlays the file behind the handle and touches nothing else |
| `Vfs.FileSystem.Truncate` | crates/kernel/src/fs/vfs.rs:270-278 | empties the file behind the handle and touches nothing else |
| `Bytes.LeRoundTrip` | crates/kernel/src/fs/vfs.rs:403-416 | a number that fits is read back |
| `Bytes.LeByte` | crates/kernel/src/fs/vfs.rs:403-416 | byte j of a number has the weight 256^j |
| `Utf8.Concat` | crates/kernel/src/fs/vfs.rs:132 | text joined to text is text, so the built paths pass the check |
| `KfsImage.Write` | crates/kernel/build.rs:472-506 | header, entries with running offsets, paths and data |
| `KfsImage.BuildKfs` | crates/kernel/build.rs:427-506 | the image of the programs, drivers and driver list |
| `KfsImage.Init` | crates/kernel/src/fs/vfs.rs:102-151 | on any bytes, the nodes or the error that bounds-checked reading gives |
| `KfsImage.ParentsThere` | crates/kernel/src/fs/vfs.rs:155-164 | with all ancestors there, none is made |
| `KfsImage.EntryReads` | crates/kernel/src/fs/vfs.rs:121-133 | an entry is read back as it was written |
| `KfsImage.RowFields` | crates/kernel/src/fs/vfs.rs:121-127 | path length and offset, data offset, size and flags lie at bytes 0, 2, 4, 12 and 20 of an entry |
| `KfsImage.HeaderReads` | crates/kernel/src/fs/vfs.rs:103-114 | magic, version and count are read back at their places |
| `KfsImage.RoundTrip` | crates/kernel/src/fs/vfs.rs:102-151 | for sources in order and within the field widths, unpacking gives exactly what was packed |
| `KfsImage.PackedIsTree` | crates/kernel/src/fs/vfs.rs:102-164 | what is unpacked is a tree |
| `KfsTree.EntryBreaksIff` | crates/kernel/src/fs/vfs.rs:135-147 | an entry of any image breaks the tree exactly when it is new and below a file |
| `KfsTree.EntryDescribed` | crates/kernel/src/fs/vfs.rs:135-164 | after each entry the paths are those of the entries and their ancestors, and the files those of new file entries |
| `KfsTree.BelowFileMeans` | crates/kernel/src/fs/vfs.rs:135-147 | that condition on the nodes is one on the entries alone |
| `KfsTree.AcceptedIsTreeIff` | crates/kernel/src/fs/vfs.rs:102-164 | whatever bytes are accepted, the nodes have distinct valid paths and their parents, and are a tree exactly when no entry with a path that no earlier one mentions is below the path of an earlier file |
| `KfsTree.AcceptedIff` | crates/kernel/src/fs/vfs.rs:102-151 | an image is accepted exactly when header and table are right and every entry has a valid path inside and, if that is new, data inside or the flag of a directory |
| `KfsTree.FilesHoldTheirBytes` | crates/kernel/src/fs/vfs.rs:139-143 | every file of an accepted image holds the bytes that an entry with its path names |
| `KfsTree.FileCanBeParent` | crates/kernel/src/fs/vfs.rs:155-164 | an image with a file below a file is accepted |
| `KfsImage.BuiltImageUnpacks` | crates/kernel/build.rs:427-506 | for distinct slash-free stems in UTF-8 and sizes that fit the format, the built image unpacks to its files, as a tree |
| `KfsImage.BuiltNodes` | crates/kernel/build.rs:427-506 | those are the two directories, every program and driver under its name with its bytes, and the list if there is one |
| `ExecArgs.Encode` | userspace/runtime/runtime.rs:425-435 | path and arguments, each terminated, and a final NUL |
| `ExecArgs.Parse` | crates/kernel/src/syscall/runtime.rs:641-660 | the path up to the first NUL, or none if it is not UTF-8, and the arguments up to an empty one |
| `ExecArgs.ArgsAreExact` | crates/kernel/src/syscall/runtime.rs:641-660 | on any bytes the arguments are not empty, hold no NUL, lie one after the other, and stop where a NUL or the end is next |
| `ExecArgs.ParsedUpToEmpty` | crates/kernel/src/syscall/runtime.rs:641-660 | parsing the encoding gives the path, if it is UTF-8, and the arguments before the first empty one |
| `ExecArgs.EncodingRoundTrip` | userspace/runtime/runtime.rs:425-435 | the encoding is undone exactly when the path is UTF-8 and no argument is empty |
| `ExecArgs.EmptyArgumentCutsOff` | crates/kernel/src/syscall/runtime.rs:641-660 | an empty first argument takes the second with it, and a path that is no text is lost |
| `ExecArgs.PushArgs` | crates/kernel/src/task/exec.rs:254-300 | count, pointers, null and strings lie end to end below the top at a 16-aligned stack pointer, as high as they can, and nothing else on the stack is written |
| `ExecArgs.PointerAt` | crates/kernel/src/task/exec.rs:283-297 | each pointer is the user address of its string |
| `ExecArgs.CountAndNullAt` | crates/kernel/src/task/exec.rs:263-299 | the count lies at the stack pointer and a null pointer ends the pointers |
| `ExecArgs.StringAt` | crates/kernel/src/task/exec.rs:283-297 | each string and its terminator are at that address |
| `ExecArgs.ReadArgs` | userspace/programs/drivers.rs:165-178 | the program reads the arguments that were laid out |
| `ExecArgs.Deliver` | crates/kernel/src/task/exec.rs:254-300 | encoding, parsing, layout and reading give the arguments back, and the path exactly when it is UTF-8 |

## Left out

- Port and MMIO drivers, ACPI, PCI, SMP start-up, descriptor tables, serial, timers: hardware effects without a specification here.
- Console, fonts, terminal drawing, shell and graphical programs are not modelled.
- Weak memory ordering, TLB flushes and huge pages; only the user half (PML4 entries 1 to 255) of an address space is claimed about.
- `add_memory_bytes`, the memory statistics and `alloc_frame_below` are not modelled.
- Concurrency inside the allocators: each heap operation is atomic, as interrupts are off and the shared list is locked.
- Kernel threads, which have no user context, are not part of `Lifecycle`; the IRQ lines, DMA buffers and PCI mappings released at exit are not modelled.
- Liveness after `kill_pid`, the out-of-memory retry loop, and the gap between check and block in `SYS_WAIT`.
- Bounded waiting across blocking switches, where the choice restarts from the lowest tid.
- `sys_try_read`, `read_dir`, `lookup`, `metadata` and the device nodes are not modelled.
- The executable format KXE (`build_kxe`, `parse_kxe`) is not modelled.
- Lifecycle.StepKeepsInv: the kill of children and the wake of process waiters at teardown are separate steps, which allows more interleavings than the code has; the system calls of a thread that goes on while its CPU has no current thread run as process 0, and have no steps of their own: what they can do here (exec, kill, wake) other steps do.
- BlockingSyscall.StepKeepsInv: a frame is taken to lie untouched on the thread's own kernel stack, and ring-0 preemption is not modelled, since system calls run with interrupts off; the threads of the process are there from the start and do not exit; a system call made while the CPU has no current thread either returns or not, and what it does to other processes is not modelled.
- Ipc.Channels.TryRecv: a process asleep on a channel is woken by the channel only; a kill or a signal, which leaves it in the list, is not modelled, and neither is it for WaitSendSpace.
- Pipes.Descriptors.SysWrite: states what happens when no other call comes between its two sections; `Write` and `Notify` are those sections, and keep the invariant with anything in between. SysRead and SysPipe are put together from sections in the same way.
- Pipes.Descriptors.Exec: states what happens when no other call comes between the lookup in the caller and the installation in the child; these are two sections of the lock in the code, as `StaleEntryDangles` shows, and a slot that was freed and taken again in between gives the child an end of another pipe.
- AddressSpaces.Paging.MapPage: requires a page of the user half, and so do the other page operations; the kernel's own mappings are not modelled.
- SharedMemory.ForeignMapKeepsInv: that the rest of the kernel maps no shared frame is its hypothesis.
- ExecArgs.PushArgs: requires that the block fits the 64 KiB stack, which the code does not check.
- Alignment.AlignUp: stated for any positive alignment by remainder; the code clears low bits, which is the same for powers of two.
- KernelHeap.Heap.constructor: the heap starts and ends on a word boundary, as boot information gives it.
