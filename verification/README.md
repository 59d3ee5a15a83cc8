# uLipe RTOS 4: heap and priority kernel

A Dafny model of the two parts of uLipe RTOS 4 that carry its state: the TLSF heap
(`microkernel/OsMem.c`) and the priority kernel (`OsKernel`, `OsTask`, `OsSem`, `OsQueue`, `OsFlags`,
`OsMutex`, with the bit scans of the Cortex-M0 port). `dafny verify dfyconfig.toml` checks all of it.

The heap, the kernel, posting flags and the mutex have three layers. A class holds the data the program
keeps and updates it in place, call by call. A specification on values says what each call does to the
state the class represents; every method is proved equal to it. Theorems about the specification say
what the program promises, over every state and over whole runs of calls. The semaphore protocol, where
a take comes apart into steps, is on values alone, and the kernel's semaphore calls are proved to be
runs of it.

## The heap

`Tlsf.Pool` keeps the pool as an array addressed by byte offset (a word lives at the index of its
first byte), the matrix of list heads row by row, and the two-level bitmap. A block at address `a`
has `prev_hdr` at `a`, its size word at `a + 4` and, while it is free, its list links at `a + 8` and
`a + 12`. The value it represents is `HeapModel.Heap`: the physical sequence of blocks ending with the
sentinel, one free list per class, `used` and `max`. `Pool.Valid` says that the header words, the
links, the list heads and the bitmaps are exactly those of that value, and that the value is well
formed: the blocks tile the area, no two adjacent blocks are free, each free block is in the list of
its class and nowhere else, and `used` is a constant plus the bytes of the live blocks and their
headers.

- `Bits`, `SizeClass`: the scans, single bits, size classes and the two mappings.
- `Layout`, `HeapModel`: physical layout, free lists, allocation and release on values.
- `HeapTheorems`: no byte short of the request, failure exactly when nothing fits, good fit,
  fragmentation, round trip, runs, accounting, coalescing, disjointness, independence from history.
- `Bitmaps`, `Memory`, `Tags`: bitmaps, links and headers in the words of the pool.
- `Tlsf`: the allocator itself, and what the owner of a block may write between calls.
- `PoolTheorems`: the heap a pool holds determines bitmaps, list heads, boundary tags and links.

The shipped 32-bit configuration is modelled: 9 rows of 16 classes, small blocks below 128 bytes,
overhead 8, alignment 8, a pool of up to 32768 bytes besides the 632 bytes of its control block. Pool
size and requests are arbitrary within that range.

## The kernel

Ready, wait and timer lists are sets of priorities held as two-level bitmaps (`PrioLists`), for any
number of tasks up to 256. `Kernels.Kernel` owns them together with the task table, semaphores,
message queues (`Rings`) and the scheduler's variables; `KernelModel.KernelState` is the value it represents.
Each call is one step, and a context switch the kernel asks for is taken at once. A call that puts its
caller to sleep ends there; the second half of `uLipeSemTake` is a call of its own.

- `TaskModel`, `KernelModel`, `TickModel`: the changes calls make, and the global invariant.
- `Kernels`: the calls as the program runs them.
- `KernelRuns`, `KernelTheorems`: runs; agreement of status words, bitmaps and back pointers; strict
  priority; nested interrupts.
- `Endings`: exactly which calls make a task ready that is not, and which stop one that is.
- `DelayTheorems`, `TimeoutTheorems`: exact delays; waits that end in time, and not before it unless
  their own list releases them.
- `StaleTimers`: what a timer entry left behind by an early release does to later waits, suspensions
  and takes.
- `WaitTheorems`: who waits where and is released by what; suspending and resuming.
- `ObjectTheorems`: queues as bounded FIFOs, semaphores conserving units, over whole runs.
- `SemProtocol`, `SemRefinement`: one semaphore with `uLipeSemTake` split where it leaves its critical
  section, and the kernel's calls as runs of it.
- `FlagModel`, `FlagGroups`: posting flags. `MutexModel`, `Mutexes`: one mutex with its shared
  control blocks.

Five statements one might expect are false of the code. For each there is an input that shows it and
the exact condition:

- A task that gives a mutex up is ready afterwards exactly when it had not waited for it, in runs of
  mutex calls (`MutexModel.GiverReadyIff`, `MutexModel.WaiterNotReady`).
- Units do not pile up beside a waiter, and every sleeper is in the wait list with its back pointer
  set, over all interleavings in which neither a give nor the end of an old timer entry lands in a gap
  of a take, of this semaphore or of another (`SemProtocol.WaitersCovered`). A caller can see to the
  entries: none ends in a gap when no take that has to wait begins with an entry that has one tick left
  (`SemProtocol.CleanCovered`). What lands in a gap does harm exactly as follows.
  - A give before the task enters the list: when it leaves more units than woken tasks
    (`SemProtocol.FirstGapExact`, `SemProtocol.UnitBesideSleeper`).
  - A give after that: when the task is the greatest listed (`SemProtocol.SecondGapExact`,
    `SemProtocol.SleeperOffTheList`, `SemProtocol.NeverWoken`).
  - The end of an old entry, with no give anywhere: before the task sets its back pointer, none; before
    it enters the list, the pointer is lost and its timeout later leaves a ready task listed; after
    that, it sleeps in no list (`SemProtocol.ExpireInGapExact`, `SemProtocol.TimeoutLeavesIff`,
    `SemProtocol.ReadyButListed`, `SemProtocol.TickOffTheList`; on the kernel's own tick
    `StaleTimers.TickInFirstGap`, `StaleTimers.TickInSecondGap`).
  - At another semaphore: when that one's list is left with a task that later waits here, its give wakes
    the task, which stays listed here (`StaleTimers.StrayWake`). A semaphore whose own gives meet the
    condition wakes nobody else's task (`SemProtocol.SafeGiveMisleadsNobody`).
- A wait without a timeout is ended by the next tick exactly when the caller still has a timer entry
  with one tick left (`StaleTimers.EndedByStaleEntry`, `StaleTimers.TickEndsPatientTake`); otherwise no
  later tick ends it either (`StaleTimers.PatientWait`).
- A suspension is ended by the next tick exactly when the task has such an entry
  (`StaleTimers.SuspensionEnded`, `StaleTimers.TickEndsSuspension`); otherwise the task stays suspended
  until it is resumed by name (`StaleTimers.SuspendedUntilResumed`).
- An interrupt bracket restores the nesting counter exactly below the counter's greatest value
  (`KernelTheorems.BracketExact`).

## Assumptions

- The pool is aligned to 8 bytes, starts zeroed, and callers release only blocks that are live and
  write only inside them.
- Calls are atomic; `SemProtocol` alone takes one apart. The tick's work on one entry is one step there.
- The idle task has priority 0, is installed before the kernel starts, and does not block: 0 found in a
  wait list would be read as "nobody". It may be suspended.
- A task woken in the first half of a take runs the second half before it takes that semaphore again.
- A task does not take a mutex it owns, and nobody gives a mutex that is free.
- Only tasks call blocking services, not interrupt handlers.
- Wait lists are empty when their object is created, and back pointers are NULL in a new control
  block; the source leaves both to what the allocator returns.
- The only handle that names no object is NULL.
- Counts, timeouts and slot numbers fit the 16-bit fields they are stored in.

## Model

| member | source | states |
|---|---|---|
| Bits.ScanExact | microkernel/arch/arm_cm0/OsPort_M0.c:103-157 | the two scans find the most and the least significant set bit of every word; both give 32 for 0 |
| Bits.Nibble | microkernel/arch/arm_cm0/OsPort_M0.c:119-153 | the shift chosen by the comparisons always leaves less than 16, so the table index is in range |
| Bits.Lookup | microkernel/arch/arm_cm0/OsPort_M0.c:28-31 | the table holds the leading zeros of its index |
| Bits.LsIndexOf | microkernel/OsMem.c:189-191 | `ls_bit` is the number of the lowest set bit |
| Bits.MsIndexOf | microkernel/OsMem.c:193-195 | `ms_bit` of a size is the k with 2^k <= size < 2^(k+1) |
| Bits.SetBitAt | microkernel/OsMem.c:198-200 | `set_bit` sets the named bit and no other |
| Bits.ClearBitAt | microkernel/OsMem.c:203-205 | `clear_bit` clears the named bit and no other |
| SizeClass.MappingInsert | microkernel/OsMem.c:226-236 | the row and column are in range and name the one class whose sizes include the argument |
| SizeClass.MappingSearch | microkernel/OsMem.c:209-223 | the row and column name the least class all of whose sizes are large enough, and the rounded size is exactly that class's smallest, the carry into the next row included |
| SizeClass.CellMonotone | microkernel/OsMem.c:226-236 | a larger size is never in a smaller class |
| SizeClass.CellUnique | microkernel/OsMem.c:226-236 | the classes partition the sizes below 32768 |
| SizeClass.Carry | microkernel/OsMem.c:216-221 | adding one less than the class width either stays in the row or lands in the first class of the next, and masking then gives the class's smallest size |
| SizeClass.RoundingBound | microkernel/OsMem.c:212-222 | rounding costs nothing below 128 and less than a sixteenth of the request above |
| HeapModel.MallocValid | microkernel/OsMem.c:379-413 | allocation keeps the heap invariant, whether it succeeds or not |
| HeapModel.FreeValid | microkernel/OsMem.c:419-454 | release keeps the heap invariant with neither, one or both neighbours free |
| HeapTheorems.MallocFailsIff | microkernel/OsMem.c:385-391 | NULL is returned exactly when every free block is smaller than the rounded request, and then nothing changes |
| HeapTheorems.MallocGoodFit | microkernel/OsMem.c:238-254 | otherwise the block is the head of the least non-empty class at or above the searched one, and is large enough |
| HeapTheorems.MallocLive | microkernel/OsMem.c:385-413 | exactly one block becomes live, `used_size` grows by its size and overhead, `max_size` follows |
| HeapTheorems.FreeLive | microkernel/OsMem.c:419-454 | exactly the released block stops being live and `used_size` shrinks by its size and overhead |
| HeapTheorems.Fragmentation | microkernel/OsMem.c:385-409 | the block handed out exceeds the adjusted request r by at most 8 below 128, and by less than r/16 + 8 from there on |
| HeapTheorems.MallocServes | microkernel/OsMem.c:385-412 | whoever asks for n bytes and is not refused gets one new live block of at least n bytes; of at most n + 15 below 128, and from there on of less than a sixteenth of the rounded request more |
| HeapTheorems.MallocSucceeds | microkernel/OsMem.c:385-391 | a free block larger than the request by a sixteenth, rounding aside, is enough for it to be served |
| HeapTheorems.AllocServes | microkernel/OsMem.c:470-488 | the same for `uLipeMemAlloc` up to 16384 bytes; for more it hands out what 16384 would get |
| HeapTheorems.RoundTrip | microkernel/OsMem.c:379-454 | on values, allocating and releasing at once restores blocks, every free list in order, and `used_size`; only `max_size` may differ |
| PoolTheorems.AllocateAndRelease | microkernel/OsMem.c:379-454 | in the pool, `malloc_ex` and `free_ex` of its result restore both bitmaps, the list heads, every boundary tag and every link, and write no payload of a live block |
| PoolTheorems.ControlDetermined | microkernel/OsMem.c:160-168 | two pools that hold the same heap have the same bitmaps, list heads, boundary tags and links |
| HeapTheorems.MaxIsPeak | microkernel/OsMem.c:77-85 | over every run `max_size` is the largest of its old value and the values of `used_size` on the way |
| HeapTheorems.Accounting | microkernel/OsMem.c:77-85 | after any run from initialisation `used_size` is a constant plus the bytes of the live blocks with overhead, and `max_size` its running maximum |
| HeapTheorems.InitValid | microkernel/OsMem.c:333-365 | the initial heap is well formed and holds nothing live |
| HeapTheorems.InitSpace | microkernel/OsMem.c:307-362 | the one block of a new pool takes all of it but 664 bytes of control block and headers and fewer than 8 bytes of alignment |
| HeapTheorems.AllFree | microkernel/OsMem.c:419-454 | a heap with nothing live is the initial heap: one free block of the original size in one non-empty list |
| HeapTheorems.FreeAllCoalesces | microkernel/OsMem.c:419-454 | releasing all live blocks in any order is legal and ends in the initial heap |
| HeapTheorems.HistoryIndependent | microkernel/OsMem.c:379-454 | the physical layout and `used_size` depend on the live blocks alone, not on how they came about |
| HeapTheorems.LiveDisjoint | microkernel/OsMem.c:395-412 | live blocks are aligned to 8, inside the pool and pairwise disjoint |
| Bitmaps.SetAgrees | microkernel/OsMem.c:296-297 | setting the two bits keeps the bitmaps exact when a list becomes non-empty |
| Bitmaps.ClearAgrees | microkernel/OsMem.c:262-264 | clearing them, the row bit only for an empty row, keeps the bitmaps exact when a list becomes empty |
| Bitmaps.FoundInRow | microkernel/OsMem.c:239-244 | a bit found in the row is the first non-empty class from the searched one on |
| Bitmaps.FoundBelow | microkernel/OsMem.c:246-251 | otherwise the row bitmap leads to the first non-empty class of the later rows, or to none |
| Bitmaps.AgreeUnique | microkernel/OsMem.c:165-166 | the free lists determine both bitmaps |
| Memory.LinkedUnique | microkernel/OsMem.c:134-138 | the free lists determine the list heads and the link words |
| Tags.HeadersUnique | microkernel/OsMem.c:140-150 | the physical blocks determine the size words and the defined `prev_hdr` words |
| Memory.UnlinkLinked | microkernel/OsMem.c:271-286 | the words written take one block out of a doubly linked list and leave every other list linked |
| Memory.PushLinked | microkernel/OsMem.c:290-295 | the words written put a block in front of its list and leave every other list linked |
| Tags.TagFields | microkernel/OsMem.c:113-128 | size and state bits of a size word do not disturb each other |
| Tlsf.Pool.FindSuitableBlock | microkernel/OsMem.c:238-254 | returns the head of the first non-empty class from the given one on, or NULL when there is none |
| Tlsf.Pool.ExtractBlockHdr | microkernel/OsMem.c:257-268 | takes the head off its list; links, heads and bitmaps stay exact; only link words are written |
| Tlsf.Pool.ExtractBlock | microkernel/OsMem.c:271-286 | takes any block out of its list; links, heads and bitmaps stay exact; only link words are written |
| Tlsf.Pool.InsertBlock | microkernel/OsMem.c:290-298 | puts a free block in front of its list; links, heads and bitmaps stay exact; only link words are written |
| Tlsf.Pool.SplitBlock | microkernel/OsMem.c:398-405 | splits the block found, lists the rest and rewrites the boundary tags around it |
| Tlsf.Pool.TakeWhole | microkernel/OsMem.c:406-409 | hands the block out whole and tells its right neighbour |
| Tlsf.Pool.AddSize | microkernel/OsMem.c:77-81 | `used_size` grows, `max_size` is the larger of the two |
| Tlsf.Pool.TakeBlock | microkernel/OsMem.c:393-412 | everything `malloc_ex` does with the block found equals allocation on values; no payload of a live block is written |
| Tlsf.Pool.MallocEx | microkernel/OsMem.c:379-413 | equals allocation on values, for which `HeapTheorems.MallocServes` says what it gives; keeps the pool valid, writes no payload of a live block |
| Tlsf.Pool.JoinBoth | microkernel/OsMem.c:435-446 | joins free neighbours on both sides, taking them out of their lists |
| Tlsf.Pool.FinishRelease | microkernel/OsMem.c:448-453 | lists the joined block and tells its right neighbour |
| Tlsf.Pool.ReleaseBlock | microkernel/OsMem.c:426-453 | release of a block equals release on values, boundary tags included |
| Tlsf.Pool.FreeEx | microkernel/OsMem.c:419-454 | equals release on values, keeps the pool valid, writes no payload of another live block; NULL changes nothing |
| Tlsf.Pool.ProcessArea | microkernel/OsMem.c:307-326 | lays out the area header, one used block and the sentinel |
| Tlsf.Pool.InitMemoryPool | microkernel/OsMem.c:333-365 | a NULL, misaligned or too small pool is refused untouched; a pool with the signature is left alone and the size word behind its control block reported; otherwise the pool becomes the initial heap and the size of its one block is returned |
| Tlsf.Pool.MemAlloc | microkernel/OsMem.c:470-488 | allocation of the request clamped to 16384 |
| Tlsf.Pool.WritePayload | microkernel/OsMem.c:412 | storing a 32-bit word at an aligned address inside a live block keeps the pool valid and the heap it holds, so runs may use the memory they get |
| Tlsf.Pool.MemFree | microkernel/OsMem.c:490-502 | release, ignoring NULL |
| PrioLists.PrioList.Set | include/microkernel/OsKernel.h:181-190 | inserts into the set; group bits stay set exactly for non-zero words |
| PrioLists.PrioList.Clr | include/microkernel/OsKernel.h:201-215 | removes from the set; group bits stay set exactly for non-zero words |
| PrioLists.PrioList.FindHighPrio | microkernel/OsKernel.c:131-153 | the greatest member, 0 for the empty set whatever word is read past the table |
| PrioLists.HighIndexOf | microkernel/OsKernel.c:141-144 | 31 less the scan, wrapped to 16 bits and corrected, is the highest set bit, or 31 for an empty word |
| Rings.Ring.Put | microkernel/OsQueue.c:272-282 | appends to the contents; front stays used slots ahead of back, going round |
| Rings.Ring.Get | microkernel/OsQueue.c:375-384 | removes the oldest element, which is never NULL |
| Rings.Ring.Flush | microkernel/OsQueue.c:416-418 | empties the contents and restarts what is accepted and removed |
| TaskModel.BlockAgrees | microkernel/OsSem.c:142-156 | going to sleep keeps status words, lists and back pointers in agreement |
| TaskModel.WakeAgrees | microkernel/OsSem.c:55-62 | releasing a waiter clears all its status bits and keeps agreement |
| TaskModel.TopReady | microkernel/OsKernel.c:170-177 | the scheduler's choice is an installed task: the greatest one with status 0, or the idle task when none has |
| KernelModel.InitInv | microkernel/OsKernel.c:353-386 | the state the kernel starts from satisfies the invariant |
| KernelModel.CreateInv | microkernel/OsTask.c:91-112 | creating a task keeps the invariant |
| KernelModel.SuspendInv | microkernel/OsTask.c:147-168 | suspending keeps the invariant, refused or not |
| KernelModel.ResumeInv | microkernel/OsTask.c:173-195 | resuming keeps the invariant, for waiting tasks too |
| KernelModel.DelayInv | microkernel/OsTask.c:200-224 | delaying the caller keeps the invariant; a delay of 0 ticks, from anyone, changes nothing |
| KernelModel.SemTakeInv | microkernel/OsSem.c:122-187 | taking a semaphore keeps the invariant, with or without going to sleep |
| KernelModel.SemGiveInv | microkernel/OsSem.c:193-228 | giving keeps the invariant |
| KernelModel.QueueInsertInv | microkernel/OsQueue.c:195-294 | inserting keeps the invariant in every branch |
| KernelModel.QueueRemoveInv | microkernel/OsQueue.c:298-398 | removing keeps the invariant in every branch |
| KernelModel.QueueFlushInv | microkernel/OsQueue.c:402-432 | flushing keeps the invariant while it releases a waiter of each kind |
| TickModel.TickInv | microkernel/OsKernel.c:192-274 | the tick keeps the invariant, the swap of timer lists included |
| TickModel.TickRefines | microkernel/OsKernel.c:207-267 | on the map from priority to remaining delay: each entry loses one, entries at zero become ready and leave every wait list, entries still marked go on, entries released early are dropped, no other task changes |
| TickModel.TickBlocks | microkernel/OsKernel.c:217-258 | a control block whose entry ends is cleared, back pointers and all; one with an entry has one tick less; no other changes |
| TickModel.TickLeaves | microkernel/OsKernel.c:239-250 | a task leaves a wait list exactly when its entry ends, and enters none |
| TickModel.RemainingPositive | microkernel/OsKernel.c:212-215 | between ticks the inactive list is empty and every entry has time left, so the assertion holds |
| TickModel.TurnIs | microkernel/OsKernel.c:209-264 | one turn of the loop adds one entry to those processed |
| TickModel.Pending | microkernel/OsKernel.c:202-266 | the loop ends exactly when every entry is processed |
| Kernels.Kernel.TaskYield | microkernel/OsKernel.c:159-187 | does nothing before the start and inside interrupts; otherwise the greatest ready priority runs, and its control block exists |
| Kernels.Kernel.RtosStart | microkernel/OsKernel.c:393-414 | the greatest ready priority runs first |
| Kernels.Kernel.IrqEnter | microkernel/OsKernel.c:100-106 | counts a nested handler, up to 65535 |
| Kernels.Kernel.IrqLeave | microkernel/OsKernel.c:111-123 | uncounts it and reschedules at the outermost level |
| Kernels.Kernel.RtosTick | microkernel/OsKernel.c:192-274 | the loop over the active timer list, bitmap by bitmap, equals the tick on values |
| Kernels.Kernel.TaskCreate | microkernel/OsTask.c:47-115 | the error returned is the first check that fails, in the order of the source; otherwise the task is installed and ready |
| Kernels.Kernel.TaskSuspend | microkernel/OsTask.c:147-168 | equals suspension on values, its two refusals included |
| Kernels.Kernel.TaskResume | microkernel/OsTask.c:173-195 | equals resumption on values |
| Kernels.Kernel.TaskDelay | microkernel/OsTask.c:200-224 | equals delaying the caller on values; 0 ticks change nothing, whoever asks |
| Kernels.Kernel.BlockOn | microkernel/OsSem.c:142-161 | the steps that put a caller to sleep equal one change of lists and task table |
| Kernels.Kernel.ReleaseTop | microkernel/OsSem.c:46-65 | the greatest waiter, if any, leaves the list and becomes ready |
| Kernels.Kernel.StartLists | microkernel/OsKernel.c:24-25 | the kernel's own lists start empty, which satisfies the invariant |
| Kernels.Kernel.CreateSem | microkernel/OsSem.c:99-117 | a new semaphore with an empty wait list, or the error when no block could be allocated |
| Kernels.Kernel.CreateQueue | microkernel/OsQueue.c:146-190 | a new empty queue with empty wait lists, or the error of the allocation that failed |
| Kernels.Kernel.TakeSem | microkernel/OsSem.c:122-187 | a unit is taken if there is one, otherwise the caller sleeps |
| Kernels.Kernel.RetakeSem | microkernel/OsSem.c:163-176 | after waking a unit is taken if there is one, otherwise the take timed out |
| Kernels.Kernel.GiveSem | microkernel/OsSem.c:193-228 | units are added up to the limit and the greatest waiter is released |
| Kernels.Kernel.InsertQueue | microkernel/OsQueue.c:195-294 | equals insertion on values: NULL refused, a full queue blocks or refuses by option, otherwise append and release a reader |
| Kernels.Kernel.RemoveQueue | microkernel/OsQueue.c:298-398 | equals removal on values; the pointer is non-NULL exactly on success |
| Kernels.Kernel.FlushQueue | microkernel/OsQueue.c:402-432 | equals flushing on values |
| KernelRuns.StepInv | microkernel/OsKernel.c:159-274 | every allowed call keeps the invariant |
| KernelTheorems.Agreement | microkernel/OsTask.c:104-187 | in every reachable state a task is in the ready list exactly when installed with status 0, in a wait list exactly when it has that pend bit and its back pointer names that list, and in one wait list at most |
| KernelTheorems.StrictPriority | microkernel/OsKernel.c:159-187 | in every reachable state outside interrupts the running task is the greatest installed priority with status 0, or the idle task when no installed task has status 0 |
| KernelTheorems.Deferred | microkernel/OsKernel.c:100-123 | while handlers are nested no call changes the running task or the scheduler's choice, and the counter is the nesting depth |
| KernelTheorems.OutermostSchedules | microkernel/OsKernel.c:100-123 | a bracketed handler with whatever it nests leaves the running task alone until its end, when the greatest ready priority runs |
| KernelTheorems.BracketExact | microkernel/OsKernel.c:106-115 | entering and leaving restores the counter exactly below 65535 |
| KernelTheorems.BeforeStart | microkernel/OsKernel.c:161-206 | before the start no call runs anything, and ticks and interrupts do nothing at all |
| DelayTheorems.ExactDelay | microkernel/OsTask.c:200-224 | after a delay of n ticks, whatever else is called, the task is not ready after fewer than n ticks and is ready right after the n-th |
| DelayTheorems.StepSleeping | microkernel/OsTask.c:147-195 | no call but the tick touches a task that only sleeps, suspending or resuming it included |
| DelayTheorems.TickSleeping | microkernel/OsKernel.c:218-252 | a tick takes one from its time, the last one makes it ready |
| TimeoutTheorems.WaitEnds | microkernel/OsKernel.c:218-252 | a wait with r ticks left ends within r ticks, whatever is called meanwhile |
| TimeoutTheorems.TimedExact | microkernel/OsKernel.c:218-252 | a wait with r ticks left ends in fewer than r ticks exactly when some call releases it from its own list |
| TimeoutTheorems.PatientExact | microkernel/OsKernel.c:217-258 | a wait without a timeout, or a suspension, with no timer entry about to end is ended by no tick of any run: it ends exactly when some call releases or resumes the task |
| Endings.EndsExactly | microkernel/OsKernel.c:217-253 | for a task that is not ready, and every call: the call makes it ready exactly when it releases the task as the greatest of its own list, resumes it from a suspension, or is a tick that ends its timer entry |
| Endings.StepEnds | microkernel/OsSem.c:46-65 | every other call but the tick leaves its control block and its timer entry as they are |
| Endings.StopsExactly | microkernel/OsTask.c:147-224 | for a ready task, and every call: the call stops it exactly when it is its own call that has to wait, its own delay, or its suspension by name |
| TimeoutTheorems.BlockedTimed | microkernel/OsQueue.c:224-231 | a take, an insertion or a removal with a timeout that puts its caller to sleep gives it just that many ticks |
| TimeoutTheorems.BlockedEnds | microkernel/OsSem.c:150-156 | it is ready again within that many ticks, and before the last of them exactly when some call releases it from its own list |
| WaitTheorems.BlocksIff | microkernel/OsQueue.c:213-221 | exactly which calls put their caller to sleep: a take without a unit, an insertion into a full queue with option 2, a removal from an empty one with option 1 |
| WaitTheorems.CallersSleep | microkernel/OsQueue.c:215-244 | such a call sends exactly its caller from the ready list to the list of its own kind and, with a timeout, to the timer list; its status word, delay and back pointers are written out; the greatest task still ready runs |
| WaitTheorems.RefusedKeeps | microkernel/OsQueue.c:201-213 | a call that neither sleeps nor succeeds changes nothing |
| WaitTheorems.SuccessReleases | microkernel/OsQueue.c:47-99 | a give, an insertion and a removal that succeed move exactly the greatest waiter of the list their counterpart fills to the ready list; every other list and task is unchanged |
| WaitTheorems.FlushReleases | microkernel/OsQueue.c:420-422 | a flush releases the greatest slot waiter, then the greatest message waiter, and nobody else |
| WaitTheorems.CreateMoves | microkernel/OsTask.c:91-112 | creation adds one ready task and changes no other |
| WaitTheorems.SuspendMoves | microkernel/OsTask.c:147-168 | a suspension that is not refused marks the task and takes it out of the ready list, no more |
| WaitTheorems.ResumeMoves | microkernel/OsTask.c:173-195 | resuming takes that mark away again, and is nothing for a task without it |
| WaitTheorems.DelayMoves | microkernel/OsTask.c:200-224 | a delay takes its caller from the ready list to the timer list, for just that many ticks |
| WaitTheorems.SuspendResume | microkernel/OsTask.c:147-195 | resuming a task just suspended restores the whole kernel state, the running task included |
| ObjectTheorems.Fifo | microkernel/OsQueue.c:195-432 | over every run, the data whose insertion reported success since the last flush are the pointers successful removals returned, followed by what is held; never more than the slots, never NULL |
| ObjectTheorems.Replies | microkernel/OsQueue.c:201-398 | insertions and removals report success exactly when they take effect, takes exactly when there is a unit |
| ObjectTheorems.Codes | microkernel/OsTask.c:147-195 | the code every call returns: refused suspensions, missing objects, full and empty queues and timeouts each have their own |
| ObjectTheorems.Capacity | microkernel/OsQueue.c:146-213 | in every state after its creation a queue accepts a message exactly while fewer than its slots have been accepted and not yet delivered |
| ObjectTheorems.GiveAdds | microkernel/OsSem.c:208-216 | a give adds all its units, or as many as the limit leaves room for |
| ObjectTheorems.RemoveNonNull | microkernel/OsQueue.c:298-398 | in every reachable state removal yields a pointer exactly when it reports success |
| ObjectTheorems.UnitsConserved | microkernel/OsSem.c:163-228 | over every run a count is what was put in less one for each take that reported success |
| ObjectTheorems.CountWithinLimit | microkernel/OsSem.c:208-216 | if semaphores start within their limits, counts stay within them |
| SemProtocol.UnitsConserved | microkernel/OsSem.c:136-216 | over every interleaving, a take interrupted between its steps included, count + units taken = initial count + units added, and the count stays within its limit |
| SemProtocol.WaitersCovered | microkernel/OsSem.c:136-158 | over every interleaving in which neither a give nor the end of an old timer entry lands in a gap, here or at another semaphore, every sleeper is in the wait list with its back pointer set, and while the list holds anyone the count is at most the number of woken tasks that have not looked again, plus what gives brought beyond one unit each |
| SemProtocol.CleanCovered | microkernel/OsSem.c:136-158 | the same when gives keep out of the gaps and no take that has to wait begins with a timer entry that has one tick left |
| SemProtocol.FirstGapExact | microkernel/OsSem.c:136-143 | after a give between the first look and the entry into the wait list, the units are covered once the task sleeps exactly when they are no more than the tasks awake by then |
| SemProtocol.SecondGapExact | microkernel/OsSem.c:143-158 | after a give between the entry into the wait list and going to sleep, the task sleeps in the list exactly when it was not the greatest there |
| SemProtocol.ExpireInGapExact | microkernel/OsKernel.c:218-252 | after an old timer entry of the task ended in a gap, it sleeps in the list exactly when it had not entered it by then, and with its back pointer exactly when it had not set it |
| SemProtocol.TimeoutLeavesIff | microkernel/OsKernel.c:245-252 | a listed sleeper whose time is up leaves the list exactly when its back pointer is set |
| SemProtocol.UnitBesideSleeper | microkernel/OsSem.c:140-143 | a give in the first gap of a take leaves a task asleep beside a free unit |
| SemProtocol.SleeperOffTheList | microkernel/OsSem.c:143-150 | a give in the second gap leaves a task asleep in no list |
| SemProtocol.TickOffTheList | microkernel/OsSem.c:143-150 | so does a tick there that ends an old entry of the task, with no give anywhere |
| SemProtocol.ReadyButListed | microkernel/OsSem.c:142-143 | a tick between setting the back pointer and entering the list leaves, after the task's own timeout, a ready task in the list, which takes the next give's wake-up from a sleeper |
| SemProtocol.NeverWoken | microkernel/OsSem.c:46-65 | a sleeper in no list stays asleep whatever is given; only its timeout wakes it |
| SemRefinement.StepRefines | microkernel/OsSem.c:122-228 | every call of the kernel, ticks included, is to one semaphore the protocol steps of its trace, timer entries included, none of them in a gap |
| SemRefinement.TakeTimes | microkernel/OsSem.c:150-156 | the timer entry a blocked take leaves is the one the last step of its trace leaves |
| SemRefinement.TakePoints | microkernel/OsSem.c:142 | a blocked take points its caller's back pointer to its own list, as the protocol's step does, and so away from any other's |
| SemRefinement.TickPoints | microkernel/OsKernel.c:245-250 | the tick clears the back pointers of the tasks whose entries end, and no other |
| SemRefinement.KernelCovered | microkernel/OsSem.c:46-228 | over every kernel run from the creation of a semaphore in which the halves of each take come in order, while tasks wait its count is at most the number of tasks woken from it that have not looked again, plus what gives brought beyond one unit each |
| StaleTimers.EndedByStaleEntry | microkernel/OsKernel.c:217-253 | a wait without a timeout is ended by the next tick exactly when the caller has a timer entry with one tick left |
| StaleTimers.PatientWait | microkernel/OsKernel.c:217-258 | when it has none, the caller becomes ready in a run exactly when some call releases it from its own list |
| StaleTimers.SuspensionEnded | microkernel/OsKernel.c:217-253 | a suspension is ended by the next tick exactly when the task has a timer entry with one tick left |
| StaleTimers.SuspendedUntilResumed | microkernel/OsTask.c:147-195 | when it has none, the task becomes ready in a run exactly when the run resumes it by name |
| StaleTimers.TickInFirstGap | microkernel/OsSem.c:140-143 | a tick between setting the caller's back pointer and entering the list keeps the pointer exactly when the caller has no timer entry with one tick left |
| StaleTimers.TickInSecondGap | microkernel/OsSem.c:143-145 | a tick between entering the list and going to sleep keeps the caller in the list exactly then |
| StaleTimers.StrayWake | microkernel/OsSem.c:46-65 | a semaphore whose list still holds a task that waits for another one wakes it as its own greatest waiter; the task is ready and still listed by the other |
| StaleTimers.TickEndsPatientTake | microkernel/OsKernel.c:217-253 | a run from initialisation after which a take without a timeout is ended by the very next tick, no unit given |
| StaleTimers.TickEndsSuspension | microkernel/OsKernel.c:217-253 | after the same run the very next tick ends a suspension |
| FlagModel.ServeTwice | microkernel/OsFlags.c:61-130 | visiting a waiter twice in a row is visiting it once, so the loop's double visit of the first waiter is harmless |
| FlagModel.PostExactly | microkernel/OsFlags.c:61-135 | a post releases exactly the waiters satisfied by the register they find, keeps exactly the other waiters, and touches no other task |
| FlagModel.ServedMeans | microkernel/OsFlags.c:66-126 | bit by bit: a waiter for all its flags is served exactly when each is set in the register it finds, a waiter for any exactly when some bit is; it loses its wait, delay and consume bits and no other, and is ready exactly when none is left |
| FlagModel.PostRegister | microkernel/OsFlags.c:70-113 | bit by bit: a post leaves exactly the flags no served consuming waiter takes, which are the low ones it answers to |
| FlagModel.PostShrinks | microkernel/OsFlags.c:105-113 | a post only clears flags, and none of the upper sixteen |
| FlagModel.ServedWasSatisfied | microkernel/OsFlags.c:66-90 | whoever is released had what it wanted in the register as posted |
| FlagModel.OrderFree | microkernel/OsFlags.c:61-135 | when nobody consumes, who is released depends on the posted register alone |
| FlagModel.ConsumedOnce | microkernel/OsFlags.c:106-112 | a low flag consumed by one waiter is gone for all waiters after it |
| FlagGroups.FlagGroup.FlagsPostLoop | microkernel/OsFlags.c:52-136 | the loop terminates and equals one pass over the waiters in descending priority; afterwards the new active list holds the waiters kept and the other list is empty |
| FlagGroups.FlagGroup.Matches | microkernel/OsFlags.c:66-95 | the switch recognises exactly the satisfied waiters, which are those `FlagModel.ServedMeans` describes |
| FlagGroups.FlagGroup.Consume | microkernel/OsFlags.c:109-112 | clearing with the 16-bit accumulator clears just the low half of what this waiter answers to |
| FlagGroups.FlagGroup.FlagsPost | microkernel/OsFlags.c:320-343 | posting adds the flags, then makes that pass |
| MutexModel.TakeExact | microkernel/OsMutex.c:81-125 | a free mutex goes to whoever takes it, who is then ready at the reserved priority, the greatest there is; whoever finds it taken is told so, leaves the ready list and waits |
| MutexModel.GiveHandsOver | microkernel/OsMutex.c:145-188 | a give hands over to the greatest other waiter, who is then ready at the reserved priority, and frees the mutex exactly when there is none; the giver shows its own slot again, no other task changes |
| MutexModel.NewOwnerRuns | microkernel/OsMutex.c:155-178 | after a give that hands over, the scheduler picks the new owner |
| MutexModel.OwnerRuns | microkernel/OsMutex.c:81-188 | in every reachable state the owner is what the scheduler picks, nobody is ready at the reserved priority while the mutex is free, and exactly those who wait for it are marked so |
| MutexModel.OwnerAlone | microkernel/OsMutex.c:81-188 | in every reachable state a task shows the reserved priority exactly when it owns the mutex, its own slot otherwise, and nobody waits for a free mutex |
| MutexModel.GiverReadyIff | microkernel/OsMutex.c:145-150 | in every state reached by mutex calls alone the giver is ready afterwards exactly when it is not in the wait list, that is, when it had not waited |
| MutexModel.WaiterNotReady | microkernel/OsMutex.c:83-87 | a run in which a task that waited for the mutex is not in the ready list after giving it up, with status 0 |
| Mutexes.MutexTake | microkernel/OsMutex.c:66-125 | NULL is refused; otherwise, through shared control blocks, equals taking on values, and the greatest ready slot runs next: the reserved one after a take that succeeds |
| Mutexes.MutexGive | microkernel/OsMutex.c:131-199 | NULL is refused; otherwise, through shared control blocks, equals giving on values, and the greatest ready slot runs next: the reserved one after a give that hands over |

## Left out

- Drivers, the device table, console output, the assembly context switch, timer and system control
  setup, and stack frames.
- The M3/M4/M7 port, whose scans and priority search are assembly.
- SizeClass.MappingSearch: is stated for requests up to 31744, since the smallest size of the next
  class is outside the matrix; `uLipeMemAlloc` clamps to 16384, so no call through it goes further.
- Tlsf.Pool.InitMemoryPool: does not model pools above 33400 bytes, for which the source has another
  configuration of rows and classes.
- Tlsf.Pool.FreeEx: is stated for live blocks and NULL; what happens on any other pointer is left open
  by the source.
- The control block of the heap is a set of typed fields, not words of the pool it lies in.
- A task is named by its slot in `Kernels` and its control block is a value there; that slots can share
  a block is modelled in `Mutexes` alone, for one mutex.
- Kernels.Kernel.BlockOn: stands for the three blocking services, which write the same things in three
  orders, partly outside their critical sections (`microkernel/OsQueue.c:217-236`,
  `microkernel/OsSem.c:140-145`).
- Interrupts inside a call, except in `SemProtocol`.
- `uLipeTaskDelete` and the delete entry points of semaphores, queues, flags and mutexes with their
  loops.
- `uLipeFlagsPend` and timeouts of flag waits: `FlagGroups` takes the waiters' control blocks as given,
  and reschedules nothing.
- `uLipeMemInit`, `uLipeKernelIsRunning` and other thin wrappers.
