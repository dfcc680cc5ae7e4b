# RT-Thread Nano kernel and bring-up assemblers: a verified model

This project models, in Dafny 4.11, the RT-Thread Nano 3.1.5 kernel that the repository vendors for its
RISC-V core, and the two small assemblers that its test generators contain, and proves what they are
for.

* **Small heap** (`HeapBlocks`, `SmallHeap`): the allocator that is built. Headers tile the heap exactly,
  live regions are aligned, disjoint and never overwritten, free neighbours are joined, the counters are
  right, and `NULL` is characterised exactly.
* **Threads, semaphores, mutexes** (`Scheduler`, `ThreadEffects`, `Sections`, `Ipc`, `IpcEffects`,
  `KernelRuns`, `Accounts`, `Wakeups`, `Stranding`, `PriorityInheritance`): a state machine whose steps are the interrupt-disabled sections, taken by any
  thread in any order; operations that unlock half way are two steps, and which interleavings of them are
  safe is decided exactly; what each branch answers and changes; invariants, holds and units counted by the
  answers callers get, the error with which a waiter goes on, and priority inheritance, over every run.
* **The kernel in memory** (`RtList`, `ThreadLists`, `KernelObject`): the pointer updates of the circular
  list against the sequence view, and an object whose lists are such rings and whose records are updated
  in place; running any allowed step on it is the step of the state machine.
* **Timers** (`Timers`, `TimerList`): the skip list on wrapped 32-bit ticks against true deadlines, and
  the expiry loop with callbacks that stop, start and detach timers.
* **Message queues, mailboxes, block pools, events** (`WaitQueues`, `MessageQueue`, `Mailbox`, `MemPool`,
  `EventFlags`): node ownership outside the lock, FIFO order, no lost wake-up, one-pass event delivery.
* **The other allocators** (`Memory`, `MemHeapBlocks`, `MemHeap`, `SlabPages`, `SlabZones`, `SlabHeap`): the memheap's
  two lists kept in step; the slab's page list against a set of pages, its size classes, and the whole slab
  with zones, spare zones and large runs, where every chunk finds the way back to its own zone.
* **Assemblers** (`Rv32`, `Rv32Bits`, `Assembler`, `AssemblerMeaning`, `PatchAssembler`): encoding and
  decoding, load-immediate, labels, and that the words of either assembler do what the program with labels
  says.

Sizes and addresses are mathematical integers; the caller keeps `RT_ALIGN` and `count * size` from wrapping.
Where the C code says `RT_ASSERT`, which the build compiles out, the model has a `requires`. The
scheduler is modelled for `RT_THREAD_PRIORITY_MAX` of 32, alignment is 16 bytes, ticks have 32 bits.

Findings about the code, each with the condition under which it does what it is for:

* "`NULL` from `rt_malloc` means that no free block is large enough" is false of `mem.c`: the strict loop
  bound skips an exact fit that ends at `heap_end` (`SmallHeap.ExactFitRefused` makes such a call).
  `SmallHeap.Heap.Malloc` states when `NULL` is returned, with equivalence. `memheap.c` likewise refuses a
  request for all that is available (`MemHeap.ExactFitRefused`, `MemHeap.RtMemHeap.Alloc`).
* `rt_thread_delete`, `rt_thread_detach`, `rt_thread_resume` and `rt_thread_startup` unlock between their
  sections. What else happens to the thread meanwhile decides whether lists and bitmap survive:
  `Sections.OneCallBetween` says so exactly for one call in between, `Sections.MeetingExact` for any number
  of them, `Sections.InterleavingExact` for sections of any calls in any order. A delete does not stand the
  expiry of an armed timer, a resume of a suspended thread, a start of a new one, another priority for a
  ready one, or, if the thread is dynamic, a second delete; a resume does not stand a second resume or the
  delete of a dynamic thread (`Sections.Incompatible`, `Sections.CloseMeetsTimer`, `Sections.ResumedTwice`,
  `Sections.ResumeCrossesClose`). `Ipc.Allowed` rules these out.
* `rt_thread_resume` and `rt_thread_suspend` check the state before locking, and the check may be stale.
  After a stale resume the bitmap can name an empty list (`Sections.StaleResume`). A stale suspend takes a
  thread that has blocked meanwhile off its wait queue; every invariant holds, and in no further run is the
  waiter woken unless somebody names it (`Stranding.SuspendLateStrands`, `Stranding.StrandedForGood`).
* A thread that holds two mutexes loses an inherited priority too early: releasing one restores the priority
  saved in it, although a more urgent thread waits for the other (`PriorityInheritance.NestedInverts`). A
  release inverts nothing exactly under the conditions of `NestedReleaseExact` and `HandOffExact`. A take
  boosts one owner and nobody further: if that owner waits for another mutex, the take inverts there unless
  the owner of that one is at least as urgent as the taker (`ChainedTakeExact`, `ChainInverts`).
* The tick comparison orders two deadlines correctly exactly for differences from -(2^31 + 1) to
  2^31 - 2 (`Timers.WrapExact`); at a difference of RT_TICK_MAX / 2 the later deadline passes for the
  earlier one (`Timers.WindowSharp`).
* The wrap fix-up in the load-immediate expansion of the deferring assembler is dead code
  (`Assembler.LiExact`).
* The comment in `slab.c` that a request of zero bytes is granted does not hold: `NULL` is returned, as
  `SlabHeap.Slab.Malloc` states. That all power-of-2 sized allocations are power-of-2 aligned holds up to
  4096 bytes, and above exactly if the zone or run begins at such an address (`SlabHeap.PowerAligned`); in a
  small heap the first 8192 bytes handed out are not so aligned (`SlabHeap.PowerUnaligned`).
* A waiter for an event that sets neither AND nor OR, which only a compiled-out assertion forbids, ends every
  later send: nobody behind it is served (`EventFlags.NeitherStops`). One pass of a send suffices exactly if
  nobody behind such a waiter is satisfied (`EventFlags.OnePassExact`).
* A periodic timer of period zero keeps `rt_timer_check` busy forever (`Timers.ZeroPeriodLoops`); with
  positive periods it makes no more rounds than timers are due (`Timers.RoundsBounded`).
* `rt_mp_init` writes its end mark into the pool exactly if a block fits, else in front of the pool
  (`MemPool.EndMarkInside`). `rt_memheap_alloc` of zero bytes spoils the alignment of the items exactly if it
  cuts one (`MemHeap.RequestExact`), and `rt_memheap_init` counts right exactly if two headers fit
  (`MemHeap.PoolExact`).

## Model

| member | source | states |
|---|---|---|
| SmallHeap.Heap.constructor | rt-thread/kernel/src/mem.c:232-256 | a fresh heap is one free block and heap_end, nothing is live, lfree is the first block |
| SmallHeap.SystemHeapInit | rt-thread/kernel/src/mem.c:204-256 | a heap exists exactly when the aligned range holds two headers, and then spans it |
| SmallHeap.Heap.Malloc | rt-thread/kernel/src/mem.c:272-410 | NULL exactly for size zero, or when every free block is too small but for an exact fit at heap_end; otherwise the lowest block that fits becomes live, cut behind the size, with a free block behind it, if 32 bytes more are there, else whole; all other live blocks and all user bytes stay, max_mem is the running maximum |
| SmallHeap.Heap.FindFit | rt-thread/kernel/src/mem.c:305-316 | the first-fit walk from lfree finds the lowest block the loop bound admits, or there is none |
| SmallHeap.Heap.AdvanceLfree | rt-thread/kernel/src/mem.c:380-391 | the scan leaves lfree at the lowest free block or heap_end |
| SmallHeap.Heap.FreeMem | rt-thread/kernel/src/mem.c:549-612 | NULL and foreign pointers change nothing; otherwise exactly that block stops being live, and everything the heap promises is kept |
| SmallHeap.Heap.PlugHoles | rt-thread/kernel/src/mem.c:156-194 | joining a freed block with free neighbours restores that no two neighbours are free, touches no live block and no user byte |
| SmallHeap.Heap.Realloc | rt-thread/kernel/src/mem.c:420-515 | when it fails, shrinks in place or moves, exactly; the first min(old, new) bytes survive, every other block and its bytes are untouched; max_mem is unchanged, or counts the old and the new block of a move together |
| SmallHeap.Heap.UserWrite | rt-thread/kernel/src/mem.c:404-409 | a write inside a live region destroys no header and changes no other block |
| SmallHeap.ExactFitRefused | rt-thread/kernel/src/mem.c:305-316 | on every fresh heap a request for its one free block, of exactly that size, returns NULL |
| SmallHeap.HeadersApart | rt-thread/kernel/src/mem.c:404-409 | no byte of a live region lies under any header |
| HeapBlocks.LiveRegionsDisjoint | rt-thread/kernel/src/mem.c:404-409 | live regions are 16-aligned, inside the heap and pairwise disjoint |
| HeapBlocks.EveryAddressInOneBlock | rt-thread/kernel/src/mem.c:232-256 | the headers tile the heap: every address below heap_end is in exactly one block |
| HeapBlocks.UsedPlusFree | rt-thread/kernel/src/mem.c:361-364 | used and free bytes, headers included, add up to the whole heap |
| HeapBlocks.SplitTiling | rt-thread/kernel/src/mem.c:327-348 | cutting a block keeps the tiling |
| HeapBlocks.MergeTiling | rt-thread/kernel/src/mem.c:165-192 | joining a block with its successor keeps the tiling |
| HeapBlocks.MergeForward | rt-thread/kernel/src/mem.c:165-178 | after the forward join only the border to the block before may be unjoined |
| HeapBlocks.MergeBackward | rt-thread/kernel/src/mem.c:180-192 | after the backward join no two neighbours are free |
| Scheduler.RemoveDetaches | rt-thread/kernel/src/scheduler.c:321-361 | removing a running thread takes it off every list and keeps bitmap and lists in agreement |
| Scheduler.InsertInv | rt-thread/kernel/src/scheduler.c:275-311 | inserting a thread that is on no list establishes the whole invariant |
| Scheduler.ScheduleMostUrgent | rt-thread/kernel/src/scheduler.c:194-217 | the head of the list named by the lowest set bit is ready, and no ready thread is more urgent |
| Scheduler.OneListPerThread | rt-thread/kernel/src/scheduler.c:275-361 | a thread is READY iff on the ready list of its current priority, half-done resumes and deletes apart; in any state it is on at most one list, once, and of a kind that fits its state |
| Scheduler.SuspendInv | rt-thread/kernel/src/thread.c:712-744 | suspending keeps the invariant and leaves the thread on no list |
| Scheduler.ResumeInv | rt-thread/kernel/src/thread.c:754-788 | resuming inside a locked section, as the IPC calls do, keeps the invariant and makes a suspended thread ready |
| Scheduler.ResumeBeginInv | rt-thread/kernel/src/thread.c:772-781 | the first section of a resume, which takes the thread off its queue and stops its timer, keeps the invariant |
| Scheduler.ResumeEndInv | rt-thread/kernel/src/thread.c:784-787 | the second section puts it on its ready list and keeps the invariant |
| Scheduler.TimeoutInv | rt-thread/kernel/src/thread.c:796-818 | an armed thread timer always finds its thread suspended; it wakes with ETIMEOUT, and the invariant is kept |
| Scheduler.ChangePriorityInv | rt-thread/kernel/src/thread.c:636-676 | changing a priority keeps the invariant, ready or not |
| Scheduler.StartupBeginInv | rt-thread/kernel/src/thread.c:266-297 | starting a thread, up to where its resume unlocks, keeps the invariant |
| Scheduler.ExitInv | rt-thread/kernel/src/thread.c:97-133 | exit, one locked section, keeps the invariant |
| Scheduler.CloseBeginInv | rt-thread/kernel/src/thread.c:409-424 | the first section of delete and detach, with the timer not armed, keeps the invariant |
| Scheduler.CloseEndInv | rt-thread/kernel/src/thread.c:430-442 | the last section closes the thread, queues it for the idle thread if dynamic, and keeps the invariant |
| Scheduler.YieldInv | rt-thread/kernel/src/thread.c:455-489 | yielding keeps the invariant |
| ThreadEffects.InsertDoes | rt-thread/kernel/src/scheduler.c:275-311 | the thread is READY, and last on the ready list of its current priority; everybody else keeps record and place |
| ThreadEffects.RemoveDoes | rt-thread/kernel/src/scheduler.c:321-361 | the thread is on no list; no record changes, everybody else keeps the place |
| ThreadEffects.YieldDoes | rt-thread/kernel/src/thread.c:455-489 | a ready thread that shares its list goes last on it; in any other case nothing at all changes |
| ThreadEffects.SuspendDoes | rt-thread/kernel/src/thread.c:712-744 | a ready thread is SUSPENDed, on no list, its timer off, all else in its record kept; any other thread is left as it is |
| ThreadEffects.TimeoutDoes | rt-thread/kernel/src/thread.c:796-818 | the thread is READY with error ETIMEOUT and timer off, last on the ready list of its priority and on no other list; nobody else's record or order changes |
| ThreadEffects.ResumeDoes | rt-thread/kernel/src/thread.c:754-788 | a suspended thread is READY, timer off, with the error it has, last on its ready list; any other is left as it is |
| ThreadEffects.ResumeBeginDoes | rt-thread/kernel/src/thread.c:772-781 | the thread is on no list and its timer off; state and error are kept |
| ThreadEffects.ResumeEndDoes | rt-thread/kernel/src/thread.c:784-787 | the thread is READY and last on its ready list |
| ThreadEffects.ChangePriorityDoes | rt-thread/kernel/src/thread.c:636-676 | priority and mask are the new ones; a ready thread is last on the ready list of the new priority, for any other no list changes |
| ThreadEffects.StartupBeginDoes | rt-thread/kernel/src/thread.c:266-297 | current priority and mask are those of the initial priority, the state is SUSPEND, the timer off |
| ThreadEffects.ExitDoes | rt-thread/kernel/src/thread.c:97-133 | CLOSE with timer off; first on the defunct list exactly if dynamic, else on no list |
| ThreadEffects.CloseBeginDoes | rt-thread/kernel/src/thread.c:409-424 | the thread is on no list; no record changes |
| ThreadEffects.CloseEndDoes | rt-thread/kernel/src/thread.c:430-442 | CLOSE with timer off; first on the defunct list exactly if dynamic, else on no list |
| Sections.SectionExact | rt-thread/kernel/src/thread.c:266-818 | of the sections of resume, start, delete, detach, suspend, priority change and timer expiry only the last ones of resume and delete can break the invariant, exactly if they link or close a thread that is linked; state, list membership and timer afterwards are determined |
| Sections.InterleavingExact | rt-thread/kernel/src/thread.c:266-818 | sections of any number of such calls on one thread, in any order, keep the invariant all the way exactly if none clashes, which four facts about the thread before the first of them decide |
| Sections.MeetingExact | rt-thread/kernel/src/thread.c:320-788 | a resume, start, delete or detach between whose sections any calls are made on the same thread keeps the invariant exactly if its last section does not clash, which is decided from the state before the call |
| Sections.OneCallBetween | rt-thread/kernel/src/thread.c:320-788 | for every call and every call in between: the invariant is kept exactly under the condition of a table over the state of the thread, its timer and whether it is dynamic |
| Sections.Incompatible | rt-thread/kernel/src/thread.c:320-788 | the failing pairs: delete with expiry, resume, start, priority change or delete in between; resume with resume or delete in between |
| Sections.CloseMeetsTimer | rt-thread/kernel/src/thread.c:320-348 | if the armed thread timer fires between the sections of a delete, the invariant is broken |
| Sections.ResumedTwice | rt-thread/kernel/src/thread.c:772-787 | so if the thread is resumed between the sections of a resume |
| Sections.ResumeCrossesClose | rt-thread/kernel/src/thread.c:409-787 | so if a resume and a delete cross, neither inside the other |
| Sections.StaleResume | rt-thread/kernel/src/thread.c:764-781 | if the thread has become ready since the check that is made before locking, the bitmap is right after the first section exactly if another thread shares its list |
| Stranding.SuspendLateStrands | rt-thread/kernel/src/thread.c:722-737 | if the thread has blocked since the check of a suspend, it ends suspended on no list with no timer, and the kernel invariant holds |
| Stranding.StrandedForGood | rt-thread/kernel/src/thread.c:722-737 | no run of further steps wakes such a thread, whatever is released, reset or handed off, until a resume or delete names it |
| Ipc.BlockInv | rt-thread/kernel/src/ipc.c:83-128 | suspending a thread on a wait queue keeps the invariant, at whatever place it joins |
| Ipc.WakeHeadInv | rt-thread/kernel/src/ipc.c:140-153 | waking the first waiter removes it and nobody else, and keeps the invariant |
| Ipc.WakeAllInv | rt-thread/kernel/src/ipc.c:163-191 | waking everybody empties that queue, leaves the others alone, and keeps the invariant |
| Ipc.TakeInv | rt-thread/kernel/src/ipc.c:658-793 | rt_mutex_take keeps the kernel invariant in all its branches, with the answer and the mutex of each: owner again, full, free, refused, waiting |
| Ipc.TakeFree | rt-thread/kernel/src/ipc.c:701-724 | a free mutex is always acquired: the hold overflow exit is unreachable |
| Ipc.ReleaseInv | rt-thread/kernel/src/ipc.c:805-912 | release succeeds exactly for the owner and keeps the kernel invariant |
| Ipc.ReleaseFrees | rt-thread/kernel/src/ipc.c:884-901 | with nobody waiting the mutex becomes free: the value overflow exit is unreachable |
| Ipc.ReleaseHandsOff | rt-thread/kernel/src/ipc.c:853-882 | with waiters the first of them owns the mutex: the hand-off overflow exit is unreachable |
| Ipc.SemTakeInv | rt-thread/kernel/src/ipc.c:326-409 | a unit less and OK, or none and ETIMEOUT or waiting; the kernel invariant is kept, and with it that units are there only with nobody waiting |
| Ipc.SemReleaseInv | rt-thread/kernel/src/ipc.c:433-481 | with waiters the value stays, else a unit more or FULL; the kernel invariant is kept |
| Ipc.SemResetInv | rt-thread/kernel/src/ipc.c:492-521 | resetting keeps the kernel invariant and starts a new balance |
| KernelRuns.StepKept | rt-thread/kernel/src/ipc.c:83-912 | every allowed step of threads, semaphores and mutexes, the sections of resume, startup, delete and detach each by themselves, keeps the kernel invariant |
| KernelRuns.EveryRunSafe | rt-thread/kernel/src/ipc.c:83-912 | in every run from boot: one owner per mutex, owner null iff value 1 iff hold 0 and then no waiters, units only with nobody waiting, hold and value in agreement with the history kept (`Accounts` counts them by answers), list and bitmap invariants |
| KernelRuns.OnlyOwnerReleases | rt-thread/kernel/src/ipc.c:830-912 | only the owner's own last release changes who owns a held mutex |
| KernelRuns.BootInv | rt-thread/kernel/src/scheduler.c:123-151 | the initial state has the ready lists and the defunct list, all empty, and no thread or object; it meets the invariant |
| IpcEffects.BlockDoes | rt-thread/kernel/src/ipc.c:83-128 | SUSPEND, on that wait queue: last, or by priority behind all that are as urgent and before the first that is less; the timer is armed exactly if the wait is timed, the error is kept |
| IpcEffects.SleepDoes | rt-thread/kernel/src/thread.c:498-527 | SUSPEND on no list, with the timer armed |
| IpcEffects.ReapDoes | rt-thread/kernel/src/idle.c:141-191 | the first defunct thread, and nobody else, is forgotten |
| IpcEffects.WakeHeadDoes | rt-thread/kernel/src/ipc.c:140-153 | the first waiter is READY, timer off, with the error it has, last on its ready list; nobody else changes |
| IpcEffects.WakeAllDoes | rt-thread/kernel/src/ipc.c:163-191 | every waiter is READY with ERROR, in the order of the queue behind those that were ready at its priority; the queue is empty, nobody else changes |
| IpcEffects.TakeAgainDoes | rt-thread/kernel/src/ipc.c:685-699 | the owner's take below 255 holds is answered OK, hold is one more, and of all else only the caller's error changes; at 255 it is answered FULL and nothing is taken |
| IpcEffects.TakeFreeDoes | rt-thread/kernel/src/ipc.c:701-724 | answered OK; the caller owns the mutex once, its current priority is noted, the value is 0 |
| IpcEffects.TakeRefusedDoes | rt-thread/kernel/src/ipc.c:725-735 | another's mutex and no time: answered ETIMEOUT, which is the caller's error; nothing else changes |
| IpcEffects.TakeWaitsDoes | rt-thread/kernel/src/ipc.c:736-775 | another's mutex and time: the owner is raised to the caller's priority if that is more urgent, the caller waits with error EOK; the mutex does not change |
| IpcEffects.ReleaseRefusedDoes | rt-thread/kernel/src/ipc.c:829-838 | not the owner: answered ERROR, which is the caller's error; nothing else changes |
| IpcEffects.ReleaseOneDoes | rt-thread/kernel/src/ipc.c:840-843 | one of several holds: answered OK, hold is one less, nothing else changes |
| IpcEffects.ReleaseLastDoes | rt-thread/kernel/src/ipc.c:843-901 | the last hold with nobody waiting: answered OK, the mutex is free, the caller has the priority noted when it took it |
| IpcEffects.ReleasePassesDoes | rt-thread/kernel/src/ipc.c:843-882 | the last hold with waiters: so, and the first waiter owns the mutex once, its priority is noted, and it is READY with the error it has |
| IpcEffects.SemTakesDoes | rt-thread/kernel/src/ipc.c:345-352 | with units there: answered OK, one unit less, nothing else changes |
| IpcEffects.SemRefusedDoes | rt-thread/kernel/src/ipc.c:355-362 | no unit and no time: answered ETIMEOUT, nothing changes at all |
| IpcEffects.SemWaitsDoes | rt-thread/kernel/src/ipc.c:363-401 | no unit and time: the caller waits with error EOK |
| IpcEffects.SemPassesDoes | rt-thread/kernel/src/ipc.c:446-459 | with waiters: answered OK, the first waiter is READY with the error it has, the value stays |
| IpcEffects.SemReleasesDoes | rt-thread/kernel/src/ipc.c:460-472 | without waiters: answered OK and one unit more, or at 65535 answered FULL and nothing changes |
| IpcEffects.SemResetDoes | rt-thread/kernel/src/ipc.c:492-521 | everybody goes on with ERROR, the value is the given one cut to 16 bits |
| IpcEffects.NewDoes | rt-thread/kernel/src/ipc.c:538-558 | a new mutex is free, a new semaphore has the units given, a new thread is INIT at its priority, a new queue is empty; nothing else changes |
| IpcEffects.ThreadStepDoes | rt-thread/kernel/src/thread.c:97-818 | each step of the thread layer does to records and lists what it is named after |
| Accounts.HoldStep | rt-thread/kernel/src/ipc.c:658-912 | whatever step anybody takes, a thread's holds of a mutex change by its takes answered OK, its releases answered OK, and its being called by a release |
| Accounts.HoldAccount | rt-thread/kernel/src/ipc.c:658-912 | in every run, counted by steps and answers alone: the owner's hold is its takes answered OK, plus the hand-offs to it, less its releases answered OK, and for everybody else these balance out |
| Accounts.UnitStep | rt-thread/kernel/src/ipc.c:326-521 | so for the units of a semaphore, with the waiters that a release wakes |
| Accounts.UnitAccount | rt-thread/kernel/src/ipc.c:326-521 | in every run, counted by steps and answers alone: the value is what the semaphore was last set to, plus releases answered OK, less takes answered OK at once, less waiters woken by releases |
| Wakeups.StepAside | rt-thread/kernel/src/ipc.c:83-912 | a step that neither names a thread nor wakes it changes neither its state, error and timer nor the queues it waits in |
| Wakeups.WaiterStep | rt-thread/kernel/src/ipc.c:83-912 | a waiter stays with the same error, or leaves its queue by expiry, release, reset, or being resumed or deleted by hand, with the error that goes with it |
| Wakeups.GoesOn | rt-thread/kernel/src/ipc.c:326-793 | a thread that has blocked in a take, waits through any run and then stops waiting goes on with EOK exactly if it was given what it waited for, and then owns the mutex, with ETIMEOUT exactly if its timer fired, with ERROR exactly if the object was reset |
| Wakeups.ErrorStays | rt-thread/kernel/src/ipc.c:326-793 | until it makes a call itself a thread that waits for nothing keeps its error, whatever others do |
| PriorityInheritance.JoinOrdered | rt-thread/kernel/src/ipc.c:96-121 | joining at the place the loop finds keeps a queue sorted by priority, first come first among equals |
| PriorityInheritance.StepPi | rt-thread/kernel/src/ipc.c:658-912 | every allowed step keeps queues ordered, owners at least as urgent as their waiters, one mutex per thread |
| PriorityInheritance.NoInversion | rt-thread/kernel/src/ipc.c:733-752 | in every run the owner of a priority mutex is at least as urgent as all its waiters, hand-off included, and its queue is ordered |
| PriorityInheritance.ReleaseRestores | rt-thread/kernel/src/ipc.c:843-880 | in every run the last release gives the owner the priority it had at acquisition and passes the mutex to the head of the queue |
| PriorityInheritance.BoostsNeverStick | rt-thread/kernel/src/ipc.c:843-851 | in every run a thread that holds no mutex is at its own priority |
| PriorityInheritance.NestedInverts | rt-thread/kernel/src/ipc.c:658-912 | from any state: a thread takes two free mutexes, a more urgent one waits for the first, the second is released; then the owner of the first is less urgent than its waiter |
| PriorityInheritance.NestedReleaseExact | rt-thread/kernel/src/ipc.c:843-851 | a thread that holds several mutexes stays, on releasing one, at least as urgent as the waiters of another exactly if the priority saved in the released one is |
| PriorityInheritance.HandOffExact | rt-thread/kernel/src/ipc.c:853-882 | with either queue order, the new owner is at least as urgent as the remaining waiters exactly if it was before the hand-off |
| PriorityInheritance.ChainedTakeExact | rt-thread/kernel/src/ipc.c:733-752 | if the owner that a take boosts waits for another mutex, the owner of that one stays at least as urgent as its waiters exactly if it is at least as urgent as the taker; the queue is not reordered |
| PriorityInheritance.ChainInverts | rt-thread/kernel/src/ipc.c:658-793 | from any state: four takes by three threads end with an owner less urgent than a thread that waits for it |
| KernelObject.RtKernel.constructor | rt-thread/kernel/src/scheduler.c:123-151 | rings at any distinct addresses, read as sequences, are the boot state |
| KernelObject.RtKernel.Run | rt-thread/kernel/src/ipc.c:83-912 | any allowed step, carried out on records and rings of pointers, does to their sequence view what the state machine does, and keeps the kernel invariant |
| KernelObject.RtKernel.InsertThread | rt-thread/kernel/src/scheduler.c:275-311 | the pointer writes put the thread last in the sequence of its ready list, and the bit is set: the step of the state machine |
| KernelObject.RtKernel.RemoveThread | rt-thread/kernel/src/scheduler.c:321-361 | the pointer writes take the thread out of whatever sequence holds it, and clear the bit of an emptied ready list; afterwards it is on no list |
| KernelObject.RtKernel.Schedule | rt-thread/kernel/src/scheduler.c:194-217 | the thread chosen is ready, at the head of its list, and most urgent |
| KernelObject.RtKernel.ThreadSuspend | rt-thread/kernel/src/thread.c:712-744 | succeeds exactly for a ready thread, which is then on no ring; on sequences it is the step of the state machine |
| KernelObject.RtKernel.ThreadResume | rt-thread/kernel/src/thread.c:754-788 | succeeds exactly for a suspended thread, moved from its wait ring to its ready ring; on sequences it is the step of the state machine |
| KernelObject.RtKernel.ResumeBegin | rt-thread/kernel/src/thread.c:772-781 | the first section of a resume on the rings is that of the state machine |
| KernelObject.RtKernel.ResumeEnd | rt-thread/kernel/src/thread.c:784-787 | the second section of a resume on the rings is that of the state machine |
| KernelObject.RtKernel.ThreadTimeout | rt-thread/kernel/src/thread.c:796-818 | the thread is READY with ETIMEOUT and timer off; on the rings it is the step of the state machine |
| KernelObject.RtKernel.ThreadSetPriority | rt-thread/kernel/src/thread.c:636-676 | a ready thread moves from ring to ring, another only changes its record; on sequences it is the step of the state machine |
| KernelObject.RtKernel.StartupBegin | rt-thread/kernel/src/thread.c:266-297 | starting on the rings is the step of the state machine |
| KernelObject.RtKernel.ThreadExit | rt-thread/kernel/src/thread.c:97-133 | off every ring and, if dynamic, first on the defunct ring; on sequences it is the step of the state machine |
| KernelObject.RtKernel.CloseBegin | rt-thread/kernel/src/thread.c:409-424 | the first section of delete and detach on the rings is that of the state machine |
| KernelObject.RtKernel.CloseEnd | rt-thread/kernel/src/thread.c:430-442 | the last section of delete and detach on the rings is that of the state machine |
| KernelObject.RtKernel.ThreadYield | rt-thread/kernel/src/thread.c:455-489 | comparing next with prev tells whether the thread shares its list; if so it goes last, as in the state machine |
| KernelObject.RtKernel.ListSuspend | rt-thread/kernel/src/ipc.c:83-128 | the walk along the ring stops at the first less urgent waiter, and the thread is linked before it: the blocking step of the state machine |
| KernelObject.RtKernel.ListResume | rt-thread/kernel/src/ipc.c:140-153 | the first node of the ring is the first waiter, and resuming it is the step of the state machine |
| KernelObject.RtKernel.ListResumeAll | rt-thread/kernel/src/ipc.c:163-191 | the loop wakes everybody with an error and ends with an empty ring |
| KernelObject.RtKernel.TakeMutex | rt-thread/kernel/src/ipc.c:658-770 | answer, owner, hold and value branch by branch; result and new state are those of the state machine, the boost of the owner on the rings included; the dead overflow branch is absent |
| KernelObject.RtKernel.ReleaseMutex | rt-thread/kernel/src/ipc.c:805-912 | result and new state are those of the state machine, restored priority and hand-off on the rings included; the dead overflow branches are absent |
| KernelObject.RtKernel.TakeSem | rt-thread/kernel/src/ipc.c:326-409 | a unit less and OK, or none and ETIMEOUT or waiting; result and new state are those of the state machine |
| KernelObject.RtKernel.ReleaseSem | rt-thread/kernel/src/ipc.c:433-481 | result and new state are those of the state machine |
| KernelObject.RtKernel.ResetSem | rt-thread/kernel/src/ipc.c:492-521 | the new state is that of the state machine |
| ThreadLists.ListTable.InsertBefore | rt-thread/kernel/include/rtservice.h:73-80 | linking a thread before the node that follows the k-th inserts it at place k of that named list and of no other |
| ThreadLists.ListTable.Unlink | rt-thread/kernel/include/rtservice.h:86-92 | unlinking a thread, without naming its list, removes it from whichever named list it is on |
| ThreadLists.ListTable.FindPlace | rt-thread/kernel/src/ipc.c:100-118 | the walk finds the node before which a thread of that priority belongs |
| Queues.WithoutAt | rt-thread/kernel/include/rtservice.h:86-92 | unlinking takes exactly that one out of the line; those before and behind keep their order |
| RtList.RingInsert | rt-thread/kernel/include/rtservice.h:58-65 | the four pointer writes turn the ring into the ring with the node inserted |
| RtList.RingRemove | rt-thread/kernel/include/rtservice.h:86-92 | the pointer writes turn the ring into the ring without the node |
| RtList.ListMemory.InitHead | rt-thread/kernel/include/rtservice.h:47-50 | a new empty list, all others unchanged |
| RtList.ListMemory.InitNode | rt-thread/kernel/include/rtservice.h:47-50 | a node on no list, all lists unchanged |
| RtList.ListMemory.InsertAfter | rt-thread/kernel/include/rtservice.h:58-65 | exactly that list gains the node at exactly that place |
| RtList.ListMemory.InsertBefore | rt-thread/kernel/include/rtservice.h:73-80 | exactly that list gains the node at exactly that place |
| RtList.ListMemory.Remove | rt-thread/kernel/include/rtservice.h:86-92 | whichever list the node is on loses it, no other list changes, and a node on no list changes nothing |
| RtList.ListMemory.Shares | rt-thread/kernel/src/thread.c:467-468 | next and prev of a linked node differ exactly if the list has another member |
| RtList.ListMemory.IsEmpty | rt-thread/kernel/include/rtservice.h:98-101 | true exactly for an empty list |
| RtList.ListMemory.Len | rt-thread/kernel/include/rtservice.h:107-119 | the number of members |
| Timers.WrapExact | rt-thread/kernel/src/timer.c:366-373 | within one turn of the counter the wrapped order is the true one exactly in the stated range |
| Timers.WindowExact | rt-thread/kernel/src/timer.c:366-373 | in a window shorter than RT_TICK_MAX / 2 both wrapped comparisons are the true ones |
| Timers.WindowSharp | rt-thread/kernel/src/timer.c:366-373 | in a window of RT_TICK_MAX / 2 they are not |
| Timers.StartFifo | rt-thread/kernel/src/timer.c:350-385 | a started timer goes behind exactly those that are not later, so ties fire in the order of starting |
| Timers.StartOk | rt-thread/kernel/src/timer.c:311-404 | starting keeps order, flags and single list membership |
| Timers.FireTheorem | rt-thread/kernel/src/timer.c:538-583 | a fired timer is armed again exactly if its callback's last word on it is a start, or it is periodic and the callback leaves it alone; others are as the callback leaves them |
| Timers.CheckLeavesNoneLate | rt-thread/kernel/src/timer.c:522-589 | the check ends, whatever the callbacks do, with no armed timer due and the list in order |
| Timers.FiredInOrder | rt-thread/kernel/src/timer.c:522-589 | only timers due at the start fire, once each, in non-decreasing order of deadline |
| Timers.LateFires | rt-thread/kernel/src/timer.c:522-589 | every timer due at the start fires, unless an earlier callback stopped, detached or restarted it |
| Timers.FireShrinks | rt-thread/kernel/src/timer.c:522-589 | each firing leaves fewer timers due |
| Timers.RoundsBounded | rt-thread/kernel/src/timer.c:522-589 | with positive periods the check makes at most as many rounds as timers are due |
| Timers.ZeroPeriodLoops | rt-thread/kernel/src/timer.c:522-589 | with a due periodic timer of period zero, which no callback stops or detaches for good, the check makes more rounds than any number |
| TimerList.SubInserted | rt-thread/kernel/src/timer.c:387-402 | inserting into the lower row alone or into both keeps the upper row a subsequence of the lower |
| TimerList.TimerTable.constructor | rt-thread/kernel/src/timer.c:721-730 | any number of empty rows |
| TimerList.TimerTable.Init | rt-thread/kernel/src/timer.c:86-111 | a new deactivated timer on no list |
| TimerList.TimerTable.Remove | rt-thread/kernel/src/timer.c:136-144 | the timer leaves every row and the temporary list |
| TimerList.TimerTable.FindPlaces | rt-thread/kernel/src/timer.c:348-385 | the search, each row from where the row above stopped, finds the place of the true deadline in every row |
| TimerList.TimerTable.Start | rt-thread/kernel/src/timer.c:311-404 | on wrapped ticks, for any number of levels, the result is that of starting on true deadlines, whenever the armed deadlines and the new one lie in one window of RT_TICK_MAX / 2; every row stays a subsequence of the row below |
| TimerList.TimerTable.Stop | rt-thread/kernel/src/timer.c:433-456 | an error and no change unless activated, else the timer is on no list |
| TimerList.TimerTable.Detach | rt-thread/kernel/src/timer.c:216-237 | the timer is on no list and deactivated |
| TimerList.TimerTable.Check | rt-thread/kernel/src/timer.c:522-589 | the loop on wrapped ticks fires and leaves what the specification on true deadlines says, and terminates |
| WaitQueues.ServedRuns | rt-thread/kernel/src/mempool.c:315-365 | a resumed or intruding thread that takes a unit leaves no unclaimed unit behind a waiter |
| WaitQueues.ServedGive | rt-thread/kernel/src/mempool.c:413-440 | adding a unit and resuming one waiter keeps every unit claimed while somebody waits |
| MessageQueue.NoNodeLost | rt-thread/kernel/src/ipc.c:1857-1868 | every node is queued, free or in somebody's hands |
| MessageQueue.RtMessageQueue.constructor | rt-thread/kernel/src/ipc.c:1824-1875 | as many nodes as the pool holds, counted in 16 bits, all free and nothing queued |
| MessageQueue.RtMessageQueue.SendBegin | rt-thread/kernel/src/ipc.c:2014-2119 | result by size, free list and timeout; on success one free node is in the sender's hands and the queue is unchanged |
| MessageQueue.RtMessageQueue.SendEnd | rt-thread/kernel/src/ipc.c:2121-2175 | the message goes last, the overflow exit is unreachable, and a waiting receiver is resumed |
| MessageQueue.RtMessageQueue.UrgentEnd | rt-thread/kernel/src/ipc.c:2235-2277 | the message goes first, the overflow exit is unreachable, and a waiting receiver is resumed |
| MessageQueue.RtMessageQueue.RecvBegin | rt-thread/kernel/src/ipc.c:2292-2409 | result by queue and timeout; on success the first message is in the receiver's hands |
| MessageQueue.RtMessageQueue.RecvEnd | rt-thread/kernel/src/ipc.c:2411-2442 | the bytes delivered are those of the message taken, whatever ran between; its node is free and a waiting sender is resumed |
| MessageQueue.RtMessageQueue.Expire | rt-thread/kernel/src/thread.c:796-818 | a timed-out waiter leaves, and no wake-up is lost |
| MessageQueue.RtMessageQueue.Reset | rt-thread/kernel/src/ipc.c:2451-2500 | all waiters leave, all messages return to the free list, nodes in hands stay there |
| Mailbox.RtMailbox.constructor | rt-thread/kernel/src/ipc.c:1332-1360 | an empty mailbox |
| Mailbox.RtMailbox.Send | rt-thread/kernel/src/ipc.c:1476-1603 | the ring behaves as a bounded FIFO; results by fill and timeout; the overflow exit is unreachable; no wake-up is lost |
| Mailbox.RtMailbox.Recv | rt-thread/kernel/src/ipc.c:1631-1758 | the first mail and exactly that leaves the FIFO; no wake-up is lost |
| Mailbox.RtMailbox.Expire | rt-thread/kernel/src/thread.c:796-818 | a timed-out waiter leaves, and no wake-up is lost |
| Mailbox.RtMailbox.Reset | rt-thread/kernel/src/ipc.c:1770-1800 | empty, and nobody waits |
| MemPool.RtMemPool.constructor | rt-thread/kernel/src/mempool.c:77-123 | as many blocks as fit the aligned pool, none included, all of them on the chain |
| MemPool.EndMarkInside | rt-thread/kernel/src/mempool.c:112-119 | in 32-bit arithmetic the end mark is written inside the pool exactly if a block fits, and else one block in front of it |
| MemPool.RtMemPool.Alloc | rt-thread/kernel/src/mempool.c:299-384 | a block is handed out exactly if one is free, it was not out before, and no wake-up is lost |
| MemPool.RtMemPool.Free | rt-thread/kernel/src/mempool.c:410-446 | exactly that block returns, and a waiter is resumed |
| MemPool.FreeBlock | rt-thread/kernel/src/mempool.c:394-446 | the word before a block that is out leads to the pool it came from, to which exactly that block returns |
| MemPool.PayloadsApart | rt-thread/kernel/src/mempool.c:106-118 | payloads lie inside the pool and meet neither each other nor a link word |
| EventFlags.SatisfiedBits | rt-thread/kernel/src/ipc.c:1089-1107 | AND asks for every bit, OR for some bit, neither is never satisfied |
| EventFlags.TryOne | rt-thread/kernel/src/ipc.c:1086-1132 | one waiter: granted exactly if satisfied, with the bits there are of those it asks for, which are cleared if it says so |
| EventFlags.TryAllSplit | rt-thread/kernel/src/ipc.c:1079-1137 | a pass over a longer queue is a pass over its front and then one over the rest with the bits that leaves, in order |
| EventFlags.GrantIsRecv | rt-thread/kernel/src/ipc.c:1090-1133 | a blocked receive reports and clears exactly what an immediate one would |
| EventFlags.OnePassExact | rt-thread/kernel/src/ipc.c:1079-1137 | after one pass nobody left in the queue is satisfied, although waiters cleared bits on the way, exactly if nobody behind the first waiter with neither flag is |
| EventFlags.OnePassSuffices | rt-thread/kernel/src/ipc.c:1079-1137 | with AND or OR set by all, one pass suffices |
| EventFlags.NeitherStops | rt-thread/kernel/src/ipc.c:1108-1114 | a waiter with neither flag is never served, and whatever is sent nobody behind it is |
| EventFlags.BitsConserved | rt-thread/kernel/src/ipc.c:1079-1137 | every bit is still set, or was received and cleared by a granted waiter |
| EventFlags.WordOps | rt-thread/kernel/src/ipc.c:1073-1133 | or, and, and-not of 32-bit words are union, intersection and difference of the sets of their bits |
| EventFlags.SameBits | rt-thread/kernel/src/ipc.c:1073-1133 | words with the same set of bits are equal, so comparisons of words are comparisons of sets |
| EventFlags.RtEvent.Send | rt-thread/kernel/src/ipc.c:1054-1143 | the walk grants, in queue order, what immediate receives in turn would get; EINVAL exactly if someone waits with neither flag, where it ends |
| EventFlags.RtEvent.Recv | rt-thread/kernel/src/ipc.c:1158-1276 | results by set, option and timeout, for every option; between calls no queued waiter is satisfied unless someone has waited with neither flag |
| EventFlags.RtEvent.Expire | rt-thread/kernel/src/thread.c:796-818 | a timed-out waiter leaves, and still no queued waiter is satisfied |
| EventFlags.RtEvent.Reset | rt-thread/kernel/src/ipc.c:1288-1316 | no bits, no waiters |
| MemHeapBlocks.BooksAreRight | rt-thread/kernel/src/memheap.c:212-228 | the count kept equals the sum of the payloads of the free items |
| MemHeapBlocks.PayloadsApart | rt-thread/kernel/src/memheap.c:268-268 | payloads are aligned, inside the pool, and meet neither each other nor any header |
| MemHeapBlocks.CutLaid | rt-thread/kernel/src/memheap.c:180-200 | cutting an item keeps the tiling, both link directions and the tailer's prev included |
| MemHeapBlocks.JoinLaid | rt-thread/kernel/src/memheap.c:535-575 | joining keeps the tiling, both link directions and the tailer's prev included |
| MemHeap.RtMemHeap.constructor | rt-thread/kernel/src/memheap.c:50-121 | one free item and the tailer, counters as documented, for every pool that holds two headers |
| MemHeap.RtMemHeap.FindFit | rt-thread/kernel/src/memheap.c:160-172 | the walk finds the first item on the free list that is large enough, and none exactly if no free item is |
| MemHeap.RtMemHeap.Alloc | rt-thread/kernel/src/memheap.c:136-279 | NULL exactly if no free item is large enough or the request is not below what is available; otherwise the first fit becomes used: cut behind the size, with a free item first on the free list, if 44 bytes more are there, at the cost of the size and 32 bytes, else whole at its own cost; tiling, free list, joined neighbours and counters are kept, and so is every byte of the used items; max_used_size is the running maximum |
| MemHeap.RequestExact | rt-thread/kernel/src/memheap.c:145-200 | handing out a free item keeps the items aligned and laid out exactly if the request is not for zero bytes or the item is not cut |
| MemHeap.PoolExact | rt-thread/kernel/src/memheap.c:62-64 | in 32-bit arithmetic the available bytes of a new pool are within the pool exactly if two headers fit |
| MemHeap.ExactFitRefused | rt-thread/kernel/src/memheap.c:153-168 | on every fresh pool a request for all that is available, which its one free item offers, returns NULL |
| MemHeap.RtMemHeap.Free | rt-thread/kernel/src/memheap.c:491-591 | exactly that item stops being used and goes first on the free list, unless it joins the free item before it; a free item behind it leaves the list; everything is kept, the bytes of all other used items included |
| MemHeap.RtMemHeap.Realloc | rt-thread/kernel/src/memheap.c:281-489 | size zero frees, NULL allocates; otherwise the item stays, shrinks with joining, grows in place or moves, each under its exact condition in bytes and with the exact free list; the first min(old, new) bytes survive and every other used item keeps its bytes; max_used_size is unchanged, the running maximum, or counts both items of a move; everything is kept |
| MemHeap.HeaderSpares | rt-thread/kernel/src/memheap.c:180-228 | a header written at an item of the layout before or after an operation lies under no payload byte used both times |
| Memory.CopyWithin | rt-thread/kernel/src/memheap.c:409-409 | the copy of a move changes the destination to the source's bytes and nothing else |
| MemHeap.RtMemHeap.Grow | rt-thread/kernel/src/memheap.c:325-390 | the border to the free item behind moves up by the difference |
| MemHeap.RtMemHeap.Shrink | rt-thread/kernel/src/memheap.c:411-488 | the end is cut off and joined with a free item behind it |
| SlabPages.AllocLowest | rt-thread/kernel/src/slab.c:244-262 | if any pages fit, the allocation succeeds at the lowest of them |
| SlabPages.AllocExact | rt-thread/kernel/src/slab.c:244-262 | exactly the pages handed out leave the free set, and the list stays ordered and coalesced |
| SlabPages.FreeExact | rt-thread/kernel/src/slab.c:284-316 | exactly the pages given back join the free set, and the list stays ordered and coalesced |
| SlabPages.AllocFree | rt-thread/kernel/src/slab.c:234-320 | freeing what was allocated restores the free set |
| SlabPages.PagesCounted | rt-thread/kernel/src/slab.c:234-320 | the lengths on the list add up to the number of free pages |
| SlabPages.PageList.constructor | rt-thread/kernel/src/slab.c:325-332 | all pages free |
| SlabPages.PageList.Alloc | rt-thread/kernel/src/slab.c:234-268 | refines taking the lowest fitting interval out of a set; fails exactly if no interval fits; free and used pages are conserved |
| SlabPages.PageList.Free | rt-thread/kernel/src/slab.c:270-320 | refines adding exactly that interval to a set; free and used pages are conserved |
| SlabZones.ZoneBounds | rt-thread/kernel/src/slab.c:399-457 | index within 0 to 71, never rounded down, less than an eighth wasted from 128 bytes on |
| SlabZones.ZoneTable | rt-thread/kernel/src/slab.c:399-457 | range by range: the size is the least multiple of 8, 16, 32, 64, 128, 256, 512 or 1024 bytes that is not smaller, and the index is the one of the table |
| SlabZones.FirstChunkLeast | rt-thread/kernel/src/slab.c:626-637 | chunks begin at the first multiple of their size behind the 36 bytes of the header if it is a power of two, else at byte 40 |
| SlabZones.NewZoneFull | rt-thread/kernel/src/slab.c:639-644 | a new zone has as many chunks as fit |
| SlabZones.ZoneMonotone | rt-thread/kernel/src/slab.c:399-457 | index and size are monotone, and equal indices mean equal sizes |
| SlabZones.IndexGivesSize | rt-thread/kernel/src/slab.c:532-557 | the index alone determines the chunk size |
| SlabZones.ZoneIdempotent | rt-thread/kernel/src/slab.c:713-722 | rounding a rounded size changes nothing |
| SlabZones.NewZoneOk | rt-thread/kernel/src/slab.c:626-646 | a new zone holds at least three chunks, hands out the first, and its counts are exact |
| SlabZones.TakeOk | rt-thread/kernel/src/slab.c:541-566 | the free-chunk list is not empty when it is popped; the chunk was not in use, and the counts stay exact |
| SlabZones.GiveOk | rt-thread/kernel/src/slab.c:825-837 | exactly that chunk stops being in use, and the counts stay exact |
| SlabZones.WhollyFree | rt-thread/kernel/src/slab.c:849-850 | nfree equals nmax exactly when no chunk is in use |
| SlabZones.ChunkInside | rt-thread/kernel/src/slab.c:633-642 | every chunk in use lies behind the zone header, inside the zone |
| SlabZones.MarkZone | rt-thread/kernel/src/slab.c:613-620 | every page of the zone records its distance from the first, no other entry changes |
| SlabZones.LookupFindsZone | rt-thread/kernel/src/slab.c:820-822 | the page table leads from every chunk back to its zone |
| SlabHeap.Slab.constructor | rt-thread/kernel/src/slab.c:342-393 | exactly the first pages, a word for each page of the heap, are taken, by the usage table; the others are free, nothing is handed out, there is no zone; the zone size is the largest of 32K, 64K and 128K below a thousandth of the heap, or 32K |
| SlabHeap.Slab.Malloc | rt-thread/kernel/src/slab.c:476-665 | NULL exactly for size zero, when no pages fit a large request, or when the class has no zone with a chunk, none is spare and no pages fit one; otherwise one new block of the rounded size, no other block changes; every zone stays marked, every page in use belongs to one area; a large request gets the lowest pages that fit; a small one comes from the first zone of its class, never-used chunks first, else from the first spare zone, else from the lowest pages that fit |
| SlabHeap.Slab.FreeMem | rt-thread/kernel/src/slab.c:766-899 | exactly that block goes: pages of a run become free; a chunk goes first on the free list of its zone, which rejoins its chain if it had left; a zone that is wholly free and not the only one of its class with chunks retires to the spare ones, or gives its pages back if two are spare; all the slab promises is kept |
| SlabHeap.Lookup | rt-thread/kernel/src/slab.c:790-823 | in every state of the slab the usage table leads from every chunk handed out to its own zone, and from every large run to its own length |
| SlabHeap.BlocksApart | rt-thread/kernel/src/slab.c:476-665 | blocks handed out never overlap, whatever zones or runs they are in |
| SlabHeap.AreasApart | rt-thread/kernel/src/slab.c:588-621 | zones, spare zones, large runs and the table have no page in common |
| SlabHeap.TakeFromZoneGood | rt-thread/kernel/src/slab.c:537-575 | the first zone of a chain has a chunk that nobody uses; with its last chunk it leaves the chain |
| SlabHeap.UseSpareGood | rt-thread/kernel/src/slab.c:588-650 | a spare zone of any former class gets chunks of another, and its marking still leads to it |
| SlabHeap.RetireGood | rt-thread/kernel/src/slab.c:849-869 | a zone without chunks in use leaves its chain and becomes spare without touching a block |
| SlabHeap.ReleaseGood | rt-thread/kernel/src/slab.c:871-895 | giving the pages of a spare zone back and marking them free disturbs no other area |
| SlabHeap.PowerAligned | rt-thread/kernel/src/slab.c:150-151 | every block is 8-aligned; one whose size is a power of two is aligned to it up to 4096 bytes, and above exactly if its zone or run begins at such an address |
| SlabHeap.PowerUnaligned | rt-thread/kernel/src/slab.c:492-520 | in every heap of 3 to 1024 pages at a multiple of 8192 the first request for 8192 bytes gets an address that is not one |
| SlabHeap.GrantedEnough | rt-thread/kernel/src/slab.c:491-534 | a block is never smaller than the request |
| Rv32.RoundTrip | vivado/tests/tools/gen_perf_coe.py:35-94 | every encodable instruction, whatever its registers and immediates, decodes to itself |
| Rv32.DecodeB | vivado/tests/tools/gen_perf_coe.py:52-61 | the scattered branch immediate is recovered for every even offset in range |
| Rv32.DecodeJ | vivado/tests/tools/gen_perf_coe.py:66-74 | the scattered jump immediate is recovered for every even offset in range |
| Rv32.WordsOfOps | vivado/tests/tools/gen_perf_coe.py:35-94 | the constant bits of each register, immediate and upper-immediate instruction, for all fields |
| Rv32.WordsOfMoves | vivado/tests/tools/gen_perf_coe.py:45-94 | so for load, store and jump |
| Rv32.WordsOfBranches | vivado/tests/tools/gen_perf_coe.py:52-94 | so for the four branches |
| Rv32Bits.BitOrJoins | vivado/tests/tools/gen_perf_coe.py:35-74 | the bitwise or of a field above bit k and one below it is their sum |
| Rv32Bits.OrR | vivado/tests/tools/gen_perf_coe.py:35-38 | the or of the shifted fields of an R word is the sum that the model encodes |
| Rv32Bits.OrI | vivado/tests/tools/gen_perf_coe.py:40-43 | so for I words |
| Rv32Bits.OrS | vivado/tests/tools/gen_perf_coe.py:45-50 | so for S words |
| Rv32Bits.OrB | vivado/tests/tools/gen_perf_coe.py:52-61 | so for B words |
| Rv32Bits.OrU | vivado/tests/tools/gen_perf_coe.py:63-64 | so for U words |
| Rv32Bits.OrJ | vivado/tests/tools/gen_perf_coe.py:66-74 | so for J words |
| Assembler.BitwiseAt | vivado/tests/tools/gen_perf_coe.py:76-94 | each bit of an and, or, xor is that of the operands' bits |
| Assembler.LiExact | vivado/tests/tools/gen_perf_coe.py:115-131 | the two parts make up the value, the fix-up is dead and the assertion holds |
| Assembler.LiSame | vivado/tests/tools/gen_t18_m_ext_basic_coe.py:176-186 | both assemblers split a value alike |
| Assembler.Asm.Lbl | vivado/tests/tools/gen_perf_coe.py:108-110 | defines the label here unless it is defined |
| Assembler.Asm.EmitWord | vivado/tests/tools/gen_perf_coe.py:112-113 | the program grows by that word, whatever it is |
| AssemblerMeaning.EncodedIsPlain | vivado/tests/tools/gen_perf_coe.py:35-94 | a word made by the encoder of an instruction other than a branch or jump executes as that instruction |
| Assembler.Asm.LoadImmediate | vivado/tests/tools/gen_perf_coe.py:115-131 | the program grows by that load |
| Assembler.Asm.Br | vivado/tests/tools/gen_perf_coe.py:133-139 | the program grows by a branch to a label that may come later |
| Assembler.Asm.JumpAndLink | vivado/tests/tools/gen_perf_coe.py:149-155 | the program grows by a jump to a label that may come later |
| Assembler.Asm.Assemble | vivado/tests/tools/gen_perf_coe.py:159-168 | the words of the whole program, or a word that cannot be resolved |
| AssemblerMeaning.StmtCorrect | vivado/tests/tools/gen_perf_coe.py:99-168 | each statement's words take the machine from the image of a state to the image of the next |
| AssemblerMeaning.RunCorrect | vivado/tests/tools/gen_perf_coe.py:99-168 | for every program whose emitted words are instructions other than branches and jumps, and any number of statements, executing the words computes what the program with labels says |
| AssemblerMeaning.EveryMachineStep | vivado/tests/tools/gen_perf_coe.py:99-168 | conversely, after any number of steps the machine is inside a statement that the program reaches |
| AssemblerMeaning.EndStops | vivado/tests/tools/gen_perf_coe.py:159-168 | at the end of the program the machine has left the code |
| PatchAssembler.SameBranch | vivado/tests/tools/gen_t18_m_ext_basic_coe.py:69-83 | both assemblers accept the same branch offsets and encode them alike |
| PatchAssembler.SameJump | vivado/tests/tools/gen_t18_m_ext_basic_coe.py:90-102 | both assemblers accept the same jump offsets and encode them alike |
| PatchAssembler.Program.MarkLabel | vivado/tests/tools/gen_t18_m_ext_basic_coe.py:149-150 | the label is here, also if it was elsewhere before; if it was not, the program with labels grows by it |
| PatchAssembler.Program.EmitWord | vivado/tests/tools/gen_t18_m_ext_basic_coe.py:152-153 | one more word, masked to 32 bits, whatever it is |
| PatchAssembler.LiLoads | vivado/tests/tools/gen_t18_m_ext_basic_coe.py:176-186 | the one or two instructions leave exactly the value in rd, also where the addi is left out, and change nothing else |
| PatchAssembler.LiWordsLoad | vivado/tests/tools/gen_t18_m_ext_basic_coe.py:176-186 | wherever their words are, among whatever other words, executing them does so |
| PatchAssembler.ResolvedLoads | vivado/tests/tools/gen_t18_m_ext_basic_coe.py:163-173 | so they do after patching |
| PatchAssembler.Program.EmitLi | vivado/tests/tools/gen_t18_m_ext_basic_coe.py:176-186 | the program grows by the one or two instructions, and executing the words appended leaves the value in rd, on every machine |
| PatchAssembler.Program.Defer | vivado/tests/tools/gen_t18_m_ext_basic_coe.py:155-161 | one more word, to be patched |
| PatchAssembler.Program.ResolveAll | vivado/tests/tools/gen_t18_m_ext_basic_coe.py:163-173 | patching gives every word its resolved value, or some patch cannot be resolved; if no label was redefined and the words emitted are RV32I instructions other than branches and jumps, the words run as the program with labels does, for any number of statements |

## Left out

- The CPU itself: its RTL is described in documents only; the assemblers are proved against the instruction set.
- Interrupt entry, context switching and stack frames: a switch is a change of the thread that acts; every READY thread may act at any time, which covers every schedule.
- `rt_object_*`, hooks, names, debug output, magic numbers and memory tracing: bookkeeping that no modelled decision reads.
- The semaphores inside `mem.c`, `memheap.c` and `slab.c`: each allocator call is one step; the moving path of `rt_realloc` unlocks between allocation and copy, and only the calls of one thread are modelled there.
- Detaching and deleting semaphores, mutexes, mailboxes and message queues: waking everybody is modelled as a step of its own, the end of the object is not.
- The state checks that `rt_thread_suspend`, `rt_thread_resume`, `rt_thread_delete` and `rt_thread_detach` make before they lock: each is part of the step of the section that follows; `Sections.StaleResume` and `Stranding.StrandedForGood` say what a stale check does.
- The continuation of a blocking semaphore or mutex call, which only reads the error code (`Wakeups.GoesOn` says what it finds), and of a sleep, which turns ETIMEOUT back into EOK; for mailboxes, message queues and pools the retry is the same method called again.
- `original_priority = 0xff` of a free mutex: the saved priority of a free mutex is left as it was, and nothing reads it.
- Priority inheritance over whole runs for FIFO mutexes, for threads that hold several mutexes, and with priorities changed by hand: the hand-off does not boost again and the release restores a per-mutex priority, so `NoInversion` is stated for the discipline `PriorityInheritance.PiAllowed`; `NestedInverts` and `ChainInverts` show it fail without, `NestedReleaseExact`, `HandOffExact` and `ChainedTakeExact` say exactly when a release or a take does not invert.
- Two-level ready bitmaps (more than 32 priorities) and the table of `__rt_ffs`: the lowest set bit is found by a loop.
- `rt_timer_control`, soft timers and a tick that advances during the check.
- Timers.WindowExact: stated for deadlines less than RT_TICK_MAX / 2 apart, as rt_timer_start demands; `WrapExact` gives the exact range.
- MemHeap.RtMemHeap.constructor: needs room for two headers; below that the count of available bytes wraps around, and only there (`MemHeap.PoolExact`).
- MemHeap.RtMemHeap.Alloc: takes a request other than zero, for which the source may cut off 12 bytes; `MemHeap.RequestExact` says when that spoils the layout.
- `rt_realloc` and the byte counters of `slab.c`, and its magic numbers; `z_next` links are modelled as sequences of zones, free-chunk links as a sequence of chunk numbers.
- The first word that a freed chunk lends to the free-chunk link, and the contents of slab blocks: `SlabHeap.BlocksApart` says which bytes belong to whom.
- What words emitted by hand mean that are no RV32I instruction (the M extension in one of the generators), or a branch or jump with an offset of its own: they are assembled, and the programs that have them are outside `RunCorrect`.
- The failing assertions of the encoders for operands out of range at an `emit`: `Encodable` names the range.
- Instruction fetch past 2^32 and stores into code: instruction memory is separate and read only, as on the board.
- The shell, console, board files, sensor driver, formatted output, COE files and test scripts.
