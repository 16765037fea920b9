# Verification of the kernel's concurrent and memory-management core

This project models, in Dafny, the parts of the kernel and its bootloader whose correctness cannot be read
off one function: the blocking mutex and condition variable with their lock-free waiter queue, the atomic
list and the MCS spin lock below them, the run queue, the pool of page tables and the page allocator on top
of it, the bootloader's quicksort and E820 normaliser, the keyboard and terminal pipeline, the boot-time
frame iterator, and the multiplication of long numbers.

`dafny verify dfyconfig.toml` checks everything.

## How it is modelled

**Concurrent code is a state machine over values**: one step is one atomic load, store, exchange or
compare-and-swap of one thread (or core, or interrupt), any thread may take the next step, and every theorem
is about all interleavings and any number of threads. The intended behaviour of the mutex and the condition
variable is that of ISO/IEC 9899:2011 sections 7.26.3 and 7.26.4.

- `MutexQueue`: `owner`, `waiters`, `wait_end` and the `temp0` link cells of all threads; the phases of the
  acquire routine (shared by `mtx_lock`, `mtx_trylock` and a broadcaster acting for a sleeper) and of the
  release routine (shared by `mtx_unlock` and `cnd_wait`); `Encodes` relates them to an abstract FIFO lock
  `Abs(holder, next, queue)`.
- `CondMutex`: whole threads on one mutex and one condition variable, with recursion count, condition list,
  broadcasters' private chains and hand-over to the scheduler. `MutexTheorems`: what follows for whole runs.
  `MutexCalls`: what each call answers and has done between call and return, in every run, told from the
  caller's side: who owned the mutex and how often it was locked.
- `AtomicList`, `SpinLock`, `RunQueue`: `include/al_list.h` as a linearizable FIFO queue, `include/spinlock.h`,
  and the counter that reserves run-queue entries.
- `Keyboard`: the interrupt and the keyboard thread, their wake-up handshake and the slots between them.

**Code that updates structures in place is imperative**: arrays, classes and loops, proved against
specification functions.

- `QSort`: the in-place sort with its explicit 64-entry stack, for any total preorder.
- `E820`: the sweep over sorted endpoints, against a definition of each address's attribute.
- `PageTables` (one PT page), `PagePool` (directories, pages, list of pages with free tables), `PoolMap` (the
  mapping these denote, growth, and the hardware walk of section 4.5 of Intel SDM volume 3A), `PtManage` (the
  functions of `mm/pt_manage.c` on a class), `MemMap` (those of `mm/mm.c`).
- `FreeBlocks`: the boot-time iterator over the free memory blocks (`mm/init.c`). `BootFrames`: the loop that
  takes frames from it, builds the stack of free frames and maps the stack's storage through `PtManage`, with
  the iterator as the hook; and the memory manager of `MemMap` on what the loop leaves.
- `Tty`: the terminal's ring buffer. `BigNum`: `cheng`, on 64-bit limbs that may not overflow.
- `Options` and `Counting` are shared helpers.

In `PoolMap`, `MemMap` and `BootFrames` a few predicates are sealed: they say what they say under a
quantifier over a predicate such as `Unseal(k)`, so that the verifier unfolds them only where it is mentioned.

## Where the code does not do what it is meant to

- **Keyboard slot numbers have 16 bits.** `keyboard_isr_c.c:283` keeps the slot in a `uint16_t`, so the
  interrupt goes round 65536 slots while the thread goes round 2097152. `Keyboard.DeliversIff`: codes are
  delivered in order, each once, if and only if the number of slots the interrupt uses is the size of the
  buffer or no more codes than that number have been stored. `Keyboard.NarrowStopsReader`: the thread never
  takes more than 65536 codes. `Keyboard.SixteenBitsLose`: a run that loses one.
- **`cnd_wait` keeps a mutex locked more than once.** The wait of 7.26.3.6 always gives the mutex up.
  `MutexTheorems.WaitReleasesIff`: the code does if and only if the caller's nesting depth is 1.
  `MutexTheorems.SleeperOwnsIff`: in every reachable state a thread asleep in `cnd_wait` and not yet signalled
  owns the mutex if and only if it had locked it at least twice. `MutexTheorems.DeepWaitKeepsMutex`: a run of
  one thread (lock, lock, wait) that gets there.
- **Soft mapping loses frames.** `mm.c:36-44` does not push back the frame popped for a page that is mapped
  already, and a failure does not give it back either. `MemMap.Memory.AllocPages`: of the first `done` pages,
  which are all of them on success and those before the refused one on failure, each that was mapped before
  costs exactly one frame. `MemMap.LosesIff`: so no frame is lost if and only if none of those was mapped.
  `MemMap.Memory.SoftLosesFrame` and `MemMap.Memory.MapThenSoft`: calls that succeed and lose a frame.

## Model

| member | source | states |
|---|---|---|
| MutexQueue.EndTellsHolder | sched/mutex/mtx_unlock_c.c:20-26 | `wait_end` is NULL exactly while nobody holds the mutex, and then the abstract lock is free: nobody is queued or picked |
| MutexQueue.BeginAcquire | sched/mutex/mtx_lock_c.c:29-30 | a thread that runs neither routine may start acquiring, by itself or through a broadcaster, without disturbing the queue |
| MutexQueue.BorrowCell | sched/mutex/cnd_wait_c.c:15-16 | `temp0` may be used for the mutex pointer while the thread is outside the queue |
| MutexQueue.AcquireKeeps | sched/mutex/mtx_lock_c.c:13-130 | every access of the acquire routine keeps the words and link cells encoding one FIFO lock, and moves that lock by its own rules: take it when free, or join the end of the queue at the exchange |
| MutexQueue.ReleaseKeeps | sched/mutex/mtx_unlock_c.c:17-57 | every access of the release routine does too: the oldest waiter is picked, then owns; with no waiter the lock becomes free |
| MutexQueue.LinkTarget | sched/mutex/mtx_lock_c.c:130 | a thread between exchange and link store owes its link to the one queue cell just before its own |
| MutexQueue.SpinIsOwed | sched/mutex/mtx_unlock_c.c:28-53 | a cell that is NULL while a routine spins on it is owed by one identified thread that stands between exchange and store |
| CondMutex.InitOk | sched/mutex/mtx_init.c:3-15 | the initial plain or recursive mutex satisfies the invariant, for any number of threads |
| CondMutex.LockStep | sched/mutex/mtx_lock_c.c:13-130 | lock and try-lock steps keep the whole invariant, and the abstract lock moves by its rules |
| CondMutex.TryOwnerKeeps | sched/mutex/mtx_trylock_c.c:10-23 | the owner test of try-lock leads to success, nesting or busy only where the invariant allows it |
| CondMutex.UnlockStep | sched/mutex/mtx_unlock_c.c:9-62 | unlock steps keep the invariant, down to making the new owner schedulable |
| CondMutex.WaitStep | sched/mutex/cnd_wait_c.c:10-83 | the checks, the count test and the append to the condition list keep the invariant |
| CondMutex.WaitReleaseStep | sched/mutex/cnd_wait_c.c:96-137 | the inline release keeps it, even if a broadcaster has enqueued the waiter already |
| CondMutex.SwitchStep | sched/mutex/cnd_wait_c.c:139-150 | so does the switch to the new owner, which may be the waiter itself |
| CondMutex.CastStep | sched/mutex/cnd_broadcast.c:26-88 | detaching the condition list, enqueueing each sleeper on the mutex for it, and waking those that own it keep the invariant |
| CondMutex.StepKeeps | sched/mutex/cnd_broadcast.c:26-88 | any step of any thread keeps the invariant and is a step of the abstract lock |
| MutexTheorems.RunRefinesFifoLock | sched/mutex/mtx_unlock_c.c:17-57 | after every prefix of every interleaving the mutex words encode the abstract lock, and from each prefix to the next it moves by its own rules |
| MutexTheorems.FirstComeFirstServed | sched/mutex/mtx_lock_c.c:111-130 | in every run the threads whose exchange on `wait_end` found the mutex taken are, in that order, the threads stored into `owner` by a release, then the picked one and the queue that the mutex words encode |
| MutexTheorems.NeverUnreachable | sched/mutex/mtx_unlock_c.c:20-22 | the branch marked unreachable is not reached |
| MutexTheorems.InvIsExclusive | sched/mutex/mtx_unlock_c.c:9-15 | at most one thread believes it holds the mutex; `owner`, `wait_end` and the recursion count agree with it |
| MutexTheorems.MutualExclusion | sched/mutex/mtx_lock_c.c:13-130 | the same in every reachable state of any number of threads running all five operations |
| MutexTheorems.NoThreadLost | sched/mutex/cnd_broadcast.c:26-88 | every thread is in exactly one of: condition list, one broadcaster's chain, mutex queue, hands of the one thread that will wake it, run queue, running |
| MutexTheorems.BroadcastCaptures | sched/mutex/cnd_broadcast.c:26-35 | a broadcast leaves no waiter on the condition list: it captures all that had not been captured before |
| MutexTheorems.ResumesAsOwner | sched/mutex/cnd_wait_c.c:139-150 | a sleeper returns from lock or wait with success only, and only as the one owner |
| MutexTheorems.WaitReleasesIff | sched/mutex/cnd_wait_c.c:15-94 | the owner that waits goes on to the release if and only if it has locked the mutex once, and to sleep as the owner otherwise |
| MutexTheorems.SleeperOwnsIff | sched/mutex/cnd_wait_c.c:15-94 | in every reachable state a sleeper on the condition list owns the mutex if and only if it had locked it at least twice, and then nobody else can take it |
| MutexTheorems.DeepWaitKeepsMutex | sched/mutex/cnd_wait_c.c:15-94 | a run in which a thread locks twice, waits, and sleeps as the owner |
| MutexTheorems.LinkerAdvances | sched/mutex/mtx_lock_c.c:129-130 | whoever owes a link store is running and stores it with its next step |
| MutexTheorems.SpinnerIsServed | sched/mutex/mtx_unlock_c.c:28-53 | a spin loop on NULL ends with the next step of one identified running thread |
| MutexTheorems.HeldLockMoves | sched/mutex/mtx_unlock_c.c:9-62 | while the mutex is held some access can move on, unless the holder is in its critical section or waits on a mutex it locked twice |
| MutexCalls.LockAnswers | sched/mutex/mtx_lock_c.c:8-130 | in every run mtx_lock by a thread that does not own the mutex returns success, as the owner; by the owner it nests, or is an error exactly if the mutex is plain or the count at its limit |
| MutexCalls.LockUnderWay | sched/mutex/mtx_lock_c.c:13-144 | until then the caller is at the test of `owner`, in the acquire routine, among the waiters, in the hands of who made it the owner, or in the run queue as the owner |
| MutexCalls.TryLockAnswers | sched/mutex/mtx_trylock_c.c:6-24 | mtx_trylock by a thread that does not own the mutex takes it, or is busy having found `wait_end` not NULL with its last access; by the owner it answers as mtx_lock |
| MutexCalls.TryLockNeverSleeps | sched/mutex/mtx_trylock_c.c:6-24 | its caller is never asleep nor in the run queue |
| MutexCalls.UnlockAnswers | sched/mutex/mtx_unlock_c.c:6-63 | mtx_unlock is an error exactly for who does not own the mutex; otherwise it undoes one lock, and after the last the caller is not the owner |
| MutexCalls.WaitAnswers | sched/mutex/cnd_wait_c.c:8-16 | cnd_wait is an error exactly for who does not own the mutex; otherwise it returns success, as the owner, at the same nesting depth |
| MutexCalls.WaitWaits | sched/mutex/cnd_wait_c.c:15-150 | not before one turn has put the caller on the condition list, giving up a mutex locked once, and a later turn of a broadcaster has cleared that list |
| MutexCalls.BroadcastRelays | sched/mutex/cnd_broadcast.c:21-89 | between every call of cnd_broadcast and its return it clears the condition list once, and every thread on it is linked into the mutex queue, or in the run queue as the owner, before the return |
| MutexCalls.BroadcastEmpties | sched/mutex/cnd_broadcast.c:26-33 | who was on the list at the call has been taken off it before the return |
| MutexCalls.OwnTurnsEnd | sched/mutex/cnd_wait_c.c:8-150 | in each of the five operations every turn of the caller brings it nearer to the end, unless it sleeps or spins on a NULL cell |
| MutexCalls.OthersDoNotHinder | sched/mutex/cnd_broadcast.c:34-81 | and the turns of others do not take it further away |
| SpinLock.StepKeeps | include/spinlock.h:42-64 | every access keeps the queue of members in exchange order, with one member past its wait |
| SpinLock.MutualExclusion | include/spinlock.h:42-50 | no two cores hold the lock, and the branch marked unreachable is not reached, in every run |
| SpinLock.GrantsInOrder | include/spinlock.h:44-63 | the lock is granted in the order of the exchanges |
| SpinLock.SpinIsOwed | include/spinlock.h:61-63 | the releaser's wait for `next` is owed by its immediate successor, whose next step stores it |
| SpinLock.MovesOn | include/spinlock.h:42-64 | every turn of a core that does not spin brings it nearer to its critical section, which it does not pass by, and then to the end of the release |
| AtomicList.StepKeeps | include/al_list.h:112-286 | every access of any producer, of the consumer and of any walk over a detached chain keeps the queue invariant |
| AtomicList.LinearizesToFifo | include/al_list.h:112-286 | in every run the nodes that the consumer took from `head`, one by one or as detached chains, are in that order the first appends, each once, and the rest is the queue; a walk has returned the first nodes of its chain, and all of them once it is over |
| AtomicList.ClearIsContiguous | include/al_list.h:274-286 | a clear detaches a contiguous piece of the appends, beginning after everything removed before it |
| AtomicList.ReportsAreExact | include/al_list.h:123-191 | append returns 0, and deletion and clear return NULL, exactly when the queue is empty; a deletion returns the front and its successor |
| AtomicList.AppendAnswers | include/al_list.h:112-158 | between call and return an append appends its node exactly once; al_append_empty does so, or has found the list not empty |
| AtomicList.RemovalAnswers | include/al_list.h:161-286 | a deletion removes one node and a clear one chain, or they have found the queue empty; a forced deletion always removes one |
| AtomicList.CallsEnd | include/al_list.h:112-286 | every access brings append, deletion and clear nearer to their end, unless they spin on a NULL word |
| AtomicList.LooseLinkIsNull | sched/mutex/empty_switch_c.c:172-173 | a thread that is in no list has a NULL `al_node` |
| AtomicList.SpinIsOwed | include/al_list.h:173-188 | a NULL `head` or link that the consumer spins on is owed by the producer of the next node |
| AtomicList.WalkSpinIsOwed | sched/mutex/cnd_broadcast.c:46-48 | so is a NULL link inside a detached chain |
| RunQueue.StepBalances | sched/mutex/empty_switch_c.c:148-165 | queued nodes are the counted ones plus reservations, timer appends and appends not counted yet, after every step |
| RunQueue.StepKeepsThread | sched/mutex/timer_isr_c.c:33-44 | a step moves no thread into two places or out of all of them |
| RunQueue.RunConserves | sched/cond/set_thread_schedulable.c:13-14 | both hold over every run of any number of cores, with switches straight to a blocked thread |
| RunQueue.NeverDequeuesEmpty | sched/mutex/empty_switch_c.c:168-171 | `al_delete_front_force` is never called on an empty queue |
| RunQueue.ReservationsAreBacked | sched/mutex/empty_switch_c.c:163-164 | in every reachable state the queue has an entry for each core about to dequeue, besides those the counter still offers |
| RunQueue.RunsInOrder | sched/mutex/empty_switch_c.c:168-173 | in every run the threads dequeued are, in order and each once, those queued: published in their order, or preempted |
| RunQueue.IdlesOnlyThen | sched/mutex/empty_switch_c.c:148-165 | a core goes idle exactly if its deciding access finds the counter 0, and then every queued thread is reserved, owed to the timer, or about to be counted |
| RunQueue.CoreMovesOn | sched/mutex/empty_switch_c.c:148-178 | every turn brings a core that looks for a thread nearer to running or idling, but for a CAS that fails |
| RunQueue.IdleCorePicksUp | sched/mutex/empty_switch_c.c:148-178 | an idle core that finds the counter above 0 carries the front thread four turns later |
| QSort.MedianOfThree | bootloader/qsort.c:119-127 | the middle element is a median of three; the range is permuted, the rest and all cuts outside it stay |
| QSort.ScanUp | bootloader/qsort.c:137-138 | the unguarded scan stops at the first element not below the pivot, at the latest at a known stop |
| QSort.ScanDown | bootloader/qsort.c:140-141 | the same from the right |
| QSort.Collapse | bootloader/qsort.c:135-158 | one round keeps the walls around the pivot, which `mid` follows through swaps |
| QSort.Partition | bootloader/qsort.c:99-160 | two non-empty proper parts with at most one element between, cut off from each other, nothing outside touched |
| QSort.NextPartsOk | bootloader/qsort.c:167-192 | the pending parts stay disjoint and cut off, and each stacked part is at most half of what was current below it |
| QSort.NextPartsWork | bootloader/qsort.c:167-192 | the pending work shrinks, so the outer loop ends |
| QSort.NextPartsSettled | bootloader/qsort.c:167-175 | what no pending part covers is within five places of a cut |
| QSort.StackSuffices | bootloader/qsort.c:57-60 | the depth of the stack stays below 64 for every size that fits 64 bits |
| QSort.ChooseNext | bootloader/qsort.c:167-192 | pushing and popping keep the array stack, above its sentinel, equal to the pending parts |
| QSort.PartitionPhase | bootloader/qsort.c:99-194 | afterwards every element is within five places of a cut, and the array is a permutation |
| QSort.LeastOfAll | bootloader/qsort.c:215-219 | with a cut among the first five, the least of them is the least of all |
| QSort.FindLeast | bootloader/qsort.c:211-219 | finds it |
| QSort.FindPlace | bootloader/qsort.c:229-235 | the unguarded scan stops at the element's place, above the base and at most four places down |
| QSort.InsertedSorts | bootloader/qsort.c:227-249 | inserting there extends the sorted prefix by one |
| QSort.InsertedKeepsCuts | bootloader/qsort.c:227-249 | an insertion moves nothing across a cut |
| QSort.Rotate | bootloader/qsort.c:236-246 | the element moves down and those it passes move up |
| QSort.InsertionPhase | bootloader/qsort.c:204-247 | sorts, given the cuts |
| QSort.Sort | bootloader/qsort.c:84-249 | the first n elements become a sorted permutation of themselves, the rest stays |
| E820.BlocksCmpIsPreorder | bootloader/e820.c:62-69 | the comparison is a total preorder |
| E820.ConstantBetween | bootloader/e820.c:89-115 | between two endpoints the attribute does not change |
| E820.NoGapTwice | bootloader/e820.c:166-170 | of two neighbouring endpoints one lies inside a range, so the block after a gap exists, as the code takes for granted |
| E820.CollectEndpoints | bootloader/e820.c:73-82 | the blocks are exactly the starts and those ends that are addresses |
| E820.SortedCollects | bootloader/e820.c:85 | sorting keeps them and puts them in order |
| E820.MarkOne | bootloader/e820.c:91-115 | finds the common attribute at an address, or the conflict, or none |
| E820.MarkAll | bootloader/e820.c:86-116 | does so at the first block of each address |
| E820.ExtendRun | bootloader/e820.c:178-198 | the run goes up to the next address that says something else |
| E820.EmitSwept | bootloader/e820.c:174-204 | emitting it keeps the output sorted, disjoint, merged and right up to there |
| E820.SizeZeroIsWholeSpace | bootloader/e820.c:119-155 | size 0 appears alone and exactly when the whole 64-bit space has one attribute |
| E820.Trim | bootloader/e820.c:71-212 | wherever the answer fits the output, it denotes the attribute of every address and is sorted, disjoint and merged, also when it overwrites the input |
| E820.TwiceFits | bootloader/e820.c:71-82 | twice as many entries as ranges are always enough |
| E820.DisjointFits | bootloader/main.c:12 | for ranges that do not overlap, as many entries as ranges are enough, so they can be normalised in place |
| E820.AnswerIsUnique | bootloader/e820.c:71-212 | such an output is determined by the attributes alone |
| PageTables.FreshPageOk | mm/pt_manage.c:10-17 | a new PT page has 510 free, zero tables with distinct numbers |
| PageTables.EnterOk | mm/pt_manage.c:25-30 | filling an entry keeps the page's counters exact |
| PageTables.TakeOk | mm/pt_manage.c:61-63 | the table on top of the free stack is free and zero, and taking it keeps the page exact |
| PageTables.FreeStackHasRoom | mm/pt_manage.c:37 | while a table is in use the free stack has room for it |
| PageTables.ClearOk | mm/pt_manage.c:31-44 | clearing an entry frees the table exactly when it was the last |
| PagePool.MapOldOk | mm/pt_manage.c:51-57 | filling an entry of a present table keeps the pool: tables owned by one slot each, both directories in step, list and count exact |
| PagePool.MapOldWord | mm/pt_manage.c:73 | it changes the lookup of that page only |
| PagePool.MapNewOk | mm/pt_manage.c:107-118 | so does taking a table for a slot without one |
| PagePool.MapNewWord | mm/pt_manage.c:107-120 | it changes the lookup of that page only |
| PagePool.UnmapOk | mm/pt_manage.c:138-146 | clearing an entry, and freeing its table when empty, keeps the pool |
| PagePool.UnmapWord | mm/pt_manage.c:138-146 | it changes the lookup of that page only |
| PagePool.WithPageOk | mm/pt_manage.c:18-24 | so does adding a page of free tables |
| PagePool.ListHeadTaken | mm/pt_manage.c:61-71 | the first listed page gives a table, leaves the list with its last, and the count follows |
| PagePool.ListGains | mm/pt_manage.c:35-41 | a page gains one, enters the list with its first, and the count follows |
| PoolMap.WalkAgrees | mm/pt_manage.c:45-163 | the walk of the hardware over the physical entries yields the frame the software lookup yields, or not present, for every page |
| PoolMap.CanMapNext | mm/pt_manage.c:98-106 | the last free table is enough to map the next PT page |
| PoolMap.GrowthExtends | mm/pt_manage.c:97-106 | growing adds one window pair and no other, and changes no slot but that of the new PT page |
| PoolMap.ExtendedOk | mm/pt_manage.c:18-24 | the grown pool is in order again, self-mapped, with its reserve |
| PoolMap.UnmappedOk | mm/pt_manage.c:127-149 | so is the pool after unmapping a user page |
| PoolMap.GrowthDenotes | mm/pt_manage.c:18-24 | in terms of the mapping: one pair more, one PT page more, at least 510 free tables |
| PoolMap.TakenDenotes | mm/pt_manage.c:107-120 | taking a table for a slot adds the page's pair, keeps every other slot and leaves a table in reserve |
| PtManage.FrameStack.Pop | mm/mm.c:11-17 | takes the top frame, or none when the stack is empty |
| PtManage.PageTable.MapAlwaysSuccess | mm/pt_manage.c:45-77 | maps the page, or refuses exactly when it is mapped already |
| PtManage.PageTable.AddPtPage | mm/pt_manage.c:18-24 | maps the new page's frame at its window address and adds its tables |
| PtManage.PageTable.GrowPool | mm/pt_manage.c:98-106 | grows by one frame of the hook, stack or iterator, or reports none exactly when the room or the hook is exhausted |
| PtManage.PageTable.TryMap | mm/pt_manage.c:78-125 | for user pages and pages below the window: adds exactly the pair asked for plus at most one window pair for a frame taken from the hook; without a table fails exactly with one free table left and no room or frame, and then changes nothing |
| PtManage.PageTable.AddNextPtPage | mm/init.c:208-216 | adds a given frame as the next PT page below the others |
| PtManage.PageTable.PtUnmap | mm/pt_manage.c:127-149 | removes exactly one pair and returns its frame; does not return exactly when the page is not mapped |
| PtManage.PageTable.IsMap | mm/pt_manage.c:151-163 | membership in the mapping |
| MemMap.RangeTest | mm/mm.c:74-83 | the tests let through exactly the ranges of whole 2 MiB pages between 4 TiB and 32 TiB |
| MemMap.ChangeKeepsFrames | mm/mm.c:36-43 | mapping a page, with or without growth, keeps every frame in exactly one role |
| MemMap.PushKeepsFrames | mm/mm.c:55-58 | a frame given back fits the stack |
| MemMap.RolesCount | mm/mm.c:11-64 | frames are free ones, mapped ones and PT pages, counted once each |
| MemMap.Memory.MapOne | mm/mm.c:33-44 | one turn: out of memory exactly with an empty stack, or for an unmapped page that can get no table, and then nothing changes; a mapped page aborts or, in soft mode, costs a frame; otherwise the page gets a frame |
| MemMap.Memory.UnmapOne | mm/mm.c:138-139 | the page is unmapped and its frame is free again |
| MemMap.Memory.Rollback | mm/mm.c:54-58 | restores the user mapping exactly |
| MemMap.Memory.AllocPages | mm/mm.c:19-64 | all pages or none; hard mode keeps every frame, soft mode loses, on success and on failure, exactly one for each handled page that was mapped before; with enough frames, tables and room it is not out of memory |
| MemMap.LosesIff | mm/mm.c:36-44 | no frame is lost if and only if no handled page was mapped before |
| MemMap.BackedStep | mm/pt_manage.c:98-118 | frames, room and free tables that suffice for a range suffice for the rest of it after each page, with or without growth |
| MemMap.Memory.SoftLosesFrame | mm/mm.c:36-44 | a soft call on one mapped page succeeds, changes no mapping and loses a frame |
| MemMap.Memory.MmapSoft | mm/mm.c:99-128 | aborts exactly on ranges not permitted; pages mapped before stay, the others are mapped, with enough frames always; success keeps all frames if and only if none was mapped before |
| MemMap.Memory.MapThenSoft | mm/mm.c:66-128 | mmap of a page, then mmap_soft of it: both succeed and one frame is gone |
| MemMap.NoneOccupied | mm/mm.c:36-44 | that number is 0 if and only if none was mapped |
| MemMap.Memory.FreePages | mm/mm.c:130-149 | unmaps the range if and only if all of it is mapped, keeping every frame |
| MemMap.Memory.Counted | mm/mm.c:11-64 | free, mapped and PT frames add up, and the stack index stays within its capacity |
| MemMap.Memory.Mmap | mm/mm.c:66-97 | success maps exactly the range to frames of its own; failure restores the mapping, free frames having shrunk only by new PT pages; it aborts on every range not permitted, and succeeds on every permitted and unmapped one for which there are frames, counting one PT page for each 509 tables lacking, and room for these |
| MemMap.Memory.Munmap | mm/mm.c:151-170 | unmaps exactly the range if and only if it is permitted and wholly mapped |
| MemMap.UnmapUndoesMap | mm/mm.c:66-170 | what mmap promises and what munmap promises of the same range cancel out |
| MemMap.Memory.MapAndUnmap | mm/mm.c:66-170 | a successful mmap and then munmap of the range restores the mapping and keeps every frame |
| FreeBlocks.FramesFromAt | mm/init.c:270-295 | a block's frames, each once |
| FreeBlocks.FramesDiffer | mm/init.c:279-295 | blocks that do not overlap never yield a frame twice |
| FreeBlocks.WrapsOnce | mm/init.c:285-286 | comparing wrapped addresses is exact, also for a block that ends at 2^64 |
| FreeBlocks.Iterator.Next | mm/init.c:279-295 | yields the next of the remaining frames, or none at the end |
| BootFrames.TryStorage | mm/init.c:213 | pt_try_map of the next storage page, with the iterator as hook, is never a remap, and fails only when the iterator is exhausted |
| BootFrames.KeepAsTables | mm/init.c:208-216 | a frame that cannot be used for the stack becomes a PT page |
| BootFrames.PlaceOne | mm/init.c:206-219 | each frame taken in a turn, also by the hook, gets one role; the turn ends the loop only with all frames used |
| BootFrames.BuildStack | mm/init.c:196-227 | every frame is on the stack, holds part of it, or is a PT page, of which at most five are made; the loop ends only with the frames used up or the stack at its limit; storage and PT pages never meet, and the lower limit of the window ends up right above the stack |
| BootFrames.SpareStep | mm/pt_manage.c:98-118 | as long as the storage lies below 1 TiB, three PT pages are enough for the tables it needs |
| BootFrames.EntriesStored | mm/init.c:206-219 | every entry of the stack lies in a mapped page |
| BootFrames.Boot | mm/init.c:196-227 | the page tables and the stack that boot leaves meet what mmap relies on, with no user page mapped; stack entries, storage pages, at most six PT pages and frames not taken add up to the frames there were |
| BigNum.CarryUp | main.c:650-658 | a carry pass keeps the value and carries all limbs but the last |
| BigNum.AddRow | main.c:596-603 | adds one shifted row of products within 64 bits |
| BigNum.CarriedUpTo | main.c:612-617 | after a window's pass the top limb is carried too |
| BigNum.TooSmall | main.c:621-627 | a product of numbers without leading zeros has at least len_a + len_b - 1 limbs |
| BigNum.Multiply | main.c:553-629 | the exact product, in carried limbs, without a leading zero, inside len_a + len_b limbs, no 64-bit overflow |
| Keyboard.StepKeeps | sched/tty/keyboard_thread_c.c:320-402 | every access of interrupt and thread keeps counts, handshake and slots |
| Keyboard.DeliversIff | sched/tty/keyboard_isr_c.c:283-284 | in-order, exactly-once delivery if and only if the slot numbers have not gone round too early |
| Keyboard.KeysAreStored | sched/tty/keyboard_isr_c.c:215-284 | each key pressed is, in order, taken or dropped, but for the one whose interrupt has not decided; the codes stored, and the one about to be, are those of the keys taken |
| Keyboard.DroppedIff | sched/tty/keyboard_isr_c.c:216-222 | a key is dropped exactly if the deciding access finds all slots counted |
| Keyboard.ReaderGetsKeys | sched/tty/keyboard_thread_c.c:373-402 | the codes that the thread takes are those of the first keys taken, in order, while the slot numbers have not gone round too early |
| Keyboard.InterruptEnds | sched/tty/keyboard_isr_c.c:215-300 | every access brings the interrupt nearer to its end, but for a CAS that fails |
| Keyboard.ReaderTakes | sched/tty/keyboard_thread_c.c:373-394 | the thread takes what lies in its slot with its next two accesses |
| Keyboard.NarrowStopsReader | sched/tty/keyboard_isr_c.c:283 | with 16-bit slot numbers the thread takes at most 65536 codes |
| Keyboard.SixteenBitsLose | sched/tty/keyboard_isr_c.c:283 | a reachable state in which a code is lost |
| Keyboard.NoLostWakeup | sched/tty/keyboard_isr_c.c:225-241 | the thread is asleep over a counted code only while its wake-up is under way |
| Keyboard.SpinIsOwed | sched/tty/keyboard_thread_c.c:373-382 | past the sleep point a code is counted, and an empty slot spun on is about to be filled |
| Keyboard.NothingOverwritten | sched/tty/keyboard_isr_c.c:283-284 | the slot written is empty, while the numbers have not gone round |
| Tty.Reduce | sched/tty/keyboard_thread_c.c:404-444 | backspaces and characters equivalent, on every line, to the keys one by one |
| Tty.CommitsLines | sched/tty/keyboard_thread_c.c:485-506 | what becomes visible ends with a line end below the threshold, is everything from there on, and leaves no line end behind |
| Tty.Terminal.Erase | sched/tty/keyboard_thread_c.c:455-484 | backspaces remove only uncommitted characters |
| Tty.Terminal.Append | sched/tty/keyboard_thread_c.c:485-506 | appends what fits; every ended line is then visible, below the threshold only ended lines are, from there on everything is; waiting readers are woken when there was nothing to read |
| Tty.Terminal.Commit | sched/tty/keyboard_thread_c.c:453-507 | the two together: the same of the visible text, keeping `used - visible` below the threshold and no waiter beside readable text |
| Tty.Terminal.Take | sched/tty/tty_read.c:22-34 | the wrapped copy yields the oldest characters |
| Tty.Terminal.Read | sched/tty/tty_read.c:8-38 | the oldest min(size, visible) characters, or a wait exactly when nothing is visible |
| Tty.Terminal.Fill | sched/tty/tty_readv.c:31-59 | vectors are filled one after another until they or the characters run out |
| Tty.Terminal.ReadV | sched/tty/tty_readv.c:10-64 | the same characters as one read of the total length |

## Left out

- Weak memory: all atomic accesses are taken in one order.
- Assembly: saving contexts, cr3, gs base, xsave, APIC registers and TLB; a context switch is one step.
- Idle-core counting, inter-processor interrupts and `old_schedulable_threads_num`: hints that depend on that assembly.
- Proc reference counts (`threads_num`) around blocking.
- Threads are not created or ended: there is a fixed, arbitrary number.
- CondMutex and RunQueue take the condition list and the run queue as FIFO queues changed in one step; AtomicList and SpinLock justify that one by one, not by a combined state machine.
- `al_appends` (the chain append of `set_threads_schedulable`) is one append of all its threads.
- One mutex and one condition variable: a thread that waits on the condition variable with different mutexes is not modelled.
- Concurrent code is modelled on values, not on objects, since its steps interleave.
- RunQueue.StepKeepsThread: does not model which thread is preempted when, because the timer is a free choice.
- QSort moves whole elements where the code moves bytes, and does not count comparisons.
- E820.Trim: asks for ranges of positive size, as `detect_memory_e820` delivers them, and for an output that the answer fits, which the code does not check; a range of size 0 would make the code emit an entry it has not looked at.
- The BIOS call that reports the ranges.
- Region 0 of the directory and `map_in_first_pt_page`, whose table lies outside the PT pages: the pool starts well formed.
- PagePool and PtManage keep a PT page as a value in a map from virtual pages, so aliasing through other virtual addresses is not modelled; the list of PT pages is a sequence.
- PtManage.PageTable.TryMap: does not cover pages inside the window of the PT pages or in the slot into which it grows next; the code maps those only through `add_pt_page`.
- MemMap.Memory.Mmap: the condition under which it succeeds is sufficient; a PT page may bring 510 tables where the condition counts 509.
- BootFrames.BuildStack: returns the stack as a sequence; `Boot` puts it in an array, and that the entries' pages are mapped is EntriesStored.
- BootFrames.Boot: the first PT page and the mapping of the kernel are given; the frame 0 is not among the free ones.
- MemMap.Memory.Mmap: clearing the new pages, and the list threaded through them for the rollback, are not modelled; the list is a sequence.
- `check_map` and `estimate_free_mem`: they only read.
- User address spaces (`pptp`).
- Keyboard.StepKeeps: scan codes reach the model already decoded; one interrupt runs at a time, as it is routed to one core.
- Tty.Reduce: the key map, shift and caps lock are applied before it.
- Tty.Terminal.ReadV: returns what the vectors receive instead of writing to the caller's memory; so does Read.
- The echo of typed characters, `tty_write` and the console.
- BigNum.Multiply: signs, decimal point bookkeeping and the length limits at which the program exits.
- Addition, subtraction, division, parsing and printing in `main.c`.
- Vendored library code, and the earlier versions under `bak/` and `sched/cond/`.
