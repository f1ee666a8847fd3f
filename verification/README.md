# Proofs about System V IPC, CPU hotplug, the initramfs unpacker and the resource image tool

A Dafny model of seven C files under `device/soc/qemu/common/sdk_linux`, and proofs of
what they are for. `dafny verify dfyconfig.toml` checks all of it.

Code that updates state in place is a class with the same fields; its methods are proved
equal to functions on values, and the theorems are about those functions, or about runs
of a transition system where several tasks interleave. What the central functions compute
is also stated without them: in sums, places and orders over runs, raw fields, or numbers.

- **Semaphores** (`ipc/sem.c`). `SemOps` has the two evaluators of a semop() call;
  `SemEval`, `SemSet` and `SemArray` the queues of sleeping calls and the scans over
  them, with the naive rules they refine; `SemWakeup`, `SemCalls` and `SemRuns` the
  argument that nobody is left asleep who could proceed, from one call to whole runs;
  `SemUndo` the undo accounting; `SemLock` sem_lock() and sem_unlock() as steps of any
  number of threads; `SemSlices` why sections on different semaphores may run under
  different locks; `SemThreads` puts lock steps and sections together: every interleaving
  comes to a serial run; `SemSmart` has the short form of do_smart_update against the
  exhaustive one, `SemForms` runs in which the two part or agree; `SemPlaces` says that
  sections lose and duplicate no queued call, `SemSleep` interleaves any number of tasks
  with the lockless end of semop(), signals, timeouts and IPC_RMID, and `SemRaces` is a
  race in it; `SemOrder` has the order of the queues over such runs, and that who is queued
  waits on an operation without IPC_NOWAIT.
- **Message queues** (`ipc/msg.c`). `MsgFind` selects a message; `MsgSenders` is the
  rotating list of ss_wakeup; `MsgQueues` has the locked sections; `MsgRuns` interleaves
  any number of tasks with the lockless end of msgrcv(), signals, IPC_SET and IPC_RMID;
  `MsgOrder` has the order of messages and receivers over these runs.
- **CPU hotplug** (`kernel/cpu.c`). `Hotplug` has the stepper, its callbacks with
  instances, the rollback that re-aims the same stepper, and the walk of the control
  processor; `HotplugRollback` says when the latter keeps its promise.
- **initramfs** (`init/initramfs.c`). `Cpio` is a reference machine that reads the newc
  format byte by byte; `CpioUnpacker` the resumable state machine over chunks;
  `CpioArchive` a serializer, free in the case of every digit, and the round trip.
- **IPC ids and shared memory** (`ipc/util.c`, `ipc/shm.c`). `IpcIds` has the index table,
  the key table and the sequence numbers; `Shm` the life of segments on top of it.
- **Resource images** (`scripts/resource_tool.c`). `Sha1`, `Sha256` and `ShaStream` are held
  against FIPS 180-4, which is written out in `ShaWords`, `Sha1Spec`, `Sha256Spec` and
  `ShaStream`; `ShaConstants` proves its constants to be roots of primes, `ShaAbc` two
  published digests; `ResourceOrder` and `ResourceImage` are the packing order, the format,
  packing and unpacking.

The model is sequentially consistent, and objects stay allocated while they are read.
Kernel lists are sequences, the idr and the hash tables are maps, an allocator may
return any free index below its bound, and a wake queue is the set or list of tasks
woken. Security hooks allow everything; permission checks, memory, clocks and the file
system are parameters.

Where a promise does not hold in general, the proofs say exactly when it does:

- The two forms of do_smart_update can give a queued complex wait-for-zero call different
  statuses, after a run (`SemForms.FormsDiffer`). The guard: no changed semaphore is zero,
  another one is, and a queued complex wait-for-zero call would not sleep
  (`SemSmart.ZeroPassAgrees` is its negation). Outside it they agree
  (`SemSmart.SmartUpdateForms`), and while no queued call that changes the set can complete
  they agree if and only if it is false (`SemSmart.SmartUpdateIff`). With one that
  completes they may agree inside it (`SemForms.FormsMayAgree`).
- The next look of a woken semop() call returns the status it was woken with if and only if
  the set is still there or the look is the one without the lock
  (`SemSleepers.WakeupWins`). Otherwise it returns EINTR, although the call may have been
  carried out (`SemRaces.DoneAndTold`).
- cpuhp_up_callbacks can report success with a state on the way that is not set up: the
  err: path of cpuhp_invoke_callback (kernel/cpu.c, lines 223-244) overwrites the failure by
  what the calls return that take back the instances done before, so a failure behind the
  first instance is lost (`HotplugRollback.TwoInstances`). Success and rollback are exact if
  and only if no failure is lost (`HotplugRollback.ReachesExactly`,
  `HotplugRollback.ReturnsExactly`). With teardowns that succeed, a way keeps the promise
  for all callbacks if and only if no state on it with both callbacks has two instances
  (`HotplugRollback.KeepsUnbroken`, `HotplugRollback.Breaks`); with at most one instance in
  each multi-instance state it does so whatever any callback returns
  (`HotplugRollback.KeepsPromise`).
- cpuhp_kick_ap, aimed at the state the processor is in, returns what is in st->result, and
  if that is an error it moves two states up. An error stays there after a transition that
  failed in its first state without another run of the thread: by injection, or in a state
  without instances; writing to a processor's `target` (kernel/cpu.c, lines
  2334-2338) can then ask for the current state (`Hotplug.CpuState.FailAndStay`). In all
  other cases rollback is exact (`Hotplug.CpuState.KickAp`).
- An ill-formed cpio header is skipped with a next_state that depends on where the header
  was cut; for headers found with any other next_state than the one a cut leaves, cuts do
  not matter if and only if the header is one the format allows (`CpioUnpacker.CutsAgree`).
  A name is read up to a NUL: beyond its own bytes, if they have none, in the chunk or in
  name_buf, and cuts do not matter to it if and only if it has one or what follows in
  both reads the same (`CpioUnpacker.NamesAgree`).
- pack_image can pack the image into itself. An image named like a device tree is packed
  whenever it is listed (`ResourceOrder.PacksDtbImage`), because device trees are not
  compared with it; of any other image, listed r times, no copy is packed if and only if
  none is among the last r - 1 files (`ResourceOrder.PrepareFiles`,
  `ResourceOrder.PacksItself`).

## Model

| member | source | states |
|---|---|---|
| SemOps.PerformSlow | device/soc/qemu/common/sdk_linux/ipc/sem.c:649-726 | On a values array and an undo row updated in place: 0 if and only if every operation can proceed from the start values plus the sums of the earlier operations; otherwise the first that cannot decides, -EAGAIN if it must wait with IPC_NOWAIT, 1 if it must wait without, -ERANGE if it only leaves a range; 0 moves every value and adjustment by its sum, anything else leaves both as they were, through the reverse undo loop |
| SemOps.TakeBack | device/soc/qemu/common/sdk_linux/ipc/sem.c:714-723 | The undo loop takes back the first k operations whatever overlaps there are between them |
| SemOps.Perform | device/soc/qemu/common/sdk_linux/ipc/sem.c:728-799 | The same answers, blocking operation and final state from the two-pass fast path, whenever no operation names a semaphore an earlier one changed; with dupsop set it hands over to the slow path |
| SemOps.PerformedAnswered | device/soc/qemu/common/sdk_linux/ipc/sem.c:649-799 | Performing the operations one after the other gives these answers: the first operation that cannot proceed, counted from the start values, decides |
| SemOps.ScanSops | device/soc/qemu/common/sdk_linux/ipc/sem.c:2068-2093 | The scan of the operations with its 64-bit mask: dupsop is left clear only if no operation names a semaphore that an earlier one changes; the largest number, undos and alter are what the operations say |
| SemOps.ExecBounds | device/soc/qemu/common/sdk_linux/ipc/sem.c:662-690 | A completed call keeps 0 <= semval <= SEMVMX and -SEMAEM-1 <= semadj <= SEMAEM |
| SemOps.ExecNet | device/soc/qemu/common/sdk_linux/ipc/sem.c:665-689 | A completed call moves each semval by the sum of its operations, and semval + semadj by the sum of those without SEM_UNDO |
| SemOps.ExecZeroOps | device/soc/qemu/common/sdk_linux/ipc/sem.c:668-670 | A wait-for-zero call completes exactly when every semaphore it names is zero, and changes nothing |
| SemOps.UntouchedByEarlier | device/soc/qemu/common/sdk_linux/ipc/sem.c:750-792 | Without dup, an earlier operation never moves what a later one is checked against: why the first pass may check against the start values |
| SemEval.SimpleAlterReady | device/soc/qemu/common/sdk_linux/ipc/sem.c:831-855 | A queued single operation that changes its semaphore sleeps exactly while the value is too small |
| SemEval.ConstReady | device/soc/qemu/common/sdk_linux/ipc/sem.c:871-899 | A queued wait-for-zero call succeeds exactly when all its semaphores are zero, and changes nothing either way |
| SemSet.Drain | device/soc/qemu/common/sdk_linux/ipc/sem.c:967-1016 | The naive rule (complete the first call that need not sleep, look again from the head) ends, keeps the invariants of the queues, and afterwards every call left must sleep |
| SemSet.Complete | device/soc/qemu/common/sdk_linux/ipc/sem.c:988-1012 | One completed call leaves the queues well-formed and one call shorter |
| SemWakeup.UpdateAfterCallQuiet | device/soc/qemu/common/sdk_linux/ipc/sem.c:1049-1088 | After a successful call from a set in which nobody could proceed, looking only at the semaphores it zeroed or raised leaves nobody behind who could proceed |
| SemWakeup.UpdateAllQuiet | device/soc/qemu/common/sdk_linux/ipc/sem.c:1049-1070 | After any change at all the exhaustive form of do_smart_update leaves nobody behind |
| SemWakeup.WakeZeroQuiet | device/soc/qemu/common/sdk_linux/ipc/sem.c:912-949 | do_smart_wakeup_zero finds every wait-for-zero call that could proceed if the semaphores it is given cover them |
| SemWakeup.DrainZeroQuiet | device/soc/qemu/common/sdk_linux/ipc/sem.c:967-1016 | A scan that completes calls which zero semaphores also finds every wait-for-zero call these satisfy |
| SemWakeup.DrainSemsQuiet | device/soc/qemu/common/sdk_linux/ipc/sem.c:1062-1087 | Draining a semaphore queue does not make a call of another queue ready: one look at each raised semaphore is enough |
| SemWakeup.QuietNobodyLost | device/soc/qemu/common/sdk_linux/ipc/sem.c:831-1088 | In a quiet set every queued call that changes it evaluates to must-sleep, and no queued wait-for-zero call would succeed |
| SemCalls.UnmergeMerge | device/soc/qemu/common/sdk_linux/ipc/sem.c:280-320 | merge_queues followed by unmerge_queues gives every semaphore its own waiters back in their original order |
| SemCalls.UnmergeStable | device/soc/qemu/common/sdk_linux/ipc/sem.c:280-301 | unmerge_queues hands out the global queue stably, whatever was added or removed in between |
| SemCalls.SplicedDescends | device/soc/qemu/common/sdk_linux/ipc/sem.c:312-320 | In the merged queue the waiters of a later semaphore come before those of an earlier one |
| SemCalls.SleeperIsDecrement | device/soc/qemu/common/sdk_linux/ipc/sem.c:2191-2206 | A call that must sleep and names one semaphore is a plain decrement that is too large |
| SemCalls.MergeInv | device/soc/qemu/common/sdk_linux/ipc/sem.c:312-320 | Merging keeps all calls, their counts and the fact that nobody could proceed |
| SemCalls.UnmergeInv | device/soc/qemu/common/sdk_linux/ipc/sem.c:280-301 | Unmerging with no complex call left empties the global queue and keeps everything else |
| SemCalls.EnqueueInv | device/soc/qemu/common/sdk_linux/ipc/sem.c:2188-2218 | Queueing a call that must sleep keeps the queue modes and leaves nobody behind |
| SemCalls.LeaveInv | device/soc/qemu/common/sdk_linux/ipc/sem.c:456-466 | What a locked section must have established for sem_unlock to restore the invariant of an unlocked set |
| SemRuns.BodyInv | device/soc/qemu/common/sdk_linux/ipc/sem.c:2029-2292 | Every section (semop, interrupted sleep, SETVAL, SETALL, undo rows coming and going) ends with a well-formed set in which nobody could proceed |
| SemRuns.SemopBodyInv | device/soc/qemu/common/sdk_linux/ipc/sem.c:2163-2218 | The same for the semop section alone: success with wakeups, failure, or queueing |
| SemRuns.InterruptBodyInv | device/soc/qemu/common/sdk_linux/ipc/sem.c:2256-2286 | A sleeper that takes itself off its queue after a signal or timeout leaves nobody behind, without any rescan |
| SemRuns.NoLostWakeup | device/soc/qemu/common/sdk_linux/ipc/sem.c:831-1088 | No lost wakeup, over every run from newary of any sections in any order: whenever the lock is free, no queued call would succeed, and every queued call that changes the set must sleep |
| SemRuns.QueueModes | device/soc/qemu/common/sdk_linux/ipc/sem.c:280-376 | Over every run: complex_count counts the queued multi-operation calls; while it is positive the per-semaphore alter queues are empty and use_global_lock > 0; at 0 the global queues are empty; use_global_lock stays within the hysteresis |
| SemRuns.LockAfter | device/soc/qemu/common/sdk_linux/ipc/sem.c:335-376 | use_global_lock after each section: set to ten by a section over more than one operation or the whole set, one less after each section under the global lock that leaves no complex call queued, 0 under a per-semaphore lock |
| SemRuns.SimpleAgain | device/soc/qemu/common/sdk_linux/ipc/sem.c:335-466 | Over every run of calls with one operation and no complex call queued, the counter goes down by one each, so per-semaphore locking is back after ten at most |
| SemRuns.RunBounds | device/soc/qemu/common/sdk_linux/ipc/sem.c:649-799 | Over every run all semvals and semadjs stay in their ranges |
| SemUndo.StepLedger | device/soc/qemu/common/sdk_linux/ipc/sem.c:662-725 | semval[i] plus all semadj[i], over each section: a semop moves it only by the operations without SEM_UNDO of the calls completed in it, SETVAL and SETALL reset it, exit changes it only where a value is capped |
| SemUndo.ExitValue | device/soc/qemu/common/sdk_linux/ipc/sem.c:2453-2478 | What exit_sem stores is the value of 0..SEMVMX nearest to the adjusted one: itself in the range, 0 if and only if it is not positive, SEMVMX if and only if it is not below SEMVMX |
| SemUndo.ExitTotal | device/soc/qemu/common/sdk_linux/ipc/sem.c:2453-2478 | exit_sem keeps that total if and only if the adjusted value needs no capping; otherwise exactly the part beyond 0 or SEMVMX is lost |
| SemUndo.SetTotal | device/soc/qemu/common/sdk_linux/ipc/sem.c:1422-1426 | SETVAL and SETALL forget every adjustment owed to the semaphore |
| SemUndo.NextTotal | device/soc/qemu/common/sdk_linux/ipc/sem.c:665-689 | One evaluated call moves the total by its operations without SEM_UNDO |
| SemUndo.SmartUpdateLedger | device/soc/qemu/common/sdk_linux/ipc/sem.c:1049-1088 | The wakeups of do_smart_update account for every change of the total |
| SemArrays.NoRestart | device/soc/qemu/common/sdk_linux/ipc/sem.c:831-855 | When check_restart says no, or the completed call failed, every call already passed over is still blocked |
| SemArrays.ZeroBlocksAll | device/soc/qemu/common/sdk_linux/ipc/sem.c:984-993 | At semval 0 every queued decrement sleeps, so the per-semaphore scan may stop |
| SemArrays.DecrementKeepsBlocked | device/soc/qemu/common/sdk_linux/ipc/sem.c:844-854 | A completed decrement leaves every older decrement blocked |
| SemArrays.SemArray.UpdateQueue | device/soc/qemu/common/sdk_linux/ipc/sem.c:967-1016 | update_queue, in place with goto-restart and the early exit, gives the completion order, statuses, semvals and remaining queue of the naive rule; the queue length is the termination measure |
| SemArrays.SemArray.WakeConstOps | device/soc/qemu/common/sdk_linux/ipc/sem.c:871-899 | wake_const_ops removes exactly the calls that need not sleep, in order |
| SemArrays.SemArray.DoSmartWakeupZero | device/soc/qemu/common/sdk_linux/ipc/sem.c:912-949 | do_smart_wakeup_zero, in place, equals its specification on the set |
| SemArrays.SemArray.DoSmartUpdate | device/soc/qemu/common/sdk_linux/ipc/sem.c:1049-1088 | do_smart_update, both with and without the operations, equals its specification on the set |
| SemArrays.SemArray.MergeQueues | device/soc/qemu/common/sdk_linux/ipc/sem.c:312-320 | merge_queues in place equals Merge |
| SemArrays.SemArray.UnmergeQueues | device/soc/qemu/common/sdk_linux/ipc/sem.c:280-301 | unmerge_queues in place equals Unmerge |
| SemArrays.SemArray.SemLock | device/soc/qemu/common/sdk_linux/ipc/sem.c:386-454 | With nobody else running: which lock is taken, and the value of use_global_lock, from the number of operations and the lock state; waiting, the second look and the sweep over the semaphore locks are steps of SemLocks |
| SemArrays.SemArray.SemUnlock | device/soc/qemu/common/sdk_linux/ipc/sem.c:456-466 | sem_unlock under the global lock unmerges and takes one off use_global_lock if no complex call is queued; under a per-semaphore lock nothing changes |
| SemArrays.SemArray.SemTimedOp | device/soc/qemu/common/sdk_linux/ipc/sem.c:2163-2218 | The semop section on the class equals the step of the runs, with the status it returns |
| SemArrays.SemArray.GiveUp | device/soc/qemu/common/sdk_linux/ipc/sem.c:2282-2286 | unlink_queue of an interrupted sleeper under the lock, on the class: the step of the runs |
| SemArrays.SemArray.Relock | device/soc/qemu/common/sdk_linux/ipc/sem.c:2254-2292 | The sleeping end of do_semtimedop from sem_lock on, on the class: the task sleeps again if and only if the set is there, the status is EINTR and there is neither a timeout nor a signal; otherwise it returns EINTR for a set that is gone, else the status, else EAGAIN for a timeout, else EINTR; the set is that of the step of SemSleepers |
| SemArrays.SemArray.SemctlSetval | device/soc/qemu/common/sdk_linux/ipc/sem.c:1376-1434 | SETVAL on the class equals the step of the runs; ERANGE for the value and EINVAL for a semaphore outside the set change nothing |
| SemArrays.SemArray.SemctlSetall | device/soc/qemu/common/sdk_linux/ipc/sem.c:1538-1561 | SETALL on the class equals the step of the runs |
| SemArrays.SemArray.LinkUndo | device/soc/qemu/common/sdk_linux/ipc/sem.c:1989-2020 | The second half of find_alloc_undo: a new undo row of zeros joins the set as in the runs, or the lookup under the lock finds a row that was added meanwhile and nothing changes |
| SemArrays.SemArray.ExitSem | device/soc/qemu/common/sdk_linux/ipc/sem.c:2445-2481 | exit_sem for one row equals the step of the runs |
| SemArrays.SemArray.ApplyRow | device/soc/qemu/common/sdk_linux/ipc/sem.c:2453-2478 | The loop of exit_sem: each value becomes its sum with the adjustment, 0 if that is negative, SEMVMX if it is above; the row is gone |
| SemArrays.SemArray.FreeAry | device/soc/qemu/common/sdk_linux/ipc/sem.c:1169-1224 | freeary drops the undo rows and wakes everybody asleep exactly once with EIDRM, in queue order; the set it leaves is the one the runs of SemSleepers go on with |
| SemLocks.ActInv | device/soc/qemu/common/sdk_linux/ipc/sem.c:335-466 | Every step of sem_lock and sem_unlock, by any of any number of threads, keeps the lock invariant |
| SemLocks.LockSafety | device/soc/qemu/common/sdk_linux/ipc/sem.c:335-466 | Over every interleaving: a global section excludes every other, two local sections are on different semaphores, nobody waits for sem_perm.lock while owning a semaphore lock, use_global_lock never underflows |
| SemLocks.FlagSteps | device/soc/qemu/common/sdk_linux/ipc/sem.c:335-376 | Entering complex mode sets use_global_lock to ten, a global section that ends without complex calls queued takes one off, no other step of any thread touches it |
| SemLocks.FlagCounts | device/soc/qemu/common/sdk_linux/ipc/sem.c:335-466 | Under every interleaving in which nobody enters complex mode, the counter goes down by one for each global section that ends, so at most ten of them do |
| SemLocks.NoDeadlock | device/soc/qemu/common/sdk_linux/ipc/sem.c:386-466 | As long as some thread is inside sem_lock, a section or sem_unlock, some such thread can go on |
| SemSlices.LocalSectionsCommute | device/soc/qemu/common/sdk_linux/ipc/sem.c:386-454 | Two single-operation sections on different semaphores, run in either order, give the same statuses and the same set: why they may run under different locks |
| SemSlices.DrainOther | device/soc/qemu/common/sdk_linux/ipc/sem.c:967-1016 | update_queue on one semaphore leaves every other semaphore alone |
| SemSlices.DrainDepends | device/soc/qemu/common/sdk_linux/ipc/sem.c:967-1016 | What update_queue does to a semaphore depends on nothing but that semaphore |
| SemSmart.SmartUpdateForms | device/soc/qemu/common/sdk_linux/ipc/sem.c:1049-1088 | do_smart_update(sops) and its exhaustive form leave the same values, adjustments and queues and wake the same calls with the same statuses, outside one guard |
| SemSmart.SmartUpdateIff | device/soc/qemu/common/sdk_linux/ipc/sem.c:1049-1088 | While no queued call that changes the set can complete, the two forms agree on everything if and only if that guard is false |
| SemSmart.ZeroPassIff | device/soc/qemu/common/sdk_linux/ipc/sem.c:912-949 | That guard is exact for the zero passes: they agree on the complex wait-for-zero calls if and only if it is false |
| SemSmart.SmartUpdateChanges | device/soc/qemu/common/sdk_linux/ipc/sem.c:1049-1088 | Even inside the guard the two forms agree on the values, the adjustments and the calls still queued to change the set and, while complex calls are around, on the order and statuses of the completed ones |
| SemForms.FormsDiffer | device/soc/qemu/common/sdk_linux/ipc/sem.c:912-949 | After a run from newary one successful call makes the two forms give a queued wait-for-zero call different statuses, success in one and EAGAIN in the other |
| SemForms.FormsMayAgree | device/soc/qemu/common/sdk_linux/ipc/sem.c:1049-1088 | After another run, inside the guard but with a queued call that completes, the two forms agree on everything: no guard on the first look alone is exact there |
| SemForms.WayLeads | device/soc/qemu/common/sdk_linux/ipc/sem.c:2029-2292 | The runs that lead there: four semop() calls on a new set of four |
| SemSmart.CallChanged | device/soc/qemu/common/sdk_linux/ipc/sem.c:2163-2180 | A successful call that changes the set establishes what do_smart_update relies on |
| SemThreads.Serializable | device/soc/qemu/common/sdk_linux/ipc/sem.c:335-466 | Every interleaving of lock steps and sections by any number of threads, where a section under a semaphore lock reads the set at one moment and writes it at a later one, leaves the set of a serial run of the sections |
| SemThreads.NoLostWakeupInterleaved | device/soc/qemu/common/sdk_linux/ipc/sem.c:386-466 | So nobody is left asleep who could proceed, under every such interleaving |
| SemThreads.StepInv | device/soc/qemu/common/sdk_linux/ipc/sem.c:335-466 | Every step of any thread keeps the lock invariant, that a look at the set is still right for the semaphore whose lock is held, and that the set is that of a serial run |
| SemThreads.NothingHeldUp | device/soc/qemu/common/sdk_linux/ipc/sem.c:386-466 | A thread in its section may always store what it has worked out, and may always unlock |
| SemThreads.AnswerIsSerial | device/soc/qemu/common/sdk_linux/ipc/sem.c:386-454 | The status a call gets from its earlier look is the one it gets at its place in the serial run |
| SemThreads.PatchedIs | device/soc/qemu/common/sdk_linux/ipc/sem.c:386-454 | Writing one semaphore's part back into a set that others changed meanwhile is running the section on that set |
| SemPlaces.StepPlaces | device/soc/qemu/common/sdk_linux/ipc/sem.c:800-823 | Every section conserves the queued calls: a call that must sleep gets one place, one that gives up loses it, and all others only move from a queue to the woken, with a status that is not EINTR |
| SemPlaces.RemovedPlaces | device/soc/qemu/common/sdk_linux/ipc/sem.c:1169-1224 | freeary moves every queued call to the woken and leaves no queue |
| SemSleepers.StepInv | device/soc/qemu/common/sdk_linux/ipc/sem.c:2220-2292 | Every step of any task (semop, the lockless look at queue.status, the look under the lock, signal, timeout, spurious wakeup, SETVAL, SETALL, undo rows, IPC_RMID) keeps the invariant of queues, woken calls and tasks |
| SemSleepers.EachCallOnce | device/soc/qemu/common/sdk_linux/ipc/sem.c:2188-2292 | Over every run a call that sleeps is on one queue or woken once; the task of a queued call is still inside semop(); a call returns once, with the status it was woken with, or after giving up and leaving its queue, or with EINTR if it was woken while its task was on the way to the lock of a set that is gone |
| SemSleepers.NeverUnlinkedTwice | device/soc/qemu/common/sdk_linux/ipc/sem.c:2247-2286 | Over every run a task that still reads EINTR under the lock finds its node on exactly one queue, so unlink_queue is never run on a node that a wakeup removed, and no task is stuck between its two looks |
| SemSleepers.WakeupWins | device/soc/qemu/common/sdk_linux/ipc/sem.c:2247-2272 | Over every run the next look of a woken task returns and leaves the queues alone, and it returns the status of the wakeup, whatever signal or timeout it races with, if and only if the set is there or the look is the one without the lock; the look under the lock at a set that is gone returns EINTR |
| SemSleepers.GivesUp | device/soc/qemu/common/sdk_linux/ipc/sem.c:2254-2292 | Over every run a task that was not woken gives up, under the lock, if and only if its time is over or a signal is pending, with EAGAIN in the first case and EINTR for a signal alone; its call is on no queue and all other calls are where they were |
| SemSleepers.NobodySleepsOnNothing | device/soc/qemu/common/sdk_linux/ipc/sem.c:1169-1224 | Over every run, after IPC_RMID nothing is queued, everybody inside was woken once, and the next look of whoever sleeps returns |
| SemSleepers.SleepersJustified | device/soc/qemu/common/sdk_linux/ipc/sem.c:2188-2286 | Over every run a task inside semop() that was not woken has a call that would not succeed, and must sleep if it changes the set |
| SemRaces.DoneAndTold | device/soc/qemu/common/sdk_linux/ipc/sem.c:2247-2259 | A run in which a call is carried out and woken with 0 while its task, after a signal, is on its way to the lock; the set is removed first, and semop() returns EINTR |
| SemOrder.StatusAnswered | device/soc/qemu/common/sdk_linux/ipc/sem.c:649-799 | The status a queued call is evaluated to is the answer of the two evaluators, by its first operation that cannot proceed |
| SemOrder.NowaitNeverQueued | device/soc/qemu/common/sdk_linux/ipc/sem.c:2163-2218 | Over every run a call all of whose operations carry IPC_NOWAIT is on no queue |
| SemOrder.QueuedWaits | device/soc/qemu/common/sdk_linux/ipc/sem.c:2163-2218 | Over every run from newary whatever call is found on a queue has an operation without IPC_NOWAIT |
| SemOrder.StepOrdered | device/soc/qemu/common/sdk_linux/ipc/sem.c:2188-2218 | Every section keeps the queues in the order of the calls, through scans, merging, unmerging and queueing |
| SemOrder.FirstInFirstOut | device/soc/qemu/common/sdk_linux/ipc/sem.c:303-320 | Over every run, with calls numbered as they come: of two calls on one queue, unless both are single operations on different semaphores, the one in front is the earlier one |
| MsgFind.ConvertModeKeepsPromise | device/soc/qemu/common/sdk_linux/ipc/msg.c:1002-1028 | convert_mode and testmsg together select what msgrcv() promises for its type argument, LONG_MIN included |
| MsgFind.FindMsg | device/soc/qemu/common/sdk_linux/ipc/msg.c:1082-1105 | find_msg, narrowing its own type argument while it runs, returns the first message of least type not above the limit, the first match, or the n-th message |
| MsgFind.SelectedOnce | device/soc/qemu/common/sdk_linux/ipc/msg.c:1082-1105 | At most one message is the selected one |
| MsgSenders.RotatedStep | device/soc/qemu/common/sdk_linux/ipc/msg.c:212-235 | One turn of the loop of ss_wakeup: the list after it, and that the node saved before the move is the right place to go on |
| MsgSenders.StepOver | device/soc/qemu/common/sdk_linux/ipc/msg.c:212-235 | The saved stop node is met exactly when every sender was examined once |
| MsgQueues.MsgQueue.SsWakeup | device/soc/qemu/common/sdk_linux/ipc/msg.c:212-235 | ss_wakeup without kill ends after examining each sender once, wakes exactly those whose message fits, and leaves them in front of the others, both in their old order |
| MsgQueues.MsgQueue.SsKill | device/soc/qemu/common/sdk_linux/ipc/msg.c:212-235 | ss_wakeup with kill wakes every sender |
| MsgQueues.MsgQueue.ExpungeAll | device/soc/qemu/common/sdk_linux/ipc/msg.c:237-251 | expunge_all stores the error in every listed receiver and wakes it |
| MsgQueues.MsgQueue.PipelinedSend | device/soc/qemu/common/sdk_linux/ipc/msg.c:815-843 | pipelined_send gives the message to the first receiver that matches it and has room; the matching ones before it are taken off and told E2BIG |
| MsgQueues.OfferedAt | device/soc/qemu/common/sdk_linux/ipc/msg.c:815-843 | The walk over the receivers, seen from any of them: the one the message is handed to is the first able one at or behind it |
| MsgQueues.MsgQueue.SendRound | device/soc/qemu/common/sdk_linux/ipc/msg.c:879-951 | One round of do_msgsnd: EACCES changes nothing; EIDRM if and only if the queue is gone; accepted if and only if the message fits, and then the first able receiver has it or it is the last of the queue with all four counters; otherwise EAGAIN or asleep as the last of the senders |
| MsgQueues.MsgQueue.ReceiveRound | device/soc/qemu/common/sdk_linux/ipc/msg.c:1141-1212 | One round of do_msgrcv: EACCES changes nothing; EIDRM if and only if the queue is gone; E2BIG for a selected message that is too long; MSG_COPY leaves the message; else exactly the selected message leaves the queue with all four counters; without one ENOMSG, or asleep as the last of the receivers |
| MsgQueues.MsgQueue.SetQbytes | device/soc/qemu/common/sdk_linux/ipc/msg.c:418-449 | IPC_SET with its errors, which change nothing; otherwise the limit is new, every listed receiver is woken with an empty slot to look again, and of the senders exactly those that fit now are woken and none is lost |
| MsgQueues.MsgQueue.FreeQueue | device/soc/qemu/common/sdk_linux/ipc/msg.c:261-283 | freeque leaves EIDRM with every listed receiver, wakes everybody, and takes what was queued out of the namespace counters |
| MsgQueues.AfterSendSays | device/soc/qemu/common/sdk_linux/ipc/msg.c:879-951 | These claims of do_msgsnd for the sections of the runs |
| MsgQueues.AfterReceiveSays | device/soc/qemu/common/sdk_linux/ipc/msg.c:1141-1212 | These claims of do_msgrcv for the sections of the runs |
| MsgRuns.ActInv | device/soc/qemu/common/sdk_linux/ipc/msg.c:845-961 | Every step of every task (sending, receiving, lockless wakeup, signal, spurious wakeup, IPC_SET, IPC_RMID) keeps the invariant of lists, slots, program counters and books |
| MsgRuns.ExactlyOnce | device/soc/qemu/common/sdk_linux/ipc/msg.c:815-961 | Over every run a message whose msgsnd() succeeded is in exactly one place: queued, in one receiver's hand, returned by one msgrcv(), or destroyed with the queue; no other message is anywhere |
| MsgRuns.Counters | device/soc/qemu/common/sdk_linux/ipc/msg.c:940-948 | Over every run q_cbytes, q_qnum and the namespace's msg_bytes and msg_hdrs are the sums over the queued messages |
| MsgRuns.NobodySleepsInVain | device/soc/qemu/common/sdk_linux/ipc/msg.c:1141-1277 | Over every run a receiver whose slot is still waiting, woken or not, is listed on a live queue and matches no queued message; a sender that was not woken does not fit; after IPC_RMID nobody sleeps |
| MsgRuns.WokenLists | device/soc/qemu/common/sdk_linux/ipc/msg.c:212-235 | ss_wakeup restores that every sender left asleep does not fit, after the queue got emptier or larger |
| MsgRuns.HandoffLists | device/soc/qemu/common/sdk_linux/ipc/msg.c:815-843 | A hand-off leaves every receiver that stays asleep justified |
| MsgRuns.LookInv | device/soc/qemu/common/sdk_linux/ipc/msg.c:1223-1242 | Reading the slot without the lock: a message or error there is final, EAGAIN sends the task to the lock |
| MsgRuns.RelockReceiverInv | device/soc/qemu/common/sdk_linux/ipc/msg.c:1247-1261 | Under the lock the slot is read again, so a hand-off in between is not lost, and only a still waiting receiver unlists itself |
| MsgOrder.ActFlows | device/soc/qemu/common/sdk_linux/ipc/msg.c:845-961 | What each step of any task does to the messages: nothing, one or all leave, or one more is accepted and handed over or put at the end |
| MsgOrder.QueuedInOrder | device/soc/qemu/common/sdk_linux/ipc/msg.c:934-951 | First-in first-out, over every run: of two queued messages the one in front was accepted first |
| MsgOrder.EarliestFirst | device/soc/qemu/common/sdk_linux/ipc/msg.c:1141-1187 | Over every run a msgrcv() that takes a message from the queue takes the one accepted earliest of all queued (type 0), of its type, of the other types (MSG_EXCEPT), or of the least type not above the bound (negative type) |
| MsgOrder.HandedSuits | device/soc/qemu/common/sdk_linux/ipc/msg.c:815-843 | Over every run a message handed to a sleeping receiver is of the type and size it asked for |
| MsgOrder.ReceiversInOrder | device/soc/qemu/common/sdk_linux/ipc/msg.c:1194-1205 | Receivers wait in the order in which they went to sleep: every step takes some off and keeps the order of the others, or puts one task at the end |
| Hotplug.CpuState.InvokeRemembering | device/soc/qemu/common/sdk_linux/kernel/cpu.c:154-245 | cpuhp_invoke_callback for the hotplug thread: the calls made are the state's first n, it stops at the first failure and remembers the instance, and in a rollback it stops at the remembered one |
| Hotplug.CpuState.InvokeForgetting | device/soc/qemu/common/sdk_linux/kernel/cpu.c:154-245 | The same without lastp, for all callbacks: which calls are made and with what results; a multi-instance state that fails is cleaned up at once, and the value returned is that of the last call, not of the failure |
| Hotplug.CpuState.TakeBack | device/soc/qemu/common/sdk_linux/kernel/cpu.c:223-244 | The err: path calls the opposite callback for the instances done before, in list order, and overwrites ret each time; without such a callback, or with no instance done, ret stays the failure |
| Hotplug.CpuState.ThreadFun | device/soc/qemu/common/sdk_linux/kernel/cpu.c:698-770 | One run of the thread: one state entered or left, should_run cleared on arrival or failure |
| Hotplug.CpuState.RunThread | device/soc/qemu/common/sdk_linux/kernel/cpu.c:515-530 | The thread runs until it arrives or fails, and it does end; the calls are those of the walk up to there |
| Hotplug.CpuState.KickThread | device/soc/qemu/common/sdk_linux/kernel/cpu.c:515-530 | _cpuhp_kick_ap does nothing at its target and otherwise runs the thread to the end |
| Hotplug.CpuState.KickAp | device/soc/qemu/common/sdk_linux/kernel/cpu.c:532-545 | cpuhp_kick_ap reaches its target with exactly the calls of the walk, or returns to the old state having taken every call back in reverse state order; an error then stays in st->result only if no rollback run of the thread was needed; aimed at the current state it returns what is in st->result and, if that is an error, brings up the state behind the next one and ends two states up |
| Hotplug.CpuState.KickBack | device/soc/qemu/common/sdk_linux/kernel/cpu.c:494-545 | Re-aiming after a failure and the second kick take back exactly what was done, a half-done state instance by instance where st->last remembers one |
| Hotplug.CpuState.KickOver | device/soc/qemu/common/sdk_linux/kernel/cpu.c:494-545 | The same re-aiming when nothing was run: with the processor already in its target it steps over a state and enters the one behind it |
| Hotplug.CpuState.FailAndStay | device/soc/qemu/common/sdk_linux/kernel/cpu.c:532-545 | Two calls that get there: a bringup whose first callback fails by injection, then a call for the current state; the processor ends two states up, one state having been brought up, and the second call reports -EAGAIN |
| Hotplug.TurnBack | device/soc/qemu/common/sdk_linux/kernel/cpu.c:494-545 | The walk of the rollback, from where the failure left the walker, is the inverse of what was done |
| Hotplug.CpuState.UndoUp | device/soc/qemu/common/sdk_linux/kernel/cpu.c:625-630 | undo_cpu_up visits every state down to the target, whatever the callbacks return |
| Hotplug.CpuState.UpCallbacks | device/soc/qemu/common/sdk_linux/kernel/cpu.c:647-664 | cpuhp_up_callbacks for all callbacks and tables: it goes on while the value returned is 0, and from the first other one it comes back through every state, or stays there without hotplug support past the bringup state; every visit is what the callbacks make it |
| HotplugRollback.LostIff | device/soc/qemu/common/sdk_linux/kernel/cpu.c:197-244 | A failure is reported as 0 only behind the first instance of a state that can be torn down, and always there if tearing down succeeds |
| HotplugRollback.ReachesExactly | device/soc/qemu/common/sdk_linux/kernel/cpu.c:647-664 | cpuhp_up_callbacks that returns 0 is in its target; its calls are those of the walk if and only if no failure on the way was lost |
| HotplugRollback.ReturnsExactly | device/soc/qemu/common/sdk_linux/kernel/cpu.c:625-664 | With teardowns that succeed, one that returns a failure returns that of the failing call and is in its old state; every call made was taken back and no other was made if and only if no failure was lost before |
| HotplugRollback.StaysExactly | device/soc/qemu/common/sdk_linux/kernel/cpu.c:632-664 | Without hotplug support, past the bringup state, it stays in the state that failed, and if no failure was lost its calls are those of the walk and of that visit |
| HotplugRollback.CleanupsSucceed | device/soc/qemu/common/sdk_linux/kernel/cpu.c:223-244 | If teardown callbacks return 0, so do all calls of the err: path on the way up |
| HotplugRollback.TeardownsSucceed | device/soc/qemu/common/sdk_linux/kernel/cpu.c:625-630 | If teardown callbacks return 0, no call of undo_cpu_up fails |
| HotplugRollback.KeepsPromise | device/soc/qemu/common/sdk_linux/kernel/cpu.c:625-664 | With at most one instance in each multi-instance state on the way the rollback is exact for every result of every callback, teardown included |
| HotplugRollback.KeepsUnbroken | device/soc/qemu/common/sdk_linux/kernel/cpu.c:625-664 | With teardowns that succeed it is exact on every way on which no state with both callbacks has two instances, whatever the other callbacks return |
| HotplugRollback.Breaks | device/soc/qemu/common/sdk_linux/kernel/cpu.c:197-244 | For every table and way with such a state there are callbacks, teardowns succeeding, with which 0 is returned in the target and no instance of that state is set up |
| HotplugRollback.TwoInstances | device/soc/qemu/common/sdk_linux/kernel/cpu.c:197-244 | The smallest case: of two instances the second fails, the first is taken back, and the call returns 0 in its target |
| HotplugRollback.MissingStates | device/soc/qemu/common/sdk_linux/kernel/cpu.c:647-664 | After a success exactly the states that lost a failure are not set up, instance by instance |
| HotplugRollback.TornDownTwice | device/soc/qemu/common/sdk_linux/kernel/cpu.c:625-664 | If a later state fails, the rollback tears down instances of a state that lost a failure, which are not set up |
| Hotplug.AttemptKeepsLive | device/soc/qemu/common/sdk_linux/kernel/cpu.c:154-245 | Exact rollback: after a failed transition exactly the states up to the old one are set up, instance by instance, in either direction |
| Hotplug.WalkKeepsLive | device/soc/qemu/common/sdk_linux/kernel/cpu.c:515-530 | After a walk exactly the states up to the one reached are set up |
| Hotplug.WalkHolds | device/soc/qemu/common/sdk_linux/kernel/cpu.c:722-745 | The calls of an undisturbed walk are exactly the startup callbacks of the states above the start up to the target, or the teardown callbacks of those from the start down to above the target, for each instance of a multi-instance state |
| Hotplug.WalkOrder | device/soc/qemu/common/sdk_linux/kernel/cpu.c:722-745 | They come in the order of the states, upwards or downwards, and within a state in the order of its instances |
| Cpio.NAlign | device/soc/qemu/common/sdk_linux/init/initramfs.c:53 | N_ALIGN(n) >= n and 110 + N_ALIGN(n) is a multiple of 4 |
| Cpio.FoldConcat | device/soc/qemu/common/sdk_linux/init/initramfs.c:429-463 | The reference machine run on a + b is the machine run on a, then on b |
| Cpio.FoldCollect | device/soc/qemu/common/sdk_linux/init/initramfs.c:219-255 | Collecting several bytes at once is collecting them one by one |
| CpioUnpacker.Unpacker.ReadInto | device/soc/qemu/common/sdk_linux/init/initramfs.c:219-231 | read_into takes what it needs from the chunk in place or starts collecting |
| CpioUnpacker.Unpacker.DoCollect | device/soc/qemu/common/sdk_linux/init/initramfs.c:241-255 | do_collect: the bytes collected stay inside the buffer and are a prefix of what is wanted |
| CpioUnpacker.Unpacker.DoHeader | device/soc/qemu/common/sdk_linux/init/initramfs.c:257-288 | do_header: magic errors, offsets, and where each kind of header leads |
| CpioUnpacker.Unpacker.DoName | device/soc/qemu/common/sdk_linux/init/initramfs.c:341-384 | do_name with its branches for trailer, files, hard links, directories and nodes: the effects are those of the C string it reads, and the reference machine's if the name has a NUL |
| CpioUnpacker.Unpacker.DoCopy | device/soc/qemu/common/sdk_linux/init/initramfs.c:386-410 | do_copy writes what is there of the body, and closes the file with its time when it is complete |
| CpioUnpacker.Unpacker.DoSymlink | device/soc/qemu/common/sdk_linux/init/initramfs.c:412-422 | do_symlink has the effects of the reference machine |
| CpioUnpacker.Unpacker.MaybeLink | device/soc/qemu/common/sdk_linux/init/initramfs.c:326-336 | maybe_link with find_link's table as a map: an entry with other names is linked to the first of them or remembered |
| CpioUnpacker.Unpacker.Act | device/soc/qemu/common/sdk_linux/init/initramfs.c:424-438 | Any action in any state keeps the buffers in bounds and the position in step with the reference machine |
| CpioUnpacker.Unpacker.WriteBuffer | device/soc/qemu/common/sdk_linux/init/initramfs.c:429-438 | write_buffer: the eight actions run until the chunk is used up, and they do end |
| CpioUnpacker.Unpacker.FlushBuffer | device/soc/qemu/common/sdk_linux/init/initramfs.c:440-463 | Feeding a chunk through flush_buffer is feeding its bytes one by one to the reference machine, errors included |
| CpioUnpacker.Unpacker.Unpack | device/soc/qemu/common/sdk_linux/init/initramfs.c:440-463 | Chunk independence: however the stream is cut, trace, hard links, position and error are those of the reference machine on the whole stream |
| CpioUnpacker.Unpacker.FeedWhole | device/soc/qemu/common/sdk_linux/init/initramfs.c:257-288 | A header in one chunk is skipped, with the next_state an earlier read left, if and only if it has no name or one longer than PATH_MAX, is a symlink with a longer target, or has a body without being a file or symlink; all others are read on |
| CpioUnpacker.Unpacker.FeedCut | device/soc/qemu/common/sdk_linux/init/initramfs.c:241-288 | The same header in two chunks: an ill-formed one is skipped with next_state GotHeader |
| CpioUnpacker.CutsAgree | device/soc/qemu/common/sdk_linux/init/initramfs.c:241-288 | The same header in one chunk and in two: nothing is done yet, and the states and next_states right behind it agree if and only if the format allows the header or the first unpacker already had the next_state that a cut header leaves |
| CpioUnpacker.SkippedIff | device/soc/qemu/common/sdk_linux/init/initramfs.c:257-288 | Which headers are skipped and where the others lead |
| CpioUnpacker.Unpacker.FeedName | device/soc/qemu/common/sdk_linux/init/initramfs.c:219-384 | A header and its name in one chunk: do_name reads a C string in the chunk, and on behind the name if it has no NUL |
| CpioUnpacker.Unpacker.FeedNameCut | device/soc/qemu/common/sdk_linux/init/initramfs.c:219-384 | The same with the name cut: do_name reads on in what name_buf held before |
| CpioUnpacker.NamesAgree | device/soc/qemu/common/sdk_linux/init/initramfs.c:219-384 | The same header and name in one chunk and with the name cut: effects, links and position agree if and only if the name has a NUL, or what follows it in the chunk reads like what was left in name_buf |
| CpioUnpacker.AfterNameShows | device/soc/qemu/common/sdk_linux/init/initramfs.c:341-384 | Different names lead to different effects |
| CpioArchive.StrToUlHex | device/soc/qemu/common/sdk_linux/init/initramfs.c:166-188 | Eight hexadecimal digits, of either case in any mix, are read back as the number printed |
| CpioArchive.StrToUlShort | device/soc/qemu/common/sdk_linux/init/initramfs.c:166-176 | A field that is not eight digits: the number ends before the first byte that is not a digit, and starts behind a leading 0x |
| CpioArchive.DigitsAre | device/soc/qemu/common/sdk_linux/init/initramfs.c:166-176 | Which characters are digits, and what they stand for |
| CpioArchive.ParseHeader | device/soc/qemu/common/sdk_linux/init/initramfs.c:166-188 | parse_header reads back every field of a printed header, whatever the case of each digit |
| CpioArchive.EntryFolds | device/soc/qemu/common/sdk_linux/init/initramfs.c:257-422 | The bytes of one entry replay that entry and leave the machine between entries |
| CpioArchive.RoundTrip | device/soc/qemu/common/sdk_linux/init/initramfs.c:166-422 | Unpacking the archive of any well-formed entries, with digits in any mix of cases and any padding, replays exactly these entries in order, reports no error and ends between entries |
| CpioArchive.TwoArchives | device/soc/qemu/common/sdk_linux/init/initramfs.c:302-463 | An archive behind another, padded to a multiple of four, is unpacked after it, with the hard links of the first forgotten |
| CpioArchive.BehindArchive | device/soc/qemu/common/sdk_linux/init/initramfs.c:302-463 | What follows an archive is an error, and is not unpacked, if and only if its first byte is not NUL and is not the first digit of a header or does not stand at a multiple of four |
| CpioArchive.OneEntry | device/soc/qemu/common/sdk_linux/init/initramfs.c:341-422 | The effects of the archive of one entry, for each kind of file, spelled out |
| CpioArchive.HardLinked | device/soc/qemu/common/sdk_linux/init/initramfs.c:326-371 | Of two files with the same device and inode the second is linked to the first and opened without being cut |
| CpioArchive.UnpackArchive | device/soc/qemu/common/sdk_linux/init/initramfs.c:440-463 | The same for the unpacker itself, fed the archive in chunks of any sizes |
| IpcIds.Ids.constructor | device/soc/qemu/common/sdk_linux/ipc/util.c:114-126 | An empty table satisfies the invariant |
| IpcIds.Ids.IdrAlloc | device/soc/qemu/common/sdk_linux/ipc/util.c:201-259 | Any free index: seq advances, wrapping at ipcid_seq_max(), exactly when the index is not above the last one |
| IpcIds.Ids.AddId | device/soc/qemu/common/sdk_linux/ipc/util.c:276-327 | ipc_addid with every error; on an error slots and keys are unchanged although seq and last_idx may have advanced; otherwise one new entry; the tables agree afterwards |
| IpcIds.Ids.Enter | device/soc/qemu/common/sdk_linux/ipc/util.c:305-326 | A key insertion that fails, for a duplicate or for memory, gives the index back |
| IpcIds.Ids.RmId | device/soc/qemu/common/sdk_linux/ipc/util.c:464-482 | ipc_rmid removes the entry and its key; the downward scan finds the largest index left, or -1 |
| IpcIds.Ids.SetKeyPrivate | device/soc/qemu/common/sdk_linux/ipc/util.c:492-496 | ipc_set_key_private takes the object out of the key table only |
| IpcIds.Ids.FindKey | device/soc/qemu/common/sdk_linux/ipc/util.c:171-183 | ipc_findkey finds the one object of a key if and only if there is one |
| IpcIds.TablesAdd | device/soc/qemu/common/sdk_linux/ipc/util.c:305-326 | in_use, max_idx and the key table still say what the slots say after an addition |
| IpcIds.TablesRemove | device/soc/qemu/common/sdk_linux/ipc/util.c:464-482 | The same after a removal |
| IpcIds.TablesPrivate | device/soc/qemu/common/sdk_linux/ipc/util.c:492-496 | The same after a key was made private |
| IpcIds.HistoryAlloc | device/soc/qemu/common/sdk_linux/ipc/util.c:222-257 | Issues stay ordered by epoch and index, and an occupied slot's last issue is that of its occupant |
| IpcIds.SameId | device/soc/qemu/common/sdk_linux/ipc/util.c:256 | Two issues share an id if and only if they share the index and their epochs differ by a multiple of the sequence range |
| IpcIds.NotReissuedEarly | device/soc/qemu/common/sdk_linux/ipc/util.c:236-256 | An id comes back only after seq has advanced ipcid_seq_max() times |
| IpcIds.IdsIncrease | device/soc/qemu/common/sdk_linux/ipc/util.c:236-256 | Between two wraps of seq, issued ids strictly increase |
| IpcIds.StaleIds | device/soc/qemu/common/sdk_linux/ipc/util.c:597-634 | Looking up an id finds the object it was issued for or nothing, until seq has advanced through its range, for any allocator choices and any history |
| IpcIds.LiveIds | device/soc/qemu/common/sdk_linux/ipc/util.c:597-634 | A live object is found under its own id |
| IpcIds.Ids.ObtainObjectCheck | device/soc/qemu/common/sdk_linux/ipc/util.c:621-634 | ipc_obtain_object_check on the class never returns another object than the one the id was issued for, as long as seq has not gone round |
| IpcIds.CountAll | device/soc/qemu/common/sdk_linux/ipc/util.c:764-774 | A scan has met every object if and only if it has counted as many as there are |
| IpcIds.Ids.FindIpc | device/soc/qemu/common/sdk_linux/ipc/util.c:759-788 | sysvipc_find_ipc finds the least occupied index at or above pos; its early exit by counting is right |
| IpcIds.Ids.ShowAll | device/soc/qemu/common/sdk_linux/ipc/util.c:790-834 | The /proc iteration shows every object once, in ascending order |
| IpcIds.Ids.VisitInUse | device/soc/qemu/common/sdk_linux/ipc/shm.c:958-982 | The loop of shm_get_stat, which has no bound on the index, ends and meets every object once |
| Shm.NumPagesCheck | device/soc/qemu/common/sdk_linux/ipc/shm.c:697-709 | The check numpages << PAGE_SHIFT < size rejects exactly the sizes whose page sum wraps an unsigned long; for all others numpages is the size rounded up |
| Shm.PagesCover | device/soc/qemu/common/sdk_linux/ipc/shm.c:697-709 | The pages of a segment cover its size and none is wasted |
| Shm.ShmNs.NewSeg | device/soc/qemu/common/sdk_linux/ipc/shm.c:691-809 | newseg with every error: on an error nothing is left behind; otherwise the id returned finds the new segment and shm_tot grew by its pages, within shm_ctlall |
| Shm.ShmNs.ShmGet | device/soc/qemu/common/sdk_linux/ipc/util.c:396-439 | shmget through ipcget: any id returned finds a live segment of the key asked for and of at least the size asked for; with IPC_CREAT and IPC_EXCL, a new one |
| Shm.ShmNs.Destroy | device/soc/qemu/common/sdk_linux/ipc/shm.c:315-333 | shm_destroy, which may only be called when nobody uses the segment, takes its pages out of shm_tot and it out of the tables |
| Shm.ShmNs.DoRmid | device/soc/qemu/common/sdk_linux/ipc/shm.c:112-127 | A segment in use only loses its key and is marked; another one is destroyed |
| Shm.ShmNs.Rmid | device/soc/qemu/common/sdk_linux/ipc/shm.c:989-1016 | IPC_RMID by full id touches that segment alone |
| Shm.ShmNs.Open | device/soc/qemu/common/sdk_linux/ipc/shm.c:271-293 | __shm_open counts a mapping in if and only if the segment is still the one the file belongs to |
| Shm.ShmNs.Close | device/soc/qemu/common/sdk_linux/ipc/shm.c:358-386 | shm_close finds its own segment by index and takes one off its count; the segment is gone if and only if that was the last user and it was marked or shm_rmid_forced is set; all others stay as they were |
| Shm.ShmNs.Pin | device/soc/qemu/common/sdk_linux/ipc/shm.c:1584-1631 | The first half of do_shmat: found by full id, checked, counted in |
| Shm.ShmNs.Unpin | device/soc/qemu/common/sdk_linux/ipc/shm.c:1687-1697 | The second half: the unchecked lookup by index finds the pinned segment, and it is left as in shm_close |
| Shm.ShmNs.Mmap | device/soc/qemu/common/sdk_linux/ipc/shm.c:578-604 | shm_mmap undoes its open if the file system refuses; a segment pinned by the caller survives that |
| Shm.ShmNs.DoShmat | device/soc/qemu/common/sdk_linux/ipc/shm.c:1584-1697 | With any operations of other tasks in both unlocked stretches the last lookup meets the pinned segment; alone, do_shmat adds one mapping or nothing, except that a failed one destroys an unused segment if shm_rmid_forced is set |
| Shm.ShmNs.Others | device/soc/qemu/common/sdk_linux/ipc/shm.c:112-515 | Any sequence of operations of other tasks keeps the whole invariant and the pins of this one |
| Shm.ShmNs.DestroyOrphaned | device/soc/qemu/common/sdk_linux/ipc/shm.c:412-419 | shm_destroy_orphaned destroys exactly the segments without a creator and without users that are marked, or are not but shm_rmid_forced is set |
| Shm.ShmNs.ExitUnlink | device/soc/qemu/common/sdk_linux/ipc/shm.c:424-476 | exit_shm takes one segment off the task's list and looks at it again only if shm_rmid_forced is set |
| Shm.ShmNs.ExitFinish | device/soc/qemu/common/sdk_linux/ipc/shm.c:483-511 | The segment may be gone and its slot reused by then; only the very segment is destroyed |
| Shm.ShmNs.ExitShm | device/soc/qemu/common/sdk_linux/ipc/shm.c:422-515 | Of the segments of the task exactly the unused ones go, if shm_rmid_forced is set, and the others lose their creator; all other segments stay as they were |
| Shm.ShmNs.Lifetimes | device/soc/qemu/common/sdk_linux/ipc/shm.c:315-386 | At every release of the locks: shm_nattch is the number of pins and mappings, a segment marked SHM_DEST is in use and found by no key, shm_tot is the sum of the page-rounded sizes |
| Shm.UserFinds | device/soc/qemu/common/sdk_linux/ipc/shm.c:358-379 | Whoever counted himself in finds his segment, with a positive count |
| Shm.SaneDestroy | device/soc/qemu/common/sdk_linux/ipc/shm.c:315-333 | Destroying a segment nobody uses leaves all other users with their segments |
| Sha1.LowPlus | device/soc/qemu/common/sdk_linux/scripts/resource_tool.c:86-92 | An addition of unsigned longs agrees with addition modulo 2^32 on the lower half |
| Sha1.LowF | device/soc/qemu/common/sdk_linux/scripts/resource_tool.c:100-182 | The forms of Ch, Parity and Maj in the macro F are the standard's, on the lower halves |
| Sha1.LowS5 | device/soc/qemu/common/sdk_linux/scripts/resource_tool.c:81 | The macro S is a rotation of the lower half, whatever the upper half holds |
| Sha1.P | device/soc/qemu/common/sdk_linux/scripts/resource_tool.c:86-92 | The macro P, which changes two registers in place, is a round of section 6.1.2 of FIPS 180-4 with the registers renamed |
| Sha1.R | device/soc/qemu/common/sdk_linux/scripts/resource_tool.c:83-84 | The ring of sixteen words yields the eighty-word schedule (sections 6.1.2 and 6.1.3) |
| Sha1.Process | device/soc/qemu/common/sdk_linux/scripts/resource_tool.c:60-213 | sha1_process on words wider than 32 bits computes, modulo 2^32, the next hash value of section 6.1.2 |
| Sha256.P | device/soc/qemu/common/sdk_linux/scripts/resource_tool.c:362-371 | The macro P is a round of section 6.2.2 with the registers renamed |
| Sha256.R | device/soc/qemu/common/sdk_linux/scripts/resource_tool.c:360 | The just-in-time schedule is that of section 6.2.2 |
| Sha256.Process | device/soc/qemu/common/sdk_linux/scripts/resource_tool.c:325-454 | sha256_process computes the next hash value of section 6.2.2 |
| ShaConstants.RoundConstants | device/soc/qemu/common/sdk_linux/scripts/resource_tool.c:381-444 | Each round constant holds the first 32 bits of the fraction of the cube root of a prime, the first 64 primes in order |
| ShaConstants.StartValues | device/soc/qemu/common/sdk_linux/scripts/resource_tool.c:315-322 | The initial hash value of SHA-256 holds those of the square roots of the first eight primes |
| ShaConstants.FourConstants | device/soc/qemu/common/sdk_linux/scripts/resource_tool.c:100-182 | The constants of SHA-1 are the square roots of 2, 3, 5 and 10 times 2^30, cut to integers, for twenty rounds each |
| ShaDigests.AbcSha1 | device/soc/qemu/common/sdk_linux/scripts/resource_tool.c:60-213 | SHA-1 of "abc", round by round, is the digest of appendix A.1 of FIPS 180-2 |
| ShaDigests.AbcSha256 | device/soc/qemu/common/sdk_linux/scripts/resource_tool.c:325-454 | SHA-256 of "abc", round by round, is the digest of appendix B.1 of FIPS 180-2 |
| ShaStream.Context.Update | device/soc/qemu/common/sdk_linux/scripts/resource_tool.c:222-258 | sha1_update and sha256_update (467-502): whatever was in the buffer, after the call the context stands for the message fed so far with the input behind it |
| ShaStream.Context.Finish | device/soc/qemu/common/sdk_linux/scripts/resource_tool.c:267-290 | sha1_finish and sha256_finish (508-534): the digest of all that was fed, by sections 5.1.1, 6.1.2 and 6.2.2 |
| ShaStream.LengthField | device/soc/qemu/common/sdk_linux/scripts/resource_tool.c:273-277 | The two 32-bit counters and the shifts produce the 64-bit big-endian bit length |
| ShaStream.Padding | device/soc/qemu/common/sdk_linux/scripts/resource_tool.c:279-283 | last and padn select exactly the padding of section 5.1.1 |
| ShaStream.PadIs | device/soc/qemu/common/sdk_linux/scripts/resource_tool.c:260-283 | A padded message is the message, a one bit, zero bits and the big-endian bit length, in as few blocks as can hold them |
| ShaStream.HashPieces | device/soc/qemu/common/sdk_linux/scripts/resource_tool.c:222-290 | Any split of a message over updates gives the digest of the message |
| ShaStream.Csum | device/soc/qemu/common/sdk_linux/scripts/resource_tool.c:295-302 | sha1_csum and sha256_csum compute the digest of their input |
| ResourceOrder.PrepareFiles | device/soc/qemu/common/sdk_linux/scripts/resource_tool.c:1527-1545 | The in-place reordering permutes the files and throws out only copies of the image; with the image not listed, the device trees come first in their original order; what is packed is free of the image if and only if, the image being named like a device tree, it is not listed, or otherwise no copy is among the last r - 1 files, r being how often it is listed |
| ResourceOrder.ExcludesIff | device/soc/qemu/common/sdk_linux/scripts/resource_tool.c:1531-1544 | That condition for recognized copies, for the loop from any position |
| ResourceOrder.PacksItself | device/soc/qemu/common/sdk_linux/scripts/resource_tool.c:1538-1543 | Two copies of the image, and one of them is packed |
| ResourceOrder.PacksDtbImage | device/soc/qemu/common/sdk_linux/scripts/resource_tool.c:1531-1544 | An image named like a device tree, listed once, is packed |
| ResourceImage.Apart | device/soc/qemu/common/sdk_linux/scripts/resource_tool.c:1461-1507 | The block ranges of header, index entries and contents are pairwise disjoint |
| ResourceImage.ImageFile.WriteData | device/soc/qemu/common/sdk_linux/scripts/resource_tool.c:743-764 | write_data stores the data padded with zeros to whole blocks |
| ResourceImage.ImageFile.WriteFile | device/soc/qemu/common/sdk_linux/scripts/resource_tool.c:1390-1438 | write_file stores content and SHA-1; an empty file is an error |
| ResourceImage.WrittenNext | device/soc/qemu/common/sdk_linux/scripts/resource_tool.c:1468-1510 | Writing one content and its entry leaves everything before in place |
| ResourceImage.ImageFile.WriteIndexTbl | device/soc/qemu/common/sdk_linux/scripts/resource_tool.c:1457-1515 | write_index_tbl succeeds if and only if no file is empty, and then every entry and content is where the index says |
| ResourceImage.ImageFile.PackImage | device/soc/qemu/common/sdk_linux/scripts/resource_tool.c:1517-1559 | pack_image: order, header, entries and contents, and when it fails |
| ResourceImage.ImageFile.DumpFile | device/soc/qemu/common/sdk_linux/scripts/resource_tool.c:1241-1292 | The copy loop of dump_file yields exactly the content range, and fails exactly if the image ends before it |
| ResourceImage.ImageFile.UnpackImage | device/soc/qemu/common/sdk_linux/scripts/resource_tool.c:1294-1373 | unpack_image on a packed image returns the stored paths and the contents, in order |
| ResourceImage.ImageFile.GetEntry | device/soc/qemu/common/sdk_linux/scripts/resource_tool.c:838-893 | get_entry finds the first entry of a path, and reports its absence exactly when no entry has it |
| ResourceImage.PathBack | device/soc/qemu/common/sdk_linux/scripts/resource_tool.c:1486-1506 | A stored path is read back, cut to 219 characters |
| ResourceImage.StoredPaths | device/soc/qemu/common/sdk_linux/scripts/resource_tool.c:1486-1506 | The stored path: "rk-kernel.dtb" for the first device tree; for later ones and all other files what follows the image root, less one slash and a leading "./", or the whole path outside it |
| ResourceImage.LittleEndian | device/soc/qemu/common/sdk_linux/scripts/resource_tool.c:574-598 | The tags, and the order of the bytes of a 32-bit number |
| ResourceImage.HeaderParts | device/soc/qemu/common/sdk_linux/scripts/resource_tool.c:576-585 | Where the fields of the header are |
| ResourceImage.EntryParts | device/soc/qemu/common/sdk_linux/scripts/resource_tool.c:591-598 | Where the fields of an index entry are |
| ResourceImage.PackAndUnpack | device/soc/qemu/common/sdk_linux/scripts/resource_tool.c:1294-1559 | Packing succeeds if and only if no file is empty, and unpacking then recovers the list of stored paths and contents |

## Left out

Contracts that say less than the code does, or hold under conditions:

- SemRuns.NoLostWakeup: of queued wait-for-zero calls it says that none would succeed, not that each must sleep; a complex one that mixes IPC_NOWAIT with blocking operations may stay queued although it would fail with EAGAIN, because the scan runs only when something is zero.
- SemThreads.Serializable: a section under a semaphore lock reads the set at one moment and writes its semaphore at one later moment; finer interleavings of its reads and writes are not modelled, nor is the check, after waiting for a lock, that the set still exists.
- SemSleepers.EachCallOnce: a section is one step; that the lookup before it may find no set is not part of a call.
- SemSmart.SmartUpdateForms: one direction; the other holds while no queued call that changes the set can complete (SemSmart.SmartUpdateIff) and is false in general (SemForms.FormsMayAgree).
- SemArrays.SemArray.SemLock: nobody else is running; waiting, the second look and the sweep are in SemLocks and SemThreads.
- SemArrays.SemArray.LinkUndo: allocation failure and the check that the set still exists come before it.
- SemArrays.SemArray.SemctlSetall: starts when the user's values were copied and checked; the copying, the reallocation of its buffer and the check that the set still exists are not part of it.
- SemOrder.FirstInFirstOut: two single operations on different semaphores may stand in any order once their queues were merged; nothing is said of them.
- MsgOrder.EarliestFirst: it speaks of messages that msgrcv() takes from the queue; which of several waiting receivers gets a new one is MsgQueues.MsgQueue.PipelinedSend.
- MsgRuns.ExactlyOnce: a message msgrcv() removed counts as returned even if copying it to the user then fails.
- MsgQueues.MsgQueue.SetQbytes: what the permission, capability and owner checks say are parameters; msg_qbytes is not negative.
- Hotplug.CpuState.KickAp: callbacks of the rollback succeed and multi-instance states have both callbacks; a call for the current state after an error needs two more states in the table.
- Hotplug.CpuState.ThreadFun: the single-callback mode of cpuhp_invoke_ap_callback and its node argument are not modelled.
- CpioUnpacker.Unpacker.Unpack: the stream never meets a header or name the format does not allow; chunks are below 2^32 bytes, as eat takes an unsigned int.
- CpioUnpacker.Unpacker.DoName: a name with no NUL in it or behind it ends with its buffer; the code would read on.
- CpioUnpacker.Unpacker.DoCopy: a write stores everything it is given; a short write, which the code reports, does not happen.
- CpioUnpacker.Unpacker.FlushBuffer: once an error is reported it states the effects and the error, not the position in the stream.
- CpioArchive.StrToUlShort: simple_strtoul is not part of this model; an optional 0x and then digits of either case up to the first other byte is what it is taken to read in base 16.
- CpioArchive.RoundTrip: names have no NUL and are shorter than PATH_MAX, numbers fit eight hexadecimal digits.
- IpcIds.StaleIds: the checkpoint/restore path that asks for a particular id is excluded; it may alias.
- Shm.ShmNs.Pin: looking the segment up and locking it are one step, so the EIDRM for a segment that goes away in between does not occur.
- Shm.ShmNs.DoShmat: address checks, the file clone and the mapping itself are parameters; interference comes between its locked sections.
- Shm.ShmNs.ExitShm: one task exiting with nobody else running; under interference only its two sections are used, each of which keeps the invariant.
- ShaStream.Context.Finish: the length field is the bit length modulo 2^64, so messages of 2^61 bytes and more are beyond the standard.
- ResourceOrder.PrepareFiles: a name shorter than four characters is not a device tree; the code compares bytes in front of it.
- ResourceImage.ImageFile.WriteIndexTbl: hash_size is stored as on a little-endian host; the code does not convert it.
- ResourceImage.ImageFile.PackImage: the image stays under 2^31 bytes, and the claims about its contents are made only if no packed file is the image itself.
- ResourceImage.ImageFile.UnpackImage: creating directories and the name of the target directory are left out, and a file that fails halfway does not appear among the results.

Not modelled:

- copying to and from user space, compatibility structures, formatting of /proc files, audit records, process ids and times of the IPC objects: plumbing.
- GETALL, GETNCNT, GETZCNT and the stat calls: they only read.
- The per-process list of undo rows, beyond the rows themselves, and its sharing by CLONE_SYSVSEM.
- shm_exit_ns and the other namespace teardowns: do_shm_rmid and its kin once for each object.
- SHM_LOCK, huge pages, memory policies, the bodies of the file operations in ipc/shm.c.
- The down direction outside the stepper (cpuhp_down_callbacks, takedown_cpu), SMT control, masks, suspend and the adding and removing of callbacks in kernel/cpu.c.
- Decompression, the hash function of the hard-link table, and the callers of unpack_to_rootfs.
- The test, animation and option parsing parts of scripts/resource_tool.c.
- util.h, the idr and the rhashtable are not part of this model; ids are an index below 2^shift and a sequence number above it.
