# Verified model of the kernel scheduler and of the formatted I/O library

The project models two parts of the repository and proves properties of them.

**The kernel** (`kernel/`): the two-level bitmap run queue, the dispatcher, the mutexes with Highest
Locker Priority, the periodic devices with their sleep chains, and the way from `task_create` to the
first running task.

**The library** (`tasks/libc/`): the formatter `_doprnt` with the sinks of `printf` and `sprintf`, and
the parsers `strtol`, `strtoul` and `_doscan` (ISO/IEC 9899:1999, sections 7.19.6.1, 7.19.6.5, 7.19.6.7
and 7.20.1.4, with the deviations of the source).

| file | what it holds |
|---|---|
| `Config.dfy` | constants and error numbers of the kernel |
| `RunQueue.dfy` | the bitmaps and the array as a partial map; the run queue in place |
| `Schedule.dfy` | the sort passes and the utilization test of `assign_schedule` |
| `LiuLayland.dfy` | the bound table is that of Liu and Layland |
| `KernelSpec.dfy` | the kernel as a state machine over values |
| `WellFormedness.dfy` | what every operation keeps in every well-formed state |
| `Invariants.dfy` | what holds in every reachable state |
| `Startup.dfy` | `task_create` establishes it |
| `KernelRuns.dfy` | steps and runs |
| `KernelTheorems.dfy` | the theorems about runs |
| `WaitWindow.dfy` | `dev_wait` with its interrupt window: exactly when one tick in it does harm |
| `Scenarios.dfy` | runs from boot that reach the states in which the kernel falls short |
| `MutexFifo.dfy` | mutex queues in arrival order |
| `KernelMemory.dfy` | tables of records linked through one field, and the states they represent |
| `Kernel.dfy` | the kernel routines on those tables, in place |
| `Numerals.dfy` | characters, machine integers, digit strings |
| `Strtol.dfy` | `strtol` and `strtoul` |
| `Doprnt.dfy` | `_doprnt` |
| `Doscan.dfy` | `_doscan` and the string cursor |
| `Sinks.dfy` | where formatted characters go |
| `RoundTrip.dfy` | the printer and the parsers undo each other |
| `Formats.dfy` | what a directive says, and what whole formats print |
| `Spelling.dfy` | numbers in either case, in any base, behind any prefix |
| `Scanning.dfy` | where `_doscan` goes on and where it stops |

`dafny verify dfyconfig.toml` checks everything.

## How the kernel part is built

`KernelSpec.State` is the kernel as a value: the TCB table, the current task, the run queue as a map,
all lists that go through the link field `sleep_queue` as sequences (four device chains and 32 mutex
queues), the mutex table, the device match values and the clock. One function per C routine says what it
does to that value. `Kernel.System` holds the source's tables and runs the source's loops on them; a
ghost field keeps the value that the tables represent, and each method proves that it changed as its
function says. A task suspended inside `mutex_lock` finishes that call when it is next switched to; this
is the only part of a saved context that matters here.

Two predicates carry the proofs. `WellFormed` says that nobody is in two places; every operation keeps
it from any state at all, so the FIFO theorem also covers contended mutexes, which real runs never have.
`Invariant` says more of the states reached after a successful `task_create`: nobody is lost, only the
running task holds mutexes, the lock counts are right, the devices are on time.

## How the library part is built

A C string pointer is the rest of a Dafny string; reading at its end gives NUL. `DoprntSpec` and
`DoscanSpec` say what a format does; the methods beside them run the source's loops and produce exactly
that. `None` stands for undefined behaviour (a missing or ill-typed argument) and for conversions outside
the model. 32-bit and 64-bit reduction is written out (`Wrap32`, `Wrap64`, `% TWO_32`).

## Where the code differs from its documentation

The model follows the code.

- `highest_prio` answers 0, not `IDLE_PRIO`, on an empty queue (kernel/sched/ctx_switch.c:40-42 says
  otherwise); `KernelTheorems.DispatchSaveSeesSomebody` shows that a reachable state never asks.
- `assign_schedule` promises a sorted list (kernel/sched/ub_test.c:30-32) and does not always deliver:
  `Schedule.ReorderNeedNotSort` is a list it leaves unsorted, `Schedule.ReorderSortsIff` says exactly
  which lists it sorts.
- A task descriptor whose three timing parameters are all zero switches the utilization test off: zero
  periods are sorted to the front, and a comparison with not-a-number is false. If a list has a zero
  period, its first such descriptor alone decides (`Schedule.ZeroPeriodDecides`);
  `Startup.OverloadAccepted` is a set of five times the capacity that is accepted.
- `task_create` does not reset the mutexes; `Startup.RespawnIff` says when a second call is harmless.
- `mutex_unlock` lowers the priority of its caller without dispatching
  (`KernelTheorems.UnlockLeavesBetterTaskReadyIff`; a run that shows it: `Scenarios.UnlockGoesWrong`).
- `dev_wait` promises to put its caller to sleep until the next event, but it enables interrupts before
  it calls `dispatch_sleep` (kernel/device.c:63-85). `WaitWindow.SplitWaitIff` says exactly when
  an interrupt in between is harmless, `Scenarios.WindowGoesWrong` reaches both ways in which it is not.
- `strtol` recognises a plus sign and does not step over it; `%#p` prints its prefix twice; `%s` with a
  precision that cuts, left adjustment and padding comes out one character short; `vsnprintf` puts its
  terminator behind `size` characters.

## Model

| member | source | states |
|---|---|---|
| RunQueue.PrioUnmapIsLowest | kernel/sched/run_queue.c:38-57 | each of the 256 entries of the unmap table is the lowest set bit of its index |
| RunQueue.ClearRefines | kernel/sched/run_queue.c:62-69 | clearing the bits alone gives the empty map, whatever the array holds |
| RunQueue.AddRefines | kernel/sched/run_queue.c:79-89 | adding is map update and keeps group bits in step with their bytes |
| RunQueue.RemoveRefines | kernel/sched/run_queue.c:99-118 | removing deletes the key and keeps group bits in step with their bytes |
| RunQueue.HighestRefines | kernel/sched/run_queue.c:124-129 | two table look-ups find the least key of the map, and give 0 on the empty map |
| RunQueue.HistoryRefines | kernel/sched/run_queue.c:62-129 | after any sequence of init, add and remove on any initial memory, bitmaps and array behave as the map |
| RunQueue.Queue.Init | kernel/sched/run_queue.c:62-69 | in place: the queue is empty, the array is untouched |
| RunQueue.Queue.Add | kernel/sched/run_queue.c:79-89 | in place: the represented map gains the key |
| RunQueue.Queue.Remove | kernel/sched/run_queue.c:99-118 | in place: the represented map loses the key, its task is returned, both asserts of the source hold |
| RunQueue.Queue.HighestPrio | kernel/sched/run_queue.c:124-129 | the least key of the represented map, 0 if it is empty |
| Schedule.SortTasks | kernel/sched/ub_test.c:51-59 | the nested loops leave in the array the reordered list that the lemmas below are about |
| Schedule.ReorderGuarantee | kernel/sched/ub_test.c:51-59 | for every list: a permutation, stable among equal periods, with a shortest period first |
| Schedule.ReorderSortsIff | kernel/sched/ub_test.c:30-59 | the result is sorted by period iff, for each task, the strictly shorter periods to its right exceed by at most one the longer ones anywhere and the equal ones to its right |
| Schedule.NearlySortedGetsSorted | kernel/sched/ub_test.c:51-59 | at most one strictly shorter period to the right of each task is enough for a sorted result |
| Schedule.ReorderNeedNotSort | kernel/sched/ub_test.c:51-59 | periods 3, 2, 1 come out as 1, 3, 2 |
| Schedule.AssignSchedule | kernel/sched/ub_test.c:40-79 | the array is reordered in place and the answer is that of the utilization test on the reordered list |
| Schedule.AdmitIff | kernel/sched/ub_test.c:61-77 | the test accepts iff every task before the first all-zero one has a positive period and its prefix utilization, with its own blocking term, is within its bound |
| Schedule.AdmitWithoutBlocking | kernel/sched/ub_test.c:17-77 | with positive periods and no blocking terms, acceptance is total utilization within the bound for the list's length, whatever the order |
| Schedule.ZeroPeriodDecides | kernel/sched/ub_test.c:51-77 | if the list passed in has a zero period, the outcome of the whole test is whether its first such descriptor is all zero |
| Schedule.PositivePeriodsIff | kernel/sched/ub_test.c:51-77 | if it has none, the test accepts iff every task of the reordered list meets its bound |
| LiuLayland.TableIsLiuLayland | kernel/sched/ub_test.c:17-26 | every entry n of the table is n * (2^(1/n) - 1) to four decimals |
| LiuLayland.AdmissionIsLiuLayland | kernel/sched/ub_test.c:40-79 | with positive periods and no blocking terms, accepted sets are within the bound of Liu and Layland and refused ones are not, to four decimals of the load, without reference to the table |
| KernelMemory.PushFrontRepresents | kernel/device.c:79-80 | linking the current task in front of a device chain is consing on that sequence; all other lists through the shared link field stay as they are |
| KernelMemory.AwaitLastRepresents | kernel/lock/mutex.c:77-86 | linking the current task behind the last waiter is appending to that mutex queue; all other lists stay as they are |
| KernelMemory.PopMutexRepresents | kernel/lock/mutex.c:122-126 | unlinking the first waiter removes the head of that sequence and leaves the other lists alone |
| Kernel.System.constructor | kernel/main.c:29-42 | zeroed tables after `mutex_init` represent the boot state |
| Kernel.System.MutexInit | kernel/lock/mutex.c:26-36 | every mutex is uncreated, free and without waiters; none are numbered |
| Kernel.System.DispatchSleep | kernel/sched/ctx_switch.c:69-99 | on the tables: the best ready task leaves the run queue and becomes current |
| Kernel.System.DispatchSave | kernel/sched/ctx_switch.c:44-61 | on the tables: the current task is queued and the best task switched to iff a better one is ready (also on an empty queue, where it picks itself) |
| Kernel.System.MutexCreate | kernel/lock/mutex.c:38-52 | on the tables: as the specification says, with the same result, representation and well-formedness kept |
| Kernel.System.LastWaiter | kernel/lock/mutex.c:78-84 | the walk along the links ends, at the last element of the queue |
| Kernel.System.JoinQueue | kernel/lock/mutex.c:75-86 | the caller is appended to the mutex queue |
| Kernel.System.MutexLock | kernel/lock/mutex.c:54-97 | on the tables: state and result are those of the specification, from any well-formed state, including the blocking branch |
| Kernel.System.MutexUnlock | kernel/lock/mutex.c:99-140 | on the tables: state and result are those of the specification, from any well-formed state, including the hand-over |
| Kernel.System.DevInit | kernel/device.c:48-60 | every chain empty, every match value one period from now |
| Kernel.System.EventWait | kernel/syscall/proc.c:86-98 | on the tables: refusals and suspension as specified |
| Kernel.System.DevWait | kernel/device.c:70-87 | on the tables: the caller goes to the front of the chain and the best ready task runs |
| Kernel.System.WakeAll | kernel/device.c:121-128 | the loop ends, every task of the chain is ready, its links are cleared, all other chains stay |
| Kernel.System.DevUpdate | kernel/device.c:97-143 | on the tables: due devices are signalled, and the dispatcher runs iff somebody was woken |
| Kernel.System.TimerInterrupt | kernel/kernel_helpers.c:36-45 | one tick advances the clock by 5 ms and updates the devices |
| Kernel.System.AllocateTasks | kernel/sched/sched.c:58-114 | task `j` of the ordered list gets slot `j + 1` and that priority; exactly these and the idle task are ready |
| Kernel.System.TaskCreate | kernel/syscall/proc.c:29-84 | on the tables: error codes and new state as specified; started from a bootable state, success establishes the invariant |
| WellFormedness.DispatchSleepKeeps | kernel/sched/ctx_switch.c:69-99 | from any suspended well-formed state there is somebody to switch to, and nobody ends up in two places |
| WellFormedness.MutexLockKeeps | kernel/lock/mutex.c:54-97 | from any well-formed state, reachable or not, locking and blocking put nobody in two places |
| WellFormedness.MutexUnlockKeeps | kernel/lock/mutex.c:99-140 | the same for unlocking and handing over |
| Invariants.DispatchSaveHolds | kernel/sched/ctx_switch.c:44-61 | the invariant is kept, running and ready tasks together stay the same, and the best of them runs |
| Invariants.NeverBlocks | kernel/lock/mutex.c:75-90 | a created mutex that the caller does not hold is free and has no waiters |
| Invariants.EventWaitHolds | kernel/syscall/proc.c:86-98 | the invariant is kept, the caller heads the chain of its device, the best ready task runs |
| Invariants.SignalFirstMoves | kernel/device.c:115-135 | exactly the tasks on the chains of due devices become ready, those chains empty, all others and their match values stay |
| Invariants.TickHolds | kernel/kernel_helpers.c:39-44 | a tick keeps the invariant, moves exactly the sleepers of due devices, and changes nothing about who runs if there are none |
| Startup.StartsRight | kernel/syscall/proc.c:46-80 | any accepted task set: the invariant is established and the first task to run has a shortest period, or is idle if there are no tasks |
| Startup.AcceptedIff | kernel/syscall/proc.c:46-67 | any set, zero periods and blocking terms included, is accepted iff it has at most 62 tasks, lies in user memory and is schedulable: if some period is zero, the first such descriptor is all zero; otherwise every task of the reordered list meets its bound; a refused set changes nothing |
| Startup.CreationAnswers | kernel/syscall/proc.c:46-67 | -EINVAL iff there are more than 62 tasks, else -EFAULT iff the address is bad, else -ESCHED iff the set is not schedulable |
| Startup.AcceptedWithoutBlockingIff | kernel/syscall/proc.c:46-67 | without blocking terms: total utilization within the bound for the size of the set, or, if some period is zero, no computation time in the first descriptor with a zero period |
| Startup.OverloadAccepted | kernel/sched/ub_test.c:61-77 | a set of load 5.0 is accepted because it contains an all-zero descriptor, and refused without it |
| Startup.RateMonotonicIff | kernel/sched/sched.c:69-92 | priorities come out rate-monotonic iff the list passed in satisfies the sortability condition |
| Startup.RespawnIff | kernel/syscall/proc.c:69-80 | a repeated `task_create` re-establishes the invariant iff no mutex is held |
| KernelRuns.StepKeeps | kernel/kernel_helpers.c:36-87 | every system call and every tick keeps every well-formed state well-formed |
| KernelRuns.StepHolds | kernel/kernel_helpers.c:36-87 | every system call and every tick keeps the invariant |
| KernelRuns.RunHolds | kernel/kernel_helpers.c:36-87 | the invariant holds in every state of every run |
| KernelRuns.Reachable | kernel/syscall/proc.c:29-84 | the invariant holds in every state reached from boot through a successful `task_create` |
| KernelTheorems.AtMostOnePlace | kernel/sched/ctx_switch.c:44-99 | in any well-formed state each task occurs at most once among current task, run queue, chains and mutex queues |
| KernelTheorems.ExactlyOnePlace | kernel/device.c:70-143 | in any reachable state every live task occurs exactly once and nobody else at all; a ready task is in the slot of its own priority |
| KernelTheorems.LockNeverSuspends | kernel/lock/mutex.c:69-93 | Highest Locker Priority: a lock never suspends its caller, mutex queues and slot 0 stay empty, and locking succeeds iff the mutex exists and has no holder |
| KernelTheorems.LockAccounting | kernel/lock/mutex.c:91-136 | `holds_lock` is the number of mutexes held, the priority is 0 iff it is positive and native otherwise, only the running task holds any |
| KernelTheorems.UnlockUndoesLock | kernel/lock/mutex.c:54-140 | unlocking right after locking restores the whole kernel state, nested or not |
| KernelTheorems.CreateGivesFresh | kernel/lock/mutex.c:38-52 | a created mutex had an invalid number before and is free, the others are untouched, and creation fails iff all 32 exist |
| KernelTheorems.LockAnswers | kernel/lock/mutex.c:54-97 | -EINVAL iff the mutex is not created, -EDEADLOCK iff the caller holds it, 0 iff it is created and free; a refusal changes nothing |
| KernelTheorems.UnlockAnswers | kernel/lock/mutex.c:99-140 | -EINVAL iff the mutex is not created, -EPERM iff it is and the caller does not hold it, 0 iff the caller holds it, and then it is free; a refusal changes nothing |
| KernelTheorems.NeverDry | kernel/sched/ctx_switch.c:69-99 | idle is running or ready, so a task that suspends itself finds a successor; a live task that is not ready and holds no lock has an empty slot |
| Invariants.PopReadyHolds | kernel/device.c:122-128 | waking the head of a chain keeps the invariant and adds it to the run queue at a priority whose slot was empty |
| Invariants.PreemptionYields | kernel/sched/ctx_switch.c:47-50 | the preempted task is added at a priority whose slot was empty |
| KernelTheorems.DispatchSaveSeesSomebody | kernel/sched/ctx_switch.c:40-47 | `dispatch_save` never consults an empty queue |
| KernelTheorems.BestRunsExceptAfterUnlock | kernel/lock/mutex.c:133-136 | over every run, the running task is strictly better than every ready one except between an unlock that restores the native priority and the next dispatch |
| KernelTheorems.UnlockLeavesBetterTaskReadyIff | kernel/lock/mutex.c:133-138 | after an unlock that restores the native priority the unlocker runs on, and it is still the best task iff no ready task has a better slot than its own |
| Scenarios.UnlockGoesWrong | kernel/lock/mutex.c:133-138 | a run from boot that ends in such an unlock with a better task ready |
| KernelTheorems.SignalsNeverDrift | kernel/device.c:117-133 | for any start time and any period of at least one tick, the match value after any number of ticks is the next multiple of the period after the start |
| KernelTheorems.SleeperTick | kernel/device.c:115-141 | a tick takes a sleeper off its chain iff its device is due, and then it is ready or running |
| KernelTheorems.SleepersWakeInTime | kernel/device.c:97-143 | over every run, whoever still sleeps on a device has slept for less than its period |
| KernelTheorems.WaitOutcome | kernel/syscall/proc.c:86-98 | -EHOLDSLOCK iff the caller holds a mutex, -EINVAL iff it holds none and there is no such device, otherwise 0; refusals change nothing, and else the caller sleeps on the device and somebody else runs |
| WaitWindow.SplitWaitIff | kernel/device.c:83-85 | for every state a call of `dev_wait` can start from and every device: one interrupt between enabling interrupts and `dispatch_sleep` leaves the invariant intact when the call is over iff it does not preempt the caller, that is, iff it wakes nobody or no ready or woken task has a better slot than the caller |
| WaitWindow.SplitWaitLosesTask | kernel/device.c:83-85 | if it preempts the caller and the caller's device is due, the caller vanishes from all queues whenever it runs again, on every continuation, and there is one |
| WaitWindow.SplitWaitDoublesTask | kernel/device.c:83-85 | if it preempts the caller and the caller's device is not due, the caller is at once ready and on its chain |
| Scenarios.WindowGoesWrong | kernel/device.c:79-85 | a run from boot to a state in which the next tick causes either, according to the device waited for |
| MutexFifo.UnlockServesHead | kernel/lock/mutex.c:121-136 | unlock makes the head of the queue the owner, ready, with the mutex still locked; the unlocker has one lock less, and its native priority after the last |
| MutexFifo.WaiterIsSuspended | kernel/lock/mutex.c:75-90 | from any well-formed state, a caller that has to wait is off the processor, not ready, and in the middle of its call |
| MutexFifo.ResumedWaiterHolds | kernel/lock/mutex.c:87-96 | whoever was suspended in `mutex_lock` is the holder when it runs again, counted and at the highest priority |
| MutexFifo.Fifo | kernel/lock/mutex.c:75-132 | over any run from any well-formed state, those served and those still waiting are, in order, those who waited and those who arrived |
| Numerals.NumeralValue | tasks/libc/stdio/doprnt.c:577-580 | the digits produced stand for the number, and a leading zero means 0 |
| Numerals.NumeralFits | tasks/libc/stdio/doprnt.c:144 | a 64-bit number has at most 22 digits in bases 8 to 16, so a buffer of 32 is enough |
| Doprnt.DigitBuffer | tasks/libc/stdio/doprnt.c:563-580 | the digit loop stays inside the buffer and leaves the numeral at its right end |
| Doprnt.PrintNum | tasks/libc/stdio/doprnt.c:561-611 | the emitted characters are the field made of blanks, sign, prefix, zeros, digits and trailing blanks |
| Doprnt.FieldLength | tasks/libc/stdio/doprnt.c:582-609 | under every combination of flags a number is exactly as long as its width or what sign, prefix and digits need, whichever is more |
| Doprnt.PrintString | tasks/libc/stdio/doprnt.c:439-484 | `%s` with two loops over the string emits the specified text under any width and precision |
| Doprnt.StringLengthIff | tasks/libc/stdio/doprnt.c:469-481 | `%s` keeps its width iff it does not cut, left-adjust and pad at once |
| Doprnt.Parse | tasks/libc/stdio/doprnt.c:203-269 | flags, zero flag, width, precision and `l`s are read off as specified, with the arguments they consume |
| Formats.DirectiveReads | tasks/libc/stdio/doprnt.c:203-269 | for any directive put together from flags, zero flag, width, precision (each a number, a star or absent) and `l`s: each field of the result from its own part, a plus before a blank, a negative star width turning the adjustment, and the arguments left over |
| Doprnt.Format | tasks/libc/stdio/doprnt.c:179-622 | the loop over the format emits exactly the specified text |
| Formats.UnsignedComesBack | tasks/libc/stdio/doprnt.c:487-611 | under any flags, width and up to one `l`, `%u` `%o` `%x` and their capitals come back from `strtoul` in bases 10, 8 and 16, leaving only blanks |
| Formats.SignedComesBackIff | tasks/libc/stdio/doprnt.c:493-611 | under any flags, width and up to one `l`, `%d` and `%z` and their capitals come back from `strtol` in bases 10 and 16, iff no plus is printed |
| Formats.ZeroPadded | tasks/libc/stdio/doprnt.c:598-604 | `%0` and a width with an unsigned conversion: only digits, as many as the width or the number asks for, standing for the number |
| Formats.EightHexDigits | tasks/libc/stdio/doprnt.c:234-237 | `%08x` prints exactly eight hexadecimal digits |
| Formats.PlainUnsigned | tasks/libc/stdio/doprnt.c:487-559 | `%lu` comes back in base 10 and `%o` in base 8 |
| Formats.PrintsEveryValue | tasks/libc/stdio/doprnt.c:539-552 | every value of `long`, or of `long long` under two `l`s or more, is printed as its sign and the digits of its magnitude, without leading zeros |
| Formats.PrintsEveryUnsigned | tasks/libc/stdio/doprnt.c:554-580 | the same for the unsigned types in bases 8, 10 and 16 |
| Formats.PointerIsTenLong | tasks/libc/stdio/doprnt.c:505-520 | `%p` of a 32-bit pointer without `#` is the prefix and eight digits |
| Formats.StringInField | tasks/libc/stdio/doprnt.c:439-481 | `%s` under a width puts the text at the right end of its field, under `-` at the left end |
| Formats.StringCutOff | tasks/libc/stdio/doprnt.c:467-474 | a precision shows at most so many characters |
| Formats.StringCutByArgument | tasks/libc/stdio/doprnt.c:259-262 | a precision from an argument: -1 is none, other negative ones show nothing |
| Formats.CharacterAndPercent | tasks/libc/stdio/doprnt.c:328-331 | `%c` prints its character, `%%` a percent sign |
| Formats.LonePercent | tasks/libc/stdio/doprnt.c:613-615 | a percent sign at the end prints nothing, and `%s` of a null pointer prints nothing |
| Strtol.Strtol | tasks/libc/stdlib/strtol.c:26-67 | the loops, reducing to 32 bits at each step, return the 32-bit reduction of the number the digits stand for, and the specified end pointer |
| Strtol.Strtoul | tasks/libc/stdlib/strtoul.c:26-61 | the same without sign, modulo 2^32 |
| Spelling.DigitOfIff | tasks/libc/stdlib/strtol.c:53-58 | in every base from 2 to 36 a character is the digit v iff v is below the base and it is that digit in small or capital letters |
| Spelling.SpaceIff | tasks/libc/include/ctype.h:44-48 | white space is the blank and the characters 9 to 13 |
| Spelling.StrtolReadsIff | tasks/libc/stdlib/strtol.c:31-66 | in every base from 2 to 36, and under base 0 according to the prefix, white space, sign, prefix and digits give the number and what follows it, iff the sign is not a plus |
| Spelling.StrtoulReadsIff | tasks/libc/stdlib/strtoul.c:30-60 | the same for `strtoul`, iff there is no visible sign |
| Spelling.AnyCaseReads | tasks/libc/stdlib/strtol.c:37-60 | a numeral in any mix of small and capital letters, behind `0x`, `0X` or nothing, is read by both |
| Spelling.BaseZeroReads | tasks/libc/stdlib/strtol.c:37-49 | under base 0 a numeral behind `0x` or `0X` is read in base 16, behind `0` in base 8, and any other in base 10 |
| Doscan.Cursor.ReadChar | tasks/libc/stdio/sscanf.c:38-41 | reads one character, NUL at the end, and steps over it |
| Doscan.Cursor.UnChar | tasks/libc/stdio/sscanf.c:43-47 | takes the last step back |
| Doscan.ReadNumber | tasks/libc/stdio/doscan.c:77-138 | `%d` and `%x` leave the cursor right behind the last digit, with the 32-bit value |
| Doscan.Scanf | tasks/libc/stdio/doscan.c:43-175 | the loop over the format stores and counts exactly what is specified, and stops at the first literal that does not match |
| Spelling.AnyCaseScans | tasks/libc/stdio/doscan.c:77-138 | `%d` and `%x` read a numeral in any mix of cases, with or without a minus sign |
| Scanning.ScanContinues | tasks/libc/stdio/doscan.c:53-172 | what was printed under the front part of a format is stored and counted, and the scan goes on with the rest of the format at the rest of the text |
| Scanning.MismatchEndsScan | tasks/libc/stdio/doscan.c:63-66 | a literal that does not match ends the scan: the numbers in front are stored and counted, and nothing behind is, whatever the format goes on with |
| Scanning.WhiteSpaceMatchesAny | tasks/libc/stdio/doscan.c:57-62 | white space in the format matches any amount of it in the text |
| Scanning.StarDiscards | tasks/libc/stdio/doscan.c:162-171 | a starred conversion reads its number without storing or counting it |
| Scanning.UnknownCounts | tasks/libc/stdio/doscan.c:166-171 | an unknown conversion is counted and reads nothing |
| Scanning.NoDigitsIsZero | tasks/libc/stdio/doscan.c:79-101 | without digits a number is 0, and at most a minus sign is read |
| RoundTrip.StrtolOfFieldIff | tasks/libc/stdlib/strtol.c:26-67 | in bases 8, 10 and 16, for every width and flags, `strtol` of a printed field followed by text that cannot extend it gives the number and stops right behind its last digit, iff no plus sign was printed |
| RoundTrip.StrtoulOfFieldIff | tasks/libc/stdlib/strtoul.c:26-61 | the same for `strtoul`, iff no plus or minus sign was printed |
| RoundTrip.PrintThenStrtolIff | tasks/libc/stdio/doprnt.c:539-611 | for any format that is one signed conversion, `strtol` of the output is the value passed, iff it fits 32 bits and no plus sign was printed |
| RoundTrip.PrintThenStrtoulIff | tasks/libc/stdio/doprnt.c:554-611 | for any format that is one unsigned conversion, `strtoul` of the output is the value passed, iff it fits 32 bits |
| RoundTrip.PointerReadsIff | tasks/libc/stdio/doprnt.c:505-520 | for any format that is one `%p`, `strtoul` of the output is the pointer, iff it fits 32 bits and was printed without `#` or is 0 |
| RoundTrip.SprintfRenders | tasks/libc/stdio/doprnt.c:195-611 | a format of literals, `%d` and `%x` prints each literal and each number in order |
| RoundTrip.ScanOfPrint | tasks/libc/stdio/doscan.c:43-138 | `sscanf` of what `sprintf` wrote under the same format of literals, `%d` and `%x` returns every argument, reduced to 32 bits, and counts them all, if no printed number is directly followed by a digit of its base |
| RoundTrip.FormatRoundTripsIff | tasks/libc/stdio/doscan.c:43-138 | the formats of literals, `%d` and `%x` for which this holds of all arguments are exactly those in which no number conversion stands directly before another one or before a literal digit of its base |
| RoundTrip.TouchingNumbersRunTogether | tasks/libc/stdio/doscan.c:77-103 | a format that is not of that kind: 0 and 7 are printed under `%d%d` as `07` and come back as 7 and 0 |
| Sinks.SprintfState.SaveChar | tasks/libc/stdio/sprintf.c:38-51 | what is stored is the first characters offered, up to the limit, and nothing behind them is touched |
| Sinks.Vsprintf | tasks/libc/stdio/sprintf.c:53-64 | the whole output, a terminator, its length; the rest of the buffer is untouched |
| Sinks.Vsnprintf | tasks/libc/stdio/sprintf.c:66-77 | the first `size` characters of the whole output, or all of it, then a terminator, and the number stored |
| Sinks.TerminatorWithinSize | tasks/libc/stdio/sprintf.c:66-77 | the terminator lies within the first `size` places iff the output is shorter than `size` |
| Sinks.PrintfState.Flush | tasks/libc/stdio/printf.c:44-50 | pending characters are written, in order, and the buffer is empty |
| Sinks.PrintfState.PrintfChar | tasks/libc/stdio/printf.c:52-72 | the stream printed so far grows by exactly this character, NULs aside, and the index stays at most 127 |
| Sinks.Vprintf | tasks/libc/stdio/printf.c:77-90 | NULs aside, the writes together are the formatted text |

## Left out

- Registers, stacks, mode switches, timer and interrupt controllers and the exception vectors: hardware; a context switch is the change of the current task.
- Interrupt windows: system calls and ticks are atomic steps, except in `WaitWindow`, which has one tick between the two last steps of `dev_wait` (kernel/device.c:83-85); several ticks in one window are not modelled, nor is the window in `mutex_create`, which reads its result after enabling interrupts (kernel/lock/mutex.c:50-51).
- Calls before the first `task_create`, when `cur_tcb` is NULL: the model has the value 0 there, which nothing reads before the first dispatch.
- 32-bit wrap-around of the clock and of the match values.
- KernelRuns.Next: a repeated `task_create` is a step only while no mutex is held; `Startup.RespawnIff` shows that the invariant is lost otherwise.
- Kernel.System.TaskCreate: requires that nobody waits for a mutex, which `KernelTheorems.LockNeverSuspends` shows of every reachable state; the address check is a parameter, and `malloc` cannot fail.
- Kernel.System.MutexLock: requires a well-formed state and a caller other than the idle task, which makes no system calls (kernel/sched/sched.c:38-43); the same holds of the other system calls.
- Schedule.AssignSchedule: utilization is exact, without floating-point rounding; infinities and not-a-number appear only through zero periods. The list is of task descriptors, not of pointers to them. Why sets within the bound of Liu and Layland meet their deadlines is not part of this model.
- `sleep_syscall`, `read` and `write`, console and loader: no scheduler state.
- Doprnt.Format: the conversions `%b`, `%t`, `%r` and `%n` are outside the model; the text passed to the sink is collected in a string and handed over afterwards, character by character; `_doprnt_truncates`, which is always FALSE, is left out; widths and precisions are unbounded integers.
- Strtol.Strtol: signed overflow, undefined in C, is taken to wrap around.
- Doscan.Scanf: `%s`, which has no bound on the input it reads, and formats that end inside a directive are outside the model; memory faults of the destination pointers are not modelled.
- RoundTrip.ScanOfPrint: for single argument lists the condition is sufficient only, because touching numbers can come back right by chance, as two zeros do; the exact statement is that about formats, `RoundTrip.FormatRoundTripsIff`.
- Sinks.Vsprintf: requires that the destination has room for output and terminator, as C does.
- Strings are sequences of Dafny characters; `%c` and the sinks do not distinguish signed from unsigned `char`.
- The string library, `atoi`, `hexdump`, `rand`, `math.c` and the user programs: they would add only easy members.
