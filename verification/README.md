# A verified model of the uC/OS-II kernel and of its integer conversions

The Dafny files model the uC/OS-II V2.83 kernel of this repository, as it is configured here
(lowest priority 254, so the 16 by 16 bit tables; argument checking compiled out), and the
integer part of the C library's printing and `strtoul`.

Run `dafny verify dfyconfig.toml`, or verify all `.dfy` files in one command.

## How it is built

Each critical section is one step, so that steps of other tasks and of interrupts come in between.
A pend is two steps. The creation of a task is three: the priority is reserved, a TCB is taken, and
the task is linked. OSTaskDel is two, with the scheduler locked in between: in that gap a task is
still on OSTCBList and in OSTCBPrioTbl, with status ready and not in the ready table. Between its
timeout and its next run a task is ready and still in the wait table; most of the difficulty of the
invariants lives in these gaps. Runs start with the idle task, which also stands for the start-up
code that creates the first tasks.

A context switch may go to any ready task, which allows more schedules than the scheduler's. One
thing is taken for granted of it: a task that has left the ready table does not go on. The code
does not ensure this by itself, since not every service calls OS_Sched and OS_Sched does not always
switch; `Scheduling` says exactly when the caller of a service goes on although it should not.

- The tables and lists, imperatively, each against its abstract value: `PrioritySet` (group word
  and row words as a set of priorities), `IndexLists` with `TaskLists`, `EventTables`, `FlagTables`
  and `MessageRings` (linked lists whose nodes live in static tables, and the ring of a queue).
- `KernelState`: the state of the kernel as a value, and what each critical section does to it.
- The services, imperatively, on the class `Kernel` that is made of those tables: `OsCore`,
  `OsTask`, `OsMutex`, `OsQueue`, `OsFlag`. Each is proved to take the abstract state exactly where
  the function of `KernelState` says.
- `KernelInvariant` and `MutexInvariant`: what every step keeps. `KernelRuns`: the steps put
  together into runs from start-up, with what holds in every reachable state. `TickBatch`,
  `TcbAccounts`, `SlotAccounts`, `MutexOwnership`, `MessageFlow` and `FlagFlow` (on top of
  `Bystanders`: what each step leaves alone) are the properties of single services over whole runs.
  `Scheduling` adds OS_Sched to the steps. `FailingRuns` leads from start-up to the states in which a
  service does harm. `FlagWords` ties sets of flags to 16-bit words.
- `EventEffects`, `FlagEffects`, `TaskEffects`, `TimerEffects` and `NumberTexts`: what each service does,
  said on the fields and arguments themselves and without the functions above: who gets the message, who
  becomes ready, how long a delay lasts, that nothing else changes, and what undoes what.
  `MutualExclusion` builds on them: who owns a mutex, step by step and over runs.
- `TimerSpec` and `TimerManager`: the timer wheel. `MemSpec` and `MemPartition`: the free list
  threaded through the managed memory. `Conversions`: printing and `strtoul`; `Saturation`: what
  `strtoul` makes of any string, numbers that do not fit included.

## Where the code does less than it says

The model follows the code. In these places the code does not do what its comments or its callers
may expect. A lemma says exactly when it does, and where the kernel is concerned a run from start-up
to a failing state is given in `FailingRuns`; the names that end in IsReachable are those runs.

- OSTaskChangePrio on a task whose timeout has fired but which has not run moves only the ready
  bit (`os_task.c:126-145`), and the old bit stays in the wait table: `StaleWaiter`,
  `WindowIsReachable`. It moves an owner or a waiter of a mutex without looking at the mutex:
  `OwnerMovedIsReachable`, `WaiterMovedIsReachable`. `ChangePrioExact` gives the condition for all
  tasks.
- OSTaskDel of a mutex owner leaves the mutex to a task that is gone (`os_task.c:465-518`):
  `TaskDelExact`, `OwnerDeletedIsReachable`. If, in its gap, an interrupt suspends the dying task and
  it is resumed, it becomes ready just before its TCB is freed: `TaskResumeExact`,
  `DyingResumedIsReachable`. If the dying task was itself in the middle of OSTaskCreate, the TCB that
  it had taken and the priority that it had reserved are lost: `StepLosesExact`, `TcbsAccountedFor`,
  `StepSticksExact`, `SlotsAccountedFor`, `LossIsReachable`.
- OSMutexDel with OS_DEL_NO_PEND frees the inheritance priority although the owner may still be at
  it, because the waiter that raised it has timed out (`os_mutex.c:287-301`): `MutexDelExact`,
  `GiveUpLeavesRaised`, `UnsafeNoPendIsReachable`. With OS_DEL_ALWAYS it makes a raised owner ready
  even if that owner is delayed or suspended (`os_mutex.c:313-317`), which its note 4 leaves to the
  caller: `MutexDelExact`, `UnsafeAlwaysIsReachable`. A task between the two halves of its pend then
  returns without being the owner: `StepGrantedExact`, `RunGrantedExact`, `AwardBrokenIsReachable`.
- OSTaskSuspend calls OS_Sched only if the caller has named itself by OS_PRIO_SELF or its present
  priority (`os_task.c:952-959, 976-978`). A raised owner that names itself by its saved priority goes
  on, suspended, and its next OSMutexPost makes it ready: `SelfNamed`, `SuspendStopsExact`,
  `SuspendedOwnerPosts`, `SuspendedOwnerIsReachable`.
- OSMutexPost without waiters and OSMutexDel lower a raised owner without calling OS_Sched
  (`os_mutex.c:553-555, 573-576`), so it goes on although a task that now ranks above it may be ready:
  `BestAtReturn`, `OvertakenIsReachable`. And OSPrioCur, with which OS_Sched and OSIntExit compare the
  best ready priority (`os_core.c:342, 1266`), then still is the inheritance priority. A task that
  comes to have that priority is not switched to, and the current task cannot even delay itself:
  `FreshExact`, `SchedExact`, `MisledGoesOn`, `MissedSwitchIsReachable`. `AlwaysBestExact` says which
  runs always have the best ready task current.
- OSTimeTicks uses 0xffff both as a delay and as its mark for "no delay" (`os_core.c:615, 653-655`).
  Only OSTimeTicks(0) can fall for it: `NextDeadline`, `LongestDelayHidden`, `HiddenDelayIsReachable`.
- A flag group that mixes waits for set and for cleared flags can lose wake-ups, because consuming
  does not look at the wait list: `ConsumingExact`, `StepOverlooksNone`, `LostWakeUpsExact`,
  `LostWakeUpIsReachable`.
- The overflow test of `strtoul` groups its conditions so that only digits above the last one of
  ULONG_MAX are ever refused, a later digit can take the report back, and nothing is ever reported in
  the bases that divide 2^32 (`c-lib.c:2460`): `StrtoulExact` for every string, with
  `ValueBeforeExact`, `LastDigitExact`, `SaturationIsForgotten`, `NeverOverflowsExact`, `NumeralWraps`.
- `strtoul` of 0x with no hexadecimal digit behind it reads nothing, although section 7.22.1.4 of the C
  standard takes the 0 for a number (`c-lib.c:2441-2446, 2472-2474`): `ReadsNothing`.

## Model

| member | source | states |
|---|---|---|
| `KernelRuns.InversionIsBounded` | FM410_X1500/X1500/os_src/os_mutex.c:437-487 | in every reachable state a task that waits for a mutex ranks below the inheritance priority; the mutex has a live owner; and if the waiter outranks the owner's saved priority, the owner runs at the inheritance priority, above the waiter |
| `KernelRuns.MutexRecord` | FM410_X1500/X1500/os_src/os_mutex.c:104-116 | in every reachable state: available if and only if no owner, and then no waiters and the slot reserved; otherwise the low byte is the owner's original priority, whose slot leads to the owner, and the PIP slot is the marker exactly when the owner is at its own priority and the owner's TCB exactly when it is raised |
| `MutexOwnership.PendReturnsOwner` | FM410_X1500/X1500/os_src/os_mutex.c:480-498 | over every polite run (OSMutexDel is refused while a task is between the halves of a pend on that mutex), whatever steps come in between: a pend that returns without timeout returns to the recorded owner |
| `MutexOwnership.RunGrantedExact` | FM410_X1500/X1500/os_src/os_mutex.c:250-577 | for every run: a task that has been handed a mutex and has not yet returned from its pend owns it in every state of the run if and only if the run is polite |
| `MutexOwnership.StepGrantedExact` | FM410_X1500/X1500/os_src/os_mutex.c:250-577 | the same for every single step of the kernel: it keeps the promise if and only if it is polite, and only OSMutexDel can fail to be |
| `MutexOwnership.DelGrantedExact` | FM410_X1500/X1500/os_src/os_mutex.c:287-323 | OSMutexDel keeps the promise if and only if it is refused or no task is between the halves of a pend on that mutex |
| `FailingRuns.AwardBrokenIsReachable` | FM410_X1500/X1500/os_src/os_mutex.c:309-331 | a run from start-up ends with a waiter that OSMutexDel would let return as if it had got the mutex |
| `MutexOwnership.RunKeepsGranted` | FM410_X1500/X1500/os_src/os_mutex.c:387-577 | every polite run keeps the promise |
| `MutexOwnership.HandOffAwards` | FM410_X1500/X1500/os_src/os_mutex.c:549-576 | OSMutexPost keeps that promise for the task it hands the mutex to and for all others |
| `KernelRuns.ReadyTableIsExact` | FM410_X1500/X1500/os_src/os_core.c:571-592 | in every reachable state a priority is in the ready table if and only if a live task of that priority, other than the one in the gap of OSTaskDel, has status ready and no delay; reachable by runs in which a task that has left the ready table does not go on, which SuspendStopsExact and BestAtReturn tie to the code |
| `KernelRuns.WaitListIsExact` | FM410_X1500/X1500/os_src/os_core.c:743-777 | in every reachable state priority p is in an event's wait table if and only if a live task of priority p, other than the one in the gap of OSTaskDel, points to that event, timed-out tasks that have not run included; and OSTCBPrioTbl then leads to a live task |
| `Scheduling.SchedFindsBest` | FM410_X1500/X1500/os_src/os_core.c:1254-1321 | in every reachable state OS_Sched picks a runnable live task of the least priority number; or changes nothing, while OSTaskDel has it locked, or because OSPrioCur is that priority and another task than the current one is there |
| `Scheduling.SchedExact` | FM410_X1500/X1500/os_src/os_core.c:1264-1274 | after OS_Sched the current task is the best ready one if and only if OSPrioCur did not mislead it |
| `Scheduling.BestAtReturn` | FM410_X1500/X1500/os_src/os_task.c:950-979 | for every critical section of every service called by a task: at return the caller is the best ready task or another task is current, except exactly where OS_Sched was called and misled, or a raised owner has lowered itself below a ready task without calling it |
| `Scheduling.AlwaysBestExact` | FM410_X1500/X1500/os_src/os_core.c:326-354 | for every run of service calls and interrupt handlers: the best ready task is the current one all along if and only if none of these exceptions occurs |
| `Scheduling.FreshExact` | FM410_X1500/X1500/os_src/os_core.c:1264-1274 | OSPrioCur stays the priority of the current task through every service, except exactly where a raised owner lowers itself without calling OS_Sched |
| `Scheduling.FreshIsNotMisled` | FM410_X1500/X1500/os_src/os_core.c:1264-1274 | as long as it is, no service can mislead OS_Sched |
| `Scheduling.MisledGoesOn` | FM410_X1500/X1500/os_src/os_time.c:49-59 | a task that goes on because OS_Sched is misled goes on even through OSTimeDly, delayed |
| `FailingRuns.OvertakenIsReachable` | FM410_X1500/X1500/os_src/os_mutex.c:547-576 | a run from start-up ends with a raised owner that is about to post, and returns while a better task is ready |
| `FailingRuns.MissedSwitchIsReachable` | FM410_X1500/X1500/os_src/os_core.c:1264-1274 | a run from start-up ends with a task at the priority that OSPrioCur still names, to which OS_Sched does not switch |
| `KernelRuns.TcbLists` | FM410_X1500/X1500/os_src/os_core.c:1148-1175 | in every reachable state the live list, the free list and the TCBs that OS_TCBInit has taken are disjoint and together as many as the table, each TCB that a task holds in OSTaskCreate among the last; and the live list ends in the idle task and has it nowhere else, so the tick walk ends |
| `TcbAccounts.TcbsAccountedFor` | FM410_X1500/X1500/os_src/os_core.c:1591-1672 | after every run from start-up: live tasks + free TCBs + TCBs held in OSTaskCreate + the number of times a task was deleted while it held one = size of the table |
| `TcbAccounts.StepLosesExact` | FM410_X1500/X1500/os_src/os_task.c:496-518 | every step leaves the set of lost TCBs as it is, but for the end of OSTaskDel on a task that holds a TCB in OSTaskCreate, which adds just that TCB |
| `SlotAccounts.SlotsAccountedFor` | FM410_X1500/X1500/os_src/os_task.c:213-233 | after every run from start-up there are as many priorities that are reserved for nobody as tasks were deleted while they were creating another |
| `SlotAccounts.StepSticksExact` | FM410_X1500/X1500/os_src/os_task.c:496-518 | every step leaves that set of priorities as it is, but for the end of OSTaskDel on a task inside OSTaskCreate, which adds just the priority that it had reserved |
| `SlotAccounts.ReservedExact` | FM410_X1500/X1500/os_src/os_mutex.c:180-186 | in every reachable state a slot holds the marker if and only if it is the PIP of a mutex whose owner is not raised, or a live task is creating a task there, or it is one of those |
| `KernelRuns.StepKeepsInv` | FM410_X1500/X1500/os_src/os_core.c:526-840 | every critical section of every modelled service, both halves of each pend, the three sections of task creation and the two of OSTaskDel keep the whole kernel invariant |
| `KernelRuns.BootInv` | FM410_X1500/X1500/os_src/os_core.c:1016-1175 | the state after initialisation and the creation of the idle task, in which the start-up code runs, satisfies the invariant |
| `KernelRuns.ReachableInv` | FM410_X1500/X1500/os_src/os_core.c:526-840 | the invariant holds at the end of every run from start-up |
| `TickBatch.BatchIsTicks` | FM410_X1500/X1500/os_src/os_core.c:612-656 | for every n and every list of distinct TCBs, OSTimeTicks(n) leaves the same state as n calls of OSTimeTick: delays, statuses, timeout marks and ready table |
| `TickBatch.OneMoreWalk` | FM410_X1500/X1500/os_src/os_core.c:571-592 | advancing by n + 1 is advancing by n and then one OSTimeTick |
| `TickBatch.NextDeadline` | FM410_X1500/X1500/os_src/os_core.c:615-656 | the result of OSTimeTicks is the least positive remaining delay of the tasks before the idle task; it is 0 if and only if all of them are 0 or 65535; for n > 0 no delay is left at 65535, so it is 0 exactly when no delay remains |
| `TickBatch.LongestDelayHidden` | FM410_X1500/X1500/os_src/os_core.c:615-656 | the one case that 0xffff hides: OSTimeTicks(0) returns 0 although a task still has a delay of 65535 |
| `FailingRuns.HiddenDelayIsReachable` | FM410_X1500/X1500/os_src/os_core.c:615-656 | a run from start-up ends in such a state |
| `TickBatch.SleepUntilNext` | FM410_X1500/X1500/os_src/os_core.c:624-656 | advancing by fewer ticks than the result makes no task ready, and advancing by exactly that many ends at least one delay |
| `OsCore.TimeTick` | FM410_X1500/X1500/os_src/os_core.c:571-592 | the walk along OSTCBList has the effect of one tick on every task before the idle task, and ends |
| `OsCore.TimeTicks` | FM410_X1500/X1500/os_src/os_core.c:612-656 | the batched walk has the effect of AdvanceWalk, proved equal to n ticks, and returns the next deadline |
| `OsCore.TickTcb` | FM410_X1500/X1500/os_src/os_core.c:571-592 | one TCB: count down, and at zero end the delay |
| `OsCore.AdvanceTcb` | FM410_X1500/X1500/os_src/os_core.c:624-652 | one TCB of the batched form |
| `OsCore.DelayEnds` | FM410_X1500/X1500/os_src/os_core.c:576-588 | a delay that ends: a pend becomes a timeout, other status bits stay, and the task becomes ready unless suspended; its bit in the wait table stays |
| `OsCore.EventTaskRdy` | FM410_X1500/X1500/os_src/os_core.c:720-778 | the best waiter gets the message, leaves the wait table, loses its timeout, and is ready if nothing else holds it; its priority is returned |
| `OsCore.EventTaskWait` | FM410_X1500/X1500/os_src/os_core.c:796-809 | the current task moves from the ready table to the wait table of the event |
| `OsCore.EventTO` | FM410_X1500/X1500/os_src/os_core.c:827-840 | the current task leaves the wait table and the event after a timeout |
| `OsCore.ReadyAll` | FM410_X1500/X1500/os_src/os_mutex.c:318-320 | the loops that ready every waiter, best first, end with an empty wait table and the state of the repeated single step |
| `OsCore.Sched` | FM410_X1500/X1500/os_src/os_core.c:1254-1321 | the task at the least ready priority becomes current and OSPrioCur that priority, unless the scheduler is locked or OSPrioCur is that priority already |
| `OsCore.TCBInit` | FM410_X1500/X1500/os_src/os_core.c:1596-1674 | the TCB that was taken off the free list becomes a ready task at the head of the list, found at its priority |
| `OsCore.InitTaskIdle` | FM410_X1500/X1500/os_src/os_core.c:1016-1050 | from cleared tables the idle task is the one task, ready and current: the initial state of all runs |
| `KernelInvariant.WaiterFound` | FM410_X1500/X1500/os_src/os_core.c:743-762 | the task that OS_EventTaskRdy finds through OSTCBPrioTbl is live, is not the idle task, has the best priority in the wait table, and points to the event |
| `KernelInvariant.EventTaskRdyKeeps` | FM410_X1500/X1500/os_src/os_core.c:720-778 | readying the best waiter keeps the invariant, also for a waiter in the timed-out window, whose timeout is cancelled |
| `KernelInvariant.BlockKeeps` | FM410_X1500/X1500/os_src/os_core.c:796-809 | waiting on an event keeps the invariant |
| `KernelInvariant.EventTOKeeps` | FM410_X1500/X1500/os_src/os_core.c:827-840 | leaving an event after a timeout keeps the invariant |
| `KernelInvariant.PendResumeKeeps` | FM410_X1500/X1500/os_src/os_q.c:428-441 | the second half of a pend keeps the invariant, whether served or timed out |
| `KernelInvariant.TickTaskKeeps` | FM410_X1500/X1500/os_src/os_core.c:571-592 | a tick of one task keeps the invariant although the wait table is not touched |
| `KernelInvariant.ReadyAllKeeps` | FM410_X1500/X1500/os_src/os_mutex.c:318-320 | readying all waiters keeps the invariant, empties the wait table and changes no other event |
| `MutexInvariant.ChangePrioExact` | FM410_X1500/X1500/os_src/os_task.c:62-154 | for every task and every free priority, raised owners and the slots they came from included: OSTaskChangePrio keeps the whole invariant if and only if the task owns no mutex, is not in the window between its timeout and its next run, is not being deleted, and, if it waits for a mutex, the new priority is below the inheritance priority and above the saved priority of the owner only if the owner is raised |
| `FailingRuns.WindowIsReachable` | FM410_X1500/X1500/os_src/os_task.c:126-145 | a run from start-up ends with a task in that window, where OSTaskChangePrio breaks the tables |
| `FailingRuns.OwnerMovedIsReachable` | FM410_X1500/X1500/os_src/os_task.c:123-151 | a run from start-up ends with a mutex owner whose change of priority breaks the invariant |
| `FailingRuns.WaiterMovedIsReachable` | FM410_X1500/X1500/os_src/os_task.c:123-151 | and one with a waiter that may not be moved above the PIP |
| `KernelInvariant.StaleWaiter` | FM410_X1500/X1500/os_src/os_task.c:126-145 | in that window the old priority stays in the wait table with no task behind it, so a later post would follow an empty slot |
| `KernelInvariant.ChangePrioKeeps` | FM410_X1500/X1500/os_src/os_task.c:62-154 | outside the window OSTaskChangePrio keeps the invariant |
| `MutexInvariant.TaskDelExact` | FM410_X1500/X1500/os_src/os_task.c:452-516 | OSTaskDel of an existing task keeps the whole invariant, in its gap and at its end, if and only if the task owns no mutex |
| `FailingRuns.OwnerDeletedIsReachable` | FM410_X1500/X1500/os_src/os_task.c:452-516 | a run from start-up ends with an owner whose deletion breaks the invariant, in the gap and at the end |
| `KernelInvariant.TaskDelKeeps` | FM410_X1500/X1500/os_src/os_task.c:452-516 | OSTaskDel keeps the tables coherent if and only if the task is found at one slot only, which a raised mutex owner is not; then they are coherent in its gap too |
| `KernelInvariant.QuiescedKeeps` | FM410_X1500/X1500/os_src/os_task.c:452-494 | the first section of OSTaskDel keeps the invariant, in which the dying task is neither ready nor waiting |
| `KernelInvariant.DelEndKeeps` | FM410_X1500/X1500/os_src/os_task.c:496-516 | the second section keeps it, whatever came in between |
| `KernelInvariant.SuspendKeeps` | FM410_X1500/X1500/os_src/os_task.c:930-980 | OSTaskSuspend keeps the invariant in every phase of the task |
| `KernelInvariant.ResumeKeeps` | FM410_X1500/X1500/os_src/os_task.c:781-823 | OSTaskResume keeps the invariant for every task but a suspended one in the gap of its deletion |
| `KernelInvariant.TaskResumeExact` | FM410_X1500/X1500/os_src/os_task.c:781-823 | OSTaskResume keeps the invariant if and only if it does not resume a task that was suspended in the gap of its deletion |
| `FailingRuns.DyingResumedIsReachable` | FM410_X1500/X1500/os_src/os_task.c:489-516 | a run from start-up ends in that gap with the task suspended, where OSTaskResume breaks the tables |
| `FailingRuns.LossIsReachable` | FM410_X1500/X1500/os_src/os_task.c:496-518 | a run from start-up, with every switch as OS_Sched makes it, ends with a lost TCB and a priority reserved for nobody |
| `KernelInvariant.CreateBeginKeeps` | FM410_X1500/X1500/os_src/os_task.c:213-221 | reserving the priority keeps the invariant |
| `KernelInvariant.TakeTcbKeeps` | FM410_X1500/X1500/os_src/os_core.c:1591-1595 | taking a TCB, or finding none, keeps the invariant |
| `KernelInvariant.CreateEndKeeps` | FM410_X1500/X1500/os_src/os_core.c:1663-1674 | linking the task, or giving up the reservation, keeps the invariant, whatever came in between |
| `KernelInvariant.TimeDlyKeeps` | FM410_X1500/X1500/os_src/os_time.c:36-60 | OSTimeDly keeps the invariant |
| `KernelInvariant.TimeDlyResumeKeeps` | FM410_X1500/X1500/os_src/os_time.c:156-199 | OSTimeDlyResume keeps the invariant |
| `OsTask.ChangePrio` | FM410_X1500/X1500/os_src/os_task.c:62-154 | the whole new state and the error code, for every pair of priorities and for OS_PRIO_SELF |
| `OsTask.CreateBegin` | FM410_X1500/X1500/os_src/os_task.c:213-221 | a free priority is reserved with the marker; a taken one is an error and changes nothing |
| `OsTask.TakeFree` | FM410_X1500/X1500/os_src/os_core.c:1591-1595 | the first free TCB leaves the free list, or there is none |
| `OsTask.CreateEnd` | FM410_X1500/X1500/os_src/os_task.c:223-233 | the reservation becomes a task, or is undone when no TCB was free, with the error code |
| `OsTask.DelBegin` | FM410_X1500/X1500/os_src/os_task.c:440-494 | the whole new state in the gap and the error code: the task is out of both tables, its event and its flag group, and the scheduler is locked; the idle task is refused |
| `OsTask.DelEnd` | FM410_X1500/X1500/os_src/os_task.c:496-516 | the whole new state: the slot is empty, the TCB first on the free list, the scheduler unlocked |
| `OsTask.Suspend` | FM410_X1500/X1500/os_src/os_task.c:930-980 | the whole new state and the error code; OS_Sched is called if and only if the task was found and named by the present priority of the caller |
| `Scheduling.SuspendStopsExact` | FM410_X1500/X1500/os_src/os_task.c:950-979 | a caller that suspends itself stops if and only if it was named by OS_PRIO_SELF or by its present priority |
| `Scheduling.SelfNamed` | FM410_X1500/X1500/os_src/os_task.c:955-960 | the other case is exactly that of a raised mutex owner named by its saved priority |
| `Scheduling.SuspendedOwnerPosts` | FM410_X1500/X1500/os_src/os_mutex.c:546-576 | for every such owner: it is suspended and goes on, and its OSMutexPost puts it into the ready table |
| `FailingRuns.SuspendedOwnerIsReachable` | FM410_X1500/X1500/os_src/os_task.c:950-979 | a run from start-up ends with such an owner |
| `OsTask.Resume` | FM410_X1500/X1500/os_src/os_task.c:781-823 | the whole new state, the error code, and whether OS_Sched is called |
| `OsTask.TimeDly` | FM410_X1500/X1500/os_src/os_time.c:36-60 | the caller leaves the ready table for that many ticks; 0 ticks, or a delay that the board takes upon itself, change nothing |
| `OsTask.TimeDlyResume` | FM410_X1500/X1500/os_src/os_time.c:156-199 | a delay or a timed wait ends early, as at its last tick; the error code of every other case, and whether OS_Sched is called |
| `MutexInvariant.MutexDelExact` | FM410_X1500/X1500/os_src/os_mutex.c:250-346 | OSMutexDel keeps the invariant if and only if: without waiters and OS_DEL_NO_PEND, the owner is not raised; with OS_DEL_ALWAYS, a raised owner is ready |
| `MutexInvariant.GiveUpLeavesRaised` | FM410_X1500/X1500/os_src/os_mutex.c:287-307 | how the first failing case comes about: a waiter raises the owner and times out, which leaves no waiter and a raised owner |
| `FailingRuns.UnsafeNoPendIsReachable` | FM410_X1500/X1500/os_src/os_mutex.c:287-307 | a run from start-up, with every switch as OS_Sched makes it, ends in the first failing case |
| `FailingRuns.UnsafeAlwaysIsReachable` | FM410_X1500/X1500/os_src/os_mutex.c:309-331 | and one in the second |
| `MutexInvariant.MutexPendInv` | FM410_X1500/X1500/os_src/os_mutex.c:387-487 | acquiring, promoting and waiting keep the invariant |
| `MutexInvariant.MutexPostInv` | FM410_X1500/X1500/os_src/os_mutex.c:525-577 | restoring the owner and handing off keep the invariant |
| `MutexInvariant.MutexAcceptInv` | FM410_X1500/X1500/os_src/os_mutex.c:104-116 | OSMutexAccept keeps the invariant |
| `MutexInvariant.MutexCreateInv` | FM410_X1500/X1500/os_src/os_mutex.c:158-206 | OSMutexCreate keeps the invariant |
| `MutexInvariant.MutexDelInv` | FM410_X1500/X1500/os_src/os_mutex.c:250-346 | the safe cases of OSMutexDel keep the invariant |
| `MutexInvariant.RaiseInv` | FM410_X1500/X1500/os_src/os_mutex.c:438-482 | raising the owner keeps the invariant, with two slots leading to one TCB |
| `MutexInvariant.HandOffFacts` | FM410_X1500/X1500/os_src/os_mutex.c:552-576 | after a hand-off the best waiter is the owner with its priority in the low byte, and the rest still wait; without waiters the mutex is available |
| `OsMutex.Accept` | FM410_X1500/X1500/os_src/os_mutex.c:76-120 | acquires exactly when the mutex is available; the error code says whether the caller then ranks at or above the PIP |
| `OsMutex.Acquire` | FM410_X1500/X1500/os_src/os_mutex.c:425-437 | the low byte becomes the caller's priority and the caller the owner; the error code says whether it ranks above the PIP |
| `OsMutex.Create` | FM410_X1500/X1500/os_src/os_mutex.c:158-206 | the PIP is reserved and an event control block taken, or one of the two errors and no change |
| `OsMutex.Promote` | FM410_X1500/X1500/os_src/os_mutex.c:438-482 | the owner moves to the PIP in the ready table or in its wait table, and the PIP slot leads to it |
| `OsMutex.PendBegin` | FM410_X1500/X1500/os_src/os_mutex.c:387-487 | the first half of a pend: exactly when the low byte is 0xFF the caller becomes the owner, with its priority in the low byte, and nothing else changes; otherwise it is in the wait table with its timeout, and the owner is promoted |
| `OsMutex.PendEnd` | FM410_X1500/X1500/os_src/os_mutex.c:488-498 | the second half: timeout, or the mutex is the caller's |
| `OsMutex.Post` | FM410_X1500/X1500/os_src/os_mutex.c:525-577 | only the owner may post; it falls back to its priority, the PIP is reserved again, and the best waiter becomes the owner; the PIP_LOWER error of the hand-off cannot occur among competitors ranked below the PIP; and whether OS_Sched is called |
| `OsMutex.RdyAtPrio` | FM410_X1500/X1500/os_src/os_mutex.c:662-687 | the task moves to another priority in the ready table and in OSTCBPrioTbl |
| `OsMutex.Del` | FM410_X1500/X1500/os_src/os_mutex.c:250-346 | both options, the cases that break the tables included, with the error when tasks wait and OS_DEL_NO_PEND was given; and whether OS_Sched is called |
| `MessageFlow.FirstInFirstOut` | FM410_X1500/X1500/os_src/os_q.c:379-500 | over every run of posts, accepts and pends on a queue, with all other services around it: the accepted posts in order are the messages handed out followed by those in the queue, and what waiting tasks were handed is still with them or was returned by them |
| `MessageFlow.StepBalanced` | FM410_X1500/X1500/os_src/os_q.c:379-500 | every single step keeps that balance |
| `MessageFlow.ReturnsWhatItCarries` | FM410_X1500/X1500/os_src/os_q.c:428-441 | a pend returns the very message that a post handed to that task |
| `MessageFlow.NoWaiterBesideMessage` | FM410_X1500/X1500/os_src/os_q.c:481-499 | in every reachable state a queue or mailbox that holds a message has no waiter, and holds no more than its size |
| `MessageFlow.StepKeepsQueues` | FM410_X1500/X1500/os_src/os_mbox.c:264-456 | every step keeps that, front posts, broadcasts, flushes and deletions included |
| `MessageFlow.FreshQueue` | FM410_X1500/X1500/os_src/os_q.c:113-160 | a new queue starts balanced with an empty ledger; a new mailbox with its first message |
| `OsQueue.Post` | FM410_X1500/X1500/os_src/os_q.c:464-562 | to the best waiter, or into the ring at either end, or full; and whether OS_Sched is called |
| `OsQueue.Broadcast` | FM410_X1500/X1500/os_src/os_q.c:608-662 | while tasks wait, every one of them gets the message, stops waiting and is ready if nothing else holds it, the wait table is empty and no other task is touched; with no waiters it is a post; and whether OS_Sched is called |
| `OsQueue.Accept` | FM410_X1500/X1500/os_src/os_q.c:53-91 | the oldest message, or none and an error |
| `OsQueue.PendBegin` | FM410_X1500/X1500/os_src/os_q.c:410-426 | the oldest message, or the caller waits |
| `OsQueue.PendEnd` | FM410_X1500/X1500/os_src/os_q.c:428-441 | the message that was handed over, or a timeout |
| `OsQueue.Flush` | FM410_X1500/X1500/os_src/os_q.c:316-340 | the queue is empty; waiters stay |
| `OsQueue.Del` | FM410_X1500/X1500/os_src/os_q.c:204-292 | waiters are readied without a message and the control block is freed, or refused while tasks wait; and whether OS_Sched is called |
| `OsQueue.Create` | FM410_X1500/X1500/os_src/os_q.c:113-160 | a free event control block becomes a queue or mailbox; or none is left, or no queue control block, and nothing changes |
| `OsQueue.MboxPost` | FM410_X1500/X1500/os_src/os_mbox.c:347-380 | to the best waiter, or into the slot, or full; and whether OS_Sched is called |
| `OsQueue.MboxAccept` | FM410_X1500/X1500/os_src/os_mbox.c:39-61 | the message, and the slot is cleared |
| `OsQueue.MboxPendBegin` | FM410_X1500/X1500/os_src/os_mbox.c:294-306 | the message, or the caller waits |
| `OsQueue.MboxBroadcast` | FM410_X1500/X1500/os_src/os_mbox.c:415-456 | the same for a mailbox |
| `MessageRings.WriteBehind` | FM410_X1500/X1500/os_src/os_q.c:493-497 | writing at OSQIn appends to the messages between OSQOut and OSQIn, also where the ring wraps |
| `MessageRings.WriteBefore` | FM410_X1500/X1500/os_src/os_q.c:554-559 | writing before OSQOut puts a message in front |
| `MessageRings.StepOut` | FM410_X1500/X1500/os_src/os_q.c:79-83 | moving OSQOut on takes the oldest message away and no other |
| `MessageRings.Ring.Post` | FM410_X1500/X1500/os_src/os_q.c:488-499 | the contents with the message at the end; refused exactly when full |
| `MessageRings.Ring.PostFront` | FM410_X1500/X1500/os_src/os_q.c:549-561 | the contents with the message at the front; refused exactly when full |
| `MessageRings.Ring.Take` | FM410_X1500/X1500/os_src/os_q.c:78-83 | the first message and the contents without it |
| `MessageRings.Ring.Flush` | FM410_X1500/X1500/os_src/os_q.c:334-337 | empty contents |
| `FlagFlow.PostIsExact` | FM410_X1500/X1500/os_src/os_flag.c:770-873 | a post readies or un-pends precisely the linked tasks whose condition holds under the new flags, with the flags that met it; the others keep their nodes, in their order; and none that stays is satisfied |
| `FlagFlow.NoLostWakeUp` | FM410_X1500/X1500/os_src/os_flag.c:547-696 | in a group whose waits and accepts are all for set flags (or all for cleared ones), no run leaves a linked task whose condition holds, consuming waits and accepts included |
| `FlagFlow.StepOverlooksNone` | FM410_X1500/X1500/os_src/os_flag.c:588-696 | every single step keeps that, in any group, if and only if what it consumes supplies no linked task |
| `FlagFlow.ConsumingExact` | FM410_X1500/X1500/os_src/os_flag.c:117-141 | for all flags and all pairs of wait types: consuming makes an unmet condition true if and only if it is of the other direction and the consumed flags complete it (ALL) or meet it (ANY) |
| `FlagFlow.LostWakeUpsExact` | FM410_X1500/X1500/os_src/os_flag.c:117-696 | for every group, used in both directions or not, and every run from start-up: no state of the run has a linked task whose condition holds if and only if no step of the run consumes flags that supply a linked task |
| `FlagFlow.RunExact` | FM410_X1500/X1500/os_src/os_flag.c:117-696 | the same from any state and for each kind of usage |
| `FlagFlow.MixedDirectionsLoseWakeUps` | FM410_X1500/X1500/os_src/os_flag.c:117-168 | with both directions in one group it can fail: consuming cleared flags satisfies a waiter for set flags, which stays linked |
| `FailingRuns.LostWakeUpIsReachable` | FM410_X1500/X1500/os_src/os_flag.c:117-168 | a run from start-up ends with such a waiter |
| `FlagFlow.NodeLinksAreExact` | FM410_X1500/X1500/os_src/os_flag.c:963-993 | in every reachable state a task's node is in a group's list, once, if and only if the task's OSTCBFlagNode is a node of that group |
| `FlagFlow.WalkOrder` | FM410_X1500/X1500/os_src/os_flag.c:813-863 | the walk leaves exactly the unsatisfied nodes, in their order, while it unlinks the others |
| `KernelInvariant.FlagPostKeeps` | FM410_X1500/X1500/os_src/os_flag.c:770-873 | OSFlagPost keeps the invariant |
| `KernelInvariant.FlagPendKeeps` | FM410_X1500/X1500/os_src/os_flag.c:588-661 | OSFlagPend keeps the invariant |
| `KernelInvariant.FlagResumeKeeps` | FM410_X1500/X1500/os_src/os_flag.c:663-695 | resuming from a flag pend keeps the invariant, whether served or timed out |
| `KernelInvariant.FlagDelKeeps` | FM410_X1500/X1500/os_src/os_flag.c:277-361 | OSFlagDel keeps the invariant |
| `OsFlag.Accept` | FM410_X1500/X1500/os_src/os_flag.c:84-176 | the flags that are as wanted, consumed only if the condition holds and that was asked for; the error code says whether it holds |
| `OsFlag.PendBegin` | FM410_X1500/X1500/os_src/os_flag.c:588-661 | the first half of a pend: take the flags, or link a node and wait |
| `OsFlag.PendEnd` | FM410_X1500/X1500/os_src/os_flag.c:663-695 | the second half: unlink after a timeout, or return, and consume, the flags that met the condition; with the error code |
| `OsFlag.FlagBlock` | FM410_X1500/X1500/os_src/os_flag.c:963-993 | a new node at the head of the list, and the caller not ready |
| `OsFlag.FlagTaskRdy` | FM410_X1500/X1500/os_src/os_flag.c:1077-1097 | the task gets the flags and is ready if nothing else holds it; its node is unlinked, and its next pointer kept for the walk |
| `OsFlag.FlagUnlink` | FM410_X1500/X1500/os_src/os_flag.c:1121-1149 | the node leaves the doubly linked list; the order of the rest stays |
| `OsFlag.Post` | FM410_X1500/X1500/os_src/os_flag.c:797-873 | the named flags are set for OS_FLAG_SET and cleared otherwise, the others stay; then the walk over the nodes that were linked; the scheduler is called exactly when a task whose condition holds is held by nothing else |
| `OsFlag.WalkNodes` | FM410_X1500/X1500/os_src/os_flag.c:813-863 | the loop along the next pointers of a list that it edits visits every original node once and ends, and says whether a task became ready |
| `OsFlag.Del` | FM410_X1500/X1500/os_src/os_flag.c:277-361 | all waiters are readied without flags and the group is free, or refused while tasks wait; and whether OS_Sched is called |
| `OsFlag.Create` | FM410_X1500/X1500/os_src/os_flag.c:200-237 | the group has the given flags and no waiters, or none is free and nothing changes |
| `FlagWords.CheckWord` | FM410_X1500/X1500/os_src/os_flag.c:118-166 | the tests on 16-bit words: all, or any, of the wanted bits are 1 for the SET types and 0 for the CLR types, which agrees with the tests on sets of flags |
| `FlagWords.ConsumeWord` | FM410_X1500/X1500/os_src/os_flag.c:674-686 | bit by bit: the bits that were met become 0 for the SET types and 1 for the CLR types, and the others stay |
| `FlagWords.PostWord` | FM410_X1500/X1500/os_src/os_flag.c:797-810 | bit by bit: the named bits become 1 for OS_FLAG_SET and 0 for OS_FLAG_CLR, and the others stay |
| `FlagWords.BitsDecideWord` | FM410_X1500/X1500/os_src/os_flag.c:117-141 | a word is determined by its set of flags, so comparing words is comparing sets |
| `FlagTables.FlagTable.Push` | FM410_X1500/X1500/os_src/os_flag.c:977-987 | linking at the head keeps a doubly linked list and puts the node first |
| `FlagTables.FlagTable.Unlink` | FM410_X1500/X1500/os_src/os_flag.c:1121-1149 | unlinking anywhere keeps a doubly linked list of the other nodes |
| `PrioritySet.UnMapIsLowestBit` | FM410_X1500/X1500/os_src/os_core.c:30-47 | the 256-entry table gives the least set bit of every non-zero byte |
| `PrioritySet.LeastOfRepresentation` | FM410_X1500/X1500/os_src/os_core.c:1309-1319 | least group bit and least bit of that row together are the least member |
| `PrioritySet.InsertKeepsRepresentation` | FM410_X1500/X1500/os_src/os_core.c:763-776 | setting the two bits adds one member and keeps the group bits exact |
| `PrioritySet.RemoveKeepsRepresentation` | FM410_X1500/X1500/os_src/os_core.c:801-806 | clearing the row bit, and the group bit when the row becomes zero, removes one member and keeps the group bits exact |
| `PrioritySet.PrioSet.Insert` | FM410_X1500/X1500/os_src/os_core.c:807-809 | the set with the priority |
| `PrioritySet.PrioSet.Remove` | FM410_X1500/X1500/os_src/os_core.c:801-806 | the set without the priority |
| `PrioritySet.PrioSet.Clear` | FM410_X1500/X1500/os_src/os_core.c:857-873 | the empty set |
| `PrioritySet.PrioSet.Contains` | FM410_X1500/X1500/os_src/os_task.c:126-127 | membership |
| `PrioritySet.PrioSet.IsEmpty` | FM410_X1500/X1500/os_src/os_q.c:482-482 | emptiness, read off the group word alone |
| `PrioritySet.PrioSet.Least` | FM410_X1500/X1500/os_src/os_core.c:1309-1319 | the least member, without a loop |
| `TaskLists.TcbLists.constructor` | FM410_X1500/X1500/os_src/os_core.c:1148-1175 | the loop that links all TCBs into the free list |
| `TaskLists.TcbLists.Take` | FM410_X1500/X1500/os_src/os_core.c:1591-1595 | the first free TCB leaves the free list |
| `TaskLists.TcbLists.Link` | FM410_X1500/X1500/os_src/os_core.c:1663-1674 | the TCB becomes the head of the doubly linked list, and OSTaskCtr is its length again |
| `TaskLists.TcbLists.Unlink` | FM410_X1500/X1500/os_src/os_task.c:501-511 | any TCB but the last leaves the list and becomes the first free one, and OSTaskCtr is the length of the list again; the next pointer followed is never null |
| `EventTables.EventTable.constructor` | FM410_X1500/X1500/os_src/os_core.c:892-925 | the loop that links all event control blocks into the free list |
| `EventTables.EventTable.Take` | FM410_X1500/X1500/os_src/os_q.c:126-151 | the first free event control block, with an empty wait table |
| `EventTables.EventTable.Give` | FM410_X1500/X1500/os_src/os_q.c:248-251 | an event control block returns to the free list |
| `Kernel.Kernel.constructor` | FM410_X1500/X1500/os_src/os_core.c:229-257 | all tables cleared |
| `Kernel.Kernel.Ready` | FM410_X1500/X1500/os_src/os_core.c:763-776 | only the ready table changes, by one priority |
| `Kernel.Kernel.Unready` | FM410_X1500/X1500/os_src/os_core.c:801-806 | only the ready table changes, by one priority |
| `TimerSpec.ExactExpiry` | FM410_X1500/X1500/os_src/os_tmr.c:1076-1094 | over every run of timer services: a timer started with delay d fires at exactly the d-th processed tick and a periodic one then every period, and OSTmrRemainGet after c < d ticks is d - c, across the wrap-around of the 32-bit clock |
| `TimerSpec.ScheduleAfter` | FM410_X1500/X1500/os_src/os_tmr.c:934-966 | what the timer looks like after any number of ticks: running with the match value of its next expiry, or completed |
| `TimerSpec.StartSetsTheDelay` | FM410_X1500/X1500/os_src/os_tmr.c:516-563 | OSTmrStart leaves a timer running with its full delay, or its period if the delay is 0, from any state but unused |
| `TimerSpec.OneSpokeSuffices` | FM410_X1500/X1500/os_src/os_tmr.c:1076-1096 | the walk of one spoke has the effect of looking at every timer of the pool, although nodes are unlinked and relinked on the way |
| `TimerSpec.FiresExactlyTheDue` | FM410_X1500/X1500/os_src/os_tmr.c:1079-1096 | the timers that fire at a tick are exactly the running ones whose match value is the new time, each once |
| `TimerSpec.CallsBackOnce` | FM410_X1500/X1500/os_src/os_tmr.c:1083-1087 | of those, exactly the ones with a callback are called, once each |
| `TimerSpec.PoolPartitionKept` | FM410_X1500/X1500/os_src/os_tmr.c:719-770 | every service keeps the partition of the pool into the free list, the spoke of each running timer, and the stopped or completed ones, with OSTmrUsed + OSTmrFree the pool size |
| `TimerSpec.OthersDoNotInterfere` | FM410_X1500/X1500/os_src/os_tmr.c:934-1012 | services that name other timers do not change a timer; a tick changes it as its own state and the clock say |
| `TimerManager.TimerPool.constructor` | FM410_X1500/X1500/os_src/os_tmr.c:788-845 | the loop that links all timers into the free list |
| `TimerManager.TimerPool.Tick` | FM410_X1500/X1500/os_src/os_tmr.c:1062-1099 | one round of OSTmr_Task walks the spoke, ends, has the effect of the tick, and makes the calls in that order |
| `TimerManager.TimerPool.Link` | FM410_X1500/X1500/os_src/os_tmr.c:934-966 | the match value, the spoke, and the node at its head; doubly linked lists of length OSTmrEntries |
| `TimerManager.TimerPool.Unlink` | FM410_X1500/X1500/os_src/os_tmr.c:983-1012 | the node leaves its spoke wherever it is in it |
| `TimerManager.TimerPool.Expire` | FM410_X1500/X1500/os_src/os_tmr.c:1088-1093 | a due timer is unlinked and completed, or linked again if periodic |
| `TimerManager.TimerPool.Create` | FM410_X1500/X1500/os_src/os_tmr.c:104-178 | the first free timer, stopped, with each argument in the field of that name, or none available; the error code, also for a name that is too long, where the timer is created all the same |
| `TimerManager.TimerPool.Alloc` | FM410_X1500/X1500/os_src/os_tmr.c:719-734 | the first timer of the free list and the counters |
| `TimerManager.TimerPool.Free` | FM410_X1500/X1500/os_src/os_tmr.c:751-770 | the timer is cleared and first on the free list |
| `TimerManager.TimerPool.Start` | FM410_X1500/X1500/os_src/os_tmr.c:516-563 | running on its spoke, restarted if it ran; an unused timer is an error |
| `TimerManager.TimerPool.Stop` | FM410_X1500/X1500/os_src/os_tmr.c:604-679 | stopped; the callback and the error code for every state and option |
| `TimerManager.TimerPool.Delete` | FM410_X1500/X1500/os_src/os_tmr.c:204-250 | unlinked if running, and freed; an unused timer is an error |
| `TimerManager.TimerPool.RemainGet` | FM410_X1500/X1500/os_src/os_tmr.c:354-421 | the ticks that remain, for every state |
| `MemSpec.FreeListOverRuns` | FM410_X1500/X1500/os_src/os_mem.c:135-164 | in every state of every run of gets, legitimate puts and writes into held blocks, the list threaded through memory is acyclic, visits exactly OSMemNFree distinct blocks of the partition, and none of them is held |
| `MemSpec.GetFailsIffAllOut` | FM410_X1500/X1500/os_src/os_mem.c:153-164 | no block is free if and only if every block of the partition is held |
| `MemSpec.GetHandsOutFreeBlock` | FM410_X1500/X1500/os_src/os_mem.c:153-164 | a block handed out is a block of the partition that nobody holds |
| `MemSpec.ScribbleKeepsInv` | FM410_X1500/X1500/os_src/os_mem.c:98-105 | writing anything into a held block leaves the list intact |
| `MemSpec.BlocksDisjoint` | FM410_X1500/X1500/os_src/os_mem.c:98-105 | no word of one block is the link word of another |
| `MemPartition.Partition.constructor` | FM410_X1500/X1500/os_src/os_mem.c:98-112 | the loop that threads the list through the blocks leaves all of them free |
| `MemPartition.Partition.Get` | FM410_X1500/X1500/os_src/os_mem.c:135-164 | the first block of the list, which nobody holds; or an error when none is free |
| `MemPartition.Partition.Put` | FM410_X1500/X1500/os_src/os_mem.c:301-326 | the block is first on the list; refused exactly when all are free |
| `MemPartition.Partition.Query` | FM410_X1500/X1500/os_src/os_mem.c:348-373 | the used blocks are the blocks held |
| `Conversions.RoundTrip` | FM410_X1500/X1500/miniclib/c-lib.c:2422-2475 | for every 32-bit number, strtoul with base 0 on the output of %u, %#o, %#x or %#X gives the number back and consumes the whole string |
| `Conversions.Print` | FM410_X1500/X1500/miniclib/c-lib.c:1208-1326 | the conversion gives the prefix, if any, and the digits of the number, for 64-bit numbers too |
| `Conversions.WriteDigits` | FM410_X1500/X1500/miniclib/c-lib.c:1241-1273 | the digit loop writes the digits of the number, most significant first, and stays at least 17 bytes above the start of the 40-byte buffer |
| `Conversions.ParseUnsigned` | FM410_X1500/X1500/miniclib/c-lib.c:2422-2475 | the loops compute Strtoul, which HeadExact, ReadsSigned, ReadsPrefixed, BaseZeroPicks, ReadsNothing and StrtoulExact pin down, for every string and base |
| `Conversions.ScanText` | FM410_X1500/X1500/miniclib/c-lib.c:2451-2467 | scanning the digits of a number that fits in 32 bits gives the number and stops behind them |
| `Saturation.StrtoulExact` | FM410_X1500/X1500/miniclib/c-lib.c:2422-2475 | for every string in every base: let the digits end in a run of digits above ULONG_MAX % base and let v be the value scanned before that run; the result is the numeral of the run continued from v, or its negative modulo 2^32, or ULONG_MAX if and only if that numeral does not fit; and the end of the digits |
| `Saturation.ScanExact` | FM410_X1500/X1500/miniclib/c-lib.c:2451-2467 | the same for the digit loop |
| `Saturation.ValueBeforeExact` | FM410_X1500/X1500/miniclib/c-lib.c:2460-2466 | v is the numeral, modulo 2^32, of those digits before the run that were not refused |
| `Saturation.StrtoulInRange` | FM410_X1500/X1500/miniclib/c-lib.c:2422-2475 | for every string, in every base: if the unbounded numeral of its digits is at most ULONG_MAX, the result is that numeral, or its negative modulo 2^32, and the end of the digits; no digits give 0 and the start of the string |
| `Saturation.ScanInRange` | FM410_X1500/X1500/miniclib/c-lib.c:2451-2467 | the same for the digit loop from any value, with no overflow mark |
| `Saturation.LastDigitExact` | FM410_X1500/X1500/miniclib/c-lib.c:2460-2466 | for every base and every digit string whose digits but the last make up m <= ULONG_MAX: the overflow of m * base + d is reported if and only if m >= ULONG_MAX / base and d > ULONG_MAX % base; so of the numbers that do not fit, exactly those with such a last digit are reported |
| `Saturation.SaturationIsForgotten` | FM410_X1500/X1500/miniclib/c-lib.c:2460-2469 | an input: 42949672960 in base 10 gives 4294967290 and not ULONG_MAX |
| `Saturation.NeverOverflowsExact` | FM410_X1500/X1500/miniclib/c-lib.c:2449-2460 | there is no string for which the test fires if and only if the base divides 2^32 |
| `Saturation.NumeralWraps` | FM410_X1500/X1500/miniclib/c-lib.c:2460-2466 | in those bases the result is the numeral modulo 2^32, for every string |
| `EventEffects.MutexPendTakes` | FM410_X1500/X1500/os_src/os_mutex.c:425-437 | OSMutexPend on an available mutex takes it at once: the caller is the owner and goes on, its priority is the low byte, and no TCB, ready bit or other event has changed |
| `EventEffects.MutexPendWaits` | FM410_X1500/X1500/os_src/os_mutex.c:438-487 | on an owned mutex the caller is in the wait table, not ready, with its timeout; the owner moves to the PIP exactly when it is not there and the caller outranks its saved priority; nothing else changes |
| `EventEffects.MutexAcceptTakes` | FM410_X1500/X1500/os_src/os_mutex.c:104-116 | OSMutexAccept takes the mutex exactly when nobody owns it, and else changes nothing |
| `EventEffects.PostPassesOn` | FM410_X1500/X1500/os_src/os_mutex.c:547-577 | OSMutexPost: the owner is ready at its own priority and the PIP is reserved; then the best waiter owns the mutex, is served and has left the wait table; or, with no waiters, the mutex is free |
| `EventEffects.PostByStranger` | FM410_X1500/X1500/os_src/os_mutex.c:549-552 | a post by a task that does not own the mutex changes nothing |
| `EventEffects.MutexCreateMakes` | FM410_X1500/X1500/os_src/os_mutex.c:180-205 | the first free event control block becomes a free mutex with that PIP, which is reserved; a taken PIP or no block changes nothing |
| `EventEffects.MutexDelFrees` | FM410_X1500/X1500/os_src/os_mutex.c:280-346 | OSMutexDel: refused while tasks wait, unless told otherwise; else the PIP and the block are free, every waiter is served with nothing, a raised owner is back at its priority with OS_DEL_ALWAYS, and no other task is touched |
| `MutualExclusion.OwnershipMoves` | FM410_X1500/X1500/os_src/os_mutex.c:76-577 | for every step of the kernel: a task stops owning a mutex only if it posts it or the mutex is deleted; one begins to own it only if it finds it free or is the best waiter at the post of the owner; and one that finds it free always gets it |
| `MutualExclusion.OwnerKeepsIt` | FM410_X1500/X1500/os_src/os_mutex.c:549-577 | over every run an owner stays the owner as long as it does not post the mutex and nobody deletes it |
| `MutualExclusion.TakenAtOnceIsHeld` | FM410_X1500/X1500/os_src/os_mutex.c:425-437 | mutual exclusion: a task that gets a mutex at once, by OSMutexPend or OSMutexAccept, is its one owner through every later run in which it does not post it and nobody deletes it |
| `EventEffects.BroadcastReachesAll` | FM410_X1500/X1500/os_src/os_q.c:627-635 | a broadcast empties the wait table; every task that waited has the message, no timeout and no event, and is ready exactly if nothing else holds it; all other tasks and the stored messages are as before |
| `EventEffects.ReadyAllExact` | FM410_X1500/X1500/os_src/os_mutex.c:318-320 | the loop, for every state in which the waiters are found at their priorities: exactly they are served |
| `EventEffects.PostDelivers` | FM410_X1500/X1500/os_src/os_q.c:464-562 | a post serves the best waiter and only that; or puts the message behind, or in front of, the stored ones; or, when full, changes nothing |
| `EventEffects.LastInFirstOut` | FM410_X1500/X1500/os_src/os_q.c:525-562 | a message posted to the front is the next one accepted, and accepting it restores the state |
| `EventEffects.AcceptTakesFirst` | FM410_X1500/X1500/os_src/os_q.c:53-91 | the oldest message and only that leaves the queue |
| `EventEffects.PendTakesOrWaits` | FM410_X1500/X1500/os_src/os_q.c:410-426 | a pend takes the oldest message, or the caller is in the wait table, not ready, with its timeout, and nothing else changes |
| `EventEffects.PendReturns` | FM410_X1500/X1500/os_src/os_q.c:428-441 | after the second half of a pend the caller waits for nothing and is in no wait table, its status and timeout mark are cleared, and no other task is touched |
| `EventEffects.FlushEmpties` | FM410_X1500/X1500/os_src/os_q.c:316-340 | OSQFlush leaves no message; size, waiters and tasks stay |
| `EventEffects.MsgDelFrees` | FM410_X1500/X1500/os_src/os_q.c:204-292 | OSQDel and OSMboxDel: refused while tasks wait, unless told otherwise; else every waiter is served with no message and the block is the first free one |
| `EventEffects.MsgCreateMakes` | FM410_X1500/X1500/os_src/os_q.c:113-160 | the first free event control block becomes a queue with those settings and no waiters |
| `FlagEffects.ConditionMeaning` | FM410_X1500/X1500/os_src/os_flag.c:118-166 | the condition of each of the four wait types, as a statement about single flags |
| `FlagEffects.ConsumingMeaning` | FM410_X1500/X1500/os_src/os_flag.c:674-686 | what consuming does to single flags |
| `FlagEffects.PostWakesExactly` | FM410_X1500/X1500/os_src/os_flag.c:797-873 | after OSFlagPost a flag is set if and only if it was named and is to be set, or was not named and was set; exactly the linked tasks whose condition then holds are off the list, with just the flags that meet it, and ready if nothing else holds them; all other tasks are as before |
| `FlagEffects.PostedFlagWakes` | FM410_X1500/X1500/os_src/os_flag.c:797-873 | so a task that waits for any of some flags to be set, or cleared, is woken by a post that sets, or clears, one of them |
| `FlagEffects.AcceptTakes` | FM410_X1500/X1500/os_src/os_flag.c:84-176 | the flags taken and consumed, flag by flag; nothing changes if the condition does not hold |
| `FlagEffects.PendTakesOrLinks` | FM410_X1500/X1500/os_src/os_flag.c:588-661 | the flags at once; or a node at the head of the list with what the task wants, and the caller not ready, with its timeout |
| `FlagEffects.FlagPendReturns` | FM410_X1500/X1500/os_src/os_flag.c:663-695 | after the second half the caller is on no list; the flags that met its condition are consumed if it was not a timeout and that was asked for |
| `FlagEffects.FlagDelFrees` | FM410_X1500/X1500/os_src/os_flag.c:277-361 | refused while tasks wait, unless told otherwise; else the group is unused with no flags, and exactly its waiters are off the list with none |
| `FlagEffects.FlagCreateMakes` | FM410_X1500/X1500/os_src/os_flag.c:200-237 | the group is in use, with the given flags and no waiters |
| `TaskEffects.DelayIsExact` | FM410_X1500/X1500/os_src/os_core.c:571-592 | for every task but the idle task and every n, in every state of the invariant: after n ticks a delay or timeout of d > n has d - n to go and nothing else has changed; one of d <= n is over, with the mark of a timeout exactly if the task waited; without one the TCB is as before; and the task is ready exactly if it has neither status nor delay |
| `TaskEffects.DelayTakes` | FM410_X1500/X1500/os_src/os_time.c:49-60 | OSTimeDly stores just the number of ticks it was given and takes the caller out of the ready table |
| `TaskEffects.DelayLasts` | FM410_X1500/X1500/os_src/os_time.c:36-60 | a task that calls OSTimeDly(d) is ready again after d ticks and not before |
| `TaskEffects.TimeoutIsExact` | FM410_X1500/X1500/os_src/os_core.c:571-592 | a pend with a timeout of d ticks gets the mark of a timeout at the d-th tick and not before, and is ready then unless suspended; with timeout 0 it goes on |
| `TaskEffects.DelayResumeEnds` | FM410_X1500/X1500/os_src/os_time.c:156-199 | OSTimeDlyResume ends the delay as the last tick would, or changes nothing |
| `TaskEffects.SuspendHolds` | FM410_X1500/X1500/os_src/os_task.c:945-980 | OSTaskSuspend sets the suspend bit and clears the ready bit of the task it finds, and nothing else |
| `TaskEffects.ResumeFrees` | FM410_X1500/X1500/os_src/os_task.c:781-823 | OSTaskResume clears the bit; the task is ready exactly if it has neither another status bit nor a delay |
| `TaskEffects.ResumeUndoesSuspend` | FM410_X1500/X1500/os_src/os_task.c:781-980 | OSTaskResume after OSTaskSuspend restores the state, whatever the task was doing |
| `TaskEffects.ChangePrioMoves` | FM410_X1500/X1500/os_src/os_task.c:99-154 | outside the window the slot, the ready bit and the bit in the wait table of every event move to the new priority, and nothing else changes |
| `TaskEffects.ChangeBack` | FM410_X1500/X1500/os_src/os_task.c:62-154 | changing back restores the state |
| `TaskEffects.ChangePrioRefused` | FM410_X1500/X1500/os_src/os_task.c:95-113 | a taken priority or one without a task changes nothing |
| `TaskEffects.CreateReserves` | FM410_X1500/X1500/os_src/os_task.c:213-221 | a free priority gets the marker, and nothing else changes |
| `TaskEffects.TakesFirstFree` | FM410_X1500/X1500/os_src/os_core.c:1591-1595 | the first free TCB leaves the free list |
| `TaskEffects.CreateMakes` | FM410_X1500/X1500/os_src/os_core.c:1596-1674 | the new task waits for nothing, is ready at its priority, is found there and heads the list; or the reservation is undone |
| `TaskEffects.DelQuiets` | FM410_X1500/X1500/os_src/os_task.c:465-494 | up to the gap of OSTaskDel: the TCB has no delay, status, timeout mark or node and its priority is not ready; no other TCB changes |
| `TaskEffects.DelUnlinks` | FM410_X1500/X1500/os_src/os_task.c:465-490 | its bit, and only that, leaves the wait table of every event, and its node, and only that, the list of every group |
| `TaskEffects.DelFrees` | FM410_X1500/X1500/os_src/os_task.c:496-516 | after the gap its slot is empty, it is off the live list and heads the free list |
| `TaskEffects.DelUndoesCreate` | FM410_X1500/X1500/os_src/os_task.c:198-516 | with nothing in between, deleting a task that was just created restores all but its TCB |
| `TimerEffects.CreateMakes` | FM410_X1500/X1500/os_src/os_tmr.c:131-178 | the first free timer is stopped with exactly the given delay, period, option and callback; no other timer changes; with none free nothing changes |
| `TimerEffects.CreatedThenStarted` | FM410_X1500/X1500/os_src/os_tmr.c:104-563 | a timer that is created with a delay and a period and then started has the delay to run, or the period if the delay is 0, and keeps the other arguments |
| `TimerEffects.CreatedTimerFires` | FM410_X1500/X1500/os_src/os_tmr.c:104-1096 | over every run: a timer created with given arguments and started some services later fires at exactly the ticks that its delay, period and option call for, counted from the start, and calls its callback function then if it has one |
| `TimerEffects.StartRuns` | FM410_X1500/X1500/os_src/os_tmr.c:516-563 | a started timer is on the spoke of its match value and on no other, and that value is its delay, or its period, from now |
| `TimerEffects.StopEnds` | FM410_X1500/X1500/os_src/os_tmr.c:604-679 | a running timer is off the wheel with its settings unchanged; any other is left alone |
| `TimerEffects.DeleteEnds` | FM410_X1500/X1500/os_src/os_tmr.c:204-250 | a timer in use is off the wheel and first on the free list |
| `TimerEffects.EndedTimerIsSilent` | FM410_X1500/X1500/os_src/os_tmr.c:204-679 | over every run: after OSTmrStop or OSTmrDel a timer neither fires nor calls back until it is started again |
| `TimerEffects.RemainForetells` | FM410_X1500/X1500/os_src/os_tmr.c:385-402 | what OSTmrRemainGet reads of a stopped timer is what it reads right after OSTmrStart, except exactly for a one-shot timer with a period and no delay, which the argument check would refuse to create |
| `NumberTexts.PrintedDenotes` | FM410_X1500/X1500/miniclib/c-lib.c:1208-1326 | what is printed, with the digits spelled out: decimal, octal behind a 0, lower-case hexadecimal behind 0x and upper-case behind 0X, no prefix to zero, no leading zero, and the number as its value |
| `NumberTexts.HeadExact` | FM410_X1500/X1500/miniclib/c-lib.c:2433-2448 | for every string, as white space, a sign and a rest: a minus sign and nothing else negates, 0x and 0X are skipped in bases 16 and 0, and base 0 stands for 16, 8 or 10 |
| `NumberTexts.TakenApart` | FM410_X1500/X1500/miniclib/c-lib.c:2433-2448 | every string is of that form |
| `NumberTexts.ReadsSigned` | FM410_X1500/X1500/miniclib/c-lib.c:2422-2475 | in every base, strtoul reads the text of every number that fits, behind any white space and sign and before anything that is no digit: n, or 2^32 - n behind a minus sign, and the end of the text |
| `NumberTexts.ReadsPrefixed` | FM410_X1500/X1500/miniclib/c-lib.c:2441-2446 | the same behind 0x or 0X in bases 16 and 0 |
| `NumberTexts.BaseZeroPicks` | FM410_X1500/X1500/miniclib/c-lib.c:2441-2448 | base 0 gives what base 16 gives for 0x, base 8 for another leading 0, and base 10 otherwise |
| `NumberTexts.ReadsNothing` | FM410_X1500/X1500/miniclib/c-lib.c:2451-2474 | no digits give 0 and the start of the string, also behind a prefix, whose 0 the C standard would read |

## Left out

- Context-switch assembly, interrupt save and restore, stack set-up and the hooks. Interrupt nesting, and the scheduler lock other than inside OSTaskDel: a critical section is one atomic step.
- The argument checks that OS_ARG_CHK_EN removes: what they would refuse is required of the caller.
- Semaphores (their source file is not part of this model), plain query copies, the statistics task, stack checking, OSTaskCreateExt, OSTaskDelReq, OSTimeDlyHMSM, OSTime itself and tick stepping. They would add easy members.
- Names, but for the error of a timer name that is too long; what the BSP delay hook returns is a parameter of OSTimeDly.
- OSMutexCreate and OSQCreate fill the event control block after the critical section that takes it. The block is on no list then and no caller has its address, so taking and filling it are one step here.
- The counters of context switches; the field OSEventCnt of queues and mailboxes (always 0); and the entries OSTCBY, OSTCBX and their bit masks, which are computed from the priority where they are used.
- A queue's ring is an object beside the kernel, related to the messages of its event by `OsQueue.RingOf`.
- OsQueue.Create: whether a queue control block is left is a parameter; the free list of these blocks is not modelled.
- OsQueue.Del: nor does it return the queue control block to that list.
- OsFlag.Create: the head of the free list of flag groups is a parameter.
- A mailbox is a queue of size 1 whose slot is empty or holds one non-null message. Posting a null message to a mailbox is left to the callers not to do, as the argument check would refuse it.
- Flags are sets in the kernel class; the word operations are proved against the set operations in `FlagWords`.
- Wait types and options outside the enumerations, and their error codes.
- `strtol`, signed and floating-point conversions, widths, precisions and padding; buffered output.
- Timers: the lock of the timer manager is taken as given, and time counts processed ticks; signals that OSTmrStart discards are not accounted for. Callbacks do not call timer services.
- OSTimeTicks has its critical section commented out (`os_core.c:623, 650`); it is one step here, so its caller must have interrupts off.
- The option OS_POST_OPT_NO_SCHED, with which the caller forgoes the switch; and OSRunning: the start-up code, before OSStart, never switches.
- KernelRuns.StepKeepsInv: a task that has left the ready table does not go on, so a task does not suspend itself by another priority than its present one, and OSPrioCur does not mislead OS_Sched (see `SuspendStopsExact` and `BestAtReturn`). Tasks that compete for a mutex rank below its inheritance priority, and owners do not pend or acquire another mutex, as the notes of OSMutexPend demand. OSTaskChangePrio, OSTaskDel, OSTaskResume and OSMutexDel are called where `ChangePrioExact`, `TaskDelExact`, `TaskResumeExact` and `MutexDelExact` say that the invariant survives.
- MutexOwnership.PendReturnsOwner: for runs in which OSMutexDel is refused while a task is between the two halves of a pend on that mutex; `RunGrantedExact` shows that no other runs keep the promise throughout.
- MessageFlow.FirstInFirstOut: for runs without front posts, broadcasts, flushes and deletion of that queue, and without deleting a task that has been handed a message and has not returned with it; each of these loses or reorders messages by design.
- FlagFlow.NoLostWakeUp: for groups used in one direction; `LostWakeUpsExact` gives the condition for all others.
- Conversions.RoundTrip: for numbers of 32 bits, the width of unsigned long.
