# LiteOS kernel core: a verified model

This project models the core of the LiteOS kernel in Dafny and proves what its parts
promise: the tick-driven structures (task delay wheel, software timers, time slice,
tickless sleep), the blocking objects (message queue, mail blocks, mutex, event group,
semaphore), and the scheduling and list structures they share.

`dafny verify dfyconfig.toml` checks everything.

## How it is built

Each interrupt-locked region of the C code is one atomic step, except that `osTaskWait`
and the `LOS_Schedule` right behind it are taken together. A blocking call is split where
the caller gives up the processor: one step up to there, one step when the task runs
again. Every component has two parts:

* a state as a value with its steps as functions, an invariant, and theorems over whole
  runs of steps, where the calls of all tasks, the ticks and the resumptions interleave
  in any order;
* a class that does what the C code does, in place and in its order, each method proved
  to perform the corresponding step.

| file | component |
|---|---|
| `DeltaList`, `TaskWheel` | lists of increments; the delay wheel as a refinement of a map from task to ticks left |
| `Tasks`, `Kernel`, `TaskCalls`, `TaskManager` | task states, wait lists and ready lists; all task calls and the tick; what each call does; the same in place |
| `TaskAnswers`, `RightTask`, `Priorities` | what each task call returns and leaves behind; that the right task runs; that a priority once set holds |
| `DlList`, `PriQueue` | circular intrusive lists pointer by pointer; the ready queue on them |
| `Timers`, `TimerRuns`, `Alignment`, `Swtmr` | software timers as countdowns; runs of them; phase alignment; the sorted list in place |
| `MsgQueue`, `Ring`, `Mail` | the queue as a protocol with grants; its ring of bytes in place; mail blocks |
| `Mutex`, `Inheritance`, `Nesting`, `LockCount`, `MuxTable` | mutual exclusion; priority inheritance over runs; what nested locks do to a lent priority; lock counts; the control blocks in place |
| `Event`, `EventReads` | event groups; what a woken reader finds |
| `Semaphore` | counting and binary semaphores |
| `WaitLists`, `SemOnTasks`, `MuxOnTasks`, `MuxRuns`, `NestingRuns`, `QueueOnTasks`, `EventOnTasks` | semaphores, mutexes, queues and event groups as part of the running kernel: refinement of the models above, and their theorems for the whole system |
| `MuxAnswers`, `MuxPreemption` | what mutex calls do to control blocks, priorities and lists; when a release leaves the wrong task running |
| `TimeSlice`, `Clock` | round robin; the tick handlers and tickless sleep on top of the task manager and the timers |
| `Modular` | remainders |

Run theorems say what no sequence of calls can break; what one call answers is stated
beside them, in the fields of the state alone, by the lemmas named `...Answers`.

Two points of the design matter everywhere:

* **Grants.** A woken queue reader or writer goes on without touching the counter it
  waited on, so the queue's invariant counts the tasks that were woken and have not run
  (`readGrants`, `writeGrants`). Event groups and mail blocks record woken tasks likewise.
* **Wait lists.** All lists that use a task's `stPendList` node form one family in
  `Tasks`. `Kernel.WaitListSteps` shows how a wait list can change; the IPC models use
  exactly these steps (append the caller, wake a member, lose a member to a timeout).
  The modules `...OnTasks` go all the way: there the calls are steps of the kernel state
  itself, shown to refine the object models, and the run theorems are stated of the
  kernel's own lists and priorities.

Preconditions that the kernel leaves to its callers: `LOS_TaskDelete` is not used on the
running task, on a task whose wait has timed out and that has not run since, on the owner
of a mutex, or on a task with an unconsumed grant; a call that blocks is made by the
running task, after it has noticed the timeout of an earlier wait and used an earlier
grant, and never by the idle task. Calls that do not block may come from anywhere.

## What the proofs brought to light

* The kernel calls its scheduler often enough: but for the bare `osTaskWake` and
  `osTaskPriModify`, whose callers have to do it, no call and no tick leaves a task
  running that is not the head of the best ready list (`RightTask.RightTaskRuns`).
* The test of `LOS_EventWrite` against only the newly written bits is right because no
  waiter is ever satisfied (`Event.WriteTestExact`), and wrong without that
  (`Event.WriteTestNeedsInvariant`).
* An event read that waited, did not time out and was woken can still return 0, when
  another task clears the bits before it runs (`Event.WokenReadMayReturnNothing`). It
  returns bits exactly if each step that ended its condition was made good by a later
  write (`EventReads.WokenReadReturns`); `EventReads.SpoilsExactly` says which steps
  those are.
* Releasing the last mutex restores the original priority exactly when that mutex was
  acquired at that priority (`Inheritance.LastReleaseRestores`); releasing in another
  order can leave a task boosted for good (`Inheritance.BoostOutlives`).
* Even properly nested locks lose a boost (`Nesting.BoostLost`): releasing the inner mutex
  puts the task back to the priority saved there, although better tasks wait for the
  outer one. It keeps the priority it should have exactly when no better task blocked on
  the outer mutex meanwhile (`Nesting.NestedLock`, `NestingRuns.NestedLock`); for any
  other order of releases see `Nesting.AfterNesting` and `NestingRuns.AfterNesting`.
* `LOS_MuxPost` without waiters lowers the priority of its caller and does not call the
  scheduler, so a ready task of better priority can be passed over
  (`MuxPreemption.ReadyTaskPassedOver`). The caller is still the right one to run exactly
  when its priority does not change or nobody else is ready at the saved priority or
  better (`MuxPreemption.StillHeadsBest`).
* `LOS_SemPost` can report an overflow with tasks waiting exactly if the maximum is 0,
  which no public call uses (`Semaphore.OverflowWithWaiters`).
* `LOS_SwtmrStart` writes the alignment word before it looks at the state, so starting a
  deleted alignable timer with alignment on leaves a stale word (`Swtmr.MarkedUnused`), by
  which a later one-shot can expire too early (`Alignment.MarkedSlotShortensOneShot`). An
  interval of 10 * 2^24 ticks or more does not fit the divisor field (`Timers.PreparedOk`),
  and the divisor can become 0 (`Alignment.DivisorCutToZero`).
* `osTaskNextSwitchTimeGet` returns 0 for an empty wheel and `osSleepTicksGet` takes the
  minimum, so the system never sleeps while no task is delayed or waiting with a timeout,
  even if a timer is running (`Clock.Ticker.SleepTicksGet`).
* A slice timeout of 0 means 65536 ticks (`TimeSlice.EndsOnTime`).

## Model

| member | source | states |
|---|---|---|
| TaskWheel.WordFields | Huawei_LiteOS/kernel/base/core/los_task.inc:47-67 | The two fields of `uwIdxRollNum` (5-bit bucket, 27-bit rolls) are disjoint: writing both and reading either gives it back, within 32 bits |
| TaskWheel.Wheel.Add | Huawei_LiteOS/kernel/base/core/los_task.c:178-217 | The new task has exactly `timeout` ticks left; the countdown of every other task is unchanged |
| TaskWheel.Wheel.Walk | Huawei_LiteOS/kernel/base/core/los_task.c:199-213 | The walk along a bucket gives up the rolls of the entries passed and stops at the first entry with more rolls than are left |
| TaskWheel.Wheel.Delete | Huawei_LiteOS/kernel/base/core/los_task.c:220-236 | The task leaves the wheel; the countdown of every other task is unchanged |
| TaskWheel.Wheel.Scan | Huawei_LiteOS/kernel/base/core/los_task.c:238-297 | One tick: every countdown drops by one, and exactly the tasks that had one tick left are released, once each |
| TaskWheel.Wheel.NextSwitchTime | Huawei_LiteOS/kernel/base/core/los_task.c:96-120 | The result is the least countdown on the wheel, and 0 if and only if no task is on it |
| TaskWheel.AddOk | Huawei_LiteOS/kernel/base/core/los_task.c:178-217 | Linking a task at the place the walk found keeps every bucket in agreement with the countdown map extended by the new task |
| TaskWheel.DeleteOk | Huawei_LiteOS/kernel/base/core/los_task.c:220-236 | Handing the rolls of the unlinked entry to its successor keeps every bucket in agreement with the countdown map without that task |
| TaskWheel.ScanOk | Huawei_LiteOS/kernel/base/core/los_task.c:238-297 | Moving the cursor and popping the entries without rolls of one bucket takes one tick off every countdown in all 32 buckets |
| TaskWheel.ScanOtherBucket | Huawei_LiteOS/kernel/base/core/los_task.c:238-297 | A bucket the cursor does not reach is one tick closer for all its tasks, and none of them is due |
| TaskWheel.HeadIsEarliest | Huawei_LiteOS/kernel/base/core/los_task.c:96-120 | The head of a bucket is its earliest task, and its own rolls with the distance of the bucket give its countdown |
| TaskWheel.RollsBounded | Huawei_LiteOS/kernel/base/core/los_task.c:220-236 | Adding the rolls of neighbouring entries never carries out of the 27-bit field into the bucket number |
| TaskWheel.WordSplit | Huawei_LiteOS/kernel/base/core/los_task.inc:47-67 | Every 32-bit word is made of its two fields and nothing else |
| DeltaList.PrefixInsert | Huawei_LiteOS/kernel/base/core/los_task.c:178-217 | An entry inserted into a list of increments stands for the value asked for, and no other absolute value changes |
| DeltaList.PrefixRemove | Huawei_LiteOS/kernel/base/core/los_swtmr.c:368-404 | Removing an entry and giving its increment to the next one changes no other absolute value |
| Tasks.ScheduleOk | Huawei_LiteOS/arch/arm/arm-m/src/los_hw.c:66-88 | LOS_Schedule keeps the structural invariant, and with the lock at 0 the running task heads the best non-empty ready list afterwards |
| Tasks.TopHeadsBest | Huawei_LiteOS/kernel/base/core/los_priqueue.c:70-83 | The scan over the priorities returns the head of the first non-empty list |
| Tasks.WaitOk | Huawei_LiteOS/kernel/base/core/los_task.c:1231-1247 | osTaskWait keeps the invariant (READY if and only if linked in the ready list of the priority, on the wheel if and only if DELAY or waiting with TIMEOUT, each node in at most one list), except that the running task is no longer ready |
| Tasks.WakeOk | Huawei_LiteOS/kernel/base/core/los_task.c:1256-1270 | osTaskWake keeps the invariant and takes the task, and only it, off the wheel |
| Tasks.ExpireOk | Huawei_LiteOS/kernel/base/core/los_task.c:254-291 | Expiring one task keeps the invariant and never touches the running task |
| Tasks.PriModifyOk | Huawei_LiteOS/kernel/base/core/los_task.c:154-168 | osTaskPriModify keeps the invariant for any task, ready or not |
| Tasks.ScanEffect | Huawei_LiteOS/kernel/base/core/los_task.c:238-297 | After a tick exactly the released tasks have stopped waiting with TIMEOUT as it was, every other wait is untouched, and the wait lists lose just the released tasks, in order |
| Tasks.Block | Huawei_LiteOS/kernel/base/core/los_task.c:1231-1247 | A blocking call: the caller ends up last in the wait list, on the wheel with its timeout unless it waits for ever; nobody else's wait changes; the best ready task runs |
| Kernel.RunKeepsInv | Huawei_LiteOS/kernel/base/core/los_task.c:827-1352 | The structural invariant holds in every state of every run of task calls, blocking waits, wake-ups and ticks |
| Kernel.InitialOk | Huawei_LiteOS/kernel/base/core/los_task.c:491-568 | It holds when the idle task starts |
| Kernel.SchedulingPoint | Huawei_LiteOS/kernel/base/core/los_task.c:827-1352 | At every step that reaches the scheduler, with the lock at 0 (or just released), the running task heads the best non-empty ready list |
| Kernel.WaitOutcome | Huawei_LiteOS/kernel/base/core/los_task.c:1231-1270 | Over any run a blocking wait has exactly one outcome: still waiting with the right number of ticks left, granted (off the wheel, TIMEOUT clear), or expired (off the wheel, TIMEOUT set) |
| Kernel.OutcomeMeans | Huawei_LiteOS/kernel/base/core/los_task.c:238-297 | The outcome is "granted" if and only if a wake-up came before the T-th tick, and "timeout" if and only if T ticks passed without one |
| Kernel.OutcomeStep | Huawei_LiteOS/kernel/base/core/los_task.c:1231-1270 | No call of another task, no scheduling and no change of priority moves a wait from one outcome to another |
| Kernel.WaitListSteps | Huawei_LiteOS/kernel/base/core/los_task.c:1231-1270 | A wait list changes only by appending the running task, waking a member, or losing expired or deleted members: what the models of the IPC objects assume |
| TaskCalls.SuspendDoes | Huawei_LiteOS/kernel/base/core/los_task.c:932-981 | Suspend marks the task and takes it from its ready list; waits, delays and all other tasks stay as they are |
| TaskCalls.ResumeDoes | Huawei_LiteOS/kernel/base/core/los_task.c:876-923 | Resume clears the mark; only a task that is not blocked becomes ready, last in its list |
| TaskCalls.ResumeUndoesSuspend | Huawei_LiteOS/kernel/base/core/los_task.c:876-981 | Resume after suspend restores a waiting or delayed task entirely; a ready one is only moved to the end of its list |
| TaskCalls.YieldDoes | Huawei_LiteOS/kernel/base/core/los_task.c:1280-1310 | Yield moves the running task behind the other ready tasks of its priority and does nothing when there are none |
| TaskCalls.DelayDoes | Huawei_LiteOS/kernel/base/core/los_task.c:1076-1106 | Delay takes the caller off its ready list and puts it on the wheel with exactly that many ticks |
| TaskCalls.SetPrioDoes | Huawei_LiteOS/kernel/base/core/los_task.c:154-168 | A ready task moves to the end of the list of the new priority, also when the priority stays the same; any other task keeps its place |
| TaskCalls.GrantDoes | Huawei_LiteOS/kernel/base/core/los_task.c:1256-1270 | A wake-up unlinks the task, clears its TIMEOUT, takes it off the wheel, and makes it ready at the end of its list unless it is suspended |
| TaskCalls.ExpiryDoes | Huawei_LiteOS/kernel/base/core/los_task.c:254-291 | An expiry does the same to a waiting task but leaves TIMEOUT set |
| TaskCalls.DeleteDoes | Huawei_LiteOS/kernel/base/core/los_task.c:990-1067 | Delete unlinks the task from whatever list it is in and from the wheel and puts its control block first in the free list |
| TaskCalls.CreateDoes | Huawei_LiteOS/kernel/base/core/los_task.c:709-867 | Create turns the first free control block into a ready task, last among those of its priority |
| TaskCalls.DeleteUndoesCreate | Huawei_LiteOS/kernel/base/core/los_task.c:827-1067 | Deleting a new task that has not preempted its creator restores every list and the wheel |
| TaskCalls.BlockDoes | Huawei_LiteOS/kernel/base/core/los_task.c:1231-1247 | A blocking call moves the caller from its ready list to the end of the wait list and sets the status bits and the wheel to match its timeout |
| TaskCalls.WakeUndoesBlock | Huawei_LiteOS/kernel/base/core/los_task.c:1231-1270 | A wake-up undoes a wait with any timeout: wait list, wheel and status are as before the call, and the task is at the end of its ready list |
| TaskManager.Manager.constructor | Huawei_LiteOS/kernel/base/core/los_task.c:491-568 | The initial kernel state |
| TaskManager.Manager.LosSchedule | Huawei_LiteOS/arch/arm/arm-m/src/los_hw.c:66-88 | In place, LOS_Schedule performs the modelled step |
| TaskManager.Manager.TaskWait | Huawei_LiteOS/kernel/base/core/los_task.c:1231-1247 | In place, osTaskWait performs the modelled step on lists, status bits and wheel |
| TaskManager.Manager.TaskWake | Huawei_LiteOS/kernel/base/core/los_task.c:1256-1270 | In place, osTaskWake performs the modelled step; its caller need not reschedule for the invariant to hold |
| TaskManager.Manager.TaskScan | Huawei_LiteOS/kernel/base/core/los_task.c:238-297 | In place, osTaskScan over the buckets performs the modelled tick and schedules if and only if some released task is not suspended |
| TaskManager.Manager.PriModify | Huawei_LiteOS/kernel/base/core/los_task.c:154-168 | In place, osTaskPriModify performs the modelled step |
| TaskManager.Manager.TaskPriSet | Huawei_LiteOS/kernel/base/core/los_task.c:1149-1207 | Every error case in order, then the modelled step |
| TaskManager.Manager.TaskSuspend | Huawei_LiteOS/kernel/base/core/los_task.c:932-981 | Every error case in order, then the modelled step |
| TaskManager.Manager.TaskResume | Huawei_LiteOS/kernel/base/core/los_task.c:876-923 | Every error case in order, then the modelled step |
| TaskManager.Manager.TaskYield | Huawei_LiteOS/kernel/base/core/los_task.c:1280-1310 | The result code and the modelled step |
| TaskManager.Manager.TaskDelay | Huawei_LiteOS/kernel/base/core/los_task.c:1076-1106 | Refused under the lock; 0 ticks is a yield; otherwise the modelled step |
| TaskManager.Manager.TaskLock | Huawei_LiteOS/kernel/base/core/los_task.c:1319-1326 | The 16-bit lock count goes up by one, modulo 65536 |
| TaskManager.Manager.TaskUnlock | Huawei_LiteOS/kernel/base/core/los_task.c:1335-1352 | The count goes down; reaching 0 schedules; at 0 it stays |
| TaskManager.Manager.TaskDelete | Huawei_LiteOS/kernel/base/core/los_task.c:990-1067 | Every error case in order, then the modelled step |
| TaskManager.Manager.TaskCreate | Huawei_LiteOS/kernel/base/core/los_task.c:709-867 | The errors for a bad priority, for no free control block and for no memory, in order, then the modelled step; the new task is the first free control block |
| TaskManager.Manager.AfterWait | Huawei_LiteOS/kernel/base/ipc/los_sem.c:271-281 | The woken call finds TIMEOUT set or not and clears it |
| TaskManager.Manager.BlockOn | Huawei_LiteOS/kernel/base/ipc/los_sem.c:271-273 | In place, osTaskWait and LOS_Schedule together: the caller is last in the wait list, on the wheel unless it waits for ever, and the best ready task runs |
| DlList.ListInit | Huawei_LiteOS/kernel/include/los_list.h:80-84 | A node linked to itself is an empty circular list |
| DlList.ListAdd | Huawei_LiteOS/kernel/include/los_list.h:129-135 | The node comes right behind the given one; the pointers form the ring with it inserted there |
| DlList.ListTailInsert | Huawei_LiteOS/kernel/include/los_list.h:157-160 | The node becomes the last entry before the head |
| DlList.ListDelete | Huawei_LiteOS/kernel/include/los_list.h:183-189 | The ring closes around the removed node, whose pointers are null; only its neighbours are written; a node alone in its ring is just unlinked |
| DlList.ListEmpty | Huawei_LiteOS/kernel/include/los_list.h:213-216 | True if and only if the ring holds nothing but the head |
| PriQueue.PriQueue.Enqueue | Huawei_LiteOS/kernel/base/core/los_priqueue.c:60-63 | The node is last in the ring of its priority; all other rings are untouched and stay disjoint |
| PriQueue.PriQueue.Dequeue | Huawei_LiteOS/kernel/base/core/los_priqueue.c:65-68 | The node is gone from whichever ring it was in; order and all other rings stay |
| PriQueue.PriQueue.Top | Huawei_LiteOS/kernel/base/core/los_priqueue.c:70-83 | The first entry of the first non-empty ring, or null when all are empty |
| PriQueue.PriQueue.Size | Huawei_LiteOS/kernel/base/core/los_priqueue.c:85-96 | The walk around a ring counts its entries without the head |
| PriQueue.PriQueue.TotalSize | Huawei_LiteOS/kernel/base/core/los_priqueue.c:98-109 | The sum over all priorities |
| Timers.TickEffect | Huawei_LiteOS/kernel/base/core/los_swtmr.c:413-462 | A tick keeps the invariant, lowers every countdown by one, restarts exactly the periodic timers that reach 0, and changes exactly the control blocks of those that fire |
| Timers.FireAllEffect | Huawei_LiteOS/kernel/base/core/los_swtmr.c:413-443 | Firing several timers in list order does to each what firing it alone does |
| Timers.StartOk | Huawei_LiteOS/kernel/base/core/los_swtmr.c:207-340 | Starting an idle timer keeps the invariant: blocks are free, idle or running as their state says, IDs stay congruent to the slot, 0 < countdown <= interval |
| Timers.StopOk | Huawei_LiteOS/kernel/base/core/los_swtmr.c:368-404 | Stopping keeps it and leaves the timer idle |
| Timers.DeleteOk | Huawei_LiteOS/kernel/base/core/los_swtmr.c:349-359 | Deleting keeps it and returns the block to the free list |
| Timers.CreateOk | Huawei_LiteOS/kernel/base/core/los_swtmr.c:711-732 | Creating takes the first free block and keeps it |
| Timers.PreparedOk | Huawei_LiteOS/kernel/base/core/los_swtmr.c:755-765 | The alignment word that LOS_SwtmrStart writes describes its timer if and only if the timer has not been deleted and interval/10 fits 24 bits |
| TimerRuns.RunKeepsOk | Huawei_LiteOS/kernel/base/core/los_swtmr.c:207-899 | The invariant holds over every run of creations, starts, stops, deletions and ticks |
| TimerRuns.PeriodicFires | Huawei_LiteOS/kernel/base/core/los_swtmr.c:413-462 | A periodic timer started with countdown v and period p fires at the ticks v, v+p, v+2p, ... and at no other, whatever other timers do, until a call names it |
| TimerRuns.OneShotFires | Huawei_LiteOS/kernel/base/core/los_swtmr.c:413-462 | A one-shot fires at exactly one tick, the v-th after its start |
| TimerRuns.IdStep | Huawei_LiteOS/kernel/base/core/los_swtmr.c:424-436 | Only the expiry of a one-shot changes an ID |
| TimerRuns.BumpNReturns | Huawei_LiteOS/kernel/base/core/los_swtmr.c:424-436 | After n expiries an ID is back at its old value if and only if n is a multiple of the number of IDs of its slot |
| TimerRuns.HandleAccepted | Huawei_LiteOS/kernel/base/core/los_swtmr.c:66-80 | Over any run, an old handle is accepted again if and only if the slot has seen a full cycle of one-shot expiries |
| TimerRuns.InStepKept | Huawei_LiteOS/kernel/base/core/los_swtmr.c:224-302 | Two timers in step stay in step through every tick and every call about other timers |
| TimerRuns.ExpiriesCoincide | Huawei_LiteOS/kernel/base/core/los_swtmr.c:224-302 | Over any run every expiry of the longer of two timers in step coincides with one of the shorter |
| TimerRuns.CallAnswers | Huawei_LiteOS/kernel/base/core/los_swtmr.c:668-899 | What creation, start, stop and deletion do to the timer named, field by field, and that they touch no other |
| TimerRuns.ExpiryAnswers | Huawei_LiteOS/kernel/base/core/los_swtmr.c:413-443 | A periodic timer that expires counts its interval again; a one-shot goes off, and a self-deleting one leaves its block free with the next ID of its slot |
| TimerRuns.NoExpiryAnswers | Huawei_LiteOS/kernel/base/core/los_swtmr.c:452-462 | A timer that does not expire on a tick comes one tick nearer and keeps its block |
| Alignment.ChoiceInStep | Huawei_LiteOS/kernel/base/core/los_swtmr.c:224-302 | The countdown chosen for an aligned start is between 1 and the interval (no subtraction wraps) and puts the two timers in step |
| Alignment.AlignedStartCoincides | Huawei_LiteOS/kernel/base/core/los_swtmr.c:224-302 | From an aligned start on, every expiry of the longer timer coincides with one of the shorter until a call names one of them |
| Alignment.UnalignedStart | Huawei_LiteOS/kernel/base/core/los_swtmr.c:209-222 | With alignment off, and for timers that must not be aligned, the countdown starts at the interval |
| Alignment.UnalignedFires | Huawei_LiteOS/kernel/base/core/los_swtmr.c:207-462 | With alignment off, or for a timer that must not be aligned: started with period p it fires at the ticks p, 2p, 3p, ... and at no other; a one-shot fires at tick p alone |
| Alignment.DivisorCutToZero | Huawei_LiteOS/kernel/base/core/los_swtmr.c:755-765 | In every pool with a free block an alignable timer of 10 * 2^24 ticks can be created, and its start then stores divisor 0 |
| Alignment.MarkedSlotShortensOneShot | Huawei_LiteOS/kernel/base/core/los_swtmr.c:744-785 | A pool in which the refused start of a deleted timer makes the next one-shot of 30 ticks in its slot start with countdown 25 |
| Alignment.ChoiceMeans | Huawei_LiteOS/kernel/base/core/los_swtmr.c:224-262 | An alignable timer whose interval is a multiple of ten joins the running alignable timer with the shortest multiple of its interval if there is one, else the one with the longest proper divisor if there is one, else none |
| Alignment.ChoiceElse | Huawei_LiteOS/kernel/base/core/los_swtmr.c:283-302 | Any other alignable timer joins a running alignable one of the same interval if and only if there is one |
| Alignment.CreatedTimerFires | Huawei_LiteOS/kernel/base/core/los_swtmr.c:207-735 | From creation to expiry: a timer created with an interval and a mode, not to be aligned, and started, fires at the multiples of its interval, or once after it, and at no other tick |
| Alignment.CountMeans | Huawei_LiteOS/kernel/base/core/los_swtmr.c:264-302 | The countdown of an aligned start is that of a partner with the same or a shorter interval, or with a longer one the only number of ticks within the interval that is in step with it |
| Swtmr.InsertedOk | Huawei_LiteOS/kernel/base/core/los_swtmr.c:304-340 | Linking a timer into the list of increments sets its countdown and leaves all others as they were |
| Swtmr.RemovedOk | Huawei_LiteOS/kernel/base/core/los_swtmr.c:384-399 | Unlinking a timer leaves all other countdowns as they were |
| Swtmr.DecHeadOk | Huawei_LiteOS/kernel/base/core/los_swtmr.c:452-462 | Decrementing the head alone takes one tick off every timer |
| Swtmr.Pool.constructor | Huawei_LiteOS/kernel/base/core/los_swtmr.c:147-198 | All blocks free, each with its slot number as ID |
| Swtmr.Pool.InsertSorted | Huawei_LiteOS/kernel/base/core/los_swtmr.c:304-340 | The insertion loop gives the timer exactly the countdown asked for |
| Swtmr.Pool.InsertBehind | Huawei_LiteOS/kernel/base/core/los_swtmr.c:271-276 | Insertion right behind the partner with count 0 gives both the same countdown |
| Swtmr.Pool.ClosestMultiples | Huawei_LiteOS/kernel/base/core/los_swtmr.c:236-262 | The loop finds the running timer with the smallest multiple and the one with the largest proper divisor of the interval, or reports that there is none |
| Swtmr.Pool.SwTmrStart | Huawei_LiteOS/kernel/base/core/los_swtmr.c:207-340 | The whole of osSwTmrStart: partner chosen as specified, countdown set, no other timer disturbed |
| Swtmr.Pool.SwtmrStop | Huawei_LiteOS/kernel/base/core/los_swtmr.c:368-404 | The timer, and only it, leaves the list and becomes idle |
| Swtmr.Pool.SwtmrDelete | Huawei_LiteOS/kernel/base/core/los_swtmr.c:349-359 | The block goes to the front of the free list with a cleared alignment word |
| Swtmr.Pool.TimeoutHandle | Huawei_LiteOS/kernel/base/core/los_swtmr.c:413-443 | The expiry loop terminates and fires, once each, exactly the timers at 0, in list order |
| Swtmr.Pool.SwtmrScan | Huawei_LiteOS/kernel/base/core/los_swtmr.c:452-462 | osSwtmrScan performs the modelled tick; the head count is above 0 between calls, so the decrement never wraps |
| Swtmr.Pool.TimeLeft | Huawei_LiteOS/kernel/base/core/los_swtmr.c:638-656 | The sum of the counts up to a timer is its countdown |
| Swtmr.Pool.SwtmrCreate | Huawei_LiteOS/kernel/base/core/los_swtmr.c:668-735 | Every error case in order; otherwise the first free block is set up |
| Swtmr.Pool.LosSwtmrStart | Huawei_LiteOS/kernel/base/core/los_swtmr.c:744-785 | Every result by state of the timer; a running timer is stopped and started again |
| Swtmr.Pool.LosSwtmrStop | Huawei_LiteOS/kernel/base/core/los_swtmr.c:794-820 | Every result by state of the timer |
| Swtmr.Pool.LosSwtmrTimeGet | Huawei_LiteOS/kernel/base/core/los_swtmr.c:822-865 | The countdown of a running timer, or the error its state calls for |
| Swtmr.Pool.LosSwtmrDelete | Huawei_LiteOS/kernel/base/core/los_swtmr.c:874-899 | A running timer is stopped first; a stale or unused handle changes nothing |
| Swtmr.Pool.NextTimeout | Huawei_LiteOS/kernel/base/core/los_swtmr.c:506-513 | The least countdown, or 0xFFFFFFFF when no timer runs |
| Swtmr.MarkedUnused | Huawei_LiteOS/kernel/base/core/los_swtmr.c:744-785 | Starting a deleted timer spoils the pool if and only if that timer was alignable (its word is marked before its state is looked at) |
| Swtmr.ModeAnswers | Huawei_LiteOS/kernel/base/core/los_swtmr.c:668-735 | Mode 0 is the self-deleting one-shot, 1 the periodic timer, 2 the one-shot that stays |
| MsgQueue.StepOk | Huawei_LiteOS/kernel/base/ipc/los_queue.c:276-357 | Every step keeps "messages = readable + readers granted but not resumed, free slots = writable + writers granted but not resumed, waiters only at counter 0", and no read finds an empty ring, no write a full one |
| MsgQueue.RunKeepsOk | Huawei_LiteOS/kernel/base/ipc/los_queue.c:276-357 | So it holds in every reachable state, for any queue length |
| MsgQueue.DeleteSeesGrants | Huawei_LiteOS/kernel/base/ipc/los_queue.c:660-688 | LOS_QueueDelete succeeds if and only if no task is on a wait list and no read or write grant is outstanding |
| MsgQueue.MessagesConserved | Huawei_LiteOS/kernel/base/ipc/los_queue.c:276-357 | Over any run, messages present at first plus messages written are the messages read plus those still there |
| MsgQueue.FirstInFirstOut | Huawei_LiteOS/kernel/base/ipc/los_queue.c:231-273 | Without writes at the head, messages are read in the order in which they were written |
| MsgQueue.StepMessages | Huawei_LiteOS/kernel/base/ipc/los_queue.c:231-273 | A write at the tail appends, one at the head prepends, a read removes the front; nothing else touches the messages |
| MsgQueue.ReadAnswers | Huawei_LiteOS/kernel/base/ipc/los_queue.c:276-357 | A read, field by field: if the counter is above 0 it returns the oldest message at once, whatever the timeout and the scheduler lock, and the slot goes to the longest waiting writer or to the other counter; otherwise it is refused without a timeout, refused under the lock, or joins the readers last |
| MsgQueue.WriteAnswers | Huawei_LiteOS/kernel/base/ipc/los_queue.c:276-357 | The same for a write at either end |
| MsgQueue.ResumeReadAnswers | Huawei_LiteOS/kernel/base/ipc/los_queue.c:320-352 | A woken reader gets the oldest message; its counter stays, its grant is used up, and a waiting writer is granted the slot |
| MsgQueue.ResumeWriteAnswers | Huawei_LiteOS/kernel/base/ipc/los_queue.c:320-352 | A woken writer stores its own message at its end; its counter stays |
| MsgQueue.DeleteAnswers | Huawei_LiteOS/kernel/base/ipc/los_queue.c:640-696 | Which code deletion returns, and that nothing changes unless it succeeds |
| MsgQueue.CheckAnswers | Huawei_LiteOS/kernel/base/ipc/los_queue.c:177-229 | Empty buffers are refused, and so is waiting in an interrupt, but not a call with no wait |
| Ring.Le32RoundTrip | Huawei_LiteOS/kernel/base/ipc/los_queue.c:262-272 | The four length bytes behind a message give back its length |
| Ring.SlotsApart | Huawei_LiteOS/kernel/base/ipc/los_queue.c:231-273 | The bytes of different slots never overlap |
| Ring.AppendOk | Huawei_LiteOS/kernel/base/ipc/los_queue.c:250-272 | Filling the slot at the tail leaves every unread message as it was and appends the new one |
| Ring.PrependOk | Huawei_LiteOS/kernel/base/ipc/los_queue.c:245-272 | Filling the slot in front of the head does the same at the other end |
| Ring.RemoveOk | Huawei_LiteOS/kernel/base/ipc/los_queue.c:240-267 | Moving the head drops exactly the first message |
| Ring.QueueCb.FillSlot | Huawei_LiteOS/kernel/base/ipc/los_queue.c:260-272 | Payload and length go into one slot; no byte outside it is written |
| Ring.QueueCb.ReadSlot | Huawei_LiteOS/kernel/base/ipc/los_queue.c:260-267 | Reading a slot returns exactly the bytes and the length written to it |
| Ring.QueueCb.BufferOperate | Huawei_LiteOS/kernel/base/ipc/los_queue.c:231-273 | On bytes, positions and wrap-around, the three operations are those of the deque |
| Ring.QueueCb.Operate | Huawei_LiteOS/kernel/base/ipc/los_queue.c:276-357 | osQueueOperate up to its return or blocking point: every result code, counters, wait lists and ring |
| Ring.QueueCb.ResumeReader | Huawei_LiteOS/kernel/base/ipc/los_queue.c:320-352 | A woken reader takes the front message without touching the counter it waited on |
| Ring.QueueCb.ResumeWriter | Huawei_LiteOS/kernel/base/ipc/los_queue.c:320-352 | A woken writer stores its message without touching the counter it waited on |
| Ring.QueueCb.QueueDelete | Huawei_LiteOS/kernel/base/ipc/los_queue.c:640-696 | For an ID within range: not created, still waited for, or with a granted task under way is refused, in this order; success frees the queue |
| Ring.QueueCb.QueueCreate | Huawei_LiteOS/kernel/base/ipc/los_queue.c:110-175 | The errors for lengths and sizes of 0 and for a size too big; otherwise, a block and memory being at hand, an empty queue with all slots writable |
| Mail.BlocksConserved | Huawei_LiteOS/kernel/base/ipc/los_queue.c:509-631 | Over any run every mail block is in exactly one place: free, with a caller, or on its way to a woken task |
| Mail.FreeServesFirst | Huawei_LiteOS/kernel/base/ipc/los_queue.c:602-626 | A free with a task waiting always has a block for it, and the longest waiter gets it |
| Mail.StepOk | Huawei_LiteOS/kernel/base/ipc/los_queue.c:509-631 | No task waits for a block while one is free |
| Mail.MailCb.QueueMailAlloc | Huawei_LiteOS/kernel/base/ipc/los_queue.c:509-573 | osQueueMailAlloc up to its return or blocking point |
| Mail.MailCb.QueueMailFree | Huawei_LiteOS/kernel/base/ipc/los_queue.c:583-631 | osQueueMailFree: the block goes back, then is allocated again for the longest waiter |
| Mail.AllocAnswers | Huawei_LiteOS/kernel/base/ipc/los_queue.c:509-573 | An allocation gets the first free block whatever the timeout; otherwise null, or it joins the waiters last |
| Mail.FreeAnswers | Huawei_LiteOS/kernel/base/ipc/los_queue.c:583-631 | A freed block goes to the longest waiter or to the front of the pool |
| Mutex.PendOk | Huawei_LiteOS/kernel/base/ipc/los_mux.c:186-252 | Pend keeps mutual exclusion: waiters only while the count is above 0, the owner never among them, nobody waiting twice |
| Mutex.PostOk | Huawei_LiteOS/kernel/base/ipc/los_mux.c:281-335 | Post keeps it |
| Mutex.ExpireOk | Huawei_LiteOS/kernel/base/ipc/los_mux.c:252-262 | A timeout keeps it |
| Mutex.PostMeans | Huawei_LiteOS/kernel/base/ipc/los_mux.c:297-329 | A non-owner's post changes nothing; the final release hands over to the longest waiter with count 1 and that task's own priority saved |
| Mutex.PendAnswers | Huawei_LiteOS/kernel/base/ipc/los_mux.c:186-252 | A pend, field by field: a free mutex is acquired with the caller's priority saved and an owned one counted up whatever the timeout and the lock; with another owner the call is refused without a timeout or under the lock, and otherwise joins the waiters last and gives the owner the better of the two priorities |
| Mutex.PostAnswers | Huawei_LiteOS/kernel/base/ipc/los_mux.c:281-335 | A post, field by field: only the owner's counts; the last one restores the saved priority and hands over to the first waiter, with its own priority saved, or frees the mutex |
| Mutex.HandleAnswers | Huawei_LiteOS/kernel/base/ipc/los_mux.c:100-176 | A mutex not created answers with an error and changes nothing; deletion succeeds exactly while it is not held; creation sets up a free mutex without waiters |
| LockCount.CountIsPendsLessPosts | Huawei_LiteOS/kernel/base/ipc/los_mux.c:212-308 | While a task holds a mutex, the count is its successful pends less its posts since any earlier point of that tenure |
| LockCount.TenureBegins | Huawei_LiteOS/kernel/base/ipc/los_mux.c:212-329 | A tenure begins with count 1, by taking a free mutex or by hand-over to the longest waiter |
| LockCount.TenureEnds | Huawei_LiteOS/kernel/base/ipc/los_mux.c:297-329 | It ends only by the owner's post with count 1 |
| Inheritance.StepOk | Huawei_LiteOS/kernel/base/ipc/los_mux.c:186-335 | Every step keeps the record of holdings true, for tasks holding any number of mutexes: they are those whose control blocks name the task as owner, and its priority is the best of the one it was last put at (by acquiring its first mutex or by its latest release) and those of the tasks that blocked on its mutexes since, taken when they blocked |
| Inheritance.PriorityRestored | Huawei_LiteOS/kernel/base/ipc/los_mux.c:186-335 | Over any run, a task whose first-acquired mutex is always its last released has its original priority whenever it holds no mutex |
| Inheritance.LastReleaseRestores | Huawei_LiteOS/kernel/base/ipc/los_mux.c:304-313 | The last release restores the remembered priority if and only if the mutex was acquired at that priority |
| Inheritance.BoostOutlives | Huawei_LiteOS/kernel/base/ipc/los_mux.c:304-329 | A run that releases in another order and leaves a task boosted with no mutex held |
| Inheritance.OnlyHoldersChange | Huawei_LiteOS/kernel/base/ipc/los_mux.c:245-250 | No mutex call changes the priority of a task that holds no mutex |
| Inheritance.RunKeepsTrack | Huawei_LiteOS/kernel/base/ipc/los_mux.c:186-335 | The record of holdings, and with it the priority of every task that holds mutexes, is right in every state of every run |
| MuxTable.Table.MuxCreate | Huawei_LiteOS/kernel/base/ipc/los_mux.c:100-133 | The first unused control block, or failure when there is none |
| MuxTable.Table.MuxDelete | Huawei_LiteOS/kernel/base/ipc/los_mux.c:142-176 | Refused while held or waited for |
| MuxTable.Table.MuxPend | Huawei_LiteOS/kernel/base/ipc/los_mux.c:186-252 | LOS_MuxPend up to its return or blocking point, with the boost of the owner |
| MuxTable.Table.MuxPost | Huawei_LiteOS/kernel/base/ipc/los_mux.c:281-327 | LOS_MuxPost with restored priority and hand-over |
| Event.NoLostWakeUp | Huawei_LiteOS/kernel/base/ipc/los_event.c:59-239 | In no reachable state does a task wait for a condition that holds |
| Event.WriteTestExact | Huawei_LiteOS/kernel/base/ipc/los_event.c:188-202 | Where no waiter was satisfied before, the test against the newly written bits wakes exactly the tasks for which a poll of the whole word would succeed |
| Event.WriteTestNeedsInvariant | Huawei_LiteOS/kernel/base/ipc/los_event.c:188-202 | Without that the test misses a task |
| Event.StepOk | Huawei_LiteOS/kernel/base/ipc/los_event.c:59-239 | Reads, resumed reads, polls, writes, clears and timeouts all keep "no waiter is satisfied" |
| Event.PollMeans | Huawei_LiteOS/kernel/base/ipc/los_event.c:59-87 | A poll succeeds if and only if the condition holds, and only ever takes bits away |
| Event.PollBits | Huawei_LiteOS/kernel/base/ipc/los_event.c:59-87 | It returns set bits of the mask, never a value with the error bit |
| Event.WokenReadSucceeds | Huawei_LiteOS/kernel/base/ipc/los_event.c:122-157 | A task woken by a write gets its bits when it runs if none of the bits it asked for is cleared in between; `EventReads.WokenReadReturns` has the exact condition |
| Event.WokenReadMayReturnNothing | Huawei_LiteOS/kernel/base/ipc/los_event.c:142-157 | A run in which two readers are woken, the first clears the bit, and the second read returns 0 without a timeout |
| Event.EventCb.EventPoll | Huawei_LiteOS/kernel/base/ipc/los_event.c:59-87 | LOS_EventPoll on the word of the group |
| Event.EventCb.EventRead | Huawei_LiteOS/kernel/base/ipc/los_event.c:89-144 | LOS_EventRead up to its return or blocking point, every error case in order |
| Event.EventCb.ResumeReader | Huawei_LiteOS/kernel/base/ipc/los_event.c:154-156 | The second poll of a woken reader |
| Event.EventCb.EventWrite | Huawei_LiteOS/kernel/base/ipc/los_event.c:166-213 | The loop that unlinks tasks while walking the list wakes exactly the satisfied ones, in order, and keeps the others in order |
| Event.EventCb.EventClear | Huawei_LiteOS/kernel/base/ipc/los_event.c:226-239 | Clear keeps only the given bits |
| Event.PollAnswers | Huawei_LiteOS/kernel/base/ipc/los_event.c:59-87 | A poll with a proper mode returns the bits of the mask that are set if its condition holds, else 0, and in clear mode takes exactly those bits away |
| Event.FlagsAnswer | Huawei_LiteOS/kernel/base/ipc/los_event.c:89-121 | A read accepts exactly the modes any and all, each with or without clearing |
| Event.ReadAnswers | Huawei_LiteOS/kernel/base/ipc/los_event.c:89-144 | A read, field by field: the errors in order; then the bits of the mask that are set, at once, whatever the timeout and the lock, if its condition holds; otherwise 0 without a timeout, refused under the lock, or last among the waiters |
| Event.ResumeAnswers | Huawei_LiteOS/kernel/base/ipc/los_event.c:154-156 | The second poll returns the bits set at that time if the condition still holds, else 0 |
| Event.WriteAnswers | Huawei_LiteOS/kernel/base/ipc/los_event.c:166-213 | A write adds its bits to the word and wakes exactly the waiters whose condition then holds; only the error bit is refused |
| Semaphore.TokensConserved | Huawei_LiteOS/kernel/base/ipc/los_sem.c:216-337 | Over any run: initial count + successful posts = takes and grants + current count, the count never exceeds the maximum, waiters imply count 0 |
| Semaphore.OverflowWithWaiters | Huawei_LiteOS/kernel/base/ipc/los_sem.c:297-337 | With waiters present a post reports overflow if and only if the maximum is 0, which neither create call uses |
| Semaphore.ServedInOrder | Huawei_LiteOS/kernel/base/ipc/los_sem.c:297-337 | Over any run, those served followed by those still waiting are those who came, in order, less some whose wait timed out: nobody overtakes anybody |
| Semaphore.SemCb.SemCreate | Huawei_LiteOS/kernel/base/ipc/los_sem.c:102-141 | Refused above the maximum; otherwise, a block being at hand, the given count and no waiters |
| Semaphore.SemCb.SemPend | Huawei_LiteOS/kernel/base/ipc/los_sem.c:216-273 | LOS_SemPend on a handle within range, up to its return or blocking point: the other error cases in order |
| Semaphore.SemCb.SemPost | Huawei_LiteOS/kernel/base/ipc/los_sem.c:297-337 | LOS_SemPost on a handle within range: the longest waiter is woken, or the count goes up, or the overflow is reported |
| Semaphore.SemCb.SemDelete | Huawei_LiteOS/kernel/base/ipc/los_sem.c:174-206 | For a handle within range: refused while a task waits |
| Semaphore.PendAnswers | Huawei_LiteOS/kernel/base/ipc/los_sem.c:216-273 | A pend, field by field: a token that is there is taken whatever the timeout, in an interrupt and under the lock; otherwise the refusals in order, or last among the waiters |
| Semaphore.PostAnswers | Huawei_LiteOS/kernel/base/ipc/los_sem.c:297-337 | A post, field by field: below the maximum it always counts, for the first waiter or for the count; nothing changes exactly at the maximum or when not created |
| TimeSlice.EndsOnTime | Huawei_LiteOS/kernel/base/core/los_timeslice.c:70-86 | The 16-bit comparison for equality succeeds on the last tick of the slice and on no other, however often the tick count has wrapped; a timeout of 0 makes the slice 65536 ticks |
| TimeSlice.RotatesEveryPeriod | Huawei_LiteOS/kernel/base/core/los_timeslice.c:70-86 | With several ready tasks at the top priority and nothing else going on, the ready list turns by one exactly once per period, counted from any point at which the slice on record is not that of the running task |
| TimeSlice.FullRound | Huawei_LiteOS/kernel/base/core/los_timeslice.c:70-86 | After as many periods as tasks the list is in its first order again |
| TimeSlice.YieldRotates | Huawei_LiteOS/kernel/base/core/los_task.c:1280-1310 | The head goes to the end and the next task runs |
| TimeSlice.PeriodIs | Huawei_LiteOS/kernel/base/core/los_timeslice.c:70-86 | A slice lasts for the configured number of ticks, and 65536 for 0 |
| Clock.Ticker.TimesliceCheck | Huawei_LiteOS/kernel/base/core/los_timeslice.c:70-86 | osTimesliceCheck on the task manager |
| Clock.Ticker.TickHandler | Huawei_LiteOS/kernel/base/core/los_tick.c:94-120 | One tick: slice check, task scan, timer scan, each exactly once |
| Clock.Ticker.TickHandlerLoop | Huawei_LiteOS/kernel/base/core/los_tick.c:64-84 | n such ticks |
| Clock.NothingExpires | Huawei_LiteOS/kernel/base/core/los_tick.c:64-84 | Ticks that every countdown outlasts release no task and fire no timer, and bring each countdown down by their number |
| Clock.SleepIsExact | Huawei_LiteOS/kernel/extended/tickless/los_tickless.c:65-139 | A sleep of n > 1 ticks replays n-1 ticks that release and fire nothing; if it was not cut short, something expires on the very tick that ends it |
| Clock.Ticker.SleepTicksGet | Huawei_LiteOS/kernel/extended/tickless/los_tickless.c:65-77 | The least countdown of all tasks and timers, and 0 if and only if no task is on the wheel |
| Clock.Ticker.TicklessStart | Huawei_LiteOS/kernel/extended/tickless/los_tickless.c:114-139 | The sleep is that minimum, cut to what the counter can time, and is only taken when above 1 |
| Clock.Ticker.EndSleep | Huawei_LiteOS/kernel/extended/tickless/los_tickless.c:79-112 | The interrupt that ends a sleep of n ticks runs exactly n ticks and clears the sleep |
| Clock.Ticker.Sleep | Huawei_LiteOS/kernel/extended/tickless/los_tickless.c:65-139 | A whole sleep lasts for the least countdown, cut to what the counter can time, and there is none for a single tick; nothing expires before its last tick, so nothing expires late |
| Clock.TickIsQuiet | Huawei_LiteOS/kernel/base/core/los_tick.c:94-120 | A tick counts one, and without released tasks is the tick that the round-robin theorems study |
| Clock.RoundRobin | Huawei_LiteOS/kernel/base/core/los_timeslice.c:70-86 | On the running clock, whatever timers fire: over ticks that release no task the top ready list turns by one exactly once per period |
| SemOnTasks.StepRefines | Huawei_LiteOS/kernel/base/ipc/los_sem.c:216-337 | In the running system every pend and post (from a task or an interrupt, blocking or not) is the semaphore step on the real wait list, and every other call, wake-up or tick only takes waiters out |
| SemOnTasks.TokensConserved | Huawei_LiteOS/kernel/base/ipc/los_sem.c:216-337 | Tokens are conserved over any interleaving of the semaphore with all other kernel calls and ticks, and no task waits in the kernel list while a token is left |
| SemOnTasks.PendAnswers | Huawei_LiteOS/kernel/base/ipc/los_sem.c:216-273 | The same pend on the kernel's own list, with the timeout of a waiting caller on the wheel |
| SemOnTasks.PostAnswers | Huawei_LiteOS/kernel/base/ipc/los_sem.c:297-337 | The same post on the kernel's own list: the first waiter leaves it and waits no more, and the best ready task runs |
| WaitLists.MinusPlaces | Huawei_LiteOS/kernel/base/core/los_task.c:252-291 | What a tick takes out of a wait list can be taken out one waiter at a time, as the models of the IPC objects do |
| WaitLists.ForeignOnlyDrops | Huawei_LiteOS/kernel/base/core/los_task.c:827-1352 | A step of another object, another task call or a tick can only take members out of a wait list |
| WaitLists.ForeignKeepsWaiting | Huawei_LiteOS/kernel/base/core/los_task.c:827-1352 | Those it leaves in the list still wait as they did |
| MuxOnTasks.StepRefinesMutex | Huawei_LiteOS/kernel/base/ipc/los_mux.c:186-335 | In the running system every pend and post acts on the real priorities, ready lists and wait lists as the mutex model says, and every other step only takes waiters out and changes no priority unless it is a call to set one |
| MuxOnTasks.OpPrios | Huawei_LiteOS/kernel/base/core/los_task.c:827-1352 | No kernel step but the setting of a priority and the creation of a task changes any priority |
| MuxRuns.PriorityRestored | Huawei_LiteOS/kernel/base/ipc/los_mux.c:186-335 | Over any run of the whole system: a task whose first-acquired mutex is always its last released, and whose priority no other call sets, has the priority in its control block that it started with whenever it owns no held mutex |
| QueueOnTasks.StepRefines | Huawei_LiteOS/kernel/base/ipc/los_queue.c:276-357 | In the running system every call (from a task or an interrupt, blocking or not), resumption and deletion acts on the kernel's wait lists as the queue protocol says, and every other step only takes waiters out |
| QueueOnTasks.CountersTellTheTruth | Huawei_LiteOS/kernel/base/ipc/los_queue.c:276-357 | In every state the running system reaches: messages = readable + readers woken but not resumed, free slots = writable + writers woken but not resumed, and a task sits in a kernel wait list only while its counter is 0 |
| QueueOnTasks.ResumesOnLiveQueue | Huawei_LiteOS/kernel/base/ipc/los_queue.c:320-339 | A woken task resumes on a queue that is in use and finds the message or slot it was woken for |
| QueueOnTasks.NoWaitAlwaysAllowed | Huawei_LiteOS/kernel/base/ipc/los_queue.c:276-357 | A write with no wait is possible in every state and from anywhere, interrupts included: it never blocks, stores the message if a slot is free and else changes nothing |
| QueueOnTasks.ReadAnswers | Huawei_LiteOS/kernel/base/ipc/los_queue.c:276-357 | The same read on the kernel's own lists: a waiting writer leaves its list and waits no more and the best ready task runs; a reader that has to wait is last in its list with its timeout on the wheel |
| QueueOnTasks.WriteAnswers | Huawei_LiteOS/kernel/base/ipc/los_queue.c:276-357 | The same write on the kernel's own lists |
| EventOnTasks.WakeAllList | Huawei_LiteOS/kernel/base/ipc/los_event.c:188-202 | Waking several tasks one after another takes exactly those out of the wait list and keeps the order of the others |
| EventOnTasks.StepRefines | Huawei_LiteOS/kernel/base/ipc/los_event.c:89-239 | In the running system reads, writes that wake many tasks, clears and resumed reads act on the kernel's wait list as the event model says |
| EventOnTasks.NoLostWakeUp | Huawei_LiteOS/kernel/base/ipc/los_event.c:89-239 | In every state the running system reaches, no task sits in the wait list while a poll with its mask and mode would succeed |
| EventOnTasks.ReadAnswers | Huawei_LiteOS/kernel/base/ipc/los_event.c:89-144 | The same read on the kernel's own list: a caller that has to wait is last in it with its timeout on the wheel |
| EventOnTasks.WriteAnswers | Huawei_LiteOS/kernel/base/ipc/los_event.c:166-213 | A write on the kernel's own list: exactly the satisfied tasks leave it and wait no more, and if the right task was running the right task runs afterwards |
| Nesting.OneMutexHeld | Huawei_LiteOS/kernel/base/ipc/los_mux.c:186-335 | In every reachable state a task that holds one mutex has the promised priority (the best of the saved one and those of the tasks that blocked on it) if and only if the priority it was last put at is what that mutex promised then, or a task at least as good as both has blocked since |
| Nesting.ReleaseToOne | Huawei_LiteOS/kernel/base/ipc/los_mux.c:304-329 | A release that leaves one mutex keeps the promise if and only if the priority saved in the released mutex equals what the other one promises, which is known before the call |
| Nesting.LoneTenure | Huawei_LiteOS/kernel/base/ipc/los_mux.c:186-335 | Over any run: a task that held nothing, acquires a mutex and holds no other has the promised priority all along |
| Nesting.AfterNesting | Huawei_LiteOS/kernel/base/ipc/los_mux.c:186-335 | Over any run: after letting go of another mutex, and as long as it holds one alone, a task has the promised priority if and only if the priority saved in the released mutex was the promised one, or a task at least as good as both has blocked since |
| Nesting.NestedLock | Huawei_LiteOS/kernel/base/ipc/los_mux.c:212-313 | Over any run: a lock nested in a tenure brings the task back to the priority it had, which is still the promised one if and only if no better task blocked on the outer mutex meanwhile |
| Nesting.BoostLost | Huawei_LiteOS/kernel/base/ipc/los_mux.c:304-313 | A run of properly nested locks that ends with the boost lost: the task holds a mutex at priority 10 while a task of priority 5 waits for it |
| Nesting.StepMoves | Huawei_LiteOS/kernel/base/ipc/los_mux.c:186-335 | What any one step does to a task: mutexes it keeps carry on; a mutex taken saves its priority; one let go of puts it back to what was saved |
| NestingRuns.LoneTenure | Huawei_LiteOS/kernel/base/ipc/los_mux.c:186-335 | The same for the priority in the control block, over any run of the whole system, with the priorities lent read off the calls that block |
| NestingRuns.AfterNesting | Huawei_LiteOS/kernel/base/ipc/los_mux.c:186-335 | The exact condition after nesting, for the priority in the control block over any run of the whole system |
| NestingRuns.NestedLock | Huawei_LiteOS/kernel/base/ipc/los_mux.c:212-313 | The exact condition for properly nested locks, for the priority in the control block over any run of the whole system: no better task blocked on the outer mutex meanwhile |
| MuxPreemption.StillHeadsBest | Huawei_LiteOS/kernel/base/ipc/los_mux.c:304-335 | After a release without waiters the caller is still the task that should run if and only if its priority does not change or no other task is ready at the saved priority or better |
| MuxPreemption.ReadyTaskPassedOver | Huawei_LiteOS/kernel/base/ipc/los_mux.c:304-335 | A state in which the post leaves its caller running at priority 10 while a task of priority 7 is ready and the scheduler is unlocked |
| EventReads.SpoilsExactly | Huawei_LiteOS/kernel/base/ipc/los_event.c:59-239 | The condition of a satisfied reader ends with a step if and only if that is a clearing poll of a satisfied mask, or a clear, that takes all the bits an OR reader has, or one bit of an AND reader |
| EventReads.SatisfiesExactly | Huawei_LiteOS/kernel/base/ipc/los_event.c:166-202 | A condition that does not hold comes to hold with a step if and only if that is a write of any bit of an OR reader, or of all the bits an AND reader lacks |
| EventReads.WokenReadReturns | Huawei_LiteOS/kernel/base/ipc/los_event.c:142-157 | Over any run, the second poll of a woken task returns bits if and only if every step since the wake-up that ended its condition was made good by a later write |
| EventReads.WokenReadExact | Huawei_LiteOS/kernel/base/ipc/los_event.c:142-157 | Without later writes of its bits, it returns bits if and only if no step in between spoils its condition |
| MuxAnswers.PendAnswers | Huawei_LiteOS/kernel/base/ipc/los_mux.c:186-252 | The same pend on control blocks, task priorities and the kernel's lists: a caller that waits is last in the list with its timeout on the wheel, only the owner's priority can change, and the best ready task runs |
| MuxAnswers.PostAnswers | Huawei_LiteOS/kernel/base/ipc/los_mux.c:281-335 | The same post: only the caller's priority changes, the new owner leaves the kernel's list and waits no more |
| MuxAnswers.OwnerKeepsPlace | Huawei_LiteOS/kernel/base/ipc/los_mux.c:245-252 | A waiter no better than the owner leaves the owner in its place in the ready list |
| MuxAnswers.QuietRelease | Huawei_LiteOS/kernel/base/ipc/los_mux.c:304-335 | A release without waiters at the saved priority leaves the kernel as it is |
| TaskAnswers.PriSetAnswers | Huawei_LiteOS/kernel/base/core/los_task.c:1149-1207 | The errors in order; any other created task gets the priority, ready or not, and nothing else of it changes; a ready one is last in the list of its new priority and the scheduler runs, any other keeps its place |
| TaskAnswers.WokenAtNewPriority | Huawei_LiteOS/kernel/base/core/los_task.c:1149-1207 | A waiting task whose priority is set is put last in the ready list of that priority when it is woken |
| TaskAnswers.SuspendAnswers | Huawei_LiteOS/kernel/base/core/los_task.c:932-981 | Which code suspending returns, in order; any other task, ready or blocked, is suspended and keeps its waits; the running one gives up the processor |
| TaskAnswers.ResumeAnswers | Huawei_LiteOS/kernel/base/core/los_task.c:876-923 | Which code resuming returns, in order; a task not blocked joins its ready list last, a blocked one only loses the mark |
| TaskAnswers.YieldAnswers | Huawei_LiteOS/kernel/base/core/los_task.c:1280-1310 | Yielding succeeds exactly when another task of the same priority is ready |
| TaskAnswers.DelayAnswers | Huawei_LiteOS/kernel/base/core/los_task.c:1076-1106 | A delay is refused under the lock, is a yield for 0 ticks, and otherwise puts the caller on the wheel and runs the best ready task |
| TaskAnswers.LockAnswers | Huawei_LiteOS/kernel/base/core/los_task.c:1319-1352 | The lock nests: only the unlock that reaches 0 schedules, an unlock at 0 does nothing, every other just counts |
| TaskAnswers.UnlockUndoesLock | Huawei_LiteOS/kernel/base/core/los_task.c:1319-1352 | Inside a lock, locking and unlocking again restores the state exactly, unless the 16-bit count wraps |
| TaskAnswers.ClearTimeoutAnswers | Huawei_LiteOS/kernel/base/ipc/los_sem.c:275-281 | A woken call clears its TIMEOUT bit and nothing else |
| TaskAnswers.DeleteAnswers | Huawei_LiteOS/kernel/base/core/los_task.c:990-1067 | Which code deletion returns, in order, and that nothing changes unless it succeeds |
| TaskAnswers.CreateAnswers | Huawei_LiteOS/kernel/base/core/los_task.c:713-867 | Which code creation returns, in order; otherwise the first free block is a ready task, last in its list, and the scheduler runs |
| TaskAnswers.TickReadies | Huawei_LiteOS/kernel/base/core/los_task.c:238-297 | A tick appends to each ready list exactly the released tasks of that priority that are not suspended, in the order in which the wheel gives them up |
| TaskAnswers.InitialAnswers | Huawei_LiteOS/kernel/base/core/los_task.c:491-568 | At the start the idle task runs at the lowest priority, all other control blocks are free, in order, and nobody waits |
| Priorities.WokenAtSetPriority | Huawei_LiteOS/kernel/base/core/los_task.c:1149-1207 | Over any run: the priority set decides which ready list a later wake-up puts the task in, whatever happens in between, unless its priority is set again or it is deleted |
| RightTask.StepKeepsRight | Huawei_LiteOS/kernel/base/core/los_task.c:827-1352 | Every call and tick that finds the right task running leaves the right task running, whether its code calls the scheduler or not |
| RightTask.RightTaskRuns | Huawei_LiteOS/kernel/base/core/los_task.c:827-1352 | Over any run: from a call of the scheduler on, the running task heads the best ready list in every unlocked state, up to the next bare wake-up or change of priority; no call to the scheduler is missing |

## Left out

- CMSIS-RTOS wrappers, examples, demo tasks, board start-up, drivers, lwIP options: translation of arguments, hardware and I/O.
- Context switch, stacks, watermarks, task information and CPU usage: assembly, raw memory or diagnostics.
- Heap, slab and membox allocators: `LOS_MemAlloc` is a flag that says whether it succeeds, a mail pool is a finite set of blocks.
- State before the scheduler starts: the model begins when the idle task runs, with `g_bTaskScheduled` set.
- The delay of a context switch until interrupts are enabled again: the model switches tasks at once at a scheduling point.
- Mail blocks as steps of the kernel state: unlike the other objects they rest on `Kernel.WaitListSteps` alone.
- Pointers and aliasing outside `DlList` and `PriQueue`: the task manager, the timers and the control blocks of the IPC objects hold their lists as sequences.
- Free lists of queue and semaphore control blocks and their handles: the classes for these objects are one control block each.
- The limit of 31 bits on the product of queue length and node size, and queue memory that cannot be had.
- Null pointers and queue handles out of range in `LOS_QueueRead`, `LOS_QueueWrite` and their variants; the other parameter checks are in `QueueOnTasks`.
- Pointer-sized queue messages of `LOS_QueueRead` and `LOS_QueueWrite`: a message is the bytes copied.
- `LOS_EventDestory`: it clears the list pointers without a check and returns no memory.
- osSwtimerInsert, and the versions of osSwTmrGetNextTimeout and osSwTmrAdjust for alignment: surgery on the list around a sleep.
- SysTick cycle arithmetic and the branch of osUpdateKernelTickCount for an early interrupt: only whole ticks are modelled.
- `OS_TASK_STATUS_EVENT` and the other status bits that no modelled call sets.
- Clock.Ticker.TickHandler: reports which timers fired; the post of each to the handler queue is an attempt whose result the kernel ignores, and is a queue write of its own.
- Clock.Ticker.Sleep: for builds with timer alignment off; does not say what happens on the last tick of a sleep cut short at exactly the longest time the counter can do, because that depends on whether it was cut.
- Mail.MailCb.QueueMailAlloc: leaves out the checks of the handle and for a null pool, and does not model a call with the scheduler locked, which the code does not refuse, nor several pools on one queue; a task would be woken with a block of the wrong pool.
- Mail.MailCb.QueueMailFree: covers blocks that a caller holds; what LOS_MemboxFree makes of any other pointer is up to the allocator.
- MuxTable.Table.MuxPend: the 16-bit lock count is unbounded here; 65536 nested acquisitions would wrap it.
- MuxTable.Table.MuxCreate: keeps the previous owner of a free control block, where the code stores a null pointer that nothing reads while the count is 0.
- Swtmr.Pool.LosSwtmrStart: with alignment on, excludes an alignable timer whose interval, a multiple of ten, is 10 * 2^24 ticks or more; `Timers.PreparedOk` shows that its alignment word would be wrong.
- Event.EventCb.EventWrite: wait lists are sequences; the walk over the links is modelled as a walk by position.
- Tasks.Block: takes osTaskWait and LOS_Schedule as one step; an interrupt between these two locked regions is not modelled.
- Kernel.RunKeepsInv: its runs do not delete the running task, nor a task whose wait has timed out and that has not run since.
- TaskCalls.DeleteDoes: not for the running task, nor for a task whose wait has timed out and that has not run since.
- TaskManager.Manager.TaskDelete: not for the running task, which the code marks and deletes at the next switch, nor for a task whose wait has timed out and that has not run since.
- TaskManager.Manager.TaskDelay: not called by the idle task, nor by a task that still carries TIMEOUT from an earlier wait.
- TaskManager.Manager.TaskYield: does not model the check that the ID of the running task is in range, which it always is.
- TaskManager.Manager.TaskCreate: leaves out the checks for an ID out of range, null pointers, an empty name, a missing entry and the stack size, and takes the allocation of the stack and the setting up of the task as one step.
- Ring.QueueCb.QueueDelete: leaves out the check of the range of the queue ID.
- Ring.QueueCb.QueueCreate: leaves out the errors for a null pointer, for no memory and for no free control block.
- Semaphore.SemCb.SemCreate: leaves out the errors for a null pointer and for no free control block.
- Semaphore.SemCb.SemPend: leaves out the check of the range of the handle.
- Semaphore.SemCb.SemPost: leaves out the check of the range of the handle.
- Semaphore.SemCb.SemDelete: leaves out the check of the range of the handle.
- Clock.Ticker.SleepTicksGet: for builds with timer alignment off.
- Clock.Ticker.TicklessStart: for builds with timer alignment off.
- Clock.Ticker.EndSleep: for a sleep ended by the tick interrupt, not by an earlier one.
- NestingRuns.LoneTenure: like the two theorems beside it, for a task whose priority LOS_TaskPriSet does not set, while no holder of a mutex has its priority set either.
