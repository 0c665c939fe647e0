# A verified model of the kernel under the Flipper Zero firmware

This project models the FreeRTOS kernel core in `lib/FreeRTOS-Kernel` and the heap allocator in
`furi/core/memmgr_heap.c`, and proves what they are for: that wrapped tick words behave as unbounded
time, that every task is on exactly one list, that no tick, wake-up or message is lost, that priority
inheritance holds over whole runs, and that the heap's free list is a canonical form of its free
memory.

One configuration is modelled: 32-bit ticks, 8-byte alignment, 32 priorities, indefinite blocking by
the suspended list, mutexes on, queue sets off, preemption on, and the generic search for the next
task. Each critical section, and each region with the scheduler suspended, is one step unless
interrupts can act inside it; where they can (queue locks, held-back ticks, stream buffers) their steps
come between.

Each component has a functional model, on which the properties are proved, and a class that has the
source's variables and loops and is proved equal to that model method by method; only `Mutexes` has no
class of its own.

| files | component |
|---|---|
| `Ticks`, `Lists`, `ListNodes` | tick words; sorted lists and rings; the circular doubly linked list |
| `Delays`, `Timeouts`, `FuriDelay` | the delayed lists; timeout records; delays to an absolute tick |
| `SchedState`, `Scheduler`, `SchedulerRuns`, `SchedulerEffects`, `SleepRuns`, `RoundRobin`, `Accounting`, `Kernel` | the scheduler |
| `Timers`, `TimerRuns`, `DaemonRuns`, `TimerCatchUp`, `TimerTask` | the timer daemon |
| `FreeLists`, `HeapState`, `HeapRuns`, `Words`, `ArenaMemory`, `HeapArena` | the heap |
| `QueueRing`, `QueueLock`, `QueueBooks`, `Mutexes`, `MutexEffects` | queues and mutexes |
| `EventGroups`, `EventEffects`, `StreamBuffers`, `StreamTransfers`, `StreamStorage` | event groups, stream and message buffers |

`dafny verify dfyconfig.toml` checks the whole project.

Where the code does not do what its interface suggests, the model follows the code and the exact
condition is proved:

- `xTaskCheckForTimeOut` misses a timeout when two wraps have passed, the counter is below where it was
  entered and the wrapped difference is below the wait (`Timeouts.CheckIsRight`); such a wait is shown.
- A block of zero ticks at the last count before a wrap is not released by the next tick and is still
  in the current list at the exchange (`Delays.ZeroSleep`). `Timeouts.DelayUntilSleeps` shows that
  periodic delays never ask for one, and `DaemonRuns.WaitsAtLeastATick` that the timer daemon does not.
- The queue's 8-bit lock count goes round at the 128th send of one lock when assertions are compiled
  out. `QueueLock.SendsInOneLock` says for any number of sends exactly when a wake-up is then lost, and
  `QueueLock.WakeUpLostBeyondTheBound` shows one.
- `furi_delay_until_tick` takes a tick half a turn ahead or more for one already past
  (`Timeouts.DelayUntilTickMeans`).

## Model

| member | source | states |
|---|---|---|
| Lists.InsertKeepsSorted | lib/FreeRTOS-Kernel/list.c:117-185 | Insertion keeps a list in value order, and the head is the newcomer only if it is below the old head |
| Lists.InsertLandsAt | lib/FreeRTOS-Kernel/list.c:117-185 | A newcomer lands behind every item not above it: ties go last |
| Lists.InsertAddsOne | lib/FreeRTOS-Kernel/list.c:117-185 | Insertion adds the newcomer and loses nobody |
| Lists.InsertEndUpcoming | lib/FreeRTOS-Kernel/list.c:87-114 | A newcomer to a ready list is selected after everyone except the item the index rests on |
| Lists.RemoveUpcoming | lib/FreeRTOS-Kernel/list.c:188-214 | Removing an item takes it out of the order of selection and moves nothing else, wherever the index is |
| Lists.AdvanceRotates | lib/FreeRTOS-Kernel/include/list.h:281-292 | Selecting takes the head of the order of selection and sends it to the back |
| Lists.OncePerRound | lib/FreeRTOS-Kernel/include/list.h:281-292 | While one item waits its turn, each item ahead of it is selected at most once, and once selected is behind it |
| Lists.SelectedExactlyOnceBetween | lib/FreeRTOS-Kernel/tasks.c:136-151 | Between two consecutive selections of a task every other task that stays in its list is selected exactly once, whatever is inserted or removed, at the moving index included |
| ListNodes.KernelList.constructor | lib/FreeRTOS-Kernel/list.c:50-72 | The linked list starts as an empty ring closed by its end marker |
| ListNodes.KernelList.InsertEnd | lib/FreeRTOS-Kernel/list.c:87-114 | Four pointer writes link the item given just before the index, into this list and among the same nodes, as the ring says |
| ListNodes.KernelList.Scan | lib/FreeRTOS-Kernel/list.c:117-173 | The insertion scan stops, because of the end marker's largest value and the special case for that value, at the last item not above the newcomer |
| ListNodes.KernelList.Insert | lib/FreeRTOS-Kernel/list.c:117-185 | The item given is linked in value order, ties last, into this list and among the same nodes, with the links still one circle both ways |
| ListNodes.KernelList.Remove | lib/FreeRTOS-Kernel/list.c:188-214 | Exactly the item is cut out of the nodes and left on no list; an index on it steps back; the remaining length is returned |
| ListNodes.KernelList.OwnerOfNextEntry | lib/FreeRTOS-Kernel/include/list.h:281-292 | Stepping the index skips the end marker and reports the owner selected |
| ListNodes.RemoveUndoesInsertion | lib/FreeRTOS-Kernel/list.c:188-214 | Removing what was just inserted, wherever it was, restores the ring, index included |
| ListNodes.RemoveUndoesInsertEnd | lib/FreeRTOS-Kernel/list.c:87-214 | So does it after an insertion before the index |
| ListNodes.CutUndoesSpliced | lib/FreeRTOS-Kernel/list.c:188-214 | Cutting out the node just linked in restores the sequence of nodes |
| ListNodes.InsertAndRemove | lib/FreeRTOS-Kernel/list.c:87-214 | In place, removal undoes either insertion: the same nodes, linked both ways, the same index, and the item on no list |
| Ticks.WordArithmetic | lib/FreeRTOS-Kernel/tasks.c:5322-5333 | The tick operations are arithmetic modulo 2^32 |
| Delays.EmptyAtWrap | lib/FreeRTOS-Kernel/tasks.c:201-213 | The current delayed list is empty whenever the lists are exchanged, as the macro asserts |
| Delays.TickRefines | lib/FreeRTOS-Kernel/tasks.c:2706-2816 | One tick releases exactly the sleepers whose absolute deadline it reaches, in order of deadline and then of arrival, and keeps the rest, wrap or no wrap, cached unblock time or not |
| Delays.SleepRefines | lib/FreeRTOS-Kernel/tasks.c:5285-5395 | Blocking files the absolute deadline now + n, in whichever list the wrapped word lands |
| Delays.SleepKeepsInv | lib/FreeRTOS-Kernel/tasks.c:5285-5395 | Blocking for at least a tick keeps both lists in order, every deadline ahead and the cached time no later than the first |
| Delays.CancelRefines | lib/FreeRTOS-Kernel/tasks.c:3153-3218 | Being woken by something else forgets that deadline and disturbs no other |
| Delays.WokenAtDeadline | lib/FreeRTOS-Kernel/tasks.c:2706-2816 | Over any steps that leave it alone a sleeper is released once, at its deadline |
| Delays.SleepsExactly | lib/FreeRTOS-Kernel/tasks.c:5285-5395 | A task that blocks for n ticks is released in exactly the tick that makes the count T + n, across any number of wraps |
| Delays.ZeroSleep | lib/FreeRTOS-Kernel/tasks.c:5285-5395 | Why callers must not block for zero ticks: it comes back with the next tick if and only if the count is not the last before a wrap; at that count it is still in the current list at the exchange, and goes to the overflow list |
| SleepRuns.TickReadies | lib/FreeRTOS-Kernel/tasks.c:2740-2813 | A tick makes ready exactly the tasks whose deadline it reaches |
| SleepRuns.BlockSleeps | lib/FreeRTOS-Kernel/tasks.c:5285-5395 | The running task that blocks for n ticks, waiting for an event or not, sleeps until now + n and is not ready |
| SleepRuns.ResumeIgnored | lib/FreeRTOS-Kernel/tasks.c:1838-1960 | A resume of a task that sleeps is ignored, from a task or from an interrupt |
| SleepRuns.EventOnTime | lib/FreeRTOS-Kernel/tasks.c:2190-2299 | Whatever one event does to others, a sleeper whose own event does not happen is asleep before its deadline and from it on ready and waiting for nothing, a resume that catches up with held-back ticks included |
| SleepRuns.ReadyAtDeadline | lib/FreeRTOS-Kernel/tasks.c:2706-2876 | In the whole scheduler a sleeper, waiting for an event that does not happen or for none, becomes ready with the first event that takes the count to its deadline and not before, and then waits for nothing |
| SleepRuns.BlockEndsOnTime | lib/FreeRTOS-Kernel/tasks.c:2706-2876 | So a block of n ticks, timed waits for queues, semaphores and event groups included, ends at exactly T + n in any run of the scheduler |
| Timeouts.TimeOutRecord.Check | lib/FreeRTOS-Kernel/tasks.c:3290-3352 | The in-place check of a timeout record computes the specified verdict |
| Timeouts.CheckIsRight | lib/FreeRTOS-Kernel/tasks.c:3290-3352 | The verdict is right if and only if the counter has not gone round twice and come back short of the entry with a wrapped difference below the wait |
| Timeouts.CheckWithinOneWrap | lib/FreeRTOS-Kernel/tasks.c:3290-3352 | Within a wrap the verdict is exact and the recorded instant plus the remaining ticks stays the same deadline |
| Timeouts.CheckFooledByTwoWraps | lib/FreeRTOS-Kernel/tasks.c:3290-3352 | A concrete wait that the check gets wrong after two wraps |
| Timeouts.PollingKeepsDeadline | lib/FreeRTOS-Kernel/tasks.c:3290-3352 | Repeated checks keep one absolute deadline: the first to report a timeout is the first made at or after it |
| Timeouts.DelayUntilExact | lib/FreeRTOS-Kernel/tasks.c:1239-1277 | The comparisons of wrapped words decide whether the absolute wake time is ahead |
| Timeouts.DelayUntilSleeps | lib/FreeRTOS-Kernel/tasks.c:1229-1309 | A periodic delay sleeps until exactly one increment after the previous wake time, or not at all |
| Timeouts.DelayUntilTickMeans | furi/core/kernel.c:110-135 | A delay to a named tick sleeps until that tick next shows, or reports that it came by or is not less than half a turn away |
| Timeouts.OccurrenceIsFirst | furi/core/kernel.c:110-135 | The instant the delay aims at is the first at which the counter shows the named tick |
| Timeouts.WakesOnNamedTick | furi/core/kernel.c:110-135 | A successful delay ends in the very tick that was named, the first time it shows |
| FuriDelay.TaskDelayUntil | lib/FreeRTOS-Kernel/tasks.c:1229-1309 | The in-place form, with the scheduler suspended around it |
| FuriDelay.DelayUntilNamedTick | furi/core/kernel.c:110-135 | The in-place form and the status it returns |
| FuriDelay.DelayedUntilMeans | lib/FreeRTOS-Kernel/tasks.c:1229-1309 | Suspending, blocking and resuming files the delay that the time-level model files, and does nothing when there is no delay |
| FuriDelay.PeriodicDelayInRun | lib/FreeRTOS-Kernel/tasks.c:1229-1309 | In any run of the scheduler a periodic delay made before its time is up ends exactly one increment after the previous wake time |
| FuriDelay.NamedTickInRun | furi/core/kernel.c:110-135 | In any run of the scheduler a delay to a named tick that has not come by ends in that very tick, the first time it shows |
| FuriDelay.NamedTickReached | furi/core/kernel.c:110-135 | On the kernel's own state, a delay to a tick less than half a turn ahead sleeps until that tick next shows, or does nothing if it came by between the reading of the counter and the delay |
| SchedState.UnlinkKeeps | lib/FreeRTOS-Kernel/list.c:188-214 | Taking a task off its list leaves it on none, and everything else in order |
| SchedState.AddReadyKeeps | lib/FreeRTOS-Kernel/tasks.c:221-225 | Making a task ready puts it on the list of its priority and raises the top bound if need be |
| SchedState.SetPriorityKeeps | lib/FreeRTOS-Kernel/tasks.c:4094-4098 | Changing the priority of a task that is not ready disturbs no list |
| Scheduler.CreateKeeps | lib/FreeRTOS-Kernel/tasks.c:1041-1120 | A new task is on its ready list and counted, and everything else stays in order |
| Scheduler.DeleteKeeps | lib/FreeRTOS-Kernel/tasks.c:1127-1222 | Deleting a task keeps the partition; one that deletes itself stays counted, on the termination list |
| Scheduler.CleanUpKeeps | lib/FreeRTOS-Kernel/tasks.c:3671-3696 | The idle task frees everything on the termination list and nothing else |
| Scheduler.SuspendTaskKeeps | lib/FreeRTOS-Kernel/tasks.c:1686-1785 | Suspending a task from any state keeps the partition |
| Scheduler.ResumeTaskKeeps | lib/FreeRTOS-Kernel/tasks.c:1838-1884 | Resuming keeps it, and acts only on tasks that were really suspended |
| Scheduler.ResumeFromISRKeeps | lib/FreeRTOS-Kernel/tasks.c:1892-1960 | Resuming from an interrupt keeps it, parking the task while the scheduler is suspended |
| Scheduler.BlockKeeps | lib/FreeRTOS-Kernel/tasks.c:5285-5395 | Blocking, for a time or for ever, on an event or not, keeps it |
| Scheduler.RemoveFromEventListKeeps | lib/FreeRTOS-Kernel/tasks.c:3153-3218 | Waking a task that waits for an event keeps it, whether or not the scheduler is suspended |
| Scheduler.RemoveFromUnorderedKeeps | lib/FreeRTOS-Kernel/tasks.c:3221-3267 | So does the form used by event groups |
| Scheduler.RunningTickKeeps | lib/FreeRTOS-Kernel/tasks.c:2706-2816 | A tick moves the tasks that are due, and only those, each from one list to one list |
| Scheduler.ResumeAllKeeps | lib/FreeRTOS-Kernel/tasks.c:2190-2299 | Resuming moves every parked task, processes every tick held back, and keeps the count of ticks |
| Scheduler.HighestInUseIsHighest | lib/FreeRTOS-Kernel/tasks.c:136-151 | The downward search ends on the highest list in use |
| Scheduler.SwitchPicksHighest | lib/FreeRTOS-Kernel/tasks.c:2991-3064 | A context switch picks a task of maximal priority among all ready tasks, the one whose turn it is |
| Scheduler.ReprioritiseKeeps | lib/FreeRTOS-Kernel/tasks.c:4074-4098 | A ready task whose priority changes moves to the list of its new priority |
| Scheduler.DisinheritKeeps | lib/FreeRTOS-Kernel/tasks.c:4137-4214 | Giving a mutex back keeps the lists in order |
| SchedulerRuns.IdleStaysReady | lib/FreeRTOS-Kernel/tasks.c:3671-3696 | The idle task stays ready unless asked to block, suspend or delete itself |
| SchedulerRuns.EventKeeps | lib/FreeRTOS-Kernel/tasks.c:1041-1222 | Every event keeps every task on exactly one state list, ready tasks on the list of their priority, and the top bound |
| SchedulerRuns.RunKeeps | lib/FreeRTOS-Kernel/tasks.c:2106-2299 | Over every run the partition holds, and the ticks counted and held back are those that occurred |
| SchedulerRuns.Reachable | lib/FreeRTOS-Kernel/tasks.c:2706-2876 | The same from the start of the scheduler: count plus held-back ticks is the initial count plus the number of tick interrupts |
| SchedulerRuns.SwitchInRun | lib/FreeRTOS-Kernel/tasks.c:136-151 | In every reachable state the search for the next task ends, on a task no ready task outranks |
| SchedulerEffects.WakeMeans | lib/FreeRTOS-Kernel/tasks.c:3153-3218 | A task whose event happens waits for it no more and is ready at once, off the delayed and suspended lists, or, while the scheduler is suspended, parked behind those parked before; a switch is asked for if it outranks the running task |
| SchedulerEffects.WakeSpares | lib/FreeRTOS-Kernel/tasks.c:3153-3218 | Nobody else is moved, woken or delayed |
| SchedulerEffects.ParkedIsReadied | lib/FreeRTOS-Kernel/tasks.c:2190-2299 | Whoever is parked is ready after the outermost resume, and nobody is parked then |
| SchedulerEffects.WakeUnorderedMeans | lib/FreeRTOS-Kernel/tasks.c:3221-3267 | The event-group form makes the task ready at once |
| SchedulerEffects.WakeUnorderedSpares | lib/FreeRTOS-Kernel/tasks.c:3221-3267 | And moves nobody else |
| SchedulerEffects.SuspendMeans | lib/FreeRTOS-Kernel/tasks.c:1686-1785 | A suspended task is on the suspended list alone, waits for nothing, and a resume would find it suspended |
| SchedulerEffects.SuspendSpares | lib/FreeRTOS-Kernel/tasks.c:1686-1785 | Nobody else is moved |
| SchedulerEffects.ResumeMeans | lib/FreeRTOS-Kernel/tasks.c:1787-1884 | A resume makes ready exactly a task that is suspended, waits for nothing and has not been resumed; of any other it does nothing |
| SchedulerEffects.ResumeFromISRMeans | lib/FreeRTOS-Kernel/tasks.c:1892-1960 | From an interrupt likewise, parked while the scheduler is suspended, with the switch it asks for |
| SchedulerEffects.ResumeSpares | lib/FreeRTOS-Kernel/tasks.c:1838-1960 | Nobody else is moved |
| SchedulerEffects.CreateMeans | lib/FreeRTOS-Kernel/tasks.c:1041-1120 | A new task has the priority asked for as its own, holds no mutex, is ready and counted |
| SchedulerEffects.CreateSpares | lib/FreeRTOS-Kernel/tasks.c:1041-1120 | Creation moves nobody else |
| SchedulerEffects.DeleteMeans | lib/FreeRTOS-Kernel/tasks.c:1127-1222 | A deleted task is gone from every list and the count; one that deletes itself is on the termination list alone and still counted |
| SchedulerEffects.DeleteSpares | lib/FreeRTOS-Kernel/tasks.c:1127-1222 | Nobody else is moved |
| SchedulerEffects.CleanUpMeans | lib/FreeRTOS-Kernel/tasks.c:3671-3696 | The idle task frees exactly those that deleted themselves |
| SchedulerEffects.BlockForEverMeans | lib/FreeRTOS-Kernel/tasks.c:5285-5395 | A task that blocks for ever is on the suspended list alone, and looks suspended exactly if it waits for no event |
| SchedulerEffects.BlockSpares | lib/FreeRTOS-Kernel/tasks.c:5285-5395 | Blocking moves nobody else |
| SchedulerEffects.SwitchMeans | lib/FreeRTOS-Kernel/tasks.c:2991-3064 | While the scheduler is suspended a switch is only noted; a switch that is made settles what was noted |
| SchedulerEffects.CachedTimeMeans | lib/FreeRTOS-Kernel/tasks.c:3979-3997 | When the cached unblock time is read again, by a tick that looks at the list, a suspension, a deletion or a resume that moves parked tasks, it is exactly the first deadline |
| SchedulerEffects.TopMeans | lib/FreeRTOS-Kernel/tasks.c:136-151 | Making a task ready raises the top priority just as far as needed, and a switch lowers it to the priority selected |
| SchedulerEffects.InheritMeans | lib/FreeRTOS-Kernel/tasks.c:4047-4130 | The holder becomes exactly as urgent as the more urgent of itself and the running task, and stays ready if it was |
| SchedulerEffects.DisinheritMeans | lib/FreeRTOS-Kernel/tasks.c:4137-4214 | One mutex less is held; with the last one the task is at its own priority, and not before |
| SchedulerEffects.DisinheritAfterTimeoutMeans | lib/FreeRTOS-Kernel/tasks.c:4217-4316 | The holder of one mutex is left at the greater of its own priority and the highest waiter's; the holder of several keeps its priority |
| SchedulerEffects.CountMutexMeans | lib/FreeRTOS-Kernel/tasks.c:4662-4672 | The running task holds one mutex more; nothing else about any task changes |
| SchedulerEffects.HeldBack | lib/FreeRTOS-Kernel/tasks.c:2856-2870 | A tick while the scheduler is suspended is held back and asks for no switch |
| SchedulerEffects.TickAsksForSwitch | lib/FreeRTOS-Kernel/tasks.c:2766-2855 | A tick asks for a switch exactly if it readies someone at least as urgent as the running task, or another task shares its priority, or one was asked for |
| SchedulerEffects.DrainAsksForSwitch | lib/FreeRTOS-Kernel/tasks.c:2211-2243 | Moving the parked tasks asks for a switch exactly if one of them is at least as urgent as the running task, or one was asked for |
| SchedulerEffects.CatchUpAsksForSwitch | lib/FreeRTOS-Kernel/tasks.c:2245-2274 | A held-back tick asks for the switch the tick itself would have asked for |
| SchedulerEffects.ResumeUndoesSuspend | lib/FreeRTOS-Kernel/tasks.c:2106-2299 | A resume undoes a suspension in which nothing happened |
| RoundRobin.EventOrder | lib/FreeRTOS-Kernel/list.c:87-214 | Whatever else an event does, it keeps the order in which two tasks that stay on their ready list are due to be selected |
| RoundRobin.SwitchRing | lib/FreeRTOS-Kernel/tasks.c:136-151 | A switch selects the task whose turn it is on a list, or leaves that list as it is |
| RoundRobin.ChosenOncePerRound | lib/FreeRTOS-Kernel/tasks.c:2991-3064 | In any run of the scheduler, while one task waits its turn each one ahead of it is selected at most once, and once selected is behind it |
| RoundRobin.SelectedOnceBetween | lib/FreeRTOS-Kernel/tasks.c:2991-3064 | In any run from the start of the scheduler, between two consecutive selections of a task every other task that stays on its ready list is selected exactly once |
| Accounting.CountIsTotalLength | lib/FreeRTOS-Kernel/tasks.c:1163-1199 | The task count is the sum of the lengths of all the lists, self-deleted tasks included until cleaned up |
| Accounting.SuspensionLosesNoTick | lib/FreeRTOS-Kernel/tasks.c:2190-2299 | k ticks while suspended and then the outermost resume leave the same count and the same lists in the same order as k ticks while running, when nothing was parked; only the pending request to switch may differ |
| Kernel.Tasks.IncrementTick | lib/FreeRTOS-Kernel/tasks.c:2706-2876 | The in-place tick, with the loop that pops due tasks one by one, computes the specified state and the request to switch |
| Kernel.Tasks.UnblockDue | lib/FreeRTOS-Kernel/tasks.c:2736-2813 | The loop releases exactly the leading due tasks and leaves the next unblock time at the first that is not |
| Kernel.Tasks.DrainPendingReady | lib/FreeRTOS-Kernel/tasks.c:2211-2243 | The loop over the pending-ready list readies every parked task, first come first served |
| Kernel.Tasks.ProcessPendedTicks | lib/FreeRTOS-Kernel/tasks.c:2245-2274 | The loop over held-back ticks processes each as a tick |
| Kernel.Tasks.ResumeAll | lib/FreeRTOS-Kernel/tasks.c:2190-2299 | The in-place resume, and whether it yields |
| Kernel.Tasks.SelectHighestPriorityTask | lib/FreeRTOS-Kernel/tasks.c:136-151 | The search loop ends and selects the task whose turn it is in the highest list in use |
| Kernel.Tasks.SwitchContext | lib/FreeRTOS-Kernel/tasks.c:2991-3064 | The in-place context switch; while the scheduler is suspended it only notes the request |
| Kernel.Tasks.Delete | lib/FreeRTOS-Kernel/tasks.c:1127-1222 | The in-place deletion |
| Kernel.Tasks.CheckTasksWaitingTermination | lib/FreeRTOS-Kernel/tasks.c:3671-3696 | The clean-up loop |
| Kernel.Tasks.Suspend | lib/FreeRTOS-Kernel/tasks.c:1686-1785 | The in-place suspension of one task |
| Kernel.Tasks.Resume | lib/FreeRTOS-Kernel/tasks.c:1838-1884 | The in-place resumption of one task |
| Kernel.Tasks.AddCurrentTaskToDelayedList | lib/FreeRTOS-Kernel/tasks.c:5285-5395 | The in-place blocking of the running task |
| Kernel.Tasks.RemoveFromEventList | lib/FreeRTOS-Kernel/tasks.c:3153-3218 | The in-place waking of a task, and whether it outranks the running one |
| Kernel.Tasks.PlaceOnEventList | lib/FreeRTOS-Kernel/tasks.c:3067-3089 | Blocking on an event in place |
| Kernel.Tasks.RemoveFromUnorderedEventList | lib/FreeRTOS-Kernel/tasks.c:3221-3267 | The form used by event groups in place |
| Kernel.Tasks.ResumeFromISR | lib/FreeRTOS-Kernel/tasks.c:1892-1960 | Resumption from an interrupt in place, and whether it asks for a switch |
| Kernel.Tasks.AddNewTaskToReadyList | lib/FreeRTOS-Kernel/tasks.c:1041-1120 | Creation in place |
| Kernel.Tasks.IncrementMutexHeldCount | lib/FreeRTOS-Kernel/tasks.c:4662-4672 | Counting a mutex taken in place |
| Kernel.Tasks.PriorityInherit | lib/FreeRTOS-Kernel/tasks.c:4047-4130 | The in-place inheritance, and whether a priority has been inherited |
| Kernel.Tasks.PriorityDisinherit | lib/FreeRTOS-Kernel/tasks.c:4137-4214 | The in-place disinheritance, and whether a switch is required |
| Kernel.Tasks.PriorityDisinheritAfterTimeout | lib/FreeRTOS-Kernel/tasks.c:4217-4316 | The in-place disinheritance after a waiter timed out |
| Timers.ProcessedNow | lib/FreeRTOS-Kernel/timers.c:711-752 | The four cases of the insertion test come to one question: has a whole period gone by since the command |
| Timers.InsertRefines | lib/FreeRTOS-Kernel/timers.c:711-752 | A timer whose next expiry is ahead goes to the list of the epoch it falls in |
| Timers.ReloadRefines | lib/FreeRTOS-Kernel/timers.c:517-533 | The reload loop calls for exactly the expiries that have gone by and leaves the timer filed for the first that has not |
| Timers.ReloadAtWrap | lib/FreeRTOS-Kernel/timers.c:903-925 | Reloads against the largest time only ever enter the overflow list, so the exchange loop ends |
| Timers.ExpiriesAre | lib/FreeRTOS-Kernel/timers.c:517-533 | In closed form: one call per whole period gone by, and the next expiry is the first after now |
| TimerRuns.ProcessTimes | lib/FreeRTOS-Kernel/timers.c:536-560 | Processing the head calls its timer for what is due, re-arms it if it reloads, and touches no other |
| TimerRuns.DrainTimes | lib/FreeRTOS-Kernel/timers.c:903-925 | The exchange calls each timer for exactly its expiries of the old epoch, once each |
| TimerRuns.SampleTimes | lib/FreeRTOS-Kernel/timers.c:688-708 | Looking at the clock exchanges the lists exactly at a wrap, and re-dates nothing |
| TimerRuns.PollTimes | lib/FreeRTOS-Kernel/timers.c:599-658 | One round of the daemon catches each timer up with some time up to now, or leaves it alone |
| TimerRuns.StartTimes | lib/FreeRTOS-Kernel/timers.c:816-845 | A start is filing one period after the command and catching up with now |
| TimerRuns.StartCatchesUp | lib/FreeRTOS-Kernel/timers.c:816-845 | A start sent at c and processed at n makes floor((n - c) / p) calls and arms the first c + k p after n |
| TimerRuns.StopTimes | lib/FreeRTOS-Kernel/timers.c:847-851 | A stopped timer is on no list and is not called; others are untouched |
| TimerRuns.ChangeTimes | lib/FreeRTOS-Kernel/timers.c:853-866 | A change of period takes effect from now and is never found to have expired already |
| TimerRuns.EventKeeps | lib/FreeRTOS-Kernel/timers.c:755-900 | Every event keeps the lists in order, each holding exactly the active timers once, and moves other timers only by catching up |
| TimerRuns.RunOnSchedule | lib/FreeRTOS-Kernel/timers.c:536-560 | Over any run that leaves it alone an auto-reload timer is called for successive expiries one period apart, none missed, none twice, none early |
| TimerRuns.RunOnce | lib/FreeRTOS-Kernel/timers.c:536-560 | Over any run that leaves it alone a one-shot timer is called once at most, for the expiry it is armed for, and once called is armed no more |
| TimerRuns.SleepsUntilEarliest | lib/FreeRTOS-Kernel/timers.c:661-685 | The reported next expiry is the earliest of all, and with an empty current list the daemon wakes no later than the wrap |
| DaemonRuns.StartedOnSchedule | lib/FreeRTOS-Kernel/timers.c:536-845 | From a daemon with nothing active, after any run: an auto-reload timer started by a command sent at c is called for c + p, c + 2p, ... in turn, none missed, none twice, none early, over any run that then leaves it alone |
| DaemonRuns.StartedOnce | lib/FreeRTOS-Kernel/timers.c:536-845 | A one-shot timer started by a command sent at c is called once at most, for c + p, and until then is armed for that time |
| DaemonRuns.EventKeepsNear | lib/FreeRTOS-Kernel/timers.c:755-900 | No timer is ever armed for a whole turn or more after the daemon last looked at the clock |
| DaemonRuns.WaitsAtLeastATick | lib/FreeRTOS-Kernel/timers.c:599-658 | In every reachable state with a timer armed and none expired the daemon waits for at least one tick and not past the earliest expiry |
| DaemonRuns.CommandMeans | lib/FreeRTOS-Kernel/timers.c:788-898 | Which commands leave a timer active or not, with which period and mode |
| TimerCatchUp.HeadCatchesUp | lib/FreeRTOS-Kernel/timers.c:617-620 | A round that finds the first timer expired catches that timer up with now and leaves every other alone |
| TimerCatchUp.WrapCatchesUp | lib/FreeRTOS-Kernel/timers.c:688-708 | A round at a wrap catches every timer up with the end of the old epoch |
| TimerCatchUp.BlocksOnlyWhenCaughtUp | lib/FreeRTOS-Kernel/timers.c:599-658 | A daemon that blocks has nothing armed for now or earlier |
| TimerCatchUp.EveryTimerCaughtUp | lib/FreeRTOS-Kernel/timers.c:562-658 | Rounds go on until the daemon blocks, which they do because each leaves fewer timers due; then every timer has been caught up with now |
| TimerCatchUp.StartedCalledExactly | lib/FreeRTOS-Kernel/timers.c:517-560 | From a daemon with nothing active: whenever it has caught up with now, an auto-reload timer started at c and left alone has been called exactly floor((now - c) / p) times, for c + p, c + 2p, ..., and is armed for the next |
| TimerCatchUp.StartedCalledOnce | lib/FreeRTOS-Kernel/timers.c:536-560 | A one-shot timer has then been called exactly once if its time has come, and not at all before |
| TimerTask.CommandsAreRun | lib/FreeRTOS-Kernel/timers.c:755-900 | Working off the command queue is a run of the daemon, so all that is proved of runs holds of it |
| TimerTask.TimerTask.InsertTimerInActiveList | lib/FreeRTOS-Kernel/timers.c:711-752 | The in-place insertion and its answer |
| TimerTask.TimerTask.ReloadTimer | lib/FreeRTOS-Kernel/timers.c:517-533 | The reload loop in place; it ends because the backlog shrinks by a period each time |
| TimerTask.TimerTask.ProcessExpiredTimer | lib/FreeRTOS-Kernel/timers.c:536-560 | The in-place processing of the head timer |
| TimerTask.TimerTask.SwitchLists | lib/FreeRTOS-Kernel/timers.c:903-925 | The exchange loop in place; it ends because the current list only shrinks |
| TimerTask.TimerTask.SampleTimeNow | lib/FreeRTOS-Kernel/timers.c:688-708 | The in-place sample and whether the lists were exchanged |
| TimerTask.TimerTask.ProcessTimerOrBlock | lib/FreeRTOS-Kernel/timers.c:599-658 | One round in place; when it blocks, for how long, and when without limit |
| TimerTask.TimerTask.ProcessCommand | lib/FreeRTOS-Kernel/timers.c:788-898 | Start, reset, stop, change of period and deletion in place |
| TimerTask.TimerTask.ProcessReceivedCommands | lib/FreeRTOS-Kernel/timers.c:755-900 | The loop over the command queue processes every command in order |
| FreeLists.CanonicalIsUnique | furi/core/memmgr_heap.c:605-650 | The free list is determined by the set of free addresses |
| FreeLists.InsertCovers | furi/core/memmgr_heap.c:605-650 | Returning a block frees exactly its addresses, whatever it merges with |
| FreeLists.InsertCanonical | furi/core/memmgr_heap.c:605-650 | Returning a block keeps the list in address order with no two blocks touching |
| FreeLists.TakeCovers | furi/core/memmgr_heap.c:407-432 | Taking a block, split or whole, takes exactly the addresses handed out |
| FreeLists.TakeCanonical | furi/core/memmgr_heap.c:407-432 | Taking a block keeps the list canonical |
| HeapState.RoundedMeans | furi/core/memmgr_heap.c:366-387 | The rounded size leaves room for the header, wastes less than the alignment, and cannot wrap |
| HeapState.MallocIsFirstFit | furi/core/memmgr_heap.c:366-456 | A request succeeds if and only if it is not zero, has the top bit clear and some free block holds its rounded size; the lowest such block is used; the counter never refuses what fits |
| HeapState.MallocKeeps | furi/core/memmgr_heap.c:338-482 | A request keeps free and allocated blocks a partition of the arena, aligned, with exact counters |
| HeapState.FreeKeeps | furi/core/memmgr_heap.c:485-536 | So does a free |
| HeapRuns.UsedDeterminesFree | furi/core/memmgr_heap.c:605-650 | With the same blocks handed out the free list is the same, block for block |
| HeapRuns.FreeUndoesMalloc | furi/core/memmgr_heap.c:338-536 | A request followed by the free of its block restores the list and the counter exactly |
| HeapRuns.FreeingOrderIsIrrelevant | furi/core/memmgr_heap.c:485-536 | Freeing the same blocks in any order gives the same heap |
| HeapRuns.InitKeeps | furi/core/memmgr_heap.c:559-602 | The initial heap is aligned, within the linker's bounds and one block |
| HeapRuns.BackToOneBlock | furi/core/memmgr_heap.c:559-602 | Any run that has freed everything is back to the single initial block |
| HeapRuns.RunKeeps | furi/core/memmgr_heap.c:434-438 | Over every run the invariant holds and the low-water mark is the least number of free bytes there has been |
| HeapRuns.MallocReturns | furi/core/memmgr_heap.c:401-443 | A successful request returns an aligned pointer behind the header of a block that was not in use and holds all the bytes asked for |
| HeapRuns.MallocTakes | furi/core/memmgr_heap.c:390-443 | The block comes from the lowest free one that is large enough, whole if no more than 16 bytes would be left over and otherwise cut to the rounded size |
| HeapRuns.Tiled | furi/core/memmgr_heap.c:559-650 | Every address of the arena is in exactly one block, free or allocated |
| ArenaMemory.InsertLinked | furi/core/memmgr_heap.c:605-650 | Once the headers are as the pointer writes leave them, the list in memory is the list with the block inserted and merged |
| ArenaMemory.UnlinkLinked | furi/core/memmgr_heap.c:407-409 | One pointer write takes a block out of the list in memory |
| HeapArena.HeapArena.constructor | furi/core/memmgr_heap.c:559-602 | Setting up the headers of the first block and the end marker gives the initial heap |
| HeapArena.HeapArena.InsertBlockIntoFreeList | furi/core/memmgr_heap.c:605-650 | The in-place insertion with its search loop; only headers of free memory are written |
| HeapArena.HeapArena.FindFit | furi/core/memmgr_heap.c:390-397 | The search loop ends at the first block that is large enough, or at the end marker |
| HeapArena.HeapArena.Take | furi/core/memmgr_heap.c:403-443 | Unlinking, splitting, accounting and marking in place |
| HeapArena.HeapArena.Malloc | furi/core/memmgr_heap.c:338-482 | The whole request in place: the specified heap and pointer, the requested bytes zero, nothing written that was not free |
| HeapArena.HeapArena.Free | furi/core/memmgr_heap.c:485-536 | The whole free in place: the specified heap, nothing written but free memory and the block itself |
| HeapArena.HeapArena.GetMaxFreeBlock | furi/core/memmgr_heap.c:221-236 | The loop returns the size of the largest free block, 0 if there is none |
| HeapArena.OthersUntouchedByMalloc | furi/core/memmgr_heap.c:338-482 | Every word of every block handed out survives any request |
| HeapArena.OthersUntouchedByFree | furi/core/memmgr_heap.c:485-536 | And the freeing of any other block |
| QueueRing.BackRefines | lib/FreeRTOS-Kernel/queue.c:2188-2201 | A send to the back appends |
| QueueRing.FrontRefines | lib/FreeRTOS-Kernel/queue.c:2202-2215 | A send to the front prepends |
| QueueRing.ServeRefines | lib/FreeRTOS-Kernel/queue.c:2160-2261 | Every request of the ring, from task or interrupt, is that request of a bounded double-ended queue, full and empty cases included |
| QueueRing.RunRefines | lib/FreeRTOS-Kernel/queue.c:2160-2261 | Over any sequence of requests the ring gives the answers of the double-ended queue |
| QueueRing.QueueStorage.Reset | lib/FreeRTOS-Kernel/queue.c:266-286 | A reset queue is empty and in order |
| QueueRing.QueueStorage.CopyDataToQueue | lib/FreeRTOS-Kernel/queue.c:2160-2240 | Copying in, with its wrap tests, in place |
| QueueRing.QueueStorage.CopyDataFromQueue | lib/FreeRTOS-Kernel/queue.c:2243-2261 | Copying out, with its wrap test, in place |
| QueueRing.QueueStorage.TrySend | lib/FreeRTOS-Kernel/queue.c:1017-1181 | A send that does not wait, in place |
| QueueRing.QueueStorage.TryReceive | lib/FreeRTOS-Kernel/queue.c:1865-1957 | A receive that does not wait, in place |
| QueueRing.QueueStorage.TryPeek | lib/FreeRTOS-Kernel/queue.c:1748-1759 | A peek puts the read position back |
| QueueLock.StepKeeps | lib/FreeRTOS-Kernel/queue.c:251-263 | Every critical section of tasks and interrupts keeps what is owed to waiters |
| QueueLock.NoLostWakeUp | lib/FreeRTOS-Kernel/queue.c:2264-2381 | Whenever the queue is unlocked and a receiver waits there are no more messages than receivers on their way; and the mirror for senders |
| QueueLock.QuietMeansEmpty | lib/FreeRTOS-Kernel/queue.c:1352-1492 | With nobody on the way a receiver waits only at an empty queue and a sender only at a full one |
| QueueLock.InterruptAtTheBound | lib/FreeRTOS-Kernel/queue.c:1161-1168 | At the asserted bound: one more send leaves every message announced or owed if and only if the 8-bit count does not go round, nobody waits, or receivers enough are on their way; and the mirror for a receive |
| QueueLock.SendsInOneLock | lib/FreeRTOS-Kernel/queue.c:2264-2381 | Any number of interrupt sends during one lock, then the unlocking: no wake-up is lost if and only if the 8-bit count did not go round, or the sends that found it back at unlocked woke everybody, or receivers enough for all messages are on their way |
| QueueLock.ReceivesInOneLock | lib/FreeRTOS-Kernel/queue.c:2264-2381 | The same for interrupt receives and waiting senders |
| QueueLock.WakeUpLostExactly | lib/FreeRTOS-Kernel/queue.c:1161-1168 | With the queue empty and nobody on the way, n sends in one lock lose a wake-up if and only if they are more than 127 and more receivers wait than there are sends past the 255th |
| QueueLock.WakeUpLostBeyondTheBound | lib/FreeRTOS-Kernel/queue.c:1161-1168 | Without assertions 128 sends during one lock leave a receiver waiting in front of 128 messages |
| QueueBooks.PlacedMeans | lib/FreeRTOS-Kernel/queue.c:965-985 | A task that blocks is on its waiting list, at the place its priority gives it, with the others in order, and on no other list |
| QueueBooks.LookMeans | lib/FreeRTOS-Kernel/queue.c:972-1004 | The locker decides to wait exactly if it finds the queue full, or empty |
| QueueBooks.StepReceivers | lib/FreeRTOS-Kernel/queue.c:251-263 | Every step accounts for every receiver: on the list or on its way are those that were, with the one that blocks and without the one that looks again or times out |
| QueueBooks.StepSenders | lib/FreeRTOS-Kernel/queue.c:251-263 | And for every sender |
| QueueBooks.NobodyForgotten | lib/FreeRTOS-Kernel/queue.c:805-1013 | Over any run a task that has blocked is on its list or on its way, until it looks again or its wait times out |
| QueueBooks.MessagesConserved | lib/FreeRTOS-Kernel/queue.c:805-1492 | Over any run the messages in the queue are those there were and those posted, less those taken |
| QueueBooks.MostUrgentWoken | lib/FreeRTOS-Kernel/queue.c:880-935 | Posting or peeking wakes the most urgent receiver, and taking the most urgent sender, if there is one |
| QueueLock.LockedQueue.LockQueue | lib/FreeRTOS-Kernel/queue.c:251-263 | Locking in place |
| QueueLock.LockedQueue.UnlockTxPart | lib/FreeRTOS-Kernel/queue.c:2272-2350 | The first unlocking loop wakes one receiver per message posted, as far as there are any |
| QueueLock.LockedQueue.UnlockRxPart | lib/FreeRTOS-Kernel/queue.c:2352-2380 | The second wakes one sender per message removed |
| QueueLock.LockedQueue.ReceiveOrLeave | lib/FreeRTOS-Kernel/queue.c:1377-1424 | The first critical section of a receive: take a message and wake a sender, or leave the queue as it is |
| QueueLock.LockedQueue.SendOrLeave | lib/FreeRTOS-Kernel/queue.c:828-935 | The first critical section of a send: post a message and wake a receiver, or leave the queue as it is |
| QueueLock.LockedQueue.SendFromISR | lib/FreeRTOS-Kernel/queue.c:1017-1181 | A send from an interrupt wakes a receiver or, locked, counts |
| QueueLock.LockedQueue.ReceiveFromISR | lib/FreeRTOS-Kernel/queue.c:1865-1957 | A receive from an interrupt wakes a sender or, locked, counts |
| Mutexes.TakerIsUrgent | lib/FreeRTOS-Kernel/queue.c:1533-1554 | Whoever takes a free mutex is at least as urgent as all who wait for it |
| Mutexes.WaitedMutexOk | lib/FreeRTOS-Kernel/queue.c:1622-1646 | The priority lent to the holder is enough for everyone who waits, the newcomer included |
| Mutexes.GivenMutexOk | lib/FreeRTOS-Kernel/queue.c:2171-2187 | The woken head of the list is at least as urgent as those left on it |
| Mutexes.LoweredMutexOk | lib/FreeRTOS-Kernel/tasks.c:4217-4316 | After a waiter's timeout the priority left to the holder is enough for everyone who still waits |
| Mutexes.StepKeeps | lib/FreeRTOS-Kernel/tasks.c:4047-4316 | Every take, give, wait, timeout and retry keeps the books of every task and every mutex |
| Mutexes.InheritanceHolds | lib/FreeRTOS-Kernel/tasks.c:4047-4316 | In every state reached from one in which no mutex is held or waited for, a holder is at least as urgent as its base priority and all who wait for its mutex; a task holding nothing runs at its base priority; the count held is the number of mutexes naming the task |
| MutexEffects.ExpireMeans | lib/FreeRTOS-Kernel/tasks.c:4217-4316 | After a waiter's timeout the holder of just this mutex is exactly as urgent as the most urgent of its own priority and those of the tasks that still wait |
| MutexEffects.WaitMeans | lib/FreeRTOS-Kernel/queue.c:1622-1646 | The waiter is on the list and not ready, and the holder exactly as urgent as the more urgent of the two |
| MutexEffects.TakeMeans | lib/FreeRTOS-Kernel/queue.c:1533-1554 | The taker owns the mutex and holds one more |
| MutexEffects.GiveMeans | lib/FreeRTOS-Kernel/queue.c:2171-2187 | The mutex is free, its giver holds one less and with the last one is at its own priority, and the most urgent who waits is made ready |
| MutexEffects.TimeOutMeans | lib/FreeRTOS-Kernel/tasks.c:2740-2813 | A task whose wait times out is off the list and ready, and nobody else is touched |
| MutexEffects.TryInVainMeans | lib/FreeRTOS-Kernel/queue.c:1571-1590 | A woken task that finds the mutex taken again only stops being on its way |
| MutexEffects.NobodyForgotten | lib/FreeRTOS-Kernel/queue.c:1495-1711 | Over any run a task that waits for a mutex is on its list or on its way, until it tries again or its wait times out |
| Mutexes.SchedulerAgrees | lib/FreeRTOS-Kernel/tasks.c:4047-4316 | The scheduler-level inheritance operations change the task records as the mutex-level ones do |
| EventGroups.MatchIsCondition | lib/FreeRTOS-Kernel/event_groups.c:692-726 | The word kept in the event item is matched exactly when the wait condition holds |
| EventGroups.ReleasedExactly | lib/FreeRTOS-Kernel/event_groups.c:556-616 | A set releases exactly the waiters whose condition the old bits or those set meets, each with those bits |
| EventGroups.SetIgnoresOrder | lib/FreeRTOS-Kernel/event_groups.c:533-625 | The tasks woken and the bits left do not depend on the order of the waiters |
| EventGroups.ClearingSatisfiesNobody | lib/FreeRTOS-Kernel/event_groups.c:473-498 | Clearing bits can satisfy nobody |
| EventGroups.SyncKeeps | lib/FreeRTOS-Kernel/event_groups.c:194-314 | A rendezvous leaves nobody waiting for what is there |
| EventGroups.RunMissesNobody | lib/FreeRTOS-Kernel/event_groups.c:317-625 | In every reachable state no task on the waiting list has its condition met |
| EventGroups.NobodyMissedMeans | lib/FreeRTOS-Kernel/event_groups.c:317-470 | That is, no task waiting for any or all of some bits finds them set |
| EventGroups.ReleasedWaitIsMet | lib/FreeRTOS-Kernel/event_groups.c:421-464 | A task released by a set is told so by the value it is given, and the bits it returns meet its condition; the value it waited with never says so |
| EventEffects.SetLeavesOfWaits | lib/FreeRTOS-Kernel/event_groups.c:556-620 | A set leaves exactly the bits there were and the bits set, without those that a task it releases waited for and asked to have cleared |
| EventEffects.SetReleases | lib/FreeRTOS-Kernel/event_groups.c:556-616 | It releases exactly the waits that are met, first come first served, each with the bits that met it; the others wait on in order |
| EventEffects.WaitMeans | lib/FreeRTOS-Kernel/event_groups.c:339-406 | A wait that is met clears exactly what it asked to have cleared; one that is not leaves the bits alone and its task at the end of the list, if it blocks |
| EventEffects.SyncMeans | lib/FreeRTOS-Kernel/event_groups.c:216-255 | A rendezvous that finds all its bits leaves them clear; one that does not sets its own and waits for all |
| EventEffects.LateLookMeans | lib/FreeRTOS-Kernel/event_groups.c:425-462 | A task that timed out still clears what it finds met, and wakes nobody |
| EventEffects.ClearMeans | lib/FreeRTOS-Kernel/event_groups.c:473-498 | A clear removes exactly the bits named and wakes nobody |
| EventEffects.NobodyForgotten | lib/FreeRTOS-Kernel/event_groups.c:317-625 | Over any run a task that waits is on the list or has been released, until its wait times out |
| EventGroups.EventGroup.SetBits | lib/FreeRTOS-Kernel/event_groups.c:533-625 | The walk over the list in place, removing as it goes and clearing at the end |
| EventGroups.EventGroup.WaitBits | lib/FreeRTOS-Kernel/event_groups.c:317-406 | A wait in place, up to the point where it blocks |
| EventGroups.EventGroup.Sync | lib/FreeRTOS-Kernel/event_groups.c:194-255 | A rendezvous in place, up to the point where it blocks |
| EventGroups.EventGroup.LookAfterBlocking | lib/FreeRTOS-Kernel/event_groups.c:421-464 | What a task that blocked does when it runs again: return the bits it was given or, timed out, look once more and clear what it finds; a rendezvous likewise |
| EventGroups.EventGroup.ClearBits | lib/FreeRTOS-Kernel/event_groups.c:473-498 | Clearing in place, and the value before |
| StreamBuffers.SizesAddUp | lib/FreeRTOS-Kernel/stream_buffer.c:497-527 | The two size computations never go below zero and make up the length less one |
| StreamBuffers.UnreadUntouched | lib/FreeRTOS-Kernel/stream_buffer.c:1148-1191 | The writer never overwrites an unread byte |
| StreamBuffers.StepKeeps | lib/FreeRTOS-Kernel/stream_buffer.c:1148-1256 | What each byte copied and each store of head or tail, in any interleaving, does to the unread bytes |
| StreamBuffers.ReceivedIsPrefix | lib/FreeRTOS-Kernel/stream_buffer.c:1148-1256 | However writer and reader interleave, the bytes received are a prefix of the bytes sent |
| StreamBuffers.LengthRoundTrip | lib/FreeRTOS-Kernel/stream_buffer.c:724-771 | The stored length is read back |
| StreamBuffers.LengthRead | lib/FreeRTOS-Kernel/stream_buffer.c:975-1024 | The length a receive reads is that of the oldest unread message |
| StreamBuffers.ReceiveMeans | lib/FreeRTOS-Kernel/stream_buffer.c:975-1024 | A receive with too little room consumes nothing; any other goes on to read exactly the oldest message |
| StreamBuffers.TakeKeeps | lib/FreeRTOS-Kernel/stream_buffer.c:975-1024 | What is taken is the oldest message, whole |
| StreamBuffers.MessagesArriveInOrder | lib/FreeRTOS-Kernel/stream_buffer.c:724-1024 | From a new buffer on, however writer and reader interleave, messages delivered and messages queued are, in order, the messages published |
| StreamTransfers.WholeWrite | lib/FreeRTOS-Kernel/stream_buffer.c:1148-1191 | A write into enough room can be carried through, and then exactly its bytes are readable behind those that were |
| StreamTransfers.WholeRead | lib/FreeRTOS-Kernel/stream_buffer.c:1194-1256 | A read of bytes that are there can be carried through, and then exactly those, the oldest, have been taken |
| StreamStorage.MessageSendMeans | lib/FreeRTOS-Kernel/stream_buffer.c:724-771 | A message is appended whole if it is not empty and its length and bytes fit, or not at all |
| StreamStorage.MessageReceiveMeans | lib/FreeRTOS-Kernel/stream_buffer.c:975-1024 | A receive takes exactly the oldest message if the caller has room for it, and otherwise nothing |
| StreamStorage.StreamSendMeans | lib/FreeRTOS-Kernel/stream_buffer.c:724-771 | Of a stream as much is sent as there is data and room for |
| StreamStorage.StreamReceiveMeans | lib/FreeRTOS-Kernel/stream_buffer.c:975-1024 | And as much is received as there are bytes and room for, in order |
| StreamStorage.MessageRoundTrip | lib/FreeRTOS-Kernel/stream_buffer.c:724-1024 | A message sent is received whole if there is room for it, and otherwise stays |
| StreamStorage.StreamBuffer.GetSpacesAvailable | lib/FreeRTOS-Kernel/stream_buffer.c:497-527 | The room computed in place |
| StreamStorage.StreamBuffer.WriteBytesToBuffer | lib/FreeRTOS-Kernel/stream_buffer.c:1148-1191 | Copying in two pieces writes exactly the slots from the head on |
| StreamStorage.StreamBuffer.ReadBytesFromBuffer | lib/FreeRTOS-Kernel/stream_buffer.c:1194-1235 | Copying out in two pieces reads exactly the slots from the tail on |
| StreamStorage.StreamBuffer.WriteMessageToBuffer | lib/FreeRTOS-Kernel/stream_buffer.c:724-771 | A message is written whole or not at all, a stream as far as there is room; an empty message shows nothing |
| StreamStorage.StreamBuffer.ReadMessageFromBuffer | lib/FreeRTOS-Kernel/stream_buffer.c:975-1024 | A receive in place |
| StreamStorage.StreamBuffer.Send | lib/FreeRTOS-Kernel/stream_buffer.c:673-721 | A send that does not wait |
| StreamStorage.StreamBuffer.Receive | lib/FreeRTOS-Kernel/stream_buffer.c:774-875 | A receive that does not wait |

## Left out

- The port layer, assembly, context save and restore, the run-time statistics and trace macros: hardware or reporting only.
- `vTaskPrioritySet`, `xTaskAbortDelay`, tickless idle and the extra re-reading of the next unblock time it adds when a task is woken: furi changes no priority at run time; `Scheduler.RescanKeeps` shows that re-reading that time at any moment keeps everything.
- Task notifications, queue sets, the queue registry, recursive mutexes, counting semaphores as such and co-routines: variants of mechanisms modelled, or compiled out.
- The states before the scheduler starts: the first state has the idle task, ready and running; other tasks come by creation.
- The tick hook, the names, stacks and memory of tasks: deletion forgets the task's record.
- `Kernel.Tasks.RemoveStateItem`: a list item's container is found by membership instead of being followed; `SchedState.Partition` makes the two the same, and `ListNodes` has the pointers.
- `Kernel.Tasks.CheckTasksWaitingTermination`: `uxDeletedTasksWaitingCleanUp` is the length of the termination list, not a counter of its own.
- `Kernel.Tasks.Suspend`: the two critical sections of `vTaskSuspend` are one step; in between only the cached unblock time is out of date, and early.
- The kernel classes keep their lists as sequences; that linked nodes implement them is proved once, in `ListNodes`.
- `Timeouts.CheckForTimeOut`: `xNumOfOverflows` is unbounded here; it too wraps, after 2^64 ticks.
- The caller's second look, in a timed-out receive or send, at whether the queue is empty or full: it changes nothing in the queue.
- The wait inside a blocking send, receive or semaphore take is modelled as its critical sections, in `QueueLock` and `Mutexes`, not as one method with the retry loop around them.
- `QueueRing.QueueStorage`: an item is one slot, so copying it is one assignment and the byte arithmetic of `pcWriteTo` and `pcReadFrom` is a slot's index.
- Queue reset in the wake-up claim: it wakes only one sender by design.
- Deletion, suspension and aborted delays of tasks that have been woken but have not looked again: the wake-up and inheritance claims are about tasks that go on.
- `Mutexes.InheritanceHolds`: as the kernel documents, no task waits for a mutex while it holds another, and takes are made by the selected task; the nested case is not modelled.
- `Mutexes`: the queue side of takes and gives is on values; the three priority functions are in place in `Kernel.Tasks`.
- `EventGroups.EventGroup`: a word is the set of its bits, which is exact because the source only combines these words bit by bit; event-group deletion is not modelled.
- `StreamBuffers`: the notifications and trigger levels that wake a waiting writer or reader, stream-buffer reset, and the second read of the tail that detects a change (a size read is one step).
- `StreamStorage.StreamBuffer.Send`: waiting for room and notifying the reader are not modelled.
- `StreamStorage.StreamBuffer.Receive`: waiting for data and notifying the writer are not modelled, only what comes between.
- `QueueRing.QueueStorage.TrySend`: the waking of receivers is in `QueueLock`, not here.
- `QueueRing.QueueStorage.TryReceive`: the waking of senders likewise.
- `FuriDelay.DelayUntilNamedTick`: in place no tick comes between reading the counter and the delay; `FuriDelay.NamedTickReached` covers that.
- `EventGroups.EventGroup.WaitBits`: up to where the task blocks; `EventGroups.EventGroup.LookAfterBlocking` is what comes after.
- `EventGroups.EventGroup.Sync`: likewise.
- The timer daemon's pended function calls, static allocation flags and the scheduling of the daemon itself; it is assumed to look at the clock once per wrap while timers are armed and to process a command within a wrap.
- `HeapArena.HeapArena.Malloc`: the fatal check of a failed request is left to the caller, which sees the null pointer; the heap is set up by the constructor instead of by the first request.
- Heap tracing dictionaries, heap printing and the `malloc` and `realloc` wrappers: glue over a library that is not part of this model.
- Other `furi/core` wrappers, scripts, debugger helpers, the NFC platform shim, UI templates and file-system configuration: status translation, I/O or tooling.
