# Scheduler, mutual watch and containers: a verified model

This project models a library of C services and proves what it is for. `dafny verify dfyconfig.toml`
checks all of it.

**The run-to-completion scheduler** (`scheduler_spec.dfy` and the `scheduler_*.dfy` beside it). A scheduler holds
tasks in a queue ordered by deadline. `SchedulerRun` dequeues the first, sleeps until it is due, runs it, and destroys
it, puts it back at *now + interval*, or ends the run. The running task may add and remove tasks, itself included, clear
the scheduler, and stop it. The specification is a total state machine over the scheduler's four fields, the clock and
the UID counter; clock readings and failures, memory, tie-breaking, interrupted sleeps and the calls of tasks are
inputs, so a lemma over all scripts is a lemma over all runs. It records what was started, freed, and made unreachable.
A failed assertion or a null dereference is the outcome `Aborted`, characterised exactly. `scheduler.dfy` has the
objects, their fields reassigned in place, each method proved against the state machine. The code converts differences
of times to int, so order and timing hold only within a range; `scheduler_order.dfy` says
exactly which for one insertion or sleep, `scheduler_range.dfy` for queue and starts over whole histories, and
`scheduler_starts.dfy` for the starts alone. `scheduler_runs.dfy` says what one pass and one run do: when exactly a task
starts, how a repeated one drifts, how the loop ends.

**The mutual watch** (`watchdog_*.dfy`). A client thread starts with one task, forks a guardian, waits for its signal,
and then sends signals, counts misses and revives it, rewriting its own scheduler from inside a running task.
`watchdog_spec.dfy` is that thread layered on the scheduler's state machine: SIGUSR1 may arrive on either side of a
task's access to the miss count, a stop request before any task, and the outcomes of kill, fork and waitpid are
inputs. A trace of what was done to processes carries the safety results. `watchdog_calls.dfy` shows every pass to be
a history of the scheduler, so that ownership and timing carry over. `watchdog_detection.dfy` has the bound within which
a silent guardian is noticed, and `watchdog_alarm.dfy` the converse: when a client raises the alarm at all.
`watchdog_signals.dfy` gives the exact trace of every pass and the aim of every signal, `watchdog_life.dfy` how the
thread begins, what arriving signals and requests change, and when it dies, ends or goes on.
`watchdog_app.dfy` is the guardian, which runs the same tasks and revives the client by becoming it,
`guardian_detection.dfy` the bound within which it does so, `guardian_ends.dfy` when exactly its service ends, and `argv.dfy` the argument vector both pass on. `watchdog.dfy` and
`guardian.dfy` have the objects.

**The containers.** `dlist.dfy` is the doubly linked list with sentinels, whose splice rewrites six links;
`slist.dfy` the singly linked one that copies between neighbours and finds its owner through its dummy node;
`heap_spec.dfy`, `heap_laws.dfy`, `heap_exact.dfy` and `heap.dfy` the binary heap sifted in place; `cbuffer.dfy` the ring. Objects are
heap-allocated nodes and arrays. Chains, positions and allocation outcomes are ghost or boolean arguments.

Every lemma is marked `{:induction false}`: what is proved by induction has the induction in its body.

## Where the code and its documentation disagree

The model follows the code.

- `BestOfThree` compares both children with the element at the index, though its comments speak of the best so far
  (src/heap.c:292-298). Both versions are modelled, by a `Rule`: the order results hold as commented, and as written
  exactly under a condition on the path of the sifted element.
- `HPQRemove` removes the match of lowest index; the header has the biggest (include/heap.h:41). The two agree exactly when
  no match can hide below an element that does not match. A match in the last slot trips an assertion (src/heap.c:235).
- `SchedulerRemoveTask` returns -1 on failure; the header has 1 (include/scheduler.h:77).
- `DListSplice` is documented to be undefined for crossed lists and reversed segments only; an empty segment and a
  destination at either end of the segment break the links as well, unless all three iterators are equal.

## Model

| member | source | states |
|---|---|---|
| SchedulerOwnership.EveryTaskHasOneOwner | src/scheduler.c:107-277 | After any history of add, remove, clear, stop and runs, each UID ever issued has exactly one holder among queue, current task, destroyed list and unreachable tasks, and no other UID has any; so no task is freed twice |
| SchedulerOwnership.StepKeepsOwned | src/scheduler.c:179-237 | The same over one pass of the run loop, for any calls of the running task and any result |
| SchedulerOwnership.AddHolders | src/scheduler.c:107-131 | An add issues at most one UID and gives it one holder, whichever step fails |
| SchedulerControl.StepFromHead | src/scheduler.c:179-230 | A pass reaches TaskUpdateExecuteTime(NULL) if and only if the task removed itself (or cleared) and returned 1; it leaves a current task behind if and only if the clock fails while requeueing |
| SchedulerControl.StepStatus | src/scheduler.c:181-237 | Which status a pass returns, as a function of the task's result, its stop calls, the clock and the insertion |
| SchedulerControl.StepStopFlag | src/scheduler.c:179-237 | The stop flag is up after a pass if and only if the clock failed at its head, or a stop was asked for and the pass did not return it |
| SchedulerControl.RunLeavesNoCurrent | src/scheduler.c:167-241 | Over a whole run, a current task is left only with a system failure, and no removal stays pending |
| SchedulerControl.NothingLostFrom | src/scheduler.c:167-241 | While the clock works and no run aborts, a history makes no task unreachable and ends with no current task |
| SchedulerControl.QueuedOrDestroyed | src/scheduler.c:107-277 | Then every task ever created is queued or destroyed, never both, never destroyed twice |
| SchedulerControl.RemovalIsPrecise | src/scheduler.c:134-164 | RemoveTask succeeds if and only if the UID is queued or current; a failing call changes nothing; otherwise exactly that task goes and the others keep their order |
| SchedulerControl.QueuedDistinct | src/pqueue.c:136-160 | UIDs in the queue are distinct, so the first match is the only one |
| SchedulerRemoval.RemovalTakesOut | src/scheduler.c:134-164 | After a successful removal, from inside a task or between runs, the task is out by the end of the pass and no start of it is recorded until then |
| SchedulerRemoval.OutIsForever | src/scheduler.c:134-241 | A task that is out is never started again, whatever is done with the scheduler |
| SchedulerOrder.PriorityFuncOrders | src/scheduler.c:292-298 | The comparison is the exact difference if and only if that is from -2^31 to below 2^31; and up to 2^32 it tells which deadline is earlier exactly then |
| SchedulerOrder.InsertSorted | src/pqueue.c:77-89 | If the comparison is right about everything earlier and about the first later task, an insertion goes after everything earlier and before everything later, whatever is queued further back |
| SchedulerOrder.InsertSortedExactly | src/pqueue.c:77-89 | An insertion keeps the queue sorted for every order of ties if and only if the comparison is right about the earlier tasks and the first later one |
| SchedulerOrder.PlacedWithin | src/scheduler.c:292-298 | In arithmetic, for deadlines less than 2^32 apart: if and only if the first task is due at most 2^31 earlier and the first later task less than 2^31 later |
| SchedulerOrder.SleepsExactly | src/scheduler.c:301-313 | The first task never starts early, however its sleep ends, if and only if its deadline is less than 2^31 away |
| SchedulerOrder.SleepLength | src/scheduler.c:301-313 | For any distance, a sleep lasts the difference modulo 2^32, or not at all if that is 2^31 or more or the deadline has come |
| SchedulerOrder.AnyTieOrder | src/pqueue.c:77-89 | Every position among equal deadlines is possible: nothing is assumed about ties |
| SchedulerTiming.StartsAreTimely | src/scheduler.c:177-219 | Over every history in which comparison and sleep are right: no task starts before its deadline, deadlines of starts never decrease, and two starts of one task are at least its interval apart |
| SchedulerRange.TimelyExactly | src/scheduler.c:167-313 | Every history with intervals of at most m seconds that lasts at most h seconds starts its tasks in time and in order and queues them in order if and only if m < 2^31 and m + h <= 2^31 + 1 |
| SchedulerStarts.StartsTimelyExactly | src/scheduler.c:167-313 | The three properties of starts by themselves hold of every history with intervals of at most m seconds that lasts at most h seconds if and only if m < 2^31 and m + h <= 2^31 + 2: one second more, because a task misplaced at the very end is not started any more |
| SchedulerStarts.ShortRunsAreTimely | src/scheduler.c:177-219 | The three properties of starts, from those two bounds alone |
| SchedulerStarts.LongRunStartsLate | src/scheduler.c:292-298 | Beyond them, for every m below 2^31 and whatever the history lasts: a task due at h starts before one due at 1, because a third one that came between them was removed |
| SchedulerTiming.StepTimely | src/scheduler.c:186-219 | The invariant behind it, over one pass: starts ordered, queue sorted, and no queued task due before what has started |
| SchedulerTiming.FarDeadlineStartsEarly | src/scheduler.c:292-313 | An input beyond the bounds: a task due in 2^31 + 1 seconds is dequeued before one due in a second, and started at once |
| SchedulerRuns.PassStartsWhenDue | src/scheduler.c:179-190 | A pass starts the first queued task and no other, at its deadline or at once if it is late, and later only by the overrun of its sleep |
| SchedulerRuns.RepeatedTaskDrifts | src/scheduler.c:177-219 | A task alone in its scheduler, put back each time, starts for the k-th time k intervals after its deadline and later by exactly what its runs and overrun sleeps have taken: it drifts |
| SchedulerRuns.RunIsItsPasses | src/scheduler.c:167-241 | A run is a sequence of passes that continue: it returns success exactly at a loop head with nothing queued and nothing current, or a stop pending, and otherwise what the first pass that does not continue returns |
| SchedulerRuns.AddedExactly | src/scheduler.c:107-131 | An addition succeeds if and only if UID, clock and memory do; then exactly a task due an interval after the reading is put into the queue |
| SchedulerFairness.NoStarvation | src/scheduler.c:177-238 | In every infinite run without failure or stop, a queued task that no task removes starts after finitely many passes, even if tasks keep adding tasks and removing other ones |
| SchedulerFairness.NoStarvationInTime | src/scheduler.c:177-238 | The same, with narrowing ruled out by the largest interval and by how long the task waits |
| SchedulerFairness.OvertakingBound | src/scheduler.c:177-238 | In such a run, while t waits, another queued task x starts at most (t.deadline - x.deadline) / x.interval + 1 times if it is due no later, and never otherwise |
| SchedulerFairness.StartsAtLast | src/task.c:70-95 | The induction behind it: on the distance to the earliest deadline, then on the number of tasks at it; insertions are later because they are due at now + interval |
| Scheduling.Task.constructor | src/task.c:59-70 | A new task is due one interval after the reading |
| Scheduling.Task.UpdateExecuteTime | src/task.c:84-98 | The deadline becomes the reading plus the interval |
| Scheduling.PQueue.Enqueue | src/pqueue.c:77-89 | The queue's records are those of an ordered insertion; failure changes nothing |
| Scheduling.PQueue.Dequeue | src/pqueue.c:92-98 | Takes the first task and leaves the others in order |
| Scheduling.PQueue.Erase | src/pqueue.c:136-160 | Takes the first task with the UID, or none |
| Scheduling.Scheduler.constructor | src/scheduler.c:65-88 | The scheduler starts with nothing queued, nothing current, both flags down |
| Scheduling.Scheduler.CreateTask | src/task.c:44-74 | UID before clock: a failed reading issues a UID and leaves the task unreachable |
| Scheduling.Scheduler.AddTask | src/scheduler.c:107-131 | The object's new state and the returned UID are those of the specification, in all four outcomes |
| Scheduling.Scheduler.RemoveTask | src/scheduler.c:134-164 | The same for removal of a queued, current or unknown task |
| Scheduling.Scheduler.Clear | src/scheduler.c:260-277 | The drained queue is destroyed in order, and a current task is marked for removal |
| Scheduling.Scheduler.IsEmpty | src/scheduler.c:252-257 | Empty queue and no current task |
| Scheduling.Scheduler.SleepUntilDue | src/scheduler.c:301-313 | However often a sleep is interrupted, the sleeps add up to the narrowed difference, or nothing if that is not positive; below 2^31 seconds, exactly to the deadline |
| Scheduling.Scheduler.BeginTurn | src/scheduler.c:179-190 | Dequeue, sleep, start, with what current task was there overwritten; the start is recorded at the deadline or, if that has passed, at the reading, plus the overrun |
| Scheduling.Scheduler.Execute | src/scheduler.c:190 | A task's calls into the scheduler, one after the other |
| Scheduling.Scheduler.FinishTurn | src/scheduler.c:192-237 | What the loop does with a task by its result, including both failures while requeueing |
| Scheduling.Scheduler.TakeTurn | src/scheduler.c:179-237 | One pass of the loop, on the objects, is the specified step |
| Scheduling.Scheduler.Run | src/scheduler.c:167-241 | The loop on the objects is the specified run, so all lemmas above hold of it |
| WatchdogCalls.BodyPerforms | src/watchdog_utils.c:139-279 | What a client task does to its own scheduler, from inside it, is a list of scheduler calls |
| WatchdogCalls.PassIsStep | src/watchdog.c:189-199 | A pass of the client is a pass of the scheduler's loop with those calls and that result |
| WatchdogCalls.StepIsHistory | src/watchdog.c:189-199 | A pass of the thread, recovery after a failed run included, is a history of its scheduler |
| WatchdogGuardian.AtMostOneUntold | src/watchdog_utils.c:149-268 | In every reachable state each child ever forked was sent SIGUSR2 or reported gone before the next fork attempt, only the current target can be untold, and after RUN_STOP no child is |
| WatchdogGuardian.ReviveTaskGuarded | src/watchdog_utils.c:139-170 | The first path to a fork keeps this |
| WatchdogGuardian.SendGuarded | src/watchdog_utils.c:209-242 | The second path to a fork keeps this |
| WatchdogGuardian.WaitGuarded | src/watchdog.c:252-292 | The third path to a fork keeps this |
| WatchdogGuardian.StopGuarded | src/watchdog_utils.c:253-268 | A stop that is passed on to the scheduler has told every child |
| WatchdogModes.ClientModes | src/watchdog.c:189-305 | Before a stop the queued kinds are none, CHECK_FOR_SIGNAL alone, REVIVE and INC with or without SEND, or REVIVE alone while there is no target; no kind twice; each queued UID is in its slot |
| WatchdogModes.AbortsExactly | src/watchdog.c:189-199 | A pass of the client aborts if and only if it finds its queue empty: no task is put back after its removal, though REVIVE clears the scheduler that runs it |
| WatchdogModes.SetFiled | src/watchdog_utils.c:270-279 | Entering active mode from an empty queue queues and files the three tasks, or fails |
| WatchdogModes.WaitFiled | src/watchdog.c:296-305 | Entering wait mode leaves CHECK_FOR_SIGNAL alone, or nothing if the add fails |
| WatchdogMisses.MissesBounded | src/watchdog_utils.c:149-251 | Under any arrival of signals, in every state reached, finished and dead ones included, the count is the increments since the last reset, never more than the limit plus one, and the limit or one more whenever REVIVE decides to revive |
| WatchdogMisses.StepCounted | src/watchdog_utils.c:202-250 | The count is the one the trace of increments and resets gives |
| WatchdogMisses.KeptBudget | src/scheduler.c:207-219 | With equal intervals, the count and the increments still possible before the next check stay within the limit plus one |
| WatchdogDetection.IncAtMostTwice | src/scheduler.c:207-219 | While a REVIVE task waits for its next start, INC is started at most twice |
| WatchdogDetection.SilentGuardianDetected | src/watchdog_utils.c:139-242 | From every reached state in active mode: over 5 * (limit + 1) passes with no signal from the guardian, no stop, no failure and no refused signal, a fork is attempted |
| WatchdogDetection.SilentGuardianDetectedInTime | src/watchdog_utils.c:139-242 | The same, from the interval and the running time alone |
| WatchdogDetection.SilenceNoticed | src/watchdog_utils.c:148-206 | The bound behind it: the runs still ahead of INC and REVIVE, and five passes for each missing increment |
| WatchdogAlarms.AlarmExactly | src/watchdog_utils.c:139-242 | The other half: a client in active mode whose signals get through, over any arrival of signals from the guardian, tells it to exit or attempts a fork if and only if some check by REVIVE finds the count at its limit; until then it keeps its target and stays in active mode |
| WatchdogAlarms.NoFalseAlarm | src/watchdog_utils.c:149-251 | In particular never, while fewer increments than the limit come between two resets |
| WatchdogAlarms.WaitingForksExactly | src/watchdog.c:252-292 | In wait mode, a pass without an answer and with no refused signal attempts a fork if and only if waitpid does not fail |
| WatchdogAlarms.WaitingRunForksExactly | src/watchdog.c:192-292 | Over whole runs of such passes, the recoveries after failed waits included: a fork is attempted if and only if some waitpid does not fail, so a client with no child to wait for waits on and never forks |
| WatchdogRange.ClientInTime | src/watchdog.c:178-199 | The client is in range whenever its interval is below 2^31 and interval and running time are at most 2^31 + 1 together |
| WatchdogRange.MissesBoundedInTime | src/watchdog_utils.c:149-251 | The miss count, from those two bounds |
| WatchdogMisses.SetBounded | src/watchdog_utils.c:270-279 | Active mode starts within that budget, because INC is added after REVIVE |
| WatchdogStopping.StopIsFinal | src/watchdog_utils.c:143-268 | After a stop request nothing is forked, no fork is attempted and no miss is counted, for ever |
| WatchdogStopping.ActiveRunEnds | src/watchdog_utils.c:253-268 | In active mode the run then ends within one pass per queued task: with RUN_STOP if and only if one of their kills succeeds, else with RUN_SUCCESS |
| WatchdogStopping.ReachedIsActive | src/watchdog.c:189-305 | Every running client that has active tasks queued, and only those, satisfies the supposition of ActiveRunEnds |
| WatchdogStopping.WaitingRunEnds | src/watchdog.c:252-263 | In wait mode, while clock and memory last, the run ends if and only if a kill succeeds |
| WatchdogStopping.StoppedBody | src/watchdog_utils.c:143-218 | What each task does once the stop request is seen |
| WatchdogSignals.StepTraceExactly | src/watchdog_utils.c:139-268 | A pass adds to the trace exactly what the protocol says for its task: which signal to which process, which fork, which increment and reset, in which order |
| WatchdogSignals.SignalsAreAimed | src/watchdog_utils.c:149-259 | In every state reached the target is the child of the last fork, 0 after a failed one, INT_MAX before the first; every signal went to the target of its time; SIGUSR2 never went to process 0, and signal 0 to nothing else |
| WatchdogLife.ResultExactly | src/watchdog_utils.c:139-242 | Each task repeats, gives up its place, fails or ends the process exactly as its kind, the count, the stop request and the outcomes of kill, waitpid and the additions decide |
| WatchdogLife.DiesExactly | src/watchdog_utils.c:158-229 | A pass ends the process if and only if it finds the queue empty, or, with no stop requested, a signal it sends is refused or active mode cannot be entered |
| WatchdogLife.ArrivalsCount | src/watchdog_utils.c:245-251 | No SIGUSR1 and no request is missed, whatever task runs: after one at its end the count is 0, one at its beginning is counted from, and the request stays |
| WatchdogLife.AnsweredIsActive | src/watchdog.c:252-271 | In wait mode with the count at zero, the next look enters active mode and signals no one, or ends the process if a task cannot be added |
| WatchdogLife.FirstGuardianForked | src/watchdog.c:178-199 | The first pass of a started client tells only INT_MAX to exit and forks the first guardian |
| WatchdogLife.PersistsUnlessStopped | src/watchdog.c:189-199 | Without a stop request, and while recoveries find memory and clock, the thread of a started client never finishes and never has an empty queue, whatever fails in its passes |
| WatchdogLife.SetWorksExactly | src/watchdog_utils.c:270-279 | Entering active mode succeeds if and only if each of the three additions does |
| WatchdogLife.SetInOrder | src/watchdog_utils.c:270-279 | The UIDs of SEND, REVIVE and INC are consecutive, in this order |
| WatchdogLife.WaitSlots | src/watchdog.c:296-350 | Entering wait mode forgets every UID but the new one |
| Watchdogs.MakeMeImmortal | src/watchdog.c:71-187 | The object as its thread enters its first run |
| Watchdogs.Watchdog.constructor | src/watchdog_utils.c:34-74 | The object as WatchdogCreate leaves it |
| Watchdogs.Watchdog.Handle | src/watchdog_utils.c:245-251 | The signal handler sets the count to zero |
| Watchdogs.Watchdog.ReviveApp | src/watchdog.c:215-250 | The parent's side of the fork |
| Watchdogs.Watchdog.Stop | src/watchdog_utils.c:253-268 | Object state and result for no request, failed kill, sent signal |
| Watchdogs.Watchdog.AddTaskToSched | src/watchdog_utils.c:172-187 | The scheduler's add, and the UID in its slot unless it failed |
| Watchdogs.Watchdog.SetScheduler | src/watchdog_utils.c:270-279 | Three adds, up to the first failure |
| Watchdogs.Watchdog.ClearSched | src/watchdog.c:339-350 | Scheduler cleared and every slot reset |
| Watchdogs.Watchdog.ChangeToWait | src/watchdog.c:296-305 | Clear and one add, from inside a task |
| Watchdogs.Watchdog.ReviveIfNeeded | src/watchdog_utils.c:139-170 | Below the limit the task repeats; at it the target is told to exit, a guardian forked and wait mode entered; a refused signal exits; a stop request ends the task |
| Watchdogs.Watchdog.IncCnt | src/watchdog_utils.c:190-207 | One miss more, after any reset that comes first, unless a stop request ends the task |
| Watchdogs.Watchdog.SendSignal | src/watchdog_utils.c:209-242 | Repeats if the signal was sent, forks a guardian and gives up if the target is gone, exits if the signal is refused |
| Watchdogs.Watchdog.WaitForApp | src/watchdog.c:252-292 | Enters active mode once the count is zero; until then tells the target to exit and forks again; after a stop request repeats if its kill succeeds and fails otherwise |
| Watchdogs.Watchdog.Recover | src/watchdog.c:192-198 | What follows a failed run, whether or not the add succeeds |
| Watchdogs.Watchdog.RunPass | src/scheduler.c:179-237 | A pass over objects, the task rewriting the scheduler that runs it |
| Watchdogs.Watchdog.Run | src/watchdog.c:189-199 | Over any script of outcomes the object reaches the state the specified thread reaches, so AtMostOneUntold, ClientModes, MissesBounded and StopIsFinal hold of it |
| GuardianApp.GuardianServes | examples/watchdog_app.c:34-88 | While a guardian serves, its three tasks are queued once each and the count is right and at most one above the limit; it never forks; it becomes the client only with the client's arguments, and only if the client is gone or was told to exit at the limit or one above |
| GuardianApp.GuardianInTime | examples/watchdog_app.c:34-78 | The guardian is in range whenever interval and running time keep those bounds |
| GuardianApp.PassIsClients | src/watchdog_utils.c:139-242 | While it serves, a pass of the guardian is a pass of the client |
| GuardianApp.RevivedAsBefore | examples/watchdog_app.c:54-87 | End to end: started with the vector the client built, the guardian has the client's interval and limit, and revives it with its original arguments |
| GuardianDetection.SilentClientRevived | examples/watchdog_app.c:34-88 | After any run in which a guardian still serves: over 5 * (limit + 1) passes with no signal from the client, no failure and no refused signal it ends its service; if every exec would work it has become the client, with the client's arguments, and if none would it has exited |
| GuardianDetection.SilentClientRevivedInTime | examples/watchdog_app.c:34-88 | The same, from the interval and the running time alone |
| GuardianDetection.SilenceOutlasts | src/watchdog_utils.c:148-242 | The bound behind it, from any serving state: the runs still ahead of INC and REVIVE, and five passes for each missing increment |
| GuardianDetection.SilentAppPass | src/watchdog_utils.c:139-242 | A silent pass ends a guardian's service if and only if it finds the limit reached or the client gone, and then by exec or exit |
| GuardianEnds.ToldGuardianExits | examples/watchdog_app.c:52-96 | However a guardian's run has gone, SIGUSR2 before a task ends it: it exits, starts no further task and sends no further signal; so one that serves was never told |
| GuardianEnds.ServingIsUntold | examples/watchdog_app.c:91-96 | The same of any stretch of its loop |
| GuardianEnds.PassLifeExactly | examples/watchdog_app.c:76-96 | A pass ends a guardian's service if and only if the clock or memory fails, it is told, the limit is found reached or its signal is not delivered; and then as a failed run, by exit, or by exec |
| GuardianEnds.FirstSignalSent | examples/watchdog_app.c:64-78 | With its tasks added a guardian first signals its parent, before any task runs, and exits or execs if that fails; without them it exits and has signalled no one |
| Guardians.Serve | examples/watchdog_app.c:34-78 | Decoding, the object, the three tasks, the first signal and the run, on objects, are the specified ones |
| Guardians.Guardian.constructor | examples/watchdog_app.c:64-70 | The object with the parent as target |
| Guardians.Guardian.ReviveIfNeeded | src/watchdog_utils.c:139-170 | Below the limit the task repeats; at it the client is told to exit and the process replaced, or left if the signal is refused |
| Guardians.Guardian.SendSignal | src/watchdog_utils.c:209-242 | Repeats if the signal was sent, replaces the process if the client is gone, exits if the signal is refused |
| Guardians.Guardian.Run | examples/watchdog_app.c:76 | The run on objects is the specified loop, and one that still serves was never told to exit |
| Arguments.RevivalRoundTrip | src/watchdog.c:352-403 | Decoding what CreateArgvIMP built gives back interval, limit, argc and the NULL-terminated argv |
| Arguments.RestartKeepsArguments | examples/watchdog_app.c:64-87 | After any number of revivals in both directions the client has its original arguments |
| Arguments.AtoiOfDecimal | examples/watchdog_app.c:54-60 | atoi reads back the decimal form |
| Arguments.FitsBuffer | src/watchdog.c:380-389 | A number fits a buffer of ARG_LEN if and only if it is below 10^9 |
| Arguments.DecimalLength | src/watchdog.c:428-433 | The number of digits is at most k if and only if the number is below 10^k |
| Arguments.Itoa | src/watchdog.c:419-445 | Writes the decimal form and its terminator and nothing else |
| Arguments.CreateArgv | src/watchdog.c:352-403 | The array holds path, three numbers that atoi reads back, the client's arguments and the null pointer, each in its place |
| Arguments.EncodedLayout | src/watchdog.c:352-403 | The program to run comes first, then interval, limit and argc as atoi reads them, then the client's arguments in order |
| DoublyLinked.Splice | src/dlist.c:265-308 | For non-empty segments, or three equal iterators, with the destination neither inside nor right behind, the links form the chain with the segment moved; in every other shape they do not, and a segment spliced into itself is lost |
| DoublyLinked.SixLinks | src/dlist.c:281-306 | The six assignments, the later one winning where two nodes are one |
| DoublyLinked.Relink | src/dlist.c:265-308 | Which links of one chain or two are cut and made, by how the three positions coincide |
| DoublyLinked.DList.SpliceFrom | src/dlist.c:265-308 | Between two lists: the source loses exactly the segment, the destination is prefix, segment, suffix, both stay well formed |
| DoublyLinked.DList.SpliceWithin | src/dlist.c:265-308 | Within one list, backward or forward: the segment is taken out and put in front of the destination |
| DoublyLinked.MovedData | src/dlist.c:265-308 | The moved chain carries the data of taking out and putting in, both ways |
| DoublyLinked.LostInside | src/dlist.c:291-306 | With the destination inside the segment the remaining nodes form a list without it, and the original chain is broken |
| DoublyLinked.DList.InsertBefore | src/dlist.c:114-136 | The new node is linked both ways at its place, or the end is returned and nothing changed |
| DoublyLinked.DList.Remove | src/dlist.c:146-160 | The node is unlinked, the next returned, the other data unchanged |
| DoublyLinked.DList.constructor | src/dlist.c:57-74 | An empty list between two sentinels |
| DoublyLinked.Find | src/dlist.c:210-226 | The first match in [from, to), or `to` |
| DoublyLinked.ForEach | src/dlist.c:237-253 | Applies the operation in order, each time to the parameter the one before left, up to the end or to the first failure, which is reported with its parameter |
| Visiting.VisitGoes | src/dlist.c:237-253 | The parameters on the way, each from the one before by an operation that did not fail, and how the way ends |
| DoublyLinked.PushBack | src/dlist.c:360-370 | Appends one element, or nothing |
| DoublyLinked.MultiFind | src/dlist.c:321-352 | The destination grows by the matches, in order, up to the first failed push; then, and only then, -1 is returned, and else their number |
| DoublyLinked.GatherMatches | src/dlist.c:333-350 | What is collected are the matches before the first failed allocation; -1 if and only if there is one among them, else the count of all |
| DoublyLinked.MatchesExactly | src/dlist.c:333-350 | The matches are the values at exactly the matching positions, in increasing order |
| SinglyLinked.SList.constructor | src/slist.c:63-79 | One dummy node, owned by its list |
| SinglyLinked.SList.InsertBefore | src/slist.c:106-131 | Insert-at on the sequence, though data moves between nodes; the chain stays acyclic, its last node owned, and the iterator refers to the new element |
| SinglyLinked.Inserted | src/slist.c:118-128 | The two copied nodes carry the sequence with the value inserted, at the end or before it |
| SinglyLinked.Remove | src/slist.c:134-154 | Remove-at on the sequence; the tail is moved through the owner pointer in the dummy alone |
| SinglyLinked.Removed | src/slist.c:141-151 | The node that took over its successor carries the sequence without the element, at the end or before it |
| SinglyLinked.Append | src/slist.c:270-282 | From a non-empty source: dest ++ src, an empty source, both owner pointers right; from an empty one dest is no longer well formed, its tail being the source's dummy |
| SinglyLinked.Joined | src/slist.c:270-282 | Exchanging the dummies joins the two chains |
| SinglyLinked.Find | src/slist.c:218-242 | The first match in [from, to), or else the end of the list, not `to` |
| SinglyLinked.ForEach | src/slist.c:245-268 | The same, over the other list |
| SinglyLinked.Count | src/slist.c:158-168 | The length of the sequence |
| HeapSpec.EnqueueKeepsHeap | src/heap.c:93-111 | As written, enqueue keeps heap order and adds exactly the element |
| HeapSpec.UpOrders | src/heap.c:227-248 | Sift-up repairs one element out of order with its parent |
| HeapSpec.DownOrders | src/heap.c:250-305 | As commented, sift-down repairs one element out of order with its children |
| HeapSpec.DequeueKeepsHeap | src/heap.c:113-134 | As commented, dequeue keeps heap order and takes out exactly the root |
| HeapSpec.RootIsFirst | src/heap.c:136-142 | The root is at or above every element |
| HeapSpec.DrainSorts | src/heap.c:113-142 | As commented, peek and dequeue until empty gives a permutation in non-increasing priority, for every total preorder |
| HeapSpec.DrainKeepsElements | src/heap.c:113-134 | With either sift-down and any comparison at all, draining loses and invents nothing |
| HeapLaws.RemoveKeepsHeap | src/heap.c:202-212 | As commented, filling a hole with the last element and sifting up, then down, at the same index keeps order and takes out exactly that element |
| HeapLaws.RemoveTakesOut | src/heap.c:202-212 | With either sift-down and any comparison, exactly that element is taken out |
| HeapLaws.DropLastOrdered | src/heap.c:200-209 | Dropping the last slot alone keeps the order |
| HeapLaws.DownAsWritten | src/heap.c:285-305 | As written, sift-down restores the order if and only if its element never goes left past a better right child |
| HeapLaws.DequeueAsWritten | src/heap.c:113-134 | The same condition, on the heap before the call, for dequeue as written |
| HeapLaws.RemoveAsWritten | src/heap.c:202-212 | The same for remove as written: if and only if the last element belongs above the hole, or never goes left past a better right child |
| HeapLaws.DequeueAsWrittenFails | src/heap.c:293-301 | As written, [5, 3, 4, 1] becomes [3, 1, 4], which is no heap |
| HeapExact.UpClimbs | src/heap.c:227-248 | Sift-up exactly, ties included: the element climbs past strictly lower parents and no further, they move down one step each, and nothing else moves |
| HeapExact.BestExactly | src/heap.c:285-305 | Which child an element goes to, with either rule: it stays only above strictly lower children, and a tie goes down, to the left if it can |
| HeapExact.DownSinks | src/heap.c:250-305 | Sift-down exactly, with either rule: the element sinks as long as it goes to a child, the children move up one step each, and nothing else moves |
| HeapExact.EnqueueExactly | src/heap.c:93-111 | The new element climbs from the last position |
| HeapExact.DequeueExactly | src/heap.c:113-134 | The last element sinks from the root |
| HeapExact.RemoveExactly | src/heap.c:202-212 | The last element climbs from the hole, and then what is in the hole sinks |
| Heaps.Heap.HeapifyUp | src/heap.c:227-248 | In place, the specified sift-up |
| Heaps.Heap.BestOfThree | src/heap.c:285-305 | The specified choice, as written or as commented |
| Heaps.Heap.HeapifyDown | src/heap.c:250-266 | In place, the specified sift-down |
| Heaps.Heap.Enqueue | src/heap.c:93-111 | In place, the specified enqueue; a failed push changes nothing |
| Heaps.Heap.Peek | src/heap.c:136-142 | The root, at or above everything in an ordered heap |
| Heaps.Heap.Dequeue | src/heap.c:113-134 | In place, the specified dequeue |
| Heaps.Heap.Drain | src/heap.c:113-142 | Peek and dequeue on the object until it is empty: what comes out is, with either sift-down, exactly what was in it and, as commented and from an ordered heap, in non-increasing priority |
| Heaps.Heap.Remove | src/heap.c:163-217 | The lowest-index match is taken out and returned, and is the biggest unless one can hide; no match changes nothing; a match in the last slot trips the assertion in HeapifyUp with the element already dropped |
| HeapLaws.FirstMatchIsNotBiggest | include/heap.h:41-44 | The header promises the biggest match; of the even numbers in the heap 9, 4, 8 the lowest-index one is 4 |
| HeapLaws.FirstMatchIsBiggestExactly | include/heap.h:41-44 | The lowest-index match is the biggest in every heap if and only if no element that does not match can be above a match that is above another match |
| Heaps.RemoveTakesSmaller | src/heap.c:163-217 | For every predicate and elements that break the promise, the result of Remove on the heap of the three is the smaller match |
| CircularBuffer.FirstInFirstOut | src/cbuffer.c:101-177 | Over any sequence of queue operations, initial contents and bytes written are bytes read and contents left, in order |
| CircularBuffer.AmountsExactly | src/cbuffer.c:101-177 | An operation moves the specified amount if and only if it moves a prefix in order and stops only at its end, or at a full or empty queue |
| CircularBuffer.CBuff.Play | src/cbuffer.c:101-177 | Any sequence of reads and writes on a buffer, but for writes of no bytes to an empty one, holds, accepts and returns what the queue does, each operation as much as it can; so bytes held and accepted are bytes returned and held, in order |
| CircularBuffer.CBuff.Write | src/cbuffer.c:101-139 | Takes a prefix of the bytes to the end of the queue, all of them unless the buffer is full then; a write of none to an empty buffer makes it full of what its block holds |
| CircularBuffer.CBuff.Read | src/cbuffer.c:143-177 | Returns bytes from the front, as many as asked for unless the buffer is empty then, and leaves the rest of the destination alone |
| CircularBuffer.CBuff.BufSiz | src/cbuffer.c:183-210 | The length of the queue: full, empty, wrapped or not |
| CircularBuffer.CBuff.FreeSpace | src/cbuffer.c:212-216 | Capacity less that |
| CircularBuffer.RingAppend | src/cbuffer.c:117-136 | Storing at the write position appends to the bytes in use, around the end |
| CircularBuffer.RingDrop | src/cbuffer.c:154-174 | Advancing the read position drops the first byte in use |

## Left out

- Equal deadlines: sorted_list is not part of this model. The queue is an ordered sequence in which an insertion may go anywhere among its equals, and nothing is claimed about their order.
- Runs and intervals too long for an int: `SchedulerTiming.StartsAreTimely`, `SchedulerFairness.NoStarvation`, `WatchdogMisses.MissesBounded` and `GuardianApp.GuardianServes` suppose that each insertion and each sleep they look at is right, which `InsertSortedExactly` and `SleepsExactly` put exactly; their companions in time derive that from the largest interval and the running time, and `TimelyExactly` and `StartsTimelyExactly` show the bounds to be the largest possible for queue and starts, and for starts alone.
- Task results other than -1, 0 and 1, which the loop treats as none of the three.
- SchedulerRun from inside a running task.
- malloc failure in TaskCreate, which dereferences the pointer before it is checked.
- UIDCreate's address lookup, and wrap-around of its counter: UIDs are numbered from 1, and creation may fail.
- SchedulerDestroy, PQDestroy, PQClear, DListDestroy, SListDestroy, HPQDestroy, CBuffDestroy, getters, setters and iterator wrappers: easy members.
- Signals, fork, execv, kill, waitpid, semaphores, thread creation and signal masks: their outcomes are inputs. A handler takes effect before or after a task's access to the shared variable, which is all the task can tell.
- waitpid on the last target after the thread's runs, and the join in DoNotResuscitate.
- A target of 0 after a failed fork: the kill is recorded as a probe of 0, not as a signal to the process group. Reuse of process ids by the system.
- GuardianApp.WatchdogApp: the exit on SIGUSR2 is looked for before a task starts; arriving later in a task it differs only in the signals already sent.
- Arguments.Atoi: blanks and signs, which CreateArgvIMP never writes.
- The vector's allocation failures in CreateArgvIMP, and the buffer it leaks.
- Heaps.Heap.Remove: an empty heap leaves the source's status variable uninitialised and a missing element makes it return no value; both are the result NotFound, as the header says. Without assertions the last slot's removal drops it, which DropLastOrdered shows to be right.
- dvector: the heap's vector is an array that doubles when full; it does not shrink.
- SinglyLinked.Append: appending a list to itself.
- SListIsEmpty, which returns 1 either way, and the status of DListPushFront, which depends on the order its arguments are evaluated in.
- Iterators to freed nodes: removal unlinks a node and the model says nothing about it afterwards.
- PrintBuffer, logging, and debug-only blocks.
- The interface README.md and docs/architecture.md describe (scheduler_tick, watchdog_kick, a heap-backed queue): no source implements it.
