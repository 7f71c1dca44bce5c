# Verified models of the concurrent cores

This project models the concurrent programs of the repository and proves what they are for: the
semaphore-guarded bounded buffer and its Go counterpart, the byte queue with its eventfd, the
asynchronous log pipeline and its shutdown drain, the task registry, the shutdown of `rtsystem`, the
shared counters, and the message framing of the D server.

Sequential code that updates a structure in place is a class with the fields of the C struct, and each
method is proved against a function of the old fields. Multithreaded code is a state machine: one step
per statement, any number of threads, and an arbitrary schedule. `IsRun(s, sched)` says that a schedule
can be executed, `After(s, sched)` is where it leads, and the results are about all schedules. A failing
`assert`, an access outside a buffer, a read of an empty eventfd and a second lock of a held mutex are
explicit faults that the results exclude.

| file | models |
|---|---|
| `Prelude.dfy` | optional values, C strings, sums over threads |
| `Rings.dfy`, `RingBuffers.dfy` | the circular index arithmetic shared by both rings; `ringbuf.c` |
| `BoundedBuffers.dfy` | `buf_push` and `buf_pop` with both semaphores, the mutex and the ring |
| `GoChannels.dfy` | the buffered Go channel as the atomic specification of the bounded buffer |
| `FifoQueues.dfy`, `QueueSteps.dfy` | `fifo_queue.c`: the byte ring and the eventfd, as a class and one assignment at a time |
| `LogPipelines.dfy` | all threads that log, the log task and the shutdown flag, on the byte queue |
| `LogRunnings.dfy` | the log task while it runs: it keeps up with what is sent |
| `LogShutdowns.dfy`, `LogLosses.dfy` | the drain at shutdown, and the messages that come too late for it |
| `LogOrders.dfy`, `LogChronology.dfy`, `LogOvertaking.dfy` | the order of the messages, and when it is that of their timestamps |
| `TaskHelpers.dfy` | task handles and the arrays of slots that register them |
| `Shutdowns.dfy`, `ShutdownRuns.dfy`, `ShutdownWitnesses.dfy` | `main` against any number of tasks with the loop of `stdin_task`: the machine, its guarantees, and runs that show their limits |
| `ShutdownVisits.dfy`, `ShutdownCounts.dfy` | what `main` does to each task on its way, how many statements `main` and the tasks take, and what keeps them waiting |
| `Systems.dfy`, `SystemLosses.dfy` | the whole program: `main` and the tasks log through the byte queue, and `main` stops the log task |
| `StdinTasks.dfy` | line input with overflow, whatever the reads return; initialisation and its unwinding |
| `MutexCounters.dfy`, `GoCounters.dfy` | the shared counter with a mutex, and with channels |
| `Framings.dfy` | fixed-size and NUL-delimited messages |

## How the results fit together

The byte queue refines a ring of whole records, and a ring refines a sequence. The log pipeline runs
on the byte queue itself: `QueueSteps.Settle` completes the update that the lock's owner has begun, and
the settled queue is valid between any two assignments. So the pipeline's main result,
`LogShutdowns.NothingLost`, holds in every intermediate state.

While it runs, the log task prints what is sent as it comes: `LogRunnings.OneTurn` counts the statements
of one turn of its loop exactly, and `LogRunnings.KeepsUp` bounds those until everything is printed, from
any reachable state.

`Systems` composes the two protocols: each thread of the shutdown protocol logs through the byte queue,
statement by statement. `Systems.IsBoth` and `SystemLosses.Realises` say that runs of the whole program
and runs of the shutdown protocol correspond, so the one-step log lock of the latter loses nothing.
`Systems.EverythingPrinted` is what stopping the log task last is for: if no task is skipped, everything
accepted is printed when the log task signals that it is done. A task that was skipped can still log
(`ShutdownWitnesses.SkippedCanLog`), and then an accepted message can be lost
(`SystemLosses.SkippedTaskLosesMessage`); `LogShutdowns.LostExactlyIfLate` says that exactly the messages
accepted after the last check are.

Two points where the code and its comments differ:

- `async_log_helper.h` promises chronological order. The timestamp is taken before the queue's lock, so
  across threads the order is that of the lock. `LogOvertaking.NotChronological` exhibits a run;
  `LogChronology.ChronologicalIff` is the exact condition, that no message was overtaken between its
  timestamp and its copy; `LogChronology.ChronologicalOneAtATime` is what a caller can do about it.
  `LogOrders.PerSender` is what always holds.
- `stdin_task.c` says that a second initialisation fails because the array has capacity 1. The array is
  initialised anew first, so adding the handle never fails, and `StdinTasks.InitTask` says what the
  second initialisation forgets.

## Model

| member | source | states |
|---|---|---|
| Rings.PushAppends | Exercise1/5 - bounded buffer/c/ringbuf.c:41-46 | a push at `insertIdx` appends to what a traversal from `removeIdx` sees, wherever the indices have wrapped |
| Rings.PopTakesOldest | Exercise1/5 - bounded buffer/c/ringbuf.c:48-55 | a pop takes the first element of that traversal and leaves the rest in order |
| RingBuffers.RingBuffer.constructor | Exercise1/5 - bounded buffer/c/ringbuf.c:17-27 | a new ring is empty whatever its memory holds |
| RingBuffers.RingBuffer.Push | Exercise1/5 - bounded buffer/c/ringbuf.c:41-46 | the array ring performs exactly the push on its fields, so its contents grow by the value at the end |
| RingBuffers.RingBuffer.Pop | Exercise1/5 - bounded buffer/c/ringbuf.c:48-55 | the value returned is the oldest, and the contents lose exactly it |
| RingBuffers.RingBuffer.Print | Exercise1/5 - bounded buffer/c/ringbuf.c:29-39 | the printing loop visits exactly the contents, oldest first |
| BoundedBuffers.AssertionsHold | Exercise1/5 - bounded buffer/c/ringbuf.c:42-49 | a thread about to push finds room and a thread about to pop finds an element: neither assertion can fail |
| BoundedBuffers.StepInv | Exercise1/5 - bounded buffer/c/main.c:42-57 | every statement of every thread keeps the counting, exclusion and history invariants |
| BoundedBuffers.Conservation | Exercise1/5 - bounded buffer/c/main.c:42-57 | in every reachable state the semaphores plus the threads between their two semaphore calls equal the size, the ring's length is `numElements` plus the operations in flight, nothing has aborted, and at most one thread is in the critical section |
| BoundedBuffers.Fifo | Exercise1/5 - bounded buffer/c/main.c:42-57 | values popped are a prefix of values pushed, the ring holds the difference, and each producer's and consumer's own order is kept |
| BoundedBuffers.RunsAreFinite | Exercise1/5 - bounded buffer/c/main.c:60-81 | no schedule is longer than ten statements per item |
| BoundedBuffers.StuckMeansComplete | Exercise1/5 - bounded buffer/c/main.c:60-81 | the only stuck state has everything pushed and popped exactly once, the ring empty and all consumers waiting, after exactly ten statements per item |
| BoundedBuffers.BlockedIff | Exercise1/5 - bounded buffer/c/main.c:42-57 | in every reachable state a thread with work left is blocked only by a semaphore that is 0 or by another thread inside its critical section |
| GoChannels.StepRefines | Exercise1/5 - bounded buffer/c/main.c:42-57 | each statement is invisible to the channel or is exactly one send or receive that the channel is ready for |
| GoChannels.Refines | Exercise1/5 - bounded buffer/go/main.go:8-38 | every run of the semaphore protocol is a run of the buffered channel, ending in the channel it stands for |
| GoChannels.CallIsOneOperation | Exercise1/5 - bounded buffer/c/main.c:42-57 | from a quiet state a call can start exactly when the channel operation is ready, runs to its end, and amounts to it |
| GoChannels.Realises | Exercise1/5 - bounded buffer/go/main.go:8-38 | every run of the channel is realised by the semaphore protocol |
| FifoQueues.CopyInIsSlotUpdate | rtsystem/src/core/fifo_queue.c:60-61 | copying a record to its byte offset changes that record and no other |
| FifoQueues.SendAppends | rtsystem/src/core/fifo_queue.c:60-67 | the four updates of a send append the record and keep the eventfd equal to the count |
| FifoQueues.ReceiveTakesOldest | rtsystem/src/core/fifo_queue.c:81-88 | the updates of a receive remove the oldest record, which is the one copied out byte for byte |
| FifoQueues.FifoQueue.Init | rtsystem/src/core/fifo_queue.c:9-38 | from whatever state, returns -1 exactly when the allocation or the eventfd fails, with no buffer left behind, and otherwise the queue is valid and empty |
| FifoQueues.FifoQueue.Send | rtsystem/src/core/fifo_queue.c:52-71 | returns 0 and appends exactly when the queue is not full, and otherwise -1 with nothing changed; the lock is free again |
| FifoQueues.FifoQueue.Receive | rtsystem/src/core/fifo_queue.c:73-92 | returns 0 and the oldest record exactly when there is one, and otherwise -1 with nothing changed; the lock is free again |
| FifoQueues.FifoQueue.Count | rtsystem/src/core/fifo_queue.c:94-99 | the number of records held |
| QueueSteps.CounterAgreement | rtsystem/src/core/fifo_queue.c:63-67 | between two assignments the eventfd equals the count, or differs by one in the two update windows |
| QueueSteps.SendSettles | rtsystem/src/core/fifo_queue.c:55-67 | no assignment of send faults, only the copy changes what the queue will hold, and it is refused exactly when full |
| QueueSteps.RecvSettles | rtsystem/src/core/fifo_queue.c:76-88 | no assignment of receive faults, the eventfd read never finds 0, and it is refused exactly when empty |
| LogPipelines.NextInv | rtsystem/src/tasks/log_task.c:99-138 | every step of every thread keeps the lock, stream, control and poll invariants |
| LogShutdowns.NothingLost | rtsystem/src/tasks/log_task.c:110-135 | in every reachable state accepted messages are those printed, then the one in hand, then the queue, in order, and nothing has faulted |
| LogShutdowns.PollIsExact | rtsystem/src/tasks/log_task.c:111-121 | with the lock free the descriptor is readable exactly when the queue is not empty, and a receive after a positive poll is never refused |
| LogShutdowns.WaitsIff | rtsystem/src/core/fifo_queue.c:52-53 | in every reachable state a logging thread, and the log task until it exits, waits only while somebody else is inside the queue's critical section |
| LogRunnings.OneTurn | rtsystem/src/tasks/log_task.c:110-123 | with nobody else logging, a poll that finds m messages is followed by exactly 9 * m + 4 statements that print them all and come back to the head of the loop; one that finds none or fails comes back at once and changes nothing |
| LogRunnings.KeepsUp | rtsystem/src/tasks/log_task.c:103-123 | from every reachable state before `log_task_stop` with nobody else logging, everything accepted is printed within a number of statements bounded by the capacity |
| LogRunnings.PrintsWhileRunning | rtsystem/src/tasks/log_task.c:118-122 | for any capacity from one and any thread, a run in which a message of that thread is printed before `log_task_stop` |
| LogShutdowns.LogUnblocked | rtsystem/src/tasks/log_task.c:99-138 | with the senders idle the log task always has an enabled statement until it exits |
| LogShutdowns.RankDecreases | rtsystem/src/tasks/log_task.c:118-135 | after the stop every statement of the log task lowers its rank, also while it sets the flag back and logs itself |
| LogShutdowns.DrainedWhenDone | rtsystem/src/tasks/log_task.c:125-135 | if only the log task logs from before the end of the drain, everything accepted is printed when completion is signalled |
| LogShutdowns.DrainTerminates | rtsystem/src/tasks/log_task.c:118-135 | after `log_task_stop` the done event comes within a number of statements bounded by nine per queued message plus 42, with everything printed |
| LogShutdowns.LostExactlyIfLate | rtsystem/src/tasks/log_task.c:129-135 | after the last check printed and accepted agree if and only if nothing was accepted since |
| LogLosses.LateMessageLost | rtsystem/src/tasks/log_task.c:129-135 | for any capacity and number of threads from one there is a run that signals completion and then accepts a message that is never printed |
| LogShutdowns.WarnedWhenLate | rtsystem/include/rtsystem/async_log_helper.h:45-47 | nobody is warned before the stop, everybody is once the drain has begun, and the log task's own announcement never is |
| LogOrders.PerSender | rtsystem/include/rtsystem/async_log_helper.h:42-58 | each thread's printed messages are an in-order subsequence of its attempts with non-decreasing timestamps, and finished attempts are accepted plus dropped |
| LogChronology.ChronologicalIff | rtsystem/include/rtsystem/async_log_helper.h:52-54 | in every run, the messages accepted or printed so far are in the order of their timestamps if and only if none of them was overtaken between its timestamp and its copy into the queue |
| LogChronology.OvertakenByAnother | rtsystem/include/rtsystem/async_log_helper.h:52-54 | whatever is out of order was overtaken by another thread, after its own timestamp |
| LogChronology.ChronologicalOneAtATime | rtsystem/include/rtsystem/async_log_helper.h:42-58 | if no thread enters the macro while another is inside it, the log is chronological |
| LogOvertaking.NotChronological | rtsystem/include/rtsystem/async_log_helper.h:1-3 | a run in which the later timestamp is accepted first |
| TaskHelpers.LinkAdded | rtsystem/src/core/task_helper.c:101-109 | filling a free slot keeps the pointer graph consistent exactly when the handle was not registered |
| TaskHelpers.LinkRemoved | rtsystem/src/core/task_helper.c:120-128 | freeing the slot of a handle keeps the pointer graph consistent |
| TaskHelpers.LinkMoved | rtsystem/src/core/task_helper.c:101-109 | registering a handle that is registered in another array leaves the array it is added to consistent, and the other not |
| TaskHelpers.TaskHandle.Destroy | rtsystem/src/core/task_helper.c:31-43 | unregisters the handle if it is registered, closes its descriptor once, and keeps the pointer graph of all arrays consistent |
| TaskHelpers.TaskHandle.MarkDone | rtsystem/src/core/task_helper.c:45-50 | the descriptor becomes readable |
| TaskHelpers.TaskArray.Add | rtsystem/src/core/task_helper.c:98-114 | takes the first free slot, fails exactly when every slot is occupied, and keeps the pointer graph of all arrays consistent exactly when it fails or the handle was registered nowhere |
| TaskHelpers.TaskArray.Remove | rtsystem/src/core/task_helper.c:116-133 | succeeds exactly for a handle registered here, frees its one slot, and keeps the graph of all arrays consistent |
| TaskHelpers.TaskArray.StopAll | rtsystem/src/core/task_helper.c:135-146 | every registered task is told to stop once, and no other field of any handle changes |
| TaskHelpers.TaskArray.CancelAll | rtsystem/src/core/task_helper.c:211-222 | every registered task is cancelled once |
| TaskHelpers.TaskArray.PollAll | rtsystem/src/core/task_helper.c:148-209 | polls exactly the descriptors of the occupied slots in order plus the signal, in bounds, and says exactly when the result is 0, -1, -2 or the number of ready tasks |
| TaskHelpers.PolledAreJoinable | rtsystem/src/core/task_helper.c:197-205 | with exact descriptors that number is the number of tasks `task_array_join_all` would join |
| TaskHelpers.TaskArray.JoinAll | rtsystem/src/core/task_helper.c:224-249 | joins exactly the registered tasks that have marked themselves done, each once; joined plus skipped is the number of occupied slots |
| TaskHelpers.TaskArray.HandlesDestroyAll | rtsystem/src/core/task_helper.c:251-272 | empties the array; each registered handle has its cleanup called once and its descriptor closed once, the array is never locked twice, and all arrays stay consistent |
| TaskHelpers.JoinAndDestroy | rtsystem/src/main/main.c:112-117 | join and destroy in sequence: everything registered is joined or skipped and then cleaned up once |
| Shutdowns.FaultIff | rtsystem/src/core/task_helper.c:31-35 | in every reachable state, the only step that takes a lock its own thread holds is destroying a handle that is still registered in the array locked by `main` |
| ShutdownRuns.LockOrder | rtsystem/src/core/task_helper.c:135-272 | no step of the program takes a lock that its thread holds; the array lock is held only by `main` in a bulk operation, and the log lock only by a thread that next releases it |
| ShutdownWitnesses.RelockWithoutClearing | rtsystem/src/core/task_helper.c:264-266 | without clearing the handle's array first, no run would ever reach `log_task_stop`, and some run would lock the array twice |
| ShutdownRuns.PolledTasksAreJoined | rtsystem/src/main/main.c:93-117 | a task that the poll found done is joined and never skipped, a joined task has returned, and with nobody skipped all have returned before the log task is stopped |
| ShutdownVisits.JoinedIffDone | rtsystem/src/core/task_helper.c:228-241 | each task is looked at once, and is joined if its done event has been written by then, seen by the poll or not, and skipped otherwise |
| ShutdownVisits.DoneIsNotSkipped | rtsystem/src/core/task_helper.c:232-240 | a task that is done before `main` has looked at it is never skipped, and joined in the end |
| ShutdownVisits.StopsEveryTask | rtsystem/src/core/task_helper.c:135-146 | a task that `main` has passed with the stop request and that has not started is STOPPING until its handle is destroyed, and at the end every done task is STOPPED |
| ShutdownVisits.StartedTaskHears | rtsystem/src/core/task_helper.c:52-59 | a task that started before `main` passed it is never RUNNING again, and STOPPING while it is in its loop |
| ShutdownRuns.CancelledOrJoined | rtsystem/src/main/main.c:93-117 | `main` cancels every task if its poll timed out, having found none done, or was interrupted by a second SIGINT, and otherwise none; if the poll returned for a done task, such a task has been joined, and a single one has returned |
| ShutdownRuns.ShutdownCompletes | rtsystem/src/main/main.c:86-120 | once `g_running` is 0 every run is finite, at most 41 statements per task plus 23, and ends only with `main` at `log_task_stop` and every task returned or waiting for the rest of an overlong line, without the help of a second SIGINT |
| ShutdownCounts.MainTakes | rtsystem/src/main/main.c:67-120 | `main` comes to `log_task_stop` after exactly 15 statements for each task, one more for each task joined, three more for each task and six others if it cancels, and 19 others |
| ShutdownCounts.LoopTurns | rtsystem/src/tasks/stdin_task.c:45-98 | a turn of the task's loop leaves the task as it was, with no log call without input, one for a line, and two for an overlong one |
| ShutdownCounts.TaskReturns | rtsystem/src/tasks/stdin_task.c:100-103 | a task that finds `g_running` cleared, or its state not RUNNING, returns after eight statements and two log calls, STOPPED and with its done event written once |
| ShutdownCounts.LateTaskReturns | rtsystem/src/tasks/stdin_task.c:42-103 | a task that starts only after `g_running` has been cleared returns after eleven statements and three log calls, in the same way |
| ShutdownCounts.TaskWaitsIff | rtsystem/src/tasks/stdin_task.c:36-103 | in every reachable state a task waits only for a log call of somebody else, or for the rest of an overlong line that never comes |
| ShutdownCounts.MainWaitsIff | rtsystem/src/main/main.c:67-120 | in every reachable state `main` waits only for a log call of somebody else, for a task that has marked itself done to return, or in its poll |
| ShutdownWitnesses.MuteTaskHangs | rtsystem/src/tasks/stdin_task.c:79-83 | a run in which the task waits for the rest of an overlong line for ever, and `main` skips it |
| ShutdownWitnesses.SkippedCanLog | rtsystem/src/core/task_helper.c:228-240 | for any number of tasks from two, a run in which `main` has joined one task and skipped another whose next statement logs |
| Systems.NextInv | rtsystem/src/main/main.c:112-120 | every step of the whole program keeps both protocols' invariants and their coupling, and, once the log task has been stopped with nobody skipped, the quiet drain |
| Systems.EverythingPrinted | rtsystem/src/main/main.c:112-128 | in every run of the whole program that skips no task, everything accepted is printed when the log task signals that it is done |
| Systems.OneTaskPrinted | rtsystem/src/main/main.c:93-128 | with its one task, done when `main` polled, the program prints everything it has accepted |
| Systems.EndsFinished | rtsystem/src/main/main.c:86-128 | once `g_running` is 0 the program comes to rest only with the log task stopped and finished and every task returned or waiting for the rest of an overlong line |
| Systems.IsBoth | rtsystem/src/main/main.c:86-120 | every run of the whole program is a run of the log pipeline and a run of the shutdown protocol |
| Systems.WaitsIff | rtsystem/src/main/main.c:86-120 | outside `fifo_queue_send` the program waits for nothing but what the shutdown protocol waits for, and inside only for the queue's lock |
| SystemLosses.Realises | rtsystem/src/main/main.c:86-120 | every run of the shutdown protocol is part of a run of the whole program |
| SystemLosses.SkippedTaskLosesMessage | rtsystem/src/core/task_helper.c:228-240 | for any number of tasks from two and any queue that holds a message, a run that skips a task, signals completion, and has accepted a message that is never printed |
| StdinTasks.StdinTask.HandleInput | rtsystem/src/tasks/stdin_task.c:58-97 | a pass over the buffer in place consumes and logs what `Pass` says, whatever its reads return |
| StdinTasks.PassLogs | rtsystem/src/tasks/stdin_task.c:58-97 | whatever its reads return, a pass logs a failure exactly when its first read fails, a warning exactly when that read fills the buffer without ending a line, the text of that read, up to its first NUL and without the newline at its end, unless nothing is left without it, and nothing when it reads nothing |
| StdinTasks.NothingAfterTheEnd | rtsystem/src/tasks/stdin_task.c:66-68 | any number of passes at the end of the input log nothing |
| StdinTasks.PassIff | rtsystem/src/tasks/stdin_task.c:58-97 | a pass consumes exactly one line and logs it, without its newline, cut to the buffer with a warning, and not if it is empty, if and only if its reads respect the line |
| StdinTasks.FlushedIff | rtsystem/src/tasks/stdin_task.c:77-83 | the flush ends at the end of the line if and only if none of its reads fails inside the line or goes beyond it |
| StdinTasks.EveryLineOnce | rtsystem/src/tasks/stdin_task.c:45-98 | lines of any lengths are handled one by one if and only if the reads respect them, and then each is logged once, in order |
| StdinTasks.TerminalRespects | rtsystem/src/tasks/stdin_task.c:61 | the reads of a terminal in line mode respect every line |
| StdinTasks.LinesMerged | rtsystem/src/tasks/stdin_task.c:61-97 | redirected input: two lines returned by one read are logged as one message |
| StdinTasks.LineDiscarded | rtsystem/src/tasks/stdin_task.c:77-83 | redirected input: the flush of an overlong line can discard the line after it |
| StdinTasks.InitTask | rtsystem/src/tasks/stdin_task.c:105-163 | from whatever state of the array and the handle, fails exactly when calloc, eventfd, malloc or pthread_create fails; success registers the handle with its cleanup callback and no stop callback, and forgets the slot, the thread and the open descriptor of an earlier call; failure leaves no slot and no descriptor of its own |
| StdinTasks.StartAndStop | rtsystem/src/main/main.c:57-117 | from whatever state, a successful initialisation is undone completely by stopping, joining and destroying: the task is told to stop by its state, joined exactly if it is done, cleaned up once, and its descriptor closed |
| MutexCounters.NoLostUpdate | Exercise1/3 - shared variable/c/foo.c:10-26 | mutual exclusion, and the counter is the start plus every stored addition and stays between start plus all negative and start plus all positive work |
| MutexCounters.EndsWithTotal | Exercise1/3 - shared variable/c/foo.c:10-26 | for any threads and rounds every run is finite and ends only with all work done and the exact total |
| MutexCounters.BlockedIff | Exercise1/3 - shared variable/c/foo.c:10-26 | a thread with work left is blocked only at its lock, while another holds the mutex |
| MutexCounters.MagicNumber | Exercise1/3 - shared variable/c/foo.c:28-40 | with one incrementing and one decrementing thread the result is start plus ups minus downs |
| GoCounters.StuckHasPrinted | Exercise1/3 - shared variable/go/foo.go:27-63 | with buffered channels no goroutine deadlocks: a state without a next step has printed |
| GoCounters.MagicNumber | Exercise1/3 - shared variable/go/foo.go:12-63 | whatever is printed is start plus increments minus decrements, and every run ends there after exactly two steps per request plus five |
| GoCounters.DrainIsNeeded | Exercise1/3 - shared variable/go/foo.go:45-60 | when the drain begins all requests have been sent, and the counter is right already exactly when as many of each kind are left |
| GoCounters.ReachedIff | Exercise1/3 - shared variable/go/foo.go:12-63 | with buffered channels exactly those states are reached in which requests and done messages are unsent, buffered or received, no buffer overflows, and `main` has kept count |
| GoCounters.LeftToDrain | Exercise1/3 - shared variable/go/foo.go:45-60 | the drain can find any numbers of requests that there are and that fit the channels, and no others; with different numbers left the counter is wrong at that point |
| Framings.ReturnsIff | Exercise2/server_wfh/server_wfh.d:121-135 | the recursion returns if and only if the format is delimited, the buffer is not empty, or the string is |
| Framings.FixedBlocks | Exercise2/server_wfh/server_wfh.d:124-130 | fixed framing sends full blocks, as many as needed and at least one, holding the string padded with NULs |
| Framings.DelimRoundTrip | Exercise2/server_wfh/server_wfh.d:131-133 | cutting a delimited stream at its NULs gives back the messages |
| Framings.FixedRoundTrip | Exercise2/server_wfh/server_wfh.d:124-130 | cutting a fixed stream into blocks gives back messages that fit one block |
| Framings.ReadOneWayIff | Exercise2/server_wfh/server_wfh.d:124-130 | a fixed stream has one reading if and only if no message exceeds a block and a message that fills its block is last or followed by an empty one |

## Left out

- Thread cancellation as such: a cancel is recorded, and the thread goes on. Cancelling a thread inside `fifo_queue_send` can leave the queue's lock held, so nothing here covers a cancelled run.
- TaskHelpers.TaskHandle.Join: returns at once and counts the join; that the wait ends is `ShutdownRuns.ShutdownCompletes`.
- TaskHelpers.TaskArray.PollAll: the descriptors that poll finds readable are a parameter, because other threads run between the snapshot and the poll.
- ShutdownRuns.ShutdownCompletes: the callbacks are those of `stdin_task`, successive log calls of one statement are merged, a failing allocation before the poll is left out, and the tasks fill the slots of one array.
- Shutdowns.FaultIff: the bulk operations are steps of the machine; `ShutdownVisits` says what they do to the tasks, but that the methods of `TaskHelpers` do the same to the slots of an array is not proved.
- Systems.EndsFinished: the wait of `main` for the log task, with its timeout of three seconds and `log_task_cancel`, is left out.
- StdinTasks.StdinTask.HandleInput: a failing poll, which only logs a warning, is left out; so are a buffer of size 0, for which the size passed to `read` wraps around, and the truncation of log messages to 256 bytes.
- StdinTasks.StartAndStop: the line buffer itself, which the cleanup callback frees, is not modelled.
- StdinTasks.InitTask: the initialisation is one sequential call; what a thread of an earlier one that is still running does with the new handle is not modelled.
- LogPipelines.NextInv: messages below the compiled log level are not attempts.
- LogChronology.ChronologicalIff: the clock may stand still but never goes back, which `CLOCK_REALTIME` can when it is set.
- FifoQueues.FifoQueue.Init: the product of item size and capacity is assumed to fit `size_t`, and then no index or counter reaches the limit of its type.
- Framings.FixedRoundTrip: a receive returns one whole block; TCP may deliver less.
- `buf_destroy`, `fifo_queue_destroy` and `log_task_cleanup`, which only free memory and close descriptors.
- The cancellation of the consumer at the end of the bounded buffer program, after which items can remain unprinted.
- Priorities, timeouts as durations, malloc failures other than those named, weak memory, terminal colours, and the socket programs of Exercise2.
