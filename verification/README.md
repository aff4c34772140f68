# Verified models of the concurrency and timer examples

This project models the parts of a Linux systems-programming repository where the
difficulty lies in what may happen in between: threads that share semaphores, mutexes and
condition variables, a server that keeps one timer per connection, a timer wheel, a
request scanner that is fed in pieces, and an epoll reactor whose callbacks register each
other. Everything is proved for any number of threads, any schedule, any sequence of
events, any way the kernel cuts a stream.

How the programs are modelled:

- **Threads.** A concurrent program is a step system: a state, and one move per statement
  (`Step` is `None` where a thread is blocked). `Runs.Exec` runs a schedule, a move of a
  blocked thread being a try that fails. What a run should have done is said by the moves
  that went through (`Runs.Made`, `Runs.Trace`), never by a field the moves fill in
  themselves. Interchangeable threads are counted per
  statement; in the thread pool, where identity matters, each thread has its own program
  counter. A condition wait is that of IEEE Std 1003.1: a sleeper may wake for no reason,
  and needs the mutex again to go on.
- **Objects and loops.** The timer list, the timer wheel, the server around the list, the
  scanner, the reactor's slot table, the pool's task ring and its growth pass are classes
  and methods that change heap objects and arrays in place, as the source does. Each
  method is proved equal to a function on values, and what the source promises is proved
  about these functions and about every run of them.
- **The kernel.** What `recv`, `send`, `accept`, `time` and `epoll_wait` return are inputs, with the
  bounds the interfaces give them (a new descriptor is not open, `recv` gives no more than
  was asked for, the clock does not run backwards).

| module | what it models |
|---|---|
| `Runs` | schedules, and induction over them |
| `ReaderWriter`, `ReaderWriterHistory` | the readers-preference protocol with its lend-and-reclaim hand-off, and its state by the statements executed |
| `TaskQueue`, `GrowthPass` | the pool's ring buffer and one growth pass, in place |
| `ThreadPool`, `ThreadPoolSafety`, `ThreadPoolShrink`, `ThreadPoolWakeups`, `ThreadPoolService`, `ThreadPoolHistory` | the pool as a step system, what all its runs keep, the runs that desert a task, which pools have none, that these can always serve their tasks, and what every run makes of the calls, snapshots, orders and shutdown in it |
| `TimerSpec`, `TimerRuns`, `LinkedTimers` | the sorted timer list as a value, its runs, and the doubly linked list |
| `TimerServer`, `TimerServerLoop` | the event loop with one timer per connection, and the same over the linked list |
| `WheelSpec`, `WheelRuns`, `LinkedWheel`, `LinkedWheelRuns`, `WheelAsWritten` | the timer wheel as a bag of countdowns, its runs, the linked buckets and their runs, and the statements as written |
| `CgiScanner` | the resumable search for the first CRLF |
| `Stacks`, `SemaphoreBuffer`, `ConditionBuffer` | the two bounded buffers and what last-in first-out means |
| `Counter` | the counter tested outside its lock |
| `ReactorSpec`, `ReactorHistory`, `ReactorServer` | the reactor's callbacks, its state by the reports it has answered, and the slot table in place |

## Where the code differs from its intent

The model follows the evident intent in these places. Where the written code can be
judged on its own, a member proves exactly when it does what is meant.

- `thread/thread_pool/thread_pool.c:137-140` unlocks after a shutdown but does not return;
  modelled as a rejected add (`TaskQueue.AddAfterShutdownKeepsRing` says when the written
  code, undisturbed by other threads, ruins the ring). `wait_exit_thr_num` is not initialised in 80-88 and starts at 0
  here; line 96 clears too few bytes, and all slots start empty here.
- `timer/timer_list/timer_list.cpp:45-49` loses the predecessor, 22-26 leave the old head's
  `_pre`, line 22 sends a timer equal to the head past it without moving `head`, 86-95
  reinsert a timer with a stale `_next`. The `AsWritten` methods say exactly when a list is left.
- `timer/timer_list/main.cpp:100` records the listening descriptor; `TimerServer.RecordedDescriptorMatters`
  says exactly when that is harmless.
- `timer/timer_wheel/timer_wheel.cpp:23` and 26 compute another slot than the one that is
  meant, 61-76 never advance `_cur`, line 46 lacks a null check, and the vector of
  timer_wheel.h:48-58 is empty. Module `WheelAsWritten` says exactly when the first three are right.
- `process/processpool/processpool.h:242`, the call of `process`, is commented out; the model makes it.
- `unix网络编程/IO多路复用/epoll/reactor/server.c:115-117` goes on after closing; modelled as the end of
  the connection, whose slot becomes free. `ReactorSpec.AsWrittenStopsExactly` says what the written code does.

One intended property is false of the thread pool: that a queued task always has an awake
worker or a signal on its way. Once the manager has ordered workers to exit, a woken worker
may leave instead of taking the task it was woken for, also as the last one; and a pool
created without workers has nobody for its first task.
`ThreadPoolWakeups.TasksDesertedExactly` says for which arguments of `threadpool_create` no
run deserts a task: exactly when nobody adds any, or `min_thr_num > 0` and the pool cannot
grow (`min_thr_num == max_thr_num`, or a queue with room for fewer than `MIN_WAIT_TASK_NUM`
tasks). In these pools `ThreadPoolService` shows that every accepted task can still be run.
`ThreadPoolShrink.LosesAWakeup` builds the losing run for every pool that can grow,
`ThreadPoolWakeups.WakeupsLostExactly` says when another worker sleeps meanwhile that could
have been woken, and `ThreadPoolSafety.UncoveredExactly` says which moves do it.

## Model

| member | source | states |
|---|---|---|
| ReaderWriter.Exclusion | process/semaphore/reader_writer/main.c:27-81 | in every reachable state at most one writer is in its write section, and then no reader is past the data gate, although readers release and reclaim `write_sem` on the way in |
| ReaderWriter.ReadersSeeStableData | process/semaphore/reader_writer/main.c:35-49 | while a reader is past the gate no move of anybody changes the buffer or its size, and there is data |
| ReaderWriter.SleepingReaderIsServed | process/semaphore/reader_writer/main.c:37-42 | a reader asleep on `data_sem` without a token is alone, has `flag` up, and nothing is written yet or a writer is still to post |
| ReaderWriter.Progress | process/semaphore/reader_writer/main.c:27-81 | with a writer, every reachable state has a thread that can go on |
| ReaderWriter.StopsExactly | process/semaphore/reader_writer/main.c:27-81 | some schedule leads to where nobody can go on exactly when there is no writer, however many readers: the first lends the lock and sleeps, the others wait for it at the gate |
| ReaderWriter.ReadersCanAlwaysRead | process/semaphore/reader_writer/main.c:27-81 | with a writer no reachable state traps the readers: each has a continuation in which a reader reads |
| ReaderWriter.RunKeepsInv | process/semaphore/reader_writer/main.c:16-89 | the semaphores, `readcount`, `datasize` and `flag` agree with where the threads stand, after any schedule |
| ReaderWriter.ReaderKeepsWriteLock | process/semaphore/reader_writer/main.c:28-53 | the write lock stays with one writer or with the readers as a group, less what they lent |
| ReaderWriter.ReaderKeepsHandoff | process/semaphore/reader_writer/main.c:35-43 | a reader's move keeps the hand-off: lending means nobody is past the gate, reclaiming means there is data |
| ReaderWriter.WriterKeepsHandoff | process/semaphore/reader_writer/main.c:64-77 | a writer's move keeps it: a `data_sem` token means there is data, and a waiting reader is not forgotten |
| ReaderWriterHistory.BufferIsWhatWasStored | process/semaphore/reader_writer/main.c:64-69 | in every run the buffer is the characters of the stores executed, in their order; `datasize` counts all but one not yet counted |
| ReaderWriterHistory.TextOnlyGrows | process/semaphore/reader_writer/main.c:64-69 | whatever happens next, the buffer of now is a prefix of the buffer of then: readers only ever see more of the same text |
| ReaderWriterHistory.RunIsAccounted | process/semaphore/reader_writer/main.c:27-81 | in every run the statements executed so far determine how many threads stand at each statement, every semaphore, `readcount`, `datasize` and `flag`: no wait, post, count or flag change is skipped and every test has gone the way the statements before it ask for |
| ReaderWriterHistory.MovesExactly | process/semaphore/reader_writer/main.c:27-81 | a statement can be executed exactly if the statements before it have brought a thread there and left the semaphore it waits for above zero |
| TaskQueue.PutAppends | thread/thread_pool/thread_pool.c:142-151 | adding to a ring with room appends to its contents and keeps `queue_rear == (queue_front + queue_size) % queue_max_size` |
| TaskQueue.TakeRemovesOldest | thread/thread_pool/thread_pool.c:198-201 | taking removes the oldest task and leaves the rest in order |
| TaskQueue.AddAfterShutdownKeepsRing | thread/thread_pool/thread_pool.c:137-151 | the add that goes on after a shutdown, if no other thread comes between, keeps the ring well formed exactly when it is not full |
| TaskQueue.Queue.constructor | thread/thread_pool/thread_pool.c:84-98 | a new queue is empty and has the capacity asked for |
| TaskQueue.Queue.Add | thread/thread_pool/thread_pool.c:142-151 | the array in place: the contents grow by the task at the end |
| TaskQueue.Queue.Take | thread/thread_pool/thread_pool.c:198-201 | the array in place: gives the oldest task, the contents lose it |
| ThreadPoolSafety.PoolSize | thread/thread_pool/thread_pool.c:171-276 | `min_thr_num <= live_thr_num <= max_thr_num` always, despite stale snapshots; `live_thr_num` counts the workers that have not left, `busy_thr_num` those running, and busy never exceeds live |
| ThreadPoolSafety.TasksConserved | thread/thread_pool/thread_pool.c:142-213 | the accepted tasks not yet handed out are the ring's contents in order, each handed-out task is with exactly one worker until it has run, and none runs twice |
| ThreadPoolSafety.HistoryOnlyGrows | thread/thread_pool/thread_pool.c:142-213 | what has been accepted, handed out and run stays so whatever happens next |
| ThreadPoolSafety.UncoveredExactly | thread/thread_pool/thread_pool.c:171-206 | before a shutdown a move leaves a task without a worker or a signal exactly when a worker at line 180 has `live_thr_num > min_thr_num`, others sleep, and as many tasks are queued as there are awake workers and due signals, the manager's included |
| ThreadPoolSafety.ThreadsHaveSlots | thread/thread_pool/thread_pool.c:247-258 | existing threads are in different slots, each in the one recorded for it |
| ThreadPoolSafety.GrowthSparesThreads | thread/thread_pool/thread_pool.c:250-258 | the manager never overwrites the slot of an existing thread |
| ThreadPoolSafety.LockHolderGoesOn | thread/thread_pool/thread_pool.c:131-270 | whoever holds the pool's lock can execute its next statement: lines 142 and 198 always find room and a task |
| ThreadPoolSafety.RunKeepsInv | thread/thread_pool/thread_pool.c:129-281 | lock, queue, counters, slots, history and wait sets stay consistent after any schedule |
| ThreadPoolSafety.StepServesWorkers | thread/thread_pool/thread_pool.c:133-206 | every move, spurious wake-ups included, keeps sleeping workers covered while the manager has not shrunk the pool |
| ThreadPoolSafety.ManagerKeepsSize | thread/thread_pool/thread_pool.c:232-276 | no decision of the manager, however stale, takes the pool out of its bounds |
| ThreadPool.RunningStay | thread/thread_pool/thread_pool.c:208-220 | workers in the counted execution window have not left the pool |
| ThreadPool.SignalCounts | thread/thread_pool/thread_pool.c:154 | a signal turns one sleeper into an awake worker if anyone sleeps, and changes nothing otherwise |
| ThreadPoolShrink.LosesAWakeup | thread/thread_pool/thread_pool.c:171-275 | every pool that can grow has a run after which a task is queued, the woken worker has left on order, nobody is awake and no producer and no manager has a signal to send; with two workers or more others sleep meanwhile |
| ThreadPoolWakeups.TasksDesertedExactly | thread/thread_pool/thread_pool.c:129-275 | no run leaves a queued task without an awake worker or a due signal exactly when nobody adds tasks, or `min_thr_num > 0` and the pool has a fixed size or a queue with room for fewer than `MIN_WAIT_TASK_NUM` tasks |
| ThreadPoolWakeups.WakeupsLostExactly | thread/thread_pool/thread_pool.c:129-275 | no run does so while another worker sleeps exactly when the pool has a fixed size, such a queue, no users, or at most one worker |
| ThreadPoolWakeups.SafePoolsStayCovered | thread/thread_pool/thread_pool.c:133-275 | in a pool as WakeupsLostExactly names them queued tasks are covered by awake workers and due signals whenever some sleep, up to a shutdown, and one that cannot grow keeps its first size |
| ThreadPoolWakeups.NoLostWakeup | thread/thread_pool/thread_pool.c:133-206 | a producer sleeps only while the queue is full or a broadcast is due; no task is deserted before a shutdown in a pool as TasksDesertedExactly names them, nor in any other with a worker left until the manager orders workers to exit |
| ThreadPoolService.AcceptedTasksCanBeRun | thread/thread_pool/thread_pool.c:129-226 | in a pool as TasksDesertedExactly names them every reachable state before a shutdown has a continuation, without spurious wake-ups, in which every task accepted so far is run |
| ThreadPoolHistory.TasksAreTheCallers | thread/thread_pool/thread_pool.c:129-158 | in every run a producer inside a call holds the task it called with, and the accepted tasks are those of the calls in the order of the puts: before a shutdown all of them, once each and in the order of each producer's calls, but for those still being added; the pool conserves them |
| ThreadPoolHistory.TenLeaveOnAnOrder | thread/thread_pool/thread_pool.c:176-187 | after an order to exit at most ten workers make the test of line 180, a woken one goes on to it exactly while fewer than ten have since the order, and it leaves exactly if more than `min_thr_num` workers are there |
| ThreadPoolHistory.PassesFollowSnapshots | thread/thread_pool/thread_pool.c:232-276 | in every run each pass of the manager grows the pool exactly if the queue size and live count it saw ask for it, by at most ten, orders workers to exit exactly if the busy and live counts it saw do, and then signals ten times |
| ThreadPoolHistory.GrowthEndsExactly | thread/thread_pool/thread_pool.c:247-259 | growth ends exactly when ten workers were added, the pool is full or every slot was looked at; until then each round puts a new worker in the next slot exactly if no existing thread is in it |
| ThreadPoolHistory.ShutdownEnds | thread/thread_pool/thread_pool.c:133-282 | after a shutdown, whatever the schedule, no worker executes more than eight statements and no call more than three, the manager finishes its pass, at most one more task is accepted and one more taken |
| ThreadPoolHistory.MovesExactly | thread/thread_pool/thread_pool.c:129-281 | in every reachable state a thread can go on exactly if it does not sleep, has not ended and does not wait for the lock while it is taken |
| ThreadPoolHistory.QuietIsOver | thread/thread_pool/thread_pool.c:129-281 | where no thread can go on but by a new call, there was a shutdown, the manager has finished, the lock is free, and every worker has left or sleeps |
| GrowthPass.ThreadTable.Grow | thread/thread_pool/thread_pool.c:247-258 | a pass adds exactly the least of `DEFAULT_THREAD_VARY`, the room below the maximum and the usable slots, puts every new thread in a slot of its own and touches no slot of a live one |
| TimerSpec.InsertIsSorted | timer/timer_list/timer_list.cpp:32-50 | inserting before the first node that expires no earlier keeps the list sorted |
| TimerSpec.InsertAdds | timer/timer_list/timer_list.cpp:15-50 | inserting adds that timer and no other |
| TimerSpec.RemoveTakes | timer/timer_list/timer_list.cpp:52-74 | deleting takes out that timer and no other |
| TimerSpec.AdjustIsSortedExactly | timer/timer_list/timer_list.cpp:77-98 | adjusting leaves the list sorted exactly when the new deadline is not before that of the timer in front |
| TimerSpec.AdjustPermutes | timer/timer_list/timer_list.cpp:77-98 | adjusting moves the one timer towards the tail and leaves all others in order |
| TimerSpec.DueIsExact | timer/timer_list/timer_list.cpp:101-117 | on a sorted list the timers a tick takes are exactly those whose expiry is at most now |
| TimerRuns.ListIsRight | timer/timer_list/timer_list.cpp:15-117 | after any sequence of adds, deletes, lengthenings and ticks the list is sorted and holds exactly the timers that the operations leave, with the deadline last set for each; the timers called back are exactly those whose deadline a tick has met, each once |
| TimerRuns.TickIsInOrder | timer/timer_list/timer_list.cpp:101-117 | after any operations a tick calls back in the order of the deadlines, and none that is not due |
| TimerRuns.OperationsExactly | timer/timer_list/timer_list.cpp:15-117 | and an operation can be made exactly if its timer is new, or listed and not to be set to an earlier deadline |
| LinkedTimers.TimerList.AddTimer | timer/timer_list/timer_list.cpp:15-30 | links the timer in: forward and back links, head and tail agree, and the list is the old one with the timer inserted in order; a null timer changes nothing |
| LinkedTimers.TimerList.AddFrom | timer/timer_list/timer_list.cpp:32-50 | the same from a given node on |
| LinkedTimers.TimerList.Search | timer/timer_list/timer_list.cpp:33-38 | finds the first node from there on that expires no earlier |
| LinkedTimers.TimerList.DeleteTimer | timer/timer_list/timer_list.cpp:52-74 | takes the node out, whether head, tail, both or neither, and keeps the links of the rest |
| LinkedTimers.TimerList.DropMiddle | timer/timer_list/timer_list.cpp:70-71 | a node between two others goes out of both chains |
| LinkedTimers.TimerList.Adjust | timer/timer_list/timer_list.cpp:77-98 | a node whose deadline was set anew moves to its place; the same nodes remain |
| LinkedTimers.TimerList.Tick | timer/timer_list/timer_list.cpp:101-117 | calls back exactly the due prefix of the list, in order, once each, deletes it and terminates |
| LinkedTimers.TimerList.AddFromAsWritten | timer/timer_list/timer_list.cpp:32-50 | as written a list is left exactly when the timer goes behind the tail with a null `_next`; otherwise the nodes form a cycle |
| LinkedTimers.TimerList.AddTimerAsWritten | timer/timer_list/timer_list.cpp:15-30 | as written, on a sorted list, a list is left exactly when the timer goes into an empty list or behind the tail |
| LinkedTimers.TimerList.AdjustAsWritten | timer/timer_list/timer_list.cpp:77-98 | as written a list is left exactly when the timer need not move |
| TimerServer.ConnectionsAndTimersAgree | timer/timer_list/main.cpp:91-151 | the open connections are those that the events leave open, in one-to-one correspondence with the timers; each timer stands three slots after the last accept of or data from its descriptor; every accepted connection is open or was closed once |
| TimerServer.ClosedExactlyWhenIdle | timer/timer_list/main.cpp:154-158 | after an alarm the end of the batch closes an open connection exactly when its last accept or data was `3 * TIMESLOT` ago or longer |
| TimerServer.IdleConnectionsEnd | timer/timer_list/main.cpp:101-158 | with ticks at most `TIMESLOT + d` apart no connection whose last accept or data is `4 * TIMESLOT + d` ago is open |
| TimerServer.RunIsTold | timer/timer_list/main.cpp:79-159 | in every run the events alone determine the open connections, when each was last heard of, the clock, the last tick, `timeout`, `stop_server` and whether the loop goes on |
| TimerServer.EventHappensExactly | timer/timer_list/main.cpp:79-159 | an event can happen exactly if no batch has ended since a SIGTERM, its descriptor is open, or not yet for an accept, and its time is not before the last one |
| TimerServer.RunKeepsInv | timer/timer_list/main.cpp:79-159 | the list stays sorted and distinct, its timers those of the open connections, after any events |
| TimerServer.RecordedDescriptorMatters | timer/timer_list/main.cpp:34-39 | a close keeps connections and timers in agreement exactly when the recorded descriptor is the connection's own |
| TimerServerLoop.Server.RecordTimer | timer/timer_list/main.cpp:100-103 | the new timer and the connection's record point at each other, and all others still do |
| TimerServerLoop.Server.OnAccept | timer/timer_list/main.cpp:91-104 | accepting is the specified step over the linked list |
| TimerServerLoop.Server.OnData | timer/timer_list/main.cpp:145-151 | data renews the timer as specified; all pairs stay |
| TimerServerLoop.Server.OnHangup | timer/timer_list/main.cpp:136-144 | a read error or the client closing removes connection and timer together |
| TimerServerLoop.Server.OnEndOfBatch | timer/timer_list/main.cpp:154-158 | expiry removes the due connections and their timers together |
| TimerServerLoop.Server.HandleAll | timer/timer_list/main.cpp:88-152 | all events of a batch are handled as specified, also those after a SIGTERM |
| TimerServerLoop.Server.Serve | timer/timer_list/main.cpp:79-159 | the whole event loop over the linked list is the specified run, with the pairing kept throughout; it leaves after the batch in which `stop_server` was set or when epoll_wait fails, and not before |
| TimerServerLoop.SameAdjust | timer/timer_list/timer_list.cpp:77-98 | adjusting commutes with naming nodes by their connection |
| TimerServerLoop.TickByName | timer/timer_list/main.cpp:34-39 | the descriptors closed by a tick are those of the timers taken, and the remaining pairs stay |
| WheelSpec.NewTimerIsExact | timer/timer_wheel/timer_wheel.cpp:19-27 | slot and round together encode the number of ticks |
| WheelSpec.TurnIsExact | timer/timer_wheel/timer_wheel.cpp:61-76 | a turn by one slot brings every timer exactly one tick nearer, and zero is the current slot in round 0 |
| WheelSpec.AddRefines | timer/timer_wheel/timer_wheel.cpp:10-37 | adding puts one timer `timeout / SI` ticks away into the bag and changes no other; a negative timeout adds nothing |
| WheelSpec.TickFires | timer/timer_wheel/timer_wheel.cpp:61-76 | a tick fires exactly the timers with no ticks to go |
| WheelSpec.TickRefines | timer/timer_wheel/timer_wheel.cpp:61-76 | and lowers every other timer by exactly one |
| WheelSpec.DeleteRefines | timer/timer_wheel/timer_wheel.cpp:39-54 | deleting removes one timer and leaves the others where they are |
| WheelSpec.AddKeepsDistinct | timer/timer_wheel/timer_wheel.cpp:28-36 | no timer is in the wheel twice, after an add |
| WheelSpec.TickKeepsDistinct | timer/timer_wheel/timer_wheel.cpp:61-76 | nor after a tick |
| WheelSpec.FiredNoDuplicates | timer/timer_wheel/timer_wheel.cpp:70-73 | no timer fires twice in a tick |
| WheelRuns.FiresOnTime | timer/timer_wheel/timer_wheel.cpp:10-76 | over any run a timer that is not deleted fires on precisely the tick that the ticks before its add and its timeout ask for, once, within a tick the latest added first, and until then waits with exactly the missing ticks |
| WheelRuns.MovesExactly | timer/timer_wheel/timer_wheel.cpp:10-76 | a timer can be added exactly if it is new, and deleted exactly from its add until the tick it asks for; the wheel can always tick |
| WheelRuns.RunIsAsked | timer/timer_wheel/timer_wheel.cpp:10-76 | after any adds, deletes and ticks every timer waits, has fired or was deleted, and the wheel's record of ticks, due times and deletions is what the moves ask for |
| LinkedWheel.TimerWheel.constructor | timer/timer_wheel/timer_wheel.h:53-58 | a new wheel stands at slot 0 with empty buckets |
| LinkedWheel.TimerWheel.AddTimer | timer/timer_wheel/timer_wheel.cpp:10-37 | links the timer at the front of its bucket; the pointers represent the specified wheel |
| LinkedWheel.TimerWheel.DeleteTimer | timer/timer_wheel/timer_wheel.cpp:39-54 | unlinks the timer from its bucket, all other buckets untouched |
| LinkedWheel.TimerWheel.OnlyTimerHasNoNeighbour | timer/timer_wheel/timer_wheel.cpp:43-46 | line 46 meets a null pointer exactly when the timer is alone in its bucket |
| LinkedWheel.TimerWheel.TickBucket | timer/timer_wheel/timer_wheel.cpp:61-76 | the loop over the current bucket, which deletes as it goes, calls back exactly the timers in round 0, in order, and lowers the others |
| LinkedWheel.TimerWheel.TickAndTurn | timer/timer_wheel/timer_wheel.h:71 | with the turn to the next slot it is the specified tick |
| LinkedWheelRuns.SameTick | timer/timer_wheel/timer_wheel.cpp:61-76 | ticking commutes with naming the nodes by their clients, and fires the same clients in the same order |
| LinkedWheelRuns.Clock.Run | timer/timer_wheel/timer_wheel.cpp:10-76 | any sequence of adds, deletes and ticks on the linked wheel is the specified run |
| LinkedWheelRuns.Play | timer/timer_wheel/timer_wheel.cpp:10-76 | over any run from a new linked wheel each timer that is not deleted is called back once, on precisely the tick its timeout asks for, the latest added first within a tick, and none before |
| WheelAsWritten.SlotIsRightExactly | timer/timer_wheel/timer_wheel.cpp:19-27 | the written slot is the meant one exactly when the wheel is at slot 0 or the timer is a round away and its slot does not lie past the end; and when it is out of range |
| WheelAsWritten.StandingFires | timer/timer_wheel/timer_wheel.cpp:61-76 | a wheel that never turns calls back the timers of one slot, after as many ticks as they have rounds, and no others |
| WheelAsWritten.StandingIsRightExactly | timer/timer_wheel/timer_wheel.cpp:10-76 | as written a new timer fires on its tick and only then exactly when that is the next tick or there is a single slot |
| WheelAsWritten.TickFailsExactly | timer/timer_wheel/timer_wheel.cpp:39-76 | as written a tick dereferences null exactly when it would call back all timers of a bucket that is not empty |
| CgiScanner.AsksForTheFirstLine | process/CGI_server/cgi_server.h:41-93 | however the stream is cut, the server asks only for the name before the first CRLF of the stream, only if that ends within `BUFFER_SIZE - 1` bytes, and before that no CRLF is in the buffer |
| CgiScanner.ChunkingDoesNotMatter | process/CGI_server/cgi_server.h:41-93 | two ways to cut a stream never ask for different programs |
| CgiScanner.OutcomeIsExact | process/CGI_server/cgi_server.h:41-93 | with enough recvs and no failure the stream alone decides: asked exactly when its first CRLF ends within the buffer, dropped exactly when the buffer is full without one and there is more, waiting otherwise |
| CgiScanner.EveryRecvHelps | process/CGI_server/cgi_server.h:45-68 | each recv that gives bytes brings the connection nearer to one of these |
| CgiScanner.RepliesDecide | process/CGI_server/cgi_server.h:41-93 | whatever recv gives, failures and hangups included: a program is asked for exactly if the first CRLF is in what was offered and fits; else the connection is dropped exactly if the client closed, a recv failed or the buffer overran; else it has received all that was offered |
| CgiScanner.CStringStops | process/CGI_server/cgi_server.h:69-72 | the zero written over the CR ends the name that `access` and `execl` read |
| CgiScanner.CgiConn.constructor | process/CGI_server/cgi_server.h:32-39 | a new connection has received nothing |
| CgiScanner.CgiConn.Find | process/CGI_server/cgi_server.h:62-64 | resuming at the old `read_index` finds the first CRLF that ends in the new bytes |
| CgiScanner.CgiConn.FileName | process/CGI_server/cgi_server.h:69-72 | the file asked for is the text before the CRLF, up to a zero in it |
| CgiScanner.CgiConn.Process | process/CGI_server/cgi_server.h:41-93 | one call does what the specification says for the replies it uses, and stops only at EAGAIN, at the end of the connection or of the stream |
| CgiScanner.CgiConn.Serve | process/processpool/processpool.h:241-243 | any number of calls of `process` on one connection amount to one run over the stream |
| Stacks.NothingLostOrDoubled | process/semaphore/produecr_consumer/main.c:22-51 | a last-in first-out history hands out each value put in at most once, and loses none |
| SemaphoreBuffer.LastInFirstOut | process/semaphore/produecr_consumer/main.c:22-51 | values come out last-in first-out; outside the mutex the first slots hold the values not yet consumed, the rest are clear, and `i` is their number modulo `MAX`, although 0 means empty and full |
| SemaphoreBuffer.HandsOverLikeAStack | process/semaphore/produecr_consumer/main.c:22-51 | in every run the values handed over are those that an ideal stack hands over to the same stores and reads, in the same order |
| SemaphoreBuffer.TokensAddUp | process/semaphore/produecr_consumer/main.c:25-47 | `empty_sem`, `full_sem` and the threads holding a token sum to `MAX` |
| SemaphoreBuffer.StuckExactly | process/semaphore/produecr_consumer/main.c:22-51 | nobody can move exactly when the buffer is full and there is no consumer, or empty and there is no producer |
| SemaphoreBuffer.ProducerKeepsIndex | process/semaphore/produecr_consumer/main.c:27-30 | through store, increment and wrap `i` names the top of the stack |
| SemaphoreBuffer.ConsumerKeepsIndex | process/semaphore/produecr_consumer/main.c:43-45 | through unwrap, read and clear likewise |
| ConditionBuffer.LastInFirstOut | thread/synchronization/condition_val/producer_consumer.c:23-59 | values come out last-in first-out, and outside the mutex `i == count`, the number of values in the buffer |
| ConditionBuffer.HandsOverLikeAStack | thread/synchronization/condition_val/producer_consumer.c:23-59 | in every run the values handed over are those of an ideal stack under the same stores and reads |
| ConditionBuffer.WrapsNeverMatter | thread/synchronization/condition_val/producer_consumer.c:29-53 | the modulus in the producer and the zero branch in the consumer never change anything |
| ConditionBuffer.NotEverybodySleeps | thread/synchronization/condition_val/producer_consumer.c:26-56 | no value waits with all consumers asleep and no signal due, no room with all producers asleep, and with both kinds not everybody sleeps, despite single signals and spurious wake-ups |
| ConditionBuffer.StuckExactly | thread/synchronization/condition_val/producer_consumer.c:23-59 | only a spurious wake-up can happen exactly when everybody sleeps, which needs a full buffer with no consumer or an empty one with no producer |
| ConditionBuffer.ProducerKeepsServed | thread/synchronization/condition_val/producer_consumer.c:26-35 | a producer's move leaves no sleeper without somebody to serve it |
| ConditionBuffer.ConsumerKeepsServed | thread/synchronization/condition_val/producer_consumer.c:44-56 | nor does a consumer's |
| ConditionBuffer.RunKeepsInv | thread/synchronization/condition_val/producer_consumer.c:19-70 | mutex, `count`, `i`, slots and wait sets stay consistent after any schedule |
| Counter.OvershootIsBounded | thread/synchronization/mutex/main.c:22-51 | with N threads `i` plus the threads past the test never exceeds 99 + N |
| Counter.EveryRunEnds | thread/synchronization/mutex/main.c:22-54 | every run ends, within a bound on its length, with all threads done and `100 <= i <= 99 + N` |
| Counter.FinalValuesExactly | thread/synchronization/mutex/main.c:22-54 | the values that can be left are exactly 100 to 99 + N: for the program as it stands 100 and 101 |
| ReactorSpec.RegistrationAgrees | unix网络编程/IO多路复用/epoll/reactor/server.c:27-172 | between callbacks the kernel's interest in each open descriptor is that of its one registered slot and fits its callback; the listener's slot is never reused |
| ReactorSpec.EchoIsExact | unix网络编程/IO多路复用/epoll/reactor/server.c:79-132 | what was sent plus what is pending is the upper case of all that was received exactly when no send fell short |
| ReactorHistory.ReportsDecide | unix网络编程/IO多路复用/epoll/reactor/server.c:79-172 | in every run the reports answered determine the state: the server stops exactly at the first failing accept, recv or send or the client that finds MAX_EVENTS connected; else the open descriptors are those accepted and not closed, and each slot has received, been sent, lost and has pending exactly what the reports on its descriptor say; the ended connections are those of the closing clients |
| ReactorHistory.CloseIsAnswered | unix网络编程/IO多路复用/epoll/reactor/server.c:115-116 | in every run, when the client of a connection that waits to be read closes it, descriptor, interest and slot are given back, it joins the ended connections with its history, every other slot and interest stays, and the server goes on |
| ReactorHistory.ClientsAreEchoed | unix网络编程/IO多路复用/epoll/reactor/server.c:79-132 | by the reports alone: what a client was sent, with what is pending, is the upper case of all it said exactly when no send to it fell short, also for a client that has closed |
| ReactorHistory.AnswersExactly | unix网络编程/IO多路复用/epoll/reactor/server.c:79-172 | a callback can be called exactly for a new descriptor at the listener, for a client with nothing pending that speaks, closes or fails, and for one with something pending that takes up to all of it |
| ReactorHistory.FullExactly | unix网络编程/IO多路复用/epoll/reactor/server.c:152-160 | the table has no free slot exactly when MAX_EVENTS connections are open beside the listener |
| ReactorSpec.RearmSucceeds | unix网络编程/IO多路复用/epoll/reactor/server.c:27-76 | deleting, setting and adding again always takes the ADD branch, and succeeds |
| ReactorSpec.AcceptIsRegistered | unix网络编程/IO多路复用/epoll/reactor/server.c:135-172 | in every run a new connection is registered exactly when there is room: in a slot that was free, waiting for its client, every other slot and interest unchanged |
| ReactorSpec.StepKeepsInv | unix网络编程/IO多路复用/epoll/reactor/server.c:79-172 | every callback keeps table, interest list and echo consistent, and the server stops exactly where accept, recv or send fails or the table is full |
| ReactorSpec.AsWrittenStopsExactly | unix网络编程/IO多路复用/epoll/reactor/server.c:100-132 | as written the server also stops when a client closes, and does what is meant exactly as long as none does |
| ReactorSpec.OthersStay | unix网络编程/IO多路复用/epoll/reactor/main.c:42-60 | a callback leaves the slots that the rest of the batch points to as they are |
| ReactorServer.Server.constructor | unix网络编程/IO多路复用/epoll/reactor/server.c:174-203 | the listener in its slot at the end of an empty table |
| ReactorServer.Server.ToUpper | unix网络编程/IO多路复用/epoll/reactor/server.c:119-120 | the received bytes in upper case, the rest of the buffer as it was |
| ReactorServer.Server.RecvData | unix网络编程/IO多路复用/epoll/reactor/server.c:100-132 | the callback in place is the specified step |
| ReactorServer.Server.SendData | unix网络编程/IO多路复用/epoll/reactor/server.c:79-97 | likewise |
| ReactorServer.Server.Free | unix网络编程/IO多路复用/epoll/reactor/server.c:156-160 | finds the first slot that is not registered, if any below the listener's |
| ReactorServer.Server.AcceptConnect | unix网络编程/IO多路复用/epoll/reactor/server.c:135-172 | the callback in place is the specified step |
| ReactorServer.Server.Dispatch | unix网络编程/IO多路复用/epoll/reactor/main.c:42-60 | a whole batch, dispatched on the slots epoll_wait gave back, is the specified run: no entry has gone stale when its turn comes |

## Left out

- ReaderWriter: each writer's private text and index (lines 60-62 and 66) are any characters; the capacity of the shared buffer, which line 66 does not check, is unbounded here.
- TaskQueue.AddAfterShutdownKeepsRing: what two adds after a shutdown do to each other, which run lines 142-151 without the lock, and the unlocking in line 155 of a mutex that is not held.
- ThreadPool: the pool's teardown, the freeing of old arguments in 143-147 and failures of allocation or thread creation; arguments are plain values. A thread's termination is a move of its own.
- ThreadPoolWakeups.NoLostWakeup: says nothing of a pool outside the conditions once the manager has ordered workers to exit, because it is false then; see TasksDesertedExactly. A task counts as deserted although another add, another pass of the manager or a spurious wake-up may still repair it.
- GrowthPass.ThreadTable.Grow: which thread ids are alive is an input that stays the same during the pass; in the step system threads may end between any two rounds.
- LinkedTimers: the destructor, and what a callback does with its argument; nodes are garbage, not freed.
- LinkedTimers.TimerList.AddTimer: the caller passes a timer with null links that is in no list; with stale links see AddTimerAsWritten.
- TimerServerLoop.Server.TickAndClose: the callbacks, which do not touch the list, run after the walk over it rather than during it.
- TimerServer: sockets and pipes themselves, a failing accept, and the limit on descriptors.
- LinkedWheel: the callback and client data, which `addTimer` never sets; a timer carries a number for them, and is allocated by AddTimer.
- WheelSpec: `adjust`, which is empty.
- CgiScanner: what follows a request for a program (access, fork, exec), which ends the connection in every case; a program may change nothing in the parent. A recv into a full buffer gives zero bytes if there are more, and EAGAIN otherwise.
- SemaphoreBuffer: printing and sleeping; `empty_sem` starts at MAX, where the source writes 5 for both.
- ConditionBuffer: printing and sleeping.
- Counter: reads and writes of `i` are single accesses, also the test outside the lock.
- ReactorSpec: `last_active`, which is never read, and `arg`, which is never set; a report with neither EPOLLIN nor EPOLLOUT calls nothing. Line 121 writes one byte past a full buffer, into `datalen`, which line 122 then sets.
- Fairness and real time: progress says that somebody can move, not that everybody eventually does.
- The second thread pool, the process pool's dispatch, the poll, select and other epoll servers, and the demonstrations of single system calls: little state beyond what is modelled here.
