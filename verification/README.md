# SmartRoutine, verified

A Dafny model of the coroutine runtime SmartRoutine: the worker's scheduler with its one-place
"delayed callback" slot, the two-level task queue, the epoll thread and the operations parked on it,
the incremental delimiter search of `smart_read_until`, the byte buffer, and the timer thread.
`dafny verify dfyconfig.toml` checks everything.

## How it is organised

| file | content |
|---|---|
| `BoundedQueue.dfy` | the ring buffer as a class, against a bounded FIFO sequence |
| `TaskQueues.dfy` | `push_task`/`get_task` of any number of workers over the global list, on values |
| `Scheduler.dfy` | one worker, the epoll thread and outside callers as a step system; its invariant |
| `SchedulerRuns.dfy` | safety and lifecycles over every run |
| `SchedulerLosses.dfy` | the exact account of what the slot forgets |
| `SchedulerProgress.dfy` | the scheduler's queues are a run of `TaskQueues`; when a delayed action takes effect; who can run again |
| `SmartThread.dfy` | `SmartRuntime` and `SmartThread` as classes whose methods are the scheduler's steps |
| `DelimiterSearch.dfy`, `ReadUntil.dfy`, `ReadUntilContext.dfy` | `partial_search`, the search cache, the callback on the real buffer |
| `DynamicBuffer.dfy` | the byte FIFO with compaction as a class |
| `Operations.dfy`, `TransferContexts.dfy` | the callbacks of the five parked operations; read and write contexts as classes |
| `Epoll.dfy`, `EventLoop.dfy` | items and the kernel's interest table; the epoll thread over any number of operations |
| `JointRuns.dfy` | worker and epoll thread in one run: the epoll thread is the environment the scheduler assumes |
| `SmartTimer.dfy` | the timer heap with its cached nearest expiry, over every run, and as a class |

Runs are lists of steps; a step that is not enabled where it comes up does nothing, so a statement
about every list is a statement about every run. In the scheduler, a jump to the current stack or to a
context that is not saved, or a `delete` of a stack that is unfinished or in use, leads to a phase `Wild`; that it is never
reached is a theorem, not an assumption. Threads interleave between any two steps; each
operation under a lock, each `epoll_ctl` together with its flag, and "disable, then push" are atomic.

Properties one would expect that the code does not have are kept as the code has them, with a
counterexample and the exact condition:

- A yielding coroutine is not always resumed. The slot is drained on entry to a fresh coroutine and on
  return to `main_loop`, but not when `yield` resumes a suspended coroutine, so the next yield or
  finish overwrites it (`TwoYieldersLoseOne`, `LostForever`; exactly when: `StepLosesIff`, `RunLosesNothingIff`; who can
  still run at such a moment: `CanRunAgainIff`).
- `get_task` loses tasks iff the batch size exceeds the queue length (`LosslessIffBatchFits`).
- `partial_search` decides containment iff the delimiter is not empty (`SearchDecidesIffNonEmpty`).
- A second item on a descriptor is never called back, though it believes to be watched
  (`SecondOnDescriptorIsDeaf`, `UnregisteredWaitsForever`; exactly when: `ArmRegistersIffFree`).
- A write all of whose bytes were taken has resumed, iff there was a byte to write
  (`WriteResumesWhenSentIffNonEmpty`; with none only an error resumes it, `EmptyWriteResumesOnlyOnError`).
- `append` does not keep to its block, in two ways. It accepts up to the maximum but never enlarges the
  block (`AcceptedButDoesNotFit`); and compaction raises `capacity_` above the block, after which an
  append in place is not checked against it (`CompactionRaisesCapacity`, `RaisedCapacityOverruns`).
  `InBlockIff` is the exact condition in every state, `SeriesStaysInBlockIff` for a series of appends,
  and `StreamStaysInBlockIff` for a whole `smart_read_until`.
- `pop` on an empty queue leaves a state without meaning unless the capacity is 1 (`Pop`).

## Model

| member | source | states |
|---|---|---|
| BoundedQueues.BoundedQueue.Push | include/common/bounded_queue.h:11-18 | appends to the queued sequence iff it is shorter than the capacity, otherwise changes nothing; indices wrap around and never overflow `uint32_t` |
| BoundedQueues.BoundedQueue.Pop | include/common/bounded_queue.h:22-28 | removes the oldest element and nothing else; unguarded on an empty queue, where the state stays meaningful iff the capacity is 1 |
| BoundedQueues.BoundedQueue.Empty | include/common/bounded_queue.h:19 | true iff nothing is queued, also when head equals tail |
| BoundedQueues.BoundedQueue.Full | include/common/bounded_queue.h:20 | true iff `capacity` elements are queued, also when head equals tail |
| BoundedQueues.BoundedQueue.Front | include/common/bounded_queue.h:21 | the oldest queued element |
| TaskQueues.TakeConserves | src/smart_thread.cpp:105-119 | `get_task` returns, keeps or loses each task exactly as often as it was queued |
| TaskQueues.NullIffNothingToTake | src/smart_thread.cpp:105-119 | null iff the local queue is empty and the global list is too (or the batch size is 0) |
| TaskQueues.Put | src/smart_thread.cpp:121-126 | a push goes to the back of the local queue or, exactly when that is full, to the back of the global list; nothing else changes |
| TaskQueues.RunConserves | src/smart_thread.cpp:105-126 | for any number of workers and every sequence of pushes and gets, each task is handed out, queued or lost as often as it was pushed |
| TaskQueues.LosslessIffBatchFits | src/smart_thread.cpp:107-114 | no run loses a task iff batch size <= queue length |
| TaskQueues.QueuedComesOutInTurn | src/smart_thread.cpp:105-126 | the task at index k of a worker's queue is what the (k+1)-th later `get_task` of that worker returns, whatever happens in between |
| TaskQueues.PushedComesOutInTurn | src/smart_thread.cpp:121-126 | for any number of workers, a task a worker pushes comes out of its own queue after exactly what was queued there; if that is full, it is the new end of the global list |
| TaskQueues.RefilledComesOutInTurn | src/smart_thread.cpp:105-119 | for any number of workers, a batch leaves the front of the global list and comes out of the refilling worker's own queue in the list's order, as far as it fits |
| TaskQueues.OthersLeaveTheQueue | src/smart_thread.cpp:105-126 | no operation of other workers or outsiders changes a worker's queue |
| TaskQueues.TwoLevelsAreOneFifo | src/smart_runtime.cpp:64-83 | one worker fed from outside: dispatched ++ local queue ++ global list is the push history |
| Scheduler.DispatchIsSafe | src/smart_thread.cpp:78-83 | what `get_task` hands the scheduler is a fresh or saved context, is not the asking stack and is queued nowhere else |
| SchedulerRuns.NeverWild | src/smart_thread.cpp:17-103 | no run jumps to the current stack or to an unsaved context (main_loop's included) or frees an unfinished, freed or current stack |
| SchedulerRuns.AtMostOnePlace | src/smart_thread.cpp:17-103 | in every run each coroutine is in at most one of current, local queue, global list, slot, armed item; in exactly one iff it is alive and not lost |
| SchedulerRuns.PublishedCanBeResumed | src/internal/smart_routine_impl.cpp:143-166 | whatever is queued or armed has its context saved and is not running |
| SchedulerRuns.LifecycleIsFollowed | src/smart_thread.cpp:17-103 | every step moves a coroutine only along fresh, running, suspended, finished, freed; freeing happens once, after its function returned, on another stack |
| SchedulerRuns.LostForever | src/smart_thread.cpp:72-85 | a lost coroutine is never executed, queued, armed or freed again in any continuation |
| SchedulerLosses.FatesFollowTheSwitches | src/smart_thread.cpp:19-31 | the actions performed and the actions overwritten are, in order, those that the kinds of switches determine |
| SchedulerLosses.SlotFullIffResumedByCoroutine | src/smart_thread.cpp:72-85 | in user code the slot is full iff the last switch went from a coroutine's stack into a suspended coroutine |
| SchedulerLosses.StepLosesIff | src/smart_thread.cpp:17-85 | a step of any run loses a coroutine iff it stores into the slot after such a switch, arms a watched descriptor, or refills beyond the queue's length |
| SchedulerLosses.RunLosesNothingIff | src/smart_thread.cpp:17-85 | a whole run loses no coroutine iff none of its steps is in one of those situations |
| SchedulerLosses.StoredActionsHaveOneFate | src/smart_thread.cpp:19-31 | each delayed callback ever stored is exactly once performed, overwritten or still in the slot |
| SchedulerLosses.TwoYieldersLoseOne | src/smart_routine.cpp:19-25 | with default flags, two coroutines that do nothing but yield lose one at the third yield; the run is given step by step |
| SchedulerProgress.QueuesAreTwoLevels | src/smart_thread.cpp:55-126 | in every run both queues, the coroutines switched to and those dropped are those of the two-level queue fed by starts, requeues and completed operations |
| SchedulerProgress.StartedIsQueued | src/smart_routine.cpp:14-32 | in every run, a coroutine started from user code is new and goes to the end of the worker's own queue, or of the global list if that is full |
| SchedulerProgress.DelayedActionTakesEffect | src/internal/smart_routine_impl.cpp:143-156 | in every run, around any steps of other threads: after a yield, parking or finish and the switch, the drain queues the coroutine again, arms its own descriptor for it, or frees it; without a drain the action is still in the slot |
| SchedulerProgress.CanRunAgainIff | src/smart_thread.cpp:72-85 | whenever a coroutine runs user code, another one can ever run again iff it is queued or armed; one in the slot is already doomed (0 < batch size <= queue length) |
| SchedulerProgress.QueuedOrArmedCanRun | src/smart_thread.cpp:55-119 | from every state of every run there is a continuation that runs any coroutine that is queued or armed (0 < batch size <= queue length) |
| SmartThreads.SmartRuntime.PushTask | src/smart_runtime.cpp:64-69 | appends to the global list |
| SmartThreads.SmartRuntime.GetTasks | src/smart_runtime.cpp:71-83 | splices off the longest prefix of at most the batch size and reports its length |
| SmartThreads.SmartThread.PushTask | src/smart_thread.cpp:121-126 | the ring buffer and list afterwards are those of the scheduler's push |
| SmartThreads.SmartThread.GetTask | src/smart_thread.cpp:105-119 | task, ring buffer, list and losses are those of the scheduler's get |
| SmartThreads.SmartThread.Refill | src/smart_thread.cpp:112-114 | the queue holds the first tasks up to its capacity, the rest is lost |
| SmartThreads.SmartThread.StartTask | src/smart_routine.cpp:14-17 | a fresh coroutine is created and pushed |
| SmartThreads.SmartThread.Store | src/smart_thread.cpp:74-77 | the slot holds the new action; an old one is lost |
| SmartThreads.SmartThread.BeginYield | src/smart_routine.cpp:19-25 | is the step `UserYield` |
| SmartThreads.SmartThread.BeginPark | src/smart_routine.cpp:55 | is the step `UserPark` |
| SmartThreads.SmartThread.Finish | src/smart_thread.cpp:28-31 | is the step `UserReturn`: the finished stack goes on in `main_loop` with its own destruction in the slot |
| SmartThreads.SmartThread.SwitchTo | src/smart_thread.cpp:95-103 | saves the current context, continues the target at entry or where it was suspended |
| SmartThreads.SmartThread.SwitchAway | src/smart_thread.cpp:55-63 | is the step `SwitchAway` and keeps the invariant |
| SmartThreads.SmartThread.RunCallback | src/internal/smart_routine_impl.cpp:143-156 | the delayed action's effect on queue, interest table or stack |
| SmartThreads.SmartThread.DrainDelayed | src/smart_thread.cpp:64-68 | is the step `Drain` |
| SmartThreads.SmartThread.OutsideStart | src/smart_routine.cpp:27-32 | outside a worker a fresh coroutine goes to the global list |
| SmartThreads.SmartThread.IoComplete | src/internal/smart_routine_impl.cpp:158-166 | the descriptor leaves the table, its coroutine enters the global list |
| DelimiterSearch.PartialSearch | src/internal/smart_routine_impl.cpp:122-141 | the nested loops compute the specified search; no index wraps or leaves the buffer, for lengths below 2^32 |
| DelimiterSearch.SearchIsExact | src/internal/smart_routine_impl.cpp:122-141 | Match iff the delimiter occurs, at its first occurrence; PartialMatch iff it does not and some suffix is a proper prefix of it, at the earliest; NotMatch otherwise |
| DelimiterSearch.SearchDecidesIffNonEmpty | src/internal/smart_routine_impl.cpp:127-138 | Match coincides with containment on all buffers iff the delimiter is not empty |
| ReadUntil.ChunkIsSearchedExactly | src/internal/smart_routine_impl.cpp:81-109 | after any stored chunk: found iff the whole readable section contains the delimiter, at `last_search_end_` plus the index; otherwise the cache stays sound |
| ReadUntil.WhileWaiting | src/internal/smart_routine_impl.cpp:74-120 | until the operation ends the buffer is initial contents plus stream, `ret_` is the stream's length and the cache is sound |
| ReadUntil.ResumesExactlyWhenFound | src/internal/smart_routine_impl.cpp:74-120 | the operation resumes at callback k iff k is the first that fails, hits end of file, overflows the buffer or completes the delimiter in the whole stream |
| ReadUntil.ReturnIsStreamLength | src/internal/smart_routine_impl.cpp:81-117 | the caller gets the stream's length, or -1 after an error or a rejected chunk; the error code is set iff a chunk was rejected |
| ReadUntil.MatchIsFirst | src/internal/smart_routine_impl.cpp:89-100 | on a match, `last_search_end_` plus the index is the first occurrence in initial contents plus stream |
| ReadUntil.LittleFollowsMatch | src/internal/smart_routine_impl.cpp:75-80 | if the initial contents lack the delimiter, at most 63 bytes follow its first occurrence |
| ReadUntil.LittleIsSearchedAgain | src/internal/smart_routine_impl.cpp:101-109 | after a chunk without a match fewer bytes than the delimiter has lie past `last_search_end_` |
| ReadUntilContexts.ReadUntilContext.Callback | src/internal/smart_routine_impl.cpp:74-120 | the callback on the real buffer and search loop is the specified one, on every outcome of `read`, and the buffer's sizes afterwards |
| ReadUntilContexts.ReadUntilContext.Take | src/internal/smart_routine_impl.cpp:82-88 | chunk stored, or rejected with error code and -1; the buffer's sizes afterwards |
| ReadUntilContexts.ReadUntilContext.SearchOn | src/internal/smart_routine_impl.cpp:89-109 | searches from the cache on and moves it |
| ReadUntilContexts.Drive | src/internal/smart_routine_impl.cpp:74-120 | a whole `smart_read_until` on its real buffer: if initial contents and stream fit the block, every callback stays in it and the run is the one with the exact search; a buffer from which nothing was consumed accepts every chunk |
| ReadUntilContexts.StreamStaysInBlockIff | src/internal/smart_routine_impl.cpp:82-88 | over every stream of accepted chunks, all copies stay in the block iff initial contents plus stream fit it |
| DynamicBuffers.DynamicBuffer.Append | src/common/dynamic_buffer.cpp:25-41 | an accepted append adds its bytes to the readable ones, a rejected one changes nothing; indices and capacity afterwards; consumed ++ readable stays the accepted bytes |
| DynamicBuffers.DynamicBuffer.Store | src/common/dynamic_buffer.cpp:39-40 | the copy adds exactly the bytes behind the readable ones and moves only the write index |
| DynamicBuffers.DynamicBuffer.MoveForward | src/common/dynamic_buffer.cpp:62-68 | compaction changes no readable byte; it raises the capacity by the reclaimed bytes |
| DynamicBuffers.DynamicBuffer.Consume | src/common/dynamic_buffer.cpp:43-50 | hands out the oldest bytes iff there are enough and then moves only the read index, otherwise changes nothing |
| DynamicBuffers.MemMove | src/common/dynamic_buffer.cpp:64 | the front of the block receives the moved bytes unharmed by the overlap, the rest is unchanged |
| DynamicBuffers.MemCpy | src/common/dynamic_buffer.cpp:39 | the bytes are copied to their place, the rest of the block is unchanged |
| DynamicBuffers.SecondCheckCannotFire | src/common/dynamic_buffer.cpp:33-36 | within the maximum, `expand_capacity` is unreachable, and the rejection condition in closed form |
| DynamicBuffers.CourseInClosedForm | src/common/dynamic_buffer.cpp:84-90 | which way `append` takes in every state, with the subtractions modulo 2^64: what a buffer written beyond its maximum accepts |
| DynamicBuffers.ExpandIsNeverInBlock | src/common/dynamic_buffer.cpp:52-60 | wherever `expand_capacity` is reached, some copy leaves the block |
| DynamicBuffers.InBlockIff | src/common/dynamic_buffer.cpp:25-41 | in every state, an append stays in the block iff it is rejected, fits behind what is written, or compaction is still in order (capacity is the block) and it fits once consumed bytes are reclaimed |
| DynamicBuffers.RaisedCapacityOverruns | src/common/dynamic_buffer.cpp:27 | once capacity exceeds the block, every append that ends between the two is accepted unchecked and leaves the block |
| DynamicBuffers.CompactionRaisesCapacity | src/common/dynamic_buffer.cpp:62-68 | such a state is reached by an append that stays in the block, and the next append leaves it |
| DynamicBuffers.SeriesStaysInBlockIff | src/common/dynamic_buffer.cpp:25-41 | a series of accepted appends stays in the block, all of it, iff the readable bytes at its end fit |
| DynamicBuffers.AcceptedButDoesNotFit | src/common/dynamic_buffer.cpp:84-90 | every append beyond the initial block and within the maximum is accepted without fitting |
| Operations.ReadDeliversTheStream | src/internal/smart_routine_impl.cpp:15-31 | for every sequence of answers: resumes exactly at the first that reaches `count`, fails or is end of file; the buffer starts with the stream and is untouched behind it |
| Operations.WriteSendsThePrefix | src/internal/smart_routine_impl.cpp:33-46 | for every sequence of answers: resumes exactly at the first that reaches `count` or fails; exactly the first bytes of the buffer were sent |
| Operations.EmptyWriteResumesOnlyOnError | src/internal/smart_routine_impl.cpp:36-45 | with `count` 0 only an error resumes |
| Operations.WriteResumesWhenSentIffNonEmpty | src/internal/smart_routine_impl.cpp:36-45 | every write whose bytes were all taken has resumed, iff `count` is not 0 |
| Operations.AcceptReturnsTheFirst | src/internal/smart_routine_impl.cpp:62-72 | waits through every EWOULDBLOCK and returns the first connection or the first error |
| Operations.ConnectResumesAtOnce | src/internal/smart_routine_impl.cpp:48-60 | resumes at its first callback, with the socket's error |
| Operations.ReadUntilIsTheSearchedOne | src/internal/smart_routine_impl.cpp:74-120 | the read-until operation driven by the event loop runs as the one whose search from the cache is proved exact |
| Operations.ReadUntilDeliversTheStream | src/internal/smart_routine_impl.cpp:74-120 | for every sequence of answers: resumes exactly at the first that is end of file, an error, a rejected chunk or completes the delimiter in initial contents plus stream; buffer, `ret_` and error code in terms of the stream |
| Operations.AnyAnswerIsTaken | src/internal/smart_routine_impl.cpp:15-120 | each of the five operations, while it waits, goes on with exactly the answers its system call can give |
| TransferContexts.ReadContext.Callback | src/internal/smart_routine_impl.cpp:15-31 | the callback on the caller's buffer is the specified one |
| TransferContexts.WriteContext.Callback | src/internal/smart_routine_impl.cpp:33-46 | the callback on the caller's buffer is the specified one |
| Epoll.WatchingMirrorsTheKernel | include/epoll_item.h:17-36 | over every sequence of enable and disable calls `watching_` holds iff the descriptor is in the interest table, with mask `events_`; no `epoll_ctl` fails and no other entry is touched |
| Epoll.MaskIsTheLastWord | include/epoll_item.h:17-36 | over every sequence of calls an event is in `events_` iff the last call about it put it there |
| Epoll.ArmingNeedsAFreeDescriptor | src/smart_epoller.cpp:50-55 | arming registers the item iff the descriptor has no entry; the flag is set either way |
| Epoll.EPollItem.EnableReading | include/epoll_item.h:17-20 | mask, flag and table are those of the specified call |
| Epoll.EPollItem.DisableReading | include/epoll_item.h:21-24 | mask, flag and table are those of the specified call |
| Epoll.EPollItem.EnableWriting | include/epoll_item.h:25-28 | mask, flag and table are those of the specified call |
| Epoll.EPollItem.DisableWriting | include/epoll_item.h:29-32 | mask, flag and table are those of the specified call |
| Epoll.EPollItem.DisableAll | include/epoll_item.h:33-36 | mask, flag and table are those of the specified call |
| Epoll.SmartEPoller.WatchEvent | src/smart_epoller.cpp:37-58 | ADD, MOD or DEL by flag and mask; the flag follows whatever the kernel says |
| Epoll.ParkedItemIsCalledAtMostOnce | src/epoll_item.cpp:5-22 | one report calls a parked item's callback at most once and only for its direction |
| Epoll.HandlersRunInOrder | src/epoll_item.cpp:5-22 | exactly the callbacks that are set and triggered are called, each once, in the order close, error, read, write |
| EventLoop.PushedOnceAtCompletion | src/smart_epoller.cpp:60-85 | in every run each parked operation is pushed at most once, iff its last callback completed it, with no completing callback before and none after |
| EventLoop.PushIsAfterRemoval | src/internal/smart_routine_impl.cpp:158-166 | a step pushes a coroutine iff it is a completing callback, for the first time, and exactly its descriptor has just left the table |
| EventLoop.UnregisteredWaitsForever | src/smart_epoller.cpp:50-55 | an operation whose arming found the descriptor taken is never called back in any continuation |
| EventLoop.ArmRegistersIffFree | src/smart_epoller.cpp:50-55 | in every run parking adds the operation, waiting for its own events, and registers it for them iff the descriptor is free; nothing else changes |
| EventLoop.RegisteredForItsEvents | src/smart_routine.cpp:48-60 | in every run the kernel watches a registered read, accept or read-until for EPOLLIN and a write or connect for EPOLLOUT, with its own item |
| EventLoop.CalledBackIffConcerned | src/epoll_item.cpp:14-21 | a report calls a write or connect back iff it has EPOLLOUT, any other operation iff it has EPOLLIN, EPOLLPRI or EPOLLRDHUP |
| EventLoop.ReportedIsCalledBack | src/smart_epoller.cpp:71-83 | in every run, for the k-th report of a round and whatever is armed meanwhile: its operation is as it was, can handle any answer, and gets its callback with it iff the report concerns it; no other operation is touched and the rest of the round is left |
| EventLoop.SecondOnDescriptorIsDeaf | src/smart_epoller.cpp:50-55 | of two operations parked on one descriptor the second is unregistered, believes to be watched, and is not pushed in any continuation |
| JointRuns.ArmingAgrees | src/internal/smart_routine_impl.cpp:148-156 | arming has the same effect on the table in the epoll model and in the scheduler, and is refused in the same states |
| JointRuns.HandleAgrees | src/internal/smart_routine_impl.cpp:158-166 | a completing callback takes exactly its descriptor, with its own coroutine, out of the scheduler's view; any other leaves the view unchanged |
| JointRuns.JointRunsAgree | src/internal/smart_routine_impl.cpp:143-166 | in every interleaving of worker and epoll thread, each part is a run of its own model, `IoComplete` steps are the completing callbacks, both see one interest table, and a parking neither registered nor pushed is lost |
| JointRuns.EachParkingIsResumedOnce | src/internal/smart_routine_impl.cpp:143-166 | in every joint run a parking is pushed at most once and its coroutine is in at most one place: suspended and unqueued while registered, lost if neither registered nor pushed |
| JointRuns.ParkedOperationIsArmed | src/internal/smart_routine_impl.cpp:148-156 | in every joint run the drain that parks a coroutine makes its operation the newest entry, with the coroutine's own descriptor and events, registered iff that was free |
| JointRuns.ReportedParkingIsServed | src/internal/smart_routine_impl.cpp:158-166 | in every joint run a registered parking reported with one of its events gets its callback; if that completes it, its own coroutine becomes the last of the global list and the descriptor leaves the table, otherwise the worker sees no change |
| JointRuns.WorkerAloneIsAJointRun | src/smart_thread.cpp:17-103 | every run of the scheduler without completions is the worker's part of a joint run |
| SmartTimers.EachTimerFiresAtItsTick | src/smart_timer.cpp:17-44 | over every interleaving of settings, ticks and single callbacks, with any clock readings, each timer waits until the first tick reading past its timestamp, is in that tick's list until its callback, and fires exactly once, before the next tick |
| SmartTimers.OnlySetTimersFire | src/smart_timer.cpp:40-43 | nothing fires twice or without having been set |
| SmartTimers.TickFiresInOrder | src/smart_timer.cpp:29-43 | at any moment the callbacks made since a tick, followed by those to come, are what it collected, in nondecreasing timestamp order |
| SmartTimers.CacheIsExact | src/smart_timer.cpp:26-39 | the cached nearest expiry is the heap's minimum (UINT64_MAX if empty); each tick takes exactly the expired timers and leaves none |
| SmartTimers.SkippingIsScanning | src/smart_timer.cpp:28 | a skipped scan would have found nothing |
| SmartTimers.ScanTakesTheExpired | src/smart_timer.cpp:29-32 | popping tops takes exactly the expired timers, in order |
| SmartTimers.SmartTimer.SetTimer | src/smart_timer.cpp:65-73 | is the event `SetTimer` |
| SmartTimers.SmartTimer.Collect | src/smart_timer.cpp:26-39 | is the event `Collect`, with some order of ties that a heap allows |
| SmartTimers.SmartTimer.PopExpired | src/smart_timer.cpp:29-32 | the loop is a scan, in any conforming heap |
| SmartTimers.SmartTimer.RunCallbacks | src/smart_timer.cpp:40-43 | every collected callback is made once, in the list's order, and the list is cleared, while callbacks and other threads set timers; the round is exactly these callbacks, each followed by the timers set meanwhile, and the end |
| SmartTimers.SmartTimer.FireNext | src/smart_timer.cpp:40-42 | is the event `Fire` |

## Left out

- DynamicBuffers.DynamicBuffer.Append: requires that the bytes moved and copied lie in the allocated block (`InBlock`); outside it the source's behaviour is undefined. Blocks are below 2^62 bytes.
- ReadUntilContexts.ReadUntilContext.Callback: requires the same, and an unsearched part below 2^32 bytes, because `partial_search` counts with `unsigned int`. `ret_` is an unbounded integer instead of `int`.
- SmartThreads.SmartThread.SwitchTo: requires a fresh or saved target, which `NeverWild` and `DispatchIsSafe` provide; the source jumps unchecked.
- `BoundedQueue` with capacity 0: `pop` and `push` would divide by it; the class has a positive capacity.
- `SmartThread::yield` with `with_callback` false: no caller in the repository passes it.
- Coroutines that migrate between workers: `coro_runner` keeps the starting thread's pointer across the user function, so the context-switch theorems are for one worker; the queue theorems are for any number.
- `handle_events` is one step up to its end, although it reads `revents_` and `write_callback_` (src/epoll_item.cpp:18-20) after `read_callback_` may have pushed the coroutine whose stack frame holds the item.
- `::close` (src/tcp_socket.cpp:97) silently takes an armed descriptor out of the kernel's table, one more way to lose a parked coroutine, besides those of `StepLosesIff`.
- Rounds of `eventloop` in which `epoll_wait` returns 0 or is interrupted: the previous ready list is handled again there, on items whose stack frames may be gone.
- Failures of `epoll_ctl` other than an existing or missing entry, and the window between `epoll_ctl` and `set_watching`.
- The event loop, the accept and connect contexts and the step system itself are on values, not objects; update in place is modelled for the queues, the worker, the buffers, the read, write and read-until contexts, the items and the timer.
- `errno` propagation out of `smart_read` and `smart_write`: `ret_` is unsigned, so the negative test after the yield never holds.
- The meaning of timestamps in real time: seconds times 1000 plus microseconds is not monotone in the time of day, contrary to what include/smart_timer.h promises for durations. `set_timer_after` and `set_timer_until` only compute a timestamp.
- `std::priority_queue` itself: `top` is any timer that is minimal under `TimerComp`.
- Start-up, shutdown, `usleep`, `wait_on_task_list`, logging and flags (flag values are parameters).
- The context-switch assembly, sockets, acceptors, endpoints and addresses.
- Callers that are not coroutines fall through to the plain system calls.
