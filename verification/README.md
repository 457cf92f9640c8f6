# Verification of the bridge's control plane

A Dafny model of the small shared-state protocols that keep the LiveKit–ROS 2 bridge's control plane
consistent, and of the algorithms around them, with proofs of what they promise. Each protocol appears in
two forms: a class whose methods are the critical sections and loops of the C++ class, proved against
functions on an abstract state; and, where threads interleave, a step machine in which every thread is a
program counter, one step is one critical section or one atomic operation, and theorems are about every run
(`Runs` / `Exec` over a sequence of steps). A thread that finds its condition false simply has no step, so
spurious wake-ups and arbitrary scheduling are covered.

| module | what it models |
| --- | --- |
| `ExecutorQueue` | `RosExecutorQueue`: submit, drain, wake, shutdown |
| `ServiceCaller`, `ServiceProtocol` | `RosServiceCaller::Impl`: the table, quota and timer in place; the calls, cancels, executes and shutdowns that race |
| `SubscriptionLeases`, `SubscriptionLeaseManagers` | `SubscriptionLeaseManager`: leases, sessions and status reports, and the flat relation they implement |
| `DataTracks` | `DataTrackPublisher`, the lease manager's runtime |
| `CallbackGates` | `CallbackGate` |
| `UseWord`, `ServiceWaitableUse`, `AudioPipeline` | the lock-free flag-and-count word, in the service waitable and in `GStreamerPipeline` |
| `RoomConnection` | `SdkRoomConnection`: room generations and tracks |
| `FailureHandler`, `AudioStream` | `PipelineFailureHandler`, and the audio `GStreamerStream` that restarts through it |
| `DefinitionLookup` | `ParsedType::parse`, `parseDependencies`, `collect`, `lookupDefinitions` |
| `HeartbeatParsing` | heartbeat validation and coalescing |
| `Base64` | canonical base64 (sections 3.5 and 4 of RFC 4648) |
| `NamePatterns` | `RosResourcePattern` and the selection of the best match |
| `Wrappers`, `Text` | options, and the trimming that several parts share |

`dafny verify dfyconfig.toml` checks everything.

## Assumptions

- The clock is monotone: `Tick` and the passing of time in `ServiceProtocol` never go back.
- A moved-from `std::queue` is empty (`RosExecutorQueue::shutdown`).
- rclcpp's default callback group runs one callback at a time. `ExecutorQueue.NoTaskStranded` needs this,
  and `OverlappingCallbacksStrandATask` shows what happens without it.
- rcl sequence numbers are unique per client (`ServiceProtocol.FreshKey`).
- Fewer than 2^63 operations use a word at once, and fewer than 2^64 rooms are activated and detached.
- The lease manager runs one operation at a time, on the executor.
- Audio callbacks get `TrackPublisher::mutex_` and give it back: `close` stops the streams outside that mutex.
- Two theorems carry an assumption of their own, each beside a theorem that does without it: prompt GStreamer
  callbacks (`AudioPipeline.PromptRunAgrees`, beside `RunAgreesUnlessErasing`), and recorded tracks kept alive
  (`RoomConnection.UnpublishReachesTheRightRoomOnce`, beside `UnpublishFollowsTheEntry`).
- `syncWaitableLocked` does not throw.

## Where the code does less than one might expect

Each of these is a concrete run and an exact condition.

- A queue without the one-callback-at-a-time group can strand a task
  (`ExecutorQueue.OverlappingCallbacksStrandATask`). The step that strands it is always an execute that consumes
  the last wake-up and finds the drain still marked as active by a thread that has seen the queue empty
  (`StrandedOnlyByLosingAWakeup`, over runs `RunStrandsOnlyByLosingAWakeup`).
- `resumeCallbacks` stores 0. It erases a live user exactly when `start` found no pipeline and a callback
  that is late to count itself is inside (`AudioPipeline.AgreementBreaksOnlyByErasing`, over runs
  `RunAgreesUnlessErasing`; the run is `LateCallbackIsErased`).
- `closeAndWait` can return exactly if no thread inside waits for a callback of its own
  (`CallbackGates.CloserReturnsUnlessSelfWait`; the run is `ClosingFromInsideNeverReturns`).
- The comment at `src/ros_service_caller.cpp:899` says that `shutdown` may run from `executeWaitable`. The
  gate allows it, but `detachWaitable` then spins in `stopAndWait` for a use that its own thread holds while it
  executes. `stopAndWait` can return exactly if no thread inside it holds a use of its own
  (`ServiceWaitableUse.StopReturnsUnlessSelfWait`; the run is `StopFromInsideNeverReturns`).
- `unpublishDataTrack` has no generation check: it goes to the room that published the track exactly if the
  room has not changed (`RoomConnection.DataUnpublishFollowsTheCurrentRoom`; the run is
  `DataUnpublishReachesTheNextRoom`). `detachRoom` clears only the video table; the generation check protects
  audio tracks.
- The generation tables are keyed by address. If a recorded track object is destroyed without being
  unpublished, its address can be reused. An unpublish call goes to the room of the track that the entry was
  recorded for, so it goes to its own track's room exactly if the entry's generation is one of that room
  (`RoomConnection.UnpublishFollowsTheEntry`, `EntryForetellsTheRoom`; the run is
  `ReusedAddressReachesTheWrongRoom`).
- `docs/protocol.md:263` lets an anonymous heartbeat in only with an unexpired session. The code asks only
  whether the session is in the table, and an expired one stays until the next prune. The two agree exactly
  unless the session has expired and is not yet pruned (`SubscriptionLeases.AnonymousHeartbeats`; the run is
  `ExpiredSessionAuthenticates`).
- The longest matching pattern is the narrowest for exactly the resources that do not end in a slash
  (`NamePatterns.LongestIsNarrowestExactly`). For any resource, the chosen entry is narrower than another match
  exactly unless it is a subtree and the other the exact name (`BestIsNarrowest`): the subtree is declared first
  and as long, or the resource ends in a slash (`SubtreeBeatsExactName`; two inputs are in
  `ExactNameIsPassedOver`).
- A second `close` or `shutdown` call may return before the first has finished. What the first promises holds by
  then exactly if, for the failure handler, no callback is running (`FailureHandler.LaterCloseReturnsAtOnce`),
  for the audio stream, the pipeline is inactive already (`AudioStream.LaterCloseReturnsAtOnce`), and for the
  queue, the first call has no task left to cancel (`ExecutorQueue.LaterShutdownMayReturnEarly`); the runs are
  the lemmas `SecondCloseReturnsFirst` and `SecondShutdownReturnsFirst`.

## Model

| member | source | states |
| --- | --- | --- |
| `ExecutorQueue.RosExecutorQueue.Submit` | src/ros_executor_queue.hpp:85-102 | an open queue takes the task at its end; a shut-down queue cancels it and stays as it is |
| `ExecutorQueue.RosExecutorQueue.FlipShutdown` | src/ros_executor_queue.cpp:164-175 | the first caller gets the whole queue and leaves it empty; later callers change nothing |
| `ExecutorQueue.RosExecutorQueue.CancelQueued` | src/ros_executor_queue.cpp:171-191 | shutdown cancels exactly the queued tasks, front to back, and only on the first call |
| `ExecutorQueue.RosExecutorQueue.TryClaim` | src/ros_executor_queue.cpp:200-208 | a drain starts exactly if the queue is open and no drain is active, and records its thread |
| `ExecutorQueue.RosExecutorQueue.Pop` | src/ros_executor_queue.cpp:223-230 | the front task leaves the queue, or there is none |
| `ExecutorQueue.RosExecutorQueue.Release` | src/ros_executor_queue.cpp:209-217 | the drain ends and its owner is forgotten |
| `ExecutorQueue.RosExecutorQueue.Drain` | src/ros_executor_queue.cpp:198-239 | undisturbed, a drain runs every queued task, and every task that those submit, once and in submission order, and ends idle with an empty queue |
| `ExecutorQueue.StepKeepsInv` | src/ros_executor_queue.cpp:155-273 | every step of submit, wake, shutdown and drain keeps ownership, ledger, settlement, shutdown and service invariants |
| `ExecutorQueue.RunKeepsInv` | src/ros_executor_queue.cpp:155-273 | the invariant holds in every run |
| `ExecutorQueue.InOrderAndSettledOnce` | src/ros_executor_queue.cpp:155-239 | accepted tasks in submission order are those run, the one running, and those cancelled, held or queued; every future is settled at most once, and exactly once when its task is done, cancelled or rejected |
| `ExecutorQueue.NoTaskStranded` | src/ros_executor_queue.cpp:198-273 | under the one-callback group a non-empty open queue always has a submitter about to wake, a triggered guard, or a drainer about to look again |
| `ExecutorQueue.OverlappingCallbacksStrandATask` | src/ros_executor_queue.cpp:198-239 | without that group a run exists that leaves a task queued with nobody to serve it |
| `ExecutorQueue.StrandedOnlyByLosingAWakeup` | src/ros_executor_queue.cpp:198-239 | a step strands a task if and only if it is an execute that consumes the last wake-up and finds a drain active that has already seen the queue empty |
| `ExecutorQueue.RunStrandsOnlyByLosingAWakeup` | src/ros_executor_queue.cpp:198-239 | a run strands no task in any of its states if and only if no step of it loses a wake-up that way |
| `ExecutorQueue.ShutdownReturnsQuiet` | src/ros_executor_queue.cpp:155-248 | a shutdown() that returns off the drain thread leaves no active drain, nothing queued and nothing running; the first caller also leaves every accepted future settled once |
| `ExecutorQueue.LaterShutdownMayReturnEarly` | src/ros_executor_queue.cpp:164-196 | any shutdown() that returns off the drain thread leaves all accepted futures settled if and only if the first call has no task left to cancel |
| `ExecutorQueue.SecondShutdownReturnsFirst` | src/ros_executor_queue.cpp:164-196 | a run in which a second shutdown() returns before the first has cancelled a task |
| `ExecutorQueue.CallCanComplete` | src/ros_executor_queue.cpp:155-273 | from every invariant state a run without new calls completes any submit(), wake() or shutdown() in progress, if running tasks return |
| `ExecutorQueue.NoDeadlock` | src/ros_executor_queue.cpp:155-273 | no reachable state is a deadlock for a call in progress |
| `ExecutorQueue.TaskCanSettle` | src/ros_executor_queue.cpp:155-273 | under the one-callback group a run without new calls settles any given accepted task |
| `ExecutorQueue.EveryAcceptedTaskCanSettle` | src/ros_executor_queue.cpp:155-273 | and that from every reachable state |
| `ExecutorQueue.NothingStartsAfterShutdown` | src/ros_executor_queue.cpp:155-248 | after such a return no task starts, finishes or is accepted in any later run |
| `CallbackGates.CallbackGate.TryEnter` | src/utils/callback_gate.hpp:93-108 | entering succeeds exactly if the gate is open and, in exclusive mode, empty; the count and owner follow |
| `CallbackGates.CallbackGate.Leave` | src/utils/callback_gate.hpp:110-125 | one callback fewer; the owner is forgotten by its own leave |
| `CallbackGates.CallbackGate.CloseSection` | src/utils/callback_gate.hpp:79-83 | the gate is closed, and true is returned to the first closer only |
| `CallbackGates.CallbackGate.ActiveCallbacksToWaitFor` | src/utils/callback_gate.hpp:127-137 | what a closer waits for: everything, but for its own callback in exclusive excluding-current mode |
| `CallbackGates.StepKeepsInv` | src/utils/callback_gate.hpp:50-137 | every enter, leave, close and return keeps count, owner and closers in agreement |
| `CallbackGates.CountsCallbacks` | src/utils/callback_gate.hpp:93-125 | in every run `active_` is the number of callbacks inside, at most one in exclusive mode with its thread as owner, and at most one closer is told that it was first |
| `CallbackGates.ReturnMeansDrained` | src/utils/callback_gate.hpp:76-84 | when closeAndWait() returns nothing is inside, apart from the caller's own callback in exclusive excluding-current mode |
| `CallbackGates.ClosedGateOnlyDrains` | src/utils/callback_gate.hpp:93-98 | nothing enters a closed gate in any later run |
| `CallbackGates.SelfWaitBlocks` | src/utils/callback_gate.hpp:76-84 | while a thread inside waits for its own callback no closer that waits for it can return, in any run |
| `CallbackGates.CloserReturnsUnlessSelfWait` | src/utils/callback_gate.hpp:76-137 | a closer can still return if and only if no thread inside waits for its own callback |
| `CallbackGates.ClosingFromInsideNeverReturns` | src/utils/callback_gate.hpp:76-84 | a run, in either mode, after which a callback that closed its own gate can never return |
| `CallbackGates.SecondCallbackEnters` | src/utils/callback_gate.hpp:93-108 | a second callback gets into a gate with one inside if and only if the gate is concurrent, whichever threads they are on |
| `UseWord.UseState.BeginUse` | src/ros_service_caller.cpp:594-603 | whatever other threads do between load and exchange, the loop is a run of the steps, begins exactly by becoming a user, and is refused exactly by seeing the stop bit; undisturbed it succeeds at once and adds one |
| `UseWord.UseState.EndUse` | src/ros_service_caller.cpp:605-608 | the decrement removes one user and never borrows from the stop bit |
| `UseWord.UseState.StopAndWait` | src/ros_service_caller.cpp:582-591 | whatever other threads do, the spin ends exactly when there are no users, with the stop bit set and no user added |
| `UseWord.UseState.Resume` | src/audio/gstreamer_pipeline.cpp:116-119 | after the store of 0 the word counts the users if and only if there were none |
| `UseWord.OpKeeps` | src/ros_service_caller.cpp:594-608 | every begin and end step keeps word = 2^63 * stopped + users, and none adds a user once the stop bit is set |
| `UseWord.StopKeeps` | src/ros_service_caller.cpp:582-591 | setting the stop bit keeps that agreement |
| `UseWord.CountIsUsers` | src/ros_service_caller.cpp:587-590 | the masked count that the spin tests is the number of users |
| `ServiceWaitableUse.WordIsFlagPlusUsers` | src/ros_service_caller.cpp:582-608 | in every run the word is 2^63 * stopped + users, so an end never borrows from the flag |
| `ServiceWaitableUse.StoppedForGood` | src/ros_service_caller.cpp:582-603 | when stopAndWait() returns there is no user, and none ever again |
| `ServiceWaitableUse.StopReturnsUnlessSelfWait` | src/ros_service_caller.cpp:582-603 | stopAndWait() can still return if and only if no thread inside it holds a use of its own |
| `ServiceWaitableUse.StopFromInsideNeverReturns` | src/ros_service_caller.cpp:897-901 | a run after which a thread that stops the waitable from inside its own use can never return |
| `AudioPipeline.AgreementBreaksOnlyByErasing` | src/audio/gstreamer_pipeline.cpp:97-203 | a step breaks the agreement of word and users if and only if it is a resume after a start() that found no pipeline while a callback is inside |
| `AudioPipeline.PromptStep` | src/audio/gstreamer_pipeline.cpp:130-203 | with callbacks that count themselves in time, every step of start, stop and callbacks keeps the agreement and the pipeline flags |
| `AudioPipeline.PromptRunAgrees` | src/audio/gstreamer_pipeline.cpp:97-203 | then resumeCallbacks() erases no live user in any run, over every start, stop and failed start |
| `AudioPipeline.RunAgreesUnlessErasing` | src/audio/gstreamer_pipeline.cpp:97-203 | a run keeps word and users in agreement in all its states if and only if it never erases a user, late callbacks or not |
| `AudioPipeline.StoppedPipelineIsUnused` | src/audio/gstreamer_pipeline.cpp:121-128 | when the spin of a stop returns there are no users, and none begins in any run before the next resume, late callbacks included |
| `AudioPipeline.NothingIsUnderWayWithoutPipeline` | src/audio/gstreamer_pipeline.cpp:182-203 | with prompt callbacks no operation at all is under way while there is no pipeline |
| `AudioPipeline.LateCallbackIsErased` | src/audio/gstreamer_pipeline.cpp:116-145 | a late callback, a failed rebuild and another start() make the word wrap below zero |
| `AudioPipeline.GStreamerPipeline.Stop` | src/audio/gstreamer_pipeline.cpp:182-203 | whatever callbacks do while it spins, stop() returns exactly when none is counted, inactive, unhooked and with the stop bit set; an inactive pipeline is left alone; the call is a run of the step machine |
| `AudioPipeline.GStreamerPipeline.Start` | src/audio/gstreamer_pipeline.cpp:130-180 | the pipeline is active exactly if it was built and plays; on every path the word still counts the users if and only if a pipeline was there to stop or no callback was inside; the call is a run of the step machine |
| `FailureHandler.PipelineFailureHandler.Schedule` | src/utils/pipeline_failure_handler.cpp:32-45 | accepted exactly if not closed, nothing pending and no callback running; then pending with a worker |
| `FailureHandler.PipelineFailureHandler.CancelPending` | src/utils/pipeline_failure_handler.cpp:47-52 | nothing is pending afterwards, and nothing else changes |
| `FailureHandler.PipelineFailureHandler.Close` | src/utils/pipeline_failure_handler.cpp:54-71 | the first caller closes and takes the worker to join; later callers change nothing |
| `FailureHandler.PipelineFailureHandler.RunPass` | src/utils/pipeline_failure_handler.cpp:73-102 | in the handler's fields, when one pass of the worker goes to sleep, to its delay, to the callback and out of the loop: it starts the callback exactly if the handler is open, something is pending and the delay, if there is one, has run out |
| `FailureHandler.StepKeepsInv` | src/utils/pipeline_failure_handler.cpp:32-102 | every step keeps the account of schedules and the closing order |
| `FailureHandler.SchedulesAreConserved` | src/utils/pipeline_failure_handler.cpp:32-102 | in every run accepted schedules = callbacks finished + running + pending + cancelled + dropped at close, and at most one is outstanding |
| `FailureHandler.OutstandingFailureIsHandled` | src/utils/pipeline_failure_handler.cpp:73-102 | with or without a delay, from every invariant state with an outstanding failure the worker alone comes to run the callback and finishes it, with nothing pending |
| `FailureHandler.NoCallbackAfterClose` | src/utils/pipeline_failure_handler.cpp:54-80 | once the closing call has joined the worker no callback runs, in any later run |
| `FailureHandler.LaterCloseReturnsAtOnce` | src/utils/pipeline_failure_handler.cpp:54-71 | close() returns without waiting for a worker if and only if the handler is closed already or no worker was ever started; after a later close() no callback finishes any more exactly if none is running |
| `FailureHandler.SecondCloseReturnsFirst` | src/utils/pipeline_failure_handler.cpp:54-71 | a run in which a second close() returns while the callback runs that the first waits for |
| `AudioStream.StepKeepsInv` | src/audio/gstreamer_stream.cpp:51-115 | every step of start, close, restart, the worker and callbacks keeps mutex, shutdown and closing invariants |
| `AudioStream.InactiveForeverAfterClose` | src/audio/gstreamer_stream.cpp:61-74 | after the closing call has returned the pipeline is inactive and the worker gone, in every later run |
| `AudioStream.NobodyWaitsForAHolder` | src/audio/gstreamer_stream.cpp:76-110 | a callback waits for no lock of the stream; who holds the mutex can go on or waits for callbacks only; who joins the worker or spins in close() does not hold the mutex |
| `AudioStream.LaterCloseReturnsAtOnce` | src/audio/gstreamer_stream.cpp:61-74 | close() returns at once exactly if the stream is shut down already, and then the pipeline is inactive for good exactly if it is inactive by now |
| `AudioStream.SecondCloseReturnsFirst` | src/audio/gstreamer_stream.cpp:61-74 | a run in which a second close() returns while the pipeline plays |
| `AudioStream.CallCanComplete` | src/audio/gstreamer_stream.cpp:51-115 | from every invariant state a run without new calls or callbacks completes any call in progress |
| `AudioStream.NoDeadlock` | src/audio/gstreamer_stream.cpp:51-115 | no reachable state is a deadlock for a call in progress |
| `AudioStream.ReportIsScheduled` | src/audio/gstreamer_stream.cpp:81-95 | a reported failure is outstanding afterwards if and only if the handler is open and not running its callback |
| `AudioStream.FailureReachesTheRestart` | src/audio/gstreamer_stream.cpp:81-110 | from every invariant state with an outstanding failure a run without new calls or callbacks gets the worker to the restart with the mutex held, past its delay and past whoever holds the mutex |
| `AudioStream.RestartCanPlay` | src/audio/gstreamer_stream.cpp:97-116 | a restart of an open stream can end with the pipeline playing and the mutex free, after its own steps and callbacks that leave |
| `AudioStream.JobsLeaveNoHalfStartedPipeline` | src/audio/gstreamer_stream.cpp:97-115 | a start or restart leaves a pipeline active exactly if it plays, stopped exactly if it failed to play, and untouched after shutdown; whatever was stopped has no callback inside |
| `AudioStream.GStreamerStream.Start` | src/audio/gstreamer_stream.cpp:51-59 | start() is the whole job of the step machine, and succeeds exactly if the stream is open and the pipeline plays |
| `AudioStream.GStreamerStream.StopPipeline` | src/audio/gstreamer_pipeline.cpp:182-203 | an active pipeline ends inactive with its callbacks stopped and gone; an inactive one is left alone |
| `AudioStream.GStreamerStream.StartPipelineLocked` | src/audio/gstreamer_stream.cpp:112-116 | stop and launch together are the whole job of an open stream |
| `AudioStream.GStreamerStream.Close` | src/audio/gstreamer_stream.cpp:61-74 | the first call shuts down, closes the handler and deactivates the pipeline with no callback left inside; a second changes nothing |
| `AudioStream.GStreamerStream.OnPipelineFailure` | src/audio/gstreamer_stream.cpp:81-95 | a failure is scheduled exactly if the stream is open and the handler accepts |
| `AudioStream.GStreamerStream.RestartPipelineAfterFailure` | src/audio/gstreamer_stream.cpp:97-110 | the restart, with its stop before the start's own, is the same job as a start |
| `RoomConnection.SdkRoomConnection.ParticipantRef` | src/room_connection.cpp:435-445 | the reference is usable if and only if the connection is up, there is a room and the room has its participant; it names the room and the generation of that moment |
| `RoomConnection.SdkRoomConnection.UnpublishDataTrack` | src/room_connection.cpp:190-216 | goes to the room of the moment, if connected with a participant |
| `RoomConnection.SdkRoomConnection.RecordTrackIfCurrent` | src/room_connection.cpp:481-494 | a video track is recorded exactly if its generation is still current |
| `RoomConnection.SdkRoomConnection.RecordAudioTrackIfCurrent` | src/room_connection.cpp:530-543 | an audio track is recorded exactly if its generation is still current |
| `RoomConnection.SdkRoomConnection.TakeGeneration` | src/room_connection.cpp:449-459 | the video entry is taken out and its generation returned, or there is none |
| `RoomConnection.SdkRoomConnection.TakeAudioGeneration` | src/room_connection.cpp:498-508 | the audio entry is taken out and its generation returned, or there is none |
| `RoomConnection.SdkRoomConnection.ActivateRoom` | src/room_connection.cpp:642-655 | a new generation for the new room; every RPC handler is tried, and the result says whether all registered |
| `RoomConnection.SdkRoomConnection.DetachRoom` | src/room_connection.cpp:657-675 | a new generation if there was a room, no room, no video entries, disconnected |
| `RoomConnection.StepKeepsBase` | src/room_connection.cpp:435-543 | every step keeps the history of generations and the threads' snapshots true, whatever happens to addresses |
| `RoomConnection.StepKeepsInv` | src/room_connection.cpp:435-675 | every step keeps tables, unpublish calls and single use true, whatever happens to addresses; and with recorded tracks kept alive, that a track finds its own entry only |
| `RoomConnection.GenerationDeterminesRoom` | src/room_connection.cpp:435-445 | in every run two snapshots with the same generation are of the same room |
| `RoomConnection.UnpublishFollowsTheEntry` | src/room_connection.cpp:447-543 | in every run, addresses reused or not, an unpublish goes to the room of the track that its entry was recorded for, and each track is unpublished at most once |
| `RoomConnection.EntryForetellsTheRoom` | src/room_connection.cpp:449-474 | when a track finds an entry, the call leaves exactly if the entry's generation is current, and is right if and only if the entry's track was published in the same room, which is if and only if the entry's generation is one of the track's own room |
| `RoomConnection.UnpublishReachesTheRightRoomOnce` | src/room_connection.cpp:447-543 | with recorded tracks kept alive every unpublish goes to the room that published the track, and each track is unpublished at most once |
| `RoomConnection.DataUnpublishFollowsTheCurrentRoom` | src/room_connection.cpp:190-216 | a data track is unpublished from its own room if and only if the room has not been replaced |
| `RoomConnection.DataUnpublishReachesTheNextRoom` | src/room_connection.cpp:190-216 | a run after which a data track of one room is unpublished from the next |
| `RoomConnection.ReusedAddressReachesTheWrongRoom` | src/room_connection.cpp:447-494 | a run in which address reuse sends an unpublish to the wrong room |
| `RoomConnection.CallsNeedAConnection` | src/room_connection.cpp:435-474 | a publish gets its participant, and an unpublish goes on to its call, if and only if the connection is up with a room and its participant, and for the unpublish the entry's generation is current |
| `RoomConnection.PublishNeedsAConnection` | src/room_connection.cpp:447-474 | what is published goes to the room of a usable reference |
| `RoomConnection.RecordedIsTaken` | src/room_connection.cpp:449-543 | a video or audio track recorded while its generation is current is found by the next take with that generation; one that is not current is not recorded |
| `ServiceCaller.CountAfterInsert` | src/ros_service_caller.cpp:862-872 | a new entry raises its requester's count by one and no other |
| `ServiceCaller.CountAfterRemove` | src/ros_service_caller.cpp:289-297 | an erased entry lowers its requester's count by one and no other |
| `ServiceCaller.OrderIsIrrelevant` | src/ros_service_caller.cpp:253-272 | erasing while iterating fails exactly the matching calls, in whatever order the table is walked |
| `ServiceCaller.CancelIsExact` | src/ros_service_caller.cpp:253-287 | a cancel takes from the table exactly the calls of its requester, fails each of them, and touches no other promise |
| `ServiceCaller.TimeoutIsExact` | src/ros_service_caller.cpp:253-287 | a call fails as late if and only if its deadline is not in the future |
| `ServiceCaller.ShutdownIsExact` | src/ros_service_caller.cpp:253-287 | a shutdown fails every call of the table and no other promise |
| `ServiceCaller.DeliveryTakesTheAnswered` | src/ros_service_caller.cpp:1020-1065 | exactly the calls whose key a response carries leave the table, and the others stay as they are |
| `ServiceCaller.DeliverySettlesWithTheFirst` | src/ros_service_caller.cpp:1020-1065 | a call is settled by the first response under its key: its own service and type with that payload, or a conversion failure |
| `ServiceCaller.Impl.ReserveInflightSlot` | src/ros_service_caller.cpp:927-934 | a slot is reserved exactly if fewer than four calls of the requester are inflight; the counters agree with table and reservation and are between 1 and 4 |
| `ServiceCaller.Impl.ReleaseInflightSlot` | src/ros_service_caller.cpp:936-947 | one slot less, no key at zero, and nothing for an unknown requester |
| `ServiceCaller.Impl.Settle` | src/ros_service_caller.cpp:289-297 | the call leaves the table with its outcome, its slot is released, and counts still agree with the table |
| `ServiceCaller.Impl.FailMatchingCalls` | src/ros_service_caller.cpp:253-287 | exactly the matching calls fail and leave the table; counts still agree |
| `ServiceCaller.Impl.DrainResponses` | src/ros_service_caller.cpp:1020-1065 | responses settle the calls of their own keys in order; unknown keys change nothing; counts still agree |
| `ServiceCaller.Impl.SyncWaitable` | src/ros_service_caller.cpp:966-999 | an attached waitable gets the earliest deadline of the table, none exactly if it is empty |
| `ServiceCaller.Impl.CallLocked` | src/ros_service_caller.cpp:801-877 | on every exit path the counts agree with the table and no reservation is left; a call is refused or enters the table with the timer synced |
| `ServiceCaller.Impl.CancelForRequester` | src/ros_service_caller.cpp:882-895 | a call stays under its key exactly if its requester is another; each call that goes is failed as disconnected and no other promise is touched; the timer is synced, and an empty requester changes nothing |
| `ServiceCaller.Impl.ExecuteWaitable` | src/ros_service_caller.cpp:949-964 | a call stays under its key exactly if no response carries the key and its deadline is in the future; what a response answers is settled first, then the late ones fail, then the timer is set |
| `ServiceCaller.Impl.FailEverything` | src/ros_service_caller.cpp:903-906 | every inflight call fails; table and counts are empty |
| `ServiceProtocol.StepKeepsInv` | src/ros_service_caller.cpp:767-1065 | every step of call, cancel, execute and shutdown keeps places, identities, quota, answers, timer and shutdown order |
| `ServiceProtocol.StepKeepsOutcomes` | src/ros_service_caller.cpp:289-297 | no step changes an outcome that is already there |
| `ServiceProtocol.RunKeepsInv` | src/ros_service_caller.cpp:767-1065 | the invariant holds in every run |
| `ServiceProtocol.EveryCallIsInOnePlace` | src/ros_service_caller.cpp:767-880 | in every run each call() is in exactly one place: settled, inflight under one key, or in its caller's hands |
| `ServiceProtocol.OutcomesAreFinal` | src/ros_service_caller.cpp:289-297 | a future is settled once: its outcome is the same ever after |
| `ServiceProtocol.ValuesAreOwnAnswers` | src/ros_service_caller.cpp:1020-1065 | a value came in under the key of that call's own request, whatever late responses arrive |
| `ServiceProtocol.KeysAreNeverDuplicated` | src/ros_service_caller.cpp:854-856 | the duplicate-key check never fires |
| `ServiceProtocol.NothingInflightAfterShutdown` | src/ros_service_caller.cpp:897-907 | once any shutdown() has returned the table is empty and no racing call() refills it |
| `ServiceProtocol.QuotaIsKept` | src/ros_service_caller.cpp:203-232 | in every run a requester has at most four calls inflight and being admitted together, so counters that agree with them are between 1 and 4 for every key present |
| `ServiceProtocol.TimerHoldsEarliestDeadline` | src/ros_service_caller.cpp:966-999 | attached and with the state mutex free, the timer holds the earliest deadline of the table |
| `ServiceProtocol.NoExpiredCallIsLeft` | src/ros_service_caller.cpp:949-964 | right after executeWaitable() every remaining deadline is later than the time it read |
| `ServiceProtocol.CallCanComplete` | src/ros_service_caller.cpp:767-1018 | from every invariant state a run in which nothing new begins completes any call(), execute() or shutdown() in progress, across the gate, the state mutex and the stop of the waitable |
| `ServiceProtocol.NoDeadlock` | src/ros_service_caller.cpp:767-1018 | no reachable state is a deadlock between them |
| `ServiceProtocol.NobodyExecutesAfterStop` | src/ros_service_caller.cpp:1001-1018 | when the stop that shutdown() makes returns nobody is inside execute(), and nobody is in any later run |
| `ServiceProtocol.BeginRefuses` | src/ros_service_caller.cpp:767-800 | a call is settled at once if and only if the gate is closed or the requester is missing, with the error of the first of these |
| `ServiceProtocol.AdmitRefuses` | src/ros_service_caller.cpp:801-880 | under the state mutex a call goes on if and only if the gate is open and fewer than four calls of its requester are inflight |
| `ServiceProtocol.InsertEnters` | src/ros_service_caller.cpp:836-877 | a call that was sent enters under its key with its own service, type and requester, due after its own positive timeout or else two seconds; one that was not sent fails |
| `ServiceProtocol.CancelFailsOwnCalls` | src/ros_service_caller.cpp:882-895 | in the protocol too, a cancel fails exactly the inflight calls of its requester |
| `ServiceProtocol.WorkSettlesAnsweredAndLate` | src/ros_service_caller.cpp:949-964 | an execute leaves under its key exactly the calls that no response answers and that are not due, and nothing changes on a closed gate |
| `ServiceProtocol.FinishFailsEverything` | src/ros_service_caller.cpp:897-907 | the end of a shutdown fails every call that is left |
| `DataTracks.PublishingAlternates` | src/data_track_publisher.cpp:313-325 | a publish call, successful, refused or failing to subscribe, keeps publishes and unpublish attempts alternating |
| `DataTracks.DestroyingAlternates` | src/data_track_publisher.cpp:218-223 | so does the destructor, after which the track is not published |
| `DataTracks.PublishingIsExact` | src/data_track_publisher.cpp:313-325 | a track is live after a publish call if and only if it was or everything works, with the current interval; which events the room sees for each outcome |
| `DataTracks.DataTrackPublisher.Publish` | src/data_track_publisher.cpp:313-325 | a track that is not live is published, and unpublished again if the subscription fails; it is live exactly if everything works, at the current interval; a refused or live one is left alone |
| `DataTracks.DataTrackPublisher.SetIntervalMs` | src/data_track_publisher.cpp:343-351 | the interval is set here and in a live publication |
| `DataTracks.DataTrackPublisher.Destroy` | src/data_track_publisher.cpp:158-170 | a live publication attempts to unpublish exactly once |
| `SubscriptionLeases.MakeKeyIsInjective` | src/subscription_lease_manager.cpp:63-86 | equal keys mean equal kind and equal name |
| `SubscriptionLeases.StepKeepsInv` | src/subscription_lease_manager.cpp:164-245 | heartbeats, prunes and shutdown keep keys canonical, leases non-empty, intervals minimal, tracks alternating and sessions bound |
| `SubscriptionLeases.RunKeepsInv` | src/subscription_lease_manager.cpp:164-700 | the invariant holds in every run |
| `SubscriptionLeases.DemandIsFlat` | src/subscription_lease_manager.cpp:477-582 | a demand upserts exactly its requester's row of its target, when the target has a row or can be created |
| `SubscriptionLeases.PruneIsFlat` | src/subscription_lease_manager.cpp:648-683 | a prune keeps exactly the rows with now < expiry |
| `SubscriptionLeases.StepIsFlat` | src/subscription_lease_manager.cpp:164-700 | each operation on the nested tables is the operation on the flat relation |
| `SubscriptionLeases.RunIsFlat` | src/subscription_lease_manager.cpp:164-700 | over every run the nested table is the grouping of the flat relation, and a target exists exactly if it has a row |
| `SubscriptionLeases.HeartbeatTouchesOwnDemands` | src/subscription_lease_manager.cpp:366-404 | a heartbeat leaves other requesters' leases and its own leases on omitted targets alone |
| `SubscriptionLeases.NoTargetAfterShutdown` | src/subscription_lease_manager.cpp:685-700 | after shutdown no target reappears in any later run |
| `SubscriptionLeases.PublishersApplyTheMinimum` | src/subscription_lease_manager.cpp:638-683 | in every run a data publisher's interval, and what its live publication applies, is the minimum of its non-empty leases and not negative |
| `SubscriptionLeases.TracksAlternate` | src/data_track_publisher.cpp:158-223 | over every run each data track is published and unpublished in turn, starting with a publish |
| `SubscriptionLeases.OnePublisherPerTarget` | src/subscription_lease_manager.cpp:526-582 | two table entries are the same exactly if kind and name are |
| `SubscriptionLeases.DemandFindsItsOwnTarget` | src/subscription_lease_manager.cpp:484-487 | what a demand finds under its key is of its own kind and name |
| `SubscriptionLeases.IdentityIsExact` | src/subscription_lease_manager.cpp:181-218 | a heartbeat is from r if and only if LiveKit names r and its session is bound to nobody else, or names nobody and the session is bound to r |
| `SubscriptionLeases.IdentityIsKnown` | src/subscription_lease_manager.cpp:181-218 | a resolved identity is not empty, is the sender's when that is given, and does not conflict with the session |
| `SubscriptionLeases.SessionsStayBound` | src/subscription_lease_manager.cpp:220-233 | while a session is in the table its requester stays and is not empty, and its expiry never moves back |
| `SubscriptionLeases.SessionRenewalNeverThrows` | src/subscription_lease_manager.cpp:227-230 | in every run the invariant-violation exception is unreachable, and no session outlasts one lease duration |
| `SubscriptionLeases.AnonymousHeartbeats` | src/subscription_lease_manager.cpp:184-197 | the code meets the documented rule for anonymous heartbeats exactly unless the session has expired unpruned |
| `SubscriptionLeases.ExpiredSessionAuthenticates` | src/subscription_lease_manager.cpp:184-197 | a run in which an expired session authenticates a heartbeat and is renewed |
| `SubscriptionLeases.StatusTellsTheOutcome` | src/subscription_lease_manager.cpp:366-404 | a topic is forbidden if and only if the policy denies it, and a target not found if and only if the registry is shut down, the name does not resolve or the target is new and cannot be created, each with the kind and name asked for; an active status means that the requester holds its lease with the wished interval, and names the minimum interval |
| `SubscriptionLeases.RefusedDemandChangesNothing` | src/subscription_lease_manager.cpp:366-404 | a demand whose status is not active leaves leases, sessions and data tracks as they were, in particular one for a denied topic |
| `SubscriptionLeases.ReportIsInOrder` | src/subscription_lease_manager.cpp:320-336 | one status per demand in their order, each as of the state that the demands before it left, and then one per unsupported entry with its own kind and name |
| `SubscriptionLeases.ActiveDemandEntersItsLease` | src/subscription_lease_manager.cpp:477-582 | an active demand touches its requester's lease of its target and no other lease or target; a target that was there keeps its delivery, and a new one is delivered as it resolves |
| `SubscriptionLeases.ActiveDemandPublishes` | src/subscription_lease_manager.cpp:494-524 | a data track is live after an active demand if and only if it was or its publish works; one that was not live is tried again, and one that was sees no event |
| `SubscriptionLeases.Refusals` | src/subscription_lease_manager.cpp:338-364 | each unsupported entry is answered in its place with its own kind and name |
| `SubscriptionLeases.PruneEndsTargets` | src/subscription_lease_manager.cpp:648-683 | a target stays if and only if one of its leases has not expired, delivered as before; one that goes unpublishes its live track, and no other track sees an event |
| `SubscriptionLeases.ShutdownEndsTargets` | src/subscription_lease_manager.cpp:685-700 | the first shutdown empties both tables and unpublishes each live track once; a later one, or a prune after it, does nothing |
| `SubscriptionLeases.OrderIsIrrelevant` | src/subscription_lease_manager.cpp:648-683 | erasing while iterating prunes every subscription, in whatever order the table is walked |
| `SubscriptionLeaseManagers.MinimumIntervalMs` | src/subscription_lease_manager.cpp:638-646 | the loop finds the minimum of a non-empty lease set |
| `SubscriptionLeaseManagers.SubscriptionLeaseManager.ResolveIdentity` | src/subscription_lease_manager.cpp:181-218 | a bound session speaks for its requester, when that is named or nobody is; without one the name given is the identity |
| `SubscriptionLeaseManagers.SubscriptionLeaseManager.RenewSessionLease` | src/subscription_lease_manager.cpp:220-233 | fails exactly on a conflict, and otherwise binds and extends that session alone |
| `SubscriptionLeaseManagers.SubscriptionLeaseManager.Renew` | src/subscription_lease_manager.cpp:494-524 | the requester's lease is upserted, the minimum applied, and an unpublished track tried again |
| `SubscriptionLeaseManagers.SubscriptionLeaseManager.Create` | src/subscription_lease_manager.cpp:526-582 | a new target with one lease and its runtime, or nothing when it cannot be created |
| `SubscriptionLeaseManagers.SubscriptionLeaseManager.AppendDemandStatus` | src/subscription_lease_manager.cpp:366-404 | forbidden if and only if the policy denies the topic; any status but active leaves the whole state as it was, and an active one means that the requester holds a lease until `expiry` |
| `SubscriptionLeaseManagers.SubscriptionLeaseManager.CreateStatusReport` | src/subscription_lease_manager.cpp:320-336 | one status per demand in order, each as of its turn, and then one per unsupported entry |
| `SubscriptionLeaseManagers.SubscriptionLeaseManager.HandleHeartbeat` | src/subscription_lease_manager.cpp:164-179 | a whole heartbeat renews its session, applies its demands and reports; without a resolvable identity nothing changes |
| `SubscriptionLeaseManagers.SubscriptionLeaseManager.PruneSessionLeases` | src/subscription_lease_manager.cpp:235-245 | exactly the unexpired sessions stay |
| `SubscriptionLeaseManagers.SubscriptionLeaseManager.EraseExpired` | src/subscription_lease_manager.cpp:652-661 | exactly the unexpired leases stay, and it says whether any went |
| `SubscriptionLeaseManagers.SubscriptionLeaseManager.PruneLeases` | src/subscription_lease_manager.cpp:648-683 | every subscription keeps its unexpired leases with the minimum applied, or is destroyed |
| `SubscriptionLeaseManagers.SubscriptionLeaseManager.PruneExpiredLeases` | src/subscription_lease_manager.cpp:584-593 | both tables are pruned, and nothing after shutdown |
| `SubscriptionLeaseManagers.SubscriptionLeaseManager.Shutdown` | src/subscription_lease_manager.cpp:685-700 | the first call empties both tables and destroys every runtime; later calls change nothing |
| `DefinitionLookup.ParseIsInverse` | src/ros_interfaces/definition_lookup.cpp:52-78 | parse accepts exactly package/kind/Name with known kind and takes it apart again |
| `DefinitionLookup.SpellingsAgree` | src/ros_interfaces/definition_lookup.cpp:168-181 | the short, the package-relative and the full spelling of a message are one dependency |
| `DefinitionLookup.NormalizedIsExact` | src/ros_interfaces/definition_lookup.cpp:161-181 | a type without its suffix names a message if and only if it is one of the three spellings, written out; a lower-case unqualified one names none |
| `DefinitionLookup.FieldDependsOnItsType` | src/ros_interfaces/definition_lookup.cpp:149-183 | white space, a type, white space and a name, and anything that does not go on with the name: the line depends on what the type names, unless it is a constant or a section separator |
| `DefinitionLookup.OnlyFieldsDepend` | src/ros_interfaces/definition_lookup.cpp:149-160 | a line that depends on anything has that form |
| `DefinitionLookup.DependencyIsExact` | src/ros_interfaces/definition_lookup.cpp:149-183 | for every text, a line depends on a message if and only if it declares a field of it: an optional array suffix and the three spellings written out, and neither a constant nor a separator |
| `DefinitionLookup.SingleLine` | src/ros_interfaces/definition_lookup.cpp:142-149 | a text of one line has the dependency of that line |
| `DefinitionLookup.CommentsDoNotMatter` | src/ros_interfaces/definition_lookup.cpp:149-151 | a comment changes no dependency |
| `DefinitionLookup.SectionsAddUp` | src/ros_interfaces/definition_lookup.cpp:142-187 | the dependencies of a text are those of its parts in order |
| `DefinitionLookup.ParseLine` | src/ros_interfaces/definition_lookup.cpp:149-183 | one turn of the loop finds the dependency of the line, which is the message whose field the line declares (DependencyIsExact) |
| `DefinitionLookup.ParseDependencies` | src/ros_interfaces/definition_lookup.cpp:142-187 | the token loop appends the dependency of each line in order |
| `DefinitionLookup.VisitIsDistinct` | src/ros_interfaces/definition_lookup.cpp:189-202 | the walk adds no type twice |
| `DefinitionLookup.VisitReaches` | src/ros_interfaces/definition_lookup.cpp:189-202 | what the walk adds can be loaded and is reached |
| `DefinitionLookup.VisitCloses` | src/ros_interfaces/definition_lookup.cpp:189-202 | what the walk adds has all its dependencies in the result |
| `DefinitionLookup.VisitNames` | src/ros_interfaces/definition_lookup.cpp:189-202 | what the walk adds comes after a type that names it |
| `DefinitionLookup.VisitFails` | src/ros_interfaces/definition_lookup.cpp:189-202 | when the walk fails some reached type cannot be loaded |
| `DefinitionLookup.LookupFailsExactly` | src/ros_interfaces/definition_lookup.cpp:206-212 | a lookup fails if and only if some reachable type cannot be loaded |
| `DefinitionLookup.LookupIsTheClosure` | src/ros_interfaces/definition_lookup.cpp:206-212 | root first, no duplicates, exactly the reachable types, each after a type that names it |
| `DefinitionLookup.VisitIsDepthFirst` | src/ros_interfaces/definition_lookup.cpp:189-202 | each type that the walk adds is the first dependency not yet there of the latest added type that has one, or else the first new one of what was asked for |
| `DefinitionLookup.LookupIsDepthFirst` | src/ros_interfaces/definition_lookup.cpp:206-212 | after the root, each definition is the first dependency not yet there of the latest type before it that has one, which fixes the whole order |
| `DefinitionLookup.Collector.Collect` | src/ros_interfaces/definition_lookup.cpp:189-202 | the recursion on the two shared containers terminates and follows the walk exactly, bodies included |
| `DefinitionLookup.LookupDefinitions` | src/ros_interfaces/definition_lookup.cpp:206-212 | the definitions of the closure in discovery order with their file bodies |
| `HeartbeatParsing.ClampedIsNearest` | src/protocol/subscriptions_json.cpp:66-92 | an integer becomes the nearest int, however it is represented |
| `HeartbeatParsing.IntervalsAreExact` | src/protocol/subscriptions_json.cpp:94-115 | what an entry asks for in each shape of its preferences: absent, an integer clamped to an int with 0 as absent, or the field at fault |
| `Text.TrimIsExact` | src/utils/trim.hpp:26-37 | trim() takes white space off both ends, and nothing else |
| `HeartbeatParsing.KindOfIsInverse` | src/protocol/subscriptions_json.cpp:42-54 | a kind is recognised exactly by its wire name |
| `HeartbeatParsing.NamesAreExact` | src/protocol/subscriptions_json.cpp:149-172 | a topic's name is what its trimmed text expands to, and any other the trimmed text if that is not empty; anything else is the name's fault |
| `HeartbeatParsing.WishesAreExact` | src/protocol/subscriptions_json.cpp:123-172 | an entry is a wish for a target if and only if its trimmed kind is the wire name of the target's kind, and name and interval are valid |
| `HeartbeatParsing.FaultsAreOrdered` | src/protocol/subscriptions_json.cpp:287-304 | which field is reported: the kind before the name, and the name before the interval |
| `HeartbeatParsing.ForeignIsNotValidated` | src/protocol/subscriptions_json.cpp:123-147 | an entry of unknown kind is never an error and is echoed verbatim, with its name exactly if that is a string |
| `HeartbeatParsing.FirstSeenIsOrdered` | src/protocol/subscriptions_json.cpp:306-311 | first-seen lists are ordered by first occurrence, hence without duplicates |
| `HeartbeatParsing.IntervalIsSmallest` | src/protocol/subscriptions_json.cpp:313-323 | a target's interval is the smallest non-zero one that its entries ask for, absent if none does |
| `HeartbeatParsing.DemandsAreCoalesced` | src/protocol/subscriptions_json.cpp:262-327 | distinct targets in first-seen order, each with its smallest interval |
| `HeartbeatParsing.EveryTargetIsDemanded` | src/protocol/subscriptions_json.cpp:306-311 | a target is demanded exactly if some entry asks for it |
| `HeartbeatParsing.PermutationKeepsDemands` | src/protocol/subscriptions_json.cpp:287-324 | permuting or repeating entries changes no demand |
| `HeartbeatParsing.SessionsAreExact` | src/protocol/subscriptions_json.cpp:269-276 | the session for each shape of its field: absent, null or blank is none, a text is trimmed, anything else is at fault |
| `HeartbeatParsing.BodyIsExact` | src/protocol/subscriptions_json.cpp:262-327 | the session is at fault before the entries; a heartbeat needs a list of entries and is made of all of them |
| `HeartbeatParsing.FirstInvalidIsReported` | src/protocol/subscriptions_json.cpp:287-304 | entries are accepted exactly if each is valid; otherwise the first invalid one is reported |
| `HeartbeatParsing.IndexOneMore` | src/protocol/subscriptions_json.cpp:306-311 | the string-keyed index finds exactly the targets, because keys are injective |
| `HeartbeatParsing.NewDemand` | src/protocol/subscriptions_json.cpp:308-311 | a new target is appended with its own interval |
| `HeartbeatParsing.KnownDemand` | src/protocol/subscriptions_json.cpp:313-323 | a known target keeps its place with the smaller interval |
| `HeartbeatParsing.Parser.AddForeign` | src/protocol/subscriptions_json.cpp:294-301 | an unsupported entry is kept once per raw kind and optional name, and demands nothing |
| `HeartbeatParsing.Parser.AddWish` | src/protocol/subscriptions_json.cpp:302-323 | the index and the demands stay the coalesced demands of the entries so far |
| `HeartbeatParsing.ParseItems` | src/protocol/subscriptions_json.cpp:287-326 | the loop returns the coalesced demands and the first-seen refusals, or the first error |
| `HeartbeatParsing.Parse` | src/protocol/subscriptions_json.cpp:262-327 | session, presence and type of the entries, then the entries, with the field reported at each failure |
| `Base64.AlphabetIsInverse` | src/protocol/detail/base64.cpp:27-45 | decodeSextet is the inverse of the RFC's alphabet, and '=' is outside it |
| `Base64.AlphabetIsTheTable` | src/protocol/detail/base64.cpp:27-45 | the alphabet is the table of RFC 4648, character by character |
| `Base64.QuantumIsBigEndian` | src/protocol/detail/base64.cpp:49-63 | four characters and up to three bytes are the same 24-bit number, highest first, and which characters are padding |
| `Base64.TestVectors` | src/protocol/detail/base64.cpp:49-63 | the encodings of section 10 of RFC 4648 |
| `Base64.ScanIsExact` | src/protocol/detail/base64.cpp:71-84 | the scan accepts exactly alphabet characters followed by equal signs, and counts these |
| `Base64.EncodedIsCanonical` | src/protocol/detail/base64.cpp:49-63 | encoding gives whole quanta, at most two equal signs and zero unused bits |
| `Base64.CanonicalIsEncoded` | src/protocol/detail/base64.cpp:95-110 | every canonical text is the encoding of what it decodes to |
| `Base64.DecodeIsInverse` | src/protocol/detail/base64.cpp:49-112 | decode(t) is Ok with bytes b if and only if encode(b) is t |
| `Base64.FailuresAreExact` | src/protocol/detail/base64.cpp:65-102 | when each failure status is returned, and that a failure exposes no bytes |
| `Base64.ScanPadding` | src/protocol/detail/base64.cpp:71-84 | the loop with its running counter and early return computes the scan |
| `Base64.Encode` | src/protocol/detail/base64.cpp:49-63 | the buffer of the computed size is filled with the encoding |
| `Base64.DecodeBlocks` | src/protocol/detail/base64.cpp:104-108 | the buffer is filled with three bytes per quantum |
| `Base64.Decode` | src/protocol/detail/base64.cpp:65-112 | the checks in their order, then the bytes without those of the padding |
| `NamePatterns.ParsedIsCanonical` | src/utils/ros_resource_name_utils.hpp:69-98 | a parsed pattern is a subtree exactly if its canonical text says so |
| `NamePatterns.ParseIsExact` | src/utils/ros_resource_name_utils.hpp:69-98 | what a text stands for by its shape: everything, the names below a stem, one name, or nothing if it is blank or its name is refused |
| `NamePatterns.CanonicalIsExact` | src/utils/ros_resource_name_utils.hpp:107-113 | a canonical pattern is a subtree if and only if its text ends in a star behind a slash |
| `NamePatterns.MatchesExactly` | src/utils/ros_resource_name_utils.hpp:135-148 | an exact name matches itself alone, and a subtree exactly what its stem and a slash begin |
| `NamePatterns.SubtreeMatches` | src/utils/ros_resource_name_utils.hpp:136-148 | a subtree matches exactly what starts with its text up to the star, the root included |
| `NamePatterns.LongerIsNarrower` | src/utils/ros_resource_name_utils.hpp:125-148 | of two patterns that match a resource without trailing slash the longer is the narrower |
| `NamePatterns.LongestIsNarrowestExactly` | src/utils/ros_resource_name_utils.hpp:125-148 | length measures narrowness for a resource if and only if it does not end in a slash |
| `NamePatterns.FindBestMatch` | src/utils/ros_resource_name_utils.hpp:196-212 | the loop returns the first-declared entry of maximal length among the matches, and none exactly if none matches |
| `NamePatterns.BestIsNarrowest` | src/utils/ros_resource_name_utils.hpp:196-212 | for any resource the chosen entry is narrower than another match if and only if it is not a subtree chosen over the exact name |
| `NamePatterns.SubtreeBeatsExactName` | src/utils/ros_resource_name_utils.hpp:196-212 | a subtree is chosen over the exact name only as an equally long one declared first, or for a resource that ends in a slash |
| `NamePatterns.ExactNameIsPassedOver` | src/utils/ros_resource_name_utils.hpp:196-212 | one input of each kind for which the chosen entry is not the narrowest match |

## Left out

- LiveKit SDK, rclcpp and rcl wait sets, GStreamer, OpenSSL, type-support loading and the file system: each is an outcome that may succeed or fail; base64 quanta follow RFC 4648 instead of the library.
- Exceptions of `syncWaitableLocked` (rcl timer errors).
- JSON text, serialization, logging, message texts and ROS name expansion: JSON values are a datatype, and name expansion is a function. Integers too wide for 64 bits reach the parser as floats and are rejected.
- Base64.Encode: sizes above INT_MAX, which the source narrows to int before it calls the library, are not modelled; the model encodes any length.
- Base64.Decode: the same for texts above INT_MAX.
- SubscriptionLeaseManagers.SubscriptionLeaseManager.Renew: publishers are values inside the table, so sharing a publisher object with somebody outside is not modelled.
- DataTracks: the throttling and caching of pushed frames, and the gate around the subscription callback (that is CallbackGates).
- RoomConnection: a publish that fails after the SDK has taken the track, and what registering an RPC handler does in the room.
- ServiceCaller.Impl.SyncWaitable: the snapshot of the clients and the wake-up of the waitable are not modelled, because the wait set is outside the model.
- ServiceProtocol.QuotaIsKept: the run machine has no counters of its own; class ServiceCaller.Impl keeps them, and the lemma speaks of any counters that agree with the table.
- ServiceCaller: the client cache and its limit, and the list of clients handed to the waitable, are part of the outcome of starting a call.
- AudioStream: callbacks of the pipeline are counted as in AudioPipeline with prompt callbacks; the video stream, which locks differently, is not modelled.
- AudioPipeline.GStreamerPipeline.Start: the method lets callbacks come and go while it spins; those that come in during the change to PLAYING are in the step machine only.
- AudioStream.GStreamerStream.Start: the class runs one call at a time, and while it spins the callbacks inside only leave; other interleavings are in the step machine.
- DefinitionLookup: the cache of failed lookups, and a file system that changes during a lookup.
- QoS resolution, whose outcome depends on a compatibility check of rclcpp.
- ConnectionWatchdog, EventThrottle, FailureCache, AccessPolicy, percent encoding, config loaders, status serialization and `dispatchEchoOnce`: each is local to one function or one small object, and no protocol above depends on how it works inside.
