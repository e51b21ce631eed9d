# EAVP: a verified model of the media runtime

EAVP is a single-process runtime that moves audio and video frames from capture devices through processors and
encoders to sinks. This project models its hardest parts in Dafny and proves what they promise. `dafny verify
dfyconfig.toml` checks all of it.

The files follow the parts of the system:

- **Bounded queues and the draining pipeline.** `Queues` (bounded queue, output port), `Backends` (the reference
  processor and encoder), `BackendNodes` (the nodes around a backend; the processor and the encoder node have the same
  text, so one class models both), `NodeStates`, `Graph` (Kahn's algorithm), `HookCalls` and `Lifecycle` (a pipeline
  over any nodes: their hooks may answer anything, and which were asked is recorded). `ReferencePipeline` and
  `ReferencePlatform` are the source, processor, encoder, sink chain as classes, in the order of the statements of the
  source; every method is proved equal to a function of `ReferenceChain`, about which `ChainSafety` (conservation),
  `ChainDrain` and `ChainDrainLimit` (the drain ends, and exactly when), `ChainTurns`, `ChainThroughput` (exact
  throughput) and `ChainLoss` (a lost device) are proved. `ChainOrder` builds the graph of that chain and shows that
  it has no other order.
- **Start, stop and join of the Linux runtime.** `RuntimeProtocol` is a transition system over one reactor thread and
  any number of callers, and `RuntimeVerdict` says of every run what its calls answer; `RuntimeDrain` is the drain of
  a stopping runtime against a monotonic clock; `EventLoop` is the registration transaction and the turn of the event
  loop against the kernel's interest list.
- **Plane layout negotiation.** `SizeArithmetic` (overflow checks, alignment, greatest common divisor and least common
  multiple on 64-bit sizes), `VideoFormats`, `Layouts` (the check and the construction), `LayoutLaws` (their
  agreement), `PicturePixels` (what both mean for every pixel), `Negotiation` (encoders and processors), `Registry`
  (the choice of a provider), `Buffers` (planes in a storage, and the alignment check when a frame is submitted).
- **Capture.** `AlsaTimeline`, `AlsaDevice` and `AlsaCapture` (audio), `V4l2Layout`, `V4l2Copy`, `V4l2Kernel`,
  `V4l2Device` and `V4l2Source` (video), `Observers`.

What the model cannot see - hooks, devices, kernel, clocks, observers, outputs, wait sources - are classes whose methods
may answer anything that their contracts allow. Each of them records its calls and answers in a ghost field, and the
methods of the model say how their results and statuses follow from what was recorded.

## What the model found

- A drain ends for every reachable pipeline exactly when `output_delay < queue_capacity` (no injected device loss).
  Otherwise an encoder with a pending input answers would-block for ever: `ChainDrainLimit.DrainEndsIff`.
- The last stop of a drain that meets the injected encoder back-pressure answers would-block with the pipeline in its
  error state, and the next one stops it; the bound counts that turn.
- A device that outlives `n` frames is lost with frame `n + 1`. After such a loss, a stop resets every node, but no
  queue: a frame that waited behind the processor is still there after the next start, ahead of the frames of the new
  session (`ChainLoss.LostStops`).
- If no device is lost, `tick(count)` gives exactly `count` packets in `count + 2` turns exactly when the encoder holds back as many frames
  as its delay beforehand (with delay 0, always); otherwise it gives up after its maximum number of turns.
- `make_actual_format` refuses some layouts that fit at offset zero, because the least common multiple of two
  alignments is not a size (`LayoutLaws.AlignmentOverflowIsRefused`), and some that fit with their planes out of order
  only (`LayoutLaws.OutOfOrderIsRefused`). It finds room exactly when a layout with its planes in order fits and no
  such multiple overflows.
- A processor that requires identical formats may refuse the very configuration it has settled on, when it aligns its
  two ends differently: `Negotiation.IdenticalFormatsMayNotSettle`. It accepts it again exactly when the two formats
  are equal.
- A driver that refuses a buffer with "no such entry" makes the video node answer not-found, which a running node
  survives although the driver lacks the buffer from then on (`V4l2Source.MissingIsSurvived`); no other refusal is
  survived: `V4l2Source.V4L2SourceNode.Tick`.
- `add_milliseconds` adds nanoseconds before it has checked them, and on some malformed starts that sum is no `long`:
  `RuntimeDrain.MalformedSumUndefined`. `RuntimeDrain.SumDefinedIff` says exactly on which; every normalised start is
  safe. The model adds integers and refuses the malformed start, as the code means to.
- An event loop that is initialised again after `close` does not watch the sources in its tables
  (`EventLoop.NewInstanceForgets`); the interest list matches the tables after a fresh start exactly if there are none:
  `EventLoop.LinuxEventLoop.Initialize`.

## Model

| member | source | states |
|---|---|---|
| Queues.BoundedQueue.PreflightPush | include/eavp/media/queue.hpp:24-35 | what a push would answer, changing nothing |
| Queues.BoundedQueue.Push | include/eavp/media/queue.hpp:37-52 | the queue after a push under each of the three overflow policies |
| Queues.BoundedQueue.Pop | include/eavp/media/queue.hpp:54-62 | the oldest value leaves, or not-found and no change |
| Queues.PushAllKeepsWindow | include/eavp/media/queue.hpp:37-52 | after any run of pushes the queue holds exactly the first or the last values that its policy keeps, and counts every one it dropped |
| Queues.SendCheckIff | include/eavp/media/port.hpp:26-37 | the preflight of a send succeeds exactly when every connected queue would take the value |
| Queues.SendIsAtomic | include/eavp/media/port.hpp:26-47 | a send that fails has pushed to no queue; one that succeeds has pushed to all |
| Queues.OutputPort.Send | include/eavp/media/port.hpp:26-47 | the in-place send over the connected queues does what the function says |
| Queues.Connect | include/eavp/media/port.hpp:87-98 | an input port is connected once, behind an empty queue of its own; a second upstream and a capacity of zero are refused and change nothing |
| Backends.BackendIsFifo | src/media/reference_backend.cpp:196-294 | over any sequence of calls, emitted frames followed by the backlog equal accepted frames, in order, unless the device was lost; never more are accepted than the device outlives, nor held than the capacity |
| Backends.SubmitAnswers | src/media/reference_backend.cpp:351-404 | after any calls, the answer of a submit from the history alone: the device is lost exactly when it has taken as many frames as it outlives, and that leaves the error state and an empty queue |
| Backends.ReceiveAnswers | src/media/reference_backend.cpp:406-440 | after any calls, what a receive hands out: the oldest frame beyond the delay, or any once a drain was granted |
| Backends.ControlAnswers | src/media/reference_backend.cpp:175-194 | after any calls, what configure, drain and reset answer, and that a reset starts over |
| Backends.DrainEmitsBacklog | src/media/reference_backend.cpp:442-457 | once draining, receives hand out the whole backlog regardless of the delay, and then end of stream |
| Backends.ReferenceBackend.Configure | src/media/reference_backend.cpp:175-194 | the state machine and options after configure |
| Backends.ReferenceBackend.Submit | src/media/reference_backend.cpp:351-404 | accepts, refuses or loses the device, leaving the queue as the function does of which `SubmitAnswers` speaks |
| Backends.ReferenceBackend.Receive | src/media/reference_backend.cpp:406-440 | emits the oldest frame only beyond the delay or while draining |
| Backends.ReferenceBackend.BeginDrain | src/media/reference_backend.cpp:442-457 | draining begins once, from an active state only |
| Backends.ReferenceBackend.Reset | src/media/reference_backend.cpp:459-476 | everything queued is dropped and the state starts over; injected back-pressure happens once |
| BackendNodes.BackendNode.SendPendingOutput | src/media/backend_node.cpp:237-246 | the pending output is sent or stays |
| BackendNodes.BackendNode.OnTick | src/media/backend_node.cpp:248-295 | the whole new state of node, backend, input and output queue after a tick |
| BackendNodes.BackendNode.OnStop | src/media/backend_node.cpp:297-379 | the whole new state after one resumable stop step |
| BackendNodes.BackendNode.OnReset | src/media/backend_node.cpp:381-397 | the whole new state after a reset |
| BackendNodes.TickConserves | src/media/backend_node.cpp:61-108 | a tick ending in a benign status loses, copies and reorders no frame |
| BackendNodes.StopConserves | src/media/backend_node.cpp:110-193 | a stop step loses, copies and reorders no frame, whatever its status, unless the device is lost |
| BackendNodes.FeedFails | src/media/backend_node.cpp:281-295 | a frame that the backend refuses for good is lost if it was just taken from the queue, and goes on waiting if it waited; the backlog is lost with the device only |
| BackendNodes.ResetStartsOver | src/media/backend_node.cpp:381-397 | a granted reset leaves a node as it was made, whatever it held; one that would block leaves the backlog and is granted next time |
| BackendNodes.TickProgress | src/media/backend_node.cpp:248-295 | a tick moves some frame forward unless its consumer is full or there is nothing to move |
| BackendNodes.StopProgress | src/media/backend_node.cpp:297-379 | a stop step that asks for another turn moved some frame forward unless its consumer is full |
| ReferencePipeline.FrameSource.OnTick | src/platform/reference_media_platform.cpp:102-157 | the source makes one frame with the next timestamp out of its budget, or sends the one that waits |
| ReferencePipeline.PacketSink.ConsumeOne | src/platform/reference_media_platform.cpp:202-227 | the sink takes the oldest packet and counts it |
| ReferencePipeline.PacketSink.OnStop | src/platform/reference_media_platform.cpp:229-234 | the sink is done exactly when its queue is empty |
| ReferencePipeline.Pipeline.constructor | src/platform/reference_media_platform.cpp:284-402 | the four nodes are connected in order by queues of four frames that block their producer |
| ReferencePipeline.Pipeline.Start | src/media/pipeline.cpp:131-177 | the state of the whole chain after a start |
| ReferencePipeline.Pipeline.Tick | src/media/pipeline.cpp:257-276 | the state of the whole chain after a tick |
| ReferencePipeline.Pipeline.TickRunningDownstream | src/media/pipeline.cpp:115-129 | the nodes behind the draining one go on running |
| ReferencePipeline.Pipeline.DrainOnce | src/media/pipeline.cpp:207-237 | the state of the whole chain after one turn of the drain loop |
| ReferencePipeline.Pipeline.Stop | src/media/pipeline.cpp:179-238 | the state of the whole chain after a stop call |
| ChainSafety.StopKeeps | src/media/pipeline.cpp:179-238 | a stop that answers a benign status keeps the invariant, and answers ok exactly when the pipeline has stopped |
| ChainSafety.StepKeeps | src/media/pipeline.cpp:131-276 | every start, tick, stop and refill step keeps the invariant of the chain |
| ChainSafety.RunConserves | src/media/backend_node.cpp:50-193 | in every run, frames made equal frames consumed followed by those in flight, in order; a stopped pipeline has nothing in flight |
| ChainDrain.NoStepFails | src/media/pipeline.cpp:131-276 | without injected device loss a step answers a benign status, or refuses and changes nothing |
| ChainDrain.EverySequenceRuns | src/media/pipeline.cpp:131-276 | without injected device loss every sequence of start, tick, stop and refill is a run, so what is proved of runs holds of all of them |
| ChainDrain.NodeTickWeighs | src/media/backend_node.cpp:248-295 | a tick never moves weight backwards and moves some forward unless held up or idle |
| ChainDrain.NodeStopWeighs | src/media/backend_node.cpp:297-379 | the same for a stop step |
| ChainDrain.StopWeighs | src/media/pipeline.cpp:207-237 | a stop that answers would-block strictly lowered the weight of the frames in flight, each counted by its distance to the sink, plus one for the outstanding reset back-pressure |
| ChainDrain.DrainEnds | src/media/pipeline.cpp:179-238 | repeated stops reach the stopped state within that weight plus one, and the sink saw every frame |
| ChainDrainLimit.JamForever | src/media/backend_node.cpp:297-379 | once an encoder with a pending input is jammed, no number of stops ends the drain |
| ChainDrainLimit.SomeRunJams | src/platform/reference_media_platform.cpp:159-234 | with no room for the delay, some reachable pipeline is jammed |
| ChainDrainLimit.DrainEndsIff | src/media/pipeline.cpp:207-237 | every reachable pipeline drains if and only if the delay is below the queue capacity |
| ChainTurns.PlainTurn | src/platform/reference_media_platform.cpp:102-157 | one tick of a chain with room moves every frame by one hop |
| ChainTurns.LossTurn | src/media/reference_backend.cpp:215-217 | the tick in which the processor has taken all its device outlives: device-lost, the pipeline in error, one more frame made |
| ChainThroughput.TurnsAreExact | src/platform/reference_media_platform.cpp:537-586 | the exact state of the chain after any number of turns from a quiescent one |
| ChainThroughput.ExactThroughput | src/platform/reference_media_platform.cpp:537-586 | from a quiescent chain whose devices outlive the request, count frames are made and as many encoded in count + 2 turns, not earlier, and the chain is quiescent again |
| ChainThroughput.StartIsQuiescent | src/media/pipeline.cpp:131-177 | a start of a created or stopped pipeline with room for its delay succeeds and leaves a quiescent one |
| ChainLoss.LossIsExact | src/media/reference_backend.cpp:215-217 | a request for more frames than the devices outlive: they take all they can, and the next turn loses the device with one frame more made, whatever the delay |
| ChainLoss.LostStops | src/media/pipeline.cpp:195-205 | such a pipeline stops with the first or second stop and starts again; a frame that waited behind the processor is still there |
| ReferencePlatform.Outcome | src/platform/reference_media_platform.cpp:559-586 | if the devices outlive the request, the turn loop ends at turn count + 2 or at its maximum, with a quiescent chain |
| ReferencePlatform.ReferenceMediaPlatform.RunTurns | src/platform/reference_media_platform.cpp:559-586 | from any pipeline, the loop ends with the target reached, at the maximum, or at the first turn that fails, and every turn before was needed; none fails from a quiescent one |
| ReferencePlatform.ReferenceMediaPlatform.Tick | src/platform/reference_media_platform.cpp:537-586 | the refusals of tick(count); from any running pipeline, the first failure or whether the sink got what was asked for; from a quiescent one, the exact number of turns and packets if the devices outlive the request, and otherwise device-lost with the pipeline in error after one frame more than they take |
| ReferencePlatform.RequestsStayExact | src/platform/reference_media_platform.cpp:537-586 | over any sequence of starts, requests and stops, every running pipeline in which a request is made is quiescent, so that the exact numbers hold for it |
| ChainOrder.ChainHasOneOrder | src/platform/reference_media_platform.cpp:374-385 | the edges of the reference pipeline admit exactly one order, that of the chain |
| ChainOrder.BuildPipeline | src/platform/reference_media_platform.cpp:354-385 | the four nodes and three edges are all accepted, and these are the edges of the graph |
| Graph.MediaGraph.AddNode | src/media/graph.cpp:9-18 | a new id joins the nodes once |
| Graph.MediaGraph.Connect | src/media/graph.cpp:20-35 | an edge is refused exactly when it is unknown, a loop, known or closes a cycle, and a refusal leaves the edge relation as it was |
| Graph.MediaGraph.TopologicalOrder | src/media/graph.cpp:37-81 | succeeds exactly when the edges are acyclic, with a permutation of the nodes in which every edge runs forward |
| Graph.OrderMeansAcyclic | src/media/graph.cpp:37-81 | an order with forward edges rules out every cycle |
| Graph.StuckMeansCycle | src/media/graph.cpp:75-80 | if every node left over waits for another one left over, there is a cycle |
| Graph.NewEdgeCloses | src/media/graph.cpp:20-35 | a new edge closes a cycle exactly when its source was reachable from its sink |
| Lifecycle.MediaNode.Prepare | src/media/node.cpp:11-21 | the node state after prepare, and that the hook is asked once exactly if the state calls for it |
| Lifecycle.MediaNode.Start | src/media/node.cpp:23-33 | the node state after start, and that the hook is asked once exactly if the node is prepared |
| Lifecycle.MediaNode.Stop | src/media/node.cpp:35-57 | stopped, draining or error after stop, by the answer of the hook, which is asked exactly if the node has been prepared and has not stopped |
| Lifecycle.MediaNode.Reset | src/media/node.cpp:59-66 | created again, or error, by the answer of the hook, which is asked unless the node is created |
| Lifecycle.MediaNode.Tick | src/media/node.cpp:68-85 | benign answers keep a node running; the hook is asked exactly if it runs |
| Lifecycle.MediaPipeline.AddNode | src/media/pipeline.cpp:25-42 | nodes join only while nothing runs, every refusal is exact, and agreement is kept if the node is new |
| Lifecycle.MediaPipeline.Connect | src/media/pipeline.cpp:44-60 | edges join only while nothing runs, exactly those that the graph accepts, and agreement is kept |
| Lifecycle.MediaPipeline.StopNodesReverse | src/media/pipeline.cpp:62-68 | every node of the prefix is stopped and then reset, last node first, and ends at rest, whatever its hooks answer |
| Lifecycle.MediaPipeline.ResetNodesReverse | src/media/pipeline.cpp:70-90 | every node that is not created is asked to reset, last first, whatever they answer, and the first failure in that order is kept |
| Lifecycle.MediaPipeline.TickRunningDownstream | src/media/pipeline.cpp:115-129 | exactly the running nodes behind the draining one are asked to tick, in order, up to the first hard failure, which alone changes a node state |
| Lifecycle.MediaPipeline.Start | src/media/pipeline.cpp:131-177 | all nodes are asked to prepare and then to start, in topological order, up to the first failure; then those prepared are taken back last first; either every node runs, or the pipeline is in error and none is left prepared or running |
| Lifecycle.MediaPipeline.Stop | src/media/pipeline.cpp:179-238 | which hooks a turn of the drain asks, in which order, and the status that follows from their answers; a failed pipeline is only reset; the states always mean what the node states say, and a drain never goes back |
| Lifecycle.MediaPipeline.Cancel | src/media/pipeline.cpp:240-255 | every node that is not created is asked to reset exactly once, last first; stopped exactly if all of them answer ok, and every node at rest |
| Lifecycle.MediaPipeline.Tick | src/media/pipeline.cpp:257-276 | every node is asked to tick once, in topological order, until one fails, whose answer is then the status and leaves the pipeline in error; otherwise not one is left out |
| Lifecycle.MediaPipeline.StopsAfterAncestors | src/media/pipeline.cpp:207-237 | between the turns of a drain no node is stopped or stopping before everything upstream of it, over any number of edges, has stopped |
| Lifecycle.MediaPipeline.CurrentAfterAncestors | src/media/pipeline.cpp:207-237 | whenever the drain is about to stop a node, everything upstream of it has stopped |
| Lifecycle.MediaPipeline.StopCurrent | src/media/pipeline.cpp:208-209 | in a drain, the stop hook of a node is only asked in such a state |
| HookCalls.ResetsAreOnce | src/media/pipeline.cpp:70-90 | resetting an order asks exactly the nodes that are not created, each once, and loses no answer of theirs |
| Statuses.FirstFailureIsFirst | src/media/pipeline.cpp:70-90 | the failure that is kept is the first one answered |
| RuntimeProtocol.StepKeeps | src/platform/linux/platform_runtime.cpp:275-405 | every enabled step of any thread keeps the protocol invariant |
| RuntimeProtocol.StepLoopSafe | src/platform/linux/platform_runtime.cpp:592-606 | the loop is never closed under a wake, never woken when closed, and no wake begins once the reactor is exiting |
| RuntimeProtocol.StepSafe | src/platform/linux/platform_runtime.cpp:550-574 | at every step the state of the runtime never moves backwards, a final state and result stay, and the loop and the join are safe |
| RuntimeProtocol.StepJoinSafe | src/platform/linux/platform_runtime.cpp:445-486 | the thread is joined at most once, and no stop answers before it has ended |
| RuntimeProtocol.ProtocolIsSafe | src/platform/linux/platform_runtime.cpp:677-804 | all of this at every step of every run, for any number of callers; all stops answer the same status, and what each failure is, `AnswersAreVerdicts` says |
| RuntimeVerdict.AnswersAreVerdicts | src/platform/linux/platform_runtime.cpp:36-44 | over any run, with the failures its steps reported as a history: a final state is stopped exactly if none counted, its result is the first of thread creation, media, wake, reactor and observer, and every stop answers that |
| RuntimeVerdict.OkMeansNoFailure | src/platform/linux/platform_runtime.cpp:550-574 | a stop answers ok only if no step of the run reported a failure |
| RuntimeVerdict.StoppedWasAsked | src/platform/linux/platform_runtime.cpp:677-804 | over any run, the runtime stops and its reactor leaves without a failure only if a stop asked for it, and the event loop is closed once the reactor has finished |
| RuntimeProtocol.NoDeadlock | src/platform/linux/platform_runtime.cpp:341-405 | whoever is inside start or stop, some thread can take a step |
| RuntimeProtocol.StepAdvances | src/platform/linux/platform_runtime.cpp:275-405 | every step brings the reactor or a caller nearer to its end, new calls aside |
| RuntimeProtocol.EveryCallIsAnswered | src/platform/linux/platform_runtime.cpp:275-405 | every run is finite but for new calls, eight steps a stop and twenty-four a start, and a run that can go on no further has answered every call |
| RuntimeDrain.AddMilliseconds | src/platform/linux/platform_runtime.cpp:56-76 | the exact normalised sum, failing exactly on a malformed start, a negative count or seconds that overflow |
| RuntimeDrain.SumDefinedIff | src/platform/linux/platform_runtime.cpp:58-59 | for any start and any count, the bound on the nanoseconds below or above which exactly the sum is defined |
| RuntimeDrain.SumAlwaysDefinedIff | src/platform/linux/platform_runtime.cpp:58-59 | the sum is defined for every count of milliseconds exactly if the start keeps 999 milliseconds from both limits |
| RuntimeDrain.NormalisedSumDefined | src/platform/linux/platform_runtime.cpp:58-59 | on a normalised start the sum of nanoseconds is always a 64-bit long |
| RuntimeDrain.MalformedSumUndefined | src/platform/linux/platform_runtime.cpp:58-59 | a malformed start on which the sum of nanoseconds is no 64-bit long |
| RuntimeDrain.ComparesNanoseconds | src/platform/linux/platform_runtime.cpp:78-86 | the two comparisons order normalised instants by their nanoseconds |
| RuntimeDrain.WaitBeforeRetry | src/platform/linux/platform_runtime.cpp:88-107 | a wait sleeps until one millisecond from now or the deadline, whichever is first, again after each interruption; it fails exactly if a sleep fails or the sixty-fourth is interrupted |
| RuntimeDrain.CancelAll | src/platform/linux/platform_runtime.cpp:535-548 | every pipeline is cancelled once, last first, whatever it answers, and the first failure is kept, one recorded before included |
| RuntimeDrain.StopPass | src/platform/linux/platform_runtime.cpp:628-648 | one pass asks every pipeline that has not stopped once, last first, until one fails, and counts those that remain |
| RuntimeDrain.StopUntil | src/platform/linux/platform_runtime.cpp:625-670 | whole passes over all that have not stopped, at most as many as pipelines and milliseconds; both codes are ok exactly if every pipeline stopped; a pipeline failed, the last clock call failed, or the last reading had reached the deadline |
| RuntimeDrain.Drain | src/platform/linux/platform_runtime.cpp:608-675 | within that bound, why the drain ended by the recorded answers of pipelines and clock: a reactor failure needs a failed reading, sum or sleep, a timeout a reading at the deadline; unless every pipeline stopped, all are cancelled and the first failure is kept |
| EventLoop.WatchedAsRequested | src/platform/linux/linux_event_loop.cpp:27-35 | the kernel is asked to watch exactly the kinds a source asked for, reading in either word |
| EventLoop.ReportedAsRequested | src/platform/linux/linux_event_loop.cpp:37-56 | a source is told of each kind of event exactly if the kernel reports it, and of reading in the flags it asked for |
| EventLoop.LinuxEventLoop.Initialize | src/platform/linux/linux_event_loop.cpp:166-209 | both descriptors or none, by the answers of the calls, those opened being closed again; the interest list matches the tables exactly if they were empty |
| EventLoop.NewInstanceForgets | src/platform/linux/linux_event_loop.cpp:166-209 | tables on which a loop initialised again does not watch what they register |
| EventLoop.LinuxEventLoop.CheckDescriptors | src/platform/linux/linux_event_loop.cpp:230-244 | accepts exactly descriptors that are valid, distinct and not registered, and refuses the first that is not with the code it calls for |
| EventLoop.LinuxEventLoop.RollbackRegistration | src/platform/linux/linux_event_loop.cpp:110-126 | one attempt to remove each descriptor, last first; the interest list is as before exactly if all are granted, and otherwise the loop is invalidated with both descriptors closed |
| EventLoop.LinuxEventLoop.Invalidate | src/platform/linux/linux_event_loop.cpp:128-142 | both descriptors are closed and the loop is given up |
| EventLoop.StagedIsConsistent | src/platform/linux/linux_event_loop.cpp:246-271 | the staged tables keep descriptors, sources and tokens distinct, each token leading back to its descriptor |
| EventLoop.StagedMatches | src/platform/linux/linux_event_loop.cpp:273-295 | once the kernel watches the new descriptors, its list matches the staged tables |
| EventLoop.LinuxEventLoop.Watch | src/platform/linux/linux_event_loop.cpp:273-289 | all descriptors are watched, or the kernel refused one and those before were taken back, or the loop is invalidated |
| EventLoop.LinuxEventLoop.RegisterSource | src/platform/linux/linux_event_loop.cpp:211-309 | tables and interest list change together; a failure changes neither, or invalidates the loop; a sound request fails only in the kernel |
| EventLoop.LinuxEventLoop.Dispatch | src/platform/linux/linux_event_loop.cpp:349-386 | every descriptor is shown the union of this turn's events for its token, and nothing older |
| EventLoop.LinuxEventLoop.Evaluate | src/platform/linux/linux_event_loop.cpp:388-404 | every source that had an event is shown its descriptors and asked once, until one fails; the pipelines of those that answered yes, each once |
| EventLoop.LinuxEventLoop.WaitOnce | src/platform/linux/linux_event_loop.cpp:311-415 | a successful turn lists exactly the pipelines owning a source that had an event and answered yes; a turn fails exactly by an answer of the kernel or of a source, and the origin tells which; the interest list stays matched |
| EventLoop.LinuxEventLoop.Close | src/platform/linux/linux_event_loop.cpp:434-459 | both descriptors are closed whatever fails, and the first failure is returned |
| SizeArithmetic.CheckedAdd | src/media/capability.cpp:15-21 | succeeds exactly when the sum is a size |
| SizeArithmetic.CheckedMultiply | src/media/capability.cpp:23-30 | succeeds exactly when the product is a size |
| SizeArithmetic.AlignUp | src/media/capability.cpp:32-42 | the least multiple, failing exactly for alignment zero or when it is no size |
| SizeArithmetic.AlignedUpIsLeast | src/media/capability.cpp:32-42 | no multiple at or above the value is smaller |
| SizeArithmetic.GreatestCommonDivisor | src/media/capability.cpp:44-51 | the loop computes the greatest common divisor |
| SizeArithmetic.Bezout | src/media/capability.cpp:44-51 | it divides both numbers and is an integer combination of them |
| SizeArithmetic.LeastCommonMultiple | src/media/capability.cpp:53-57 | the least common multiple, failing exactly when it is no size; zero if one operand is zero, and a failure if both are |
| SizeArithmetic.LcmIsLeast | src/media/capability.cpp:53-57 | every common multiple is a multiple of it |
| VideoFormats.ValidatePlane | src/media/video_format.cpp:25-36 | accepts exactly planes that hold their rows, without overflow |
| VideoFormats.ValidatePlaneRanges | src/media/video_format.cpp:38-58 | accepts exactly planes that are addressable and pairwise disjoint |
| VideoFormats.ValidateFormat | src/media/video_format.cpp:60-131 | the status of every combination of pixel format, size and planes |
| VideoFormats.CreateFormat | src/media/video_format.cpp:158-179 | a format exists exactly if its fields describe a picture |
| Layouts.DimensionRange.Valid | src/media/capability.cpp:352-362 | a range is valid exactly if its least aligned extent fits |
| Layouts.DimensionRange.Contains | src/media/capability.cpp:364-374 | a size is contained exactly if it is on a step and its aligned extent fits |
| Layouts.PlaneMatches | src/media/capability.cpp:208-239 | the checked arithmetic accepts a plane exactly when it meets its constraint over the integers, of which `AcceptedIffPixels` gives the meaning |
| Layouts.LayoutMatches | src/media/capability.cpp:164-242 | the loop over planes and pairs accepts exactly the layouts whose planes are apart and meet their constraints |
| Layouts.PlacePlane | src/media/capability.cpp:270-302 | one plane is placed as the least layout places it, or not at all if a number is no size |
| Layouts.PlacePlanes | src/media/capability.cpp:264-308 | the loop builds the least layout, failing exactly when it cannot be represented |
| Layouts.MakeActualFormat | src/media/capability.cpp:244-314 | the format offered in the place of a requested one, with every error, for any ranges of dimensions |
| LayoutLaws.PackedMeets | src/media/capability.cpp:264-303 | the layout that is built passes the check, with its planes in order |
| LayoutLaws.ActualFormatIsAccepted | src/media/capability.cpp:164-314 | what make_actual_format returns passes layout_matches for every alignment that is a common multiple |
| LayoutLaws.ActualFormatIsLeast | src/media/capability.cpp:187-303 | every accepted layout has, plane by plane, at least its stride and size |
| LayoutLaws.PackedIsLeast | src/media/capability.cpp:264-303 | every accepted layout with its planes in order has at least its offsets as well |
| LayoutLaws.RoomIsFoundIff | src/media/capability.cpp:264-303 | room is found exactly when some layout in order fits and no offset alignment overflows |
| LayoutLaws.RoomIsRefusedIff | src/media/capability.cpp:244-314 | so for valid ranges a format is refused for want of room exactly when no layout in order fits or an offset alignment overflows |
| LayoutLaws.AlignmentOverflowIsRefused | src/media/capability.cpp:295-300 | an input on which a fitting layout exists and is refused |
| LayoutLaws.OutOfOrderIsRefused | src/media/capability.cpp:264-303 | an input on which a layout fits with its planes out of order only, and is refused without any overflowing alignment |
| PicturePixels.AcceptedIffPixels | src/media/capability.cpp:164-242 | a layout is accepted exactly if its planes share no byte, are aligned as demanded, and have a place for the sample of every pixel of the storage extent, within its stride and within the size |
| PicturePixels.PlaneHoldsIff | src/media/capability.cpp:208-239 | the stride and the size demanded of a plane are those that give every pixel its place, not a byte or a row more |
| PicturePixels.FormatIffPixels | src/media/video_format.cpp:60-131 | fields describe a picture exactly if its size is whole in the sampling of its pixel format and every plane has a place for every sample |
| PicturePixels.RefusalIs | src/media/video_format.cpp:60-131 | fields are refused as unsupported exactly if their planes are apart and a size is not whole in the sampling, and otherwise as invalid |
| Negotiation.FindFormat | src/media/capability.cpp:59-69 | the first capability of a pixel format and memory domain, or none |
| Negotiation.CreateConfig | src/media/video_codec.cpp:40-64 | a configuration exists exactly if its crop lies in the input and its rotation is a right angle |
| Negotiation.EncoderSettles | src/media/capability.cpp:562-638 | asking an encoder again with the format it settled on needs no conversion and changes nothing |
| Negotiation.GrantedAsAsked | src/media/capability.cpp:562-638 | what an encoder grants is the picture asked for, coded as asked, unchanged and without a copy if that was asked |
| Negotiation.DirectIsGranted | src/media/capability.cpp:562-638 | a format that can be read as it is, coded in a way the encoder knows, is never refused or replaced |
| Negotiation.ProcessorSettlesIff | src/media/capability.cpp:437-560 | the same for a processor, exactly unless it wants identical formats and settled on different ones |
| Negotiation.ProcessorGrantsAsAsked | src/media/capability.cpp:437-560 | what a processor grants needs no operation it lacks, and no copy if that was asked |
| Negotiation.DirectIsProcessed | src/media/capability.cpp:437-560 | formats that can be used as they are, with nothing to do but what the processor can, are never refused or replaced |
| Negotiation.ScalingIff | src/media/capability.cpp:118-130 | scaling is needed exactly if the crop, after its quarter turns, has not the size of the output |
| Negotiation.NothingRequiredIff | src/media/capability.cpp:118-141 | no operation is needed exactly if the whole picture is passed on as it is |
| Negotiation.IdenticalFormatsMayNotSettle | src/media/capability.cpp:445-449 | an input on which a processor refuses what it settled on |
| Registry.PreferredRank | src/media/capability.cpp:316-324 | the first position of the provider among the preferred, or behind all of them |
| Registry.ProviderCapability.FirstServing | src/media/capability.cpp:710-732 | the first capability that matches, none before it |
| Registry.ProviderCapability.Match | src/media/capability.cpp:654-702 | a provider matches exactly if it is allowed, available and some capability matches; a refusal is its availability or a mismatch |
| Registry.ZeroCopyRankAgrees | src/media/capability.cpp:704-825 | the zero-copy rank of the score agrees with the flag of the negotiation returned |
| Registry.LessTotal | src/media/capability.cpp:640-652 | the order of scores is irreflexive and leaves no two different scores tied |
| Registry.LessTransitive | src/media/capability.cpp:640-652 | the order of scores is transitive |
| Registry.LessMeans | src/media/capability.cpp:316-341 | one score is smaller exactly if the request lists that provider first; then, if hardware is preferred, hardware before software before reference; then, if zero copy is preferred, the one without a copy; then the smaller name |
| Registry.StringLessMeans | src/media/capability.cpp:651-651 | names are in the order of a dictionary |
| Registry.SortCandidates | src/media/backend_registry.cpp:182-183 | a sorted permutation of the candidates |
| Registry.BackendRegistry.Register | src/media/backend_registry.cpp:79-113 | a provider is added exactly if the registry is open and its probe names a new id; every refusal is exact; the table is what one step of `RegisterAll` makes of it |
| Registry.BackendRegistry.Freeze | src/media/backend_registry.cpp:115-118 | no provider joins or leaves any more |
| Registry.BackendRegistry.Select | src/media/backend_registry.cpp:120-274 | a required provider never falls back; otherwise a matching provider with no smaller score among the matching ones; none only if none matches |
| Registry.BestIsUnique | src/media/backend_registry.cpp:182-190 | there is one such provider, whatever the order in which they are looked at |
| Registry.SelectionIsUnique | src/media/backend_registry.cpp:120-274 | the same providers and answers of their probes lead to one selection |
| Registry.FirstRegistrationWins | src/media/backend_registry.cpp:79-113 | each id belongs to the first provider that names it |
| Registry.RegistrationOrderIsIrrelevant | src/media/backend_registry.cpp:79-113 | providers with different ids may be registered in any order |
| Registry.SelectionIgnoresOrder | src/media/backend_registry.cpp:79-274 | and the selection is the same after either order |
| Buffers.ValidatePlanes | src/media/buffer.cpp:52-84 | accepts exactly planes with a stride that lie apart within the storage |
| Buffers.CreateBuffer | src/media/buffer.cpp:201-214 | a buffer exists exactly if its planes are valid in the storage |
| Buffers.SlicePlane | src/media/buffer.cpp:251-271 | succeeds exactly within the plane, and is the stretch asked for, with the stride of the plane |
| Buffers.SliceOfSlice | src/media/buffer.cpp:243-271 | a slice of a slice is the slice at the sum of the offsets, and nothing reaches beyond the first |
| Buffers.PlaneAddressAlignment | src/media/buffer.cpp:273-289 | the greatest common divisor of the storage alignment and the offset of the plane |
| Buffers.AlignmentIsGreatest | src/media/buffer.cpp:273-289 | exactly the divisors of that number divide the address of the plane wherever the storage lies |
| Buffers.ValidateFramePlaneAlignment | src/media/capability.cpp:410-435 | a submitted frame passes exactly if its format fits and every plane is aligned as demanded |
| Buffers.AddressProofIsTheCheck | src/media/capability.cpp:153-162 | the address proof of the negotiation and the check at submission agree on every plane |
| Buffers.AcceptedIsAligned | src/media/capability.cpp:410-435 | a format accepted for an alignment makes a buffer whose frames pass the check |
| Buffers.NegotiatedMakesBuffer | src/platform/linux/v4l2_capture.cpp:399-401 | the planes of a negotiated capture format always make a buffer |
| AlsaTimeline.SamplesToMicroseconds | src/platform/linux/alsa_capture.cpp:23-43 | the exact floor of samples * 1000000 / rate, failing exactly when it is no int64 |
| AlsaTimeline.TimespecToMicroseconds | src/platform/linux/alsa_system.cpp:44-60 | the exact floor, failing exactly on a malformed or too large instant |
| AlsaTimeline.FirstUnread | src/platform/linux/alsa_system.cpp:62-99 | the timestamp less the exact duration of the samples that wait |
| AlsaTimeline.PtsIsExact | src/platform/linux/alsa_capture.cpp:230-242 | the n-th frame of a segment has its anchor plus floor(n * samples_per_frame * 1000000 / rate) |
| AlsaTimeline.FrameIsAnchored | src/platform/linux/alsa_capture.cpp:486-528 | every frame has an anchor in its segment with only frames between |
| AlsaTimeline.MarkedIffReset | src/platform/linux/alsa_capture.cpp:220-228 | a frame is marked exactly when the timeline was reset since the frame before it |
| AlsaTimeline.LossIsBounded | src/platform/linux/alsa_capture.cpp:220-228 | each reset loses fewer samples than a frame has, and nothing else is lost |
| AlsaDevice.AlsaSystem.ReadInterleaved | src/platform/linux/alsa_system.cpp:495-562 | writes only the window it is given; the result is what the recorded answers of the library call for, and a discontinuity is reported exactly if they ended a loss |
| AlsaDevice.AlsaSystem.CaptureAnchor | src/platform/linux/alsa_system.cpp:564-640 | an anchor is the unread samples before the driver's timestamp, or before the clock if that timestamp is not used; a gap is reported exactly if the recorded answers ended a loss |
| AlsaDevice.AlsaSystem.HandleLoss | src/platform/linux/alsa_system.cpp:552-560 | after an overrun the device is prepared and started, after a suspension it is marked; the loss is reported exactly then |
| AlsaDevice.AlsaSystem.ResumeSuspended | src/platform/linux/alsa_system.cpp:503-530 | a suspended device is resumed, or else prepared and started, by the answers of the library |
| AlsaDevice.AlsaSystem.Start | src/platform/linux/alsa_system.cpp:446-458 | a device runs afterwards exactly if it ran or the library started it |
| AlsaCapture.AlsaSourceNode.AskDevice | src/platform/linux/alsa_capture.cpp:504-514 | what the node makes of a read: the samples behind those it has, and the answer that explains a read that gives none |
| AlsaCapture.AlsaSourceNode.CaptureAnchor | src/platform/linux/alsa_capture.cpp:486-503 | an anchor that ends a loss leads to a reset, every other to none |
| AlsaCapture.AlsaSourceNode.FramePts | src/platform/linux/alsa_capture.cpp:230-242 | the exact time of the next frame, failing exactly without an anchor or when it is no int64 |
| AlsaCapture.AlsaSourceNode.ResetTimeline | src/platform/linux/alsa_capture.cpp:220-228 | the unfinished frame is dropped, no finished one is, and the next is marked |
| AlsaCapture.AlsaSourceNode.CompleteAt | src/platform/linux/alsa_capture.cpp:541-556 | a full buffer becomes a frame and leaves the node's hands |
| AlsaCapture.AlsaSourceNode.Deliver | src/platform/linux/alsa_capture.cpp:430-448 | a waiting frame is taken by the output or stays unchanged |
| AlsaCapture.AlsaSourceNode.Resume | src/platform/linux/alsa_capture.cpp:466-485 | a suspended device is resumed and nothing is read |
| AlsaCapture.AlsaSourceNode.Capture | src/platform/linux/alsa_capture.cpp:486-582 | anchors, reads and completes, keeping the history |
| AlsaCapture.AlsaSourceNode.Tick | src/platform/linux/alsa_capture.cpp:428-588 | samples read equal, in order, frames delivered, the waiting frame, the partial buffer and what resets dropped; the history gains exactly as many resets as the library's answers ended losses; the code is that of the answer that ended the turn, and without one a frame was delivered or samples were read; buffers of frames are never written again |
| AlsaCapture.AlsaSourceNode.DiscardCaptureData | src/platform/linux/alsa_capture.cpp:210-218 | a new session starts with an empty history |
| AlsaCapture.AlsaSourceNode.Start | src/platform/linux/alsa_capture.cpp:374-400 | a start begins a new session and forgets no earlier buffer |
| AlsaCapture.AlsaSourceNode.Stop | src/platform/linux/alsa_capture.cpp:402-411 | a stop ends the session and the device |
| V4l2Layout.MakeNegotiatedFormat | src/platform/linux/v4l2_system.cpp:181-309 | succeeds exactly when a row fits the stride and the image size covers the planes, with disjoint planes within the capacity |
| V4l2Layout.LaidIsFormat | src/platform/linux/v4l2_system.cpp:289-294 | no layout that was derived is refused as a video format |
| V4l2Layout.RequiredBytesOfPicture | src/platform/linux/v4l2_system.cpp:213-284 | the bytes a picture needs are 3/2 or 1 times stride times height |
| V4l2Copy.ValidateCopyRange | src/platform/linux/v4l2_capture.cpp:335-370 | accepts exactly when source and target ranges are within their bounds |
| V4l2Copy.CopyPlane | src/platform/linux/v4l2_capture.cpp:430-437 | every visible byte equals its source byte, every padding byte is zero, and nothing else is written or read |
| V4l2Copy.FullBufferIsValid | src/platform/linux/v4l2_capture.cpp:335-370 | the range checks pass when the driver filled the whole capacity |
| V4l2Copy.ShownBytesOfPicture | src/platform/linux/v4l2_capture.cpp:438-443 | the bytes shown are 3wh/2 or 2wh |
| V4l2Copy.CopyFrame | src/platform/linux/v4l2_capture.cpp:405-444 | all planes are copied and the count is exact, exactly if the driver filled all that the planes show; otherwise the buffer is refused as corrupt |
| V4l2Device.V4L2System.Negotiate | src/platform/linux/v4l2_system.cpp:402-489 | the calls of the exchange in order, up to the first that is refused, whose answer gives the code; otherwise the format that the driver confirmed, laid out |
| V4l2Device.V4L2System.MapBuffers | src/platform/linux/v4l2_system.cpp:525-562 | every buffer is queried and mapped in order and holds a whole picture, or the answer that ended it gives the code and what was mapped is still held |
| V4l2Device.V4L2System.Prepare | src/platform/linux/v4l2_system.cpp:376-576 | the whole exchange, call by call: a session is held, or the first refused call gives the code and nothing is held at all |
| V4l2Device.V4L2System.Start | src/platform/linux/v4l2_system.cpp:578-603 | every buffer is queued and the stream started, or the first refused call gives the code; the driver has all buffers, or none |
| V4l2Device.V4L2System.RollbackStart | src/platform/linux/v4l2_system.cpp:605-621 | the driver has no buffer, and the first failure is kept |
| V4l2Device.V4L2System.Dequeue | src/platform/linux/v4l2_system.cpp:635-663 | the answer of the driver gives the code; one known buffer leaves the driver, or none |
| V4l2Device.V4L2System.Requeue | src/platform/linux/v4l2_system.cpp:665-677 | the buffer is with the driver exactly on success, and the driver's answer gives the code |
| V4l2Device.V4L2System.Stop | src/platform/linux/v4l2_system.cpp:679-687 | the driver has no buffer, or nothing has changed |
| V4l2Device.V4L2System.UnmapRegions | src/platform/linux/v4l2_system.cpp:701-708 | every mapping is given back by one attempt |
| V4l2Device.V4L2System.Reset | src/platform/linux/v4l2_system.cpp:689-741 | no descriptor, mapping or kernel allocation is held, whatever fails, each given back by one attempt, and the first failure is returned |
| V4l2Source.GapIsExact | src/platform/linux/v4l2_capture.cpp:313-325 | an advance of the unwrapped counter is accepted exactly up to half its range, and the gap is then exact |
| V4l2Source.EveryFrameIsCounted | src/platform/linux/v4l2_capture.cpp:313-325 | over any run and any number of wraps, captured frames plus gaps equal last minus first plus one |
| V4l2Source.V4L2SourceNode.TimestampFor | src/platform/linux/v4l2_capture.cpp:287-311 | the time of a frame is the driver's, or else the clock's, raised to the last one if it lies before |
| V4l2Source.V4L2SourceNode.CopyOut | src/platform/linux/v4l2_capture.cpp:372-458 | a frame in a new buffer of its own, with its gap, its time and the exact count of bytes, or a failure; it succeeds for every sound buffer that the driver filled |
| V4l2Source.V4L2SourceNode.Commit | src/platform/linux/v4l2_capture.cpp:766-769 | the capture is recorded for the time and sequence of the next |
| V4l2Source.V4L2SourceNode.CaptureOne | src/platform/linux/v4l2_capture.cpp:731-764 | there is a frame exactly if the driver had a buffer, that was sound, and it took the buffer back; the driver has all its buffers again exactly unless it refused one; a captured frame has a new buffer that shows what the driver had in its own |
| V4l2Source.V4L2SourceNode.PassOn | src/platform/linux/v4l2_capture.cpp:766-792 | a captured frame is recorded and told of, and then offered exactly unless the observer objects |
| V4l2Source.V4L2SourceNode.Offer | src/platform/linux/v4l2_capture.cpp:781-792 | a frame is delivered, waits or is given up by the answer of the output to its offer |
| V4l2Source.V4L2SourceNode.SendPending | src/platform/linux/v4l2_capture.cpp:716-729 | a waiting frame is offered first, and goes on waiting exactly if it is not taken |
| V4l2Source.V4L2SourceNode.Tick | src/platform/linux/v4l2_capture.cpp:715-799 | by the recorded answers of driver, clock, observer and output: a frame that was captured and of which the observer was told is offered to the output, which takes it, leaves it waiting or gives it up by its answer alone; between ticks all buffers are with the driver exactly unless it refused one; only a refusal for a missing entry leaves the node running |
| V4l2Source.MissingIsSurvived | src/platform/linux/v4l2_system.cpp:665-677 | a driver answer on which the node goes on running without the buffer |
| V4l2Source.V4L2SourceNode.Start | src/platform/linux/v4l2_capture.cpp:634-664 | a new session knows neither time nor sequence and gives all buffers to the driver; it fails exactly by a refused call or the observer, and then the driver has none, unless it refuses to stop |

## Left out

- Payloads of the reference codec, frame alignment evidence and the reference formats: a frame carries whether it conforms, and is otherwise opaque.
- Allocation failures and exceptions, except those that end the reactor thread; status texts and native error numbers; null pointers.
- The answers of start() calls that find the runtime not created, or without pipelines: they are given at once and change nothing.
- Metrics, health reports and gauges; an observer is a call that may answer anything.
- Thread affinity of the backends; the wrap-around of drop, token and fallback counters of 64 bits.
- Retries of interrupted system calls of the video device: a call stands for its last attempt.
- `reset_pipeline` of the reference platform, which builds a new pipeline; the notification of a fatal failure that follows a failed turn of a capture node, and the counters of all observers.
- The wake of the event loop, which is a step of `RuntimeProtocol`; the calls of the loop are recorded by kind and answer, and which descriptor was meant is told by the interest list.
- The memory of a failed eventfd wake: nothing is claimed about a stop that then waits. `NoDeadlock` and `EveryCallIsAnswered` let the poll loop end once a stop is requested, and the drain and the start of the pipelines are single steps.
- The order in which the sinks of a node are visited by Kahn's algorithm, which is that of the source's sorted sets, is arbitrary in the model.
- Frames that survive a cancel: `cancel` and `reset` do not empty the input queues, and neither does the model; conservation is therefore stated for runs of start, tick, stop and refill.
- State store, command handling, reconciler and simulated platform: short branch-by-branch code.
- The driver parameters of audio preparation, and of video beyond format, interval and buffers: success or failure only.
- Operation lists, codec parameters and colour are compared as opaque values in negotiation.
- ReferencePipeline.Pipeline.constructor: does not state that the objects are new, only that they are valid and in their initial state.
- ReferencePlatform.RequestsStayExact: is stated without injected device loss, because after a loss a waiting frame may survive the reset; single requests are exact with it as well.
- Lifecycle.MediaPipeline.AddNode: demands that the node records its calls where the pipeline does, which is a device of the model; keeps the agreement of pipeline and nodes only for a node in its created state, which the source does not check.
