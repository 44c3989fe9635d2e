# Lavanda: a verified model of the real-time audio engine

Lavanda is an audio engine with two threads. A control thread edits a node graph, loads assets and
hands out voices and buses; an audio thread consumes its commands and renders blocks on a deadline,
without locks, allocation or destruction. This project models the parts of it that are hard to get
right and proves what they are for, in Dafny 4.11. `dafny verify dfyconfig.toml` checks all of it.

## What is proved

**Compilation preserves meaning.** The graph compiler finds the nodes the output depends on, sorts
them, gives every step a buffer from liveness-driven free lists, and pins the assets its nodes play;
the executor then runs the steps over those shared, reused buffers. A graph also has a meaning of
its own (`GraphMeaning`): evaluate what drives a node's inputs, then apply the node. Buffers have
widths, and a node must be handed views of exactly the widths it declares. For every graph that
compiles and has at most one channel count of at most one and at most one above one among its nodes,
as every graph of mono and stereo nodes has, the plan does that, and any number of blocks of any
sizes leave in the output buffer and in the nodes exactly what the meaning gives, whatever the
buffers held before (`Compilation.PlanMeansGraph`). The condition on the counts is exact
(`BufferWidths.ExactForOneCountPerClass`). The sort succeeds if and only if the output cone is
acyclic, yields the least topological order, and does not depend on the order connections were added
in. The plan uses the fewest buffers any alias-free assignment to its order could use.

**Callback boundaries do not matter.** Scheduled events live in an array heap, which refines a queue
in execution order. The renderer cuts a callback into segments at event frames. A reference applies
each frame's events and then renders that one frame. Any two ways of cutting the same frames into
callbacks within the block limit agree with the reference, hence with each other, in every sample
and in the final state, and every event acts exactly once, on its frame or, if it came too late, on
the first one after (`Timeline`). That theorem asks that commands and rendering keep the engine in a
valid state and that rendering n frames and then k be rendering n + k. Both are proved of the
engine: of the tone, of every kind of voice including Doppler-shifted ones, of the bus mix, of the
active graph, and of every command that can be scheduled (`Engine`). The active graph's nodes must
split too; all the program's nodes do (`StreamNodes`, `DelayLines`, `FilterNodes`, `SourceNodes`,
`NodeParameters`). `SegmentRenderer` proves the in-place loops and commands of a segment against the
engine, and `EngineRuntimes` runs the callback's loop over them: a whole callback, heap, commands and
rendering all in place, does what the reference says (`EngineRuntimes.EngineRuntime.RenderBlock`).

**The two threads never hurt each other.** Three transition systems have the individual atomic
operations as their steps; runs are arbitrary interleavings. A slot's pin count is always exactly
the number of queued creations, voices, plans and calls in progress that hold its current id, so
nothing anyone can dereference is reclaimed (`PinConservation`). The plan the audio thread runs is
never reset, overwritten or restaged, only the control thread destroys plans, a submitted plan waits
undisturbed, and a handle of a restaged slot never activates (`PlanSafety`). Generations in a slot
only grow along the queue, so a destroyed voice's or bus's handle never touches a later occupant,
and a voice always plays into an active bus (`Handles`). Scheduled events are conserved,
reservations guarantee that the heap has room, and no event of one session acts in a later one
(`EventFlow`). Runs that use the whole protocol exist from every start
(`EventFlow.AnEventRunsItsCourse`, `LifetimeScenario.QueuedVoiceOutlivesRelease`). The command ring,
cut into loads, copies and stores, is a bounded FIFO (`SpscQueue`).

**Two arithmetic cores.** Decoding a WAV file printed by the fixture generator's functions gives
back the printed samples, with any other chunks in between (`WavRoundTrip`). The resampler's index
clamp never acts and its output never leaves the range of its input (`Resampling`).

**What is heard.** The equivalences above are anchored to samples and fields, spelled out without the
definitions they were proved with. Mixing adds up, voice by voice, side by side (`MixLaws`); voices,
tone and nodes play their sines and samples (`VoiceLaws`, `NodeLaws`, `SegmentLaws`); a compiled
oscillator is heard at the device's rate and a compiled asset from its first sample to its last
(`GraphLaws`); ramps are linear (`Ramps.GainRamp.Start`); immediate commands act at the start of the
callback that drains them (`AudioRuntimes.RenderLogged`); and commands change what they name
(`CommandLaws`).

## What the proofs say about the code

- A delay of exactly the maximum does not delay: the line reads the cell it has just written
  (`src/lavanda/graph/nodes/delay_node.cc:34-42`). A node of more than two channels does not delay
  the third and later ones: it leaves there what the view held (`src/lavanda/graph/nodes/delay_node.cc:26`).
  `DelayLines.DelayIsExactBelowMaximum` shows that the set delay is honoured, whatever the output
  view held before, if and only if it is below the maximum and the node has at most two channels.
- Restarting a gain ramp is continuous unless it is given no duration or starts on the last
  representable frame (`Ramps.RestartIsContinuous`, both directions).
- The compiler's free list for wide buffers lumps all channel counts above one together, and a reused
  buffer keeps its first width. Whatever two counts of one class a graph's nodes may have, there is a
  chain of three nodes that compiles and whose last node is handed a buffer of the other count
  (`BufferWidths.ChainIsNeverExact`, `BufferWidths.ChainIsCompilable`): a source of three channels, a
  node from three to three and one from three to four, say. Sets of counts without two of one class
  are exactly the safe ones (`BufferWidths.ExactForOneCountPerClass`).
- The delay line and the one-pole filters work on at most two channels. On a node built with more they
  leave the other channels of their output as they find them, so the rule that a node overwrites its
  whole output holds of them if and only if they have at most two
  (`StreamNodes.OverwritesWholeUpToTwo`).
- An asset id is safe against confusion for fewer than 2^32 - 1 reuses of its slot, and after exactly
  that many it names the slot again, whatever is in it (`AssetIdentity.IdNamesOneAsset`).
- `Stop` and `Start` lose no event; only `Shutdown` discards (`EventFlow.StopAndStartLoseNothing`).

## How it is laid out

A class stands for each object the source updates in place, with the source's loops in its methods;
each method is proved against functions on values, and the theorems are about those functions. A
ghost field that mirrors an abstract value (the heap's queue, the ring's contents) is tied to the
real fields by `Valid()`. The transition systems of the two threads take a step for every atomic
operation on memory both threads touch; their runs are those of `Runs`. Lemmas tie the steps to the
classes: `CallsAsRuns` has the calls of the asset store, the plan store and the voice pool as runs,
`EventCallsAsRuns` has ScheduleAtFrame and the audio thread's callback with everything in it, and
`VoiceSlots.CommandsAreTouches` and `SpscQueue.StepsAreFifoSteps` do the same for voices and the
command ring.

A node is a state with a total function from state, input blocks and context to a new state and a
whole output block: the contract the compiler relies on. Samples and gains are exact reals; sine,
cosine, exponentials, spatial geometry and the value of a float's bit pattern are parameters.

## Model

| member | source | states |
|---|---|---|
| Editing.AudioGraph.AddNode | src/lavanda/graph/graph.cc:10-49 | Fails exactly when every slot is used and the graph is full; otherwise the first free slot, or a new one, holds the node under an id that was not valid before; all other ids keep their nodes. |
| Editing.AudioGraph.RemoveNode | src/lavanda/graph/graph.cc:51-71 | The id stops being valid and no other does; exactly the connections touching it go, in order; the output is cleared if it was that node; a stale id changes nothing. |
| Editing.AudioGraph.Connect | src/lavanda/graph/graph.cc:73-119 | Succeeds if and only if both ends are valid and distinct, the input exists and is free, the channel counts agree and there is room; then exactly one connection is added, otherwise none. |
| Editing.AudioGraph.Disconnect | src/lavanda/graph/graph.cc:121-133 | Exactly the connection into that input goes; the graph stays well formed. |
| Editing.AudioGraph.SetOutput | src/lavanda/graph/graph.cc:135-143 | Only a valid node becomes the output; a refusal changes nothing. |
| Editing.RemovalKeepsForm | src/lavanda/graph/graph.cc:51-71 | Removing a node leaves a well-formed graph: no connection dangles, which is what the compiler assumes. |
| GraphModel.IndexDecidesNode | src/lavanda/graph/graph_compiler.cc:73-97 | Among valid nodes the index decides the id, so the compiler's tables keyed by index lose nothing. |
| GraphModel.ClosedSetHoldsAncestors | src/lavanda/graph/graph_compiler.cc:71-97 | A set closed under sources holds everything that reaches any of its members: the reachable set misses no ancestor. |
| GraphModel.OrderedMeansAcyclic | src/lavanda/graph/graph_compiler.cc:126-180 | If a closed set of nodes has a topological order, it holds no cycle. |
| GraphModel.StuckMeansCyclic | src/lavanda/graph/graph_compiler.cc:176-180 | If every node of a non-empty set is fed from within it, the set holds a cycle: the error the sort reports is never false. |
| GraphModel.GreedyIsTopological | src/lavanda/graph/graph_compiler.cc:157-174 | Always taking the ready node of least index, to the end, gives a topological order. |
| GraphModel.GreedyIsLeast | src/lavanda/graph/graph_compiler.cc:149-174 | That order is lexicographically least by index among all topological orders of the same nodes. |
| GraphModel.OrderIgnoresConnectionOrder | src/lavanda/graph/graph_compiler.cc:128-174 | Two graphs with the same nodes and the same connections in different order sort the same. |
| GraphAnalysis.Reachable | src/lavanda/graph/graph_compiler.cc:71-97 | The worklist ends with exactly the nodes that reach the output, closed under sources. |
| GraphAnalysis.RequiredInputsConnected | src/lavanda/graph/graph_compiler.cc:103-124 | Answers true if and only if every required input of every reachable node is connected. |
| GraphAnalysis.CountDegrees | src/lavanda/graph/graph_compiler.cc:128-147 | In-degrees count connections within the reachable set, multi-edges included, and the consumer lists hold one entry per connection. |
| GraphAnalysis.LeastIndex | src/lavanda/graph/graph_compiler.cc:149-162 | The first element of the ordered ready set has the least index. |
| GraphAnalysis.RelaxConsumers | src/lavanda/graph/graph_compiler.cc:166-173 | After the inner loop every in-degree again counts the connections from unplaced nodes and the ready set is exactly the unplaced nodes at zero; no in-degree underflows. |
| GraphAnalysis.ReadyIsReadyAfter | src/lavanda/graph/graph_compiler.cc:149-174 | Between placements the ready set is exactly the unplaced nodes all of whose sources are placed. |
| GraphAnalysis.SortVerdict | src/lavanda/graph/graph_compiler.cc:176-180 | When nothing is ready any more, all nodes are placed if and only if the set holds no cycle. |
| GraphAnalysis.TopologicalSort | src/lavanda/graph/graph_compiler.cc:126-180 | The order is the greedy one, and has all nodes if and only if there is no cycle, in which case it is topological. |
| BufferAllocation.AllocationIsFresh | src/lavanda/graph/graph_compiler.cc:192-209 | A slot handed out is held by no live node and has the width class asked for; all live nodes keep their own slots. |
| BufferAllocation.ReleaseKeepsOwners | src/lavanda/graph/graph_compiler.cc:211-217 | Giving back the slot of a node that stops being live keeps every slot with one owner or one place in a free list, so none is released twice. |
| BufferAllocation.ServeConsumer | src/lavanda/graph/graph_compiler.cc:277-284 | A connection served takes one from its source's remaining consumers, which is never already zero, and the slot is released exactly at the last. |
| BufferAllocation.WireInputs | src/lavanda/graph/graph_compiler.cc:252-262 | Each input of the step is wired to the slot of the node connected to it. |
| BufferAllocation.ReleaseInputs | src/lavanda/graph/graph_compiler.cc:272-285 | After the loop the remaining counts are those without this node and the slots' owners are exactly the nodes still live. |
| BufferAssignment.BuildStep | src/lavanda/graph/graph_compiler.cc:233-286 | One turn of the loop keeps all of it: steps wired to their drivers, live slots unwritten, one owner per slot, slot count equal to the peak so far. |
| BufferAssignment.AssignBuffers | src/lavanda/graph/graph_compiler.cc:219-297 | The steps of the whole order: no buffer is written between a node and its last consumer or, for the output, the end; each width class has as many buffers as its peak of simultaneously live blocks; each buffer has the width of the first node that writes it. |
| BufferAssignment.OutputStaysLive | src/lavanda/graph/graph_compiler.cc:272-297 | Nothing in the acyclic cone consumes the output, so its slot is never released. |
| BufferAssignment.BuffersHaveStepWidth | src/lavanda/graph/graph_compiler.cc:192-217 | If the nodes have one channel count per width class, every step writes a buffer of exactly its own count. |
| BufferWidths.ExactForOneCountPerClass | src/lavanda/graph/graph_compiler.cc:192-217 | A set of channel counts is safe, in that every plan of every graph with these counts hands its nodes only views of the widths they declare, if and only if it has at most one count of at most one and at most one above one. |
| BufferWidths.ChainIsNeverExact | src/lavanda/graph/graph_compiler.cc:192-217 | For any two different counts of one class, whatever plan is made of the three-node chain, its last node is handed a buffer of the other count. |
| BufferWidths.ChainIsCompilable | src/lavanda/graph/graph_compiler.cc:61-180 | Compile accepts that chain. |
| BufferWidths.ChainCompiles | src/lavanda/graph/graph_compiler.cc:182-297 | A plan of the chain as Compile is proved to make them: the third node takes the buffer the first no longer needs. |
| BufferEconomy.PeakStep | src/lavanda/graph/graph_compiler.cc:192-209 | A slot is added only when all slots of its width are live, so the number of slots stays the peak. |
| BufferEconomy.LiveBlocksNeedOwnBuffers | src/lavanda/graph/graph_compiler.cc:264-285 | In any alias-free assignment two blocks alive in one step have different buffers. |
| BufferEconomy.PeakIsLowerBound | src/lavanda/graph/graph_compiler.cc:188-217 | No alias-free assignment to the same order has fewer buffers of a width than the peak. |
| Compilation.AssetPins.Pin | src/lavanda/graph/asset_pins.cc:31-45 | Succeeds exactly for a resident asset of the store; the owner then holds one more pin, and the store's slots are its old ones plus exactly the pins owned. |
| Compilation.AssetPins.ReleaseAll | src/lavanda/graph/asset_pins.cc:47-55 | The store is left as if the owner had never pinned anything. |
| Compilation.AssetPins.MoveFrom | src/lavanda/graph/asset_pins.cc:11-29 | What the target held is given back, then the pins change hands: the source owner holds nothing and no other pin is taken or given back. Moving from itself does nothing. |
| Compilation.BindRequiredAsset | src/lavanda/graph/graph_compiler.cc:20-57 | The status is decided by the store, the device rate, residency, channel count and sample rate in that order; success pins the asset once, and the node starts on that asset, or as its clone does if it asks for none. |
| Compilation.BindsExactly | src/lavanda/graph/graph_compiler.cc:20-57 | A node binds if and only if it asks for no asset, or there is a store and a device rate and the asset is resident with the node's channels and the device's rate; only a missing rate is reported as not open. |
| Compilation.BindAssets | src/lavanda/graph/graph_compiler.cc:233-250 | Binds every node of the order, each on its own asset, or stops at the first that fails, in which case the store is as before. |
| Compilation.Compile | src/lavanda/graph/graph_compiler.cc:61-303 | Succeeds if and only if the output is valid and its cone is complete, acyclic and has its assets; then every node of the plan that asks for an asset starts on the one resident under that id and every other as its clone, and the plan holds one pin per asset node; a failure leaves every pin count as it was. |
| Compilation.PlanMeansGraph | src/lavanda/graph/graph_compiler.cc:61-303 | A compiled plan of a graph with one channel count per width class, run over any sequence of blocks, hands its nodes only views of the widths they declare and gives exactly the blocks and node states of the graph's recursive meaning from the clones' initial states. |
| Compilation.PlanUsesFewestBuffers | src/lavanda/graph/graph_compiler.cc:182-217 | No alias-free assignment to the plan's order uses fewer mono or fewer stereo buffers. |
| GraphMeaning.DeeperAgrees | src/lavanda/graph/graph_compiler.cc:126-180 | The meaning does not depend on how deep the evaluation may go, once it is deep enough. |
| GraphMeaning.ValueIsProcessed | src/lavanda/graph/graph_executor.cc:14-29 | A node's value is its Process on its own state, exactly this context, and for each input the value of the node at the other end of a connection to it. |
| GraphExecution.DrivingStep | src/lavanda/graph/graph_executor.cc:17-20 | The buffer a step reads was written by the step of the node connected to that input, earlier, and by nothing since. |
| GraphExecution.UniformStepsRun | src/lavanda/graph/graph_compiler.cc:233-297 | In a plan of a graph with one channel count per width class every view a step is handed, output and inputs, has the width its node declares. |
| GraphExecution.StepKeepsShape | src/lavanda/graph/graph_executor.cc:14-29 | A step whose views have its node's widths leaves every buffer with its own length and width. |
| GraphExecution.EveryStepRuns | src/lavanda/graph/graph_executor.cc:14-29 | Running a plan has each step's node process once its own state, exactly the block's frame count, rate and clock, and for each input the block of the step that wrote that buffer last. |
| GraphExecution.RunNext | src/lavanda/graph/graph_executor.cc:14-29 | Running one more step extends what has been computed and disturbs nothing still needed. |
| GraphExecution.BlockComputesMeaning | src/lavanda/graph/graph_executor.cc:14-38 | One block of a plan whose views have their nodes' widths: every node's state and the output buffer's block are those of the graph's meaning, whatever the buffers held. |
| GraphExecution.PlanComputesMeaning | src/lavanda/graph/graph_executor.cc:8-38 | The same over any run of blocks of any sizes, from any states. |
| GraphExecution.RunPlanStep | src/lavanda/graph/graph_executor.cc:14-29 | One turn of the interpreter changes the state of its own node and the buffer of its own step, and nothing else; every buffer keeps its width. |
| GraphExecution.Render | src/lavanda/graph/graph_executor.cc:7-39 | A block too large is left alone; otherwise every step's node processes its own state and its drivers' blocks once, at the caller's frame count, rate and clock, and the output step's block is mixed into the caller's view if and only if the channel counts agree. |
| GraphLaws.ConnectionCarries | src/lavanda/graph/graph_executor.cc:14-29 | In a compiled plan the input at the end of a connection is handed the block of the node at its start. |
| GraphLaws.OscillatorIsHeard | src/lavanda/graph/nodes/oscillator_node.cc:9-23 | A compiled oscillator wired to the output: frame f is its sine f steps of 2 pi frequency / rate from its phase, at its level, at the rate of the context; its phase moves on by the block. |
| GraphLaws.RenderOscillator | src/lavanda/graph/graph_executor.cc:7-39 | The same of what the interpreter adds to the caller's view, in place. |
| GraphLaws.CompiledAssetPlays | src/lavanda/graph/graph_compiler.cc:20-57 | A freshly compiled plan whose output is an asset source plays, over any run of blocks, the samples of the asset it was compiled with in order and then silence. |
| GraphSplitting.EvaluationSplits | src/lavanda/graph/graph_executor.cc:14-29 | By induction over the graph: if every node splits, evaluating n + k frames is evaluating n and then k from the states in between. |
| GraphSplitting.GraphSplits | src/lavanda/graph/graph_executor.cc:14-29 | One block of the graph's meaning is the two blocks it may be cut into, with the same final states. |
| GraphSplitting.PlanSplits | src/lavanda/graph/graph_executor.cc:14-29 | The same of a compiled plan over its reused buffers. |
| Resources.ResourceStore.Insert | src/lavanda/resources/resource_store.cc:45-104 | Reclaims, then succeeds if and only if the key is not resident, the asset fits the budget at four bytes a sample and a slot is free; the first free slot then holds it and the key finds it. |
| Resources.ResourceStore.Find | src/lavanda/resources/resource_store.cc:106-110 | Finds exactly the resident asset that still bears the id. |
| Resources.ResourceStore.FindByKey | src/lavanda/resources/resource_store.cc:123-135 | Finds the resident asset with the key if there is one, and nothing otherwise. |
| Resources.ResourceStore.Pin | src/lavanda/resources/resource_store.cc:137-147 | Pins once if and only if the id names a resident asset. |
| Resources.ResourceStore.Release | src/lavanda/resources/resource_store.cc:149-168 | The asset retires and its key is forgotten; unpinned retiring slots are freed, pinned ones are not. |
| Resources.ResourceStore.ReclaimRetired | src/lavanda/resources/resource_store.cc:170-201 | Frees exactly the retiring slots with no pin; total_bytes stays the sum over slots and within budget, and the key map stays the inverse of the resident keys. |
| Resources.ResourceStore.ResolveForAudio | src/lavanda/resources/resource_store.cc:241-254 | Resolves exactly ids of the slot's current generation, to the published object, resident or retiring. |
| Resources.ResourceStore.Unpin | src/lavanda/resources/resource_store.cc:256-276 | Takes off one pin if the id is current and there is one, otherwise changes nothing and says so. |
| Resources.UnpinUndoesPin | src/lavanda/resources/resource_store.cc:137-147 | Whatever other pins come and go, an unpin leaves the store as if its pin had never been. |
| Resources.ReleasedButPinnedResolves | src/lavanda/resources/resource_store.cc:149-201 | A pinned asset that is released still resolves to the same object, whatever is reclaimed, and cannot be pinned again. |
| Resources.FreedIdsAreStale | src/lavanda/resources/resource_store.cc:181-188 | After a slot is reclaimed its old id names nothing, and generations grow until they wrap past zero. |
| AssetIdentity.IdNamesOneAsset | src/lavanda/resources/resource_store.cc:96-121 | In every run of both threads, over fewer than 2^32 - 1 reuses of its slot, an id names its slot if and only if the slot has not been reused, and then still means the same asset; after exactly 2^32 - 1 reuses it names the slot again. |
| AssetIdentity.GenerationCountsReuses | src/lavanda/resources/resource_store.cc:181-188 | Along every run a slot's generation moves on once for every reuse of that slot and for nothing else. |
| AssetIdentity.GenerationsComeRound | src/lavanda/resources/resource_store.cc:181-188 | Generations skip zero and repeat after 2^32 - 1 reuses, not before. |
| Scheduling.InsertedInOrder | src/lavanda/runtime/event_scheduler.cc:10-19 | The queue is ordered by target and then by submission; inserting an event lets it overtake none submitted earlier for its frame. |
| Scheduling.InsertedContents | src/lavanda/runtime/event_scheduler.cc:25-42 | Insertion adds exactly the one event. |
| Scheduling.RootIsHead | src/lavanda/runtime/event_scheduler.cc:44-52 | The root of a heap is the head of the ordered queue with the same events. |
| Scheduling.SiftUp | src/lavanda/runtime/event_scheduler.cc:38-39 | A heap followed by one new event becomes a heap of the same events. |
| Scheduling.TakeRoot | src/lavanda/runtime/event_scheduler.cc:60-66 | The first event goes behind a heap of all the others. |
| Scheduling.EventScheduler.Push | src/lavanda/runtime/event_scheduler.cc:25-42 | Refused if and only if the heap is full; otherwise the ordered queue gains the event under the next sequence number. |
| Scheduling.EventScheduler.PeekNextTarget | src/lavanda/runtime/event_scheduler.cc:44-52 | The target of the head of the ordered queue. |
| Scheduling.EventScheduler.PopDue | src/lavanda/runtime/event_scheduler.cc:54-67 | Takes the head of the ordered queue if and only if its target is at most the frame. |
| Scheduling.EventScheduler.Clear | src/lavanda/runtime/event_scheduler.cc:69 | Nothing is pending any more, and the heap stays usable. |
| Timeline.ReferenceComposes | src/lavanda/runtime/audio_runtime.cc:571-592 | The frame-by-frame reference over n + k frames is n frames and then k. |
| Timeline.QuietSegment | src/lavanda/runtime/audio_runtime.cc:571-587 | A segment with no event inside is its frames rendered one by one. |
| Timeline.SegmentStep | src/lavanda/runtime/audio_runtime.cc:571-592 | One turn of the segment loop keeps samples, engine and queue on the reference. |
| Timeline.SegmentLength | src/lavanda/runtime/audio_runtime.cc:572-582 | Once nothing is due at the cursor the segment is non-empty, ends within the callback and reaches no event, so the unsigned subtraction does not underflow and the loop ends. |
| Timeline.SegmentedBlockIsReference | src/lavanda/runtime/audio_runtime.cc:558-593 | Cutting a callback at its events does what the reference does. |
| Timeline.Runtime.DispatchDue | src/lavanda/runtime/audio_runtime.cc:547-556 | Applies exactly the due events in order; every pending target is then beyond the frame. |
| Timeline.Runtime.RenderNext | src/lavanda/runtime/audio_runtime.cc:571-592 | One turn of the loop over the real heap and output view makes progress and stays on the reference. |
| Timeline.Runtime.RenderBlock | src/lavanda/runtime/audio_runtime.cc:558-593 | Within the block limit output, engine and queue are the reference's; beyond it the block is rendered whole after dispatching what is due at its start. |
| Timeline.CallbacksFollowReference | src/lavanda/runtime/audio_runtime.cc:558-593 | Any run of callbacks within the limit gives the reference's samples and state. |
| Timeline.CallbackSizesDoNotMatter | src/lavanda/runtime/audio_runtime.cc:558-593 | Two ways to cut the same frames into callbacks give the same samples and the same state. |
| Timeline.DueBeforeIsExact | src/lavanda/runtime/event_scheduler.cc:54-67 | In an ordered queue the events before a frame are exactly a prefix. |
| Timeline.EventsActOnTheirFrames | src/lavanda/runtime/audio_runtime.cc:547-593 | In the reference each event acts exactly once, in order, on its target frame or on the first rendered frame if it is late; the rest stay queued. |
| Timeline.CallbacksActOnTime | src/lavanda/runtime/audio_runtime.cc:547-593 | The same over any run of callbacks. |
| AudioRuntimes.AudioRuntime.AdoptEpoch | src/lavanda/runtime/audio_runtime.cc:502-515 | A newer epoch empties the heap completely, counts every event as discarded and returns every reservation; an older one changes nothing. |
| AudioRuntimes.AudioRuntime.TakeCommand | src/lavanda/runtime/audio_runtime.cc:527-544 | An immediate command is applied to the engine at the block's start and touches nothing else; a scheduled one leaves the engine alone, and is discarded if its session is over, queued if it is the current one, and alone in the heap if it is newer. |
| AudioRuntimes.AudioRuntime.DrainCommands | src/lavanda/runtime/audio_runtime.cc:517-545 | The queue is empty afterwards and every item in it was taken, in order, in the session adopted. |
| AudioRuntimes.AudioRuntime.Render | src/lavanda/runtime/audio_runtime.cc:479-500 | Inactive, the output is cleared and nothing else happens; active, everything queued is taken, the block is rendered as the reference has it, or whole if it is beyond the block limit, and the clock advances by it. |
| AudioRuntimes.AudioRuntime.ScheduleAtFrame | src/lavanda/runtime/audio_runtime.cc:308-331 | Refused for capacity exactly when every reservation is out, else refused exactly when the queue is full; accepted, it takes one reservation and queues the event under the session's epoch; refused, it leaves everything as it was, the reservation given back. |
| AudioRuntimes.DrainIsLogged | src/lavanda/runtime/audio_runtime.cc:517-545 | A drain applies exactly the immediate commands of the queue, in order, each at the block's first frame. |
| AudioRuntimes.DrainLogged | src/lavanda/runtime/audio_runtime.cc:517-545 | The same of the queue and the engine in place. |
| AudioRuntimes.CallbackIsLogged | src/lavanda/runtime/audio_runtime.cc:547-593 | A callback executes exactly the events of its frames, in order, each on its frame or the first; an empty or oversized one only those due at its start. |
| AudioRuntimes.RenderLogged | src/lavanda/runtime/audio_runtime.cc:479-593 | A whole callback in place: first the immediate commands at its first frame, then the events of its frames, each on its own. |
| EventFlow.ControlKeepsCount | src/lavanda/runtime/audio_runtime.cc:287-331 | Every atomic step of scheduling, Stop, Start and Shutdown keeps the event count. |
| EventFlow.AudioKeepsCount | src/lavanda/runtime/audio_runtime.cc:502-556 | Every atomic step of draining, adopting and dispatching keeps the event count. |
| EventFlow.EventsAreConserved | src/lavanda/runtime/audio_runtime.cc:287-331 | In every run accepted events, less the one being counted, are those executed, discarded, dropped or outstanding; reservations cover heap and queue and stay within capacity; the heap always has room and nothing is dropped. |
| EventFlow.HeapIsOfOneSession | src/lavanda/runtime/audio_runtime.cc:502-545 | In every run all events in the heap carry the audio thread's epoch and epochs rise along the queue. |
| EventFlow.NoEventOutlivesItsSession | src/lavanda/runtime/audio_runtime.cc:257-271 | No callback that begins after Shutdown has moved the epoch executes an event scheduled before. |
| EventFlow.StopAndStartLoseNothing | src/lavanda/runtime/audio_runtime.cc:208-255 | In a run without Shutdown nothing is discarded: each accepted event has been executed or waits. |
| EventFlow.AnEventRunsItsCourse | src/lavanda/runtime/audio_runtime.cc:287-331 | The steps get somewhere: from any start an event can be accepted, drained and executed when due, the two threads interleaving, with its reservation returned. |
| SpscQueue.CommandQueue.TryPush | src/lavanda/runtime/command_queue.cc:14-26 | Refused if and only if the ring is full; otherwise the item joins the end. |
| SpscQueue.CommandQueue.TryPop | src/lavanda/runtime/command_queue.cc:28-40 | Takes the oldest item if there is one. |
| SpscQueue.StepKeepsRing | src/lavanda/runtime/command_queue.cc:14-40 | Every load, copy and store keeps 0 <= head - tail <= capacity and the cells between them. |
| SpscQueue.NoCellIsShared | src/lavanda/runtime/command_queue.cc:22-36 | The cell the producer writes is never the one the consumer copies. |
| SpscQueue.StepsAreFifoSteps | src/lavanda/runtime/command_queue.cc:14-40 | Each step is a FIFO push, a FIFO pop or neither; a refusal saw a full or an empty queue. |
| SpscQueue.PopsFollowPushes | src/lavanda/runtime/command_queue.cc:14-40 | In every run the pops are a prefix of the pushes, at most capacity behind. |
| SpscQueue.DrainTakesAllPresent | src/lavanda/runtime/audio_runtime.cc:520-545 | Whatever the producer does meanwhile, everything queued when the drain began has come out when it ends. |
| PinConservation.PinsAreConserved | src/lavanda/resources/resource_store.cc:137-276 | In every state of every run a slot's pins equal the queued creations, voices, plans and calls in progress that hold its current id. |
| PinConservation.NothingHeldIsReclaimed | src/lavanda/runtime/voice_pool.cc:127-166 | In every run what a voice holds or a plan pins, or a queued creation is about to resolve, is live under that id, and a voice's pointer is the object the store publishes there. |
| PinConservation.CurrentIdIsLive | src/lavanda/runtime/voice_pool.cc:156-162 | When a creation made through CreateVoice resolves its id, the id is current and its object published, even if the asset was released meanwhile. |
| PinConservation.StepKeepsPins | src/lavanda/runtime/audio_runtime.cc:879-928 | Every atomic step of either thread keeps the balance. |
| PinConservation.UnpinIsReady | src/lavanda/resources/resource_store.cc:256-276 | In a balanced state an Unpin in progress finds its id current and a pin to take, so the branch that puts a count back is never taken. |
| LifetimeScenario.QueuedVoiceOutlivesRelease | src/lavanda/runtime/audio_runtime.cc:879-928 | From any start an asset released while a creation on it is queued still plays for that voice, and its slot is reclaimed, under a new generation, once the voice is destroyed. |
| PlanSafety.StepKeepsPlans | src/lavanda/graph/graph_plan_store.cc:13-138 | Every atomic step of either thread keeps the plan slots' invariant. |
| PlanSafety.ActivePlanExists | src/lavanda/graph/graph_plan_store.cc:140-146 | In every run, outside a switch, the active plan's slot is Active and holds a plan; never are two slots Active. |
| PlanSafety.ControlLeavesActivePlan | src/lavanda/graph/graph_plan_store.cc:13-109 | No control step resets, overwrites or restages the plan the audio thread runs or switches to. |
| PlanSafety.AudioDestroysNoPlan | src/lavanda/graph/graph_plan_store.cc:111-138 | No audio step destroys or replaces any plan. |
| PlanSafety.SubmittedPlanIsKept | src/lavanda/graph/graph_plan_store.cc:56-94 | While an activation is on its way no control step releases or overwrites its pending plan. |
| PlanSafety.RestagedHandleNeverActivates | src/lavanda/graph/graph_plan_store.cc:111-124 | Once a slot has been restaged, in no later state is an earlier handle past TryActivate's checks. |
| GraphPlanStores.GraphPlanStore.BuildAndStage | src/lavanda/graph/graph_plan_store.cc:13-54 | Without a free slot nothing is compiled. Otherwise it succeeds if and only if the graph compiles; the first free slot then holds the graph's plan, pending under the next generation, its asset nodes are pinned once each, and what the slot still held gives its pins back. A failure changes nothing. |
| GraphPlanStores.GraphPlanStore.MarkActivationSubmitted | src/lavanda/graph/graph_plan_store.cc:56-68 | Marks exactly the slot the handle still names. |
| GraphPlanStores.GraphPlanStore.ReleaseStagedPlan | src/lavanda/graph/graph_plan_store.cc:70-94 | Releases if and only if the handle names a pending plan not submitted; the plan's pins are given back. |
| GraphPlanStores.GraphPlanStore.ReclaimRetiredPlans | src/lavanda/graph/graph_plan_store.cc:96-109 | Every plan in a free slot is destroyed and its pins given back; no other slot changes. |
| GraphPlanStores.GraphPlanStore.TryActivate | src/lavanda/graph/graph_plan_store.cc:111-138 | Switches if and only if the handle names a pending plan; the former active slot is freed, and no plan is destroyed. |
| GraphPlanStores.GraphPlanStore.ActivePlan | src/lavanda/graph/graph_plan_store.cc:140-146 | The plan in the active slot, and none if there is no active slot. |
| CallsAsRuns.ReclaimRetiredIsItsSteps | src/lavanda/resources/resource_store.cc:170-201 | ReclaimRetired, undisturbed, is a run of the atomic steps the interleaving theorems are about, with the same result. |
| CallsAsRuns.InsertIsItsSteps | src/lavanda/resources/resource_store.cc:45-104 | The same of a successful Insert. |
| CallsAsRuns.ReleaseIsItsSteps | src/lavanda/resources/resource_store.cc:149-168 | The same of a successful Release. |
| CallsAsRuns.UnpinIsItsSteps | src/lavanda/resources/resource_store.cc:256-276 | Unpin is one step for a stale id, two where there is a pin to take, and three where there is none and the count is put back. |
| CallsAsRuns.BuildAndStageIsItsSteps | src/lavanda/graph/graph_plan_store.cc:13-54 | A successful BuildAndStage is a run of atomic steps with the same result, compilation's pins and the replaced plan's destruction included. |
| CallsAsRuns.ReleaseStagedPlanIsItsSteps | src/lavanda/graph/graph_plan_store.cc:70-94 | The same of a successful ReleaseStagedPlan. |
| CallsAsRuns.ReclaimPlansAreItsSteps | src/lavanda/graph/graph_plan_store.cc:96-109 | The same of ReclaimRetiredPlans over all slots. |
| CallsAsRuns.TryActivateIsItsSteps | src/lavanda/graph/graph_plan_store.cc:111-138 | The same of a successful TryActivate. |
| CallsAsRuns.CreateVoiceIsItsSteps | src/lavanda/runtime/voice_pool.cc:142-166 | The same of a creation: the former asset is given back, then the new id is resolved. |
| CallsAsRuns.DestroyVoiceIsItsSteps | src/lavanda/runtime/voice_pool.cc:204-217 | The same of a destruction through a valid handle. |
| EventCallsAsRuns.AdoptEpochIsItsSteps | src/lavanda/runtime/audio_runtime.cc:502-515 | AdoptEpoch of a newer epoch, undisturbed, is a run of the steps of EventFlow that ends with the heap, epoch, reservations and discards AdoptEpoch leaves. |
| EventCallsAsRuns.TakeCommandIsItsSteps | src/lavanda/runtime/audio_runtime.cc:521-544 | The same of one turn of the drain, whichever branch it takes: immediate, stale, queued, or bringing a newer epoch first. |
| EventCallsAsRuns.DrainCommandsIsItsSteps | src/lavanda/runtime/audio_runtime.cc:517-545 | The same of the whole drain, from the start of the callback. |
| EventCallsAsRuns.DispatchDueIsItsSteps | src/lavanda/runtime/audio_runtime.cc:547-556 | The same of DispatchDue: the heap that is left, and one reservation returned and one event counted for each that was due. |
| EventCallsAsRuns.RenderIsItsSteps | src/lavanda/runtime/audio_runtime.cc:479-593 | A whole callback, undisturbed, is a run of atomic steps that ends with the heap, epoch, discards, reservations and count of executed events that Render leaves. |
| EventCallsAsRuns.ScheduleAtFrameIsItsSteps | src/lavanda/runtime/audio_runtime.cc:308-331 | ScheduleAtFrame is a run of the control thread's steps: both places are taken and the event is counted, or nothing changes. |
| Handles.DeadStaysDead | src/lavanda/runtime/voice_pool.cc:30-60 | In every run a handle whose occupant is gone never becomes valid again. |
| Handles.StaleHandleIsHarmless | src/lavanda/runtime/voice_pool.cc:91-217 | From the moment a handle's destruction is applied, no command that carries it changes any slot, however late it arrives. |
| Handles.CreationFindsDeadSlot | src/lavanda/runtime/voice_pool.cc:142-166 | A creation never overwrites a living occupant, and its generation is new to its slot. |
| Handles.CreationsOnlyGetNewer | src/lavanda/runtime/voice_pool.cc:30-46 | Creations queued for one slot carry strictly increasing generations. |
| Handles.ObservedIsCurrent | src/lavanda/runtime/voice_pool.cc:102-125 | Unpacking a published word gives the state under the slot's own generation and Inactive under any other. |
| Handles.ObservedAgreesWithSlot | src/lavanda/runtime/voice_pool.cc:102-125 | In every run, between commands, the published state is the audio slot's for the current generation and Inactive for any other. |
| Handles.VoicesAlwaysReachABus | src/lavanda/runtime/bus_system.cc:148-158 | In every run the master bus is active, and whatever bus a voice names resolves to an active one. |
| BusSystems.BusSystem.ReserveSlot | src/lavanda/runtime/bus_system.cc:21-37 | Takes the first slot not in use, never the master, under a generation not given out before, and fails only if there is none. |
| BusSystems.BusSystem.ReleaseSlot | src/lavanda/runtime/bus_system.cc:39-55 | Frees the slot only for the handle it was reserved under, and never the master. |
| BusSystems.BusSystem.ApplyCommand | src/lavanda/runtime/bus_system.cc:67-122 | Creation and destruction spare the master; gain commands change only the bus a valid handle names; everything else stays. |
| BusSystems.BusSystem.FindBus | src/lavanda/runtime/bus_system.cc:148-158 | The bus of a valid handle, and the master for any other; either is active. |
| CommandLaws.CommandsReachTheirBus | src/lavanda/runtime/bus_system.cc:67-122 | A created bus is active at full gain under its handle and a destroyed one inactive, never the master; gains reach only a bus whose handle is valid. |
| VoicePools.VoicePool.ReserveSlot | src/lavanda/runtime/voice_pool.cc:30-46 | Takes the first slot not in use, under its next generation, and fails only if all are. |
| VoicePools.VoicePool.ReleaseSlot | src/lavanda/runtime/voice_pool.cc:48-60 | Frees the slot only for the handle it was last reserved under. |
| VoicePools.VoicePool.ReleaseAsset | src/lavanda/runtime/voice_pool.cc:127-137 | The slot lets go of its asset and the store loses exactly that pin. |
| VoicePools.VoicePool.CreateAt | src/lavanda/runtime/voice_pool.cc:142-166 | What the slot held is given back before the new id is resolved; the slot starts afresh under the new generation. |
| VoicePools.VoicePool.DestroyAt | src/lavanda/runtime/voice_pool.cc:204-217 | The slot becomes inactive under its generation and gives its asset's pin back. |
| VoicePools.VoicePool.ApplyCommand | src/lavanda/runtime/voice_pool.cc:139-324 | Creation works on any slot; every other command changes only the slot a valid handle names; the store loses a pin exactly when an asset-backed occupant goes. |
| VoicePools.VoicePool.ObservedState | src/lavanda/runtime/voice_pool.cc:112-125 | The published word tells the audio slot's state under the handle's generation. |
| VoiceSlots.CommandsKeepFit | src/lavanda/runtime/voice_pool.cc:168-324 | No command takes the cursor past the asset, the playback ratio out of [0.5, 2], or the slot out of its form. |
| VoiceSlots.CommandsAreTouches | src/lavanda/runtime/voice_pool.cc:168-324 | Commands on a living voice keep its generation, and only destruction ends it: they are what the handle protocol assumes. |
| Ramps.GainRamp.Set | src/lavanda/runtime/gain_ramp.h:15-20 | The ramp is constant at the gain from the first frame on. |
| Ramps.GainRamp.Start | src/lavanda/runtime/gain_ramp.h:22-34 | With a duration that fits, the value k frames later is k / duration of the way from the present value to the goal, and the goal from then on; without a duration it is the goal at once; one that overflows ends at the last representable frame. |
| Ramps.ValueIsLinear | src/lavanda/runtime/gain_ramp.h:42-57 | Between its ends a ramp has gone as much of the way as of the time. |
| Ramps.StartedMovesSteadily | src/lavanda/runtime/gain_ramp.h:22-57 | So has a ramp started on any other, from that one's value. |
| Ramps.ValueStaysBetween | src/lavanda/runtime/gain_ramp.h:42-57 | A ramp never leaves the span of its start and target. |
| Ramps.ValueApproaches | src/lavanda/runtime/gain_ramp.h:42-57 | Later values lie between earlier ones and the target. |
| Ramps.RestartIsContinuous | src/lavanda/runtime/gain_ramp.h:22-34 | Restarting keeps the current value if and only if there is a duration and a frame left to ramp over, or the value is the goal already. |
| Ramps.RampEnds | src/lavanda/runtime/gain_ramp.h:22-45 | From its duration on the ramp is at its goal, and it ends by the last representable frame. |
| Ramps.RunStaysWithin | src/lavanda/runtime/gain_ramp.h:15-57 | Through any sequence of sets and restarts, interrupted or not, the value stays within the bounds its goals respect. |
| Blocks.CopyThenClear | src/lavanda/runtime/voice_pool.cc:398-414 | The samples from a position on, then silence, fill exactly the view. |
| VoiceLaws.ToneVoicePlays | src/lavanda/runtime/voice_pool.cc:420-448 | A tone's frames are a sine from the voice's phase at 2 pi frequency / rate a frame; a spatial voice's frequency is shifted by its ratio, up to half the rate. |
| VoiceLaws.AssetVoicePlays | src/lavanda/runtime/voice_pool.cc:381-418 | An asset's frames are its samples from the position in order and then silence; at the end the voice stops and rewinds. |
| VoiceLaws.SpatialVoicePlays | src/lavanda/runtime/voice_pool.cc:507-552 | At a steady ratio frame f of a spatial asset weighs the two samples around the cursor plus f ratios, and past the end the voice stops. |
| VoiceLaws.SegmentsPlayAtTheirPlace | src/lavanda/runtime/voice_pool.cc:454-489 | Only a playing voice plays in a segment, and a spatial one ends it with its ramps headed for where the geometry puts it. |
| CommandLaws.CreatedVoices | src/lavanda/runtime/voice_pool.cc:142-166 | A created voice is stopped at its beginning, at full gain in the middle of the master bus, with the asset found for it. |
| CommandLaws.StartAndStop | src/lavanda/runtime/voice_pool.cc:168-203 | Starting plays on from the position unless the asset is gone; stopping rewinds; nothing else changes. |
| CommandLaws.SettingsReachTheirFields | src/lavanda/runtime/voice_pool.cc:219-274 | Each setting changes its own field alone: a gain holds at every frame, and a gain ramp moves from the present value to the goal in even steps. |
| CommandLaws.SpatialSwitch | src/lavanda/runtime/voice_pool.cc:275-324 | Only mono sources can be switched on; the position goes over to the fractional cursor and back, rounded down; a playing voice starts from its panned gains at its own speed. |
| CommandLaws.UpdatesHeadForTheGoal | src/lavanda/runtime/voice_pool.cc:454-489 | A spatial update aims the three ramps at the geometry's gains and ratio: at once the first time, and without a jump after. |
| CommandLaws.CommandsReachTheirVoice | src/lavanda/runtime/voice_pool.cc:139-217 | A command changes only the slot its handle names: a creation whatever is there, any other only the living occupant the handle was given for. |
| VoiceRendering.FramesCompose | src/lavanda/runtime/voice_pool.cc:381-448 | A voice's n + k frames are its n frames and then k from where it was. |
| VoiceRendering.AssetFrames | src/lavanda/runtime/voice_pool.cc:398-417 | Playing frame by frame is the asset's samples in order, then silence, and the voice stops with the block in which the asset ends. |
| VoiceRendering.RenderAssetSource | src/lavanda/runtime/voice_pool.cc:381-418 | The copying loop does what frame-by-frame playing does. |
| VoiceRendering.RenderAssetSourceSpatial | src/lavanda/runtime/voice_pool.cc:507-552 | The resampling loop does what frame-by-frame playing at the ramped ratio does, interpolating between neighbours and stopping at the end. |
| VoiceRendering.RenderTone | src/lavanda/runtime/voice_pool.cc:420-448 | The oscillator loop does what frame-by-frame playing does, including the phase it leaves. |
| VoiceRendering.RenderDopplerSine | src/lavanda/spatial/spatial_oscillator.cc:9-29 | The shifted oscillator does what frame-by-frame playing at the ramped ratio, capped at half the rate, does. |
| VoiceRendering.RenderSource | src/lavanda/runtime/voice_pool.cc:420-578 | Whatever the voice is, the block written and the slot left are those of playing frame after frame. |
| VoiceSegments.UpdateSettles | src/lavanda/runtime/voice_pool.cc:454-489 | Updating a voice's spatial targets again with nothing moved changes nothing, so segment boundaries restart no ramp. |
| VoiceSegments.VoiceSplits | src/lavanda/runtime/voice_pool.cc:454-552 | A voice's segment of n + k frames, spatial update included, is n frames and then k. |
| VoiceSegments.SpatialPlaybackTime | src/lavanda/runtime/voice_pool.cc:507-552 | However listener and emitter move, a spatialized N-frame asset still plays before N/2 frames and has ended after 2N. |
| MixerMath.AnglesOfPan | src/lavanda/runtime/mixer_math.cc:9-19 | The angles a pan stands for: proportional within its ends, and those of the ends beyond them. |
| MixerMath.AccumulateInto | src/lavanda/runtime/mixer_math.cc:89-103 | Every sample of the view gains the source's sample times the gain; an empty view or source changes nothing. |
| MixerMath.AccumulateIntoRamped | src/lavanda/runtime/mixer_math.cc:105-122 | The same with the ramp's value at each frame. |
| MixerMath.AccumulateMonoToStereo | src/lavanda/runtime/mixer_math.cc:21-35 | The first channel gains the source's first channel under the left gain and the second under the right; the other channels are kept; an empty view or source changes nothing. |
| MixerMath.AccumulateMonoToStereoRamped | src/lavanda/runtime/mixer_math.cc:37-54 | The same under unit gains times the ramp's value at each frame. |
| MixerMath.AccumulateMonoToStereoSpatial | src/lavanda/runtime/mixer_math.cc:56-87 | The three ramps multiply at each frame; the shortcut for constant ramps gives the same result. |
| MixerMath.AccumulateStereoWithBalance | src/lavanda/runtime/stereo_balance.h:31-45 | The first channel gains the source's first under the left gain and the second its second under the right, as far as both have frames; anything that is not stereo changes nothing. |
| MixerMath.AccumulateStereoWithBalanceRamped | src/lavanda/runtime/stereo_balance.h:47-64 | The same with the ramp's value at each frame. |
| MixerMath.ApplyGain | src/lavanda/runtime/mixer_math.cc:124-137 | Every sample of the view is multiplied by the gain. |
| MixerMath.ApplyGainRamped | src/lavanda/runtime/mixer_math.cc:139-155 | The same with the ramp's value at each frame. |
| VoiceMix.ConstantPan | src/lavanda/runtime/audio_runtime.cc:681-716 | Where the gain ramp is constant the unit pan times the ramp is the constant-gain pan, so the two code paths agree. |
| VoiceMix.AccumulateVoice | src/lavanda/runtime/audio_runtime.cc:681-717 | Stereo, spatial and mono, constant or ramped: each frame of the bus gains the voice as heard under its gain ramp. |
| VoiceMix.Mixer.ClearActiveAccumulators | src/lavanda/runtime/bus_system.cc:169-175 | Every active bus starts the block in silence. |
| VoiceMix.Mixer.RenderVoice | src/lavanda/runtime/audio_runtime.cc:674-717 | One voice moves on by the block and is added to the bus its target resolves to. |
| VoiceMix.Mixer.RenderVoices | src/lavanda/runtime/audio_runtime.cc:669-718 | Each active bus holds the sum, in slot order, of exactly the playing voices that resolve to it. |
| VoiceMix.Mixer.MixBuses | src/lavanda/runtime/audio_runtime.cc:720-742 | The master holds its own voices and every active user bus under that bus's gain ramp. |
| VoiceMix.Mixer.RenderVoicesAndBuses | src/lavanda/runtime/audio_runtime.cc:649-755 | Each output frame gains the master's frame as defined from voices, buses and ramps; an output that is not stereo or is too long is left alone and no voice moves. |
| MixLaws.MixIsSumOfShares | src/lavanda/runtime/audio_runtime.cc:649-755 | Mixing through the buses adds up: on each side every frame is the sum over the playing voices of sample times side gain times bus gain, under the master gain. The side gains are the cosine and sine of the pan's angle, the balance, or the geometry's ramps. |
| MixLaws.AloneOnASide | src/lavanda/runtime/audio_runtime.cc:649-755 | With one voice playing, on any bus, that is its sample under its own, its bus's and the master's gain. |
| MixLaws.MixLoneTone | src/lavanda/runtime/audio_runtime.cc:649-755 | The mixer in place with one panned tone: left gains the sine of its phase times the cosine of the pan's angle, right the sine of it, under the gains of voice, bus and master. |
| StreamNodes.StreamedSplits | src/lavanda/graph/graph_executor.cc:22-28 | A node that works frame by frame: n + k frames are n and then k on the later inputs. |
| StreamNodes.StreamNodesSplit | src/lavanda/graph/graph_executor.cc:14-29 | Such a node overwrites its whole output and splits, which is what the graph theorems ask of nodes. |
| StreamNodes.OverwritesWholeUpToTwo | src/lavanda/graph/nodes/delay_node.cc:26-42 | A node that works on the first two channels overwrites its whole output if and only if it has at most two. |
| DelayLines.DelayReadsHistory | src/lavanda/graph/nodes/delay_node.cc:19-46 | Over any blocks and any earlier settings the ring holds the latest frames, and each output is the frame that many frames back, or the frame itself at the maximum. |
| DelayLines.DelayIsExactBelowMaximum | src/lavanda/graph/nodes/delay_node.cc:19-46 | What a node leaves in its output view, whatever the view held, is the input the set number of frames later if and only if that number is below the maximum and the node has at most two channels. |
| DelayLines.DelayNodesSplit | src/lavanda/graph/nodes/delay_node.cc:19-46 | A delay line of one or two channels splits and overwrites its whole output, at every delay it may be set to. |
| DelayLines.DelayNode.SetDelayFrames | src/lavanda/graph/nodes/delay_node.cc:15-17 | The delay is capped at the maximum; the ring keeps its contents. |
| DelayLines.DelayNode.Process | src/lavanda/graph/nodes/delay_node.cc:19-46 | The ring's loops do what the frame-by-frame line does on the first two channels and leave any others alone; without input the output is cleared and the ring stands still. With one or two channels this is the step the compiler sees. |
| FilterNodes.FrameByFrameIsChannelByChannel | src/lavanda/graph/nodes/one_pole_high_pass_node.cc:21-39 | Running each channel over the whole block is running each frame over all channels. |
| FilterNodes.FilterNodesSplit | src/lavanda/graph/nodes/one_pole_low_pass_node.cc:10-33 | Both filters, of one or two channels, split and overwrite their whole output, at every cutoff. |
| FilterNodes.OnePoleLowPassNode.Process | src/lavanda/graph/nodes/one_pole_low_pass_node.cc:10-33 | On each of the first two channels y[f] = y[f-1] + a (x[f] - y[f-1]) from the remembered output, which is then the last one, as frame by frame; other channels are left alone; without input or rate the output is cleared and the memories stay. |
| FilterNodes.OnePoleHighPassNode.Process | src/lavanda/graph/nodes/one_pole_high_pass_node.cc:10-40 | The same with y[f] = a (y[f-1] + x[f] - x[f-1]) from the remembered input and output. |
| SourceNodes.PlayingCopies | src/lavanda/graph/nodes/audio_asset_source_node.cc:24-40 | Playing frame by frame is copying the node's channels of the samples and then clearing; the cursor stops at the asset's end. |
| SourceNodes.AssetSourcesSplit | src/lavanda/graph/nodes/audio_asset_source_node.cc:15-41 | The asset source splits and overwrites its whole output. |
| SourceNodes.AudioAssetSourceNode.BindAsset | src/lavanda/graph/nodes/audio_asset_source_node.cc:10-13 | The node starts over at the first frame of the asset. |
| SourceNodes.AudioAssetSourceNode.Process | src/lavanda/graph/nodes/audio_asset_source_node.cc:15-41 | Without an asset, or with an output that is empty or of another width than the node's, the output is cleared and the cursor stands still; otherwise the copying does what frame-by-frame playing does. |
| SourceNodes.MixingSums | src/lavanda/graph/nodes/mixer_node.cc:16-24 | Each output frame is the sum of the inputs' frames, up to the declared number of inputs. |
| SourceNodes.MixersSplit | src/lavanda/graph/nodes/mixer_node.cc:16-24 | The mixer splits and overwrites its whole output. |
| SourceNodes.ProcessMixer | src/lavanda/graph/nodes/mixer_node.cc:16-24 | Clearing and accumulating gives those sums, as long as no input shares the output's buffer. |
| NodeParameters.DelayCommandKeepsLine | src/lavanda/runtime/audio_runtime.cc:69-74 | A delay command keeps what the line remembers and sets the requested delay, rounded down and clamped to zero and the maximum. |
| NodeParameters.ClampToCount | src/lavanda/runtime/float_conversion.h:8-19 | Rounds down within the bound, and never exceeds it. |
| NodeParameters.SimpleNodesSplit | src/lavanda/graph/nodes/oscillator_node.cc:9-23 | Gain, output, oscillator and pan nodes split and overwrite their whole output, at every setting of their parameters. |
| NodeLaws.OscillatorNodePlays | src/lavanda/graph/nodes/oscillator_node.cc:9-23 | The oscillator's frames are its sine from its phase at 2 pi frequency over the context's rate, at its level. |
| NodeLaws.OscillatorRests | src/lavanda/graph/nodes/oscillator_node.cc:9-23 | Without a positive rate it is silent and its phase stands still. |
| NodeLaws.GainNodeScales | src/lavanda/graph/nodes/gain_node.cc:7-20 | Every sample is the input's times the gain set. |
| NodeLaws.OutputNodePassesOn | src/lavanda/graph/nodes/output_node.cc:7-20 | The output node passes its input on unchanged. |
| NodeLaws.PanNodeSpreads | src/lavanda/graph/nodes/pan_node.cc:9-19 | Left is the input times the cosine of the pan's angle, right times its sine. |
| NodeLaws.MixerNodeAdds | src/lavanda/graph/nodes/mixer_node.cc:16-24 | Every sample is the sum of the declared inputs' samples there. |
| NodeLaws.ParametersSetWhatTheyName | src/lavanda/runtime/audio_runtime.cc:42-78 | Each parameter reaches the nodes that have it, changes only that, and leaves every other node alone. |
| Engine.ToneSplits | src/lavanda/runtime/render_state.cc:27-48 | The tone's n + k frames are n and then k from the phase in between. |
| Engine.VoiceShareSplits | src/lavanda/runtime/audio_runtime.cc:649-755 | What voices and buses add to n + k frames is what they add to n and then k. |
| Engine.GraphShareSplits | src/lavanda/runtime/audio_runtime.cc:641-646 | The same of the active graph. |
| Engine.CommandsKeepRenderable | src/lavanda/runtime/audio_runtime.cc:595-626 | Every command leaves the engine in a state it can render. |
| Engine.CompiledGraphRenders | src/lavanda/graph/graph_compiler.cc:61-303 | A compiled graph with one channel count per width class can be rendered from any states of its nodes. |
| Engine.SegmentSplits | src/lavanda/runtime/audio_runtime.cc:628-647 | Within the block limit a segment of n + k frames, from any state the engine can be in, is two segments. |
| Engine.EngineSplits | src/lavanda/runtime/audio_runtime.cc:595-647 | The whole engine, with the commands that can be scheduled, meets what Timeline asks of a machine. |
| Engine.EngineIgnoresCallbackSizes | src/lavanda/runtime/audio_runtime.cc:558-647 | However the frames are cut into callbacks, tone, voices, buses and graph give the same samples and end in the same state, whatever commands are scheduled for whenever, node parameters included. |
| SegmentLaws.TonePlays | src/lavanda/runtime/render_state.cc:27-48 | Frame f of a playing tone is its sine f steps of 2 pi frequency / rate on, at its gain, on every channel. |
| SegmentLaws.ToneRests | src/lavanda/runtime/render_state.cc:27-33 | A tone that is stopped, or has no rate or channel to play on, is silent and stands still. |
| SegmentLaws.SegmentIsSum | src/lavanda/runtime/audio_runtime.cc:628-755 | On a stereo engine every sample of a segment is the tone's, plus the sum of the voices' shares under the master gain, plus the value of the graph's output at the device's rate and the segment's frame. |
| SegmentLaws.SegmentMovesOn | src/lavanda/runtime/audio_runtime.cc:628-755 | A segment moves the tone by its frames, each voice by its segment and each node of the graph to the state of its value, and nothing else. |
| CommandLaws.CommandsReachTheirPart | src/lavanda/runtime/audio_runtime.cc:595-611 | When the callback comes to a command, the tone's and the listener's set what they name, and a voice's or a bus's goes to its pool alone. |
| CommandLaws.ParametersReachTheirNode | src/lavanda/runtime/audio_runtime.cc:612-625 | A node's parameter reaches that node of the active graph and no other. |
| SegmentRenderer.PlayTone | src/lavanda/runtime/render_state.cc:27-48 | The tone's loop over the view is the tone, frame by frame. |
| SegmentRenderer.GraphShareIsRun | src/lavanda/graph/graph_executor.cc:7-39 | What running the plan leaves in its output buffer and nodes is the graph's share of the segment. |
| SegmentRenderer.Segments.RenderSounds | src/lavanda/runtime/audio_runtime.cc:628-639 | Tone and mixer in place are the engine's tone and voices. |
| SegmentRenderer.Segments.RenderSegment | src/lavanda/runtime/audio_runtime.cc:628-647 | Tone, mixer and plan interpreter, one after the other over the output view, do exactly what the engine's segment does, to the samples and to the state. |
| SegmentRenderer.FindStepIndexForNode | src/lavanda/graph/execution_plan.cc:23-32 | The step of the node, or the number of steps if it has none. |
| SegmentRenderer.Segments.SetNodeParameter | src/lavanda/runtime/audio_runtime.cc:612-625 | Exactly the named node's state takes the parameter; a node the plan does not have changes nothing. |
| SegmentRenderer.Segments.ApplyCommand | src/lavanda/runtime/audio_runtime.cc:595-626 | Every command that can be scheduled, applied in place, changes the state as the engine says and keeps everything fit to render. |
| EngineRuntimes.EngineRuntime.DispatchDue | src/lavanda/runtime/audio_runtime.cc:547-556 | Applies exactly the due events, in order, to the tone, voices, buses, listener and plan in place. |
| EngineRuntimes.EngineRuntime.RenderNext | src/lavanda/runtime/audio_runtime.cc:571-592 | One turn of the loop, over the real heap and the in-place segment, makes progress and stays on the reference. |
| EngineRuntimes.EngineRuntime.RenderBlock | src/lavanda/runtime/audio_runtime.cc:547-755 | The whole callback in place: samples, heap and the state of tone, voices, buses, listener and graph are those of the frame-by-frame reference, or those of one whole segment if the callback is beyond the block limit. |
| Resampling.FrameLiesInSource | src/lavanda/resources/resampler.cc:29-50 | Every output frame's position lies before the end of the source. |
| Resampling.ClampIsInert | src/lavanda/resources/resampler.cc:44-56 | The clamped index is the floor itself and the fraction lies in [0, 1). |
| Resampling.ResampleAsset | src/lavanda/resources/resampler.cc:13-65 | A bad rate and a result too long are refused; otherwise output frame i weighs, in whole numbers, the two source frames around i times the source's rate over the target's. |
| Resampling.FrameWeighs | src/lavanda/resources/resampler.cc:44-62 | The exact weights: with i times the source's rate split into whole frames and a rest of the target's rate, the first sample counts by the target's rate less the rest and the next by the rest. |
| Resampling.LiesBetweenNeighbours | src/lavanda/resources/resampler.cc:44-62 | Each output sample lies between the two source samples at and behind its position. |
| Resampling.RangeNeverGrows | src/lavanda/resources/resampler.cc:44-62 | No output sample leaves the bounds of its channel's samples. |
| Resampling.EqualRatesAreIdentity | src/lavanda/resources/resampler.cc:13-65 | Equal rates reproduce the source. |
| Resampling.LengthIsNearest | src/lavanda/resources/resampler.cc:29-32 | The length is right to half a frame, and one for sources shorter than that. |
| Resampling.LengthInParts | src/lavanda/resources/resampler.cc:29-32 | In whole numbers, the output lasts as long as the source to half an output frame, and is one frame if that is nothing. |
| WavDecoding.WalkChunks | src/lavanda/resources/decoders/wav_decoder.cc:147-185 | On any bytes the walk ends, reads nothing outside the RIFF body, and finds the first format and data chunks or fails where a chunk overruns. |
| WavDecoding.ReadAll | src/lavanda/resources/decoders/wav_decoder.cc:255-270 | The moving pointer reads exactly the declared frames, and fails if and only if some sample is not finite. |
| WavDecoding.DecodeSamples | src/lavanda/resources/decoders/wav_decoder.cc:195-272 | Each refusal in its order: channels, rate, encoding, alignment, whole frames, none, too many, non-finite; exactly when a format is reported unsupported or a file too long, and what a success guarantees. |
| WavDecoding.DecodeWav | src/lavanda/resources/decoders/wav_decoder.cc:127-273 | On any bytes the result is the specification's: header, chunks, format, samples; no RIFF or WAVE mark is unsupported, a size beyond the file invalid, and a success is an asset of one or two channels, a valid rate and some frames within the limit. |
| WavRoundTrip.Put16 | tests/fixtures/audio/generate_fixtures.py:34-36 | Printing a 16-bit word and reading it gives it back. |
| WavRoundTrip.Put32 | tests/fixtures/audio/generate_fixtures.py:25-36 | Printing a 32-bit word and reading it, or its low 24 bits, gives them back. |
| WavRoundTrip.ChunkRead | tests/fixtures/audio/generate_fixtures.py:25-27 | A printed chunk is read back with its id and body, padding skipped, and the walk lands on the next. |
| WavRoundTrip.WalkIsScan | src/lavanda/resources/decoders/wav_decoder.cc:154-185 | Walking printed chunks is scanning the list of them. |
| WavRoundTrip.ScanKeepsFirst | src/lavanda/resources/decoders/wav_decoder.cc:166-182 | The first format and the first data chunk count, whatever stands around them. |
| WavRoundTrip.FmtParses | src/lavanda/resources/decoders/wav_decoder.cc:47-70 | A printed format, plain or extensible, parses to its parameters. |
| WavRoundTrip.SampleReads | src/lavanda/resources/decoders/wav_decoder.cc:72-123 | A printed 8, 16, 24 or 32-bit value reads back as itself over the depth's full scale, negative ones included, and a printed float as the float of its bit pattern. |
| WavRoundTrip.FramesRead | tests/fixtures/audio/generate_fixtures.py:62-79 | Printed interleaved data reads back as the signal, frame by frame. |
| WavRoundTrip.DecodingUndoesPrinting | src/lavanda/resources/decoders/wav_decoder.cc:127-273 | For one or two channels, any valid rate, 8, 16, 24 or 32 bits or finite floats, with any other chunks anywhere and any trailing bytes, decoding gives exactly the printed values. |
| WavRoundTrip.PlainFileDecodes | tests/fixtures/audio/generate_fixtures.py:25-79 | The generator's plain file, format then data, decodes to its signal whenever the data fits the 32-bit sizes. |

## Left out

Members whose contracts say less than the code does:

- AudioRuntimes.AudioRuntime.Render: the control thread is at rest during the call; EventFlow and SpscQueue have the interleavings. The clock's type and the missed-deadline statistics are not part of this model.
- AudioRuntimes.AudioRuntime.DrainCommands: proved with the control thread at rest, so the queue is empty afterwards; SpscQueue.DrainTakesAllPresent is the statement under a running producer.
- Timeline.Runtime.RenderBlock: the engine is a value of any type with a render function; EngineRuntimes.EngineRuntime.RenderBlock has the program's own, in place.
- Engine.EngineIgnoresCallbackSizes: the active graph stays the same during the run, since no activation and no creation can be scheduled (src/lavanda/runtime/audio_runtime.cc:84-118).
- EventFlow.EventsAreConserved: session epochs, sequence numbers and counters are unbounded.
- Handles.DeadStaysDead: voice and bus generations are unbounded; the 32-bit wrap after 2^32 - 1 creations in one slot is not modelled.
- PlanSafety.RestagedHandleNeverActivates: plan generations are unbounded, and handles are those BuildAndStage returned.
- SpscQueue.StepsAreFifoSteps: head and tail are unbounded, and steps are sequentially consistent.
- CallsAsRuns.BuildAndStageIsItsSteps: in the protocol between the threads a plan is the assets it pins, and 32-bit pin counts do not overflow upwards.
- Scheduling.SiftUp: stands for std::push_heap, of which section 25.8.8 of ISO C++20 fixes the effect and not the swaps; the same holds of Scheduling.TakeRoot and std::pop_heap.
- Editing.AudioGraph.AddNode: node generations are unbounded.
- MixerMath.AccumulateInto: the source block is a value, so a source that is the destination itself is not described; no caller passes one. The same holds of the other Accumulate methods.
- VoiceRendering.RenderSource: a voice that ends while rendering also publishes its new state; that step is Handles' alone.

What the repository does that the model does not:

- Sorting the reachable nodes by index before the checks: only the order of error reports could tell, and every such report is the same error.
- The compiler's loop over the order is two loops here, binding assets and assigning buffers; each leaves the other's state alone. A failed binding is found before any buffer is assigned.
- Tables the compiler keys by node index are keyed by node id (GraphModel.IndexDecidesNode says why this is the same).
- Inside the compiled plan a node's Process is a function on values. The delay line, the filters, the asset source and the mixer are also proved in place on buffers; the loops of the oscillator, gain, pan and output nodes are not.
- Plans that hand a node a view of another width than it declares: what the node then overwrites is not described, only which graphs avoid it.
- The delay line's buffer, indexed by cell and channel in one vector, is a two-dimensional array.
- Rounding, overflow, NaN and infinity of floats; bit-for-bit identity of renderings.
- Weak memory orders: atomic operations are steps in one order.
- Wrap-around of 64-bit frame positions, except where gain ramps saturate.
- Spatial geometry, distance attenuation and the value of the Doppler ratio before its clamp: the target gains and the clamped ratio are parameters.
- Commands pushed through the raw Submit that bypass reservation, pinning or the submitted mark.
- Null nodes, null devices, device opening and closing, Core Audio, file reading, path canonicalisation, allocation failure, status texts and render-time diagnostics.
- Validation of scheduled commands and of asset construction: single checks with one outcome each.
