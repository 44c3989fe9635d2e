/** What a compiled graph plays, end to end: an oscillator wired to the output is heard as its sine at
    the device's rate, and an asset as its samples in order (src/lavanda/graph/graph_executor.cc,
    src/lavanda/graph/graph_compiler.cc, src/lavanda/graph/nodes). */
module GraphLaws {
  import opened Prelude
  import opened Signals
  import opened Resources
  import opened Blocks
  import opened GraphModel
  import opened GraphAnalysis
  import opened BufferAllocation
  import opened BufferAssignment
  import opened GraphMeaning
  import opened GraphExecution
  import opened Compilation
  import opened MixerMath
  import opened StreamNodes
  import opened SourceNodes
  import opened NodeParameters
  import opened VoiceLaws
  import opened NodeLaws

  // ---- Wiring -----------------------------------------------------------------------------------

  /** The driver of an input is the source of the connection that leads there. */
  lemma DriverIsSource(g: Graph, i: nat)
    requires g.WellFormed() && i < |g.connections|
    ensures DriverOf(g.connections, g.connections[i].destination, g.connections[i].input) ==
            Some(g.connections[i].source)
  {
    var c := g.connections[i];
    var j :| 0 <= j < |g.connections| && g.connections[j].destination == c.destination &&
             g.connections[j].input == c.input &&
             DriverOf(g.connections, c.destination, c.input) == Some(g.connections[j].source);
    assert i == j;
  }

  /** Whatever a compiled plan's steps leave, the input at the end of a connection is handed the block
      of the node at its start. */
  lemma ConnectionCarries(
    g: Graph, nodes: set<NodeId>, order: seq<NodeId>, steps: seq<Step>, widths: seq<nat>, states: seq<NodeState>,
    next: seq<NodeState>, inputs: seq<seq<Block>>, blocks: seq<Block>, context: ProcessContext, i: nat, q: nat)
    returns (p: nat)
    requires Compiled(g, nodes, order, steps, widths) && StepsRan(steps, states, next, inputs, blocks, context)
    requires g.WellFormed() && i < |g.connections| && q < |order| == |steps| && g.connections[i].destination == order[q]
    requires g.connections[i].input < |steps[q].inputs|
    ensures p < q && order[p] == g.connections[i].source
    ensures |inputs| == |blocks| == |steps| && g.connections[i].input < |inputs[q]|
    ensures inputs[q][g.connections[i].input] == blocks[p]
  {
    hide Compiled, Graph.WellFormed, DriverOf, Untouched;
    SizesAgree(g, nodes, order, steps, widths);
    DriverIsSource(g, i);
    p := DrivingStep(g, nodes, order, steps, widths, q, g.connections[i].input);
    assert Drives(steps, p, q, g.connections[i].input);
    assert inputs[q][g.connections[i].input] == blocks[p];
  }

  /** Positions in the order are unique. */
  lemma OnePosition(g: Graph, nodes: set<NodeId>, order: seq<NodeId>, steps: seq<Step>, widths: seq<nat>, p: nat, q: nat)
    requires Compiled(g, nodes, order, steps, widths) && p < |order| && q < |order| && order[p] == order[q]
    ensures p == q
  {
    hide Graph.ConnectionFits, Graph.InputsDistinct, IsAssignment, IsOutputCone, AllInputsConnected;
  }

  /** The step of a node runs that node, with as many inputs as it expects. */
  lemma StepOfNode(g: Graph, nodes: set<NodeId>, order: seq<NodeId>, steps: seq<Step>, widths: seq<nat>, q: nat)
    requires Compiled(g, nodes, order, steps, widths) && q < |order|
    ensures |steps| == |order| && g.WellFormed() && g.IsValidNode(order[q])
    ensures steps[q].node == g.GetNode(order[q]) && |steps[q].inputs| == g.GetNode(order[q]).expectedInputs
  {
    hide Graph.ConnectionFits, Graph.InputsDistinct, IsOutputCone, AllInputsConnected;
    SizesAgree(g, nodes, order, steps, widths);
    assert StepFits(g, order, steps, q);
  }

  // ---- An oscillator ------------------------------------------------------------------------------

  /** The output passes on what an oscillator plays: connection i leads to it from the node at p. */
  ghost predicate PlaysOscillator(g: Graph, order: seq<NodeId>, last: nat, i: nat, p: nat, trig: Trig, start: NodeState)
  {
    && g.WellFormed() && last < |order| && p < |order| && i < |g.connections|
    && g.connections[i].destination == order[last] && g.connections[i].input == 0 && g.connections[i].source == order[p]
    && g.IsValidNode(order[last]) && g.GetNode(order[last]) == OutputNode(1)
    && start.OscillatorMemory?
    && g.IsValidNode(order[p]) && g.GetNode(order[p]) == OscillatorNode(trig, start.frequency, start.level)
  }

  /** Frame f of the output is the oscillator's sine, f steps of 2 pi frequency / rate from its phase,
      and the phase has moved on by the whole block. */
  lemma OscillatorIsHeard(
    g: Graph, nodes: set<NodeId>, order: seq<NodeId>, steps: seq<Step>, widths: seq<nat>, states: seq<NodeState>,
    next: seq<NodeState>, inputs: seq<seq<Block>>, blocks: seq<Block>, context: ProcessContext, last: nat, i: nat, p: nat,
    trig: Trig, start: NodeState, step: real)
    requires Compiled(g, nodes, order, steps, widths) && StepsRan(steps, states, next, inputs, blocks, context)
    requires PlaysOscillator(g, order, last, i, p, trig, start)
    requires |states| == |order| && states[p].OscillatorMemory? && context.sampleRate > 0.0
    requires step == 2.0 * trig.pi * states[p].frequency / context.sampleRate
    ensures |next| == |blocks| == |order|
    ensures next[p] == states[p].(phase := states[p].phase + Steps(context.frameCount, step))
    ensures |blocks[last]| == context.frameCount
    ensures forall f :: 0 <= f < context.frameCount ==>
              blocks[last][f] == [Sine(trig, states[p].phase + Steps(f, step), states[p].level)]
  {
    hide Compiled, Graph.WellFormed, Sine, Steps, OscillatorNode, OutputNode;
    StepOfNode(g, nodes, order, steps, widths, last);
    StepOfNode(g, nodes, order, steps, widths, p);
    OneInput(1);
    var q := ConnectionCarries(g, nodes, order, steps, widths, states, next, inputs, blocks, context, i, last);
    OnePosition(g, nodes, order, steps, widths, p, q);
    OscillatorNodePlays(trig, start.frequency, start.level, states[p], inputs[p], context, step);
    assert (next[p], blocks[p]) == steps[p].node.process(states[p], inputs[p], context);
    assert inputs[last] == [blocks[p]];
    OutputNodePassesOn(1, states[last], blocks[p], context);
    assert (next[last], blocks[last]) == steps[last].node.process(states[last], inputs[last], context);
  }

  lemma OneInput(channels: nat)
    ensures OutputNode(channels).expectedInputs == 1
  {
  }

  /** One callback's worth of a plan that plays an oscillator. */
  method RenderOscillator(
    g: Graph, ghost nodes: set<NodeId>, plan: GraphExecutionPlan, output: AudioBufferView, sampleRate: real,
    clockFrame: nat, ghost i: nat, ghost p: nat, ghost trig: Trig, ghost start: NodeState, ghost tone: NodeState,
    ghost step: real)
    requires p < |plan.order| == plan.states.Length && plan.states[p] == tone && tone.OscillatorMemory?
    requires plan.Valid() && plan.Exact() && output.Valid() && output.channels == plan.outputChannels == 1
    requires output.frameCount <= plan.maxFrames && sampleRate > 0.0
    requires Compiled(g, nodes, plan.order, plan.steps, plan.widths)
    requires PlaysOscillator(g, plan.order, plan.last, i, p, trig, start)
    requires step == 2.0 * trig.pi * tone.frequency / sampleRate
    modifies plan.states, plan.buffers, output.data
    ensures plan.Valid() && output.Valid()
    ensures plan.states[p] == tone.(phase := tone.phase + Steps(output.frameCount, step))
    ensures forall f :: 0 <= f < output.frameCount ==>
              var at := output.offset + f;
              output.data[at][0] == old(output.data[at][0]) + trig.sin(tone.phase + Steps(f, step)) * tone.level
  {
    hide Compiled, StepsRan, RunSteps, PlaysOscillator, Steps, Sine, Shaped, AllRunnable;
    ghost var states := plan.states[..];
    ghost var inputs, blocks := GraphExecution.Render(plan, output, output.frameCount, sampleRate, clockFrame);
    OscillatorIsHeard(g, nodes, plan.order, plan.steps, plan.widths, states, plan.states[..], inputs, blocks,
                      ProcessContext(output.frameCount, sampleRate, clockFrame), plan.last, i, p, trig, start, step);
    forall f | 0 <= f < output.frameCount
      ensures
        var at := output.offset + f;
        output.data[at][0] == old(output.data[at][0]) + trig.sin(tone.phase + Steps(f, step)) * tone.level
    {
      assert plan.buffers[..][plan.outputBuffer][..output.frameCount][f] == blocks[plan.last][f];
      SineUnfolds(trig, tone.phase + Steps(f, step), tone.level);
    }
  }

  lemma SineUnfolds(trig: Trig, phase: real, level: real)
    ensures Sine(trig, phase, level) == trig.sin(phase) * level
  {
  }

  // ---- An asset -----------------------------------------------------------------------------------

  /** The frame so far into an asset, and silence behind its end. */
  function AssetFrame(asset: AudioAsset, at: nat): Frame {
    if at < |asset.samples| then asset.samples[at] else seq(asset.channels, _ => 0.0)
  }

  ghost predicate IsForm(asset: AudioAsset) {
    HasWidth(asset.samples, asset.channels)
  }

  /** The asset source as the graph runs it, from a position. */
  lemma AssetNodePlays(id: AssetId, asset: AudioAsset, position: nat, context: ProcessContext)
    requires IsForm(asset) && position <= |asset.samples|
    ensures
      var (after, block) :=
        AssetSourceNode(id, asset.channels).process(AssetCursor(Some(asset), position), [], context);
      && after == AssetCursor(Some(asset), Min(position + context.frameCount, |asset.samples|))
      && |block| == context.frameCount
      && forall f :: 0 <= f < context.frameCount ==> block[f] == AssetFrame(asset, position + f)
  {
    var s := AssetCursor(Some(asset), position);
    PlayingCopies(asset.channels, s, context.frameCount);
    var block := AssetSourceNode(id, asset.channels).process(s, [], context).1;
    forall f | 0 <= f < context.frameCount ensures block[f] == AssetFrame(asset, position + f) {
      if position + f < |asset.samples| {
        assert Channels(asset.samples[position + f], asset.channels) == asset.samples[position + f];
      }
    }
  }

  /** A block of a plan whose output is an asset source. */
  lemma AssetBlockIsHeard(
    g: Graph, nodes: set<NodeId>, order: seq<NodeId>, steps: seq<Step>, widths: seq<nat>, states: seq<NodeState>,
    buffers: seq<Block>, maxFrames: nat, context: ProcessContext, last: nat, id: AssetId, asset: AudioAsset,
    position: nat)
    requires Compiled(g, nodes, order, steps, widths) && last < |order| && order[last] == g.output
    requires Runnable(steps, states, buffers, widths, maxFrames) && context.frameCount <= maxFrames
    requires last < |steps| && steps[last].node == AssetSourceNode(id, asset.channels)
    requires IsForm(asset) && position <= |asset.samples| && states[last] == AssetCursor(Some(asset), position)
    requires Untouched(steps, last, |steps|) && |steps[last].inputs| == 0
    ensures
      var (s, b) := RunSteps(steps, states, buffers, widths, maxFrames, context, |steps|);
      && s[last] == AssetCursor(Some(asset), Min(position + context.frameCount, |asset.samples|))
      && steps[last].output < |b| && context.frameCount <= |b[steps[last].output]|
      && forall f :: 0 <= f < context.frameCount ==> b[steps[last].output][f] == AssetFrame(asset, position + f)
  {
    hide Compiled, Runnable, RunSteps, AssetSourceNode, AssetFrame, IsForm;
    var inputs, blocks := EveryStepRuns(steps, states, buffers, widths, maxFrames, context);
    var (s, b) := RunSteps(steps, states, buffers, widths, maxFrames, context, |steps|);
    assert (s[last], blocks[last]) == steps[last].node.process(states[last], inputs[last], context);
    assert inputs[last] == [];
    AssetNodePlays(id, asset, position, context);
    forall f | 0 <= f < context.frameCount ensures b[steps[last].output][f] == AssetFrame(asset, position + f) {
      assert b[steps[last].output][f] == b[steps[last].output][..context.frameCount][f];
    }
  }

  /** All the frames of a run of blocks. */
  function Frames(contexts: seq<ProcessContext>): nat
    decreases |contexts|
  {
    if contexts == [] then 0 else contexts[0].frameCount + Frames(contexts[1..])
  }

  function Together(blocks: seq<Block>): Block
    decreases |blocks|
  {
    if blocks == [] then [] else blocks[0] + Together(blocks[1..])
  }

  lemma {:induction false} AssetRunIsHeard(
    g: Graph, nodes: set<NodeId>, order: seq<NodeId>, steps: seq<Step>, widths: seq<nat>, states: seq<NodeState>,
    buffers: seq<Block>, maxFrames: nat, contexts: seq<ProcessContext>, last: nat, id: AssetId, asset: AudioAsset,
    position: nat)
    requires Compiled(g, nodes, order, steps, widths) && last < |order| && order[last] == g.output
    requires Runnable(steps, states, buffers, widths, maxFrames)
    requires forall i :: 0 <= i < |contexts| ==> contexts[i].frameCount <= maxFrames
    requires last < |steps| && steps[last].node == AssetSourceNode(id, asset.channels) && steps[last].output < |buffers|
    requires IsForm(asset) && position <= |asset.samples| && states[last] == AssetCursor(Some(asset), position)
    requires Untouched(steps, last, |steps|) && |steps[last].inputs| == 0
    ensures
      var heard := Together(RunBlocks(steps, states, buffers, widths, maxFrames, contexts, steps[last].output).1);
      && |heard| == Frames(contexts)
      && forall f :: 0 <= f < |heard| ==> heard[f] == AssetFrame(asset, position + f)
    decreases |contexts|
  {
    hide Compiled, AssetSourceNode, IsForm, RunSteps, AllRunnable, Untouched;
    if contexts != [] {
      var n := contexts[0].frameCount;
      AssetBlockIsHeard(g, nodes, order, steps, widths, states, buffers, maxFrames, contexts[0], last, id, asset,
                        position);
      var (s, b) := RunSteps(steps, states, buffers, widths, maxFrames, contexts[0], |steps|);
      var further := Min(position + n, |asset.samples|);
      AssetRunIsHeard(g, nodes, order, steps, widths, s, b, maxFrames, contexts[1..], last, id, asset, further);
      var rest := RunBlocks(steps, s, b, widths, maxFrames, contexts[1..], steps[last].output).1;
      assert b[steps[last].output][..n] + Together(rest) ==
             Together([b[steps[last].output][..n]] + rest);
    }
  }

  /** A freshly compiled plan whose output is an asset source plays the asset it was compiled with: in
      any run of blocks, frame by frame, and then silence. */
  lemma CompiledAssetPlays(
    g: Graph, nodes: set<NodeId>, slots: seq<AssetSlot>, maxFrames: nat, plan: GraphExecutionPlan,
    contexts: seq<ProcessContext>, id: AssetId, asset: AudioAsset)
    requires g.WellFormed() && g.AllValid(nodes) && IsPlanFor(g, nodes, slots, maxFrames, plan) && plan.Exact()
    requires forall i :: 0 <= i < |contexts| ==> contexts[i].frameCount <= maxFrames
    requires id.index < |slots| && slots[id.index].asset == Some(asset) && IsForm(asset)
    requires g.IsValidNode(g.output) && g.GetNode(g.output) == AssetSourceNode(id, asset.channels)
    ensures plan.outputBuffer < plan.buffers.Length
    ensures
      var run := RunBlocks(plan.steps, plan.states[..], plan.buffers[..], plan.widths, maxFrames, contexts,
                           plan.outputBuffer);
      var heard := Together(run.1);
      && |heard| == Frames(contexts)
      && forall f :: 0 <= f < |heard| ==>
           heard[f] == if f < |asset.samples| then asset.samples[f] else seq(asset.channels, _ => 0.0)
  {
    hide RunBlocks, Compiled, AllRunnable, Untouched, Graph.GreedyOrder, Graph.WellFormed, IsForm;
    assert StepIndexed(plan.steps[plan.last], |plan.widths|);
    StepOfNode(g, nodes, plan.order, plan.steps, plan.widths, plan.last);
    AssetNodeShape(id, asset.channels);
    assert StartsOn(slots, plan.steps[plan.last].node, plan.states[plan.last]);
    AssetRunIsHeard(g, nodes, plan.order, plan.steps, plan.widths, plan.states[..], plan.buffers[..], maxFrames,
                    contexts, plan.last, id, asset, 0);
  }

  lemma AssetNodeShape(id: AssetId, channels: nat)
    ensures AssetSourceNode(id, channels).expectedInputs == 0 && AssetSourceNode(id, channels).requiredAsset == Some(id)
    ensures forall asset :: AssetSourceNode(id, channels).bind(asset) == AssetCursor(Some(asset), 0)
  {
  }
}
