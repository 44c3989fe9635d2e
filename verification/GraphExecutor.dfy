/** Running a compiled plan over its shared buffers (src/lavanda/graph/graph_executor.cc), and the
    theorem that this computes what the graph means. */
module GraphExecution {
  import opened Prelude
  import opened Signals
  import opened GraphModel
  import opened GraphAnalysis
  import opened BufferAllocation
  import opened BufferAssignment
  import opened BufferEconomy
  import opened GraphMeaning
  import opened MixerMath

  // ---- One block, as a function of the plan's states and buffers --------------------------------

  /** Buffers of the plan's length, each of its own width. */
  ghost predicate Shaped(buffers: seq<Block>, widths: seq<nat>, maxFrames: nat) {
    && |buffers| == |widths|
    && forall i :: 0 <= i < |buffers| ==> |buffers[i]| == maxFrames && HasWidth(buffers[i], widths[i])
  }

  /** The step's buffers exist. */
  ghost predicate StepIndexed(step: Step, bufferCount: nat) {
    && step.node.WellBehaved()
    && step.output < bufferCount
    && forall i :: 0 <= i < |step.inputs| ==> step.inputs[i] < bufferCount
  }

  /** Every view the step's node is handed has the number of channels the node declares. A node
      that writes a narrower view writes over the next frame and, in the last one, past the end. */
  ghost predicate StepRunnable(step: Step, widths: seq<nat>) {
    && StepIndexed(step, |widths|)
    && widths[step.output] == step.node.outputChannels
    && forall i :: 0 <= i < |step.inputs| ==> widths[step.inputs[i]] == step.node.inputChannels
  }

  ghost predicate AllRunnable(steps: seq<Step>, widths: seq<nat>) {
    forall q :: 0 <= q < |steps| ==> StepRunnable(steps[q], widths)
  }

  ghost predicate Runnable(
    steps: seq<Step>, states: seq<NodeState>, buffers: seq<Block>, widths: seq<nat>, maxFrames: nat)
  {
    |states| == |steps| && Shaped(buffers, widths, maxFrames) && AllRunnable(steps, widths)
  }

  function StepInputs(step: Step, buffers: seq<Block>, frameCount: nat): seq<Block>
    requires forall i :: 0 <= i < |step.inputs| ==> step.inputs[i] < |buffers|
    requires forall i :: 0 <= i < |buffers| ==> frameCount <= |buffers[i]|
  {
    seq(|step.inputs|, i requires 0 <= i < |step.inputs| => buffers[step.inputs[i]][..frameCount])
  }

  /** The step's node reads its inputs' views and overwrites its output's view; the frames of the
      output buffer beyond the view stay. */
  function RunStep(step: Step, state: NodeState, buffers: seq<Block>, context: ProcessContext): (NodeState, seq<Block>)
    requires step.output < |buffers| && forall i :: 0 <= i < |step.inputs| ==> step.inputs[i] < |buffers|
    requires forall i :: 0 <= i < |buffers| ==> context.frameCount <= |buffers[i]|
  {
    var (next, block) := step.node.process(state, StepInputs(step, buffers, context.frameCount), context);
    (next, buffers[step.output := block + buffers[step.output][context.frameCount..]])
  }

  /** A step whose views have its node's widths keeps every buffer's shape. */
  lemma StepKeepsShape(
    step: Step, state: NodeState, buffers: seq<Block>, widths: seq<nat>, maxFrames: nat, context: ProcessContext)
    requires StepRunnable(step, widths) && Shaped(buffers, widths, maxFrames) && context.frameCount <= maxFrames
    ensures Shaped(RunStep(step, state, buffers, context).1, widths, maxFrames)
  {
    var inputs := StepInputs(step, buffers, context.frameCount);
    assert |step.node.process(state, inputs, context).1| == context.frameCount;
  }

  /** After the first k steps. */
  ghost function RunSteps(
    steps: seq<Step>, states: seq<NodeState>, buffers: seq<Block>, widths: seq<nat>, maxFrames: nat,
    context: ProcessContext, k: nat)
    : (r: (seq<NodeState>, seq<Block>))
    requires Runnable(steps, states, buffers, widths, maxFrames) && context.frameCount <= maxFrames && k <= |steps|
    ensures Runnable(steps, r.0, r.1, widths, maxFrames)
  {
    if k == 0 then (states, buffers)
    else
      var (s, b) := RunSteps(steps, states, buffers, widths, maxFrames, context, k - 1);
      assert StepRunnable(steps[k - 1], widths);
      StepKeepsShape(steps[k - 1], s[k - 1], b, widths, maxFrames, context);
      var (next, after) := RunStep(steps[k - 1], s[k - 1], b, context);
      (s[k - 1 := next], after)
  }

  // ---- What every node is handed ----------------------------------------------------------------

  /** Every step's node has processed its own state and inputs once, in this context; an input is the
      block of the step that wrote its buffer last. */
  ghost predicate StepsRan(
    steps: seq<Step>, states: seq<NodeState>, next: seq<NodeState>, inputs: seq<seq<Block>>, blocks: seq<Block>,
    context: ProcessContext)
  {
    && |states| == |next| == |steps| && RanTo(steps, states, next, inputs, blocks, context, |steps|)
    && WiredTo(steps, inputs, blocks, |steps|)
  }

  ghost predicate RanTo(
    steps: seq<Step>, states: seq<NodeState>, next: seq<NodeState>, inputs: seq<seq<Block>>, blocks: seq<Block>,
    context: ProcessContext, k: nat)
  {
    && k <= |steps| == |states| == |next| && |inputs| == |blocks| == k
    && (forall q :: 0 <= q < k ==> |inputs[q]| == |steps[q].inputs|)
    && (forall q :: 0 <= q < k ==> (next[q], blocks[q]) == steps[q].node.process(states[q], inputs[q], context))
    && (forall q :: k <= q < |steps| ==> next[q] == states[q])
  }

  ghost predicate WiredTo(steps: seq<Step>, inputs: seq<seq<Block>>, blocks: seq<Block>, k: nat)
    requires k <= |steps|
  {
    && |inputs| == |blocks| == k
    && forall p, q, n {:trigger blocks[p], inputs[q][n]} ::
         0 <= p < q < k && 0 <= n < |inputs[q]| && Drives(steps, p, q, n) ==> inputs[q][n] == blocks[p]
  }

  /** Input n of step q reads what step p wrote. */
  ghost predicate Drives(steps: seq<Step>, p: nat, q: nat, n: nat)
    requires p < q < |steps|
  {
    n < |steps[q].inputs| && steps[q].inputs[n] == steps[p].output && Untouched(steps, p, q)
  }

  /** The blocks nobody has written over are still there. */
  ghost predicate KeptTo(steps: seq<Step>, buffers: seq<Block>, blocks: seq<Block>, frameCount: nat, k: nat)
    requires k <= |steps|
  {
    && |blocks| == k
    && forall p :: 0 <= p < k && Untouched(steps, p, k) ==> Holds(buffers, steps[p].output, frameCount, blocks[p])
  }

  ghost predicate Holds(buffers: seq<Block>, i: nat, frameCount: nat, block: Block) {
    i < |buffers| && frameCount <= |buffers[i]| && buffers[i][..frameCount] == block
  }

  lemma WiringGrows(
    steps: seq<Step>, buffers: seq<Block>, inputs: seq<seq<Block>>, blocks: seq<Block>, frameCount: nat, k: nat,
    block: Block)
    requires k < |steps| && forall i :: 0 <= i < |steps[k].inputs| ==> steps[k].inputs[i] < |buffers|
    requires forall i :: 0 <= i < |buffers| ==> frameCount <= |buffers[i]|
    requires WiredTo(steps, inputs, blocks, k) && KeptTo(steps, buffers, blocks, frameCount, k)
    ensures WiredTo(steps, inputs + [StepInputs(steps[k], buffers, frameCount)], blocks + [block], k + 1)
  {
    hide Untouched;
    var handed := StepInputs(steps[k], buffers, frameCount);
    forall p, q, n | 0 <= p < q < k + 1 && 0 <= n < |(inputs + [handed])[q]| && Drives(steps, p, q, n)
      ensures (inputs + [handed])[q][n] == (blocks + [block])[p]
    {
      if q < k {
        assert inputs[q][n] == blocks[p];
      } else {
        assert Holds(buffers, steps[p].output, frameCount, blocks[p]);
      }
    }
  }

  lemma KeepingGrows(
    steps: seq<Step>, buffers: seq<Block>, written: seq<Block>, blocks: seq<Block>, frameCount: nat, k: nat, block: Block)
    requires k < |steps| && steps[k].output < |buffers| && KeptTo(steps, buffers, blocks, frameCount, k)
    requires |written| == |buffers| && written == buffers[steps[k].output := written[steps[k].output]]
    requires Holds(written, steps[k].output, frameCount, block)
    ensures KeptTo(steps, written, blocks + [block], frameCount, k + 1)
  {
    hide Holds;
    forall p | 0 <= p < k + 1 && Untouched(steps, p, k + 1)
      ensures Holds(written, steps[p].output, frameCount, (blocks + [block])[p])
    {
      if p < k {
        assert steps[k].output != steps[p].output && Untouched(steps, p, k);
        assert Holds(buffers, steps[p].output, frameCount, blocks[p]);
        HoldsStill(buffers, written, steps[p].output, frameCount, blocks[p]);
      }
    }
  }

  lemma HoldsStill(buffers: seq<Block>, written: seq<Block>, i: nat, frameCount: nat, block: Block)
    requires Holds(buffers, i, frameCount, block) && |written| == |buffers|
    requires i < |buffers| ==> written[i] == buffers[i]
    ensures Holds(written, i, frameCount, block)
  {
  }

  lemma {:induction false} RunIsSteps(
    steps: seq<Step>, states: seq<NodeState>, buffers: seq<Block>, widths: seq<nat>, maxFrames: nat,
    context: ProcessContext, k: nat)
    returns (inputs: seq<seq<Block>>, blocks: seq<Block>)
    requires Runnable(steps, states, buffers, widths, maxFrames) && context.frameCount <= maxFrames && k <= |steps|
    ensures
      var (s, b) := RunSteps(steps, states, buffers, widths, maxFrames, context, k);
      && RanTo(steps, states, s, inputs, blocks, context, k) && WiredTo(steps, inputs, blocks, k)
      && KeptTo(steps, b, blocks, context.frameCount, k)
  {
    hide RanTo, WiredTo, KeptTo, AudioNode.WellBehaved, Holds;
    if k == 0 {
      inputs, blocks := [], [];
      NothingRan(steps, states, buffers, context);
    } else {
      var (s, b) := RunSteps(steps, states, buffers, widths, maxFrames, context, k - 1);
      inputs, blocks := RunIsSteps(steps, states, buffers, widths, maxFrames, context, k - 1);
      assert StepRunnable(steps[k - 1], widths);
      var handed := StepInputs(steps[k - 1], b, context.frameCount);
      var (after, block) := steps[k - 1].node.process(s[k - 1], handed, context);
      RanGrows(steps, states, s, inputs, blocks, context, k - 1, handed, after, block);
      WiringGrows(steps, b, inputs, blocks, context.frameCount, k - 1, block);
      StepWrites(steps[k - 1], s[k - 1], b, context);
      KeepingGrows(steps, b, RunStep(steps[k - 1], s[k - 1], b, context).1, blocks, context.frameCount, k - 1, block);
      inputs, blocks := inputs + [handed], blocks + [block];
    }
  }

  lemma NothingRan(steps: seq<Step>, states: seq<NodeState>, buffers: seq<Block>, context: ProcessContext)
    requires |states| == |steps|
    ensures RanTo(steps, states, states, [], [], context, 0)
    ensures WiredTo(steps, [], [], 0) && KeptTo(steps, buffers, [], context.frameCount, 0)
  {
  }

  lemma RanGrows(
    steps: seq<Step>, states: seq<NodeState>, next: seq<NodeState>, inputs: seq<seq<Block>>, blocks: seq<Block>,
    context: ProcessContext, k: nat, handed: seq<Block>, after: NodeState, block: Block)
    requires k < |steps| && RanTo(steps, states, next, inputs, blocks, context, k) && |handed| == |steps[k].inputs|
    requires (after, block) == steps[k].node.process(next[k], handed, context)
    ensures RanTo(steps, states, next[k := after], inputs + [handed], blocks + [block], context, k + 1)
  {
  }

  /** What a step leaves in its buffer. */
  lemma StepWrites(step: Step, state: NodeState, buffers: seq<Block>, context: ProcessContext)
    requires step.node.WellBehaved() && step.output < |buffers|
    requires forall i :: 0 <= i < |step.inputs| ==> step.inputs[i] < |buffers|
    requires forall i :: 0 <= i < |buffers| ==> context.frameCount <= |buffers[i]|
    ensures
      var written := RunStep(step, state, buffers, context).1;
      var block := step.node.process(state, StepInputs(step, buffers, context.frameCount), context).1;
      && |written| == |buffers| && written == buffers[step.output := written[step.output]]
      && Holds(written, step.output, context.frameCount, block)
  {
    hide AudioNode.WellBehaved;
    BlockWritten(step, state, StepInputs(step, buffers, context.frameCount), context, buffers);
  }

  /** Running all steps hands every node exactly this context, its own state and its drivers' blocks;
      a buffer that no later step writes keeps its step's block. */
  lemma EveryStepRuns(
    steps: seq<Step>, states: seq<NodeState>, buffers: seq<Block>, widths: seq<nat>, maxFrames: nat,
    context: ProcessContext)
    returns (inputs: seq<seq<Block>>, blocks: seq<Block>)
    requires Runnable(steps, states, buffers, widths, maxFrames) && context.frameCount <= maxFrames
    ensures |inputs| == |blocks| == |steps|
    ensures
      var (s, b) := RunSteps(steps, states, buffers, widths, maxFrames, context, |steps|);
      && StepsRan(steps, states, s, inputs, blocks, context)
      && forall p :: 0 <= p < |steps| && Untouched(steps, p, |steps|) ==>
           Holds(b, steps[p].output, context.frameCount, blocks[p])
  {
    hide RunSteps, RanTo, WiredTo;
    inputs, blocks := RunIsSteps(steps, states, buffers, widths, maxFrames, context, |steps|);
    RanLengths(steps, states, RunSteps(steps, states, buffers, widths, maxFrames, context, |steps|).0, inputs, blocks,
               context, |steps|);
  }

  lemma RanLengths(
    steps: seq<Step>, states: seq<NodeState>, next: seq<NodeState>, inputs: seq<seq<Block>>, blocks: seq<Block>,
    context: ProcessContext, k: nat)
    requires RanTo(steps, states, next, inputs, blocks, context, k)
    ensures |inputs| == |blocks| == k && |states| == |next| == |steps|
  {
  }

  // ---- Running the steps computes the meaning ---------------------------------------------------

  /** What GraphCompiler::Compile establishes about its result. */
  ghost predicate Compiled(g: Graph, nodes: set<NodeId>, order: seq<NodeId>, steps: seq<Step>, widths: seq<nat>) {
    && Prepared(g, nodes, order) && IsOutputCone(g, nodes) && g.output in nodes
    && AllInputsConnected(g, nodes)
    && IsAssignment(g, nodes, order, steps, widths)
  }

  ghost predicate StatesMatch(order: seq<NodeId>, states: seq<NodeState>, named: States) {
    && |states| == |order|
    && forall q :: 0 <= q < |order| ==> order[q] in named && named[order[q]] == states[q]
  }

  ghost predicate Untouched(steps: seq<Step>, q: nat, k: nat)
    requires q < k <= |steps|
  {
    forall r :: q < r < k ==> steps[r].output != steps[q].output
  }

  /** The state and block of node order[q], as the graph means them. */
  ghost predicate StepComputed(
    g: Graph, order: seq<NodeId>, named: States, context: ProcessContext, q: nat, state: NodeState)
    requires g.WellFormed() && q < |order| && g.IsValidNode(order[q])
  {
    && Evaluate(g, named, context, order[q], q).Some?
    && state == Evaluate(g, named, context, order[q], q).value.0
  }

  ghost predicate BlockHeld(
    g: Graph, order: seq<NodeId>, named: States, context: ProcessContext, q: nat, buffer: Block)
    requires g.WellFormed() && q < |order| && g.IsValidNode(order[q])
  {
    && Evaluate(g, named, context, order[q], q).Some?
    && context.frameCount <= |buffer|
    && buffer[..context.frameCount] == Evaluate(g, named, context, order[q], q).value.1
  }

  /** The steps run so far have their nodes' next states, and the buffers not yet written again
      hold their nodes' blocks. */
  ghost predicate RunSoFar(
    g: Graph, order: seq<NodeId>, steps: seq<Step>, named: States, context: ProcessContext, k: nat,
    states: seq<NodeState>, buffers: seq<Block>)
    requires g.WellFormed() && k <= |steps| == |order| == |states|
    requires forall q :: 0 <= q < |order| ==> g.IsValidNode(order[q])
  {
    && (forall q :: 0 <= q < k ==> StepComputed(g, order, named, context, q, states[q]))
    && (forall q :: k <= q < |order| ==> order[q] in named && states[q] == named[order[q]])
    && (forall q :: 0 <= q < k && Untouched(steps, q, k) ==>
          steps[q].output < |buffers| && BlockHeld(g, order, named, context, q, buffers[steps[q].output]))
  }

  lemma OrderValid(g: Graph, nodes: set<NodeId>, order: seq<NodeId>)
    requires Prepared(g, nodes, order)
    ensures forall q :: 0 <= q < |order| ==> g.IsValidNode(order[q]) && order[q] in nodes
  {
    forall q | 0 <= q < |order| ensures order[q] in nodes {
      assert order[q] in Elements(order);
    }
  }

  /** The step that drives input n of step k: it ran before, and nothing has written its buffer
      since. */
  lemma DrivingStep(
    g: Graph, nodes: set<NodeId>, order: seq<NodeId>, steps: seq<Step>, widths: seq<nat>, k: nat, n: nat)
    returns (p: nat)
    requires Compiled(g, nodes, order, steps, widths)
    requires k < |steps| && n < |steps[k].inputs|
    requires forall q :: 0 <= q < |order| ==> g.IsValidNode(order[q]) && order[q] in nodes
    ensures p < k < |order| && DriverOf(g.connections, order[k], n) == Some(order[p])
    ensures steps[k].inputs[n] == steps[p].output && Untouched(steps, p, k)
  {
    hide Graph.ConnectionFits, Graph.InputsDistinct, AudioNode.WellBehaved, SlotsMatchPeak, WidthsFromFirstUsers;
    hide IsOutputCone;
    hide BufferFits;
    assert StepFits(g, order, steps, k);
    assert InputsConnected(g, order[k], g.GetNode(order[k]).expectedInputs);
    assert g.InputConnected(order[k], n);
    var source := DriverOf(g.connections, order[k], n).value;
    DriverIsValid(g, order[k], n);
    var c :| 0 <= c < |g.connections| && g.connections[c].source == source &&
             g.connections[c].destination == order[k] && g.connections[c].input == n;
    assert source in nodes;
    p :| 0 <= p < |order| && order[p] == source;
    assert Wire(g, order, c, p, k);
    forall r | p < r < k ensures steps[r].output != steps[p].output {
      assert OutputsOf(steps)[r] != OutputsOf(steps)[p];
    }
  }

  /** With uniform widths every view has its node's number of channels: what a step writes has its
      own, what it reads has its driver's, and a connection joins equal ones. */
  lemma UniformStepsRun(g: Graph, nodes: set<NodeId>, order: seq<NodeId>, steps: seq<Step>, widths: seq<nat>)
    requires Compiled(g, nodes, order, steps, widths) && UniformWidths(g, nodes)
    ensures AllRunnable(steps, widths)
  {
    hide Graph.InputsDistinct, AudioNode.WellBehaved, SlotsMatchPeak, WidthsFromFirstUsers;
    hide IsOutputCone;
    hide AllInputsConnected, AliasFree, UniformWidths, Untouched;
    OrderValid(g, nodes, order);
    forall q | 0 <= q < |steps| ensures StepRunnable(steps[q], widths) {
      assert StepFits(g, order, steps, q);
      BuffersHaveStepWidth(g, nodes, order, steps, widths, q);
      forall n | 0 <= n < |steps[q].inputs|
        ensures steps[q].inputs[n] < |widths| && widths[steps[q].inputs[n]] == steps[q].node.inputChannels
      {
        var p := DrivingStep(g, nodes, order, steps, widths, q, n);
        BuffersHaveStepWidth(g, nodes, order, steps, widths, p);
        assert StepFits(g, order, steps, p);
        DriversFit(g, order[q], n);
      }
    }
  }

  lemma DriversFit(g: Graph, id: NodeId, n: nat)
    requires g.WellFormed() && DriverOf(g.connections, id, n).Some?
    ensures
      var source := DriverOf(g.connections, id, n).value;
      && g.IsValidNode(source) && g.IsValidNode(id)
      && g.GetNode(source).outputChannels == g.GetNode(id).inputChannels
  {
    hide Graph.InputsDistinct, AudioNode.WellBehaved;
    var source := DriverOf(g.connections, id, n).value;
    var c :| 0 <= c < |g.connections| && g.connections[c].source == source &&
             g.connections[c].destination == id && g.connections[c].input == n;
    assert g.ConnectionFits(g.connections[c]);
  }

  /** Input number n of step k finds the block its driver produced. */
  lemma InputHeld(
    g: Graph, nodes: set<NodeId>, order: seq<NodeId>, steps: seq<Step>, widths: seq<nat>, named: States,
    context: ProcessContext, k: nat, states: seq<NodeState>, buffers: seq<Block>, n: nat)
    requires Compiled(g, nodes, order, steps, widths)
    requires k < |steps| && |states| == |order| && n < |steps[k].inputs|
    requires forall q :: 0 <= q < |order| ==> g.IsValidNode(order[q]) && order[q] in nodes
    requires RunSoFar(g, order, steps, named, context, k, states, buffers)
    ensures DriverOf(g.connections, order[k], n).Some? && k > 0
    ensures
      var source := DriverOf(g.connections, order[k], n).value;
      && g.IsValidNode(source)
      && Evaluate(g, named, context, source, k - 1).Some?
      && steps[k].inputs[n] < |buffers|
      && context.frameCount <= |buffers[steps[k].inputs[n]]|
      && buffers[steps[k].inputs[n]][..context.frameCount] == Evaluate(g, named, context, source, k - 1).value.1
  {
    hide Graph.ConnectionFits, Graph.InputsDistinct, AudioNode.WellBehaved, SlotsMatchPeak, WidthsFromFirstUsers;
    hide IsOutputCone;
    hide Evaluate, StepComputed, BufferFits, StepFits, AliasFree, Untouched;
    var p := DrivingStep(g, nodes, order, steps, widths, k, n);
    assert BlockHeld(g, order, named, context, p, buffers[steps[p].output]);
    DeeperAgrees(g, named, context, order[p], p, k - 1);
  }

  lemma {:induction false} InputsHeld(
    g: Graph, nodes: set<NodeId>, order: seq<NodeId>, steps: seq<Step>, widths: seq<nat>, named: States,
    context: ProcessContext, k: nat, states: seq<NodeState>, buffers: seq<Block>, n: nat)
    requires Compiled(g, nodes, order, steps, widths)
    requires k < |steps| && |states| == |order| && n <= |steps[k].inputs|
    requires forall q :: 0 <= q < |order| ==> g.IsValidNode(order[q]) && order[q] in nodes
    requires forall i :: 0 <= i < |steps[k].inputs| ==> steps[k].inputs[i] < |buffers|
    requires forall i :: 0 <= i < |buffers| ==> context.frameCount <= |buffers[i]|
    requires RunSoFar(g, order, steps, named, context, k, states, buffers)
    ensures EvaluateInputs(g, named, context, order[k], n, k) ==
            Some(StepInputs(steps[k], buffers, context.frameCount)[..n])
  {
    hide Compiled, RunSoFar, Evaluate, StepRunnable, Graph.ConnectionFits, Graph.InputsDistinct, AudioNode.WellBehaved;
    if n > 0 {
      InputsHeld(g, nodes, order, steps, widths, named, context, k, states, buffers, n - 1);
      InputHeld(g, nodes, order, steps, widths, named, context, k, states, buffers, n - 1);
      var all := StepInputs(steps[k], buffers, context.frameCount);
      assert all[..n] == all[..n - 1] + [all[n - 1]];
    } else {
      var all := StepInputs(steps[k], buffers, context.frameCount);
      assert all[..0] == [];
    }
  }

  /** Running step k extends what has been computed. */
  lemma RunNext(
    g: Graph, nodes: set<NodeId>, order: seq<NodeId>, steps: seq<Step>, widths: seq<nat>, named: States,
    context: ProcessContext, k: nat, states: seq<NodeState>, buffers: seq<Block>, maxFrames: nat)
    requires Compiled(g, nodes, order, steps, widths)
    requires k < |steps| && Runnable(steps, states, buffers, widths, maxFrames) && context.frameCount <= maxFrames
    requires forall q :: 0 <= q < |order| ==> g.IsValidNode(order[q]) && order[q] in nodes
    requires RunSoFar(g, order, steps, named, context, k, states, buffers)
    requires StepRunnable(steps[k], widths)
    ensures
      var (next, after) := RunStep(steps[k], states[k], buffers, context);
      RunSoFar(g, order, steps, named, context, k + 1, states[k := next], after)
  {
    hide Graph.ConnectionFits, Graph.InputsDistinct, AudioNode.WellBehaved, SlotsMatchPeak, WidthsFromFirstUsers;
    hide IsOutputCone;
    hide BufferFits, AliasFree, EvaluateInputs;
    var step := steps[k];
    assert StepFits(g, order, steps, k);
    var n := |step.inputs|;
    InputsHeld(g, nodes, order, steps, widths, named, context, k, states, buffers, n);
    var inputs := StepInputs(step, buffers, context.frameCount);
    assert inputs[..n] == inputs;
    var (next, block) := step.node.process(states[k], inputs, context);
    assert Evaluate(g, named, context, order[k], k) == Some((next, block));
    BlockWritten(step, states[k], inputs, context, buffers);
    var after := RunStep(step, states[k], buffers, context).1;
    OthersHeld(g, order, steps, named, context, k, states, buffers, after[step.output]);
  }

  /** What step k writes leaves the blocks that no later step touches. */
  lemma OthersHeld(
    g: Graph, order: seq<NodeId>, steps: seq<Step>, named: States, context: ProcessContext, k: nat,
    states: seq<NodeState>, buffers: seq<Block>, written: Block)
    requires g.WellFormed() && k < |steps| == |order| == |states| && steps[k].output < |buffers|
    requires forall q :: 0 <= q < |order| ==> g.IsValidNode(order[q])
    requires RunSoFar(g, order, steps, named, context, k, states, buffers)
    ensures forall q :: 0 <= q < k && Untouched(steps, q, k + 1) ==>
              && steps[q].output < |buffers|
              && BlockHeld(g, order, named, context, q, buffers[steps[k].output := written][steps[q].output])
  {
    hide Graph.WellFormed, BlockHeld, StepComputed;
    forall q | 0 <= q < k && Untouched(steps, q, k + 1)
      ensures
        && steps[q].output < |buffers|
        && BlockHeld(g, order, named, context, q, buffers[steps[k].output := written][steps[q].output])
    {
      assert steps[k].output != steps[q].output && Untouched(steps, q, k);
    }
  }

  lemma BlockWritten(
    step: Step, state: NodeState, inputs: seq<Block>, context: ProcessContext, buffers: seq<Block>)
    requires step.node.WellBehaved() && step.output < |buffers|
    requires context.frameCount <= |buffers[step.output]|
    ensures
      var block := step.node.process(state, inputs, context).1;
      && |block| == context.frameCount
      && (block + buffers[step.output][context.frameCount..])[..context.frameCount] == block
  {
    var block := step.node.process(state, inputs, context).1;
    assert |block| == context.frameCount;
  }

  lemma SizesAgree(g: Graph, nodes: set<NodeId>, order: seq<NodeId>, steps: seq<Step>, widths: seq<nat>)
    requires Compiled(g, nodes, order, steps, widths)
    ensures |steps| == |order| && g.WellFormed() && g.AllValid(nodes) && g.output in nodes
    ensures forall q :: 0 <= q < |order| ==> g.IsValidNode(order[q]) && order[q] in nodes
  {
    OrderValid(g, nodes, order);
  }

  lemma RunStart(
    g: Graph, order: seq<NodeId>, steps: seq<Step>, named: States, context: ProcessContext,
    states: seq<NodeState>, buffers: seq<Block>)
    requires g.WellFormed() && |steps| == |order| && StatesMatch(order, states, named)
    requires forall q :: 0 <= q < |order| ==> g.IsValidNode(order[q])
    ensures RunSoFar(g, order, steps, named, context, 0, states, buffers)
  {
  }

  lemma {:induction false} RunComputes(
    g: Graph, nodes: set<NodeId>, order: seq<NodeId>, steps: seq<Step>, widths: seq<nat>, named: States,
    states: seq<NodeState>, buffers: seq<Block>, maxFrames: nat, context: ProcessContext, k: nat)
    requires Compiled(g, nodes, order, steps, widths) && StatesMatch(order, states, named)
    requires Runnable(steps, states, buffers, widths, maxFrames) && context.frameCount <= maxFrames && k <= |steps|
    ensures forall q :: 0 <= q < |order| ==> g.IsValidNode(order[q]) && order[q] in nodes
    ensures
      var (s, b) := RunSteps(steps, states, buffers, widths, maxFrames, context, k);
      RunSoFar(g, order, steps, named, context, k, s, b)
  {
    hide Compiled, StatesMatch, RunSoFar, Graph.WellFormed, AudioNode.WellBehaved, RunStep;
    SizesAgree(g, nodes, order, steps, widths);
    if k > 0 {
      RunComputes(g, nodes, order, steps, widths, named, states, buffers, maxFrames, context, k - 1);
      var (s, b) := RunSteps(steps, states, buffers, widths, maxFrames, context, k - 1);
      assert StepRunnable(steps[k - 1], widths);
      RunNext(g, nodes, order, steps, widths, named, context, k - 1, s, b, maxFrames);
    } else {
      RunStart(g, order, steps, named, context, states, buffers);
    }
  }

  /** One block of the plan: every node moves to the state the graph's meaning gives it, and the
      output buffer holds the output node's block, whatever the buffers held before. */
  lemma BlockComputesMeaning(
    g: Graph, nodes: set<NodeId>, order: seq<NodeId>, steps: seq<Step>, widths: seq<nat>, named: States,
    states: seq<NodeState>, buffers: seq<Block>, maxFrames: nat, context: ProcessContext, last: nat, depth: nat)
    requires Compiled(g, nodes, order, steps, widths) && StatesMatch(order, states, named)
    requires Runnable(steps, states, buffers, widths, maxFrames) && context.frameCount <= maxFrames
    requires last < |order| && order[last] == g.output && depth >= |order|
    ensures AllEvaluate(g, nodes, named, context, depth)
    ensures
      var (s, b) := RunSteps(steps, states, buffers, widths, maxFrames, context, |steps|);
      && StatesMatch(order, s, NextStates(g, nodes, named, context, depth))
      && steps[last].output < |b|
      && b[steps[last].output][..context.frameCount] ==
         Evaluate(g, named, context, g.output, depth).value.1
  {
    hide Graph.ConnectionFits, Graph.InputsDistinct, AudioNode.WellBehaved, IsOutputCone;
    hide BufferFits, StepFits, SlotsMatchPeak, WidthsFromFirstUsers, Evaluate;
    RunComputes(g, nodes, order, steps, widths, named, states, buffers, maxFrames, context, |steps|);
    var (s, b) := RunSteps(steps, states, buffers, widths, maxFrames, context, |steps|);
    forall q | 0 <= q < |order|
      ensures Evaluate(g, named, context, order[q], depth) == Evaluate(g, named, context, order[q], q)
      ensures Evaluate(g, named, context, order[q], depth).Some?
      ensures s[q] == Evaluate(g, named, context, order[q], depth).value.0
    {
      assert StepComputed(g, order, named, context, q, s[q]);
      DeeperAgrees(g, named, context, order[q], q, depth);
    }
    forall id | id in nodes ensures Evaluate(g, named, context, id, depth).Some? {
      assert id in Elements(order);
    }
    assert Untouched(steps, last, |steps|) by {
      forall r | last < r < |steps| ensures steps[r].output != steps[last].output {
        assert OutputsOf(steps)[r] != OutputsOf(steps)[last];
      }
    }
    assert BlockHeld(g, order, named, context, last, b[steps[last].output]);
  }

  /** A run of blocks over the same states and buffers, and the blocks left in the output buffer. */
  ghost function RunBlocks(
    steps: seq<Step>, states: seq<NodeState>, buffers: seq<Block>, widths: seq<nat>, maxFrames: nat,
    contexts: seq<ProcessContext>, outputBuffer: nat)
    : (seq<NodeState>, seq<Block>)
    requires Runnable(steps, states, buffers, widths, maxFrames) && outputBuffer < |buffers|
    requires forall i :: 0 <= i < |contexts| ==> contexts[i].frameCount <= maxFrames
    decreases |contexts|
  {
    if contexts == [] then (states, [])
    else
      var (s, b) := RunSteps(steps, states, buffers, widths, maxFrames, contexts[0], |steps|);
      var (finalStates, rest) := RunBlocks(steps, s, b, widths, maxFrames, contexts[1..], outputBuffer);
      (finalStates, [b[outputBuffer][..contexts[0].frameCount]] + rest)
  }

  /** Compiler correctness: over any run of blocks, of any sizes, the plan produces exactly the
      blocks and the node states that recursive evaluation of the graph gives. */
  lemma {:induction false} PlanComputesMeaning(
    g: Graph, nodes: set<NodeId>, order: seq<NodeId>, steps: seq<Step>, widths: seq<nat>, named: States,
    states: seq<NodeState>, buffers: seq<Block>, maxFrames: nat, contexts: seq<ProcessContext>, last: nat, depth: nat)
    requires Compiled(g, nodes, order, steps, widths) && StatesMatch(order, states, named)
    requires Runnable(steps, states, buffers, widths, maxFrames)
    requires forall i :: 0 <= i < |contexts| ==> contexts[i].frameCount <= maxFrames
    requires last < |order| && order[last] == g.output && depth >= |order|
    ensures steps[last].output < |buffers|
    ensures
      var (finalStates, blocks) := RunBlocks(steps, states, buffers, widths, maxFrames, contexts, steps[last].output);
      && Meaning(g, nodes, named, contexts, depth).Some?
      && Meaning(g, nodes, named, contexts, depth).value.1 == blocks
      && StatesMatch(order, finalStates, Meaning(g, nodes, named, contexts, depth).value.0)
    decreases |contexts|
  {
    hide Compiled, Evaluate, StatesMatch, RunSteps;
    SizesAgree(g, nodes, order, steps, widths);
    assert StepRunnable(steps[last], widths);
    if contexts != [] {
      BlockComputesMeaning(g, nodes, order, steps, widths, named, states, buffers, maxFrames, contexts[0], last, depth);
      var (s, b) := RunSteps(steps, states, buffers, widths, maxFrames, contexts[0], |steps|);
      PlanComputesMeaning(g, nodes, order, steps, widths, NextStates(g, nodes, named, contexts[0], depth),
                          s, b, maxFrames, contexts[1..], last, depth);
    }
  }

  // ---- The plan object and its interpreter ------------------------------------------------------

  /** GraphExecutionPlan (src/lavanda/graph/execution_plan.h). The state of each step's node is kept
      beside the step. */
  class GraphExecutionPlan {
    const steps: seq<Step>
    const order: seq<NodeId>
    const widths: seq<nat>
    const outputBuffer: nat
    const outputChannels: nat
    const maxFrames: nat
    const states: array<NodeState>
    const buffers: array<Block>
    ghost const last: nat

    ghost predicate Valid()
      reads states, buffers
    {
      && states.Length == |steps| && Shaped(buffers[..], widths, maxFrames)
      && (forall q :: 0 <= q < |steps| ==> StepIndexed(steps[q], |widths|))
      && last < |steps| && steps[last].output == outputBuffer && Untouched(steps, last, |steps|)
      && steps[last].node.outputChannels == outputChannels
    }

    /** No node is handed a view of another width than it declares. */
    ghost predicate Exact() {
      AllRunnable(steps, widths)
    }

    constructor (steps: seq<Step>, order: seq<NodeId>, widths: seq<nat>, initial: seq<NodeState>,
                 outputBuffer: nat, outputChannels: nat, maxFrames: nat, ghost last: nat)
      requires |initial| == |steps| && forall q :: 0 <= q < |steps| ==> StepIndexed(steps[q], |widths|)
      requires last < |steps| && steps[last].output == outputBuffer && Untouched(steps, last, |steps|)
      requires steps[last].node.outputChannels == outputChannels
      ensures Valid() && fresh(states) && fresh(buffers)
      ensures this.steps == steps && this.order == order && this.widths == widths
      ensures this.outputBuffer == outputBuffer && this.outputChannels == outputChannels
      ensures this.maxFrames == maxFrames && this.last == last
      ensures states[..] == initial && buffers.Length == |widths|
      ensures forall i :: 0 <= i < |widths| ==> buffers[i] == seq(maxFrames, f => seq(widths[i], c => 0.0))
    {
      this.steps, this.order, this.widths, this.last := steps, order, widths, last;
      this.outputBuffer, this.outputChannels, this.maxFrames := outputBuffer, outputChannels, maxFrames;
      states := new NodeState[|initial|](i requires 0 <= i < |initial| => initial[i]);
      buffers := new Block[|widths|](i requires 0 <= i < |widths| => seq(maxFrames, f => seq(widths[i], c => 0.0)));
    }
  }

  /** GraphExecutor::Render. A block larger than the plan was compiled for is left alone; otherwise
      every step runs once, and the output buffer's block is mixed into the caller's view if their
      channel counts agree. */
  method Render(plan: GraphExecutionPlan, output: AudioBufferView, frameCount: nat, sampleRate: real, clockFrame: nat)
    returns (ghost inputs: seq<seq<Block>>, ghost blocks: seq<Block>)
    requires plan.Valid() && output.Valid() && output.frameCount == frameCount
    requires frameCount <= plan.maxFrames ==> plan.Exact()
    modifies plan.states, plan.buffers, output.data
    ensures plan.Valid() && output.Valid()
    ensures frameCount > plan.maxFrames ==>
              && plan.states[..] == old(plan.states[..]) && plan.buffers[..] == old(plan.buffers[..])
              && output.data[..] == old(output.data[..])
    ensures frameCount <= plan.maxFrames ==>
              (plan.states[..], plan.buffers[..]) ==
              RunSteps(plan.steps, old(plan.states[..]), old(plan.buffers[..]), plan.widths, plan.maxFrames,
                       ProcessContext(frameCount, sampleRate, clockFrame), |plan.steps|)
    ensures frameCount <= plan.maxFrames ==>
              && StepsRan(plan.steps, old(plan.states[..]), plan.states[..], inputs, blocks,
                          ProcessContext(frameCount, sampleRate, clockFrame))
              && |blocks| == |plan.steps| && Holds(plan.buffers[..], plan.outputBuffer, frameCount, blocks[plan.last])
    ensures frameCount <= plan.maxFrames && !(plan.outputChannels == output.channels > 0) ==>
              output.data[..] == old(output.data[..])
    ensures frameCount <= plan.maxFrames && plan.outputChannels == output.channels > 0 ==>
              forall f :: 0 <= f < frameCount ==>
                && |plan.buffers[plan.outputBuffer][f]| >= |old(output.data[output.offset + f])|
                && output.data[output.offset + f] ==
                   MixFrame(old(output.data[output.offset + f]), plan.buffers[plan.outputBuffer][f], 1.0)
    ensures forall f :: 0 <= f < output.data.Length && !(output.offset <= f < output.offset + frameCount) ==>
              output.data[f] == old(output.data[f])
  {
    hide RunStep, RunSteps, AudioNode.WellBehaved, RanTo, WiredTo;
    inputs, blocks := [], [];
    if frameCount > plan.maxFrames {
      return;
    }
    inputs, blocks := RunPlan(plan, ProcessContext(frameCount, sampleRate, clockFrame));
    if plan.outputChannels != output.channels {
      return;
    }
    assert StepRunnable(plan.steps[plan.last], plan.widths);
    assert HasWidth(plan.buffers[..][plan.outputBuffer], output.channels);
    var block := plan.buffers[plan.outputBuffer][..frameCount];
    AccumulateInto(output, block, 1.0);
    assert frameCount == 0 ==> block == [];
  }

  /** The loop over the steps. */
  method RunPlan(plan: GraphExecutionPlan, context: ProcessContext)
    returns (ghost inputs: seq<seq<Block>>, ghost blocks: seq<Block>)
    requires plan.Valid() && plan.Exact() && context.frameCount <= plan.maxFrames
    modifies plan.states, plan.buffers
    ensures plan.Valid()
    ensures (plan.states[..], plan.buffers[..]) ==
            RunSteps(plan.steps, old(plan.states[..]), old(plan.buffers[..]), plan.widths, plan.maxFrames, context,
                     |plan.steps|)
    ensures StepsRan(plan.steps, old(plan.states[..]), plan.states[..], inputs, blocks, context)
    ensures |blocks| == |plan.steps| && Holds(plan.buffers[..], plan.outputBuffer, context.frameCount, blocks[plan.last])
  {
    hide RunStep, AudioNode.WellBehaved, RanTo, WiredTo, Holds;
    ghost var states, buffers := plan.states[..], plan.buffers[..];
    for k := 0 to |plan.steps|
      invariant (plan.states[..], plan.buffers[..]) ==
                RunSteps(plan.steps, states, buffers, plan.widths, plan.maxFrames, context, k)
      invariant Runnable(plan.steps, plan.states[..], plan.buffers[..], plan.widths, plan.maxFrames)
    {
      RunPlanStep(plan.steps[k], k, plan.states, plan.buffers, plan.widths, plan.maxFrames, context);
    }
    inputs, blocks := EveryStepRuns(plan.steps, states, buffers, plan.widths, plan.maxFrames, context);
  }

  /** One iteration of the interpreter loop. */
  method RunPlanStep(
    step: Step, k: nat, states: array<NodeState>, buffers: array<Block>, ghost widths: seq<nat>, maxFrames: nat,
    context: ProcessContext)
    requires k < states.Length && StepRunnable(step, widths) && Shaped(buffers[..], widths, maxFrames)
    requires context.frameCount <= maxFrames
    modifies states, buffers
    ensures Shaped(old(buffers[..]), widths, maxFrames) && Shaped(buffers[..], widths, maxFrames)
    ensures
      var (next, after) := RunStep(step, old(states[k]), old(buffers[..]), context);
      && states[..] == old(states[..])[k := next]
      && buffers[..] == after
  {
    var inputs := [];
    ghost var bound := buffers[..];
    StepKeepsShape(step, states[k], bound, widths, maxFrames, context);
    for i := 0 to |step.inputs|
      invariant |inputs| == i && forall j :: 0 <= j < i ==> inputs[j] == bound[step.inputs[j]][..context.frameCount]
      invariant buffers[..] == bound && states[..] == old(states[..])
    {
      inputs := inputs + [buffers[step.inputs[i]][..context.frameCount]];
    }
    assert inputs == StepInputs(step, bound, context.frameCount);
    var (next, block) := step.node.process(states[k], inputs, context);
    assert |block| == context.frameCount;
    states[k] := next;
    buffers[step.output] := block + buffers[step.output][context.frameCount..];
  }
}
