/** Rendering a graph in two goes is rendering it in one, if that holds of each of its nodes
    (src/lavanda/graph/graph_executor.cc:14-29). */
module GraphSplitting {
  import opened Prelude
  import opened Signals
  import opened GraphModel
  import opened GraphMeaning
  import opened BufferAllocation
  import opened BufferAssignment
  import opened GraphExecution

  // ---- Nodes --------------------------------------------------------------------------------------

  ghost predicate AllOfLength(inputs: seq<Block>, n: nat) {
    forall i :: 0 <= i < |inputs| ==> |inputs[i]| == n
  }

  function FirstFrames(inputs: seq<Block>, n: nat): seq<Block>
    requires forall i :: 0 <= i < |inputs| ==> n <= |inputs[i]|
  {
    seq(|inputs|, i requires 0 <= i < |inputs| => inputs[i][..n])
  }

  function LaterFrames(inputs: seq<Block>, n: nat): seq<Block>
    requires forall i :: 0 <= i < |inputs| ==> n <= |inputs[i]|
  {
    seq(|inputs|, i requires 0 <= i < |inputs| => inputs[i][n..])
  }

  ghost function InTwoGoes(node: AudioNode, s: NodeState, inputs: seq<Block>, n: nat, k: nat, rate: real, clock: nat)
    : (NodeState, Block)
    requires AllOfLength(inputs, n + k)
  {
    var (middle, first) := node.process(s, FirstFrames(inputs, n), ProcessContext(n, rate, clock));
    var (end, second) := node.process(middle, LaterFrames(inputs, n), ProcessContext(k, rate, clock + n));
    (end, first + second)
  }

  /** Processing n frames and then k more is processing n + k. */
  ghost predicate Splits(node: AudioNode) {
    forall s: NodeState, inputs: seq<Block>, n: nat, k: nat, rate: real, clock: nat
      {:trigger InTwoGoes(node, s, inputs, n, k, rate, clock)} ::
      0 < n && 0 < k && AllOfLength(inputs, n + k) ==>
        node.process(s, inputs, ProcessContext(n + k, rate, clock)) == InTwoGoes(node, s, inputs, n, k, rate, clock)
  }

  ghost predicate AllSplit(g: Graph, nodes: set<NodeId>)
    requires g.WellFormed() && g.AllValid(nodes)
  {
    forall id :: id in nodes ==> g.GetNode(id).WellBehaved() && Splits(g.GetNode(id))
  }

  // ---- Evaluation ---------------------------------------------------------------------------------

  /** Whether a node has a value does not depend on the block. */
  lemma {:induction false} ReachIsTheSame(
    g: Graph, states: States, c: ProcessContext, others: States, d: ProcessContext, id: NodeId, depth: nat)
    requires g.WellFormed() && g.IsValidNode(id) && states.Keys <= others.Keys
    requires Evaluate(g, states, c, id, depth).Some?
    ensures Evaluate(g, others, d, id, depth).Some?
    decreases depth, 1, 0
  {
    InputReachIsTheSame(g, states, c, others, d, id, g.GetNode(id).expectedInputs, depth);
  }

  lemma {:induction false} InputReachIsTheSame(
    g: Graph, states: States, c: ProcessContext, others: States, d: ProcessContext, id: NodeId, n: nat, depth: nat)
    requires g.WellFormed() && g.IsValidNode(id) && states.Keys <= others.Keys
    requires EvaluateInputs(g, states, c, id, n, depth).Some?
    ensures EvaluateInputs(g, others, d, id, n, depth).Some?
    decreases depth, 0, n
  {
    hide Graph.WellFormed, Graph.SlotsHoldNodes, DriverOf;
    if n > 0 {
      InputReachIsTheSame(g, states, c, others, d, id, n - 1, depth);
      DriverIsValid(g, id, n - 1);
      ReachIsTheSame(g, states, c, others, d, DriverOf(g.connections, id, n - 1).value, depth - 1);
    }
  }

  /** A block of n + k frames, and the two it may be cut into. */
  datatype Cut = Cut(n: nat, k: nat, rate: real, clock: nat)
  {
    function Whole(): ProcessContext {
      ProcessContext(n + k, rate, clock)
    }

    function First(): ProcessContext {
      ProcessContext(n, rate, clock)
    }

    function Second(): ProcessContext {
      ProcessContext(k, rate, clock + n)
    }
  }

  lemma OneNodeSplits(node: AudioNode, s: NodeState, inputs: seq<Block>, cut: Cut)
    requires Splits(node) && 0 < cut.n && 0 < cut.k && AllOfLength(inputs, cut.n + cut.k)
    ensures node.process(s, inputs, cut.Whole()) == InTwoGoes(node, s, inputs, cut.n, cut.k, cut.rate, cut.clock)
  {
  }

  ghost predicate CanSplit(g: Graph, nodes: set<NodeId>, states: States, cut: Cut, depth: nat) {
    && g.WellFormed() && g.AllValid(nodes) && g.ClosedUnderSources(nodes) && AllSplit(g, nodes)
    && 0 < cut.n && 0 < cut.k
    && AllEvaluate(g, nodes, states, cut.First(), depth)
  }

  ghost predicate Composes(
    whole: Option<(NodeState, Block)>, first: Option<(NodeState, Block)>, second: Option<(NodeState, Block)>)
  {
    && whole.Some? && first.Some? && second.Some?
    && whole.value == (second.value.0, first.value.1 + second.value.1)
  }

  ghost predicate InputsCompose(
    whole: Option<seq<Block>>, first: Option<seq<Block>>, second: Option<seq<Block>>, n: nat, k: nat)
  {
    && whole.Some? && first.Some? && second.Some?
    && |whole.value| == |first.value| == |second.value|
    && AllOfLength(first.value, n) && AllOfLength(second.value, k)
    && forall i :: 0 <= i < |whole.value| ==> whole.value[i] == first.value[i] + second.value[i]
  }

  lemma {:induction false} EvaluationSplits(
    g: Graph, nodes: set<NodeId>, states: States, cut: Cut, id: NodeId, depth: nat, limit: nat)
    requires CanSplit(g, nodes, states, cut, limit) && id in nodes && depth <= limit
    requires Evaluate(g, states, cut.Whole(), id, depth).Some?
    ensures
      var next := NextStates(g, nodes, states, cut.First(), limit);
      Composes(Evaluate(g, states, cut.Whole(), id, depth), Evaluate(g, states, cut.First(), id, depth),
               Evaluate(g, next, cut.Second(), id, depth))
    decreases depth, 1, 0
  {
    hide Graph.ConnectionFits, Graph.InputsDistinct, DriverOf, EvaluateInputs, AudioNode.WellBehaved, Splits;
    var node := g.GetNode(id);
    var next := NextStates(g, nodes, states, cut.First(), limit);
    var n := node.expectedInputs;
    InputsSplit(g, nodes, states, cut, id, n, depth, limit);
    var whole := EvaluateInputs(g, states, cut.Whole(), id, n, depth).value;
    var first := EvaluateInputs(g, states, cut.First(), id, n, depth).value;
    var second := EvaluateInputs(g, next, cut.Second(), id, n, depth).value;
    assert FirstFrames(whole, cut.n) == first && LaterFrames(whole, cut.n) == second;
    DeeperAgrees(g, states, cut.First(), id, depth, limit);
    assert next[id] == node.process(states[id], first, cut.First()).0;
    OneNodeSplits(node, states[id], whole, cut);
  }

  lemma {:induction false} InputsSplit(
    g: Graph, nodes: set<NodeId>, states: States, cut: Cut, id: NodeId, n: nat, depth: nat, limit: nat)
    requires CanSplit(g, nodes, states, cut, limit) && id in nodes && depth <= limit
    requires EvaluateInputs(g, states, cut.Whole(), id, n, depth).Some?
    ensures
      var next := NextStates(g, nodes, states, cut.First(), limit);
      InputsCompose(EvaluateInputs(g, states, cut.Whole(), id, n, depth),
                    EvaluateInputs(g, states, cut.First(), id, n, depth),
                    EvaluateInputs(g, next, cut.Second(), id, n, depth), cut.n, cut.k)
    decreases depth, 0, n
  {
    hide Graph.WellFormed, Graph.SlotsHoldNodes, DriverOf, Evaluate;
    if n > 0 {
      InputsSplit(g, nodes, states, cut, id, n - 1, depth, limit);
      DriverIsValid(g, id, n - 1);
      var source := DriverOf(g.connections, id, n - 1).value;
      assert source in nodes;
      EvaluationSplits(g, nodes, states, cut, source, depth - 1, limit);
      BlockLength(g, nodes, states, cut.First(), source, depth - 1);
      BlockLength(g, nodes, NextStates(g, nodes, states, cut.First(), limit), cut.Second(), source, depth - 1);
    }
  }

  lemma BlockLength(g: Graph, nodes: set<NodeId>, states: States, c: ProcessContext, id: NodeId, depth: nat)
    requires g.WellFormed() && g.AllValid(nodes) && AllSplit(g, nodes) && id in nodes
    requires Evaluate(g, states, c, id, depth).Some?
    ensures |Evaluate(g, states, c, id, depth).value.1| == c.frameCount
  {
    hide Graph.ConnectionFits, Graph.InputsDistinct, EvaluateInputs;
    assert g.GetNode(id).WellBehaved();
  }

  /** One block of the graph's meaning is the two blocks it may be cut into, and leaves the same
      states. */
  lemma GraphSplits(g: Graph, nodes: set<NodeId>, states: States, cut: Cut, depth: nat)
    requires g.WellFormed() && g.AllValid(nodes) && g.ClosedUnderSources(nodes) && AllSplit(g, nodes) && g.output in nodes
    requires 0 < cut.n && 0 < cut.k
    requires AllEvaluate(g, nodes, states, cut.Whole(), depth)
    ensures
      var whole := Meaning(g, nodes, states, [cut.Whole()], depth);
      var parts := Meaning(g, nodes, states, [cut.First(), cut.Second()], depth);
      && whole.Some? && parts.Some? && |whole.value.1| == 1 && |parts.value.1| == 2
      && whole.value.0 == parts.value.0
      && whole.value.1[0] == parts.value.1[0] + parts.value.1[1]
  {
    hide Graph.WellFormed, Evaluate;
    forall id | id in nodes ensures Evaluate(g, states, cut.First(), id, depth).Some? {
      ReachIsTheSame(g, states, cut.Whole(), states, cut.First(), id, depth);
    }
    var next := NextStates(g, nodes, states, cut.First(), depth);
    forall id | id in nodes
      ensures Composes(Evaluate(g, states, cut.Whole(), id, depth), Evaluate(g, states, cut.First(), id, depth),
                       Evaluate(g, next, cut.Second(), id, depth))
    {
      EvaluationSplits(g, nodes, states, cut, id, depth, depth);
    }
    assert NextStates(g, nodes, states, cut.Whole(), depth) == NextStates(g, nodes, next, cut.Second(), depth);
    OneBlock(g, nodes, states, cut.Whole(), depth);
    OneBlock(g, nodes, next, cut.Second(), depth);
    assert [cut.First(), cut.Second()][1..] == [cut.Second()];
  }

  lemma OneBlock(g: Graph, nodes: set<NodeId>, states: States, c: ProcessContext, depth: nat)
    requires g.WellFormed() && g.AllValid(nodes) && g.output in nodes && AllEvaluate(g, nodes, states, c, depth)
    ensures Meaning(g, nodes, states, [c], depth) ==
            Some((NextStates(g, nodes, states, c, depth), [Evaluate(g, states, c, g.output, depth).value.1]))
  {
    hide Graph.ConnectionFits, Graph.InputsDistinct, Evaluate, AudioNode.WellBehaved;
    assert [c][1..] == [];
    var next := NextStates(g, nodes, states, c, depth);
    assert Meaning(g, nodes, next, [], depth) == Some((next, []));
    var block := Evaluate(g, states, c, g.output, depth).value.1;
    assert [block] + [] == [block];
  }

  /** The same for a compiled plan over its reused buffers: cutting a block in two changes neither
      the samples in its output buffer nor the states of its nodes. */
  lemma PlanSplits(
    g: Graph, nodes: set<NodeId>, order: seq<NodeId>, steps: seq<Step>, widths: seq<nat>, named: States,
    states: seq<NodeState>, buffers: seq<Block>, maxFrames: nat, cut: Cut, last: nat)
    requires Compiled(g, nodes, order, steps, widths) && StatesMatch(order, states, named)
    requires g.WellFormed() && g.AllValid(nodes) && g.ClosedUnderSources(nodes) && AllSplit(g, nodes)
    requires Runnable(steps, states, buffers, widths, maxFrames)
    requires 0 < cut.n && 0 < cut.k && cut.n + cut.k <= maxFrames
    requires last < |order| && order[last] == g.output && last < |steps|
    ensures steps[last].output < |buffers|
    ensures
      var (wholeStates, whole) := RunBlocks(steps, states, buffers, widths, maxFrames, [cut.Whole()], steps[last].output);
      var (partStates, parts) :=
        RunBlocks(steps, states, buffers, widths, maxFrames, [cut.First(), cut.Second()], steps[last].output);
      && wholeStates == partStates && |whole| == 1 && |parts| == 2 && whole[0] == parts[0] + parts[1]
  {
    hide Compiled, StatesMatch, Runnable, Evaluate, Graph.ConnectionFits, Graph.InputsDistinct, AudioNode.WellBehaved;
    hide Splits, RunBlocks, Meaning;
    var depth := |order|;
    SizesAgree(g, nodes, order, steps, widths);
    PlanComputesMeaning(g, nodes, order, steps, widths, named, states, buffers, maxFrames, [cut.Whole()], last, depth);
    PlanComputesMeaning(g, nodes, order, steps, widths, named, states, buffers, maxFrames,
                        [cut.First(), cut.Second()], last, depth);
    BlockComputesMeaning(g, nodes, order, steps, widths, named, states, buffers, maxFrames, cut.Whole(), last, depth);
    GraphSplits(g, nodes, named, cut, depth);
    var wholeStates := RunBlocks(steps, states, buffers, widths, maxFrames, [cut.Whole()], steps[last].output).0;
    var cuts := [cut.First(), cut.Second()];
    var partStates := RunBlocks(steps, states, buffers, widths, maxFrames, cuts, steps[last].output).0;
    MatchIsExact(order, wholeStates, partStates, Meaning(g, nodes, named, [cut.Whole()], depth).value.0);
  }

  lemma MatchIsExact(order: seq<NodeId>, a: seq<NodeState>, b: seq<NodeState>, named: States)
    requires StatesMatch(order, a, named) && StatesMatch(order, b, named)
    ensures a == b
  {
  }
}
