/** What a graph means, read off the graph itself: to evaluate a node, evaluate the nodes that
    drive its inputs, then apply the node's Process to their blocks. */
module GraphMeaning {
  import opened Prelude
  import opened Signals
  import opened GraphModel

  type States = map<NodeId, NodeState>

  /** The node connected to the given input. */
  ghost function DriverOf(cs: seq<Connection>, id: NodeId, input: nat): (source: Option<NodeId>)
    ensures source.Some? ==>
              exists i :: 0 <= i < |cs| && cs[i].source == source.value && cs[i].destination == id && cs[i].input == input
    ensures source.None? ==> forall i :: 0 <= i < |cs| ==> cs[i].destination != id || cs[i].input != input
  {
    if cs == [] then None
    else if cs[|cs| - 1].destination == id && cs[|cs| - 1].input == input then Some(cs[|cs| - 1].source)
    else DriverOf(cs[..|cs| - 1], id, input)
  }

  /** The node's next state and its output block, following chains of at most depth connections.
      None means that depth was not enough, or that an input is not connected. */
  ghost function Evaluate(g: Graph, states: States, context: ProcessContext, id: NodeId, depth: nat)
    : Option<(NodeState, Block)>
    requires g.WellFormed() && g.IsValidNode(id)
    decreases depth, 1, 0
  {
    match EvaluateInputs(g, states, context, id, g.GetNode(id).expectedInputs, depth)
    case None => None
    case Some(inputs) =>
      if id in states then Some(g.GetNode(id).process(states[id], inputs, context)) else None
  }

  ghost function EvaluateInputs(g: Graph, states: States, context: ProcessContext, id: NodeId, n: nat, depth: nat)
    : Option<seq<Block>>
    requires g.WellFormed() && g.IsValidNode(id)
    decreases depth, 0, n
  {
    if n == 0 then Some([])
    else
      match EvaluateInputs(g, states, context, id, n - 1, depth)
      case None => None
      case Some(rest) =>
        match DriverOf(g.connections, id, n - 1)
        case None => None
        case Some(source) =>
          DriverIsValid(g, id, n - 1);
          if depth == 0 then None
          else
            match Evaluate(g, states, context, source, depth - 1)
            case None => None
            case Some(result) => Some(rest + [result.1])
  }

  lemma DriverIsValid(g: Graph, id: NodeId, input: nat)
    requires g.WellFormed() && DriverOf(g.connections, id, input).Some?
    ensures g.IsValidNode(DriverOf(g.connections, id, input).value)
    ensures g.Feeds(DriverOf(g.connections, id, input).value, id)
  {
    var source := DriverOf(g.connections, id, input).value;
    var i :| 0 <= i < |g.connections| && g.connections[i].source == source &&
             g.connections[i].destination == id && g.connections[i].input == input;
    assert g.ConnectionFits(g.connections[i]);
  }

  /** Following longer chains never changes an answer. */
  lemma {:induction false} DeeperAgrees(
    g: Graph, states: States, context: ProcessContext, id: NodeId, depth: nat, more: nat)
    requires g.WellFormed() && g.IsValidNode(id)
    requires depth <= more && Evaluate(g, states, context, id, depth).Some?
    ensures Evaluate(g, states, context, id, more) == Evaluate(g, states, context, id, depth)
    decreases depth, 1, 0
  {
    DeeperInputsAgree(g, states, context, id, g.GetNode(id).expectedInputs, depth, more);
  }

  lemma {:induction false} DeeperInputsAgree(
    g: Graph, states: States, context: ProcessContext, id: NodeId, n: nat, depth: nat, more: nat)
    requires g.WellFormed() && g.IsValidNode(id)
    requires depth <= more && EvaluateInputs(g, states, context, id, n, depth).Some?
    ensures EvaluateInputs(g, states, context, id, n, more) == EvaluateInputs(g, states, context, id, n, depth)
    decreases depth, 0, n
  {
    hide Graph.WellFormed, Graph.SlotsHoldNodes, DriverOf;
    if n > 0 {
      DeeperInputsAgree(g, states, context, id, n - 1, depth, more);
      DriverIsValid(g, id, n - 1);
      DeeperAgrees(g, states, context, DriverOf(g.connections, id, n - 1).value, depth - 1, more - 1);
    }
  }

  /** A value is its node's Process on its own state, its drivers' blocks and exactly the context: each
      input has a connection, and what comes in is the value of the node at its other end. */
  lemma ValueIsProcessed(g: Graph, states: States, context: ProcessContext, id: NodeId, depth: nat)
    returns (inputs: seq<Block>)
    requires g.WellFormed() && g.IsValidNode(id) && Evaluate(g, states, context, id, depth).Some?
    ensures id in states && |inputs| == g.GetNode(id).expectedInputs
    ensures Evaluate(g, states, context, id, depth).value ==
            g.GetNode(id).process(states[id], inputs,
                                  ProcessContext(context.frameCount, context.sampleRate, context.clockFrame))
    ensures forall n :: 0 <= n < |inputs| ==> depth > 0 && CarriesInput(g, states, context, id, depth - 1, n, inputs[n])
  {
    hide CarriesInput, Graph.ConnectionFits, Graph.InputsDistinct;
    inputs := EvaluateInputs(g, states, context, id, g.GetNode(id).expectedInputs, depth).value;
    InputsAreCarried(g, states, context, id, g.GetNode(id).expectedInputs, depth);
  }

  /** Some connection leads into the input, and the block is the value of its source. */
  ghost predicate CarriesInput(
    g: Graph, states: States, context: ProcessContext, id: NodeId, depth: nat, n: nat, block: Block)
    requires g.WellFormed()
  {
    exists i {:trigger g.connections[i]} ::
      && 0 <= i < |g.connections| && g.connections[i].destination == id && g.connections[i].input == n
      && g.IsValidNode(g.connections[i].source)
      && Evaluate(g, states, context, g.connections[i].source, depth).Some?
      && block == Evaluate(g, states, context, g.connections[i].source, depth).value.1
  }

  lemma {:induction false} InputsAreCarried(
    g: Graph, states: States, context: ProcessContext, id: NodeId, n: nat, depth: nat)
    requires g.WellFormed() && g.IsValidNode(id) && EvaluateInputs(g, states, context, id, n, depth).Some?
    ensures
      var inputs := EvaluateInputs(g, states, context, id, n, depth).value;
      && |inputs| == n
      && forall k :: 0 <= k < n ==> depth > 0 && CarriesInput(g, states, context, id, depth - 1, k, inputs[k])
    decreases n
  {
    hide Graph.WellFormed, Evaluate;
    if n > 0 {
      InputsAreCarried(g, states, context, id, n - 1, depth);
      DriverIsValid(g, id, n - 1);
    }
  }

  /** Every node of the set has a value. */
  ghost predicate AllEvaluate(g: Graph, nodes: set<NodeId>, states: States, context: ProcessContext, depth: nat)
    requires g.WellFormed() && g.AllValid(nodes)
  {
    forall id :: id in nodes ==> Evaluate(g, states, context, id, depth).Some?
  }

  ghost function NextStates(g: Graph, nodes: set<NodeId>, states: States, context: ProcessContext, depth: nat): States
    requires g.WellFormed() && g.AllValid(nodes) && AllEvaluate(g, nodes, states, context, depth)
  {
    map id | id in nodes :: Evaluate(g, states, context, id, depth).value.0
  }

  /** The output node's blocks and the nodes' states over a run of blocks. */
  ghost function Meaning(g: Graph, nodes: set<NodeId>, states: States, contexts: seq<ProcessContext>, depth: nat)
    : Option<(States, seq<Block>)>
    requires g.WellFormed() && g.AllValid(nodes) && g.output in nodes
  {
    if contexts == [] then Some((states, []))
    else if !AllEvaluate(g, nodes, states, contexts[0], depth) then None
    else
      var block := Evaluate(g, states, contexts[0], g.output, depth).value.1;
      match Meaning(g, nodes, NextStates(g, nodes, states, contexts[0], depth), contexts[1..], depth)
      case None => None
      case Some(rest) => Some((rest.0, [block] + rest.1))
  }
}
