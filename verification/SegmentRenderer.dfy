/** RenderSegment in place (src/lavanda/runtime/audio_runtime.cc:628-647): the tone's loop, the mixer
    and the plan interpreter, one after the other over the output view, do what Engine says a
    segment is. */
module SegmentRenderer {
  import opened Prelude
  import opened Signals
  import opened Blocks
  import opened GraphModel
  import opened BufferAllocation
  import opened BufferEconomy
  import opened GraphMeaning
  import opened GraphExecution
  import opened GraphSplitting
  import opened MixerMath
  import opened VoiceSlots
  import opened VoiceRendering
  import opened VoiceMix
  import opened Handles
  import opened VoicePools
  import opened BusSystems
  import opened NodeParameters
  import opened Engine

  /** The states of a plan's nodes, by node. */
  ghost function Named(order: seq<NodeId>, states: seq<NodeState>): (named: States)
    requires Distinct(order) && |states| == |order|
    ensures named.Keys == Elements(order) && StatesMatch(order, states, named)
  {
    map id | id in Elements(order) :: states[PositionOf(order, id)]
  }

  lemma NamedIsOnly(order: seq<NodeId>, states: seq<NodeState>, named: States)
    requires Distinct(order) && StatesMatch(order, states, named) && named.Keys == Elements(order)
    ensures Named(order, states) == named
  {
    forall id | id in named ensures Named(order, states)[id] == named[id] {
      var k := PositionOf(order, id);
      assert order[k] in named && named[order[k]] == states[k];
    }
  }

  lemma NamedUpdated(order: seq<NodeId>, states: seq<NodeState>, k: nat, s: NodeState)
    requires Distinct(order) && |states| == |order| && k < |order|
    ensures order[k] in Named(order, states) && Named(order, states)[order[k]] == states[k]
    ensures Named(order, states[k := s]) == Named(order, states)[order[k] := s]
  {
    assert order[k] in Elements(order);
    NamedIsOnly(order, states[k := s], Named(order, states)[order[k] := s]);
  }

  /** GraphExecutionPlan::FindStepIndexForNode (src/lavanda/graph/execution_plan.cc:23-32). */
  method FindStepIndexForNode(order: seq<NodeId>, id: NodeId) returns (k: nat)
    ensures k <= |order|
    ensures if k < |order| then order[k] == id else id !in order
  {
    for i := 0 to |order|
      invariant id !in order[..i]
    {
      if order[i] == id {
        return i;
      }
    }
    return |order|;
  }

  lemma ChangesKeepFit(voices: seq<AudioSlot>, id: VoiceId, change: VoiceChange, frame: nat, trig: Trig)
    requires VoicesFit(voices)
    ensures VoicesFit(PoolCommanded(voices, id, change, frame, trig, None))
  {
    hide SlotFits, Commanded;
    if Targets(voices, id) {
      CommandsKeepFit(voices[id.index], change, frame, trig);
    }
  }

  /** No command adds or removes a bus slot or ends the master. */
  lemma CommandsKeepMaster(buses: Buses, id: BusId, op: BusOp, frame: nat)
    requires |buses| > 0 && buses[0].Alive()
    ensures
      var after := BusesCommanded(buses, id, op, frame);
      |after| == |buses| && after[0].Alive()
  {
  }

  /** The tone's loop (src/lavanda/runtime/render_state.cc:27-48). */
  method PlayTone(tone: Tone, output: AudioBufferView, ac: Acoustics) returns (after: Tone)
    requires output.offset + output.frameCount <= output.data.Length
    modifies output.data
    ensures (after, output.Content()) == ToneFrames(tone, output.frameCount, ac, output.channels)
    ensures SameElsewhere(output, old(output.data[..]), output.data[..])
  {
    hide ToneFrame;
    var data, offset := output.data, output.offset;
    after := tone;
    assert data[offset..offset + 0] == [];
    for frame := 0 to output.frameCount
      invariant (after, data[offset..offset + frame]) == ToneFrames(tone, frame, ac, output.channels)
      invariant SameElsewhere(output, old(data[..]), data[..])
    {
      var next := ToneFrame(after, ac, output.channels);
      data[offset + frame] := next.1;
      after := next.0;
      assert data[offset..offset + frame + 1] == data[offset..offset + frame] + [next.1];
    }
  }

  /** The graph's share of a segment is what running its plan leaves in the output buffer. */
  lemma GraphShareIsRun(
    rig: Rig, e: EngineState, order: seq<NodeId>, steps: seq<Step>, widths: seq<nat>, states: seq<NodeState>,
    buffers: seq<Block>, last: nat, start: nat, n: nat)
    requires rig.Fits() && Renderable(rig, e) && rig.graph.Some? && n <= rig.maxFrames
    requires Compiled(rig.graph.value, rig.nodes, order, steps, widths) && rig.depth >= |order|
    requires last < |order| && order[last] == rig.graph.value.output
    requires StatesMatch(order, states, e.nodes) && Runnable(steps, states, buffers, widths, rig.maxFrames)
    ensures Distinct(order) && last < |steps| == |order|
    ensures
      var c := ProcessContext(n, rig.ac.rate, start);
      var (s, b) := RunSteps(steps, states, buffers, widths, rig.maxFrames, c, |steps|);
      && steps[last].output < |b| && n <= |b[steps[last].output]|
      && GraphShare(rig, e, start, n) == (Named(order, s), b[steps[last].output][..n])
  {
    hide Evaluate, Splits, Graph.WellFormed, RunSteps, Named, SlotFits, AllRunnable, Graph.ClosedUnderSources;
    var g, c := rig.graph.value, ProcessContext(n, rig.ac.rate, start);
    SizesAgree(g, rig.nodes, order, steps, widths);
    BlockComputesMeaning(g, rig.nodes, order, steps, widths, e.nodes, states, buffers, rig.maxFrames, c, last, rig.depth);
    var s := RunSteps(steps, states, buffers, widths, rig.maxFrames, c, |steps|).0;
    NamedIsOnly(order, s, NextStates(g, rig.nodes, e.nodes, c, rig.depth));
  }

  class Segments {
    var tone: Tone
    var listener: Place
    const mixer: Mixer
    const plan: GraphExecutionPlan?
    /** The graph the active plan was compiled from, and how the engine is set up. */
    ghost const rig: Rig

    ghost predicate Valid()
      reads this, mixer, if plan == null then {} else {plan.states, plan.buffers}
    {
      && rig.Fits() && mixer.Valid() && mixer.ac == rig.ac && mixer.maxFrames == rig.maxFrames
      && (plan == null <==> rig.graph.None?)
      && (plan != null ==> plan.Valid() && PlanFits(plan, rig))
    }

    constructor (tone: Tone, listener: Place, mixer: Mixer, plan: GraphExecutionPlan?, ghost rig: Rig)
      requires rig.Fits() && mixer.Valid() && mixer.ac == rig.ac && mixer.maxFrames == rig.maxFrames
      requires (plan == null <==> rig.graph.None?) && (plan != null ==> plan.Valid() && PlanFits(plan, rig))
      ensures Valid() && this.tone == tone && this.listener == listener && this.rig == rig
      ensures this.mixer == mixer && this.plan == plan
    {
      this.tone, this.listener, this.mixer, this.plan, this.rig := tone, listener, mixer, plan, rig;
    }

    /** The plan is the graph's, and hands its nodes only views of the widths they declare. */
    static ghost predicate PlanFits(plan: GraphExecutionPlan, rig: Rig)
      requires rig.Fits()
    {
      && rig.graph.Some? && plan.Exact() && plan.maxFrames == rig.maxFrames
      && Compiled(rig.graph.value, rig.nodes, plan.order, plan.steps, plan.widths)
      && plan.last < |plan.order| == |plan.steps| && plan.order[plan.last] == rig.graph.value.output
      && plan.steps[plan.last].node == rig.graph.value.GetNode(rig.graph.value.output)
      && rig.depth >= |plan.order|
    }

    ghost function NodeStates(): States
      requires plan != null ==> plan.states.Length == |plan.order| && Distinct(plan.order)
      reads if plan == null then {} else {plan.states}
    {
      if plan == null then map[] else Named(plan.order, plan.states[..])
    }

    ghost function State(): (e: EngineState)
      requires Valid()
      reads this, mixer, if plan == null then {} else {plan.states, plan.buffers}
    {
      EngineState(tone, mixer.voices, mixer.buses, listener, NodeStates())
    }

    /** Nothing that is valid is beyond what the engine can render. */
    lemma StateIsRenderable()
      requires Valid()
      ensures Renderable(rig, State())
    {
      hide SlotFits, Splits, Evaluate, Graph.WellFormed;
      if plan != null {
        var g, one := rig.graph.value, ProcessContext(1, rig.ac.rate, 0);
        SizesAgree(g, rig.nodes, plan.order, plan.steps, plan.widths);
        var buffers := seq(|plan.widths|, i requires 0 <= i < |plan.widths| => Zeros(1, plan.widths[i]));
        assert Runnable(plan.steps, plan.states[..], buffers, plan.widths, 1);
        BlockComputesMeaning(g, rig.nodes, plan.order, plan.steps, plan.widths, NodeStates(), plan.states[..], buffers,
                             1, one, plan.last, rig.depth);
      }
    }

    /** ApplyCommand (src/lavanda/runtime/audio_runtime.cc:595-626): each part heeds what concerns it. */
    method ApplyCommand(c: EngineCommand, frame: nat)
      requires Valid()
      modifies this`tone, this`listener, mixer`voices, mixer`buses
      modifies if plan == null then {} else {plan.states}
      ensures Valid()
      ensures State() == Engine.ApplyCommand(rig, old(State()), c, frame)
    {
      hide VoicesFit, SlotFits, Commanded, BusesCommanded, Compiled, StepIndexed, Shaped, AllRunnable, Rig.Fits, Named;
      match c
      case ToneCommand(op) =>
        tone := WithTone(tone, op);
      case VoiceCommand(id, change) =>
        ChangesKeepFit(mixer.voices, id, change, frame, mixer.ac.trig);
        mixer.voices := PoolCommanded(mixer.voices, id, change, frame, mixer.ac.trig, None);
      case BusCommand(id, op) =>
        CommandsKeepMaster(mixer.buses, id, op, frame);
        mixer.buses := BusesCommanded(mixer.buses, id, op, frame);
      case ListenerCommand(place) =>
        listener := place;
      case NodeCommand(id, parameter) =>
        if plan != null {
          SetNodeParameter(id, parameter);
        }
    }

    /** A parameter for the plan's step of a node, if it has one. */
    method SetNodeParameter(id: NodeId, parameter: NodeParameter)
      requires plan != null && Valid()
      modifies plan.states
      ensures Valid()
      ensures
        var nodes := old(NodeStates());
        NodeStates() == if id in nodes then nodes[id := WithParameter(nodes[id], parameter)] else nodes
    {
      hide VoicesFit, StepIndexed, Shaped, AllRunnable, Rig.Fits, Named;
      var k := FindStepIndexForNode(plan.order, id);
      ghost var states := plan.states[..];
      if k < |plan.order| {
        NamedUpdated(plan.order, states, k, WithParameter(states[k], parameter));
        plan.states[k] := WithParameter(plan.states[k], parameter);
        assert plan.states[..] == states[k := WithParameter(states[k], parameter)];
      }
    }

    /** Tone, then voices and buses, then the active plan on top. */
    method RenderSegment(output: AudioBufferView, start: nat)
      requires Valid() && output.Valid() && output.channels == rig.width && output.data !in mixer.Buffers()
      modifies this`tone, mixer`voices, mixer.Buffers(), output.data
      modifies if plan == null then {} else {plan.states, plan.buffers}
      ensures Valid() && output.Valid() && SameElsewhere(output, old(output.data[..]), output.data[..])
      ensures Renderable(rig, old(State()))
      ensures (State(), output.Content()) == RenderedSegment(rig, old(State()), start, output.frameCount)
    {
      StateIsRenderable();
      ghost var e := State();
      RenderSounds(output, start);
      if plan != null {
        RenderPlan(output, start, e);
      }
    }

    /** The voices mix into what the tone left. */
    method RenderSounds(output: AudioBufferView, start: nat)
      requires Valid() && output.Valid() && output.channels == rig.width && output.data !in mixer.Buffers()
      requires Renderable(rig, State())
      modifies this`tone, mixer`voices, mixer.Buffers(), output.data
      ensures Valid() && output.Valid() && SameElsewhere(output, old(output.data[..]), output.data[..])
      ensures (State(), output.Content()) == SoundedSegment(rig, old(State()), start, output.frameCount)
    {
      hide SlotFits, MixedFrame, RenderedVoices, ToneFrames, Compiled, StepIndexed, Shaped, AllRunnable, Rig.Fits;
      hide MixChannels, Renderable, Named;
      ghost var e, n := State(), output.frameCount;
      tone := PlayTone(tone, output, mixer.ac);
      ghost var sounded := output.Content();
      assert HasWidth(sounded, rig.width);
      assert output.Valid() by {
        forall f | output.offset <= f < output.offset + n ensures |output.data[f]| == output.channels {
          assert output.data[f] == sounded[f - output.offset];
        }
      }
      mixer.RenderVoicesAndBuses(output, listener, start);
      if output.channels == 2 && n <= mixer.maxFrames {
        ghost var added := VoiceShare(e, start, n, rig.ac).1;
        assert output.Content() == MixInto(sounded, added, 2);
      }
    }

    /** The interpreter runs the plan once, and its output buffer mixes in if the widths agree. */
    method RenderPlan(output: AudioBufferView, start: nat, ghost e: EngineState)
      requires plan != null && Valid() && output.Valid() && output.channels == rig.width
      requires Renderable(rig, e) && Renderable(rig, State()) && e.nodes == NodeStates()
      requires HasWidth(output.Content(), rig.width)
      requires output.data !in mixer.Buffers()
      modifies output.data, plan.states, plan.buffers
      ensures Valid() && output.Valid() && SameElsewhere(output, old(output.data[..]), output.data[..])
      ensures (State(), output.Content()) == WithGraph(rig, e, old(State()), old(output.Content()), start)
    {
      hide SlotFits, Compiled, RunSteps, GraphShare, MixChannels, StepIndexed, Named, Rig.Fits, Renderable;
      ghost var n, sounded := output.frameCount, output.Content();
      ghost var states, buffers := plan.states[..], plan.buffers[..];
      ghost var _, _ := GraphExecution.Render(plan, output, output.frameCount, mixer.ac.rate, start);
      if output.frameCount <= plan.maxFrames {
        GraphShareIsRun(rig, e, plan.order, plan.steps, plan.widths, states, buffers, plan.last, start, n);
        ghost var added := GraphShare(rig, e, start, n).1;
        if GraphHeard(rig) && output.channels > 0 {
          forall f | 0 <= f < n ensures output.Content()[f] == MixFrame(sounded[f], added[f], 1.0) {
            assert output.Content()[f] == output.data[output.offset + f];
          }
        }
        assert GraphHeard(rig) ==> output.Content() == MixInto(sounded, added, rig.width);
        assert !GraphHeard(rig) ==> output.Content() == sounded;
      }
    }
  }
}
