/** RenderSegment as a whole: the tone, the voices through their buses, and the active graph
    (src/lavanda/runtime/audio_runtime.cc:628-755). Within the block limit it splits at any frame,
    and every command that can be scheduled (src/lavanda/runtime/audio_runtime.cc:595-626) keeps it in
    a state it can render, so the callback theorem of Timeline holds of it. */
module Engine {
  import opened Prelude
  import opened Signals
  import opened Blocks
  import opened Handles
  import opened Ramps
  import opened MixerMath
  import opened VoiceSlots
  import opened VoicePools
  import opened VoiceRendering
  import opened VoiceSegments
  import opened VoiceMix
  import opened GraphModel
  import opened GraphMeaning
  import opened BufferAllocation
  import opened BufferAssignment
  import opened GraphExecution
  import opened GraphSplitting
  import opened NodeParameters
  import opened BusSystems
  import opened Scheduling
  import opened Timeline

  // ---- The tone (src/lavanda/runtime/render_state.cc) -------------------------------------------

  datatype Tone = Tone(playing: bool, frequency: real, gain: real, phase: real)

  function ToneFrame(tone: Tone, ac: Acoustics, width: nat): (Tone, Frame) {
    if !tone.playing || ac.rate <= 0.0 || width == 0 then (tone, Silence(width))
    else
      var sample := ac.trig.sin(tone.phase) * tone.gain;
      (tone.(phase := tone.phase + PhaseStep(tone.frequency, ac)), seq(width, _ => sample))
  }

  function ToneFrames(tone: Tone, n: nat, ac: Acoustics, width: nat): (r: (Tone, Block))
    ensures |r.1| == n && HasWidth(r.1, width)
  {
    if n == 0 then (tone, [])
    else
      var (before, block) := ToneFrames(tone, n - 1, ac, width);
      var (after, frame) := ToneFrame(before, ac, width);
      (after, block + [frame])
  }

  lemma {:induction false} ToneSplits(tone: Tone, n: nat, k: nat, ac: Acoustics, width: nat)
    ensures
      var (middle, first) := ToneFrames(tone, n, ac, width);
      var (end, second) := ToneFrames(middle, k, ac, width);
      ToneFrames(tone, n + k, ac, width) == (end, first + second)
    decreases k
  {
    hide ToneFrame;
    var (middle, first) := ToneFrames(tone, n, ac, width);
    if k == 0 {
      assert first + [] == first;
    } else {
      ToneSplits(tone, n, k - 1, ac, width);
      var (before, second) := ToneFrames(middle, k - 1, ac, width);
      var frame := ToneFrame(before, ac, width).1;
      assert first + (second + [frame]) == (first + second) + [frame];
    }
  }

  // ---- The voices over two segments ---------------------------------------------------------------

  /** Voice i sounds the same in two segments at one frame: same place, same sample, and if it is
      rendered in only one of them, that sample is silence. */
  ghost predicate SoundsAlike(
    a: AudioSlot, aSlot: AudioSlot, aFrame: Frame, b: AudioSlot, bSlot: AudioSlot, bFrame: Frame)
  {
    && a.targetBus == b.targetBus && Settings(aSlot) == Settings(bSlot) && aFrame == bFrame
    && ((a.state == Playing) != (b.state == Playing) ==> aFrame == Silence(SourceWidth(aSlot)))
  }

  lemma HeardAlike(d: Frame, a: AudioSlot, b: AudioSlot, s: Frame, frame: nat, trig: Trig)
    requires |d| == 2 && Settings(a) == Settings(b) && |s| == SourceWidth(a)
    ensures |s| == SourceWidth(b) && Heard(d, a, s, frame, trig) == Heard(d, b, s, frame, trig)
  {
    assert a.gain == Settings(a).gain && a.pan == Settings(a).pan && a.asset == Settings(a).asset;
    assert a.left == Settings(a).left && a.right == Settings(a).right && a.spatialized == Settings(a).spatialized;
  }

  lemma SilenceIsNotHeard(d: Frame, slot: AudioSlot, frame: nat, trig: Trig)
    requires |d| == 2
    ensures Heard(d, slot, Silence(SourceWidth(slot)), frame, trig) == d
  {
    hide GainsAt, SpatialGainsAt, EqualPowerPan, StereoBalanceGains;
  }

  lemma {:induction false} BusFramesAgree(
    voices: seq<AudioSlot>, r: Rendered, others: seq<AudioSlot>, q: Rendered, buses: Buses, b: nat,
    start: nat, f: nat, later: nat, g: nat, k: nat, trig: Trig)
    requires r.Covers(|voices|) && q.Covers(|others|) && |voices| == |others| && f < r.frames && g < q.frames
    requires k <= |voices| && start + f == later + g
    requires forall i :: 0 <= i < |voices| ==>
               SoundsAlike(voices[i], r.slots[i], r.blocks[i][f], others[i], q.slots[i], q.blocks[i][g])
    ensures BusFrame(voices, r, buses, b, start, f, k, trig) == BusFrame(others, q, buses, b, later, g, k, trig)
  {
    hide Heard;
    if k > 0 {
      BusFramesAgree(voices, r, others, q, buses, b, start, f, later, g, k - 1, trig);
      var before := BusFrame(voices, r, buses, b, start, f, k - 1, trig);
      assert SoundsAlike(voices[k - 1], r.slots[k - 1], r.blocks[k - 1][f],
                         others[k - 1], q.slots[k - 1], q.blocks[k - 1][g]);
      HeardAlike(before, r.slots[k - 1], q.slots[k - 1], r.blocks[k - 1][f], start + f, trig);
      SilenceIsNotHeard(before, r.slots[k - 1], start + f, trig);
    }
  }

  lemma MixesAgree(
    voices: seq<AudioSlot>, r: Rendered, others: seq<AudioSlot>, q: Rendered, buses: Buses,
    start: nat, f: nat, later: nat, g: nat, trig: Trig)
    requires r.Covers(|voices|) && q.Covers(|others|) && |voices| == |others| && f < r.frames && g < q.frames
    requires start + f == later + g && |buses| > 0
    requires forall i :: 0 <= i < |voices| ==>
               SoundsAlike(voices[i], r.slots[i], r.blocks[i][f], others[i], q.slots[i], q.blocks[i][g])
    ensures MixedFrame(voices, r, buses, start, f, trig) == MixedFrame(others, q, buses, later, g, trig)
  {
    hide SoundsAlike, BusFrame;
    forall b | 0 <= b < |buses|
      ensures BusFrame(voices, r, buses, b, start, f, |voices|, trig) ==
              BusFrame(others, q, buses, b, later, g, |others|, trig)
    {
      BusFramesAgree(voices, r, others, q, buses, b, start, f, later, g, |voices|, trig);
    }
    assert BusFrames(voices, r, buses, start, f, trig) == BusFrames(others, q, buses, later, g, trig);
  }

  /** One voice at a frame of the first part, and of the second. */
  lemma VoiceSoundsAlike(slot: AudioSlot, listener: Place, start: nat, n: nat, k: nat, ac: Acoustics)
    requires SlotFits(slot) && ac.Clamped()
    ensures
      var (end, block) := SegmentVoice(slot, listener, start, n + k, ac);
      var (middle, first) := SegmentVoice(slot, listener, start, n, ac);
      var (last, second) := SegmentVoice(middle, listener, start + n, k, ac);
      && end == last
      && (forall f :: 0 <= f < n ==> SoundsAlike(slot, end, block[f], slot, middle, first[f]))
      && (forall f :: n <= f < n + k ==> SoundsAlike(slot, end, block[f], middle, last, second[f - n]))
  {
    hide SlotFits, SegmentVoice;
    VoiceSplits(slot, listener, start, n, k, ac);
    SegmentSettings(slot, listener, start, n, ac);
    var (middle, first) := SegmentVoice(slot, listener, start, n, ac);
    SegmentSettings(middle, listener, start + n, k, ac);
    SettledSegment(slot, listener, start, n, ac);
    if middle.state != Playing {
      StillBlock(middle, listener, start + n, k, ac);
    }
    StillVoiceStays(slot, listener, start, n, ac);
  }

  /** What a segment does to a voice's settings: at most the spatial update. */
  lemma SegmentSettings(slot: AudioSlot, listener: Place, start: nat, n: nat, ac: Acoustics)
    requires SlotFits(slot) && ac.Clamped()
    ensures
      var after := SegmentVoice(slot, listener, start, n, ac).0;
      && after.targetBus == slot.targetBus
      && Settings(after) ==
         Settings(if slot.state == Playing && IsSpatial(slot) then UpdatedSpatial(slot, listener, ac, start) else slot)
  {
    hide SlotFits, VoiceFrames, UpdatedSpatial;
    if slot.state == Playing {
      UpdateKeepsFit(slot, listener, ac, start);
      var ready := if IsSpatial(slot) then UpdatedSpatial(slot, listener, ac, start) else slot;
      FramesKeepSettings(ready, start, n, ac);
      var after := VoiceFrames(ready, start, n, ac).0;
      assert after.targetBus == Settings(after).targetBus && ready.targetBus == Settings(ready).targetBus;
      UpdateKeepsBus(slot, listener, ac, start);
    }
  }

  lemma UpdateKeepsBus(slot: AudioSlot, listener: Place, ac: Acoustics, now: nat)
    ensures UpdatedSpatial(slot, listener, ac, now).targetBus == slot.targetBus
  {
  }

  /** A second segment leaves the settings the first one left. */
  lemma SettledSegment(slot: AudioSlot, listener: Place, start: nat, n: nat, ac: Acoustics)
    requires SlotFits(slot) && ac.Clamped()
    ensures
      var middle := SegmentVoice(slot, listener, start, n, ac).0;
      forall later: nat {:trigger UpdatedSpatial(middle, listener, ac, later)} ::
        middle.state == Playing && IsSpatial(middle) ==>
          UpdatedSpatial(middle, listener, ac, later) == middle
  {
    hide SlotFits, VoiceFrames, UpdatedSpatial;
    var middle := SegmentVoice(slot, listener, start, n, ac).0;
    SegmentSettings(slot, listener, start, n, ac);
    UpdateKeepsKind(slot, listener, ac, start);
    StillVoiceStays(slot, listener, start, n, ac);
    var ready := if slot.state == Playing && IsSpatial(slot) then UpdatedSpatial(slot, listener, ac, start) else slot;
    SameKind(middle, ready);
    if middle.state == Playing && IsSpatial(middle) {
      forall later: nat ensures UpdatedSpatial(middle, listener, ac, later) == middle {
        UpdateSettles(slot, middle, listener, ac, start, later);
      }
    }
  }

  lemma StillVoiceStays(slot: AudioSlot, listener: Place, start: nat, n: nat, ac: Acoustics)
    requires SlotFits(slot) && ac.Clamped()
    ensures slot.state != Playing ==> SegmentVoice(slot, listener, start, n, ac).0 == slot
  {
  }

  lemma StillBlock(slot: AudioSlot, listener: Place, start: nat, n: nat, ac: Acoustics)
    requires SlotFits(slot) && ac.Clamped() && slot.state != Playing
    ensures SegmentVoice(slot, listener, start, n, ac) == (slot, Zeros(n, SourceWidth(slot)))
  {
  }

  // ---- The engine -------------------------------------------------------------------------------

  /** What stays fixed while rendering: the acoustics, the block limit, the output's width and the
      active graph with its nodes, if any. */
  datatype Rig = Rig(ac: Acoustics, maxFrames: nat, width: nat, graph: Option<Graph>, nodes: set<NodeId>, depth: nat)
  {
    ghost predicate Fits() {
      && ac.Clamped()
      && (graph.Some? ==>
            && graph.value.WellFormed() && graph.value.AllValid(nodes) && graph.value.ClosedUnderSources(nodes)
            && AllSplit(graph.value, nodes) && graph.value.output in nodes)
    }
  }

  datatype EngineState = EngineState(tone: Tone, voices: seq<AudioSlot>, buses: Buses, listener: Place, nodes: States)

  /** The state a rig can render: fitting voices, a master bus, and a graph whose nodes all have a
      value. */
  ghost predicate Renderable(rig: Rig, e: EngineState)
    requires rig.Fits()
  {
    && VoicesFit(e.voices) && |e.buses| > 0
    && (rig.graph.Some? ==>
          && e.nodes.Keys == rig.nodes
          && AllEvaluate(rig.graph.value, rig.nodes, e.nodes, ProcessContext(1, rig.ac.rate, 0), rig.depth))
  }

  /** One block added to another of the same shape. */
  ghost function MixInto(out: Block, added: Block, width: nat): (mixed: Block)
    requires |added| == |out| && HasWidth(out, width) && HasWidth(added, width)
    ensures |mixed| == |out| && HasWidth(mixed, width)
  {
    seq(|out|, f requires 0 <= f < |out| => MixFrame(out[f], added[f], 1.0))
  }

  lemma MixIntoSplits(out: Block, more: Block, added: Block, rest: Block, width: nat)
    requires |added| == |out| && HasWidth(out, width) && HasWidth(added, width)
    requires |rest| == |more| && HasWidth(more, width) && HasWidth(rest, width)
    ensures HasWidth(out + more, width) && HasWidth(added + rest, width)
    ensures MixInto(out + more, added + rest, width) == MixInto(out, added, width) + MixInto(more, rest, width)
  {
  }

  /** The voices' share: nothing unless the output is stereo. */
  ghost function VoiceShare(e: EngineState, start: nat, n: nat, ac: Acoustics): (r: (seq<AudioSlot>, Block))
    requires VoicesFit(e.voices) && |e.buses| > 0 && ac.Clamped()
    ensures VoicesFit(r.0) && |r.1| == n && HasWidth(r.1, 2)
  {
    var r := RenderedVoices(e.voices, e.listener, start, n, ac);
    (r.slots, seq(n, f requires 0 <= f < n => MixedFrame(e.voices, r, e.buses, start, f, ac.trig)))
  }

  ghost function GraphShare(rig: Rig, e: EngineState, start: nat, n: nat): (r: (States, Block))
    requires rig.Fits() && Renderable(rig, e) && rig.graph.Some?
    ensures |r.1| == n && HasWidth(r.1, rig.graph.value.GetNode(rig.graph.value.output).outputChannels)
  {
    var g, c := rig.graph.value, ProcessContext(n, rig.ac.rate, start);
    EveryBlockEvaluates(rig, e, c);
    OutputWidth(rig, e, c);
    (NextStates(g, rig.nodes, e.nodes, c, rig.depth), Evaluate(g, e.nodes, c, g.output, rig.depth).value.1)
  }

  lemma EveryBlockEvaluates(rig: Rig, e: EngineState, c: ProcessContext)
    requires rig.Fits() && Renderable(rig, e) && rig.graph.Some?
    ensures AllEvaluate(rig.graph.value, rig.nodes, e.nodes, c, rig.depth)
  {
    hide Graph.ConnectionFits, Graph.InputsDistinct, AudioNode.WellBehaved, Evaluate;
    forall id | id in rig.nodes ensures Evaluate(rig.graph.value, e.nodes, c, id, rig.depth).Some? {
      ReachIsTheSame(rig.graph.value, e.nodes, ProcessContext(1, rig.ac.rate, 0), e.nodes, c, id, rig.depth);
    }
  }

  lemma OutputWidth(rig: Rig, e: EngineState, c: ProcessContext)
    requires rig.Fits() && rig.graph.Some?
    requires Evaluate(rig.graph.value, e.nodes, c, rig.graph.value.output, rig.depth).Some?
    ensures
      var block := Evaluate(rig.graph.value, e.nodes, c, rig.graph.value.output, rig.depth).value.1;
      |block| == c.frameCount && HasWidth(block, rig.graph.value.GetNode(rig.graph.value.output).outputChannels)
  {
    hide Graph.ConnectionFits, Graph.InputsDistinct, EvaluateInputs;
    var g := rig.graph.value;
    assert g.GetNode(g.output).WellBehaved();
  }

  /** The graph is heard if its output has the width of the segment. */
  ghost predicate GraphHeard(rig: Rig)
    requires rig.Fits() && rig.graph.Some?
  {
    rig.graph.value.GetNode(rig.graph.value.output).outputChannels == rig.width
  }

  /** Tone and voices: the tone overwrites the output; the voices add to it if it is stereo and no
      longer than the accumulators. */
  ghost function SoundedSegment(rig: Rig, e: EngineState, start: nat, n: nat): (r: (EngineState, Block))
    requires rig.Fits() && Renderable(rig, e)
    ensures |r.1| == n && HasWidth(r.1, rig.width)
    ensures Renderable(rig, r.0) && r.0.nodes == e.nodes && r.0.buses == e.buses && r.0.listener == e.listener
  {
    var (tone, sounded) := ToneFrames(e.tone, n, rig.ac, rig.width);
    if rig.width == 2 && n <= rig.maxFrames then
      var (voices, added) := VoiceShare(e, start, n, rig.ac);
      (e.(tone := tone, voices := voices), MixInto(sounded, added, 2))
    else (e.(tone := tone), sounded)
  }

  /** RenderSegment: tone and voices, and the active graph on top of them. */
  ghost function RenderedSegment(rig: Rig, e: EngineState, start: nat, n: nat): (r: (EngineState, Block))
    requires rig.Fits() && Renderable(rig, e)
    ensures |r.1| == n && Renderable(rig, r.0)
  {
    var (after, sounded) := SoundedSegment(rig, e, start, n);
    if rig.graph.None? then (after, sounded) else WithGraph(rig, e, after, sounded, start)
  }

  /** What the active graph adds to a block that is no longer than its plan's. */
  ghost function WithGraph(rig: Rig, e: EngineState, after: EngineState, sounded: Block, start: nat)
    : (r: (EngineState, Block))
    requires rig.Fits() && rig.graph.Some? && Renderable(rig, e) && Renderable(rig, after) && HasWidth(sounded, rig.width)
    ensures |r.1| == |sounded| && Renderable(rig, r.0)
  {
    if |sounded| > rig.maxFrames then (after, sounded)
    else
      var (nodes, added) := GraphShare(rig, e, start, |sounded|);
      NextNodesRender(rig, e, after, start, |sounded|);
      (after.(nodes := nodes), if GraphHeard(rig) then MixInto(sounded, added, rig.width) else sounded)
  }

  /** Every node still has a value after a block. */
  lemma NextNodesRender(rig: Rig, e: EngineState, after: EngineState, start: nat, n: nat)
    requires rig.Fits() && Renderable(rig, e) && Renderable(rig, after) && rig.graph.Some?
    ensures Renderable(rig, after.(nodes := GraphShare(rig, e, start, n).0))
  {
    SameNodesRender(rig, after, GraphShare(rig, e, start, n).0);
  }

  /** Whether a state can be rendered does not depend on what the nodes remember. */
  lemma SameNodesRender(rig: Rig, e: EngineState, nodes: States)
    requires rig.Fits() && Renderable(rig, e) && nodes.Keys == e.nodes.Keys
    ensures Renderable(rig, e.(nodes := nodes))
  {
    hide Graph.ConnectionFits, Graph.InputsDistinct, AudioNode.WellBehaved, Evaluate, Splits, SlotFits;
    if rig.graph.Some? {
      var one := ProcessContext(1, rig.ac.rate, 0);
      forall id | id in rig.nodes ensures Evaluate(rig.graph.value, nodes, one, id, rig.depth).Some? {
        ReachIsTheSame(rig.graph.value, e.nodes, one, nodes, one, id, rig.depth);
      }
    }
  }

  /** A compiled graph of uniform widths can be rendered from any states of its nodes. */
  lemma CompiledGraphRenders(rig: Rig, e: EngineState, order: seq<NodeId>, steps: seq<Step>, widths: seq<nat>)
    requires rig.Fits() && VoicesFit(e.voices) && |e.buses| > 0
    requires rig.graph.Some? && Compiled(rig.graph.value, rig.nodes, order, steps, widths)
    requires UniformWidths(rig.graph.value, rig.nodes) && rig.depth >= |order| && e.nodes.Keys == rig.nodes
    ensures Renderable(rig, e)
  {
    hide SlotFits, Splits, Evaluate, Graph.WellFormed;
    var g, one := rig.graph.value, ProcessContext(1, rig.ac.rate, 0);
    UniformStepsRun(g, rig.nodes, order, steps, widths);
    SizesAgree(g, rig.nodes, order, steps, widths);
    var states := seq(|order|, q requires 0 <= q < |order| => e.nodes[order[q]]);
    var buffers := seq(|widths|, i requires 0 <= i < |widths| => Zeros(1, widths[i]));
    assert Runnable(steps, states, buffers, widths, 1) && StatesMatch(order, states, e.nodes);
    assert g.output in Elements(order);
    var last :| 0 <= last < |order| && order[last] == g.output;
    BlockComputesMeaning(g, rig.nodes, order, steps, widths, e.nodes, states, buffers, 1, one, last, rig.depth);
  }

  // ---- Commands ---------------------------------------------------------------------------------

  datatype ToneOp = StartTone | StopTone | SetToneFrequency(frequency: real) | SetToneGain(gain: real)

  /** What can happen to a voice that exists. Creations cannot be scheduled. */
  type VoiceChange = op: VoiceOp | !op.CreateOn? witness StartPlaying

  datatype EngineCommand =
    | ToneCommand(tone: ToneOp)
    | VoiceCommand(voice: VoiceId, change: VoiceChange)
    | BusCommand(bus: BusId, op: BusOp)
    | ListenerCommand(place: Place)
    | NodeCommand(node: NodeId, parameter: NodeParameter)

  function WithTone(tone: Tone, op: ToneOp): Tone {
    match op
    case StartTone => tone.(playing := true)
    case StopTone => tone.(playing := false)
    case SetToneFrequency(frequency) => tone.(frequency := frequency)
    case SetToneGain(gain) => tone.(gain := gain)
  }

  /** ApplyCommand: voices and buses as their pools apply it, node parameters on the active plan. */
  function ApplyCommand(rig: Rig, e: EngineState, c: EngineCommand, frame: nat): EngineState {
    match c
    case ToneCommand(op) => e.(tone := WithTone(e.tone, op))
    case VoiceCommand(id, op) => e.(voices := PoolCommanded(e.voices, id, op, frame, rig.ac.trig, None))
    case BusCommand(id, op) => e.(buses := BusesCommanded(e.buses, id, op, frame))
    case ListenerCommand(place) => e.(listener := place)
    case NodeCommand(id, parameter) =>
      if rig.graph.Some? && id in e.nodes then e.(nodes := e.nodes[id := WithParameter(e.nodes[id], parameter)]) else e
  }

  lemma CommandsKeepRenderable(rig: Rig, e: EngineState, c: EngineCommand, frame: nat)
    requires rig.Fits() && Renderable(rig, e)
    ensures Renderable(rig, ApplyCommand(rig, e, c, frame))
  {
    hide SlotFits, Commanded, AllEvaluate, Rig.Fits;
    match c
    case VoiceCommand(id, op) =>
      if Targets(e.voices, id) {
        CommandsKeepFit(e.voices[id.index], op, frame, rig.ac.trig);
      }
    case NodeCommand(id, parameter) =>
      if rig.graph.Some? && id in e.nodes {
        SameNodesRender(rig, e, e.nodes[id := WithParameter(e.nodes[id], parameter)]);
      }
    case _ =>
  }

  // ---- The engine splits ------------------------------------------------------------------------

  lemma VoiceShareSplits(e: EngineState, middle: EngineState, start: nat, n: nat, k: nat, ac: Acoustics)
    requires VoicesFit(e.voices) && |e.buses| > 0 && ac.Clamped()
    requires middle.buses == e.buses && middle.listener == e.listener && middle.voices == VoiceShare(e, start, n, ac).0
    ensures
      VoiceShare(e, start, n + k, ac) ==
      (VoiceShare(middle, start + n, k, ac).0, VoiceShare(e, start, n, ac).1 + VoiceShare(middle, start + n, k, ac).1)
  {
    hide SlotFits, SegmentVoice, RenderedVoices, MixedFrame, SoundsAlike;
    var r := RenderedVoices(e.voices, e.listener, start, n + k, ac);
    var first := RenderedVoices(e.voices, e.listener, start, n, ac);
    var second := RenderedVoices(middle.voices, e.listener, start + n, k, ac);
    forall i | 0 <= i < |e.voices|
      ensures r.slots[i] == second.slots[i]
      ensures forall f :: 0 <= f < n ==>
                SoundsAlike(e.voices[i], r.slots[i], r.blocks[i][f], e.voices[i], first.slots[i], first.blocks[i][f])
      ensures forall f :: n <= f < n + k ==>
                SoundsAlike(e.voices[i], r.slots[i], r.blocks[i][f],
                            middle.voices[i], second.slots[i], second.blocks[i][f - n])
    {
      VoiceSoundsAlike(e.voices[i], e.listener, start, n, k, ac);
    }
    assert r.slots == second.slots;
    var whole := VoiceShare(e, start, n + k, ac).1;
    var parts := VoiceShare(e, start, n, ac).1 + VoiceShare(middle, start + n, k, ac).1;
    forall f | 0 <= f < n + k ensures whole[f] == parts[f] {
      if f < n {
        MixesAgree(e.voices, r, e.voices, first, e.buses, start, f, start, f, ac.trig);
      } else {
        MixesAgree(e.voices, r, middle.voices, second, e.buses, start, f, start + n, f - n, ac.trig);
      }
    }
    assert whole == parts;
  }

  lemma GraphShareSplits(rig: Rig, e: EngineState, middle: EngineState, start: nat, n: nat, k: nat)
    requires rig.Fits() && Renderable(rig, e) && rig.graph.Some? && 0 < n && 0 < k
    requires middle.nodes == GraphShare(rig, e, start, n).0 && VoicesFit(middle.voices) && |middle.buses| > 0
    ensures Renderable(rig, middle)
    ensures
      GraphShare(rig, e, start, n + k) ==
      (GraphShare(rig, middle, start + n, k).0, GraphShare(rig, e, start, n).1 + GraphShare(rig, middle, start + n, k).1)
  {
    hide Graph.ConnectionFits, Graph.InputsDistinct, AudioNode.WellBehaved, Evaluate, Splits, SlotFits;
    var g, cut := rig.graph.value, Cut(n, k, rig.ac.rate, start);
    EveryBlockEvaluates(rig, e, cut.First());
    EveryBlockEvaluates(rig, e, cut.Whole());
    var next := NextStates(g, rig.nodes, e.nodes, cut.First(), rig.depth);
    forall id | id in rig.nodes
      ensures Evaluate(g, next, ProcessContext(1, rig.ac.rate, 0), id, rig.depth).Some?
      ensures Composes(Evaluate(g, e.nodes, cut.Whole(), id, rig.depth), Evaluate(g, e.nodes, cut.First(), id, rig.depth),
                       Evaluate(g, next, cut.Second(), id, rig.depth))
    {
      var one := ProcessContext(1, rig.ac.rate, 0);
      ReachIsTheSame(g, e.nodes, one, next, one, id, rig.depth);
      EvaluationSplits(g, rig.nodes, e.nodes, cut, id, rig.depth, rig.depth);
    }
    EveryBlockEvaluates(rig, middle, cut.Second());
    assert NextStates(g, rig.nodes, e.nodes, cut.Whole(), rig.depth) ==
           NextStates(g, rig.nodes, next, cut.Second(), rig.depth);
  }

  lemma SoundedSegmentSplits(rig: Rig, e: EngineState, start: nat, n: nat, k: nat)
    requires rig.Fits() && Renderable(rig, e) && n + k <= rig.maxFrames
    ensures
      var (middle, first) := SoundedSegment(rig, e, start, n);
      var (end, second) := SoundedSegment(rig, middle, start + n, k);
      SoundedSegment(rig, e, start, n + k) == (end, first + second)
  {
    hide Renderable, ToneFrames, VoiceShare, MixInto;
    ToneSplits(e.tone, n, k, rig.ac, rig.width);
    if rig.width == 2 {
      RenderableParts(rig, e);
      var middle := SoundedSegment(rig, e, start, n).0;
      VoiceShareSplits(e, middle, start, n, k, rig.ac);
      MixIntoSplits(ToneFrames(e.tone, n, rig.ac, 2).1, ToneFrames(middle.tone, k, rig.ac, 2).1,
                    VoiceShare(e, start, n, rig.ac).1, VoiceShare(middle, start + n, k, rig.ac).1, 2);
    }
  }

  lemma RenderableParts(rig: Rig, e: EngineState)
    requires rig.Fits() && Renderable(rig, e)
    ensures VoicesFit(e.voices) && |e.buses| > 0
  {
  }

  /** Within the block limit, rendering n frames and then k more is rendering n + k. */
  lemma SegmentSplits(rig: Rig, e: EngineState, start: nat, n: nat, k: nat)
    requires rig.Fits() && Renderable(rig, e) && 0 < n && 0 < k && n + k <= rig.maxFrames
    ensures
      var (middle, first) := RenderedSegment(rig, e, start, n);
      var (end, second) := RenderedSegment(rig, middle, start + n, k);
      RenderedSegment(rig, e, start, n + k) == (end, first + second)
  {
    hide Rig.Fits, SoundedSegment, GraphShare, MixInto;
    SoundedSegmentSplits(rig, e, start, n, k);
    if rig.graph.Some? {
      GraphOnTopSplits(rig, e, start, n, k);
    }
  }

  lemma GraphOnTopSplits(rig: Rig, e: EngineState, start: nat, n: nat, k: nat)
    requires rig.Fits() && Renderable(rig, e) && rig.graph.Some? && 0 < n && 0 < k && n + k <= rig.maxFrames
    ensures
      var (middle, first) := RenderedSegment(rig, e, start, n);
      var (end, second) := RenderedSegment(rig, middle, start + n, k);
      RenderedSegment(rig, e, start, n + k) == (end, first + second)
  {
    hide Rig.Fits, SoundedSegment, GraphShare, MixInto, Renderable;
    SoundedSegmentSplits(rig, e, start, n, k);
    var sounding := SoundedSegment(rig, e, start, n).0;
    var middle := RenderedSegment(rig, e, start, n).0;
    RenderableParts(rig, sounding);
    GraphShareSplits(rig, e, middle, start, n, k);
    NodesDoNotSound(rig, sounding, middle, start + n, k);
    if GraphHeard(rig) {
      MixIntoSplits(SoundedSegment(rig, e, start, n).1, SoundedSegment(rig, middle, start + n, k).1,
                    GraphShare(rig, e, start, n).1, GraphShare(rig, middle, start + n, k).1, rig.width);
    }
  }

  /** Tone and voices do not depend on the graph's states. */
  lemma NodesDoNotSound(rig: Rig, e: EngineState, other: EngineState, start: nat, n: nat)
    requires rig.Fits() && Renderable(rig, e) && Renderable(rig, other) && other == e.(nodes := other.nodes)
    ensures
      var (after, block) := SoundedSegment(rig, e, start, n);
      SoundedSegment(rig, other, start, n) == (after.(nodes := other.nodes), block)
  {
    hide MixInto, MixedFrame;
  }

  // ---- Callbacks --------------------------------------------------------------------------------

  /** The engine as Timeline drives it. Rendering is only ever asked of states it can render. */
  ghost function EngineMachine(rig: Rig): Machine<EngineState, EngineCommand>
    requires rig.Fits()
  {
    Machine((e: EngineState) => Renderable(rig, e),
            (e: EngineState, c: EngineCommand, frame: nat) => ApplyCommand(rig, e, c, frame),
            (e: EngineState, start: nat, n: nat) =>
              if Renderable(rig, e) then RenderedSegment(rig, e, start, n) else (e, []))
  }

  lemma EngineSplits(rig: Rig)
    requires rig.Fits()
    ensures EngineMachine(rig).Splittable(rig.maxFrames)
  {
    hide RenderedSegment, Rig.Fits, Renderable, ApplyCommand;
    var m := EngineMachine(rig);
    forall e: EngineState, c: EngineCommand, frame: nat | m.valid(e) ensures m.valid(m.apply(e, c, frame)) {
      CommandsKeepRenderable(rig, e, c, frame);
    }
    forall e: EngineState, start: nat, n: nat, k: nat | m.valid(e) && 0 < n && 0 < k && n + k <= rig.maxFrames
      ensures m.render(e, start, n + k) == m.RenderTwice(e, start, n, k)
    {
      SegmentSplits(rig, e, start, n, k);
    }
  }

  /** However the same frames are cut into callbacks, the tone, voices, buses and graph produce the
      same samples and end in the same state, whatever commands are scheduled for whenever. */
  lemma EngineIgnoresCallbackSizes(
    rig: Rig, e: EngineState, queue: Queue<EngineCommand>, start: nat, sizes: seq<nat>, others: seq<nat>)
    requires rig.Fits() && Renderable(rig, e) && Total(sizes) == Total(others)
    requires forall i :: 0 <= i < |sizes| ==> sizes[i] <= rig.maxFrames
    requires forall i :: 0 <= i < |others| ==> others[i] <= rig.maxFrames
    ensures
      var m := EngineMachine(rig);
      var run, other := Callbacks(m, e, queue, start, sizes), Callbacks(m, e, queue, start, others);
      && run.2 == other.2
      && Timeline.Settled(m, run, start + Total(sizes)) == Timeline.Settled(m, other, start + Total(sizes))
      && Renderable(rig, run.0)
  {
    hide Rig.Fits, Renderable, Callbacks;
    EngineSplits(rig);
    CallbackSizesDoNotMatter(EngineMachine(rig), rig.maxFrames, e, queue, start, sizes, others);
    CallbacksFollowReference(EngineMachine(rig), rig.maxFrames, e, queue, start, sizes);
  }
}
