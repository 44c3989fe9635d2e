/** A segment sample by sample (src/lavanda/runtime/render_state.cc:27-48,
    src/lavanda/runtime/audio_runtime.cc:628-755): the tone's sine, what every playing voice adds, and
    the graph's output, added up. */
module SegmentLaws {
  import opened Prelude
  import opened Signals
  import opened Blocks
  import opened Ramps
  import opened MixerMath
  import opened GraphModel
  import opened GraphMeaning
  import opened GraphSplitting
  import opened VoiceSlots
  import opened VoiceRendering
  import opened VoiceSegments
  import opened VoiceMix
  import opened VoiceLaws
  import opened NodeLaws
  import opened MixLaws
  import opened Engine

  /** Frame f of a playing tone is its sine f steps of 2 pi frequency / rate on, at its gain, on every
      channel; the phase moves on by the whole segment. */
  lemma {:induction false} TonePlays(tone: Tone, n: nat, ac: Acoustics, width: nat, step: real)
    requires tone.playing && ac.rate > 0.0 && width > 0 && step == 2.0 * ac.trig.pi * tone.frequency / ac.rate
    ensures
      var (after, block) := ToneFrames(tone, n, ac, width);
      && after == tone.(phase := tone.phase + Steps(n, step))
      && forall f :: 0 <= f < n ==>
           block[f] == OnEvery(width, Sine(ac.trig, tone.phase + Steps(f, step), tone.gain))
    decreases n
  {
    hide Steps, Sine, ToneFrame, OnEvery;
    if n == 0 {
      OneMoreStep(0, step);
    } else {
      TonePlays(tone, n - 1, ac, width, step);
      OneMoreStep(n - 1, step);
      ToneAdvances(tone.(phase := tone.phase + Steps(n - 1, step)), ac, width, step);
    }
  }

  lemma ToneAdvances(tone: Tone, ac: Acoustics, width: nat, step: real)
    requires tone.playing && ac.rate > 0.0 && width > 0 && step == 2.0 * ac.trig.pi * tone.frequency / ac.rate
    ensures ToneFrame(tone, ac, width).0 == tone.(phase := tone.phase + step)
    ensures ToneFrame(tone, ac, width).1 == OnEvery(width, Sine(ac.trig, tone.phase, tone.gain))
  {
    assert PhaseStep(tone.frequency, ac) == step;
    var frame, sample := ToneFrame(tone, ac, width).1, Sine(ac.trig, tone.phase, tone.gain);
    assert sample == ac.trig.sin(tone.phase) * tone.gain;
    forall c | 0 <= c < width ensures frame[c] == OnEvery(width, sample)[c] {
    }
  }

  /** One sample on every channel. */
  function OnEvery(width: nat, sample: real): (frame: Frame)
    ensures |frame| == width && forall c :: 0 <= c < width ==> frame[c] == sample
  {
    seq(width, _ => sample)
  }

  /** A tone that is stopped, or has no rate or no channel to play on, is silent and stands still. */
  lemma {:induction false} ToneRests(tone: Tone, n: nat, ac: Acoustics, width: nat)
    requires !tone.playing || ac.rate <= 0.0 || width == 0
    ensures ToneFrames(tone, n, ac, width) == (tone, Zeros(n, width))
    decreases n
  {
    if n == 0 {
      assert Zeros(0, width) == [];
    } else {
      ToneRests(tone, n - 1, ac, width);
      assert Zeros(n, width) == Zeros(n - 1, width) + [Silence(width)];
    }
  }

  /** What the voices add to one channel at one frame. */
  ghost function VoicePart(rig: Rig, e: EngineState, start: nat, n: nat, f: nat, side: Side): real
    requires rig.Fits() && Renderable(rig, e) && f < n
  {
    if rig.width != 2 || n > rig.maxFrames then 0.0
    else
      var r := RenderedVoices(e.voices, e.listener, start, n, rig.ac);
      Shares(e.voices, r, e.buses, start, f, |e.voices|, rig.ac.trig, side) * e.buses[0].data.ValueAt(start + f)
  }

  /** What the graph adds to one channel at one frame: its output node's value at the device's rate and
      the segment's frame, if the widths agree. */
  ghost function GraphPart(rig: Rig, e: EngineState, start: nat, n: nat, f: nat, c: nat): real
    requires rig.Fits() && Renderable(rig, e) && f < n && c < rig.width
  {
    if rig.graph.None? || n > rig.maxFrames then 0.0
    else
      var g, context := rig.graph.value, ProcessContext(n, rig.ac.rate, start);
      if g.GetNode(g.output).outputChannels != rig.width then 0.0
      else
        EveryBlockEvaluates(rig, e, context);
        OutputWidth(rig, e, context);
        Evaluate(g, e.nodes, context, g.output, rig.depth).value.1[f][c]
  }

  /** On a stereo engine every sample of a segment is the tone's, plus the sum of the voices' shares
      under the master gain, plus the graph's. */
  lemma SegmentIsSum(rig: Rig, e: EngineState, start: nat, n: nat, f: nat, side: Side)
    requires rig.Fits() && Renderable(rig, e) && rig.width == 2 && f < n
    ensures
      var c, block := side.Channel(), EngineMachine(rig).render(e, start, n).1;
      && |block| == n && |block[f]| == 2
      && block[f][c] ==
         ToneFrames(e.tone, n, rig.ac, 2).1[f][c] + VoicePart(rig, e, start, n, f, side)
         + GraphPart(rig, e, start, n, f, c)
  {
    hide Rig.Fits, Renderable, ToneFrames, Shares, MixedFrame, Ramp.ValueAt, MixChannels, NextStates, Evaluate;
    RenderableParts(rig, e);
    var c := side.Channel();
    var (after, sounded) := SoundedSegment(rig, e, start, n);
    VoicesAdd(rig, e, start, n, f, side);
    if rig.graph.Some? && n <= rig.maxFrames && GraphHeard(rig) {
      FrameAdds(sounded[f], GraphShare(rig, e, start, n).1[f], c);
    }
  }

  /** And the state it leaves: the tone as far on as its frames, each voice as far as its segment, the
      buses and the listener as they were, and each node of the graph as its value says. */
  lemma SegmentMovesOn(rig: Rig, e: EngineState, start: nat, n: nat)
    requires rig.Fits() && Renderable(rig, e)
    ensures
      var after := EngineMachine(rig).render(e, start, n).0;
      && after.tone == ToneFrames(e.tone, n, rig.ac, rig.width).0
      && after.buses == e.buses && after.listener == e.listener && |after.voices| == |e.voices|
      && (forall i :: 0 <= i < |e.voices| ==>
            SlotFits(e.voices[i]) &&
            after.voices[i] == if rig.width == 2 && n <= rig.maxFrames
                               then SegmentVoice(e.voices[i], e.listener, start, n, rig.ac).0 else e.voices[i])
      && after.nodes.Keys == e.nodes.Keys
      && (rig.graph.None? || n > rig.maxFrames ==> after.nodes == e.nodes)
      && (rig.graph.Some? && n <= rig.maxFrames ==> forall id :: id in rig.nodes ==>
            IsNext(rig, e, ProcessContext(n, rig.ac.rate, start), id, after.nodes))
  {
    hide SlotFits, Renderable, ToneFrames, Shares, MixedFrame, Ramp.ValueAt, MixChannels, Evaluate, SegmentVoice;
    hide Graph.ConnectionFits, Graph.InputsDistinct, Graph.WellFormed, AllSplit;
    RenderableParts(rig, e);
    RenderableKeys(rig, e);
    if rig.graph.Some? && n <= rig.maxFrames {
      EveryBlockEvaluates(rig, e, ProcessContext(n, rig.ac.rate, start));
    }
  }

  /** The node's next state is that of its value in the context. */
  ghost predicate IsNext(rig: Rig, e: EngineState, context: ProcessContext, id: NodeId, nodes: States)
    requires rig.Fits() && rig.graph.Some? && id in rig.nodes
  {
    && id in nodes && Evaluate(rig.graph.value, e.nodes, context, id, rig.depth).Some?
    && nodes[id] == Evaluate(rig.graph.value, e.nodes, context, id, rig.depth).value.0
  }

  lemma RenderableKeys(rig: Rig, e: EngineState)
    requires rig.Fits() && Renderable(rig, e)
    ensures rig.graph.Some? ==> e.nodes.Keys == rig.nodes
  {
  }

  lemma VoicesAdd(rig: Rig, e: EngineState, start: nat, n: nat, f: nat, side: Side)
    requires rig.Fits() && Renderable(rig, e) && rig.width == 2 && f < n
    ensures
      var c := side.Channel();
      SoundedSegment(rig, e, start, n).1[f][c] ==
      ToneFrames(e.tone, n, rig.ac, 2).1[f][c] + VoicePart(rig, e, start, n, f, side)
  {
    hide ToneFrames, Shares, MixedFrame, Ramp.ValueAt, MixChannels, SlotFits;
    if n <= rig.maxFrames {
      var r := RenderedVoices(e.voices, e.listener, start, n, rig.ac);
      MixIsSumOfShares(e.voices, r, e.buses, start, f, rig.ac.trig, side);
      FrameAdds(ToneFrames(e.tone, n, rig.ac, 2).1[f], VoiceShare(e, start, n, rig.ac).1[f], side.Channel());
    }
  }

  lemma FrameAdds(d: Frame, s: Frame, c: nat)
    requires |d| == |s| && c < |d|
    ensures MixFrame(d, s, 1.0)[c] == d[c] + s[c]
  {
  }
}
