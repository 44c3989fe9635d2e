/** What the nodes make of their inputs, sample by sample, at every setting of their parameters
    (src/lavanda/graph/nodes), and what each parameter command sets
    (src/lavanda/runtime/audio_runtime.cc:42-78). */
module NodeLaws {
  import opened Prelude
  import opened Signals
  import opened Blocks
  import opened MixerMath
  import opened GraphSplitting
  import opened StreamNodes
  import opened SourceNodes
  import opened NodeParameters
  import opened VoiceLaws

  function Sine(trig: Trig, phase: real, level: real): real {
    trig.sin(phase) * level
  }

  /** The oscillator is a sine that goes on from its phase by 2 pi frequency / rate a frame. */
  lemma {:induction false} OscillatorPlays(
    trig: Trig, s: NodeState, inputs: seq<Block>, n: nat, rate: real, step: real)
    requires s.OscillatorMemory? && rate > 0.0 && step == 2.0 * trig.pi * s.frequency / rate
    ensures
      var (after, block) := Streamed((t, ins) => OscillatorFrame(trig, rate, t), s, inputs, n);
      && after == s.(phase := s.phase + Steps(n, step))
      && forall f :: 0 <= f < n ==> block[f] == [Sine(trig, s.phase + Steps(f, step), s.level)]
    decreases n
  {
    hide Steps, Sine, OscillatorFrame;
    if n == 0 {
      OneMoreStep(0, step);
    } else {
      OscillatorPlays(trig, s, inputs, n - 1, rate, step);
      OneMoreStep(n - 1, step);
      var before := s.(phase := s.phase + Steps(n - 1, step));
      OscillatorAdvances(trig, rate, before, step);
    }
  }

  lemma OscillatorAdvances(trig: Trig, rate: real, s: NodeState, step: real)
    requires s.OscillatorMemory? && rate > 0.0 && step == 2.0 * trig.pi * s.frequency / rate
    ensures OscillatorFrame(trig, rate, s) == (s.(phase := s.phase + step), [Sine(trig, s.phase, s.level)])
  {
    var (after, frame) := OscillatorFrame(trig, rate, s);
    assert after.phase == s.phase + step;
    assert frame[0] == trig.sin(s.phase) * s.level == Sine(trig, s.phase, s.level);
  }

  /** Of the oscillator as the graph runs it: the rate is the context's. */
  lemma OscillatorNodePlays(
    trig: Trig, frequency: real, level: real, s: NodeState, inputs: seq<Block>, c: ProcessContext, step: real)
    requires s.OscillatorMemory? && c.sampleRate > 0.0 && step == 2.0 * trig.pi * s.frequency / c.sampleRate
    ensures
      var (after, block) := OscillatorNode(trig, frequency, level).process(s, inputs, c);
      && after == s.(phase := s.phase + Steps(c.frameCount, step))
      && |block| == c.frameCount
      && forall f :: 0 <= f < c.frameCount ==> block[f] == [Sine(trig, s.phase + Steps(f, step), s.level)]
  {
    hide Steps, Sine, OscillatorFrame;
    OscillatorPlays(trig, s, inputs, c.frameCount, c.sampleRate, step);
  }

  /** Without a positive rate it is silent and stands still. */
  lemma OscillatorRests(trig: Trig, frequency: real, level: real, s: NodeState, inputs: seq<Block>, c: ProcessContext)
    requires s.OscillatorMemory? && c.sampleRate <= 0.0
    ensures OscillatorNode(trig, frequency, level).process(s, inputs, c) == (s, Zeros(c.frameCount, 1))
  {
    NothingMoves((t, ins) => OscillatorFrame(trig, c.sampleRate, t), s, inputs, c.frameCount, 1);
  }

  // ---- Nodes that keep their state --------------------------------------------------------------

  lemma {:induction false} SteadyStep(step: FrameStep, s: NodeState, inputs: seq<Block>, n: nat)
    requires forall ins :: step(s, ins).0 == s
    ensures
      var (after, block) := Streamed(step, s, inputs, n);
      after == s && forall f :: 0 <= f < n ==> block[f] == step(s, FrameInputs(inputs, f)).1
    decreases n
  {
    if n > 0 {
      SteadyStep(step, s, inputs, n - 1);
    }
  }

  /** Every channel of the input under the gain set. */
  lemma GainNodeScales(channels: nat, initial: real, gain: real, input: Block, c: ProcessContext)
    requires c.frameCount <= |input| && HasWidth(input, channels)
    ensures
      var (after, block) := GainNode(channels, initial).process(GainSetting(gain), [input], c);
      && after == GainSetting(gain) && |block| == c.frameCount
      && forall f :: 0 <= f < c.frameCount ==> IsScaled(input[f], block[f], gain)
  {
    hide IsScaled;
    var s := GainSetting(gain);
    SteadyStep((t, ins) => (t, GainFrame(channels, t, ins)), s, [input], c.frameCount);
    forall f | 0 <= f < c.frameCount ensures IsScaled(input[f], GainFrame(channels, s, [input[f]]), gain) {
      OnlyInput(input, f);
      GainFrameScales(channels, gain, input[f]);
    }
    forall f | 0 <= f < c.frameCount ensures FrameInputs([input], f) == [input[f]] {
      OnlyInput(input, f);
    }
  }

  ghost predicate IsScaled(x: Frame, y: Frame, gain: real) {
    |x| == |y| && forall ch :: 0 <= ch < |x| ==> y[ch] == x[ch] * gain
  }

  lemma GainFrameScales(channels: nat, gain: real, x: Frame)
    requires |x| == channels
    ensures IsScaled(x, GainFrame(channels, GainSetting(gain), [x]), gain)
  {
    assert Channels(x, channels) == x;
  }

  /** The input as it is. */
  lemma OutputNodePassesOn(channels: nat, s: NodeState, input: Block, c: ProcessContext)
    requires c.frameCount <= |input| && HasWidth(input, channels)
    ensures OutputNode(channels).process(s, [input], c) == (s, input[..c.frameCount])
  {
    SteadyStep((t, ins: seq<Frame>) => (t, if |ins| == 0 then Silence(channels) else Channels(ins[0], channels)),
               s, [input], c.frameCount);
    var block := OutputNode(channels).process(s, [input], c).1;
    forall f | 0 <= f < c.frameCount ensures block[f] == input[f] {
      OnlyInput(input, f);
      assert Channels(input[f], channels) == input[f];
    }
    assert block == input[..c.frameCount];
  }

  /** A mono input spread over two channels by the cosine and the sine of the pan's angle. */
  lemma PanNodeSpreads(trig: Trig, initial: real, pan: real, input: Block, c: ProcessContext)
    requires c.frameCount <= |input| && HasWidth(input, 1)
    ensures
      var (after, block) := PanNode(trig, initial).process(PanSetting(pan), [input], c);
      && after == PanSetting(pan) && |block| == c.frameCount
      && forall f :: 0 <= f < c.frameCount ==>
           IsSpread(input[f], block[f], trig.cos(PanAngle(trig, pan)), trig.sin(PanAngle(trig, pan)))
  {
    hide IsSpread, PanAngle;
    var s := PanSetting(pan);
    SteadyStep((t, ins) => (t, PanFrame(trig, t, ins)), s, [input], c.frameCount);
    forall f | 0 <= f < c.frameCount
      ensures FrameInputs([input], f) == [input[f]]
      ensures IsSpread(input[f], PanFrame(trig, s, [input[f]]), trig.cos(PanAngle(trig, pan)),
                       trig.sin(PanAngle(trig, pan)))
    {
      OnlyInput(input, f);
      PanFrameSpreads(trig, pan, input[f]);
    }
  }

  ghost predicate IsSpread(x: Frame, y: Frame, left: real, right: real) {
    |x| == 1 && |y| == 2 && y[0] == x[0] * left && y[1] == x[0] * right
  }

  lemma PanFrameSpreads(trig: Trig, pan: real, x: Frame)
    requires |x| == 1
    ensures IsSpread(x, PanFrame(trig, PanSetting(pan), [x]), trig.cos(PanAngle(trig, pan)),
                     trig.sin(PanAngle(trig, pan)))
  {
    hide PanAngle;
    var gains := EqualPowerPan(trig, pan, 1.0);
    assert Channels(x, 1) == x;
    PannedGains(Silence(2), Panned(Silence(2), x, gains), x, gains);
    assert gains.left == trig.cos(PanAngle(trig, pan)) && gains.right == trig.sin(PanAngle(trig, pan));
  }

  // ---- The mixer --------------------------------------------------------------------------------

  /** One channel at one frame of the first k inputs, added up. */
  function SampleSum(inputs: seq<Block>, f: nat, ch: nat, k: nat): real
    requires k <= |inputs| && forall i :: 0 <= i < |inputs| ==> f < |inputs[i]|
  {
    if k == 0 then 0.0 else SampleSum(inputs, f, ch, k - 1) + At(inputs[k - 1][f], ch)
  }

  lemma {:induction false} SumFrameAdds(channels: nat, inputs: seq<Block>, f: nat, ch: nat, k: nat)
    requires k <= |inputs| && ch < channels && forall i :: 0 <= i < |inputs| ==> f < |inputs[i]|
    ensures SumFrame(channels, FrameInputs(inputs, f), k)[ch] == SampleSum(inputs, f, ch, k)
  {
    if k > 0 {
      SumFrameAdds(channels, inputs, f, ch, k - 1);
      assert FrameInputs(inputs, f)[k - 1] == inputs[k - 1][f];
    }
  }

  /** Every sample is the sum of the inputs' samples there, as many as the node declares and has. */
  lemma MixerNodeAdds(channels: nat, declared: nat, inputs: seq<Block>, c: ProcessContext)
    requires forall i :: 0 <= i < |inputs| ==> |inputs[i]| == c.frameCount
    ensures
      var (after, block) := MixerNode(channels, declared).process(Stateless, inputs, c);
      && after == Stateless && |block| == c.frameCount
      && forall f, ch :: 0 <= f < c.frameCount && 0 <= ch < channels ==>
           |block[f]| == channels
           && block[f][ch] == SampleSum(inputs, f, ch, Min(|inputs|, Min(declared, MAX_NODE_INPUTS)))
  {
    hide SumFrame, SampleSum;
    var count := Min(declared, MAX_NODE_INPUTS);
    MixingSums(channels, count, inputs, c.frameCount);
    forall f, ch | 0 <= f < c.frameCount && 0 <= ch < channels
      ensures SumFrame(channels, FrameInputs(inputs, f), Min(|inputs|, count))[ch] ==
              SampleSum(inputs, f, ch, Min(|inputs|, count))
    {
      SumFrameAdds(channels, inputs, f, ch, Min(|inputs|, count));
    }
  }

  // ---- Parameters -------------------------------------------------------------------------------

  /** A parameter reaches the nodes that have it, changes only that, and leaves any other node alone. */
  lemma ParametersSetWhatTheyName(s: NodeState, value: real)
    ensures s.GainSetting? ==> WithParameter(s, SetNodeGain(value)) == GainSetting(value)
    ensures s.OscillatorMemory? ==>
              && WithParameter(s, SetNodeGain(value)) == OscillatorMemory(s.phase, s.frequency, value)
              && WithParameter(s, SetNodeFrequency(value)) == OscillatorMemory(s.phase, value, s.level)
    ensures s.LowPassMemory? ==> WithParameter(s, SetNodeCutoff(value)) == LowPassMemory(s.previousOutput, value)
    ensures s.HighPassMemory? ==>
              WithParameter(s, SetNodeCutoff(value)) == HighPassMemory(s.previousInput, s.previousOutput, value)
    ensures s.PanSetting? ==> WithParameter(s, SetNodePan(value)) == PanSetting(value)
    ensures !s.GainSetting? && !s.OscillatorMemory? ==> WithParameter(s, SetNodeGain(value)) == s
    ensures !s.OscillatorMemory? ==> WithParameter(s, SetNodeFrequency(value)) == s
    ensures !s.LowPassMemory? && !s.HighPassMemory? ==> WithParameter(s, SetNodeCutoff(value)) == s
    ensures !s.PanSetting? ==> WithParameter(s, SetNodePan(value)) == s
    ensures !s.DelayLine? ==> WithParameter(s, SetNodeDelayFrames(value)) == s
  {
  }
}
