/** The parameters commands can set on the nodes of the active plan
    (src/lavanda/runtime/audio_runtime.cc:42-78, src/lavanda/runtime/audio_runtime.cc:613-625), and the
    nodes that have little else: gain, oscillator, pan and output (src/lavanda/graph/nodes). */
module NodeParameters {
  import opened Prelude
  import opened Signals
  import opened Blocks
  import opened MixerMath
  import opened GraphSplitting
  import opened StreamNodes
  import opened DelayLines

  datatype NodeParameter =
    | SetNodeGain(value: real) | SetNodeFrequency(value: real) | SetNodeCutoff(value: real)
    | SetNodePan(value: real) | SetNodeDelayFrames(value: real)

  /** ClampFloatToCount (src/lavanda/runtime/float_conversion.h). */
  function ClampToCount(value: real, upper: nat): (n: nat)
    ensures n <= upper
    ensures 0.0 <= value <= upper as real ==> n as real <= value < n as real + 1.0
  {
    if !(value > 0.0) then 0 else if value < upper as real then value.Floor else upper
  }

  /** ApplyNodeParameterCommand: a parameter the node does not have is ignored. The kind of state
      stands for the class the program asks for with dynamic_cast. */
  function WithParameter(s: NodeState, parameter: NodeParameter): NodeState {
    match parameter
    case SetNodeGain(value) =>
      if s.GainSetting? then s.(gain := value) else if s.OscillatorMemory? then s.(level := value) else s
    case SetNodeFrequency(value) => if s.OscillatorMemory? then s.(frequency := value) else s
    case SetNodeCutoff(value) => if s.LowPassMemory? || s.HighPassMemory? then s.(cutoff := value) else s
    case SetNodePan(value) => if s.PanSetting? then s.(pan := value) else s
    case SetNodeDelayFrames(value) =>
      if s.DelayLine? then s.(delay := Min(ClampToCount(value, |s.cells|), |s.cells|)) else s
  }

  /** A delay command keeps the line and what it remembers, and sets a delay within its maximum:
      the requested one, rounded down, if the line is long enough. */
  lemma DelayCommandKeepsLine(s: NodeState, max: nat, base: nat, past: seq<Frame>, value: real)
    requires Remembers(s, base, past, max)
    ensures
      var after := WithParameter(s, SetNodeDelayFrames(value));
      && Remembers(after, base, past, max)
      && (0.0 <= value <= max as real ==> after.delay == value.Floor)
      && (value < 0.0 ==> after.delay == 0) && (value > max as real ==> after.delay == max)
  {
  }

  // ---- Nodes with parameters and at most a phase --------------------------------------------------

  function GainFrame(channels: nat, s: NodeState, ins: seq<Frame>): Frame {
    if |ins| == 0 || !s.GainSetting? then Silence(channels) else Scaled(Channels(ins[0], channels), s.gain)
  }

  function GainNode(channels: nat, gain: real): AudioNode {
    StreamNode(channels, channels, 1, None, GainSetting(gain), _ => GainSetting(gain),
               _ => (s, ins) => (s, GainFrame(channels, s, ins)))
  }

  function OutputNode(channels: nat): AudioNode {
    StreamNode(channels, channels, 1, None, Stateless, _ => Stateless,
               _ => (s, ins: seq<Frame>) => (s, if |ins| == 0 then Silence(channels) else Channels(ins[0], channels)))
  }

  function OscillatorFrame(trig: Trig, rate: real, s: NodeState): (NodeState, Frame) {
    if rate <= 0.0 || !s.OscillatorMemory? then (s, Silence(1))
    else (s.(phase := s.phase + 2.0 * trig.pi * s.frequency / rate), [trig.sin(s.phase) * s.level])
  }

  function OscillatorNode(trig: Trig, frequency: real, level: real): AudioNode {
    StreamNode(0, 1, 0, None, OscillatorMemory(0.0, frequency, level), _ => OscillatorMemory(0.0, frequency, level),
               rate => (s, ins) => OscillatorFrame(trig, rate, s))
  }

  function PanFrame(trig: Trig, s: NodeState, ins: seq<Frame>): Frame {
    if |ins| == 0 || !s.PanSetting? then Silence(2)
    else Panned(Silence(2), Channels(ins[0], 1), EqualPowerPan(trig, s.pan, 1.0))
  }

  function PanNode(trig: Trig, pan: real): AudioNode {
    StreamNode(1, 2, 1, None, PanSetting(pan), _ => PanSetting(pan), _ => (s, ins) => (s, PanFrame(trig, s, ins)))
  }

  lemma SimpleNodesSplit(channels: nat, gain: real, trig: Trig, frequency: real, pan: real)
    ensures GainNode(channels, gain).WellBehaved() && Splits(GainNode(channels, gain))
    ensures OutputNode(channels).WellBehaved() && Splits(OutputNode(channels))
    ensures OscillatorNode(trig, frequency, gain).WellBehaved() && Splits(OscillatorNode(trig, frequency, gain))
    ensures PanNode(trig, pan).WellBehaved() && Splits(PanNode(trig, pan))
  {
    hide AudioNode.WellBehaved, Splits;
    StreamNodesSplit(channels, channels, 1, None, GainSetting(gain), _ => GainSetting(gain),
                     _ => (s, ins) => (s, GainFrame(channels, s, ins)));
    StreamNodesSplit(channels, channels, 1, None, Stateless, _ => Stateless,
                     _ => (s, ins: seq<Frame>) =>
                       (s, if |ins| == 0 then Silence(channels) else Channels(ins[0], channels)));
    StreamNodesSplit(0, 1, 0, None, OscillatorMemory(0.0, frequency, gain), _ => OscillatorMemory(0.0, frequency, gain),
                     rate => (s, ins) => OscillatorFrame(trig, rate, s));
    StreamNodesSplit(1, 2, 1, None, PanSetting(pan), _ => PanSetting(pan),
                     _ => (s, ins) => (s, PanFrame(trig, s, ins)));
  }
}
