/** The one-pole filters (src/lavanda/graph/nodes/one_pole_low_pass_node.cc,
    src/lavanda/graph/nodes/one_pole_high_pass_node.cc). Process runs channel by channel; the result
    is that of running frame by frame. */
module FilterNodes {
  import opened Prelude
  import opened Signals
  import opened Blocks
  import opened MixerMath
  import opened GraphSplitting
  import opened StreamNodes

  /** A recurrence with one memory per channel, and how a node state holds the memories. */
  datatype Filter<!M(!new)> = Filter(
    step: (M, real) -> (M, real), pack: seq<M> -> NodeState, unpack: NodeState -> Option<seq<M>>)
  {
    ghost predicate Lossless() {
      forall memories :: unpack(pack(memories)) == Some(memories)
    }
  }

  // ---- One channel over a block ---------------------------------------------------------------

  function MemoryAfter<M(!new)>(filter: Filter<M>, memory: M, input: Block, c: nat, n: nat): M
    requires n <= |input|
  {
    if n == 0 then memory else filter.step(MemoryAfter(filter, memory, input, c, n - 1), At(input[n - 1], c)).0
  }

  function OutputAt<M(!new)>(filter: Filter<M>, memory: M, input: Block, c: nat, f: nat): real
    requires f < |input|
  {
    filter.step(MemoryAfter(filter, memory, input, c, f), At(input[f], c)).1
  }

  // ---- All channels, frame by frame -------------------------------------------------------------

  function FilterFrame<M(!new)>(filter: Filter<M>, channels: nat, s: NodeState, ins: seq<Frame>): (NodeState, Frame) {
    var memories := filter.unpack(s);
    if |ins| == 0 || memories.None? || |memories.value| != channels then (s, Silence(channels))
    else
      var next := seq(channels, c requires 0 <= c < channels => filter.step(memories.value[c], At(ins[0], c)));
      (filter.pack(seq(channels, c requires 0 <= c < channels => next[c].0)),
       seq(channels, c requires 0 <= c < channels => next[c].1))
  }

  function FilterStep<M(!new)>(filter: Filter<M>, channels: nat): FrameStep {
    (s, ins) => FilterFrame(filter, channels, s, ins)
  }

  function MemoriesAfter<M(!new)>(filter: Filter<M>, memories: seq<M>, input: Block, n: nat): seq<M>
    requires n <= |input|
  {
    seq(|memories|, c requires 0 <= c < |memories| => MemoryAfter(filter, memories[c], input, c, n))
  }

  function OutputFrame<M(!new)>(filter: Filter<M>, memories: seq<M>, input: Block, f: nat): Frame
    requires f < |input|
  {
    seq(|memories|, c requires 0 <= c < |memories| => OutputAt(filter, memories[c], input, c, f))
  }

  /** Channels do not interact: frame by frame is channel by channel. */
  lemma {:induction false} FrameByFrameIsChannelByChannel<M(!new)>(
    filter: Filter<M>, memories: seq<M>, input: Block, n: nat)
    requires filter.Lossless() && n <= |input|
    ensures
      var (after, block) := Streamed(FilterStep(filter, |memories|), filter.pack(memories), [input], n);
      && after == filter.pack(MemoriesAfter(filter, memories, input, n))
      && forall f :: 0 <= f < n ==> block[f] == OutputFrame(filter, memories, input, f)
    decreases n
  {
    if n == 0 {
      assert MemoriesAfter(filter, memories, input, 0) == memories;
    } else {
      FrameByFrameIsChannelByChannel(filter, memories, input, n - 1);
      var before := MemoriesAfter(filter, memories, input, n - 1);
      assert FrameInputs([input], n - 1) == [input[n - 1]];
      assert filter.unpack(filter.pack(before)) == Some(before);
      var (after, frame) := FilterFrame(filter, |memories|, filter.pack(before), [input[n - 1]]);
      assert frame == OutputFrame(filter, memories, input, n - 1);
      var next := seq(|before|, c requires 0 <= c < |before| => filter.step(before[c], At(input[n - 1], c)));
      assert seq(|before|, c requires 0 <= c < |before| => next[c].0) == MemoriesAfter(filter, memories, input, n);
    }
  }

  lemma FilterWidth<M(!new)>(filter: Filter<M>, channels: nat)
    ensures StepWidth(FilterStep(filter, channels), channels)
  {
  }

  // ---- The two filters --------------------------------------------------------------------------

  function LowPass(alpha: real, cutoff: real): Filter<real> {
    Filter((y: real, x: real) => (y + alpha * (x - y), y + alpha * (x - y)),
           (ys: seq<real>) => LowPassMemory(ys, cutoff),
           (s: NodeState) => if s.LowPassMemory? then Some(s.previousOutput) else None)
  }

  /** The memory is the previous input and the previous output. */
  function HighPass(alpha: real, cutoff: real): Filter<(real, real)> {
    Filter((m: (real, real), x: real) => ((x, alpha * (m.1 + x - m.0)), alpha * (m.1 + x - m.0)),
           (ms: seq<(real, real)>) => HighPassMemory(Firsts(ms), Seconds(ms), cutoff),
           (s: NodeState) => if s.HighPassMemory? && |s.previousInput| == |s.previousOutput|
                             then Some(Zipped(s.previousInput, s.previousOutput)) else None)
  }

  function Firsts(ms: seq<(real, real)>): seq<real> {
    seq(|ms|, i requires 0 <= i < |ms| => ms[i].0)
  }

  function Seconds(ms: seq<(real, real)>): seq<real> {
    seq(|ms|, i requires 0 <= i < |ms| => ms[i].1)
  }

  function Zipped(a: seq<real>, b: seq<real>): seq<(real, real)>
    requires |a| == |b|
  {
    seq(|a|, i requires 0 <= i < |a| => (a[i], b[i]))
  }

  lemma FiltersAreLossless(alpha: real, cutoff: real)
    ensures LowPass(alpha, cutoff).Lossless() && HighPass(alpha, cutoff).Lossless()
  {
    var high := HighPass(alpha, cutoff);
    forall ms: seq<(real, real)> ensures high.unpack(high.pack(ms)) == Some(ms) {
      assert Zipped(Firsts(ms), Seconds(ms)) == ms;
    }
  }

  lemma HighPassPacks(alpha: real, cutoff: real, ms: seq<(real, real)>, inputs: seq<real>, outputs: seq<real>)
    requires |ms| == |inputs| == |outputs| && forall d :: 0 <= d < |ms| ==> ms[d] == (inputs[d], outputs[d])
    ensures HighPass(alpha, cutoff).pack(ms) == HighPassMemory(inputs, outputs, cutoff)
  {
    assert Firsts(ms) == inputs && Seconds(ms) == outputs;
  }

  /** From a cutoff and a sample rate to a filter's coefficient. */
  type Coefficient = (real, real) -> real

  /** The nodes as the graph compiler sees them. The cutoff is part of the state; without a positive
      sample rate they are silent and keep their memory. */
  function LowPassFrame(alpha: Coefficient, rate: real, channels: nat, s: NodeState, ins: seq<Frame>)
    : (r: (NodeState, Frame))
    ensures |r.1| == channels
    ensures ins == [] || rate <= 0.0 ==> r == (s, Silence(channels))
  {
    if rate <= 0.0 || !s.LowPassMemory? then (s, Silence(channels))
    else FilterFrame(LowPass(alpha(s.cutoff, rate), s.cutoff), channels, s, ins)
  }

  function HighPassFrame(alpha: Coefficient, rate: real, channels: nat, s: NodeState, ins: seq<Frame>)
    : (r: (NodeState, Frame))
    ensures |r.1| == channels
    ensures ins == [] || rate <= 0.0 ==> r == (s, Silence(channels))
  {
    if rate <= 0.0 || !s.HighPassMemory? then (s, Silence(channels))
    else FilterFrame(HighPass(alpha(s.cutoff, rate), s.cutoff), channels, s, ins)
  }

  function LowPassStep(alpha: Coefficient, rate: real, channels: nat): FrameStep {
    (s: NodeState, ins) => LowPassFrame(alpha, rate, channels, s, ins)
  }

  function HighPassStep(alpha: Coefficient, rate: real, channels: nat): FrameStep {
    (s: NodeState, ins) => HighPassFrame(alpha, rate, channels, s, ins)
  }

  /** Over a block the cutoff is what it was at its start. */
  lemma {:induction false} LowPassKeepsCutoff(
    alpha: Coefficient, rate: real, channels: nat, s: NodeState, inputs: seq<Block>, n: nat)
    requires rate > 0.0 && s.LowPassMemory?
    ensures
      var r := Streamed(LowPassStep(alpha, rate, channels), s, inputs, n);
      && r == Streamed(FilterStep(LowPass(alpha(s.cutoff, rate), s.cutoff), channels), s, inputs, n)
      && r.0.LowPassMemory? && r.0.cutoff == s.cutoff
    decreases n
  {
    if n > 0 {
      LowPassKeepsCutoff(alpha, rate, channels, s, inputs, n - 1);
    }
  }

  lemma {:induction false} HighPassKeepsCutoff(
    alpha: Coefficient, rate: real, channels: nat, s: NodeState, inputs: seq<Block>, n: nat)
    requires rate > 0.0 && s.HighPassMemory?
    ensures
      var r := Streamed(HighPassStep(alpha, rate, channels), s, inputs, n);
      && r == Streamed(FilterStep(HighPass(alpha(s.cutoff, rate), s.cutoff), channels), s, inputs, n)
      && r.0.HighPassMemory? && r.0.cutoff == s.cutoff
    decreases n
  {
    if n > 0 {
      HighPassKeepsCutoff(alpha, rate, channels, s, inputs, n - 1);
    }
  }

  // ---- The difference equations -----------------------------------------------------------------

  /** One channel of a block: what went in, what came out. */
  function Channel(block: Block, c: nat): (samples: seq<real>)
    ensures |samples| == |block|
  {
    seq(|block|, f requires 0 <= f < |block| => At(block[f], c))
  }

  ghost predicate LowPassEquation(a: real, lastY: real, x: real, y: real) {
    y == lastY + a * (x - lastY)
  }

  ghost predicate HighPassEquation(a: real, lastX: real, lastY: real, x: real, y: real) {
    y == a * (lastY + x - lastX)
  }

  /** The value before the one at f, the first time the one before the block. */
  function Last(before: real, values: seq<real>, f: nat): real
    requires f <= |values|
  {
    if f == 0 then before else values[f - 1]
  }

  /** Each output follows from the input and the output before it, the first from the memory; the
      last output is remembered. */
  ghost predicate LowPassed(a: real, before: real, x: seq<real>, y: seq<real>, after: real) {
    && |x| == |y|
    && (forall f :: 0 <= f < |x| ==> LowPassEquation(a, Last(before, y, f), x[f], y[f]))
    && after == Last(before, y, |y|)
  }

  ghost predicate HighPassed(a: real, before: (real, real), x: seq<real>, y: seq<real>, after: (real, real)) {
    && |x| == |y|
    && (forall f :: 0 <= f < |x| ==>
          HighPassEquation(a, Last(before.0, x, f), Last(before.1, y, f), x[f], y[f]))
    && after == (Last(before.0, x, |x|), Last(before.1, y, |y|))
  }

  /** The outputs of a channel. */
  function Outputs<M(!new)>(filter: Filter<M>, memory: M, input: Block, c: nat): (y: seq<real>)
    ensures |y| == |input|
  {
    seq(|input|, f requires 0 <= f < |input| => OutputAt(filter, memory, input, c, f))
  }

  lemma OneChannelLowPassed(a: real, cutoff: real, memory: real, input: Block, c: nat)
    ensures
      var filter := LowPass(a, cutoff);
      LowPassed(a, memory, Channel(input, c), Outputs(filter, memory, input, c),
                MemoryAfter(filter, memory, input, c, |input|))
  {
    hide LowPassEquation, LowPass;
    var filter, x := LowPass(a, cutoff), Channel(input, c);
    var y := Outputs(filter, memory, input, c);
    forall f | 0 <= f < |x| ensures LowPassEquation(a, Last(memory, y, f), x[f], y[f]) {
      LowPassRemembers(a, cutoff, memory, input, c, f);
      LowPassStepEquation(a, cutoff, MemoryAfter(filter, memory, input, c, f), At(input[f], c));
    }
    LowPassRemembers(a, cutoff, memory, input, c, |input|);
  }

  lemma LowPassRemembers(a: real, cutoff: real, memory: real, input: Block, c: nat, n: nat)
    requires n <= |input|
    ensures
      var filter := LowPass(a, cutoff);
      MemoryAfter(filter, memory, input, c, n) == if n == 0 then memory else OutputAt(filter, memory, input, c, n - 1)
  {
  }

  lemma LowPassStepEquation(a: real, cutoff: real, memory: real, x: real)
    ensures LowPassEquation(a, memory, x, LowPass(a, cutoff).step(memory, x).1)
  {
  }

  lemma OneChannelHighPassed(a: real, cutoff: real, memory: (real, real), input: Block, c: nat)
    ensures
      var filter := HighPass(a, cutoff);
      HighPassed(a, memory, Channel(input, c), Outputs(filter, memory, input, c),
                 MemoryAfter(filter, memory, input, c, |input|))
  {
    hide HighPassEquation, HighPass;
    var filter, x := HighPass(a, cutoff), Channel(input, c);
    var y := Outputs(filter, memory, input, c);
    forall f | 0 <= f < |x|
      ensures HighPassEquation(a, Last(memory.0, x, f), Last(memory.1, y, f), x[f], y[f])
    {
      HighPassRemembers(a, cutoff, memory, input, c, f);
      HighPassStepEquation(a, cutoff, MemoryAfter(filter, memory, input, c, f), At(input[f], c));
    }
    HighPassRemembers(a, cutoff, memory, input, c, |input|);
  }

  lemma HighPassRemembers(a: real, cutoff: real, memory: (real, real), input: Block, c: nat, n: nat)
    requires n <= |input|
    ensures
      var filter := HighPass(a, cutoff);
      MemoryAfter(filter, memory, input, c, n) ==
      if n == 0 then memory else (At(input[n - 1], c), OutputAt(filter, memory, input, c, n - 1))
  {
  }

  lemma HighPassStepEquation(a: real, cutoff: real, memory: (real, real), x: real)
    ensures HighPassEquation(a, memory.0, memory.1, x, HighPass(a, cutoff).step(memory, x).1)
  {
  }

  function LowPassNode(channels: nat, alpha: Coefficient, cutoff: real): AudioNode
    requires 0 < channels <= MAX_CHANNELS
  {
    StreamNode(channels, channels, 1, None, LowPassMemory(Silence(channels), cutoff),
               _ => LowPassMemory(Silence(channels), cutoff), rate => LowPassStep(alpha, rate, channels))
  }

  function HighPassNode(channels: nat, alpha: Coefficient, cutoff: real): AudioNode
    requires 0 < channels <= MAX_CHANNELS
  {
    StreamNode(channels, channels, 1, None, HighPassMemory(Silence(channels), Silence(channels), cutoff),
               _ => HighPassMemory(Silence(channels), Silence(channels), cutoff),
               rate => HighPassStep(alpha, rate, channels))
  }

  lemma FilterNodesSplit(channels: nat, alpha: Coefficient, cutoff: real)
    requires 0 < channels <= MAX_CHANNELS
    ensures LowPassNode(channels, alpha, cutoff).WellBehaved() && Splits(LowPassNode(channels, alpha, cutoff))
    ensures HighPassNode(channels, alpha, cutoff).WellBehaved() && Splits(HighPassNode(channels, alpha, cutoff))
  {
    forall rate
      ensures StepWidth(LowPassStep(alpha, rate, channels), channels)
      ensures StepWidth(HighPassStep(alpha, rate, channels), channels)
    {
      StepsHaveWidth(alpha, rate, channels);
    }
    StreamNodesSplit(channels, channels, 1, None, LowPassMemory(Silence(channels), cutoff),
                     _ => LowPassMemory(Silence(channels), cutoff), rate => LowPassStep(alpha, rate, channels));
    StreamNodesSplit(channels, channels, 1, None, HighPassMemory(Silence(channels), Silence(channels), cutoff),
                     _ => HighPassMemory(Silence(channels), Silence(channels), cutoff),
                     rate => HighPassStep(alpha, rate, channels));
  }

  lemma StepsHaveWidth(alpha: Coefficient, rate: real, channels: nat)
    ensures StepWidth(LowPassStep(alpha, rate, channels), channels)
    ensures StepWidth(HighPassStep(alpha, rate, channels), channels)
  {
    hide LowPassFrame, HighPassFrame;
  }

  lemma StepsStandStill(alpha: Coefficient, rate: real, channels: nat, s: NodeState)
    ensures Idle(LowPassStep(alpha, rate, channels), s, [], channels)
    ensures Idle(HighPassStep(alpha, rate, channels), s, [], channels)
    ensures rate <= 0.0 ==> forall ins ::
              && Idle(LowPassStep(alpha, rate, channels), s, ins, channels)
              && Idle(HighPassStep(alpha, rate, channels), s, ins, channels)
  {
    hide LowPassFrame, HighPassFrame;
  }

  // ---- The nodes --------------------------------------------------------------------------------

  /** One channel of one frame of a view. */
  method SetSample(view: AudioBufferView, frame: nat, c: nat, y: real)
    requires view.Valid() && frame < view.frameCount && c < view.channels
    modifies view.data
    ensures view.Valid()
    ensures view.Content() == old(view.Content())[frame := old(view.Content())[frame][c := y]]
  {
    SetFrame(view, frame, view.data[view.offset + frame][c := y]);
  }

  /** The first channels of the block hold the filter's output. */
  ghost predicate ChannelsDone<M(!new)>(
    filter: Filter<M>, memories: seq<M>, input: Block, content: Block, channels: nat)
  {
    && |content| == |input| && channels <= |memories|
    && forall f, c {:trigger OutputAt(filter, memories[c], input, c, f)} :: 0 <= f < |input| && 0 <= c < channels ==>
         c < |content[f]| && content[f][c] == OutputAt(filter, memories[c], input, c, f)
  }

  /** The channels the filter does not work on are as they were. */
  ghost predicate OthersKept(was: Block, now: Block, channels: nat) {
    && |was| == |now|
    && forall f {:trigger now[f]} :: 0 <= f < |was| ==>
         |was[f]| == |now[f]| && channels <= |was[f]| && now[f][channels..] == was[f][channels..]
  }

  lemma AllChannelsDone<M(!new)>(filter: Filter<M>, memories: seq<M>, input: Block, was: Block, content: Block)
    requires filter.Lossless() && OthersKept(was, content, |memories|)
    requires ChannelsDone(filter, memories, input, content, |memories|)
    ensures
      var r := Streamed(FilterStep(filter, |memories|), filter.pack(memories), [input], |input|);
      && r.0 == filter.pack(MemoriesAfter(filter, memories, input, |input|))
      && LeavesOver(was, content, r.1)
  {
    hide Streamed, FilterFrame, ChannelsDone, MemoryAfter, OutputAt, OutputFrame;
    FrameByFrameIsChannelByChannel(filter, memories, input, |input|);
    var block := Streamed(FilterStep(filter, |memories|), filter.pack(memories), [input], |input|).1;
    DoneLength(filter, memories, input, content);
    forall f | 0 <= f < |input|
      ensures |block[f]| == |memories| <= |was[f]| && content[f] == block[f] + was[f][|memories|..]
    {
      assert |was[f]| == |content[f]| && content[f][|memories|..] == was[f][|memories|..];
      DoneFrame(filter, memories, input, content, f);
      assert content[f] == content[f][..|memories|] + content[f][|memories|..];
    }
    assert content == Overlaid(was, block);
  }

  lemma DoneLength<M(!new)>(filter: Filter<M>, memories: seq<M>, input: Block, content: Block)
    requires ChannelsDone(filter, memories, input, content, |memories|)
    ensures |content| == |input|
  {
  }

  lemma DoneFrame<M(!new)>(filter: Filter<M>, memories: seq<M>, input: Block, content: Block, f: nat)
    requires f < |input| == |content| && |memories| <= |content[f]|
    requires ChannelsDone(filter, memories, input, content, |memories|)
    ensures OutputFrame(filter, memories, input, f) == content[f][..|memories|]
  {
    hide OutputAt;
    forall c | 0 <= c < |memories| ensures OutputFrame(filter, memories, input, f)[c] == content[f][c] {
      assert content[f][c] == OutputAt(filter, memories[c], input, c, f);
    }
  }

  /** The inner loop: one channel of the whole block. */
  method FilterChannel<M(!new)>(
    filter: Filter<M>, ghost memories: seq<M>, memory: M, input: AudioBufferView, output: AudioBufferView, c: nat,
    ghost was: Block)
    returns (last: M)
    requires input.Valid() && output.Valid() && input.data != output.data
    requires input.frameCount == output.frameCount && c < |memories| <= input.channels == output.channels
    requires memories[c] == memory && ChannelsDone(filter, memories, input.Content(), output.Content(), c)
    requires OthersKept(was, output.Content(), |memories|)
    modifies output.data
    ensures output.Valid() && input.Content() == old(input.Content())
    ensures ChannelsDone(filter, memories, input.Content(), output.Content(), c + 1)
    ensures OthersKept(was, output.Content(), |memories|)
    ensures last == MemoryAfter(filter, memory, input.Content(), c, input.frameCount)
  {
    hide ChannelsDone, OthersKept, ChannelSoFar;
    ghost var block := input.Content();
    last := memory;
    ChannelStarts(filter, memories, block, output.Content(), c);
    for f := 0 to output.frameCount
      invariant output.Valid() && input.Content() == block
      invariant ChannelsDone(filter, memories, block, output.Content(), c)
      invariant OthersKept(was, output.Content(), |memories|)
      invariant ChannelSoFar(filter, memory, block, output.Content(), c, f)
      invariant last == MemoryAfter(filter, memory, block, c, f)
    {
      assert block[f] == input.data[input.offset + f] && output.Content()[f] == output.data[output.offset + f];
      var (next, y) := filter.step(last, input.data[input.offset + f][c]);
      SampleDone(filter, memories, block, output.Content(), was, c, f);
      SetSample(output, f, c, y);
      last := next;
    }
    ChannelEnds(filter, memories, block, output.Content(), c);
  }

  /** The first f frames of the channel hold the filter's output. */
  ghost predicate ChannelSoFar<M(!new)>(filter: Filter<M>, memory: M, input: Block, content: Block, c: nat, f: nat) {
    && f <= |input| == |content|
    && forall g {:trigger OutputAt(filter, memory, input, c, g)} :: 0 <= g < f ==>
         c < |content[g]| && content[g][c] == OutputAt(filter, memory, input, c, g)
  }

  lemma ChannelStarts<M(!new)>(filter: Filter<M>, memories: seq<M>, input: Block, content: Block, c: nat)
    requires c < |memories| && ChannelsDone(filter, memories, input, content, c)
    ensures ChannelSoFar(filter, memories[c], input, content, c, 0)
  {
  }

  /** One more sample of the channel. */
  lemma SampleDone<M(!new)>(
    filter: Filter<M>, memories: seq<M>, input: Block, content: Block, was: Block, c: nat, f: nat)
    requires c < |memories| && f < |input| == |content| && c < |content[f]|
    requires ChannelsDone(filter, memories, input, content, c) && OthersKept(was, content, |memories|)
    requires ChannelSoFar(filter, memories[c], input, content, c, f)
    ensures
      var next := content[f := content[f][c := OutputAt(filter, memories[c], input, c, f)]];
      && ChannelsDone(filter, memories, input, next, c) && OthersKept(was, next, |memories|)
      && ChannelSoFar(filter, memories[c], input, next, c, f + 1)
  {
    hide OutputAt;
    SampleKeepsOthers(was, content, |memories|, f, c, OutputAt(filter, memories[c], input, c, f));
  }

  lemma SampleKeepsOthers(was: Block, now: Block, channels: nat, f: nat, c: nat, y: real)
    requires OthersKept(was, now, channels) && c < channels && f < |now| && c < |now[f]|
    ensures OthersKept(was, now[f := now[f][c := y]], channels)
  {
    var next := now[f := now[f][c := y]];
    forall g | 0 <= g < |was|
      ensures |was[g]| == |next[g]| && channels <= |was[g]| && next[g][channels..] == was[g][channels..]
    {
      assert now[g][channels..] == was[g][channels..];
      assert g == f ==> next[g][channels..] == now[g][channels..];
    }
  }

  lemma ChannelEnds<M(!new)>(filter: Filter<M>, memories: seq<M>, input: Block, content: Block, c: nat)
    requires c < |memories| && ChannelsDone(filter, memories, input, content, c)
    requires ChannelSoFar(filter, memories[c], input, content, c, |input|)
    ensures ChannelsDone(filter, memories, input, content, c + 1)
  {
    hide OutputAt;
    forall f, d | 0 <= f < |input| && 0 <= d < c + 1
      ensures d < |content[f]| && content[f][d] == OutputAt(filter, memories[d], input, d, f)
    {
      var y := OutputAt(filter, memories[d], input, d, f);
      if d < c {
        assert d < |content[f]| && content[f][d] == y;
      } else {
        assert memories[d] == memories[c] && y == OutputAt(filter, memories[c], input, c, f);
      }
    }
  }

  lemma NoChannelDone<M(!new)>(filter: Filter<M>, memories: seq<M>, input: Block, content: Block)
    requires |content| == |input|
    ensures ChannelsDone(filter, memories, input, content, 0)
  {
  }

  /** A channel that is done holds the filter's output, and the whole of the block went in. */
  lemma ChannelOfDone<M(!new)>(filter: Filter<M>, memories: seq<M>, input: Block, content: Block, c: nat)
    requires c < |memories| && ChannelsDone(filter, memories, input, content, |memories|)
    ensures Channel(content, c) == Outputs(filter, memories[c], input, c)
  {
    hide OutputAt;
    forall f | 0 <= f < |input| ensures Channel(content, c)[f] == OutputAt(filter, memories[c], input, c, f) {
    }
  }

  class OnePoleLowPassNode {
    const channels: nat
    const alpha: Coefficient
    var cutoff: real
    /** One output for each of the first two channels. */
    var previousOutput: seq<real>

    ghost predicate Valid()
      reads this
    {
      |previousOutput| == Working(channels)
    }

    function State(): NodeState
      reads this
    {
      LowPassMemory(previousOutput, cutoff)
    }

    constructor (channels: nat, alpha: Coefficient)
      ensures Valid() && this.channels == channels && this.alpha == alpha
      ensures State() == LowPassMemory(Silence(Working(channels)), 1000.0)
    {
      this.channels, this.alpha, cutoff, previousOutput := channels, alpha, 1000.0, Silence(Working(channels));
    }

    method SetCutoffHz(cutoff: real)
      requires Valid()
      modifies this`cutoff
      ensures Valid() && this.cutoff == cutoff
    {
      this.cutoff := cutoff;
    }

    /** Without input, rate or frames the output is cleared and the memory kept; otherwise the first
        two channels are the filter's and the others keep what they held. */
    method Process(input: Option<AudioBufferView>, output: AudioBufferView, rate: real)
      requires Valid() && output.Valid() && output.channels == channels
      requires input.Some? ==>
                 input.value.Valid() && input.value.channels == channels && input.value.frameCount == output.frameCount &&
                 input.value.data != output.data
      modifies this`previousOutput, output.data
      ensures Valid()
      ensures input.None? || rate <= 0.0 || output.Empty() ==>
                State() == old(State()) && output.Content() == Zeros(output.frameCount, channels)
      ensures input.Some? && rate > 0.0 && !output.Empty() ==>
                var after := Streamed(LowPassStep(alpha, rate, Working(channels)), old(State()),
                                      [old(input.value.Content())], output.frameCount);
                State() == after.0 && LeavesOver(old(output.Content()), output.Content(), after.1)
      ensures input.Some? && rate > 0.0 && !output.Empty() ==> forall c :: 0 <= c < Working(channels) ==>
                LowPassed(alpha(cutoff, rate), old(previousOutput[c]), Channel(old(input.value.Content()), c),
                          Channel(output.Content(), c), previousOutput[c])
      ensures 0 < channels <= MAX_CHANNELS ==>
                (State(), output.Content()) ==
                Streamed(LowPassStep(alpha, rate, channels), old(State()),
                         if input.Some? then [old(input.value.Content())] else [], output.frameCount)
    {
      ghost var s, was := State(), output.Content();
      ghost var block := if input.Some? then Some(input.value.Content()) else None;
      if input.None? || rate <= 0.0 || output.Empty() {
        Clear(output);
      } else {
        RunChannels(input.value, output, rate);
      }
      if 0 < channels <= MAX_CHANNELS {
        StepsHaveWidth(alpha, rate, channels);
        StepsStandStill(alpha, rate, channels, s);
        ProcessIsTheStep(LowPassStep(alpha, rate, channels), s, block, was, output.Content(), State(),
                         input.None? || rate <= 0.0 || output.Empty(), channels);
      }
    }

    /** The loop over the channels. */
    method RunChannels(input: AudioBufferView, output: AudioBufferView, rate: real)
      requires Valid() && output.Valid() && output.channels == channels && rate > 0.0
      requires input.Valid() && input.channels == channels && input.frameCount == output.frameCount
      requires input.data != output.data
      modifies this`previousOutput, output.data
      ensures Valid() && output.Valid()
      ensures
        var after := Streamed(LowPassStep(alpha, rate, Working(channels)), old(State()), [old(input.Content())],
                              output.frameCount);
        State() == after.0 && LeavesOver(old(output.Content()), output.Content(), after.1)
      ensures forall c :: 0 <= c < Working(channels) ==>
                LowPassed(alpha(cutoff, rate), old(previousOutput[c]), Channel(old(input.Content()), c),
                          Channel(output.Content(), c), previousOutput[c])
    {
      hide Streamed, MemoryAfter, OutputAt, LeavesOver, LowPassFrame, ChannelsDone, LowPassed, Channel;
      var filter := LowPass(alpha(cutoff, rate), cutoff);
      ghost var s, memories, block, was := State(), previousOutput, input.Content(), output.Content();
      NoChannelDone(filter, memories, block, output.Content());
      for c := 0 to Working(channels)
        invariant output.Valid() && input.Content() == block && Valid()
        invariant ChannelsDone(filter, memories, block, output.Content(), c)
        invariant OthersKept(was, output.Content(), Working(channels))
        invariant forall d :: 0 <= d < Working(channels) ==>
                    previousOutput[d] ==
                    if d < c then MemoryAfter(filter, memories[d], block, d, |block|) else memories[d]
      {
        var y := FilterChannel(filter, memories, previousOutput[c], input, output, c, was);
        previousOutput := previousOutput[c := y];
      }
      FiltersAreLossless(alpha(cutoff, rate), cutoff);
      AllChannelsDone(filter, memories, block, was, output.Content());
      LowPassKeepsCutoff(alpha, rate, Working(channels), s, [block], |block|);
      assert previousOutput == MemoriesAfter(filter, memories, block, |block|);
      forall c | 0 <= c < Working(channels)
        ensures LowPassed(alpha(cutoff, rate), memories[c], Channel(block, c), Channel(output.Content(), c),
                          previousOutput[c])
      {
        OneChannelLowPassed(alpha(cutoff, rate), cutoff, memories[c], block, c);
        ChannelOfDone(filter, memories, block, output.Content(), c);
      }
    }
  }

  class OnePoleHighPassNode {
    const channels: nat
    const alpha: Coefficient
    var cutoff: real
    /** One input and one output for each of the first two channels. */
    var previousInput: seq<real>
    var previousOutput: seq<real>

    ghost predicate Valid()
      reads this
    {
      |previousInput| == |previousOutput| == Working(channels)
    }

    function State(): NodeState
      reads this
    {
      HighPassMemory(previousInput, previousOutput, cutoff)
    }

    constructor (channels: nat, alpha: Coefficient)
      ensures Valid() && this.channels == channels && this.alpha == alpha
      ensures State() == HighPassMemory(Silence(Working(channels)), Silence(Working(channels)), 1000.0)
    {
      this.channels, this.alpha, cutoff := channels, alpha, 1000.0;
      previousInput, previousOutput := Silence(Working(channels)), Silence(Working(channels));
    }

    method SetCutoffHz(cutoff: real)
      requires Valid()
      modifies this`cutoff
      ensures Valid() && this.cutoff == cutoff
    {
      this.cutoff := cutoff;
    }

    method Process(input: Option<AudioBufferView>, output: AudioBufferView, rate: real)
      requires Valid() && output.Valid() && output.channels == channels
      requires input.Some? ==>
                 input.value.Valid() && input.value.channels == channels && input.value.frameCount == output.frameCount &&
                 input.value.data != output.data
      modifies this`previousInput, this`previousOutput, output.data
      ensures Valid()
      ensures input.None? || rate <= 0.0 || output.Empty() ==>
                State() == old(State()) && output.Content() == Zeros(output.frameCount, channels)
      ensures input.Some? && rate > 0.0 && !output.Empty() ==>
                var after := Streamed(HighPassStep(alpha, rate, Working(channels)), old(State()),
                                      [old(input.value.Content())], output.frameCount);
                State() == after.0 && LeavesOver(old(output.Content()), output.Content(), after.1)
      ensures input.Some? && rate > 0.0 && !output.Empty() ==> forall c :: 0 <= c < Working(channels) ==>
                HighPassed(alpha(cutoff, rate), old((previousInput[c], previousOutput[c])),
                           Channel(old(input.value.Content()), c), Channel(output.Content(), c),
                           (previousInput[c], previousOutput[c]))
      ensures 0 < channels <= MAX_CHANNELS ==>
                (State(), output.Content()) ==
                Streamed(HighPassStep(alpha, rate, channels), old(State()),
                         if input.Some? then [old(input.value.Content())] else [], output.frameCount)
    {
      ghost var s, was := State(), output.Content();
      ghost var block := if input.Some? then Some(input.value.Content()) else None;
      if input.None? || rate <= 0.0 || output.Empty() {
        Clear(output);
      } else {
        RunChannels(input.value, output, rate);
      }
      if 0 < channels <= MAX_CHANNELS {
        StepsHaveWidth(alpha, rate, channels);
        StepsStandStill(alpha, rate, channels, s);
        ProcessIsTheStep(HighPassStep(alpha, rate, channels), s, block, was, output.Content(), State(),
                         input.None? || rate <= 0.0 || output.Empty(), channels);
      }
    }

    /** The loop over the channels. */
    method RunChannels(input: AudioBufferView, output: AudioBufferView, rate: real)
      requires Valid() && output.Valid() && output.channels == channels && rate > 0.0
      requires input.Valid() && input.channels == channels && input.frameCount == output.frameCount
      requires input.data != output.data
      modifies this`previousInput, this`previousOutput, output.data
      ensures Valid() && output.Valid()
      ensures
        var after := Streamed(HighPassStep(alpha, rate, Working(channels)), old(State()), [old(input.Content())],
                              output.frameCount);
        State() == after.0 && LeavesOver(old(output.Content()), output.Content(), after.1)
      ensures forall c :: 0 <= c < Working(channels) ==>
                HighPassed(alpha(cutoff, rate), old((previousInput[c], previousOutput[c])),
                           Channel(old(input.Content()), c), Channel(output.Content(), c),
                           (previousInput[c], previousOutput[c]))
    {
      hide Streamed, MemoryAfter, OutputAt, LeavesOver, HighPassFrame, HighPass, ChannelsDone, HighPassed, Channel;
      var filter := HighPass(alpha(cutoff, rate), cutoff);
      ghost var s, block, was := State(), input.Content(), output.Content();
      ghost var memories := Zipped(previousInput, previousOutput);
      HighPassPacks(alpha(cutoff, rate), cutoff, memories, previousInput, previousOutput);
      NoChannelDone(filter, memories, block, output.Content());
      for c := 0 to Working(channels)
        invariant output.Valid() && input.Content() == block && Valid()
        invariant ChannelsDone(filter, memories, block, output.Content(), c)
        invariant OthersKept(was, output.Content(), Working(channels))
        invariant forall d :: 0 <= d < Working(channels) ==>
                    (previousInput[d], previousOutput[d]) ==
                    if d < c then MemoryAfter(filter, memories[d], block, d, |block|) else memories[d]
      {
        var last := FilterChannel(filter, memories, (previousInput[c], previousOutput[c]), input, output, c, was);
        previousInput := previousInput[c := last.0];
        previousOutput := previousOutput[c := last.1];
      }
      FiltersAreLossless(alpha(cutoff, rate), cutoff);
      AllChannelsDone(filter, memories, block, was, output.Content());
      HighPassKeepsCutoff(alpha, rate, Working(channels), s, [block], |block|);
      ghost var after := MemoriesAfter(filter, memories, block, |block|);
      HighPassPacks(alpha(s.cutoff, rate), s.cutoff, after, previousInput, previousOutput);
      forall c | 0 <= c < Working(channels)
        ensures HighPassed(alpha(cutoff, rate), memories[c], Channel(block, c), Channel(output.Content(), c),
                           (previousInput[c], previousOutput[c]))
      {
        OneChannelHighPassed(alpha(cutoff, rate), cutoff, memories[c], block, c);
        ChannelOfDone(filter, memories, block, output.Content(), c);
      }
    }
  }
}
