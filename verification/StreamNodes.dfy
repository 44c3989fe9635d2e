/** Nodes that work frame by frame: the delay line, the one-pole filters, the asset source and the
    mixer (src/lavanda/graph/nodes). Their Process loops are proved equal to a per-frame step, and
    every such node splits. */
module StreamNodes {
  import opened Prelude
  import opened Signals
  import opened Blocks
  import opened GraphSplitting

  /** From a node's state and one frame of each input to its next state and its output frame. */
  type FrameStep = (NodeState, seq<Frame>) -> (NodeState, Frame)

  function FrameInputs(inputs: seq<Block>, f: nat): seq<Frame> {
    seq(|inputs|, i requires 0 <= i < |inputs| => if f < |inputs[i]| then inputs[i][f] else [])
  }

  lemma OnlyInput(block: Block, f: nat)
    requires f < |block|
    ensures FrameInputs([block], f) == [block[f]]
  {
  }

  function Streamed(step: FrameStep, s: NodeState, inputs: seq<Block>, n: nat): (r: (NodeState, Block))
    ensures |r.1| == n
  {
    if n == 0 then (s, [])
    else
      var (before, block) := Streamed(step, s, inputs, n - 1);
      var (after, frame) := step(before, FrameInputs(inputs, n - 1));
      (after, block + [frame])
  }

  /** Only the frames streamed so far matter. */
  lemma {:induction false} StreamedPrefix(step: FrameStep, s: NodeState, inputs: seq<Block>, others: seq<Block>, n: nat)
    requires forall f :: 0 <= f < n ==> FrameInputs(inputs, f) == FrameInputs(others, f)
    ensures Streamed(step, s, inputs, n) == Streamed(step, s, others, n)
  {
    if n > 0 {
      StreamedPrefix(step, s, inputs, others, n - 1);
    }
  }

  lemma {:induction false} StreamedSplits(step: FrameStep, s: NodeState, inputs: seq<Block>, n: nat, k: nat)
    requires forall i :: 0 <= i < |inputs| ==> n <= |inputs[i]|
    ensures
      var (middle, first) := Streamed(step, s, inputs, n);
      var (end, second) := Streamed(step, middle, LaterFrames(inputs, n), k);
      Streamed(step, s, inputs, n + k) == (end, first + second)
    decreases k
  {
    var (middle, first) := Streamed(step, s, inputs, n);
    if k == 0 {
      assert first + [] == first;
    } else {
      StreamedSplits(step, s, inputs, n, k - 1);
      assert FrameInputs(LaterFrames(inputs, n), k - 1) == FrameInputs(inputs, n + k - 1);
      var (before, second) := Streamed(step, middle, LaterFrames(inputs, n), k - 1);
      var frame := step(before, FrameInputs(inputs, n + k - 1)).1;
      assert first + (second + [frame]) == (first + second) + [frame];
    }
  }

  ghost predicate StepWidth(step: FrameStep, width: nat) {
    forall s, ins {:trigger step(s, ins)} :: |step(s, ins).1| == width
  }

  /** A node whose Process streams the step for the context's sample rate. */
  function StreamNode(
    inputChannels: nat, outputChannels: nat, expected: nat, asset: Option<AssetId>, initial: NodeState,
    bind: AudioAsset -> NodeState, step: real -> FrameStep): AudioNode
  {
    AudioNode(inputChannels, outputChannels, expected, asset, initial, bind,
              (s, ins, c: ProcessContext) => Streamed(step(c.sampleRate), s, ins, c.frameCount))
  }

  lemma {:induction false} StreamedWidth(step: FrameStep, s: NodeState, inputs: seq<Block>, n: nat, width: nat)
    requires StepWidth(step, width)
    ensures HasWidth(Streamed(step, s, inputs, n).1, width)
  {
    if n > 0 {
      StreamedWidth(step, s, inputs, n - 1, width);
    }
  }

  /** Every streaming node overwrites its whole output and splits at any frame. */
  lemma StreamNodesSplit(
    inputChannels: nat, outputChannels: nat, expected: nat, asset: Option<AssetId>, initial: NodeState,
    bind: AudioAsset -> NodeState, step: real -> FrameStep)
    requires expected <= MAX_NODE_INPUTS && forall rate :: StepWidth(step(rate), outputChannels)
    ensures
      var node := StreamNode(inputChannels, outputChannels, expected, asset, initial, bind, step);
      node.WellBehaved() && Splits(node)
  {
    var node := StreamNode(inputChannels, outputChannels, expected, asset, initial, bind, step);
    forall s, ins, c: ProcessContext
      ensures |node.process(s, ins, c).1| == c.frameCount
      ensures forall f :: 0 <= f < c.frameCount ==> |node.process(s, ins, c).1[f]| == outputChannels
    {
      StreamedWidth(step(c.sampleRate), s, ins, c.frameCount, outputChannels);
    }
    forall s: NodeState, inputs: seq<Block>, n: nat, k: nat, rate: real, clock: nat |
      0 < n && 0 < k && AllOfLength(inputs, n + k)
      ensures node.process(s, inputs, ProcessContext(n + k, rate, clock)) == InTwoGoes(node, s, inputs, n, k, rate, clock)
    {
      StreamedSplits(step(rate), s, inputs, n, k);
      var first := FirstFrames(inputs, n);
      forall f | 0 <= f < n ensures FrameInputs(first, f) == FrameInputs(inputs, f) {
      }
      StreamedPrefix(step(rate), s, first, inputs, n);
    }
  }

  // ---- Channels -----------------------------------------------------------------------------------

  function At(frame: Frame, c: nat): real {
    if c < |frame| then frame[c] else 0.0
  }

  /** A frame cut or padded to so many channels. */
  function Channels(frame: Frame, channels: nat): Frame {
    seq(channels, c requires 0 <= c < channels => At(frame, c))
  }

  // ---- Nodes that work on at most two channels ----------------------------------------------------

  /** kMaxChannels of the delay line and the one-pole filters. */
  const MAX_CHANNELS: nat := 2

  function Working(channels: nat): nat {
    Min(channels, MAX_CHANNELS)
  }

  /** What such a node leaves in its output view: its own channels over whatever was there. */
  function Overlaid(was: Block, own: Block): Block
    requires |own| == |was| && forall f :: 0 <= f < |own| ==> |own[f]| <= |was[f]|
  {
    seq(|own|, f requires 0 <= f < |own| => own[f] + was[f][|own[f]|..])
  }

  lemma OverlayIsWhole(was: Block, own: Block, width: nat)
    requires |own| == |was| && HasWidth(own, width) && HasWidth(was, width)
    ensures Overlaid(was, own) == own
  {
    forall f | 0 <= f < |own| ensures Overlaid(was, own)[f] == own[f] {
      assert was[f][width..] == [];
    }
  }

  /** The output does not depend on what the view held before. */
  ghost predicate OverwritesWhole(channels: nat) {
    forall a, b, own {:trigger HasWidth(a, channels), HasWidth(b, channels), HasWidth(own, Working(channels))} ::
      |a| == |b| == |own| && HasWidth(a, channels) && HasWidth(b, channels) && HasWidth(own, Working(channels)) ==>
        Overlaid(a, own) == Overlaid(b, own)
  }

  /** The node contract holds up to two channels and fails above. */
  lemma OverwritesWholeUpToTwo(channels: nat)
    ensures OverwritesWhole(channels) <==> channels <= MAX_CHANNELS
  {
    if channels <= MAX_CHANNELS {
      forall a, b, own |
        |a| == |b| == |own| && HasWidth(a, channels) && HasWidth(b, channels) && HasWidth(own, Working(channels))
        ensures Overlaid(a, own) == Overlaid(b, own)
      {
        OverlayIsWhole(a, own, channels);
        OverlayIsWhole(b, own, channels);
      }
    } else {
      var quiet, loud := [Silence(channels)], [seq(channels, _ => 1.0)];
      var own := [Silence(MAX_CHANNELS)];
      assert HasWidth(quiet, channels) && HasWidth(loud, channels) && HasWidth(own, Working(channels));
      assert Overlaid(quiet, own)[0][2] == 0.0 && Overlaid(loud, own)[0][2] == 1.0;
    }
  }

  /** The block ends up over what the view held. */
  ghost predicate LeavesOver(was: Block, now: Block, own: Block) {
    && |own| == |was| && (forall f :: 0 <= f < |own| ==> |own[f]| <= |was[f]|)
    && now == Overlaid(was, own)
  }

  /** The first f frames are overlaid, the others still to come. */
  ghost predicate OverlaidSoFar(was: Block, now: Block, own: Block, f: nat) {
    && |now| == |was| && |own| == f <= |was|
    && (forall g :: 0 <= g < f ==> |own[g]| <= |was[g]| && now[g] == own[g] + was[g][|own[g]|..])
    && (forall g :: f <= g < |was| ==> now[g] == was[g])
  }

  lemma NothingOverlaid(was: Block)
    ensures OverlaidSoFar(was, was, [], 0)
  {
  }

  lemma StillThere(was: Block, now: Block, own: Block, f: nat)
    requires OverlaidSoFar(was, now, own, f)
    ensures |now| == |was| && (f < |was| ==> now[f] == was[f])
  {
  }

  lemma OverlayGrows(was: Block, now: Block, own: Block, f: nat, frame: Frame)
    requires OverlaidSoFar(was, now, own, f) && f < |was| && |frame| <= |was[f]|
    ensures OverlaidSoFar(was, now[f := frame + was[f][|frame|..]], own + [frame], f + 1)
  {
  }

  lemma OverlayEnds(was: Block, now: Block, own: Block)
    requires OverlaidSoFar(was, now, own, |was|)
    ensures LeavesOver(was, now, own)
  {
    assert now == Overlaid(was, own);
  }

  // ---- Nodes that stand still ---------------------------------------------------------------------

  /** The step keeps its state and is silent. */
  ghost predicate Idle(step: FrameStep, s: NodeState, ins: seq<Frame>, width: nat) {
    step(s, ins) == (s, Silence(width))
  }

  lemma {:induction false} NothingMoves(step: FrameStep, s: NodeState, inputs: seq<Block>, n: nat, width: nat)
    requires forall f :: 0 <= f < n ==> Idle(step, s, FrameInputs(inputs, f), width)
    ensures Streamed(step, s, inputs, n) == (s, Zeros(n, width))
    decreases n
  {
    if n == 0 {
      assert Zeros(0, width) == [];
    } else {
      NothingMoves(step, s, inputs, n - 1, width);
      assert Idle(step, s, FrameInputs(inputs, n - 1), width);
      assert Zeros(n, width) == Zeros(n - 1, width) + [Silence(width)];
    }
  }

  /** What a node of one or two channels does, cleared or overlaid, is what the compiler sees. */
  lemma ProcessIsTheStep(
    step: FrameStep, s: NodeState, input: Option<Block>, was: Block, now: Block, after: NodeState, idle: bool,
    channels: nat)
    requires HasWidth(was, channels) && StepWidth(step, channels) && (input.None? || was == [] ==> idle)
    requires idle ==> after == s && now == Zeros(|was|, channels)
    requires !idle ==>
               var own := Streamed(step, s, [input.value], |was|);
               after == own.0 && LeavesOver(was, now, own.1)
    requires idle ==> was == [] || Idle(step, s, [], channels)
    requires idle && input.Some? && was != [] ==> forall ins {:trigger step(s, ins)} :: Idle(step, s, ins, channels)
    ensures Streamed(step, s, if input.Some? then [input.value] else [], |was|) == (after, now)
  {
    var inputs := if input.Some? then [input.value] else [];
    if idle {
      forall f | 0 <= f < |was| ensures Idle(step, s, FrameInputs(inputs, f), channels) {
        if input.None? {
          assert FrameInputs(inputs, f) == [];
        }
      }
      NothingMoves(step, s, inputs, |was|, channels);
    } else {
      StreamedWidth(step, s, inputs, |was|, channels);
      OverlayIsWhole(was, Streamed(step, s, inputs, |was|).1, channels);
    }
  }
}
