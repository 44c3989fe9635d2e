/** The asset source and the mixer (src/lavanda/graph/nodes/audio_asset_source_node.cc,
    src/lavanda/graph/nodes/mixer_node.cc). */
module SourceNodes {
  import opened Prelude
  import opened Signals
  import opened Blocks
  import opened MixerMath
  import opened GraphSplitting
  import opened StreamNodes

  // ---- The asset source -------------------------------------------------------------------------

  /** One frame of playback: the node's channels of the asset, silence at the end, and nothing
      without an asset that has them. */
  function PlayFrame(channels: nat, s: NodeState): (NodeState, Frame) {
    if !CanPlay(channels, s) then (s, Silence(channels))
    else
      var start := Min(s.position, |s.asset.value.samples|);
      if start < |s.asset.value.samples|
      then (s.(position := start + 1), Channels(s.asset.value.samples[start], channels))
      else (s.(position := start), Silence(channels))
  }

  predicate CanPlay(channels: nat, s: NodeState) {
    s.AssetCursor? && s.asset.Some? && channels <= s.asset.value.channels
  }

  function PlayStep(channels: nat): FrameStep {
    (s, ins) => PlayFrame(channels, s)
  }

  function AssetSourceNode(id: AssetId, channels: nat): AudioNode {
    StreamNode(0, channels, 0, Some(id), AssetCursor(None, 0), (asset: AudioAsset) => AssetCursor(Some(asset), 0),
               _ => PlayStep(channels))
  }

  lemma AssetSourcesSplit(id: AssetId, channels: nat)
    ensures AssetSourceNode(id, channels).WellBehaved() && Splits(AssetSourceNode(id, channels))
  {
    StreamNodesSplit(0, channels, 0, Some(id), AssetCursor(None, 0), (asset: AudioAsset) => AssetCursor(Some(asset), 0),
                     _ => PlayStep(channels));
  }

  /** Playing frame by frame is copying samples and then clearing, and the cursor stops at the end
      of the asset. */
  lemma {:induction false} PlayingCopies(channels: nat, s: NodeState, n: nat)
    requires CanPlay(channels, s) && s.position <= |s.asset.value.samples|
    ensures
      var samples := FirstChannels(s.asset.value.samples, channels);
      Streamed(PlayStep(channels), s, [], n) ==
      (s.(position := s.position + Min(n, |samples| - s.position)), Played(samples, s.position, n, channels))
    decreases n
  {
    var samples := FirstChannels(s.asset.value.samples, channels);
    if n == 0 {
      assert Played(samples, s.position, 0, channels) == [];
    } else {
      PlayingCopies(channels, s, n - 1);
      var before := s.(position := s.position + Min(n - 1, |samples| - s.position));
      PlayedGrows(samples, s.position, n - 1, channels);
    }
  }

  /** So many channels of every frame. */
  function FirstChannels(samples: Block, channels: nat): (first: Block)
    ensures |first| == |samples|
  {
    seq(|samples|, f requires 0 <= f < |samples| => Channels(samples[f], channels))
  }

  class AudioAssetSourceNode {
    const channels: nat
    var asset: Option<AudioAsset>
    var position: nat

    function State(): NodeState
      reads this
    {
      AssetCursor(asset, position)
    }

    ghost predicate Valid()
      reads this
    {
      asset.Some? ==> HasWidth(asset.value.samples, asset.value.channels) && position <= |asset.value.samples|
    }

    constructor (channels: nat)
      ensures Valid() && this.channels == channels && State() == AssetCursor(None, 0)
    {
      this.channels, asset, position := channels, None, 0;
    }

    method BindAsset(bound: Option<AudioAsset>)
      requires bound.Some? ==> HasWidth(bound.value.samples, bound.value.channels)
      modifies this
      ensures Valid() && State() == AssetCursor(bound, 0)
    {
      asset, position := bound, 0;
    }

    /** Without an asset, or with an output that is empty or of another width, the output is cleared
        and the cursor stands still; otherwise the asset plays. The channels it reads have to be
        there. */
    method Process(output: AudioBufferView)
      requires Valid() && output.Valid()
      requires asset.Some? && output.channels == channels ==> channels <= asset.value.channels
      modifies this`position, output.data
      ensures Valid()
      ensures asset.None? || output.Empty() || output.channels != channels ==>
                State() == old(State()) && output.Content() == Zeros(output.frameCount, output.channels)
      ensures output.channels == channels > 0 ==>
                (State(), output.Content()) == Streamed(PlayStep(channels), old(State()), [], output.frameCount)
    {
      if asset.None? || output.Empty() || output.channels != channels {
        Clear(output);
        if asset.None? {
          NothingMoves(PlayStep(channels), State(), [], output.frameCount, channels);
        }
        return;
      }
      PlayingCopies(channels, State(), output.frameCount);
      var samples := FirstChannels(asset.value.samples, channels);
      var start := Min(position, |samples|);
      CopyThenClear(samples, start, output);
      position := start + Min(output.frameCount, |samples| - start);
    }
  }

  // ---- The mixer --------------------------------------------------------------------------------

  /** The sum of the first k inputs' frames. */
  function SumFrame(channels: nat, ins: seq<Frame>, k: nat): (sum: Frame)
    requires k <= |ins|
    ensures |sum| == channels
  {
    if k == 0 then Silence(channels) else MixFrame(SumFrame(channels, ins, k - 1), Channels(ins[k - 1], channels), 1.0)
  }

  function MixStep(channels: nat, inputCount: nat): FrameStep {
    (s, ins: seq<Frame>) => (s, SumFrame(channels, ins, Min(|ins|, inputCount)))
  }

  function MixerNode(channels: nat, inputCount: nat): AudioNode {
    StreamNode(channels, channels, Min(inputCount, MAX_NODE_INPUTS), None, Stateless, _ => Stateless,
               _ => MixStep(channels, Min(inputCount, MAX_NODE_INPUTS)))
  }

  lemma MixersSplit(channels: nat, inputCount: nat)
    ensures MixerNode(channels, inputCount).WellBehaved() && Splits(MixerNode(channels, inputCount))
  {
    StreamNodesSplit(channels, channels, Min(inputCount, MAX_NODE_INPUTS), None, Stateless, _ => Stateless,
                     _ => MixStep(channels, Min(inputCount, MAX_NODE_INPUTS)));
  }

  lemma {:induction false} MixingSums(channels: nat, inputCount: nat, inputs: seq<Block>, n: nat)
    ensures
      var (after, block) := Streamed(MixStep(channels, inputCount), Stateless, inputs, n);
      && after == Stateless
      && forall f :: 0 <= f < n ==> block[f] == SumFrame(channels, FrameInputs(inputs, f), Min(|inputs|, inputCount))
  {
    hide SumFrame;
    if n > 0 {
      MixingSums(channels, inputCount, inputs, n - 1);
    }
  }

  ghost predicate InputsFit(inputs: seq<AudioBufferView>, output: AudioBufferView)
    reads set i | 0 <= i < |inputs| :: inputs[i].data
  {
    forall i :: 0 <= i < |inputs| ==>
      && inputs[i].Valid() && inputs[i].channels == output.channels && inputs[i].frameCount == output.frameCount
  }

  /** The blocks seen through the views. */
  ghost predicate AreContents(blocks: seq<Block>, inputs: seq<AudioBufferView>)
    reads set i | 0 <= i < |inputs| :: inputs[i].data
  {
    && |blocks| == |inputs|
    && forall i :: 0 <= i < |inputs| ==>
         inputs[i].offset + inputs[i].frameCount <= inputs[i].data.Length && blocks[i] == inputs[i].Content()
  }

  ghost predicate Summed(content: Block, channels: nat, blocks: seq<Block>, k: nat)
    requires k <= |blocks|
  {
    forall f :: 0 <= f < |content| ==> content[f] == SumFrame(channels, FrameInputs(blocks, f), k)
  }

  lemma NextSummed(was: Block, now: Block, channels: nat, blocks: seq<Block>, k: nat)
    requires k < |blocks| && Summed(was, channels, blocks, k) && |now| == |was| == |blocks[k]|
    requires HasWidth(blocks[k], channels)
    requires forall f :: 0 <= f < |now| ==> |was[f]| == channels && now[f] == MixFrame(was[f], blocks[k][f], 1.0)
    ensures Summed(now, channels, blocks, k + 1)
  {
    hide MixFrame;
    forall f | 0 <= f < |now| ensures now[f] == SumFrame(channels, FrameInputs(blocks, f), k + 1) {
      assert FrameInputs(blocks, f)[k] == blocks[k][f];
      assert Channels(blocks[k][f], channels) == blocks[k][f];
    }
  }

  /** Clears the output and adds the inputs to it, one after the other. An input that shared the
      output's buffer would be lost to the clearing. */
  method ProcessMixer(
    channels: nat, inputCount: nat, inputs: seq<AudioBufferView>, output: AudioBufferView, ghost blocks: seq<Block>)
    requires output.Valid() && output.channels == channels > 0 && InputsFit(inputs, output) && AreContents(blocks, inputs)
    requires forall i :: 0 <= i < |inputs| ==> inputs[i].data != output.data
    modifies output.data
    ensures output.Content() == Streamed(MixStep(channels, inputCount), Stateless, blocks, output.frameCount).1
  {
    hide MixFrame, SumFrame;
    Clear(output);
    NothingSummed(channels, blocks, output.frameCount);
    var count := Min(|inputs|, inputCount);
    for i := 0 to count
      invariant output.Valid() && InputsFit(inputs, output) && AreContents(blocks, inputs)
      invariant Summed(output.Content(), channels, blocks, i)
    {
      ghost var was := output.Content();
      AccumulateInto(output, inputs[i].data[inputs[i].offset..inputs[i].offset + inputs[i].frameCount], 1.0);
      forall f | 0 <= f < output.frameCount ensures output.Content()[f] == MixFrame(was[f], blocks[i][f], 1.0) {
        assert output.Content()[f] == output.data[output.offset + f];
      }
      NextSummed(was, output.Content(), channels, blocks, i);
    }
    MixingSums(channels, inputCount, blocks, output.frameCount);
  }

  lemma NothingSummed(channels: nat, blocks: seq<Block>, n: nat)
    ensures Summed(Zeros(n, channels), channels, blocks, 0)
  {
  }
}
