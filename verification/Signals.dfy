/** Samples, blocks, assets and the node contract that the graph compiler works with
    (include/lavanda/graph/node.h, include/lavanda/resources/audio_asset.h). Samples are exact
    reals. */
module Signals {
  import opened Prelude

  /** One sample per channel. */
  type Frame = seq<real>

  /** Consecutive frames, as seen through an AudioBufferView. */
  type Block = seq<Frame>

  datatype AssetId = AssetId(index: nat, generation: nat)

  datatype AudioAsset = AudioAsset(sampleRate: nat, channels: nat, samples: Block)

  /** kMaxAssetSampleRateHz. */
  const MAX_ASSET_RATE: nat := 768000

  /** What a node keeps between two calls of Process: its memory and the parameters commands can
      set. */
  datatype NodeState =
    | Stateless
    | DelayLine(cells: Block, writeIndex: nat, delay: nat)
    | LowPassMemory(previousOutput: Frame, cutoff: real)
    | HighPassMemory(previousInput: Frame, previousOutput: Frame, cutoff: real)
    | AssetCursor(asset: Option<AudioAsset>, position: nat)
    | GainSetting(gain: real)
    | OscillatorMemory(phase: real, frequency: real, level: real)
    | PanSetting(pan: real)
    | OtherMemory(values: seq<real>)

  datatype ProcessContext = ProcessContext(frameCount: nat, sampleRate: real, clockFrame: nat)

  const MAX_NODE_INPUTS: nat := 8

  /** A node of the graph: its shape, the state a clone starts from, the state a clone has after
      an asset is bound to it, and its Process function. The inputs are passed as values: a plan
      never hands a node one buffer as both an input and the output (GraphCompiler proves it), so
      Process sees all its input as it was before it writes. */
  datatype AudioNode = AudioNode(
    inputChannels: nat,
    outputChannels: nat,
    expectedInputs: nat,
    requiredAsset: Option<AssetId>,
    initial: NodeState,
    bind: AudioAsset -> NodeState,
    process: (NodeState, seq<Block>, ProcessContext) -> (NodeState, Block))
  {
    /** The contract every node implementation has to meet: Process overwrites its whole output
        view. */
    ghost predicate WellBehaved() {
      && expectedInputs <= MAX_NODE_INPUTS
      && forall s, ins, c ::
           && |process(s, ins, c).1| == c.frameCount
           && forall f :: 0 <= f < c.frameCount ==> |process(s, ins, c).1[f]| == outputChannels
    }
  }

  /** A window of frames inside a buffer: AudioBufferView (include/lavanda/core/audio_buffer.h). A
      view that was empty in the first place (no data) is one with no frames. */
  datatype AudioBufferView = AudioBufferView(data: array<Frame>, offset: nat, frameCount: nat, channels: nat)
  {
    ghost predicate Valid()
      reads data
    {
      && offset + frameCount <= data.Length
      && forall f :: offset <= f < offset + frameCount ==> |data[f]| == channels
    }

    ghost function Content(): Block
      requires offset + frameCount <= data.Length
      reads data
    {
      data[offset..offset + frameCount]
    }

    predicate Empty() {
      frameCount == 0 || channels == 0
    }

    function SubView(frameOffset: nat, count: nat): AudioBufferView {
      if frameOffset >= frameCount then AudioBufferView(data, offset, 0, 0)
      else AudioBufferView(data, offset + frameOffset, Min(count, frameCount - frameOffset), channels)
    }
  }

  ghost predicate HasWidth(block: Block, channels: nat) {
    forall f :: 0 <= f < |block| ==> |block[f]| == channels
  }

  /** Nothing outside the view has changed. */
  ghost predicate SameElsewhere(view: AudioBufferView, before: Block, after: Block) {
    && |before| == |after|
    && forall k :: 0 <= k < |before| && !(view.offset <= k < view.offset + view.frameCount) ==> after[k] == before[k]
  }
}
