/** Silence, and playing a recording into a view: the copying every source shares
    (include/lavanda/core/audio_buffer.h, src/lavanda/runtime/voice_pool.cc:398-414,
    src/lavanda/graph/nodes/audio_asset_source_node.cc:27-40). */
module Blocks {
  import opened Prelude
  import opened Signals

  function Silence(width: nat): Frame {
    seq(width, _ => 0.0)
  }

  function Zeros(n: nat, width: nat): Block {
    seq(n, _ => Silence(width))
  }

  /** n frames of a recording from a position on: its samples, then silence. */
  function Played(samples: Block, position: nat, n: nat, width: nat): Block
    requires position <= |samples|
  {
    var copied := Min(n, |samples| - position);
    samples[position..position + copied] + Zeros(n - copied, width)
  }

  /** Writes one frame behind those already in the window. */
  method PutFrame(data: array<Frame>, offset: nat, at: nat, frame: Frame)
    requires offset + at < data.Length
    modifies data
    ensures data[offset..offset + at + 1] == old(data[offset..offset + at]) + [frame]
  {
    data[offset + at] := frame;
  }

  /** The copy loop and the silence loop behind it. */
  method CopyThenClear(samples: Block, position: nat, output: AudioBufferView)
    requires position <= |samples| && output.offset + output.frameCount <= output.data.Length
    modifies output.data
    ensures output.Content() == Played(samples, position, output.frameCount, output.channels)
  {
    var copyFrames := Min(output.frameCount, |samples| - position);
    var data, offset := output.data, output.offset;
    for frame := 0 to copyFrames
      invariant data[offset..offset + frame] == samples[position..position + frame]
    {
      SliceGrows(samples, position, position + frame);
      PutFrame(data, offset, frame, samples[position + frame]);
    }
    ghost var played := data[offset..offset + copyFrames];
    assert played == played + Zeros(0, output.channels);
    for frame := copyFrames to output.frameCount
      invariant data[offset..offset + frame] == played + Zeros(frame - copyFrames, output.channels)
    {
      SilenceGrows(played, frame - copyFrames, output.channels);
      PutFrame(data, offset, frame, Silence(output.channels));
    }
  }

  lemma SliceGrows(samples: Block, from: nat, to: nat)
    requires from <= to < |samples|
    ensures samples[from..to + 1] == samples[from..to] + [samples[to]]
  {
  }

  lemma SilenceGrows(played: Block, n: nat, width: nat)
    ensures played + Zeros(n + 1, width) == (played + Zeros(n, width)) + [Silence(width)]
  {
  }

  lemma PlayedGrows(samples: Block, position: nat, n: nat, width: nat)
    requires position <= |samples|
    ensures Played(samples, position, n + 1, width) ==
            Played(samples, position, n, width) +
            [if position + n < |samples| then samples[position + n] else Silence(width)]
  {
    if position + n < |samples| {
      SliceGrows(samples, position, position + n);
      assert Played(samples, position, n, width) == samples[position..position + n];
      assert Played(samples, position, n + 1, width) == samples[position..position + n + 1];
    } else {
      SilenceGrows(samples[position..], position + n - |samples|, width);
    }
  }

  method Clear(output: AudioBufferView)
    requires output.offset + output.frameCount <= output.data.Length
    modifies output.data
    ensures output.Content() == Zeros(output.frameCount, output.channels)
  {
    for frame := 0 to output.frameCount
      invariant output.data[output.offset..output.offset + frame] == Zeros(frame, output.channels)
    {
      PutFrame(output.data, output.offset, frame, Silence(output.channels));
    }
  }
}
