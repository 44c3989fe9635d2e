/** What one voice plays (src/lavanda/runtime/voice_pool.cc:381-552,
    src/lavanda/spatial/spatial_oscillator.cc): the block loops, proved equal to playing one frame
    at a time. */
module VoiceRendering {
  import opened Prelude
  import opened Signals
  import opened Blocks
  import opened Handles
  import opened Ramps
  import opened MixerMath
  import opened VoiceSlots

  datatype SpatialTarget = SpatialTarget(left: real, right: real, ratio: real)

  /** What rendering depends on besides the voices: the device rate, the smoothing time and the
      geometry (src/lavanda/spatial/spatial_math.cc), of which only the Doppler clamp is used. */
  datatype Acoustics = Acoustics(trig: Trig, rate: real, smoothing: nat, spatialTarget: (Place, Place) -> SpatialTarget)
  {
    ghost predicate Clamped() {
      forall listener, emitter :: Within(spatialTarget(listener, emitter).ratio, 0.5, 2.0)
    }
  }

  /** A voice renders into the stereo scratch buffer if its source is stereo, else into the mono
      one. */
  function SourceWidth(slot: AudioSlot): nat {
    if SourceChannels(slot) == 2 then 2 else 1
  }

  function Ended(slot: AudioSlot): AudioSlot {
    slot.(state := Stopped, position := 0, cursor := if IsSpatial(slot) then 0.0 else slot.cursor)
  }

  predicate IsSpatial(slot: AudioSlot) {
    SourceChannels(slot) != 2 && slot.spatialized
  }

  predicate Sounding(slot: AudioSlot, ac: Acoustics) {
    slot.state == Playing && ac.rate > 0.0
  }

  predicate HasUsableAsset(slot: AudioSlot) {
    slot.asset.Some? && slot.asset.value.channels == SourceWidth(slot)
  }

  function PhaseStep(frequency: real, ac: Acoustics): real
    requires ac.rate > 0.0
  {
    2.0 * ac.trig.pi * frequency / ac.rate
  }

  /** The Doppler-shifted frequency of a tone, stopping at the Nyquist limit. */
  function ShiftedFrequency(slot: AudioSlot, frame: nat, ac: Acoustics): real {
    var base, nyquist := slot.frequency * slot.ratio.ValueAt(frame), 0.5 * ac.rate;
    if nyquist < base then nyquist else base
  }

  // ---- One frame ------------------------------------------------------------------------------

  function PlainFrame(slot: AudioSlot, ac: Acoustics): (AudioSlot, Frame) {
    if !Sounding(slot, ac) then (slot, Silence(SourceWidth(slot)))
    else if slot.backing.None? then
      (slot.(phase := slot.phase + PhaseStep(slot.frequency, ac)), [ac.trig.sin(slot.phase)])
    else if !HasUsableAsset(slot) then (slot, Silence(SourceWidth(slot)))
    else
      var frame := if slot.position < Length(slot) then slot.asset.value.samples[slot.position]
                   else Silence(SourceWidth(slot));
      (if slot.position + 1 >= Length(slot) then Ended(slot) else slot.(position := slot.position + 1), frame)
  }

  function Interpolate(asset: AudioAsset, cursor: real): real
    requires 0.0 <= cursor < |asset.samples| as real && HasWidth(asset.samples, 1)
  {
    var whole := cursor.Floor;
    var current := asset.samples[whole][0];
    var next := if whole + 1 < |asset.samples| then asset.samples[whole + 1][0] else 0.0;
    current + (next - current) * (cursor - whole as real)
  }

  /** The Doppler-shifted source. */
  ghost function SpatialFrame(slot: AudioSlot, frame: nat, ac: Acoustics): (AudioSlot, Frame)
    requires SlotFits(slot)
  {
    if !Sounding(slot, ac) then (slot, [0.0])
    else if slot.backing.None? then
      (slot.(phase := slot.phase + PhaseStep(ShiftedFrequency(slot, frame, ac), ac)), [ac.trig.sin(slot.phase)])
    else if slot.asset.None? || slot.asset.value.channels != 1 then (slot, [0.0])
    else if slot.cursor >= Length(slot) as real then (Ended(slot), [0.0])
    else
      var next := slot.cursor + slot.ratio.ValueAt(frame);
      (if next >= Length(slot) as real then Ended(slot) else slot.(cursor := next),
       [Interpolate(slot.asset.value, slot.cursor)])
  }

  ghost function VoiceFrame(slot: AudioSlot, frame: nat, ac: Acoustics): (r: (AudioSlot, Frame))
    requires SlotFits(slot)
    ensures SlotFits(r.0) && |r.1| == SourceWidth(slot)
  {
    if IsSpatial(slot) then
      ValueStaysBetween(slot.ratio, frame, 0.5, 2.0);
      SpatialFrame(slot, frame, ac)
    else PlainFrame(slot, ac)
  }

  /** Frame after frame. */
  ghost function VoiceFrames(slot: AudioSlot, start: nat, n: nat, ac: Acoustics): (r: (AudioSlot, Block))
    requires SlotFits(slot)
    ensures SlotFits(r.0) && |r.1| == n
    decreases n
  {
    if n == 0 then (slot, [])
    else
      var (before, block) := VoiceFrames(slot, start, n - 1, ac);
      var (after, frame) := VoiceFrame(before, start + n - 1, ac);
      (after, block + [frame])
  }

  lemma {:induction false} FramesCompose(slot: AudioSlot, start: nat, n: nat, k: nat, ac: Acoustics)
    requires SlotFits(slot)
    ensures
      var (middle, first) := VoiceFrames(slot, start, n, ac);
      var (end, second) := VoiceFrames(middle, start + n, k, ac);
      VoiceFrames(slot, start, n + k, ac) == (end, first + second)
    decreases k
  {
    hide VoiceFrame, SlotFits;
    var (middle, first) := VoiceFrames(slot, start, n, ac);
    if k == 0 {
      assert first + [] == first;
    } else {
      FramesCompose(slot, start, n, k - 1, ac);
      var (before, second) := VoiceFrames(middle, start + n, k - 1, ac);
      var (after, frame) := VoiceFrame(before, start + n + k - 1, ac);
      assert first + (second + [frame]) == (first + second) + [frame];
    }
  }

  // ---- Blocks -----------------------------------------------------------------------------------

  function FromPosition(slot: AudioSlot, n: nat): Block
    requires slot.asset.Some? && slot.position <= Length(slot)
  {
    Played(slot.asset.value.samples, slot.position, n, SourceWidth(slot))
  }

  /** An asset played from its position: its samples in order, then silence; the voice stops with
      the block in which the asset ends. */
  lemma {:induction false} AssetFrames(slot: AudioSlot, start: nat, n: nat, ac: Acoustics)
    requires SlotFits(slot) && Sounding(slot, ac) && slot.backing.Some? && HasUsableAsset(slot) && !IsSpatial(slot)
    ensures
      VoiceFrames(slot, start, n, ac) ==
      (if n > 0 && slot.position + n >= Length(slot) then Ended(slot) else slot.(position := slot.position + n),
       FromPosition(slot, n))
    decreases n
  {
    hide VoiceFrame, RampWithin, IsSpatial, Sounding, SourceWidth, Ended;
    if n == 0 {
      assert FromPosition(slot, 0) == [];
    } else {
      hide FromPosition, SlotFits, HasUsableAsset;
      AssetFrames(slot, start, n - 1, ac);
      var (before, block) := VoiceFrames(slot, start, n - 1, ac);
      AssetNext(slot, n - 1, before, start + n - 1, ac);
    }
  }

  lemma AssetNext(slot: AudioSlot, n: nat, before: AudioSlot, frame: nat, ac: Acoustics)
    requires SlotFits(slot) && Sounding(slot, ac) && slot.backing.Some? && HasUsableAsset(slot) && !IsSpatial(slot)
    requires before ==
             if n > 0 && slot.position + n >= Length(slot) then Ended(slot) else slot.(position := slot.position + n)
    ensures SlotFits(before)
    ensures
      var (after, sample) := VoiceFrame(before, frame, ac);
      && after ==
         (if slot.position + n + 1 >= Length(slot) then Ended(slot) else slot.(position := slot.position + n + 1))
      && FromPosition(slot, n + 1) == FromPosition(slot, n) + [sample]
  {
    hide RampWithin, Clamp, Played;
    PlayedGrows(slot.asset.value.samples, slot.position, n, SourceWidth(slot));
    var (_, sample) := VoiceFrame(before, frame, ac);
    assert sample == if slot.position + n < Length(slot) then slot.asset.value.samples[slot.position + n]
                     else Silence(SourceWidth(slot));
  }

  method RenderAssetSource(slot: AudioSlot, output: AudioBufferView, ghost start: nat, ac: Acoustics)
    returns (after: AudioSlot)
    requires SlotFits(slot) && Sounding(slot, ac) && slot.backing.Some? && !IsSpatial(slot)
    requires output.offset + output.frameCount <= output.data.Length && output.channels == SourceWidth(slot)
    requires output.frameCount > 0
    modifies output.data
    ensures after == VoiceFrames(slot, start, output.frameCount, ac).0
    ensures output.Content() == VoiceFrames(slot, start, output.frameCount, ac).1
  {
    hide VoiceFrames, VoiceFrame, RampWithin;
    if !HasUsableAsset(slot) {
      Clear(output);
      IdleFrames(slot, start, output.frameCount, ac);
      return slot;
    }
    var total := Length(slot);
    CopyThenClear(slot.asset.value.samples, slot.position, output);
    after := slot.(position := slot.position + Min(output.frameCount, total - slot.position));
    if after.position >= total {
      after := Ended(after);
    }
    AssetFrames(slot, start, output.frameCount, ac);
  }

  /** A voice that cannot sound stays as it is and is silent. */
  lemma {:induction false} IdleFrames(slot: AudioSlot, start: nat, n: nat, ac: Acoustics)
    requires SlotFits(slot)
    requires !Sounding(slot, ac) || (slot.backing.Some? && !HasUsableAsset(slot))
    ensures VoiceFrames(slot, start, n, ac) == (slot, Zeros(n, SourceWidth(slot)))
    decreases n
  {
    hide RampWithin;
    if n == 0 {
      assert Zeros(0, SourceWidth(slot)) == [];
    } else {
      IdleFrames(slot, start, n - 1, ac);
      assert Silence(1) == [0.0];
      assert Zeros(n, SourceWidth(slot)) == Zeros(n - 1, SourceWidth(slot)) + [Silence(SourceWidth(slot))];
    }
  }

  method RenderAssetSourceSpatial(slot: AudioSlot, output: AudioBufferView, start: nat, ac: Acoustics)
    returns (after: AudioSlot)
    requires SlotFits(slot) && Sounding(slot, ac) && slot.backing.Some? && IsSpatial(slot)
    requires output.offset + output.frameCount <= output.data.Length && output.channels == 1 && output.frameCount > 0
    modifies output.data
    ensures after == VoiceFrames(slot, start, output.frameCount, ac).0
    ensures output.Content() == VoiceFrames(slot, start, output.frameCount, ac).1
  {
    hide VoiceFrames, VoiceFrame, SpatialSoFar, RampWithin;
    if slot.asset.None? || slot.asset.value.channels != 1 {
      Clear(output);
      IdleFrames(slot, start, output.frameCount, ac);
      return slot;
    }
    var data, offset := output.data, output.offset;
    var end := Length(slot) as real;
    var cursor := slot.cursor;
    var frame := 0;
    SpatialBegins(slot, start, ac);
    assert data[offset..offset + frame] == [];
    while frame < output.frameCount && cursor < end
      invariant frame <= output.frameCount && 0.0 <= cursor
      invariant SpatialSoFar(slot, start, frame, ac, cursor, data[offset..offset + frame])
    {
      SpatialGoesOn(slot, start, frame, ac, cursor, data[offset..offset + frame]);
      PutFrame(data, offset, frame, [Interpolate(slot.asset.value, cursor)]);
      cursor := cursor + slot.ratio.ValueAt(start + frame);
      frame := frame + 1;
    }
    while frame < output.frameCount
      invariant frame <= output.frameCount && (frame < output.frameCount ==> cursor >= end)
      invariant SpatialSoFar(slot, start, frame, ac, cursor, data[offset..offset + frame])
    {
      SpatialIsOver(slot, start, frame, ac, cursor, data[offset..offset + frame]);
      PutFrame(data, offset, frame, [0.0]);
      frame := frame + 1;
    }
    SpatialEnds(slot, start, frame, ac, cursor, data[offset..offset + frame]);
    after := slot.(cursor := cursor);
    if cursor >= end {
      after := Ended(after);
    }
  }

  /** The loop's cursor and output after some frames; past the end the voice has ended. */
  ghost predicate SpatialSoFar(slot: AudioSlot, start: nat, n: nat, ac: Acoustics, cursor: real, block: Block)
    requires SlotFits(slot)
  {
    && VoiceFrames(slot, start, n, ac).1 == block
    && VoiceFrames(slot, start, n, ac).0 ==
       if n > 0 && cursor >= Length(slot) as real then Ended(slot) else slot.(cursor := cursor)
  }

  lemma SpatialGoesOn(slot: AudioSlot, start: nat, n: nat, ac: Acoustics, cursor: real, block: Block)
    requires SlotFits(slot) && Sounding(slot, ac) && slot.backing.Some? && IsSpatial(slot)
    requires slot.asset.Some? && slot.asset.value.channels == 1
    requires SpatialSoFar(slot, start, n, ac, cursor, block) && 0.0 <= cursor < Length(slot) as real
    ensures SpatialSoFar(slot, start, n + 1, ac, cursor + slot.ratio.ValueAt(start + n),
                         block + [[Interpolate(slot.asset.value, cursor)]])
    ensures slot.ratio.ValueAt(start + n) >= 0.5
  {
    ValueStaysBetween(slot.ratio, start + n, 0.5, 2.0);
  }

  lemma SpatialBegins(slot: AudioSlot, start: nat, ac: Acoustics)
    requires SlotFits(slot)
    ensures SpatialSoFar(slot, start, 0, ac, slot.cursor, [])
  {
  }

  lemma SpatialIsOver(slot: AudioSlot, start: nat, n: nat, ac: Acoustics, cursor: real, block: Block)
    requires SlotFits(slot) && Sounding(slot, ac) && slot.backing.Some? && IsSpatial(slot)
    requires slot.asset.Some? && slot.asset.value.channels == 1
    requires SpatialSoFar(slot, start, n, ac, cursor, block) && cursor >= Length(slot) as real
    ensures SpatialSoFar(slot, start, n + 1, ac, cursor, block + [[0.0]])
  {
    ValueStaysBetween(slot.ratio, start + n, 0.5, 2.0);
  }

  lemma SpatialEnds(slot: AudioSlot, start: nat, n: nat, ac: Acoustics, cursor: real, block: Block)
    requires SlotFits(slot) && SpatialSoFar(slot, start, n, ac, cursor, block) && n > 0
    ensures VoiceFrames(slot, start, n, ac).1 == block
    ensures VoiceFrames(slot, start, n, ac).0 ==
            if cursor >= Length(slot) as real then Ended(slot) else slot.(cursor := cursor)
  {
  }

  // ---- Tones, and the choice between the sources --------------------------------------------------

  /** One more frame of a tone. */
  lemma ToneGoesOn(slot: AudioSlot, start: nat, n: nat, ac: Acoustics, phase: real, block: Block)
    requires SlotFits(slot) && Sounding(slot, ac) && slot.backing.None?
    requires VoiceFrames(slot, start, n, ac) == (slot.(phase := phase), block)
    ensures
      var step := PhaseStep(if IsSpatial(slot) then ShiftedFrequency(slot, start + n, ac) else slot.frequency, ac);
      VoiceFrames(slot, start, n + 1, ac) == (slot.(phase := phase + step), block + [[ac.trig.sin(phase)]])
  {
    hide PhaseStep, ShiftedFrequency, RampWithin;
    assert slot.(phase := phase).frequency == slot.frequency && slot.(phase := phase).ratio == slot.ratio;
    assert ShiftedFrequency(slot.(phase := phase), start + n, ac) == ShiftedFrequency(slot, start + n, ac) by {
      SameShift(slot, phase, start + n, ac);
    }
  }

  lemma SameShift(slot: AudioSlot, phase: real, frame: nat, ac: Acoustics)
    ensures ShiftedFrequency(slot.(phase := phase), frame, ac) == ShiftedFrequency(slot, frame, ac)
  {
  }

  lemma NoFrames(slot: AudioSlot, start: nat, ac: Acoustics)
    requires SlotFits(slot)
    ensures VoiceFrames(slot, start, 0, ac) == (slot, [])
  {
  }

  method RenderTone(slot: AudioSlot, output: AudioBufferView, ghost start: nat, ac: Acoustics) returns (after: AudioSlot)
    requires SlotFits(slot) && Sounding(slot, ac) && slot.backing.None? && !IsSpatial(slot)
    requires output.offset + output.frameCount <= output.data.Length && output.channels == 1
    modifies output.data
    ensures after == VoiceFrames(slot, start, output.frameCount, ac).0
    ensures output.Content() == VoiceFrames(slot, start, output.frameCount, ac).1
  {
    hide PhaseStep, VoiceFrames, SlotFits;
    var increment := PhaseStep(slot.frequency, ac);
    after := slot;
    NoFrames(slot, start, ac);
    assert output.data[output.offset..output.offset + 0] == [];
    for frame := 0 to output.frameCount
      invariant after == slot.(phase := after.phase)
      invariant VoiceFrames(slot, start, frame, ac) == (after, output.data[output.offset..output.offset + frame])
    {
      ToneGoesOn(slot, start, frame, ac, after.phase, output.data[output.offset..output.offset + frame]);
      PutFrame(output.data, output.offset, frame, [ac.trig.sin(after.phase)]);
      after := after.(phase := after.phase + increment);
    }
  }

  method RenderDopplerSine(slot: AudioSlot, output: AudioBufferView, start: nat, ac: Acoustics) returns (after: AudioSlot)
    requires SlotFits(slot) && Sounding(slot, ac) && slot.backing.None? && IsSpatial(slot)
    requires output.offset + output.frameCount <= output.data.Length && output.channels == 1
    modifies output.data
    ensures after == VoiceFrames(slot, start, output.frameCount, ac).0
    ensures output.Content() == VoiceFrames(slot, start, output.frameCount, ac).1
  {
    hide PhaseStep, ShiftedFrequency, VoiceFrames, SlotFits;
    after := slot;
    NoFrames(slot, start, ac);
    assert output.data[output.offset..output.offset + 0] == [];
    for frame := 0 to output.frameCount
      invariant after == slot.(phase := after.phase)
      invariant VoiceFrames(slot, start, frame, ac) == (after, output.data[output.offset..output.offset + frame])
    {
      ToneGoesOn(slot, start, frame, ac, after.phase, output.data[output.offset..output.offset + frame]);
      var frequency := ShiftedFrequency(slot, start + frame, ac);
      PutFrame(output.data, output.offset, frame, [ac.trig.sin(after.phase)]);
      after := after.(phase := after.phase + PhaseStep(frequency, ac));
    }
  }

  /** RenderVoiceSource and RenderVoiceSourceSpatial: the block they write and the slot they leave
      are those of playing frame after frame. */
  method RenderSource(slot: AudioSlot, output: AudioBufferView, start: nat, ac: Acoustics) returns (after: AudioSlot)
    requires SlotFits(slot) && output.channels == SourceWidth(slot)
    requires output.offset + output.frameCount <= output.data.Length
    modifies output.data
    ensures after == VoiceFrames(slot, start, output.frameCount, ac).0
    ensures output.Content() == VoiceFrames(slot, start, output.frameCount, ac).1
  {
    hide VoiceFrames, RampWithin;
    if output.frameCount == 0 {
      NoFrames(slot, start, ac);
      return slot;
    }
    if !Sounding(slot, ac) {
      Clear(output);
      IdleFrames(slot, start, output.frameCount, ac);
      return slot;
    }
    if slot.backing.Some? {
      if IsSpatial(slot) {
        after := RenderAssetSourceSpatial(slot, output, start, ac);
      } else {
        after := RenderAssetSource(slot, output, start, ac);
      }
    } else if IsSpatial(slot) {
      after := RenderDopplerSine(slot, output, start, ac);
    } else {
      after := RenderTone(slot, output, start, ac);
    }
  }
}
