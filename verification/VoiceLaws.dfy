/** What the voices play, sample by sample (src/lavanda/runtime/voice_pool.cc:381-552): a tone is a sine
    from its phase, an asset its samples in order, and a spatial voice the same at its Doppler
    ratio. */
module VoiceLaws {
  import opened Prelude
  import opened Signals
  import opened Blocks
  import opened Handles
  import opened Ramps
  import opened MixerMath
  import opened VoiceSlots
  import opened VoiceRendering
  import opened VoiceSegments

  /** n steps of so much. */
  function Steps(n: nat, step: real): real {
    n as real * step
  }

  lemma OneMoreStep(n: nat, step: real)
    ensures Steps(n + 1, step) == Steps(n, step) + step && Steps(0, step) == 0.0
  {
  }

  // ---- Tones ------------------------------------------------------------------------------------

  /** A tone's frames are a sine that goes on from the voice's phase by 2 pi frequency / rate a frame,
      where a spatial voice's frequency is shifted by its ratio, up to half the rate. */
  lemma {:induction false} ToneVoicePlays(
    slot: AudioSlot, start: nat, n: nat, ac: Acoustics, frequency: real, step: real)
    requires SlotFits(slot) && slot.state == Playing && ac.rate > 0.0 && slot.backing.None?
    requires forall f :: start <= f < start + n ==> PlaysAt(slot, f, ac, frequency)
    requires step == 2.0 * ac.trig.pi * frequency / ac.rate
    ensures
      var (after, block) := VoiceFrames(slot, start, n, ac);
      && after == slot.(phase := slot.phase + Steps(n, step))
      && forall f :: 0 <= f < n ==> block[f] == [ac.trig.sin(slot.phase + Steps(f, step))]
    decreases n
  {
    hide Steps, PlaysAt, PhaseStep, ShiftedFrequency, SlotFits, VoiceFrames, IsSpatial;
    if n == 0 {
      OneMoreStep(0, step);
      NoFrames(slot, start, ac);
    } else {
      ToneVoicePlays(slot, start, n - 1, ac, frequency, step);
      OneMoreStep(n - 1, step);
      var (before, block) := VoiceFrames(slot, start, n - 1, ac);
      var phase := slot.phase + Steps(n - 1, step);
      assert PlaysAt(slot, start + n - 1, ac, frequency);
      StepOfFrequency(slot, start + n - 1, ac, frequency, step);
      ToneGoesOn(slot, start, n - 1, ac, phase, block);
    }
  }

  /** The frequency a voice's tone has at a frame. */
  predicate PlaysAt(slot: AudioSlot, frame: nat, ac: Acoustics, frequency: real) {
    if slot.asset.None? && !slot.spatialized then frequency == slot.frequency
    else
      var shifted := slot.frequency * slot.ratio.ValueAt(frame);
      frequency == if ac.rate / 2.0 < shifted then ac.rate / 2.0 else shifted
  }

  lemma StepOfFrequency(slot: AudioSlot, frame: nat, ac: Acoustics, frequency: real, step: real)
    requires SlotFits(slot) && slot.backing.None? && ac.rate > 0.0 && PlaysAt(slot, frame, ac, frequency)
    requires step == 2.0 * ac.trig.pi * frequency / ac.rate
    ensures PhaseStep(if IsSpatial(slot) then ShiftedFrequency(slot, frame, ac) else slot.frequency, ac) == step
  {
    var played := if IsSpatial(slot) then ShiftedFrequency(slot, frame, ac) else slot.frequency;
    assert played == frequency;
    assert PhaseStep(played, ac) == PhaseStep(frequency, ac);
  }

  // ---- Assets -----------------------------------------------------------------------------------

  /** A playing asset that is not spatial: frame f is its sample f frames on, and silence behind its
      end; the voice stops when it gets there. */
  lemma AssetVoicePlays(slot: AudioSlot, start: nat, n: nat, ac: Acoustics)
    requires SlotFits(slot) && slot.state == Playing && ac.rate > 0.0 && slot.backing.Some? && slot.asset.Some?
    requires slot.asset.value.channels in {1, 2} && !(slot.spatialized && slot.asset.value.channels == 1)
    ensures
      var (after, block) := VoiceFrames(slot, start, n, ac);
      var samples := slot.asset.value.samples;
      && (forall f :: 0 <= f < n ==>
            block[f] == if slot.position + f < |samples| then samples[slot.position + f]
                        else seq(slot.asset.value.channels, _ => 0.0))
      && (n > 0 ==> (after.state == Stopped <==> slot.position + n >= |samples|))
      && (n > 0 ==> after.position == if slot.position + n >= |samples| then 0 else slot.position + n)
  {
    hide VoiceFrames, RampWithin;
    AssetFrames(slot, start, n, ac);
  }

  /** The value between two samples of a mono asset, weighted by how far the cursor is between them;
      behind the last sample, and from there on, there is silence. */
  function Weighed(asset: AudioAsset, cursor: real): real
    requires 0.0 <= cursor && HasWidth(asset.samples, 1)
  {
    var k := cursor.Floor;
    SampleAt(asset, k) * (k as real + 1.0 - cursor) + SampleAt(asset, k + 1) * (cursor - k as real)
  }

  function SampleAt(asset: AudioAsset, k: nat): real
    requires HasWidth(asset.samples, 1)
  {
    if k < |asset.samples| then asset.samples[k][0] else 0.0
  }

  lemma InterpolationWeighs(asset: AudioAsset, cursor: real)
    requires 0.0 <= cursor && HasWidth(asset.samples, 1)
    ensures Weighed(asset, cursor) ==
            if cursor < |asset.samples| as real then Interpolate(asset, cursor) else 0.0
  {
    var k := cursor.Floor;
    if cursor < |asset.samples| as real {
      var a, b, t := SampleAt(asset, k), SampleAt(asset, k + 1), cursor - k as real;
      assert a + (b - a) * t == a * (1.0 - t) + b * t;
    }
  }

  /** A spatial asset at a steady ratio: frame f is its value f ratios on from the cursor, and once
      past the end the voice stops. */
  lemma SpatialVoicePlays(slot: AudioSlot, start: nat, n: nat, ac: Acoustics, ratio: real)
    requires SlotFits(slot) && slot.state == Playing && ac.rate > 0.0 && slot.backing.Some? && slot.asset.Some?
    requires slot.spatialized && slot.asset.value.channels == 1 && slot.asset.value.samples != []
    requires ratio >= 0.0 && forall f :: start <= f < start + n ==> slot.ratio.ValueAt(f) == ratio
    ensures
      var (after, block) := VoiceFrames(slot, start, n, ac);
      && (after.state == Stopped <==> n > 0 && slot.cursor + Steps(n, ratio) >= |slot.asset.value.samples| as real)
      && (after.state != Stopped ==> after == slot.(cursor := slot.cursor + Steps(n, ratio)))
      && forall f :: 0 <= f < n ==>
           slot.cursor + Steps(f, ratio) >= 0.0
           && block[f] == [Weighed(slot.asset.value, slot.cursor + Steps(f, ratio))]
  {
    hide Steps, VoiceFrames, Weighed;
    SpatialSteps(slot, start, n, ac, ratio);
  }

  lemma {:induction false} SpatialSteps(slot: AudioSlot, start: nat, n: nat, ac: Acoustics, ratio: real)
    requires SlotFits(slot) && slot.state == Playing && ac.rate > 0.0 && slot.backing.Some? && slot.asset.Some?
    requires slot.spatialized && slot.asset.value.channels == 1 && slot.asset.value.samples != []
    requires ratio >= 0.0 && forall f :: start <= f < start + n ==> slot.ratio.ValueAt(f) == ratio
    ensures slot.cursor >= 0.0 && Steps(n, ratio) >= 0.0
    ensures
      var block := VoiceFrames(slot, start, n, ac).1;
      && SpatialSoFar(slot, start, n, ac, slot.cursor + Steps(n, ratio), block)
      && forall f :: 0 <= f < n ==>
           slot.cursor + Steps(f, ratio) >= 0.0
           && block[f] == [Weighed(slot.asset.value, slot.cursor + Steps(f, ratio))]
    decreases n
  {
    hide Steps, SpatialSoFar, Interpolate, VoiceFrames, Weighed, RampWithin, Ramp.ValueAt;
    StepsGrow(n, ratio);
    if n == 0 {
      OneMoreStep(0, ratio);
      SpatialBegins(slot, start, ac);
      NoFrames(slot, start, ac);
    } else {
      SpatialSteps(slot, start, n - 1, ac, ratio);
      OneMoreStep(n - 1, ratio);
      var cursor, block := slot.cursor + Steps(n - 1, ratio), VoiceFrames(slot, start, n - 1, ac).1;
      InterpolationWeighs(slot.asset.value, cursor);
      if cursor < Length(slot) as real {
        SpatialGoesOn(slot, start, n - 1, ac, cursor, block);
        BlockSoFar(slot, start, n, ac, cursor + ratio, block + [[Interpolate(slot.asset.value, cursor)]]);
      } else {
        SpatialIsOver(slot, start, n - 1, ac, cursor, block);
        StillOver(slot, start, n, ac, cursor, cursor + ratio, block + [[0.0]]);
      }
    }
  }

  lemma BlockSoFar(slot: AudioSlot, start: nat, n: nat, ac: Acoustics, cursor: real, block: Block)
    requires SlotFits(slot) && SpatialSoFar(slot, start, n, ac, cursor, block)
    ensures VoiceFrames(slot, start, n, ac).1 == block
  {
  }

  /** Behind the end it makes no difference how far. */
  lemma StillOver(slot: AudioSlot, start: nat, n: nat, ac: Acoustics, cursor: real, further: real, block: Block)
    requires SlotFits(slot) && SpatialSoFar(slot, start, n, ac, cursor, block)
    requires n > 0 && Length(slot) as real <= cursor <= further
    ensures SpatialSoFar(slot, start, n, ac, further, block) && VoiceFrames(slot, start, n, ac).1 == block
  {
  }

  lemma StepsGrow(n: nat, step: real)
    requires step >= 0.0
    ensures Steps(n, step) >= 0.0
  {
  }

  // ---- Segments ---------------------------------------------------------------------------------

  /** In a segment only a playing voice plays, and a spatial one first heads for where the geometry puts
      it: its ramps end the segment with the geometry's targets. */
  lemma SegmentsPlayAtTheirPlace(slot: AudioSlot, listener: Place, start: nat, n: nat, ac: Acoustics)
    requires SlotFits(slot) && ac.Clamped()
    ensures slot.state != Playing ==> SegmentVoice(slot, listener, start, n, ac) == (slot, Zeros(n, SourceWidth(slot)))
    ensures slot.state == Playing && !IsSpatial(slot) ==>
              SegmentVoice(slot, listener, start, n, ac) == VoiceFrames(slot, start, n, ac)
    ensures slot.state == Playing && IsSpatial(slot) ==>
              var after := SegmentVoice(slot, listener, start, n, ac).0;
              var goal := ac.spatialTarget(listener, slot.emitter);
              && (after.left.target, after.right.target, after.ratio.target) == (goal.left, goal.right, goal.ratio)
              && !after.snapSpatial
  {
    hide SlotFits, VoiceFrames;
    if slot.state == Playing && IsSpatial(slot) {
      UpdateKeepsFit(slot, listener, ac, start);
      var ready := UpdatedSpatial(slot, listener, ac, start);
      FramesKeepSettings(ready, start, n, ac);
      var after := VoiceFrames(ready, start, n, ac).0;
      assert after.left == Settings(after).left && after.right == Settings(after).right;
      assert after.ratio == Settings(after).ratio && after.snapSpatial == Settings(after).snapSpatial;
      GoalReached(slot, listener, ac, start);
    }
  }

  lemma GoalReached(slot: AudioSlot, listener: Place, ac: Acoustics, now: nat)
    requires slot.spatialized
    ensures
      var goal, ready := ac.spatialTarget(listener, slot.emitter), UpdatedSpatial(slot, listener, ac, now);
      && (ready.left.target, ready.right.target, ready.ratio.target) == (goal.left, goal.right, goal.ratio)
      && !ready.snapSpatial
  {
  }
}
