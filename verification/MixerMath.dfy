/** In-place mixing of blocks (src/lavanda/runtime/mixer_math.cc). */
module MixerMath {
  import opened Prelude
  import opened Signals
  import opened Ramps

  /** Sine, cosine and pi, of which nothing is assumed. */
  datatype Trig = Trig(sin: real -> real, cos: real -> real, pi: real)

  datatype StereoGains = StereoGains(left: real, right: real)

  function Clamp(x: real, low: real, high: real): real {
    if x < low then low else if x > high then high else x
  }

  /** From nothing, hard left, to a quarter of a turn, hard right. */
  function PanAngle(trig: Trig, pan: real): real {
    (Clamp(pan, -1.0, 1.0) + 1.0) * (trig.pi / 4.0)
  }

  function EqualPowerPan(trig: Trig, pan: real, gain: real): StereoGains {
    StereoGains(trig.cos(PanAngle(trig, pan)) * gain, trig.sin(PanAngle(trig, pan)) * gain)
  }

  /** A quarter of a turn either way, from the middle. */
  function BalanceAngle(trig: Trig, pan: real): real {
    Clamp(pan, -1.0, 1.0) * (trig.pi / 2.0)
  }

  /** src/lavanda/runtime/stereo_balance.h. */
  function StereoBalanceGains(trig: Trig, pan: real, gain: real): StereoGains {
    var clamped := Clamp(pan, -1.0, 1.0);
    var left := if clamped > 0.0 then AtLeastZero(trig.cos(BalanceAngle(trig, pan))) else 1.0;
    var right := if clamped < 0.0 then AtLeastZero(trig.cos(-BalanceAngle(trig, pan))) else 1.0;
    StereoGains(gain * left, gain * right)
  }

  function AtLeastZero(x: real): real {
    if x < 0.0 then 0.0 else x
  }

  /** The angles at a pan, and where it is beyond its ends. */
  lemma AnglesOfPan(trig: Trig, pan: real)
    ensures -1.0 <= pan <= 1.0 ==>
              PanAngle(trig, pan) == (pan + 1.0) * (trig.pi / 4.0) && BalanceAngle(trig, pan) == pan * (trig.pi / 2.0)
    ensures pan < -1.0 ==> PanAngle(trig, pan) == 0.0 && BalanceAngle(trig, pan) == -(trig.pi / 2.0)
    ensures pan > 1.0 ==> PanAngle(trig, pan) == trig.pi / 2.0 && BalanceAngle(trig, pan) == trig.pi / 2.0
  {
  }

  /** d + s * gain on the first n channels. */
  function MixChannels(d: Frame, s: Frame, gain: real, n: nat): Frame
    requires |s| >= |d|
  {
    seq(|d|, c requires 0 <= c < |d| => if c < n then d[c] + s[c] * gain else d[c])
  }

  function MixFrame(d: Frame, s: Frame, gain: real): Frame
    requires |s| >= |d|
  {
    MixChannels(d, s, gain, |d|)
  }

  lemma MixNextChannel(d: Frame, s: Frame, gain: real, n: nat)
    requires |s| >= |d| && n < |d|
    ensures MixChannels(d, s, gain, n)[n] == d[n]
    ensures MixChannels(d, s, gain, n)[n := d[n] + s[n] * gain] == MixChannels(d, s, gain, n + 1)
  {
    var a, b := MixChannels(d, s, gain, n)[n := d[n] + s[n] * gain], MixChannels(d, s, gain, n + 1);
    forall c | 0 <= c < |d| ensures a[c] == b[c] {
    }
    assert a == b;
  }

  /** One frame of the loop nest. */
  method MixFrameInto(data: array<Frame>, at: nat, s: Frame, gain: real)
    requires at < data.Length && |s| >= |data[at]|
    modifies data
    ensures data[at] == MixFrame(old(data[at]), s, gain)
    ensures forall f :: 0 <= f < data.Length && f != at ==> data[f] == old(data[f])
  {
    ghost var was := data[at];
    var channels := |data[at]|;
    assert data[at] == MixChannels(was, s, gain, 0);
    for channel := 0 to channels
      invariant data[at] == MixChannels(was, s, gain, channel)
      invariant forall f :: 0 <= f < data.Length && f != at ==> data[f] == old(data[f])
    {
      MixNextChannel(was, s, gain, channel);
      data[at] := data[at][channel := data[at][channel] + s[channel] * gain];
    }
  }

  /** Nothing to add to, or nothing to add. */
  predicate Skips(destination: AudioBufferView, source: Block) {
    destination.Empty() || source == []
  }

  /** Unless it is skipped, the source has a frame of enough channels for each of the destination's,
      which has enough channels itself. */
  ghost predicate CanFeed(source: Block, width: nat, channels: nat, destination: AudioBufferView) {
    !Skips(destination, source) ==>
      && |source| >= destination.frameCount && destination.channels >= channels
      && forall f :: 0 <= f < destination.frameCount ==> |source[f]| >= width
  }

  method AccumulateInto(destination: AudioBufferView, source: Block, gain: real)
    requires destination.Valid() && CanFeed(source, destination.channels, 0, destination)
    modifies destination.data
    ensures destination.Valid()
    ensures Skips(destination, source) ==> destination.data[..] == old(destination.data[..])
    ensures !Skips(destination, source) ==>
              forall f :: 0 <= f < destination.frameCount ==>
                destination.data[destination.offset + f] ==
                MixFrame(old(destination.data[destination.offset + f]), source[f], gain)
    ensures !Skips(destination, source) ==>
              forall f, c :: 0 <= f < destination.frameCount && 0 <= c < destination.channels ==>
                destination.Content()[f][c] == old(destination.Content()[f][c]) + source[f][c] * gain
    ensures forall f :: 0 <= f < destination.data.Length &&
                        !(destination.offset <= f < destination.offset + destination.frameCount) ==>
              destination.data[f] == old(destination.data[f])
  {
    if Skips(destination, source) {
      return;
    }
    var data, offset := destination.data, destination.offset;
    for frame := 0 to destination.frameCount
      invariant forall f :: 0 <= f < frame ==>
                  data[offset + f] == MixFrame(old(data[offset + f]), source[f], gain)
      invariant forall f :: 0 <= f < data.Length && !(offset <= f < offset + frame) ==> data[f] == old(data[f])
    {
      MixFrameInto(data, offset + frame, source[frame], gain);
    }
    forall f | offset <= f < offset + destination.frameCount ensures |data[f]| == destination.channels {
      assert data[offset + (f - offset)] == MixFrame(old(data[offset + (f - offset)]), source[f - offset], gain);
    }
  }

  // ---- Voices into a stereo bus -----------------------------------------------------------------

  /** The first channel of a frame added to the first two of another. */
  function Panned(d: Frame, s: Frame, gains: StereoGains): (sum: Frame)
    requires |d| >= 2 && |s| >= 1
    ensures |sum| == |d|
  {
    [d[0] + s[0] * gains.left, d[1] + s[0] * gains.right] + d[2..]
  }

  /** One stereo frame added to another. */
  function Balanced(d: Frame, s: Frame, gains: StereoGains): Frame
    requires |d| == 2 && |s| == 2
  {
    [d[0] + s[0] * gains.left, d[1] + s[1] * gains.right]
  }

  /** Gains scaled by a ramp at a frame, and the product of two pan ramps with a gain ramp. */
  function GainsAt(unit: StereoGains, ramp: Ramp, frame: nat): StereoGains {
    StereoGains(unit.left * ramp.ValueAt(frame), unit.right * ramp.ValueAt(frame))
  }

  function SpatialGainsAt(left: Ramp, right: Ramp, voice: Ramp, frame: nat): StereoGains {
    StereoGains(left.ValueAt(frame) * voice.ValueAt(frame), right.ValueAt(frame) * voice.ValueAt(frame))
  }

  lemma GainsUnder(unit: StereoGains, ramp: Ramp, frame: nat)
    ensures GainsAt(unit, ramp, frame).left == unit.left * ramp.ValueAt(frame)
    ensures GainsAt(unit, ramp, frame).right == unit.right * ramp.ValueAt(frame)
  {
  }

  /** The first two channels have gained a sample each under their gains, and the others nothing. */
  ghost predicate Gained(was: Frame, now: Frame, left: real, right: real, gains: StereoGains) {
    && |now| == |was| >= 2 && now[2..] == was[2..]
    && now[0] == was[0] + left * gains.left && now[1] == was[1] + right * gains.right
  }

  lemma PannedGains(d: Frame, now: Frame, s: Frame, gains: StereoGains)
    requires |d| >= 2 && |s| >= 1
    ensures now == Panned(d, s, gains) <==> Gained(d, now, s[0], s[0], gains)
  {
    assert |now| >= 2 ==> now == [now[0], now[1]] + now[2..];
  }

  lemma BalancedGains(d: Frame, now: Frame, s: Frame, gains: StereoGains)
    requires |d| == 2 && |s| == 2
    ensures now == Balanced(d, s, gains) <==> Gained(d, now, s[0], s[1], gains)
  {
  }

  function Scaled(d: Frame, gain: real): Frame {
    seq(|d|, c requires 0 <= c < |d| => d[c] * gain)
  }

  ghost predicate Feeds(source: Block, width: nat, destination: AudioBufferView) {
    |source| == destination.frameCount && HasWidth(source, width)
  }

  /** Overwrites one frame of a view. */
  method SetFrame(view: AudioBufferView, frame: nat, value: Frame)
    requires view.Valid() && frame < view.frameCount && |value| == view.channels
    modifies view.data
    ensures view.Valid() && view.Content() == old(view.Content())[frame := value]
    ensures SameElsewhere(view, old(view.data[..]), view.data[..])
  {
    view.data[view.offset + frame] := value;
    assert view.Content() == old(view.Content())[frame := value];
  }

  method AccumulateMonoToStereo(destination: AudioBufferView, source: Block, gains: StereoGains)
    requires destination.Valid() && CanFeed(source, 1, 2, destination)
    modifies destination.data
    ensures destination.Valid() && SameElsewhere(destination, old(destination.data[..]), destination.data[..])
    ensures Skips(destination, source) ==> destination.Content() == old(destination.Content())
    ensures !Skips(destination, source) ==> forall f :: 0 <= f < destination.frameCount ==>
              Gained(old(destination.Content()[f]), destination.Content()[f],
                     source[f][0], source[f][0], gains)
  {
    hide Gained, Panned;
    if Skips(destination, source) {
      return;
    }
    ghost var before := destination.Content();
    for frame := 0 to destination.frameCount
      invariant destination.Valid() && SameElsewhere(destination, old(destination.data[..]), destination.data[..])
      invariant forall f :: 0 <= f < frame ==>
                  Gained(before[f], destination.Content()[f], source[f][0], source[f][0], gains)
      invariant forall f :: frame <= f < |before| ==> destination.Content()[f] == before[f]
    {
      AddPanned(destination, frame, source[frame], gains);
    }
  }

  /** One frame of the loops. */
  method AddPanned(view: AudioBufferView, frame: nat, s: Frame, gains: StereoGains)
    requires view.Valid() && frame < view.frameCount && view.channels >= 2 && |s| >= 1
    modifies view.data
    ensures view.Valid() && SameElsewhere(view, old(view.data[..]), view.data[..])
    ensures Gained(old(view.Content()[frame]), view.Content()[frame], s[0], s[0], gains)
    ensures view.Content() == old(view.Content())[frame := view.Content()[frame]]
  {
    hide Gained;
    PannedGains(view.data[view.offset + frame], Panned(view.data[view.offset + frame], s, gains), s, gains);
    SetFrame(view, frame, Panned(view.data[view.offset + frame], s, gains));
  }

  method AddBalanced(view: AudioBufferView, frame: nat, s: Frame, gains: StereoGains)
    requires view.Valid() && frame < view.frameCount && view.channels == 2 && |s| == 2
    modifies view.data
    ensures view.Valid() && SameElsewhere(view, old(view.data[..]), view.data[..])
    ensures Gained(old(view.Content()[frame]), view.Content()[frame], s[0], s[1], gains)
    ensures view.Content() == old(view.Content())[frame := view.Content()[frame]]
  {
    hide Gained;
    BalancedGains(view.data[view.offset + frame], Balanced(view.data[view.offset + frame], s, gains), s, gains);
    SetFrame(view, frame, Balanced(view.data[view.offset + frame], s, gains));
  }

  method AccumulateMonoToStereoRamped(
    destination: AudioBufferView, source: Block, unit: StereoGains, ramp: Ramp, firstFrame: nat)
    requires destination.Valid() && CanFeed(source, 1, 2, destination)
    modifies destination.data
    ensures destination.Valid() && SameElsewhere(destination, old(destination.data[..]), destination.data[..])
    ensures Skips(destination, source) ==> destination.Content() == old(destination.Content())
    ensures !Skips(destination, source) ==> forall f :: 0 <= f < destination.frameCount ==>
              Gained(old(destination.Content()[f]), destination.Content()[f],
                     source[f][0], source[f][0], GainsAt(unit, ramp, firstFrame + f))
  {
    hide Gained, GainsAt, SpatialGainsAt;
    if Skips(destination, source) {
      return;
    }
    ghost var before := destination.Content();
    for frame := 0 to destination.frameCount
      invariant destination.Valid() && SameElsewhere(destination, old(destination.data[..]), destination.data[..])
      invariant forall f :: 0 <= f < frame ==>
                  Gained(before[f], destination.Content()[f],
                         source[f][0], source[f][0], GainsAt(unit, ramp, firstFrame + f))
      invariant forall f :: frame <= f < |before| ==> destination.Content()[f] == before[f]
    {
      AddPanned(destination, frame, source[frame], GainsAt(unit, ramp, firstFrame + frame));
    }
  }

  /** Constant ramps take the constant loop; the result is the ramped one either way. */
  method AccumulateMonoToStereoSpatial(
    destination: AudioBufferView, source: Block, left: Ramp, right: Ramp, voice: Ramp, firstFrame: nat)
    requires destination.Valid() && CanFeed(source, 1, 2, destination)
    modifies destination.data
    ensures destination.Valid() && SameElsewhere(destination, old(destination.data[..]), destination.data[..])
    ensures Skips(destination, source) ==> destination.Content() == old(destination.Content())
    ensures !Skips(destination, source) ==> forall f :: 0 <= f < destination.frameCount ==>
              Gained(old(destination.Content()[f]), destination.Content()[f],
                     source[f][0], source[f][0], SpatialGainsAt(left, right, voice, firstFrame + f))
  {
    hide Gained, GainsAt, SpatialGainsAt;
    if Skips(destination, source) {
      return;
    }
    if left.IsConstantFrom(firstFrame) && right.IsConstantFrom(firstFrame) && voice.IsConstantFrom(firstFrame) {
      SpatialGainsConstant(left, right, voice, firstFrame);
      AccumulateMonoToStereo(destination, source, StereoGains(left.target * voice.target, right.target * voice.target));
      return;
    }
    AddUnderRamps(destination, source, left, right, voice, firstFrame);
  }

  /** The loop over the frames. */
  method AddUnderRamps(
    destination: AudioBufferView, source: Block, left: Ramp, right: Ramp, voice: Ramp, firstFrame: nat)
    requires destination.Valid() && CanFeed(source, 1, 2, destination) && !Skips(destination, source)
    modifies destination.data
    ensures destination.Valid() && SameElsewhere(destination, old(destination.data[..]), destination.data[..])
    ensures forall f :: 0 <= f < destination.frameCount ==>
              Gained(old(destination.Content()[f]), destination.Content()[f],
                     source[f][0], source[f][0], SpatialGainsAt(left, right, voice, firstFrame + f))
  {
    hide Gained, GainsAt, SpatialGainsAt;
    ghost var before := destination.Content();
    for frame := 0 to destination.frameCount
      invariant destination.Valid() && SameElsewhere(destination, old(destination.data[..]), destination.data[..])
      invariant forall f :: 0 <= f < frame ==>
                  Gained(before[f], destination.Content()[f],
                         source[f][0], source[f][0], SpatialGainsAt(left, right, voice, firstFrame + f))
      invariant forall f :: frame <= f < |before| ==> destination.Content()[f] == before[f]
    {
      AddPanned(destination, frame, source[frame], SpatialGainsAt(left, right, voice, firstFrame + frame));
    }
  }

  lemma SpatialGainsConstant(left: Ramp, right: Ramp, voice: Ramp, firstFrame: nat)
    requires left.IsConstantFrom(firstFrame) && right.IsConstantFrom(firstFrame) && voice.IsConstantFrom(firstFrame)
    ensures forall frame {:trigger SpatialGainsAt(left, right, voice, frame)} :: frame >= firstFrame ==>
              SpatialGainsAt(left, right, voice, frame) ==
              StereoGains(left.target * voice.target, right.target * voice.target)
  {
  }

  method AccumulateStereoWithBalance(destination: AudioBufferView, source: Block, sourceChannels: nat, gains: StereoGains)
    requires destination.Valid() && HasWidth(source, sourceChannels)
    modifies destination.data
    ensures destination.Valid() && SameElsewhere(destination, old(destination.data[..]), destination.data[..])
    ensures destination.channels != 2 || sourceChannels != 2 ==> destination.Content() == old(destination.Content())
    ensures destination.channels == 2 && sourceChannels == 2 ==>
              forall f :: 0 <= f < destination.frameCount ==>
                if f >= |source| then destination.Content()[f] == old(destination.Content()[f])
                else Gained(old(destination.Content()[f]), destination.Content()[f],
                            source[f][0], source[f][1], gains)
  {
    hide Gained;
    if destination.channels != 2 || sourceChannels != 2 {
      return;
    }
    ghost var before := destination.Content();
    for frame := 0 to Min(destination.frameCount, |source|)
      invariant destination.Valid() && SameElsewhere(destination, old(destination.data[..]), destination.data[..])
      invariant forall f :: 0 <= f < frame ==>
                  Gained(before[f], destination.Content()[f], source[f][0], source[f][1], gains)
      invariant forall f :: frame <= f < |before| ==> destination.Content()[f] == before[f]
    {
      AddBalanced(destination, frame, source[frame], gains);
    }
  }

  method AccumulateStereoWithBalanceRamped(
    destination: AudioBufferView, source: Block, sourceChannels: nat, unit: StereoGains, ramp: Ramp, firstFrame: nat)
    requires destination.Valid() && HasWidth(source, sourceChannels)
    modifies destination.data
    ensures destination.Valid() && SameElsewhere(destination, old(destination.data[..]), destination.data[..])
    ensures destination.channels != 2 || sourceChannels != 2 ==> destination.Content() == old(destination.Content())
    ensures destination.channels == 2 && sourceChannels == 2 ==>
              forall f :: 0 <= f < destination.frameCount ==>
                if f >= |source| then destination.Content()[f] == old(destination.Content()[f])
                else Gained(old(destination.Content()[f]), destination.Content()[f],
                            source[f][0], source[f][1], GainsAt(unit, ramp, firstFrame + f))
  {
    hide Gained, GainsAt, SpatialGainsAt;
    if destination.channels != 2 || sourceChannels != 2 {
      return;
    }
    ghost var before := destination.Content();
    for frame := 0 to Min(destination.frameCount, |source|)
      invariant destination.Valid() && SameElsewhere(destination, old(destination.data[..]), destination.data[..])
      invariant forall f :: 0 <= f < frame ==>
                  Gained(before[f], destination.Content()[f],
                         source[f][0], source[f][1], GainsAt(unit, ramp, firstFrame + f))
      invariant forall f :: frame <= f < |before| ==> destination.Content()[f] == before[f]
    {
      AddBalanced(destination, frame, source[frame], GainsAt(unit, ramp, firstFrame + frame));
    }
  }

  // ---- Buses into the master --------------------------------------------------------------------

  method AccumulateIntoRamped(destination: AudioBufferView, source: Block, ramp: Ramp, firstFrame: nat)
    requires destination.Valid() && CanFeed(source, destination.channels, 0, destination)
    modifies destination.data
    ensures destination.Valid() && SameElsewhere(destination, old(destination.data[..]), destination.data[..])
    ensures Skips(destination, source) ==> destination.Content() == old(destination.Content())
    ensures !Skips(destination, source) ==> forall f :: 0 <= f < destination.frameCount ==>
              destination.Content()[f] ==
              MixFrame(old(destination.Content()[f]), source[f], ramp.ValueAt(firstFrame + f))
    ensures !Skips(destination, source) ==>
              forall f, c :: 0 <= f < destination.frameCount && 0 <= c < destination.channels ==>
                destination.Content()[f][c] ==
                old(destination.Content()[f][c]) + source[f][c] * ramp.ValueAt(firstFrame + f)
  {
    hide Ramp.ValueAt;
    if Skips(destination, source) {
      return;
    }
    ghost var before := destination.Content();
    assert HasWidth(before, destination.channels);
    for frame := 0 to destination.frameCount
      invariant destination.Valid() && SameElsewhere(destination, old(destination.data[..]), destination.data[..])
      invariant forall f :: 0 <= f < frame ==>
                  destination.Content()[f] == MixFrame(before[f], source[f], ramp.ValueAt(firstFrame + f))
      invariant forall f :: frame <= f < |before| ==> destination.Content()[f] == before[f]
    {
      var gain := ramp.ValueAt(firstFrame + frame);
      SetFrame(destination, frame, MixFrame(destination.data[destination.offset + frame], source[frame], gain));
    }
  }

  method ApplyGain(buffer: AudioBufferView, gain: real)
    requires buffer.Valid()
    modifies buffer.data
    ensures buffer.Valid() && SameElsewhere(buffer, old(buffer.data[..]), buffer.data[..])
    ensures forall f :: 0 <= f < buffer.frameCount ==> buffer.Content()[f] == Scaled(old(buffer.Content()[f]), gain)
    ensures forall f, c :: 0 <= f < buffer.frameCount && 0 <= c < buffer.channels ==>
              buffer.Content()[f][c] == old(buffer.Content()[f][c]) * gain
  {
    ghost var before := buffer.Content();
    for frame := 0 to buffer.frameCount
      invariant buffer.Valid() && SameElsewhere(buffer, old(buffer.data[..]), buffer.data[..])
      invariant forall f :: 0 <= f < frame ==> buffer.Content()[f] == Scaled(before[f], gain)
      invariant forall f :: frame <= f < |before| ==> buffer.Content()[f] == before[f]
    {
      SetFrame(buffer, frame, Scaled(buffer.data[buffer.offset + frame], gain));
    }
  }

  method ApplyGainRamped(buffer: AudioBufferView, ramp: Ramp, firstFrame: nat)
    requires buffer.Valid()
    modifies buffer.data
    ensures buffer.Valid() && SameElsewhere(buffer, old(buffer.data[..]), buffer.data[..])
    ensures forall f :: 0 <= f < buffer.frameCount ==>
              buffer.Content()[f] == Scaled(old(buffer.Content()[f]), ramp.ValueAt(firstFrame + f))
    ensures forall f, c :: 0 <= f < buffer.frameCount && 0 <= c < buffer.channels ==>
              buffer.Content()[f][c] == old(buffer.Content()[f][c]) * ramp.ValueAt(firstFrame + f)
  {
    hide Ramp.ValueAt;
    ghost var before := buffer.Content();
    for frame := 0 to buffer.frameCount
      invariant buffer.Valid() && SameElsewhere(buffer, old(buffer.data[..]), buffer.data[..])
      invariant forall f :: 0 <= f < frame ==> buffer.Content()[f] == Scaled(before[f], ramp.ValueAt(firstFrame + f))
      invariant forall f :: frame <= f < |before| ==> buffer.Content()[f] == before[f]
    {
      SetFrame(buffer, frame, Scaled(buffer.data[buffer.offset + frame], ramp.ValueAt(firstFrame + frame)));
    }
  }
}
