/** What reaches the output, voice by voice: every playing voice adds its sample under its own pan and
    gain, its bus's gain and the master's, and nothing else is added
    (src/lavanda/runtime/audio_runtime.cc:649-755, src/lavanda/runtime/mixer_math.cc). */
module MixLaws {
  import opened Prelude
  import opened Signals
  import opened Blocks
  import opened Handles
  import opened Ramps
  import opened MixerMath
  import opened VoiceSlots
  import opened VoiceRendering
  import opened VoiceSegments
  import opened VoiceMix
  import opened VoiceLaws

  datatype Side = Left | Right
  {
    function Channel(): nat {
      if Left? then 0 else 1
    }
  }

  // ---- One voice --------------------------------------------------------------------------------

  /** The gain of a voice on one side at a frame: a balance for a stereo source, the geometry's ramps
      for a spatial one, and equal power for any other. */
  function SideGain(slot: AudioSlot, frame: nat, trig: Trig, side: Side): real {
    if slot.asset.Some? && slot.asset.value.channels == 2 then
      BalanceSide(trig, slot.pan, slot.gain.ValueAt(frame), side)
    else if slot.spatialized then
      (if side.Left? then slot.left.ValueAt(frame) else slot.right.ValueAt(frame)) * slot.gain.ValueAt(frame)
    else
      PowerSide(trig, slot.pan, slot.gain.ValueAt(frame), side)
  }

  /** The cosine and the sine of the angle the pan stands for, under the gain. */
  function PowerSide(trig: Trig, pan: real, gain: real, side: Side): real {
    match side
    case Left => trig.cos(PanAngle(trig, pan)) * gain
    case Right => trig.sin(PanAngle(trig, pan)) * gain
  }

  /** Only the side panned away from is turned down, and never below zero. */
  function BalanceSide(trig: Trig, pan: real, gain: real, side: Side): real {
    match side
    case Left => if pan > 0.0 then NotNegative(trig.cos(BalanceAngle(trig, pan))) * gain else gain
    case Right => if pan < 0.0 then NotNegative(trig.cos(-BalanceAngle(trig, pan))) * gain else gain
  }

  function NotNegative(x: real): real {
    if x >= 0.0 then x else 0.0
  }

  lemma GainsAreSideGains(slot: AudioSlot, frame: nat, trig: Trig)
    ensures VoiceGains(slot, frame, trig).left == SideGain(slot, frame, trig, Left)
    ensures VoiceGains(slot, frame, trig).right == SideGain(slot, frame, trig, Right)
  {
    hide Ramp.ValueAt, GainsAt, EqualPowerPan, StereoBalanceGains, PowerSide, BalanceSide;
    GainsUnder(EqualPowerPan(trig, slot.pan, 1.0), slot.gain, frame);
    GainsUnder(StereoBalanceGains(trig, slot.pan, 1.0), slot.gain, frame);
    PowerFactors(trig, slot.pan, slot.gain.ValueAt(frame));
    BalanceFactors(trig, slot.pan, slot.gain.ValueAt(frame));
  }

  lemma PowerFactors(trig: Trig, pan: real, gain: real)
    ensures EqualPowerPan(trig, pan, 1.0).left * gain == PowerSide(trig, pan, gain, Left)
    ensures EqualPowerPan(trig, pan, 1.0).right * gain == PowerSide(trig, pan, gain, Right)
  {
    hide PanAngle;
  }

  lemma BalanceFactors(trig: Trig, pan: real, gain: real)
    ensures StereoBalanceGains(trig, pan, 1.0).left * gain == BalanceSide(trig, pan, gain, Left)
    ensures StereoBalanceGains(trig, pan, 1.0).right * gain == BalanceSide(trig, pan, gain, Right)
  {
    hide BalanceAngle;
  }

  /** The sample of a source frame that goes to a side. */
  function SideSample(s: Frame, side: Side): real
    requires |s| >= 1
  {
    if side.Right? && |s| > 1 then s[1] else s[0]
  }

  /** A voice adds its sample under its side gain to each side of its bus. */
  lemma HeardOnASide(d: Frame, slot: AudioSlot, s: Frame, frame: nat, trig: Trig, side: Side)
    requires |d| == 2 && |s| == SourceWidth(slot)
    ensures Heard(d, slot, s, frame, trig)[side.Channel()] ==
            d[side.Channel()] + SideSample(s, side) * SideGain(slot, frame, trig, side)
  {
    hide VoiceGains, SideGain;
    GainsAreSideGains(slot, frame, trig);
    HeardGains(d, Heard(d, slot, s, frame, trig), slot, s, frame, trig);
  }

  // ---- One bus ----------------------------------------------------------------------------------

  /** A voice's bus counts for its gain, unless it is the master or gone. */
  function BusGain(buses: Buses, target: BusId, frame: nat): real {
    if target.index != 0 && IsValidTarget(buses, target) then buses[target.index].data.ValueAt(frame) else 1.0
  }

  /** A bus that gains so much moves the master by as much, under its own gain. */
  lemma {:induction false} MasterMoves(
    frames: seq<Frame>, others: seq<Frame>, buses: Buses, frame: nat, k: nat, b: nat, c: nat, delta: real)
    requires 0 < k <= |buses| && |frames| == |others| == |buses| && b < |buses| && c < 2
    requires forall a :: 0 <= a < |buses| ==> |frames[a]| == |others[a]| == 2 && (a != b ==> others[a] == frames[a])
    requires others[b][c] == frames[b][c] + delta && (b == 0 || buses[b].Alive())
    ensures MasterFrame(others, buses, frame, k)[c] ==
            MasterFrame(frames, buses, frame, k)[c] +
            if b >= k then 0.0 else if b == 0 then delta else delta * buses[b].data.ValueAt(frame)
  {
    hide Ramp.ValueAt;
    if k > 1 {
      MasterMoves(frames, others, buses, frame, k - 1, b, c, delta);
      var gain := buses[k - 1].data.ValueAt(frame);
      if b == k - 1 {
        assert (frames[b][c] + delta) * gain == frames[b][c] * gain + delta * gain;
      }
    }
  }

  lemma {:induction false} SilentBuses(frames: seq<Frame>, buses: Buses, frame: nat, k: nat)
    requires 0 < k <= |buses| == |frames| && forall b :: 0 <= b < |frames| ==> frames[b] == [0.0, 0.0]
    ensures MasterFrame(frames, buses, frame, k) == [0.0, 0.0]
  {
    hide Ramp.ValueAt;
    if k > 1 {
      SilentBuses(frames, buses, frame, k - 1);
      var gain := buses[k - 1].data.ValueAt(frame);
      assert 0.0 * gain == 0.0;
    }
  }

  // ---- All voices -------------------------------------------------------------------------------

  /** What a voice adds to one side, before the master gain. */
  ghost function Share(
    voices: seq<AudioSlot>, r: Rendered, buses: Buses, start: nat, f: nat, i: nat, trig: Trig, side: Side): real
    requires r.Covers(|voices|) && f < r.frames && i < |voices|
  {
    if voices[i].state != Playing then 0.0
    else SideSample(r.blocks[i][f], side) * SideGain(r.slots[i], start + f, trig, side)
         * BusGain(buses, voices[i].targetBus, start + f)
  }

  ghost function Shares(
    voices: seq<AudioSlot>, r: Rendered, buses: Buses, start: nat, f: nat, k: nat, trig: Trig, side: Side): real
    requires r.Covers(|voices|) && f < r.frames && k <= |voices|
  {
    if k == 0 then 0.0
    else Shares(voices, r, buses, start, f, k - 1, trig, side) + Share(voices, r, buses, start, f, k - 1, trig, side)
  }

  /** The buses with the first k voices on them. */
  ghost function Loaded(
    voices: seq<AudioSlot>, r: Rendered, buses: Buses, start: nat, f: nat, k: nat, trig: Trig): (frames: seq<Frame>)
    requires r.Covers(|voices|) && f < r.frames && k <= |voices|
    ensures |frames| == |buses| && forall b :: 0 <= b < |frames| ==> |frames[b]| == 2
  {
    seq(|buses|, b requires 0 <= b < |buses| => BusFrame(voices, r, buses, b, start, f, k, trig))
  }

  lemma {:induction false} MasterIsShares(
    voices: seq<AudioSlot>, r: Rendered, buses: Buses, start: nat, f: nat, k: nat, trig: Trig, side: Side)
    requires r.Covers(|voices|) && f < r.frames && k <= |voices| && |buses| > 0
    ensures MasterFrame(Loaded(voices, r, buses, start, f, k, trig), buses, start + f, |buses|)[side.Channel()] ==
            Shares(voices, r, buses, start, f, k, trig, side)
  {
    hide Heard, SideGain, MasterFrame, Ramp.ValueAt, SideSample;
    var now := Loaded(voices, r, buses, start, f, k, trig);
    if k == 0 {
      SilentBuses(now, buses, start + f, |buses|);
    } else {
      MasterIsShares(voices, r, buses, start, f, k - 1, trig, side);
      var before := Loaded(voices, r, buses, start, f, k - 1, trig);
      var target := voices[k - 1].targetBus;
      var b := ResolveBusIndex(buses, target);
      if voices[k - 1].state == Playing {
        HeardOnASide(before[b], r.slots[k - 1], r.blocks[k - 1][f], start + f, trig, side);
        var delta := SideSample(r.blocks[k - 1][f], side) * SideGain(r.slots[k - 1], start + f, trig, side);
        MasterMoves(before, now, buses, start + f, |buses|, b, side.Channel(), delta);
      } else {
        assert now == before;
      }
    }
  }

  /** Mixing through the buses adds up: on each side every frame is the sum of the playing voices'
      samples, each under its own gain and its bus's, under the master gain. */
  lemma MixIsSumOfShares(
    voices: seq<AudioSlot>, r: Rendered, buses: Buses, start: nat, f: nat, trig: Trig, side: Side)
    requires r.Covers(|voices|) && f < r.frames && |buses| > 0
    ensures MixedFrame(voices, r, buses, start, f, trig)[side.Channel()] ==
            Shares(voices, r, buses, start, f, |voices|, trig, side) * buses[0].data.ValueAt(start + f)
  {
    hide MasterFrame, Ramp.ValueAt, BusFrame, Shares;
    MasterIsShares(voices, r, buses, start, f, |voices|, trig, side);
    assert Loaded(voices, r, buses, start, f, |voices|, trig) == BusFrames(voices, r, buses, start, f, trig);
  }

  // ---- One voice alone --------------------------------------------------------------------------

  lemma {:induction false} AloneShare(
    voices: seq<AudioSlot>, r: Rendered, buses: Buses, start: nat, f: nat, k: nat, trig: Trig, side: Side, i: nat)
    requires r.Covers(|voices|) && f < r.frames && k <= |voices| && i < |voices|
    requires forall j :: 0 <= j < |voices| && j != i ==> voices[j].state != Playing
    ensures Shares(voices, r, buses, start, f, k, trig, side) ==
            if i < k then Share(voices, r, buses, start, f, i, trig, side) else 0.0
  {
    hide SideGain, SideSample, BusGain;
    if k > 0 {
      AloneShare(voices, r, buses, start, f, k - 1, trig, side, i);
    }
  }

  /** The only playing voice, on any bus: its sample under its side gain, its bus's and the master's. */
  lemma AloneOnASide(
    voices: seq<AudioSlot>, r: Rendered, buses: Buses, start: nat, f: nat, trig: Trig, side: Side, i: nat)
    requires r.Covers(|voices|) && f < r.frames && |buses| > 0 && i < |voices| && voices[i].state == Playing
    requires forall j :: 0 <= j < |voices| && j != i ==> voices[j].state != Playing
    ensures MixedFrame(voices, r, buses, start, f, trig)[side.Channel()] ==
            SideSample(r.blocks[i][f], side) * SideGain(r.slots[i], start + f, trig, side)
            * BusGain(buses, voices[i].targetBus, start + f) * buses[0].data.ValueAt(start + f)
  {
    hide SideGain, SideSample, BusGain, MixedFrame, Ramp.ValueAt;
    MixIsSumOfShares(voices, r, buses, start, f, trig, side);
    AloneShare(voices, r, buses, start, f, |voices|, trig, side, i);
  }

  /** The side gains of a voice panned within its ends. */
  lemma PannedSides(slot: AudioSlot, frame: nat, trig: Trig, angle: real)
    requires slot.asset.None? && !slot.spatialized && -1.0 <= slot.pan <= 1.0
    requires angle == (slot.pan + 1.0) * (trig.pi / 4.0)
    ensures SideGain(slot, frame, trig, Left) == trig.cos(angle) * slot.gain.ValueAt(frame)
    ensures SideGain(slot, frame, trig, Right) == trig.sin(angle) * slot.gain.ValueAt(frame)
  {
    hide PanAngle, Ramp.ValueAt;
    AnglesOfPan(trig, slot.pan);
  }

  lemma SameFactors(sample: real, side: real, bus: real, master: real, played: real, gain: real, ramp: real)
    requires played == sample && side == gain * ramp
    ensures played * side * bus * master == sample * (gain * ramp) * bus * master
  {
  }

  /** Voice i plays a tone of its own, and nothing else plays. */
  ghost predicate LoneTone(voices: seq<AudioSlot>, i: nat) {
    && i < |voices| && voices[i].state == Playing && voices[i].backing.None? && !voices[i].spatialized
    && -1.0 <= voices[i].pan <= 1.0
    && forall j :: 0 <= j < |voices| && j != i ==> voices[j].state != Playing
  }

  /** A tone reaches the output: the sine of its phase, spread over the two channels by the cosine and
      the sine of its angle, under the gains of voice, bus and master. */
  ghost predicate ToneAdded(
    voice: AudioSlot, buses: Buses, trig: Trig, start: nat, f: nat, angle: real, step: real, was: Frame, now: Frame)
  {
    |was| == |now| == 2 && |buses| > 0 &&
    var sample, gain := trig.sin(voice.phase + Steps(f, step)), voice.gain.ValueAt(start + f);
    var bus, master := BusGain(buses, voice.targetBus, start + f), buses[0].data.ValueAt(start + f);
    && now[0] == was[0] + sample * (trig.cos(angle) * gain) * bus * master
    && now[1] == was[1] + sample * (trig.sin(angle) * gain) * bus * master
  }

  /** A lone mono tone, panned by the user, at the gains the ramps have at the frame. */
  lemma AloneTone(
    voices: seq<AudioSlot>, r: Rendered, buses: Buses, listener: Place, start: nat, f: nat, ac: Acoustics, i: nat,
    angle: real, step: real, was: Frame)
    requires |was| == 2
    requires r.Covers(|voices|) && f < r.frames && |buses| > 0 && LoneTone(voices, i)
    requires VoicesFit(voices) && ac.Clamped() && ac.rate > 0.0
    requires (r.slots[i], r.blocks[i]) == SegmentVoice(voices[i], listener, start, r.frames, ac)
    requires angle == (voices[i].pan + 1.0) * (ac.trig.pi / 4.0)
    requires step == 2.0 * ac.trig.pi * voices[i].frequency / ac.rate
    ensures ToneAdded(voices[i], buses, ac.trig, start, f, angle, step, was,
                      MixFrame(was, MixedFrame(voices, r, buses, start, f, ac.trig), 1.0))
  {
    hide BusGain, MixedFrame, Ramp.ValueAt, VoiceFrames, Steps, SideGain;
    var slot, after := voices[i], r.slots[i];
    LonePlays(voices, r, listener, start, ac, i, step);
    PannedSides(after, start + f, ac.trig, angle);
    AloneOnASide(voices, r, buses, start, f, ac.trig, Left, i);
    AloneOnASide(voices, r, buses, start, f, ac.trig, Right, i);
    var sample, gain := ac.trig.sin(slot.phase + Steps(f, step)), slot.gain.ValueAt(start + f);
    var bus, master := BusGain(buses, slot.targetBus, start + f), buses[0].data.ValueAt(start + f);
    SameFactors(sample, SideGain(after, start + f, ac.trig, Left), bus, master, r.blocks[i][f][0],
                ac.trig.cos(angle), gain);
    SameFactors(sample, SideGain(after, start + f, ac.trig, Right), bus, master, r.blocks[i][f][0],
                ac.trig.sin(angle), gain);
  }

  lemma LonePlays(
    voices: seq<AudioSlot>, r: Rendered, listener: Place, start: nat, ac: Acoustics, i: nat, step: real)
    requires r.Covers(|voices|) && LoneTone(voices, i) && VoicesFit(voices) && ac.Clamped() && ac.rate > 0.0
    requires (r.slots[i], r.blocks[i]) == SegmentVoice(voices[i], listener, start, r.frames, ac)
    requires step == 2.0 * ac.trig.pi * voices[i].frequency / ac.rate
    ensures r.slots[i].asset.None? && r.slots[i] == voices[i].(phase := r.slots[i].phase)
    ensures forall f :: 0 <= f < r.frames ==> r.blocks[i][f] == [ac.trig.sin(voices[i].phase + Steps(f, step))]
  {
    hide VoiceFrames, Steps;
    assert SlotFits(voices[i]);
    ToneVoicePlays(voices[i], start, r.frames, ac, voices[i].frequency, step);
  }

  /** The whole mix with one tone playing. */
  method MixLoneTone(
    mixer: Mixer, output: AudioBufferView, listener: Place, start: nat, ghost i: nat, ghost angle: real,
    ghost step: real)
    requires mixer.Valid() && output.Valid() && output.data !in mixer.Buffers()
    requires output.channels == 2 && output.frameCount <= mixer.maxFrames && mixer.ac.rate > 0.0
    requires LoneTone(mixer.voices, i)
    requires angle == (mixer.voices[i].pan + 1.0) * (mixer.ac.trig.pi / 4.0)
    requires step == 2.0 * mixer.ac.trig.pi * mixer.voices[i].frequency / mixer.ac.rate
    modifies mixer`voices, mixer.Buffers(), output.data
    ensures mixer.Valid() && output.Valid()
    ensures forall f :: 0 <= f < output.frameCount ==>
              ToneAdded(old(mixer.voices)[i], mixer.buses, mixer.ac.trig, start, f, angle, step,
                        old(output.Content()[f]), output.Content()[f])
  {
    hide MixedFrame, SegmentVoice, SlotFits, ToneAdded;
    ghost var voices, n := mixer.voices, output.frameCount;
    ghost var r := RenderedVoices(voices, listener, start, n, mixer.ac);
    mixer.RenderVoicesAndBuses(output, listener, start);
    forall f | 0 <= f < n
      ensures
        ToneAdded(voices[i], mixer.buses, mixer.ac.trig, start, f, angle, step,
                  old(output.Content()[f]), output.Content()[f])
    {
      AloneTone(voices, r, mixer.buses, listener, start, f, mixer.ac, i, angle, step, old(output.Content()[f]));
    }
  }
}
