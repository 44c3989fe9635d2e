/** Mixing the voices through the buses into the output
    (src/lavanda/runtime/audio_runtime.cc:649-755, src/lavanda/runtime/bus_system.cc:132-175). */
module VoiceMix {
  import opened Prelude
  import opened Signals
  import opened Blocks
  import opened Handles
  import opened Ramps
  import opened MixerMath
  import opened VoiceSlots
  import opened VoiceRendering
  import opened VoiceSegments

  /** The audio thread's buses: the occupant's data is its gain ramp. */
  type Buses = seq<Slot<Ramp>>

  // ---- What is heard ------------------------------------------------------------------------------

  /** The gains of a voice for the two channels of its bus at a frame. */
  function VoiceGains(slot: AudioSlot, frame: nat, trig: Trig): StereoGains {
    if SourceChannels(slot) == 2 then GainsAt(StereoBalanceGains(trig, slot.pan, 1.0), slot.gain, frame)
    else if slot.spatialized then SpatialGainsAt(slot.left, slot.right, slot.gain, frame)
    else GainsAt(EqualPowerPan(trig, slot.pan, 1.0), slot.gain, frame)
  }

  /** A frame of a voice's source added to a bus frame, at the voice's gain and place. */
  function Heard(d: Frame, slot: AudioSlot, s: Frame, frame: nat, trig: Trig): Frame
    requires |d| == 2 && |s| == SourceWidth(slot)
  {
    if SourceChannels(slot) == 2 then Balanced(d, s, VoiceGains(slot, frame, trig))
    else Panned(d, s, VoiceGains(slot, frame, trig))
  }

  /** All voices in one segment: their slots afterwards and the blocks they rendered. */
  datatype Rendered = Rendered(slots: seq<AudioSlot>, blocks: seq<Block>, frames: nat)
  {
    /** One slot and one block for each of so many voices. */
    ghost predicate Covers(count: nat) {
      && |slots| == |blocks| == count
      && forall i :: 0 <= i < count ==> |blocks[i]| == frames && HasWidth(blocks[i], SourceWidth(slots[i]))
    }
  }

  ghost predicate VoicesFit(voices: seq<AudioSlot>) {
    forall i :: 0 <= i < |voices| ==> SlotFits(voices[i])
  }

  ghost function RenderedVoices(voices: seq<AudioSlot>, listener: Place, start: nat, n: nat, ac: Acoustics): (r: Rendered)
    requires VoicesFit(voices) && ac.Clamped()
    ensures r.Covers(|voices|) && VoicesFit(r.slots) && r.frames == n
    ensures forall i :: 0 <= i < |voices| ==>
              (r.slots[i], r.blocks[i]) == SegmentVoice(voices[i], listener, start, n, ac)
  {
    if voices == [] then Rendered([], [], n)
    else
      var last := |voices| - 1;
      var r := RenderedVoices(voices[..last], listener, start, n, ac);
      var (slot, block) := SegmentVoice(voices[last], listener, start, n, ac);
      SegmentWidth(voices[last], listener, start, n, ac);
      Rendered(r.slots + [slot], r.blocks + [block], n)
  }

  lemma SegmentWidth(slot: AudioSlot, listener: Place, start: nat, n: nat, ac: Acoustics)
    requires SlotFits(slot) && ac.Clamped()
    ensures
      var (after, block) := SegmentVoice(slot, listener, start, n, ac);
      HasWidth(block, SourceWidth(after)) && SourceWidth(after) == SourceWidth(slot)
  {
    if slot.state == Playing {
      UpdateKeepsFit(slot, listener, ac, start);
      FramesWidth(if IsSpatial(slot) then UpdatedSpatial(slot, listener, ac, start) else slot, start, n, ac);
    }
  }

  lemma {:induction false} FramesWidth(slot: AudioSlot, start: nat, n: nat, ac: Acoustics)
    requires SlotFits(slot)
    ensures
      var (after, block) := VoiceFrames(slot, start, n, ac);
      HasWidth(block, SourceWidth(after)) && SourceWidth(after) == SourceWidth(slot)
    decreases n
  {
    hide VoiceFrame, SlotFits;
    if n > 0 {
      FramesWidth(slot, start, n - 1, ac);
      var before := VoiceFrames(slot, start, n - 1, ac).0;
      FrameKeepsSettings(before, start + n - 1, ac);
      SameKind(before, VoiceFrame(before, start + n - 1, ac).0);
    }
  }

  /** Frame f of a bus, once the first k voices have been added. */
  ghost function BusFrame(
    voices: seq<AudioSlot>, r: Rendered, buses: Buses, bus: nat, start: nat, f: nat, k: nat, trig: Trig)
    : (frame: Frame)
    requires r.Covers(|voices|) && f < r.frames && k <= |voices|
    ensures |frame| == 2
  {
    if k == 0 then [0.0, 0.0]
    else
      var before := BusFrame(voices, r, buses, bus, start, f, k - 1, trig);
      if voices[k - 1].state == Playing && ResolveBusIndex(buses, voices[k - 1].targetBus) == bus
      then Heard(before, r.slots[k - 1], r.blocks[k - 1][f], start + f, trig) else before
  }

  /** Frame f of the master bus, once the first k buses have been added to its own voices. */
  ghost function MasterFrame(frames: seq<Frame>, buses: Buses, frame: nat, k: nat): (m: Frame)
    requires 0 < k <= |buses| && |frames| == |buses| && forall b :: 0 <= b < |frames| ==> |frames[b]| == 2
    ensures |m| == 2
    decreases k
  {
    if k == 1 then frames[0]
    else
      var before := MasterFrame(frames, buses, frame, k - 1);
      if buses[k - 1].Alive() then MixFrame(before, frames[k - 1], buses[k - 1].data.ValueAt(frame)) else before
  }

  ghost function BusFrames(voices: seq<AudioSlot>, r: Rendered, buses: Buses, start: nat, f: nat, trig: Trig)
    : (frames: seq<Frame>)
    requires r.Covers(|voices|) && f < r.frames
    ensures |frames| == |buses| && forall b :: 0 <= b < |frames| ==> |frames[b]| == 2
  {
    seq(|buses|, b requires 0 <= b < |buses| => BusFrame(voices, r, buses, b, start, f, |voices|, trig))
  }

  /** What the voices add to frame f of the output. */
  ghost function MixedFrame(voices: seq<AudioSlot>, r: Rendered, buses: Buses, start: nat, f: nat, trig: Trig): (m: Frame)
    requires r.Covers(|voices|) && f < r.frames && |buses| > 0
    ensures |m| == 2
  {
    Scaled(MasterFrame(BusFrames(voices, r, buses, start, f, trig), buses, start + f, |buses|),
           buses[0].data.ValueAt(start + f))
  }

  // ---- One voice into its bus -------------------------------------------------------------------

  /** Pan laws are linear in the gain, so a constant ramp gives the constant-gain pan. */
  lemma ConstantPan(slot: AudioSlot, firstFrame: nat, trig: Trig)
    requires slot.gain.IsConstantFrom(firstFrame)
    ensures forall frame {:trigger GainsAt(EqualPowerPan(trig, slot.pan, 1.0), slot.gain, frame)} ::
              frame >= firstFrame ==>
                GainsAt(EqualPowerPan(trig, slot.pan, 1.0), slot.gain, frame) ==
                EqualPowerPan(trig, slot.pan, slot.gain.target)
    ensures forall frame {:trigger GainsAt(StereoBalanceGains(trig, slot.pan, 1.0), slot.gain, frame)} ::
              frame >= firstFrame ==>
                GainsAt(StereoBalanceGains(trig, slot.pan, 1.0), slot.gain, frame) ==
                StereoBalanceGains(trig, slot.pan, slot.gain.target)
  {
  }

  ghost predicate VoiceAdded(before: Block, after: Block, slot: AudioSlot, block: Block, start: nat, trig: Trig) {
    && |before| == |after| == |block| && HasWidth(before, 2) && HasWidth(block, SourceWidth(slot))
    && forall f :: 0 <= f < |block| ==> after[f] == Heard(before[f], slot, block[f], start + f, trig)
  }

  /** Adds a rendered source to its bus: the constant-gain loops and the ramped ones agree. */
  method AccumulateVoice(slot: AudioSlot, source: Block, bus: AudioBufferView, start: nat, trig: Trig)
    requires bus.Valid() && bus.channels == 2 && Feeds(source, SourceWidth(slot), bus)
    modifies bus.data
    ensures bus.Valid() && SameElsewhere(bus, old(bus.data[..]), bus.data[..])
    ensures VoiceAdded(old(bus.Content()), bus.Content(), slot, source, start, trig)
  {
    hide EqualPowerPan, StereoBalanceGains, GainsAt, SpatialGainsAt, Gained, Heard;
    ghost var was := bus.Content();
    if slot.gain.IsConstantFrom(start) {
      ConstantPan(slot, start, trig);
    }
    if SourceChannels(slot) == 2 {
      if slot.gain.IsConstantFrom(start) {
        AccumulateStereoWithBalance(bus, source, 2, StereoBalanceGains(trig, slot.pan, slot.gain.target));
      } else {
        AccumulateStereoWithBalanceRamped(bus, source, 2, StereoBalanceGains(trig, slot.pan, 1.0), slot.gain, start);
      }
    } else if slot.spatialized {
      AccumulateMonoToStereoSpatial(bus, source, slot.left, slot.right, slot.gain, start);
    } else if slot.gain.IsConstantFrom(start) {
      AccumulateMonoToStereo(bus, source, EqualPowerPan(trig, slot.pan, slot.gain.target));
    } else {
      AccumulateMonoToStereoRamped(bus, source, EqualPowerPan(trig, slot.pan, 1.0), slot.gain, start);
    }
    forall f | 0 <= f < |source| ensures bus.Content()[f] == Heard(was[f], slot, source[f], start + f, trig) {
      HeardGains(was[f], bus.Content()[f], slot, source[f], start + f, trig);
    }
  }

  lemma HeardGains(d: Frame, now: Frame, slot: AudioSlot, s: Frame, frame: nat, trig: Trig)
    requires |d| == 2 && |s| == SourceWidth(slot)
    ensures now == Heard(d, slot, s, frame, trig) <==>
            Gained(d, now, s[0], if SourceChannels(slot) == 2 then s[1] else s[0], VoiceGains(slot, frame, trig))
  {
    hide Gained, Panned, Balanced, GainsAt, SpatialGainsAt, EqualPowerPan, StereoBalanceGains;
    if SourceChannels(slot) == 2 {
      BalancedGains(d, now, s, VoiceGains(slot, frame, trig));
    } else {
      PannedGains(d, now, s, VoiceGains(slot, frame, trig));
    }
  }

  // ---- All voices and all buses -----------------------------------------------------------------

  function Window(data: array<Frame>, n: nat): AudioBufferView {
    AudioBufferView(data, 0, n, 2)
  }

  /** The block holds the bus's first k voices. */
  ghost predicate BusHolds(
    content: Block, before: seq<AudioSlot>, r: Rendered, buses: Buses, b: nat, start: nat, k: nat, trig: Trig)
    requires r.Covers(|before|) && k <= |before|
  {
    && |content| == r.frames
    && forall f :: 0 <= f < r.frames ==> content[f] == BusFrame(before, r, buses, b, start, f, k, trig)
  }

  lemma ClearedHolds(before: seq<AudioSlot>, r: Rendered, buses: Buses, b: nat, start: nat, trig: Trig)
    requires r.Covers(|before|)
    ensures BusHolds(Zeros(r.frames, 2), before, r, buses, b, start, 0, trig)
  {
    assert Silence(2) == [0.0, 0.0];
  }

  lemma HoldsStereo(
    content: Block, before: seq<AudioSlot>, r: Rendered, buses: Buses, b: nat, start: nat, k: nat, trig: Trig)
    requires r.Covers(|before|) && k <= |before| && BusHolds(content, before, r, buses, b, start, k, trig)
    ensures HasWidth(content, 2)
  {
  }

  /** A voice joins its own bus and no other. */
  lemma VoiceJoins(
    was: Block, now: Block, before: seq<AudioSlot>, r: Rendered, buses: Buses, b: nat, start: nat, k: nat, trig: Trig)
    requires r.Covers(|before|) && k < |before| && BusHolds(was, before, r, buses, b, start, k, trig)
    requires
      if before[k].state == Playing && ResolveBusIndex(buses, before[k].targetBus) == b
      then VoiceAdded(was, now, r.slots[k], r.blocks[k], start, trig) else now == was
    ensures BusHolds(now, before, r, buses, b, start, k + 1, trig)
  {
    hide Heard;
  }

  /** A bus into the master: the constant loop and the ramped one agree. */
  method AccumulateBus(master: AudioBufferView, source: Block, gain: Ramp, start: nat)
    requires master.Valid() && master.channels == 2 && Feeds(source, 2, master)
    modifies master.data
    ensures master.Valid() && |master.Content()| == |source|
    ensures forall f :: 0 <= f < |source| ==>
              master.Content()[f] == MixFrame(old(master.Content()[f]), source[f], gain.ValueAt(start + f))
  {
    hide MixChannels;
    if gain.IsConstantFrom(start) {
      AccumulateInto(master, source, gain.target);
      forall f | 0 <= f < |source|
        ensures master.Content()[f] == MixFrame(old(master.Content()[f]), source[f], gain.ValueAt(start + f))
      {
        assert master.Content()[f] == master.data[master.offset + f];
      }
    } else {
      AccumulateIntoRamped(master, source, gain, start);
    }
  }

  /** The master gain: the constant loop and the ramped one agree. */
  method ApplyBusGain(master: AudioBufferView, gain: Ramp, start: nat)
    requires master.Valid()
    modifies master.data
    ensures master.Valid()
    ensures forall f :: 0 <= f < master.frameCount ==>
              master.Content()[f] == Scaled(old(master.Content()[f]), gain.ValueAt(start + f))
  {
    if gain.IsConstantFrom(start) {
      ApplyGain(master, gain.target);
    } else {
      ApplyGainRamped(master, gain, start);
    }
  }

  /** The block holds the master bus with its first k buses mixed in. */
  ghost predicate MasterHolds(
    content: Block, before: seq<AudioSlot>, r: Rendered, buses: Buses, start: nat, k: nat, trig: Trig)
    requires r.Covers(|before|) && 0 < k <= |buses|
  {
    && |content| == r.frames
    && forall f :: 0 <= f < r.frames ==>
         content[f] == MasterFrame(BusFrames(before, r, buses, start, f, trig), buses, start + f, k)
  }

  lemma MasterBegins(content: Block, before: seq<AudioSlot>, r: Rendered, buses: Buses, start: nat, trig: Trig)
    requires r.Covers(|before|) && 0 < |buses| && BusHolds(content, before, r, buses, 0, start, |before|, trig)
    ensures MasterHolds(content, before, r, buses, start, 1, trig)
  {
  }

  lemma BusJoins(
    was: Block, now: Block, bus: Block, before: seq<AudioSlot>, r: Rendered, buses: Buses, start: nat, k: nat, trig: Trig)
    requires r.Covers(|before|) && 0 < k < |buses| && MasterHolds(was, before, r, buses, start, k, trig)
    requires if buses[k].Alive() then
               && BusHolds(bus, before, r, buses, k, start, |before|, trig) && |now| == r.frames
               && HasWidth(was, 2) && HasWidth(bus, 2)
               && forall f :: 0 <= f < r.frames ==> now[f] == MixFrame(was[f], bus[f], buses[k].data.ValueAt(start + f))
             else now == was
    ensures MasterHolds(now, before, r, buses, start, k + 1, trig)
  {
    hide MixChannels, Ramp.ValueAt, BusFrame;
  }

  lemma MasterIsStereo(content: Block, before: seq<AudioSlot>, r: Rendered, buses: Buses, start: nat, k: nat, trig: Trig)
    requires r.Covers(|before|) && 0 < k <= |buses| && MasterHolds(content, before, r, buses, start, k, trig)
    ensures HasWidth(content, 2)
  {
  }

  class Mixer {
    var voices: seq<AudioSlot>
    var buses: Buses
    const accumulators: seq<array<Frame>>
    const mono: array<Frame>
    const stereo: array<Frame>
    const maxFrames: nat
    const ac: Acoustics

    ghost predicate Valid()
      reads this
    {
      && ac.Clamped() && VoicesFit(voices)
      && |accumulators| == |buses| > 0 && buses[0].Alive()
      && (forall b :: 0 <= b < |accumulators| ==> accumulators[b].Length == maxFrames)
      && (forall a, b :: 0 <= a < b < |accumulators| ==> accumulators[a] != accumulators[b])
      && mono.Length == stereo.Length == maxFrames && mono != stereo
      && mono !in accumulators && stereo !in accumulators
    }

    ghost function Buffers(): set<object> {
      {mono, stereo} + set b | 0 <= b < |accumulators| :: accumulators[b]
    }

    /** Every active accumulator holds its bus's first k voices. */
    ghost predicate BusesHold(before: seq<AudioSlot>, r: Rendered, start: nat, k: nat)
      requires |buses| == |accumulators| && r.Covers(|before|) && k <= |before|
      requires forall b :: 0 <= b < |accumulators| ==> r.frames <= accumulators[b].Length
      reads this, Buffers()
    {
      forall b :: 0 <= b < |buses| && buses[b].Alive() ==>
        BusHolds(accumulators[b][..r.frames], before, r, buses, b, start, k, ac.trig)
    }

    method ClearActiveAccumulators(n: nat)
      requires Valid() && n <= maxFrames
      modifies Buffers()
      ensures forall b :: 0 <= b < |buses| && buses[b].Alive() ==> accumulators[b][..n] == Zeros(n, 2)
    {
      for b := 0 to |buses|
        invariant forall a :: 0 <= a < b && buses[a].Alive() ==> accumulators[a][..n] == Zeros(n, 2)
      {
        if buses[b].Alive() {
          Clear(Window(accumulators[b], n));
          assert Window(accumulators[b], n).Content() == accumulators[b][..n];
        }
      }
    }

    /** One voice: its source into scratch, the scratch into its bus. */
    method RenderVoice(i: nat, listener: Place, start: nat, n: nat) returns (ghost block: Block)
      requires Valid() && n <= maxFrames && i < |voices| && voices[i].state == Playing
      requires HasWidth(accumulators[ResolveBusIndex(buses, voices[i].targetBus)][..n], 2)
      modifies this`voices, mono, stereo, accumulators[ResolveBusIndex(buses, voices[i].targetBus)]
      ensures Valid()
      ensures
        var (after, played) := SegmentVoice(old(voices)[i], listener, start, n, ac);
        var acc := accumulators[ResolveBusIndex(buses, old(voices)[i].targetBus)];
        && voices == old(voices)[i := after] && block == played
        && VoiceAdded(old(acc[..n]), acc[..n], after, block, start, ac.trig)
    {
      hide SlotFits, VoiceFrames, UpdatedSpatial, Heard;
      var target := ResolveBusIndex(buses, voices[i].targetBus);
      var slot := voices[i];
      UpdateKeepsFit(slot, listener, ac, start);
      SegmentWidth(slot, listener, start, n, ac);
      var ready := if IsSpatial(slot) then UpdatedSpatial(slot, listener, ac, start) else slot;
      UpdateKeepsKind(slot, listener, ac, start);
      var scratch := if SourceWidth(slot) == 2 then stereo else mono;
      var after := RenderSource(ready, AudioBufferView(scratch, 0, n, SourceWidth(ready)), start, ac);
      block := scratch[..n];
      AccumulateVoice(after, scratch[..n], Window(accumulators[target], n), start, ac.trig);
      voices := voices[i := after];
    }

    /** One turn of the loop over the voices: only playing ones are rendered. */
    method RenderVoiceIfPlaying(
      i: nat, listener: Place, start: nat, n: nat, ghost before: seq<AudioSlot>, ghost r: Rendered)
      requires Valid() && n <= maxFrames && i < |voices| == |before|
      requires r.Covers(|before|) && r.frames == n && voices[i] == before[i] && SlotFits(before[i])
      requires (r.slots[i], r.blocks[i]) == SegmentVoice(before[i], listener, start, n, ac)
      requires BusesHold(before, r, start, i)
      modifies this`voices, Buffers()
      ensures Valid() && voices == old(voices)[i := r.slots[i]] && BusesHold(before, r, start, i + 1)
    {
      hide SlotFits, Heard, SegmentVoice, BusHolds, VoiceAdded, BusFrame;
      if voices[i].state == Playing {
        ghost var target := ResolveBusIndex(buses, voices[i].targetBus);
        HoldsStereo(accumulators[target][..n], before, r, buses, target, start, i, ac.trig);
        ghost var block := RenderVoice(i, listener, start, n);
      } else {
        StillVoice(before[i], listener, start, n, ac);
      }
      forall b | 0 <= b < |buses| && buses[b].Alive()
        ensures BusHolds(accumulators[b][..n], before, r, buses, b, start, i + 1, ac.trig)
      {
        assert BusHolds(old(accumulators[b][..n]), before, r, buses, b, start, i, ac.trig);
        VoiceJoins(old(accumulators[b][..n]), accumulators[b][..n], before, r, buses, b, start, i, ac.trig);
      }
    }

    /** The loop over the voices. */
    method RenderVoices(listener: Place, start: nat, n: nat) returns (ghost r: Rendered)
      requires Valid() && n <= maxFrames
      requires forall b :: 0 <= b < |buses| && buses[b].Alive() ==> accumulators[b][..n] == Zeros(n, 2)
      modifies this`voices, Buffers()
      ensures Valid() && r == RenderedVoices(old(voices), listener, start, n, ac)
      ensures voices == r.slots && BusesHold(old(voices), r, start, |old(voices)|)
    {
      hide SlotFits, SegmentVoice, BusHolds, RenderedVoices;
      r := RenderedVoices(voices, listener, start, n, ac);
      ghost var before := voices;
      forall b | 0 <= b < |buses| && buses[b].Alive()
        ensures BusHolds(accumulators[b][..n], before, r, buses, b, start, 0, ac.trig)
      {
        ClearedHolds(before, r, buses, b, start, ac.trig);
      }
      for i := 0 to |voices|
        invariant Valid() && |voices| == |before|
        invariant forall j :: 0 <= j < |voices| ==> voices[j] == if j < i then r.slots[j] else before[j]
        invariant BusesHold(before, r, start, i)
      {
        RenderVoiceIfPlaying(i, listener, start, n, before, r);
      }
      assert voices == r.slots;
    }

    /** The loop over the buses. */
    method MixBuses(start: nat, n: nat, ghost before: seq<AudioSlot>, ghost r: Rendered)
      requires Valid() && n <= maxFrames && r.frames == n && r.Covers(|before|)
      requires BusesHold(before, r, start, |before|)
      modifies accumulators[0]
      ensures MasterHolds(accumulators[0][..n], before, r, buses, start, |buses|, ac.trig)
    {
      hide BusHolds, MasterHolds, VoicesFit, Ramp.ValueAt;
      var master := Window(accumulators[0], n);
      MasterBegins(accumulators[0][..n], before, r, buses, start, ac.trig);
      for b := 1 to |buses|
        invariant MasterHolds(accumulators[0][..n], before, r, buses, start, b, ac.trig)
      {
        ghost var was := accumulators[0][..n];
        ghost var bus := accumulators[b][..n];
        if buses[b].Alive() {
          MasterIsStereo(was, before, r, buses, start, b, ac.trig);
          HoldsStereo(bus, before, r, buses, b, start, |before|, ac.trig);
          AccumulateBus(master, accumulators[b][..n], buses[b].data, start);
        }
        BusJoins(was, accumulators[0][..n], bus, before, r, buses, start, b, ac.trig);
      }
    }

    /** Everything the voices and buses add to a stereo output. Another width, or more frames than
        the accumulators hold, adds nothing and plays nothing. */
    method RenderVoicesAndBuses(output: AudioBufferView, listener: Place, start: nat)
      requires Valid() && output.Valid() && output.data !in Buffers()
      modifies this`voices, Buffers(), output.data
      ensures Valid() && output.Valid() && SameElsewhere(output, old(output.data[..]), output.data[..])
      ensures output.channels != 2 || output.frameCount > maxFrames ==>
                voices == old(voices) && output.Content() == old(output.Content())
      ensures output.channels == 2 && output.frameCount <= maxFrames ==>
                var r := RenderedVoices(old(voices), listener, start, output.frameCount, ac);
                && voices == r.slots
                && forall f :: 0 <= f < output.frameCount ==>
                     output.Content()[f] ==
                     MixFrame(old(output.Content()[f]), MixedFrame(old(voices), r, buses, start, f, ac.trig), 1.0)
    {
      if output.channels != 2 || output.frameCount > maxFrames {
        return;
      }
      var n := output.frameCount;
      ClearActiveAccumulators(n);
      ghost var before := voices;
      ghost var r := RenderVoices(listener, start, n);
      MixBuses(start, n, before, r);
      AddMaster(output, start, before, r);
    }

    /** The master gain, and the master into the output. */
    method AddMaster(output: AudioBufferView, start: nat, ghost before: seq<AudioSlot>, ghost r: Rendered)
      requires Valid() && output.Valid() && output.frameCount == r.frames <= maxFrames && output.channels == 2
      requires output.data !in Buffers() && r.Covers(|before|)
      requires MasterHolds(accumulators[0][..output.frameCount], before, r, buses, start, |buses|, ac.trig)
      modifies accumulators[0], output.data
      ensures output.Valid() && SameElsewhere(output, old(output.data[..]), output.data[..])
      ensures forall f :: 0 <= f < output.frameCount ==>
                output.Content()[f] ==
                MixFrame(old(output.Content()[f]), MixedFrame(before, r, buses, start, f, ac.trig), 1.0)
    {
      hide VoicesFit, MasterFrame, BusFrames, Ramp.ValueAt, MixChannels;
      var n := output.frameCount;
      var master := Window(accumulators[0], n);
      MasterIsStereo(accumulators[0][..n], before, r, buses, start, |buses|, ac.trig);
      ApplyBusGain(master, buses[0].data, start);
      ghost var mixed := accumulators[0][..n];
      forall f | 0 <= f < n ensures mixed[f] == MixedFrame(before, r, buses, start, f, ac.trig) {
        assert mixed[f] == master.Content()[f];
      }
      AccumulateInto(output, accumulators[0][..n], 1.0);
      forall f | 0 <= f < n
        ensures output.Content()[f] ==
                MixFrame(old(output.Content()[f]), MixedFrame(before, r, buses, start, f, ac.trig), 1.0)
      {
        assert output.Content()[f] == output.data[output.offset + f];
      }
    }
  }

  lemma StillVoice(slot: AudioSlot, listener: Place, start: nat, n: nat, ac: Acoustics)
    requires SlotFits(slot) && ac.Clamped() && slot.state != Playing
    ensures SegmentVoice(slot, listener, start, n, ac).0 == slot
  {
  }
}
