/** A voice over the segments of a callback (src/lavanda/runtime/voice_pool.cc:454-552,
    src/lavanda/runtime/audio_runtime.cc:649-718): segment boundaries do not change what it plays,
    and Doppler shifting bounds how long it plays. */
module VoiceSegments {
  import opened Prelude
  import opened Signals
  import opened Blocks
  import opened Handles
  import opened Ramps
  import opened MixerMath
  import opened VoiceSlots
  import opened VoiceRendering

  /** Retargets the three spatial ramps at the start of a segment, unless they already head there;
      the first time after a start they jump. */
  function UpdatedSpatial(slot: AudioSlot, listener: Place, ac: Acoustics, now: nat): AudioSlot {
    var goal := ac.spatialTarget(listener, slot.emitter);
    if !slot.spatialized then slot
    else if slot.snapSpatial then
      slot.(left := Steady(goal.left), right := Steady(goal.right), ratio := Steady(goal.ratio), snapSpatial := false)
    else if goal == SpatialTarget(slot.left.target, slot.right.target, slot.ratio.target) then slot
    else
      slot.(left := slot.left.Started(now, goal.left, ac.smoothing),
            right := slot.right.Started(now, goal.right, ac.smoothing),
            ratio := slot.ratio.Started(now, goal.ratio, ac.smoothing))
  }

  /** What a voice does in one segment: only a playing voice is rendered. */
  ghost function SegmentVoice(slot: AudioSlot, listener: Place, start: nat, n: nat, ac: Acoustics)
    : (r: (AudioSlot, Block))
    requires SlotFits(slot) && ac.Clamped()
    ensures SlotFits(r.0) && |r.1| == n
  {
    if slot.state != Playing then (slot, Zeros(n, SourceWidth(slot)))
    else
      UpdateKeepsFit(slot, listener, ac, start);
      VoiceFrames(if IsSpatial(slot) then UpdatedSpatial(slot, listener, ac, start) else slot, start, n, ac)
  }

  lemma UpdateKeepsFit(slot: AudioSlot, listener: Place, ac: Acoustics, now: nat)
    requires SlotFits(slot) && ac.Clamped()
    ensures SlotFits(UpdatedSpatial(slot, listener, ac, now))
  {
    assert Within(ac.spatialTarget(listener, slot.emitter).ratio, 0.5, 2.0);
    ValueStaysBetween(slot.ratio, now, 0.5, 2.0);
  }

  /** Everything rendering a voice leaves alone. */
  function Settings(slot: AudioSlot): AudioSlot {
    slot.(state := Stopped, position := 0, cursor := 0.0, phase := 0.0)
  }

  lemma {:induction false} FramesKeepSettings(slot: AudioSlot, start: nat, n: nat, ac: Acoustics)
    requires SlotFits(slot)
    ensures Settings(VoiceFrames(slot, start, n, ac).0) == Settings(slot)
    decreases n
  {
    hide SlotFits, VoiceFrame, Settings;
    if n > 0 {
      FramesKeepSettings(slot, start, n - 1, ac);
      FrameKeepsSettings(VoiceFrames(slot, start, n - 1, ac).0, start + n - 1, ac);
    }
  }

  lemma FrameKeepsSettings(slot: AudioSlot, frame: nat, ac: Acoustics)
    requires SlotFits(slot)
    ensures Settings(VoiceFrame(slot, frame, ac).0) == Settings(slot)
  {
  }

  /** A second update with nothing changed in between changes nothing. */
  lemma UpdateSettles(slot: AudioSlot, rendered: AudioSlot, listener: Place, ac: Acoustics, now: nat, later: nat)
    requires Settings(rendered) == Settings(UpdatedSpatial(slot, listener, ac, now)) && slot.spatialized
    ensures UpdatedSpatial(rendered, listener, ac, later) == rendered
  {
  }

  /** Playing n frames and then k more is playing n + k frames. */
  lemma VoiceSplits(slot: AudioSlot, listener: Place, start: nat, n: nat, k: nat, ac: Acoustics)
    requires SlotFits(slot) && ac.Clamped()
    ensures
      var (middle, first) := SegmentVoice(slot, listener, start, n, ac);
      var (end, second) := SegmentVoice(middle, listener, start + n, k, ac);
      SegmentVoice(slot, listener, start, n + k, ac) == (end, first + second)
  {
    hide VoiceFrames, SlotFits, UpdatedSpatial;
    if slot.state != Playing {
      assert Zeros(n + k, SourceWidth(slot)) == Zeros(n, SourceWidth(slot)) + Zeros(k, SourceWidth(slot));
    } else {
      UpdateKeepsFit(slot, listener, ac, start);
      var ready := if IsSpatial(slot) then UpdatedSpatial(slot, listener, ac, start) else slot;
      FramesCompose(ready, start, n, k, ac);
      FramesKeepSettings(ready, start, n, ac);
      var middle := VoiceFrames(ready, start, n, ac).0;
      if middle.state != Playing {
        IdleFrames(middle, start + n, k, ac);
      } else {
        UpdateKeepsKind(slot, listener, ac, start);
        SameKind(ready, middle);
        if IsSpatial(slot) {
          UpdateSettles(slot, middle, listener, ac, start, start + n);
        }
      }
    }
  }

  lemma UpdateKeepsKind(slot: AudioSlot, listener: Place, ac: Acoustics, now: nat)
    ensures IsSpatial(UpdatedSpatial(slot, listener, ac, now)) == IsSpatial(slot)
  {
  }

  lemma SameKind(a: AudioSlot, b: AudioSlot)
    requires Settings(a) == Settings(b)
    ensures IsSpatial(a) == IsSpatial(b) && SourceWidth(a) == SourceWidth(b)
  {
    assert a.asset == Settings(a).asset && b.asset == Settings(b).asset;
    assert a.spatialized == Settings(a).spatialized && b.spatialized == Settings(b).spatialized;
  }

  // ---- How long a spatial voice plays -------------------------------------------------------------

  /** A segment with where the listener and the emitter were during it. */
  datatype Scene = Scene(listener: Place, emitter: Place, frames: nat)

  ghost function Frames(scenes: seq<Scene>): nat
    decreases |scenes|
  {
    if scenes == [] then 0 else scenes[0].frames + Frames(scenes[1..])
  }

  ghost function Performed(slot: AudioSlot, start: nat, scenes: seq<Scene>, ac: Acoustics): (end: AudioSlot)
    requires SlotFits(slot) && ac.Clamped()
    ensures SlotFits(end)
    decreases |scenes|
  {
    if scenes == [] then slot
    else
      var here := slot.(emitter := scenes[0].emitter);
      Performed(SegmentVoice(here, scenes[0].listener, start, scenes[0].frames, ac).0,
                start + scenes[0].frames, scenes[1..], ac)
  }

  /** Between half and twice as many source frames as output frames have gone by. */
  ghost predicate OnSchedule(slot: AudioSlot, played: nat) {
    && slot.asset.Some? && IsSpatial(slot) && SourceChannels(slot) == 1 && slot.backing.Some? && Length(slot) > 0
    && (slot.state == Playing ==> played as real / 2.0 <= slot.cursor <= 2.0 * played as real)
    && (slot.state != Playing ==> slot.state == Stopped && 2 * played >= Length(slot))
  }

  lemma {:induction false} FramesStayOnSchedule(slot: AudioSlot, start: nat, n: nat, ac: Acoustics, played: nat)
    requires SlotFits(slot) && ac.rate > 0.0 && OnSchedule(slot, played)
    ensures OnSchedule(VoiceFrames(slot, start, n, ac).0, played + n)
    ensures Length(VoiceFrames(slot, start, n, ac).0) == Length(slot)
    decreases n
  {
    hide SlotFits, VoiceFrame, IsSpatial;
    if n > 0 {
      FramesStayOnSchedule(slot, start, n - 1, ac, played);
      var before := VoiceFrames(slot, start, n - 1, ac).0;
      FrameStaysOnSchedule(before, start + n - 1, ac, played + n - 1);
    }
  }

  lemma FrameStaysOnSchedule(slot: AudioSlot, frame: nat, ac: Acoustics, played: nat)
    requires SlotFits(slot) && ac.rate > 0.0 && OnSchedule(slot, played)
    ensures OnSchedule(VoiceFrame(slot, frame, ac).0, played + 1)
    ensures Length(VoiceFrame(slot, frame, ac).0) == Length(slot)
  {
    ValueStaysBetween(slot.ratio, frame, 0.5, 2.0);
  }

  lemma {:induction false} PerformanceStaysOnSchedule(
    slot: AudioSlot, start: nat, scenes: seq<Scene>, ac: Acoustics, played: nat)
    requires SlotFits(slot) && ac.Clamped() && ac.rate > 0.0 && OnSchedule(slot, played)
    ensures OnSchedule(Performed(slot, start, scenes, ac), played + Frames(scenes))
    ensures Length(Performed(slot, start, scenes, ac)) == Length(slot)
    decreases |scenes|
  {
    hide SlotFits, VoiceFrames;
    if scenes != [] {
      SceneStaysOnSchedule(slot, start, scenes[0], ac, played);
      var here := slot.(emitter := scenes[0].emitter);
      var next := SegmentVoice(here, scenes[0].listener, start, scenes[0].frames, ac).0;
      PerformanceStaysOnSchedule(next, start + scenes[0].frames, scenes[1..], ac, played + scenes[0].frames);
    }
  }

  lemma SceneStaysOnSchedule(slot: AudioSlot, start: nat, scene: Scene, ac: Acoustics, played: nat)
    requires SlotFits(slot) && ac.Clamped() && ac.rate > 0.0 && OnSchedule(slot, played)
    ensures SlotFits(slot.(emitter := scene.emitter))
    ensures
      var next := SegmentVoice(slot.(emitter := scene.emitter), scene.listener, start, scene.frames, ac).0;
      OnSchedule(next, played + scene.frames) && Length(next) == Length(slot)
  {
    hide VoiceFrames;
    var here := slot.(emitter := scene.emitter);
    if slot.state == Playing {
      UpdateKeepsFit(here, scene.listener, ac, start);
      FramesStayOnSchedule(UpdatedSpatial(here, scene.listener, ac, start), start, scene.frames, ac, played);
    }
  }

  /** A mono asset of N frames that is spatialized from its start, however listener and emitter
      move, is still playing while fewer than N / 2 frames have gone by, and has ended once 2 N
      have. */
  lemma SpatialPlaybackTime(slot: AudioSlot, start: nat, scenes: seq<Scene>, ac: Acoustics)
    requires SlotFits(slot) && ac.Clamped() && ac.rate > 0.0
    requires slot.state == Playing && slot.cursor == 0.0 && slot.backing.Some?
    requires slot.asset.Some? && SourceChannels(slot) == 1 && slot.spatialized && Length(slot) > 0
    ensures 2 * Frames(scenes) < Length(slot) ==> Performed(slot, start, scenes, ac).state == Playing
    ensures Frames(scenes) >= 2 * Length(slot) ==> Performed(slot, start, scenes, ac).state == Stopped
  {
    PerformanceStaysOnSchedule(slot, start, scenes, ac, 0);
  }
}
