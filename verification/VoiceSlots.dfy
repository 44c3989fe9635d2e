/** What the audio thread keeps about one voice and what each command does to it
    (src/lavanda/runtime/voice_pool.h, src/lavanda/runtime/voice_pool.cc:127-324). Times and gains
    are exact reals. */
module VoiceSlots {
  import opened Prelude
  import opened Signals
  import opened Resources
  import opened Handles
  import opened Ramps
  import opened MixerMath

  /** A listener or an emitter: position, velocity and orientation. */
  type Place = seq<real>

  datatype AudioSlot = AudioSlot(
    state: VoiceState, generation: nat, frequency: real, gain: Ramp, pan: real, targetBus: BusId, phase: real,
    backing: Option<AssetId>, asset: Option<AudioAsset>, position: nat,
    spatialized: bool, snapSpatial: bool, emitter: Place, left: Ramp, right: Ramp, ratio: Ramp, cursor: real)

  /** The commands a voice takes, without the handle they carry. */
  datatype VoiceOp =
    | CreateOn(asset: Option<AssetId>) | StartPlaying | StopPlaying | DestroyIt
    | SetGain(gain: real) | RampGain(goal: real, duration: nat) | SetPan(pan: real) | SetFrequency(frequency: real)
    | SetBus(bus: BusId) | SetEmitter(emitter: Place) | SetSpatialization(enable: bool)

  const EMPTY_SLOT := AudioSlot(
    Inactive, 0, 440.0, Steady(1.0), 0.0, MASTER_BUS, 0.0, None, None, 0,
    false, true, [], Steady(1.0), Steady(1.0), Steady(1.0), 0.0)

  function Length(slot: AudioSlot): nat {
    if slot.asset.Some? then |slot.asset.value.samples| else 0
  }

  function SourceChannels(slot: AudioSlot): nat {
    if slot.asset.Some? then slot.asset.value.channels else 1
  }

  // ---- Commands -------------------------------------------------------------------------------

  function Created(id: VoiceId, backing: Option<AssetId>, asset: Option<AudioAsset>): AudioSlot {
    EMPTY_SLOT.(generation := id.generation, state := Stopped, backing := backing, asset := asset)
  }

  function Silenced(slot: AudioSlot): AudioSlot {
    slot.(backing := None, asset := None, position := 0, cursor := 0.0)
  }

  /** Switching spatial rendering on and off hands the playback position over between the whole
      and the fractional cursor. */
  function Spatialized(slot: AudioSlot, enable: bool, trig: Trig): AudioSlot {
    if enable == slot.spatialized then slot
    else if !enable then
      slot.(spatialized := false,
            position := if slot.asset.Some?
                        then (Clamp(slot.cursor.Floor as real, 0.0, Length(slot) as real)).Floor else slot.position)
    else if SourceChannels(slot) != 1 then slot
    else
      var here := slot.(cursor := slot.position as real, spatialized := true);
      if slot.state == Playing then
        var manual := EqualPowerPan(trig, slot.pan, 1.0);
        here.(left := Steady(manual.left), right := Steady(manual.right), ratio := Steady(1.0), snapSpatial := false)
      else here.(snapSpatial := true)
  }

  /** What a command does to the slot its handle is valid for. */
  function Commanded(slot: AudioSlot, op: VoiceOp, frame: nat, trig: Trig): AudioSlot
    requires !op.CreateOn?
  {
    match op
    case StartPlaying =>
      if slot.backing.Some? && slot.asset.None? then slot
      else slot.(state := Playing, snapSpatial := slot.snapSpatial || slot.state != Playing)
    case StopPlaying => slot.(state := Stopped, position := 0, cursor := 0.0)
    case DestroyIt => Silenced(slot).(state := Inactive)
    case SetGain(gain) => slot.(gain := Steady(gain))
    case RampGain(goal, duration) => slot.(gain := slot.gain.Started(frame, goal, duration))
    case SetPan(pan) => slot.(pan := pan)
    case SetFrequency(frequency) => slot.(frequency := frequency)
    case SetBus(bus) => slot.(targetBus := bus)
    case SetEmitter(emitter) => slot.(emitter := emitter)
    case SetSpatialization(enable) => Spatialized(slot, enable, trig)
  }

  /** Playback positions stay inside the asset, and the Doppler ratio inside its clamp. */
  ghost predicate SlotFits(slot: AudioSlot) {
    && (slot.position == 0 || slot.position < Length(slot))
    && (slot.cursor == 0.0 || 0.0 < slot.cursor < Length(slot) as real)
    && RampWithin(slot.ratio, 0.5, 2.0)
    && (slot.asset.Some? ==> HasWidth(slot.asset.value.samples, slot.asset.value.channels))
    && (slot.backing.None? ==> slot.asset.None?)
  }

  lemma CommandsKeepFit(slot: AudioSlot, op: VoiceOp, frame: nat, trig: Trig)
    requires SlotFits(slot) && !op.CreateOn?
    ensures SlotFits(Commanded(slot, op, frame, trig))
  {
  }

  /** The slot as the handle protocol sees it. */
  function AsSlot(slot: AudioSlot): Slot<AudioSlot> {
    Slot(slot.state, slot.generation, slot)
  }

  function AsSlots(slots: seq<AudioSlot>): seq<Slot<AudioSlot>> {
    seq(|slots|, i requires 0 <= i < |slots| => AsSlot(slots[i]))
  }

  /** A command other than creation and destruction is a touch of the handle protocol: it keeps the
      occupant alive under its generation. */
  lemma CommandsAreTouches(slot: AudioSlot, op: VoiceOp, frame: nat, trig: Trig)
    requires !op.CreateOn? && slot.state != Inactive
    ensures Commanded(slot, op, frame, trig).generation == slot.generation
    ensures Commanded(slot, op, frame, trig).state != Inactive <==> !op.DestroyIt?
  {
  }
}
