/** What the commands do, field by field (src/lavanda/runtime/voice_pool.cc:127-324,
    src/lavanda/runtime/bus_system.cc:60-130, src/lavanda/runtime/audio_runtime.cc:595-626): each
    changes what it names and nothing else. */
module CommandLaws {
  import opened Prelude
  import opened Signals
  import opened Resources
  import opened Handles
  import opened Ramps
  import opened MixerMath
  import opened VoiceSlots
  import opened VoicePools
  import opened VoiceRendering
  import opened VoiceSegments
  import opened BusSystems
  import GraphModel
  import opened GraphMeaning
  import opened NodeParameters
  import opened Engine

  // ---- Voices -----------------------------------------------------------------------------------

  /** What a voice plays and how far it has got. */
  predicate SameSource(a: AudioSlot, b: AudioSlot) {
    && a.generation == b.generation && a.backing == b.backing && a.asset == b.asset && a.frequency == b.frequency
    && a.phase == b.phase
  }

  /** Where a voice is heard. */
  predicate SamePlace(a: AudioSlot, b: AudioSlot) {
    && a.gain == b.gain && a.pan == b.pan && a.targetBus == b.targetBus && a.emitter == b.emitter
    && a.left == b.left && a.right == b.right && a.ratio == b.ratio && a.spatialized == b.spatialized
  }

  predicate SameProgress(a: AudioSlot, b: AudioSlot) {
    && a.state == b.state && a.position == b.position && a.cursor == b.cursor && a.snapSpatial == b.snapSpatial
  }

  /** A created voice is stopped at its beginning, at full gain in the middle of the master bus, not
      spatialized, and holds the asset that was found for it. */
  lemma CreatedVoices(id: VoiceId, backing: Option<AssetId>, asset: Option<AudioAsset>)
    ensures
      var slot := Created(id, backing, asset);
      && slot.state == Stopped && slot.generation == id.generation && slot.backing == backing && slot.asset == asset
      && slot.position == 0 && slot.cursor == 0.0 && slot.phase == 0.0 && slot.frequency == 440.0
      && (forall frame :: slot.gain.ValueAt(frame) == 1.0) && slot.pan == 0.0 && slot.targetBus == Handle(0, 0)
      && !slot.spatialized
  {
  }

  /** Starting a voice whose asset is gone does nothing; any other plays on from where it is, and jumps
      to its place if it was not playing. Stopping rewinds. */
  lemma StartAndStop(slot: AudioSlot, frame: nat, trig: Trig)
    ensures
      var playing := Commanded(slot, StartPlaying, frame, trig);
      if slot.backing.Some? && slot.asset.None? then playing == slot
      else
        && SameSource(playing, slot) && SamePlace(playing, slot)
        && playing.state == Playing && playing.position == slot.position && playing.cursor == slot.cursor
        && (playing.snapSpatial <==> slot.snapSpatial || slot.state != Playing)
    ensures
      var stopped := Commanded(slot, StopPlaying, frame, trig);
      && SameSource(stopped, slot) && SamePlace(stopped, slot)
      && stopped.state == Stopped && stopped.position == 0 && stopped.cursor == 0.0
      && stopped.snapSpatial == slot.snapSpatial
  {
  }

  /** Destruction lets go of the asset and of the position, and keeps the rest. */
  lemma Destruction(slot: AudioSlot, frame: nat, trig: Trig)
    ensures
      var gone := Commanded(slot, DestroyIt, frame, trig);
      && gone.state == Inactive && gone.generation == slot.generation && SamePlace(gone, slot)
      && gone.backing.None? && gone.asset.None? && gone.position == 0 && gone.cursor == 0.0
      && gone.frequency == slot.frequency && gone.phase == slot.phase && gone.snapSpatial == slot.snapSpatial
  {
  }

  /** Each setting reaches its field: a gain is there at every frame, a gain ramp moves from the present
      value in even steps, and pan, frequency, bus and emitter are those given. */
  lemma SettingsReachTheirFields(
    slot: AudioSlot, frame: nat, trig: Trig, value: real, duration: nat, bus: BusId, place: Place)
    ensures
      var given := Commanded(slot, SetGain(value), frame, trig);
      given == slot.(gain := given.gain) && forall at :: given.gain.ValueAt(at) == value
    ensures
      var ramped := Commanded(slot, RampGain(value, duration), frame, trig);
      && ramped == slot.(gain := ramped.gain)
      && (0 < duration && frame + duration <= MAX_FRAME ==>
            forall at :: frame <= at <= frame + duration ==>
              (ramped.gain.ValueAt(at) - slot.gain.ValueAt(frame)) * duration as real ==
              (value - slot.gain.ValueAt(frame)) * (at - frame) as real)
      && (frame <= MAX_FRAME ==> forall at :: at >= frame + duration ==> ramped.gain.ValueAt(at) == value)
    ensures Commanded(slot, SetPan(value), frame, trig) == slot.(pan := value)
    ensures Commanded(slot, SetFrequency(value), frame, trig) == slot.(frequency := value)
    ensures Commanded(slot, SetBus(bus), frame, trig) == slot.(targetBus := bus)
    ensures Commanded(slot, SetEmitter(place), frame, trig) == slot.(emitter := place)
  {
    if 0 < duration && frame + duration <= MAX_FRAME {
      StartedMovesSteadily(slot.gain, frame, value, duration);
    }
    if frame <= MAX_FRAME {
      RampEnds(slot.gain, frame, value, duration);
    }
  }

  /** Switching spatial rendering: only mono sources can be switched on. The position is handed to the
      fractional cursor and back, rounded down, so playback goes on where it was; a voice switched on
      while playing starts its ramps at its panned gains and at its own speed, and any other jumps to
      its place when it starts. */
  lemma SpatialSwitch(slot: AudioSlot, frame: nat, trig: Trig)
    requires SlotFits(slot)
    ensures
      var on := Commanded(slot, SetSpatialization(true), frame, trig);
      if slot.spatialized || SourceChannels(slot) != 1 then on == slot
      else
        && SameSource(on, slot) && on.state == slot.state && on.position == slot.position
        && on.spatialized && on.cursor == slot.position as real
        && on.gain == slot.gain && on.pan == slot.pan && on.targetBus == slot.targetBus && on.emitter == slot.emitter
        && (on.snapSpatial <==> slot.state != Playing)
        && (slot.state == Playing ==> forall at ::
              && on.left.ValueAt(at) == EqualPowerPan(trig, slot.pan, 1.0).left
              && on.right.ValueAt(at) == EqualPowerPan(trig, slot.pan, 1.0).right && on.ratio.ValueAt(at) == 1.0)
    ensures
      var off := Commanded(slot, SetSpatialization(false), frame, trig);
      if !slot.spatialized then off == slot
      else
        && off == slot.(spatialized := false, position := off.position)
        && (slot.asset.None? ==> off.position == slot.position)
        && (slot.asset.Some? ==> off.position as real <= slot.cursor < off.position as real + 1.0)
  {
  }

  /** At the start of a segment a spatial voice's ramps head for where the geometry puts it: at once
      the first time, and else from their present values over the smoothing time, unless they already
      head there. */
  lemma UpdatesHeadForTheGoal(slot: AudioSlot, listener: Place, ac: Acoustics, now: nat)
    requires slot.spatialized && now < MAX_FRAME && ac.smoothing > 0
    ensures
      var goal := ac.spatialTarget(listener, slot.emitter);
      var after := UpdatedSpatial(slot, listener, ac, now);
      && after == slot.(left := after.left, right := after.right, ratio := after.ratio, snapSpatial := false)
      && (after.left.target, after.right.target, after.ratio.target) == (goal.left, goal.right, goal.ratio)
      && (slot.snapSpatial ==> forall at ::
            && after.left.ValueAt(at) == goal.left && after.right.ValueAt(at) == goal.right
            && after.ratio.ValueAt(at) == goal.ratio)
      && (!slot.snapSpatial ==>
            && after.left.ValueAt(now) == slot.left.ValueAt(now) && after.right.ValueAt(now) == slot.right.ValueAt(now)
            && after.ratio.ValueAt(now) == slot.ratio.ValueAt(now))
  {
    RestartIsContinuous(slot.left, now, ac.spatialTarget(listener, slot.emitter).left, ac.smoothing);
    RestartIsContinuous(slot.right, now, ac.spatialTarget(listener, slot.emitter).right, ac.smoothing);
    RestartIsContinuous(slot.ratio, now, ac.spatialTarget(listener, slot.emitter).ratio, ac.smoothing);
  }

  /** A command reaches exactly the slot its handle names: a creation whatever is there, any other only
      the occupant the handle was given for. */
  lemma CommandsReachTheirVoice(
    slots: seq<AudioSlot>, id: VoiceId, op: VoiceOp, frame: nat, trig: Trig, found: Option<AudioAsset>)
    ensures
      var after := PoolCommanded(slots, id, op, frame, trig, found);
      && |after| == |slots|
      && forall i :: 0 <= i < |slots| ==>
           after[i] ==
           if i != id.index then slots[i]
           else if op.CreateOn? then Created(id, op.asset, found)
           else if slots[i].generation == id.generation && slots[i].state != Inactive
           then Commanded(slots[i], op, frame, trig)
           else slots[i]
  {
  }

  // ---- Buses ------------------------------------------------------------------------------------

  /** A command changes at most the bus it names. */
  lemma OtherBusesStay(buses: seq<Slot<Ramp>>, id: BusId, op: BusOp, frame: nat)
    ensures
      var after := BusesCommanded(buses, id, op, frame);
      |after| == |buses| && forall i :: 0 <= i < |buses| && i != id.index ==> after[i] == buses[i]
  {
  }

  /** A created bus is active at full gain under its handle,
      a destroyed one inactive; the master is neither. Gains reach only a bus whose handle is valid. */
  lemma CommandsReachTheirBus(buses: seq<Slot<Ramp>>, id: BusId, frame: nat, gain: real, duration: nat)
    requires |buses| > 0 && forall i :: 0 <= i < |buses| ==> buses[i].state != Playing
    ensures id.index == 0 ==>
              BusesCommanded(buses, id, CreateBus, frame) == buses == BusesCommanded(buses, id, DestroyBus, frame)
    ensures 0 < id.index < |buses| ==>
              var created := BusesCommanded(buses, id, CreateBus, frame);
              && |created| == |buses| && created[id.index].Alive() && created[id.index].generation == id.generation
              && (forall at :: created[id.index].data.ValueAt(at) == 1.0)
    ensures 0 < id.index < |buses| && IsValidTarget(buses, id) ==>
              var gone := BusesCommanded(buses, id, DestroyBus, frame);
              |gone| == |buses| && gone[id.index] == buses[id.index].(state := Inactive)
    ensures IsValidTarget(buses, id) ==>
              var given := BusesCommanded(buses, id, SetBusGain(gain), frame);
              var ramped := BusesCommanded(buses, id, RampBusGain(gain, duration), frame);
              && |given| == |ramped| == |buses|
              && given[id.index] == buses[id.index].(data := Steady(gain))
              && ramped[id.index] == buses[id.index].(data := buses[id.index].data.Started(frame, gain, duration))
    ensures !IsValidTarget(buses, id) ==>
              && BusesCommanded(buses, id, SetBusGain(gain), frame) == buses
              && BusesCommanded(buses, id, RampBusGain(gain, duration), frame) == buses
              && BusesCommanded(buses, id, DestroyBus, frame) == buses
  {
  }

  // ---- The engine -------------------------------------------------------------------------------

  /** What the engine does with a command when the callback comes to it: the tone's commands and the
      listener's set what they name, and a command for a voice or a bus is its pool's affair. */
  lemma CommandsReachTheirPart(rig: Rig, e: EngineState, frame: nat, value: real, place: Place, id: VoiceId,
                               change: VoiceChange, bus: BusId, op: BusOp)
    requires rig.Fits()
    ensures
      var apply := EngineMachine(rig).apply;
      && apply(e, ToneCommand(StartTone), frame) == e.(tone := e.tone.(playing := true))
      && apply(e, ToneCommand(StopTone), frame) == e.(tone := e.tone.(playing := false))
      && apply(e, ToneCommand(SetToneFrequency(value)), frame) == e.(tone := e.tone.(frequency := value))
      && apply(e, ToneCommand(SetToneGain(value)), frame) == e.(tone := e.tone.(gain := value))
      && apply(e, ListenerCommand(place), frame) == e.(listener := place)
      && apply(e, VoiceCommand(id, change), frame) ==
         e.(voices := PoolCommanded(e.voices, id, change, frame, rig.ac.trig, None))
      && apply(e, BusCommand(bus, op), frame) == e.(buses := BusesCommanded(e.buses, bus, op, frame))
  {
    hide Rig.Fits, RenderedSegment, Renderable;
  }

  /** A node's parameter reaches that node of the active graph, if it is there. */
  lemma ParametersReachTheirNode(
    rig: Rig, e: EngineState, node: GraphModel.NodeId, parameter: NodeParameter, frame: nat)
    requires rig.Fits()
    ensures
      var after := EngineMachine(rig).apply(e, NodeCommand(node, parameter), frame);
      && after == e.(nodes := after.nodes) && after.nodes.Keys == e.nodes.Keys
      && forall id :: id in e.nodes ==>
           after.nodes[id] == if rig.graph.Some? && id == node then WithParameter(e.nodes[id], parameter) else e.nodes[id]
  {
    hide Rig.Fits, RenderedSegment, Renderable, WithParameter;
  }
}
