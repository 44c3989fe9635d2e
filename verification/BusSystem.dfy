/** The buses (src/lavanda/runtime/bus_system.cc): reservations on the control side, active slots on
    the audio side, and the master bus that is neither reserved nor destroyed. */
module BusSystems {
  import opened Prelude
  import opened Handles
  import opened Ramps

  datatype BusOp = CreateBus | DestroyBus | SetBusGain(gain: real) | RampBusGain(goal: real, duration: nat)

  /** What a command does to the slots. A destroyed bus keeps its gain until it is created again. */
  function BusesCommanded(slots: seq<Slot<Ramp>>, id: BusId, op: BusOp, frame: nat): seq<Slot<Ramp>> {
    match op
    case CreateBus =>
      if id.index == 0 || id.index >= |slots| then slots
      else slots[id.index := Applied(slots[id.index], Create(id, Steady(1.0)), id.index, true)]
    case DestroyBus =>
      if id.index >= |slots| then slots
      else slots[id.index := Applied(slots[id.index], Destroy(id), id.index, true)]
    case SetBusGain(gain) => Touched(slots, id, Inactive, Steady(gain))
    case RampBusGain(goal, duration) =>
      if id.index >= |slots| then slots
      else Touched(slots, id, Inactive, slots[id.index].data.Started(frame, goal, duration))
  }

  class BusSystem {
    var controlSlots: seq<ControlSlot>
    var audioSlots: seq<Slot<Ramp>>

    /** The master bus is always active, always under generation zero, and never free. */
    ghost predicate Valid()
      reads this
    {
      && |controlSlots| == |audioSlots| > 0
      && controlSlots[0] == ControlSlot(true, 0)
      && audioSlots[0].Alive() && audioSlots[0].generation == 0
      && forall i :: 0 <= i < |audioSlots| ==> audioSlots[i].state != Playing
    }

    constructor (userBuses: nat)
      ensures Valid() && |audioSlots| == userBuses + 1
      ensures forall i :: 0 < i < |audioSlots| ==>
                !audioSlots[i].Alive() && controlSlots[i] == ControlSlot(false, 0)
    {
      controlSlots := [ControlSlot(true, 0)] + seq(userBuses, _ => ControlSlot(false, 0));
      audioSlots := [Slot(Stopped, 0, Steady(1.0))] + seq(userBuses, _ => Slot(Inactive, 0, Steady(1.0)));
    }

    method ReserveSlot() returns (r: Result<BusId>)
      requires Valid()
      modifies this`controlSlots
      ensures Valid()
      ensures r.Success? <==> exists i :: 0 <= i < |controlSlots| && !old(controlSlots)[i].inUse
      ensures r.Failure? ==> r.status == ResourceExhausted && controlSlots == old(controlSlots)
      ensures r.Success? ==>
                var i := r.value.index;
                && 0 < i < |controlSlots| && !old(controlSlots)[i].inUse
                && (forall k :: 0 <= k < i ==> old(controlSlots)[k].inUse)
                && r.value.generation == old(controlSlots)[i].nextGeneration + 1
                && controlSlots == old(controlSlots)[i := ControlSlot(true, r.value.generation)]
    {
      for i := 0 to |controlSlots|
        invariant controlSlots == old(controlSlots)
        invariant forall k :: 0 <= k < i ==> controlSlots[k].inUse
      {
        if !controlSlots[i].inUse {
          controlSlots := controlSlots[i := ControlSlot(true, controlSlots[i].nextGeneration + 1)];
          return Success(Handle(i, controlSlots[i].nextGeneration));
        }
      }
      return Failure(ResourceExhausted);
    }

    /** The master bus is never released. */
    method ReleaseSlot(id: BusId)
      requires Valid()
      modifies this`controlSlots
      ensures Valid() && controlSlots == if id.index == 0 then old(controlSlots) else FreeSlot(old(controlSlots), id)
      ensures forall i :: 0 <= i < |controlSlots| ==>
                && controlSlots[i].nextGeneration == old(controlSlots)[i].nextGeneration
                && (controlSlots[i].inUse <==>
                      && old(controlSlots)[i].inUse
                      && !(0 < i == id.index && old(controlSlots)[i].nextGeneration == id.generation))
    {
      if id.index == 0 || id.index >= |controlSlots| {
        return;
      }
      if !controlSlots[id.index].inUse || controlSlots[id.index].nextGeneration != id.generation {
        return;
      }
      controlSlots := controlSlots[id.index := controlSlots[id.index].(inUse := false)];
    }

    method ApplyCommand(id: BusId, op: BusOp, frame: nat)
      requires Valid()
      modifies this`audioSlots
      ensures Valid() && audioSlots == BusesCommanded(old(audioSlots), id, op, frame)
    {
      match op
      case CreateBus =>
        if id.index == 0 || id.index >= |audioSlots| {
          return;
        }
        audioSlots := audioSlots[id.index := Slot(Stopped, id.generation, Steady(1.0))];
      case DestroyBus =>
        if id.index == 0 || !IsValidTarget(audioSlots, id) {
          return;
        }
        audioSlots := audioSlots[id.index := audioSlots[id.index].(state := Inactive)];
      case SetBusGain(gain) =>
        if !IsValidTarget(audioSlots, id) {
          return;
        }
        audioSlots := audioSlots[id.index := audioSlots[id.index].(data := Steady(gain))];
      case RampBusGain(goal, duration) =>
        if !IsValidTarget(audioSlots, id) {
          return;
        }
        var ramp := audioSlots[id.index].data.Started(frame, goal, duration);
        audioSlots := audioSlots[id.index := audioSlots[id.index].(data := ramp)];
    }

    /** The bus a voice plays into is always an active one. */
    method FindBus(id: BusId) returns (index: nat)
      requires Valid()
      ensures index == ResolveBusIndex(audioSlots, id)
      ensures index < |audioSlots| && audioSlots[index].Alive()
      ensures index == if id.index < |audioSlots| && audioSlots[id.index].Alive()
                          && audioSlots[id.index].generation == id.generation then id.index else 0
    {
      if id.index < |audioSlots| {
        if audioSlots[id.index].Alive() && audioSlots[id.index].generation == id.generation {
          return id.index;
        }
      }
      return 0;
    }
  }
}
