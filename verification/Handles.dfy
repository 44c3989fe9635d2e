/** Voice and bus handles across the two threads (include/lavanda/runtime/handles.h,
    src/lavanda/runtime/voice_pool.cc:30-60, src/lavanda/runtime/voice_pool.cc:91-217,
    src/lavanda/runtime/bus_system.cc:21-158, src/lavanda/runtime/mixing.cc:26-42). One transition
    system covers both pools: the control thread reserves slots and queues creations and
    destructions, the audio thread applies them, and everything else that carries a handle, queued
    or scheduled, may arrive at any time. Generations are unbounded. */
module Handles {
  import opened Prelude
  import opened Runs

  datatype Handle = Handle(index: nat, generation: nat)

  type VoiceId = Handle
  type BusId = Handle

  const MASTER_BUS := Handle(0, 0)

  /** A bus is Stopped while active. */
  datatype VoiceState = Inactive | Stopped | Playing

  datatype ControlSlot = ControlSlot(inUse: bool, nextGeneration: nat)

  /** The audio thread's side of a slot; data stands for every parameter of its occupant. */
  datatype Slot<D> = Slot(state: VoiceState, generation: nat, data: D)
  {
    predicate Alive() {
      state != Inactive
    }
  }

  datatype PoolCommand<D> = Create(id: Handle, data: D) | Destroy(id: Handle)

  predicate IsValidTarget<D>(slots: seq<Slot<D>>, id: Handle) {
    id.index < |slots| && slots[id.index].generation == id.generation && slots[id.index].Alive()
  }

  /** What a creation or destruction does to slot i. The master bus heeds neither. */
  function Applied<D>(slot: Slot<D>, command: PoolCommand<D>, i: nat, master: bool): Slot<D> {
    if command.id.index != i || (master && i == 0) then slot
    else match command
      case Create(id, data) => Slot(Stopped, id.generation, data)
      case Destroy(id) => if slot.generation == id.generation && slot.Alive() then slot.(state := Inactive) else slot
  }

  // ---- The published state ----------------------------------------------------------------------

  function Code(state: VoiceState): nat {
    match state case Inactive => 0 case Stopped => 1 case Playing => 2
  }

  function Decoded(code: nat): VoiceState {
    if code == 1 then Stopped else if code == 2 then Playing else Inactive
  }

  function Packed<D>(slot: Slot<D>): nat {
    slot.generation * 256 + Code(slot.state)
  }

  /** What any thread reads off the published word for a handle. */
  function Observed(packed: nat, id: Handle): VoiceState {
    if packed / 256 != id.generation then Inactive else Decoded(packed % 256)
  }

  lemma ObservedIsCurrent<D>(slot: Slot<D>, id: Handle)
    ensures Observed(Packed(slot), id) == if slot.generation == id.generation then slot.state else Inactive
  {
    assert Packed(slot) / 256 == slot.generation && Packed(slot) % 256 == Code(slot.state);
  }

  // ---- The two threads ----------------------------------------------------------------------------

  datatype ControlPc = Idle | Reserved(id: Handle) | Releasing(id: Handle)

  datatype AudioPc = Between | Publishing(index: nat)

  datatype Pool<D> = Pool(
    master: bool, control: seq<ControlSlot>, capacity: nat, queue: seq<PoolCommand<D>>,
    slots: seq<Slot<D>>, published: seq<nat>, controlPc: ControlPc, audioPc: AudioPc)

  datatype PoolStep<D> =
    | Reserve(index: nat) | SubmitCreate(data: D) | AbandonCreate
    | SubmitDestroy(id: Handle) | ReleaseSlot
    | ApplyNext
    | Touch(id: Handle, state: VoiceState, data: D)      // any other command: parameters, start, stop
    | Finish(index: nat)                                 // a voice reaches the end of its source
    | Publish

  predicate Enabled<D>(p: Pool<D>, step: PoolStep<D>) {
    match step
    case Reserve(i) => p.controlPc == Idle && i < |p.control| && !p.control[i].inUse
    case SubmitCreate(_) => p.controlPc.Reserved? && |p.queue| < p.capacity
    case AbandonCreate => p.controlPc.Reserved?
    case SubmitDestroy(id) => p.controlPc == Idle && |p.queue| < p.capacity && !(p.master && id.index == 0)
    case ReleaseSlot => p.controlPc.Releasing?
    case ApplyNext => p.audioPc == Between && p.queue != []
    case Touch(_, _, _) => p.audioPc == Between
    case Finish(_) => p.audioPc == Between
    case Publish => p.audioPc.Publishing?
  }

  function FreeSlot(control: seq<ControlSlot>, id: Handle): seq<ControlSlot> {
    if id.index < |control| && control[id.index].inUse && control[id.index].nextGeneration == id.generation
    then control[id.index := control[id.index].(inUse := false)] else control
  }

  /** A touch keeps its target's generation and does not destroy it. */
  function Touched<D>(slots: seq<Slot<D>>, id: Handle, state: VoiceState, data: D): seq<Slot<D>> {
    if IsValidTarget(slots, id)
    then slots[id.index := Slot(if state == Inactive then slots[id.index].state else state, id.generation, data)]
    else slots
  }

  function Next<D>(p: Pool<D>, step: PoolStep<D>): Pool<D>
    requires Enabled(p, step)
  {
    match step
    case Reserve(i) =>
      var generation := p.control[i].nextGeneration + 1;
      p.(control := p.control[i := ControlSlot(true, generation)], controlPc := Reserved(Handle(i, generation)))
    case SubmitCreate(data) => p.(queue := p.queue + [Create(p.controlPc.id, data)], controlPc := Idle)
    case AbandonCreate => p.(control := FreeSlot(p.control, p.controlPc.id), controlPc := Idle)
    case SubmitDestroy(id) => p.(queue := p.queue + [Destroy(id)], controlPc := Releasing(id))
    case ReleaseSlot => p.(control := FreeSlot(p.control, p.controlPc.id), controlPc := Idle)
    case ApplyNext =>
      var i := p.queue[0].id.index;
      if i < |p.slots|
      then p.(queue := p.queue[1..], slots := p.slots[i := Applied(p.slots[i], p.queue[0], i, p.master)],
              audioPc := Publishing(i))
      else p.(queue := p.queue[1..])
    case Touch(id, state, data) =>
      p.(slots := Touched(p.slots, id, state, data),
         audioPc := if IsValidTarget(p.slots, id) then Publishing(id.index) else Between)
    case Finish(i) =>
      if i < |p.slots| && p.slots[i].state == Playing
      then p.(slots := p.slots[i := p.slots[i].(state := Stopped)], audioPc := Publishing(i)) else p
    case Publish =>
      var i := p.audioPc.index;
      p.(published := if i < |p.published| && i < |p.slots| then p.published[i := Packed(p.slots[i])] else p.published,
         audioPc := Between)
  }

  ghost predicate Start<D>(p: Pool<D>) {
    && |p.control| == |p.slots| == |p.published|
    && p.queue == [] && p.controlPc == Idle && p.audioPc == Between
    && (p.master ==> |p.slots| > 0)
    && forall i :: 0 <= i < |p.slots| ==>
         var isMaster := p.master && i == 0;
         && p.slots[i].generation == 0 && p.slots[i].state == (if isMaster then Stopped else Inactive)
         && p.control[i] == ControlSlot(isMaster, 0)
         && p.published[i] == Packed(p.slots[i])
  }

  // ---- What the queue will do to a slot -----------------------------------------------------------

  /** The slot once every queued command has been applied. */
  ghost function Drained<D>(slot: Slot<D>, queue: seq<PoolCommand<D>>, i: nat, master: bool): Slot<D>
    decreases |queue|
  {
    if queue == [] then slot else Drained(Applied(slot, queue[0], i, master), queue[1..], i, master)
  }

  predicate CreatesAt<D>(command: PoolCommand<D>, i: nat) {
    command.Create? && command.id.index == i
  }

  /** Along the queue, each creation finds the slot dead and brings a newer generation. */
  ghost predicate Clean<D>(slot: Slot<D>, queue: seq<PoolCommand<D>>, i: nat, master: bool)
    decreases |queue|
  {
    queue == [] ||
    ((CreatesAt(queue[0], i) ==> !slot.Alive() && slot.generation < queue[0].id.generation) &&
     Clean(Applied(slot, queue[0], i, master), queue[1..], i, master))
  }

  lemma {:induction false} DrainedAppend<D>(
    slot: Slot<D>, queue: seq<PoolCommand<D>>, command: PoolCommand<D>, i: nat, master: bool)
    ensures Drained(slot, queue + [command], i, master) == Applied(Drained(slot, queue, i, master), command, i, master)
    ensures Clean(slot, queue + [command], i, master) <==>
            && Clean(slot, queue, i, master)
            && (CreatesAt(command, i) ==>
                  && !Drained(slot, queue, i, master).Alive()
                  && Drained(slot, queue, i, master).generation < command.id.generation)
    decreases |queue|
  {
    if queue == [] {
      assert (queue + [command])[1..] == [];
    } else {
      assert (queue + [command])[1..] == queue[1..] + [command];
      DrainedAppend(Applied(slot, queue[0], i, master), queue[1..], command, i, master);
    }
  }

  /** Parameters, and being started or stopped, make no difference to what the queue will do. */
  lemma {:induction false} TouchCommutes<D>(a: Slot<D>, b: Slot<D>, queue: seq<PoolCommand<D>>, i: nat, master: bool)
    requires a.generation == b.generation && a.Alive() == b.Alive()
    ensures Drained(a, queue, i, master).generation == Drained(b, queue, i, master).generation
    ensures Drained(a, queue, i, master).Alive() == Drained(b, queue, i, master).Alive()
    ensures Clean(a, queue, i, master) == Clean(b, queue, i, master)
    decreases |queue|
  {
    if queue != [] {
      TouchCommutes(Applied(a, queue[0], i, master), Applied(b, queue[0], i, master), queue[1..], i, master);
    }
  }

  // ---- The invariant ------------------------------------------------------------------------------

  /** Slot i, its queued future and its reservation agree. */
  ghost predicate SlotInv<D>(p: Pool<D>, i: nat)
    requires i < |p.slots| && |p.control| == |p.slots|
  {
    var c, d := p.control[i], Drained(p.slots[i], p.queue, i, p.master);
    if p.master && i == 0 then c.inUse && c.nextGeneration == 0 && p.slots[0].Alive() && p.slots[0].generation == 0
    else
      && Clean(p.slots[i], p.queue, i, p.master)
      && d.generation <= c.nextGeneration
      && (d.Alive() ==> c.inUse && d.generation == c.nextGeneration)
      && (p.controlPc == Reserved(Handle(i, c.nextGeneration)) ==> c.inUse && d.generation < c.nextGeneration)
      && (p.controlPc == Releasing(Handle(i, c.nextGeneration)) ==> !d.Alive())
  }

  ghost predicate PublishedInv<D>(p: Pool<D>) {
    && |p.published| == |p.slots|
    && forall i :: 0 <= i < |p.slots| && p.audioPc != Publishing(i) ==> p.published[i] == Packed(p.slots[i])
  }

  /** The control thread has reserved the newest generation of a slot, and never the master bus. */
  ghost predicate ReservationInv<D>(p: Pool<D>) {
    match p.controlPc
    case Idle => true
    case Reserved(id) =>
      && id.index < |p.control| && id.generation == p.control[id.index].nextGeneration
      && !(p.master && id.index == 0)
    case Releasing(id) => !(p.master && id.index == 0)
  }

  ghost predicate PoolInv<D>(p: Pool<D>) {
    && |p.control| == |p.slots| == |p.published|
    && (p.master ==> |p.slots| > 0)
    && (forall i :: 0 <= i < |p.slots| ==> SlotInv(p, i))
    && ReservationInv(p)
    && PublishedInv(p)
  }

  lemma StartIsClean<D>(p: Pool<D>)
    requires Start(p)
    ensures PoolInv(p)
  {
  }

  lemma StepKeepsSlot<D>(p: Pool<D>, step: PoolStep<D>, i: nat)
    requires PoolInv(p) && Enabled(p, step) && i < |p.slots|
    ensures |Next(p, step).control| == |Next(p, step).slots| == |p.slots|
    ensures SlotInv(Next(p, step), i)
  {
    hide PublishedInv;
    assert SlotInv(p, i);
    match step
    case SubmitCreate(data) => DrainedAppend(p.slots[i], p.queue, Create(p.controlPc.id, data), i, p.master);
    case SubmitDestroy(id) => DrainedAppend(p.slots[i], p.queue, Destroy(id), i, p.master);
    case Touch(id, state, data) => TouchCommutes(p.slots[i], Touched(p.slots, id, state, data)[i], p.queue, i, p.master);
    case Finish(_) => TouchCommutes(p.slots[i], Next(p, step).slots[i], p.queue, i, p.master);
    case _ =>
  }

  lemma StepKeepsPublished<D>(p: Pool<D>, step: PoolStep<D>)
    requires PoolInv(p) && Enabled(p, step)
    ensures PublishedInv(Next(p, step)) && |Next(p, step).published| == |p.published|
  {
    hide SlotInv, Packed, Applied;
  }

  lemma StepKeepsPool<D>(p: Pool<D>, step: PoolStep<D>)
    requires PoolInv(p) && Enabled(p, step)
    ensures PoolInv(Next(p, step))
  {
    hide SlotInv, PublishedInv, ReservationInv, Packed, Applied;
    StepKeepsPublished(p, step);
    StepKeepsShape(p, step);
    StepKeepsReservation(p, step);
    forall i | 0 <= i < |p.slots| ensures SlotInv(Next(p, step), i) {
      StepKeepsSlot(p, step, i);
    }
  }

  lemma StepKeepsReservation<D>(p: Pool<D>, step: PoolStep<D>)
    requires PoolInv(p) && Enabled(p, step)
    ensures ReservationInv(Next(p, step))
  {
    hide PublishedInv, Packed, Applied, Clean, Drained;
    if p.master {
      assert SlotInv(p, 0);
    }
  }

  lemma StepKeepsShape<D>(p: Pool<D>, step: PoolStep<D>)
    requires Enabled(p, step)
    ensures |Next(p, step).slots| == |p.slots| && Next(p, step).master == p.master
    ensures |Next(p, step).control| == |p.control|
  {
    hide Applied, Packed;
  }

  function Protocol<D>(): System<Pool<D>, PoolStep<D>> {
    System((p: Pool<D>, step: PoolStep<D>) => Enabled(p, step),
           (p: Pool<D>, step: PoolStep<D>) => if Enabled(p, step) then Next(p, step) else p)
  }

  lemma RunKeepsPool<D>(p: Pool<D>, steps: seq<PoolStep<D>>)
    requires PoolInv(p) && Protocol<D>().IsRun(p, steps)
    ensures
      var end := Protocol<D>().After(p, steps);
      PoolInv(end) && |end.slots| == |p.slots| && end.master == p.master
  {
    hide PoolInv;
    forall t, step | PoolInv(t) && Enabled(t, step)
      ensures PoolInv(Protocol<D>().next(t, step))
      ensures |Protocol<D>().next(t, step).slots| == |t.slots| && Protocol<D>().next(t, step).master == t.master
    {
      StepKeepsPool(t, step);
      StepKeepsShape(t, step);
    }
    RunKeeps(Protocol<D>(), (t: Pool<D>) => PoolInv(t) && |t.slots| == |p.slots| && t.master == p.master, p, steps);
  }

  // ---- Stale handles ------------------------------------------------------------------------------

  /** The handle's occupant has been destroyed or superseded on the audio thread. */
  predicate Dead<D>(p: Pool<D>, id: Handle) {
    id.index < |p.slots| &&
    (id.generation < p.slots[id.index].generation ||
     (id.generation == p.slots[id.index].generation && !p.slots[id.index].Alive()))
  }

  lemma DeadStaysDeadOneStep<D>(p: Pool<D>, step: PoolStep<D>, id: Handle)
    requires PoolInv(p) && Enabled(p, step) && Dead(p, id)
    ensures Dead(Next(p, step), id)
  {
    hide PublishedInv, Drained, Packed;
    assert SlotInv(p, id.index);
  }

  /** Once a handle is dead it stays dead in every run: generations only grow along the queue, so
      no later occupant of the slot ever answers to it. */
  lemma DeadStaysDead<D>(p: Pool<D>, steps: seq<PoolStep<D>>, id: Handle)
    requires PoolInv(p) && Protocol<D>().IsRun(p, steps) && Dead(p, id)
    ensures Dead(Protocol<D>().After(p, steps), id)
  {
    hide PoolInv, Dead;
    forall t, step | PoolInv(t) && Enabled(t, step) && Dead(t, id)
      ensures PoolInv(Protocol<D>().next(t, step)) && Dead(Protocol<D>().next(t, step), id)
    {
      StepKeepsPool(t, step);
      DeadStaysDeadOneStep(t, step, id);
    }
    RunKeeps(Protocol<D>(), (t: Pool<D>) => PoolInv(t) && Dead(t, id), p, steps);
  }

  /** From the moment a handle's destruction has been applied, nothing that carries it, however
      late it arrives, changes any slot. */
  lemma StaleHandleIsHarmless<D>(
    p: Pool<D>, before: seq<PoolStep<D>>, steps: seq<PoolStep<D>>, id: Handle, state: VoiceState, data: D)
    requires Start(p) && Protocol<D>().IsRun(p, before)
    requires Protocol<D>().IsRun(Protocol<D>().After(p, before), steps) && Dead(Protocol<D>().After(p, before), id)
    ensures
      var end := Protocol<D>().After(Protocol<D>().After(p, before), steps);
      && Touched(end.slots, id, state, data) == end.slots
      && (id.index < |end.slots| ==>
            Applied(end.slots[id.index], Destroy(id), id.index, end.master) == end.slots[id.index])
  {
    hide PoolInv;
    StartIsClean(p);
    RunKeepsPool(p, before);
    DeadStaysDead(Protocol<D>().After(p, before), steps, id);
  }

  /** A creation never overwrites a living occupant, and its generation is new to the slot. */
  lemma CreationFindsDeadSlot<D>(p: Pool<D>, steps: seq<PoolStep<D>>)
    requires Start(p) && Protocol<D>().IsRun(p, steps)
    ensures
      var end := Protocol<D>().After(p, steps);
      end.queue != [] && end.queue[0].Create? && end.queue[0].id.index < |end.slots| &&
      !(end.master && end.queue[0].id.index == 0) ==>
        var slot := end.slots[end.queue[0].id.index];
        !slot.Alive() && slot.generation < end.queue[0].id.generation
  {
    hide PublishedInv, System.IsRun, System.After;
    StartIsClean(p);
    RunKeepsPool(p, steps);
    var end := Protocol<D>().After(p, steps);
    if end.queue != [] && end.queue[0].id.index < |end.slots| {
      assert SlotInv(end, end.queue[0].id.index);
    }
  }

  /** Creations queued for one slot carry strictly increasing generations. */
  lemma CreationsOnlyGetNewer<D>(p: Pool<D>, steps: seq<PoolStep<D>>, i: nat, a: nat, b: nat)
    requires Start(p) && Protocol<D>().IsRun(p, steps) && i < |p.slots| && !(p.master && i == 0)
    requires a < b < |Protocol<D>().After(p, steps).queue|
    requires CreatesAt(Protocol<D>().After(p, steps).queue[a], i) && CreatesAt(Protocol<D>().After(p, steps).queue[b], i)
    ensures Protocol<D>().After(p, steps).queue[a].id.generation < Protocol<D>().After(p, steps).queue[b].id.generation
  {
    hide System.IsRun, System.After;
    StartIsClean(p);
    RunKeepsPool(p, steps);
    var end := Protocol<D>().After(p, steps);
    assert SlotInv(end, i);
    CleanGrows(end.slots[i], end.queue, i, end.master, a, b);
  }

  lemma {:induction false} CleanGrows<D>(slot: Slot<D>, queue: seq<PoolCommand<D>>, i: nat, master: bool, a: int, b: nat)
    requires Clean(slot, queue, i, master) && !(master && i == 0) && -1 <= a < b < |queue| && CreatesAt(queue[b], i)
    requires a >= 0 ==> CreatesAt(queue[a], i)
    ensures (if a >= 0 then queue[a].id.generation else slot.generation) < queue[b].id.generation
    decreases |queue|
  {
    if b > 0 {
      var next := Applied(slot, queue[0], i, master);
      CleanGrows(next, queue[1..], i, master, if a >= 0 then a - 1 else -1, b - 1);
    }
  }

  /** What any thread observes of a voice is its audio slot's state under that handle's generation,
      whenever the audio thread is between commands. */
  lemma ObservedAgreesWithSlot<D>(p: Pool<D>, steps: seq<PoolStep<D>>, id: Handle)
    requires Start(p) && Protocol<D>().IsRun(p, steps) && id.index < |p.slots|
    requires Protocol<D>().After(p, steps).audioPc == Between
    ensures
      var end := Protocol<D>().After(p, steps);
      && |end.slots| == |end.published| == |p.slots|
      && Observed(end.published[id.index], id) ==
         if end.slots[id.index].generation == id.generation then end.slots[id.index].state else Inactive
  {
    hide SlotInv, Packed, Observed, System.IsRun, System.After;
    StartIsClean(p);
    RunKeepsPool(p, steps);
    ObservedIsCurrent(Protocol<D>().After(p, steps).slots[id.index], id);
  }

  // ---- Buses ----------------------------------------------------------------------------------

  /** The bus a voice plays into: its own target if that is still there, the master otherwise. */
  function ResolveBusIndex<D>(slots: seq<Slot<D>>, id: Handle): nat {
    if IsValidTarget(slots, id) then id.index else 0
  }

  /** The master bus is never destroyed, so a voice always plays into an active bus. */
  lemma VoicesAlwaysReachABus<D>(p: Pool<D>, steps: seq<PoolStep<D>>, target: Handle)
    requires Start(p) && Protocol<D>().IsRun(p, steps) && p.master
    ensures
      var end := Protocol<D>().After(p, steps);
      && |end.slots| > 0 && end.slots[0].Alive() && end.slots[0].generation == MASTER_BUS.generation
      && ResolveBusIndex(end.slots, target) < |end.slots| && end.slots[ResolveBusIndex(end.slots, target)].Alive()
  {
    hide PublishedInv, System.IsRun, System.After;
    StartIsClean(p);
    RunKeepsPool(p, steps);
    assert SlotInv(Protocol<D>().After(p, steps), 0);
  }
}
