/** The voice pool (src/lavanda/runtime/voice_pool.cc): reserving slots, applying commands, and
    rendering each voice's source. */
module VoicePools {
  import opened Prelude
  import opened Signals
  import opened Resources
  import opened Handles
  import opened Ramps
  import opened MixerMath
  import opened VoiceSlots

  /** The handle names a living voice. */
  predicate Targets(slots: seq<AudioSlot>, id: VoiceId) {
    id.index < |slots| && slots[id.index].generation == id.generation && slots[id.index].state != Inactive
  }

  /** Which slots a command changes, and how. */
  function PoolCommanded(
    slots: seq<AudioSlot>, id: VoiceId, op: VoiceOp, frame: nat, trig: Trig, found: Option<AudioAsset>): seq<AudioSlot>
  {
    if op.CreateOn? then
      if id.index >= |slots| then slots else slots[id.index := Created(id, op.asset, found)]
    else if Targets(slots, id) then slots[id.index := Commanded(slots[id.index], op, frame, trig)]
    else slots
  }

  ghost predicate SlotsFit(slots: seq<AudioSlot>) {
    forall i :: 0 <= i < |slots| ==> SlotFits(slots[i])
  }

  ghost predicate AllPublished(slots: seq<AudioSlot>, published: seq<nat>) {
    && |published| == |slots|
    && forall i :: 0 <= i < |slots| ==> published[i] == Packed(AsSlot(slots[i]))
  }

  class VoicePool {
    const trig: Trig
    const store: ResourceStore
    var controlSlots: seq<ControlSlot>
    var audioSlots: seq<AudioSlot>
    var published: seq<nat>

    ghost predicate Valid()
      reads this
    {
      |controlSlots| == |audioSlots| && SlotsFit(audioSlots) && AllPublished(audioSlots, published)
    }

    constructor (capacity: nat, trig: Trig, store: ResourceStore)
      ensures Valid() && this.trig == trig && this.store == store
      ensures |audioSlots| == Max(capacity, 1)
      ensures forall i :: 0 <= i < |audioSlots| ==>
                audioSlots[i] == EMPTY_SLOT && controlSlots[i] == ControlSlot(false, 0)
    {
      this.trig, this.store := trig, store;
      controlSlots := seq(Max(capacity, 1), _ => ControlSlot(false, 0));
      audioSlots := seq(Max(capacity, 1), _ => EMPTY_SLOT);
      published := seq(Max(capacity, 1), _ => 0);
    }

    /** Takes the first slot not in use, under a generation never given out before. */
    method ReserveSlot() returns (r: Result<VoiceId>)
      requires Valid()
      modifies this`controlSlots
      ensures Valid()
      ensures r.Success? <==> exists i :: 0 <= i < |controlSlots| && !old(controlSlots)[i].inUse
      ensures r.Failure? ==> r.status == ResourceExhausted && controlSlots == old(controlSlots)
      ensures r.Success? ==>
                var i := r.value.index;
                && i < |controlSlots| && !old(controlSlots)[i].inUse
                && (forall k :: 0 <= k < i ==> old(controlSlots)[k].inUse)
                && r.value.generation == old(controlSlots)[i].nextGeneration + 1
                && controlSlots == old(controlSlots)[i := ControlSlot(true, r.value.generation)]
    {
      for i := 0 to |controlSlots|
        invariant controlSlots == old(controlSlots)
        invariant forall k :: 0 <= k < i ==> controlSlots[k].inUse
      {
        if !controlSlots[i].inUse {
          controlSlots := controlSlots[i := ControlSlot(true, controlSlots[i].nextGeneration + 1)];
          return Success(Handle(i, controlSlots[i].nextGeneration));
        }
      }
      return Failure(ResourceExhausted);
    }

    method ReleaseSlot(id: VoiceId)
      requires Valid()
      modifies this`controlSlots
      ensures Valid() && controlSlots == FreeSlot(old(controlSlots), id)
      ensures forall i :: 0 <= i < |controlSlots| ==>
                && controlSlots[i].nextGeneration == old(controlSlots)[i].nextGeneration
                && (controlSlots[i].inUse <==>
                      && old(controlSlots)[i].inUse
                      && !(i == id.index && old(controlSlots)[i].nextGeneration == id.generation))
    {
      if id.index >= |controlSlots| {
        return;
      }
      if !controlSlots[id.index].inUse || controlSlots[id.index].nextGeneration != id.generation {
        return;
      }
      controlSlots := controlSlots[id.index := controlSlots[id.index].(inUse := false)];
    }

    method Publish(index: nat)
      requires index < |audioSlots| == |published|
      modifies this`published
      ensures published == old(published)[index := Packed(AsSlot(audioSlots[index]))]
    {
      published := published[index := Packed(AsSlot(audioSlots[index]))];
    }

    /** Gives the slot's asset back to the store. */
    method ReleaseAsset(index: nat)
      requires index < |audioSlots| && store.Valid()
      modifies this`audioSlots, store`slots
      ensures store.Valid() && audioSlots == old(audioSlots)[index := Silenced(old(audioSlots)[index])]
      ensures store.slots == GivenBack(old(store.slots), old(audioSlots)[index].backing)
      ensures audioSlots[index].backing.None? && audioSlots[index].asset.None?
      ensures match old(audioSlots)[index].backing
              case None => store.slots == old(store.slots)
              case Some(id) =>
                if Names(old(store.slots), id) && old(store.slots)[id.index].pins > 0
                then |store.slots| == |old(store.slots)| && store.slots[id.index].pins == old(store.slots)[id.index].pins - 1
                else store.slots == old(store.slots)
    {
      var slot := audioSlots[index];
      if slot.backing.Some? {
        var _ := store.Unpin(slot.backing.value);
      }
      audioSlots := audioSlots[index := Silenced(slot)];
    }

    /** Creation gives back what the slot held before it resolves the new asset in the store. */
    method CreateAt(id: VoiceId, asset: Option<AssetId>)
      requires Valid() && store.Valid() && id.index < |audioSlots|
      requires forall i :: 0 <= i < |store.slots| ==> PublishedFits(store.slots[i])
      modifies this`audioSlots, this`published, store`slots
      ensures Valid() && store.Valid()
      ensures audioSlots == old(audioSlots)[id.index := Created(id, asset, Found(old(store.slots), asset))]
      ensures store.slots == GivenBack(old(store.slots), old(audioSlots)[id.index].backing)
      ensures audioSlots[id.index].state == Stopped && audioSlots[id.index].generation == id.generation
      ensures audioSlots[id.index].backing == asset
      ensures audioSlots[id.index].asset ==
              if asset.Some? && asset.value.index < |old(store.slots)|
                 && old(store.slots)[asset.value.index].generation == asset.value.generation
              then old(store.slots)[asset.value.index].published else None
    {
      hide Packed, RampWithin;
      ReleaseAsset(id.index);
      var found: Option<AudioAsset> := None;
      if asset.Some? {
        found := store.ResolveForAudio(asset.value);
        assert id.index < |audioSlots|;
      }
      CreatedFits(old(store.slots), id, asset);
      audioSlots := audioSlots[id.index := Created(id, asset, found)];
      Publish(id.index);
    }

    method DestroyAt(index: nat)
      requires Valid() && store.Valid() && index < |audioSlots|
      modifies this`audioSlots, this`published, store`slots
      ensures Valid() && store.Valid()
      ensures audioSlots == old(audioSlots)[index := Silenced(old(audioSlots)[index]).(state := Inactive)]
      ensures store.slots == GivenBack(old(store.slots), old(audioSlots)[index].backing)
    {
      hide Packed, RampWithin;
      ReleaseAsset(index);
      audioSlots := audioSlots[index := audioSlots[index].(state := Inactive)];
      Publish(index);
    }

    method ChangeAt(index: nat, op: VoiceOp, frame: nat)
      requires Valid() && index < |audioSlots| && !op.CreateOn? && !op.DestroyIt?
      modifies this`audioSlots, this`published
      ensures Valid() && audioSlots == old(audioSlots)[index := Commanded(old(audioSlots)[index], op, frame, trig)]
    {
      hide SlotFits;
      CommandsKeepFit(audioSlots[index], op, frame, trig);
      ghost var slot := audioSlots[index];
      audioSlots := audioSlots[index := Commanded(audioSlots[index], op, frame, trig)];
      if op.StartPlaying? || op.StopPlaying? {
        Publish(index);
      } else {
        assert Packed(AsSlot(audioSlots[index])) == Packed(AsSlot(slot));
      }
    }

    /** Creation works on any slot; every other command reaches its slot only through a handle that
        is still valid. */
    method ApplyCommand(id: VoiceId, op: VoiceOp, frame: nat)
      requires Valid() && store.Valid()
      requires op.CreateOn? ==> forall i :: 0 <= i < |store.slots| ==> PublishedFits(store.slots[i])
      modifies this, store`slots
      ensures Valid() && store.Valid() && controlSlots == old(controlSlots)
      ensures audioSlots ==
              PoolCommanded(old(audioSlots), id, op, frame, trig,
                            if op.CreateOn? then Found(old(store.slots), op.asset) else None)
      ensures store.slots ==
              if id.index < |old(audioSlots)| && (op.CreateOn? || (op.DestroyIt? && Targets(old(audioSlots), id)))
              then GivenBack(old(store.slots), old(audioSlots)[id.index].backing) else old(store.slots)
    {
      hide SlotsFit, AllPublished;
      if op.CreateOn? {
        if id.index >= |audioSlots| {
          return;
        }
        CreateAt(id, op.asset);
        return;
      }
      if id.index >= |audioSlots| || audioSlots[id.index].generation != id.generation ||
         audioSlots[id.index].state == Inactive {
        return;
      }
      if op.DestroyIt? {
        DestroyAt(id.index);
      } else {
        ChangeAt(id.index, op, frame);
      }
    }

    method ObservedState(id: VoiceId) returns (state: VoiceState)
      requires Valid()
      ensures state == if id.index < |audioSlots| && audioSlots[id.index].generation == id.generation
                       then audioSlots[id.index].state else Inactive
    {
      if id.index >= |published| {
        return Inactive;
      }
      ObservedIsCurrent(AsSlot(audioSlots[id.index]), id);
      return Observed(published[id.index], id);
    }
  }

  function GivenBack(slots: seq<AssetSlot>, id: Option<AssetId>): seq<AssetSlot> {
    if id.Some? then Unpinned(slots, id.value) else slots
  }

  /** ResolveForAudio on the id a creation carries. */
  function Found(slots: seq<AssetSlot>, id: Option<AssetId>): Option<AudioAsset> {
    if id.Some? && Names(slots, id.value) then slots[id.value.index].published else None
  }

  lemma CreatedFits(slots: seq<AssetSlot>, id: VoiceId, asset: Option<AssetId>)
    requires forall i :: 0 <= i < |slots| ==> PublishedFits(slots[i])
    ensures SlotFits(Created(id, asset, Found(slots, asset)))
  {
  }

  ghost predicate PublishedFits(slot: AssetSlot) {
    slot.published.Some? ==> HasWidth(slot.published.value.samples, slot.published.value.channels)
  }
}
