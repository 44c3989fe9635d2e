/** The bounded, generation-checked store of audio assets (src/lavanda/resources/resource_store.cc). */
module Resources {
  import opened Prelude
  import opened Signals

  const GENERATION_LIMIT: nat := 0x1_0000_0000

  datatype SlotState = Free | Resident | Retiring

  datatype AssetSlot = AssetSlot(
    state: SlotState, asset: Option<AudioAsset>, key: string, bytes: nat, generation: nat, pins: nat,
    published: Option<AudioAsset>)

  /** Four bytes per sample. */
  function BytesOf(asset: AudioAsset): nat {
    |asset.samples| * asset.channels * 4
  }

  /** Generations are 32-bit and skip zero when they wrap. */
  function NextGeneration(generation: nat): nat {
    if generation + 1 == GENERATION_LIMIT then 1 else generation + 1
  }

  predicate Names(slots: seq<AssetSlot>, id: AssetId) {
    id.index < |slots| && slots[id.index].generation == id.generation
  }

  /** What Unpin does to the slots: a stale id and a count already zero are left alone. */
  function Unpinned(slots: seq<AssetSlot>, id: AssetId): seq<AssetSlot> {
    if Names(slots, id) && slots[id.index].pins > 0
    then slots[id.index := slots[id.index].(pins := slots[id.index].pins - 1)] else slots
  }

  predicate NamesResident(slots: seq<AssetSlot>, id: AssetId) {
    Names(slots, id) && slots[id.index].state == Resident
  }

  function FreedSlot(slot: AssetSlot): AssetSlot {
    slot.(state := Free, asset := None, published := None, bytes := 0, generation := NextGeneration(slot.generation))
  }

  predicate Reclaimable(slot: AssetSlot) {
    slot.state == Retiring && slot.pins == 0
  }

  /** Every retiring slot nobody pins any more, among the first n, becomes free. */
  function Reclaimed(slots: seq<AssetSlot>, n: nat): seq<AssetSlot> {
    seq(|slots|, i requires 0 <= i < |slots| => if i < n && Reclaimable(slots[i]) then FreedSlot(slots[i]) else slots[i])
  }

  /** The slots with the given pins added. */
  ghost function PinnedBy(slots: seq<AssetSlot>, pins: multiset<AssetId>): seq<AssetSlot> {
    seq(|slots|, i requires 0 <= i < |slots| =>
      slots[i].(pins := slots[i].pins + pins[AssetId(i, slots[i].generation)]))
  }

  ghost function SumBytes(slots: seq<AssetSlot>): nat {
    if slots == [] then 0 else SumBytes(slots[..|slots| - 1]) + slots[|slots| - 1].bytes
  }

  lemma {:induction false} SumBytesUpdate(slots: seq<AssetSlot>, i: nat, slot: AssetSlot)
    requires i < |slots|
    ensures SumBytes(slots[i := slot]) + slots[i].bytes == SumBytes(slots) + slot.bytes
  {
    var updated := slots[i := slot];
    if i == |slots| - 1 {
      assert updated[..|slots| - 1] == slots[..|slots| - 1];
    } else {
      SumBytesUpdate(slots[..|slots| - 1], i, slot);
      assert updated[..|slots| - 1] == slots[..|slots| - 1][i := slot];
    }
  }

  lemma {:induction false} SumBytesSame(a: seq<AssetSlot>, b: seq<AssetSlot>)
    requires |a| == |b| && forall i :: 0 <= i < |a| ==> a[i].bytes == b[i].bytes
    ensures SumBytes(a) == SumBytes(b)
  {
    if a != [] {
      SumBytesSame(a[..|a| - 1], b[..|b| - 1]);
    }
  }

  // ---- Bookkeeping ----------------------------------------------------------------------------

  ghost predicate SlotConsistent(slot: AssetSlot) {
    && 1 <= slot.generation < GENERATION_LIMIT
    && slot.published == slot.asset
    && (slot.state == Free ==> slot.asset.None? && slot.bytes == 0 && slot.key == "" && slot.pins == 0)
    && (slot.state != Free ==> slot.asset.Some? && slot.bytes == BytesOf(slot.asset.value))
    && (slot.state == Retiring ==> slot.key == "")
  }

  /** The key map is the inverse of the keys on resident slots. */
  ghost predicate KeysInverse(slots: seq<AssetSlot>, keyToIndex: map<string, nat>) {
    && (forall key :: key in keyToIndex ==>
          && key != "" && keyToIndex[key] < |slots|
          && slots[keyToIndex[key]].state == Resident && slots[keyToIndex[key]].key == key)
    && (forall i :: 0 <= i < |slots| && slots[i].state == Resident && slots[i].key != "" ==>
          slots[i].key in keyToIndex && keyToIndex[slots[i].key] == i)
  }

  ghost predicate SlotsConsistent(slots: seq<AssetSlot>) {
    forall i :: 0 <= i < |slots| ==> SlotConsistent(slots[i])
  }

  lemma FreeingKeepsForm(slots: seq<AssetSlot>, keyToIndex: map<string, nat>, i: nat)
    requires SlotsConsistent(slots) && KeysInverse(slots, keyToIndex) && i < |slots| && Reclaimable(slots[i])
    ensures SlotsConsistent(slots[i := FreedSlot(slots[i])]) && KeysInverse(slots[i := FreedSlot(slots[i])], keyToIndex)
    ensures SumBytes(slots[i := FreedSlot(slots[i])]) == SumBytes(slots) - slots[i].bytes
  {
    SumBytesUpdate(slots, i, FreedSlot(slots[i]));
  }

  lemma RetiringKeepsForm(slots: seq<AssetSlot>, keyToIndex: map<string, nat>, i: nat)
    requires SlotsConsistent(slots) && KeysInverse(slots, keyToIndex) && i < |slots| && slots[i].state == Resident
    ensures
      var retired := slots[i := slots[i].(state := Retiring, key := "")];
      && SlotsConsistent(retired)
      && KeysInverse(retired, keyToIndex - {slots[i].key})
      && SumBytes(retired) == SumBytes(slots)
  {
    SumBytesSame(slots, slots[i := slots[i].(state := Retiring, key := "")]);
  }

  lemma NoEmptyKey(slots: seq<AssetSlot>, keyToIndex: map<string, nat>)
    requires KeysInverse(slots, keyToIndex)
    ensures "" !in keyToIndex && keyToIndex - {""} == keyToIndex
  {
  }

  lemma ReclaimedNone(slots: seq<AssetSlot>)
    ensures Reclaimed(slots, 0) == slots
  {
  }

  lemma ReclaimedNext(slots: seq<AssetSlot>, i: nat)
    requires i < |slots|
    ensures Reclaimed(slots, i)[i] == slots[i]
    ensures Reclaimed(slots, i + 1) ==
            if Reclaimable(slots[i]) then Reclaimed(slots, i)[i := FreedSlot(slots[i])] else Reclaimed(slots, i)
  {
  }

  lemma FillingKeepsForm(
    slots: seq<AssetSlot>, keyToIndex: map<string, nat>, i: nat, asset: AudioAsset, key: string)
    requires SlotsConsistent(slots) && KeysInverse(slots, keyToIndex) && i < |slots| && slots[i].state == Free
    requires key == "" || key !in keyToIndex
    ensures
      var filled := AssetSlot(Resident, Some(asset), key, BytesOf(asset), slots[i].generation, 0, Some(asset));
      && SlotsConsistent(slots[i := filled])
      && KeysInverse(slots[i := filled], if key == "" then keyToIndex else keyToIndex[key := i])
      && SumBytes(slots[i := filled]) == SumBytes(slots) + BytesOf(asset)
  {
    SumBytesUpdate(slots, i, AssetSlot(Resident, Some(asset), key, BytesOf(asset), slots[i].generation, 0, Some(asset)));
  }

  class ResourceStore {
    const maxTotalBytes: nat
    var slots: seq<AssetSlot>
    var keyToIndex: map<string, nat>
    var totalBytes: nat

    ghost predicate Valid()
      reads this
    {
      && SlotsConsistent(slots)
      && KeysInverse(slots, keyToIndex)
      && totalBytes == SumBytes(slots) <= maxTotalBytes
    }

    constructor (maxAssets: nat, maxTotalBytes: nat)
      ensures Valid() && |slots| == maxAssets && this.maxTotalBytes == maxTotalBytes
      ensures forall i :: 0 <= i < maxAssets ==> slots[i].state == Free && slots[i].generation == 1
    {
      this.maxTotalBytes := maxTotalBytes;
      slots := seq(maxAssets, i => AssetSlot(Free, None, "", 0, 1, 0, None));
      keyToIndex, totalBytes := map[], 0;
      new;
      AllFreeIsEmpty(slots);
    }

    /** The first free slot, if any. */
    method FindFree() returns (index: nat)
      requires Valid()
      ensures index <= |slots| && forall i :: 0 <= i < index ==> slots[i].state != Free
      ensures index < |slots| ==> slots[index].state == Free
    {
      index := 0;
      while index < |slots| && slots[index].state != Free
        invariant index <= |slots| && forall i :: 0 <= i < index ==> slots[i].state != Free
      {
        index := index + 1;
      }
    }

    /** Frees exactly the retiring slots that nobody pins, and no pinned or resident one. */
    method ReclaimRetired() returns (reclaimed: nat)
      requires Valid()
      modifies this`slots, this`totalBytes
      ensures Valid()
      ensures slots == Reclaimed(old(slots), |old(slots)|)
      ensures totalBytes <= old(totalBytes)
    {
      hide SlotsConsistent, KeysInverse, SumBytes, Reclaimed;
      reclaimed := 0;
      ghost var before := slots;
      ReclaimedNone(before);
      for i := 0 to |slots|
        invariant Valid() && slots == Reclaimed(before, i) && |slots| == |before| && totalBytes <= old(totalBytes)
      {
        ReclaimedNext(before, i);
        if Reclaimable(slots[i]) {
          FreeingKeepsForm(slots, keyToIndex, i);
          SumBytesHasEach(slots, i);
          totalBytes := totalBytes - slots[i].bytes;
          slots := slots[i := FreedSlot(slots[i])];
          reclaimed := reclaimed + 1;
        }
      }
    }

    /** Rejects a resident key, an asset over budget and a full store, and otherwise takes the
        first free slot. Retired slots are reclaimed in every case. */
    method Insert(asset: AudioAsset, key: string) returns (r: Result<AssetId>)
      requires Valid()
      modifies this
      ensures Valid()
      ensures r.Failure? ==> slots == Reclaimed(old(slots), |old(slots)|) && keyToIndex == old(keyToIndex)
      ensures key != "" && key in old(keyToIndex) ==> r == Failure(InvalidArgument)
      ensures r.Success? ==>
                var cleared := Reclaimed(old(slots), |old(slots)|);
                var id := r.value;
                && id.index < |cleared| && cleared[id.index].state == Free
                && id.generation == cleared[id.index].generation
                && slots == cleared[id.index :=
                     AssetSlot(Resident, Some(asset), key, BytesOf(asset), id.generation, 0, Some(asset))]
                && keyToIndex == (if key == "" then old(keyToIndex) else old(keyToIndex)[key := id.index])
                && totalBytes == SumBytes(cleared) + BytesOf(asset)
                && slots[id.index].bytes == |asset.samples| * asset.channels * 4
      ensures r.Success? <==>
                var cleared := Reclaimed(old(slots), |old(slots)|);
                && (key == "" || key !in old(keyToIndex))
                && SumBytes(cleared) + BytesOf(asset) <= maxTotalBytes
                && exists i :: 0 <= i < |cleared| && cleared[i].state == Free
    {
      hide SlotsConsistent, KeysInverse, SumBytes, Reclaimed;
      var _ := ReclaimRetired();
      if key != "" && key in keyToIndex {
        return Failure(InvalidArgument);
      }
      var bytes := BytesOf(asset);
      if bytes > maxTotalBytes || totalBytes > maxTotalBytes - bytes {
        return Failure(ResourceExhausted);
      }
      var index := FindFree();
      if index == |slots| {
        return Failure(ResourceExhausted);
      }
      var generation := slots[index].generation;
      FillingKeepsForm(slots, keyToIndex, index, asset, key);
      if key != "" {
        keyToIndex := keyToIndex[key := index];
      }
      slots := slots[index := AssetSlot(Resident, Some(asset), key, bytes, generation, 0, Some(asset))];
      totalBytes := totalBytes + bytes;
      return Success(AssetId(index, generation));
    }

    method Find(id: AssetId) returns (asset: Option<AudioAsset>)
      requires Valid()
      ensures asset == if NamesResident(slots, id) then slots[id.index].asset else None
    {
      return if NamesResident(slots, id) then slots[id.index].asset else None;
    }

    /** A key finds the resident asset that carries it, and nothing else does. */
    method FindByKey(key: string) returns (id: Option<AssetId>)
      requires Valid()
      ensures id.Some? ==> key != "" && NamesResident(slots, id.value) && slots[id.value.index].key == key
      ensures id.None? && key != "" ==> forall i :: 0 <= i < |slots| && slots[i].state == Resident ==> slots[i].key != key
    {
      if key !in keyToIndex {
        return None;
      }
      return Some(AssetId(keyToIndex[key], slots[keyToIndex[key]].generation));
    }

    /** Only a resident asset can be pinned. */
    method Pin(id: AssetId) returns (asset: Option<AudioAsset>)
      requires Valid()
      modifies this`slots
      ensures Valid()
      ensures asset.Some? <==> NamesResident(old(slots), id)
      ensures asset.Some? ==> asset == old(slots)[id.index].asset && slots == PinnedBy(old(slots), multiset{id})
      ensures asset.None? ==> slots == old(slots)
    {
      if !NamesResident(slots, id) {
        return None;
      }
      ghost var before := slots;
      slots := slots[id.index := slots[id.index].(pins := slots[id.index].pins + 1)];
      SumBytesSame(before, slots);
      assert slots == PinnedBy(before, multiset{id});
      return slots[id.index].asset;
    }

    /** A released asset can no longer be found or pinned; it stays until its last pin goes. */
    method Release(id: AssetId) returns (status: Status)
      requires Valid()
      modifies this
      ensures Valid()
      ensures status == if NamesResident(old(slots), id) then Ok else InvalidArgument
      ensures status != Ok ==> slots == old(slots) && keyToIndex == old(keyToIndex)
      ensures status == Ok ==>
                && slots == Reclaimed(old(slots)[id.index := old(slots)[id.index].(state := Retiring, key := "")],
                                      |old(slots)|)
                && keyToIndex == old(keyToIndex) - {old(slots)[id.index].key}
    {
      if !NamesResident(slots, id) {
        return InvalidArgument;
      }
      hide SlotsConsistent, KeysInverse, SumBytes, Reclaimed;
      var key := slots[id.index].key;
      RetiringKeepsForm(slots, keyToIndex, id.index);
      NoEmptyKey(slots, keyToIndex);
      slots := slots[id.index := slots[id.index].(state := Retiring, key := "")];
      if key != "" {
        keyToIndex := keyToIndex - {key};
      }
      var _ := ReclaimRetired();
      return Ok;
    }

    method ResolveForAudio(id: AssetId) returns (asset: Option<AudioAsset>)
      ensures asset == if Names(slots, id) then slots[id.index].published else None
    {
      return if Names(slots, id) then slots[id.index].published else None;
    }

    /** Takes one pin off; a slot with no pin is left alone and the call reports it. */
    method Unpin(id: AssetId) returns (ok: bool)
      requires Valid()
      modifies this`slots
      ensures Valid()
      ensures ok <==> Names(old(slots), id) && old(slots)[id.index].pins > 0
      ensures slots == Unpinned(old(slots), id)
    {
      if !Names(slots, id) {
        return false;
      }
      ghost var before := slots;
      if slots[id.index].pins == 0 {
        return false;
      }
      slots := slots[id.index := slots[id.index].(pins := slots[id.index].pins - 1)];
      SumBytesSame(before, slots);
      return true;
    }
  }

  lemma {:induction false} AllFreeIsEmpty(slots: seq<AssetSlot>)
    requires forall i :: 0 <= i < |slots| ==> slots[i].bytes == 0
    ensures SumBytes(slots) == 0
  {
    if slots != [] {
      AllFreeIsEmpty(slots[..|slots| - 1]);
    }
  }

  lemma {:induction false} SumBytesHasEach(slots: seq<AssetSlot>, i: nat)
    requires i < |slots|
    ensures slots[i].bytes <= SumBytes(slots)
  {
    if i < |slots| - 1 {
      SumBytesHasEach(slots[..|slots| - 1], i);
    }
  }

  // ---- Pins -----------------------------------------------------------------------------------

  lemma PinnedByMore(slots: seq<AssetSlot>, pins: multiset<AssetId>, id: AssetId)
    ensures PinnedBy(PinnedBy(slots, pins), multiset{id}) == PinnedBy(slots, pins + multiset{id})
  {
  }

  lemma PinnedByNone(slots: seq<AssetSlot>)
    ensures PinnedBy(slots, multiset{}) == slots
  {
  }

  /** Taking a pin off undoes putting it on, in whatever order pins come and go. */
  lemma UnpinUndoesPin(slots: seq<AssetSlot>, pins: multiset<AssetId>, id: AssetId)
    requires id in pins && Names(slots, id)
    ensures
      var pinned := PinnedBy(slots, pins);
      && Names(pinned, id) && pinned[id.index].pins > 0 && Unpinned(pinned, id) == PinnedBy(slots, pins - multiset{id})
  {
    var pinned := PinnedBy(slots, pins);
    var less := PinnedBy(slots, pins - multiset{id});
    var unpinned := pinned[id.index := pinned[id.index].(pins := pinned[id.index].pins - 1)];
    forall i | 0 <= i < |slots| ensures unpinned[i] == less[i] {
    }
  }

  /** A pinned asset outlives its release: the slot keeps its generation and its object for the
      audio thread, whatever is reclaimed, while it can no longer be pinned again. */
  lemma ReleasedButPinnedResolves(slots: seq<AssetSlot>, id: AssetId, n: nat)
    requires NamesResident(slots, id) && slots[id.index].pins > 0
    ensures
      var after := Reclaimed(slots[id.index := slots[id.index].(state := Retiring, key := "")], n);
      && Names(after, id) && after[id.index].published == slots[id.index].published
      && !NamesResident(after, id)
  {
  }

  /** A freed slot's old ids name nothing: its generation has moved on, until 2^32 - 1 reuses. */
  lemma FreedIdsAreStale(slots: seq<AssetSlot>, id: AssetId, n: nat)
    requires Names(slots, id) && id.index < n && Reclaimable(slots[id.index])
    requires 1 <= id.generation < GENERATION_LIMIT
    ensures !Names(Reclaimed(slots, n), id)
    ensures id.generation + 1 < GENERATION_LIMIT ==>
              Reclaimed(slots, n)[id.index].generation > id.generation
  {
  }
}
