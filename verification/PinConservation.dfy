/** Pins count exactly the holders, in every interleaving, so nothing anyone can dereference is ever
    reclaimed (src/lavanda/resources/resource_store.cc:137-276, src/lavanda/runtime/voice_pool.cc:114-166,
    src/lavanda/graph/asset_pins.cc:31-55, src/lavanda/runtime/audio_runtime.cc:879-928). */
module PinConservation {
  import opened Prelude
  import opened Signals
  import opened Resources
  import opened Lifetimes
  import opened Runs

  // ---- Who holds a pin ------------------------------------------------------------------------

  function HeldBy(holder: Option<AssetId>, id: AssetId): nat {
    if holder == Some(id) then 1 else 0
  }

  function CommandHolds(command: Command, id: AssetId): nat {
    if command.CreateVoice? then HeldBy(command.asset, id) else 0
  }

  ghost function ListHolds(pins: seq<AssetId>, id: AssetId): nat {
    multiset(pins)[id]
  }

  ghost function Sum(counts: seq<nat>): nat {
    if counts == [] then 0 else Sum(counts[..|counts| - 1]) + counts[|counts| - 1]
  }

  function InQueue(queue: seq<Command>, id: AssetId): seq<nat> {
    seq(|queue|, i requires 0 <= i < |queue| => CommandHolds(queue[i], id))
  }

  function InVoices(voices: seq<VoiceSlot>, id: AssetId): seq<nat> {
    seq(|voices|, i requires 0 <= i < |voices| => HeldBy(voices[i].backing, id))
  }

  ghost function InPlans(plans: seq<PlanSlot>, id: AssetId): seq<nat> {
    seq(|plans|, i requires 0 <= i < |plans| => ListHolds(PlanPins(plans[i]), id))
  }

  ghost function InControl(control: ControlPc, id: AssetId): nat {
    match control
    case CreatingVoice(_, asset) => HeldBy(Some(asset), id)
    case Compiling(_, pins) => ListHolds(pins, id)
    case Staging(_, pins) => ListHolds(pins, id)
    case Installing(_, pins) => ListHolds(pins, id)
    case Unpinning(pins, _, _) => ListHolds(pins, id)
    case _ => 0
  }

  function InAudio(audio: AudioPc, id: AssetId): nat {
    match audio
    case Applying(command) => CommandHolds(command, id)
    case ReplacingVoice(_, asset, former, _) => HeldBy(asset, id) + HeldBy(Some(former), id)
    case ResolvingVoice(_, asset) => HeldBy(asset, id)
    case ReadingObject(_, asset, _) => HeldBy(Some(asset), id)
    case EndingVoice(former, _) => HeldBy(Some(former), id)
    case _ => 0
  }

  /** How many hold the id: queued creations, asset-backed voices, live plans, and what either
      thread has in its hands. */
  ghost function Holders(s: State, id: AssetId): nat {
    Sum(InQueue(s.queue, id)) + Sum(InVoices(s.voices, id)) + Sum(InPlans(s.plans, id))
    + InControl(s.control, id) + InAudio(s.audio, id)
  }

  lemma {:induction false} SumUpdate(counts: seq<nat>, i: nat, count: nat)
    requires i < |counts|
    ensures Sum(counts[i := count]) + counts[i] == Sum(counts) + count
  {
    var n := |counts| - 1;
    if i == n {
      assert counts[i := count][..n] == counts[..n];
    } else {
      SumUpdate(counts[..n], i, count);
      assert counts[i := count][..n] == counts[..n][i := count];
    }
  }

  lemma {:induction false} SumTail(counts: seq<nat>)
    requires counts != []
    ensures Sum(counts) == counts[0] + Sum(counts[1..])
  {
    var n := |counts| - 1;
    if n > 0 {
      SumTail(counts[..n]);
      assert counts[..n][1..] == counts[1..][..n - 1];
    }
  }

  lemma {:induction false} SumHasEach(counts: seq<nat>, i: nat)
    requires i < |counts|
    ensures counts[i] <= Sum(counts)
  {
    if i < |counts| - 1 {
      SumHasEach(counts[..|counts| - 1], i);
    }
  }

  lemma {:induction false} SumOfNone(counts: seq<nat>)
    requires forall i :: 0 <= i < |counts| ==> counts[i] == 0
    ensures Sum(counts) == 0
  {
    if counts != [] {
      SumOfNone(counts[..|counts| - 1]);
    }
  }

  lemma QueueAppend(queue: seq<Command>, command: Command, id: AssetId)
    ensures Sum(InQueue(queue + [command], id)) == Sum(InQueue(queue, id)) + CommandHolds(command, id)
  {
    assert InQueue(queue + [command], id)[..|queue|] == InQueue(queue, id);
  }

  lemma QueueTail(queue: seq<Command>, id: AssetId)
    requires queue != []
    ensures Sum(InQueue(queue, id)) == CommandHolds(queue[0], id) + Sum(InQueue(queue[1..], id))
  {
    SumTail(InQueue(queue, id));
    assert InQueue(queue, id)[1..] == InQueue(queue[1..], id);
  }

  lemma VoicesUpdate(voices: seq<VoiceSlot>, i: nat, slot: VoiceSlot, id: AssetId)
    requires i < |voices|
    ensures Sum(InVoices(voices[i := slot], id)) + HeldBy(voices[i].backing, id) ==
            Sum(InVoices(voices, id)) + HeldBy(slot.backing, id)
  {
    SumUpdate(InVoices(voices, id), i, HeldBy(slot.backing, id));
    assert InVoices(voices, id)[i := HeldBy(slot.backing, id)] == InVoices(voices[i := slot], id);
  }

  lemma PlansUpdate(plans: seq<PlanSlot>, i: nat, slot: PlanSlot, id: AssetId)
    requires i < |plans|
    ensures Sum(InPlans(plans[i := slot], id)) + ListHolds(PlanPins(plans[i]), id) ==
            Sum(InPlans(plans, id)) + ListHolds(PlanPins(slot), id)
  {
    SumUpdate(InPlans(plans, id), i, ListHolds(PlanPins(slot), id));
    assert InPlans(plans, id)[i := ListHolds(PlanPins(slot), id)] == InPlans(plans[i := slot], id);
  }

  lemma TakeFirst(pins: seq<AssetId>, id: AssetId)
    requires pins != []
    ensures ListHolds(pins, id) == HeldBy(Some(pins[0]), id) + ListHolds(pins[1..], id)
  {
    assert pins == [pins[0]] + pins[1..];
  }

  lemma AddLast(pins: seq<AssetId>, last: AssetId, id: AssetId)
    ensures ListHolds(pins + [last], id) == ListHolds(pins, id) + HeldBy(Some(last), id)
  {
  }

  // ---- The invariant --------------------------------------------------------------------------

  /** The store still owns the object this id was given out for, and the audio thread can reach
      it. */
  ghost predicate Live(assets: seq<AssetSlot>, id: AssetId) {
    && Names(assets, id)
    && assets[id.index].state != Free
    && assets[id.index].asset.Some?
    && assets[id.index].published == assets[id.index].asset
  }

  /** Every pin is somebody's and everybody's pin is counted; what is held is live. */
  ghost predicate Balanced(s: State) {
    && (forall i :: 0 <= i < |s.assets| ==> s.assets[i].pins == Holders(s, AssetId(i, s.assets[i].generation)))
    && (forall id {:trigger Holders(s, id)} :: Holders(s, id) > 0 ==> Live(s.assets, id))
  }

  ghost predicate Settled(slot: AssetSlot) {
    && slot.generation >= 1 && slot.published == slot.asset
    && (slot.state != Free <==> slot.asset.Some?)
  }

  predicate InTransit(control: ControlPc, i: nat) {
    match control
    case SeenUnpinned(slot) => slot == i
    case GenerationMoved(slot) => slot == i
    case Unpublished(slot) => slot == i
    case Publishing(slot) => slot == i
    case _ => false
  }

  /** A slot the control thread is in the middle of changing is one nobody holds. */
  ghost predicate StoreForm(s: State) {
    && (forall i :: 0 <= i < |s.assets| && !InTransit(s.control, i) ==> Settled(s.assets[i]))
    && (forall i :: 0 <= i < |s.assets| && InTransit(s.control, i) ==>
          && s.assets[i].pins == 0 && s.assets[i].generation >= 1
          && (s.control.SeenUnpinned? ==> Settled(s.assets[i]) && s.assets[i].state == Retiring)
          && (s.control.Unpublished? ==> s.assets[i].published.None?)
          && (s.control.Publishing? ==> s.assets[i].state == Resident && s.assets[i].asset.Some?))
  }

  ghost predicate PointsTo(assets: seq<AssetSlot>, id: AssetId, found: Option<AudioAsset>) {
    id.index < |assets| && found.Some? && found == assets[id.index].asset
  }

  /** A voice's pointer is the object its id names. */
  ghost predicate Resolved(s: State) {
    && (forall i :: 0 <= i < |s.voices| && s.voices[i].backing.Some? ==>
          PointsTo(s.assets, s.voices[i].backing.value, s.voices[i].asset))
    && (forall i :: 0 <= i < |s.voices| && s.voices[i].backing.None? ==> s.voices[i].asset.None?)
  }

  /** While a voice is being created its slot is empty, and the id in hand is still current. */
  ghost predicate AboutToResolve(s: State) {
    && (s.audio.ReadingObject? ==> s.audio.current)
    && (s.audio.ReplacingVoice? || s.audio.ResolvingVoice? || s.audio.ReadingObject? ==>
          s.audio.voice.index < |s.voices| && s.voices[s.audio.voice.index].backing.None?)
  }

  /** Unpin never finds a count of zero, so it never has to restore one. */
  ghost predicate NothingToRestore(s: State) {
    && (s.control.Unpinning? ==> s.control.phase != Restoring)
    && (s.audio.ReplacingVoice? || s.audio.EndingVoice? ==> s.audio.phase != Restoring)
  }

  ghost predicate PinInv(s: State) {
    InRange(s) && StoreForm(s) && Balanced(s) && Resolved(s) && AboutToResolve(s) && NothingToRestore(s)
  }

  /** Unpin finds its id current and a pin to take. */
  ghost predicate UnpinReady(assets: seq<AssetSlot>, id: AssetId, phase: UnpinPhase) {
    phase != Restoring && Names(assets, id) && assets[id.index].pins > 0
  }

  lemma HeldIsReady(s: State, id: AssetId, phase: UnpinPhase)
    requires Balanced(s) && Holders(s, id) > 0 && phase != Restoring
    ensures UnpinReady(s.assets, id, phase)
  {
    hide Holders;
    assert Live(s.assets, id);
  }

  lemma UnpinIsReady(s: State)
    requires Balanced(s) && NothingToRestore(s)
    ensures s.control.Unpinning? && s.control.pins != [] ==> UnpinReady(s.assets, s.control.pins[0], s.control.phase)
    ensures s.audio.ReplacingVoice? || s.audio.EndingVoice? ==> UnpinReady(s.assets, s.audio.former, s.audio.phase)
  {
    hide Sum, InQueue, InVoices, InPlans, Balanced, UnpinReady;
    if s.control.Unpinning? && s.control.pins != [] {
      HeldIsReady(s, s.control.pins[0], s.control.phase);
    }
    if s.audio.ReplacingVoice? || s.audio.EndingVoice? {
      HeldIsReady(s, s.audio.former, s.audio.phase);
    }
  }

  lemma NobodyHolds(s: State, id: AssetId)
    requires Start(s)
    ensures Holders(s, id) == 0
  {
    SumOfNone(InQueue(s.queue, id));
    SumOfNone(InVoices(s.voices, id));
    SumOfNone(InPlans(s.plans, id));
  }

  lemma StartIsBalanced(s: State)
    requires Start(s)
    ensures PinInv(s)
  {
    forall id ensures Holders(s, id) == 0 {
      NobodyHolds(s, id);
    }
  }

  lemma VoiceIsHeld(s: State, i: nat)
    requires i < |s.voices| && s.voices[i].backing.Some?
    ensures Holders(s, s.voices[i].backing.value) > 0
  {
    SumHasEach(InVoices(s.voices, s.voices[i].backing.value), i);
  }

  lemma PlanIsHeld(s: State, i: nat, id: AssetId)
    requires i < |s.plans| && id in PlanPins(s.plans[i])
    ensures Holders(s, id) > 0
  {
    SumHasEach(InPlans(s.plans, id), i);
  }

  lemma CommandIsHeld(s: State, c: nat, id: AssetId)
    requires c < |s.queue| && s.queue[c].CreateVoice? && s.queue[c].asset == Some(id)
    ensures Holders(s, id) > 0
  {
    SumHasEach(InQueue(s.queue, id), c);
  }

  // ---- What a step does to the balance ----------------------------------------------------------

  /** The holders are the same but for one id. */
  ghost predicate HoldersMove(s: State, next: State, gained: Option<AssetId>, lost: Option<AssetId>) {
    forall id {:trigger Holders(next, id)} :: Holders(next, id) + HeldBy(lost, id) == Holders(s, id) + HeldBy(gained, id)
  }

  lemma PinKeepsBalance(s: State, next: State, id: AssetId)
    requires Balanced(s) && NamesResident(s.assets, id) && Settled(s.assets[id.index])
    requires next.assets == AddPin(s.assets, id) && HoldersMove(s, next, Some(id), None)
    ensures Balanced(next)
  {
    hide Holders;
    forall x | Holders(next, x) > 0 ensures Live(next.assets, x) {
      assert Holders(s, x) > 0 || x == id;
    }
  }

  lemma UnpinKeepsBalance(s: State, next: State, id: AssetId)
    requires Balanced(s) && Holders(s, id) > 0
    requires next.assets == Unpinned(s.assets, id) && HoldersMove(s, next, None, Some(id))
    ensures Balanced(next) && Names(s.assets, id) && s.assets[id.index].pins > 0
  {
    hide Holders;
    assert Live(s.assets, id);
    forall x | Holders(next, x) > 0 ensures Live(next.assets, x) {
      assert Holders(s, x) > 0;
    }
  }

  lemma MoveKeepsBalance(s: State, next: State)
    requires Balanced(s) && next.assets == s.assets && HoldersMove(s, next, None, None)
    ensures Balanced(next)
  {
    hide Holders;
    forall x | Holders(next, x) > 0 ensures Live(next.assets, x) {
      assert Holders(s, x) > 0;
    }
  }

  /** An unpinned slot is held under no generation, so it may change at will. */
  lemma UnheldMayChange(s: State, next: State, i: nat)
    requires Balanced(s) && i < |s.assets| && s.assets[i].pins == 0 && |next.assets| == |s.assets|
    requires next.assets == s.assets[i := next.assets[i]] && next.assets[i].pins == 0 && HoldersMove(s, next, None, None)
    ensures Balanced(next)
  {
    hide Holders;
    forall x | Holders(next, x) > 0 ensures x.index != i && Live(next.assets, x) {
      assert Holders(s, x) > 0 && Live(s.assets, x);
    }
  }

  lemma FreeIsUnpinned(s: State, i: nat)
    requires Balanced(s) && i < |s.assets| && s.assets[i].state == Free
    ensures s.assets[i].pins == 0
  {
    hide Holders;
    var id := AssetId(i, s.assets[i].generation);
    assert Holders(s, id) > 0 ==> Live(s.assets, id);
  }

  // ---- The store's own steps --------------------------------------------------------------------

  lemma StoreMovesNothing(s: State, step: StoreStep)
    requires InRange(s) && StoreEnabled(s, step)
    ensures HoldersMove(s, StoreNext(s, step), None, None)
  {
    hide Sum, InQueue, InVoices, InPlans;
  }

  /** No voice points at a slot without pins. */
  lemma PointersElsewhere(s: State, i: nat, slot: AssetSlot)
    requires Balanced(s) && Resolved(s) && i < |s.assets| && s.assets[i].pins == 0
    ensures Resolved(s.(assets := s.assets[i := slot]))
  {
    hide Holders;
    forall v | 0 <= v < |s.voices| && s.voices[v].backing.Some?
      ensures PointsTo(s.assets[i := slot], s.voices[v].backing.value, s.voices[v].asset)
    {
      VoiceIsHeld(s, v);
      assert Live(s.assets, s.voices[v].backing.value);
      assert PointsTo(s.assets, s.voices[v].backing.value, s.voices[v].asset);
    }
  }

  function TouchedSlot(s: State, step: StoreStep): (i: nat)
    requires InRange(s) && StoreEnabled(s, step)
    ensures i < |s.assets|
  {
    match step
    case SeeUnpinned(slot) => slot
    case FillSlot(slot, _, _) => slot
    case ReleaseAsset(id) => id.index
    case _ => s.control.slot
  }

  lemma StoreTouchesOne(s: State, step: StoreStep)
    requires PinInv(s) && StoreEnabled(s, step)
    ensures
      var i, next := TouchedSlot(s, step), StoreNext(s, step);
      && |next.assets| == |s.assets| && next.assets == s.assets[i := next.assets[i]]
      && (step.ReleaseAsset? || (s.assets[i].pins == 0 && next.assets[i].pins == 0))
  {
    hide Holders, Balanced, Resolved;
    if step.FillSlot? {
      FreeIsUnpinned(s, step.slot);
    }
  }

  lemma StoreKeepsForm(s: State, step: StoreStep)
    requires InRange(s) && StoreForm(s) && StoreEnabled(s, step)
    requires step.FillSlot? ==> s.assets[step.slot].pins == 0
    ensures StoreForm(StoreNext(s, step))
  {
  }

  lemma StoreKeepsPins(s: State, step: StoreStep)
    requires PinInv(s) && StoreEnabled(s, step)
    ensures PinInv(StoreNext(s, step))
  {
    hide InRange, Holders, HoldersMove, StoreForm, Resolved, Settled;
    var i, next := TouchedSlot(s, step), StoreNext(s, step);
    StoreStaysInRange(s, step);
    StoreTouchesOne(s, step);
    StoreKeepsForm(s, step);
    StoreMovesNothing(s, step);
    if step.ReleaseAsset? {
      RetiringKeepsBalance(s, next, step.id);
      SameObjects(s, next);
    } else {
      UnheldMayChange(s, next, i);
      PointersElsewhere(s, i, next.assets[i]);
      SameObjects(s.(assets := next.assets), next);
    }
  }

  lemma RetiringKeepsBalance(s: State, next: State, id: AssetId)
    requires Balanced(s) && NamesResident(s.assets, id) && HoldersMove(s, next, None, None)
    requires next.assets == s.assets[id.index := s.assets[id.index].(state := Retiring, key := "")]
    ensures Balanced(next)
  {
    hide Holders;
    forall x | Holders(next, x) > 0 ensures Live(next.assets, x) {
      assert Holders(s, x) > 0 && Live(s.assets, x);
    }
  }

  /** States and pin counts may change without moving any object. */
  lemma SameObjects(s: State, next: State)
    requires Resolved(s) && |next.assets| == |s.assets| && next.voices == s.voices
    requires forall i :: 0 <= i < |s.assets| ==> next.assets[i].asset == s.assets[i].asset
    ensures Resolved(next)
  {
    forall v | 0 <= v < |s.voices| && s.voices[v].backing.Some?
      ensures PointsTo(next.assets, s.voices[v].backing.value, s.voices[v].asset)
    {
      assert PointsTo(s.assets, s.voices[v].backing.value, s.voices[v].asset);
    }
  }

  // ---- Submitting -----------------------------------------------------------------------------

  lemma PlanFieldsMove(plans: seq<PlanSlot>, i: nat, slot: PlanSlot, id: AssetId)
    requires i < |plans| && slot.plan == plans[i].plan
    ensures Sum(InPlans(plans[i := slot], id)) == Sum(InPlans(plans, id))
  {
    assert InPlans(plans[i := slot], id) == InPlans(plans, id);
  }

  function SubmitPins(s: State, step: SubmitStep): Option<AssetId> {
    if step.PinForVoice? then Some(step.id) else None
  }

  function SubmitUnpins(s: State, step: SubmitStep): Option<AssetId>
    requires SubmitEnabled(s, step)
  {
    if step.UnpinNext? && s.control.phase == Subtracting then Some(s.control.pins[0]) else None
  }

  lemma SubmitMovesHolders(s: State, step: SubmitStep, id: AssetId)
    requires InRange(s) && SubmitEnabled(s, step)
    requires step.UnpinNext? ==> UnpinReady(s.assets, s.control.pins[0], s.control.phase)
    ensures Holders(SubmitNext(s, step), id) + HeldBy(SubmitUnpins(s, step), id) ==
            Holders(s, id) + HeldBy(SubmitPins(s, step), id)
    ensures step.UnpinNext? ==> Holders(s, s.control.pins[0]) > 0
  {
    hide Sum, InQueue, InVoices, InPlans;
    var next := SubmitNext(s, step);
    match step
    case PinForVoice(_, _) =>
    case SubmitVoice =>
      QueueAppend(s.queue, CreateVoice(s.control.voice, Some(s.control.asset)), id);
    case SubmitPlain(command) =>
      QueueAppend(s.queue, command, id);
    case UnpinNext =>
      TakeFirst(s.control.pins, id);
    case FinishUnpinning =>
      if s.control.after != Return {
        PlanFieldsMove(s.plans, s.control.after.slot, next.plans[s.control.after.slot], id);
      }
  }

  lemma SubmitKeepsPins(s: State, step: SubmitStep)
    requires PinInv(s) && SubmitEnabled(s, step)
    ensures PinInv(SubmitNext(s, step))
  {
    hide InRange, Holders, Balanced, Resolved;
    SubmitStaysInRange(s, step);
    UnpinIsReady(s);
    var next := SubmitNext(s, step);
    forall id ensures Holders(next, id) + HeldBy(SubmitUnpins(s, step), id) ==
                      Holders(s, id) + HeldBy(SubmitPins(s, step), id)
    {
      SubmitMovesHolders(s, step, id);
    }
    SubmitMovesHolders(s, step, AssetId(0, 0));
    match step {
      case PinForVoice(_, id) => PinKeepsBalance(s, next, id);
      case UnpinNext =>
        if s.control.phase == Subtracting {
          UnpinKeepsBalance(s, next, s.control.pins[0]);
        } else {
          MoveKeepsBalance(s, next);
        }
      case _ => MoveKeepsBalance(s, next);
    }
    SameObjects(s, next);
  }

  // ---- Graph plans ----------------------------------------------------------------------------

  lemma PlanMovesHolders(s: State, step: PlanStep, id: AssetId)
    requires InRange(s) && PlanEnabled(s, step)
    ensures Holders(PlanNext(s, step), id) ==
            Holders(s, id) + HeldBy(if step.PinForPlan? then Some(step.id) else None, id)
  {
    hide Sum, InQueue, InVoices, InPlans, ListHolds, InControl, InAudio, InRange, AddPin;
    PlanSlotsMove(s, step, id);
    match step
    case SubmitActivation(h) => QueueAppend(s.queue, ActivatePlan(h), id);
    case _ =>
  }

  /** A plan moves between its slot and the control thread's hands; a pin joins the list being
      compiled. */
  lemma PlanSlotsMove(s: State, step: PlanStep, id: AssetId)
    requires InRange(s) && PlanEnabled(s, step)
    ensures
      var next := PlanNext(s, step);
      Sum(InPlans(next.plans, id)) + InControl(next.control, id) ==
      Sum(InPlans(s.plans, id)) + InControl(s.control, id) + HeldBy(if step.PinForPlan? then Some(step.id) else None, id)
  {
    hide Sum, InPlans, AddPin, ListHolds;
    var next := PlanNext(s, step);
    EmptyList(id);
    if step.PinForPlan? {
      AddLast(s.control.pins, step.id, id);
    } else {
      var i := PlanTouched(s, step);
      if i < |s.plans| {
        assert next.plans == s.plans[i := next.plans[i]];
        PlansUpdate(s.plans, i, next.plans[i], id);
      }
    }
  }

  function PlanTouched(s: State, step: PlanStep): nat
    requires PlanEnabled(s, step)
  {
    match step
    case StoreBuilding => s.control.slot
    case StoreGeneration => s.control.slot
    case InstallPlan => s.control.slot
    case ResetRetired => s.control.slot
    case ResetStaged => s.control.slot
    case MarkSubmitted => s.control.handle.slot
    case _ => |s.plans|
  }

  lemma EmptyList(id: AssetId)
    ensures ListHolds([], id) == 0
  {
  }

  lemma PlanKeepsPins(s: State, step: PlanStep)
    requires PinInv(s) && PlanEnabled(s, step)
    ensures PinInv(PlanNext(s, step))
  {
    hide InRange, Holders, Balanced, Resolved;
    PlanStaysInRange(s, step);
    var next := PlanNext(s, step);
    forall id ensures Holders(next, id) == Holders(s, id) + HeldBy(if step.PinForPlan? then Some(step.id) else None, id) {
      PlanMovesHolders(s, step, id);
    }
    if step.PinForPlan? {
      PinKeepsBalance(s, next, step.id);
    } else {
      MoveKeepsBalance(s, next);
    }
    SameObjects(s, next);
  }

  lemma ActivateMovesNothing(s: State, step: ActivateStep, id: AssetId)
    requires InRange(s) && ActivateEnabled(s, step)
    ensures Holders(ActivateNext(s, step), id) == Holders(s, id)
  {
    hide Sum, InQueue, InVoices, InPlans;
    var next := ActivateNext(s, step);
    match step
    case RetirePrevious => PlanFieldsMove(s.plans, s.active.value, next.plans[s.active.value], id);
    case FreePrevious => PlanFieldsMove(s.plans, s.active.value, next.plans[s.active.value], id);
    case StoreActive => PlanFieldsMove(s.plans, s.audio.handle.slot, next.plans[s.audio.handle.slot], id);
    case _ =>
  }

  lemma ActivateKeepsPins(s: State, step: ActivateStep)
    requires PinInv(s) && ActivateEnabled(s, step)
    ensures PinInv(ActivateNext(s, step))
  {
    hide InRange, Holders, Balanced, Resolved;
    ActivateStaysInRange(s, step);
    var next := ActivateNext(s, step);
    forall id ensures Holders(next, id) == Holders(s, id) {
      ActivateMovesNothing(s, step, id);
    }
    MoveKeepsBalance(s, next);
    SameObjects(s, next);
  }

  // ---- The voice pool -------------------------------------------------------------------------

  function VoiceUnpins(s: State, step: VoiceStep): Option<AssetId>
    requires VoiceEnabled(s, step)
  {
    if (step.UnpinReplaced? || step.UnpinEnded?) && s.audio.phase == Subtracting then Some(s.audio.former) else None
  }

  lemma VoiceMovesHolders(s: State, step: VoiceStep, id: AssetId)
    requires InRange(s) && AboutToResolve(s) && VoiceEnabled(s, step)
    requires step.UnpinReplaced? || step.UnpinEnded? ==> UnpinReady(s.assets, s.audio.former, s.audio.phase)
    ensures Holders(VoiceNext(s, step), id) + HeldBy(VoiceUnpins(s, step), id) == Holders(s, id)
    ensures VoiceUnpins(s, step).Some? ==> Holders(s, VoiceUnpins(s, step).value) > 0
  {
    hide Sum, InQueue, InVoices, InPlans, InControl;
    var next := VoiceNext(s, step);
    if step.Pop? {
      QueueTail(s.queue, id);
    } else if next.voices != s.voices {
      var i := VoiceTouched(s, step);
      VoicesUpdate(s.voices, i, next.voices[i], id);
    }
  }

  function VoiceTouched(s: State, step: VoiceStep): nat
    requires VoiceEnabled(s, step)
  {
    match step
    case ApplyCreate => s.audio.command.voice.index
    case ApplyDestroy => s.audio.command.voice.index
    case ReadGeneration => s.audio.voice.index
    case ReadObject => s.audio.voice.index
    case _ => 0
  }

  /** The id a creation carries is pinned, so it is still current and its object is published. */
  lemma CurrentIdIsLive(s: State, step: VoiceStep)
    requires Balanced(s) && VoiceEnabled(s, step)
    ensures step.ReadObject? ==> Live(s.assets, s.audio.id)
    ensures step.ReadGeneration? && s.audio.asset.Some? ==> Live(s.assets, s.audio.asset.value)
  {
    hide Sum, InQueue, InVoices, InPlans, InControl;
    if step.ReadObject? {
      assert Holders(s, s.audio.id) > 0;
    } else if step.ReadGeneration? && s.audio.asset.Some? {
      assert Holders(s, s.audio.asset.value) > 0;
    }
  }

  lemma VoiceKeepsPointers(s: State, step: VoiceStep)
    requires PinInv(s) && VoiceEnabled(s, step)
    ensures Resolved(VoiceNext(s, step)) && AboutToResolve(VoiceNext(s, step))
  {
    hide Balanced, StoreForm;
    var next := VoiceNext(s, step);
    CurrentIdIsLive(s, step);
    forall v | 0 <= v < |next.voices| && next.voices[v].backing.Some?
      ensures PointsTo(next.assets, next.voices[v].backing.value, next.voices[v].asset)
    {
      if next.voices[v] == s.voices[v] {
        assert PointsTo(s.assets, s.voices[v].backing.value, s.voices[v].asset);
      }
    }
  }

  lemma VoiceKeepsPins(s: State, step: VoiceStep)
    requires PinInv(s) && VoiceEnabled(s, step)
    ensures PinInv(VoiceNext(s, step))
  {
    hide InRange, Holders, Balanced, Resolved, AboutToResolve;
    VoiceStaysInRange(s, step);
    VoiceKeepsPointers(s, step);
    UnpinIsReady(s);
    var next := VoiceNext(s, step);
    forall id ensures Holders(next, id) + HeldBy(VoiceUnpins(s, step), id) == Holders(s, id) {
      VoiceMovesHolders(s, step, id);
    }
    VoiceMovesHolders(s, step, AssetId(0, 0));
    if VoiceUnpins(s, step).Some? {
      UnpinKeepsBalance(s, next, s.audio.former);
    } else {
      MoveKeepsBalance(s, next);
    }
  }

  // ---- Every run ------------------------------------------------------------------------------

  lemma StepKeepsPins(s: State, step: Step)
    requires PinInv(s) && Enabled(s, step)
    ensures PinInv(Next(s, step))
  {
    match step
    case Store(x) => StoreKeepsPins(s, x);
    case Submit(x) => SubmitKeepsPins(s, x);
    case Plan(x) => PlanKeepsPins(s, x);
    case Voice(x) => VoiceKeepsPins(s, x);
    case Activate(x) => ActivateKeepsPins(s, x);
  }

  lemma PinsStayBalanced(s: State, steps: seq<Step>)
    requires PinInv(s) && PROTOCOL.IsRun(s, steps)
    ensures PinInv(PROTOCOL.After(s, steps))
  {
    hide PinInv, Next;
    forall t, step | PinInv(t) && PROTOCOL.enabled(t, step) ensures PinInv(PROTOCOL.next(t, step)) {
      StepKeepsPins(t, step);
    }
    RunKeeps(PROTOCOL, (t: State) => PinInv(t), s, steps);
  }

  /** In every state of every run, a slot's pin count is exactly the number of holders of its
      current id. */
  lemma PinsAreConserved(s: State, steps: seq<Step>, i: nat)
    requires Start(s) && PROTOCOL.IsRun(s, steps) && i < |PROTOCOL.After(s, steps).assets|
    ensures
      var end := PROTOCOL.After(s, steps);
      end.assets[i].pins == Holders(end, AssetId(i, end.assets[i].generation))
  {
    hide Holders, StoreForm, Resolved;
    StartIsBalanced(s);
    PinsStayBalanced(s, steps);
  }

  /** No use after free: whatever the threads do, what a voice or a plan can dereference, or a
      queued creation is about to, is the object the store holds under that very id. */
  lemma NothingHeldIsReclaimed(s: State, steps: seq<Step>)
    requires Start(s) && PROTOCOL.IsRun(s, steps)
    ensures
      var end := PROTOCOL.After(s, steps);
      && (forall v :: 0 <= v < |end.voices| && end.voices[v].backing.Some? ==>
            && Live(end.assets, end.voices[v].backing.value)
            && PointsTo(end.assets, end.voices[v].backing.value, end.voices[v].asset))
      && (forall p, id :: 0 <= p < |end.plans| && id in PlanPins(end.plans[p]) ==> Live(end.assets, id))
      && (forall c, id :: 0 <= c < |end.queue| && end.queue[c].CreateVoice? && end.queue[c].asset == Some(id) ==>
            Live(end.assets, id))
  {
    hide Live, Holders, StoreForm, PointsTo;
    StartIsBalanced(s);
    PinsStayBalanced(s, steps);
    var end := PROTOCOL.After(s, steps);
    forall v | 0 <= v < |end.voices| && end.voices[v].backing.Some?
      ensures Live(end.assets, end.voices[v].backing.value)
    {
      VoiceIsHeld(end, v);
    }
    forall p, id | 0 <= p < |end.plans| && id in PlanPins(end.plans[p]) ensures Live(end.assets, id) {
      PlanIsHeld(end, p, id);
    }
    forall c, id | 0 <= c < |end.queue| && end.queue[c].CreateVoice? && end.queue[c].asset == Some(id)
      ensures Live(end.assets, id)
    {
      CommandIsHeld(end, c, id);
    }
  }
}
