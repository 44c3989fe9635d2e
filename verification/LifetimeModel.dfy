/** The two threads that share assets, voices and graph plans, as a transition system whose steps
    are the individual atomic operations (src/lavanda/resources/resource_store.cc,
    src/lavanda/runtime/voice_pool.cc, src/lavanda/graph/graph_plan_store.cc,
    src/lavanda/runtime/audio_runtime.cc:879-984). Writes to memory only one thread touches ride
    along with the atomic operation next to them. The command queue appears as the FIFO that
    SpscQueue proves it to be. */
module Lifetimes {
  import opened Prelude
  import opened Signals
  import opened Resources
  import opened Runs
  import Handles

  type VoiceId = Handles.VoiceId

  datatype PlanHandle = PlanHandle(slot: nat, generation: nat)

  datatype Command =
    | CreateVoice(voice: VoiceId, asset: Option<AssetId>)
    | DestroyVoice(voice: VoiceId)
    | ActivatePlan(handle: PlanHandle)
    | OtherCommand

  /** What the audio thread keeps about a voice: the asset it was created on and the object that
      id resolved to. */
  datatype VoiceSlot = VoiceSlot(alive: bool, generation: nat, backing: Option<AssetId>, asset: Option<AudioAsset>)

  datatype PlanState = FreePlan | Building | Pending | Active | Retired

  /** A plan is represented by the asset ids it pins. */
  datatype PlanSlot = PlanSlot(state: PlanState, generation: nat, plan: Option<seq<AssetId>>, submitted: bool)

  /** What the control thread does once an owner's pins are given back. */
  datatype Afterwards = Return | PublishPending(slot: nat) | FreeStaged(slot: nat)

  /** Where a thread is inside Unpin: about to compare the generation, about to subtract, or, having
      found no pin to take, about to add it back. */
  datatype UnpinPhase = Comparing | Subtracting | Restoring

  datatype ControlPc =
    | Idle
    | SeenUnpinned(slot: nat)
    | GenerationMoved(slot: nat)
    | Unpublished(slot: nat)
    | Publishing(slot: nat)
    | CreatingVoice(voice: VoiceId, asset: AssetId)
    | Compiling(slot: nat, pins: seq<AssetId>)
    | Staging(slot: nat, pins: seq<AssetId>)
    | Installing(slot: nat, pins: seq<AssetId>)
    | Unpinning(pins: seq<AssetId>, after: Afterwards, phase: UnpinPhase)
    | SeenFree(slot: nat)
    | SeenPending(slot: nat)
    | MarkingSubmitted(handle: PlanHandle)

  datatype AudioPc =
    | Between
    | Applying(command: Command)
    | ReplacingVoice(voice: VoiceId, asset: Option<AssetId>, former: AssetId, phase: UnpinPhase)
    | ResolvingVoice(voice: VoiceId, asset: Option<AssetId>)
    | ReadingObject(voice: VoiceId, id: AssetId, current: bool)
    | EndingVoice(former: AssetId, phase: UnpinPhase)
    | CheckingGeneration(handle: PlanHandle)
    | RetiringPrevious(handle: PlanHandle)
    | FreeingPrevious(handle: PlanHandle)
    | MarkingActive(handle: PlanHandle)
    | SwitchingTo(handle: PlanHandle)

  datatype State = State(
    assets: seq<AssetSlot>,
    queue: seq<Command>,
    capacity: nat,
    voices: seq<VoiceSlot>,
    plans: seq<PlanSlot>,
    active: Option<nat>,
    control: ControlPc,
    audio: AudioPc)

  /** The control thread inside ResourceStore. */
  datatype StoreStep =
    | SeeUnpinned(slot: nat) | MoveGeneration | Unpublish | ResetAsset
    | FillSlot(slot: nat, asset: AudioAsset, key: string) | PublishAsset
    | ReleaseAsset(id: AssetId)

  /** The control thread submitting commands, and giving pins back. */
  datatype SubmitStep =
    | PinForVoice(voice: VoiceId, id: AssetId) | SubmitVoice
    | SubmitPlain(command: Command)
    | UnpinNext | FinishUnpinning

  /** The control thread inside GraphCompiler and GraphPlanStore. */
  datatype PlanStep =
    | BeginCompile(slot: nat) | PinForPlan(id: AssetId) | FailCompile
    | StoreBuilding | StoreGeneration | InstallPlan
    | SeeFreePlan(slot: nat) | ResetRetired
    | SeePendingPlan(handle: PlanHandle) | ResetStaged
    | SubmitActivation(handle: PlanHandle) | MarkSubmitted

  /** The audio thread taking a command and applying it to the voice pool. */
  datatype VoiceStep =
    | Pop | ApplyCreate | UnpinReplaced | ReadGeneration | ReadObject
    | ApplyDestroy | UnpinEnded | ApplyOther

  /** The audio thread inside TryActivate. */
  datatype ActivateStep =
    | LoadPlanState | LoadPlanGeneration | RetirePrevious | FreePrevious | StoreActive | SwitchActive

  datatype Step =
    | Store(store: StoreStep) | Submit(submit: SubmitStep) | Plan(plan: PlanStep)
    | Voice(voice: VoiceStep) | Activate(activate: ActivateStep)

  predicate Start(s: State) {
    && (forall i :: 0 <= i < |s.assets| ==>
          && s.assets[i].state == Free && s.assets[i].pins == 0 && s.assets[i].generation >= 1
          && s.assets[i].asset.None? && s.assets[i].published.None?)
    && s.queue == []
    && (forall i :: 0 <= i < |s.voices| ==> s.voices[i] == VoiceSlot(false, 0, None, None))
    && (forall i :: 0 <= i < |s.plans| ==> s.plans[i] == PlanSlot(FreePlan, 0, None, false))
    && s.active.None? && s.control == Idle && s.audio == Between
  }

  /** Handles come from BuildAndStage, so they name a generation some slot has reached. */
  predicate Issued(plans: seq<PlanSlot>, handle: PlanHandle) {
    handle.slot < |plans| && 1 <= handle.generation <= plans[handle.slot].generation
  }

  predicate StoreEnabled(s: State, step: StoreStep) {
    match step
    case SeeUnpinned(i) => s.control == Idle && i < |s.assets| && s.assets[i].state == Retiring && s.assets[i].pins == 0
    case MoveGeneration => s.control.SeenUnpinned?
    case Unpublish => s.control.GenerationMoved?
    case ResetAsset => s.control.Unpublished?
    case FillSlot(i, _, _) => s.control == Idle && i < |s.assets| && s.assets[i].state == Free
    case PublishAsset => s.control.Publishing?
    case ReleaseAsset(id) => s.control == Idle && NamesResident(s.assets, id)
  }

  predicate SubmitEnabled(s: State, step: SubmitStep) {
    match step
    case PinForVoice(voice, id) => s.control == Idle && voice.index < |s.voices| && NamesResident(s.assets, id)
    case SubmitVoice => s.control.CreatingVoice?
    case SubmitPlain(command) => s.control == Idle && |s.queue| < s.capacity && IsPlain(s, command)
    case UnpinNext => s.control.Unpinning? && s.control.pins != []
    case FinishUnpinning => s.control.Unpinning? && s.control.pins == []
  }

  /** Commands whose submission takes nothing but a place in the queue. */
  predicate IsPlain(s: State, command: Command) {
    match command
    case CreateVoice(voice, asset) => voice.index < |s.voices| && asset.None?
    case ActivatePlan(_) => false
    case _ => true
  }

  predicate PlanEnabled(s: State, step: PlanStep) {
    match step
    case BeginCompile(i) => s.control == Idle && i < |s.plans| && s.plans[i].state == FreePlan
    case PinForPlan(id) => s.control.Compiling? && NamesResident(s.assets, id)
    case FailCompile => s.control.Compiling?
    case StoreBuilding => s.control.Compiling?
    case StoreGeneration => s.control.Staging?
    case InstallPlan => s.control.Installing?
    case SeeFreePlan(i) => s.control == Idle && i < |s.plans| && s.plans[i].state == FreePlan && s.plans[i].plan.Some?
    case ResetRetired => s.control.SeenFree?
    case SeePendingPlan(h) =>
      && s.control == Idle && h.slot < |s.plans| && s.plans[h.slot].generation == h.generation
      && !s.plans[h.slot].submitted && s.plans[h.slot].state == Pending
    case ResetStaged => s.control.SeenPending?
    case SubmitActivation(h) => s.control == Idle && Issued(s.plans, h) && |s.queue| < s.capacity
    case MarkSubmitted => s.control.MarkingSubmitted?
  }

  predicate VoiceEnabled(s: State, step: VoiceStep) {
    match step
    case Pop => s.audio == Between && s.queue != []
    case ApplyCreate => s.audio.Applying? && s.audio.command.CreateVoice?
    case UnpinReplaced => s.audio.ReplacingVoice?
    case ReadGeneration => s.audio.ResolvingVoice?
    case ReadObject => s.audio.ReadingObject?
    case ApplyDestroy => s.audio.Applying? && s.audio.command.DestroyVoice?
    case UnpinEnded => s.audio.EndingVoice?
    case ApplyOther => s.audio.Applying? && s.audio.command.OtherCommand?
  }

  predicate ActivateEnabled(s: State, step: ActivateStep) {
    match step
    case LoadPlanState => s.audio.Applying? && s.audio.command.ActivatePlan?
    case LoadPlanGeneration => s.audio.CheckingGeneration?
    case RetirePrevious => s.audio.RetiringPrevious?
    case FreePrevious => s.audio.FreeingPrevious?
    case StoreActive => s.audio.MarkingActive?
    case SwitchActive => s.audio.SwitchingTo?
  }

  /** Indices the program counters carry stay in range; the control thread only touches slots it
      looked up. */
  predicate InRange(s: State) {
    && ControlInRange(s.control, |s.assets|, |s.voices|, |s.plans|)
    && AudioInRange(s.audio, |s.assets|, |s.voices|, |s.plans|)
    && QueueInRange(s.queue, |s.voices|, |s.plans|)
    && (s.active.Some? ==> s.active.value < |s.plans|)
    && ((s.audio.RetiringPrevious? || s.audio.FreeingPrevious?) ==> s.active.Some?)
  }

  predicate ControlInRange(pc: ControlPc, assets: nat, voices: nat, plans: nat) {
    match pc
    case SeenUnpinned(i) => i < assets
    case GenerationMoved(i) => i < assets
    case Unpublished(i) => i < assets
    case Publishing(i) => i < assets
    case CreatingVoice(voice, _) => voice.index < voices
    case Compiling(i, _) => i < plans
    case Staging(i, _) => i < plans
    case Installing(i, _) => i < plans
    case Unpinning(pins, after, phase) =>
      && (pins != [] ==> InsideUnpin(assets, pins[0], phase))
      && (match after case PublishPending(i) => i < plans case FreeStaged(i) => i < plans case Return => true)
    case SeenFree(i) => i < plans
    case SeenPending(i) => i < plans
    case MarkingSubmitted(h) => h.slot < plans
    case _ => true
  }

  predicate AudioInRange(pc: AudioPc, assets: nat, voices: nat, plans: nat) {
    match pc
    case Applying(command) => CommandInRange(command, voices, plans)
    case ReplacingVoice(voice, _, former, phase) => voice.index < voices && InsideUnpin(assets, former, phase)
    case EndingVoice(former, phase) => InsideUnpin(assets, former, phase)
    case ResolvingVoice(voice, _) => voice.index < voices
    case ReadingObject(voice, _, _) => voice.index < voices
    case CheckingGeneration(h) => h.slot < plans
    case RetiringPrevious(h) => h.slot < plans
    case FreeingPrevious(h) => h.slot < plans
    case MarkingActive(h) => h.slot < plans
    case SwitchingTo(h) => h.slot < plans
    case _ => true
  }

  predicate QueueInRange(queue: seq<Command>, voices: nat, plans: nat) {
    forall i :: 0 <= i < |queue| ==> CommandInRange(queue[i], voices, plans)
  }

  predicate CommandInRange(command: Command, voices: nat, plans: nat) {
    match command
    case CreateVoice(voice, _) => voice.index < voices
    case ActivatePlan(h) => h.slot < plans
    case _ => true
  }

  /** Past the comparison the slot exists. */
  predicate InsideUnpin(assets: nat, id: AssetId, phase: UnpinPhase) {
    phase == Comparing || id.index < assets
  }

  // ---- The steps --------------------------------------------------------------------------------

  function AddPin(assets: seq<AssetSlot>, id: AssetId): seq<AssetSlot>
    requires id.index < |assets|
  {
    assets[id.index := assets[id.index].(pins := assets[id.index].pins + 1)]
  }

  const PIN_LIMIT: nat := 0x1_0000_0000

  /** fetch_sub and fetch_add on the 32-bit pin count. */
  function SubtractPin(assets: seq<AssetSlot>, id: AssetId): seq<AssetSlot>
    requires id.index < |assets|
  {
    var pins := assets[id.index].pins;
    assets[id.index := assets[id.index].(pins := if pins == 0 then PIN_LIMIT - 1 else pins - 1)]
  }

  function RestorePin(assets: seq<AssetSlot>, id: AssetId): seq<AssetSlot>
    requires id.index < |assets|
  {
    assets[id.index := assets[id.index].(pins := (assets[id.index].pins + 1) % PIN_LIMIT)]
  }

  /** One atomic step of Unpin: the pin counts after it, and where it leaves off, if not done. */
  function UnpinStep(assets: seq<AssetSlot>, id: AssetId, phase: UnpinPhase): (seq<AssetSlot>, Option<UnpinPhase>)
    requires InsideUnpin(|assets|, id, phase)
  {
    match phase
    case Comparing => (assets, if Names(assets, id) then Some(Subtracting) else None)
    case Subtracting => (SubtractPin(assets, id), if assets[id.index].pins == 0 then Some(Restoring) else None)
    case Restoring => (RestorePin(assets, id), None)
  }

  function PlanPins(slot: PlanSlot): seq<AssetId> {
    if slot.plan.Some? then slot.plan.value else []
  }

  function StoreNext(s: State, step: StoreStep): State
    requires InRange(s) && StoreEnabled(s, step)
  {
    match step
    case SeeUnpinned(i) => s.(control := SeenUnpinned(i))
    case MoveGeneration =>
      var i := s.control.slot;
      s.(assets := s.assets[i := s.assets[i].(generation := NextGeneration(s.assets[i].generation))],
         control := GenerationMoved(i))
    case Unpublish =>
      var i := s.control.slot;
      s.(assets := s.assets[i := s.assets[i].(published := None)], control := Unpublished(i))
    case ResetAsset =>
      var i := s.control.slot;
      s.(assets := s.assets[i := s.assets[i].(asset := None, bytes := 0, state := Free)], control := Idle)
    case FillSlot(i, asset, key) =>
      var filled := s.assets[i].(asset := Some(asset), key := key, bytes := BytesOf(asset), pins := 0, state := Resident);
      s.(assets := s.assets[i := filled], control := Publishing(i))
    case PublishAsset =>
      var i := s.control.slot;
      s.(assets := s.assets[i := s.assets[i].(published := s.assets[i].asset)], control := Idle)
    case ReleaseAsset(id) =>
      s.(assets := s.assets[id.index := s.assets[id.index].(state := Retiring, key := "")])
  }

  function SubmitNext(s: State, step: SubmitStep): State
    requires InRange(s) && SubmitEnabled(s, step)
  {
    match step
    case PinForVoice(voice, id) => s.(assets := AddPin(s.assets, id), control := CreatingVoice(voice, id))
    case SubmitVoice =>
      if |s.queue| < s.capacity
      then s.(queue := s.queue + [CreateVoice(s.control.voice, Some(s.control.asset))], control := Idle)
      else s.(control := Unpinning([s.control.asset], Return, Comparing))
    case SubmitPlain(command) => s.(queue := s.queue + [command])
    case UnpinNext =>
      var (assets, phase) := UnpinStep(s.assets, s.control.pins[0], s.control.phase);
      s.(assets := assets,
         control := if phase.Some? then Unpinning(s.control.pins, s.control.after, phase.value)
                    else Unpinning(s.control.pins[1..], s.control.after, Comparing))
    case FinishUnpinning =>
      (match s.control.after
       case Return => s.(control := Idle)
       case PublishPending(i) => s.(plans := s.plans[i := s.plans[i].(state := Pending)], control := Idle)
       case FreeStaged(i) => s.(plans := s.plans[i := s.plans[i].(state := FreePlan)], control := Idle))
  }

  function PlanNext(s: State, step: PlanStep): State
    requires InRange(s) && PlanEnabled(s, step)
  {
    match step
    case BeginCompile(i) => s.(control := Compiling(i, []))
    case PinForPlan(id) =>
      s.(assets := AddPin(s.assets, id), control := Compiling(s.control.slot, s.control.pins + [id]))
    case FailCompile => s.(control := Unpinning(s.control.pins, Return, Comparing))
    case StoreBuilding =>
      var i := s.control.slot;
      s.(plans := s.plans[i := s.plans[i].(state := Building)], control := Staging(i, s.control.pins))
    case StoreGeneration =>
      var i := s.control.slot;
      s.(plans := s.plans[i := s.plans[i].(generation := s.plans[i].generation + 1)],
         control := Installing(i, s.control.pins))
    case InstallPlan =>
      var i := s.control.slot;
      s.(plans := s.plans[i := s.plans[i].(plan := Some(s.control.pins), submitted := false)],
         control := Unpinning(PlanPins(s.plans[i]), PublishPending(i), Comparing))
    case SeeFreePlan(i) => s.(control := SeenFree(i))
    case ResetRetired =>
      var i := s.control.slot;
      s.(plans := s.plans[i := s.plans[i].(plan := None)], control := Unpinning(PlanPins(s.plans[i]), Return, Comparing))
    case SeePendingPlan(h) => s.(control := SeenPending(h.slot))
    case ResetStaged =>
      var i := s.control.slot;
      s.(plans := s.plans[i := s.plans[i].(plan := None)],
         control := Unpinning(PlanPins(s.plans[i]), FreeStaged(i), Comparing))
    case SubmitActivation(h) => s.(queue := s.queue + [ActivatePlan(h)], control := MarkingSubmitted(h))
    case MarkSubmitted =>
      var h := s.control.handle;
      s.(plans := if s.plans[h.slot].generation == h.generation
                  then s.plans[h.slot := s.plans[h.slot].(submitted := true)] else s.plans,
         control := Idle)
  }

  function VoiceNext(s: State, step: VoiceStep): State
    requires InRange(s) && VoiceEnabled(s, step)
  {
    match step
    case Pop => s.(queue := s.queue[1..], audio := Applying(s.queue[0]))
    case ApplyCreate =>
      var CreateVoice(voice, asset) := s.audio.command;
      var slot := s.voices[voice.index];
      s.(voices := s.voices[voice.index := slot.(backing := None, asset := None)],
         audio := if slot.backing.Some? then ReplacingVoice(voice, asset, slot.backing.value, Comparing)
                  else ResolvingVoice(voice, asset))
    case UnpinReplaced =>
      var (assets, phase) := UnpinStep(s.assets, s.audio.former, s.audio.phase);
      s.(assets := assets,
         audio := if phase.Some? then ReplacingVoice(s.audio.voice, s.audio.asset, s.audio.former, phase.value)
                  else ResolvingVoice(s.audio.voice, s.audio.asset))
    case ReadGeneration =>
      var voice := s.audio.voice;
      if s.audio.asset.None?
      then s.(voices := s.voices[voice.index := VoiceSlot(true, voice.generation, None, None)], audio := Between)
      else s.(audio := ReadingObject(voice, s.audio.asset.value, Names(s.assets, s.audio.asset.value)))
    case ReadObject =>
      var ReadingObject(voice, id, current) := s.audio;
      var found := if current && id.index < |s.assets| then s.assets[id.index].published else None;
      s.(voices := s.voices[voice.index := VoiceSlot(true, voice.generation, Some(id), found)], audio := Between)
    case ApplyDestroy =>
      var voice := s.audio.command.voice;
      if voice.index < |s.voices| && s.voices[voice.index].alive && s.voices[voice.index].generation == voice.generation
      then
        var slot := s.voices[voice.index];
        s.(voices := s.voices[voice.index := VoiceSlot(false, slot.generation, None, None)],
           audio := if slot.backing.Some? then EndingVoice(slot.backing.value, Comparing) else Between)
      else s.(audio := Between)
    case UnpinEnded =>
      var (assets, phase) := UnpinStep(s.assets, s.audio.former, s.audio.phase);
      s.(assets := assets, audio := if phase.Some? then EndingVoice(s.audio.former, phase.value) else Between)
    case ApplyOther => s.(audio := Between)
  }

  function ActivateNext(s: State, step: ActivateStep): State
    requires InRange(s) && ActivateEnabled(s, step)
  {
    match step
    case LoadPlanState =>
      var h := s.audio.command.handle;
      s.(audio := if s.plans[h.slot].state == Pending then CheckingGeneration(h) else Between)
    case LoadPlanGeneration =>
      var h := s.audio.handle;
      s.(audio := if s.plans[h.slot].generation != h.generation then Between
                  else if s.active.Some? then RetiringPrevious(h) else MarkingActive(h))
    case RetirePrevious =>
      var p := s.active.value;
      s.(plans := s.plans[p := s.plans[p].(state := Retired)], audio := FreeingPrevious(s.audio.handle))
    case FreePrevious =>
      var p := s.active.value;
      s.(plans := s.plans[p := s.plans[p].(state := FreePlan)], audio := MarkingActive(s.audio.handle))
    case StoreActive =>
      var h := s.audio.handle;
      s.(plans := s.plans[h.slot := s.plans[h.slot].(state := Active)], audio := SwitchingTo(h))
    case SwitchActive => s.(active := Some(s.audio.handle.slot), audio := Between)
  }

  predicate Enabled(s: State, step: Step) {
    match step
    case Store(x) => StoreEnabled(s, x)
    case Submit(x) => SubmitEnabled(s, x)
    case Plan(x) => PlanEnabled(s, x)
    case Voice(x) => VoiceEnabled(s, x)
    case Activate(x) => ActivateEnabled(s, x)
  }

  function Next(s: State, step: Step): State
    requires InRange(s) && Enabled(s, step)
  {
    match step
    case Store(x) => StoreNext(s, x)
    case Submit(x) => SubmitNext(s, x)
    case Plan(x) => PlanNext(s, x)
    case Voice(x) => VoiceNext(s, x)
    case Activate(x) => ActivateNext(s, x)
  }

  lemma StoreStaysInRange(s: State, step: StoreStep)
    requires InRange(s) && StoreEnabled(s, step)
    ensures InRange(StoreNext(s, step))
  {
    hide AudioInRange, QueueInRange, NextGeneration, BytesOf;
  }

  lemma SubmitStaysInRange(s: State, step: SubmitStep)
    requires InRange(s) && SubmitEnabled(s, step)
    ensures InRange(SubmitNext(s, step))
  {
    hide AudioInRange;
  }

  lemma PlanStaysInRange(s: State, step: PlanStep)
    requires InRange(s) && PlanEnabled(s, step)
    ensures InRange(PlanNext(s, step))
  {
    hide AudioInRange, PlanPins;
  }

  lemma VoiceStaysInRange(s: State, step: VoiceStep)
    requires InRange(s) && VoiceEnabled(s, step)
    ensures InRange(VoiceNext(s, step))
  {
    hide ControlInRange;
  }

  lemma ActivateStaysInRange(s: State, step: ActivateStep)
    requires InRange(s) && ActivateEnabled(s, step)
    ensures InRange(ActivateNext(s, step))
  {
    hide ControlInRange, QueueInRange;
  }

  lemma StaysInRange(s: State, step: Step)
    requires InRange(s) && Enabled(s, step)
    ensures InRange(Next(s, step))
  {
    hide InRange;
    match step
    case Store(x) => StoreStaysInRange(s, x);
    case Submit(x) => SubmitStaysInRange(s, x);
    case Plan(x) => PlanStaysInRange(s, x);
    case Voice(x) => VoiceStaysInRange(s, x);
    case Activate(x) => ActivateStaysInRange(s, x);
  }

  /** Steps of the two threads interleave freely. */
  const PROTOCOL: System<State, Step> :=
    System((s, step) => InRange(s) && Enabled(s, step),
           (s, step) => if InRange(s) && Enabled(s, step) then Next(s, step) else s)

  /** Start is in range, and so is every state after it. */
  lemma RunStaysInRange(s: State, steps: seq<Step>)
    requires InRange(s) && PROTOCOL.IsRun(s, steps)
    ensures InRange(PROTOCOL.After(s, steps))
  {
    hide InRange;
    forall t, step | InRange(t) && Enabled(t, step) ensures InRange(PROTOCOL.next(t, step)) {
      StaysInRange(t, step);
    }
    RunKeeps(PROTOCOL, (t: State) => InRange(t), s, steps);
  }
}
