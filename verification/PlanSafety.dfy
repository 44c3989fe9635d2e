/** The plan the audio thread runs stays put until the audio thread itself switches away from it
    (src/lavanda/graph/graph_plan_store.cc:13-146, src/lavanda/runtime/audio_runtime.cc:975-984). */
module PlanSafety {
  import opened Prelude
  import opened Signals
  import opened Resources
  import opened Lifetimes
  import opened Runs

  /** The handle the audio thread has in its hands before it has switched to it. */
  function HandleInHand(audio: AudioPc): Option<PlanHandle> {
    match audio
    case Applying(ActivatePlan(h)) => Some(h)
    case CheckingGeneration(h) => Some(h)
    case RetiringPrevious(h) => Some(h)
    case FreeingPrevious(h) => Some(h)
    case MarkingActive(h) => Some(h)
    case _ => None
  }

  /** An activation that was submitted and has not taken effect yet. */
  ghost predicate InFlight(s: State, h: PlanHandle) {
    ActivatePlan(h) in s.queue || HandleInHand(s.audio) == Some(h)
  }

  /** The handle passed both checks of TryActivate. */
  predicate Accepted(audio: AudioPc) {
    audio.RetiringPrevious? || audio.FreeingPrevious? || audio.MarkingActive?
  }

  /** The slot whose state is Active; in the middle of a switch there may be none. */
  function ActiveSlot(s: State): Option<nat> {
    match s.audio
    case FreeingPrevious(_) => None
    case MarkingActive(_) => None
    case SwitchingTo(h) => Some(h.slot)
    case _ => s.active
  }

  predicate IsCurrent(plans: seq<PlanSlot>, h: PlanHandle) {
    h.slot < |plans| && plans[h.slot].generation == h.generation
  }

  /** What the control thread knows about the slot it is working on. */
  ghost predicate ControlForm(s: State) {
    match s.control
    case Compiling(i, _) => i < |s.plans| && s.plans[i].state == FreePlan
    case Staging(i, _) => i < |s.plans| && s.plans[i].state == Building
    case Installing(i, _) => i < |s.plans| && s.plans[i].state == Building && Fresh(s, i)
    case Unpinning(_, PublishPending(i), _) =>
      i < |s.plans| && s.plans[i].state == Building && s.plans[i].plan.Some? && Fresh(s, i)
    case Unpinning(_, FreeStaged(i), _) => i < |s.plans| && s.plans[i].state == Pending && !s.plans[i].submitted
    case SeenFree(i) => i < |s.plans| && s.plans[i].state == FreePlan
    case SeenPending(i) => i < |s.plans| && s.plans[i].state == Pending && !s.plans[i].submitted
    case _ => true
  }

  /** No handle of the slot's current generation is on its way. */
  ghost predicate Fresh(s: State, i: nat)
    requires i < |s.plans|
  {
    forall h :: InFlight(s, h) && h.slot == i ==> h.generation < s.plans[i].generation
  }

  /** ReleaseStagedPlan has destroyed the plan but not freed its slot yet. */
  predicate BeingReset(control: ControlPc, i: nat) {
    control.Unpinning? && control.after == FreeStaged(i)
  }

  ghost predicate SlotForm(s: State, i: nat)
    requires i < |s.plans|
  {
    && (s.plans[i].state == Active <==> ActiveSlot(s) == Some(i))
    && (s.plans[i].state == Active ==> s.plans[i].plan.Some?)
    && (s.plans[i].state == Pending && !BeingReset(s.control, i) ==> s.plans[i].plan.Some?)
    && (s.plans[i].state == Retired <==> s.audio.FreeingPrevious? && s.active == Some(i))
  }

  /** A handle on its way was issued, and if its plan still waits, the store knows it may not be
      released. */
  ghost predicate Guarded(s: State, h: PlanHandle) {
    && Issued(s.plans, h)
    && (IsCurrent(s.plans, h) && s.plans[h.slot].state == Pending ==>
          s.plans[h.slot].submitted || s.control == MarkingSubmitted(h))
  }

  ghost predicate AudioForm(s: State) {
    match s.audio
    case CheckingGeneration(h) => IsCurrent(s.plans, h) ==> s.plans[h.slot].state == Pending
    case RetiringPrevious(h) => IsCurrent(s.plans, h) && s.plans[h.slot].state == Pending
    case FreeingPrevious(h) => IsCurrent(s.plans, h) && s.plans[h.slot].state == Pending
    case MarkingActive(h) => IsCurrent(s.plans, h) && s.plans[h.slot].state == Pending
    case SwitchingTo(h) => IsCurrent(s.plans, h)
    case _ => true
  }

  ghost predicate PlanInv(s: State) {
    && InRange(s)
    && ControlForm(s)
    && SlotsForm(s)
    && FlightsGuarded(s)
    && AudioForm(s)
  }

  lemma StartIsSafe(s: State)
    requires Start(s)
    ensures PlanInv(s)
  {
  }

  /** Nothing new is on its way. */
  ghost predicate FlightsShrink(s: State, next: State) {
    forall h :: InFlight(next, h) ==> InFlight(s, h)
  }

  ghost predicate SlotsForm(s: State) {
    forall i :: 0 <= i < |s.plans| ==> SlotForm(s, i)
  }

  ghost predicate FlightsGuarded(s: State) {
    forall h :: InFlight(s, h) ==> Guarded(s, h)
  }

  lemma StoreKeepsPlans(s: State, step: StoreStep)
    requires PlanInv(s) && StoreEnabled(s, step)
    ensures PlanInv(StoreNext(s, step))
  {
    hide InRange;
    StoreStaysInRange(s, step);
    var next := StoreNext(s, step);
    SlotsUntouched(s, next);
    FlightsUntouched(s, next);
  }

  lemma SlotsUntouched(s: State, next: State)
    requires SlotsForm(s) && next.plans == s.plans && next.active == s.active && next.audio == s.audio
    requires forall i :: BeingReset(s.control, i) ==> BeingReset(next.control, i)
    ensures SlotsForm(next)
  {
    forall i | 0 <= i < |next.plans| ensures SlotForm(next, i) {
      assert SlotForm(s, i);
    }
  }

  lemma FlightsUntouched(s: State, next: State)
    requires FlightsGuarded(s) && next.plans == s.plans && FlightsShrink(s, next)
    requires s.control.MarkingSubmitted? ==> next.control == s.control
    ensures FlightsGuarded(next)
  {
    forall h | InFlight(next, h) ensures Guarded(next, h) {
      assert Guarded(s, h);
    }
  }

  lemma SubmitKeepsPlans(s: State, step: SubmitStep)
    requires PlanInv(s) && SubmitEnabled(s, step)
    ensures PlanInv(SubmitNext(s, step))
  {
    hide InRange;
    SubmitStaysInRange(s, step);
    var next := SubmitNext(s, step);
    assert FlightsShrink(s, next);
    if step.FinishUnpinning? {
      FinishKeepsPlans(s);
    } else {
      SlotsUntouched(s, next);
      FlightsUntouched(s, next);
    }
  }

  lemma FinishKeepsPlans(s: State)
    requires PlanInv(s) && SubmitEnabled(s, FinishUnpinning)
    ensures
      var next := SubmitNext(s, FinishUnpinning);
      ControlForm(next) && SlotsForm(next) && FlightsGuarded(next) && AudioForm(next)
  {
    FinishKeepsAudio(s);
    var next := SubmitNext(s, FinishUnpinning);
    forall i | 0 <= i < |next.plans| ensures SlotForm(next, i) {
      assert SlotForm(s, i);
    }
    forall h | InFlight(next, h) ensures Guarded(next, h) {
      assert InFlight(s, h) && Guarded(s, h);
    }
  }

  lemma FinishKeepsAudio(s: State)
    requires PlanInv(s) && SubmitEnabled(s, FinishUnpinning)
    ensures AudioForm(SubmitNext(s, FinishUnpinning))
  {
    hide SlotForm;
    if HandleInHand(s.audio).Some? {
      NotBeingReset(s, HandleInHand(s.audio).value);
    }
  }

  /** The control thread never destroys a plan whose activation is on its way. */
  lemma NotBeingReset(s: State, h: PlanHandle)
    requires PlanInv(s) && InFlight(s, h)
    ensures IsCurrent(s.plans, h) ==> s.control != SeenPending(h.slot) && !BeingReset(s.control, h.slot)
    ensures Guarded(s, h)
  {
  }

  lemma PlanKeepsPlans(s: State, step: PlanStep)
    requires PlanInv(s) && PlanEnabled(s, step)
    ensures PlanInv(PlanNext(s, step))
  {
    hide InRange;
    PlanStaysInRange(s, step);
    PlanKeepsSlots(s, step);
    PlanKeepsGuards(s, step);
    PlanKeepsAudio(s, step);
    PlanKeepsControl(s, step);
  }

  lemma PlanKeepsSlots(s: State, step: PlanStep)
    requires PlanInv(s) && PlanEnabled(s, step)
    ensures SlotsForm(PlanNext(s, step))
  {
    var next := PlanNext(s, step);
    forall i | 0 <= i < |next.plans| ensures SlotForm(next, i) {
      assert SlotForm(s, i);
    }
  }

  lemma PlanKeepsGuards(s: State, step: PlanStep)
    requires PlanInv(s) && PlanEnabled(s, step)
    ensures FlightsGuarded(PlanNext(s, step))
  {
    hide SlotForm;
    var next := PlanNext(s, step);
    forall h | InFlight(next, h) ensures Guarded(next, h) {
      if InFlight(s, h) {
        assert Guarded(s, h);
      } else {
        assert step == SubmitActivation(h);
      }
    }
  }

  lemma PlanKeepsAudio(s: State, step: PlanStep)
    requires PlanInv(s) && PlanEnabled(s, step)
    ensures AudioForm(PlanNext(s, step))
  {
    if HandleInHand(s.audio).Some? {
      var h := HandleInHand(s.audio).value;
      assert InFlight(s, h) && Guarded(s, h) && SlotForm(s, h.slot);
    } else if s.audio.SwitchingTo? {
      assert SlotForm(s, s.audio.handle.slot);
    }
  }

  lemma PlanKeepsControl(s: State, step: PlanStep)
    requires PlanInv(s) && PlanEnabled(s, step)
    ensures ControlForm(PlanNext(s, step))
  {
    hide SlotForm, AudioForm;
    var next := PlanNext(s, step);
    if step.StoreGeneration? || step.InstallPlan? {
      forall h | InFlight(next, h) && h.slot == s.control.slot
        ensures h.generation < next.plans[s.control.slot].generation
      {
        assert InFlight(s, h) && Guarded(s, h);
      }
    }
  }

  lemma VoiceKeepsPlans(s: State, step: VoiceStep)
    requires PlanInv(s) && VoiceEnabled(s, step)
    ensures PlanInv(VoiceNext(s, step))
  {
    hide InRange, SlotForm, Guarded;
    VoiceStaysInRange(s, step);
    var next := VoiceNext(s, step);
    forall i | 0 <= i < |next.plans| ensures SlotForm(next, i) {
      VoiceKeepsSlot(s, step, i);
    }
    assert FlightsShrink(s, next);
    FlightsUntouched(s, next);
  }

  lemma VoiceKeepsSlot(s: State, step: VoiceStep, i: nat)
    requires VoiceEnabled(s, step) && InRange(s) && i < |s.plans| && SlotForm(s, i)
    ensures SlotForm(VoiceNext(s, step), i)
  {
  }

  lemma ActivateKeepsPlans(s: State, step: ActivateStep)
    requires PlanInv(s) && ActivateEnabled(s, step)
    ensures PlanInv(ActivateNext(s, step))
  {
    hide InRange;
    ActivateStaysInRange(s, step);
    ActivateKeepsSlots(s, step);
    ActivateKeepsGuards(s, step);
    ActivateKeepsForms(s, step);
  }

  lemma InHandIsInFlight(s: State)
    ensures HandleInHand(s.audio).Some? ==> InFlight(s, HandleInHand(s.audio).value)
  {
  }

  lemma ActivateKeepsSlots(s: State, step: ActivateStep)
    requires PlanInv(s) && ActivateEnabled(s, step)
    ensures SlotsForm(ActivateNext(s, step))
  {
    hide Guarded, InFlight;
    var next := ActivateNext(s, step);
    if step.StoreActive? {
      InHandIsInFlight(s);
      NotBeingReset(s, s.audio.handle);
    }
    forall i | 0 <= i < |next.plans| ensures SlotForm(next, i) {
      assert SlotForm(s, i);
    }
  }

  lemma ActivateKeepsGuards(s: State, step: ActivateStep)
    requires PlanInv(s) && ActivateEnabled(s, step)
    ensures FlightsGuarded(ActivateNext(s, step)) && FlightsShrink(s, ActivateNext(s, step))
  {
    hide SlotForm;
    var next := ActivateNext(s, step);
    forall h | InFlight(next, h) ensures InFlight(s, h) && Guarded(next, h) {
      assert InFlight(s, h) && Guarded(s, h);
    }
  }

  lemma ActivateKeepsForms(s: State, step: ActivateStep)
    requires PlanInv(s) && ActivateEnabled(s, step)
    ensures ControlForm(ActivateNext(s, step)) && AudioForm(ActivateNext(s, step))
  {
    var next := ActivateNext(s, step);
    if HandleInHand(s.audio).Some? {
      var h := HandleInHand(s.audio).value;
      assert InFlight(s, h) && Guarded(s, h);
    }
    if s.active.Some? && s.active.value < |s.plans| {
      assert SlotForm(s, s.active.value);
    }
    ActivateKeepsGuards(s, step);
  }

  lemma StepKeepsPlans(s: State, step: Step)
    requires PlanInv(s) && Enabled(s, step)
    ensures PlanInv(Next(s, step))
  {
    hide PlanInv;
    match step
    case Store(x) => StoreKeepsPlans(s, x);
    case Submit(x) => SubmitKeepsPlans(s, x);
    case Plan(x) => PlanKeepsPlans(s, x);
    case Voice(x) => VoiceKeepsPlans(s, x);
    case Activate(x) => ActivateKeepsPlans(s, x);
  }

  lemma PlansStaySafe(s: State, steps: seq<Step>)
    requires PlanInv(s) && PROTOCOL.IsRun(s, steps)
    ensures PlanInv(PROTOCOL.After(s, steps))
  {
    hide PlanInv, Next;
    forall t, step | PlanInv(t) && PROTOCOL.enabled(t, step) ensures PlanInv(PROTOCOL.next(t, step)) {
      StepKeepsPlans(t, step);
    }
    RunKeeps(PROTOCOL, (t: State) => PlanInv(t), s, steps);
  }

  // ---- What every run keeps -------------------------------------------------------------------

  /** The audio thread is between the stores that retire one plan and install the next. It runs
      no plan until it is through. */
  predicate MidSwitch(audio: AudioPc) {
    audio.FreeingPrevious? || audio.MarkingActive? || audio.SwitchingTo?
  }

  /** Whenever the audio thread may run the active plan, that plan exists, and its slot is the one
      and only Active slot. */
  lemma ActivePlanExists(s: State, steps: seq<Step>)
    requires Start(s) && PROTOCOL.IsRun(s, steps)
    ensures
      var end := PROTOCOL.After(s, steps);
      && (!MidSwitch(end.audio) && end.active.Some? ==>
            && end.active.value < |end.plans|
            && end.plans[end.active.value].state == Active
            && end.plans[end.active.value].plan.Some?)
      && (forall i, j :: 0 <= i < j < |end.plans| ==> end.plans[i].state != Active || end.plans[j].state != Active)
  {
    hide System.IsRun, System.After;
    StartIsSafe(s);
    PlansStaySafe(s, steps);
    var end := PROTOCOL.After(s, steps);
    forall i, j | 0 <= i < j < |end.plans| ensures end.plans[i].state != Active || end.plans[j].state != Active {
      assert SlotForm(end, i) && SlotForm(end, j);
    }
    if end.active.Some? {
      assert SlotForm(end, end.active.value);
    }
  }

  predicate IsControlStep(step: Step) {
    step.Store? || step.Submit? || step.Plan?
  }

  /** No step of the control thread resets, overwrites or restages the plan the audio thread runs
      or is switching to, and none changes which plan that is. */
  lemma ControlLeavesActivePlan(s: State, step: Step, i: nat)
    requires PlanInv(s) && Enabled(s, step) && IsControlStep(step)
    requires ActiveSlot(s) == Some(i) && i < |s.plans|
    ensures
      var next := Next(s, step);
      && ActiveSlot(next) == Some(i) && next.active == s.active && |next.plans| == |s.plans|
      && next.plans[i].plan == s.plans[i].plan && next.plans[i].generation == s.plans[i].generation
      && next.plans[i].state == Active
  {
    hide Guarded, AudioForm, AddPin, UnpinStep;
    assert SlotForm(s, i);
  }

  /** The audio thread only moves slots between states: it destroys no plan. */
  lemma AudioDestroysNoPlan(s: State, step: Step, i: nat)
    requires InRange(s) && Enabled(s, step) && !IsControlStep(step) && i < |s.plans|
    ensures
      var next := Next(s, step);
      && |next.plans| == |s.plans|
      && next.plans[i].plan == s.plans[i].plan && next.plans[i].generation == s.plans[i].generation
  {
  }

  /** A plan whose activation is on its way is not released or overwritten while it waits: the
      control thread leaves its slot pending with the same plan. */
  lemma SubmittedPlanIsKept(s: State, step: Step, h: PlanHandle)
    requires PlanInv(s) && Enabled(s, step) && IsControlStep(step)
    requires InFlight(s, h) && IsCurrent(s.plans, h) && s.plans[h.slot].state == Pending
    ensures
      var next := Next(s, step);
      && IsCurrent(next.plans, h) && next.plans[h.slot].state == Pending
      && next.plans[h.slot].plan == s.plans[h.slot].plan
  {
    hide SlotForm, AudioForm, AddPin, UnpinStep;
    NotBeingReset(s, h);
  }

  lemma StepKeepsGenerations(s: State, step: Step, i: nat)
    requires InRange(s) && Enabled(s, step) && i < |s.plans|
    ensures |Next(s, step).plans| == |s.plans| && Next(s, step).plans[i].generation >= s.plans[i].generation
  {
    hide AddPin, UnpinStep;
    match step
    case Store(x) => assert Next(s, step).plans == s.plans;
    case Submit(x) => SubmitKeepsGenerations(s, x, i);
    case Plan(x) => PlanKeepsGenerations(s, x, i);
    case Voice(x) => assert Next(s, step).plans == s.plans;
    case Activate(x) => AudioDestroysNoPlan(s, step, i);
  }

  lemma SubmitKeepsGenerations(s: State, step: SubmitStep, i: nat)
    requires InRange(s) && SubmitEnabled(s, step) && i < |s.plans|
    ensures |SubmitNext(s, step).plans| == |s.plans| && SubmitNext(s, step).plans[i].generation == s.plans[i].generation
  {
  }

  lemma PlanKeepsGenerations(s: State, step: PlanStep, i: nat)
    requires InRange(s) && PlanEnabled(s, step) && i < |s.plans|
    ensures |PlanNext(s, step).plans| == |s.plans| && PlanNext(s, step).plans[i].generation >= s.plans[i].generation
  {
  }

  lemma GenerationsOnlyGrow(s: State, steps: seq<Step>, i: nat)
    requires PROTOCOL.IsRun(s, steps) && i < |s.plans|
    ensures |PROTOCOL.After(s, steps).plans| == |s.plans|
    ensures PROTOCOL.After(s, steps).plans[i].generation >= s.plans[i].generation
  {
    hide Enabled, Next, InRange;
    forall t, step | PROTOCOL.enabled(t, step) && i < |t.plans|
      ensures |PROTOCOL.next(t, step).plans| == |t.plans|
      ensures PROTOCOL.next(t, step).plans[i].generation >= t.plans[i].generation
    {
      StepKeepsGenerations(t, step, i);
    }
    RunKeeps(PROTOCOL, (t: State) => |t.plans| == |s.plans| && t.plans[i].generation >= s.plans[i].generation, s, steps);
  }

  /** Once a slot has been restaged, a handle of an earlier plan in it never gets past the
      checks of TryActivate. */
  lemma RestagedHandleNeverActivates(s: State, before: seq<Step>, steps: seq<Step>, h: PlanHandle)
    requires Start(s) && PROTOCOL.IsRun(s, before) && PROTOCOL.IsRun(PROTOCOL.After(s, before), steps)
    requires h.slot < |PROTOCOL.After(s, before).plans|
    requires PROTOCOL.After(s, before).plans[h.slot].generation > h.generation
    ensures
      var end := PROTOCOL.After(PROTOCOL.After(s, before), steps);
      Accepted(end.audio) || end.audio.SwitchingTo? ==> end.audio.handle != h
  {
    hide System.IsRun, System.After, SlotsForm, FlightsGuarded, ControlForm, InRange;
    StartIsSafe(s);
    PlansStaySafe(s, before);
    PlansStaySafe(PROTOCOL.After(s, before), steps);
    GenerationsOnlyGrow(PROTOCOL.After(s, before), steps, h.slot);
  }
}
