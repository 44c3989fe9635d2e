/** The calls of the classes as runs of the atomic steps the interleaving theorems are about: what is
    proved of every interleaving of the steps holds of the calls. */
module CallsAsRuns {
  import opened Prelude
  import opened Signals
  import opened Resources
  import opened Lifetimes
  import opened Runs
  import opened GraphPlanStores
  import opened VoicePools

  // ---- One step at a time -------------------------------------------------------------------------

  lemma StoreTaken(s: State, step: StoreStep) returns (next: State)
    requires InRange(s) && StoreEnabled(s, step)
    ensures next == StoreNext(s, step) && InRange(next) && PROTOCOL.Takes(s, Store(step), next)
  {
    hide StoreEnabled, StoreNext, InRange;
    StoreStaysInRange(s, step);
    next := StoreNext(s, step);
  }

  lemma SubmitTaken(s: State, step: SubmitStep) returns (next: State)
    requires InRange(s) && SubmitEnabled(s, step)
    ensures next == SubmitNext(s, step) && InRange(next) && PROTOCOL.Takes(s, Submit(step), next)
  {
    hide SubmitEnabled, SubmitNext, InRange;
    SubmitStaysInRange(s, step);
    next := SubmitNext(s, step);
  }

  lemma PlanTaken(s: State, step: PlanStep) returns (next: State)
    requires InRange(s) && PlanEnabled(s, step)
    ensures next == PlanNext(s, step) && InRange(next) && PROTOCOL.Takes(s, Plan(step), next)
  {
    hide PlanEnabled, PlanNext, InRange;
    PlanStaysInRange(s, step);
    next := PlanNext(s, step);
  }

  lemma VoiceTaken(s: State, step: VoiceStep) returns (next: State)
    requires InRange(s) && VoiceEnabled(s, step)
    ensures next == VoiceNext(s, step) && InRange(next) && PROTOCOL.Takes(s, Voice(step), next)
  {
    hide VoiceEnabled, VoiceNext, InRange;
    VoiceStaysInRange(s, step);
    next := VoiceNext(s, step);
  }

  lemma ActivateTaken(s: State, step: ActivateStep) returns (next: State)
    requires InRange(s) && ActivateEnabled(s, step)
    ensures next == ActivateNext(s, step) && InRange(next) && PROTOCOL.Takes(s, Activate(step), next)
  {
    hide ActivateEnabled, ActivateNext, InRange;
    ActivateStaysInRange(s, step);
    next := ActivateNext(s, step);
  }

  // ---- The asset store ----------------------------------------------------------------------------

  function ReclaimSteps(i: nat): seq<Step> {
    [Store(SeeUnpinned(i)), Store(MoveGeneration), Store(Unpublish), Store(ResetAsset)]
  }

  /** ReclaimRetired on one slot. */
  lemma ReclaimStepsFreeTheSlot(s: State, i: nat)
    requires InRange(s) && s.control == Idle && i < |s.assets| && Reclaimable(s.assets[i])
    ensures PROTOCOL.IsRun(s, ReclaimSteps(i))
    ensures PROTOCOL.After(s, ReclaimSteps(i)) == s.(assets := s.assets[i := FreedSlot(s.assets[i])])
  {
    hide InRange, NextGeneration, System.Takes;
    var s1 := StoreTaken(s, SeeUnpinned(i));
    var s2 := StoreTaken(s1, MoveGeneration);
    var s3 := StoreTaken(s2, Unpublish);
    var s4 := StoreTaken(s3, ResetAsset);
    TraceIsRun(PROTOCOL, [s, s1, s2, s3, s4], ReclaimSteps(i));
    assert s4 == s.(assets := s.assets[i := FreedSlot(s.assets[i])]);
  }

  /** ReclaimRetired over the first n slots. */
  lemma ReclaimRetiredIsItsSteps(s: State, n: nat) returns (steps: seq<Step>)
    requires InRange(s) && s.control == Idle && n <= |s.assets|
    ensures PROTOCOL.IsRun(s, steps)
    ensures PROTOCOL.After(s, steps) == s.(assets := Reclaimed(s.assets, n))
    ensures InRange(s.(assets := Reclaimed(s.assets, n)))
  {
    hide System.IsRun, System.After;
    if n == 0 {
      ReclaimedNone(s.assets);
      steps := [];
      TraceIsRun(PROTOCOL, [s], []);
    } else {
      var first := ReclaimRetiredIsItsSteps(s, n - 1);
      var middle := s.(assets := Reclaimed(s.assets, n - 1));
      ReclaimedNext(s.assets, n - 1);
      if Reclaimable(s.assets[n - 1]) {
        ReclaimStepsFreeTheSlot(middle, n - 1);
        RunThenRun(PROTOCOL, s, first, ReclaimSteps(n - 1));
        steps := first + ReclaimSteps(n - 1);
        RunStaysInRange(s, steps);
      } else {
        steps := first;
      }
    }
  }

  /** A successful Insert: reclaim, then the first free slot is filled and published. */
  lemma InsertIsItsSteps(s: State, i: nat, asset: AudioAsset, key: string) returns (steps: seq<Step>)
    requires InRange(s) && s.control == Idle && i < |s.assets|
    requires Reclaimed(s.assets, |s.assets|)[i].state == Free
    ensures PROTOCOL.IsRun(s, steps)
    ensures
      var cleared := Reclaimed(s.assets, |s.assets|);
      PROTOCOL.After(s, steps) ==
      s.(assets := cleared[i :=
           AssetSlot(Resident, Some(asset), key, BytesOf(asset), cleared[i].generation, 0, Some(asset))])
  {
    hide System.IsRun, System.After, InRange, System.Takes;
    var first := ReclaimRetiredIsItsSteps(s, |s.assets|);
    var cleared := s.(assets := Reclaimed(s.assets, |s.assets|));
    var filled := StoreTaken(cleared, FillSlot(i, asset, key));
    var published := StoreTaken(filled, PublishAsset);
    var second := [Store(FillSlot(i, asset, key)), Store(PublishAsset)];
    TraceIsRun(PROTOCOL, [cleared, filled, published], second);
    RunThenRun(PROTOCOL, s, first, second);
    steps := first + second;
    assert published.assets[i] ==
           AssetSlot(Resident, Some(asset), key, BytesOf(asset), cleared.assets[i].generation, 0, Some(asset));
  }

  /** A successful Release: the asset retires, and what nobody pins is reclaimed. */
  lemma ReleaseIsItsSteps(s: State, id: AssetId) returns (steps: seq<Step>)
    requires InRange(s) && s.control == Idle && NamesResident(s.assets, id)
    ensures PROTOCOL.IsRun(s, steps)
    ensures
      var retired := s.assets[id.index := s.assets[id.index].(state := Retiring, key := "")];
      PROTOCOL.After(s, steps) == s.(assets := Reclaimed(retired, |s.assets|))
  {
    hide System.IsRun, System.After, InRange, System.Takes, Reclaimed;
    var retired := StoreTaken(s, ReleaseAsset(id));
    TraceIsRun(PROTOCOL, [s, retired], [Store(ReleaseAsset(id))]);
    var second := ReclaimRetiredIsItsSteps(retired, |s.assets|);
    RunThenRun(PROTOCOL, s, [Store(ReleaseAsset(id))], second);
    steps := [Store(ReleaseAsset(id))] + second;
  }

  // ---- Unpin --------------------------------------------------------------------------------------

  /** Unpin from the control thread: one step for a stale id, two where there is a pin to take, and
      three where there is none and the count is put back. */
  lemma UnpinIsItsSteps(s: State) returns (steps: seq<Step>)
    requires InRange(s) && s.control.Unpinning? && s.control.pins != [] && s.control.phase == Comparing
    requires s.control.pins[0].index < |s.assets| ==> s.assets[s.control.pins[0].index].pins < PIN_LIMIT
    ensures PROTOCOL.IsRun(s, steps)
    ensures PROTOCOL.After(s, steps) ==
            s.(assets := Unpinned(s.assets, s.control.pins[0]),
               control := Unpinning(s.control.pins[1..], s.control.after, Comparing))
  {
    hide InRange, System.Takes;
    var id := s.control.pins[0];
    var s1 := SubmitTaken(s, UnpinNext);
    if !Names(s.assets, id) {
      steps := [Submit(UnpinNext)];
      TraceIsRun(PROTOCOL, [s, s1], steps);
    } else {
      var s2 := SubmitTaken(s1, UnpinNext);
      if s.assets[id.index].pins > 0 {
        steps := [Submit(UnpinNext), Submit(UnpinNext)];
        TraceIsRun(PROTOCOL, [s, s1, s2], steps);
      } else {
        var s3 := SubmitTaken(s2, UnpinNext);
        steps := [Submit(UnpinNext), Submit(UnpinNext), Submit(UnpinNext)];
        TraceIsRun(PROTOCOL, [s, s1, s2, s3], steps);
        assert s3.assets == s.assets;
      }
    }
  }

  ghost predicate PinsRepresentable(assets: seq<AssetSlot>) {
    forall i :: 0 <= i < |assets| ==> assets[i].pins < PIN_LIMIT
  }

  lemma UnpinnedRepresentable(assets: seq<AssetSlot>, id: AssetId)
    requires PinsRepresentable(assets)
    ensures PinsRepresentable(Unpinned(assets, id))
  {
  }

  /** A plan's destructor: every pin is given back, and what comes after is done. */
  lemma {:induction false} DropPinsIsItsSteps(s: State, pins: seq<AssetId>, after: Afterwards) returns (steps: seq<Step>)
    requires InRange(s) && s.control == Unpinning(pins, after, Comparing) && PinsRepresentable(s.assets)
    ensures PROTOCOL.IsRun(s, steps)
    ensures PROTOCOL.After(s, steps) ==
            s.(assets := AllDropped(s.assets, pins), control := Unpinning([], after, Comparing))
    decreases |pins|
  {
    hide System.IsRun, System.After, InRange, Unpinned, PinsRepresentable;
    if pins == [] {
      steps := [];
      TraceIsRun(PROTOCOL, [s], []);
    } else {
      assert pins[0].index < |s.assets| ==> s.assets[pins[0].index].pins < PIN_LIMIT by {
        PinCount(s.assets, pins[0].index);
      }
      var first := UnpinIsItsSteps(s);
      RunStaysInRange(s, first);
      UnpinnedRepresentable(s.assets, pins[0]);
      var next := PROTOCOL.After(s, first);
      var rest := DropPinsIsItsSteps(next, pins[1..], after);
      RunThenRun(PROTOCOL, s, first, rest);
      steps := first + rest;
    }
  }

  lemma PinCount(assets: seq<AssetSlot>, i: nat)
    requires PinsRepresentable(assets)
    ensures i < |assets| ==> assets[i].pins < PIN_LIMIT
  {
  }

  /** The rest of a call that ends by destroying a plan. */
  lemma FinishDropping(s: State, pins: seq<AssetId>, after: Afterwards) returns (steps: seq<Step>)
    requires InRange(s) && s.control == Unpinning(pins, after, Comparing) && PinsRepresentable(s.assets)
    ensures PROTOCOL.IsRun(s, steps)
    ensures
      var settled := SubmitNext(s.(control := Unpinning([], after, Comparing)), FinishUnpinning);
      PROTOCOL.After(s, steps) == settled.(assets := AllDropped(s.assets, pins))
  {
    hide System.IsRun, System.After, AllDropped, System.Takes, PinsRepresentable;
    var first := DropPinsIsItsSteps(s, pins, after);
    RunStaysInRange(s, first);
    var dropped := PROTOCOL.After(s, first);
    var end := SubmitTaken(dropped, FinishUnpinning);
    TraceIsRun(PROTOCOL, [dropped, end], [Submit(FinishUnpinning)]);
    RunThenRun(PROTOCOL, s, first, [Submit(FinishUnpinning)]);
    steps := first + [Submit(FinishUnpinning)];
  }

  // ---- The plan store -----------------------------------------------------------------------------

  /** Compile takes its pins one after the other. */
  lemma {:induction false} CompilePinsAreItsSteps(s: State, i: nat, pins: seq<AssetId>) returns (steps: seq<Step>)
    requires InRange(s) && s.control == Compiling(i, [])
    requires forall id :: id in pins ==> NamesResident(s.assets, id)
    ensures PROTOCOL.IsRun(s, steps)
    ensures PROTOCOL.After(s, steps) == s.(assets := PinnedBy(s.assets, multiset(pins)), control := Compiling(i, pins))
    decreases |pins|
  {
    hide System.IsRun, System.After, InRange, System.Takes;
    if pins == [] {
      PinnedByNone(s.assets);
      steps := [];
      TraceIsRun(PROTOCOL, [s], []);
    } else {
      var id, before := pins[|pins| - 1], pins[..|pins| - 1];
      var first := CompilePinsAreItsSteps(s, i, before);
      RunStaysInRange(s, first);
      var middle := PROTOCOL.After(s, first);
      assert id in pins && NamesResident(middle.assets, id);
      var end := PlanTaken(middle, PinForPlan(id));
      TraceIsRun(PROTOCOL, [middle, end], [Plan(PinForPlan(id))]);
      RunThenRun(PROTOCOL, s, first, [Plan(PinForPlan(id))]);
      steps := first + [Plan(PinForPlan(id))];
      PinnedByMore(s.assets, multiset(before), id);
      assert pins == before + [id];
      assert end.assets == PinnedBy(middle.assets, multiset{id});
    }
  }

  /** A successful BuildAndStage on the free slot i, whose compilation pinned these assets. */
  lemma BuildAndStageIsItsSteps(s: State, i: nat, pins: seq<AssetId>) returns (steps: seq<Step>)
    requires InRange(s) && s.control == Idle && i < |s.plans| && s.plans[i].state == FreePlan
    requires forall id :: id in pins ==> NamesResident(s.assets, id)
    requires PinsRepresentable(PinnedBy(s.assets, multiset(pins)))
    ensures PROTOCOL.IsRun(s, steps)
    ensures PROTOCOL.After(s, steps) ==
            s.(assets := AllDropped(PinnedBy(s.assets, multiset(pins)), PlanPins(s.plans[i])),
               plans := s.plans[i := PlanSlot(Pending, s.plans[i].generation + 1, Some(pins), false)])
  {
    hide System.IsRun, System.After, InRange, System.Takes, AllDropped, PinnedBy, PinsRepresentable;
    var s1 := PlanTaken(s, BeginCompile(i));
    TraceIsRun(PROTOCOL, [s, s1], [Plan(BeginCompile(i))]);
    var pinning := CompilePinsAreItsSteps(s1, i, pins);
    RunStaysInRange(s1, pinning);
    var s2 := PROTOCOL.After(s1, pinning);
    var s3 := PlanTaken(s2, StoreBuilding);
    var s4 := PlanTaken(s3, StoreGeneration);
    var s5 := PlanTaken(s4, InstallPlan);
    var installing := [Plan(StoreBuilding), Plan(StoreGeneration), Plan(InstallPlan)];
    TraceIsRun(PROTOCOL, [s2, s3, s4, s5], installing);
    var dropping := FinishDropping(s5, PlanPins(s.plans[i]), PublishPending(i));
    RunThenRun(PROTOCOL, s2, installing, dropping);
    RunThenRun(PROTOCOL, s1, pinning, installing + dropping);
    RunThenRun(PROTOCOL, s, [Plan(BeginCompile(i))], pinning + (installing + dropping));
    steps := [Plan(BeginCompile(i))] + (pinning + (installing + dropping));
  }

  /** A successful ReleaseStagedPlan. */
  lemma ReleaseStagedPlanIsItsSteps(s: State, h: PlanHandle) returns (steps: seq<Step>)
    requires InRange(s) && s.control == Idle && PlanEnabled(s, SeePendingPlan(h)) && PinsRepresentable(s.assets)
    ensures PROTOCOL.IsRun(s, steps)
    ensures PROTOCOL.After(s, steps) ==
            s.(assets := AllDropped(s.assets, PlanPins(s.plans[h.slot])),
               plans := s.plans[h.slot := s.plans[h.slot].(plan := None, state := FreePlan)])
  {
    hide System.IsRun, System.After, InRange, System.Takes, AllDropped, PinsRepresentable;
    var s1 := PlanTaken(s, SeePendingPlan(h));
    var s2 := PlanTaken(s1, ResetStaged);
    TraceIsRun(PROTOCOL, [s, s1, s2], [Plan(SeePendingPlan(h)), Plan(ResetStaged)]);
    var dropping := FinishDropping(s2, PlanPins(s.plans[h.slot]), FreeStaged(h.slot));
    RunThenRun(PROTOCOL, s, [Plan(SeePendingPlan(h)), Plan(ResetStaged)], dropping);
    steps := [Plan(SeePendingPlan(h)), Plan(ResetStaged)] + dropping;
  }

  /** ReclaimRetiredPlans on one slot. */
  lemma ReclaimPlanIsItsSteps(s: State, i: nat) returns (steps: seq<Step>)
    requires InRange(s) && s.control == Idle && PlanEnabled(s, SeeFreePlan(i)) && PinsRepresentable(s.assets)
    ensures PROTOCOL.IsRun(s, steps)
    ensures PROTOCOL.After(s, steps) ==
            s.(assets := AllDropped(s.assets, PlanPins(s.plans[i])), plans := s.plans[i := s.plans[i].(plan := None)])
  {
    hide System.IsRun, System.After, InRange, System.Takes, AllDropped, PinsRepresentable;
    var s1 := PlanTaken(s, SeeFreePlan(i));
    var s2 := PlanTaken(s1, ResetRetired);
    TraceIsRun(PROTOCOL, [s, s1, s2], [Plan(SeeFreePlan(i)), Plan(ResetRetired)]);
    var dropping := FinishDropping(s2, PlanPins(s.plans[i]), Return);
    RunThenRun(PROTOCOL, s, [Plan(SeeFreePlan(i)), Plan(ResetRetired)], dropping);
    steps := [Plan(SeeFreePlan(i)), Plan(ResetRetired)] + dropping;
  }

  lemma {:induction false} AllDroppedRepresentable(assets: seq<AssetSlot>, pins: seq<AssetId>)
    requires PinsRepresentable(assets)
    ensures PinsRepresentable(AllDropped(assets, pins))
    decreases |pins|
  {
    hide PinsRepresentable, Unpinned;
    if pins != [] {
      UnpinnedRepresentable(assets, pins[0]);
      AllDroppedRepresentable(Unpinned(assets, pins[0]), pins[1..]);
    }
  }

  /** ReclaimRetiredPlans over the first n slots. */
  lemma {:induction false} ReclaimPlansAreItsSteps(s: State, n: nat) returns (steps: seq<Step>)
    requires InRange(s) && s.control == Idle && n <= |s.plans| && PinsRepresentable(s.assets)
    ensures PROTOCOL.IsRun(s, steps)
    ensures
      var end := s.(assets := SweptAssets(s.plans, s.assets, n), plans := Swept(s.plans, n));
      PROTOCOL.After(s, steps) == end && PinsRepresentable(end.assets)
  {
    hide System.IsRun, System.After, InRange, AllDropped, PinsRepresentable;
    if n == 0 {
      assert Swept(s.plans, 0) == s.plans;
      steps := [];
      TraceIsRun(PROTOCOL, [s], []);
    } else {
      var first := ReclaimPlansAreItsSteps(s, n - 1);
      RunStaysInRange(s, first);
      var middle := PROTOCOL.After(s, first);
      assert middle.plans[n - 1] == s.plans[n - 1];
      NothingDropped(middle.assets);
      if s.plans[n - 1].state == FreePlan && s.plans[n - 1].plan.Some? {
        var second := ReclaimPlanIsItsSteps(middle, n - 1);
        RunThenRun(PROTOCOL, s, first, second);
        steps := first + second;
        AllDroppedRepresentable(middle.assets, PlanPins(s.plans[n - 1]));
        assert Swept(s.plans, n) == middle.plans[n - 1 := middle.plans[n - 1].(plan := None)];
      } else {
        steps := first;
        assert Swept(s.plans, n) == middle.plans;
      }
    }
  }

  /** A successful TryActivate. */
  lemma TryActivateIsItsSteps(s: State, h: PlanHandle) returns (steps: seq<Step>)
    requires InRange(s) && s.audio == Applying(ActivatePlan(h)) && h.slot < |s.plans|
    requires s.plans[h.slot].state == Pending && s.plans[h.slot].generation == h.generation
    ensures PROTOCOL.IsRun(s, steps)
    ensures PROTOCOL.After(s, steps) ==
            s.(plans := Activated(s.plans, s.active, h.slot), active := Some(h.slot), audio := Between)
  {
    hide System.IsRun, System.After, System.Takes;
    var s1 := ActivateTaken(s, LoadPlanState);
    var s2 := ActivateTaken(s1, LoadPlanGeneration);
    if s.active.Some? {
      var s3 := ActivateTaken(s2, RetirePrevious);
      var s4 := ActivateTaken(s3, FreePrevious);
      var s5 := ActivateTaken(s4, StoreActive);
      var s6 := ActivateTaken(s5, SwitchActive);
      steps := [Activate(LoadPlanState), Activate(LoadPlanGeneration), Activate(RetirePrevious), Activate(FreePrevious),
                Activate(StoreActive), Activate(SwitchActive)];
      TraceIsRun(PROTOCOL, [s, s1, s2, s3, s4, s5, s6], steps);
    } else {
      var s3 := ActivateTaken(s2, StoreActive);
      var s4 := ActivateTaken(s3, SwitchActive);
      steps := [Activate(LoadPlanState), Activate(LoadPlanGeneration), Activate(StoreActive), Activate(SwitchActive)];
      TraceIsRun(PROTOCOL, [s, s1, s2, s3, s4], steps);
    }
  }

  // ---- The voice pool -----------------------------------------------------------------------------

  /** Unpin from the audio thread, while a voice is replaced. */
  lemma UnpinReplacedIsItsSteps(s: State) returns (steps: seq<Step>)
    requires InRange(s) && s.audio.ReplacingVoice? && s.audio.phase == Comparing && PinsRepresentable(s.assets)
    ensures PROTOCOL.IsRun(s, steps)
    ensures PROTOCOL.After(s, steps) ==
            s.(assets := Unpinned(s.assets, s.audio.former), audio := ResolvingVoice(s.audio.voice, s.audio.asset))
  {
    hide InRange, System.Takes;
    var s1 := VoiceTaken(s, UnpinReplaced);
    if !Names(s.assets, s.audio.former) {
      steps := [Voice(UnpinReplaced)];
      TraceIsRun(PROTOCOL, [s, s1], steps);
    } else {
      var s2 := VoiceTaken(s1, UnpinReplaced);
      if s.assets[s.audio.former.index].pins > 0 {
        steps := [Voice(UnpinReplaced), Voice(UnpinReplaced)];
        TraceIsRun(PROTOCOL, [s, s1, s2], steps);
      } else {
        var s3 := VoiceTaken(s2, UnpinReplaced);
        steps := [Voice(UnpinReplaced), Voice(UnpinReplaced), Voice(UnpinReplaced)];
        TraceIsRun(PROTOCOL, [s, s1, s2, s3], steps);
        assert s3.assets == s.assets;
      }
    }
  }

  lemma UnpinEndedIsItsSteps(s: State) returns (steps: seq<Step>)
    requires InRange(s) && s.audio.EndingVoice? && s.audio.phase == Comparing && PinsRepresentable(s.assets)
    ensures PROTOCOL.IsRun(s, steps)
    ensures PROTOCOL.After(s, steps) == s.(assets := Unpinned(s.assets, s.audio.former), audio := Between)
  {
    hide InRange, System.Takes;
    var s1 := VoiceTaken(s, UnpinEnded);
    if !Names(s.assets, s.audio.former) {
      steps := [Voice(UnpinEnded)];
      TraceIsRun(PROTOCOL, [s, s1], steps);
    } else {
      var s2 := VoiceTaken(s1, UnpinEnded);
      if s.assets[s.audio.former.index].pins > 0 {
        steps := [Voice(UnpinEnded), Voice(UnpinEnded)];
        TraceIsRun(PROTOCOL, [s, s1, s2], steps);
      } else {
        var s3 := VoiceTaken(s2, UnpinEnded);
        steps := [Voice(UnpinEnded), Voice(UnpinEnded), Voice(UnpinEnded)];
        TraceIsRun(PROTOCOL, [s, s1, s2, s3], steps);
        assert s3.assets == s.assets;
      }
    }
  }

  lemma ResolvingIsItsSteps(s: State) returns (steps: seq<Step>)
    requires InRange(s) && s.audio.ResolvingVoice? && s.audio.voice.index < |s.voices|
    ensures PROTOCOL.IsRun(s, steps)
    ensures
      var slot := VoiceSlot(true, s.audio.voice.generation, s.audio.asset, Found(s.assets, s.audio.asset));
      PROTOCOL.After(s, steps) == s.(voices := s.voices[s.audio.voice.index := slot], audio := Between)
  {
    hide InRange, System.Takes;
    var s1 := VoiceTaken(s, ReadGeneration);
    if s.audio.asset.None? {
      steps := [Voice(ReadGeneration)];
      TraceIsRun(PROTOCOL, [s, s1], steps);
    } else {
      var s2 := VoiceTaken(s1, ReadObject);
      steps := [Voice(ReadGeneration), Voice(ReadObject)];
      TraceIsRun(PROTOCOL, [s, s1, s2], steps);
    }
  }

  /** Unpinning one asset changes nothing about which object an id finds. */
  lemma FoundIgnoresPins(slots: seq<AssetSlot>, former: AssetId, asset: Option<AssetId>)
    ensures Found(Unpinned(slots, former), asset) == Found(slots, asset)
  {
  }

  /** VoicePool's CreateAt: what the slot held is given back, and the new id resolved. */
  lemma CreateVoiceIsItsSteps(s: State) returns (steps: seq<Step>)
    requires InRange(s) && s.audio.Applying? && s.audio.command.CreateVoice? && PinsRepresentable(s.assets)
    requires s.audio.command.voice.index < |s.voices|
    ensures PROTOCOL.IsRun(s, steps)
    ensures
      var CreateVoice(voice, asset) := s.audio.command;
      PROTOCOL.After(s, steps) ==
      s.(assets := GivenBack(s.assets, s.voices[voice.index].backing),
         voices := s.voices[voice.index := VoiceSlot(true, voice.generation, asset, Found(s.assets, asset))],
         audio := Between)
  {
    hide System.IsRun, System.After, InRange, System.Takes, Found;
    var CreateVoice(voice, asset) := s.audio.command;
    var s1 := VoiceTaken(s, ApplyCreate);
    var first := [Voice(ApplyCreate)];
    TraceIsRun(PROTOCOL, [s, s1], first);
    if s.voices[voice.index].backing.Some? {
      var unpinning := UnpinReplacedIsItsSteps(s1);
      RunStaysInRange(s1, unpinning);
      FoundIgnoresPins(s.assets, s.voices[voice.index].backing.value, asset);
      RunThenRun(PROTOCOL, s, first, unpinning);
      first := first + unpinning;
    }
    RunStaysInRange(s, first);
    var rest := ResolvingIsItsSteps(PROTOCOL.After(s, first));
    RunThenRun(PROTOCOL, s, first, rest);
    steps := first + rest;
  }

  /** VoicePool's DestroyAt, for a handle that is still valid. */
  lemma DestroyVoiceIsItsSteps(s: State) returns (steps: seq<Step>)
    requires InRange(s) && s.audio.Applying? && s.audio.command.DestroyVoice? && PinsRepresentable(s.assets)
    requires
      var voice := s.audio.command.voice;
      voice.index < |s.voices| && s.voices[voice.index].alive && s.voices[voice.index].generation == voice.generation
    ensures PROTOCOL.IsRun(s, steps)
    ensures
      var voice := s.audio.command.voice;
      PROTOCOL.After(s, steps) ==
      s.(assets := GivenBack(s.assets, s.voices[voice.index].backing),
         voices := s.voices[voice.index := VoiceSlot(false, voice.generation, None, None)], audio := Between)
  {
    hide System.IsRun, System.After, InRange, System.Takes;
    var voice := s.audio.command.voice;
    var s1 := VoiceTaken(s, ApplyDestroy);
    steps := [Voice(ApplyDestroy)];
    TraceIsRun(PROTOCOL, [s, s1], steps);
    if s.voices[voice.index].backing.Some? {
      var unpinning := UnpinEndedIsItsSteps(s1);
      RunThenRun(PROTOCOL, s, steps, unpinning);
      steps := steps + unpinning;
    }
  }
}
