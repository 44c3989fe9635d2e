/** A run of Lifetimes from end to end: an asset is loaded, a voice is created on it, the asset is
    released before the audio thread has seen the command, the voice plays it all the same, and
    destroying the voice lets the slot be reclaimed (src/lavanda/runtime/audio_runtime.cc:879-928,
    src/lavanda/resources/resource_store.cc:149-201). */
module LifetimeScenario {
  import opened Prelude
  import opened Signals
  import opened Resources
  import opened Lifetimes
  import opened Runs
  import opened CallsAsRuns

  /** A slot once an asset has been loaded into it, and once it has been released under one pin. */
  function Loaded(slot: AssetSlot, asset: AudioAsset, key: string): AssetSlot {
    AssetSlot(Resident, Some(asset), key, BytesOf(asset), slot.generation, 0, Some(asset))
  }

  function Retired(slot: AssetSlot, asset: AudioAsset): AssetSlot {
    Loaded(slot, asset, "").(pins := 1, state := Retiring)
  }

  lemma AssetIsLoaded(s: State, i: nat, asset: AudioAsset, key: string) returns (steps: seq<Step>, next: State)
    requires InRange(s) && s.control == Idle && i < |s.assets| && s.assets[i].state == Free
    ensures PROTOCOL.IsRun(s, steps) && PROTOCOL.After(s, steps) == next && InRange(next)
    ensures next == s.(assets := s.assets[i := Loaded(s.assets[i], asset, key)])
  {
    hide InRange, System.Takes;
    var s1 := StoreTaken(s, FillSlot(i, asset, key));
    next := StoreTaken(s1, PublishAsset);
    steps := [Store(FillSlot(i, asset, key)), Store(PublishAsset)];
    TraceIsRun(PROTOCOL, [s, s1, next], steps);
    assert next.assets[i] == Loaded(s.assets[i], asset, key);
  }

  lemma VoiceIsRequested(s: State, id: AssetId, voice: VoiceId) returns (steps: seq<Step>, next: State)
    requires InRange(s) && s.control == Idle && s.queue == [] && s.capacity > 0 && voice.index < |s.voices|
    requires NamesResident(s.assets, id) && s.assets[id.index].pins == 0
    ensures PROTOCOL.IsRun(s, steps) && PROTOCOL.After(s, steps) == next && InRange(next)
    ensures next == s.(assets := s.assets[id.index := s.assets[id.index].(pins := 1, state := Retiring, key := "")],
                       queue := [CreateVoice(voice, Some(id))])
  {
    hide InRange, System.Takes;
    var s1 := SubmitTaken(s, PinForVoice(voice, id));
    var s2 := SubmitTaken(s1, SubmitVoice);
    next := StoreTaken(s2, ReleaseAsset(id));
    steps := [Submit(PinForVoice(voice, id)), Submit(SubmitVoice), Store(ReleaseAsset(id))];
    TraceIsRun(PROTOCOL, [s, s1, s2, next], steps);
  }

  /** The audio thread takes the first command. */
  lemma CommandIsTaken(s: State) returns (next: State)
    requires InRange(s) && s.audio == Between && s.queue != []
    ensures PROTOCOL.IsRun(s, [Voice(Pop)]) && PROTOCOL.After(s, [Voice(Pop)]) == next && InRange(next)
    ensures next == s.(queue := s.queue[1..], audio := Applying(s.queue[0]))
  {
    hide InRange, System.Takes;
    next := VoiceTaken(s, Pop);
    TraceIsRun(PROTOCOL, [s, next], [Voice(Pop)]);
  }

  lemma DestructionIsSubmitted(s: State, voice: VoiceId) returns (steps: seq<Step>, next: State)
    requires InRange(s) && s.control == Idle && s.audio == Between && s.queue == [] && s.capacity > 0
    ensures PROTOCOL.IsRun(s, steps) && PROTOCOL.After(s, steps) == next && InRange(next)
    ensures next == s.(audio := Applying(DestroyVoice(voice)))
  {
    hide InRange, System.Takes;
    var s1 := SubmitTaken(s, SubmitPlain(DestroyVoice(voice)));
    next := VoiceTaken(s1, Pop);
    steps := [Submit(SubmitPlain(DestroyVoice(voice))), Voice(Pop)];
    TraceIsRun(PROTOCOL, [s, s1, next], steps);
  }

  /** From any start: a voice requested before its asset is released plays that asset, however late
      the audio thread gets to it, and once the voice is destroyed the slot is reclaimed. */
  lemma QueuedVoiceOutlivesRelease(s: State, i: nat, asset: AudioAsset, key: string, voice: VoiceId)
    returns (request: seq<Step>, playing: seq<Step>, rest: seq<Step>)
    requires Start(s) && s.capacity > 0 && i < |s.assets| && voice.index < |s.voices|
    ensures PROTOCOL.IsRun(s, request) && PROTOCOL.IsRun(PROTOCOL.After(s, request), playing)
    ensures PROTOCOL.IsRun(PROTOCOL.After(PROTOCOL.After(s, request), playing), rest)
    ensures PROTOCOL.After(s, request).assets == s.assets[i := Retired(s.assets[i], asset)]
    ensures
      var id := AssetId(i, s.assets[i].generation);
      PROTOCOL.After(PROTOCOL.After(s, request), playing).voices ==
      s.voices[voice.index := VoiceSlot(true, voice.generation, Some(id), Some(asset))]
    ensures PROTOCOL.After(PROTOCOL.After(PROTOCOL.After(s, request), playing), rest).assets ==
            s.assets[i := FreedSlot(Retired(s.assets[i], asset).(pins := 0))]
  {
    hide System.IsRun, System.After, InRange;
    StartInRange(s);
    var id := AssetId(i, s.assets[i].generation);
    var loading, s0 := AssetIsLoaded(s, i, asset, key);
    var requesting, s1 := VoiceIsRequested(s0, id, voice);
    RunThenRun(PROTOCOL, s, loading, requesting);
    request := loading + requesting;
    var s2 := CommandIsTaken(s1);
    var creating := CreateVoiceIsItsSteps(s2);
    RunThenRun(PROTOCOL, s1, [Voice(Pop)], creating);
    playing := [Voice(Pop)] + creating;
    RunStaysInRange(s1, playing);
    var s3 := PROTOCOL.After(s1, playing);
    var submitting, s4 := DestructionIsSubmitted(s3, voice);
    var destroying := DestroyVoiceIsItsSteps(s4);
    RunStaysInRange(s4, destroying);
    var s5 := PROTOCOL.After(s4, destroying);
    ReclaimStepsFreeTheSlot(s5, i);
    RunThenRun(PROTOCOL, s4, destroying, ReclaimSteps(i));
    RunThenRun(PROTOCOL, s3, submitting, destroying + ReclaimSteps(i));
    rest := submitting + (destroying + ReclaimSteps(i));
  }

  lemma StartInRange(s: State)
    requires Start(s)
    ensures InRange(s)
  {
  }
}
