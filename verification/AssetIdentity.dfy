/** An asset id names at most one asset as long as its slot has not been reused 2^32 - 1 times since:
    until then an id that still matches its slot still means the object it was given out for
    (src/lavanda/resources/resource_store.cc:96-121, src/lavanda/resources/resource_store.cc:168-201). */
module AssetIdentity {
  import opened Prelude
  import opened Signals
  import opened Resources
  import opened Lifetimes
  import opened Runs
  import opened PinConservation

  /** Moving the generation is what makes a slot ready for its next asset. */
  predicate IsReuse(s: State, step: Step, i: nat) {
    step == Store(MoveGeneration) && s.control == SeenUnpinned(i)
  }

  /** How often a run reuses slot i. */
  ghost function ReusesOf(s: State, steps: seq<Step>, i: nat): nat
    decreases |steps|
  {
    if steps == [] then 0
    else (if IsReuse(s, steps[0], i) then 1 else 0) + ReusesOf(PROTOCOL.next(s, steps[0]), steps[1..], i)
  }

  // ---- Generations count reuses -------------------------------------------------------------------

  /** The generation after so many reuses. */
  function Advanced(generation: nat, reuses: nat): nat
    decreases reuses
  {
    if reuses == 0 then generation else Advanced(NextGeneration(generation), reuses - 1)
  }

  /** How many generations there are: zero is skipped. */
  const ROUND: nat := GENERATION_LIMIT - 1

  /** In less than a round a generation never comes back; after a round it does. */
  lemma {:induction false} GenerationsComeRound(generation: nat, reuses: nat)
    requires 1 <= generation < GENERATION_LIMIT && reuses <= ROUND
    ensures Advanced(generation, reuses) ==
            if generation + reuses < GENERATION_LIMIT then generation + reuses else generation + reuses - ROUND
    decreases reuses
  {
    if reuses > 0 {
      GenerationsComeRound(NextGeneration(generation), reuses - 1);
    }
  }

  lemma StepCounts(s: State, step: Step, i: nat)
    requires InRange(s) && Enabled(s, step) && i < |s.assets|
    ensures |Next(s, step).assets| == |s.assets|
    ensures Next(s, step).assets[i].generation ==
            if IsReuse(s, step, i) then NextGeneration(s.assets[i].generation) else s.assets[i].generation
  {
    hide NextGeneration;
    match step
    case Store(x) =>
    case Submit(x) =>
    case Plan(x) =>
    case Voice(x) =>
    case Activate(x) => assert Next(s, step).assets == s.assets;
  }

  /** Along a run a slot's generation moves on once for every reuse of the slot, and for nothing
      else. */
  lemma {:induction false} GenerationCountsReuses(s: State, steps: seq<Step>, i: nat)
    requires PROTOCOL.IsRun(s, steps) && i < |s.assets|
    ensures |PROTOCOL.After(s, steps).assets| == |s.assets|
    ensures PROTOCOL.After(s, steps).assets[i].generation == Advanced(s.assets[i].generation, ReusesOf(s, steps, i))
    decreases |steps|
  {
    hide Enabled, Next, InRange;
    if steps != [] {
      StepCounts(s, steps[0], i);
      GenerationCountsReuses(PROTOCOL.next(s, steps[0]), steps[1..], i);
    }
  }

  // ---- Until it is reused a slot keeps its asset --------------------------------------------------

  ghost predicate StillHolds(s: State, i: nat, asset: AudioAsset) {
    && i < |s.assets| && s.assets[i].asset == Some(asset) && s.assets[i].state != Free
    && s.control != GenerationMoved(i) && s.control != Unpublished(i)
  }

  lemma StepKeepsAsset(s: State, step: Step, i: nat, asset: AudioAsset)
    requires InRange(s) && Enabled(s, step) && StillHolds(s, i, asset) && !IsReuse(s, step, i)
    ensures StillHolds(Next(s, step), i, asset)
  {
    match step
    case Store(x) =>
    case Submit(x) =>
    case Plan(x) =>
    case Voice(x) =>
    case Activate(x) => assert Next(s, step).assets == s.assets && Next(s, step).control == s.control;
  }

  lemma {:induction false} RunKeepsAsset(s: State, steps: seq<Step>, i: nat, asset: AudioAsset)
    requires PROTOCOL.IsRun(s, steps) && StillHolds(s, i, asset) && ReusesOf(s, steps, i) == 0
    ensures StillHolds(PROTOCOL.After(s, steps), i, asset)
    decreases |steps|
  {
    hide StillHolds, Enabled, Next, InRange;
    if steps != [] {
      StepKeepsAsset(s, steps[0], i, asset);
      RunKeepsAsset(PROTOCOL.next(s, steps[0]), steps[1..], i, asset);
    }
  }

  // ---- What an id names -----------------------------------------------------------------------------

  /** A slot holds an asset and is not being changed. */
  ghost predicate Holding(s: State, id: AssetId) {
    Names(s.assets, id) && s.assets[id.index].asset.Some? && !InTransit(s.control, id.index)
  }

  /** From a resident or retiring asset on, over fewer than 2^32 - 1 reuses of its slot, whatever
      becomes of the other slots: the id names its slot exactly as long as the slot has not been
      reused, and then Find, Pin and ResolveForAudio can only mean that asset. After exactly
      2^32 - 1 reuses the id names its slot again, whatever is in it by then. */
  lemma IdNamesOneAsset(s: State, before: seq<Step>, steps: seq<Step>, id: AssetId)
    requires Start(s) && PROTOCOL.IsRun(s, before) && PROTOCOL.IsRun(PROTOCOL.After(s, before), steps)
    requires Holding(PROTOCOL.After(s, before), id) && id.generation < GENERATION_LIMIT
    ensures
      var middle := PROTOCOL.After(s, before);
      var end, reuses := PROTOCOL.After(middle, steps), ReusesOf(middle, steps, id.index);
      && (reuses < ROUND ==>
            && (Names(end.assets, id) <==> reuses == 0)
            && (Names(end.assets, id) ==> end.assets[id.index].asset == middle.assets[id.index].asset))
      && (reuses == ROUND ==> Names(end.assets, id))
  {
    hide System.IsRun, System.After, Balanced, Resolved;
    StartIsBalanced(s);
    PinsStayBalanced(s, before);
    var middle := PROTOCOL.After(s, before);
    assert Settled(middle.assets[id.index]);
    var reuses := ReusesOf(middle, steps, id.index);
    GenerationCountsReuses(middle, steps, id.index);
    if reuses <= ROUND {
      GenerationsComeRound(id.generation, reuses);
    }
    if reuses == 0 {
      RunKeepsAsset(middle, steps, id.index, middle.assets[id.index].asset.value);
    }
  }
}
