/** The plan slots as one thread at a time sees them (src/lavanda/graph/graph_plan_store.cc). A slot
    holds the plan GraphCompiler makes; what the two threads' protocol needs to know of a plan is
    which assets it pins. */
module GraphPlanStores {
  import opened Prelude
  import opened Signals
  import opened Resources
  import opened GraphModel
  import opened GraphAnalysis
  import opened GraphExecution
  import opened Compilation
  import opened Lifetimes

  /** Giving back the pins of a destroyed plan, first to last. */
  function AllDropped(assets: seq<AssetSlot>, pins: seq<AssetId>): seq<AssetSlot>
    decreases |pins|
  {
    if pins == [] then assets else AllDropped(Unpinned(assets, pins[0]), pins[1..])
  }

  lemma NothingDropped(assets: seq<AssetSlot>)
    ensures AllDropped(assets, []) == assets
  {
  }

  lemma NothingHeld(assets: seq<AssetSlot>, slot: PlanSlot)
    ensures slot.plan.None? ==> AllDropped(assets, PlanPins(slot)) == assets
  {
  }

  function FirstFree(slots: seq<PlanSlot>): (i: nat)
    ensures i <= |slots| && (i < |slots| ==> slots[i].state == FreePlan)
    ensures forall k :: 0 <= k < i ==> slots[k].state != FreePlan
  {
    if slots == [] || slots[0].state == FreePlan then 0 else 1 + FirstFree(slots[1..])
  }

  /** ReclaimRetiredPlans over the first n slots: free slots give up the plan they still hold. */
  function Swept(slots: seq<PlanSlot>, n: nat): seq<PlanSlot> {
    seq(|slots|, i requires 0 <= i < |slots| =>
      if i < n && slots[i].state == FreePlan then slots[i].(plan := None) else slots[i])
  }

  function SweptAssets(slots: seq<PlanSlot>, assets: seq<AssetSlot>, n: nat): seq<AssetSlot>
    requires n <= |slots|
  {
    if n == 0 then assets
    else
      var before := SweptAssets(slots, assets, n - 1);
      if slots[n - 1].state == FreePlan then AllDropped(before, PlanPins(slots[n - 1])) else before
  }

  class GraphPlanStore {
    const store: ResourceStore
    var slots: seq<PlanSlot>
    /** The plan objects, by slot. */
    var plans: seq<GraphExecutionPlan?>
    var active: Option<nat>

    ghost predicate Valid()
      reads this
    {
      && |plans| == |slots|
      && (forall i :: 0 <= i < |slots| ==> (slots[i].plan.Some? <==> plans[i] != null))
      && (active.Some? ==>
            active.value < |slots| && slots[active.value].state == Active && slots[active.value].plan.Some?)
      && (forall i :: 0 <= i < |slots| && slots[i].state == Pending ==> slots[i].plan.Some?)
    }

    constructor (capacity: nat, store: ResourceStore)
      ensures Valid() && this.store == store && active == None && |slots| == Max(capacity, 1)
      ensures forall i :: 0 <= i < |slots| ==> slots[i] == PlanSlot(FreePlan, 0, None, false)
    {
      this.store, active := store, None;
      slots := seq(Max(capacity, 1), _ => PlanSlot(FreePlan, 0, None, false));
      plans := seq(Max(capacity, 1), _ => null);
    }

    /** A plan's destructor gives its pins back. */
    method DropPins(pins: seq<AssetId>)
      requires store.Valid()
      modifies store`slots
      ensures store.Valid() && store.slots == AllDropped(old(store.slots), pins)
    {
      for i := 0 to |pins|
        invariant store.Valid()
        invariant AllDropped(old(store.slots), pins) == AllDropped(store.slots, pins[i..])
      {
        var _ := store.Unpin(pins[i]);
      }
    }

    /** Compiles the graph and stages the plan in the first free slot under a new generation; a plan
        the slot still held is destroyed. Without a free slot nothing is compiled, and a compilation
        that fails leaves both stores alone. */
    method BuildAndStage(g: Graph, maxFrames: nat, sampleRate: nat)
      returns (r: Result<PlanHandle>, ghost nodes: set<NodeId>)
      requires Valid() && store.Valid() && g.WellFormed()
      modifies this`slots, this`plans, store
      ensures Valid() && store.Valid() && active == old(active)
      ensures FirstFree(old(slots)) == |old(slots)| ==> r == Failure(ResourceExhausted)
      ensures r.Failure? ==> slots == old(slots) && plans == old(plans) && store.slots == old(store.slots)
      ensures FirstFree(old(slots)) < |old(slots)| ==>
                && (!g.IsValidNode(g.output) ==> r == Failure(InvalidArgument))
                && (g.IsValidNode(g.output) ==>
                      && IsOutputCone(g, nodes) && g.AllValid(nodes)
                      && (r.Success? <==> Compilable(g, nodes, true, old(store.slots), sampleRate)))
      ensures r.Success? ==>
                g.AllValid(nodes) && Staged(g, nodes, maxFrames, r.value, old(slots), old(plans), old(store.slots))
    {
      hide PinnedBy, SlotsConsistent, KeysInverse, SumBytes, Compilable, IsPlanFor, RequiredAssets, AllDropped;
      hide Graph.WellFormed, IsOutputCone;
      var free := FindFree();
      nodes := {};
      if free == |slots| {
        return Failure(ResourceExhausted), nodes;
      }
      ghost var assets := store.slots;
      var compiled, pins;
      compiled, pins, nodes := Compile(g, maxFrames, store, sampleRate);
      PinnedByNone(assets);
      if compiled.Failure? {
        return Failure(compiled.status), nodes;
      }
      r := Success(PlanHandle(free, slots[free].generation + 1));
      Install(free, compiled.value, pins.ids);
    }

    /** The slot's stores, in the program's order; the plan it held is destroyed. */
    method Install(free: nat, plan: GraphExecutionPlan, ids: seq<AssetId>)
      requires Valid() && store.Valid() && free < |slots| && slots[free].state == FreePlan
      modifies this`slots, this`plans, store`slots
      ensures Valid() && store.Valid() && plans == old(plans)[free := plan]
      ensures slots == old(slots)[free := PlanSlot(Pending, old(slots)[free].generation + 1, Some(ids), false)]
      ensures store.slots == AllDropped(old(store.slots), PlanPins(old(slots)[free]))
    {
      var replaced := PlanPins(slots[free]);
      slots := slots[free := slots[free].(state := Building)];
      slots := slots[free := slots[free].(generation := slots[free].generation + 1)];
      slots, plans := slots[free := slots[free].(plan := Some(ids))], plans[free := plan];
      DropPins(replaced);
      slots := slots[free := slots[free].(submitted := false, state := Pending)];
    }

    /** The slot has the plan of the graph, pending under the next generation; its asset nodes' pins
        are taken, and those of the plan it replaces given back. */
    ghost predicate Staged(
      g: Graph, nodes: set<NodeId>, maxFrames: nat, handle: PlanHandle, before: seq<PlanSlot>,
      plansBefore: seq<GraphExecutionPlan?>, assets: seq<AssetSlot>)
      requires g.WellFormed() && g.AllValid(nodes)
      reads this, store, plans, set p <- plans | p != null :: p.states, set p <- plans | p != null :: p.buffers
    {
      var i := handle.slot;
      && i == FirstFree(before) < |before| == |plansBefore| == |plans|
      && handle.generation == before[i].generation + 1
      && plans == plansBefore[i := plans[i]] && plans[i] != null
      && IsPlanFor(g, nodes, assets, maxFrames, plans[i]) && OrderIsValid(g, plans[i].order)
      && var pins := RequiredAssets(g, plans[i].order);
      && slots == before[i := PlanSlot(Pending, handle.generation, Some(pins), false)]
      && store.slots == AllDropped(PinnedBy(assets, multiset(pins)), PlanPins(before[i]))
    }

    method FindFree() returns (free: nat)
      ensures free == FirstFree(slots) <= |slots|
    {
      free := |slots|;
      for i := 0 to |slots|
        invariant free == |slots| && forall k :: 0 <= k < i ==> slots[k].state != FreePlan
      {
        if slots[i].state == FreePlan {
          free := i;
          break;
        }
      }
      FirstFreeIs(slots, free);
    }

    /** The plan the audio thread renders, if there is one. */
    method ActivePlan() returns (plan: GraphExecutionPlan?)
      requires Valid()
      ensures plan == if active.Some? then plans[active.value] else null
      ensures plan != null <==> active.Some?
    {
      plan := if active.Some? then plans[active.value] else null;
    }

    method MarkActivationSubmitted(handle: PlanHandle)
      requires Valid()
      modifies this`slots
      ensures Valid() && active == old(active) && plans == old(plans)
      ensures slots ==
              if handle.slot < |old(slots)| && old(slots)[handle.slot].generation == handle.generation
              then old(slots)[handle.slot := old(slots)[handle.slot].(submitted := true)] else old(slots)
    {
      if handle.slot >= |slots| || slots[handle.slot].generation != handle.generation {
        return;
      }
      slots := slots[handle.slot := slots[handle.slot].(submitted := true)];
    }

    /** Only a pending plan whose activation was never submitted can be released. */
    method ReleaseStagedPlan(handle: PlanHandle) returns (ok: bool)
      requires Valid() && store.Valid()
      modifies this`slots, this`plans, store`slots
      ensures Valid() && store.Valid() && active == old(active)
      ensures ok <==>
              && handle.slot < |old(slots)| && old(slots)[handle.slot].generation == handle.generation
              && !old(slots)[handle.slot].submitted && old(slots)[handle.slot].state == Pending
      ensures !ok ==> slots == old(slots) && plans == old(plans) && store.slots == old(store.slots)
      ensures ok ==>
                && slots == old(slots)[handle.slot := old(slots)[handle.slot].(plan := None, state := FreePlan)]
                && plans == old(plans)[handle.slot := null]
                && store.slots == AllDropped(old(store.slots), PlanPins(old(slots)[handle.slot]))
    {
      if handle.slot >= |slots| || slots[handle.slot].generation != handle.generation {
        return false;
      }
      if slots[handle.slot].submitted || slots[handle.slot].state != Pending {
        return false;
      }
      var pins := PlanPins(slots[handle.slot]);
      slots, plans := slots[handle.slot := slots[handle.slot].(plan := None)], plans[handle.slot := null];
      DropPins(pins);
      slots := slots[handle.slot := slots[handle.slot].(state := FreePlan)];
      return true;
    }

    method ReclaimRetiredPlans() returns (reclaimed: nat)
      requires Valid() && store.Valid()
      modifies this`slots, this`plans, store`slots
      ensures Valid() && store.Valid() && active == old(active)
      ensures slots == Swept(old(slots), |old(slots)|)
      ensures forall i :: 0 <= i < |slots| ==> plans[i] == if slots[i].plan.Some? then old(plans)[i] else null
      ensures store.slots == SweptAssets(old(slots), old(store.slots), |old(slots)|)
    {
      hide AllDropped, PlanPins;
      reclaimed := 0;
      assert Swept(slots, 0) == slots;
      for i := 0 to |slots|
        invariant Valid() && store.Valid() && |slots| == |old(slots)|
        invariant forall k :: 0 <= k < |slots| ==> plans[k] == if slots[k].plan.Some? then old(plans)[k] else null
        invariant slots == Swept(old(slots), i) && store.slots == SweptAssets(old(slots), old(store.slots), i)
      {
        assert slots[i] == old(slots)[i];
        if slots[i].state == FreePlan && slots[i].plan.Some? {
          Reset(i);
          reclaimed := reclaimed + 1;
        } else {
          NothingHeld(store.slots, slots[i]);
        }
        assert slots == Swept(old(slots), i + 1);
      }
    }

    /** Destroys the plan in a slot the audio thread is not using. */
    method Reset(i: nat)
      requires Valid() && store.Valid() && i < |slots| && slots[i].state == FreePlan
      modifies this`slots, this`plans, store`slots
      ensures Valid() && store.Valid() && plans == old(plans)[i := null]
      ensures slots == old(slots)[i := old(slots)[i].(plan := None)]
      ensures store.slots == AllDropped(old(store.slots), PlanPins(old(slots)[i]))
    {
      var pins := PlanPins(slots[i]);
      slots, plans := slots[i := slots[i].(plan := None)], plans[i := null];
      DropPins(pins);
    }

    /** Switches to a pending plan of the right generation; the plan it replaces is freed for the
        control thread to reclaim, never destroyed here. */
    method TryActivate(handle: PlanHandle) returns (ok: bool)
      requires Valid()
      modifies this`slots, this`active
      ensures Valid() && plans == old(plans)
      ensures ok <==>
              && handle.slot < |old(slots)| && old(slots)[handle.slot].state == Pending
              && old(slots)[handle.slot].generation == handle.generation
      ensures !ok ==> slots == old(slots) && active == old(active)
      ensures ok ==>
                && active == Some(handle.slot)
                && slots == Activated(old(slots), old(active), handle.slot)
      ensures |slots| == |old(slots)| && forall i :: 0 <= i < |slots| ==> slots[i].plan == old(slots)[i].plan
    {
      if handle.slot >= |slots| {
        return false;
      }
      if slots[handle.slot].state != Pending {
        return false;
      }
      if slots[handle.slot].generation != handle.generation {
        return false;
      }
      if active.Some? {
        slots := slots[active.value := slots[active.value].(state := Retired)];
        slots := slots[active.value := slots[active.value].(state := FreePlan)];
      }
      slots := slots[handle.slot := slots[handle.slot].(state := Active)];
      active := Some(handle.slot);
      return true;
    }
  }

  lemma {:induction false} FirstFreeIs(slots: seq<PlanSlot>, i: nat)
    requires i <= |slots| && (i < |slots| ==> slots[i].state == FreePlan)
    requires forall k :: 0 <= k < i ==> slots[k].state != FreePlan
    ensures FirstFree(slots) == i
  {
    if i > 0 {
      FirstFreeIs(slots[1..], i - 1);
    }
  }

  function Activated(slots: seq<PlanSlot>, active: Option<nat>, target: nat): seq<PlanSlot>
    requires target < |slots|
  {
    var freed := if active.Some? && active.value < |slots|
                 then slots[active.value := slots[active.value].(state := FreePlan)] else slots;
    freed[target := freed[target].(state := Active)]
  }
}
