/** GraphCompiler::Compile as a whole (src/lavanda/graph/graph_compiler.cc), with the asset pins a
    plan owns (src/lavanda/graph/asset_pins.cc). */
module Compilation {
  import opened Prelude
  import opened Signals
  import opened GraphModel
  import opened GraphAnalysis
  import opened BufferAllocation
  import opened BufferEconomy
  import opened BufferAssignment
  import opened GraphMeaning
  import opened GraphExecution
  import opened Resources

  // ---- Pin ownership ----------------------------------------------------------------------------

  /** The pins one owner holds on the store. Owning ids means the store's pin counts exceed the
      baseline by exactly those ids. */
  class AssetPins {
    var store: ResourceStore?
    var ids: seq<AssetId>

    ghost predicate Owns(baseline: seq<AssetSlot>)
      reads this, store
    {
      store == null || (store.Valid() && store.slots == PinnedBy(baseline, multiset(ids)))
    }

    constructor (store: ResourceStore?)
      ensures this.store == store && ids == []
    {
      this.store := store;
      ids := [];
    }

    /** A pin that succeeds is recorded; one that fails leaves the owner as it was. */
    method Pin(id: AssetId, ghost baseline: seq<AssetSlot>) returns (asset: Option<AudioAsset>)
      requires Owns(baseline) && (store == null ==> ids == [])
      modifies this`ids, store
      ensures Owns(baseline) && store == old(store) && (store == null ==> ids == [])
      ensures asset == if store != null && NamesResident(baseline, id) then baseline[id.index].asset else None
      ensures ids == if asset.Some? then old(ids) + [id] else old(ids)
    {
      if store == null {
        return None;
      }
      asset := store.Pin(id);
      if asset.Some? {
        PinnedByMore(baseline, multiset(ids), id);
        ids := ids + [id];
      } else {
        assert !NamesResident(baseline, id);
      }
    }

    /** Gives every pin back: the store is as if the owner had never existed. */
    method ReleaseAll(ghost baseline: seq<AssetSlot>)
      requires Owns(baseline) && (store == null ==> ids == [])
      requires forall id :: id in ids ==> Names(baseline, id)
      modifies this`ids, store
      ensures Owns(baseline) && store == old(store) && ids == []
      ensures store != null ==> store.slots == baseline
    {
      hide PinnedBy, SlotsConsistent, KeysInverse, SumBytes;
      if store != null {
        var s := store;
        assert ids[0..] == ids;
        for i := 0 to |ids|
          invariant store == s && ids == old(ids) && s.Valid()
          invariant s.slots == PinnedBy(baseline, multiset(ids[i..]))
        {
          assert ids[i] in multiset(ids[i..]) && ids[i] in ids;
          UnpinUndoesPin(baseline, multiset(ids[i..]), ids[i]);
          MultisetSplit(ids, i);
          assert multiset(ids[i..]) - multiset{ids[i]} == multiset(ids[i + 1..]);
          var _ := s.Unpin(ids[i]);
        }
        assert multiset(ids[|ids|..]) == multiset{};
        PinnedByNone(baseline);
      }
      ids := [];
    }

    /** Move construction and move assignment: what the owner held before is given back, and the
        other's pins change hands. Moving from itself does nothing. */
    method MoveFrom(other: AssetPins, ghost baseline: seq<AssetSlot>)
      requires Owns(baseline) && (store == null ==> ids == []) && forall id :: id in ids ==> Names(baseline, id)
      modifies this, other, store
      ensures other == this ==>
                store == old(store) && ids == old(ids) && (store != null ==> store.slots == old(store.slots))
      ensures other != this ==>
                && store == old(other.store) && ids == old(other.ids) && other.store == null && other.ids == []
                && (old(store) != null ==> old(store).Valid() && old(store).slots == baseline)
    {
      if other == this {
        return;
      }
      ReleaseAll(baseline);
      store, ids := other.store, other.ids;
      other.store, other.ids := null, [];
    }
  }

  // ---- Binding assets ---------------------------------------------------------------------------

  /** What BindRequiredAsset answers for one node. */
  function BindStatus(hasStore: bool, slots: seq<AssetSlot>, sampleRate: nat, node: AudioNode): Status {
    match node.requiredAsset
    case None => Ok
    case Some(id) =>
      if !hasStore then InvalidArgument
      else if sampleRate == 0 then NotOpen
      else if !NamesResident(slots, id) || slots[id.index].asset.None? then InvalidArgument
      else if slots[id.index].asset.value.channels != node.outputChannels then InvalidArgument
      else if slots[id.index].asset.value.sampleRate != sampleRate then InvalidArgument
      else Ok
  }

  /** The state a node's clone starts from. */
  function InitialState(slots: seq<AssetSlot>, node: AudioNode): NodeState {
    if node.requiredAsset.Some? && NamesResident(slots, node.requiredAsset.value) &&
       slots[node.requiredAsset.value.index].asset.Some?
    then node.bind(slots[node.requiredAsset.value.index].asset.value)
    else node.initial
  }

  /** A node without an asset starts as a clone does; one with an asset starts on that asset, which is
      resident under the id the node asks for. */
  ghost predicate StartsOn(slots: seq<AssetSlot>, node: AudioNode, state: NodeState) {
    match node.requiredAsset
    case None => state == node.initial
    case Some(id) =>
      NamesResident(slots, id) && slots[id.index].asset.Some? && state == node.bind(slots[id.index].asset.value)
  }

  lemma BoundStartsOn(hasStore: bool, slots: seq<AssetSlot>, sampleRate: nat, node: AudioNode)
    requires BindStatus(hasStore, slots, sampleRate, node) == Ok
    ensures StartsOn(slots, node, InitialState(slots, node))
  {
  }

  lemma OneStart(slots: seq<AssetSlot>, node: AudioNode, state: NodeState)
    requires StartsOn(slots, node, state)
    ensures state == InitialState(slots, node)
  {
  }

  /** When a node binds: if it asks for an asset, there is a store and a device rate, the asset is
      resident, and it has the node's channels and the device's rate. */
  lemma BindsExactly(hasStore: bool, slots: seq<AssetSlot>, sampleRate: nat, node: AudioNode)
    ensures node.requiredAsset.None? ==> BindStatus(hasStore, slots, sampleRate, node) == Ok
    ensures node.requiredAsset.Some? ==>
              var id := node.requiredAsset.value;
              && (BindStatus(hasStore, slots, sampleRate, node) == Ok <==>
                    && hasStore && sampleRate > 0 && NamesResident(slots, id) && slots[id.index].asset.Some?
                    && slots[id.index].asset.value.channels == node.outputChannels
                    && slots[id.index].asset.value.sampleRate == sampleRate)
              && (BindStatus(hasStore, slots, sampleRate, node) == NotOpen <==> hasStore && sampleRate == 0)
              && BindStatus(hasStore, slots, sampleRate, node) in {Ok, NotOpen, InvalidArgument}
  {
  }

  function RequiredAssets(g: Graph, order: seq<NodeId>): seq<AssetId>
    requires g.SlotsHoldNodes() && forall id :: id in order ==> g.IsValidNode(id)
  {
    if order == [] then []
    else
      var node := g.GetNode(order[|order| - 1]);
      RequiredAssets(g, order[..|order| - 1]) +
      if node.requiredAsset.Some? then [node.requiredAsset.value] else []
  }

  ghost predicate AllBind(g: Graph, hasStore: bool, slots: seq<AssetSlot>, sampleRate: nat, order: seq<NodeId>)
    requires g.SlotsHoldNodes() && forall id :: id in order ==> g.IsValidNode(id)
  {
    forall k :: 0 <= k < |order| ==> BindStatus(hasStore, slots, sampleRate, g.GetNode(order[k])) == Ok
  }

  ghost predicate OrderIsValid(g: Graph, order: seq<NodeId>) {
    g.SlotsHoldNodes() && forall id :: id in order ==> g.IsValidNode(id)
  }

  /** The first k nodes of the order are bound. */
  ghost predicate BoundSoFar(
    g: Graph, order: seq<NodeId>, k: nat, hasStore: bool, slots: seq<AssetSlot>, sampleRate: nat,
    states: seq<NodeState>, ids: seq<AssetId>)
    requires OrderIsValid(g, order)
  {
    && k <= |order| && |states| == k
    && AllBind(g, hasStore, slots, sampleRate, order[..k])
    && (forall j :: 0 <= j < k ==> states[j] == InitialState(slots, g.GetNode(order[j])))
    && ids == RequiredAssets(g, order[..k])
    && (forall id :: id in ids ==> Names(slots, id))
  }

  lemma BindNext(
    g: Graph, order: seq<NodeId>, k: nat, hasStore: bool, slots: seq<AssetSlot>, sampleRate: nat,
    states: seq<NodeState>, ids: seq<AssetId>, newIds: seq<AssetId>)
    requires OrderIsValid(g, order) && k < |order|
    requires BoundSoFar(g, order, k, hasStore, slots, sampleRate, states, ids)
    requires BindStatus(hasStore, slots, sampleRate, g.GetNode(order[k])) == Ok
    requires newIds ==
             ids + if g.GetNode(order[k]).requiredAsset.Some? then [g.GetNode(order[k]).requiredAsset.value] else []
    requires forall id :: id in newIds ==> Names(slots, id)
    ensures BoundSoFar(g, order, k + 1, hasStore, slots, sampleRate,
                       states + [InitialState(slots, g.GetNode(order[k]))], newIds)
  {
    hide BindStatus, InitialState;
    assert order[..k + 1][..k] == order[..k];
  }

  lemma BindStart(g: Graph, order: seq<NodeId>, hasStore: bool, slots: seq<AssetSlot>, sampleRate: nat)
    requires OrderIsValid(g, order)
    ensures BoundSoFar(g, order, 0, hasStore, slots, sampleRate, [], [])
  {
  }

  /** The verdict of binding a whole order: the first failure, if there is one. */
  ghost predicate BindVerdict(
    g: Graph, order: seq<NodeId>, hasStore: bool, slots: seq<AssetSlot>, sampleRate: nat, status: Status,
    states: seq<NodeState>, ids: seq<AssetId>)
    requires OrderIsValid(g, order)
  {
    if status == Ok then BoundSoFar(g, order, |order|, hasStore, slots, sampleRate, states, ids)
    else
      exists k :: 0 <= k < |order| && status == BindStatus(hasStore, slots, sampleRate, g.GetNode(order[k]))
                  && AllBind(g, hasStore, slots, sampleRate, order[..k])
  }

  /** Binds the assets of the plan's nodes in order, and stops at the first that fails, giving
      back the pins taken so far. */
  method BindAssets(g: Graph, order: seq<NodeId>, pins: AssetPins, sampleRate: nat, ghost slots: seq<AssetSlot>)
    returns (status: Status, states: seq<NodeState>)
    requires OrderIsValid(g, order)
    requires pins.ids == [] && pins.Owns(slots) && (pins.store == null ==> slots == [])
    modifies pins`ids, pins.store
    ensures pins.store == old(pins.store) && pins.Owns(slots) && (pins.store == null ==> pins.ids == [])
    ensures BindVerdict(g, order, pins.store != null, slots, sampleRate, status, states, pins.ids)
    ensures status == Ok ==>
              |states| == |order| && forall j :: 0 <= j < |order| ==> StartsOn(slots, g.GetNode(order[j]), states[j])
    ensures status != Ok ==> pins.ids == [] && (pins.store != null ==> pins.store.slots == slots)
  {
    hide PinnedBy, SlotsConsistent, KeysInverse, SumBytes, BindStatus, InitialState, BoundSoFar, AudioNode.WellBehaved;
    hide StartsOn;
    states := [];
    BindStart(g, order, pins.store != null, slots, sampleRate);
    for k := 0 to |order|
      invariant pins.store == old(pins.store) && pins.Owns(slots) && (pins.store == null ==> pins.ids == [])
      invariant forall id :: id in pins.ids ==> Names(slots, id)
      invariant BoundSoFar(g, order, k, pins.store != null, slots, sampleRate, states, pins.ids)
    {
      var node := g.GetNode(order[k]);
      var next: NodeState;
      ghost var ids := pins.ids;
      status, next := BindRequiredAsset(node, sampleRate, pins, slots);
      if status != Ok {
        BoundBindsAll(g, order, k, pins.store != null, slots, sampleRate, states, ids);
        pins.ReleaseAll(slots);
        return;
      }
      BindNext(g, order, k, pins.store != null, slots, sampleRate, states, ids, pins.ids);
      states := states + [next];
    }
    status := Ok;
    AllStartOn(g, order, pins.store != null, slots, sampleRate, states, pins.ids);
  }

  lemma AllStartOn(
    g: Graph, order: seq<NodeId>, hasStore: bool, slots: seq<AssetSlot>, sampleRate: nat, states: seq<NodeState>,
    ids: seq<AssetId>)
    requires OrderIsValid(g, order) && BoundSoFar(g, order, |order|, hasStore, slots, sampleRate, states, ids)
    ensures |states| == |order| && forall j :: 0 <= j < |order| ==> StartsOn(slots, g.GetNode(order[j]), states[j])
  {
    hide BindStatus, InitialState, StartsOn;
    assert order[..|order|] == order;
    forall j | 0 <= j < |order| ensures StartsOn(slots, g.GetNode(order[j]), states[j]) {
      BoundStartsOn(hasStore, slots, sampleRate, g.GetNode(order[j]));
    }
  }

  lemma BoundBindsAll(
    g: Graph, order: seq<NodeId>, k: nat, hasStore: bool, slots: seq<AssetSlot>, sampleRate: nat,
    states: seq<NodeState>, ids: seq<AssetId>)
    requires OrderIsValid(g, order) && BoundSoFar(g, order, k, hasStore, slots, sampleRate, states, ids)
    ensures k <= |order| && AllBind(g, hasStore, slots, sampleRate, order[..k])
  {
  }

  method BindRequiredAsset(node: AudioNode, sampleRate: nat, pins: AssetPins, ghost slots: seq<AssetSlot>)
    returns (status: Status, state: NodeState)
    requires pins.Owns(slots) && (pins.store == null ==> pins.ids == [] && slots == [])
    requires forall id :: id in pins.ids ==> Names(slots, id)
    modifies pins`ids, pins.store
    ensures pins.Owns(slots) && pins.store == old(pins.store) && (pins.store == null ==> pins.ids == [])
    ensures status == BindStatus(pins.store != null, slots, sampleRate, node)
    ensures status == Ok ==>
              && state == InitialState(slots, node) && StartsOn(slots, node, state)
              && pins.ids == old(pins.ids) + if node.requiredAsset.Some? then [node.requiredAsset.value] else []
    ensures forall id :: id in pins.ids ==> Names(slots, id)
  {
    state := node.initial;
    if node.requiredAsset.None? {
      return Ok, state;
    }
    if pins.store == null {
      return InvalidArgument, state;
    }
    if sampleRate == 0 {
      return NotOpen, state;
    }
    var asset := pins.Pin(node.requiredAsset.value, slots);
    if asset.None? {
      return InvalidArgument, state;
    }
    if asset.value.channels != node.outputChannels {
      return InvalidArgument, state;
    }
    if asset.value.sampleRate != sampleRate {
      return InvalidArgument, state;
    }
    return Ok, node.bind(asset.value);
  }

  // ---- Compile ----------------------------------------------------------------------------------

  /** Everything Compile asks of a graph with a valid output. */
  ghost predicate Compilable(g: Graph, nodes: set<NodeId>, hasStore: bool, slots: seq<AssetSlot>, sampleRate: nat)
    requires g.WellFormed() && g.AllValid(nodes)
  {
    && AllInputsConnected(g, nodes)
    && !g.HasCycle(nodes)
    && forall id :: id in nodes ==> BindStatus(hasStore, slots, sampleRate, g.GetNode(id)) == Ok
  }

  /** The plan object of a successful compilation. */
  ghost predicate IsPlanFor(
    g: Graph, nodes: set<NodeId>, slots: seq<AssetSlot>, maxFrames: nat, plan: GraphExecutionPlan)
    requires g.WellFormed() && g.AllValid(nodes)
    reads plan.states, plan.buffers
  {
    && plan.Valid()
    && Compiled(g, nodes, plan.order, plan.steps, plan.widths)
    && g.GreedyOrder(nodes, plan.order)
    && |plan.order| == |plan.steps| && plan.order[plan.last] == g.output
    && g.IsValidNode(g.output) && plan.outputChannels == g.GetNode(g.output).outputChannels
    && plan.maxFrames == maxFrames
    && plan.states.Length == |plan.steps|
    && (forall q :: 0 <= q < |plan.steps| ==> StartsOn(slots, plan.steps[q].node, plan.states[q]))
  }

  /** Compiles exactly the graphs whose output cone is complete, acyclic and has its assets; the
      plan holds one pin per asset node, and a failure leaves the store as it was. */
  method Compile(g: Graph, maxFrames: nat, store: ResourceStore?, sampleRate: nat)
    returns (r: Result<GraphExecutionPlan>, pins: AssetPins, ghost nodes: set<NodeId>)
    requires g.WellFormed() && (store != null ==> store.Valid())
    modifies if store == null then {} else {store}
    ensures store != null ==> store.Valid()
    ensures !g.IsValidNode(g.output) ==> r == Failure(InvalidArgument)
    ensures g.IsValidNode(g.output) ==> IsOutputCone(g, nodes) && g.AllValid(nodes)
    ensures g.IsValidNode(g.output) ==>
              var slots := if store == null then [] else old(store.slots);
              && (r.Success? <==> Compilable(g, nodes, store != null, slots, sampleRate))
              && (r.Success? ==>
                    && IsPlanFor(g, nodes, slots, maxFrames, r.value)
                    && OrderIsValid(g, r.value.order) && pins.ids == RequiredAssets(g, r.value.order))
    ensures r.Success? ==>
              var slots, plan := if store == null then [] else old(store.slots), r.value;
              && plan.states.Length == |plan.steps|
              && forall q :: 0 <= q < |plan.steps| ==> StartsOn(slots, plan.steps[q].node, plan.states[q])
    ensures r.Failure? ==> pins.ids == []
    ensures store != null ==> store.slots == PinnedBy(old(store.slots), multiset(pins.ids))
  {
    hide PinnedBy, SlotsConsistent, KeysInverse, SumBytes, BindStatus, InitialState, RequiredAssets;
    hide Graph.ConnectionFits, Graph.InputsDistinct, AudioNode.WellBehaved, Graph.GreedyOrder, Graph.HasCycle;
    hide Compiled, IsOutputCone, AllInputsConnected, IsAssignment, Compilable, IsPlanFor, BindVerdict, StartsOn;
    ghost var slots := if store == null then [] else store.slots;
    nodes := {};
    pins := new AssetPins(store);
    if store != null {
      PinnedByNone(slots);
    }
    if !g.IsValidNode(g.output) {
      return Failure(InvalidArgument), pins, nodes;
    }
    var reachable := Reachable(g);
    nodes := reachable;
    var connected := RequiredInputsConnected(g, reachable);
    if !connected {
      NotCompilable(g, nodes, store != null, slots, sampleRate);
      return Failure(InvalidArgument), pins, nodes;
    }
    var order := TopologicalSort(g, reachable);
    if |order| != |reachable| {
      NotCompilable(g, nodes, store != null, slots, sampleRate);
      return Failure(InvalidArgument), pins, nodes;
    }
    OrderIsValidFor(g, nodes, order);
    var status, states := BindAssets(g, order, pins, sampleRate, slots);
    VerdictDecides(g, nodes, order, store != null, slots, sampleRate, status, states, pins.ids);
    if status != Ok {
      return Failure(status), pins, nodes;
    }
    var steps, widths := AssignBuffers(g, reachable, order);
    var last := PositionIn(order, g.output);
    IsCompiled(g, nodes, order, steps, widths);
    PlanIsSound(g, nodes, order, steps, widths, last);
    var plan := new GraphExecutionPlan(
      steps, order, widths, states, steps[last].output, g.GetNode(g.output).outputChannels, maxFrames, last);
    PlanIsFor(g, nodes, slots, maxFrames, plan, states);
    return Success(plan), pins, nodes;
  }

  method PositionIn(order: seq<NodeId>, id: NodeId) returns (k: nat)
    requires id in order
    ensures k < |order| && order[k] == id
  {
    k := 0;
    while order[k] != id
      invariant k < |order| && id in order[k..]
      decreases |order| - k
    {
      k := k + 1;
    }
  }

  lemma NotCompilable(g: Graph, nodes: set<NodeId>, hasStore: bool, slots: seq<AssetSlot>, sampleRate: nat)
    requires g.WellFormed() && g.AllValid(nodes)
    requires !AllInputsConnected(g, nodes) || g.HasCycle(nodes)
    ensures !Compilable(g, nodes, hasStore, slots, sampleRate)
  {
  }

  lemma OrderIsValidFor(g: Graph, nodes: set<NodeId>, order: seq<NodeId>)
    requires g.WellFormed() && g.AllValid(nodes) && g.TopologicalOrder(nodes, order) && g.output in nodes
    ensures OrderIsValid(g, order) && g.output in order
  {
    assert g.output in Elements(order);
    forall id | id in order ensures g.IsValidNode(id) {
      assert id in Elements(order);
    }
  }

  lemma VerdictDecides(
    g: Graph, nodes: set<NodeId>, order: seq<NodeId>, hasStore: bool, slots: seq<AssetSlot>, sampleRate: nat,
    status: Status, states: seq<NodeState>, ids: seq<AssetId>)
    requires g.WellFormed() && g.AllValid(nodes) && g.TopologicalOrder(nodes, order) && OrderIsValid(g, order)
    requires AllInputsConnected(g, nodes) && !g.HasCycle(nodes)
    requires BindVerdict(g, order, hasStore, slots, sampleRate, status, states, ids)
    ensures status == Ok <==> Compilable(g, nodes, hasStore, slots, sampleRate)
    ensures status == Ok ==>
              && |states| == |order| && ids == RequiredAssets(g, order)
  {
    hide BindStatus, InitialState, Graph.HasCycle, AllInputsConnected, Graph.ConnectionFits, Graph.InputsDistinct;
    assert order[..|order|] == order;
    if status == Ok {
      forall id | id in nodes ensures BindStatus(hasStore, slots, sampleRate, g.GetNode(id)) == Ok {
        assert id in Elements(order);
      }
    } else {
      var k :| 0 <= k < |order| && status == BindStatus(hasStore, slots, sampleRate, g.GetNode(order[k]));
      assert order[k] in Elements(order);
    }
  }

  /** Every buffer index a step uses exists, and the output buffer survives the run. */
  lemma PlanIsSound(
    g: Graph, nodes: set<NodeId>, order: seq<NodeId>, steps: seq<Step>, widths: seq<nat>, last: nat)
    requires Compiled(g, nodes, order, steps, widths)
    requires last < |order| && order[last] == g.output && g.IsValidNode(g.output)
    ensures |steps| == |order|
    ensures forall q :: 0 <= q < |steps| ==> StepIndexed(steps[q], |widths|)
    ensures Untouched(steps, last, |steps|) && steps[last].node == g.GetNode(g.output)
  {
    hide SlotsMatchPeak, WidthsFromFirstUsers, Graph.InputsDistinct, NeverClobbered, IsOutputCone, AllInputsConnected;
    OrderValid(g, nodes, order);
    forall q | 0 <= q < |steps| ensures StepIndexed(steps[q], |widths|) {
      assert StepFits(g, order, steps, q) && BufferFits(widths, steps[q]);
      forall n | 0 <= n < |steps[q].inputs| ensures steps[q].inputs[n] < |widths| {
        var p := DrivingStep(g, nodes, order, steps, widths, q, n);
        assert BufferFits(widths, steps[p]);
      }
    }
    assert StepFits(g, order, steps, last);
    forall r | last < r < |steps| ensures steps[r].output != steps[last].output {
      assert OutputsOf(steps)[r] != OutputsOf(steps)[last];
    }
  }

  lemma IsCompiled(g: Graph, nodes: set<NodeId>, order: seq<NodeId>, steps: seq<Step>, widths: seq<nat>)
    requires Prepared(g, nodes, order) && IsOutputCone(g, nodes) && g.output in nodes && AllInputsConnected(g, nodes)
    requires IsAssignment(g, nodes, order, steps, widths)
    ensures Compiled(g, nodes, order, steps, widths) && |steps| == |order|
  {
  }

  lemma PlanIsFor(
    g: Graph, nodes: set<NodeId>, slots: seq<AssetSlot>, maxFrames: nat, plan: GraphExecutionPlan, states: seq<NodeState>)
    requires plan.Valid() && Compiled(g, nodes, plan.order, plan.steps, plan.widths)
    requires g.WellFormed() && g.AllValid(nodes) && g.GreedyOrder(nodes, plan.order)
    requires plan.last < |plan.order| == |plan.steps| && plan.order[plan.last] == g.output
    requires g.IsValidNode(g.output) && plan.outputChannels == g.GetNode(g.output).outputChannels
    requires plan.maxFrames == maxFrames && plan.states[..] == states && |states| == |plan.order|
    requires forall j :: 0 <= j < |plan.order| ==>
               g.IsValidNode(plan.order[j]) && StartsOn(slots, g.GetNode(plan.order[j]), states[j])
    ensures IsPlanFor(g, nodes, slots, maxFrames, plan)
    ensures forall q :: 0 <= q < |plan.steps| ==> StartsOn(slots, plan.steps[q].node, plan.states[q])
  {
    hide StartsOn, Graph.GreedyOrder, Shaped, StepIndexed, Graph.ConnectionFits, Graph.InputsDistinct;
    forall q | 0 <= q < |plan.steps|
      ensures StartsOn(slots, plan.steps[q].node, plan.states[q])
    {
      assert StepFits(g, plan.order, plan.steps, q);
      assert plan.states[q] == states[q];
    }
  }

  // ---- What a compiled plan computes, and with how little ---------------------------------------

  ghost function InitialStates(g: Graph, nodes: set<NodeId>, slots: seq<AssetSlot>): States
    requires g.WellFormed() && g.AllValid(nodes)
  {
    map id | id in nodes :: InitialState(slots, g.GetNode(id))
  }

  /** A freshly compiled plan of a graph with uniform widths, run over any sequence of blocks it has
      room for, hands its nodes only views of the widths they declare, and yields exactly the blocks
      and states of the graph's recursive meaning, from the clones' initial states. */
  lemma PlanMeansGraph(
    g: Graph, nodes: set<NodeId>, slots: seq<AssetSlot>, maxFrames: nat, plan: GraphExecutionPlan,
    contexts: seq<ProcessContext>, depth: nat)
    requires g.WellFormed() && g.AllValid(nodes) && g.output in nodes && IsPlanFor(g, nodes, slots, maxFrames, plan)
    requires UniformWidths(g, nodes)
    requires forall i :: 0 <= i < |contexts| ==> contexts[i].frameCount <= maxFrames
    requires depth >= |plan.order|
    ensures plan.Exact() && plan.outputBuffer < plan.buffers.Length
    ensures
      var (finalStates, blocks) :=
        RunBlocks(plan.steps, plan.states[..], plan.buffers[..], plan.widths, maxFrames, contexts, plan.outputBuffer);
      var meaning := Meaning(g, nodes, InitialStates(g, nodes, slots), contexts, depth);
      meaning.Some? && meaning.value.1 == blocks && StatesMatch(plan.order, finalStates, meaning.value.0)
  {
    hide Meaning, RunBlocks, InitialState, Graph.GreedyOrder, Graph.ConnectionFits, Graph.InputsDistinct;
    hide Shaped, AllRunnable, AliasFree, SlotsMatchPeak, WidthsFromFirstUsers, UniformWidths;
    UniformStepsRun(g, nodes, plan.order, plan.steps, plan.widths);
    SizesAgree(g, nodes, plan.order, plan.steps, plan.widths);
    forall q | 0 <= q < |plan.order|
      ensures plan.states[..][q] == InitialStates(g, nodes, slots)[plan.order[q]]
    {
      assert StepFits(g, plan.order, plan.steps, q);
      OneStart(slots, plan.steps[q].node, plan.states[q]);
    }
    PlanComputesMeaning(g, nodes, plan.order, plan.steps, plan.widths, InitialStates(g, nodes, slots),
                        plan.states[..], plan.buffers[..], maxFrames, contexts, plan.last, depth);
  }

  /** No alias-free assignment of buffers to the same order gets by with fewer mono or fewer
      stereo buffers. */
  lemma PlanUsesFewestBuffers(
    g: Graph, nodes: set<NodeId>, order: seq<NodeId>, steps: seq<Step>, widths: seq<nat>,
    outputs: seq<nat>, mono: bool)
    requires Compiled(g, nodes, order, steps, widths) && AliasFree(g, order, outputs)
    ensures forall id :: id in order ==> g.IsValidNode(id)
    ensures |SlotsOfWidth(widths, mono)| <= |UsedByWidth(g, order, outputs, mono)|
  {
    hide Graph.ConnectionFits, Graph.InputsDistinct, NeverClobbered, KeptToTheEnd, StepFits, BufferFits, Peak;
    PeakIsLowerBound(g, nodes, order, outputs, mono);
    assert mono == true || mono == false;
  }
}
