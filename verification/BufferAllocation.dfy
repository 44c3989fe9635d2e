/** The second half of GraphCompiler::Compile (src/lavanda/graph/graph_compiler.cc:182-297): every
    step gets an output buffer from liveness-driven free lists. */
module BufferAllocation {
  import opened Prelude
  import opened Signals
  import opened GraphModel
  import opened GraphAnalysis

  datatype Step = Step(node: AudioNode, inputs: seq<nat>, output: nat)

  /** slot_info, free_mono_slots and free_stereo_slots. */
  datatype Allocation = Allocation(widths: seq<nat>, freeMono: seq<nat>, freeStereo: seq<nat>)

  predicate Mono(channels: nat) {
    channels <= 1
  }

  function AllocateSlot(a: Allocation, channels: nat): (Allocation, nat) {
    if Mono(channels) && a.freeMono != [] then
      (a.(freeMono := a.freeMono[..|a.freeMono| - 1]), a.freeMono[|a.freeMono| - 1])
    else if !Mono(channels) && a.freeStereo != [] then
      (a.(freeStereo := a.freeStereo[..|a.freeStereo| - 1]), a.freeStereo[|a.freeStereo| - 1])
    else
      (a.(widths := a.widths + [channels]), |a.widths|)
  }

  function ReleaseSlot(a: Allocation, slot: nat): Allocation
    requires slot < |a.widths|
  {
    if Mono(a.widths[slot]) then a.(freeMono := a.freeMono + [slot]) else a.(freeStereo := a.freeStereo + [slot])
  }

  function OutputsOf(steps: seq<Step>): seq<nat> {
    seq(|steps|, i requires 0 <= i < |steps| => steps[i].output)
  }

  // ---- What the plan has to guarantee -----------------------------------------------------------

  /** No step between a node and its consumer, the consumer included, writes the node's buffer. */
  ghost predicate NeverClobbered(g: Graph, order: seq<NodeId>, outputs: seq<nat>)
    requires |outputs| <= |order|
  {
    forall p, r, q :: 0 <= p < r <= q < |outputs| && g.Feeds(order[p], order[q]) ==> outputs[r] != outputs[p]
  }

  /** No step after the node writes its buffer. */
  ghost predicate KeptToTheEnd(order: seq<NodeId>, outputs: seq<nat>, id: NodeId)
    requires |outputs| <= |order|
  {
    forall p, r :: 0 <= p < r < |outputs| && order[p] == id ==> outputs[r] != outputs[p]
  }

  /** A choice of output buffers under which every consumer finds its inputs intact and the
      output node's block survives the run. */
  ghost predicate AliasFree(g: Graph, order: seq<NodeId>, outputs: seq<nat>) {
    && |outputs| == |order|
    && NeverClobbered(g, order, outputs)
    && KeptToTheEnd(order, outputs, g.output)
  }

  /** The step's inputs are the buffers its sources write. */
  ghost predicate InputsWired(g: Graph, id: NodeId, inputs: seq<nat>, slotOf: map<NodeId, nat>)
    requires g.WellFormed() && g.IsValidNode(id)
  {
    && |inputs| == g.GetNode(id).expectedInputs
    && forall i :: 0 <= i < |g.connections| && g.connections[i].destination == id ==>
         && g.connections[i].input < |inputs|
         && g.connections[i].source in slotOf
         && inputs[g.connections[i].input] == slotOf[g.connections[i].source]
  }

  // ---- Liveness -------------------------------------------------------------------------------

  /** A node that ran holds its buffer while a consumer is still to run, or for good if it has no
      consumer at all. */
  ghost predicate HoldsBuffer(g: Graph, nodes: set<NodeId>, id: NodeId, remaining: nat) {
    remaining > 0 || Count(g.connections, {id}, nodes) == 0
  }

  ghost function Live(g: Graph, nodes: set<NodeId>, ran: set<NodeId>, remaining: map<NodeId, nat>): set<NodeId>
    requires ran <= remaining.Keys
  {
    set id | id in ran && HoldsBuffer(g, nodes, id, remaining[id])
  }

  ghost predicate RemainingCount(
    g: Graph, nodes: set<NodeId>, left: set<NodeId>, remaining: map<NodeId, nat>)
  {
    && remaining.Keys == nodes
    && forall s :: s in nodes ==> remaining[s] == Count(g.connections, {s}, left)
  }

  /** Every slot has one owner: a free list entry or a live node of its width class. */
  ghost predicate SlotsOwned(g: Graph, a: Allocation, live: set<NodeId>, slotOf: map<NodeId, nat>)
    requires g.WellFormed() && g.AllValid(live)
  {
    && live <= slotOf.Keys
    && FreeListsSound(a)
    && (forall id :: id in live ==>
          && slotOf[id] < |a.widths|
          && slotOf[id] !in a.freeMono && slotOf[id] !in a.freeStereo
          && Mono(a.widths[slotOf[id]]) == Mono(g.GetNode(id).outputChannels))
    && (forall x, y :: x in live && y in live && x != y ==> slotOf[x] != slotOf[y])
    && (forall slot :: 0 <= slot < |a.widths| ==>
          slot in a.freeMono || slot in a.freeStereo || HeldByLive(slot, live, slotOf))
  }

  ghost predicate HeldByLive(slot: nat, live: set<NodeId>, slotOf: map<NodeId, nat>)
    requires live <= slotOf.Keys
  {
    exists id :: id in live && slotOf[id] == slot
  }

  ghost predicate FreeListsSound(a: Allocation) {
    && Distinct(a.freeMono) && Distinct(a.freeStereo)
    && (forall slot :: slot in a.freeMono ==> slot < |a.widths| && Mono(a.widths[slot]))
    && (forall slot :: slot in a.freeStereo ==> slot < |a.widths| && !Mono(a.widths[slot]))
  }

  lemma PopKeepsDistinct(s: seq<nat>)
    requires Distinct(s) && s != []
    ensures Distinct(s[..|s| - 1]) && s[|s| - 1] !in s[..|s| - 1]
    ensures forall x :: x in s[..|s| - 1] <==> x in s && x != s[|s| - 1]
  {
    assert s == s[..|s| - 1] + [s[|s| - 1]];
  }

  lemma SlotFitsWidth(g: Graph, a: Allocation, live: set<NodeId>, slotOf: map<NodeId, nat>, channels: nat)
    requires g.WellFormed() && g.AllValid(live) && SlotsOwned(g, a, live, slotOf)
    ensures
      var (after, slot) := AllocateSlot(a, channels);
      && |a.widths| <= |after.widths| && after.widths[..|a.widths|] == a.widths
      && slot < |after.widths| && Mono(after.widths[slot]) == Mono(channels)
  {
    if Mono(channels) && a.freeMono != [] {
      assert a.freeMono[|a.freeMono| - 1] in a.freeMono;
    } else if !Mono(channels) && a.freeStereo != [] {
      assert a.freeStereo[|a.freeStereo| - 1] in a.freeStereo;
    }
  }

  lemma LiveSlotExists(g: Graph, a: Allocation, live: set<NodeId>, slotOf: map<NodeId, nat>, id: NodeId)
    requires g.WellFormed() && g.AllValid(live) && SlotsOwned(g, a, live, slotOf) && id in live
    ensures slotOf[id] < |a.widths|
  {
  }

  /** Allocation hands out a slot no live node holds, and one of the right width class. */
  lemma AllocationIsFresh(
    g: Graph, a: Allocation, live: set<NodeId>, slotOf: map<NodeId, nat>, id: NodeId)
    requires g.WellFormed() && g.AllValid(live) && g.IsValidNode(id) && id !in live
    requires SlotsOwned(g, a, live, slotOf)
    ensures
      var (after, slot) := AllocateSlot(a, g.GetNode(id).outputChannels);
      && SlotsOwned(g, after, live + {id}, slotOf[id := slot])
      && (forall other :: other in live ==> slotOf[other] != slot)
      && |a.widths| <= |after.widths| && after.widths[..|a.widths|] == a.widths
      && slot < |after.widths| && Mono(after.widths[slot]) == Mono(g.GetNode(id).outputChannels)
  {
    hide Graph.ConnectionFits, Graph.InputsDistinct, AudioNode.WellBehaved;
    var channels := g.GetNode(id).outputChannels;
    var (after, slot) := AllocateSlot(a, channels);
    if Mono(channels) && a.freeMono != [] {
      PopKeepsDistinct(a.freeMono);
      assert slot in a.freeMono;
    } else if !Mono(channels) && a.freeStereo != [] {
      PopKeepsDistinct(a.freeStereo);
      assert slot in a.freeStereo;
    }
    assert forall x :: 0 <= x < |a.widths| ==> after.widths[x] == a.widths[x];
    forall x | x in after.freeMono ensures x < |after.widths| && Mono(after.widths[x]) {
      assert x in a.freeMono;
    }
    forall x | x in after.freeStereo ensures x < |after.widths| && !Mono(after.widths[x]) {
      assert x in a.freeStereo;
    }
    assert FreeListsSound(after);
    assert slot < |after.widths| && slot !in after.freeMono && slot !in after.freeStereo;
    assert Mono(after.widths[slot]) == Mono(channels);
    forall other | other in live ensures slotOf[other] != slot {
    }
    forall x | 0 <= x < |after.widths|
      ensures x in after.freeMono || x in after.freeStereo || HeldByLive(x, live + {id}, slotOf[id := slot])
    {
      if x == slot {
        assert slotOf[id := slot][id] == x;
      } else if HeldByLive(x, live, slotOf) {
        var owner :| owner in live && slotOf[owner] == x;
        assert slotOf[id := slot][owner] == x;
      }
    }
  }

  /** Releasing the slot of a node that stops being live keeps one owner per slot. */
  lemma ReleaseKeepsOwners(
    g: Graph, a: Allocation, live: set<NodeId>, slotOf: map<NodeId, nat>, id: NodeId)
    requires g.WellFormed() && g.AllValid(live) && id in live
    requires SlotsOwned(g, a, live, slotOf)
    ensures SlotsOwned(g, ReleaseSlot(a, slotOf[id]), live - {id}, slotOf)
    ensures ReleaseSlot(a, slotOf[id]).widths == a.widths
  {
    hide Graph.ConnectionFits, Graph.InputsDistinct, AudioNode.WellBehaved;
    var after := ReleaseSlot(a, slotOf[id]);
    forall x | 0 <= x < |after.widths|
      ensures x in after.freeMono || x in after.freeStereo || HeldByLive(x, live - {id}, slotOf)
    {
      if x != slotOf[id] && HeldByLive(x, live, slotOf) {
        var owner :| owner in live && slotOf[owner] == x;
        assert owner in live - {id};
      }
    }
  }

  // ---- One iteration of the allocation loop -----------------------------------------------------

  method WireInputs(g: Graph, id: NodeId, slotOf: map<NodeId, nat>) returns (inputs: seq<nat>)
    requires g.WellFormed() && g.IsValidNode(id)
    requires forall a :: g.Feeds(a, id) ==> a in slotOf
    ensures InputsWired(g, id, inputs, slotOf)
  {
    inputs := seq(g.GetNode(id).expectedInputs, i => 0);
    for i := 0 to |g.connections|
      invariant |inputs| == g.GetNode(id).expectedInputs
      invariant forall j :: 0 <= j < i && g.connections[j].destination == id ==>
                  && g.connections[j].input < |inputs|
                  && g.connections[j].source in slotOf
                  && inputs[g.connections[j].input] == slotOf[g.connections[j].source]
    {
      var c := g.connections[i];
      assert g.ConnectionFits(c);
      if c.destination == id {
        assert g.Feeds(c.source, id);
        inputs := inputs[c.input := slotOf[c.source]];
      }
    }
  }

  /** Partway through the release loop of node id. */
  ghost predicate ReleasedSoFar(
    g: Graph, nodes: set<NodeId>, left: set<NodeId>, id: NodeId, n: nat, remaining: map<NodeId, nat>)
    requires n <= |g.connections|
  {
    && remaining.Keys == nodes
    && forall s :: s in nodes ==>
         remaining[s] + Count(g.connections[..n], {s}, {id}) == Count(g.connections, {s}, left)
  }

  lemma ReleaseNext(
    g: Graph, nodes: set<NodeId>, left: set<NodeId>, id: NodeId, n: nat, remaining: map<NodeId, nat>)
    requires n < |g.connections| && id in left && left <= nodes
    requires ReleasedSoFar(g, nodes, left, id, n, remaining)
    requires g.connections[n].source in nodes
    ensures g.connections[n].destination != id ==> ReleasedSoFar(g, nodes, left, id, n + 1, remaining)
    ensures g.connections[n].destination == id ==>
              && remaining[g.connections[n].source] > 0
              && ReleasedSoFar(g, nodes, left, id, n + 1,
                               remaining[g.connections[n].source := remaining[g.connections[n].source] - 1])
              && Count(g.connections, {g.connections[n].source}, nodes) > 0
  {
    hide Graph.ConnectionFits, Graph.InputsDistinct, AudioNode.WellBehaved;
    var cs := g.connections;
    var source := cs[n].source;
    forall s | s in nodes
      ensures Count(cs[..n + 1], {s}, {id}) ==
              Count(cs[..n], {s}, {id}) + if source == s && cs[n].destination == id then 1 else 0
    {
      CountNext(cs, n, {s}, {id});
    }
    if cs[n].destination == id {
      CountPrefix(cs, n + 1, {source}, {id});
      assert left == (left - {id}) + {id} && nodes == (nodes - left) + left;
      CountSplitsDestinations(cs, {source}, left - {id}, {id});
      CountSplitsDestinations(cs, {source}, nodes - left, left);
    }
  }

  lemma {:induction false} CountPrefix(cs: seq<Connection>, n: nat, s: set<NodeId>, d: set<NodeId>)
    requires n <= |cs|
    ensures Count(cs[..n], s, d) <= Count(cs, s, d)
  {
    if n < |cs| {
      CountPrefix(cs[..|cs| - 1], n, s, d);
      assert cs[..|cs| - 1][..n] == cs[..n];
    } else {
      assert cs[..n] == cs;
    }
  }

  /** One connection into id: its source has one consumer less, and gives its slot back if that
      was the last. */
  lemma ServeConsumer(
    g: Graph, nodes: set<NodeId>, left: set<NodeId>, id: NodeId, n: nat, slotOf: map<NodeId, nat>,
    a: Allocation, remaining: map<NodeId, nat>)
    requires g.WellFormed() && g.AllValid(nodes)
    requires n < |g.connections| && g.connections[n].destination == id && g.connections[n].source in slotOf
    requires id in left && left <= nodes && slotOf.Keys <= nodes
    requires ReleasedSoFar(g, nodes, left, id, n, remaining)
    requires SlotsOwned(g, a, Live(g, nodes, slotOf.Keys, remaining), slotOf)
    ensures
      var source := g.connections[n].source;
      && remaining[source] > 0
      && slotOf[source] < |a.widths|
      && var after := remaining[source := remaining[source] - 1];
      && ReleasedSoFar(g, nodes, left, id, n + 1, after)
      && var allocation := if after[source] == 0 then ReleaseSlot(a, slotOf[source]) else a;
      && allocation.widths == a.widths
      && SlotsOwned(g, allocation, Live(g, nodes, slotOf.Keys, after), slotOf)
  {
    hide SlotsOwned, Graph.ConnectionFits, Graph.InputsDistinct, AudioNode.WellBehaved;
    var source := g.connections[n].source;
    ReleaseNext(g, nodes, left, id, n, remaining);
    var live := Live(g, nodes, slotOf.Keys, remaining);
    assert source in live;
    LiveSlotExists(g, a, live, slotOf, source);
    var after := remaining[source := remaining[source] - 1];
    if after[source] == 0 {
      ReleaseKeepsOwners(g, a, live, slotOf, source);
      assert Live(g, nodes, slotOf.Keys, after) == live - {source};
    } else {
      assert Live(g, nodes, slotOf.Keys, after) == live;
    }
  }

  ghost predicate ReadyToRelease(
    g: Graph, nodes: set<NodeId>, left: set<NodeId>, id: NodeId, slotOf: map<NodeId, nat>,
    a: Allocation, remaining: map<NodeId, nat>)
    requires g.WellFormed() && g.AllValid(nodes)
  {
    && id in left && left <= nodes && slotOf.Keys == (nodes - left) + {id}
    && RemainingCount(g, nodes, left, remaining)
    && (forall s :: g.Feeds(s, id) ==> s in slotOf)
    && SlotsOwned(g, a, Live(g, nodes, slotOf.Keys, remaining), slotOf)
  }

  /** The second loop over the connections: each source that has served its last consumer gives
      its slot back, once. */
  method ReleaseInputs(
    g: Graph, nodes: set<NodeId>, ghost left: set<NodeId>, id: NodeId, slotOf: map<NodeId, nat>,
    before: Allocation, remainingBefore: map<NodeId, nat>)
    returns (a: Allocation, remaining: map<NodeId, nat>)
    requires g.WellFormed() && g.AllValid(nodes)
    requires ReadyToRelease(g, nodes, left, id, slotOf, before, remainingBefore)
    ensures RemainingCount(g, nodes, left - {id}, remaining)
    ensures SlotsOwned(g, a, Live(g, nodes, slotOf.Keys, remaining), slotOf)
    ensures a.widths == before.widths
  {
    hide SlotsOwned, Graph.ConnectionFits, Graph.InputsDistinct, AudioNode.WellBehaved;
    a, remaining := before, remainingBefore;
    for j := 0 to |g.connections|
      invariant ReleasedSoFar(g, nodes, left, id, j, remaining)
      invariant SlotsOwned(g, a, Live(g, nodes, slotOf.Keys, remaining), slotOf)
      invariant a.widths == before.widths
    {
      var c := g.connections[j];
      if c.destination == id {
        assert g.Feeds(c.source, id);
        ServeConsumer(g, nodes, left, id, j, slotOf, a, remaining);
        remaining := remaining[c.source := remaining[c.source] - 1];
        if remaining[c.source] == 0 {
          a := ReleaseSlot(a, slotOf[c.source]);
        }
      } else {
        SkipKeepsReleased(g, nodes, left, id, j, remaining);
      }
    }
    ReleasedAll(g, nodes, left, id, remaining);
  }

  lemma SkipKeepsReleased(
    g: Graph, nodes: set<NodeId>, left: set<NodeId>, id: NodeId, n: nat, remaining: map<NodeId, nat>)
    requires n < |g.connections| && g.connections[n].destination != id
    requires ReleasedSoFar(g, nodes, left, id, n, remaining)
    ensures ReleasedSoFar(g, nodes, left, id, n + 1, remaining)
  {
    forall s | s in nodes ensures Count(g.connections[..n + 1], {s}, {id}) == Count(g.connections[..n], {s}, {id}) {
      CountNext(g.connections, n, {s}, {id});
    }
  }

  lemma ReleasedAll(
    g: Graph, nodes: set<NodeId>, left: set<NodeId>, id: NodeId, remaining: map<NodeId, nat>)
    requires id in left && ReleasedSoFar(g, nodes, left, id, |g.connections|, remaining)
    ensures RemainingCount(g, nodes, left - {id}, remaining)
  {
    var cs := g.connections;
    assert cs[..|cs|] == cs && left == (left - {id}) + {id};
    forall s | s in nodes ensures remaining[s] == Count(cs, {s}, left - {id}) {
      CountSplitsDestinations(cs, {s}, left - {id}, {id});
    }
  }
}
