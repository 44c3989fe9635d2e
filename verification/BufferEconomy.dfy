/** How many buffers a plan needs: the peak number of blocks alive at the same time. */
module BufferEconomy {
  import opened Prelude
  import opened Signals
  import opened GraphModel
  import opened GraphAnalysis
  import opened BufferAllocation

  /** The nodes whose blocks must exist at the moment step k writes its output: its own, and every
      earlier one that still has a consumer to serve or has none at all. */
  ghost function LiveDuring(g: Graph, nodes: set<NodeId>, order: seq<NodeId>, k: nat): set<NodeId>
    requires k < |order|
  {
    var left := nodes - Elements(order[..k]);
    {order[k]} +
    set id | id in Elements(order[..k]) && HoldsBuffer(g, nodes, id, Count(g.connections, {id}, left))
  }

  ghost function OfWidth(g: Graph, ids: set<NodeId>, mono: bool): set<NodeId>
    requires g.WellFormed() && g.AllValid(ids)
  {
    set id | id in ids && Mono(g.GetNode(id).outputChannels) == mono
  }

  ghost function SlotsOfWidth(widths: seq<nat>, mono: bool): set<nat> {
    set slot | 0 <= slot < |widths| && Mono(widths[slot]) == mono
  }

  lemma LiveDuringValid(g: Graph, nodes: set<NodeId>, order: seq<NodeId>, k: nat)
    requires g.AllValid(nodes) && Elements(order) == nodes && k < |order|
    ensures LiveDuring(g, nodes, order, k) <= nodes && g.AllValid(LiveDuring(g, nodes, order, k))
  {
    assert order[k] in Elements(order);
    forall id | id in Elements(order[..k]) ensures id in nodes {
      assert id in order;
    }
  }

  /** The largest number of blocks of one width alive during any of the first k steps. */
  ghost function Peak(g: Graph, nodes: set<NodeId>, order: seq<NodeId>, k: nat, mono: bool): nat
    requires g.WellFormed() && g.AllValid(nodes) && Elements(order) == nodes && k <= |order|
  {
    if k == 0 then 0
    else
      LiveDuringValid(g, nodes, order, k - 1);
      Max(Peak(g, nodes, order, k - 1, mono), |OfWidth(g, LiveDuring(g, nodes, order, k - 1), mono)|)
  }

  ghost function Image(ids: set<NodeId>, f: map<NodeId, nat>): set<nat>
    requires ids <= f.Keys
  {
    set id | id in ids :: f[id]
  }

  ghost predicate InjectiveOn(ids: set<NodeId>, f: map<NodeId, nat>)
    requires ids <= f.Keys
  {
    forall x, y :: x in ids && y in ids && x != y ==> f[x] != f[y]
  }

  lemma {:induction false} InjectiveImageSize(ids: set<NodeId>, f: map<NodeId, nat>)
    requires ids <= f.Keys && InjectiveOn(ids, f)
    ensures |Image(ids, f)| == |ids|
    decreases ids
  {
    if ids != {} {
      var id :| id in ids;
      InjectiveImageSize(ids - {id}, f);
      assert Image(ids, f) == Image(ids - {id}, f) + {f[id]};
      assert f[id] !in Image(ids - {id}, f);
    } else {
      assert Image(ids, f) == {};
    }
  }

  /** Live blocks of a width never outnumber the slots of that width, and fill them all when the
      free list of that width is empty. */
  lemma LiveFillSlots(
    g: Graph, a: Allocation, live: set<NodeId>, slotOf: map<NodeId, nat>, mono: bool)
    requires g.WellFormed() && g.AllValid(live) && SlotsOwned(g, a, live, slotOf)
    ensures |OfWidth(g, live, mono)| <= |SlotsOfWidth(a.widths, mono)|
    ensures (if mono then a.freeMono else a.freeStereo) == [] ==>
              |OfWidth(g, live, mono)| == |SlotsOfWidth(a.widths, mono)|
  {
    var ids := OfWidth(g, live, mono);
    InjectiveImageSize(ids, slotOf);
    var slots := SlotsOfWidth(a.widths, mono);
    SubsetCardinality(Image(ids, slotOf), slots);
    if (if mono then a.freeMono else a.freeStereo) == [] {
      forall slot | slot in slots ensures slot in Image(ids, slotOf) {
        assert HeldByLive(slot, live, slotOf);
        var id :| id in live && slotOf[id] == slot;
        assert id in ids;
      }
      assert Image(ids, slotOf) == slots;
    }
  }

  /** A slot is added only when the free list of its width is empty, and stays the only change. */
  lemma AllocationGrowth(a: Allocation, channels: nat, mono: bool)
    ensures
      var (after, slot) := AllocateSlot(a, channels);
      || |SlotsOfWidth(after.widths, mono)| == |SlotsOfWidth(a.widths, mono)|
      || (&& |SlotsOfWidth(after.widths, mono)| == |SlotsOfWidth(a.widths, mono)| + 1
          && (if mono then after.freeMono else after.freeStereo) == [])
  {
    var (after, slot) := AllocateSlot(a, channels);
    if after.widths != a.widths {
      if Mono(channels) == mono {
        assert SlotsOfWidth(after.widths, mono) == SlotsOfWidth(a.widths, mono) + {slot};
      } else {
        assert SlotsOfWidth(after.widths, mono) == SlotsOfWidth(a.widths, mono);
      }
    }
  }

  /** The number of slots of a width is the peak so far. */
  ghost predicate SlotsMatchPeak(
    g: Graph, nodes: set<NodeId>, order: seq<NodeId>, k: nat, widths: seq<nat>)
    requires g.WellFormed() && g.AllValid(nodes) && Elements(order) == nodes && k <= |order|
  {
    && |SlotsOfWidth(widths, true)| == Peak(g, nodes, order, k, true)
    && |SlotsOfWidth(widths, false)| == Peak(g, nodes, order, k, false)
  }

  lemma PeakStep(
    g: Graph, nodes: set<NodeId>, order: seq<NodeId>, k: nat, a: Allocation, slotOf: map<NodeId, nat>)
    requires g.WellFormed() && g.AllValid(nodes) && Elements(order) == nodes && k < |order|
    requires g.AllValid(LiveDuring(g, nodes, order, k)) && g.IsValidNode(order[k])
    requires SlotsMatchPeak(g, nodes, order, k, a.widths)
    requires
      var after := AllocateSlot(a, g.GetNode(order[k]).outputChannels).0;
      SlotsOwned(g, after, LiveDuring(g, nodes, order, k), slotOf)
    ensures SlotsMatchPeak(g, nodes, order, k + 1, AllocateSlot(a, g.GetNode(order[k]).outputChannels).0.widths)
  {
    var channels := g.GetNode(order[k]).outputChannels;
    var (after, slot) := AllocateSlot(a, channels);
    var live := LiveDuring(g, nodes, order, k);
    forall mono: bool ensures |SlotsOfWidth(after.widths, mono)| == Peak(g, nodes, order, k + 1, mono) {
      AllocationGrowth(a, channels, mono);
      LiveFillSlots(g, after, live, slotOf, mono);
      assert mono == true || mono == false;
    }
  }

  // ---- No plan can do with fewer --------------------------------------------------------------

  /** The buffers that nodes of one width write, under some assignment of buffers to steps. */
  ghost function UsedByWidth(g: Graph, order: seq<NodeId>, outputs: seq<nat>, mono: bool): set<nat>
    requires g.WellFormed() && |outputs| == |order| && forall id :: id in order ==> g.IsValidNode(id)
  {
    set k | 0 <= k < |order| && Mono(g.GetNode(order[k]).outputChannels) == mono :: outputs[k]
  }

  ghost function Assignment(order: seq<NodeId>, outputs: seq<nat>): map<NodeId, nat>
    requires |outputs| == |order| && Distinct(order)
  {
    map id | id in order :: outputs[PositionOf(order, id)]
  }

  ghost function PositionOf(order: seq<NodeId>, id: NodeId): (k: nat)
    requires id in order
    ensures k < |order| && order[k] == id
  {
    var k :| 0 <= k < |order| && order[k] == id;
    k
  }

  /** Two blocks alive during the same step cannot share a buffer, whatever the assignment. */
  lemma LiveBlocksNeedOwnBuffers(
    g: Graph, nodes: set<NodeId>, order: seq<NodeId>, outputs: seq<nat>, k: nat, i: nat, j: nat)
    requires g.TopologicalOrder(nodes, order) && g.ClosedUnderSources(nodes) && IsOutputCone(g, nodes)
    requires AliasFree(g, order, outputs)
    requires i < j <= k < |order|
    requires order[i] in LiveDuring(g, nodes, order, k)
    ensures outputs[i] != outputs[j]
  {
    var left := nodes - Elements(order[..k]);
    assert order[i] in Elements(order[..k]) by {
      assert order[..k][i] == order[i];
    }
    assert order[i] != order[k];
    if Count(g.connections, {order[i]}, left) > 0 {
      CountZero(g.connections, {order[i]}, left);
      var c :| 0 <= c < |g.connections| && g.connections[c].source == order[i] && g.connections[c].destination in left;
      var d := g.connections[c].destination;
      assert d in Elements(order);
      var q := PositionOf(order, d);
      assert g.Feeds(order[i], order[q]);
    } else {
      CountZero(g.connections, {order[i]}, nodes);
      ConsumerlessIsOutput(g, nodes, order[i]);
    }
  }

  /** In the output's cone only the output can have no consumer. */
  lemma ConsumerlessIsOutput(g: Graph, nodes: set<NodeId>, id: NodeId)
    requires IsOutputCone(g, nodes) && id in nodes && Count(g.connections, {id}, nodes) == 0
    ensures id == g.output
  {
    CountZero(g.connections, {id}, nodes);
    var p :| g.IsPathFromTo(p, id, g.output);
    if |p| > 1 {
      assert g.Feeds(p[0], p[0 + 1]);
      PathSlice(g, p, 1, |p|);
      assert g.IsPathFromTo(p[1..|p|], p[1], g.output);
    }
  }

  /** The blocks of one width alive during step k all sit in different buffers. */
  lemma LiveBlocksFitInUsed(
    g: Graph, nodes: set<NodeId>, order: seq<NodeId>, outputs: seq<nat>, k: nat, mono: bool)
    requires g.WellFormed() && g.AllValid(nodes) && IsOutputCone(g, nodes)
    requires g.TopologicalOrder(nodes, order) && g.ClosedUnderSources(nodes)
    requires AliasFree(g, order, outputs) && k < |order|
    requires forall id :: id in order ==> g.IsValidNode(id)
    requires g.AllValid(LiveDuring(g, nodes, order, k))
    ensures |OfWidth(g, LiveDuring(g, nodes, order, k), mono)| <= |UsedByWidth(g, order, outputs, mono)|
  {
    var live := LiveDuring(g, nodes, order, k);
    var ids := OfWidth(g, live, mono);
    var f := Assignment(order, outputs);
    forall id | id in live ensures id in order && PositionOf(order, id) <= k {
      LivePosition(g, nodes, order, k, id);
    }
    forall x, y | x in ids && y in ids && x != y ensures f[x] != f[y] {
      var i, j := PositionOf(order, x), PositionOf(order, y);
      if i < j {
        LiveBlocksNeedOwnBuffers(g, nodes, order, outputs, k, i, j);
      } else {
        LiveBlocksNeedOwnBuffers(g, nodes, order, outputs, k, j, i);
      }
    }
    InjectiveImageSize(ids, f);
    forall slot | slot in Image(ids, f) ensures slot in UsedByWidth(g, order, outputs, mono) {
      var id :| id in ids && f[id] == slot;
      assert outputs[PositionOf(order, id)] == slot;
    }
    SubsetCardinality(Image(ids, f), UsedByWidth(g, order, outputs, mono));
  }

  lemma LivePosition(g: Graph, nodes: set<NodeId>, order: seq<NodeId>, k: nat, id: NodeId)
    requires Distinct(order) && k < |order| && id in LiveDuring(g, nodes, order, k)
    ensures id in order && PositionOf(order, id) <= k
  {
    if id != order[k] {
      var i :| 0 <= i < k && order[..k][i] == id;
      assert order[PositionOf(order, id)] == order[i];
    }
  }

  lemma {:induction false} PeakWithinBound(
    g: Graph, nodes: set<NodeId>, order: seq<NodeId>, k: nat, mono: bool, bound: nat)
    requires g.WellFormed() && g.AllValid(nodes) && Elements(order) == nodes && k <= |order|
    requires forall j :: 0 <= j < k ==>
               && g.AllValid(LiveDuring(g, nodes, order, j))
               && |OfWidth(g, LiveDuring(g, nodes, order, j), mono)| <= bound
    ensures Peak(g, nodes, order, k, mono) <= bound
  {
    if k > 0 {
      PeakWithinBound(g, nodes, order, k - 1, mono, bound);
    }
  }

  /** The peak is a lower bound for every alias-free assignment. */
  lemma PeakIsLowerBound(
    g: Graph, nodes: set<NodeId>, order: seq<NodeId>, outputs: seq<nat>, mono: bool)
    requires g.WellFormed() && g.AllValid(nodes) && IsOutputCone(g, nodes)
    requires g.TopologicalOrder(nodes, order) && g.ClosedUnderSources(nodes)
    requires AliasFree(g, order, outputs)
    ensures forall id :: id in order ==> g.IsValidNode(id)
    ensures Peak(g, nodes, order, |order|, mono) <= |UsedByWidth(g, order, outputs, mono)|
  {
    forall id | id in order ensures g.IsValidNode(id) {
      assert id in Elements(order);
    }
    var bound := |UsedByWidth(g, order, outputs, mono)|;
    forall j | 0 <= j < |order|
      ensures g.AllValid(LiveDuring(g, nodes, order, j))
      ensures |OfWidth(g, LiveDuring(g, nodes, order, j), mono)| <= bound
    {
      LiveDuringValid(g, nodes, order, j);
      LiveBlocksFitInUsed(g, nodes, order, outputs, j, mono);
    }
    PeakWithinBound(g, nodes, order, |order|, mono, bound);
  }
}
