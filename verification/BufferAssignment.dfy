/** The loop that builds the plan's steps (src/lavanda/graph/graph_compiler.cc:219-297). */
module BufferAssignment {
  import opened Prelude
  import opened Signals
  import opened GraphModel
  import opened GraphAnalysis
  import opened BufferAllocation
  import opened BufferEconomy

  /** Step q computes node order[q] from the buffers that its sources' steps write. */
  ghost predicate StepFits(g: Graph, order: seq<NodeId>, steps: seq<Step>, q: nat)
    requires g.WellFormed() && |steps| <= |order| && q < |steps|
  {
    && g.IsValidNode(order[q])
    && steps[q].node == g.GetNode(order[q])
    && |steps[q].inputs| == steps[q].node.expectedInputs
    && forall c, p :: Wire(g, order, c, p, q) ==>
         && p < q
         && g.connections[c].input < |steps[q].inputs|
         && steps[q].inputs[g.connections[c].input] == steps[p].output
  }

  /** Connection c leads from the node at position p to the node at position q. */
  ghost predicate Wire(g: Graph, order: seq<NodeId>, c: int, p: int, q: int) {
    && 0 <= c < |g.connections| && 0 <= p < |order| && 0 <= q < |order|
    && g.connections[c].source == order[p] && g.connections[c].destination == order[q]
  }

  /** The buffer a step writes exists and has the width class of the step's node. */
  ghost predicate BufferFits(widths: seq<nat>, step: Step) {
    step.output < |widths| && Mono(widths[step.output]) == Mono(step.node.outputChannels)
  }

  ghost predicate SlotsRecorded(order: seq<NodeId>, steps: seq<Step>, slotOf: map<NodeId, nat>)
    requires |steps| <= |order|
  {
    && slotOf.Keys == Elements(order[..|steps|])
    && forall p :: 0 <= p < |steps| ==> order[p] in slotOf && slotOf[order[p]] == steps[p].output
  }

  /** No later step writes the buffer of a node that is still live. */
  ghost predicate LiveUntouched(order: seq<NodeId>, outputs: seq<nat>, live: set<NodeId>)
    requires |outputs| <= |order|
  {
    forall p, r :: 0 <= p < r < |outputs| && order[p] in live ==> outputs[r] != outputs[p]
  }

  ghost predicate Prepared(g: Graph, nodes: set<NodeId>, order: seq<NodeId>) {
    && g.WellFormed() && g.AllValid(nodes) && g.ClosedUnderSources(nodes)
    && g.TopologicalOrder(nodes, order)
  }

  lemma PrefixElements(order: seq<NodeId>, k: nat)
    requires k < |order| && Distinct(order)
    ensures Elements(order[..k + 1]) == Elements(order[..k]) + {order[k]}
    ensures order[k] !in Elements(order[..k])
  {
    assert order[..k + 1] == order[..k] + [order[k]];
  }

  /** Every source of order[k] ran before and is still live. */
  lemma SourcesAreLive(
    g: Graph, nodes: set<NodeId>, order: seq<NodeId>, k: nat, remaining: map<NodeId, nat>, s: NodeId)
    requires Prepared(g, nodes, order) && k < |order|
    requires RemainingCount(g, nodes, nodes - Elements(order[..k]), remaining)
    requires g.Feeds(s, order[k])
    ensures Elements(order[..k]) <= remaining.Keys
    ensures s in Live(g, nodes, Elements(order[..k]), remaining)
  {
    PrefixElements(order, k);
    assert order[k] in Elements(order);
    assert s in Elements(order);
    var p :| 0 <= p < |order| && order[p] == s;
    assert order[..k][p] == s;
    forall id | id in Elements(order[..k]) ensures id in nodes {
      assert id in Elements(order);
    }
    CountZero(g.connections, {s}, nodes - Elements(order[..k]));
  }

  /** Just after it ran, node order[k] is live. */
  lemma RunMakesLive(
    g: Graph, nodes: set<NodeId>, order: seq<NodeId>, k: nat, remaining: map<NodeId, nat>)
    requires Prepared(g, nodes, order) && k < |order|
    requires RemainingCount(g, nodes, nodes - Elements(order[..k]), remaining)
    ensures Elements(order[..k + 1]) <= nodes
    ensures Live(g, nodes, Elements(order[..k + 1]), remaining) ==
            Live(g, nodes, Elements(order[..k]), remaining) + {order[k]}
    ensures Live(g, nodes, Elements(order[..k + 1]), remaining) == LiveDuring(g, nodes, order, k)
  {
    PrefixElements(order, k);
    assert order[k] in Elements(order);
    forall id | id in Elements(order[..k + 1]) ensures id in nodes {
      assert id in Elements(order);
    }
    var left := nodes - Elements(order[..k]);
    if remaining[order[k]] == 0 {
      CountZero(g.connections, {order[k]}, left);
      CountZero(g.connections, {order[k]}, nodes);
      forall i | 0 <= i < |g.connections| && g.connections[i].source == order[k]
        ensures g.connections[i].destination !in Elements(order[..k])
      {
        assert g.Feeds(order[k], g.connections[i].destination);
      }
    }
  }

  lemma LiveShrinks(
    g: Graph, nodes: set<NodeId>, ran: set<NodeId>, left: set<NodeId>, id: NodeId,
    before: map<NodeId, nat>, after: map<NodeId, nat>)
    requires id in left && RemainingCount(g, nodes, left, before) && RemainingCount(g, nodes, left - {id}, after)
    requires ran <= nodes
    ensures Live(g, nodes, ran, after) <= Live(g, nodes, ran, before)
  {
    assert left == (left - {id}) + {id};
    forall s | s in nodes ensures after[s] <= before[s] {
      CountSplitsDestinations(g.connections, {s}, left - {id}, {id});
    }
  }

  lemma OutputStaysLive(g: Graph, nodes: set<NodeId>, order: seq<NodeId>)
    requires Prepared(g, nodes, order) && IsOutputCone(g, nodes) && g.output in nodes
    ensures Count(g.connections, {g.output}, nodes) == 0
  {
    CountZero(g.connections, {g.output}, nodes);
    forall i | 0 <= i < |g.connections| && g.connections[i].source == g.output
      ensures g.connections[i].destination !in nodes
    {
      var d := g.connections[i].destination;
      if d in nodes {
        assert g.Feeds(g.output, d);
        var p :| g.IsPathFromTo(p, d, g.output);
        PathPrepend(g, g.output, p);
        assert g.IsCycle([g.output] + p, nodes);
        OrderedMeansAcyclic(g, nodes, order);
      }
    }
  }

  /** Appending a step whose slot no live node holds. */
  lemma AppendKeepsAliasing(
    g: Graph, nodes: set<NodeId>, order: seq<NodeId>, outputs: seq<nat>, slot: nat,
    remaining: map<NodeId, nat>, slotOf: map<NodeId, nat>)
    requires Prepared(g, nodes, order) && |outputs| < |order|
    requires RemainingCount(g, nodes, nodes - Elements(order[..|outputs|]), remaining)
    requires Elements(order[..|outputs|]) <= nodes
    requires NeverClobbered(g, order, outputs)
    requires LiveUntouched(order, outputs, Live(g, nodes, Elements(order[..|outputs|]), remaining))
    requires forall p :: 0 <= p < |outputs| && order[p] in Live(g, nodes, Elements(order[..|outputs|]), remaining) ==>
                           outputs[p] != slot
    ensures NeverClobbered(g, order, outputs + [slot])
    ensures LiveUntouched(order, outputs + [slot],
                          Live(g, nodes, Elements(order[..|outputs|]), remaining) + {order[|outputs|]})
  {
    var k := |outputs|;
    var longer := outputs + [slot];
    var live := Live(g, nodes, Elements(order[..k]), remaining);
    forall p, r, q | 0 <= p < r <= q < |longer| && g.Feeds(order[p], order[q]) ensures longer[r] != longer[p] {
      if q == k {
        SourcesAreLive(g, nodes, order, k, remaining, order[p]);
      }
    }
  }

  /** Step q is the first to write the slot, and gave it its width. */
  ghost predicate FirstUser(steps: seq<Step>, widths: seq<nat>, slot: nat, q: nat) {
    && slot < |widths| && q < |steps|
    && steps[q].output == slot && widths[slot] == steps[q].node.outputChannels
    && forall p :: 0 <= p < q ==> steps[p].output != slot
  }

  /** A buffer is as wide as the node it was first allocated for. */
  ghost predicate WidthsFromFirstUsers(steps: seq<Step>, widths: seq<nat>) {
    forall slot :: 0 <= slot < |widths| ==> HasFirstUser(steps, widths, slot)
  }

  ghost predicate HasFirstUser(steps: seq<Step>, widths: seq<nat>, slot: nat) {
    exists q: nat :: FirstUser(steps, widths, slot, q)
  }

  /** Nodes of one width class all have the same number of output channels: true of every graph
      whose nodes are mono or stereo. */
  ghost predicate UniformWidths(g: Graph, nodes: set<NodeId>)
    requires g.WellFormed() && g.AllValid(nodes)
  {
    forall x, y :: x in nodes && y in nodes && Mono(g.GetNode(x).outputChannels) == Mono(g.GetNode(y).outputChannels) ==>
                     g.GetNode(x).outputChannels == g.GetNode(y).outputChannels
  }

  /** With uniform widths every step writes a buffer of exactly its own channel count. */
  lemma BuffersHaveStepWidth(
    g: Graph, nodes: set<NodeId>, order: seq<NodeId>, steps: seq<Step>, widths: seq<nat>, q: nat)
    requires Prepared(g, nodes, order) && IsAssignment(g, nodes, order, steps, widths)
    requires UniformWidths(g, nodes) && q < |steps|
    ensures steps[q].output < |widths| && widths[steps[q].output] == steps[q].node.outputChannels
  {
    assert StepFits(g, order, steps, q) && BufferFits(widths, steps[q]);
    assert HasFirstUser(steps, widths, steps[q].output);
    var p: nat :| FirstUser(steps, widths, steps[q].output, p);
    assert StepFits(g, order, steps, p);
    assert order[q] in Elements(order) && order[p] in Elements(order);
  }

  /** Before step k is built. */
  ghost predicate Built(
    g: Graph, nodes: set<NodeId>, order: seq<NodeId>, k: nat, steps: seq<Step>, a: Allocation,
    slotOf: map<NodeId, nat>, remaining: map<NodeId, nat>)
    requires Prepared(g, nodes, order)
  {
    && k == |steps| <= |order|
    && (forall q :: 0 <= q < k ==> StepFits(g, order, steps, q) && BufferFits(a.widths, steps[q]))
    && SlotsRecorded(order, steps, slotOf) && slotOf.Keys <= nodes
    && RemainingCount(g, nodes, nodes - Elements(order[..k]), remaining)
    && SlotsOwned(g, a, Live(g, nodes, Elements(order[..k]), remaining), slotOf)
    && NeverClobbered(g, order, OutputsOf(steps))
    && LiveUntouched(order, OutputsOf(steps), Live(g, nodes, Elements(order[..k]), remaining))
    && SlotsMatchPeak(g, nodes, order, k, a.widths)
    && WidthsFromFirstUsers(steps, a.widths)
  }

  /** After step k is built and before its inputs are released. */
  ghost predicate Emitted(
    g: Graph, nodes: set<NodeId>, order: seq<NodeId>, k: nat, steps: seq<Step>, a: Allocation,
    slotOf: map<NodeId, nat>, remaining: map<NodeId, nat>)
    requires Prepared(g, nodes, order)
  {
    && k + 1 == |steps| <= |order|
    && (forall q :: 0 <= q <= k ==> StepFits(g, order, steps, q) && BufferFits(a.widths, steps[q]))
    && SlotsRecorded(order, steps, slotOf) && slotOf.Keys <= nodes
    && RemainingCount(g, nodes, nodes - Elements(order[..k]), remaining)
    && SlotsOwned(g, a, Live(g, nodes, slotOf.Keys, remaining), slotOf)
    && NeverClobbered(g, order, OutputsOf(steps))
    && LiveUntouched(order, OutputsOf(steps), Live(g, nodes, slotOf.Keys, remaining))
    && SlotsMatchPeak(g, nodes, order, k + 1, a.widths)
    && WidthsFromFirstUsers(steps, a.widths)
  }

  lemma EmitStep(
    g: Graph, nodes: set<NodeId>, order: seq<NodeId>, k: nat, steps: seq<Step>, a: Allocation,
    slotOf: map<NodeId, nat>, remaining: map<NodeId, nat>, inputs: seq<nat>)
    requires Prepared(g, nodes, order) && k < |order| && g.IsValidNode(order[k])
    requires Built(g, nodes, order, k, steps, a, slotOf, remaining)
    requires InputsWired(g, order[k], inputs, slotOf)
    ensures
      var (grown, slot) := AllocateSlot(a, g.GetNode(order[k]).outputChannels);
      var after := steps + [Step(g.GetNode(order[k]), inputs, slot)];
      && (forall q :: 0 <= q <= k ==> StepFits(g, order, after, q) && BufferFits(grown.widths, after[q]))
      && SlotsRecorded(order, after, slotOf[order[k] := slot])
      && slotOf[order[k] := slot].Keys <= nodes
  {
    hide NeverClobbered, LiveUntouched, SlotsMatchPeak, WidthsFromFirstUsers, StepFits, SlotsOwned, InputsWired;
    hide SlotsRecorded, AllocateSlot;
    hide Graph.ConnectionFits, Graph.InputsDistinct, AudioNode.WellBehaved;
    var id := order[k];
    var (grown, slot) := AllocateSlot(a, g.GetNode(id).outputChannels);
    SlotFitsWidth(g, a, Live(g, nodes, Elements(order[..k]), remaining), slotOf, g.GetNode(id).outputChannels);
    StepsExtend(g, order, steps, steps + [Step(g.GetNode(id), inputs, slot)], a.widths, grown.widths, slotOf);
    RecordsExtend(order, steps, Step(g.GetNode(id), inputs, slot), slotOf);
    assert id in Elements(order);
  }

  lemma RecordsExtend(order: seq<NodeId>, steps: seq<Step>, step: Step, slotOf: map<NodeId, nat>)
    requires |steps| < |order| && Distinct(order) && SlotsRecorded(order, steps, slotOf)
    ensures SlotsRecorded(order, steps + [step], slotOf[order[|steps|] := step.output])
  {
    PrefixElements(order, |steps|);
  }

  lemma EmitWidths(
    g: Graph, nodes: set<NodeId>, order: seq<NodeId>, k: nat, steps: seq<Step>, a: Allocation,
    slotOf: map<NodeId, nat>, remaining: map<NodeId, nat>, inputs: seq<nat>)
    requires Prepared(g, nodes, order) && k < |order| && g.IsValidNode(order[k])
    requires Built(g, nodes, order, k, steps, a, slotOf, remaining)
    ensures
      var (grown, slot) := AllocateSlot(a, g.GetNode(order[k]).outputChannels);
      WidthsFromFirstUsers(steps + [Step(g.GetNode(order[k]), inputs, slot)], grown.widths)
  {
    hide NeverClobbered, LiveUntouched, SlotsMatchPeak, WidthsFromFirstUsers, StepFits, RemainingCount, Live;
    hide FreeListsSound, HeldByLive, AllocateSlot, Graph.ConnectionFits, Graph.InputsDistinct, AudioNode.WellBehaved;
    FirstUsersExtend(
      steps, Step(g.GetNode(order[k]), inputs, AllocateSlot(a, g.GetNode(order[k]).outputChannels).1), a);
  }

  lemma FirstUsersExtend(steps: seq<Step>, step: Step, a: Allocation)
    requires step.output == AllocateSlot(a, step.node.outputChannels).1
    requires FreeListsSound(a) && WidthsFromFirstUsers(steps, a.widths)
    requires forall q :: 0 <= q < |steps| ==> steps[q].output < |a.widths|
    ensures WidthsFromFirstUsers(steps + [step], AllocateSlot(a, step.node.outputChannels).0.widths)
  {
    var grown := AllocateSlot(a, step.node.outputChannels).0;
    forall slot | 0 <= slot < |grown.widths| ensures HasFirstUser(steps + [step], grown.widths, slot) {
      if slot < |a.widths| {
        assert HasFirstUser(steps, a.widths, slot);
        var q: nat :| FirstUser(steps, a.widths, slot, q);
        assert FirstUser(steps + [step], grown.widths, slot, q);
      } else {
        assert FirstUser(steps + [step], grown.widths, slot, |steps|);
      }
    }
  }

  lemma EmitSlot(
    g: Graph, nodes: set<NodeId>, order: seq<NodeId>, k: nat, steps: seq<Step>, a: Allocation,
    slotOf: map<NodeId, nat>, remaining: map<NodeId, nat>)
    requires Prepared(g, nodes, order) && k < |order| && g.IsValidNode(order[k])
    requires Built(g, nodes, order, k, steps, a, slotOf, remaining)
    ensures
      var (grown, slot) := AllocateSlot(a, g.GetNode(order[k]).outputChannels);
      && Elements(order[..k + 1]) <= nodes
      && SlotsOwned(g, grown, Live(g, nodes, Elements(order[..k + 1]), remaining), slotOf[order[k] := slot])
      && SlotsMatchPeak(g, nodes, order, k + 1, grown.widths)
  {
    hide NeverClobbered, LiveUntouched, StepFits, BufferFits, SlotsOwned, SlotsMatchPeak;
    var id := order[k];
    var (grown, slot) := AllocateSlot(a, g.GetNode(id).outputChannels);
    PrefixElements(order, k);
    RunMakesLive(g, nodes, order, k, remaining);
    AllocationIsFresh(g, a, Live(g, nodes, Elements(order[..k]), remaining), slotOf, id);
    PeakStep(g, nodes, order, k, a, slotOf[id := slot]);
  }

  lemma EmitAliasing(
    g: Graph, nodes: set<NodeId>, order: seq<NodeId>, k: nat, steps: seq<Step>, a: Allocation,
    slotOf: map<NodeId, nat>, remaining: map<NodeId, nat>)
    requires Prepared(g, nodes, order) && k < |order| && g.IsValidNode(order[k])
    requires Built(g, nodes, order, k, steps, a, slotOf, remaining)
    ensures
      var slot := AllocateSlot(a, g.GetNode(order[k]).outputChannels).1;
      && Elements(order[..k + 1]) <= nodes
      && NeverClobbered(g, order, OutputsOf(steps) + [slot])
      && LiveUntouched(order, OutputsOf(steps) + [slot], Live(g, nodes, Elements(order[..k + 1]), remaining))
  {
    hide NeverClobbered, LiveUntouched, StepFits, BufferFits, SlotsOwned, SlotsMatchPeak, WidthsFromFirstUsers;
    var id := order[k];
    var slot := AllocateSlot(a, g.GetNode(id).outputChannels).1;
    PrefixElements(order, k);
    RunMakesLive(g, nodes, order, k, remaining);
    AllocationIsFresh(g, a, Live(g, nodes, Elements(order[..k]), remaining), slotOf, id);
    AppendKeepsAliasing(g, nodes, order, OutputsOf(steps), slot, remaining, slotOf);
  }

  lemma Emit(
    g: Graph, nodes: set<NodeId>, order: seq<NodeId>, k: nat, steps: seq<Step>, a: Allocation,
    slotOf: map<NodeId, nat>, remaining: map<NodeId, nat>, inputs: seq<nat>)
    requires Prepared(g, nodes, order) && k < |order| && g.IsValidNode(order[k])
    requires Built(g, nodes, order, k, steps, a, slotOf, remaining)
    requires InputsWired(g, order[k], inputs, slotOf)
    ensures
      var (grown, slot) := AllocateSlot(a, g.GetNode(order[k]).outputChannels);
      Emitted(g, nodes, order, k, steps + [Step(g.GetNode(order[k]), inputs, slot)], grown,
              slotOf[order[k] := slot], remaining)
  {
    hide SlotsOwned, NeverClobbered, LiveUntouched, SlotsMatchPeak, WidthsFromFirstUsers, StepFits, BufferFits;
    hide RemainingCount;
    EmitWidths(g, nodes, order, k, steps, a, slotOf, remaining, inputs);
    EmitStep(g, nodes, order, k, steps, a, slotOf, remaining, inputs);
    EmitSlot(g, nodes, order, k, steps, a, slotOf, remaining);
    EmitAliasing(g, nodes, order, k, steps, a, slotOf, remaining);
    var slot := AllocateSlot(a, g.GetNode(order[k]).outputChannels).1;
    assert OutputsOf(steps + [Step(g.GetNode(order[k]), inputs, slot)]) == OutputsOf(steps) + [slot];
  }

  lemma EmittedCanRelease(
    g: Graph, nodes: set<NodeId>, order: seq<NodeId>, k: nat, steps: seq<Step>, a: Allocation,
    slotOf: map<NodeId, nat>, remaining: map<NodeId, nat>)
    requires Prepared(g, nodes, order) && k < |order| && order[k] in nodes - Elements(order[..k])
    requires Emitted(g, nodes, order, k, steps, a, slotOf, remaining)
    requires forall s :: g.Feeds(s, order[k]) ==> s in slotOf
    ensures ReadyToRelease(g, nodes, nodes - Elements(order[..k]), order[k], slotOf, a, remaining)
  {
    hide NeverClobbered, LiveUntouched, SlotsMatchPeak, WidthsFromFirstUsers, StepFits, BufferFits, SlotsOwned;
    hide RemainingCount;
    PrefixElements(order, k);
    assert slotOf.Keys == (nodes - (nodes - Elements(order[..k]))) + {order[k]};
  }

  lemma SourcesRecorded(
    g: Graph, nodes: set<NodeId>, order: seq<NodeId>, k: nat, steps: seq<Step>, a: Allocation,
    slotOf: map<NodeId, nat>, remaining: map<NodeId, nat>)
    requires Prepared(g, nodes, order) && k < |order|
    requires Built(g, nodes, order, k, steps, a, slotOf, remaining)
    ensures g.IsValidNode(order[k]) && order[k] in nodes - Elements(order[..k])
    ensures forall s :: g.Feeds(s, order[k]) ==> s in slotOf
  {
    hide NeverClobbered, LiveUntouched, SlotsMatchPeak, WidthsFromFirstUsers, StepFits, BufferFits, SlotsOwned;
    assert order[k] in Elements(order);
    PrefixElements(order, k);
    forall s | g.Feeds(s, order[k]) ensures s in slotOf {
      SourcesAreLive(g, nodes, order, k, remaining, s);
    }
  }

  lemma Finish(
    g: Graph, nodes: set<NodeId>, order: seq<NodeId>, k: nat, steps: seq<Step>, grown: Allocation,
    slotOf: map<NodeId, nat>, before: map<NodeId, nat>, a: Allocation, remaining: map<NodeId, nat>)
    requires Prepared(g, nodes, order) && k < |order| && order[k] in nodes - Elements(order[..k])
    requires Emitted(g, nodes, order, k, steps, grown, slotOf, before)
    requires RemainingCount(g, nodes, nodes - Elements(order[..k]) - {order[k]}, remaining)
    requires SlotsOwned(g, a, Live(g, nodes, slotOf.Keys, remaining), slotOf) && a.widths == grown.widths
    ensures Built(g, nodes, order, k + 1, steps, a, slotOf, remaining)
  {
    hide NeverClobbered, SlotsMatchPeak, WidthsFromFirstUsers, StepFits, BufferFits, SlotsOwned;
    hide RemainingCount;
    PrefixElements(order, k);
    LiveShrinks(g, nodes, slotOf.Keys, nodes - Elements(order[..k]), order[k], before, remaining);
    assert nodes - Elements(order[..k]) - {order[k]} == nodes - Elements(order[..k + 1]);
  }

  lemma Start(g: Graph, nodes: set<NodeId>, order: seq<NodeId>, remaining: map<NodeId, nat>)
    requires Prepared(g, nodes, order) && remaining.Keys == nodes
    requires forall id :: id in nodes ==> remaining[id] == |ConsumersOf(g.connections, id, nodes)|
    ensures Built(g, nodes, order, 0, [], Allocation([], [], []), map[], remaining)
  {
    assert Elements(order[..0]) == {} && nodes - {} == nodes;
    assert SlotsOfWidth([], true) == {} && SlotsOfWidth([], false) == {};
    forall id | id in nodes ensures remaining[id] == Count(g.connections, {id}, nodes) {
      ConsumersCount(g.connections, id, nodes);
    }
  }

  /** The four conditions under which the plan's buffers can be shared, and the exact number of
      buffers it takes. */
  ghost predicate IsAssignment(
    g: Graph, nodes: set<NodeId>, order: seq<NodeId>, steps: seq<Step>, widths: seq<nat>)
    requires Prepared(g, nodes, order)
  {
    && |steps| == |order|
    && (forall q :: 0 <= q < |steps| ==> StepFits(g, order, steps, q) && BufferFits(widths, steps[q]))
    && AliasFree(g, order, OutputsOf(steps))
    && SlotsMatchPeak(g, nodes, order, |order|, widths)
    && WidthsFromFirstUsers(steps, widths)
  }

  lemma Conclude(
    g: Graph, nodes: set<NodeId>, order: seq<NodeId>, steps: seq<Step>, a: Allocation,
    slotOf: map<NodeId, nat>, remaining: map<NodeId, nat>)
    requires Prepared(g, nodes, order) && IsOutputCone(g, nodes) && g.output in nodes
    requires Built(g, nodes, order, |order|, steps, a, slotOf, remaining)
    ensures IsAssignment(g, nodes, order, steps, a.widths)
  {
    hide NeverClobbered, SlotsMatchPeak, WidthsFromFirstUsers, StepFits, BufferFits, SlotsOwned, IsOutputCone;
    assert order[..|order|] == order;
    OutputStaysLive(g, nodes, order);
    assert g.output in Live(g, nodes, Elements(order), remaining);
  }

  method AssignBuffers(g: Graph, nodes: set<NodeId>, order: seq<NodeId>)
    returns (steps: seq<Step>, widths: seq<nat>)
    requires Prepared(g, nodes, order) && IsOutputCone(g, nodes) && g.output in nodes
    ensures IsAssignment(g, nodes, order, steps, widths)
  {
    hide Built, IsAssignment, IsOutputCone;
    steps := [];
    var a := Allocation([], [], []);
    var slotOf: map<NodeId, nat> := map[];
    var remaining: map<NodeId, nat> := map id | id in nodes :: |ConsumersOf(g.connections, id, nodes)|;
    Start(g, nodes, order, remaining);
    for k := 0 to |order|
      invariant Built(g, nodes, order, k, steps, a, slotOf, remaining)
    {
      SourcesRecorded(g, nodes, order, k, steps, a, slotOf, remaining);
      steps, a, slotOf, remaining := BuildStep(g, nodes, order, k, steps, a, slotOf, remaining);
    }
    Conclude(g, nodes, order, steps, a, slotOf, remaining);
    widths := a.widths;
  }

  /** The body of the loop over the order. */
  method BuildStep(
    g: Graph, nodes: set<NodeId>, order: seq<NodeId>, k: nat, stepsBefore: seq<Step>, before: Allocation,
    slotOfBefore: map<NodeId, nat>, remainingBefore: map<NodeId, nat>)
    returns (steps: seq<Step>, a: Allocation, slotOf: map<NodeId, nat>, remaining: map<NodeId, nat>)
    requires Prepared(g, nodes, order) && k < |order|
    requires g.IsValidNode(order[k]) && order[k] in nodes - Elements(order[..k])
    requires forall s :: g.Feeds(s, order[k]) ==> s in slotOfBefore
    requires Built(g, nodes, order, k, stepsBefore, before, slotOfBefore, remainingBefore)
    ensures Built(g, nodes, order, k + 1, steps, a, slotOf, remaining)
  {
    hide Built, Emitted, ReadyToRelease, InputsWired;
    var node := g.GetNode(order[k]);
    var inputs := WireInputs(g, order[k], slotOfBefore);
    Emit(g, nodes, order, k, stepsBefore, before, slotOfBefore, remainingBefore, inputs);
    var (grown, slot) := AllocateSlot(before, node.outputChannels);
    slotOf := slotOfBefore[order[k] := slot];
    steps := stepsBefore + [Step(node, inputs, slot)];
    EmittedCanRelease(g, nodes, order, k, steps, grown, slotOf, remainingBefore);
    a, remaining := ReleaseInputs(g, nodes, nodes - Elements(order[..k]), order[k], slotOf, grown, remainingBefore);
    Finish(g, nodes, order, k, steps, grown, slotOf, remainingBefore, a, remaining);
  }

  lemma StepsExtend(
    g: Graph, order: seq<NodeId>, before: seq<Step>, after: seq<Step>, widthsBefore: seq<nat>, widths: seq<nat>,
    slotOf: map<NodeId, nat>)
    requires g.WellFormed() && |before| < |order| && |after| == |before| + 1 && after[..|before|] == before
    requires Distinct(order)
    requires forall q :: 0 <= q < |before| ==> StepFits(g, order, before, q) && BufferFits(widthsBefore, before[q])
    requires |widthsBefore| <= |widths| && widths[..|widthsBefore|] == widthsBefore
    requires SlotsRecorded(order, before, slotOf)
    requires g.IsValidNode(order[|before|]) && after[|before|].node == g.GetNode(order[|before|])
    requires InputsWired(g, order[|before|], after[|before|].inputs, slotOf)
    requires BufferFits(widths, after[|before|])
    ensures forall q :: 0 <= q < |after| ==> StepFits(g, order, after, q) && BufferFits(widths, after[q])
  {
    forall q | 0 <= q < |after| ensures StepFits(g, order, after, q) && BufferFits(widths, after[q]) {
      if q < |before| {
        assert StepFits(g, order, before, q) && BufferFits(widthsBefore, before[q]);
        assert after[q] == before[q];
        assert forall p :: 0 <= p < q ==> after[p] == before[p];
      } else {
        forall c, p | Wire(g, order, c, p, q)
          ensures p < q && g.connections[c].input < |after[q].inputs|
                  && after[q].inputs[g.connections[c].input] == after[p].output
        {
          assert order[p] in slotOf;
          var r :| 0 <= r < |before| && order[..|before|][r] == order[p];
          assert after[p] == before[p];
        }
      }
    }
  }
}
