/** For which channel counts the buffers a plan shares are wide enough
    (src/lavanda/graph/graph_compiler.cc:192-217, src/lavanda/graph/graph_compiler.cc:288-293). The
    compiler keeps two free lists, one for at most one channel and one for all counts above, and a
    buffer taken from a list keeps the width it was first allocated with. */
module BufferWidths {
  import opened Prelude
  import opened Signals
  import opened Blocks
  import opened GraphModel
  import opened GraphAnalysis
  import opened BufferAllocation
  import opened BufferEconomy
  import opened BufferAssignment
  import opened GraphExecution
  import opened Resources
  import opened Compilation

  /** At most one channel count of at most one, and at most one count above one. */
  predicate OnePerClass(counts: set<nat>) {
    forall a, b :: a in counts && b in counts && Mono(a) == Mono(b) ==> a == b
  }

  ghost predicate CountsFrom(g: Graph, nodes: set<NodeId>, counts: set<nat>)
    requires g.WellFormed() && g.AllValid(nodes)
  {
    forall id :: id in nodes ==> g.GetNode(id).outputChannels in counts
  }

  /** Every plan of every graph whose nodes have these channel counts hands its nodes only views of
      the widths they declare. */
  ghost predicate AlwaysExact(counts: set<nat>) {
    forall g, nodes, order, steps, widths :: Compiled(g, nodes, order, steps, widths) && CountsFrom(g, nodes, counts) ==>
      AllRunnable(steps, widths)
  }

  /** The exact condition, which can be checked before compiling. */
  lemma ExactForOneCountPerClass(counts: set<nat>)
    ensures AlwaysExact(counts) <==> OnePerClass(counts)
  {
    if OnePerClass(counts) {
      forall g, nodes, order, steps, widths | Compiled(g, nodes, order, steps, widths) && CountsFrom(g, nodes, counts)
        ensures AllRunnable(steps, widths)
      {
        UniformStepsRun(g, nodes, order, steps, widths);
      }
    } else {
      var a, b :| a in counts && b in counts && Mono(a) == Mono(b) && a != b;
      ChainCompiles(a, b);
      ChainIsNeverExact(a, b, CHAIN_NODES, CHAIN_ORDER, ChainSteps(a, b), [a, a]);
      ChainShape(a, b);
      assert CountsFrom(Chain(a, b), CHAIN_NODES, counts);
    }
  }

  // ---- The graphs that fail ---------------------------------------------------------------------

  const FIRST := NodeId(0, 1)
  const SECOND := NodeId(1, 1)
  const THIRD := NodeId(2, 1)
  const CHAIN_NODES: set<NodeId> := {FIRST, SECOND, THIRD}
  const CHAIN_ORDER: seq<NodeId> := [FIRST, SECOND, THIRD]

  function SilentNode(inputChannels: nat, outputChannels: nat, expectedInputs: nat): AudioNode {
    AudioNode(inputChannels, outputChannels, expectedInputs, None, Stateless, _ => Stateless,
              (s, ins, c: ProcessContext) => (s, Zeros(c.frameCount, outputChannels)))
  }

  /** A source of a channels, a node from a to a, and one from a to b, the output. */
  function Chain(a: nat, b: nat): Graph {
    Graph([Slot(Some(SilentNode(0, a, 0)), 1, true),
           Slot(Some(SilentNode(a, a, 1)), 1, true),
           Slot(Some(SilentNode(a, b, 1)), 1, true)],
          [Connection(FIRST, SECOND, 0), Connection(SECOND, THIRD, 0)],
          THIRD)
  }

  /** The third node is given the buffer the first one no longer needs. */
  function ChainSteps(a: nat, b: nat): seq<Step> {
    [Step(SilentNode(0, a, 0), [], 0), Step(SilentNode(a, a, 1), [0], 1), Step(SilentNode(a, b, 1), [1], 0)]
  }

  lemma ChainShape(a: nat, b: nat)
    ensures Chain(a, b).WellFormed() && Chain(a, b).AllValid(CHAIN_NODES)
    ensures Chain(a, b).GetNode(FIRST) == SilentNode(0, a, 0)
    ensures Chain(a, b).GetNode(SECOND) == SilentNode(a, a, 1)
    ensures Chain(a, b).GetNode(THIRD) == SilentNode(a, b, 1)
  {
    var g := Chain(a, b);
    assert forall i :: 0 <= i < |g.slots| ==> g.slots[i].node.value.WellBehaved();
  }

  lemma ChainFeeds(a: nat, b: nat, x: NodeId, y: NodeId)
    ensures Chain(a, b).Feeds(x, y) <==> (x == FIRST && y == SECOND) || (x == SECOND && y == THIRD)
  {
    var cs := Chain(a, b).connections;
    assert cs[0].source == FIRST && cs[1].source == SECOND;
  }

  /** The chain is one. */
  lemma ChainIsPrepared(a: nat, b: nat)
    ensures Prepared(Chain(a, b), CHAIN_NODES, CHAIN_ORDER)
    ensures IsOutputCone(Chain(a, b), CHAIN_NODES) && AllInputsConnected(Chain(a, b), CHAIN_NODES)
  {
    var g := Chain(a, b);
    ChainShape(a, b);
    forall x, y ensures g.Feeds(x, y) <==> (x == FIRST && y == SECOND) || (x == SECOND && y == THIRD) {
      ChainFeeds(a, b, x, y);
    }
    assert Elements(CHAIN_ORDER) == CHAIN_NODES;
    forall id ensures id in CHAIN_NODES <==> g.Reaches(id, THIRD) {
      if id in CHAIN_NODES {
        assert g.IsPathFromTo([THIRD], THIRD, THIRD) && g.IsPathFromTo([SECOND, THIRD], SECOND, THIRD);
        assert g.IsPathFromTo([FIRST, SECOND, THIRD], FIRST, THIRD);
      } else if g.Reaches(id, THIRD) {
        ClosedSetHoldsAncestors(g, CHAIN_NODES, id, THIRD);
      }
    }
    assert g.Drives(g.connections[0], SECOND, 0) && g.Drives(g.connections[1], THIRD, 0);
  }

  /** Two blocks at a time are alive. */
  lemma ChainPeak(a: nat, b: nat)
    requires Mono(a) == Mono(b)
    requires Prepared(Chain(a, b), CHAIN_NODES, CHAIN_ORDER)
    ensures Peak(Chain(a, b), CHAIN_NODES, CHAIN_ORDER, 3, Mono(a)) == 2
    ensures Peak(Chain(a, b), CHAIN_NODES, CHAIN_ORDER, 3, !Mono(a)) == 0
  {
    var g := Chain(a, b);
    ChainShape(a, b);
    ChainLive(a, b);
    forall k | 0 <= k < 3
      ensures g.AllValid(LiveDuring(g, CHAIN_NODES, CHAIN_ORDER, k))
      ensures OfWidth(g, LiveDuring(g, CHAIN_NODES, CHAIN_ORDER, k), Mono(a)) ==
              LiveDuring(g, CHAIN_NODES, CHAIN_ORDER, k)
      ensures OfWidth(g, LiveDuring(g, CHAIN_NODES, CHAIN_ORDER, k), !Mono(a)) == {}
    {
    }
    forall mono: bool
      ensures Peak(g, CHAIN_NODES, CHAIN_ORDER, 3, mono) == if mono == Mono(a) then 2 else 0
    {
      assert Peak(g, CHAIN_NODES, CHAIN_ORDER, 0, mono) == 0;
      assert Peak(g, CHAIN_NODES, CHAIN_ORDER, 1, mono) == if mono == Mono(a) then 1 else 0;
      assert Peak(g, CHAIN_NODES, CHAIN_ORDER, 2, mono) == if mono == Mono(a) then 2 else 0;
    }
  }

  lemma ChainLive(a: nat, b: nat)
    ensures LiveDuring(Chain(a, b), CHAIN_NODES, CHAIN_ORDER, 0) == {FIRST}
    ensures LiveDuring(Chain(a, b), CHAIN_NODES, CHAIN_ORDER, 1) == {FIRST, SECOND}
    ensures LiveDuring(Chain(a, b), CHAIN_NODES, CHAIN_ORDER, 2) == {SECOND, THIRD}
  {
    var g := Chain(a, b);
    assert CHAIN_ORDER[..0] == [] && CHAIN_ORDER[..1] == [FIRST] && CHAIN_ORDER[..2] == [FIRST, SECOND];
    forall s: set<NodeId>, d: set<NodeId>
      ensures Count(g.connections, s, d) ==
              (if FIRST in s && SECOND in d then 1 else 0) + (if SECOND in s && THIRD in d then 1 else 0)
    {
      ChainCount(Connection(FIRST, SECOND, 0), Connection(SECOND, THIRD, 0), s, d);
    }
  }

  lemma ChainCount(x: Connection, y: Connection, s: set<NodeId>, d: set<NodeId>)
    ensures Count([x, y], s, d) ==
            (if x.source in s && x.destination in d then 1 else 0) +
            (if y.source in s && y.destination in d then 1 else 0)
  {
    assert [x][..0] == [] && Count([], s, d) == 0;
    assert Count([x], s, d) == if x.source in s && x.destination in d then 1 else 0;
    assert [x, y][..1] == [x];
  }

  lemma ChainIsWired(a: nat, b: nat)
    requires Prepared(Chain(a, b), CHAIN_NODES, CHAIN_ORDER) && Mono(a) == Mono(b)
    ensures forall q :: 0 <= q < 3 ==>
              StepFits(Chain(a, b), CHAIN_ORDER, ChainSteps(a, b), q) && BufferFits([a, a], ChainSteps(a, b)[q])
  {
    hide Graph.WellFormed, Graph.SlotsHoldNodes;
    ChainShape(a, b);
  }

  lemma ChainIsAliasFree(a: nat, b: nat)
    ensures AliasFree(Chain(a, b), CHAIN_ORDER, OutputsOf(ChainSteps(a, b)))
  {
    forall x, y ensures Chain(a, b).Feeds(x, y) <==> (x == FIRST && y == SECOND) || (x == SECOND && y == THIRD) {
      ChainFeeds(a, b, x, y);
    }
  }

  lemma ChainSlots(a: nat, b: nat)
    requires Prepared(Chain(a, b), CHAIN_NODES, CHAIN_ORDER) && Mono(a) == Mono(b)
    ensures SlotsMatchPeak(Chain(a, b), CHAIN_NODES, CHAIN_ORDER, 3, [a, a])
    ensures WidthsFromFirstUsers(ChainSteps(a, b), [a, a])
  {
    hide Peak, Graph.WellFormed;
    var steps := ChainSteps(a, b);
    ChainPeak(a, b);
    assert SlotsOfWidth([a, a], Mono(a)) == {0, 1} && SlotsOfWidth([a, a], !Mono(a)) == {};
    assert FirstUser(steps, [a, a], 0, 0) && FirstUser(steps, [a, a], 1, 1);
    assert HasFirstUser(steps, [a, a], 0) && HasFirstUser(steps, [a, a], 1);
  }

  lemma ChainCompiles(a: nat, b: nat)
    requires Mono(a) == Mono(b)
    ensures Compiled(Chain(a, b), CHAIN_NODES, CHAIN_ORDER, ChainSteps(a, b), [a, a])
  {
    hide StepFits, BufferFits, AliasFree, SlotsMatchPeak, WidthsFromFirstUsers;
    hide Prepared, IsOutputCone, AllInputsConnected;
    ChainIsPrepared(a, b);
    ChainIsWired(a, b);
    ChainIsAliasFree(a, b);
    ChainSlots(a, b);
  }

  /** Compile accepts the chain, whatever the store and the rate. */
  lemma ChainIsCompilable(a: nat, b: nat, hasStore: bool, slots: seq<AssetSlot>, sampleRate: nat)
    ensures Chain(a, b).WellFormed() && Chain(a, b).AllValid(CHAIN_NODES) && Chain(a, b).IsValidNode(Chain(a, b).output)
    ensures IsOutputCone(Chain(a, b), CHAIN_NODES)
    ensures Compilable(Chain(a, b), CHAIN_NODES, hasStore, slots, sampleRate)
  {
    ChainShape(a, b);
    ChainIsPrepared(a, b);
    OrderedMeansAcyclic(Chain(a, b), CHAIN_NODES, CHAIN_ORDER);
  }

  /** The chain's nodes have only one order. */
  lemma ChainOrderIsUnique(a: nat, b: nat, nodes: set<NodeId>, order: seq<NodeId>)
    requires Prepared(Chain(a, b), nodes, order) && IsOutputCone(Chain(a, b), nodes)
    ensures nodes == CHAIN_NODES && order == CHAIN_ORDER
  {
    ChainIsPrepared(a, b);
    assert nodes == CHAIN_NODES;
    DistinctCardinality(order);
    hide Graph.WellFormed, Graph.ClosedUnderSources, IsOutputCone, Graph.AllValid;
    assert FIRST in Elements(order) && SECOND in Elements(order) && THIRD in Elements(order);
    var i, j, k :| 0 <= i < 3 && 0 <= j < 3 && 0 <= k < 3 && order[i] == FIRST && order[j] == SECOND && order[k] == THIRD;
    ChainFeeds(a, b, FIRST, SECOND);
    ChainFeeds(a, b, SECOND, THIRD);
  }

  /** Whatever plan the compiler makes of the chain, its last node, of b channels, is handed a
      buffer of a. */
  lemma ChainIsNeverExact(
    a: nat, b: nat, nodes: set<NodeId>, order: seq<NodeId>, steps: seq<Step>, widths: seq<nat>)
    requires Mono(a) == Mono(b) && a != b
    requires Compiled(Chain(a, b), nodes, order, steps, widths)
    ensures |steps| == 3 && steps[2].output < |widths|
    ensures widths[steps[2].output] == a && steps[2].node.outputChannels == b
    ensures !AllRunnable(steps, widths)
  {
    var g := Chain(a, b);
    ChainOrderIsUnique(a, b, nodes, order);
    ChainShape(a, b);
    ChainPeak(a, b);
    ChainFeeds(a, b, FIRST, SECOND);
    ChainFeeds(a, b, SECOND, THIRD);
    forall q | 0 <= q < 3 ensures steps[q].output in SlotsOfWidth(widths, Mono(a)) {
      assert StepFits(g, order, steps, q) && BufferFits(widths, steps[q]);
    }
    var out := OutputsOf(steps);
    assert out[1] != out[0] && out[2] != out[1];
    OneOfTwo(SlotsOfWidth(widths, Mono(a)), steps[0].output, steps[1].output, steps[2].output);
    assert HasFirstUser(steps, widths, steps[0].output);
    assert StepFits(g, order, steps, 0) && StepFits(g, order, steps, 2);
    assert !StepRunnable(steps[2], widths);
  }

  lemma OneOfTwo(s: set<nat>, x: nat, y: nat, z: nat)
    requires |s| == 2 && x in s && y in s && z in s && x != y
    ensures z == x || z == y
  {
    assert {x, y} <= s;
    SubsetCardinality({x, y}, s);
  }
}
