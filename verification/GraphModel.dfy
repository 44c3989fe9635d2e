/** The value an AudioGraph holds, and the theory of the relation "feeds" on its nodes: paths,
    reachability, cycles and topological orders (src/lavanda/graph/graph.cc,
    src/lavanda/graph/graph_compiler.cc). */
module GraphModel {
  import opened Prelude
  import opened Signals

  const INVALID_INDEX: nat := 0xFFFF_FFFF

  datatype NodeId = NodeId(index: nat, generation: nat)

  /** The default-constructed NodeId. */
  const NO_NODE := NodeId(INVALID_INDEX, 0)

  datatype Connection = Connection(source: NodeId, destination: NodeId, input: nat)

  datatype Slot = Slot(node: Option<AudioNode>, generation: nat, inUse: bool)

  datatype Graph = Graph(slots: seq<Slot>, connections: seq<Connection>, output: NodeId)
  {
    predicate IsValidNode(id: NodeId) {
      id.index < |slots| && slots[id.index].inUse && slots[id.index].generation == id.generation
    }

    ghost predicate SlotsHoldNodes() {
      && |slots| <= INVALID_INDEX
      && forall i :: 0 <= i < |slots| && slots[i].inUse ==>
           slots[i].node.Some? && slots[i].node.value.WellBehaved()
    }

    function GetNode(id: NodeId): AudioNode
      requires SlotsHoldNodes() && IsValidNode(id)
    {
      slots[id.index].node.value
    }

    ghost predicate ConnectionFits(c: Connection)
      requires SlotsHoldNodes()
    {
      && IsValidNode(c.source)
      && IsValidNode(c.destination)
      && c.source != c.destination
      && c.input < GetNode(c.destination).expectedInputs
      && GetNode(c.source).outputChannels == GetNode(c.destination).inputChannels
    }

    /** What every sequence of editing operations keeps (AudioGraph.Valid): the compiler relies
        on it. */
    ghost predicate WellFormed() {
      && SlotsHoldNodes()
      && (forall i :: 0 <= i < |connections| ==> ConnectionFits(connections[i]))
      && InputsDistinct()
      && (output == NO_NODE || IsValidNode(output))
    }

    /** No input has two connections. */
    ghost predicate InputsDistinct() {
      forall i, j :: 0 <= i < j < |connections| ==>
        connections[i].destination != connections[j].destination || connections[i].input != connections[j].input
    }

    /** Node a feeds some input of node b. */
    ghost predicate Feeds(a: NodeId, b: NodeId) {
      exists i :: 0 <= i < |connections| && connections[i].source == a && connections[i].destination == b
    }

    ghost predicate IsPath(p: seq<NodeId>) {
      |p| > 0 && forall i :: 0 <= i < |p| - 1 ==> Feeds(p[i], p[i + 1])
    }

    ghost predicate IsPathFromTo(p: seq<NodeId>, a: NodeId, b: NodeId) {
      IsPath(p) && p[0] == a && p[|p| - 1] == b
    }

    /** There is a (possibly empty) chain of connections from a to b. */
    ghost predicate Reaches(a: NodeId, b: NodeId) {
      exists p :: IsPathFromTo(p, a, b)
    }

    ghost predicate ClosedUnderSources(nodes: set<NodeId>) {
      forall a, b :: Feeds(a, b) && b in nodes ==> a in nodes
    }

    ghost predicate AllValid(nodes: set<NodeId>) {
      forall id :: id in nodes ==> IsValidNode(id)
    }

    ghost predicate IsCycle(p: seq<NodeId>, nodes: set<NodeId>) {
      IsPath(p) && |p| >= 2 && p[0] == p[|p| - 1] && p[0] in nodes
    }

    ghost predicate HasCycle(nodes: set<NodeId>) {
      exists p :: IsCycle(p, nodes)
    }

    /** The connection that drives the given input of a node, if any. */
    ghost predicate Drives(c: Connection, id: NodeId, input: nat) {
      c in connections && c.destination == id && c.input == input
    }

    ghost predicate InputConnected(id: NodeId, input: nat) {
      exists c :: Drives(c, id, input)
    }

    /** order lists every node once, sources before the nodes they feed. */
    ghost predicate TopologicalOrder(nodes: set<NodeId>, order: seq<NodeId>) {
      && Distinct(order)
      && Elements(order) == nodes
      && forall i, j :: 0 <= i < |order| && 0 <= j < |order| && Feeds(order[i], order[j]) ==> i < j
    }

    /** id can come next after done. */
    ghost predicate ReadyAfter(nodes: set<NodeId>, done: seq<NodeId>, id: NodeId) {
      id in nodes && id !in done && forall a :: Feeds(a, id) ==> a in done
    }

    /** Each position holds the node of least index among those that could come next. */
    ghost predicate GreedyOrder(nodes: set<NodeId>, order: seq<NodeId>) {
      forall k :: 0 <= k < |order| ==>
        && ReadyAfter(nodes, order[..k], order[k])
        && forall id :: ReadyAfter(nodes, order[..k], id) ==> order[k].index <= id.index
    }
  }

  /** Among valid nodes the index decides the id, so tables keyed by index and tables keyed by id
      are the same. */
  lemma IndexDecidesNode(g: Graph, a: NodeId, b: NodeId)
    requires g.IsValidNode(a) && g.IsValidNode(b) && a.index == b.index
    ensures a == b
  {
  }

  // ---- Paths ----------------------------------------------------------------------------------

  lemma PathSlice(g: Graph, p: seq<NodeId>, i: nat, j: nat)
    requires g.IsPath(p) && i < j <= |p|
    ensures g.IsPath(p[i..j])
  {
    var q := p[i..j];
    forall k | 0 <= k < |q| - 1 ensures g.Feeds(q[k], q[k + 1]) {
      assert g.Feeds(p[i + k], p[i + k + 1]);
    }
  }

  lemma PathPrepend(g: Graph, a: NodeId, p: seq<NodeId>)
    requires g.IsPath(p) && g.Feeds(a, p[0])
    ensures g.IsPath([a] + p)
  {
    var q := [a] + p;
    forall k | 0 <= k < |q| - 1 ensures g.Feeds(q[k], q[k + 1]) {
      if k > 0 {
        assert g.Feeds(p[k - 1], p[k - 1 + 1]);
      }
    }
  }

  lemma {:induction false} PathStaysInside(g: Graph, nodes: set<NodeId>, p: seq<NodeId>)
    requires g.ClosedUnderSources(nodes) && g.IsPath(p) && p[|p| - 1] in nodes
    ensures forall i :: 0 <= i < |p| ==> p[i] in nodes
  {
    if |p| > 1 {
      var rest := p[1..];
      PathSlice(g, p, 1, |p|);
      assert p[1..|p|] == rest;
      PathStaysInside(g, nodes, rest);
      assert g.Feeds(p[0], p[0 + 1]) && p[1] == rest[0];
      forall i | 0 <= i < |p| ensures p[i] in nodes {
        if i > 0 {
          assert p[i] == rest[i - 1];
        }
      }
    }
  }

  lemma PathExtends(g: Graph, a: NodeId, b: NodeId, target: NodeId)
    requires g.Feeds(a, b) && g.Reaches(b, target)
    ensures g.Reaches(a, target)
  {
    var p :| g.IsPathFromTo(p, b, target);
    PathPrepend(g, a, p);
    assert g.IsPathFromTo([a] + p, a, target);
  }

  /** A set that holds the target and every source of its members holds everything that reaches
      the target. */
  lemma ClosedSetHoldsAncestors(g: Graph, nodes: set<NodeId>, id: NodeId, target: NodeId)
    requires g.ClosedUnderSources(nodes) && target in nodes && g.Reaches(id, target)
    ensures id in nodes
  {
    var p :| g.IsPathFromTo(p, id, target);
    PathStaysInside(g, nodes, p);
  }

  // ---- Topological orders and cycles ----------------------------------------------------------

  lemma {:induction false} PathGoesForward(
    g: Graph, nodes: set<NodeId>, order: seq<NodeId>, p: seq<NodeId>, i: nat, j: nat)
    requires g.TopologicalOrder(nodes, order) && g.ClosedUnderSources(nodes)
    requires g.IsPath(p) && i < |order| && j < |order| && p[0] == order[i] && p[|p| - 1] == order[j]
    ensures if |p| == 1 then i == j else i < j
    decreases |p|
  {
    if |p| > 1 {
      PathSlice(g, p, 1, |p|);
      assert order[j] in Elements(order);
      PathStaysInside(g, nodes, p);
      assert p[1] in Elements(order);
      var k :| 0 <= k < |order| && order[k] == p[1];
      PathGoesForward(g, nodes, order, p[1..|p|], k, j);
      assert g.Feeds(p[0], p[0 + 1]);
    }
  }

  lemma OrderedMeansAcyclic(g: Graph, nodes: set<NodeId>, order: seq<NodeId>)
    requires g.TopologicalOrder(nodes, order) && g.ClosedUnderSources(nodes)
    ensures !g.HasCycle(nodes)
  {
    forall p | g.IsCycle(p, nodes) ensures false {
      assert p[0] in Elements(order);
      var i :| 0 <= i < |order| && order[i] == p[0];
      PathGoesForward(g, nodes, order, p, i, i);
    }
  }

  ghost predicate FedFrom(g: Graph, nodes: set<NodeId>, b: NodeId) {
    exists a :: a in nodes && g.Feeds(a, b)
  }

  /** Every node of the set has a source in the set. */
  ghost predicate AllFed(g: Graph, stuck: set<NodeId>) {
    forall b {:trigger FedFrom(g, stuck, b)} :: b in stuck ==> FedFrom(g, stuck, b)
  }

  /** Walking backwards inside such a set never ends. */
  lemma {:induction false} WalkBackwards(g: Graph, stuck: set<NodeId>, length: nat) returns (p: seq<NodeId>)
    requires stuck != {} && AllFed(g, stuck)
    ensures |p| == length + 1 && g.IsPath(p)
    ensures forall x :: x in p ==> x in stuck
  {
    if length == 0 {
      var b :| b in stuck;
      p := [b];
    } else {
      var q := WalkBackwards(g, stuck, length - 1);
      assert q[0] in stuck && FedFrom(g, stuck, q[0]);
      var a :| a in stuck && g.Feeds(a, q[0]);
      PathPrepend(g, a, q);
      p := [a] + q;
    }
  }

  /** If every node of a non-empty set has a source in the set, the set holds a cycle. */
  lemma StuckMeansCyclic(g: Graph, stuck: set<NodeId>, nodes: set<NodeId>)
    requires stuck != {} && stuck <= nodes && AllFed(g, stuck)
    ensures g.HasCycle(nodes)
  {
    var p := WalkBackwards(g, stuck, |stuck|);
    Pigeonhole(p, stuck);
    var i, j :| 0 <= i < j < |p| && p[i] == p[j];
    PathSlice(g, p, i, j + 1);
    assert p[i..j + 1][0] == p[i] && p[i] in stuck;
    assert g.IsCycle(p[i..j + 1], nodes);
  }

  lemma GreedyDistinct(g: Graph, nodes: set<NodeId>, order: seq<NodeId>)
    requires g.GreedyOrder(nodes, order)
    ensures Distinct(order) && Elements(order) <= nodes
  {
    forall i, j | 0 <= i < j < |order| ensures order[i] != order[j] {
      assert order[j] !in order[..j];
      assert order[i] == order[..j][i];
    }
  }

  lemma GreedyIsTopological(g: Graph, nodes: set<NodeId>, order: seq<NodeId>)
    requires g.GreedyOrder(nodes, order) && Elements(order) == nodes
    ensures g.TopologicalOrder(nodes, order)
  {
    GreedyDistinct(g, nodes, order);
    forall i, j | 0 <= i < |order| && 0 <= j < |order| && g.Feeds(order[i], order[j]) ensures i < j {
      assert g.ReadyAfter(nodes, order[..j], order[j]);
      var k :| 0 <= k < j && order[..j][k] == order[i];
    }
  }

  /** a comes before b in the dictionary order of node indices. */
  ghost predicate LexicographicallyBefore(a: seq<NodeId>, b: seq<NodeId>) {
    exists k :: 0 <= k < |a| && k < |b| && a[..k] == b[..k] && a[k].index < b[k].index
  }

  lemma {:induction false} FirstDifference(a: seq<NodeId>, b: seq<NodeId>) returns (k: nat)
    requires |a| == |b| && a != b
    ensures k < |a| && a[..k] == b[..k] && a[k] != b[k]
  {
    k := 0;
    while a[k] == b[k]
      invariant k < |a| && a[..k] == b[..k]
      decreases |a| - k
    {
      assert a[..k + 1] == a[..k] + [a[k]] && b[..k + 1] == b[..k] + [b[k]];
      k := k + 1;
    }
  }

  /** The greedy order is the least of all topological orders of the same nodes. */
  lemma GreedyIsLeast(g: Graph, nodes: set<NodeId>, order: seq<NodeId>, other: seq<NodeId>)
    requires g.GreedyOrder(nodes, order) && Elements(order) == nodes
    requires g.AllValid(nodes) && g.ClosedUnderSources(nodes)
    requires g.TopologicalOrder(nodes, other)
    ensures other == order || LexicographicallyBefore(order, other)
  {
    GreedyDistinct(g, nodes, order);
    DistinctCardinality(order);
    DistinctCardinality(other);
    if order != other {
      var k := FirstDifference(order, other);
      assert other[k] in Elements(other) && order[k] in Elements(order);
      assert other[k] !in other[..k];
      forall a | g.Feeds(a, other[k]) ensures a in order[..k] {
        assert a in Elements(other);
        var i :| 0 <= i < |other| && other[i] == a;
        assert a == other[..k][i];
      }
      assert g.ReadyAfter(nodes, order[..k], other[k]);
    }
  }

  /** The order depends on which nodes feed which, not on the order in which connections were
      added. */
  lemma OrderIgnoresConnectionOrder(
    g: Graph, h: Graph, nodes: set<NodeId>, order: seq<NodeId>, other: seq<NodeId>)
    requires g.slots == h.slots && multiset(g.connections) == multiset(h.connections)
    requires g.AllValid(nodes) && g.ClosedUnderSources(nodes)
    requires g.GreedyOrder(nodes, order) && Elements(order) == nodes
    requires h.GreedyOrder(nodes, other) && Elements(other) == nodes
    ensures order == other
  {
    forall a, b ensures g.Feeds(a, b) <==> h.Feeds(a, b) {
      FeedsFollowsMultiset(g, h, a, b);
      FeedsFollowsMultiset(h, g, a, b);
    }
    GreedyIsTopological(g, nodes, order);
    GreedyIsTopological(h, nodes, other);
    assert h.TopologicalOrder(nodes, order) && g.TopologicalOrder(nodes, other);
    GreedyIsLeast(g, nodes, order, other);
    GreedyIsLeast(h, nodes, other, order);
  }

  lemma FeedsFollowsMultiset(g: Graph, h: Graph, a: NodeId, b: NodeId)
    requires multiset(g.connections) == multiset(h.connections)
    ensures g.Feeds(a, b) ==> h.Feeds(a, b)
  {
    if g.Feeds(a, b) {
      var i :| 0 <= i < |g.connections| && g.connections[i].source == a && g.connections[i].destination == b;
      assert g.connections[i] in multiset(h.connections);
      assert g.connections[i] in h.connections;
    }
  }
}
