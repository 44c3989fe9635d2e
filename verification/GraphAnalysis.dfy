/** The first half of GraphCompiler::Compile (src/lavanda/graph/graph_compiler.cc:64-180): backward
    reachability, the check that required inputs are connected, and the deterministic
    topological sort. */
module GraphAnalysis {
  import opened Prelude
  import opened Signals
  import opened GraphModel

  ghost function AllNodes(g: Graph): set<NodeId> {
    set i | 0 <= i < |g.slots| && g.slots[i].inUse :: NodeId(i, g.slots[i].generation)
  }

  ghost predicate IsOutputCone(g: Graph, nodes: set<NodeId>) {
    forall id :: id in nodes <==> g.Reaches(id, g.output)
  }

  // ---- Reachability ---------------------------------------------------------------------------

  /** Every source of id is in nodes, as far as the first n connections tell. */
  ghost predicate SourcesIn(g: Graph, n: nat, id: NodeId, nodes: set<NodeId>)
    requires n <= |g.connections|
  {
    forall i :: 0 <= i < n && g.connections[i].destination == id ==> g.connections[i].source in nodes
  }

  lemma ReachesItself(g: Graph, id: NodeId)
    ensures g.Reaches(id, id)
  {
    assert g.IsPathFromTo([id], id, id);
  }

  lemma ScannedMeansClosed(g: Graph, nodes: set<NodeId>)
    requires forall id :: id in nodes ==> SourcesIn(g, |g.connections|, id, nodes)
    ensures g.ClosedUnderSources(nodes)
  {
    forall a, b | g.Feeds(a, b) && b in nodes ensures a in nodes {
      assert SourcesIn(g, |g.connections|, b, nodes);
    }
  }

  method Reachable(g: Graph) returns (reachable: set<NodeId>)
    requires g.WellFormed() && g.IsValidNode(g.output)
    ensures IsOutputCone(g, reachable)
    ensures g.ClosedUnderSources(reachable) && g.AllValid(reachable) && g.output in reachable
  {
    var frontier := [g.output];
    reachable := {g.output};
    ReachesItself(g, g.output);
    while frontier != []
      invariant g.output in reachable && g.AllValid(reachable)
      invariant forall id :: id in frontier ==> id in reachable
      invariant forall id :: id in reachable ==> g.Reaches(id, g.output)
      invariant forall id :: id in reachable && id !in frontier ==> SourcesIn(g, |g.connections|, id, reachable)
      decreases AllNodes(g) - reachable, |frontier|
    {
      var current := frontier[|frontier| - 1];
      ghost var before := reachable;
      ghost var rest := frontier[..|frontier| - 1];
      assert current in reachable && frontier == rest + [current];
      frontier := frontier[..|frontier| - 1];
      for i := 0 to |g.connections|
        invariant g.output in reachable && g.AllValid(reachable) && before <= reachable
        invariant forall id :: id in frontier ==> id in reachable
        invariant forall id :: id in reachable ==> g.Reaches(id, g.output)
        invariant forall id :: id in reachable && id !in frontier && id != current ==>
                                 SourcesIn(g, |g.connections|, id, reachable)
        invariant SourcesIn(g, i, current, reachable)
        invariant before == reachable ==> frontier == rest
      {
        var c := g.connections[i];
        assert g.ConnectionFits(c);
        if c.destination == current && c.source !in reachable {
          assert g.Feeds(c.source, current);
          PathExtends(g, c.source, current, g.output);
          reachable := reachable + {c.source};
          frontier := frontier + [c.source];
        }
      }
      if before != reachable {
        assert reachable <= AllNodes(g);
      }
    }
    ScannedMeansClosed(g, reachable);
    forall id ensures id in reachable <==> g.Reaches(id, g.output) {
      if g.Reaches(id, g.output) {
        ClosedSetHoldsAncestors(g, reachable, id, g.output);
      }
    }
  }

  // ---- Required inputs ------------------------------------------------------------------------

  ghost predicate InputsConnected(g: Graph, id: NodeId, n: nat) {
    forall input :: 0 <= input < n ==> g.InputConnected(id, input)
  }

  ghost predicate AllInputsConnected(g: Graph, nodes: set<NodeId>)
    requires g.SlotsHoldNodes() && g.AllValid(nodes)
  {
    forall id :: id in nodes ==> InputsConnected(g, id, g.GetNode(id).expectedInputs)
  }

  method RequiredInputsConnected(g: Graph, nodes: set<NodeId>) returns (connected: bool)
    requires g.WellFormed() && g.AllValid(nodes)
    ensures connected <==> AllInputsConnected(g, nodes)
  {
    var todo := nodes;
    while todo != {}
      invariant todo <= nodes
      invariant forall id :: id in nodes && id !in todo ==> InputsConnected(g, id, g.GetNode(id).expectedInputs)
      decreases todo
    {
      var id :| id in todo;
      todo := todo - {id};
      for input := 0 to g.GetNode(id).expectedInputs
        invariant InputsConnected(g, id, input)
      {
        var found := false;
        for i := 0 to |g.connections|
          invariant !found
          invariant forall j :: 0 <= j < i ==> g.connections[j].destination != id || g.connections[j].input != input
        {
          if g.connections[i].destination == id && g.connections[i].input == input {
            assert g.Drives(g.connections[i], id, input);
            found := true;
            break;
          }
        }
        if !found {
          assert !g.InputConnected(id, input);
          return false;
        }
      }
    }
    return true;
  }

  // ---- Counting connections -------------------------------------------------------------------

  /** The number of connections from a node of one set to a node of another. */
  function Count(cs: seq<Connection>, sources: set<NodeId>, destinations: set<NodeId>): nat {
    if cs == [] then 0
    else
      Count(cs[..|cs| - 1], sources, destinations) +
      if cs[|cs| - 1].source in sources && cs[|cs| - 1].destination in destinations then 1 else 0
  }

  lemma {:induction false} CountSplitsSources(cs: seq<Connection>, s: set<NodeId>, t: set<NodeId>, d: set<NodeId>)
    requires s !! t
    ensures Count(cs, s + t, d) == Count(cs, s, d) + Count(cs, t, d)
  {
    if cs != [] {
      CountSplitsSources(cs[..|cs| - 1], s, t, d);
    }
  }

  lemma {:induction false} CountSplitsDestinations(cs: seq<Connection>, s: set<NodeId>, d: set<NodeId>, e: set<NodeId>)
    requires d !! e
    ensures Count(cs, s, d + e) == Count(cs, s, d) + Count(cs, s, e)
  {
    if cs != [] {
      CountSplitsDestinations(cs[..|cs| - 1], s, d, e);
    }
  }

  lemma {:induction false} CountZero(cs: seq<Connection>, s: set<NodeId>, d: set<NodeId>)
    ensures Count(cs, s, d) == 0 <==>
              forall i :: 0 <= i < |cs| ==> cs[i].source !in s || cs[i].destination !in d
  {
    if cs != [] {
      var rest := cs[..|cs| - 1];
      CountZero(rest, s, d);
      assert forall i :: 0 <= i < |rest| ==> rest[i] == cs[i];
    }
  }

  lemma CountNext(cs: seq<Connection>, i: nat, s: set<NodeId>, d: set<NodeId>)
    requires i < |cs|
    ensures Count(cs[..i + 1], s, d) ==
            Count(cs[..i], s, d) + if cs[i].source in s && cs[i].destination in d then 1 else 0
  {
    assert cs[..i + 1][..i] == cs[..i];
  }

  /** No connection to id from the given sources: nothing in them feeds id. */
  lemma CountZeroMeansNotFed(g: Graph, s: set<NodeId>, id: NodeId)
    ensures Count(g.connections, s, {id}) == 0 <==> forall a :: a in s ==> !g.Feeds(a, id)
  {
    CountZero(g.connections, s, {id});
    if Count(g.connections, s, {id}) != 0 {
      var i :| 0 <= i < |g.connections| && g.connections[i].source in s && g.connections[i].destination in {id};
      assert g.Feeds(g.connections[i].source, id);
    }
  }

  /** The destinations of a node's outgoing connections inside nodes, one entry per connection. */
  function ConsumersOf(cs: seq<Connection>, id: NodeId, nodes: set<NodeId>): seq<NodeId> {
    if cs == [] then []
    else
      ConsumersOf(cs[..|cs| - 1], id, nodes) +
      if cs[|cs| - 1].source == id && cs[|cs| - 1].destination in nodes then [cs[|cs| - 1].destination] else []
  }

  lemma ConsumersNext(cs: seq<Connection>, i: nat, id: NodeId, nodes: set<NodeId>)
    requires i < |cs|
    ensures ConsumersOf(cs[..i + 1], id, nodes) ==
            ConsumersOf(cs[..i], id, nodes) +
            if cs[i].source == id && cs[i].destination in nodes then [cs[i].destination] else []
  {
    assert cs[..i + 1][..i] == cs[..i];
  }

  lemma {:induction false} ConsumersCount(cs: seq<Connection>, id: NodeId, nodes: set<NodeId>)
    ensures |ConsumersOf(cs, id, nodes)| == Count(cs, {id}, nodes)
    ensures forall d :: d in nodes ==> multiset(ConsumersOf(cs, id, nodes))[d] == Count(cs, {id}, {d})
    ensures forall d :: d in ConsumersOf(cs, id, nodes) ==> d in nodes
  {
    if cs != [] {
      ConsumersCount(cs[..|cs| - 1], id, nodes);
    }
  }

  // ---- Cycle detection and deterministic topological sort ---------------------------------------

  /** What remains to be subtracted from each in-degree: connections from nodes not yet placed. */
  ghost predicate DegreesCount(
    g: Graph, nodes: set<NodeId>, placed: set<NodeId>, pending: multiset<NodeId>, inDegree: map<NodeId, nat>)
  {
    && inDegree.Keys == nodes
    && forall d :: d in nodes ==> inDegree[d] == Count(g.connections, nodes - placed, {d}) + pending[d]
  }

  ghost predicate ReadyAreZero(nodes: set<NodeId>, placed: set<NodeId>, ready: set<NodeId>, inDegree: map<NodeId, nat>)
    requires inDegree.Keys == nodes
  {
    forall d :: d in ready <==> d in nodes && d !in placed && inDegree[d] == 0
  }

  ghost predicate DegreesOf(cs: seq<Connection>, nodes: set<NodeId>, inDegree: map<NodeId, nat>) {
    inDegree.Keys == nodes && forall d :: d in nodes ==> inDegree[d] == Count(cs, nodes, {d})
  }

  ghost predicate ConsumerLists(cs: seq<Connection>, nodes: set<NodeId>, consumers: map<NodeId, seq<NodeId>>) {
    consumers.Keys == nodes && forall s :: s in nodes ==> consumers[s] == ConsumersOf(cs, s, nodes)
  }

  lemma DegreesNext(cs: seq<Connection>, i: nat, nodes: set<NodeId>, inDegree: map<NodeId, nat>)
    requires i < |cs| && DegreesOf(cs[..i], nodes, inDegree)
    ensures DegreesOf(cs[..i + 1], nodes,
                      if cs[i].source in nodes && cs[i].destination in nodes
                      then inDegree[cs[i].destination := inDegree[cs[i].destination] + 1] else inDegree)
  {
    forall d | d in nodes
      ensures Count(cs[..i + 1], nodes, {d}) ==
              inDegree[d] + if cs[i].source in nodes && cs[i].destination == d then 1 else 0
    {
      CountNext(cs, i, nodes, {d});
    }
  }

  lemma ConsumersListNext(cs: seq<Connection>, i: nat, nodes: set<NodeId>, consumers: map<NodeId, seq<NodeId>>)
    requires i < |cs| && ConsumerLists(cs[..i], nodes, consumers)
    ensures ConsumerLists(cs[..i + 1], nodes,
                          if cs[i].source in nodes && cs[i].destination in nodes
                          then consumers[cs[i].source := consumers[cs[i].source] + [cs[i].destination]] else consumers)
  {
    forall s | s in nodes
      ensures ConsumersOf(cs[..i + 1], s, nodes) ==
              if cs[i].source == s && cs[i].destination in nodes then consumers[s] + [cs[i].destination] else consumers[s]
    {
      ConsumersNext(cs, i, s, nodes);
    }
  }

  method CountDegrees(g: Graph, nodes: set<NodeId>)
    returns (inDegree: map<NodeId, nat>, consumers: map<NodeId, seq<NodeId>>)
    ensures DegreesCount(g, nodes, {}, multiset{}, inDegree)
    ensures ConsumerLists(g.connections, nodes, consumers)
  {
    inDegree := map id | id in nodes :: 0;
    consumers := map id | id in nodes :: [];
    var cs := g.connections;
    for i := 0 to |cs|
      invariant DegreesOf(cs[..i], nodes, inDegree) && ConsumerLists(cs[..i], nodes, consumers)
    {
      DegreesNext(cs, i, nodes, inDegree);
      ConsumersListNext(cs, i, nodes, consumers);
      if cs[i].source in nodes && cs[i].destination in nodes {
        inDegree := inDegree[cs[i].destination := inDegree[cs[i].destination] + 1];
        consumers := consumers[cs[i].source := consumers[cs[i].source] + [cs[i].destination]];
      }
    }
    assert cs[..|cs|] == cs && nodes - {} == nodes;
  }

  /** *ready.begin() of a std::set ordered by index. */
  method LeastIndex(ready: set<NodeId>) returns (least: NodeId)
    requires ready != {}
    ensures least in ready && forall id :: id in ready ==> least.index <= id.index
  {
    least :| least in ready;
    var rest := ready - {least};
    while rest != {}
      invariant rest <= ready && least in ready
      invariant forall id :: id in ready && id !in rest ==> least.index <= id.index
      decreases rest
    {
      var id :| id in rest;
      rest := rest - {id};
      if id.index < least.index {
        least := id;
      }
    }
  }

  /** Placing a node moves its outgoing connections from the unplaced count to the pending one. */
  lemma PlaceNode(
    g: Graph, nodes: set<NodeId>, placed: set<NodeId>, current: NodeId, inDegree: map<NodeId, nat>)
    requires DegreesCount(g, nodes, placed, multiset{}, inDegree)
    requires current in nodes && current !in placed
    ensures DegreesCount(g, nodes, placed + {current}, multiset(ConsumersOf(g.connections, current, nodes)), inDegree)
    ensures forall d :: d in ConsumersOf(g.connections, current, nodes) ==> d in nodes
  {
    ConsumersCount(g.connections, current, nodes);
    var left := nodes - (placed + {current});
    assert nodes - placed == left + {current};
    forall d | d in nodes
      ensures inDegree[d] == Count(g.connections, left, {d}) + multiset(ConsumersOf(g.connections, current, nodes))[d]
    {
      CountSplitsSources(g.connections, left, {current}, {d});
    }
  }

  /** Between two placements, the ready set holds exactly the nodes that could come next. */
  lemma ReadyIsReadyAfter(
    g: Graph, nodes: set<NodeId>, order: seq<NodeId>, ready: set<NodeId>, inDegree: map<NodeId, nat>)
    requires g.ClosedUnderSources(nodes) && Elements(order) <= nodes
    requires DegreesCount(g, nodes, Elements(order), multiset{}, inDegree)
    requires ReadyAreZero(nodes, Elements(order), ready, inDegree)
    ensures forall id :: id in ready <==> g.ReadyAfter(nodes, order, id)
  {
    forall id ensures id in ready <==> g.ReadyAfter(nodes, order, id) {
      CountZeroMeansNotFed(g, nodes - Elements(order), id);
      if id in nodes && id !in order {
        assert (forall a :: a in nodes - Elements(order) ==> !g.Feeds(a, id)) <==>
               (forall a :: g.Feeds(a, id) ==> a in order);
      }
    }
  }

  lemma TakeReady(
    nodes: set<NodeId>, placed: set<NodeId>, ready: set<NodeId>, inDegree: map<NodeId, nat>, current: NodeId)
    requires inDegree.Keys == nodes && ReadyAreZero(nodes, placed, ready, inDegree) && current in ready
    requires PlacedAreZero(nodes, placed, inDegree)
    ensures current in nodes && current !in placed
    ensures ReadyAreZero(nodes, placed + {current}, ready - {current}, inDegree)
    ensures PlacedAreZero(nodes, placed + {current}, inDegree)
  {
  }

  ghost predicate PlacedAreZero(nodes: set<NodeId>, placed: set<NodeId>, inDegree: map<NodeId, nat>)
    requires inDegree.Keys == nodes
  {
    forall d :: d in placed && d in nodes ==> inDegree[d] == 0
  }

  method TopologicalSort(g: Graph, nodes: set<NodeId>) returns (order: seq<NodeId>)
    requires g.WellFormed() && g.ClosedUnderSources(nodes) && g.AllValid(nodes)
    ensures g.GreedyOrder(nodes, order) && |order| <= |nodes|
    ensures |order| == |nodes| <==> !g.HasCycle(nodes)
    ensures |order| == |nodes| ==> g.TopologicalOrder(nodes, order)
  {
    var inDegree, consumers := CountDegrees(g, nodes);
    var ready := set id | id in nodes && inDegree[id] == 0;
    order := [];
    assert Elements(order) == {};
    while ready != {}
      invariant g.GreedyOrder(nodes, order) && Elements(order) <= nodes
      invariant DegreesCount(g, nodes, Elements(order), multiset{}, inDegree)
      invariant ReadyAreZero(nodes, Elements(order), ready, inDegree)
      invariant PlacedAreZero(nodes, Elements(order), inDegree)
      decreases nodes - Elements(order)
    {
      ReadyIsReadyAfter(g, nodes, order, ready, inDegree);
      var current := LeastIndex(ready);
      TakeReady(nodes, Elements(order), ready, inDegree, current);
      PlaceNode(g, nodes, Elements(order), current, inDegree);
      GreedyExtends(g, nodes, order, current);
      ready := ready - {current};
      order := order + [current];
      inDegree, ready := RelaxConsumers(g, nodes, Elements(order), consumers[current], inDegree, ready);
    }
    ReadyIsReadyAfter(g, nodes, order, ready, inDegree);
    SortVerdict(g, nodes, order);
  }

  lemma GreedyExtends(g: Graph, nodes: set<NodeId>, order: seq<NodeId>, next: NodeId)
    requires g.GreedyOrder(nodes, order) && g.ReadyAfter(nodes, order, next)
    requires forall id :: g.ReadyAfter(nodes, order, id) ==> next.index <= id.index
    ensures g.GreedyOrder(nodes, order + [next])
    ensures Elements(order + [next]) == Elements(order) + {next}
  {
    var longer := order + [next];
    forall k | 0 <= k < |longer|
      ensures g.ReadyAfter(nodes, longer[..k], longer[k])
      ensures forall id :: g.ReadyAfter(nodes, longer[..k], id) ==> longer[k].index <= id.index
    {
      if k < |order| {
        assert longer[..k] == order[..k];
      } else {
        assert longer[..k] == order;
      }
    }
  }

  /** The inner loop of the sort. The subtraction never underflows: a pending connection is still
      counted. */
  method RelaxConsumers(
    g: Graph, nodes: set<NodeId>, ghost placed: set<NodeId>, list: seq<NodeId>,
    inDegree: map<NodeId, nat>, ready: set<NodeId>)
    returns (degreesAfter: map<NodeId, nat>, readyAfter: set<NodeId>)
    requires DegreesCount(g, nodes, placed, multiset(list), inDegree)
    requires ReadyAreZero(nodes, placed, ready, inDegree)
    requires forall d :: d in list ==> d in nodes
    requires PlacedAreZero(nodes, placed, inDegree)
    ensures DegreesCount(g, nodes, placed, multiset{}, degreesAfter)
    ensures ReadyAreZero(nodes, placed, readyAfter, degreesAfter)
    ensures PlacedAreZero(nodes, placed, degreesAfter)
  {
    degreesAfter, readyAfter := inDegree, ready;
    assert list[0..] == list;
    for j := 0 to |list|
      invariant DegreesCount(g, nodes, placed, multiset(list[j..]), degreesAfter)
      invariant ReadyAreZero(nodes, placed, readyAfter, degreesAfter)
      invariant PlacedAreZero(nodes, placed, degreesAfter)
    {
      var consumer := list[j];
      MultisetSplit(list, j);
      assert multiset(list[j..])[consumer] >= 1 && consumer in list;
      degreesAfter := degreesAfter[consumer := degreesAfter[consumer] - 1];
      if degreesAfter[consumer] == 0 {
        readyAfter := readyAfter + {consumer};
      }
    }
  }

  /** When nothing is ready any more, either every node is placed or the rest holds a cycle. */
  lemma SortVerdict(g: Graph, nodes: set<NodeId>, order: seq<NodeId>)
    requires g.ClosedUnderSources(nodes) && g.GreedyOrder(nodes, order)
    requires forall id :: !g.ReadyAfter(nodes, order, id)
    ensures |order| <= |nodes|
    ensures |order| == |nodes| <==> !g.HasCycle(nodes)
    ensures |order| == |nodes| ==> g.TopologicalOrder(nodes, order)
  {
    GreedyDistinct(g, nodes, order);
    DistinctCardinality(order);
    SubsetCardinality(Elements(order), nodes);
    if |order| == |nodes| {
      GreedyIsTopological(g, nodes, order);
      OrderedMeansAcyclic(g, nodes, order);
    } else {
      var stuck := nodes - Elements(order);
      if stuck == {} {
        forall id | id in nodes ensures id in Elements(order) {
          assert id !in stuck;
        }
        SubsetCardinality(nodes, Elements(order));
        assert false;
      }
      forall b | b in stuck ensures FedFrom(g, stuck, b) {
        assert !g.ReadyAfter(nodes, order, b);
        var a :| g.Feeds(a, b) && a !in order;
        assert a in stuck;
      }
      StuckMeansCyclic(g, stuck, nodes);
    }
  }
}
