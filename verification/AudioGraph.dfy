/** The mutable graph the control thread edits (src/lavanda/graph/graph.cc). */
module Editing {
  import opened Prelude
  import opened Signals
  import opened GraphModel

  class AudioGraph {
    const maxNodes: nat
    const maxConnections: nat
    var slots: seq<Slot>
    var connections: seq<Connection>
    var output: NodeId

    ghost function Value(): Graph
      reads this
    {
      Graph(slots, connections, output)
    }

    ghost predicate Valid()
      reads this
    {
      && maxNodes <= INVALID_INDEX
      && |slots| <= maxNodes
      && |connections| <= maxConnections
      && Value().WellFormed()
    }

    constructor (maxNodes: nat, maxConnections: nat)
      requires maxNodes <= INVALID_INDEX
      ensures Valid() && Value() == Graph([], [], NO_NODE)
      ensures this.maxNodes == maxNodes && this.maxConnections == maxConnections
    {
      this.maxNodes := maxNodes;
      this.maxConnections := maxConnections;
      slots, connections, output := [], [], NO_NODE;
    }

    method AddNode(node: AudioNode) returns (r: Result<NodeId>)
      requires Valid() && node.WellBehaved()
      modifies this`slots
      ensures Valid()
      ensures r.Failure? <==> |old(slots)| >= maxNodes && forall i :: 0 <= i < |old(slots)| ==> old(slots)[i].inUse
      ensures r.Failure? ==> r.status == ResourceExhausted && slots == old(slots)
      ensures r.Success? ==>
                && !old(Value().IsValidNode(r.value)) && Value().IsValidNode(r.value)
                && Value().GetNode(r.value) == node
                && r.value.index <= |old(slots)|
                && (forall i :: 0 <= i < r.value.index ==> old(slots)[i].inUse)
                && (r.value.index < |old(slots)| ==> r.value.generation == old(slots)[r.value.index].generation + 1)
      ensures forall id :: old(Value().IsValidNode(id)) ==>
                             Value().IsValidNode(id) && Value().GetNode(id) == old(Value().GetNode(id))
      ensures forall id :: Value().IsValidNode(id) && !old(Value().IsValidNode(id)) ==> r == Success(id)
    {
      for i := 0 to |slots|
        invariant forall j :: 0 <= j < i ==> slots[j].inUse
        invariant slots == old(slots)
      {
        if !slots[i].inUse {
          var generation := slots[i].generation + 1;
          slots := slots[i := Slot(Some(node), generation, true)];
          return Success(NodeId(i, generation));
        }
      }
      if |slots| >= maxNodes {
        return Failure(ResourceExhausted);
      }
      slots := slots + [Slot(Some(node), 1, true)];
      return Success(NodeId(|slots| - 1, 1));
    }

    method RemoveNode(id: NodeId)
      requires Valid()
      modifies this
      ensures Valid()
      ensures !old(Value().IsValidNode(id)) ==> Value() == old(Value())
      ensures !Value().IsValidNode(id)
      ensures forall other :: other != id ==> Value().IsValidNode(other) == old(Value().IsValidNode(other))
      ensures forall other :: Value().IsValidNode(other) ==> Value().GetNode(other) == old(Value().GetNode(other))
      ensures old(Value().IsValidNode(id)) ==>
                && connections == Without(old(connections), (c: Connection) => c.source == id || c.destination == id)
                && output == if old(output) == id then NO_NODE else old(output)
    {
      if !(id.index < |slots| && slots[id.index].inUse && slots[id.index].generation == id.generation) {
        return;
      }
      RemovalKeepsForm(Value(), id);
      slots := slots[id.index := slots[id.index].(inUse := false, node := None)];
      connections := Without(connections, (c: Connection) => c.source == id || c.destination == id);
      if output == id {
        output := NO_NODE;
      }
    }

    method Connect(source: NodeId, destination: NodeId, input: nat) returns (status: Status)
      requires Valid()
      modifies this`connections
      ensures Valid()
      ensures connections == if status == Ok then old(connections) + [Connection(source, destination, input)]
                             else old(connections)
      ensures status == Ok <==>
                && old(Value().IsValidNode(source)) && old(Value().IsValidNode(destination))
                && source != destination
                && input < Value().GetNode(destination).expectedInputs
                && !old(Value().InputConnected(destination, input))
                && Value().GetNode(source).outputChannels == Value().GetNode(destination).inputChannels
                && |old(connections)| < maxConnections
      ensures status in {Ok, InvalidArgument, ResourceExhausted}
      ensures status == ResourceExhausted ==> |old(connections)| >= maxConnections
    {
      var g := Graph(slots, connections, output);
      if !g.IsValidNode(source) || !g.IsValidNode(destination) {
        return InvalidArgument;
      }
      if source == destination {
        return InvalidArgument;
      }
      if input >= g.GetNode(destination).expectedInputs {
        return InvalidArgument;
      }
      for i := 0 to |connections|
        invariant forall j :: 0 <= j < i ==> connections[j].destination != destination || connections[j].input != input
      {
        if connections[i].destination == destination && connections[i].input == input {
          assert g.Drives(connections[i], destination, input);
          return InvalidArgument;
        }
      }
      if g.GetNode(source).outputChannels != g.GetNode(destination).inputChannels {
        return InvalidArgument;
      }
      if |connections| >= maxConnections {
        return ResourceExhausted;
      }
      connections := connections + [Connection(source, destination, input)];
      return Ok;
    }

    method Disconnect(destination: NodeId, input: nat)
      requires Valid()
      modifies this`connections
      ensures Valid() && !Value().InputConnected(destination, input)
      ensures connections ==
              Without(old(connections), (c: Connection) => c.destination == destination && c.input == input)
    {
      ghost var before := Value();
      var drives := (c: Connection) => c.destination == destination && c.input == input;
      WithoutKeepsOrder(connections, drives);
      connections := Without(connections, drives);
      forall i | 0 <= i < |connections| ensures Value().ConnectionFits(connections[i]) {
        assert connections[i] in before.connections && before.ConnectionFits(connections[i]);
      }
    }

    method SetOutput(id: NodeId) returns (status: Status)
      requires Valid()
      modifies this`output
      ensures Valid()
      ensures status == if Value().IsValidNode(id) then Ok else InvalidArgument
      ensures output == if status == Ok then id else old(output)
    {
      if !(id.index < |slots| && slots[id.index].inUse && slots[id.index].generation == id.generation) {
        return InvalidArgument;
      }
      output := id;
      return Ok;
    }
  }

  /** std::remove_if followed by erase. */
  function Without(s: seq<Connection>, drop: Connection -> bool): seq<Connection> {
    if s == [] then []
    else if drop(s[|s| - 1]) then Without(s[..|s| - 1], drop)
    else Without(s[..|s| - 1], drop) + [s[|s| - 1]]
  }

  function WithoutNode(g: Graph, id: NodeId): Graph
    requires g.IsValidNode(id)
  {
    Graph(
      g.slots[id.index := g.slots[id.index].(inUse := false, node := None)],
      Without(g.connections, (c: Connection) => c.source == id || c.destination == id),
      if g.output == id then NO_NODE else g.output)
  }

  lemma RemovalKeepsForm(g: Graph, id: NodeId)
    requires g.WellFormed() && g.IsValidNode(id)
    ensures WithoutNode(g, id).WellFormed() && |WithoutNode(g, id).connections| <= |g.connections|
    ensures forall other :: WithoutNode(g, id).IsValidNode(other) == (g.IsValidNode(other) && other != id)
    ensures forall other :: WithoutNode(g, id).IsValidNode(other) ==>
                              WithoutNode(g, id).GetNode(other) == g.GetNode(other)
  {
    var after := WithoutNode(g, id);
    var touches := (c: Connection) => c.source == id || c.destination == id;
    WithoutKeepsOrder(g.connections, touches);
    assert after.SlotsHoldNodes();
    forall i | 0 <= i < |after.connections| ensures after.ConnectionFits(after.connections[i]) {
      assert after.connections[i] in g.connections && g.ConnectionFits(after.connections[i]);
    }
    assert NoSharedInput(g.connections);
  }

  ghost predicate NoSharedInput(s: seq<Connection>) {
    forall i, j :: 0 <= i < j < |s| ==> s[i].destination != s[j].destination || s[i].input != s[j].input
  }

  /** What remains is exactly what should not be dropped, and an input driven at most once stays
      driven at most once. */
  lemma {:induction false} WithoutKeepsOrder(s: seq<Connection>, drop: Connection -> bool)
    ensures |Without(s, drop)| <= |s|
    ensures forall c :: c in Without(s, drop) <==> c in s && !drop(c)
    ensures NoSharedInput(s) ==> NoSharedInput(Without(s, drop))
  {
    if s != [] {
      WithoutKeepsOrder(s[..|s| - 1], drop);
      assert s == s[..|s| - 1] + [s[|s| - 1]];
      var rest := Without(s[..|s| - 1], drop);
      if NoSharedInput(s) && !drop(s[|s| - 1]) {
        forall i | 0 <= i < |rest|
          ensures rest[i].destination != s[|s| - 1].destination || rest[i].input != s[|s| - 1].input
        {
          assert rest[i] in s[..|s| - 1];
        }
      }
    }
  }
}
