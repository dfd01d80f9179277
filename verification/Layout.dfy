/** The virtual screen topology (crates/input-router/src/layout.rs). */
module ScreenLayout {
  import opened Core

  datatype Edge = Left | Right | Top | Bottom {
    function Opposite(): Edge {
      match this
      case Left => Right
      case Right => Left
      case Top => Bottom
      case Bottom => Top
    }

    /** Where the edge points; y grows downwards. */
    function Vector(): (int, int) {
      match this
      case Left => (-1, 0)
      case Right => (1, 0)
      case Top => (0, -1)
      case Bottom => (0, 1)
    }
  }

  /** `f` points the other way. */
  predicate Faces(e: Edge, f: Edge) {
    f.Vector() == (-e.Vector().0, -e.Vector().1)
  }

  /** The opposite edge points the other way, and no other edge does. */
  lemma OppositeFaces()
    ensures Left.Vector() == (-1, 0) && Right.Vector() == (1, 0) && Top.Vector() == (0, -1) && Bottom.Vector() == (0, 1)
    ensures forall e: Edge, f: Edge :: Faces(e, f) <==> f == e.Opposite()
  {
    forall e: Edge, f: Edge
      ensures Faces(e, f) <==> f == e.Opposite()
    {
    }
  }

  datatype Screen = Screen(node: NodeId, width: u32, height: u32)

  type Slot = (NodeId, Edge)

  type Adjacency = map<Slot, NodeId>

  function NeighborIn(adj: Adjacency, node: NodeId, edge: Edge): Option<NodeId> {
    if (node, edge) in adj then Some(adj[(node, edge)]) else None
  }

  function Joined(adj: Adjacency, from: NodeId, edge: Edge, to: NodeId): Adjacency {
    adj[(from, edge) := to][(to, edge.Opposite()) := from]
  }

  /** Walking off an edge and straight back always returns, and only then. */
  ghost predicate Involution(adj: Adjacency) {
    forall a: NodeId, e: Edge, b: NodeId, f: Edge ::
      NeighborIn(adj, a, e) == Some(b) && Faces(e, f) ==> NeighborIn(adj, b, f) == Some(a)
  }

  /** Both slots are free, or taken by each other already. */
  ghost predicate Compatible(adj: Adjacency, from: NodeId, edge: Edge, to: NodeId) {
    && NeighborIn(adj, from, edge) in {None, Some(to)}
    && forall back: Edge :: Faces(edge, back) ==> NeighborIn(adj, to, back) in {None, Some(from)}
  }

  /** What lies across this edge has the node across the opposite one. */
  ghost predicate MirroredAt(adj: Adjacency, a: NodeId, e: Edge) {
    NeighborIn(adj, a, e).Some? ==> NeighborIn(adj, NeighborIn(adj, a, e).value, e.Opposite()) == Some(a)
  }

  ghost predicate Mirrored(adj: Adjacency) {
    forall a: NodeId, e: Edge {:trigger MirroredAt(adj, a, e)} :: MirroredAt(adj, a, e)
  }

  lemma MirroredIsInvolution(adj: Adjacency)
    ensures Mirrored(adj) <==> Involution(adj)
  {
    OppositeFaces();
    if Mirrored(adj) {
      forall a: NodeId, e: Edge, b: NodeId, f: Edge | NeighborIn(adj, a, e) == Some(b) && Faces(e, f)
        ensures NeighborIn(adj, b, f) == Some(a)
      {
        assert MirroredAt(adj, a, e);
      }
    }
    if Involution(adj) {
      forall a: NodeId, e: Edge
        ensures MirroredAt(adj, a, e)
      {
        assert Faces(e, e.Opposite());
      }
    }
  }

  lemma CompatibleConnect(adj: Adjacency, from: NodeId, edge: Edge, to: NodeId)
    requires Mirrored(adj)
    requires NeighborIn(adj, from, edge) in {None, Some(to)}
    requires NeighborIn(adj, to, edge.Opposite()) in {None, Some(from)}
    ensures Mirrored(Joined(adj, from, edge, to))
  {
    var after, back := Joined(adj, from, edge, to), edge.Opposite();
    forall a: NodeId, e: Edge
      ensures MirroredAt(after, a, e)
    {
      assert MirroredAt(adj, a, e);
      assert e.Opposite().Opposite() == e && back.Opposite() == edge && back != edge;
    }
  }

  /** Connecting keeps the layout symmetric exactly when it overwrites nothing. */
  lemma ConnectKeepsInvolution(adj: Adjacency, from: NodeId, edge: Edge, to: NodeId)
    requires Involution(adj)
    ensures Involution(Joined(adj, from, edge, to)) <==> Compatible(adj, from, edge, to)
  {
    var after, back := Joined(adj, from, edge, to), edge.Opposite();
    OppositeFaces();
    if Compatible(adj, from, edge, to) {
      assert Faces(edge, back);
      MirroredIsInvolution(adj);
      CompatibleConnect(adj, from, edge, to);
      MirroredIsInvolution(after);
    } else if (from, edge) in adj && adj[(from, edge)] != to {
      var lost := adj[(from, edge)];
      assert NeighborIn(adj, from, edge) == Some(lost) && Faces(edge, back) && Faces(back, edge);
      assert NeighborIn(after, lost, back) == Some(from);
    } else {
      var lost := adj[(to, back)];
      assert NeighborIn(adj, to, back) == Some(lost) && Faces(back, edge) && Faces(edge, back);
      assert NeighborIn(after, lost, edge) == Some(to);
    }
  }

  datatype Call = Call(from: NodeId, edge: Edge, to: NodeId)

  function JoinAll(calls: seq<Call>): Adjacency {
    if calls == [] then map[]
    else
      var c := calls[|calls| - 1];
      Joined(JoinAll(calls[..|calls| - 1]), c.from, c.edge, c.to)
  }

  /** No call overwrites a pairing that the earlier calls made. */
  ghost predicate AllCompatible(calls: seq<Call>) {
    forall i :: 0 <= i < |calls| ==> Compatible(JoinAll(calls[..i]), calls[i].from, calls[i].edge, calls[i].to)
  }

  lemma {:induction false} CompatibleCallsPair(calls: seq<Call>)
    requires AllCompatible(calls)
    ensures Involution(JoinAll(calls))
  {
    if calls != [] {
      var front, c := calls[..|calls| - 1], calls[|calls| - 1];
      forall i | 0 <= i < |front|
        ensures Compatible(JoinAll(front[..i]), front[i].from, front[i].edge, front[i].to)
      {
        assert front[..i] == calls[..i];
      }
      CompatibleCallsPair(front);
      ConnectKeepsInvolution(JoinAll(front), c.from, c.edge, c.to);
    }
  }

  /** Every layout built by compatible calls is a partial involution: `b` lies
      across an edge of `a` if and only if `a` lies across the edge of `b` that
      points the other way. */
  lemma BuiltLayoutsAreInvolutions(calls: seq<Call>, a: NodeId, e: Edge, b: NodeId, f: Edge)
    requires AllCompatible(calls) && f.Vector() == (-e.Vector().0, -e.Vector().1)
    ensures NeighborIn(JoinAll(calls), a, e) == Some(b) <==> NeighborIn(JoinAll(calls), b, f) == Some(a)
  {
    CompatibleCallsPair(calls);
    assert Faces(e, f) && Faces(f, e);
  }

  class Layout {
    var screens: map<NodeId, Screen>
    var adjacency: Adjacency

    constructor ()
      ensures screens == map[] && adjacency == map[]
    {
      screens, adjacency := map[], map[];
    }

    function Neighbor(node: NodeId, edge: Edge): Option<NodeId>
      reads this
    {
      NeighborIn(adjacency, node, edge)
    }

    method SetScreen(screen: Screen)
      modifies this`screens
      ensures screens == old(screens)[screen.node := screen]
    {
      screens := screens[screen.node := screen];
    }

    method Connect(from: NodeId, edge: Edge, to: NodeId)
      modifies this`adjacency
      ensures adjacency == Joined(old(adjacency), from, edge, to)
      ensures forall back: Edge :: back.Vector() == (-edge.Vector().0, -edge.Vector().1) ==>
        && Neighbor(from, edge) == Some(to) && Neighbor(to, back) == Some(from)
        && forall n: NodeId, e: Edge :: (n, e) != (from, edge) && (n, e) != (to, back) ==>
             Neighbor(n, e) == NeighborIn(old(adjacency), n, e)
    {
      OppositeFaces();
      adjacency := adjacency[(from, edge) := to];
      adjacency := adjacency[(to, edge.Opposite()) := from];
    }
  }
}
