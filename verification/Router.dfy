/** The edge-crossing input router (crates/input-router/src/router.rs). It hands
    the cursor over at most once: nothing ever brings it back. */
module InputRouter {
  import opened Core
  import opened ScreenLayout
  import opened Modifiers

  datatype Routed = Local(event: InputEvent) | Remote(target: NodeId, event: InputEvent)

  /** Two's-complement wrap-around, as additions and casts behave when overflow
      checks are off. */
  function Wrap(n: int): i32 {
    (n + 0x8000_0000) % 0x1_0000_0000 - 0x8000_0000
  }

  /** Division by two rounding towards zero. */
  function Half(n: i32): i32 {
    if n < 0 then -((-(n as int)) / 2) else n / 2
  }

  /** The wrapped value is the one that differs by a multiple of 2^32. */
  lemma WrapIsCongruent(n: int)
    ensures (Wrap(n) - n) % 0x1_0000_0000 == 0
    ensures -0x8000_0000 <= n < 0x8000_0000 <==> Wrap(n) == n
  {
  }

  /** `v` is half of `size`, rounded towards zero. */
  predicate IsMiddle(v: int, size: int) {
    if 0 <= size then 2 * v <= size < 2 * v + 2 else 2 * v - 2 < size <= 2 * v
  }

  function Clamp(v: i32, lo: i32, hi: i32): i32
    requires lo <= hi
  {
    if v < lo then lo else if hi < v then hi else v
  }

  datatype RouterState = RouterState(
    selfId: NodeId, active: NodeId, mask: ModifierMask, x: i32, y: i32, width: i32, height: i32)

  function NewRouter(selfId: NodeId, width: u32, height: u32): RouterState {
    var w, h := Wrap(width), Wrap(height);
    RouterState(selfId, selfId, 0, Half(w), Half(h), w, h)
  }

  function CrossedEdge(x: i32, y: i32, width: i32, height: i32): Option<Edge> {
    if x < 0 then Some(Left)
    else if width <= x then Some(Right)
    else if y < 0 then Some(Top)
    else if height <= y then Some(Bottom)
    else None
  }

  /** The crossed edge points to where the cursor went: sideways first, and none
      exactly on the screen. */
  lemma CrossedIsOutward(x: i32, y: i32, width: i32, height: i32)
    requires 1 <= width && 1 <= height
    ensures match CrossedEdge(x, y, width, height)
            case None => 0 <= x < width && 0 <= y < height
            case Some(e) =>
              var (right, down) := e.Vector();
              && (right < 0 <==> x < 0) && (0 < right <==> width <= x)
              && (right == 0 ==> (down < 0 <==> y < 0) && (0 < down <==> height <= y))
  {
  }

  function NextNode(s: RouterState, x: i32, y: i32, adj: Adjacency): Option<NodeId> {
    match CrossedEdge(x, y, s.width, s.height)
    case None => None
    case Some(e) => NeighborIn(adj, s.selfId, e)
  }

  /** A pointer delta. The clamp panics on an empty screen, so the screen is
      taken to have at least one pixel. */
  function Move(s: RouterState, dx: i32, dy: i32, ts: nat, adj: Adjacency): (RouterState, seq<Routed>)
    requires 1 <= s.width && 1 <= s.height
  {
    if s.active != s.selfId then (s, [Remote(s.active, MouseMove(dx, dy, ts))])
    else
      var x, y := Wrap(s.x + dx), Wrap(s.y + dy);
      match NextNode(s, x, y, adj)
      case None =>
        (s.(x := Clamp(x, 0, s.width - 1), y := Clamp(y, 0, s.height - 1)), [Local(MouseMove(dx, dy, ts))])
      case Some(next) =>
        (s.(active := next, x := Half(s.width), y := Half(s.height)),
         [Remote(s.selfId, Leave(next)), Remote(next, Enter(s.selfId, s.mask))])
  }

  function Press(s: RouterState, event: InputEvent): (RouterState, Routed) {
    var t := if event.Key? then s.(mask := UpdateMask(s.mask, event.code, event.down)) else s;
    (t, if s.active == s.selfId then Local(event) else Remote(s.active, event))
  }

  class Router {
    const selfId: NodeId
    var active: NodeId
    const modifiers: ModifierState
    var x: i32
    var y: i32
    const width: i32
    const height: i32

    function View(): RouterState
      reads this, modifiers
    {
      RouterState(selfId, active, modifiers.mask, x, y, width, height)
    }

    constructor (selfId: NodeId, width: u32, height: u32)
      ensures View() == NewRouter(selfId, width, height)
      ensures this.selfId == selfId && active == selfId && modifiers.mask == 0
      ensures (this.width - width) % 0x1_0000_0000 == 0 && (this.height - height) % 0x1_0000_0000 == 0
      ensures IsMiddle(x, this.width) && IsMiddle(y, this.height)
      ensures fresh(modifiers)
    {
      this.selfId, active := selfId, selfId;
      modifiers := new ModifierState();
      var w, h := Wrap(width), Wrap(height);
      x, y := Half(w), Half(h);
      this.width, this.height := w, h;
    }

    method OnMouseMove(dx: i32, dy: i32, ts: nat, layout: Layout) returns (out: seq<Routed>)
      requires 1 <= width && 1 <= height
      modifies this
      ensures (View(), out) == Move(old(View()), dx, dy, ts, layout.adjacency)
      ensures old(active) != selfId ==>
        out == [Remote(old(active), MouseMove(dx, dy, ts))] && active == old(active) && x == old(x) && y == old(y)
    {
      out := [];
      if active != selfId {
        out := out + [Remote(active, MouseMove(dx, dy, ts))];
        assert out == [Remote(active, MouseMove(dx, dy, ts))];
        return;
      }
      x := Wrap(x + dx);
      y := Wrap(y + dy);
      var crossed := CrossedEdge(x, y, width, height);
      var next := if crossed.None? then None else layout.Neighbor(selfId, crossed.value);
      match next {
        case None =>
          x := Clamp(x, 0, width - 1);
          y := Clamp(y, 0, height - 1);
          out := out + [Local(MouseMove(dx, dy, ts))];
          assert out == [Local(MouseMove(dx, dy, ts))];
        case Some(node) =>
          out := out + [Remote(selfId, Leave(node))];
          out := out + [Remote(node, Enter(selfId, modifiers.mask))];
          assert out == [Remote(selfId, Leave(node)), Remote(node, Enter(selfId, modifiers.mask))];
          active := node;
          x := Half(width);
          y := Half(height);
      }
    }

    method OnKey(event: InputEvent) returns (out: Routed)
      modifies modifiers
      ensures (View(), out) == Press(old(View()), event)
      ensures out == if active == selfId then Local(event) else Remote(active, event)
      ensures forall c: nat :: IsHeld(modifiers.mask, c) <==>
        if event.Key? && c == event.code then LCTRL <= c < LCTRL + 8 && event.down else IsHeld(old(modifiers.mask), c)
    {
      if event.Key? {
        var _ := modifiers.Update(event.code, event.down);
      }
      out := if active == selfId then Local(event) else Remote(active, event);
    }
  }

  // ----- runs -----

  /** A pointer delta under whatever layout holds at that moment, or any event
      passed to the key handler. */
  datatype Stimulus = Pointer(dx: i32, dy: i32, ts: nat, adj: Adjacency) | Keyed(event: InputEvent)

  function React(s: RouterState, input: Stimulus): (RouterState, seq<Routed>)
    requires 1 <= s.width && 1 <= s.height
  {
    match input
    case Pointer(dx, dy, ts, adj) => Move(s, dx, dy, ts, adj)
    case Keyed(event) => var (t, r) := Press(s, event); (t, [r])
  }

  ghost predicate InScreen(s: RouterState) {
    0 <= s.x < s.width && 0 <= s.y < s.height
  }

  /** The cursor is on the screen in every state of every run, whatever the
      deltas are. */
  lemma ReactStaysInScreen(s: RouterState, input: Stimulus)
    requires InScreen(s)
    ensures InScreen(React(s, input).0)
    ensures React(s, input).0.width == s.width && React(s, input).0.height == s.height
    ensures React(s, input).0.selfId == s.selfId
  {
  }

  lemma NewRouterInScreen(selfId: NodeId, width: u32, height: u32)
    ensures InScreen(NewRouter(selfId, width, height)) <==> 1 <= width < 0x8000_0000 && 1 <= height < 0x8000_0000
  {
  }

  /** A whole run from a starting state, with everything it emitted. */
  function RunFrom(s: RouterState, inputs: seq<Stimulus>): (r: (RouterState, seq<Routed>))
    requires InScreen(s)
    ensures InScreen(r.0) && r.0.selfId == s.selfId && r.0.width == s.width && r.0.height == s.height
  {
    if inputs == [] then (s, [])
    else
      var (t, out) := RunFrom(s, inputs[..|inputs| - 1]);
      ReactStaysInScreen(t, inputs[|inputs| - 1]);
      var (u, more) := React(t, inputs[|inputs| - 1]);
      (u, out + more)
  }

  // ----- cursor arithmetic -----

  predicate AddsExactly(v: int, delta: i32) {
    Wrap(v + delta) == v + delta
  }

  /** The additions cannot overflow, at any cursor position on the screen,
      exactly when the delta is at most i32::MAX - size + 1. */
  lemma NoOverflowIff(size: i32, delta: i32)
    requires 1 <= size
    ensures (forall v :: 0 <= v < size ==> AddsExactly(v, delta)) <==> delta <= 0x7FFF_FFFF - size + 1
  {
    if 0x7FFF_FFFF - size + 1 < delta {
      assert !AddsExactly(size - 1, delta);
    } else {
      forall v | 0 <= v < size
        ensures AddsExactly(v, delta)
      {
      }
    }
  }

  predicate Violates(e: Edge, x: int, y: int, width: int, height: int) {
    match e
    case Left => x < 0
    case Right => width <= x
    case Top => y < 0
    case Bottom => height <= y
  }

  function Rank(e: Edge): nat {
    match e
    case Left => 0
    case Right => 1
    case Top => 2
    case Bottom => 3
  }

  /** `e` is the first violated edge in the order left, right, top, bottom. */
  ghost predicate FirstViolated(e: Edge, x: int, y: int, width: int, height: int) {
    && Violates(e, x, y, width, height)
    && forall f: Edge :: Violates(f, x, y, width, height) ==> Rank(e) <= Rank(f)
  }

  /** `v` is the point of 0..size nearest to `wanted`. */
  predicate Stopped(v: int, wanted: int, size: int) {
    if wanted < 0 then v == 0 else if size <= wanted then v == size - 1 else v == wanted
  }

  lemma FirstViolatedIsCrossed(x: i32, y: i32, width: i32, height: i32)
    ensures forall e: Edge :: FirstViolated(e, x, y, width, height) <==> CrossedEdge(x, y, width, height) == Some(e)
  {
    forall e: Edge
      ensures FirstViolated(e, x, y, width, height) <==> CrossedEdge(x, y, width, height) == Some(e)
    {
      if FirstViolated(e, x, y, width, height) {
        var c := CrossedEdge(x, y, width, height);
        assert c.Some? && Violates(c.value, x, y, width, height);
      }
    }
  }

  /** While the cursor is here and the deltas are bounded, the hand-off happens
      exactly when the first violated edge has a neighbour, and goes there;
      otherwise the cursor moves by the delta and stops at the border. */
  lemma HandOffIff(s: RouterState, dx: i32, dy: i32, ts: nat, adj: Adjacency)
    requires InScreen(s) && s.active == s.selfId
    requires dx <= 0x7FFF_FFFF - s.width + 1 && dy <= 0x7FFF_FFFF - s.height + 1
    ensures var (t, out) := Move(s, dx, dy, ts, adj);
      && (forall n: NodeId ::
            (exists e: Edge ::
               FirstViolated(e, s.x + dx, s.y + dy, s.width, s.height) && NeighborIn(adj, s.selfId, e) == Some(n))
            <==> out == [Remote(s.selfId, Leave(n)), Remote(n, Enter(s.selfId, s.mask))] && t.active == n)
      && (|out| == 2 || out == [Local(MouseMove(dx, dy, ts))])
      && (|out| == 2 ==> IsMiddle(t.x, s.width) && IsMiddle(t.y, s.height))
      && (|out| == 1 ==> t.active == s.active && Stopped(t.x, s.x + dx, s.width) && Stopped(t.y, s.y + dy, s.height))
  {
    var x, y := s.x + dx, s.y + dy;
    assert Wrap(x) == x && Wrap(y) == y;
    var crossed := CrossedEdge(x, y, s.width, s.height);
    FirstViolatedIsCrossed(x, y, s.width, s.height);
    if crossed.Some? {
      assert FirstViolated(crossed.value, x, y, s.width, s.height);
    }
  }

  // ----- the shape of a run's output -----

  ghost predicate AllLocal(out: seq<Routed>) {
    forall i :: 0 <= i < |out| ==> out[i].Local?
  }

  function Events(out: seq<Routed>): seq<InputEvent> {
    seq(|out|, i requires 0 <= i < |out| => out[i].event)
  }

  /** Locals, then one Leave and one Enter, then only frames to that target; and
      the receiver that folds the forwarded keys onto the mask it was entered
      with holds exactly the router's mask. */
  ghost predicate HandedOff(s: RouterState, out: seq<Routed>, cut: nat) {
    && cut + 2 <= |out|
    && s.active != s.selfId
    && AllLocal(out[..cut])
    && out[cut] == Remote(s.selfId, Leave(s.active))
    && out[cut + 1].Remote? && out[cut + 1].target == s.active
    && out[cut + 1].event.Enter? && out[cut + 1].event.from == s.selfId
    && (forall i :: cut + 2 <= i < |out| ==> out[i].Remote? && out[i].target == s.active)
    && FoldKeys(out[cut + 1].event.held, Events(out[cut + 2..])) == s.mask
  }

  ghost predicate TraceShape(s: RouterState, out: seq<Routed>) {
    if s.active == s.selfId then AllLocal(out) else exists cut: nat :: HandedOff(s, out, cut)
  }

  lemma EventsSnoc(out: seq<Routed>, r: Routed)
    ensures Events(out + [r]) == Events(out) + [r.event]
  {
  }

  /** Forwarding one more event keeps the receiver's fold equal to the mask. */
  lemma ForwardedFolds(held: ModifierMask, tail: seq<Routed>, target: NodeId, event: InputEvent)
    ensures var before := FoldKeys(held, Events(tail));
      FoldKeys(held, Events(tail + [Remote(target, event)])) ==
        if event.Key? then UpdateMask(before, event.code, event.down) else before
  {
    EventsSnoc(tail, Remote(target, event));
    FoldSnoc(held, Events(tail), event);
  }

  lemma ForwardedAt(s: RouterState, t: RouterState, out: seq<Routed>, event: InputEvent, cut: nat)
    requires HandedOff(s, out, cut)
    requires t.active == s.active && t.selfId == s.selfId
    requires t.mask == if event.Key? then UpdateMask(s.mask, event.code, event.down) else s.mask
    ensures HandedOff(t, out + [Remote(s.active, event)], cut)
  {
    var after := out + [Remote(s.active, event)];
    assert after[..cut] == out[..cut];
    assert after[cut + 2..] == out[cut + 2..] + [Remote(s.active, event)];
    ForwardedFolds(out[cut + 1].event.held, out[cut + 2..], s.active, event);
  }

  lemma ForwardedKeepsShape(s: RouterState, t: RouterState, out: seq<Routed>, event: InputEvent)
    requires s.active != s.selfId && TraceShape(s, out)
    requires t.active == s.active && t.selfId == s.selfId
    requires t.mask == if event.Key? then UpdateMask(s.mask, event.code, event.down) else s.mask
    ensures TraceShape(t, out + [Remote(s.active, event)])
  {
    var cut: nat :| HandedOff(s, out, cut);
    ForwardedAt(s, t, out, event, cut);
  }

  /** One step keeps the shape, except a hand-off to oneself: exactly a layout
      that makes this node its own neighbour across the crossed edge breaks it. */
  lemma MoveKeepsShapeIff(s: RouterState, out: seq<Routed>, dx: i32, dy: i32, ts: nat, adj: Adjacency)
    requires InScreen(s) && TraceShape(s, out)
    ensures var (t, more) := Move(s, dx, dy, ts, adj);
      TraceShape(t, out + more) <==>
        (s.active == s.selfId ==> NextNode(s, Wrap(s.x + dx), Wrap(s.y + dy), adj) != Some(s.selfId))
  {
    var (t, more) := Move(s, dx, dy, ts, adj);
    if s.active != s.selfId {
      ForwardedKeepsShape(s, t, out, MouseMove(dx, dy, ts));
    } else if t.active != s.selfId {
      assert more == [Remote(s.selfId, Leave(t.active)), Remote(t.active, Enter(s.selfId, s.mask))];
      assert (out + more)[..|out|] == out;
      assert HandedOff(t, out + more, |out|);
    } else if |more| == 2 {
      assert (out + more)[|out|] == more[0];
    }
  }

  lemma PressKeepsShape(s: RouterState, out: seq<Routed>, event: InputEvent)
    requires TraceShape(s, out)
    ensures var (t, r) := Press(s, event); TraceShape(t, out + [r])
  {
    if s.active != s.selfId {
      ForwardedKeepsShape(s, Press(s, event).0, out, event);
    }
  }

  /** A pointer step taken while the cursor is here that hands it to this very
      node. */
  predicate HandsToSelf(s: RouterState, input: Stimulus) {
    && input.Pointer? && s.active == s.selfId
    && NextNode(s, Wrap(s.x + input.dx), Wrap(s.y + input.dy), input.adj) == Some(s.selfId)
  }

  /** No step of the run was such a step. */
  predicate NeverHandsToSelf(start: RouterState, inputs: seq<Stimulus>)
    requires InScreen(start)
  {
    if inputs == [] then true
    else
      var front, last := inputs[..|inputs| - 1], inputs[|inputs| - 1];
      NeverHandsToSelf(start, front) && !HandsToSelf(RunFrom(start, front).0, last)
  }

  /** The first frame to leave the node tells it to leave for itself. */
  ghost predicate SpoiledAt(selfId: NodeId, out: seq<Routed>, i: nat) {
    i < |out| && AllLocal(out[..i]) && out[i] == Remote(selfId, Leave(selfId))
  }

  lemma SpoiledHasNoShape(s: RouterState, out: seq<Routed>, i: nat)
    requires SpoiledAt(s.selfId, out, i)
    ensures !TraceShape(s, out)
  {
    forall cut: nat
      ensures !HandedOff(s, out, cut)
    {
      if cut < i {
        assert out[cut] == out[..i][cut];
      } else if i < cut <= |out| {
        assert out[i] == out[..cut][i];
      }
    }
  }

  lemma SpoiledForGood(selfId: NodeId, out: seq<Routed>, more: seq<Routed>, i: nat)
    requires SpoiledAt(selfId, out, i)
    ensures SpoiledAt(selfId, out + more, i)
  {
    assert (out + more)[..i] == out[..i];
  }

  lemma HandingToSelfSpoils(s: RouterState, out: seq<Routed>, input: Stimulus)
    requires InScreen(s) && TraceShape(s, out) && HandsToSelf(s, input)
    ensures SpoiledAt(s.selfId, out + React(s, input).1, |out|)
  {
    assert (out + React(s, input).1)[..|out|] == out;
  }

  lemma StepKeepsShape(s: RouterState, out: seq<Routed>, input: Stimulus)
    requires InScreen(s) && TraceShape(s, out) && !HandsToSelf(s, input)
    ensures var (t, more) := React(s, input); TraceShape(t, out + more)
  {
    match input
    case Pointer(dx, dy, ts, adj) => MoveKeepsShapeIff(s, out, dx, dy, ts, adj);
    case Keyed(event) => PressKeepsShape(s, out, event);
  }

  /** The shape while it is kept, and what has happened once it is lost. */
  ghost predicate ShapedOrSpoiled(s: RouterState, out: seq<Routed>, kept: bool) {
    if kept then TraceShape(s, out) else exists i: nat :: SpoiledAt(s.selfId, out, i)
  }

  lemma StepShapes(s: RouterState, out: seq<Routed>, input: Stimulus, kept: bool)
    requires InScreen(s) && ShapedOrSpoiled(s, out, kept)
    ensures var (t, more) := React(s, input);
      ShapedOrSpoiled(t, out + more, kept && !HandsToSelf(s, input))
  {
    ReactStaysInScreen(s, input);
    if !kept {
      var i: nat :| SpoiledAt(s.selfId, out, i);
      SpoiledForGood(s.selfId, out, React(s, input).1, i);
    } else if HandsToSelf(s, input) {
      HandingToSelfSpoils(s, out, input);
    } else {
      StepKeepsShape(s, out, input);
    }
  }

  /** The shape of a run, exactly: it is kept to the end if no pointer step
      handed the cursor to this very node; otherwise it is lost for good. */
  lemma {:induction false} RunShape(start: RouterState, inputs: seq<Stimulus>)
    requires InScreen(start) && start.active == start.selfId
    ensures var (s, out) := RunFrom(start, inputs); ShapedOrSpoiled(s, out, NeverHandsToSelf(start, inputs))
  {
    if inputs != [] {
      var front, last := inputs[..|inputs| - 1], inputs[|inputs| - 1];
      RunShape(start, front);
      var (s, out) := RunFrom(start, front);
      StepShapes(s, out, last, NeverHandsToSelf(start, front));
    }
  }

  /** A run has the shape if and only if no pointer step taken while the cursor
      was here handed it to this very node. */
  lemma RunHasShapeIff(start: RouterState, inputs: seq<Stimulus>)
    requires InScreen(start) && start.active == start.selfId
    ensures var (s, out) := RunFrom(start, inputs); TraceShape(s, out) <==> NeverHandsToSelf(start, inputs)
  {
    RunShape(start, inputs);
    var (s, out) := RunFrom(start, inputs);
    if !NeverHandsToSelf(start, inputs) {
      var i: nat :| SpoiledAt(s.selfId, out, i);
      SpoiledHasNoShape(s, out, i);
    }
  }

  ghost predicate NoSelfNeighbor(selfId: NodeId, input: Stimulus) {
    input.Pointer? ==> forall e: Edge :: NeighborIn(input.adj, selfId, e) != Some(selfId)
  }

  lemma {:induction false} NoSelfNeighborNeverHands(start: RouterState, inputs: seq<Stimulus>)
    requires InScreen(start)
    requires forall i :: 0 <= i < |inputs| ==> NoSelfNeighbor(start.selfId, inputs[i])
    ensures NeverHandsToSelf(start, inputs)
  {
    if inputs != [] {
      NoSelfNeighborNeverHands(start, inputs[..|inputs| - 1]);
    }
  }

  /** In particular over layouts without self-neighbours every run has it. */
  lemma RunHasShape(selfId: NodeId, width: u32, height: u32, inputs: seq<Stimulus>)
    requires 1 <= width < 0x8000_0000 && 1 <= height < 0x8000_0000
    requires forall i :: 0 <= i < |inputs| ==> NoSelfNeighbor(selfId, inputs[i])
    ensures InScreen(NewRouter(selfId, width, height))
    ensures var (s, out) := RunFrom(NewRouter(selfId, width, height), inputs); TraceShape(s, out)
  {
    NewRouterInScreen(selfId, width, height);
    NoSelfNeighborNeverHands(NewRouter(selfId, width, height), inputs);
    RunHasShapeIff(NewRouter(selfId, width, height), inputs);
  }

  /** A layout in which the node is its own right-hand neighbour, and one step
      over that edge: the output tells the node to leave for itself. */
  lemma SelfNeighborLosesShape(selfId: NodeId)
    ensures InScreen(NewRouter(selfId, 2, 1))
    ensures var (s, out) := RunFrom(NewRouter(selfId, 2, 1), [Pointer(1, 0, 0, map[(selfId, Right) := selfId])]);
      out == [Remote(selfId, Leave(selfId)), Remote(selfId, Enter(selfId, 0))] && !TraceShape(s, out)
  {
    var start, input := NewRouter(selfId, 2, 1), Pointer(1, 0, 0, map[(selfId, Right) := selfId]);
    assert [input][..0] == [] && RunFrom(start, []) == (start, []);
    assert start.x == 1 && start.y == 0;
    var out := RunFrom(start, [input]).1;
    assert out == React(start, input).1;
    assert out[..0] == [];
    SpoiledHasNoShape(RunFrom(start, [input]).0, out, 0);
  }

  // ----- the modifier mask -----

  function KeysOf(inputs: seq<Stimulus>): seq<InputEvent> {
    if inputs == [] then []
    else
      var front, last := KeysOf(inputs[..|inputs| - 1]), inputs[|inputs| - 1];
      if last.Keyed? then front + [last.event] else front
  }

  lemma {:induction false} MaskFoldsKeys(s: RouterState, inputs: seq<Stimulus>)
    requires InScreen(s)
    ensures RunFrom(s, inputs).0.mask == FoldKeys(s.mask, KeysOf(inputs))
  {
    if inputs != [] {
      var front, last := inputs[..|inputs| - 1], inputs[|inputs| - 1];
      MaskFoldsKeys(s, front);
      if last.Keyed? {
        FoldSnoc(s.mask, KeysOf(front), last.event);
      }
    }
  }

  /** In every reachable state the mask has a key's bit exactly when that
      modifier's last event was a press, before or after the hand-off. */
  lemma MaskIsWhatIsHeld(selfId: NodeId, width: u32, height: u32, inputs: seq<Stimulus>, code: nat)
    requires 1 <= width < 0x8000_0000 && 1 <= height < 0x8000_0000
    ensures InScreen(NewRouter(selfId, width, height))
    ensures IsHeld(RunFrom(NewRouter(selfId, width, height), inputs).0.mask, code) <==>
      LCTRL <= code < LCTRL + 8 && LastDirection(KeysOf(inputs), code) == Some(true)
  {
    NewRouterInScreen(selfId, width, height);
    MaskFoldsKeys(NewRouter(selfId, width, height), inputs);
    HeldIffLastPressed(KeysOf(inputs), code);
  }

  // ----- a whole run, read off its stimuli -----

  /** A stimulus as an event. */
  function EventOf(input: Stimulus): InputEvent {
    match input
    case Pointer(dx, dy, ts, _) => MouseMove(dx, dy, ts)
    case Keyed(event) => event
  }

  /** Each stimulus, unaltered and in order, delivered here. */
  function Kept(inputs: seq<Stimulus>): seq<Routed> {
    seq(|inputs|, i requires 0 <= i < |inputs| => Local(EventOf(inputs[i])))
  }

  /** Each stimulus, unaltered and in order, sent to `n`. */
  function Sent(n: NodeId, inputs: seq<Stimulus>): seq<Routed> {
    seq(|inputs|, i requires 0 <= i < |inputs| => Remote(n, EventOf(inputs[i])))
  }

  function Within(v: int, size: i32): int {
    if v < 0 then 0 else if size <= v then size - 1 else v
  }

  /** Where the cursor is while it stays here: each delta moves it, and the border
      stops it. */
  function Walk(start: RouterState, inputs: seq<Stimulus>): (int, int) {
    if inputs == [] then (start.x, start.y)
    else
      var (x, y), last := Walk(start, inputs[..|inputs| - 1]), inputs[|inputs| - 1];
      if last.Pointer?
      then (Within(Wrap(x + last.dx), start.width), Within(Wrap(y + last.dy), start.height))
      else (x, y)
  }

  /** The next stimulus takes the cursor, from where it is after `before`, over
      an edge to node `n`. */
  ghost predicate LeadsTo(start: RouterState, before: seq<Stimulus>, input: Stimulus, n: NodeId) {
    && input.Pointer?
    && var (x, y) := Walk(start, before);
       exists e: Edge ::
         FirstViolated(e, Wrap(x + input.dx), Wrap(y + input.dy), start.width, start.height)
         && NeighborIn(input.adj, start.selfId, e) == Some(n)
  }

  /** None of the first `k` stimuli does. */
  ghost predicate Stays(start: RouterState, inputs: seq<Stimulus>, k: nat)
    requires k <= |inputs|
  {
    forall i, n :: 0 <= i < k ==> !LeadsTo(start, inputs[..i], inputs[i], n)
  }

  lemma StaysFront(start: RouterState, inputs: seq<Stimulus>, k: nat, m: nat)
    requires k <= m <= |inputs|
    ensures Stays(start, inputs[..m], k) <==> Stays(start, inputs, k)
  {
    assert forall i :: 0 <= i < k ==> inputs[..m][..i] == inputs[..i] && inputs[..m][i] == inputs[i];
  }

  /** `s` is what the walk has come to: still here. */
  ghost predicate At(start: RouterState, before: seq<Stimulus>, s: RouterState) {
    && InScreen(s) && s.active == s.selfId == start.selfId && s.width == start.width && s.height == start.height
    && Walk(start, before) == (s.x as int, s.y as int)
  }

  lemma LeadsToNext(start: RouterState, before: seq<Stimulus>, s: RouterState, input: Stimulus, n: NodeId)
    requires At(start, before, s) && input.Pointer?
    ensures LeadsTo(start, before, input, n) <==>
      NextNode(s, Wrap(s.x + input.dx), Wrap(s.y + input.dy), input.adj) == Some(n)
  {
    var x, y := Wrap(s.x + input.dx), Wrap(s.y + input.dy);
    FirstViolatedIsCrossed(x, y, s.width, s.height);
    if NextNode(s, x, y, input.adj) == Some(n) {
      assert FirstViolated(CrossedEdge(x, y, s.width, s.height).value, x, y, s.width, s.height);
    }
  }

  lemma WalkSnoc(start: RouterState, before: seq<Stimulus>, input: Stimulus)
    ensures Walk(start, before + [input]) ==
      var (x, y) := Walk(start, before);
      if input.Pointer?
      then (Within(Wrap(x + input.dx), start.width), Within(Wrap(y + input.dy), start.height)) else (x, y)
  {
    assert (before + [input])[..|before|] == before;
  }

  lemma MoveStaysHere(s: RouterState, dx: i32, dy: i32, ts: nat, adj: Adjacency, t: RouterState, out: seq<Routed>)
    requires InScreen(s) && s.active == s.selfId && (t, out) == Move(s, dx, dy, ts, adj)
    requires NextNode(s, Wrap(s.x + dx), Wrap(s.y + dy), adj) == None
    ensures InScreen(t) && t.active == s.active && t.selfId == s.selfId && t.width == s.width && t.height == s.height
    ensures t.x as int == Within(Wrap(s.x + dx), s.width) && t.y as int == Within(Wrap(s.y + dy), s.height)
    ensures out == [Local(MouseMove(dx, dy, ts))]
  {
  }

  lemma NothingAhead(start: RouterState, before: seq<Stimulus>, s: RouterState, input: Stimulus)
    requires At(start, before, s) && input.Pointer? && forall n :: !LeadsTo(start, before, input, n)
    ensures NextNode(s, Wrap(s.x + input.dx), Wrap(s.y + input.dy), input.adj) == None
  {
    var next := NextNode(s, Wrap(s.x + input.dx), Wrap(s.y + input.dy), input.adj);
    if next.Some? {
      LeadsToNext(start, before, s, input, next.value);
    }
  }

  lemma StepStaysHere(start: RouterState, before: seq<Stimulus>, s: RouterState, input: Stimulus)
    requires At(start, before, s) && forall n :: !LeadsTo(start, before, input, n)
    ensures var (t, out) := React(s, input); At(start, before + [input], t) && out == [Local(EventOf(input))]
  {
    WalkSnoc(start, before, input);
    if input.Pointer? {
      NothingAhead(start, before, s, input);
      var (t, out) := React(s, input);
      MoveStaysHere(s, input.dx, input.dy, input.ts, input.adj, t, out);
    }
  }

  lemma StepHandsOver(start: RouterState, before: seq<Stimulus>, s: RouterState, input: Stimulus, n: NodeId)
    requires At(start, before, s) && LeadsTo(start, before, input, n)
    ensures var (t, out) := React(s, input);
      t.active == n && out == [Remote(s.selfId, Leave(n)), Remote(n, Enter(s.selfId, s.mask))]
  {
    LeadsToNext(start, before, s, input, n);
  }

  /** While no stimulus leads to a neighbour, a run delivers each of them here,
      in order and unaltered, and the cursor walks. */
  lemma {:induction false} RunStaysHere(start: RouterState, inputs: seq<Stimulus>)
    requires InScreen(start) && start.active == start.selfId && Stays(start, inputs, |inputs|)
    ensures var (s, out) := RunFrom(start, inputs); At(start, inputs, s) && out == Kept(inputs)
  {
    if inputs != [] {
      var front, last := inputs[..|inputs| - 1], inputs[|inputs| - 1];
      StaysFront(start, inputs, |front|, |front|);
      RunStaysHere(start, front);
      StepStaysHere(start, front, RunFrom(start, front).0, last);
      assert front + [last] == inputs;
      assert Kept(inputs) == Kept(front) + [Local(EventOf(last))];
    }
  }

  lemma SentSnoc(n: NodeId, inputs: seq<Stimulus>, from: nat)
    requires from < |inputs|
    ensures Sent(n, inputs[from..]) ==
      Sent(n, inputs[..|inputs| - 1][from..]) + [Remote(n, EventOf(inputs[|inputs| - 1]))]
  {
  }

  /** Once the cursor is away every stimulus is forwarded as it is. */
  lemma StepForwards(s: RouterState, input: Stimulus)
    requires InScreen(s) && s.active != s.selfId
    ensures React(s, input).0.active == s.active && React(s, input).1 == [Remote(s.active, EventOf(input))]
  {
  }

  /** What a run emits, exactly, if stimulus `i` is the first that leads to a
      neighbour: the stimuli before it are delivered here, it becomes a Leave and
      an Enter with the keys then held, and every later stimulus is sent to that
      neighbour, all in order and unaltered. */
  lemma {:induction false} RunHandsOver(start: RouterState, inputs: seq<Stimulus>, i: nat, n: NodeId)
    requires InScreen(start) && start.active == start.selfId && i < |inputs|
    requires Stays(start, inputs, i) && LeadsTo(start, inputs[..i], inputs[i], n) && n != start.selfId
    ensures var (s, out) := RunFrom(start, inputs);
      && s.active == n
      && out == Kept(inputs[..i])
           + [Remote(start.selfId, Leave(n)),
              Remote(n, Enter(start.selfId, FoldKeys(start.mask, KeysOf(inputs[..i]))))]
           + Sent(n, inputs[i + 1..])
  {
    var front, last := inputs[..|inputs| - 1], inputs[|inputs| - 1];
    StaysFront(start, inputs, i, |front|);
    assert inputs[..i] == front[..i];
    if i == |front| {
      RunStaysHere(start, front);
      MaskFoldsKeys(start, front);
      StepHandsOver(start, front, RunFrom(start, front).0, last, n);
    } else {
      RunHandsOver(start, front, i, n);
      StepForwards(RunFrom(start, front).0, last);
      SentSnoc(n, inputs, i + 1);
    }
  }
}
