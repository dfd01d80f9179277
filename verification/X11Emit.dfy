/** Synthesising X11 input, and what the capture side makes of it
    (crates/pal-x11/src/emit.rs). */
module X11Emit {
  import opened Core
  import opened X11Capture

  /** One faked button edge on the X server. */
  datatype Edge = Edge(code: byte, pressed: bool)

  function Abs(n: int): nat {
    if n < 0 then -(n as int) else n
  }

  /** `n` presses and releases of one button. */
  function Clicks(code: byte, n: nat): seq<Edge> {
    if n == 0 then [] else Clicks(code, n - 1) + [Edge(code, true), Edge(code, false)]
  }

  /** Presses and releases take turns. */
  lemma {:induction false} ClicksTakeTurns(code: byte, n: nat)
    ensures |Clicks(code, n)| == 2 * n
    ensures forall i :: 0 <= i < 2 * n ==> Clicks(code, n)[i] == Edge(code, i % 2 == 0)
  {
    if 0 < n {
      ClicksTakeTurns(code, n - 1);
    }
  }

  function ButtonCode(btn: Button): byte {
    match btn
    case LeftButton => 1
    case MiddleButton => 2
    case RightButton => 3
    case BackButton => 8
    case ForwardButton => 9
    case OtherButton(n) => n
  }

  function VerticalCode(dy: i32): byte {
    if dy < 0 then 4 else 5
  }

  function HorizontalCode(dx: i32): byte {
    if dx < 0 then 6 else 7
  }

  class Emitter {
    var requests: seq<Edge>

    constructor ()
      ensures requests == []
    {
      requests := [];
    }

    method Click(code: byte)
      modifies this
      ensures requests == old(requests) + [Edge(code, true), Edge(code, false)]
    {
      requests := requests + [Edge(code, true)];
      requests := requests + [Edge(code, false)];
    }

    method ClickTimes(code: byte, times: nat)
      modifies this
      ensures requests == old(requests) + Clicks(code, times)
      ensures |requests| == |old(requests)| + 2 * times && old(requests) <= requests
      ensures forall i :: 0 <= i < 2 * times ==> requests[|old(requests)| + i] == Edge(code, i % 2 == 0)
    {
      ClicksTakeTurns(code, times);
      var i := 0;
      while i < times
        invariant i <= times
        invariant requests == old(requests) + Clicks(code, i)
      {
        Click(code);
        i := i + 1;
      }
    }

    /** One click of a wheel button per unit, vertical first. */
    method EmitScroll(dx: i32, dy: i32)
      modifies this
      ensures requests == old(requests) + Clicks(VerticalCode(dy), Abs(dy)) + Clicks(HorizontalCode(dx), Abs(dx))
      ensures requests == old(requests)
        + Clicks(if dy < 0 then 4 else 5, if dy < 0 then -(dy as int) else dy)
        + Clicks(if dx < 0 then 6 else 7, if dx < 0 then -(dx as int) else dx)
    {
      if dy != 0 {
        var code: byte := if dy < 0 then 4 else 5;
        ClickTimes(code, if dy < 0 then -(dy as int) else dy);
      }
      if dx != 0 {
        var code: byte := if dx < 0 then 6 else 7;
        ClickTimes(code, if dx < 0 then -(dx as int) else dx);
      }
    }

    method EmitButton(btn: Button, pressed: bool)
      modifies this
      ensures requests == old(requests) + [Edge(ButtonCode(btn), pressed)]
      ensures match btn
              case LeftButton => ButtonCode(btn) == 1
              case MiddleButton => ButtonCode(btn) == 2
              case RightButton => ButtonCode(btn) == 3
              case BackButton => ButtonCode(btn) == 8
              case ForwardButton => ButtonCode(btn) == 9
              case OtherButton(n) => ButtonCode(btn) == n
    {
      requests := requests + [Edge(ButtonCode(btn), pressed)];
    }
  }

  /** The events a capturer sends for a sequence of button edges. */
  function Captured(requests: seq<Edge>): seq<InputEvent> {
    if requests == [] then []
    else
      var e := requests[|requests| - 1];
      Captured(requests[..|requests| - 1]) + [ButtonEvent(e.code, e.pressed)]
  }

  /** Feeding the edges to a capture object one by one. */
  method CaptureAll(capture: Capture, requests: seq<Edge>)
    requires capture.Valid()
    modifies capture`sink
    ensures capture.Valid() && capture.sink == old(capture.sink) + Captured(requests)
  {
    var i := 0;
    while i < |requests|
      invariant i <= |requests| && capture.Valid()
      invariant capture.sink == old(capture.sink) + Captured(requests[..i])
    {
      capture.HandleButton(requests[i].code, requests[i].pressed);
      assert requests[..i + 1][..i] == requests[..i];
      i := i + 1;
    }
    assert requests[..i] == requests;
  }

  lemma {:induction false} CapturedConcat(a: seq<Edge>, b: seq<Edge>)
    ensures Captured(a + b) == Captured(a) + Captured(b)
  {
    if b == [] {
      assert a + b == a;
    } else {
      var front, last := b[..|b| - 1], b[|b| - 1];
      assert (a + b)[..|a + b| - 1] == a + front;
      CapturedConcat(a, front);
    }
  }

  /** Net scroll, and how many wheel-button releases came along. */
  function ScrollX(events: seq<InputEvent>): int {
    if events == [] then 0
    else ScrollX(events[..|events| - 1]) + if events[|events| - 1].Scroll? then events[|events| - 1].sx as int else 0
  }

  function ScrollY(events: seq<InputEvent>): int {
    if events == [] then 0
    else ScrollY(events[..|events| - 1]) + if events[|events| - 1].Scroll? then events[|events| - 1].sy as int else 0
  }

  predicate IsWheelRelease(e: InputEvent) {
    e.MouseButton? && e.btn.OtherButton? && 4 <= e.btn.code <= 7 && !e.pressed
  }

  function WheelReleases(events: seq<InputEvent>): nat {
    if events == [] then 0
    else WheelReleases(events[..|events| - 1]) + if IsWheelRelease(events[|events| - 1]) then 1 else 0
  }

  lemma {:induction false} TalliesConcat(a: seq<InputEvent>, b: seq<InputEvent>)
    ensures ScrollX(a + b) == ScrollX(a) + ScrollX(b)
    ensures ScrollY(a + b) == ScrollY(a) + ScrollY(b)
    ensures WheelReleases(a + b) == WheelReleases(a) + WheelReleases(b)
  {
    if b == [] {
      assert a + b == a;
    } else {
      assert (a + b)[..|a + b| - 1] == a + b[..|b| - 1];
      TalliesConcat(a, b[..|b| - 1]);
    }
  }

  /** The net scroll that `n` clicks of a wheel button stand for. */
  function NetX(code: byte, n: nat): int {
    if code == 6 then -(n as int) else if code == 7 then n else 0
  }

  function NetY(code: byte, n: nat): int {
    if code == 4 then -(n as int) else if code == 5 then n else 0
  }

  /** What one click is captured as: a scroll step and a wheel release. */
  function ClickEvents(code: byte): seq<InputEvent> {
    [ButtonEvent(code, true), ButtonEvent(code, false)]
  }

  lemma OneClick(code: byte)
    requires 4 <= code <= 7
    ensures var events := ClickEvents(code);
      && WheelReleases(events) == 1 && ScrollX(events) == NetX(code, 1) && ScrollY(events) == NetY(code, 1)
      && events[0].Scroll? && IsWheelRelease(events[1])
  {
    var down, up := ButtonEvent(code, true), ButtonEvent(code, false);
    assert [down, up][..1] == [down] && [down][..0] == [];
    assert ScrollX([down]) == NetX(code, 1) && ScrollY([down]) == NetY(code, 1) && WheelReleases([down]) == 0;
  }

  lemma OneClickMore(code: byte, n: nat)
    ensures Captured(Clicks(code, n + 1)) == Captured(Clicks(code, n)) + ClickEvents(code)
  {
    var press, release := Edge(code, true), Edge(code, false);
    CapturedConcat(Clicks(code, n), [press, release]);
    assert [press, release][..1] == [press] && [press][..0] == [];
    assert Captured([press]) == [ButtonEvent(code, true)];
  }

  /** `events` are `n` scroll steps of wheel `code` and as many wheel releases,
      nothing else. */
  ghost predicate IsTally(events: seq<InputEvent>, code: byte, n: nat) {
    && |events| == 2 * n && WheelReleases(events) == n
    && ScrollX(events) == NetX(code, n) && ScrollY(events) == NetY(code, n)
    && forall e :: e in events ==> e.Scroll? || IsWheelRelease(e)
  }

  lemma TallyOneMore(events: seq<InputEvent>, code: byte, n: nat)
    requires 4 <= code <= 7 && IsTally(events, code, n)
    ensures IsTally(events + ClickEvents(code), code, n + 1)
  {
    OneClick(code);
    TalliesConcat(events, ClickEvents(code));
  }

  lemma {:induction false} ClicksCaptured(code: byte, n: nat)
    requires 4 <= code <= 7
    ensures IsTally(Captured(Clicks(code, n)), code, n)
  {
    if 0 < n {
      ClicksCaptured(code, n - 1);
      OneClickMore(code, n - 1);
      TallyOneMore(Captured(Clicks(code, n - 1)), code, n - 1);
    }
  }

  /** Scrolling is conserved: what the emitter clicks, the capturer reads back
      as scroll steps summing to exactly (dx, dy), plus one release of a wheel
      button per step and nothing else. */
  lemma ScrollIsConserved(dx: i32, dy: i32)
    ensures var events := Captured(Clicks(VerticalCode(dy), Abs(dy)) + Clicks(HorizontalCode(dx), Abs(dx)));
      && ScrollX(events) == dx && ScrollY(events) == dy
      && WheelReleases(events) == Abs(dx) + Abs(dy)
      && |events| == 2 * (Abs(dx) + Abs(dy))
      && forall e :: e in events ==> e.Scroll? || IsWheelRelease(e)
  {
    var v, h := Clicks(VerticalCode(dy), Abs(dy)), Clicks(HorizontalCode(dx), Abs(dx));
    CapturedConcat(v, h);
    TalliesConcat(Captured(v), Captured(h));
    ClicksCaptured(VerticalCode(dy), Abs(dy));
    ClicksCaptured(HorizontalCode(dx), Abs(dx));
  }

  /** A button edge is read back as itself unless it is an unnamed button whose
      number belongs to a named one, or the press of one that is a wheel. */
  lemma ButtonRoundTripIff(btn: Button, pressed: bool)
    ensures ButtonEvent(ButtonCode(btn), pressed) == MouseButton(btn, pressed) <==>
      (btn.OtherButton? ==> btn.code !in {1, 2, 3, 8, 9} && !(4 <= btn.code <= 7 && pressed))
  {
  }
}
