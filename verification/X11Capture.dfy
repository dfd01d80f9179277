/** Decoding raw X11 input (crates/pal-x11/src/capture.rs). */
module X11Capture {
  import opened Core
  import opened Modifiers
  import opened InputRouter
  import opened Sums

  /** 32:32 fixed point. */
  datatype Fp3232 = Fp3232(integral: i32, frac: u32)

  // ----- sparse valuators -----

  /** `word & (1 << bit) != 0`, for `bit` below 32. */
  predicate WordBit(word: u32, bit: nat) {
    Shifted(word, bit) % 2 == 1
  }

  /** The mask as one long row of bits, least significant first. */
  function Bits(mask: seq<u32>): (bits: seq<bool>)
    ensures |bits| == 32 * |mask|
  {
    seq(32 * |mask|, axis requires 0 <= axis < 32 * |mask| =>
      WordBit(mask[axis / 32], axis % 32))
  }

  /** The row of bits is the words' binary digits: word `k` is the number that
      its 32 bits stand for, least significant first. */
  lemma RowIsBinary(mask: seq<u32>, k: nat)
    requires k < |mask|
    ensures Number(Bits(mask)[32 * k..32 * k + 32]) == mask[k]
  {
    var row := Bits(mask)[32 * k..32 * k + 32];
    forall i | 0 <= i < 32
      ensures row[i] <==> Shifted(mask[k], i) % 2 == 1
    {
      assert (32 * k + i) / 32 == k && (32 * k + i) % 32 == i;
    }
    assert Pow2(8) == 0x100;
    assert Pow2(16) == 0x1_0000;
    assert Pow2(24) == 0x100_0000;
    assert Pow2(32) == 0x1_0000_0000;
    ShiftsAreDigits(mask[k], row);
  }

  /** Whether the mask announces a value for `axis`. */
  predicate Announced(bits: seq<bool>, axis: nat) {
    axis < |bits| && bits[axis]
  }

  lemma BitOfWord(mask: seq<u32>, word: nat, bit: nat)
    requires word < |mask| && bit < 32
    ensures WordBit(mask[word], bit) <==> Announced(Bits(mask), 32 * word + bit)
  {
    assert (32 * word + bit) / 32 == word && (32 * word + bit) % 32 == bit;
  }

  /** How many set bits lie below `axis`. */
  function SetBelow(bits: seq<bool>, axis: nat): nat {
    if axis == 0 then 0 else SetBelow(bits, axis - 1) + if Announced(bits, axis - 1) then 1 else 0
  }

  lemma {:induction false} SetBelowGrows(bits: seq<bool>, a: nat, b: nat)
    requires a <= b
    ensures SetBelow(bits, a) <= SetBelow(bits, b)
    ensures a < b && Announced(bits, a) ==> SetBelow(bits, a) < SetBelow(bits, b)
  {
    if a < b {
      SetBelowGrows(bits, a, b - 1);
    }
  }

  ghost predicate Selects(bits: seq<bool>, values: seq<Fp3232>, upto: nat, k: nat, pair: (nat, Fp3232)) {
    && k < |values|
    && pair.0 < upto && Announced(bits, pair.0) && SetBelow(bits, pair.0) == k
    && pair.1 == values[k]
  }

  /** `out` lists, in order of their axes, the values of the set bits below
      `upto`: the k-th pair is the axis whose bit has k set bits below it, with
      the k-th value; it stops early only when the values run out. */
  ghost predicate Decodes(bits: seq<bool>, values: seq<Fp3232>, upto: nat, out: seq<(nat, Fp3232)>) {
    && |out| == (if SetBelow(bits, upto) < |values| then SetBelow(bits, upto) else |values|)
    && forall k :: 0 <= k < |out| ==> Selects(bits, values, upto, k, out[k])
  }

  /** The same list, built up one axis at a time. */
  function Decoded(bits: seq<bool>, values: seq<Fp3232>, upto: nat): seq<(nat, Fp3232)> {
    if upto == 0 then []
    else
      var out, axis := Decoded(bits, values, upto - 1), upto - 1;
      if Announced(bits, axis) && SetBelow(bits, axis) < |values|
      then out + [(axis, values[SetBelow(bits, axis)])] else out
  }

  lemma {:induction false} DecodedDecodes(bits: seq<bool>, values: seq<Fp3232>, upto: nat)
    ensures Decodes(bits, values, upto, Decoded(bits, values, upto))
  {
    if 0 < upto {
      var before, out := Decoded(bits, values, upto - 1), Decoded(bits, values, upto);
      DecodedDecodes(bits, values, upto - 1);
      forall k | 0 <= k < |out|
        ensures Selects(bits, values, upto, k, out[k])
      {
        if k < |before| {
          assert Selects(bits, values, upto - 1, k, before[k]);
        }
      }
    }
  }

  lemma AxesIncrease(bits: seq<bool>, values: seq<Fp3232>, upto: nat, out: seq<(nat, Fp3232)>, i: nat, j: nat)
    requires Decodes(bits, values, upto, out) && i < j < |out|
    ensures out[i].0 < out[j].0
  {
    assert Selects(bits, values, upto, i, out[i]) && Selects(bits, values, upto, j, out[j]);
    if out[j].0 <= out[i].0 {
      SetBelowGrows(bits, out[j].0, out[i].0);
    }
  }

  lemma AxesAllIncrease(bits: seq<bool>, values: seq<Fp3232>, upto: nat, out: seq<(nat, Fp3232)>)
    requires Decodes(bits, values, upto, out)
    ensures forall i, j :: 0 <= i < j < |out| ==> out[i].0 < out[j].0
  {
    forall i, j | 0 <= i < j < |out|
      ensures out[i].0 < out[j].0
    {
      AxesIncrease(bits, values, upto, out, i, j);
    }
  }

  lemma DecodedFacts(bits: seq<bool>, values: seq<Fp3232>)
    ensures var out := Decoded(bits, values, |bits|);
      Decodes(bits, values, |bits|, out) && forall i, j :: 0 <= i < j < |out| ==> out[i].0 < out[j].0
  {
    DecodedDecodes(bits, values, |bits|);
    AxesAllIncrease(bits, values, |bits|, Decoded(bits, values, |bits|));
  }

  lemma SameRankSameAxis(bits: seq<bool>, a: nat, b: nat)
    requires Announced(bits, a) && Announced(bits, b) && SetBelow(bits, a) == SetBelow(bits, b)
    ensures a == b
  {
    if a < b {
      SetBelowGrows(bits, a, b);
    } else if b < a {
      SetBelowGrows(bits, b, a);
    }
  }

  /** Rank and select: an axis comes out with a value exactly when its bit is
      set and its rank is in range, and the value is the one at its rank. */
  lemma DecodedIsRankSelect(bits: seq<bool>, values: seq<Fp3232>, out: seq<(nat, Fp3232)>, axis: nat, v: Fp3232)
    requires Decodes(bits, values, |bits|, out)
    ensures (axis, v) in out <==>
      Announced(bits, axis) && SetBelow(bits, axis) < |values| && values[SetBelow(bits, axis)] == v
  {
    if Announced(bits, axis) && SetBelow(bits, axis) < |values| {
      var k := SetBelow(bits, axis);
      SetBelowGrows(bits, axis, |bits|);
      assert Selects(bits, values, |bits|, k, out[k]);
      SameRankSameAxis(bits, axis, out[k].0);
      assert out[k] == (axis, values[k]);
    }
    if (axis, v) in out {
      var k :| 0 <= k < |out| && out[k] == (axis, v);
      assert Selects(bits, values, |bits|, k, out[k]);
    }
  }

  // ----- what that means for the numbers in the mask -----

  /** Digit `axis % 32` of word `axis / 32` is a one. */
  predicate Says(mask: seq<u32>, axis: nat) {
    axis < 32 * |mask| && mask[axis / 32] / Pow2(axis % 32) % 2 == 1
  }

  /** How many ones come before. */
  ghost function Rank(mask: seq<u32>, axis: nat): nat {
    |set a: nat | a < axis && Says(mask, a)|
  }

  lemma AnnouncedSays(mask: seq<u32>, axis: nat)
    ensures Announced(Bits(mask), axis) <==> Says(mask, axis)
    ensures Pow2(0) == 1 && Pow2(axis + 1) == 2 * Pow2(axis)
  {
    if axis < 32 * |mask| {
      ShiftedIsQuotient(mask[axis / 32], axis % 32);
    }
  }

  lemma RankOneMore(mask: seq<u32>, axis: nat)
    ensures Rank(mask, axis + 1) == Rank(mask, axis) + if Says(mask, axis) then 1 else 0
  {
    var before, upTo := set a: nat | a < axis && Says(mask, a), set a: nat | a < axis + 1 && Says(mask, a);
    assert upTo == if Says(mask, axis) then before + {axis} else before;
  }

  lemma {:induction false} SetBelowIsRank(mask: seq<u32>, axis: nat)
    ensures SetBelow(Bits(mask), axis) == Rank(mask, axis)
  {
    if 0 < axis {
      SetBelowIsRank(mask, axis - 1);
      AnnouncedSays(mask, axis - 1);
      RankOneMore(mask, axis - 1);
    } else {
      assert (set a: nat | a < 0 && Says(mask, a)) == {};
    }
  }

  /** An axis comes out with a value exactly when its digit is a one and the
      value is the one at its rank. */
  lemma ReadOffTheWords(mask: seq<u32>, values: seq<Fp3232>, out: seq<(nat, Fp3232)>)
    requires Decodes(Bits(mask), values, 32 * |mask|, out)
    ensures forall axis: nat, v: Fp3232 :: (axis, v) in out <==>
      Says(mask, axis) && Rank(mask, axis) < |values| && values[Rank(mask, axis)] == v
  {
    forall axis: nat, v: Fp3232
      ensures (axis, v) in out <==>
        Says(mask, axis) && Rank(mask, axis) < |values| && values[Rank(mask, axis)] == v
    {
      DecodedIsRankSelect(Bits(mask), values, out, axis, v);
      AnnouncedSays(mask, axis);
      SetBelowIsRank(mask, axis);
    }
  }

  /** How far the mask has been read: the next value and the pairs so far. */
  datatype Progress = Progress(valueIdx: nat, out: seq<(nat, Fp3232)>)

  function ReadUpTo(bits: seq<bool>, values: seq<Fp3232>, axis: nat): Progress {
    Progress(SetBelow(bits, axis), Decoded(bits, values, axis))
  }

  /** What one set bit adds. */
  function ReadSet(p: Progress, values: seq<Fp3232>, axis: nat): Progress {
    Progress(p.valueIdx + 1, if p.valueIdx < |values| then p.out + [(axis, values[p.valueIdx])] else p.out)
  }

  lemma ReadOneMore(mask: seq<u32>, values: seq<Fp3232>, word: nat, bit: nat)
    requires word < |mask| && bit < 32
    ensures var p, axis := ReadUpTo(Bits(mask), values, 32 * word + bit), 32 * word + bit;
      ReadUpTo(Bits(mask), values, 32 * word + (bit + 1)) ==
        if WordBit(mask[word], bit) then ReadSet(p, values, axis) else p
  {
    BitOfWord(mask, word, bit);
  }

  /** The pairs are exactly those of the rank/select reading of the mask, with
      strictly increasing axes. */
  method MaskIter(mask: seq<u32>, values: seq<Fp3232>) returns (out: seq<(nat, Fp3232)>)
    ensures Decodes(Bits(mask), values, 32 * |mask|, out)
    ensures forall i, j :: 0 <= i < j < |out| ==> out[i].0 < out[j].0
    ensures forall axis: nat, v: Fp3232 :: (axis, v) in out <==>
      Says(mask, axis) && Rank(mask, axis) < |values| && values[Rank(mask, axis)] == v
  {
    var valueIdx := 0;
    out := [];
    var wordIdx := 0;
    while wordIdx < |mask|
      invariant wordIdx <= |mask|
      invariant Progress(valueIdx, out) == ReadUpTo(Bits(mask), values, 32 * wordIdx)
    {
      var bit := 0;
      while bit < 32
        invariant bit <= 32
        invariant Progress(valueIdx, out) == ReadUpTo(Bits(mask), values, 32 * wordIdx + bit)
      {
        ReadOneMore(mask, values, wordIdx, bit);
        if WordBit(mask[wordIdx], bit) {
          var axis := 32 * wordIdx + bit;
          if valueIdx < |values| {
            out := out + [(axis, values[valueIdx])];
          }
          valueIdx := valueIdx + 1;
        }
        bit := bit + 1;
      }
      wordIdx := wordIdx + 1;
    }
    DecodedFacts(Bits(mask), values);
    ReadOffTheWords(mask, values, out);
  }

  /** The delta a motion event carries on one axis; zero when it has none. */
  function AxisDelta(bits: seq<bool>, values: seq<Fp3232>, axis: nat): i32 {
    if Announced(bits, axis) && SetBelow(bits, axis) < |values| then values[SetBelow(bits, axis)].integral else 0
  }

  /** The integral part of the last pair for `axis` among the first `n`. */
  function DeltaUpTo(pairs: seq<(nat, Fp3232)>, axis: nat, n: nat): i32
    requires n <= |pairs|
  {
    if n == 0 then 0
    else if pairs[n - 1].0 == axis then pairs[n - 1].1.integral
    else DeltaUpTo(pairs, axis, n - 1)
  }

  lemma {:induction false} DeltaAbsent(pairs: seq<(nat, Fp3232)>, axis: nat, n: nat)
    requires n <= |pairs| && forall i :: 0 <= i < n ==> pairs[i].0 != axis
    ensures DeltaUpTo(pairs, axis, n) == 0
  {
    if 0 < n {
      DeltaAbsent(pairs, axis, n - 1);
    }
  }

  lemma {:induction false} DeltaPresent(pairs: seq<(nat, Fp3232)>, axis: nat, k: nat, n: nat)
    requires k < n <= |pairs| && pairs[k].0 == axis
    requires forall i :: 0 <= i < |pairs| && i != k ==> pairs[i].0 != axis
    ensures DeltaUpTo(pairs, axis, n) == pairs[k].1.integral
  {
    if k < n - 1 {
      DeltaPresent(pairs, axis, k, n - 1);
    }
  }

  lemma DeltaIsAxisDelta(bits: seq<bool>, values: seq<Fp3232>, pairs: seq<(nat, Fp3232)>, axis: nat)
    requires Decodes(bits, values, |bits|, pairs)
    ensures DeltaUpTo(pairs, axis, |pairs|) == AxisDelta(bits, values, axis)
  {
    if k :| 0 <= k < |pairs| && pairs[k].0 == axis {
      assert pairs[k] == (axis, pairs[k].1);
      DecodedIsRankSelect(bits, values, pairs, axis, pairs[k].1);
      forall i | 0 <= i < |pairs| && i != k
        ensures pairs[i].0 != axis
      {
        AxesIncrease(bits, values, |bits|, pairs, if i < k then i else k, if i < k then k else i);
      }
      DeltaPresent(pairs, axis, k, |pairs|);
    } else {
      DeltaAbsent(pairs, axis, |pairs|);
      if Announced(bits, axis) && SetBelow(bits, axis) < |values| {
        DecodedIsRankSelect(bits, values, pairs, axis, values[SetBelow(bits, axis)]);
      }
    }
  }

  /** The first word of the mask, if there is one. */
  function FirstWord(mask: seq<u32>): u32 {
    if mask == [] then 0 else mask[0]
  }

  /** Axes 0 and 1 are the two lowest digits of the first word. */
  lemma AxesZeroAndOne(mask: seq<u32>, values: seq<Fp3232>)
    ensures AxisDelta(Bits(mask), values, 0) ==
      if FirstWord(mask) % 2 == 1 && 0 < |values| then values[0].integral else 0
    ensures AxisDelta(Bits(mask), values, 1) ==
      if FirstWord(mask) / 2 % 2 == 1 && FirstWord(mask) % 2 < |values| then values[FirstWord(mask) % 2].integral else 0
  {
    var bits := Bits(mask);
    assert SetBelow(bits, 0) == 0 && SetBelow(bits, 1) == if Announced(bits, 0) then 1 else 0;
    if mask != [] {
      assert Shifted(mask[0], 0) == mask[0] && Shifted(mask[0], 1) == mask[0] / 2;
    }
  }

  /** The loop over the decoded pairs: later ones would win, but an axis occurs
      at most once. */
  method MotionDeltas(mask: seq<u32>, values: seq<Fp3232>) returns (dx: i32, dy: i32)
    ensures dx == AxisDelta(Bits(mask), values, 0) && dy == AxisDelta(Bits(mask), values, 1)
    ensures var first := if mask == [] then 0 else mask[0];
      && dx == (if first % 2 == 1 && 0 < |values| then values[0].integral else 0)
      && dy == (if first / 2 % 2 == 1 && first % 2 < |values| then values[first % 2].integral else 0)
  {
    AxesZeroAndOne(mask, values);
    var pairs := MaskIter(mask, values);
    DeltaIsAxisDelta(Bits(mask), values, pairs, 0);
    DeltaIsAxisDelta(Bits(mask), values, pairs, 1);
    dx, dy := 0, 0;
    var i := 0;
    while i < |pairs|
      invariant i <= |pairs|
      invariant dx == DeltaUpTo(pairs, 0, i) && dy == DeltaUpTo(pairs, 1, i)
    {
      var (axis, val) := pairs[i];
      if axis == 0 {
        dx := val.integral;
      } else if axis == 1 {
        dy := val.integral;
      }
      i := i + 1;
    }
  }

  // ----- buttons -----

  /** The event for one button edge. Wheel buttons scroll when pressed; their
      releases come out as ordinary releases of an unnamed button. */
  function ButtonEvent(detail: u32, pressed: bool): InputEvent {
    if detail == 1 then MouseButton(LeftButton, pressed)
    else if detail == 2 then MouseButton(MiddleButton, pressed)
    else if detail == 3 then MouseButton(RightButton, pressed)
    else if detail == 4 && pressed then Scroll(0, -1)
    else if detail == 5 && pressed then Scroll(0, 1)
    else if detail == 6 && pressed then Scroll(-1, 0)
    else if detail == 7 && pressed then Scroll(1, 0)
    else if detail == 8 then MouseButton(BackButton, pressed)
    else if detail == 9 then MouseButton(ForwardButton, pressed)
    else MouseButton(OtherButton(detail % 256), pressed)
  }

  // ----- the capture loop's state -----

  /** What keycodes mean: the server's table and the mapping to HID usages,
      which is left uninterpreted. */
  datatype Keyboard = Keyboard(keysyms: seq<nat>, perCode: nat, minCode: byte, toHid: nat -> Option<nat>)

  function HidOf(kb: Keyboard, keycode: u32): Option<nat> {
    var kc := Wrap(Wrap(keycode) - kb.minCode);
    if kc < 0 then None
    else
      var base := kc * kb.perCode;
      if base < |kb.keysyms| then kb.toHid(kb.keysyms[base]) else None
  }

  /** The usage of the first keysym in the row of the keycode, if the table has
      that row and the keysym has a usage. */
  ghost predicate IsHidOf(kb: Keyboard, keycode: u32, hid: Option<nat>) {
    var row := keycode - kb.minCode;
    hid == if 0 <= row < 0x8000_0000 && row * kb.perCode < |kb.keysyms| then kb.toHid(kb.keysyms[row * kb.perCode])
           else None
  }

  lemma RowOf(keycode: u32, minCode: byte)
    ensures var row, kc := keycode - minCode, Wrap(Wrap(keycode) - minCode);
      if 0 <= row < 0x8000_0000 then kc == row else kc < 0
  {
  }

  lemma HidIs(kb: Keyboard, keycode: u32)
    ensures IsHidOf(kb, keycode, HidOf(kb, keycode))
  {
    RowOf(keycode, kb.minCode);
  }

  ghost predicate CarryTheirMask(events: seq<InputEvent>) {
    forall i :: 0 <= i < |events| && events[i].Key? ==> events[i].modifiers == FoldKeys(0, events[..i + 1])
  }

  lemma CarryOneMore(events: seq<InputEvent>, event: InputEvent)
    requires CarryTheirMask(events)
    requires event.Key? ==> event.modifiers == UpdateMask(FoldKeys(0, events), event.code, event.down)
    ensures CarryTheirMask(events + [event])
    ensures FoldKeys(0, events + [event]) == if event.Key? then event.modifiers else FoldKeys(0, events)
  {
    var all := events + [event];
    FoldSnoc(0, events, event);
    forall i | 0 <= i < |all| && all[i].Key?
      ensures all[i].modifiers == FoldKeys(0, all[..i + 1])
    {
      if i < |events| {
        assert all[..i + 1] == events[..i + 1];
      } else {
        assert all[..i + 1] == all;
      }
    }
  }

  class Capture {
    const keyboard: Keyboard
    var modifiers: ModifierMask
    var sink: seq<InputEvent>

    /** The mask is the fold of the keys sent so far, and every key was sent
        with the mask that includes it. */
    ghost predicate Valid()
      reads this
    {
      modifiers == FoldKeys(0, sink) && CarryTheirMask(sink)
    }

    constructor (keyboard: Keyboard)
      ensures Valid() && sink == [] && this.keyboard == keyboard
    {
      this.keyboard := keyboard;
      modifiers := 0;
      sink := [];
    }

    method UpdateModifiers(hid: nat, pressed: bool)
      modifies this`modifiers
      ensures modifiers == UpdateMask(old(modifiers), hid, pressed)
    {
      var bit := BitOf(hid);
      if bit.Some? {
        if pressed {
          modifiers := modifiers | bit.value;
        } else {
          modifiers := modifiers & !bit.value;
        }
      }
    }

    method Send(event: InputEvent)
      requires Valid() && !event.Key?
      modifies this`sink
      ensures Valid() && sink == old(sink) + [event]
    {
      CarryOneMore(sink, event);
      sink := sink + [event];
    }

    method HandleKey(keycode: u32, pressed: bool)
      requires Valid()
      modifies this
      ensures Valid()
      ensures HidOf(keyboard, keycode).None? ==> sink == old(sink) && modifiers == old(modifiers)
      ensures var hid := HidOf(keyboard, keycode);
        hid.Some? ==>
          && modifiers == UpdateMask(old(modifiers), hid.value, pressed)
          && sink == old(sink) + [Key(hid.value, pressed, modifiers)]
      ensures IsHidOf(keyboard, keycode, HidOf(keyboard, keycode))
    {
      HidIs(keyboard, keycode);
      var hid := HidOf(keyboard, keycode);
      if hid.None? {
        return;
      }
      UpdateModifiers(hid.value, pressed);
      CarryOneMore(sink, Key(hid.value, pressed, modifiers));
      sink := sink + [Key(hid.value, pressed, modifiers)];
    }

    method HandleButton(detail: u32, pressed: bool)
      requires Valid()
      modifies this`sink
      ensures Valid() && sink == old(sink) + [ButtonEvent(detail, pressed)]
      ensures var sent := sink[|old(sink)|];
        match detail
        case 1 => sent == MouseButton(LeftButton, pressed)
        case 2 => sent == MouseButton(MiddleButton, pressed)
        case 3 => sent == MouseButton(RightButton, pressed)
        case 4 => sent == if pressed then Scroll(0, -1) else MouseButton(OtherButton(4), false)
        case 5 => sent == if pressed then Scroll(0, 1) else MouseButton(OtherButton(5), false)
        case 6 => sent == if pressed then Scroll(-1, 0) else MouseButton(OtherButton(6), false)
        case 7 => sent == if pressed then Scroll(1, 0) else MouseButton(OtherButton(7), false)
        case 8 => sent == MouseButton(BackButton, pressed)
        case 9 => sent == MouseButton(ForwardButton, pressed)
        case _ => sent == MouseButton(OtherButton(detail % 256), pressed)
    {
      match detail
      case 1 => Send(MouseButton(LeftButton, pressed));
      case 2 => Send(MouseButton(MiddleButton, pressed));
      case 3 => Send(MouseButton(RightButton, pressed));
      case 8 => Send(MouseButton(BackButton, pressed));
      case 9 => Send(MouseButton(ForwardButton, pressed));
      case b =>
        if b == 4 && pressed {
          Send(Scroll(0, -1));
        } else if b == 5 && pressed {
          Send(Scroll(0, 1));
        } else if b == 6 && pressed {
          Send(Scroll(-1, 0));
        } else if b == 7 && pressed {
          Send(Scroll(1, 0));
        } else {
          Send(MouseButton(OtherButton(b % 256), pressed));
        }
    }

    /** A raw motion event moves by the values of axes 0 and 1 and is silent
        when both are zero. */
    method HandleMotion(mask: seq<u32>, values: seq<Fp3232>, now: nat)
      requires Valid()
      modifies this`sink
      ensures Valid()
      ensures var first := if mask == [] then 0 else mask[0];
        var dx := if first % 2 == 1 && 0 < |values| then values[0].integral else 0;
        var dy := if first / 2 % 2 == 1 && first % 2 < |values| then values[first % 2].integral else 0;
        sink == if dx != 0 || dy != 0 then old(sink) + [MouseMove(dx, dy, now)] else old(sink)
    {
      var dx, dy := MotionDeltas(mask, values);
      if dx != 0 || dy != 0 {
        Send(MouseMove(dx, dy, now));
      }
    }
  }
}
