/** Which modifier keys are held, as a bitmask in HID order
    (crates/input-router/src/modifier.rs; USB HID Usage Tables 1.4, section 10). */
module Modifiers {
  import opened Core

  /** Left Control; the other seven modifiers follow in order. */
  const LCTRL := 0xE0

  function BitOf(code: nat): Option<ModifierMask> {
    match code
    case 0xE0 => Some(0x01)
    case 0xE1 => Some(0x02)
    case 0xE2 => Some(0x04)
    case 0xE3 => Some(0x08)
    case 0xE4 => Some(0x10)
    case 0xE5 => Some(0x20)
    case 0xE6 => Some(0x40)
    case 0xE7 => Some(0x80)
    case _ => None
  }

  function SetOrClear(mask: ModifierMask, bit: Option<ModifierMask>, pressed: bool): ModifierMask {
    match bit
    case None => mask
    case Some(b) => if pressed then mask | b else mask & !b
  }

  predicate HasBit(mask: ModifierMask, bit: Option<ModifierMask>) {
    bit.Some? && mask & bit.value != 0
  }

  function UpdateMask(mask: ModifierMask, code: nat, pressed: bool): ModifierMask {
    SetOrClear(mask, BitOf(code), pressed)
  }

  /** Whether the key `code` is held according to the mask. */
  predicate IsHeld(mask: ModifierMask, code: nat) {
    HasBit(mask, BitOf(code))
  }

  /** The mask is the sum of the weights of the held keys, which have the usages
      0xE0 to 0xE7 in this order. */
  lemma MaskIsSumOfHeld(mask: ModifierMask)
    ensures mask as nat ==
      (if IsHeld(mask, 0xE0) then 1 else 0) + (if IsHeld(mask, 0xE1) then 2 else 0)
      + (if IsHeld(mask, 0xE2) then 4 else 0) + (if IsHeld(mask, 0xE3) then 8 else 0)
      + (if IsHeld(mask, 0xE4) then 16 else 0) + (if IsHeld(mask, 0xE5) then 32 else 0)
      + (if IsHeld(mask, 0xE6) then 64 else 0) + (if IsHeld(mask, 0xE7) then 128 else 0)
    ensures forall code :: IsHeld(mask, code) ==> 0xE0 <= code <= 0xE7
  {
  }

  lemma BitsAreDisjoint(code: nat, other: nat)
    ensures BitOf(code).Some? <==> LCTRL <= code < LCTRL + 8
    ensures BitOf(code).Some? ==> BitOf(code).value != 0
    ensures BitOf(code).Some? && BitOf(other).Some? && code != other ==> BitOf(code).value & BitOf(other).value == 0
  {
  }

  lemma OwnBit(mask: ModifierMask, bit: ModifierMask)
    ensures (mask | bit) & bit == bit && (mask & !bit) & bit == 0
  {
  }

  lemma OtherBit(mask: ModifierMask, bit: ModifierMask, other: ModifierMask)
    requires bit & other == 0
    ensures (mask | bit) & other == mask & other && (mask & !bit) & other == mask & other
  {
  }

  lemma MovesOwnBit(mask: ModifierMask, bit: ModifierMask, pressed: bool)
    requires bit != 0
    ensures HasBit(SetOrClear(mask, Some(bit), pressed), Some(bit)) <==> pressed
  {
    OwnBit(mask, bit);
  }

  lemma KeepsOtherBit(mask: ModifierMask, bit: ModifierMask, pressed: bool, other: ModifierMask)
    requires bit & other == 0
    ensures HasBit(SetOrClear(mask, Some(bit), pressed), Some(other)) <==> HasBit(mask, Some(other))
  {
    OtherBit(mask, bit, other);
  }

  /** One key event moves its own bit and no other. */
  lemma UpdateMovesOneBit(mask: ModifierMask, code: nat, pressed: bool, other: nat)
    ensures IsHeld(UpdateMask(mask, code, pressed), other) <==>
      if other == code then LCTRL <= code < LCTRL + 8 && pressed else IsHeld(mask, other)
  {
    BitsAreDisjoint(code, other);
    if BitOf(code).Some? && BitOf(other).Some? {
      if other == code {
        MovesOwnBit(mask, BitOf(code).value, pressed);
      } else {
        KeepsOtherBit(mask, BitOf(code).value, pressed, BitOf(other).value);
      }
    }
  }

  predicate IsOneBit(bit: ModifierMask) {
    bit == 0x01 || bit == 0x02 || bit == 0x04 || bit == 0x08 || bit == 0x10 || bit == 0x20 || bit == 0x40 || bit == 0x80
  }

  /** Setting a bit that is set, or clearing one that is not, changes nothing. */
  lemma SettledBit(mask: ModifierMask, bit: ModifierMask)
    requires IsOneBit(bit)
    ensures mask & bit != 0 ==> mask | bit == mask
    ensures mask & bit == 0 ==> mask & !bit == mask
  {
  }

  /** Everything a caller may know about one update. */
  lemma UpdateFacts(mask: ModifierMask, code: nat, pressed: bool)
    ensures forall c :: IsHeld(UpdateMask(mask, code, pressed), c) <==>
      if c == code then LCTRL <= code < LCTRL + 8 && pressed else IsHeld(mask, c)
    ensures mask != UpdateMask(mask, code, pressed) <==> LCTRL <= code < LCTRL + 8 && pressed != IsHeld(mask, code)
    ensures BitOf(code).Some? <==> LCTRL <= code < LCTRL + 8
  {
    forall c
      ensures IsHeld(UpdateMask(mask, code, pressed), c) <==>
        if c == code then LCTRL <= code < LCTRL + 8 && pressed else IsHeld(mask, c)
    {
      UpdateMovesOneBit(mask, code, pressed, c);
    }
    BitsAreDisjoint(code, code);
    if LCTRL <= code < LCTRL + 8 && pressed == IsHeld(mask, code) {
      SettledBit(mask, BitOf(code).value);
    }
  }

  /** The mask after a sequence of events; only key events count. */
  function FoldKeys(mask: ModifierMask, events: seq<InputEvent>): ModifierMask {
    if events == [] then mask
    else
      var front, e := FoldKeys(mask, events[..|events| - 1]), events[|events| - 1];
      if e.Key? then UpdateMask(front, e.code, e.down) else front
  }

  lemma FoldSnoc(mask: ModifierMask, events: seq<InputEvent>, e: InputEvent)
    ensures FoldKeys(mask, events + [e]) ==
      if e.Key? then UpdateMask(FoldKeys(mask, events), e.code, e.down) else FoldKeys(mask, events)
  {
    assert (events + [e])[..|events|] == events;
  }

  /** The direction of the last event of one key, if there was any. */
  function LastDirection(events: seq<InputEvent>, code: nat): Option<bool> {
    if events == [] then None
    else
      var e := events[|events| - 1];
      if e.Key? && e.code == code then Some(e.down) else LastDirection(events[..|events| - 1], code)
  }

  /** After any events from an empty mask, a modifier is held exactly when its
      last event was a press; nothing else is ever held. */
  lemma {:induction false} HeldIffLastPressed(events: seq<InputEvent>, code: nat)
    ensures IsHeld(FoldKeys(0, events), code) <==>
      LCTRL <= code < LCTRL + 8 && LastDirection(events, code) == Some(true)
  {
    if events != [] {
      var front, e := events[..|events| - 1], events[|events| - 1];
      HeldIffLastPressed(front, code);
      if e.Key? {
        UpdateMovesOneBit(FoldKeys(0, front), e.code, e.down, code);
      }
    }
  }

  class ModifierState {
    var mask: ModifierMask

    constructor ()
      ensures mask == 0
    {
      mask := 0;
    }

    method Update(code: nat, pressed: bool) returns (changed: bool)
      modifies this
      ensures mask == UpdateMask(old(mask), code, pressed)
      ensures forall c :: IsHeld(mask, c) <==>
        if c == code then LCTRL <= code < LCTRL + 8 && pressed else IsHeld(old(mask), c)
      ensures changed <==> LCTRL <= code < LCTRL + 8 && pressed != IsHeld(old(mask), code)
    {
      UpdateFacts(mask, code, pressed);
      var bit := BitOf(code);
      if bit.None? {
        return false;
      }
      var before := mask;
      if pressed {
        mask := mask | bit.value;
      } else {
        mask := mask & !bit.value;
      }
      changed := before != mask;
    }

    method Clear()
      modifies this
      ensures mask == 0
    {
      mask := 0;
    }
  }
}
