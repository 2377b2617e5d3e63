/**
 * Button sampling of the menu (src/page1.c): `_buttons` keeps two samples
 * of the four buttons, the previous one in the high nibble and the current
 * one in the low nibble (pwr, s, up, down in bits 3..0). The masks select one
 * button in both nibbles.
 */
module Buttons {

  const BtnPwr: bv8 := 0x88
  const BtnS: bv8 := 0x44
  const BtnUp: bv8 := 0x22
  const BtnDown: bv8 := 0x11

  predicate IsButton(btn: bv8)
  {
    btn == BtnPwr || btn == BtnS || btn == BtnUp || btn == BtnDown
  }

  function BitOf(b: bool): bv8
  {
    if b then 1 else 0
  }

  /** One `_buttons = (_buttons << 1) | pin` statement (the shift is truncated to 8 bits). */
  function ShiftIn(history: bv8, pin: bool): bv8
  {
    (history << 1) | BitOf(pin)
  }

  /** The four shifts of one sample, in the order pwr, s, up, down. */
  function Sample(history: bv8, pwr: bool, s: bool, up: bool, down: bool): (b: bv8)
    ensures b >> 4 == history & 0x0f
    ensures (b & 0x08 != 0) == pwr && (b & 0x04 != 0) == s
    ensures (b & 0x02 != 0) == up && (b & 0x01 != 0) == down
  {
    ShiftIn(ShiftIn(ShiftIn(ShiftIn(history, pwr), s), up), down)
  }

  // The classification macros BTN_IDLE, BTN_PRESSED, BTN_HELD, BTN_RELEASED, BTN_HELD_OR_RELEASED.
  predicate BtnIdle(b: bv8, btn: bv8) { b & btn == 0x00 }
  predicate BtnPressed(b: bv8, btn: bv8) { b & btn == btn & 0x0f }
  predicate BtnHeld(b: bv8, btn: bv8) { b & btn == btn }
  predicate BtnReleased(b: bv8, btn: bv8) { b & btn == btn & 0xf0 }
  predicate BtnHeldOrReleased(b: bv8, btn: bv8) { b & btn & 0xf0 != 0 }

  /** Is the button down in the current sample / in the previous sample? */
  predicate DownNow(b: bv8, btn: bv8) { b & btn & 0x0f != 0 }
  predicate DownBefore(b: bv8, btn: bv8) { b & btn & 0xf0 != 0 }

  /**
   * The four classes mean what their names say, and for every button
   * exactly one of them holds.
   */
  lemma Classification(b: bv8, btn: bv8)
    requires IsButton(btn)
    ensures BtnIdle(b, btn) <==> !DownBefore(b, btn) && !DownNow(b, btn)
    ensures BtnPressed(b, btn) <==> !DownBefore(b, btn) && DownNow(b, btn)
    ensures BtnHeld(b, btn) <==> DownBefore(b, btn) && DownNow(b, btn)
    ensures BtnReleased(b, btn) <==> DownBefore(b, btn) && !DownNow(b, btn)
    ensures BtnHeldOrReleased(b, btn) <==> BtnHeld(b, btn) || BtnReleased(b, btn)
  {
  }

  /** Alarm acknowledgement condition: nothing down now, something down in the previous sample. */
  predicate AllReleased(b: bv8)
  {
    b & 0x0f == 0 && b & 0xf0 != 0
  }

  /**
   * A press seen in one sample is Pressed, not Held; seen in two samples it
   * is Held; the sample after that without it is Released, and the one
   * after that is Idle.
   */
  lemma PressHoldRelease(h: bv8)
    ensures var b1 := Sample(h, false, false, true, false);
            var b2 := Sample(b1, false, false, true, false);
            var b3 := Sample(b2, false, false, false, false);
            var b4 := Sample(b3, false, false, false, false);
            (!DownNow(h, BtnUp) ==> BtnPressed(b1, BtnUp) && !BtnHeld(b1, BtnUp)) &&
            BtnHeld(b2, BtnUp) && BtnReleased(b3, BtnUp) && BtnIdle(b4, BtnUp)
  {
  }
}
