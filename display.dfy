/**
 * What the firmware writes to the display registers (src/page0.c divu10 and
 * value_to_led, src/page1.c menu_to_led, and the fixed texts written by the
 * menu and the alarm blinker), as functions from one set of display registers to the next.
 */
module Display {
  import opened Word
  import opened Stc1000p
  import opened ControllerState

  /** divu10(): division by ten with shifts and adds only. */
  function Divu10(n: u16): (q: u16)
    ensures q == n / 10
  {
    var q1 := n / 2 + n / 4;        // three quarters of n
    var q2 := q1 + q1 / 16;         // refined towards 0.8 n
    var q3 := q2 + q2 / 256;
    var q4 := q3 / 8;               // an estimate of n / 10, at most one too small
    var r := n - (q4 * 8 + q4 * 2); // the remainder the estimate leaves
    Divu10Exact(n, q1, q2, q3, q4, r);
    q4 + (r + 6) / 16               // one more when that remainder is ten or above
  }

  /**
   * The shifted sums estimate 0.8 n / 8 closely enough that q4 is n / 10 or
   * one less, so the remainder r is below 20 and (r + 6) >> 4 is the carry.
   */
  lemma Divu10Exact(n: int, q1: int, q2: int, q3: int, q4: int, r: int)
    requires 0 <= n < 0x1_0000
    requires q1 == n / 2 + n / 4 && q2 == q1 + q1 / 16 && q3 == q2 + q2 / 256 && q4 == q3 / 8
    requires r == n - (q4 * 8 + q4 * 2)
    ensures q4 + (r + 6) / 16 == n / 10
  {
    assert 3 * n - 6 <= 4 * q1 <= 3 * n;
    assert 17 * q1 - 240 <= 16 * q2 <= 17 * q1;
    assert 257 * q2 - 255 * 256 <= 256 * q3 <= 257 * q2;
    assert 8 * q4 <= q3 < 8 * q4 + 8;
    assert 0 <= r < 20;
    RemainderCarry(q4, r);
  }

  /** For a remainder below 20, (r + 6) >> 4 is the tens carry r / 10. */
  lemma RemainderCarry(q: int, r: int)
    requires 0 <= r < 20
    ensures q + (r + 6) / 16 == (10 * q + r) / 10
  {
    if r < 10 {
      assert (r + 6) / 16 == 0 && (10 * q + r) / 10 == q;
    } else {
      assert (r + 6) / 16 == 1 && (10 * q + r) / 10 == q + 1;
    }
  }

  /** Magnitude of a displayed value. */
  function Abs(x: int): nat
  {
    if x < 0 then -x else x
  }

  /** The number the three digits show: the magnitude, divided by ten when it has four digits. */
  function ShownNumber(value: int): nat
  {
    if Abs(value) >= 1000 then Abs(value) / 10 else Abs(value)
  }

  /** Whether the decimal point is shown: only for a temperature of at most three digits. */
  function ShownDecimal(value: int, decimal: bool): bool
  {
    decimal && Abs(value) < 1000
  }

  /**
   * value_to_led(value, decimal), stated digit by digit: the sign indicator,
   * the degree and Celsius indicators for a temperature, hundreds, tens and
   * units of the shown number with the leading zeros blanked, except that a
   * temperature keeps one leading zero before its decimal point.
   */
  function ValueToLed(l: Leds, value: int, decimal: bool): Leds
    requires -10000 < value < 10000
  {
    var w := ShownNumber(value);
    var dec := ShownDecimal(value, decimal);
    var e1 := l.e.(eNegative := value < 0);
    var e2 := if decimal then e1.(eDeg := true, eC := true) else e1;
    l.(e := e2,
        led10 := if w >= 100 then Digit(w / 100) else Blank,
        led1 := if w >= 10 || dec then Digit(w / 10 % 10) else Blank,
        led1Point := dec,
        led01 := Digit(w % 10))
  }

  /** The number a display of three digits reads as (a blank digit reads as zero). */
  function GlyphValue(g: Glyph): nat
  {
    if g.Digit? then g.d else 0
  }

  function Reading(t: Leds): nat
  {
    100 * GlyphValue(t.led10) + 10 * GlyphValue(t.led1) + GlyphValue(t.led01)
  }

  predicate IsDigit(g: Glyph)
  {
    g.Digit? && g.d < 10
  }

  /**
   * The digits value_to_led() writes read back as the shown number: the
   * magnitude when it is below 1000, and the magnitude divided by ten (the
   * decimal point dropped) from 1000 on. Every digit written is one of the
   * ten glyphs of led_lookup, and a leading digit is blank exactly when it
   * would be a leading zero.
   */
  lemma ValueToLedReadsBack(l: Leds, value: int, decimal: bool)
    requires -10000 < value < 10000
    ensures var t := ValueToLed(l, value, decimal);
            && Reading(t) == (if Abs(value) >= 1000 then Abs(value) / 10 else Abs(value))
            && t.e.eNegative == (value < 0)
            && t.led1Point == (decimal && Abs(value) < 1000)
            && (t.led10 == Blank || IsDigit(t.led10)) && (t.led1 == Blank || IsDigit(t.led1)) && IsDigit(t.led01)
            && (t.led10 == Blank <==> Reading(t) < 100)
            && (t.led1 == Blank <==> Reading(t) < 10 && !t.led1Point)
  {
    var w := ShownNumber(value);
    DecimalDigits(w);
    var t := ValueToLed(l, value, decimal);
    assert GlyphValue(t.led10) == w / 100;
    assert GlyphValue(t.led1) == w / 10 % 10;
    assert GlyphValue(t.led01) == w % 10;
  }

  /** A number below 1000 is its hundreds, tens and units digits; its leading digits are zero exactly when it is short. */
  lemma DecimalDigits(w: nat)
    requires w < 1000
    ensures 100 * (w / 100) + 10 * (w / 10 % 10) + w % 10 == w
    ensures w / 100 < 10 && (w < 100 <==> w / 100 == 0) && (w < 10 <==> w / 100 == 0 && w / 10 % 10 == 0)
  {
  }

  /** Three characters on the digits; writing a glyph clears the decimal point of the middle digit. */
  function ShowText(l: Leds, g10: Glyph, g1: Glyph, g01: Glyph): Leds
  {
    l.(led10 := g10, led1 := g1, led1Point := false, led01 := g01)
  }

  /** led_e.raw = LED_OFF: every extra indicator dark. */
  function ExtrasOff(l: Leds): Leds
  {
    l.(e := Indicators(false, false, false, false, false, false))
  }

  /** The sign, degree, Celsius and point indicators dark, as menu_to_led() and the mode display set them. */
  function LabelIndicatorsOff(l: Leds): Leds
  {
    l.(e := l.e.(eNegative := false, eDeg := false, eC := false, ePoint := false))
  }

  /** menu_to_led(mi): the item's three-character label, or "rUn" for the run-mode item. */
  function MenuToLed(l: Leds, mi: u8): Leds
  {
    var t := LabelIndicatorsOff(l);
    if mi < MenuSize then
      ShowText(t, MenuData[mi].caption.0, MenuData[mi].caption.1, MenuData[mi].caption.2)
    else
      ShowText(t, Letter('r'), Letter('U'), Letter('n'))
  }

  /**
   * The digits name the item: its caption from MENU_DATA for a configuration
   * item, "rUn" for the run-mode item, which no configuration item's caption
   * reads; the four label indicators are dark and heat and cool keep their state.
   */
  lemma MenuLabelShown(l: Leds, mi: u8)
    requires mi <= MenuSize
    ensures var t := MenuToLed(l, mi);
            && (mi < MenuSize ==> (t.led10, t.led1, t.led01) == MenuData[mi].caption)
            && (((t.led10, t.led1, t.led01) == (Letter('r'), Letter('U'), Letter('n'))) <==> mi == MenuSize)
            && !t.led1Point
            && !t.e.eNegative && !t.e.eDeg && !t.e.eC && !t.e.ePoint
            && t.e.eHeat == l.e.eHeat && t.e.eCool == l.e.eCool
  {
    if mi < MenuSize {
      assert MenuData[mi].caption.0 != Letter('r');
    }
  }

  /** The characters al_led_10, al_led_1 and al_led_01 hold for each alarm text. */
  function AlarmGlyphs(a: AlarmText): (Glyph, Glyph, Glyph)
  {
    match a
    case NoAlarmText => (Blank, Blank, Blank)
    case AlarmSt => (Letter('S'), Letter('t'), Blank)
    case AlarmBU => (Letter('b'), Letter('U'), Blank)
    case AlarmHd1 => (Letter('h'), Letter('d'), Digit(1))
    case AlarmHd2 => (Letter('h'), Letter('d'), Digit(2))
    case AlarmHd3 => (Letter('h'), Letter('d'), Digit(3))
    case AlarmHd4 => (Letter('h'), Letter('d'), Digit(4))
    case AlarmCh => (Letter('C'), Letter('h'), Blank)
  }

  /** The alarm half of the blink in main: the digits take the alarm text. */
  function AlarmToLed(l: Leds, a: AlarmText): Leds
  {
    var g := AlarmGlyphs(a);
    ShowText(l, g.0, g.1, g.2)
  }
}
