/**
 * Declarations shared by both code pages of the firmware: display glyphs,
 * the unit-build limits, the item types and the table of configuration
 * items (`MENU_DATA`), whose position is also the EEPROM slot of the item.
 */
module Stc1000p {

  /**
   * What one seven-segment digit shows. The bit patterns of the glyphs are
   * not modelled: a digit is one of led_lookup[0..9], a letter is one of the
   * LED_x symbols, and Blank is LED_OFF.
   */
  datatype Glyph = Blank | Digit(d: nat) | Letter(c: char)

  /** The numeric limits of one unit build. */
  datatype Limits = Limits(minTemp: int, maxTemp: int, minTempDiff: int, maxTempDiff: int)

  const CelsiusLimits := Limits(-400, 1400, -50, 50)
  const FahrenheitLimits := Limits(-400, 2500, -100, 100)

  /** The model is of the Celsius build. */
  const MinTemp := CelsiusLimits.minTemp
  const MaxTemp := CelsiusLimits.maxTemp
  const MinTempDiff := CelsiusLimits.minTempDiff
  const MaxTempDiff := CelsiusLimits.maxTempDiff

  /** Temperature defaults of the Celsius build (tenths of a degree). */
  const DefaultSt := 345
  const DefaultMt := 345

  predicate LimitsWellFormed(l: Limits)
  {
    l.minTemp < l.maxTemp && l.minTempDiff == -l.maxTempDiff && 0 < l.maxTempDiff
  }

  /** Both unit builds have an ordered temperature range and a symmetric delta range. */
  lemma BuildLimitsWellFormed()
    ensures LimitsWellFormed(CelsiusLimits) && LimitsWellFormed(FahrenheitLimits)
  {
  }

  /** e_item_type */
  datatype ItemType = TTemperature | TTempDiff | TDuration | TPercentage | TBool

  /** One row of MENU_DATA: the three label characters, the type and the default. */
  datatype MenuEntry = MenuEntry(caption: (Glyph, Glyph, Glyph), kind: ItemType, defaultValue: int)

  function L(c: char): Glyph { Letter(c) }

  /** MENU_DATA, in menu_enum order. */
  const MenuData: seq<MenuEntry> := [
    MenuEntry((L('S'), L('d'), Blank),    TDuration,    0),
    MenuEntry((L('S'), L('t'), Blank),    TTemperature, DefaultSt),
    MenuEntry((L('S'), L('O'), Blank),    TPercentage,  200),
    MenuEntry((L('P'), L('t'), Digit(1)), TTemperature, DefaultMt),
    MenuEntry((L('P'), L('d'), Digit(1)), TDuration,    15),
    MenuEntry((L('P'), L('t'), Digit(2)), TTemperature, DefaultMt),
    MenuEntry((L('P'), L('d'), Digit(2)), TDuration,    30),
    MenuEntry((L('P'), L('t'), Digit(3)), TTemperature, DefaultMt),
    MenuEntry((L('P'), L('d'), Digit(3)), TDuration,    15),
    MenuEntry((L('P'), L('t'), Digit(4)), TTemperature, DefaultMt),
    MenuEntry((L('P'), L('d'), Digit(4)), TDuration,    0),
    MenuEntry((L('P'), L('O'), Blank),    TPercentage,  50),
    MenuEntry((L('H'), L('t'), Blank),    TTemperature, 985),
    MenuEntry((L('H'), L('O'), Blank),    TPercentage,  0),
    MenuEntry((L('H'), L('d'), Blank),    TDuration,    0),
    MenuEntry((L('b'), L('O'), Blank),    TPercentage,  0),
    MenuEntry((L('b'), L('d'), Blank),    TDuration,    0),
    MenuEntry((L('h'), L('d'), Digit(1)), TDuration,    60),
    MenuEntry((L('h'), L('d'), Digit(2)), TDuration,    45),
    MenuEntry((L('h'), L('d'), Digit(3)), TDuration,    15),
    MenuEntry((L('h'), L('d'), Digit(4)), TDuration,    5),
    MenuEntry((L('t'), L('c'), Blank),    TTempDiff,    0),
    MenuEntry((L('c'), L('O'), Blank),    TPercentage,  80),
    MenuEntry((L('c'), L('P'), Blank),    TBool,        0),
    MenuEntry((L('c'), L('S'), L('P')),   TTemperature, 0),
    MenuEntry((L('A'), L('S'), L('d')),   TDuration,    90)
  ]

  /** MENU_SIZE: the number of real items; menu_item == MenuSize is the run-mode item. */
  const MenuSize := |MenuData|

  // menu_enum: the position of each item in MENU_DATA. EEADR_MENU_ITEM is the
  // identity, so these are also the EEPROM slot numbers of the items.
  const Sd := 0
  const St := 1
  const SO := 2
  const Pt1 := 3
  const Pd1 := 4
  const Pt2 := 5
  const Pd2 := 6
  const Pt3 := 7
  const Pd3 := 8
  const Pt4 := 9
  const Pd4 := 10
  const PO := 11
  const Ht := 12
  const HO := 13
  const Hd := 14
  const bO := 15
  const bd := 16
  const hd1 := 17
  const hd2 := 18
  const hd3 := 19
  const hd4 := 20
  const tc := 21
  const cO := 22
  const cP := 23
  const cSP := 24
  const ASd := 25

  /** The table has 26 rows, so the run-mode item is number 26. */
  lemma MenuSizeIs26()
    ensures MenuSize == 26 && ASd == MenuSize - 1
  {
  }

  /**
   * The mash step arithmetic Pt1 + 2k and Pd1 + 2k of the brew program names
   * the items labelled Pt(k+1) and Pd(k+1), the temperature and the duration
   * of mash step k+1.
   */
  lemma MashSlotsNameMashItems(k: nat)
    requires k < 4
    ensures Pt1 + 2 * k < MenuSize && Pd1 + 2 * k < MenuSize
    ensures MenuData[Pt1 + 2 * k] == MenuEntry((L('P'), L('t'), Digit(k + 1)), TTemperature, DefaultMt)
    ensures MenuData[Pd1 + 2 * k].caption == (L('P'), L('d'), Digit(k + 1))
    ensures MenuData[Pd1 + 2 * k].kind == TDuration
  {
  }

  /** hd1 + i names the item labelled hd(i+1), the minute of hop addition i+1. */
  lemma HopSlotsNameHopItems(i: nat)
    requires i < 4
    ensures hd1 + i < MenuSize
    ensures MenuData[hd1 + i].caption == (L('h'), L('d'), Digit(i + 1))
    ensures MenuData[hd1 + i].kind == TDuration
  {
  }
}
