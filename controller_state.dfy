/**
 * The firmware's shared state as one value: the flag bits of
 * src/stc1000p.h:69-79, the globals of src/page0.c and src/page1.c and the
 * function-local statics of program_fsm, output_control and main. The
 * Controller class holds the same fields; the specification functions of the
 * other modules map one State to the next.
 */
module ControllerState {
  import opened Word
  import opened Stc1000p
  import opened Eeprom
  import opened MenuValues
  import opened Acquisition

  /** prg_state_enum */
  datatype PrgState =
    | PrgOff | PrgWaitStrike | PrgStrike | PrgStrikeWaitAlarm | PrgInitMashStep
    | PrgMash | PrgWaitBoilUpAlarm | PrgInitBoilUp | PrgHotbreak | PrgBoil
  {
    /** The number the state has as an unsigned char. */
    function Index(): (i: nat)
      ensures i < 10
    {
      match this
      case PrgOff => 0
      case PrgWaitStrike => 1
      case PrgStrike => 2
      case PrgStrikeWaitAlarm => 3
      case PrgInitMashStep => 4
      case PrgMash => 5
      case PrgWaitBoilUpAlarm => 6
      case PrgInitBoilUp => 7
      case PrgHotbreak => 8
      case PrgBoil => 9
    }
  }

  /** menu_states */
  datatype MenuState =
    | MenuIdle | MenuShowOutput | MenuShowState | MenuShowCountdown
    | MenuShowItem | MenuSetItem | MenuShowValue | MenuSetValue

  /** The text the alarm blinks (al_led_10, al_led_1, al_led_01); NoAlarmText before any alarm. */
  datatype AlarmText = NoAlarmText | AlarmSt | AlarmBU | AlarmHd1 | AlarmHd2 | AlarmHd3 | AlarmHd4 | AlarmCh

  /** How the pump pin is driven: PUMP_OFF() or PUMP_MANUAL() (PUMP_ON() is never used). */
  datatype PumpDrive = PumpOff | PumpManual

  /**
   * The flag bits of src/stc1000p.h:69-79 that the brew program, the outputs,
   * the menu and main share.
   */
  datatype Flags = Flags(off: bool, pause: bool, runPrg: bool, alarm: bool, thermostat: bool, pump: bool, menuIdle: bool)

  /** The variables of the brew program and the thermostat (page 0). */
  datatype Brew = Brew(
    setpoint: i16, temperature: i16, output: u8, thermostatOutput: u8,
    prgState: PrgState, countdown: u16, mashstep: u8, secCountdown: u8, alarmText: AlarmText
  )

  /** output_control's counter and latched output, and the pins it drives. */
  datatype Relays = Relays(
    outputCounter: u8, o: u8, heatRelay: bool, coolRelay: bool, buzzer: bool, pumpDrive: PumpDrive
  )

  /** The extra indicators of led_e; each boolean says whether it is lit (the register bits are active low). */
  datatype Indicators = Indicators(eNegative: bool, eDeg: bool, eC: bool, ePoint: bool, eHeat: bool, eCool: bool)

  /** The display registers; led1Point says whether the decimal point of the middle digit is lit. */
  datatype Leds = Leds(led10: Glyph, led1: Glyph, led1Point: bool, led01: Glyph, e: Indicators)

  /** The menu's variables (page 1). */
  datatype Menu = Menu(menuState: MenuState, menuItem: u8, mCountdown: u8, menuValue: i16, buttons: bv8, pr6: u8)

  /** All state of the controller; adFilter and millis are the locals of main. */
  datatype State = State(flags: Flags, brew: Brew, relays: Relays, leds: Leds, menu: Menu, adFilter: u16, millis: u16)

  /** Power-on state: OFF is initialised to 1, everything else to its static initialiser or zero. */
  const InitialState := State(
    Flags(true, false, false, false, false, false, false),
    Brew(0, 0, 0, 0, PrgOff, 0, 0, 60, NoAlarmText),
    Relays(0, 0, false, false, false, PumpOff),
    Leds(Blank, Blank, false, Blank, Indicators(false, false, false, false, false, false)),
    Menu(MenuIdle, 0, 0, 0, 0, 250),
    0x7fff / 4, 0
  )

  /** The value of configuration slot k (the argument is reduced to an unsigned char). */
  function Cfg(mem: seq<u8>, k: int): u16
    requires |mem| == EepromSize
  {
    SlotValue(mem, U8(k))
  }

  /** The stored value of menu item k, as the signed number the menu shows. */
  function ItemValue(mem: seq<u8>, k: u8): i16
    requires |mem| == EepromSize
  {
    S16(SlotValue(mem, k))
  }

  /** Every stored item lies within the bounds check_value() enforces for it. */
  predicate ConfigValid(mem: seq<u8>)
    requires |mem| == EepromSize
  {
    forall k: u8 :: k < MenuSize ==> InBounds(k, ItemValue(mem, k))
  }

  /** The calibrated temperature range: the lookup table's range plus the calibration bounds. */
  const TempLow := AdMin + MinTempDiff
  const TempHigh := AdMax + MaxTempDiff

  /** What value_to_led needs of the values the menu shows: each has at most four digits. */
  predicate Displayable(s: State)
  {
    -10000 < s.brew.setpoint < 10000 && s.brew.countdown < 10000 && -10000 < s.menu.menuValue < 10000
  }

  /** The brew program's part of the invariant: settings in bounds, mashstep names a mash step while mashing. */
  predicate BrewInv(b: Brew)
  {
    && MinTemp <= b.setpoint <= MaxTemp
    && TempLow <= b.temperature <= TempHigh
    && b.countdown <= 999
    && b.secCountdown <= 60
    && b.mashstep <= 4
    && (b.prgState == PrgInitMashStep || b.prgState == PrgMash ==> b.mashstep < 4)
  }

  /** The menu's part: the item exists and an edited value is within its item's bounds. */
  predicate MenuInv(m: Menu)
  {
    && m.menuItem <= MenuSize
    && MinTemp <= m.menuValue <= MaxTemp
    && (m.menuState == MenuShowValue || m.menuState == MenuSetValue ==> InBounds(m.menuItem, m.menuValue))
  }

  /** The length of one period of output_control, in calls: the counter runs 99..0. */
  const Period := 100

  /**
   * The invariant of the whole controller: every stored setting is in its
   * bounds, every value loaded from the store is in the bounds of its item,
   * mashstep only names mash steps 1..4 while mashing, the output counter
   * stays within its period, and the filter stays in the range that 10-bit
   * samples reach.
   */
  predicate Inv(s: State, mem: seq<u8>)
  {
    && |mem| == EepromSize
    && ConfigValid(mem)
    && BrewInv(s.brew)
    && MenuInv(s.menu)
    && s.relays.outputCounter < Period
    && s.adFilter <= FilterMax
  }

  /** The invariant gives what the displays need. */
  lemma InvDisplayable(s: State, mem: seq<u8>)
    requires Inv(s, mem)
    ensures Displayable(s)
  {
  }

  /** ConfigValid, read at one slot. */
  lemma SlotInBounds(mem: seq<u8>, k: int)
    requires |mem| == EepromSize && ConfigValid(mem) && 0 <= k < MenuSize
    ensures InBounds(k, S16(Cfg(mem, k)))
  {
    assert ItemValue(mem, k as u8) == S16(Cfg(mem, k));
  }

  /** The power-on state satisfies the invariant with any store whose settings are in bounds. */
  lemma InitialStateInv(mem: seq<u8>)
    requires |mem| == EepromSize && ConfigValid(mem)
    ensures Inv(InitialState, mem)
  {
  }
}
