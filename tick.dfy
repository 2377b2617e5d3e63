/**
 * The main loop of src/page0.c: the 62.5 ms timer section (TMR4IF) that
 * filters a new sample, drives the outputs and, every 16th time, converts
 * the temperature, runs the brew program and the thermostat and refreshes
 * the display; and the menu section (TMR6IF) that runs button_menu_fsm. The
 * order in which the two timers fire is left to the caller.
 */
module Tick {
  import opened Word
  import opened Stc1000p
  import opened Eeprom
  import opened MenuValues
  import opened Acquisition
  import opened ControllerState
  import opened Display
  import opened Program
  import opened Output
  import opened MenuFsm

  /** The temperature conversion of the one-second section: ad_to_temp of the filter plus the calibration slot tc. */
  function Converted(s: State, mem: seq<u8>): (t: State)
    requires |mem| == EepromSize && AdIndexOk(s.adFilter) && InBounds(tc, ItemValue(mem, tc))
    ensures t.brew.temperature == AdToTemp(s.adFilter) + ItemValue(mem, tc)
    ensures TempLow <= t.brew.temperature <= TempHigh
    ensures t == s.(brew := s.brew.(temperature := t.brew.temperature))
  {
    AdToTempRange(s.adFilter);
    CalibratedExact(AdToTemp(s.adFilter), Cfg(mem, tc));
    s.(brew := s.brew.(temperature := Calibrated(AdToTemp(s.adFilter), Cfg(mem, tc))))
  }

  /**
   * The display refresh of the one-second section: while the menu is idle,
   * the temperature, or the alarm text in the half seconds in which bit 4 of
   * the call counter is set.
   */
  function Refresh(p: State): (r: State)
    requires -10000 < p.brew.temperature < 10000
    ensures r == p.(leds := r.leds)
  {
    if p.flags.menuIdle then
      if p.flags.alarm && (p.millis / 16) % 2 == 1 then p.(leds := AlarmToLed(p.leds, p.brew.alarmText))
      else p.(leds := ValueToLed(p.leds, p.brew.temperature, true))
    else p
  }

  /** The one-second section: convert the temperature, run program_fsm and temperature_control, refresh the display. */
  function SecondTick(s: State, mem: seq<u8>): State
    requires |mem| == EepromSize && AdIndexOk(s.adFilter) && InBounds(tc, ItemValue(mem, tc))
  {
    var t := Converted(s, mem);
    ProgramKeepsTemperature(t, mem);
    Refresh(TemperatureControl(ProgramStep(t, mem)))
  }

  /**
   * The timer section of main, with `raw` the 10-bit ADC result of this call:
   * count the call (millisx60, an unsigned int), filter the sample, run
   * output_control, and run the second on every 16th call.
   */
  function TimerTick(s: State, mem: seq<u8>, raw: nat): State
    requires |mem| == EepromSize && raw < 1024 && InBounds(tc, ItemValue(mem, tc))
    requires U16(s.millis + 1) % 16 == 0 ==> AdIndexOk(FilterStep(s.adFilter, raw))
  {
    var s1 := OutputStep(s.(millis := U16(s.millis + 1), adFilter := FilterStep(s.adFilter, raw)));
    if s1.millis % 16 == 0 then SecondTick(s1, mem) else s1
  }

  /**
   * The timer section keeps the invariant: the filter stays within the range
   * of 10-bit samples, the calibrated temperature within the table's range
   * widened by the calibration bounds, and the brew variables within theirs.
   */
  lemma TimerTickInv(s: State, mem: seq<u8>, raw: nat)
    requires Inv(s, mem) && raw < 1024
    requires U16(s.millis + 1) % 16 == 0 ==> AdIndexOk(FilterStep(s.adFilter, raw))
    ensures Inv(TimerTick(s, mem, raw), mem)
  {
    FilterBounded(s.adFilter, raw);
    var s1 := OutputStep(s.(millis := U16(s.millis + 1), adFilter := FilterStep(s.adFilter, raw)));
    if s1.millis % 16 == 0 {
      SecondTickInv(s1, mem);
    }
  }

  /** The second keeps the invariant; the temperature it converts is exact in 16-bit arithmetic. */
  lemma SecondTickInv(s: State, mem: seq<u8>)
    requires Inv(s, mem) && AdIndexOk(s.adFilter)
    ensures Inv(SecondTick(s, mem), mem)
    ensures SecondTick(s, mem).brew.temperature == AdToTemp(s.adFilter) + ItemValue(mem, tc)
  {
    SlotInBounds(mem, tc);
    var t := Converted(s, mem);
    ProgramStepInv(t, mem);
    ProgramKeepsTemperature(t, mem);
    ProgramFrame(t, mem);
    var q := TemperatureControl(ProgramStep(t, mem));
    assert BrewInv(q.brew) && q.menu == s.menu && q.adFilter == s.adFilter;
    assert SecondTick(s, mem) == q.(leds := SecondTick(s, mem).leds);
  }

  /**
   * Only every 16th call of the timer section (once a second at 16 Hz) runs
   * the program, the thermostat and the display; every call counts, filters
   * and runs output_control, whose relays act on the flags and output of the
   * previous second.
   */
  lemma SecondEverySixteenCalls(s: State, mem: seq<u8>, raw: nat)
    requires |mem| == EepromSize && raw < 1024 && InBounds(tc, ItemValue(mem, tc))
    requires U16(s.millis + 1) % 16 == 0 ==> AdIndexOk(FilterStep(s.adFilter, raw))
    ensures var r := TimerTick(s, mem, raw);
            && r.millis == U16(s.millis + 1) && r.adFilter == FilterStep(s.adFilter, raw)
            && r.relays == RelayStep(s.relays, s.flags, s.brew.output)
            && r.menu == s.menu
            && (U16(s.millis + 1) % 16 != 0 ==> r.brew == s.brew && r.flags == s.flags)
  {
    var s1 := OutputStep(s.(millis := U16(s.millis + 1), adFilter := FilterStep(s.adFilter, raw)));
    if s1.millis % 16 == 0 {
      var t := Converted(s1, mem);
      ProgramFrame(t, mem);
    }
  }

  /**
   * While the menu is idle the display shows the converted temperature, read
   * back digit by digit with its sign and decimal point, except that with
   * ALARM set it shows the alarm text every other half second.
   */
  lemma DisplayShowsTemperature(s: State, mem: seq<u8>)
    requires Inv(s, mem) && AdIndexOk(s.adFilter) && s.flags.menuIdle
    ensures var r := SecondTick(s, mem);
            var temp := r.brew.temperature;
            && temp == AdToTemp(s.adFilter) + ItemValue(mem, tc)
            && (r.flags.alarm && (s.millis / 16) % 2 == 1 ==>
                  (r.leds.led10, r.leds.led1, r.leds.led01) == AlarmGlyphs(r.brew.alarmText))
            && (!(r.flags.alarm && (s.millis / 16) % 2 == 1) ==>
                  Reading(r.leds) == ShownNumber(temp) && r.leds.e.eNegative == (temp < 0)
                  && r.leds.led1Point == ShownDecimal(temp, true))
  {
    SlotInBounds(mem, tc);
    var t := Converted(s, mem);
    ProgramFrame(t, mem);
    ProgramKeepsTemperature(t, mem);
    var p := TemperatureControl(ProgramStep(t, mem));
    ValueToLedReadsBack(p.leds, p.brew.temperature, true);
  }

  /**
   * Acknowledging an awaited alarm resumes the program paused: the menu call
   * clears ALARM, and the next second's program_fsm sets PAUSE and moves on
   * to the mash steps or to the boil up.
   */
  lemma AcknowledgedAlarmPausesProgram(s: State, mem: seq<u8>)
    requires |mem| == EepromSize && Displayable(s)
    requires s.menu.menuState == MenuIdle && s.flags.alarm && s.menu.buttons & 0x0f != 0
    requires !s.flags.off && !s.flags.pause
    requires s.brew.prgState == PrgStrikeWaitAlarm || s.brew.prgState == PrgWaitBoilUpAlarm
    ensures var m := MenuStep(s, mem, false, false, false, false).0;
            var r := ProgramStep(m, mem);
            && !m.flags.alarm && r.flags.pause
            && r.brew.prgState == (if s.brew.prgState == PrgStrikeWaitAlarm then PrgInitMashStep else PrgInitBoilUp)
  {
    AlarmAcknowledged(s, mem);
    MenuFrame(s, mem, false, false, false, false);
    var m := MenuStep(s, mem, false, false, false, false).0;
    AcknowledgementPauses(m, mem);
  }
}
