/**
 * The automatic mash and boil program (program_fsm in src/page0.c), called
 * once a second. Each state's step is a function from the State after the
 * countdown tick to the next State; it changes only the flag bits and the
 * brew variables, and reads the configuration store.
 */
module Program {
  import opened Word
  import opened Stc1000p
  import opened Eeprom
  import opened MenuValues
  import opened ControllerState

  /**
   * The minute countdown: while countdown is not zero, sec_countdown runs
   * 59..0 and each wrap takes a minute off countdown. sec_countdown is not
   * reloaded when a new countdown is loaded.
   */
  function CountdownTick(b: Brew): Brew
  {
    if b.countdown == 0 then b
    else if b.secCountdown == 0 then b.(secCountdown := 59, countdown := b.countdown - 1)
    else b.(secCountdown := b.secCountdown - 1)
  }

  /** Seconds left on the countdown, counting the current partial minute. */
  function SecondsLeft(b: Brew): nat
  {
    60 * b.countdown + b.secCountdown
  }

  /**
   * Each call with a running countdown takes exactly one second off it and
   * leaves sec_countdown below 60; a countdown at zero is left alone; nothing
   * but the two counters changes.
   */
  lemma CountdownTickIsOneSecond(b: Brew)
    ensures b.countdown != 0 && b.secCountdown <= 60 ==>
              (SecondsLeft(CountdownTick(b)) + 1 == SecondsLeft(b) && CountdownTick(b).secCountdown < 60)
    ensures b.countdown == 0 ==> CountdownTick(b) == b
    ensures CountdownTick(b) == b.(countdown := CountdownTick(b).countdown, secCountdown := CountdownTick(b).secCountdown)
  {
  }

  /** prg_off: load the strike delay when a program is started, otherwise follow the manual or thermostat settings. */
  function StepOff(s: State, mem: seq<u8>): State
    requires |mem| == EepromSize
  {
    var f, b := s.flags, s.brew;
    if f.runPrg then
      s.(brew := b.(countdown := Cfg(mem, Sd), prgState := PrgWaitStrike))
    else
      var b1 := if f.thermostat then b.(setpoint := S16(Cfg(mem, cSP)), thermostatOutput := U8(Cfg(mem, cO)))
                else b.(output := U8(Cfg(mem, cO)));
      s.(flags := f.(pump := Bit(Cfg(mem, cP))), brew := b1)
  }

  /** prg_wait_strike: everything off until the strike delay has run out. */
  function StepWaitStrike(s: State, mem: seq<u8>): State
    requires |mem| == EepromSize
  {
    var f, b := s.flags.(thermostat := false, pump := false), s.brew.(output := 0);
    if b.countdown == 0 then s.(flags := f, brew := b.(countdown := Cfg(mem, ASd), prgState := PrgStrike))
    else s.(flags := f, brew := b)
  }

  /** prg_strike: heat towards the strike temperature; on reaching it, hold it and sound the "St" alarm. */
  function StepStrike(s: State, mem: seq<u8>): State
    requires |mem| == EepromSize
  {
    var f, b := s.flags.(pump := true), s.brew.(setpoint := S16(Cfg(mem, St)), output := U8(Cfg(mem, SO)));
    if b.temperature >= b.setpoint then
      s.(flags := f.(thermostat := true, alarm := true),
         brew := b.(thermostatOutput := b.output, alarmText := AlarmSt,
                    countdown := Cfg(mem, ASd), prgState := PrgStrikeWaitAlarm))
    else if b.countdown == 0 then s.(flags := f.(off := true), brew := b)
    else s.(flags := f, brew := b)
  }

  /** prg_strike_wait_alarm: when the alarm is acknowledged, pause for the mash-in and start mash step 1. */
  function StepStrikeWaitAlarm(s: State, mem: seq<u8>): State
    requires |mem| == EepromSize
  {
    var f, b := s.flags, s.brew;
    if !f.alarm then
      s.(flags := f.(pause := true),
         brew := b.(mashstep := 0, countdown := Cfg(mem, ASd), prgState := PrgInitMashStep))
    else if b.countdown == 0 then s.(flags := f.(off := true))
    else s
  }

  /** Slot of the temperature (Pt1 + 2 m) and of the duration (Pd1 + 2 m) of mash step m. */
  function MashTempSlot(m: u8): int { Pt1 + 2 * m }
  function MashDurationSlot(m: u8): int { Pd1 + 2 * m }

  /** prg_init_mash_step: heat to the step's temperature; on reaching it, hold it with PO and start the step's timer. */
  function StepInitMashStep(s: State, mem: seq<u8>): State
    requires |mem| == EepromSize
  {
    var f := s.flags.(thermostat := false, pump := true);
    var b := s.brew.(setpoint := S16(Cfg(mem, MashTempSlot(s.brew.mashstep))), output := U8(Cfg(mem, SO)));
    if b.temperature >= b.setpoint then
      s.(flags := f.(thermostat := true),
         brew := b.(thermostatOutput := U8(Cfg(mem, PO)),
                    countdown := Cfg(mem, MashDurationSlot(b.mashstep)), prgState := PrgMash))
    else if b.countdown == 0 then s.(flags := f.(off := true), brew := b)
    else s.(flags := f, brew := b)
  }

  /** prg_mash: when the step's time is up, go to the next step, or after the fourth raise the "bU" alarm. */
  function StepMash(s: State, mem: seq<u8>): State
    requires |mem| == EepromSize
  {
    var f, b := s.flags, s.brew;
    if b.countdown == 0 then
      var m := U8(b.mashstep + 1);
      if m < 4 then
        s.(brew := b.(mashstep := m, countdown := Cfg(mem, ASd), prgState := PrgInitMashStep))
      else
        s.(flags := f.(alarm := true),
           brew := b.(mashstep := m, alarmText := AlarmBU, countdown := Cfg(mem, ASd),
                      prgState := PrgWaitBoilUpAlarm))
    else s
  }

  /** prg_wait_boil_up_alarm: when the alarm is acknowledged, pause for the lautering and go on to boil up. */
  function StepWaitBoilUpAlarm(s: State, mem: seq<u8>): State
    requires |mem| == EepromSize
  {
    var f, b := s.flags, s.brew;
    if !f.alarm then
      s.(flags := f.(pause := true), brew := b.(countdown := Cfg(mem, ASd), prgState := PrgInitBoilUp))
    else if b.countdown == 0 then s.(flags := f.(off := true))
    else s
  }

  /**
   * prg_init_boil_up: heat with SO until the temperature reaches Ht. The
   * signed temperature is compared with the unsigned stored value, so it is
   * converted to unsigned first.
   */
  function StepInitBoilUp(s: State, mem: seq<u8>): State
    requires |mem| == EepromSize
  {
    var f, b := s.flags.(thermostat := false, pump := false), s.brew.(output := U8(Cfg(mem, SO)));
    if U16(b.temperature) >= Cfg(mem, Ht) then
      s.(flags := f, brew := b.(countdown := Cfg(mem, Hd), prgState := PrgHotbreak))
    else if b.countdown == 0 then s.(flags := f.(off := true), brew := b)
    else s.(flags := f, brew := b)
  }

  /** prg_hotbreak: heat with HO for the hot break time, then start the boil timer. */
  function StepHotbreak(s: State, mem: seq<u8>): State
    requires |mem| == EepromSize
  {
    var b := s.brew.(output := U8(Cfg(mem, HO)));
    if b.countdown == 0 then s.(brew := b.(countdown := Cfg(mem, bd), prgState := PrgBoil))
    else s.(brew := b)
  }

  /** Whether hop addition i (0-based) is due: its time equals the countdown in the first two seconds of the minute. */
  predicate HopDue(mem: seq<u8>, countdown: u16, sec: u8, i: nat)
    requires |mem| == EepromSize
  {
    countdown == Cfg(mem, hd1 + i) && sec > 57
  }

  /** The hop loop: the first hop addition from i on that is due, or 4 when there is none. */
  function FirstHop(mem: seq<u8>, countdown: u16, sec: u8, i: nat): (r: nat)
    requires |mem| == EepromSize && i <= 4
    ensures i <= r <= 4
    ensures r < 4 ==> HopDue(mem, countdown, sec, r)
    ensures forall j :: i <= j < r ==> !HopDue(mem, countdown, sec, j)
    decreases 4 - i
  {
    if i == 4 then 4
    else if HopDue(mem, countdown, sec, i) then i
    else FirstHop(mem, countdown, sec, i + 1)
  }

  /** The alarm text "hd1".."hd4" for hop addition i (0-based). */
  function HopText(i: nat): AlarmText
    requires i < 4
  {
    if i == 0 then AlarmHd1 else if i == 1 then AlarmHd2 else if i == 2 then AlarmHd3 else AlarmHd4
  }

  /** prg_boil: boil with bO, sound the hop alarms, and when the boil is over switch everything off with "Ch". */
  function StepBoil(s: State, mem: seq<u8>): State
    requires |mem| == EepromSize
  {
    var b1 := s.brew.(output := U8(Cfg(mem, bO)));
    var hop := FirstHop(mem, b1.countdown, b1.secCountdown, 0);
    var f := if hop < 4 then s.flags.(alarm := true) else s.flags;
    var b := if hop < 4 then b1.(alarmText := HopText(hop)) else b1;
    if b.countdown == 0 then
      s.(flags := f.(thermostat := false, off := true, alarm := true, runPrg := false),
         brew := b.(output := 0, alarmText := AlarmCh, prgState := PrgOff))
    else s.(flags := f, brew := b)
  }

  /** program_fsm(): OFF resets the state, PAUSE freezes everything, otherwise tick and run the current state. */
  function ProgramStep(s: State, mem: seq<u8>): State
    requires |mem| == EepromSize
  {
    if s.flags.off then s.(brew := s.brew.(prgState := PrgOff))
    else if s.flags.pause then s
    else StateStep(s.(brew := CountdownTick(s.brew)), mem)
  }

  /** The switch on prg_state. */
  function StateStep(s: State, mem: seq<u8>): State
    requires |mem| == EepromSize
  {
    match s.brew.prgState
    case PrgOff => StepOff(s, mem)
    case PrgWaitStrike => StepWaitStrike(s, mem)
    case PrgStrike => StepStrike(s, mem)
    case PrgStrikeWaitAlarm => StepStrikeWaitAlarm(s, mem)
    case PrgInitMashStep => StepInitMashStep(s, mem)
    case PrgMash => StepMash(s, mem)
    case PrgWaitBoilUpAlarm => StepWaitBoilUpAlarm(s, mem)
    case PrgInitBoilUp => StepInitBoilUp(s, mem)
    case PrgHotbreak => StepHotbreak(s, mem)
    case PrgBoil => StepBoil(s, mem)
  }

  /** n successive calls of program_fsm with the same store. */
  function Run(s: State, mem: seq<u8>, n: nat): State
    requires |mem| == EepromSize
    decreases n
  {
    if n == 0 then s else Run(ProgramStep(s, mem), mem, n - 1)
  }

  /** The state after the countdown tick of a running program. */
  function Ticked(s: State): State
  {
    s.(brew := CountdownTick(s.brew))
  }

  /** A running program (neither OFF nor PAUSE) runs the switch on the ticked state. */
  lemma RunningStep(s: State, mem: seq<u8>)
    requires |mem| == EepromSize && !s.flags.off && !s.flags.pause
    ensures ProgramStep(s, mem) == StateStep(Ticked(s), mem)
    ensures Ticked(s).flags == s.flags && Ticked(s).brew.prgState == s.brew.prgState
  {
  }

  /** With OFF set the program only returns to prg_off; nothing else changes. */
  lemma OffOnlyResetsState(s: State, mem: seq<u8>)
    requires |mem| == EepromSize && s.flags.off
    ensures ProgramStep(s, mem) == s.(brew := s.brew.(prgState := PrgOff))
  {
  }

  /** With PAUSE set (and OFF clear) the program is frozen: not even the countdown runs. */
  lemma PauseFreezes(s: State, mem: seq<u8>)
    requires |mem| == EepromSize && !s.flags.off && s.flags.pause
    ensures ProgramStep(s, mem) == s
  {
  }

  /** program_fsm changes only the flag bits and the brew variables, and never MENU_IDLE. */
  lemma ProgramFrame(s: State, mem: seq<u8>)
    requires |mem| == EepromSize
    ensures var r := ProgramStep(s, mem);
            && r.relays == s.relays && r.leds == s.leds && r.menu == s.menu
            && r.adFilter == s.adFilter && r.millis == s.millis && r.flags.menuIdle == s.flags.menuIdle
  {
    if !s.flags.off && !s.flags.pause {
      StateStepFacts(Ticked(s), mem);
    }
  }

  /**
   * What holds of every state's step: it changes nothing outside the flags
   * and the brew variables, never clears OFF, sets PAUSE only when an
   * awaited alarm has been acknowledged, and sets OFF only when the
   * countdown has run out in a state that waits with a timeout or boils.
   */
  lemma StateStepFacts(t: State, mem: seq<u8>)
    requires |mem| == EepromSize
    ensures var r := StateStep(t, mem);
            && r.relays == t.relays && r.leds == t.leds && r.menu == t.menu
            && r.adFilter == t.adFilter && r.millis == t.millis && r.flags.menuIdle == t.flags.menuIdle
            && (t.flags.off ==> r.flags.off)
            && (r.flags.pause && !t.flags.pause ==>
                  !t.flags.alarm && (t.brew.prgState == PrgStrikeWaitAlarm || t.brew.prgState == PrgWaitBoilUpAlarm))
            && (r.flags.off && !t.flags.off ==>
                  t.brew.countdown == 0
                  && (t.brew.prgState == PrgStrike || t.brew.prgState == PrgStrikeWaitAlarm
                      || t.brew.prgState == PrgInitMashStep || t.brew.prgState == PrgWaitBoilUpAlarm
                      || t.brew.prgState == PrgInitBoilUp || t.brew.prgState == PrgBoil))
  {
    match t.brew.prgState
    case PrgOff => assert StateStep(t, mem) == StepOff(t, mem);
    case PrgWaitStrike => assert StateStep(t, mem) == StepWaitStrike(t, mem);
    case PrgStrike => assert StateStep(t, mem) == StepStrike(t, mem);
    case PrgStrikeWaitAlarm => assert StateStep(t, mem) == StepStrikeWaitAlarm(t, mem);
    case PrgInitMashStep => assert StateStep(t, mem) == StepInitMashStep(t, mem);
    case PrgMash => assert StateStep(t, mem) == StepMash(t, mem);
    case PrgWaitBoilUpAlarm => assert StateStep(t, mem) == StepWaitBoilUpAlarm(t, mem);
    case PrgInitBoilUp => assert StateStep(t, mem) == StepInitBoilUp(t, mem);
    case PrgHotbreak => assert StateStep(t, mem) == StepHotbreak(t, mem);
    case PrgBoil => assert StateStep(t, mem) == StepBoil(t, mem);
  }

  /** program_fsm only reads the temperature; it never changes it. */
  lemma ProgramKeepsTemperature(s: State, mem: seq<u8>)
    requires |mem| == EepromSize
    ensures ProgramStep(s, mem).brew.temperature == s.brew.temperature
  {
    if !s.flags.off && !s.flags.pause {
      var t := Ticked(s);
      match t.brew.prgState
      case PrgOff => assert StateStep(t, mem) == StepOff(t, mem);
      case PrgWaitStrike => assert StateStep(t, mem) == StepWaitStrike(t, mem);
      case PrgStrike => assert StateStep(t, mem) == StepStrike(t, mem);
      case PrgStrikeWaitAlarm => assert StateStep(t, mem) == StepStrikeWaitAlarm(t, mem);
      case PrgInitMashStep => assert StateStep(t, mem) == StepInitMashStep(t, mem);
      case PrgMash => assert StateStep(t, mem) == StepMash(t, mem);
      case PrgWaitBoilUpAlarm => assert StateStep(t, mem) == StepWaitBoilUpAlarm(t, mem);
      case PrgInitBoilUp => assert StateStep(t, mem) == StepInitBoilUp(t, mem);
      case PrgHotbreak => assert StateStep(t, mem) == StepHotbreak(t, mem);
      case PrgBoil => assert StateStep(t, mem) == StepBoil(t, mem);
    }
  }

  /** The program itself never clears OFF, and sets PAUSE only at the two alarm acknowledgements. */
  lemma PauseOnlyAfterAcknowledgement(s: State, mem: seq<u8>)
    requires |mem| == EepromSize && !s.flags.pause
    ensures var r := ProgramStep(s, mem);
            && (s.flags.off ==> r.flags.off)
            && (r.flags.pause ==>
                  && !s.flags.off && !s.flags.alarm
                  && (s.brew.prgState == PrgStrikeWaitAlarm || s.brew.prgState == PrgWaitBoilUpAlarm))
  {
    if !s.flags.off {
      RunningStep(s, mem);
      StateStepFacts(Ticked(s), mem);
    }
  }

  /** OFF is set only when a wait times out or when the boil is over. */
  lemma OffOnlyOnTimeoutOrFinish(s: State, mem: seq<u8>)
    requires |mem| == EepromSize && !s.flags.off && !s.flags.pause
    ensures ProgramStep(s, mem).flags.off ==>
              && CountdownTick(s.brew).countdown == 0
              && (s.brew.prgState == PrgStrike || s.brew.prgState == PrgStrikeWaitAlarm
                  || s.brew.prgState == PrgInitMashStep || s.brew.prgState == PrgWaitBoilUpAlarm
                  || s.brew.prgState == PrgInitBoilUp || s.brew.prgState == PrgBoil)
  {
    RunningStep(s, mem);
    StateStepFacts(Ticked(s), mem);
  }

  /** Each wait switches the controller off when its countdown runs out before its condition is met. */
  lemma WaitsTimeOut(s: State, mem: seq<u8>)
    requires |mem| == EepromSize && !s.flags.off && !s.flags.pause
    requires CountdownTick(s.brew).countdown == 0
    ensures var r, b := ProgramStep(s, mem), s.brew;
            && (b.prgState == PrgStrike && b.temperature < S16(Cfg(mem, St)) ==> r.flags.off)
            && (b.prgState == PrgStrikeWaitAlarm && s.flags.alarm ==> r.flags.off)
            && (b.prgState == PrgInitMashStep && b.temperature < S16(Cfg(mem, MashTempSlot(b.mashstep))) ==> r.flags.off)
            && (b.prgState == PrgWaitBoilUpAlarm && s.flags.alarm ==> r.flags.off)
            && (b.prgState == PrgInitBoilUp && U16(b.temperature) < Cfg(mem, Ht) ==> r.flags.off)
            && (b.prgState == PrgBoil ==> r.flags.off)
  {
    RunningStep(s, mem);
    CountdownTickIsOneSecond(s.brew);
  }

  /**
   * Reaching the strike temperature turns the thermostat on, holding it with
   * the strike output SO (not PO), and raises the "St" alarm.
   */
  lemma StrikeReached(s: State, mem: seq<u8>)
    requires |mem| == EepromSize && !s.flags.off && !s.flags.pause && s.brew.prgState == PrgStrike
    requires s.brew.temperature >= S16(Cfg(mem, St))
    ensures var r := ProgramStep(s, mem);
            && r.flags.thermostat && r.brew.setpoint == S16(Cfg(mem, St))
            && r.brew.thermostatOutput == U8(Cfg(mem, SO)) && r.brew.output == U8(Cfg(mem, SO))
            && r.flags.alarm && r.brew.alarmText == AlarmSt && r.flags.pump && !r.flags.off
            && r.brew.countdown == Cfg(mem, ASd) && r.brew.prgState == PrgStrikeWaitAlarm
  {
    RunningStep(s, mem);
    CountdownTickIsOneSecond(s.brew);
  }

  /** Acknowledging an alarm the program waits for pauses the program and moves it on. */
  lemma AcknowledgementPauses(s: State, mem: seq<u8>)
    requires |mem| == EepromSize && !s.flags.off && !s.flags.pause && !s.flags.alarm
    ensures s.brew.prgState == PrgStrikeWaitAlarm ==>
              var r := ProgramStep(s, mem);
              r.flags.pause && r.brew.mashstep == 0 && r.brew.prgState == PrgInitMashStep
              && r.brew.countdown == Cfg(mem, ASd)
    ensures s.brew.prgState == PrgWaitBoilUpAlarm ==>
              var r := ProgramStep(s, mem);
              r.flags.pause && r.brew.prgState == PrgInitBoilUp && r.brew.countdown == Cfg(mem, ASd)
  {
    RunningStep(s, mem);
    CountdownTickIsOneSecond(s.brew);
  }

  /** Reaching a mash step's temperature starts that step's timer, holding it with PO. */
  lemma MashStepReached(s: State, mem: seq<u8>)
    requires |mem| == EepromSize && !s.flags.off && !s.flags.pause && s.brew.prgState == PrgInitMashStep
    requires s.brew.temperature >= S16(Cfg(mem, MashTempSlot(s.brew.mashstep)))
    ensures var r := ProgramStep(s, mem);
            && r.flags.thermostat && r.brew.thermostatOutput == U8(Cfg(mem, PO))
            && r.brew.setpoint == S16(Cfg(mem, MashTempSlot(s.brew.mashstep)))
            && r.brew.countdown == Cfg(mem, MashDurationSlot(s.brew.mashstep))
            && r.brew.prgState == PrgMash && r.brew.mashstep == s.brew.mashstep
  {
    RunningStep(s, mem);
    CountdownTickIsOneSecond(s.brew);
  }

  /**
   * When a mash step's time is up the next step starts; after the fourth step
   * the "bU" alarm is raised and the program waits for the boil up.
   */
  lemma MashStepEnds(s: State, mem: seq<u8>)
    requires |mem| == EepromSize && !s.flags.off && !s.flags.pause && s.brew.prgState == PrgMash
    requires s.brew.mashstep < 4 && CountdownTick(s.brew).countdown == 0
    ensures var r := ProgramStep(s, mem);
            && r.brew.mashstep == s.brew.mashstep + 1 && r.brew.countdown == Cfg(mem, ASd)
            && (s.brew.mashstep < 3 ==> r.brew.prgState == PrgInitMashStep && r.flags.alarm == s.flags.alarm)
            && (s.brew.mashstep == 3 ==> r.brew.prgState == PrgWaitBoilUpAlarm && r.flags.alarm
                                         && r.brew.alarmText == AlarmBU)
  {
    RunningStep(s, mem);
    CountdownTickIsOneSecond(s.brew);
  }

  /**
   * The boil-up comparison is unsigned: a negative temperature (a reading
   * below zero) converts to a number of at least 32768 and passes the check
   * against any non-negative Ht, ending the boil up at once.
   */
  lemma BoilUpUnsignedCompare(s: State, mem: seq<u8>)
    requires |mem| == EepromSize && !s.flags.off && !s.flags.pause && s.brew.prgState == PrgInitBoilUp
    requires s.brew.temperature < 0 && S16(Cfg(mem, Ht)) >= 0
    ensures ProgramStep(s, mem).brew.prgState == PrgHotbreak
  {
    RunningStep(s, mem);
    CountdownTickIsOneSecond(s.brew);
  }

  /** A hop alarm is raised with the first hop time that equals the countdown, in the first two seconds of that minute. */
  lemma HopAlarm(s: State, mem: seq<u8>, i: nat)
    requires |mem| == EepromSize && !s.flags.off && !s.flags.pause && s.brew.prgState == PrgBoil && i < 4
    requires var t := CountdownTick(s.brew);
             t.countdown != 0 && HopDue(mem, t.countdown, t.secCountdown, i)
             && forall j :: 0 <= j < i ==> !HopDue(mem, t.countdown, t.secCountdown, j)
    ensures var r := ProgramStep(s, mem);
            r.flags.alarm && r.brew.alarmText == HopText(i) && r.brew.prgState == PrgBoil
            && r.brew.output == U8(Cfg(mem, bO))
  {
    RunningStep(s, mem);
    CountdownTickIsOneSecond(s.brew);
    var t := CountdownTick(s.brew);
    var h := FirstHop(mem, t.countdown, t.secCountdown, 0);
    assert h == i;
  }

  /** Without a due hop the boil leaves the alarm as it was. */
  lemma NoHopNoAlarm(s: State, mem: seq<u8>)
    requires |mem| == EepromSize && !s.flags.off && !s.flags.pause && s.brew.prgState == PrgBoil
    requires var t := CountdownTick(s.brew);
             t.countdown != 0 && forall j :: 0 <= j < 4 ==> !HopDue(mem, t.countdown, t.secCountdown, j)
    ensures ProgramStep(s, mem).flags.alarm == s.flags.alarm
  {
    RunningStep(s, mem);
    CountdownTickIsOneSecond(s.brew);
  }

  /** When the boil is over everything is switched off and the "Ch" alarm is raised. */
  lemma BoilFinished(s: State, mem: seq<u8>)
    requires |mem| == EepromSize && !s.flags.off && !s.flags.pause && s.brew.prgState == PrgBoil
    requires CountdownTick(s.brew).countdown == 0
    ensures var r := ProgramStep(s, mem);
            && r.flags.off && !r.flags.runPrg && !r.flags.thermostat && r.brew.output == 0
            && r.flags.alarm && r.brew.alarmText == AlarmCh && r.brew.prgState == PrgOff
  {
    RunningStep(s, mem);
  }

  /** Without a program the controller follows the stored manual or thermostat settings. */
  lemma IdleFollowsSettings(s: State, mem: seq<u8>)
    requires |mem| == EepromSize && !s.flags.off && !s.flags.pause
    requires s.brew.prgState == PrgOff && !s.flags.runPrg
    ensures var r := ProgramStep(s, mem);
            && r.brew.prgState == PrgOff && r.flags.pump == Bit(Cfg(mem, cP))
            && (s.flags.thermostat ==>
                  r.brew.setpoint == S16(Cfg(mem, cSP)) && r.brew.thermostatOutput == U8(Cfg(mem, cO))
                  && r.brew.output == s.brew.output)
            && (!s.flags.thermostat ==> r.brew.output == U8(Cfg(mem, cO)) && r.brew.setpoint == s.brew.setpoint)
  {
    RunningStep(s, mem);
    CountdownTickIsOneSecond(s.brew);
  }

  /** The slots the mash steps read are the temperatures and durations of mash steps 1..4. */
  lemma MashSlots(m: u8)
    requires m < 4
    ensures MashTempSlot(m) == [Pt1, Pt2, Pt3, Pt4][m]
    ensures MashDurationSlot(m) == [Pd1, Pd2, Pd3, Pd4][m]
  {
  }

  /** The program keeps every brew variable the invariant constrains within its bounds. */
  lemma ProgramStepInv(s: State, mem: seq<u8>)
    requires |mem| == EepromSize && ConfigValid(mem) && BrewInv(s.brew)
    ensures BrewInv(ProgramStep(s, mem).brew)
  {
    if !s.flags.off && !s.flags.pause {
      RunningStep(s, mem);
      CountdownTickIsOneSecond(s.brew);
      StateStepInv(Ticked(s), mem);
    }
  }

  lemma StateStepInv(t: State, mem: seq<u8>)
    requires |mem| == EepromSize && ConfigValid(mem) && BrewInv(t.brew)
    ensures BrewInv(StateStep(t, mem).brew)
  {
    match t.brew.prgState
    case PrgOff => StepOffInv(t, mem);
    case PrgWaitStrike => StepWaitsInv(t, mem);
    case PrgStrike => StepStrikeInv(t, mem);
    case PrgStrikeWaitAlarm => StepWaitsInv(t, mem);
    case PrgInitMashStep => StepInitMashStepInv(t, mem);
    case PrgMash => StepWaitsInv(t, mem);
    case PrgWaitBoilUpAlarm => StepWaitsInv(t, mem);
    case PrgInitBoilUp => StepBoilInv(t, mem);
    case PrgHotbreak => StepBoilInv(t, mem);
    case PrgBoil => StepBoilInv(t, mem);
  }

  lemma StepOffInv(t: State, mem: seq<u8>)
    requires |mem| == EepromSize && ConfigValid(mem) && BrewInv(t.brew) && t.brew.prgState == PrgOff
    ensures BrewInv(StateStep(t, mem).brew)
  {
    SlotInBounds(mem, Sd);
    SlotInBounds(mem, cSP);
    assert StateStep(t, mem) == StepOff(t, mem);
  }

  lemma StepStrikeInv(t: State, mem: seq<u8>)
    requires |mem| == EepromSize && ConfigValid(mem) && BrewInv(t.brew) && t.brew.prgState == PrgStrike
    ensures BrewInv(StateStep(t, mem).brew)
  {
    SlotInBounds(mem, St);
    SlotInBounds(mem, ASd);
    assert StateStep(t, mem) == StepStrike(t, mem);
  }

  lemma StepInitMashStepInv(t: State, mem: seq<u8>)
    requires |mem| == EepromSize && ConfigValid(mem) && BrewInv(t.brew) && t.brew.prgState == PrgInitMashStep
    ensures BrewInv(StateStep(t, mem).brew)
  {
    MashSlots(t.brew.mashstep);
    SlotInBounds(mem, MashTempSlot(t.brew.mashstep));
    SlotInBounds(mem, MashDurationSlot(t.brew.mashstep));
    assert StateStep(t, mem) == StepInitMashStep(t, mem);
  }

  /** The states that only wait or count (wait strike, strike wait alarm, mash, wait boil up alarm). */
  lemma StepWaitsInv(t: State, mem: seq<u8>)
    requires |mem| == EepromSize && ConfigValid(mem) && BrewInv(t.brew)
    requires t.brew.prgState in {PrgWaitStrike, PrgStrikeWaitAlarm, PrgMash, PrgWaitBoilUpAlarm}
    ensures BrewInv(StateStep(t, mem).brew)
  {
    SlotInBounds(mem, ASd);
    match t.brew.prgState
    case PrgWaitStrike => assert StateStep(t, mem) == StepWaitStrike(t, mem);
    case PrgStrikeWaitAlarm => assert StateStep(t, mem) == StepStrikeWaitAlarm(t, mem);
    case PrgMash => assert StateStep(t, mem) == StepMash(t, mem);
    case PrgWaitBoilUpAlarm => assert StateStep(t, mem) == StepWaitBoilUpAlarm(t, mem);
  }

  /** The boil states (init boil up, hot break, boil). */
  lemma StepBoilInv(t: State, mem: seq<u8>)
    requires |mem| == EepromSize && ConfigValid(mem) && BrewInv(t.brew)
    requires t.brew.prgState in {PrgInitBoilUp, PrgHotbreak, PrgBoil}
    ensures BrewInv(StateStep(t, mem).brew)
  {
    match t.brew.prgState
    case PrgInitBoilUp =>
      SlotInBounds(mem, Hd);
      assert StateStep(t, mem) == StepInitBoilUp(t, mem);
    case PrgHotbreak =>
      SlotInBounds(mem, bd);
      assert StateStep(t, mem) == StepHotbreak(t, mem);
    case PrgBoil => assert StateStep(t, mem) == StepBoil(t, mem);
  }

  /**
   * The strike delay: started with a countdown of c minutes, the program
   * waits with everything off, and the strike begins at the call after
   * sec_countdown + 60 (c - 1) calls.
   */
  lemma {:induction false} WaitStrikeCountsDown(s: State, mem: seq<u8>, n: nat)
    requires |mem| == EepromSize && !s.flags.off && !s.flags.pause && s.brew.prgState == PrgWaitStrike
    requires s.brew.countdown >= 1 && s.brew.secCountdown <= 60
    requires n <= 60 * (s.brew.countdown - 1) + s.brew.secCountdown
    ensures var r := Run(s, mem, n);
            && r.brew.prgState == PrgWaitStrike && !r.flags.off && !r.flags.pause && r.brew.countdown >= 1
            && SecondsLeft(r.brew) + n == SecondsLeft(s.brew)
            && (n > 0 ==> r.brew.secCountdown < 60 && r.brew.output == 0 && !r.flags.thermostat && !r.flags.pump)
    decreases n
  {
    if n > 0 {
      var s1 := ProgramStep(s, mem);
      RunningStep(s, mem);
      CountdownTickIsOneSecond(s.brew);
      assert s1.brew.countdown >= 1;
      WaitStrikeCountsDown(s1, mem, n - 1);
      if n - 1 == 0 {
        assert Run(s1, mem, 0) == s1;
      }
    }
  }

  lemma StrikeDelay(s: State, mem: seq<u8>)
    requires |mem| == EepromSize && !s.flags.off && !s.flags.pause && s.brew.prgState == PrgWaitStrike
    requires s.brew.countdown >= 1 && s.brew.secCountdown <= 60
    ensures var n := 60 * (s.brew.countdown - 1) + s.brew.secCountdown;
            && Run(s, mem, n).brew.prgState == PrgWaitStrike
            && Run(s, mem, n + 1).brew.prgState == PrgStrike
            && Run(s, mem, n + 1).brew.countdown == Cfg(mem, ASd)
  {
    var n := 60 * (s.brew.countdown - 1) + s.brew.secCountdown;
    WaitStrikeCountsDown(s, mem, n);
    var r := Run(s, mem, n);
    RunLast(s, mem, n);
    RunningStep(r, mem);
    CountdownTickIsOneSecond(r.brew);
  }

  /** Running one more step is one step after the run. */
  lemma {:induction false} RunLast(s: State, mem: seq<u8>, n: nat)
    requires |mem| == EepromSize
    ensures Run(s, mem, n + 1) == ProgramStep(Run(s, mem, n), mem)
    decreases n
  {
    if n > 0 {
      RunLast(ProgramStep(s, mem), mem, n - 1);
    }
  }
}
