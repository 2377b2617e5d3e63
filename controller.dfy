/**
 * The firmware as it runs: the globals of src/page0.c and src/page1.c as the
 * fields of one Controller, and its routines as methods that update them in
 * place, each proved to compute the specification function of its module.
 * The configuration store is the data EEPROM, read and written through
 * ConfigStore.
 */
module Controller {
  import opened Word
  import opened Stc1000p
  import opened Eeprom
  import opened MenuValues
  import opened Buttons
  import opened Acquisition
  import opened ControllerState
  import Display
  import Output
  import Program
  import MenuFsm
  import Tick

  class Controller {
    var flags: Flags
    var brew: Brew
    var relays: Relays
    var leds: Leds
    var menu: Menu
    var adFilter: u16   // ad_filter, local to main
    var millis: u16     // millisx60, local to main
    const eeprom: ConfigStore

    /** The controller's variables as one State value. */
    ghost function View(): State
      reads this
    {
      State(flags, brew, relays, leds, menu, adFilter, millis)
    }

    /** The contents of the data EEPROM. */
    ghost function Store(): seq<u8>
      reads eeprom.mem
    {
      eeprom.mem[..]
    }

    /** The store is 256 bytes and the controller keeps the invariant of ControllerState. */
    ghost predicate Valid()
      reads this, eeprom.mem
    {
      eeprom.Valid() && Inv(View(), Store())
    }

    /** Power-on: the static initialisers, with the given data EEPROM. */
    constructor (store: ConfigStore)
      ensures View() == InitialState && eeprom == store
      ensures store.Valid() && ConfigValid(store.mem[..]) ==> Valid()
    {
      flags := InitialState.flags;
      brew := InitialState.brew;
      relays := InitialState.relays;
      leds := InitialState.leds;
      menu := InitialState.menu;
      adFilter := InitialState.adFilter;
      millis := InitialState.millis;
      eeprom := store;
      if store.Valid() && ConfigValid(store.mem[..]) {
        InitialStateInv(store.mem[..]);
      }
    }

    /**
     * value_to_led(value, decimal): the sign, divu10 for four digits, then
     * hundreds and tens by repeated subtraction, blanking leading zeros.
     */
    method ValueToLed(value: int, decimal: bool)
      requires -10000 < value < 10000
      modifies this
      ensures View() == old(View()).(leds := Display.ValueToLed(old(leds), value, decimal))
    {
      var e := leds.e;
      var v := value;
      if v < 0 {
        e := e.(eNegative := true);
        v := -v;
      } else {
        e := e.(eNegative := false);
      }
      var dec := decimal;
      if decimal {
        e := e.(eDeg := true, eC := true);
      }
      if v >= 1000 {
        v := Display.Divu10(v);
        dec := false;
      }
      assert v == Display.ShownNumber(value) && dec == Display.ShownDecimal(value, decimal);
      var g10, g1, g01 := BcdDigits(v, dec);
      leds := leds.(e := e, led10 := g10, led1 := g1, led1Point := dec, led01 := g01);
    }

    /** output_control(): the relay period, the latched output, the pins and the indicators. */
    method OutputControl()
      modifies this
      ensures View() == Output.OutputStep(old(View()))
    {
      var counter := relays.outputCounter;
      var o := relays.o;
      if counter == 0 {
        counter := Period;
        o := brew.output;
      }
      counter := counter - 1;
      var buzzer := false;
      var point := false;
      if flags.alarm {
        buzzer := counter > 75;
      } else if flags.pause && !flags.off {
        point := counter % 2 == 0;
      }
      var heat, cool, pump := false, false, PumpOff;
      if !(flags.pause || flags.off) {
        heat := o > counter;
        cool := o > counter + 100;
        if flags.pump {
          pump := PumpManual;
        }
      }
      relays := Relays(counter, o, heat, cool, buzzer, pump);
      leds := leds.(e := leds.e.(ePoint := point, eHeat := heat, eCool := cool));
    }

    /**
     * program_fsm(): OFF resets the program, PAUSE freezes it; otherwise the
     * minute countdown ticks and the current state runs, reading its settings
     * from the store.
     */
    method ProgramFsm()
      requires eeprom.Valid()
      modifies this
      ensures View() == Program.ProgramStep(old(View()), Store())
    {
      if flags.off {
        brew := brew.(prgState := PrgOff);
        return;
      }
      if flags.pause {
        return;
      }
      if brew.countdown != 0 {
        if brew.secCountdown == 0 {
          brew := brew.(secCountdown := 60, countdown := brew.countdown - 1);
        }
        brew := brew.(secCountdown := brew.secCountdown - 1);
      }
      assert View() == Program.Ticked(old(View()));
      match brew.prgState {
        case PrgOff => ProgOff();
        case PrgWaitStrike => WaitStrike();
        case PrgStrike => Strike();
        case PrgStrikeWaitAlarm => StrikeWaitAlarm();
        case PrgInitMashStep => InitMashStep();
        case PrgMash => Mash();
        case PrgWaitBoilUpAlarm => WaitBoilUpAlarm();
        case PrgInitBoilUp => InitBoilUp();
        case PrgHotbreak => Hotbreak();
        case PrgBoil => Boil();
      }
    }

    /** case prg_off */
    method ProgOff()
      requires eeprom.Valid()
      modifies this
      ensures View() == Program.StepOff(old(View()), Store())
    {
      if flags.runPrg {
        var sd := eeprom.Read(Sd);
        brew := brew.(countdown := sd, prgState := PrgWaitStrike);
      } else {
        if flags.thermostat {
          var sp := eeprom.Read(cSP);
          var co := eeprom.Read(cO);
          brew := brew.(setpoint := S16(sp), thermostatOutput := U8(co));
        } else {
          var co := eeprom.Read(cO);
          brew := brew.(output := U8(co));
        }
        var cp := eeprom.Read(cP);
        flags := flags.(pump := Bit(cp));
      }
    }

    /** case prg_wait_strike */
    method WaitStrike()
      requires eeprom.Valid()
      modifies this
      ensures View() == Program.StepWaitStrike(old(View()), Store())
    {
      brew := brew.(output := 0);
      flags := flags.(thermostat := false, pump := false);
      if brew.countdown == 0 {
        var asd := eeprom.Read(ASd);
        brew := brew.(countdown := asd, prgState := PrgStrike);
      }
    }

    /** case prg_strike */
    method Strike()
      requires eeprom.Valid()
      modifies this
      ensures View() == Program.StepStrike(old(View()), Store())
    {
      var st := eeprom.Read(St);
      var so := eeprom.Read(SO);
      brew := brew.(setpoint := S16(st), output := U8(so));
      flags := flags.(pump := true);
      if brew.temperature >= brew.setpoint {
        flags := flags.(thermostat := true, alarm := true);
        var asd := eeprom.Read(ASd);
        brew := brew.(thermostatOutput := brew.output, alarmText := AlarmSt, countdown := asd,
                      prgState := PrgStrikeWaitAlarm);
      } else if brew.countdown == 0 {
        flags := flags.(off := true);
      }
    }

    /** case prg_strike_wait_alarm */
    method StrikeWaitAlarm()
      requires eeprom.Valid()
      modifies this
      ensures View() == Program.StepStrikeWaitAlarm(old(View()), Store())
    {
      if !flags.alarm {
        flags := flags.(pause := true);
        var asd := eeprom.Read(ASd);
        brew := brew.(mashstep := 0, countdown := asd, prgState := PrgInitMashStep);
      } else if brew.countdown == 0 {
        flags := flags.(off := true);
      }
    }

    /** case prg_init_mash_step */
    method InitMashStep()
      requires eeprom.Valid()
      modifies this
      ensures View() == Program.StepInitMashStep(old(View()), Store())
    {
      var pt := eeprom.Read(U8(Pt1 + 2 * brew.mashstep));
      var so := eeprom.Read(SO);
      brew := brew.(setpoint := S16(pt), output := U8(so));
      flags := flags.(thermostat := false, pump := true);
      if brew.temperature >= brew.setpoint {
        flags := flags.(thermostat := true);
        var po := eeprom.Read(PO);
        var pd := eeprom.Read(U8(Pd1 + 2 * brew.mashstep));
        brew := brew.(thermostatOutput := U8(po), countdown := pd, prgState := PrgMash);
      } else if brew.countdown == 0 {
        flags := flags.(off := true);
      }
    }

    /** case prg_mash */
    method Mash()
      requires eeprom.Valid()
      modifies this
      ensures View() == Program.StepMash(old(View()), Store())
    {
      if brew.countdown == 0 {
        brew := brew.(mashstep := U8(brew.mashstep + 1));
        var asd := eeprom.Read(ASd);
        if brew.mashstep < 4 {
          brew := brew.(countdown := asd, prgState := PrgInitMashStep);
        } else {
          flags := flags.(alarm := true);
          brew := brew.(alarmText := AlarmBU, countdown := asd, prgState := PrgWaitBoilUpAlarm);
        }
      }
    }

    /** case prg_wait_boil_up_alarm */
    method WaitBoilUpAlarm()
      requires eeprom.Valid()
      modifies this
      ensures View() == Program.StepWaitBoilUpAlarm(old(View()), Store())
    {
      if !flags.alarm {
        flags := flags.(pause := true);
        var asd := eeprom.Read(ASd);
        brew := brew.(countdown := asd, prgState := PrgInitBoilUp);
      } else if brew.countdown == 0 {
        flags := flags.(off := true);
      }
    }

    /** case prg_init_boil_up: the signed temperature is compared with the unsigned setting. */
    method InitBoilUp()
      requires eeprom.Valid()
      modifies this
      ensures View() == Program.StepInitBoilUp(old(View()), Store())
    {
      flags := flags.(thermostat := false, pump := false);
      var so := eeprom.Read(SO);
      brew := brew.(output := U8(so));
      var ht := eeprom.Read(Ht);
      if U16(brew.temperature) >= ht {
        var hd := eeprom.Read(Hd);
        brew := brew.(countdown := hd, prgState := PrgHotbreak);
      } else if brew.countdown == 0 {
        flags := flags.(off := true);
      }
    }

    /** case prg_hotbreak */
    method Hotbreak()
      requires eeprom.Valid()
      modifies this
      ensures View() == Program.StepHotbreak(old(View()), Store())
    {
      var ho := eeprom.Read(HO);
      brew := brew.(output := U8(ho));
      if brew.countdown == 0 {
        var bd := eeprom.Read(bd);
        brew := brew.(countdown := bd, prgState := PrgBoil);
      }
    }

    /** case prg_boil: the hop timers, then the end of the boil. */
    method Boil()
      requires eeprom.Valid()
      modifies this
      ensures View() == Program.StepBoil(old(View()), Store())
    {
      var bo := eeprom.Read(bO);
      brew := brew.(output := U8(bo));
      var hop := HopScan(brew.countdown, brew.secCountdown);
      if hop < 4 {
        flags := flags.(alarm := true);
        brew := brew.(alarmText := Program.HopText(hop));
      }
      if brew.countdown == 0 {
        flags := flags.(thermostat := false, off := true, alarm := true, runPrg := false);
        brew := brew.(output := 0, alarmText := AlarmCh, prgState := PrgOff);
      }
    }

    /**
     * The hop timer loop of prg_boil: the first of hd1..hd4 whose time equals
     * the countdown while sec_countdown is above 57 (the loop's break), or 4.
     */
    method HopScan(countdown: u16, sec: u8) returns (hop: nat)
      requires eeprom.Valid()
      ensures hop <= 4
      ensures hop < 4 ==> Program.HopDue(Store(), countdown, sec, hop)
      ensures forall j :: 0 <= j < hop ==> !Program.HopDue(Store(), countdown, sec, j)
    {
      hop := 0;
      while hop < 4
        invariant hop <= 4
        invariant forall j :: 0 <= j < hop ==> !Program.HopDue(Store(), countdown, sec, j)
      {
        var hd := eeprom.Read(hd1 + hop);
        if countdown == hd && sec > 57 {
          break;
        }
        hop := hop + 1;
      }
    }

    /**
     * button_menu_fsm(), with the four button pins as read in this call:
     * shift the sample into the history, count the timeout down, run the
     * current menu state, and set MENU_IDLE.
     */
    method ButtonMenuFsm(pwr: bool, sBtn: bool, up: bool, down: bool)
      requires eeprom.Valid() && Displayable(View())
      modifies this, eeprom.mem
      ensures (View(), Store()) == MenuFsm.MenuStep(old(View()), old(Store()), pwr, sBtn, up, down)
      ensures Inv(old(View()), old(Store())) ==> Valid()
    {
      ghost var s0, mem0 := View(), Store();
      SampleButtons(pwr, sBtn, up, down);
      Dispatch();
      flags := flags.(menuIdle := menu.menuState == MenuIdle);
      if Inv(s0, mem0) {
        MenuFsm.MenuStepInv(s0, mem0, pwr, sBtn, up, down);
      }
    }

    /** The button read (one bit per pin, in the order pwr, s, up, down) and the timeout count. */
    method SampleButtons(pwr: bool, sBtn: bool, up: bool, down: bool)
      modifies this
      ensures View() == MenuFsm.Sampled(old(View()), pwr, sBtn, up, down)
    {
      var b := menu.buttons;
      b := ShiftIn(b, pwr);
      b := ShiftIn(b, sBtn);
      b := ShiftIn(b, up);
      b := ShiftIn(b, down);
      menu := menu.(buttons := b);
      if menu.mCountdown != 0 {
        menu := menu.(mCountdown := menu.mCountdown - 1);
      }
    }

    /** The switch on menustate. */
    method Dispatch()
      requires eeprom.Valid() && Displayable(View())
      modifies this, eeprom.mem
      ensures (View(), Store()) == MenuFsm.MenuDispatch(old(View()), old(Store()))
    {
      match menu.menuState {
        case MenuIdle => Idle();
        case MenuShowOutput => ShowOutput();
        case MenuShowState => ShowState();
        case MenuShowCountdown => ShowCountdown();
        case MenuShowItem => ShowItem();
        case MenuSetItem => SetItem();
        case MenuShowValue => ShowValue();
        case MenuSetValue => SetValue();
      }
    }

    /** case menu_idle */
    method Idle()
      modifies this
      ensures View() == MenuFsm.IdleStep(old(View()))
    {
      var b := menu.buttons;
      if flags.alarm && b & 0x0f == 0 && b & 0xf0 != 0 {
        flags := flags.(alarm := false);
      } else if BtnReleased(b, BtnPwr) {
        flags := flags.(pause := !flags.pause);
      } else if BtnReleased(b, BtnS) {
        menu := menu.(menuState := MenuShowItem);
      } else if BtnHeld(b, BtnUp) {
        menu := menu.(menuState := MenuShowOutput);
      } else if BtnHeld(b, BtnDown) {
        menu := menu.(mCountdown := MenuFsm.StateTimeout, menuState := MenuShowState);
      }
    }

    /** case menu_show_output */
    method ShowOutput()
      requires Displayable(View())
      modifies this
      ensures View() == MenuFsm.ShowOutputStep(old(View()))
    {
      if flags.off {
        leds := MenuFsm.OffText(leds);
      } else if flags.pause {
        leds := Display.ShowText(Display.ExtrasOff(leds), Letter('P'), Letter('S'), Letter('E'));
      } else if flags.thermostat {
        ValueToLed(brew.setpoint, true);
      } else {
        ValueToLed(brew.output, false);
      }
      if !BtnHeld(menu.buttons, BtnUp) {
        menu := menu.(menuState := MenuIdle);
      }
    }

    /** case menu_show_state */
    method ShowState()
      requires menu.menuState == MenuShowState
      modifies this
      ensures View() == MenuFsm.ShowStateStep(old(View()))
    {
      leds := MenuFsm.StateToLed(leds, flags, brew.prgState);
      if menu.mCountdown == 0 {
        menu := menu.(mCountdown := MenuFsm.StateTimeout);
        var i := brew.prgState.Index();
        if i == 1 || i == 5 || i > 8 {
          menu := menu.(menuState := MenuShowCountdown);
        }
      }
      if !BtnHeld(menu.buttons, BtnDown) {
        menu := menu.(menuState := MenuIdle);
      }
    }

    /** case menu_show_countdown */
    method ShowCountdown()
      requires Displayable(View())
      modifies this
      ensures View() == MenuFsm.ShowCountdownStep(old(View()))
    {
      ValueToLed(S16(brew.countdown), false);
      if menu.mCountdown == 0 {
        menu := menu.(mCountdown := MenuFsm.StateTimeout, menuState := MenuShowState);
      }
      if !BtnHeld(menu.buttons, BtnDown) {
        menu := menu.(menuState := MenuIdle);
      }
    }

    /** case menu_show_item */
    method ShowItem()
      modifies this
      ensures View() == MenuFsm.ShowItemStep(old(View()))
    {
      MenuToLed(menu.menuItem);
      menu := menu.(mCountdown := MenuFsm.EditTimeout, menuState := MenuSetItem);
    }

    /** menu_to_led(mi): the label indicators dark and the item's label, or "rUn". */
    method MenuToLed(mi: u8)
      modifies this
      ensures View() == old(View()).(leds := Display.MenuToLed(old(leds), mi))
    {
      leds := Display.LabelIndicatorsOff(leds);
      if mi < MenuSize {
        var c := MenuData[mi].caption;
        leds := Display.ShowText(leds, c.0, c.1, c.2);
      } else {
        leds := Display.ShowText(leds, Letter('r'), Letter('U'), Letter('n'));
      }
    }

    /** case menu_set_item */
    method SetItem()
      requires eeprom.Valid()
      modifies this
      ensures View() == MenuFsm.SetItemStep(old(View()), Store())
    {
      var b := menu.buttons;
      if menu.mCountdown == 0 || BtnReleased(b, BtnPwr) {
        menu := menu.(menuState := MenuIdle);
      } else if BtnReleased(b, BtnUp) {
        var n := U8(menu.menuItem + 1);
        if n > MenuSize {
          n := 0;
        }
        menu := menu.(menuItem := n, menuState := MenuShowItem);
      } else if BtnReleased(b, BtnDown) {
        var n := U8(menu.menuItem - 1);
        if n > MenuSize {
          n := MenuSize;
        }
        menu := menu.(menuItem := n, menuState := MenuShowItem);
      } else if BtnReleased(b, BtnS) {
        var v: i16;
        if menu.menuItem < MenuSize {
          var data := eeprom.Read(menu.menuItem);
          v := S16(data);
        } else if flags.off {
          v := 0;
        } else if flags.runPrg {
          v := 1;
        } else if flags.thermostat {
          v := 2;
        } else {
          v := 3;
        }
        menu := menu.(menuValue := v, menuState := MenuShowValue);
      }
    }

    /** case menu_show_value */
    method ShowValue()
      requires Displayable(View())
      modifies this
      ensures View() == MenuFsm.ShowValueStep(old(View()))
    {
      if menu.menuItem < MenuSize {
        var k := MenuData[menu.menuItem].kind;
        ValueToLed(menu.menuValue, k == TTemperature || k == TTempDiff);
      } else {
        leds := MenuFsm.ModeToLed(leds, menu.menuValue);
      }
      menu := menu.(mCountdown := MenuFsm.EditTimeout, menuState := MenuSetValue);
    }

    /** case menu_set_value */
    method SetValue()
      requires eeprom.Valid()
      modifies this, eeprom.mem
      ensures (View(), Store()) == MenuFsm.SetValueStep(old(View()), old(Store()))
    {
      var b := menu.buttons;
      if menu.mCountdown == 0 {
        menu := menu.(menuState := MenuIdle);
      } else if BtnReleased(b, BtnPwr) {
        menu := menu.(menuState := MenuShowItem);
      } else if BtnHeldOrReleased(b, BtnUp) || BtnHeldOrReleased(b, BtnDown) {
        StepValue(BtnHeldOrReleased(b, BtnUp));
      } else if BtnReleased(b, BtnS) {
        if menu.menuItem < MenuSize {
          eeprom.Write(menu.menuItem, U16(menu.menuValue));
        } else {
          flags := MenuFsm.CommitMode(flags, menu.menuValue);
        }
        menu := menu.(menuState := MenuShowItem);
      } else {
        menu := menu.(pr6 := MenuFsm.Pr6Slowest);
      }
    }

    /**
     * The up and down branches of menu_set_value and their shared exit: step
     * the value in int (ten at a time above 1000), check it, speed up the
     * repeat, show it.
     */
    method StepValue(upward: bool)
      modifies this
      ensures View() == MenuFsm.Adjust(old(View()),
                          if upward then MenuFsm.StepUp(old(menu.menuValue)) else MenuFsm.StepDown(old(menu.menuValue)))
    {
      var v: int := menu.menuValue;
      if upward {
        v := S16(U16(v + 1));
        if v > 1000 {
          v := S16(U16(v + 9));
        }
      } else {
        v := S16(U16(v - 1));
        if v > 1000 {
          v := S16(U16(v - 9));
        }
      }
      assert v == if upward then MenuFsm.StepUp(menu.menuValue) else MenuFsm.StepDown(menu.menuValue);
      v := MenuFsm.Checked(menu.menuItem, v);
      var pr6 := menu.pr6;
      if pr6 > 30 {
        pr6 := pr6 - 8;
      }
      menu := menu.(menuValue := v, pr6 := pr6, menuState := MenuShowValue);
    }

    /**
     * The 62.5 ms section of main, with `raw` the ADC result of this call:
     * count, filter, output_control, and every 16th call the temperature,
     * program_fsm, temperature_control and the display. It keeps the
     * controller's invariant.
     */
    method TimerTick(raw: nat)
      requires eeprom.Valid() && raw < 1024 && InBounds(tc, ItemValue(Store(), tc))
      requires U16(millis + 1) % 16 == 0 ==> AdIndexOk(FilterStep(adFilter, raw))
      modifies this
      ensures View() == Tick.TimerTick(old(View()), Store(), raw)
      ensures Inv(old(View()), Store()) ==> Valid()
    {
      ghost var s0 := View();
      millis := U16(millis + 1);
      adFilter := FilterStep(adFilter, raw);
      OutputControl();
      if millis % 16 == 0 {
        SecondSection();
      }
      if Inv(s0, Store()) {
        Tick.TimerTickInv(s0, Store(), raw);
      }
    }

    /** The one-second section of main. */
    method SecondSection()
      requires eeprom.Valid() && AdIndexOk(adFilter) && InBounds(tc, ItemValue(Store(), tc))
      modifies this
      ensures View() == Tick.SecondTick(old(View()), Store())
    {
      var adt := AdToTempLoop(adFilter);
      var tcv := eeprom.Read(tc);
      brew := brew.(temperature := Calibrated(adt, tcv));
      assert View() == Tick.Converted(old(View()), Store());
      ghost var t := View();
      ProgramFsm();
      Program.ProgramKeepsTemperature(t, Store());
      TemperatureControl();
      if flags.menuIdle {
        if flags.alarm && (millis / 16) % 2 == 1 {
          leds := Display.AlarmToLed(leds, brew.alarmText);
        } else {
          ValueToLed(brew.temperature, true);
        }
      }
    }

    /** temperature_control(): the on-off thermostat. */
    method TemperatureControl()
      modifies this
      ensures View() == Output.TemperatureControl(old(View()))
    {
      if flags.thermostat {
        if brew.temperature < brew.setpoint {
          brew := brew.(output := brew.thermostatOutput);
        } else {
          brew := brew.(output := 0);
        }
      }
    }
  }

  /**
   * The BCD part of value_to_led for a number below 1000: hundreds, then tens
   * by repeated subtraction; a leading zero is blank, except the tens digit
   * before a decimal point.
   */
  method BcdDigits(value: nat, decimal: bool) returns (g10: Glyph, g1: Glyph, g01: Glyph)
    requires value < 1000
    ensures g10 == if value >= 100 then Digit(value / 100) else Blank
    ensures g1 == if value >= 10 || decimal then Digit(value / 10 % 10) else Blank
    ensures g01 == Digit(value % 10)
  {
    var v := value;
    g10 := Blank;
    if v >= 100 {
      var h;
      h, v := Hundreds(value);
      g10 := Digit(h);
    }
    assert v == value % 100;
    g1 := Blank;
    if v >= 10 || decimal || g10 != Blank {
      var t;
      t, v := Tens(v);
      TensDigit(value);
      g1 := Digit(t);
    }
    assert v == value % 10;
    g01 := Digit(v);
  }

  /** The hundreds, counted out by repeated subtraction. */
  method Hundreds(value: nat) returns (h: nat, rest: nat)
    ensures h == value / 100 && rest == value % 100
  {
    h, rest := 0, value;
    while rest >= 100
      invariant 100 * h + rest == value
      decreases rest
    {
      rest := rest - 100;
      h := h + 1;
    }
  }

  /** The tens of a number below 100, counted out by repeated subtraction. */
  method Tens(v: nat) returns (t: nat, rest: nat)
    requires v < 100
    ensures t == v / 10 && rest == v % 10
  {
    t, rest := 0, v;
    while rest >= 10
      invariant 10 * t + rest == v
      decreases rest
    {
      rest := rest - 10;
      t := t + 1;
    }
  }

  /** The tens and units of w % 100 are the tens and units digits of w. */
  lemma TensDigit(w: nat)
    ensures w % 100 / 10 == w / 10 % 10 && w % 100 % 10 == w % 10
  {
    assert w == 100 * (w / 100) + w % 100;
  }
}
