/**
 * The button and menu state machine (src/page1.c button_menu_fsm), called
 * about nine times a second. Each call shifts one sample of the four buttons
 * into the history, counts the menu timeout down, runs the current menu
 * state, and mirrors "menu idle" into MENU_IDLE. Only committing a value
 * writes to the configuration store; the menu never touches the brew
 * variables or the relays.
 */
module MenuFsm {
  import opened Word
  import opened Stc1000p
  import opened Eeprom
  import opened MenuValues
  import opened Buttons
  import opened ControllerState
  import opened Display

  /** The timeout loaded when an item or a value is shown, and the state/countdown alternation period, in calls. */
  const EditTimeout := 110
  const StateTimeout := 20

  /** The fastest and the slowest repeat period of held up/down buttons (the value PR6 settles at, and its reset value). */
  const Pr6Fastest := 26
  const Pr6Slowest := 250

  function Goto(t: State, ms: MenuState): State
  {
    t.(menu := t.menu.(menuState := ms))
  }

  /** "OFF" with every extra indicator dark, as the output, state and mode displays show it. */
  function OffText(l: Leds): Leds
  {
    ShowText(ExtrasOff(l), Letter('O'), Letter('F'), Letter('F'))
  }

  /** menu_idle: acknowledge the alarm, toggle PAUSE, or open one of the displays or the item menu. */
  function IdleStep(t: State): State
  {
    var b := t.menu.buttons;
    if t.flags.alarm && AllReleased(b) then t.(flags := t.flags.(alarm := false))
    else if BtnReleased(b, BtnPwr) then t.(flags := t.flags.(pause := !t.flags.pause))
    else if BtnReleased(b, BtnS) then Goto(t, MenuShowItem)
    else if BtnHeld(b, BtnUp) then Goto(t, MenuShowOutput)
    else if BtnHeld(b, BtnDown) then t.(menu := t.menu.(mCountdown := StateTimeout, menuState := MenuShowState))
    else t
  }

  /** menu_show_output: "OFF", "PSE", the setpoint (thermostat) or the output percentage, while up is held. */
  function ShowOutputStep(t: State): State
    requires Displayable(t)
  {
    var f := t.flags;
    var l := if f.off then OffText(t.leds)
             else if f.pause then ShowText(ExtrasOff(t.leds), Letter('P'), Letter('S'), Letter('E'))
             else if f.thermostat then ValueToLed(t.leds, t.brew.setpoint, true)
             else ValueToLed(t.leds, t.brew.output, false);
    var t1 := t.(leds := l);
    if !BtnHeld(t.menu.buttons, BtnUp) then Goto(t1, MenuIdle) else t1
  }

  /** What menu_show_state writes: "OFF", the program phase ("St", "P", "Hb", "b"), "th", or nothing. */
  function StateToLed(l: Leds, f: Flags, p: PrgState): Leds
  {
    if f.off then OffText(l)
    else if f.runPrg then
      var t := ExtrasOff(l);
      if p.Index() < 4 then ShowText(t, Letter('S'), Letter('t'), Blank)
      else if p.Index() < 6 then ShowText(t, Letter('P'), Blank, Blank)
      else if p.Index() < 9 then ShowText(t, Letter('H'), Letter('b'), Blank)
      else ShowText(t, Letter('b'), Blank, Blank)
    else if f.thermostat then ShowText(ExtrasOff(l), Letter('t'), Letter('h'), Blank)
    else l
  }

  /**
   * menu_show_state: while down is held, show the state; every 20 calls switch
   * to the countdown when prg_state is 1, 5 or above 8.
   */
  function ShowStateStep(t: State): State
  {
    var t1 := t.(leds := StateToLed(t.leds, t.flags, t.brew.prgState));
    var i := t.brew.prgState.Index();
    var t2 := if t.menu.mCountdown == 0 then
                t1.(menu := t1.menu.(mCountdown := StateTimeout,
                                     menuState := if i == 1 || i == 5 || i > 8 then MenuShowCountdown else MenuShowState))
              else t1;
    if !BtnHeld(t.menu.buttons, BtnDown) then Goto(t2, MenuIdle) else t2
  }

  /** menu_show_countdown: while down is held, show the countdown (as an int); every 20 calls go back to the state. */
  function ShowCountdownStep(t: State): State
    requires Displayable(t)
  {
    var t1 := t.(leds := ValueToLed(t.leds, S16(t.brew.countdown), false));
    var t2 := if t.menu.mCountdown == 0 then t1.(menu := t1.menu.(mCountdown := StateTimeout, menuState := MenuShowState))
              else t1;
    if !BtnHeld(t.menu.buttons, BtnDown) then Goto(t2, MenuIdle) else t2
  }

  /** menu_show_item: show the item's label and wait for a choice. */
  function ShowItemStep(t: State): State
  {
    t.(leds := MenuToLed(t.leds, t.menu.menuItem),
       menu := t.menu.(mCountdown := EditTimeout, menuState := MenuSetItem))
  }

  /** The item after mi: menu_item++ in an unsigned char, wrapping from the run-mode item to item 0. */
  function NextItem(mi: u8): u8
  {
    var n := U8(mi + 1);
    if n > MenuSize then 0 else n
  }

  /** The item before mi: menu_item-- in an unsigned char, wrapping from item 0 (to 255) to the run-mode item. */
  function PrevItem(mi: u8): u8
  {
    var n := U8(mi - 1);
    if n > MenuSize then MenuSize else n
  }

  /** The run mode as the mode item shows it: 0 off, 1 program, 2 thermostat, 3 constant output. */
  function ModeOf(f: Flags): i16
  {
    if f.off then 0 else if f.runPrg then 1 else if f.thermostat then 2 else 3
  }

  /** menu_set_item: time out or leave with power, step through the items, or open the value of the item. */
  function SetItemStep(t: State, mem: seq<u8>): State
    requires |mem| == EepromSize
  {
    var b, m := t.menu.buttons, t.menu;
    if m.mCountdown == 0 || BtnReleased(b, BtnPwr) then Goto(t, MenuIdle)
    else if BtnReleased(b, BtnUp) then t.(menu := m.(menuItem := NextItem(m.menuItem), menuState := MenuShowItem))
    else if BtnReleased(b, BtnDown) then t.(menu := m.(menuItem := PrevItem(m.menuItem), menuState := MenuShowItem))
    else if BtnReleased(b, BtnS) then
      var v := if m.menuItem < MenuSize then S16(Cfg(mem, m.menuItem)) else ModeOf(t.flags);
      t.(menu := m.(menuValue := v, menuState := MenuShowValue))
    else t
  }

  /** The mode names: "OFF", "Pr", "ct" and "cO", with the label indicators dark. */
  function ModeToLed(l: Leds, v: int): Leds
  {
    var t := LabelIndicatorsOff(l);
    if v == 0 then ShowText(t, Letter('O'), Letter('F'), Letter('F'))
    else if v == 1 then ShowText(t, Letter('P'), Letter('r'), Blank)
    else if v == 2 then ShowText(t, Letter('c'), Letter('t'), Blank)
    else ShowText(t, Letter('c'), Letter('O'), Blank)
  }

  /** menu_show_value: show the value (temperatures with their decimal point) or the mode name, then edit it. */
  function ShowValueStep(t: State): State
    requires Displayable(t)
  {
    var m := t.menu;
    var l := if m.menuItem < MenuSize then
               var k := MenuData[m.menuItem].kind;
               ValueToLed(t.leds, m.menuValue, k == TTemperature || k == TTempDiff)
             else ModeToLed(t.leds, m.menuValue);
    t.(leds := l, menu := m.(mCountdown := EditTimeout, menuState := MenuSetValue))
  }

  /** The up step of the value: menu_value++ in int, and nine more above 1000. */
  function StepUp(v: i16): i16
  {
    var w := S16(U16(v + 1));
    if w > 1000 then S16(U16(w + 9)) else w
  }

  /** The down step: menu_value-- in int, and nine more above 1000. */
  function StepDown(v: i16): i16
  {
    var w := S16(U16(v - 1));
    if w > 1000 then S16(U16(w - 9)) else w
  }

  /** The repeat acceleration: PR6 -= 8 while it is above 30. */
  function Accelerate(pr6: u8): u8
  {
    if pr6 > 30 then pr6 - 8 else pr6
  }

  /** check_value() on the stepped value, which stays within the temperature range. */
  function Checked(mi: u8, v: int): (r: i16)
    ensures InBounds(mi, r) && MinTemp <= r <= MaxTemp
    ensures InBounds(mi, v) ==> r == v
  {
    var r := CheckValue(mi, v);
    BoundsWithinTemperatureRange(mi, r);
    r
  }

  /** The shared exit of the up and down branches: check the value, accelerate, show it. */
  function Adjust(t: State, v: i16): State
  {
    var m := t.menu;
    t.(menu := m.(menuValue := Checked(m.menuItem, v), pr6 := Accelerate(m.pr6), menuState := MenuShowValue))
  }

  /** Setting the run mode from the mode item: 0 off, 1 program, 2 thermostat, anything else constant output. */
  function CommitMode(f: Flags, v: int): Flags
  {
    if v == 0 then f.(off := true, runPrg := false, pump := false, thermostat := false)
    else if v == 1 then f.(off := false, runPrg := true)
    else if v == 2 then f.(off := false, runPrg := false, thermostat := true)
    else f.(off := false, runPrg := false, thermostat := false)
  }

  /**
   * menu_set_value: time out, leave with power without saving, step the value
   * while up or down is held or released, commit it with S, and reset the
   * repeat period when no button is active. Returns the new state and store.
   */
  function SetValueStep(t: State, mem: seq<u8>): (State, seq<u8>)
    requires |mem| == EepromSize
  {
    var b, m := t.menu.buttons, t.menu;
    if m.mCountdown == 0 then (Goto(t, MenuIdle), mem)
    else if BtnReleased(b, BtnPwr) then (Goto(t, MenuShowItem), mem)
    else if BtnHeldOrReleased(b, BtnUp) then (Adjust(t, StepUp(m.menuValue)), mem)
    else if BtnHeldOrReleased(b, BtnDown) then (Adjust(t, StepDown(m.menuValue)), mem)
    else if BtnReleased(b, BtnS) then
      if m.menuItem < MenuSize then (Goto(t, MenuShowItem), WriteSlot(mem, m.menuItem, U16(m.menuValue)))
      else (Goto(t.(flags := CommitMode(t.flags, m.menuValue)), MenuShowItem), mem)
    else (t.(menu := m.(pr6 := Pr6Slowest)), mem)
  }

  /** The switch on menustate. */
  function MenuDispatch(t: State, mem: seq<u8>): (State, seq<u8>)
    requires |mem| == EepromSize && Displayable(t)
  {
    match t.menu.menuState
    case MenuIdle => (IdleStep(t), mem)
    case MenuShowOutput => (ShowOutputStep(t), mem)
    case MenuShowState => (ShowStateStep(t), mem)
    case MenuShowCountdown => (ShowCountdownStep(t), mem)
    case MenuShowItem => (ShowItemStep(t), mem)
    case MenuSetItem => (SetItemStep(t, mem), mem)
    case MenuShowValue => (ShowValueStep(t), mem)
    case MenuSetValue => SetValueStep(t, mem)
  }

  /** The state after sampling the buttons and counting the timeout down. */
  function Sampled(s: State, pwr: bool, sBtn: bool, up: bool, down: bool): State
  {
    var m := s.menu;
    s.(menu := m.(buttons := Sample(m.buttons, pwr, sBtn, up, down),
                  mCountdown := if m.mCountdown != 0 then m.mCountdown - 1 else 0))
  }

  /** button_menu_fsm(), with the four button pins as read in this call. */
  function MenuStep(s: State, mem: seq<u8>, pwr: bool, sBtn: bool, up: bool, down: bool): (State, seq<u8>)
    requires |mem| == EepromSize && Displayable(s)
  {
    var r := MenuDispatch(Sampled(s, pwr, sBtn, up, down), mem);
    (r.0.(flags := r.0.flags.(menuIdle := r.0.menu.menuState == MenuIdle)), r.1)
  }

  /** The dispatch runs the step of the current menu state. */
  lemma DispatchIs(t: State, mem: seq<u8>)
    requires |mem| == EepromSize && Displayable(t)
    ensures t.menu.menuState == MenuIdle ==> MenuDispatch(t, mem) == (IdleStep(t), mem)
    ensures t.menu.menuState == MenuShowOutput ==> MenuDispatch(t, mem) == (ShowOutputStep(t), mem)
    ensures t.menu.menuState == MenuShowState ==> MenuDispatch(t, mem) == (ShowStateStep(t), mem)
    ensures t.menu.menuState == MenuShowCountdown ==> MenuDispatch(t, mem) == (ShowCountdownStep(t), mem)
    ensures t.menu.menuState == MenuShowItem ==> MenuDispatch(t, mem) == (ShowItemStep(t), mem)
    ensures t.menu.menuState == MenuSetItem ==> MenuDispatch(t, mem) == (SetItemStep(t, mem), mem)
    ensures t.menu.menuState == MenuShowValue ==> MenuDispatch(t, mem) == (ShowValueStep(t), mem)
    ensures t.menu.menuState == MenuSetValue ==> MenuDispatch(t, mem) == SetValueStep(t, mem)
  {
  }

  /** What every menu state's step keeps: the brew variables, the relays, the filter, the clock and the button history. */
  predicate MenuOnly(t: State, r: State)
  {
    r.brew == t.brew && r.relays == t.relays && r.adFilter == t.adFilter && r.millis == t.millis
    && r.menu.buttons == t.menu.buttons
  }

  /** The run-mode flags are unchanged. */
  predicate ModeKept(t: State, r: State)
  {
    r.flags.off == t.flags.off && r.flags.runPrg == t.flags.runPrg
    && r.flags.thermostat == t.flags.thermostat && r.flags.pump == t.flags.pump
  }

  /** The facts of MenuFrame, for the dispatch on one sampled state. */
  predicate DispatchFrame(t: State, mem: seq<u8>, r: State, mem': seq<u8>)
    requires |mem| == EepromSize
  {
    && MenuOnly(t, r)
    && (mem' != mem ==>
          t.menu.menuState == MenuSetValue && t.menu.menuItem < MenuSize
          && mem' == WriteSlot(mem, t.menu.menuItem, U16(t.menu.menuValue)))
    && (!ModeKept(t, r) ==> t.menu.menuState == MenuSetValue && t.menu.menuItem >= MenuSize)
    && (r.flags.alarm != t.flags.alarm ==> t.menu.menuState == MenuIdle && t.flags.alarm && !r.flags.alarm)
    && (r.flags.pause != t.flags.pause ==> t.menu.menuState == MenuIdle)
  }

  lemma DispatchFrameHolds(t: State, mem: seq<u8>)
    requires |mem| == EepromSize && Displayable(t)
    ensures DispatchFrame(t, mem, MenuDispatch(t, mem).0, MenuDispatch(t, mem).1)
  {
    match t.menu.menuState
    case MenuIdle =>
      assert MenuDispatch(t, mem) == (IdleStep(t), mem);
      IdleFrame(t, mem);
    case MenuShowOutput =>
      assert MenuDispatch(t, mem) == (ShowOutputStep(t), mem);
      ShowOutputFrame(t, mem);
    case MenuShowState =>
      assert MenuDispatch(t, mem) == (ShowStateStep(t), mem);
      ShowStateFrame(t, mem);
    case MenuShowCountdown =>
      assert MenuDispatch(t, mem) == (ShowCountdownStep(t), mem);
      ShowCountdownFrame(t, mem);
    case MenuShowItem =>
      assert MenuDispatch(t, mem) == (ShowItemStep(t), mem);
    case MenuSetItem =>
      assert MenuDispatch(t, mem) == (SetItemStep(t, mem), mem);
      SetItemFrame(t, mem);
    case MenuShowValue =>
      assert MenuDispatch(t, mem) == (ShowValueStep(t), mem);
      ShowValueFrame(t, mem);
    case MenuSetValue =>
      assert MenuDispatch(t, mem) == SetValueStep(t, mem);
      SetValueFrame(t, mem);
  }

  lemma IdleFrame(t: State, mem: seq<u8>)
    requires |mem| == EepromSize && t.menu.menuState == MenuIdle
    ensures DispatchFrame(t, mem, IdleStep(t), mem)
  {
  }

  lemma ShowOutputFrame(t: State, mem: seq<u8>)
    requires |mem| == EepromSize && Displayable(t) && t.menu.menuState == MenuShowOutput
    ensures DispatchFrame(t, mem, ShowOutputStep(t), mem)
  {
  }

  lemma ShowStateFrame(t: State, mem: seq<u8>)
    requires |mem| == EepromSize && t.menu.menuState == MenuShowState
    ensures DispatchFrame(t, mem, ShowStateStep(t), mem)
  {
  }

  lemma ShowCountdownFrame(t: State, mem: seq<u8>)
    requires |mem| == EepromSize && Displayable(t) && t.menu.menuState == MenuShowCountdown
    ensures DispatchFrame(t, mem, ShowCountdownStep(t), mem)
  {
  }

  lemma SetItemFrame(t: State, mem: seq<u8>)
    requires |mem| == EepromSize && t.menu.menuState == MenuSetItem
    ensures DispatchFrame(t, mem, SetItemStep(t, mem), mem)
  {
  }

  lemma ShowValueFrame(t: State, mem: seq<u8>)
    requires |mem| == EepromSize && Displayable(t) && t.menu.menuState == MenuShowValue
    ensures DispatchFrame(t, mem, ShowValueStep(t), mem)
  {
  }

  lemma SetValueFrame(t: State, mem: seq<u8>)
    requires |mem| == EepromSize && t.menu.menuState == MenuSetValue
    ensures DispatchFrame(t, mem, SetValueStep(t, mem).0, SetValueStep(t, mem).1)
  {
  }

  /**
   * What a call of button_menu_fsm may change: never the brew variables, the
   * relays, the filter or the clock; the store only by committing the edited
   * value of a configuration item; OFF, RUN_PRG, THERMOSTAT and PUMP only by
   * committing the run mode; ALARM only by clearing it in the idle state;
   * PAUSE only from the idle state. MENU_IDLE mirrors the new menu state.
   */
  lemma MenuFrame(s: State, mem: seq<u8>, pwr: bool, sBtn: bool, up: bool, down: bool)
    requires |mem| == EepromSize && Displayable(s)
    ensures var (r, mem') := MenuStep(s, mem, pwr, sBtn, up, down);
            && r.brew == s.brew && r.relays == s.relays && r.adFilter == s.adFilter && r.millis == s.millis
            && r.flags.menuIdle == (r.menu.menuState == MenuIdle)
            && r.menu.buttons == Sample(s.menu.buttons, pwr, sBtn, up, down)
            && (mem' != mem ==>
                  s.menu.menuState == MenuSetValue && s.menu.menuItem < MenuSize
                  && mem' == WriteSlot(mem, s.menu.menuItem, U16(s.menu.menuValue)))
            && (!ModeKept(s, r) ==> s.menu.menuState == MenuSetValue && s.menu.menuItem >= MenuSize)
            && (r.flags.alarm != s.flags.alarm ==> s.menu.menuState == MenuIdle && s.flags.alarm && !r.flags.alarm)
            && (r.flags.pause != s.flags.pause ==> s.menu.menuState == MenuIdle)
  {
    var t := Sampled(s, pwr, sBtn, up, down);
    DispatchFrameHolds(t, mem);
  }

  /**
   * Acknowledging the alarm: in the idle menu, a call that finds every button
   * up after some button was down in the previous call clears ALARM and
   * changes neither PAUSE nor the menu state.
   */
  lemma AlarmAcknowledged(s: State, mem: seq<u8>)
    requires |mem| == EepromSize && Displayable(s)
    requires s.menu.menuState == MenuIdle && s.flags.alarm && s.menu.buttons & 0x0f != 0
    ensures var (r, mem') := MenuStep(s, mem, false, false, false, false);
            && !r.flags.alarm && r.flags.pause == s.flags.pause && ModeKept(s, r)
            && r.menu.menuState == MenuIdle && r.flags.menuIdle && mem' == mem
  {
    var t := Sampled(s, false, false, false, false);
    assert AllReleased(t.menu.buttons);
    DispatchIs(t, mem);
  }

  /**
   * Only that release clears the alarm: a call clears ALARM exactly when it
   * finds every button up after some button was down, and then only in the
   * idle menu; with a button down, or with none down before, ALARM stays set.
   */
  lemma AlarmClearedOnlyByRelease(s: State, mem: seq<u8>, pwr: bool, sBtn: bool, up: bool, down: bool)
    requires |mem| == EepromSize && Displayable(s) && s.flags.alarm
    ensures var r := MenuStep(s, mem, pwr, sBtn, up, down).0;
            !r.flags.alarm <==>
              s.menu.menuState == MenuIdle && !pwr && !sBtn && !up && !down && s.menu.buttons & 0x0f != 0
  {
    var t := Sampled(s, pwr, sBtn, up, down);
    DispatchIs(t, mem);
    MenuFrame(s, mem, pwr, sBtn, up, down);
    if s.menu.menuState == MenuIdle && !pwr && !sBtn && !up && !down && s.menu.buttons & 0x0f != 0 {
      AlarmAcknowledged(s, mem);
    }
  }

  /**
   * The item menu runs round: up from the run-mode item (MENU_SIZE) goes to
   * item 0, down from item 0 goes to the run-mode item, and up and down undo
   * each other.
   */
  lemma ItemWrap(mi: u8)
    requires mi <= MenuSize
    ensures NextItem(mi) == if mi == MenuSize then 0 else mi + 1
    ensures PrevItem(mi) == if mi == 0 then MenuSize else mi - 1
    ensures NextItem(PrevItem(mi)) == mi && PrevItem(NextItem(mi)) == mi
  {
  }

  /**
   * The value steps: one up or down below 1000, ten at 1000 and above
   * (stepping up from 1000 gives 1010, down from 1001 gives 1000); a step down
   * undoes a step up.
   */
  lemma ValueSteps(v: i16)
    requires MinTemp <= v <= MaxTemp
    ensures StepUp(v) == if v >= 1000 then v + 10 else v + 1
    ensures StepDown(v) == if v > 1001 then v - 10 else v - 1
    ensures StepDown(StepUp(v)) == v
  {
  }

  /** PR6 after n accelerated steps. */
  function AccelerateN(pr6: u8, n: nat): u8
    decreases n
  {
    if n == 0 then pr6 else Accelerate(AccelerateN(pr6, n - 1))
  }

  /**
   * Holding a button speeds the repeat up: from the slow period 250, each
   * step shortens PR6 by 8 until it settles at 26.
   */
  lemma {:induction false} AccelerationSchedule(n: nat)
    ensures AccelerateN(Pr6Slowest, n) == if Pr6Slowest - 8 * n > Pr6Fastest then Pr6Slowest - 8 * n else Pr6Fastest
    decreases n
  {
    if n > 0 {
      AccelerationSchedule(n - 1);
    }
  }

  /** The condition on the button history under which menu_set_item or menu_set_value sees S released and nothing else. */
  predicate OnlySReleased(b: bv8)
  {
    BtnReleased(b, BtnS) && !BtnReleased(b, BtnPwr) && !BtnHeldOrReleased(b, BtnUp) && !BtnHeldOrReleased(b, BtnDown)
  }

  /**
   * Opening a value: S in the item menu loads the item's stored value, read
   * as a signed int, or for the run-mode item the current mode.
   */
  lemma OpenValueReadsStore(s: State, mem: seq<u8>, pwr: bool, sBtn: bool, up: bool, down: bool)
    requires |mem| == EepromSize && Displayable(s)
    requires s.menu.menuState == MenuSetItem && s.menu.mCountdown > 1
    requires var b := Sample(s.menu.buttons, pwr, sBtn, up, down);
             OnlySReleased(b) && !BtnReleased(b, BtnUp) && !BtnReleased(b, BtnDown)
    ensures var (r, mem') := MenuStep(s, mem, pwr, sBtn, up, down);
            && r.menu.menuState == MenuShowValue && r.menu.menuItem == s.menu.menuItem && mem' == mem
            && r.menu.menuValue == if s.menu.menuItem < MenuSize then ItemValue(mem, s.menu.menuItem) else ModeOf(s.flags)
  {
    DispatchIs(Sampled(s, pwr, sBtn, up, down), mem);
  }

  /**
   * Committing a value: S in the value editor of a configuration item writes
   * the value to the item's slot, where it reads back as the same value; no
   * other item's slot changes, and the menu returns to the item.
   */
  lemma CommitStoresValue(s: State, mem: seq<u8>, pwr: bool, sBtn: bool, up: bool, down: bool)
    requires |mem| == EepromSize && Displayable(s)
    requires s.menu.menuState == MenuSetValue && s.menu.mCountdown > 1 && s.menu.menuItem < MenuSize
    requires OnlySReleased(Sample(s.menu.buttons, pwr, sBtn, up, down))
    ensures var (r, mem') := MenuStep(s, mem, pwr, sBtn, up, down);
            && mem' == WriteSlot(mem, s.menu.menuItem, U16(s.menu.menuValue))
            && ItemValue(mem', s.menu.menuItem) == s.menu.menuValue
            && (forall j: u8 :: j < MenuSize && j != s.menu.menuItem ==> ItemValue(mem', j) == ItemValue(mem, j))
            && r.menu.menuState == MenuShowItem && r.flags == s.flags.(menuIdle := false)
  {
    DispatchIs(Sampled(s, pwr, sBtn, up, down), mem);
    var mem' := WriteSlot(mem, s.menu.menuItem, U16(s.menu.menuValue));
    ReadAfterWrite(mem, s.menu.menuItem, U16(s.menu.menuValue));
    S16OfU16(s.menu.menuValue);
    forall j: u8 | j < MenuSize && j != s.menu.menuItem
      ensures ItemValue(mem', j) == ItemValue(mem, j)
    {
      WriteKeepsOtherSlots(mem, s.menu.menuItem, j, U16(s.menu.menuValue));
    }
  }

  /** Committing the run-mode item sets the flags of the chosen mode and leaves the store alone. */
  lemma CommitSetsMode(s: State, mem: seq<u8>, pwr: bool, sBtn: bool, up: bool, down: bool)
    requires |mem| == EepromSize && Displayable(s)
    requires s.menu.menuState == MenuSetValue && s.menu.mCountdown > 1 && s.menu.menuItem >= MenuSize
    requires OnlySReleased(Sample(s.menu.buttons, pwr, sBtn, up, down))
    ensures var (r, mem') := MenuStep(s, mem, pwr, sBtn, up, down);
            && r.flags == CommitMode(s.flags, s.menu.menuValue).(menuIdle := false)
            && r.menu.menuState == MenuShowItem && mem' == mem
  {
    DispatchIs(Sampled(s, pwr, sBtn, up, down), mem);
  }

  /**
   * The mode item reads back the mode committed: each of the four modes sets
   * flags from which the item shows it again. Choosing the program mode
   * leaves THERMOSTAT and PUMP as they were; choosing off clears PUMP.
   */
  lemma ModeReadBack(f: Flags, v: int)
    requires 0 <= v <= 3
    ensures ModeOf(CommitMode(f, v)) == v
    ensures v == 1 ==> CommitMode(f, v).thermostat == f.thermostat && CommitMode(f, v).pump == f.pump
    ensures v == 0 ==> !CommitMode(f, v).pump && !CommitMode(f, v).thermostat
    ensures CommitMode(f, v) == f.(off := CommitMode(f, v).off, runPrg := CommitMode(f, v).runPrg,
                                   thermostat := CommitMode(f, v).thermostat, pump := CommitMode(f, v).pump)
  {
  }

  /** Power in the value editor discards the edit: nothing is stored, no flag changes, and the menu returns to the item. */
  lemma PowerDiscardsEdit(s: State, mem: seq<u8>, pwr: bool, sBtn: bool, up: bool, down: bool)
    requires |mem| == EepromSize && Displayable(s)
    requires s.menu.menuState == MenuSetValue && s.menu.mCountdown > 1
    requires BtnReleased(Sample(s.menu.buttons, pwr, sBtn, up, down), BtnPwr)
    ensures var (r, mem') := MenuStep(s, mem, pwr, sBtn, up, down);
            && mem' == mem && r.flags == s.flags.(menuIdle := false)
            && r.menu.menuState == MenuShowItem && r.menu.menuItem == s.menu.menuItem
  {
    DispatchIs(Sampled(s, pwr, sBtn, up, down), mem);
  }

  /**
   * Editing a value: up (held or just released) steps it up and down steps it
   * down, through check_value, so it stays within its item's bounds and wraps
   * at the ends; each step shortens the repeat period. With no button active
   * the period goes back to 250.
   */
  lemma EditStepsValue(s: State, mem: seq<u8>, pwr: bool, sBtn: bool, up: bool, down: bool)
    requires |mem| == EepromSize && Displayable(s)
    requires s.menu.menuState == MenuSetValue && s.menu.mCountdown > 1
    requires !BtnReleased(Sample(s.menu.buttons, pwr, sBtn, up, down), BtnPwr)
    ensures var (r, mem') := MenuStep(s, mem, pwr, sBtn, up, down);
            var b, m := Sample(s.menu.buttons, pwr, sBtn, up, down), s.menu;
            && (BtnHeldOrReleased(b, BtnUp) ==>
                  r.menu.menuValue == CheckValue(m.menuItem, StepUp(m.menuValue))
                  && r.menu.pr6 == Accelerate(m.pr6) && r.menu.menuState == MenuShowValue && mem' == mem)
            && (!BtnHeldOrReleased(b, BtnUp) && BtnHeldOrReleased(b, BtnDown) ==>
                  r.menu.menuValue == CheckValue(m.menuItem, StepDown(m.menuValue))
                  && r.menu.pr6 == Accelerate(m.pr6) && r.menu.menuState == MenuShowValue && mem' == mem)
            && (BtnIdle(b, BtnUp) && BtnIdle(b, BtnDown) && !BtnReleased(b, BtnS) ==>
                  r.menu.pr6 == Pr6Slowest && r.menu.menuValue == m.menuValue && r.menu.menuState == MenuSetValue)
  {
    DispatchIs(Sampled(s, pwr, sBtn, up, down), mem);
  }

  /**
   * The editors time out: in the item menu or the value editor, the call that
   * counts the timeout down to zero returns to the idle menu, storing nothing
   * and changing no flag but MENU_IDLE.
   */
  lemma EditorsTimeOut(s: State, mem: seq<u8>, pwr: bool, sBtn: bool, up: bool, down: bool)
    requires |mem| == EepromSize && Displayable(s)
    requires (s.menu.menuState == MenuSetItem || s.menu.menuState == MenuSetValue) && s.menu.mCountdown <= 1
    ensures var (r, mem') := MenuStep(s, mem, pwr, sBtn, up, down);
            && r.menu.menuState == MenuIdle && mem' == mem && r.flags == s.flags.(menuIdle := true)
            && r.menu.menuValue == s.menu.menuValue && r.menu.menuItem == s.menu.menuItem
  {
    DispatchIs(Sampled(s, pwr, sBtn, up, down), mem);
  }

  /**
   * The countdown display is entered only from the state display, and only
   * while the program waits for the strike, mashes or boils (prg_state 1, 5
   * and 9; the hot break, prg_state 8, is not among them). Conversely, with
   * down held, the state display changes to the countdown when its 20 calls
   * are up in one of those states.
   */
  lemma CountdownShownOnlyForTimedStates(s: State, mem: seq<u8>, pwr: bool, sBtn: bool, up: bool, down: bool)
    requires |mem| == EepromSize && Displayable(s)
    ensures var (r, mem') := MenuStep(s, mem, pwr, sBtn, up, down);
            var timed := s.brew.prgState in {PrgWaitStrike, PrgMash, PrgBoil};
            && (r.menu.menuState == MenuShowCountdown && s.menu.menuState != MenuShowCountdown ==>
                  s.menu.menuState == MenuShowState && timed)
            && (s.menu.menuState == MenuShowState && s.menu.mCountdown <= 1 && timed
                && BtnHeld(Sample(s.menu.buttons, pwr, sBtn, up, down), BtnDown) ==>
                  r.menu.menuState == MenuShowCountdown && r.menu.mCountdown == StateTimeout)
  {
    DispatchIs(Sampled(s, pwr, sBtn, up, down), mem);
  }

  /** Storing a value within its item's bounds keeps every stored setting within bounds. */
  lemma WriteKeepsConfigValid(mem: seq<u8>, k: u8, v: i16)
    requires |mem| == EepromSize && ConfigValid(mem) && k < MenuSize && InBounds(k, v)
    ensures ConfigValid(WriteSlot(mem, k, U16(v)))
  {
    var mem' := WriteSlot(mem, k, U16(v));
    forall j: u8 | j < MenuSize
      ensures InBounds(j, ItemValue(mem', j))
    {
      if j == k {
        ReadAfterWrite(mem, k, U16(v));
        S16OfU16(v);
        assert ItemValue(mem', j) == v;
      } else {
        WriteKeepsOtherSlots(mem, k, j, U16(v));
        assert ItemValue(mem', j) == ItemValue(mem, j);
        assert InBounds(j, ItemValue(mem, j));
      }
    }
  }

  /**
   * The menu keeps the invariant: the item number stays within the menu, a
   * value being shown or edited stays within its item's bounds, and a
   * committed value keeps every stored setting within bounds.
   */
  lemma MenuStepInv(s: State, mem: seq<u8>, pwr: bool, sBtn: bool, up: bool, down: bool)
    requires Inv(s, mem) && Displayable(s)
    ensures var (r, mem') := MenuStep(s, mem, pwr, sBtn, up, down); Inv(r, mem')
  {
    var t := Sampled(s, pwr, sBtn, up, down);
    DispatchFrameHolds(t, mem);
    match t.menu.menuState
    case MenuSetItem => SetItemInv(t, mem);
    case MenuSetValue => SetValueInv(t, mem);
    case _ => OtherStatesInv(t, mem);
  }

  lemma SetItemInv(t: State, mem: seq<u8>)
    requires |mem| == EepromSize && ConfigValid(mem) && MenuInv(t.menu) && t.menu.menuState == MenuSetItem
    ensures MenuInv(SetItemStep(t, mem).menu)
  {
    if t.menu.menuItem < MenuSize {
      SlotInBounds(mem, t.menu.menuItem);
      BoundsWithinTemperatureRange(t.menu.menuItem, S16(Cfg(mem, t.menu.menuItem)));
    }
  }

  lemma SetValueInv(t: State, mem: seq<u8>)
    requires |mem| == EepromSize && ConfigValid(mem) && MenuInv(t.menu) && t.menu.menuState == MenuSetValue
    ensures MenuInv(SetValueStep(t, mem).0.menu) && ConfigValid(SetValueStep(t, mem).1)
  {
    if t.menu.menuItem < MenuSize {
      WriteKeepsConfigValid(mem, t.menu.menuItem, t.menu.menuValue);
    }
  }

  lemma OtherStatesInv(t: State, mem: seq<u8>)
    requires |mem| == EepromSize && MenuInv(t.menu) && Displayable(t)
    requires t.menu.menuState != MenuSetItem && t.menu.menuState != MenuSetValue
    ensures MenuInv(MenuDispatch(t, mem).0.menu) && MenuDispatch(t, mem).1 == mem
  {
    DispatchIs(t, mem);
  }
}
