# STC-1000+ brewing controller firmware, modelled in Dafny

STC-1000+ is a replacement firmware for the STC-1000 dual-stage thermostat
(a PIC16F1828). This variant drives a single-vessel mash and boil. The model
covers the firmware's core, in the Celsius build:

- **Temperature.** The thermistor sample is filtered, converted through the
  32-point lookup table and offset by the calibration item `tc`.
- **Brew program.** `program_fsm` runs once a second: strike delay, strike,
  four mash steps, boil up, hot break and boil with four hop alarms. Alarms
  wait for the user's acknowledgement, and the program switches off when a
  wait times out.
- **Outputs.** `output_control` drives the heat and cool relays with a duty
  cycle of 100 calls, and also drives the buzzer and the pump.
  `temperature_control` is the on-off thermostat.
- **Display.** `value_to_led`, `divu10` and `menu_to_led` fill the three
  digits and the extra indicators.
- **Buttons and menu.** `button_menu_fsm` samples the buttons and shows the
  output, the program state or the countdown. It runs the item menu, with
  its value editor, range wrapping and repeat acceleration, and commits
  values to the data EEPROM or sets the run mode.
- **Configuration store.** `eeprom_read_config` and `eeprom_write_config`
  keep 16-bit items in byte pairs of the data EEPROM.
- **Main loop.** The 62.5 ms timer section and the 16 Hz to 1 Hz division
  of the main loop.

The firmware's globals are the fields of the class `Controller.Controller`.
Its routines are methods that update those fields in place, and the EEPROM
is the byte array of `Eeprom.ConfigStore`. Each method is proved to compute
a specification function, which maps one `ControllerState.State` and the
store contents to the next. The specification functions live in the modules
`Program`, `Output`, `MenuFsm`, `Display`, `Acquisition` and `Tick`. The
lemmas beside those functions state what the firmware promises.

C integer widths are explicit: `u8`, `u16` and `i16` in module `Word`, with
the conversions `U8`, `U16` and `S16` written where the C code converts
implicitly. The button pins and the 10-bit ADC result are parameters of the
methods that read them.

Where the design description and the code disagree, the model follows the
code:

- At the strike, the thermostat output is the strike output `SO`, not `PO`
  (src/page0.c:316).
- The countdown display is offered for `prg_state` 1, 5 and 9, but not for
  the hot break (8). The code tests `> 8` (src/page1.c:223), although the
  comment above it names the hot break.
- An output of exactly 100 % keeps the heat relay on for the whole period.
- The buzzer sounds for the first 24 calls of each period, while the
  counter, which counts down, is above 75.
- The comparison with the boil-up temperature `Ht` is unsigned
  (src/page0.c:380).
- `sec_countdown` is not reloaded when a new countdown is loaded, so a hop
  alarm can sound only in the two calls with `sec_countdown` at 58 or 59.

## Model

| member | source | states |
|---|---|---|
| Word.S16OfU16 | src/page1.c:335-336 | storing a signed menu value as unsigned int and reading it back as int gives the same value |
| Stc1000p.BuildLimitsWellFormed | src/stc1000p.h:96-107 | in both unit builds MIN_TEMP < MAX_TEMP and the temperature-difference range is symmetric about zero |
| Stc1000p.MenuSizeIs26 | src/stc1000p.h:117-143 | MENU_DATA has 26 items and ASd is the last one, so the item number MENU_SIZE (26) is free for the run-mode item |
| Stc1000p.MashSlotsNameMashItems | src/page0.c:338-345 | item Pt1 + 2k is the temperature labelled Pt(k+1) and item Pd1 + 2k is the duration labelled Pd(k+1), for mash steps k = 0..3 |
| Stc1000p.HopSlotsNameHopItems | src/page0.c:398-399 | item hd1 + i is the duration labelled hd(i+1) |
| Eeprom.ConfigStore.Read | src/page0.c:64-78 | the two-pass loop returns the low byte at 2k plus 256 times the high byte at 2k+1, with 2k taken in 8 bits |
| Eeprom.ConfigStore.Write | src/page0.c:84-131 | the new memory is the old memory with slot k set to `data`; the memory is unchanged when the slot already held `data` |
| Eeprom.ReadAfterWrite | src/page0.c:84-131 | reading a slot after writing v to it gives v |
| Eeprom.WriteOfSameValueIsSkipped | src/page0.c:86-89 | writing the value a slot already holds changes nothing |
| Eeprom.WriteTouchesOnlyItsBytes | src/page0.c:92-130 | a write changes no byte other than the two bytes of its slot |
| Eeprom.WriteKeepsOtherSlots | src/page0.c:92-130 | writing slot k leaves every other slot below 128 as it was |
| Eeprom.SlotsAlias | src/page0.c:66 | because the doubled address is an unsigned char, slots k and k + 128 are the same bytes |
| MenuValues.Range | src/page1.c:73-79 | range() returns a value within [min, max], and returns x itself when x is already within the bounds |
| MenuValues.RangeWraps | src/page1.c:73-79 | overshooting max gives min and undershooting min gives max: the range wraps rather than clamps |
| MenuValues.CheckValue | src/page1.c:81-98 | the checked value lies within the bounds of the item's type (0..3 for the run-mode item), and a value within bounds is unchanged |
| MenuValues.CheckValueIdempotent | src/page1.c:81-98 | check_value is idempotent, and a value is a fixed point exactly when it is within bounds |
| MenuValues.BoundsWithinTemperatureRange | src/stc1000p.h:103-106 | every item's bounds lie within MIN_TEMP..MAX_TEMP |
| MenuValues.DefaultsInBounds | src/stc1000p.h:117-143 | every default of MENU_DATA lies within its item's bounds |
| Buttons.Sample | src/page1.c:140-143 | the high nibble of the history is the previous sample, and each low bit is the current pin of pwr, s, up and down |
| Buttons.Classification | src/page1.c:35-39 | for each button, the macros idle, pressed, held and released mean up/up, up/down, down/down and down/up over the last two samples; held-or-released means held or released |
| Buttons.PressHoldRelease | src/page1.c:35-39 | a press seen in one sample is pressed, in two samples held, then released, then idle |
| Acquisition.FilterStep | src/page0.c:534-539 | the filter is f - f/16 + sample, without wrapping, while f stays within 16 times the largest sample |
| Acquisition.FilterFixedPoint | src/page0.c:534-539 | a constant sample s settles the filter at 16 s |
| Acquisition.FilterBounded | src/page0.c:534-539 | with 10-bit samples the filter never exceeds 16 * 1023 |
| Acquisition.TableRange | src/page0.c:33 | every entry of the Celsius ad_lookup table lies within -48.6 .. 148.2 degrees |
| Acquisition.AdToTempLoop | src/page0.c:541-558 | the 64-iteration loop and the shift compute the rounded interpolation ((64 - a) T[b] + a T[b+1] + 32) / 64 |
| Acquisition.InterpolationSum | src/page0.c:548-554 | the loop adds T[b] for 64 - a iterations and T[b+1] for a iterations, starting from 32 |
| Acquisition.SumIsInterpolation | src/page0.c:557 | the shift of that sum is the interpolation |
| Acquisition.AdToTempBetween | src/page0.c:541-558 | the converted temperature lies between the two table points, and is T[b] when the fraction is zero |
| Acquisition.AdToTempRange | src/page0.c:541-558 | every converted temperature lies within the table's range |
| Acquisition.CalibratedExact | src/page0.c:601 | adding the calibration item as unsigned int and storing into the signed temperature gives the exact sum |
| ControllerState.InitialStateInv | src/page0.c:563-565 | the power-on state (OFF set, everything else at its initial value) satisfies the controller invariant (including the output counter within its 100-call period) with any store whose items are within bounds |
| Display.Divu10 | src/page0.c:136-144 | the shift-and-add routine returns exactly n / 10 for every unsigned int n |
| Display.Divu10Exact | src/page0.c:136-144 | the shifted sums leave a remainder below 20, whose carry (r + 6) >> 4 is the correction |
| Display.ValueToLedReadsBack | src/page0.c:151-200 | the digits read back as the magnitude, or the magnitude / 10 from 1000 on; the sign indicator shows a negative value; the decimal point is lit only for a temperature below 100.0; each digit is a digit glyph, and a leading digit is blank exactly when it would be a leading zero, except before the decimal point |
| Controller.Controller.ValueToLed | src/page0.c:151-200 | value_to_led with its loops sets exactly the display registers Display.ValueToLed specifies, and nothing else |
| Controller.BcdDigits | src/page0.c:179-198 | the repeated subtractions give the hundreds, tens and units digits, blanking the leading zeros |
| Controller.Hundreds | src/page0.c:180-182 | subtracting 100 until below 100 counts value / 100 and leaves value % 100 |
| Controller.Tens | src/page0.c:188-190 | for a number below 100, subtracting 10 until below 10 counts its tens and leaves its units |
| Output.RelayStepFacts | src/page0.c:202-238 | the counter stays in 0..99; the output is latched only at the wrap; PAUSE or OFF switch both relays and the pump off; the cool relay is never on without the heat relay; the buzzer sounds only with ALARM |
| Output.BothRelaysAboveFullOutput | src/page0.c:226-227 | a latched output of 100 % or more keeps the heat relay on, while the cool relay is on when the output exceeds counter + 100 |
| Output.PeriodStep | src/page0.c:206-227 | each call of a running period leaves one call fewer, with heat on when o >= k, cool when o >= k + 100 and the buzzer when k >= 77 |
| Output.PeriodEnds | src/page0.c:206-210 | a period ends at the wrap with its output still latched |
| Output.PeriodHeat | src/page0.c:226 | over the k calls left in a period, the heat relay is on for min(o, k) calls |
| Output.PeriodCool | src/page0.c:227 | over the k calls left, the cool relay is on for min(max(o - 100, 0), k) calls |
| Output.PeriodBuzzer | src/page0.c:214-215 | over the k calls left, the buzzer is on for max(k - 76, 0) calls with ALARM, and never without it |
| Output.DutyCycle | src/page0.c:202-238 | from a wrap, one period of 100 calls drives heat for min(output, 100) calls and cool for min(max(output - 100, 0), 100) calls; with ALARM the buzzer sounds for 24 calls; the period ends at the next wrap |
| Output.TemperatureControl | src/page0.c:240-248 | without THERMOSTAT nothing changes; with it, only the output changes |
| Output.ThermostatHeatsBelowSetpoint | src/page0.c:240-248 | the output is the thermostat output below the setpoint and zero at or above it, so a positive thermostat output is applied exactly when below the setpoint |
| Controller.Controller.OutputControl | src/page0.c:202-238 | output_control updates the counter, the latched output, the relays, the pump, the buzzer and the indicators as Output.OutputStep specifies |
| Controller.Controller.TemperatureControl | src/page0.c:240-248 | temperature_control changes the state as Output.TemperatureControl specifies |
| Program.CountdownTickIsOneSecond | src/page0.c:278-284 | each call with a running countdown takes exactly one second off 60 countdown + sec_countdown; a countdown at zero is left alone |
| Program.FirstHop | src/page0.c:398-405 | the hop loop finds the first hop addition whose time equals the countdown in the first two seconds of the minute, or none |
| Program.RunningStep | src/page0.c:265-286 | without OFF or PAUSE, program_fsm runs the current state on the ticked countdown |
| Program.OffOnlyResetsState | src/page0.c:269-272 | with OFF, program_fsm only resets prg_state to off |
| Program.PauseFreezes | src/page0.c:274-276 | with PAUSE, program_fsm changes nothing, not even the countdown |
| Program.ProgramFrame | src/page0.c:265-421 | program_fsm changes no relay, display, menu, filter or clock variable |
| Program.StateStepFacts | src/page0.c:286-421 | no state clears OFF; PAUSE is set only by an acknowledged alarm wait; OFF is set only when the countdown has run out in a state that waits with a timeout, or in the boil |
| Program.ProgramKeepsTemperature | src/page0.c:265-421 | program_fsm never changes the temperature |
| Program.PauseOnlyAfterAcknowledgement | src/page0.c:327-375 | program_fsm never clears OFF, and sets PAUSE only in the two alarm waits after ALARM has been cleared |
| Program.OffOnlyOnTimeoutOrFinish | src/page0.c:310-421 | OFF is set only when the countdown is zero, in the strike, an alarm wait, a mash step heating up, the boil up or the boil |
| Program.WaitsTimeOut | src/page0.c:310-421 | when the countdown runs out before the wait's condition is met, the strike, both alarm waits, the mash heat-up and the boil up switch the controller off, and so does the end of the boil |
| Program.StrikeReached | src/page0.c:310-326 | reaching the strike temperature turns the thermostat on with setpoint St and output SO, raises the "St" alarm, loads ASd and waits for the acknowledgement |
| Program.AcknowledgementPauses | src/page0.c:327-375 | an acknowledged strike alarm pauses the program and starts mash step 1 with ASd loaded; an acknowledged boil-up alarm pauses and starts the boil up |
| Program.MashStepReached | src/page0.c:337-350 | reaching a mash step's temperature turns the thermostat on with PO and loads the step's duration |
| Program.MashStepEnds | src/page0.c:351-366 | when a step's time is up, the next step starts; after the fourth, the "bU" alarm is raised and the program waits for the boil up |
| Program.BoilUpUnsignedCompare | src/page0.c:376-386 | a negative temperature passes the unsigned comparison with any non-negative Ht and ends the boil up at once |
| Program.HopAlarm | src/page0.c:394-407 | a due hop time raises the alarm hd1..hd4 of the first due hop addition, while boiling with bO |
| Program.NoHopNoAlarm | src/page0.c:394-407 | without a due hop time the boil leaves ALARM as it was |
| Program.BoilFinished | src/page0.c:408-418 | at the end of the boil the controller switches OFF, clears RUN_PRG and THERMOSTAT, sets the output to 0 and raises the "Ch" alarm |
| Program.IdleFollowsSettings | src/page0.c:287-300 | without a program, the controller follows the stored cO, cSP and cP settings for thermostat or constant output |
| Program.MashSlots | src/page0.c:338-345 | the slot arithmetic of mash step m names Pt(m+1) and Pd(m+1) |
| Program.ProgramStepInv | src/page0.c:265-421 | program_fsm keeps the setpoint, the temperature, the countdown, sec_countdown and mashstep within their bounds, and mashstep below 4 while mashing |
| Program.WaitStrikeCountsDown | src/page0.c:278-309 | during the strike delay, every call takes one second off the countdown and keeps the output, the thermostat and the pump off |
| Program.StrikeDelay | src/page0.c:278-309 | a strike delay of c minutes ends after sec_countdown + 60 (c - 1) calls, when the strike starts with ASd loaded |
| Program.RunLast | src/page0.c:265-421 | n + 1 calls of program_fsm are n calls followed by one more |
| Controller.Controller.ProgramFsm | src/page0.c:265-421 | program_fsm, reading the store, changes the state as Program.ProgramStep specifies |
| Controller.Controller.ProgOff | src/page0.c:287-300 | case prg_off as Program.StepOff specifies |
| Controller.Controller.WaitStrike | src/page0.c:301-309 | case prg_wait_strike as Program.StepWaitStrike specifies |
| Controller.Controller.Strike | src/page0.c:310-326 | case prg_strike as Program.StepStrike specifies |
| Controller.Controller.StrikeWaitAlarm | src/page0.c:327-336 | case prg_strike_wait_alarm as Program.StepStrikeWaitAlarm specifies |
| Controller.Controller.InitMashStep | src/page0.c:337-350 | case prg_init_mash_step as Program.StepInitMashStep specifies |
| Controller.Controller.Mash | src/page0.c:351-366 | case prg_mash as Program.StepMash specifies |
| Controller.Controller.WaitBoilUpAlarm | src/page0.c:367-375 | case prg_wait_boil_up_alarm as Program.StepWaitBoilUpAlarm specifies |
| Controller.Controller.InitBoilUp | src/page0.c:376-386 | case prg_init_boil_up as Program.StepInitBoilUp specifies |
| Controller.Controller.Hotbreak | src/page0.c:387-393 | case prg_hotbreak as Program.StepHotbreak specifies |
| Controller.Controller.Boil | src/page0.c:394-419 | case prg_boil as Program.StepBoil specifies |
| Controller.Controller.HopScan | src/page0.c:396-405 | the hop loop with its break returns the first hop addition that is due, and no earlier one is due |
| MenuFsm.Checked | src/page1.c:329 | the checked value is within the item's bounds and within the temperature range, and a value within bounds is unchanged |
| MenuFsm.MenuFrame | src/page1.c:126-367 | a menu call never changes the brew variables, relays, filter or clock. It changes the store only by committing an item, OFF, RUN_PRG, THERMOSTAT and PUMP only by committing the mode, and ALARM and PAUSE only in the idle state. MENU_IDLE mirrors the new menu state |
| MenuFsm.AlarmAcknowledged | src/page1.c:158-160 | releasing every button while ALARM is set in the idle menu clears ALARM and changes neither PAUSE nor the menu state |
| MenuFsm.AlarmClearedOnlyByRelease | src/page1.c:156-159 | with ALARM set, a menu call clears it exactly when the menu is idle, every button is up now and some button was down in the previous sample; any other call leaves ALARM set |
| MenuFsm.ItemWrap | src/page1.c:249-260 | up from the run-mode item goes to item 0, down from item 0 goes to the run-mode item, and up and down undo each other |
| MenuFsm.ValueSteps | src/page1.c:316-327 | up adds one below 1000 and ten from 1000 on; down subtracts ten above 1001 and one otherwise; a step down undoes a step up |
| MenuFsm.AccelerationSchedule | src/page1.c:330-332 | from 250, each repeated step shortens PR6 by 8 until it settles at 26 |
| MenuFsm.OpenValueReadsStore | src/page1.c:261-276 | S in the item menu loads the item's stored value as a signed int, or the current run mode for the run-mode item |
| MenuFsm.CommitStoresValue | src/page1.c:334-337 | S in the value editor writes the value to the item's slot, where it reads back unchanged; no other item changes |
| MenuFsm.CommitSetsMode | src/page1.c:337-355 | S on the run-mode item sets the mode's flags and leaves the store alone |
| MenuFsm.ModeReadBack | src/page1.c:338-355 | each committed mode is shown again by the mode item; the program mode keeps THERMOSTAT and PUMP; off clears both |
| MenuFsm.PowerDiscardsEdit | src/page1.c:314-315 | power in the value editor returns to the item without storing or changing any flag |
| MenuFsm.EditStepsValue | src/page1.c:316-333 | up or down, held or just released, steps the value through check_value and shortens the repeat period; with no button active the period returns to 250 |
| MenuFsm.EditorsTimeOut | src/page1.c:246-313 | the item menu and the value editor return to idle on the call that counts the timeout to zero, storing nothing |
| MenuFsm.CountdownShownOnlyForTimedStates | src/page1.c:220-226 | the countdown display is entered only from the state display while prg_state is 1, 5 or 9; in those states, with down held when the state display's calls run out, it is entered with a fresh timeout |
| MenuFsm.WriteKeepsConfigValid | src/page1.c:334-337 | storing a value within its item's bounds keeps every stored item within bounds |
| MenuFsm.MenuStepInv | src/page1.c:126-367 | a menu call keeps the controller invariant: the item exists, the edited value is within its item's bounds, and the store stays within bounds |
| Controller.Controller.ButtonMenuFsm | src/page1.c:126-367 | button_menu_fsm changes the state and the store as MenuFsm.MenuStep specifies, and keeps the controller invariant |
| Controller.Controller.SampleButtons | src/page1.c:140-155 | the four shifts and the timeout decrement as MenuFsm.Sampled specifies |
| Controller.Controller.Dispatch | src/page1.c:157-364 | the switch on menustate as MenuFsm.MenuDispatch specifies |
| Controller.Controller.Idle | src/page1.c:158-171 | case menu_idle as MenuFsm.IdleStep specifies |
| Controller.Controller.ShowOutput | src/page1.c:172-191 | case menu_show_output as MenuFsm.ShowOutputStep specifies |
| Controller.Controller.ShowState | src/page1.c:192-230 | case menu_show_state as MenuFsm.ShowStateStep specifies |
| Controller.Controller.ShowCountdown | src/page1.c:231-240 | case menu_show_countdown as MenuFsm.ShowCountdownStep specifies |
| Controller.Controller.ShowItem | src/page1.c:241-245 | case menu_show_item as MenuFsm.ShowItemStep specifies |
| Controller.Controller.MenuToLed | src/page1.c:57-71 | menu_to_led sets exactly the registers Display.MenuToLed specifies: the item's label or "rUn", with the label indicators dark |
| Display.MenuLabelShown | src/page1.c:57-71 | the digits show the item's caption from MENU_DATA, or "rUn" for the run-mode item, which no item's caption reads; the sign, degree, Celsius and point indicators are dark, and heat and cool keep their state |
| Controller.Controller.SetItem | src/page1.c:246-277 | case menu_set_item, reading the store, as MenuFsm.SetItemStep specifies |
| Controller.Controller.ShowValue | src/page1.c:278-310 | case menu_show_value as MenuFsm.ShowValueStep specifies |
| Controller.Controller.SetValue | src/page1.c:311-360 | case menu_set_value, writing the store, as MenuFsm.SetValueStep specifies |
| Controller.Controller.StepValue | src/page1.c:316-333 | the up and down branches and their shared exit as MenuFsm.Adjust specifies |
| Tick.Converted | src/page0.c:601 | the converted temperature is ad_to_temp of the filter plus the calibration item, within the calibrated range |
| Tick.Refresh | src/page0.c:606-614 | the display refresh changes only the display registers |
| Tick.TimerTickInv | src/page0.c:589-620 | the timer section keeps the controller invariant, so the output counter stays in 0..99 as Output.RelayStepFacts and the period lemmas assume |
| Tick.SecondTickInv | src/page0.c:599-616 | the one-second section keeps the invariant, and the temperature it stores is exact |
| Tick.SecondEverySixteenCalls | src/page0.c:589-599 | every call counts, filters and runs output_control; the program, the flags and the brew variables change only on every 16th call |
| Tick.DisplayShowsTemperature | src/page0.c:606-614 | with the menu idle, the display reads the temperature with its sign and decimal point, or the alarm text in the alternate half seconds while ALARM is set |
| Tick.AcknowledgedAlarmPausesProgram | src/page1.c:159-160 | acknowledging an awaited alarm in the menu clears ALARM, and the next second pauses the program and moves it to mash step 1 or to the boil up |
| Controller.Controller.TimerTick | src/page0.c:589-620 | the timer section changes the state as Tick.TimerTick specifies and keeps the controller invariant |
| Controller.Controller.SecondSection | src/page0.c:599-616 | the one-second section, using the ad_to_temp loop and the store, as Tick.SecondTick specifies |
| Controller.Controller.constructor | src/page0.c:563-565 | the power-on state, with the given data EEPROM; with a 256-byte store whose items are within bounds, the controller starts valid |

## Left out

- Hardware set-up is not modelled: `init()`, the oscillator, the timer
  periods, the ADC channel selection and conversion handshake
  (`START_TCONV_1`, `ADGO`), and the EEPROM control registers and unlock
  sequence. The EEPROM is a byte array, and the ADC result is a parameter of
  `TimerTick`.
- The interrupt service routine, which multiplexes the digits every
  millisecond, is left out. It only copies the display registers to the port.
- Button reading through `TRISC`/`LATB`, and disabling interrupts around it,
  are left out. The four pins are parameters of `ButtonMenuFsm`.
- When the two timer flags fire, and how they interleave, is left to the
  caller. The model offers the two sections as separate methods.
- The `!TMR4ON` "OFF" display in the menu section (src/page0.c:579-583) is
  dead, because `init()` always sets `TMR4ON`. The watchdog is also left out.
- Glyphs are symbolic (`Digit`, `Letter`, `Blank`), not segment bit patterns.
  The registers' initial contents are modelled as blank.
- PR6 is a field of the menu state. Its effect on how often the menu runs
  (the hardware timer period) is not modelled.
- The Fahrenheit build is not modelled beyond its limits in
  `Stc1000p.BuildLimitsWellFormed`: its lookup table and defaults are left
  out.
- `SENSOR_SELECT` and `UNUSED2` are never used by the core.
- EEPROM version checks and resetting to defaults are outside the core.
- Acquisition.AdToTempLoop: requires `AdIndexOk`. With a filter value of
  15880 or more and a non-zero fraction, the source reads `ad_lookup[32]`,
  one past the table. That read is undefined, so the model does not give it
  a value. 10-bit samples can drive the filter there (up to 16368), so
  `Tick.TimerTick` carries the same requirement.
- Display.ValueToLed: requires a magnitude below 10000, because
  `led_lookup` has ten entries. Every value the firmware shows meets this
  under the controller invariant.
