/**
 * The outputs (src/page0.c output_control and temperature_control).
 * output_control runs 16 times a second: a counter runs 99..0, the output
 * percentage is latched each time the counter wraps, and the heat relay is on
 * while the latched output exceeds the counter, the cool relay while it
 * exceeds the counter plus 100. So an output of 0..100 % drives the heat
 * relay with that duty cycle, and 100..200 % keeps heat on and drives the cool
 * relay (the second element) with the excess.
 */
module Output {
  import opened Word
  import opened ControllerState

  /** The relay part of output_control: latch at the wrap, count down, drive the pins. */
  function RelayStep(r: Relays, f: Flags, output: u8): Relays
  {
    var wrap := r.outputCounter == 0;
    var o := if wrap then output else r.o;
    var c := (if wrap then Period else r.outputCounter) - 1;
    var idle := f.pause || f.off;
    Relays(
      outputCounter := c,
      o := o,
      heatRelay := !idle && o > c,
      coolRelay := !idle && o > c + 100,
      buzzer := f.alarm && c > 75,
      pumpDrive := if !idle && f.pump then PumpManual else PumpOff)
  }

  /**
   * The indicators output_control drives: the point blinks with the counter
   * while paused (and not off, and no alarm); heat and cool show the relays.
   */
  function OutputIndicators(e: Indicators, r: Relays, f: Flags): Indicators
  {
    e.(ePoint := !f.alarm && f.pause && !f.off && r.outputCounter % 2 == 0,
       eHeat := r.heatRelay, eCool := r.coolRelay)
  }

  /** output_control() */
  function OutputStep(s: State): State
  {
    var r := RelayStep(s.relays, s.flags, s.brew.output);
    s.(relays := r, leds := s.leds.(e := OutputIndicators(s.leds.e, r, s.flags)))
  }

  /**
   * One call of output_control: the counter stays in 0..99, the latched output
   * changes only at the wrap (and is then the current output), PAUSE or OFF
   * switch both relays and the pump off, the cool relay is never on without
   * the heat relay, and the buzzer sounds only with ALARM.
   */
  lemma RelayStepFacts(r: Relays, f: Flags, output: u8)
    requires r.outputCounter <= Period
    ensures var n := RelayStep(r, f, output);
            && n.outputCounter < Period
            && (r.outputCounter == 0 ==> n.o == output && n.outputCounter == Period - 1)
            && (r.outputCounter != 0 ==> n.o == r.o && n.outputCounter == r.outputCounter - 1)
            && (f.pause || f.off ==> !n.heatRelay && !n.coolRelay && n.pumpDrive == PumpOff)
            && (n.coolRelay ==> n.heatRelay)
            && (n.buzzer ==> f.alarm)
  {
  }

  /** A latched output above 100 % keeps the heat relay on for the whole period while the cool relay is on part of it. */
  lemma BothRelaysAboveFullOutput(r: Relays, f: Flags, output: u8)
    requires r.outputCounter != 0 && r.outputCounter <= Period && r.o >= Period && !f.pause && !f.off
    ensures RelayStep(r, f, output).heatRelay
    ensures RelayStep(r, f, output).coolRelay <==> r.o > r.outputCounter - 1 + 100
  {
  }

  /** The relays and the buzzer over n successive calls, with flags and output fixed. */
  function RelayRun(r: Relays, f: Flags, output: u8, n: nat): Relays
    decreases n
  {
    if n == 0 then r else RelayRun(RelayStep(r, f, output), f, output, n - 1)
  }

  /** How many of the next n calls switch the heat relay on, the cool relay on, the buzzer on. */
  function HeatCalls(r: Relays, f: Flags, output: u8, n: nat): nat
    decreases n
  {
    if n == 0 then 0
    else var r1 := RelayStep(r, f, output);
         (if r1.heatRelay then 1 else 0) + HeatCalls(r1, f, output, n - 1)
  }

  function CoolCalls(r: Relays, f: Flags, output: u8, n: nat): nat
    decreases n
  {
    if n == 0 then 0
    else var r1 := RelayStep(r, f, output);
         (if r1.coolRelay then 1 else 0) + CoolCalls(r1, f, output, n - 1)
  }

  function BuzzerCalls(r: Relays, f: Flags, output: u8, n: nat): nat
    decreases n
  {
    if n == 0 then 0
    else var r1 := RelayStep(r, f, output);
         (if r1.buzzer then 1 else 0) + BuzzerCalls(r1, f, output, n - 1)
  }

  function Min(a: int, b: int): int { if a < b then a else b }
  function Max(a: int, b: int): int { if a < b then b else a }

  /**
   * The remaining k calls of a period: the counter is at k, or it is at zero
   * and the whole period of k = 100 calls is ahead (its first call latches the
   * output); o is the output latched for the period.
   */
  predicate PeriodAhead(r: Relays, f: Flags, output: u8, k: nat, o: u8)
  {
    && !f.pause && !f.off && k <= Period
    && ((r.outputCounter == k && o == r.o) || (r.outputCounter == 0 && k == Period && o == output))
  }

  /** The next call leaves k - 1 calls of the same period. */
  lemma PeriodStep(r: Relays, f: Flags, output: u8, k: nat, o: u8)
    requires PeriodAhead(r, f, output, k, o) && k > 0
    ensures var r1 := RelayStep(r, f, output);
            && PeriodAhead(r1, f, output, k - 1, o)
            && r1.heatRelay == (o >= k) && r1.coolRelay == (o >= k + 100) && r1.buzzer == (f.alarm && k >= 77)
  {
  }

  /** The period ends at the wrap, with o still latched. */
  lemma {:induction false} PeriodEnds(r: Relays, f: Flags, output: u8, k: nat, o: u8)
    requires PeriodAhead(r, f, output, k, o)
    ensures RelayRun(r, f, output, k).outputCounter == 0 && (k > 0 ==> RelayRun(r, f, output, k).o == o)
    decreases k
  {
    if k > 0 {
      PeriodStep(r, f, output, k, o);
      PeriodEnds(RelayStep(r, f, output), f, output, k - 1, o);
    }
  }

  /** The heat relay is on for min(o, k) of the remaining calls. */
  lemma {:induction false} PeriodHeat(r: Relays, f: Flags, output: u8, k: nat, o: u8)
    requires PeriodAhead(r, f, output, k, o)
    ensures HeatCalls(r, f, output, k) == Min(o, k)
    decreases k
  {
    if k > 0 {
      PeriodStep(r, f, output, k, o);
      PeriodHeat(RelayStep(r, f, output), f, output, k - 1, o);
    }
  }

  /** The cool relay is on for min(max(o - 100, 0), k) of the remaining calls. */
  lemma {:induction false} PeriodCool(r: Relays, f: Flags, output: u8, k: nat, o: u8)
    requires PeriodAhead(r, f, output, k, o)
    ensures CoolCalls(r, f, output, k) == Min(Max(o - 100, 0), k)
    decreases k
  {
    if k > 0 {
      PeriodStep(r, f, output, k, o);
      PeriodCool(RelayStep(r, f, output), f, output, k - 1, o);
    }
  }

  /** With ALARM the buzzer is on while the counter is above 75: max(k - 76, 0) of the remaining calls. */
  lemma {:induction false} PeriodBuzzer(r: Relays, f: Flags, output: u8, k: nat, o: u8)
    requires PeriodAhead(r, f, output, k, o)
    ensures BuzzerCalls(r, f, output, k) == if f.alarm then Max(k - 76, 0) else 0
    decreases k
  {
    if k > 0 {
      PeriodStep(r, f, output, k, o);
      PeriodBuzzer(RelayStep(r, f, output), f, output, k - 1, o);
    }
  }

  /**
   * Duty cycle: from the wrap (counter zero), one period of 100 calls with the
   * output fixed at `output` percent keeps the heat relay on for min(output, 100)
   * calls and the cool relay for min(max(output - 100, 0), 100) calls; with
   * ALARM the buzzer sounds for 24 of the 100 calls. The period ends at the next wrap.
   */
  lemma DutyCycle(r: Relays, f: Flags, output: u8)
    requires r.outputCounter == 0 && !f.pause && !f.off
    ensures HeatCalls(r, f, output, Period) == Min(output, Period)
    ensures CoolCalls(r, f, output, Period) == Min(Max(output - 100, 0), Period)
    ensures BuzzerCalls(r, f, output, Period) == if f.alarm then 24 else 0
    ensures RelayRun(r, f, output, Period).outputCounter == 0
  {
    PeriodEnds(r, f, output, Period, output);
    PeriodHeat(r, f, output, Period, output);
    PeriodCool(r, f, output, Period, output);
    PeriodBuzzer(r, f, output, Period, output);
  }

  /**
   * temperature_control(): with THERMOSTAT set the output is the thermostat
   * output below the setpoint and zero at or above it.
   */
  function TemperatureControl(s: State): (r: State)
    ensures !s.flags.thermostat ==> r == s
    ensures r == s.(brew := s.brew.(output := r.brew.output))
  {
    if s.flags.thermostat then
      s.(brew := s.brew.(output := if s.brew.temperature < s.brew.setpoint then s.brew.thermostatOutput else 0))
    else s
  }

  /**
   * The thermostat is on-off control: it drives the thermostat output exactly
   * when the temperature is below the setpoint, and nothing otherwise.
   */
  lemma ThermostatHeatsBelowSetpoint(s: State)
    requires s.flags.thermostat
    ensures s.brew.temperature < s.brew.setpoint ==> TemperatureControl(s).brew.output == s.brew.thermostatOutput
    ensures s.brew.temperature >= s.brew.setpoint ==> TemperatureControl(s).brew.output == 0
    ensures s.brew.thermostatOutput > 0 ==> (TemperatureControl(s).brew.output > 0 <==> s.brew.temperature < s.brew.setpoint)
  {
  }
}
