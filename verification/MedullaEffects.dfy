/**
  What a tick of a Medulla does, from what it reads: when it goes where, what it gives to the motor, and how long
  an error lasts.
 */
module MedullaEffects {
  import opened Bits
  import opened CArith
  import opened Filters
  import opened Medulla
  import opened MedullaRuns

  // ---------------------------------------------------------------------------------------------
  // What the motor is given

  /** v damps a motor that has turned by d: nothing up to ten counts, else 180 for each, up to 19900. */
  predicate Dampens(v: int, d: int) {
    var size, counts := if d < 0 then -d else d, if v < 0 then -v else v;
    if size <= 10 then v == 0
    else (v > 0 <==> d > 0) && counts == if 180 * size < 19900 then 180 * size else 19900
  }

  /** A leg that ends a tick in halt is given what dampens the turn of its encoder since the last tick, a hip is
      given zero; the other boards have no motor. */
  lemma DampingExact(b: Board, i: Input)
    requires Sound(b) && Step(b, i).state == Halt
    ensures var t := Step(b, i);
            match b.kind
            case Leg => t.applied.Damp? && Dampens(t.applied.value, Centre(i.encoder - b.encoder, 0x1_0000))
            case Hip => t.applied == Damp(0)
            case _ => t.applied == Nothing
  {
    hide EncoderChange, InInit, InError, WatchdogStep, CheckError, DebounceStep, Centre;
    EncoderChangeIsCentred(b.encoder, i.encoder);
    var d := EncoderChange(b.encoder, i.encoder);
    var c := Sample(b, i);
    StepKeepsSound(b, i);
    HaltDampens(c, i, d);
    HaltDampens(JudgeRun(c, i), i, d);
    if b.state == Run && JudgeRun(c, i).state == Error {
      ErrorNeverRuns(JudgeRun(c, i), i);
    }
  }

  lemma HaltDampens(b: Board, i: Input, d: int)
    requires b.applied.Nothing?
    ensures var t := InHalt(b, i, d);
            b.state == Halt && t.state == Halt ==>
              match b.kind
              case Leg => t.applied.Damp? && Dampens(t.applied.value, d)
              case Hip => t.applied == Damp(0)
              case _ => t.applied == Nothing
  {
    hide CheckError;
  }

  /** So throughout a run, for the readings of the encoder themselves. */
  lemma DampingInRuns(bs: seq<Board>, inputs: seq<Input>, n: nat)
    requires IsRun(bs, inputs) && 0 < n < |inputs| && bs[n + 1].state == Halt && bs[0].kind.Leg?
    ensures bs[n + 1].applied.Damp?
    ensures Dampens(bs[n + 1].applied.value, Centre(inputs[n].encoder - inputs[n - 1].encoder, 0x1_0000))
  {
    hide Step, Centre, Dampens;
    AlwaysSound(bs, inputs, n);
    assert Ticks(bs, inputs, n) && Ticks(bs, inputs, n - 1);
    EncoderIsRead(bs[n - 1], inputs[n - 1]);
    DampingExact(bs[n], inputs[n]);
  }

  lemma EncoderIsRead(b: Board, i: Input)
    ensures Step(b, i).encoder == i.encoder
  {
    hide EncoderChange, InHalt, InInit, InError, JudgeRun, DebounceStep;
    var c, d := Sample(b, i), EncoderChange(b.encoder, i.encoder);
    PartsKeepEncoder(c, i, d);
    PartsKeepEncoder(JudgeRun(c, i), i, d);
  }

  lemma PartsKeepEncoder(b: Board, i: Input, d: int)
    ensures InHalt(b, i, d).encoder == InInit(b, i).encoder == InError(b, i).encoder == JudgeRun(b, i).encoder == b.encoder
  {
    hide CheckError, DampingCurrent;
  }

  /** A tick drives the motor with the master's current exactly if it begins and ends in run, on a leg or hip. */
  lemma DrivesExactly(b: Board, i: Input)
    requires Sound(b)
    ensures Step(b, i).applied.Drive? <==> b.state == Step(b, i).state == Run && (b.kind.Leg? || b.kind.Hip?)
    ensures Step(b, i).applied.Drive? ==> Step(b, i).applied.value == i.current
  {
    hide EncoderChange, InHalt, InInit, InError, WatchdogStep, CheckError, DebounceStep;
    AppliedIsBounded(b, i);
    var r := JudgeRun(Sample(b, i), i);
    HaltNeverDrives(r, i, EncoderChange(b.encoder, i.encoder));
  }

  // ---------------------------------------------------------------------------------------------
  // When a board goes where

  /** Init arms, unless the e-stop is pressed; whatever the master says. */
  lemma InitExact(b: Board, i: Input)
    requires Sound(b) && b.state == Init
    ensures var t := Step(b, i);
            if i.pressedAtInit then t.state in {Error, Reset} && !t.armed
            else t.state == Run && t.armed == (!b.kind.Imu? && !i.interrupted) && t.watchdogErrors == 0
  {
    hide EncoderChange, DebounceStep;
  }

  /** The logic voltage of a boom keeps it from running or halting exactly if some window of samples since the last
      reset_error that ends now holds more than 500 low ones in excess of the others. */
  lemma VoltageTripsExactly(bs: seq<Board>, inputs: seq<Input>, n: nat)
    requires IsRun(bs, inputs) && bs[0].kind.Boom? && n < |inputs|
    requires bs[n].state == Run || bs[n].state == Halt
    ensures var w := LowSince(bs, inputs, n) + [inputs[n].lowVoltage];
            LowTrips(bs[n], inputs[n]) <==> exists k :: 0 <= k <= |w| && Net(w[k..]) > 500
  {
    hide Step, Leaky, Checked;
    var w := LowSince(bs, inputs, n);
    var u := w + [inputs[n].lowVoltage];
    VoltageMeasures(bs, inputs, n);
    AlwaysSound(bs, inputs, n);
    LeakySnoc(w, inputs[n].lowVoltage);
    TripsExactly(u, 500);
  }

  lemma LeakySnoc(w: seq<bool>, x: bool)
    ensures Leaky(w + [x]) == LeakyStep(Leaky(w), x)
  {
    assert (w + [x])[..|w|] == w;
  }

  /** One more low sample is too many. */
  predicate LowTrips(b: Board, i: Input) {
    b.kind.Boom? && i.lowVoltage && b.lowVoltages >= 500
  }

  predicate PressedTrips(b: Board, i: Input) {
    b.state != Reset && DebounceStep(b.debounce, i.pressed) > 5
  }

  /** The tenth stale tick. */
  predicate StaleTrips(b: Board, i: Input) {
    i.counter == b.previous && b.watchdogErrors >= 9
  }

  predicate LowNext(before: int, after: int, low: bool) {
    if low then after == before + 1 else after <= before
  }

  /** What the checks of run make of a board. */
  lemma RunIsJudged(b: Board, i: Input)
    requires Sound(b) && b.state == Run
    ensures var r := JudgeRun(Sample(b, i), i);
            && r.state == (if LowTrips(b, i) || PressedTrips(b, i) || StaleTrips(b, i) then Error
                           else match i.command
                             case Stop => Stop
                             case Idle => Stop
                             case Error => Error
                             case Halt => Halt
                             case _ => Run)
            && r.timeout == (if LowTrips(b, i) || PressedTrips(b, i) || i.command == Error then 0 else b.timeout)
            && r == b.(state := r.state, timeout := r.timeout, debounce := r.debounce, armed := b.armed && !LowTrips(b, i),
                       watchdogErrors := r.watchdogErrors, previous := r.previous, encoder := r.encoder,
                       lowVoltages := r.lowVoltages, applied := Nothing)
    ensures var r := JudgeRun(Sample(b, i), i);
            && (r.state == Halt ==> r.debounce <= 5)
            && (b.kind.Boom? ==> LowNext(b.lowVoltages, r.lowVoltages, i.lowVoltage))
  {
    hide DebounceStep;
  }

  /** Run: to error for a fault, and else where the master says; the check of the voltage comes once more on the
      way to halt. */
  lemma RunGoes(b: Board, i: Input)
    requires Sound(b) && b.state == Run
    ensures var t := Step(b, i);
            if LowTrips(b, i) || PressedTrips(b, i) || StaleTrips(b, i) then t.state in {Error, Reset} && !t.armed
            else match i.command
              case Stop => t.state == Idle && !t.armed
              case Idle => t.state == Idle && !t.armed
              case Error => t.state == Error && !t.armed
              case Halt =>
                if (b.kind.Boom? && i.lowVoltage && b.lowVoltages >= 499) || (b.kind.Leg? && StandsTooLong(b, i))
                then t.state in {Error, Reset} && !t.armed else t.state == Halt
              case _ => t.state == Run && t.armed == (b.armed && !i.interrupted)
  {
    hide EncoderChange, JudgeRun, DebounceStep, InHalt, LowTrips, PressedTrips, StaleTrips, StandsTooLong;
    RunIsJudged(b, i);
    var r, d := JudgeRun(Sample(b, i), i), EncoderChange(b.encoder, i.encoder);
    if r.state == Halt {
      HaltFromRun(b, i, r, d);
    }
  }

  lemma HaltFromRun(b: Board, i: Input, r: Board, d: int)
    requires Sound(b) && b.state == Run && r.state == Halt && r.kind == b.kind && r.damping == b.damping && r.debounce <= 5
    requires b.kind.Boom? ==> LowNext(b.lowVoltages, r.lowVoltages, i.lowVoltage)
    requires d == EncoderChange(b.encoder, i.encoder)
    ensures var t := InHalt(r, i, d);
            if (b.kind.Boom? && i.lowVoltage && b.lowVoltages >= 499) || (b.kind.Leg? && StandsTooLong(b, i))
            then t.state in {Error, Reset} && !t.armed else t.state == Halt
  {
    hide EncoderChange, DampingCurrent;
  }

  /** A leg that does not move, with its 8-bit count over the limit. */
  predicate StandsTooLong(b: Board, i: Input) {
    Slow(b, i) && Damped(b) > 100
  }

  /** Halt goes on exactly without a fault and while its count lasts: a leg's counts against it only if it does not
      move, a sensor board has none. */
  lemma HaltGoes(b: Board, i: Input)
    requires Sound(b) && b.state == Halt
    ensures var t := Step(b, i);
            if LowTrips(b, i) || PressedTrips(b, i) || (Limited(b.kind) && b.damping == 100)
               || (b.kind.Leg? && StandsTooLong(b, i))
            then t.state == Error && !t.armed
            else t.state == Halt && t.armed == (b.armed && !i.interrupted)
  {
    hide EncoderChange, DampingCurrent, DebounceStep;
    StepKeepsSound(b, i);
  }

  /** Error: on a reset command after the dwell time, and only then, to reset; and from there to idle. */
  lemma ErrorGoes(b: Board, i: Input)
    requires Sound(b) && b.state == Error
    ensures Step(b, i).state == if i.command == Reset && Dwelt(b) > 1000 then Reset else Error
    ensures Step(b, i).timeout == Dwelt(b) && !Step(b, i).armed
  {
    hide EncoderChange, DebounceStep;
  }

  // ---------------------------------------------------------------------------------------------
  // How long an error lasts

  /** The tick goes to error for the watchdog's sake alone. */
  predicate OnlyWatchdog(b: Board, i: Input) {
    && b.state == Run && StaleTrips(b, i) && !LowTrips(b, i) && !PressedTrips(b, i) && i.command != Error
  }

  /** Every way into error clears the dwell counter, except for that of the watchdog. */
  lemma DwellStarts(b: Board, i: Input)
    requires Sound(b) && (b.state == Init || b.state == Run || b.state == Halt)
    requires Step(b, i).state == Error || Step(b, i).state == Reset
    ensures if OnlyWatchdog(b, i) then Step(b, i).timeout == Dwelt(b) else Step(b, i).timeout <= 1
  {
    hide EncoderChange, DampingCurrent, DebounceStep, JudgeRun, LowTrips, PressedTrips, StaleTrips;
    if b.state == Run {
      RunIsJudged(b, i);
    }
  }

  /** So an error lasts for a thousand ticks at least, unless the watchdog alone has raised it. */
  lemma ErrorLasts(bs: seq<Board>, inputs: seq<Input>, e: nat, n: nat)
    requires IsRun(bs, inputs) && e < n < |inputs| && bs[e].state in {Init, Run, Halt} && !OnlyWatchdog(bs[e], inputs[e])
    requires (forall k :: e < k <= n ==> bs[k].state == Error) && bs[n + 1].state == Reset
    ensures n - e >= 1000
  {
    hide Step, OnlyWatchdog;
    DwellCounts(bs, inputs, e, n);
    AlwaysSound(bs, inputs, n);
    assert Ticks(bs, inputs, n);
    ErrorGoes(bs[n], inputs[n]);
  }

  lemma {:induction false} DwellCounts(bs: seq<Board>, inputs: seq<Input>, e: nat, n: nat)
    requires IsRun(bs, inputs) && e < n <= |inputs| && bs[e].state in {Init, Run, Halt} && !OnlyWatchdog(bs[e], inputs[e])
    requires forall k :: e < k <= n ==> bs[k].state == Error
    ensures bs[n].timeout as int <= n - e
  {
    hide Step, OnlyWatchdog;
    AlwaysSound(bs, inputs, n - 1);
    assert Ticks(bs, inputs, n - 1);
    if n == e + 1 {
      DwellStarts(bs[e], inputs[e]);
    } else {
      DwellCounts(bs, inputs, e, n - 1);
      ErrorGoes(bs[n - 1], inputs[n - 1]);
    }
  }
}
