/**
  Runs of a Medulla board: what holds after every tick, how a board gets back from an error to running,
  how long a stale command or a halt can last, and what the two filters in the loop measure.
 */
module MedullaRuns {
  import opened Bits
  import opened Filters
  import opened Medulla

  function Start(kind: Kind, counter: UInt16): Board {
    Board(kind, Idle, 0, 0, counter, 0, false, 0, 0, 0, Nothing)
  }

  /** Tick k of the run. */
  predicate Ticks(bs: seq<Board>, inputs: seq<Input>, k: nat) {
    k < |inputs| < |bs| && bs[k + 1] == Step(bs[k], inputs[k])
  }

  /** A run from power-up: tick k turns bs[k] into bs[k + 1]. */
  predicate IsRun(bs: seq<Board>, inputs: seq<Input>) {
    && |bs| == |inputs| + 1
    && bs[0] == Start(bs[0].kind, bs[0].previous)
    && forall k :: 0 <= k < |inputs| ==> Ticks(bs, inputs, k)
  }

  // ---------------------------------------------------------------------------------------------
  // The invariant

  /** What holds of the counters in every state. */
  predicate Bounded(b: Board) {
    && b.debounce <= INT_MAX
    && b.watchdogErrors <= MASTER_WATCHDOG_LIMIT
    && (b.kind.Boom? ==> b.lowVoltages <= LOW_VOLTAGE_LIMIT + 1)
    && (Limited(b.kind) ==> b.damping <= DAMPING_LIMIT + 1)
  }

  /** The boards whose halt is limited in time whatever the motor does. */
  predicate Limited(kind: Kind) {
    kind.Hip? || kind.Boom?
  }

  predicate Sound(b: Board) {
    && Bounded(b)
    && !b.state.Stop? && !b.state.Other?
    && (b.armed ==> b.state == Run || b.state == Halt)
    && (b.state == Run ==> b.watchdogErrors < MASTER_WATCHDOG_LIMIT)
    && (b.kind.Boom? && (b.state == Run || b.state == Halt) ==> b.lowVoltages <= LOW_VOLTAGE_LIMIT)
    && (Limited(b.kind) && b.state == Run ==> b.damping == 0)
    && (Limited(b.kind) && b.state == Halt ==> 1 <= b.damping <= DAMPING_LIMIT)
  }

  lemma ErrorKeeps(b: Board, i: Input)
    requires Bounded(b) && b.state == Error
    ensures var t := InError(b, i);
            Sound(t) && t.kind == b.kind && !t.armed && (t.state == Error || t.state == Reset)
    ensures b.timeout == 0 ==> InError(b, i).state == Error
  {
  }

  lemma HaltKeeps(b: Board, i: Input, diff: int)
    requires Bounded(b) && b.state == Halt
    requires b.kind.Boom? ==> b.lowVoltages <= LOW_VOLTAGE_LIMIT
    requires Limited(b.kind) ==> b.damping <= DAMPING_LIMIT
    ensures var t := InHalt(b, i, diff);
            && Sound(t) && (t.state == Halt || t.state == Error)
            && t.kind == b.kind
            && (t.state == Halt && Limited(b.kind) ==> t.damping == b.damping + 1)
            && (t.state == Halt ==> t.debounce <= ESTOP_DEBOUNCE_LIMIT)
  {
    hide DampingCurrent;
    var c := JudgeHalt(b, i);
    if c.state == Error {
      ErrorKeeps(c, i);
    }
  }

  lemma RunKeeps(b: Board, i: Input, diff: int)
    requires Sound(b.(debounce := 0)) && b.debounce <= INT_MAX && b.state == Run
    ensures var t := InRun(b, i, diff);
            && Sound(t) && t.state != Init && t.kind == b.kind
            && (t.state == Run || t.state == Halt ==> t.debounce <= ESTOP_DEBOUNCE_LIMIT)
            && (WatchdogStep(b.watchdogErrors, i.counter == b.previous) >= MASTER_WATCHDOG_LIMIT ==>
                  t.state == Error || t.state == Reset)
  {
    hide InHalt, InError;
    var c := JudgeRun(b, i);
    if c.state == Error {
      ErrorKeeps(c, i);
    } else if c.state == Halt {
      HaltKeeps(c, i, diff);
    }
  }

  lemma InitKeeps(b: Board, i: Input)
    requires Bounded(b) && b.state == Init
    ensures var t := InInit(b, i);
            Sound(t) && t.kind == b.kind && (t.state == Error || (t.state == Run && Clear(b, i)))
  {
    hide InError;
    var c := JudgeInit(b, i);
    if c.state == Error {
      ErrorKeeps(c, i);
    }
  }

  /** The e-stop is not pressed and check_error finds nothing after reset_error. */
  predicate Clear(b: Board, i: Input) {
    !i.pressedAtInit && !CheckError(b.kind, ResetError(b).lowVoltages, i.lowVoltage).1
  }

  /** The second half is idle: reset_error has just cleared the only filter that check_error has. */
  lemma InitChecksOnlyEstop(b: Board, i: Input)
    ensures Clear(b, i) <==> !i.pressedAtInit
  {
  }

  /** The ways from state to state. */
  predicate Moves(b: Board, i: Input, t: Board) {
    match b.state
    case Idle => t.state == (if i.command == Run then Init else Idle)
    case Init => t.state == Error || (t.state == Run && Clear(b, i))
    case Run => t.state in {Run, Halt, Idle, Error, Reset}
    case Halt => t.state == Halt || t.state == Error
    case Error => t.state == Error || (t.state == Reset && i.command == Reset && t.timeout > ESTOP_TIMEOUT_LENGTH)
    case Reset => t.state == Idle && t.debounce == 0
    case _ => true
  }

  lemma StepKeepsSound(b: Board, i: Input)
    requires Sound(b)
    ensures Sound(Step(b, i))
    ensures Moves(b, i, Step(b, i))
    ensures b.state == Halt && Step(b, i).state == Halt && Limited(b.kind) ==> Step(b, i).damping == b.damping + 1
    ensures Step(b, i).kind == b.kind
  {
    hide EncoderChange, InHalt, InRun, InInit;
    var diff := EncoderChange(b.encoder, i.encoder);
    var c := Sample(b, i);
    match b.state
    case Init => InitKeeps(c, i);
    case Run => RunKeeps(c, i, diff);
    case Halt => HaltKeeps(c, i, diff);
    case Error => ErrorKeeps(c, i);
    case _ =>
  }

  /** Whatever the master and the hardware do: outputs are armed in run and halt only, no tick ends in
      stop or in an invalid state, the watchdog count stays below its limit in run, the low-voltage count
      of a boom never exceeds 501, and the halt count of a hip or boom never exceeds 101. */
  lemma {:induction false} AlwaysSound(bs: seq<Board>, inputs: seq<Input>, n: nat)
    requires IsRun(bs, inputs) && n <= |inputs|
    ensures Sound(bs[n]) && bs[n].kind == bs[0].kind
  {
    hide Step;
    if n > 0 {
      AlwaysSound(bs, inputs, n - 1);
      assert Ticks(bs, inputs, n - 1);
      StepKeepsSound(bs[n - 1], inputs[n - 1]);
    }
  }

  /** The endless loop of the firmware over any number of edges is such a run. */
  method MainLoop(kind: Kind, counter: UInt16, inputs: seq<Input>) returns (f: Firmware, ghost bs: seq<Board>)
    ensures IsRun(bs, inputs) && bs[0] == Start(kind, counter) && f.Snapshot() == bs[|inputs|]
  {
    hide Step;
    f := new Firmware(kind, counter);
    bs := [f.Snapshot()];
    var n := 0;
    while n < |inputs|
      invariant 0 <= n <= |inputs|
      invariant IsRun(bs, inputs[..n]) && bs[0] == Start(kind, counter) && f.Snapshot() == bs[n]
      invariant fresh(f)
    {
      AlwaysSound(bs, inputs[..n], n);
      f.Cycle(inputs[n]);
      assert Ticks(bs + [f.Snapshot()], inputs[..n + 1], n);
      Extends(bs, f.Snapshot(), inputs, n);
      bs := bs + [f.Snapshot()];
      n := n + 1;
    }
    assert inputs[..n] == inputs;
  }

  lemma Extends(bs: seq<Board>, t: Board, inputs: seq<Input>, n: nat)
    requires n < |inputs| && IsRun(bs, inputs[..n]) && t == Step(bs[n], inputs[n])
    ensures IsRun(bs + [t], inputs[..n + 1])
  {
    hide Step;
    var u, w := bs + [t], inputs[..n + 1];
    forall k | 0 <= k < |w|
      ensures Ticks(u, w, k)
    {
      assert k < n ==> Ticks(bs, inputs[..n], k);
    }
  }

  // ---------------------------------------------------------------------------------------------
  // From error back to run

  /** Tick k, an error tick, answers a reset command after the timeout. */
  predicate Answers(bs: seq<Board>, inputs: seq<Input>, k: nat) {
    && k < |inputs| < |bs|
    && bs[k].state == Error && inputs[k].command == Reset
    && bs[k + 1].timeout > ESTOP_TIMEOUT_LENGTH && bs[k + 1].state == Reset
  }

  predicate Clears(bs: seq<Board>, inputs: seq<Input>, k: nat) {
    k < |inputs| < |bs| && bs[k].state == Reset && bs[k + 1].state == Idle && bs[k + 1].debounce == 0
  }

  predicate Starts(bs: seq<Board>, inputs: seq<Input>, k: nat) {
    k < |inputs| < |bs| && bs[k].state == Idle && inputs[k].command == Run && bs[k + 1].state == Init
  }

  /** Tick k, an init tick, finds the e-stop and check_error clear. */
  predicate Arms(bs: seq<Board>, inputs: seq<Input>, k: nat) {
    k < |inputs| < |bs| && bs[k].state == Init && Clear(bs[k], inputs[k]) && bs[k + 1].state == Run
  }

  predicate Answered(bs: seq<Board>, inputs: seq<Input>, from: nat, n: nat) {
    n <= |inputs| < |bs| && exists k :: from <= k < n && Answers(bs, inputs, k)
  }

  predicate Cleared(bs: seq<Board>, inputs: seq<Input>, from: nat, n: nat) {
    n <= |inputs| < |bs| && exists k :: from <= k < n && Clears(bs, inputs, k) && Answered(bs, inputs, from, k)
  }

  predicate Started(bs: seq<Board>, inputs: seq<Input>, from: nat, n: nat) {
    n <= |inputs| < |bs| && exists k :: from <= k < n && Starts(bs, inputs, k) && Cleared(bs, inputs, from, k)
  }

  /** Between `from` and n came, in this order, an answered reset, a reset tick, a start and an arming. */
  predicate Rearmed(bs: seq<Board>, inputs: seq<Input>, from: nat, n: nat) {
    n <= |inputs| < |bs| && exists k :: from <= k < n && Arms(bs, inputs, k) && Started(bs, inputs, from, k)
  }

  /** What each state says about the ticks since an error. */
  predicate Progress(bs: seq<Board>, inputs: seq<Input>, from: nat, n: nat)
    requires n <= |inputs| < |bs|
  {
    match bs[n].state
    case Error => true
    case Reset => Answered(bs, inputs, from, n)
    case Idle => Cleared(bs, inputs, from, n)
    case Init => Started(bs, inputs, from, n)
    case _ => Rearmed(bs, inputs, from, n)
  }

  lemma {:induction false} MakesProgress(bs: seq<Board>, inputs: seq<Input>, from: nat, n: nat)
    requires IsRun(bs, inputs) && from <= n <= |inputs|
    requires bs[from].state == Error
    ensures Progress(bs, inputs, from, n)
  {
    hide Step, Clear;
    if n > from {
      MakesProgress(bs, inputs, from, n - 1);
      AlwaysSound(bs, inputs, n - 1);
      assert Ticks(bs, inputs, n - 1);
      StepKeepsSound(bs[n - 1], inputs[n - 1]);
      assert bs[n].state != bs[n - 1].state ==>
               match bs[n - 1].state
               case Error => Answers(bs, inputs, n - 1)
               case Reset => Clears(bs, inputs, n - 1)
               case Idle => Starts(bs, inputs, n - 1)
               case Init => bs[n].state == Error || Arms(bs, inputs, n - 1)
               case _ => true;
    }
  }

  /** Tick p answers a reset command, tick q resets, tick r follows a run command and tick s arms. */
  predicate Recovery(bs: seq<Board>, inputs: seq<Input>, p: nat, q: nat, r: nat, s: nat) {
    && p < |inputs| && q < |inputs| && r < |inputs| && s < |inputs| < |bs|
    && Answers(bs, inputs, p)
    && Clears(bs, inputs, q)
    && Starts(bs, inputs, r)
    && Arms(bs, inputs, s)
  }

  /** A board that was in error is running again only after all four, in order. */
  lemma ErrorToRun(bs: seq<Board>, inputs: seq<Input>, i: nat, j: nat)
    requires IsRun(bs, inputs) && i <= j <= |inputs|
    requires bs[i].state == Error && bs[j].state == Run
    ensures exists p: nat, q: nat, r: nat, s: nat | i <= p < q < r < s < j ::
              Recovery(bs, inputs, p, q, r, s)
  {
    hide Ticks, Answers, Clears, Starts, Arms;
    MakesProgress(bs, inputs, i, j);
    assert Rearmed(bs, inputs, i, j);
    var s: nat :| i <= s < j && Arms(bs, inputs, s) && Started(bs, inputs, i, s);
    var r: nat :| i <= r < s && Starts(bs, inputs, r) && Cleared(bs, inputs, i, r);
    var q: nat :| i <= q < r && Clears(bs, inputs, q) && Answered(bs, inputs, i, q);
    var p: nat :| i <= p < q && Answers(bs, inputs, p);
    assert Recovery(bs, inputs, p, q, r, s);
  }

  // ---------------------------------------------------------------------------------------------
  // The master's watchdog and stale commands

  /** What it takes to end a tick in run. */
  lemma TickInRun(b: Board, i: Input)
    requires Sound(b)
    ensures var t := Step(b, i);
            && (t.applied.Drive? ==> b.state == Run && t.state == Run)
            && (t.state == Run && b.state == Run ==>
                  && t.watchdogErrors == WatchdogStep(b.watchdogErrors, i.counter == b.previous)
                  && t.previous == i.counter)
            && (t.state == Run && b.state != Run ==> b.state == Init && t.watchdogErrors == 0)
            && (b.state == Run && WatchdogStep(b.watchdogErrors, i.counter == b.previous) >= MASTER_WATCHDOG_LIMIT ==>
                  t.state != Run && t.state != Halt && !t.armed && t.applied.Nothing?)
  {
    hide EncoderChange, InHalt, InInit, InError, WatchdogStep;
    StepKeepsSound(b, i);
    var diff := EncoderChange(b.encoder, i.encoder);
    if b.state == Run {
      RunKeeps(Sample(b, i), i, diff);
    }
    HaltNeverDrives(Sample(b, i), i, diff);
    HaltNeverDrives(JudgeRun(Sample(b, i), i), i, diff);
  }

  lemma HaltNeverDrives(b: Board, i: Input, diff: int)
    requires b.applied.Nothing?
    ensures !InHalt(b, i, diff).applied.Drive? && InInit(b, i).applied.Nothing? && InError(b, i).applied.Nothing?
    ensures b.state == Init ==> InInit(b, i).watchdogErrors == 0
    ensures b.state != Run ==> InError(b, i).state != Run && InHalt(b, i, diff).state != Run
  {
    hide DampingCurrent, CheckError;
  }

  /** Tick k began in run and found the master's counter unchanged. */
  predicate Stale(bs: seq<Board>, inputs: seq<Input>, k: nat) {
    k < |inputs| < |bs| && bs[k].state == Run && inputs[k].counter == bs[k].previous
  }

  /** In run the watchdog counts the stale ticks that directly precede, no more and no less. */
  lemma {:induction false} CountsStale(bs: seq<Board>, inputs: seq<Input>, n: nat)
    requires IsRun(bs, inputs) && n <= |inputs| && bs[n].state == Run
    ensures var e: int := bs[n].watchdogErrors;
            && e < n
            && (forall k :: n - e <= k < n ==> Stale(bs, inputs, k))
            && !Stale(bs, inputs, n - e - 1)
  {
    hide Step, WatchdogStep;
    var before := bs[n - 1];
    assert Ticks(bs, inputs, n - 1);
    AlwaysSound(bs, inputs, n - 1);
    TickInRun(before, inputs[n - 1]);
    if before.state == Run {
      CountsStale(bs, inputs, n - 1);
      WatchdogCounts(before.watchdogErrors, inputs[n - 1].counter == before.previous);
      assert Stale(bs, inputs, n - 1) <==> inputs[n - 1].counter == before.previous;
    }
  }

  lemma WatchdogCounts(errors: Byte, stale: bool)
    requires errors < MASTER_WATCHDOG_LIMIT
    ensures var e: int := errors;
            WatchdogStep(errors, stale) == if stale then e + 1 else 0
  {
  }

  predicate Fires(bs: seq<Board>, inputs: seq<Input>, n: nat)
    requires n < |inputs| < |bs|
  {
    var c := bs[n];
    c.state == Run && WatchdogStep(c.watchdogErrors, inputs[n].counter == c.previous) >= MASTER_WATCHDOG_LIMIT
  }

  /** The watchdog fires exactly on the tenth stale tick in a row, and then the tick ends disarmed. */
  lemma WatchdogExact(bs: seq<Board>, inputs: seq<Input>, n: nat)
    requires IsRun(bs, inputs) && n < |inputs| && bs[n].state == Run
    ensures Fires(bs, inputs, n) <==> n >= 9 && forall k :: n - 9 <= k <= n ==> Stale(bs, inputs, k)
    ensures Fires(bs, inputs, n) ==> !bs[n + 1].armed && bs[n + 1].applied.Nothing?
  {
    hide Step, WatchdogStep;
    CountsStale(bs, inputs, n);
    AlwaysSound(bs, inputs, n);
    assert Ticks(bs, inputs, n);
    TickInRun(bs[n], inputs[n]);
    WatchdogCounts(bs[n].watchdogErrors, inputs[n].counter == bs[n].previous);
    var e: int := bs[n].watchdogErrors;
    assert Fires(bs, inputs, n) <==> e == 9 && Stale(bs, inputs, n);
    assert !Stale(bs, inputs, n - e - 1);
    assert e == 9 <==> n >= 9 && forall k :: n - 9 <= k < n ==> Stale(bs, inputs, k);
  }

  /** The tick gives a command of the master to the amplifier. */
  predicate Drives(bs: seq<Board>, inputs: seq<Input>, n: nat) {
    n < |inputs| < |bs| && bs[n + 1].applied.Drive?
  }

  /** Of eleven ticks in a row with one value of the master's counter, not all drive the motor. */
  lemma StaleCommandsEnd(bs: seq<Board>, inputs: seq<Input>, n: nat)
    requires IsRun(bs, inputs) && n + 10 < |inputs|
    requires forall k :: n < k <= n + 10 ==> inputs[k].counter == inputs[n].counter
    ensures exists k :: n <= k <= n + 10 && !Drives(bs, inputs, k)
  {
    hide Step;
    if forall k :: n <= k <= n + 10 ==> Drives(bs, inputs, k) {
      forall k | n < k <= n + 10
        ensures Stale(bs, inputs, k)
      {
        assert Drives(bs, inputs, k - 1);
        DriveMakesStale(bs, inputs, k - 1);
      }
      assert Stale(bs, inputs, n + 10);
      WatchdogExact(bs, inputs, n + 10);
      assert !Drives(bs, inputs, n + 10);
    }
  }

  lemma DriveMakesStale(bs: seq<Board>, inputs: seq<Input>, k: nat)
    requires IsRun(bs, inputs) && k + 1 < |inputs| && inputs[k].counter == inputs[k + 1].counter
    requires Drives(bs, inputs, k)
    ensures Stale(bs, inputs, k + 1)
  {
    hide Step, WatchdogStep;
    AlwaysSound(bs, inputs, k);
    assert Ticks(bs, inputs, k);
    TickInRun(bs[k], inputs[k]);
  }

  // ---------------------------------------------------------------------------------------------
  // Halting

  /** The halt count of a hip or boom grows on every tick that stays in halt. */
  lemma {:induction false} HaltCounts(bs: seq<Board>, inputs: seq<Input>, n: nat, m: nat)
    requires IsRun(bs, inputs) && Limited(bs[0].kind) && n <= m <= |inputs|
    requires forall k :: n <= k <= m ==> bs[k].state == Halt
    ensures bs[m].damping >= m - n + 1
  {
    hide Step;
    AlwaysSound(bs, inputs, m);
    if m > n {
      HaltCounts(bs, inputs, n, m - 1);
      AlwaysSound(bs, inputs, m - 1);
      assert Ticks(bs, inputs, m - 1);
      StepKeepsSound(bs[m - 1], inputs[m - 1]);
    }
  }

  /** Halt goes on, or it has ended in error, disarmed. */
  ghost predicate EndsIn(bs: seq<Board>, n: nat, m: nat) {
    && n <= m < |bs|
    && exists k :: n < k <= m && bs[k].state == Error && !bs[k].armed && forall j :: n <= j < k ==> bs[j].state == Halt
  }

  lemma EndsOrStays(bs: seq<Board>, inputs: seq<Input>, n: nat, m: nat)
    requires IsRun(bs, inputs) && n <= m <= |inputs| && bs[n].state == Halt
    ensures EndsIn(bs, n, m) || forall j :: n <= j <= m ==> bs[j].state == Halt
  {
    hide Ticks;
    var k := n;
    while k < m && bs[k].state == Halt
      invariant n <= k <= m
      invariant forall j :: n <= j < k ==> bs[j].state == Halt
      invariant bs[k].state == Halt || (k > n && bs[k].state == Error && !bs[k].armed)
    {
      HaltStep(bs, inputs, k);
      k := k + 1;
    }
  }

  /** A halted hip or boom is in error within 100 ticks, disarmed, and was in halt until then. */
  lemma HaltEnds(bs: seq<Board>, inputs: seq<Input>, n: nat)
    requires IsRun(bs, inputs) && Limited(bs[0].kind) && n + 100 <= |inputs|
    requires bs[n].state == Halt
    ensures EndsIn(bs, n, n + 100)
  {
    hide Ticks;
    EndsOrStays(bs, inputs, n, n + 100);
    if !EndsIn(bs, n, n + 100) {
      HaltCounts(bs, inputs, n, n + 100);
      AlwaysSound(bs, inputs, n + 100);
    }
  }

  predicate Slow(b: Board, i: Input) {
    -10 <= EncoderChange(b.encoder, i.encoder) <= 10
  }

  /** The 8-bit count after one more tick in halt. */
  function Damped(b: Board): nat {
    var d: int := b.damping;
    (d + 1) % 0x100
  }

  /** A leg stays in halt exactly without an e-stop and while it moves or its count is not over the limit. */
  lemma LegHaltExact(b: Board, i: Input)
    requires Sound(b) && b.kind.Leg? && b.state == Halt
    ensures var t := Step(b, i);
            && (t.state == Halt <==>
                  DebounceStep(b.debounce, i.pressed) <= ESTOP_DEBOUNCE_LIMIT && (Slow(b, i) ==> Damped(b) <= DAMPING_LIMIT))
            && (t.state == Halt ==> t.damping == Damped(b))
  {
    hide EncoderChange, DampingCurrent, DebounceStep;
  }

  lemma {:induction false} LegHaltCounts(bs: seq<Board>, inputs: seq<Input>, n: nat, m: nat)
    requires IsRun(bs, inputs) && bs[0].kind.Leg? && n < m <= |inputs|
    requires forall k :: n <= k <= m ==> bs[k].state == Halt
    requires forall k :: n <= k < m ==> Slow(bs[k], inputs[k])
    ensures m - n - 1 <= bs[m].damping <= DAMPING_LIMIT
  {
    hide Step, Slow;
    AlwaysSound(bs, inputs, m - 1);
    assert Ticks(bs, inputs, m - 1);
    LegHaltExact(bs[m - 1], inputs[m - 1]);
    if m > n + 1 {
      LegHaltCounts(bs, inputs, n, m - 1);
    }
  }

  /** A halted leg that does not move is in error within 102 ticks, disarmed, whatever its count was before. */
  lemma LegHaltEnds(bs: seq<Board>, inputs: seq<Input>, n: nat)
    requires IsRun(bs, inputs) && bs[0].kind.Leg? && n + 102 <= |inputs|
    requires bs[n].state == Halt
    requires forall k :: n <= k < n + 102 && bs[k].state == Halt ==> Slow(bs[k], inputs[k])
    ensures EndsIn(bs, n, n + 102)
  {
    hide Ticks, Slow;
    EndsOrStays(bs, inputs, n, n + 102);
    if !EndsIn(bs, n, n + 102) {
      LegHaltCounts(bs, inputs, n, n + 102);
    }
  }

  /** Halt is left for error only, and disarmed. */
  lemma HaltStep(bs: seq<Board>, inputs: seq<Input>, k: nat)
    requires IsRun(bs, inputs) && k < |inputs| && bs[k].state == Halt
    ensures var t := bs[k + 1];
            t.state == Halt || (t.state == Error && !t.armed)
  {
    hide Step;
    AlwaysSound(bs, inputs, k);
    assert Ticks(bs, inputs, k);
    StepKeepsSound(bs[k], inputs[k]);
  }

  // ---------------------------------------------------------------------------------------------
  // What the filters measure

  /** The samples of the e-stop since the last reset tick. */
  function PressedSince(bs: seq<Board>, inputs: seq<Input>, n: nat): seq<bool>
    requires n <= |inputs| < |bs|
  {
    if n == 0 || bs[n - 1].state == Reset then []
    else PressedSince(bs, inputs, n - 1) + [inputs[n - 1].pressed]
  }

  lemma {:induction false} DebounceMeasures(bs: seq<Board>, inputs: seq<Input>, n: nat)
    requires IsRun(bs, inputs) && n <= |inputs|
    ensures bs[n].debounce == Debounce(PressedSince(bs, inputs, n))
  {
    hide Step, DebounceStep;
    if n > 0 {
      DebounceMeasures(bs, inputs, n - 1);
      assert Ticks(bs, inputs, n - 1);
      StepCounts(bs[n - 1], inputs[n - 1]);
      var w := PressedSince(bs, inputs, n);
      assert w != [] ==> w[..|w| - 1] == PressedSince(bs, inputs, n - 1);
    }
  }

  lemma StepCounts(b: Board, i: Input)
    ensures Step(b, i).debounce == if b.state == Reset then 0 else DebounceStep(b.debounce, i.pressed)
  {
    hide EncoderChange, InHalt, InInit, InError, JudgeRun, DebounceStep;
    var c, diff := Sample(b, i), EncoderChange(b.encoder, i.encoder);
    PartsKeepDebounce(c, i, diff);
    PartsKeepDebounce(JudgeRun(c, i), i, diff);
  }

  lemma PartsKeepDebounce(b: Board, i: Input, diff: int)
    ensures InHalt(b, i, diff).debounce == InInit(b, i).debounce == InError(b, i).debounce == JudgeRun(b, i).debounce
         == b.debounce
  {
    hide RunHalt, CheckError;
    RunHaltKeepsCounts(JudgeHalt(b, i), diff);
  }

  lemma RunHaltKeepsCounts(b: Board, diff: int)
    ensures var t := RunHalt(b, diff).0;
            t.debounce == b.debounce && t.lowVoltages == b.lowVoltages && t.state == b.state
  {
  }

  /** Run and halt end disarmed when the e-stop's counter is over its limit; and it is, exactly when some window
      of samples since the last reset that ends now holds more than five pressed samples in excess of the
      others. Only an overflow of the 16-bit count comes between; Filters.TripsRightlyExact says that it always
      does. */
  lemma EstopTrips(bs: seq<Board>, inputs: seq<Input>, n: nat)
    requires IsRun(bs, inputs) && n < |inputs|
    requires bs[n].state == Run || bs[n].state == Halt
    ensures var t := bs[n + 1];
            t.debounce > ESTOP_DEBOUNCE_LIMIT ==> t.state != Run && t.state != Halt && !t.armed
    ensures var w := PressedSince(bs, inputs, n + 1);
            (forall j :: 0 <= j <= |w| ==> Leaky(w[..j]) <= INT_MAX) ==>
              (bs[n + 1].debounce > ESTOP_DEBOUNCE_LIMIT
               <==> exists k :: 0 <= k <= |w| && Net(w[k..]) > ESTOP_DEBOUNCE_LIMIT)
  {
    hide Step, DebounceStep, Debounce, Leaky;
    var w := PressedSince(bs, inputs, n + 1);
    DebounceMeasures(bs, inputs, n + 1);
    if forall j :: 0 <= j <= |w| ==> Leaky(w[..j]) <= INT_MAX {
      DebounceIsLeaky(w, |w|);
      assert w[..|w|] == w;
      TripsExactly(w, ESTOP_DEBOUNCE_LIMIT);
    }
    AlwaysSound(bs, inputs, n);
    AlwaysSound(bs, inputs, n + 1);
    assert Ticks(bs, inputs, n);
    StepLimits(bs[n], inputs[n]);
  }

  /** Run and halt survive a tick only with both filters below their limits. */
  lemma StepLimits(b: Board, i: Input)
    requires Sound(b) && (b.state == Run || b.state == Halt)
    ensures var t := Step(b, i);
            t.state == Run || t.state == Halt ==> t.debounce <= ESTOP_DEBOUNCE_LIMIT
  {
    hide EncoderChange, InHalt, InRun;
    var diff := EncoderChange(b.encoder, i.encoder);
    if b.state == Run {
      RunKeeps(Sample(b, i), i, diff);
    } else {
      HaltKeeps(Sample(b, i), i, diff);
    }
  }

  /** The samples that one tick hands to check_error. A tick from run to halt checks twice. */
  function Checked(b: Board, i: Input): seq<bool> {
    match b.state
    case Init => if i.pressedAtInit then [] else [i.lowVoltage]
    case Run => if JudgeRun(Sample(b, i), i).state == Halt then [i.lowVoltage, i.lowVoltage] else [i.lowVoltage]
    case Halt => [i.lowVoltage]
    case _ => []
  }

  /** The samples of the logic voltage since reset_error was last called; true is low. */
  function LowSince(bs: seq<Board>, inputs: seq<Input>, n: nat): seq<bool>
    requires n <= |inputs| < |bs|
  {
    if n == 0 then [] else
      var before := bs[n - 1];
      (if before.state == Init || before.state == Reset then [] else LowSince(bs, inputs, n - 1))
      + Checked(before, inputs[n - 1])
  }

  /** What a sequence of samples makes of the count of a boom. */
  function Counted(c: nat, w: seq<bool>): nat {
    if w == [] then c else LeakyStep(Counted(c, w[..|w| - 1]), w[|w| - 1])
  }

  lemma {:induction false} CountedConcat(v: seq<bool>, w: seq<bool>)
    ensures Leaky(v + w) == Counted(Leaky(v), w)
  {
    if w == [] {
      assert v + w == v;
    } else {
      CountedConcat(v, w[..|w| - 1]);
      assert (v + w)[..|v + w| - 1] == v + w[..|w| - 1];
    }
  }

  lemma CountedFew(c: nat, x: bool)
    ensures Counted(c, []) == c && Counted(c, [x]) == LeakyStep(c, x)
    ensures Counted(c, [x, x]) == LeakyStep(LeakyStep(c, x), x)
  {
    assert [x][..0] == [];
    assert [x, x][..1] == [x];
  }

  lemma CheckCounts(count: UInt16, low: bool)
    requires count < 0xffff
    ensures CheckError(Boom, count, low).0 == LeakyStep(count, low)
  {
  }

  lemma HaltChecks(b: Board, i: Input, diff: int)
    ensures b.state == Halt ==> InHalt(b, i, diff).lowVoltages == CheckError(b.kind, b.lowVoltages, i.lowVoltage).0
    ensures JudgeRun(b, i).lowVoltages == CheckError(b.kind, b.lowVoltages, i.lowVoltage).0
  {
    hide RunHalt, CheckError;
    RunHaltKeepsCounts(JudgeHalt(b, i), diff);
  }

  lemma StepSamplesVoltage(b: Board, i: Input)
    requires Sound(b) && b.kind.Boom?
    ensures Step(b, i).lowVoltages
         == Counted(if b.state == Init || b.state == Reset then 0 else b.lowVoltages, Checked(b, i))
  {
    hide EncoderChange, DebounceStep, CheckError, JudgeRun, InHalt, Counted, LeakyStep;
    var c := Sample(b, i);
    var diff := EncoderChange(b.encoder, i.encoder);
    var r := JudgeRun(c, i);
    HaltChecks(c, i, diff);
    HaltChecks(r, i, diff);
    var n: UInt16 := if b.state == Init || b.state == Reset then 0 else b.lowVoltages;
    CountedFew(n, i.lowVoltage);
    CheckCounts(n, i.lowVoltage);
    if b.state == Run {
      JudgeRunKeeps(c, i);
      CheckCounts(r.lowVoltages, i.lowVoltage);
    }
  }

  lemma JudgeRunKeeps(b: Board, i: Input)
    requires b.state == Run && b.kind.Boom? && b.lowVoltages <= LOW_VOLTAGE_LIMIT
    ensures var t := JudgeRun(b, i);
            t.kind == b.kind && t.lowVoltages <= LOW_VOLTAGE_LIMIT + 1 && t.state in {Run, Stop, Halt, Error}
  {
  }

  /** The low-voltage count of a boom is the greatest net excess of low samples over any window of the
      samples since the last reset_error; it never exceeds 501, and the boom is in run or halt only while
      no window has an excess over 500. */
  lemma {:induction false} VoltageMeasures(bs: seq<Board>, inputs: seq<Input>, n: nat)
    requires IsRun(bs, inputs) && bs[0].kind.Boom? && n <= |inputs|
    ensures var w := LowSince(bs, inputs, n);
            && bs[n].lowVoltages == Leaky(w) <= LOW_VOLTAGE_LIMIT + 1
            && (bs[n].state == Run || bs[n].state == Halt ==>
                  forall k :: 0 <= k <= |w| ==> Net(w[k..]) <= LOW_VOLTAGE_LIMIT)
  {
    hide Step, Checked, Counted;
    AlwaysSound(bs, inputs, n);
    if n > 0 {
      VoltageMeasures(bs, inputs, n - 1);
      AlwaysSound(bs, inputs, n - 1);
      var before := bs[n - 1];
      assert Ticks(bs, inputs, n - 1);
      StepSamplesVoltage(before, inputs[n - 1]);
      CountedConcat(if before.state == Init || before.state == Reset then [] else LowSince(bs, inputs, n - 1),
                    Checked(before, inputs[n - 1]));
    }
    TripsExactly(LowSince(bs, inputs, n), LOW_VOLTAGE_LIMIT);
  }

  // ---------------------------------------------------------------------------------------------
  // What reaches the amplifier

  /** Only a run tick that stays in run drives the motor, with the master's own value; what the halt
      controller applies is below the PWM period. */
  lemma AppliedIsBounded(b: Board, i: Input)
    requires Sound(b)
    ensures var t := Step(b, i);
            match t.applied
            case Nothing => true
            case Drive(v) => b.state == Run && t.state == Run && v == i.current && (b.kind.Leg? || b.kind.Hip?)
            case Damp(v) => -DAMPING_CURRENT_LIMIT <= v <= DAMPING_CURRENT_LIMIT < AMC_PWM_PERIOD_TICKS
                            && (t.state == Halt || t.state == Error)
  {
    hide EncoderChange, InHalt, InInit, InError, WatchdogStep, CheckError, DebounceStep;
    var c, diff := Sample(b, i), EncoderChange(b.encoder, i.encoder);
    HaltApplies(c, i, diff);
    HaltApplies(JudgeRun(c, i), i, diff);
    HaltNeverDrives(c, i, diff);
    HaltNeverDrives(JudgeRun(c, i), i, diff);
  }

  /** A leg or hip that ends a tick in halt has just been given the damping output; a board of another kind is
      never given any. */
  lemma HaltDamps(b: Board, i: Input)
    requires Sound(b)
    ensures var t := Step(b, i);
            && (t.state == Halt && (b.kind.Leg? || b.kind.Hip?) ==> t.applied.Damp?)
            && (b.kind.Boom? || b.kind.Imu? ==> t.applied.Nothing?)
  {
    hide EncoderChange, InHalt, InInit, InError, WatchdogStep, CheckError, DebounceStep;
    var c, diff := Sample(b, i), EncoderChange(b.encoder, i.encoder);
    StepKeepsSound(b, i);
    HaltGives(c, i, diff);
    HaltGives(JudgeRun(c, i), i, diff);
    HaltNeverDrives(c, i, diff);
    HaltNeverDrives(JudgeRun(c, i), i, diff);
    if b.state == Run && JudgeRun(c, i).state == Error {
      ErrorNeverRuns(JudgeRun(c, i), i);
    }
  }

  lemma HaltGives(b: Board, i: Input, diff: int)
    requires b.applied.Nothing?
    ensures var t := InHalt(b, i, diff);
            && (t.state == Halt && b.state == Halt && (b.kind.Leg? || b.kind.Hip?) ==> t.applied.Damp?)
            && (b.kind.Boom? || b.kind.Imu? ==> t.applied.Nothing?)
  {
    hide CheckError, DampingCurrent;
  }

  lemma HaltApplies(b: Board, i: Input, diff: int)
    requires b.applied.Nothing?
    ensures var t := InHalt(b, i, diff);
            b.state == Halt && t.applied.Damp? ==>
              && -DAMPING_CURRENT_LIMIT <= t.applied.value <= DAMPING_CURRENT_LIMIT
              && (t.state == Halt || t.state == Error)
  {
    hide CheckError, InError;
    HaltNeverDrives(JudgeHalt(b, i), i, diff);
  }

  /** A tick that sees the command error does not drive the motor, and takes a running board to error, disarmed. */
  lemma ObeysError(b: Board, i: Input)
    requires Sound(b) && i.command == Error
    ensures var t := Step(b, i);
            && !t.applied.Drive? && (b.state == Run ==> t.state == Error && !t.armed)
            && t.state != Init && (t.state == Run ==> b.state == Init)
  {
    hide EncoderChange, InHalt, InInit, InError, WatchdogStep, CheckError;
    TickInRun(b, i);
    StepKeepsSound(b, i);
    var c := JudgeRun(Sample(b, i), i);
    if b.state == Run {
      RunKeeps(Sample(b, i), i, EncoderChange(b.encoder, i.encoder));
      ErrorNeverRuns(c, i);
    }
  }

  /** No hardware error, no e-stop, no watchdog. */
  predicate Faultless(b: Board, i: Input) {
    && !CheckError(b.kind, b.lowVoltages, i.lowVoltage).1
    && DebounceStep(b.debounce, i.pressed) <= ESTOP_DEBOUNCE_LIMIT
    && WatchdogStep(b.watchdogErrors, i.counter == b.previous) < MASTER_WATCHDOG_LIMIT
  }

  /** Run goes on exactly without a fault and without a command that leaves it; a board that is told to stop
      or to idle is idle and disarmed at the end of the tick. */
  lemma RunExact(b: Board, i: Input)
    requires Sound(b) && b.state == Run
    ensures Step(b, i).state == Run <==> Faultless(b, i) && i.command !in {Stop, Idle, Halt, Error}
    ensures Faultless(b, i) && (i.command == Stop || i.command == Idle) ==> Step(b, i).state == Idle && !Step(b, i).armed
    ensures !Faultless(b, i) ==> !Step(b, i).armed && (Step(b, i).state == Error || Step(b, i).state == Reset)
  {
    hide EncoderChange, InHalt, InError, WatchdogStep, CheckError, DebounceStep;
    var c, diff := Sample(b, i), EncoderChange(b.encoder, i.encoder);
    var r := JudgeRun(c, i);
    HaltNeverDrives(r, i, diff);
    if r.state == Error {
      ErrorNeverRuns(r, i);
    }
  }

  /** A run tick ends in reset, and so in one tick passes through error, exactly when only the watchdog fires,
      the master asks for a reset and the dwell counter, which that path does not clear, is past its limit. */
  lemma RunToResetExact(b: Board, i: Input)
    requires Sound(b) && b.state == Run
    ensures Step(b, i).state == Reset <==>
              && i.command == Reset
              && !CheckError(b.kind, b.lowVoltages, i.lowVoltage).1
              && DebounceStep(b.debounce, i.pressed) <= ESTOP_DEBOUNCE_LIMIT
              && WatchdogStep(b.watchdogErrors, i.counter == b.previous) >= MASTER_WATCHDOG_LIMIT
              && Dwelt(b) > ESTOP_TIMEOUT_LENGTH
  {
    hide EncoderChange, InHalt, WatchdogStep, CheckError, DebounceStep;
    var r := JudgeRun(Sample(b, i), i);
    if r.state == Halt {
      HaltNeverResets(r, i, EncoderChange(b.encoder, i.encoder));
    }
  }

  /** The dwell counter after one more error tick. */
  function Dwelt(b: Board): UInt16 {
    var t: int := b.timeout;
    (t + 1) % 0x1_0000
  }

  lemma HaltNeverResets(b: Board, i: Input, diff: int)
    requires b.state == Halt
    ensures InHalt(b, i, diff).state == Halt || InHalt(b, i, diff).state == Error
  {
    hide CheckError, DampingCurrent;
    RunHaltKeepsCounts(JudgeHalt(b, i), diff);
  }

  /** Run goes to halt only on the master's command. */
  lemma HaltIsCommanded(b: Board, i: Input)
    requires b.state == Run && Step(b, i).state == Halt
    ensures i.command == Halt
  {
    hide EncoderChange, InHalt, WatchdogStep, CheckError, DebounceStep;
  }

  lemma ErrorNeverRuns(b: Board, i: Input)
    requires b.state == Error
    ensures var t := InError(b, i);
            t.state in {Error, Reset} && !t.armed && (i.command == Error ==> t.state == Error)
  {
  }

  /** So throughout a run: the motor command of the master is applied only by a tick that begins and ends
      in run, and nothing of the halt controller's reaches the period of the PWM. */
  lemma AppliedInRuns(bs: seq<Board>, inputs: seq<Input>, n: nat)
    requires IsRun(bs, inputs) && n < |inputs|
    ensures match bs[n + 1].applied
            case Nothing => true
            case Drive(v) => bs[n].state == Run && bs[n + 1].state == Run && v == inputs[n].current
            case Damp(v) => -AMC_PWM_PERIOD_TICKS < v < AMC_PWM_PERIOD_TICKS && bs[n + 1].state in {Halt, Error}
  {
    hide Step;
    AlwaysSound(bs, inputs, n);
    assert Ticks(bs, inputs, n);
    AppliedIsBounded(bs[n], inputs[n]);
  }
}
