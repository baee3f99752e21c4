/**
  Two runs of a Medulla from power-up that show what its firmware lets happen: a board that goes from run
  to reset in one tick, and a board that runs on although its e-stop is pressed.
 */
module MedullaHazards {
  import opened Bits
  import opened Filters
  import opened Medulla
  import opened MedullaRuns
  import opened Traces

  /** A tick of a board on which nothing is wrong but perhaps the e-stop. */
  function Plain(command: State, pressed: bool, counter: UInt16, current: int := 0, interrupted: bool := false): Input {
    Input(command, counter, current, pressed, false, false, 0, interrupted)
  }

  /** The part of a board that matters here. */
  datatype View = View(state: State, debounce: int, errors: Byte, previous: UInt16, timeout: UInt16)

  /** A board in working order, seen as v. */
  predicate Looks(b: Board, v: View) {
    && !b.kind.Imu?
    && b == b.(state := v.state, debounce := v.debounce, watchdogErrors := v.errors, previous := v.previous,
               timeout := v.timeout, lowVoltages := 0, encoder := 0, armed := b.armed && v.state == Run)
  }

  /** A plain tick, as far as the two runs need it. */
  function Next(v: View, command: State, pressed: bool, counter: UInt16): View {
    var d := DebounceStep(v.debounce, pressed);
    var t: int := v.timeout;
    match v.state
    case Idle => v.(state := if command == Run then Init else Idle, debounce := d)
    case Init => v.(state := Run, debounce := d, errors := 0)
    case Run =>
      var w := v.(debounce := d, errors := WatchdogStep(v.errors, counter == v.previous), previous := counter);
      if command == Error then w.(state := Error, timeout := 1) else if command == Idle then w.(state := Idle) else w
    case Error =>
      v.(state := if command == Reset && Dwelling(v) > ESTOP_TIMEOUT_LENGTH then Reset else Error,
         debounce := d, timeout := Dwelling(v))
    case _ => v.(state := Idle, debounce := 0, errors := 0)
  }

  function Dwelling(v: View): UInt16 {
    var t: int := v.timeout;
    (t + 1) % 0x1_0000
  }

  /** In run: no fault, and a command that stays in run or asks for idle or error. */
  predicate Smooth(v: View, command: State, pressed: bool, counter: UInt16) {
    v.state in {Idle, Init, Run, Error, Reset}
    && (v.state == Run ==>
          && DebounceStep(v.debounce, pressed) <= ESTOP_DEBOUNCE_LIMIT
          && WatchdogStep(v.errors, counter == v.previous) < MASTER_WATCHDOG_LIMIT
          && command in {Run, Reset, Idle, Error})
  }

  lemma PlainTick(b: Board, v: View, command: State, pressed: bool, counter: UInt16, current: int := 0,
                  interrupted: bool := false)
    requires Looks(b, v) && Smooth(v, command, pressed, counter)
    ensures var t := Step(b, Plain(command, pressed, counter, current, interrupted));
            && Looks(t, Next(v, command, pressed, counter)) && t.kind == b.kind
            && t.armed == (t.state == Run && (b.armed || v.state == Init) && !interrupted)
            && t.applied == if v.state == Run && t.state == Run && !b.kind.Boom? then Drive(current) else Nothing
  {
    hide EncoderChange, DebounceStep, WatchdogStep, InHalt;
  }

  // ---------------------------------------------------------------------------------------------
  // From run to reset in one tick

  const ASK: Input := Plain(Reset, false, 0)

  /** Error ticks with the master asking for a reset, up to the dwell limit. */
  lemma {:induction false} Dwells(b: Board, v: View, n: nat)
    requires Looks(b, v) && v.state == Error && v.debounce == 0 && v.timeout + n <= ESTOP_TIMEOUT_LENGTH
    ensures v.timeout + n < 0x1_0000 && Looks(After(Step, b, Repeat(ASK, n)), v.(timeout := v.timeout + n))
    decreases n
  {
    hide Step;
    if n == 0 {
      AfterRepeat(Step, b, ASK, 0);
    } else {
      AfterRepeat(Step, b, ASK, n - 1);
      PlainTick(b, v, Reset, false, 0);
      Dwells(Step(b, ASK), Next(v, Reset, false, 0), n - 1);
    }
  }

  /** Run ticks with a counter that stands still, short of the watchdog's limit. */
  lemma {:induction false} Stalls(b: Board, v: View, n: nat)
    requires Looks(b, v) && v.state == Run && v.debounce == 0 && v.previous == 0
    requires v.errors + n < MASTER_WATCHDOG_LIMIT
    ensures var t := After(Step, b, Repeat(ASK, n));
            Looks(t, v.(errors := v.errors + n)) && t.armed == b.armed
    decreases n
  {
    hide Step;
    if n == 0 {
      AfterRepeat(Step, b, ASK, 0);
    } else {
      AfterRepeat(Step, b, ASK, n - 1);
      PlainTick(b, v, Reset, false, 0);
      WatchdogCounts(v.errors, true);
      Stalls(Step(b, ASK), Next(v, Reset, false, 0), n - 1);
    }
  }

  /** The way into error, and back from the end of the dwell time to run. */
  lemma IntoError(b: Board)
    requires Looks(b, View(Idle, 0, 0, 0, 0))
    ensures Looks(After(Step, b, [Plain(Run, false, 0), Plain(Run, false, 0), Plain(Error, false, 0)]),
                  View(Error, 0, 1, 0, 1))
  {
    hide Step;
    var i, e := Plain(Run, false, 0), Plain(Error, false, 0);
    var b1 := Step(b, i);
    var b2 := Step(b1, i);
    PlainTick(b, View(Idle, 0, 0, 0, 0), Run, false, 0);
    PlainTick(b1, View(Init, 0, 0, 0, 0), Run, false, 0);
    PlainTick(b2, View(Run, 0, 0, 0, 0), Error, false, 0);
    AfterOne(Step, b2, e);
    assert [i, i, e][1..] == [i, e] && [i, e][1..] == [e];
    assert After(Step, b1, [i, e]) == After(Step, b2, [e]);
  }

  lemma BackToRun(b: Board)
    requires Looks(b, View(Error, 0, 1, 0, 1000))
    ensures var t := After(Step, b, [ASK, ASK, Plain(Run, false, 0), Plain(Run, false, 0)]);
            Looks(t, View(Run, 0, 0, 0, 1001)) && t.armed
  {
    hide Step;
    var i := Plain(Run, false, 0);
    var b1 := Step(b, ASK);
    var b2 := Step(b1, ASK);
    var b3 := Step(b2, i);
    PlainTick(b, View(Error, 0, 1, 0, 1000), Reset, false, 0);
    PlainTick(b1, View(Reset, 0, 1, 0, 1001), Reset, false, 0);
    PlainTick(b2, View(Idle, 0, 0, 0, 1001), Run, false, 0);
    PlainTick(b3, View(Init, 0, 0, 0, 1001), Run, false, 0);
    AfterOne(Step, b3, i);
    assert [ASK, ASK, i, i][1..] == [ASK, i, i] && [ASK, i, i][1..] == [i, i] && [i, i][1..] == [i];
    assert After(Step, b1, [ASK, i, i]) == After(Step, b2, [i, i]) == After(Step, b3, [i]);
  }

  /** A board that recovers from one error keeps its dwell counter; if its master then stalls while asking for
      a reset, the tenth tick takes it from run to reset, without a tick that ends in error. */
  lemma RunToResetHappens(kind: Kind) returns (bs: seq<Board>, inputs: seq<Input>)
    requires !kind.Imu?
    ensures IsRun(bs, inputs) && bs[0] == Start(kind, 0) && |inputs| > 0
    ensures bs[|inputs| - 1].state == Run && bs[|inputs| - 1].armed && bs[|inputs|].state == Reset
  {
    hide Step, Looks;
    var b := Start(kind, 0);
    var w1 := [Plain(Run, false, 0), Plain(Run, false, 0), Plain(Error, false, 0)];
    var w2 := Repeat(ASK, 999);
    var w3 := [ASK, ASK, Plain(Run, false, 0), Plain(Run, false, 0)];
    var w4 := Repeat(ASK, 9);
    var w := w1 + w2 + w3 + w4;
    AfterConcat(Step, b, w1 + w2 + w3, w4);
    AfterConcat(Step, b, w1 + w2, w3);
    AfterConcat(Step, b, w1, w2);
    StartLooks(kind);
    IntoError(b);
    Dwells(After(Step, b, w1), View(Error, 0, 1, 0, 1), 999);
    BackToRun(After(Step, b, w1 + w2));
    Stalls(After(Step, b, w1 + w2 + w3), View(Run, 0, 0, 0, 1001), 9);
    inputs := w + [ASK];
    bs := Trace(Step, b, inputs);
    TraceIsRun(kind, inputs);
    TraceAt(Step, b, inputs, |w|);
    assert inputs[..|w|] == w;
    AlwaysSound(bs, inputs, |w|);
    assert Ticks(bs, inputs, |w|);
    Fires(bs[|w|]);
  }

  lemma StartLooks(kind: Kind)
    requires !kind.Imu?
    ensures Looks(Start(kind, 0), View(Idle, 0, 0, 0, 0))
  {
  }

  lemma Fires(b: Board)
    requires Looks(b, View(Run, 0, 9, 0, 1001)) && Sound(b)
    ensures b.state == Run && Step(b, ASK).state == Reset
  {
    hide Step;
    RunToResetExact(b, ASK);
  }

  lemma TraceIsRun(kind: Kind, inputs: seq<Input>)
    ensures IsRun(Trace(Step, Start(kind, 0), inputs), inputs)
  {
    hide Step;
    TraceSteps(Step, Start(kind, 0), inputs);
  }

  // ---------------------------------------------------------------------------------------------
  // Running with the e-stop pressed

  const HELD: Input := Plain(Idle, true, 0)

  /** Idle ticks with the e-stop held, short of the overflow. */
  lemma {:induction false} Holds(b: Board, v: View, n: nat)
    requires Looks(b, v) && v.state == Idle && 0 <= v.debounce && v.debounce + n <= INT_MAX
    ensures Looks(After(Step, b, Repeat(HELD, n)), v.(debounce := v.debounce + n))
    decreases n
  {
    hide Step;
    if n == 0 {
      AfterRepeat(Step, b, HELD, 0);
    } else {
      AfterRepeat(Step, b, HELD, n - 1);
      PlainTick(b, v, Idle, true, 0);
      Holds(Step(b, HELD), Next(v, Idle, true, 0), n - 1);
    }
  }

  /** One more sample overflows; then the button is let go and the master starts the board. */
  lemma Overflows(b: Board)
    requires Looks(b, View(Idle, INT_MAX, 0, 0, 0))
    ensures var t := After(Step, b, [HELD, Plain(Run, false, 0), Plain(Run, false, 0)]);
            Looks(t, View(Run, -INT_MAX - 1, 0, 0, 0)) && t.armed
  {
    hide Step;
    var i := Plain(Run, false, 0);
    var b1 := Step(b, HELD);
    var b2 := Step(b1, i);
    PlainTick(b, View(Idle, INT_MAX, 0, 0, 0), Idle, true, 0);
    PlainTick(b1, View(Idle, -INT_MAX - 1, 0, 0, 0), Run, false, 0);
    PlainTick(b2, View(Init, -INT_MAX - 1, 0, 0, 0), Run, false, 0);
    AfterOne(Step, b2, i);
    assert [HELD, i, i][1..] == [i, i] && [i, i][1..] == [i];
    assert After(Step, b1, [i, i]) == After(Step, b2, [i]);
  }

  /** Ticks with a live master and the e-stop pressed, some of them followed by an interrupt. */
  function Beats(interrupts: seq<bool>, counter: UInt16): (w: seq<Input>)
    requires counter <= 1
    ensures |w| == |interrupts|
    ensures forall k :: 0 <= k < |w| ==> w[k] == Beat(k, counter, interrupts[k])
  {
    seq(|interrupts|, k requires 0 <= k < |interrupts| => Beat(k, counter, interrupts[k]))
  }

  /** The master's counter alternates. */
  function Beat(k: nat, counter: UInt16, interrupted: bool): Input
    requires counter <= 1
  {
    Plain(Run, true, if k % 2 == 0 then counter else 1 - counter, 0, interrupted)
  }

  lemma BeatsCons(interrupts: seq<bool>, counter: UInt16)
    requires counter <= 1 && interrupts != []
    ensures Beats(interrupts, counter)
         == [Plain(Run, true, counter, 0, interrupts[0])] + Beats(interrupts[1..], 1 - counter)
  {
  }

  lemma BeatTicks(b: Board, d: int, previous: UInt16, counter: UInt16, interrupted: bool)
    requires Looks(b, View(Run, d, 0, previous, 0)) && previous != counter && d < ESTOP_DEBOUNCE_LIMIT
    ensures var t := Step(b, Plain(Run, true, counter, 0, interrupted));
            Looks(t, View(Run, d + 1, 0, counter, 0)) && t.armed == (b.armed && !interrupted)
  {
    hide Step;
    PlainTick(b, View(Run, d, 0, previous, 0), Run, true, counter, 0, interrupted);
  }

  /** A board runs on through pressed samples until its count is over the limit, and is armed until an interrupt. */
  lemma {:induction false} RunsOn(b: Board, d: int, previous: UInt16, interrupts: seq<bool>, counter: UInt16)
    requires Looks(b, View(Run, d, 0, previous, 0)) && previous != counter && previous <= 1 && counter <= 1
    requires d + |interrupts| <= ESTOP_DEBOUNCE_LIMIT
    ensures var t := After(Step, b, Beats(interrupts, counter));
            t.state == Run && t.armed == (b.armed && true !in interrupts)
    decreases |interrupts|
  {
    hide Step, Beats, Plain;
    if interrupts != [] {
      hide Looks;
      var i, rest := Plain(Run, true, counter, 0, interrupts[0]), interrupts[1..];
      BeatTicks(b, d, previous, counter, interrupts[0]);
      BeatsCons(interrupts, counter);
      AfterCons(Step, b, i, Beats(rest, 1 - counter));
      RunsOn(Step(b, i), d + 1, counter, rest, 1 - counter);
      assert interrupts == [interrupts[0]] + rest;
    }
  }

  /** The board is in run, and armed exactly if there has been no interrupt. */
  predicate RunsAfter(b: Board, interrupts: seq<bool>) {
    b.state == Run && (b.armed <==> true !in interrupts)
  }

  /** An e-stop held for 32768 idle ticks and let go for the start: from then on the board stays in run through as
      many as 32773 pressed samples in a row. Only an interrupt of the e-stop line disarms it, and it is armed
      exactly until the first that comes. */
  lemma HeldEstopIsIgnored(kind: Kind, interrupts: seq<bool>) returns (bs: seq<Board>, inputs: seq<Input>, m: nat)
    requires !kind.Imu? && |interrupts| <= 0x8000 + ESTOP_DEBOUNCE_LIMIT
    ensures IsRun(bs, inputs) && bs[0] == Start(kind, 0) && |inputs| == m + |interrupts|
    ensures forall k :: 0 <= k < |interrupts| ==> inputs[m + k].pressed && inputs[m + k].interrupted == interrupts[k]
    ensures forall k :: 0 <= k <= |interrupts| ==> RunsAfter(bs[m + k], interrupts[..k])
  {
    hide Step, Looks;
    var b := Start(kind, 0);
    var w1, w2 := Repeat(HELD, INT_MAX), [HELD, Plain(Run, false, 0), Plain(Run, false, 0)];
    var w := w1 + w2;
    AfterConcat(Step, b, w1, w2);
    StartLooks(kind);
    Holds(b, View(Idle, 0, 0, 0, 0), INT_MAX);
    Overflows(After(Step, b, w1));
    var beats := Beats(interrupts, 1);
    inputs, m := w + beats, |w|;
    assert forall k :: 0 <= k < |interrupts| ==> inputs[m + k] == beats[k];
    bs := Trace(Step, b, inputs);
    TraceIsRun(kind, inputs);
    forall k | 0 <= k <= |interrupts|
      ensures RunsAfter(bs[m + k], interrupts[..k])
    {
      BeatsOn(b, w, interrupts, k);
    }
  }

  /** After w the board runs on through any number of the beats. */
  lemma BeatsOn(b: Board, w: seq<Input>, interrupts: seq<bool>, k: nat)
    requires k <= |interrupts| <= 0x8000 + ESTOP_DEBOUNCE_LIMIT
    requires Looks(After(Step, b, w), View(Run, -INT_MAX - 1, 0, 0, 0)) && After(Step, b, w).armed
    ensures RunsAfter(Trace(Step, b, w + Beats(interrupts, 1))[|w| + k], interrupts[..k])
  {
    hide Step, Looks, After, Trace, Beats;
    var inputs := w + Beats(interrupts, 1);
    TraceAt(Step, b, inputs, |w| + k);
    ConcatPrefix(w, Beats(interrupts, 1), k);
    assert Beats(interrupts, 1)[..k] == Beats(interrupts[..k], 1);
    AfterConcat(Step, b, w, Beats(interrupts[..k], 1));
    RunsOn(After(Step, b, w), -INT_MAX - 1, 0, interrupts[..k], 1);
  }
}
