/**
  A run of the whole system in which arming drives a motor that nobody asks to drive: the output of the run
  before last comes back while the master's message says zero.
 */
module DriveHazards {
  import opened Bits
  import opened RtOps
  import opened DriveSafety
  import opened Traces
  import M = Medulla
  import Boards = MedullaRuns
  import Hazards = MedullaHazards
  import Acks = RtOpsAcks
  import Runs = RtOpsRuns

  /** One step of the system, for a given motor. */
  function Stepper(m: Motor): (Sys, SysAction) -> Sys {
    (s: Sys, a: SysAction) => SysStep(m, s, a)
  }

  // ---------------------------------------------------------------------------------------------
  // What the master does

  function Masters(w: seq<Action>): (a: seq<SysAction>)
    ensures |a| == |w| && forall k :: 0 <= k < |w| ==> a[k] == Master(w[k])
  {
    seq(|w|, k requires 0 <= k < |w| => Master(w[k]))
  }

  /** A command of the Controller Manager, carried out without interruption. */
  function CarryOut(state: RtState): seq<Action> {
    [Command(state, false)] + Repeat(CmStep, |Commanded(state, false)|)
  }

  /** The command thread sends no messages. */
  lemma {:induction false} MastersAlone(m: Motor, s: Sys, w: seq<Action>)
    requires forall k :: 0 <= k < |w| ==> w[k].Command? || w[k].CmStep?
    ensures After(Stepper(m), s, Masters(w)) == s.(ops := After(Step, s.ops, w))
    decreases |w|
  {
    hide Commanded, M.Step, LoopStep, MotorCurrent;
    if w != [] {
      assert Masters(w)[1..] == Masters(w[1..]);
      MastersAlone(m, SysStep(m, s, Master(w[0])), w[1..]);
    }
  }

  /** RT Ops waits for a cycle, with a controller loaded. */
  predicate Ready(o: Ops, state: RtState) {
    o == o.(shared := o.shared.(current := state, loaded := true), call := Waiting, callOps := [], cmOps := [])
  }

  lemma CarriesOut(m: Motor, s: Sys, state: RtState)
    requires s.ops.cmOps == [] && s.ops.call.Waiting? && s.ops.callOps == [] && s.ops.shared.current != EStop
    requires state == Disabled || (state == Enabled && s.ops.shared.loaded)
    ensures var t := After(Stepper(m), s, Masters(CarryOut(state)));
            t == s.(ops := t.ops) && Ready(t.ops, state)
  {
    hide Commanded, Step, DoAll;
    MastersAlone(m, s, CarryOut(state));
    Acks.CommandAlone(s.ops, state);
    Acks.DoneAlone(s.ops.shared, state);
  }

  /** A cycle of the controller loop in the given state, with a controller that asks for run. */
  function Cycle(out: Output, state: RtState): seq<SysAction> {
    [Master(Control(out)), Master(CallStep(false)), Master(CallStep(false))]
    + if state == Enabled then [Master(CallStep(false))] else []
  }

  lemma CycleSends(m: Motor, s: Sys, out: Output, state: RtState)
    requires Ready(s.ops, state) && (state == Disabled || state == Enabled)
    requires out.command == M.Run && Finite(out.currents)
    ensures var t := After(Stepper(m), s, Cycle(out, state));
            && t == s.(ops := t.ops, image := t.image) && Ready(t.ops, state)
            && t.image == Transmit(m, s.image, if state == Enabled then Message(out, M.Run) else Output(M.Idle, ZERO))
  {
    hide M.Step, MotorCurrent, Message, Commanded;
    var a, c := Master(Control(out)), Master(CallStep(false));
    var f := Stepper(m);
    var s1 := SysStep(m, s, a);
    var s2 := SysStep(m, s1, c);
    var s3 := SysStep(m, s2, c);
    AfterCons(f, s, a, [c, c] + if state == Enabled then [c] else []);
    AfterCons(f, s1, c, [c] + if state == Enabled then [c] else []);
    AfterCons(f, s2, c, if state == Enabled then [c] else []);
    assert Cycle(out, state) == [a] + ([c, c] + if state == Enabled then [c] else []);
    assert [c, c] + (if state == Enabled then [c] else []) == [c] + ([c] + if state == Enabled then [c] else []);
    if state == Enabled {
      AfterOne(f, s3, c);
    }
    MessageIdle(out);
  }

  lemma MessageIdle(out: Output)
    ensures Message(out, M.Idle) == Output(M.Idle, ZERO)
  {
  }

  /** A command, a message and its delivery. */
  function Round(out: Output, state: RtState): seq<SysAction> {
    Masters(CarryOut(state)) + Cycle(out, state) + [Deliver]
  }

  lemma RoundDelivers(m: Motor, s: Sys, out: Output, state: RtState)
    requires s.ops.cmOps == [] && s.ops.call.Waiting? && s.ops.callOps == [] && s.ops.shared.current != EStop
    requires state == Disabled || (state == Enabled && s.ops.shared.loaded)
    requires out.command == M.Run && Finite(out.currents)
    ensures var t := After(Stepper(m), s, Round(out, state));
            && t == s.(ops := t.ops, image := t.image, received := t.image) && Ready(t.ops, state)
            && t.image == Transmit(m, s.image, if state == Enabled then Message(out, M.Run) else Output(M.Idle, ZERO))
  {
    hide M.Step, MotorCurrent, Message, Step, CarryOut, Cycle;
    var f := Stepper(m);
    AfterConcat(f, s, Masters(CarryOut(state)) + Cycle(out, state), [Deliver]);
    AfterConcat(f, s, Masters(CarryOut(state)), Cycle(out, state));
    CarriesOut(m, s, state);
    var s1 := After(f, s, Masters(CarryOut(state)));
    CycleSends(m, s1, out, state);
    AfterOne(f, After(f, s1, Cycle(out, state)), Deliver);
  }

  // ---------------------------------------------------------------------------------------------
  // What the Medulla does

  const EDGE: SysAction := Edge(Hazards.Plain(M.Idle, false, 0))

  /** The board looks like v and its amplifier was given `output` last. */
  predicate SysLooks(m: Motor, s: Sys, v: Hazards.View, output: int) {
    Hazards.Looks(s.board, v) && s.board.kind == KindOf(m.role) && s.output == output
  }

  lemma EdgeTicks(m: Motor, s: Sys, v: Hazards.View, output: int)
    requires SysLooks(m, s, v, output) && !m.role.NoMotor?
    requires Hazards.Smooth(v, s.received.command, false, s.received.counter)
    ensures var t := SysStep(m, s, EDGE);
            var w := Hazards.Next(v, s.received.command, false, s.received.counter);
            && t == s.(board := t.board, output := t.output)
            && SysLooks(m, t, w, if v.state == M.Run && w.state == M.Run then s.received.current else output)
            && t.board.armed == (w.state == M.Run && (s.board.armed || v.state == M.Init))
  {
    hide M.Step, Hazards.Next, Hazards.Smooth;
    Hazards.PlainTick(s.board, v, s.received.command, false, s.received.counter, s.received.current);
  }

  const FULL: Output := Output(M.Run, Currents(Fin(60.0), Fin(60.0), Fin(60.0), Fin(60.0), Fin(60.0), Fin(60.0)))
  const NONE: Output := Output(M.Run, ZERO)

  /** The counts of a full current, which the clamp lets through. */
  function FullScale(m: Motor): int {
    if m.forward then 19900 else -19900
  }

  /** What the three messages of the run make of the image. */
  lemma Transmits(m: Motor, image: Image)
    requires !m.role.NoMotor? && image.counter < 0xffff
    ensures var n: int := image.counter + 1;
            && Transmit(m, image, Message(FULL, M.Run)) == Image(n, M.Run, FullScale(m))
            && Transmit(m, image, Message(NONE, M.Run)) == Image(n, M.Run, 0)
            && Transmit(m, image, Output(M.Idle, ZERO)) == Image(n, M.Idle, 0)
  {
    hide Counts, Clamp;
    CountsOfFull(m.forward);
  }

  lemma CountsOfFull(forward: bool)
    ensures Counts(Clamp(Fin(60.0)), forward) == if forward then 19900 else -19900
    ensures Counts(Clamp(Fin(0.0)), forward) == Counts(Fin(0.0), forward) == 0
  {
    assert 60.0 * (MTR_MAX_COUNT / MTR_MAX_CURRENT) == 19900.0;
    assert -60.0 * (MTR_MAX_COUNT / MTR_MAX_CURRENT) == -19900.0;
  }

  // ---------------------------------------------------------------------------------------------
  // The run

  /** The board is started and driven. */
  lemma DrivesFull(m: Motor, s: Sys)
    requires !m.role.NoMotor? && SysLooks(m, s, Hazards.View(M.Idle, 0, 0, 0, 0), 0)
    requires s.received == Image(1, M.Run, FullScale(m))
    ensures var t := After(Stepper(m), s, [EDGE, EDGE, EDGE]);
            && t == s.(board := t.board, output := t.output)
            && SysLooks(m, t, Hazards.View(M.Run, 0, 0, 1, 0), FullScale(m))
  {
    hide SysStep, SysLooks;
    var f := Stepper(m);
    var s1 := SysStep(m, s, EDGE);
    var s2 := SysStep(m, s1, EDGE);
    AfterCons(f, s, EDGE, [EDGE, EDGE]);
    AfterCons(f, s1, EDGE, [EDGE]);
    AfterOne(f, s2, EDGE);
    assert [EDGE, EDGE, EDGE] == [EDGE] + [EDGE, EDGE] && [EDGE, EDGE] == [EDGE] + [EDGE];
    EdgeTicks(m, s, Hazards.View(M.Idle, 0, 0, 0, 0), 0);
    EdgeTicks(m, s1, Hazards.View(M.Init, 0, 0, 0, 0), 0);
    EdgeTicks(m, s2, Hazards.View(M.Run, 0, 0, 0, 0), 0);
  }

  /** The board is stopped, and keeps what its amplifier was given. */
  lemma Stops(m: Motor, s: Sys)
    requires !m.role.NoMotor? && SysLooks(m, s, Hazards.View(M.Run, 0, 0, 1, 0), FullScale(m))
    requires s.received == Image(2, M.Idle, 0)
    ensures var t := After(Stepper(m), s, [EDGE]);
            && t == s.(board := t.board, output := t.output)
            && SysLooks(m, t, Hazards.View(M.Idle, 0, 0, 2, 0), FullScale(m))
  {
    hide SysStep, SysLooks;
    AfterOne(Stepper(m), s, EDGE);
    EdgeTicks(m, s, Hazards.View(M.Run, 0, 0, 1, 0), FullScale(m));
  }

  /** The first tick of a new start. */
  lemma StartsAgain(m: Motor, s: Sys)
    requires !m.role.NoMotor? && SysLooks(m, s, Hazards.View(M.Idle, 0, 0, 2, 0), FullScale(m))
    requires s.received == Image(3, M.Run, 0)
    ensures var t := After(Stepper(m), s, [EDGE]);
            && t == s.(board := t.board, output := t.output)
            && SysLooks(m, t, Hazards.View(M.Init, 0, 0, 2, 0), FullScale(m))
  {
    hide SysStep, SysLooks;
    AfterOne(Stepper(m), s, EDGE);
    EdgeTicks(m, s, Hazards.View(M.Idle, 0, 0, 2, 0), FullScale(m));
  }

  /** The second arms, whatever has been received: init does not look at it. */
  lemma ArmsAgain(m: Motor, s: Sys)
    requires !m.role.NoMotor? && SysLooks(m, s, Hazards.View(M.Init, 0, 0, 2, 0), FullScale(m))
    ensures s.board.state == M.Init
    ensures var t := SysStep(m, s, EDGE);
            t.board.state == M.Run && Driven(t) == FullScale(m) && t.received == s.received
  {
    hide SysStep;
    EdgeTicks(m, s, Hazards.View(M.Init, 0, 0, 2, 0), FullScale(m));
  }

  /** The state after a first run, a stop and a new start with a message that says zero. */
  lemma Prepared(m: Motor) returns (s: Sys, actions: seq<SysAction>)
    requires !m.role.NoMotor?
    ensures s.board == Boards.Start(KindOf(m.role), 0)
    ensures s == Sys(Acks.Boot(), Image(0, M.Idle, 0), Image(0, M.Idle, 0), s.board, 0)
    ensures var t := After(Stepper(m), s, actions);
            && SysLooks(m, t, Hazards.View(M.Init, 0, 0, 2, 0), FullScale(m)) && t.received == Image(3, M.Run, 0)
            && Ready(t.ops, Enabled)
  {
    hide SysStep, MotorCurrent, Message, FullScale, Transmit, Hazards.Looks;
    var f := Stepper(m);
    s := Sys(Acks.Boot(), Image(0, M.Idle, 0), Image(0, M.Idle, 0), Boards.Start(KindOf(m.role), 0), 0);
    Hazards.StartLooks(KindOf(m.role));
    var a1, a2, a3, a4 := Masters(CarryOut(Disabled)), Round(FULL, Enabled), Round(FULL, Disabled), Round(NONE, Enabled);
    CarriesOut(m, s, Disabled);
    var s1 := After(f, s, a1);
    RoundDelivers(m, s1, FULL, Enabled);
    Transmits(m, s1.image);
    var s2 := After(f, s1, a2);
    DrivesFull(m, s2);
    var s3 := After(f, s2, [EDGE, EDGE, EDGE]);
    RoundDelivers(m, s3, FULL, Disabled);
    Transmits(m, s3.image);
    var s4 := After(f, s3, a3);
    Stops(m, s4);
    var s5 := After(f, s4, [EDGE]);
    RoundDelivers(m, s5, NONE, Enabled);
    Transmits(m, s5.image);
    var s6 := After(f, s5, a4);
    StartsAgain(m, s6);
    actions := a1 + (a2 + ([EDGE, EDGE, EDGE] + (a3 + ([EDGE] + (a4 + [EDGE])))));
    AfterConcat(f, s, a1, a2 + ([EDGE, EDGE, EDGE] + (a3 + ([EDGE] + (a4 + [EDGE])))));
    AfterConcat(f, s1, a2, [EDGE, EDGE, EDGE] + (a3 + ([EDGE] + (a4 + [EDGE]))));
    AfterConcat(f, s2, [EDGE, EDGE, EDGE], a3 + ([EDGE] + (a4 + [EDGE])));
    AfterConcat(f, s3, a3, [EDGE] + (a4 + [EDGE]));
    AfterConcat(f, s4, [EDGE], a4 + [EDGE]);
    AfterConcat(f, s5, a4, [EDGE]);
  }

  lemma TraceIsSysRun(m: Motor, s: Sys, actions: seq<SysAction>)
    requires s == Sys(Acks.Boot(), Image(0, M.Idle, 0), Image(0, M.Idle, 0), Boards.Start(KindOf(m.role), 0), 0)
    ensures IsSysRun(m, Trace(Stepper(m), s, actions), actions)
  {
    hide SysStep;
    var ss := Trace(Stepper(m), s, actions);
    TraceSteps(Stepper(m), s, actions);
    forall k | 0 <= k < |actions|
      ensures SysSteps(m, ss, actions, k)
    {
    }
  }

  /** From power-up: the tick from init to run drives the motor at full scale, though the last message the board
      has received asks for no current. */
  lemma ArmingDrives(m: Motor) returns (ss: seq<Sys>, actions: seq<SysAction>)
    requires !m.role.NoMotor?
    ensures IsSysRun(m, ss, actions) && |actions| > 0 && actions[|actions| - 1].Edge?
    ensures ss[|actions| - 1].board.state == M.Init && ss[|actions|].board.state == M.Run
    ensures ss[|actions|].received.current == 0 && Driven(ss[|actions|]) == FullScale(m)
  {
    hide SysStep, FullScale, SysLooks;
    var f := Stepper(m);
    var s, w := Prepared(m);
    ArmsAgain(m, After(f, s, w));
    actions := w + [EDGE];
    ss := Trace(f, s, actions);
    TraceIsSysRun(m, s, actions);
    TraceAt(f, s, actions, |w|);
    assert actions[..|w|] == w;
    TraceSteps(f, s, actions);
    AfterConcat(f, s, w, [EDGE]);
    AfterOne(f, After(f, s, w), EDGE);
  }

  // ---------------------------------------------------------------------------------------------
  // The same with e-stop set

  lemma CarriesOutStop(m: Motor, s: Sys)
    requires Ready(s.ops, Enabled)
    ensures var t := After(Stepper(m), s, Masters(CarryOut(EStop)));
            t == s.(ops := t.ops) && Ready(t.ops, EStop)
  {
    hide Commanded, Step, DoAll;
    MastersAlone(m, s, CarryOut(EStop));
    Acks.CommandAlone(s.ops, EStop);
    Acks.CommandedEStop(s.ops.shared);
  }

  /** Two cycles of the loop, the delivery of the second message, and a tick. */
  const TAIL: seq<SysAction> :=
    [Master(Control(FULL)), Master(CallStep(false)), Master(CallStep(false)),
     Master(Control(FULL)), Master(CallStep(false)), Master(CallStep(false)), Deliver, EDGE]

  /** One of the cycles, step by step. */
  lemma StoppedCycle(m: Motor, s: Sys)
    requires Ready(s.ops, EStop)
    ensures var a := SysStep(m, s, Master(Control(FULL)));
            var b := SysStep(m, a, Master(CallStep(false)));
            var c := SysStep(m, b, Master(CallStep(false)));
            && Ready(c.ops, EStop) && c == s.(ops := c.ops, image := c.image) && Silenced(c.image)
            && a.ops.shared == b.ops.shared == s.ops.shared && a.ops.messages == b.ops.messages == s.ops.messages
            && |c.ops.messages| == |s.ops.messages| + 1
  {
    hide M.Step, MotorCurrent, Commanded, Message;
    MotorCurrentIsBounded(m, FULL, M.Error);
    MessageError(FULL);
  }

  lemma MessageError(out: Output)
    ensures Message(out, M.Error) == Output(M.Error, ZERO)
  {
  }

  lemma StoppedTail(m: Motor, s: Sys)
    requires !m.role.NoMotor? && SysLooks(m, s, Hazards.View(M.Init, 0, 0, 2, 0), FullScale(m)) && Ready(s.ops, EStop)
    ensures var t := Trace(Stepper(m), s, TAIL);
            && (forall k :: 0 <= k < 8 ==> t[k].ops.shared.current == EStop)
            && |t[3].ops.messages| == |t[2].ops.messages| + 1 && |t[6].ops.messages| == |t[5].ops.messages| + 1
            && Silenced(t[7].received) && t[7].board.state == M.Init
            && t[8].board.state == M.Run && Driven(t[8]) == FullScale(m)
  {
    hide SysStep, SysLooks, FullScale;
    var t := Trace(Stepper(m), s, TAIL);
    TraceSteps(Stepper(m), s, TAIL);
    assert t[1] == SysStep(m, t[0], TAIL[0]) && t[2] == SysStep(m, t[1], TAIL[1]) && t[3] == SysStep(m, t[2], TAIL[2]);
    StoppedCycle(m, t[0]);
    assert t[4] == SysStep(m, t[3], TAIL[3]) && t[5] == SysStep(m, t[4], TAIL[4]) && t[6] == SysStep(m, t[5], TAIL[5]);
    StoppedCycle(m, t[3]);
    assert t[7] == SysStep(m, t[6], Deliver) && t[8] == SysStep(m, t[7], EDGE);
    Delivers(m, t[6]);
    SameLooks(m, s, t[7]);
    ArmsAgain(m, t[7]);
  }

  lemma Delivers(m: Motor, s: Sys)
    ensures SysStep(m, s, Deliver) == s.(received := s.image)
  {
  }

  lemma SameLooks(m: Motor, s: Sys, t: Sys)
    requires SysLooks(m, s, Hazards.View(M.Init, 0, 0, 2, 0), FullScale(m)) && t.board == s.board && t.output == s.output
    ensures SysLooks(m, t, Hazards.View(M.Init, 0, 0, 2, 0), FullScale(m))
  {
  }

  /** From power-up: e-stop is commanded and carried out, two messages say error and zero, the second is delivered,
      and still the next tick arms the board and drives its motor at full scale. */
  lemma ArmingDrivesThroughStop(m: Motor)
    returns (ss: seq<Sys>, actions: seq<SysAction>, i: nat, s1: nat, s2: nat, d: nat, n: nat)
    requires !m.role.NoMotor?
    ensures IsSysRun(m, ss, actions) && n + 1 == |actions| && actions[n].Edge?
    ensures StopDelivered(ss, actions, i, s1, s2, d, n) && Silenced(ss[n].received)
    ensures ss[n + 1].board.state == M.Run && Driven(ss[n + 1]) == FullScale(m)
  {
    hide SysStep, FullScale, SysLooks, IsSysRun, Trace, After, Silenced, Driven;
    var f := Stepper(m);
    var s, w := Prepared(m);
    var stop := Masters(CarryOut(EStop));
    var p := After(f, s, w);
    CarriesOutStop(m, p);
    SameLooks(m, p, After(f, p, stop));
    AfterConcat(f, s, w, stop);
    var v := w + stop;
    var q := After(f, s, v);
    StoppedTail(m, q);
    actions := v + TAIL;
    ss := Trace(f, s, actions);
    TraceIsSysRun(m, s, actions);
    i, s1, s2, d, n := |v|, |v| + 2, |v| + 5, |v| + 6, |v| + 7;
    var t := Trace(f, q, TAIL);
    forall j | 0 <= j <= 8
      ensures ss[|v| + j] == t[j]
    {
      TraceGoesOn(f, s, v, TAIL, j);
    }
    assert ss[i] == t[0] && ss[i + 2] == t[2] && ss[i + 3] == t[3] && ss[i + 5] == t[5] && ss[i + 6] == t[6];
    forall k | i <= k < n
      ensures ss[k].ops.shared.current == EStop
    {
      assert ss[|v| + (k - |v|)] == t[k - |v|];
    }
    assert actions[d] == TAIL[6] && actions[n] == TAIL[7];
  }
}
