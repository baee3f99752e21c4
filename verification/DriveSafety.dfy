/**
  From the controller's output to the motor: RT Ops, the message that the EtherCAT master puts into the
  image of one Medulla, the delivery of that image, and the Medulla's ticks, all interleaved.
 */
module DriveSafety {
  import opened Bits
  import opened CArith
  import opened RtOps
  import opened Traces
  import Runs = RtOpsRuns
  import M = Medulla
  import Boards = MedullaRuns

  /** Which motor a Medulla drives. */
  datatype Role = LeftA | LeftB | LeftHip | RightA | RightB | RightHip | NoMotor(kind: M.Kind)

  /** `forward` says that the motor's direction constant is 1, and not -1. */
  datatype Motor = Motor(role: Role, forward: bool)

  function KindOf(r: Role): M.Kind {
    match r
    case LeftHip => M.Hip
    case RightHip => M.Hip
    case NoMotor(kind) => kind
    case _ => M.Leg
  }

  const MTR_MAX_COUNT: real := 19900.0
  const MTR_MAX_CURRENT: real := 60.0    // MTR_HIP_MAX_CURRENT is the same
  const INT32_MIN: int := -0x8000_0000

  /** The conversion of a double to an integer type truncates toward zero. */
  function Truncate(x: real): int {
    if x < 0.0 then -((-x).Floor) else x.Floor
  }

  /** The conversion of a double to int32_t. Outside its range C promises nothing; the value here is that
      of the x86 instruction. */
  function ToInt32(f: Float): int {
    match f
    case Fin(x) => if INT32_MIN <= Truncate(x) < -INT32_MIN then Truncate(x) else INT32_MIN
    case _ => INT32_MIN
  }

  function Scaled(f: Float, factor: real): Float {
    match f
    case Fin(x) => Fin(x * factor)
    case PosInf => if factor < 0.0 then NegInf else PosInf
    case NegInf => if factor < 0.0 then PosInf else NegInf
    case NaN => NaN
  }

  function Counts(f: Float, forward: bool): int {
    ToInt32(Scaled(Scaled(f, if forward then 1.0 else -1.0), MTR_MAX_COUNT / MTR_MAX_CURRENT))
  }

  /** calcMotorCurrentOut of the legs, which check the command, and of the hips, which do not. */
  function MotorCurrent(m: Motor, out: Output): int {
    match m.role
    case LeftA => if out.command != M.Run then 0 else Counts(out.currents.lA, m.forward)
    case LeftB => if out.command != M.Run then 0 else Counts(out.currents.lB, m.forward)
    case RightA => if out.command != M.Run then 0 else Counts(out.currents.rA, m.forward)
    case RightB => if out.command != M.Run then 0 else Counts(out.currents.rB, m.forward)
    case LeftHip => Counts(out.currents.lHip, m.forward)
    case RightHip => Counts(out.currents.rHip, m.forward)
    case NoMotor(_) => 0
  }

  /** A finite current, once clamped, is within the counts of the amplifier, whichever way the motor turns. */
  lemma CountsAreBounded(f: Float, forward: bool)
    requires f.Fin?
    ensures -19900 <= Counts(Clamp(f), forward) <= 19900
    ensures f.x == 0.0 ==> Counts(f, forward) == 0
  {
    var c := Clamp(f).x;
    var y := c * (if forward then 1.0 else -1.0);
    var z := y * (MTR_MAX_COUNT / MTR_MAX_CURRENT);
    assert -60.0 <= y <= 60.0;
    assert -19900.0 <= z <= 19900.0;
  }

  lemma MotorCurrentIsBounded(m: Motor, out: Output, command: M.State)
    requires command == M.Run ==> Finite(out.currents)
    ensures -19900 <= MotorCurrent(m, Message(out, command)) <= 19900
    ensures command != M.Run ==> MotorCurrent(m, Message(out, command)) == 0
  {
    hide Counts, Clamp;
    var c := out.currents;
    CountsAreBounded(Fin(0.0), m.forward);
    if command == M.Run {
      CountsAreBounded(c.lA, m.forward);
      CountsAreBounded(c.lB, m.forward);
      CountsAreBounded(c.lHip, m.forward);
      CountsAreBounded(c.rA, m.forward);
      CountsAreBounded(c.rB, m.forward);
      CountsAreBounded(c.rHip, m.forward);
    }
  }

  /** v counts say the current f in the motor's direction: 995 counts for three amperes, rounded toward zero, of
      what is left of f within 60 amperes. */
  predicate InCounts(v: int, f: Float, forward: bool) {
    && f.Fin?
    && var x := if f.x > 60.0 then 60.0 else if f.x < -60.0 then -60.0 else f.x;
       var size, counts := if x < 0.0 then -x else x, if v < 0 then -v else v;
       && 3.0 * counts as real <= 995.0 * size < 3.0 * (counts + 1) as real
       && (v != 0 ==> (v > 0 <==> forward == (x > 0.0)))
  }

  /** v is what the motor's own current asks for. */
  predicate Follows(m: Motor, v: int, c: Currents) {
    match m.role
    case LeftA => InCounts(v, c.lA, m.forward)
    case LeftB => InCounts(v, c.lB, m.forward)
    case LeftHip => InCounts(v, c.lHip, m.forward)
    case RightA => InCounts(v, c.rA, m.forward)
    case RightB => InCounts(v, c.rB, m.forward)
    case RightHip => InCounts(v, c.rHip, m.forward)
    case NoMotor(_) => v == 0
  }

  lemma CountsFollow(f: Float, forward: bool)
    requires f.Fin?
    ensures InCounts(Counts(Clamp(f), forward), f, forward)
  {
    var c := Clamp(f).x;
    var y := c * (if forward then 1.0 else -1.0);
    var z := y * (MTR_MAX_COUNT / MTR_MAX_CURRENT);
    assert z == y * 995.0 / 3.0;
    assert y == c || y == -c;
  }

  /** Each motor is given its own current of the message, with its own sign and size. */
  lemma MotorFollowsCurrent(m: Motor, out: Output)
    requires Finite(out.currents)
    ensures Follows(m, MotorCurrent(m, Message(out, M.Run)), out.currents)
  {
    hide Counts, Clamp, InCounts;
    var c := out.currents;
    CountsFollow(c.lA, m.forward);
    CountsFollow(c.lB, m.forward);
    CountsFollow(c.lHip, m.forward);
    CountsFollow(c.rA, m.forward);
    CountsFollow(c.rB, m.forward);
    CountsFollow(c.rHip, m.forward);
  }

  // ---------------------------------------------------------------------------------------------
  // The amplifier

  class Amplifier {
    var forward: bool     // the direction pin
    var duty: UInt16      // of the PWM, in ticks
    var enabled: bool

    /** What the motor gets. */
    function Output(): int
      reads this
    {
      var d: int := duty;
      if !enabled then 0 else if forward then d else -d
    }

    /** set_amp_output says exactly the value if its magnitude fits into 16 bits, enabled or not. */
    method SetAmpOutput(value: int)
      modifies this`forward, this`duty
      ensures -0x1_0000 < value < 0x1_0000 && enabled ==> Output() == value
      ensures -0x1_0000 < value < 0x1_0000 ==> duty == if value < 0 then -value else value
      ensures forward == (value >= 0)
    {
      if value < 0 {
        forward := false;
        duty := Mod(value * -1, 0x1_0000);
      } else {
        forward := true;
        duty := Mod(value, 0x1_0000);
      }
    }

    /** enable_amp leaves the direction and the duty as they were set last. */
    method EnableAmp()
      modifies this`enabled
      ensures enabled && Output() == var d: int := duty; if forward then d else -d
    {
      enabled := true;
    }

    /** disable_amp, and disable_pwm of the e-stop. */
    method DisablePwm()
      modifies this`enabled
      ensures !enabled && Output() == 0
    {
      enabled := false;
    }
  }

  // ---------------------------------------------------------------------------------------------
  // The system

  /** The part of a Medulla's image that the master writes. */
  datatype Image = Image(counter: UInt16, command: M.State, current: int)

  datatype Sys = Sys(
    ops: Ops,
    image: Image,         // in the master, with the local counter
    received: Image,      // in the Medulla
    board: M.Board,
    output: int)          // last given to set_amp_output

  datatype SysAction =
    | Master(a: Action)           // a step of RT Ops
    | Deliver                     // an EtherCAT cycle brings the image to the Medulla
    | Edge(i: M.Input)            // a tick of the Medulla; what the input says of the master is replaced

  /** processTransmitData */
  function Transmit(m: Motor, image: Image, out: Output): Image {
    var c: int := image.counter;
    Image((c + 1) % 0x1_0000, out.command, MotorCurrent(m, out))
  }

  function Seen(i: M.Input, received: Image): M.Input {
    i.(command := received.command, counter := received.counter, current := received.current)
  }

  function MasterStep(m: Motor, s: Sys, a: Action): Sys {
    var o := Step(s.ops, a);
    if |o.messages| > |s.ops.messages| then s.(ops := o, image := Transmit(m, s.image, o.messages[|s.ops.messages|]))
    else s.(ops := o)
  }

  function BoardTick(s: Sys, i: M.Input): Sys {
    var b := M.Step(s.board, Seen(i, s.received));
    s.(board := b, output := match b.applied
                             case Nothing => s.output
                             case Drive(v) => v
                             case Damp(v) => v)
  }

  function SysStep(m: Motor, s: Sys, a: SysAction): Sys {
    match a
    case Master(b) => MasterStep(m, s, b)
    case Deliver => s.(received := s.image)
    case Edge(i) => BoardTick(s, i)
  }

  predicate SysSteps(m: Motor, ss: seq<Sys>, actions: seq<SysAction>, k: nat) {
    k < |actions| < |ss| && ss[k + 1] == SysStep(m, ss[k], actions[k])
  }

  predicate IsSysRun(m: Motor, ss: seq<Sys>, actions: seq<SysAction>) {
    && |ss| == |actions| + 1
    && Initial(ss[0].ops)
    && ss[0] == Sys(ss[0].ops, Image(0, M.Idle, 0), Image(0, M.Idle, 0), Boards.Start(KindOf(m.role), 0), 0)
    && forall k :: 0 <= k < |actions| ==> SysSteps(m, ss, actions, k)
  }

  // ---------------------------------------------------------------------------------------------
  // RT Ops within the system

  /** For RT Ops alone the other steps are those of a checkForNewErrors without errors. */
  function Project(a: SysAction): Action {
    if a.Master? then a.a else NewState(false)
  }

  function OpsIn(s: Sys): Ops {
    s.ops
  }

  lemma OpsRun(m: Motor, ss: seq<Sys>, actions: seq<SysAction>)
    requires IsSysRun(m, ss, actions)
    ensures Runs.IsRun(Mapped(OpsIn, ss), Mapped(Project, actions))
  {
    var os, a := Mapped(OpsIn, ss), Mapped(Project, actions);
    forall k | 0 <= k < |a|
      ensures Runs.Steps(os, a, k)
    {
      assert SysSteps(m, ss, actions, k);
      SysStepOps(m, ss[k], actions[k]);
    }
  }

  lemma SysStepOps(m: Motor, s: Sys, a: SysAction)
    ensures SysStep(m, s, a).ops == Step(s.ops, Project(a))
  {
    hide LoopStep, Commanded, MotorCurrent, M.Step;
  }

  // ---------------------------------------------------------------------------------------------
  // Where a motor current comes from

  /** Step k is a call of calcState that reads enabled, for a controller that asks for run with six finite
      currents. */
  predicate Authorises(ss: seq<Sys>, actions: seq<SysAction>, k: nat, out: Output) {
    && k < |actions| < |ss|
    && actions[k].Master? && actions[k].a.CallStep?
    && ss[k].ops.call == Calling(out) && ss[k].ops.shared.current == Enabled
    && out.command == M.Run && Finite(out.currents)
  }

  /** A value that is not zero is the count of some authorised output, within the amplifier's range. */
  ghost predicate Backed(m: Motor, ss: seq<Sys>, actions: seq<SysAction>, n: nat, value: int) {
    && n <= |actions| < |ss|
    && -19900 <= value <= 19900
    && (value != 0 ==>
          exists k: nat, out :: k < n && Authorises(ss, actions, k, out)
                                && value == MotorCurrent(m, Output(M.Run, ClampAll(out.currents))))
  }

  ghost predicate BackedImage(m: Motor, ss: seq<Sys>, actions: seq<SysAction>, n: nat, image: Image) {
    && n <= |actions| < |ss|
    && Backed(m, ss, actions, n, image.current) && (image.current != 0 ==> image.command == M.Run)
  }

  /** A message that is sent carries a backed current to the motor. */
  lemma SentIsBacked(m: Motor, ss: seq<Sys>, actions: seq<SysAction>, n: nat)
    requires IsSysRun(m, ss, actions) && n < |actions|
    requires |ss[n + 1].ops.messages| == |ss[n].ops.messages| + 1
    ensures var out := ss[n + 1].ops.messages[|ss[n].ops.messages|];
            Backed(m, ss, actions, n, MotorCurrent(m, out)) && (MotorCurrent(m, out) != 0 ==> out.command == M.Run)
  {
    hide IsSysRun, Step, MotorCurrent, ClampAll;
    OpsRun(m, ss, actions);
    var os, a := Mapped(OpsIn, ss), Mapped(Project, actions);
    Runs.RunMessages(os, a, n);
    var out := ss[n + 1].ops.messages[|ss[n].ops.messages|];
    if out.command == M.Run {
      var k: nat, o :| k < n && Runs.UnderWay(os, a, k, n, o) && os[k].shared.current == Enabled
                       && Finite(o.currents) && o.command == M.Run && out == Output(M.Run, ClampAll(o.currents));
      assert Authorises(ss, actions, k, o);
      MotorCurrentIsBounded(m, o, M.Run);
    } else {
      MotorCurrentIsBounded(m, Output(M.Idle, ZERO), out.command);
    }
  }

  lemma {:induction false} ImagesAreBacked(m: Motor, ss: seq<Sys>, actions: seq<SysAction>, n: nat)
    requires IsSysRun(m, ss, actions) && n <= |actions|
    ensures BackedImage(m, ss, actions, n, ss[n].image)
    ensures BackedImage(m, ss, actions, n, ss[n].received)
    ensures Boards.Sound(ss[n].board)
  {
    hide M.Step, Step, MotorCurrent, Authorises;
    if n > 0 {
      ImagesAreBacked(m, ss, actions, n - 1);
      assert SysSteps(m, ss, actions, n - 1);
      match actions[n - 1]
      case Master(a) =>
        OneMessage(ss[n - 1].ops, a);
        if ss[n].ops.messages != ss[n - 1].ops.messages {
          SentIsBacked(m, ss, actions, n - 1);
        }
      case Deliver =>
      case Edge(i) => Boards.StepKeepsSound(ss[n - 1].board, Seen(i, ss[n - 1].received));
    }
  }

  lemma OneMessage(o: Ops, a: Action)
    ensures Step(o, a).messages == o.messages || |Step(o, a).messages| == |o.messages| + 1
  {
    hide Commanded, Consult, Check;
  }

  /** Every nonzero command that a tick gives to the motor comes from a call of calcState that read enabled
      with six finite currents and a controller that asked for run; the board was in run and its last
      message said run. */
  lemma DrivesAreAuthorised(m: Motor, ss: seq<Sys>, actions: seq<SysAction>, n: nat)
    requires IsSysRun(m, ss, actions) && n < |actions| && actions[n].Edge?
    requires ss[n + 1].board.applied.Drive?
    ensures var v := ss[n + 1].board.applied.value;
            && Backed(m, ss, actions, n, v)
            && ss[n].board.state == ss[n + 1].board.state == M.Run
            && (v != 0 ==> ss[n].received.command == M.Run)
  {
    hide M.Step, Step, MotorCurrent, Authorises;
    ImagesAreBacked(m, ss, actions, n);
    assert SysSteps(m, ss, actions, n);
    Boards.AppliedIsBounded(ss[n].board, Seen(actions[n].i, ss[n].received));
  }

  /** Step k is a tick whose halt controller applies v. */
  predicate Damps(ss: seq<Sys>, actions: seq<SysAction>, k: nat, v: int) {
    k < |actions| < |ss| && actions[k].Edge? && ss[k + 1].board.applied == M.Damp(v)
  }

  /** What the motor gets: the last output, if the outputs are enabled. */
  function Driven(s: Sys): int {
    if s.board.armed then s.output else 0
  }

  /** At all times the motor gets either a backed command or the output of the halt controller, always within
      the amplifier's counts and so below the period of the PWM, and only if the board is in run or halt. */
  lemma {:induction false} MotorIsSafe(m: Motor, ss: seq<Sys>, actions: seq<SysAction>, n: nat)
    requires IsSysRun(m, ss, actions) && n <= |actions|
    ensures var v := ss[n].output;
            && -19900 <= v <= 19900
            && (Backed(m, ss, actions, n, v) || exists k: nat :: k < n && Damps(ss, actions, k, v))
    ensures Driven(ss[n]) != 0 ==> ss[n].board.state == M.Run || ss[n].board.state == M.Halt
  {
    hide M.Step, Step, MotorCurrent, Authorises;
    ImagesAreBacked(m, ss, actions, n);
    if n > 0 {
      MotorIsSafe(m, ss, actions, n - 1);
      assert SysSteps(m, ss, actions, n - 1);
      if actions[n - 1].Edge? {
        ImagesAreBacked(m, ss, actions, n - 1);
        Boards.AppliedIsBounded(ss[n - 1].board, Seen(actions[n - 1].i, ss[n - 1].received));
        assert ss[n].board.applied.Damp? ==> Damps(ss, actions, n - 1, ss[n].board.applied.value);
      }
    }
  }

  // ---------------------------------------------------------------------------------------------
  // What the amplifier holds

  /** The value that was given to set_amp_output last. */
  function LastApplied(ss: seq<Sys>, actions: seq<SysAction>, n: nat): int
    requires n <= |actions| < |ss|
  {
    if n == 0 then 0
    else if !actions[n - 1].Edge? then LastApplied(ss, actions, n - 1)
    else match ss[n].board.applied
      case Nothing => LastApplied(ss, actions, n - 1)
      case Drive(v) => v
      case Damp(v) => v
  }

  lemma {:induction false} OutputIsLastApplied(m: Motor, ss: seq<Sys>, actions: seq<SysAction>, n: nat)
    requires IsSysRun(m, ss, actions) && n <= |actions|
    ensures ss[n].output == LastApplied(ss, actions, n) && ss[n].board.kind == KindOf(m.role)
  {
    hide M.Step, Step, MotorCurrent;
    if n > 0 {
      OutputIsLastApplied(m, ss, actions, n - 1);
      assert SysSteps(m, ss, actions, n - 1);
      if actions[n - 1].Edge? {
        ImagesAreBacked(m, ss, actions, n - 1);
        Boards.StepKeepsSound(ss[n - 1].board, Seen(actions[n - 1].i, ss[n - 1].received));
      }
    }
  }

  /** A tick that arms a leg or hip lets the motor have what was applied last, be it long ago, whatever the master
      says now; it is silent exactly if that is zero or an interrupt disarms at once. */
  lemma ArmingExact(m: Motor, ss: seq<Sys>, actions: seq<SysAction>, n: nat)
    requires IsSysRun(m, ss, actions) && n < |actions| && actions[n].Edge? && !KindOf(m.role).Imu?
    requires ss[n].board.state == M.Init && ss[n + 1].board.state == M.Run
    ensures Driven(ss[n + 1]) == if actions[n].i.interrupted then 0 else LastApplied(ss, actions, n)
    ensures Driven(ss[n + 1]) == 0 <==> actions[n].i.interrupted || LastApplied(ss, actions, n) == 0
  {
    hide M.Step, Step, MotorCurrent;
    OutputIsLastApplied(m, ss, actions, n);
    assert SysSteps(m, ss, actions, n);
    ArmsWithOldOutput(ss[n], actions[n].i);
  }

  /** Arming does not clear the output. */
  lemma ArmsWithOldOutput(s: Sys, i: M.Input)
    requires s.board.state == M.Init && !s.board.kind.Imu?
    requires BoardTick(s, i).board.state == M.Run
    ensures BoardTick(s, i).output == s.output && BoardTick(s, i).board.armed == !i.interrupted
  {
    hide M.EncoderChange, M.CheckError;
  }

  /** The amplifier is enabled or not, and was given `output` last. */
  predicate Shows(amp: Amplifier, armed: bool, output: int)
    reads amp
  {
    && amp.enabled == armed && amp.forward == (output >= 0)
    && amp.duty == if output < 0 then -output else output
  }

  /** What was given last, after a tick that leaves b. */
  function Given(b: M.Board, output: int): int {
    match b.applied
    case Nothing => output
    case Drive(v) => v
    case Damp(v) => v
  }

  predicate InRange(b: M.Board) {
    -19900 <= Given(b, 0) <= 19900
  }

  /** The calls of the halt section on the amplifier: damping, and disabling when halt ends. */
  method HaltCalls(b: M.Board, i: M.Input, diff: int, output: int, amp: Amplifier)
    requires b.state == M.Halt && b.applied.Nothing? && Shows(amp, b.armed, output)
    requires InRange(M.InHalt(b, i, diff))
    modifies amp
    ensures var t := M.InHalt(b, i, diff);
            Shows(amp, t.armed, Given(t, output))
  {
    hide M.CheckError, M.DampingCurrent;
    var c := M.JudgeHalt(b, i);
    if c.state == M.Halt {
      var (d, on) := M.RunHalt(c, diff);
      if d.applied.Damp? {
        amp.SetAmpOutput(d.applied.value);
      }
      if !on {
        amp.DisablePwm();
      }
    } else {
      amp.DisablePwm();
    }
  }

  /** The calls of the run section: the master's current, or disabling on the way to idle or error. */
  method RunCalls(b: M.Board, i: M.Input, diff: int, output: int, amp: Amplifier)
    requires b.state == M.Run && b.applied.Nothing? && Shows(amp, b.armed, output) && (b.kind.Leg? || b.kind.Hip?)
    requires InRange(M.InRun(b, i, diff))
    modifies amp
    ensures var t := M.InRun(b, i, diff);
            Shows(amp, t.armed, Given(t, output))
  {
    hide M.CheckError, M.InHalt, M.WatchdogStep;
    var r := M.JudgeRun(b, i);
    match r.state {
      case Run => amp.SetAmpOutput(i.current);
      case Halt => HaltCalls(r, i, diff, output, amp);
      case _ => amp.DisablePwm();
    }
  }

  /** The calls of a tick and of the interrupt that may follow it, section by section. */
  method TickCalls(b: M.Board, i: M.Input, output: int, amp: Amplifier)
    requires Boards.Sound(b) && (b.kind.Leg? || b.kind.Hip?) && Shows(amp, b.armed, output)
    requires InRange(M.Step(b, i))
    modifies amp
    ensures var t := M.Step(b, i);
            Shows(amp, t.armed, Given(t, output))
  {
    hide M.CheckError, M.InHalt, M.InRun, M.EncoderChange;
    var c, diff := M.Sample(b, i), M.EncoderChange(b.encoder, i.encoder);
    match b.state {
      case Init =>
        if M.JudgeInit(c, i).state == M.Run {
          amp.EnableAmp();
        } else {
          amp.DisablePwm();
        }
      case Run => RunCalls(c, i, diff, output, amp);
      case Halt => HaltCalls(c, i, diff, output, amp);
      case Error => amp.DisablePwm();
      case _ =>
    }
    if i.interrupted {
      amp.DisablePwm();
    }
  }

  /** A tick of a system run, with the calls that it makes: the motor gets what the system says. */
  method TickAmplifier(m: Motor, ss: seq<Sys>, actions: seq<SysAction>, n: nat, amp: Amplifier)
    requires IsSysRun(m, ss, actions) && n < |actions| && actions[n].Edge?
    requires Shows(amp, ss[n].board.armed, ss[n].output)
    modifies amp
    ensures KindOf(m.role).Leg? || KindOf(m.role).Hip? ==>
              Shows(amp, ss[n + 1].board.armed, ss[n + 1].output) && amp.Output() == Driven(ss[n + 1])
  {
    hide M.Step, Step, MotorCurrent, Backed, IsSysRun, LastApplied;
    MotorIsSafe(m, ss, actions, n + 1);
    ImagesAreBacked(m, ss, actions, n);
    OutputIsLastApplied(m, ss, actions, n);
    StepAt(m, ss, actions, n);
    var s := ss[n];
    if s.board.kind.Leg? || s.board.kind.Hip? {
      TickCalls(s.board, Seen(actions[n].i, s.received), s.output, amp);
    }
  }

  // ---------------------------------------------------------------------------------------------
  // From e-stop to the motor

  predicate Silenced(image: Image) {
    image.command == M.Error && image.current == 0
  }

  lemma {:induction false} StopReachesImage(m: Motor, ss: seq<Sys>, actions: seq<SysAction>, i: nat, s1: nat, s2: nat,
                                            n: nat)
    requires IsSysRun(m, ss, actions) && i <= s1 < s2 < n <= |actions|
    requires forall k :: i <= k < n ==> ss[k].ops.shared.current == EStop
    requires Runs.Sends(Mapped(OpsIn, ss), Mapped(Project, actions), s1)
    requires Runs.Sends(Mapped(OpsIn, ss), Mapped(Project, actions), s2)
    ensures Silenced(ss[n].image)
  {
    hide M.Step, Step, MotorCurrent, IsSysRun;
    var os, a := Mapped(OpsIn, ss), Mapped(Project, actions);
    OpsRun(m, ss, actions);
    if n > s2 + 1 {
      StopReachesImage(m, ss, actions, i, s1, s2, n - 1);
    }
    StepAt(m, ss, actions, n - 1);
    if actions[n - 1].Master? {
      OneMessage(ss[n - 1].ops, actions[n - 1].a);
      if Runs.Sends(os, a, n - 1) {
        Runs.LatchedSendsError(os, a, i, s1, n - 1);
        MotorCurrentIsBounded(m, Output(M.Error, ZERO), M.Error);
      }
    }
  }

  lemma StepAt(m: Motor, ss: seq<Sys>, actions: seq<SysAction>, k: nat)
    requires IsSysRun(m, ss, actions) && k < |actions|
    ensures |ss| == |actions| + 1 && SysSteps(m, ss, actions, k)
  {
  }

  lemma {:induction false} StopReachesReceived(m: Motor, ss: seq<Sys>, actions: seq<SysAction>, i: nat, s1: nat, s2: nat,
                                               d: nat, n: nat)
    requires IsSysRun(m, ss, actions) && i <= s1 < s2 < d < n <= |actions| && actions[d].Deliver?
    requires forall k :: i <= k < n ==> ss[k].ops.shared.current == EStop
    requires Runs.Sends(Mapped(OpsIn, ss), Mapped(Project, actions), s1)
    requires Runs.Sends(Mapped(OpsIn, ss), Mapped(Project, actions), s2)
    ensures Silenced(ss[n].received)
  {
    hide M.Step, Step, MotorCurrent, IsSysRun;
    StepAt(m, ss, actions, n - 1);
    StopReachesImage(m, ss, actions, i, s1, s2, n - 1);
    if n > d + 1 {
      StopReachesReceived(m, ss, actions, i, s1, s2, d, n - 1);
    }
  }

  /** E-stop holds at the master from i to n, two messages are sent in it, and an image is delivered after them. */
  predicate StopDelivered(ss: seq<Sys>, actions: seq<SysAction>, i: nat, s1: nat, s2: nat, d: nat, n: nat) {
    && n <= |actions| < |ss|
    && i <= s1 < s2 < d < n && actions[d].Deliver?
    && (forall k :: i <= k < n ==> ss[k].ops.shared.current == EStop)
    && Runs.Sends(Mapped(OpsIn, ss), Mapped(Project, actions), s1)
    && Runs.Sends(Mapped(OpsIn, ss), Mapped(Project, actions), s2)
  }

  /** Then a tick applies no command, a board in run is in error after it, disarmed, and the motor gets something
      other than halt damping exactly if the tick arms, from init, an output that was left over. */
  lemma StopReachesMotor(m: Motor, ss: seq<Sys>, actions: seq<SysAction>, i: nat, s1: nat, s2: nat, d: nat, n: nat)
    requires IsSysRun(m, ss, actions) && n < |actions| && actions[n].Edge?
    requires StopDelivered(ss, actions, i, s1, s2, d, n)
    ensures !ss[n + 1].board.applied.Drive? && ss[n + 1].board.state != M.Init
    ensures ss[n].board.state == M.Run ==> ss[n + 1].board.state == M.Error && !ss[n + 1].board.armed
    ensures ss[n + 1].board.state == M.Run ==> ss[n].board.state == M.Init
    ensures Driven(ss[n + 1]) != 0 && ss[n + 1].board.state != M.Halt
            <==> && ss[n].board.state == M.Init && ss[n + 1].board.state == M.Run && !actions[n].i.interrupted
                 && LastApplied(ss, actions, n) != 0
  {
    hide M.Step, Step, MotorCurrent, IsSysRun, LastApplied;
    StepAt(m, ss, actions, n);
    StopReachesReceived(m, ss, actions, i, s1, s2, d, n);
    ImagesAreBacked(m, ss, actions, n);
    Boards.ObeysError(ss[n].board, Seen(actions[n].i, ss[n].received));
    MotorIsSafe(m, ss, actions, n + 1);
    OutputIsLastApplied(m, ss, actions, n);
    OutputIsLastApplied(m, ss, actions, n + 1);
    NoMotorNoOutput(m, ss, actions, n);
    NoMotorNoOutput(m, ss, actions, n + 1);
    if ss[n].board.state == M.Init && ss[n + 1].board.state == M.Run && !KindOf(m.role).Imu? {
      ArmingExact(m, ss, actions, n);
    }
  }

  /** So from the second tick on the motor gets halt damping or nothing. */
  lemma StopSilencesMotor(m: Motor, ss: seq<Sys>, actions: seq<SysAction>, i: nat, s1: nat, s2: nat, d: nat, e: nat,
                          n: nat)
    requires IsSysRun(m, ss, actions) && e < n < |actions| && actions[e].Edge? && actions[n].Edge?
    requires StopDelivered(ss, actions, i, s1, s2, d, e) && StopDelivered(ss, actions, i, s1, s2, d, n)
    ensures Driven(ss[n + 1]) != 0 ==>
              ss[n + 1].board.state == M.Halt && ss[n + 1].board.applied == M.Damp(Driven(ss[n + 1]))
  {
    hide M.Step, Step, MotorCurrent, IsSysRun, LastApplied;
    StepAt(m, ss, actions, n);
    ImagesAreBacked(m, ss, actions, n);
    OutputIsLastApplied(m, ss, actions, n);
    OutputIsLastApplied(m, ss, actions, n + 1);
    NoMotorNoOutput(m, ss, actions, n + 1);
    Boards.HaltDamps(ss[n].board, Seen(actions[n].i, ss[n].received));
    NeverInitAgain(m, ss, actions, i, s1, s2, d, e, n);
    StopReachesMotor(m, ss, actions, i, s1, s2, d, n);
  }

  /** No tick after the delivery ends in init. */
  lemma {:induction false} NeverInitAgain(m: Motor, ss: seq<Sys>, actions: seq<SysAction>, i: nat, s1: nat, s2: nat,
                                          d: nat, e: nat, n: nat)
    requires IsSysRun(m, ss, actions) && e < n <= |actions| && actions[e].Edge?
    requires StopDelivered(ss, actions, i, s1, s2, d, e) && StopDelivered(ss, actions, i, s1, s2, d, n)
    ensures ss[n].board.state != M.Init
  {
    hide M.Step, Step, MotorCurrent, IsSysRun, LastApplied, Runs.Sends;
    StepAt(m, ss, actions, n - 1);
    if actions[n - 1].Edge? {
      StopReachesMotor(m, ss, actions, i, s1, s2, d, n - 1);
    } else {
      NeverInitAgain(m, ss, actions, i, s1, s2, d, e, n - 1);
    }
  }

  /** A board without an amplifier has no output. */
  lemma {:induction false} NoMotorNoOutput(m: Motor, ss: seq<Sys>, actions: seq<SysAction>, n: nat)
    requires IsSysRun(m, ss, actions) && n <= |actions|
    ensures KindOf(m.role).Boom? || KindOf(m.role).Imu? ==> ss[n].output == 0
  {
    hide M.Step, Step, MotorCurrent;
    if n > 0 {
      NoMotorNoOutput(m, ss, actions, n - 1);
      assert SysSteps(m, ss, actions, n - 1);
      if actions[n - 1].Edge? {
        ImagesAreBacked(m, ss, actions, n - 1);
        OutputIsLastApplied(m, ss, actions, n - 1);
        Boards.HaltDamps(ss[n - 1].board, Seen(actions[n - 1].i, ss[n - 1].received));
      }
    }
  }
}
