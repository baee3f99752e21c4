/**
  RT Ops: the stop protocol of the master. Three threads share the state `currentState` behind a lock: the
  controller loop, the Controller Manager's commands and the EtherCAT thread. Every locked access is one
  step, so that a call of `calcState`, `newCMState` or `checkForNewErrors` is several, and the steps of the
  threads interleave in any order.
 */
module RtOps {
  import M = Medulla

  datatype RtState = NoController | Disabled | Enabled | Resetting | EStop | Halting | Invalid(code: int)

  datatype Event =
    | AckNoController | AckDisable | AckEnable | AckReset | AckEStop | AckHalt
    | ControllerEStop | MedullaEStop | CmCommandEStop | InvalidRtOpsState | InvalidCmCommand
    | NoEvent | MissedDeadline | OtherEvent(code: int)   // none of these is sent by the code below

  /** A double: rounding is left out, the values that are not numbers are not. */
  datatype Float = Fin(x: real) | PosInf | NegInf | NaN

  datatype Currents = Currents(lA: Float, lB: Float, lHip: Float, rA: Float, rB: Float, rHip: Float)

  datatype Output = Output(command: M.State, currents: Currents)

  const MEDULLA_RESET_TIME_MS: nat := 5
  const MAX_MTR_CURRENT_CMD: real := 60.0   // of the hips as well

  const ZERO: Currents := Currents(Fin(0.0), Fin(0.0), Fin(0.0), Fin(0.0), Fin(0.0), Fin(0.0))

  predicate Finite(c: Currents) {
    c.lA.Fin? && c.lB.Fin? && c.lHip.Fin? && c.rA.Fin? && c.rB.Fin? && c.rHip.Fin?
  }

  function Clamp(f: Float): Float {
    match f
    case PosInf => Fin(MAX_MTR_CURRENT_CMD)
    case NegInf => Fin(-MAX_MTR_CURRENT_CMD)
    case NaN => NaN
    case Fin(x) =>
      if x > MAX_MTR_CURRENT_CMD then Fin(MAX_MTR_CURRENT_CMD)
      else if x < -MAX_MTR_CURRENT_CMD then Fin(-MAX_MTR_CURRENT_CMD)
      else f
  }

  /** The clamp gives the current nearest to f within 60 amperes; only what is no number at all it leaves. */
  lemma ClampExact(f: Float)
    ensures match f
            case NaN => Clamp(f) == NaN
            case PosInf => Clamp(f) == Fin(60.0)
            case NegInf => Clamp(f) == Fin(-60.0)
            case Fin(x) =>
              && Clamp(f).Fin? && -60.0 <= Clamp(f).x <= 60.0
              && (x <= -60.0 ==> Clamp(f).x == -60.0) && (-60.0 <= x <= 60.0 ==> Clamp(f) == f)
              && (x >= 60.0 ==> Clamp(f).x == 60.0)
  {
  }

  function ClampAll(c: Currents): Currents {
    Currents(Clamp(c.lA), Clamp(c.lB), Clamp(c.lHip), Clamp(c.rA), Clamp(c.rB), Clamp(c.rHip))
  }

  /** What the controller loop sends for the controller's output and the state that calcState returned. */
  function Message(out: Output, command: M.State): Output {
    Output(command, if command == M.Run then ClampAll(out.currents) else ZERO)
  }

  // ---------------------------------------------------------------------------------------------
  // The steps on the shared state

  datatype Shared = Shared(current: RtState, loaded: bool, events: seq<Event>)

  datatype Op = Write(state: RtState) | Send(event: Event) | Load(loaded: bool)

  /** setState: e-stop is left only for a reset. */
  function Latch(current: RtState, new_: RtState): RtState {
    if current == EStop && new_ != Resetting then EStop else new_
  }

  function Do(s: Shared, op: Op): Shared {
    match op
    case Write(n) => s.(current := Latch(s.current, n))
    case Send(e) => s.(events := s.events + [e])
    case Load(b) => s.(loaded := b)
  }

  function DoAll(s: Shared, ops: seq<Op>): Shared
    decreases |ops|
  {
    if ops == [] then s else DoAll(Do(s, ops[0]), ops[1..])
  }

  /** eStop */
  function Stop(event: Event): seq<Op> {
    [Write(EStop), Send(event)]
  }

  function Ack(state: RtState): seq<Op> {
    match state
    case NoController => [Send(AckNoController)]
    case Disabled => [Send(AckDisable)]
    case Enabled => [Send(AckEnable)]
    case Resetting => []   // sent when the reset is complete
    case EStop => [Send(AckEStop)]
    case Halting => [Send(AckHalt)]
    case Invalid(_) => []
  }

  /** newCMState */
  function Commanded(new_: RtState, shouldHalt: bool): seq<Op> {
    match new_
    case NoController => [Load(false), Write(new_)] + Ack(new_)
    case Disabled => [Load(true), Write(new_)] + Ack(new_)
    case Enabled => var s := if shouldHalt then Disabled else Enabled; [Write(s)] + Ack(s)
    case Resetting => [Load(false), Write(new_)] + Ack(new_)
    case EStop => Stop(CmCommandEStop) + [Write(new_)] + Ack(new_)
    case Halting => [Write(new_)] + Ack(new_)
    case Invalid(_) => Stop(InvalidCmCommand) + [Load(false)]
  }

  // ---------------------------------------------------------------------------------------------
  // The controller loop

  /** Where the controller loop is: waiting for a cycle, about to call calcState with the controller's
      output, between its two reads of the state, or about to send what it returned. */
  datatype Call = Waiting | Calling(out: Output) | Checking(out: Output) | Returned(out: Output, command: M.State)

  /** What a read of the state leads to: writes, and then the next point of the loop. */
  datatype Next = Next(ops: seq<Op>, call: Call)

  /** calcState up to shouldEStop, with the state that was read. */
  function Consult(current: RtState, resets: nat, out: Output): Next {
    match current
    case EStop => Next([], Returned(out, M.Error))
    case NoController => Next([], Returned(out, M.Idle))
    case Disabled => Next([], Returned(out, M.Idle))
    case Resetting =>
      Next(if resets + 1 > MEDULLA_RESET_TIME_MS then [Write(NoController), Send(AckReset)] else [], Returned(out, M.Reset))
    case Enabled => Next(if out.command == M.Error then Stop(ControllerEStop) else [], Checking(out))
    case Halting => Next([], Returned(out, M.Halt))
    case Invalid(_) => Next(Stop(InvalidRtOpsState), Returned(out, M.Error))
  }

  function ResetCount(current: RtState, resets: nat): nat {
    if current != Resetting then resets else if resets + 1 > MEDULLA_RESET_TIME_MS then 0 else resets + 1
  }

  /** The rest of calcState, with the state that shouldEStop read and the result of shouldHalt. */
  function Check(current: RtState, out: Output, shouldHalt: bool): Next {
    if !Finite(out.currents) || current == Halting then Next(Stop(MedullaEStop), Returned(out, M.Error))
    else if shouldHalt then Next([Write(Halting)], Returned(out, M.Halt))
    else Next([], Returned(out, out.command))
  }

  datatype Ops = Ops(
    shared: Shared,
    resets: nat,              // resetCounter
    call: Call,
    callOps: seq<Op>,         // what the controller loop has yet to do before `call`
    cmOps: seq<Op>,           // what the Controller Manager's command has yet to do
    ecatOps: seq<Op>,         // what the EtherCAT thread has yet to do
    messages: seq<Output>)    // sent so far

  datatype Action =
    | Control(out: Output)            // the loop wakes and runs the controller, if it is loaded
    | CallStep(shouldHalt: bool)      // the loop goes one step on
    | Command(new_: RtState, shouldHalt: bool)
    | CmStep
    | NewState(error: bool)           // checkForNewErrors reads the state; some Medulla reports error
    | EcatStep

  /** One step. An action that is not possible changes nothing. */
  function Step(o: Ops, a: Action): Ops {
    match a
    case Control(out) =>
      if o.call.Waiting? then o.(call := Calling(if o.shared.loaded then out else Output(M.Idle, ZERO))) else o
    case CallStep(halt) => LoopStep(o, halt)
    case Command(s, halt) => if o.cmOps == [] then o.(cmOps := Commanded(s, halt)) else o
    case CmStep => if o.cmOps == [] then o else o.(shared := Do(o.shared, o.cmOps[0]), cmOps := o.cmOps[1..])
    case NewState(error) =>
      if o.ecatOps == [] && error && o.shared.current != EStop && o.shared.current != Resetting
      then o.(ecatOps := Stop(MedullaEStop)) else o
    case EcatStep => if o.ecatOps == [] then o else o.(shared := Do(o.shared, o.ecatOps[0]), ecatOps := o.ecatOps[1..])
  }

  function LoopStep(o: Ops, halt: bool): Ops {
    if o.callOps != [] then o.(shared := Do(o.shared, o.callOps[0]), callOps := o.callOps[1..])
    else match o.call
      case Waiting => o
      case Calling(out) =>
        var n := Consult(o.shared.current, o.resets, out);
        o.(callOps := n.ops, call := n.call, resets := ResetCount(o.shared.current, o.resets))
      case Checking(out) =>
        var n := Check(o.shared.current, out, halt);
        o.(callOps := n.ops, call := n.call)
      case Returned(out, command) => o.(messages := o.messages + [Message(out, command)], call := Waiting)
  }

  /** Nothing is promised of the state before the constructor's first setState; if it happens to read as
      e-stop, the latch keeps it. */
  predicate Initial(o: Ops) {
    && o == Ops(Shared(o.shared.current, false, []), 0, Waiting, [], [], [], [])
    && o.shared.current in {NoController, EStop}
  }

  // ---------------------------------------------------------------------------------------------
  // The code of one thread

  class StateMachine {
    var currentState: RtState
    var controllerLoaded: bool
    var resetCounter: nat
    var events: seq<Event>

    function Now(): Shared
      reads this
    {
      Shared(currentState, controllerLoaded, events)
    }

    method SetState(new_: RtState)
      modifies this`currentState
      ensures Now() == Do(old(Now()), Write(new_))
    {
      if currentState == EStop && new_ != Resetting {
        return;
      }
      currentState := new_;
    }

    method SendEvent(event: Event)
      modifies this`events
      ensures Now() == Do(old(Now()), Send(event))
    {
      events := events + [event];
    }

    method EStopWith(event: Event)
      modifies this`currentState, this`events
      ensures Now() == DoAll(old(Now()), Stop(event))
    {
      SetState(EStop);
      SendEvent(event);
      DoFew(old(Now()), Write(EStop), Send(event));
    }

    method SetControllerLoaded()
      modifies this`controllerLoaded
      ensures Now() == Do(old(Now()), Load(true))
    {
      if controllerLoaded {
        return;
      }
      controllerLoaded := true;
    }

    method SetControllerUnloaded()
      modifies this`controllerLoaded
      ensures Now() == Do(old(Now()), Load(false))
    {
      if !controllerLoaded {
        return;
      }
      controllerLoaded := false;
    }

    method AckCMState(state: RtState)
      requires !state.Invalid?
      modifies this`events
      ensures Now() == DoAll(old(Now()), Ack(state))
    {
      match state
      case NoController => SendEvent(AckNoController);
      case Disabled => SendEvent(AckDisable);
      case Enabled => SendEvent(AckEnable);
      case Resetting =>
      case EStop => SendEvent(AckEStop);
      case Halting => SendEvent(AckHalt);
    }

    method NewCMState(new_: RtState, shouldHalt: bool)
      modifies this`currentState, this`events, this`controllerLoaded
      ensures Now() == DoAll(old(Now()), Commanded(new_, shouldHalt))
    {
      hide Do, Ack;
      var state := new_;
      ghost var ops: seq<Op> := [];
      DoFew(Now(), Load(new_ == Disabled), Load(true));
      match new_ {
        case NoController => SetControllerUnloaded(); ops := [Load(false)];
        case Disabled => SetControllerLoaded(); ops := [Load(true)];
        case Enabled =>
          if shouldHalt {
            state := Disabled;
          }
        case Resetting => SetControllerUnloaded(); ops := [Load(false)];
        case EStop => EStopWith(CmCommandEStop); ops := Stop(CmCommandEStop);
        case Halting =>
        case Invalid(_) =>
          EStopWith(InvalidCmCommand);
          DoFew(Now(), Load(false), Load(true));
          SetControllerUnloaded();
          DoAllConcat(old(Now()), Stop(InvalidCmCommand), [Load(false)]);
          return;
      }
      assert Now() == DoAll(old(Now()), ops);
      assert Commanded(new_, shouldHalt) == ops + [Write(state)] + Ack(state);
      DoFew(Now(), Write(state), Write(state));
      SetState(state);
      AckCMState(state);
      DoAllConcat(old(Now()), ops, [Write(state)]);
      DoAllConcat(old(Now()), ops + [Write(state)], Ack(state));
    }

    method CalcState(out: Output, shouldHalt: bool) returns (command: M.State)
      modifies this`currentState, this`events, this`resetCounter
      ensures (Now(), resetCounter, command) == Calculated(old(Now()), old(resetCounter), out, shouldHalt)
      ensures old(currentState) == Enabled && (out.command == M.Error || !Finite(out.currents)) ==>
                && currentState == EStop
                && events == old(events) + (if out.command == M.Error then [ControllerEStop] else [])
                             + if Finite(out.currents) then [] else [MedullaEStop]
    {
      CallOutcome(Now(), resetCounter, out, shouldHalt);
      match currentState
      case EStop => return M.Error;
      case NoController => return M.Idle;
      case Disabled => return M.Idle;
      case Resetting =>
        resetCounter := resetCounter + 1;
        if resetCounter > MEDULLA_RESET_TIME_MS {
          resetCounter := 0;
          SetState(NoController);
          SendEvent(AckReset);
          DoFew(old(Now()), Write(NoController), Send(AckReset));
        }
        return M.Reset;
      case Enabled =>
        if out.command == M.Error {
          EStopWith(ControllerEStop);
        }
        var bad := ShouldEStop(out);
        if bad {
          EStopWith(MedullaEStop);
          return M.Error;
        }
        if shouldHalt {
          DoFew(Now(), Write(Halting), Write(Halting));
          SetState(Halting);
          return M.Halt;
        }
        return out.command;
      case Halting => return M.Halt;
      case Invalid(_) =>
        EStopWith(InvalidRtOpsState);
        return M.Error;
    }

    /** Safety::shouldEStop, as far as it is reachable. */
    method ShouldEStop(out: Output) returns (bad: bool)
      ensures bad <==> !Finite(out.currents) || currentState == Halting
    {
      if !Finite(out.currents) {
        return true;
      }
      if currentState != Halting {
        return false;
      }
      return true;
    }

    /** checkForNewErrors */
    method CheckForNewErrors(medullas: seq<M.State>)
      modifies this`currentState, this`events
      ensures Now() == if old(currentState) != EStop && old(currentState) != Resetting && M.Error in medullas
                       then DoAll(old(Now()), Stop(MedullaEStop)) else old(Now())
    {
      if currentState == EStop || currentState == Resetting {
        return;
      }
      if M.Error in medullas {
        EStopWith(MedullaEStop);
      }
    }
  }

  /** The tail of one cycle of the controller loop. */
  class ControllerLoop {
    var controllerOutput: Output

    method ClampControllerOutput()
      modifies this
      ensures controllerOutput == Output(old(controllerOutput).command, ClampAll(old(controllerOutput).currents))
    {
      var c := controllerOutput.currents;
      c := c.(lA := Clamp(c.lA), lB := Clamp(c.lB), lHip := Clamp(c.lHip));
      c := c.(rA := Clamp(c.rA), rB := Clamp(c.rB), rHip := Clamp(c.rHip));
      controllerOutput := controllerOutput.(currents := c);
    }

    /** What follows calcState, up to the message that is sent. */
    method EndCycle(command: M.State)
      modifies this
      ensures controllerOutput == Message(old(controllerOutput), command)
    {
      controllerOutput := controllerOutput.(command := command);
      ClampControllerOutput();
      if controllerOutput.command != M.Run {
        controllerOutput := controllerOutput.(currents := ZERO);
      }
    }
  }

  lemma DoFew(s: Shared, a: Op, b: Op)
    ensures DoAll(s, [a]) == Do(s, a) && DoAll(s, [a, b]) == Do(Do(s, a), b)
  {
    assert [a][1..] == [] && [b][1..] == [] && [a, b][1..] == [b];
    assert DoAll(Do(s, a), [b]) == Do(Do(s, a), b);
  }

  lemma {:induction false} DoAllConcat(s: Shared, a: seq<Op>, b: seq<Op>)
    ensures DoAll(s, a + b) == DoAll(DoAll(s, a), b)
    decreases |a|
  {
    if a == [] {
      assert a + b == b;
    } else {
      DoAllConcat(Do(s, a[0]), a[1..], b);
      assert (a + b)[1..] == a[1..] + b;
    }
  }

  /** A whole call of calcState that no other thread interrupts: shared state, reset counter and result. */
  function Calculated(s: Shared, resets: nat, out: Output, shouldHalt: bool): (Shared, nat, M.State) {
    var n := Consult(s.current, resets, out);
    var t := DoAll(s, n.ops);
    var c := ResetCount(s.current, resets);
    match n.call
    case Returned(_, command) => (t, c, command)
    case _ =>
      var m := Check(t.current, out, shouldHalt);
      (DoAll(t, m.ops), c, if m.call.Returned? then m.call.command else M.Error)
  }

  /** What such a call does, state by state. */
  lemma CallOutcome(s: Shared, resets: nat, out: Output, shouldHalt: bool)
    ensures Calculated(s, resets, out, shouldHalt)
         == match s.current
            case EStop => (s, resets, M.Error)
            case NoController => (s, resets, M.Idle)
            case Disabled => (s, resets, M.Idle)
            case Halting => (s, resets, M.Halt)
            case Resetting =>
              if resets < MEDULLA_RESET_TIME_MS then (s, resets + 1, M.Reset)
              else (s.(current := NoController, events := s.events + [AckReset]), 0, M.Reset)
            case Invalid(_) => (s.(current := EStop, events := s.events + [InvalidRtOpsState]), resets, M.Error)
            case Enabled =>
              var t := if out.command == M.Error then s.(current := EStop, events := s.events + [ControllerEStop]) else s;
              if !Finite(out.currents) then
                (t.(current := EStop, events := t.events + [MedullaEStop]), resets, M.Error)
              else if shouldHalt then (t.(current := if t.current == EStop then EStop else Halting), resets, M.Halt)
              else (t, resets, out.command)
  {
    DoFew(s, Write(NoController), Send(AckReset));
    DoFew(s, Write(EStop), Send(InvalidRtOpsState));
    DoFew(s, Write(EStop), Send(ControllerEStop));
    DoFew(s, Write(EStop), Send(MedullaEStop));
    DoFew(s, Write(Halting), Write(Halting));
    var t := s.(current := EStop, events := s.events + [ControllerEStop]);
    DoFew(t, Write(EStop), Send(MedullaEStop));
    DoFew(t, Write(Halting), Write(Halting));
  }
}
