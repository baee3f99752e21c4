/**
  The firmware of a Medulla board: one tick of its state machine per edge of the distributed clock,
  and what every run of ticks keeps.
 */
module Medulla {
  import opened Bits
  import opened CArith
  import opened Filters

  datatype Kind = Leg | Hip | Boom | Imu

  /** medulla_state_t. A received byte may also be none of its values. */
  datatype State = Idle | Init | Run | Stop | Halt | Error | Reset | Other(code: int)

  const ESTOP_DEBOUNCE_LIMIT: int := 5
  const ESTOP_TIMEOUT_LENGTH: int := 1000
  const MASTER_WATCHDOG_LIMIT: int := 10
  const LOW_VOLTAGE_LIMIT: int := 500
  const DAMPING_LIMIT: int := 100
  const DAMPING_FACTOR: int := 180           // DAMPING_GAIN * DAMPING_GAIN_CONSTANT
  const DAMPING_CURRENT_LIMIT: int := 19900
  const AMC_PWM_PERIOD_TICKS: int := 20000

  /** What one tick reads from the hardware and from the master. */
  datatype Input = Input(
    command: State,         // *commanded_state
    counter: UInt16,        // *master_watchdog_counter
    current: int,           // *leg_motor_current_pdo, *hip_motor_current_pdo
    pressed: bool,          // estop_is_estopped, for the debounce counter
    pressedAtInit: bool,    // estop_is_estopped, read again by the init state
    lowVoltage: bool,       // *logic_voltage_pdo < LOGIC_VOLTAGE_MIN
    encoder: UInt16,        // the new *incremental_encoder_pdo
    interrupted: bool)      // an e-stop or limit-switch interrupt follows the tick

  /** What a tick gives to set_amp_output. */
  datatype Applied = Nothing | Drive(value: int) | Damp(value: int)

  datatype Board = Board(
    kind: Kind,
    state: State,           // *current_state
    debounce: int,          // estop_debounce
    watchdogErrors: Byte,   // master_watchdog_errors
    previous: UInt16,       // previous_master_watchdog
    timeout: UInt16,        // estop_timeout_counter
    armed: bool,            // the outputs are enabled
    lowVoltages: UInt16,    // logic_voltage_counter
    damping: Byte,          // leg_damping_cnt, hip_damping_cnt, boom_damping_cnt
    encoder: UInt16,        // *incremental_encoder_pdo
    applied: Applied)       // by the last tick

  // ---------------------------------------------------------------------------------------------
  // What a tick does, case by case

  /** check_error: the new low-voltage count and the verdict. Only the boom has a check compiled in. */
  function CheckError(kind: Kind, count: UInt16, low: bool): (UInt16, bool) {
    var c: int := count;
    var n := if low then (c + 1) % 0x1_0000 else if c > 0 then c - 1 else 0;
    if kind.Boom? then (n, n > LOW_VOLTAGE_LIMIT) else (count, false)
  }

  function ResetError(b: Board): Board {
    b.(lowVoltages := if b.kind.Boom? then 0 else b.lowVoltages,
       damping := if b.kind.Imu? then b.damping else 0)
  }

  /** The error state: disarm, count, and leave when the master asks for it after the timeout. */
  function InError(b: Board, i: Input): Board {
    var c: int := b.timeout;
    var t := (c + 1) % 0x1_0000;
    b.(state := if i.command == Reset && t > ESTOP_TIMEOUT_LENGTH then Reset else b.state,
       timeout := t, armed := false)
  }

  /** The centred change of the incremental encoder over the last tick. */
  function EncoderChange(before: UInt16, after: UInt16): int {
    var d: int := after - before;
    if d < -0x8000 then d + 0x1_0000 else if d >= 0x8000 then d - 0x1_0000 else d
  }

  lemma EncoderChangeIsCentred(before: UInt16, after: UInt16)
    ensures EncoderChange(before, after) == Centre(after - before, 0x1_0000)
  {
    CentreExact(after - before, EncoderChange(before, after), 0x1_0000);
  }

  function DampingCurrent(diff: int): int {
    var d := diff * DAMPING_FACTOR;
    if d > DAMPING_CURRENT_LIMIT then DAMPING_CURRENT_LIMIT
    else if d < -DAMPING_CURRENT_LIMIT then -DAMPING_CURRENT_LIMIT
    else d
  }

  /** run_halt: what it leaves and applies, and whether halting goes on. `diff` is the encoder change. */
  function RunHalt(b: Board, diff: int): (Board, bool) {
    var c: int := b.damping;
    var n := (c + 1) % 0x100;
    var d := b.(damping := n);
    match b.kind
    case Imu => (b, true)
    case Boom => (d, n <= DAMPING_LIMIT)
    case Hip => if n > DAMPING_LIMIT then (d, false) else (d.(applied := Damp(0)), true)
    case Leg =>
      if -10 <= diff <= 10 then (d.(applied := Damp(0)), n <= DAMPING_LIMIT)
      else (d.(applied := Damp(DampingCurrent(diff))), true)
  }

  function UpdateOutputs(b: Board, i: Input): Board {
    if b.kind.Leg? || b.kind.Hip? then b.(applied := Drive(i.current)) else b
  }

  /** What the init state finds: Run, or Error. */
  function JudgeInit(b: Board, i: Input): Board {
    var c := ResetError(b).(watchdogErrors := 0);
    if i.pressedAtInit then c.(state := Error, timeout := 0)
    else
      var (n, bad) := CheckError(c.kind, c.lowVoltages, i.lowVoltage);
      if bad then c.(lowVoltages := n, state := Error, timeout := 0)
      else c.(lowVoltages := n, state := Run, armed := b.armed || !b.kind.Imu?)
  }

  function WatchdogStep(errors: Byte, stale: bool): Byte {
    var e: int := errors;
    if stale then (e + 1) % 0x100 else 0
  }

  /** The state that the master's command takes the run state to. */
  function Obeyed(command: State, current: State): State {
    match command
    case Stop => Stop
    case Idle => Stop
    case Halt => Halt
    case Error => Error
    case _ => current
  }

  /** What the run state finds. Hardware errors come before the watchdog, and that before the command. */
  function JudgeRun(b: Board, i: Input): Board {
    var errors := WatchdogStep(b.watchdogErrors, i.counter == b.previous);
    var (n, bad) := CheckError(b.kind, b.lowVoltages, i.lowVoltage);
    var c := b.(watchdogErrors := errors, previous := i.counter, lowVoltages := n);
    if bad then c.(state := Error, timeout := 0, armed := false)
    else if b.debounce > ESTOP_DEBOUNCE_LIMIT then c.(state := Error, timeout := 0)
    else
      c.(state := if errors >= MASTER_WATCHDOG_LIMIT then Error else Obeyed(i.command, b.state),
         timeout := if i.command == Error then 0 else b.timeout)
  }

  /** What the halt state finds before its controller is called. */
  function JudgeHalt(b: Board, i: Input): Board {
    var (n, bad) := CheckError(b.kind, b.lowVoltages, i.lowVoltage);
    var c := b.(lowVoltages := n);
    if bad then c.(state := Error, timeout := 0, armed := false)
    else if b.debounce > ESTOP_DEBOUNCE_LIMIT then c.(state := Error, timeout := 0)
    else c
  }

  function InHalt(b: Board, i: Input, diff: int): Board {
    var c := JudgeHalt(b, i);
    if c.state == Halt then
      var (d, on) := RunHalt(c, diff);
      if on then d else d.(state := Error, armed := false, timeout := 0)
    else InError(c, i)
  }

  function InInit(b: Board, i: Input): Board {
    var c := JudgeInit(b, i);
    if c.state == Run then c else InError(c, i)
  }

  function InRun(b: Board, i: Input, diff: int): Board {
    var c := JudgeRun(b, i);
    match c.state
    case Run => UpdateOutputs(c, i)
    case Stop => c.(state := Idle, armed := false)
    case Halt => InHalt(c, i, diff)
    case _ => InError(c, i)
  }

  /** update_inputs, and the count of the e-stop. */
  function Sample(b: Board, i: Input): Board {
    b.(debounce := DebounceStep(b.debounce, i.pressed), encoder := i.encoder, applied := Nothing)
  }

  /** One tick of the main loop. */
  function Tick(b: Board, i: Input): Board {
    var diff := EncoderChange(b.encoder, i.encoder);
    var c := Sample(b, i);
    match b.state
    case Idle => if i.command == Run then c.(state := Init) else c
    case Init => InInit(c, i)
    case Run => InRun(c, i, diff)
    case Stop => c.(state := Idle, armed := false)
    case Halt => InHalt(c, i, diff)
    case Reset => ResetError(c).(watchdogErrors := 0, debounce := 0, state := Idle)
    case Error => InError(c, i)
    case Other(_) => InError(c, i)
  }

  /** One tick and the interrupt that may follow it. Interrupts only disarm. */
  function Step(b: Board, i: Input): Board {
    var t := Tick(b, i);
    t.(armed := t.armed && !i.interrupted)
  }

  // ---------------------------------------------------------------------------------------------
  // The firmware

  class Firmware {
    const kind: Kind
    var currentState: State
    var estopDebounce: int
    var masterWatchdogErrors: Byte
    var previousMasterWatchdog: UInt16
    var estopTimeoutCounter: UInt16
    var armed: bool
    var logicVoltageCounter: UInt16
    var dampingCnt: Byte
    var incrementalEncoder: UInt16
    var lastIncremental: UInt16
    var applied: Applied

    function Snapshot(): Board
      reads this
    {
      Board(kind, currentState, estopDebounce, masterWatchdogErrors, previousMasterWatchdog,
            estopTimeoutCounter, armed, logicVoltageCounter, dampingCnt, incrementalEncoder, applied)
    }

    constructor (kind: Kind, counter: UInt16)
      ensures Snapshot() == Board(kind, Idle, 0, 0, counter, 0, false, 0, 0, 0, Nothing)
    {
      this.kind := kind;
      currentState, estopDebounce, masterWatchdogErrors := Idle, 0, 0;
      previousMasterWatchdog, estopTimeoutCounter, armed := counter, 0, false;
      logicVoltageCounter, dampingCnt, incrementalEncoder, lastIncremental := 0, 0, 0, 0;
      applied := Nothing;
    }

    /** The body of the main loop after an edge of the distributed clock. */
    method OnEdge(i: Input)
      requires estopDebounce <= INT_MAX
      modifies this
      ensures Snapshot() == Tick(old(Snapshot()), i)
    {
      hide DebounceStep, EncoderChange, RunHalt, ResetError, JudgeInit, JudgeRun, InHalt, InError, UpdateOutputs;
      // update_inputs
      lastIncremental := incrementalEncoder;
      incrementalEncoder := i.encoder;
      applied := Nothing;
      CountEstop(i.pressed);

      if currentState == Idle {
        if i.command == Run {
          currentState := Init;
        }
        return;
      }
      if currentState == Init {
        InitState(i);
        if currentState == Run {
          return;
        }
      } else if currentState == Run {
        RunState(i);
        if currentState == Run {
          UpdateMotors(i);
          return;
        }
      }
      if currentState == Stop {
        armed := false;
        currentState := Idle;
        return;
      }
      if currentState == Halt {
        HaltState(i);
        return;
      }
      if currentState == Reset {
        ResetErrors();
        masterWatchdogErrors := 0;
        estopDebounce := 0;
        currentState := Idle;
        return;
      }
      ErrorState(i);  // also when the state has no valid value
    }

    /** main_estop, run as an interrupt of the e-stop or of a limit switch. */
    method Interrupt()
      modifies this`armed
      ensures !armed
    {
      armed := false;
    }

    /** One tick and what may interrupt the wait for the next edge. */
    method Cycle(i: Input)
      requires estopDebounce <= INT_MAX
      modifies this
      ensures Snapshot() == Step(old(Snapshot()), i)
    {
      hide Tick;
      OnEdge(i);
      if i.interrupted {
        Interrupt();
      }
    }

    method CountEstop(pressed: bool)
      requires estopDebounce <= INT_MAX
      modifies this`estopDebounce
      ensures estopDebounce == DebounceStep(old(estopDebounce), pressed) <= INT_MAX
    {
      if pressed {
        estopDebounce := if estopDebounce == INT_MAX then -INT_MAX - 1 else estopDebounce + 1;
      } else if estopDebounce > 0 {
        estopDebounce := estopDebounce - 1;
      }
    }

    method InitState(i: Input)
      requires currentState == Init
      modifies this
      ensures Snapshot() == JudgeInit(old(Snapshot()), i)
      ensures currentState == Run || currentState == Error
      ensures unchanged(`lastIncremental, `incrementalEncoder)
    {
      hide CheckError;
      ResetErrors();
      masterWatchdogErrors := 0;
      var bad := i.pressedAtInit;
      if !bad {
        bad := CheckErrors(i.lowVoltage);
      }
      if bad {
        currentState := Error;
        estopTimeoutCounter := 0;
      } else {
        EnableOutputs();
        currentState := Run;
      }
    }

    /** The run state follows the master, and then overrides that by what it finds wrong. */
    method RunState(i: Input)
      requires currentState == Run
      modifies this
      ensures Snapshot() == JudgeRun(old(Snapshot()), i)
      ensures currentState in {Run, Stop, Halt, Error}
      ensures unchanged(`lastIncremental, `incrementalEncoder)
    {
      hide WatchdogStep, CheckError;
      Obey(i.command);
      CheckWatchdog(i.counter);
      // check_halt is false on every board
      if estopDebounce > ESTOP_DEBOUNCE_LIMIT {
        currentState := Error;
        estopTimeoutCounter := 0;
      }
      var bad := CheckErrors(i.lowVoltage);
      if bad {
        currentState := Error;
        estopTimeoutCounter := 0;
        armed := false;
      }
    }

    method Obey(command: State)
      modifies this`currentState, this`estopTimeoutCounter
      ensures currentState == Obeyed(command, old(currentState))
      ensures estopTimeoutCounter == if command == Error then 0 else old(estopTimeoutCounter)
    {
      if command == Stop || command == Idle {
        currentState := Stop;
      } else if command == Halt {
        currentState := Halt;
      } else if command == Error {
        currentState := Error;
        estopTimeoutCounter := 0;
      }
    }

    method CheckWatchdog(counter: UInt16)
      modifies this`masterWatchdogErrors, this`previousMasterWatchdog, this`currentState
      ensures previousMasterWatchdog == counter
      ensures masterWatchdogErrors == WatchdogStep(old(masterWatchdogErrors), counter == old(previousMasterWatchdog))
      ensures currentState == if masterWatchdogErrors >= MASTER_WATCHDOG_LIMIT then Error else old(currentState)
    {
      if counter == previousMasterWatchdog {
        var e: int := masterWatchdogErrors;
        masterWatchdogErrors := (e + 1) % 0x100;
      } else {
        masterWatchdogErrors := 0;
      }
      previousMasterWatchdog := counter;
      if masterWatchdogErrors >= MASTER_WATCHDOG_LIMIT {
        currentState := Error;
      }
    }

    method HaltState(i: Input)
      requires currentState == Halt
      modifies this
      ensures Snapshot() == InHalt(old(Snapshot()), i, EncoderChange(old(lastIncremental), old(incrementalEncoder)))
    {
      hide CheckError, EncoderChange, RunHalt, InError;
      if estopDebounce > ESTOP_DEBOUNCE_LIMIT {
        currentState := Error;
        estopTimeoutCounter := 0;
      }
      var bad := CheckErrors(i.lowVoltage);
      if bad {
        currentState := Error;
        armed := false;
        estopTimeoutCounter := 0;
      }
      if currentState == Halt {
        var on := HaltController();
        if !on {
          currentState := Error;
          armed := false;
          estopTimeoutCounter := 0;
        }
      } else {
        ErrorState(i);
      }
    }

    method ErrorState(i: Input)
      modifies this`armed, this`estopTimeoutCounter, this`currentState
      ensures Snapshot() == InError(old(Snapshot()), i)
    {
      armed := false;  // main_estop
      var count: int := estopTimeoutCounter;
      estopTimeoutCounter := (count + 1) % 0x1_0000;
      if i.command == Reset && estopTimeoutCounter > ESTOP_TIMEOUT_LENGTH {
        currentState := Reset;
      }
    }

    method CheckErrors(low: bool) returns (bad: bool)
      modifies this`logicVoltageCounter
      ensures (logicVoltageCounter, bad) == CheckError(kind, old(logicVoltageCounter), low)
    {
      bad := false;
      if kind == Boom {
        if low {
          var c: int := logicVoltageCounter;
          logicVoltageCounter := (c + 1) % 0x1_0000;
        } else if logicVoltageCounter > 0 {
          logicVoltageCounter := logicVoltageCounter - 1;
        }
        bad := logicVoltageCounter > LOW_VOLTAGE_LIMIT;
      }
    }

    method ResetErrors()
      modifies this`logicVoltageCounter, this`dampingCnt
      ensures Snapshot() == ResetError(old(Snapshot()))
    {
      if kind == Boom {
        logicVoltageCounter := 0;
      }
      if kind != Imu {
        dampingCnt := 0;
      }
    }

    method EnableOutputs()
      modifies this`armed
      ensures armed == (old(armed) || kind != Imu)
    {
      if kind != Imu {
        armed := true;
      }
    }

    /** update_outputs of the board's kind. */
    method UpdateMotors(i: Input)
      modifies this`applied
      ensures Snapshot() == UpdateOutputs(old(Snapshot()), i)
    {
      if kind == Leg || kind == Hip {
        applied := Drive(i.current);
      }
    }

    /** run_halt of the board's kind. */
    method HaltController() returns (on: bool)
      modifies this`dampingCnt, this`applied
      ensures (Snapshot(), on) == RunHalt(old(Snapshot()), EncoderChange(lastIncremental, incrementalEncoder))
    {
      if kind == Imu {
        return true;
      }
      var c: int := dampingCnt;
      dampingCnt := (c + 1) % 0x100;
      if kind == Leg {
        var diff: int := incrementalEncoder - lastIncremental;
        EncoderChangeIsCentred(lastIncremental, incrementalEncoder);
        RepairIsExact(diff + 0x8000, 0x1_0000);
        diff := RepairedRem(diff + 0x8000, 0x1_0000) - 0x8000;
        if -10 <= diff <= 10 {
          applied := Damp(0);
          return dampingCnt <= DAMPING_LIMIT;
        }
        diff := diff * DAMPING_FACTOR;
        if diff > DAMPING_CURRENT_LIMIT {
          diff := DAMPING_CURRENT_LIMIT;
        } else if diff < -DAMPING_CURRENT_LIMIT {
          diff := -DAMPING_CURRENT_LIMIT;
        }
        applied := Damp(diff);
        return true;
      }
      if dampingCnt > DAMPING_LIMIT {
        return false;
      }
      if kind == Hip {
        applied := Damp(0);
      }
      return true;
    }
  }
}
