/**
  The Controller Manager: commands of the GUI wait in a buffer while RT Ops owes an acknowledgement; events
  of RT Ops are dispatched one by one. The component's `updateHook` and one turn of the event manager's loop
  are the two handlers.
 */
module ControllerManager {
  import opened RtOps

  datatype CmState = NoControllerLoaded | Stopped | Running | EStopped

  datatype UserCommand = UserStop | UserRun | UserEStop | UserUnload | UserOther(code: int)

  /** A GUI message: a command, the controller it asks for, and whether that controller's start script works. */
  datatype Gui = Gui(command: UserCommand, request: Request)

  datatype Request = Request(name: string, starts: bool)

  datatype Script = StartScript | StopScript

  datatype Cm = Cm(
    state: CmState,
    loaded: bool,                 // controllerLoaded
    pending: bool,                // commandPending
    awaited: Event,               // eventBeingWaitedOn
    buffer: seq<UserCommand>,     // commandBuffer
    request: Request,             // of the newest GUI message, whatever command is being handled
    incoming: seq<Event>,         // incomingEvents
    sent: seq<RtState>,           // written to RT Ops so far
    scripts: seq<Script>,         // run successfully so far
    arrived: seq<UserCommand>,    // from the GUI so far
    handled: seq<UserCommand>)    // of these

  // ---------------------------------------------------------------------------------------------
  // What the handlers do

  /** Write a state to RT Ops and wait for its acknowledgement. */
  function Demand(c: Cm, state: RtState, ack: Event): Cm {
    c.(sent := c.sent + [state], awaited := ack, pending := true)
  }

  /** loadController, in the state without a controller. */
  function Loaded(c: Cm): Cm {
    if c.request.name != "" && c.request.name != "none" && c.request.starts
    then Demand(c, Disabled, AckDisable).(state := Stopped, scripts := c.scripts + [StartScript])
    else c
  }

  /** handleUserCommand */
  function Handled(c: Cm, command: UserCommand): Cm {
    match (c.state, command)
    case (NoControllerLoaded, UserStop) => Loaded(c)
    case (Stopped, UserRun) => c.(state := Running, sent := c.sent + [Enabled])
    case (Running, UserStop) => c.(state := Stopped, sent := c.sent + [Disabled])
    case (Running, UserEStop) => Demand(c, EStop, AckEStop).(state := EStopped)
    case (Stopped, UserUnload) => Demand(c, Resetting, AckReset)
    case (Running, UserUnload) => Demand(c, Resetting, AckReset)
    case (EStopped, UserUnload) => Demand(c, Resetting, AckReset)
    case _ => c
  }

  /** A successful tryProcessCommand. */
  function Taken(c: Cm): Cm
    requires c.buffer != []
  {
    Handled(c, c.buffer[0]).(buffer := c.buffer[1..], handled := c.handled + [c.buffer[0]])
  }

  /** tryProcessCommand until it fails. */
  function Processed(c: Cm): Cm
    decreases |c.buffer|
  {
    if c.pending || c.buffer == [] then c else Processed(Taken(c))
  }

  /** setState */
  function Entered(c: Cm, state: CmState, shouldReset: bool): Cm {
    var stops := state == NoControllerLoaded && c.loaded;
    c.(loaded := if state == Stopped then true else if stops then false else c.loaded,
       scripts := if stops then c.scripts + [StopScript] else c.scripts,
       state := if c.state != EStopped || shouldReset then state else c.state)
  }

  /** The state that an awaited event leads to. */
  function Acknowledged(c: Cm, event: Event): Cm {
    match event
    case AckDisable => Entered(c, Stopped, false)
    case AckEnable => Entered(c, Running, false)
    case AckEStop => Entered(c, EStopped, false)
    case AckNoController => Entered(c, NoControllerLoaded, false)
    case AckReset => Entered(c, NoControllerLoaded, true)
    case _ => c
  }

  /** One turn of the event manager's loop. */
  function Dispatched(c: Cm): Cm {
    if c.incoming == [] then c
    else
      var event := c.incoming[0];
      var d := c.(incoming := c.incoming[1..]);
      if event == MissedDeadline then d
      else if event == c.awaited then Processed(Acknowledged(d, event).(pending := false))
      else if event == CmCommandEStop || event == ControllerEStop || event == MedullaEStop then d.(state := EStopped)
      else d
  }

  function Commands(messages: seq<Gui>): (commands: seq<UserCommand>)
    ensures |commands| == |messages|
  {
    seq(|messages|, i requires 0 <= i < |messages| => messages[i].command)
  }

  function Queued(c: Cm, events: seq<Event>, messages: seq<Gui>): Cm {
    var commands := Commands(messages);
    c.(incoming := c.incoming + events,
       buffer := c.buffer + commands,
       arrived := c.arrived + commands,
       request := if messages == [] then c.request else messages[|messages| - 1].request)
  }

  /** updateHook: the new events and commands are queued, then commands are processed. */
  function Updated(c: Cm, events: seq<Event>, messages: seq<Gui>): Cm {
    Processed(Queued(c, events, messages))
  }

  datatype Handler = Update(events: seq<Event>, messages: seq<Gui>) | Dispatch

  function HandlerStep(c: Cm, a: Handler): Cm {
    match a
    case Update(events, messages) => Updated(c, events, messages)
    case Dispatch => Dispatched(c)
  }

  /** The constructors leave eventBeingWaitedOn as they find it. */
  function Start(awaited: Event): Cm {
    Cm(NoControllerLoaded, false, false, awaited, [], Request("", false), [], [], [], [], [])
  }

  // ---------------------------------------------------------------------------------------------
  // The component and its event manager

  class Manager {
    var state: CmState
    var controllerLoaded: bool
    var commandPending: bool
    var eventBeingWaitedOn: Event
    var commandBuffer: seq<UserCommand>
    var guiOutput: Request
    var incomingEvents: seq<Event>
    var rtOpsDataOut: seq<RtState>
    var scripts: seq<Script>
    var arrived: seq<UserCommand>
    var handled: seq<UserCommand>

    function Now(): Cm
      reads this
    {
      Cm(state, controllerLoaded, commandPending, eventBeingWaitedOn, commandBuffer, guiOutput, incomingEvents,
         rtOpsDataOut, scripts, arrived, handled)
    }

    constructor (awaited: Event)
      ensures Now() == Start(awaited)
    {
      state, controllerLoaded, commandPending, eventBeingWaitedOn := NoControllerLoaded, false, false, awaited;
      commandBuffer, guiOutput, incomingEvents := [], Request("", false), [];
      rtOpsDataOut, scripts, arrived, handled := [], [], [], [];
    }

    method SetEventWait(event: Event)
      modifies this`eventBeingWaitedOn, this`commandPending
      ensures eventBeingWaitedOn == event && commandPending
    {
      eventBeingWaitedOn := event;
      commandPending := true;
    }

    method WriteToRtOps(s: RtState)
      modifies this`rtOpsDataOut
      ensures rtOpsDataOut == old(rtOpsDataOut) + [s]
    {
      rtOpsDataOut := rtOpsDataOut + [s];
    }

    method LoadController(name: string, starts: bool)
      requires state == NoControllerLoaded && guiOutput == Request(name, starts)
      modifies this
      ensures Now() == Loaded(old(Now()))
    {
      if name != "" && name != "none" {
        if starts {
          scripts := scripts + [StartScript];
          state := Stopped;
          SetEventWait(AckDisable);
          WriteToRtOps(Disabled);
        }
      }
    }

    method UnloadController()
      modifies this
      ensures Now() == Demand(old(Now()), Resetting, AckReset)
    {
      SetEventWait(AckReset);
      WriteToRtOps(Resetting);
    }

    method ThrowEstop(alertRtOps: bool)
      modifies this
      ensures Now() == (if alertRtOps then Demand(old(Now()), EStop, AckEStop) else old(Now())).(state := EStopped)
    {
      state := EStopped;
      if alertRtOps {
        SetEventWait(AckEStop);
        WriteToRtOps(EStop);
      }
    }

    method HandleUserCommand(command: UserCommand)
      modifies this
      ensures Now() == Handled(old(Now()), command)
    {
      match state
      case NoControllerLoaded =>
        if command == UserStop {
          LoadController(guiOutput.name, guiOutput.starts);
        }
      case Stopped =>
        if command == UserRun {
          state := Running;
          WriteToRtOps(Enabled);
        } else if command == UserUnload {
          UnloadController();
        }
      case Running =>
        if command == UserStop {
          state := Stopped;
          WriteToRtOps(Disabled);
        } else if command == UserUnload {
          UnloadController();
        } else if command == UserEStop {
          ThrowEstop(true);
        }
      case EStopped =>
        if command == UserUnload {
          UnloadController();
        }
    }

    /** `while (tryProcessCommand());` */
    method ProcessCommands()
      modifies this
      ensures Now() == Processed(old(Now()))
    {
      hide Taken;
      var more := true;
      while more
        invariant Processed(Now()) == Processed(old(Now()))
        invariant !more ==> commandPending || commandBuffer == []
        decreases |commandBuffer|, more
      {
        more := TryProcessCommand();
      }
    }

    method TryProcessCommand() returns (done: bool)
      modifies this
      ensures done == (!old(commandPending) && old(commandBuffer) != [])
      ensures done ==> Now() == Taken(old(Now())) && |commandBuffer| < |old(commandBuffer)|
      ensures !done ==> Now() == old(Now())
    {
      if !commandPending && commandBuffer != [] {
        var command := commandBuffer[0];
        HandleUserCommand(command);
        handled := handled + [command];
        commandBuffer := commandBuffer[1..];
        return true;
      }
      return false;
    }

    method SetState(newState: CmState, shouldReset: bool)
      modifies this
      ensures Now() == Entered(old(Now()), newState, shouldReset)
    {
      if newState == Stopped {
        controllerLoaded := true;
      } else if newState == NoControllerLoaded {
        if controllerLoaded {
          scripts := scripts + [StopScript];
          controllerLoaded := false;
        }
      }
      if state != EStopped || shouldReset {
        state := newState;
      }
    }

    /** One turn of EventManager::loop. */
    method Turn()
      modifies this
      ensures Now() == Dispatched(old(Now()))
    {
      hide Entered, Processed;
      if incomingEvents == [] {
        return;
      }
      var event := incomingEvents[0];
      incomingEvents := incomingEvents[1..];
      if event == MissedDeadline {
        return;
      }
      if event == eventBeingWaitedOn {
        match event {
          case AckDisable => SetState(Stopped, false);
          case AckEnable => SetState(Running, false);
          case AckEStop => SetState(EStopped, false);
          case AckNoController => SetState(NoControllerLoaded, false);
          case AckReset => SetState(NoControllerLoaded, true);
          case _ =>
        }
        commandPending := false;
        ProcessCommands();
      } else {
        match event
        case CmCommandEStop => ThrowEstop(false);
        case ControllerEStop => ThrowEstop(false);
        case MedullaEStop => ThrowEstop(false);
        case _ =>
      }
    }

    method EventCallback(event: Event)
      modifies this`incomingEvents
      ensures incomingEvents == old(incomingEvents) + [event]
    {
      incomingEvents := incomingEvents + [event];
    }

    method UpdateHook(events: seq<Event>, messages: seq<Gui>)
      modifies this
      ensures Now() == Updated(old(Now()), events, messages)
    {
      hide Processed;
      var i := 0;
      while i < |events|
        modifies this`incomingEvents
        invariant 0 <= i <= |events| && incomingEvents == old(incomingEvents) + events[..i]
      {
        EventCallback(events[i]);
        i := i + 1;
      }
      assert events[..i] == events;
      var j := 0;
      while j < |messages|
        modifies this`commandBuffer, this`arrived, this`guiOutput
        invariant 0 <= j <= |messages|
        invariant commandBuffer == old(commandBuffer) + Commands(messages)[..j]
        invariant arrived == old(arrived) + Commands(messages)[..j]
        invariant guiOutput == if j == 0 then old(guiOutput) else messages[j - 1].request
      {
        guiOutput := messages[j].request;
        commandBuffer := commandBuffer + [messages[j].command];
        arrived := arrived + [messages[j].command];
        j := j + 1;
      }
      assert Commands(messages)[..j] == Commands(messages);
      ProcessCommands();
    }
  }
}
