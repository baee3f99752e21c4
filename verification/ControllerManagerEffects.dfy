/**
  What every command of the user and every event of RT Ops makes the Controller Manager do, in every run.
 */
module ControllerManagerEffects {
  import opened RtOps
  import opened ControllerManager
  import opened ControllerManagerRuns

  // ---------------------------------------------------------------------------------------------
  // One command

  /** The command at the front of the buffer is gone. */
  function Popped(c: Cm): Cm
    requires c.buffer != []
  {
    c.(buffer := c.buffer[1..], handled := c.handled + [c.buffer[0]])
  }

  /** What a command that is taken does; what is not listed does nothing. */
  lemma CommandEffects(c: Cm)
    requires c.buffer != []
    ensures var t, u, r := Popped(c), c.buffer[0], c.request;
            Taken(c)
            == if c.state == Running && u == UserEStop then
                 t.(state := EStopped, sent := c.sent + [EStop], awaited := AckEStop, pending := true)
               else if c.state == Running && u == UserStop then t.(state := Stopped, sent := c.sent + [Disabled])
               else if c.state == Stopped && u == UserRun then t.(state := Running, sent := c.sent + [Enabled])
               else if c.state != NoControllerLoaded && u == UserUnload then
                 t.(sent := c.sent + [Resetting], awaited := AckReset, pending := true)
               else if c.state == NoControllerLoaded && u == UserStop && r.name !in {"", "none"} && r.starts then
                 t.(state := Stopped, sent := c.sent + [Disabled], awaited := AckDisable, pending := true,
                    scripts := c.scripts + [StartScript])
               else t
  {
  }

  // ---------------------------------------------------------------------------------------------
  // One handler, up to its first command

  /** The events and messages that a handler starts from. */
  function Begun(c: Cm, a: Handler): Cm {
    match a
    case Update(events, messages) => Queued(c, events, messages)
    case Dispatch =>
      if c.incoming == [] then c
      else
        var e, d := c.incoming[0], c.(incoming := c.incoming[1..]);
        if e == MissedDeadline then d
        else if e == c.awaited then Acknowledged(d, e).(pending := false)
        else if e == CmCommandEStop || e == ControllerEStop || e == MedullaEStop then d.(state := EStopped)
        else d
  }

  /** An update appends what it reads to the queues, and keeps the request of the newest message. */
  lemma UpdateBegins(c: Cm, events: seq<Event>, messages: seq<Gui>)
    ensures var given := CommandsOf(messages);
            Begun(c, Update(events, messages))
            == c.(incoming := c.incoming + events, buffer := c.buffer + given, arrived := c.arrived + given,
                  request := if messages == [] then c.request else messages[|messages| - 1].request)
  {
    assert Commands(messages) == CommandsOf(messages);
  }

  /** With an e-stop only ACK_RESET changes the state. */
  function Unless(c: Cm, s: CmState): CmState {
    if c.state == EStopped then EStopped else s
  }

  /** What the event at the head of the queue does: awaited, it ends the waiting; an e-stop stops the manager. */
  lemma EventEffects(c: Cm)
    requires c.incoming != []
    ensures var e, d := c.incoming[0], c.(incoming := c.incoming[1..]);
            var unloaded := d.(pending := false, loaded := false,
                               scripts := c.scripts + if c.loaded then [StopScript] else []);
            Begun(c, Dispatch)
            == if e == c.awaited != MissedDeadline then
                 match e
                 case AckDisable => d.(pending := false, state := Unless(c, Stopped), loaded := true)
                 case AckEnable => d.(pending := false, state := Unless(c, Running))
                 case AckEStop => d.(pending := false, state := EStopped)
                 case AckNoController => unloaded.(state := Unless(c, NoControllerLoaded))
                 case AckReset => unloaded.(state := NoControllerLoaded)
                 case _ => d.(pending := false)
               else if e in {CmCommandEStop, ControllerEStop, MedullaEStop} then d.(state := EStopped)
               else d
  {
  }

  /** A handler is what it starts from and the commands that it then takes. */
  lemma HandlerTakes(c: Cm, a: Handler)
    requires c.pending || c.buffer == []
    ensures HandlerStep(c, a) == Processed(Begun(c, a))
  {
  }

  /** Taking commands one after the other leads from c to b. */
  predicate Leads(c: Cm, b: Cm)
    decreases |c.buffer|
  {
    c == b || (!c.pending && c.buffer != [] && Leads(Taken(c), b))
  }

  lemma {:induction false} LeadsOn(c: Cm, b: Cm)
    requires Leads(c, b)
    ensures Processed(c) == Processed(b)
    decreases |c.buffer|
  {
    if c != b {
      LeadsOn(Taken(c), b);
    }
  }

  /** In step k the manager, as b, takes a command. */
  predicate Takes(cs: seq<Cm>, actions: seq<Handler>, k: nat, b: Cm) {
    k < |actions| < |cs| && !b.pending && b.buffer != [] && Leads(Begun(cs[k], actions[k]), b)
  }

  lemma TakesOn(cs: seq<Cm>, actions: seq<Handler>, k: nat, b: Cm)
    requires IsRun(cs, actions) && Takes(cs, actions, k, b)
    ensures cs[k + 1] == Processed(Taken(b))
  {
    hide HandlerStep, Taken, Leads;
    CommandsAreFifo(cs, actions, k);
    assert Steps(cs, actions, k);
    HandlerTakes(cs[k], actions[k]);
    LeadsOn(Begun(cs[k], actions[k]), b);
    ProcessedMore(b);
  }

  /** Every command that a step handles is taken so. */
  lemma EveryCommandIsTaken(cs: seq<Cm>, actions: seq<Handler>, k: nat, h: nat) returns (b: Cm)
    requires IsRun(cs, actions) && k < |actions| && |cs[k].handled| <= h < |cs[k + 1].handled|
    ensures Takes(cs, actions, k, b) && b.handled == cs[k + 1].handled[..h] && b.buffer[0] == cs[k + 1].handled[h]
  {
    hide HandlerStep, Taken, Begun, Leads, Processed;
    CommandsAreFifo(cs, actions, k);
    assert Steps(cs, actions, k);
    HandlerTakes(cs[k], actions[k]);
    var c := Begun(cs[k], actions[k]);
    BegunHandles(cs[k], actions[k]);
    b := TakenAt(c, h);
  }

  lemma BegunHandles(c: Cm, a: Handler)
    ensures Begun(c, a).handled == c.handled
  {
  }

  lemma {:induction false} TakenAt(c: Cm, h: nat) returns (b: Cm)
    requires |c.handled| <= h < |Processed(c).handled|
    ensures Leads(c, b) && !b.pending && b.buffer != []
    ensures b.handled == Processed(c).handled[..h] && b.buffer[0] == Processed(c).handled[h]
    decreases |c.buffer|
  {
    hide Taken;
    CommandIsPopped(c);
    if |c.handled| == h {
      HandledGrow(Taken(c));
      b := c;
    } else {
      b := TakenAt(Taken(c), h);
    }
  }

  lemma CommandIsPopped(c: Cm)
    ensures c.buffer != [] ==> Taken(c).buffer == c.buffer[1..] && Taken(c).handled == c.handled + [c.buffer[0]]
  {
  }

  lemma {:induction false} HandledGrow(c: Cm)
    ensures c.handled <= Processed(c).handled
    decreases |c.buffer|
  {
    hide Taken;
    if !c.pending && c.buffer != [] {
      CommandIsPopped(c);
      HandledGrow(Taken(c));
    }
  }

  // ---------------------------------------------------------------------------------------------
  // What the user gets

  /** E_STOP while running: the step ends in the e-stopped state, having told RT Ops to stop, and waiting for its
      acknowledgement; nothing else comes after it in that step. */
  lemma EStopOfUser(cs: seq<Cm>, actions: seq<Handler>, k: nat, b: Cm)
    requires IsRun(cs, actions) && Takes(cs, actions, k, b) && b.state == Running && b.buffer[0] == UserEStop
    ensures cs[k + 1]
         == Popped(b).(state := EStopped, sent := b.sent + [EStop], awaited := AckEStop, pending := true)
  {
    hide Processed, Taken, Leads;
    TakesOn(cs, actions, k, b);
    CommandEffects(b);
    ProcessedNone(Taken(b));
  }

  /** UNLOAD with a controller: RT Ops is told to reset, and the acknowledgement is awaited. */
  lemma UnloadOfUser(cs: seq<Cm>, actions: seq<Handler>, k: nat, b: Cm)
    requires IsRun(cs, actions) && Takes(cs, actions, k, b)
    requires b.state != NoControllerLoaded && b.buffer[0] == UserUnload
    ensures cs[k + 1] == Popped(b).(sent := b.sent + [Resetting], awaited := AckReset, pending := true)
  {
    hide Processed, Taken, Leads;
    TakesOn(cs, actions, k, b);
    CommandEffects(b);
    ProcessedNone(Taken(b));
  }

  /** STOP while running: RT Ops is told to disable, whatever the step does afterwards. */
  lemma StopOfUser(cs: seq<Cm>, actions: seq<Handler>, k: nat, b: Cm)
    requires IsRun(cs, actions) && Takes(cs, actions, k, b) && b.state == Running && b.buffer[0] == UserStop
    ensures b.sent + [Disabled] <= cs[k + 1].sent
    ensures |b.buffer| == 1 ==> cs[k + 1] == Popped(b).(state := Stopped, sent := b.sent + [Disabled])
  {
    hide Processed, Taken, Leads;
    TakesOn(cs, actions, k, b);
    CommandEffects(b);
    SentGrows(Taken(b));
    if |b.buffer| == 1 {
      ProcessedNone(Taken(b));
    }
  }

  lemma SentGrows(c: Cm)
    ensures c.sent <= Processed(c).sent
  {
    hide Processed, Taken;
    var inv := (d: Cm) => c.sent <= d.sent;
    forall d: Cm | inv(d) && d.buffer != []
      ensures inv(Taken(d))
    {
      CommandEffects(d);
    }
    ProcessedKeeps(inv, c);
  }

  /** An e-stop of RT Ops that is dispatched stops the manager, unless the manager waits for that very event. */
  lemma EStopOfRtOps(cs: seq<Cm>, actions: seq<Handler>, k: nat)
    requires IsRun(cs, actions) && k < |actions| && actions[k].Dispatch? && cs[k].incoming != []
    requires cs[k].incoming[0] in {CmCommandEStop, ControllerEStop, MedullaEStop} && cs[k].incoming[0] != cs[k].awaited
    ensures cs[k + 1] == cs[k].(state := EStopped, incoming := cs[k].incoming[1..])
  {
    hide Processed;
    assert Steps(cs, actions, k);
  }

  // ---------------------------------------------------------------------------------------------
  // What arrives

  /** The commands that the GUI has sent in these actions, in order. */
  function Given(actions: seq<Handler>): seq<UserCommand> {
    if actions == [] then []
    else
      var n := |actions| - 1;
      Given(actions[..n]) + if actions[n].Update? then CommandsOf(actions[n].messages) else []
  }

  function CommandsOf(messages: seq<Gui>): (commands: seq<UserCommand>)
    ensures |commands| == |messages| && forall i :: 0 <= i < |messages| ==> commands[i] == messages[i].command
  {
    if messages == [] then [] else [messages[0].command] + CommandsOf(messages[1..])
  }

  /** Every command of the user is handled or waits, in the order in which they were given. */
  lemma {:induction false} CommandsArrive(cs: seq<Cm>, actions: seq<Handler>, n: nat)
    requires IsRun(cs, actions) && n <= |actions|
    ensures cs[n].handled + cs[n].buffer == Given(actions[..n])
  {
    hide HandlerStep;
    CommandsAreFifo(cs, actions, n);
    if n > 0 {
      CommandsArrive(cs, actions, n - 1);
      CommandsAreFifo(cs, actions, n - 1);
      assert Steps(cs, actions, n - 1);
      StepArrives(cs[n - 1], actions[n - 1]);
      assert actions[..n][..n - 1] == actions[..n - 1];
    }
  }

  lemma StepArrives(c: Cm, a: Handler)
    requires c.pending || c.buffer == []
    ensures HandlerStep(c, a).arrived == c.arrived + if a.Update? then CommandsOf(a.messages) else []
  {
    hide Processed, Taken;
    HandlerTakes(c, a);
    var b := Begun(c, a);
    var inv := (d: Cm) => d.arrived == b.arrived;
    forall d: Cm | inv(d) && d.buffer != []
      ensures inv(Taken(d))
    {
      CommandEffects(d);
    }
    ProcessedKeeps(inv, b);
    if a.Update? {
      UpdateBegins(c, a.events, a.messages);
    } else if c.incoming != [] {
      EventEffects(c);
    }
  }

  /** The events that were read and are not dispatched yet. */
  lemma EventsWait(c: Cm, a: Handler)
    requires c.pending || c.buffer == []
    ensures HandlerStep(c, a).incoming
         == if a.Update? then c.incoming + a.events else if c.incoming == [] then [] else c.incoming[1..]
  {
    hide Processed, Taken;
    HandlerTakes(c, a);
    var b := Begun(c, a);
    var inv := (d: Cm) => d.incoming == b.incoming;
    forall d: Cm | inv(d) && d.buffer != []
      ensures inv(Taken(d))
    {
      CommandEffects(d);
    }
    ProcessedKeeps(inv, b);
    if a.Dispatch? && c.incoming != [] {
      EventEffects(c);
    }
  }
}
