/**
  What holds in every run of the Controller Manager, whatever the GUI and RT Ops send and in which order.
 */
module ControllerManagerRuns {
  import opened RtOps
  import opened ControllerManager

  predicate Steps(cs: seq<Cm>, actions: seq<Handler>, k: nat) {
    k < |actions| < |cs| && cs[k + 1] == HandlerStep(cs[k], actions[k])
  }

  /** A run: the handler of action k turns cs[k] into cs[k + 1]. */
  predicate IsRun(cs: seq<Cm>, actions: seq<Handler>) {
    && |cs| == |actions| + 1
    && cs[0] == Start(cs[0].awaited)
    && forall k :: 0 <= k < |actions| ==> Steps(cs, actions, k)
  }

  /** What every command that is taken keeps, their processing keeps. */
  lemma {:induction false} ProcessedKeeps(inv: Cm -> bool, c: Cm)
    requires inv(c) && forall d: Cm :: inv(d) && !d.pending && d.buffer != [] ==> inv(Taken(d))
    ensures inv(Processed(c))
    decreases |c.buffer|
  {
    if !c.pending && c.buffer != [] {
      ProcessedKeeps(inv, Taken(c));
    }
  }

  /** What every step keeps holds throughout. */
  lemma {:induction false} Always(inv: Cm -> bool, cs: seq<Cm>, actions: seq<Handler>, n: nat)
    requires IsRun(cs, actions) && n <= |actions| && inv(cs[0])
    requires forall c: Cm, a :: inv(c) ==> inv(HandlerStep(c, a))
    ensures inv(cs[n])
  {
    hide HandlerStep;
    if n > 0 {
      Always(inv, cs, actions, n - 1);
      assert Steps(cs, actions, n - 1);
    }
  }

  // ---------------------------------------------------------------------------------------------
  // Commands

  predicate Fifo(c: Cm) {
    c.arrived == c.handled + c.buffer
  }

  lemma {:induction false} ProcessedKeepsFifo(c: Cm)
    requires Fifo(c)
    ensures var p := Processed(c);
            Fifo(p) && c.handled <= p.handled && p.arrived == c.arrived && (p.pending || p.buffer == [])
    ensures c.pending ==> Processed(c) == c
    decreases |c.buffer|
  {
    if !c.pending && c.buffer != [] {
      var h := Taken(c);
      assert c.handled + c.buffer == h.handled + h.buffer;
      ProcessedKeepsFifo(h);
    }
  }

  lemma StepKeepsFifo(c: Cm, a: Handler)
    requires Fifo(c) && (c.pending || c.buffer == [])
    ensures var t := HandlerStep(c, a);
            && Fifo(t) && (t.pending || t.buffer == [])
            && c.handled <= t.handled && c.arrived <= t.arrived
            && (c.pending && !(a.Dispatch? && c.incoming != [] && c.incoming[0] == c.awaited) ==>
                  t.pending && t.handled == c.handled)
  {
    hide Processed, Handled, Entered;
    match a
    case Update(events, messages) =>
      ProcessedKeepsFifo(Queued(c, events, messages));
    case Dispatch =>
      if c.incoming != [] {
        EnteredKeeps(c);
        ProcessedKeepsFifo(Acknowledged(c.(incoming := c.incoming[1..]), c.incoming[0]).(pending := false));
      }
  }

  lemma EnteredKeeps(c: Cm)
    ensures forall d: Cm, s, reset :: Entered(d, s, reset).handled == d.handled && Entered(d, s, reset).arrived == d.arrived
                                      && Entered(d, s, reset).buffer == d.buffer
  {
  }

  /** User commands are handled in the order of their arrival, each once: those handled are a prefix of those
      that arrived, the rest is the buffer, and it waits only while an acknowledgement is pending. */
  lemma {:induction false} CommandsAreFifo(cs: seq<Cm>, actions: seq<Handler>, n: nat)
    requires IsRun(cs, actions) && n <= |actions|
    ensures cs[n].arrived == cs[n].handled + cs[n].buffer
    ensures cs[n].pending || cs[n].buffer == []
    ensures forall m :: 0 <= m <= n ==> cs[m].handled <= cs[n].handled
  {
    hide HandlerStep;
    if n > 0 {
      CommandsAreFifo(cs, actions, n - 1);
      assert Steps(cs, actions, n - 1);
      StepKeepsFifo(cs[n - 1], actions[n - 1]);
      forall m | 0 <= m < n
        ensures cs[m].handled <= cs[n].handled
      {
        assert cs[m].handled <= cs[n - 1].handled;
      }
    }
  }

  /** Nothing is handled while an acknowledgement is pending, until the awaited event is dispatched. */
  lemma PendingBlocks(cs: seq<Cm>, actions: seq<Handler>, k: nat)
    requires IsRun(cs, actions) && k < |actions| && cs[k].pending
    requires !(actions[k].Dispatch? && cs[k].incoming != [] && cs[k].incoming[0] == cs[k].awaited)
    ensures cs[k + 1].pending && cs[k + 1].handled == cs[k].handled
  {
    hide HandlerStep;
    CommandsAreFifo(cs, actions, k);
    assert Steps(cs, actions, k);
    StepKeepsFifo(cs[k], actions[k]);
  }

  // ---------------------------------------------------------------------------------------------
  // E-stop

  /** The e-stopped state is left only when an awaited ACK_RESET is dispatched. */
  lemma LeavesEStopped(cs: seq<Cm>, actions: seq<Handler>, k: nat)
    requires IsRun(cs, actions) && k < |actions|
    requires cs[k].state == EStopped && cs[k + 1].state != EStopped
    ensures actions[k].Dispatch? && cs[k].incoming != [] && cs[k].incoming[0] == cs[k].awaited == AckReset
  {
    hide Processed;
    assert Steps(cs, actions, k);
    var c := cs[k];
    match actions[k]
    case Update(events, messages) =>
      ProcessedKeeps((d: Cm) => d.state == EStopped, Queued(c, events, messages));
    case Dispatch =>
      if c.incoming != [] && c.incoming[0] == c.awaited && c.awaited != AckReset {
        ProcessedKeeps((d: Cm) => d.state == EStopped,
                       Acknowledged(c.(incoming := c.incoming[1..]), c.incoming[0]).(pending := false));
      }
  }

  // ---------------------------------------------------------------------------------------------
  // Scripts

  /** Start, stop, start, stop and so on. */
  predicate Alternates(s: seq<Script>) {
    forall i :: 0 <= i < |s| ==> s[i] == if i % 2 == 0 then StartScript else StopScript
  }

  /** The last script started a controller. */
  predicate Open(s: seq<Script>) {
    |s| % 2 == 1
  }

  predicate ScriptSound(c: Cm) {
    && Alternates(c.scripts)
    && (c.loaded || c.awaited == AckDisable ==> Open(c.scripts))
    && (Open(c.scripts) ==> c.loaded || (c.pending && c.awaited == AckDisable))
    && (c.state == NoControllerLoaded ==> !Open(c.scripts))
  }

  lemma TakenKeepsScripts(c: Cm)
    requires ScriptSound(c) && !c.pending && c.buffer != []
    ensures ScriptSound(Taken(c))
  {
  }

  lemma QueuesKeepScripts(c: Cm, d: Cm)
    requires d == c.(incoming := d.incoming)
    ensures ScriptSound(c) ==> ScriptSound(d)
  {
  }

  lemma AcknowledgedKeepsScripts(c: Cm, event: Event)
    requires ScriptSound(c) && event == c.awaited
    ensures ScriptSound(Acknowledged(c, event).(pending := false))
  {
  }

  lemma StepKeepsScripts(c: Cm, a: Handler)
    requires ScriptSound(c)
    ensures ScriptSound(HandlerStep(c, a))
  {
    hide Processed, Acknowledged, Alternates, Taken;
    forall d: Cm | ScriptSound(d) && !d.pending && d.buffer != []
      ensures ScriptSound(Taken(d))
    {
      TakenKeepsScripts(d);
    }
    match a
    case Update(events, messages) =>
      ProcessedKeeps(d => ScriptSound(d), Queued(c, events, messages));
    case Dispatch =>
      if c.incoming != [] && c.incoming[0] == c.awaited {
        var d := c.(incoming := c.incoming[1..]);
        AcknowledgedKeepsScripts(d, c.awaited);
        ProcessedKeeps(d => ScriptSound(d), Acknowledged(d, c.awaited).(pending := false));
      }
  }

  /** Start and stop scripts strictly alternate, if RT Ops acknowledges only what it was told. The event awaited
      at first, which nothing initialises, may then be any; if it is not ACK_DISABLE, the events may be any. */
  lemma ScriptsAlternate(cs: seq<Cm>, actions: seq<Handler>, n: nat)
    requires IsRun(cs, actions) && n <= |actions|
    requires Solicited(cs, actions) || cs[0].awaited != AckDisable
    ensures Alternates(cs[n].scripts)
  {
    hide HandlerStep, Alternates, Answers;
    NoScripts();
    if cs[0].awaited != AckDisable {
      forall c: Cm, a | ScriptSound(c)
        ensures ScriptSound(HandlerStep(c, a))
      {
        StepKeepsScripts(c, a);
      }
      Always(c => ScriptSound(c), cs, actions, n);
    } else {
      AlwaysSettled(cs, actions, n);
    }
  }

  lemma NoScripts()
    ensures Alternates([])
  {
  }

  ghost predicate AlwaysAlternates(awaited: Event) {
    forall cs: seq<Cm>, actions: seq<Handler> ::
      IsRun(cs, actions) && cs[0].awaited == awaited ==> Alternates(cs[|actions|].scripts)
  }

  /** With events that nobody asked for, the scripts alternate in all runs exactly if the event awaited at first
      is not ACK_DISABLE. */
  lemma AlternationExact(awaited: Event)
    ensures AlwaysAlternates(awaited) <==> awaited != AckDisable
  {
    hide HandlerStep, Alternates;
    if awaited != AckDisable {
      forall cs: seq<Cm>, actions: seq<Handler> | IsRun(cs, actions) && cs[0].awaited == awaited
        ensures Alternates(cs[|actions|].scripts)
      {
        ScriptsAlternate(cs, actions, |actions|);
      }
    } else {
      StopBeforeStart();
    }
  }

  lemma NoStopFirst()
    ensures !Alternates([StopScript])
  {
    assert [StopScript][0] == StopScript;
  }

  /** In some run the first script is the stop script. */
  lemma StopBeforeStart()
    ensures !AlwaysAlternates(AckDisable)
  {
    hide HandlerStep, Alternates;
    var a := Update([AckDisable], []);
    var b, d := Update([], [Gui(UserUnload, Request("", false))]), Update([AckReset], []);
    var c0 := Start(AckDisable);
    var c1 := HandlerStep(c0, a);
    var c2 := HandlerStep(c1, Dispatch);
    var c3 := HandlerStep(c2, b);
    var c4 := HandlerStep(c3, d);
    var c5 := HandlerStep(c4, Dispatch);
    LateAck(c0, a);
    Unloads(c2, b, d);
    var cs, actions := [c0, c1, c2, c3, c4, c5], [a, Dispatch, b, d, Dispatch];
    assert Steps(cs, actions, 0) && Steps(cs, actions, 1) && Steps(cs, actions, 2) && Steps(cs, actions, 3)
           && Steps(cs, actions, 4);
    assert IsRun(cs, actions) && cs[|actions|].scripts == [StopScript];
    NoStopFirst();
  }

  /** ACK_DISABLE, awaited but out of nothing, makes the Controller Manager believe in a controller. */
  lemma LateAck(c: Cm, a: Handler)
    requires a == Update([AckDisable], []) && c.awaited == AckDisable && c.buffer == [] && c.incoming == []
    requires c.state != EStopped && !c.pending
    ensures HandlerStep(HandlerStep(c, a), Dispatch) == c.(state := Stopped, loaded := true)
  {
    assert Queued(c, a.events, a.messages) == c.(incoming := [AckDisable]);
    assert [AckDisable][1..] == [];
  }

  lemma Unloads(c: Cm, b: Handler, d: Handler)
    requires b.Update? && b.events == [] && |b.messages| == 1 && b.messages[0].command == UserUnload
    requires d == Update([AckReset], [])
    requires c.state == Stopped && c.loaded && !c.pending && c.buffer == [] && c.incoming == []
    ensures HandlerStep(HandlerStep(HandlerStep(c, b), d), Dispatch).scripts == c.scripts + [StopScript]
  {
    hide Processed;
    var q := Queued(c, b.events, b.messages);
    assert q.buffer == [UserUnload] && q.incoming == [];
    ProcessedOne(q);
    var t := Taken(q);
    EventsArrive(t, d);
    var u := HandlerStep(t, d);
    ProcessedNone(Acknowledged(u.(incoming := u.incoming[1..]), AckReset).(pending := false));
  }

  /** With nothing to process, an update without messages only queues its events. */
  lemma EventsArrive(c: Cm, a: Handler)
    requires a.Update? && a.messages == [] && (c.pending || c.buffer == [])
    ensures HandlerStep(c, a) == c.(incoming := c.incoming + a.events)
  {
    hide Processed;
    assert Commands([]) == [];
    assert c.buffer + [] == c.buffer && c.arrived + [] == c.arrived;
    ProcessedNone(Queued(c, a.events, []));
  }

  lemma ProcessedOne(c: Cm)
    requires !c.pending && |c.buffer| == 1
    ensures Processed(c) == Taken(c)
  {
    var t := Taken(c);
    assert t.buffer == [];
    assert Processed(t) == t;
  }

  lemma ProcessedMore(c: Cm)
    requires !c.pending && c.buffer != []
    ensures Processed(c) == Processed(Taken(c))
  {
  }

  lemma ProcessedNone(c: Cm)
    requires c.pending || c.buffer == []
    ensures Processed(c) == c
  {
  }

  // ---------------------------------------------------------------------------------------------
  // What RT Ops was told last

  predicate ToldLast(c: Cm, s: RtState) {
    c.sent != [] && c.sent[|c.sent| - 1] == s
  }

  predicate ToldSound(c: Cm) {
    && c.awaited != AckEnable
    && (c.state == Stopped || c.state == Running ==> c.awaited == AckDisable || (c.awaited == AckReset && c.pending))
    && (c.state == Running ==> if c.pending then c.awaited == AckReset && ToldLast(c, Resetting)
                               else c.awaited == AckDisable && ToldLast(c, Enabled))
    && (c.awaited == AckReset ==> c.sent == [] || ToldLast(c, Resetting))
    && (c.awaited == AckDisable && c.sent == [] ==> c.state != Running)
  }

  lemma HandledKeepsTold(c: Cm, command: UserCommand)
    requires ToldSound(c) && !c.pending
    ensures ToldSound(Handled(c, command)) && (InStep(c) ==> InStep(Handled(c, command)))
  {
  }

  lemma TakenKeepsTold(c: Cm)
    requires ToldSound(c) && !c.pending && c.buffer != []
    ensures ToldSound(Taken(c)) && (InStep(c) ==> InStep(Taken(c)))
  {
    hide Handled;
    HandledKeepsTold(c, c.buffer[0]);
  }

  /** The Controller Manager does not believe the robot stopped when RT Ops was told last to enable it. */
  predicate InStep(c: Cm) {
    c.state == Stopped || c.state == NoControllerLoaded ==> !ToldLast(c, Enabled)
  }

  lemma StepKeepsTold(c: Cm, a: Handler)
    requires ToldSound(c)
    ensures ToldSound(HandlerStep(c, a))
    ensures InStep(c) && !StaleAck(c, a) ==> InStep(HandlerStep(c, a))
  {
    hide Processed, Taken, Acknowledged, ToldSound, InStep;
    var kept := InStep(c) && !StaleAck(c, a);
    var inv := (d: Cm) => ToldSound(d) && (kept ==> InStep(d));
    forall d: Cm | inv(d) && !d.pending && d.buffer != []
      ensures inv(Taken(d))
    {
      TakenKeepsTold(d);
    }
    match a
    case Update(events, messages) =>
      QueuesKeepTold(c, Queued(c, events, messages));
      ProcessedKeeps(inv, Queued(c, events, messages));
    case Dispatch =>
      if c.incoming != [] {
        QueuesKeepTold(c, c.(incoming := c.incoming[1..]));
      }
      if c.incoming != [] && c.incoming[0] == c.awaited {
        AcknowledgedKeepsTold(c);
        ProcessedKeeps(inv, Acknowledged(c.(incoming := c.incoming[1..]), c.awaited).(pending := false));
      }
  }

  lemma QueuesKeepTold(c: Cm, d: Cm)
    requires d == c.(incoming := d.incoming, buffer := d.buffer, arrived := d.arrived, request := d.request)
    ensures ToldSound(c) ==> ToldSound(d) && ToldSound(d.(state := EStopped))
    ensures InStep(d.(state := EStopped)) && (InStep(c) ==> InStep(d))
  {
  }

  lemma AcknowledgedKeepsTold(c: Cm)
    requires ToldSound(c) && c.incoming != [] && c.incoming[0] == c.awaited
    ensures var t := Acknowledged(c.(incoming := c.incoming[1..]), c.awaited).(pending := false);
            ToldSound(t) && (InStep(c) && !StaleAck(c, Dispatch) ==> InStep(t))
  {
  }

  /** An ACK_DISABLE is dispatched while the controller runs: the acknowledgement of an earlier stop. */
  predicate StaleAck(c: Cm, a: Handler) {
    a.Dispatch? && c.incoming != [] && c.incoming[0] == AckDisable && c.state == Running && !c.pending
  }

  // ---------------------------------------------------------------------------------------------
  // Acknowledgements that were asked for

  /** RT Ops sends ACK_DISABLE and ACK_ENABLE to answer commands only, and so not before the first one. */
  predicate Answers(c: Cm, a: Handler) {
    a.Update? && (AckDisable in a.events || AckEnable in a.events) ==> c.sent != []
  }

  predicate Solicited(cs: seq<Cm>, actions: seq<Handler>) {
    |actions| < |cs| && forall k :: 0 <= k < |actions| ==> Answers(cs[k], actions[k])
  }

  /** Before the first command nothing that the awaited event is by chance does any harm. */
  predicate Fresh(c: Cm) {
    && (c.state == NoControllerLoaded || c.state == EStopped) && !c.loaded && !c.pending && c.scripts == []
    && AckDisable !in c.incoming && AckEnable !in c.incoming
  }

  predicate Settled(c: Cm) {
    if c.sent == [] then Fresh(c) else ScriptSound(c) && ToldSound(c)
  }

  lemma HandledKeepsSettled(c: Cm, command: UserCommand)
    requires Settled(c) && !c.pending
    ensures var t := Handled(c, command);
            Settled(t) && c.sent <= t.sent && (InStep(c) ==> InStep(t))
  {
    if c.sent != [] {
      HandledKeepsTold(c, command);
    }
  }

  lemma TakenKeepsSettled(c: Cm)
    requires Settled(c) && !c.pending && c.buffer != []
    ensures var t := Taken(c);
            Settled(t) && c.sent <= t.sent && (InStep(c) ==> InStep(t))
  {
    hide Handled, ScriptSound, ToldSound;
    HandledKeepsSettled(c, c.buffer[0]);
    SettledIgnoresQueues(Handled(c, c.buffer[0]), Taken(c));
  }

  lemma SettledIgnoresQueues(c: Cm, d: Cm)
    requires Settled(c) && d == c.(buffer := d.buffer, handled := d.handled, arrived := d.arrived, request := d.request)
    ensures Settled(d)
  {
  }

  lemma StepKeepsSettled(c: Cm, a: Handler)
    requires Settled(c) && Answers(c, a)
    ensures var t := HandlerStep(c, a);
            Settled(t) && c.sent <= t.sent && (InStep(c) && !StaleAck(c, a) ==> InStep(t))
  {
    hide Processed, Taken, ScriptSound, ToldSound;
    var kept := InStep(c) && !StaleAck(c, a);
    var inv := (d: Cm) => Settled(d) && c.sent <= d.sent && (kept ==> InStep(d));
    forall d: Cm | inv(d) && !d.pending && d.buffer != []
      ensures inv(Taken(d))
    {
      TakenKeepsSettled(d);
    }
    match a
    case Update(events, messages) =>
      QueuedKeepsSettled(c, events, messages);
      ProcessedKeeps(inv, Queued(c, events, messages));
    case Dispatch =>
      if c.incoming != [] {
        var d := c.(incoming := c.incoming[1..]);
        DroppedKeepsSettled(c, d);
        if c.incoming[0] == c.awaited {
          AcknowledgedKeepsSettled(c);
          ProcessedKeeps(inv, Acknowledged(d, c.awaited).(pending := false));
        }
      }
  }

  lemma QueuedKeepsSettled(c: Cm, events: seq<Event>, messages: seq<Gui>)
    requires Settled(c) && Answers(c, Update(events, messages))
    ensures Settled(Queued(c, events, messages)) && Queued(c, events, messages).sent == c.sent
  {
  }

  lemma DroppedKeepsSettled(c: Cm, d: Cm)
    requires Settled(c) && c.incoming != [] && d == c.(incoming := c.incoming[1..])
    ensures Settled(d) && Settled(d.(state := EStopped)) && InStep(d.(state := EStopped))
  {
    assert forall e :: e in d.incoming ==> e in c.incoming;
  }

  lemma AcknowledgedKeepsSettled(c: Cm)
    requires Settled(c) && c.incoming != [] && c.incoming[0] == c.awaited
    ensures var t := Acknowledged(c.(incoming := c.incoming[1..]), c.awaited).(pending := false);
            Settled(t) && t.sent == c.sent && (InStep(c) && !StaleAck(c, Dispatch) ==> InStep(t))
  {
    hide ScriptSound, ToldSound;
    assert c.incoming[0] in c.incoming && forall e :: e in c.incoming[1..] ==> e in c.incoming;
    if c.sent != [] {
      QueuesKeepScripts(c, c.(incoming := c.incoming[1..]));
      AcknowledgedKeepsScripts(c.(incoming := c.incoming[1..]), c.awaited);
      AcknowledgedKeepsTold(c);
    }
  }

  /** So the manager's knowledge is sound whatever event it awaits at first. */
  lemma {:induction false} AlwaysSettled(cs: seq<Cm>, actions: seq<Handler>, n: nat)
    requires IsRun(cs, actions) && n <= |actions| && Solicited(cs, actions)
    ensures Settled(cs[n])
  {
    hide HandlerStep, Answers;
    if n > 0 {
      AlwaysSettled(cs, actions, n - 1);
      assert Steps(cs, actions, n - 1);
      StepKeepsSettled(cs[n - 1], actions[n - 1]);
    }
  }

  /** While the Controller Manager says running, RT Ops was told last to enable, or to reset as the user asked. */
  lemma RunningIsTold(cs: seq<Cm>, actions: seq<Handler>, n: nat)
    requires IsRun(cs, actions) && n <= |actions| && cs[n].state == Running
    requires Solicited(cs, actions) || cs[0].awaited != AckEnable
    ensures if cs[n].pending then ToldLast(cs[n], Resetting) else ToldLast(cs[n], Enabled)
  {
    hide HandlerStep, Answers;
    if cs[0].awaited != AckEnable {
      forall c: Cm, a | ToldSound(c)
        ensures ToldSound(HandlerStep(c, a))
      {
        StepKeepsTold(c, a);
      }
      Always(c => ToldSound(c), cs, actions, n);
    } else {
      AlwaysSettled(cs, actions, n);
    }
  }

  /** The converse fails at exactly one kind of step: a Controller Manager that is in step with RT Ops falls out
      of step if and only if it dispatches an ACK_DISABLE while running. The event awaited is never cleared. */
  lemma FallsOutOfStepExactly(cs: seq<Cm>, actions: seq<Handler>, k: nat)
    requires IsRun(cs, actions) && k < |actions| && InStep(cs[k])
    requires Solicited(cs, actions) || cs[0].awaited != AckEnable
    ensures InStep(cs[k + 1]) <==> !StaleAck(cs[k], actions[k])
  {
    hide HandlerStep, Answers;
    CommandsAreFifo(cs, actions, k);
    assert Steps(cs, actions, k);
    if cs[0].awaited != AckEnable {
      forall c: Cm, a | ToldSound(c)
        ensures ToldSound(HandlerStep(c, a))
      {
        StepKeepsTold(c, a);
      }
      Always(c => ToldSound(c), cs, actions, k);
      StepKeepsTold(cs[k], actions[k]);
    } else {
      AlwaysSettled(cs, actions, k);
      StepKeepsSettled(cs[k], actions[k]);
    }
    if StaleAck(cs[k], actions[k]) {
      Stale(cs[k], actions[k]);
    }
  }

  lemma Stale(c: Cm, a: Handler)
    requires StaleAck(c, a) && c.buffer == [] && c.awaited == AckDisable && ToldLast(c, Enabled)
    ensures HandlerStep(c, a).state == Stopped && HandlerStep(c, a).sent == c.sent
  {
    hide Processed;
    ProcessedNone(Acknowledged(c.(incoming := c.incoming[1..]), AckDisable).(pending := false));
  }

  /** Out of step, stopped, the user's STOP and E_STOP no longer reach RT Ops. */
  lemma {:induction false} StopIsIgnored(c: Cm)
    requires c.state == Stopped || c.state == EStopped
    requires forall u :: u in c.buffer ==> u != UserRun && u != UserUnload
    ensures Processed(c) == if c.pending then c else c.(buffer := [], handled := c.handled + c.buffer)
    decreases |c.buffer|
  {
    hide Handled;
    if !c.pending && c.buffer != [] {
      assert c.buffer[0] in c.buffer && forall u :: u in c.buffer[1..] ==> u in c.buffer;
      assert c.buffer == [c.buffer[0]] + c.buffer[1..];
      Dropped(c, c.buffer[0]);
      StopIsIgnored(Taken(c));
    }
  }

  lemma Dropped(c: Cm, command: UserCommand)
    requires (c.state == Stopped || c.state == EStopped) && command != UserRun && command != UserUnload
    ensures Handled(c, command) == c
  {
  }

  // ---------------------------------------------------------------------------------------------
  // Falling out of step

  function LoadedBy(c: Cm, request: Request): Cm {
    c.(state := Stopped, pending := true, awaited := AckDisable, request := request,
       sent := c.sent + [Disabled], scripts := c.scripts + [StartScript],
       arrived := c.arrived + [UserStop], handled := c.handled + [UserStop])
  }

  /** The first load of a controller: STOP makes the manager run the start script and disable RT Ops. */
  lemma Loads(c: Cm, request: Request)
    requires c.state == NoControllerLoaded && !c.pending && c.buffer == []
    requires request.starts && request.name != "" && request.name != "none"
    ensures HandlerStep(c, Update([], [Gui(UserStop, request)])) == LoadedBy(c, request)
  {
    hide Processed;
    var q := Queued(c, [], [Gui(UserStop, request)]);
    assert q.buffer == [UserStop] && q.incoming == c.incoming;
    ProcessedOne(q);
  }

  /** An awaited ACK_DISABLE at the head of the queue. */
  lemma Disables(c: Cm)
    requires c.incoming != [] && c.incoming[0] == AckDisable == c.awaited && c.buffer == [] && c.state != EStopped
    ensures HandlerStep(c, Dispatch)
         == c.(incoming := c.incoming[1..], state := Stopped, loaded := true, pending := false)
  {
    hide Processed;
    ProcessedNone(Acknowledged(c.(incoming := c.incoming[1..]), AckDisable).(pending := false));
  }

  function Restarted(c: Cm, request: Request): Cm {
    var commands := [UserRun, UserStop, UserRun];
    c.(state := Running, request := request, sent := c.sent + [Enabled, Disabled, Enabled],
       arrived := c.arrived + commands, handled := c.handled + commands)
  }

  /** RUN, STOP and RUN in one update. */
  lemma RunsStopsRuns(c: Cm, request: Request)
    requires c.state == Stopped && !c.pending && c.buffer == []
    ensures HandlerStep(c, Update([], [Gui(UserRun, request), Gui(UserStop, request), Gui(UserRun, request)]))
         == Restarted(c, request)
  {
    hide Processed;
    var q := Queued(c, [], [Gui(UserRun, request), Gui(UserStop, request), Gui(UserRun, request)]);
    assert q.buffer == [UserRun, UserStop, UserRun] && q.incoming == c.incoming;
    var t1 := Taken(q);
    var t2 := Taken(t1);
    assert t1.state == Running && t1.buffer == [UserStop, UserRun] && t1.sent == c.sent + [Enabled];
    assert t2.state == Stopped && t2.buffer == [UserRun] && t2.sent == c.sent + [Enabled] + [Disabled];
    ProcessedMore(q);
    ProcessedMore(t1);
    ProcessedOne(t2);
  }

  /** Every acknowledgement comes after its command, and still: a user who presses RUN, STOP and RUN quickly falls
      out of step when the answer to the STOP arrives. The controller is any that can be started. */
  lemma QuickRestart(name: string, awaited: Event) returns (cs: seq<Cm>, actions: seq<Handler>)
    requires name != "" && name != "none"
    ensures IsRun(cs, actions) && cs[0].awaited == awaited && Solicited(cs, actions)
    ensures cs[|actions|].sent == [Disabled, Enabled, Disabled, Enabled]
    ensures cs[|actions|].state == Stopped && !InStep(cs[|actions|])
  {
    hide HandlerStep;
    var r := Request(name, true);
    var stop, ack := Update([], [Gui(UserStop, r)]), Update([AckDisable], []);
    var run, acks := Update([], [Gui(UserRun, r), Gui(UserStop, r), Gui(UserRun, r)]),
                     Update([AckEnable, AckDisable, AckEnable], []);
    var c0 := Start(awaited);
    var c1 := HandlerStep(c0, stop);
    var c2 := HandlerStep(c1, ack);
    var c3 := HandlerStep(c2, Dispatch);
    var c4 := HandlerStep(c3, run);
    var c5 := HandlerStep(c4, acks);
    var c6 := HandlerStep(c5, Dispatch);
    var c7 := HandlerStep(c6, Dispatch);
    Loads(c0, r);
    EventsArrive(c1, ack);
    Disables(c2);
    RunsStopsRuns(c3, r);
    EventsArrive(c4, acks);
    Skips(c5);
    Disables(c6);
    cs, actions := [c0, c1, c2, c3, c4, c5, c6, c7], [stop, ack, Dispatch, run, acks, Dispatch, Dispatch];
    assert Steps(cs, actions, 0) && Steps(cs, actions, 1) && Steps(cs, actions, 2) && Steps(cs, actions, 3)
           && Steps(cs, actions, 4) && Steps(cs, actions, 5) && Steps(cs, actions, 6);
  }

  /** An event that is not awaited and no e-stop is dropped. */
  lemma Skips(c: Cm)
    requires c.incoming != [] && c.incoming[0] == AckEnable != c.awaited
    ensures HandlerStep(c, Dispatch) == c.(incoming := c.incoming[1..])
  {
  }
}
