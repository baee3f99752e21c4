/**
  What sets the state of RT Ops, over all interleavings: the controller's error, a current that is no number, a
  Medulla's error, and the commands of the Controller Manager.
 */
module RtOpsEffects {
  import M = Medulla
  import opened RtOps
  import opened RtOpsRuns
  import Resets = RtOpsResets

  // ---------------------------------------------------------------------------------------------
  // What a thread has to do it does

  datatype Thread = Loop | Cm | Ecat

  function Pending(o: Ops, t: Thread): seq<Op> {
    match t
    case Loop => o.callOps
    case Cm => o.cmOps
    case Ecat => o.ecatOps
  }

  lemma PendingStep(o: Ops, a: Action, t: Thread)
    requires Pending(o, t) != []
    ensures var p, next := Pending(o, t), Step(o, a);
            Pending(next, t) == p || (Pending(next, t) == p[1..] && next.shared == Do(o.shared, p[0]))
  {
  }

  /** What is pending at i and not any more at n has been done by some step w. */
  lemma {:induction false} Carried(os: seq<Ops>, actions: seq<Action>, t: Thread, i: nat, n: nat, op: Op) returns (w: nat)
    requires IsRun(os, actions) && i <= n <= |actions| && op in Pending(os[i], t) && op !in Pending(os[n], t)
    ensures i <= w < n && os[w + 1].shared == Do(os[w].shared, op)
    decreases n - i
  {
    hide Step, Do;
    assert Steps(os, actions, i);
    PendingStep(os[i], actions[i], t);
    var p := Pending(os[i], t);
    assert p == [p[0]] + p[1..];
    if op in Pending(os[i + 1], t) {
      w := Carried(os, actions, t, i + 1, n, op);
    } else {
      w := i;
    }
  }

  /** The events sent between i and n. */
  function Since(os: seq<Ops>, i: nat, n: nat): seq<Event> {
    if i <= n < |os| && os[i].shared.events <= os[n].shared.events then os[n].shared.events[|os[i].shared.events|..] else []
  }

  lemma EventsGrow(os: seq<Ops>, actions: seq<Action>, i: nat, n: nat)
    requires IsRun(os, actions) && i <= n <= |actions|
    ensures os[i].shared.events <= os[n].shared.events
  {
    hide Step;
    Resets.RunFrom(os, actions, i, n);
    Resets.EventsGrowOn(os[i], actions[i..n]);
  }

  lemma Sent(os: seq<Ops>, actions: seq<Action>, t: Thread, i: nat, n: nat, e: Event)
    requires IsRun(os, actions) && i <= n <= |actions| && Send(e) in Pending(os[i], t) && Pending(os[n], t) == []
    ensures e in Since(os, i, n)
  {
    hide Step, IsRun;
    RunLength(os, actions);
    var w := Carried(os, actions, t, i, n, Send(e));
    EventsGrow(os, actions, i, w);
    EventsGrow(os, actions, w, w + 1);
    EventsGrow(os, actions, w + 1, n);
    EventsGrow(os, actions, i, n);
    assert os[n].shared.events[|os[w].shared.events|] == e;
  }

  lemma RunLength(os: seq<Ops>, actions: seq<Action>)
    requires IsRun(os, actions)
    ensures |os| == |actions| + 1
  {
  }

  // ---------------------------------------------------------------------------------------------
  // What stops the robot

  /** Between i and n the state becomes e-stop, and the event that says why is sent. */
  predicate StopsFor(os: seq<Ops>, i: nat, n: nat, e: Event) {
    e in Since(os, i, n) && exists j :: i < j <= n && os[j].shared.current == EStop
  }

  lemma StopIsCarried(os: seq<Ops>, actions: seq<Action>, t: Thread, i: nat, n: nat, e: Event)
    requires IsRun(os, actions) && i < n <= |actions| && Pending(os[i + 1], t) == [Write(EStop), Send(e)]
    requires Pending(os[n], t) == [] && os[i + 1].shared == os[i].shared
    ensures StopsFor(os, i, n, e)
  {
    hide Step, IsRun;
    var w := Carried(os, actions, t, i + 1, n, Write(EStop));
    Sent(os, actions, t, i + 1, n, e);
    assert os[w + 1].shared.current == EStop;
  }

  /** The loop has nothing left to do when it sends. */
  lemma SendsLast(o: Ops, a: Action)
    requires |Step(o, a).messages| == |o.messages| + 1
    ensures o.callOps == [] && o.call.Returned? && a.CallStep?
    ensures Step(o, a).messages == o.messages + [Message(o.call.out, o.call.command)]
  {
  }

  /** The call reads enabled, and its controller asks for error. */
  lemma ControllerErrorStops(os: seq<Ops>, actions: seq<Action>, k: nat, n: nat, out: Output)
    requires IsRun(os, actions) && k < n < |actions| && UnderWay(os, actions, k, n, out) && Sends(os, actions, n)
    requires os[k].shared.current == Enabled && out.command == M.Error
    ensures StopsFor(os, k, n, ControllerEStop)
  {
    hide Commanded;
    assert Steps(os, actions, k) && Steps(os, actions, n);
    AlwaysSound(os, actions, k);
    SendsLast(os[n], actions[n]);
    StopIsCarried(os, actions, Loop, k, n, ControllerEStop);
  }

  /** The second read of a call, and the message that ends it. */
  predicate Checks(os: seq<Ops>, actions: seq<Action>, c: nat, n: nat, out: Output) {
    && c < n < |actions| < |os| && actions[c].CallStep? && Sends(os, actions, n)
    && os[c] == os[c].(call := Checking(out), callOps := [], messages := os[n].messages)
  }

  /** A call that has read enabled reads the state once more. */
  lemma {:induction false} ReadsAgain(os: seq<Ops>, actions: seq<Action>, k: nat, n: nat, out: Output) returns (c: nat)
    requires IsRun(os, actions) && k <= n < |actions| && os[k].call == Checking(out)
    requires os[k].messages == os[n].messages && Sends(os, actions, n)
    ensures k <= c && Checks(os, actions, c, n, out)
    decreases n - k
  {
    hide Commanded;
    AlwaysSound(os, actions, k);
    assert Steps(os, actions, k) && Steps(os, actions, n);
    SendsLast(os[n], actions[n]);
    MessagesGrow(os, actions, k, k + 1);
    MessagesGrow(os, actions, k + 1, n);
    if actions[k].CallStep? && os[k].callOps == [] {
      c := k;
    } else {
      c := ReadsAgain(os, actions, k + 1, n, out);
    }
  }

  lemma {:induction false} MessagesGrow(os: seq<Ops>, actions: seq<Action>, i: nat, n: nat)
    requires IsRun(os, actions) && i <= n <= |actions|
    ensures os[i].messages <= os[n].messages
  {
    hide Commanded;
    if i < n {
      MessagesGrow(os, actions, i, n - 1);
      assert Steps(os, actions, n - 1);
    }
  }

  /** Between its two steps the loop has decided, and sends what it has decided. */
  lemma {:induction false} Decided(os: seq<Ops>, actions: seq<Action>, c: nat, n: nat, out: Output, command: M.State)
    requires IsRun(os, actions) && c <= n < |actions| && os[c].call == Returned(out, command)
    requires os[c].messages == os[n].messages && Sends(os, actions, n)
    ensures os[n + 1].messages == os[n].messages + [Message(out, command)] && os[n].callOps == []
    decreases n - c
  {
    hide Step;
    AlwaysSound(os, actions, c);
    assert Steps(os, actions, c) && Steps(os, actions, n);
    SendsLast(os[n], actions[n]);
    LoopMoves(os[c], actions[c]);
    if c < n {
      MessagesGrow(os, actions, c + 1, n);
      Decided(os, actions, c + 1, n, out, command);
    }
  }

  /** A second read that finds a current that is no number, or halting, stops the robot; else shouldHalt makes it
      halt, unless e-stop has come by then; else the message is what the controller asked for. */
  lemma CheckDecides(os: seq<Ops>, actions: seq<Action>, c: nat, n: nat, out: Output)
    requires IsRun(os, actions) && Checks(os, actions, c, n, out)
    ensures var m := os[n + 1].messages[|os[n].messages|];
            if !Finite(out.currents) || os[c].shared.current == Halting then
              m == Output(M.Error, ZERO) && StopsFor(os, c, n, MedullaEStop)
            else if actions[c].shouldHalt then m == Output(M.Halt, ZERO) && HaltIsSet(os, c, n)
            else m.command == out.command && os[c + 1].shared == os[c].shared && os[c + 1].callOps == []
  {
    hide Commanded, IsRun;
    StepIs(os, actions, c);
    var o := os[c];
    Decided(os, actions, c + 1, n, out, os[c + 1].call.command);
    if !Finite(out.currents) || o.shared.current == Halting {
      StopIsCarried(os, actions, Loop, c, n, MedullaEStop);
    } else if actions[c].shouldHalt {
      var w := Carried(os, actions, Loop, c + 1, n, Write(Halting));
      assert os[w + 1].shared.current == if os[w].shared.current == EStop then EStop else Halting;
    }
  }

  lemma StepIs(os: seq<Ops>, actions: seq<Action>, k: nat)
    requires IsRun(os, actions) && k < |actions|
    ensures Steps(os, actions, k)
  {
  }

  predicate HaltIsSet(os: seq<Ops>, c: nat, n: nat) {
    && c < n < |os|
    && exists w :: c < w < n && os[w + 1].shared.current == if os[w].shared.current == EStop then EStop else Halting
  }

  /** So does a call that reads enabled with a current that is no number. */
  lemma BadCurrentStops(os: seq<Ops>, actions: seq<Action>, k: nat, n: nat, out: Output)
    requires IsRun(os, actions) && k < n < |actions| && UnderWay(os, actions, k, n, out) && Sends(os, actions, n)
    requires os[k].shared.current == Enabled && !Finite(out.currents)
    ensures StopsFor(os, k, n, MedullaEStop)
    ensures os[n + 1].messages[|os[n].messages|] == Output(M.Error, ZERO)
  {
    hide Commanded;
    AlwaysSound(os, actions, k);
    assert Steps(os, actions, k) && Steps(os, actions, n);
    MessagesGrow(os, actions, k, k + 1);
    MessagesGrow(os, actions, k + 1, n);
    SendsLast(os[n], actions[n]);
    var c := ReadsAgain(os, actions, k + 1, n, out);
    CheckDecides(os, actions, c, n, out);
    EventsGrow(os, actions, k, c);
    EventsGrow(os, actions, k, n);
  }

  /** A Medulla's error, unless e-stop is set or a reset is under way. */
  lemma MedullaErrorStops(os: seq<Ops>, actions: seq<Action>, k: nat, n: nat)
    requires IsRun(os, actions) && k < n <= |actions| && actions[k] == NewState(true)
    requires os[k].ecatOps == [] && os[n].ecatOps == []
    requires os[k].shared.current != EStop && os[k].shared.current != Resetting
    ensures StopsFor(os, k, n, MedullaEStop)
  {
    hide Commanded, LoopStep;
    assert Steps(os, actions, k);
    StopIsCarried(os, actions, Ecat, k, n, MedullaEStop);
  }

  /** What may stop the robot: an e-stop or invalid command; a Medulla's error, unless e-stop is set or a reset under
      way; a first read of an invalid state, or of enabled with a controller that asks for error; a second read with
      a bad current, or of halting. */
  predicate Causes(os: seq<Ops>, actions: seq<Action>, j: nat) {
    && j < |actions| < |os|
    && var o, a := os[j], actions[j];
       match a
       case Command(s, _) => s == EStop || s.Invalid?
       case NewState(error) => error && o.shared.current != EStop && o.shared.current != Resetting
       case CallStep(_) =>
         || (o.call.Calling? && o.shared.current.Invalid?)
         || (o.call.Calling? && o.shared.current == Enabled && o.call.out.command == M.Error)
         || (o.call.Checking? && (o.shared.current == Halting || !Finite(o.call.out.currents)))
       case _ => false
  }

  /** And nothing else does. */
  lemma EStopHasCause(os: seq<Ops>, actions: seq<Action>, k: nat)
    requires IsRun(os, actions) && k < |actions|
    requires os[k].shared.current != EStop && os[k + 1].shared.current == EStop
    ensures exists j: nat :: j < k && Causes(os, actions, j)
  {
    hide Commanded, LoopStep, Causes;
    assert Steps(os, actions, k);
    var t := Writer(os[k], actions[k]);
    var j := CauseOf(os, actions, t, k);
  }

  lemma Writer(o: Ops, a: Action) returns (t: Thread)
    requires o.shared.current != EStop && Step(o, a).shared.current == EStop
    ensures Write(EStop) in Pending(o, t)
  {
    t := if a.CmStep? then Cm else if a.EcatStep? then Ecat else Loop;
    assert Pending(o, t)[0] in Pending(o, t);
  }

  lemma {:induction false} CauseOf(os: seq<Ops>, actions: seq<Action>, t: Thread, k: nat) returns (j: nat)
    requires IsRun(os, actions) && k <= |actions| && Write(EStop) in Pending(os[k], t)
    ensures j < k && Causes(os, actions, j)
  {
    hide Step, Causes;
    assert Steps(os, actions, k - 1);
    if Write(EStop) in Pending(os[k - 1], t) {
      j := CauseOf(os, actions, t, k - 1);
    } else {
      NewWrite(os, actions, t, k - 1);
      j := k - 1;
    }
  }

  lemma NewWrite(os: seq<Ops>, actions: seq<Action>, t: Thread, j: nat)
    requires IsRun(os, actions) && j < |actions|
    requires Write(EStop) !in Pending(os[j], t) && Write(EStop) in Pending(os[j + 1], t)
    ensures Causes(os, actions, j)
  {
    assert Steps(os, actions, j);
    var p := Pending(os[j], t);
    assert p != [] ==> forall op :: op in p[1..] ==> op in p;
  }

  /** What a call works on is what the controller gave in this cycle, and only if it counted as loaded then. */
  lemma {:induction false} CallsAreGiven(os: seq<Ops>, actions: seq<Action>, k: nat) returns (c: nat)
    requires IsRun(os, actions) && k <= |actions| && os[k].call.Calling?
    ensures c < k && actions[c].Control? && os[c].call.Waiting? && os[c].messages == os[k].messages
    ensures os[k].call.out == if os[c].shared.loaded then actions[c].out else Output(M.Idle, ZERO)
  {
    hide Commanded;
    AlwaysSound(os, actions, k - 1);
    assert Steps(os, actions, k - 1);
    if os[k - 1].call.Calling? {
      c := CallsAreGiven(os, actions, k - 1);
    } else {
      c := k - 1;
    }
  }

  // ---------------------------------------------------------------------------------------------
  // What commands do

  /** Command j is carried out between j and n. */
  predicate Done(os: seq<Ops>, actions: seq<Action>, j: nat, n: nat) {
    && j < n <= |actions| < |os| && actions[j].Command? && os[j].cmOps == [] && os[n].cmOps == []
    && forall i :: j < i < n ==> os[i].cmOps != []
  }

  /** The state is set, unless e-stop holds and no reset is asked for. */
  predicate StateIsSet(os: seq<Ops>, j: nat, n: nat, s: RtState) {
    && j < n < |os|
    && exists w :: j < w < n && os[w + 1].shared.current
                                == if os[w].shared.current == EStop && s != Resetting then EStop else s
  }

  /** What the command asks for it gets, unless e-stop holds, and it is told so; disabling says that a controller
      is loaded, and unloading, a reset or an invalid command that none is. */
  lemma CommandTakesEffect(os: seq<Ops>, actions: seq<Action>, j: nat, n: nat)
    requires IsRun(os, actions) && Done(os, actions, j, n)
    ensures match actions[j].new_
            case NoController => StateIsSet(os, j, n, NoController) && AckNoController in Since(os, j, n)
            case Disabled => StateIsSet(os, j, n, Disabled) && AckDisable in Since(os, j, n)
            case Enabled =>
              if actions[j].shouldHalt then StateIsSet(os, j, n, Disabled) && AckDisable in Since(os, j, n)
              else StateIsSet(os, j, n, Enabled) && AckEnable in Since(os, j, n)
            case Resetting => StateIsSet(os, j, n, Resetting)
            case EStop => StopsFor(os, j, n, CmCommandEStop) && AckEStop in Since(os, j, n)
            case Halting => StateIsSet(os, j, n, Halting) && AckHalt in Since(os, j, n)
            case Invalid(_) => StopsFor(os, j, n, InvalidCmCommand)
    ensures os[n].shared.loaded
         == if actions[j].new_ == Disabled then true
            else if actions[j].new_ == Enabled || actions[j].new_ == EStop || actions[j].new_ == Halting
            then os[j].shared.loaded else false
  {
    hide IsRun, Commanded, LoopStep, StateIsSet, Since;
    var a := actions[j];
    RunLength(os, actions);
    Issued(os, actions, j, n);
    CommandHas(a.new_, a.shouldHalt);
    LoadedAt(os, actions, j + 1, n);
    match a.new_
    case NoController => Sets(os, actions, j, n, NoController, AckNoController);
    case Disabled => Sets(os, actions, j, n, Disabled, AckDisable);
    case Enabled =>
      if a.shouldHalt {
        Sets(os, actions, j, n, Disabled, AckDisable);
      } else {
        Sets(os, actions, j, n, Enabled, AckEnable);
      }
    case Resetting => Sets(os, actions, j, n, Resetting, NoEvent);
    case EStop =>
      Sets(os, actions, j, n, EStop, CmCommandEStop);
      Sets(os, actions, j, n, EStop, AckEStop);
    case Halting => Sets(os, actions, j, n, Halting, AckHalt);
    case Invalid(_) => Sets(os, actions, j, n, EStop, InvalidCmCommand);
  }

  lemma Issued(os: seq<Ops>, actions: seq<Action>, j: nat, n: nat)
    requires IsRun(os, actions) && Done(os, actions, j, n)
    ensures j < n <= |actions| && actions[j].Command? && os[n].cmOps == []
    ensures os[j + 1] == os[j].(cmOps := Commanded(actions[j].new_, actions[j].shouldHalt))
  {
    hide Commanded;
    assert Steps(os, actions, j);
  }

  /** The steps of a command: what it writes and sends, and what it says of the controller in the end. */
  lemma CommandHas(s: RtState, halt: bool)
    ensures var ops := Commanded(s, halt);
            match s
            case NoController => Write(NoController) in ops && Send(AckNoController) in ops
            case Disabled => Write(Disabled) in ops && Send(AckDisable) in ops
            case Enabled =>
              if halt then Write(Disabled) in ops && Send(AckDisable) in ops
              else Write(Enabled) in ops && Send(AckEnable) in ops
            case Resetting => Write(Resetting) in ops
            case EStop => Write(EStop) in ops && Send(CmCommandEStop) in ops && Send(AckEStop) in ops
            case Halting => Write(Halting) in ops && Send(AckHalt) in ops
            case Invalid(_) => Write(EStop) in ops && Send(InvalidCmCommand) in ops
    ensures forall b :: LoadedAfter(b, Commanded(s, halt))
                     == if s == Disabled then true
                        else if s == Enabled || s == EStop || s == Halting then b else false
  {
    forall b
      ensures LoadedAfter(b, Commanded(s, halt))
           == if s == Disabled then true else if s == Enabled || s == EStop || s == Halting then b else false
    {
      if s.Invalid? {
        LoadedConcat(b, Stop(InvalidCmCommand), [Load(false)]);
        assert [Load(false)][1..] == [];
      } else {
        var ops := Commanded(s, halt);
        LoadedFirst(b, ops);
      }
    }
  }

  lemma {:induction false} LoadedConcat(b: bool, v: seq<Op>, w: seq<Op>)
    ensures LoadedAfter(b, v + w) == LoadedAfter(LoadedAfter(b, v), w)
    decreases |v|
  {
    if v == [] {
      assert v + w == w;
    } else {
      assert (v + w)[1..] == v[1..] + w;
      LoadedConcat(if v[0].Load? then v[0].loaded else b, v[1..], w);
    }
  }

  lemma {:induction false} LoadedFirst(b: bool, ops: seq<Op>)
    requires ops != [] && forall k :: 1 <= k < |ops| ==> !ops[k].Load?
    ensures LoadedAfter(b, ops) == if ops[0].Load? then ops[0].loaded else b
    decreases |ops|
  {
    if |ops| > 1 {
      LoadedFirst(if ops[0].Load? then ops[0].loaded else b, ops[1..]);
    }
  }

  /** Whether a controller counts as loaded after these steps. */
  function LoadedAfter(b: bool, ops: seq<Op>): bool
    decreases |ops|
  {
    if ops == [] then b else LoadedAfter(if ops[0].Load? then ops[0].loaded else b, ops[1..])
  }

  lemma {:induction false} LoadedAt(os: seq<Ops>, actions: seq<Action>, i: nat, n: nat)
    requires IsRun(os, actions) && i <= n <= |actions| && os[n].cmOps == []
    requires forall k :: i <= k < n ==> os[k].cmOps != []
    ensures os[n].shared.loaded == LoadedAfter(os[i].shared.loaded, os[i].cmOps)
    decreases n - i
  {
    hide Commanded;
    if i < n {
      AlwaysSound(os, actions, i);
      assert Steps(os, actions, i);
      LoadedStep(os[i], actions[i]);
      LoadedAt(os, actions, i + 1, n);
    }
  }

  lemma LoadedStep(o: Ops, a: Action)
    requires Sound(o) && o.cmOps != []
    ensures var t := Step(o, a);
            LoadedAfter(t.shared.loaded, t.cmOps) == LoadedAfter(o.shared.loaded, o.cmOps)
  {
    hide Commanded;
    assert o.callOps != [] ==> LoopOp(o.callOps[0]);
    assert o.ecatOps != [] ==> EcatOp(o.ecatOps[0]);
  }

  lemma Sets(os: seq<Ops>, actions: seq<Action>, j: nat, n: nat, s: RtState, e: Event)
    requires IsRun(os, actions) && j < n <= |actions| && os[n].cmOps == []
    requires Write(s) in os[j + 1].cmOps && os[j + 1].shared == os[j].shared
    ensures StateIsSet(os, j, n, s)
    ensures Send(e) in os[j + 1].cmOps ==> e in Since(os, j, n) && (s == EStop ==> StopsFor(os, j, n, e))
  {
    hide Step, IsRun;
    RunLength(os, actions);
    var w := Carried(os, actions, Cm, j + 1, n, Write(s));
    assert os[w + 1].shared.current == if os[w].shared.current == EStop && s != Resetting then EStop else s;
    if Send(e) in os[j + 1].cmOps {
      Sent(os, actions, Cm, j + 1, n, e);
      assert s == EStop ==> os[w + 1].shared.current == EStop;
    }
  }
}
