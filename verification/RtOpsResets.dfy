/**
  When a reset is acknowledged: which interleavings complete it, and which lose it for good.
 */
module RtOpsResets {
  import M = Medulla
  import opened RtOps
  import opened RtOpsRuns
  import opened Traces
  import Acks = RtOpsAcks

  predicate Commandless(actions: seq<Action>) {
    forall k :: 0 <= k < |actions| ==> !actions[k].Command?
  }

  /** How many calls of calcState read the state while these actions go on from o. */
  function Calls(o: Ops, actions: seq<Action>): nat
    decreases |actions|
  {
    if actions == [] then 0
    else (if actions[0].CallStep? && o.call.Calling? then 1 else 0) + Calls(Step(o, actions[0]), actions[1..])
  }

  /** ACK_RESET is sent on the way from o to t. */
  predicate Acked(o: Ops, t: Ops) {
    |o.shared.events| <= |t.shared.events| && AckReset in t.shared.events[|o.shared.events|..]
  }

  // ---------------------------------------------------------------------------------------------
  // What completes a reset

  predicate AllSends(ops: seq<Op>) {
    forall op :: op in ops ==> op.Send?
  }

  /** Either an earlier reset is about to be acknowledged, or no thread is left with something to write: the
      EtherCAT thread with no e-stop that it has decided on, the loop with no write and not between its reads. */
  predicate Undisturbed(o: Ops) {
    Send(AckReset) in o.callOps || (Write(EStop) !in o.ecatOps && AllSends(o.callOps) && !o.call.Checking?)
  }

  predicate Counting(o: Ops) {
    && o.shared.current == Resetting && o.cmOps == []
    && Write(EStop) !in o.ecatOps && AllSends(o.callOps) && !o.call.Checking?
  }

  /** The phases of a reset, by the number of calls so far: counting, about to leave, about to acknowledge. */
  predicate Phase(o: Ops, count: nat) {
    if count <= MEDULLA_RESET_TIME_MS then Counting(o) && o.resets == count
    else
      && count == MEDULLA_RESET_TIME_MS + 1 && o.call.Returned? && o.cmOps == []
      && (o.callOps == [Send(AckReset)]
          || (o.callOps == [Write(NoController), Send(AckReset)] && o.shared.current == Resetting
              && Write(EStop) !in o.ecatOps))
  }

  lemma ResetStep(o: Ops, a: Action, count: nat)
    requires Sound(o) && Phase(o, count) && !a.Command?
    ensures var t := Step(o, a);
            || Phase(t, count + if a.CallStep? && o.call.Calling? then 1 else 0)
            || t.shared.events == o.shared.events + [AckReset]
  {
    assert o.callOps != [] ==> o.callOps[0] in o.callOps && forall op :: op in o.callOps[1..] ==> op in o.callOps;
    assert o.ecatOps != [] ==> o.ecatOps[0] in o.ecatOps && forall op :: op in o.ecatOps[1..] ==> op in o.ecatOps;
  }

  lemma EventsGrow(o: Ops, a: Action)
    ensures o.shared.events <= Step(o, a).shared.events
  {
  }

  lemma {:induction false} EventsGrowOn(o: Ops, actions: seq<Action>)
    ensures o.shared.events <= After(Step, o, actions).shared.events
    decreases |actions|
  {
    hide Step;
    if actions != [] {
      EventsGrow(o, actions[0]);
      EventsGrowOn(Step(o, actions[0]), actions[1..]);
    }
  }

  lemma AckedOnTheWay(o: Ops, p: Ops, t: Ops)
    requires o.shared.events <= p.shared.events <= t.shared.events
    ensures Acked(o, t) <==> Acked(o, p) || Acked(p, t)
    ensures p.shared.events == o.shared.events + [AckReset] ==> Acked(o, p)
  {
    var a, b, c := |o.shared.events|, |p.shared.events|, t.shared.events;
    assert c[a..] == p.shared.events[a..] + c[b..];
  }

  lemma {:induction false} PhasesGoOn(o: Ops, actions: seq<Action>, count: nat)
    requires Sound(o) && Phase(o, count) && Commandless(actions)
    ensures var t := After(Step, o, actions);
            Acked(o, t) || Phase(t, count + Calls(o, actions))
    decreases |actions|
  {
    hide Step, Phase;
    if actions != [] {
      var p, c := Step(o, actions[0]), if actions[0].CallStep? && o.call.Calling? then 1 else 0;
      StepKeepsSound(o, actions[0]);
      ResetStep(o, actions[0], count);
      EventsGrow(o, actions[0]);
      EventsGrowOn(p, actions[1..]);
      AckedOnTheWay(o, p, After(Step, o, actions));
      if Phase(p, count + c) {
        PhasesGoOn(p, actions[1..], count + c);
      }
    }
  }

  /** What the loop is about to acknowledge it acknowledges, whatever the other threads do. */
  lemma {:induction false} AckingGoesOn(o: Ops, actions: seq<Action>)
    requires Send(AckReset) in o.callOps
    ensures var t := After(Step, o, actions);
            Acked(o, t) || Send(AckReset) in t.callOps
    decreases |actions|
  {
    hide Step;
    if actions != [] {
      var p := Step(o, actions[0]);
      AckingStep(o, actions[0]);
      EventsGrow(o, actions[0]);
      EventsGrowOn(p, actions[1..]);
      AckedOnTheWay(o, p, After(Step, o, actions));
      if Send(AckReset) in p.callOps {
        AckingGoesOn(p, actions[1..]);
      }
    }
  }

  lemma AckingStep(o: Ops, a: Action)
    requires Send(AckReset) in o.callOps
    ensures var t := Step(o, a);
            Send(AckReset) in t.callOps || t.shared.events == o.shared.events + [AckReset]
  {
    hide Commanded;
    assert o.callOps == [o.callOps[0]] + o.callOps[1..];
  }

  /** What a run makes of its state at i is what its actions since then lead to. */
  lemma {:induction false} RunFrom(os: seq<Ops>, actions: seq<Action>, i: nat, n: nat)
    requires IsRun(os, actions) && i <= n <= |actions|
    ensures os[n] == After(Step, os[i], actions[i..n])
  {
    hide Step;
    if n == i {
      assert actions[i..n] == [];
    } else {
      RunFrom(os, actions, i, n - 1);
      assert Steps(os, actions, n - 1);
      AfterConcat(Step, os[i], actions[i..n - 1], [actions[n - 1]]);
      AfterOne(Step, os[n - 1], actions[n - 1]);
      assert actions[i..n - 1] + [actions[n - 1]] == actions[i..n];
    }
  }

  /** An undisturbed reset with no further command: while the calls of calcState have not brought the counter
      beyond five the state stays reset, and by the seventh call at the latest ACK_RESET has been sent. */
  lemma ResetCompletes(os: seq<Ops>, actions: seq<Action>, i: nat, n: nat)
    requires IsRun(os, actions) && i <= n <= |actions|
    requires os[i].shared.current == Resetting && os[i].cmOps == [] && Undisturbed(os[i])
    requires Commandless(actions[i..n])
    ensures os[i].shared.events <= os[n].shared.events
    ensures var acked, calls := Acked(os[i], os[n]), Calls(os[i], actions[i..n]);
            && (Send(AckReset) in os[i].callOps ==> acked || Send(AckReset) in os[n].callOps)
            && (Send(AckReset) !in os[i].callOps ==> acked || Phase(os[n], os[i].resets + calls))
            && (Send(AckReset) !in os[i].callOps && os[i].resets + calls <= MEDULLA_RESET_TIME_MS && !acked ==>
                  os[n].shared.current == Resetting)
            && (calls > MEDULLA_RESET_TIME_MS && os[n].callOps == [] ==> acked)
  {
    hide Step;
    AlwaysSound(os, actions, i);
    RunFrom(os, actions, i, n);
    EventsGrowOn(os[i], actions[i..n]);
    if Send(AckReset) in os[i].callOps {
      AckingGoesOn(os[i], actions[i..n]);
    } else {
      PhasesGoOn(os[i], actions[i..n], os[i].resets);
    }
  }

  // ---------------------------------------------------------------------------------------------
  // What loses a reset

  /** The loop writes no-controller only together with ACK_RESET. */
  predicate Paired(o: Ops) {
    o.callOps == [Write(NoController), Send(AckReset)] || Write(NoController) !in o.callOps
  }

  lemma StepKeepsPaired(o: Ops, a: Action)
    requires Paired(o)
    ensures Paired(Step(o, a))
  {
    hide Commanded;
    assert o.callOps != [] ==> forall op :: op in o.callOps[1..] ==> op in o.callOps;
  }

  lemma {:induction false} AlwaysPaired(os: seq<Ops>, actions: seq<Action>, n: nat)
    requires IsRun(os, actions) && n <= |actions|
    ensures Paired(os[n])
  {
    hide Step;
    if n > 0 {
      AlwaysPaired(os, actions, n - 1);
      assert Steps(os, actions, n - 1);
      StepKeepsPaired(os[n - 1], actions[n - 1]);
    }
  }

  /** The state is e-stop or halting instead of reset. */
  predicate Lost(o: Ops) {
    && Sound(o) && Paired(o) && o.cmOps == [] && Send(AckReset) !in o.callOps
    && (o.shared.current == EStop || o.shared.current == Halting)
  }

  lemma LostStays(o: Ops, a: Action)
    requires Lost(o) && !a.Command?
    ensures Lost(Step(o, a)) && !Acked(o, Step(o, a))
  {
    StepKeepsSound(o, a);
    StepKeepsPaired(o, a);
    assert o.callOps != [] ==> o.callOps[0] in o.callOps && forall op :: op in o.callOps[1..] ==> op in o.callOps;
    assert o.ecatOps != [] ==> EcatOp(o.ecatOps[0]);
  }

  /** Then no later step acknowledges it, until there is another command. */
  lemma {:induction false} LostForGood(o: Ops, actions: seq<Action>)
    requires Lost(o) && Commandless(actions)
    ensures var t := After(Step, o, actions);
            Lost(t) && !Acked(o, t)
    decreases |actions|
  {
    hide Step;
    if actions != [] {
      var p := Step(o, actions[0]);
      LostStays(o, actions[0]);
      LostForGood(p, actions[1..]);
      EventsGrow(o, actions[0]);
      EventsGrowOn(p, actions[1..]);
      AckedOnTheWay(o, p, After(Step, o, actions));
    }
  }

  /** A reset that some thread is about to end. */
  predicate Disturbed(o: Ops) {
    Sound(o) && Paired(o) && o.cmOps == [] && o.shared.current == Resetting && !Undisturbed(o)
  }

  /** The step that comes nearer to that. */
  function Next(o: Ops): Action {
    if o.ecatOps != [] then EcatStep else CallStep(true)
  }

  lemma DisturbedStep(o: Ops)
    requires Disturbed(o)
    ensures var t := Step(o, Next(o));
            && (Lost(t) || Disturbed(t)) && (Disturbed(t) ==> Remaining(t) < Remaining(o)) && !Acked(o, t)
  {
    StepKeepsSound(o, Next(o));
    StepKeepsPaired(o, Next(o));
    if o.ecatOps != [] {
      assert EcatOp(o.ecatOps[0]) && o.ecatOps == [o.ecatOps[0]] + o.ecatOps[1..];
    } else if o.callOps != [] {
      assert LoopOp(o.callOps[0]) && o.callOps == [o.callOps[0]] + o.callOps[1..];
    } else {
      var ops := Step(o, CallStep(true)).callOps;
      assert ops[0] in ops && ops[0].Write?;
    }
  }

  function Remaining(o: Ops): nat {
    |o.ecatOps| + |o.callOps| + if o.call.Checking? then 3 else 0
  }

  lemma {:induction false} GetsLost(o: Ops) returns (actions: seq<Action>)
    requires Disturbed(o)
    ensures Commandless(actions)
    ensures var t := After(Step, o, actions);
            Lost(t) && !Acked(o, t)
    decreases Remaining(o)
  {
    hide Step, Disturbed, Lost, Remaining;
    var a := Next(o);
    var p := Step(o, a);
    DisturbedStep(o);
    var rest := [];
    if Disturbed(p) {
      rest := GetsLost(p);
    }
    actions := [a] + rest;
    AfterCons(Step, o, a, rest);
    EventsGrow(o, a);
    EventsGrowOn(p, rest);
    AckedOnTheWay(o, p, After(Step, o, actions));
  }

  /** The loop goes on. */
  function Going(o: Ops): Action {
    if o.call.Waiting? then Control(Output(M.Idle, ZERO)) else CallStep(true)
  }

  function Rank(c: Call): nat {
    match c
    case Checking(_) => 3
    case Returned(_, _) => 2
    case Waiting => 1
    case Calling(_) => 0
  }

  lemma GoingStep(o: Ops)
    requires Sound(o)
    ensures var t := Step(o, Going(o));
            && (o.callOps != [] ==> t.call == o.call && |t.callOps| < |o.callOps|)
            && (o.callOps == [] && !o.call.Calling? ==> Rank(t.call) < Rank(o.call))
  {
    hide Consult;
  }

  /** The loop can always call calcState another n times and come to rest. */
  lemma {:induction false} CallsAgain(o: Ops, n: nat) returns (actions: seq<Action>)
    requires Lost(o)
    ensures Commandless(actions) && Calls(o, actions) >= n && After(Step, o, actions).callOps == []
    decreases n, Rank(o.call), |o.callOps|
  {
    hide Step;
    if n == 0 && o.callOps == [] {
      return [];
    }
    var a := Going(o);
    LostStays(o, a);
    GoingStep(o);
    var rest := CallsAgain(Step(o, a), if o.call.Calling? && n > 0 then n - 1 else n);
    actions := [a] + rest;
    AfterCons(Step, o, a, rest);
    assert actions[1..] == rest;
  }

  /** However the threads go on without a command, ACK_RESET is sent by the time six calls of calcState have read
      the state and the loop has nothing left to do. */
  ghost predicate AlwaysAcknowledged(o: Ops) {
    forall actions :: Commandless(actions) ==> AcknowledgedAfter(o, actions)
  }

  predicate AcknowledgedAfter(o: Ops, actions: seq<Action>) {
    var t := After(Step, o, actions);
    Calls(o, actions) > MEDULLA_RESET_TIME_MS && t.callOps == [] ==> Acked(o, t)
  }

  lemma {:induction false} CallsConcat(o: Ops, a: seq<Action>, b: seq<Action>)
    ensures Calls(o, a + b) == Calls(o, a) + Calls(After(Step, o, a), b)
    decreases |a|
  {
    hide Step;
    if a == [] {
      assert a + b == b;
    } else {
      CallsConcat(Step(o, a[0]), a[1..], b);
      assert (a + b)[1..] == a[1..] + b;
    }
  }

  /** A reset is always acknowledged exactly if it is undisturbed when it begins; and where it is not, it can be
      lost so that nothing but another command gets it acknowledged. */
  lemma ResetExact(os: seq<Ops>, actions: seq<Action>, i: nat)
    requires IsRun(os, actions) && i <= |actions|
    requires os[i].shared.current == Resetting && os[i].cmOps == []
    ensures AlwaysAcknowledged(os[i]) <==> Undisturbed(os[i])
    ensures !Undisturbed(os[i]) ==>
              exists lost :: Commandless(lost) && Lost(After(Step, os[i], lost)) && !Acked(os[i], After(Step, os[i], lost))
  {
    hide Step, Lost;
    var o := os[i];
    AlwaysSound(os, actions, i);
    AlwaysPaired(os, actions, i);
    if Undisturbed(o) {
      forall next | Commandless(next)
        ensures AcknowledgedAfter(o, next)
      {
        if Send(AckReset) in o.callOps {
          AckingGoesOn(o, next);
        } else {
          PhasesGoOn(o, next, o.resets);
        }
      }
    } else {
      var lost := GetsLost(o);
      var p := After(Step, o, lost);
      var more := CallsAgain(p, MEDULLA_RESET_TIME_MS + 1);
      LostForGood(p, more);
      CallsConcat(o, lost, more);
      AfterConcat(Step, o, lost, more);
      EventsGrowOn(o, lost);
      EventsGrowOn(p, more);
      AckedOnTheWay(o, p, After(Step, o, lost + more));
      assert !AcknowledgedAfter(o, lost + more);
    }
  }

  // ---------------------------------------------------------------------------------------------
  // Runs in which a reset is lost

  /** The only command of the run that comes at i or later is the RESET at i, whose write is over two steps later. */
  predicate ResetsAt(os: seq<Ops>, actions: seq<Action>, i: nat) {
    && i + 3 <= |actions| < |os|
    && actions[i] == Command(Resetting, false) && Commandless(actions[i + 1..])
    && os[i + 3].shared.current == Resetting && os[i + 3].cmOps == []
  }

  lemma TwoMoves(o: Ops, a: Op, b: Op)
    ensures o.cmOps == [a, b] ==> Step(Step(o, CmStep), CmStep) == o.(shared := Do(Do(o.shared, a), b), cmOps := [])
    ensures o.ecatOps == [a, b] ==>
              Step(Step(o, EcatStep), EcatStep) == o.(shared := Do(Do(o.shared, a), b), ecatOps := [])
  {
  }

  lemma Starts(o: Ops, s: RtState)
    ensures o.cmOps == [] ==> Step(o, Command(s, false)) == o.(cmOps := Commanded(s, false))
    ensures Commanded(Resetting, false) == [Load(false), Write(Resetting)]
    ensures Commanded(Enabled, false) == [Write(Enabled), Send(AckEnable)]
  {
  }

  lemma AtRestIsLost(o: Ops)
    requires o.cmOps == [] && o.callOps == [] && o.ecatOps == [] && o.resets == 0
    requires o.shared.current == EStop || o.shared.current == Halting
    ensures Lost(o)
  {
  }

  /** The EtherCAT thread has read the state and not yet stopped: it ends the reset when the write comes. */
  lemma ResetLostToEtherCat() returns (os: seq<Ops>, actions: seq<Action>)
    ensures IsRun(os, actions) && |actions| == 6 && ResetsAt(os, actions, 1) && actions[0] == NewState(true)
    ensures var t := os[6];
            && Lost(t) && t.shared.current == EStop && t.call.Waiting? && t.callOps == [] && t.ecatOps == []
            && t.shared.events == [MedullaEStop]
  {
    hide Step, Commanded, IsRun, Lost, Trace, After;
    actions := [NewState(true), Command(Resetting, false), CmStep, CmStep, EcatStep, EcatStep];
    os := Trace(Step, Acks.Boot(), actions);
    Acks.BootIsRun(actions);
    TraceSteps(Step, Acks.Boot(), actions);
    assert Steps(os, actions, 0);
    Watched(os[0]);
    Starts(os[1], Resetting);
    assert Steps(os, actions, 1) && Steps(os, actions, 2) && Steps(os, actions, 3);
    TwoMoves(os[2], Load(false), Write(Resetting));
    assert os[4] == os[1].(shared := Shared(Resetting, false, []));
    assert Steps(os, actions, 4) && Steps(os, actions, 5);
    TwoMoves(os[4], Write(EStop), Send(MedullaEStop));
    assert os[6] == os[0].(shared := Shared(EStop, false, [MedullaEStop]));
    AtRestIsLost(os[6]);
  }

  lemma Watched(o: Ops)
    requires o.ecatOps == [] && o.shared.current == NoController
    ensures Step(o, NewState(true)) == o.(ecatOps := [Write(EStop), Send(MedullaEStop)])
  {
  }

  const HALTS: seq<Action> := [
    Command(Enabled, false), CmStep, CmStep, Control(Acks.IDLE), CallStep(false),
    Command(Resetting, false), CmStep, CmStep, CallStep(true), CallStep(false)]

  /** calcState has read enabled, and halts after the reset has come. */
  lemma ResetLostToHalt() returns (os: seq<Ops>)
    ensures IsRun(os, HALTS) && ResetsAt(os, HALTS, 5)
    ensures var t := os[10];
            && Lost(t) && t.shared.current == Halting && t.call.Returned? && t.callOps == [] && t.ecatOps == []
            && t.shared.events == [AckEnable]
  {
    hide Step, Commanded, IsRun, Lost, Trace, After;
    os := Trace(Step, Acks.Boot(), HALTS);
    Acks.BootIsRun(HALTS);
    TraceSteps(Step, Acks.Boot(), HALTS);
    EnabledIsRead(os);
    var o := os[5];
    assert Steps(os, HALTS, 5) && Steps(os, HALTS, 6) && Steps(os, HALTS, 7);
    Starts(o, Resetting);
    TwoMoves(os[6], Load(false), Write(Resetting));
    assert os[8] == o.(shared := Shared(Resetting, false, [AckEnable]));
    assert Steps(os, HALTS, 8) && Steps(os, HALTS, 9);
    ChecksAndHalts(os[8]);
    AtRestIsLost(os[10]);
  }

  lemma EnabledIsRead(os: seq<Ops>)
    requires |os| == |HALTS| + 1 && os[0] == Acks.Boot() && forall k :: 0 <= k < |HALTS| ==> Steps(os, HALTS, k)
    ensures os[5] == os[0].(shared := Shared(Enabled, false, [AckEnable]), call := Checking(Acks.IDLE))
  {
    hide Step, Commanded;
    assert Steps(os, HALTS, 0) && Steps(os, HALTS, 1) && Steps(os, HALTS, 2);
    Starts(os[0], Enabled);
    TwoMoves(os[1], Write(Enabled), Send(AckEnable));
    assert Steps(os, HALTS, 3) && Steps(os, HALTS, 4);
    CallsEnabled(os[3]);
  }

  lemma CallsEnabled(o: Ops)
    requires o.shared == Shared(Enabled, false, [AckEnable]) && o.call.Waiting? && o.callOps == []
    ensures Step(Step(o, Control(Acks.IDLE)), CallStep(false)) == o.(call := Checking(Acks.IDLE))
  {
  }

  lemma ChecksAndHalts(o: Ops)
    requires o.shared.current == Resetting && o.call == Checking(Acks.IDLE) && o.callOps == []
    ensures Step(Step(o, CallStep(true)), CallStep(false))
         == o.(call := Returned(Acks.IDLE, M.Halt), shared := o.shared.(current := Halting))
  {
    assert Step(o, CallStep(true)) == o.(callOps := [Write(Halting)], call := Returned(Acks.IDLE, M.Halt));
  }
}
