/**
  What holds in every interleaving of the three threads of RT Ops.
 */
module RtOpsRuns {
  import M = Medulla
  import opened RtOps
  import opened Traces

  predicate Steps(os: seq<Ops>, actions: seq<Action>, k: nat) {
    k < |actions| < |os| && os[k + 1] == Step(os[k], actions[k])
  }

  /** A run: action k turns os[k] into os[k + 1]. */
  predicate IsRun(os: seq<Ops>, actions: seq<Action>) {
    && |os| == |actions| + 1
    && Initial(os[0])
    && forall k :: 0 <= k < |actions| ==> Steps(os, actions, k)
  }

  // ---------------------------------------------------------------------------------------------
  // Who writes what

  /** The controller loop never writes disabled, enabled or reset. */
  predicate LoopOp(op: Op) {
    match op
    case Write(s) => s == EStop || s == Halting || s == NoController
    case Send(_) => true
    case Load(_) => false
  }

  predicate EcatOp(op: Op) {
    op == Write(EStop) || op == Send(MedullaEStop)
  }

  predicate Sound(o: Ops) {
    && (forall op :: op in o.callOps ==> LoopOp(op))
    && (forall op :: op in o.ecatOps ==> EcatOp(op))
    && o.resets <= MEDULLA_RESET_TIME_MS
    && (o.call.Waiting? || o.call.Calling? ==> o.callOps == [])
  }

  lemma StepKeepsSound(o: Ops, a: Action)
    requires Sound(o)
    ensures Sound(Step(o, a))
  {
  }

  lemma {:induction false} AlwaysSound(os: seq<Ops>, actions: seq<Action>, n: nat)
    requires IsRun(os, actions) && n <= |actions|
    ensures Sound(os[n])
  {
    hide Step;
    if n > 0 {
      AlwaysSound(os, actions, n - 1);
      assert Steps(os, actions, n - 1);
      StepKeepsSound(os[n - 1], actions[n - 1]);
    }
  }

  /** The next step of the Controller Manager's command at n comes from command j, which is being carried
      out since then. */
  predicate From(os: seq<Ops>, actions: seq<Action>, j: nat, n: nat) {
    && j < n <= |actions| < |os|
    && actions[j].Command? && os[j].cmOps == []
    && (forall i :: j < i <= n ==> os[i].cmOps != [])
    && var ops := Commanded(actions[j].new_, actions[j].shouldHalt);
       |os[n].cmOps| <= |ops| && os[n].cmOps == ops[|ops| - |os[n].cmOps|..]
  }

  lemma CmOpsStep(o: Ops, a: Action)
    ensures Step(o, a).cmOps == if a.Command? && o.cmOps == [] then Commanded(a.new_, a.shouldHalt)
                                else if a.CmStep? && o.cmOps != [] then o.cmOps[1..] else o.cmOps
  {
  }

  lemma {:induction false} CmOrigin(os: seq<Ops>, actions: seq<Action>, n: nat)
    requires IsRun(os, actions) && n <= |actions| && os[n].cmOps != []
    ensures exists j: nat :: j < n && From(os, actions, j, n)
  {
    hide Commanded, Step;
    if n > 0 {
      assert Steps(os, actions, n - 1);
      CmOpsStep(os[n - 1], actions[n - 1]);
      if os[n - 1].cmOps == [] {
        assert From(os, actions, n - 1, n);
      } else {
        CmOrigin(os, actions, n - 1);
        var j: nat :| j < n - 1 && From(os, actions, j, n - 1);
        FromGoesOn(os, actions, j, n);
      }
    }
  }

  lemma FromGoesOn(os: seq<Ops>, actions: seq<Action>, j: nat, n: nat)
    requires 0 <= j < n - 1 < |actions| < |os| && From(os, actions, j, n - 1)
    requires os[n].cmOps != [] && (os[n].cmOps == os[n - 1].cmOps || os[n].cmOps == os[n - 1].cmOps[1..])
    ensures From(os, actions, j, n)
  {
    hide Commanded;
    var ops, rest := Commanded(actions[j].new_, actions[j].shouldHalt), os[n - 1].cmOps;
    assert rest[1..] == ops[|ops| - |rest| + 1..];
  }

  lemma CommandedWrites(s: RtState, halt: bool)
    ensures Write(Resetting) in Commanded(s, halt) <==> s == Resetting
    ensures Write(Enabled) in Commanded(s, halt) <==> s == Enabled && !halt
  {
  }

  // ---------------------------------------------------------------------------------------------
  // The latch

  /** A single step leaves e-stop, or enters enabled, only as the Controller Manager's thread. */
  lemma StepWrites(o: Ops, a: Action)
    requires Sound(o)
    ensures o.shared.current == EStop && Step(o, a).shared.current != EStop ==>
              a.CmStep? && o.cmOps != [] && o.cmOps[0] == Write(Resetting) && Step(o, a).shared.current == Resetting
    ensures o.shared.current != Enabled && Step(o, a).shared.current == Enabled ==>
              a.CmStep? && o.cmOps != [] && o.cmOps[0] == Write(Enabled)
  {
    if o.callOps != [] {
      assert LoopOp(o.callOps[0]);
    }
    if o.ecatOps != [] {
      assert EcatOp(o.ecatOps[0]);
    }
  }

  /** Step k leaves e-stop for reset, on a RESET command of the Controller Manager. */
  predicate ResetByCommand(os: seq<Ops>, actions: seq<Action>, k: nat) {
    && k < |actions| < |os|
    && os[k].shared.current == EStop && os[k + 1].shared.current == Resetting
    && exists j: nat :: j < k && From(os, actions, j, k) && actions[j].new_ == Resetting
  }

  /** Once e-stop is set, the next different state is reset, set by a RESET command. */
  lemma LeavesEStop(os: seq<Ops>, actions: seq<Action>, i: nat, n: nat)
    requires IsRun(os, actions) && i <= n <= |actions|
    requires os[i].shared.current == EStop && os[n].shared.current != EStop
    ensures exists k :: i <= k < n && (forall m :: i <= m <= k ==> os[m].shared.current == EStop)
                        && ResetByCommand(os, actions, k)
  {
    hide Step, Commanded;
    var k := i;
    while os[k + 1].shared.current == EStop
      invariant i <= k < n && forall m :: i <= m <= k ==> os[m].shared.current == EStop
      decreases n - k
    {
      k := k + 1;
    }
    LeavesOnce(os, actions, k);
  }

  lemma LeavesOnce(os: seq<Ops>, actions: seq<Action>, k: nat)
    requires IsRun(os, actions) && k < |actions|
    requires os[k].shared.current == EStop && os[k + 1].shared.current != EStop
    ensures ResetByCommand(os, actions, k)
  {
    hide Step, Commanded;
    assert Steps(os, actions, k);
    AlwaysSound(os, actions, k);
    StepWrites(os[k], actions[k]);
    CmOrigin(os, actions, k);
    var j: nat :| j < k && From(os, actions, j, k);
    CommandedWrites(actions[j].new_, actions[j].shouldHalt);
    assert Write(Resetting) in os[k].cmOps;
  }

  /** Enabled is entered only on an ENABLED command whose shouldHalt was false. */
  lemma EntersEnabled(os: seq<Ops>, actions: seq<Action>, k: nat)
    requires IsRun(os, actions) && k < |actions|
    requires os[k].shared.current != Enabled && os[k + 1].shared.current == Enabled
    ensures exists j: nat :: j < k && From(os, actions, j, k) && actions[j] == Command(Enabled, false)
  {
    hide Step, Commanded;
    assert Steps(os, actions, k);
    AlwaysSound(os, actions, k);
    StepWrites(os[k], actions[k]);
    CmOrigin(os, actions, k);
    var j: nat :| j < k && From(os, actions, j, k);
    CommandedWrites(actions[j].new_, actions[j].shouldHalt);
    assert Write(Enabled) in os[k].cmOps;
  }

  // ---------------------------------------------------------------------------------------------
  // What is sent

  /** Step k sends a message. */
  predicate Sends(os: seq<Ops>, actions: seq<Action>, k: nat) {
    k < |actions| < |os| && |os[k + 1].messages| == |os[k].messages| + 1
  }

  /** What a step does to the loop. */
  lemma LoopMoves(o: Ops, a: Action)
    requires Sound(o)
    ensures var t := Step(o, a);
            match o.call
            case Waiting => t.messages == o.messages && (t.call.Waiting? || t.call.Calling?)
            case Calling(out) =>
              && t.messages == o.messages
              && (t.call == o.call || (a.CallStep? && t.call == Consult(o.shared.current, o.resets, out).call))
            case Checking(out) =>
              && t.messages == o.messages
              && (t.call == o.call || (a.CallStep? && t.call == Check(o.shared.current, out, a.shouldHalt).call))
            case Returned(out, command) =>
              || (t.call == o.call && t.messages == o.messages)
              || (t.call.Waiting? && t.messages == o.messages + [Message(out, command)])
  {
  }

  /** A call of calcState that starts while latched returns error, and so it does until the message is sent. */
  predicate Silent(o: Ops) {
    o.call.Checking? || o.call.Returned? ==> o.call.Returned? && o.call.command == M.Error
  }

  /** While e-stop lasts, every message after the first is an error message with all currents zero: only a
      call of calcState that was already under way can still say anything else. */
  lemma LatchedSendsError(os: seq<Ops>, actions: seq<Action>, i: nat, s1: nat, s2: nat)
    requires IsRun(os, actions) && i <= s1 < s2 < |actions|
    requires forall m :: i <= m <= s2 ==> os[m].shared.current == EStop
    requires Sends(os, actions, s1) && Sends(os, actions, s2)
    ensures os[s2 + 1].messages == os[s2].messages + [Output(M.Error, ZERO)]
  {
    hide Step;
    assert Steps(os, actions, s1) && Steps(os, actions, s2);
    AlwaysSound(os, actions, s1);
    LoopMoves(os[s1], actions[s1]);
    StaysSilent(os, actions, s1 + 1, s2);
    AlwaysSound(os, actions, s2);
    LoopMoves(os[s2], actions[s2]);
  }

  lemma {:induction false} StaysSilent(os: seq<Ops>, actions: seq<Action>, i: nat, n: nat)
    requires IsRun(os, actions) && i <= n <= |actions|
    requires forall m :: i <= m < n ==> os[m].shared.current == EStop
    requires Silent(os[i])
    ensures Silent(os[n])
  {
    hide Step;
    if n > i {
      StaysSilent(os, actions, i, n - 1);
      AlwaysSound(os, actions, n - 1);
      assert Steps(os, actions, n - 1);
      LoopMoves(os[n - 1], actions[n - 1]);
    }
  }

  /** Step k is a calcState call for `out` that reads the state. */
  predicate Consults(os: seq<Ops>, actions: seq<Action>, k: nat, out: Output) {
    k < |actions| < |os| && actions[k].CallStep? && os[k].call == Calling(out)
  }

  /** What calcState may answer when it has read this state. */
  predicate Answer(current: RtState, out: Output, command: M.State) {
    match current
    case EStop => command == M.Error
    case Invalid(_) => command == M.Error
    case NoController => command == M.Idle
    case Disabled => command == M.Idle
    case Resetting => command == M.Reset
    case Halting => command == M.Halt
    case Enabled => command == M.Error || command == M.Halt || (command == out.command && Finite(out.currents))
  }

  /** The call that is under way at n consulted the state at k, and nothing has been sent since. */
  predicate UnderWay(os: seq<Ops>, actions: seq<Action>, k: nat, n: nat, out: Output) {
    k < n <= |actions| < |os| && Consults(os, actions, k, out) && os[k].messages == os[n].messages
  }

  lemma {:induction false} CallOrigin(os: seq<Ops>, actions: seq<Action>, n: nat)
    requires IsRun(os, actions) && n <= |actions|
    ensures match os[n].call
            case Checking(out) =>
              exists k: nat :: k < n && UnderWay(os, actions, k, n, out) && os[k].shared.current == Enabled
            case Returned(out, command) =>
              exists k: nat :: k < n && UnderWay(os, actions, k, n, out) && Answer(os[k].shared.current, out, command)
            case _ => true
  {
    hide Step;
    if n > 0 {
      CallOrigin(os, actions, n - 1);
      AlwaysSound(os, actions, n - 1);
      assert Steps(os, actions, n - 1);
      var before, now := os[n - 1].call, os[n].call;
      LoopMoves(os[n - 1], actions[n - 1]);
      if now.Checking? || now.Returned? {
        if before.Calling? {
          assert UnderWay(os, actions, n - 1, n, now.out);
        } else {
          var k: nat :| k < n - 1 && UnderWay(os, actions, k, n - 1, before.out)
                        && if before.Checking? then os[k].shared.current == Enabled
                           else Answer(os[k].shared.current, before.out, before.command);
          assert UnderWay(os, actions, k, n, now.out);
        }
      }
    }
  }

  /** Every message is the answer of one call of calcState to the state that it read, with the currents of
      its controller's output clamped, or zero. */
  lemma EveryMessage(os: seq<Ops>, actions: seq<Action>, n: nat)
    requires IsRun(os, actions) && n < |actions| && Sends(os, actions, n)
    ensures var m := os[n + 1].messages[|os[n].messages|];
            exists k: nat, out :: k < n && UnderWay(os, actions, k, n, out)
                                  && Answer(os[k].shared.current, out, m.command) && m == Message(out, m.command)
  {
    hide Step, ClampAll, Answer;
    CallOrigin(os, actions, n);
    AlwaysSound(os, actions, n);
    assert Steps(os, actions, n);
    LoopMoves(os[n], actions[n]);
  }

  /** So a message with command run comes from a call that read enabled, with six finite currents and a
      controller that asked for run; any other message is zero. */
  lemma RunMessages(os: seq<Ops>, actions: seq<Action>, n: nat)
    requires IsRun(os, actions) && n < |actions| && Sends(os, actions, n)
    ensures var m := os[n + 1].messages[|os[n].messages|];
            && (m.command != M.Run ==> m.currents == ZERO)
            && (m.command == M.Run ==>
                  exists k: nat, out :: k < n && UnderWay(os, actions, k, n, out) && os[k].shared.current == Enabled
                                        && Finite(out.currents) && out.command == M.Run
                                        && m == Output(M.Run, ClampAll(out.currents)))
  {
    hide Step, ClampAll;
    EveryMessage(os, actions, n);
    var m := os[n + 1].messages[|os[n].messages|];
    var k: nat, out :| k < n && UnderWay(os, actions, k, n, out)
                       && Answer(os[k].shared.current, out, m.command) && m == Message(out, m.command);
  }

  // ---------------------------------------------------------------------------------------------
  // Calls that no other thread interrupts

  lemma {:induction false} LoopDrains(o: Ops, halt: bool)
    ensures After(Step, o, Repeat(CallStep(halt), |o.callOps|)) == o.(shared := DoAll(o.shared, o.callOps), callOps := [])
    decreases |o.callOps|
  {
    var a := Repeat(CallStep(halt), |o.callOps|);
    if o.callOps != [] {
      LoopDrains(Step(o, CallStep(halt)), halt);
      assert a[1..] == Repeat(CallStep(halt), |o.callOps| - 1);
    }
  }

  lemma {:induction false} CmDrains(o: Ops)
    ensures After(Step, o, Repeat(CmStep, |o.cmOps|)) == o.(shared := DoAll(o.shared, o.cmOps), cmOps := [])
    decreases |o.cmOps|
  {
    var a := Repeat(CmStep, |o.cmOps|);
    if o.cmOps != [] {
      CmDrains(Step(o, CmStep));
      assert a[1..] == Repeat(CmStep, |o.cmOps| - 1);
    }
  }

  lemma {:induction false} EcatDrains(o: Ops)
    ensures After(Step, o, Repeat(EcatStep, |o.ecatOps|)) == o.(shared := DoAll(o.shared, o.ecatOps), ecatOps := [])
    decreases |o.ecatOps|
  {
    var a := Repeat(EcatStep, |o.ecatOps|);
    if o.ecatOps != [] {
      EcatDrains(Step(o, EcatStep));
      assert a[1..] == Repeat(EcatStep, |o.ecatOps| - 1);
    }
  }

  /** Steps of the loop alone carry out what StateMachine.CalcState does. */
  lemma UninterruptedCall(o: Ops, out: Output, halt: bool)
    requires o.call == Calling(out) && o.callOps == []
    ensures exists n: nat ::
              var t := After(Step, o, Repeat(CallStep(halt), n));
              && t.callOps == [] && t.call.Returned? && t.call.out == out
              && (t.shared, t.resets, t.call.command) == Calculated(o.shared, o.resets, out, halt)
  {
    hide DoAll, Do, After, Consult, Check;
    var a := CallStep(halt);
    var p := Step(o, a);
    StepThenDrain(o, halt);
    var m := 1 + |p.callOps|;
    var q := After(Step, o, Repeat(a, m));
    if q.call.Checking? {
      StepThenDrain(q, halt);
      var k := 1 + |Step(q, a).callOps|;
      AfterConcat(Step, o, Repeat(a, m), Repeat(a, k));
      assert Repeat(a, m) + Repeat(a, k) == Repeat(a, m + k);
      CheckReturns(q.shared.current, out, halt);
    }
    ConsultGoesOn(o.shared.current, o.resets, out);
  }

  lemma ConsultGoesOn(current: RtState, resets: nat, out: Output)
    ensures var c := Consult(current, resets, out).call;
            (c.Checking? || c.Returned?) && c.out == out
  {
  }

  lemma CheckReturns(current: RtState, out: Output, halt: bool)
    ensures var c := Check(current, out, halt).call;
            c.Returned? && c.out == out
  {
  }

  /** One step of the loop and all that follows from it. */
  lemma StepThenDrain(o: Ops, halt: bool)
    ensures var p := Step(o, CallStep(halt));
            After(Step, o, Repeat(CallStep(halt), 1 + |p.callOps|))
              == p.(shared := DoAll(p.shared, p.callOps), callOps := [])
  {
    hide LoopStep, DoAll;
    var p := Step(o, CallStep(halt));
    LoopDrains(p, halt);
    assert Repeat(CallStep(halt), 1 + |p.callOps|)[1..] == Repeat(CallStep(halt), |p.callOps|);
  }

  /** Steps of the Controller Manager's thread alone carry out what StateMachine.NewCMState does. */
  lemma UninterruptedCommand(o: Ops, new_: RtState, halt: bool)
    requires o.cmOps == []
    ensures exists n: nat ::
              After(Step, Step(o, Command(new_, halt)), Repeat(CmStep, n))
                == o.(shared := DoAll(o.shared, Commanded(new_, halt)))
  {
    hide DoAll, Commanded;
    CmDrains(Step(o, Command(new_, halt)));
  }
}
