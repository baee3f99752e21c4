/**
  States of the chain that no user command leads out of, or no stop.
 */
module ChainHazards {
  import M = Medulla
  import opened RtOps
  import opened ControllerManager
  import opened CommandChain
  import Cms = ControllerManagerRuns
  import Acks = RtOpsAcks
  import Rts = RtOpsRuns
  import Resets = RtOpsResets
  import opened Traces

  // ---------------------------------------------------------------------------------------------
  // A lost reset

  /** The manager waits for the acknowledgement of a reset that RT Ops has lost, and nothing is under way. */
  predicate Stuck(s: Chain) {
    && s.cm.pending && s.cm.awaited == AckReset && AckReset !in s.cm.incoming && s.taken == |s.cm.sent|
    && s.passed <= |s.ops.shared.events| && AckReset !in s.ops.shared.events[s.passed..]
    && Resets.Lost(s.ops)
  }

  lemma StuckStep(s: Chain, a: Link)
    requires Stuck(s)
    ensures var t := ChainStep(s, a);
            Stuck(t) && t.cm.handled == s.cm.handled && t.cm.sent == s.cm.sent
  {
    hide RtOps.Step, Processed, Resets.Lost;
    match a {
      case Hook(lost, events, messages) =>
        var e := Read(s, lost, events);
        assert forall x :: x in e ==> x in s.ops.shared.events[s.passed..];
        assert e != [] ==>
                 forall x :: x in s.ops.shared.events[s.passed + lost + events..] ==> x in s.ops.shared.events[s.passed..];
        Cms.ProcessedNone(Queued(s.cm, e, messages));
      case Turn =>
        if s.cm.incoming != [] {
          assert s.cm.incoming[0] in s.cm.incoming && forall x :: x in s.cm.incoming[1..] ==> x in s.cm.incoming;
        }
      case Take(_, _) =>
      case Rt(action) =>
        if !action.Command? {
          var o, t := s.ops.shared.events, RtOps.Step(s.ops, action).shared.events;
          Resets.LostStays(s.ops, action);
          Resets.EventsGrow(s.ops, action);
          assert t[s.passed..] == o[s.passed..] + t[|o|..];
        }
    }
  }

  /** Then it handles no command any more, whatever the user does: what is to end the waiting, an UNLOAD that asks
      for another reset, waits as well. */
  lemma {:induction false} StuckForGood(s: Chain, actions: seq<Link>)
    requires Stuck(s)
    ensures var t := After(ChainStep, s, actions);
            Stuck(t) && t.cm.handled == s.cm.handled && t.cm.sent == s.cm.sent
    decreases |actions|
  {
    hide ChainStep, Stuck;
    if actions != [] {
      StuckStep(s, actions[0]);
      StuckForGood(ChainStep(s, actions[0]), actions[1..]);
    }
  }

  /** The manager waits for a reset that RT Ops has just begun. */
  predicate AwaitsReset(s: Chain) {
    && s.cm.pending && s.cm.awaited == AckReset && AckReset !in s.cm.incoming && s.taken == |s.cm.sent|
    && s.passed <= |s.ops.shared.events| && AckReset !in s.ops.shared.events[s.passed..]
    && s.ops.shared.current == Resetting && s.ops.cmOps == []
  }

  /** That can happen after every disturbed reset. */
  lemma GetsStuck(ss: seq<Chain>, actions: seq<Link>, n: nat) returns (more: seq<Link>)
    requires IsRun(ss, actions) && n <= |actions| && AwaitsReset(ss[n]) && !Resets.Undisturbed(ss[n].ops)
    ensures Stuck(After(ChainStep, ss[n], more))
  {
    hide ChainStep, RtOps.Step, Resets.Lost, Resets.Undisturbed;
    var os, a := Mapped(OpsIn, ss), MappedPairs(ActionOf, ss, actions);
    OpsRun(ss, actions);
    Resets.ResetExact(os, a, n);
    var o := ss[n].ops;
    var lost :| Resets.Commandless(lost) && Resets.Lost(After(RtOps.Step, o, lost))
                && !Resets.Acked(o, After(RtOps.Step, o, lost));
    more := Mapped(Own, lost);
    RtAlone(ss[n], lost);
    Resets.EventsGrowOn(o, lost);
    var p, e, t := ss[n].passed, o.shared.events, After(RtOps.Step, o, lost).shared.events;
    assert t[p..] == e[p..] + t[|e|..];
  }

  /** And it does in a run from power-up: a controller is loaded, the EtherCAT thread reads the state while a
      Medulla reports an error, and the user's UNLOAD comes before its e-stop. */
  lemma UnloadGetsStuck(name: string, awaited: Event) returns (ss: seq<Chain>, actions: seq<Link>)
    requires name != "" && name != "none"
    ensures IsRun(ss, actions) && Stuck(ss[|actions|])
    ensures var h := ss[|actions|].cm.handled;
            h != [] && h[|h| - 1] == UserUnload
    ensures ss[|actions|].ops.shared.events == [AckDisable, MedullaEStop]
  {
    hide ChainStep, Stuck;
    var r := Request(name, true);
    var s := Chain(Start(awaited), Acks.Boot(), 0, 0);
    var a := [Hook(0, 0, [Gui(UserStop, r)])] + CarryOut(Disabled) + [Hook(0, 1, []), Turn];
    StartsAtRest(awaited);
    LoadsAlone(s, r);
    var s1 := After(ChainStep, s, a);
    var b := [Rt(NewState(true)), Hook(0, 0, [Gui(UserUnload, r)])] + CarryOut(Resetting) + [Rt(EcatStep), Rt(EcatStep)];
    UnloadsLate(s1, r, b);
    AfterConcat(ChainStep, s, a, b);
    actions := a + b;
    ss := Trace(ChainStep, s, actions);
    TraceSteps(ChainStep, s, actions);
  }

  lemma UnloadsLate(s: Chain, r: Request, b: seq<Link>)
    requires AtRest(s) && s.cm.state == Stopped && !s.cm.pending && s.cm.incoming == [] && s.ops.shared.current == Disabled
    requires s.ops == Acks.Boot().(shared := s.ops.shared)
    requires b == [Rt(NewState(true)), Hook(0, 0, [Gui(UserUnload, r)])] + CarryOut(Resetting) + [Rt(EcatStep), Rt(EcatStep)]
    ensures var t := After(ChainStep, s, b);
            && Stuck(t) && t.cm.arrived == s.cm.arrived + [UserUnload] && t.cm.handled == s.cm.handled + [UserUnload]
            && t.ops.shared.events == s.ops.shared.events + [MedullaEStop]
  {
    hide ChainStep, CarryOut;
    var first, last := [Rt(NewState(true)), Hook(0, 0, [Gui(UserUnload, r)])], [Rt(EcatStep), Rt(EcatStep)];
    AfterThree(s, first, CarryOut(Resetting), last);
    AsksForReset(s, r);
    var s2 := After(ChainStep, s, first);
    CarriesOut(s2, Resetting);
    Acks.ResetAlone(s2.ops.shared);
    var s3 := After(ChainStep, s2, CarryOut(Resetting));
    StopsLate(s3);
  }

  lemma AsksForReset(s: Chain, r: Request)
    requires AtRest(s) && s.cm.state == Stopped && !s.cm.pending && s.cm.incoming == [] && s.ops.shared.current == Disabled
    requires s.ops.ecatOps == []
    ensures var t := After(ChainStep, s, [Rt(NewState(true)), Hook(0, 0, [Gui(UserUnload, r)])]);
            t == s.(ops := s.ops.(ecatOps := Stop(MedullaEStop)), cm := Unloading(s.cm, r))
  {
    hide HandlerStep;
    AfterTwo(s, Rt(NewState(true)), Hook(0, 0, [Gui(UserUnload, r)]));
    var s1 := ChainStep(s, Rt(NewState(true)));
    assert Read(s1, 0, 0) == [];
    UnloadIsHandled(s.cm, r);
  }

  function Unloading(c: Cm, r: Request): Cm {
    c.(request := r, pending := true, awaited := AckReset, sent := c.sent + [Resetting],
       arrived := c.arrived + [UserUnload], handled := c.handled + [UserUnload])
  }

  lemma UnloadIsHandled(c: Cm, r: Request)
    requires c.state == Stopped && !c.pending && c.buffer == []
    ensures HandlerStep(c, Update([], [Gui(UserUnload, r)])) == Unloading(c, r)
  {
    hide Processed;
    var q := Queued(c, [], [Gui(UserUnload, r)]);
    assert q.buffer == [UserUnload];
    Cms.ProcessedOne(q);
  }

  lemma StopsLate(s: Chain)
    requires s.ops == Acks.Boot().(shared := s.ops.shared, ecatOps := Stop(MedullaEStop))
    requires s.cm.pending && s.cm.awaited == AckReset && s.cm.incoming == [] && s.taken == |s.cm.sent|
    requires s.ops.shared.current == Resetting && s.passed == |s.ops.shared.events|
    ensures var t := After(ChainStep, s, [Rt(EcatStep), Rt(EcatStep)]);
            && Stuck(t) && t.cm == s.cm && t.ops.shared.events == s.ops.shared.events + [MedullaEStop]
  {
    hide ChainStep, RtOps.Step, Resets.Lost;
    var a := Repeat(EcatStep, 2);
    RtAlone(s, a);
    assert Mapped(Own, a) == [Rt(EcatStep), Rt(EcatStep)];
    Rts.EcatDrains(s.ops);
    DoFew(s.ops.shared, Write(EStop), Send(MedullaEStop));
    Resets.AtRestIsLost(After(RtOps.Step, s.ops, a));
  }

  // ---------------------------------------------------------------------------------------------
  // A manager that takes the robot for stopped

  /** The user gives neither RUN nor UNLOAD. */
  predicate OnlyStops(a: Link) {
    a.Hook? ==> forall g :: g in a.messages ==> g.command != UserRun && g.command != UserUnload
  }

  lemma DeafStep(s: Chain, a: Link)
    requires Deaf(s.cm) && OnlyStops(a)
    ensures var t := ChainStep(s, a);
            Deaf(t.cm) && t.cm.sent == s.cm.sent
  {
    hide RtOps.Step, Processed;
    match a {
      case Hook(lost, events, messages) =>
        var q := Queued(s.cm, Read(s, lost, events), messages);
        assert q.buffer == Commands(messages);
        forall u | u in q.buffer
          ensures u != UserRun && u != UserUnload
        {
          var i :| 0 <= i < |messages| && u == messages[i].command;
          assert messages[i] in messages;
        }
        Cms.StopIsIgnored(q);
      case Turn =>
        if s.cm.incoming != [] {
          var event := s.cm.incoming[0];
          Cms.ProcessedNone(Acknowledged(s.cm.(incoming := s.cm.incoming[1..]), event).(pending := false));
        }
      case _ =>
    }
  }

  /** From where CommandChain.QuickRestart leads STOP and E_STOP lead nowhere, however many and whatever RT Ops reports
      meanwhile: until the user gives RUN or UNLOAD it is sent nothing more. */
  lemma {:induction false} StopsAreDropped(s: Chain, actions: seq<Link>)
    requires Deaf(s.cm) && forall a :: a in actions ==> OnlyStops(a)
    ensures var t := After(ChainStep, s, actions);
            Deaf(t.cm) && t.cm.sent == s.cm.sent
    decreases |actions|
  {
    hide ChainStep, Deaf, OnlyStops;
    if actions != [] {
      DeafStep(s, actions[0]);
      StopsAreDropped(ChainStep(s, actions[0]), actions[1..]);
    }
  }
}
