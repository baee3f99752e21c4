/**
  The Controller Manager and RT Ops together. Commands travel one way and events the other; either way older
  ones may be lost, but none is made up and none overtakes another.
 */
module CommandChain {
  import M = Medulla
  import opened RtOps
  import opened ControllerManager
  import Cms = ControllerManagerRuns
  import Acks = RtOpsAcks
  import Rts = RtOpsRuns
  import opened Traces

  datatype Chain = Chain(
    cm: Cm,
    ops: Ops,
    taken: nat,      // how many of cm.sent RT Ops has read or lost
    passed: nat)     // how many of ops.shared.events the Controller Manager has read or lost

  datatype Link =
    | Hook(lost: nat, events: nat, messages: seq<Gui>)   // updateHook of the Controller Manager
    | Turn                                               // of its event manager
    | Take(lost: nat, shouldHalt: bool)                  // updateHook of RT Ops reads a command
    | Rt(action: RtOps.Action)                           // any other step of RT Ops

  /** The events that a hook reads. */
  function Read(s: Chain, lost: nat, events: nat): seq<Event> {
    if s.passed + lost + events <= |s.ops.shared.events|
    then s.ops.shared.events[s.passed + lost..s.passed + lost + events] else []
  }

  function ChainStep(s: Chain, a: Link): Chain {
    match a
    case Hook(lost, events, messages) =>
      var e := Read(s, lost, events);
      s.(cm := HandlerStep(s.cm, Update(e, messages)), passed := if e == [] then s.passed else s.passed + lost + events)
    case Turn => s.(cm := HandlerStep(s.cm, Dispatch))
    case Take(lost, halt) =>
      if s.taken + lost < |s.cm.sent| && s.ops.cmOps == []
      then s.(ops := RtOps.Step(s.ops, Command(s.cm.sent[s.taken + lost], halt)), taken := s.taken + lost + 1) else s
    case Rt(action) => if action.Command? then s else s.(ops := RtOps.Step(s.ops, action))
  }

  /** A hook reads events that follow one another, later than all that were read or lost before, and no more. */
  lemma ReadInOrder(s: Chain, lost: nat, events: nat, messages: seq<Gui>)
    requires s.passed <= |s.ops.shared.events|
    ensures var e, t := Read(s, lost, events), ChainStep(s, Hook(lost, events, messages));
            && s.passed <= t.passed - |e| <= t.passed <= |s.ops.shared.events|
            && e == s.ops.shared.events[t.passed - |e|..t.passed]
            && t.cm == HandlerStep(s.cm, Update(e, messages)) && t.ops == s.ops
  {
    hide HandlerStep;
  }

  predicate Steps(ss: seq<Chain>, actions: seq<Link>, k: nat) {
    k < |actions| < |ss| && ss[k + 1] == ChainStep(ss[k], actions[k])
  }

  predicate IsRun(ss: seq<Chain>, actions: seq<Link>) {
    && |ss| == |actions| + 1
    && Initial(ss[0].ops) && ss[0] == Chain(Start(ss[0].cm.awaited), ss[0].ops, 0, 0)
    && forall k :: 0 <= k < |actions| ==> Steps(ss, actions, k)
  }

  // ---------------------------------------------------------------------------------------------
  // RT Ops answers only what it was told

  predicate Mute(ops: seq<Op>) {
    Send(AckDisable) !in ops && Send(AckEnable) !in ops
  }

  /** Nothing is acknowledged before something was sent; and the loop and the EtherCAT thread never do. */
  predicate Honest(s: Chain) {
    && Mute(s.ops.callOps) && Mute(s.ops.ecatOps)
    && (s.cm.sent == [] ==>
          s.taken == 0 && s.ops.cmOps == []
          && AckDisable !in s.ops.shared.events && AckEnable !in s.ops.shared.events)
  }

  /** A step of RT Ops other than a command. */
  lemma RtKeepsHonest(o: Ops, a: RtOps.Action)
    requires !a.Command? && Mute(o.callOps) && Mute(o.ecatOps) && o.cmOps == []
    requires AckDisable !in o.shared.events && AckEnable !in o.shared.events
    ensures var t := RtOps.Step(o, a);
            t.cmOps == [] && AckDisable !in t.shared.events && AckEnable !in t.shared.events
  {
    assert o.callOps != [] ==> o.callOps[0] in o.callOps;
    assert o.ecatOps != [] ==> o.ecatOps[0] in o.ecatOps;
  }

  lemma RtKeepsMute(o: Ops, a: RtOps.Action)
    requires Mute(o.callOps) && Mute(o.ecatOps)
    ensures Mute(RtOps.Step(o, a).callOps) && Mute(RtOps.Step(o, a).ecatOps)
  {
    hide Commanded;
    assert o.callOps != [] ==> forall op :: op in o.callOps[1..] ==> op in o.callOps;
    assert o.ecatOps != [] ==> forall op :: op in o.ecatOps[1..] ==> op in o.ecatOps;
  }

  lemma {:induction false} AlwaysHonest(ss: seq<Chain>, actions: seq<Link>, n: nat)
    requires IsRun(ss, actions) && n <= |actions|
    ensures Honest(ss[n]) && Cms.Fifo(ss[n].cm) && (ss[n].cm.pending || ss[n].cm.buffer == [])
    ensures forall m :: 0 <= m <= n ==> ss[m].cm.sent <= ss[n].cm.sent
  {
    hide HandlerStep, RtOps.Step;
    if n > 0 {
      AlwaysHonest(ss, actions, n - 1);
      assert Steps(ss, actions, n - 1);
      var s := ss[n - 1];
      match actions[n - 1]
      case Hook(lost, events, messages) => CmGoesOn(s.cm, Update(Read(s, lost, events), messages));
      case Turn => CmGoesOn(s.cm, Dispatch);
      case Take(lost, halt) =>
        RtKeepsMute(s.ops, Command(if s.taken + lost < |s.cm.sent| then s.cm.sent[s.taken + lost] else EStop, halt));
      case Rt(a) =>
        RtKeepsMute(s.ops, a);
        if s.cm.sent == [] && !a.Command? {
          RtKeepsHonest(s.ops, a);
        }
    }
  }

  lemma CmGoesOn(c: Cm, a: Handler)
    requires Cms.Fifo(c) && (c.pending || c.buffer == [])
    ensures var t := HandlerStep(c, a);
            Cms.Fifo(t) && (t.pending || t.buffer == []) && c.sent <= t.sent
  {
    hide Processed, Taken;
    Cms.StepKeepsFifo(c, a);
    var inv := (d: Cm) => c.sent <= d.sent;
    forall d: Cm | inv(d) && d.buffer != []
      ensures inv(Taken(d))
    {
      TakenSends(d);
    }
    match a
    case Update(events, messages) => Cms.ProcessedKeeps(inv, Queued(c, events, messages));
    case Dispatch =>
      if c.incoming != [] {
        Cms.ProcessedKeeps(inv, Acknowledged(c.(incoming := c.incoming[1..]), c.incoming[0]).(pending := false));
      }
  }

  /** A command that is taken sends at most one state, and enabled only if it is RUN. */
  lemma TakenSends(c: Cm)
    requires c.buffer != []
    ensures var t := Taken(c);
            && t.handled == c.handled + [c.buffer[0]]
            && (t.sent == c.sent || exists x :: t.sent == c.sent + [x] && (x == Enabled ==> c.buffer[0] == UserRun))
  {
  }

  // ---------------------------------------------------------------------------------------------
  // The Controller Manager within the chain

  function HandlerOf(s: Chain, a: Link): Handler {
    match a
    case Hook(lost, events, messages) => Update(Read(s, lost, events), messages)
    case Turn => Dispatch
    case _ => Update([], [])   // which changes nothing
  }

  function CmIn(s: Chain): Cm {
    s.cm
  }

  lemma CmRun(ss: seq<Chain>, actions: seq<Link>)
    requires IsRun(ss, actions)
    ensures Cms.IsRun(Mapped(CmIn, ss), MappedPairs(HandlerOf, ss, actions))
    ensures Cms.Solicited(Mapped(CmIn, ss), MappedPairs(HandlerOf, ss, actions))
  {
    hide HandlerStep, RtOps.Step;
    var cs, a := Mapped(CmIn, ss), MappedPairs(HandlerOf, ss, actions);
    forall k | 0 <= k < |a|
      ensures Cms.Steps(cs, a, k) && Cms.Answers(cs[k], a[k])
    {
      assert Steps(ss, actions, k);
      AlwaysHonest(ss, actions, k);
      if !actions[k].Hook? && !actions[k].Turn? {
        Cms.EventsArrive(ss[k].cm, a[k]);
        assert ss[k].cm.incoming + [] == ss[k].cm.incoming;
      }
    }
  }

  /** In the chain the scripts alternate whatever event the manager awaits at first. */
  lemma ScriptsAlternate(ss: seq<Chain>, actions: seq<Link>, n: nat)
    requires IsRun(ss, actions) && n <= |actions|
    ensures Cms.Alternates(ss[n].cm.scripts)
  {
    hide IsRun, Cms.Alternates, Cms.IsRun, Cms.Solicited;
    Lengths(ss, actions);
    CmRun(ss, actions);
    Cms.ScriptsAlternate(Mapped(CmIn, ss), MappedPairs(HandlerOf, ss, actions), n);
  }

  lemma Lengths(ss: seq<Chain>, actions: seq<Link>)
    requires IsRun(ss, actions)
    ensures |ss| == |actions| + 1
  {
  }

  // ---------------------------------------------------------------------------------------------
  // RT Ops within the chain

  function ActionOf(s: Chain, a: Link): RtOps.Action {
    match a
    case Take(lost, halt) =>
      if s.taken + lost < |s.cm.sent| then Command(s.cm.sent[s.taken + lost], halt) else NewState(false)
    case Rt(action) => if action.Command? then NewState(false) else action
    case _ => NewState(false)   // which changes nothing
  }

  function OpsIn(s: Chain): Ops {
    s.ops
  }

  lemma OpsRun(ss: seq<Chain>, actions: seq<Link>)
    requires IsRun(ss, actions)
    ensures Rts.IsRun(Mapped(OpsIn, ss), MappedPairs(ActionOf, ss, actions))
  {
    hide HandlerStep, LoopStep, Commanded;
    var os, a := Mapped(OpsIn, ss), MappedPairs(ActionOf, ss, actions);
    forall k | 0 <= k < |a|
      ensures Rts.Steps(os, a, k)
    {
      assert Steps(ss, actions, k);
    }
  }

  // ---------------------------------------------------------------------------------------------
  // Who enables

  function Runs(c: Cm): nat {
    multiset(c.handled)[UserRun]
  }

  /** Each state enabled that the manager has sent answers a RUN of its own. */
  predicate RunsCover(c: Cm) {
    multiset(c.sent)[Enabled] <= Runs(c)
  }

  lemma StepKeepsCover(c: Cm, a: Handler)
    requires RunsCover(c)
    ensures RunsCover(HandlerStep(c, a))
  {
    hide Processed, Acknowledged, Taken;
    forall d: Cm | RunsCover(d) && d.buffer != []
      ensures RunsCover(Taken(d))
    {
      TakenSends(d);
    }
    match a
    case Update(events, messages) => Cms.ProcessedKeeps(d => RunsCover(d), Queued(c, events, messages));
    case Dispatch =>
      if c.incoming != [] {
        var d := c.(incoming := c.incoming[1..]);
        AcknowledgedSendsNothing(d, c.incoming[0]);
        Cms.ProcessedKeeps(d => RunsCover(d), Acknowledged(d, c.incoming[0]).(pending := false));
      }
  }

  lemma AcknowledgedSendsNothing(c: Cm, event: Event)
    ensures Acknowledged(c, event).sent == c.sent && Acknowledged(c, event).handled == c.handled
  {
  }

  /** How often RT Ops has become enabled. */
  function Entries(ss: seq<Chain>, n: nat): nat
    requires n < |ss|
  {
    if n == 0 then 0
    else Entries(ss, n - 1)
         + if ss[n - 1].ops.shared.current != Enabled && ss[n].ops.shared.current == Enabled then 1 else 0
  }

  /** The writes of enabled, done or yet to do, answer commands that RT Ops has taken. */
  predicate EntriesCovered(s: Chain, entries: nat) {
    && s.taken <= |s.cm.sent|
    && entries + multiset(s.ops.cmOps)[Write(Enabled)] <= multiset(s.cm.sent[..s.taken])[Enabled]
  }

  lemma EnablesOnce(s: RtState, halt: bool)
    ensures multiset(Commanded(s, halt))[Write(Enabled)] <= if s == Enabled then 1 else 0
  {
    Rts.CommandedWrites(s, halt);
    if s == Enabled {
      assert Commanded(s, false) == [Write(Enabled), Send(AckEnable)];
    }
  }

  lemma TakeKeepsCovered(s: Chain, lost: nat, halt: bool, entries: nat)
    requires EntriesCovered(s, entries) && s.taken + lost < |s.cm.sent| && s.ops.cmOps == []
    ensures EntriesCovered(ChainStep(s, Take(lost, halt)), entries)
  {
    hide HandlerStep, Commanded, LoopStep;
    var sent := s.cm.sent;
    EnablesOnce(sent[s.taken + lost], halt);
    assert sent[..s.taken + lost + 1] == sent[..s.taken] + sent[s.taken..s.taken + lost] + [sent[s.taken + lost]];
  }

  lemma RtKeepsCovered(s: Chain, a: RtOps.Action, entries: nat)
    requires EntriesCovered(s, entries) && Rts.Sound(s.ops) && !a.Command?
    ensures var t := ChainStep(s, Rt(a));
            var enters := s.ops.shared.current != Enabled && t.ops.shared.current == Enabled;
            EntriesCovered(t, entries + if enters then 1 else 0)
  {
    hide HandlerStep, RtOps.Step;
    Rts.StepWrites(s.ops, a);
    Rts.CmOpsStep(s.ops, a);
    assert s.ops.cmOps != [] ==> s.ops.cmOps == [s.ops.cmOps[0]] + s.ops.cmOps[1..];
  }

  lemma {:induction false} AlwaysCovered(ss: seq<Chain>, actions: seq<Link>, n: nat)
    requires IsRun(ss, actions) && n <= |actions|
    ensures RunsCover(ss[n].cm) && EntriesCovered(ss[n], Entries(ss, n))
  {
    hide HandlerStep, RtOps.Step, RunsCover, EntriesCovered;
    if n == 0 {
      StartIsCovered(ss[0]);
    } else {
      AlwaysCovered(ss, actions, n - 1);
      AlwaysHonest(ss, actions, n);
      assert Steps(ss, actions, n - 1);
      var s := ss[n - 1];
      StepKeepsCover(s.cm, HandlerOf(s, actions[n - 1]));
      match actions[n - 1]
      case Hook(_, _, _) => SentGrows(s, ss[n], Entries(ss, n - 1));
      case Turn => SentGrows(s, ss[n], Entries(ss, n - 1));
      case Take(lost, halt) =>
        if s.taken + lost < |s.cm.sent| && s.ops.cmOps == [] {
          TakeKeepsCovered(s, lost, halt, Entries(ss, n - 1));
          TakesNoState(s, lost, halt);
        }
      case Rt(a) =>
        if !a.Command? {
          OpsRun(ss, actions);
          Rts.AlwaysSound(Mapped(OpsIn, ss), MappedPairs(ActionOf, ss, actions), n - 1);
          RtKeepsCovered(s, a, Entries(ss, n - 1));
        }
    }
  }

  lemma StartIsCovered(s: Chain)
    requires s.cm == Start(s.cm.awaited) && Initial(s.ops) && s.taken == 0
    ensures RunsCover(s.cm) && EntriesCovered(s, 0)
  {
  }

  lemma SentGrows(s: Chain, t: Chain, entries: nat)
    requires EntriesCovered(s, entries) && s.cm.sent <= t.cm.sent && t.ops == s.ops && t.taken == s.taken
    ensures EntriesCovered(t, entries)
  {
    assert t.cm.sent[..s.taken] == s.cm.sent[..s.taken];
  }

  lemma TakesNoState(s: Chain, lost: nat, halt: bool)
    ensures ChainStep(s, Take(lost, halt)).ops.shared == s.ops.shared
  {
    hide Commanded, HandlerStep;
  }

  /** RT Ops becomes enabled at most once for each RUN command of the user that the Controller Manager has
      handled: none is used twice, whatever is stopped and reset in between. */
  lemma EnabledByUser(ss: seq<Chain>, actions: seq<Link>, n: nat)
    requires IsRun(ss, actions) && n <= |actions|
    ensures Entries(ss, n) <= Runs(ss[n].cm) <= multiset(ss[n].cm.arrived)[UserRun]
  {
    hide Steps, Entries, RunsCover, EntriesCovered, Runs;
    AlwaysCovered(ss, actions, n);
    AlwaysHonest(ss, actions, n);
    CoveredByRuns(ss[n], Entries(ss, n));
  }

  lemma CoveredByRuns(s: Chain, entries: nat)
    requires RunsCover(s.cm) && EntriesCovered(s, entries) && Cms.Fifo(s.cm)
    ensures entries <= Runs(s.cm) <= multiset(s.cm.arrived)[UserRun]
  {
    var sent := s.cm.sent;
    assert sent == sent[..s.taken] + sent[s.taken..];
  }

  /** Whenever it was not enabled, it has become so again since. */
  lemma {:induction false} EnabledIsEntered(ss: seq<Chain>, i: nat, n: nat)
    requires i <= n < |ss| && ss[i].ops.shared.current != Enabled
    ensures Entries(ss, i) <= Entries(ss, n)
    ensures ss[n].ops.shared.current == Enabled ==> Entries(ss, i) < Entries(ss, n)
  {
    if n > i {
      EnabledIsEntered(ss, i, n - 1);
    }
  }

  // ---------------------------------------------------------------------------------------------
  // Falling out of step, for real

  /** RT Ops reads the next command and carries it out. */
  function CarryOut(state: RtState): seq<Link> {
    [Take(0, false)] + Repeat(Rt(CmStep), |Commanded(state, false)|)
  }

  /** Steps of RT Ops alone. */
  lemma {:induction false} RtAlone(s: Chain, actions: seq<RtOps.Action>)
    requires forall a :: a in actions ==> !a.Command?
    ensures After(ChainStep, s, Mapped(Own, actions)) == s.(ops := After(RtOps.Step, s.ops, actions))
    decreases |actions|
  {
    hide RtOps.Step, HandlerStep;
    if actions != [] {
      RtAlone(ChainStep(s, Rt(actions[0])), actions[1..]);
      assert Mapped(Own, actions)[1..] == Mapped(Own, actions[1..]);
    }
  }

  function Own(a: RtOps.Action): Link {
    Rt(a)
  }

  lemma CarriesOut(s: Chain, state: RtState)
    requires s.taken < |s.cm.sent| && s.cm.sent[s.taken] == state && s.ops.cmOps == []
    ensures After(ChainStep, s, CarryOut(state))
         == s.(taken := s.taken + 1, ops := s.ops.(shared := DoAll(s.ops.shared, Commanded(state, false))))
  {
    hide HandlerStep, LoopStep, Commanded, DoAll;
    var ops := Commanded(state, false);
    AfterCons(ChainStep, s, Take(0, false), Repeat(Rt(CmStep), |ops|));
    var t := ChainStep(s, Take(0, false));
    assert t.ops == s.ops.(cmOps := ops);
    RtAlone(t, Repeat(CmStep, |ops|));
    assert Mapped(Own, Repeat(CmStep, |ops|)) == Repeat(Rt(CmStep), |ops|);
    Rts.CmDrains(t.ops);
  }

  /** Both at rest, with what each side has sent read by the other. */
  predicate AtRest(s: Chain) {
    && s.taken == |s.cm.sent| && s.passed == |s.ops.shared.events|
    && s.ops.cmOps == [] && s.ops.shared.current != EStop && s.cm.buffer == []
  }

  /** A controller is loaded: STOP, and the acknowledgement of DISABLE. */
  lemma LoadsAlone(s: Chain, r: Request)
    requires AtRest(s) && s.cm.state == NoControllerLoaded && !s.cm.pending && s.cm.incoming == []
    requires r.starts && r.name != "" && r.name != "none"
    ensures After(ChainStep, s, [Hook(0, 0, [Gui(UserStop, r)])] + CarryOut(Disabled) + [Hook(0, 1, []), Turn])
         == s.(cm := Cms.LoadedBy(s.cm, r).(pending := false, loaded := true),
               taken := s.taken + 1, passed := s.passed + 1, ops := s.ops.(shared := Acks.Done(s.ops.shared, Disabled)))
  {
    hide HandlerStep, RtOps.Step, DoAll, Commanded, CarryOut, After;
    var a, b, d := Hook(0, 0, [Gui(UserStop, r)]), CarryOut(Disabled), [Hook(0, 1, []), Turn];
    AfterConcat(ChainStep, s, [a] + b, d);
    AfterConcat(ChainStep, s, [a], b);
    AfterOne(ChainStep, s, a);
    Cms.Loads(s.cm, r);
    var s1 := ChainStep(s, a);
    assert s1.cm.sent[s1.taken] == Disabled;
    CarriesOut(s1, Disabled);
    Acks.DoneAlone(s1.ops.shared, Disabled);
    var s2 := After(ChainStep, s1, b);
    AfterTwo(s2, Hook(0, 1, []), Turn);
    assert Read(s2, 0, 1) == [AckDisable];
    Cms.EventsArrive(s2.cm, Update([AckDisable], []));
    Cms.Disables(ChainStep(s2, Hook(0, 1, [])).cm);
  }

  lemma AfterTwo(s: Chain, a: Link, b: Link)
    ensures After(ChainStep, s, [a, b]) == ChainStep(ChainStep(s, a), b)
  {
    hide ChainStep;
    AfterCons(ChainStep, s, a, [b]);
    AfterOne(ChainStep, ChainStep(s, a), b);
    assert [a, b] == [a] + [b];
  }

  /** RUN, STOP and RUN, all carried out by RT Ops in turn. */
  lemma RestartsAlone(s: Chain, r: Request)
    requires AtRest(s) && s.cm.state == Stopped && !s.cm.pending && s.cm.awaited == AckDisable && s.cm.incoming == []
    ensures var hook := Hook(0, 0, [Gui(UserRun, r), Gui(UserStop, r), Gui(UserRun, r)]);
            After(ChainStep, s, [hook] + CarryOut(Enabled) + CarryOut(Disabled) + CarryOut(Enabled))
            == Toggled(s).(cm := Cms.Restarted(s.cm, r))
  {
    hide ChainStep, CarryOut;
    var a := Hook(0, 0, [Gui(UserRun, r), Gui(UserStop, r), Gui(UserRun, r)]);
    var d := CarryOut(Enabled) + CarryOut(Disabled) + CarryOut(Enabled);
    assert [a] + CarryOut(Enabled) + CarryOut(Disabled) + CarryOut(Enabled) == [a] + d;
    AfterCons(ChainStep, s, a, d);
    RunsHook(s, r);
    DoesThree(ChainStep(s, a), d);
  }

  /** RT Ops has enabled, disabled and enabled again. */
  function Toggled(s: Chain): Chain {
    s.(taken := s.taken + 3,
       ops := s.ops.(shared := Shared(Enabled, true, s.ops.shared.events + [AckEnable, AckDisable, AckEnable])))
  }

  lemma DoesThree(s: Chain, d: seq<Link>)
    requires s.taken + 3 == |s.cm.sent| && s.cm.sent[s.taken..] == [Enabled, Disabled, Enabled] && s.ops.cmOps == []
    requires s.ops.shared.current != EStop && d == CarryOut(Enabled) + CarryOut(Disabled) + CarryOut(Enabled)
    ensures After(ChainStep, s, d) == Toggled(s)
  {
    hide ChainStep, CarryOut, After;
    var w := s.cm.sent[s.taken..];
    assert s.cm.sent[s.taken] == w[0] && s.cm.sent[s.taken + 1] == w[1] && s.cm.sent[s.taken + 2] == w[2];
    AfterThree(s, CarryOut(Enabled), CarryOut(Disabled), CarryOut(Enabled));
    Does(s, Enabled);
    var s1 := s.(taken := s.taken + 1, ops := s.ops.(shared := Acks.Done(s.ops.shared, Enabled)));
    Does(s1, Disabled);
    var s2 := s1.(taken := s.taken + 2, ops := s1.ops.(shared := Acks.Done(s1.ops.shared, Disabled)));
    Does(s2, Enabled);
  }

  lemma AfterThree(s: Chain, a: seq<Link>, b: seq<Link>, d: seq<Link>)
    ensures After(ChainStep, s, a + b + d) == After(ChainStep, After(ChainStep, After(ChainStep, s, a), b), d)
  {
    hide ChainStep, After;
    AfterConcat(ChainStep, s, a + b, d);
    AfterConcat(ChainStep, s, a, b);
  }

  lemma RunsHook(s: Chain, r: Request)
    requires s.cm.state == Stopped && !s.cm.pending && s.cm.buffer == [] && s.cm.incoming == []
    ensures ChainStep(s, Hook(0, 0, [Gui(UserRun, r), Gui(UserStop, r), Gui(UserRun, r)]))
         == s.(cm := Cms.Restarted(s.cm, r))
  {
    hide HandlerStep;
    assert Read(s, 0, 0) == [];
    Cms.RunsStopsRuns(s.cm, r);
  }

  /** RT Ops reads the next command, enables or disables and acknowledges. */
  lemma Does(s: Chain, state: RtState)
    requires s.taken < |s.cm.sent| && s.cm.sent[s.taken] == state && s.ops.cmOps == []
    requires s.ops.shared.current != EStop && (state == Disabled || state == Enabled)
    ensures After(ChainStep, s, CarryOut(state))
         == s.(taken := s.taken + 1, ops := s.ops.(shared := Acks.Done(s.ops.shared, state)))
  {
    hide ChainStep, DoAll, Commanded;
    CarriesOut(s, state);
    Acks.DoneAlone(s.ops.shared, state);
  }

  /** The answers arrive. */
  lemma AnswersArrive(s: Chain)
    requires s.cm.state == Running && !s.cm.pending && s.cm.awaited == AckDisable && s.cm.incoming == []
    requires s.cm.buffer == [] && s.passed + 3 == |s.ops.shared.events|
    requires s.ops.shared.events[s.passed..] == [AckEnable, AckDisable, AckEnable]
    ensures After(ChainStep, s, [Hook(0, 3, []), Turn] + [Turn])
         == s.(cm := s.cm.(state := Stopped, loaded := true, incoming := [AckEnable]), passed := s.passed + 3)
  {
    hide HandlerStep;
    AfterConcat(ChainStep, s, [Hook(0, 3, []), Turn], [Turn]);
    AfterTwo(s, Hook(0, 3, []), Turn);
    var s1 := ChainStep(s, Hook(0, 3, []));
    assert Read(s, 0, 3) == [AckEnable, AckDisable, AckEnable];
    Cms.EventsArrive(s.cm, Update([AckEnable, AckDisable, AckEnable], []));
    Cms.Skips(s1.cm);
    var s2 := ChainStep(s1, Turn);
    AfterOne(ChainStep, s2, Turn);
    Cms.Disables(s2.cm);
  }

  /** Stopped, and waiting for nothing that would take it to another state. */
  predicate Deaf(c: Cm) {
    && c.state in {Stopped, EStopped} && c.awaited !in {AckReset, AckEnable, AckNoController}
    && c == c.(pending := false, buffer := [])
  }

  /** In the chain, with nothing lost and every command answered in its turn, three quick commands of the user
      end with RT Ops enabled and a Controller Manager that believes the robot stopped, and so drops STOP and
      E_STOP from then on. */
  lemma QuickRestart(name: string, awaited: Event) returns (ss: seq<Chain>, actions: seq<Link>)
    requires name != "" && name != "none"
    ensures IsRun(ss, actions) && ss[0].cm.awaited == awaited
    ensures var t := ss[|actions|];
            t.ops.shared.current == Enabled && t.taken == |t.cm.sent| && t.cm.loaded && Deaf(t.cm)
  {
    hide ChainStep;
    var r := Request(name, true);
    var s := Chain(Start(awaited), Acks.Boot(), 0, 0);
    var a := [Hook(0, 0, [Gui(UserStop, r)])] + CarryOut(Disabled) + [Hook(0, 1, []), Turn];
    var hook := Hook(0, 0, [Gui(UserRun, r), Gui(UserStop, r), Gui(UserRun, r)]);
    var b := [hook] + CarryOut(Enabled) + CarryOut(Disabled) + CarryOut(Enabled);
    var d := [Hook(0, 3, []), Turn] + [Turn];
    StartsAtRest(awaited);
    LoadsAlone(s, r);
    var s1 := After(ChainStep, s, a);
    RestartsAlone(s1, r);
    var s2 := After(ChainStep, s1, b);
    assert s2.ops.shared.events[s2.passed..] == [AckEnable, AckDisable, AckEnable];
    AnswersArrive(s2);
    AfterConcat(ChainStep, s, a, b);
    AfterConcat(ChainStep, s, a + b, d);
    actions := a + b + d;
    ss := Trace(ChainStep, s, actions);
    TraceSteps(ChainStep, s, actions);
  }

  lemma StartsAtRest(awaited: Event)
    ensures AtRest(Chain(Start(awaited), Acks.Boot(), 0, 0))
  {
  }
}
