/**
  What the acknowledgements of RT Ops say about its state, over all interleavings. Commands and resets are
  acknowledged although the latch may have refused them.
 */
module RtOpsAcks {
  import M = Medulla
  import opened RtOps
  import opened RtOpsRuns
  import opened Traces

  // ---------------------------------------------------------------------------------------------
  // Acknowledgements of commands

  /** The state that a command asks for. */
  function Asked(a: Action): RtState
    requires a.Command?
  {
    if a.new_ == Enabled && a.shouldHalt then Disabled else a.new_
  }

  /** Step k is the write of command j itself, after which only its acknowledgement is left to do. */
  predicate OwnWrite(os: seq<Ops>, actions: seq<Action>, j: nat, k: nat) {
    && j < k < |actions| < |os|
    && From(os, actions, j, k) && actions[k].CmStep? && !actions[j].new_.Invalid?
    && os[k].cmOps == [Write(Asked(actions[j]))] + Ack(Asked(actions[j]))
  }

  /** The Controller Manager's thread does not move between two steps. */
  predicate CmRests(actions: seq<Action>, k: nat, m: nat) {
    m <= |actions| && forall i :: k < i < m ==> !actions[i].CmStep?
  }

  /** Whatever comes between, a command gets what it asked for exactly if the state at its own write is not
      e-stop, or it asks for e-stop or reset; and its acknowledgement is sent either way. */
  lemma AckExact(os: seq<Ops>, actions: seq<Action>, j: nat, k: nat, m: nat)
    requires IsRun(os, actions) && j < k < m < |actions|
    requires OwnWrite(os, actions, j, k) && actions[m].CmStep? && CmRests(actions, k, m)
    ensures var asked := Asked(actions[j]);
            os[k + 1].shared.current == asked <==> os[k].shared.current != EStop || asked == EStop || asked == Resetting
    ensures Asked(actions[j]) != Resetting ==>
              exists e :: Ack(Asked(actions[j])) == [Send(e)] && os[m + 1].shared.events == os[m].shared.events + [e]
  {
    hide Commanded, LoopStep;
    var asked := Asked(actions[j]);
    assert Steps(os, actions, k) && Steps(os, actions, m);
    assert os[k].cmOps[1..] == Ack(asked);
    if asked != Resetting {
      CmWaits(os, actions, k + 1, m);
      assert Ack(asked) == [Send(Ack(asked)[0].event)];
    }
  }

  lemma {:induction false} CmWaits(os: seq<Ops>, actions: seq<Action>, k: nat, m: nat)
    requires IsRun(os, actions) && k <= m <= |actions| && os[k].cmOps != []
    requires forall i :: k <= i < m ==> !actions[i].CmStep?
    ensures os[m].cmOps == os[k].cmOps
  {
    hide Step;
    if m > k {
      CmWaits(os, actions, k, m - 1);
      assert Steps(os, actions, m - 1);
      CmOpsStep(os[m - 1], actions[m - 1]);
    }
  }

  /** Every acknowledgement of a command follows such a write. */
  lemma AckOrigin(os: seq<Ops>, actions: seq<Action>, m: nat, e: Event) returns (j: nat, k: nat)
    requires IsRun(os, actions) && m < |actions| && actions[m].CmStep? && os[m].cmOps == [Send(e)]
    ensures j < k < m && OwnWrite(os, actions, j, k) && CmRests(actions, k, m) && Ack(Asked(actions[j])) == [Send(e)]
  {
    hide Step, Commanded, From, Ack;
    CmOrigin(os, actions, m);
    j :| j < m && From(os, actions, j, m);
    LastOp(os, actions, j, m, e);
    k := CmBefore(os, actions, j, m);
    StillToDo(os, actions, j, k);
  }

  lemma StillToDo(os: seq<Ops>, actions: seq<Action>, j: nat, n: nat)
    requires j < n <= |actions| < |os| && From(os, actions, j, n)
    ensures var ops := Commanded(actions[j].new_, actions[j].shouldHalt);
            |os[n].cmOps| <= |ops| && os[n].cmOps == ops[|ops| - |os[n].cmOps|..]
  {
    hide Commanded;
  }

  lemma LastOp(os: seq<Ops>, actions: seq<Action>, j: nat, m: nat, e: Event)
    requires j < m <= |actions| < |os| && From(os, actions, j, m) && os[m].cmOps == [Send(e)]
    ensures actions[j].Command? && !actions[j].new_.Invalid?
    ensures Ack(Asked(actions[j])) == [Send(e)]
    ensures var ops := Commanded(actions[j].new_, actions[j].shouldHalt);
            |ops| >= 2 && ops[|ops| - 2..] == [Write(Asked(actions[j]))] + Ack(Asked(actions[j]))
  {
    hide Commanded, Ack;
    var a := actions[j];
    var ops := Commanded(a.new_, a.shouldHalt);
    CommandedEnds(a.new_, a.shouldHalt, e);
    assert os[m].cmOps[0] == ops[|ops| - 1];
    assert a == Command(a.new_, a.shouldHalt);
  }

  /** What a command does before its own write. */
  function Preamble(s: RtState): seq<Op> {
    match s
    case EStop => Stop(CmCommandEStop)
    case Disabled => [Load(true)]
    case NoController => [Load(false)]
    case Resetting => [Load(false)]
    case _ => []
  }

  lemma CommandedSplits(s: RtState, halt: bool)
    requires !s.Invalid?
    ensures Commanded(s, halt) == Preamble(s) + ([Write(Asked(Command(s, halt)))] + Ack(Asked(Command(s, halt))))
  {
  }

  /** How the list of a command ends. */
  lemma CommandedEnds(s: RtState, halt: bool, e: Event)
    ensures Commanded(s, halt) != []
    ensures var ops, asked := Commanded(s, halt), Asked(Command(s, halt));
            ops[|ops| - 1] == Send(e) ==>
              && |ops| >= 2 && !s.Invalid? && Ack(asked) == [Send(e)]
              && ops[|ops| - 2..] == [Write(asked)] + Ack(asked)
  {
    hide Commanded, Ack, Asked, Preamble;
    var ops, asked := Commanded(s, halt), Asked(Command(s, halt));
    if s.Invalid? {
      InvalidEnds(s, halt);
    } else {
      CommandedSplits(s, halt);
      AckIsShort(asked);
      EndsOf(Preamble(s), Write(asked), Ack(asked), ops);
    }
  }

  lemma InvalidEnds(s: RtState, halt: bool)
    requires s.Invalid?
    ensures var ops := Commanded(s, halt);
            ops != [] && ops[|ops| - 1] == Load(false)
  {
  }

  lemma AckIsShort(asked: RtState)
    ensures |Ack(asked)| <= 1
  {
  }

  lemma EndsOf(first: seq<Op>, w: Op, acks: seq<Op>, ops: seq<Op>)
    requires ops == first + ([w] + acks) && w.Write? && |acks| <= 1
    ensures ops[|ops| - 1].Send? ==> |ops| >= 2 && acks == [ops[|ops| - 1]] && ops[|ops| - 2..] == [w] + acks
  {
    if acks == [] {
      assert ops[|ops| - 1] == w;
    } else {
      assert ops[|ops| - 1] == acks[0];
    }
  }

  /** The step of the command thread before its last one. */
  lemma {:induction false} CmBefore(os: seq<Ops>, actions: seq<Action>, j: nat, m: nat) returns (k: nat)
    requires IsRun(os, actions) && m <= |actions| && j < m && From(os, actions, j, m) && |os[m].cmOps| == 1
    requires |Commanded(actions[j].new_, actions[j].shouldHalt)| >= 2
    ensures j < k < m && From(os, actions, j, k) && actions[k].CmStep? && CmRests(actions, k, m) && |os[k].cmOps| == 2
  {
    hide Step, Commanded;
    assert Steps(os, actions, m - 1);
    CmOpsStep(os[m - 1], actions[m - 1]);
    var ops := Commanded(actions[j].new_, actions[j].shouldHalt);
    assert m - 1 > j;
    FromBefore(os, actions, j, m);
    if actions[m - 1].CmStep? {
      k := m - 1;
    } else {
      k := CmBefore(os, actions, j, m - 1);
    }
  }

  lemma FromBefore(os: seq<Ops>, actions: seq<Action>, j: nat, m: nat)
    requires IsRun(os, actions) && m <= |actions| && j + 1 < m && From(os, actions, j, m)
    ensures From(os, actions, j, m - 1)
  {
    hide Step, Commanded;
    CmOrigin(os, actions, m - 1);
    var i: nat :| i < m - 1 && From(os, actions, i, m - 1);
    assert i == j;
  }

  /** The same of a command that nothing interrupts, from the state in which it comes. */
  lemma AckUninterrupted(s: Shared, new_: RtState, halt: bool)
    requires !new_.Invalid?
    ensures var asked := if new_ == Enabled && halt then Disabled else new_;
            var t := DoAll(s, Commanded(new_, halt));
            && (t.current == asked <==> s.current != EStop || asked == EStop || asked == Resetting)
            && (asked != Resetting ==> t.events != [] && Ack(asked) == [Send(t.events[|t.events| - 1])])
  {
    var asked := Asked(Command(new_, halt));
    var t := DoAll(s, Preamble(new_));
    CommandedSplits(new_, halt);
    PreambleKeeps(s, new_);
    OwnOps(t, asked);
    hide *;
    DoAllConcat(s, Preamble(new_), [Write(asked)] + Ack(asked));
  }

  lemma PreambleKeeps(s: Shared, new_: RtState)
    requires !new_.Invalid?
    ensures DoAll(s, Preamble(new_)).current == if new_ == EStop then EStop else s.current
  {
    DoFew(s, Write(EStop), Send(CmCommandEStop));
    DoFew(s, Load(new_ == Disabled), Load(true));
  }

  lemma OwnOps(t: Shared, asked: RtState)
    requires !asked.Invalid?
    ensures var u := DoAll(t, [Write(asked)] + Ack(asked));
            && u.current == Latch(t.current, asked)
            && (asked != Resetting ==> u.events != [] && Ack(asked) == [Send(u.events[|u.events| - 1])])
  {
    if asked == Resetting {
      DoFew(t, Write(asked), Write(asked));
      assert [Write(asked)] + Ack(asked) == [Write(asked)];
    } else {
      DoFew(t, Write(asked), Ack(asked)[0]);
      assert [Write(asked)] + Ack(asked) == [Write(asked), Ack(asked)[0]];
    }
  }

  // ---------------------------------------------------------------------------------------------
  // Acknowledgements of resets

  /** Step c is the read of calcState that completes a reset. */
  predicate ResetRead(os: seq<Ops>, actions: seq<Action>, c: nat) {
    && c < |actions| < |os|
    && actions[c].CallStep? && os[c].call.Calling?
    && os[c].shared.current == Resetting && os[c].resets == MEDULLA_RESET_TIME_MS
  }

  /** Step w is the write that it leads to. */
  predicate ResetWrite(os: seq<Ops>, actions: seq<Action>, w: nat) {
    w < |actions| < |os| && actions[w].CallStep? && os[w].callOps == [Write(NoController), Send(AckReset)]
  }

  /** The controller loop does not move between two steps. */
  predicate LoopRests(actions: seq<Action>, k: nat, m: nat) {
    m <= |actions| && forall i :: k < i < m ==> !actions[i].CallStep?
  }

  predicate SendsReset(os: seq<Ops>, actions: seq<Action>, s: nat) {
    s < |actions| < |os| && os[s + 1].shared.events == os[s].shared.events + [AckReset]
  }

  /** E-stop was entered after c and lasts until w. */
  predicate StoppedSince(os: seq<Ops>, c: nat, w: nat) {
    && w < |os|
    && exists e :: c <= e < w && os[e].shared.current != EStop && forall m :: e < m <= w ==> os[m].shared.current == EStop
  }

  /** Every ACK_RESET that is ever sent answers a read of the state reset that brought the counter to its end,
      with one write in between; and that write took effect exactly if no e-stop that came after the read
      lasted until it. */
  lemma AckResetExact(os: seq<Ops>, actions: seq<Action>, s: nat)
    requires IsRun(os, actions) && s < |actions| && SendsReset(os, actions, s)
    ensures exists c: nat, w: nat | c < w < s ::
              && ResetRead(os, actions, c) && ResetWrite(os, actions, w)
              && LoopRests(actions, c, w) && LoopRests(actions, w, s)
              && (os[w + 1].shared.current == NoController <==> !StoppedSince(os, c, w))
  {
    hide Step, Commanded, StoppedSince;
    OnlyLoopSends(os, actions, s);
    var w := WriteBefore(os, actions, s);
    var c := ReadBefore(os, actions, w);
    StopLasts(os, c, w);
    assert Steps(os, actions, w);
    WritesNoController(os[w], actions[w]);
  }

  lemma WritesNoController(o: Ops, a: Action)
    requires a.CallStep? && o.callOps == [Write(NoController), Send(AckReset)]
    ensures Step(o, a).shared.current == NoController <==> o.shared.current != EStop
  {
  }

  lemma {:induction false} StopLasts(os: seq<Ops>, c: nat, w: nat)
    requires c <= w < |os| && os[c].shared.current != EStop
    ensures os[w].shared.current == EStop <==> StoppedSince(os, c, w)
  {
    if os[w].shared.current == EStop {
      if os[w - 1].shared.current == EStop {
        StopLasts(os, c, w - 1);
      } else {
        assert forall m :: w - 1 < m <= w ==> os[m].shared.current == EStop;
      }
    }
  }

  /** Where ACK_RESET may stand among what the loop has yet to do. */
  predicate ResetShape(ops: seq<Op>) {
    Send(AckReset) in ops ==> ops == [Send(AckReset)] || ops == [Write(NoController), Send(AckReset)]
  }

  lemma LoopOpsStep(o: Ops, a: Action)
    requires ResetShape(o.callOps)
    ensures var t := Step(o, a);
            && ResetShape(t.callOps)
            && (!a.CallStep? ==> t.callOps == o.callOps)
            && (t.callOps == [Send(AckReset)] && a.CallStep? ==> o.callOps == [Write(NoController), Send(AckReset)])
            && (t.callOps == [Write(NoController), Send(AckReset)] && a.CallStep? ==>
                  o.callOps == [] && o.call.Calling? && o.shared.current == Resetting
                  && o.resets >= MEDULLA_RESET_TIME_MS)
  {
    if o.callOps != [] {
      assert forall op :: op in o.callOps[1..] ==> op in o.callOps;
      assert [Write(NoController), Send(AckReset)][1..] == [Send(AckReset)];
      assert [Send(AckReset)][1..] == [];
      if Send(AckReset) in o.callOps[1..] {
        assert o.callOps == [Write(NoController), Send(AckReset)];
      }
    }
  }

  lemma {:induction false} AlwaysShaped(os: seq<Ops>, actions: seq<Action>, n: nat)
    requires IsRun(os, actions) && n <= |actions|
    ensures ResetShape(os[n].callOps)
  {
    hide Step;
    if n > 0 {
      AlwaysShaped(os, actions, n - 1);
      assert Steps(os, actions, n - 1);
      LoopOpsStep(os[n - 1], actions[n - 1]);
    }
  }

  lemma OnlyLoopSends(os: seq<Ops>, actions: seq<Action>, s: nat)
    requires IsRun(os, actions) && s < |actions| && SendsReset(os, actions, s)
    ensures actions[s].CallStep? && os[s].callOps == [Send(AckReset)]
  {
    hide Commanded;
    var o := os[s];
    assert Steps(os, actions, s);
    AlwaysSound(os, actions, s);
    AlwaysShaped(os, actions, s);
    assert os[s + 1].shared.events[|o.shared.events|] == AckReset;
    CmNeverAcksReset(os, actions, s);
    if o.ecatOps != [] {
      assert EcatOp(o.ecatOps[0]);
    }
    if o.callOps != [] {
      assert o.callOps[0] in o.callOps;
    }
  }

  lemma CmNeverAcksReset(os: seq<Ops>, actions: seq<Action>, s: nat)
    requires IsRun(os, actions) && s <= |actions|
    ensures Send(AckReset) !in os[s].cmOps
  {
    hide Step, Commanded;
    if os[s].cmOps != [] {
      CmOrigin(os, actions, s);
      var j: nat :| j < s && From(os, actions, j, s);
      NeverCommanded(actions[j].new_, actions[j].shouldHalt);
    }
  }

  lemma NeverCommanded(s: RtState, halt: bool)
    ensures Send(AckReset) !in Commanded(s, halt)
  {
  }

  lemma {:induction false} WriteBefore(os: seq<Ops>, actions: seq<Action>, s: nat) returns (w: nat)
    requires IsRun(os, actions) && s <= |actions| && os[s].callOps == [Send(AckReset)]
    ensures w < s && ResetWrite(os, actions, w) && LoopRests(actions, w, s)
  {
    hide Step;
    assert s > 0;
    AlwaysShaped(os, actions, s - 1);
    assert Steps(os, actions, s - 1);
    LoopOpsStep(os[s - 1], actions[s - 1]);
    if actions[s - 1].CallStep? {
      w := s - 1;
    } else {
      w := WriteBefore(os, actions, s - 1);
    }
  }

  lemma {:induction false} ReadBefore(os: seq<Ops>, actions: seq<Action>, w: nat) returns (c: nat)
    requires IsRun(os, actions) && w <= |actions| && os[w].callOps == [Write(NoController), Send(AckReset)]
    ensures c < w && ResetRead(os, actions, c) && LoopRests(actions, c, w)
  {
    hide Step;
    assert w > 0;
    AlwaysShaped(os, actions, w - 1);
    AlwaysSound(os, actions, w - 1);
    assert Steps(os, actions, w - 1);
    LoopOpsStep(os[w - 1], actions[w - 1]);
    if actions[w - 1].CallStep? {
      c := w - 1;
    } else {
      c := ReadBefore(os, actions, w - 1);
    }
  }

  // ---------------------------------------------------------------------------------------------
  // Runs from power-up to false acknowledgements

  function Boot(): (o: Ops)
    ensures Initial(o)
  {
    Ops(Shared(NoController, false, []), 0, Waiting, [], [], [], [])
  }

  lemma BootIsRun(actions: seq<Action>)
    ensures IsRun(Trace(Step, Boot(), actions), actions)
    ensures Trace(Step, Boot(), actions)[|actions|] == After(Step, Boot(), actions)
  {
    hide Step;
    TraceSteps(Step, Boot(), actions);
  }

  /** A command that no other thread interrupts. */
  lemma CommandAlone(o: Ops, s: RtState)
    requires o.cmOps == []
    ensures After(Step, o, [Command(s, false)] + Repeat(CmStep, |Commanded(s, false)|))
         == o.(shared := DoAll(o.shared, Commanded(s, false)))
  {
    hide Commanded, DoAll;
    AfterCons(Step, o, Command(s, false), Repeat(CmStep, |Commanded(s, false)|));
    CmDrains(Step(o, Command(s, false)));
  }

  /** A Medulla's error between the command and its write: ENABLED is acknowledged, and e-stop stays. */
  lemma AckEnableWhileStopped() returns (os: seq<Ops>, actions: seq<Action>)
    ensures IsRun(os, actions) && os[|actions|].shared.current == EStop
    ensures os[|actions|].shared.events == [AckDisable, MedullaEStop, AckEnable]
  {
    hide Step;
    var d := [Command(Disabled, false)] + Repeat(CmStep, |Commanded(Disabled, false)|);
    var e := [Command(Enabled, false), NewState(true)] + Repeat(EcatStep, 2) + Repeat(CmStep, 2);
    CommandAlone(Boot(), Disabled);
    DoneAlone(Boot().shared, Disabled);
    AfterConcat(Step, Boot(), d, e);
    EnabledLate(After(Step, Boot(), d), e);
    actions := d + e;
    os := Trace(Step, Boot(), actions);
    BootIsRun(actions);
  }

  /** RT Ops carries out DISABLE, or ENABLE, where no e-stop is set. */
  lemma DoneAlone(s: Shared, state: RtState)
    requires s.current != EStop && (state == Disabled || state == Enabled)
    ensures DoAll(s, Commanded(state, false)) == Done(s, state)
  {
    if state == Disabled {
      DoFew(s, Load(true), Write(state));
      DoFew(DoAll(s, [Load(true), Write(state)]), Send(AckDisable), Send(AckDisable));
      DoAllConcat(s, [Load(true), Write(state)], [Send(AckDisable)]);
    } else {
      DoFew(s, Write(state), Send(AckEnable));
      assert Commanded(state, false) == [Write(state), Send(AckEnable)];
    }
  }

  function Done(s: Shared, state: RtState): Shared {
    Shared(state, state == Disabled || s.loaded, s.events + [if state == Disabled then AckDisable else AckEnable])
  }

  lemma EnabledLate(o: Ops, e: seq<Action>)
    requires o.shared.current == Disabled && o.cmOps == [] && o.ecatOps == []
    requires e == [Command(Enabled, false), NewState(true)] + Repeat(EcatStep, 2) + Repeat(CmStep, 2)
    ensures After(Step, o, e).shared == Shared(EStop, o.shared.loaded, o.shared.events + [MedullaEStop, AckEnable])
  {
    hide Step, DoAll, After;
    var front := [Command(Enabled, false), NewState(true)];
    AfterConcat(Step, o, front, Repeat(EcatStep, 2));
    AfterConcat(Step, o, front + Repeat(EcatStep, 2), Repeat(CmStep, 2));
    EnabledWatched(o);
    var p := After(Step, o, front);
    var q := After(Step, p, Repeat(EcatStep, 2));
    EcatDrains(p);
    CmDrains(q);
    DoFew(p.shared, Write(EStop), Send(MedullaEStop));
    DoFew(q.shared, Write(Enabled), Send(AckEnable));
  }

  lemma EnabledWatched(o: Ops)
    requires o.shared.current == Disabled && o.cmOps == [] && o.ecatOps == []
    ensures After(Step, o, [Command(Enabled, false), NewState(true)])
         == o.(ecatOps := Stop(MedullaEStop), cmOps := [Write(Enabled), Send(AckEnable)])
  {
    hide LoopStep;
    AfterCons(Step, o, Command(Enabled, false), [NewState(true)]);
    AfterOne(Step, Step(o, Command(Enabled, false)), NewState(true));
    assert [Command(Enabled, false), NewState(true)] == [Command(Enabled, false)] + [NewState(true)];
  }

  /** RT Ops in the middle of a reset, with r counted. */
  predicate Resets(o: Ops, r: nat) {
    o == o.(shared := o.shared.(current := Resetting), resets := r, call := Waiting,
            callOps := [], cmOps := [], ecatOps := [])
  }

  const IDLE: Output := Output(M.Idle, ZERO)

  /** One cycle of the controller loop. */
  const CYCLE: seq<Action> := [Control(IDLE), CallStep(false), CallStep(false)]

  function Cycles(n: nat): seq<Action> {
    if n == 0 then [] else CYCLE + Cycles(n - 1)
  }

  lemma CycleCounts(o: Ops, r: nat)
    requires Resets(o, r) && r < MEDULLA_RESET_TIME_MS
    ensures Resets(After(Step, o, CYCLE), r + 1)
  {
    var p := Step(o, Control(IDLE));
    var q := Step(p, CallStep(false));
    AfterCons(Step, o, Control(IDLE), [CallStep(false), CallStep(false)]);
    AfterCons(Step, p, CallStep(false), [CallStep(false)]);
    AfterOne(Step, q, CallStep(false));
    assert CYCLE == [Control(IDLE)] + [CallStep(false), CallStep(false)];
    assert [CallStep(false), CallStep(false)] == [CallStep(false)] + [CallStep(false)];
  }

  lemma {:induction false} CyclesCount(o: Ops, r: nat, n: nat)
    requires Resets(o, r) && r + n <= MEDULLA_RESET_TIME_MS
    ensures Resets(After(Step, o, Cycles(n)), r + n)
    decreases n
  {
    hide Step, Resets;
    if n > 0 {
      CycleCounts(o, r);
      AfterConcat(Step, o, CYCLE, Cycles(n - 1));
      CyclesCount(After(Step, o, CYCLE), r + 1, n - 1);
    }
  }

  lemma ResetAlone(s: Shared)
    ensures DoAll(s, Commanded(Resetting, false)) == Shared(Resetting, false, s.events)
  {
    DoFew(s, Load(false), Write(Resetting));
    assert Commanded(Resetting, false) == [Load(false), Write(Resetting)];
  }

  /** A reset is read to be complete, and nothing of it is done. */
  predicate Ending(o: Ops) {
    o == o.(shared := o.shared.(current := Resetting), callOps := [Write(NoController), Send(AckReset)], cmOps := [])
  }

  lemma ResetAboutToEnd() returns (actions: seq<Action>)
    ensures Ending(After(Step, Boot(), actions))
  {
    hide Step;
    var d := [Command(Resetting, false)] + Repeat(CmStep, |Commanded(Resetting, false)|);
    CommandAlone(Boot(), Resetting);
    ResetAlone(Boot().shared);
    var o := After(Step, Boot(), d);
    var n := MEDULLA_RESET_TIME_MS;
    CyclesCount(o, 0, n);
    var p := After(Step, o, Cycles(n));
    AfterConcat(Step, Boot(), d, Cycles(n));
    var last := [Control(IDLE), CallStep(false)];
    AfterConcat(Step, Boot(), d + Cycles(n), last);
    LastRead(p, last);
    actions := d + Cycles(n) + last;
  }

  lemma LastRead(p: Ops, last: seq<Action>)
    requires Resets(p, MEDULLA_RESET_TIME_MS) && last == [Control(IDLE), CallStep(false)]
    ensures Ending(After(Step, p, last))
  {
    AfterCons(Step, p, Control(IDLE), [CallStep(false)]);
    AfterOne(Step, Step(p, Control(IDLE)), CallStep(false));
    assert last == [Control(IDLE)] + [CallStep(false)];
  }

  /** A Controller Manager e-stop then: the loop acknowledges a reset that never took effect. */
  lemma StopsReset(o: Ops)
    requires Ending(o)
    ensures var t := After(Step, o, [Command(EStop, false)] + Repeat(CmStep, 4) + Repeat(CallStep(false), 2));
            t.shared.current == EStop && t.shared.events == o.shared.events + [CmCommandEStop, AckEStop, AckReset]
  {
    var p := Step(o, Command(EStop, false));
    var q := After(Step, p, Repeat(CmStep, 4));
    AfterConcat(Step, o, [Command(EStop, false)], Repeat(CmStep, 4));
    AfterConcat(Step, o, [Command(EStop, false)] + Repeat(CmStep, 4), Repeat(CallStep(false), 2));
    assert [Command(EStop, false)][1..] == [];
    CmDrains(p);
    LoopDrains(q, false);
    CommandedEStop(o.shared);
    DoFew(q.shared, Write(NoController), Send(AckReset));
  }

  lemma CommandedEStop(s: Shared)
    ensures |Commanded(EStop, false)| == 4
    ensures DoAll(s, Commanded(EStop, false)) == s.(current := EStop, events := s.events + [CmCommandEStop, AckEStop])
  {
    DoFew(s, Write(EStop), Send(CmCommandEStop));
    DoFew(DoAll(s, Stop(CmCommandEStop)), Write(EStop), Send(AckEStop));
    DoAllConcat(s, Stop(CmCommandEStop), [Write(EStop), Send(AckEStop)]);
    assert Commanded(EStop, false) == Stop(CmCommandEStop) + [Write(EStop), Send(AckEStop)];
  }

  /** A run from power-up in which that happens. */
  lemma AckResetWhileStopped() returns (os: seq<Ops>, actions: seq<Action>)
    ensures IsRun(os, actions) && |actions| > 0
    ensures os[|actions|].shared.current == EStop && AckReset in os[|actions|].shared.events
    ensures os[|actions|].shared.events[|os[|actions|].shared.events| - 1] == AckReset
  {
    hide Step;
    var a := ResetAboutToEnd();
    var b := [Command(EStop, false)] + Repeat(CmStep, 4) + Repeat(CallStep(false), 2);
    AfterConcat(Step, Boot(), a, b);
    StopsReset(After(Step, Boot(), a));
    actions := a + b;
    os := Trace(Step, Boot(), actions);
    BootIsRun(actions);
  }
}
