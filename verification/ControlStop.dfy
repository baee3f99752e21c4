/**
  From the user's E_STOP to the motor.
 */
module ControlStop {
  import M = Medulla
  import opened RtOps
  import opened ControllerManager
  import opened DriveSafety
  import opened ControlPath
  import opened Traces
  import Chains = CommandChain
  import Effects = RtOpsEffects
  import Cms = ControllerManagerRuns
  import Commands = ControllerManagerEffects
  import Rts = RtOpsRuns

  // ---------------------------------------------------------------------------------------------
  // From the user to RT Ops

  /** In step k the Controller Manager, as b, takes a command of the user. */
  predicate Takes(ss: seq<Chains.Chain>, actions: seq<Chains.Link>, k: nat, b: Cm) {
    |actions| <= |ss| && Commands.Takes(Mapped(Chains.CmIn, ss), MappedPairs(Chains.HandlerOf, ss, actions), k, b)
  }

  /** In step t RT Ops reads what the Controller Manager has written as its command number i. */
  predicate Reads(ss: seq<Chains.Chain>, actions: seq<Chains.Link>, t: nat, i: nat) {
    && t < |actions| < |ss| && actions[t].Take? && ss[t].ops.cmOps == []
    && ss[t].taken + actions[t].lost == i < |ss[t].cm.sent|
  }

  /** And has carried it out by e. */
  predicate CarriedOut(ss: seq<Chains.Chain>, actions: seq<Chains.Link>, t: nat, e: nat) {
    && |actions| <= |ss|
    && Effects.Done(Mapped(Chains.OpsIn, ss), MappedPairs(Chains.ActionOf, ss, actions), t, e)
  }

  /** RT Ops reads no command RESET after t and before n. */
  predicate NoReset(ss: seq<Chains.Chain>, actions: seq<Chains.Link>, t: nat, n: nat) {
    && n <= |actions| < |ss|
    && forall i :: t < i < n && actions[i].Take? && ss[i].taken + actions[i].lost < |ss[i].cm.sent| ==>
         ss[i].cm.sent[ss[i].taken + actions[i].lost] != Resetting
  }

  /** E_STOP of the user, taken while running: when RT Ops has read the command that the manager then writes, and
      carried it out, it has been in e-stop, and stays there until it reads a RESET. */
  lemma EStopReachesRtOps(ss: seq<Chains.Chain>, actions: seq<Chains.Link>, k: nat, b: Cm, t: nat, e: nat, n: nat)
    requires Chains.IsRun(ss, actions) && Takes(ss, actions, k, b) && b.state == Running && b.buffer[0] == UserEStop
    requires k < t && Reads(ss, actions, t, |b.sent|) && CarriedOut(ss, actions, t, e)
    requires e <= n <= |actions| && NoReset(ss, actions, t, n)
    ensures forall i :: e <= i <= n ==> ss[i].ops.shared.current == EStop
  {
    hide HandlerStep, Step, Commands.Leads, Rts.IsRun, Rts.From;
    var cs, a := Mapped(Chains.CmIn, ss), MappedPairs(Chains.HandlerOf, ss, actions);
    var os, o := Mapped(Chains.OpsIn, ss), MappedPairs(Chains.ActionOf, ss, actions);
    Chains.CmRun(ss, actions);
    Chains.OpsRun(ss, actions);
    Commands.EStopOfUser(cs, a, k, b);
    Chains.AlwaysHonest(ss, actions, t);
    assert ss[t].cm.sent[|b.sent|] == ss[k + 1].cm.sent[|b.sent|] == EStop;
    assert o[t].new_ == EStop;
    Effects.CommandTakesEffect(os, o, t, e);
    var j :| t < j <= e && os[j].shared.current == EStop;
    forall i | e <= i <= n
      ensures ss[i].ops.shared.current == EStop
    {
      if os[i].shared.current != EStop {
        Rts.LeavesEStop(os, o, j, i);
        var w :| j <= w < i && Rts.ResetByCommand(os, o, w);
        NotReset(ss, actions, t, e, n, w);
      }
    }
  }

  lemma NotReset(ss: seq<Chains.Chain>, actions: seq<Chains.Link>, t: nat, e: nat, n: nat, w: nat)
    requires Chains.IsRun(ss, actions) && CarriedOut(ss, actions, t, e) && NoReset(ss, actions, t, n) && t < w < n
    requires actions[t].Take? && ss[t].taken + actions[t].lost < |ss[t].cm.sent|
    requires ss[t].cm.sent[ss[t].taken + actions[t].lost] == EStop
    ensures !Rts.ResetByCommand(Mapped(Chains.OpsIn, ss), MappedPairs(Chains.ActionOf, ss, actions), w)
  {
    hide HandlerStep, Step, Commanded;
  }

  // ---------------------------------------------------------------------------------------------
  // From RT Ops to the motor

  /** Then, once two messages have been sent and an image has been delivered, no tick gives the motor a command of
      the master, and a board that was in run is in error, disarmed. What else the motor may get then, halt damping
      or what a start lets through, DriveSafety.StopReachesMotor and StopSilencesMotor say exactly. */
  lemma EStopReachesMotor(m: Motor, rs: seq<Robot>, moves: seq<Move>, k: nat, b: Cm, t: nat, e: nat, s1: nat, s2: nat,
                          d: nat, n: nat)
    requires IsRun(m, rs, moves) && n < |moves|
    requires Takes(Mapped(ChainIn, rs), Mapped(LinkOf, moves), k, b) && b.state == Running && b.buffer[0] == UserEStop
    requires k < t && Reads(Mapped(ChainIn, rs), Mapped(LinkOf, moves), t, |b.sent|)
    requires CarriedOut(Mapped(ChainIn, rs), Mapped(LinkOf, moves), t, e)
    requires NoReset(Mapped(ChainIn, rs), Mapped(LinkOf, moves), t, n)
    requires e <= s1 < s2 < d < n && SendsMessage(rs, s1) && SendsMessage(rs, s2)
    requires moves[d] == Drive(Deliver) && moves[n].Drive? && moves[n].action.Edge?
    ensures StopDelivered(Mapped(SysIn, rs), MappedPairs(SysActionOf, rs, moves), e, s1, s2, d, n)
    ensures !rs[n + 1].sys.board.applied.Drive?
    ensures rs[n].sys.board.state == M.Run ==> rs[n + 1].sys.board.state == M.Error && !rs[n + 1].sys.board.armed
  {
    hide RobotStep, Takes, Reads, CarriedOut, NoReset, SysStep, Chains.ChainStep, Chains.IsRun, IsSysRun, LastApplied;
    var ss, a := Mapped(SysIn, rs), MappedPairs(SysActionOf, rs, moves);
    ChainRun(m, rs, moves);
    SysRun(m, rs, moves);
    EStopReachesRtOps(Mapped(ChainIn, rs), Mapped(LinkOf, moves), k, b, t, e, n);
    assert forall i :: e <= i < n ==> ss[i].ops.shared.current == Mapped(ChainIn, rs)[i].ops.shared.current;
    assert StopDelivered(ss, a, e, s1, s2, d, n);
    StopReachesMotor(m, ss, a, e, s1, s2, d, n);
  }

  /** Step s sends a message. */
  predicate SendsMessage(rs: seq<Robot>, s: nat) {
    s + 1 < |rs| && |rs[s + 1].sys.ops.messages| == |rs[s].sys.ops.messages| + 1
  }
}
