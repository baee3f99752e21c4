/**
  The whole path from the user to a motor: GUI commands, Controller Manager, RT Ops, the image of one Medulla and
  the Medulla's ticks, all interleaved.
 */
module ControlPath {
  import M = Medulla
  import opened RtOps
  import opened ControllerManager
  import opened DriveSafety
  import opened Traces
  import Chains = CommandChain
  import Delivery = DriveDelivery
  import Cms = ControllerManagerRuns

  datatype Robot = Robot(
    cm: Cm,
    taken: nat,
    passed: nat,
    sys: Sys)

  datatype Move =
    | Command(link: Chains.Link)   // a step of the Controller Manager or of RT Ops
    | Drive(action: SysAction)     // a delivery or a tick

  function ChainIn(r: Robot): Chains.Chain {
    Chains.Chain(r.cm, r.sys.ops, r.taken, r.passed)
  }

  function SysIn(r: Robot): Sys {
    r.sys
  }

  /** For the chain alone, deliveries and ticks are checks for errors without any. */
  function LinkOf(a: Move): Chains.Link {
    match a
    case Command(link) => link
    case Drive(_) => Chains.Rt(NewState(false))
  }

  /** For the drive alone, each step of the chain is what it does to RT Ops. */
  function SysActionOf(r: Robot, a: Move): SysAction {
    match a
    case Command(link) => Master(Chains.ActionOf(ChainIn(r), link))
    case Drive(action) => if action.Master? then Master(NewState(false)) else action
  }

  function RobotStep(m: Motor, r: Robot, a: Move): Robot {
    match a
    case Command(link) =>
      var c := Chains.ChainStep(ChainIn(r), link);
      Robot(c.cm, c.taken, c.passed, SysStep(m, r.sys, SysActionOf(r, a)))
    case Drive(action) => r.(sys := SysStep(m, r.sys, SysActionOf(r, a)))
  }

  predicate Steps(m: Motor, rs: seq<Robot>, moves: seq<Move>, k: nat) {
    k < |moves| < |rs| && rs[k + 1] == RobotStep(m, rs[k], moves[k])
  }

  predicate IsRun(m: Motor, rs: seq<Robot>, moves: seq<Move>) {
    && |rs| == |moves| + 1
    && Initial(rs[0].sys.ops)
    && rs[0] == Robot(Start(rs[0].cm.awaited), 0, 0,
                      Sys(rs[0].sys.ops, Image(0, M.Idle, 0), Image(0, M.Idle, 0), Boards.Start(KindOf(m.role), 0), 0))
    && forall k :: 0 <= k < |moves| ==> Steps(m, rs, moves, k)
  }

  // ---------------------------------------------------------------------------------------------
  // Both halves are runs of their own

  lemma SysRun(m: Motor, rs: seq<Robot>, moves: seq<Move>)
    requires IsRun(m, rs, moves)
    ensures IsSysRun(m, Mapped(SysIn, rs), MappedPairs(SysActionOf, rs, moves))
  {
    hide SysStep, Chains.ChainStep, Chains.ActionOf;
    var ss, a := Mapped(SysIn, rs), MappedPairs(SysActionOf, rs, moves);
    forall k | 0 <= k < |a|
      ensures SysSteps(m, ss, a, k)
    {
      assert Steps(m, rs, moves, k);
    }
  }

  lemma ChainRun(m: Motor, rs: seq<Robot>, moves: seq<Move>)
    requires IsRun(m, rs, moves)
    ensures Chains.IsRun(Mapped(ChainIn, rs), Mapped(LinkOf, moves))
  {
    hide SysStep, Chains.ChainStep, RobotStep;
    var cs, a := Mapped(ChainIn, rs), Mapped(LinkOf, moves);
    forall k | 0 <= k < |a|
      ensures Chains.Steps(cs, a, k)
    {
      assert Steps(m, rs, moves, k);
      StepInChain(m, rs[k], moves[k]);
    }
  }

  lemma StepInChain(m: Motor, r: Robot, a: Move)
    ensures ChainIn(RobotStep(m, r, a)) == Chains.ChainStep(ChainIn(r), LinkOf(a))
  {
    hide SysStep, HandlerStep, LoopStep, Commanded;
    SysStepOps(m, r.sys, SysActionOf(r, a));
  }

  // ---------------------------------------------------------------------------------------------
  // From the user to the motor

  /** Step k was enabled by a RUN of its own: at every earlier time without enabled, RT Ops had become enabled less
      often than at k, and at k no more often than RUN commands had been handled. */
  predicate RunByUser(rs: seq<Robot>, k: nat) {
    && k < |rs|
    && Chains.Entries(Mapped(ChainIn, rs), k) <= Chains.Runs(rs[k].cm) <= multiset(rs[k].cm.arrived)[UserRun]
    && forall i :: 0 <= i <= k && rs[i].sys.ops.shared.current != Enabled ==>
         Chains.Entries(Mapped(ChainIn, rs), i) < Chains.Entries(Mapped(ChainIn, rs), k)
  }

  /** Every nonzero command that a tick gives to the motor is that of a message whose calcState call read enabled,
      and that state came from a RUN of the user which served for no enabling before. */
  lemma DrivenByUser(m: Motor, rs: seq<Robot>, moves: seq<Move>, n: nat) returns (k: nat, s: nat, d: nat, out: Output)
    requires IsRun(m, rs, moves) && n < |moves| && moves[n].Drive? && moves[n].action.Edge?
    requires rs[n + 1].sys.board.applied.Drive? && rs[n + 1].sys.board.applied.value != 0
    ensures rs[n + 1].sys.board.applied.value == rs[n].sys.received.current
    ensures Delivery.Provenance(m, Mapped(SysIn, rs), MappedPairs(SysActionOf, rs, moves), k, s, d, n, out)
    ensures k < n && RunByUser(rs, k) && Follows(m, rs[n + 1].sys.board.applied.value, out.currents)
    ensures UserRun in rs[n].cm.arrived
  {
    hide Delivery.Provenance, Chains.Entries, Chains.Runs, RobotStep;
    var ss, a := Mapped(SysIn, rs), MappedPairs(SysActionOf, rs, moves);
    SysRun(m, rs, moves);
    Delivery.DriveProvenance(m, ss, a, n);
    k, s, d, out :| Delivery.Provenance(m, ss, a, k, s, d, n, out)
                    && Follows(m, ss[n + 1].board.applied.value, out.currents);
    ReadEnabled(m, ss, a, k, s, d, n, out);
    EnabledByRun(m, rs, moves, k);
    assert rs[0].sys.ops.shared.current != Enabled;
    assert UserRun in rs[k].cm.arrived;
    ArrivedGrows(m, rs, moves, k, n);
  }

  lemma EnabledByRun(m: Motor, rs: seq<Robot>, moves: seq<Move>, k: nat)
    requires IsRun(m, rs, moves) && k <= |moves| && rs[k].sys.ops.shared.current == Enabled
    ensures RunByUser(rs, k)
  {
    hide Chains.Entries, Chains.Runs, RobotStep;
    var cs, b := Mapped(ChainIn, rs), Mapped(LinkOf, moves);
    ChainRun(m, rs, moves);
    Chains.EnabledByUser(cs, b, k);
    forall i | 0 <= i <= k && rs[i].sys.ops.shared.current != Enabled
      ensures Chains.Entries(cs, i) < Chains.Entries(cs, k)
    {
      Chains.EnabledIsEntered(cs, i, k);
    }
  }

  lemma {:induction false} ArrivedGrows(m: Motor, rs: seq<Robot>, moves: seq<Move>, j: nat, k: nat)
    requires IsRun(m, rs, moves) && j <= k <= |moves|
    ensures rs[j].cm.arrived <= rs[k].cm.arrived
  {
    hide HandlerStep, SysStep, RobotStep;
    if j < k {
      ArrivedGrows(m, rs, moves, j, k - 1);
      ChainRun(m, rs, moves);
      var cs, b := Mapped(ChainIn, rs), Mapped(LinkOf, moves);
      Chains.AlwaysHonest(cs, b, k - 1);
      assert Chains.Steps(cs, b, k - 1);
      Cms.StepKeepsFifo(cs[k - 1].cm, Chains.HandlerOf(cs[k - 1], b[k - 1]));
    }
  }

  lemma ReadEnabled(m: Motor, ss: seq<Sys>, actions: seq<SysAction>, k: nat, s: nat, d: nat, n: nat, out: Output)
    requires n <= |actions| < |ss| && Delivery.Provenance(m, ss, actions, k, s, d, n, out)
    ensures k < n && ss[k].ops.shared.current == Enabled
  {
  }
}
