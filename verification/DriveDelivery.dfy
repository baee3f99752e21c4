/**
  From the message that a Medulla acts on back to the call that built it, and what a board does when no
  message arrives any more.
 */
module DriveDelivery {
  import opened Bits
  import opened RtOps
  import opened Traces
  import opened DriveSafety
  import Runs = RtOpsRuns
  import M = Medulla
  import Boards = MedullaRuns

  // ---------------------------------------------------------------------------------------------
  // Where the message of a tick comes from

  /** Step s sends a message, and no later step before d does. */
  predicate LastSend(ss: seq<Sys>, actions: seq<SysAction>, s: nat, d: nat) {
    && d <= |actions| < |ss|
    && s < d && |ss[s + 1].ops.messages| == |ss[s].ops.messages| + 1
    && ss[d].ops.messages == ss[s + 1].ops.messages
  }

  /** Step d delivers the image, and no later step before n does. */
  predicate LastDelivery(actions: seq<SysAction>, d: nat, n: nat) {
    n <= |actions| && d < n && actions[d].Deliver? && forall k :: d < k < n ==> !actions[k].Deliver?
  }

  function SentBy(ss: seq<Sys>, s: nat): Output
    requires s + 1 < |ss| && |ss[s + 1].ops.messages| == |ss[s].ops.messages| + 1
  {
    ss[s + 1].ops.messages[|ss[s].ops.messages|]
  }

  /** The image at d is the one of power-up, or what the message sent last made of the one before it. */
  lemma {:induction false} ImageFrom(m: Motor, ss: seq<Sys>, actions: seq<SysAction>, d: nat)
    requires IsSysRun(m, ss, actions) && d <= |actions|
    ensures (ss[d].image == Image(0, M.Idle, 0) && ss[d].ops.messages == [])
            || exists s: nat :: LastSend(ss, actions, s, d) && ss[d].image == Transmit(m, ss[s].image, SentBy(ss, s))
  {
    hide M.Step, Step, MotorCurrent, Transmit;
    if d > 0 {
      ImageFrom(m, ss, actions, d - 1);
      assert SysSteps(m, ss, actions, d - 1);
      if actions[d - 1].Master? {
        OneMessage(ss[d - 1].ops, actions[d - 1].a);
        if |ss[d].ops.messages| > |ss[d - 1].ops.messages| {
          assert LastSend(ss, actions, d - 1, d);
        }
      }
      if |ss[d].ops.messages| == |ss[d - 1].ops.messages| && ss[d - 1].ops.messages != [] {
        var s: nat :| LastSend(ss, actions, s, d - 1) && ss[d - 1].image == Transmit(m, ss[s].image, SentBy(ss, s));
        assert LastSend(ss, actions, s, d);
      }
    }
  }

  /** So the image that a Medulla has received is the one of power-up, or comes from one message and one delivery. */
  lemma {:induction false} ReceivedFrom(m: Motor, ss: seq<Sys>, actions: seq<SysAction>, n: nat)
    requires IsSysRun(m, ss, actions) && n <= |actions|
    ensures ss[n].received == Image(0, M.Idle, 0)
            || exists d: nat, s: nat | s < d < n :: LastDelivery(actions, d, n) && LastSend(ss, actions, s, d)
                                                   && ss[n].received == Transmit(m, ss[s].image, SentBy(ss, s))
  {
    hide M.Step, Step, MotorCurrent, Transmit;
    if n > 0 {
      ReceivedFrom(m, ss, actions, n - 1);
      assert SysSteps(m, ss, actions, n - 1);
      if actions[n - 1].Deliver? {
        ImageFrom(m, ss, actions, n - 1);
        assert LastDelivery(actions, n - 1, n);
      } else if ss[n].received != Image(0, M.Idle, 0) {
        var d: nat, s: nat :| s < d < n - 1 && LastDelivery(actions, d, n - 1) && LastSend(ss, actions, s, d)
                              && ss[n - 1].received == Transmit(m, ss[s].image, SentBy(ss, s));
        assert LastDelivery(actions, d, n);
      }
    }
  }

  /** Steps k, s and d: the call of calcState that read enabled, the sending of its message, and its delivery, the
      last one before tick n. */
  ghost predicate Provenance(m: Motor, ss: seq<Sys>, actions: seq<SysAction>, k: nat, s: nat, d: nat, n: nat, out: Output) {
    && n <= |actions| < |ss|
    && k < s < d < n
    && Authorises(ss, actions, k, out) && Runs.UnderWay(Mapped(OpsIn, ss), Mapped(Project, actions), k, s, out)
    && LastSend(ss, actions, s, d) && LastDelivery(actions, d, n)
    && ss[n].received == Transmit(m, ss[s].image, Output(M.Run, ClampAll(out.currents)))
  }

  /** Every nonzero command that a tick gives to the motor is that of the message it has received, that message is
      the one of an authorised call, and the command says what the controller of that call wanted of this motor. */
  lemma DriveProvenance(m: Motor, ss: seq<Sys>, actions: seq<SysAction>, n: nat)
    requires IsSysRun(m, ss, actions) && n < |actions| && actions[n].Edge?
    requires ss[n + 1].board.applied.Drive? && ss[n + 1].board.applied.value != 0
    ensures ss[n + 1].board.applied.value == ss[n].received.current
    ensures exists k: nat, s: nat, d: nat, out ::
              && Provenance(m, ss, actions, k, s, d, n, out)
              && Follows(m, ss[n + 1].board.applied.value, out.currents)
  {
    hide M.Step, Step, MotorCurrent, Authorises, Runs.UnderWay;
    assert SysSteps(m, ss, actions, n);
    ImagesAreBacked(m, ss, actions, n);
    Boards.AppliedIsBounded(ss[n].board, Seen(actions[n].i, ss[n].received));
    ReceivedFrom(m, ss, actions, n);
    var d: nat, s: nat :| s < d < n && LastDelivery(actions, d, n) && LastSend(ss, actions, s, d)
                          && ss[n].received == Transmit(m, ss[s].image, SentBy(ss, s));
    SentForRun(m, ss, actions, s, d);
    var k: nat, out :| k < s && Runs.UnderWay(Mapped(OpsIn, ss), Mapped(Project, actions), k, s, out)
                       && Authorises(ss, actions, k, out) && SentBy(ss, s) == Output(M.Run, ClampAll(out.currents));
    assert Provenance(m, ss, actions, k, s, d, n, out);
    FollowsCall(m, ss, actions, k, s, d, n, out);
  }

  lemma FollowsCall(m: Motor, ss: seq<Sys>, actions: seq<SysAction>, k: nat, s: nat, d: nat, n: nat, out: Output)
    requires Provenance(m, ss, actions, k, s, d, n, out)
    ensures Follows(m, ss[n].received.current, out.currents)
  {
    hide MotorCurrent, Follows, ClampAll, Runs.UnderWay, LastSend, LastDelivery;
    MotorFollowsCurrent(m, out);
  }

  lemma SentForRun(m: Motor, ss: seq<Sys>, actions: seq<SysAction>, s: nat, d: nat)
    requires IsSysRun(m, ss, actions) && d <= |actions| && LastSend(ss, actions, s, d)
    requires SentBy(ss, s).command == M.Run
    ensures exists k: nat, out :: k < s && Runs.UnderWay(Mapped(OpsIn, ss), Mapped(Project, actions), k, s, out)
                                  && Authorises(ss, actions, k, out)
                                  && SentBy(ss, s) == Output(M.Run, ClampAll(out.currents))
  {
    hide IsSysRun, Step, MotorCurrent, ClampAll;
    OpsRun(m, ss, actions);
    Runs.RunMessages(Mapped(OpsIn, ss), Mapped(Project, actions), s);
  }

  // ---------------------------------------------------------------------------------------------
  // When nothing is delivered any more

  /** The ticks between two steps. */
  function Edges(actions: seq<SysAction>, a: nat, n: nat): nat
    requires a <= n <= |actions|
  {
    if n == a then 0 else Edges(actions, a, n - 1) + if actions[n - 1].Edge? then 1 else 0
  }

  /** A board in run counts the ticks since the last delivery, from the second on. */
  lemma {:induction false} CountsLost(m: Motor, ss: seq<Sys>, actions: seq<SysAction>, a: nat, n: nat)
    requires IsSysRun(m, ss, actions) && a <= n <= |actions|
    requires forall k :: a <= k < n ==> !actions[k].Deliver?
    requires forall k :: a <= k <= n ==> ss[k].board.state == M.Run
    ensures ss[n].received == ss[a].received
    ensures Edges(actions, a, n) > 0 ==>
              ss[n].board.previous == ss[n].received.counter && ss[n].board.watchdogErrors >= Edges(actions, a, n) - 1
  {
    hide M.Step, Step, MotorCurrent, M.WatchdogStep;
    if n > a {
      CountsLost(m, ss, actions, a, n - 1);
      assert SysSteps(m, ss, actions, n - 1);
      ImagesAreBacked(m, ss, actions, n - 1);
      if actions[n - 1].Edge? {
        var i := Seen(actions[n - 1].i, ss[n - 1].received);
        Boards.TickInRun(ss[n - 1].board, i);
        Boards.WatchdogCounts(ss[n - 1].board.watchdogErrors, i.counter == ss[n - 1].board.previous);
      }
    }
  }

  /** A board that gets no message over eleven ticks leaves run within them: for halt only if the last message says
      so, and else disarmed. */
  lemma LostDeliveries(m: Motor, ss: seq<Sys>, actions: seq<SysAction>, a: nat, n: nat)
    requires IsSysRun(m, ss, actions) && a <= n <= |actions| && Edges(actions, a, n) >= 11
    requires forall k :: a <= k < n ==> !actions[k].Deliver?
    requires ss[a].board.state == M.Run
    ensures exists k :: a < k <= n && ss[k].board.state != M.Run && ss[k - 1].board.state == M.Run
                        && (!ss[k].board.armed || (ss[k].board.state == M.Halt && ss[a].received.command == M.Halt))
  {
    hide M.Step, Step, MotorCurrent, Transmit;
    if forall k :: a <= k <= n ==> ss[k].board.state == M.Run {
      CountsLost(m, ss, actions, a, n);
      ImagesAreBacked(m, ss, actions, n);
      assert false;
    }
    var k := a;
    while ss[k + 1].board.state == M.Run
      invariant a <= k < n && forall j :: a <= j <= k ==> ss[j].board.state == M.Run
      decreases n - k
    {
      k := k + 1;
    }
    LeavesRun(m, ss, actions, a, k);
    assert ss[k + 1 - 1].board.state == M.Run;
  }

  lemma LeavesRun(m: Motor, ss: seq<Sys>, actions: seq<SysAction>, a: nat, k: nat)
    requires IsSysRun(m, ss, actions) && a <= k < |actions| && !actions[k].Deliver?
    requires forall j :: a <= j < k ==> !actions[j].Deliver?
    requires forall j :: a <= j <= k ==> ss[j].board.state == M.Run
    requires ss[k + 1].board.state != M.Run
    ensures !ss[k + 1].board.armed || (ss[k + 1].board.state == M.Halt && ss[a].received.command == M.Halt)
  {
    hide M.Step, Step, MotorCurrent;
    CountsLost(m, ss, actions, a, k);
    ImagesAreBacked(m, ss, actions, k);
    assert SysSteps(m, ss, actions, k);
    var i := Seen(actions[k].i, ss[k].received);
    Boards.StepKeepsSound(ss[k].board, i);
    if ss[k + 1].board.state == M.Halt {
      Boards.HaltIsCommanded(ss[k].board, i);
    }
  }
}
