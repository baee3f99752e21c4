/**
  The timing of the EtherCAT loop: each cycle shifts the time grid toward the distributed clock and
  sleeps until the next instant of the grid, however late the cycle is.
 */
module CycleTiming {
  import opened CArith

  const PERIOD: int := 1_000_000     // CONTROLLER_LOOP_PERIOD_NS
  const OFFSET: int := 300_000       // CONTROLLER_LOOP_OFFSET_NS
  const NSEC_LIMIT: int := 1_000_000_000

  // ---------------------------------------------------------------------------------------------
  // One cycle

  /** timingInfo.dcCorrection, for the clock reading of the cycle. */
  function Correction(eCatTime: int, overshoot: int, gain: Positive): int {
    Div(-(Rem(eCatTime - overshoot + PERIOD / 2, PERIOD) - PERIOD / 2), gain)
  }

  /** How far an instant of the distributed clock is from the nearest multiple of the period. */
  function Phase(t: int): (e: int)
    ensures -(PERIOD / 2) <= e < PERIOD / 2
  {
    Centre(t, PERIOD)
  }

  /** The C remainder does not give the centred phase. */
  predicate Early(t: int) {
    t + PERIOD / 2 < 0 && Mod(t + PERIOD / 2, PERIOD) != 0
  }

  /** The correction is a fraction of the phase error, against it. Only for an instant before the epoch the
      error is taken to be one period too small. */
  lemma CorrectionFollowsPhase(eCatTime: int, overshoot: int, gain: Positive)
    ensures var t := eCatTime - overshoot;
            Correction(eCatTime, overshoot, gain) == -Div(if Early(t) then Phase(t) - PERIOD else Phase(t), gain)
  {
    var t := eCatTime - overshoot;
    RemMod(t + PERIOD / 2, PERIOD);
    DivNegate(if Early(t) then Phase(t) - PERIOD else Phase(t), gain);
  }

  lemma DivNegate(a: int, b: Positive)
    ensures Div(-a, b) == -Div(a, b)
  {
  }

  /** timingInfo.sleepTime, with the repair of the C remainder. */
  function Sleep(target: int, correction: int, now: int): int {
    Rem(Rem(target + correction - now, PERIOD) + PERIOD, PERIOD)
  }

  /** The next target is the one instant of the shifted grid in the period that starts now. */
  lemma TargetExact(target: int, correction: int, now: int, next: int)
    ensures next == Sleep(target, correction, now) + now
            <==> now <= next < now + PERIOD && Congruent(next, target + correction, PERIOD)
  {
    var x := target + correction - now;
    RepairIsExact(x, PERIOD);
    CongruentShift(next - now, x, now, PERIOD);
    if now <= next < now + PERIOD {
      assert Mod(next - now, PERIOD) == next - now;
    }
  }

  class ConnManager {
    const gain: int                // TIMING_FILTER_GAIN
    var targetTime: int
    var sleepTime: int
    var dcCorrection: int
    var controllerTime: int
    var midCycle: bool
    var missedDeadlines: nat       // MISSED_DEADLINE events sent

    constructor (gain: int, now: int)
      requires gain >= 1
      ensures this.gain == gain && targetTime == now && !midCycle && missedDeadlines == 0
    {
      this.gain := gain;
      targetTime, sleepTime, dcCorrection, controllerTime := now, 0, 0, 0;
      midCycle, missedDeadlines := false, 0;
    }

    /** One turn of the loop: it wakes at time `woken`, reads the distributed clock, and goes back to sleep at time
        `now`. The thread of the controller may answer before that, and may answer while the loop sleeps. */
    method Cycle(eCatTime: int, woken: int, now: int, answered: bool)
      requires gain >= 1
      modifies this
      ensures dcCorrection == Correction(eCatTime, woken - old(targetTime), gain)
      ensures now <= targetTime < now + PERIOD
      ensures Congruent(targetTime, old(targetTime) + dcCorrection, PERIOD)
      ensures targetTime == now + sleepTime && 0 <= sleepTime < NSEC_LIMIT
      ensures eCatTime + OFFSET >= 0 ==>
                controllerTime <= eCatTime + OFFSET < controllerTime + PERIOD && Congruent(controllerTime, 0, PERIOD)
      ensures midCycle == !answered && missedDeadlines == old(missedDeadlines) + (if old(midCycle) then 1 else 0)
    {
      if midCycle {
        missedDeadlines := missedDeadlines + 1;
      }
      var overshoot := woken - targetTime;
      controllerTime := (eCatTime + OFFSET) - Rem(eCatTime + OFFSET, PERIOD);
      GridTime(eCatTime + OFFSET);
      midCycle := true;
      if answered {
        SendControllerOutput();
      }
      dcCorrection := Div(-(Rem(eCatTime - overshoot + PERIOD / 2, PERIOD) - PERIOD / 2), gain);
      sleepTime := Rem(targetTime + dcCorrection - now, PERIOD);
      sleepTime := Rem(sleepTime + PERIOD, PERIOD);
      TargetExact(targetTime, dcCorrection, now, sleepTime + now);
      targetTime := sleepTime + now;
    }

    /** The controller's answer reached the network in time. */
    method SendControllerOutput()
      modifies this`midCycle
      ensures !midCycle
    {
      midCycle := false;
    }
  }

  lemma GridTime(t: int)
    ensures Congruent(t - Rem(t, PERIOD), 0, PERIOD)
  {
    RemMod(t, PERIOD);
    CongruentShift(t, Rem(t, PERIOD), -Rem(t, PERIOD), PERIOD);
    ModPeriod(Rem(t, PERIOD), PERIOD);
  }

  // ---------------------------------------------------------------------------------------------
  // The run: convergence of the phase, with clocks that run at the same rate

  /** What the surroundings decide in one cycle: when the loop wakes, and when it goes back to sleep. */
  datatype Lap = Lap(woken: int, now: int)

  /** The target after one cycle, when the distributed clock is ahead of the local one by `ahead`. */
  function Next(target: int, ahead: int, lap: Lap, gain: Positive): int {
    Sleep(target, Correction(lap.woken + ahead, lap.woken - target, gain), lap.now) + lap.now
  }

  function Target(start: int, ahead: int, laps: seq<Lap>, gain: Positive): int
    decreases |laps|
  {
    if laps == [] then start
    else Next(Target(start, ahead, laps[..|laps| - 1], gain), ahead, laps[|laps| - 1], gain)
  }

  /** Only the phase error matters for the next one, however late the cycle is. */
  lemma PhaseStep(target: int, ahead: int, lap: Lap, gain: Positive)
    requires target + ahead >= 0
    ensures var e, after := Phase(target + ahead), Next(target, ahead, lap, gain);
            lap.now <= after < lap.now + PERIOD && Phase(after + ahead) == e - Div(e, gain)
  {
    hide Mod, Rem, Div;
    var e, after := Phase(target + ahead), Next(target, ahead, lap, gain);
    var c := Correction(lap.woken + ahead, lap.woken - target, gain);
    CorrectionFollowsPhase(lap.woken + ahead, lap.woken - target, gain);
    TargetExact(target, c, lap.now, after);
    CongruentShift(after, target + c, ahead, PERIOD);
    CentreExact(target + ahead, e, PERIOD);
    CongruentShift(target + ahead, e, c, PERIOD);
    CentreExact(after + ahead, e + c, PERIOD);
  }

  /** The phase error after n corrections. */
  function Settled(e: int, n: nat, gain: Positive): int {
    if n == 0 then e else var f := Settled(e, n - 1, gain); f - Div(f, gain)
  }

  /** No cycle goes back to sleep before its target time. */
  predicate InOrder(start: int, ahead: int, laps: seq<Lap>, gain: Positive)
    decreases |laps|
  {
    laps != [] ==>
      && InOrder(start, ahead, laps[..|laps| - 1], gain)
      && laps[|laps| - 1].now >= Target(start, ahead, laps[..|laps| - 1], gain)
  }

  lemma {:induction false} PhaseOfRun(start: int, ahead: int, laps: seq<Lap>, gain: Positive)
    requires start + ahead >= 0 && InOrder(start, ahead, laps, gain)
    ensures Target(start, ahead, laps, gain) >= start
    ensures Phase(Target(start, ahead, laps, gain) + ahead) == Settled(Phase(start + ahead), |laps|, gain)
    decreases |laps|
  {
    if laps != [] {
      var n := |laps| - 1;
      PhaseOfRun(start, ahead, laps[..n], gain);
      hide Next, Phase, Div;
      PhaseStep(Target(start, ahead, laps[..n], gain), ahead, laps[n], gain);
    }
  }

  /** The phase error keeps its sign, never grows, and shrinks by at least one until it is below the gain. */
  lemma {:induction false} Settling(e: int, n: nat, gain: Positive)
    ensures var f := Settled(e, n, gain);
            && (e >= 0 ==> 0 <= f <= e && (f < gain || f <= e - n))
            && (e <= 0 ==> e <= f <= 0 && (f + gain > 0 || f >= e + n))
  {
    if n > 0 {
      Settling(e, n - 1, gain);
    }
  }

  lemma {:induction false} DivMonotone(a: int, b: int, c: Positive)
    requires 0 <= a <= b
    ensures Div(a, c) <= Div(b, c)
    decreases a
  {
    if a >= c {
      DivMonotone(a - c, b - c, c);
    }
  }

  lemma {:induction false} DivBound(a: nat, b: Positive)
    ensures a < b * (Div(a, b) + 1)
    decreases a
  {
    if a >= b {
      DivBound(a - b, b);
      assert b * (Div(a, b) + 1) == b + b * (Div(a - b, b) + 1);
    }
  }

  /** What each cycle takes off at least, until the error is halved or below the gain. */
  function Slice(e: nat, gain: Positive): (q: nat)
    ensures q >= 1
  {
    if e / 2 < gain then 1 else Div(e / 2, gain)
  }

  lemma {:induction false} Shrinks(e: nat, n: nat, gain: Positive)
    ensures var f := Settled(e, n, gain);
            0 <= f && (f < gain || 2 * f <= e || f <= e - n * Slice(e, gain))
  {
    if n > 0 {
      Shrinks(e, n - 1, gain);
      var f, q := Settled(e, n - 1, gain), Slice(e, gain);
      if f >= gain && 2 * f > e {
        DivMonotone(e / 2, f, gain);
        assert Div(f, gain) >= q;
        assert n * q == (n - 1) * q + q;
      }
    }
  }

  /** Two gains of slices are half of the error. */
  lemma SlicesAreHalf(e: nat, gain: Positive)
    ensures 2 * (2 * gain * Slice(e, gain)) >= e
  {
    var q := Slice(e, gain);
    DivBound(e / 2, gain);
    assert e / 2 < gain * (q + 1);
    assert gain * (q + 1) <= gain * (q + q);
    assert gain * (q + q) == 2 * gain * q;
  }

  /** In two gains of cycles the error is halved, or below the gain. */
  lemma Halves(e: nat, gain: Positive)
    ensures var f := Settled(e, 2 * gain, gain);
            0 <= f && (f < gain || 2 * f <= e)
  {
    Shrinks(e, 2 * gain, gain);
    SlicesAreHalf(e, gain);
  }

  lemma {:induction false} SettledSum(e: int, m: nat, n: nat, gain: Positive)
    ensures Settled(e, m + n, gain) == Settled(Settled(e, m, gain), n, gain)
  {
    if n > 0 {
      SettledSum(e, m, n - 1, gain);
    }
  }

  /** k times two gains. */
  function Rounds(k: nat, gain: Positive): nat {
    if k == 0 then 0 else Rounds(k - 1, gain) + 2 * gain
  }

  lemma {:induction false} RoundsAre(k: nat, gain: Positive)
    ensures Rounds(k, gain) == 2 * k * gain
  {
    if k > 0 {
      RoundsAre(k - 1, gain);
      assert 2 * k * gain == 2 * (k - 1) * gain + 2 * gain;
    }
  }

  /** e, k times halved. */
  function Halved(e: nat, k: nat): nat {
    if k == 0 then e else Halved(e, k - 1) / 2
  }

  lemma {:induction false} HalvedMonotone(d: nat, e: nat, k: nat)
    requires d <= e
    ensures Halved(d, k) <= Halved(e, k)
  {
    if k > 0 {
      HalvedMonotone(d, e, k - 1);
    }
  }

  /** So after k times as many cycles it is k times halved, or below the gain. */
  lemma {:induction false} HalvesAgain(e: nat, k: nat, gain: Positive)
    ensures var f := Settled(e, Rounds(k, gain), gain);
            0 <= f && (f < gain || f <= Halved(e, k))
  {
    if k > 0 {
      var m := Rounds(k - 1, gain);
      HalvesAgain(e, k - 1, gain);
      var f := Settled(e, m, gain);
      SettledSum(e, m, 2 * gain, gain);
      Halves(f, gain);
      Settling(f, 2 * gain, gain);
    }
  }

  /** The error and its negative settle alike. */
  lemma {:induction false} SettledNegates(e: int, n: nat, gain: Positive)
    ensures Settled(-e, n, gain) == -Settled(e, n, gain)
  {
    if n > 0 {
      SettledNegates(e, n - 1, gain);
      DivNegate(Settled(e, n - 1, gain), gain);
    }
  }

  const HALVINGS: nat := 19   // of half a period, down to zero

  /** Below the gain, on either side. */
  predicate Near(e: int, gain: Positive) {
    e < gain && e + gain > 0
  }

  /** Every run ends up, after 38 gains of cycles, with a phase error below the gain. */
  lemma Converges(start: int, ahead: int, laps: seq<Lap>, gain: Positive)
    requires start + ahead >= 0 && InOrder(start, ahead, laps, gain)
    requires |laps| >= 2 * HALVINGS * gain || |laps| >= PERIOD / 2
    ensures Near(Phase(Target(start, ahead, laps, gain) + ahead), gain)
  {
    PhaseOfRun(start, ahead, laps, gain);
    var e := Phase(start + ahead);
    Settling(e, |laps|, gain);
    if |laps| >= 2 * HALVINGS * gain {
      SettlesInTime(if e < 0 then -e else e, |laps|, gain, HALVINGS);
      SettledNegates(e, |laps|, gain);
    }
  }

  lemma HalvedVanishes()
    ensures Halved(PERIOD / 2, HALVINGS) == 0
  {
    var e := 500_000;
    assert Halved(e, 4) == 31_250 by { assert Halved(e, 2) == 125_000; }
    assert Halved(e, 8) == 1_953 by { assert Halved(e, 6) == 7_812; }
    assert Halved(e, 12) == 122 by { assert Halved(e, 10) == 488; }
    assert Halved(e, 16) == 7 by { assert Halved(e, 14) == 30; }
    assert Halved(e, 18) == 1;
  }

  lemma SettlesInTime(e: nat, n: nat, gain: Positive, k: nat)
    requires e <= PERIOD / 2 && k == HALVINGS && n >= 2 * k * gain
    ensures 0 <= Settled(e, n, gain) < gain
  {
    var m := Rounds(k, gain);
    RoundsAre(k, gain);
    HalvesAgain(e, k, gain);
    HalvedMonotone(e, PERIOD / 2, k);
    HalvedVanishes();
    SettledSum(e, m, n - m, gain);
    Settling(Settled(e, m, gain), n - m, gain);
  }

  /** From then on the phase does not move any more. */
  lemma {:induction false} StaysSettled(start: int, ahead: int, laps: seq<Lap>, gain: Positive, m: nat)
    requires start + ahead >= 0 && InOrder(start, ahead, laps, gain)
    requires m <= |laps| && Near(Phase(Target(start, ahead, laps[..m], gain) + ahead), gain)
    ensures Phase(Target(start, ahead, laps, gain) + ahead) == Phase(Target(start, ahead, laps[..m], gain) + ahead)
    decreases |laps|
  {
    hide Mod, Rem, Div, Phase, Next;
    if m == |laps| {
      assert laps[..m] == laps;
    } else {
      var n := |laps| - 1;
      assert laps[..n][..m] == laps[..m];
      StaysSettled(start, ahead, laps[..n], gain, m);
      PhaseOfRun(start, ahead, laps[..n], gain);
      PhaseStep(Target(start, ahead, laps[..n], gain), ahead, laps[n], gain);
    }
  }
}
