/**
  Filters over samples: leaky counters, which count bad samples up and good ones down, and the
  debouncing of the toe switch. Each is characterised by the whole history of its samples.
 */
module Filters {
  import opened Bits

  // ---------------------------------------------------------------------------------------------
  // Leaky counters

  /** Bad samples minus good samples. */
  function Net(w: seq<bool>): int {
    if w == [] then 0 else Net(w[..|w| - 1]) + (if w[|w| - 1] then 1 else -1)
  }

  function LeakyStep(c: nat, bad: bool): nat {
    if bad then c + 1 else if c > 0 then c - 1 else c
  }

  /** The counter after a history of samples; true is bad. */
  function Leaky(w: seq<bool>): nat {
    if w == [] then 0 else LeakyStep(Leaky(w[..|w| - 1]), w[|w| - 1])
  }

  /** The counter is the largest net excess of bad samples over any window that ends now. */
  lemma {:induction false} LeakyIsMaximum(w: seq<bool>)
    ensures forall k :: 0 <= k <= |w| ==> Net(w[k..]) <= Leaky(w)
    ensures exists k :: 0 <= k <= |w| && Net(w[k..]) == Leaky(w)
  {
    if w == [] {
      assert Net(w[0..]) == Leaky(w);
    } else {
      var n := |w| - 1;
      var v := w[..n];
      LeakyIsMaximum(v);
      var k :| 0 <= k <= |v| && Net(v[k..]) == Leaky(v);
      forall j | 0 <= j <= n
        ensures Net(w[j..]) == Net(v[j..]) + (if w[n] then 1 else -1)
      {
        assert w[j..][..n - j] == v[j..];
      }
      assert Net(w[|w|..]) == 0;
      var m := if Leaky(v) == 0 && !w[n] then |w| else k;
      assert Net(w[m..]) == Leaky(w);
    }
  }

  /** The counter is over its limit exactly when some window that ends now has that much net excess. */
  lemma TripsExactly(w: seq<bool>, limit: nat)
    ensures Leaky(w) > limit <==> exists k :: 0 <= k <= |w| && Net(w[k..]) > limit
  {
    LeakyIsMaximum(w);
  }

  // ---------------------------------------------------------------------------------------------
  // The e-stop debounce counter, an int of 16 bits

  const INT_MAX: int := 0x7fff

  /** One tick. Where the C increment overflows, it is taken to wrap. */
  function DebounceStep(c: int, pressed: bool): int {
    if pressed then (if c == INT_MAX then -INT_MAX - 1 else c + 1) else if c > 0 then c - 1 else c
  }

  function Debounce(w: seq<bool>): (c: int)
    ensures c <= INT_MAX
  {
    if w == [] then 0 else DebounceStep(Debounce(w[..|w| - 1]), w[|w| - 1])
  }

  /** The counter is the leaky one throughout, exactly if that never gets beyond 16 bits. */
  lemma {:induction false} DebounceExact(w: seq<bool>)
    ensures (forall n :: 0 <= n <= |w| ==> Debounce(w[..n]) == Leaky(w[..n]))
            <==> forall n :: 0 <= n <= |w| ==> Leaky(w[..n]) <= INT_MAX
  {
    if forall n :: 0 <= n <= |w| ==> Leaky(w[..n]) <= INT_MAX {
      forall n | 0 <= n <= |w|
        ensures Debounce(w[..n]) == Leaky(w[..n])
      {
        DebounceIsLeaky(w, n);
      }
    }
  }

  /** So throughout a history the counter is over a limit exactly when the leaky one is, if and only if the
      leaky one never gets beyond 16 bits. */
  lemma TripsRightlyExact(w: seq<bool>, limit: nat)
    requires limit <= INT_MAX
    ensures (forall n :: 0 <= n <= |w| ==> (Debounce(w[..n]) > limit <==> Leaky(w[..n]) > limit))
            <==> forall n :: 0 <= n <= |w| ==> Leaky(w[..n]) <= INT_MAX
  {
    hide Debounce, Leaky;
    DebounceExact(w);
    if n :| 0 <= n <= |w| && Leaky(w[..n]) > INT_MAX {
      var m := FirstOverflow(w, n);
    }
  }

  /** Where the leaky counter first gets beyond 16 bits, the other one is negative. */
  lemma {:induction false} FirstOverflow(w: seq<bool>, n: nat) returns (m: nat)
    requires n <= |w| && Leaky(w[..n]) > INT_MAX
    ensures m <= n && Leaky(w[..m]) > INT_MAX && Debounce(w[..m]) < 0
  {
    var v := w[..n - 1];
    assert w[..n][..n - 1] == v;
    if k :| 0 <= k < n && Leaky(w[..k]) > INT_MAX {
      m := FirstOverflow(w, k);
    } else {
      m := n;
      forall k | 0 <= k <= |v|
        ensures Leaky(v[..k]) <= INT_MAX
      {
        assert v[..k] == w[..k];
      }
      DebounceIsLeaky(v, n - 1);
      assert v[..n - 1] == v;
    }
  }

  lemma {:induction false} DebounceIsLeaky(w: seq<bool>, n: nat)
    requires n <= |w|
    requires forall n :: 0 <= n <= |w| ==> Leaky(w[..n]) <= INT_MAX
    ensures Debounce(w[..n]) == Leaky(w[..n])
  {
    if n > 0 {
      DebounceIsLeaky(w, n - 1);
      assert w[..n][..n - 1] == w[..n - 1];
    }
  }

  function Pressed(n: nat): (w: seq<bool>)
    ensures |w| == n
  {
    seq(n, _ => true)
  }

  lemma {:induction false} PressedCounts(n: nat)
    requires n <= INT_MAX
    ensures Debounce(Pressed(n)) == n
  {
    if n > 0 {
      PressedCounts(n - 1);
      assert Pressed(n)[..n - 1] == Pressed(n - 1);
    }
  }

  /** A button held for 32768 ticks makes the counter negative, and a release does not bring it back:
      the filter then is far below its limit although almost every sample was bad. */
  lemma {:induction false} HeldTooLong(released: nat)
    ensures Debounce(Pressed(0x8000) + seq(released, _ => false)) == -0x8000
  {
    var w := Pressed(0x8000) + seq(released, _ => false);
    if released == 0 {
      PressedCounts(0x7fff);
      assert w[..0x7fff] == Pressed(0x7fff);
    } else {
      HeldTooLong(released - 1);
      assert w[..|w| - 1] == Pressed(0x8000) + seq(released - 1, _ => false);
    }
  }

  // ---------------------------------------------------------------------------------------------
  // The toe switch

  const TOE_THRESH: int := 500
  const TOE_WINDOW: nat := 51

  /** The thresholded reading, with detection of sensor dropout. */
  function Touching(toeSensor: UInt16, zero: int): bool {
    Int16(toeSensor) - zero > TOE_THRESH && Int16(toeSensor) != 4095
  }

  /** A reading touches exactly if it is more than 500 above the one at rest, both as signed numbers of 16 bits, and is
      not the 4095 of a sensor that has dropped out. */
  lemma TouchingExact(toeSensor: UInt16, rest: UInt16)
    ensures var n, r: int := toeSensor, rest;
            var reading, zero := if n < 0x8000 then n else n - 0x1_0000, if r < 0x8000 then r else r - 0x1_0000;
            Touching(toeSensor, Int16(rest)) <==> reading >= zero + 501 && n != 4095
  {
  }

  /** The last 51 of the first n readings all are v. */
  predicate Steady(b: seq<bool>, n: nat, v: bool)
    requires n <= |b|
  {
    TOE_WINDOW <= n && forall i :: n - TOE_WINDOW <= i < n ==> b[i] == v
  }

  ghost predicate NoneAfter(b: seq<bool>, n: nat, v: bool) {
    forall m :: n < m <= |b| ==> !Steady(b, m, v)
  }

  /** v is the value of the most recent steady window, or false if there has been none. */
  ghost predicate Shows(b: seq<bool>, v: bool) {
    || (exists n: nat :: n <= |b| && Steady(b, n, v) && NoneAfter(b, n, !v))
    || (!v && NoneAfter(b, 0, true))
  }

  /** Exactly one value is shown. */
  lemma {:induction false} ShowsOne(b: seq<bool>)
    ensures Shows(b, true) != Shows(b, false)
  {
    if b == [] {
    } else {
      var a, r := b[..|b| - 1], b[|b| - 1];
      ShowsOne(a);
      assert b == a + [r];
      ShowsSnoc(a, r, true);
      ShowsSnoc(a, r, false);
    }
  }

  /** One more reading changes what is shown only if it completes a steady window. */
  lemma ShowsSnoc(b: seq<bool>, r: bool, v: bool)
    ensures Shows(b + [r], v) <==> if Steady(b + [r], |b| + 1, r) then v == r else Shows(b, v)
  {
    var c := b + [r];
    forall m: nat, x | m <= |b|
      ensures Steady(b, m, x) == Steady(c, m, x)
    {
      assert forall i :: 0 <= i < m ==> b[i] == c[i];
    }
    assert c[|b|] == r;
    if Steady(c, |c|, r) {
      assert NoneAfter(c, |c|, !r);
    } else {
      assert forall n: nat, x :: n <= |b| ==> NoneAfter(b, n, x) == NoneAfter(c, n, x);
    }
  }

  /** Readings that all are v. */
  function Same(v: bool, n: nat): (w: seq<bool>)
    ensures |w| == n && forall i :: 0 <= i < n ==> w[i] == v
  {
    seq(n, _ => v)
  }

  /** After a reading of the other kind, 51 equal readings are needed to change what is shown, and 51 are enough. */
  lemma {:induction false} FiftyOneShow(b: seq<bool>, v: bool, n: nat, x: bool)
    requires n <= 51 && b != [] && b[|b| - 1] != v
    ensures n < 51 ==> (Shows(b + Same(v, n), x) <==> Shows(b, x))
    ensures n == 51 ==> (Shows(b + Same(v, n), x) <==> x == v)
  {
    if n == 0 {
      assert b + Same(v, 0) == b;
    } else {
      FiftyOneShow(b, v, n - 1, x);
      var c := b + Same(v, n - 1);
      assert b + Same(v, n) == c + [v];
      assert (c + [v])[|b| - 1] != v;
      ShowsSnoc(c, v, x);
    }
  }

  class ToeSwitch {
    const zeroToeSensor: int
    var oldToeBool: bool
    var toeBool: bool
    var toeCounter: nat
    ghost var readings: seq<bool>

    /** The counter: how many readings before the last one equalled it, up to 50, where the switch
        started from a reading that was not touching. */
    ghost predicate Counts() reads this {
      && toeCounter <= 50
      && (readings == [] ==> !oldToeBool)
      && (readings != [] ==> oldToeBool == readings[|readings| - 1])
      && (forall i :: 0 <= i < |readings| && i >= |readings| - 1 - toeCounter ==> readings[i] == oldToeBool)
      && (toeCounter >= |readings| ==> !oldToeBool)
      && (toeCounter < 50 && toeCounter + 1 < |readings| ==> readings[|readings| - 2 - toeCounter] != oldToeBool)
      && (toeCounter < 50 && toeCounter + 1 == |readings| ==> oldToeBool)
    }

    ghost predicate Valid()
      reads this
    {
      Counts() && Shows(readings, toeBool)
    }

    /** postOpInit */
    constructor (toeSensor: UInt16)
      ensures Valid() && readings == [] && !toeBool && zeroToeSensor == Int16(toeSensor)
    {
      zeroToeSensor := Int16(toeSensor);
      oldToeBool, toeBool, toeCounter, readings := false, false, 0, [];
    }

    method ToeDetect(toeSensor: UInt16) returns (onGround: bool)
      requires Valid()
      modifies this
      ensures Valid() && readings == old(readings) + [Touching(toeSensor, zeroToeSensor)]
      ensures Shows(readings, onGround)
    {
      var newToeBool := Touching(toeSensor, zeroToeSensor);
      if newToeBool == oldToeBool {
        toeCounter := toeCounter + 1;
      } else {
        toeCounter := 0;
      }
      if toeCounter >= 50 {
        toeBool := newToeBool;
        toeCounter := 50;
      }
      oldToeBool := newToeBool;
      onGround := toeBool;
      ShowsSnoc(readings, newToeBool, toeBool);
      readings := readings + [newToeBool];
    }
  }
}
