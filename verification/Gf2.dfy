/**
  Division of polynomials over GF(2), once as it is done by a 32-bit shift register that is fed the
  message bit by bit and once as polynomial arithmetic, for any divisor x^32 + g.
  A polynomial of degree below n is the sequence of its n coefficients, highest first.
 */
module Gf2 {
  import opened Bits

  type Word = w: seq<bool> | |w| == 32 witness Zeros(32)

  // ---------------------------------------------------------------------------------------------
  // The shift register

  /** One division step: shift left, and subtract the divisor if a one was shifted out. */
  function Shift(g: Word, r: Word): Word {
    if r[0] then Xor(r[1..] + [false], g) else r[1..] + [false]
  }

  function ShiftN(g: Word, r: Word, n: nat): Word
    decreases n
  {
    if n == 0 then r else ShiftN(g, Shift(g, r), n - 1)
  }

  /** Feeds one message bit: the bit meets the one being shifted out. */
  function Step(g: Word, r: Word, b: bool): Word {
    if r[0] != b then Xor(r[1..] + [false], g) else r[1..] + [false]
  }

  function Feed(g: Word, r: Word, bits: seq<bool>): Word
    decreases |bits|
  {
    if bits == [] then r else Feed(g, Step(g, r, bits[0]), bits[1..])
  }

  lemma {:induction false} FeedConcat(g: Word, r: Word, s: seq<bool>, t: seq<bool>)
    ensures Feed(g, r, s + t) == Feed(g, Feed(g, r, s), t)
    decreases |s|
  {
    if s == [] {
      assert s + t == t;
    } else {
      assert (s + t)[1..] == s[1..] + t;
      FeedConcat(g, Step(g, r, s[0]), s[1..], t);
    }
  }

  lemma ShiftLinear(g: Word, x: Word, y: Word)
    ensures Shift(g, Xor(x, y)) == Xor(Shift(g, x), Shift(g, y))
  {
    var a, b := Shift(g, Xor(x, y)), Xor(Shift(g, x), Shift(g, y));
    forall i | 0 <= i < 32
      ensures a[i] == b[i]
    {
    }
  }

  lemma {:induction false} ShiftNLinear(g: Word, x: Word, y: Word, n: nat)
    ensures ShiftN(g, Xor(x, y), n) == Xor(ShiftN(g, x, n), ShiftN(g, y, n))
    decreases n
  {
    if n > 0 {
      ShiftLinear(g, x, y);
      ShiftNLinear(g, Shift(g, x), Shift(g, y), n - 1);
    }
  }

  /** While only zeros are shifted out, nothing is subtracted. */
  lemma {:induction false} ShiftNZeros(g: Word, x: Word, n: nat)
    requires n <= 32
    requires forall i :: 0 <= i < n ==> !x[i]
    ensures ShiftN(g, x, n) == x[n..] + Zeros(n)
    decreases n
  {
    if n == 0 {
      assert x[n..] + Zeros(n) == x;
    } else {
      ShiftNZeros(g, Shift(g, x), n - 1);
      assert Shift(g, x)[n - 1..] + Zeros(n - 1) == x[n..] + Zeros(n);
    }
  }

  /** Up to 32 message bits can be subtracted from the register in advance. */
  lemma {:induction false} FeedInAdvance(g: Word, r: Word, bits: seq<bool>)
    requires |bits| <= 32
    ensures Feed(g, r, bits) == ShiftN(g, Xor(r, bits + Zeros(32 - |bits|)), |bits|)
    decreases |bits|
  {
    var n := |bits|;
    if n == 0 {
      assert Xor(r, bits + Zeros(32)) == r;
    } else {
      var s := Step(g, r, bits[0]);
      FeedInAdvance(g, s, bits[1..]);
      ShiftAdvances(g, r, bits);
    }
  }

  lemma ShiftAdvances(g: Word, r: Word, bits: seq<bool>)
    requires 0 < |bits| <= 32
    ensures Shift(g, Xor(r, bits + Zeros(32 - |bits|)))
         == Xor(Step(g, r, bits[0]), bits[1..] + Zeros(33 - |bits|))
  {
    var x: Word := bits + Zeros(32 - |bits|);
    var y: Word := bits[1..] + Zeros(33 - |bits|);
    assert y == x[1..] + [false];
    var a, b := Shift(g, Xor(r, x)), Xor(Step(g, r, bits[0]), y);
    forall i | 0 <= i < 32
      ensures a[i] == b[i]
    {
    }
  }

  // ---------------------------------------------------------------------------------------------
  // Polynomial division

  /** The product of q with x^32 + g. */
  function Product(g: Word, q: seq<bool>): (p: seq<bool>)
    ensures |p| == |q| + 32
    decreases |q|
  {
    if q == [] then Zeros(32) else Xor([false] + Product(g, q[1..]), Multiple(g, q[0], |q| - 1))
  }

  /** The divisor, or zero, shifted up by n. */
  function Multiple(g: Word, c: bool, n: nat): (p: seq<bool>)
    ensures |p| == n + 33
    ensures p[0] == c
  {
    if c then [true] + g + Zeros(n) else Zeros(n + 33)
  }

  /** p = q * (x^32 + g) + r with r below degree 32. */
  ghost predicate IsDivision(g: Word, p: seq<bool>, q: seq<bool>, r: Word) {
    |p| == |q| + 32 && p == Xor(Product(g, q), Zeros(|q|) + r)
  }

  ghost predicate IsRemainder(g: Word, p: seq<bool>, r: Word) {
    exists q :: IsDivision(g, p, q, r)
  }

  /** What long division leaves to divide after the quotient coefficient p[0]. */
  function Reduced(g: Word, p: seq<bool>): (t: seq<bool>)
    requires |p| > 32
    ensures |t| == |p| - 1
  {
    Xor(p, Multiple(g, p[0], |p| - 33))[1..]
  }

  lemma DivisionStep(g: Word, p: seq<bool>, q: seq<bool>, r: Word)
    requires q != []
    ensures IsDivision(g, p, q, r) <==> |p| == |q| + 32 && p[0] == q[0] && IsDivision(g, Reduced(g, p), q[1..], r)
  {
    if |p| == |q| + 32 {
      var m := Multiple(g, q[0], |q| - 1);
      var a := Xor(Product(g, q), Zeros(|q|) + r);
      var b := Xor(Product(g, q[1..]), Zeros(|q| - 1) + r);
      ProductPeeled(g, q, r);
      hide Product, Multiple, Xor, Zeros;
      if p[0] == q[0] {
        var c := Reduced(g, p);
        assert forall i :: 1 <= i < |p| ==> c[i - 1] == (p[i] != m[i]);
        SameTails(p, a, c, b, m);
      }
    }
  }

  /** What q * (x^32 + g) + r is made of, coefficient by coefficient. */
  lemma ProductPeeled(g: Word, q: seq<bool>, r: Word)
    requires q != []
    ensures var m := Multiple(g, q[0], |q| - 1);
            var a := Xor(Product(g, q), Zeros(|q|) + r);
            var b := Xor(Product(g, q[1..]), Zeros(|q| - 1) + r);
            a[0] == q[0] && forall i :: 1 <= i < |a| ==> a[i] == (b[i - 1] != m[i])
  {
    hide Multiple, Xor, Zeros;
    assert Product(g, q) == Xor([false] + Product(g, q[1..]), Multiple(g, q[0], |q| - 1));
  }

  /** Adding m to what follows the first coefficient neither hides nor makes a difference. */
  lemma SameTails(p: seq<bool>, a: seq<bool>, c: seq<bool>, b: seq<bool>, m: seq<bool>)
    requires |p| == |a| == |m| == |c| + 1 == |b| + 1 && p[0] == a[0]
    requires forall i :: 1 <= i < |p| ==> c[i - 1] == (p[i] != m[i])
    requires forall i :: 1 <= i < |p| ==> a[i] == (b[i - 1] != m[i])
    ensures p == a <==> c == b
  {
    assert forall i :: 0 <= i < |c| ==> c[i] == (p[i + 1] != m[i + 1]) && b[i] == (a[i + 1] != m[i + 1]);
    if c == b {
      assert forall i :: 1 <= i < |p| ==> p[i] == (c[i - 1] != m[i]);
    }
  }

  /** A polynomial has at most one quotient and one remainder below degree 32. */
  lemma {:induction false} DivisionUnique(g: Word, p: seq<bool>, q: seq<bool>, r: Word, q': seq<bool>, r': Word)
    requires IsDivision(g, p, q, r) && IsDivision(g, p, q', r')
    ensures q == q' && r == r'
    decreases |q|
  {
    if q == [] {
      assert q' == [] && r == p == r';
    } else {
      DivisionStep(g, p, q, r);
      DivisionStep(g, p, q', r');
      DivisionUnique(g, Reduced(g, p), q[1..], r, q'[1..], r');
      assert q == [q[0]] + q[1..] && q' == [q'[0]] + q'[1..];
    }
  }

  /** The polynomial the register divides: the message shifted up by 32 plus the first register on top. */
  function Dividend(r: Word, bits: seq<bool>): (p: seq<bool>)
    ensures |p| == |bits| + 32
  {
    Xor(bits + Zeros(32), r + Zeros(|bits|))
  }

  /** The quotient coefficients that come out of the register. */
  function Quotient(g: Word, r: Word, bits: seq<bool>): (q: seq<bool>)
    ensures |q| == |bits|
    decreases |bits|
  {
    if bits == [] then [] else [r[0] != bits[0]] + Quotient(g, Step(g, r, bits[0]), bits[1..])
  }

  lemma ReducedDividend(g: Word, r: Word, bits: seq<bool>)
    requires bits != []
    ensures Dividend(r, bits)[0] == (r[0] != bits[0])
    ensures Reduced(g, Dividend(r, bits)) == Dividend(Step(g, r, bits[0]), bits[1..])
  {
    var p, n := Dividend(r, bits), |bits| - 1;
    var s := Step(g, r, bits[0]);
    var a, b := Reduced(g, p), Dividend(s, bits[1..]);
    var m := Multiple(g, p[0], n);
    forall i | 0 <= i < |a|
      ensures a[i] == b[i]
    {
      assert a[i] == (p[i + 1] != m[i + 1]);
      assert (bits + Zeros(32))[i + 1] == (bits[1..] + Zeros(32))[i];
    }
  }

  /** The register divides. */
  lemma {:induction false} FeedDivides(g: Word, r: Word, bits: seq<bool>)
    ensures IsDivision(g, Dividend(r, bits), Quotient(g, r, bits), Feed(g, r, bits))
    decreases |bits|
  {
    var p := Dividend(r, bits);
    if bits == [] {
      assert p == r;
    } else {
      var s := Step(g, r, bits[0]);
      FeedDivides(g, s, bits[1..]);
      ReducedDividend(g, r, bits);
      var q := Quotient(g, r, bits);
      assert q[1..] == Quotient(g, s, bits[1..]);
      DivisionStep(g, p, q, Feed(g, r, bits));
    }
  }

  /** Feeding computes the one remainder of the dividend. */
  lemma FeedIsRemainder(g: Word, r: Word, bits: seq<bool>, x: Word)
    ensures IsRemainder(g, Dividend(r, bits), x) <==> x == Feed(g, r, bits)
  {
    FeedDivides(g, r, bits);
    var p, q0 := Dividend(r, bits), Quotient(g, r, bits);
    assert IsDivision(g, p, q0, Feed(g, r, bits));
    forall q | IsDivision(g, p, q, x)
      ensures x == Feed(g, r, bits)
    {
      DivisionUnique(g, p, q, x, q0, Feed(g, r, bits));
    }
  }

  // ---------------------------------------------------------------------------------------------
  // Injectivity, when the constant coefficient of the divisor is one

  /** Equal steps reveal the bit shifted out and all bits but the first. */
  lemma StepBack(g: Word, r: Word, b: bool, r': Word, b': bool, k: nat)
    requires g[31] && k < 32
    requires Step(g, r, b)[k..] == Step(g, r', b')[k..]
    ensures (r[0] != b) == (r'[0] != b')
    ensures r[k + 1..] == r'[k + 1..]
  {
    var s, s' := Step(g, r, b), Step(g, r', b');
    assert forall i :: k <= i < 32 ==> s[i] == s[k..][i - k] && s'[i] == s'[k..][i - k];
    assert s[31] == (r[0] != b) && s'[31] == (r'[0] != b');
    forall i | k + 1 <= i < 32
      ensures r[i] == r'[i]
    {
      assert s[i - 1] == s'[i - 1];
    }
  }

  /** Equal registers after equally many bits agree, before those bits, where none of them has reached. */
  lemma {:induction false} FeedBack(g: Word, r: Word, w: seq<bool>, r': Word, w': seq<bool>)
    requires g[31]
    requires |w| == |w'| <= 32
    requires Feed(g, r, w) == Feed(g, r', w')
    ensures r[|w|..] == r'[|w|..]
    ensures w != [] ==> (r[0] != w[0]) == (r'[0] != w'[0])
    decreases |w|
  {
    if w != [] {
      FeedBack(g, Step(g, r, w[0]), w[1..], Step(g, r', w'[0]), w'[1..]);
      StepBack(g, r, w[0], r', w'[0], |w| - 1);
    }
  }

  /** From one register, two different windows of at most 32 bits lead to different registers. */
  lemma {:induction false} WindowInjective(g: Word, r: Word, w: seq<bool>, w': seq<bool>)
    requires g[31]
    requires |w| == |w'| <= 32
    requires Feed(g, r, w) == Feed(g, r, w')
    ensures w == w'
    decreases |w|
  {
    if w != [] {
      FeedBack(g, r, w, r, w');
      WindowInjective(g, Step(g, r, w[0]), w[1..], w'[1..]);
      assert w == [w[0]] + w[1..] && w' == [w'[0]] + w'[1..];
    }
  }

  /** Common bits never hide a difference of registers. */
  lemma {:induction false} FeedInjective(g: Word, r: Word, r': Word, bits: seq<bool>)
    requires g[31]
    requires Feed(g, r, bits) == Feed(g, r', bits)
    ensures r == r'
    decreases |bits|
  {
    if bits != [] {
      var s, s' := Step(g, r, bits[0]), Step(g, r', bits[0]);
      FeedInjective(g, s, s', bits[1..]);
      StepBack(g, r, bits[0], r', bits[0], 0);
      assert r == [r[0]] + r[1..] && r' == [r'[0]] + r'[1..];
    }
  }

  /** Messages that differ only inside a window of 32 consecutive bits lead to different registers. */
  lemma BurstDetected(g: Word, r: Word, a: seq<bool>, b: seq<bool>, lo: nat, hi: nat)
    requires g[31]
    requires |a| == |b|
    requires lo <= hi <= |a| && hi - lo <= 32
    requires a[..lo] == b[..lo] && a[hi..] == b[hi..]
    ensures a != b ==> Feed(g, r, a) != Feed(g, r, b)
  {
    hide Feed, Step, Shift;
    var front, v, w, back := a[..lo], a[lo..hi], b[lo..hi], a[hi..];
    FeedSplit(g, r, a, front, v, back);
    FeedSplit(g, r, b, front, w, back);
    var s := Feed(g, r, front);
    if Feed(g, r, a) == Feed(g, r, b) {
      FeedInjective(g, Feed(g, s, v), Feed(g, s, w), back);
      WindowInjective(g, s, v, w);
    }
  }

  lemma FeedSplit(g: Word, r: Word, a: seq<bool>, front: seq<bool>, window: seq<bool>, back: seq<bool>)
    requires a == front + window + back
    ensures Feed(g, r, a) == Feed(g, Feed(g, Feed(g, r, front), window), back)
  {
    FeedConcat(g, r, front, window);
    FeedConcat(g, r, front + window, back);
  }

  // ---------------------------------------------------------------------------------------------
  // The residue

  lemma {:induction false} FeedOwnBits(g: Word, r: Word, k: nat)
    requires k <= 32
    ensures Feed(g, r, r[..k]) == r[k..] + Zeros(k)
    decreases k
  {
    if k == 0 {
      assert r[..k] == [] && r[k..] + Zeros(k) == r;
    } else {
      var s := Step(g, r, r[0]);
      FeedOwnBits(g, s, k - 1);
      assert r[..k][1..] == s[..k - 1];
      assert s[k - 1..] + Zeros(k - 1) == r[k..] + Zeros(k);
    }
  }

  /** A 32-bit trailer clears the register exactly when it is the register. */
  lemma Residue(g: Word, r: Word, w: Word)
    requires g[31]
    ensures Feed(g, r, w) == Zeros(32) <==> w == r
  {
    FeedOwnBits(g, r, 32);
    assert r[..32] == r && r[32..] + Zeros(32) == Zeros(32);
    if Feed(g, r, w) == Zeros(32) {
      WindowInjective(g, r, w, r);
    }
  }
}
