/**
  Integer arithmetic as C does it, where division and remainder truncate toward zero and conversions
  wrap, and the repairs that turn the C remainder into a centred one. Quotient and remainder are
  defined by repeated subtraction, so that nothing below needs nonlinear arithmetic.
 */
module CArith {
  import opened Bits

  type Positive = n: int | n > 0 witness 1

  /** `a / b`, for positive b. */
  function Div(a: int, b: Positive): (q: int)
    ensures a >= 0 ==> 0 <= q <= a && (q == 0 <==> a < b)
    ensures a <= 0 ==> a <= q <= 0 && (q == 0 <==> a + b > 0)
    decreases a < 0, if a < 0 then -a else a
  {
    if a < 0 then -Div(-a, b) else if a < b then 0 else 1 + Div(a - b, b)
  }

  /** `a % b`, for positive b. The sign is that of a. */
  function Rem(a: int, b: Positive): (r: int)
    ensures r + b > 0 && r < b && (a >= 0 ==> r >= 0) && (a <= 0 ==> r <= 0)
    decreases a < 0, if a < 0 then -a else a
  {
    if a < 0 then -Rem(-a, b) else if a < b then a else Rem(a - b, b)
  }

  /** Quotient and remainder are those of C. */
  lemma {:induction false} DivExact(a: int, b: Positive)
    ensures a == Times(Div(a, b), b) + Rem(a, b)
    decreases a < 0, if a < 0 then -a else a
  {
    if a < 0 {
      DivExact(-a, b);
      TimesNegates(Div(-a, b), b);
    } else if a >= b {
      DivExact(a - b, b);
    }
  }

  /** n times b, without a product of two variables. */
  function Times(n: int, b: int): int
    decreases n < 0, if n < 0 then -n else n
  {
    if n < 0 then -Times(-n, b) else if n == 0 then 0 else Times(n - 1, b) + b
  }

  lemma TimesNegates(n: int, b: int)
    ensures Times(-n, b) == -Times(n, b)
  {
  }

  /** a modulo m, which lies between 0 and m - 1. */
  function Mod(a: int, m: Positive): (r: int)
    ensures 0 <= r < m
    decreases a < 0, if a < 0 then -a else a
  {
    if a < 0 then Mod(a + m, m) else if a < m then a else Mod(a - m, m)
  }

  /** Equal up to a multiple of m. */
  predicate Congruent(a: int, b: int, m: Positive) {
    Mod(a, m) == Mod(b, m)
  }

  lemma ModPeriod(a: int, m: Positive)
    ensures Mod(a + m, m) == Mod(a, m)
  {
  }

  lemma {:induction false} ModSum(a: int, c: int, m: Positive)
    ensures Mod(a + c, m) == Mod(Mod(a, m) + c, m)
    decreases a < 0, if a < 0 then -a else a
  {
    if a < 0 {
      ModSum(a + m, c, m);
      ModPeriod(a + c, m);
    } else if a >= m {
      ModSum(a - m, c, m);
      ModPeriod(a - m + c, m);
    }
  }

  lemma CongruentShift(a: int, b: int, c: int, m: Positive)
    ensures Congruent(a + c, b + c, m) <==> Congruent(a, b, m)
  {
    ModSum(a, c, m);
    ModSum(b, c, m);
    ModSum(a + c, -c, m);
    ModSum(b + c, -c, m);
  }

  lemma CongruentSum(a: int, b: int, c: int, d: int, m: Positive)
    requires Congruent(a, b, m) && Congruent(c, d, m)
    ensures Congruent(a + c, b + d, m) && Congruent(a - c, b - d, m)
  {
    CongruentShift(a, b, c, m);
    CongruentShift(c, d, b, m);
    CongruentShift(a, b, -c, m);
    CongruentShift(c, d, b - c - d, m);
  }

  /** Wrapping at twice the modulus is invisible. */
  lemma {:induction false} ModDouble(n: int, m: Positive)
    ensures Mod(Mod(n, 2 * m), m) == Mod(n, m)
    decreases n < 0, if n < 0 then -n else n
  {
    if n < 0 {
      ModDouble(n + 2 * m, m);
      ModPeriod(n, m);
      ModPeriod(n + m, m);
    } else if n >= 2 * m {
      ModDouble(n - 2 * m, m);
      ModPeriod(n - m, m);
      ModPeriod(n - 2 * m, m);
    }
  }

  // ---------------------------------------------------------------------------------------------
  // Machine integers

  /** Conversion to an unsigned type of the given width. */
  function ToUnsigned(n: int, width: nat): int {
    Mod(n, Pow2(width))
  }

  /** Conversion to a signed type of the given width. */
  function ToSigned(n: int, width: nat): int {
    Centre(n, Pow2(width))
  }

  /** A conversion keeps everything modulo smaller powers of two. */
  lemma {:induction false} WrapInvisible(n: int, bits: nat, width: nat)
    requires bits <= width
    ensures Congruent(ToUnsigned(n, width), n, Pow2(bits))
    ensures Congruent(ToSigned(n, width), n, Pow2(bits))
    decreases width
  {
    var h: int := Pow2(width) / 2;
    ModOfMod(n, bits, width);
    ModOfMod(n + h, bits, width);
    CongruentShift(Mod(n + h, Pow2(width)), n + h, -h, Pow2(bits));
  }

  lemma {:induction false} ModOfMod(n: int, bits: nat, width: nat)
    requires bits <= width
    ensures Mod(Mod(n, Pow2(width)), Pow2(bits)) == Mod(n, Pow2(bits))
    decreases width
  {
    if bits < width {
      ModOfMod(n, bits, width - 1);
      ModOfMod(Mod(n, Pow2(width)), bits, width - 1);
      ModDouble(n, Pow2(width - 1));
    }
  }

  // ---------------------------------------------------------------------------------------------
  // Centred remainders

  /** The representative of x modulo `range` that is nearest to zero. */
  function Centre(x: int, range: Positive): (c: int)
    ensures -(range / 2) <= c < range - range / 2
  {
    Mod(x + range / 2, range) - range / 2
  }

  /** It is the only number in the centred range that is congruent to x. */
  lemma CentreExact(x: int, c: int, range: Positive)
    ensures Centre(x, range) == c <==> -(range / 2) <= c < range - range / 2 && Congruent(c, x, range)
  {
    var h := range / 2;
    CongruentShift(c, x, h, range);
    if -h <= c < range - h {
      assert Mod(c + h, range) == c + h;
    }
  }

  lemma CentreOfCongruent(x: int, y: int, range: Positive)
    requires Congruent(x, y, range)
    ensures Centre(x, range) == Centre(y, range)
  {
    CongruentShift(x, y, range / 2, range);
  }

  lemma {:induction false} RemMod(a: int, b: Positive)
    ensures Rem(a, b) == if a >= 0 || Mod(a, b) == 0 then Mod(a, b) else Mod(a, b) - b
    decreases a < 0, if a < 0 then -a else a
  {
    if a + b <= 0 {
      RemMod(a + b, b);
      assert Rem(a, b) == Rem(a + b, b);
    } else if a >= b {
      RemMod(a - b, b);
    }
  }

  /** The plain C expression `(x + range / 2) % range - range / 2` is centred exactly when its dividend
      is not negative, or divisible. */
  lemma PlainForm(x: int, range: Positive)
    ensures Rem(x + range / 2, range) - range / 2 == Centre(x, range)
            <==> x + range / 2 >= 0 || Mod(x + range / 2, range) == 0
  {
    RemMod(x + range / 2, range);
  }

  /** `Encoder::mod`, and the MOD macro of the firmware. */
  function RepairedRem(a: int, b: Positive): int {
    Rem(Rem(a, b) + b, b)
  }

  /** The repaired remainder is the modulo, for dividends of either sign. */
  lemma RepairIsExact(a: int, b: Positive)
    ensures RepairedRem(a, b) == Mod(a, b)
  {
    RemMod(a, b);
    RemMod(Rem(a, b) + b, b);
    ModPeriod(Rem(a, b), b);
    ModSum(a, 0, b);
    ModPeriod(Mod(a, b) - b, b);
  }
}
