/**
  Machine words as sequences of bits, most significant bit first, and the value of such a word.
  An unsigned C integer of width n is a sequence of n bits; `x << k` drops k bits at the front and
  appends k zeros, `x ^ y` works bit by bit, and the byte at the front is the most significant one.
 */
module Bits {

  type Byte = x: int | 0 <= x < 0x100
  type UInt16 = x: int | 0 <= x < 0x1_0000
  type UInt32 = x: int | 0 <= x < 0x1_0000_0000

  function Zeros(n: nat): (z: seq<bool>)
    ensures |z| == n
    ensures forall i :: 0 <= i < n ==> !z[i]
  {
    seq(n, _ => false)
  }

  function Xor(a: seq<bool>, b: seq<bool>): (c: seq<bool>)
    requires |a| == |b|
    ensures |c| == |a|
    ensures forall i :: 0 <= i < |a| ==> c[i] == (a[i] != b[i])
  {
    seq(|a|, i requires 0 <= i < |a| => a[i] != b[i])
  }

  function Pow2(n: nat): (p: nat)
    ensures p >= 1
  {
    if n == 0 then 1 else 2 * Pow2(n - 1)
  }

  /** The low `width` bits of n. */
  function ToBits(n: nat, width: nat): (w: seq<bool>)
    ensures |w| == width
    ensures width > 0 ==> w[width - 1] == (n % 2 == 1)
  {
    if width == 0 then [] else ToBits(n / 2, width - 1) + [n % 2 == 1]
  }

  function Value(w: seq<bool>): (n: nat)
    ensures n < Pow2(|w|)
  {
    if w == [] then 0 else 2 * Value(w[..|w| - 1]) + (if w[|w| - 1] then 1 else 0)
  }

  lemma {:induction false} ToBitsOfValue(w: seq<bool>)
    ensures ToBits(Value(w), |w|) == w
  {
    if w != [] {
      ToBitsOfValue(w[..|w| - 1]);
      assert Value(w) / 2 == Value(w[..|w| - 1]);
    }
  }

  lemma {:induction false} ValueOfToBits(n: nat, width: nat)
    requires n < Pow2(width)
    ensures Value(ToBits(n, width)) == n
  {
    if width > 0 {
      ValueOfToBits(n / 2, width - 1);
      var w := ToBits(n, width);
      assert w[..|w| - 1] == ToBits(n / 2, width - 1);
    }
  }

  /** The value of a one-byte word is a byte, and a byte survives the trip through its bits. */
  lemma ByteBits(w: seq<bool>, b: Byte)
    requires |w| == 8
    ensures Value(w) < 0x100
    ensures Value(ToBits(b, 8)) == b
  {
    assert Pow2(8) == 0x100;
    ValueOfToBits(b, 8);
  }

  /** A 16-bit number from its bytes, most significant first. */
  function BigEndian16(high: nat, low: nat): nat {
    0x100 * high + low
  }

  /** The number that a 16-bit word stands for in two's complement. */
  function Int16(n: UInt16): (t: int)
    ensures -0x8000 <= t < 0x8000
    ensures t == n || t == n - 0x1_0000
  {
    if n < 0x8000 then n else n - 0x1_0000
  }

  /** The bits of a byte string, first byte first. */
  function BytesToBits(s: seq<Byte>): (w: seq<bool>)
    ensures |w| == 8 * |s|
  {
    if s == [] then [] else ToBits(s[0], 8) + BytesToBits(s[1..])
  }

  lemma {:induction false} BytesToBitsConcat(s: seq<Byte>, t: seq<Byte>)
    ensures BytesToBits(s + t) == BytesToBits(s) + BytesToBits(t)
  {
    if s == [] {
      assert s + t == t;
    } else {
      assert (s + t)[1..] == s[1..] + t;
      BytesToBitsConcat(s[1..], t);
    }
  }

  lemma {:induction false} BytesToBitsInjective(s: seq<Byte>, t: seq<Byte>)
    requires |s| == |t|
    requires BytesToBits(s) == BytesToBits(t)
    ensures s == t
  {
    if s != [] {
      var a, b := BytesToBits(s), BytesToBits(t);
      assert ToBits(s[0], 8) == a[..8] == b[..8] == ToBits(t[0], 8);
      ByteBits(Zeros(8), s[0]);
      ByteBits(Zeros(8), t[0]);
      assert BytesToBits(s[1..]) == a[8..] == b[8..] == BytesToBits(t[1..]);
      BytesToBitsInjective(s[1..], t[1..]);
    }
  }

  /** The four bytes of a 32-bit word, most significant byte first. */
  function BigEndian(w: seq<bool>): (s: seq<Byte>)
    requires |w| == 32
    ensures |s| == 4
  {
    ByteBits(w[..8], 0);
    ByteBits(w[8..16], 0);
    ByteBits(w[16..24], 0);
    ByteBits(w[24..], 0);
    [Value(w[..8]), Value(w[8..16]), Value(w[16..24]), Value(w[24..])]
  }

  lemma BigEndianBits(w: seq<bool>)
    requires |w| == 32
    ensures BytesToBits(BigEndian(w)) == w
  {
    hide ToBits, Value;
    var s := BigEndian(w);
    ToBitsOfValue(w[..8]);
    ToBitsOfValue(w[8..16]);
    ToBitsOfValue(w[16..24]);
    ToBitsOfValue(w[24..]);
    assert s[1..][1..] == s[2..] && s[2..][1..] == s[3..];
    assert BytesToBits(s[3..]) == w[24..];
    assert BytesToBits(s[2..]) == w[16..];
    assert BytesToBits(s[1..]) == w[8..];
  }
}
