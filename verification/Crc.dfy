/**
  The table-driven CRC of the KVH inertial sensor: the generation of the lookup table and the
  byte-at-a-time loop over it, proved to compute a GF(2) remainder, and what that remainder detects.
 */
module Crc {
  import opened Bits
  import opened Gf2

  /** A code: the divisor x^32 + poly, and the register that the division starts from. */
  datatype Code = Code(poly: Word, init: Word)

  /** The code of the sensor: CRC_POLY and CRC_INIT. */
  const KVH: Code := Code(ToBits(0x04c1_1db7, 32), ToBits(0xffff_ffff, 32))

  /** The checksum of a packet, bit by bit. */
  function Checksum(code: Code, packet: seq<Byte>): Word {
    Feed(code.poly, code.init, BytesToBits(packet))
  }

  // ---------------------------------------------------------------------------------------------
  // The table form

  /** The register that a byte on its own leaves behind after eight steps. */
  function TableEntry(g: Word, d: Byte): Word {
    ShiftN(g, ToBits(d, 8) + Zeros(24), 8)
  }

  /** One turn of the byte loop, with the table looked up at the index the loop computes. */
  function ByteStep(g: Word, r: Word, b: Byte): Word {
    Xor(r[8..] + Zeros(8), TableEntry(g, Index(r, b)))
  }

  function Index(r: Word, b: Byte): (i: Byte)
    ensures ToBits(i, 8) == Xor(r[..8], ToBits(b, 8))
  {
    var w := Xor(r[..8], ToBits(b, 8));
    ByteBits(w, 0);
    ToBitsOfValue(w);
    Value(w)
  }

  /** One table lookup does the work of eight bit steps. */
  lemma ByteStepIsBitSerial(g: Word, r: Word, b: Byte)
    ensures ByteStep(g, r, b) == Feed(g, r, ToBits(b, 8))
  {
    var high: Word, low: Word := Xor(r[..8], ToBits(b, 8)) + Zeros(24), Zeros(8) + r[8..];
    FeedInAdvance(g, r, ToBits(b, 8));
    assert Xor(r, ToBits(b, 8) + Zeros(24)) == Xor(high, low);
    ShiftNLinear(g, high, low, 8);
    ShiftNZeros(g, low, 8);
    assert low[8..] + Zeros(8) == r[8..] + Zeros(8);
  }

  lemma ChecksumSnoc(code: Code, packet: seq<Byte>, b: Byte)
    ensures Checksum(code, packet + [b]) == ByteStep(code.poly, Checksum(code, packet), b)
  {
    BytesToBitsConcat(packet, [b]);
    assert [b][1..] == [] && ToBits(b, 8) + [] == ToBits(b, 8);
    FeedConcat(code.poly, code.init, BytesToBits(packet), ToBits(b, 8));
    ByteStepIsBitSerial(code.poly, Checksum(code, packet), b);
  }

  class CrcUnit {
    const code: Code
    const table: array<Word>  // crc_table

    ghost predicate Valid()
      reads table
    {
      table.Length == 256 && forall d: Byte :: table[d] == TableEntry(code.poly, d)
    }

    constructor (code: Code)
      ensures this.code == code && fresh(table) && Valid()
    {
      this.code := code;
      table := new Word[256](_ => Zeros(32));
      new;
      GenerateTable();
    }

    method GenerateTable()
      requires table.Length == 256
      modifies table
      ensures Valid()
    {
      var dividend: nat := 0;
      while dividend < 256
        invariant dividend <= 256
        invariant forall d: Byte :: d < dividend ==> table[d] == TableEntry(code.poly, d)
      {
        var remainder := Divide(ToBits(dividend, 8) + Zeros(24), 8);
        table[dividend] := remainder;
        dividend := dividend + 1;
      }
    }

    /** The inner loop of the table generator, with `bits` turns. */
    method Divide(dividend: Word, bits: nat) returns (remainder: Word)
      ensures remainder == ShiftN(code.poly, dividend, bits)
    {
      remainder := dividend;
      var i: nat := 0;
      while i < bits
        invariant i <= bits
        invariant ShiftN(code.poly, remainder, bits - i) == ShiftN(code.poly, dividend, bits)
      {
        if remainder[0] {
          remainder := Xor(remainder[1..] + [false], code.poly);
        } else {
          remainder := remainder[1..] + [false];
        }
        i := i + 1;
      }
    }

    /** The fast loop computes the bit-serial checksum of the first numBytes bytes. */
    method Calc(packet: array<Byte>, numBytes: Byte) returns (crc: Word)
      requires Valid()
      requires numBytes <= packet.Length
      ensures crc == Checksum(code, packet[..numBytes])
    {
      crc := code.init;
      var left: nat, p: nat := numBytes, 0;
      while left != 0
        invariant left + p == numBytes
        invariant crc == Checksum(code, packet[..p])
      {
        ChecksumSnoc(code, packet[..p], packet[p]);
        assert packet[..p + 1] == packet[..p] + [packet[p]];
        left := left - 1;
        crc := Xor(crc[8..] + Zeros(8), table[Index(crc, packet[p])]);
        p := p + 1;
      }
    }
  }

  // ---------------------------------------------------------------------------------------------
  // What the checksum means, for every code and so for the sensor's

  /** The constant coefficient of the divisor is one. */
  predicate Odd(code: Code) {
    code.poly[31]
  }

  lemma KvhIsOdd()
    ensures Odd(KVH)
  {
    hide ToBits;
  }

  /** The checksum is the one remainder of the message, shifted up and with the first register on top. */
  lemma ChecksumIsRemainder(code: Code, packet: seq<Byte>, x: Word)
    ensures IsRemainder(code.poly, Dividend(code.init, BytesToBits(packet)), x) <==> x == Checksum(code, packet)
  {
    FeedIsRemainder(code.poly, code.init, BytesToBits(packet), x);
  }

  /** All bits that differ lie in [lo, hi). */
  ghost predicate DifferWithin(p: seq<Byte>, p': seq<Byte>, lo: nat, hi: nat) {
    && |p| == |p'|
    && lo <= hi <= 8 * |p|
    && forall i :: 0 <= i < 8 * |p| && !(lo <= i < hi) ==> BytesToBits(p)[i] == BytesToBits(p')[i]
  }

  /** Two packets that differ, but only inside a window of 32 consecutive bits, have different checksums. */
  lemma BurstDetected(code: Code, p: seq<Byte>, p': seq<Byte>, lo: nat, hi: nat)
    requires Odd(code)
    requires DifferWithin(p, p', lo, hi) && hi - lo <= 32
    ensures Checksum(code, p) == Checksum(code, p') ==> p == p'
  {
    var a, b := BytesToBits(p), BytesToBits(p');
    assert a[..lo] == b[..lo] && a[hi..] == b[hi..];
    Gf2.BurstDetected(code.poly, code.init, a, b, lo, hi);
    if a == b {
      BytesToBitsInjective(p, p');
    }
  }

  /** The checksum over packet and trailer vanishes exactly when the trailer is the big-endian checksum. */
  lemma Residue(code: Code, packet: seq<Byte>, trailer: seq<Byte>)
    requires Odd(code) && |trailer| == 4
    ensures Vanishes(Checksum(code, packet + trailer)) <==> BytesToBits(trailer) == Checksum(code, packet)
  {
    var r, w := Checksum(code, packet), BytesToBits(trailer);
    BytesToBitsConcat(packet, trailer);
    FeedConcat(code.poly, code.init, BytesToBits(packet), w);
    Gf2.Residue(code.poly, r, w);
  }

  predicate Vanishes(w: Word) {
    w == Zeros(32)
  }

  /** That is, when the trailer holds its four bytes, most significant first. */
  lemma TrailerExact(r: Word, trailer: seq<Byte>)
    requires |trailer| == 4
    ensures BytesToBits(trailer) == r <==> trailer == BigEndian(r)
  {
    BigEndianBits(r);
    if BytesToBits(trailer) == r {
      BytesToBitsInjective(trailer, BigEndian(r));
    }
  }
}
