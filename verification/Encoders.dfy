/**
  Unwrapping of rotary encoders. The reading is a position modulo `range`; every driver adds up centred
  differences of readings, and each computes them in its own way.
 */
module Encoders {
  import opened Bits
  import opened CArith

  // ---------------------------------------------------------------------------------------------
  // What unwrapping means

  /** The distance travelled according to the readings. */
  function Travel(readings: seq<int>, range: Positive): int {
    if |readings| < 2 then 0
    else Travel(readings[..|readings| - 1], range)
         + Centre(readings[|readings| - 1] - readings[|readings| - 2], range)
  }

  /** The position: where the first reading lies relative to the calibration value, plus the distance. */
  function Position(readings: seq<int>, calib: int, range: Positive): int {
    if readings == [] then 0 else Centre(readings[0] - calib, range) + Travel(readings, range)
  }

  /** The readings show the true positions, modulo the range. */
  ghost predicate Shows(readings: seq<int>, truth: seq<int>, range: Positive) {
    |readings| == |truth| && forall i :: 0 <= i < |truth| ==> Congruent(readings[i], truth[i], range)
  }

  /** No step between readings is longer than half the range. */
  ghost predicate SlowEnough(truth: seq<int>, range: int) {
    forall i :: 0 < i < |truth| ==> -(range / 2) <= truth[i] - truth[i - 1] < range - range / 2
  }

  /** If no step is too long, the distance is the true one. */
  lemma {:induction false} TravelIsTrue(readings: seq<int>, truth: seq<int>, range: Positive)
    requires truth != []
    requires Shows(readings, truth, range) && SlowEnough(truth, range)
    ensures Travel(readings, range) == truth[|truth| - 1] - truth[0]
    decreases |truth|
  {
    var n := |truth| - 1;
    if n > 0 {
      TravelIsTrue(readings[..n], truth[..n], range);
      CongruentSum(readings[n], truth[n], readings[n - 1], truth[n - 1], range);
      CentreExact(readings[n] - readings[n - 1], truth[n] - truth[n - 1], range);
    }
  }

  /** The position is then off the true one by a constant: what the first reading could not tell. */
  lemma PositionIsTrue(readings: seq<int>, truth: seq<int>, calib: int, range: Positive)
    requires truth != []
    requires Shows(readings, truth, range) && SlowEnough(truth, range)
    ensures Position(readings, calib, range) == Centre(truth[0] - calib, range) + truth[|truth| - 1] - truth[0]
  {
    TravelIsTrue(readings, truth, range);
    CongruentSum(readings[0], truth[0], calib, calib, range);
    CentreOfCongruent(readings[0] - calib, truth[0] - calib, range);
  }

  /** However fast the shaft turns, the position stays right modulo the range. */
  lemma {:induction false} PositionModuloRange(readings: seq<int>, calib: int, range: Positive)
    requires readings != []
    ensures Congruent(Position(readings, calib, range), readings[|readings| - 1] - calib, range)
    decreases |readings|
  {
    hide Mod, Centre;
    var n := |readings| - 1;
    var last := readings[n];
    if n == 0 {
      CentreExact(last - calib, Centre(last - calib, range), range);
    } else {
      var before := readings[n - 1];
      PositionModuloRange(readings[..n], calib, range);
      var step := Centre(last - before, range);
      CentreExact(last - before, step, range);
      CongruentSum(Position(readings[..n], calib, range), before - calib, step, last - before, range);
    }
  }

  /** A step that is too long is misjudged: the result is exact only if no step is too long. */
  lemma SlowEnoughIsNeeded(from: int, to: int, range: Positive)
    ensures Travel([from, to], range) == to - from <==> SlowEnough([from, to], range)
  {
    CentreExact(to - from, to - from, range);
    assert [from, to][..1] == [from];
  }

  lemma TravelSnoc(readings: seq<int>, reading: int, range: Positive)
    requires readings != []
    ensures Travel(readings + [reading], range)
         == Travel(readings, range) + Centre(reading - readings[|readings| - 1], range)
  {
    assert (readings + [reading])[..|readings|] == readings;
  }

  // ---------------------------------------------------------------------------------------------
  // The general encoder class

  class Encoder {
    const numBits: nat
    const width: nat                // of the unsigned readings: 32
    const calibValue: UInt32
    var calibrated: bool
    var curPos: int
    var deltaPos: int
    var lastReading: int            // a uint32_t
    ghost var readings: seq<int>

    ghost function Range(): int {
      Pow2(numBits)
    }

    ghost predicate Valid()
      reads this
    {
      && numBits <= width
      && calibrated == (readings != [])
      && curPos == Position(readings, calibValue, Range())
      && (readings != [] ==> Congruent(lastReading, readings[|readings| - 1], Range()))
    }

    /** Encoder::init */
    constructor (bits: nat, calibReading: UInt32)
      requires bits <= 30
      ensures Valid() && readings == [] && numBits == bits && width == 32 && calibValue == calibReading
    {
      numBits, width, calibValue := bits, 32, calibReading;
      calibrated := false;
      curPos, deltaPos, lastReading, readings := 0, 0, 0, [];
    }

    method Calibrate(reading: UInt32)
      requires numBits <= width
      modifies this`curPos, this`lastReading, this`calibrated
      ensures calibrated && curPos == Position([reading], calibValue, Range()) && lastReading == reading
    {
      hide Mod, Rem, RepairedRem, ToUnsigned, ToSigned;
      var range := Pow2(numBits);
      curPos := ToUnsigned(reading - calibValue, width);
      Recentre(curPos, reading - calibValue, numBits, width);
      curPos := RepairedRem(curPos + range / 2, range) - range / 2;
      lastReading := reading;
      calibrated := true;
    }

    /** The position becomes that of the readings so far, and deltaPos the last centred difference. */
    method Update(reading: UInt32)
      requires Valid()
      modifies this
      ensures Valid() && readings == old(readings) + [reading]
      ensures deltaPos == if old(readings) == [] then 0
                          else Centre(reading - old(readings)[|old(readings)| - 1], Range())
    {
      hide Mod, Rem, RepairedRem, ToUnsigned, ToSigned;
      var range := Pow2(numBits);
      var halfRange := range / 2;
      ghost var before := if readings == [] then [reading] else readings;
      ghost var last := before[|before| - 1];
      if !calibrated {
        Calibrate(reading);
      }
      assert Congruent(lastReading, last, range);
      assert curPos == Position(before, calibValue, range);
      deltaPos := ToSigned(ToUnsigned(reading - lastReading, width), width);
      Recentre2(deltaPos, reading, lastReading, last, numBits, width);
      deltaPos := RepairedRem(deltaPos + halfRange, range) - halfRange;
      curPos := curPos + deltaPos;
      Follow(reading, lastReading, deltaPos, numBits, width);
      lastReading := ToUnsigned(lastReading + deltaPos, width);
      TravelSnoc(before, reading, range);
      if readings == [] {
        assert deltaPos == 0 by { CentreExact(0, 0, range); }
        assert [reading][..0] == [];
      }
      readings := readings + [reading];
    }
  }

  /** What `mod(x + halfRange, range) - halfRange` makes of a wrapped number. */
  lemma Recentre(x: int, y: int, bits: nat, width: nat)
    requires bits <= width && x == ToUnsigned(y, width)
    ensures RepairedRem(x + Pow2(bits) / 2, Pow2(bits)) - Pow2(bits) / 2 == Centre(y, Pow2(bits))
  {
    RepairIsExact(x + Pow2(bits) / 2, Pow2(bits));
    WrapInvisible(y, bits, width);
    CentreOfCongruent(x, y, Pow2(bits));
  }

  lemma Recentre2(x: int, reading: int, lastReading: int, last: int, bits: nat, width: nat)
    requires bits <= width && x == ToSigned(ToUnsigned(reading - lastReading, width), width)
    requires Congruent(lastReading, last, Pow2(bits))
    ensures RepairedRem(x + Pow2(bits) / 2, Pow2(bits)) - Pow2(bits) / 2
         == Centre(reading - last, Pow2(bits)) == Centre(reading - lastReading, Pow2(bits))
  {
    var range := Pow2(bits);
    RepairIsExact(x + range / 2, range);
    WrapInvisible(ToUnsigned(reading - lastReading, width), bits, width);
    WrapInvisible(reading - lastReading, bits, width);
    CentreOfCongruent(x, reading - lastReading, range);
    CongruentSum(reading, reading, lastReading, last, range);
    CentreOfCongruent(reading - lastReading, reading - last, range);
  }

  lemma Follow(reading: int, lastReading: int, delta: int, bits: nat, width: nat)
    requires bits <= width && delta == Centre(reading - lastReading, Pow2(bits))
    ensures Congruent(ToUnsigned(lastReading + delta, width), reading, Pow2(bits))
  {
    var range := Pow2(bits);
    WrapInvisible(lastReading + delta, bits, width);
    CentreExact(reading - lastReading, delta, range);
    CongruentSum(delta, reading - lastReading, lastReading, lastReading, range);
  }

  // ---------------------------------------------------------------------------------------------
  // The incremental encoders of legs and hips

  /** The C remainder may be negative here; the conversion to int16_t makes up for it. */
  function IncrementalDelta(reading: UInt16, value: UInt16): int {
    ToSigned(Rem(reading + 0x8000 - value, 0x1_0000) - 0x8000, 16)
  }

  lemma IncrementalDeltaIsCentred(reading: UInt16, value: UInt16)
    ensures IncrementalDelta(reading, value) == Centre(reading - value, 0x1_0000)
  {
    var x := reading - value;
    assert Pow2(16) == 0x1_0000 by { assert Pow2(8) == 0x100; }
    RemMod(x + 0x8000, 0x1_0000);
    var r := Rem(x + 0x8000, 0x1_0000);
    ModPeriod(r, 0x1_0000);
    CongruentShift(r, x + 0x8000, -0x8000, 0x1_0000);
    CentreOfCongruent(r - 0x8000, x, 0x1_0000);
  }

  class IncrementalEncoder {
    var value: UInt16               // incrementalEncoderValue
    var pos: int                    // incrementalEncoderPos
    ghost var readings: seq<int>

    ghost predicate Valid()
      reads this
    {
      readings != [] && value == readings[|readings| - 1] && pos == Travel(readings, 0x1_0000)
    }

    /** postOpInit */
    constructor (reading: UInt16)
      ensures Valid() && readings == [reading]
    {
      value, pos, readings := reading, 0, [reading];
    }

    method Process(reading: UInt16) returns (deltaPos: int)
      requires Valid()
      modifies this
      ensures Valid() && readings == old(readings) + [reading]
      ensures deltaPos == Centre(reading - old(value), 0x1_0000)
    {
      deltaPos := IncrementalDelta(reading, value);
      IncrementalDeltaIsCentred(reading, value);
      AddDelta(reading, value, deltaPos);
      TravelSnoc(readings, reading, 0x1_0000);
      value := ToUnsigned(value + deltaPos, 16);
      pos := pos + deltaPos;
      readings := readings + [reading];
    }
  }

  /** Adding the difference brings the stored value, after wrapping, to the reading itself. */
  lemma AddDelta(reading: UInt16, value: UInt16, delta: int)
    requires delta == Centre(reading - value, 0x1_0000)
    ensures ToUnsigned(value + delta, 16) == reading
  {
    assert Pow2(16) == 0x1_0000 by { assert Pow2(8) == 0x100; }
    CentreExact(reading - value, delta, 0x1_0000);
    CongruentSum(delta, reading - value, value, value, 0x1_0000);
  }

  // ---------------------------------------------------------------------------------------------
  // The boom encoders

  const BOOM_RANGE: int := 0x2_0000  // 1 << BOOM_ENCODER_BITS

  /** The difference is made positive by adding the range once. */
  function BoomDelta(reading: int, value: int): int {
    Rem(reading - value + BOOM_RANGE + BOOM_RANGE / 2, BOOM_RANGE) - BOOM_RANGE / 2
  }

  /** Once is enough exactly when the difference is above minus one and a half ranges. */
  lemma BoomDeltaIsCentred(reading: int, value: int)
    ensures BoomDelta(reading, value) == Centre(reading - value, BOOM_RANGE)
            <==> || reading - value >= -BOOM_RANGE - BOOM_RANGE / 2
                 || Mod(reading - value + BOOM_RANGE / 2, BOOM_RANGE) == 0
  {
    PlainForm(reading - value + BOOM_RANGE, BOOM_RANGE);
    ModPeriod(reading - value, BOOM_RANGE);
    ModPeriod(reading - value + BOOM_RANGE / 2, BOOM_RANGE);
    CentreOfCongruent(reading - value + BOOM_RANGE, reading - value, BOOM_RANGE);
  }

  class BoomEncoder {
    const calibValue: UInt32
    var value: int                  // zEncoderValue, pitchEncoderValue
    var pos: int                    // zEncoderPos, pitchEncoderPos
    ghost var readings: seq<int>

    ghost predicate Valid()
      reads this
    {
      && readings != [] && value == readings[|readings| - 1] && 0 <= value < BOOM_RANGE
      && pos == Position(readings, calibValue, BOOM_RANGE)
    }

    /** postOpInit */
    constructor (reading: UInt32, calib: UInt32)
      requires reading < BOOM_RANGE
      ensures Valid() && readings == [reading] && calibValue == calib
    {
      calibValue := calib;
      value := reading;
      var p := Rem(ToUnsigned(reading - calib, 32), BOOM_RANGE);
      p := p + BOOM_RANGE;
      pos := Rem(p + BOOM_RANGE / 2, BOOM_RANGE) - BOOM_RANGE / 2;
      readings := [reading];
      new;
      BoomStart(reading, calib);
    }

    method Process(reading: UInt32) returns (deltaPos: int)
      requires Valid() && reading < BOOM_RANGE
      modifies this
      ensures Valid() && readings == old(readings) + [reading]
      ensures deltaPos == Centre(reading - old(value), BOOM_RANGE)
    {
      deltaPos := reading - value;
      deltaPos := deltaPos + BOOM_RANGE;
      deltaPos := Rem(deltaPos + BOOM_RANGE / 2, BOOM_RANGE) - BOOM_RANGE / 2;
      BoomDeltaIsCentred(reading, value);
      TravelSnoc(readings, reading, BOOM_RANGE);
      pos := pos + deltaPos;
      value := reading;
      readings := readings + [reading];
    }
  }

  lemma BoomStart(reading: UInt32, calib: UInt32)
    ensures var p := Rem(ToUnsigned(reading - calib, 32), BOOM_RANGE) + BOOM_RANGE;
            Rem(p + BOOM_RANGE / 2, BOOM_RANGE) - BOOM_RANGE / 2 == Centre(reading - calib, BOOM_RANGE)
  {
    assert Pow2(17) == BOOM_RANGE by { assert Pow2(9) == 0x200; }
    var u := ToUnsigned(reading - calib, 32);
    WrapInvisible(reading - calib, 17, 32);
    RemMod(u, BOOM_RANGE);
    var r := Rem(u, BOOM_RANGE);
    PlainForm(r + BOOM_RANGE, BOOM_RANGE);
    ModPeriod(r, BOOM_RANGE);
    CentreOfCongruent(r + BOOM_RANGE, reading - calib, BOOM_RANGE);
  }
}
