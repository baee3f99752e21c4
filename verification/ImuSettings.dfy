/**
  The sampling settings of the inertial sensor: packed into a command and unpacked from a response.
  Three of the nine flags travel inverted.
 */
module ImuSettings {
  import opened Bits

  datatype Settings = Settings(
    decimation: UInt16,
    enableOrientation: bool,
    enableConingSculling: bool,
    enableLittleEndian: bool,
    suppressNan: bool,
    enableFinSizeCorr: bool,
    enableMagnetometer: bool,
    enableNorthCompensation: bool,
    enableUpCompensation: bool,
    enableQuaternion: bool,
    gyroAccelFilterLength: Byte,
    magnetometerFilterLength: Byte,
    upCompensationTimeConstant: UInt16,
    northCompensationTimeConstant: UInt16)

  function Short(high: Byte, low: Byte): (n: UInt16) {
    BigEndian16(high, low)
  }

  function High(n: UInt16): Byte { n / 0x100 }
  function Low(n: UInt16): Byte { n % 0x100 }

  lemma ShortParts(n: UInt16)
    ensures Short(High(n), Low(n)) == n
  {
  }

  // ---------------------------------------------------------------------------------------------
  // The flag word, most significant bit first

  /** Bit k of a 16-bit word, counted from the least significant end. */
  function Bit(w: seq<bool>, k: nat): bool
    requires |w| == 16 && k < 16
  {
    w[15 - k]
  }

  /** The flag bits that have a meaning. */
  predicate Known(k: nat) {
    k == 0 || k == 1 || k == 4 || k == 5 || k == 6 || k == 8 || k == 10 || k == 11 || k == 12
  }

  /** `w |= (c ? 1 << k : 0)` */
  function Set(w: seq<bool>, k: nat, c: bool): (v: seq<bool>)
    requires |w| == 16 && k < 16
    ensures |v| == 16
    ensures forall j :: 0 <= j < 16 ==> Bit(v, j) == (Bit(w, j) || (j == k && c))
  {
    w[15 - k := w[15 - k] || c]
  }

  /** The word with the unknown bits cleared. */
  function Masked(w: seq<bool>): (u: seq<bool>)
    requires |w| == 16
    ensures |u| == 16
    ensures forall k: nat :: k < 16 ==> Bit(u, k) == (Known(k) && Bit(w, k))
  {
    seq(16, i requires 0 <= i < 16 => Known(15 - i) && w[i])
  }

  /** The bits of the flag word from its two bytes. */
  function Flags(high: Byte, low: Byte): (w: seq<bool>)
    ensures |w| == 16
  {
    ToBits(high, 8) + ToBits(low, 8)
  }

  /** The two bytes of a flag word. */
  function FlagBytes(w: seq<bool>): (b: seq<Byte>)
    requires |w| == 16
    ensures |b| == 2
    ensures Flags(b[0], b[1]) == w
  {
    ByteBits(w[..8], 0);
    ByteBits(w[8..], 0);
    ToBitsOfValue(w[..8]);
    ToBitsOfValue(w[8..]);
    [Value(w[..8]), Value(w[8..])]
  }

  // ---------------------------------------------------------------------------------------------
  // Ten bytes of settings

  function Pack(s: Settings): (b: seq<Byte>)
    ensures |b| == 10
  {
    [High(s.decimation), Low(s.decimation)] + FlagBytes(FlagWord(s))
    + [s.gyroAccelFilterLength, s.magnetometerFilterLength,
       High(s.upCompensationTimeConstant), Low(s.upCompensationTimeConstant),
       High(s.northCompensationTimeConstant), Low(s.northCompensationTimeConstant)]
  }

  function FlagWord(s: Settings): (w: seq<bool>)
    ensures |w| == 16
    ensures forall k: nat :: k < 16 ==> Bit(w, k) == FlagBit(s, k)
  {
    seq(16, i requires 0 <= i < 16 => FlagBit(s, 15 - i))
  }

  function FlagBit(s: Settings, k: nat): bool {
    if k == 0 then s.enableOrientation
    else if k == 1 then s.enableConingSculling
    else if k == 4 then s.enableLittleEndian
    else if k == 5 then s.suppressNan
    else if k == 6 then s.enableFinSizeCorr
    else if k == 8 then !s.enableMagnetometer
    else if k == 10 then !s.enableNorthCompensation
    else if k == 11 then !s.enableUpCompensation
    else if k == 12 then s.enableQuaternion
    else false
  }

  function Unpack(b: seq<Byte>): (s: Settings)
    requires |b| == 10
  {
    var w := Flags(b[2], b[3]);
    Settings(Short(b[0], b[1]),
             Bit(w, 0), Bit(w, 1), Bit(w, 4), Bit(w, 5), Bit(w, 6),
             !Bit(w, 8), !Bit(w, 10), !Bit(w, 11), Bit(w, 12),
             b[4], b[5], Short(b[6], b[7]), Short(b[8], b[9]))
  }

  /** Unpacking gives back whatever settings were packed. */
  lemma UnpackPack(s: Settings)
    ensures Unpack(Pack(s)) == s
  {
    ShortParts(s.decimation);
    ShortParts(s.upCompensationTimeConstant);
    ShortParts(s.northCompensationTimeConstant);
    var b, f := Pack(s), FlagBytes(FlagWord(s));
    assert b[2] == f[0] && b[3] == f[1];
  }

  /** Ten bytes of settings with the unknown flag bits cleared. */
  function Cleared(b: seq<Byte>): (c: seq<Byte>)
    requires |b| == 10
    ensures |c| == 10
  {
    b[..2] + FlagBytes(Masked(Flags(b[2], b[3]))) + b[4..]
  }

  /** Packing gives back the bytes that were unpacked, but with the unknown flag bits cleared. */
  lemma PackUnpack(b: seq<Byte>)
    requires |b| == 10
    ensures Pack(Unpack(b)) == Cleared(b)
  {
    hide Pack, Unpack, FlagWord, Masked, Flags, FlagBytes;
    UnpackedFlags(b);
    UnpackedBytes(b);
    PackedFlags(Unpack(b));
  }

  lemma UnpackedFlags(b: seq<Byte>)
    requires |b| == 10
    ensures FlagWord(Unpack(b)) == Masked(Flags(b[2], b[3]))
  {
    hide Flags, FlagWord, Masked, Short;
    SameBits(FlagWord(Unpack(b)), Masked(Flags(b[2], b[3])));
  }

  lemma UnpackedBytes(b: seq<Byte>)
    requires |b| == 10
    ensures var c := Pack(Unpack(b));
            forall i :: 0 <= i < 10 && i != 2 && i != 3 ==> c[i] == b[i]
  {
    var s := Unpack(b);
    PackedParts(s);
    PartsOfShort(b[0], b[1]);
    PartsOfShort(b[6], b[7]);
    PartsOfShort(b[8], b[9]);
    hide Pack, FlagBytes, FlagWord, Bit, Flags, ToBits;
  }

  lemma PartsOfShort(high: Byte, low: Byte)
    ensures High(Short(high, low)) == high && Low(Short(high, low)) == low
  {
  }

  lemma PackedParts(s: Settings)
    ensures var c := Pack(s);
            && c[0] == High(s.decimation) && c[1] == Low(s.decimation)
            && c[4] == s.gyroAccelFilterLength && c[5] == s.magnetometerFilterLength
            && c[6] == High(s.upCompensationTimeConstant) && c[7] == Low(s.upCompensationTimeConstant)
            && c[8] == High(s.northCompensationTimeConstant) && c[9] == Low(s.northCompensationTimeConstant)
  {
  }

  lemma PackedFlags(s: Settings)
    ensures Pack(s)[2..4] == FlagBytes(FlagWord(s))
  {
  }

  lemma SameBits(w: seq<bool>, v: seq<bool>)
    requires |w| == |v| == 16
    requires forall k: nat :: k < 16 ==> Bit(w, k) == Bit(v, k)
    ensures w == v
  {
    assert forall i :: 0 <= i < 16 ==> w[i] == Bit(w, 15 - i);
  }

  function One(b: bool): nat {
    if b then 1 else 0
  }

  /** What each byte of the packed settings says, as a number; in the third byte the flags that travel inverted. */
  lemma PackExact(s: Settings)
    ensures var b := Pack(s);
            && 0x100 * (b[0] as int) + b[1] as int == s.decimation
            && b[2] == One(!s.enableMagnetometer) + 4 * One(!s.enableNorthCompensation) + 8 * One(!s.enableUpCompensation)
                       + 16 * One(s.enableQuaternion)
            && b[3] == One(s.enableOrientation) + 2 * One(s.enableConingSculling) + 16 * One(s.enableLittleEndian)
                       + 32 * One(s.suppressNan) + 64 * One(s.enableFinSizeCorr)
            && b[4] == s.gyroAccelFilterLength && b[5] == s.magnetometerFilterLength
            && 0x100 * (b[6] as int) + b[7] as int == s.upCompensationTimeConstant
            && 0x100 * (b[8] as int) + b[9] as int == s.northCompensationTimeConstant
  {
    hide FlagBytes, FlagWord, FlagBit;
    var w := FlagWord(s);
    PackedParts(s);
    PackedFlags(s);
    FlagNumbers(s);
    assert Pack(s)[2] == Pack(s)[2..4][0] && Pack(s)[3] == Pack(s)[2..4][1];
  }

  lemma FlagNumbers(s: Settings)
    ensures var b := FlagBytes(FlagWord(s));
            && b[0] == One(!s.enableMagnetometer) + 4 * One(!s.enableNorthCompensation) + 8 * One(!s.enableUpCompensation)
                       + 16 * One(s.enableQuaternion)
            && b[1] == One(s.enableOrientation) + 2 * One(s.enableConingSculling) + 16 * One(s.enableLittleEndian)
                       + 32 * One(s.suppressNan) + 64 * One(s.enableFinSizeCorr)
  {
    hide FlagWord, FlagBytes, One;
    HighFlags(s);
    LowFlags(s);
    BytesOfWord(FlagWord(s));
  }

  lemma BytesOfWord(w: seq<bool>)
    requires |w| == 16
    ensures FlagBytes(w)[0] as int == Value(w[..8]) && FlagBytes(w)[1] as int == Value(w[8..])
  {
    hide Value;
  }

  lemma HighFlags(s: Settings)
    ensures Value(FlagWord(s)[..8])
         == One(!s.enableMagnetometer) + 4 * One(!s.enableNorthCompensation) + 8 * One(!s.enableUpCompensation)
            + 16 * One(s.enableQuaternion)
  {
    hide FlagWord, FlagBit, Value, One;
    WordOfFlags(s);
    EightBits(FlagWord(s)[..8]);
    NoFlag();
  }

  lemma LowFlags(s: Settings)
    ensures Value(FlagWord(s)[8..])
         == One(s.enableOrientation) + 2 * One(s.enableConingSculling) + 16 * One(s.enableLittleEndian)
            + 32 * One(s.suppressNan) + 64 * One(s.enableFinSizeCorr)
  {
    hide FlagWord, FlagBit, Value, One;
    WordOfFlags(s);
    EightBits(FlagWord(s)[8..]);
    NoFlag();
  }

  lemma NoFlag()
    ensures One(false) == 0
  {
  }

  /** The flags at their places in the word. */
  lemma WordOfFlags(s: Settings)
    ensures var w := FlagWord(s);
            && !w[0] && !w[1] && !w[2] && w[3] == s.enableQuaternion
            && w[4] == !s.enableUpCompensation && w[5] == !s.enableNorthCompensation && !w[6]
            && w[7] == !s.enableMagnetometer
    ensures var w := FlagWord(s);
            && !w[8] && w[9] == s.enableFinSizeCorr && w[10] == s.suppressNan && w[11] == s.enableLittleEndian
            && !w[12] && !w[13] && w[14] == s.enableConingSculling && w[15] == s.enableOrientation
  {
    hide FlagWord;
    var w := FlagWord(s);
    assert forall i: nat :: i < 16 ==> w[i] == Bit(w, 15 - i) == FlagBit(s, 15 - i);
  }

  /** The number that eight bits stand for. */
  lemma EightBits(w: seq<bool>)
    requires |w| == 8
    ensures Value(w) == One(w[7]) + 2 * One(w[6]) + 4 * One(w[5]) + 8 * One(w[4])
                        + 16 * One(w[3]) + 32 * One(w[2]) + 64 * One(w[1]) + 128 * One(w[0])
  {
    hide Value, One;
    FourBits(w, 0);
    FourBits(w, 4);
    ValueStep(w, 0);
    assert w[..8] == w;
  }

  lemma FourBits(w: seq<bool>, k: nat)
    requires k + 4 <= |w|
    ensures Value(w[..k + 4])
         == 16 * Value(w[..k]) + 8 * One(w[k]) + 4 * One(w[k + 1]) + 2 * One(w[k + 2]) + One(w[k + 3])
  {
    hide Value, One;
    ValueStep(w, k);
    ValueStep(w, k + 1);
    ValueStep(w, k + 2);
    ValueStep(w, k + 3);
  }

  lemma ValueStep(w: seq<bool>, k: nat)
    requires k < |w|
    ensures Value(w[..0]) == 0
    ensures Value(w[..k + 1]) == 2 * Value(w[..k]) + One(w[k])
  {
    assert w[..k + 1][..k] == w[..k];
  }

  // ---------------------------------------------------------------------------------------------
  // The code

  /** convert_uint16_to_bytes */
  method StoreShort(data: UInt16, bytes: array<Byte>, at: nat)
    requires at + 2 <= bytes.Length
    modifies bytes
    ensures bytes[..] == old(bytes[..])[at := High(data)][at + 1 := Low(data)]
  {
    bytes[at] := data / 0x100;
    bytes[at + 1] := data % 0x100;
  }

  method StoreFlags(w: seq<bool>, bytes: array<Byte>, at: nat)
    requires |w| == 16 && at + 2 <= bytes.Length
    modifies bytes
    ensures bytes[..] == old(bytes[..])[at := FlagBytes(w)[0]][at + 1 := FlagBytes(w)[1]]
  {
    var b := FlagBytes(w);
    bytes[at] := b[0];
    bytes[at + 1] := b[1];
  }

  /** Writes bytes 4 to 13 of the command. */
  method Encode(s: Settings, cmd: array<Byte>)
    requires cmd.Length == 20
    modifies cmd
    ensures cmd[..] == old(cmd[..4]) + Pack(s) + old(cmd[14..])
  {
    var w := EncodeFlags(s);
    SameBits(w, FlagWord(s));
    Write(s, w, cmd);
  }

  method EncodeFlags(s: Settings) returns (w: seq<bool>)
    ensures |w| == 16 && forall k: nat :: k < 16 ==> Bit(w, k) == FlagBit(s, k)
  {
    hide Set;
    w := Zeros(16);  // data_conditioning
    assert forall k: nat :: k < 16 ==> !Bit(w, k);
    w := Set(w, 0, s.enableOrientation);
    w := Set(w, 1, s.enableConingSculling);
    w := Set(w, 4, s.enableLittleEndian);
    w := Set(w, 5, s.suppressNan);
    w := Set(w, 6, s.enableFinSizeCorr);
    w := Set(w, 8, !s.enableMagnetometer);
    w := Set(w, 10, !s.enableNorthCompensation);
    w := Set(w, 11, !s.enableUpCompensation);
    w := Set(w, 12, s.enableQuaternion);
  }

  method Write(s: Settings, w: seq<bool>, cmd: array<Byte>)
    requires cmd.Length == 20 && w == FlagWord(s)
    modifies cmd
    ensures cmd[..] == old(cmd[..4]) + Pack(s) + old(cmd[14..])
  {
    hide FlagBytes, FlagWord;
    StoreShort(s.decimation, cmd, 4);
    StoreFlags(w, cmd, 6);
    cmd[8] := s.gyroAccelFilterLength;
    cmd[9] := s.magnetometerFilterLength;
    StoreShort(s.upCompensationTimeConstant, cmd, 10);
    StoreShort(s.northCompensationTimeConstant, cmd, 12);
  }

  /** Reads bytes 1 to 10 of the response that starts at `at`. */
  method Parse(response: array<Byte>, at: nat) returns (s: Settings)
    requires at + 11 <= response.Length
    ensures s == Unpack(response[at + 1..at + 11])
  {
    var w := Flags(response[at + 3], response[at + 4]);
    s := Settings(
      Short(response[at + 1], response[at + 2]),
      Bit(w, 0), Bit(w, 1), Bit(w, 4), Bit(w, 5), Bit(w, 6),
      !Bit(w, 8), !Bit(w, 10), !Bit(w, 11), Bit(w, 12),
      response[at + 5], response[at + 6],
      Short(response[at + 7], response[at + 8]),
      Short(response[at + 9], response[at + 10]));
  }

  /** Parsing an encoded command, from its byte 3 on, gives the settings back. */
  method EncodeThenParse(s: Settings, cmd: array<Byte>) returns (t: Settings)
    requires cmd.Length == 20
    modifies cmd
    ensures t == s
  {
    Encode(s, cmd);
    assert cmd[4..14] == Pack(s);
    t := Parse(cmd, 3);
    UnpackPack(s);
  }
}
