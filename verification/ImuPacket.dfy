/**
  The EtherCAT side of the inertial-sensor board: a 36-byte packet is accepted when its header and its
  checksum are intact, and only then do the sensor values change.
 */
module ImuPacket {
  import opened Bits
  import opened Gf2
  import opened Crc

  const KVH_MSG_SIZE: nat := 36
  const CRC_PAYLD_SZ: nat := 32
  const HEADER: seq<Byte> := [0xFE, 0x81, 0xFF, 0x55]

  datatype Flag = PayloadSize | Header | Checksum

  /** The sensor values that the master reads. */
  datatype Sensors = Sensors(angDelta: seq<Word>, accel: seq<Word>, status: Byte, sequence: Byte, temp: int)

  function Field(packet: seq<Byte>, at: nat): (w: Word)
    requires at + 4 <= |packet|
  {
    BytesToBits(packet[at..at + 4])
  }

  function Decode(packet: seq<Byte>): Sensors
    requires |packet| == KVH_MSG_SIZE
  {
    Sensors([Field(packet, 4), Field(packet, 8), Field(packet, 12)],
            [Field(packet, 16), Field(packet, 20), Field(packet, 24)],
            packet[28], packet[29], Int16(BigEndian16(packet[30], packet[31])))
  }

  /** Each sensor value is the bytes of its place in the packet: three words of angles from byte 4 on, three of
      accelerations from byte 16 on, two bytes, and a temperature in two's complement. */
  lemma DecodeExact(packet: seq<Byte>)
    requires |packet| == KVH_MSG_SIZE
    ensures var s := Decode(packet);
            && |s.angDelta| == |s.accel| == 3
            && (forall k :: 0 <= k < 3 ==>
                  && BigEndian(s.angDelta[k]) == packet[4 + 4 * k..8 + 4 * k]
                  && BigEndian(s.accel[k]) == packet[16 + 4 * k..20 + 4 * k])
            && s.status == packet[28] && s.sequence == packet[29]
            && -0x8000 <= s.temp < 0x8000 && s.temp % 0x1_0000 == 0x100 * (packet[30] as int) + packet[31] as int
  {
    hide BigEndian;
    WordBytes(packet[4..8]);
    WordBytes(packet[8..12]);
    WordBytes(packet[12..16]);
    WordBytes(packet[16..20]);
    WordBytes(packet[20..24]);
    WordBytes(packet[24..28]);
  }

  lemma WordBytes(s: seq<Byte>)
    requires |s| == 4
    ensures BigEndian(BytesToBits(s)) == s
  {
    BigEndianBits(BytesToBits(s));
    BytesToBitsInjective(BigEndian(BytesToBits(s)), s);
  }

  /** A packet is intact when it starts with the header and has checksum zero over all its bytes. */
  ghost predicate Intact(code: Code, packet: seq<Byte>) {
    && |packet| == KVH_MSG_SIZE
    && packet[..4] == HEADER
    && Crc.Checksum(code, packet) == Zeros(32)
  }

  /** The acceptance test in the code, over 32 bytes against the trailer, is the test for intactness. */
  lemma AcceptanceIsResidue(code: Code, packet: seq<Byte>)
    requires Odd(code)
    requires |packet| == KVH_MSG_SIZE && packet[..4] == HEADER
    ensures Field(packet, CRC_PAYLD_SZ) == Crc.Checksum(code, packet[..CRC_PAYLD_SZ]) <==> Intact(code, packet)
  {
    assert packet == packet[..32] + packet[32..] && packet[32..36] == packet[32..];
    Crc.Residue(code, packet[..32], packet[32..]);
  }

  /** An intact packet is never taken for another one after damage inside a window of 32 bits. */
  lemma DamageRejected(code: Code, packet: seq<Byte>, damaged: seq<Byte>, lo: nat, hi: nat)
    requires Odd(code) && Intact(code, packet)
    requires DifferWithin(packet, damaged, lo, hi) && hi - lo <= 32
    ensures Intact(code, damaged) ==> damaged == packet
  {
    Crc.BurstDetected(code, packet, damaged, lo, hi);
  }

  class ImuMedulla {
    const crc: CrcUnit
    const packet: array<Byte>  // imu_packet
    var sensors: Sensors
    var receivedCrc: Word      // CRC_pdo
    var errorFlags: set<Flag>

    ghost predicate Valid()
      reads this, crc.table, packet
    {
      packet.Length == KVH_MSG_SIZE && Odd(crc.code) && crc.Valid() && crc.table as object != packet
    }

    constructor ()
      ensures Valid() && crc.code == KVH
    {
      KvhIsOdd();
      var unit := new CrcUnit(KVH);
      crc := unit;
      packet := new Byte[KVH_MSG_SIZE](_ => 0);
      sensors := Sensors([Zeros(32), Zeros(32), Zeros(32)], [Zeros(32), Zeros(32), Zeros(32)], 0, 0, 0);
      receivedCrc := Zeros(32);
      errorFlags := {};
    }

    method ProcessData()
      requires Valid()
      modifies this
      ensures Valid()
      ensures sensors == if Intact(crc.code, packet[..]) then Decode(packet[..]) else old(sensors)
      ensures errorFlags == old(errorFlags)
                            + (if packet[..4] != HEADER then {Flag.Header}
                               else if !Intact(crc.code, packet[..]) then {Flag.Checksum} else {})
      ensures receivedCrc == if packet[..4] == HEADER then Field(packet[..], CRC_PAYLD_SZ) else old(receivedCrc)
    {
      if packet[0] != 0xFE || packet[1] != 0x81 || packet[2] != 0xFF || packet[3] != 0x55 {
        errorFlags := errorFlags + {Flag.Header};
        assert packet[..4] != HEADER by {
          assert HEADER[0] == 0xFE && HEADER[1] == 0x81 && HEADER[2] == 0xFF && HEADER[3] == 0x55;
        }
        assert packet[..][..4] == packet[..4];
        return;
      }
      assert packet[..][..4] == packet[..4] == HEADER;
      receivedCrc := Field(packet[..], CRC_PAYLD_SZ);
      var computed := crc.Calc(packet, CRC_PAYLD_SZ);
      assert packet[..CRC_PAYLD_SZ] == packet[..][..CRC_PAYLD_SZ];
      AcceptanceIsResidue(crc.code, packet[..]);
      if computed != receivedCrc {
        errorFlags := errorFlags + {Flag.Checksum};
        return;
      }
      sensors := Decode(packet[..]);
    }

    /** One cycle: the UART hands over at most one packet's worth of bytes. */
    method UpdateInputs(received: seq<Byte>)
      requires Valid() && |received| <= KVH_MSG_SIZE
      modifies this, packet
      ensures Valid()
      ensures packet[..] == received + old(packet[..])[|received|..]
      ensures sensors == if Intact(crc.code, received) then Decode(received) else old(sensors)
      ensures errorFlags == if |received| != KVH_MSG_SIZE then {Flag.PayloadSize}
                            else if received[..4] != HEADER then {Flag.Header}
                            else if !Intact(crc.code, received) then {Flag.Checksum} else {}
    {
      hide Crc.Checksum, Decode, TableEntry;
      errorFlags := {};
      Receive(received);
      if |received| == KVH_MSG_SIZE {
        assert packet[..] == received;
        assert packet[..4] == received[..4];
        ProcessData();
      } else {
        errorFlags := errorFlags + {Flag.PayloadSize};
      }
    }

    method Receive(received: seq<Byte>)
      requires |received| <= packet.Length
      modifies packet
      ensures packet[..] == received + old(packet[..])[|received|..]
    {
      var i := 0;
      while i < |received|
        invariant 0 <= i <= |received|
        invariant forall j :: 0 <= j < i ==> packet[j] == received[j]
        invariant forall j :: i <= j < packet.Length ==> packet[j] == old(packet[j])
      {
        packet[i] := received[i];
        i := i + 1;
      }
    }
  }
}
