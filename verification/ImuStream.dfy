/**
  The incremental parser of the inertial-sensor byte stream. It finds a header byte, fills a 43-byte
  packet over any number of calls, checks a 16-bit sum, and on a bad sum shifts its buffer in place to
  the next header byte. It is proved to be one greedy scan over all the bytes it has consumed.
 */
module ImuStream {
  import opened Bits

  const HEADER: Byte := 0xC5             // IMU_CMD_ORIENTATION_MATRIX
  const LENGTH: nat := 43                // IMU_ACK_ORIENTATION_MATRIX
  const PACKET_BUFFER_SIZE: nat := 100

  function Sum(s: seq<Byte>): nat {
    if s == [] then 0 else Sum(s[..|s| - 1]) + s[|s| - 1]
  }

  /** The last two bytes hold the 16-bit sum of all the others. */
  predicate GoodSum(s: seq<Byte>)
    requires |s| >= 2
  {
    Sum(s[..|s| - 2]) % 0x1_0000 == BigEndian16(s[|s| - 2], s[|s| - 1])
  }

  predicate PacketAt(s: seq<Byte>, i: nat) {
    i + LENGTH <= |s| && s[i] == HEADER && GoodSum(s[i..i + LENGTH])
  }

  // ---------------------------------------------------------------------------------------------
  // The greedy scan

  /** The offsets of the accepted packets, and the offset from which bytes are still pending. */
  datatype Scanned = Scanned(starts: seq<nat>, rest: nat)

  function Scan(s: seq<Byte>, from: nat): Scanned
    requires from <= |s|
    decreases |s| - from
  {
    if from == |s| then Scanned([], from)
    else if s[from] != HEADER then Scan(s, from + 1)
    else if |s| - from < LENGTH then Scanned([], from)
    else if PacketAt(s, from) then
      var t := Scan(s, from + LENGTH);
      Scanned([from] + t.starts, t.rest)
    else Scan(s, from + 1)
  }

  lemma {:induction false} RestInRange(s: seq<Byte>, from: nat)
    requires from <= |s|
    ensures from <= Scan(s, from).rest <= |s|
    decreases |s| - from
  {
    if from < |s| {
      RestInRange(s, if PacketAt(s, from) then from + LENGTH else from + 1);
    }
  }

  /** A packet is accepted exactly when it is not overlapped from the left by an accepted one. */
  lemma {:induction false} ScanExact(s: seq<Byte>, from: nat)
    requires from <= |s|
    ensures var starts := Scan(s, from).starts;
            forall i: nat :: i in starts <==>
              from <= i && PacketAt(s, i) && forall o :: o in starts ==> !(o < i < o + LENGTH)
    decreases |s| - from
  {
    if from < |s| {
      var next := if PacketAt(s, from) then from + LENGTH else from + 1;
      ScanExact(s, next);
      var starts, tail := Scan(s, from).starts, Scan(s, next).starts;
      if s[from] != HEADER || |s| - from >= LENGTH {
        assert forall i: nat :: i in starts <==> (PacketAt(s, from) && i == from) || i in tail;
      } else {
        assert forall i: nat :: from <= i ==> !PacketAt(s, i);
      }
    }
  }

  /** Accepted packets come in order and do not overlap, and none reaches into the pending bytes. */
  lemma {:induction false} ScanDisjoint(s: seq<Byte>, from: nat)
    requires from <= |s|
    ensures var t := Scan(s, from);
            && (forall k :: 0 <= k < |t.starts| ==> from <= t.starts[k] && t.starts[k] + LENGTH <= t.rest)
            && (forall j, k :: 0 <= j < k < |t.starts| ==> t.starts[j] + LENGTH <= t.starts[k])
    decreases |s| - from
  {
    if from < |s| {
      var next := if PacketAt(s, from) then from + LENGTH else from + 1;
      ScanDisjoint(s, next);
      RestInRange(s, next);
    }
  }

  /** Pending bytes start with a header, are too few for a packet, and nothing before them is a header
      in waiting. */
  lemma {:induction false} RestExact(s: seq<Byte>, from: nat)
    requires from <= |s|
    ensures var t := Scan(s, from);
            && t.rest <= |s| < t.rest + LENGTH && (t.rest < |s| ==> s[t.rest] == HEADER)
            && forall i :: from <= i < t.rest && i + LENGTH > |s| && s[i] == HEADER ==>
                 exists o :: o in t.starts && o <= i < o + LENGTH
    decreases |s| - from
  {
    if from < |s| && (s[from] != HEADER || |s| - from >= LENGTH) {
      var next := if PacketAt(s, from) then from + LENGTH else from + 1;
      RestExact(s, next);
      var t, u := Scan(s, from), Scan(s, next);
      if PacketAt(s, from) {
        assert from in t.starts;
      }
      assert forall o :: o in u.starts ==> o in t.starts;
    }
  }

  /** Scanning can stop after any prefix and go on later from the pending bytes. */
  lemma {:induction false} ScanAppend(s: seq<Byte>, d: seq<Byte>, from: nat)
    requires from <= |s|
    ensures Scan(s, from).rest <= |s|
    ensures var before, after := Scan(s, from), Scan(s + d, Scan(s, from).rest);
            Scan(s + d, from) == Scanned(before.starts + after.starts, after.rest)
    decreases |s| - from
  {
    var t := s + d;
    RestInRange(s, from);
    if from < |s| && (s[from] != HEADER || |s| - from >= LENGTH) {
      if from + LENGTH <= |s| {
        assert t[from..from + LENGTH] == s[from..from + LENGTH];
      }
      var next := if PacketAt(s, from) then from + LENGTH else from + 1;
      ScanAppend(s, d, next);
    }
  }

  /** Bytes without a header are skipped. */
  lemma {:induction false} ScanSkip(s: seq<Byte>, from: nat, to: nat)
    requires from <= to <= |s|
    requires forall i :: from <= i < to ==> s[i] != HEADER
    ensures Scan(s, from) == Scan(s, to)
    decreases |s| - from
  {
    if from < to {
      ScanSkip(s, from + 1, to);
    }
  }

  /** Completing the pending bytes. */
  lemma ScanMore(s: seq<Byte>, d: seq<Byte>)
    requires Scan(s, 0).rest < |s| && s[Scan(s, 0).rest] == HEADER
    requires |s| + |d| <= Scan(s, 0).rest + LENGTH
    ensures var t := Scan(s, 0);
            && (|s + d| < t.rest + LENGTH ==> Scan(s + d, 0) == t)
            && var u := Scan(s + d, t.rest); Scan(s + d, 0) == Scanned(t.starts + u.starts, u.rest)
  {
    var t := Scan(s, 0);
    ScanAppend(s, d, 0);
    if |s + d| < t.rest + LENGTH {
      assert Scan(s + d, t.rest) == Scanned([], t.rest);
      assert t.starts + [] == t.starts;
    }
  }

  /** A bad packet at the end is given up to its next header byte. */
  lemma ScanRestart(s: seq<Byte>, at: nat, second: nat)
    requires at + LENGTH == |s| && s[at] == HEADER && !GoodSum(s[at..at + LENGTH])
    requires 1 <= second <= LENGTH && forall i :: at < i < at + second ==> s[i] != HEADER
    requires second < LENGTH ==> s[at + second] == HEADER
    ensures Scan(s, at) == Scanned([], at + second)
  {
    ScanSkip(s, at + 1, at + second);
  }

  // ---------------------------------------------------------------------------------------------
  // The parser

  function UInt32(s: seq<Byte>, at: nat): nat
    requires at + 4 <= |s|
  {
    0x1_0000 * BigEndian16(s[at], s[at + 1]) + BigEndian16(s[at + 2], s[at + 3])
  }

  /** The nine entries of the orientation matrix, row by row. */
  function Matrix(packet: seq<Byte>): (m: seq<nat>)
    requires |packet| == LENGTH
    ensures |m| == 9
  {
    seq(9, k requires 0 <= k < 9 => UInt32(packet, 1 + 4 * k))
  }

  /** What the surroundings do to one call: the bytes that have come in, and the limit of a bulk read. */
  datatype Call = Call(arrived: seq<Byte>, limit: nat)

  function Arrived(calls: seq<Call>): seq<Byte> {
    if calls == [] then [] else Arrived(calls[..|calls| - 1]) + calls[|calls| - 1].arrived
  }

  class Parser {
    const buffer: array<Byte>     // packet_buffer
    var length: Byte              // packet_buffer_length
    var syncState: Byte           // sync_state
    var matrix: seq<nat>          // M11_pdo .. M33_pdo
    var rx: seq<Byte>             // bytes that the UART driver holds
    ghost var consumed: seq<Byte> // all bytes taken from the driver so far
    ghost var published: seq<seq<nat>>  // all values that matrix has been given so far

    /** The bytes of a packet that is not complete yet. */
    ghost function Pending(): seq<Byte>
      reads this, buffer
    {
      if syncState == 1 && length <= buffer.Length then buffer[..length] else []
    }

    ghost predicate Valid()
      reads this, buffer
    {
      && buffer.Length == PACKET_BUFFER_SIZE
      && (syncState == 0 || (syncState == 1 && 0 < length < LENGTH))
      && var t := Scan(consumed, 0);
      && t.rest <= |consumed| && Pending() == consumed[t.rest..]
      && published == Matrices(consumed, t.starts) && matrix == Last(published)
    }

    constructor ()
      ensures Valid() && consumed == [] && rx == [] && published == []
    {
      buffer := new Byte[PACKET_BUFFER_SIZE](_ => 0);
      length, syncState := 0, 0;
      matrix := seq(9, _ => 0);
      rx, consumed, published := [], [], [];
    }

    /** One call of the state machine: `arrived` has come in since the last call, and a bulk read
        hands over at most `limit` bytes. The state is always 0 or 1, so the default case is never taken. */
    method RunStateMachine(arrived: seq<Byte>, limit: nat)
      requires Valid()
      modifies this, buffer
      ensures Valid()
      ensures consumed + rx == old(consumed) + old(rx) + arrived
      ensures old(consumed) <= consumed && old(published) <= published
      ensures limit > 0 && rx == old(rx) + arrived ==> rx == []
    {
      rx := rx + arrived;
      if syncState == 0 {
        SeekHeader();
      } else {
        ReadPacket(limit);
      }
    }

    /** Any number of calls, with any bytes arriving in between: at the end the parser has scanned all the bytes it
        has taken, in order, and has published the matrices of exactly the packets that the scan accepts. */
    method Run(calls: seq<Call>)
      requires Valid()
      modifies this, buffer
      ensures Valid()
      ensures consumed + rx == old(consumed) + old(rx) + Arrived(calls) && old(published) <= published
    {
      var i := 0;
      while i < |calls|
        invariant 0 <= i <= |calls|
        invariant Valid()
        invariant consumed + rx == old(consumed) + old(rx) + Arrived(calls[..i]) && old(published) <= published
      {
        RunStateMachine(calls[i].arrived, calls[i].limit);
        assert calls[..i + 1][..i] == calls[..i];
        i := i + 1;
      }
      assert calls[..i] == calls;
    }

    method SeekHeader()
      requires Valid() && syncState == 0
      modifies this, buffer
      ensures Valid()
      ensures consumed + rx == old(consumed) + old(rx) && old(consumed) <= consumed && old(published) <= published
      ensures rx == old(rx) ==> rx == []
    {
      buffer[0] := 0;
      while |rx| > 0
        invariant Valid() && syncState == 0
        invariant consumed + rx == old(consumed) + old(rx) && old(consumed) <= consumed && published == old(published)
        invariant |consumed| + |rx| == |old(consumed)| + |old(rx)|
        decreases |rx|
      {
        buffer[0] := rx[0];
        ScanAppend(consumed, [rx[0]], 0);
        var s := consumed + [rx[0]];
        assert consumed + rx == s + rx[1..];
        assert Matrices(s, Scan(consumed, 0).starts) == published by {
          MatricesAppend(consumed, [rx[0]]);
        }
        consumed, rx := s, rx[1..];
        if buffer[0] == HEADER {
          length := 1;
          syncState := 1;
          assert buffer[..1] == consumed[|consumed| - 1..];
          break;
        }
      }
    }

    method ReadPacket(limit: nat)
      requires Valid() && syncState == 1
      modifies this, buffer
      ensures Valid()
      ensures consumed + rx == old(consumed) + old(rx) && old(consumed) <= consumed && old(published) <= published
      ensures limit > 0 && rx == old(rx) ==> rx == []
    {
      hide Scan, Matrices, PacketAt, Matrix;
      ghost var t := Scan(consumed, 0);
      var count := if LENGTH - length < limit then LENGTH - length else limit;
      count := if |rx| < count then |rx| else count;
      var chunk := rx[..count];
      Store(chunk);
      MatricesAppend(consumed, chunk);
      RestExact(consumed, 0);
      ScanMore(consumed, chunk);
      assert consumed + rx == (consumed + chunk) + rx[count..];
      consumed, rx := consumed + chunk, rx[count..];
      length := length + count;
      assert buffer[..length] == consumed[t.rest..];
      if length == LENGTH {
        Finish(t);
      }
    }

    /** Accepts or rejects a full buffer. */
    method Finish(ghost t: Scanned)
      requires buffer.Length == PACKET_BUFFER_SIZE && syncState == 1 && length == LENGTH
      requires t.rest + LENGTH == |consumed| && buffer[..LENGTH] == consumed[t.rest..]
      requires buffer[0] == HEADER && published == Matrices(consumed, t.starts) && matrix == Last(published)
      requires var u := Scan(consumed, t.rest); Scan(consumed, 0) == Scanned(t.starts + u.starts, u.rest)
      modifies this`syncState, this`length, this`matrix, this`published, buffer
      ensures Valid() && old(published) <= published
    {
      var good := VerifyChecksum(LENGTH);
      assert consumed[t.rest] == HEADER;
      assert consumed[t.rest..t.rest + LENGTH] == buffer[..LENGTH];
      if good {
        matrix := Matrix(buffer[..LENGTH]);
        published := published + [matrix];
        syncState := 0;
        assert Scan(consumed, |consumed|) == Scanned([], |consumed|);
        assert Scan(consumed, 0).starts == t.starts + [t.rest];
      } else {
        ghost var second := Resync();
        assert forall i :: t.rest < i < |consumed| ==> consumed[i] == old(buffer[..LENGTH])[i - t.rest];
        ScanRestart(consumed, t.rest, second);
        assert Scan(consumed, 0) == Scanned(t.starts, t.rest + second);
        assert Pending() == consumed[t.rest + second..];
      }
    }

    /** Puts the bytes handed over by the driver behind those in the buffer. */
    method Store(chunk: seq<Byte>)
      requires buffer.Length == PACKET_BUFFER_SIZE && length + |chunk| <= LENGTH
      modifies buffer
      ensures buffer[..length + |chunk|] == old(buffer[..length]) + chunk
    {
      var i := 0;
      while i < |chunk|
        invariant 0 <= i <= |chunk|
        invariant buffer[..length + i] == old(buffer[..length]) + chunk[..i]
      {
        buffer[length + i] := chunk[i];
        i := i + 1;
      }
    }

    /** imu_verify_checksum on the first n bytes of the buffer. */
    method VerifyChecksum(n: Byte) returns (good: bool)
      requires 2 <= n <= buffer.Length
      ensures good == GoodSum(buffer[..n])
    {
      var sum: nat, i: nat := 0, 0;
      while i < n - 2
        invariant i <= n - 2
        invariant sum == Sum(buffer[..i]) % 0x1_0000
      {
        assert buffer[..i + 1][..i] == buffer[..i];
        sum := (sum + buffer[i]) % 0x1_0000;
        i := i + 1;
      }
      var response := BigEndian16(buffer[n - 2], buffer[n - 1]);
      assert buffer[..n][..n - 2] == buffer[..n - 2];
      good := sum == response;
    }

    /** Drops a bad packet up to the next header byte in it: what follows moves to the front in place,
        and at least one byte is dropped. */
    method Resync() returns (ghost second: nat)
      requires buffer.Length == PACKET_BUFFER_SIZE
      modifies this`syncState, this`length, buffer
      ensures 1 <= second <= LENGTH
      ensures forall j :: 1 <= j < second ==> old(buffer[j]) != HEADER
      ensures second < LENGTH ==> old(buffer[second]) == HEADER
      ensures second < LENGTH ==> syncState == 1 && length == LENGTH - second
      ensures second < LENGTH ==> buffer[..length] == old(buffer[second..LENGTH])
      ensures second == LENGTH ==> syncState == 0
    {
      var shift: Byte := 0;  // second_header_byte
      syncState := 0;
      var i: Byte := 1;
      while i < LENGTH
        invariant 1 <= i <= LENGTH
        invariant forall j :: i <= j < LENGTH ==> buffer[j] == old(buffer[j])
        invariant shift < i
        invariant shift == 0 ==> syncState == 0 && forall j :: 1 <= j < i ==> old(buffer[j]) != HEADER
        invariant shift > 0 ==> syncState == 1 && length == LENGTH - shift && old(buffer[shift]) == HEADER
        invariant shift > 0 ==> forall j :: 1 <= j < shift ==> old(buffer[j]) != HEADER
        invariant shift > 0 ==> forall j :: shift <= j < i ==> buffer[j - shift] == old(buffer[j])
      {
        if shift > 0 {
          buffer[i - shift] := buffer[i];
        } else if buffer[i] == HEADER {
          shift := i;
          buffer[i - shift] := buffer[i];
          length := LENGTH - i;
          syncState := 1;
        }
        i := i + 1;
      }
      second := if shift == 0 then LENGTH else shift;
      assert shift > 0 ==> forall k :: 0 <= k < length ==> buffer[k] == buffer[k + shift - shift];
    }
  }

  /** The matrices of the packets that start at the given offsets. */
  ghost function Matrices(s: seq<Byte>, starts: seq<nat>): (m: seq<seq<nat>>)
    ensures |m| == |starts|
  {
    seq(|starts|, k requires 0 <= k < |starts| => MatrixAt(s, starts[k]))
  }

  ghost function MatrixAt(s: seq<Byte>, o: nat): seq<nat> {
    if o + LENGTH <= |s| then Matrix(s[o..o + LENGTH]) else []
  }

  /** What is shown: the last matrix, or zeros. */
  ghost function Last(matrices: seq<seq<nat>>): seq<nat> {
    if matrices == [] then seq(9, _ => 0) else matrices[|matrices| - 1]
  }

  /** New bytes change none of the matrices of the packets before them. */
  lemma MatricesAppend(s: seq<Byte>, d: seq<Byte>)
    ensures Matrices(s + d, Scan(s, 0).starts) == Matrices(s, Scan(s, 0).starts)
  {
    ScanDisjoint(s, 0);
    RestInRange(s, 0);
    var starts := Scan(s, 0).starts;
    forall k | 0 <= k < |starts|
      ensures MatrixAt(s + d, starts[k]) == MatrixAt(s, starts[k])
    {
      var o := starts[k];
      assert (s + d)[o..o + LENGTH] == s[o..o + LENGTH];
    }
  }

  /** What has been published: for every accepted packet, in order, nine numbers, each with four bytes of the packet
      as its digits, most significant first, from the byte after the header on. */
  lemma PublishedExact(p: Parser, j: nat, k: nat)
    requires p.Valid() && j < |Scan(p.consumed, 0).starts| && k < 9
    ensures |p.published| == |Scan(p.consumed, 0).starts| && |p.published[j]| == 9
    ensures var o, n := Scan(p.consumed, 0).starts[j], p.published[j][k];
            && o + LENGTH <= |p.consumed|
            && n / 0x100_0000 == p.consumed[o + 1 + 4 * k]
            && n / 0x1_0000 % 0x100 == p.consumed[o + 2 + 4 * k]
            && n / 0x100 % 0x100 == p.consumed[o + 3 + 4 * k]
            && n % 0x100 == p.consumed[o + 4 + 4 * k]
  {
    var s, o := p.consumed, Scan(p.consumed, 0).starts[j];
    ScanDisjoint(s, 0);
    RestInRange(s, 0);
    var at := 1 + 4 * k;
    assert p.published[j] == Matrix(s[o..o + LENGTH]);
    Digits(s[o + at], s[o + at + 1], s[o + at + 2], s[o + at + 3]);
  }

  lemma Digits(a: Byte, b: Byte, c: Byte, d: Byte)
    ensures var n: nat := 0x1_0000 * BigEndian16(a, b) + BigEndian16(c, d);
            n / 0x100_0000 == a && n / 0x1_0000 % 0x100 == b && n / 0x100 % 0x100 == c && n % 0x100 == d
  {
    var l: int := 0x100 * a + b;
    var m: int := 0x100 * l + c;
    var n := 0x100 * m + d;
    assert n == 0x1_0000 * BigEndian16(a, b) + BigEndian16(c, d);
    Quotient(n, 0x100, m, d);
    Quotient(n, 0x1_0000, l, 0x100 * c + d);
    Quotient(n, 0x100_0000, a, 0x1_0000 * b + 0x100 * c + d);
    Quotient(m, 0x100, l, c);
    Quotient(l, 0x100, a, b);
  }

  lemma Quotient(n: int, m: int, q: int, r: int)
    requires m in {0x100, 0x1_0000, 0x100_0000} && n == m * q + r && 0 <= r < m
    ensures n / m == q && n % m == r
  {
  }

  // ---------------------------------------------------------------------------------------------
  // What the sum detects

  lemma {:induction false} SumConcat(s: seq<Byte>, t: seq<Byte>)
    ensures Sum(s + t) == Sum(s) + Sum(t)
    ensures |t| == 1 ==> Sum(t) == t[0]
  {
    if t == [] {
      assert s + t == s;
    } else {
      assert (s + t)[..|s + t| - 1] == s + t[..|t| - 1];
      SumConcat(s, t[..|t| - 1]);
      assert |t| == 1 ==> Sum(t[..0]) == 0;
    }
  }

  /** The sum stands at the end, most significant byte first. */
  lemma SumTrailer(s: seq<Byte>)
    requires |s| >= 2
    ensures var n := Sum(s[..|s| - 2]);
            GoodSum(s) <==> s[|s| - 2] as int == n / 0x100 % 0x100 && s[|s| - 1] as int == n % 0x100
  {
    hide Sum;
    var n := Sum(s[..|s| - 2]);
    var m := n / 0x100;
    var l := m / 0x100;
    Quotient(n, 0x1_0000, l, 0x100 * (m - 0x100 * l) + (n - 0x100 * m));
  }

  lemma SumOfChanged(s: seq<Byte>, i: nat, b: Byte)
    requires i < |s|
    ensures Sum(s[i := b]) == Sum(s) - s[i] + b
  {
    hide Sum;
    var u, v := s[..i], s[i + 1..];
    assert s == u + [s[i]] + v && s[i := b] == u + [b] + v;
    SumConcat(u, [s[i]]);
    SumConcat(u, [b]);
    SumConcat(u + [s[i]], v);
    SumConcat(u + [b], v);
  }

  /** A packet with one byte changed, wherever it is, is not accepted in the place of a good one. */
  lemma OneByteDetected(s: seq<Byte>, i: nat, b: Byte)
    requires |s| >= 2 && GoodSum(s) && i < |s| && b != s[i]
    ensures !GoodSum(s[i := b])
  {
    hide Sum;
    var n := |s| - 2;
    if i < n {
      assert s[i := b][..n] == s[..n][i := b];
      SumOfChanged(s[..n], i, b);
    } else {
      assert s[i := b][..n] == s[..n];
    }
  }
}
