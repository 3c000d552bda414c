/**
Internet checksums (RFC 1071) and the IPv4 and UDP headers of a raw DHCP packet. Words are summed in a uint32
accumulator, the carries are folded back and the complement is stored. The accumulator's wrap-around is part
of the model; it is proved not to happen for any packet whose length fits its 16-bit fields.
*/
module Checksum {
  import opened Bytes

  /** The sum of the big-endian words of b, a last odd byte standing in the high half. */
  function WordSum(b: seq<byte>): nat {
    if |b| == 0 then 0 else if |b| == 1 then (b[0] as int) * 0x100 else U16(b, 0) + WordSum(b[2..])
  }

  /** Adding carries back until the sum fits 16 bits. */
  function Fold(sum: nat): (r: u16) {
    if sum < 0x1_0000 then sum else Fold(sum % 0x1_0000 + sum / 0x1_0000)
  }

  /** Folding takes away a multiple of 65535 and never turns a positive sum into zero. */
  lemma {:induction false} FoldSubtracts(sum: nat) returns (m: nat)
    ensures sum == Fold(sum) + 0xFFFF * m
    ensures Fold(sum) == 0 <==> sum == 0
  {
    if sum < 0x1_0000 {
      m := 0;
    } else {
      var next := sum % 0x1_0000 + sum / 0x1_0000;
      m := FoldSubtracts(next);
      m := m + sum / 0x1_0000;
    }
  }

  /** Which makes the folded sum the representative of the sum modulo 65535 in 1..65535, zero standing for itself. */
  lemma FoldIsOnesComplementSum(sum: nat)
    ensures Fold(sum) == if sum == 0 then 0 else if sum % 0xFFFF == 0 then 0xFFFF else sum % 0xFFFF
  {
    var m := FoldSubtracts(sum);
    if Fold(sum) == 0xFFFF {
      Residue(sum, m + 1, 0);
    } else {
      Residue(sum, m, Fold(sum));
    }
  }

  lemma Residue(x: nat, q: nat, r: nat)
    requires x == 0xFFFF * q + r && r < 0xFFFF
    ensures x % 0xFFFF == r
  {
  }

  lemma {:induction false} WordSumBound(b: seq<byte>)
    ensures 2 * WordSum(b) <= 0xFFFF * (|b| + 1)
  {
    if |b| >= 2 { WordSumBound(b[2..]); }
  }

  lemma {:induction false} WordSumAppend(a: seq<byte>, b: seq<byte>)
    requires |a| % 2 == 0
    ensures WordSum(a + b) == WordSum(a) + WordSum(b)
  {
    if a == [] {
      assert a + b == b;
    } else {
      assert (a + b)[2..] == a[2..] + b;
      WordSumAppend(a[2..], b);
    }
  }

  function Store(b: seq<byte>, k: nat, v: u16): (r: seq<byte>)
    requires k + 2 <= |b|
    ensures |r| == |b| && r[k..k + 2] == Put16(v) && r[..k] == b[..k] && r[k + 2..] == b[k + 2..]
  {
    b[..k] + Put16(v) + b[k + 2..]
  }

  /** A word at an even offset counts once. */
  lemma WordSumOfStore(b: seq<byte>, k: nat, v: u16)
    requires k % 2 == 0 && k + 2 <= |b|
    ensures WordSum(Store(b, k, v)) == WordSum(b[..k]) + v + WordSum(b[k + 2..])
  {
    WordSumAppend(b[..k], Put16(v) + b[k + 2..]);
    assert Store(b, k, v) == b[..k] + (Put16(v) + b[k + 2..]);
    WordSumAppend(Put16(v), b[k + 2..]);
    assert Put16(v)[2..] == [];
  }

  function Complement(x: u16): u16 { 0xFFFF - x }

  lemma ComplementFolds(sum: nat, v: u16)
    requires v == Complement(Fold(sum)) || (Fold(sum) == 0xFFFF && v == 0xFFFF)
    ensures Fold(sum + v) == 0xFFFF
  {
    var m := FoldSubtracts(sum);
    var m' := FoldSubtracts(sum + v);
    OnlyMultipleLeft(Fold(sum), m, Fold(sum + v), m', v);
  }

  lemma OnlyMultipleLeft(f: u16, m: nat, f': u16, m': nat, v: u16)
    requires v + f == 0xFFFF || v == f == 0xFFFF
    requires f + 0xFFFF * m + v == f' + 0xFFFF * m'
    requires f' == 0 ==> f + 0xFFFF * m + v == 0
    ensures f' == 0xFFFF
  {
  }

  /** Storing the complement of the folded sum makes everything that contributes to the sum fold to 0xFFFF, whatever
      else (a pseudo-header) is summed along. */
  lemma StoredComplementVerifies(extra: nat, b: seq<byte>, k: nat, v: u16)
    requires k % 2 == 0 && k + 2 <= |b|
    requires var f := Fold(extra + WordSum(Store(b, k, 0))); v == Complement(f) || (f == 0xFFFF && v == 0xFFFF)
    ensures Fold(extra + WordSum(Store(b, k, v))) == 0xFFFF
  {
    WordSumOfStore(b, k, 0);
    WordSumOfStore(b, k, v);
    var sum := extra + WordSum(Store(b, k, 0));
    assert sum + v == extra + WordSum(Store(b, k, v));
    ComplementFolds(sum, v);
  }

  // ---------------------------------------------------------------- the loops

  /** `for sum>>16 != 0`: ends, without wrapping, in the folded sum. */
  method FoldCarries(start: u32) returns (r: u16)
    ensures r == Fold(start)
  {
    var sum := start;
    while sum / 0x1_0000 != 0
      invariant Fold(sum) == Fold(start)
      decreases sum
    {
      sum := Low32(sum % 0x1_0000 + sum / 0x1_0000);
    }
    r := sum;
  }

  lemma WordSumFrom(b: seq<byte>, i: nat)
    requires i + 1 < |b|
    ensures WordSum(b[i..]) == U16(b, i) + WordSum(b[i + 2..])
  {
    assert b[i..][2..] == b[i + 2..];
  }

  /** The accumulator loop of ipChecksum. */
  method SumWords(b: seq<byte>) returns (sum: u32)
    ensures |b| <= 0x2_0000 ==> sum == WordSum(b)
  {
    sum := 0;
    var i := 0;
    ghost var whole := WordSum(b);
    WordSumBound(b);
    assert b[0..] == b;
    while i < |b| - 1
      invariant 0 <= i <= |b| && i % 2 == 0
      invariant |b| <= 0x2_0000 ==> sum + WordSum(b[i..]) == whole < 0x1_0000_0000
    {
      WordSumFrom(b, i);
      sum := Low32(sum + U16(b, i));
      i := i + 2;
    }
    if |b| % 2 == 1 {
      assert b[i..] == [b[|b| - 1]];
      sum := Low32(sum + (b[|b| - 1] as int) * 0x100);
    }
  }

  method IpChecksum(header: seq<byte>) returns (r: u16)
    ensures |header| <= 0x2_0000 ==> r == Complement(Fold(WordSum(header)))
  {
    var sum := SumWords(header);
    var folded := FoldCarries(sum);
    r := Complement(folded);
  }

  /** The pseudo-header of RFC 768: both addresses, the protocol and the UDP length. */
  function PseudoSum(packet: seq<byte>): nat
    requires |packet| >= 28
  {
    U16(packet, 12) + U16(packet, 14) + U16(packet, 16) + U16(packet, 18) + packet[9] + U16(packet, 24)
  }

  lemma ClearedWord(data: seq<byte>, i: nat)
    requires |data| >= 8 && i % 2 == 0 && i + 2 <= |data|
    ensures U16(Store(data, 6, 0), i) == if i == 6 then 0 else U16(data, i)
  {
    var cleared := Store(data, 6, 0);
    if i < 6 {
      assert cleared[..6][i] == data[i] && cleared[..6][i + 1] == data[i + 1];
    } else if i > 6 {
      assert cleared[8..][i - 8] == data[i] && cleared[8..][i - 7] == data[i + 1];
    } else {
      assert cleared[6..8][0] == 0 && cleared[6..8][1] == 0;
    }
  }

  method UdpChecksum(packet: seq<byte>) returns (r: u16)
    requires |packet| >= 28
    ensures r != 0
    ensures |packet| <= 0xFFFF ==>
              var f := Fold(PseudoSum(packet) + WordSum(Store(packet[20..], 6, 0)));
              r == if f == 0xFFFF then 0xFFFF else Complement(f)
  {
    var sum: u32 := 0;
    sum := Low32(sum + U16(packet, 12));
    sum := Low32(sum + U16(packet, 14));
    sum := Low32(sum + U16(packet, 16));
    sum := Low32(sum + U16(packet, 18));
    sum := Low32(sum + packet[9]);
    sum := Low32(sum + U16(packet, 24));
    assert sum == PseudoSum(packet) <= 0x8_0000;
    sum := SumDatagram(packet[20..], sum);
    var folded := FoldCarries(sum);
    r := Complement(folded);
    if r == 0 {
      r := 0xFFFF;
    }
  }

  /** Passing over the checksum field sums the datagram with that field cleared. */
  ghost predicate SummedTo(data: seq<byte>, start: u32, i: nat, sum: u32)
    requires |data| >= 8 && i <= |data|
  {
    sum + WordSum(Store(data, 6, 0)[i..]) == start + WordSum(Store(data, 6, 0))
  }

  lemma SumStep(data: seq<byte>, start: u32, i: nat, sum: u32)
    requires 8 <= |data| <= 0xFFFF && start <= 0x8_0000 && i % 2 == 0 && i < |data| - 1
    requires SummedTo(data, start, i, sum)
    ensures SummedTo(data, start, i + 2, if i != 6 then Low32(sum + U16(data, i)) else sum)
  {
    var cleared := Store(data, 6, 0);
    WordSumBound(cleared);
    WordSumFrom(cleared, i);
    ClearedWord(data, i);
  }

  lemma LastByte(data: seq<byte>, start: u32, i: nat, sum: u32)
    requires 8 <= |data| <= 0xFFFF && start <= 0x8_0000 && i == |data| - 1 && i % 2 == 0
    requires SummedTo(data, start, i, sum)
    ensures Low32(sum + (data[i] as int) * 0x100) == start + WordSum(Store(data, 6, 0))
  {
    var cleared := Store(data, 6, 0);
    WordSumBound(cleared);
    assert cleared[i..] == [data[i]];
  }

  /** The datagram part of udpChecksum, which passes over the checksum field. */
  method SumDatagram(data: seq<byte>, start: u32) returns (sum: u32)
    requires |data| >= 8
    ensures |data| <= 0xFFFF && start <= 0x8_0000 ==> sum == start + WordSum(Store(data, 6, 0))
  {
    assert Store(data, 6, 0)[0..] == Store(data, 6, 0);
    sum := start;
    var i := 0;
    while i < |data| - 1
      invariant 0 <= i <= |data| && i % 2 == 0
      invariant |data| <= 0xFFFF && start <= 0x8_0000 ==> SummedTo(data, start, i, sum)
    {
      if |data| <= 0xFFFF && start <= 0x8_0000 {
        SumStep(data, start, i, sum);
      }
      if i != 6 {
        sum := Low32(sum + U16(data, i));
      }
      i := i + 2;
    }
    if |data| % 2 == 1 {
      if |data| <= 0xFFFF && start <= 0x8_0000 {
        LastByte(data, start, i, sum);
      }
      sum := Low32(sum + (data[|data| - 1] as int) * 0x100);
    }
  }

  // ---------------------------------------------------------------- the packet

  method PutU16(buf: array<byte>, i: nat, v: u16)
    requires i + 2 <= buf.Length
    modifies buf
    ensures buf[i] == v / 0x100 && buf[i + 1] == v % 0x100
    ensures forall k | 0 <= k < buf.Length && k != i && k != i + 1 :: buf[k] == old(buf[k])
  {
    buf[i] := v / 0x100;
    buf[i + 1] := v % 0x100;
  }

  /** The IPv4 header with its checksum field still zero. */
  function HeaderFields(total: u16, source: seq<byte>, destination: seq<byte>): (r: seq<byte>)
    ensures |r| == 20
  {
    [0x45, 0, total / 0x100, total % 0x100, 0, 0, 0, 0, 64, 17, 0, 0]
    + Fit(To4(source), 4) + Fit(To4(destination), 4)
  }

  /** The UDP header with its checksum field still zero, and the payload. */
  function DatagramFields(payload: seq<byte>): (r: seq<byte>)
    ensures |r| == 8 + |payload|
  {
    var length := Low16(8 + |payload|);
    [0, 68, 0, 67, length / 0x100, length % 0x100, 0, 0] + payload
  }

  /** Two sequences that agree but for a cleared word. */
  lemma StoreIs(b: seq<byte>, plain: seq<byte>, k: nat, v: u16)
    requires k + 2 <= |plain| == |b|
    requires b[k] == v / 0x100 && b[k + 1] == v % 0x100 && plain[k] == 0 && plain[k + 1] == 0
    requires forall i | 0 <= i < |b| && i != k && i != k + 1 :: b[i] == plain[i]
    ensures b == Store(plain, k, v) && plain == Store(b, k, 0) && plain == Store(plain, k, 0)
  {
    assert Put16(v) == [v / 0x100, v % 0x100] && Put16(0) == [0, 0];
  }

  method FillHeader(buf: array<byte>, source: seq<byte>, destination: seq<byte>)
    requires buf.Length >= 20 && forall k | 0 <= k < 20 :: buf[k] == 0
    modifies buf
    ensures forall k | 20 <= k < buf.Length :: buf[k] == old(buf[k])
    ensures Store(buf[..20], 10, 0) == HeaderFields(Low16(buf.Length), source, destination)
    ensures Fold(WordSum(buf[..20])) == 0xFFFF
  {
    buf[0] := 0x45;
    PutU16(buf, 2, Low16(buf.Length));
    buf[8] := 64;
    buf[9] := 17;
    CopyInto(buf, 12, To4(source));
    CopyInto(buf, 16, To4(destination));
    ghost var plain := buf[..20];
    assert plain == HeaderFields(Low16(buf.Length), source, destination) by {
      HeaderIs(plain, Low16(buf.Length), source, destination);
    }
    var checksum := IpChecksum(buf[..20]);
    PutU16(buf, 10, checksum);
    StoreIs(buf[..20], plain, 10, checksum);
    StoredComplementVerifies(0, plain, 10, checksum);
  }

  lemma FitIs(b: seq<byte>, i: nat, src: seq<byte>)
    requires i + 4 <= |b|
    requires b[i] == Fit(src, 4)[0] && b[i + 1] == Fit(src, 4)[1]
    requires b[i + 2] == Fit(src, 4)[2] && b[i + 3] == Fit(src, 4)[3]
    ensures b[i..i + 4] == Fit(src, 4)
  {
  }

  lemma HeaderIs(b: seq<byte>, total: u16, source: seq<byte>, destination: seq<byte>)
    requires |b| == 20
    requires b[0] == 0x45 && b[1] == 0 && b[2] == total / 0x100 && b[3] == total % 0x100
    requires b[4] == b[5] == b[6] == b[7] == 0 && b[8] == 64 && b[9] == 17 && b[10] == b[11] == 0
    requires forall k | 0 <= k < 4 :: b[12 + k] == Fit(To4(source), 4)[k]
    requires forall k | 0 <= k < 4 :: b[16 + k] == Fit(To4(destination), 4)[k]
    ensures b == HeaderFields(total, source, destination)
  {
    assert b[12 + 0] == Fit(To4(source), 4)[0] && b[16 + 0] == Fit(To4(destination), 4)[0];
    FitIs(b, 12, To4(source));
    FitIs(b, 16, To4(destination));
    assert b[..12] == [0x45, 0, total / 0x100, total % 0x100, 0, 0, 0, 0, 64, 17, 0, 0];
    assert b == b[..12] + b[12..16] + b[16..20];
  }

  method FillFields(buf: array<byte>, payload: seq<byte>)
    requires buf.Length == 28 + |payload| && forall k | 20 <= k < buf.Length :: buf[k] == 0
    modifies buf
    ensures buf[..20] == old(buf[..20]) && buf[20..] == DatagramFields(payload)
  {
    PutU16(buf, 20, 68);
    PutU16(buf, 22, 67);
    PutU16(buf, 24, Low16(8 + |payload|));
    CopyInto(buf, 28, payload);
  }

  method FillDatagram(buf: array<byte>, payload: seq<byte>)
    requires buf.Length == 28 + |payload| && forall k | 20 <= k < buf.Length :: buf[k] == 0
    modifies buf
    ensures buf[..20] == old(buf[..20])
    ensures Store(buf[20..], 6, 0) == DatagramFields(payload)
    ensures U16(buf[..], 26) != 0
    ensures buf.Length <= 0xFFFF ==> Fold(PseudoSum(buf[..]) + WordSum(buf[20..])) == 0xFFFF
  {
    FillFields(buf, payload);
    ghost var before := buf[..];
    ghost var plain := DatagramFields(payload);
    assert before[20..] == plain;
    var checksum := UdpChecksum(buf[..]);
    PutU16(buf, 26, checksum);
    StoreIs(buf[20..], plain, 6, checksum);
    assert PseudoSum(buf[..]) == PseudoSum(before);
    if buf.Length <= 0xFFFF {
      StoredComplementVerifies(PseudoSum(before), plain, 6, checksum);
    }
  }

  /** What the packet says to a receiver (RFC 791 section 3.1): version 4 and five words of header, the total length, no
      fragment, 64 hops, UDP, and the two addresses; */
  ghost predicate HeaderSays(b: seq<byte>, total: u16, source: seq<byte>, destination: seq<byte>)
    requires |b| >= 28
  {
    && b[0] == 4 * 0x10 + 5 && U16(b, 2) == total && U16(b, 6) == 0 && b[8] == 64 && b[9] == 17
    && b[12..16] == Fit(To4(source), 4) && b[16..20] == Fit(To4(destination), 4)
  }

  /** and (RFC 768) from the client's port 68 to the server's port 67, so many bytes, which carry the payload. */
  ghost predicate DatagramSays(b: seq<byte>, payload: seq<byte>)
    requires |b| >= 28
  {
    && U16(b, 20) == 68 && U16(b, 22) == 67 && U16(b, 24) == Low16(8 + |payload|)
    && b[28..] == payload
  }

  lemma HeaderIsSaid(b: seq<byte>, total: u16, source: seq<byte>, destination: seq<byte>)
    requires |b| >= 28 && Store(b[..20], 10, 0) == HeaderFields(total, source, destination)
    ensures HeaderSays(b, total, source, destination)
  {
    var fields := HeaderFields(total, source, destination);
    assert forall k | 0 <= k < 20 && k != 10 && k != 11 :: b[k] == b[..20][k] == fields[k];
    assert fields[12..16] == Fit(To4(source), 4) && fields[16..20] == Fit(To4(destination), 4);
    assert b[12..16] == fields[12..16] && b[16..20] == fields[16..20];
  }

  lemma DatagramIsSaid(b: seq<byte>, payload: seq<byte>)
    requires |b| == 28 + |payload| && Store(b[20..], 6, 0) == DatagramFields(payload)
    ensures DatagramSays(b, payload)
  {
    var fields := DatagramFields(payload);
    assert forall k | 0 <= k < |fields| && k != 6 && k != 7 :: b[20 + k] == b[20..][k] == fields[k];
    assert fields[8..] == payload;
    assert b[28..] == fields[8..];
  }

  /** wrapUDPIPFromTo. For every payload whose lengths fit their fields the header sums to zero under ipChecksum, the
      datagram with its pseudo-header folds to 0xFFFF, and the UDP checksum is never the reserved zero. */
  method WrapUDPIPFromTo(payload: seq<byte>, source: seq<byte>, destination: seq<byte>) returns (buf: array<byte>)
    ensures fresh(buf) && buf.Length == 28 + |payload|
    ensures Store(buf[..20], 10, 0) == HeaderFields(Low16(28 + |payload|), source, destination)
    ensures Store(buf[20..], 6, 0) == DatagramFields(payload)
    ensures Fold(WordSum(buf[..20])) == 0xFFFF
    ensures U16(buf[..], 26) != 0
    ensures HeaderSays(buf[..], Low16(28 + |payload|), source, destination)
    ensures DatagramSays(buf[..], payload)
    ensures 28 + |payload| <= 0xFFFF ==> Fold(PseudoSum(buf[..]) + WordSum(buf[20..])) == 0xFFFF
  {
    buf := new byte[20 + 8 + |payload|](_ => 0);
    FillHeader(buf, source, destination);
    FillDatagram(buf, payload);
    HeaderIsSaid(buf[..], Low16(28 + |payload|), source, destination);
    DatagramIsSaid(buf[..], payload);
  }

  /** The receiver's check: ipChecksum over a header that carries its checksum gives zero. */
  method ChecksOut(header: seq<byte>) returns (zero: bool)
    requires |header| <= 0x2_0000
    ensures zero <==> Fold(WordSum(header)) == 0xFFFF
  {
    var sum := IpChecksum(header);
    zero := sum == 0;
  }
}
