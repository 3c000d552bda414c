/** Bytes, fixed-width words and the few address helpers of Go's net package that the codecs use. */
module Bytes {

  type byte = x: int | 0 <= x < 0x100
  type u16 = x: int | 0 <= x < 0x1_0000
  type u32 = x: int | 0 <= x < 0x1_0000_0000

  /** Conversion to a fixed width drops the high bits. */
  function Low16(x: int): (r: u16)
    ensures 0 <= x < 0x1_0000 ==> r == x
  {
    x % 0x1_0000
  }

  function Low32(x: int): (r: u32)
    ensures 0 <= x < 0x1_0000_0000 ==> r == x
  {
    x % 0x1_0000_0000
  }

  /** binary.BigEndian.Uint16 at offset i. */
  function U16(b: seq<byte>, i: nat): u16
    requires i + 2 <= |b|
  {
    (b[i] as int) * 0x100 + b[i + 1]
  }

  function U32(b: seq<byte>, i: nat): u32
    requires i + 4 <= |b|
  {
    U16(b, i) * 0x1_0000 + U16(b, i + 2)
  }

  function Put16(v: u16): (r: seq<byte>)
    ensures |r| == 2 && U16(r, 0) == v
  {
    [v / 0x100, v % 0x100]
  }

  function Put32(v: u32): (r: seq<byte>)
    ensures |r| == 4 && U32(r, 0) == v
  {
    var r := Put16(v / 0x1_0000) + Put16(v % 0x1_0000);
    assert U16(r, 0) == U16(r[..2], 0) && U16(r, 2) == U16(r[2..], 0);
    r
  }

  function Zeros(n: nat): (r: seq<byte>)
    ensures |r| == n && forall i | 0 <= i < n :: r[i] == 0
  {
    seq(n, _ => 0)
  }

  const V4InV6Prefix: seq<byte> := [0, 0, 0, 0, 0, 0, 0, 0, 0, 0, 0xFF, 0xFF]

  /** net.IP.To4; the empty sequence stands for nil. */
  function To4(ip: seq<byte>): (r: seq<byte>)
    ensures |r| == 4 || r == []
    ensures |ip| == 4 ==> r == ip
  {
    if |ip| == 4 then ip
    else if |ip| == 16 && ip[..12] == V4InV6Prefix then ip[12..]
    else []
  }

  /** net.IP.To16; the empty sequence stands for nil. */
  function To16(ip: seq<byte>): (r: seq<byte>)
    ensures |r| == 16 || r == []
    ensures |ip| == 16 ==> r == ip
  {
    if |ip| == 4 then V4InV6Prefix + ip
    else if |ip| == 16 then ip
    else []
  }

  /** An IPv4 address and its IPv6 form are the same address, and no other IPv6 address has an IPv4 form. */
  lemma V4InV6(ip: seq<byte>)
    ensures |ip| == 4 ==> To4(To16(ip)) == ip
    ensures |ip| == 16 && To4(ip) != [] ==> To16(To4(ip)) == ip
    ensures |ip| == 16 ==> (To4(ip) != [] <==> exists v4: seq<byte> | |v4| == 4 :: To16(v4) == ip)
  {
    assert |ip| == 16 ==> ip == ip[..12] + ip[12..];
  }

  /** copy(dst, src) into a destination of `width` zero bytes. */
  function Fit(src: seq<byte>, width: nat): (r: seq<byte>)
    ensures |r| == width
    ensures |src| == width ==> r == src
    ensures forall k | 0 <= k < width :: r[k] == if k < |src| then src[k] else 0
  {
    if |src| >= width then src[..width] else src + Zeros(width - |src|)
  }

  /** copy(buf[i:], data) for data that fits. */
  method CopyInto(buf: array<byte>, i: nat, data: seq<byte>)
    requires i + |data| <= buf.Length
    modifies buf
    ensures forall k | 0 <= k < |data| :: buf[i + k] == data[k]
    ensures forall k | 0 <= k < buf.Length && !(i <= k < i + |data|) :: buf[k] == old(buf[k])
  {
    for k := 0 to |data|
      invariant forall j | 0 <= j < k :: buf[i + j] == data[j]
      invariant forall j | 0 <= j < buf.Length && !(i <= j < i + k) :: buf[j] == old(buf[j])
    {
      buf[i + k] := data[k];
    }
  }
}
