/** The DHCPv4 packet codec (RFC 2131 section 2, options as in RFC 2132 section 2). */
module PacketV4 {
  import opened Wrappers
  import opened Bytes

  datatype Opt = Opt(code: byte, data: seq<byte>)

  datatype Packet = Packet(
    op: byte, htype: byte, hlen: byte, hops: byte,
    xid: u32, secs: u16, flags: u16,
    ciaddr: seq<byte>, yiaddr: seq<byte>, siaddr: seq<byte>, giaddr: seq<byte>,
    chaddr: seq<byte>,
    options: seq<Opt>)

  datatype ParseError = TooShort | BadCookie

  const HEADER_LEN: nat := 236
  const END: byte := 255
  const COOKIE: seq<byte> := [99, 130, 83, 99]

  // ---------------------------------------------------------------- what the bytes mean

  function HeaderBytes(p: Packet): (r: seq<byte>)
    ensures |r| == HEADER_LEN
  {
    [p.op, p.htype, p.hlen, p.hops] + Put32(p.xid) + Put16(p.secs) + Put16(p.flags)
    + Fit(To4(p.ciaddr), 4) + Fit(To4(p.yiaddr), 4) + Fit(To4(p.siaddr), 4) + Fit(To4(p.giaddr), 4)
    + Fit(p.chaddr, 16) + Zeros(192)
  }

  /** The length byte keeps the low eight bits. */
  function OptionBytes(o: Opt): seq<byte> {
    [o.code, |o.data| % 0x100] + o.data
  }

  function OptionsBytes(options: seq<Opt>): seq<byte> {
    if options == [] then [] else OptionBytes(options[0]) + OptionsBytes(options[1..])
  }

  function Encode(p: Packet): seq<byte> {
    var plain := HeaderBytes(p) + COOKIE + OptionsBytes(p.options) + [END];
    if |plain| < 300 then plain + Zeros(300 - |plain|) else plain
  }

  /** The options at the front of b: pads are passed over, and the list ends at the end option, at the end of the
      bytes or at an option that does not fit them. */
  function DecodeOptions(b: seq<byte>): seq<Opt> {
    if b == [] || b[0] == END then []
    else if b[0] == 0 then DecodeOptions(b[1..])
    else if |b| < 2 || 2 + b[1] > |b| then []
    else [Opt(b[0], b[2..2 + b[1]])] + DecodeOptions(b[2 + b[1]..])
  }

  function Decode(d: seq<byte>): Result<Packet, ParseError> {
    if |d| < HEADER_LEN + 4 then Err(TooShort)
    else if d[HEADER_LEN..HEADER_LEN + 4] != COOKIE then Err(BadCookie)
    else Ok(Packet(d[0], d[1], d[2], d[3], U32(d, 4), U16(d, 8), U16(d, 10),
                   d[12..16], d[16..20], d[20..24], d[24..28], d[28..34],
                   DecodeOptions(d[HEADER_LEN + 4..])))
  }

  function Lookup(options: seq<Opt>, code: byte): Option<seq<byte>> {
    if options == [] then None
    else if options[0].code == code then Some(options[0].data)
    else Lookup(options[1..], code)
  }

  /** The option at i is the first with its code. */
  ghost predicate FirstAt(options: seq<Opt>, code: byte, i: nat) {
    i < |options| && options[i].code == code && forall k | 0 <= k < i :: options[k].code != code
  }

  /** Every option is searched, and the first with the code is found. */
  lemma {:induction false} LookupIs(options: seq<Opt>, code: byte)
    ensures forall i: nat | FirstAt(options, code, i) :: Lookup(options, code) == Some(options[i].data)
    ensures Lookup(options, code).Some? <==> exists i: nat :: FirstAt(options, code, i)
    ensures Lookup(options, code).None? <==> forall o | o in options :: o.code != code
  {
    if options != [] {
      var rest := options[1..];
      LookupIs(rest, code);
      assert options == [options[0]] + rest;
      if options[0].code == code {
        assert FirstAt(options, code, 0);
      } else {
        forall i: nat
          ensures FirstAt(options, code, i + 1) <==> FirstAt(rest, code, i)
        {
          assert FirstAt(rest, code, i) ==> forall k | 0 < k < i + 1 :: options[k] == rest[k - 1];
          assert FirstAt(options, code, i + 1) ==> forall k | 0 <= k < i :: rest[k] == options[k + 1];
        }
        forall i: nat | FirstAt(options, code, i)
          ensures i > 0 && FirstAt(rest, code, i - 1)
        {
          assert FirstAt(options, code, (i - 1) + 1);
        }
      }
    }
  }

  // ---------------------------------------------------------------- round trips

  /** What the wire format can carry: Ethernet addresses, four-byte addresses, no option that reads as a pad or as
      the end, and no data longer than its length byte. */
  ghost predicate Encodable(p: Packet) {
    && |p.chaddr| == 6 && |p.ciaddr| == |p.yiaddr| == |p.siaddr| == |p.giaddr| == 4
    && forall o | o in p.options :: o.code != 0 && o.code != END && |o.data| <= 255
  }

  /** The end option hides whatever padding follows. */
  lemma {:induction false} OptionsComeBack(options: seq<Opt>, rest: seq<byte>)
    requires forall o | o in options :: o.code != 0 && o.code != END && |o.data| <= 255
    ensures DecodeOptions(OptionsBytes(options) + ([END] + rest)) == options
  {
    if options != [] {
      var o := options[0];
      var tail := OptionsBytes(options[1..]) + ([END] + rest);
      assert OptionsBytes(options) + ([END] + rest) == OptionBytes(o) + tail;
      OptionComesBack(o, tail);
      OptionsComeBack(options[1..], rest);
    }
  }

  /** Options with pads among them; None is a pad. */
  function PaddedBytes(items: seq<Option<Opt>>): seq<byte> {
    if items == [] then []
    else (if items[0].Some? then OptionBytes(items[0].value) else [0]) + PaddedBytes(items[1..])
  }

  function WithoutPads(items: seq<Option<Opt>>): seq<Opt> {
    if items == [] then []
    else (if items[0].Some? then [items[0].value] else []) + WithoutPads(items[1..])
  }

  /** Nothing more is read: no bytes are left, or the end option is next, or an option that the bytes cut short. */
  predicate Stops(tail: seq<byte>) {
    tail == [] || tail[0] == END || (tail[0] != 0 && (|tail| < 2 || 2 + tail[1] > |tail|))
  }

  /** However the options are padded and wherever they stop, they come back. */
  lemma {:induction false} PaddedOptionsComeBack(items: seq<Option<Opt>>, tail: seq<byte>)
    requires forall x | x in items && x.Some? :: x.value.code != 0 && x.value.code != END && |x.value.data| <= 255
    requires Stops(tail)
    ensures DecodeOptions(PaddedBytes(items) + tail) == WithoutPads(items)
  {
    if items == [] {
      assert [] + tail == tail;
    } else {
      var item, rest := items[0], PaddedBytes(items[1..]) + tail;
      PaddedOptionsComeBack(items[1..], tail);
      OneMoreItem(if item.Some? then OptionBytes(item.value) else [0], rest, item, items[1..], tail);
      assert items == [item] + items[1..];
      ItemComesBack(item, rest);
    }
  }

  lemma ItemComesBack(item: Option<Opt>, rest: seq<byte>)
    requires item.Some? ==> item.value.code != 0 && item.value.code != END && |item.value.data| <= 255
    ensures DecodeOptions((if item.Some? then OptionBytes(item.value) else [0]) + rest)
            == (if item.Some? then [item.value] else []) + DecodeOptions(rest)
  {
    if item.Some? {
      OptionComesBack(item.value, rest);
    } else {
      assert ([0] + rest)[1..] == rest;
    }
  }

  /** And all bytes are of that form, for the options read from them. */
  lemma {:induction false} OptionsExplainBytes(b: seq<byte>) returns (items: seq<Option<Opt>>, tail: seq<byte>)
    ensures b == PaddedBytes(items) + tail && Stops(tail) && WithoutPads(items) == DecodeOptions(b)
  {
    if Stops(b) {
      items, tail := [], b;
      assert b == [] + b;
    } else if b[0] == 0 {
      items, tail := OptionsExplainBytes(b[1..]);
      OneMoreItem([0], b[1..], None, items, tail);
      assert b == [0] + b[1..];
      items := [None] + items;
    } else {
      var o, rest := Opt(b[0], b[2..2 + b[1]]), b[2 + b[1]..];
      items, tail := OptionsExplainBytes(rest);
      OneMoreItem(OptionBytes(o), rest, Some(o), items, tail);
      assert b == OptionBytes(o) + rest;
      items := [Some(o)] + items;
    }
  }

  lemma OneMoreItem(front: seq<byte>, rest: seq<byte>, item: Option<Opt>, items: seq<Option<Opt>>, tail: seq<byte>)
    requires rest == PaddedBytes(items) + tail
    requires front == if item.Some? then OptionBytes(item.value) else [0]
    ensures front + rest == PaddedBytes([item] + items) + tail
    ensures WithoutPads([item] + items) == (if item.Some? then [item.value] else []) + WithoutPads(items)
  {
    assert ([item] + items)[1..] == items;
    assert front + (PaddedBytes(items) + tail) == front + PaddedBytes(items) + tail;
  }

  lemma OptionComesBack(o: Opt, tail: seq<byte>)
    requires o.code != 0 && o.code != END && |o.data| <= 255
    ensures DecodeOptions(OptionBytes(o) + tail) == [o] + DecodeOptions(tail)
  {
    var b := OptionBytes(o) + tail;
    assert b[0] == o.code && b[1] == |o.data|;
    assert b[2..2 + |o.data|] == o.data;
    assert b[2 + |o.data|..] == tail;
  }

  /** Where the fields stand. */
  lemma HeaderFields(p: Packet, rest: seq<byte>)
    ensures var d := HeaderBytes(p) + rest;
            && d[0] == p.op && d[1] == p.htype && d[2] == p.hlen && d[3] == p.hops
            && U32(d, 4) == p.xid && U16(d, 8) == p.secs && U16(d, 10) == p.flags
            && d[12..16] == Fit(To4(p.ciaddr), 4) && d[16..20] == Fit(To4(p.yiaddr), 4)
            && d[20..24] == Fit(To4(p.siaddr), 4) && d[24..28] == Fit(To4(p.giaddr), 4)
            && d[28..44] == Fit(p.chaddr, 16) && d[HEADER_LEN..] == rest
  {
    var d := HeaderBytes(p) + rest;
    assert d[4..8] == Put32(p.xid) && d[8..10] == Put16(p.secs) && d[10..12] == Put16(p.flags);
    assert U32(d, 4) == U32(d[4..8], 0) && U16(d, 8) == U16(d[8..10], 0) && U16(d, 10) == U16(d[10..12], 0);
  }

  /** A packet comes back unchanged, despite the padding, exactly when the format can carry it. */
  lemma PacketRoundTrip(p: Packet)
    ensures Decode(Encode(p)) == Ok(p) <==> Encodable(p)
  {
    DecodedIsEncodable(Encode(p));
    if Encodable(p) {
      EncodableComesBack(p);
    }
  }

  lemma EncodableComesBack(p: Packet)
    requires Encodable(p)
    ensures Decode(Encode(p)) == Ok(p)
  {
    var pad := EncodeSplits(p);
    var body := OptionsBytes(p.options) + ([END] + pad);
    HeaderFields(p, COOKIE + body);
    BodyFollowsCookie(Encode(p), body);
    OptionsComeBack(p.options, pad);
    assert Encode(p)[28..34] == Encode(p)[28..44][..6] == p.chaddr;
  }

  lemma EncodeSplits(p: Packet) returns (pad: seq<byte>)
    ensures Encode(p) == HeaderBytes(p) + (COOKIE + (OptionsBytes(p.options) + ([END] + pad)))
  {
    var header, options := HeaderBytes(p), OptionsBytes(p.options);
    var plain := header + COOKIE + options + [END];
    pad := if |plain| < 300 then Zeros(300 - |plain|) else [];
    Reassociate(header, COOKIE, options, [END], pad);
  }

  lemma Reassociate(a: seq<byte>, b: seq<byte>, c: seq<byte>, d: seq<byte>, e: seq<byte>)
    ensures a + b + c + d + e == a + (b + (c + (d + e)))
    ensures a + b + c + d + [] == a + b + c + d
  {
  }

  lemma BodyFollowsCookie(d: seq<byte>, body: seq<byte>)
    requires |d| >= HEADER_LEN && d[HEADER_LEN..] == COOKIE + body
    ensures |d| >= HEADER_LEN + 4 && d[HEADER_LEN..HEADER_LEN + 4] == COOKIE && d[HEADER_LEN + 4..] == body
  {
    assert d[HEADER_LEN..HEADER_LEN + 4] == d[HEADER_LEN..][..4];
    assert d[HEADER_LEN + 4..] == d[HEADER_LEN..][4..];
  }

  lemma {:induction false} DecodedOptionsFit(b: seq<byte>)
    ensures forall o | o in DecodeOptions(b) :: o.code != 0 && o.code != END && |o.data| <= 255
  {
    if b != [] && b[0] == 0 {
      DecodedOptionsFit(b[1..]);
    } else if |b| >= 2 && b[0] != END && 2 + b[1] <= |b| {
      DecodedOptionsFit(b[2 + b[1]..]);
    }
  }

  lemma DecodedIsEncodable(d: seq<byte>)
    ensures Decode(d).Ok? ==> Encodable(Decode(d).value)
  {
    if Decode(d).Ok? {
      DecodedOptionsFit(d[HEADER_LEN + 4..]);
    }
  }

  /** Whatever bytes are accepted, truncated options included: encoding the packet read from them and reading it again
      changes nothing. */
  lemma ReencodingIsStable(d: seq<byte>)
    requires Decode(d).Ok?
    ensures Decode(Encode(Decode(d).value)) == Decode(d)
  {
    DecodedIsEncodable(d);
    PacketRoundTrip(Decode(d).value);
  }

  // ---------------------------------------------------------------- the code

  method Marshal(p: Packet) returns (buf: seq<byte>)
    ensures buf == Encode(p)
    ensures |buf| >= 300
  {
    buf := FillHeader(p);
    buf := buf + COOKIE;
    buf := AppendOptions(buf, p.options);
    buf := buf + [END];
    buf := Pad(buf);
  }

  /** The option loop of marshal. */
  method AppendOptions(start: seq<byte>, options: seq<Opt>) returns (buf: seq<byte>)
    ensures buf == start + OptionsBytes(options)
  {
    buf := start;
    assert options[..0] == [];
    for i := 0 to |options|
      invariant buf == start + OptionsBytes(options[..i])
    {
      OptionsBytesSnoc(options, i);
      ghost var before := OptionsBytes(options[..i]);
      buf := buf + [options[i].code];
      buf := buf + [|options[i].data| % 0x100];
      buf := buf + options[i].data;
      assert buf == start + (before + OptionBytes(options[i]));
    }
    assert options[..|options|] == options;
  }

  lemma {:induction false} OptionsBytesSnoc(options: seq<Opt>, i: nat)
    requires i < |options|
    ensures OptionsBytes(options[..i + 1]) == OptionsBytes(options[..i]) + OptionBytes(options[i])
    decreases i
  {
    if i == 0 {
      assert options[..1][1..] == [] && options[..0] == [];
    } else {
      OptionsBytesSnoc(options[1..], i - 1);
      assert options[..i + 1][1..] == options[1..][..i] && options[..i][1..] == options[1..][..i - 1];
    }
  }

  /** Some servers expect at least 300 bytes. */
  method Pad(plain: seq<byte>) returns (buf: seq<byte>)
    ensures buf == if |plain| < 300 then plain + Zeros(300 - |plain|) else plain
  {
    buf := plain;
    while |buf| < 300
      invariant |plain| <= |buf| && (|buf| <= 300 || buf == plain)
      invariant buf == plain + Zeros(|buf| - |plain|)
    {
      buf := buf + [0];
    }
  }

  /** The fixed header, filled in place from left to right. */
  method FillHeader(p: Packet) returns (header: seq<byte>)
    ensures header == HeaderBytes(p)
  {
    var buf := new byte[236](_ => 0);
    buf[0] := p.op;
    buf[1] := p.htype;
    buf[2] := p.hlen;
    buf[3] := p.hops;
    assert buf[..4] == [p.op, p.htype, p.hlen, p.hops];
    PutField(buf, 4, 4, Put32(p.xid));
    PutField(buf, 8, 2, Put16(p.secs));
    PutField(buf, 10, 2, Put16(p.flags));
    PutField(buf, 12, 4, To4(p.ciaddr));
    PutField(buf, 16, 4, To4(p.yiaddr));
    PutField(buf, 20, 4, To4(p.siaddr));
    PutField(buf, 24, 4, To4(p.giaddr));
    PutField(buf, 28, 16, p.chaddr);
    header := buf[..];
    assert header == buf[..44] + buf[44..];
  }

  /** copy into a field that lies in front of nothing but zeros. */
  method PutField(buf: array<byte>, i: nat, width: nat, src: seq<byte>)
    requires i + width <= buf.Length && buf[i..] == Zeros(buf.Length - i)
    modifies buf
    ensures buf[..i + width] == old(buf[..i]) + Fit(src, width)
    ensures buf[i + width..] == Zeros(buf.Length - (i + width))
  {
    var data := if |src| <= width then src else src[..width];
    assert forall k | i <= k < buf.Length :: buf[k] == buf[i..][k - i] == 0;
    CopyInto(buf, i, data);
    assert buf[..i] == old(buf[..i]);
    assert buf[i..i + width] == Fit(src, width);
  }

  method ParseV4Packet(data: seq<byte>) returns (r: Result<Packet, ParseError>)
    ensures r == Decode(data)
  {
    if |data| < HEADER_LEN + 4 {
      return Err(TooShort);
    }
    var offset := HEADER_LEN;
    if data[offset] != 99 || data[offset + 1] != 130 || data[offset + 2] != 83 || data[offset + 3] != 99 {
      return Err(BadCookie);
    }
    assert data[HEADER_LEN..HEADER_LEN + 4] == COOKIE;
    var options := ParseOptions(data, offset + 4);
    return Ok(Packet(data[0], data[1], data[2], data[3], U32(data, 4), U16(data, 8), U16(data, 10),
                     data[12..16], data[16..20], data[20..24], data[24..28], data[28..34], options));
  }

  /** The options from offset i on, without cutting the bytes. */
  function DecodeFrom(data: seq<byte>, i: nat): seq<Opt>
    requires i <= |data|
    decreases |data| - i
  {
    if i == |data| || data[i] == END then []
    else if data[i] == 0 then DecodeFrom(data, i + 1)
    else if i + 1 >= |data| || i + 2 + data[i + 1] > |data| then []
    else [Opt(data[i], data[i + 2..i + 2 + data[i + 1]])] + DecodeFrom(data, i + 2 + data[i + 1])
  }

  lemma {:induction false} DecodeFromIs(data: seq<byte>, i: nat)
    requires i <= |data|
    ensures DecodeFrom(data, i) == DecodeOptions(data[i..])
    decreases |data| - i
  {
    if i < |data| && data[i] == 0 {
      DecodeFromIs(data, i + 1);
      assert data[i..][1..] == data[i + 1..];
    } else if i + 1 < |data| && data[i] != END && i + 2 + data[i + 1] <= |data| {
      DecodeFromIs(data, i + 2 + data[i + 1]);
      OptionAt(data, i);
    }
  }

  lemma OptionAt(data: seq<byte>, i: nat)
    requires i + 1 < |data| && data[i] != 0 && data[i] != END && i + 2 + data[i + 1] <= |data|
    ensures var n := data[i + 1];
            DecodeOptions(data[i..]) == [Opt(data[i], data[i + 2..i + 2 + n])] + DecodeOptions(data[i + 2 + n..])
  {
    var b, n := data[i..], data[i + 1];
    SlicesOf(data, i, 2, n);
    assert b[0] == data[i] && b[1] == n;
  }

  lemma SlicesOf(data: seq<byte>, i: nat, k: nat, n: nat)
    requires i + k + n <= |data|
    ensures data[i..][k..k + n] == data[i + k..i + k + n] && data[i..][k + n..] == data[i + k + n..]
  {
  }

  /** The option loop of parseV4Packet. */
  method ParseOptions(data: seq<byte>, start: nat) returns (options: seq<Opt>)
    requires start <= |data|
    ensures options == DecodeOptions(data[start..])
  {
    DecodeFromIs(data, start);
    var offset := start;
    options := [];
    while offset < |data|
      invariant start <= offset <= |data|
      invariant options + DecodeFrom(data, offset) == DecodeFrom(data, start)
      decreases |data| - offset
    {
      var code := data[offset];
      if code == END {
        return;
      }
      if code == 0 { // pad
        offset := offset + 1;
        continue;
      }
      offset := offset + 1;
      if offset >= |data| {
        return;
      }
      var length := data[offset];
      offset := offset + 1;
      if offset + length > |data| {
        return;
      }
      Snoc(options, Opt(code, data[offset..offset + length]), DecodeFrom(data, offset + length));
      options := options + [Opt(code, data[offset..offset + length])];
      offset := offset + length;
    }
  }

  lemma Snoc(done: seq<Opt>, o: Opt, rest: seq<Opt>)
    ensures done + ([o] + rest) == done + [o] + rest
  {
  }

  method GetOption(p: Packet, code: byte) returns (r: Option<seq<byte>>)
    ensures r == Lookup(p.options, code)
    ensures forall d :: r == Some(d) <==> exists i: nat :: FirstAt(p.options, code, i) && p.options[i] == Opt(code, d)
    ensures r.None? <==> forall o | o in p.options :: o.code != code
  {
    LookupIs(p.options, code);
    for i := 0 to |p.options|
      invariant Lookup(p.options[i..], code) == Lookup(p.options, code)
    {
      assert p.options[i..][1..] == p.options[i + 1..];
      if p.options[i].code == code {
        return Some(p.options[i].data);
      }
    }
    return None;
  }
}
