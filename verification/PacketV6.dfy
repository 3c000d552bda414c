/**
The DHCPv6 message codec (RFC 8415 sections 8 and 21.1) with the IA_NA option nested in it (sections 21.4 and
21.6), and the four messages that carry the client's addresses.
*/
module PacketV6 {
  import opened Wrappers
  import opened Bytes

  datatype Opt = Opt(code: u16, data: seq<byte>)

  datatype Message = Message(kind: byte, transaction: seq<byte>, options: seq<Opt>)

  /** An address with its preferred and valid lifetimes. */
  datatype AddrInfo = AddrInfo(ip: seq<byte>, preferred: u32, valid: u32)

  datatype Iana = Iana(iaid: u32, t1: u32, t2: u32, addrs: seq<AddrInfo>)

  datatype ParseError = TooShort

  const REQUEST: byte := 3
  const RENEW: byte := 5
  const REBIND: byte := 6
  const RELEASE: byte := 8

  const CLIENT_ID: u16 := 1
  const SERVER_ID: u16 := 2
  const IA_NA: u16 := 3
  const IA_ADDR: u16 := 5
  const ORO: u16 := 6
  const ELAPSED_TIME: u16 := 8
  const DNS_SERVERS: u16 := 23
  const DOMAIN_LIST: u16 := 24

  /** The most addresses an IA_NA option can carry: 12 + 28 * 2340 == 65532. */
  const MAX_ADDRS: nat := 2340

  // ---------------------------------------------------------------- what the bytes mean

  /** The length field keeps the low sixteen bits. */
  function OptionBytes(o: Opt): (r: seq<byte>)
    ensures |r| == 4 + |o.data|
  {
    Put16(o.code) + Put16(Low16(|o.data|)) + o.data
  }

  function OptionsBytes(options: seq<Opt>): seq<byte> {
    if options == [] then [] else OptionBytes(options[0]) + OptionsBytes(options[1..])
  }

  function Encode(m: Message): seq<byte> {
    [m.kind] + Fit(m.transaction, 3) + OptionsBytes(m.options)
  }

  /** The options at the front of b, up to one that does not fit the bytes left. */
  function DecodeOptions(b: seq<byte>): seq<Opt> {
    if |b| < 4 || 4 + U16(b, 2) > |b| then []
    else [Opt(U16(b, 0), b[4..4 + U16(b, 2)])] + DecodeOptions(b[4 + U16(b, 2)..])
  }

  function Decode(d: seq<byte>): Result<Message, ParseError> {
    if |d| < 4 then Err(TooShort) else Ok(Message(d[0], d[1..4], DecodeOptions(d[4..])))
  }

  function Lookup(options: seq<Opt>, code: u16): Option<seq<byte>> {
    if options == [] then None
    else if options[0].code == code then Some(options[0].data)
    else Lookup(options[1..], code)
  }

  function AddrData(a: AddrInfo): (r: seq<byte>)
    ensures |r| == 24
  {
    Fit(To16(a.ip), 16) + Put32(a.preferred) + Put32(a.valid)
  }

  function AddrOptions(addrs: seq<AddrInfo>): seq<Opt> {
    seq(|addrs|, i requires 0 <= i < |addrs| => Opt(IA_ADDR, AddrData(addrs[i])))
  }

  function IanaBytes(iaid: u32, addrs: seq<AddrInfo>): seq<byte> {
    Put32(iaid) + Zeros(8) + OptionsBytes(AddrOptions(addrs))
  }

  function AddrOf(data: seq<byte>): AddrInfo
    requires |data| >= 24
  {
    AddrInfo(data[..16], U32(data, 16), U32(data, 20))
  }

  /** The address options among the options of an IA_NA, too short ones left out. */
  function AddrsIn(options: seq<Opt>): seq<AddrInfo> {
    if options == [] then []
    else (if options[0].code == IA_ADDR && |options[0].data| >= 24 then [AddrOf(options[0].data)] else [])
         + AddrsIn(options[1..])
  }

  function DecodeIana(data: seq<byte>): Iana {
    if |data| < 12 then Iana(0, 0, 0, [])
    else Iana(U32(data, 0), U32(data, 4), U32(data, 8), AddrsIn(DecodeOptions(data[12..])))
  }

  // ---------------------------------------------------------------- round trips

  ghost predicate Encodable(m: Message) {
    |m.transaction| == 3 && forall o | o in m.options :: |o.data| <= 0xFFFF
  }

  /** An option at the front comes back with as much of its data as the length field says. */
  lemma FrontOption(o: Opt, tail: seq<byte>)
    ensures var n := Low16(|o.data|);
            n <= |o.data| &&
            DecodeOptions(OptionBytes(o) + tail) == [Opt(o.code, o.data[..n])] + DecodeOptions(o.data[n..] + tail)
  {
    var n := Low16(|o.data|);
    var b := OptionBytes(o) + tail;
    assert b[..2] == Put16(o.code) && b[2..4] == Put16(n);
    assert U16(b, 0) == U16(b[..2], 0) && U16(b, 2) == U16(b[2..4], 0);
    assert b[4..] == o.data + tail;
    assert b[4..4 + n] == o.data[..n] && b[4 + n..] == o.data[n..] + tail;
  }

  /** Nothing more is read: the bytes end, or cut an option short. */
  predicate Stops(tail: seq<byte>) {
    |tail| < 4 || 4 + U16(tail, 2) > |tail|
  }

  /** Options come back wherever the bytes stop after them. */
  lemma {:induction false} OptionsComeBack(options: seq<Opt>, tail: seq<byte>)
    requires Stops(tail) && forall o | o in options :: |o.data| <= 0xFFFF
    ensures DecodeOptions(OptionsBytes(options) + tail) == options
  {
    if options == [] {
      assert [] + tail == tail;
    } else {
      OptionsComeBack(options[1..], tail);
      OneOptionMore(options[0], options[1..], tail);
      assert options == [options[0]] + options[1..];
      WholeOption(options[0], OptionsBytes(options[1..]) + tail);
    }
  }

  lemma WholeOption(o: Opt, rest: seq<byte>)
    requires |o.data| <= 0xFFFF
    ensures DecodeOptions(OptionBytes(o) + rest) == [o] + DecodeOptions(rest)
  {
    FrontOption(o, rest);
    assert o.data[..|o.data|] == o.data && o.data[|o.data|..] + rest == rest;
  }

  /** And all bytes are of that form, for the options read from them. */
  lemma {:induction false} OptionsExplainBytes(b: seq<byte>) returns (tail: seq<byte>)
    ensures b == OptionsBytes(DecodeOptions(b)) + tail && Stops(tail)
  {
    if Stops(b) {
      tail := b;
      assert b == [] + b;
    } else {
      var n := U16(b, 2);
      var o, rest := Opt(U16(b, 0), b[4..4 + n]), b[4 + n..];
      tail := OptionsExplainBytes(rest);
      FrontBytes(b);
      OneOptionMore(o, DecodeOptions(rest), tail);
    }
  }

  lemma FrontBytes(b: seq<byte>)
    requires !Stops(b)
    ensures var n := U16(b, 2); b == OptionBytes(Opt(U16(b, 0), b[4..4 + n])) + b[4 + n..]
  {
    var n := U16(b, 2);
    assert b[..2] == Put16(U16(b, 0)) && b[2..4] == Put16(n);
    assert b == b[..2] + b[2..4] + b[4..4 + n] + b[4 + n..];
  }

  lemma OneOptionMore(o: Opt, options: seq<Opt>, tail: seq<byte>)
    ensures OptionBytes(o) + (OptionsBytes(options) + tail) == OptionsBytes([o] + options) + tail
  {
    assert ([o] + options)[1..] == options;
    assert OptionBytes(o) + (OptionsBytes(options) + tail) == OptionBytes(o) + OptionsBytes(options) + tail;
  }

  lemma {:induction false} DecodedOptionsFit(b: seq<byte>)
    ensures forall o | o in DecodeOptions(b) :: |o.data| <= 0xFFFF
  {
    if |b| >= 4 && 4 + U16(b, 2) <= |b| {
      DecodedOptionsFit(b[4 + U16(b, 2)..]);
    }
  }

  lemma DecodedIsEncodable(d: seq<byte>)
    ensures Decode(d).Ok? ==> Encodable(Decode(d).value)
  {
    if |d| >= 4 {
      DecodedOptionsFit(d[4..]);
    }
  }

  /** A message comes back unchanged exactly when its identifier has three bytes and its options fit their lengths. */
  lemma MessageRoundTrip(m: Message)
    ensures Decode(Encode(m)) == Ok(m) <==> Encodable(m)
  {
    DecodedIsEncodable(Encode(m));
    if Encodable(m) {
      assert Encode(m)[1..4] == m.transaction && Encode(m)[4..] == OptionsBytes(m.options);
      OptionsComeBack(m.options, []);
      assert OptionsBytes(m.options) + [] == OptionsBytes(m.options);
    }
  }

  /** Whatever bytes are accepted: encoding the message read from them and reading it again changes nothing. */
  lemma ReencodingIsStable(d: seq<byte>)
    requires Decode(d).Ok?
    ensures Decode(Encode(Decode(d).value)) == Decode(d)
  {
    DecodedIsEncodable(d);
    MessageRoundTrip(Decode(d).value);
  }

  lemma AddrComesBack(a: AddrInfo, nested: seq<byte>)
    requires |a.ip| == 16
    ensures AddrOf(AddrData(a) + nested) == a
  {
    var d := AddrData(a) + nested;
    assert d[..16] == a.ip && d[16..20] == Put32(a.preferred) && d[20..24] == Put32(a.valid);
    assert U32(d, 16) == U32(d[16..20], 0) && U32(d, 20) == U32(d[20..24], 0);
  }

  lemma {:induction false} AddrsComeBack(addrs: seq<AddrInfo>)
    requires forall a | a in addrs :: |a.ip| == 16
    ensures AddrsIn(AddrOptions(addrs)) == addrs
    ensures forall o | o in AddrOptions(addrs) :: |o.data| == 24
    ensures |OptionsBytes(AddrOptions(addrs))| == 28 * |addrs|
  {
    if addrs != [] {
      AddrComesBack(addrs[0], []);
      assert AddrData(addrs[0]) + [] == AddrData(addrs[0]);
      AddrsComeBack(addrs[1..]);
      assert AddrOptions(addrs)[1..] == AddrOptions(addrs[1..]);
    }
  }

  lemma IanaFields(iaid: u32, t1: u32, t2: u32, rest: seq<byte>)
    ensures var d := Put32(iaid) + Put32(t1) + Put32(t2) + rest;
            U32(d, 0) == iaid && U32(d, 4) == t1 && U32(d, 8) == t2 && d[12..] == rest
  {
    var d := Put32(iaid) + Put32(t1) + Put32(t2) + rest;
    assert d[..4] == Put32(iaid) && d[4..8] == Put32(t1) && d[8..12] == Put32(t2);
    assert U32(d, 0) == U32(d[..4], 0) && U32(d, 4) == U32(d[4..8], 0) && U32(d, 8) == U32(d[8..12], 0);
  }

  /** What a server puts into an IA_NA is read: the identifier, both timers and the addresses among the options, up to
      one that the bytes cut short. */
  lemma IanaIsRead(iaid: u32, t1: u32, t2: u32, options: seq<Opt>, tail: seq<byte>)
    requires Stops(tail) && forall o | o in options :: |o.data| <= 0xFFFF
    ensures DecodeIana(Put32(iaid) + Put32(t1) + Put32(t2) + (OptionsBytes(options) + tail))
            == Iana(iaid, t1, t2, AddrsIn(options))
  {
    OptionsComeBack(options, tail);
    IanaFields(iaid, t1, t2, OptionsBytes(options) + tail);
  }

  /** An address option gives its address, whatever else is nested in it; any other option, and one too short for an
      address, gives nothing; */
  lemma AddrsInOne(o: Opt)
    ensures o.code != IA_ADDR || |o.data| < 24 ==> AddrsIn([o]) == []
    ensures forall a: AddrInfo, nested: seq<byte> | |a.ip| == 16 && o == Opt(IA_ADDR, AddrData(a) + nested) ::
              AddrsIn([o]) == [a]
  {
    assert [o][1..] == [];
    forall a: AddrInfo, nested: seq<byte> | |a.ip| == 16 && o == Opt(IA_ADDR, AddrData(a) + nested)
      ensures AddrsIn([o]) == [a]
    {
      AddrComesBack(a, nested);
    }
  }

  /** and they are read in their order. */
  lemma {:induction false} AddrsConcat(s: seq<Opt>, t: seq<Opt>)
    ensures AddrsIn(s + t) == AddrsIn(s) + AddrsIn(t)
  {
    if s == [] {
      assert s + t == t;
    } else {
      AddrsConcat(s[1..], t);
      assert (s + t)[1..] == s[1..] + t;
      var first := if s[0].code == IA_ADDR && |s[0].data| >= 24 then [AddrOf(s[0].data)] else [];
      Appended(first, AddrsIn(s[1..]), AddrsIn(t));
    }
  }

  lemma Appended(s: seq<AddrInfo>, t: seq<AddrInfo>, u: seq<AddrInfo>)
    ensures s + (t + u) == s + t + u
  {
  }

  /** The contents of an IA_NA come back: the identifier, zero timers and every address in its place. */
  lemma IanaRoundTrip(iaid: u32, addrs: seq<AddrInfo>)
    requires forall a | a in addrs :: |a.ip| == 16
    ensures DecodeIana(IanaBytes(iaid, addrs)) == Iana(iaid, 0, 0, addrs)
    ensures |IanaBytes(iaid, addrs)| == 12 + 28 * |addrs|
  {
    AddrsComeBack(addrs);
    IanaIsRead(iaid, 0, 0, AddrOptions(addrs), []);
    assert Put32(0) + Put32(0) == Zeros(8);
    assert IanaBytes(iaid, addrs) == Put32(iaid) + Put32(0) + Put32(0) + (OptionsBytes(AddrOptions(addrs)) + []);
  }

  /** No option field holds more addresses than its bytes allow. */
  lemma {:induction false} AddrsNeedBytes(b: seq<byte>)
    ensures 28 * |AddrsIn(DecodeOptions(b))| <= |b|
  {
    if |b| >= 4 && 4 + U16(b, 2) <= |b| {
      AddrsNeedBytes(b[4 + U16(b, 2)..]);
      assert DecodeOptions(b)[1..] == DecodeOptions(b[4 + U16(b, 2)..]);
    }
  }

  // ---------------------------------------------------------------- the client's messages

  function OroData(): seq<byte> {
    Put16(DNS_SERVERS) + Put16(DOMAIN_LIST)
  }

  /** The message that a client in one of its four roles sends; only REBIND goes without a server. */
  function ClientMessage(kind: byte, transaction: seq<byte>, client: seq<byte>, server: seq<byte>, iaid: u32,
                         addrs: seq<AddrInfo>): Message
  {
    Message(kind, transaction,
            [Opt(CLIENT_ID, client)]
            + (if kind == REBIND then [] else [Opt(SERVER_ID, server)])
            + [Opt(IA_NA, IanaBytes(iaid, addrs))]
            + (if kind == RELEASE then [] else [Opt(ORO, OroData()), Opt(ELAPSED_TIME, [0, 0])]))
  }

  /** What a server reads from the bytes d of a client message. */
  ghost predicate Conveys(d: seq<byte>, kind: byte, transaction: seq<byte>, client: seq<byte>,
                          server: Option<seq<byte>>, iaid: u32, addrs: seq<AddrInfo>)
  {
    && Decode(d).Ok?
    && var m := Decode(d).value;
    && m.kind == kind && m.transaction == transaction
    && Lookup(m.options, CLIENT_ID) == Some(client)
    && Lookup(m.options, SERVER_ID) == server
    && Lookup(m.options, IA_NA).Some?
    && DecodeIana(Lookup(m.options, IA_NA).value) == Iana(iaid, 0, 0, addrs)
    && Asks(m)
  }

  /** All but a RELEASE ask for name servers and the domain search list, and say that they have just begun. */
  ghost predicate Asks(m: Message) {
    && Lookup(m.options, ORO) == (if m.kind == RELEASE then None else Some([0, 23, 0, 24]))
    && Lookup(m.options, ELAPSED_TIME) == (if m.kind == RELEASE then None else Some([0, 0]))
  }

  predicate ProperInputs(transaction: seq<byte>, client: seq<byte>, server: seq<byte>, addrs: seq<AddrInfo>) {
    && |transaction| == 3 && |client| <= 0xFFFF && |server| <= 0xFFFF
    && forall a | a in addrs :: |a.ip| == 16
  }

  lemma {:induction false} FirstIs(options: seq<Opt>, code: u16, i: nat)
    requires i < |options| && options[i].code == code && forall k | 0 <= k < i :: options[k].code != code
    ensures Lookup(options, code) == Some(options[i].data)
  {
    if i > 0 { FirstIs(options[1..], code, i - 1); }
  }

  lemma {:induction false} NotThere(options: seq<Opt>, code: u16)
    requires forall k | 0 <= k < |options| :: options[k].code != code
    ensures Lookup(options, code) == None
  {
    if options != [] { NotThere(options[1..], code); }
  }

  /** Where the options of a client message stand. */
  lemma ClientOptions(kind: byte, transaction: seq<byte>, client: seq<byte>, server: seq<byte>, iaid: u32,
                      addrs: seq<AddrInfo>)
    ensures var options := ClientMessage(kind, transaction, client, server, iaid, addrs).options;
            && Lookup(options, CLIENT_ID) == Some(client)
            && Lookup(options, SERVER_ID) == (if kind == REBIND then None else Some(server))
            && Lookup(options, IA_NA) == Some(IanaBytes(iaid, addrs))
            && Asks(ClientMessage(kind, transaction, client, server, iaid, addrs))
            && forall o | o in options :: o.data in {client, server, IanaBytes(iaid, addrs)} || |o.data| <= 4
  {
    var options := ClientMessage(kind, transaction, client, server, iaid, addrs).options;
    if kind == RELEASE {
      NotThere(options, ORO);
      NotThere(options, ELAPSED_TIME);
    } else {
      assert OroData() == [0, 23, 0, 24];
      FirstIs(options, ORO, |options| - 2);
      FirstIs(options, ELAPSED_TIME, |options| - 1);
    }
    FirstIs(options, CLIENT_ID, 0);
    if kind == REBIND {
      NotThere(options, SERVER_ID);
      FirstIs(options, IA_NA, 1);
    } else {
      FirstIs(options, SERVER_ID, 1);
      FirstIs(options, IA_NA, 2);
    }
  }

  /** Up to 2340 addresses, the limit of the sixteen-bit option length, everything the message says arrives. */
  lemma MessageConveys(kind: byte, transaction: seq<byte>, client: seq<byte>, server: seq<byte>, iaid: u32,
                       addrs: seq<AddrInfo>)
    requires ProperInputs(transaction, client, server, addrs) && |addrs| <= MAX_ADDRS
    ensures Conveys(Encode(ClientMessage(kind, transaction, client, server, iaid, addrs)), kind, transaction, client,
                    if kind == REBIND then None else Some(server), iaid, addrs)
  {
    IanaRoundTrip(iaid, addrs);
    ClientOptions(kind, transaction, client, server, iaid, addrs);
    MessageRoundTrip(ClientMessage(kind, transaction, client, server, iaid, addrs));
  }

  /** Beyond it the option length wraps around and addresses are lost, whatever they are. */
  lemma TooManyAddresses(kind: byte, transaction: seq<byte>, client: seq<byte>, server: seq<byte>, iaid: u32,
                         addrs: seq<AddrInfo>)
    requires ProperInputs(transaction, client, server, addrs) && |addrs| > MAX_ADDRS
    ensures !Conveys(Encode(ClientMessage(kind, transaction, client, server, iaid, addrs)), kind, transaction, client,
                     if kind == REBIND then None else Some(server), iaid, addrs)
  {
    var d := Encode(ClientMessage(kind, transaction, client, server, iaid, addrs));
    var found := Lookup(Decode(d).value.options, IA_NA);
    if found.Some? {
      FoundFits(d[4..], IA_NA);
      var data := found.value;
      if |data| >= 12 {
        AddrsNeedBytes(data[12..]);
      }
    }
  }

  lemma FoundFits(b: seq<byte>, code: u16)
    ensures var found := Lookup(DecodeOptions(b), code); found.Some? ==> |found.value| <= 0xFFFF
  {
    DecodedOptionsFit(b);
    LookupFinds(DecodeOptions(b), code);
  }

  lemma {:induction false} LookupFinds(options: seq<Opt>, code: u16)
    ensures Lookup(options, code).Some? ==> Opt(code, Lookup(options, code).value) in options
  {
    if options != [] {
      if options[0].code == code {
        assert options[0] == Opt(code, options[0].data);
      } else {
        LookupFinds(options[1..], code);
      }
    }
  }

  /** The exact range in which a client message conveys its contents. */
  lemma ConveysUpToTheLimit(kind: byte, transaction: seq<byte>, client: seq<byte>, server: seq<byte>, iaid: u32,
                            addrs: seq<AddrInfo>)
    requires ProperInputs(transaction, client, server, addrs)
    ensures Conveys(Encode(ClientMessage(kind, transaction, client, server, iaid, addrs)), kind, transaction, client,
                    if kind == REBIND then None else Some(server), iaid, addrs)
            <==> |addrs| <= MAX_ADDRS
  {
    if |addrs| <= MAX_ADDRS {
      MessageConveys(kind, transaction, client, server, iaid, addrs);
    } else {
      TooManyAddresses(kind, transaction, client, server, iaid, addrs);
    }
  }

  // ---------------------------------------------------------------- the code

  /** marshalV6Option, filled in place. */
  method MarshalOption(o: Opt) returns (r: seq<byte>)
    ensures r == OptionBytes(o)
  {
    var buf := new byte[4 + |o.data|](_ => 0);
    CopyInto(buf, 0, Put16(o.code));
    CopyInto(buf, 2, Put16(Low16(|o.data|)));
    CopyInto(buf, 4, o.data);
    r := buf[..];
    assert r[..2] == Put16(o.code) && r[2..4] == Put16(Low16(|o.data|)) && r[4..] == o.data;
    assert r == r[..2] + r[2..4] + r[4..];
  }

  lemma {:induction false} OptionsBytesSnoc(options: seq<Opt>, i: nat)
    requires i < |options|
    ensures OptionsBytes(options[..i + 1]) == OptionsBytes(options[..i]) + OptionBytes(options[i])
    decreases i
  {
    if i == 0 {
      assert options[..1][1..] == [] && options[..0] == [];
    } else {
      OptionsBytesSnoc(options[1..], i - 1);
      assert options[..i + 1][1..] == options[1..][..i] && options[..i][1..] == options[1..][..i - 1];
    }
  }

  /** What one more option adds to a buffer. */
  lemma OneMore(header: seq<byte>, options: seq<Opt>, i: nat)
    requires i < |options|
    ensures header + OptionsBytes(options[..i]) + OptionBytes(options[i]) == header + OptionsBytes(options[..i + 1])
  {
    OptionsBytesSnoc(options, i);
  }

  method Marshal(m: Message) returns (buf: seq<byte>)
    ensures buf == Encode(m)
  {
    buf := [m.kind] + Fit(m.transaction, 3);
    ghost var header := buf;
    assert m.options[..0] == [];
    for i := 0 to |m.options|
      invariant buf == header + OptionsBytes(m.options[..i])
    {
      OneMore(header, m.options, i);
      var option := MarshalOption(m.options[i]);
      buf := buf + option;
    }
    assert m.options[..|m.options|] == m.options;
  }

  /** The options from offset i on, without cutting the bytes. */
  function DecodeFrom(data: seq<byte>, i: nat): seq<Opt>
    requires i <= |data|
    decreases |data| - i
  {
    if i + 4 > |data| || i + 4 + U16(data, i + 2) > |data| then []
    else [Opt(U16(data, i), data[i + 4..i + 4 + U16(data, i + 2)])] + DecodeFrom(data, i + 4 + U16(data, i + 2))
  }

  lemma {:induction false} DecodeFromIs(data: seq<byte>, i: nat)
    requires i <= |data|
    ensures DecodeFrom(data, i) == DecodeOptions(data[i..])
    decreases |data| - i
  {
    if i + 4 > |data| || i + 4 + U16(data, i + 2) > |data| {
      NoOptionAt(data, i);
    } else {
      DecodeFromIs(data, i + 4 + U16(data, i + 2));
      OptionAt(data, i);
    }
  }

  lemma NoOptionAt(data: seq<byte>, i: nat)
    requires i <= |data| && (i + 4 > |data| || i + 4 + U16(data, i + 2) > |data|)
    ensures DecodeOptions(data[i..]) == []
  {
    if i + 4 <= |data| {
      WordsOf(data, i);
    }
  }

  lemma OptionAt(data: seq<byte>, i: nat)
    requires i + 4 <= |data| && i + 4 + U16(data, i + 2) <= |data|
    ensures var n := U16(data, i + 2);
            DecodeOptions(data[i..])
            == [Opt(U16(data, i), data[i + 4..i + 4 + n])] + DecodeOptions(data[i + 4 + n..])
  {
    var n := U16(data, i + 2);
    WordsOf(data, i);
    SlicesOf(data, i, 4, n);
    FirstOption(data[i..], data[i + 4..i + 4 + n], data[i + 4 + n..]);
  }

  lemma WordsOf(data: seq<byte>, i: nat)
    requires i + 4 <= |data|
    ensures U16(data[i..], 0) == U16(data, i) && U16(data[i..], 2) == U16(data, i + 2)
  {
  }

  lemma FirstOption(b: seq<byte>, data: seq<byte>, rest: seq<byte>)
    requires |b| >= 4 && 4 + U16(b, 2) <= |b|
    requires b[4..4 + U16(b, 2)] == data && b[4 + U16(b, 2)..] == rest
    ensures DecodeOptions(b) == [Opt(U16(b, 0), data)] + DecodeOptions(rest)
  {
  }

  lemma SlicesOf(data: seq<byte>, i: nat, k: nat, n: nat)
    requires i + k + n <= |data|
    ensures data[i..][k..k + n] == data[i + k..i + k + n] && data[i..][k + n..] == data[i + k + n..]
  {
  }

  method ParseV6Message(data: seq<byte>) returns (r: Result<Message, ParseError>)
    ensures r == Decode(data)
  {
    if |data| < 4 {
      return Err(TooShort);
    }
    var options := ParseOptions(data, 4);
    return Ok(Message(data[0], data[1..4], options));
  }

  lemma Snoc<T>(done: seq<T>, o: T, rest: seq<T>)
    ensures done + ([o] + rest) == done + [o] + rest
  {
  }

  /** One turn of an option loop: the option at the offset and where the next one starts, unless the bytes end first. */
  method ParseOne(data: seq<byte>, offset: nat) returns (more: bool, o: Opt, next: nat)
    requires offset <= |data|
    ensures !more ==> DecodeFrom(data, offset) == []
    ensures more ==> offset < next <= |data| && DecodeFrom(data, offset) == [o] + DecodeFrom(data, next)
  {
    more, o, next := false, Opt(0, []), offset;
    if offset + 4 <= |data| {
      var code := U16(data, offset);
      var length := U16(data, offset + 2);
      next := offset + 4;
      if next + length > |data| {
        return;
      }
      more, o, next := true, Opt(code, data[next..next + length]), next + length;
    }
  }

  method ParseOptions(data: seq<byte>, start: nat) returns (options: seq<Opt>)
    requires start <= |data|
    ensures options == DecodeOptions(data[start..])
  {
    DecodeFromIs(data, start);
    options := [];
    var more, o, offset := ParseOne(data, start);
    ghost var at := start;
    while more
      invariant at <= |data|
      invariant options + DecodeFrom(data, at) == DecodeFrom(data, start)
      invariant !more ==> DecodeFrom(data, at) == []
      invariant more ==> at < offset <= |data| && DecodeFrom(data, at) == [o] + DecodeFrom(data, offset)
      decreases |data| - at, more
    {
      Snoc(options, o, DecodeFrom(data, offset));
      options := options + [o];
      at := offset;
      more, o, offset := ParseOne(data, offset);
    }
  }

  method AppendAddrs(header: seq<byte>, addrs: seq<AddrInfo>) returns (buf: seq<byte>)
    ensures buf == header + OptionsBytes(AddrOptions(addrs))
  {
    buf := header;
    ghost var options := AddrOptions(addrs);
    assert options[..0] == [];
    for i := 0 to |addrs|
      invariant buf == header + OptionsBytes(options[..i])
    {
      OneMore(header, options, i);
      var option := MarshalOption(Opt(IA_ADDR, AddrData(addrs[i])));
      buf := buf + option;
    }
    assert options[..|addrs|] == options;
  }

  /** buildIANA. */
  method BuildIana(iaid: u32, addrs: seq<AddrInfo>) returns (buf: seq<byte>)
    ensures buf == IanaBytes(iaid, addrs)
    ensures (forall a | a in addrs :: |a.ip| == 16) ==> DecodeIana(buf) == Iana(iaid, 0, 0, addrs)
  {
    buf := AppendAddrs(Put32(iaid) + Zeros(8), addrs);
    if forall a | a in addrs :: |a.ip| == 16 {
      IanaRoundTrip(iaid, addrs);
    }
  }

  /** parseIANA. */
  method ParseIana(data: seq<byte>) returns (r: Iana)
    ensures r == DecodeIana(data)
  {
    if |data| < 12 {
      return Iana(0, 0, 0, []);
    }
    var addrs := ParseAddrs(data, 12);
    return Iana(U32(data, 0), U32(data, 4), U32(data, 8), addrs);
  }

  /** The option loop of parseIANA. */
  method ParseAddrs(data: seq<byte>, start: nat) returns (addrs: seq<AddrInfo>)
    requires start <= |data|
    ensures addrs == AddrsIn(DecodeOptions(data[start..]))
  {
    DecodeFromIs(data, start);
    addrs := [];
    var more, o, offset := ParseOne(data, start);
    ghost var at := start;
    while more
      invariant at <= |data|
      invariant addrs + AddrsIn(DecodeFrom(data, at)) == AddrsIn(DecodeFrom(data, start))
      invariant !more ==> DecodeFrom(data, at) == []
      invariant more ==> at < offset <= |data| && DecodeFrom(data, at) == [o] + DecodeFrom(data, offset)
      decreases |data| - at, more
    {
      AddrsInFront(o, DecodeFrom(data, offset));
      if o.code == IA_ADDR && |o.data| >= 24 {
        Snoc(addrs, AddrOf(o.data), AddrsIn(DecodeFrom(data, offset)));
        addrs := addrs + [AddrInfo(o.data[..16], U32(o.data, 16), U32(o.data, 20))];
      }
      at := offset;
      more, o, offset := ParseOne(data, offset);
    }
  }

  lemma AddrsInFront(o: Opt, rest: seq<Opt>)
    ensures AddrsIn([o] + rest) ==
            (if o.code == IA_ADDR && |o.data| >= 24 then [AddrOf(o.data)] + AddrsIn(rest) else AddrsIn(rest))
  {
    assert ([o] + rest)[1..] == rest;
  }

  /** The same options, listed one by one and as ClientMessage lists them. */
  lemma Listed<T>(c: T, s: T, i: T, o: T, e: T)
    ensures [c] + [s] + [i] + [o] + [e] == [c] + [s] + [i] + [o, e]
    ensures [c] + [i] + [o] + [e] == [c] + [] + [i] + [o, e]
    ensures [c] + [s] + [i] == [c] + [s] + [i] + []
  {
  }

  method BuildRequestV6(client: seq<byte>, server: seq<byte>, iaid: u32, transaction: seq<byte>, addrs: seq<AddrInfo>)
    returns (d: seq<byte>)
    ensures ProperInputs(transaction, client, server, addrs) ==>
              (Conveys(d, REQUEST, transaction, client, Some(server), iaid, addrs) <==> |addrs| <= MAX_ADDRS)
  {
    var options := [Opt(CLIENT_ID, client)];
    options := options + [Opt(SERVER_ID, server)];
    var iana := BuildIana(iaid, addrs);
    options := options + [Opt(IA_NA, iana)];
    options := options + [Opt(ORO, OroData())];
    options := options + [Opt(ELAPSED_TIME, [0, 0])];
    Listed(Opt(CLIENT_ID, client), Opt(SERVER_ID, server), Opt(IA_NA, iana),
           Opt(ORO, OroData()), Opt(ELAPSED_TIME, [0, 0]));
    assert Message(REQUEST, transaction, options) == ClientMessage(REQUEST, transaction, client, server, iaid, addrs);
    d := Marshal(Message(REQUEST, transaction, options));
    if ProperInputs(transaction, client, server, addrs) {
      ConveysUpToTheLimit(REQUEST, transaction, client, server, iaid, addrs);
    }
  }

  method BuildRenewV6(client: seq<byte>, server: seq<byte>, iaid: u32, transaction: seq<byte>, addrs: seq<AddrInfo>)
    returns (d: seq<byte>)
    ensures ProperInputs(transaction, client, server, addrs) ==>
              (Conveys(d, RENEW, transaction, client, Some(server), iaid, addrs) <==> |addrs| <= MAX_ADDRS)
  {
    var options := [Opt(CLIENT_ID, client)];
    options := options + [Opt(SERVER_ID, server)];
    var iana := BuildIana(iaid, addrs);
    options := options + [Opt(IA_NA, iana)];
    options := options + [Opt(ORO, OroData())];
    options := options + [Opt(ELAPSED_TIME, [0, 0])];
    Listed(Opt(CLIENT_ID, client), Opt(SERVER_ID, server), Opt(IA_NA, iana),
           Opt(ORO, OroData()), Opt(ELAPSED_TIME, [0, 0]));
    assert Message(RENEW, transaction, options) == ClientMessage(RENEW, transaction, client, server, iaid, addrs);
    d := Marshal(Message(RENEW, transaction, options));
    if ProperInputs(transaction, client, server, addrs) {
      ConveysUpToTheLimit(RENEW, transaction, client, server, iaid, addrs);
    }
  }

  /** Without a server identifier, so that any server can answer. */
  method BuildRebindV6(client: seq<byte>, iaid: u32, transaction: seq<byte>, addrs: seq<AddrInfo>)
    returns (d: seq<byte>)
    ensures ProperInputs(transaction, client, [], addrs) ==>
              (Conveys(d, REBIND, transaction, client, None, iaid, addrs) <==> |addrs| <= MAX_ADDRS)
  {
    var options := [Opt(CLIENT_ID, client)];
    var iana := BuildIana(iaid, addrs);
    options := options + [Opt(IA_NA, iana)];
    options := options + [Opt(ORO, OroData())];
    options := options + [Opt(ELAPSED_TIME, [0, 0])];
    Listed(Opt(CLIENT_ID, client), Opt(SERVER_ID, []), Opt(IA_NA, iana),
           Opt(ORO, OroData()), Opt(ELAPSED_TIME, [0, 0]));
    assert Message(REBIND, transaction, options) == ClientMessage(REBIND, transaction, client, [], iaid, addrs);
    d := Marshal(Message(REBIND, transaction, options));
    if ProperInputs(transaction, client, [], addrs) {
      ConveysUpToTheLimit(REBIND, transaction, client, [], iaid, addrs);
    }
  }

  method BuildReleaseV6(client: seq<byte>, server: seq<byte>, iaid: u32, transaction: seq<byte>, addrs: seq<AddrInfo>)
    returns (d: seq<byte>)
    ensures ProperInputs(transaction, client, server, addrs) ==>
              (Conveys(d, RELEASE, transaction, client, Some(server), iaid, addrs) <==> |addrs| <= MAX_ADDRS)
  {
    var options := [Opt(CLIENT_ID, client)];
    options := options + [Opt(SERVER_ID, server)];
    var iana := BuildIana(iaid, addrs);
    options := options + [Opt(IA_NA, iana)];
    Listed(Opt(CLIENT_ID, client), Opt(SERVER_ID, server), Opt(IA_NA, iana),
           Opt(ORO, OroData()), Opt(ELAPSED_TIME, [0, 0]));
    assert Message(RELEASE, transaction, options) == ClientMessage(RELEASE, transaction, client, server, iaid, addrs);
    d := Marshal(Message(RELEASE, transaction, options));
    if ProperInputs(transaction, client, server, addrs) {
      ConveysUpToTheLimit(RELEASE, transaction, client, server, iaid, addrs);
    }
  }
}
