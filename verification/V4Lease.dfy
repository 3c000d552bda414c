/** Reading a DHCPv4 lease from an acknowledgement, and renewing one (RFC 2131 section 4.3.1). */
module V4Lease {
  import opened Wrappers
  import opened Bytes
  import opened Leases
  import opened PacketV4

  const SUBNET_MASK: byte := 1
  const ROUTER: byte := 3
  const DNS: byte := 6
  const DOMAIN_NAME: byte := 15
  const LEASE_TIME: byte := 51
  const SERVER_ID: byte := 54
  const RENEWAL_TIME: byte := 58
  const REBINDING_TIME: byte := 59

  const DEFAULT_MASK: seq<byte> := [255, 255, 255, 0]
  const DEFAULT_LEASE_TIME: u32 := 86400
  const UNSPECIFIED: seq<byte> := [0, 0, 0, 0]

  // ---------------------------------------------------------------- what an acknowledgement says

  /** The option's data; the empty sequence when it is absent. */
  function OptionData(ack: Packet, code: byte): seq<byte> {
    match Lookup(ack.options, code)
    case Some(data) => data
    case None => []
  }

  /** The acknowledgement names the client's address. */
  predicate NamesAddress(ack: Packet) {
    To4(ack.yiaddr) != [] && To4(ack.yiaddr) != UNSPECIFIED
  }

  function Timer(ack: Packet, code: byte, otherwise: u32): u32 {
    var data := OptionData(ack, code);
    if |data| == 4 then U32(data, 0) else otherwise
  }

  /** `base` with whatever the acknowledgement says in its place. */
  function Overlay(base: Lease, ack: Packet, now: Time): Lease {
    var mask, router, dns := OptionData(ack, SUBNET_MASK), OptionData(ack, ROUTER), OptionData(ack, DNS);
    var domain, server := OptionData(ack, DOMAIN_NAME), OptionData(ack, SERVER_ID);
    Lease(if NamesAddress(ack) then ack.yiaddr else base.ip,
          if |mask| == 4 then mask else base.mask,
          if |router| >= 4 then router[..4] else base.router,
          if |dns| >= 4 then Groups(dns, 0, 4) else base.dns,
          if |domain| > 0 then domain else base.domain,
          if |server| == 4 then server else base.server,
          Timer(ack, LEASE_TIME, base.leaseTime), Timer(ack, RENEWAL_TIME, base.renewTime),
          Timer(ack, REBINDING_TIME, base.rebindTime), now)
  }

  /** A first lease stands on the defaults, and takes the address even when it is unspecified. */
  function FirstLease(ack: Packet, now: Time): Lease {
    Overlay(Lease(ack.yiaddr, DEFAULT_MASK, [], [], [], [], DEFAULT_LEASE_TIME, 0, 0, now), ack, now)
  }

  /** The first option of the acknowledgement with this code holds this. */
  ghost predicate Sends(ack: Packet, code: byte, data: seq<byte>) {
    exists i: nat :: FirstAt(ack.options, code, i) && ack.options[i].data == data
  }

  lemma SentIsFound(ack: Packet, code: byte)
    ensures forall d | Sends(ack, code, d) :: OptionData(ack, code) == d
    ensures OptionData(ack, code) != [] ==> Sends(ack, code, OptionData(ack, code))
  {
    LookupIs(ack.options, code);
  }

  /** What the server sends is what the lease says: the address, a mask and a server of four bytes, the first four bytes
      of at least one router, name servers and a domain when there are any; */
  lemma LeaseSays(base: Lease, ack: Packet, now: Time)
    ensures var l := Overlay(base, ack, now);
            && l.acquiredAt == now
            && (|ack.yiaddr| == 4 && ack.yiaddr != UNSPECIFIED ==> l.ip == ack.yiaddr)
            && (forall d | Sends(ack, SUBNET_MASK, d) && |d| == 4 :: l.mask == d)
            && (forall d | Sends(ack, ROUTER, d) && |d| >= 4 :: l.router == d[..4])
            && (forall d | Sends(ack, SERVER_ID, d) && |d| == 4 :: l.server == d)
            && (forall d | Sends(ack, DOMAIN_NAME, d) && d != [] :: l.domain == d)
            && (forall d | Sends(ack, DNS, d) && |d| >= 4 :: l.dns == Groups(d, 0, 4))
  {
    SentIsFound(ack, SUBNET_MASK);
    SentIsFound(ack, ROUTER);
    SentIsFound(ack, SERVER_ID);
    SentIsFound(ack, DOMAIN_NAME);
    SentIsFound(ack, DNS);
  }

  /** the three times; */
  lemma LeaseTimes(base: Lease, ack: Packet, now: Time)
    ensures var l := Overlay(base, ack, now);
            && (forall t: u32 | Sends(ack, LEASE_TIME, Put32(t)) :: l.leaseTime == t)
            && (forall t: u32 | Sends(ack, RENEWAL_TIME, Put32(t)) :: l.renewTime == t)
            && (forall t: u32 | Sends(ack, REBINDING_TIME, Put32(t)) :: l.rebindTime == t)
  {
    SentIsFound(ack, LEASE_TIME);
    SentIsFound(ack, RENEWAL_TIME);
    SentIsFound(ack, REBINDING_TIME);
  }

  /** and what the server does not send, or not in that form, is as it was. */
  lemma LeaseKeeps(base: Lease, ack: Packet, now: Time)
    ensures var l := Overlay(base, ack, now);
            && (ack.yiaddr == UNSPECIFIED ==> l.ip == base.ip)
            && ((forall d | Sends(ack, SUBNET_MASK, d) :: |d| != 4) ==> l.mask == base.mask)
            && ((forall d | Sends(ack, ROUTER, d) :: |d| < 4) ==> l.router == base.router)
            && ((forall d | Sends(ack, SERVER_ID, d) :: |d| != 4) ==> l.server == base.server)
            && ((forall d | Sends(ack, DOMAIN_NAME, d) :: d == []) ==> l.domain == base.domain)
            && ((forall d | Sends(ack, DNS, d) :: |d| < 4) ==> l.dns == base.dns)
            && ((forall d | Sends(ack, LEASE_TIME, d) :: |d| != 4) ==> l.leaseTime == base.leaseTime)
            && ((forall d | Sends(ack, RENEWAL_TIME, d) :: |d| != 4) ==> l.renewTime == base.renewTime)
            && ((forall d | Sends(ack, REBINDING_TIME, d) :: |d| != 4) ==> l.rebindTime == base.rebindTime)
  {
    SentIsFound(ack, SUBNET_MASK);
    SentIsFound(ack, ROUTER);
    SentIsFound(ack, SERVER_ID);
    SentIsFound(ack, DOMAIN_NAME);
    SentIsFound(ack, DNS);
    SentIsFound(ack, LEASE_TIME);
    SentIsFound(ack, RENEWAL_TIME);
    SentIsFound(ack, REBINDING_TIME);
  }

  /** A first lease from an acknowledgement that leaves out everything: a /24, one day, no timers. */
  lemma FirstLeaseDefaults(ack: Packet, now: Time)
    requires ack.options == []
    ensures FirstLease(ack, now) == Lease(ack.yiaddr, [255, 255, 255, 0], [], [], [], [], 24 * 60 * 60, 0, 0, now)
  {
    assert forall code :: Lookup(ack.options, code) == None;
  }

  /** Renewing never forgets: a router, a server and name servers once known stay known. */
  lemma RenewalNeverForgets(previous: Lease, ack: Packet, now: Time)
    ensures var renewed := Overlay(previous, ack, now);
            && (previous.router != [] ==> renewed.router != [])
            && (previous.server != [] ==> renewed.server != [])
            && (previous.domain != [] ==> renewed.domain != [])
            && (previous.dns != [] ==> renewed.dns != [])
  {
    if |OptionData(ack, DNS)| >= 4 {
      assert Groups(OptionData(ack, DNS), 0, 4) != [];
    }
  }

  /** An acknowledgement that leaves out everything changes nothing but the moment of acquisition, and hearing the
      same acknowledgement again changes nothing either. */
  lemma SilenceRenews(previous: Lease, ack: Packet, now: Time)
    ensures ack.options == [] && !NamesAddress(ack) ==> Overlay(previous, ack, now) == previous.(acquiredAt := now)
    ensures Overlay(Overlay(previous, ack, now), ack, now) == Overlay(previous, ack, now)
  {
    if ack.options == [] {
      assert forall code :: Lookup(ack.options, code) == None;
    }
  }

  // ---------------------------------------------------------------- the code

  method ParseLease(ack: Packet, now: Time) returns (lease: Lease)
    ensures lease == FirstLease(ack, now)
  {
    var mask := DEFAULT_MASK;
    if |OptionData(ack, SUBNET_MASK)| == 4 {
      mask := OptionData(ack, SUBNET_MASK);
    }
    var router := [];
    if |OptionData(ack, ROUTER)| >= 4 {
      router := OptionData(ack, ROUTER)[..4];
    }
    var dns := [];
    if |OptionData(ack, DNS)| >= 4 {
      dns := SplitGroups(OptionData(ack, DNS), 4);
    }
    var domain := OptionData(ack, DOMAIN_NAME);
    var server := [];
    if |OptionData(ack, SERVER_ID)| == 4 {
      server := OptionData(ack, SERVER_ID);
    }
    var leaseTime := ReadTimer(ack, LEASE_TIME, DEFAULT_LEASE_TIME);
    var renewTime := ReadTimer(ack, RENEWAL_TIME, 0);
    var rebindTime := ReadTimer(ack, REBINDING_TIME, 0);
    lease := Lease(ack.yiaddr, mask, router, dns, domain, server, leaseTime, renewTime, rebindTime, now);
  }

  method ReadTimer(ack: Packet, code: byte, otherwise: u32) returns (t: u32)
    ensures t == Timer(ack, code, otherwise)
  {
    t := otherwise;
    var data := OptionData(ack, code);
    if |data| == 4 {
      t := U32(data, 0);
    }
  }

  /** Parses as for a first lease, then puts back what the acknowledgement left out. */
  method ParseRenewedLease(ack: Packet, previous: Option<Lease>, now: Time) returns (lease: Lease)
    ensures lease == if previous.Some? then Overlay(previous.value, ack, now) else FirstLease(ack, now)
  {
    lease := ParseLease(ack, now);
    if previous.None? {
      return;
    }
    var known := previous.value;
    var ip, mask, router, dns := lease.ip, lease.mask, lease.router, lease.dns;
    var domain, server := lease.domain, lease.server;
    var leaseTime, renewTime, rebindTime := lease.leaseTime, lease.renewTime, lease.rebindTime;
    if To4(ack.yiaddr) == [] || To4(ack.yiaddr) == UNSPECIFIED {
      ip := known.ip;
    }
    if |OptionData(ack, SUBNET_MASK)| != 4 {
      mask := known.mask;
    }
    if |OptionData(ack, ROUTER)| < 4 {
      router := known.router;
    }
    if |OptionData(ack, DNS)| < 4 {
      dns := known.dns;
    }
    if |OptionData(ack, DOMAIN_NAME)| == 0 {
      domain := known.domain;
    }
    if |OptionData(ack, SERVER_ID)| != 4 {
      server := known.server;
    }
    if |OptionData(ack, LEASE_TIME)| != 4 {
      leaseTime := known.leaseTime;
    }
    if |OptionData(ack, RENEWAL_TIME)| != 4 {
      renewTime := known.renewTime;
    }
    if |OptionData(ack, REBINDING_TIME)| != 4 {
      rebindTime := known.rebindTime;
    }
    lease := Lease(ip, mask, router, dns, domain, server, leaseTime, renewTime, rebindTime, now);
  }
}
