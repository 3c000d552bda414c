/** Reading a DHCPv6 lease from a reply, and renewing one (RFC 8415 section 18.2.10.1). */
module V6Lease {
  import opened Wrappers
  import opened Bytes
  import opened Leases
  import opened PacketV6

  datatype Failure = MalformedIana | WrongIaid | BadLifetimes | NoAddresses

  // ---------------------------------------------------------------- what a reply says

  function Offered(m: Message): seq<AddrInfo> {
    match Lookup(m.options, IA_NA)
    case Some(data) => DecodeIana(data).addrs
    case None => []
  }

  /** The addresses a reply mentions, whether it grants or withdraws them. */
  function Named(addrs: seq<AddrInfo>): set<seq<byte>> {
    set i | 0 <= i < |addrs| :: addrs[i].ip
  }

  /** Addresses with a zero valid lifetime are withdrawn. */
  function Granted(addrs: seq<AddrInfo>): seq<V6Addr> {
    if addrs == [] then []
    else (if addrs[0].valid == 0 then [] else [V6Addr(addrs[0].ip, 128, addrs[0].preferred, addrs[0].valid)])
         + Granted(addrs[1..])
  }

  predicate Acceptable(a: AddrInfo) {
    a.valid == 0 || a.preferred <= a.valid
  }

  function ReplyFailure(m: Message, iaid: u32): Option<Failure> {
    match Lookup(m.options, IA_NA)
    case None => None
    case Some(data) =>
      if |data| < 12 then Some(MalformedIana)
      else if DecodeIana(data).iaid != iaid then Some(WrongIaid)
      else if exists a | a in DecodeIana(data).addrs :: !Acceptable(a) then Some(BadLifetimes)
      else None
  }

  function ReplyLease(m: Message, server: seq<byte>, iaid: u32, client: seq<byte>, now: Time): LeaseV6 {
    var iana := match Lookup(m.options, IA_NA) case Some(data) => DecodeIana(data) case None => Iana(0, 0, 0, []);
    var dns := match Lookup(m.options, DNS_SERVERS) case Some(data) => Groups(data, 0, 16) case None => [];
    LeaseV6(Granted(iana.addrs), dns, server, client, iaid, iana.t1, iana.t2, now)
  }

  /** An IA_NA of another identity association is refused; one of this gives the lease its timers and the addresses that
      are offered. */
  lemma ReplySays(m: Message, server: seq<byte>, iaid: u32, client: seq<byte>, now: Time,
                  sent: u32, t1: u32, t2: u32, options: seq<Opt>, tail: seq<byte>)
    requires Stops(tail) && forall o | o in options :: |o.data| <= 0xFFFF
    requires Lookup(m.options, IA_NA)
             == Some(Put32(sent) + Put32(t1) + Put32(t2) + (OptionsBytes(options) + tail))
    ensures Offered(m) == AddrsIn(options)
    ensures ReplyFailure(m, iaid) == Some(WrongIaid) <==> sent != iaid
    ensures ReplyFailure(m, iaid) == Some(BadLifetimes)
            <==> sent == iaid && exists a | a in AddrsIn(options) :: 0 < a.valid < a.preferred
    ensures var l := ReplyLease(m, server, iaid, client, now);
            && l.renewTime == t1 && l.rebindTime == t2 && l.addresses == Granted(AddrsIn(options))
            && l.server == server && l.client == client && l.iaid == iaid && l.acquiredAt == now
  {
    IanaIsRead(sent, t1, t2, options, tail);
  }

  /** An IA_NA too short for its identifier and timers is refused; a reply without one offers nothing. */
  lemma ShortReplyFails(m: Message, iaid: u32)
    ensures ReplyFailure(m, iaid) == Some(MalformedIana)
            <==> Lookup(m.options, IA_NA).Some? && |Lookup(m.options, IA_NA).value| < 12
    ensures Lookup(m.options, IA_NA).None? ==> Offered(m) == [] && ReplyFailure(m, iaid).None?
  {
  }

  /** The name servers come back from the option that lists them, 16 bytes each. */
  lemma ReplyNameservers(m: Message, server: seq<byte>, iaid: u32, client: seq<byte>, now: Time, data: seq<byte>)
    requires Lookup(m.options, DNS_SERVERS) == Some(data)
    ensures var dns := ReplyLease(m, server, iaid, client, now).dns;
            |dns| == |data| / 16 && forall k: nat | k < |dns| :: dns[k] == data[16 * k..16 * k + 16]
  {
    GroupsAre(data, 16, 0);
    forall k: nat | k < |data| / 16
      ensures Groups(data, 0, 16)[k] == data[16 * k..16 * k + 16]
    {
      GroupsAre(data, 16, k);
    }
  }

  /** The longest duration a difference of two times can give. */
  const MAX_DURATION: int := 0x7FFF_FFFF_FFFF_FFFF

  /** Whole seconds from `acquiredAt` to `now`, rounded up; nothing when the clock went backwards or the first instant
      is not known. */
  function Elapsed(acquiredAt: Time, now: Time): (r: nat)
    ensures acquiredAt == ZERO_TIME || now <= acquiredAt ==> r == 0
    ensures acquiredAt != ZERO_TIME && acquiredAt < now <= acquiredAt + MAX_DURATION
            ==> (r - 1) * SECOND < now - acquiredAt <= r * SECOND
    ensures acquiredAt != ZERO_TIME && now > acquiredAt + MAX_DURATION ==> r > 0xFFFF_FFFF
  {
    if acquiredAt == ZERO_TIME || now <= acquiredAt then 0
    else
      var d := if now - acquiredAt > MAX_DURATION then MAX_DURATION else now - acquiredAt;
      d / SECOND + if d % SECOND != 0 then 1 else 0
  }

  /** What is left of an address after so many seconds, in the 32-bit arithmetic of the fields. */
  function Remaining(a: V6Addr, elapsed: nat): Option<V6Addr> {
    if a.valid == 0 || elapsed >= a.valid then None
    else
      var valid := Low32(a.valid - Low32(elapsed));
      var preferred := if elapsed >= a.preferred then 0 else Low32(a.preferred - Low32(elapsed));
      Some(a.(valid := valid, preferred := preferred))
  }

  function Kept(previous: seq<V6Addr>, named: set<seq<byte>>, elapsed: nat): seq<V6Addr> {
    if previous == [] then []
    else
      var rest := Kept(previous[1..], named, elapsed);
      if previous[0].ip in named || Remaining(previous[0], elapsed).None? then rest
      else [Remaining(previous[0], elapsed).value] + rest
  }

  function Renewed(previous: LeaseV6, m: Message, server: seq<byte>, client: seq<byte>, now: Time)
    : Result<LeaseV6, Failure>
  {
    match ReplyFailure(m, previous.iaid)
    case Some(e) => Err(e)
    case None =>
      var lease := ReplyLease(m, server, previous.iaid, client, now);
      var addresses := lease.addresses + Kept(previous.addresses, Named(Offered(m)), Elapsed(previous.acquiredAt, now));
      if addresses == [] then Err(NoAddresses) else Ok(lease.(addresses := addresses))
  }

  // ---------------------------------------------------------------- one renewal

  /** The subtractions never wrap, and what is left after two waits is what is left after both together. */
  lemma RemainingComposes(a: V6Addr, first: nat, second: nat)
    ensures Remaining(a, first).Some? <==> first < a.valid
    ensures Remaining(a, first).Some? ==>
              && Remaining(a, first).value.valid == a.valid - first
              && Remaining(a, first).value.preferred == (if first < a.preferred then a.preferred - first else 0)
              && Remaining(Remaining(a, first).value, second) == Remaining(a, first + second)
    ensures Remaining(a, first).None? ==> Remaining(a, first + second).None?
  {
  }

  lemma {:induction false} GrantedIs(addrs: seq<AddrInfo>, x: V6Addr)
    ensures x in Granted(addrs)
            <==> x.prefixLen == 128 && 0 < x.valid && AddrInfo(x.ip, x.preferred, x.valid) in addrs
  {
    if addrs != [] {
      GrantedIs(addrs[1..], x);
      assert addrs == [addrs[0]] + addrs[1..];
    }
  }

  lemma {:induction false} KeptIs(previous: seq<V6Addr>, named: set<seq<byte>>, elapsed: nat, x: V6Addr)
    ensures x in Kept(previous, named, elapsed)
            <==> exists p | p in previous :: p.ip !in named && Remaining(p, elapsed) == Some(x)
  {
    if previous != [] {
      KeptIs(previous[1..], named, elapsed, x);
      assert previous == [previous[0]] + previous[1..];
    }
  }

  /** The addresses after a renewal: those the reply grants, and what is left of those it does not mention. */
  lemma RenewedAddresses(previous: LeaseV6, m: Message, server: seq<byte>, client: seq<byte>, now: Time, x: V6Addr)
    requires Renewed(previous, m, server, client, now).Ok?
    ensures x in Renewed(previous, m, server, client, now).value.addresses
            <==> || (x.prefixLen == 128 && 0 < x.valid && AddrInfo(x.ip, x.preferred, x.valid) in Offered(m))
                 || exists p | p in previous.addresses ::
                      && p.ip !in Named(Offered(m))
                      && Remaining(p, Elapsed(previous.acquiredAt, now)) == Some(x)
  {
    GrantedIs(Offered(m), x);
    KeptIs(previous.addresses, Named(Offered(m)), Elapsed(previous.acquiredAt, now), x);
  }

  /** An address the reply names only to withdraw it is gone. */
  lemma WithdrawnIsGone(previous: LeaseV6, m: Message, server: seq<byte>, client: seq<byte>, now: Time, ip: seq<byte>)
    requires Renewed(previous, m, server, client, now).Ok?
    requires ip in Named(Offered(m)) && forall a | a in Offered(m) && a.ip == ip :: a.valid == 0
    ensures forall x | x in Renewed(previous, m, server, client, now).value.addresses :: x.ip != ip
  {
    forall x | x in Renewed(previous, m, server, client, now).value.addresses
      ensures x.ip != ip
    {
      RenewedAddresses(previous, m, server, client, now, x);
    }
  }

  lemma RenewedIsWellFormed(previous: LeaseV6, m: Message, server: seq<byte>, client: seq<byte>, now: Time)
    requires forall a | a in previous.addresses :: a.preferred <= a.valid
    requires Renewed(previous, m, server, client, now).Ok?
    ensures WellFormedV6(Renewed(previous, m, server, client, now).value)
  {
    var r := Renewed(previous, m, server, client, now).value;
    forall x | x in r.addresses
      ensures 0 < x.valid && x.preferred <= x.valid
    {
      RenewedAddresses(previous, m, server, client, now, x);
      if AddrInfo(x.ip, x.preferred, x.valid) in Offered(m) {
        assert Acceptable(AddrInfo(x.ip, x.preferred, x.valid));
      }
    }
  }

  // ---------------------------------------------------------------- any sequence of renewals

  datatype Answer = Answer(m: Message, server: seq<byte>, client: seq<byte>, now: Time)

  /** The lease after a sequence of answers: a refused answer changes nothing, and an answer that leaves no address
      ends the lease. */
  function After(lease: LeaseV6, answers: seq<Answer>): Option<LeaseV6>
    decreases |answers|
  {
    if answers == [] then Some(lease)
    else
      var a := answers[0];
      match Renewed(lease, a.m, a.server, a.client, a.now)
      case Ok(renewed) => After(renewed, answers[1..])
      case Err(NoAddresses) => None
      case Err(_) => After(lease, answers[1..])
  }

  /** Over any sequence of renewals every address has a positive valid lifetime and a preferred one within it. */
  lemma {:induction false} RenewalsStayWellFormed(lease: LeaseV6, answers: seq<Answer>)
    requires WellFormedV6(lease)
    ensures After(lease, answers).Some? ==> WellFormedV6(After(lease, answers).value)
    decreases |answers|
  {
    if answers != [] {
      var a := answers[0];
      match Renewed(lease, a.m, a.server, a.client, a.now) {
        case Ok(renewed) =>
          RenewedIsWellFormed(lease, a.m, a.server, a.client, a.now);
          RenewalsStayWellFormed(renewed, answers[1..]);
        case Err(NoAddresses) =>
        case Err(_) =>
          RenewalsStayWellFormed(lease, answers[1..]);
      }
    }
  }

  function Expiry(acquiredAt: Time, a: V6Addr): Time {
    acquiredAt + a.valid * SECOND
  }

  ghost predicate NeverNamed(answers: seq<Answer>, ip: seq<byte>) {
    forall a | a in answers :: ip !in Named(Offered(a.m))
  }

  /** The clock runs forward, and is set. */
  ghost predicate Forward(start: Time, answers: seq<Answer>)
    decreases |answers|
  {
    && ZERO_TIME < start
    && (answers != [] ==> start <= answers[0].now && Forward(answers[0].now, answers[1..]))
  }

  /** Rounding up takes less than a second from the life of an address that is kept, and never adds any; and it is kept
      exactly when a whole second of its life is left. */
  lemma KeptExpiry(acquiredAt: Time, now: Time, p: V6Addr)
    requires acquiredAt != ZERO_TIME
    ensures var left := Remaining(p, Elapsed(acquiredAt, now));
            && (left.Some? ==> Expiry(now, left.value) <= Expiry(acquiredAt, p))
            && (left.Some? && acquiredAt <= now ==> Expiry(acquiredAt, p) - SECOND < Expiry(now, left.value))
            && (acquiredAt <= now ==> (left.Some? <==> now + SECOND <= Expiry(acquiredAt, p)))
  {
  }

  /** So an address that has not expired can be dropped, and the lease with it: one second of life, one nanosecond
      later, and a reply that leaves the address out. */
  lemma UnexpiredIsDropped(ip: seq<byte>, m: Message)
    requires m.options == []
    ensures var lease := LeaseV6([V6Addr(ip, 128, 1, 1)], [], [], [], 0, 0, 0, 1);
            && WellFormedV6(lease) && 2 < ExpiryDeadlineV6(lease)
            && Renewed(lease, m, [], [], 2) == Err(NoAddresses)
  {
    var p := V6Addr(ip, 128, 1, 1);
    KeptExpiry(1, 2, p);
    assert Kept([p][1..], {}, Elapsed(1, 2)) == [];
    assert Min([1]) == 1 && ValidLifetimes([p]) == [1];
    assert Named([]) == {};
  }

  ghost predicate Lists(addresses: seq<V6Addr>, ip: seq<byte>) {
    exists x | x in addresses :: x.ip == ip
  }

  /** An address that an accepted answer does not name survives it exactly when a whole second of its life is left; and
      an answer leaves no address exactly when it grants none and there is no such address. */
  lemma SurvivesWithASecondLeft(lease: LeaseV6, a: Answer, ip: seq<byte>)
    requires ZERO_TIME < lease.acquiredAt <= a.now && ip !in Named(Offered(a.m))
    requires ReplyFailure(a.m, lease.iaid).None?
    ensures var r := Renewed(lease, a.m, a.server, a.client, a.now);
            (r.Ok? && Lists(r.value.addresses, ip))
            <==> exists p | p in lease.addresses :: p.ip == ip && a.now + SECOND <= Expiry(lease.acquiredAt, p)
  {
    var r := Renewed(lease, a.m, a.server, a.client, a.now);
    var e := Elapsed(lease.acquiredAt, a.now);
    forall p | p in lease.addresses && p.ip == ip && a.now + SECOND <= Expiry(lease.acquiredAt, p)
      ensures r.Ok? && Lists(r.value.addresses, ip)
    {
      KeptExpiry(lease.acquiredAt, a.now, p);
      KeptIs(lease.addresses, Named(Offered(a.m)), e, Remaining(p, e).value);
      assert r.value.addresses != [] && Remaining(p, e).value in r.value.addresses;
    }
    if r.Ok? && Lists(r.value.addresses, ip) {
      var x :| x in r.value.addresses && x.ip == ip;
      RenewedAddresses(lease, a.m, a.server, a.client, a.now, x);
      NotOffered(a.m, x);
      var p :| p in lease.addresses && Remaining(p, e) == Some(x);
      KeptExpiry(lease.acquiredAt, a.now, p);
    }
  }

  // -- exactly, over any sequence

  /** The seconds that a sequence of answers takes from an address it does not name: the rounded time between accepted
      answers. A refused answer takes nothing, and nothing counts after the lease has ended. */
  function Consumed(lease: LeaseV6, answers: seq<Answer>): nat
    decreases |answers|
  {
    if answers == [] then 0
    else
      var a := answers[0];
      match Renewed(lease, a.m, a.server, a.client, a.now)
      case Ok(renewed) => Elapsed(lease.acquiredAt, a.now) + Consumed(renewed, answers[1..])
      case Err(NoAddresses) => Elapsed(lease.acquiredAt, a.now)
      case Err(_) => Consumed(lease, answers[1..])
  }

  function Accepted(lease: LeaseV6, answers: seq<Answer>): nat
    decreases |answers|
  {
    if answers == [] then 0
    else
      var a := answers[0];
      match Renewed(lease, a.m, a.server, a.client, a.now)
      case Ok(renewed) => 1 + Accepted(renewed, answers[1..])
      case Err(NoAddresses) => 1
      case Err(_) => Accepted(lease, answers[1..])
  }

  /** After any sequence of answers, whatever the clock does, the addresses that no answer names are exactly what is
      left of those of the first lease; so one is still there exactly when its valid lifetime exceeds the seconds
      consumed. */
  lemma {:induction false} UnnamedIsKept(lease: LeaseV6, answers: seq<Answer>, x: V6Addr)
    requires WellFormedV6(lease) && NeverNamed(answers, x.ip)
    ensures (After(lease, answers).Some? && x in After(lease, answers).value.addresses)
            <==> exists p | p in lease.addresses :: p.ip == x.ip && Remaining(p, Consumed(lease, answers)) == Some(x)
    decreases |answers|
  {
    if answers == [] {
      NothingConsumed(lease, x);
    } else {
      var a, rest := answers[0], answers[1..];
      match Renewed(lease, a.m, a.server, a.client, a.now) {
        case Ok(renewed) =>
          RenewedIsWellFormed(lease, a.m, a.server, a.client, a.now);
          UnnamedIsKept(renewed, rest, x);
          UnnamedCarriesOver(lease, a, x, Consumed(renewed, rest));
        case Err(NoAddresses) =>
          NothingIsLeft(lease, a, x);
        case Err(_) =>
          UnnamedIsKept(lease, rest, x);
      }
    }
  }

  lemma NothingConsumed(lease: LeaseV6, x: V6Addr)
    requires WellFormedV6(lease)
    ensures x in lease.addresses <==> exists p | p in lease.addresses :: p.ip == x.ip && Remaining(p, 0) == Some(x)
  {
    forall p | p in lease.addresses
      ensures Remaining(p, 0) == Some(p)
    {
      RemainingComposes(p, 0, 0);
    }
  }

  lemma NothingIsLeft(lease: LeaseV6, a: Answer, x: V6Addr)
    requires x.ip !in Named(Offered(a.m)) && Renewed(lease, a.m, a.server, a.client, a.now) == Err(NoAddresses)
    ensures forall p | p in lease.addresses && p.ip == x.ip :: Remaining(p, Elapsed(lease.acquiredAt, a.now)) != Some(x)
  {
    KeptIs(lease.addresses, Named(Offered(a.m)), Elapsed(lease.acquiredAt, a.now), x);
  }

  /** What is left after one renewal and c more seconds is what is left after both. */
  lemma UnnamedCarriesOver(lease: LeaseV6, a: Answer, x: V6Addr, c: nat)
    requires x.ip !in Named(Offered(a.m)) && Renewed(lease, a.m, a.server, a.client, a.now).Ok?
    ensures (exists q | q in Renewed(lease, a.m, a.server, a.client, a.now).value.addresses ::
               q.ip == x.ip && Remaining(q, c) == Some(x))
            <==> exists p | p in lease.addresses ::
                   p.ip == x.ip && Remaining(p, Elapsed(lease.acquiredAt, a.now) + c) == Some(x)
  {
    var renewed := Renewed(lease, a.m, a.server, a.client, a.now).value;
    var e := Elapsed(lease.acquiredAt, a.now);
    forall q | q in renewed.addresses && q.ip == x.ip && Remaining(q, c) == Some(x)
      ensures exists p | p in lease.addresses :: p.ip == x.ip && Remaining(p, e + c) == Some(x)
    {
      RenewedAddresses(lease, a.m, a.server, a.client, a.now, q);
      NotOffered(a.m, q);
      var p :| p in lease.addresses && Remaining(p, e) == Some(q);
      RemainingComposes(p, e, c);
    }
    forall p | p in lease.addresses && p.ip == x.ip && Remaining(p, e + c) == Some(x)
      ensures exists q | q in renewed.addresses :: q.ip == x.ip && Remaining(q, c) == Some(x)
    {
      RemainingComposes(p, e, c);
      var q := Remaining(p, e).value;
      RenewedAddresses(lease, a.m, a.server, a.client, a.now, q);
      assert q in renewed.addresses;
    }
  }

  // -- in terms of time

  /** x is what became of p. */
  ghost predicate Descends(p: V6Addr, from: Time, x: V6Addr, at: Time, renewals: nat) {
    && x.ip == p.ip && x.prefixLen == p.prefixLen
    && Expiry(from, p) - renewals * SECOND <= Expiry(at, x) <= Expiry(from, p)
  }

  /** An address no answer names comes from the lease at the start, and its expiry has not moved later, nor earlier by
      more than a second an accepted answer. */
  lemma {:induction false} UnnamedDescends(lease: LeaseV6, answers: seq<Answer>, x: V6Addr)
    requires Forward(lease.acquiredAt, answers) && NeverNamed(answers, x.ip)
    requires After(lease, answers).Some? && x in After(lease, answers).value.addresses
    ensures exists p | p in lease.addresses ::
              Descends(p, lease.acquiredAt, x, After(lease, answers).value.acquiredAt, Accepted(lease, answers))
    decreases |answers|
  {
    if answers == [] {
      assert Descends(x, lease.acquiredAt, x, lease.acquiredAt, 0);
    } else {
      var a, rest := answers[0], answers[1..];
      var end := After(lease, answers).value.acquiredAt;
      match Renewed(lease, a.m, a.server, a.client, a.now) {
        case Ok(renewed) =>
          UnnamedDescends(renewed, rest, x);
          var q :| q in renewed.addresses && Descends(q, renewed.acquiredAt, x, end, Accepted(renewed, rest));
          RenewedAddresses(lease, a.m, a.server, a.client, a.now, q);
          NotOffered(a.m, q);
          var p :| p in lease.addresses && Remaining(p, Elapsed(lease.acquiredAt, a.now)) == Some(q);
          KeptExpiry(lease.acquiredAt, a.now, p);
          assert Descends(p, lease.acquiredAt, x, end, Accepted(lease, answers));
        case Err(_) =>
          ForwardSkips(lease.acquiredAt, answers);
          UnnamedDescends(lease, rest, x);
          var p :| p in lease.addresses && Descends(p, lease.acquiredAt, x, end, Accepted(lease, rest));
          assert Descends(p, lease.acquiredAt, x, end, Accepted(lease, answers));
      }
    }
  }

  lemma NotOffered(m: Message, x: V6Addr)
    requires x.ip !in Named(Offered(m))
    ensures AddrInfo(x.ip, x.preferred, x.valid) !in Offered(m)
  {
    var addrs := Offered(m);
    assert forall i | 0 <= i < |addrs| :: addrs[i].ip in Named(addrs);
  }

  lemma ForwardSkips(start: Time, answers: seq<Answer>)
    requires answers != [] && Forward(start, answers)
    ensures Forward(start, answers[1..])
  {
  }

  function LastMoment(start: Time, answers: seq<Answer>): Time {
    if answers == [] then start else answers[|answers| - 1].now
  }

  /** An address no answer names is still there as long as its life, less a second an accepted answer, is not over; so
      the lease has not ended either. */
  lemma {:induction false} UnnamedOutlasts(lease: LeaseV6, answers: seq<Answer>, p: V6Addr)
    requires Forward(lease.acquiredAt, answers) && NeverNamed(answers, p.ip) && p in lease.addresses
    requires LastMoment(lease.acquiredAt, answers) + Accepted(lease, answers) * SECOND <= Expiry(lease.acquiredAt, p)
    ensures After(lease, answers).Some?
    ensures exists x | x in After(lease, answers).value.addresses ::
              Descends(p, lease.acquiredAt, x, After(lease, answers).value.acquiredAt, Accepted(lease, answers))
    decreases |answers|
  {
    if answers == [] {
      assert Descends(p, lease.acquiredAt, p, lease.acquiredAt, 0);
    } else {
      var a, rest := answers[0], answers[1..];
      LastIsLast(lease.acquiredAt, answers);
      LastIsLast(a.now, rest);
      if ReplyFailure(a.m, lease.iaid).None? {
        OneRenewalKeeps(lease, a, p);
      }
      match Renewed(lease, a.m, a.server, a.client, a.now) {
        case Ok(renewed) =>
          var q :| q in renewed.addresses && Descends(p, lease.acquiredAt, q, a.now, 1);
          UnnamedOutlasts(renewed, rest, q);
          var end := After(renewed, rest).value;
          var x :| x in end.addresses && Descends(q, renewed.acquiredAt, x, end.acquiredAt, Accepted(renewed, rest));
          assert Descends(p, lease.acquiredAt, x, end.acquiredAt, Accepted(lease, answers));
        case Err(_) =>
          ForwardSkips(lease.acquiredAt, answers);
          UnnamedOutlasts(lease, rest, p);
          var end := After(lease, rest).value;
          var x :| x in end.addresses && Descends(p, lease.acquiredAt, x, end.acquiredAt, Accepted(lease, rest));
          assert Descends(p, lease.acquiredAt, x, end.acquiredAt, Accepted(lease, answers));
      }
    }
  }

  lemma OneRenewalKeeps(lease: LeaseV6, a: Answer, p: V6Addr)
    requires p in lease.addresses && p.ip !in Named(Offered(a.m))
    requires lease.acquiredAt != ZERO_TIME && lease.acquiredAt <= a.now
    requires a.now + SECOND <= Expiry(lease.acquiredAt, p)
    ensures match Renewed(lease, a.m, a.server, a.client, a.now)
            case Ok(renewed) =>
              && renewed.acquiredAt == a.now
              && exists q | q in renewed.addresses :: Descends(p, lease.acquiredAt, q, a.now, 1)
            case Err(e) => e != NoAddresses
  {
    KeptExpiry(lease.acquiredAt, a.now, p);
    var q := Remaining(p, Elapsed(lease.acquiredAt, a.now)).value;
    KeptIs(lease.addresses, Named(Offered(a.m)), Elapsed(lease.acquiredAt, a.now), q);
    match Renewed(lease, a.m, a.server, a.client, a.now) {
      case Ok(renewed) =>
        assert q in renewed.addresses && Descends(p, lease.acquiredAt, q, a.now, 1);
      case Err(_) =>
    }
  }

  lemma {:induction false} LastIsLast(start: Time, answers: seq<Answer>)
    requires Forward(start, answers)
    ensures start <= LastMoment(start, answers)
    ensures answers != [] ==> LastMoment(answers[0].now, answers[1..]) == LastMoment(start, answers)
    decreases |answers|
  {
    if answers != [] {
      LastIsLast(answers[0].now, answers[1..]);
    }
  }

  // ---------------------------------------------------------------- the code

  method ParseLeaseV6Reply(m: Message, server: seq<byte>, iaid: u32, client: seq<byte>, now: Time)
    returns (r: Result<LeaseV6, Failure>, seen: set<seq<byte>>)
    ensures r == match ReplyFailure(m, iaid)
                 case Some(e) => Err(e)
                 case None => Ok(ReplyLease(m, server, iaid, client, now))
    ensures r.Ok? ==> seen == Named(Offered(m))
  {
    seen := {};
    var t1: u32, t2: u32 := 0, 0;
    var addresses := [];
    var data := Lookup(m.options, IA_NA);
    if data.Some? {
      if |data.value| < 12 {
        return Err(MalformedIana), seen;
      }
      var iana := ParseIana(data.value);
      if iana.iaid != iaid {
        return Err(WrongIaid), seen;
      }
      t1, t2 := iana.t1, iana.t2;
      var ok;
      ok, addresses, seen := GrantAddresses(iana.addrs);
      if !ok {
        return Err(BadLifetimes), seen;
      }
    }
    var dns := [];
    var dnsData := Lookup(m.options, DNS_SERVERS);
    if dnsData.Some? {
      dns := SplitGroups(dnsData.value, 16);
    }
    return Ok(LeaseV6(addresses, dns, server, client, iaid, t1, t2, now)), seen;
  }

  /** The address loop of parseLeaseV6Reply. */
  method GrantAddresses(addrs: seq<AddrInfo>) returns (ok: bool, addresses: seq<V6Addr>, seen: set<seq<byte>>)
    ensures ok <==> forall a | a in addrs :: Acceptable(a)
    ensures ok ==> addresses == Granted(addrs) && seen == Named(addrs)
  {
    addresses, seen := [], {};
    for i := 0 to |addrs|
      invariant addresses + Granted(addrs[i..]) == Granted(addrs)
      invariant seen == Named(addrs[..i])
      invariant forall j | 0 <= j < i :: Acceptable(addrs[j])
    {
      var a := addrs[i];
      GrantedStep(addrs, i, addresses);
      NamedSnoc(addrs, i);
      seen := seen + {a.ip};
      if a.valid == 0 {
        continue;
      }
      if a.preferred > a.valid {
        assert addrs[i] in addrs;
        return false, addresses, seen;
      }
      addresses := addresses + [V6Addr(a.ip, 128, a.preferred, a.valid)];
    }
    assert addrs[..|addrs|] == addrs;
    return true, addresses, seen;
  }

  lemma GrantedStep(addrs: seq<AddrInfo>, i: nat, done: seq<V6Addr>)
    requires i < |addrs|
    ensures var a, rest := addrs[i], Granted(addrs[i + 1..]);
            done + Granted(addrs[i..])
            == (if a.valid == 0 then done else done + [V6Addr(a.ip, 128, a.preferred, a.valid)]) + rest
  {
    var a := addrs[i];
    assert addrs[i..][0] == a && addrs[i..][1..] == addrs[i + 1..];
    OneMore(done, V6Addr(a.ip, 128, a.preferred, a.valid), Granted(addrs[i + 1..]));
  }

  lemma NamedSnoc(addrs: seq<AddrInfo>, i: nat)
    requires i < |addrs|
    ensures Named(addrs[..i + 1]) == Named(addrs[..i]) + {addrs[i].ip}
  {
    var longer := addrs[..i + 1];
    assert longer == addrs[..i] + [addrs[i]];
    assert forall j | 0 <= j < i :: addrs[..i][j] == longer[j];
    assert longer[i].ip in Named(longer);
  }

  lemma OneMore(done: seq<V6Addr>, x: V6Addr, rest: seq<V6Addr>)
    ensures done + ([x] + rest) == done + [x] + rest
  {
  }

  method ParseLeaseV6(m: Message, server: seq<byte>, iaid: u32, client: seq<byte>, now: Time)
    returns (r: Result<LeaseV6, Failure>)
    ensures r.Ok? ==> r.value == ReplyLease(m, server, iaid, client, now) && WellFormedV6(r.value)
    ensures r.Err? <==> ReplyFailure(m, iaid).Some? || forall a | a in Offered(m) :: a.valid == 0
  {
    var seen;
    r, seen := ParseLeaseV6Reply(m, server, iaid, client, now);
    if r.Err? {
      return;
    }
    FirstLeaseIsWellFormed(m, server, iaid, client, now);
    if r.value.addresses == [] {
      return Err(NoAddresses);
    }
  }

  lemma FirstLeaseIsWellFormed(m: Message, server: seq<byte>, iaid: u32, client: seq<byte>, now: Time)
    requires ReplyFailure(m, iaid).None?
    ensures var addresses := ReplyLease(m, server, iaid, client, now).addresses;
            && (forall x | x in addresses :: 0 < x.valid && x.preferred <= x.valid)
            && (addresses == [] <==> forall a | a in Offered(m) :: a.valid == 0)
  {
    var addresses := ReplyLease(m, server, iaid, client, now).addresses;
    forall x | x in addresses
      ensures 0 < x.valid && x.preferred <= x.valid && exists a | a in Offered(m) :: a.valid != 0
    {
      GrantedIs(Offered(m), x);
      assert Acceptable(AddrInfo(x.ip, x.preferred, x.valid));
    }
    assert addresses != [] ==> addresses[0] in addresses;
    forall a | a in Offered(m) && a.valid != 0
      ensures addresses != []
    {
      GrantedIs(Offered(m), V6Addr(a.ip, 128, a.preferred, a.valid));
    }
  }

  method ParseRenewedLeaseV6(m: Message, server: seq<byte>, client: seq<byte>, previous: LeaseV6, now: Time)
    returns (r: Result<LeaseV6, Failure>)
    ensures r == Renewed(previous, m, server, client, now)
  {
    var seen;
    r, seen := ParseLeaseV6Reply(m, server, previous.iaid, client, now);
    if r.Err? {
      return;
    }
    var lease := r.value;
    var elapsed := Elapsed(previous.acquiredAt, lease.acquiredAt);
    var addresses := lease.addresses;
    for i := 0 to |previous.addresses|
      invariant addresses + Kept(previous.addresses[i..], seen, elapsed)
                == lease.addresses + Kept(previous.addresses, seen, elapsed)
    {
      var address := previous.addresses[i];
      assert previous.addresses[i..][1..] == previous.addresses[i + 1..];
      if address.ip in seen {
        continue;
      }
      var remaining := Remaining(address, elapsed);
      if remaining.Some? {
        OneMore(addresses, remaining.value, Kept(previous.addresses[i + 1..], seen, elapsed));
        addresses := addresses + [remaining.value];
      }
    }
    assert addresses == lease.addresses + Kept(previous.addresses, seen, elapsed);
    if addresses == [] {
      return Err(NoAddresses);
    }
    return Ok(lease.(addresses := addresses));
  }
}
