/**
The life of a DHCPv4 lease. Whatever happens to its renewals, the lease that the client remembers agrees with what it
holds on the interface, and only cancellation ends its loop.
*/
module LifecycleV4 {
  import opened Wrappers
  import opened Bytes
  import opened Leases
  import opened Interfaces
  import PacketV4
  import V4Lease

  function RouteOf(l: Lease): Option<Route> {
    if l.router == [] then None else Some(Route(l.router, l.ip))
  }

  /** Exactly what the lease calls for; nothing without a lease. */
  ghost predicate Holds(link: Interface, lease: Option<Lease>)
    reads link
  {
    match lease
    case None => link.addrs == {} && link.route == None && link.dns == []
    case Some(l) => link.addrs == {CidrOf(l)} && link.route == RouteOf(l) && link.dns == l.dns
  }

  /** A router behind a /32 mask needs a route of its own. */
  function HostsOf(lease: Option<Lease>): set<seq<byte>> {
    if lease.Some? && lease.value.router != [] && MaskSize(lease.value.mask) == 32 then {lease.value.router} else {}
  }

  /** A renewal that keeps the router and widens the mask from /32 leaves the old host route behind. */
  predicate Strands(previous: Lease, lease: Lease) {
    HostsOf(Some(previous)) != {} && HostsOf(Some(lease)) == {} && previous.router == lease.router
  }

  // ---------------------------------------------------------------- applying and removing a lease

  method ApplyLeaseRoutes(link: Interface, lease: Lease) returns (ok: bool)
    modifies link`route, link`hosts, link`failures
    ensures ok <==> link.failures == old(link.failures)
    ensures old(link.failures) <= link.failures
    ensures link.route == old(link.route) || (lease.router != [] && link.route == RouteOf(lease))
    ensures link.hosts == old(link.hosts) || link.hosts == old(link.hosts) + HostsOf(Some(lease))
    ensures ok && lease.router != [] ==> link.route == RouteOf(lease)
    ensures ok ==> link.hosts == old(link.hosts) + HostsOf(Some(lease))
  {
    if lease.router == [] {
      return true;
    }
    if MaskSize(lease.mask) == 32 {
      ok := link.HostReplace(lease.router);
      if !ok { return; }
    }
    ok := link.RouteReplace(Route(lease.router, lease.ip));
  }

  method RemoveLeaseRoutes(link: Interface, lease: Lease)
    modifies link`route, link`hosts
    ensures var gone := lease.router != [] && old(link.route).Some? && old(link.route).value.via == lease.router;
            link.route == if gone then None else old(link.route)
    ensures link.hosts == old(link.hosts) - HostsOf(Some(lease))
  {
    if lease.router != [] {
      link.RouteDel(lease.router);
      if MaskSize(lease.mask) == 32 {
        link.HostDel(lease.router);
      }
    }
  }

  method UnapplyLease(link: Interface, lease: Lease)
    modifies link`addrs, link`route, link`hosts, link`dns
    ensures link.addrs == old(link.addrs) - {CidrOf(lease)} && link.dns == []
    ensures old(link.route) == RouteOf(lease) || old(link.route) == None ==> link.route == None
    ensures link.hosts == old(link.hosts) - HostsOf(Some(lease))
  {
    link.RemoveNameservers();
    RemoveLeaseRoutes(link, lease);
    link.AddrDel(CidrOf(lease));
  }

  /** The steps up to the first that fails. */
  method ApplySteps(link: Interface, lease: Lease) returns (ok: bool)
    modifies link
    ensures ok <==> link.failures == old(link.failures)
    ensures link.addrs == old(link.addrs) || link.addrs == old(link.addrs) + {CidrOf(lease)}
    ensures link.route == old(link.route) || (lease.router != [] && link.route == RouteOf(lease))
    ensures link.hosts == old(link.hosts) || link.hosts == old(link.hosts) + HostsOf(Some(lease))
    ensures !ok ==> link.dns == old(link.dns)
    ensures ok ==> link.up
    ensures ok ==> link.addrs == old(link.addrs) + {CidrOf(lease)} && link.dns == lease.dns
    ensures ok && lease.router != [] ==> link.route == RouteOf(lease)
    ensures ok ==> link.hosts == old(link.hosts) + HostsOf(Some(lease))
  {
    ok := link.AddrReplace(CidrOf(lease));
    if !ok { return; }
    ok := link.LinkUp();
    if !ok { return; }
    ok := ApplyLeaseRoutes(link, lease);
    if !ok { return; }
    ok := link.SetNameservers(lease.dns);
  }

  /** Undoes a half-applied transition, wherever it stopped. */
  method RollbackLeaseTransition(link: Interface, attempted: Lease, previous: Option<Lease>)
    requires
      var held := if previous.Some? then {CidrOf(previous.value)} else {};
      link.addrs == held || link.addrs == held + {CidrOf(attempted)}
    requires
      || (attempted.router != [] && link.route == RouteOf(attempted))
      || link.route == if previous.Some? then RouteOf(previous.value) else None
    requires link.dns == if previous.Some? then previous.value.dns else []
    modifies link`addrs, link`route, link`hosts, link`dns
    ensures Holds(link, previous)
    ensures old(link.hosts) == HostsOf(previous) || old(link.hosts) == HostsOf(previous) + HostsOf(Some(attempted))
            ==> link.hosts == HostsOf(previous)
  {
    if previous.None? {
      UnapplyLease(link, attempted);
      return;
    }
    var kept := previous.value;
    if CidrOf(attempted) != CidrOf(kept) {
      link.AddrDel(CidrOf(attempted));
    }
    if attempted.router != kept.router || attempted.ip != kept.ip || attempted.mask != kept.mask {
      RemoveLeaseRoutes(link, attempted);
      if kept.router != [] {
        if MaskSize(kept.mask) == 32 {
          link.HostRestore(kept.router);
        }
        link.RouteRestore(Route(kept.router, kept.ip));
      }
    }
  }

  /** All of the new lease beside the old address, or, exactly when a command fails, no change at all. */
  method ApplyLeaseReplacing(link: Interface, lease: Lease, previous: Option<Lease>) returns (ok: bool)
    requires Holds(link, previous)
    modifies link
    ensures ok <==> link.failures == old(link.failures)
    ensures !ok ==> Holds(link, previous)
    ensures !ok && old(link.hosts) == HostsOf(previous) ==> link.hosts == HostsOf(previous)
    ensures ok ==> link.up
    ensures ok ==> link.addrs == old(link.addrs) + {CidrOf(lease)} && link.dns == lease.dns
    ensures ok ==> link.route == if lease.router != [] then RouteOf(lease) else old(link.route)
    ensures ok ==> link.hosts == old(link.hosts) + HostsOf(Some(lease))
  {
    ok := ApplySteps(link, lease);
    if !ok {
      RollbackLeaseTransition(link, lease, previous);
    }
  }

  /** The host route of the old lease goes only with its router; so the host routes come out right exactly when the
      renewal does not strand one. */
  method CleanupSupersededLease(link: Interface, previous: Lease, lease: Lease)
    modifies link`addrs, link`hosts
    ensures link.addrs == if CidrOf(previous) == CidrOf(lease) then old(link.addrs)
                          else old(link.addrs) - {CidrOf(previous)}
    ensures link.hosts == if previous.router == lease.router then old(link.hosts)
                          else old(link.hosts) - HostsOf(Some(previous))
    ensures old(link.hosts) == HostsOf(Some(previous)) + HostsOf(Some(lease))
            ==> (link.hosts == HostsOf(Some(lease)) <==> !Strands(previous, lease))
  {
    if CidrOf(previous) != CidrOf(lease) {
      link.AddrDel(CidrOf(previous));
    }
    if previous.router != [] && previous.router != lease.router {
      if MaskSize(previous.mask) == 32 {
        link.HostDel(previous.router);
      }
    }
  }

  /** The server can do that: it only has to send a wider mask with an acknowledgement. */
  lemma RenewalCanStrand(previous: Lease, ack: PacketV4.Packet, now: Time)
    requires HostsOf(Some(previous)) != {} && ack.options == [PacketV4.Opt(V4Lease.SUBNET_MASK, [255, 255, 255, 0])]
    ensures Strands(previous, V4Lease.Overlay(previous, ack, now))
  {
    assert ack.options[1..] == [];
    assert PacketV4.Lookup(ack.options[1..], V4Lease.ROUTER) == None;
    assert ack.options[0].code != V4Lease.ROUTER && PacketV4.Lookup(ack.options, V4Lease.ROUTER) == None;
    assert V4Lease.OptionData(ack, V4Lease.SUBNET_MASK) == [255, 255, 255, 0];
    ClassC();
  }

  lemma ClassC()
    ensures MaskSize([255, 255, 255, 0]) == 24
  {
    assert [255, 255, 255, 0][1..] == [255, 255, 0] && [255, 255, 0][1..] == [255, 0];
    assert MaskSize([255, 0]) == 8 && MaskSize([255, 255, 0]) == 16;
  }

  // ---------------------------------------------------------------- the client

  /** How an exchange with the servers ends. */
  datatype Exchange = Acked(ack: PacketV4.Packet) | Refused | Failed

  /** What happens around one turn of the loop: how each exchange would end, whether the context is done when the
      client waits, and whether it is done by the end of an acquisition. */
  datatype Turn = Turn(renewal: Exchange, rebind: Exchange, acquisition: Exchange, cancelled: bool, stopping: bool)

  /** A turn that was worked on, when that was to be and when it began. */
  datatype Work = Work(turn: Turn, due: Time, begun: Time)

  /** What has been done since: these turns, in their order and none before its time. */
  ghost predicate Worked(before: seq<Work>, done: seq<Work>, turns: seq<Turn>) {
    && |done| == |before| + |turns| && done[..|before|] == before
    && forall i | |before| <= i < |done| :: done[i].turn == turns[i - |before|] && done[i].due <= done[i].begun
  }

  lemma OneMoreTurn(before: seq<Work>, done: seq<Work>, turns: seq<Turn>, i: nat, w: Work)
    requires i < |turns| && Worked(before, done, turns[..i]) && w.turn == turns[i] && w.due <= w.begun
    ensures Worked(before, done + [w], turns[..i + 1])
  {
  }

  datatype LoopEnd = Cancelled | NothingToDo | StillRunning

  const RECOVERY_RETRY: Time := 5 * SECOND

  class Client {
    const link: Interface
    var lease: Option<Lease>
    var retryAt: Time
    var clock: Time

    ghost var done: seq<Work>

    /** What holds at every head of the loop. The last clause is why no turn is idle. */
    ghost predicate Valid()
      reads this, link
    {
      && Holds(link, lease)
      && ZERO_TIME < clock && ZERO_TIME <= retryAt
      && (lease.None? ==> retryAt != ZERO_TIME)
      && (lease.Some? ==> ZERO_TIME < lease.value.acquiredAt)
      && (lease.Some? && retryAt != ZERO_TIME ==> RenewalDeadline(lease.value) <= retryAt)
    }

    constructor (link: Interface, now: Time)
      requires Holds(link, None) && ZERO_TIME < now
      ensures this.link == link && lease == None && retryAt == ZERO_TIME && clock == now && done == []
    {
      this.link := link;
      lease, retryAt, clock := None, ZERO_TIME, now;
      done := [];
    }

    /** The clock runs forward. */
    method Now() returns (now: Time)
      modifies this`clock
      ensures now == clock && old(clock) <= clock
    {
      var passed: int := *;
      if passed > 0 {
        clock := clock + passed;
      }
      now := clock;
    }

    ghost predicate Acquired(l: Lease, e: Exchange) {
      e.Acked? && l == V4Lease.FirstLease(e.ack, l.acquiredAt)
    }

    ghost predicate RenewedBy(l: Lease, held: Lease, e: Exchange) {
      e.Acked? && l == V4Lease.Overlay(held, e.ack, l.acquiredAt)
    }

    /** startNative, up to the loop, which only a daemon enters; a one-shot start leaves the lease in place. It succeeds
        exactly when a lease is acknowledged and no command fails. */
    method Start(acquisition: Exchange, daemonMode: bool) returns (ok: bool, looping: bool)
      requires Holds(link, None) && link.hosts == {} && lease == None && retryAt == ZERO_TIME && ZERO_TIME < clock
      modifies this`lease, this`retryAt, this`clock, link
      ensures ok <==> acquisition.Acked? && link.failures == old(link.failures)
      ensures ok ==> link.up
      ensures ok ==> Valid() && lease.Some? && link.hosts == HostsOf(lease) && Acquired(lease.value, acquisition)
      ensures !ok ==> Holds(link, None) && link.hosts == {}
      ensures looping <==> ok && daemonMode
    {
      looping := false;
      ok := link.LinkUp();
      if !ok || !acquisition.Acked? {
        return false, false;
      }
      var now := Now();
      var acquired := V4Lease.ParseLease(acquisition.ack, now);
      ok := ApplyLeaseReplacing(link, acquired, None);
      if ok {
        lease := Some(acquired);
        looping := daemonMode;
      }
    }

    method ScheduleRetry()
      modifies this`retryAt, this`clock
      ensures old(clock) <= clock && retryAt == clock + RECOVERY_RETRY
    {
      var now := Now();
      retryAt := now + RECOVERY_RETRY;
    }

    method ReacquireV4(acquisition: Exchange, stopping: bool)
      requires Valid() && lease.None?
      modifies this`lease, this`retryAt, this`clock, link
      ensures Valid() && old(clock) <= clock
      ensures lease.Some? <==> acquisition.Acked? && link.failures == old(link.failures)
      ensures lease.Some? ==> Acquired(lease.value, acquisition) && retryAt == ZERO_TIME
      ensures lease.None? ==>
                retryAt == if !acquisition.Acked? && stopping then old(retryAt) else clock + RECOVERY_RETRY
      ensures old(link.hosts) == {} ==> link.hosts == HostsOf(lease)
    {
      if !acquisition.Acked? {
        if !stopping {
          ScheduleRetry();
        }
        return;
      }
      var now := Now();
      var acquired := V4Lease.ParseLease(acquisition.ack, now);
      var ok := ApplyLeaseReplacing(link, acquired, None);
      if !ok {
        ScheduleRetry();
        return;
      }
      lease, retryAt := Some(acquired), ZERO_TIME;
    }

    method ExpireV4(held: Lease)
      requires Valid() && lease == Some(held)
      modifies this`lease, this`retryAt, this`clock, link`addrs, link`route, link`hosts, link`dns
      ensures Valid() && lease == None && old(clock) <= clock && retryAt == clock
      ensures link.hosts == old(link.hosts) - HostsOf(Some(held))
    {
      UnapplyLease(link, held);
      if lease == Some(held) {
        var now := Now();
        lease, retryAt := None, now;
      }
    }

    /** maintainV4 from a failed exchange on: the lease is kept for a retry unless it has expired meanwhile. */
    method AfterFailure(held: Lease)
      requires Valid() && lease == Some(held) && RenewalDeadline(held) <= clock
      modifies this`lease, this`retryAt, this`clock, link`addrs, link`route, link`hosts, link`dns
      ensures Valid() && old(clock) <= clock
      ensures if lease.None? then ExpiryDeadline(held) <= clock && retryAt == clock
              else lease == Some(held) && retryAt == clock + RECOVERY_RETRY
      ensures link.hosts == if lease.None? then old(link.hosts) - HostsOf(Some(held)) else old(link.hosts)
    {
      var now := Now();
      if now >= ExpiryDeadline(held) {
        ExpireV4(held);
        return;
      }
      ScheduleRetry();
    }

    /** maintainV4 from an acknowledgement on: the lease is renewed unless a command fails. */
    method AdoptV4(held: Lease, ack: PacketV4.Packet)
      requires Valid() && lease == Some(held) && RenewalDeadline(held) <= clock
      modifies this`lease, this`retryAt, this`clock, link
      ensures Valid() && old(clock) <= clock
      ensures if link.failures == old(link.failures)
              then lease.Some? && RenewedBy(lease.value, held, Acked(ack)) && retryAt == ZERO_TIME
              else lease == Some(held) && retryAt == clock + RECOVERY_RETRY
      ensures old(link.hosts) == HostsOf(Some(held))
              ==> link.hosts == HostsOf(lease) || (lease.Some? && Strands(held, lease.value))
    {
      var now := Now();
      var renewed := V4Lease.ParseRenewedLease(ack, lease, now);
      V4Lease.RenewalNeverForgets(held, ack, now);
      var ok := ApplyLeaseReplacing(link, renewed, lease);
      if !ok {
        ScheduleRetry();
        return;
      }
      CleanupSupersededLease(link, held, renewed);
      lease, retryAt := Some(renewed), ZERO_TIME;
    }

    /** The exchange that a moment calls for: a rebinding from the rebinding deadline on, a renewal before. */
    static function Due(held: Lease, turn: Turn, at: Time): Exchange {
      if RebindDeadline(held) <= at then turn.rebind else turn.renewal
    }

    /** What is left after a new lease has been sought. */
    ghost predicate Replaced(turn: Turn, failed: bool)
      reads this
    {
      if turn.acquisition.Acked? && !failed then lease.Some? && Acquired(lease.value, turn.acquisition)
      else lease.None? && (retryAt == clock + RECOVERY_RETRY || (turn.stopping && !turn.acquisition.Acked?))
    }

    /** What an exchange leaves behind. A refused one makes the client seek a new lease. An acknowledged one renews the
        lease unless a command fails; otherwise that is kept for a retry, or gone if it has expired meanwhile. */
    ghost predicate Settled(held: Lease, exchange: Exchange, turn: Turn, failed: bool)
      reads this
    {
      match exchange
      case Refused => Replaced(turn, failed)
      case Acked(_) =>
        if failed then lease == Some(held) && retryAt == clock + RECOVERY_RETRY
        else lease.Some? && RenewedBy(lease.value, held, exchange) && retryAt == ZERO_TIME
      case Failed =>
        if lease.None? then ExpiryDeadline(held) <= clock && retryAt == clock
        else lease == Some(held) && retryAt == clock + RECOVERY_RETRY
    }

    /** One turn's work, decided `at` some moment of it. Without a lease, and with one that has expired, the client
        seeks a new one. Before the renewal deadline nothing happens. From then on the exchange that is due settles what
        becomes of the lease. */
    method MaintainV4(turn: Turn) returns (ghost at: Time)
      requires Valid()
      modifies this, link
      ensures Valid() && old(clock) <= at <= clock
      ensures done == old(done) + [Work(turn, old(NextAction()), old(clock))]
      ensures old(lease).None? || ExpiryDeadline(old(lease).value) <= at
              ==> Replaced(turn, link.failures != old(link.failures))
      ensures old(lease).Some? && at < ExpiryDeadline(old(lease).value) && at < RenewalDeadline(old(lease).value)
              ==> lease == old(lease) && retryAt == old(retryAt)
      ensures old(lease).Some? && RenewalDeadline(old(lease).value) <= at < ExpiryDeadline(old(lease).value) ==>
                Settled(old(lease).value, Due(old(lease).value, turn, at), turn, link.failures != old(link.failures))
      ensures old(link.hosts) == HostsOf(old(lease))
              ==> link.hosts == HostsOf(lease)
                  || (old(lease).Some? && lease.Some? && Strands(old(lease).value, lease.value))
    {
      at := clock;
      done := done + [Work(turn, NextAction(), clock)];
      if lease.None? {
        ReacquireV4(turn.acquisition, turn.stopping);
        return;
      }
      var held := lease.value;
      var now := Now();
      at := now;
      if now >= ExpiryDeadline(held) {
        ExpireV4(held);
        ReacquireV4(turn.acquisition, turn.stopping);
        return;
      }
      if now < RenewalDeadline(held) {
        return;
      }
      var exchange := if now >= RebindDeadline(held) then turn.rebind else turn.renewal;
      if !exchange.Acked? {
        if exchange.Refused? {
          ExpireV4(held);
          ReacquireV4(turn.acquisition, turn.stopping);
          return;
        }
        AfterFailure(held);
        return;
      }
      AdoptV4(held, exchange.ack);
    }

    method Release()
      requires Valid()
      modifies link`addrs, link`route, link`hosts, link`dns
      ensures Holds(link, None) && link.hosts == old(link.hosts) - HostsOf(lease)
    {
      if lease.Some? {
        UnapplyLease(link, lease.value);
      }
    }

    function NextAction(): Time
      reads this
    {
      if retryAt != ZERO_TIME then retryAt
      else if lease.Some? then RenewalDeadline(lease.value)
      else ZERO_TIME
    }

    /** The timer, which fires no earlier than the next action; so a lease that is held then is due. */
    method Wait()
      requires Valid()
      modifies this`clock
      ensures Valid() && old(clock) <= clock && NextAction() <= clock
      ensures lease.Some? ==> RenewalDeadline(lease.value) <= clock
    {
      var now := Now();
      if now < NextAction() {
        clock := NextAction();
      }
    }

    /** Any number of turns. The lease and the interface agree at the head of each; there always is a next action, no
        turn comes before it and none is left out; and only cancellation ends the loop, which leaves nothing behind. */
    method RenewLoop(turns: seq<Turn>) returns (end: LoopEnd)
      requires Valid()
      modifies this, link
      ensures end != NothingToDo
      ensures end == StillRunning ==> Valid() && Worked(old(done), done, turns) && forall t | t in turns :: !t.cancelled
      ensures end == Cancelled ==>
                && Holds(link, None)
                && exists n | 0 <= n < |turns| ::
                     && turns[n].cancelled && Worked(old(done), done, turns[..n])
                     && forall t | t in turns[..n] :: !t.cancelled
    {
      for i := 0 to |turns|
        invariant Valid() && Worked(old(done), done, turns[..i])
        invariant forall t | t in turns[..i] :: !t.cancelled
      {
        var nextAction := NextAction();
        if nextAction == ZERO_TIME {
          return NothingToDo;
        }
        if turns[i].cancelled {
          Release();
          assert turns[i].cancelled;
          return Cancelled;
        }
        Wait();
        OneMoreTurn(old(done), done, turns, i, Work(turns[i], NextAction(), clock));
        ghost var _ := MaintainV4(turns[i]);
      }
      assert turns[..|turns|] == turns;
      return StillRunning;
    }
  }
}
