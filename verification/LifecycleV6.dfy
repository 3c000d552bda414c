/**
The life of a DHCPv6 lease, which holds a list of addresses and no route. As for DHCPv4, the lease that the client
remembers agrees with what it holds on the interface, and only cancellation ends its loop.
*/
module LifecycleV6 {
  import opened Wrappers
  import opened Bytes
  import opened Leases
  import opened Interfaces
  import PacketV6
  import V6Lease

  /** Exactly what the lease calls for; nothing without a lease. */
  ghost predicate Holds(link: Interface, lease: Option<LeaseV6>)
    reads link
  {
    match lease
    case None => link.addrs == {} && link.dns == []
    case Some(l) => link.addrs == CidrsOf(l.addresses) && link.dns == l.dns
  }

  function CidrAt(a: V6Addr): Cidr {
    Cidr(a.ip, a.prefixLen)
  }

  lemma CidrsSnoc(addresses: seq<V6Addr>, i: nat)
    requires i < |addresses|
    ensures CidrsOf(addresses[..i + 1]) == CidrsOf(addresses[..i]) + {CidrAt(addresses[i])}
  {
    var longer := addresses[..i + 1];
    assert forall j | 0 <= j < i :: addresses[..i][j] == longer[j];
    assert CidrAt(longer[i]) in CidrsOf(longer);
  }

  lemma CidrsPrefix(addresses: seq<V6Addr>, i: nat)
    requires i <= |addresses|
    ensures CidrsOf(addresses[..i]) <= CidrsOf(addresses)
    ensures CidrsOf(addresses[..|addresses|]) == CidrsOf(addresses)
  {
    assert forall j | 0 <= j < i :: addresses[..i][j] == addresses[j];
    assert addresses[..|addresses|] == addresses;
  }

  // ---------------------------------------------------------------- applying and removing a lease

  /** The map of addresses that rollback and cleanup build. */
  method CidrSet(addresses: seq<V6Addr>) returns (cidrs: set<Cidr>)
    ensures cidrs == CidrsOf(addresses)
  {
    cidrs := {};
    for i := 0 to |addresses|
      invariant cidrs == CidrsOf(addresses[..i])
    {
      CidrsSnoc(addresses, i);
      cidrs := cidrs + {CidrAt(addresses[i])};
    }
    CidrsPrefix(addresses, |addresses|);
  }

  /** Deletes the addresses that are not to be kept. */
  method DeleteExcept(link: Interface, addresses: seq<V6Addr>, keep: set<Cidr>)
    modifies link`addrs
    ensures link.addrs == old(link.addrs) - (CidrsOf(addresses) - keep)
  {
    for i := 0 to |addresses|
      invariant link.addrs == old(link.addrs) - (CidrsOf(addresses[..i]) - keep)
    {
      CidrsSnoc(addresses, i);
      if CidrAt(addresses[i]) !in keep {
        link.AddrDel(CidrAt(addresses[i]));
      }
    }
    CidrsPrefix(addresses, |addresses|);
  }

  method UnapplyLeaseV6(link: Interface, lease: LeaseV6)
    modifies link`addrs, link`dns
    ensures link.addrs == old(link.addrs) - CidrsOf(lease.addresses) && link.dns == []
  {
    link.RemoveNameservers();
    DeleteExcept(link, lease.addresses, {});
  }

  method RollbackLeaseTransitionV6(link: Interface, attempted: LeaseV6, previous: Option<LeaseV6>)
    requires
      var held := if previous.Some? then CidrsOf(previous.value.addresses) else {};
      held <= link.addrs <= held + CidrsOf(attempted.addresses)
    requires link.dns == if previous.Some? then previous.value.dns else []
    modifies link`addrs, link`dns
    ensures Holds(link, previous)
  {
    if previous.None? {
      UnapplyLeaseV6(link, attempted);
      return;
    }
    var held := CidrSet(previous.value.addresses);
    DeleteExcept(link, attempted.addresses, held);
  }

  /** The steps up to the first that fails. */
  method ApplySteps(link: Interface, lease: LeaseV6) returns (ok: bool)
    modifies link`addrs, link`dns, link`failures
    ensures ok <==> link.failures == old(link.failures)
    ensures old(link.addrs) <= link.addrs <= old(link.addrs) + CidrsOf(lease.addresses)
    ensures link.dns == if ok then lease.dns else old(link.dns)
    ensures ok ==> link.addrs == old(link.addrs) + CidrsOf(lease.addresses)
  {
    for i := 0 to |lease.addresses|
      invariant link.addrs == old(link.addrs) + CidrsOf(lease.addresses[..i])
      invariant link.dns == old(link.dns) && link.failures == old(link.failures)
    {
      CidrsSnoc(lease.addresses, i);
      CidrsPrefix(lease.addresses, i + 1);
      ok := link.AddrReplace(CidrAt(lease.addresses[i]));
      if !ok { return; }
    }
    CidrsPrefix(lease.addresses, |lease.addresses|);
    ok := link.SetNameservers(lease.dns);
  }

  /** All of the new lease beside the old addresses, or, exactly when a command fails, no change at all. */
  method ApplyLeaseV6Replacing(link: Interface, lease: LeaseV6, previous: Option<LeaseV6>) returns (ok: bool)
    requires Holds(link, previous)
    modifies link`addrs, link`dns, link`failures
    ensures ok <==> link.failures == old(link.failures)
    ensures !ok ==> Holds(link, previous)
    ensures ok ==> link.addrs == old(link.addrs) + CidrsOf(lease.addresses) && link.dns == lease.dns
  {
    ok := ApplySteps(link, lease);
    if !ok {
      RollbackLeaseTransitionV6(link, lease, previous);
    }
  }

  method CleanupSupersededLeaseV6(link: Interface, previous: LeaseV6, lease: LeaseV6)
    modifies link`addrs
    ensures link.addrs == old(link.addrs) - (CidrsOf(previous.addresses) - CidrsOf(lease.addresses))
  {
    var current := CidrSet(lease.addresses);
    DeleteExcept(link, previous.addresses, current);
  }

  // ---------------------------------------------------------------- the client

  /** How an exchange with the servers ends. */
  datatype Exchange = Replied(m: PacketV6.Message, server: seq<byte>) | Failed

  /** What happens around one turn of the loop: whether the client can tell who it is, how each exchange would end,
      whether the context is done when the client waits, and whether it is done by the end of an acquisition. */
  datatype Turn = Turn(identity: Option<seq<byte>>, renewal: Exchange, rebind: Exchange,
                       acquisition: Exchange, iaid: u32, cancelled: bool, stopping: bool)

  /** A turn that was worked on, when that was to be and when it began. */
  datatype Work = Work(turn: Turn, due: Time, begun: Time)

  /** What has been done since: these turns, in their order and none before its time. */
  ghost predicate Worked(before: seq<Work>, done: seq<Work>, turns: seq<Turn>) {
    && |done| == |before| + |turns| && done[..|before|] == before
    && forall i | |before| <= i < |done| :: done[i].turn == turns[i - |before|] && done[i].due <= done[i].begun
  }

  lemma OneMoreTurn(before: seq<Work>, done: seq<Work>, turns: seq<Turn>, i: nat, w: Work)
    requires i < |turns| && Worked(before, done, turns[..i]) && w.turn == turns[i] && w.due <= w.begun
    ensures Worked(before, done + [w], turns[..i + 1])
  {
  }

  datatype LoopEnd = Cancelled | NothingToDo | StillRunning

  const RECOVERY_RETRY: Time := 5 * SECOND

  /** A reply that a first lease can be read from. */
  ghost predicate Proper(e: Exchange, iaid: u32) {
    && e.Replied? && V6Lease.ReplyFailure(e.m, iaid).None?
    && exists a | a in V6Lease.Offered(e.m) :: a.valid != 0
  }

  /** What an acquired lease looks like. */
  ghost predicate Acquired(l: LeaseV6, e: Exchange, iaid: u32, client: seq<byte>) {
    Proper(e, iaid) && l == V6Lease.ReplyLease(e.m, e.server, iaid, client, l.acquiredAt)
  }

  class Client {
    const link: Interface
    var lease: Option<LeaseV6>
    var retryAt: Time
    var clock: Time

    ghost var done: seq<Work>

    /** What holds at every head of the loop. */
    ghost predicate Valid()
      reads this, link
    {
      && Holds(link, lease)
      && ZERO_TIME < clock && ZERO_TIME <= retryAt
      && (lease.None? ==> retryAt != ZERO_TIME)
      && (lease.Some? ==> ZERO_TIME < lease.value.acquiredAt && WellFormedV6(lease.value))
      && (lease.Some? && retryAt != ZERO_TIME ==> RenewalDeadlineV6(lease.value) <= retryAt)
    }

    constructor (link: Interface, now: Time)
      requires Holds(link, None) && ZERO_TIME < now
      ensures this.link == link && lease == None && retryAt == ZERO_TIME && clock == now && done == []
    {
      this.link := link;
      lease, retryAt, clock := None, ZERO_TIME, now;
      done := [];
    }

    /** The clock runs forward. */
    method Now() returns (now: Time)
      modifies this`clock
      ensures now == clock && old(clock) <= clock
    {
      var passed: int := *;
      if passed > 0 {
        clock := clock + passed;
      }
      now := clock;
    }

    /** runDHCPv6: the lease in the reply, if it is a proper one. */
    method Acquire(e: Exchange, iaid: u32, client: seq<byte>) returns (r: Option<LeaseV6>)
      requires ZERO_TIME < clock
      modifies this`clock
      ensures old(clock) <= clock
      ensures r.Some? <==> Proper(e, iaid)
      ensures r.Some? ==> Acquired(r.value, e, iaid, client) && WellFormedV6(r.value) && r.value.acquiredAt == clock
    {
      if e.Failed? {
        return None;
      }
      var now := Now();
      var parsed := V6Lease.ParseLeaseV6(e.m, e.server, iaid, client, now);
      return if parsed.Ok? then Some(parsed.value) else None;
    }

    /** startNativeV6, up to the loop, which only a daemon enters; a one-shot start leaves the lease in place. It
        succeeds exactly when a proper reply comes and no command fails. */
    method Start(acquisition: Exchange, iaid: u32, client: seq<byte>, daemonMode: bool)
      returns (ok: bool, looping: bool)
      requires Holds(link, None) && lease == None && retryAt == ZERO_TIME && ZERO_TIME < clock
      modifies this`lease, this`retryAt, this`clock, link
      ensures ok <==> Proper(acquisition, iaid) && link.failures == old(link.failures)
      ensures ok ==> link.up
      ensures ok ==> Valid() && lease.Some? && Acquired(lease.value, acquisition, iaid, client)
      ensures !ok ==> Holds(link, None)
      ensures looping <==> ok && daemonMode
    {
      looping := false;
      ok := link.LinkUp();
      if !ok {
        return;
      }
      var acquired := Acquire(acquisition, iaid, client);
      if acquired.None? {
        return false, false;
      }
      ok := ApplyLeaseV6Replacing(link, acquired.value, None);
      if ok {
        lease := acquired;
        looping := daemonMode;
      }
    }

    method ScheduleRetry()
      modifies this`retryAt, this`clock
      ensures old(clock) <= clock && retryAt == clock + RECOVERY_RETRY
    {
      var now := Now();
      retryAt := now + RECOVERY_RETRY;
    }

    /** What is left after a new lease has been sought. */
    ghost predicate Replaced(turn: Turn, failed: bool)
      reads this
    {
      if turn.identity.Some? && Proper(turn.acquisition, turn.iaid) && !failed
      then lease.Some? && Acquired(lease.value, turn.acquisition, turn.iaid, turn.identity.value)
      else lease.None? && (retryAt == clock + RECOVERY_RETRY || turn.stopping)
    }

    method ReacquireV6(turn: Turn)
      requires Valid() && lease.None?
      modifies this`lease, this`retryAt, this`clock, link
      ensures Valid() && old(clock) <= clock
      ensures Replaced(turn, link.failures != old(link.failures))
      ensures lease.Some? ==> retryAt == ZERO_TIME
    {
      var acquired := None;
      if turn.identity.Some? {
        acquired := Acquire(turn.acquisition, turn.iaid, turn.identity.value);
      }
      if acquired.None? {
        if !turn.stopping {
          ScheduleRetry();
        }
        return;
      }
      var ok := ApplyLeaseV6Replacing(link, acquired.value, None);
      if !ok {
        ScheduleRetry();
        return;
      }
      lease, retryAt := acquired, ZERO_TIME;
    }

    method ExpireV6(held: LeaseV6)
      requires Valid() && lease == Some(held)
      modifies this`lease, this`retryAt, this`clock, link`addrs, link`dns
      ensures Valid() && lease == None && old(clock) <= clock && retryAt == clock
    {
      UnapplyLeaseV6(link, held);
      if lease == Some(held) {
        var now := Now();
        lease, retryAt := None, now;
      }
    }

    /** renewLeaseV6 and rebindLeaseV6, from the reply on. */
    method Renew(held: LeaseV6, e: Exchange, client: seq<byte>) returns (r: Option<Result<LeaseV6, V6Lease.Failure>>)
      requires ZERO_TIME < clock
      modifies this`clock
      ensures old(clock) <= clock
      ensures e.Failed? <==> r.None?
      ensures e.Replied? ==> r == Some(V6Lease.Renewed(held, e.m, e.server, client, clock))
    {
      if e.Failed? {
        return None;
      }
      var now := Now();
      var renewed := V6Lease.ParseRenewedLeaseV6(e.m, e.server, client, held, now);
      return Some(renewed);
    }

    /** maintainV6 from a failed exchange on: the lease is kept for a retry unless an address has expired meanwhile. */
    method AfterFailure(held: LeaseV6)
      requires Valid() && lease == Some(held) && RenewalDeadlineV6(held) <= clock
      modifies this`lease, this`retryAt, this`clock, link`addrs, link`dns
      ensures Valid() && old(clock) <= clock
      ensures if lease.None? then ExpiryDeadlineV6(held) <= clock && retryAt == clock
              else lease == Some(held) && retryAt == clock + RECOVERY_RETRY
    {
      var now := Now();
      if now >= ExpiryDeadlineV6(held) {
        ExpireV6(held);
        return;
      }
      ScheduleRetry();
    }

    /** maintainV6 from a renewed lease on: it takes the place of the held one unless a command fails. */
    method AdoptV6(held: LeaseV6, renewed: LeaseV6)
      requires Valid() && lease == Some(held) && RenewalDeadlineV6(held) <= clock
      requires WellFormedV6(renewed) && ZERO_TIME < renewed.acquiredAt
      modifies this`lease, this`retryAt, this`clock, link
      ensures Valid() && old(clock) <= clock
      ensures if link.failures == old(link.failures) then lease == Some(renewed) && retryAt == ZERO_TIME
              else lease == Some(held) && retryAt == clock + RECOVERY_RETRY
    {
      var ok := ApplyLeaseV6Replacing(link, renewed, lease);
      if !ok {
        ScheduleRetry();
        return;
      }
      CleanupSupersededLeaseV6(link, held, renewed);
      lease, retryAt := Some(renewed), ZERO_TIME;
    }

    /** The exchange that a moment calls for: a rebinding from the rebinding deadline on, a renewal before. */
    static function Due(held: LeaseV6, turn: Turn, at: Time): Exchange {
      if RebindDeadlineV6(held) <= at then turn.rebind else turn.renewal
    }

    /** What that exchange comes to when its reply is read at the moment `heard`. */
    static function Verdict(held: LeaseV6, turn: Turn, at: Time, heard: Time)
      : Option<Result<LeaseV6, V6Lease.Failure>>
    {
      if turn.identity.None? then None
      else match Due(held, turn, at)
           case Failed => None
           case Replied(m, server) => Some(V6Lease.Renewed(held, m, server, turn.identity.value, heard))
    }

    /** What an exchange leaves behind. One that leaves no address makes the client seek a new lease. A renewed lease
        takes the place of the held one unless a command fails; otherwise that is kept for a retry, or gone if an
        address of it has expired meanwhile. */
    ghost predicate Settled(held: LeaseV6, verdict: Option<Result<LeaseV6, V6Lease.Failure>>, turn: Turn, failed: bool)
      reads this
    {
      match verdict
      case Some(Err(NoAddresses)) => Replaced(turn, failed)
      case Some(Ok(renewed)) =>
        if failed then lease == Some(held) && retryAt == clock + RECOVERY_RETRY
        else lease == Some(renewed) && retryAt == ZERO_TIME
      case _ =>
        if lease.None? then ExpiryDeadlineV6(held) <= clock && retryAt == clock
        else lease == Some(held) && retryAt == clock + RECOVERY_RETRY
    }

    /** maintainV6 from the exchange on. */
    method ExchangeV6(held: LeaseV6, turn: Turn, at: Time) returns (ghost heard: Time)
      requires Valid() && lease == Some(held) && RenewalDeadlineV6(held) <= at <= clock && turn.identity.Some?
      modifies this`lease, this`retryAt, this`clock, link
      ensures Valid() && old(clock) <= heard <= clock
      ensures Settled(held, Verdict(held, turn, at, heard), turn, link.failures != old(link.failures))
    {
      var exchange := if at >= RebindDeadlineV6(held) then turn.rebind else turn.renewal;
      var r := Renew(held, exchange, turn.identity.value);
      heard := clock;
      if r.None? || r.value.Err? {
        if r.Some? && r.value.error == V6Lease.NoAddresses {
          ExpireV6(held);
          ReacquireV6(turn);
          return;
        }
        AfterFailure(held);
        return;
      }
      V6Lease.RenewedIsWellFormed(held, exchange.m, exchange.server, turn.identity.value, clock);
      AdoptV6(held, r.value.value);
    }

    /** One turn's work, decided `at` some moment of it. Without a lease, and with one of which an address has expired,
        the client seeks a new one. Before the renewal deadline nothing happens. From then on the exchange that is due
        settles what becomes of the lease; a client that cannot tell who it is retries. */
    method MaintainV6(turn: Turn) returns (ghost at: Time, ghost heard: Time)
      requires Valid()
      modifies this, link
      ensures Valid() && old(clock) <= at <= heard <= clock
      ensures done == old(done) + [Work(turn, old(NextAction()), old(clock))]
      ensures old(lease).None? || ExpiryDeadlineV6(old(lease).value) <= at
              ==> Replaced(turn, link.failures != old(link.failures))
      ensures old(lease).Some? && at < ExpiryDeadlineV6(old(lease).value) && at < RenewalDeadlineV6(old(lease).value)
              ==> lease == old(lease) && retryAt == old(retryAt)
      ensures old(lease).Some? && RenewalDeadlineV6(old(lease).value) <= at < ExpiryDeadlineV6(old(lease).value) ==>
                Settled(old(lease).value, Verdict(old(lease).value, turn, at, heard), turn,
                        link.failures != old(link.failures))
    {
      at, heard := clock, clock;
      done := done + [Work(turn, NextAction(), clock)];
      if lease.None? {
        ReacquireV6(turn);
        return;
      }
      var held := lease.value;
      var now := Now();
      at, heard := now, now;
      if now >= ExpiryDeadlineV6(held) {
        ExpireV6(held);
        ReacquireV6(turn);
        return;
      }
      if now < RenewalDeadlineV6(held) {
        return;
      }
      if turn.identity.None? {
        ScheduleRetry();
        return;
      }
      heard := ExchangeV6(held, turn, now);
    }

    method Release()
      requires Valid()
      modifies link`addrs, link`dns
      ensures Holds(link, None)
    {
      if lease.Some? {
        UnapplyLeaseV6(link, lease.value);
      }
    }

    function NextAction(): Time
      reads this
    {
      if retryAt != ZERO_TIME then retryAt
      else if lease.Some? then RenewalDeadlineV6(lease.value)
      else ZERO_TIME
    }

    /** The timer, which fires no earlier than the next action; so a lease that is held then is due. */
    method Wait()
      requires Valid()
      modifies this`clock
      ensures Valid() && old(clock) <= clock && NextAction() <= clock
      ensures lease.Some? ==> RenewalDeadlineV6(lease.value) <= clock
    {
      var now := Now();
      if now < NextAction() {
        clock := NextAction();
      }
    }

    /** Any number of turns. The lease and the interface agree at the head of each; there always is a next action, no
        turn comes before it and none is left out; and only cancellation ends the loop, which leaves nothing behind. */
    method RenewLoop(turns: seq<Turn>) returns (end: LoopEnd)
      requires Valid()
      modifies this, link
      ensures end != NothingToDo
      ensures end == StillRunning ==> Valid() && Worked(old(done), done, turns) && forall t | t in turns :: !t.cancelled
      ensures end == Cancelled ==>
                && Holds(link, None)
                && exists n | 0 <= n < |turns| ::
                     && turns[n].cancelled && Worked(old(done), done, turns[..n])
                     && forall t | t in turns[..n] :: !t.cancelled
    {
      for i := 0 to |turns|
        invariant Valid() && Worked(old(done), done, turns[..i])
        invariant forall t | t in turns[..i] :: !t.cancelled
      {
        var nextAction := NextAction();
        if nextAction == ZERO_TIME {
          return NothingToDo;
        }
        if turns[i].cancelled {
          Release();
          assert turns[i].cancelled;
          return Cancelled;
        }
        Wait();
        OneMoreTurn(old(done), done, turns, i, Work(turns[i], NextAction(), clock));
        ghost var _, _ := MaintainV6(turns[i]);
      }
      assert turns[..|turns|] == turns;
      return StillRunning;
    }
  }
}
