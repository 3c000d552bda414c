/** Leases of both families: what they record, their timers and the addresses they put on an interface. */
module Leases {
  import opened Bytes

  /** Instants in nanoseconds; zero is Go's zero time. */
  type Time = int

  const ZERO_TIME: Time := 0
  const SECOND: int := 1_000_000_000

  /** An empty router, domain or server stands for one that is not known. */
  datatype Lease = Lease(
    ip: seq<byte>, mask: seq<byte>, router: seq<byte>, dns: seq<seq<byte>>,
    domain: seq<byte>, server: seq<byte>,
    leaseTime: u32, renewTime: u32, rebindTime: u32, acquiredAt: Time)

  datatype V6Addr = V6Addr(ip: seq<byte>, prefixLen: nat, preferred: u32, valid: u32)

  datatype LeaseV6 = LeaseV6(
    addresses: seq<V6Addr>, dns: seq<seq<byte>>, server: seq<byte>, client: seq<byte>, iaid: u32,
    renewTime: u32, rebindTime: u32, acquiredAt: Time)

  datatype Cidr = Cidr(ip: seq<byte>, prefixLen: nat)

  // ---------------------------------------------------------------- addresses on the interface

  /** The one-bits of a byte that are followed by zero-bits only; 9 for any other byte. */
  function LeadingOnes(b: byte): nat {
    if b == 0 then 0 else if b == 0x80 then 1 else if b == 0xC0 then 2 else if b == 0xE0 then 3
    else if b == 0xF0 then 4 else if b == 0xF8 then 5 else if b == 0xFC then 6 else if b == 0xFE then 7
    else if b == 0xFF then 8 else 9
  }

  /** net.IPMask.Size: zero for a mask that is not ones followed by zeros. */
  function MaskSize(mask: seq<byte>): nat {
    if mask == [] then 0
    else if mask[0] == 0xFF && (forall i | 1 <= i < |mask| :: mask[i] == 0) then 8
    else if mask[0] == 0xFF then (if MaskSize(mask[1..]) == 0 then 0 else 8 + MaskSize(mask[1..]))
    else if LeadingOnes(mask[0]) < 8 && (forall i | 1 <= i < |mask| :: mask[i] == 0) then LeadingOnes(mask[0])
    else 0
  }

  function CidrOf(l: Lease): Cidr {
    var ones := MaskSize(l.mask);
    Cidr(l.ip, if ones == 0 then 32 else ones)
  }

  /** The first bits of a byte, up to bit j. */
  function Front(b: byte, j: nat): nat
    requires j < 8
  {
    match j
    case 0 => b / 0x80
    case 1 => b / 0x40
    case 2 => b / 0x20
    case 3 => b / 0x10
    case 4 => b / 8
    case 5 => b / 4
    case 6 => b / 2
    case _ => b
  }

  /** Bit j of a byte, the highest first. */
  predicate BitOf(b: byte, j: nat)
    requires j < 8
  {
    Front(b, j) % 2 == 1
  }

  /** The first n bits are ones, and no others. */
  ghost predicate IsPrefix(mask: seq<byte>, n: nat) {
    n <= 8 * |mask| && forall i, j | 0 <= i < |mask| && 0 <= j < 8 :: BitOf(mask[i], j) <==> 8 * i + j < n
  }

  ghost predicate ByteIsPrefix(b: byte, n: int) {
    forall j | 0 <= j < 8 :: BitOf(b, j) <==> j < n
  }

  lemma OneMoreBit(b: byte, j: nat)
    requires 0 < j < 8
    ensures Front(b, j) == 2 * Front(b, j - 1) + if BitOf(b, j) then 1 else 0
  {
  }

  lemma OnesAreBits(b: byte)
    requires LeadingOnes(b) <= 8
    ensures ByteIsPrefix(b, LeadingOnes(b))
  {
  }

  lemma BitsAreOnes(b: byte, n: nat)
    requires n <= 8 && ByteIsPrefix(b, n)
    ensures LeadingOnes(b) == n
  {
    FrontIs(b, n, 7);
    EightBits(n);
  }

  lemma EightBits(n: nat)
    requires n <= 8
    ensures 0 <= Ones(8, n) <= 0xFF && LeadingOnes(Ones(8, n)) == n
  {
    assert Ones(1, n) == if 1 <= n then 1 else 0;
    assert Ones(2, n) == 2 * Ones(1, n) + if 2 <= n then 1 else 0;
    assert Ones(3, n) == 2 * Ones(2, n) + if 3 <= n then 1 else 0;
    assert Ones(4, n) == 2 * Ones(3, n) + if 4 <= n then 1 else 0;
    assert Ones(5, n) == 2 * Ones(4, n) + if 5 <= n then 1 else 0;
    assert Ones(6, n) == 2 * Ones(5, n) + if 6 <= n then 1 else 0;
    assert Ones(7, n) == 2 * Ones(6, n) + if 7 <= n then 1 else 0;
  }

  /** The first j + 1 bits of a byte that begins with n ones, or with j + 1. */
  lemma {:induction false} FrontIs(b: byte, n: nat, j: nat)
    requires j < 8 && n <= 8 && ByteIsPrefix(b, n)
    ensures Front(b, j) == Ones(j + 1, n)
  {
    assert BitOf(b, j) <==> j < n;
    if j > 0 {
      OneMoreBit(b, j);
      FrontIs(b, n, j - 1);
    }
  }

  /** k binary digits of which the first n are ones, and no others. */
  function Ones(k: nat, n: nat): nat {
    if k == 0 then 0 else 2 * Ones(k - 1, n) + if k <= n then 1 else 0
  }

  lemma ByteOfPrefix(mask: seq<byte>, n: nat, i: nat)
    requires i < |mask|
    requires forall j | 0 <= j < 8 :: BitOf(mask[i], j) <==> 8 * i + j < n
    ensures LeadingOnes(mask[i]) == if n <= 8 * i then 0 else if n >= 8 * i + 8 then 8 else n - 8 * i
  {
    var k := if n <= 8 * i then 0 else if n >= 8 * i + 8 then 8 else n - 8 * i;
    BitsAreOnes(mask[i], k);
  }

  lemma {:induction false} PrefixHasSize(mask: seq<byte>, n: nat)
    requires IsPrefix(mask, n)
    ensures MaskSize(mask) == n
  {
    forall i | 0 <= i < |mask|
      ensures LeadingOnes(mask[i]) == if n <= 8 * i then 0 else if n >= 8 * i + 8 then 8 else n - 8 * i
    {
      ByteOfPrefix(mask, n, i);
    }
    if mask != [] && n >= 8 {
      var rest := mask[1..];
      assert IsPrefix(rest, n - 8) by {
        forall i, j | 0 <= i < |rest| && 0 <= j < 8
          ensures BitOf(rest[i], j) <==> 8 * i + j < n - 8
        {
          assert BitOf(mask[i + 1], j) <==> 8 * (i + 1) + j < n;
        }
      }
      PrefixHasSize(rest, n - 8);
    }
  }

  lemma {:induction false} SizeIsPrefix(mask: seq<byte>)
    ensures MaskSize(mask) > 0 ==> IsPrefix(mask, MaskSize(mask))
  {
    if MaskSize(mask) > 0 {
      var n, rest := MaskSize(mask), mask[1..];
      SizeIsPrefix(rest);
      forall i, j | 0 <= i < |mask| && 0 <= j < 8
        ensures BitOf(mask[i], j) <==> 8 * i + j < n
      {
        OnesAreBits(if mask[i] in {0, 0xFF} || i == 0 then mask[i] else 0);
        if i > 0 && mask[i] == rest[i - 1] && MaskSize(rest) > 0 {
          assert BitOf(rest[i - 1], j) <==> 8 * (i - 1) + j < MaskSize(rest);
        }
      }
    }
  }

  /** The prefix on the interface is the number of ones at the front of the mask; 32 for a mask of zeros only, and for
      one that is not ones followed by zeros. */
  lemma CidrPrefix(l: Lease)
    ensures CidrOf(l).ip == l.ip
    ensures forall n: nat | n > 0 && IsPrefix(l.mask, n) :: CidrOf(l).prefixLen == n
    ensures (forall n: nat | n > 0 :: !IsPrefix(l.mask, n)) ==> CidrOf(l).prefixLen == 32
  {
    SizeIsPrefix(l.mask);
    forall n: nat | n > 0 && IsPrefix(l.mask, n)
      ensures CidrOf(l).prefixLen == n
    {
      PrefixHasSize(l.mask, n);
    }
  }

  function CidrsOf(addresses: seq<V6Addr>): set<Cidr> {
    set i | 0 <= i < |addresses| :: Cidr(addresses[i].ip, addresses[i].prefixLen)
  }

  // ---------------------------------------------------------------- DHCPv4 timers

  /** The products are taken in 32 bits, as the fields are. */
  function RenewalDeadline(l: Lease): Time {
    l.acquiredAt + (if l.renewTime != 0 then l.renewTime else l.leaseTime / 2) * SECOND
  }

  function RebindDeadline(l: Lease): Time {
    l.acquiredAt + (if l.rebindTime != 0 then l.rebindTime else Low32(l.leaseTime * 7) / 8) * SECOND
  }

  function ExpiryDeadline(l: Lease): Time {
    l.acquiredAt + l.leaseTime * SECOND
  }

  /** t whole seconds after x. */
  predicate SecondsAfter(x: Time, t: int, y: Time) {
    y - x == t * SECOND
  }

  /** The timers a server sends are taken as they are. Without them a lease is renewed after half its time, rounded
      down, and rebound after seven eighths, rounded down, as long as the product fits 32 bits. */
  lemma V4Timers(l: Lease)
    ensures l.renewTime != 0 ==> SecondsAfter(l.acquiredAt, l.renewTime, RenewalDeadline(l))
    ensures l.rebindTime != 0 ==> SecondsAfter(l.acquiredAt, l.rebindTime, RebindDeadline(l))
    ensures SecondsAfter(l.acquiredAt, l.leaseTime, ExpiryDeadline(l))
    ensures l.renewTime == 0 ==>
              exists t: int :: SecondsAfter(l.acquiredAt, t, RenewalDeadline(l)) && 2 * t <= l.leaseTime < 2 * (t + 1)
    ensures l.rebindTime == 0 && l.leaseTime <= MAX_ORDERED_LEASE ==>
              exists t: int ::
                SecondsAfter(l.acquiredAt, t, RebindDeadline(l)) && 8 * t <= 7 * l.leaseTime < 8 * (t + 1)
  {
    var half, most := l.leaseTime / 2, l.leaseTime * 7 / 8;
    assert l.renewTime == 0 ==> SecondsAfter(l.acquiredAt, half, RenewalDeadline(l));
    assert l.rebindTime == 0 && l.leaseTime <= MAX_ORDERED_LEASE ==>
             SecondsAfter(l.acquiredAt, most, RebindDeadline(l));
  }

  /** With both timers from the server the deadlines are in order exactly when the server's times are. */
  lemma V4ServerTimersOrdered(l: Lease)
    requires l.renewTime != 0 && l.rebindTime != 0
    ensures RenewalDeadline(l) <= RebindDeadline(l) <= ExpiryDeadline(l)
            <==> l.renewTime <= l.rebindTime <= l.leaseTime
  {
    Scaled(l.renewTime, l.rebindTime);
    Scaled(l.rebindTime, l.leaseTime);
  }

  /** The largest lease time whose seven-fold fits 32 bits. */
  const MAX_ORDERED_LEASE: u32 := 613566756

  /** Without timers from the server, the client renews, then rebinds, then expires: for every lease time up to the
      limit, and for none above it, where the product wraps and rebinding falls before renewal. */
  lemma V4TimersOrdered(l: Lease)
    requires l.renewTime == 0 && l.rebindTime == 0
    ensures RenewalDeadline(l) <= RebindDeadline(l) <= ExpiryDeadline(l) <==> l.leaseTime <= MAX_ORDERED_LEASE
  {
    V4TimersOrderedInSeconds(l.leaseTime);
    Scaled(l.leaseTime / 2, Low32(l.leaseTime * 7) / 8);
    Scaled(Low32(l.leaseTime * 7) / 8, l.leaseTime);
  }

  lemma V4TimersOrderedInSeconds(t: u32)
    ensures t / 2 <= Low32(t * 7) / 8 <= t <==> t <= MAX_ORDERED_LEASE
  {
    var q := t * 7 / 0x1_0000_0000;
    assert 0 <= q <= 6 && Low32(t * 7) == t * 7 - q * 0x1_0000_0000;
  }

  lemma Scaled(x: int, y: int)
    ensures x <= y <==> x * SECOND <= y * SECOND
  {
  }

  // ---------------------------------------------------------------- DHCPv6 timers

  predicate Shortest(lifetimes: seq<u32>, s: u32) {
    s in lifetimes && forall x | x in lifetimes :: s <= x
  }

  function ValidLifetimes(addresses: seq<V6Addr>): (r: seq<u32>)
    ensures |r| == |addresses| && forall i | 0 <= i < |r| :: r[i] == addresses[i].valid
  {
    seq(|addresses|, i requires 0 <= i < |addresses| => addresses[i].valid)
  }

  function PreferredLifetimes(addresses: seq<V6Addr>): (r: seq<u32>)
    ensures |r| == |addresses| && forall i | 0 <= i < |r| :: r[i] == addresses[i].preferred
  {
    seq(|addresses|, i requires 0 <= i < |addresses| => addresses[i].preferred)
  }

  function Min(lifetimes: seq<u32>): (r: u32)
    requires lifetimes != []
    ensures Shortest(lifetimes, r)
  {
    if |lifetimes| == 1 then lifetimes[0]
    else
      var rest := Min(lifetimes[1..]);
      assert lifetimes == [lifetimes[0]] + lifetimes[1..];
      if lifetimes[0] <= rest then lifetimes[0] else rest
  }

  lemma MinIs(lifetimes: seq<u32>, s: u32)
    requires lifetimes != [] && Shortest(lifetimes, s)
    ensures Min(lifetimes) == s
  {
  }

  /** shortestValidLifetime. */
  method ShortestValidLifetime(addresses: seq<V6Addr>) returns (shortest: u32, found: bool)
    ensures found <==> addresses != []
    ensures found ==> shortest == Min(ValidLifetimes(addresses))
  {
    shortest, found := 0, false;
    for i := 0 to |addresses|
      invariant found <==> i > 0
      invariant found ==> Shortest(ValidLifetimes(addresses)[..i], shortest)
    {
      if !found || addresses[i].valid < shortest {
        shortest := addresses[i].valid;
        found := true;
      }
      assert ValidLifetimes(addresses)[..i + 1] == ValidLifetimes(addresses)[..i] + [addresses[i].valid];
    }
    if found {
      assert ValidLifetimes(addresses)[..|addresses|] == ValidLifetimes(addresses);
      MinIs(ValidLifetimes(addresses), shortest);
    }
  }

  /** shortestPreferredLifetime. */
  method ShortestPreferredLifetime(addresses: seq<V6Addr>) returns (shortest: u32, found: bool)
    ensures found <==> addresses != []
    ensures found ==> shortest == Min(PreferredLifetimes(addresses))
  {
    shortest, found := 0, false;
    for i := 0 to |addresses|
      invariant found <==> i > 0
      invariant found ==> Shortest(PreferredLifetimes(addresses)[..i], shortest)
    {
      if !found || addresses[i].preferred < shortest {
        shortest := addresses[i].preferred;
        found := true;
      }
      assert PreferredLifetimes(addresses)[..i + 1] == PreferredLifetimes(addresses)[..i] + [addresses[i].preferred];
    }
    if found {
      assert PreferredLifetimes(addresses)[..|addresses|] == PreferredLifetimes(addresses);
      MinIs(PreferredLifetimes(addresses), shortest);
    }
  }

  function RenewalDeadlineV6(l: LeaseV6): Time {
    if l.addresses == [] then ZERO_TIME
    else l.acquiredAt + (if l.renewTime != 0 then l.renewTime else Min(PreferredLifetimes(l.addresses)) / 2) * SECOND
  }

  function RebindDeadlineV6(l: LeaseV6): Time {
    if l.addresses == [] then ZERO_TIME
    else
      var p := Min(PreferredLifetimes(l.addresses));
      l.acquiredAt + (if l.rebindTime != 0 then l.rebindTime else Low32(p * 4) / 5) * SECOND
  }

  function ExpiryDeadlineV6(l: LeaseV6): Time {
    if l.addresses == [] then ZERO_TIME else l.acquiredAt + Min(ValidLifetimes(l.addresses)) * SECOND
  }

  /** What the parsers promise of every DHCPv6 lease. */
  ghost predicate WellFormedV6(l: LeaseV6) {
    && l.addresses != []
    && forall a | a in l.addresses :: 0 < a.valid && a.preferred <= a.valid
  }

  /** The largest preferred lifetime whose four-fold fits 32 bits. */
  const MAX_ORDERED_PREFERRED: u32 := 1073741823

  lemma V6TimersOrdered(l: LeaseV6)
    requires WellFormedV6(l) && l.renewTime == 0 && l.rebindTime == 0
    ensures RenewalDeadlineV6(l) <= RebindDeadlineV6(l) <= ExpiryDeadlineV6(l)
            <==> Min(PreferredLifetimes(l.addresses)) <= MAX_ORDERED_PREFERRED
  {
    var p: int, v: int := Min(PreferredLifetimes(l.addresses)), Min(ValidLifetimes(l.addresses));
    ShortestPreferredFirst(l.addresses);
    V6TimersOrderedInSeconds(p, v);
    Scaled(p / 2, Low32(p * 4) / 5);
    Scaled(Low32(p * 4) / 5, v);
  }

  /** The same for DHCPv6, with half and four fifths of the shortest preferred lifetime. */
  lemma V6Timers(l: LeaseV6)
    requires l.addresses != []
    ensures l.renewTime != 0 ==> SecondsAfter(l.acquiredAt, l.renewTime, RenewalDeadlineV6(l))
    ensures l.rebindTime != 0 ==> SecondsAfter(l.acquiredAt, l.rebindTime, RebindDeadlineV6(l))
    ensures exists v: u32 ::
              Shortest(ValidLifetimes(l.addresses), v) && SecondsAfter(l.acquiredAt, v, ExpiryDeadlineV6(l))
    ensures forall p: u32 | Shortest(PreferredLifetimes(l.addresses), p) ::
              && (l.renewTime == 0 ==>
                    exists t: int :: SecondsAfter(l.acquiredAt, t, RenewalDeadlineV6(l)) && 2 * t <= p < 2 * (t + 1))
              && (l.rebindTime == 0 && p <= MAX_ORDERED_PREFERRED ==>
                    exists t: int :: SecondsAfter(l.acquiredAt, t, RebindDeadlineV6(l)) && 5 * t <= 4 * p < 5 * (t + 1))
  {
    assert SecondsAfter(l.acquiredAt, Min(ValidLifetimes(l.addresses)), ExpiryDeadlineV6(l));
    forall p: u32 | Shortest(PreferredLifetimes(l.addresses), p)
      ensures l.renewTime == 0 ==> SecondsAfter(l.acquiredAt, p / 2, RenewalDeadlineV6(l))
      ensures l.rebindTime == 0 && p <= MAX_ORDERED_PREFERRED ==>
                SecondsAfter(l.acquiredAt, p * 4 / 5, RebindDeadlineV6(l))
    {
      MinIs(PreferredLifetimes(l.addresses), p);
    }
  }

  lemma V6ServerTimersOrdered(l: LeaseV6)
    requires l.addresses != [] && l.renewTime != 0 && l.rebindTime != 0
    ensures RenewalDeadlineV6(l) <= RebindDeadlineV6(l) <= ExpiryDeadlineV6(l)
            <==> l.renewTime <= l.rebindTime <= Min(ValidLifetimes(l.addresses))
  {
    Scaled(l.renewTime, l.rebindTime);
    Scaled(l.rebindTime, Min(ValidLifetimes(l.addresses)));
  }

  /** The shortest preferred lifetime is at most that of the address whose valid lifetime is shortest. */
  lemma ShortestPreferredFirst(addresses: seq<V6Addr>)
    requires addresses != [] && forall a | a in addresses :: a.preferred <= a.valid
    ensures Min(PreferredLifetimes(addresses)) <= Min(ValidLifetimes(addresses))
  {
    var valids, preferreds := ValidLifetimes(addresses), PreferredLifetimes(addresses);
    var i :| 0 <= i < |valids| && valids[i] == Min(valids);
    assert preferreds[i] in preferreds && addresses[i] in addresses;
  }

  lemma V6TimersOrderedInSeconds(p: u32, v: u32)
    requires p <= v
    ensures p / 2 <= Low32(p * 4) / 5 <= v <==> p <= MAX_ORDERED_PREFERRED
  {
    var q := p * 4 / 0x1_0000_0000;
    assert 0 <= q <= 3 && Low32(p * 4) == p * 4 - q * 0x1_0000_0000;
  }

  // ---------------------------------------------------------------- lists of addresses in options

  /** The whole groups of n bytes from offset i on; what is left over is dropped. */
  function Groups(data: seq<byte>, i: nat, n: nat): seq<seq<byte>>
    requires n > 0
    decreases |data| - i
  {
    if i + n > |data| then [] else [data[i..i + n]] + Groups(data, i + n, n)
  }

  /** Every whole group is there, and each in its place. */
  lemma GroupsAre(data: seq<byte>, n: nat, k: nat)
    requires n > 0
    ensures |Groups(data, 0, n)| == |data| / n
    ensures k < |data| / n ==>
              0 <= k * n && k * n + n <= |data| && Groups(data, 0, n)[k] == data[k * n..k * n + n]
  {
    GroupsFrom(data, 0, n);
    Quotient(|data|, n, |Groups(data, 0, n)|);
    assert k < |data| / n ==> GroupAt(data, 0, n, k);
  }

  ghost predicate GroupAt(data: seq<byte>, i: nat, n: nat, k: nat)
    requires n > 0
  {
    && k < |Groups(data, i, n)| && 0 <= k * n && i + k * n + n <= |data|
    && Groups(data, i, n)[k] == data[i + k * n..i + k * n + n]
  }

  lemma {:induction false} GroupsFrom(data: seq<byte>, i: nat, n: nat)
    requires n > 0 && i <= |data|
    ensures var g := |Groups(data, i, n)|; g * n <= |data| - i < g * n + n
    ensures forall k | 0 <= k < |Groups(data, i, n)| :: GroupAt(data, i, n, k)
    decreases |data| - i
  {
    if i + n <= |data| {
      GroupsFrom(data, i + n, n);
      var rest := Groups(data, i + n, n);
      assert (|rest| + 1) * n == |rest| * n + n;
      forall k | 0 <= k < |rest| + 1
        ensures GroupAt(data, i, n, k)
      {
        if k > 0 {
          assert GroupAt(data, i + n, n, k - 1);
          assert k * n == (k - 1) * n + n;
        }
      }
    }
  }

  lemma Quotient(x: nat, n: nat, q: nat)
    requires n > 0 && q * n <= x < q * n + n
    ensures x / n == q
  {
    var r := x - q * n;
    assert x == q * n + r && (x / n) * n <= x < (x / n) * n + n;
    if x / n < q {
      assert (x / n + 1) * n <= q * n by { Product(x / n + 1, q, n); }
    } else if x / n > q {
      assert (q + 1) * n <= (x / n) * n by { Product(q + 1, x / n, n); }
    }
  }

  lemma Product(x: nat, y: nat, n: nat)
    requires x <= y
    ensures x * n <= y * n
  {
  }

  method SplitGroups(data: seq<byte>, n: nat) returns (groups: seq<seq<byte>>)
    requires n > 0
    ensures groups == Groups(data, 0, n)
  {
    groups := [];
    var i := 0;
    while i + n <= |data|
      invariant groups + Groups(data, i, n) == Groups(data, 0, n)
      decreases |data| - i
    {
      OneMoreGroup(groups, data[i..i + n], Groups(data, i + n, n));
      groups := groups + [data[i..i + n]];
      i := i + n;
    }
  }

  lemma OneMoreGroup(done: seq<seq<byte>>, g: seq<byte>, rest: seq<seq<byte>>)
    ensures done + ([g] + rest) == done + [g] + rest
  {
  }
}
