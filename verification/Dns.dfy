/** The resolver policy that the configuration and all DHCP clients share, and the file it is written to. */
module Dns {
  import opened Wrappers
  import opened Bytes
  import NaturalOrder
  import Scanner

  type Address = seq<byte>
  type Source = seq<byte>

  /** A name server as given: its canonical form, or nothing if it is not an address. */
  type Given = Option<Address>

  // ---------------------------------------------------------------- lists without duplicates

  predicate Distinct<T(==)>(s: seq<T>) {
    forall i, j | 0 <= i < j < |s| :: s[i] != s[j]
  }

  /** First occurrences only. */
  function Dedup<T(==, !new)>(s: seq<T>): (r: seq<T>)
    ensures Distinct(r)
    ensures forall x :: x in r <==> x in s
  {
    if s == [] then []
    else
      var before, x := s[..|s| - 1], s[|s| - 1];
      assert s == before + [x];
      if x in before then Dedup(before) else Dedup(before) + [x]
  }

  function FirstIndex<T(==)>(s: seq<T>, x: T): (i: nat)
    requires x in s
    ensures i < |s| && s[i] == x && x !in s[..i]
  {
    if s[0] == x then 0 else
      assert s == [s[0]] + s[1..];
      var i := FirstIndex(s[1..], x);
      assert s[..i + 1] == [s[0]] + s[1..][..i];
      i + 1
  }

  /** Removing duplicates keeps the order of first occurrences. */
  lemma {:induction false} DedupKeepsOrder<T(!new)>(s: seq<T>, i: nat, j: nat)
    requires i < j < |Dedup(s)|
    ensures Dedup(s)[i] in s && Dedup(s)[j] in s
    ensures FirstIndex(s, Dedup(s)[i]) < FirstIndex(s, Dedup(s)[j])
  {
    var before, x := s[..|s| - 1], s[|s| - 1];
    assert s == before + [x];
    var r := Dedup(before);
    assert r[i] in r;
    FirstIndexIn(before, [x], r[i]);
    if j < |r| {
      DedupKeepsOrder(before, i, j);
      assert r[j] in r;
      FirstIndexIn(before, [x], r[j]);
    } else {
      assert forall k | 0 <= k < |before| :: before[k] in before && s[k] != x;
    }
  }

  lemma FirstIndexIs<T>(s: seq<T>, x: T, i: nat)
    requires i < |s| && s[i] == x && x !in s[..i]
    ensures FirstIndex(s, x) == i
  {
    var j := FirstIndex(s, x);
    assert forall k | 0 <= k < i :: s[k] in s[..i];
    assert forall k | 0 <= k < j :: s[k] in s[..j];
  }

  lemma FirstIndexIn<T>(s: seq<T>, t: seq<T>, x: T)
    requires x in s
    ensures FirstIndex(s + t, x) == FirstIndex(s, x)
  {
    var i := FirstIndex(s, x);
    assert (s + t)[..i] == s[..i];
    FirstIndexIs(s + t, x, i);
  }

  // ---------------------------------------------------------------- sources in order

  ghost predicate Ascending(s: seq<Source>) {
    forall i, j | 0 <= i < j < |s| :: NaturalOrder.LexLess(s[i], s[j])
  }

  lemma {:induction false} LexTotal(a: Source, b: Source)
    ensures !(NaturalOrder.LexLess(a, b) && NaturalOrder.LexLess(b, a))
    ensures NaturalOrder.LexLess(a, b) || NaturalOrder.LexLess(b, a) <==> a != b
  {
    if a != [] && b != [] {
      LexTotal(a[1..], b[1..]);
      assert a == [a[0]] + a[1..] && b == [b[0]] + b[1..];
    }
  }

  lemma {:induction false} LexTransitive(a: Source, b: Source, c: Source)
    requires NaturalOrder.LexLess(a, b) && NaturalOrder.LexLess(b, c)
    ensures NaturalOrder.LexLess(a, c)
  {
    if a != [] && a[0] == b[0] == c[0] {
      LexTransitive(a[1..], b[1..], c[1..]);
    }
  }

  function Insert(x: Source, s: seq<Source>): seq<Source> {
    if s == [] || NaturalOrder.LexLess(x, s[0]) then [x] + s else [s[0]] + Insert(x, s[1..])
  }

  /** sort.Strings. */
  function Sort(s: seq<Source>): seq<Source> {
    if s == [] then [] else Insert(s[0], Sort(s[1..]))
  }

  lemma {:induction false} InsertAscends(x: Source, s: seq<Source>)
    requires Ascending(s) && x !in s
    ensures Ascending(Insert(x, s))
    ensures forall y :: y in Insert(x, s) <==> y == x || y in s
  {
    if s == [] {
    } else if NaturalOrder.LexLess(x, s[0]) {
      forall i | 0 <= i < |s|
        ensures NaturalOrder.LexLess(x, s[i])
      {
        if i > 0 { LexTransitive(x, s[0], s[i]); }
      }
    } else {
      LexTotal(x, s[0]);
      InsertAscends(x, s[1..]);
      assert s == [s[0]] + s[1..];
      var t := Insert(x, s[1..]);
      forall i | 0 <= i < |t|
        ensures NaturalOrder.LexLess(s[0], t[i])
      {
        assert t[i] in t;
      }
    }
  }

  lemma {:induction false} SortAscends(s: seq<Source>)
    requires Distinct(s)
    ensures Ascending(Sort(s))
    ensures forall y :: y in Sort(s) <==> y in s
  {
    if s != [] {
      assert s == [s[0]] + s[1..];
      SortAscends(s[1..]);
      InsertAscends(s[0], Sort(s[1..]));
    }
  }

  lemma NonEmptyHas(s: seq<Source>)
    ensures s != [] <==> exists y :: y in s
  {
    if s != [] {
      assert s[0] in s;
    }
  }

  /** There is only one way to put the same sources in order. */
  lemma {:induction false} AscendingIsUnique(s: seq<Source>, t: seq<Source>)
    requires Ascending(s) && Ascending(t) && forall y :: y in s <==> y in t
    ensures s == t
  {
    NonEmptyHas(s);
    NonEmptyHas(t);
    if s != [] {
      assert s[0] in t && t[0] in s by { assert s[0] in s && t[0] in t; }
      LexTotal(s[0], t[0]);
      assert s == [s[0]] + s[1..] && t == [t[0]] + t[1..];
      TailElements(s, t);
      AscendingIsUnique(s[1..], t[1..]);
    }
  }

  lemma TailElements(s: seq<Source>, t: seq<Source>)
    requires s != [] && t != [] && s[0] == t[0] && Ascending(s) && Ascending(t) && forall y :: y in s <==> y in t
    ensures forall y :: y in s[1..] <==> y in t[1..]
  {
    LexTotal(s[0], s[0]);
    forall y
      ensures y in s[1..] <==> y in t[1..]
    {
      assert y in s[1..] <==> y in s && y != s[0] by { assert s == [s[0]] + s[1..]; }
      assert y in t[1..] <==> y in t && y != t[0] by { assert t == [t[0]] + t[1..]; }
    }
  }

  /** The sources in ascending order. */
  ghost function Ordered(sources: set<Source>): (r: seq<Source>)
    ensures Ascending(r) && forall y :: y in r <==> y in sources
  {
    if sources == {} then []
    else
      var x :| x in sources;
      InsertAscends(x, Ordered(sources - {x}));
      Insert(x, Ordered(sources - {x}))
  }

  // ---------------------------------------------------------------- the policy

  datatype Policy = Policy(fixed: seq<Address>, leases: map<Source, seq<Address>>, active: bool)

  function Joined(sources: seq<Source>, leases: map<Source, seq<Address>>): seq<Address>
    requires forall s | s in sources :: s in leases
  {
    if sources == [] then []
    else Joined(sources[..|sources| - 1], leases) + leases[sources[|sources| - 1]]
  }

  /** What the policy calls for: the static name servers if there are any, otherwise those of all leases in the order
      of their sources, each once. */
  ghost function Desired(p: Policy): seq<Address> {
    if p.fixed != [] then p.fixed else Dedup(Joined(Ordered(p.leases.Keys), p.leases))
  }

  lemma {:induction false} JoinedHas(sources: seq<Source>, leases: map<Source, seq<Address>>, x: Address)
    requires forall s | s in sources :: s in leases
    ensures x in Joined(sources, leases) <==> exists s | s in sources :: x in leases[s]
  {
    if sources != [] {
      var before := sources[..|sources| - 1];
      assert sources == before + [sources[|sources| - 1]];
      JoinedHas(before, leases, x);
    }
  }

  /** Static name servers win when there are any; otherwise exactly the name servers of the leases are listed, none of
      them twice. */
  lemma DesiredMeans(p: Policy, x: Address)
    ensures p.fixed != [] ==> Desired(p) == p.fixed
    ensures p.fixed == [] ==>
              Distinct(Desired(p)) && (x in Desired(p) <==> exists s | s in p.leases :: x in p.leases[s])
  {
    JoinedHas(Ordered(p.leases.Keys), p.leases, x);
  }

  predicate Blank(source: Source) {
    Scanner.TrimSpace(source) == []
  }

  ghost predicate Canonical(given: seq<Given>) {
    forall g | g in given :: g.Some?
  }

  function Values(given: seq<Given>): seq<Address>
    requires forall g | g in given :: g.Some?
  {
    seq(|given|, i requires 0 <= i < |given| => given[i].value)
  }

  /** The policy with the name servers of one lease replaced; a lease without any is forgotten. */
  function WithLease(p: Policy, source: Source, servers: seq<Address>): Policy {
    p.(leases := if servers == [] then p.leases - {source} else p.leases[source := servers])
  }

  /** Once the file is managed it stays managed, even when nothing is left to list. */
  ghost function Activated(p: Policy): Policy {
    p.(active := p.active || Desired(p) != [])
  }

  // ---------------------------------------------------------------- the code

  /** A map on the heap, which Go shares between the structs that are copied. */
  class LeaseTable {
    var entries: map<Source, seq<Address>>

    constructor ()
      ensures entries == map[]
    {
      entries := map[];
    }
  }

  /** A captured policy. */
  datatype ManagedState = ManagedState(fixed: seq<Address>, leases: LeaseTable, active: bool)

  ghost function Captured(s: ManagedState): Policy
    reads s.leases
  {
    Policy(s.fixed, s.leases.entries, s.active)
  }

  /** /etc/resolv.conf: a list that nic wrote, whole or cut short, or anything else. */
  datatype Content = Foreign | Lists(servers: seq<Address>)

  /** What the file holds after the policy has been written: a file that was never managed is left alone while there
      is nothing to list. */
  ghost function Shown(conf: Content, p: Policy): Content {
    if p.active || Desired(p) != [] then Lists(Desired(p)) else conf
  }

  /** The map of addresses already listed. */
  ghost predicate SeenAre(seen: set<Address>, list: seq<Address>) {
    forall x :: x in seen <==> x in list
  }

  /** One more address: listed already, or noted and listed. */
  lemma OneMoreSeen(s: seq<Address>, seen: set<Address>, x: Address)
    requires SeenAre(seen, Dedup(s))
    ensures x in seen ==> Dedup(s + [x]) == Dedup(s)
    ensures x !in seen ==> Dedup(s + [x]) == Dedup(s) + [x] && SeenAre(seen + {x}, Dedup(s) + [x])
  {
    assert (s + [x])[..|s|] == s;
  }

  lemma TakeOneMore(before: seq<Address>, list: seq<Address>, j: nat)
    requires j < |list|
    ensures before + list[..j + 1] == before + list[..j] + [list[j]]
  {
  }

  method NormalizeNameservers(given: seq<Given>) returns (r: Option<seq<Address>>)
    ensures r.Some? <==> Canonical(given)
    ensures r.Some? ==> r.value == Dedup(Values(given))
  {
    var result: seq<Address>, seen: set<Address> := [], {};
    ghost var done: seq<Address> := [];
    for i := 0 to |given|
      invariant forall k | 0 <= k < i :: given[k].Some?
      invariant |done| == i && forall k | 0 <= k < i :: done[k] == given[k].value
      invariant result == Dedup(done) && SeenAre(seen, result)
    {
      if given[i].None? {
        assert given[i] in given;
        return None;
      }
      var canonical := given[i].value;
      OneMoreSeen(done, seen, canonical);
      if canonical !in seen {
        seen := seen + {canonical};
        result := result + [canonical];
      }
      done := done + [canonical];
    }
    assert done == Values(given);
    return Some(result);
  }

  /** cloneLeaseNameservers: visits the entries in any order. */
  method CloneLeases(t: LeaseTable) returns (c: LeaseTable)
    ensures fresh(c) && c.entries == t.entries
  {
    c := new LeaseTable();
    var rest := t.entries.Keys;
    while rest != {}
      invariant rest <= t.entries.Keys
      invariant c.entries.Keys == t.entries.Keys - rest
      invariant forall s | s in c.entries :: c.entries[s] == t.entries[s]
      decreases rest
    {
      var source :| source in rest;
      c.entries := c.entries[source := t.entries[source]];
      rest := rest - {source};
    }
  }

  /** managedNameservers: collects the sources in any order, sorts them, and joins their lists. */
  method ManagedNameservers(fixed: seq<Address>, leases: LeaseTable) returns (result: seq<Address>)
    ensures forall active :: result == Desired(Policy(fixed, leases.entries, active))
  {
    if |fixed| > 0 {
      return fixed;
    }
    var sources := CollectSources(leases.entries);
    SortAscends(sources);
    AscendingIsUnique(Sort(sources), Ordered(leases.entries.Keys));
    sources := Sort(sources);
    result := JoinDistinct(sources, leases.entries);
  }

  method CollectSources(entries: map<Source, seq<Address>>) returns (sources: seq<Source>)
    ensures Distinct(sources) && forall s :: s in sources <==> s in entries
  {
    sources := [];
    var rest := entries.Keys;
    while rest != {}
      invariant rest <= entries.Keys && Distinct(sources)
      invariant forall s :: s in sources <==> s in entries && s !in rest
      decreases rest
    {
      var source :| source in rest;
      sources := sources + [source];
      rest := rest - {source};
    }
  }

  method JoinDistinct(sources: seq<Source>, entries: map<Source, seq<Address>>) returns (result: seq<Address>)
    requires forall s | s in sources :: s in entries
    ensures result == Dedup(Joined(sources, entries))
  {
    result := [];
    var seen: set<Address> := {};
    for i := 0 to |sources|
      invariant result == Dedup(Joined(sources[..i], entries)) && SeenAre(seen, result)
    {
      assert sources[..i + 1][..i] == sources[..i];
      result, seen := AppendDistinct(Joined(sources[..i], entries), entries[sources[i]], result, seen);
    }
    assert sources[..|sources|] == sources;
  }

  /** The inner loop of managedNameservers: one lease's list after what has been listed. */
  method AppendDistinct(ghost before: seq<Address>, list: seq<Address>, start: seq<Address>, known: set<Address>)
    returns (result: seq<Address>, seen: set<Address>)
    requires start == Dedup(before) && SeenAre(known, start)
    ensures result == Dedup(before + list) && SeenAre(seen, result)
  {
    result, seen := start, known;
    ghost var done := before;
    for j := 0 to |list|
      invariant done == before + list[..j]
      invariant result == Dedup(done) && SeenAre(seen, result)
    {
      var ns := list[j];
      OneMoreSeen(done, seen, ns);
      TakeOneMore(before, list, j);
      done := done + [ns];
      if ns !in seen {
        seen := seen + {ns};
        result := result + [ns];
      }
    }
    assert list[..|list|] == list;
  }

  class Manager {
    var fixed: seq<Address>
    var leases: LeaseTable
    var active: bool
    /** /etc/resolv.conf. */
    var conf: Content
    /** How many accesses to the file have failed. */
    ghost var failures: nat

    ghost function Value(): Policy
      reads this, leases
    {
      Policy(fixed, leases.entries, active)
    }

    ghost function State(): Resolver
      reads this, leases
    {
      Resolver(Value(), conf)
    }

    constructor (conf: Content)
      ensures Value() == Policy([], map[], false) && this.conf == conf && fresh(leases)
    {
      fixed, active, this.conf, failures := [], false, conf, 0;
      leases := new LeaseTable();
    }

    /** A write that fails may leave anything behind, part of a list included. */
    method WriteResolvConf(servers: seq<Address>, shouldWrite: bool) returns (ok: bool)
      modifies this`conf, this`failures
      ensures ok <==> failures == old(failures)
      ensures old(failures) <= failures
      ensures !shouldWrite ==> ok && conf == old(conf)
      ensures shouldWrite && ok ==> conf == Lists(servers)
    {
      if !shouldWrite {
        return true;
      }
      ok := *;
      var left: Content := *;
      var untouched: bool := *;
      if ok {
        conf := Lists(servers);
      } else if !untouched {
        conf := left;
      }
      failures := failures + if ok then 0 else 1;
    }

    /** The same for captured contents. */
    method WriteContent(content: Content) returns (ok: bool)
      modifies this`conf, this`failures
      ensures ok ==> conf == content
      ensures failures == old(failures) + if ok then 0 else 1
    {
      ok := *;
      var left: Content := *;
      var untouched: bool := *;
      if ok {
        conf := content;
      } else if !untouched {
        conf := left;
      }
      failures := failures + if ok then 0 else 1;
    }

    /** Setting the immutable flag. */
    method Guard() returns (ok: bool)
      modifies this`failures
      ensures failures == old(failures) + if ok then 0 else 1
    {
      ok := *;
      failures := failures + if ok then 0 else 1;
    }

    /** Records the static name servers; the file is written later. */
    method ConfigureStaticNameservers(given: seq<Given>) returns (ok: bool)
      modifies this
      ensures ok <==> Canonical(given)
      ensures Value() == if ok then old(Value()).(fixed := Dedup(Values(given))) else old(Value())
      ensures conf == old(conf) && leases == old(leases) && failures == old(failures)
    {
      var normalized := NormalizeNameservers(given);
      if normalized.None? {
        return false;
      }
      fixed := normalized.value;
      return true;
    }

    method ApplyManagedNameservers() returns (ok: bool)
      modifies this
      ensures ok <==> failures == old(failures)
      ensures Value() == if ok then Activated(old(Value())) else old(Value())
      ensures leases == old(leases) && old(failures) <= failures
      ensures ok ==> conf == Shown(old(conf), Value())
      ensures !ok ==> Activated(old(Value())).active
    {
      var desired := ManagedNameservers(fixed, leases);
      ok := WriteResolvConf(desired, active || |desired| > 0);
      if ok {
        active := active || |desired| > 0;
      }
    }

    method SetLeaseNameservers(source: Source, given: seq<Given>) returns (ok: bool)
      modifies this
      ensures ok <==> !Blank(source) && Canonical(given) && failures == old(failures)
      ensures old(failures) <= failures
      ensures ok ==> Value() == Activated(WithLease(old(Value()), source, Dedup(Values(given)))) && fresh(leases)
      ensures !ok ==> Value() == old(Value()) && leases == old(leases)
      ensures ok ==> conf == Shown(old(conf), Value())
      ensures Blank(source) || !Canonical(given) ==> !ok && conf == old(conf)
      ensures !ok && !Blank(source) && Canonical(given) ==>
                Activated(WithLease(old(Value()), source, Dedup(Values(given)))).active
    {
      if Scanner.TrimSpace(source) == [] {
        return false;
      }
      var normalized := NormalizeNameservers(given);
      if normalized.None? {
        return false;
      }
      var updated := CloneLeases(leases);
      if |normalized.value| == 0 {
        updated.entries := updated.entries - {source};
      } else {
        updated.entries := updated.entries[source := normalized.value];
      }
      var desired := ManagedNameservers(fixed, updated);
      ok := WriteResolvConf(desired, active || |desired| > 0);
      if !ok {
        return;
      }
      leases := updated;
      active := active || |desired| > 0;
    }

    method RemoveLeaseNameservers(source: Source) returns (ok: bool)
      modifies this
      ensures ok <==> !Blank(source) && failures == old(failures)
      ensures old(failures) <= failures
      ensures ok ==> Value() == Activated(WithLease(old(Value()), source, [])) && fresh(leases)
      ensures !ok ==> Value() == old(Value()) && leases == old(leases)
      ensures ok ==> conf == Shown(old(conf), Value())
      ensures Blank(source) ==> !ok && conf == old(conf)
      ensures !ok && !Blank(source) ==>
                Activated(WithLease(old(Value()), source, [])).active
    {
      ok := SetLeaseNameservers(source, []);
    }

    method ResetManagedNameservers()
      modifies this
      ensures Value() == Policy([], map[], false) && fresh(leases) && conf == old(conf) && failures == old(failures)
    {
      fixed, active := [], false;
      leases := new LeaseTable();
    }

    /** Restore: puts captured contents back, whatever they are, and forgets the policy; a snapshot without contents is
        passed over. The immutable flag may fail after all that, which is an error too. */
    method RestoreSnapshot(contents: Option<Content>) returns (ok: bool, restored: bool)
      modifies this
      ensures ok <==> failures == old(failures)
      ensures old(failures) <= failures
      ensures contents.None? ==> ok && !restored && conf == old(conf)
      ensures contents.Some? && ok ==> restored
      ensures restored ==> contents.Some? && State() == Resolver(Nothing, contents.value) && fresh(leases)
      ensures !restored ==> Value() == old(Value()) && leases == old(leases)
    {
      if contents.None? {
        return true, false;
      }
      restored := WriteContent(contents.value);
      if !restored {
        return false, false;
      }
      ResetManagedNameservers();
      ok := Guard();
    }

    method CaptureManagedState() returns (s: ManagedState)
      ensures Captured(s) == Value() && fresh(s.leases)
    {
      var copied := CloneLeases(leases);
      return ManagedState(fixed, copied, active);
    }

    method RestoreManagedState(s: ManagedState) returns (ok: bool)
      modifies this
      ensures ok <==> failures == old(failures)
      ensures old(failures) <= failures
      ensures ok ==> Value() == Captured(s) && fresh(leases)
      ensures !ok ==> Value() == old(Value()) && leases == old(leases)
      ensures ok ==> conf == Shown(old(conf), Value())
      ensures !ok ==> s.active || Desired(Captured(s)) != []
      ensures ok ==> (Managed(State()) <==> s.active || (Desired(Captured(s)) == [] && !old(conf).Lists?))
    {
      var restored := CloneLeases(s.leases);
      var desired := ManagedNameservers(s.fixed, restored);
      ok := WriteResolvConf(desired, s.active || |desired| > 0);
      if !ok {
        return;
      }
      fixed, leases, active := s.fixed, restored, s.active;
    }
  }

  // ---------------------------------------------------------------- any history

  datatype Op =
    | Configure(given: seq<Given>)
    | Apply
    | SetLease(source: Source, given: seq<Given>)
    | Remove(source: Source)
    | Reset
    | PutBack(contents: Option<Content>)
    | Capture
    | Restore(which: nat)

  /** A failure comes with what it leaves in the file. */
  datatype Outcome = Success | Failure(left: Content)

  /** The policy and /etc/resolv.conf. */
  datatype Resolver = Resolver(policy: Policy, conf: Content)

  const Nothing: Policy := Policy([], map[], false)

  ghost predicate Needed(p: Policy) {
    p.active || Desired(p) != []
  }

  /** Committing p, which happens only when the file has been written, if it needs to be. */
  ghost function Committed(r: Resolver, p: Policy, out: Outcome): Resolver {
    if out.Failure? && Needed(p) then r.(conf := out.left) else Resolver(p, Shown(r.conf, p))
  }

  /** The policy that an operation is to commit, if it is one that does and its input is proper. */
  ghost function Target(p: Policy, captured: seq<Policy>, op: Op): Option<Policy> {
    match op
    case Apply => Some(Activated(p))
    case SetLease(source, given) =>
      if Blank(source) || !Canonical(given) then None
      else Some(Activated(WithLease(p, source, Dedup(Values(given)))))
    case Remove(source) => if Blank(source) then None else Some(Activated(WithLease(p, source, [])))
    case Restore(which) => if which < |captured| then Some(captured[which]) else None
    case _ => None
  }

  /** What one operation does, given its outcome. */
  ghost function Next(r: Resolver, captured: seq<Policy>, op: Op, out: Outcome): Resolver {
    match op
    case Configure(given) => if Canonical(given) then r.(policy := r.policy.(fixed := Dedup(Values(given)))) else r
    case Reset => r.(policy := Nothing)
    case PutBack(contents) =>
      if contents.None? then r
      else if out.Success? then Resolver(Nothing, contents.value)
      else r.(conf := out.left)
    case Capture => r
    case _ =>
      var target := Target(r.policy, captured, op);
      if target.Some? then Committed(r, target.value, out) else r
  }

  /** The resolver after a history, and the policies captured on the way. */
  ghost function After(r: Resolver, ops: seq<Op>, outs: seq<Outcome>): (Resolver, seq<Policy>)
    requires |ops| == |outs|
  {
    if ops == [] then (r, [])
    else
      var n := |ops| - 1;
      var (q, captured) := After(r, ops[..n], outs[..n]);
      (Next(q, captured, ops[n], outs[n]), if ops[n].Capture? then captured + [q.policy] else captured)
  }

  /** An operation that has no reason to fail but the file, after n captures. */
  ghost predicate Acceptable(op: Op, n: nat) {
    match op
    case Configure(given) => Canonical(given)
    case SetLease(source, given) => !Blank(source) && Canonical(given)
    case Remove(source) => !Blank(source)
    case Restore(which) => which < n
    case _ => true
  }

  function Captures(ops: seq<Op>): nat {
    if ops == [] then 0 else Captures(ops[..|ops| - 1]) + if ops[|ops| - 1].Capture? then 1 else 0
  }

  /** Every acceptable operation has succeeded. */
  ghost predicate Unhindered(ops: seq<Op>, outs: seq<Outcome>)
    requires |ops| == |outs|
  {
    ops == [] ||
    var n := |ops| - 1;
    Unhindered(ops[..n], outs[..n]) && (Acceptable(ops[n], Captures(ops[..n])) ==> outs[n].Success?)
  }

  predicate Writes(op: Op) {
    op.Apply? || op.SetLease? || op.Remove? || op.Restore?
  }

  /** The captured states are, at this moment, these policies. */
  ghost predicate Hold(states: seq<ManagedState>, values: seq<Policy>)
    reads set s | s in states :: s.leases
  {
    |states| == |values| && forall i | 0 <= i < |states| :: Captured(states[i]) == values[i]
  }

  /** Runs any history of operations. Policy and file are what the history says, whatever fails on the way, and nothing
      fails without a reason; every captured state is still what it was when captured; and after a successful write the
      file lists what an active policy calls for. */
  method History(m: Manager, ops: seq<Op>) returns (captured: seq<ManagedState>, outs: seq<Outcome>)
    modifies m
    ensures |outs| == |ops|
    ensures m.State() == After(old(m.State()), ops, outs).0
    ensures Hold(captured, After(old(m.State()), ops, outs).1)
    ensures m.failures == old(m.failures) ==> Unhindered(ops, outs)
    ensures ops != [] && Writes(ops[|ops| - 1]) && outs[|ops| - 1].Success? && m.active ==>
              m.conf == Lists(Desired(m.Value()))
  {
    captured, outs := [], [];
    ghost var start, values := m.State(), [];
    assert ops[..0] == [];
    for k := 0 to |ops|
      invariant |outs| == k && Told(start, ops[..k], outs, m.State(), values, m.failures == old(m.failures))
      invariant old(m.failures) <= m.failures && Hold(captured, values)
      invariant k > 0 && Writes(ops[k - 1]) && outs[k - 1].Success? && m.active ==> m.conf == Lists(Desired(m.Value()))
    {
      ghost var r, clean := m.State(), m.failures == old(m.failures);
      var out, taken := Perform(m, captured, values, ops[k]);
      ghost var more := if taken.Some? then values + [m.Value()] else values;
      ToldOneMore(start, ops, outs, out, r, values, clean, m.State(), more, m.failures == old(m.failures));
      if taken.Some? {
        captured := captured + [taken.value];
      }
      values := more;
      outs := outs + [out];
    }
    assert ops[..|ops|] == ops;
  }

  /** r and the captured policies are what a history makes of start, and nothing failed in it without a reason if it is
      clean. */
  ghost predicate Told(start: Resolver, ops: seq<Op>, outs: seq<Outcome>, r: Resolver, values: seq<Policy>, clean: bool)
    requires |ops| == |outs|
  {
    (r, values) == After(start, ops, outs) && |values| == Captures(ops) && (clean ==> Unhindered(ops, outs))
  }

  lemma ToldOneMore(start: Resolver, ops: seq<Op>, outs: seq<Outcome>, out: Outcome, r: Resolver, values: seq<Policy>,
                    clean: bool, r': Resolver, values': seq<Policy>, clean': bool)
    requires |outs| < |ops| && Told(start, ops[..|outs|], outs, r, values, clean)
    requires r' == Next(r, values, ops[|outs|], out)
    requires values' == if ops[|outs|].Capture? then values + [r.policy] else values
    requires clean' ==> clean && (Acceptable(ops[|outs|], |values|) ==> out.Success?)
    ensures Told(start, ops[..|outs| + 1], outs + [out], r', values', clean')
  {
    var k := |outs|;
    assert ops[..k + 1][..k] == ops[..k] && (outs + [out])[..k] == outs;
  }

  method Perform(m: Manager, captured: seq<ManagedState>, ghost values: seq<Policy>, op: Op)
    returns (out: Outcome, taken: Option<ManagedState>)
    requires Hold(captured, values)
    modifies m
    ensures m.State() == Next(old(m.State()), values, op, out) && Hold(captured, values)
    ensures old(m.failures) <= m.failures
    ensures m.failures == old(m.failures) && Acceptable(op, |captured|) ==> out.Success?
    ensures taken.Some? <==> op.Capture?
    ensures taken.Some? ==> Captured(taken.value) == m.Value() == old(m.Value())
    ensures Writes(op) && out.Success? && m.active ==> m.conf == Lists(Desired(m.Value()))
  {
    taken := None;
    var ok := true;
    match op {
      case Configure(given) => ok := m.ConfigureStaticNameservers(given);
      case Apply => ok := m.ApplyManagedNameservers();
      case SetLease(source, given) => ok := m.SetLeaseNameservers(source, given);
      case Remove(source) => ok := m.RemoveLeaseNameservers(source);
      case Reset => m.ResetManagedNameservers();
      case PutBack(contents) =>
        var reported;
        reported, ok := m.RestoreSnapshot(contents);
        ok := ok || contents.None?;
      case Capture =>
        var s := m.CaptureManagedState();
        taken := Some(s);
      case Restore(which) =>
        if which < |captured| {
          ok := m.RestoreManagedState(captured[which]);
        } else {
          ok := false;
        }
    }
    out := if ok then Success else Failure(m.conf);
  }

  // ---------------------------------------------------------------- a file that nobody manages

  /** Whoever wrote the list into the file still answers for it. */
  predicate Managed(r: Resolver) {
    r.conf.Lists? ==> r.policy.active
  }

  /** What is at stake: applying a policy leaves the file listing what it calls for, or nic's list out of it, exactly
      when the file is managed, or there is something to write over it, or it lists nothing. */
  lemma AppliedFileIsTrue(r: Resolver)
    ensures var r' := Next(r, [], Apply, Success);
            (r'.conf.Lists? ==> r'.conf.servers == Desired(r'.policy))
            <==> Managed(r) || Desired(r.policy) != [] || r.conf.servers == []
  {
  }

  /** Putting a list back, or forgetting the policy while there is one, leaves it to nobody; so does a failed write
      that leaves part of a list behind while the policy is not active, and restoring a captured policy that is not
      active if it writes a list or meets one. Nothing else is in the way. */
  ghost predicate Safe(r: Resolver, captured: seq<Policy>, op: Op, out: Outcome) {
    match op
    case Reset => !r.conf.Lists?
    case PutBack(contents) =>
      contents.Some? ==> if out.Success? then !contents.value.Lists? else LeftToSomebody(r, out)
    case _ => SafeToCommit(r, Target(r.policy, captured, op), op.Restore?, out)
  }

  ghost predicate SafeToCommit(r: Resolver, target: Option<Policy>, restoring: bool, out: Outcome) {
    target.Some? ==>
      if out.Failure? && Needed(target.value) then LeftToSomebody(r, out)
      else restoring ==> target.value.active || (Desired(target.value) == [] && !r.conf.Lists?)
  }

  predicate LeftToSomebody(r: Resolver, out: Outcome)
    requires out.Failure?
  {
    out.left.Lists? ==> r.policy.active
  }

  lemma StepKeepsManaged(r: Resolver, captured: seq<Policy>, op: Op, out: Outcome)
    requires Managed(r)
    ensures Managed(Next(r, captured, op, out)) <==> Safe(r, captured, op, out)
  {
  }

  ghost predicate SafeRun(r: Resolver, ops: seq<Op>, outs: seq<Outcome>)
    requires |ops| == |outs|
  {
    ops == [] ||
    var n := |ops| - 1;
    var (q, captured) := After(r, ops[..n], outs[..n]);
    SafeRun(r, ops[..n], outs[..n]) && Safe(q, captured, ops[n], outs[n])
  }

  /** The file is managed after every step of a history. */
  ghost predicate ManagedAlong(r: Resolver, ops: seq<Op>, outs: seq<Outcome>)
    requires |ops| == |outs|
  {
    Managed(After(r, ops, outs).0) && (ops != [] ==> ManagedAlong(r, ops[..|ops| - 1], outs[..|ops| - 1]))
  }

  /** Which is so exactly when every restore and every reset in it is safe. */
  lemma {:induction false} ManagedThroughout(r: Resolver, ops: seq<Op>, outs: seq<Outcome>)
    requires |ops| == |outs| && Managed(r)
    ensures ManagedAlong(r, ops, outs) <==> SafeRun(r, ops, outs)
  {
    if ops != [] {
      var n := |ops| - 1;
      ManagedThroughout(r, ops[..n], outs[..n]);
      var (q, captured) := After(r, ops[..n], outs[..n]);
      if Managed(q) {
        StepKeepsManaged(q, captured, ops[n], outs[n]);
      }
    }
  }

  /** The revert: a policy that has just been applied is captured; the contents captured with the machine are put back,
      or not, which leaves something in the file; and the policy is restored. Afterwards somebody answers for the file
      exactly when the policy is active or what was left is no list. */
  lemma RevertKeepsManaged(r: Resolver, captured: seq<Policy>, which: nat, contents: Option<Content>, out: Outcome)
    requires Managed(r) && which < |captured|
    requires captured[which] == Next(r, captured, Apply, Success).policy
    ensures var applied := Next(r, captured, Apply, Success);
            var left := Next(applied, captured, PutBack(contents), out);
            && (Managed(Next(left, captured, Restore(which), Success)) <==> applied.policy.active || !left.conf.Lists?)
            && (contents.None? ==> Managed(Next(left, captured, Restore(which), Success)))
            && (contents.Some? && out.Success? ==> left.conf == contents.value)
  {
    var applied := Next(r, captured, Apply, Success);
    AppliedIsNeeded(r, captured);
    RestoredIs(Next(applied, captured, PutBack(contents), out), captured, which);
  }

  /** An applied policy that calls for something is active, and then somebody answers for the file. */
  lemma AppliedIsNeeded(r: Resolver, captured: seq<Policy>)
    ensures var applied := Next(r, captured, Apply, Success);
            (Needed(applied.policy) <==> applied.policy.active) && (Managed(r) ==> Managed(applied))
  {
  }

  lemma RestoredIs(r: Resolver, captured: seq<Policy>, which: nat)
    requires which < |captured|
    ensures var p := captured[which];
            Next(r, captured, Restore(which), Success)
            == Resolver(p, if Needed(p) then Lists(Desired(p)) else r.conf)
  {
  }

  /** Back to the machine before nic, where the lease of this source brings no name server this time. */
  ghost function AnsweredEmpty(r: Resolver, source: Source): Resolver {
    var before := Next(r, [], PutBack(Some(Foreign)), Success);
    Next(Next(before, [], SetLease(source, []), Success), [], Apply, Success)
  }

  /** The policy is captured, the contents are put back, and the policy is restored and applied. */
  ghost function PutBackAndRestored(applied: Resolver, contents: Content): Resolver {
    var captured := [applied.policy];
    var left := Next(applied, captured, PutBack(Some(contents)), Success);
    Next(Next(left, captured, Restore(0), Success), captured, Apply, Success)
  }

  /** And that can happen: a lease lists x, and the machine is captured like that; the revert returns to the machine
      before nic, where the lease brings no name server this time, and puts the captured file back. */
  lemma PutBackGoesStale(source: Source, x: Address)
    requires !Blank(source)
    ensures var listed := Next(Resolver(Nothing, Foreign), [], SetLease(source, [Some(x)]), Success);
            var again := PutBackAndRestored(AnsweredEmpty(listed, source), listed.conf);
            listed.conf == Lists([x]) && Desired(again.policy) == [] && again.conf == Lists([x]) && !Managed(again)
  {
    LeaseIsListed(source, x, []);
    QuietAgain(Next(Resolver(Nothing, Foreign), [], SetLease(source, [Some(x)]), Success), source);
    ListedAgain(x);
  }

  lemma QuietAgain(r: Resolver, source: Source)
    requires !Blank(source)
    ensures AnsweredEmpty(r, source) == Resolver(Nothing, Foreign)
  {
    NothingToList(source);
  }

  lemma ListedAgain(x: Address)
    ensures var again := PutBackAndRestored(Resolver(Nothing, Foreign), Lists([x]));
            Desired(again.policy) == [] && again.conf == Lists([x]) && !Managed(again)
  {
    EmptyRestoreKeepsList(Nothing, x);
    DesiredOfNothing();
  }

  lemma NothingToList(source: Source)
    requires !Blank(source)
    ensures var quiet := Resolver(Nothing, Foreign);
            Next(quiet, [], SetLease(source, []), Success) == quiet && Next(quiet, [], Apply, Success) == quiet
  {
    DesiredOfNothing();
    assert Nothing.leases - {source} == map[];
    assert WithLease(Nothing, source, []) == Nothing;
    assert Values([]) == [] && Dedup<Address>([]) == [];
  }

  /** A capture of another kind goes stale too: a policy captured before it was ever written is restored as inactive
      although restoring it writes the file, and emptying it leaves the list there. */
  lemma CaptureBeforeWriteGoesStale(x: Address)
    ensures var ops := [Configure([Some(x)]), Capture, Restore(0), Configure([]), Apply];
            var r := After(Resolver(Nothing, Foreign), ops, [Success, Success, Success, Success, Success]).0;
            Desired(r.policy) == [] && r.conf == Lists([x])
  {
    var r0 := Resolver(Nothing, Foreign);
    var p := Policy([x], map[], false);
    OneValue(x);
    assert Next(r0, [], Configure([Some(x)]), Success) == r0.(policy := p);
    var r2 := Next(r0.(policy := p), [p], Restore(0), Success);
    assert r2 == Resolver(p, Lists([x]));
    DesiredOfNothing();
    assert Next(r2, [p], Configure([]), Success) == Resolver(Nothing, Lists([x]));
    FiveSteps(r0, Configure([Some(x)]), Capture, Restore(0), Configure([]), Apply);
  }

  /** And so does one when a lease writes the file between the capture of a policy that calls for nothing and its
      restoration. */
  lemma LeaseBetweenGoesStale(source: Source, x: Address)
    requires !Blank(source)
    ensures var ops := [Apply, Capture, SetLease(source, [Some(x)]), Restore(0), Apply];
            var r := After(Resolver(Nothing, Foreign), ops, [Success, Success, Success, Success, Success]).0;
            Desired(r.policy) == [] && r.conf == Lists([x])
  {
    var r0 := Resolver(Nothing, Foreign);
    DesiredOfNothing();
    assert Next(r0, [], Apply, Success) == r0;
    LeaseIsListed(source, x, [Nothing]);
    EmptyRestoreKeepsList(WithLease(Nothing, source, [x]).(active := true), x);
    FiveSteps(r0, Apply, Capture, SetLease(source, [Some(x)]), Restore(0), Apply);
  }

  lemma EmptyRestoreKeepsList(p: Policy, x: Address)
    ensures var r := Next(Resolver(p, Lists([x])), [Nothing], Restore(0), Success);
            r == Resolver(Nothing, Lists([x])) && Next(r, [Nothing], Apply, Success) == r
  {
    DesiredOfNothing();
  }

  lemma LeaseIsListed(source: Source, x: Address, captured: seq<Policy>)
    requires !Blank(source)
    ensures Next(Resolver(Nothing, Foreign), captured, SetLease(source, [Some(x)]), Success)
            == Resolver(WithLease(Nothing, source, [x]).(active := true), Lists([x]))
  {
    OneValue(x);
    var p := WithLease(Nothing, source, [x]);
    assert p.leases.Keys == {source};
    OrderedOne(source);
    JoinedOne(source, p.leases);
    DedupOne(x);
  }

  lemma DedupOne(x: Address)
    ensures Dedup([x]) == [x]
  {
    assert [x][..0] == [];
  }

  lemma OneValue(x: Address)
    ensures Canonical([Some(x)]) && Dedup(Values([Some(x)])) == [x]
  {
    DedupOne(x);
    assert Values([Some(x)]) == [x];
  }

  lemma OrderedOne(source: Source)
    ensures Ordered({source}) == [source]
  {
    AscendingIsUnique(Ordered({source}), [source]);
  }

  lemma JoinedOne(source: Source, leases: map<Source, seq<Address>>)
    requires source in leases
    ensures Joined([source], leases) == leases[source]
  {
    assert [source][..0] == [];
  }

  /** Five operations of which the second is a capture. */
  lemma FiveSteps(r: Resolver, a: Op, b: Op, c: Op, d: Op, e: Op)
    requires !a.Capture? && b.Capture? && !c.Capture? && !d.Capture? && !e.Capture?
    ensures var r1 := Next(r, [], a, Success);
            var r2 := Next(r1, [r1.policy], c, Success);
            var r3 := Next(r2, [r1.policy], d, Success);
            After(r, [a, b, c, d, e], [Success, Success, Success, Success, Success]).0
            == Next(r3, [r1.policy], e, Success)
  {
    assert [a, b, c, d, e][..4] == [a, b, c, d] && [a, b, c, d][..3] == [a, b, c] && [a, b, c][..2] == [a, b]
        && [a, b][..1] == [a] && [a][..0] == [];
    var k := Success;
    assert [k, k, k, k, k][..4] == [k, k, k, k] && [k, k, k, k][..3] == [k, k, k] && [k, k, k][..2] == [k, k]
        && [k, k][..1] == [k] && [k][..0] == [];
    assert After(r, [a], [k]) == (Next(r, [], a, k), []);
    assert After(r, [a, b], [k, k]).1 == [Next(r, [], a, k).policy];
    assert After(r, [a, b, c], [k, k, k]).1 == [Next(r, [], a, k).policy];
  }

  lemma DesiredOfNothing()
    ensures Desired(Nothing) == []
  {
    NonEmptyHas(Ordered({}));
    assert Nothing.leases.Keys == {};
  }
}
