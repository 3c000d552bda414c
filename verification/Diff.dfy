/** What `nic reload` prints about a new configuration: the commands it takes away and the commands it adds. */
module Diff {
  import opened Wrappers
  import opened Bytes
  import NaturalOrder

  const COLON: byte := 58

  datatype Command = Command(kind: nat, tokens: seq<seq<byte>>)

  datatype Line = Minus(cmd: Command) | Plus(cmd: Command) | NoChanges

  // ---------------------------------------------------------------- keys

  function Decimal(n: nat): (r: seq<byte>)
    ensures r != [] && forall c | c in r :: NaturalOrder.Digit(c)
    ensures |r| == 1 <==> n < 10
  {
    if n < 10 then [NaturalOrder.ZERO + n] else Decimal(n / 10) + [NaturalOrder.ZERO + n % 10]
  }

  function TokensKey(tokens: seq<seq<byte>>): seq<byte> {
    if tokens == [] then []
    else [COLON] + (Decimal(|tokens[0]|) + ([COLON] + (tokens[0] + TokensKey(tokens[1..]))))
  }

  /** The kind, then every token behind its length. */
  function Key(cmd: Command): seq<byte> {
    Decimal(cmd.kind) + TokensKey(cmd.tokens)
  }

  lemma {:induction false} DecimalIsInjective(a: nat, b: nat)
    requires Decimal(a) == Decimal(b)
    ensures a == b
  {
    if a >= 10 {
      var s, t := Decimal(a), Decimal(b);
      assert s[..|s| - 1] == Decimal(a / 10) && t[..|t| - 1] == Decimal(b / 10);
      assert s[|s| - 1] == NaturalOrder.ZERO + a % 10 && t[|t| - 1] == NaturalOrder.ZERO + b % 10;
      DecimalIsInjective(a / 10, b / 10);
    }
  }

  /** A number ends where its digits end. */
  lemma NumberEnds(a: nat, b: nat, s: seq<byte>, t: seq<byte>)
    requires Decimal(a) + s == Decimal(b) + t
    requires (s != [] ==> !NaturalOrder.Digit(s[0])) && (t != [] ==> !NaturalOrder.Digit(t[0]))
    ensures a == b && s == t
  {
    NaturalOrder.DigitRunOf(Decimal(a), s);
    NaturalOrder.DigitRunOf(Decimal(b), t);
    var n := |Decimal(a)|;
    assert (Decimal(a) + s)[..n] == Decimal(a) && (Decimal(b) + t)[..n] == Decimal(b);
    DecimalIsInjective(a, b);
    assert (Decimal(a) + s)[n..] == s && (Decimal(b) + t)[n..] == t;
  }

  lemma {:induction false} TokensKeyIsInjective(a: seq<seq<byte>>, b: seq<seq<byte>>)
    requires TokensKey(a) == TokensKey(b)
    ensures a == b
  {
    if a != [] && b != [] {
      var s, t := [COLON] + (a[0] + TokensKey(a[1..])), [COLON] + (b[0] + TokensKey(b[1..]));
      assert TokensKey(a)[1..] == Decimal(|a[0]|) + s && TokensKey(b)[1..] == Decimal(|b[0]|) + t;
      NumberEnds(|a[0]|, |b[0]|, s, t);
      TokenEnds(a[0], b[0], TokensKey(a[1..]), TokensKey(b[1..]));
      TokensKeyIsInjective(a[1..], b[1..]);
      assert a == [a[0]] + a[1..] && b == [b[0]] + b[1..];
    }
  }

  lemma TokenEnds(a: seq<byte>, b: seq<byte>, s: seq<byte>, t: seq<byte>)
    requires |a| == |b| && [COLON] + (a + s) == [COLON] + (b + t)
    ensures a == b && s == t
  {
    assert a + s == ([COLON] + (a + s))[1..] == ([COLON] + (b + t))[1..] == b + t;
    assert (a + s)[..|a|] == a && (b + t)[..|a|] == b && (a + s)[|a|..] == s && (b + t)[|a|..] == t;
  }

  /** Different commands have different keys, whatever their tokens contain. */
  lemma KeyIsInjective(a: Command, b: Command)
    ensures Key(a) == Key(b) <==> a == b
  {
    if Key(a) == Key(b) {
      NumberEnds(a.kind, b.kind, TokensKey(a.tokens), TokensKey(b.tokens));
      TokensKeyIsInjective(a.tokens, b.tokens);
    }
  }

  // ---------------------------------------------------------------- the difference

  /** The commands of the list that are left when each command of `others` has accounted for one. */
  function Surplus(list: seq<Command>, others: multiset<Command>): seq<Command> {
    if list == [] then []
    else if list[0] in others then Surplus(list[1..], others - multiset{list[0]})
    else [list[0]] + Surplus(list[1..], others)
  }

  lemma {:induction false} SurplusIsDifference(list: seq<Command>, others: multiset<Command>)
    ensures multiset(Surplus(list, others)) == multiset(list) - others
  {
    if list != [] {
      assert list == [list[0]] + list[1..];
      if list[0] in others {
        SurplusIsDifference(list[1..], others - multiset{list[0]});
      } else {
        SurplusIsDifference(list[1..], others);
      }
    }
  }

  function Minuses(cmds: seq<Command>): (r: seq<Line>)
    ensures |r| == |cmds| && forall i | 0 <= i < |r| :: r[i] == Minus(cmds[i])
  {
    seq(|cmds|, i requires 0 <= i < |cmds| => Minus(cmds[i]))
  }

  function Pluses(cmds: seq<Command>): (r: seq<Line>)
    ensures |r| == |cmds| && forall i | 0 <= i < |r| :: r[i] == Plus(cmds[i])
  {
    seq(|cmds|, i requires 0 <= i < |cmds| => Plus(cmds[i]))
  }

  function Report(current: seq<Command>, desired: seq<Command>): seq<Line> {
    var gone, added := Surplus(current, multiset(desired)), Surplus(desired, multiset(current));
    Minuses(gone) + Pluses(added) + if gone == [] && added == [] then [NoChanges] else []
  }

  function Removed(lines: seq<Line>): multiset<Command> {
    if lines == [] then multiset{}
    else (if lines[0].Minus? then multiset{lines[0].cmd} else multiset{}) + Removed(lines[1..])
  }

  function Added(lines: seq<Line>): multiset<Command> {
    if lines == [] then multiset{}
    else (if lines[0].Plus? then multiset{lines[0].cmd} else multiset{}) + Added(lines[1..])
  }

  lemma {:induction false} ReadConcat(s: seq<Line>, t: seq<Line>)
    ensures Removed(s + t) == Removed(s) + Removed(t) && Added(s + t) == Added(s) + Added(t)
  {
    if s == [] {
      assert s + t == t;
    } else {
      assert (s + t)[1..] == s[1..] + t;
      ReadConcat(s[1..], t);
    }
  }

  lemma {:induction false} ReadLines(cmds: seq<Command>)
    ensures Removed(Minuses(cmds)) == multiset(cmds) && Added(Minuses(cmds)) == multiset{}
    ensures Added(Pluses(cmds)) == multiset(cmds) && Removed(Pluses(cmds)) == multiset{}
  {
    if cmds != [] {
      ReadLines(cmds[1..]);
      assert Minuses(cmds)[1..] == Minuses(cmds[1..]) && Pluses(cmds)[1..] == Pluses(cmds[1..]);
      assert cmds == [cmds[0]] + cmds[1..];
    }
  }

  lemma LinesRead(gone: seq<Command>, added: seq<Command>, end: seq<Line>)
    requires end == [] || end == [NoChanges]
    ensures Removed(Minuses(gone) + Pluses(added) + end) == multiset(gone)
    ensures Added(Minuses(gone) + Pluses(added) + end) == multiset(added)
  {
    ReadLines(gone);
    ReadLines(added);
    ReadConcat(Minuses(gone), Pluses(added));
    ReadConcat(Minuses(gone) + Pluses(added), end);
    EndReads(end);
  }

  lemma EndReads(end: seq<Line>)
    requires end == [] || end == [NoChanges]
    ensures Removed(end) == multiset{} && Added(end) == multiset{}
  {
    assert [NoChanges][1..] == [];
  }

  lemma ReportReads(current: seq<Command>, desired: seq<Command>)
    ensures Removed(Report(current, desired)) == multiset(current) - multiset(desired)
    ensures Added(Report(current, desired)) == multiset(desired) - multiset(current)
  {
    var gone, added := Surplus(current, multiset(desired)), Surplus(desired, multiset(current));
    LinesRead(gone, added, if gone == [] && added == [] then [NoChanges] else []);
    SurplusIsDifference(current, multiset(desired));
    SurplusIsDifference(desired, multiset(current));
  }

  lemma ReportEnds(current: seq<Command>, desired: seq<Command>)
    ensures NoChanges in Report(current, desired) <==> multiset(current) == multiset(desired)
    ensures NoChanges in Report(current, desired) ==> Report(current, desired) == [NoChanges]
  {
    var gone, added := Surplus(current, multiset(desired)), Surplus(desired, multiset(current));
    SurplusIsDifference(current, multiset(desired));
    SurplusIsDifference(desired, multiset(current));
    assert |multiset(gone)| == |gone| && |multiset(added)| == |added|;
    NoDifference(multiset(current), multiset(desired));
  }

  lemma NoDifference(a: multiset<Command>, b: multiset<Command>)
    ensures |a - b| == 0 && |b - a| == 0 <==> a == b
  {
    if |a - b| == 0 && |b - a| == 0 {
      forall x
        ensures a[x] == b[x]
      {
        assert (a - b)[x] == 0 && (b - a)[x] == 0;
      }
    }
  }

  lemma DifferenceIsExact(a: multiset<Command>, b: multiset<Command>)
    ensures a - b <= a && a - (a - b) + (b - a) == b && (a - b) !! (b - a)
  {
  }

  /** The report is exact: taking away the minus lines and adding the plus lines turns the current commands into the
      desired ones, no command is on both sides, and "no changes" means just that. */
  lemma ReportIsExact(current: seq<Command>, desired: seq<Command>)
    ensures var lines := Report(current, desired);
            && Removed(lines) <= multiset(current)
            && multiset(current) - Removed(lines) + Added(lines) == multiset(desired)
            && Removed(lines) !! Added(lines)
            && (NoChanges in lines <==> multiset(current) == multiset(desired))
            && (NoChanges in lines ==> lines == [NoChanges])
  {
    ReportReads(current, desired);
    ReportEnds(current, desired);
    DifferenceIsExact(multiset(current), multiset(desired));
  }

  // ---------------------------------------------------------------- the code

  type Counts = map<seq<byte>, nat>

  function Get(counts: Counts, key: seq<byte>): nat {
    if key in counts then counts[key] else 0
  }

  ghost predicate CountsAre(counts: Counts, cmds: multiset<Command>) {
    forall c: Command :: Get(counts, Key(c)) == cmds[c]
  }

  method CountKeys(list: seq<Command>) returns (counts: Counts)
    ensures CountsAre(counts, multiset(list))
  {
    counts := map[];
    for i := 0 to |list|
      invariant CountsAre(counts, multiset(list[..i]))
    {
      assert list[..i + 1] == list[..i] + [list[i]];
      var key := Key(list[i]);
      ghost var before := counts;
      counts := counts[key := Get(counts, key) + 1];
      ChangedCount(before, counts, multiset(list[..i]), multiset(list[..i + 1]), list[i]);
    }
    assert list[..|list|] == list;
  }

  /** Changing one key's count changes one command's count. */
  lemma ChangedCount(before: Counts, after: Counts, was: multiset<Command>, now: multiset<Command>, x: Command)
    requires CountsAre(before, was) && after.Keys == before.Keys + {Key(x)}
    requires forall key | key in before && key != Key(x) :: after[key] == before[key]
    requires after[Key(x)] == now[x] && forall c: Command | c != x :: now[c] == was[c]
    ensures CountsAre(after, now)
  {
    forall c: Command
      ensures Get(after, Key(c)) == now[c]
    {
      KeyIsInjective(c, x);
      assert Get(before, Key(c)) == was[c];
    }
  }

  /** One of the two printing loops: the commands that the counts do not account for. */
  method Unaccounted(list: seq<Command>, start: Counts, ghost others: multiset<Command>) returns (extra: seq<Command>)
    requires CountsAre(start, others)
    ensures extra == Surplus(list, others)
  {
    var counts := start;
    ghost var left := others;
    extra := [];
    for i := 0 to |list|
      invariant CountsAre(counts, left)
      invariant extra + Surplus(list[i..], left) == Surplus(list, others)
    {
      var key := Key(list[i]);
      assert list[i..][1..] == list[i + 1..];
      assert Get(counts, key) == left[list[i]];
      if Get(counts, key) > 0 {
        ghost var before := counts;
        counts := counts[key := counts[key] - 1];
        ChangedCount(before, counts, left, left - multiset{list[i]}, list[i]);
        left := left - multiset{list[i]};
        continue;
      }
      OneMore(extra, list[i], Surplus(list[i + 1..], left));
      extra := extra + [list[i]];
    }
  }

  lemma OneMore(done: seq<Command>, x: Command, rest: seq<Command>)
    ensures done + ([x] + rest) == done + [x] + rest
  {
  }

  /** Without a snapshot of the applied configuration everything is new. */
  method PrintConfigDiff(applied: Option<seq<Command>>, desired: seq<Command>) returns (lines: seq<Line>)
    ensures applied.None? ==> lines == Pluses(desired)
    ensures applied.Some? ==> lines == Report(applied.value, desired)
  {
    if applied.None? {
      return Pluses(desired);
    }
    var current := applied.value;
    var oldCounts := CountKeys(current);
    var newCounts := CountKeys(desired);
    var gone := Unaccounted(current, newCounts, multiset(desired));
    var added := Unaccounted(desired, oldCounts, multiset(current));
    lines := Minuses(gone) + Pluses(added);
    if |gone| + |added| == 0 {
      lines := lines + [NoChanges];
    }
  }
}
