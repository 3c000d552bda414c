/** The natural order of file names, by which included files are loaded. */
module NaturalOrder {
  import opened Bytes

  const ZERO: byte := 0x30
  const NINE: byte := 0x39

  predicate Digit(c: byte) {
    ZERO <= c <= NINE
  }

  /** How many digits s starts with. */
  function DigitRun(s: seq<byte>): (n: nat)
    ensures n <= |s| && (forall i | 0 <= i < n :: Digit(s[i])) && (n < |s| ==> !Digit(s[n]))
  {
    if s != [] && Digit(s[0]) then 1 + DigitRun(s[1..]) else 0
  }

  /** strings.TrimLeft(s, "0"). */
  function TrimZeros(s: seq<byte>): seq<byte> {
    if s != [] && s[0] == ZERO then TrimZeros(s[1..]) else s
  }

  /** A run of digits without its leading zeros. */
  function Strip(run: seq<byte>): seq<byte> {
    if TrimZeros(run) == [] then [ZERO] else TrimZeros(run)
  }

  /** Go's < on strings. */
  predicate LexLess(a: seq<byte>, b: seq<byte>) {
    b != [] && (a == [] || a[0] < b[0] || (a[0] == b[0] && LexLess(a[1..], b[1..])))
  }

  // ---------------------------------------------------------------- names as keys

  /** A name is read as numbers and single other bytes. */
  datatype Chunk = Num(value: nat) | Char(c: byte)

  predicate Proper(x: Chunk) {
    x.Char? ==> !Digit(x.c)
  }

  function Pow10(n: nat): (r: nat)
    ensures r >= 1
  {
    if n == 0 then 1 else 10 * Pow10(n - 1)
  }

  function Value(run: seq<byte>): nat
    requires forall c | c in run :: Digit(c)
  {
    if run == [] then 0
    else
      assert Digit(run[0]);
      (run[0] - ZERO) as nat * Pow10(|run| - 1) + Value(run[1..])
  }

  function Key(s: seq<byte>): (k: seq<Chunk>)
    ensures forall x | x in k :: Proper(x)
    ensures s != [] ==> k != []
  {
    if s == [] then []
    else if Digit(s[0]) then [Num(Value(s[..DigitRun(s)]))] + Key(s[DigitRun(s)..])
    else [Char(s[0])] + Key(s[1..])
  }

  /** Numbers by value, other bytes by code, and a number against another byte as any of its digits would compare. */
  predicate ChunkLess(x: Chunk, y: Chunk) {
    match (x, y)
    case (Num(v), Num(w)) => v < w
    case (Num(_), Char(c)) => ZERO < c
    case (Char(c), Num(_)) => c < ZERO
    case (Char(c), Char(d)) => c < d
  }

  predicate KeyLess(x: seq<Chunk>, y: seq<Chunk>) {
    y != [] && (x == [] || (if x[0] != y[0] then ChunkLess(x[0], y[0]) else KeyLess(x[1..], y[1..])))
  }

  predicate Less(a: seq<byte>, b: seq<byte>) {
    KeyLess(Key(a), Key(b))
  }

  /** The name with every run of digits stripped of its leading zeros. */
  function Normalize(s: seq<byte>): seq<byte> {
    if s == [] then []
    else if Digit(s[0]) then Strip(s[..DigitRun(s)]) + Normalize(s[DigitRun(s)..])
    else [s[0]] + Normalize(s[1..])
  }

  // ---------------------------------------------------------------- digits compare as numbers

  lemma {:induction false} ValueBound(run: seq<byte>)
    requires forall c | c in run :: Digit(c)
    ensures Value(run) < Pow10(|run|)
    ensures run != [] && run[0] != ZERO ==> Pow10(|run| - 1) <= Value(run)
  {
    if run != [] {
      ValueBound(run[1..]);
      assert Digit(run[0]);
      var d: nat, p := run[0] - ZERO, Pow10(|run| - 1);
      Times(d, 9, p);
      Times(1, d, p);
    }
  }

  lemma Times(x: int, y: int, p: nat)
    ensures x <= y ==> x * p <= y * p
  {
  }

  lemma {:induction false} PowMonotone(m: nat, n: nat)
    requires m <= n
    ensures Pow10(m) <= Pow10(n)
  {
    if m < n {
      PowMonotone(m, n - 1);
    }
  }

  lemma {:induction false} SameLengthByValue(a: seq<byte>, b: seq<byte>)
    requires |a| == |b| && (forall c | c in a :: Digit(c)) && (forall c | c in b :: Digit(c))
    ensures LexLess(a, b) <==> Value(a) < Value(b)
    ensures a == b <==> Value(a) == Value(b)
  {
    if a != [] {
      SameLengthByValue(a[1..], b[1..]);
      ValueBound(a[1..]);
      ValueBound(b[1..]);
      var p := Pow10(|a| - 1);
      var d: int, e: int := a[0] - ZERO, b[0] - ZERO;
      assert d < e ==> d * p + p <= e * p by { Times(d + 1, e, p); assert (d + 1) * p == d * p + p; }
      assert e < d ==> e * p + p <= d * p by { Times(e + 1, d, p); assert (e + 1) * p == e * p + p; }
      assert a == [a[0]] + a[1..] && b == [b[0]] + b[1..];
    }
  }

  predicate Stripped(run: seq<byte>) {
    run != [] && (forall c | c in run :: Digit(c)) && (|run| > 1 ==> run[0] != ZERO)
  }

  /** Comparing stripped runs by length and then as strings is comparing their values. */
  lemma StrippedByValue(a: seq<byte>, b: seq<byte>)
    requires Stripped(a) && Stripped(b)
    ensures Value(a) < Value(b) <==> |a| < |b| || (|a| == |b| && LexLess(a, b))
    ensures Value(a) == Value(b) <==> a == b
  {
    if |a| < |b| {
      ShorterIsLess(a, b);
    } else if |a| > |b| {
      ShorterIsLess(b, a);
    } else {
      SameLengthByValue(a, b);
    }
  }

  lemma ShorterIsLess(a: seq<byte>, b: seq<byte>)
    requires Stripped(a) && Stripped(b) && |a| < |b|
    ensures Value(a) < Value(b)
  {
    ValueBound(a);
    ValueBound(b);
    PowMonotone(|a|, |b| - 1);
  }

  lemma {:induction false} TrimKeepsValue(run: seq<byte>)
    requires forall c | c in run :: Digit(c)
    ensures forall c | c in TrimZeros(run) :: Digit(c)
    ensures Value(TrimZeros(run)) == Value(run)
    ensures TrimZeros(run) != [] ==> TrimZeros(run)[0] != ZERO
  {
    if run != [] && run[0] == ZERO {
      TrimKeepsValue(run[1..]);
      assert (run[0] - ZERO) * Pow10(|run| - 1) == 0;
    }
  }

  lemma StripKeepsValue(run: seq<byte>)
    requires run != [] && forall c | c in run :: Digit(c)
    ensures Stripped(Strip(run)) && Value(Strip(run)) == Value(run)
  {
    TrimKeepsValue(run);
    assert Value([ZERO]) == 0;
  }

  // ---------------------------------------------------------------- a strict weak order

  lemma {:induction false} KeysAreOrdered(x: seq<Chunk>, y: seq<Chunk>)
    requires (forall c | c in x :: Proper(c)) && (forall c | c in y :: Proper(c))
    ensures !(KeyLess(x, y) && KeyLess(y, x))
    ensures KeyLess(x, y) || KeyLess(y, x) <==> x != y
  {
    if x != [] && y != [] {
      KeysAreOrdered(x[1..], y[1..]);
      assert x == [x[0]] + x[1..] && y == [y[0]] + y[1..];
      assert Proper(x[0]) && Proper(y[0]);
    }
  }

  lemma {:induction false} KeysAreTransitive(x: seq<Chunk>, y: seq<Chunk>, z: seq<Chunk>)
    requires (forall c | c in x :: Proper(c)) && (forall c | c in y :: Proper(c)) && (forall c | c in z :: Proper(c))
    requires KeyLess(x, y) && KeyLess(y, z)
    ensures KeyLess(x, z)
  {
    if x != [] {
      if x[0] == y[0] == z[0] {
        KeysAreTransitive(x[1..], y[1..], z[1..]);
      } else {
        assert Proper(x[0]) && Proper(y[0]) && Proper(z[0]);
      }
    }
  }

  /** Irreflexive, asymmetric, transitive, and transitive where it does not decide. */
  lemma StrictWeakOrder(a: seq<byte>, b: seq<byte>, c: seq<byte>)
    ensures !Less(a, a)
    ensures Less(a, b) ==> !Less(b, a)
    ensures Less(a, b) && Less(b, c) ==> Less(a, c)
    ensures Less(a, c) ==> Less(a, b) || Less(b, c)
  {
    KeysAreOrdered(Key(a), Key(a));
    KeysAreOrdered(Key(a), Key(b));
    KeysAreOrdered(Key(b), Key(c));
    if Less(a, b) && Less(b, c) {
      KeysAreTransitive(Key(a), Key(b), Key(c));
    }
    if Less(a, c) && Less(b, a) {
      KeysAreTransitive(Key(b), Key(a), Key(c));
    }
  }

  /** Two names are incomparable exactly when they are equal up to leading zeros of their numbers. */
  lemma IncomparableWhenNormalizedEqual(a: seq<byte>, b: seq<byte>)
    ensures !Less(a, b) && !Less(b, a) <==> Normalize(a) == Normalize(b)
  {
    KeysAreOrdered(Key(a), Key(b));
    if Key(a) == Key(b) {
      KeyDeterminesNormalized(a, b);
    }
    KeyOfNormalized(a);
    KeyOfNormalized(b);
  }

  lemma {:induction false} KeyDeterminesNormalized(a: seq<byte>, b: seq<byte>)
    requires Key(a) == Key(b)
    ensures Normalize(a) == Normalize(b)
    decreases |a|
  {
    if a != [] {
      KeyHead(a);
      KeyHead(b);
      if Digit(a[0]) {
        var i, j := DigitRun(a), DigitRun(b);
        KeyDeterminesNormalized(a[i..], b[j..]);
        StripKeepsValue(a[..i]);
        StripKeepsValue(b[..j]);
        StrippedByValue(Strip(a[..i]), Strip(b[..j]));
      } else {
        KeyDeterminesNormalized(a[1..], b[1..]);
      }
    }
  }

  /** The first chunk and the rest. */
  lemma KeyHead(s: seq<byte>)
    requires s != []
    ensures Digit(s[0]) ==> DigitRun(s) > 0 && Key(s)[0] == Num(Value(s[..DigitRun(s)]))
                            && Key(s)[1..] == Key(s[DigitRun(s)..])
    ensures !Digit(s[0]) ==> Key(s)[0] == Char(s[0]) && Key(s)[1..] == Key(s[1..])
  {
  }

  /** Normalizing keeps the key: a stripped run is followed by no digit either. */
  lemma {:induction false} KeyOfNormalized(s: seq<byte>)
    ensures Key(Normalize(s)) == Key(s)
    ensures Normalize(s) != [] <==> s != []
    ensures s != [] && !Digit(s[0]) ==> Normalize(s)[0] == s[0]
    decreases |s|
  {
    if s == [] {
    } else if Digit(s[0]) {
      var n := DigitRun(s);
      var run, rest := Strip(s[..n]), Normalize(s[n..]);
      StripKeepsValue(s[..n]);
      KeyOfNormalized(s[n..]);
      DigitRunOf(run, rest);
      assert (run + rest)[..|run|] == run && (run + rest)[|run|..] == rest;
    } else {
      KeyOfNormalized(s[1..]);
      assert Normalize(s)[1..] == Normalize(s[1..]);
    }
  }

  lemma {:induction false} DigitRunOf(run: seq<byte>, rest: seq<byte>)
    requires (forall c | c in run :: Digit(c)) && (rest != [] ==> !Digit(rest[0]))
    ensures DigitRun(run + rest) == |run|
  {
    if run == [] {
      assert run + rest == rest;
    } else {
      DigitRunOf(run[1..], rest);
      assert (run + rest)[1..] == run[1..] + rest;
    }
  }

  // ---------------------------------------------------------------- the order of included files

  /** What a sort by Less leaves behind. */
  ghost predicate Sorted(names: seq<seq<byte>>) {
    forall i, j | 0 <= i < j < |names| :: !Less(names[j], names[i])
  }

  function Keys(names: seq<seq<byte>>): (keys: seq<seq<Chunk>>)
    ensures |keys| == |names| && forall i | 0 <= i < |names| :: keys[i] == Key(names[i])
  {
    seq(|names|, i requires 0 <= i < |names| => Key(names[i]))
  }

  lemma Without<T>(s: seq<T>, j: nat)
    requires j < |s|
    ensures multiset(s) == multiset(s[..j] + s[j + 1..]) + multiset{s[j]}
  {
    assert s == s[..j] + [s[j]] + s[j + 1..];
  }

  lemma First<T>(s: seq<T>)
    requires s != []
    ensures multiset(s) == multiset(s[1..]) + multiset{s[0]}
  {
    assert s == [s[0]] + s[1..];
  }

  lemma Cancel<T>(a: multiset<T>, b: multiset<T>, x: T)
    requires a + multiset{x} == b + multiset{x}
    ensures a == b
  {
    assert a == a + multiset{x} - multiset{x} && b == b + multiset{x} - multiset{x};
  }

  lemma Somewhere<T>(s: seq<T>, t: seq<T>) returns (j: nat)
    requires s != [] && multiset(s) == multiset(t)
    ensures j < |t| && t[j] == s[0]
  {
    assert s[0] in multiset(t);
    j :| 0 <= j < |t| && t[j] == s[0];
  }

  lemma SameLength<T>(s: seq<T>, t: seq<T>)
    requires multiset(s) == multiset(t)
    ensures |s| == |t|
  {
    assert |s| == |multiset(s)| == |multiset(t)| == |t|;
  }

  lemma KeysWithout(names: seq<seq<byte>>, j: nat)
    requires j < |names|
    ensures multiset(Keys(names)) == multiset(Keys(names[..j] + names[j + 1..])) + multiset{Key(names[j])}
  {
    Without(Keys(names), j);
    assert Keys(names)[..j] + Keys(names)[j + 1..] == Keys(names[..j] + names[j + 1..]);
  }

  lemma KeysFirst(names: seq<seq<byte>>)
    requires names != []
    ensures multiset(Keys(names)) == multiset(Keys(names[1..])) + multiset{Key(names[0])}
  {
    First(Keys(names));
    assert Keys(names)[1..] == Keys(names[1..]);
  }

  lemma {:induction false} KeysPermute(x: seq<seq<byte>>, y: seq<seq<byte>>)
    requires multiset(x) == multiset(y)
    ensures multiset(Keys(x)) == multiset(Keys(y))
  {
    SameLength(x, y);
    if x != [] {
      var j := Somewhere(x, y);
      var rest := y[..j] + y[j + 1..];
      First(x);
      Without(y, j);
      Cancel(multiset(x[1..]), multiset(rest), x[0]);
      KeysPermute(x[1..], rest);
      KeysFirst(x);
      KeysWithout(y, j);
    }
  }

  ghost predicate SortedKeys(k: seq<seq<Chunk>>) {
    && (forall x, c | x in k && c in x :: Proper(c))
    && (forall i, j | 0 <= i < j < |k| :: !KeyLess(k[j], k[i]))
  }

  lemma SortedTail(k: seq<seq<Chunk>>)
    requires SortedKeys(k) && k != []
    ensures SortedKeys(k[1..])
  {
    assert forall i | 0 <= i < |k| - 1 :: k[1..][i] == k[i + 1];
  }

  lemma SortedHeads(k: seq<seq<Chunk>>, l: seq<seq<Chunk>>)
    requires SortedKeys(k) && SortedKeys(l) && multiset(k) == multiset(l) && k != [] && l != []
    ensures k[0] == l[0]
  {
    var i := Somewhere(l, k);
    var j := Somewhere(k, l);
    KeysAreOrdered(k[0], l[0]);
  }

  lemma {:induction false} SortedKeysAreEqual(k: seq<seq<Chunk>>, l: seq<seq<Chunk>>)
    requires SortedKeys(k) && SortedKeys(l) && multiset(k) == multiset(l)
    ensures k == l
  {
    SameLength(k, l);
    if k != [] {
      SortedHeads(k, l);
      First(k);
      First(l);
      Cancel(multiset(k[1..]), multiset(l[1..]), k[0]);
      SortedTail(k);
      SortedTail(l);
      SortedKeysAreEqual(k[1..], l[1..]);
      assert k == [k[0]] + k[1..] && l == [l[0]] + l[1..];
    }
  }

  /** However the sort treats names it cannot tell apart, files load in the same order up to leading zeros. */
  lemma LoadOrderIsDetermined(x: seq<seq<byte>>, y: seq<seq<byte>>)
    requires multiset(x) == multiset(y) && Sorted(x) && Sorted(y)
    ensures |x| == |y| && forall i | 0 <= i < |x| :: Normalize(x[i]) == Normalize(y[i])
  {
    KeysPermute(x, y);
    SortedKeysAreEqual(Keys(x), Keys(y));
    forall i | 0 <= i < |x|
      ensures Normalize(x[i]) == Normalize(y[i])
    {
      assert Keys(x)[i] == Keys(y)[i];
      KeyDeterminesNormalized(x[i], y[i]);
    }
  }

  // ---------------------------------------------------------------- the code

  /** naturalLess. */
  method NaturalLess(left: seq<byte>, right: seq<byte>) returns (less: bool)
    ensures less == Less(left, right)
  {
    var a, b := left, right;
    while true
      invariant Less(a, b) == Less(left, right)
      decreases |a|
    {
      if a == b {
        KeysAreOrdered(Key(a), Key(b));
        return false;
      }
      if a == [] {
        return true;
      }
      if b == [] {
        return false;
      }
      KeyHead(a);
      KeyHead(b);
      var aDigit, bDigit := Digit(a[0]), Digit(b[0]);
      if aDigit && bDigit {
        var ai := CountDigits(a);
        var bi := CountDigits(b);
        StripKeepsValue(a[..ai]);
        StripKeepsValue(b[..bi]);
        var aNumber := TrimZeros(a[..ai]);
        var bNumber := TrimZeros(b[..bi]);
        if aNumber == [] {
          aNumber := [ZERO];
        }
        if bNumber == [] {
          bNumber := [ZERO];
        }
        StrippedByValue(aNumber, bNumber);
        if |aNumber| != |bNumber| {
          return |aNumber| < |bNumber|;
        }
        if aNumber != bNumber {
          return LexLess(aNumber, bNumber);
        }
        a := a[ai..];
        b := b[bi..];
      } else if aDigit != bDigit {
        return a[0] < b[0];
      } else {
        if a[0] != b[0] {
          return a[0] < b[0];
        }
        a := a[1..];
        b := b[1..];
      }
    }
  }

  method CountDigits(s: seq<byte>) returns (n: nat)
    ensures n == DigitRun(s)
  {
    n := 0;
    while n < |s| && Digit(s[n])
      invariant n <= |s| && DigitRun(s) == n + DigitRun(s[n..])
    {
      assert s[n..][1..] == s[n + 1..];
      n := n + 1;
    }
  }
}
