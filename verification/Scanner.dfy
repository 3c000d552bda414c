/** The two passes over a configuration line: one drops the comment, the other cuts the rest into tokens. */
module Scanner {
  import opened Wrappers
  import opened Bytes

  const TAB: byte := 9
  const BLANK: byte := 32
  const DOUBLE: byte := 34
  const HASH: byte := 35
  const SINGLE: byte := 39
  const BACKSLASH: byte := 92

  datatype ScanError = Unterminated(quote: byte) | TrailingEscape

  // ---------------------------------------------------------------- quotes and escapes

  /** Whether the next byte is quoted and whether it is escaped; the last quote is remembered. */
  datatype Mode = Mode(inQuote: bool, quote: byte, escaped: bool)

  const START := Mode(false, 0, false)

  /** Only quotes open quotes. */
  predicate Proper(m: Mode) {
    m.inQuote ==> m.quote == SINGLE || m.quote == DOUBLE
  }

  function Step(m: Mode, ch: byte): (r: Mode)
    ensures Proper(m) ==> Proper(r)
  {
    if m.escaped then m.(escaped := false)
    else if ch == BACKSLASH then m.(escaped := true)
    else if m.inQuote then (if ch == m.quote then m.(inQuote := false) else m)
    else if ch == SINGLE || ch == DOUBLE then m.(inQuote := true, quote := ch)
    else m
  }

  function Run(m: Mode, s: seq<byte>): (r: Mode)
    ensures Proper(m) ==> Proper(r)
    decreases |s|
  {
    if s == [] then m else Run(Step(m, s[0]), s[1..])
  }

  predicate Plain(m: Mode) {
    !m.inQuote && !m.escaped
  }

  lemma {:induction false} RunConcat(m: Mode, s: seq<byte>, t: seq<byte>)
    ensures Run(m, s + t) == Run(Run(m, s), t)
    decreases |s|
  {
    if s == [] {
      assert s + t == t;
    } else {
      assert (s + t)[1..] == s[1..] + t;
      RunConcat(Step(m, s[0]), s[1..], t);
    }
  }

  lemma RunSnoc(m: Mode, s: seq<byte>, i: nat)
    requires i < |s|
    ensures Run(m, s[..i + 1]) == Step(Run(m, s[..i]), s[i])
  {
    assert s[..i + 1] == s[..i] + [s[i]];
    RunConcat(m, s[..i], [s[i]]);
    assert [s[i]][1..] == [];
  }

  /** s ends in an odd number of backslashes. */
  predicate OddBackslashes(s: seq<byte>) {
    s != [] && s[|s| - 1] == BACKSLASH && !OddBackslashes(s[..|s| - 1])
  }

  lemma {:induction false} EscapedAfterOddBackslashes(s: seq<byte>)
    ensures Run(START, s).escaped <==> OddBackslashes(s)
  {
    if s != [] {
      EscapedAfterOddBackslashes(s[..|s| - 1]);
      RunSnoc(START, s, |s| - 1);
      assert s[..|s|] == s;
    }
  }

  // ---------------------------------------------------------------- white space

  /** The length in bytes of the white space character that s starts with; zero if it starts with none. */
  function SpaceAtFront(s: seq<byte>): (n: nat)
    ensures n <= |s|
  {
    if |s| >= 1 && (TAB <= s[0] <= 13 || s[0] == BLANK) then 1
    else if |s| >= 2 && s[0] == 0xC2 && (s[1] == 0x85 || s[1] == 0xA0) then 2
    else if |s| >= 3 && WideSpace(s[0], s[1], s[2]) then 3
    else 0
  }

  function SpaceAtBack(s: seq<byte>): (n: nat)
    ensures n <= |s|
  {
    var k := |s|;
    if k >= 1 && (TAB <= s[k - 1] <= 13 || s[k - 1] == BLANK) then 1
    else if k >= 2 && s[k - 2] == 0xC2 && (s[k - 1] == 0x85 || s[k - 1] == 0xA0) then 2
    else if k >= 3 && WideSpace(s[k - 3], s[k - 2], s[k - 1]) then 3
    else 0
  }

  /** The white space characters that take three bytes in UTF-8. */
  predicate WideSpace(a: byte, b: byte, c: byte) {
    || (a == 0xE1 && b == 0x9A && c == 0x80)
    || (a == 0xE2 && b == 0x80 && (0x80 <= c <= 0x8A || c == 0xA8 || c == 0xA9 || c == 0xAF))
    || (a == 0xE2 && b == 0x81 && c == 0x9F)
    || (a == 0xE3 && b == 0x80 && c == 0x80)
  }

  function TrimFront(s: seq<byte>): seq<byte> {
    if SpaceAtFront(s) == 0 then s else TrimFront(s[SpaceAtFront(s)..])
  }

  function TrimBack(s: seq<byte>): (r: seq<byte>)
    ensures r <= s
  {
    if SpaceAtBack(s) == 0 then s else TrimBack(s[..|s| - SpaceAtBack(s)])
  }

  /** strings.TrimSpace. */
  function TrimSpace(s: seq<byte>): seq<byte> {
    TrimBack(TrimFront(s))
  }

  /** One white space character after another. */
  predicate AllSpace(s: seq<byte>) {
    s == [] || (SpaceAtFront(s) > 0 && AllSpace(s[SpaceAtFront(s)..]))
  }

  lemma {:induction false} AllSpaceConcat(s: seq<byte>, t: seq<byte>)
    requires AllSpace(s) && AllSpace(t)
    ensures AllSpace(s + t)
  {
    if s == [] {
      assert s + t == t;
    } else {
      var n := SpaceAtFront(s);
      assert SpaceAtFront(s + t) == n && (s + t)[n..] == s[n..] + t;
      AllSpaceConcat(s[n..], t);
    }
  }

  lemma OneSpace(s: seq<byte>)
    requires s != [] && SpaceAtFront(s) == |s|
    ensures AllSpace(s)
  {
    assert s[|s|..] == [];
  }

  lemma FirstIsSpace(s: seq<byte>)
    requires SpaceAtFront(s) > 0
    ensures AllSpace(s[..SpaceAtFront(s)])
  {
    OneSpace(s[..SpaceAtFront(s)]);
  }

  lemma LastIsSpace(s: seq<byte>)
    requires SpaceAtBack(s) > 0
    ensures AllSpace(s[|s| - SpaceAtBack(s)..])
  {
    OneSpace(s[|s| - SpaceAtBack(s)..]);
  }

  lemma {:induction false} TrimFrontIs(s: seq<byte>) returns (front: seq<byte>)
    ensures s == front + TrimFront(s) && AllSpace(front) && SpaceAtFront(TrimFront(s)) == 0
  {
    var n := SpaceAtFront(s);
    if n == 0 {
      front := [];
    } else {
      var rest := TrimFrontIs(s[n..]);
      front := s[..n] + rest;
      FirstIsSpace(s);
      AllSpaceConcat(s[..n], rest);
      ThreeParts(s, n, rest, TrimFront(s));
    }
  }

  lemma ThreeParts(s: seq<byte>, n: nat, rest: seq<byte>, r: seq<byte>)
    requires n <= |s| && s[n..] == rest + r
    ensures s == s[..n] + rest + r
  {
    assert s == s[..n] + s[n..];
  }

  lemma {:induction false} TrimBackIs(s: seq<byte>) returns (back: seq<byte>)
    ensures s == TrimBack(s) + back && AllSpace(back) && SpaceAtBack(TrimBack(s)) == 0
  {
    var n := SpaceAtBack(s);
    if n == 0 {
      back := [];
    } else {
      var k := |s| - n;
      var rest := TrimBackIs(s[..k]);
      back := rest + s[k..];
      LastIsSpace(s);
      AllSpaceConcat(rest, s[k..]);
      Regroup(s, k, TrimBack(s), rest);
    }
  }

  lemma Regroup(s: seq<byte>, k: nat, r: seq<byte>, rest: seq<byte>)
    requires k <= |s| && s[..k] == r + rest
    ensures s == r + (rest + s[k..])
  {
    assert s == s[..k] + s[k..];
  }

  /** Trimming takes white space from both ends, as much as there is, and nothing else. */
  lemma TrimSpaceIs(s: seq<byte>) returns (front: seq<byte>, back: seq<byte>)
    ensures s == front + (TrimSpace(s) + back) && AllSpace(front) && AllSpace(back)
    ensures SpaceAtFront(TrimSpace(s)) == 0 && SpaceAtBack(TrimSpace(s)) == 0
  {
    front := TrimFrontIs(s);
    back := TrimBackIs(TrimFront(s));
    NoSpaceInFront(TrimSpace(s), back);
  }

  lemma NoSpaceInFront(r: seq<byte>, back: seq<byte>)
    requires SpaceAtFront(r + back) == 0
    ensures SpaceAtFront(r) == 0
  {
  }

  /** The bytes of white space are neither quotes nor backslashes. */
  predicate SpaceByte(c: byte) {
    TAB <= c <= 13 || c == BLANK || c >= 0x80
  }

  lemma {:induction false} TrimFrontKeepsMode(s: seq<byte>)
    ensures Run(START, TrimFront(s)) == Run(START, s)
  {
    var n := SpaceAtFront(s);
    if n != 0 {
      SpacesKeepQuote(START, s[..n]);
      assert s == s[..n] + s[n..];
      RunConcat(START, s[..n], s[n..]);
      TrimFrontKeepsMode(s[n..]);
    }
  }

  /** Running over white space leaves quoting alone and ends an escape. */
  lemma {:induction false} SpacesKeepQuote(m: Mode, s: seq<byte>)
    requires Proper(m) && forall c | c in s :: SpaceByte(c)
    ensures Run(m, s) == if s == [] then m else m.(escaped := false)
    decreases |s|
  {
    if s != [] {
      assert SpaceByte(s[0]);
      SpacesKeepQuote(Step(m, s[0]), s[1..]);
    }
  }

  lemma {:induction false} TrimBackKeepsQuote(s: seq<byte>)
    ensures Run(START, TrimBack(s)).inQuote == Run(START, s).inQuote
    ensures TrimBack(s) == s || (|TrimBack(s)| < |s| && SpaceByte(s[|TrimBack(s)|]))
  {
    var n := SpaceAtBack(s);
    if n != 0 {
      var rest, space := s[..|s| - n], s[|s| - n..];
      SpacesKeepQuote(Run(START, rest), space);
      assert s == rest + space;
      RunConcat(START, rest, space);
      TrimBackKeepsQuote(rest);
    }
  }

  // ---------------------------------------------------------------- the two passes

  /** A comment starts at a plain hash that begins the line or follows a blank. */
  predicate CommentAt(line: seq<byte>, i: nat)
    requires i < |line|
  {
    && line[i] == HASH && Plain(Run(START, line[..i]))
    && (i == 0 || line[i - 1] == BLANK || line[i - 1] == TAB)
  }

  /** Where the first comment from i on starts; the end of the line if there is none. */
  function FirstComment(line: seq<byte>, i: nat): (c: nat)
    requires i <= |line|
    ensures i <= c <= |line|
    ensures c < |line| ==> CommentAt(line, c)
    ensures forall j | i <= j < c :: !CommentAt(line, j)
    decreases |line| - i
  {
    if i == |line| || CommentAt(line, i) then i else FirstComment(line, i + 1)
  }

  function Strip(line: seq<byte>): Result<seq<byte>, ScanError> {
    var c := FirstComment(line, 0);
    if c < |line| then Ok(TrimSpace(line[..c]))
    else
      var m := Run(START, line);
      if m.inQuote then Err(Unterminated(m.quote))
      else if m.escaped then Err(TrailingEscape)
      else Ok(TrimSpace(line))
  }

  datatype Cutter = Cutter(mode: Mode, tokens: seq<seq<byte>>, current: seq<byte>, started: bool)

  const FRESH := Cutter(START, [], [], false)

  /** A token is what stands between plain blanks, without its quotes and escapes. */
  function Cut(t: Cutter, ch: byte): Cutter {
    var m := Step(t.mode, ch);
    if !t.mode.escaped && (ch == BACKSLASH || m.inQuote != t.mode.inQuote) then
      t.(mode := m, started := t.started || !t.mode.inQuote || ch == BACKSLASH)
    else if Plain(t.mode) && (ch == BLANK || ch == TAB) then
      if t.started then Cutter(m, t.tokens + [t.current], [], false) else t
    else
      t.(mode := m, current := t.current + [ch], started := true)
  }

  function CutAll(t: Cutter, s: seq<byte>): (r: Cutter)
    ensures r.mode == Run(t.mode, s)
    decreases |s|
  {
    if s == [] then t else CutAll(Cut(t, s[0]), s[1..])
  }

  function Finish(t: Cutter): Result<seq<seq<byte>>, ScanError> {
    if t.mode.escaped then Err(TrailingEscape)
    else if t.mode.inQuote then Err(Unterminated(t.mode.quote))
    else Ok(if t.started then t.tokens + [t.current] else t.tokens)
  }

  function Tokens(line: seq<byte>): Result<seq<seq<byte>>, ScanError> {
    Finish(CutAll(FRESH, line))
  }

  /** The passes agree on every quote and escape: what the first accepts never fails the second for an open quote. It
      fails for a trailing escape exactly when it ends in an odd number of backslashes, the last of which escaped the
      white space that was trimmed. */
  lemma AcceptedLineTokenizes(line: seq<byte>)
    requires Strip(line).Ok?
    ensures var text := Strip(line).value;
            && (OddBackslashes(text) ==> Tokens(text) == Err(TrailingEscape) && TrimmedSpaceFollows(line, text))
            && (!OddBackslashes(text) ==> Tokens(text).Ok?)
  {
    var c := FirstComment(line, 0);
    assert line[..|line|] == line;
    var kept := line[..c];
    var text := TrimSpace(kept);
    TrimFrontKeepsMode(kept);
    TrimBackKeepsQuote(TrimFront(kept));
    EscapedAfterOddBackslashes(text);
    assert Plain(Run(START, kept));
  }

  /** Trimming took white space right after the text. */
  ghost predicate TrimmedSpaceFollows(line: seq<byte>, text: seq<byte>) {
    var kept := TrimFront(line[..FirstComment(line, 0)]);
    |text| < |kept| && kept[..|text|] == text && SpaceByte(kept[|text|])
  }

  /** The second pass can refuse what the first accepts: a backslash and a blank. */
  lemma EscapedBlankIsRefused()
    ensures Strip([BACKSLASH, BLANK]) == Ok([BACKSLASH])
    ensures Tokens([BACKSLASH]) == Err(TrailingEscape)
  {
    var line := [BACKSLASH, BLANK];
    assert FirstComment(line, 2) == FirstComment(line, 1) == FirstComment(line, 0) == 2;
    assert line[1..] == [BLANK] && [BLANK][1..] == [] && [BACKSLASH][1..] == [];
    assert Run(START, line) == Run(Step(START, BACKSLASH), [BLANK]) == START;
    assert TrimFront(line) == line;
    assert line[..1] == [BACKSLASH];
    assert TrimBack(line) == TrimBack([BACKSLASH]) == [BACKSLASH];
    assert CutAll(FRESH, [BACKSLASH]) == Cut(FRESH, BACKSLASH);
  }

  // ---------------------------------------------------------------- printing tokens

  datatype Style = Bare | InQuotes(quote: byte)

  /** A token, how it is spelled, and the blanks in front of it. */
  datatype Word = Word(token: seq<byte>, style: Style, gap: seq<byte>)

  predicate Gap(s: seq<byte>) {
    forall i | 0 <= i < |s| :: s[i] == BLANK || s[i] == TAB
  }

  /** Only a token that is not empty can do without quotes. */
  predicate ProperWord(w: Word) {
    && Gap(w.gap)
    && match w.style case Bare => w.token != [] case InQuotes(q) => q == SINGLE || q == DOUBLE
  }

  /** Blanks divide all words, and may stand in front of the first. */
  ghost predicate ProperWords(words: seq<Word>) {
    forall i | 0 <= i < |words| :: ProperWord(words[i]) && (i > 0 ==> words[i].gap != [])
  }

  /** The bytes that mean something where they stand. */
  predicate Special(style: Style, ch: byte) {
    match style
    case Bare => ch == BACKSLASH || ch == SINGLE || ch == DOUBLE || ch == BLANK || ch == TAB || ch == HASH
    case InQuotes(q) => ch == BACKSLASH || ch == q
  }

  function EscapeByte(style: Style, ch: byte): seq<byte> {
    if Special(style, ch) then [BACKSLASH, ch] else [ch]
  }

  function Escape(style: Style, token: seq<byte>): seq<byte> {
    if token == [] then [] else EscapeByte(style, token[0]) + Escape(style, token[1..])
  }

  function Spelled(w: Word): seq<byte> {
    match w.style
    case Bare => Escape(Bare, w.token)
    case InQuotes(q) => [q] + Escape(w.style, w.token) + [q]
  }

  function Printed(words: seq<Word>): seq<byte> {
    if words == [] then []
    else
      var w := words[|words| - 1];
      Printed(words[..|words| - 1]) + w.gap + Spelled(w)
  }

  function TokensOf(words: seq<Word>): (r: seq<seq<byte>>)
    ensures |r| == |words| && forall i | 0 <= i < |r| :: r[i] == words[i].token
  {
    seq(|words|, i requires 0 <= i < |words| => words[i].token)
  }

  lemma {:induction false} CutConcat(t: Cutter, s: seq<byte>, u: seq<byte>)
    ensures CutAll(t, s + u) == CutAll(CutAll(t, s), u)
    decreases |s|
  {
    if s == [] {
      assert s + u == u;
    } else {
      assert (s + u)[1..] == s[1..] + u;
      CutConcat(Cut(t, s[0]), s[1..], u);
    }
  }

  /** The mode in which a word of this style is spelled. */
  predicate Spelling(style: Style, m: Mode) {
    match style case Bare => Plain(m) case InQuotes(q) => m == Mode(true, q, false)
  }

  lemma CutOne(style: Style, t: Cutter, ch: byte)
    requires Spelling(style, t.mode)
    ensures CutAll(t, EscapeByte(style, ch)) == t.(current := t.current + [ch], started := true)
  {
    assert [BACKSLASH, ch][1..] == [ch] && [ch][1..] == [];
    assert CutAll(t, [ch]) == Cut(t, ch);
    var escaping := Cut(t, BACKSLASH);
    assert CutAll(escaping, [ch]) == Cut(escaping, ch);
  }

  /** An escaped token adds itself. */
  lemma {:induction false} CutEscaped(style: Style, t: Cutter, token: seq<byte>)
    requires Spelling(style, t.mode)
    ensures CutAll(t, Escape(style, token))
            == t.(current := t.current + token, started := t.started || token != [])
    decreases |token|
  {
    if token == [] {
      assert t.current + token == t.current;
    } else {
      var next := t.(current := t.current + [token[0]], started := true);
      CutOne(style, t, token[0]);
      CutConcat(t, EscapeByte(style, token[0]), Escape(style, token[1..]));
      CutEscaped(style, next, token[1..]);
      assert next.current + token[1..] == t.current + token;
    }
  }

  /** What the cutter has after words with these tokens: the last is the current one. */
  ghost predicate AtEnd(t: Cutter, tokens: seq<seq<byte>>) {
    Plain(t.mode) && t.started && t.tokens + [t.current] == tokens
  }

  lemma CutSpelled(t: Cutter, w: Word)
    requires ProperWord(w) && Plain(t.mode) && t.current == [] && !t.started
    ensures AtEnd(CutAll(t, Spelled(w)), t.tokens + [w.token])
  {
    assert [] + w.token == w.token;
    match w.style {
      case Bare => CutEscaped(Bare, t, w.token);
      case InQuotes(q) =>
        var open := Cutter(Mode(true, q, false), t.tokens, [], true);
        assert [q][1..] == [];
        assert Cut(t, q) == open && CutAll(t, [q]) == open;
        CutEscaped(w.style, open, w.token);
        CutConcat(t, [q], Escape(w.style, w.token));
        CutConcat(t, [q] + Escape(w.style, w.token), [q]);
    }
  }

  /** Blanks end a token, and otherwise do nothing. */
  lemma {:induction false} CutGap(t: Cutter, gap: seq<byte>)
    requires Plain(t.mode) && Gap(gap)
    ensures CutAll(t, gap)
            == if t.started && gap != [] then Cutter(t.mode, t.tokens + [t.current], [], false) else t
    decreases |gap|
  {
    if gap != [] {
      CutGap(Cut(t, gap[0]), gap[1..]);
    }
  }

  /** One more word after those of the tokens. */
  lemma CutWord(t: Cutter, tokens: seq<seq<byte>>, w: Word)
    requires ProperWord(w) && if tokens == [] then t == FRESH else AtEnd(t, tokens) && w.gap != []
    ensures AtEnd(CutAll(t, w.gap + Spelled(w)), tokens + [w.token])
  {
    CutConcat(t, w.gap, Spelled(w));
    CutGap(t, w.gap);
    CutSpelled(CutAll(t, w.gap), w);
  }

  lemma TokensSnoc(words: seq<Word>)
    requires words != []
    ensures TokensOf(words) == TokensOf(words[..|words| - 1]) + [words[|words| - 1].token]
  {
  }

  lemma {:induction false} CutPrinted(words: seq<Word>)
    requires ProperWords(words)
    ensures if words == [] then CutAll(FRESH, Printed(words)) == FRESH
            else AtEnd(CutAll(FRESH, Printed(words)), TokensOf(words))
  {
    if words != [] {
      var before, w := words[..|words| - 1], words[|words| - 1];
      CutPrinted(before);
      CutWord(CutAll(FRESH, Printed(before)), TokensOf(before), w);
      CutConcat(FRESH, Printed(before), w.gap + Spelled(w));
      TokensSnoc(words);
      Appended(Printed(before), w.gap, Spelled(w));
    }
  }

  lemma Appended(s: seq<byte>, t: seq<byte>, u: seq<byte>)
    ensures s + t + u == s + (t + u)
  {
  }

  /** No hash is met in plain mode. */
  predicate Quiet(m: Mode, s: seq<byte>)
    decreases |s|
  {
    s == [] || (!(Plain(m) && s[0] == HASH) && Quiet(Step(m, s[0]), s[1..]))
  }

  lemma {:induction false} QuietConcat(m: Mode, s: seq<byte>, t: seq<byte>)
    ensures Quiet(m, s + t) <==> Quiet(m, s) && Quiet(Run(m, s), t)
    decreases |s|
  {
    if s == [] {
      assert s + t == t;
    } else {
      assert (s + t)[1..] == s[1..] + t;
      QuietConcat(Step(m, s[0]), s[1..], t);
    }
  }

  lemma QuietHasNoComment(line: seq<byte>, n: nat)
    requires n <= |line| && Quiet(START, line[..n])
    ensures forall i | 0 <= i < n :: !CommentAt(line, i)
  {
    forall i | 0 <= i < n
      ensures !CommentAt(line, i)
    {
      assert line[..n] == line[..i] + line[i..n];
      QuietConcat(START, line[..i], line[i..n]);
    }
  }

  lemma {:induction false} EscapedIsQuiet(style: Style, m: Mode, token: seq<byte>)
    requires Spelling(style, m)
    ensures Quiet(m, Escape(style, token)) && Run(m, Escape(style, token)) == m
  {
    if token != [] {
      var ch := token[0];
      assert [BACKSLASH, ch][1..] == [ch] && [ch][1..] == [];
      QuietConcat(m, EscapeByte(style, ch), Escape(style, token[1..]));
      RunConcat(m, EscapeByte(style, ch), Escape(style, token[1..]));
      EscapedIsQuiet(style, m, token[1..]);
    }
  }

  lemma SpelledIsQuiet(m: Mode, w: Word)
    requires Plain(m) && ProperWord(w)
    ensures Quiet(m, Spelled(w)) && Plain(Run(m, Spelled(w)))
  {
    match w.style {
      case Bare => EscapedIsQuiet(Bare, m, w.token);
      case InQuotes(q) =>
        assert [q][1..] == [];
        EscapedIsQuiet(w.style, Mode(true, q, false), w.token);
        QuietConcat(m, [q], Escape(w.style, w.token));
        RunConcat(m, [q], Escape(w.style, w.token));
        QuietConcat(m, [q] + Escape(w.style, w.token), [q]);
        RunConcat(m, [q] + Escape(w.style, w.token), [q]);
    }
  }

  lemma {:induction false} GapIsQuiet(m: Mode, gap: seq<byte>)
    requires Plain(m) && Gap(gap)
    ensures Quiet(m, gap) && Run(m, gap) == m
    decreases |gap|
  {
    if gap != [] {
      GapIsQuiet(m, gap[1..]);
    }
  }

  lemma {:induction false} PrintedIsQuiet(words: seq<Word>)
    requires ProperWords(words)
    ensures Quiet(START, Printed(words)) && Plain(Run(START, Printed(words)))
  {
    if words != [] {
      var k := |words| - 1;
      var before, w := Printed(words[..k]), words[k];
      PrintedIsQuiet(words[..k]);
      GapIsQuiet(Run(START, before), w.gap);
      QuietConcat(START, before, w.gap);
      RunConcat(START, before, w.gap);
      SpelledIsQuiet(Run(START, before + w.gap), w);
      QuietConcat(START, before + w.gap, Spelled(w));
      RunConcat(START, before + w.gap, Spelled(w));
    }
  }

  /** A line without a comment: all of it is text. */
  lemma QuietLineIsText(text: seq<byte>)
    requires Quiet(START, text) && Plain(Run(START, text))
    ensures Strip(text) == Ok(TrimSpace(text))
  {
    assert text[..|text|] == text;
    QuietHasNoComment(text, |text|);
  }

  /** A hash that follows anything but a blank does not start a comment. */
  lemma GluedHashIsText(line: seq<byte>)
    requires Plain(Run(START, line))
    requires forall i | 0 <= i < |line| && line[i] == HASH :: i > 0 && line[i - 1] != BLANK && line[i - 1] != TAB
    ensures Strip(line) == Ok(TrimSpace(line))
  {
    assert forall i | 0 <= i < |line| :: !CommentAt(line, i);
  }

  /** A line with a comment: the text ends before the hash. */
  lemma HashEndsText(text: seq<byte>, comment: seq<byte>)
    requires Quiet(START, text) && Plain(Run(START, text))
    requires text == [] || text[|text| - 1] == BLANK || text[|text| - 1] == TAB
    ensures Strip(text + [HASH] + comment) == Ok(TrimSpace(text))
  {
    var line, n := text + [HASH] + comment, |text|;
    assert line[..n] == text && line[n] == HASH;
    QuietHasNoComment(line, n);
    assert CommentAt(line, n) && FirstComment(line, 0) == n;
  }

  lemma QuotesAreNotTrimmed(s: seq<byte>)
    requires s != [] && s[0] in {SINGLE, DOUBLE} && s[|s| - 1] in {SINGLE, DOUBLE}
    ensures TrimSpace(s) == s
  {
    assert SpaceAtFront(s) == 0 && SpaceAtBack(s) == 0;
  }

  /** Nothing to trim: the line begins and ends with a quote. */
  predicate QuotedEnds(words: seq<Word>) {
    words != [] ==> words[0].gap == [] && words[0].style.InQuotes? && words[|words| - 1].style.InQuotes?
  }

  lemma {:induction false} PrintedBegins(words: seq<Word>)
    requires ProperWords(words) && words != [] && words[0].gap == [] && words[0].style.InQuotes?
    ensures Printed(words) != [] && Printed(words)[0] == words[0].style.quote
  {
    if |words| > 1 {
      PrintedBegins(words[..|words| - 1]);
    }
  }

  lemma PrintedIsKept(words: seq<Word>)
    requires ProperWords(words) && QuotedEnds(words)
    ensures TrimSpace(Printed(words)) == Printed(words)
  {
    if words != [] {
      PrintedBegins(words);
      assert ProperWord(words[0]) && ProperWord(words[|words| - 1]);
      QuotesAreNotTrimmed(Printed(words));
    }
  }

  /** Whatever the tokens hold, however each of them is quoted and however many blanks divide them, they are read again
      as they were printed. The first pass takes only white space from the ends of such a line, and nothing when it
      begins and ends with a quote. */
  lemma PrintedTokensComeBack(words: seq<Word>)
    requires ProperWords(words)
    ensures Tokens(Printed(words)) == Ok(TokensOf(words))
    ensures Strip(Printed(words)) == Ok(TrimSpace(Printed(words)))
    ensures QuotedEnds(words) ==> Strip(Printed(words)) == Ok(Printed(words))
  {
    PrintedIsQuiet(words);
    QuietLineIsText(Printed(words));
    CutPrinted(words);
    if QuotedEnds(words) {
      PrintedIsKept(words);
    }
  }

  /** A comment after such a line is dropped, whatever it holds. */
  lemma CommentIsDropped(words: seq<Word>, gap: seq<byte>, comment: seq<byte>)
    requires ProperWords(words) && Gap(gap) && gap != []
    ensures Strip(Printed(words) + gap + [HASH] + comment) == Ok(TrimSpace(Printed(words) + gap))
  {
    var text := Printed(words);
    PrintedIsQuiet(words);
    GapIsQuiet(Run(START, text), gap);
    QuietConcat(START, text, gap);
    RunConcat(START, text, gap);
    assert (text + gap)[|text + gap| - 1] == gap[|gap| - 1];
    HashEndsText(text + gap, comment);
  }

  // ---------------------------------------------------------------- the code

  method StripInlineComment(line: seq<byte>) returns (r: Result<seq<byte>, ScanError>)
    ensures r == Strip(line)
  {
    var inQuote, quoteChar: byte, escaped := false, 0, false;
    assert line[..0] == [];
    for i := 0 to |line|
      invariant Mode(inQuote, quoteChar, escaped) == Run(START, line[..i])
      invariant FirstComment(line, i) == FirstComment(line, 0)
    {
      RunSnoc(START, line, i);
      var ch := line[i];
      if escaped {
        escaped := false;
        continue;
      }
      if ch == BACKSLASH {
        escaped := true;
        continue;
      }
      if inQuote {
        if ch == quoteChar {
          inQuote := false;
        }
        continue;
      }
      if ch == SINGLE || ch == DOUBLE {
        inQuote := true;
        quoteChar := ch;
        continue;
      }
      if ch == HASH && (i == 0 || line[i - 1] == BLANK || line[i - 1] == TAB) {
        return Ok(TrimSpace(line[..i]));
      }
    }
    assert line[..|line|] == line;
    if inQuote {
      return Err(Unterminated(quoteChar));
    }
    if escaped {
      return Err(TrailingEscape);
    }
    return Ok(TrimSpace(line));
  }

  lemma CutSnoc(t: Cutter, s: seq<byte>, i: nat)
    requires i < |s|
    ensures CutAll(t, s[..i + 1]) == Cut(CutAll(t, s[..i]), s[i])
  {
    assert s[..i + 1] == s[..i] + [s[i]];
    CutConcat(t, s[..i], [s[i]]);
    assert [s[i]][1..] == [];
  }

  method TokenizeStrict(line: seq<byte>) returns (r: Result<seq<seq<byte>>, ScanError>)
    ensures r == Tokens(line)
  {
    var tokens: seq<seq<byte>>, current: seq<byte> := [], [];
    var inQuote, quoteChar: byte, escaped, tokenStarted := false, 0, false, false;
    assert line[..0] == [];
    for i := 0 to |line|
      invariant Cutter(Mode(inQuote, quoteChar, escaped), tokens, current, tokenStarted) == CutAll(FRESH, line[..i])
    {
      CutSnoc(FRESH, line, i);
      var ch := line[i];
      if escaped {
        current := current + [ch];
        escaped := false;
        tokenStarted := true;
        continue;
      }
      if ch == BACKSLASH {
        escaped := true;
        tokenStarted := true;
        continue;
      }
      if inQuote {
        if ch == quoteChar {
          inQuote := false;
        } else {
          current := current + [ch];
          tokenStarted := true;
        }
        continue;
      }
      if ch == DOUBLE || ch == SINGLE {
        inQuote := true;
        quoteChar := ch;
        tokenStarted := true;
      } else if ch == BLANK || ch == TAB {
        if tokenStarted {
          tokens := tokens + [current];
          current := [];
          tokenStarted := false;
        }
      } else {
        current := current + [ch];
        tokenStarted := true;
      }
    }
    assert line[..|line|] == line;
    if escaped {
      return Err(TrailingEscape);
    }
    if inQuote {
      return Err(Unterminated(quoteChar));
    }
    if tokenStarted {
      tokens := tokens + [current];
    }
    return Ok(tokens);
  }
}
