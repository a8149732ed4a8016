/** The streaming Markdown renderer of src/ui/streamer.rs.

    Text is a sequence of Unicode scalar values; `ByteLen` is its UTF-8 length, because the
    renderer's look-ahead is counted in bytes.  `Render` is the renderer one would write over a
    complete text; `MdStreamer` is the incremental one, and `ChunkInvariance` says exactly when
    the two agree. */
module Streamer {

  const RESET := "\U{1B}[0m"
  const CYAN := "\U{1B}[36m"
  const MAGENTA := "\U{1B}[35m"
  const BOLD_ON := "\U{1B}[1m"
  const BOLD_OFF := "\U{1B}[22m"
  const HEADER := "\U{1B}[1;96m"
  const BULLET := "\U{1B}[33m\U{2022} \U{1B}[0m"

  /** Bytes that must be buffered before a token decision is taken. */
  const LOOKAHEAD := 3

  datatype Modes = Modes(
    bold: bool, codeBlock: bool, inlineCode: bool, mathBlock: bool, mathInline: bool, isNewline: bool)

  const INITIAL := Modes(false, false, false, false, false, true)

  function Utf8Len(c: char): nat {
    if c as int < 0x80 then 1 else if c as int < 0x800 then 2 else if c as int < 0x1_0000 then 3 else 4
  }

  function ByteLen(s: string): (n: nat)
    ensures n >= |s|
  {
    if s == "" then 0 else Utf8Len(s[0]) + ByteLen(s[1..])
  }

  predicate Has(s: string, i: nat, c: char) {
    i < |s| && s[i] == c
  }

  /** The tokens the renderer knows, in the order in which it tries them. */
  datatype Token =
    | Fence | MathBlock | MathInlineDelimiter | Bold
    | Header3 | Header2 | Header1 | Bullet | InlineCode | Dollar
    | NoToken

  function Recognise(isNewline: bool, buf: string): Token {
    if Has(buf, 0, '`') && Has(buf, 1, '`') && Has(buf, 2, '`') then Fence
    else if Has(buf, 0, '$') && Has(buf, 1, '$') then MathBlock
    else if Has(buf, 0, '\\') && (Has(buf, 1, '[') || Has(buf, 1, ']')) then MathBlock
    else if Has(buf, 0, '\\') && (Has(buf, 1, '(') || Has(buf, 1, ')')) then MathInlineDelimiter
    else if Has(buf, 0, '*') && Has(buf, 1, '*') then Bold
    else if isNewline && Has(buf, 0, '#') && Has(buf, 1, '#') && Has(buf, 2, '#') && Has(buf, 3, ' ') then Header3
    else if isNewline && Has(buf, 0, '#') && Has(buf, 1, '#') && Has(buf, 2, ' ') then Header2
    else if isNewline && Has(buf, 0, '#') && Has(buf, 1, ' ') then Header1
    else if isNewline && (Has(buf, 0, '-') || Has(buf, 0, '*')) && Has(buf, 1, ' ') then Bullet
    else if Has(buf, 0, '`') then InlineCode
    else if Has(buf, 0, '$') then Dollar
    else NoToken
  }

  function Width(t: Token): nat {
    match t
    case Header3 => 4
    case Fence | Header2 => 3
    case MathBlock | MathInlineDelimiter | Bold | Header1 | Bullet => 2
    case InlineCode | Dollar => 1
    case NoToken => 0
  }

  function TokenModes(m: Modes, t: Token): Modes {
    match t
    case Fence => m.(codeBlock := !m.codeBlock, isNewline := false)
    case MathBlock => m.(mathBlock := !m.mathBlock, isNewline := false)
    case MathInlineDelimiter | Dollar => m.(mathInline := !m.mathInline, isNewline := false)
    case Bold => m.(bold := !m.bold, isNewline := false)
    case InlineCode => m.(inlineCode := !m.inlineCode, isNewline := false)
    case Header3 | Header2 | Header1 | Bullet => m.(isNewline := false)
    case NoToken => m
  }

  /** One decision of the renderer, with the modes it was taken in. */
  datatype Event = TokenAt(modes: Modes, token: Token) | CharAt(modes: Modes, c: char)

  /** The text a decision emits; a newline restores the block-level styles after a reset. */
  function EventText(e: Event): string {
    match e
    case TokenAt(m, Fence) => if m.codeBlock then RESET else CYAN
    case TokenAt(m, MathBlock) => if m.mathBlock then RESET else MAGENTA
    case TokenAt(m, MathInlineDelimiter) => if m.mathInline then RESET else MAGENTA
    case TokenAt(m, Dollar) => if m.mathInline then RESET else MAGENTA
    case TokenAt(m, Bold) => if m.bold then BOLD_OFF else BOLD_ON
    case TokenAt(m, InlineCode) => if m.inlineCode then RESET else CYAN
    case TokenAt(_, Header3) => HEADER + "### "
    case TokenAt(_, Header2) => HEADER + "## "
    case TokenAt(_, Header1) => HEADER + "# "
    case TokenAt(_, Bullet) => BULLET
    case TokenAt(_, NoToken) => ""
    case CharAt(m, c) =>
      if c == '\n' then
        RESET + (if m.codeBlock then CYAN else "") + (if m.mathBlock then MAGENTA else "")
        + (if m.bold then BOLD_ON else "") + [c]
      else
        [c]
  }

  function Text(events: seq<Event>): string {
    if events == [] then "" else EventText(events[0]) + Text(events[1..])
  }

  /** One decision: a token if there is one, or else a single character. */
  function Taken(m: Modes, buf: string): nat {
    var t := Recognise(m.isNewline, buf);
    if t == NoToken then 1 else Width(t)
  }

  function After(m: Modes, buf: string): Modes
    requires buf != ""
  {
    var t := Recognise(m.isNewline, buf);
    if t == NoToken then m.(isNewline := buf[0] == '\n') else TokenModes(m, t)
  }

  function Decision(m: Modes, buf: string): Event
    requires buf != ""
  {
    var t := Recognise(m.isNewline, buf);
    if t == NoToken then CharAt(m, buf[0]) else TokenAt(m, t)
  }

  /** A decision takes at least one character and never more than there are, no character of it
      except possibly the last is a newline, and the line-start flag remembers that last one. */
  lemma DecisionShape(m: Modes, buf: string)
    requires buf != ""
    ensures 1 <= Taken(m, buf) <= |buf|
    ensures forall j :: 0 <= j < Taken(m, buf) - 1 ==> buf[j] != '\n'
    ensures After(m, buf).isNewline <==> buf[Taken(m, buf) - 1] == '\n'
  {
  }

  /** The reference lexer: the decisions for a complete text. */
  function Lex(m: Modes, text: string): seq<Event>
    decreases |text|
  {
    if text == "" then [] else
    DecisionShape(m, text);
    [Decision(m, text)] + Lex(After(m, text), text[Taken(m, text)..])
  }

  /** The reference renderer: what a complete text should look like. */
  function WholeText(text: string): string {
    Text(Lex(INITIAL, text)) + RESET
  }

  /** One pass over the buffer that stops while fewer than LOOKAHEAD bytes are left. */
  datatype Drained = Drained(events: seq<Event>, modes: Modes, rest: string)

  function Drain(m: Modes, buf: string): Drained
    decreases |buf|
  {
    if ByteLen(buf) < LOOKAHEAD then Drained([], m, buf) else
    DecisionShape(m, buf);
    var d := Drain(After(m, buf), buf[Taken(m, buf)..]);
    d.(events := [Decision(m, buf)] + d.events)
  }

  function Concat(pieces: seq<string>): string {
    if pieces == [] then "" else pieces[0] + Concat(pieces[1..])
  }

  /** The decisions of the incremental renderer on the remaining pieces. */
  function Stream(m: Modes, buf: string, pieces: seq<string>): seq<Event>
    decreases |pieces|
  {
    if pieces == [] then
      Lex(m, buf)
    else
      var d := Drain(m, buf + pieces[0]);
      d.events + Stream(d.modes, d.rest, pieces[1..])
  }

  // ---- The guard: a chunk boundary inside a level-three header ------------------------------

  predicate IsHashes(s: string) {
    |s| == 3 && s[0] == '#' && s[1] == '#' && s[2] == '#'
  }

  /** Position `p` of `a` begins a line. */
  predicate AtLineStart(atLineStart: bool, a: string, p: nat)
    requires p <= |a|
  {
    if p == 0 then atLineStart else a[p - 1] == '\n'
  }

  /** `s` ends with a `###` that stands at the start of a line. */
  predicate EndsWithLineHashes(atLineStart: bool, s: string) {
    |s| >= 3 && IsHashes(s[|s| - 3..]) && AtLineStart(atLineStart, s, |s| - 3)
  }

  predicate StartsWithSpace(s: string) {
    Has(s, 0, ' ')
  }

  /** Boundary `i` of the pieces separates a line-initial `###` from the space after it. */
  predicate SplitsHeaderAt(atLineStart: bool, buf: string, pieces: seq<string>, i: nat)
    requires i <= |pieces|
  {
    EndsWithLineHashes(atLineStart, buf + Concat(pieces[..i])) && StartsWithSpace(Concat(pieces[i..]))
  }

  ghost predicate SplitsHeader(atLineStart: bool, buf: string, pieces: seq<string>) {
    exists i: nat | 1 <= i <= |pieces| :: SplitsHeaderAt(atLineStart, buf, pieces, i)
  }

  // ---- Proof ----------------------------------------------------------------------------------

  lemma {:induction false} ByteLenSuffix(s: string, k: nat)
    requires k <= |s|
    ensures ByteLen(s[k..]) <= ByteLen(s)
  {
    if k > 0 {
      ByteLenSuffix(s[1..], k - 1);
      assert s[1..][k - 1..] == s[k..];
    }
  }

  lemma {:induction false} ByteLenAppend(a: string, b: string)
    ensures ByteLen(a + b) == ByteLen(a) + ByteLen(b)
  {
    if a == "" {
      assert a + b == b;
    } else {
      ByteLenAppend(a[1..], b);
      assert (a + b)[1..] == a[1..] + b;
    }
  }

  /** Three buffered bytes decide every token, except at a line-initial `###` cut before a space. */
  lemma TokenDecided(isNewline: bool, p: string, q: string)
    requires ByteLen(p) >= LOOKAHEAD
    requires !(isNewline && IsHashes(p) && StartsWithSpace(q))
    ensures p != "" && Recognise(isNewline, p + q) == Recognise(isNewline, p)
  {
    if |p| < 3 {
      ShortButLong(p);
    }
    assert forall i :: 0 <= i < |p| ==> (p + q)[i] == p[i];
    assert |p| == 3 && q != "" ==> (p + q)[3] == q[0];
  }

  lemma ShortButLong(p: string)
    requires ByteLen(p) >= LOOKAHEAD > |p|
    ensures p != "" && (Utf8Len(p[0]) > 1 || (|p| == 2 && Utf8Len(p[1]) > 1))
  {
    if |p| == 1 {
      assert p[1..] == "";
    } else {
      assert |p| == 2;
      assert ByteLen(p[1..]) == Utf8Len(p[1]) + ByteLen(p[1..][1..]);
      assert p[1..][1..] == "";
    }
  }

  /** What a pass leaves behind: a suffix shorter than LOOKAHEAD bytes, with the line-start flag
      of its first character. */
  lemma {:induction false} DrainLeaves(m: Modes, a: string)
    ensures var d := Drain(m, a);
            |d.rest| <= |a| && d.rest == a[|a| - |d.rest|..] && ByteLen(d.rest) < LOOKAHEAD
            && (d.modes.isNewline <==> AtLineStart(m.isNewline, a, |a| - |d.rest|))
    decreases |a|
  {
    hide Recognise, TokenModes, Width, Taken, After, Decision;
    if ByteLen(a) < LOOKAHEAD {
      assert a[0..] == a;
    } else {
      DecisionShape(m, a);
      var k := Taken(m, a);
      DrainLeaves(After(m, a), a[k..]);
      var rest := Drain(m, a).rest;
      assert a[k..][|a| - k - |rest|..] == a[|a| - |rest|..];
    }
  }

  /** A pass never goes beyond a line start that has fewer than LOOKAHEAD bytes after it. */
  lemma {:induction false} DrainStops(m: Modes, a: string, p: nat)
    requires p <= |a| && AtLineStart(m.isNewline, a, p) && ByteLen(a[p..]) < LOOKAHEAD
    ensures |a| - |Drain(m, a).rest| <= p
    decreases |a|
  {
    hide Recognise, TokenModes, Width, Taken, After, Decision;
    if ByteLen(a) >= LOOKAHEAD {
      DecisionShape(m, a);
      var k := Taken(m, a);
      assert p != 0 by { assert a[0..] == a; }
      assert p >= k;
      assert a[k..][p - k..] == a[p..];
      DrainStops(After(m, a), a[k..], p - k);
    }
  }

  /** With three bytes buffered the first move is that of the whole text, and it leaves a trailing
      line-initial `###` alone. */
  lemma MoveDecided(m: Modes, a: string, b: string)
    requires ByteLen(a) >= LOOKAHEAD && !(m.isNewline && IsHashes(a) && StartsWithSpace(b))
    ensures a != "" && Taken(m, a) <= |a|
    ensures Decision(m, a + b) == Decision(m, a) && Taken(m, a + b) == Taken(m, a) && After(m, a + b) == After(m, a)
    ensures EndsWithLineHashes(m.isNewline, a) && StartsWithSpace(b)
            <==> EndsWithLineHashes(After(m, a).isNewline, a[Taken(m, a)..]) && StartsWithSpace(b)
  {
    hide ByteLen;
    TokenDecided(m.isNewline, a, b);
    assert (a + b)[0] == a[0];
    DecisionShape(m, a);
    if StartsWithSpace(b) {
      HashesSurviveMove(m, a);
    }
  }

  /** A buffer that is just `###` ends with it. */
  lemma JustHashes(atLineStart: bool, a: string)
    requires IsHashes(a)
    ensures EndsWithLineHashes(atLineStart, a) <==> atLineStart
  {
    assert a[0..] == a;
  }

  /** Draining a prefix and lexing the rest is lexing the whole, unless the cut falls inside a
      level-three header. */
  lemma {:induction false} DrainThenLex(m: Modes, a: string, b: string)
    requires !(EndsWithLineHashes(m.isNewline, a) && StartsWithSpace(b))
    ensures Lex(m, a + b) == Drain(m, a).events + Lex(Drain(m, a).modes, Drain(m, a).rest + b)
    decreases |a|
  {
    hide Recognise, TokenModes, Width, EndsWithLineHashes, StartsWithSpace;
    if ByteLen(a) >= LOOKAHEAD {
      if IsHashes(a) {
        JustHashes(m.isNewline, a);
      }
      MoveDecided(m, a, b);
      DecisionShape(m, a);
      var k := Taken(m, a);
      assert (a + b)[k..] == a[k..] + b;
      DrainThenLex(After(m, a), a[k..], b);
    } else {
      assert a + b == Drain(m, a).rest + b;
    }
  }

  /** When the cut does fall inside a header, the decisions part after a common prefix. */
  lemma {:induction false} CutHeader(m: Modes, a: string, b: string)
      returns (common: seq<Event>, m': Modes, tail: seq<Event>)
    requires EndsWithLineHashes(m.isNewline, a) && StartsWithSpace(b)
    ensures Drain(m, a).events == common + [CharAt(m', '#')]
    ensures Lex(m, a + b) == common + [TokenAt(m', Header3)] + tail
    decreases |a|
  {
    hide Recognise, TokenModes, EndsWithLineHashes, StartsWithSpace;
    if m.isNewline && IsHashes(a) {
      HashBytes(a);
      HeaderMissed(m.isNewline, a, b);
      common, m', tail := [], m, Lex(After(m, a + b), (a + b)[4..]);
      assert Drain(m, a).events == [CharAt(m, '#')] + Drain(After(m, a), a[1..]).events;
    } else {
      LineHashesLong(m.isNewline, a);
      MoveDecided(m, a, b);
      DecisionShape(m, a);
      var k := Taken(m, a);
      assert (a + b)[k..] == a[k..] + b;
      common, m', tail := CutHeader(After(m, a), a[k..], b);
      common := [Decision(m, a)] + common;
    }
  }

  lemma LineHashesLong(nl: bool, a: string)
    requires EndsWithLineHashes(nl, a)
    ensures a != "" && ByteLen(a) >= LOOKAHEAD
  {
    assert ByteLen(a) >= |a|;
  }

  lemma HeaderMissed(nl: bool, a: string, b: string)
    requires nl && IsHashes(a) && StartsWithSpace(b)
    ensures Recognise(nl, a) == NoToken && Recognise(nl, a + b) == Header3 && |a + b| >= 4
  {
    assert (a + b)[3] == b[0];
  }

  lemma HashBytes(s: string)
    requires IsHashes(s)
    ensures ByteLen(s) == 3 && ByteLen(s[1..]) == 2
  {
    assert s[1..][1..][1..] == "";
    assert ByteLen(s[1..][1..]) == 1;
    assert ByteLen(s[1..]) == 2;
  }

  /** A trailing line-initial `###` is not touched by an earlier move. */
  lemma HashesSurviveMove(m: Modes, a: string)
    requires a != "" && !(m.isNewline && IsHashes(a))
    ensures Taken(m, a) <= |a|
    ensures EndsWithLineHashes(m.isNewline, a) <==> EndsWithLineHashes(After(m, a).isNewline, a[Taken(m, a)..])
  {
    hide Recognise, TokenModes, Width, Taken, After;
    DecisionShape(m, a);
    var k := Taken(m, a);
    var rest := a[k..];
    assert |a| == 3 ==> a[0..] == a;
    if |a| > 3 && a[|a| - 4] == '\n' {
      assert k <= |a| - 3;
      assert rest[|rest| - 3..] == a[|a| - 3..];
    }
    if |rest| >= 3 {
      assert rest[|rest| - 3..] == a[|a| - 3..];
    }
  }

  lemma {:induction false} ConcatSplit(pieces: seq<string>, i: nat)
    requires i <= |pieces|
    ensures Concat(pieces) == Concat(pieces[..i]) + Concat(pieces[i..])
  {
    if i > 0 {
      ConcatSplit(pieces[1..], i - 1);
      assert pieces[..i][1..] == pieces[1..][..i - 1];
      assert pieces[1..][i - 1..] == pieces[i..];
    }
  }

  /** Later boundaries split a header of the whole buffer exactly when they split one of what the
      pass left behind. */
  lemma LaterBoundary(m: Modes, a: string, pieces: seq<string>, i: nat)
    requires 1 <= i <= |pieces|
    requires !(EndsWithLineHashes(m.isNewline, a) && StartsWithSpace(Concat(pieces)))
    ensures var d := Drain(m, a);
            SplitsHeaderAt(m.isNewline, a, pieces, i) <==> SplitsHeaderAt(d.modes.isNewline, d.rest, pieces, i)
  {
    hide Drain;
    var d := Drain(m, a);
    DrainLeaves(m, a);
    var x := Concat(pieces[..i]);
    ConcatSplit(pieces, i);
    if x == "" {
      assert a + x == a && d.rest + x == d.rest && Concat(pieces) == Concat(pieces[i..]);
    } else {
      SuffixHashes(m, a, x);
    }
  }

  /** Appending text to the buffer or to what a pass left of it exposes the same trailing `###`. */
  lemma SuffixHashes(m: Modes, a: string, x: string)
    requires x != ""
    ensures var d := Drain(m, a);
            EndsWithLineHashes(m.isNewline, a + x) <==> EndsWithLineHashes(d.modes.isNewline, d.rest + x)
  {
    hide Drain, ByteLen;
    var d := Drain(m, a);
    DrainLeaves(m, a);
    var n, whole, rest := |a| - |d.rest|, a + x, d.rest + x;
    assert whole[n..] == rest;
    var p := |whole| - 3;
    if EndsWithLineHashes(m.isNewline, whole) && p <= |a| {
      assert whole[p..] == a[p..] + x;
      ByteLenAppend(a[p..], x);
      HashBytes(whole[p..]);
      DrainStops(m, a, p);
    }
    if n <= p {
      assert whole[p..] == rest[p - n..];
    }
  }

  lemma {:induction false} TextAppend(a: seq<Event>, b: seq<Event>)
    ensures Text(a + b) == Text(a) + Text(b)
  {
    hide EventText;
    if a == [] {
      assert a + b == b;
    } else {
      assert (a + b)[0] == a[0] && (a + b)[1..] == a[1..] + b;
      TextAppend(a[1..], b);
    }
  }

  /** Decisions that part into a plain `#` and a header are visibly different on the terminal. */
  lemma HeaderVisible(common: seq<Event>, m: Modes, left: seq<Event>, right: seq<Event>)
    ensures Text(common + [CharAt(m, '#')] + left) + RESET != Text(common + [TokenAt(m, Header3)] + right) + RESET
  {
    var l, r := [CharAt(m, '#')] + left, [TokenAt(m, Header3)] + right;
    assert common + [CharAt(m, '#')] + left == common + l && common + [TokenAt(m, Header3)] + right == common + r;
    TextAppend(common, l);
    TextAppend(common, r);
    assert Text(l) == EventText(l[0]) + Text(l[1..]) && Text(r) == EventText(r[0]) + Text(r[1..]);
    assert (Text(common) + Text(l) + RESET)[|Text(common)|] == '#';
    assert (Text(common) + Text(r) + RESET)[|Text(common)|] == '\U{1B}';
  }

  lemma {:induction false} StreamDecided(m: Modes, buf: string, pieces: seq<string>)
    ensures !SplitsHeader(m.isNewline, buf, pieces) ==> Stream(m, buf, pieces) == Lex(m, buf + Concat(pieces))
    ensures SplitsHeader(m.isNewline, buf, pieces) ==>
              exists common, m', left, right ::
                Stream(m, buf, pieces) == common + [CharAt(m', '#')] + left
                && Lex(m, buf + Concat(pieces)) == common + [TokenAt(m', Header3)] + right
    decreases |pieces|
  {
    hide Drain, Lex, SplitsHeader, EndsWithLineHashes, StartsWithSpace;
    if pieces == [] {
      assert buf + Concat(pieces) == buf;
      NoPieces(m.isNewline, buf);
    } else {
      var a, rest := buf + pieces[0], pieces[1..];
      var b := Concat(rest);
      var d := Drain(m, a);
      assert buf + Concat(pieces) == a + b;
      if EndsWithLineHashes(m.isNewline, a) && StartsWithSpace(b) {
        FirstBoundary(m.isNewline, buf, pieces);
        var common, m', tail := CutHeader(m, a, b);
        assert Stream(m, buf, pieces) == common + [CharAt(m', '#')] + Stream(d.modes, d.rest, rest);
      } else {
        DrainThenLex(m, a, b);
        StreamDecided(d.modes, d.rest, rest);
        LaterBoundaries(m, buf, pieces);
        if SplitsHeader(m.isNewline, buf, pieces) {
          var common, m', left, right :|
            Stream(d.modes, d.rest, rest) == common + [CharAt(m', '#')] + left
            && Lex(d.modes, d.rest + Concat(rest)) == common + [TokenAt(m', Header3)] + right;
          assert Stream(m, buf, pieces) == (d.events + common) + [CharAt(m', '#')] + left;
          assert Lex(m, buf + Concat(pieces)) == (d.events + common) + [TokenAt(m', Header3)] + right;
        }
      }
    }
  }

  lemma NoPieces(nl: bool, buf: string)
    ensures !SplitsHeader(nl, buf, [])
  {
  }

  lemma FirstBoundary(nl: bool, buf: string, pieces: seq<string>)
    requires pieces != []
    requires EndsWithLineHashes(nl, buf + pieces[0]) && StartsWithSpace(Concat(pieces[1..]))
    ensures SplitsHeader(nl, buf, pieces)
  {
    assert pieces[..1] == [pieces[0]] && Concat(pieces[..1]) == pieces[0] + Concat([]) == pieces[0];
    assert SplitsHeaderAt(nl, buf, pieces, 1);
  }

  /** Boundary `i` of the remaining pieces is boundary `i + 1` of all of them. */
  lemma NextBoundary(nl: bool, buf: string, pieces: seq<string>, i: nat)
    requires pieces != [] && i < |pieces|
    ensures SplitsHeaderAt(nl, buf, pieces, i + 1) <==> SplitsHeaderAt(nl, buf + pieces[0], pieces[1..], i)
  {
    hide EndsWithLineHashes, StartsWithSpace;
    var rest := pieces[1..];
    assert pieces[..i + 1][0] == pieces[0] && pieces[..i + 1][1..] == rest[..i];
    assert pieces[i + 1..] == rest[i..];
    assert buf + (pieces[0] + Concat(rest[..i])) == (buf + pieces[0]) + Concat(rest[..i]);
  }

  lemma LaterBoundaries(m: Modes, buf: string, pieces: seq<string>)
    requires pieces != []
    requires !(EndsWithLineHashes(m.isNewline, buf + pieces[0]) && StartsWithSpace(Concat(pieces[1..])))
    ensures var d := Drain(m, buf + pieces[0]);
            SplitsHeader(m.isNewline, buf, pieces) <==> SplitsHeader(d.modes.isNewline, d.rest, pieces[1..])
  {
    hide Drain, EndsWithLineHashes, StartsWithSpace, SplitsHeader, SplitsHeaderAt;
    var a, rest := buf + pieces[0], pieces[1..];
    var d := Drain(m, a);
    forall i: nat | 1 <= i <= |rest|
      ensures SplitsHeaderAt(m.isNewline, buf, pieces, i + 1)
              <==> SplitsHeaderAt(d.modes.isNewline, d.rest, rest, i)
    {
      LaterBoundary(m, a, rest, i);
      NextBoundary(m.isNewline, buf, pieces, i);
    }
    NotFirstBoundary(m.isNewline, buf, pieces);
    SplitsShift(m.isNewline, buf, pieces, d.modes.isNewline, d.rest);
  }

  lemma NotFirstBoundary(nl: bool, buf: string, pieces: seq<string>)
    requires pieces != []
    requires !(EndsWithLineHashes(nl, buf + pieces[0]) && StartsWithSpace(Concat(pieces[1..])))
    ensures !SplitsHeaderAt(nl, buf, pieces, 1)
  {
    hide EndsWithLineHashes, StartsWithSpace;
    assert pieces[..1] == [pieces[0]] && Concat(pieces[..1]) == pieces[0] + Concat([]) == pieces[0];
  }

  lemma SplitsShift(nl: bool, buf: string, pieces: seq<string>, nl': bool, buf': string)
    requires pieces != []
    requires !SplitsHeaderAt(nl, buf, pieces, 1)
    requires forall i: nat | 1 <= i <= |pieces| - 1 ::
               SplitsHeaderAt(nl, buf, pieces, i + 1) <==> SplitsHeaderAt(nl', buf', pieces[1..], i)
    ensures SplitsHeader(nl, buf, pieces) <==> SplitsHeader(nl', buf', pieces[1..])
  {
    if SplitsHeader(nl, buf, pieces) {
      var i: nat :| 1 <= i <= |pieces| && SplitsHeaderAt(nl, buf, pieces, i);
      assert i - 1 >= 1 && SplitsHeaderAt(nl, buf, pieces, (i - 1) + 1);
      assert SplitsHeaderAt(nl', buf', pieces[1..], i - 1);
    }
    if SplitsHeader(nl', buf', pieces[1..]) {
      var i: nat :| 1 <= i <= |pieces| - 1 && SplitsHeaderAt(nl', buf', pieces[1..], i);
      assert SplitsHeaderAt(nl, buf, pieces, i + 1);
    }
  }

  /** Feeding pieces renders as the whole text does, if and only if no piece boundary separates a
      line-initial `###` from the space that makes it a header. */
  lemma ChunkInvariance(pieces: seq<string>)
    ensures Text(Stream(INITIAL, "", pieces)) + RESET == WholeText(Concat(pieces))
            <==> !SplitsHeader(true, "", pieces)
  {
    StreamDecided(INITIAL, "", pieces);
    assert "" + Concat(pieces) == Concat(pieces);
    if SplitsHeader(true, "", pieces) {
      var common, m', left, right :|
        Stream(INITIAL, "", pieces) == common + [CharAt(m', '#')] + left
        && Lex(INITIAL, "" + Concat(pieces)) == common + [TokenAt(m', Header3)] + right;
      HeaderVisible(common, m', left, right);
    }
  }

  /** A text fed in one piece is always rendered as the reference renderer does. */
  lemma SinglePiece(text: string)
    ensures Text(Stream(INITIAL, "", [text])) + RESET == WholeText(text)
  {
    var pieces := [text];
    assert pieces[1..] == [] && pieces[..1] == pieces;
    assert Concat(pieces) == text + Concat([]) == text;
    assert !SplitsHeader(true, "", pieces) by {
      forall i: nat | 1 <= i <= |pieces|
        ensures !SplitsHeaderAt(true, "", pieces, i)
      {
        assert pieces[i..] == [];
      }
    }
    ChunkInvariance(pieces);
  }

  /** The look-ahead is one byte too short for `### `: cut after the hashes, it is no header. */
  lemma LookaheadTooShort(text: string)
    ensures Text(Stream(INITIAL, "", ["###", " " + text])) + RESET != WholeText("### " + text)
  {
    var pieces := ["###", " " + text];
    assert pieces[..1] == ["###"] && pieces[1..] == [" " + text];
    assert Concat(pieces[..1]) == "###" + Concat([]) == "###";
    assert Concat(pieces[1..]) == " " + text + Concat([]) == " " + text;
    assert "" + Concat(pieces[..1]) == "###";
    assert SplitsHeaderAt(true, "", pieces, 1) by { assert "###"[0..] == "###"; }
    assert Concat(pieces) == "###" + (" " + text) == "### " + text;
    ChunkInvariance(pieces);
  }

  // ---- The incremental renderer ------------------------------------------------------------------

  class MdStreamer {
    var buffer: string
    var pos: nat
    var bold: bool
    var codeBlock: bool
    var inlineCode: bool
    var mathBlock: bool
    var mathInline: bool
    var isNewline: bool

    function Current(): Modes
      reads this
    {
      Modes(bold, codeBlock, inlineCode, mathBlock, mathInline, isNewline)
    }

    constructor ()
      ensures Current() == INITIAL && buffer == "" && pos == 0
    {
      buffer, pos := "", 0;
      bold, codeBlock, inlineCode, mathBlock, mathInline, isNewline := false, false, false, false, false, true;
    }

    /** Matches and applies a token at `pos`; the characters it spans, 0 when there is none. */
    method ProcessToken() returns (consumed: nat, out: string)
      requires pos <= |buffer|
      modifies this
      ensures buffer == old(buffer) && pos == old(pos)
      ensures var t := Recognise(old(isNewline), buffer[pos..]);
              consumed == Width(t) && out == EventText(TokenAt(old(Current()), t))
              && Current() == TokenModes(old(Current()), t)
    {
      hide Recognise, EventText, Width;
      var token := Recognise(isNewline, buffer[pos..]);
      out := EventText(TokenAt(Current(), token));
      match token {
        case Fence => codeBlock := !codeBlock;
        case MathBlock => mathBlock := !mathBlock;
        case MathInlineDelimiter | Dollar => mathInline := !mathInline;
        case Bold => bold := !bold;
        case InlineCode => inlineCode := !inlineCode;
        case _ =>
      }
      consumed := Width(token);
      if token != NoToken {
        isNewline := false;
      }
    }

    /** One turn of either rendering loop: a token, or else a single character. */
    method Advance() returns (out: string)
      requires pos < |buffer|
      modifies this
      ensures buffer == old(buffer)
      ensures var m, buf := old(Current()), old(buffer[pos..]);
              out == EventText(Decision(m, buf)) && Current() == After(m, buf)
              && pos == old(pos) + Taken(m, buf) <= |buffer|
    {
      hide Recognise;
      DecisionShape(Current(), buffer[pos..]);
      var consumed;
      consumed, out := ProcessToken();
      if consumed > 0 {
        pos := pos + consumed;
      } else {
        var c := buffer[pos];
        pos := pos + 1;
        if c == '\n' {
          isNewline := true;
          out := RESET + (if codeBlock then CYAN else "") + (if mathBlock then MAGENTA else "")
                 + (if bold then BOLD_ON else "") + [c];
        } else {
          isNewline := false;
          out := [c];
        }
      }
    }

    method RenderChunk(text: string) returns (out: string)
      requires pos == 0
      modifies this
      ensures pos == 0
      ensures var d := Drain(old(Current()), old(buffer) + text);
              out == Text(d.events) && Current() == d.modes && buffer == d.rest
    {
      hide Recognise, EventText, Taken, After, Decision, Width, TokenModes, Drain, ByteLen;
      buffer := buffer + text;
      out := "";
      ghost var goal, done := Drain(Current(), buffer), [];
      assert buffer[0..] == buffer;
      while ByteLen(buffer[pos..]) >= LOOKAHEAD
        invariant pos <= |buffer| && buffer == old(buffer) + text
        invariant out == Text(done)
        invariant var d := Drain(Current(), buffer[pos..]);
                  goal == Drained(done + d.events, d.modes, d.rest)
        decreases |buffer| - pos
      {
        UnrollDrain(Current(), buffer[pos..]);
        ghost var here, e := pos, Decision(Current(), buffer[pos..]);
        var piece := Advance();
        assert buffer[here..][pos - here..] == buffer[pos..];
        AppendEvent(done, e);
        done, out := done + [e], out + piece;
      }
      UnrollDrain(Current(), buffer[pos..]);
      assert goal.events == done;
      buffer := buffer[pos..];
      pos := 0;
    }

    method Finish() returns (out: string)
      requires pos == 0
      modifies this
      ensures pos == 0 && buffer == ""
      ensures out == Text(Lex(old(Current()), old(buffer))) + RESET
    {
      hide Recognise, EventText, Taken, After, Decision, Width, TokenModes;
      out := "";
      ghost var goal, done := Lex(Current(), buffer), [];
      assert buffer[0..] == buffer && [] + goal == goal;
      while pos < |buffer|
        invariant pos <= |buffer| && buffer == old(buffer)
        invariant out == Text(done) && goal == done + Lex(Current(), buffer[pos..])
        decreases |buffer| - pos
      {
        ghost var here, e := pos, Decision(Current(), buffer[pos..]);
        DecisionShape(Current(), buffer[here..]);
        var piece := Advance();
        assert buffer[here..][pos - here..] == buffer[pos..];
        AppendEvent(done, e);
        done, out := done + [e], out + piece;
      }
      assert Lex(Current(), buffer[pos..]) == [] && goal == done;
      out := out + RESET;
      buffer, pos := "", 0;
    }
  }

  lemma UnrollDrain(m: Modes, buf: string)
    ensures ByteLen(buf) < LOOKAHEAD ==> Drain(m, buf) == Drained([], m, buf)
    ensures ByteLen(buf) >= LOOKAHEAD ==>
              buf != "" && 1 <= Taken(m, buf) <= |buf|
              && var d := Drain(After(m, buf), buf[Taken(m, buf)..]);
                 Drain(m, buf) == Drained([Decision(m, buf)] + d.events, d.modes, d.rest)
  {
    hide Recognise, Width, TokenModes;
    if buf != "" {
      DecisionShape(m, buf);
    }
  }

  lemma AppendEvent(done: seq<Event>, e: Event)
    ensures Text(done + [e]) == Text(done) + EventText(e)
  {
    TextAppend(done, [e]);
    assert [e][1..] == [] && Text([e]) == EventText(e) + Text([]);
  }

  method RenderChunks(inputs: seq<string>) returns (output: string)
    ensures output == Text(Stream(INITIAL, "", inputs)) + RESET
    ensures output == WholeText(Concat(inputs)) <==> !SplitsHeader(true, "", inputs)
  {
    hide Drain, Lex, EventText, SplitsHeader, WholeText;
    var streamer := new MdStreamer();
    output := "";
    ghost var goal, done := Stream(INITIAL, "", inputs), [];
    assert inputs[0..] == inputs;
    for i := 0 to |inputs|
      invariant streamer.pos == 0 && fresh(streamer)
      invariant output == Text(done)
      invariant goal == done + Stream(streamer.Current(), streamer.buffer, inputs[i..])
    {
      assert inputs[i..][1..] == inputs[i + 1..];
      ghost var d := Drain(streamer.Current(), streamer.buffer + inputs[i]);
      var piece := streamer.RenderChunk(inputs[i]);
      TextAppend(done, d.events);
      done, output := done + d.events, output + piece;
    }
    ghost var last := Lex(streamer.Current(), streamer.buffer);
    var final := streamer.Finish();
    TextAppend(done, last);
    output := output + final;
    ChunkInvariance(inputs);
  }
}
