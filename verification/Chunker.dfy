/** Splitting a source file into chunks of lines (src/codebase.rs).

    A syntactic strategy starts a new piece at every definition, and `post_process` merges short
    pieces; files without a strategy are covered by overlapping windows. */
module Chunker {
  import opened Prelude

  datatype RawChunk = RawChunk(content: string, startLine: nat, endLine: nat)

  datatype Language = Braces | Python | Markdown

  const MIN_LINES := 8

  const WINDOW := 40

  const OVERLAP := 10

  const MAX_FILE_SIZE := 1024 * 1024

  // ---- Lines ------------------------------------------------------------------------------------------------

  function StripReturn(line: string): string {
    if line != [] && line[|line| - 1] == '\r' then line[..|line| - 1] else line
  }

  function FirstNewline(s: string): (i: nat)
    ensures i <= |s| && (i < |s| ==> s[i] == '\n')
    ensures '\n' !in s[..i]
  {
    if s == [] || s[0] == '\n' then 0 else
    var i := 1 + FirstNewline(s[1..]);
    assert s[..i] == [s[0]] + s[1..][..i - 1];
    i
  }

  /** `str::lines`: a final newline ends the last line and starts none. */
  function Lines(s: string): seq<string> {
    if s == [] then [] else
    var i := FirstNewline(s);
    if i == |s| then [s] else [StripReturn(s[..i])] + Lines(s[i + 1..])
  }

  function Join(lines: seq<string>): string {
    if lines == [] then [] else
    if |lines| == 1 then lines[0] else lines[0] + ['\n'] + Join(lines[1..])
  }

  lemma {:induction false} JoinConcat(a: seq<string>, b: seq<string>)
    requires a != [] && b != []
    ensures Join(a + b) == Join(a) + ['\n'] + Join(b)
  {
    assert (a + b)[1..] == a[1..] + b;
    if |a| > 1 {
      JoinConcat(a[1..], b);
    } else {
      assert a[1..] + b == b;
    }
  }

  /** Text without carriage returns is its lines joined, apart from a final newline. */
  lemma {:induction false} LinesJoin(s: string)
    requires '\r' !in s && s != []
    ensures Lines(s) != []
    ensures Join(Lines(s)) == if s[|s| - 1] == '\n' then s[..|s| - 1] else s
    decreases |s|
  {
    hide Join;
    var i := FirstNewline(s);
    if i < |s| {
      var rest := s[i + 1..];
      assert StripReturn(s[..i]) == s[..i];
      assert s == s[..i] + ['\n'] + rest;
      if rest == [] {
        JoinOne(s[..i]);
        assert Lines(s) == [s[..i]];
      } else {
        LinesJoin(rest);
        JoinOne(s[..i]);
        JoinConcat([s[..i]], Lines(rest));
      }
    } else {
      JoinOne(s);
      assert s[..i] == s;
    }
  }

  // ---- Where pieces start -----------------------------------------------------------------------------------

  function Trim(s: string): string {
    if s != [] && IsWhitespace(s[0]) then Trim(s[1..])
    else if s != [] && IsWhitespace(s[|s| - 1]) then Trim(s[..|s| - 1])
    else s
  }

  function Count(s: string, c: char): nat {
    if s == [] then 0 else (if s[0] == c then 1 else 0) + Count(s[1..], c)
  }

  const DEFINITIONS: seq<string> := [
    "fn ", "pub fn ", "struct ", "pub struct ", "enum ", "pub enum ", "impl ", "class ", "function ",
    "async function "
  ]

  predicate StartsDefinition(s: string) {
    exists d | d in DEFINITIONS :: d <= s
  }

  /** The brace depth after a line, never negative. */
  function DepthAfter(depth: nat, line: string): nat {
    var tr := Trim(line);
    var d := depth + Count(tr, '{') - Count(tr, '}');
    if d < 0 then 0 else d
  }

  /** The brace depth before line `i`. */
  function Depth(lines: seq<string>, i: nat): nat
    requires i <= |lines|
  {
    if i == 0 then 0 else DepthAfter(Depth(lines, i - 1), lines[i - 1])
  }

  /** Line `i` (from 0) opens a definition, a root-level definition or a heading. */
  predicate Opens(language: Language, line: string, depth: nat) {
    match language
    case Braces => depth <= 1 && StartsDefinition(Trim(line))
    case Python =>
      && ("def " <= Trim(line) || "class " <= Trim(line))
      && !(" " <= line) && !("\t" <= line)
    case Markdown => "#" <= line
  }

  ghost function Breaks(language: Language, lines: seq<string>): set<nat> {
    set i: nat | 0 < i < |lines| && Opens(language, lines[i], Depth(lines, i))
  }

  // ---- What a chunking must be ------------------------------------------------------------------------------

  /** The chunk holds exactly the lines it says it holds. */
  predicate Piece(c: RawChunk, lines: seq<string>) {
    && 1 <= c.startLine <= c.endLine <= |lines|
    && c.content == Join(lines[c.startLine - 1..c.endLine])
  }

  function EndOf(cs: seq<RawChunk>): nat {
    if cs == [] then 0 else cs[|cs| - 1].endLine
  }

  /** Pieces of the file, each starting on the line after the one before. */
  ghost predicate Contiguous(cs: seq<RawChunk>, lines: seq<string>) {
    && (forall k :: 0 <= k < |cs| ==> Piece(cs[k], lines))
    && (forall k :: 0 <= k < |cs| ==> cs[k].startLine == EndOf(cs[..k]) + 1)
  }

  ghost predicate Partition(cs: seq<RawChunk>, lines: seq<string>) {
    Contiguous(cs, lines) && EndOf(cs) == |lines|
  }

  function Size(c: RawChunk): int {
    c.endLine - c.startLine + 1
  }

  /** A chunk starts at the top or at a break, and holds no break after its first `room` lines. */
  ghost predicate StartsAtBreak(c: RawChunk, breaks: set<nat>) {
    c.startLine == 1 || c.startLine - 1 in breaks
  }

  ghost predicate NoBreakFrom(c: RawChunk, breaks: set<nat>, room: nat) {
    forall b | b in breaks :: !(c.startLine - 1 + room <= b < c.endLine)
  }

  ghost predicate AllCutAt(cs: seq<RawChunk>, breaks: set<nat>, room: nat) {
    forall c | c in cs :: StartsAtBreak(c, breaks) && NoBreakFrom(c, breaks, room)
  }

  /** One piece for every break. */
  ghost predicate SplitAt(cs: seq<RawChunk>, lines: seq<string>, breaks: set<nat>) {
    Partition(cs, lines) && AllCutAt(cs, breaks, 1)
  }

  /** Greedy merging: every chunk ends at the first break after eight lines, the last one at the end. */
  ghost predicate Greedy(cs: seq<RawChunk>, breaks: set<nat>) {
    && AllCutAt(cs, breaks, MIN_LINES)
    && (forall k :: 0 <= k < |cs| - 1 ==> Size(cs[k]) >= MIN_LINES)
  }

  ghost predicate Chunked(cs: seq<RawChunk>, lines: seq<string>, breaks: set<nat>) {
    Partition(cs, lines) && Greedy(cs, breaks)
  }

  // ---- The loops --------------------------------------------------------------------------------------------

  lemma ContiguousAppend(cs: seq<RawChunk>, c: RawChunk, lines: seq<string>)
    requires Contiguous(cs, lines) && Piece(c, lines) && c.startLine == EndOf(cs) + 1
    ensures Contiguous(cs + [c], lines) && EndOf(cs + [c]) == c.endLine
  {
    hide Piece;
    var t := cs + [c];
    assert t[..|cs|] == cs;
    forall k | 0 <= k < |t|
      ensures Piece(t[k], lines) && t[k].startLine == EndOf(t[..k]) + 1
    {
      if k < |cs| {
        assert t[..k] == cs[..k];
      }
    }
  }

  lemma CutAppend(cs: seq<RawChunk>, c: RawChunk, breaks: set<nat>, room: nat)
    requires AllCutAt(cs, breaks, room) && StartsAtBreak(c, breaks) && NoBreakFrom(c, breaks, room)
    ensures AllCutAt(cs + [c], breaks, room)
  {
    hide StartsAtBreak, NoBreakFrom;
  }

  /** One new piece at every break. */
  method Split(language: Language, lines: seq<string>) returns (raw: seq<RawChunk>)
    ensures SplitAt(raw, lines, Breaks(language, lines))
  {
    hide Opens, DepthAfter, Join, Contiguous, AllCutAt, Breaks;
    ghost var breaks := Breaks(language, lines);
    raw := [];
    var cur, start, depth := [], 1, 0;
    ContiguousNone(lines);
    BreaksInside(language, lines);
    for i := 0 to |lines|
      invariant depth == if language.Braces? then Depth(lines, i) else 0
      invariant Contiguous(raw, lines) && EndOf(raw) == start - 1
      invariant AllCutAt(raw, breaks, 1)
      invariant 1 <= start <= i + 1 && cur == lines[start - 1..i] && (cur == [] <==> i == 0)
      invariant start == 1 || start - 1 in breaks
      invariant forall b | b in breaks :: !(start <= b < i)
    {
      OnlyBracesNest(language, lines[i], depth, Depth(lines, i));
      BreakAt(language, lines, i);
      if Opens(language, lines[i], depth) && cur != [] {
        var c := RawChunk(Join(cur), start, i);
        CutAppend(raw, c, breaks, 1);
        ContiguousAppend(raw, c, lines);
        raw := raw + [c];
        cur, start := [], i + 1;
      }
      cur := cur + [lines[i]];
      if language.Braces? {
        depth := DepthAfter(depth, lines[i]);
      }
    }
    if cur != [] {
      var c := RawChunk(Join(cur), start, |lines|);
      CutAppend(raw, c, breaks, 1);
      ContiguousAppend(raw, c, lines);
      raw := raw + [c];
    }
  }

  lemma ContiguousNone(lines: seq<string>)
    ensures Contiguous([], lines)
    ensures forall breaks, room :: AllCutAt([], breaks, room)
  {
  }

  lemma BreakAt(language: Language, lines: seq<string>, i: nat)
    requires i < |lines|
    ensures i in Breaks(language, lines) <==> 0 < i && Opens(language, lines[i], Depth(lines, i))
  {
    hide Opens, Depth;
  }

  lemma BreaksInside(language: Language, lines: seq<string>)
    ensures forall b | b in Breaks(language, lines) :: 0 < b < |lines|
  {
    hide Opens, Depth;
  }

  lemma OnlyBracesNest(language: Language, line: string, d: nat, e: nat)
    requires language.Braces? ==> d == e
    ensures Opens(language, line, d) == Opens(language, line, e)
  {
  }

  /** Two neighbouring pieces make one. */
  lemma PiecesJoin(a: RawChunk, c: RawChunk, lines: seq<string>)
    requires Piece(a, lines) && Piece(c, lines) && c.startLine == a.endLine + 1
    ensures Piece(RawChunk(a.content + ['\n'] + c.content, a.startLine, c.endLine), lines)
  {
    var x, y := lines[a.startLine - 1..a.endLine], lines[c.startLine - 1..c.endLine];
    assert lines[a.startLine - 1..c.endLine] == x + y;
    JoinConcat(x, y);
  }

  /** Pieces shorter than eight lines are merged with the ones that follow. */
  method PostProcess(raw: seq<RawChunk>, ghost lines: seq<string>, ghost breaks: set<nat>) returns (out: seq<RawChunk>)
    requires SplitAt(raw, lines, breaks)
    ensures Chunked(out, lines, breaks)
  {
    hide Piece, Contiguous, AllCutAt;
    out := [];
    var acc: Option<RawChunk> := None;
    ContiguousNone(lines);
    assert raw[..|raw|] == raw;
    for i := 0 to |raw|
      invariant Contiguous(out, lines) && Greedy(out, breaks)
      invariant forall c | c in out :: Size(c) >= MIN_LINES
      invariant acc.None? ==> EndOf(out) == EndOf(raw[..i])
      invariant acc.Some? ==>
                  && acc.value.startLine == EndOf(out) + 1 && acc.value.endLine == EndOf(raw[..i])
                  && Piece(acc.value, lines) && StartsAtBreak(acc.value, breaks)
                  && NoBreakFrom(acc.value, breaks, MIN_LINES) && 1 <= Size(acc.value) < MIN_LINES
    {
      var rc := raw[i];
      PieceAt(raw, lines, i);
      CutAt(raw, breaks, 1, i);
      if acc.Some? {
        var a := RawChunk(acc.value.content + ['\n'] + rc.content, acc.value.startLine, rc.endLine);
        PiecesJoin(acc.value, rc, lines);
        assert NoBreakFrom(a, breaks, MIN_LINES);
        if Size(a) >= MIN_LINES {
          ContiguousAppend(out, a, lines);
          CutAppend(out, a, breaks, MIN_LINES);
          out, acc := out + [a], None;
        } else {
          acc := Some(a);
        }
      } else if Size(rc) < MIN_LINES {
        acc := Some(rc);
      } else {
        ContiguousAppend(out, rc, lines);
        CutAppend(out, rc, breaks, MIN_LINES);
        out := out + [rc];
      }
    }
    if acc.Some? {
      ContiguousAppend(out, acc.value, lines);
      CutAppend(out, acc.value, breaks, MIN_LINES);
      out := out + [acc.value];
    }
  }

  lemma CutAt(cs: seq<RawChunk>, breaks: set<nat>, room: nat, i: nat)
    requires AllCutAt(cs, breaks, room) && i < |cs|
    ensures StartsAtBreak(cs[i], breaks) && NoBreakFrom(cs[i], breaks, room)
  {
    hide StartsAtBreak, NoBreakFrom;
  }

  lemma PieceAt(cs: seq<RawChunk>, lines: seq<string>, i: nat)
    requires Contiguous(cs, lines) && i < |cs|
    ensures Piece(cs[i], lines) && cs[i].startLine == EndOf(cs[..i]) + 1 && 1 <= cs[i].startLine <= cs[i].endLine
    ensures EndOf(cs[..i + 1]) == cs[i].endLine
  {
  }

  /** Windows of 40 lines, 30 apart. */
  method Windows(lines: seq<string>) returns (cs: seq<RawChunk>)
    requires lines != []
    ensures Windowed(cs, lines)
  {
    hide Join;
    cs := [];
    var start := 0;
    while start < |lines|
      invariant start == (WINDOW - OVERLAP) * |cs|
      invariant forall k :: 0 <= k < |cs| ==> WindowAt(cs[k], lines, k) && cs[k].endLine < |lines|
      invariant cs != [] ==> cs[|cs| - 1].endLine == start + OVERLAP
    {
      var end := if start + WINDOW < |lines| then start + WINDOW else |lines|;
      cs := cs + [RawChunk(Join(lines[start..end]), start + 1, end)];
      if end == |lines| {
        break;
      }
      start := start + (WINDOW - OVERLAP);
    }
  }

  /** Window `k` covers 40 lines from line 30 k + 1, or what is left. */
  predicate WindowAt(c: RawChunk, lines: seq<string>, k: nat) {
    && Piece(c, lines)
    && c.startLine == (WINDOW - OVERLAP) * k + 1
    && c.endLine == (if c.startLine - 1 + WINDOW < |lines| then c.startLine - 1 + WINDOW else |lines|)
  }

  /** Windows up to the first one that reaches the last line. */
  ghost predicate Windowed(cs: seq<RawChunk>, lines: seq<string>) {
    && (forall k :: 0 <= k < |cs| ==> WindowAt(cs[k], lines, k))
    && (forall k :: 0 <= k < |cs| - 1 ==> cs[k].endLine < |lines|)
    && EndOf(cs) == |lines|
  }

  function LanguageOf(ext: string): Option<Language> {
    if ext in ["rs", "js", "ts", "go", "c", "cpp", "h", "hpp", "java"] then Some(Braces)
    else if ext == "py" then Some(Python)
    else if ext == "md" then Some(Markdown)
    else None
  }

  /** The lines the chunker works on: none for a file that is too large, unreadable or binary. */
  function Readable(size: nat, content: Option<string>): seq<string> {
    if size > MAX_FILE_SIZE || content.None? || '\0' in content.value then [] else Lines(content.value)
  }

  method ChunkFile(size: nat, content: Option<string>, ext: string, strategy: string) returns (cs: seq<RawChunk>)
    ensures var lines := Readable(size, content);
            if lines == [] then cs == []
            else if strategy == "syntactic" && LanguageOf(ext).Some?
            then Chunked(cs, lines, Breaks(LanguageOf(ext).value, lines))
            else Windowed(cs, lines)
  {
    hide Lines, Breaks, Chunked, Windowed, SplitAt, LanguageOf;
    if size > MAX_FILE_SIZE || content.None? || '\0' in content.value {
      return [];
    }
    var lines := Lines(content.value);
    if lines == [] {
      return [];
    }
    if strategy == "syntactic" {
      var language := LanguageOf(ext);
      if language.Some? {
        var raw := Split(language.value, lines);
        cs := PostProcess(raw, lines, Breaks(language.value, lines));
        return;
      }
    }
    cs := Windows(lines);
  }

  // ---- What that means ------------------------------------------------------------------------------------------

  function Contents(cs: seq<RawChunk>): seq<string> {
    if cs == [] then [] else Contents(cs[..|cs| - 1]) + [cs[|cs| - 1].content]
  }

  /** Joining the chunks gives the file's lines joined: nothing is lost, repeated or reordered. */
  lemma {:induction false} ContiguousJoin(cs: seq<RawChunk>, lines: seq<string>)
    requires Contiguous(cs, lines) && cs != []
    ensures |Contents(cs)| == |cs| && EndOf(cs) <= |lines|
    ensures Join(Contents(cs)) == Join(lines[..EndOf(cs)])
  {
    hide Join, Contiguous;
    var n := |cs| - 1;
    var before, last := cs[..n], cs[n];
    ContiguousPrefix(cs, lines, n);
    PieceAt(cs, lines, n);
    var own := lines[last.startLine - 1..last.endLine];
    JoinOne(last.content);
    if before == [] {
      assert Contents(cs) == [last.content];
      assert own == lines[..last.endLine];
    } else {
      ContiguousJoin(before, lines);
      PieceAt(before, lines, n - 1);
      JoinConcat(Contents(before), [last.content]);
      JoinConcat(lines[..EndOf(before)], own);
      assert lines[..EndOf(before)] + own == lines[..last.endLine];
    }
  }

  lemma ContiguousPrefix(cs: seq<RawChunk>, lines: seq<string>, n: nat)
    requires Contiguous(cs, lines) && n <= |cs|
    ensures Contiguous(cs[..n], lines)
  {
    hide Piece;
    forall k | 0 <= k < n
      ensures Piece(cs[..n][k], lines) && cs[..n][k].startLine == EndOf(cs[..n][..k]) + 1
    {
      assert cs[..n][..k] == cs[..k];
    }
  }

  lemma JoinOne(s: string)
    ensures Join([s]) == s
  {
  }

  lemma PartitionJoin(cs: seq<RawChunk>, lines: seq<string>)
    requires Partition(cs, lines) && lines != []
    ensures Join(Contents(cs)) == Join(lines)
  {
    hide Join;
    ContiguousJoin(cs, lines);
    assert lines[..|lines|] == lines;
  }

  /** Every line is in exactly one chunk of a partition. */
  lemma LineInOneChunk(cs: seq<RawChunk>, lines: seq<string>, line: nat)
    requires Partition(cs, lines) && 1 <= line <= |lines|
    ensures exists k :: 0 <= k < |cs| && cs[k].startLine <= line <= cs[k].endLine
    ensures forall i, j :: 0 <= i < j < |cs| ==> cs[i].endLine < cs[j].startLine
  {
    hide Join;
    forall i, j | 0 <= i < j < |cs|
      ensures cs[i].endLine < cs[j].startLine
    {
      Ascending(cs, lines, i, j);
    }
    FindChunk(cs, lines, line, |cs|);
  }

  lemma {:induction false} Ascending(cs: seq<RawChunk>, lines: seq<string>, i: nat, j: nat)
    requires Contiguous(cs, lines) && i < j < |cs|
    ensures cs[i].endLine < cs[j].startLine
  {
    hide Join;
    assert cs[j].startLine == EndOf(cs[..j]) + 1;
    if i + 1 < j {
      Ascending(cs, lines, i, j - 1);
    }
  }

  lemma {:induction false} FindChunk(cs: seq<RawChunk>, lines: seq<string>, line: nat, n: nat)
    requires Contiguous(cs, lines) && n <= |cs| && 1 <= line <= EndOf(cs[..n])
    ensures exists k :: 0 <= k < |cs| && cs[k].startLine <= line <= cs[k].endLine
  {
    hide Join;
    if n > 0 && line < cs[n - 1].startLine {
      FindChunk(cs, lines, line, n - 1);
    }
  }

  /** The chunking is determined: chunks that partition the file, start at breaks and end at the first
      break after eight lines can be cut in one way only. */
  lemma ChunkingIsDetermined(a: seq<RawChunk>, b: seq<RawChunk>, lines: seq<string>, breaks: set<nat>)
    requires Chunked(a, lines, breaks) && Chunked(b, lines, breaks)
    ensures a == b
  {
    hide Join, Chunked;
    SameUpTo(a, b, lines, breaks, |a|);
    SameUpTo(b, a, lines, breaks, |b|);
  }

  lemma {:induction false} SameUpTo(a: seq<RawChunk>, b: seq<RawChunk>, lines: seq<string>, breaks: set<nat>, n: nat)
    requires Chunked(a, lines, breaks) && Chunked(b, lines, breaks) && n <= |a|
    ensures n <= |b| && a[..n] == b[..n]
  {
    hide Join, Contiguous, Greedy, Piece;
    if n > 0 {
      SameUpTo(a, b, lines, breaks, n - 1);
      PieceAt(a, lines, n - 1);
      NotPastEnd(a, lines, n - 1);
      assert b[..|b|] == b;
      PieceAt(b, lines, n - 1);
      SameEnd(a, b, lines, breaks, n - 1);
      SamePiece(a[n - 1], b[n - 1], lines);
      assert a[..n] == a[..n - 1] + [a[n - 1]];
      assert b[..n] == b[..n - 1] + [b[n - 1]];
    }
  }

  lemma SamePiece(a: RawChunk, b: RawChunk, lines: seq<string>)
    requires Piece(a, lines) && Piece(b, lines) && a.startLine == b.startLine && a.endLine == b.endLine
    ensures a == b
  {
    hide Join;
  }

  /** A prefix that ends before the last chunk ends before the last line. */
  lemma NotPastEnd(cs: seq<RawChunk>, lines: seq<string>, n: nat)
    requires Partition(cs, lines) && n < |cs|
    ensures EndOf(cs[..n]) < |lines|
  {
    hide Join;
    assert Piece(cs[n], lines);
  }

  lemma SameEnd(a: seq<RawChunk>, b: seq<RawChunk>, lines: seq<string>, breaks: set<nat>, k: nat)
    requires Chunked(a, lines, breaks) && Chunked(b, lines, breaks)
    requires k < |a| && k < |b| && a[k].startLine == b[k].startLine
    ensures a[k].endLine == b[k].endLine
  {
    hide Join;
    NotShorter(a, b, lines, breaks, k);
    NotShorter(b, a, lines, breaks, k);
  }

  lemma NotShorter(a: seq<RawChunk>, b: seq<RawChunk>, lines: seq<string>, breaks: set<nat>, k: nat)
    requires Chunked(a, lines, breaks) && Chunked(b, lines, breaks)
    requires k < |a| && k < |b| && a[k].startLine == b[k].startLine
    ensures a[k].endLine >= b[k].endLine
  {
    hide Join;
    assert b[k] in b;
    if k + 1 < |a| {
      assert a[k + 1] in a && a[k + 1].startLine == EndOf(a[..k + 1]) + 1;
    } else {
      assert Piece(b[k], lines);
    }
  }

  /** The windows cover every line, overlap by exactly ten lines, and their number is determined. */
  lemma WindowsCover(cs: seq<RawChunk>, lines: seq<string>, line: nat)
    requires Windowed(cs, lines) && 1 <= line <= |lines|
    ensures exists k :: 0 <= k < |cs| && cs[k].startLine <= line <= cs[k].endLine
    ensures forall k :: 0 <= k < |cs| - 1 ==> cs[k].endLine - cs[k + 1].startLine + 1 == OVERLAP
    ensures |cs| == if |lines| <= WINDOW then 1 else (|lines| - OVERLAP + WINDOW - OVERLAP - 1) / (WINDOW - OVERLAP)
  {
    hide Join;
    var k := if (line - 1) / 30 < |cs| then (line - 1) / 30 else |cs| - 1;
    var last := |cs| - 1;
    assert WindowAt(cs[last], lines, last);
    assert WindowAt(cs[k], lines, k);
    if last > 0 {
      assert WindowAt(cs[last - 1], lines, last - 1);
    }
  }
}
