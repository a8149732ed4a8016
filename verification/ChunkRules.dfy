/** What the rules of the chunker mean (src/codebase.rs): lines, white space, brace depth, definitions,
    headings and sizes. */
module ChunkRules {
  import opened Prelude
  import opened Chunker

  function Glue(lines: seq<string>, ends: seq<string>): string
    requires |lines| == |ends|
  {
    if lines == [] then "" else lines[0] + ends[0] + Glue(lines[1..], ends[1..])
  }

  /** The ends of lines: a newline, or a return and a newline, whichever is longer; only the last line may
      have none, and then it is not empty. */
  predicate LineEnds(lines: seq<string>, ends: seq<string>) {
    && |lines| == |ends|
    && forall k | 0 <= k < |lines| ::
         && '\n' !in lines[k] && (ends[k] == "\n" || ends[k] == "\r\n" || (ends[k] == "" && k == |lines| - 1))
         && (ends[k] == "" ==> lines[k] != "")
         && (ends[k] == "\n" && lines[k] != "" ==> lines[k][|lines[k]| - 1] != '\r')
  }

  /** A text is its lines with their ends, nothing lost. */
  lemma {:induction false} LinesExactly(s: string) returns (ends: seq<string>)
    ensures LineEnds(Lines(s), ends) && s == Glue(Lines(s), ends)
    decreases |s|
  {
    hide Lines, LineEnds, Glue, FirstNewline;
    if s == "" {
      ends := [];
      NoLines();
    } else if '\n' !in s {
      ends := [""];
      OneLine(s);
    } else {
      var line, end, tail := CutLine(s);
      var rest := LinesExactly(tail);
      ends := [end] + rest;
      MoreEnds(Lines(tail), rest, line, end);
    }
  }

  lemma NoLines()
    ensures LineEnds(Lines(""), []) && Glue(Lines(""), []) == ""
  {
  }

  lemma OneLine(s: string)
    requires s != "" && '\n' !in s
    ensures LineEnds(Lines(s), [""]) && Glue(Lines(s), [""]) == s
  {
    hide LineEnds;
    assert Lines(s) == [s];
    assert [s][1..] == [] && [""][1..] == [] && s + "" + "" == s;
    assert LineEnds([s], [""]) by { JustOne(s); }
  }

  lemma JustOne(s: string)
    requires s != "" && '\n' !in s
    ensures LineEnds([s], [""])
  {
  }

  /** The first line of a text, how it ends, and the text after it. */
  lemma CutLine(s: string) returns (line: string, end: string, tail: string)
    requires '\n' in s
    ensures s == line + end + tail && |tail| < |s| && Lines(s) == [line] + Lines(tail)
    ensures '\n' !in line && (end == "\n" || end == "\r\n")
    ensures end == "\n" && line != "" ==> line[|line| - 1] != '\r'
  {
    hide Lines, FirstNewline;
    var i := FirstNewline(s);
    assert s[..|s|] == s;
    assert i < |s|;
    line, tail := StripReturn(s[..i]), s[i + 1..];
    end := if i > 0 && s[i - 1] == '\r' then "\r\n" else "\n";
    assert forall c | c in line :: c in s[..i];
    LinesUnroll(s);
  }

  lemma LinesUnroll(s: string)
    requires s != "" && FirstNewline(s) < |s|
    ensures Lines(s) == [StripReturn(s[..FirstNewline(s)])] + Lines(s[FirstNewline(s) + 1..])
  {
    hide FirstNewline, StripReturn;
  }

  lemma MoreEnds(lines: seq<string>, ends: seq<string>, line: string, end: string)
    requires LineEnds(lines, ends) && '\n' !in line && (end == "\n" || end == "\r\n")
    requires end == "\n" && line != "" ==> line[|line| - 1] != '\r'
    ensures LineEnds([line] + lines, [end] + ends)
    ensures Glue([line] + lines, [end] + ends) == line + end + Glue(lines, ends)
  {
    assert ([line] + lines)[1..] == lines && ([end] + ends)[1..] == ends;
  }

  /** Trimming takes away white space, and all of it, at both ends. */
  lemma {:induction false} TrimExactly(s: string) returns (a: string, b: string)
    ensures s == a + Trim(s) + b && IsBlank(a) && IsBlank(b)
    ensures var t := Trim(s); t != "" ==> !IsWhitespace(t[0]) && !IsWhitespace(t[|t| - 1])
    decreases |s|
  {
    hide IsBlank, IsWhitespace, Trim;
    TrimUnroll(s);
    if s != "" && IsWhitespace(s[0]) {
      var inner;
      inner, b := TrimExactly(s[1..]);
      a := [s[0]] + inner;
      BlankAppend([s[0]], inner);
      PutInFront(s, inner, Trim(s), b);
    } else if s != "" && IsWhitespace(s[|s| - 1]) {
      var inner;
      a, inner := TrimExactly(s[..|s| - 1]);
      b := inner + [s[|s| - 1]];
      BlankAppend(inner, [s[|s| - 1]]);
      PutBehind(s, a, Trim(s), inner);
    } else {
      a, b := "", "";
      assert s == "" + s + "";
      BlankAppend("", "");
    }
  }

  lemma PutInFront(s: string, a: string, t: string, b: string)
    requires s != "" && s[1..] == a + t + b
    ensures s == ([s[0]] + a) + t + b
  {
    assert s == [s[0]] + s[1..];
  }

  lemma PutBehind(s: string, a: string, t: string, b: string)
    requires s != "" && s[..|s| - 1] == a + t + b
    ensures s == a + t + (b + [s[|s| - 1]])
  {
    assert s == s[..|s| - 1] + [s[|s| - 1]];
  }

  lemma TrimUnroll(s: string)
    ensures Trim(s) == if s != "" && IsWhitespace(s[0]) then Trim(s[1..])
                       else if s != "" && IsWhitespace(s[|s| - 1]) then Trim(s[..|s| - 1])
                       else s
  {
    hide IsWhitespace;
  }

  lemma BlankAppend(a: string, b: string)
    ensures a == "" ==> IsBlank(a)
    ensures |a| == 1 && IsWhitespace(a[0]) ==> IsBlank(a)
    ensures |b| == 1 && IsWhitespace(b[0]) ==> IsBlank(b)
    ensures (IsBlank(a) || (|a| == 1 && IsWhitespace(a[0]))) && (IsBlank(b) || (|b| == 1 && IsWhitespace(b[0]))) ==>
              IsBlank(a + b)
  {
    hide IsWhitespace;
  }

  /** Opening less closing braces. */
  function Balance(s: string): int {
    if s == "" then 0 else (if s[0] == '{' then 1 else if s[0] == '}' then -1 else 0) + Balance(s[1..])
  }

  lemma {:induction false} BalanceCounts(s: string)
    ensures Balance(s) == Count(s, '{') - Count(s, '}')
  {
    if s != "" {
      BalanceCounts(s[1..]);
    }
  }

  lemma {:induction false} BalanceJoin(a: string, b: string)
    ensures Balance(a + b) == Balance(a) + Balance(b)
  {
    if a == "" {
      assert a + b == b;
    } else {
      assert (a + b)[1..] == a[1..] + b;
      BalanceJoin(a[1..], b);
    }
  }

  lemma {:induction false} BlankBalance(s: string)
    requires IsBlank(s)
    ensures Balance(s) == 0
  {
    if s != "" {
      BlankBalance(s[1..]);
    }
  }

  lemma DepthStep(depth: nat, line: string)
    ensures DepthAfter(depth, line) == if depth + Balance(line) < 0 then 0 else depth + Balance(line)
  {
    hide Trim, Count, Balance;
    var a, b := TrimExactly(line);
    BalanceCounts(Trim(line));
    BalanceJoin(a + Trim(line), b);
    BalanceJoin(a, Trim(line));
    BlankBalance(a);
    BlankBalance(b);
  }

  /** Opening less closing braces on lines `j` to `i`. */
  function Net(lines: seq<string>, j: nat, i: nat): int
    requires j <= i <= |lines|
    decreases i
  {
    if i == j then 0 else Net(lines, j, i - 1) + Balance(lines[i - 1])
  }

  /** The brace depth before a line is the largest surplus of opening braces over any lines right before it,
      so closing braces without opening ones count for nothing. */
  lemma {:induction false} DepthExactly(lines: seq<string>, i: nat)
    requires i <= |lines|
    ensures forall j: nat | j <= i :: Net(lines, j, i) <= Depth(lines, i)
    ensures exists j: nat :: j <= i && Net(lines, j, i) == Depth(lines, i)
  {
    hide DepthAfter, Balance;
    if i == 0 {
      assert Net(lines, 0, 0) == Depth(lines, 0);
    } else {
      DepthExactly(lines, i - 1);
      DepthStep(Depth(lines, i - 1), lines[i - 1]);
      var j: nat :| j <= i - 1 && Net(lines, j, i - 1) == Depth(lines, i - 1);
      assert Net(lines, j, i) == Depth(lines, i - 1) + Balance(lines[i - 1]);
      assert Net(lines, i, i) == 0;
      assert forall k: nat | k <= i - 1 :: Net(lines, k, i) == Net(lines, k, i - 1) + Balance(lines[i - 1]);
    }
  }

  /** A definition: a function, structure or enumeration, public or not, an implementation, a class, or a
      script function, asynchronous or not. */
  predicate IsDefinition(t: string) {
    || "fn " <= t || "struct " <= t || "enum " <= t
    || "pub fn " <= t || "pub struct " <= t || "pub enum " <= t
    || "impl " <= t || "class " <= t || "function " <= t || "async function " <= t
  }

  lemma DefinitionExactly(t: string)
    ensures IsDefinition(t) <==> StartsDefinition(t)
  {
    assert DEFINITIONS[0] == "fn " && DEFINITIONS[1] == "pub fn " && DEFINITIONS[2] == "struct ";
    assert DEFINITIONS[3] == "pub struct " && DEFINITIONS[4] == "enum " && DEFINITIONS[5] == "pub enum ";
    assert DEFINITIONS[6] == "impl " && DEFINITIONS[7] == "class " && DEFINITIONS[8] == "function ";
    assert DEFINITIONS[9] == "async function " && |DEFINITIONS| == 10;
    if StartsDefinition(t) {
      var d :| d in DEFINITIONS && d <= t;
      var k :| 0 <= k < 10 && DEFINITIONS[k] == d;
    }
    forall k | 0 <= k < 10 && DEFINITIONS[k] <= t
      ensures StartsDefinition(t)
    {
      assert DEFINITIONS[k] in DEFINITIONS;
    }
  }

  lemma FirstChar(line: string)
    ensures " " <= line <==> line != "" && line[0] == ' '
    ensures "\t" <= line <==> line != "" && line[0] == '\t'
    ensures "#" <= line <==> line != "" && line[0] == '#'
  {
  }

  /** Pieces break, after the first line, before a definition no deeper than one brace, before a function or
      class that is not indented, and before a heading. */
  lemma BreaksExactly(language: Language, lines: seq<string>, i: nat)
    ensures i in Breaks(language, lines) <==>
              && 0 < i < |lines|
              && match language
                 case Braces => Depth(lines, i) <= 1 && IsDefinition(Trim(lines[i]))
                 case Python =>
                   && ("def " <= Trim(lines[i]) || "class " <= Trim(lines[i]))
                   && lines[i] != "" && lines[i][0] != ' ' && lines[i][0] != '\t'
                 case Markdown => lines[i] != "" && lines[i][0] == '#'
  {
    hide Depth, StartsDefinition, IsDefinition;
    if 0 < i < |lines| {
      var line := lines[i];
      DefinitionExactly(Trim(line));
      FirstChar(line);
      assert line == "" ==> Trim(line) == "";
      assert "def " <= Trim(line) || "class " <= Trim(line) ==> Trim(line) != "";
    }
  }

  /** The strategies by file extension. */
  lemma LanguageExactly(ext: string)
    ensures LanguageOf(ext) == Some(Python) <==> ext == "py"
    ensures LanguageOf(ext) == Some(Markdown) <==> ext == "md"
    ensures LanguageOf(ext) == Some(Braces) <==>
              ext == "rs" || ext == "js" || ext == "ts" || ext == "go" || ext == "c" || ext == "cpp" || ext == "h"
              || ext == "hpp" || ext == "java"
  {
    assert |"py"| == 2 && |"md"| == 2 && "py"[0] == 'p' && "md"[0] == 'm';
    assert "rs"[0] == 'r' && "js"[0] == 'j' && "ts"[0] == 't' && "go"[0] == 'g' && |"java"| == 4 && |"cpp"| == 3 && |"hpp"| == 3;
  }

  /** The sizes: merged pieces have at least eight lines but for the last, and end at the first break from
      there on; window `k` has lines 30 k + 1 to 30 k + 40, or to the end. */
  lemma SizesExactly(cs: seq<RawChunk>, lines: seq<string>, breaks: set<nat>, k: nat)
    requires k < |cs|
    ensures Chunked(cs, lines, breaks) ==>
              && (k < |cs| - 1 ==> cs[k].endLine - cs[k].startLine >= 7)
              && forall b | b in breaks :: !(cs[k].startLine + 7 <= b < cs[k].endLine)
    ensures Windowed(cs, lines) ==>
              && cs[k].startLine == 30 * k + 1
              && cs[k].endLine == (if 30 * k + 40 < |lines| then 30 * k + 40 else |lines|)
  {
    hide Join;
    assert cs[k] in cs;
  }

  /** There is nothing to chunk exactly in a file of more than a mebibyte, one that cannot be read, one with
      a null character, or an empty one; and nothing else is chunked into nothing. */
  lemma NothingExactly(size: nat, content: Option<string>)
    ensures Readable(size, content) == [] <==>
              size > 1_048_576 || content.None? || '\0' in content.value || content.value == ""
  {
  }

  lemma SomethingStays(lines: seq<string>, breaks: set<nat>)
    requires Chunked([], lines, breaks) || Windowed([], lines)
    ensures lines == []
  {
  }
}
