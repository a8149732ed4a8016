/** What the streaming Markdown renderer prints (src/ui/streamer.rs), said without its decisions: a
    renderer that counts the toggles before it, and what is left once the escape sequences are removed. */
module MarkdownText {
  import opened Streamer

  // ---- Rendering by counting --------------------------------------------------------------------------------

  /** How often each style has been toggled. */
  datatype Counts = Counts(fences: nat, mathBlocks: nat, mathInlines: nat, bolds: nat, inlineCodes: nat)

  const NONE := Counts(0, 0, 0, 0, 0)

  /** The first, third, ... toggle switches on, the second, fourth, ... off. */
  function Switch(before: nat, on: string, off: string): string {
    if before % 2 == 0 then on else off
  }

  /** Reset, then the styles of the open blocks: code, display math, bold. */
  function LineEnd(n: Counts): string {
    "\U{1B}[0m" + Switch(n.fences, "", "\U{1B}[36m") + Switch(n.mathBlocks, "", "\U{1B}[35m")
    + Switch(n.bolds, "", "\U{1B}[1m") + "\n"
  }

  /** The text on the terminal after toggles have been met `n` times. */
  function Painted(n: Counts, atLineStart: bool, text: string): string
    decreases |text|
  {
    if text == "" then ""
    else if "```" <= text then
      Switch(n.fences, "\U{1B}[36m", "\U{1B}[0m") + Painted(n.(fences := n.fences + 1), false, text[3..])
    else if "$$" <= text || "\\[" <= text || "\\]" <= text then
      Switch(n.mathBlocks, "\U{1B}[35m", "\U{1B}[0m") + Painted(n.(mathBlocks := n.mathBlocks + 1), false, text[2..])
    else if "\\(" <= text || "\\)" <= text then
      Switch(n.mathInlines, "\U{1B}[35m", "\U{1B}[0m") + Painted(n.(mathInlines := n.mathInlines + 1), false, text[2..])
    else if "**" <= text then
      Switch(n.bolds, "\U{1B}[1m", "\U{1B}[22m") + Painted(n.(bolds := n.bolds + 1), false, text[2..])
    else if atLineStart && "### " <= text then "\U{1B}[1;96m### " + Painted(n, false, text[4..])
    else if atLineStart && "## " <= text then "\U{1B}[1;96m## " + Painted(n, false, text[3..])
    else if atLineStart && "# " <= text then "\U{1B}[1;96m# " + Painted(n, false, text[2..])
    else if atLineStart && ("- " <= text || "* " <= text) then
      "\U{1B}[33m\U{2022} \U{1B}[0m" + Painted(n, false, text[2..])
    else if "`" <= text then
      Switch(n.inlineCodes, "\U{1B}[36m", "\U{1B}[0m") + Painted(n.(inlineCodes := n.inlineCodes + 1), false, text[1..])
    else if "$" <= text then
      Switch(n.mathInlines, "\U{1B}[35m", "\U{1B}[0m") + Painted(n.(mathInlines := n.mathInlines + 1), false, text[1..])
    else if text[0] == '\n' then LineEnd(n) + Painted(n, true, text[1..])
    else [text[0]] + Painted(n, false, text[1..])
  }

  /** The modes are the parities of the counts. */
  predicate Parities(m: Modes, n: Counts) {
    && (m.codeBlock <==> n.fences % 2 == 1) && (m.mathBlock <==> n.mathBlocks % 2 == 1)
    && (m.mathInline <==> n.mathInlines % 2 == 1) && (m.bold <==> n.bolds % 2 == 1)
    && (m.inlineCode <==> n.inlineCodes % 2 == 1)
  }

  /** How often a token counts, and what it prints; the counts after it. */
  function CountsAfter(n: Counts, t: Token): Counts {
    match t
    case Fence => n.(fences := n.fences + 1)
    case MathBlock => n.(mathBlocks := n.mathBlocks + 1)
    case MathInlineDelimiter => n.(mathInlines := n.mathInlines + 1)
    case Dollar => n.(mathInlines := n.mathInlines + 1)
    case Bold => n.(bolds := n.bolds + 1)
    case InlineCode => n.(inlineCodes := n.inlineCodes + 1)
    case _ => n
  }

  function Printed(n: Counts, t: Token): string {
    match t
    case Fence => Switch(n.fences, "\U{1B}[36m", "\U{1B}[0m")
    case MathBlock => Switch(n.mathBlocks, "\U{1B}[35m", "\U{1B}[0m")
    case MathInlineDelimiter => Switch(n.mathInlines, "\U{1B}[35m", "\U{1B}[0m")
    case Dollar => Switch(n.mathInlines, "\U{1B}[35m", "\U{1B}[0m")
    case Bold => Switch(n.bolds, "\U{1B}[1m", "\U{1B}[22m")
    case InlineCode => Switch(n.inlineCodes, "\U{1B}[36m", "\U{1B}[0m")
    case Header3 => "\U{1B}[1;96m### "
    case Header2 => "\U{1B}[1;96m## "
    case Header1 => "\U{1B}[1;96m# "
    case Bullet => "\U{1B}[33m\U{2022} \U{1B}[0m"
    case NoToken => ""
  }

  lemma TokenPrints(m: Modes, n: Counts, t: Token)
    requires Parities(m, n)
    ensures EventText(TokenAt(m, t)) == Printed(n, t) && Parities(TokenModes(m, t), CountsAfter(n, t))
  {
  }

  lemma CharPrints(m: Modes, n: Counts, c: char)
    requires Parities(m, n)
    ensures EventText(CharAt(m, c)) == if c == '\n' then LineEnd(n) else [c]
  {
  }

  lemma StartsWith(text: string, c: char, d: char, e: char, f: char)
    ensures [c] <= text <==> Has(text, 0, c)
    ensures [c, d] <= text <==> Has(text, 0, c) && Has(text, 1, d)
    ensures [c, d, e] <= text <==> Has(text, 0, c) && Has(text, 1, d) && Has(text, 2, e)
    ensures [c, d, e, f] <= text <==> Has(text, 0, c) && Has(text, 1, d) && Has(text, 2, e) && Has(text, 3, f)
  {
  }

  /** The token at the front of a text is the first of the known ones that the text starts with. */
  lemma RecogniseExactly(atLineStart: bool, text: string)
    ensures Recognise(atLineStart, text)
            == if "```" <= text then Fence
               else if "$$" <= text || "\\[" <= text || "\\]" <= text then MathBlock
               else if "\\(" <= text || "\\)" <= text then MathInlineDelimiter
               else if "**" <= text then Bold
               else if atLineStart && "### " <= text then Header3
               else if atLineStart && "## " <= text then Header2
               else if atLineStart && "# " <= text then Header1
               else if atLineStart && ("- " <= text || "* " <= text) then Bullet
               else if "`" <= text then InlineCode
               else if "$" <= text then Dollar
               else NoToken
  {
    hide Has;
    StartsWith(text, '`', '`', '`', ' ');
    StartsWith(text, '$', '$', ' ', ' ');
    StartsWith(text, '\\', '[', ' ', ' ');
    StartsWith(text, '\\', ']', ' ', ' ');
    StartsWith(text, '\\', '(', ' ', ' ');
    StartsWith(text, '\\', ')', ' ', ' ');
    StartsWith(text, '*', '*', ' ', ' ');
    StartsWith(text, '#', '#', '#', ' ');
    StartsWith(text, '#', '#', ' ', ' ');
    StartsWith(text, '#', ' ', ' ', ' ');
    StartsWith(text, '-', ' ', ' ', ' ');
    StartsWith(text, '*', ' ', ' ', ' ');
  }

  lemma PaintedOne(n: Counts, atLineStart: bool, text: string)
    requires text != ""
    ensures var t := Recognise(atLineStart, text);
            && Width(t) <= |text|
            && Painted(n, atLineStart, text)
               == if t == NoToken then (if text[0] == '\n' then LineEnd(n) else [text[0]]) + Painted(n, text[0] == '\n', text[1..])
                  else Printed(n, t) + Painted(CountsAfter(n, t), false, text[Width(t)..])
  {
    hide Recognise, Switch, LineEnd;
    RecogniseExactly(atLineStart, text);
  }

  /** The renderer of whole texts paints by counting: it needs no memory but how often each toggle came. */
  lemma {:induction false} PaintedIsText(m: Modes, n: Counts, text: string)
    requires Parities(m, n)
    ensures Text(Lex(m, text)) == Painted(n, m.isNewline, text)
    decreases |text|
  {
    hide Recognise, EventText, Printed, TokenModes, CountsAfter, Width, LineEnd, Painted, Parities;
    if text == "" {
      PaintedNothing(n, m.isNewline);
    } else {
      PaintedOne(n, m.isNewline, text);
      DecisionShape(m, text);
      var t := Recognise(m.isNewline, text);
      var rest := text[Taken(m, text)..];
      if t == NoToken {
        CharPrints(m, n, text[0]);
        SameParities(m, n, text[0] == '\n');
        PaintedIsText(After(m, text), n, rest);
      } else {
        TokenPrints(m, n, t);
        NotAtLineStart(m, t);
        PaintedIsText(After(m, text), CountsAfter(n, t), rest);
      }
      assert Lex(m, text) == [Decision(m, text)] + Lex(After(m, text), rest);
      TextOne(Decision(m, text), Lex(After(m, text), rest));
    }
  }

  lemma PaintedNothing(n: Counts, atLineStart: bool)
    ensures Painted(n, atLineStart, "") == ""
  {
  }

  lemma TextOne(e: Event, rest: seq<Event>)
    ensures Text([e] + rest) == EventText(e) + Text(rest)
  {
    hide EventText;
    assert ([e] + rest)[1..] == rest;
  }

  lemma SameParities(m: Modes, n: Counts, atLineStart: bool)
    requires Parities(m, n)
    ensures Parities(m.(isNewline := atLineStart), n)
  {
  }

  lemma NotAtLineStart(m: Modes, t: Token)
    requires t != NoToken
    ensures !TokenModes(m, t).isNewline
  {
  }

  /** What is printed for a whole text, and for pieces of it unless one of them cuts a header. */
  lemma PrintedText(pieces: seq<string>)
    ensures WholeText(Concat(pieces)) == Painted(NONE, true, Concat(pieces)) + "\U{1B}[0m"
    ensures Text(Stream(INITIAL, "", pieces)) + RESET == Painted(NONE, true, Concat(pieces)) + "\U{1B}[0m"
            <==> !SplitsHeader(true, "", pieces)
  {
    hide Lex, Text, Painted, SplitsHeader, Stream;
    PaintedIsText(INITIAL, NONE, Concat(pieces));
    ChunkInvariance(pieces);
  }

  // ---- Enclosed text --------------------------------------------------------------------------------------------

  /** No character that could belong to a toggle, and no line break. */
  predicate Plain(x: string) {
    forall c | c in x :: c !in {'`', '$', '\\', '*', '\n'}
  }

  lemma {:induction false} PlainPrints(n: Counts, x: string, rest: string)
    requires Plain(x)
    ensures Painted(n, false, x + rest) == x + Painted(n, false, rest)
  {
    hide Painted;
    if x == "" {
      assert x + rest == rest;
    } else {
      assert (x + rest)[0] == x[0] && (x + rest)[1..] == x[1..] + rest;
      assert x[0] in x && forall c | c in x[1..] :: c in x;
      PlainPrints(n, x[1..], rest);
      PlainChar(n, x + rest);
      assert x == [x[0]] + x[1..];
    }
  }

  lemma PlainChar(n: Counts, text: string)
    requires text != "" && text[0] !in {'`', '$', '\\', '*', '\n'}
    ensures Painted(n, false, text) == [text[0]] + Painted(n, false, text[1..])
  {
    assert Recognise(false, text) == NoToken;
    PaintedOne(n, false, text);
  }

  /** Text enclosed in two delimiters, each of them a whole token wherever it stands. */
  lemma Enclosed(open: string, x: string, close: string, t: Token, on: string, off: string)
    requires Plain(x) && |open| == Width(t) == |close| && t in {Fence, MathBlock, MathInlineDelimiter, Bold, InlineCode, Dollar}
    requires Recognise(true, open + (x + close)) == t && Recognise(false, close) == t
    requires Printed(NONE, t) == on && Printed(CountsAfter(NONE, t), t) == off
    ensures WholeText(open + x + close) == on + x + off + "\U{1B}[0m"
  {
    hide Recognise, Printed, CountsAfter, Painted, Lex, Text;
    var text := open + (x + close);
    assert open + x + close == text;
    PaintedIsText(INITIAL, NONE, text);
    PaintedOne(NONE, true, text);
    assert text[Width(t)..] == x + close;
    PlainPrints(CountsAfter(NONE, t), x, close);
    PaintedOne(CountsAfter(NONE, t), false, close);
    assert close[Width(t)..] == "";
    PaintedNothing(CountsAfter(CountsAfter(NONE, t), t), false);
    Joined(on, x, off);
  }

  lemma Joined(on: string, x: string, off: string)
    ensures on + (x + (off + "")) == on + x + off
  {
  }

  /** Each pair of delimiters prints the text between them in its style, and a reset at the end. */
  lemma EnclosedText(x: string)
    requires Plain(x)
    ensures WholeText("**" + x + "**") == "\U{1B}[1m" + x + "\U{1B}[22m" + "\U{1B}[0m"
    ensures WholeText("`" + x + "`") == "\U{1B}[36m" + x + "\U{1B}[0m" + "\U{1B}[0m"
    ensures WholeText("```" + x + "```") == "\U{1B}[36m" + x + "\U{1B}[0m" + "\U{1B}[0m"
    ensures WholeText("$$" + x + "$$") == "\U{1B}[35m" + x + "\U{1B}[0m" + "\U{1B}[0m"
    ensures WholeText("\\[" + x + "\\]") == "\U{1B}[35m" + x + "\U{1B}[0m" + "\U{1B}[0m"
    ensures WholeText("\\(" + x + "\\)") == "\U{1B}[35m" + x + "\U{1B}[0m" + "\U{1B}[0m"
    ensures x != "" ==> WholeText("$" + x + "$") == "\U{1B}[35m" + x + "\U{1B}[0m" + "\U{1B}[0m"
  {
    hide WholeText;
    assert |x| > 0 ==> x[0] in x;
    Enclosed("**", x, "**", Bold, "\U{1B}[1m", "\U{1B}[22m");
    Enclosed("`", x, "`", InlineCode, "\U{1B}[36m", "\U{1B}[0m");
    Enclosed("```", x, "```", Fence, "\U{1B}[36m", "\U{1B}[0m");
    Enclosed("$$", x, "$$", MathBlock, "\U{1B}[35m", "\U{1B}[0m");
    Enclosed("\\[", x, "\\]", MathBlock, "\U{1B}[35m", "\U{1B}[0m");
    Enclosed("\\(", x, "\\)", MathInlineDelimiter, "\U{1B}[35m", "\U{1B}[0m");
    if x != "" {
      Enclosed("$", x, "$", Dollar, "\U{1B}[35m", "\U{1B}[0m");
    }
  }

  lemma LedIn(lead: string, x: string, t: Token, shown: string)
    requires Plain(x) && |lead| == Width(t) && t in {Header3, Header2, Header1, Bullet}
    requires Recognise(true, lead + x) == t && Printed(NONE, t) == shown
    ensures WholeText(lead + x) == shown + x + "\U{1B}[0m"
  {
    hide Recognise, Printed, Painted, Lex, Text;
    PaintedIsText(INITIAL, NONE, lead + x);
    PaintedOne(NONE, true, lead + x);
    assert (lead + x)[Width(t)..] == x && x + "" == x;
    PlainPrints(NONE, x, "");
    PaintedNothing(NONE, false);
  }

  /** A header keeps its marks and is printed bold and bright; a list mark becomes a bullet. */
  lemma LedInText(x: string)
    requires Plain(x)
    ensures WholeText("# " + x) == "\U{1B}[1;96m# " + x + "\U{1B}[0m"
    ensures WholeText("## " + x) == "\U{1B}[1;96m## " + x + "\U{1B}[0m"
    ensures WholeText("### " + x) == "\U{1B}[1;96m### " + x + "\U{1B}[0m"
    ensures WholeText("- " + x) == "\U{1B}[33m\U{2022} \U{1B}[0m" + x + "\U{1B}[0m"
    ensures WholeText("* " + x) == "\U{1B}[33m\U{2022} \U{1B}[0m" + x + "\U{1B}[0m"
  {
    hide WholeText;
    LedIn("# ", x, Header1, "\U{1B}[1;96m# ");
    LedIn("## ", x, Header2, "\U{1B}[1;96m## ");
    LedIn("### ", x, Header3, "\U{1B}[1;96m### ");
    LedIn("- ", x, Bullet, "\U{1B}[33m\U{2022} \U{1B}[0m");
    LedIn("* ", x, Bullet, "\U{1B}[33m\U{2022} \U{1B}[0m");
  }

  // ---- Without the escape sequences -----------------------------------------------------------------------------

  const ESC := '\U{1B}'

  /** What follows the first 'm'. */
  function AfterM(s: string): (r: string)
    ensures |r| <= |s| && (s != "" ==> |r| < |s|)
  {
    if s == "" then "" else if s[0] == 'm' then s[1..] else AfterM(s[1..])
  }

  /** The text without its escape sequences, each from the escape character to the next 'm'. */
  function Strip(s: string): string
    decreases |s|
  {
    if s == "" then "" else if s[0] == ESC then Strip(AfterM(s)) else [s[0]] + Strip(s[1..])
  }

  /** The text without its toggles, and with a bullet for each list mark. */
  function Visible(atLineStart: bool, text: string): string
    decreases |text|
  {
    if text == "" then ""
    else if "```" <= text then Visible(false, text[3..])
    else if "$$" <= text || "\\[" <= text || "\\]" <= text || "\\(" <= text || "\\)" <= text || "**" <= text then
      Visible(false, text[2..])
    else if atLineStart && "### " <= text then "### " + Visible(false, text[4..])
    else if atLineStart && "## " <= text then "## " + Visible(false, text[3..])
    else if atLineStart && "# " <= text then "# " + Visible(false, text[2..])
    else if atLineStart && ("- " <= text || "* " <= text) then "\U{2022} " + Visible(false, text[2..])
    else if "`" <= text || "$" <= text then Visible(false, text[1..])
    else [text[0]] + Visible(text[0] == '\n', text[1..])
  }

  function Kept(t: Token): string {
    match t
    case Header3 => "### "
    case Header2 => "## "
    case Header1 => "# "
    case Bullet => "\U{2022} "
    case _ => ""
  }

  lemma VisibleOne(atLineStart: bool, text: string)
    requires text != ""
    ensures var t := Recognise(atLineStart, text);
            && Width(t) <= |text|
            && Visible(atLineStart, text)
               == if t == NoToken then [text[0]] + Visible(text[0] == '\n', text[1..])
                  else Kept(t) + Visible(false, text[Width(t)..])
  {
    hide Recognise;
    RecogniseExactly(atLineStart, text);
  }

  lemma {:induction false} StripPlain(x: string, rest: string)
    requires ESC !in x
    ensures Strip(x + rest) == x + Strip(rest)
  {
    if x == "" {
      assert x + rest == rest;
    } else {
      assert (x + rest)[0] == x[0] && (x + rest)[1..] == x[1..] + rest;
      StripPlain(x[1..], rest);
    }
  }

  /** An escape sequence, with no 'm' before its end, vanishes. */
  lemma StripSequence(body: string, rest: string)
    requires 'm' !in body
    ensures Strip([ESC] + body + "m" + rest) == Strip(rest)
  {
    var s := [ESC] + body + "m" + rest;
    assert s == ([ESC] + body) + ("m" + rest);
    SkipTo([ESC] + body, "m" + rest);
    assert ("m" + rest)[1..] == rest;
  }

  lemma {:induction false} SkipTo(a: string, b: string)
    requires 'm' !in a && b != "" && b[0] == 'm'
    ensures AfterM(a + b) == b[1..]
  {
    if a == "" {
      assert a + b == b;
    } else {
      assert (a + b)[0] == a[0] && (a + b)[1..] == a[1..] + b;
      SkipTo(a[1..], b);
    }
  }

  lemma StripCodes(rest: string)
    ensures Strip("\U{1B}[0m" + rest) == Strip("\U{1B}[36m" + rest) == Strip("\U{1B}[35m" + rest) == Strip(rest)
    ensures Strip("\U{1B}[1m" + rest) == Strip("\U{1B}[22m" + rest) == Strip("\U{1B}[1;96m" + rest) == Strip(rest)
    ensures Strip("\U{1B}[33m" + rest) == Strip(rest)
  {
    hide Strip, AfterM;
    StripSequence("[0", rest);
    StripSequence("[36", rest);
    StripSequence("[35", rest);
    StripSequence("[1", rest);
    StripSequence("[22", rest);
    StripSequence("[1;96", rest);
    StripSequence("[33", rest);
    assert [ESC] + "[0" + "m" == "\U{1B}[0m" && [ESC] + "[36" + "m" == "\U{1B}[36m" && [ESC] + "[35" + "m" == "\U{1B}[35m";
    assert [ESC] + "[1" + "m" == "\U{1B}[1m" && [ESC] + "[22" + "m" == "\U{1B}[22m";
    assert [ESC] + "[1;96" + "m" == "\U{1B}[1;96m" && [ESC] + "[33" + "m" == "\U{1B}[33m";
  }

  lemma StripPrinted(n: Counts, t: Token, rest: string)
    ensures Strip(Printed(n, t) + rest) == Kept(t) + Strip(rest)
  {
    hide Strip;
    StripCodes(rest);
    match t
    case Header3 =>
      assert "\U{1B}[1;96m" + "### " == "\U{1B}[1;96m### ";
      StripAfter("\U{1B}[1;96m", "### ", rest);
    case Header2 =>
      assert "\U{1B}[1;96m" + "## " == "\U{1B}[1;96m## ";
      StripAfter("\U{1B}[1;96m", "## ", rest);
    case Header1 =>
      assert "\U{1B}[1;96m" + "# " == "\U{1B}[1;96m# ";
      StripAfter("\U{1B}[1;96m", "# ", rest);
    case Bullet =>
      StripAfter("\U{1B}[33m", "\U{2022} ", "\U{1B}[0m" + rest);
      assert "\U{1B}[33m\U{2022} \U{1B}[0m" + rest == "\U{1B}[33m" + ("\U{2022} " + ("\U{1B}[0m" + rest));
    case NoToken =>
      assert "" + rest == rest;
    case _ =>
  }

  lemma StripAfter(code: string, x: string, rest: string)
    requires code == "\U{1B}[1;96m" || code == "\U{1B}[33m"
    requires ESC !in x
    ensures Strip(code + x + rest) == Strip(code + (x + rest)) == x + Strip(rest)
  {
    hide Strip;
    StripCodes(x + rest);
    StripPlain(x, rest);
    assert code + x + rest == code + (x + rest);
  }

  lemma Regroup(a: string, b: string, c: string, d: string, e: string, rest: string)
    ensures a + b + c + d + e + rest == a + (b + (c + (d + (e + rest))))
  {
  }

  lemma StripLineEnd(n: Counts, rest: string)
    ensures Strip(LineEnd(n) + rest) == "\n" + Strip(rest)
  {
    hide Strip;
    var code, math, bold :=
      Switch(n.fences, "", "\U{1B}[36m"), Switch(n.mathBlocks, "", "\U{1B}[35m"), Switch(n.bolds, "", "\U{1B}[1m");
    StripPlain("\n", rest);
    StripCodes("\n" + rest);
    assert "" + ("\n" + rest) == "\n" + rest;
    var r1 := bold + ("\n" + rest);
    StripCodes(r1);
    assert "" + r1 == r1;
    var r2 := math + r1;
    StripCodes(r2);
    assert "" + r2 == r2;
    StripCodes(code + r2);
    Regroup("\U{1B}[0m", code, math, bold, "\n", rest);
  }

  lemma {:induction false} StripPainted(n: Counts, atLineStart: bool, text: string, tail: string)
    requires ESC !in text
    ensures Strip(Painted(n, atLineStart, text) + tail) == Visible(atLineStart, text) + Strip(tail)
    decreases |text|
  {
    hide Strip, Painted, Visible, Printed, Kept, Recognise, LineEnd, CountsAfter, Width;
    if text == "" {
      PaintedNothing(n, atLineStart);
      VisibleNothing(atLineStart);
      assert "" + tail == tail;
    } else {
      var t := Recognise(atLineStart, text);
      PaintedOne(n, atLineStart, text);
      VisibleOne(atLineStart, text);
      if t == NoToken {
        var c, rest := text[0], Painted(n, text[0] == '\n', text[1..]);
        StripPainted(n, c == '\n', text[1..], tail);
        if c == '\n' {
          StripLineEnd(n, rest + tail);
          assert LineEnd(n) + rest + tail == LineEnd(n) + (rest + tail);
        } else {
          StripPlain([c], rest + tail);
          assert [c] + rest + tail == [c] + (rest + tail);
        }
      } else {
        TokenIsSomething(atLineStart, text);
        var rest := Painted(CountsAfter(n, t), false, text[Width(t)..]);
        StripPainted(CountsAfter(n, t), false, text[Width(t)..], tail);
        StripPrinted(n, t, rest + tail);
        assert Printed(n, t) + rest + tail == Printed(n, t) + (rest + tail);
      }
    }
  }

  lemma VisibleNothing(atLineStart: bool)
    ensures Visible(atLineStart, "") == ""
  {
  }

  lemma TokenIsSomething(atLineStart: bool, text: string)
    requires Recognise(atLineStart, text) != NoToken
    ensures 0 < Width(Recognise(atLineStart, text)) <= |text|
    ensures forall i | 0 <= i < Width(Recognise(atLineStart, text)) :: text[i] != ESC
  {
  }

  lemma {:induction false} StripHasNoEscape(s: string)
    ensures ESC !in Strip(s)
    decreases |s|
  {
    if s != "" {
      if s[0] == ESC {
        StripHasNoEscape(AfterM(s));
      } else {
        StripHasNoEscape(s[1..]);
      }
    }
  }

  lemma {:induction false} EscapeStaysVisible(atLineStart: bool, text: string)
    requires ESC in text
    ensures ESC in Visible(atLineStart, text)
    decreases |text|
  {
    hide Visible, Recognise, Width, Kept;
    var t := Recognise(atLineStart, text);
    VisibleOne(atLineStart, text);
    if t == NoToken {
      if text[0] != ESC {
        assert text == [text[0]] + text[1..];
        EscapeStaysVisible(text[0] == '\n', text[1..]);
      }
    } else {
      TokenIsSomething(atLineStart, text);
      var k := Width(t);
      assert text == text[..k] + text[k..];
      EscapeStaysVisible(false, text[k..]);
    }
  }

  /** Nothing of the text is lost or added: without escape sequences the output is the text without its
      toggles and with bullets for list marks, if and only if the text has no escape character itself. */
  lemma StrippedExactly(text: string)
    ensures Strip(WholeText(text)) == Visible(true, text) <==> ESC !in text
  {
    hide Strip, Visible, Painted, Lex, Text;
    if ESC in text {
      StripHasNoEscape(WholeText(text));
      EscapeStaysVisible(true, text);
    } else {
      PaintedIsText(INITIAL, NONE, text);
      StripPainted(NONE, true, text, "\U{1B}[0m");
      StripCodes("");
      assert "\U{1B}[0m" + "" == "\U{1B}[0m" && Strip("") == "" by {
        StripNothing();
      }
    }
  }

  lemma StripNothing()
    ensures Strip("") == ""
  {
  }
}
