/** What a compiled template means to the Tcl interpreter, and the way back to the template. */
module TemplateMeaning {
  import opened Prelude
  import opened Template

  // ---- Tcl's rules for a double-quoted word ----

  /** The rest of a word after its opening quote: its value, or why it has no fixed one. */
  datatype Word = Closed(value: string, rest: string) | Substituted | Unterminated

  /** Backslash substitution of one character; None for the forms that take more than one. */
  function Backslash(c: char): Option<char> {
    if c == 'a' then Some(7 as char)
    else if c == 'b' then Some(8 as char)
    else if c == 'f' then Some(12 as char)
    else if c == 'n' then Some('\n')
    else if c == 'r' then Some('\r')
    else if c == 't' then Some('\t')
    else if c == 'v' then Some(11 as char)
    else if c == 'x' || c == 'u' || c == 'U' || c == '\n' || '0' <= c <= '7' then None
    else Some(c)
  }

  function Prefixed(c: char, w: Word): Word {
    if w.Closed? then Closed([c] + w.value, w.rest) else w
  }

  /** Reads to the closing quote. Variable and command substitution make the word dynamic. */
  function ReadQuoted(s: string): Word {
    if s == "" then Unterminated
    else if s[0] == '"' then Closed("", s[1..])
    else if s[0] == '$' || s[0] == '[' then Substituted
    else if s[0] != '\\' then Prefixed(s[0], ReadQuoted(s[1..]))
    else if |s| < 2 then Unterminated
    else match Backslash(s[1])
         case None => Substituted
         case Some(c) => Prefixed(c, ReadQuoted(s[2..]))
  }

  lemma ReadPlain(u: string)
    requires u != "" && u[0] != '"' && u[0] != '$' && u[0] != '[' && u[0] != '\\'
    ensures ReadQuoted(u) == Prefixed(u[0], ReadQuoted(u[1..]))
  {
  }

  lemma ReadBackslash(u: string)
    requires |u| >= 2 && u[0] == '\\' && Backslash(u[1]) == Some(u[1])
    ensures ReadQuoted(u) == Prefixed(u[1], ReadQuoted(u[2..]))
  {
  }

  lemma ReadOne(c: char, s: string)
    ensures ReadQuoted(EscapeChar(c) + s) == Prefixed(c, ReadQuoted(s))
  {
    var u := EscapeChar(c) + s;
    if Escaped(c) {
      assert u[0] == '\\' && u[1] == c && u[2..] == s;
      ReadBackslash(u);
    } else {
      assert u[0] == c && u[1..] == s;
      ReadPlain(u);
    }
  }

  /** An escaped text, read by Tcl, is the text again, and the word ends at the quote put behind it. */
  lemma {:induction false} TextReadsBack(t: string, rest: string)
    ensures ReadQuoted(Escape(t) + ("\"" + rest)) == Closed(t, rest)
  {
    if t == "" {
      assert Escape(t) + ("\"" + rest) == "\"" + rest && ("\"" + rest)[1..] == rest;
    } else {
      TextReadsBack(t[1..], rest);
      Regroup(EscapeChar(t[0]), Escape(t[1..]), "\"" + rest);
      ReadOne(t[0], Escape(t[1..]) + ("\"" + rest));
      assert [t[0]] + t[1..] == t;
    }
  }

  // ---- the whole script ----

  /** Text first, then code and text in turn; only the last segment may lack its end tag. */
  predicate Alternating(segs: seq<Segment>) {
    && segs != [] && segs[0].Text?
    && (|segs| > 1 ==> !segs[1].Text? && (segs[1].closed <==> |segs| > 2) && (|segs| > 2 ==> Alternating(segs[2..])))
  }

  function CodeOf(a: Segment): string
    requires !a.Text?
  {
    if a.Code? then a.code else "\nputs -nonewline " + a.word
  }

  /**
  Tcl reads `script` as the commands the segments stand for: a `puts` whose word has the
  text as its value, the code as written, or a `puts` of the echoed word as written, in turn.
  */
  predicate ReadsAs(script: string, segs: seq<Segment>)
    requires Alternating(segs)
    decreases |segs|
  {
    && "puts -nonewline \"" <= script
    && var w := ReadQuoted(script[|"puts -nonewline \""|..]);
    && w.Closed? && w.value == segs[0].text && "\n" <= w.rest
    && if |segs| == 1 then w.rest == "\n" else CodeReadsAs(w.rest[1..], segs)
  }

  predicate CodeReadsAs(script: string, segs: seq<Segment>)
    requires Alternating(segs) && |segs| > 1
    decreases |segs|, 0
  {
    var code := CodeOf(segs[1]);
    && code <= script
    && if |segs| == 2 then script == code
       else code + "\n" <= script && ReadsAs(script[|code| + 1..], segs[2..])
  }

  /** The script for the segments as the commands stand in it. */
  function Commands(segs: seq<Segment>): string
    requires Alternating(segs)
  {
    PUTS_QUOTE + (Escape(segs[0].text) + ("\"" + ("\n" +
      if |segs| == 1 then ""
      else CodeOf(segs[1]) + if |segs| == 2 then "" else "\n" + Commands(segs[2..]))))
  }

  lemma {:induction false} CommandsReadAs(segs: seq<Segment>)
    requires Alternating(segs)
    ensures ReadsAs(Commands(segs), segs)
  {
    var script, t := Commands(segs), segs[0].text;
    var behind := if |segs| == 1 then ""
                  else CodeOf(segs[1]) + if |segs| == 2 then "" else "\n" + Commands(segs[2..]);
    var word := Escape(t) + ("\"" + ("\n" + behind));
    assert script == PUTS_QUOTE + word && script[|PUTS_QUOTE|..] == word;
    TextReadsBack(t, "\n" + behind);
    assert ("\n" + behind)[1..] == behind;
    if |segs| == 2 {
      assert behind == CodeOf(segs[1]);
    } else if |segs| > 2 {
      var code := CodeOf(segs[1]);
      CommandsReadAs(segs[2..]);
      Regroup(code, "\n", Commands(segs[2..]));
      assert behind[|code| + 1..] == Commands(segs[2..]);
    }
  }

  lemma CompileOneIs(a: Segment)
    requires !a.Text?
    ensures CompileOne(a) == CLOSE_QUOTE + (CodeOf(a) + if a.closed then OPEN_QUOTE else "")
  {
    if a.Echo? { Regroup(ECHO, a.word, if a.closed then OPEN_QUOTE else ""); }
  }

  lemma RegroupScript(text: string, code: string, body: string, end: string)
    ensures PUTS_QUOTE + (text + (CLOSE_QUOTE + (code + OPEN_QUOTE) + body)) + end ==
            PUTS_QUOTE + (text + ("\"" + ("\n" + (code + ("\n" + (PUTS_QUOTE + body + end))))))
  {
  }

  lemma RegroupEnd(text: string, code: string)
    ensures PUTS_QUOTE + (text + (CLOSE_QUOTE + (code + "") + "")) + "" ==
            PUTS_QUOTE + (text + ("\"" + ("\n" + (code + ""))))
    ensures PUTS_QUOTE + (text + "") + CLOSE_QUOTE == PUTS_QUOTE + (text + ("\"" + ("\n" + "")))
  {
  }

  /** Prologue, body and epilogue together are the commands of the segments. */
  lemma {:induction false} CompileIsCommands(segs: seq<Segment>)
    requires Alternating(segs)
    ensures Compile(segs) == Commands(segs)
  {
    var text := Escape(segs[0].text);
    if |segs| == 1 {
      RegroupEnd(text, "");
      assert CompileBody(segs[1..]) == "";
    } else {
      CompileOneIs(segs[1]);
      assert segs[1..][1..] == segs[2..];
      if |segs| == 2 {
        RegroupEnd(text, CodeOf(segs[1]));
        assert CompileBody(segs[2..]) == "";
      } else {
        CompileIsCommands(segs[2..]);
        RegroupScript(text, CodeOf(segs[1]), CompileBody(segs[2..]), if EndsInside(segs) then "" else CLOSE_QUOTE);
      }
    }
  }

  lemma {:induction false} SegmentsAlternate(s: string)
    ensures Alternating(Segments(s))
    decreases |s|
  {
    var r := SplitText(s);
    if r.after.Some? {
      var body := if r.after.value != "" && r.after.value[0] == '=' then r.after.value[1..] else r.after.value;
      var q := SplitCode(body);
      if q.after.Some? {
        SegmentsAlternate(q.after.value);
        assert Segments(s)[2..] == Segments(q.after.value);
      }
    }
  }

  /**
  Compilation preserves meaning: Tcl reads the script of any template as exactly the
  texts, the code and the echoed words its segments consist of.
  */
  lemma MeaningPreserved(inbuf: string)
    ensures Alternating(Segments(inbuf))
    ensures ReadsAs(Compile(Segments(inbuf)), Segments(inbuf))
  {
    SegmentsAlternate(inbuf);
    CompileIsCommands(Segments(inbuf));
    CommandsReadAs(Segments(inbuf));
  }

  // ---- back to the template ----

  function RenderOne(a: Segment): string {
    match a
    case Text(t) => t
    case Code(c, closed) => START_TAG + (c + if closed then END_TAG else "")
    case Echo(c, closed) => START_TAG + ("=" + (c + if closed then END_TAG else ""))
  }

  /** The template that writes the segments down. */
  function Render(segs: seq<Segment>): string {
    if segs == [] then "" else RenderOne(segs[0]) + Render(segs[1..])
  }

  lemma RenderAppend(a: Segment, rest: seq<Segment>)
    ensures Render([a] + rest) == RenderOne(a) + Render(rest)
  {
    assert ([a] + rest)[1..] == rest;
  }

  /** The text contains no start tag that the scanner recognises and leaves nothing undecided. */
  predicate CleanText(t: string) { SplitText(t) == Split(t, None) }

  predicate CleanCode(c: string) { SplitCode(c) == Split(c, None) }

  predicate Clean(a: Segment) {
    match a
    case Text(t) => CleanText(t)
    case Code(c, _) => CleanCode(c) && (c == "" || c[0] != '=')
    case Echo(c, _) => CleanCode(c)
  }

  predicate AllClean(segs: seq<Segment>) { forall i :: 0 <= i < |segs| ==> Clean(segs[i]) }

  /** How many characters one turn of the scanner takes, when it neither stops nor meets the tag. */
  function Turn(s: string, held: char): nat
    requires s != "" && s != [held]
  {
    if s[0] == held then 2 else 1
  }

  lemma TextTurn(s: string)
    requires s != "" && s != "<" && !StartsWith(s, '<', '?')
    ensures var n := Turn(s, '<'); var r := SplitText(s[n..]);
      SplitText(s) == Split(s[..n] + r.taken, r.after)
  {
  }

  lemma CodeTurn(s: string)
    requires s != "" && s != "?" && !StartsWith(s, '?', '>')
    ensures var n := Turn(s, '?'); var r := SplitCode(s[n..]);
      SplitCode(s) == Split(s[..n] + r.taken, r.after)
  {
  }

  lemma AppendCut(t: string, x: string, n: nat)
    requires n <= |t|
    ensures (t + x)[n..] == t[n..] + x && (t + x)[..n] == t[..n] && t[..n] + t[n..] == t
  {
  }

  lemma SameTail(a: string, x: string, y: string)
    requires a + x == a + y
    ensures x == y
  {
    assert (a + x)[|a|..] == x && (a + y)[|a|..] == y;
  }

  /** Clean text is found again in front of a start tag. */
  lemma {:induction false} SplitCleanText(t: string, r: string)
    requires CleanText(t)
    ensures SplitText(t + (START_TAG + r)) == Split(t, Some(r))
  {
    var s := t + (START_TAG + r);
    if t == "" {
      assert s == START_TAG + r && s[2..] == r;
    } else {
      var n := Turn(t, '<');
      TextTurn(t);
      AppendCut(t, START_TAG + r, n);
      SameTail(t[..n], SplitText(t[n..]).taken, t[n..]);
      SplitCleanText(t[n..], r);
      TextTurn(s);
    }
  }

  lemma {:induction false} SplitCleanCode(c: string, r: string)
    requires CleanCode(c)
    ensures SplitCode(c + (END_TAG + r)) == Split(c, Some(r))
  {
    var s := c + (END_TAG + r);
    if c == "" {
      assert s == END_TAG + r && s[2..] == r;
    } else {
      var n := Turn(c, '?');
      CodeTurn(c);
      AppendCut(c, END_TAG + r, n);
      SameTail(c[..n], SplitCode(c[n..]).taken, c[n..]);
      SplitCleanCode(c[n..], r);
      CodeTurn(s);
    }
  }

  lemma TextGrows(x: string, t: string)
    requires ((|x| == 2 && x[0] == '<' && x[1] != '?') || (|x| == 1 && x[0] != '<')) && CleanText(t)
    ensures CleanText(x + t)
  {
    AppendCut(x, t, |x|);
    assert x[|x|..] + t == t;
    TextTurn(x + t);
  }

  lemma CodeGrows(x: string, t: string)
    requires ((|x| == 2 && x[0] == '?' && x[1] != '>') || (|x| == 1 && x[0] != '?')) && CleanCode(t)
    ensures CleanCode(x + t)
  {
    AppendCut(x, t, |x|);
    assert x[|x|..] + t == t;
    CodeTurn(x + t);
  }

  /** What the scanner takes is clean, and with what it leaves it makes up its input, but for one held character. */
  lemma {:induction false} TakenTextIsClean(s: string)
    ensures var r := SplitText(s);
            && CleanText(r.taken)
            && match r.after
               case Some(rest) => s == r.taken + (START_TAG + rest)
               case None => s == r.taken || s == r.taken + "<"
  {
    var r := SplitText(s);
    if s != "" && s != "<" && !StartsWith(s, '<', '?') {
      var n := Turn(s, '<');
      TextTurn(s);
      TakenTextIsClean(s[n..]);
      var r' := SplitText(s[n..]);
      TextGrows(s[..n], r'.taken);
      assert s == s[..n] + s[n..];
      Regroup(s[..n], r'.taken, if r'.after.Some? then START_TAG + r'.after.value else "<");
    }
  }

  lemma {:induction false} TakenCodeIsClean(s: string)
    ensures var r := SplitCode(s);
            && CleanCode(r.taken)
            && match r.after
               case Some(rest) => s == r.taken + (END_TAG + rest)
               case None => s == r.taken || s == r.taken + "?"
  {
    var r := SplitCode(s);
    if s != "" && s != "?" && !StartsWith(s, '?', '>') {
      var n := Turn(s, '?');
      CodeTurn(s);
      TakenCodeIsClean(s[n..]);
      var r' := SplitCode(s[n..]);
      CodeGrows(s[..n], r'.taken);
      assert s == s[..n] + s[n..];
      Regroup(s[..n], r'.taken, if r'.after.Some? then END_TAG + r'.after.value else "?");
    }
  }

  // ---- cleanliness without the scanner ----

  /** How many of the last characters of `s`, one behind the other, are `c`. */
  function Trailing(s: string, c: char): nat {
    if s == "" || s[|s| - 1] != c then 0 else 1 + Trailing(s[..|s| - 1], c)
  }

  /** No run of `c` of odd length stands in front of a `d` or of the end. */
  predicate NoOddRun(s: string, c: char, d: char) {
    forall j :: 0 <= j <= |s| && (j < |s| ==> s[j] == d) ==> Trailing(s[..j], c) % 2 == 0
  }

  /** Taking an even run, or anything that does not end in `c`, off the front changes no parity. */
  lemma {:induction false} TrailingBehind(x: string, s: string, c: char)
    requires Trailing(x, c) % 2 == 0
    ensures Trailing(x + s, c) % 2 == Trailing(s, c) % 2
  {
    if s == "" {
      assert x + s == x;
    } else {
      var n := |s| - 1;
      assert (x + s)[..|x + s| - 1] == x + s[..n];
      TrailingBehind(x, s[..n], c);
    }
  }

  lemma OddRunsBehind(x: string, s: string, c: char, d: char)
    requires Trailing(x, c) % 2 == 0 && forall j :: 0 <= j < |x| && x[j] == d ==> Trailing(x[..j], c) % 2 == 0
    ensures NoOddRun(x + s, c, d) <==> NoOddRun(s, c, d)
  {
    var t := x + s;
    forall j | 0 <= j <= |s| ensures Trailing(t[..|x| + j], c) % 2 == Trailing(s[..j], c) % 2 {
      assert t[..|x| + j] == x + s[..j];
      TrailingBehind(x, s[..j], c);
    }
    assert forall j :: 0 <= j < |x| ==> t[..j] == x[..j] && t[j] == x[j];
    assert forall j :: 0 <= j < |s| ==> t[|x| + j] == s[j];
    if NoOddRun(t, c, d) {
      forall j | 0 <= j <= |s| && (j < |s| ==> s[j] == d) ensures Trailing(s[..j], c) % 2 == 0 {
        assert |x| + j < |t| ==> t[|x| + j] == d;
      }
    }
    if NoOddRun(s, c, d) {
      forall j | 0 <= j <= |t| && (j < |t| ==> t[j] == d) ensures Trailing(t[..j], c) % 2 == 0 {
        if j >= |x| {
          assert Trailing(s[..j - |x|], c) % 2 == 0;
        }
      }
    }
  }

  /** What one turn of the scanner takes: a character that is not held, or the held one with its successor. */
  lemma TurnIsEven(s: string, c: char, d: char)
    requires s != "" && s != [c] && !StartsWith(s, c, d) && c != d
    ensures var x := s[..Turn(s, c)];
      Trailing(x, c) % 2 == 0 && forall j :: 0 <= j < |x| && x[j] == d ==> Trailing(x[..j], c) % 2 == 0
  {
    var x := s[..Turn(s, c)];
    assert Trailing(x[..0], c) == 0 && Trailing("", c) == 0;
    if |x| == 2 {
      assert x[..1] == [c] && [c][..0] == "";
      assert Trailing([c], c) == 1 + Trailing("", c);
      assert x[..|x| - 1] == [c];
      assert x[1] != d;
    } else {
      assert x[0] != c;
    }
  }

  lemma TagIsOdd(s: string, c: char, d: char)
    requires (s == [c] || StartsWith(s, c, d)) && c != d
    ensures !NoOddRun(s, c, d)
  {
    assert s[..1] == [c] && [c][..0] == "";
    assert Trailing(s[..1], c) == 1;
  }

  /** A text is clean exactly when every run of `<` before a `?` or before its end has even length. */
  lemma {:induction false} CleanTextExactly(s: string)
    ensures CleanText(s) <==> NoOddRun(s, '<', '?')
    decreases |s|
  {
    if s == "" {
      assert s[..0] == "";
    } else if s == "<" || StartsWith(s, '<', '?') {
      TagIsOdd(s, '<', '?');
    } else {
      var n := Turn(s, '<');
      TextTurn(s);
      AppendCut(s, "", n);
      TurnIsEven(s, '<', '?');
      OddRunsBehind(s[..n], s[n..], '<', '?');
      CleanTextExactly(s[n..]);
      CleanRest(s, n, SplitText(s[n..]).taken);
    }
  }

  /** Code is clean exactly when every run of `?` before a `>` or before its end has even length. */
  lemma {:induction false} CleanCodeExactly(s: string)
    ensures CleanCode(s) <==> NoOddRun(s, '?', '>')
    decreases |s|
  {
    if s == "" {
      assert s[..0] == "";
    } else if s == "?" || StartsWith(s, '?', '>') {
      TagIsOdd(s, '?', '>');
    } else {
      var n := Turn(s, '?');
      CodeTurn(s);
      AppendCut(s, "", n);
      TurnIsEven(s, '?', '>');
      OddRunsBehind(s[..n], s[n..], '?', '>');
      CleanCodeExactly(s[n..]);
      CleanRest(s, n, SplitCode(s[n..]).taken);
    }
  }

  lemma CleanRest(s: string, n: nat, t: string)
    requires n <= |s|
    ensures s[..n] + t == s <==> t == s[n..]
  {
    assert s[..n] + s[n..] == s;
    if s[..n] + t == s {
      SameTail(s[..n], t, s[n..]);
    }
  }

  /** What follows a start tag in the rendering of a code or echo segment and its successors. */
  function AfterStartTag(a: Segment, rest: string): string
    requires !a.Text?
  {
    if a.Code? then a.code + (if a.closed then END_TAG + rest else rest)
    else "=" + (a.word + (if a.closed then END_TAG + rest else rest))
  }

  lemma RenderCode(a: Segment, rest: string)
    requires !a.Text?
    ensures RenderOne(a) + rest == START_TAG + AfterStartTag(a, rest)
  {
    var body, end := if a.Code? then a.code else a.word, if a.closed then END_TAG else "";
    Regroup(body, end, rest);
    Regroup("=", body + end, rest);
    Regroup(START_TAG, body + end, rest);
    Regroup(START_TAG, "=" + (body + end), rest);
    assert "" + rest == rest;
  }

  lemma CodeSegmentsOf(a: Segment, rest: string)
    requires !a.Text? && Clean(a) && (!a.closed ==> rest == "")
    ensures CodeSegments(AfterStartTag(a, rest)) == [a] + if a.closed then Segments(rest) else []
  {
    var s := AfterStartTag(a, rest);
    var body := if a.Code? then a.code else a.word;
    var tail := body + (if a.closed then END_TAG + rest else rest);
    if a.closed {
      SplitCleanCode(body, rest);
    } else {
      assert body + "" == body;
    }
    if a.Echo? {
      assert s[0] == '=' && s[1..] == tail;
    } else if body != "" {
      assert s[0] == body[0];
    }
  }

  lemma {:induction false} ParseOfRender(segs: seq<Segment>)
    requires Alternating(segs) && AllClean(segs)
    ensures Segments(Render(segs)) == segs
    decreases |segs|
  {
    var t := segs[0].text;
    assert Clean(segs[0]);
    if |segs| == 1 {
      assert Render(segs) == t + "" == t;
      assert segs == [Text(t)];
    } else {
      var a, rest := segs[1], Render(segs[2..]);
      assert Clean(a);
      assert segs[1..][1..] == segs[2..];
      RenderCode(a, rest);
      SplitCleanText(t, AfterStartTag(a, rest));
      assert Render(segs) == t + (START_TAG + AfterStartTag(a, rest));
      CodeSegmentsOf(a, rest);
      if a.closed {
        ParseOfRender(segs[2..]);
        assert segs == [Text(t)] + ([a] + segs[2..]);
      } else {
        assert segs == [Text(t)] + ([a] + []);
      }
    }
  }

  /** The character the scanner may hold back at the end of its input. */
  function HeldAtEnd(segs: seq<Segment>): string { if EndsInside(segs) then "?" else "<" }

  /** A character missing at the end of the rest is missing at the end of the whole. */
  lemma HeldGoesLast(t: string, a: Segment, rest: string, held: string, whole: string)
    requires !a.Text? && (whole == rest || whole == rest + held)
    ensures var head := t + (START_TAG + AfterStartTag(a, rest));
            var full := t + (START_TAG + AfterStartTag(a, whole));
            full == head || full == head + held
  {
    var body := if a.Code? then a.code else a.word;
    if whole != rest {
      var inner := if a.closed then END_TAG + rest else rest;
      Regroup(END_TAG, rest, held);
      Regroup(body, inner, held);
      Regroup("=", body + inner, held);
      Regroup(START_TAG, AfterStartTag(a, rest), held);
      Regroup(t, START_TAG + AfterStartTag(a, rest), held);
    }
  }

  /** The first segment behind a start tag: clean, and written where it was found. */
  lemma FirstCodeSegment(s: string) returns (a: Segment, rest: string)
    ensures !a.Text? && Clean(a)
    ensures a.closed ==> |rest| < |s| && s == AfterStartTag(a, rest) && CodeSegments(s) == [a] + Segments(rest)
    ensures !a.closed ==> CodeSegments(s) == [a] && (s == AfterStartTag(a, "") || s == AfterStartTag(a, "") + "?")
  {
    var echo := s != "" && s[0] == '=';
    var body := if echo then s[1..] else s;
    var q := SplitCode(body);
    TakenCodeIsClean(body);
    assert echo ==> s == "=" + body;
    rest := if q.after.Some? then q.after.value else "";
    if echo {
      a := Echo(q.taken, q.after.Some?);
    } else {
      a := Code(q.taken, q.after.Some?);
      if q.taken != "" { assert q.taken[0] == s[0]; }
    }
    if !a.closed {
      WithoutEndTag(a);
      if echo { Regroup("=", q.taken, "?"); }
      assert [a] + [] == [a];
    }
  }

  lemma WithoutEndTag(a: Segment)
    requires !a.Text? && !a.closed
    ensures AfterStartTag(a, "") == if a.Code? then a.code else "=" + a.word
  {
    assert (if a.Code? then a.code else a.word) + "" == if a.Code? then a.code else a.word;
  }

  lemma {:induction false} SegmentsAreClean(s: string)
    ensures AllClean(Segments(s))
    decreases |s|
  {
    var r := SplitText(s);
    TakenTextIsClean(s);
    if r.after.Some? {
      var a, rest := FirstCodeSegment(r.after.value);
      if a.closed {
        SegmentsAreClean(rest);
      }
    }
  }

  /** The segments write the template down again, except for one undecided delimiter character at its very end. */
  lemma {:induction false} RenderOfParse(s: string)
    ensures s == Render(Segments(s)) || s == Render(Segments(s)) + HeldAtEnd(Segments(s))
    decreases |s|
  {
    var segs, r := Segments(s), SplitText(s);
    TakenTextIsClean(s);
    if r.after.None? {
      assert Render(segs) == r.taken + "" == r.taken;
    } else {
      var u := r.after.value;
      var a, rest := FirstCodeSegment(u);
      RenderAppend(Text(r.taken), CodeSegments(u));
      if a.closed {
        RenderOfParse(rest);
        RenderAppend(a, Segments(rest));
        RenderCode(a, Render(Segments(rest)));
        assert EndsInside(segs) == EndsInside(Segments(rest)) by { LastOfAll(Text(r.taken), a, Segments(rest)); }
        HeldGoesLast(r.taken, a, Render(Segments(rest)), HeldAtEnd(segs), rest);
      } else {
        RenderAppend(a, []);
        assert [a] + [] == [a];
        RenderCode(a, "");
        Regroup(START_TAG, AfterStartTag(a, ""), "?");
        Regroup(r.taken, START_TAG + AfterStartTag(a, ""), "?");
      }
    }
  }

  lemma LastOfAll(a: Segment, b: Segment, rest: seq<Segment>)
    requires rest != []
    ensures EndsInside([a] + ([b] + rest)) == EndsInside(rest)
  {
  }

  /** No run of tag characters in the segment would be taken for a tag. */
  predicate FreeOfTags(a: Segment) {
    match a
    case Text(t) => NoOddRun(t, '<', '?')
    case Code(c, _) => NoOddRun(c, '?', '>') && (c == "" || c[0] != '=')
    case Echo(c, _) => NoOddRun(c, '?', '>')
  }

  lemma CleanIsFreeOfTags(a: Segment)
    ensures Clean(a) <==> FreeOfTags(a)
  {
    match a
    case Text(t) => CleanTextExactly(t);
    case Code(c, _) => CleanCodeExactly(c);
    case Echo(c, _) => CleanCodeExactly(c);
  }

  /** Exactly which segment lists survive being written down and parsed. */
  lemma RoundTripExactly(segs: seq<Segment>)
    ensures Segments(Render(segs)) == segs
      <==> Alternating(segs) && forall i :: 0 <= i < |segs| ==> FreeOfTags(segs[i])
  {
    forall i | 0 <= i < |segs| ensures Clean(segs[i]) <==> FreeOfTags(segs[i]) {
      CleanIsFreeOfTags(segs[i]);
    }
    if Segments(Render(segs)) == segs {
      SegmentsAlternate(Render(segs));
      SegmentsAreClean(Render(segs));
    } else if Alternating(segs) && AllClean(segs) {
      ParseOfRender(segs);
    }
  }

  /** The tag quirk: a `<` in front of a start tag hides it. */
  lemma DoubledLessHidesTheTag()
    ensures Segments("<<?") == [Text("<<?")]
    ensures Segments("<?") == [Text(""), Code("", false)]
  {
    assert "<<?"[2..] == "?" && "?"[1..] == "" && "<?"[2..] == "";
    assert SplitText("?") == Split("?", None);
    assert "<<?"[..2] + "?" == "<<?";
    assert SplitText("<<?") == Split("<<?", None);
    assert SplitText("<?") == Split("", Some(""));
  }
}
