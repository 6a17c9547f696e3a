/** What a compiled template puts on the page. */
module TemplateOutput {
  import opened Prelude
  import opened Template
  import opened TemplateMeaning

  /** Tcl's `puts`, up to its word: it ends what it prints with a newline unless told not to. */
  datatype Puts = Puts(newline: bool, word: string)

  /** The command a script begins with, if it is a `puts` to the page. */
  function ReadPuts(script: string): Option<Puts> {
    if "puts -nonewline " <= script then Some(Puts(false, script[|"puts -nonewline "|..]))
    else if "puts " <= script then Some(Puts(true, script[|"puts "|..]))
    else None
  }

  /** What a `puts` prints for a word of this value. */
  function Printed(p: Puts, value: string): string { value + if p.newline then "\n" else "" }

  /**
  What the script prints when its commands are, in turn, a `puts` of a double-quoted word and the
  next segment of code. `values` holds, for each stretch of code, what it prints, and for each
  echoed word its value at that time. None if the script does not have that form.
  */
  function Page(script: string, segs: seq<Segment>, values: seq<string>): Option<string>
    requires Alternating(segs) && |values| == |segs| / 2
    decreases |segs|, 1
  {
    match ReadPuts(script)
    case None => None
    case Some(p) =>
      if !("\"" <= p.word) then None
      else
        match ReadQuoted(p.word[1..])
        case Closed(text, rest) =>
          if !("\n" <= rest) || (|segs| == 1 && rest != "\n") then None
          else if |segs| == 1 then Some(Printed(p, text))
          else Behind(Printed(p, text), PageOfCode(rest[1..], segs, values))
        case _ => None
  }

  function PageOfCode(script: string, segs: seq<Segment>, values: seq<string>): Option<string>
    requires Alternating(segs) && |segs| > 1 && |values| == |segs| / 2
    decreases |segs|, 0
  {
    match segs[1]
    case Code(code, _) =>
      if code <= script then PageAfter(values[0], script[|code|..], segs, values) else None
    case Echo(word, _) =>
      if !("\n" <= script) then None
      else
        match ReadPuts(script[1..])
        case None => None
        case Some(p) =>
          if word <= p.word then PageAfter(Printed(p, values[0]), p.word[|word|..], segs, values) else None
  }

  /** Behind a segment of code stands the end of the script, or a newline and the next commands. */
  function PageAfter(printed: string, rest: string, segs: seq<Segment>, values: seq<string>): Option<string>
    requires Alternating(segs) && |segs| > 1 && |values| == |segs| / 2
    decreases |segs|, -1
  {
    if |segs| == 2 then if rest == "" then Some(printed) else None
    else if "\n" <= rest then Behind(printed, Page(rest[1..], segs[2..], values[1..]))
    else None
  }

  function Behind(first: string, rest: Option<string>): Option<string> {
    match rest
    case None => None
    case Some(s) => Some(first + s)
  }

  /** The texts, what the code prints and the echoed values, in turn, and nothing else. */
  function Wanted(segs: seq<Segment>, values: seq<string>): string
    requires Alternating(segs) && |values| == |segs| / 2
  {
    segs[0].text
    + if |segs| == 1 then ""
      else values[0] + if |segs| == 2 then "" else Wanted(segs[2..], values[1..])
  }

  // ---- reading the commands ----

  lemma ReadsNoNewline(word: string)
    ensures ReadPuts("puts -nonewline " + word) == Some(Puts(false, word))
  {
    assert ("puts -nonewline " + word)[|"puts -nonewline "|..] == word;
  }

  /** The `puts` of a text: what it prints and what stands behind it. */
  lemma TextPrints(t: string, rest: string)
    ensures var s := PUTS_QUOTE + (Escape(t) + ("\"" + rest));
      && ReadPuts(s) == Some(Puts(false, "\"" + (Escape(t) + ("\"" + rest))))
      && ReadQuoted(Escape(t) + ("\"" + rest)) == Closed(t, rest)
  {
    var word := Escape(t) + ("\"" + rest);
    assert PUTS_QUOTE == "puts -nonewline " + "\"";
    Regroup("puts -nonewline ", "\"", word);
    ReadsNoNewline("\"" + word);
    TextReadsBack(t, rest);
  }

  /** The `puts` of an echoed word. */
  lemma EchoPrints(word: string, rest: string)
    ensures var s := CodeOf(Echo(word, true)) + rest;
      && "\n" <= s && ReadPuts(s[1..]) == Some(Puts(false, word + rest)) && (word + rest)[|word|..] == rest
  {
    assert ECHO == "\n" + "puts -nonewline ";
    Regroup(ECHO, word, rest);
    Regroup("\n", "puts -nonewline ", word + rest);
    ReadsNoNewline(word + rest);
    var s := CodeOf(Echo(word, true)) + rest;
    assert s == "\n" + ("puts -nonewline " + (word + rest));
    assert s[1..] == "puts -nonewline " + (word + rest);
  }

  lemma CodePrints(segs: seq<Segment>, values: seq<string>, rest: string)
    requires Alternating(segs) && |segs| > 1 && |values| == |segs| / 2
    ensures PageOfCode(CodeOf(segs[1]) + rest, segs, values) == PageAfter(values[0], rest, segs, values)
  {
    match segs[1]
    case Code(code, _) => assert (code + rest)[|code|..] == rest;
    case Echo(word, _) =>
      EchoPrints(word, rest);
      assert Printed(Puts(false, word + rest), values[0]) == values[0];
  }

  /** What stands behind a text. */
  function Tail(segs: seq<Segment>): string
    requires Alternating(segs)
  {
    if |segs| == 1 then ""
    else CodeOf(segs[1]) + if |segs| == 2 then "" else "\n" + Commands(segs[2..])
  }

  lemma TailIsRead(segs: seq<Segment>, values: seq<string>)
    requires Alternating(segs) && |values| == |segs| / 2
    ensures var page := Page(Commands(segs), segs, values);
      page == if |segs| == 1 then Some(segs[0].text)
              else Behind(segs[0].text, PageOfCode(Tail(segs), segs, values))
  {
    TextPrints(segs[0].text, "\n" + Tail(segs));
    var word := Escape(segs[0].text) + ("\"" + ("\n" + Tail(segs)));
    assert ("\"" + word)[1..] == word && ("\n" + Tail(segs))[1..] == Tail(segs);
    assert Printed(Puts(false, "\"" + word), segs[0].text) == segs[0].text;
  }

  lemma {:induction false} CommandsPrint(segs: seq<Segment>, values: seq<string>)
    requires Alternating(segs) && |values| == |segs| / 2
    ensures Page(Commands(segs), segs, values) == Some(Wanted(segs, values))
  {
    TailIsRead(segs, values);
    if |segs| == 1 {
      assert segs[0].text + "" == segs[0].text;
    } else if |segs| == 2 {
      CodePrints(segs, values, "");
      assert CodeOf(segs[1]) + "" == Tail(segs) && values[0] + "" == values[0];
    } else {
      CommandsPrint(segs[2..], values[1..]);
      CodePrints(segs, values, "\n" + Commands(segs[2..]));
      assert ("\n" + Commands(segs[2..]))[1..] == Commands(segs[2..]);
    }
  }

  /**
  The page: running the script of any template prints its texts, what its code prints and the
  values of its echoed words, in order, with nothing added, whatever those values are.
  */
  lemma PageIsPrinted(inbuf: string, values: seq<string>)
    requires |values| == |Segments(inbuf)| / 2
    ensures Alternating(Segments(inbuf))
    ensures Page(Compile(Segments(inbuf)), Segments(inbuf), values) == Some(Wanted(Segments(inbuf), values))
  {
    SegmentsAlternate(inbuf);
    CompileIsCommands(Segments(inbuf));
    CommandsPrint(Segments(inbuf), values);
  }

  /** The characters escaped in a text. */
  lemma EscapedExactly(c: char)
    ensures EscapeChar(c) == if c in "{}$[]\"\\" then "\\" + [c] else [c]
  {
  }
}
