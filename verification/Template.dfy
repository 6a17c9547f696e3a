/**
The .rvt template compiler: a streaming scanner that turns a template into a Tcl
script. Text between tags becomes the argument of a `puts -nonewline "..."` command,
text inside `<? ?>` is copied as code, and `<?=` prints the value of one word.

Characters are the characters of the Tcl string; the scanner's own tests only look
at ASCII characters, so its byte pointer steps over whole characters.
*/
module Template {
  import opened Prelude

  const PUTS_QUOTE := "puts -nonewline \""     // prologue
  const CLOSE_QUOTE := "\"\n"                  // text ends
  const OPEN_QUOTE := "\nputs -nonewline \""   // code ends, text begins
  const ECHO := "\nputs -nonewline "           // `=` right after the start tag

  const START_TAG := "<?"
  const END_TAG := "?>"

  /** The characters that a Tcl double-quoted word treats specially, and the braces. */
  predicate Escaped(c: char) {
    c == '{' || c == '}' || c == '$' || c == '[' || c == ']' || c == '"' || c == '\\'
  }

  function EscapeChar(c: char): string { if Escaped(c) then ['\\', c] else [c] }

  function Escape(t: string): string {
    if t == "" then "" else EscapeChar(t[0]) + Escape(t[1..])
  }

  // ---- what a template is made of ----

  /** `closed` tells whether the end tag is there; only the last segment can lack it. */
  datatype Segment = Text(text: string) | Code(code: string, closed: bool) | Echo(word: string, closed: bool)

  /** A stretch of the template and, if a tag ended it, what comes after that tag. */
  datatype Split = Split(taken: string, after: Option<string>)

  predicate StartsWith(s: string, c: char, d: char) { |s| >= 2 && s[0] == c && s[1] == d }

  /**
  Text up to a start tag or the end. A `<` takes the character after it along unless the
  two are a tag, so `<<?` is no tag; a `<` at the very end is dropped as undecided.
  */
  function SplitText(s: string): (r: Split)
    ensures r.after.Some? ==> |r.after.value| < |s|
  {
    if s == "" || s == "<" then Split("", None)
    else if StartsWith(s, '<', '?') then Split("", Some(s[2..]))
    else if s[0] == '<' then var r := SplitText(s[2..]); r.(taken := s[..2] + r.taken)
    else var r := SplitText(s[1..]); r.(taken := s[..1] + r.taken)
  }

  /** The same for code, where `?` is the character to watch. */
  function SplitCode(s: string): (r: Split)
    ensures r.after.Some? ==> |r.after.value| < |s|
  {
    if s == "" || s == "?" then Split("", None)
    else if StartsWith(s, '?', '>') then Split("", Some(s[2..]))
    else if s[0] == '?' then var r := SplitCode(s[2..]); r.(taken := s[..2] + r.taken)
    else var r := SplitCode(s[1..]); r.(taken := s[..1] + r.taken)
  }

  /** The segments of a template that stands outside any tag at its beginning. */
  function Segments(s: string): (segs: seq<Segment>)
    ensures segs != [] && segs[0].Text?
    decreases |s|, 1
  {
    var r := SplitText(s);
    [Text(r.taken)] + if r.after.Some? then CodeSegments(r.after.value) else []
  }

  /** The segments of what follows a start tag. */
  function CodeSegments(s: string): (segs: seq<Segment>)
    ensures segs != [] && !segs[0].Text?
    decreases |s|, 0
  {
    var echo := s != "" && s[0] == '=';
    var r := SplitCode(if echo then s[1..] else s);
    [if echo then Echo(r.taken, r.after.Some?) else Code(r.taken, r.after.Some?)]
    + if r.after.Some? then Segments(r.after.value) else []
  }

  /** What one segment contributes to the script. */
  function CompileOne(a: Segment): string {
    match a
    case Text(t) => Escape(t)
    case Code(c, closed) => CLOSE_QUOTE + (c + if closed then OPEN_QUOTE else "")
    case Echo(c, closed) => CLOSE_QUOTE + (ECHO + (c + if closed then OPEN_QUOTE else ""))
  }

  /** The script for the segments, from the first text on. */
  function CompileBody(segs: seq<Segment>): string {
    if segs == [] then "" else CompileOne(segs[0]) + CompileBody(segs[1..])
  }

  predicate EndsInside(segs: seq<Segment>) { segs != [] && !segs[|segs| - 1].Text? }

  /** The whole script: prologue, body, and the closing quote when the template ends in text. */
  function Compile(segs: seq<Segment>): string {
    PUTS_QUOTE + CompileBody(segs) + if EndsInside(segs) then "" else CLOSE_QUOTE
  }

  // ---- the scanner ----

  /** The part of a segment the scanner holds back when `p` characters of a tag have matched. */
  function Held(inside: bool, p: nat): string { if p == 0 then "" else if inside then "?" else "<" }

  /** The script for a stretch of text and everything behind it. */
  function TextScript(r: Split): string {
    Escape(r.taken) + if r.after.Some? then CLOSE_QUOTE + AfterTag(r.after.value) else ""
  }

  /** The script for what follows a start tag, without the quote that closed the text before it. */
  function AfterTag(s: string): string {
    if s != "" && s[0] == '=' then ECHO + CodeScript(SplitCode(s[1..])) else CodeScript(SplitCode(s))
  }

  /** The script for a stretch of code and everything behind it. */
  function CodeScript(r: Split): string {
    r.taken + if r.after.Some? then OPEN_QUOTE + CompileBody(Segments(r.after.value)) else ""
  }

  predicate TextEndsInside(r: Split) { r.after.Some? && TagEndsInside(r.after.value) }

  predicate TagEndsInside(s: string) {
    CodeEndsInside(SplitCode(if s != "" && s[0] == '=' then s[1..] else s))
  }

  predicate CodeEndsInside(r: Split) { r.after.None? || EndsInside(Segments(r.after.value)) }

  lemma CompileAppend(a: Segment, rest: seq<Segment>)
    ensures CompileBody([a] + rest) == CompileOne(a) + CompileBody(rest)
    ensures EndsInside([a] + rest) == EndsInside(if rest != [] then rest else [a])
  {
    assert ([a] + rest)[1..] == rest;
  }

  lemma CompileCode(s: string)
    ensures CompileBody(CodeSegments(s)) == CLOSE_QUOTE + AfterTag(s)
    ensures EndsInside(CodeSegments(s)) == TagEndsInside(s)
  {
    var echo := s != "" && s[0] == '=';
    var r := SplitCode(if echo then s[1..] else s);
    var a := if echo then Echo(r.taken, r.after.Some?) else Code(r.taken, r.after.Some?);
    var rest := if r.after.Some? then Segments(r.after.value) else [];
    CompileAppend(a, rest);
    var open, body := if r.after.Some? then OPEN_QUOTE else "", CompileBody(rest);
    Regroup(r.taken, open, body);
    Regroup(ECHO, r.taken + open, body);
    Regroup(CLOSE_QUOTE, r.taken + open, body);
    Regroup(CLOSE_QUOTE, ECHO + (r.taken + open), body);
  }

  lemma CompileText(s: string)
    ensures CompileBody(Segments(s)) == TextScript(SplitText(s))
    ensures EndsInside(Segments(s)) == TextEndsInside(SplitText(s))
  {
    var r := SplitText(s);
    CompileAppend(Text(r.taken), if r.after.Some? then CodeSegments(r.after.value) else []);
    if r.after.Some? { CompileCode(r.after.value); }
  }

  /** Script still to come for the rest `s` of the input, in the scanner state (inside, p, checkEcho). */
  function Remaining(s: string, inside: bool, p: nat, checkEcho: bool): string {
    if !inside then TextScript(SplitText(Held(inside, p) + s))
    else if checkEcho then AfterTag(s)
    else CodeScript(SplitCode(Held(inside, p) + s))
  }

  /** Whether the scanner will end inside a tag. */
  predicate EndsUp(s: string, inside: bool, p: nat, checkEcho: bool) {
    if !inside then TextEndsInside(SplitText(Held(inside, p) + s))
    else if checkEcho then TagEndsInside(s)
    else CodeEndsInside(SplitCode(Held(inside, p) + s))
  }

  lemma {:induction false} EscapeAppend(a: string, b: string)
    ensures Escape(a + b) == Escape(a) + Escape(b)
  {
    if a == "" {
      assert a + b == b;
    } else {
      assert (a + b)[1..] == a[1..] + b;
      EscapeAppend(a[1..], b);
    }
  }

  /** A tag character that matches outside the tags. */
  lemma StartMatches(s: string, p: nat)
    requires s != "" && p <= 1 && s[0] == START_TAG[p]
    ensures p == 0 ==>
              && Remaining(s, false, 0, false) == Remaining(s[1..], false, 1, false)
              && EndsUp(s, false, 0, false) == EndsUp(s[1..], false, 1, false)
    ensures p == 1 ==>
              && Remaining(s, false, 1, false) == CLOSE_QUOTE + Remaining(s[1..], true, 0, true)
              && EndsUp(s, false, 1, false) == EndsUp(s[1..], true, 0, true)
  {
    if p == 0 {
      assert Held(false, 1) + s[1..] == s == Held(false, 0) + s;
    } else {
      var u := Held(false, 1) + s;
      assert StartsWith(u, '<', '?') && u[2..] == s[1..];
    }
  }

  /** Any other character outside the tags: what was held back and the character go into the text. */
  lemma TextContinues(s: string, p: nat)
    requires s != "" && p <= 1 && s[0] != START_TAG[p]
    ensures Remaining(s, false, p, false) == START_TAG[..p] + EscapeChar(s[0]) + Remaining(s[1..], false, 0, false)
    ensures EndsUp(s, false, p, false) == EndsUp(s[1..], false, 0, false)
  {
    var u := Held(false, p) + s;
    assert Held(false, 0) + s[1..] == s[1..] && u[p + 1..] == s[1..];
    var r := SplitText(s[1..]);
    assert u[..p + 1] == START_TAG[..p] + [s[0]];
    assert SplitText(u) == r.(taken := u[..p + 1] + r.taken);
    EscapeAppend(u[..p + 1], r.taken);
    EscapeAppend(START_TAG[..p], [s[0]]);
    assert Escape([s[0]]) == EscapeChar(s[0]);
    assert p == 1 ==> START_TAG[..p] == "<" && Escape("<") == "<";
    assert p == 0 ==> START_TAG[..p] == "";
    Regroup(Escape(u[..p + 1]), Escape(r.taken), if r.after.Some? then CLOSE_QUOTE + AfterTag(r.after.value) else "");
  }

  lemma EndMatches(s: string, p: nat)
    requires s != "" && p <= 1 && s[0] == END_TAG[p]
    ensures p == 0 ==>
              && Remaining(s, true, 0, false) == Remaining(s[1..], true, 1, false)
              && EndsUp(s, true, 0, false) == EndsUp(s[1..], true, 1, false)
    ensures p == 1 ==>
              && Remaining(s, true, 1, false) == OPEN_QUOTE + Remaining(s[1..], false, 0, false)
              && EndsUp(s, true, 1, false) == EndsUp(s[1..], false, 0, false)
  {
    if p == 0 {
      assert Held(true, 1) + s[1..] == s == Held(true, 0) + s;
    } else {
      var u := Held(true, 1) + s;
      assert StartsWith(u, '?', '>') && u[2..] == s[1..] == Held(false, 0) + s[1..];
      CompileText(s[1..]);
    }
  }

  lemma CodeContinues(s: string, p: nat)
    requires s != "" && p <= 1 && s[0] != END_TAG[p]
    ensures Remaining(s, true, p, false) == END_TAG[..p] + [s[0]] + Remaining(s[1..], true, 0, false)
    ensures EndsUp(s, true, p, false) == EndsUp(s[1..], true, 0, false)
  {
    var u := Held(true, p) + s;
    assert Held(true, 0) + s[1..] == s[1..] && u[p + 1..] == s[1..];
    var r := SplitCode(s[1..]);
    assert u[..p + 1] == END_TAG[..p] + [s[0]];
    assert SplitCode(u) == r.(taken := u[..p + 1] + r.taken);
    Regroup(u[..p + 1], r.taken, if r.after.Some? then OPEN_QUOTE + CompileBody(Segments(r.after.value)) else "");
  }

  /** The test for `=` behind a start tag. */
  lemma EchoTest(s: string)
    requires s != ""
    ensures s[0] == '=' ==>
              && Remaining(s, true, 0, true) == ECHO + Remaining(s[1..], true, 0, false)
              && EndsUp(s, true, 0, true) == EndsUp(s[1..], true, 0, false)
    ensures s[0] != '=' ==>
              && Remaining(s, true, 0, true) == Remaining(s, true, 0, false)
              && EndsUp(s, true, 0, true) == EndsUp(s, true, 0, false)
  {
    assert Held(true, 0) + s == s && Held(true, 0) + s[1..] == s[1..];
  }

  /** At the end of the input nothing more comes; a held character is dropped. */
  lemma AtEnd(inside: bool, p: nat, checkEcho: bool)
    requires p <= 1
    ensures Remaining("", inside, p, checkEcho) == "" && EndsUp("", inside, p, checkEcho) == inside
  {
    assert Held(inside, p) + "" == Held(inside, p);
  }

  /** What the scanner still appends, and whether it ends inside a tag. */
  datatype Scan = Scan(out: string, inside: bool)

  function Emit(text: string, r: Scan): Scan { r.(out := text + r.out) }

  /** The scanner as a function of its state and of the rest of its input. */
  function Scanned(s: string, inside: bool, p: nat, checkEcho: bool): Scan
    requires p <= 1
  {
    if s == "" then Scan("", inside)
    else if !inside then
      if s[0] != START_TAG[p] then Emit(START_TAG[..p] + EscapeChar(s[0]), Scanned(s[1..], false, 0, false))
      else if p == 0 then Scanned(s[1..], false, 1, false)
      else Emit(CLOSE_QUOTE, Scanned(s[1..], true, 0, true))
    else if checkEcho && s[0] == '=' then Emit(ECHO, Scanned(s[1..], true, 0, false))
    else if s[0] != END_TAG[p] then Emit(END_TAG[..p] + [s[0]], Scanned(s[1..], true, 0, false))
    else if p == 0 then Scanned(s[1..], true, 1, false)
    else Emit(OPEN_QUOTE, Scanned(s[1..], false, 0, false))
  }

  /** The character-by-character scanner does what the division into segments says. */
  lemma {:induction false} ScannerFollowsSegments(s: string, inside: bool, p: nat, checkEcho: bool)
    requires p <= 1 && (checkEcho ==> inside && p == 0)
    ensures Scanned(s, inside, p, checkEcho) ==
            Scan(Remaining(s, inside, p, checkEcho), EndsUp(s, inside, p, checkEcho))
  {
    if s == "" {
      AtEnd(inside, p, checkEcho);
    } else if !inside {
      if s[0] != START_TAG[p] {
        TextContinues(s, p);
        ScannerFollowsSegments(s[1..], false, 0, false);
      } else {
        StartMatches(s, p);
        if p == 0 { ScannerFollowsSegments(s[1..], false, 1, false); }
        else { ScannerFollowsSegments(s[1..], true, 0, true); }
      }
    } else {
      if checkEcho { EchoTest(s); }
      if checkEcho && s[0] == '=' {
        ScannerFollowsSegments(s[1..], true, 0, false);
      } else if s[0] != END_TAG[p] {
        CodeContinues(s, p);
        ScannerFollowsSegments(s[1..], true, 0, false);
      } else {
        EndMatches(s, p);
        if p == 0 { ScannerFollowsSegments(s[1..], true, 1, false); }
        else { ScannerFollowsSegments(s[1..], false, 0, false); }
      }
    }
  }

  lemma ScannerCompiles(s: string)
    ensures Scanned(s, false, 0, false) == Scan(CompileBody(Segments(s)), EndsInside(Segments(s)))
  {
    ScannerFollowsSegments(s, false, 0, false);
    CompileText(s);
    assert Held(false, 0) + s == s;
  }

  /** `Rivet_Parser`: appends the body of the script to `outbuf` and tells whether it ended inside a tag. */
  method Parser(outbuf: string, inbuf: string) returns (out: string, inside: bool)
    ensures out == outbuf + CompileBody(Segments(inbuf))
    ensures inside == EndsInside(Segments(inbuf))
  {
    out := outbuf;
    inside := false;
    var p := 0;
    var checkEcho := false;
    var next := 0;
    ghost var goal := Scanned(inbuf, false, 0, false);
    assert inbuf[0..] == inbuf;
    while next < |inbuf|
      invariant 0 <= next <= |inbuf| && 0 <= p <= 1 && (checkEcho ==> inside && p == 0)
      invariant Emit(out, Scanned(inbuf[next..], inside, p, checkEcho)) == Emit(outbuf, goal)
    {
      var cur := inbuf[next];
      ghost var was, s := out, inbuf[next..];
      assert s[0] == cur && s[1..] == inbuf[next + 1..];
      next := next + 1;
      if !inside {
        if cur == START_TAG[p] {
          p := p + 1;
          if p == |START_TAG| {
            out := out + CLOSE_QUOTE;
            inside := true;
            checkEcho := true;
            p := 0;
            EmitTwice(was, CLOSE_QUOTE, Scanned(s[1..], inside, p, checkEcho));
            continue;
          }
        } else {
          assert START_TAG[..0] + EscapeChar(cur) == EscapeChar(cur);
          Regroup(was, START_TAG[..p], EscapeChar(cur));
          EmitTwice(was, START_TAG[..p] + EscapeChar(cur), Scanned(s[1..], false, 0, false));
          if p > 0 {
            out := out + START_TAG[..p];
            p := 0;
          }
          out := out + EscapeChar(cur);
          continue;
        }
      } else {
        if checkEcho {
          checkEcho := false;
          if cur == '=' {
            out := out + ECHO;
            EmitTwice(was, ECHO, Scanned(s[1..], true, 0, false));
            continue;
          }
        }
        if cur == END_TAG[p] {
          p := p + 1;
          if p == |END_TAG| {
            out := out + OPEN_QUOTE;
            inside := false;
            p := 0;
            EmitTwice(was, OPEN_QUOTE, Scanned(s[1..], false, 0, false));
          }
        } else {
          assert END_TAG[..0] + [cur] == [cur];
          Regroup(was, END_TAG[..p], [cur]);
          EmitTwice(was, END_TAG[..p] + [cur], Scanned(s[1..], true, 0, false));
          if p > 0 {
            out := out + END_TAG[..p];
            p := 0;
          }
          out := out + [cur];
        }
      }
    }
    assert inbuf[next..] == "" && out + "" == out;
    ScannerCompiles(inbuf);
  }

  lemma EmitTwice(a: string, b: string, r: Scan)
    ensures Emit(a + b, r) == Emit(a, Emit(b, r))
  {
    Regroup(a, b, r.out);
  }

  /** `Rivet_GetRivetFileEncoding` on the contents of the file: the script that will be evaluated. */
  method CompileTemplate(inbuf: string) returns (script: string)
    ensures script == Compile(Segments(inbuf))
  {
    script := PUTS_QUOTE;
    var inside;
    script, inside := Parser(script, inbuf);
    if !inside {
      script := script + CLOSE_QUOTE;
    }
  }
}
