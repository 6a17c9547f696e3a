/** Splitting a form into parameters (apache_request.c) and the round trip with escape_string (rivetWWW.c). */
module FormCoding {

  import opened Prelude
  import opened Bytes
  import opened UrlCoding
  import opened WwwStrings

  const AMPERSAND: Byte := 38
  const SEMICOLON: Byte := 59
  const EQUALS: Byte := 61

  predicate IsSeparator(b: Byte) { b == SEMICOLON || b == AMPERSAND }

  predicate InWord(b: Byte) { !IsSeparator(b) }

  predicate IsEquals(b: Byte) { b == EQUALS }

  predicate InKey(b: Byte) { b != EQUALS }

  function TakeWhile(s: seq<Byte>, p: Byte -> bool): seq<Byte> {
    if s == [] || !p(s[0]) then [] else [s[0]] + TakeWhile(s[1..], p)
  }

  function DropWhile(s: seq<Byte>, p: Byte -> bool): (t: seq<Byte>)
    ensures |t| <= |s| && (t != [] ==> !p(t[0]))
  {
    if s == [] || !p(s[0]) then s else DropWhile(s[1..], p)
  }

  lemma {:induction false} TakeThenDrop(s: seq<Byte>, p: Byte -> bool)
    ensures TakeWhile(s, p) + DropWhile(s, p) == s
    ensures NoNul(s) ==> NoNul(TakeWhile(s, p)) && NoNul(DropWhile(s, p))
  {
    if s != [] && p(s[0]) {
      TakeThenDrop(s[1..], p);
      assert s == [s[0]] + s[1..];
    }
  }

  /** Taking and dropping are fixed by where the run ends. */
  lemma {:induction false} RunOf(a: seq<Byte>, b: seq<Byte>, p: Byte -> bool)
    requires forall x :: x in a ==> p(x)
    requires b != [] ==> !p(b[0])
    ensures TakeWhile(a + b, p) == a && DropWhile(a + b, p) == b
  {
    if a == [] {
      assert a + b == b;
    } else {
      assert (a + b)[1..] == a[1..] + b;
      RunOf(a[1..], b, p);
      assert a == [a[0]] + a[1..];
    }
  }

  lemma CutAt(s: seq<Byte>, i: nat, j: nat)
    requires i <= j <= |s|
    ensures s[i..] == s[i..j] + s[j..]
  {
  }

  // ----- my_urlword and ap_getword -----

  function Word(s: seq<Byte>): seq<Byte> { TakeWhile(s, InWord) }

  /** What is left behind a word: any run of separators is skipped. */
  function Behind(s: seq<Byte>): (t: seq<Byte>)
    ensures s != [] ==> |t| < |s|
    ensures t != [] ==> t[0] as char != '&' && t[0] as char != ';'
  {
    var t := DropWhile(s, InWord);
    assert t == s && s != [] ==> IsSeparator(s[0]);
    DropWhile(t, IsSeparator)
  }

  function KeyOf(word: seq<Byte>): seq<Byte> { TakeWhile(word, InKey) }

  /** ap_getword skips every repetition of its stop character. */
  function ValueOf(word: seq<Byte>): seq<Byte> { DropWhile(DropWhile(word, InKey), IsEquals) }

  /** A word in front of any run of ampersands and semicolons is taken whole, and the run is left behind. */
  lemma WordsExactly(word: seq<Byte>, run: seq<Byte>, rest: seq<Byte>)
    requires forall b :: b in word ==> b as char != '&' && b as char != ';'
    requires forall b :: b in run ==> b as char == '&' || b as char == ';'
    requires rest != [] ==> run != [] && rest[0] as char != '&' && rest[0] as char != ';'
    ensures Word(word + run + rest) == word && Behind(word + run + rest) == rest
  {
    Regroup(word, run, rest);
    assert run != [] ==> run[0] in run && (run + rest)[0] == run[0];
    RunOf(word, run + rest, InWord);
    RunOf(run, rest, IsSeparator);
  }

  /** A word divides at its first equals sign; further ones right behind it are skipped. */
  lemma FieldsExactly(key: seq<Byte>, run: seq<Byte>, value: seq<Byte>)
    requires forall b :: b in key ==> b as char != '='
    requires forall b :: b in run ==> b as char == '='
    requires value != [] ==> run != [] && value[0] as char != '='
    ensures KeyOf(key + run + value) == key && ValueOf(key + run + value) == value
  {
    Regroup(key, run, value);
    assert run != [] ==> run[0] in run && (run + value)[0] == run[0];
    RunOf(key, run + value, InKey);
    RunOf(run, value, IsEquals);
  }

  /** `my_urlword` on the text from index `line`. */
  method UrlWord(data: seq<Byte>, line: nat) returns (res: seq<Byte>, line': nat)
    requires line <= |data|
    ensures res == Word(data[line..])
    ensures line <= line' <= |data| && data[line'..] == Behind(data[line..])
  {
    var pos := line;
    while pos < |data| && data[pos] != SEMICOLON && data[pos] != AMPERSAND
      invariant line <= pos <= |data|
      invariant forall k :: line <= k < pos ==> InWord(data[k])
    {
      pos := pos + 1;
    }
    res := data[line..pos];
    CutAt(data, line, pos);
    RunOf(res, data[pos..], InWord);
    ghost var stop := pos;
    while pos < |data| && (data[pos] == SEMICOLON || data[pos] == AMPERSAND)
      invariant stop <= pos <= |data|
      invariant forall k :: stop <= k < pos ==> IsSeparator(data[k])
    {
      pos := pos + 1;
    }
    CutAt(data, stop, pos);
    RunOf(data[stop..pos], data[pos..], IsSeparator);
    line' := pos;
  }

  // ----- split_to_parms -----

  datatype Parm = Parm(key: seq<Byte>, value: seq<Byte>)

  /** A key or value as the parameter table keeps it: a C string. */
  function Field(raw: seq<Byte>): seq<Byte> { UpToNul(UrlDecoded(Spaced(raw))) }

  function Params(data: seq<Byte>): seq<Parm>
    decreases |data|
  {
    if data == [] then []
    else [Parm(Field(KeyOf(Word(data))), Field(ValueOf(Word(data))))] + Params(Behind(data))
  }

  /** No field has a `%u` cut short, so that no decoding reads past its string. */
  predicate FieldsComplete(data: seq<Byte>)
    decreases |data|
  {
    data == [] ||
    (WideComplete(Spaced(KeyOf(Word(data)))) && WideComplete(Spaced(ValueOf(Word(data))))
     && FieldsComplete(Behind(data)))
  }

  /** Copies a string into a fresh buffer, turns pluses into spaces and decodes it there. */
  method DecodeField(raw: seq<Byte>) returns (field: seq<Byte>)
    requires NoNul(raw) && WideComplete(Spaced(raw))
    ensures field == Field(raw)
  {
    var str := Duplicate(raw);
    PlusToSpace(str);
    SpacedHasNoNul(raw);
    assert str[..] == Spaced(raw) + [NUL];
    UpToNulIs(Spaced(raw) + [NUL], |raw|);
    assert (Spaced(raw) + [NUL])[..|raw|] == Spaced(raw);
    var _ := UnescapeUrlU(str);
    ghost var out := UrlDecoded(Spaced(raw));
    assert str[..][..|out|] == out;
    field := CString(str);
    UpToNulPrefix(str[..], |out|);
  }

  lemma SpacedHasNoNul(s: seq<Byte>)
    requires NoNul(s)
    ensures NoNul(Spaced(s)) && |Spaced(s)| == |s|
  {
  }

  class ApacheRequest {
    var parms: seq<Parm>

    constructor ()
      ensures parms == []
    {
      parms := [];
    }

    /** `split_to_parms`: adds one parameter for each word, in order. */
    method SplitToParms(data: seq<Byte>)
      requires NoNul(data) && FieldsComplete(data)
      modifies this
      ensures parms == old(parms) + Params(data)
    {
      var line := 0;
      assert data[0..] == data;
      while line < |data|
        invariant 0 <= line <= |data|
        invariant FieldsComplete(data[line..])
        invariant parms + Params(data[line..]) == old(parms) + Params(data)
      {
        ghost var s, before := data[line..], parms;
        var val;
        val, line := UrlWord(data, line);
        var key := KeyOf(val);
        val := ValueOf(val);
        PartsHaveNoNul(s);
        key := DecodeField(key);
        val := DecodeField(val);
        parms := parms + [Parm(key, val)];
        Regroup(before, [Parm(key, val)], Params(data[line..]));
      }
    }
  }

  lemma PartsHaveNoNul(s: seq<Byte>)
    requires NoNul(s)
    ensures NoNul(KeyOf(Word(s))) && NoNul(ValueOf(Word(s)))
  {
    var w := Word(s);
    TakeThenDrop(s, InWord);
    TakeThenDrop(w, InKey);
    TakeThenDrop(DropWhile(w, InKey), IsEquals);
  }

  // ----- Round trip -----

  /** One field of a form as a browser or script writes it with escape_string. */
  function FormField(p: Parm): seq<Byte> { Escaped(p.key) + [EQUALS] + Escaped(p.value) }

  /** Fields joined by ampersands. */
  function FormEncoded(ps: seq<Parm>): seq<Byte> {
    if ps == [] then []
    else if |ps| == 1 then FormField(ps[0])
    else FormField(ps[0]) + [AMPERSAND] + FormEncoded(ps[1..])
  }

  predicate Sendable(ps: seq<Parm>) { forall p :: p in ps ==> NoNul(p.key) && NoNul(p.value) }

  /** A field splits back into the two texts it was joined from. */
  lemma FieldSplits(p: Parm)
    ensures forall b :: b in FormField(p) ==> InWord(b)
    ensures KeyOf(FormField(p)) == Escaped(p.key) && ValueOf(FormField(p)) == Escaped(p.value)
  {
    EscapedAlphabet(p.key);
    EscapedAlphabet(p.value);
    var k, v := Escaped(p.key), Escaped(p.value);
    assert FormField(p) == k + ([EQUALS] + v);
    RunOf(k, [EQUALS] + v, InKey);
    RunOf([EQUALS], v, IsEquals);
  }

  lemma FieldHasNoNul(p: Parm)
    ensures NoNul(FormField(p))
  {
    EscapedAlphabet(p.key);
    EscapedAlphabet(p.value);
  }

  /** The server gets back the list that was sent. */
  method SendAndSplit(ps: seq<Parm>) returns (req: ApacheRequest)
    requires Sendable(ps)
    ensures req.parms == ps
  {
    FormRoundTrip(ps);
    req := new ApacheRequest();
    req.SplitToParms(FormEncoded(ps));
  }

  lemma FieldDecodes(s: seq<Byte>)
    requires NoNul(s)
    ensures Field(Escaped(s)) == s && WideComplete(Spaced(Escaped(s)))
  {
    ServerReadsEscaped(s);
    UpToNulExactly(s);
  }

  /**
   * Whatever keys and values are escaped, joined and sent, the server splits into exactly those pairs, in
   * order, and never reads past a string.
   */
  lemma {:induction false} FormRoundTrip(ps: seq<Parm>)
    requires Sendable(ps)
    ensures NoNul(FormEncoded(ps)) && FieldsComplete(FormEncoded(ps)) && Params(FormEncoded(ps)) == ps
  {
    if ps != [] {
      var s, f := FormEncoded(ps), FormField(ps[0]);
      FormRoundTrip(ps[1..]);
      FieldSplits(ps[0]);
      FieldHasNoNul(ps[0]);
      assert ps[0] in ps;
      FieldDecodes(ps[0].key);
      FieldDecodes(ps[0].value);
      WordsSplit(ps);
      assert ps == [ps[0]] + ps[1..];
    }
  }

  /** A word, one separator, and a rest that starts with another word. */
  lemma WordThenRest(f: seq<Byte>, rest: seq<Byte>)
    requires (forall b :: b in f ==> InWord(b)) && rest != [] && InWord(rest[0])
    ensures Word(f + [AMPERSAND] + rest) == f && Behind(f + [AMPERSAND] + rest) == rest
  {
    Regroup(f, [AMPERSAND], rest);
    RunOf(f, [AMPERSAND] + rest, InWord);
    RunOf([AMPERSAND], rest, IsSeparator);
  }

  /** The first word of an encoded form is its first field; the rest is the form of the rest. */
  lemma WordsSplit(ps: seq<Parm>)
    requires ps != []
    ensures FormEncoded(ps) != [] && InWord(FormEncoded(ps)[0])
    ensures Word(FormEncoded(ps)) == FormField(ps[0]) && Behind(FormEncoded(ps)) == FormEncoded(ps[1..])
  {
    var f := FormField(ps[0]);
    FieldSplits(ps[0]);
    if |ps| == 1 {
      assert f + [] == f;
      RunOf(f, [], InWord);
    } else {
      WordsSplit(ps[1..]);
      WordThenRest(f, FormEncoded(ps[1..]));
    }
    assert f[0] in f;
  }
}
