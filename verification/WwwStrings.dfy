/** escape_string and unescape_string (rivetWWW.c), and their agreement with the server's own decoder. */
module WwwStrings {

  import opened Prelude
  import opened Bytes
  import opened UrlCoding

  // ----- escape_string -----

  /** How escape_string writes one byte. */
  function EscapeUnit(b: Byte): (u: Unit)
    ensures WellFormed(u, false)
  {
    if IsAlnum(b) then Plain(b)
    else if b == SPACE then Plain(PLUS)
    else Pair(DigitToHex(b / 16), DigitToHex(b % 16))
  }

  function EscapeUnits(s: seq<Byte>): (us: seq<Unit>)
    ensures AllWellFormed(us, false)
  {
    if s == [] then [] else [EscapeUnit(s[0])] + EscapeUnits(s[1..])
  }

  function Escaped(s: seq<Byte>): seq<Byte> { SpellAll(EscapeUnits(s)) }

  lemma EscapedStep(s: seq<Byte>)
    requires s != [] && s[0] != NUL
    ensures Escaped(UpToNul(s)) == Spell(EscapeUnit(s[0])) + Escaped(UpToNul(s[1..]))
  {
    var t := UpToNul(s);
    assert t == [s[0]] + UpToNul(s[1..]);
    assert EscapeUnits(t)[1..] == EscapeUnits(t[1..]);
  }

  /** The body of the encoding loop. */
  method PutByte(newString: seq<Byte>, c: Byte) returns (longer: seq<Byte>)
    ensures longer == newString + Spell(EscapeUnit(c))
  {
    if IsAlnum(c) {
      longer := newString + [c];
    } else if c == SPACE {
      longer := newString + [PLUS];
    } else {
      longer := newString + [PERCENT];
      longer := longer + [DigitToHex(c / 16 % 16)];
      longer := longer + [DigitToHex(c % 16)];
    }
  }

  /** `Rivet_EscapeStringCmd`: a C string, so it stops at the first NUL. */
  method EscapeString(origString: seq<Byte>) returns (newString: seq<Byte>)
    ensures newString == Escaped(UpToNul(origString))
  {
    if |origString| == 0 { return []; }
    newString := [];
    var p := 0;
    while p < |origString| && origString[p] != NUL
      invariant 0 <= p <= |origString|
      invariant newString + Escaped(UpToNul(origString[p..])) == Escaped(UpToNul(origString))
    {
      var c := origString[p];
      ghost var done := newString;
      EscapedStep(origString[p..]);
      assert origString[p..][1..] == origString[p + 1..];
      newString := PutByte(newString, c);
      Regroup(done, Spell(EscapeUnit(c)), Escaped(UpToNul(origString[p + 1..])));
      p := p + 1;
    }
  }

  // ----- unescape_string -----

  /** The byte a unit stands for in unescape_string, which also maps plus to space. */
  function Meaning(u: Unit): seq<Byte> { if u == Plain(PLUS) then [SPACE] else Value(u) }

  function MeaningAll(us: seq<Unit>): seq<Byte> {
    if us == [] then [] else Meaning(us[0]) + MeaningAll(us[1..])
  }

  /** The decoded bytes, or the (at most two) bytes after the first `%` that lacks two digits. */
  function Decoded(s: seq<Byte>): Result<seq<Byte>, seq<Byte>>
    decreases |s|
  {
    if s == [] then Result.Ok([])
    else if Next(s, false) == Loose then Err(s[1..Min(3, |s|)])
    else After(Meaning(Next(s, false)), Decoded(s[|Spell(Next(s, false))|..]))
  }

  function After(done: seq<Byte>, r: Result<seq<Byte>, seq<Byte>>): Result<seq<Byte>, seq<Byte>> {
    match r
    case Ok(t) => Result.Ok(done + t)
    case Err(e) => Err(e)
  }

  lemma AfterAfter(a: seq<Byte>, b: seq<Byte>, r: Result<seq<Byte>, seq<Byte>>)
    ensures After(a, After(b, r)) == After(a + b, r)
  {
    if r.Ok? {
      Regroup(a, b, r.value);
    }
  }

  /** The two digits behind a `%`. */
  method ReadPair(origString: seq<Byte>, p: nat) returns (b: Option<Byte>)
    requires p < |origString| && origString[p] == PERCENT
    ensures b.None? ==>
      && Next(origString[p..], false) == Loose
      && origString[p + 1..Min(p + 3, |origString|)] == origString[p..][1..Min(3, |origString| - p)]
    ensures b.Some? ==>
      var u := Next(origString[p..], false);
      u != Loose && |Spell(u)| == 3 && p + 2 < |origString| && Meaning(u) == [b.value]
  {
    var digit1 := if p + 1 < |origString| then HexToDigit(origString[p + 1]) else -1;
    var digit2 := if p + 2 < |origString| then HexToDigit(origString[p + 2]) else -1;
    if digit1 == -1 || digit2 == -1 { return None; }
    X2cIsHexValue(origString[p + 1], origString[p + 2]);
    b := Some(digit1 * 16 + digit2);
  }

  /**
   * `Rivet_UnescapeStringCmd` on the bytes before the terminator.  The new string is handed over with
   * length -1, so it ends at the first NUL a `%00` produced.
   */
  method UnescapeString(origString: seq<Byte>) returns (r: Result<seq<Byte>, seq<Byte>>)
    requires NoNul(origString)
    ensures Decoded(origString).Ok? ==> r == Result.Ok(UpToNul(Decoded(origString).value))
    ensures Decoded(origString).Err? ==> r == Decoded(origString)
  {
    var newString: seq<Byte> := [];
    var p := 0;
    assert origString[0..] == origString;
    assert Decoded(origString).Ok? ==> [] + Decoded(origString).value == Decoded(origString).value;
    while p < |origString|
      invariant 0 <= p <= |origString|
      invariant Decoded(origString) == After(newString, Decoded(origString[p..]))
    {
      ghost var s, done := origString[p..], newString;
      ghost var u := Next(s, false);
      ghost var rest := s[|Spell(u)|..];
      var c := origString[p];
      assert s[0] == c;
      if c == PLUS {
        newString := newString + [SPACE];
      } else if c == PERCENT {
        var b := ReadPair(origString, p);
        if b.None? {
          return Err(origString[p + 1..Min(p + 3, |origString|)]);
        }
        newString := newString + [b.value];
        p := p + 2;
      } else {
        newString := newString + [c];
      }
      p := p + 1;
      assert rest == origString[p..];
      assert newString == done + Meaning(u);
      AfterAfter(done, Meaning(u), Decoded(rest));
    }
    assert newString + [] == newString;
    return Result.Ok(UpToNul(newString));
  }

  /** unescape_string fails exactly when a `%` met while decoding lacks two digits, and then says which. */
  lemma {:induction false} UnescapeFailsExactly(s: seq<Byte>)
    ensures Decoded(s).Err? <==> Loose in Units(s, false)
    ensures Decoded(s).Err? <==> !exists us :: AllWellFormed(us, false) && SpellAll(us) == s
    ensures Decoded(s).Ok? ==> Decoded(s).value == MeaningAll(Units(s, false))
    decreases |s|
  {
    LooseOrWellFormed(s, false);
    forall us | AllWellFormed(us, false) && SpellAll(us) == s ensures us == Units(s, false) {
      UnitsOfSpelling(us, false);
    }
    assert Loose !in Units(s, false) ==> SpellAll(Units(s, false)) == s;
    if s != [] {
      var u := Next(s, false);
      assert Units(s, false) == [u] + Units(s[|Spell(u)|..], false);
      assert Units(s, false)[1..] == Units(s[|Spell(u)|..], false);
      UnescapeFailsExactly(s[|Spell(u)|..]);
    }
  }

  // ----- Inverse -----

  lemma {:induction false} EscapeUnitsMean(s: seq<Byte>)
    ensures MeaningAll(EscapeUnits(s)) == s
  {
    if s != [] {
      EscapeUnitsMean(s[1..]);
      if !IsAlnum(s[0]) && s[0] != SPACE {
        X2cIsHexValue(DigitToHex(s[0] / 16), DigitToHex(s[0] % 16));
      }
      assert Meaning(EscapeUnit(s[0])) == [s[0]];
      assert s == [s[0]] + s[1..];
    }
  }

  /** What escape_string writes, unescape_string reads back, for every byte string without a NUL. */
  lemma EscapeRoundTrip(s: seq<Byte>)
    requires NoNul(s)
    ensures Decoded(Escaped(s)) == Result.Ok(s) && UpToNul(s) == s
  {
    UnitsOfSpelling(EscapeUnits(s), false);
    LooseOrWellFormed(Escaped(s), false);
    UnescapeFailsExactly(Escaped(s));
    EscapeUnitsMean(s);
    UpToNulExactly(s);
  }

  /** The encoding is ASCII letters, digits, plus and percent, at most three bytes for one. */
  lemma {:induction false} EscapedAlphabet(s: seq<Byte>)
    ensures |s| <= |Escaped(s)| <= 3 * |s|
    ensures forall b :: b in Escaped(s) ==> IsAlnum(b) || b == PLUS || b == PERCENT
  {
    if s != [] {
      EscapedAlphabet(s[1..]);
    }
  }

  /** Turning every plus into a space before decoding, as the server does, changes no escape. */
  lemma {:induction false} SpacedUnits(us: seq<Unit>)
    requires AllWellFormed(us, false)
    ensures UrlDecoded(Spaced(SpellAll(us))) == MeaningAll(us)
    ensures forall u :: u in Units(Spaced(SpellAll(us)), true) ==> u.Plain? || u.Pair?
  {
    if us != [] {
      var s := SpellAll(us);
      var u := us[0];
      SpacedUnits(us[1..]);
      assert WellFormed(u, false);
      var v := if u == Plain(PLUS) then Plain(SPACE) else u;
      SpacedSplit(Spell(u), SpellAll(us[1..]));
      assert Spaced(Spell(u)) == Spell(v);
      assert Spaced(s) == Spell(v) + Spaced(SpellAll(us[1..]));
      assert Next(Spaced(s), true) == v;
      assert Spaced(s)[|Spell(v)|..] == Spaced(SpellAll(us[1..]));
      assert Units(Spaced(s), true) == [v] + Units(Spaced(SpellAll(us[1..])), true);
      assert Units(Spaced(s), true)[1..] == Units(Spaced(SpellAll(us[1..])), true);
    }
  }

  lemma SpacedSplit(a: seq<Byte>, b: seq<Byte>)
    ensures Spaced(a + b) == Spaced(a) + Spaced(b)
  {
  }

  /** The server decodes what escape_string wrote, whatever it was, and never reads past the end. */
  lemma ServerReadsEscaped(s: seq<Byte>)
    ensures UrlDecoded(Spaced(Escaped(s))) == s && WideComplete(Spaced(Escaped(s)))
  {
    SpacedUnits(EscapeUnits(s));
    EscapeUnitsMean(s);
  }
}
