/**
 * What the decoders and the encoder do to the characters that clients write, spelled out: the two decoders
 * are fixed by what they do to the first byte, escape or percent sign of a text.
 */
module CodingLiterals {

  import opened Prelude
  import opened Bytes
  import opened UrlCoding
  import opened WwwStrings

  // ----- Digits -----

  /** `c` is the digit of value `d`, in either case. */
  predicate Writes(c: Byte, d: int) {
    0 <= d < 16 && (c as char == "0123456789abcdef"[d] || c as char == "0123456789ABCDEF"[d])
  }

  lemma HexDigitsExactly(c: Byte)
    ensures IsHex(c) <==> c as char in "0123456789abcdefABCDEF"
  {
  }

  lemma WrittenDigit(c: Byte, d: int)
    requires Writes(c, d)
    ensures HexToDigit(c) == d && IsHex(c)
  {
  }

  // ----- Decoding -----

  /** The status of a text, by what its parts ask for: 400 before 404 before 0. */
  function WorseOf(a: int, b: int): int {
    if a == 400 || b == 400 then 400 else if a == 404 || b == 404 then 404 else 0
  }

  lemma UrlStatusIs(s: seq<Byte>)
    ensures UrlStatus(s) == 400 || UrlStatus(s) == 404 || UrlStatus(s) == 0
    ensures UrlStatus([]) == 0 && UrlDecoded([]) == [] && Decoded([]) == Result.Ok([])
  {
  }

  /** What the decoders make of a text when its first piece stands for `v` and asks for `status`. */
  predicate Reads(s: seq<Byte>, v: seq<Byte>, status: int, rest: seq<Byte>) {
    UrlDecoded(s) == v + UrlDecoded(rest) && UrlStatus(s) == WorseOf(status, UrlStatus(rest))
  }

  /** `unescape_string` on a text whose first piece stands for `v`. */
  predicate Unescapes(s: seq<Byte>, v: seq<Byte>, rest: seq<Byte>) {
    match Decoded(rest)
    case Ok(t) => Decoded(s) == Result.Ok(v + t)
    case Err(e) => Decoded(s) == Err(e)
  }

  lemma FirstUnit(s: seq<Byte>, u: Unit, rest: seq<Byte>)
    requires s != [] && Next(s, true) == u && s[|Spell(u)|..] == rest
    ensures Reads(s, Value(u), if u == Loose then 400 else if BadPath(u) then 404 else 0, rest)
  {
    UnitsStep(s);
  }

  /** Each byte other than a percent sign stands for itself; for `unescape_string` a plus is a space. */
  lemma PlainReads(b: Byte, rest: seq<Byte>)
    requires b as char != '%'
    ensures Reads([b] + rest, [b], 0, rest)
    ensures Unescapes([b] + rest, if b as char == '+' then [32] else [b], rest)
  {
    FirstUnit([b] + rest, Plain(b), rest);
  }

  lemma PairOf(b: Byte, hi: Byte, lo: Byte)
    requires Writes(hi, b / 16) && Writes(lo, b % 16)
    ensures IsHex(hi) && IsHex(lo) && Value(Pair(hi, lo)) == [b]
  {
    WrittenDigit(hi, b / 16);
    WrittenDigit(lo, b % 16);
    X2cIsHexValue(hi, lo);
  }

  /** `%` and the two digits of a byte, in any case, stand for the byte; a slash or a NUL asks for 404. */
  lemma PercentReads(b: Byte, hi: Byte, lo: Byte, rest: seq<Byte>)
    requires Writes(hi, b / 16) && Writes(lo, b % 16)
    ensures Reads(['%' as int, hi, lo] + rest, [b], if b as char == '/' || b == 0 then 404 else 0, rest)
    ensures Unescapes(['%' as int, hi, lo] + rest, [b], rest)
  {
    var s: seq<Byte> := ['%' as int, hi, lo] + rest;
    PairOf(b, hi, lo);
    assert s[3..] == rest;
    FirstUnit(s, Pair(hi, lo), rest);
    assert Next(s, false) == Pair(hi, lo);
  }

  /** The four digits of a number, in any case. */
  predicate WritesFour(d: seq<Byte>, c: nat) {
    && |d| == 4 && c < 0x10000
    && Writes(d[0], c / 4096) && Writes(d[1], c / 256 % 16) && Writes(d[2], c / 16 % 16) && Writes(d[3], c % 16)
  }

  lemma OneMoreDigit(d: seq<Byte>, k: nat)
    requires k < |d| && forall i :: 0 <= i <= k ==> IsHex(d[i])
    ensures (forall c :: c in d[..k] ==> IsHex(c)) && (forall c :: c in d[..k + 1] ==> IsHex(c))
    ensures HexNumber(d[..k + 1]) == HexNumber(d[..k]) * 16 + HexToDigit(d[k])
  {
    assert d[..k + 1][..k] == d[..k];
  }

  lemma Places(c: nat)
    requires c < 0x10000
    ensures c / 4096 * 16 + c / 256 % 16 == c / 256 && c / 256 * 16 + c / 16 % 16 == c / 16 && c / 16 * 16 + c % 16 == c
  {
  }

  lemma FourDigitsOf(d: seq<Byte>, a: int, b: int, e: int, f: int)
    requires |d| == 4 && Writes(d[0], a) && Writes(d[1], b) && Writes(d[2], e) && Writes(d[3], f)
    ensures CodePoint(d) == ((a * 16 + b) * 16 + e) * 16 + f
  {
    WrittenDigit(d[0], a);
    WrittenDigit(d[1], b);
    WrittenDigit(d[2], e);
    WrittenDigit(d[3], f);
    OneMoreDigit(d, 0);
    OneMoreDigit(d, 1);
    OneMoreDigit(d, 2);
    OneMoreDigit(d, 3);
    assert d[..4] == d && d[..0] == [];
  }

  lemma FourDigits(d: seq<Byte>, c: nat)
    requires WritesFour(d, c)
    ensures CodePoint(d) == c
  {
    FourDigitsOf(d, c / 4096, c / 256 % 16, c / 16 % 16, c % 16);
    Places(c);
  }

  /** `%u` and the four digits of a code point stand for bytes that read as it. */
  lemma WideReads(c: nat, mark: Byte, d: seq<Byte>, rest: seq<Byte>)
    requires WritesFour(d, c) && (mark as char == 'u' || mark as char == 'U')
    ensures var s: seq<Byte> := ['%' as int, mark] + d + rest;
      && Utf8Read(UrlDecoded(s)) == Some((c, UrlDecoded(rest)))
      && UrlStatus(s) == UrlStatus(rest)
  {
    var s: seq<Byte> := ['%' as int, mark] + d + rest;
    FourDigits(d, c);
    assert s[2..6] == d && s[6..] == rest;
    FirstUnit(s, Wide(mark, d), rest);
    UrlStatusIs(rest);
    Utf8Reads(c, UrlDecoded(rest));
  }

  predicate NoDigitPair(s: seq<Byte>) {
    |s| < 2 || !(s[0] as char in "0123456789abcdefABCDEF" && s[1] as char in "0123456789abcdefABCDEF")
  }

  lemma LooseIsNext(s: seq<Byte>, wide: bool)
    requires NoDigitPair(s) && (wide && s != [] ==> s[0] as char != 'u' && s[0] as char != 'U')
    ensures Next(['%' as int] + s, wide) == Loose && (['%' as int] + s)[1..] == s
  {
    if |s| >= 2 {
      HexDigitsExactly(s[0]);
      HexDigitsExactly(s[1]);
    }
  }

  /** A percent sign that no escape begins with is kept and asks for 400. */
  lemma LooseReads(rest: seq<Byte>)
    requires NoDigitPair(rest) && (rest == [] || (rest[0] as char != 'u' && rest[0] as char != 'U'))
    ensures Reads(['%' as int] + rest, ['%' as int], 400, rest)
  {
    LooseIsNext(rest, true);
    FirstUnit(['%' as int] + rest, Loose, rest);
  }

  /** `unescape_string` gives up there, and says which bytes follow. */
  lemma LooseFails(rest: seq<Byte>)
    requires NoDigitPair(rest)
    ensures Decoded(['%' as int] + rest) == Err(rest[..Min(2, |rest|)])
  {
    var s: seq<Byte> := ['%' as int] + rest;
    LooseIsNext(rest, false);
    assert s[1..Min(3, |s|)] == rest[..Min(2, |rest|)];
  }

  // ----- Encoding -----

  lemma EscapedFirst(b: Byte, s: seq<Byte>)
    ensures Escaped([b] + s) == Spell(EscapeUnit(b)) + Escaped(s)
  {
    assert ([b] + s)[1..] == s;
    assert EscapeUnits([b] + s)[1..] == EscapeUnits(s);
  }

  predicate LetterOrDigit(c: char) {
    c in "0123456789" || c in "ABCDEFGHIJKLMNOPQRSTUVWXYZ" || c in "abcdefghijklmnopqrstuvwxyz"
  }

  lemma AlnumExactly(b: Byte)
    ensures IsAlnum(b) <==> LetterOrDigit(b as char)
  {
    Range(b as char, '0', "0123456789");
    Range(b as char, 'A', "ABCDEFGHIJKLMNOPQRSTUVWXYZ");
    Range(b as char, 'a', "abcdefghijklmnopqrstuvwxyz");
  }

  /** Being in a string of consecutive characters. */
  lemma Range(c: char, first: char, s: string)
    requires forall i :: 0 <= i < |s| ==> s[i] as int == first as int + i
    ensures c in s <==> 0 <= c as int - first as int < |s|
  {
    if 0 <= c as int - first as int < |s| {
      assert s[c as int - first as int] == c;
    }
  }

  lemma HexDigitIs(d: int)
    requires 0 <= d < 16
    ensures DigitToHex(d) as char == "0123456789abcdef"[d]
  {
  }

  /** What `escape_string` writes for a letter or a digit, for a space and for any other byte. */
  lemma EscapeWrites(b: Byte, s: seq<Byte>)
    ensures LetterOrDigit(b as char) ==> Escaped([b] + s) == [b] + Escaped(s)
    ensures b as char == ' ' ==> Escaped([b] + s) == ['+' as int] + Escaped(s)
    ensures !LetterOrDigit(b as char) && b as char != ' ' ==>
      Escaped([b] + s) ==
        ['%' as int, "0123456789abcdef"[b / 16] as int, "0123456789abcdef"[b % 16] as int] + Escaped(s)
  {
    EscapedFirst(b, s);
    AlnumExactly(b);
    HexDigitIs(b / 16);
    HexDigitIs(b % 16);
  }

  /** What the server does before it decodes. */
  lemma SpacedExactly(s: seq<Byte>, i: nat)
    requires i < |s|
    ensures Spaced(s)[i] as char == if s[i] as char == '+' then ' ' else s[i] as char
  {
  }
}
