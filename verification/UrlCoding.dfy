/** The percent decoders and encoders of apache_request.c and rivetWWW.c, read through one notion of "unit". */
module UrlCoding {

  import opened Prelude
  import opened Bytes

  const SPACE: Byte := 32
  const PERCENT: Byte := 37
  const PLUS: Byte := 43
  const SLASH: Byte := 47

  const OK := 0
  const HTTP_BAD_REQUEST := 400
  const HTTP_NOT_FOUND := 404

  // ----- Hexadecimal digits -----

  /** `Rivet_HexToDigit`: the value of a hexadecimal digit, or -1. */
  function HexToDigit(c: Byte): (d: int)
    ensures -1 <= d < 16
  {
    if 'a' as int <= c <= 'f' as int then c - 'a' as int + 10
    else if 'A' as int <= c <= 'F' as int then c - 'A' as int + 10
    else if '0' as int <= c <= '9' as int then c - '0' as int
    else -1
  }

  /** `Rivet_DigitToHex` on the values it is called with. */
  function DigitToHex(d: int): (c: Byte)
    requires 0 <= d < 16
    ensures HexToDigit(c) == d && IsAlnum(c)
  {
    if d < 10 then d + '0' as int else d - 10 + 'a' as int
  }

  predicate IsHex(c: Byte) { HexToDigit(c) != -1 }

  predicate IsDigit(c: Byte) { '0' as int <= c <= '9' as int }

  predicate IsAlnum(c: Byte) {
    IsDigit(c) || 'a' as int <= c <= 'z' as int || 'A' as int <= c <= 'Z' as int
  }

  /** `c & 0xdf`: clears the bit that tells lower from upper case. */
  function ClearCaseBit(c: Byte): Byte { if c / 32 % 2 == 1 then c - 32 else c }

  /** One digit as `x2c` computes it, without asking whether it is one. */
  function X2cDigit(c: Byte): int {
    if c >= 'A' as int then ClearCaseBit(c) - 'A' as int + 10 else c - '0' as int
  }

  /** `x2c`, whose result is narrowed to a char. */
  function X2c(hi: Byte, lo: Byte): Byte { (X2cDigit(hi) * 16 + X2cDigit(lo)) % 256 }

  /** Both libraries give a digit pair the same value. */
  lemma X2cIsHexValue(hi: Byte, lo: Byte)
    requires IsHex(hi) && IsHex(lo)
    ensures X2c(hi, lo) == HexToDigit(hi) * 16 + HexToDigit(lo)
  {
    forall c: Byte | IsHex(c) ensures X2cDigit(c) == HexToDigit(c) {}
  }

  // ----- UTF-8 -----

  /** The value of hexadecimal digits read left to right. */
  function HexNumber(digits: seq<Byte>): (n: nat)
    requires forall c :: c in digits ==> IsHex(c)
    ensures |digits| <= 4 ==> n < [1, 0x10, 0x100, 0x1000, 0x10000][|digits|]
  {
    if digits == [] then 0
    else
      assert IsHex(digits[|digits| - 1]);
      HexNumber(digits[..|digits| - 1]) * 16 + HexToDigit(digits[|digits| - 1])
  }

  /** What `utf8_convert` makes of four bytes: 0 when one of them is no digit. */
  function CodePoint(digits: seq<Byte>): (c: nat)
    requires |digits| == 4
    ensures c <= 0xFFFF
  {
    if forall c :: c in digits ==> IsHex(c) then HexNumber(digits) else 0
  }

  /** The bytes emitted for a code point; `|` joins disjoint bit ranges and is written `+`. */
  function Utf8(c: nat): seq<Byte>
    requires c <= 0xFFFF
  {
    if c < 0x80 then [c]
    else if c < 0x800 then [0xc0 + c / 0x40, 0x80 + c % 0x40]
    else [0xe0 + c / 0x1000, 0x80 + c / 0x40 % 0x40, 0x80 + c % 0x40]
  }

  predicate Continues(b: Byte) { 0x80 <= b < 0xc0 }

  /**
   * Reads one code point by the bit layout of section 3 of RFC 3629, refusing overlong forms.  Surrogates
   * are not refused, because the encoder emits them too.
   */
  function Utf8Read(s: seq<Byte>): Option<(nat, seq<Byte>)> {
    if s == [] then None
    else if s[0] < 0x80 then Some((s[0], s[1..]))
    else if 0xc0 <= s[0] < 0xe0 && |s| >= 2 && Continues(s[1]) then
      var c: int := (s[0] as int - 0xc0) * 0x40 + (s[1] as int - 0x80);
      if c < 0x80 then None else Some((c, s[2..]))
    else if 0xe0 <= s[0] < 0xf0 && |s| >= 3 && Continues(s[1]) && Continues(s[2]) then
      var c: int := (s[0] as int - 0xe0) * 0x1000 + (s[1] as int - 0x80) * 0x40 + (s[2] as int - 0x80);
      if c < 0x800 then None else Some((c, s[3..]))
    else None
  }

  /** What is emitted for a code point reads as it. */
  lemma Utf8Reads(c: nat, rest: seq<Byte>)
    requires c <= 0xFFFF
    ensures Utf8Read(Utf8(c) + rest) == Some((c, rest))
  {
    var s := Utf8(c) + rest;
    assert s[|Utf8(c)|..] == rest;
    assert forall i :: 0 <= i < |Utf8(c)| ==> s[i] == Utf8(c)[i];
  }

  /** What reads as a code point starts with the bytes emitted for it. */
  lemma Utf8Spells(s: seq<Byte>)
    requires Utf8Read(s).Some?
    ensures var (c, rest) := Utf8Read(s).value; c <= 0xFFFF && s == Utf8(c) + rest
  {
    if s[0] < 0x80 {
      assert s == [s[0]] + s[1..];
    } else if s[0] < 0xe0 {
      Digits64(s[0] - 0xc0, s[1] - 0x80, 0);
      assert s == [s[0], s[1]] + s[2..];
    } else {
      Digits64(s[0] - 0xe0, s[1] - 0x80, s[2] - 0x80);
      Digits64(s[0] - 0xe0, s[1] - 0x80, 0);
      assert s == [s[0], s[1], s[2]] + s[3..];
    }
  }

  lemma Digits64(a: nat, b: nat, c: nat)
    requires b < 0x40 && c < 0x40
    ensures (a * 0x40 + b) / 0x40 == a && (a * 0x40 + b) % 0x40 == b
    ensures (a * 0x1000 + b * 0x40 + c) / 0x1000 == a
    ensures (a * 0x1000 + b * 0x40 + c) / 0x40 == a * 0x40 + b
    ensures (a * 0x1000 + b * 0x40 + c) % 0x40 == c
  {
  }

  /** The emitted bytes are exactly the ones that read as the code point. */
  lemma Utf8ReadsBack(c: nat, s: seq<Byte>, rest: seq<Byte>)
    requires c <= 0xFFFF
    ensures Utf8Read(s) == Some((c, rest)) <==> s == Utf8(c) + rest
  {
    Utf8Reads(c, rest);
    if Utf8Read(s) == Some((c, rest)) {
      Utf8Spells(s);
    }
  }

  // ----- Units -----

  /** What a decoder meets: a byte, `%hh`, `%u` with its digits, or a `%` that starts no escape. */
  datatype Unit =
    | Plain(b: Byte)
    | Pair(hi: Byte, lo: Byte)
    | Wide(mark: Byte, digits: seq<Byte>)
    | Loose

  predicate IsMark(c: Byte) { c == 'u' as int || c == 'U' as int }

  /** The unit at the head of `s`; only apache_request.c knows the wide form. */
  function Next(s: seq<Byte>, wide: bool): Unit
    requires s != []
  {
    if s[0] != PERCENT then Plain(s[0])
    else if wide && |s| >= 2 && IsMark(s[1]) then Wide(s[1], s[2..Min(6, |s|)])
    else if |s| >= 3 && IsHex(s[1]) && IsHex(s[2]) then Pair(s[1], s[2])
    else Loose
  }

  function Spell(u: Unit): (s: seq<Byte>)
    ensures s != []
  {
    match u
    case Plain(b) => [b]
    case Pair(hi, lo) => [PERCENT, hi, lo]
    case Wide(mark, digits) => [PERCENT, mark] + digits
    case Loose => [PERCENT]
  }

  function SpellAll(us: seq<Unit>): seq<Byte> {
    if us == [] then [] else Spell(us[0]) + SpellAll(us[1..])
  }

  /** The units of `s`, left to right; they spell `s`. */
  function Units(s: seq<Byte>, wide: bool): (us: seq<Unit>)
    ensures SpellAll(us) == s
    decreases |s|
  {
    if s == [] then []
    else
      var u := Next(s, wide);
      assert s == Spell(u) + s[|Spell(u)|..];
      [u] + Units(s[|Spell(u)|..], wide)
  }

  /** A unit no decoder complains about. */
  predicate WellFormed(u: Unit, wide: bool) {
    match u
    case Plain(b) => b != PERCENT
    case Pair(hi, lo) => IsHex(hi) && IsHex(lo)
    case Wide(mark, digits) => wide && IsMark(mark) && |digits| == 4
    case Loose => false
  }

  predicate AllWellFormed(us: seq<Unit>, wide: bool) { forall u :: u in us ==> WellFormed(u, wide) }

  lemma SpellingIsNext(u: Unit, rest: seq<Byte>, wide: bool)
    requires WellFormed(u, wide)
    ensures Next(Spell(u) + rest, wide) == u && (Spell(u) + rest)[|Spell(u)|..] == rest
  {
    var s := Spell(u) + rest;
    if u.Wide? {
      assert s[2..6] == u.digits;
    }
  }

  /** Well-formed units can be read off the text they spell, so the reading is unique. */
  lemma {:induction false} UnitsOfSpelling(us: seq<Unit>, wide: bool)
    requires AllWellFormed(us, wide)
    ensures Units(SpellAll(us), wide) == us
  {
    if us != [] {
      UnitsOfSpelling(us[1..], wide);
      SpellingIsNext(us[0], SpellAll(us[1..]), wide);
    }
  }

  /** A `%u` with fewer than four bytes behind it makes `ap_unescape_url_u` run past the terminator. */
  predicate WideComplete(s: seq<Byte>) {
    forall u :: u in Units(s, true) ==> u.Wide? ==> |u.digits| == 4
  }

  /** A complete text is either well formed throughout or has a `%` that starts no escape. */
  lemma {:induction false} LooseOrWellFormed(s: seq<Byte>, wide: bool)
    requires wide ==> WideComplete(s)
    ensures AllWellFormed(Units(s, wide), wide) <==> Loose !in Units(s, wide)
    decreases |s|
  {
    if s != [] {
      var u := Next(s, wide);
      var rest := s[|Spell(u)|..];
      assert Units(s, wide) == [u] + Units(rest, wide);
      assert u in Units(s, wide);
      LooseOrWellFormed(rest, wide);
    }
  }

  // ----- ap_unescape_url_u -----

  /** The bytes a unit stands for; a loose `%` is copied. */
  function Value(u: Unit): (v: seq<Byte>)
    ensures |v| <= |Spell(u)|
  {
    match u
    case Plain(b) => [b]
    case Pair(hi, lo) => [X2c(hi, lo)]
    case Wide(_, digits) => if |digits| == 4 then Utf8(CodePoint(digits)) else []
    case Loose => [PERCENT]
  }

  function ValueAll(us: seq<Unit>): seq<Byte> {
    if us == [] then [] else Value(us[0]) + ValueAll(us[1..])
  }

  /** A `%hh` for a slash or a NUL. */
  predicate BadPath(u: Unit) { u.Pair? && (X2c(u.hi, u.lo) == SLASH || X2c(u.hi, u.lo) == NUL) }

  function UrlDecoded(s: seq<Byte>): seq<Byte> { ValueAll(Units(s, true)) }

  /** A bad escape outranks a decoded slash or NUL, which outranks success. */
  function UrlStatus(s: seq<Byte>): int {
    if Loose in Units(s, true) then HTTP_BAD_REQUEST
    else if exists u :: u in Units(s, true) && BadPath(u) then HTTP_NOT_FOUND
    else OK
  }

  /** The status of a text whose unread part alone would have status `rest`. */
  function Worse(badesc: bool, badpath: bool, rest: int): int {
    if badesc then HTTP_BAD_REQUEST else if badpath && rest == OK then HTTP_NOT_FOUND else rest
  }

  /** Decoding is exactly concatenation of unit values, and 400 means that no unit list spells the text. */
  lemma UrlDecodedExactly(s: seq<Byte>)
    requires WideComplete(s)
    ensures UrlStatus(s) == HTTP_BAD_REQUEST
      <==> !exists us :: AllWellFormed(us, true) && SpellAll(us) == s
    ensures forall us :: AllWellFormed(us, true) && SpellAll(us) == s ==>
      && UrlDecoded(s) == ValueAll(us)
      && (UrlStatus(s) == HTTP_NOT_FOUND <==> exists u :: u in us && BadPath(u))
  {
    LooseOrWellFormed(s, true);
    forall us | AllWellFormed(us, true) && SpellAll(us) == s ensures us == Units(s, true) {
      UnitsOfSpelling(us, true);
    }
    assert Loose !in Units(s, true) ==> AllWellFormed(Units(s, true), true) && SpellAll(Units(s, true)) == s;
  }

  function Spaced(s: seq<Byte>): (r: seq<Byte>)
    ensures |r| == |s|
    ensures forall i :: 0 <= i < |s| ==> r[i] == if s[i] == PLUS then SPACE else s[i]
  {
    if s == [] then [] else [if s[0] == PLUS then SPACE else s[0]] + Spaced(s[1..])
  }

  /** `req_plustospace`. */
  method PlusToSpace(str: array<Byte>)
    requires NUL in str[..]
    modifies str
    ensures str[..] == Spaced(UpToNul(old(str[..]))) + old(str[..])[|UpToNul(old(str[..]))|..]
  {
    ghost var was := str[..];
    ghost var n := |UpToNul(was)|;
    TerminatedLength(was);
    var x := 0;
    while str[x] != NUL
      invariant 0 <= x <= n
      invariant forall k :: 0 <= k < x ==> str[k] == Spaced(was[..n])[k]
      invariant str[x..] == was[x..]
      decreases n - x
    {
      assert str[x..][0] == was[x..][0];
      assert x != n && str[x] == was[x] == was[..n][x];
      if str[x] == PLUS { str[x] := SPACE; }
      x := x + 1;
      assert str[x..] == was[x - 1..][1..];
    }
    assert str[x..][0] == was[x..][0];
    NulIsPast(was, x);
    assert was[..n] == UpToNul(was);
  }

  /** `utf8_convert`: also lowers the case of the digits it reads. */
  method Utf8Convert(url: array<Byte>, start: nat) returns (c: nat)
    requires start + 4 <= url.Length
    modifies url
    ensures c == CodePoint(old(url[start..start + 4])) <= 0xFFFF
    ensures forall k :: 0 <= k < url.Length && !(start <= k < start + 4) ==> url[k] == old(url[k])
  {
    ghost var digits := url[start..start + 4];
    c := 0;
    var i := 0;
    while i < 4
      invariant 0 <= i <= 4
      invariant forall k :: 0 <= k < i ==> IsHex(digits[k])
      invariant c == HexNumber(digits[..i])
      invariant forall k :: 0 <= k < url.Length && !(start <= k < start + i) ==> url[k] == old(url[k])
    {
      assert url[start + i] == digits[i];
      assert digits[..i + 1][..i] == digits[..i];
      if IsHex(url[start + i]) {
        if IsDigit(url[start + i]) {
          c := c * 16 + url[start + i] - '0' as int;
        } else {
          if url[start + i] <= 'Z' as int { url[start + i] := url[start + i] + 32; }
          c := c * 16 + url[start + i] - 'a' as int + 10;
        }
      } else {
        assert digits[i] in digits;
        return 0;
      }
      i := i + 1;
    }
    assert digits[..4] == digits;
  }

  /** Taking the first unit off the unread text. */
  lemma UnitsStep(s: seq<Byte>)
    requires s != []
    ensures UrlDecoded(s) == Value(Next(s, true)) + UrlDecoded(s[|Spell(Next(s, true))|..])
    ensures UrlStatus(s)
      == Worse(Next(s, true) == Loose, BadPath(Next(s, true)), UrlStatus(s[|Spell(Next(s, true))|..]))
    ensures WideComplete(s) ==>
      && WideComplete(s[|Spell(Next(s, true))|..])
      && (Next(s, true).Wide? ==> |Next(s, true).digits| == 4)
  {
    var u := Next(s, true);
    var tail := Units(s[|Spell(u)|..], true);
    assert Units(s, true) == [u] + tail;
    assert Units(s, true)[1..] == tail;
    assert u in Units(s, true);
    assert forall v :: v in tail ==> v in Units(s, true);
  }

  /**
   * The decoding loop after reading `y` bytes of `s` and writing `x`: the tail of the buffer is still the
   * old one, and what is written followed by what the rest decodes to is the whole result.
   */
  ghost predicate Decoding(was: seq<Byte>, s: seq<Byte>, now: seq<Byte>, x: nat, y: nat, badesc: bool, badpath: bool) {
    && s == UpToNul(was) && x <= y <= |s| < |was| == |now|
    && now[y..] == was[y..]
    && WideComplete(s[y..])
    && UrlDecoded(s) == now[..x] + UrlDecoded(s[y..])
    && UrlStatus(s) == Worse(badesc, badpath, UrlStatus(s[y..]))
  }

  /** In front of index `y` stands the unread text `tail`, ended by a NUL, with the unit `u` first. */
  predicate UnitAhead(now: seq<Byte>, x: nat, y: nat, tail: seq<Byte>, u: Unit) {
    && x <= y && tail != [] && y + |tail| < |now| && now[y..y + |tail|] == tail && now[y + |tail|] == NUL
    && u == Next(tail, true) && (u.Wide? ==> |u.digits| == 4)
  }

  /** The unit has been read and its value written behind what was written; the rest is as it was. */
  predicate UnitDone(now: seq<Byte>, x: nat, y: nat, u: Unit, then': seq<Byte>, x': nat, y': nat) {
    && y' == y + |Spell(u)| && x' == x + |Value(u)| <= y' && x <= y <= y' <= |then'| == |now|
    && then'[..x'] == now[..x] + Value(u) && then'[y'..] == now[y..][y' - y..]
  }

  lemma TailStands(was: seq<Byte>, s: seq<Byte>, now: seq<Byte>, y: nat)
    requires y <= |s| < |was| == |now| && s <= was && was[|s|] == NUL && now[y..] == was[y..]
    ensures now[y..|s|] == s[y..] && now[|s|] == NUL && (y == |s| ==> now[y] == NUL)
  {
    var n := |s| - y;
    assert now[y..][..n] == now[y..|s|] && was[y..][..n] == was[y..|s|] == s[y..];
    assert now[y..][n] == now[|s|] && was[y..][n] == was[|s|];
  }

  /** What one turn finds in front of it. */
  lemma TurnFinds(was: seq<Byte>, s: seq<Byte>, now: seq<Byte>, x: nat, y: nat, badesc: bool, badpath: bool)
    requires Decoding(was, s, now, x, y, badesc, badpath) && now[y] != NUL
    ensures y < |s| && UnitAhead(now, x, y, s[y..], Next(s[y..], true))
  {
    TailStands(was, s, now, y);
    WideAhead(s[y..]);
  }

  lemma WideAhead(tail: seq<Byte>)
    requires tail != [] && WideComplete(tail)
    ensures Next(tail, true).Wide? ==> |Next(tail, true).digits| == 4
  {
    UnitsStep(tail);
  }

  lemma WorseTwice(e: bool, p: bool, e': bool, p': bool, rest: int)
    ensures Worse(e, p, Worse(e', p', rest)) == Worse(e || e', p || p', rest)
  {
  }

  lemma DropDrop<T>(s: seq<T>, i: nat, j: nat)
    requires i + j <= |s|
    ensures s[i..][j..] == s[i + j..]
  {
  }

  /** Moving one unit from the unread text to the output changes neither the result nor the status. */
  lemma UnreadStep(unread: seq<Byte>, rest: seq<Byte>, done: seq<Byte>, more: seq<Byte>,
      badesc: bool, badpath: bool, u: Unit)
    requires unread != [] && u == Next(unread, true) && rest == unread[|Spell(u)|..]
    requires WideComplete(unread) && more == done + Value(u)
    ensures WideComplete(rest)
    ensures done + UrlDecoded(unread) == more + UrlDecoded(rest)
    ensures Worse(badesc, badpath, UrlStatus(unread))
      == Worse(badesc || u == Loose, badpath || BadPath(u), UrlStatus(rest))
  {
    UnitsStep(unread);
    Regroup(done, Value(u), UrlDecoded(rest));
    WorseTwice(badesc, badpath, u == Loose, BadPath(u), UrlStatus(rest));
  }

  /** A turn that reads one unit and writes its value keeps the loop's promise. */
  lemma TurnKeeps(was: seq<Byte>, s: seq<Byte>, now: seq<Byte>, x: nat, y: nat, badesc: bool, badpath: bool,
      u: Unit, then': seq<Byte>, x': nat, y': nat)
    requires Decoding(was, s, now, x, y, badesc, badpath) && UnitAhead(now, x, y, s[y..], u)
    requires UnitDone(now, x, y, u, then', x', y')
    ensures Decoding(was, s, then', x', y', badesc || u == Loose, badpath || BadPath(u))
  {
    DropDrop(s, y, |Spell(u)|);
    DropDrop(was, y, y' - y);
    UnreadStep(s[y..], s[y'..], now[..x], then'[..x'], badesc, badpath, u);
  }

  /** At the terminator nothing is unread. */
  lemma TurnsEnd(was: seq<Byte>, s: seq<Byte>, now: seq<Byte>, x: nat, y: nat, badesc: bool, badpath: bool)
    requires Decoding(was, s, now, x, y, badesc, badpath) && now[y] == NUL
    ensures y == |s| && UrlDecoded(s) == now[..x]
    ensures UrlStatus(s) == if badesc then HTTP_BAD_REQUEST else if badpath then HTTP_NOT_FOUND else OK
  {
    assert now[y] == now[y..][0] == was[y];
    NulIsPast(was, y);
    assert s[y..] == [];
    assert now[..x] + [] == now[..x];
  }

  /** Writes the value of one unit at `x`, never past the text already read. */
  method Emit(url: array<Byte>, x: nat, c: nat) returns (x': nat)
    requires c <= 0xFFFF && x + 3 <= url.Length
    modifies url
    ensures x' == x + |Utf8(c)| && url[x..x'] == Utf8(c)
    ensures forall k :: 0 <= k < url.Length && !(x <= k < x') ==> url[k] == old(url[k])
  {
    x' := x;
    if c < 0x80 {
      url[x'] := c;
    } else if c < 0x800 {
      url[x'] := 0xc0 + c / 0x40;
      x' := x' + 1;
      url[x'] := 0x80 + c % 0x40;
    } else if c < 0x10000 {
      url[x'] := 0xe0 + c / 0x1000;
      x' := x' + 1;
      url[x'] := 0x80 + c / 0x40 % 0x40;
      x' := x' + 1;
      url[x'] := 0x80 + c % 0x40;
    } else {
      assert false;
    }
    x' := x' + 1;
  }

  /** The wide branch of the decoding loop; on return `x'` is the last index written and `y'` the last read. */
  method UnescapeWide(url: array<Byte>, x: nat, y: nat) returns (x': nat, y': nat)
    requires x <= y && y + 6 <= url.Length
    modifies url
    ensures y' == y + 5
    ensures x' + 1 == x + |Utf8(CodePoint(old(url[y + 2..y + 6])))| <= y' + 1
    ensures url[..x' + 1] == old(url[..x]) + Utf8(CodePoint(old(url[y + 2..y + 6])))
    ensures url[y' + 1..] == old(url[y + 6..])
  {
    ghost var before := url[..x];
    var c := Utf8Convert(url, y + 2);
    assert url[..x] == before;
    y' := y + 5;
    x' := Emit(url, x, c);
    assert url[..x'] == url[..x] + url[x..x'];
    assert url[..x] == before;
    x' := x' - 1;
  }

  /** One turn of the decoding loop on the unread text `s`, which ends at the terminator. */
  method UnescapeUnit(url: array<Byte>, x: nat, y: nat, badesc: bool, badpath: bool, ghost s: seq<Byte>, ghost u: Unit)
    returns (x': nat, y': nat, badesc': bool, badpath': bool)
    requires UnitAhead(url[..], x, y, s, u)
    modifies url
    ensures UnitDone(old(url[..]), x, y, u, url[..], x', y')
    ensures badesc' == (badesc || u == Loose)
    ensures badpath' == (badpath || BadPath(u))
  {
    badesc', badpath' := badesc, badpath;
    x', y' := x, y;
    assert forall k :: 0 <= k < |s| ==> url[y + k] == s[k];
    if url[y] != PERCENT {
      assert u == Plain(s[0]);
      url[x] := url[y];
    } else if IsMark(url[y + 1]) {
      assert |s| >= 2;
      assert u == Wide(s[1], s[2..6]);
      assert url[y + 2..y + 6] == s[2..6];
      x', y' := UnescapeWide(url, x, y);
    } else if !IsHex(url[y + 1]) || !IsHex(url[y + 2]) {
      assert u == Loose;
      badesc' := true;
      url[x] := PERCENT;
    } else {
      assert |s| >= 3;
      assert u == Pair(s[1], s[2]);
      url[x] := X2c(url[y + 1], url[y + 2]);
      y' := y + 2;
      if url[x] == SLASH || url[x] == NUL { badpath' := true; }
    }
    x', y' := x' + 1, y' + 1;
  }

  /** One turn keeps the loop's promise and reads on. */
  method Turn(url: array<Byte>, x: nat, y: nat, badesc: bool, badpath: bool, ghost was: seq<Byte>, ghost s: seq<Byte>)
    returns (x': nat, y': nat, badesc': bool, badpath': bool)
    requires Decoding(was, s, url[..], x, y, badesc, badpath) && url[y] != NUL
    modifies url
    ensures Decoding(was, s, url[..], x', y', badesc', badpath') && y < y'
  {
    TurnFinds(was, s, url[..], x, y, badesc, badpath);
    ghost var now, u := url[..], Next(s[y..], true);
    x', y', badesc', badpath' := UnescapeUnit(url, x, y, badesc, badpath, s[y..], u);
    TurnKeeps(was, s, now, x, y, badesc, badpath, u, url[..], x', y');
  }

  /**
   * `ap_unescape_url_u`: decodes in place, the write index `x` never passing the read index `y`.  The
   * buffer then holds the decoded bytes and a NUL, and nothing behind the old string is touched.
   */
  method UnescapeUrlU(url: array<Byte>) returns (status: int)
    requires NUL in url[..] && WideComplete(UpToNul(url[..]))
    modifies url
    ensures status == UrlStatus(UpToNul(old(url[..])))
    ensures |UrlDecoded(UpToNul(old(url[..])))| <= |UpToNul(old(url[..]))| < url.Length
    ensures url[..|UrlDecoded(UpToNul(old(url[..])))|] == UrlDecoded(UpToNul(old(url[..])))
    ensures url[|UrlDecoded(UpToNul(old(url[..])))|] == NUL
    ensures url[|UpToNul(old(url[..]))|..] == old(url[..])[|UpToNul(old(url[..]))|..]
  {
    ghost var was := url[..];
    ghost var s := UpToNul(was);
    ghost var n := |s|;
    TerminatedLength(was);
    var badesc, badpath := false, false;
    var x: nat, y: nat := 0, 0;
    assert s[0..] == s;
    while url[y] != NUL
      invariant x <= y <= n < url.Length
      invariant Decoding(was, s, url[..], x, y, badesc, badpath)
      decreases n - y
    {
      x, y, badesc, badpath := Turn(url, x, y, badesc, badpath, was, s);
    }
    TurnsEnd(was, s, url[..], x, y, badesc, badpath);
    ghost var now := url[..];
    url[x] := NUL;
    assert url[..x] == now[..x];
    assert url[n..] == now[n..];
    status := if badesc then HTTP_BAD_REQUEST else if badpath then HTTP_NOT_FOUND else OK;
  }
}
