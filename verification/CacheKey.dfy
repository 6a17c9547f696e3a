/** The script cache's keys (mod_rivet_cache.c): when they tell one file version from another. */
module CacheKey {

  import opened Prelude

  /** A `time_t` as the key holds it. */
  type Time = t: int | -0x8000_0000_0000_0000 <= t < 0x8000_0000_0000_0000

  /** What a cached script is compiled from. */
  datatype Version = Version(
    filename: string, encoding: Option<string>, ctime: Time, mtime: Time, userConf: bool, toplevel: bool)

  const HEX := "0123456789abcdef"

  function HexDigits(n: nat): (s: string)
    ensures s != []
  {
    if n < 16 then [HEX[n]] else HexDigits(n / 16) + [HEX[n % 16]]
  }

  /** `%lx`: the time's 64 bits read as an unsigned number. */
  function HexTime(t: Time): string { HexDigits(Unsigned(t)) }

  function Flag(b: bool): string { if b then "1" else "0" }

  const ENCODING_MARK := "|encoding="

  /** `Rivet_Parse` puts the file's encoding, if any, into the name it makes a key from. */
  function FileKey(filename: string, encoding: Option<string>): string {
    match encoding
    case None => filename
    case Some(e) => filename + ENCODING_MARK + e
  }

  /** `RivetCache_MakeKey`: the fields one behind the other, with one dash. */
  function MakeKey(v: Version): string {
    FileKey(v.filename, v.encoding) + HexTime(v.mtime) + HexTime(v.ctime)
      + Flag(v.toplevel) + "-" + Flag(v.userConf)
  }

  // ----- Hexadecimal strings as numbers -----

  predicate IsHexDigit(c: char) { '0' <= c <= '9' || 'a' <= c <= 'f' }

  function DigitValue(c: char): nat
    requires IsHexDigit(c)
  {
    if c <= '9' then c as int - '0' as int else c as int - 'a' as int + 10
  }

  predicate AllHex(s: string) { forall i :: 0 <= i < |s| ==> IsHexDigit(s[i]) }

  function HexValue(s: string): nat
    requires AllHex(s)
  {
    if s == [] then 0 else HexValue(s[..|s| - 1]) * 16 + DigitValue(s[|s| - 1])
  }

  function Power16(n: nat): nat { if n == 0 then 1 else 16 * Power16(n - 1) }

  lemma DigitReadsBack(d: nat)
    requires d < 16
    ensures IsHexDigit(HEX[d]) && DigitValue(HEX[d]) == d
  {
  }

  lemma AppendDigit(s: string, c: char)
    requires AllHex(s) && IsHexDigit(c)
    ensures AllHex(s + [c]) && HexValue(s + [c]) == HexValue(s) * 16 + DigitValue(c)
  {
    assert (s + [c])[..|s|] == s;
  }

  lemma {:induction false} HexReadsBack(n: nat)
    ensures AllHex(HexDigits(n)) && HexValue(HexDigits(n)) == n
  {
    DigitReadsBack(n % 16);
    if n < 16 {
      AppendDigit([], HEX[n]);
      assert HexDigits(n) == [] + [HEX[n]];
    } else {
      HexReadsBack(n / 16);
      AppendDigit(HexDigits(n / 16), HEX[n % 16]);
    }
  }

  lemma {:induction false} ValueOfJoin(a: string, b: string)
    requires AllHex(a) && AllHex(b)
    ensures AllHex(a + b) && HexValue(a + b) == HexValue(a) * Power16(|b|) + HexValue(b)
  {
    if b == [] {
      assert a + b == a;
    } else {
      var n := |b| - 1;
      ValueOfJoin(a, b[..n]);
      AppendDigit(a + b[..n], b[n]);
      assert a + b == (a + b[..n]) + [b[n]];
      Distribute(HexValue(a), Power16(n));
    }
  }

  lemma Distribute(x: nat, p: nat)
    ensures (x * p) * 16 == x * (16 * p)
  {
  }

  lemma {:induction false} ValueInjective(a: string, b: string)
    requires AllHex(a) && AllHex(b) && |a| == |b| && HexValue(a) == HexValue(b)
    ensures a == b
  {
    if a != [] {
      var n := |a| - 1;
      ValueInjective(a[..n], b[..n]);
      assert a == a[..n] + [a[n]] && b == b[..n] + [b[n]];
    }
  }

  /** The time's bits as an unsigned number. */
  function Unsigned(t: Time): nat { if t < 0 then t + 0x1_0000_0000_0000_0000 else t }

  lemma HexTimeInjective(t: Time, u: Time)
    requires HexTime(t) == HexTime(u)
    ensures t == u
  {
    HexReadsBack(Unsigned(t));
    HexReadsBack(Unsigned(u));
  }

  /** Equal strings whose last parts are equally long have equal parts. */
  lemma Peel(a: string, x: string, b: string, y: string)
    requires a + x == b + y && |x| == |y|
    ensures a == b && x == y
  {
    assert |a| == |b|;
    assert (a + x)[..|a|] == a && (b + y)[..|a|] == b;
    assert (a + x)[|a|..] == x && (b + y)[|a|..] == y;
  }

  function UpToBar(s: string): string {
    if s == [] || s[0] == '|' then [] else [s[0]] + UpToBar(s[1..])
  }

  lemma {:induction false} BarEndsName(f: string, rest: string)
    requires '|' !in f && (rest != [] ==> rest[0] == '|')
    ensures UpToBar(f + rest) == f
  {
    if f == [] {
      assert f + rest == rest;
    } else {
      assert (f + rest)[1..] == f[1..] + rest;
      BarEndsName(f[1..], rest);
    }
  }

  function EncodingPart(encoding: Option<string>): string {
    match encoding
    case None => ""
    case Some(e) => ENCODING_MARK + e
  }

  lemma FileKeyParts(f: string, d: Option<string>)
    ensures FileKey(f, d) == f + EncodingPart(d)
    ensures d == if EncodingPart(d) == "" then None else Some(EncodingPart(d)[|ENCODING_MARK|..])
  {
  }

  /** A name without a bar can be told from its encoding. */
  lemma FileKeyInjective(f: string, d: Option<string>, g: string, e: Option<string>)
    requires '|' !in f && '|' !in g && FileKey(f, d) == FileKey(g, e)
    ensures f == g && d == e
  {
    FileKeyParts(f, d);
    FileKeyParts(g, e);
    BarEndsName(f, EncodingPart(d));
    BarEndsName(g, EncodingPart(e));
    Peel(f, EncodingPart(d), g, EncodingPart(e));
  }

  /** A version whose name has no bar and whose times print with the given numbers of digits. */
  predicate Printed(v: Version, mtimeDigits: nat, ctimeDigits: nat) {
    '|' !in v.filename && |HexTime(v.mtime)| == mtimeDigits && |HexTime(v.ctime)| == ctimeDigits
  }

  /** Two keys are equal exactly when the flags are and the unseparated rest is. */
  lemma KeysEqualExactly(v: Version, w: Version)
    ensures MakeKey(v) == MakeKey(w) <==>
      && v.toplevel == w.toplevel && v.userConf == w.userConf
      && FileKey(v.filename, v.encoding) + HexTime(v.mtime) + HexTime(v.ctime)
         == FileKey(w.filename, w.encoding) + HexTime(w.mtime) + HexTime(w.ctime)
  {
    var a := FileKey(v.filename, v.encoding) + HexTime(v.mtime) + HexTime(v.ctime);
    var b := FileKey(w.filename, w.encoding) + HexTime(w.mtime) + HexTime(w.ctime);
    if MakeKey(v) == MakeKey(w) {
      Peel(a + Flag(v.toplevel) + "-", Flag(v.userConf), b + Flag(w.toplevel) + "-", Flag(w.userConf));
      Peel(a + Flag(v.toplevel), "-", b + Flag(w.toplevel), "-");
      Peel(a, Flag(v.toplevel), b, Flag(w.toplevel));
    }
  }

  /** Among versions whose times print equally long, a key identifies its version. */
  lemma KeyIdentifiesVersion(v: Version, w: Version, mtimeDigits: nat, ctimeDigits: nat)
    requires Printed(v, mtimeDigits, ctimeDigits) && Printed(w, mtimeDigits, ctimeDigits)
    ensures MakeKey(v) == MakeKey(w) <==> v == w
  {
    if MakeKey(v) == MakeKey(w) {
      KeysEqualExactly(v, w);
      var f, g := FileKey(v.filename, v.encoding), FileKey(w.filename, w.encoding);
      Peel(f + HexTime(v.mtime), HexTime(v.ctime), g + HexTime(w.mtime), HexTime(w.ctime));
      Peel(f, HexTime(v.mtime), g, HexTime(w.mtime));
      HexTimeInjective(v.mtime, w.mtime);
      HexTimeInjective(v.ctime, w.ctime);
      FileKeyInjective(v.filename, v.encoding, w.filename, w.encoding);
    }
  }

  // ----- Versions of one file -----

  predicate SameFile(v: Version, w: Version) {
    v.filename == w.filename && v.encoding == w.encoding && v.userConf == w.userConf && v.toplevel == w.toplevel
  }

  /** The two times, printed one behind the other, as one number. */
  function TimesValue(v: Version): int {
    Unsigned(v.mtime) * Power16(|HexTime(v.ctime)|) + Unsigned(v.ctime)
  }

  lemma TimesReadBack(v: Version)
    ensures AllHex(HexTime(v.mtime) + HexTime(v.ctime))
    ensures HexValue(HexTime(v.mtime) + HexTime(v.ctime)) == TimesValue(v)
  {
    HexReadsBack(Unsigned(v.mtime));
    HexReadsBack(Unsigned(v.ctime));
    ValueOfJoin(HexTime(v.mtime), HexTime(v.ctime));
  }

  /**
  Two versions of one file share a key exactly when their times have equally many digits together and
  mtime * 16^digits(ctime) + ctime is the same number.
  */
  lemma TimesCollideExactly(v: Version, w: Version)
    requires SameFile(v, w)
    ensures MakeKey(v) == MakeKey(w) <==>
      && |HexTime(v.mtime)| + |HexTime(v.ctime)| == |HexTime(w.mtime)| + |HexTime(w.ctime)|
      && TimesValue(v) == TimesValue(w)
  {
    var f := FileKey(v.filename, v.encoding);
    var a, b := HexTime(v.mtime) + HexTime(v.ctime), HexTime(w.mtime) + HexTime(w.ctime);
    KeysEqualExactly(v, w);
    TimesReadBack(v);
    TimesReadBack(w);
    Regroup(f, HexTime(v.mtime), HexTime(v.ctime));
    Regroup(f, HexTime(w.mtime), HexTime(w.ctime));
    if f + a == f + b {
      Peel(f, a, f, b);
    } else if |a| == |b| && TimesValue(v) == TimesValue(w) {
      ValueInjective(a, b);
    }
  }

  /** For one file equally long change times alone suffice. */
  lemma CtimesSuffice(v: Version, w: Version)
    requires SameFile(v, w) && |HexTime(v.ctime)| == |HexTime(w.ctime)|
    ensures MakeKey(v) == MakeKey(w) <==> v == w
  {
    if MakeKey(v) == MakeKey(w) {
      TimesCollideExactly(v, w);
      KeysEqualExactly(v, w);
      var f := FileKey(v.filename, v.encoding);
      Peel(f + HexTime(v.mtime), HexTime(v.ctime), f + HexTime(w.mtime), HexTime(w.ctime));
      Peel(f, HexTime(v.mtime), f, HexTime(w.mtime));
      HexTimeInjective(v.mtime, w.mtime);
      HexTimeInjective(v.ctime, w.ctime);
    }
  }

  // ----- Times of the present -----

  /** Microseconds since 1970 that fall between the years 1978 and 2112: thirteen digits. */
  predicate Present(t: Time) { 0x1_0000_0000_0000 <= t < 0x10_0000_0000_0000 }

  lemma {:induction false} DigitsOfPower(n: nat, k: nat)
    requires Power16(k) <= n < Power16(k + 1)
    ensures |HexDigits(n)| == k + 1
  {
    if k > 0 {
      assert Power16(k) == 16 * Power16(k - 1) && Power16(k + 1) == 16 * Power16(k);
      DigitsOfPower(n / 16, k - 1);
      assert Power16(k - 1) >= 1 by { PowerPositive(k - 1); }
    }
  }

  lemma {:induction false} PowerPositive(k: nat)
    ensures Power16(k) >= 1
  {
    if k > 0 { PowerPositive(k - 1); }
  }

  lemma PresentHasThirteenDigits(t: Time)
    requires Present(t)
    ensures |HexTime(t)| == 13
  {
    assert Power16(4) == 0x1_0000;
    assert Power16(8) == 0x1_0000_0000;
    assert Power16(12) == 0x1_0000_0000_0000;
    assert Power16(13) == 0x10_0000_0000_0000;
    DigitsOfPower(t, 12);
  }

  /** Present-day change times tell the versions of one file apart, whatever the modification times. */
  lemma PresentCtimesSuffice(v: Version, w: Version)
    requires SameFile(v, w) && Present(v.ctime) && Present(w.ctime)
    ensures MakeKey(v) == MakeKey(w) <==> v == w
  {
    PresentHasThirteenDigits(v.ctime);
    PresentHasThirteenDigits(w.ctime);
    CtimesSuffice(v, w);
  }

  /** So a file collides with itself only when the clock was off: here it stood in 1978 for the second version. */
  lemma DigitsCanMoveBetweenTimes()
    ensures var v := Version("a.rvt", None, 0x5_f5e1_00ab_cde1, 0x1, false, true);
      var w := Version("a.rvt", None, 0xf5e1_00ab_cde1, 0x15, false, true);
      v != w && Present(v.ctime) && MakeKey(v) == MakeKey(w)
  {
    var v := Version("a.rvt", None, 0x5_f5e1_00ab_cde1, 0x1, false, true);
    var w := Version("a.rvt", None, 0xf5e1_00ab_cde1, 0x15, false, true);
    PresentHasThirteenDigits(v.ctime);
    assert Power16(4) == 0x1_0000;
    assert Power16(8) == 0x1_0000_0000;
    assert Power16(11) == 0x1000_0000_0000;
    assert Power16(12) == 0x1_0000_0000_0000;
    assert Power16(13) == 0x10_0000_0000_0000;
    DigitsOfPower(0xf5e1_00ab_cde1, 11);
    DigitsOfPower(0x1, 0);
    DigitsOfPower(0x15, 1);
    TimesCollideExactly(v, w);
  }

  /** Two files can collide today, when one of them carries a modification time from an archive. */
  lemma DigitsCanMoveFromNames(ctime: Time)
    ensures var v := Version("a1", None, ctime, 0xf4240, false, true);
      var w := Version("a", None, ctime, 0x1f4240, false, true);
      v != w && MakeKey(v) == MakeKey(w)
  {
    var v := Version("a1", None, ctime, 0xf4240, false, true);
    var w := Version("a", None, ctime, 0x1f4240, false, true);
    assert HexDigits(0xf) == "f" && HexDigits(0x1) == "1";
    assert HexDigits(0xf4) == "f4" && HexDigits(0x1f) == "1f";
    assert HexDigits(0xf42) == "f42" && HexDigits(0x1f4) == "1f4";
    assert HexDigits(0xf424) == "f424" && HexDigits(0x1f42) == "1f42";
    assert HexDigits(0xf4240) == "f4240" && HexDigits(0x1f424) == "1f424";
    assert HexDigits(0x1f4240) == "1f4240";
    assert "a1" + HexTime(v.mtime) == "a" + HexTime(w.mtime);
    KeysEqualExactly(v, w);
  }

  /** Two keys written out: the name with its encoding, the modification time, the change time, and the two flags. */
  lemma KeySpelledOut()
    ensures MakeKey(Version("a", Some("b"), 0x1a, 0x2f, true, false)) == "a|encoding=b2f1a0-1"
    ensures MakeKey(Version("a", None, 0x2f, 0x1a, false, true)) == "a1a2f1-0"
  {
    var name := FileKey("a", Some("b"));
    assert HexTime(0x2f) == "2f" && HexTime(0x1a) == "1a";
    assert MakeKey(Version("a", Some("b"), 0x1a, 0x2f, true, false)) == name + "2f" + "1a" + "0" + "-" + "1";
  }
}
