/** Bytes and C strings. */
module Bytes {

  type Byte = x: int | 0 <= x < 256

  const NUL: Byte := 0
  const LF: Byte := 10
  const CR: Byte := 13

  predicate NoNul(s: seq<Byte>) { NUL !in s }

  /** What a C function sees of a byte string: everything before the first NUL. */
  function UpToNul(s: seq<Byte>): (r: seq<Byte>)
    ensures NoNul(r) && r <= s && (|r| < |s| ==> s[|r|] == NUL)
  {
    if s == [] || s[0] == NUL then [] else [s[0]] + UpToNul(s[1..])
  }

  lemma {:induction false} UpToNulExactly(s: seq<Byte>)
    ensures UpToNul(s) == s <==> NoNul(s)
  {
    if s != [] && s[0] != NUL {
      UpToNulExactly(s[1..]);
      assert s == [s[0]] + s[1..];
    }
  }

  /** A NUL is not inside the C string. */
  lemma {:induction false} NulIsPast(s: seq<Byte>, i: nat)
    requires i < |s| && s[i] == NUL
    ensures |UpToNul(s)| <= i
  {
    if s[0] != NUL {
      NulIsPast(s[1..], i - 1);
    }
  }

  /** The C string held by a buffer ends before the buffer does. */
  lemma {:induction false} TerminatedLength(s: seq<Byte>)
    requires NUL in s
    ensures |UpToNul(s)| < |s|
  {
    if s[0] != NUL {
      TerminatedLength(s[1..]);
    }
  }

  /** Where the first NUL stands decides what the C string is. */
  lemma {:induction false} UpToNulIs(s: seq<Byte>, n: nat)
    requires n < |s| && s[n] == NUL && NoNul(s[..n])
    ensures UpToNul(s) == s[..n]
  {
    if n > 0 {
      assert s[..n][0] == s[0];
      assert s[1..][..n - 1] == s[..n][1..];
      UpToNulIs(s[1..], n - 1);
      assert s[..n] == [s[0]] + s[1..][..n - 1];
    }
  }

  /** A NUL at `n` cuts the C string no matter what follows. */
  lemma {:induction false} UpToNulPrefix(s: seq<Byte>, n: nat)
    requires n < |s| && s[n] == NUL
    ensures UpToNul(s) == UpToNul(s[..n])
  {
    if n > 0 && s[0] != NUL {
      assert s[..n][1..] == s[1..][..n - 1];
      UpToNulPrefix(s[1..], n - 1);
    }
  }

  /** `strcpy` into a fresh buffer that fits. */
  method Duplicate(s: seq<Byte>) returns (str: array<Byte>)
    requires NoNul(s)
    ensures fresh(str) && str[..] == s + [NUL] && NUL in str[..] && UpToNul(str[..]) == s
  {
    str := new Byte[|s| + 1](i => if 0 <= i < |s| then s[i] else NUL);
    assert str[..] == s + [NUL];
    UpToNulIs(s + [NUL], |s|);
    assert (s + [NUL])[..|s|] == s && (s + [NUL])[|s|] == NUL;
  }

  /** The bytes of a buffer before its terminator. */
  method CString(str: array<Byte>) returns (s: seq<Byte>)
    requires NUL in str[..]
    ensures s == UpToNul(str[..])
  {
    var n := 0;
    while str[n] != NUL
      invariant 0 <= n < str.Length && NUL !in str[..n]
      decreases str.Length - n
    {
      n := n + 1;
      assert NUL in str[..n] + str[n..] by { assert str[..] == str[..n] + str[n..]; }
    }
    UpToNulIs(str[..], n);
    s := str[..n];
  }
}
