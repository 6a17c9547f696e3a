/** The keyed shift cipher of rivetCrypt.c. */
module Cipher {

  import opened Bytes
  import opened Prelude

  /** A byte as a signed `char`. */
  function Signed(b: Byte): int { if b < 128 then b else b - 256 }

  /** A `char` result as the byte that is stored. */
  function Stored(c: int): Byte
    requires -128 <= c < 128
  {
    if c < 0 then c + 256 else c
  }

  /** The `%` of C: the remainder has the sign of the dividend. */
  function CMod(a: int, b: int): (r: int)
    requires b > 0
    ensures -b < r < b
  {
    if a >= 0 then a % b else -((-a) % b)
  }

  /** A key: an empty one would divide by zero. */
  type Key = k: seq<Byte> | k != [] && NoNul(k) witness [1]

  predicate Printable(b: Byte) { 32 <= b <= 126 }

  /** One character of `Rivet_Crypt` under the key character `k`. */
  function Shifted(c: Byte, k: Byte, encrypt: bool): Byte {
    if !Printable(c) then c
    else if encrypt then Stored(CMod((c - 32) + (Signed(k) - 32), 94) + 32)
    else Stored(CMod((c - 32) - (Signed(k) - 32) + 94, 94) + 32)
  }

  /** A string with every character shifted, the key starting at `offset` and repeating. */
  function Crypted(s: seq<Byte>, key: Key, offset: nat, encrypt: bool): (r: seq<Byte>)
    ensures |r| == |s|
  {
    seq(|s|, j requires 0 <= j < |s| => Shifted(s[j], key[(offset + j) % |key|], encrypt))
  }

  /** The assignment in the loop of `Rivet_Crypt`. */
  method CryptChar(c: Byte, k: Byte, encrypt: bool) returns (r: Byte)
    requires Printable(c)
    ensures r == Shifted(c, k, encrypt)
  {
    if encrypt {
      r := Stored(CMod((c - 32) + (Signed(k) - 32), 94) + 32);
    } else {
      r := Stored(CMod((c - 32) - (Signed(k) - 32) + 94, 94) + 32);
    }
  }

  /** Character `n` of the key repeated for ever. */
  function KeyChar(key: Key, n: nat): Byte {
    if n < |key| then key[n] else KeyChar(key, n - |key|)
  }

  /** `target` is `s` with every character shifted. */
  ghost predicate Targeted(target: seq<Byte>, s: seq<Byte>, key: Key, offset: nat, encrypt: bool) {
    if s == [] then target == []
    else
      && target != [] && target[0] == Shifted(s[0], KeyChar(key, offset), encrypt)
      && Targeted(target[1..], s[1..], key, offset + 1, encrypt)
  }

  lemma {:induction false} TargetedAt(target: seq<Byte>, s: seq<Byte>, key: Key, offset: nat, encrypt: bool, j: nat)
    requires Targeted(target, s, key, offset, encrypt) && j < |s|
    ensures j < |target| && target[j] == Shifted(s[j], KeyChar(key, offset + j), encrypt)
  {
    if j > 0 {
      TargetedAt(target[1..], s[1..], key, offset + 1, encrypt, j - 1);
    }
  }

  lemma {:induction false} KeyCharIsModulo(key: Key, n: nat)
    ensures KeyChar(key, n) == key[n % |key|]
  {
    if n < |key| {
      ModuloIs(n, |key|, 0, n);
    } else {
      KeyCharIsModulo(key, n - |key|);
      ModuloIs(n, |key|, (n - |key|) / |key| + 1, (n - |key|) % |key|);
    }
  }

  lemma {:induction false} CryptedIsTarget(s: seq<Byte>, key: Key, offset: nat, encrypt: bool)
    ensures Targeted(Crypted(s, key, offset, encrypt), s, key, offset, encrypt)
  {
    if s != [] {
      KeyCharIsModulo(key, offset);
      CryptedIsTarget(s[1..], key, offset + 1, encrypt);
      assert Crypted(s, key, offset, encrypt)[1..] == Crypted(s[1..], key, offset + 1, encrypt);
    }
  }

  /** The key pointer at position `n` of the repeated key. */
  ghost predicate KeyAt(key: Key, n: nat, kp: nat) {
    if n < |key| then kp == n else KeyAt(key, n - |key|, kp)
  }

  lemma {:induction false} KeyAtIsModulo(key: Key, n: nat, kp: nat)
    ensures KeyAt(key, n, kp) <==> kp == n % |key|
  {
    if n < |key| {
      ModuloIs(n, |key|, 0, n);
    } else {
      KeyAtIsModulo(key, n - |key|, kp);
      ModuloIs(n, |key|, (n - |key|) / |key| + 1, (n - |key|) % |key|);
    }
  }

  method KeyStart(key: Key, offset: nat) returns (kp: nat)
    ensures KeyAt(key, offset, kp)
  {
    kp := offset % |key|;
    KeyAtIsModulo(key, offset, kp);
  }

  method KeyAdvance(key: Key, kp: nat, ghost n: nat) returns (next: nat)
    requires KeyAt(key, n, kp)
    ensures kp < |key| && key[kp] == KeyChar(key, n) && KeyAt(key, n + 1, next)
  {
    KeyAtIsModulo(key, n, kp);
    KeyCharIsModulo(key, n);
    NextModulo(n, |key|);
    next := if kp + 1 == |key| then 0 else kp + 1;
    KeyAtIsModulo(key, n + 1, next);
  }

  /** The loop at index `i`: so far the string is `target`, from there on as it was. */
  ghost predicate Half(now: seq<Byte>, was: seq<Byte>, target: seq<Byte>, i: nat) {
    i <= |target| <= |was| && now == target[..i] + was[i..]
  }

  /** What the loop is to make of the buffer. */
  ghost predicate Task(was: seq<Byte>, target: seq<Byte>, key: Key, offset: nat, encrypt: bool) {
    NUL in was && |target| == |UpToNul(was)| < |was| && Targeted(target, UpToNul(was), key, offset, encrypt)
  }

  /** How far it has got at index `i`, with the key pointer at `kp`. */
  ghost predicate Got(now: seq<Byte>, was: seq<Byte>, target: seq<Byte>, key: Key, offset: nat, i: nat, kp: nat) {
    Half(now, was, target, i) && i < |now| && KeyAt(key, offset + i, kp)
  }

  lemma NotYetPast(now: seq<Byte>, was: seq<Byte>, target: seq<Byte>, i: nat)
    requires |target| == |UpToNul(was)| < |was| && Half(now, was, target, i) && now[i] != NUL && NUL in was
    ensures i < |target| && UpToNul(was)[i] == was[i]
  {
    TerminatedLength(was);
  }

  lemma LoopEnds(now: seq<Byte>, was: seq<Byte>, target: seq<Byte>, i: nat)
    requires |target| == |UpToNul(was)| < |was| && Half(now, was, target, i) && now[i] == NUL
    ensures now == target + was[|target|..]
  {
    NulIsPast(was, i);
  }

  /** The body of the loop, up to the advance of the key pointer. */
  method CryptAt(str: array<Byte>, i: nat, k: Byte, encrypt: bool, ghost was: seq<Byte>, ghost target: seq<Byte>)
    requires Half(str[..], was, target, i) && i < |target| && target[i] == Shifted(was[i], k, encrypt)
    modifies str
    ensures Half(str[..], was, target, i + 1)
  {
    assert str[..][i] == was[i];
    if str[i] >= 32 && str[i] <= 126 {
      str[i] := CryptChar(str[i], k, encrypt);
    }
    HalfMoves(str[..], was, target, i);
  }

  /** One turn of the loop: a character, and the key pointer on. */
  method Turn(str: array<Byte>, i: nat, key: Key, kp: nat, encrypt: bool,
      ghost offset: nat, ghost was: seq<Byte>, ghost target: seq<Byte>)
    returns (next: nat)
    requires Task(was, target, key, offset, encrypt) && Got(str[..], was, target, key, offset, i, kp) && str[i] != NUL
    modifies str
    ensures i < |target| && Got(str[..], was, target, key, offset, i + 1, next)
  {
    NotYetPast(str[..], was, target, i);
    next := KeyAdvance(key, kp, offset + i);
    TargetedAt(target, UpToNul(was), key, offset, encrypt, i);
    CryptAt(str, i, key[kp], encrypt, was, target);
  }

  lemma HalfMoves(now: seq<Byte>, was: seq<Byte>, target: seq<Byte>, i: nat)
    requires i < |target| <= |was| == |now| && now[i] == target[i]
    requires now[..i] == target[..i] && now[i + 1..] == was[i + 1..]
    ensures now == target[..i + 1] + was[i + 1..]
  {
  }

  /** The loop of `Rivet_Crypt`, and the key pointer it starts with. */
  method CryptLoop(str: array<Byte>, key: Key, offset: nat, encrypt: bool, ghost target: seq<Byte>)
    requires Task(str[..], target, key, offset, encrypt)
    modifies str
    ensures str[..] == target + old(str[..])[|target|..]
  {
    ghost var was := str[..];
    var kp := KeyStart(key, offset);
    var i: nat := 0;
    while str[i] != NUL
      invariant Got(str[..], was, target, key, offset, i, kp)
      decreases |target| - i
    {
      kp := Turn(str, i, key, kp, encrypt, offset, was, target);
      i := i + 1;
    }
    LoopEnds(str[..], was, target, i);
  }

  /** `Rivet_Crypt`: overwrites the string while the key pointer advances and wraps. */
  method Crypt(str: array<Byte>, key: Key, offset: nat, encrypt: bool)
    requires NUL in str[..]
    modifies str
    ensures str[..] == Crypted(UpToNul(old(str[..])), key, offset, encrypt)
      + old(str[..])[|UpToNul(old(str[..]))|..]
  {
    TerminatedLength(str[..]);
    CryptedIsTarget(UpToNul(str[..]), key, offset, encrypt);
    CryptLoop(str, key, offset, encrypt, Crypted(UpToNul(str[..]), key, offset, encrypt));
  }

  lemma NextModulo(n: nat, m: nat)
    requires m > 0
    ensures (n + 1) % m == if n % m + 1 == m then 0 else n % m + 1
  {
    var q := n / m;
    if n % m + 1 == m {
      ModuloIs(n + 1, m, q + 1, 0);
    } else {
      ModuloIs(n + 1, m, q, n % m + 1);
    }
  }

  lemma ModuloIs(n: nat, m: nat, q: nat, r: nat)
    requires m > 0 && n == q * m + r && r < m
    ensures n % m == r
  {
    var d := n / m - q;
    assert m * d == r - n % m;
    MultipleIsFar(m, d);
  }

  lemma MultipleIsFar(m: int, d: int)
    requires m > 0
    ensures d >= 1 ==> m * d >= m
    ensures d <= -1 ==> m * d <= -m
  {
  }

  // ----- The commands -----

  /** All keys in order, each applied to the C string the one before left. */
  function CryptedAll(s: seq<Byte>, keys: seq<Key>, encrypt: bool): seq<Byte>
    decreases |keys|
  {
    if keys == [] then s
    else
      CryptedAll(UpToNul(Crypted(s, keys[0], 0, encrypt)), keys[1..], encrypt)
  }

  /** One key applied to the C string in a buffer. */
  method CryptOnce(buffer: array<Byte>, key: Key, encrypt: bool)
    requires NUL in buffer[..]
    modifies buffer
    ensures NUL in buffer[..]
    ensures UpToNul(buffer[..]) == UpToNul(Crypted(UpToNul(old(buffer[..])), key, 0, encrypt))
  {
    ghost var s := UpToNul(buffer[..]);
    TerminatedLength(buffer[..]);
    Crypt(buffer, key, 0, encrypt);
    UpToNulPrefix(buffer[..], |s|);
    assert buffer[..][..|s|] == Crypted(s, key, 0, encrypt);
  }

  /** `Rivet_EncryptCmd` and `Rivet_DecryptCmd`, which differ in the mode only; no key is a usage error. */
  method CryptCommand(data: seq<Byte>, keys: seq<Key>, encrypt: bool) returns (r: Option<seq<Byte>>)
    requires NoNul(data)
    ensures r == if keys == [] then None else Some(CryptedAll(data, keys, encrypt))
  {
    if keys == [] { return None; }
    var buffer := Duplicate(data);
    var n := 0;
    assert keys[0..] == keys;
    while n < |keys|
      invariant 0 <= n <= |keys| && NUL in buffer[..]
      invariant CryptedAll(data, keys, encrypt) == CryptedAll(UpToNul(buffer[..]), keys[n..], encrypt)
    {
      assert keys[n] == keys[n..][0] && keys[n..][1..] == keys[n + 1..];
      CryptOnce(buffer, keys[n], encrypt);
      n := n + 1;
    }
    var text := CString(buffer);
    r := Some(text);
  }

  // ----- Decrypting undoes encrypting -----

  /** There are 94 residues for 95 printable characters: the tilde becomes a space. */
  function Norm(c: Byte): Byte { if Printable(c) then (c - 32) % 94 + 32 else c }

  /** Each tilde turned into a space, nothing else changed. */
  function Untilde(s: seq<Byte>): (r: seq<Byte>)
    ensures |r| == |s|
    ensures forall j :: 0 <= j < |s| ==> r[j] == if s[j] == 126 then 32 else s[j]
  {
    seq(|s|, j requires 0 <= j < |s| => Norm(s[j]))
  }

  predicate PrintableKey(key: Key) { forall j :: 0 <= j < |key| ==> Printable(key[j]) }

  predicate AllPrintable(keys: seq<Key>) {
    forall i :: 0 <= i < |keys| ==> PrintableKey(keys[i])
  }

  /** The total shift of all keys at a position. */
  function Total(keys: seq<Key>, j: nat): int {
    if keys == [] then 0 else KeyShift(keys[0], j) + Total(keys[1..], j)
  }

  function KeyShift(key: Key, j: nat): int { key[j % |key|] as int - 32 }

  function Signum(encrypt: bool, shift: int): int { if encrypt then shift else -shift }

  /** A character moved by a whole shift at once. */
  function Moved(c: Byte, shift: int): Byte { if Printable(c) then ((c - 32) + shift) % 94 + 32 else c }

  lemma MovedTwice(c: Byte, a: int, b: int)
    ensures Moved(Moved(c, a), b) == Moved(c, a + b)
  {
    if Printable(c) {
      Remainder94(c - 32 + a, b);
    }
  }

  lemma Remainder94(a: int, b: int)
    ensures (a % 94 + b) % 94 == (a + b) % 94
  {
    var q := a / 94;
    assert a + b == a % 94 + b + 94 * q;
  }

  lemma ShiftedMoves(c: Byte, k: Byte, encrypt: bool)
    requires Printable(k)
    ensures Shifted(c, k, encrypt) == Moved(c, if encrypt then k - 32 else 32 - k)
    ensures c != NUL ==> Shifted(c, k, encrypt) != NUL
  {
  }

  lemma OneKeyMoves(s: seq<Byte>, key: Key, encrypt: bool)
    requires NoNul(s) && PrintableKey(key)
    ensures NoNul(Crypted(s, key, 0, encrypt))
    ensures forall j :: 0 <= j < |s| ==>
      Crypted(s, key, 0, encrypt)[j] == Moved(s[j], Signum(encrypt, KeyShift(key, j)))
  {
    forall j | 0 <= j < |s|
      ensures Crypted(s, key, 0, encrypt)[j] == Moved(s[j], Signum(encrypt, KeyShift(key, j))) != NUL
    {
      assert s[j] in s;
      ShiftedMoves(s[j], key[j % |key|], encrypt);
    }
  }

  /** What the commands make of a string when every character moves by the total shift of the keys. */
  predicate MovesBy(s: seq<Byte>, r: seq<Byte>, keys: seq<Key>, encrypt: bool) {
    |r| == |s| && forall j :: 0 <= j < |s| ==> r[j] == Moved(s[j], Signum(encrypt, Total(keys, j)))
  }

  lemma MovesThrough(s: seq<Byte>, t: seq<Byte>, r: seq<Byte>, keys: seq<Key>, encrypt: bool)
    requires keys != [] && |t| == |s|
    requires forall j :: 0 <= j < |s| ==> t[j] == Moved(s[j], Signum(encrypt, KeyShift(keys[0], j)))
    requires keys[1..] == [] ==> r == t
    requires keys[1..] != [] ==> MovesBy(t, r, keys[1..], encrypt)
    ensures MovesBy(s, r, keys, encrypt)
  {
    forall j | 0 <= j < |s| ensures r[j] == Moved(s[j], Signum(encrypt, Total(keys, j))) {
      MovedTwice(s[j], Signum(encrypt, KeyShift(keys[0], j)), Signum(encrypt, Total(keys[1..], j)));
    }
  }

  /** With printable keys the commands move every character by the total shift, whatever the keys' order. */
  lemma {:induction false} CryptedAllMoves(s: seq<Byte>, keys: seq<Key>, encrypt: bool)
    requires NoNul(s) && AllPrintable(keys)
    ensures keys == [] ==> CryptedAll(s, keys, encrypt) == s
    ensures keys != [] ==> MovesBy(s, CryptedAll(s, keys, encrypt), keys, encrypt)
    ensures NoNul(CryptedAll(s, keys, encrypt))
    decreases |keys|
  {
    if keys != [] {
      var t := Crypted(s, keys[0], 0, encrypt);
      OneKeyMoves(s, keys[0], encrypt);
      UpToNulExactly(t);
      CryptedAllMoves(t, keys[1..], encrypt);
      MovesThrough(s, t, CryptedAll(t, keys[1..], encrypt), keys, encrypt);
    }
  }

  /** The total shift does not depend on the order of the keys. */
  lemma {:induction false} TotalIsOfTheMultiset(keys: seq<Key>, other: seq<Key>, j: nat)
    requires multiset(keys) == multiset(other)
    ensures Total(keys, j) == Total(other, j)
    decreases |keys|
  {
    if keys == [] {
      assert |multiset(other)| == 0;
    } else {
      var k := keys[0];
      assert keys == [k] + keys[1..];
      assert k in multiset(other);
      var i :| 0 <= i < |other| && other[i] == k;
      var rest := other[..i] + other[i + 1..];
      assert other == other[..i] + [k] + other[i + 1..];
      assert multiset(rest) == multiset(other) - multiset{k};
      assert multiset(keys[1..]) == multiset(keys) - multiset{k};
      TotalIsOfTheMultiset(keys[1..], rest, j);
      TotalRemove(other, i, j);
    }
  }

  lemma {:induction false} TotalRemove(keys: seq<Key>, i: nat, j: nat)
    requires i < |keys|
    ensures Total(keys, j) == KeyShift(keys[i], j) + Total(keys[..i] + keys[i + 1..], j)
  {
    var rest := keys[..i] + keys[i + 1..];
    if i == 0 {
      assert rest == keys[1..];
    } else {
      TotalRemove(keys[1..], i - 1, j);
      assert rest[0] == keys[0];
      assert rest[1..] == keys[1..][..i - 1] + keys[1..][i..];
    }
  }

  lemma SameKeys(keys: seq<Key>, other: seq<Key>)
    requires keys != [] && AllPrintable(keys) && multiset(other) == multiset(keys)
    ensures other != [] && AllPrintable(other)
  {
    forall i | 0 <= i < |other| ensures PrintableKey(other[i]) {
      assert other[i] in multiset(other);
      assert other[i] in keys;
    }
    assert keys[0] in multiset(other);
  }

  lemma IsUntilde(r: seq<Byte>, s: seq<Byte>)
    requires |r| == |s| && forall j :: 0 <= j < |s| ==> r[j] == Norm(s[j])
    ensures r == Untilde(s)
  {
  }

  /** One character, forward and back by the same shift. */
  lemma MovedBack(c: Byte, shift: int)
    ensures Moved(Moved(c, shift), -shift) == Norm(c)
  {
    MovedTwice(c, shift, -shift);
  }

  /** Decrypting with the encrypting keys in any order restores the data, except that tildes become spaces. */
  lemma DecryptUndoesEncrypt(data: seq<Byte>, keys: seq<Key>, other: seq<Key>)
    requires NoNul(data) && keys != [] && AllPrintable(keys) && multiset(other) == multiset(keys)
    ensures AllPrintable(other)
    ensures CryptedAll(CryptedAll(data, keys, true), other, false) == Untilde(data)
  {
    SameKeys(keys, other);
    var secret := CryptedAll(data, keys, true);
    CryptedAllMoves(data, keys, true);
    CryptedAllMoves(secret, other, false);
    forall j | 0 <= j < |data| ensures CryptedAll(secret, other, false)[j] == Norm(data[j]) {
      TotalIsOfTheMultiset(keys, other, j);
      MovedBack(data[j], Total(keys, j));
    }
    IsUntilde(CryptedAll(secret, other, false), data);
  }

  // ----- Keys of any bytes -----

  /** What a key character must satisfy for one character to come back. */
  predicate Restorable(c: Byte, k: Byte) {
    Printable(c) ==>
      var sum := (c - 32) + (Signed(k) - 32);
      (sum >= 0 || sum % 94 == 0) && !(k == 127 && c == 125)
  }

  lemma RestoredExactly(c: Byte, k: Byte)
    requires c != NUL
    ensures Restorable(c, k) <==> Shifted(Shifted(c, k, true), k, false) == Norm(c)
    ensures Restorable(c, k) ==> Shifted(c, k, true) != NUL
  {
    if Printable(c) {
      var x, d := c - 32, Signed(k) - 32;
      if x + d >= 0 {
        ForwardShift(x, d);
      } else {
        BackwardShift(x, d);
      }
    }
  }

  lemma ForwardShift(x: int, d: int)
    requires 0 <= x <= 94 && -160 <= d <= 95 && x + d >= 0
    ensures 0 <= CMod(x + d, 94)
    ensures CMod(CMod(x + d, 94) - d + 94, 94) == x % 94 <==> !(d == 95 && x == 93)
  {
    var e := (x + d) % 94;
    Remainder94(x + d, 94 - d);
    assert (x + 94) % 94 == x % 94;
  }

  lemma BackwardShift(x: int, d: int)
    requires 0 <= x <= 94 && -160 <= d && x + d < 0
    ensures CMod(x + d, 94) <= 0
    ensures CMod(x + d, 94) == 0 <==> (x + d) % 94 == 0
    ensures (x + d) % 94 == 0 ==> CMod(0 - d + 94, 94) == x % 94
  {
    assert (-(x + d)) % 94 == 0 <==> (x + d) % 94 == 0;
    if (x + d) % 94 == 0 {
      var q := (x + d) / 94;
      assert -d + 94 == x + 94 * (1 - q);
    }
  }

  predicate AllRestorable(data: seq<Byte>, key: Key) {
    forall j :: 0 <= j < |data| ==> Restorable(data[j], key[j % |key|])
  }

  /** Character by character, before any C string is cut short. */
  lemma PositionsRestored(data: seq<Byte>, key: Key)
    requires NoNul(data)
    ensures AllRestorable(data, key) <==> Crypted(Crypted(data, key, 0, true), key, 0, false) == Untilde(data)
    ensures AllRestorable(data, key) ==> NoNul(Crypted(data, key, 0, true)) && NoNul(Untilde(data))
  {
    var t := Crypted(data, key, 0, true);
    var w := Crypted(t, key, 0, false);
    forall j | 0 <= j < |data|
      ensures Restorable(data[j], key[j % |key|]) <==> w[j] == Untilde(data)[j]
      ensures Untilde(data)[j] != NUL
      ensures Restorable(data[j], key[j % |key|]) ==> t[j] != NUL
    {
      assert data[j] in data;
      RestoredExactly(data[j], key[j % |key|]);
    }
  }

  /** With one key of any bytes, decrypting restores the data exactly when every position is restorable. */
  lemma OneKeyRestoresExactly(data: seq<Byte>, key: Key)
    requires NoNul(data)
    ensures CryptedAll(CryptedAll(data, [key], true), [key], false) == Untilde(data) <==> AllRestorable(data, key)
  {
    var t := Crypted(data, key, 0, true);
    var u := UpToNul(t);
    OneKey(data, key, true);
    OneKey(u, key, false);
    PositionsRestored(data, key);
    UpToNulExactly(t);
    if AllRestorable(data, key) {
      UpToNulExactly(Untilde(data));
    } else {
      var w := Crypted(u, key, 0, false);
      assert |UpToNul(w)| == |data| ==> |u| == |data| && u == t && UpToNul(w) == w;
    }
  }

  lemma OneKey(s: seq<Byte>, key: Key, encrypt: bool)
    ensures CryptedAll(s, [key], encrypt) == UpToNul(Crypted(s, key, 0, encrypt))
  {
    assert [key][1..] == [];
  }
}
