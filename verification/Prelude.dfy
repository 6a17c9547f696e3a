/** Small datatypes and the counting function shared by the other modules. */
module Prelude {

  datatype Option<+T> = None | Some(value: T)

  datatype Result<+T, +E> = Ok(value: T) | Err(error: E)

  function Min(x: int, y: int): int { if x < y then x else y }

  predicate NoRepeats<T(==)>(s: seq<T>) { forall i, j :: 0 <= i < j < |s| ==> s[i] != s[j] }

  lemma Regroup<T>(a: seq<T>, b: seq<T>, c: seq<T>)
    ensures (a + b) + c == a + (b + c)
  {
  }

  /** How many elements of `xs` satisfy `p`. */
  function Tally<T>(xs: seq<T>, p: T -> bool): nat {
    if xs == [] then 0
    else Tally(xs[..|xs| - 1], p) + if p(xs[|xs| - 1]) then 1 else 0
  }

  function Bit(b: bool): nat { if b then 1 else 0 }

  lemma TallyAppend<T>(xs: seq<T>, x: T, p: T -> bool)
    ensures Tally(xs + [x], p) == Tally(xs, p) + Bit(p(x))
  {
    assert (xs + [x])[..|xs|] == xs;
  }

  /** Replacing one element moves the count by the difference at that element. */
  lemma {:induction false} TallyUpdate<T>(xs: seq<T>, i: nat, x: T, p: T -> bool)
    requires i < |xs|
    ensures Tally(xs[i := x], p) + Bit(p(xs[i])) == Tally(xs, p) + Bit(p(x))
  {
    var n := |xs| - 1;
    if i < n {
      TallyUpdate(xs[..n], i, x, p);
      assert xs[i := x][..n] == xs[..n][i := x];
    } else {
      assert xs[i := x][..n] == xs[..n];
    }
  }

  /** A property that implies another is satisfied at most as often. */
  lemma {:induction false} TallyMonotone<T>(xs: seq<T>, p: T -> bool, q: T -> bool)
    requires forall i :: 0 <= i < |xs| && p(xs[i]) ==> q(xs[i])
    ensures Tally(xs, p) <= Tally(xs, q)
  {
    if xs != [] {
      TallyMonotone(xs[..|xs| - 1], p, q);
    }
  }

  /** Counting with a property that splits into two exclusive ones. */
  lemma {:induction false} TallySplit<T>(xs: seq<T>, p: T -> bool, q: T -> bool, r: T -> bool)
    requires forall i :: 0 <= i < |xs| ==> Bit(p(xs[i])) == Bit(q(xs[i])) + Bit(r(xs[i]))
    ensures Tally(xs, p) == Tally(xs, q) + Tally(xs, r)
  {
    if xs != [] {
      var n := |xs| - 1;
      assert forall i :: 0 <= i < n ==> xs[..n][i] == xs[i];
      TallySplit(xs[..n], p, q, r);
    }
  }

  /** How many numbers from `i` up to, not including, `j` satisfy `p`. */
  function CountIf(p: nat -> bool, i: nat, j: nat): nat
    requires i <= j
    decreases j
  {
    if i == j then 0 else CountIf(p, i, j - 1) + Bit(p(j - 1))
  }

  /** A rank that every `own` step lowers, and only an `extra` step may raise, by at most four. */
  lemma {:induction false} RankBudget(
      open: nat -> bool, own: nat -> bool, extra: nat -> bool, rank: nat -> nat, i: nat, j: nat)
    requires i <= j
    requires forall k: nat :: i <= k < j && open(k + 1) ==>
      open(k) && Bit(own(k)) + rank(k + 1) <= rank(k) + 4 * Bit(extra(k))
    ensures open(j) ==> open(i) && CountIf(own, i, j) + rank(j) <= rank(i) + 4 * CountIf(extra, i, j)
    decreases j
  {
    if i < j {
      RankBudget(open, own, extra, rank, i, j - 1);
    }
  }

  /** What holds at `i` and goes on from each moment to the next holds at `j`. */
  lemma {:induction false} HoldsOn(p: nat -> bool, i: nat, j: nat)
    requires i <= j && p(i)
    requires forall k: nat :: i <= k < j && p(k) ==> p(k + 1)
    ensures p(j)
    decreases j
  {
    if i < j {
      HoldsOn(p, i, j - 1);
    }
  }
}
