/** Running with the script cache gives the answers of running without it, exactly when keys are honest. */
module CacheTheorems {

  import opened Prelude
  import opened CacheKey
  import opened ScriptCache

  /** A nested file is parsed, a top level one is asked for by url_script; either may meet a clean-up. */
  datatype Op = Use(v: Version) | Cleanup(poolCreated: bool)

  function Step(c: Cache, op: Op, compile: Version -> Outcome): (Cache, Option<Answer>) {
    match op
    case Use(v) =>
      var (d, a) := if v.toplevel then UrlStep(c, MakeKey(v), compile(v)) else ParseStep(c, MakeKey(v), compile(v));
      (d, Some(a))
    case Cleanup(poolCreated) => (Emptied(c, poolCreated), None)
  }

  /** What a use of `v` answers for a given outcome of compiling. */
  function Answered(v: Version, o: Outcome): Answer {
    match o
    case Compiled(s) => if v.toplevel then Returned(s) else Evaluated(s)
    case Unreadable(partial) => if v.toplevel then Returned(partial) else ReadFailed
  }

  /** The same operation without a cache. */
  function FreshStep(op: Op, compile: Version -> Outcome): Option<Answer> {
    match op
    case Use(v) => Some(Answered(v, compile(v)))
    case Cleanup(_) => None
  }

  function Run(c: Cache, ops: seq<Op>, compile: Version -> Outcome): (Cache, seq<Option<Answer>>)
    decreases |ops|
  {
    if ops == [] then (c, [])
    else
      var (d, a) := Step(c, ops[0], compile);
      var (e, rest) := Run(d, ops[1..], compile);
      (e, [a] + rest)
  }

  function FreshRun(ops: seq<Op>, compile: Version -> Outcome): seq<Option<Answer>> {
    if ops == [] then [] else [FreshStep(ops[0], compile)] + FreshRun(ops[1..], compile)
  }

  function NewCache(size: nat): Cache { Cache(size, [], map[], false) }

  ghost predicate OpsOver(ops: seq<Op>, vs: set<Version>) {
    forall op :: op in ops ==> op.Use? ==> op.v in vs
  }

  /** No version that compiles shares its key with one that answers differently. */
  ghost predicate KeysAreHonest(vs: set<Version>, compile: Version -> Outcome) {
    forall v, w :: v in vs && w in vs && MakeKey(v) == MakeKey(w) && compile(v).Compiled? ==>
      Answered(w, compile(w)) == Answered(w, compile(v))
  }

  /** Every cached script is the one compiled from some version with its key. */
  ghost predicate Truthful(c: Cache, vs: set<Version>, compile: Version -> Outcome) {
    forall k :: k in c.table ==> exists v :: v in vs && MakeKey(v) == k && compile(v) == Compiled(c.table[k])
  }

  /** The answer from the cache is one that an honest key allows. */
  lemma HitIsTransparent(c: Cache, v: Version, vs: set<Version>, compile: Version -> Outcome)
    requires Truthful(c, vs, compile) && KeysAreHonest(vs, compile) && v in vs && MakeKey(v) in c.table
    ensures Answered(v, compile(v)) == Answered(v, Compiled(c.table[MakeKey(v)]))
  {
    var k := MakeKey(v);
    var w :| w in vs && MakeKey(w) == k && compile(w) == Compiled(c.table[k]);
    assert Answered(v, compile(v)) == Answered(v, compile(w));
  }

  lemma MissStaysTruthful(c: Cache, v: Version, vs: set<Version>, compile: Version -> Outcome)
    requires Agrees(c) && Truthful(c, vs, compile) && v in vs && MakeKey(v) !in c.table && compile(v).Compiled?
    ensures Agrees(Stored(c, MakeKey(v), compile(v).script))
    ensures Truthful(Stored(c, MakeKey(v), compile(v).script), vs, compile)
  {
    StoredAgrees(c, MakeKey(v), compile(v).script);
  }

  lemma StepIsTransparent(c: Cache, op: Op, vs: set<Version>, compile: Version -> Outcome)
    requires Agrees(c) && Truthful(c, vs, compile) && KeysAreHonest(vs, compile) && (op.Use? ==> op.v in vs)
    ensures Step(c, op, compile).1 == FreshStep(op, compile)
    ensures Agrees(Step(c, op, compile).0) && Truthful(Step(c, op, compile).0, vs, compile)
  {
    if op.Use? {
      var k := MakeKey(op.v);
      if k in c.table {
        HitIsTransparent(c, op.v, vs, compile);
      } else if compile(op.v).Compiled? {
        MissStaysTruthful(c, op.v, vs, compile);
      }
    }
  }

  lemma {:induction false} RunIsTransparent(c: Cache, ops: seq<Op>, vs: set<Version>, compile: Version -> Outcome)
    requires Agrees(c) && Truthful(c, vs, compile) && KeysAreHonest(vs, compile) && OpsOver(ops, vs)
    ensures Run(c, ops, compile).1 == FreshRun(ops, compile)
    ensures Agrees(Run(c, ops, compile).0) && Truthful(Run(c, ops, compile).0, vs, compile)
    decreases |ops|
  {
    if ops != [] {
      StepIsTransparent(c, ops[0], vs, compile);
      RunIsTransparent(Step(c, ops[0], compile).0, ops[1..], vs, compile);
    }
  }

  /**
   * Using a version and then another with its key answers the second with the first one's script; that is
   * the uncached answer exactly when the first does not compile or both compile alike.
   */
  lemma SecondUseIsStale(v: Version, w: Version, size: nat, compile: Version -> Outcome)
    requires size > 0 && MakeKey(v) == MakeKey(w)
    ensures Run(NewCache(size), [Use(v), Use(w)], compile).1 == FreshRun([Use(v), Use(w)], compile)
      <==> (compile(v).Compiled? ==> Answered(w, compile(w)) == Answered(w, compile(v)))
  {
    var ops := [Use(v), Use(w)];
    KeysEqualExactly(v, w);
    assert ops[1..] == [Use(w)] && ops[1..][1..] == [];
    var c := Step(NewCache(size), Use(v), compile).0;
    assert Run(c, [Use(w)], compile).1 == [Step(c, Use(w), compile).1];
    assert FreshRun([Use(w)], compile) == [FreshStep(Use(w), compile)];
    var x, y := Step(NewCache(size), Use(v), compile).1, Step(c, Use(w), compile).1;
    assert Run(NewCache(size), ops, compile).1 == [x] + [y];
    assert FreshRun(ops, compile) == [FreshStep(Use(v), compile)] + [FreshStep(Use(w), compile)];
    assert x == FreshStep(Use(v), compile);
    assert ([x] + [y])[1] == y;
  }

  /**
   * For a cache of any size and any files: every run of parses, url_scripts and clean-ups answers as
   * without a cache exactly when no two of the versions share a key and answer differently.
   */
  lemma CacheIsTransparentExactly(vs: set<Version>, size: nat, compile: Version -> Outcome)
    requires size > 0
    ensures KeysAreHonest(vs, compile) <==>
      forall ops :: OpsOver(ops, vs) ==> Run(NewCache(size), ops, compile).1 == FreshRun(ops, compile)
  {
    if KeysAreHonest(vs, compile) {
      forall ops | OpsOver(ops, vs) ensures Run(NewCache(size), ops, compile).1 == FreshRun(ops, compile) {
        RunIsTransparent(NewCache(size), ops, vs, compile);
      }
    } else {
      var v, w :| v in vs && w in vs && MakeKey(v) == MakeKey(w) && compile(v).Compiled?
        && Answered(w, compile(w)) != Answered(w, compile(v));
      KeysEqualExactly(v, w);
      SecondUseIsStale(v, w, size, compile);
      assert OpsOver([Use(v), Use(w)], vs);
    }
  }

  /** Versions whose times print equally long need no further assumption. */
  lemma CacheRefinesNoCache(ops: seq<Op>, size: nat, compile: Version -> Outcome, mtimeDigits: nat, ctimeDigits: nat)
    requires forall op :: op in ops && op.Use? ==> Printed(op.v, mtimeDigits, ctimeDigits)
    ensures Run(NewCache(size), ops, compile).1 == FreshRun(ops, compile)
    ensures Agrees(Run(NewCache(size), ops, compile).0)
  {
    var vs := set op | op in ops && op.Use? :: op.v;
    forall v, w | v in vs && w in vs && MakeKey(v) == MakeKey(w) ensures v == w {
      KeyIdentifiesVersion(v, w, mtimeDigits, ctimeDigits);
    }
    RunIsTransparent(NewCache(size), ops, vs, compile);
  }

  // ----- Which scripts stay -----

  /** The keys of the uses that compiled, each where it came up first, newest first. */
  function FirstUses(ops: seq<Op>, compile: Version -> Outcome): seq<string> {
    if ops == [] then []
    else
      var before := FirstUses(ops[..|ops| - 1], compile);
      var op := ops[|ops| - 1];
      if op.Use? && compile(op.v).Compiled? && MakeKey(op.v) !in before then [MakeKey(op.v)] + before else before
  }

  lemma {:induction false} OneMoreStep(c: Cache, ops: seq<Op>, op: Op, compile: Version -> Outcome)
    ensures Run(c, ops + [op], compile).0 == Step(Run(c, ops, compile).0, op, compile).0
    decreases |ops|
  {
    if ops == [] {
      assert [] + [op] == [op] && [op][1..] == [];
    } else {
      assert (ops + [op])[1..] == ops[1..] + [op];
      OneMoreStep(Step(c, ops[0], compile).0, ops[1..], op, compile);
    }
  }

  /** The last `n` of a list, which are the oldest keys, or all of it. */
  function Oldest(s: seq<string>, n: nat): seq<string> { if |s| <= n then s else s[|s| - n..] }

  /**
   * Between two clean-ups the cache holds the first keys that came up with a script, as many as it has room for,
   * in their order; it is marked full exactly when one more has come up.
   */
  lemma {:induction false} FirstScriptsStay(ops: seq<Op>, size: nat, compile: Version -> Outcome)
    requires size > 0 && forall op :: op in ops ==> op.Use?
    ensures var c := Run(NewCache(size), ops, compile).0;
      && Agrees(c) && c.size == size && c.keys == Oldest(FirstUses(ops, compile), size)
      && (c.full <==> |FirstUses(ops, compile)| > size)
    decreases |ops|
  {
    if ops != [] {
      var n := |ops| - 1;
      assert ops == ops[..n] + [ops[n]];
      FirstScriptsStay(ops[..n], size, compile);
      OneMoreStep(NewCache(size), ops[..n], ops[n], compile);
      FirstUseIsStored(Run(NewCache(size), ops[..n], compile).0, ops[n].v, FirstUses(ops[..n], compile), compile);
    }
  }

  lemma FirstUseIsStored(c: Cache, v: Version, firsts: seq<string>, compile: Version -> Outcome)
    requires Agrees(c) && c.size > 0 && c.keys == Oldest(firsts, c.size) && (c.full <==> |firsts| > c.size)
    ensures var d := Step(c, Use(v), compile).0;
      var more := if compile(v).Compiled? && MakeKey(v) !in firsts then [MakeKey(v)] + firsts else firsts;
      Agrees(d) && d.size == c.size && d.keys == Oldest(more, c.size) && (d.full <==> |more| > c.size)
  {
    if MakeKey(v) !in c.table && compile(v).Compiled? {
      StoredAgrees(c, MakeKey(v), compile(v).script);
      if |firsts| >= c.size {
        assert Oldest([MakeKey(v)] + firsts, c.size) == Oldest(firsts, c.size);
      }
    } else if MakeKey(v) in c.table {
      assert MakeKey(v) in firsts;
    }
  }
}
