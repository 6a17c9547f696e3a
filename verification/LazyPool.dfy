/** How large the pools of the lazy bridge get, and what a script `exit` does to them. */
module LazyPool {
  import opened Prelude
  import opened LazyBridge
  import opened LazyInvariant
  import opened LazyTheorems

  function InVhost(v: nat): LazyWorker -> bool { (k: LazyWorker) => k.vhost == v }

  /** In the hands of a handler or on the way back from one. */
  function BusyIn(v: nat): LazyWorker -> bool {
    (k: LazyWorker) => k.vhost == v && (k.owner.HeldBy? || k.owner.InTransit?)
  }

  function DismissedIn(v: nat): LazyWorker -> bool {
    (k: LazyWorker) => k.vhost == v && (k.owner.HeldByFinalizer? || k.owner.Retired?)
  }

  function NotPooledIn(v: nat): LazyWorker -> bool {
    (k: LazyWorker) => k.vhost == v && k.owner != Pooled
  }

  /**
  Conservation: the workers created for a virtual host are the ones in its idle array,
  the busy ones and the dismissed ones, and `threads_count` counts the live ones.
  */
  lemma PoolIsConserved(tr: seq<State>, steps: seq<Step>, i: nat, v: nat)
    requires IsRun(tr, steps) && i < |tr| && v < |tr[i].vhosts|
    ensures Tally(tr[i].workers, InVhost(v)) ==
            |tr[i].vhosts[v].idle| + Tally(tr[i].workers, BusyIn(v)) + Tally(tr[i].workers, DismissedIn(v))
    ensures tr[i].vhosts[v].threadsCount == Tally(tr[i].workers, CountedIn(v))
    ensures tr[i].vhosts[v].threadsCount <= Tally(tr[i].workers, InVhost(v))
  {
    var s := tr[i];
    RunInv(tr, steps, i);
    assert VhostOk(s, v);
    TallySplit(s.workers, InVhost(v), PooledIn(v), NotPooledIn(v));
    TallySplit(s.workers, NotPooledIn(v), BusyIn(v), DismissedIn(v));
    TallyMonotone(s.workers, CountedIn(v), InVhost(v));
  }

  /** Before shutdown nobody is dismissed. */
  lemma NoneDismissed(s: State, v: nat)
    requires Inv(s) && !s.shutdown
    ensures Tally(s.workers, DismissedIn(v)) == 0
  {
    forall w | 0 <= w < |s.workers| ensures !DismissedIn(v)(s.workers[w]) {
      assert WorkerOk(s, w);
    }
    TallyNone(s.workers, DismissedIn(v));
  }

  lemma {:induction false} TallyNone(ws: seq<LazyWorker>, p: LazyWorker -> bool)
    requires forall w :: 0 <= w < |ws| ==> !p(ws[w])
    ensures Tally(ws, p) == 0
  {
    if ws != [] { TallyNone(ws[..|ws| - 1], p); }
  }

  lemma CreationFindsEmptyArray(tr: seq<State>, steps: seq<Step>, i: nat, v: nat)
    requires IsRun(tr, steps) && i < |steps| && v < |tr[i].vhosts|
    ensures Tally(tr[i + 1].workers, InVhost(v)) <= Tally(tr[i].workers, InVhost(v))
            || Tally(tr[i + 1].workers, InVhost(v)) == Tally(tr[i + 1].workers, BusyIn(v))
  {
    var s, a := tr[i], steps[i];
    RunInv(tr, steps, i);
    StepEffectOk(s, a);
    var e := EffectOf(s, a);
    if e.created.Some? {
      PoolIsConserved(tr, steps, i, v);
      NoneDismissed(s, v);
      TallyAppend(s.workers, e.created.value, InVhost(v));
      TallyAppend(s.workers, e.created.value, BusyIn(v));
    } else if e.worker.Some? {
      TallyUpdate(s.workers, e.worker.value.0, e.worker.value.1, InVhost(v));
    }
  }

  /**
  The pool of a virtual host never outgrows its high-water mark: at some moment up to
  now as many of its workers were busy as there are workers in all.
  */
  lemma {:induction false} PoolWithinHighWaterMark(tr: seq<State>, steps: seq<Step>, i: nat, v: nat) returns (j: nat)
    requires IsRun(tr, steps) && i < |tr| && v < |tr[0].vhosts|
    ensures j <= i && Tally(tr[i].workers, InVhost(v)) <= Tally(tr[j].workers, BusyIn(v))
    ensures |tr[i].vhosts| == |tr[0].vhosts|
  {
    if i == 0 {
      j := 0;
    } else {
      j := PoolWithinHighWaterMark(tr, steps, i - 1, v);
      CreationFindsEmptyArray(tr, steps, i - 1, v);
      if Tally(tr[i].workers, InVhost(v)) == Tally(tr[i].workers, BusyIn(v)) { j := i; }
    }
  }
}
