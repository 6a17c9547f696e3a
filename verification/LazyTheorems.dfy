/** Safety of the lazy bridge over all its runs. */
module LazyTheorems {
  import opened Prelude
  import opened LazyBridge
  import opened LazyInvariant

  // ---- wakeups ----

  /** The test of the wait loop in which the worker sits: true means it has to keep waiting. */
  predicate WorkerMustWait(k: LazyWorker) {
    (k.pc == AwaitJob && k.status != Init && k.status != ThreadExit) || (k.pc == AwaitTaken && k.status == Done)
  }

  /**
  At most one thread waits on a worker's condition variable, and every thread that
  still waits unwoken has a loop test that tells it to wait: no wakeup is ever lost.
  */
  lemma NoLostWakeup(tr: seq<State>, steps: seq<Step>, i: nat, w: nat)
    requires IsRun(tr, steps) && i < |tr| && w < |tr[i].workers|
    ensures forall t, t' :: t in tr[i].workers[w].waiters && t' in tr[i].workers[w].waiters ==> t == t'
    ensures Worker(w) in tr[i].workers[w].waiters ==> WorkerMustWait(tr[i].workers[w])
    ensures forall h: nat :: Handler(h) in tr[i].workers[w].waiters ==>
              h < |tr[i].handlers| && tr[i].handlers[h].pc == Waiting(w) && tr[i].workers[w].status != Done
    ensures forall t :: t in tr[i].workers[w].waiters ==> t == Worker(w) || t.Handler?
  {
    RunInv(tr, steps, i);
    assert WorkerOk(tr[i], w);
  }

  // ---- ownership ----

  ghost predicate InSomeArray(s: State, w: nat) { exists v :: 0 <= v < |s.vhosts| && w in s.vhosts[v].idle }

  ghost predicate HeldBySome(s: State, w: nat) {
    exists h :: 0 <= h < |s.handlers| && HasWorker(s.handlers[h].pc, w)
  }

  predicate HasWorker(pc: HandlerPc, w: nat) { pc == Claimed(w) || pc == Waiting(w) }

  predicate HeldByFinalizerNow(s: State, w: nat) { s.fin.Retiring? && s.fin.w == w }

  /** Given back by its handler and not yet pushed. */
  predicate OnItsWayBack(k: LazyWorker) {
    k.pc == PushLock || k.pc == Pushing || (k.pc == AwaitTaken && k.status != Done)
  }

  /**
  A worker is in exactly one of five places: an idle array, the hands of a handler,
  the hands of the finalizer, on its way back to the array, or dismissed.
  */
  lemma ExactlyOnePlace(tr: seq<State>, steps: seq<Step>, i: nat, w: nat)
    requires IsRun(tr, steps) && i < |tr| && w < |tr[i].workers|
    ensures Bit(InSomeArray(tr[i], w)) + Bit(HeldBySome(tr[i], w)) + Bit(HeldByFinalizerNow(tr[i], w))
            + Bit(OnItsWayBack(tr[i].workers[w])) + Bit(tr[i].workers[w].status == ThreadExit) == 1
  {
    var s := tr[i];
    RunInv(tr, steps, i);
    assert WorkerOk(s, w);
    forall v | 0 <= v < |s.vhosts| && w in s.vhosts[v].idle ensures s.workers[w].owner == Pooled {
      assert VhostOk(s, v);
    }
    forall h | 0 <= h < |s.handlers| && HasWorker(s.handlers[h].pc, w) ensures s.workers[w].owner == HeldBy(h) {
      assert HandlerOk(s, h);
    }
  }

  /** Places are not shared: one array, one position in it, one handler, always of the worker's own host. */
  lemma PlacesAreExclusive(tr: seq<State>, steps: seq<Step>, i: nat, w: nat)
    requires IsRun(tr, steps) && i < |tr| && w < |tr[i].workers|
    ensures forall v, p, p' :: 0 <= v < |tr[i].vhosts| && 0 <= p < p' < |tr[i].vhosts[v].idle| ==>
              tr[i].vhosts[v].idle[p] != tr[i].vhosts[v].idle[p']
    ensures forall v :: 0 <= v < |tr[i].vhosts| && w in tr[i].vhosts[v].idle ==> v == tr[i].workers[w].vhost
    ensures forall h :: 0 <= h < |tr[i].handlers| && HasWorker(tr[i].handlers[h].pc, w) ==>
              tr[i].handlers[h].vhost == tr[i].workers[w].vhost
    ensures forall h, h' :: 0 <= h < h' < |tr[i].handlers| && HasWorker(tr[i].handlers[h].pc, w) ==>
              !HasWorker(tr[i].handlers[h'].pc, w)
  {
    var s := tr[i];
    RunInv(tr, steps, i);
    assert WorkerOk(s, w);
    forall v | 0 <= v < |s.vhosts|
      ensures forall p, p' :: 0 <= p < p' < |s.vhosts[v].idle| ==> s.vhosts[v].idle[p] != s.vhosts[v].idle[p']
      ensures w in s.vhosts[v].idle ==> v == s.workers[w].vhost
    {
      assert VhostOk(s, v);
    }
    forall h | 0 <= h < |s.handlers| && HasWorker(s.handlers[h].pc, w)
      ensures s.workers[w].owner == HeldBy(h) && s.handlers[h].vhost == s.workers[w].vhost
    {
      assert HandlerOk(s, h);
    }
  }

  /**
  Content is generated for the request whose handler waits on this worker, on the
  host of that request, and for the first time; nobody else's answer changes.
  */
  lemma ServesItsOwnRequest(tr: seq<State>, steps: seq<Step>, i: nat)
    requires IsRun(tr, steps) && i < |steps| && steps[i].WFinish?
    ensures var k := tr[i].workers[steps[i].w];
            && k.serving.Some? && k.serving.value < |tr[i].handlers|
            && var h := k.serving.value;
            && tr[i].handlers[h].pc == Waiting(steps[i].w)
            && tr[i].handlers[h].vhost == k.vhost
            && tr[i].handlers[h].served == []
            && tr[i + 1].handlers[h].served == [steps[i].code]
            && forall h' :: 0 <= h' < |tr[i].handlers| && h' != h ==> tr[i + 1].handlers[h'] == tr[i].handlers[h']
  {
    RunInv(tr, steps, i);
    assert WorkerOk(tr[i], steps[i].w);
  }

  /** A request is served at most once, and what its handler returns is that answer. */
  lemma ReturnsItsOwnAnswer(tr: seq<State>, steps: seq<Step>, i: nat, h: nat)
    requires IsRun(tr, steps) && i < |tr| && h < |tr[i].handlers|
    ensures |tr[i].handlers[h].served| <= 1
    ensures tr[i].handlers[h].pc.Returned? ==> tr[i].handlers[h].served == [tr[i].handlers[h].pc.code]
    ensures tr[i].handlers[h].pc.Refused? ==> tr[i].handlers[h].served == [] && tr[i].shutdown
  {
    RunInv(tr, steps, i);
    assert HandlerOk(tr[i], h);
    if tr[i].handlers[h].pc.Waiting? {
      assert WorkerOk(tr[i], tr[i].handlers[h].pc.w);
    }
  }

  // ---- the unlocked read of w->conf ----

  /**
  The process ends exactly when a new thread reads `w->conf` while the request that created
  the worker has not yet been handed over; a read that comes later finds the worker's host.
  */
  lemma CrashesExactly(tr: seq<State>, steps: seq<Step>, i: nat)
    requires IsRun(tr, steps) && i < |steps|
    ensures tr[i + 1].crashed <==>
      steps[i].WReadConf? && exists h :: 0 <= h < |tr[i].handlers| && tr[i].handlers[h].pc == Claimed(steps[i].w)
    ensures steps[i].WReadConf? && !tr[i + 1].crashed ==>
      tr[i + 1].workers[steps[i].w].vhost == tr[i].workers[steps[i].w].vhost
  {
    var s, a := tr[i], steps[i];
    RunInv(tr, steps, i);
    if a.WReadConf? {
      assert WorkerOk(s, a.w);
      forall h | 0 <= h < |s.handlers| && s.handlers[h].pc == Claimed(a.w) ensures s.workers[a.w].owner == HeldBy(h) {
        assert HandlerOk(s, h);
      }
    }
  }
}
