/** Safety of the worker bridge over all its runs. */
module WorkerTheorems {
  import opened Prelude
  import opened WorkerBridge
  import opened WorkerInvariant

  // ---- wakeups ----

  predicate ThreadMustWait(k: TclThread) {
    (k.pc == AwaitJob && k.status != Init) || (k.pc == AwaitTaken && k.status != Idle)
  }

  /**
  At most one thread waits on a descriptor, every thread still waiting unwoken has a loop
  test that tells it to wait, and the supervisor sleeps only while there is nothing to do.
  */
  lemma NoLostWakeup(tr: seq<State>, steps: seq<Step>, i: nat, w: nat)
    requires IsRun(tr, steps) && i < |tr| && w < |tr[i].threads|
    ensures forall t, t' :: t in tr[i].threads[w].waiters && t' in tr[i].threads[w].waiters ==> t == t'
    ensures Worker(w) in tr[i].threads[w].waiters ==> ThreadMustWait(tr[i].threads[w])
    ensures forall h: nat :: Handler(h) in tr[i].threads[w].waiters ==>
              h < |tr[i].handlers| && tr[i].handlers[h].pc == Waiting(w) && tr[i].threads[w].status != Done
    ensures forall t :: t in tr[i].threads[w].waiters ==> t == Worker(w) || t.Handler?
    ensures tr[i].g.supWaits ==> tr[i].g.exiting == [] && !tr[i].g.shutdown
  {
    RunInv(tr, steps, i);
    assert ThreadOk(tr[i], w);
  }

  // ---- ownership ----

  predicate HasThread(pc: HandlerPc, w: nat) { pc == Claimed(w) || pc == Waiting(w) }

  ghost predicate HeldBySome(s: State, w: nat) {
    exists h :: 0 <= h < |s.handlers| && HasThread(s.handlers[h].pc, w)
  }

  predicate HeldByShutdownNow(s: State, w: nat) { s.g.sh.Dismissing? && s.g.sh.w == w }

  /**
  A descriptor is never in two of {queue, a handler's hands, the shutdown thread's hands};
  it is in one of them while it is on offer or being served, in none while its owner is
  about to push it.
  */
  lemma AtMostOnePlace(tr: seq<State>, steps: seq<Step>, i: nat, w: nat)
    requires IsRun(tr, steps) && i < |tr| && w < |tr[i].threads|
    ensures var places := Bit(w in tr[i].g.queue) + Bit(HeldBySome(tr[i], w)) + Bit(HeldByShutdownNow(tr[i], w));
            && places <= 1
            && (OnOffer(tr[i].threads[w], w) || tr[i].threads[w].pc == Serving ==> places == 1)
            && (BeforePush(tr[i].threads[w]) || tr[i].threads[w].pc == Served ==> places == 0)
  {
    var s := tr[i];
    RunInv(tr, steps, i);
    assert ThreadOk(s, w);
    forall h | 0 <= h < |s.handlers| && HasThread(s.handlers[h].pc, w) ensures s.threads[w].owner == HeldBy(h) {
      assert HandlerOk(s, h);
    }
  }

  lemma PlacesAreExclusive(tr: seq<State>, steps: seq<Step>, i: nat, w: nat)
    requires IsRun(tr, steps) && i < |tr| && w < |tr[i].threads|
    ensures |tr[i].g.queue| <= 100
    ensures ThreadAt(tr[i], w, Pushing) ==> (Enabled(tr[i], WPush(w)) <==> |tr[i].g.queue| < 100)
    ensures forall p, p' :: 0 <= p < p' < |tr[i].g.queue| ==> tr[i].g.queue[p] != tr[i].g.queue[p']
    ensures forall h, h' :: 0 <= h < h' < |tr[i].handlers| && HasThread(tr[i].handlers[h].pc, w) ==>
              !HasThread(tr[i].handlers[h'].pc, w)
  {
    var s := tr[i];
    RunInv(tr, steps, i);
    forall h | 0 <= h < |s.handlers| && HasThread(s.handlers[h].pc, w) ensures s.threads[w].owner == HeldBy(h) {
      assert HandlerOk(s, h);
    }
  }

  /** Content is generated for the request whose handler waits on this thread, and for the first time. */
  lemma ServesItsOwnRequest(tr: seq<State>, steps: seq<Step>, i: nat)
    requires IsRun(tr, steps) && i < |steps| && steps[i].WFinish?
    ensures var k := tr[i].threads[steps[i].w];
            && k.serving.Some? && k.serving.value < |tr[i].handlers|
            && var h := k.serving.value;
            && tr[i].handlers[h].pc == Waiting(steps[i].w)
            && tr[i].handlers[h].served == []
            && tr[i + 1].handlers[h].served == [steps[i].code]
            && forall h' :: 0 <= h' < |tr[i].handlers| && h' != h ==> tr[i + 1].handlers[h'] == tr[i].handlers[h']
  {
    RunInv(tr, steps, i);
    assert ThreadOk(tr[i], steps[i].w);
  }

  /** A request is served at most once, and what its handler returns is that answer. */
  lemma ReturnsItsOwnAnswer(tr: seq<State>, steps: seq<Step>, i: nat, h: nat)
    requires IsRun(tr, steps) && i < |tr| && h < |tr[i].handlers|
    ensures |tr[i].handlers[h].served| <= 1
    ensures tr[i].handlers[h].pc.Returned? ==> tr[i].handlers[h].served == [tr[i].handlers[h].pc.code]
    ensures tr[i].handlers[h].pc.Refused? ==> tr[i].handlers[h].served == [] && tr[i].g.shutdown
  {
    RunInv(tr, steps, i);
    assert HandlerOk(tr[i], h);
    if tr[i].handlers[h].pc.Waiting? {
      assert ThreadOk(tr[i], tr[i].handlers[h].pc.w);
    }
  }

  // ---- the pool ----

  /**
  The supervisor keeps the pool whole: slots hold pairwise distinct threads, every live
  thread and every thread on the exiting list has a slot, the live ones and the listed ones
  together are exactly the threads started, and no more threads run than are counted.
  */
  lemma PoolStaysWhole(tr: seq<State>, steps: seq<Step>, i: nat)
    requires IsRun(tr, steps) && i < |tr|
    ensures var g := tr[i].g;
            && (forall p, p' :: 0 <= p < p' < |g.slots| && g.slots[p].Some? ==> g.slots[p] != g.slots[p'])
            && (forall x :: 0 <= x < |g.exiting| ==> Some(g.exiting[x]) in g.slots)
            && (forall w :: 0 <= w < |tr[i].threads| && LIVE(tr[i].threads[w]) ==> Some(w) in g.slots)
            && Tally(tr[i].threads, LIVE) + |g.exiting| == Started(g)
            && 0 <= g.runningCount <= g.threadsCount
  {
    RunInv(tr, steps, i);
    forall w | 0 <= w < |tr[i].threads| && LIVE(tr[i].threads[w]) ensures Some(w) in tr[i].g.slots {
      assert ThreadOk(tr[i], w);
    }
    TallyMonotone(tr[i].threads, RUNNING, COUNTED);
  }

  /** A round on a nonempty list finds the slot of the thread it took off and leaves the pool as large as it was. */
  lemma RefillFindsTheSlot(tr: seq<State>, steps: seq<Step>, i: nat)
    requires IsRun(tr, steps) && i < |steps| && steps[i] == SRefill
    requires tr[i].g.exiting != [] && !tr[i].g.shutdown
    ensures var p := tr[i].g.exiting[|tr[i].g.exiting| - 1];
            && FindSlot(tr[i].g.slots, p) < |tr[i].g.slots|
            && tr[i + 1].g.slots == tr[i].g.slots[FindSlot(tr[i].g.slots, p) := Some(|tr[i].threads|)]
            && Some(p) !in tr[i + 1].g.slots
    ensures Tally(tr[i + 1].threads, LIVE) == Tally(tr[i].threads, LIVE) + 1
  {
    var p := tr[i].g.exiting[|tr[i].g.exiting| - 1];
    RunInv(tr, steps, i);
    FoundSlot(tr[i].g.slots, p);
    TallyAppend(tr[i].threads, NEW_THREAD, LIVE);
  }

  /** Once the list is drained the number of live threads is the number started. */
  lemma DrainedPoolIsFull(tr: seq<State>, steps: seq<Step>, i: nat)
    requires IsRun(tr, steps) && i < |tr| && !tr[i].g.sup.Starting? && tr[i].g.exiting == []
    ensures Tally(tr[i].threads, LIVE) == tr[i].g.toStart
  {
    RunInv(tr, steps, i);
  }
}
