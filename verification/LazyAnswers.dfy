/** Which requests of the lazy bridge can still be answered. */
module LazyAnswers {
  import opened Prelude
  import opened LazyBridge
  import opened LazyInvariant
  import opened LazyTheorems
  import opened LazyProgress
  import opened LazySeekers
  import opened LazyContinuations
  import opened LazyArrivals

  // ---- exactly ----

  /** What keeps a request from being answered; further requests free one that is only outnumbered. */
  ghost predicate Stuck(s: State, h: nat, arrivals: bool)
    requires IsHandler(s, h)
  {
    Doomed(s, h) || Trapped(s, h) || (!arrivals && Outnumbered(s, h))
  }

  lemma StaysStuck(s: State, a: Step, h: nat, arrivals: bool)
    requires Inv(s) && IsHandler(s, h) && Stuck(s, h, arrivals) && Enabled(s, a)
    requires !FromOutside(a) || (arrivals && a.Arrive?)
    ensures IsHandler(Apply(s, a), h) && Stuck(Apply(s, a), h, arrivals)
  {
    if Doomed(s, h) {
      DoomedForever(s, a, h);
      StepKeepsInv(s, a);
      assert HandlerOk(Apply(s, a), h);
    } else if Trapped(s, h) {
      TrappedUntilDoomed(s, a, h);
    } else {
      OutnumberedUntilTrapped(s, a, h);
    }
  }

  lemma {:induction false} NeverAnswered(s: State, steps: seq<Step>, t: State, h: nat, arrivals: bool)
    requires Inv(s) && IsHandler(s, h) && Stuck(s, h, arrivals) && Leads(s, steps, t) && Unaided(steps, arrivals)
    ensures h < |t.handlers| && Pending(t, h)
    decreases |steps|
  {
    if steps != [] {
      StepKeepsInv(s, steps[0]);
      StaysStuck(s, steps[0], h, arrivals);
      NeverAnswered(Apply(s, steps[0]), steps[1..], t, h, arrivals);
    }
  }

  lemma StuckIsNeverAnswered(s: State, h: nat, arrivals: bool)
    requires Inv(s) && IsHandler(s, h) && Stuck(s, h, arrivals)
    ensures !CanSettle(s, h, arrivals)
  {
    forall more, t | Leads(s, more, t) && Unaided(more, arrivals) ensures !Settled(t, h, s.shutdown) {
      NeverAnswered(s, more, t, h, arrivals);
    }
  }

  lemma FreeIsAnswered(s: State, h: nat)
    requires Inv(s) && !s.crashed && IsHandler(s, h) && Pending(s, h) && !Stuck(s, h, false)
    ensures CanBeAnswered(s, h)
  {
    assert HandlerOk(s, h);
    match s.handlers[h].pc
    case Arrived => if s.shutdown { ArrivedIsRefused(s, h); } else { ArrivedIsAnswered(s, h); }
    case Looking => LookingIsAnswered(s, h);
    case Claimed(w) => HeldIsAnswered(s, h, w);
    case Waiting(w) => HeldIsAnswered(s, h, w);
  }

  /**
  In every reachable state of a live process the threads can by themselves, without a
  spurious wakeup, bring a request to its answer exactly when its worker has not left the
  service loop, its handler is not about to take one that has, and dead workers on top of
  the array do not outnumber those that look for a worker.
  */
  lemma AnsweredExactly(tr: seq<State>, steps: seq<Step>, i: nat, h: nat)
    requires IsRun(tr, steps) && i < |tr| && !tr[i].crashed && h < |tr[i].handlers| && Pending(tr[i], h)
    ensures IsHandler(tr[i], h)
    ensures CanBeAnswered(tr[i], h) <==> !Doomed(tr[i], h) && !Trapped(tr[i], h) && !Outnumbered(tr[i], h)
  {
    RunInv(tr, steps, i);
    assert HandlerOk(tr[i], h);
    if Stuck(tr[i], h, false) {
      StuckIsNeverAnswered(tr[i], h, false);
    } else {
      FreeIsAnswered(tr[i], h);
    }
  }

  /** With further requests coming in, the number of dead workers does not matter: each takes one away and is lost. */
  lemma RescuedExactly(tr: seq<State>, steps: seq<Step>, i: nat, h: nat)
    requires IsRun(tr, steps) && i < |tr| && !tr[i].crashed && h < |tr[i].handlers| && Pending(tr[i], h)
    ensures IsHandler(tr[i], h)
    ensures CanBeRescued(tr[i], h) <==> !Doomed(tr[i], h) && !Trapped(tr[i], h)
  {
    var s := tr[i];
    RunInv(tr, steps, i);
    assert HandlerOk(s, h);
    if Stuck(s, h, true) {
      StuckIsNeverAnswered(s, h, true);
    } else if Outnumbered(s, h) {
      ArrivedIsRescued(s, h);
    } else {
      FreeIsAnswered(s, h);
      AnsweredIsRescued(s, h);
    }
  }

  // ---- no deadlock ----

  /** Nothing can happen any more but what comes from outside or by a spurious wakeup. */
  ghost predicate Quiet(s: State) { forall a :: Enabled(s, a) ==> FromOutside(a) }

  lemma QuietAnswersNobody(s: State, h: nat)
    requires Quiet(s) && h < |s.handlers| && Pending(s, h)
    ensures !CanBeAnswered(s, h)
  {
    forall more, t | Leads(s, more, t) && Unaided(more, false) ensures !Settled(t, h, s.shutdown) {
      if more != [] { WhoeverLeadsIsNotQuiet(s, more, t); }
    }
  }

  lemma WhoeverLeadsIsNotQuiet(s: State, more: seq<Step>, t: State)
    requires more != [] && Leads(s, more, t) && Unaided(more, false)
    ensures !Quiet(s)
  {
    assert Enabled(s, more[0]) && !FromOutside(more[0]);
  }

  /** When all threads have come to rest, every request that is still open is in the hands of a dead worker. */
  lemma QuietMeansDoomed(tr: seq<State>, steps: seq<Step>, i: nat, h: nat)
    requires IsRun(tr, steps) && i < |tr| && !tr[i].crashed && Quiet(tr[i]) && h < |tr[i].handlers| && Pending(tr[i], h)
    ensures Doomed(tr[i], h)
  {
    var s := tr[i];
    RunInv(tr, steps, i);
    QuietAnswersNobody(s, h);
    AnsweredExactly(tr, steps, i, h);
    if s.handlers[h].pc == Looking {
      LookingIsNotQuiet(s, h);
    } else if s.handlers[h].pc == Arrived {
      ArrivedIsNotQuiet(s, h);
    }
  }

  lemma LookingIsNotQuiet(s: State, h: nat)
    requires Inv(s) && !s.crashed && h < |s.handlers| && s.handlers[h].pc == Looking
    ensures !Quiet(s)
  {
    LookupIsEnabled(s, h);
    assert !FromOutside(HLookup(h));
  }

  lemma ArrivedIsNotQuiet(s: State, h: nat)
    requires Inv(s) && !s.crashed && IsHandler(s, h) && s.handlers[h].pc == Arrived
    ensures !Quiet(s)
  {
    var v := s.handlers[h].vhost;
    if VhostFree(s, v) {
      assert Enabled(s, HLock(h)) && !FromOutside(HLock(h));
    } else {
      VhostHolderNeverBlocks(s, v);
      assert !FromOutside(VhostRelease(s, v));
    }
  }

  // ---- scripts that do not call exit ----

  ghost predicate NoExit(steps: seq<Step>) {
    forall i :: 0 <= i < |steps| && steps[i].WFinish? ==> !steps[i].exits
  }

  predicate StaysUnlessRetired(k: LazyWorker) { k.keepGoing || k.status == ThreadExit }

  lemma RetiredIsLeftAlone(s: State, a: Step, w: nat)
    requires Inv(s) && Enabled(s, a) && w < |s.workers| && s.workers[w].status == ThreadExit
    ensures Targets(EffectOf(s, a), w) ==> !a.HLookup? && !a.HHandOff? && !a.HWake? && !a.FPop? && !a.FRetire?
  {
    assert WorkerOk(s, w);
    if a.HLookup? || a.HHandOff? || a.HWake? {
      assert HandlerOk(s, a.h) && VhostOk(s, s.handlers[a.h].vhost);
    } else if a.FPop? {
      assert VhostOk(s, s.fin.idx);
    }
  }

  lemma WorkersStay(s: State, a: Step)
    requires IsWorkerStep(a) && WorkerReady(s, a) && (a.WFinish? ==> !a.exits)
    requires PcOk(s.workers[a.w]) && StaysUnlessRetired(s.workers[a.w])
    ensures WorkerEffect(s, a).worker.Some? ==> StaysUnlessRetired(WorkerEffect(s, a).worker.value.1)
  {
  }

  lemma OthersLetStay(s: State, a: Step, w: nat)
    requires w < |s.workers| && s.workers[w].keepGoing
    requires IsHandlerStep(a) ==> HandlerReady(s, a)
    requires IsFinalizerStep(a) ==> FinalizerStepReady(s, a)
    ensures IsHandlerStep(a) && Targets(HandlerEffect(s, a), w) ==>
      StaysUnlessRetired(HandlerEffect(s, a).worker.value.1)
    ensures IsFinalizerStep(a) && Targets(FinalizerEffect(s, a), w) ==>
      StaysUnlessRetired(FinalizerEffect(s, a).worker.value.1)
  {
  }

  lemma WriteLetsStay(s: State, a: Step, w: nat)
    requires Inv(s) && Enabled(s, a) && (a.WFinish? ==> !a.exits)
    requires w < |s.workers| && StaysUnlessRetired(s.workers[w]) && Targets(EffectOf(s, a), w)
    ensures StaysUnlessRetired(EffectOf(s, a).worker.value.1)
  {
    assert WorkerOk(s, w);
    if IsWorkerStep(a) {
      WorkersStay(s, a);
    } else {
      if s.workers[w].status == ThreadExit {
        RetiredIsLeftAlone(s, a, w);
      }
      OthersLetStay(s, a, w);
    }
  }

  lemma NewcomersStay(s: State, a: Step)
    requires Enabled(s, a) && EffectOf(s, a).created.Some?
    ensures EffectOf(s, a).created.value.keepGoing
  {
  }

  lemma StaysUnlessRetiredStep(s: State, a: Step, w: nat)
    requires Inv(s) && Enabled(s, a) && (a.WFinish? ==> !a.exits)
    requires w < |Apply(s, a).workers| && (w < |s.workers| ==> StaysUnlessRetired(s.workers[w]))
    ensures StaysUnlessRetired(Apply(s, a).workers[w])
  {
    if w >= |s.workers| {
      NewcomersStay(s, a);
    } else if Targets(EffectOf(s, a), w) {
      WriteLetsStay(s, a, w);
    } else {
      WorkerStays(s, EffectOf(s, a), w);
    }
  }

  /** Without `exit` in scripts a worker leaves its loop only when the finalizer tells it to. */
  lemma {:induction false} OnlyRetiredWorkersLeave(tr: seq<State>, steps: seq<Step>, i: nat, w: nat)
    requires IsRun(tr, steps) && NoExit(steps) && i < |tr| && w < |tr[i].workers|
    ensures StaysUnlessRetired(tr[i].workers[w])
  {
    if i > 0 {
      RunInv(tr, steps, i - 1);
      if w < |tr[i - 1].workers| {
        OnlyRetiredWorkersLeave(tr, steps, i - 1, w);
      }
      StaysUnlessRetiredStep(tr[i - 1], steps[i - 1], w);
    }
  }

  lemma NobodyLeaves(tr: seq<State>, steps: seq<Step>, i: nat, w: nat)
    requires IsRun(tr, steps) && NoExit(steps) && i < |tr| && w < |tr[i].workers|
    requires tr[i].workers[w].owner == Pooled || tr[i].workers[w].owner.HeldBy?
    ensures !Quitting(tr[i].workers[w])
  {
    RunInv(tr, steps, i);
    assert WorkerOk(tr[i], w);
    OnlyRetiredWorkersLeave(tr, steps, i, w);
  }

  /** No worker in the array or on its way there is dead. */
  lemma NobodyIsDead(tr: seq<State>, steps: seq<Step>, i: nat, v: nat)
    requires IsRun(tr, steps) && NoExit(steps) && i < |tr| && v < |tr[i].vhosts|
    ensures DeadAhead(tr[i], v) == 0
  {
    var s := tr[i];
    RunInv(tr, steps, i);
    assert VhostOk(s, v);
    var q := s.vhosts[v].idle;
    if q != [] {
      assert WorkerOk(s, q[|q| - 1]);
      OnlyRetiredWorkersLeave(tr, steps, i, q[|q| - 1]);
    }
    if DeadPush(s, v) {
      assert WorkerOk(s, s.vhosts[v].lock.value.w);
      OnlyRetiredWorkersLeave(tr, steps, i, s.vhosts[v].lock.value.w);
    }
  }

  /** Without `exit` in scripts the threads of a live process can bring every request back, shutdown or not. */
  lemma NeverStuckWithoutExit(tr: seq<State>, steps: seq<Step>, i: nat, h: nat)
    requires IsRun(tr, steps) && NoExit(steps) && i < |tr| && !tr[i].crashed
    requires h < |tr[i].handlers| && Pending(tr[i], h)
    ensures CanBeAnswered(tr[i], h)
  {
    var s := tr[i];
    RunInv(tr, steps, i);
    assert HandlerOk(s, h);
    AnsweredExactly(tr, steps, i, h);
    var v := s.handlers[h].vhost;
    if Doomed(s, h) {
      NobodyLeaves(tr, steps, i, s.handlers[h].pc.w);
    } else if Trapped(s, h) {
      assert VhostOk(s, v);
      NobodyLeaves(tr, steps, i, s.vhosts[v].idle[|s.vhosts[v].idle| - 1]);
    } else if Outnumbered(s, h) {
      NobodyIsDead(tr, steps, i, v);
      SeekerCounts(s, h);
    }
  }

  /** No deadlock: without `exit` the threads come to rest only when no request is left. */
  lemma QuietMeansDone(tr: seq<State>, steps: seq<Step>, i: nat, h: nat)
    requires IsRun(tr, steps) && NoExit(steps) && i < |tr| && !tr[i].crashed && Quiet(tr[i]) && h < |tr[i].handlers|
    ensures tr[i].handlers[h].pc.Returned? || tr[i].handlers[h].pc.Refused?
  {
    if Pending(tr[i], h) {
      NeverStuckWithoutExit(tr, steps, i, h);
      QuietAnswersNobody(tr[i], h);
    }
  }
}
