/** How the threads of the lazy bridge bring back a request that holds a worker, or is about to take one. */
module LazyContinuations {
  import opened Prelude
  import opened LazyBridge
  import opened LazyInvariant
  import opened LazyTheorems
  import opened LazyProgress
  import opened LazySeekers

  /** Not a step that the threads of the process take of themselves. */
  predicate FromOutside(a: Step) { a.Arrive? || a.FStart? || a.Spurious? }

  /** No shutdown and no spurious wakeup on the way, and further requests only if `arrivals` allows them. */
  ghost predicate Unaided(steps: seq<Step>, arrivals: bool) {
    forall i :: 0 <= i < |steps| ==> !FromOutside(steps[i]) || (arrivals && steps[i].Arrive?)
  }

  ghost predicate CanSettle(s: State, h: nat, arrivals: bool) {
    exists steps, t :: Leads(s, steps, t) && Unaided(steps, arrivals) && Settled(t, h, s.shutdown)
  }

  /** The threads can bring the handler of `h` back by themselves. */
  ghost predicate CanBeAnswered(s: State, h: nat) { CanSettle(s, h, false) }

  /** They can if further requests come in. */
  ghost predicate CanBeRescued(s: State, h: nat) { CanSettle(s, h, true) }

  /** The handler of `h` has returned its answer; only after a shutdown a refusal counts too. */
  predicate Settled(t: State, h: nat, shutdown: bool) {
    h < |t.handlers| && (t.handlers[h].pc.Returned? || (shutdown && t.handlers[h].pc.Refused?))
  }

  lemma LeadsOn(s: State, a: Step, rest: seq<Step>, t: State)
    requires Enabled(s, a) && Leads(Apply(s, a), rest, t)
    ensures Leads(s, [a] + rest, t)
  {
    assert ([a] + rest)[1..] == rest;
  }

  /** What can be answered after a step could be answered before it. */
  lemma CanStill(s: State, a: Step, h: nat, arrivals: bool)
    requires Enabled(s, a) && (!FromOutside(a) || (arrivals && a.Arrive?)) && CanSettle(Apply(s, a), h, arrivals)
    ensures CanSettle(s, h, arrivals)
  {
    var rest, t :| Leads(Apply(s, a), rest, t) && Unaided(rest, arrivals) && Settled(t, h, Apply(s, a).shutdown);
    LeadsOn(s, a, rest, t);
    OnlyTheStartShutsDown(s, a);
  }

  lemma Answered(s: State, h: nat)
    requires Settled(s, h, s.shutdown)
    ensures CanBeAnswered(s, h)
  {
    assert Leads(s, [], s);
  }

  lemma AnsweredIsRescued(s: State, h: nat)
    requires CanBeAnswered(s, h)
    ensures CanBeRescued(s, h)
  {
    var steps, t :| Leads(s, steps, t) && Unaided(steps, false) && Settled(t, h, s.shutdown);
    assert Unaided(steps, true);
  }

  // ---- a request that holds a worker ----

  /** A thread that `cond_signal` may wake. */
  ghost function Pick(waiters: set<Thread>): (t: Thread)
    ensures SignalPicks(waiters, t)
  {
    if waiters == {} then Finalizer else var t :| t in waiters; t
  }

  /** The next step of a worker that has a request. */
  ghost function WorkerNext(s: State, w: nat): Step
    requires IsWorker(s, w)
  {
    var k := s.workers[w];
    match k.pc
    case Starting => WReadConf(w)
    case Configured => if VhostFree(s, k.vhost) then WLockCount(w) else VhostRelease(s, k.vhost)
    case Counting => WCount(w)
    case Entering => WEnter(w)
    case LoopTop => WLoop(w)
    case AwaitJob => WWakeJob(w)
    case _ => WFinish(w, 0, false, Pick(k.waiters))
  }

  /** A step that brings a request with worker `w` in hand forward; the hand-off comes before anything else. */
  ghost function HeldNext(s: State, h: nat, w: nat): Step
    requires Held(s, h, w)
  {
    var k := s.workers[w];
    if s.handlers[h].pc.Claimed? then if !k.locked then HHandOff(h, Pick(k.waiters)) else WLoop(w)
    else if k.status == Done then HWake(h, Pick(k.waiters))
    else WorkerNext(s, w)
  }

  /** The worker has to wait for the mutex of its virtual host. */
  predicate Blocked(s: State, w: nat)
    requires IsWorker(s, w)
  {
    s.workers[w].pc == Configured && !VhostFree(s, s.workers[w].vhost)
  }

  /** A thread can take step `a`, which does not end the process. */
  ghost predicate Safe(s: State, a: Step) { Enabled(s, a) && !FromOutside(a) && !Apply(s, a).crashed }

  lemma ClaimedNextIsSafe(s: State, h: nat, w: nat)
    requires !s.crashed && Held(s, h, w) && s.handlers[h].pc == Claimed(w) && !Quitting(s.workers[w])
    ensures Safe(s, HeldNext(s, h, w))
  {
  }

  lemma WaitingNextIsSafe(s: State, h: nat, w: nat)
    requires !s.crashed && Held(s, h, w) && s.handlers[h].pc == Waiting(w) && !Quitting(s.workers[w]) && !Blocked(s, w)
    ensures Safe(s, HeldNext(s, h, w))
  {
  }

  lemma HeldNextIsSafe(s: State, h: nat, w: nat)
    requires Inv(s) && !s.crashed && Held(s, h, w) && !Quitting(s.workers[w])
    ensures Safe(s, HeldNext(s, h, w))
  {
    if s.handlers[h].pc == Claimed(w) {
      ClaimedNextIsSafe(s, h, w);
    } else if Blocked(s, w) {
      BlockedNextIsSafe(s, h, w);
    } else {
      WaitingNextIsSafe(s, h, w);
    }
  }

  lemma BlockedNextIsSafe(s: State, h: nat, w: nat)
    requires Inv(s) && !s.crashed && Held(s, h, w) && s.handlers[h].pc == Waiting(w) && Blocked(s, w)
    ensures Safe(s, HeldNext(s, h, w)) && HeldNext(s, h, w) == VhostRelease(s, s.workers[w].vhost)
  {
    VhostHolderNeverBlocks(s, s.workers[w].vhost);
  }

  lemma ReleaseIsNotOwn(s: State, h: nat, w: nat)
    requires Inv(s) && Held(s, h, w) && Blocked(s, w)
    ensures !TakenBy(VhostRelease(s, s.workers[w].vhost), h, w)
  {
    assert VhostOk(s, s.workers[w].vhost);
  }

  /** Answered, or still in the hands of a worker in its loop. */
  predicate GoesOn(s: State, h: nat, w: nat) {
    && h < |s.handlers| && w < |s.workers|
    && (s.handlers[h].pc.Returned? || (HasWorker(s.handlers[h].pc, w) && !Quitting(s.workers[w])))
  }

  lemma ClaimedGoesOn(s: State, h: nat, w: nat)
    requires Held(s, h, w) && s.handlers[h].pc == Claimed(w) && !Quitting(s.workers[w])
    requires Enabled(s, HeldNext(s, h, w))
    ensures GoesOn(Apply(s, HeldNext(s, h, w)), h, w)
  {
  }

  lemma AnswerIsCollected(s: State, h: nat, w: nat)
    requires Held(s, h, w) && s.handlers[h].pc == Waiting(w) && s.workers[w].status == Done && !Quitting(s.workers[w])
    requires Enabled(s, HeldNext(s, h, w))
    ensures GoesOn(Apply(s, HeldNext(s, h, w)), h, w)
  {
  }

  lemma WorkerGoesOn(s: State, h: nat, w: nat)
    requires Held(s, h, w) && s.handlers[h].pc == Waiting(w) && s.workers[w].status != Done
    requires !Quitting(s.workers[w]) && !Blocked(s, w) && Enabled(s, WorkerNext(s, w))
    ensures GoesOn(Apply(s, WorkerNext(s, w)), h, w)
  {
  }

  lemma WaitingGoesOn(s: State, h: nat, w: nat)
    requires Held(s, h, w) && s.handlers[h].pc == Waiting(w) && !Quitting(s.workers[w]) && !Blocked(s, w)
    requires Enabled(s, HeldNext(s, h, w))
    ensures GoesOn(Apply(s, HeldNext(s, h, w)), h, w)
  {
    if s.workers[w].status == Done {
      AnswerIsCollected(s, h, w);
    } else {
      WorkerGoesOn(s, h, w);
    }
  }

  lemma NextIsOwn(s: State, h: nat, w: nat)
    requires Held(s, h, w) && !Quitting(s.workers[w]) && !(Blocked(s, w) && s.handlers[h].pc == Waiting(w))
    ensures TakenBy(HeldNext(s, h, w), h, w)
  {
  }

  /** After that step the request is answered, or the worker is still in its loop and nearer to the answer. */
  lemma HeldNextHelps(s: State, h: nat, w: nat)
    requires Inv(s) && Held(s, h, w) && !Quitting(s.workers[w]) && Safe(s, HeldNext(s, h, w))
    requires !(Blocked(s, w) && s.handlers[h].pc == Waiting(w))
    ensures GoesOn(Apply(s, HeldNext(s, h, w)), h, w) && Rank(Apply(s, HeldNext(s, h, w)), h) < Rank(s, h)
  {
    NextIsOwn(s, h, w);
    OwnStepsDecrease(s, HeldNext(s, h, w), h);
    if s.handlers[h].pc == Claimed(w) {
      ClaimedGoesOn(s, h, w);
    } else {
      WaitingGoesOn(s, h, w);
    }
  }

  /** If the worker is kept from the mutex of its host, that step gives the mutex back. */
  lemma BlockedNextHelps(s: State, h: nat, w: nat)
    requires Inv(s) && Held(s, h, w) && !Quitting(s.workers[w]) && Safe(s, HeldNext(s, h, w))
    requires Blocked(s, w) && s.handlers[h].pc == Waiting(w)
    ensures var s' := Apply(s, HeldNext(s, h, w));
      && GoesOn(s', h, w) && Rank(s', h) == Rank(s, h)
      && s'.workers[w] == s.workers[w] && |s'.vhosts| == |s.vhosts| && VhostFree(s', s.workers[w].vhost)
  {
    BlockedNextIsSafe(s, h, w);
    ReleaseIsNotOwn(s, h, w);
    VhostHolderNeverBlocks(s, s.workers[w].vhost);
    OthersLeaveItAlone(s, HeldNext(s, h, w), h, w);
  }

  lemma {:induction false} HeldIsAnswered(s: State, h: nat, w: nat)
    requires Inv(s) && !s.crashed && h < |s.handlers| && HasWorker(s.handlers[h].pc, w)
    requires w < |s.workers| && !Quitting(s.workers[w])
    ensures CanBeAnswered(s, h)
    decreases Rank(s, h), IsWorker(s, w) && Blocked(s, w)
  {
    HoldersHold(s, h, w);
    HeldNextIsSafe(s, h, w);
    if Blocked(s, w) && s.handlers[h].pc == Waiting(w) {
      BlockedNextHelps(s, h, w);
    } else {
      HeldNextHelps(s, h, w);
    }
    var a := HeldNext(s, h, w);
    var s' := Apply(s, a);
    StepKeepsInv(s, a);
    if Pending(s', h) {
      HeldIsAnswered(s', h, w);
    } else {
      Answered(s', h);
    }
    CanStill(s, a, h, false);
  }

  // ---- a request that has no worker yet ----

  lemma LookingIsAnswered(s: State, h: nat)
    requires Inv(s) && !s.crashed && IsHandler(s, h) && s.handlers[h].pc == Looking && !Trapped(s, h)
    ensures CanBeAnswered(s, h)
  {
    LookupIsEnabled(s, h);
    var a := HLookup(h);
    var s' := Apply(s, a);
    StepKeepsInv(s, a);
    if s.shutdown {
      Answered(s', h);
    } else {
      LookupFinds(s, h);
      HeldIsAnswered(s', h, s'.handlers[h].pc.w);
    }
    CanStill(s, a, h, false);
  }

  /** Before shutdown the lookup ends with a worker: the one on top, or a new one. */
  lemma LookupFinds(s: State, h: nat)
    requires Enabled(s, HLookup(h)) && !s.shutdown && !Trapped(s, h)
    ensures var s' := Apply(s, HLookup(h));
      && !s'.crashed && h < |s'.handlers| && s'.handlers[h].pc.Claimed?
      && s'.handlers[h].pc.w < |s'.workers| && !Quitting(s'.workers[s'.handlers[h].pc.w])
  {
  }
}
