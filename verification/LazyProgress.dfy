/** What one step does to a request of the lazy bridge that is not answered yet. */
module LazyProgress {
  import opened Prelude
  import opened LazyBridge
  import opened LazyInvariant
  import opened LazyTheorems

  predicate Pending(s: State, h: nat)
    requires h < |s.handlers|
  {
    !s.handlers[h].pc.Returned? && !s.handlers[h].pc.Refused?
  }

  /** The worker in the handler's hands has already left its service loop for good. */
  predicate Doomed(s: State, h: nat)
    requires h < |s.handlers|
  {
    var pc := s.handlers[h].pc;
    (pc.Claimed? || pc.Waiting?) && pc.w < |s.workers| && Quitting(s.workers[pc.w])
  }

  /** The handler is about to take a worker off the array that has left its service loop. */
  predicate Trapped(s: State, h: nat)
    requires IsHandler(s, h)
  {
    && s.handlers[h].pc == Looking && !s.shutdown
    && var q := s.vhosts[s.handlers[h].vhost].idle;
    && q != [] && q[|q| - 1] < |s.workers| && Quitting(s.workers[q[|q| - 1]])
  }

  // ---- the virtual host mutex ----

  /** The next step of the thread that holds the mutex of virtual host `v`. */
  function VhostRelease(s: State, v: nat): Step
    requires v < |s.vhosts| && s.vhosts[v].lock.Some?
  {
    match s.vhosts[v].lock.value
    case Handler(h) => HLookup(h)
    case Worker(w) =>
      if w < |s.workers| && s.workers[w].pc == Counting then WCount(w)
      else if w < |s.workers| && s.workers[w].pc == Pushing then WPush(w)
      else WUncount(w)
    case Finalizer => FRead
  }

  /**
  Locks nest one way only: whoever holds a virtual host mutex needs no other lock,
  its very next step is enabled and gives the mutex back.
  */
  lemma VhostHolderNeverBlocks(s: State, v: nat)
    requires Inv(s) && !s.crashed && v < |s.vhosts| && s.vhosts[v].lock.Some?
    ensures Enabled(s, VhostRelease(s, v))
    ensures VhostFree(Apply(s, VhostRelease(s, v)), v) && !Apply(s, VhostRelease(s, v)).crashed
  {
    assert VhostOk(s, v);
    match s.vhosts[v].lock.value
    case Handler(h) => LookupIsEnabled(s, h);
    case Worker(w) => assert WorkerOk(s, w); WorkerGivesBack(s, v, w);
    case Finalizer =>
  }

  lemma WorkerGivesBack(s: State, v: nat, w: nat)
    requires !s.crashed && v < |s.vhosts| && s.vhosts[v].lock == Some(Worker(w)) && LockOk(s, v)
    ensures Enabled(s, VhostRelease(s, v))
    ensures VhostFree(Apply(s, VhostRelease(s, v)), v) && !Apply(s, VhostRelease(s, v)).crashed
  {
  }

  lemma LookupIsEnabled(s: State, h: nat)
    requires Inv(s) && !s.crashed && h < |s.handlers| && s.handlers[h].pc == Looking
    ensures Enabled(s, HLookup(h))
  {
    assert HandlerOk(s, h);
    var v := s.handlers[h].vhost;
    assert VhostOk(s, v);
    var q := s.vhosts[v].idle;
    if q != [] { assert WorkerOk(s, q[|q| - 1]); }
  }

  // ---- a request that holds a worker ----

  /** Handler `h` holds worker `w`, and the descriptor says so. */
  predicate Owns(s: State, h: nat, w: nat) {
    && IsHandler(s, h) && IsWorker(s, w) && HasWorker(s.handlers[h].pc, w)
    && s.workers[w].owner == HeldBy(h)
  }

  predicate Held(s: State, h: nat, w: nat) { Owns(s, h, w) && Fits(s, w, s.workers[w]) }

  lemma HoldersHold(s: State, h: nat, w: nat)
    requires Inv(s) && h < |s.handlers| && HasWorker(s.handlers[h].pc, w)
    ensures Held(s, h, w)
  {
    assert HandlerOk(s, h) && WorkerOk(s, w);
  }

  function WorkerInHand(s: State, h: nat): nat
    requires h < |s.handlers|
  {
    if s.handlers[h].pc.Claimed? || s.handlers[h].pc.Waiting? then s.handlers[h].pc.w else |s.workers|
  }

  predicate TakenByHandler(a: Step, h: nat) { IsHandlerStep(a) && a.h == h }

  predicate TakenByWorker(a: Step, w: nat) {
    (IsLocalStep(a) || IsVhostStep(a) || a.WFinish?) && !a.Spurious? && a.w == w
  }

  /** Step `a` is taken by handler `h` or by worker `w`. */
  predicate TakenBy(a: Step, h: nat, w: nat) { TakenByHandler(a, h) || TakenByWorker(a, w) }

  // ---- what the steps of others leave alone ----

  predicate IsWorkerStep(a: Step) { !a.Arrive? && !IsHandlerStep(a) && !IsFinalizerStep(a) }

  /** Step `a` is taken neither by handler `h` nor on the descriptor `w`. */
  predicate Elsewhere(a: Step, h: nat, w: nat) { !TakenByHandler(a, h) && (IsWorkerStep(a) ==> a.w != w) }

  predicate SparesHandler(e: Effect, h: nat) { e.handler.Some? ==> e.handler.value.0 != h }

  /** The writes `e` leave out request `h` and descriptor `w`. */
  predicate Spares(e: Effect, h: nat, w: nat) { SparesHandler(e, h) && !Targets(e, w) }

  lemma HandlerStays(s: State, e: Effect, h: nat)
    requires h < |s.handlers| && SparesHandler(e, h)
    ensures h < |Perform(s, e).handlers| && Perform(s, e).handlers[h] == s.handlers[h]
  {
  }

  lemma WorkerStays(s: State, e: Effect, w: nat)
    requires w < |s.workers| && !Targets(e, w)
    ensures w < |Perform(s, e).workers| && Perform(s, e).workers[w] == s.workers[w]
  {
  }

  lemma OtherHandlersSpare(s: State, a: Step, h: nat, w: nat)
    requires IsHandlerStep(a) && HandlerReady(s, a) && a.h != h && HandlerOk(s, a.h) && IdleOk(s, s.handlers[a.h].vhost)
    requires w < |s.workers| && s.workers[w].owner == HeldBy(h)
    ensures Spares(HandlerEffect(s, a), h, w)
  {
  }

  lemma OtherWorkersSpare(s: State, a: Step, h: nat, w: nat)
    requires IsWorkerStep(a) && WorkerReady(s, a) && a.w != w && Fits(s, a.w, s.workers[a.w])
    requires h < |s.handlers| && HasWorker(s.handlers[h].pc, w)
    ensures Spares(WorkerEffect(s, a), h, w)
  {
  }

  lemma FinalizerSpares(s: State, a: Step, h: nat, w: nat)
    requires IsFinalizerStep(a) && FinalizerStepReady(s, a) && FinalizerOk(s)
    requires a.FPop? ==> IdleOk(s, s.fin.idx)
    requires w < |s.workers| && s.workers[w].owner == HeldBy(h)
    ensures Spares(FinalizerEffect(s, a), h, w)
  {
  }

  lemma OthersSpare(s: State, a: Step, h: nat, w: nat)
    requires Enabled(s, a) && Owns(s, h, w) && Elsewhere(a, h, w) && FinalizerOk(s)
    requires IsHandlerStep(a) ==> HandlerOk(s, a.h) && IdleOk(s, s.handlers[a.h].vhost)
    requires IsWorkerStep(a) ==> Fits(s, a.w, s.workers[a.w])
    requires a.FPop? ==> IdleOk(s, s.fin.idx)
    ensures Spares(EffectOf(s, a), h, w)
  {
    if IsHandlerStep(a) {
      OtherHandlersSpare(s, a, h, w);
    } else if IsFinalizerStep(a) {
      FinalizerSpares(s, a, h, w);
    } else if IsWorkerStep(a) {
      OtherWorkersSpare(s, a, h, w);
    }
  }

  /** Nobody but its holder and the worker itself writes to a held worker and to the request that holds it. */
  lemma HeldWorkerIsLeftAlone(s: State, a: Step, h: nat, w: nat)
    requires Inv(s) && Enabled(s, a) && Owns(s, h, w) && Elsewhere(a, h, w)
    ensures Spares(EffectOf(s, a), h, w)
  {
    if IsHandlerStep(a) {
      assert HandlerOk(s, a.h) && VhostOk(s, s.handlers[a.h].vhost);
    } else if a.FPop? {
      assert VhostOk(s, s.fin.idx);
    } else if IsWorkerStep(a) {
      assert WorkerOk(s, a.w);
    }
    OthersSpare(s, a, h, w);
  }

  /** The record of a request is written by its handler and by the worker that serves it. */
  lemma RecordWriter(s: State, a: Step, h: nat)
    requires Enabled(s, a) && !SparesHandler(EffectOf(s, a), h)
    ensures TakenByHandler(a, h) || (a.WFinish? && s.workers[a.w].serving == Some(h))
  {
  }

  /** The worker serves a request that waits on it. */
  lemma ServedIsWaiting(s: State, a: Step, h: nat)
    requires Inv(s) && Enabled(s, a) && a.WFinish? && s.workers[a.w].serving == Some(h)
    ensures h < |s.handlers| && s.handlers[h].pc == Waiting(a.w)
  {
    assert WorkerOk(s, a.w);
  }

  /** Nobody but its handler writes to a request that waits on no worker. */
  lemma RecordIsLeftAlone(s: State, a: Step, h: nat)
    requires Inv(s) && Enabled(s, a) && h < |s.handlers| && !s.handlers[h].pc.Waiting? && !TakenByHandler(a, h)
    ensures h < |Apply(s, a).handlers| && Apply(s, a).handlers[h] == s.handlers[h]
  {
    if !SparesHandler(EffectOf(s, a), h) {
      RecordWriter(s, a, h);
      ServedIsWaiting(s, a, h);
    }
    HandlerStays(s, EffectOf(s, a), h);
  }

  /** A step of others leaves a held request and its worker as they are. */
  lemma OthersLeaveItAlone(s: State, a: Step, h: nat, w: nat)
    requires Inv(s) && Enabled(s, a) && h < |s.handlers| && HasWorker(s.handlers[h].pc, w)
    requires !TakenBy(a, h, w) && (a.Spurious? ==> a.w != w)
    ensures h < |Apply(s, a).handlers| && Apply(s, a).handlers[h] == s.handlers[h]
    ensures w < |s.workers| && w < |Apply(s, a).workers| && Apply(s, a).workers[w] == s.workers[w]
  {
    HoldersHold(s, h, w);
    HeldWorkerIsLeftAlone(s, a, h, w);
    HandlerStays(s, EffectOf(s, a), h);
    WorkerStays(s, EffectOf(s, a), w);
  }

  // ---- requests that stay unanswered ----

  lemma QuittingPersists(s: State, a: Step, w: nat)
    requires Inv(s) && Enabled(s, a) && w < |s.workers| && Quitting(s.workers[w])
    ensures w < |Apply(s, a).workers| && Quitting(Apply(s, a).workers[w])
  {
    var e := EffectOf(s, a);
    if Targets(e, w) {
      assert WorkerOk(s, w);
      QuittingIsFinal(s, a, w);
      StepEffectOk(s, a);
    } else {
      WorkerStays(s, e, w);
    }
  }

  lemma QuittingIsFinal(s: State, a: Step, w: nat)
    requires Enabled(s, a) && w < |s.workers| && Quitting(s.workers[w]) && PcOk(s.workers[w])
    requires Targets(EffectOf(s, a), w)
    ensures Quitting(EffectOf(s, a).worker.value.1)
  {
    if IsWorkerStep(a) {
      QuittingMovesOn(s, a, w);
    }
  }

  lemma QuittingMovesOn(s: State, a: Step, w: nat)
    requires IsWorkerStep(a) && WorkerReady(s, a) && w < |s.workers| && Quitting(s.workers[w]) && PcOk(s.workers[w])
    requires Targets(WorkerEffect(s, a), w)
    ensures Quitting(WorkerEffect(s, a).worker.value.1)
  {
  }

  /** Its own steps leave a handler with its worker until the answer is there. */
  lemma HolderKeeps(s: State, a: Step, h: nat, w: nat)
    requires IsHandlerStep(a) && HandlerReady(s, a) && a.h == h && HasWorker(s.handlers[h].pc, w)
    requires w < |s.workers| && s.workers[w].status != Done
    ensures h < |Perform(s, HandlerEffect(s, a)).handlers|
    ensures HasWorker(Perform(s, HandlerEffect(s, a)).handlers[h].pc, w)
  {
  }

  lemma WorkersKeepPlaces(s: State, a: Step, h: nat)
    requires IsWorkerStep(a) && WorkerReady(s, a) && h < |s.handlers|
    ensures var s' := Perform(s, WorkerEffect(s, a)); h < |s'.handlers| && s'.handlers[h].pc == s.handlers[h].pc
  {
  }

  lemma HolderPersists(s: State, a: Step, h: nat, w: nat)
    requires Enabled(s, a) && h < |s.handlers| && HasWorker(s.handlers[h].pc, w)
    requires w < |s.workers| && s.workers[w].status != Done
    ensures h < |Apply(s, a).handlers| && HasWorker(Apply(s, a).handlers[h].pc, w)
  {
    if TakenByHandler(a, h) {
      HolderKeeps(s, a, h, w);
    } else if IsWorkerStep(a) {
      WorkersKeepPlaces(s, a, h);
    } else {
      HandlerStays(s, EffectOf(s, a), h);
    }
  }

  /** Once its worker has left, a request stays unanswered. */
  lemma DoomedForever(s: State, a: Step, h: nat)
    requires Inv(s) && Enabled(s, a) && h < |s.handlers| && Doomed(s, h)
    ensures h < |Apply(s, a).handlers| && Doomed(Apply(s, a), h)
  {
    var w := s.handlers[h].pc.w;
    HoldersHold(s, h, w);
    QuittingPersists(s, a, w);
    HolderPersists(s, a, h, w);
  }

  /** Until a finalizer starts, a trapped handler stays trapped or takes the dead worker. */
  lemma TrappedUntilDoomed(s: State, a: Step, h: nat)
    requires Inv(s) && Enabled(s, a) && !a.FStart? && IsHandler(s, h) && Trapped(s, h)
    ensures IsHandler(Apply(s, a), h) && (Trapped(Apply(s, a), h) || Doomed(Apply(s, a), h))
  {
    if a == HLookup(h) {
      TrappedTakesTheDead(s, h);
    } else {
      var q := s.vhosts[s.handlers[h].vhost].idle;
      QuittingPersists(s, a, q[|q| - 1]);
      HostKept(s, a, h);
      LookerStays(s, a, h);
    }
  }

  lemma TrappedTakesTheDead(s: State, h: nat)
    requires Enabled(s, HLookup(h)) && Trapped(s, h)
    ensures IsHandler(Apply(s, HLookup(h)), h) && Doomed(Apply(s, HLookup(h)), h)
  {
  }

  lemma LookerStays(s: State, a: Step, h: nat)
    requires Inv(s) && Enabled(s, a) && h < |s.handlers| && s.handlers[h].pc == Looking && a != HLookup(h)
    ensures h < |Apply(s, a).handlers| && Apply(s, a).handlers[h] == s.handlers[h]
  {
    RecordIsLeftAlone(s, a, h);
  }

  /** The writes `e` leave out virtual host `v`. */
  predicate SparesHost(e: Effect, v: nat) { e.vhost.Some? ==> e.vhost.value.0 != v }

  lemma OtherHandlersSpareHost(s: State, a: Step, h: nat)
    requires IsHandlerStep(a) && HandlerReady(s, a) && IsHandler(s, h) && s.handlers[h].pc == Looking && a != HLookup(h)
    requires s.vhosts[s.handlers[h].vhost].lock == Some(Handler(h)) && HandlerOk(s, a.h)
    ensures SparesHost(HandlerEffect(s, a), s.handlers[h].vhost)
  {
  }

  lemma WorkersSpareHost(s: State, a: Step, v: nat, h: nat)
    requires IsWorkerStep(a) && WorkerReady(s, a) && Fits(s, a.w, s.workers[a.w])
    requires v < |s.vhosts| && s.vhosts[v].lock == Some(Handler(h))
    ensures SparesHost(WorkerEffect(s, a), v)
  {
  }

  lemma HostStays(s: State, e: Effect, v: nat)
    requires v < |s.vhosts| && SparesHost(e, v)
    ensures |Perform(s, e).vhosts| == |s.vhosts| && Perform(s, e).vhosts[v] == s.vhosts[v]
  {
  }

  lemma WorkersStartNoShutdown(s: State, a: Step)
    requires IsWorkerStep(a) && WorkerReady(s, a)
    ensures WorkerEffect(s, a).shutdown == s.shutdown
  {
  }

  lemma OnlyTheStartShutsDown(s: State, a: Step)
    requires Enabled(s, a) && !a.FStart?
    ensures Apply(s, a).shutdown == s.shutdown
  {
    if IsWorkerStep(a) { WorkersStartNoShutdown(s, a); }
  }

  lemma NoFinalizerYet(s: State, a: Step)
    requires FinalizerOk(s) && Enabled(s, a) && !a.FStart? && !s.shutdown
    ensures !IsFinalizerStep(a)
  {
  }

  /** Before shutdown nobody writes to a virtual host whose mutex a handler holds. */
  lemma HostKept(s: State, a: Step, h: nat)
    requires Inv(s) && Enabled(s, a) && !a.FStart? && a != HLookup(h) && IsHandler(s, h)
    requires s.handlers[h].pc == Looking && !s.shutdown
    ensures |Apply(s, a).vhosts| == |s.vhosts| && !Apply(s, a).shutdown
    ensures Apply(s, a).vhosts[s.handlers[h].vhost] == s.vhosts[s.handlers[h].vhost]
  {
    assert HandlerOk(s, h);
    NoFinalizerYet(s, a);
    OnlyTheStartShutsDown(s, a);
    if IsHandlerStep(a) {
      assert HandlerOk(s, a.h);
      OtherHandlersSpareHost(s, a, h);
    } else if IsWorkerStep(a) {
      assert WorkerOk(s, a.w);
      WorkersSpareHost(s, a, s.handlers[h].vhost, h);
    }
    HostStays(s, EffectOf(s, a), s.handlers[h].vhost);
  }

  // ---- a bound on the work a request needs ----

  function WorkerRank(k: LazyWorker, w: nat): nat {
    match k.pc
    case Starting => 10
    case Configured => 9
    case Counting => 8
    case Entering => 7
    case LoopTop => if k.status == Idle then 4 else 6
    case AwaitJob => if Worker(w) !in k.waiters then 7 else 3
    case Serving => 5
    case AwaitTaken => if Worker(w) in k.waiters then 1 else 2
    case _ => 0
  }

  function HeldRank(k: LazyWorker, h: nat, w: nat, pc: HandlerPc): nat {
    if pc.Claimed? then 20 + WorkerRank(k, w) else 1 + WorkerRank(k, w) + Bit(Handler(h) !in k.waiters)
  }

  /** Steps a pending request may still need from its handler and from its worker. */
  function Rank(s: State, h: nat): nat
    requires h < |s.handlers|
  {
    match s.handlers[h].pc
    case Arrived => 40
    case Looking => 39
    case Returned(_) => 0
    case Refused => 0
    case _ =>
      var w := s.handlers[h].pc.w;
      if w < |s.workers| then HeldRank(s.workers[w], h, w, s.handlers[h].pc) else 0
  }

  /**
  Each step that the handler of a request or the worker in its hands takes brings the
  request strictly closer to its answer, and a request needs at most 40 of them.
  */
  lemma OwnStepsDecrease(s: State, a: Step, h: nat)
    requires Inv(s) && Enabled(s, a) && h < |s.handlers| && Pending(s, h) && !Doomed(s, h)
    requires TakenBy(a, h, WorkerInHand(s, h)) && !Apply(s, a).crashed
    ensures h < |Apply(s, a).handlers| && Rank(Apply(s, a), h) < Rank(s, h) <= 40
  {
    var w := WorkerInHand(s, h);
    if s.handlers[h].pc == Arrived || s.handlers[h].pc == Looking {
      NoWorkerYet(s, a, h);
      FirstStepsDecrease(s, a, h);
    } else {
      HoldersHold(s, h, w);
      HeldStepsDecrease(s, a, h, w);
    }
  }

  lemma NoWorkerYet(s: State, a: Step, h: nat)
    requires Enabled(s, a) && TakenBy(a, h, |s.workers|)
    ensures TakenByHandler(a, h)
  {
  }

  lemma FirstStepsDecrease(s: State, a: Step, h: nat)
    requires Inv(s) && Enabled(s, a) && h < |s.handlers| && (s.handlers[h].pc == Arrived || s.handlers[h].pc == Looking)
    requires TakenByHandler(a, h)
    ensures h < |Apply(s, a).handlers| && Rank(Apply(s, a), h) < Rank(s, h) <= 40
  {
    if a.HLookup? {
      var q := s.vhosts[s.handlers[h].vhost].idle;
      assert q != [] ==> VhostOk(s, s.handlers[h].vhost) && WorkerOk(s, q[|q| - 1]);
      LookupDecreases(s, h);
    }
  }

  lemma LookupDecreases(s: State, h: nat)
    requires HandlerReady(s, HLookup(h))
    requires var q := s.vhosts[s.handlers[h].vhost].idle;
      q != [] ==> s.workers[q[|q| - 1]].owner == Pooled && Fits(s, q[|q| - 1], s.workers[q[|q| - 1]])
    ensures var s' := Perform(s, HandlerEffect(s, HLookup(h))); h < |s'.handlers| && Rank(s', h) < Rank(s, h) <= 40
  {
  }

  lemma HandlerStepsDecrease(s: State, a: Step, h: nat, w: nat)
    requires Held(s, h, w) && TakenByHandler(a, h) && HandlerReady(s, a) && !Quitting(s.workers[w])
    ensures var s' := Perform(s, HandlerEffect(s, a)); h < |s'.handlers| && Rank(s', h) < Rank(s, h) <= 40
  {
  }

  /** Up to the service loop, and back to the array. */
  lemma OuterStepsDecrease(s: State, a: Step, h: nat, w: nat)
    requires Held(s, h, w) && (IsVhostStep(a) || a.WReadConf? || a.WEnter?) && a.w == w && WorkerReady(s, a)
    requires !Quitting(s.workers[w]) && !Perform(s, WorkerEffect(s, a)).crashed
    ensures var s' := Perform(s, WorkerEffect(s, a)); h < |s'.handlers| && Rank(s', h) < Rank(s, h) <= 40
  {
  }

  /** In the service loop. */
  lemma LoopStepsDecrease(s: State, a: Step, h: nat, w: nat)
    requires Held(s, h, w) && (a.WLoop? || a.WWakeJob? || a.WFinish? || a.WWakeTaken?) && a.w == w && WorkerReady(s, a)
    requires !Quitting(s.workers[w])
    ensures var s' := Perform(s, WorkerEffect(s, a)); h < |s'.handlers| && Rank(s', h) < Rank(s, h) <= 40
  {
  }

  lemma WorkerStepsDecrease(s: State, a: Step, h: nat, w: nat)
    requires Held(s, h, w) && TakenByWorker(a, w) && WorkerReady(s, a) && !Quitting(s.workers[w])
    requires !Perform(s, WorkerEffect(s, a)).crashed
    ensures var s' := Perform(s, WorkerEffect(s, a)); h < |s'.handlers| && Rank(s', h) < Rank(s, h) <= 40
  {
    if IsVhostStep(a) || a.WReadConf? || a.WEnter? {
      OuterStepsDecrease(s, a, h, w);
    } else {
      LoopStepsDecrease(s, a, h, w);
    }
  }

  lemma HeldStepsDecrease(s: State, a: Step, h: nat, w: nat)
    requires Enabled(s, a) && Held(s, h, w) && TakenBy(a, h, w) && !Quitting(s.workers[w]) && !Apply(s, a).crashed
    ensures h < |Apply(s, a).handlers| && Rank(Apply(s, a), h) < Rank(s, h) <= 40
  {
    if TakenByHandler(a, h) {
      HandlerStepsDecrease(s, a, h, w);
    } else {
      WorkerStepsDecrease(s, a, h, w);
    }
  }

  /** Steps of other threads, spurious wakeups on its worker apart, do not set a request back. */
  lemma OtherStepsKeepRank(s: State, a: Step, h: nat)
    requires Inv(s) && Enabled(s, a) && h < |s.handlers| && Pending(s, h)
    requires !TakenBy(a, h, WorkerInHand(s, h))
    requires a.Spurious? ==> a.w != WorkerInHand(s, h)
    ensures h < |Apply(s, a).handlers| && Rank(Apply(s, a), h) == Rank(s, h)
  {
    var w := WorkerInHand(s, h);
    if HasWorker(s.handlers[h].pc, w) {
      OthersLeaveItAlone(s, a, h, w);
    } else {
      RecordIsLeftAlone(s, a, h);
    }
  }

  /** A spurious wakeup costs at most four further steps. */
  lemma SpuriousCostsFour(s: State, h: nat, t: Thread)
    requires Inv(s) && h < |s.handlers| && Enabled(s, Spurious(WorkerInHand(s, h), t))
    ensures var s' := Apply(s, Spurious(WorkerInHand(s, h), t));
      h < |s'.handlers| && Rank(s', h) <= Rank(s, h) + 4
  {
    var w := WorkerInHand(s, h);
    if HasWorker(s.handlers[h].pc, w) {
      HoldersHold(s, h, w);
    }
  }

  // ---- over a whole run ----

  /** Step `i` is taken by the handler of request `h` or by the worker in its hands. */
  function OwnStep(tr: seq<State>, steps: seq<Step>, h: nat): nat -> bool {
    (i: nat) => i < |steps| && i < |tr| && h < |tr[i].handlers| && TakenBy(steps[i], h, WorkerInHand(tr[i], h))
  }

  /** Step `i` is a spurious wakeup on the worker in the hands of handler `h`. */
  function Rousing(tr: seq<State>, steps: seq<Step>, h: nat): nat -> bool {
    (i: nat) => i < |steps| && i < |tr| && h < |tr[i].handlers|
      && steps[i].Spurious? && steps[i].w == WorkerInHand(tr[i], h)
  }

  /** Not answered, and its worker, if it holds one, still in its loop. */
  predicate Open(s: State, h: nat) { h < |s.handlers| && Pending(s, h) && !Doomed(s, h) }

  function OpenAt(tr: seq<State>, h: nat): nat -> bool { (i: nat) => i < |tr| && Open(tr[i], h) }

  function RankAt(tr: seq<State>, h: nat): nat -> nat {
    (i: nat) => if i < |tr| && h < |tr[i].handlers| then Rank(tr[i], h) else 0
  }

  /** What one step of a run brings and costs. */
  lemma WorkOfOneStep(tr: seq<State>, steps: seq<Step>, i: nat, h: nat)
    requires IsRun(tr, steps) && i < |steps| && h < |tr[i].handlers| && !tr[i + 1].crashed
    ensures h < |tr[i + 1].handlers| && !tr[i].crashed
    ensures Open(tr[i + 1], h) ==>
      && Open(tr[i], h)
      && Bit(OwnStep(tr, steps, h)(i)) + Rank(tr[i + 1], h) <= Rank(tr[i], h) + 4 * Bit(Rousing(tr, steps, h)(i))
  {
    RunInv(tr, steps, i);
    StillAnswered(tr[i], steps[i], h);
    if Open(tr[i], h) {
      RankAfter(tr[i], steps[i], h);
    }
  }

  lemma RankAfter(s: State, a: Step, h: nat)
    requires Inv(s) && Enabled(s, a) && h < |s.handlers| && Pending(s, h) && !Doomed(s, h) && !Apply(s, a).crashed
    ensures h < |Apply(s, a).handlers|
    ensures Bit(TakenBy(a, h, WorkerInHand(s, h))) + Rank(Apply(s, a), h)
      <= Rank(s, h) + 4 * Bit(a.Spurious? && a.w == WorkerInHand(s, h))
  {
    if TakenBy(a, h, WorkerInHand(s, h)) {
      OwnStepsDecrease(s, a, h);
    } else if a.Spurious? && a.w == WorkerInHand(s, h) {
      SpuriousCostsFour(s, h, a.t);
    } else {
      OtherStepsKeepRank(s, a, h);
    }
  }

  /** An answered request stays so, and so does one whose worker has left. */
  lemma StillAnswered(s: State, a: Step, h: nat)
    requires Inv(s) && Enabled(s, a) && h < |s.handlers|
    ensures h < |Apply(s, a).handlers| && (!Open(s, h) ==> !Open(Apply(s, a), h))
  {
    if Doomed(s, h) {
      DoomedForever(s, a, h);
    } else if !Pending(s, h) {
      AnswersStay(s, a, h);
    }
  }

  lemma AnswersStay(s: State, a: Step, h: nat)
    requires Inv(s) && Enabled(s, a) && h < |s.handlers| && !Pending(s, h)
    ensures h < |Apply(s, a).handlers| && Apply(s, a).handlers[h] == s.handlers[h]
  {
    RecordIsLeftAlone(s, a, h);
  }

  /** Requests do not go away, and a process that takes a step has not crashed before. */
  lemma {:induction false} StillThere(tr: seq<State>, steps: seq<Step>, i: nat, j: nat, h: nat)
    requires IsRun(tr, steps) && i <= j < |tr| && h < |tr[i].handlers|
    ensures h < |tr[j].handlers| && (i < j ==> !tr[i].crashed)
    decreases j - i
  {
    if i < j {
      assert Enabled(tr[i], steps[i]);
      StillThere(tr, steps, i + 1, j, h);
    }
  }

  /**
  In any run, however the threads are interleaved, a request that can be answered costs its
  handler and its worker at most 40 steps, and four more for each spurious wakeup.
  */
  lemma WorkIsBounded(tr: seq<State>, steps: seq<Step>, i: nat, j: nat, h: nat)
    requires IsRun(tr, steps) && i <= j < |tr| && h < |tr[i].handlers| && !tr[j].crashed && Open(tr[j], h)
    ensures Open(tr[i], h) && Rank(tr[i], h) <= 40
    ensures CountIf(OwnStep(tr, steps, h), i, j) + Rank(tr[j], h)
      <= Rank(tr[i], h) + 4 * CountIf(Rousing(tr, steps, h), i, j)
  {
    forall k: nat | i <= k < j && OpenAt(tr, h)(k + 1)
      ensures OpenAt(tr, h)(k) && Bit(OwnStep(tr, steps, h)(k)) + RankAt(tr, h)(k + 1)
        <= RankAt(tr, h)(k) + 4 * Bit(Rousing(tr, steps, h)(k))
    {
      StillThere(tr, steps, i, k, h);
      StillThere(tr, steps, k + 1, j, h);
      WorkOfOneStep(tr, steps, k, h);
    }
    RankBudget(OpenAt(tr, h), OwnStep(tr, steps, h), Rousing(tr, steps, h), RankAt(tr, h), i, j);
    RankIsSmall(tr[i], h);
  }

  lemma RankIsSmall(s: State, h: nat)
    requires h < |s.handlers|
    ensures Rank(s, h) <= 40
  {
  }
}
