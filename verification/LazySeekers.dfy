/**
Requests of the lazy bridge that look for a worker, and the workers on top of the array
that a script's `exit` has taken out of service.
*/
module LazySeekers {
  import opened Prelude
  import opened LazyBridge
  import opened LazyInvariant
  import opened LazyTheorems
  import opened LazyProgress

  /** On its way to the array of virtual host `v`. */
  function SeekerIn(v: nat): HandlerState -> bool {
    (x: HandlerState) => x.vhost == v && (x.pc == Arrived || x.pc == Looking)
  }

  function Seekers(s: State, v: nat): nat { Tally(s.handlers, SeekerIn(v)) }

  /** How many workers at the end of `q`, one behind the other, serve no further request. */
  function DeadTop(q: seq<nat>, ws: seq<LazyWorker>): nat {
    if q == [] || q[|q| - 1] >= |ws| || ws[q[|q| - 1]].keepGoing then 0 else 1 + DeadTop(q[..|q| - 1], ws)
  }

  /** One more such worker holds the mutex and is about to push itself. */
  predicate DeadPush(s: State, v: nat)
    requires v < |s.vhosts|
  {
    && s.vhosts[v].lock.Some? && s.vhosts[v].lock.value.Worker?
    && var w := s.vhosts[v].lock.value.w;
    && w < |s.workers| && s.workers[w].pc == Pushing && !s.workers[w].keepGoing
  }

  function DeadAhead(s: State, v: nat): nat
    requires v < |s.vhosts|
  {
    DeadTop(s.vhosts[v].idle, s.workers) + Bit(DeadPush(s, v))
  }

  /** Worker `w` of host `v` goes on serving but is not in the array. */
  predicate IsLiveOut(s: State, v: nat, w: nat)
    requires v < |s.vhosts| && w < |s.workers|
  {
    s.workers[w].vhost == v && s.workers[w].keepGoing && w !in s.vhosts[v].idle
  }

  ghost predicate LiveOut(s: State, v: nat)
    requires v < |s.vhosts|
  {
    exists w :: 0 <= w < |s.workers| && IsLiveOut(s, v, w)
  }

  /**
  No worker of its host will come back to the array, and on top of that lie at least as
  many dead workers as there are requests to take them.
  */
  ghost predicate Outnumbered(s: State, h: nat)
    requires IsHandler(s, h)
  {
    && s.handlers[h].pc == Arrived && !s.shutdown
    && !LiveOut(s, s.handlers[h].vhost)
    && Seekers(s, s.handlers[h].vhost) <= DeadAhead(s, s.handlers[h].vhost)
  }

  // ---- counting ----

  lemma {:induction false} DeadTopGrows(q: seq<nat>, ws: seq<LazyWorker>, ws': seq<LazyWorker>)
    requires |ws| <= |ws'| && forall w :: 0 <= w < |ws| && ws'[w].keepGoing ==> ws[w].keepGoing
    requires forall i :: 0 <= i < |q| ==> q[i] < |ws|
    ensures DeadTop(q, ws) <= DeadTop(q, ws')
  {
    if q != [] {
      DeadTopGrows(q[..|q| - 1], ws, ws');
    }
  }

  /** The count depends on the workers' loop flags only. */
  lemma {:induction false} DeadTopSame(q: seq<nat>, ws: seq<LazyWorker>, ws': seq<LazyWorker>)
    requires |ws| == |ws'| && forall w :: 0 <= w < |ws| ==> ws'[w].keepGoing == ws[w].keepGoing
    ensures DeadTop(q, ws) == DeadTop(q, ws')
  {
    if q != [] {
      DeadTopSame(q[..|q| - 1], ws, ws');
    }
  }

  lemma DeadTopPush(q: seq<nat>, w: nat, ws: seq<LazyWorker>)
    requires w < |ws| && !ws[w].keepGoing
    ensures DeadTop(q + [w], ws) == DeadTop(q, ws) + 1
  {
    assert (q + [w])[..|q|] == q;
  }

  lemma {:induction false} ManySatisfy<T>(xs: seq<T>, p: T -> bool, h: nat) returns (g: nat)
    requires Tally(xs, p) >= 2
    ensures g < |xs| && g != h && p(xs[g])
  {
    var n := |xs| - 1;
    if n != h && p(xs[n]) {
      g := n;
    } else if p(xs[n]) {
      g := OneSatisfies(xs[..n], p);
    } else {
      g := ManySatisfy(xs[..n], p, h);
    }
  }

  lemma {:induction false} OneSatisfies<T>(xs: seq<T>, p: T -> bool) returns (g: nat)
    requires Tally(xs, p) >= 1
    ensures g < |xs| && p(xs[g])
  {
    var n := |xs| - 1;
    if p(xs[n]) { g := n; } else { g := OneSatisfies(xs[..n], p); }
  }

  lemma {:induction false} Counts<T>(xs: seq<T>, p: T -> bool, g: nat)
    requires g < |xs| && p(xs[g])
    ensures Tally(xs, p) >= 1
  {
    var n := |xs| - 1;
    if g < n { Counts(xs[..n], p, g); }
  }

  // ---- what a step does to the loop flags ----

  lemma WorkerStepsLowerTheFlag(s: State, a: Step)
    requires IsWorkerStep(a) && WorkerReady(s, a)
    ensures var e := WorkerEffect(s, a);
      && e.created.None?
      && (e.worker.Some? ==>
            (e.worker.value.0 == a.w && (e.worker.value.1.keepGoing ==> s.workers[a.w].keepGoing)))
  {
  }

  lemma OthersKeepTheFlag(s: State, a: Step)
    requires IsHandlerStep(a) ==> HandlerReady(s, a)
    requires IsFinalizerStep(a) ==> FinalizerStepReady(s, a)
    ensures IsHandlerStep(a) ==> var e := HandlerEffect(s, a);
      e.worker.Some? ==>
        (e.worker.value.0 < |s.workers| && e.worker.value.1.keepGoing == s.workers[e.worker.value.0].keepGoing)
    ensures IsFinalizerStep(a) ==> var e := FinalizerEffect(s, a);
      e.worker.Some? ==>
        (e.worker.value.0 < |s.workers| && e.worker.value.1.keepGoing == s.workers[e.worker.value.0].keepGoing)
  {
  }

  /** A worker that has been told to leave is never told otherwise. */
  lemma FlagFalls(s: State, a: Step, w: nat)
    requires Enabled(s, a) && w < |s.workers|
    ensures w < |Apply(s, a).workers| && (Apply(s, a).workers[w].keepGoing ==> s.workers[w].keepGoing)
  {
    var e := EffectOf(s, a);
    if Targets(e, w) {
      if IsWorkerStep(a) { WorkerStepsLowerTheFlag(s, a); } else { OthersKeepTheFlag(s, a); }
    } else {
      WorkerStays(s, e, w);
    }
  }

  // ---- the states after steps on a virtual host ----

  /** Handler `g` has taken the mutex of its virtual host. */
  lemma LockTaken(s: State, g: nat)
    requires Enabled(s, HLock(g))
    ensures var x, v := s.handlers[g], s.handlers[g].vhost;
      Apply(s, HLock(g)) == s.(handlers := s.handlers[g := x.(pc := Looking)],
                               vhosts := s.vhosts[v := s.vhosts[v].(lock := Some(Handler(g)))])
  {
  }

  /** It has taken the worker on top. */
  lemma TopTaken(s: State, g: nat)
    requires Enabled(s, HLookup(g)) && !s.shutdown && s.vhosts[s.handlers[g].vhost].idle != []
    ensures var x, v := s.handlers[g], s.handlers[g].vhost;
      var y := s.vhosts[v];
      var w := y.idle[|y.idle| - 1];
      Apply(s, HLookup(g)) == s.(handlers := s.handlers[g := x.(pc := Claimed(w))],
                                 vhosts := s.vhosts[v := y.(lock := None, idle := y.idle[..|y.idle| - 1])],
                                 workers := s.workers[w := s.workers[w].(owner := HeldBy(g))])
  {
  }

  /** It has found the array empty and created a worker. */
  lemma NewTaken(s: State, g: nat)
    requires Enabled(s, HLookup(g)) && !s.shutdown && s.vhosts[s.handlers[g].vhost].idle == []
    ensures var x, v := s.handlers[g], s.handlers[g].vhost;
      Apply(s, HLookup(g)) == s.(handlers := s.handlers[g := x.(pc := Claimed(|s.workers|))],
                                 vhosts := s.vhosts[v := s.vhosts[v].(lock := None)],
                                 workers := s.workers + [CreateWorker(v, g)])
  {
  }

  /** What worker `w` becomes by its step on its virtual host. */
  function HostStepWorker(s: State, a: Step): LazyWorker
    requires IsVhostStep(a) && a.w < |s.workers|
  {
    var k := s.workers[a.w];
    match a
    case WLockCount(_) => k.(pc := Counting)
    case WCount(_) => k.(pc := Entering)
    case WLockPush(_) => k.(pc := Pushing)
    case WPush(_) => k.(pc := LoopTop, owner := Pooled)
    case WLockUncount(_) => k.(pc := Uncounting)
    case WUncount(_) => k.(pc := Gone)
  }

  /** The virtual host after it. */
  function HostStepHost(s: State, a: Step): Vhost
    requires IsVhostStep(a) && IsWorker(s, a.w)
  {
    var y := s.vhosts[s.workers[a.w].vhost];
    match a
    case WLockCount(w) => y.(lock := Some(Worker(w)))
    case WCount(_) => y.(lock := None, threadsCount := y.threadsCount + 1)
    case WLockPush(w) => y.(lock := Some(Worker(w)))
    case WPush(w) => y.(lock := None, idle := y.idle + [w])
    case WLockUncount(w) => y.(lock := Some(Worker(w)))
    case WUncount(_) => y.(lock := None, threadsCount := y.threadsCount - 1)
  }

  lemma HostStepWrites(s: State, a: Step)
    requires Enabled(s, a) && IsVhostStep(a)
    ensures IsWorker(s, a.w)
    ensures EffectOf(s, a) == WorkerOnVhost(s, a.w, HostStepWorker(s, a), HostStepHost(s, a))
  {
  }

  lemma HostStepTaken(s: State, a: Step)
    requires Enabled(s, a) && IsVhostStep(a)
    ensures IsWorker(s, a.w)
    ensures var v, s' := s.workers[a.w].vhost, Apply(s, a);
      && s'.handlers == s.handlers && s'.shutdown == s.shutdown && !s'.crashed
      && s'.workers == s.workers[a.w := HostStepWorker(s, a)]
      && |s'.vhosts| == |s.vhosts|
      && s'.vhosts[v].idle == (if a.WPush? then s.vhosts[v].idle + [a.w] else s.vhosts[v].idle)
      && s'.vhosts[v].lock == (if a.WLockCount? || a.WLockPush? || a.WLockUncount? then Some(Worker(a.w)) else None)
      && (a.WLockCount? || a.WLockPush? || a.WLockUncount? ==> s.vhosts[v].lock == None)
  {
    HostStepWrites(s, a);
  }

  // ---- what steps on a virtual host do to the two numbers ----

  lemma SeekersMove(hs: seq<HandlerState>, g: nat, x: HandlerState, v: nat)
    requires g < |hs| && hs[g].vhost == v && (hs[g].pc == Arrived || hs[g].pc == Looking) && x.vhost == v
    ensures Tally(hs[g := x], SeekerIn(v))
      == Tally(hs, SeekerIn(v)) - (if x.pc == Arrived || x.pc == Looking then 0 else 1)
  {
    TallyUpdate(hs, g, x, SeekerIn(v));
  }

  lemma LockMovesNothing(s: State, g: nat)
    requires Enabled(s, HLock(g))
    ensures var v, s' := s.handlers[g].vhost, Apply(s, HLock(g));
      && v < |s'.vhosts| && Seekers(s', v) == Seekers(s, v) && DeadAhead(s', v) == DeadAhead(s, v)
      && (LiveOut(s', v) <==> LiveOut(s, v))
  {
    LockTaken(s, g);
    var v, s' := s.handlers[g].vhost, Apply(s, HLock(g));
    SeekersMove(s.handlers, g, s.handlers[g].(pc := Looking), v);
    forall w | 0 <= w < |s.workers| ensures IsLiveOut(s', v, w) == IsLiveOut(s, v, w) {}
  }

  /** A dead worker on top leaves the array with one of the requests. */
  lemma TopGoes(s: State, g: nat)
    requires Inv(s) && Enabled(s, HLookup(g)) && !s.shutdown && !LiveOut(s, s.handlers[g].vhost)
    requires DeadTop(s.vhosts[s.handlers[g].vhost].idle, s.workers) > 0
    ensures var v, s' := s.handlers[g].vhost, Apply(s, HLookup(g));
      && v < |s'.vhosts| && Seekers(s', v) == Seekers(s, v) - 1 && DeadAhead(s', v) == DeadAhead(s, v) - 1
      && !LiveOut(s', v)
  {
    TopTaken(s, g);
    var v, s' := s.handlers[g].vhost, Apply(s, HLookup(g));
    var q := s.vhosts[v].idle;
    assert HandlerOk(s, g);
    SeekersMove(s.handlers, g, s.handlers[g].(pc := Claimed(q[|q| - 1])), v);
    DeadTopSame(q[..|q| - 1], s.workers, s'.workers);
    forall w | 0 <= w < |s'.workers| ensures !IsLiveOut(s', v, w) {
      assert !IsLiveOut(s, v, w);
      if w in q && w != q[|q| - 1] { InFront(q, w); }
    }
  }

  lemma InFront(q: seq<nat>, w: nat)
    requires q != [] && w in q && w != q[|q| - 1]
    ensures w in q[..|q| - 1]
  {
  }

  /** A step of a worker on its host moves nothing but the dead worker that begins its push. */
  lemma HostStepMoves(s: State, a: Step)
    requires Inv(s) && Enabled(s, a) && IsVhostStep(a) && IsWorker(s, a.w) && !LiveOut(s, s.workers[a.w].vhost)
    ensures var v, s' := s.workers[a.w].vhost, Apply(s, a);
      && v < |s'.vhosts| && Seekers(s', v) == Seekers(s, v) && !LiveOut(s', v)
      && DeadAhead(s', v) == DeadAhead(s, v) + Bit(a.WLockPush?)
  {
    var v, s' := s.workers[a.w].vhost, Apply(s, a);
    HostStepTaken(s, a);
    assert WorkerOk(s, a.w) && VhostOk(s, v);
    if a.WPush? || a.WLockPush? {
      assert !IsLiveOut(s, v, a.w);
    }
    HostStepKeepsDead(s, a);
    forall x | 0 <= x < |s'.workers| ensures !IsLiveOut(s', v, x) {
      assert !IsLiveOut(s, v, x);
    }
  }

  lemma HostStepKeepsDead(s: State, a: Step)
    requires Enabled(s, a) && IsVhostStep(a) && IsWorker(s, a.w)
    requires WorkerOk(s, a.w) && (a.WPush? || a.WLockPush? ==> !s.workers[a.w].keepGoing)
    ensures var v, s' := s.workers[a.w].vhost, Apply(s, a);
      v < |s'.vhosts| && DeadAhead(s', v) == DeadAhead(s, v) + Bit(a.WLockPush?)
  {
    var v, s' := s.workers[a.w].vhost, Apply(s, a);
    HostStepTaken(s, a);
    DeadTopSame(s.vhosts[v].idle, s.workers, s'.workers);
    if a.WPush? {
      DeadTopPush(s.vhosts[v].idle, a.w, s'.workers);
    }
  }

  // ---- steps that leave a virtual host alone ----

  /** The writes `e` turn nobody into a seeker of host `v`, nor a seeker into something else. */
  predicate SeekersAlike(s: State, e: Effect, v: nat) {
    && e.arrived.None?
    && (e.handler.Some? ==>
          (e.handler.value.0 < |s.handlers|
           && SeekerIn(v)(s.handlers[e.handler.value.0]) == SeekerIn(v)(e.handler.value.1)))
  }

  lemma HandlersElsewhere(s: State, a: Step, v: nat)
    requires IsHandlerStep(a) && HandlerReady(s, a) && SparesHost(HandlerEffect(s, a), v)
    ensures SeekersAlike(s, HandlerEffect(s, a), v)
    ensures HandlerEffect(s, a).created.Some? ==> HandlerEffect(s, a).created.value.vhost != v
  {
  }

  lemma WorkersElsewhere(s: State, a: Step, v: nat)
    requires IsWorkerStep(a) && WorkerReady(s, a)
    ensures SeekersAlike(s, WorkerEffect(s, a), v) && WorkerEffect(s, a).created.None?
  {
  }

  lemma StepsElsewhere(s: State, a: Step, v: nat)
    requires Enabled(s, a) && !a.Arrive? && SparesHost(EffectOf(s, a), v)
    ensures SeekersAlike(s, EffectOf(s, a), v)
    ensures EffectOf(s, a).created.Some? ==> EffectOf(s, a).created.value.vhost != v
  {
    if IsHandlerStep(a) {
      HandlersElsewhere(s, a, v);
    } else if IsWorkerStep(a) {
      WorkersElsewhere(s, a, v);
    }
  }

  lemma SeekersStay(s: State, e: Effect, v: nat)
    requires SeekersAlike(s, e, v)
    ensures Seekers(Perform(s, e), v) == Seekers(s, v)
  {
    if e.handler.Some? {
      TallyUpdate(s.handlers, e.handler.value.0, e.handler.value.1, SeekerIn(v));
    }
  }

  lemma PushingStays(s: State, a: Step, w: nat)
    requires Enabled(s, a) && w < |s.workers| && s.workers[w].pc == Pushing && a != WPush(w)
    ensures Targets(EffectOf(s, a), w) ==> EffectOf(s, a).worker.value.1.pc == Pushing
  {
    if IsWorkerStep(a) {
      WorkerStaysPushing(s, a, w);
    }
  }

  lemma WorkerStaysPushing(s: State, a: Step, w: nat)
    requires IsWorkerStep(a) && WorkerReady(s, a) && w < |s.workers| && s.workers[w].pc == Pushing && a != WPush(w)
    ensures Targets(WorkerEffect(s, a), w) ==> WorkerEffect(s, a).worker.value.1.pc == Pushing
  {
  }

  /** The push that is about to happen still is. */
  lemma DeadPushStays(s: State, a: Step, v: nat)
    requires Inv(s) && Enabled(s, a) && v < |s.vhosts| && SparesHost(EffectOf(s, a), v) && DeadPush(s, v)
    ensures v < |Apply(s, a).vhosts| && DeadPush(Apply(s, a), v)
  {
    var w := s.vhosts[v].lock.value.w;
    HostStays(s, EffectOf(s, a), v);
    FlagFalls(s, a, w);
    assert VhostOk(s, v);
    if a == WPush(w) {
      PushWritesItsHost(s, w);
      assert false;
    }
    PushingStays(s, a, w);
    if !Targets(EffectOf(s, a), w) { WorkerStays(s, EffectOf(s, a), w); }
  }

  lemma PushWritesItsHost(s: State, w: nat)
    requires Enabled(s, WPush(w))
    ensures !SparesHost(EffectOf(s, WPush(w)), s.workers[w].vhost)
  {
  }

  lemma DeadStayAhead(s: State, a: Step, v: nat)
    requires Inv(s) && Enabled(s, a) && v < |s.vhosts| && SparesHost(EffectOf(s, a), v)
    ensures v < |Apply(s, a).vhosts| && DeadAhead(s, v) <= DeadAhead(Apply(s, a), v)
  {
    var s' := Apply(s, a);
    HostStays(s, EffectOf(s, a), v);
    if DeadPush(s, v) { DeadPushStays(s, a, v); }
    assert VhostOk(s, v);
    forall w | 0 <= w < |s.workers| ensures w < |s'.workers| && (s'.workers[w].keepGoing ==> s.workers[w].keepGoing) {
      FlagFalls(s, a, w);
    }
    WorkersRemain(s, EffectOf(s, a));
    DeadTopGrows(s.vhosts[v].idle, s.workers, s'.workers);
  }

  lemma WorkersRemain(s: State, e: Effect)
    ensures |s.workers| <= |Perform(s, e).workers| <= |s.workers| + 1
    ensures |Perform(s, e).workers| > |s.workers| ==>
      e.created.Some? && Perform(s, e).workers[|s.workers|] == e.created.value
  {
  }

  lemma WorkerKeepsItsHost(s: State, a: Step, w: nat)
    requires Inv(s) && Enabled(s, a) && w < |s.workers|
    ensures w < |Apply(s, a).workers| && Apply(s, a).workers[w].vhost == s.workers[w].vhost
  {
    StepEffectOk(s, a);
    if !Targets(EffectOf(s, a), w) { WorkerStays(s, EffectOf(s, a), w); }
  }

  lemma NobodyComesOut(s: State, a: Step, v: nat)
    requires Inv(s) && Enabled(s, a) && !a.Arrive? && v < |s.vhosts| && SparesHost(EffectOf(s, a), v) && !LiveOut(s, v)
    ensures v < |Apply(s, a).vhosts| && !LiveOut(Apply(s, a), v)
  {
    var s' := Apply(s, a);
    HostStays(s, EffectOf(s, a), v);
    StepsElsewhere(s, a, v);
    WorkersRemain(s, EffectOf(s, a));
    forall w | 0 <= w < |s'.workers| ensures !IsLiveOut(s', v, w) {
      if w < |s.workers| {
        FlagFalls(s, a, w);
        WorkerKeepsItsHost(s, a, w);
        assert !IsLiveOut(s, v, w);
      }
    }
  }

  // ---- an outnumbered request stays so ----

  lemma OutnumberedFromAfar(s: State, a: Step, h: nat)
    requires Inv(s) && Enabled(s, a) && !a.Arrive? && !a.FStart? && IsHandler(s, h) && Outnumbered(s, h)
    requires SparesHost(EffectOf(s, a), s.handlers[h].vhost) && !TakenByHandler(a, h)
    ensures IsHandler(Apply(s, a), h) && Outnumbered(Apply(s, a), h)
  {
    var v := s.handlers[h].vhost;
    RecordIsLeftAlone(s, a, h);
    OnlyTheStartShutsDown(s, a);
    StepsElsewhere(s, a, v);
    SeekersStay(s, EffectOf(s, a), v);
    DeadStayAhead(s, a, v);
    NobodyComesOut(s, a, v);
  }

  lemma HostWriters(s: State, a: Step, v: nat)
    requires Enabled(s, a) && !IsFinalizerStep(a) && !SparesHost(EffectOf(s, a), v)
    ensures (a.HLock? || a.HLookup?) || IsVhostStep(a)
    ensures a.HLock? || a.HLookup? ==> a.h < |s.handlers| && s.handlers[a.h].vhost == v
    ensures IsVhostStep(a) ==> IsWorker(s, a.w) && s.workers[a.w].vhost == v
  {
  }

  /** In the array only a worker that has left its loop has its flag down. */
  lemma DeadHaveLeft(s: State, v: nat, w: nat)
    requires Inv(s) && v < |s.vhosts| && w in s.vhosts[v].idle
    ensures w < |s.workers| && s.workers[w].vhost == v && s.workers[w].owner == Pooled
    ensures Quitting(s.workers[w]) <==> !s.workers[w].keepGoing
  {
    assert VhostOk(s, v);
    assert WorkerOk(s, w);
  }

  lemma SeekerCounts(s: State, h: nat)
    requires h < |s.handlers| && (s.handlers[h].pc == Arrived || s.handlers[h].pc == Looking)
    ensures Seekers(s, s.handlers[h].vhost) >= 1
  {
    Counts(s.handlers, SeekerIn(s.handlers[h].vhost), h);
  }

  lemma OutnumberedIsTrapped(s: State, h: nat)
    requires Inv(s) && Enabled(s, HLock(h)) && Outnumbered(s, h)
    ensures IsHandler(Apply(s, HLock(h)), h) && Trapped(Apply(s, HLock(h)), h)
  {
    var v := s.handlers[h].vhost;
    SeekerCounts(s, h);
    var q := s.vhosts[v].idle;
    DeadHaveLeft(s, v, q[|q| - 1]);
    LockTaken(s, h);
  }

  lemma OutnumberedByLookup(s: State, g: nat, h: nat)
    requires Inv(s) && Enabled(s, HLookup(g)) && IsHandler(s, h) && Outnumbered(s, h) && g != h
    requires s.handlers[g].vhost == s.handlers[h].vhost
    ensures IsHandler(Apply(s, HLookup(g)), h) && Outnumbered(Apply(s, HLookup(g)), h)
  {
    assert HandlerOk(s, g);
    SeekerCounts(s, h);
    TopGoes(s, g);
    RecordIsLeftAlone(s, HLookup(g), h);
    OnlyTheStartShutsDown(s, HLookup(g));
  }

  lemma OutnumberedByHost(s: State, a: Step, h: nat)
    requires Inv(s) && Enabled(s, a) && IsVhostStep(a) && IsHandler(s, h) && Outnumbered(s, h)
    requires IsWorker(s, a.w) && s.workers[a.w].vhost == s.handlers[h].vhost
    ensures IsHandler(Apply(s, a), h) && Outnumbered(Apply(s, a), h)
  {
    HostStepMoves(s, a);
    RecordIsLeftAlone(s, a, h);
    OnlyTheStartShutsDown(s, a);
  }

  lemma OutnumberedByLock(s: State, g: nat, h: nat)
    requires Inv(s) && Enabled(s, HLock(g)) && IsHandler(s, h) && Outnumbered(s, h) && g != h
    requires s.handlers[g].vhost == s.handlers[h].vhost
    ensures IsHandler(Apply(s, HLock(g)), h) && Outnumbered(Apply(s, HLock(g)), h)
  {
    LockMovesNothing(s, g);
    RecordIsLeftAlone(s, HLock(g), h);
    OnlyTheStartShutsDown(s, HLock(g));
  }

  /** Without further requests and without a shutdown an outnumbered request stays so, or is trapped. */
  lemma OutnumberedUntilTrapped(s: State, a: Step, h: nat)
    requires Inv(s) && Enabled(s, a) && !a.Arrive? && !a.FStart? && IsHandler(s, h) && Outnumbered(s, h)
    ensures IsHandler(Apply(s, a), h) && (Outnumbered(Apply(s, a), h) || Trapped(Apply(s, a), h))
  {
    NoFinalizerYet(s, a);
    if a == HLock(h) {
      OutnumberedIsTrapped(s, h);
    } else if SparesHost(EffectOf(s, a), s.handlers[h].vhost) {
      NotTakenByArrived(s, a, h);
      OutnumberedFromAfar(s, a, h);
    } else {
      HostWriters(s, a, s.handlers[h].vhost);
      if a.HLock? { OutnumberedByLock(s, a.h, h); }
      else if a.HLookup? { NotTakenByArrived(s, a, h); OutnumberedByLookup(s, a.h, h); }
      else { OutnumberedByHost(s, a, h); }
    }
  }

  lemma NotTakenByArrived(s: State, a: Step, h: nat)
    requires Enabled(s, a) && h < |s.handlers| && s.handlers[h].pc == Arrived && a != HLock(h)
    ensures !TakenByHandler(a, h)
  {
  }
}
