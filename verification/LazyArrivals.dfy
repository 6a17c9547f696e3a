/**
How they bring back a request that has only arrived: a live worker comes back to the array, or others
clear the array of dead ones.
*/
module LazyArrivals {
  import opened Prelude
  import opened LazyBridge
  import opened LazyInvariant
  import opened LazyTheorems
  import opened LazyProgress
  import opened LazySeekers
  import opened LazyContinuations

  /** It finds the mutex free and no dead worker on top. */
  lemma ArrivedTakesLive(s: State, h: nat)
    requires Inv(s) && !s.crashed && IsHandler(s, h) && s.handlers[h].pc == Arrived
    requires VhostFree(s, s.handlers[h].vhost)
    requires s.shutdown || DeadTop(s.vhosts[s.handlers[h].vhost].idle, s.workers) == 0
    ensures CanBeAnswered(s, h)
  {
    var v := s.handlers[h].vhost;
    var q := s.vhosts[v].idle;
    if q != [] { DeadHaveLeft(s, v, q[|q| - 1]); }
    LockTaken(s, h);
    StepKeepsInv(s, HLock(h));
    LookingIsAnswered(Apply(s, HLock(h)), h);
    CanStill(s, HLock(h), h, false);
  }

  // ---- a live worker comes back to the array ----

  /** Worker `w` was given back in good order and is on its way to the array. */
  predicate ComesBack(s: State, w: nat) {
    IsWorker(s, w) && s.workers[w].owner == InTransit && s.workers[w].keepGoing && Fits(s, w, s.workers[w])
  }

  function BackNext(s: State, w: nat): Step
    requires ComesBack(s, w)
  {
    var v := s.workers[w].vhost;
    match s.workers[w].pc
    case AwaitTaken => WWakeTaken(w)
    case PushLock => if VhostFree(s, v) then WLockPush(w) else VhostRelease(s, v)
    case _ => WPush(w)
  }

  function BackRank(s: State, w: nat): nat
    requires ComesBack(s, w)
  {
    match s.workers[w].pc
    case AwaitTaken => 3
    case PushLock => if VhostFree(s, s.workers[w].vhost) then 1 else 2
    case _ => 0
  }

  lemma ReleaseSparesIt(s: State, w: nat)
    requires Inv(s) && ComesBack(s, w) && s.workers[w].pc == PushLock && !VhostFree(s, s.workers[w].vhost)
    requires Enabled(s, VhostRelease(s, s.workers[w].vhost))
    ensures !Targets(EffectOf(s, VhostRelease(s, s.workers[w].vhost)), w)
  {
    assert VhostOk(s, s.workers[w].vhost);
  }

  /** Its own steps on the way. */
  lemma OwnBackStep(s: State, w: nat)
    requires !s.crashed && ComesBack(s, w) && !(s.workers[w].pc == PushLock && !VhostFree(s, s.workers[w].vhost))
    ensures Safe(s, BackNext(s, w)) && !IsHandlerStep(BackNext(s, w))
    ensures var s' := Apply(s, BackNext(s, w));
      && w < |s'.workers| && s'.workers[w].keepGoing && s'.workers[w].vhost == s.workers[w].vhost
      && |s'.vhosts| == |s.vhosts|
      && if s.workers[w].pc == Pushing
         then s'.vhosts[s.workers[w].vhost].idle == s.vhosts[s.workers[w].vhost].idle + [w]
              && VhostFree(s', s.workers[w].vhost)
         else s'.workers[w].owner == InTransit
              && s'.workers[w].pc == (if s.workers[w].pc == AwaitTaken then PushLock else Pushing)
  {
  }

  /** The holder of the mutex gives it back. */
  lemma WaitedBackStep(s: State, w: nat)
    requires Inv(s) && !s.crashed && ComesBack(s, w)
    requires s.workers[w].pc == PushLock && !VhostFree(s, s.workers[w].vhost)
    ensures Safe(s, BackNext(s, w))
    ensures var s' := Apply(s, BackNext(s, w));
      && w < |s'.workers| && s'.workers[w] == s.workers[w]
      && |s'.vhosts| == |s.vhosts| && VhostFree(s', s.workers[w].vhost)
  {
    var v := s.workers[w].vhost;
    VhostHolderNeverBlocks(s, v);
    ReleaseSparesIt(s, w);
    WorkerStays(s, EffectOf(s, VhostRelease(s, v)), w);
  }

  /** The release is taken by a thread in its section, so not by a handler that has only arrived. */
  lemma ReleaseIsNotHis(s: State, v: nat, h: nat)
    requires Inv(s) && v < |s.vhosts| && s.vhosts[v].lock.Some? && h < |s.handlers| && s.handlers[h].pc == Arrived
    ensures !TakenByHandler(VhostRelease(s, v), h)
  {
    assert VhostOk(s, v);
  }

  lemma StaysBack(s: State, w: nat)
    requires Inv(s) && w < |s.workers| && s.workers[w].owner == InTransit && s.workers[w].keepGoing
    ensures ComesBack(s, w)
  {
    assert WorkerOk(s, w);
  }

  /** A live worker on its way back answers whoever waits for the array of its host. */
  lemma {:induction false} BackBringsIt(s: State, h: nat, w: nat)
    requires Inv(s) && !s.crashed && !s.shutdown && IsHandler(s, h) && s.handlers[h].pc == Arrived
    requires ComesBack(s, w) && s.workers[w].vhost == s.handlers[h].vhost
    ensures CanBeAnswered(s, h)
    decreases BackRank(s, w)
  {
    var v, a := s.handlers[h].vhost, BackNext(s, w);
    if s.workers[w].pc == PushLock && !VhostFree(s, v) {
      WaitedBackStep(s, w);
      ReleaseIsNotHis(s, v, h);
    } else {
      OwnBackStep(s, w);
    }
    var s' := Apply(s, a);
    StepKeepsInv(s, a);
    RecordIsLeftAlone(s, a, h);
    OnlyTheStartShutsDown(s, a);
    if s.workers[w].pc == Pushing {
      ArrivedTakesLive(s', h);
    } else {
      StaysBack(s', w);
      BackBringsIt(s', h, w);
    }
    CanStill(s, a, h, false);
  }

  lemma ClaimedNextKeepsIt(s: State, g: nat, w: nat)
    requires Held(s, g, w) && s.handlers[g].pc == Claimed(w) && s.workers[w].keepGoing
    requires Enabled(s, HeldNext(s, g, w)) && GoesOn(Apply(s, HeldNext(s, g, w)), g, w)
    ensures var s' := Apply(s, HeldNext(s, g, w));
      s'.workers[w].keepGoing && (s'.handlers[g].pc.Returned? ==> s'.workers[w].owner == InTransit)
  {
  }

  lemma WaitingNextKeepsIt(s: State, g: nat, w: nat)
    requires Held(s, g, w) && s.handlers[g].pc == Waiting(w) && s.workers[w].keepGoing && !Blocked(s, w)
    requires Enabled(s, HeldNext(s, g, w)) && GoesOn(Apply(s, HeldNext(s, g, w)), g, w)
    ensures var s' := Apply(s, HeldNext(s, g, w));
      s'.workers[w].keepGoing && (s'.handlers[g].pc.Returned? ==> s'.workers[w].owner == InTransit)
  {
  }

  /** The next step for a held request is not one of a handler that has only arrived. */
  lemma HeldNextIsNotHis(s: State, g: nat, w: nat, h: nat)
    requires Inv(s) && Held(s, g, w) && h < |s.handlers| && s.handlers[h].pc == Arrived
    ensures !TakenByHandler(HeldNext(s, g, w), h)
  {
    if !VhostFree(s, s.workers[w].vhost) { ReleaseIsNotHis(s, s.workers[w].vhost, h); }
  }

  /** What the next step for request `g`, with a live worker in hand, leads to. */
  lemma HeldNextLeads(s: State, g: nat, w: nat)
    requires Inv(s) && !s.crashed && Held(s, g, w) && s.workers[w].keepGoing
    ensures Safe(s, HeldNext(s, g, w))
    ensures var s' := Apply(s, HeldNext(s, g, w));
      && GoesOn(s', g, w) && s'.workers[w].keepGoing && s'.workers[w].vhost == s.workers[w].vhost
      && (s'.handlers[g].pc.Returned? ==> s'.workers[w].owner == InTransit)
      && (Rank(s', g) < Rank(s, g)
          || (Rank(s', g) == Rank(s, g) && Blocked(s, w) && !(IsWorker(s', w) && Blocked(s', w))))
  {
    assert PcOk(s.workers[w]);
    HeldNextIsSafe(s, g, w);
    WorkerKeepsItsHost(s, HeldNext(s, g, w), w);
    if Blocked(s, w) && s.handlers[g].pc == Waiting(w) {
      BlockedNextHelps(s, g, w);
      BlockedStillHeld(s, g, w);
    } else {
      HeldNextHelps(s, g, w);
      if s.handlers[g].pc == Claimed(w) { ClaimedNextKeepsIt(s, g, w); } else { WaitingNextKeepsIt(s, g, w); }
    }
  }

  lemma BlockedStillHeld(s: State, g: nat, w: nat)
    requires Inv(s) && !s.crashed && Held(s, g, w) && s.handlers[g].pc == Waiting(w) && Blocked(s, w)
    requires Enabled(s, HeldNext(s, g, w))
    ensures g < |Apply(s, HeldNext(s, g, w)).handlers| && !Apply(s, HeldNext(s, g, w)).handlers[g].pc.Returned?
  {
    BlockedNextIsSafe(s, g, w);
    ReleaseIsNotOwn(s, g, w);
    OthersLeaveItAlone(s, HeldNext(s, g, w), g, w);
  }

  /** So does one in the hands of another request. */
  lemma {:induction false} HeldBringsIt(s: State, h: nat, g: nat, w: nat)
    requires Inv(s) && !s.crashed && !s.shutdown && IsHandler(s, h) && s.handlers[h].pc == Arrived
    requires g < |s.handlers| && HasWorker(s.handlers[g].pc, w)
    requires w < |s.workers| && s.workers[w].keepGoing && s.workers[w].vhost == s.handlers[h].vhost
    ensures CanBeAnswered(s, h)
    decreases Rank(s, g), IsWorker(s, w) && Blocked(s, w)
  {
    HoldersHold(s, g, w);
    HeldNextLeads(s, g, w);
    HeldNextIsNotHis(s, g, w, h);
    var a := HeldNext(s, g, w);
    var s' := Apply(s, a);
    StepKeepsInv(s, a);
    RecordIsLeftAlone(s, a, h);
    OnlyTheStartShutsDown(s, a);
    assert HandlerOk(s', h);
    if s'.handlers[g].pc.Returned? {
      StaysBack(s', w);
      BackBringsIt(s', h, w);
    } else {
      HeldBringsIt(s', h, g, w);
    }
    CanStill(s, a, h, false);
  }

  lemma LiveOutIsOnTheMove(s: State, v: nat, w: nat)
    requires Inv(s) && !s.shutdown && v < |s.vhosts| && w < |s.workers| && IsLiveOut(s, v, w)
    ensures if s.workers[w].owner == InTransit then ComesBack(s, w)
            else s.workers[w].owner.HeldBy? && s.workers[w].owner.h < |s.handlers|
                 && HasWorker(s.handlers[s.workers[w].owner.h].pc, w)
  {
    assert WorkerOk(s, w);
  }

  lemma LiveOutBringsIt(s: State, h: nat)
    requires Inv(s) && !s.crashed && !s.shutdown && IsHandler(s, h) && s.handlers[h].pc == Arrived
    requires LiveOut(s, s.handlers[h].vhost)
    ensures CanBeAnswered(s, h)
  {
    var v := s.handlers[h].vhost;
    var w :| 0 <= w < |s.workers| && IsLiveOut(s, v, w);
    LiveOutIsOnTheMove(s, v, w);
    if s.workers[w].owner == InTransit {
      BackBringsIt(s, h, w);
    } else {
      HeldBringsIt(s, h, s.workers[w].owner.h, w);
    }
  }

  // ---- others clear the array ----

  /** Whoever looks takes a live worker, old or new, or a dead one off the array. */
  lemma LookupHelps(s: State, g: nat)
    requires Inv(s) && Enabled(s, HLookup(g)) && !s.shutdown && !LiveOut(s, s.handlers[g].vhost)
    ensures var v, s' := s.handlers[g].vhost, Apply(s, HLookup(g));
      && v < |s'.vhosts| && VhostFree(s', v)
      && (LiveOut(s', v)
          || (Seekers(s', v) == Seekers(s, v) - 1 && DeadAhead(s, v) > 0 && DeadAhead(s', v) == DeadAhead(s, v) - 1))
  {
    var v, s' := s.handlers[g].vhost, Apply(s, HLookup(g));
    var q := s.vhosts[v].idle;
    assert VhostOk(s, v);
    if q == [] {
      NewTaken(s, g);
      assert IsLiveOut(s', v, |s.workers|);
    } else {
      TopTaken(s, g);
      if DeadTop(q, s.workers) > 0 {
        TopGoes(s, g);
      } else {
        assert IsLiveOut(s', v, q[|q| - 1]);
      }
    }
  }

  /** Who holds the mutex of a virtual host, by the number of steps until somebody else may take it. */
  function Stage(s: State, v: nat): nat
    requires v < |s.vhosts|
  {
    match s.vhosts[v].lock
    case None => 1
    case Some(t) => if t.Handler? then 0 else 2
  }

  lemma ReleaseHelps(s: State, v: nat)
    requires Inv(s) && !s.crashed && !s.shutdown && v < |s.vhosts| && s.vhosts[v].lock.Some? && !LiveOut(s, v)
    ensures Safe(s, VhostRelease(s, v))
    ensures var s' := Apply(s, VhostRelease(s, v));
      && v < |s'.vhosts| && VhostFree(s', v)
      && (LiveOut(s', v)
          || (s.vhosts[v].lock.value.Handler? && Seekers(s', v) == Seekers(s, v) - 1
              && DeadAhead(s, v) > 0 && DeadAhead(s', v) == DeadAhead(s, v) - 1)
          || (s.vhosts[v].lock.value.Worker? && Seekers(s', v) == Seekers(s, v) && DeadAhead(s', v) == DeadAhead(s, v)))
  {
    assert VhostOk(s, v);
    VhostHolderNeverBlocks(s, v);
    match s.vhosts[v].lock.value
    case Handler(g) => LookupHelps(s, g);
    case Worker(w) => HostStepMoves(s, VhostRelease(s, v));
    case Finalizer =>
  }

  lemma OtherSeeker(s: State, h: nat) returns (g: nat)
    requires Inv(s) && IsHandler(s, h) && VhostFree(s, s.handlers[h].vhost) && Seekers(s, s.handlers[h].vhost) >= 2
    ensures g != h && IsHandler(s, g) && s.handlers[g].pc == Arrived && s.handlers[g].vhost == s.handlers[h].vhost
  {
    g := ManySatisfy(s.handlers, SeekerIn(s.handlers[h].vhost), h);
    assert HandlerOk(s, g);
  }

  /** A request that is not outnumbered. */
  lemma {:induction false} ArrivedIsAnswered(s: State, h: nat)
    requires Inv(s) && !s.crashed && !s.shutdown && IsHandler(s, h) && s.handlers[h].pc == Arrived && !Outnumbered(s, h)
    ensures CanBeAnswered(s, h)
    decreases Seekers(s, s.handlers[h].vhost), Stage(s, s.handlers[h].vhost)
  {
    var v := s.handlers[h].vhost;
    if LiveOut(s, v) {
      LiveOutBringsIt(s, h);
    } else if !VhostFree(s, v) {
      ReleaseHelps(s, v);
      ReleaseIsNotHis(s, v, h);
      ArrivedGoesOn(s, VhostRelease(s, v), h);
      if LiveOut(Apply(s, VhostRelease(s, v)), v) {
        LiveOutBringsIt(Apply(s, VhostRelease(s, v)), h);
      } else {
        ArrivedIsAnswered(Apply(s, VhostRelease(s, v)), h);
      }
      CanStill(s, VhostRelease(s, v), h, false);
    } else if DeadTop(s.vhosts[v].idle, s.workers) == 0 {
      ArrivedTakesLive(s, h);
    } else {
      var g := OtherSeeker(s, h);
      LockMovesNothing(s, g);
      LockTaken(s, g);
      ArrivedGoesOn(s, HLock(g), h);
      ArrivedIsAnswered(Apply(s, HLock(g)), h);
      CanStill(s, HLock(g), h, false);
    }
  }

  lemma ArrivedGoesOn(s: State, a: Step, h: nat)
    requires Inv(s) && IsHandler(s, h) && s.handlers[h].pc == Arrived && Safe(s, a) && !TakenByHandler(a, h)
    ensures var s' := Apply(s, a);
      && Inv(s') && !s'.crashed && s'.shutdown == s.shutdown && h < |s'.handlers| && s'.handlers[h] == s.handlers[h]
  {
    StepKeepsInv(s, a);
    RecordIsLeftAlone(s, a, h);
    OnlyTheStartShutsDown(s, a);
  }

  /** After shutdown it is refused. */
  lemma ArrivedIsRefused(s: State, h: nat)
    requires Inv(s) && !s.crashed && s.shutdown && IsHandler(s, h) && s.handlers[h].pc == Arrived
    ensures CanBeAnswered(s, h)
  {
    var v := s.handlers[h].vhost;
    if VhostFree(s, v) {
      ArrivedTakesLive(s, h);
    } else {
      var a := VhostRelease(s, v);
      VhostHolderNeverBlocks(s, v);
      ReleaseIsNotHis(s, v, h);
      ArrivedGoesOn(s, a, h);
      ArrivedTakesLive(Apply(s, a), h);
      CanStill(s, a, h, false);
    }
  }

  /** Enough further requests take the dead workers away. */
  lemma {:induction false} ArrivedIsRescued(s: State, h: nat)
    requires Inv(s) && !s.crashed && !s.shutdown && IsHandler(s, h) && s.handlers[h].pc == Arrived
    ensures CanBeRescued(s, h)
    decreases DeadAhead(s, s.handlers[h].vhost) + 1 - Seekers(s, s.handlers[h].vhost)
  {
    var v := s.handlers[h].vhost;
    if !Outnumbered(s, h) {
      ArrivedIsAnswered(s, h);
      AnsweredIsRescued(s, h);
    } else {
      StepKeepsInv(s, Arrive(v));
      TallyAppend(s.handlers, HandlerState(v, Arrived, []), SeekerIn(v));
      ArrivedIsRescued(Apply(s, Arrive(v)), h);
      CanStill(s, Arrive(v), h, true);
    }
  }
}
