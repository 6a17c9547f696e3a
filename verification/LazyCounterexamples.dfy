/** Runs of the lazy bridge that show how it fails. */
module LazyCounterexamples {
  import opened Prelude
  import opened LazyBridge
  import opened LazyInvariant
  import opened LazyTheorems
  import opened LazyProgress
  import opened LazySeekers
  import opened LazyContinuations
  import opened LazyAnswers

  lemma Extend(s: State, a: Step, t: State)
    requires Reachable(s) && Enabled(s, a) && t == Apply(s, a)
    ensures Reachable(t)
  {
    var tr, steps :| IsRun(tr, steps) && tr[|steps|] == s;
    RunGoesOn(tr, steps, a, t);
  }

  lemma RunGoesOn(tr: seq<State>, steps: seq<Step>, a: Step, t: State)
    requires IsRun(tr, steps) && Enabled(tr[|steps|], a) && t == Apply(tr[|steps|], a)
    ensures IsRun(tr + [t], steps + [a])
  {
    var tr', steps' := tr + [t], steps + [a];
    forall i | 0 <= i < |steps'| ensures Enabled(tr'[i], steps'[i]) && tr'[i + 1] == Apply(tr'[i], steps'[i]) {
      if i < |steps| { assert tr'[i] == tr[i] && tr'[i + 1] == tr[i + 1] && steps'[i] == steps[i]; }
    }
  }

  /** One virtual host, one worker descriptor, no shutdown. */
  function One(y: Vhost, k: LazyWorker, hs: seq<HandlerState>): State {
    State(false, [y], [k], hs, NotStarted, false)
  }

  /** The descriptor from its creation on, before content is generated. */
  function Fresh(conf: Option<nat>, status: Status, r: Option<nat>, waiters: set<Thread>, pc: WorkerPc): LazyWorker {
    LazyWorker(0, conf, status, r, 0, waiters, pc == LoopTop || pc == Serving, pc, true, None, HeldBy(0))
  }

  /** The descriptor after request 0 was answered with 200 by a script that called `exit`. */
  function AfterExit(status: Status, r: Option<nat>, waiters: set<Thread>, pc: WorkerPc, owner: Owner): LazyWorker {
    LazyWorker(0, Some(0), status, r, 200, waiters, pc == LoopTop || pc == PushLock || pc == Pushing, pc, false,
               Some(0), owner)
  }

  const UNLOCKED := Vhost(0, None, [])

  const COUNTED := Vhost(1, None, [])

  const WAITS := [HandlerState(0, Waiting(0), [])]

  const SERVED := [HandlerState(0, Waiting(0), [200])]

  const RETURNED := [HandlerState(0, Returned(200), [200])]

  /** Waiting and being woken, seen on sets with at most one member. */
  lemma OneWaiter(t: Thread, u: Thread)
    ensures {} - {t} + {u} == {u} && {} + {u} == {u}
    ensures {t} - {t} + {u} == {u} && {t} - {t} == {}
  {
  }

  /** The descriptor once request 0 is handed over. */
  const HANDED_OVER := Fresh(Some(0), Init, Some(0), {Handler(0)}, Starting)

  const SERVING := Fresh(Some(0), Processing, Some(0), {Handler(0)}, Serving).(serving := Some(0))

  /** The descriptor once the answer to request 0 is collected. */
  const GIVEN_BACK := AfterExit(Idle, None, {}, AwaitTaken, InTransit)

  /** Worker 0 holds the mutex of the virtual host. */
  function LockedBy0(count: int, idle: seq<nat>): Vhost { Vhost(count, Some(Worker(0)), idle) }

  lemma Single<T>(x: T, y: T)
    ensures [x][0 := y] == [y]
  {
  }

  /** A step of worker 0 on its descriptor and on its virtual host. */
  lemma OnHost(y: Vhost, k: LazyWorker, hs: seq<HandlerState>, y': Vhost, k': LazyWorker)
    requires k.vhost == 0
    ensures Perform(One(y, k, hs), WorkerOnVhost(One(y, k, hs), 0, k', y')) == One(y', k', hs)
  {
    Single(y, y');
    Single(k, k');
  }

  lemma RequestArrives()
    ensures Reachable(State(false, [UNLOCKED], [], [HandlerState(0, Arrived, [])], NotStarted, false))
  {
    var s := State(false, [UNLOCKED], [], [], NotStarted, false);
    assert IsRun([s], []);
    Extend(s, Arrive(0), State(false, [UNLOCKED], [], [HandlerState(0, Arrived, [])], NotStarted, false));
  }

  lemma RequestLooks()
    ensures Reachable(State(false, [Vhost(0, Some(Handler(0)), [])], [], [HandlerState(0, Looking, [])],
                            NotStarted, false))
  {
    RequestArrives();
    Extend(State(false, [UNLOCKED], [], [HandlerState(0, Arrived, [])], NotStarted, false), HLock(0),
           State(false, [Vhost(0, Some(Handler(0)), [])], [], [HandlerState(0, Looking, [])], NotStarted, false));
  }

  /** Request 0 finds an empty array and creates worker 0. */
  lemma WorkerIsCreated()
    ensures Reachable(One(UNLOCKED, Fresh(None, Idle, None, {}, Starting), [HandlerState(0, Claimed(0), [])]))
  {
    RequestLooks();
    Extend(State(false, [Vhost(0, Some(Handler(0)), [])], [], [HandlerState(0, Looking, [])], NotStarted, false),
           HLookup(0), One(UNLOCKED, Fresh(None, Idle, None, {}, Starting), [HandlerState(0, Claimed(0), [])]));
  }

  /** The new thread may read `w->conf` before its creator has stored it. */
  lemma EarlyReadCrashes() returns (s: State)
    ensures Reachable(s) && s.crashed && !s.shutdown
  {
    WorkerIsCreated();
    var t := One(UNLOCKED, Fresh(None, Idle, None, {}, Starting), [HandlerState(0, Claimed(0), [])]);
    s := t.(crashed := true);
    Extend(t, WReadConf(0), s);
  }

  /** The creator hands its request over first. */
  lemma RequestIsHandedOver()
    ensures Reachable(One(UNLOCKED, HANDED_OVER, WAITS))
  {
    WorkerIsCreated();
    OneWaiter(Finalizer, Handler(0));
    Extend(One(UNLOCKED, Fresh(None, Idle, None, {}, Starting), [HandlerState(0, Claimed(0), [])]),
           HHandOff(0, Finalizer), One(UNLOCKED, HANDED_OVER, WAITS));
  }

  /** The thread finds its virtual host. */
  lemma WorkerIsConfigured()
    ensures Reachable(One(UNLOCKED, HANDED_OVER.(pc := Configured), WAITS))
  {
    RequestIsHandedOver();
    Extend(One(UNLOCKED, HANDED_OVER, WAITS), WReadConf(0), One(UNLOCKED, HANDED_OVER.(pc := Configured), WAITS));
  }

  lemma WorkerCounts()
    ensures Reachable(One(LockedBy0(0, []), HANDED_OVER.(pc := Counting), WAITS))
  {
    WorkerIsConfigured();
    Extend(One(UNLOCKED, HANDED_OVER.(pc := Configured), WAITS), WLockCount(0),
           One(LockedBy0(0, []), HANDED_OVER.(pc := Counting), WAITS));
  }

  lemma WorkerIsCounted()
    ensures Reachable(One(COUNTED, HANDED_OVER.(pc := Entering), WAITS))
  {
    WorkerCounts();
    Extend(One(LockedBy0(0, []), HANDED_OVER.(pc := Counting), WAITS), WCount(0),
           One(COUNTED, HANDED_OVER.(pc := Entering), WAITS));
  }

  lemma WorkerEnters()
    ensures Reachable(One(COUNTED, HANDED_OVER.(pc := LoopTop, locked := true), WAITS))
  {
    WorkerIsCounted();
    Extend(One(COUNTED, HANDED_OVER.(pc := Entering), WAITS), WEnter(0),
           One(COUNTED, HANDED_OVER.(pc := LoopTop, locked := true), WAITS));
  }

  /** It reaches its loop and finds the request. */
  lemma WorkerTakesTheRequest()
    ensures Reachable(One(COUNTED, SERVING, WAITS))
  {
    WorkerEnters();
    Extend(One(COUNTED, HANDED_OVER.(pc := LoopTop, locked := true), WAITS), WLoop(0), One(COUNTED, SERVING, WAITS));
  }

  /** Request 0 is served by a script that calls `exit`. */
  lemma RequestIsServed()
    ensures Reachable(One(COUNTED, AfterExit(Done, Some(0), {Worker(0)}, AwaitTaken, HeldBy(0)), SERVED))
  {
    WorkerTakesTheRequest();
    OneWaiter(Handler(0), Worker(0));
    assert [] + [200] == [200];
    Extend(One(COUNTED, SERVING, WAITS), WFinish(0, 200, true, Handler(0)),
           One(COUNTED, AfterExit(Done, Some(0), {Worker(0)}, AwaitTaken, HeldBy(0)), SERVED));
  }

  /** Its answer is collected. */
  lemma RequestIsAnswered()
    ensures Reachable(One(COUNTED, GIVEN_BACK, RETURNED))
  {
    RequestIsServed();
    OneWaiter(Worker(0), Worker(0));
    Extend(One(COUNTED, AfterExit(Done, Some(0), {Worker(0)}, AwaitTaken, HeldBy(0)), SERVED),
           HWake(0, Worker(0)), One(COUNTED, GIVEN_BACK, RETURNED));
  }

  /** The worker goes for the array. */
  lemma WorkerGoesBack()
    ensures Reachable(One(COUNTED, GIVEN_BACK.(pc := PushLock, locked := true), RETURNED))
  {
    RequestIsAnswered();
    Extend(One(COUNTED, GIVEN_BACK, RETURNED), WWakeTaken(0),
           One(COUNTED, GIVEN_BACK.(pc := PushLock, locked := true), RETURNED));
  }

  lemma WorkerLocksTheArray()
    ensures Reachable(One(LockedBy0(1, []), GIVEN_BACK.(pc := Pushing, locked := true), RETURNED))
  {
    WorkerGoesBack();
    Extend(One(COUNTED, GIVEN_BACK.(pc := PushLock, locked := true), RETURNED), WLockPush(0),
           One(LockedBy0(1, []), GIVEN_BACK.(pc := Pushing, locked := true), RETURNED));
  }

  /** It offers itself again. */
  lemma WorkerOffersItself()
    ensures Reachable(One(Vhost(1, None, [0]), AfterExit(Idle, None, {}, LoopTop, Pooled), RETURNED))
  {
    WorkerLocksTheArray();
    OnHost(LockedBy0(1, []), GIVEN_BACK.(pc := Pushing, locked := true), RETURNED,
           Vhost(1, None, [0]), AfterExit(Idle, None, {}, LoopTop, Pooled));
    assert [] + [0] == [0];
    Extend(One(LockedBy0(1, []), GIVEN_BACK.(pc := Pushing, locked := true), RETURNED), WPush(0),
           One(Vhost(1, None, [0]), AfterExit(Idle, None, {}, LoopTop, Pooled), RETURNED));
  }

  /** Having done so it leaves. */
  lemma WorkerLeavesItsLoop()
    ensures Reachable(One(Vhost(1, None, [0]), AfterExit(Idle, None, {}, Leaving, Pooled), RETURNED))
  {
    WorkerOffersItself();
    Extend(One(Vhost(1, None, [0]), AfterExit(Idle, None, {}, LoopTop, Pooled), RETURNED), WLoop(0),
           One(Vhost(1, None, [0]), AfterExit(Idle, None, {}, Leaving, Pooled), RETURNED));
  }

  lemma WorkerUncounts()
    ensures Reachable(One(LockedBy0(1, [0]), AfterExit(Idle, None, {}, Uncounting, Pooled), RETURNED))
  {
    WorkerLeavesItsLoop();
    OnHost(Vhost(1, None, [0]), AfterExit(Idle, None, {}, Leaving, Pooled), RETURNED,
           LockedBy0(1, [0]), AfterExit(Idle, None, {}, Uncounting, Pooled));
    Extend(One(Vhost(1, None, [0]), AfterExit(Idle, None, {}, Leaving, Pooled), RETURNED), WLockUncount(0),
           One(LockedBy0(1, [0]), AfterExit(Idle, None, {}, Uncounting, Pooled), RETURNED));
  }

  lemma WorkerIsGone()
    ensures Reachable(One(Vhost(0, None, [0]), AfterExit(Idle, None, {}, Gone, Pooled), RETURNED))
  {
    WorkerUncounts();
    OnHost(LockedBy0(1, [0]), AfterExit(Idle, None, {}, Uncounting, Pooled), RETURNED,
           Vhost(0, None, [0]), AfterExit(Idle, None, {}, Gone, Pooled));
    Extend(One(LockedBy0(1, [0]), AfterExit(Idle, None, {}, Uncounting, Pooled), RETURNED), WUncount(0),
           One(Vhost(0, None, [0]), AfterExit(Idle, None, {}, Gone, Pooled), RETURNED));
  }

  lemma NextRequestArrives()
    ensures Reachable(One(Vhost(0, None, [0]), AfterExit(Idle, None, {}, Gone, Pooled),
                          RETURNED + [HandlerState(0, Arrived, [])]))
  {
    WorkerIsGone();
    Extend(One(Vhost(0, None, [0]), AfterExit(Idle, None, {}, Gone, Pooled), RETURNED), Arrive(0),
           One(Vhost(0, None, [0]), AfterExit(Idle, None, {}, Gone, Pooled),
               RETURNED + [HandlerState(0, Arrived, [])]));
  }

  /** One dead worker on top, one request that looks, nobody else. */
  lemma OneEach(s: State)
    requires s == One(Vhost(0, None, [0]), AfterExit(Idle, None, {}, Gone, Pooled),
                      RETURNED + [HandlerState(0, Arrived, [])])
    ensures IsHandler(s, 1) && Outnumbered(s, 1) && Pending(s, 1)
  {
    TallyAppend(RETURNED, HandlerState(0, Arrived, []), SeekerIn(0));
    assert RETURNED[..0] == [];
  }

  /**
  A reachable state, without shutdown, in which the next request has only arrived, the mutex
  is free, and the threads cannot answer it; they could if one more request came in.
  */
  lemma ExitOutnumbersTheNextRequest() returns (s: State)
    ensures Reachable(s) && !s.shutdown && !s.crashed
    ensures IsHandler(s, 1) && s.handlers[1].pc == Arrived && VhostFree(s, 0) && Outnumbered(s, 1)
    ensures !CanBeAnswered(s, 1) && CanBeRescued(s, 1)
  {
    NextRequestArrives();
    s := One(Vhost(0, None, [0]), AfterExit(Idle, None, {}, Gone, Pooled), RETURNED + [HandlerState(0, Arrived, [])]);
    OneEach(s);
    var tr, steps :| IsRun(tr, steps) && tr[|steps|] == s;
    AnsweredExactly(tr, steps, |steps|, 1);
    RescuedExactly(tr, steps, |steps|, 1);
  }

  const TRAPPED :=
    One(Vhost(0, Some(Handler(1)), [0]), AfterExit(Idle, None, {}, Gone, Pooled),
        RETURNED + [HandlerState(0, Looking, [])])

  /** The next request is about to take the worker that is gone. */
  lemma NextRequestLooks()
    ensures Reachable(TRAPPED)
  {
    NextRequestArrives();
    var hs := RETURNED + [HandlerState(0, Arrived, [])];
    assert hs[1 := HandlerState(0, Looking, [])] == TRAPPED.handlers;
    Extend(One(Vhost(0, None, [0]), AfterExit(Idle, None, {}, Gone, Pooled), hs), HLock(1), TRAPPED);
  }

  /** A reachable state without shutdown in which request 1 is trapped, though not yet doomed. */
  lemma ExitTrapsTheNextRequest() returns (s: State)
    ensures Reachable(s) && !s.shutdown && !s.crashed
    ensures IsHandler(s, 1) && Trapped(s, 1) && !Doomed(s, 1)
  {
    NextRequestLooks();
    s := TRAPPED;
  }

  const STRANDED :=
    One(UNLOCKED, AfterExit(Init, Some(1), {Handler(1)}, Gone, HeldBy(1)), RETURNED + [HandlerState(0, Waiting(0), [])])

  lemma LookupIsReady()
    ensures Enabled(TRAPPED, HLookup(1)) && TRAPPED.vhosts[0].idle[..0] == []
  {
  }

  lemma NextRequestClaims()
    ensures Reachable(One(UNLOCKED, AfterExit(Idle, None, {}, Gone, HeldBy(1)),
                          RETURNED + [HandlerState(0, Claimed(0), [])]))
  {
    NextRequestLooks();
    var hs := RETURNED + [HandlerState(0, Claimed(0), [])];
    assert TRAPPED.handlers[1 := HandlerState(0, Claimed(0), [])] == hs;
    LookupIsReady();
    TopTaken(TRAPPED, 1);
    Extend(TRAPPED, HLookup(1), One(UNLOCKED, AfterExit(Idle, None, {}, Gone, HeldBy(1)), hs));
  }

  lemma NextRequestIsHandedOver()
    ensures Reachable(STRANDED)
  {
    NextRequestClaims();
    OneWaiter(Finalizer, Handler(1));
    var hs := RETURNED + [HandlerState(0, Claimed(0), [])];
    assert hs[1 := HandlerState(0, Waiting(0), [])] == STRANDED.handlers;
    Extend(One(UNLOCKED, AfterExit(Idle, None, {}, Gone, HeldBy(1)), hs), HHandOff(1, Finalizer), STRANDED);
  }

  /**
  A reachable state, without shutdown, in which request 1 has been handed over to a
  thread that is gone: nothing happens any more but an arrival, the finalizer's start or a
  spurious wakeup, and no continuation ever answers it.
  */
  lemma ExitStrandsTheNextRequest() returns (s: State)
    ensures Reachable(s) && !s.shutdown && !s.crashed
    ensures |s.handlers| == 2 && s.handlers[1].pc == Waiting(0) && Doomed(s, 1)
    ensures Quiet(s)
  {
    NextRequestIsHandedOver();
    StrandedIsQuiet();
    s := STRANDED;
  }

  lemma StrandedIsQuiet()
    ensures Quiet(STRANDED)
  {
    var s := STRANDED;
    assert s.handlers[0].pc == Returned(200) && s.handlers[1].pc == Waiting(0) && s.workers[0].pc == Gone;
    forall a | Enabled(s, a) ensures FromOutside(a) {
      if IsWorkerStep(a) { assert a.w == 0; } else if IsHandlerStep(a) { assert a.h < 2; }
    }
  }
}
