/** Runs of the worker bridge that show how shutdown overtakes a request. */
module WorkerCounterexamples {
  import opened Prelude
  import opened WorkerBridge
  import opened WorkerInvariant
  import opened WorkerTheorems
  import opened WorkerProgress
  import opened WorkerAnswers

  lemma Extend(s: State, a: Step, t: State)
    requires Reachable(s) && Enabled(s, a) && t == Apply(s, a)
    ensures Reachable(t)
  {
    var tr, steps :| IsRun(tr, steps) && tr[|steps|] == s;
    RunGoesOn(tr, steps, a, t);
  }

  lemma RunGoesOn(tr: seq<State>, steps: seq<Step>, a: Step, t: State)
    requires IsRun(tr, steps) && Enabled(tr[|steps|], a) && t == Apply(tr[|steps|], a)
    ensures IsRun(tr + [t], steps + [a])
  {
    var tr', steps' := tr + [t], steps + [a];
    forall i | 0 <= i < |steps'| ensures Enabled(tr'[i], steps'[i]) && tr'[i + 1] == Apply(tr'[i], steps'[i]) {
      if i < |steps| { assert tr'[i] == tr[i] && tr'[i + 1] == tr[i + 1] && steps'[i] == steps[i]; }
    }
  }

  /** One thread in one slot, started and counted. */
  function G(shutdown: bool, queue: seq<nat>, lock: Option<Thread>, sh: ShutdownPc): Globals {
    Globals(shutdown, queue, lock, false, [], [Some(0)], 1, 0, 1, 0, Starting(1), sh)
  }

  function Descriptor(pc: WorkerPc, waiters: set<Thread>, owner: Owner): TclThread {
    TclThread(Idle, None, 0, waiters, pc == Pushing || pc == JobTest, pc, true, None, owner)
  }

  /** The globals before the thread counts itself. */
  const UNCOUNTED := G(false, [], None, Running).(threadsCount := 0)

  const COUNTED := G(false, [], None, Running)

  const ON_OFFER := Descriptor(AwaitJob, {Worker(0)}, Queued)

  const ANNOUNCED := G(true, [], None, Draining(5, 0))

  /** The descriptor with request 0 in it. */
  const HANDED_OVER := Descriptor(AwaitJob, {Handler(0)}, HeldBy(0)).(status := Init, r := Some(0))

  const WAITS := [HandlerState(Waiting(0), [])]

  lemma PoolStarts()
    ensures Reachable(State(UNCOUNTED, [NEW_THREAD], []))
  {
    var s := State(Globals(false, [], None, false, [], [None], 0, 0, 1, 0, Starting(0), Running), [], []);
    assert IsRun([s], []);
    assert [None][0 := Some(0)] == [Some(0)] && [] + [NEW_THREAD] == [NEW_THREAD];
    Extend(s, SStart, State(UNCOUNTED, [NEW_THREAD], []));
  }

  lemma ThreadBoots()
    ensures Reachable(State(UNCOUNTED.(jobLock := Some(Worker(0))), [Descriptor(Setup, {}, Own)], []))
  {
    PoolStarts();
    Extend(State(UNCOUNTED, [NEW_THREAD], []), WBoot(0),
           State(UNCOUNTED.(jobLock := Some(Worker(0))), [Descriptor(Setup, {}, Own)], []));
  }

  lemma ThreadIsSetUp()
    ensures Reachable(State(UNCOUNTED, [Descriptor(Counting, {}, Own)], []))
  {
    ThreadBoots();
    Extend(State(UNCOUNTED.(jobLock := Some(Worker(0))), [Descriptor(Setup, {}, Own)], []), WSetup(0, true),
           State(UNCOUNTED, [Descriptor(Counting, {}, Own)], []));
  }

  lemma ThreadIsCounted()
    ensures Reachable(State(COUNTED, [Descriptor(Entering, {}, Own)], []))
  {
    ThreadIsSetUp();
    Extend(State(UNCOUNTED, [Descriptor(Counting, {}, Own)], []), WCount(0),
           State(COUNTED, [Descriptor(Entering, {}, Own)], []));
  }

  lemma ThreadEnters()
    ensures Reachable(State(COUNTED, [Descriptor(Pushing, {}, Own)], []))
  {
    ThreadIsCounted();
    Extend(State(COUNTED, [Descriptor(Entering, {}, Own)], []), WEnter(0),
           State(COUNTED, [Descriptor(Pushing, {}, Own)], []));
  }

  lemma ThreadPushes()
    ensures Reachable(State(G(false, [0], None, Running), [Descriptor(JobTest, {}, Queued)], []))
  {
    ThreadEnters();
    assert [] + [0] == [0];
    Extend(State(COUNTED, [Descriptor(Pushing, {}, Own)], []), WPush(0),
           State(G(false, [0], None, Running), [Descriptor(JobTest, {}, Queued)], []));
  }

  lemma ThreadOffersItself()
    ensures Reachable(State(G(false, [0], None, Running), [ON_OFFER], []))
  {
    ThreadPushes();
    assert {} + {Worker(0)} == {Worker(0)};
    Extend(State(G(false, [0], None, Running), [Descriptor(JobTest, {}, Queued)], []), WTest(0),
           State(G(false, [0], None, Running), [ON_OFFER], []));
  }

  lemma RequestArrives()
    ensures Reachable(State(G(false, [0], None, Running), [ON_OFFER], [HandlerState(Arrived, [])]))
  {
    ThreadOffersItself();
    Extend(State(G(false, [0], None, Running), [ON_OFFER], []), Arrive,
           State(G(false, [0], None, Running), [ON_OFFER], [HandlerState(Arrived, [])]));
  }

  lemma RequestPops()
    ensures Reachable(State(G(false, [0], None, Running), [ON_OFFER], [HandlerState(Popping, [])]))
  {
    RequestArrives();
    Extend(State(G(false, [0], None, Running), [ON_OFFER], [HandlerState(Arrived, [])]), HCheck(0),
           State(G(false, [0], None, Running), [ON_OFFER], [HandlerState(Popping, [])]));
  }

  lemma RequestIsClaimed()
    ensures Reachable(State(COUNTED, [ON_OFFER.(owner := HeldBy(0))], [HandlerState(Claimed(0), [])]))
  {
    RequestPops();
    Extend(State(G(false, [0], None, Running), [ON_OFFER], [HandlerState(Popping, [])]), HPop(0),
           State(COUNTED, [ON_OFFER.(owner := HeldBy(0))], [HandlerState(Claimed(0), [])]));
  }

  lemma ShutdownTakesTheLock()
    ensures Reachable(State(G(false, [], Some(Finalizer), Announcing), [ON_OFFER.(owner := HeldBy(0))],
                            [HandlerState(Claimed(0), [])]))
  {
    RequestIsClaimed();
    Extend(State(COUNTED, [ON_OFFER.(owner := HeldBy(0))], [HandlerState(Claimed(0), [])]), KLock,
           State(G(false, [], Some(Finalizer), Announcing), [ON_OFFER.(owner := HeldBy(0))],
                 [HandlerState(Claimed(0), [])]));
  }

  lemma ShutdownIsAnnounced()
    ensures Reachable(State(ANNOUNCED, [ON_OFFER.(owner := HeldBy(0))], [HandlerState(Claimed(0), [])]))
  {
    ShutdownTakesTheLock();
    Extend(State(G(false, [], Some(Finalizer), Announcing), [ON_OFFER.(owner := HeldBy(0))],
                 [HandlerState(Claimed(0), [])]), KAnnounce,
           State(ANNOUNCED, [ON_OFFER.(owner := HeldBy(0))], [HandlerState(Claimed(0), [])]));
  }

  lemma RequestIsHandedOver()
    ensures Reachable(State(ANNOUNCED, [HANDED_OVER], WAITS))
  {
    ShutdownIsAnnounced();
    assert {Worker(0)} - {Worker(0)} + {Handler(0)} == {Handler(0)};
    Extend(State(ANNOUNCED, [ON_OFFER.(owner := HeldBy(0))], [HandlerState(Claimed(0), [])]),
           HHandOff(0, Worker(0)), State(ANNOUNCED, [HANDED_OVER], WAITS));
  }

  lemma ThreadWakes()
    ensures Reachable(State(ANNOUNCED, [HANDED_OVER.(locked := true, pc := JobTest)], WAITS))
  {
    RequestIsHandedOver();
    Extend(State(ANNOUNCED, [HANDED_OVER], WAITS), WWakeJob(0),
           State(ANNOUNCED, [HANDED_OVER.(locked := true, pc := JobTest)], WAITS));
  }

  /**
  A reachable state in which a request that passed the shutdown test has been handed to a
  thread that saw the flag and left: it waits for an answer that never comes.
  */
  lemma ShutdownLeavesARequestBehind() returns (s: State)
    ensures Reachable(s)
    ensures |s.handlers| == 1 && s.handlers[0].pc == Waiting(0) && Abandoned(s, 0)
    ensures |s.threads| == 1 && s.threads[0].pc == Exiting
  {
    ThreadWakes();
    s := State(ANNOUNCED, [HANDED_OVER.(keepGoing := false, pc := Exiting)], WAITS);
    Extend(State(ANNOUNCED, [HANDED_OVER.(locked := true, pc := JobTest)], WAITS), WTest(0), s);
  }

  lemma RequestArrivesFirst()
    ensures Reachable(State(UNCOUNTED, [NEW_THREAD], [HandlerState(Arrived, [])]))
  {
    PoolStarts();
    Extend(State(UNCOUNTED, [NEW_THREAD], []), Arrive, State(UNCOUNTED, [NEW_THREAD], [HandlerState(Arrived, [])]));
  }

  lemma RequestPopsFirst()
    ensures Reachable(State(UNCOUNTED, [NEW_THREAD], [HandlerState(Popping, [])]))
  {
    RequestArrivesFirst();
    Extend(State(UNCOUNTED, [NEW_THREAD], [HandlerState(Arrived, [])]), HCheck(0),
           State(UNCOUNTED, [NEW_THREAD], [HandlerState(Popping, [])]));
  }

  /** While the shutdown thread holds job_mutex before any thread has started, a waiting request is lost. */
  lemma ShutdownFreezesTheQueue() returns (s: State)
    ensures Reachable(s) && !s.g.shutdown
    ensures |s.handlers| == 1 && s.handlers[0].pc == Popping && Overtaken(s, 0)
  {
    RequestPopsFirst();
    s := State(UNCOUNTED.(jobLock := Some(Finalizer), sh := Announcing), [NEW_THREAD], [HandlerState(Popping, [])]);
    Extend(State(UNCOUNTED, [NEW_THREAD], [HandlerState(Popping, [])]), KLock, s);
  }
}
