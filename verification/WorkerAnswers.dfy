/** Which requests of the worker bridge can still be answered. */
module WorkerAnswers {
  import opened Prelude
  import opened WorkerBridge
  import opened WorkerInvariant
  import opened WorkerTheorems
  import opened WorkerProgress
  import opened WorkerPotential

  /** Not a step that the threads of the process take of themselves. */
  predicate FromOutside(a: Step) { a.Arrive? || a.KLock? || a.Spurious? || a.SpuriousSupervisor? }

  /** No further request, no shutdown and no spurious wakeup on the way. */
  ghost predicate Unaided(steps: seq<Step>) { forall i :: 0 <= i < |steps| ==> !FromOutside(steps[i]) }

  /** The shutdown thread is past the point where it takes job_mutex. */
  predicate ShutdownBegun(s: State) { s.g.sh != Running }

  /** The handler of `h` has returned its answer; only once a shutdown has begun a refusal counts too. */
  predicate Settled(t: State, h: nat, begun: bool) {
    h < |t.handlers| && (t.handlers[h].pc.Returned? || (begun && t.handlers[h].pc.Refused?))
  }

  /** The threads can bring the handler of `h` back by themselves. */
  ghost predicate CanBeAnswered(s: State, h: nat) {
    exists steps, t :: Leads(s, steps, t) && Unaided(steps) && Settled(t, h, ShutdownBegun(s))
  }

  lemma LeadsOn(s: State, a: Step, rest: seq<Step>, t: State)
    requires Enabled(s, a) && Leads(Apply(s, a), rest, t)
    ensures Leads(s, [a] + rest, t)
  {
    assert ([a] + rest)[1..] == rest;
  }

  lemma BeginsWithItsLock(s: State, a: Step)
    requires Enabled(s, a) && !a.KLock? && ShutdownBegun(Apply(s, a))
    ensures ShutdownBegun(s)
  {
  }

  /** What can be answered after a step could be answered before it. */
  lemma CanStill(s: State, a: Step, h: nat)
    requires Enabled(s, a) && !FromOutside(a) && CanBeAnswered(Apply(s, a), h)
    ensures CanBeAnswered(s, h)
  {
    var rest, t :| Leads(Apply(s, a), rest, t) && Unaided(rest) && Settled(t, h, ShutdownBegun(Apply(s, a)));
    LeadsOn(s, a, rest, t);
    if ShutdownBegun(Apply(s, a)) {
      BeginsWithItsLock(s, a);
    }
  }

  lemma Answered(s: State, h: nat)
    requires Settled(s, h, ShutdownBegun(s))
    ensures CanBeAnswered(s, h)
  {
    assert Leads(s, [], s);
  }

  // ---- a request that holds a thread ----

  ghost function Pick(waiters: set<Thread>): (t: Thread)
    ensures SignalPicks(waiters, t)
  {
    if waiters == {} then Finalizer else var t :| t in waiters; t
  }

  /** A step of the thread in a handler's hands, or of the handler, that brings its request forward. */
  ghost function HeldNext(s: State, h: nat, w: nat): Step
    requires Held(s, h, w)
  {
    var k := s.threads[w];
    if s.handlers[h].pc.Claimed? then
      if !k.locked then HHandOff(h, Pick(k.waiters)) else WTest(w)
    else if k.status == Done then HWake(h, Pick(k.waiters))
    else if k.status == Processing then WFinish(w, 0, false, Pick(k.waiters))
    else if k.pc == JobTest then WTest(w)
    else WWakeJob(w)
  }

  lemma HeldNextIsEnabled(s: State, h: nat, w: nat)
    requires Held(s, h, w) && !Abandoned(s, h)
    ensures Enabled(s, HeldNext(s, h, w)) && TakenBy(HeldNext(s, h, w), h, w)
  {
  }

  lemma HeldNextHelps(s: State, h: nat, w: nat)
    requires Held(s, h, w) && !Abandoned(s, h) && Enabled(s, HeldNext(s, h, w))
    ensures var s' := Apply(s, HeldNext(s, h, w));
      h < |s'.handlers| && (s'.handlers[h].pc.Returned? || (HasThread(s'.handlers[h].pc, w) && !Abandoned(s', h)))
  {
  }

  lemma {:induction false} HeldIsAnswered(s: State, h: nat, w: nat)
    requires Inv(s) && h < |s.handlers| && HasThread(s.handlers[h].pc, w) && !Abandoned(s, h)
    ensures CanBeAnswered(s, h)
    decreases Rank(s, h)
  {
    HoldersHold(s, h, w);
    HeldNextIsEnabled(s, h, w);
    HeldNextHelps(s, h, w);
    var a := HeldNext(s, h, w);
    OwnStepsDecrease(s, a, h, w);
    StepKeepsInv(s, a);
    if Apply(s, a).handlers[h].pc.Returned? {
      Answered(Apply(s, a), h);
    } else {
      HeldIsAnswered(Apply(s, a), h, w);
    }
    CanStill(s, a, h);
  }

  lemma ClaimedNextLowers(s: State, h: nat, w: nat)
    requires Held(s, h, w) && s.handlers[h].pc == Claimed(w) && !s.g.shutdown && Enabled(s, HeldNext(s, h, w))
    ensures Potential(Apply(s, HeldNext(s, h, w))) < Potential(s)
  {
    var k := s.threads[w];
    if !k.locked {
      HandOffLowers(s, h, Pick(k.waiters), w);
    } else {
      TestLowers(s, w);
    }
  }

  lemma WaitingNextLowers(s: State, h: nat, w: nat)
    requires Held(s, h, w) && s.handlers[h].pc == Waiting(w) && !s.g.shutdown && Enabled(s, HeldNext(s, h, w))
    ensures Potential(Apply(s, HeldNext(s, h, w))) < Potential(s)
  {
    var k := s.threads[w];
    if k.status == Done { HandlerWakeLowers(s, h, Pick(k.waiters), w); }
    else if k.status == Processing { FinishLowers(s, w, 0, false, Pick(k.waiters)); }
    else if k.pc == JobTest { TestLowers(s, w); }
    else { WakeJobLowers(s, w); }
  }

  /** That step lowers the potential too. */
  lemma HeldNextLowers(s: State, h: nat, w: nat)
    requires Held(s, h, w) && !s.g.shutdown && Enabled(s, HeldNext(s, h, w))
    ensures Potential(Apply(s, HeldNext(s, h, w))) < Potential(s)
  {
    if s.handlers[h].pc == Claimed(w) {
      ClaimedNextLowers(s, h, w);
    } else {
      WaitingNextLowers(s, h, w);
    }
  }

  // ---- towards a push ----

  /** The thread reaches its push without job_mutex. */
  predicate CanOffer(k: TclThread) {
    k.pc.Counting? || k.pc.Entering? || k.pc.Pushing? || LooksForJob(k) || k.pc.Serving?
    || ((k.pc.AwaitTaken? || k.pc.Served?) && k.keepGoing)
  }

  ghost predicate SomeoneCanOffer(s: State) { exists w :: 0 <= w < |s.threads| && CanOffer(s.threads[w]) }

  /** With an empty queue before shutdown a thread in its service loop is held or its own. */
  lemma NotOnTheQueue(s: State, w: nat)
    requires w < |s.threads| && Fits(s, w, s.threads[w]) && ControlOk(s) && !s.g.shutdown && s.g.queue == []
    ensures s.threads[w].owner.HeldBy? || s.threads[w].owner == Own
  {
  }

  /** The next step of a thread that is its own. */
  function OwnNext(k: TclThread, w: nat): Step {
    match k.pc
    case Booting => WBoot(w)
    case Setup => WSetup(w, true)
    case Counting => WCount(w)
    case Entering => WEnter(w)
    case Pushing => WPush(w)
    case AwaitTaken => WWakeTaken(w)
    case Served => WServed(w)
    case Exiting => WLockJob(w)
    case Reporting => WReport(w)
    case _ => WUncount(w)
  }

  lemma OwnNextLowers(s: State, w: nat)
    requires w < |s.threads| && Fits(s, w, s.threads[w]) && s.threads[w].owner == Own && !Reported(s.threads[w])
    requires Enabled(s, OwnNext(s.threads[w], w)) && s.threads[w].pc != Pushing
    ensures Potential(Apply(s, OwnNext(s.threads[w], w))) < Potential(s)
  {
    var pc := s.threads[w].pc;
    if pc == AwaitTaken { WakeTakenLowers(s, w); }
    else if pc == Served { ServedLowers(s, w); }
    else if pc == Exiting { LockJobLowers(s, w); }
    else if pc == Reporting { ReportLowers(s, w); }
    else { ComingLowers(s, OwnNext(s.threads[w], w)); }
  }

  /** The next step of a live thread, or of the request that holds it. */
  ghost function LiveNext(s: State, w: nat): Step
    requires w < |s.threads| && Fits(s, w, s.threads[w])
  {
    var k := s.threads[w];
    if k.owner.HeldBy? && Held(s, k.owner.h, w) then HeldNext(s, k.owner.h, w) else OwnNext(k, w)
  }

  predicate NeedsJobLock(k: TclThread) { k.pc.Booting? || k.pc.Exiting? }

  lemma OwnNextIsEnabled(s: State, w: nat)
    requires w < |s.threads| && Fits(s, w, s.threads[w]) && s.threads[w].owner == Own && !Reported(s.threads[w])
    requires s.g.queue == [] && (NeedsJobLock(s.threads[w]) ==> s.g.jobLock == None)
    ensures Enabled(s, OwnNext(s.threads[w], w))
  {
  }

  /** Step `a` is a push, or brings the threads nearer to one. */
  ghost predicate Nears(s: State, a: Step) {
    && Enabled(s, a) && !FromOutside(a) && !IsShutdownStep(a) && !a.HPop? && !a.HCheck?
    && (a.WPush? || Potential(Apply(s, a)) < Potential(s))
  }

  lemma HeldNextNears(s: State, h: nat, w: nat)
    requires Held(s, h, w) && !s.g.shutdown
    ensures Nears(s, HeldNext(s, h, w))
  {
    HeldNextIsEnabled(s, h, w);
    HeldNextLowers(s, h, w);
  }

  lemma OwnNextNears(s: State, w: nat)
    requires w < |s.threads| && Fits(s, w, s.threads[w]) && s.threads[w].owner == Own && !Reported(s.threads[w])
    requires s.g.queue == [] && (NeedsJobLock(s.threads[w]) ==> s.g.jobLock == None)
    ensures Nears(s, OwnNext(s.threads[w], w))
  {
    OwnNextIsEnabled(s, w);
    if s.threads[w].pc != Pushing {
      OwnNextLowers(s, w);
    }
  }

  lemma LiveNextNears(s: State, w: nat)
    requires Inv(s) && !s.g.shutdown && s.g.queue == [] && w < |s.threads| && LIVE(s.threads[w])
    requires NeedsJobLock(s.threads[w]) ==> s.g.jobLock == None
    ensures Fits(s, w, s.threads[w]) && Nears(s, LiveNext(s, w))
    ensures s.threads[w].owner.HeldBy? ==> Held(s, s.threads[w].owner.h, w)
  {
    assert ThreadOk(s, w);
    NotOnTheQueue(s, w);
    if s.threads[w].owner.HeldBy? {
      HeldNextNears(s, s.threads[w].owner.h, w);
    } else {
      OwnNextNears(s, w);
    }
  }

  lemma HeldStillCanOffer(s: State, h: nat, w: nat)
    requires Held(s, h, w) && CanOffer(s.threads[w]) && !s.g.shutdown && Enabled(s, HeldNext(s, h, w))
    ensures var s' := Apply(s, HeldNext(s, h, w)); w < |s'.threads| && CanOffer(s'.threads[w])
  {
  }

  lemma OwnStillCanOffer(s: State, w: nat)
    requires w < |s.threads| && Fits(s, w, s.threads[w]) && s.threads[w].owner == Own && CanOffer(s.threads[w])
    requires Enabled(s, OwnNext(s.threads[w], w))
    ensures var s' := Apply(s, OwnNext(s.threads[w], w));
      w < |s'.threads| && (CanOffer(s'.threads[w]) || s'.g.queue != [])
  {
  }

  /** A thread on its way to a push is nearer to it afterwards, or has pushed. */
  lemma StillCanOffer(s: State, w: nat)
    requires w < |s.threads| && Fits(s, w, s.threads[w]) && CanOffer(s.threads[w]) && !s.g.shutdown
    requires if s.threads[w].owner.HeldBy? then Held(s, s.threads[w].owner.h, w) else s.threads[w].owner == Own
    requires Enabled(s, LiveNext(s, w))
    ensures var s' := Apply(s, LiveNext(s, w));
      w < |s'.threads| && (CanOffer(s'.threads[w]) || s'.g.queue != [])
  {
    if s.threads[w].owner.HeldBy? {
      HeldStillCanOffer(s, s.threads[w].owner.h, w);
    } else {
      OwnStillCanOffer(s, w);
    }
  }

  /** The next step of the thread that holds job_mutex. */
  function JobRelease(s: State): Step
    requires s.g.jobLock.Some?
  {
    match s.g.jobLock.value
    case Worker(w) => if w < |s.threads| && s.threads[w].pc == Setup then WSetup(w, true) else WReport(w)
    case Supervisor => if s.g.sup == AtTest then STest else SRefill
    case _ => KAnnounce
  }

  /** Whoever holds job_mutex needs nothing else to go on. */
  lemma JobHolderNeverBlocks(s: State)
    requires Inv(s) && s.g.jobLock.Some?
    ensures Enabled(s, JobRelease(s))
  {
    if s.g.jobLock.value.Worker? {
      assert ThreadOk(s, s.g.jobLock.value.w);
    }
  }

  /** Until a shutdown begins the holder of job_mutex lowers the potential. */
  lemma JobReleaseNears(s: State)
    requires Inv(s) && s.g.sh == Running && s.g.jobLock.Some?
    ensures Nears(s, JobRelease(s))
  {
    JobHolderNeverBlocks(s);
    match JobRelease(s)
    case WSetup(w, _) => ComingLowers(s, JobRelease(s));
    case WReport(w) => ReportLowers(s, w);
    case STest => SupervisorLowers(s, STest);
    case SRefill => RefillLowers(s);
    case _ =>
  }

  lemma {:induction false} SomeLive(ts: seq<TclThread>) returns (w: nat)
    requires Tally(ts, LIVE) > 0
    ensures w < |ts| && LIVE(ts[w])
  {
    var n := |ts| - 1;
    if LIVE(ts[n]) { w := n; } else { w := SomeLive(ts[..n]); }
  }

  /** What the supervisor does when no thread is live. */
  function SupervisorNext(g: Globals): Step {
    if g.sup.Starting? && g.sup.next < g.toStart then SStart else if g.sup == InWait then SWake else SLock
  }

  lemma SupervisorNextNears(s: State)
    requires Inv(s) && !s.g.shutdown && s.g.jobLock == None && Tally(s.threads, LIVE) == 0
    ensures Nears(s, SupervisorNext(s.g))
  {
    if SupervisorNext(s.g) == SStart {
      StartLowers(s);
    } else {
      SupervisorLowers(s, SupervisorNext(s.g));
    }
  }

  /** Once a shutdown has begun, a thread that needs no job_mutex comes nearer to its push. */
  lemma OfferWithoutLock(s: State, w: nat) returns (a: Step)
    requires Inv(s) && !s.g.shutdown && s.g.queue == [] && w < |s.threads| && CanOffer(s.threads[w])
    ensures Nears(s, a) && (SomeoneCanOffer(Apply(s, a)) || Apply(s, a).g.queue != [])
  {
    LiveNextNears(s, w);
    NotOnTheQueue(s, w);
    StillCanOffer(s, w);
    a := LiveNext(s, w);
  }

  lemma OfferStep(s: State) returns (a: Step)
    requires Inv(s) && !s.g.shutdown && s.g.queue == [] && (ShutdownBegun(s) ==> SomeoneCanOffer(s))
    ensures Nears(s, a)
    ensures ShutdownBegun(s) ==> SomeoneCanOffer(Apply(s, a)) || Apply(s, a).g.queue != []
  {
    if ShutdownBegun(s) {
      var w :| 0 <= w < |s.threads| && CanOffer(s.threads[w]);
      a := OfferWithoutLock(s, w);
    } else if s.g.jobLock.Some? {
      JobReleaseNears(s);
      a := JobRelease(s);
    } else if Tally(s.threads, LIVE) > 0 {
      var w := SomeLive(s.threads);
      LiveNextNears(s, w);
      a := LiveNext(s, w);
    } else {
      SupervisorNextNears(s);
      a := SupervisorNext(s.g);
    }
  }

  /** The writes `e` do not move the shutdown on. */
  predicate SameShutdown(s: State, e: Effect) { e.g.sh == s.g.sh && e.g.shutdown == s.g.shutdown }

  lemma ThreadsDoNotShutDown(s: State, a: Step)
    requires IsThreadStep(a) && ThreadReady(s, a)
    ensures SameShutdown(s, ThreadEffect(s, a))
  {
  }

  lemma OthersDoNotShutDown(s: State, a: Step)
    requires IsHandlerStep(a) ==> HandlerReady(s, a)
    requires IsSupervisorStep(a) ==> SupervisorReady(s, a)
    ensures IsHandlerStep(a) ==> SameShutdown(s, HandlerEffect(s, a))
    ensures IsSupervisorStep(a) ==> SameShutdown(s, SupervisorEffect(s, a))
  {
  }

  lemma OnlyShutdownShutsDown(s: State, a: Step)
    requires Enabled(s, a) && !IsShutdownStep(a)
    ensures Apply(s, a).g.sh == s.g.sh && Apply(s, a).g.shutdown == s.g.shutdown
  {
    if IsThreadStep(a) {
      ThreadsDoNotShutDown(s, a);
    } else {
      OthersDoNotShutDown(s, a);
    }
  }

  lemma PoppingIsAnsweredAtOnce(s: State, h: nat)
    requires Inv(s) && !s.g.shutdown && h < |s.handlers| && s.handlers[h].pc == Popping && s.g.queue != []
    ensures CanBeAnswered(s, h)
  {
    var w := s.g.queue[0];
    assert ThreadOk(s, w);
    StepKeepsInv(s, HPop(h));
    HeldIsAnswered(Apply(s, HPop(h)), h, w);
    CanStill(s, HPop(h), h);
  }

  lemma {:induction false} PoppingIsAnswered(s: State, h: nat)
    requires Inv(s) && !s.g.shutdown && h < |s.handlers| && s.handlers[h].pc == Popping
    requires s.g.queue == [] && ShutdownBegun(s) ==> SomeoneCanOffer(s)
    ensures CanBeAnswered(s, h)
    decreases Potential(s)
  {
    PotentialIsNatural(s);
    if s.g.queue != [] {
      PoppingIsAnsweredAtOnce(s, h);
    } else {
      var a := OfferStep(s);
      var s' := Apply(s, a);
      StepKeepsInv(s, a);
      PoppingStays(s, a, h);
      OnlyShutdownShutsDown(s, a);
      if s'.g.queue != [] {
        PoppingIsAnsweredAtOnce(s', h);
      } else {
        PushFills(s, a);
        PoppingIsAnswered(s', h);
      }
      CanStill(s, a, h);
    }
  }

  lemma PushFills(s: State, a: Step)
    requires Enabled(s, a) && Apply(s, a).g.queue == []
    ensures !a.WPush?
  {
  }

  // ---- exactly ----

  /**
  Shutdown has overtaken the request: it came too late for a thread to serve it, or it
  waits for the queue while the shutdown thread keeps job_mutex from all that could push.
  */
  ghost predicate Overtaken(s: State, h: nat)
    requires h < |s.handlers|
  {
    Abandoned(s, h) || Frozen(s, h)
  }

  ghost predicate Frozen(s: State, h: nat)
    requires h < |s.handlers|
  {
    s.handlers[h].pc == Popping && s.g.sh == Announcing && s.g.queue == [] && !SomeoneCanOffer(s)
  }

  lemma ArrivedIsAnswered(s: State, h: nat)
    requires Inv(s) && h < |s.handlers| && s.handlers[h].pc == Arrived
    ensures CanBeAnswered(s, h)
  {
    StepKeepsInv(s, HCheck(h));
    if s.g.shutdown {
      RefusedAtOnce(s, h);
    } else if s.g.queue == [] && ShutdownBegun(s) && !SomeoneCanOffer(s) {
      RefusedSoon(s, h);
    } else {
      CheckKeepsThreads(s, h);
      PoppingIsAnswered(Apply(s, HCheck(h)), h);
      CanStill(s, HCheck(h), h);
    }
  }

  lemma RefusedAtOnce(s: State, h: nat)
    requires s.g.shutdown && ShutdownBegun(s) && h < |s.handlers| && s.handlers[h].pc == Arrived
    ensures CanBeAnswered(s, h)
  {
    Answered(Apply(s, HCheck(h)), h);
    CanStill(s, HCheck(h), h);
  }

  /** The shutdown thread sets the flag first. */
  lemma RefusedSoon(s: State, h: nat)
    requires s.g.sh == Announcing && h < |s.handlers| && s.handlers[h].pc == Arrived
    ensures CanBeAnswered(s, h)
  {
    RefusedAtOnce(Apply(s, KAnnounce), h);
    CanStill(s, KAnnounce, h);
  }

  lemma CheckKeepsThreads(s: State, h: nat)
    requires Enabled(s, HCheck(h)) && !s.g.shutdown
    ensures var s' := Apply(s, HCheck(h));
      s'.g == s.g && s'.threads == s.threads && h < |s'.handlers| && s'.handlers[h].pc == Popping
    ensures SomeoneCanOffer(s) ==> SomeoneCanOffer(Apply(s, HCheck(h)))
  {
  }

  /** Nobody thaws the queue before the flag is set. */
  lemma FrozenUntilAbandoned(s: State, a: Step, h: nat)
    requires Inv(s) && Enabled(s, a) && h < |s.handlers| && Frozen(s, h)
    ensures h < |Apply(s, a).handlers| && Overtaken(Apply(s, a), h)
  {
    PoppingStays(s, a, h);
    if a != KAnnounce {
      StaysFrozen(s, a);
    }
  }

  /** The writes `e` bring no thread into a place from which it could push. */
  predicate NoOffer(s: State, e: Effect) {
    && e.g.sh == s.g.sh && e.g.queue == [] && (e.worker.Some? ==> !CanOffer(e.worker.value.1))
    && (e.created.Some? ==> !CanOffer(e.created.value))
  }

  lemma NoOfferKeeps(s: State, e: Effect)
    requires NoOffer(s, e) && !SomeoneCanOffer(s)
    ensures Perform(s, e).g.sh == s.g.sh && Perform(s, e).g.queue == [] && !SomeoneCanOffer(Perform(s, e))
  {
    var s' := Perform(s, e);
    forall w | 0 <= w < |s'.threads| ensures !CanOffer(s'.threads[w]) {
      if w < |s.threads| && !Targets(e, w) {
        assert s'.threads[w] == s.threads[w];
      }
    }
  }

  lemma FrozenHandlers(s: State, a: Step)
    requires IsHandlerStep(a) && HandlerReady(s, a) && HandlerOk(s, a.h) && s.g.queue == [] && !SomeoneCanOffer(s)
    requires a.HHandOff? || a.HWake? ==> ThreadOk(s, s.handlers[a.h].pc.w)
    ensures NoOffer(s, HandlerEffect(s, a))
  {
  }

  lemma FrozenThreads(s: State, a: Step)
    requires IsThreadStep(a) && ThreadReady(s, a) && Fits(s, a.w, s.threads[a.w])
    requires s.g.jobLock == Some(Finalizer) && s.g.queue == [] && !CanOffer(s.threads[a.w])
    ensures NoOffer(s, ThreadEffect(s, a))
  {
  }

  lemma FrozenSupervisor(s: State, a: Step)
    requires IsSupervisorStep(a) && SupervisorReady(s, a) && s.g.queue == []
    ensures NoOffer(s, SupervisorEffect(s, a))
  {
  }

  lemma StaysFrozen(s: State, a: Step)
    requires Inv(s) && Enabled(s, a) && a != KAnnounce
    requires s.g.sh == Announcing && s.g.queue == [] && !SomeoneCanOffer(s)
    ensures Apply(s, a).g.sh == Announcing && Apply(s, a).g.queue == [] && !SomeoneCanOffer(Apply(s, a))
  {
    if IsHandlerStep(a) {
      assert HandlerOk(s, a.h);
      assert a.HHandOff? || a.HWake? ==> ThreadOk(s, s.handlers[a.h].pc.w);
      FrozenHandlers(s, a);
    } else if IsSupervisorStep(a) {
      FrozenSupervisor(s, a);
    } else if IsThreadStep(a) {
      assert ThreadOk(s, a.w);
      FrozenThreads(s, a);
    }
    NoOfferKeeps(s, EffectOf(s, a));
  }

  lemma OvertakenForever(s: State, a: Step, h: nat)
    requires Inv(s) && Enabled(s, a) && h < |s.handlers| && Overtaken(s, h)
    ensures h < |Apply(s, a).handlers| && Overtaken(Apply(s, a), h)
  {
    if Abandoned(s, h) {
      AbandonedForever(s, a, h);
    } else {
      FrozenUntilAbandoned(s, a, h);
    }
  }

  lemma {:induction false} NeverAnswered(s: State, steps: seq<Step>, t: State, h: nat)
    requires Inv(s) && h < |s.handlers| && Overtaken(s, h) && Leads(s, steps, t)
    ensures h < |t.handlers| && !t.handlers[h].pc.Returned? && !t.handlers[h].pc.Refused?
    decreases |steps|
  {
    if steps != [] {
      StepKeepsInv(s, steps[0]);
      OvertakenForever(s, steps[0], h);
      NeverAnswered(Apply(s, steps[0]), steps[1..], t, h);
    }
  }

  /**
  In every reachable state the threads can by themselves, without a spurious wakeup, bring a
  request to its answer exactly when shutdown has not overtaken it.
  */
  lemma AnsweredExactly(tr: seq<State>, steps: seq<Step>, i: nat, h: nat)
    requires IsRun(tr, steps) && i < |tr| && h < |tr[i].handlers| && Pending(tr[i], h)
    ensures CanBeAnswered(tr[i], h) <==> !Overtaken(tr[i], h)
  {
    var s := tr[i];
    RunInv(tr, steps, i);
    if Overtaken(s, h) {
      forall more, t | Leads(s, more, t) ensures !Settled(t, h, ShutdownBegun(s)) {
        NeverAnswered(s, more, t, h);
      }
    } else {
      match s.handlers[h].pc
      case Arrived => ArrivedIsAnswered(s, h);
      case Popping => PoppingIsAnswered(s, h);
      case Claimed(w) => HeldIsAnswered(s, h, w);
      case Waiting(w) => HeldIsAnswered(s, h, w);
    }
  }

  /** Before a shutdown begins every request that is not answered can be. */
  lemma AnsweredUntilShutdown(tr: seq<State>, steps: seq<Step>, i: nat, h: nat)
    requires IsRun(tr, steps) && i < |tr| && h < |tr[i].handlers| && Pending(tr[i], h) && !ShutdownBegun(tr[i])
    ensures CanBeAnswered(tr[i], h)
  {
    RunInv(tr, steps, i);
    AnsweredExactly(tr, steps, i, h);
  }

  // ---- no deadlock ----

  /** Nothing can happen any more but what comes from outside or by a spurious wakeup. */
  ghost predicate Quiet(s: State) { forall a :: Enabled(s, a) ==> FromOutside(a) }

  lemma QuietAnswersNobody(s: State, h: nat)
    requires Quiet(s) && h < |s.handlers| && Pending(s, h)
    ensures !CanBeAnswered(s, h)
  {
    forall more, t | Leads(s, more, t) && Unaided(more) ensures !Settled(t, h, ShutdownBegun(s)) {
      if more != [] { WhoeverLeadsIsNotQuiet(s, more, t); }
    }
  }

  lemma WhoeverLeadsIsNotQuiet(s: State, more: seq<Step>, t: State)
    requires more != [] && Leads(s, more, t) && Unaided(more)
    ensures !Quiet(s)
  {
    assert Enabled(s, more[0]) && !FromOutside(more[0]);
  }

  lemma AnnouncingIsNotQuiet(s: State)
    requires s.g.sh == Announcing
    ensures !Quiet(s)
  {
    assert Enabled(s, KAnnounce) && !FromOutside(KAnnounce);
  }

  /** When all threads have come to rest, a request is still open only if the shutdown flag came before its service. */
  lemma QuietMeansAbandoned(tr: seq<State>, steps: seq<Step>, i: nat, h: nat)
    requires IsRun(tr, steps) && i < |tr| && Quiet(tr[i]) && h < |tr[i].handlers| && Pending(tr[i], h)
    ensures Abandoned(tr[i], h)
  {
    QuietAnswersNobody(tr[i], h);
    AnsweredExactly(tr, steps, i, h);
    if tr[i].g.sh == Announcing { AnnouncingIsNotQuiet(tr[i]); }
  }

  /** No deadlock: without a shutdown the threads come to rest only when no request is left. */
  lemma QuietMeansDone(tr: seq<State>, steps: seq<Step>, i: nat, h: nat)
    requires IsRun(tr, steps) && i < |tr| && !ShutdownBegun(tr[i]) && Quiet(tr[i]) && h < |tr[i].handlers|
    ensures tr[i].handlers[h].pc.Returned?
  {
    RunInv(tr, steps, i);
    assert HandlerOk(tr[i], h);
    if Pending(tr[i], h) {
      AnsweredUntilShutdown(tr, steps, i, h);
      QuietAnswersNobody(tr[i], h);
    }
  }
}
