/**
The worker bridge: a fixed pool of Tcl threads behind one bounded queue.

A Tcl thread (`request_processor`) pushes its own descriptor on the queue and waits.
A handler (`WorkerBridge_Request`) pops a descriptor, stores its request in it and
waits for the answer. A supervisor starts the threads and restarts those that
report their exit. At shutdown one more thread pops the descriptors left and
dismisses their owners.

As in the lazy bridge a step is the code between two blocking points; `locked` is a
descriptor's own mutex while it is held across one, `waiters` the threads in
`cond_wait` on it; `supWaits` tells that the supervisor waits on `job_cond`.
*/
module WorkerBridge {
  import opened Prelude

  /** MOD_RIVET_QUEUE_SIZE */
  const QUEUE_SIZE := 100

  datatype Thread = Handler(h: nat) | Worker(w: nat) | Supervisor | Finalizer

  datatype Status = Init | Idle | Processing | Done

  datatype WorkerPc =
    | Booting       // about to lock job_mutex
    | Setup         // holds job_mutex, creating interpreters
    | Counting      // about to increment threads_count
    | Entering      // about to lock its own mutex
    | Pushing       // holds its own mutex, in apr_queue_push
    | JobTest       // holds its own mutex, at the test for a job
    | AwaitJob      // waiting for a job
    | Serving       // holds its own mutex, in Rivet_SendContent
    | AwaitTaken    // waiting for the handler to collect the answer
    | Served        // holds its own mutex, about to leave the running count
    | Exiting       // out of the loop, about to lock job_mutex
    | Reporting     // holds job_mutex
    | Uncounting    // on the exiting list, about to decrement threads_count
    | Gone

  /** History variable: who is entitled to the descriptor. No step reads it. */
  datatype Owner = Own | Queued | HeldBy(h: nat) | HeldByShutdown | Dismissed

  datatype TclThread = TclThread(
    status: Status,
    r: Option<nat>,
    code: int,
    waiters: set<Thread>,
    locked: bool,
    pc: WorkerPc,
    keepGoing: bool,
    serving: Option<nat>,
    owner: Owner)

  datatype HandlerPc =
    | Arrived
    | Popping            // in apr_queue_pop
    | Claimed(w: nat)
    | Waiting(w: nat)
    | Returned(code: int)
    | Refused            // returned HTTP_INTERNAL_SERVER_ERROR during shutdown

  /** `served` is a history variable: the answers computed for this request. */
  datatype HandlerState = HandlerState(pc: HandlerPc, served: seq<int>)

  datatype SupervisorPc =
    | Starting(next: nat)   // start_thread_pool
    | AtLock                // about to lock job_mutex
    | AtTest                // holds job_mutex
    | InWait                // in cond_wait on job_cond
    | Refilling             // holds job_mutex, emptying the exiting list
    | Stopped

  datatype ShutdownPc =
    | Running                                   // no shutdown requested
    | Announcing                                // holds job_mutex
    | Draining(waits: int, threadsToStop: int)  // about to try a pop
    | Dismissing(waits: int, w: nat)            // popped a descriptor
    | Drained

  datatype Globals = Globals(
    shutdown: bool,
    queue: seq<nat>,
    jobLock: Option<Thread>,
    supWaits: bool,
    exiting: seq<nat>,
    slots: seq<Option<nat>>,
    threadsCount: int,
    runningCount: int,
    toStart: nat,
    skip: int,
    sup: SupervisorPc,
    sh: ShutdownPc)

  datatype State = State(g: Globals, threads: seq<TclThread>, handlers: seq<HandlerState>)

  datatype Step =
    | Arrive
    | HCheck(h: nat)
    | HPop(h: nat)
    | HHandOff(h: nat, t: Thread)
    | HWake(h: nat, t: Thread)
    | WBoot(w: nat)
    | WSetup(w: nat, ok: bool)
    | WCount(w: nat)
    | WEnter(w: nat)
    | WPush(w: nat)
    | WTest(w: nat)
    | WWakeJob(w: nat)
    | WFinish(w: nat, code: int, exits: bool, t: Thread)
    | WWakeTaken(w: nat)
    | WServed(w: nat)
    | WLockJob(w: nat)
    | WReport(w: nat)
    | WUncount(w: nat)
    | SStart
    | SLock
    | STest
    | SWake
    | SRefill
    | KLock
    | KAnnounce
    | KTryPop
    | KDismiss(t: Thread)
    | Spurious(w: nat, t: Thread)
    | SpuriousSupervisor

  predicate SignalPicks(waiters: set<Thread>, t: Thread) {
    waiters == {} || t in waiters
  }

  const NEW_THREAD := TclThread(Idle, None, 0, {}, false, Booting, true, None, Own)

  // ---- sections on a descriptor ----

  function HandOff(k: TclThread, h: nat, t: Thread): TclThread {
    k.(r := Some(h), status := Init, code := 0, waiters := k.waiters - {t} + {Handler(h)})
  }

  function Collect(k: TclThread, t: Thread): TclThread {
    k.(status := Idle, waiters := k.waiters - {t}, owner := Own)
  }

  function FinishServing(k: TclThread, w: nat, code: int, exits: bool, t: Thread): TclThread {
    k.(code := code, status := Done, keepGoing := k.keepGoing && !exits,
       waiters := k.waiters - {t} + {Worker(w)}, locked := false, pc := AwaitTaken)
  }

  /** The wait loop, the shutdown test behind it, and the start of content generation. */
  function JobTests(k: TclThread, w: nat, shutdown: bool): TclThread {
    if k.status != Init then k.(waiters := k.waiters + {Worker(w)}, locked := false, pc := AwaitJob)
    else if shutdown then k.(keepGoing := false, locked := false, pc := Exiting)
    else k.(status := Processing, serving := k.r, pc := Serving)
  }

  /** The shutdown thread makes the owner of the descriptor look at the shutdown flag. */
  function Dismiss(k: TclThread, t: Thread): TclThread {
    k.(status := Init, waiters := k.waiters - {t}, owner := Dismissed)
  }

  // ---- the transition system ----

  predicate IsThread(s: State, w: nat) { w < |s.threads| }

  predicate IsHandler(s: State, h: nat) { h < |s.handlers| }

  predicate ThreadAt(s: State, w: nat, pc: WorkerPc) { IsThread(s, w) && s.threads[w].pc == pc }

  predicate IsHandlerStep(a: Step) { a.HCheck? || a.HPop? || a.HHandOff? || a.HWake? }

  predicate IsSupervisorStep(a: Step) {
    a.SStart? || a.SLock? || a.STest? || a.SWake? || a.SRefill? || a.SpuriousSupervisor?
  }

  predicate IsShutdownStep(a: Step) { a.KLock? || a.KAnnounce? || a.KTryPop? || a.KDismiss? }

  predicate IsThreadStep(a: Step) {
    !a.Arrive? && !IsHandlerStep(a) && !IsSupervisorStep(a) && !IsShutdownStep(a)
  }

  predicate Enabled(s: State, a: Step) {
    if a.Arrive? then true
    else if IsHandlerStep(a) then HandlerReady(s, a)
    else if IsSupervisorStep(a) then SupervisorReady(s, a)
    else if IsShutdownStep(a) then ShutdownReady(s, a)
    else ThreadReady(s, a)
  }

  predicate HandlerReady(s: State, a: Step)
    requires IsHandlerStep(a)
  {
    match a
    case HCheck(h) => IsHandler(s, h) && s.handlers[h].pc == Arrived
    case HPop(h) => IsHandler(s, h) && s.handlers[h].pc == Popping && s.g.queue != [] && IsThread(s, s.g.queue[0])
    case HHandOff(h, t) =>
      && IsHandler(s, h) && s.handlers[h].pc.Claimed?
      && var w := s.handlers[h].pc.w;
      && IsThread(s, w) && !s.threads[w].locked && SignalPicks(s.threads[w].waiters, t)
    case HWake(h, t) =>
      && IsHandler(s, h) && s.handlers[h].pc.Waiting?
      && var w := s.handlers[h].pc.w;
      && IsThread(s, w) && !s.threads[w].locked && Handler(h) !in s.threads[w].waiters
      && SignalPicks(s.threads[w].waiters, t)
  }

  predicate ThreadReady(s: State, a: Step)
    requires IsThreadStep(a)
  {
    match a
    case WBoot(w) => ThreadAt(s, w, Booting) && s.g.jobLock == None
    case WSetup(w, _) => ThreadAt(s, w, Setup)
    case WCount(w) => ThreadAt(s, w, Counting)
    case WEnter(w) => ThreadAt(s, w, Entering) && !s.threads[w].locked
    case WPush(w) => ThreadAt(s, w, Pushing) && |s.g.queue| < QUEUE_SIZE
    case WTest(w) => ThreadAt(s, w, JobTest)
    case WWakeJob(w) => ThreadAt(s, w, AwaitJob) && Worker(w) !in s.threads[w].waiters && !s.threads[w].locked
    case WFinish(w, _, _, t) => ThreadAt(s, w, Serving) && SignalPicks(s.threads[w].waiters, t)
    case WWakeTaken(w) =>
      ThreadAt(s, w, AwaitTaken) && Worker(w) !in s.threads[w].waiters && !s.threads[w].locked
    case WServed(w) => ThreadAt(s, w, Served)
    case WLockJob(w) => ThreadAt(s, w, Exiting) && s.g.jobLock == None
    case WReport(w) => ThreadAt(s, w, Reporting)
    case WUncount(w) => ThreadAt(s, w, Uncounting)
    case Spurious(w, t) => IsThread(s, w) && t in s.threads[w].waiters
  }

  predicate SupervisorReady(s: State, a: Step)
    requires IsSupervisorStep(a)
  {
    match a
    case SStart => s.g.sup.Starting? && s.g.sup.next < s.g.toStart && s.g.sup.next < |s.g.slots|
    case SLock => (s.g.sup == AtLock || s.g.sup == Starting(s.g.toStart)) && s.g.jobLock == None
    case STest => s.g.sup == AtTest
    case SWake => s.g.sup == InWait && !s.g.supWaits && s.g.jobLock == None
    case SRefill => s.g.sup == Refilling
    case SpuriousSupervisor => s.g.supWaits
  }

  predicate ShutdownReady(s: State, a: Step)
    requires IsShutdownStep(a)
  {
    match a
    case KLock => s.g.sh == Running && s.g.jobLock == None
    case KAnnounce => s.g.sh == Announcing
    case KTryPop => s.g.sh.Draining? && (s.g.queue != [] ==> IsThread(s, s.g.queue[0]))
    case KDismiss(t) =>
      && s.g.sh.Dismissing? && IsThread(s, s.g.sh.w) && !s.threads[s.g.sh.w].locked
      && SignalPicks(s.threads[s.g.sh.w].waiters, t)
  }

  /** The writes of one step. */
  datatype Effect = Effect(
    worker: Option<(nat, TclThread)>,
    handler: Option<(nat, HandlerState)>,
    created: Option<TclThread>,
    arrived: Option<HandlerState>,
    g: Globals)

  function NoEffect(s: State): Effect { Effect(None, None, None, None, s.g) }

  function Put<T>(xs: seq<T>, u: Option<(nat, T)>): seq<T> {
    if u.Some? && u.value.0 < |xs| then xs[u.value.0 := u.value.1] else xs
  }

  function Added<T>(xs: seq<T>, x: Option<T>): seq<T> {
    if x.Some? then xs + [x.value] else xs
  }

  function Perform(s: State, e: Effect): State {
    State(e.g, Added(Put(s.threads, e.worker), e.created), Added(Put(s.handlers, e.handler), e.arrived))
  }

  function OnThread(s: State, w: nat, k: TclThread): Effect { NoEffect(s).(worker := Some((w, k))) }

  function HandlerWake(s: State, h: nat, t: Thread): Effect
    requires HandlerReady(s, HWake(h, t))
  {
    var x := s.handlers[h];
    var w := x.pc.w;
    var k := s.threads[w];
    if k.status != Done then OnThread(s, w, k.(waiters := k.waiters + {Handler(h)}))
    else OnThread(s, w, Collect(k, t)).(handler := Some((h, x.(pc := Returned(k.code)))))
  }

  function Finish(s: State, w: nat, code: int, exits: bool, t: Thread): Effect
    requires ThreadReady(s, WFinish(w, code, exits, t))
  {
    var k := s.threads[w];
    var e := OnThread(s, w, FinishServing(k, w, code, exits, t));
    if k.serving.Some? && k.serving.value < |s.handlers| then
      var x := s.handlers[k.serving.value];
      e.(handler := Some((k.serving.value, x.(served := x.served + [code]))))
    else e
  }

  /** Interpreter creation: on failure the thread reports its exit at once. */
  function SetupDone(s: State, w: nat, ok: bool): Effect
    requires ThreadReady(s, WSetup(w, ok))
  {
    var k := s.threads[w];
    if ok then OnThread(s, w, k.(pc := Counting)).(g := s.g.(jobLock := None))
    else OnThread(s, w, k.(pc := Gone)).(g := s.g.(jobLock := None, supWaits := false, exiting := s.g.exiting + [w]))
  }

  /** The first slot that holds thread `p`, or the number of slots. */
  function FindSlot(slots: seq<Option<nat>>, p: nat): nat {
    if slots == [] || slots[0] == Some(p) then 0 else 1 + FindSlot(slots[1..], p)
  }

  /** One round of the loop that empties the exiting list; a thread found in the table is replaced. */
  function Refill(s: State): Effect
    requires SupervisorReady(s, SRefill)
  {
    if s.g.exiting == [] || s.g.shutdown then
      NoEffect(s).(g := s.g.(jobLock := None, sup := if s.g.shutdown then Stopped else AtLock))
    else
      var n := |s.g.exiting| - 1;
      var i := FindSlot(s.g.slots, s.g.exiting[n]);
      if i < |s.g.slots| then
        NoEffect(s).(created := Some(NEW_THREAD),
                     g := s.g.(exiting := s.g.exiting[..n], slots := s.g.slots[i := Some(|s.threads|)]))
      else NoEffect(s).(g := s.g.(exiting := s.g.exiting[..n]))
  }

  /** The condition of the drain loop. */
  function DrainTest(g: Globals, waits: int, threadsToStop: int): ShutdownPc {
    if waits > 0 && threadsToStop > g.skip then Draining(waits, threadsToStop) else Drained
  }

  function TryPop(s: State): Effect
    requires ShutdownReady(s, KTryPop)
  {
    var d := s.g.sh;
    if s.g.queue == [] then
      NoEffect(s).(g := s.g.(sh := DrainTest(s.g, d.waits - 1, d.threadsToStop)))
    else
      var w := s.g.queue[0];
      OnThread(s, w, s.threads[w].(owner := HeldByShutdown))
        .(g := s.g.(queue := s.g.queue[1..], sh := Dismissing(d.waits, w)))
  }

  function HandlerEffect(s: State, a: Step): Effect
    requires IsHandlerStep(a) && HandlerReady(s, a)
  {
    match a
    case HCheck(h) =>
      NoEffect(s).(handler := Some((h, s.handlers[h].(pc := if s.g.shutdown then Refused else Popping))))
    case HPop(h) =>
      var w := s.g.queue[0];
      OnThread(s, w, s.threads[w].(owner := HeldBy(h)))
        .(handler := Some((h, s.handlers[h].(pc := Claimed(w)))), g := s.g.(queue := s.g.queue[1..]))
    case HHandOff(h, t) =>
      var w := s.handlers[h].pc.w;
      OnThread(s, w, HandOff(s.threads[w], h, t)).(handler := Some((h, s.handlers[h].(pc := Waiting(w)))))
    case HWake(h, t) => HandlerWake(s, h, t)
  }

  function ThreadEffect(s: State, a: Step): Effect
    requires IsThreadStep(a) && ThreadReady(s, a)
  {
    match a
    case WBoot(w) => OnThread(s, w, s.threads[w].(pc := Setup)).(g := s.g.(jobLock := Some(Worker(w))))
    case WSetup(w, ok) => SetupDone(s, w, ok)
    case WCount(w) =>
      OnThread(s, w, s.threads[w].(pc := Entering)).(g := s.g.(threadsCount := s.g.threadsCount + 1))
    case WEnter(w) => OnThread(s, w, s.threads[w].(locked := true, pc := Pushing))
    case WPush(w) =>
      OnThread(s, w, s.threads[w].(pc := JobTest, owner := Queued)).(g := s.g.(queue := s.g.queue + [w]))
    case WTest(w) =>
      var k := JobTests(s.threads[w], w, s.g.shutdown);
      OnThread(s, w, k).(g := s.g.(runningCount := s.g.runningCount + Bit(k.pc == Serving)))
    case WWakeJob(w) => OnThread(s, w, s.threads[w].(locked := true, pc := JobTest))
    case WFinish(w, code, exits, t) => Finish(s, w, code, exits, t)
    case WWakeTaken(w) =>
      var k := s.threads[w];
      OnThread(s, w, if k.status != Idle then k.(waiters := k.waiters + {Worker(w)})
                     else k.(locked := true, pc := Served))
    case WServed(w) =>
      var k := s.threads[w];
      OnThread(s, w, if k.keepGoing then k.(pc := Pushing) else k.(locked := false, pc := Exiting))
        .(g := s.g.(runningCount := s.g.runningCount - 1))
    case WLockJob(w) => OnThread(s, w, s.threads[w].(pc := Reporting)).(g := s.g.(jobLock := Some(Worker(w))))
    case WReport(w) =>
      OnThread(s, w, s.threads[w].(pc := Uncounting))
        .(g := s.g.(jobLock := None, supWaits := false, exiting := s.g.exiting + [w]))
    case WUncount(w) =>
      OnThread(s, w, s.threads[w].(pc := Gone)).(g := s.g.(threadsCount := s.g.threadsCount - 1))
    case Spurious(w, t) => OnThread(s, w, s.threads[w].(waiters := s.threads[w].waiters - {t}))
  }

  function SupervisorEffect(s: State, a: Step): Effect
    requires IsSupervisorStep(a) && SupervisorReady(s, a)
  {
    match a
    case SStart =>
      NoEffect(s).(created := Some(NEW_THREAD),
                   g := s.g.(slots := s.g.slots[s.g.sup.next := Some(|s.threads|)], sup := Starting(s.g.sup.next + 1)))
    case SLock => NoEffect(s).(g := s.g.(jobLock := Some(Supervisor), sup := AtTest))
    case STest =>
      if s.g.exiting == [] && !s.g.shutdown then
        NoEffect(s).(g := s.g.(jobLock := None, supWaits := true, sup := InWait))
      else NoEffect(s).(g := s.g.(sup := Refilling))
    case SWake => NoEffect(s).(g := s.g.(jobLock := Some(Supervisor), sup := AtTest))
    case SRefill => Refill(s)
    case SpuriousSupervisor => NoEffect(s).(g := s.g.(supWaits := false))
  }

  function ShutdownEffect(s: State, a: Step): Effect
    requires IsShutdownStep(a) && ShutdownReady(s, a)
  {
    match a
    case KLock => NoEffect(s).(g := s.g.(jobLock := Some(Finalizer), sh := Announcing))
    case KAnnounce =>
      NoEffect(s).(g := s.g.(shutdown := true, jobLock := None, supWaits := false, sh := Draining(5, 0)))
    case KTryPop => TryPop(s)
    case KDismiss(t) =>
      var w := s.g.sh.w;
      OnThread(s, w, Dismiss(s.threads[w], t)).(g := s.g.(sh := DrainTest(s.g, s.g.sh.waits, s.g.threadsCount)))
  }

  function EffectOf(s: State, a: Step): Effect
    requires Enabled(s, a)
  {
    if a.Arrive? then NoEffect(s).(arrived := Some(HandlerState(Arrived, [])))
    else if IsHandlerStep(a) then HandlerEffect(s, a)
    else if IsSupervisorStep(a) then SupervisorEffect(s, a)
    else if IsShutdownStep(a) then ShutdownEffect(s, a)
    else ThreadEffect(s, a)
  }

  function Apply(s: State, a: Step): State
    requires Enabled(s, a)
  {
    Perform(s, EffectOf(s, a))
  }

  /** After `WorkerBridge_ChildInit`, with `toStart` threads to start and a slot for each of them. */
  predicate Initial(s: State) {
    && s.threads == [] && s.handlers == []
    && 1 <= s.g.toStart <= |s.g.slots|
    && (forall i :: 0 <= i < |s.g.slots| ==> s.g.slots[i] == None)
    && s.g == Globals(false, [], None, false, [], s.g.slots, 0, 0, s.g.toStart, s.g.skip, Starting(0), Running)
  }

  /** Taking `steps` one by one leads from `s` to `t`. */
  ghost predicate Leads(s: State, steps: seq<Step>, t: State)
    decreases |steps|
  {
    if steps == [] then t == s else Enabled(s, steps[0]) && Leads(Apply(s, steps[0]), steps[1..], t)
  }

  ghost predicate IsRun(tr: seq<State>, steps: seq<Step>) {
    && |tr| == |steps| + 1
    && Initial(tr[0])
    && forall i :: 0 <= i < |steps| ==> Enabled(tr[i], steps[i]) && tr[i + 1] == Apply(tr[i], steps[i])
  }

  /** Some run ends in `s`. */
  ghost predicate Reachable(s: State) { exists tr, steps :: IsRun(tr, steps) && tr[|steps|] == s }
}
