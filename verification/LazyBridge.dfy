/**
The lazy bridge: one pool of Tcl worker threads per virtual host, grown on demand.

A handler thread (`LazyBridge_Request`) takes an idle worker from the LIFO of its
virtual host, or creates one, and hands its request over through the worker's
mutex, condition variable and `status`. The worker (`request_processor`) serves
the request, waits until the handler has collected the answer, and puts itself
back on the LIFO. A finalizer (`LazyBridge_Finalize`) retires idle workers.

Every step below is one stretch of code between two blocking points. The virtual
host mutexes are explicit, because they are taken while a worker mutex is held.
A worker mutex is explicit while it is held across a blocking point (`locked`);
other sections on it start only when it is free and end with its release.
`cond_wait` puts the thread in `waiters`; `cond_signal` takes one thread out of
it and does nothing when the set is empty; a wakeup may also be spurious.

A new thread reads `w->conf` without a lock, and `create_worker` leaves it null until the
handler stores it: a read that comes too early ends the process (`crashed`).
*/
module LazyBridge {
  import opened Prelude

  datatype Thread = Handler(h: nat) | Worker(w: nat) | Finalizer

  datatype Status = Init | Idle | Processing | ThreadExit | Done

  /** Where a worker thread stands in `request_processor`. */
  datatype WorkerPc =
    | Starting      // about to read w->conf
    | Configured    // before the vhost lock that guards threads_count
    | Counting      // holds the vhost mutex, about to increment
    | Entering      // about to lock its own mutex
    | LoopTop       // holds its own mutex, at the loop tests
    | AwaitJob      // waiting for a request
    | Serving       // holds its own mutex, in Rivet_SendContent
    | AwaitTaken    // waiting for the handler to collect the answer
    | PushLock      // holds its own mutex, about to lock the vhost
    | Pushing       // holds both mutexes
    | Leaving       // out of the loop, about to lock the vhost
    | Uncounting    // holds the vhost mutex, about to decrement
    | Gone

  /** History variable: who is entitled to the worker. No step reads it. */
  datatype Owner = Pooled | HeldBy(h: nat) | InTransit | HeldByFinalizer | Retired

  /** `vhost` is the host the worker was created for and then the one its thread found in `conf`. */
  datatype LazyWorker = LazyWorker(
    vhost: nat,
    conf: Option<nat>,
    status: Status,
    r: Option<nat>,
    apSts: int,
    waiters: set<Thread>,
    locked: bool,
    pc: WorkerPc,
    keepGoing: bool,
    serving: Option<nat>,   // the thread's private->r
    owner: Owner)

  datatype HandlerPc =
    | Arrived             // about to lock the vhost mutex
    | Looking             // holds the vhost mutex
    | Claimed(w: nat)     // has a worker, about to lock its mutex
    | Waiting(w: nat)     // request handed over, waiting for the answer
    | Returned(code: int)
    | Refused             // returned HTTP_INTERNAL_SERVER_ERROR during shutdown

  /** `served` is a history variable: the answers computed for this request. */
  datatype HandlerState = HandlerState(vhost: nat, pc: HandlerPc, served: seq<int>)

  datatype Vhost = Vhost(threadsCount: int, lock: Option<Thread>, idle: seq<nat>)

  /** Where the finalizer stands; `conf` is the index of the server it was given. */
  datatype FinalizerPc =
    | NotStarted
    | Locking(conf: nat, idx: nat, tries: nat)
    | Reading(conf: nat, idx: nat, tries: nat)    // holds the vhost mutex
    | Draining(conf: nat, idx: nat, tries: nat)
    | Retiring(conf: nat, idx: nat, tries: nat, w: nat)
    | Finished

  datatype State = State(
    shutdown: bool,
    vhosts: seq<Vhost>,
    workers: seq<LazyWorker>,
    handlers: seq<HandlerState>,
    fin: FinalizerPc,
    crashed: bool)

  datatype Step =
    | Arrive(v: nat)
    | HLock(h: nat)
    | HLookup(h: nat)
    | HHandOff(h: nat, t: Thread)
    | HWake(h: nat, t: Thread)
    | WReadConf(w: nat)
    | WLockCount(w: nat)
    | WCount(w: nat)
    | WEnter(w: nat)
    | WLoop(w: nat)
    | WWakeJob(w: nat)
    | WFinish(w: nat, code: int, exits: bool, t: Thread)
    | WWakeTaken(w: nat)
    | WLockPush(w: nat)
    | WPush(w: nat)
    | WLockUncount(w: nat)
    | WUncount(w: nat)
    | FStart(conf: nat)
    | FLock
    | FRead
    | FPop
    | FRetire(t: Thread)
    | Spurious(w: nat, t: Thread)

  /** `apr_thread_cond_signal` wakes one waiting thread, if there is any. */
  predicate SignalPicks(waiters: set<Thread>, t: Thread) {
    waiters == {} || t in waiters
  }

  // ---- the sections a thread runs on a worker descriptor under its mutex ----

  /** `create_worker` on behalf of handler `h`. */
  function CreateWorker(v: nat, h: nat): LazyWorker {
    LazyWorker(v, None, Idle, None, 0, {}, false, Starting, true, None, HeldBy(h))
  }

  /** The handler stores its request and its host `v`, signals and starts waiting. */
  function HandOff(k: LazyWorker, h: nat, v: nat, t: Thread): LazyWorker {
    k.(r := Some(h), status := Init, conf := Some(v), waiters := k.waiters - {t} + {Handler(h)})
  }

  /** The handler has read the answer and gives the worker back. */
  function Collect(k: LazyWorker, t: Thread): LazyWorker {
    k.(status := Idle, r := None, waiters := k.waiters - {t}, owner := InTransit)
  }

  /** The loop tests, from the outer `while` to the start of content generation. */
  function LoopTests(k: LazyWorker, w: nat): LazyWorker {
    if !k.keepGoing then k.(locked := false, pc := Leaving)
    else if k.status == ThreadExit then k.(keepGoing := false, locked := false, pc := Leaving)
    else if k.status == Init then k.(status := Processing, serving := k.r, pc := Serving)
    else k.(waiters := k.waiters + {Worker(w)}, locked := false, pc := AwaitJob)
  }

  /** Content generation is over: publish the answer, signal, and wait. */
  function FinishServing(k: LazyWorker, w: nat, code: int, exits: bool, t: Thread): LazyWorker {
    k.(apSts := code, status := Done, keepGoing := k.keepGoing && !exits,
       waiters := k.waiters - {t} + {Worker(w)}, locked := false, pc := AwaitTaken)
  }

  /** The finalizer tells an idle worker to leave. */
  function Retire(k: LazyWorker, t: Thread): LazyWorker {
    k.(r := None, status := ThreadExit, waiters := k.waiters - {t}, owner := Retired)
  }

  // ---- the transition system ----

  predicate IsWorker(s: State, w: nat) { w < |s.workers| && s.workers[w].vhost < |s.vhosts| }

  predicate IsHandler(s: State, h: nat) { h < |s.handlers| && s.handlers[h].vhost < |s.vhosts| }

  predicate VhostFree(s: State, v: nat)
    requires v < |s.vhosts|
  {
    s.vhosts[v].lock == None
  }

  predicate WorkerAt(s: State, w: nat, pc: WorkerPc) { IsWorker(s, w) && s.workers[w].pc == pc }

  function FinalizerIdx(f: FinalizerPc): nat
    requires f.Locking? || f.Reading? || f.Draining? || f.Retiring?
  {
    f.idx
  }

  predicate FinalizerReady(s: State) {
    !s.fin.NotStarted? && !s.fin.Finished? && FinalizerIdx(s.fin) < |s.vhosts|
  }

  /** Nothing happens in a process that has crashed. */
  predicate Enabled(s: State, a: Step) { !s.crashed && Ready(s, a) }

  predicate IsHandlerStep(a: Step) { a.HLock? || a.HLookup? || a.HHandOff? || a.HWake? }

  predicate IsFinalizerStep(a: Step) { a.FStart? || a.FLock? || a.FRead? || a.FPop? || a.FRetire? }

  predicate Ready(s: State, a: Step) {
    if a.Arrive? then a.v < |s.vhosts|
    else if IsHandlerStep(a) then HandlerReady(s, a)
    else if IsFinalizerStep(a) then FinalizerStepReady(s, a)
    else WorkerReady(s, a)
  }

  predicate HandlerReady(s: State, a: Step)
    requires IsHandlerStep(a)
  {
    match a
    case HLock(h) => IsHandler(s, h) && s.handlers[h].pc == Arrived && VhostFree(s, s.handlers[h].vhost)
    case HLookup(h) =>
      && IsHandler(s, h) && s.handlers[h].pc == Looking
      && var q := s.vhosts[s.handlers[h].vhost].idle;
      && (q != [] ==> IsWorker(s, q[|q| - 1]))
    case HHandOff(h, t) =>
      && IsHandler(s, h) && s.handlers[h].pc.Claimed?
      && var w := s.handlers[h].pc.w;
      && IsWorker(s, w) && !s.workers[w].locked && SignalPicks(s.workers[w].waiters, t)
    case HWake(h, t) =>
      && IsHandler(s, h) && s.handlers[h].pc.Waiting?
      && var w := s.handlers[h].pc.w;
      && IsWorker(s, w) && !s.workers[w].locked && Handler(h) !in s.workers[w].waiters
      && SignalPicks(s.workers[w].waiters, t)
  }

  predicate FinalizerStepReady(s: State, a: Step)
    requires IsFinalizerStep(a)
  {
    match a
    case FStart(conf) => s.fin == NotStarted && conf < |s.vhosts|
    case FLock => FinalizerReady(s) && s.fin.Locking? && VhostFree(s, s.fin.idx)
    case FRead => FinalizerReady(s) && s.fin.Reading?
    case FPop =>
      && FinalizerReady(s) && s.fin.Draining?
      && var q := s.vhosts[s.fin.idx].idle;
      && (q != [] ==> IsWorker(s, q[|q| - 1]))
    case FRetire(t) =>
      && FinalizerReady(s) && s.fin.Retiring?
      && IsWorker(s, s.fin.w) && !s.workers[s.fin.w].locked
      && SignalPicks(s.workers[s.fin.w].waiters, t)
  }

  predicate WorkerReady(s: State, a: Step)
    requires !a.Arrive? && !IsHandlerStep(a) && !IsFinalizerStep(a)
  {
    match a
    case WReadConf(w) => WorkerAt(s, w, Starting)
    case WLockCount(w) => WorkerAt(s, w, Configured) && VhostFree(s, s.workers[w].vhost)
    case WCount(w) => WorkerAt(s, w, Counting)
    case WEnter(w) => WorkerAt(s, w, Entering) && !s.workers[w].locked
    case WLoop(w) => WorkerAt(s, w, LoopTop)
    case WWakeJob(w) => WorkerAt(s, w, AwaitJob) && Worker(w) !in s.workers[w].waiters && !s.workers[w].locked
    case WFinish(w, _, _, t) => WorkerAt(s, w, Serving) && SignalPicks(s.workers[w].waiters, t)
    case WWakeTaken(w) =>
      WorkerAt(s, w, AwaitTaken) && Worker(w) !in s.workers[w].waiters && !s.workers[w].locked
    case WLockPush(w) => WorkerAt(s, w, PushLock) && VhostFree(s, s.workers[w].vhost)
    case WPush(w) => WorkerAt(s, w, Pushing)
    case WLockUncount(w) => WorkerAt(s, w, Leaving) && VhostFree(s, s.workers[w].vhost)
    case WUncount(w) => WorkerAt(s, w, Uncounting)
    case Spurious(w, t) => IsWorker(s, w) && t in s.workers[w].waiters
  }

  /**
  The writes of one step: at most one worker descriptor, one handler and one virtual
  host change, at most one worker is created and one request arrives.
  */
  datatype Effect = Effect(
    worker: Option<(nat, LazyWorker)>,
    handler: Option<(nat, HandlerState)>,
    vhost: Option<(nat, Vhost)>,
    created: Option<LazyWorker>,
    arrived: Option<HandlerState>,
    shutdown: bool,
    fin: FinalizerPc,
    crashed: bool)

  function NoEffect(s: State): Effect { Effect(None, None, None, None, None, s.shutdown, s.fin, s.crashed) }

  function Put<T>(xs: seq<T>, u: Option<(nat, T)>): seq<T> {
    if u.Some? && u.value.0 < |xs| then xs[u.value.0 := u.value.1] else xs
  }

  function Added<T>(xs: seq<T>, x: Option<T>): seq<T> {
    if x.Some? then xs + [x.value] else xs
  }

  function Perform(s: State, e: Effect): State {
    State(e.shutdown, Put(s.vhosts, e.vhost), Added(Put(s.workers, e.worker), e.created),
          Added(Put(s.handlers, e.handler), e.arrived), e.fin, e.crashed)
  }

  /** The critical section of `LazyBridge_Request` on the virtual host. */
  function Lookup(s: State, h: nat): Effect
    requires HandlerReady(s, HLookup(h))
  {
    var x := s.handlers[h];
    var y := s.vhosts[x.vhost];
    if s.shutdown then
      NoEffect(s).(handler := Some((h, x.(pc := Refused))), vhost := Some((x.vhost, y.(lock := None))))
    else if y.idle == [] then
      NoEffect(s).(handler := Some((h, x.(pc := Claimed(|s.workers|)))),
                   vhost := Some((x.vhost, y.(lock := None))),
                   created := Some(CreateWorker(x.vhost, h)))
    else
      var w := y.idle[|y.idle| - 1];
      NoEffect(s).(handler := Some((h, x.(pc := Claimed(w)))),
                   vhost := Some((x.vhost, y.(lock := None, idle := y.idle[..|y.idle| - 1]))),
                   worker := Some((w, s.workers[w].(owner := HeldBy(h)))))
  }

  /** The handler is back from `cond_wait` and holds the worker mutex again. */
  function HandlerWake(s: State, h: nat, t: Thread): Effect
    requires HandlerReady(s, HWake(h, t))
  {
    var x := s.handlers[h];
    var w := x.pc.w;
    var k := s.workers[w];
    if k.status != Done then
      NoEffect(s).(worker := Some((w, k.(waiters := k.waiters + {Handler(h)}))))
    else
      NoEffect(s).(worker := Some((w, Collect(k, t))), handler := Some((h, x.(pc := Returned(k.apSts)))))
  }

  /** The worker answers; `served` of the request it was serving records it. */
  function Finish(s: State, w: nat, code: int, exits: bool, t: Thread): Effect
    requires WorkerReady(s, WFinish(w, code, exits, t))
  {
    var k := s.workers[w];
    var e := NoEffect(s).(worker := Some((w, FinishServing(k, w, code, exits, t))));
    if k.serving.Some? && k.serving.value < |s.handlers| then
      var x := s.handlers[k.serving.value];
      e.(handler := Some((k.serving.value, x.(served := x.served + [code]))))
    else e
  }

  /** A worker step that moves it to `pc` and changes its virtual host to `y`. */
  function WorkerOnVhost(s: State, w: nat, k: LazyWorker, y: Vhost): Effect
    requires IsWorker(s, w)
  {
    NoEffect(s).(worker := Some((w, k)), vhost := Some((s.workers[w].vhost, y)))
  }

  /** After reading `count`: the test of the retry loop and, past it, the next virtual host. */
  function AfterRead(f: FinalizerPc, count: int, vhosts: nat): FinalizerPc
    requires f.Reading?
  {
    if f.tries < 3 && count > 0 && !(f.conf == f.idx && count == 1) then Draining(f.conf, f.idx, f.tries + 1)
    else if f.idx + 1 < vhosts then Locking(f.conf, f.idx + 1, 0)
    else Finished
  }

  function HandlerEffect(s: State, a: Step): Effect
    requires IsHandlerStep(a) && HandlerReady(s, a)
  {
    match a
    case HLock(h) =>
      var x := s.handlers[h];
      NoEffect(s).(handler := Some((h, x.(pc := Looking))),
                   vhost := Some((x.vhost, s.vhosts[x.vhost].(lock := Some(Handler(h))))))
    case HLookup(h) => Lookup(s, h)
    case HHandOff(h, t) =>
      var w := s.handlers[h].pc.w;
      NoEffect(s).(handler := Some((h, s.handlers[h].(pc := Waiting(w)))),
                   worker := Some((w, HandOff(s.workers[w], h, s.handlers[h].vhost, t))))
    case HWake(h, t) => HandlerWake(s, h, t)
  }

  function FinalizerEffect(s: State, a: Step): Effect
    requires IsFinalizerStep(a) && FinalizerStepReady(s, a)
  {
    match a
    case FStart(conf) => NoEffect(s).(shutdown := true, fin := Locking(conf, 0, 0))
    case FLock =>
      NoEffect(s).(fin := Reading(s.fin.conf, s.fin.idx, s.fin.tries),
                   vhost := Some((s.fin.idx, s.vhosts[s.fin.idx].(lock := Some(Finalizer)))))
    case FRead =>
      var y := s.vhosts[s.fin.idx];
      NoEffect(s).(fin := AfterRead(s.fin, y.threadsCount, |s.vhosts|),
                   vhost := Some((s.fin.idx, y.(lock := None))))
    case FPop =>
      var y := s.vhosts[s.fin.idx];
      if y.idle == [] then NoEffect(s).(fin := Locking(s.fin.conf, s.fin.idx, s.fin.tries))
      else
        var w := y.idle[|y.idle| - 1];
        NoEffect(s).(fin := Retiring(s.fin.conf, s.fin.idx, s.fin.tries, w),
                     vhost := Some((s.fin.idx, y.(idle := y.idle[..|y.idle| - 1]))),
                     worker := Some((w, s.workers[w].(owner := HeldByFinalizer))))
    case FRetire(t) =>
      NoEffect(s).(fin := Draining(s.fin.conf, s.fin.idx, s.fin.tries),
                   worker := Some((s.fin.w, Retire(s.workers[s.fin.w], t))))
  }

  function WorkerEffect(s: State, a: Step): Effect
    requires !a.Arrive? && !IsHandlerStep(a) && !IsFinalizerStep(a) && WorkerReady(s, a)
  {
    match a
    case WReadConf(w) =>
      var k := s.workers[w];
      if k.conf == None then NoEffect(s).(crashed := true)
      else NoEffect(s).(worker := Some((w, k.(vhost := k.conf.value, pc := Configured))))
    case WLockCount(w) =>
      var k := s.workers[w];
      WorkerOnVhost(s, w, k.(pc := Counting), s.vhosts[k.vhost].(lock := Some(Worker(w))))
    case WCount(w) =>
      var k := s.workers[w];
      var y := s.vhosts[k.vhost];
      WorkerOnVhost(s, w, k.(pc := Entering), y.(lock := None, threadsCount := y.threadsCount + 1))
    case WEnter(w) => NoEffect(s).(worker := Some((w, s.workers[w].(locked := true, pc := LoopTop))))
    case WLoop(w) => NoEffect(s).(worker := Some((w, LoopTests(s.workers[w], w))))
    case WWakeJob(w) => NoEffect(s).(worker := Some((w, s.workers[w].(locked := true, pc := LoopTop))))
    case WFinish(w, code, exits, t) => Finish(s, w, code, exits, t)
    case WWakeTaken(w) =>
      var k := s.workers[w];
      NoEffect(s).(worker := Some((w, if k.status == Done then k.(waiters := k.waiters + {Worker(w)})
                                      else k.(locked := true, pc := PushLock))))
    case WLockPush(w) =>
      var k := s.workers[w];
      WorkerOnVhost(s, w, k.(pc := Pushing), s.vhosts[k.vhost].(lock := Some(Worker(w))))
    case WPush(w) =>
      var k := s.workers[w];
      var y := s.vhosts[k.vhost];
      WorkerOnVhost(s, w, k.(pc := LoopTop, owner := Pooled), y.(lock := None, idle := y.idle + [w]))
    case WLockUncount(w) =>
      var k := s.workers[w];
      WorkerOnVhost(s, w, k.(pc := Uncounting), s.vhosts[k.vhost].(lock := Some(Worker(w))))
    case WUncount(w) =>
      var k := s.workers[w];
      var y := s.vhosts[k.vhost];
      WorkerOnVhost(s, w, k.(pc := Gone), y.(lock := None, threadsCount := y.threadsCount - 1))
    case Spurious(w, t) =>
      NoEffect(s).(worker := Some((w, s.workers[w].(waiters := s.workers[w].waiters - {t}))))
  }

  function EffectOf(s: State, a: Step): Effect
    requires Enabled(s, a)
  {
    if a.Arrive? then NoEffect(s).(arrived := Some(HandlerState(a.v, Arrived, [])))
    else if IsHandlerStep(a) then HandlerEffect(s, a)
    else if IsFinalizerStep(a) then FinalizerEffect(s, a)
    else WorkerEffect(s, a)
  }

  function Apply(s: State, a: Step): State
    requires Enabled(s, a)
  {
    Perform(s, EffectOf(s, a))
  }

  /** The child process after `LazyBridge_ChildInit`. */
  predicate Initial(s: State) {
    && !s.shutdown && !s.crashed && s.workers == [] && s.handlers == [] && s.fin == NotStarted
    && forall v :: 0 <= v < |s.vhosts| ==> s.vhosts[v] == Vhost(0, None, [])
  }

  /** Taking `steps` one by one leads from `s` to `t`. */
  ghost predicate Leads(s: State, steps: seq<Step>, t: State)
    decreases |steps|
  {
    if steps == [] then t == s else Enabled(s, steps[0]) && Leads(Apply(s, steps[0]), steps[1..], t)
  }

  /** A run: the states met while taking `steps` one by one from an initial state. */
  ghost predicate IsRun(tr: seq<State>, steps: seq<Step>) {
    && |tr| == |steps| + 1
    && Initial(tr[0])
    && forall i :: 0 <= i < |steps| ==> Enabled(tr[i], steps[i]) && tr[i + 1] == Apply(tr[i], steps[i])
  }

  /** Some run ends in `s`. */
  ghost predicate Reachable(s: State) { exists tr, steps :: IsRun(tr, steps) && tr[|steps|] == s }
}
