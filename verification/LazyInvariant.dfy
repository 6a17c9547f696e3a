/** What every reachable state of the lazy bridge satisfies. */
module LazyInvariant {
  import opened Prelude
  import opened LazyBridge

  /** The worker has put itself back on the array for the last time, or was told to leave. */
  predicate Quitting(k: LazyWorker) {
    (k.pc.Leaving? || k.pc.Uncounting? || k.pc.Gone?) || (k.pc == LoopTop && !k.keepGoing)
  }

  /** The worker is not between taking a request and offering itself again. */
  predicate BetweenJobs(k: LazyWorker) {
    !(k.pc.Serving? || k.pc.AwaitTaken? || k.pc.PushLock? || k.pc.Pushing?)
  }

  /** Nobody has written to the descriptor; only the worker itself may wait on it. */
  predicate Untouched(k: LazyWorker, w: nat) {
    k.status == Idle && BetweenJobs(k) && k.waiters <= {Worker(w)} && (Worker(w) in k.waiters ==> k.pc == AwaitJob)
  }

  /** Handler `h` has handed its request to the worker and not yet collected the answer. */
  predicate Engaged(k: LazyWorker, w: nat, h: nat, served: seq<int>) {
    && k.r == Some(h)
    && match k.status
       case Init => BetweenJobs(k) && k.waiters <= {Handler(h)} && served == []
       case Processing => k.pc == Serving && k.serving == Some(h) && k.waiters <= {Handler(h)} && served == []
       case Done => k.pc == AwaitTaken && k.waiters <= {Worker(w)} && served == [k.apSts]
       case _ => false
  }

  /** What the owner of worker `w` says about its descriptor `k`. */
  predicate OwnerOk(s: State, w: nat, k: LazyWorker)
    requires k.vhost < |s.vhosts|
  {
    match k.owner
    case Pooled => Untouched(k, w) && w in s.vhosts[k.vhost].idle
    case HeldBy(h) =>
      && h < |s.handlers| && s.handlers[h].vhost == k.vhost
      && if s.handlers[h].pc == Claimed(w) then Untouched(k, w)
         else s.handlers[h].pc == Waiting(w) && Engaged(k, w, h, s.handlers[h].served)
    case InTransit => k.status == Idle && (k.pc.AwaitTaken? || k.pc.PushLock? || k.pc.Pushing?) && k.waiters == {}
    case HeldByFinalizer => Untouched(k, w) && s.fin.Retiring? && s.fin.w == w
    case Retired => k.status == ThreadExit && BetweenJobs(k) && k.waiters == {} && s.shutdown
  }

  /** `conf` is null exactly until the creator's hand-off, and names the worker's own host from then on. */
  predicate ConfOk(s: State, w: nat, k: LazyWorker) {
    && (k.conf.Some? ==> k.conf.value == k.vhost)
    && (k.pc != Starting ==> k.conf.Some?)
    && (k.pc == Starting ==>
          && k.owner.HeldBy? && k.owner.h < |s.handlers|
          && (k.conf.None? <==> s.handlers[k.owner.h].pc == Claimed(w)))
  }

  /** Where the thread stands decides whether its mutex is held and whether its loop goes on. */
  predicate PcOk(k: LazyWorker) {
    && (k.locked <==> (k.pc.LoopTop? || k.pc.Serving? || k.pc.PushLock? || k.pc.Pushing?))
    && ((k.pc.Leaving? || k.pc.Uncounting? || k.pc.Gone?) ==> !k.keepGoing)
    && ((k.pc.Starting? || k.pc.Configured? || k.pc.Counting? || k.pc.Entering? || k.pc.AwaitJob? || k.pc.Serving?)
          ==> k.keepGoing)
  }

  /** Descriptor `k` may stand at `w` among the hosts and handlers of `s`. */
  predicate Fits(s: State, w: nat, k: LazyWorker) {
    && k.vhost < |s.vhosts| && PcOk(k) && ConfOk(s, w, k)
    && (InSection(k) ==> s.vhosts[k.vhost].lock == Some(Worker(w)))
    && OwnerOk(s, w, k)
  }

  /** Inside a section that holds the mutex of its virtual host. */
  predicate InSection(k: LazyWorker) { k.pc.Counting? || k.pc.Pushing? || k.pc.Uncounting? }

  predicate WorkerOk(s: State, w: nat)
    requires w < |s.workers|
  {
    Fits(s, w, s.workers[w])
  }

  predicate HandlerOk(s: State, h: nat)
    requires h < |s.handlers|
  {
    var x := s.handlers[h];
    && x.vhost < |s.vhosts|
    && match x.pc
       case Arrived => x.served == []
       case Looking => x.served == [] && s.vhosts[x.vhost].lock == Some(Handler(h))
       case Claimed(w) => w < |s.workers| && s.workers[w].owner == HeldBy(h) && x.served == []
       case Waiting(w) => w < |s.workers| && s.workers[w].owner == HeldBy(h)
       case Returned(code) => x.served == [code]
       case Refused => x.served == [] && s.shutdown
  }

  /** Thread `t` is inside a section that holds the mutex of virtual host `v`. */
  predicate InVhostSection(s: State, v: nat, t: Thread) {
    match t
    case Handler(h) => h < |s.handlers| && s.handlers[h].vhost == v && s.handlers[h].pc == Looking
    case Worker(w) => w < |s.workers| && s.workers[w].vhost == v && InSection(s.workers[w])
    case Finalizer => s.fin.Reading? && s.fin.idx == v
  }

  /** Between its increment and its decrement of `threads_count`. */
  predicate Counted(k: LazyWorker) { !(k.pc.Starting? || k.pc.Configured? || k.pc.Counting? || k.pc.Gone?) }

  function CountedIn(v: nat): LazyWorker -> bool { (k: LazyWorker) => k.vhost == v && Counted(k) }

  function PooledIn(v: nat): LazyWorker -> bool {
    (k: LazyWorker) => k.vhost == v && k.owner == Pooled
  }

  predicate IdleOk(s: State, v: nat)
    requires v < |s.vhosts|
  {
    var q := s.vhosts[v].idle;
    && (forall i :: 0 <= i < |q| ==>
          q[i] < |s.workers| && s.workers[q[i]].vhost == v && s.workers[q[i]].owner == Pooled)
    && (forall i, j :: 0 <= i < j < |q| ==> q[i] != q[j])
  }

  predicate LockOk(s: State, v: nat)
    requires v < |s.vhosts|
  {
    s.vhosts[v].lock.Some? ==> InVhostSection(s, v, s.vhosts[v].lock.value)
  }

  predicate CountOk(s: State, v: nat)
    requires v < |s.vhosts|
  {
    && s.vhosts[v].threadsCount == Tally(s.workers, CountedIn(v))
    && |s.vhosts[v].idle| == Tally(s.workers, PooledIn(v))
  }

  predicate VhostOk(s: State, v: nat)
    requires v < |s.vhosts|
  {
    LockOk(s, v) && IdleOk(s, v) && CountOk(s, v)
  }

  predicate FinalizerOk(s: State) {
    && (s.shutdown <==> s.fin != NotStarted)
    && match s.fin
       case Reading(_, idx, _) => idx < |s.vhosts| && s.vhosts[idx].lock == Some(Finalizer)
       case Retiring(_, idx, _, w) => idx < |s.vhosts| && w < |s.workers| && s.workers[w].owner == HeldByFinalizer
       case Locking(_, idx, _) => idx < |s.vhosts|
       case Draining(_, idx, _) => idx < |s.vhosts|
       case _ => true
  }

  ghost predicate Inv(s: State) {
    && (forall w :: 0 <= w < |s.workers| ==> WorkerOk(s, w))
    && (forall h :: 0 <= h < |s.handlers| ==> HandlerOk(s, h))
    && (forall v :: 0 <= v < |s.vhosts| ==> VhostOk(s, v))
    && FinalizerOk(s)
  }

  lemma InitialInv(s: State)
    requires Initial(s)
    ensures Inv(s)
  {
  }

  /** The two counters of every virtual host after worker `w` became `k`. */
  lemma Recount(s: State, w: nat, k: LazyWorker, v: nat)
    requires w < |s.workers|
    ensures Tally(s.workers[w := k], CountedIn(v)) ==
            Tally(s.workers, CountedIn(v)) - Bit(CountedIn(v)(s.workers[w])) + Bit(CountedIn(v)(k))
    ensures Tally(s.workers[w := k], PooledIn(v)) ==
            Tally(s.workers, PooledIn(v)) - Bit(PooledIn(v)(s.workers[w])) + Bit(PooledIn(v)(k))
  {
    TallyUpdate(s.workers, w, k, CountedIn(v));
    TallyUpdate(s.workers, w, k, PooledIn(v));
  }

  // ---- one step: conditions on its writes that keep the invariant ----

  predicate Targets(e: Effect, w: nat) { e.worker.Some? && e.worker.value.0 == w }

  predicate WorkerWriteOk(s: State, e: Effect) {
    e.worker.Some? ==>
      var (w, k') := e.worker.value;
      && IsWorker(s, w) && e.created.None?
      && var k := s.workers[w];
      && var s' := Perform(s, e);
      && k'.vhost == k.vhost && WorkerOk(s', w) && LockOk(s', k.vhost)
      && (k.owner.HeldBy? && k'.owner != k.owner ==> e.handler.Some? && e.handler.value.0 == k.owner.h)
      && (k'.owner == Pooled && k.owner != Pooled ==>
            e.vhost.Some? && e.vhost.value.0 == k.vhost && e.vhost.value.1.idle == s.vhosts[k.vhost].idle + [w])
      && (k.owner == Pooled && k'.owner != Pooled ==>
            e.vhost.Some? && e.vhost.value.0 == k.vhost && s.vhosts[k.vhost].idle == e.vhost.value.1.idle + [w])
  }

  predicate HandlerWriteOk(s: State, e: Effect) {
    e.handler.Some? ==>
      var (h, x') := e.handler.value;
      && IsHandler(s, h)
      && var x := s.handlers[h];
      && var s' := Perform(s, e);
      && x'.vhost == x.vhost && HandlerOk(s', h) && LockOk(s', x.vhost)
      && (x.pc.Claimed? || x.pc.Waiting? ==> Targets(e, x.pc.w))
  }

  /** The mutex of a virtual host passes to or from the thread that takes the step. */
  predicate OwnLock(e: Effect, t: Thread) {
    match t
    case Handler(h) => e.handler.Some? && e.handler.value.0 == h
    case Worker(w) => Targets(e, w)
    case Finalizer => !e.fin.Reading?
  }

  predicate VhostWriteOk(s: State, e: Effect) {
    e.vhost.Some? ==>
      var (v, y') := e.vhost.value;
      && v < |s.vhosts|
      && var y := s.vhosts[v];
      && LockOk(Perform(s, e), v)
      && (y'.lock != y.lock && y.lock.Some? ==> OwnLock(e, y.lock.value))
      && if e.worker.Some? && IsWorker(s, e.worker.value.0) && s.workers[e.worker.value.0].vhost == v then
           var (w, k') := e.worker.value;
           var k := s.workers[w];
           && y'.threadsCount + Bit(Counted(k)) == y.threadsCount + Bit(Counted(k'))
           && (k.owner.Pooled? == k'.owner.Pooled? ==> y'.idle == y.idle)
         else y'.threadsCount == y.threadsCount && y'.idle == y.idle
  }

  /** Without a write to its virtual host a worker stays counted or uncounted. */
  predicate CountedAlike(s: State, e: Effect) {
    e.worker.Some? && IsWorker(s, e.worker.value.0) ==>
      var (w, k') := e.worker.value;
      var v := s.workers[w].vhost;
      (e.vhost.Some? && e.vhost.value.0 == v) || Counted(s.workers[w]) == Counted(k')
  }

  predicate FinalizerWriteOk(s: State, e: Effect) {
    && FinalizerOk(Perform(s, e))
    && (s.shutdown ==> e.shutdown)
    && (s.fin.Retiring? && e.fin != s.fin ==> Targets(e, s.fin.w))
    && (s.fin.Reading? ==> s.fin.idx < |s.vhosts| && LockOk(Perform(s, e), s.fin.idx))
  }

  predicate GrowthOk(s: State, e: Effect) {
    && (e.created.Some? ==> WorkerOk(Perform(s, e), |s.workers|) && e.created.value.pc == Starting
                            && e.created.value.owner != Pooled)
    && (e.arrived.Some? ==> HandlerOk(Perform(s, e), |s.handlers|))
  }

  predicate EffectOk(s: State, e: Effect) {
    && WorkerWriteOk(s, e) && HandlerWriteOk(s, e) && VhostWriteOk(s, e)
    && CountedAlike(s, e) && FinalizerWriteOk(s, e) && GrowthOk(s, e)
  }

  lemma WorkersAfter(s: State, e: Effect, w: nat)
    requires EffectOk(s, e) && w < |Perform(s, e).workers|
    requires w < |s.workers| ==> WorkerOk(s, w)
    ensures WorkerOk(Perform(s, e), w)
  {
  }

  lemma HandlersAfter(s: State, e: Effect, h: nat)
    requires EffectOk(s, e) && h < |Perform(s, e).handlers|
    requires h < |s.handlers| ==> HandlerOk(s, h)
    ensures HandlerOk(Perform(s, e), h)
  {
  }

  lemma LocksAfter(s: State, e: Effect, v: nat)
    requires EffectOk(s, e) && v < |s.vhosts| && LockOk(s, v)
    ensures LockOk(Perform(s, e), v)
  {
  }

  lemma IdleAfter(s: State, e: Effect, v: nat)
    requires EffectOk(s, e) && v < |s.vhosts| && IdleOk(s, v)
    ensures IdleOk(Perform(s, e), v)
  {
    var q, q' := s.vhosts[v].idle, Perform(s, e).vhosts[v].idle;
    if |q'| > |q| {
      assert q' == q + [e.worker.value.0];
    } else if |q'| < |q| {
      assert q == q' + [e.worker.value.0];
      assert forall i :: 0 <= i < |q'| ==> q'[i] == q[i] && q[i] != q[|q'|];
    } else {
      assert q' == q;
    }
  }

  lemma CountsAfter(s: State, e: Effect, v: nat)
    requires EffectOk(s, e) && v < |s.vhosts| && CountOk(s, v)
    ensures CountOk(Perform(s, e), v)
  {
    if e.worker.Some? {
      Recount(s, e.worker.value.0, e.worker.value.1, v);
    } else if e.created.Some? {
      TallyAppend(s.workers, e.created.value, CountedIn(v));
      TallyAppend(s.workers, e.created.value, PooledIn(v));
    }
  }

  lemma EffectKeepsInv(s: State, e: Effect)
    requires Inv(s) && EffectOk(s, e)
    ensures Inv(Perform(s, e))
  {
    var s' := Perform(s, e);
    forall w | 0 <= w < |s'.workers| ensures WorkerOk(s', w) { WorkersAfter(s, e, w); }
    forall h | 0 <= h < |s'.handlers| ensures HandlerOk(s', h) { HandlersAfter(s, e, h); }
    forall v | 0 <= v < |s'.vhosts| ensures VhostOk(s', v) {
      assert VhostOk(s, v);
      LocksAfter(s, e, v);
      IdleAfter(s, e, v);
      CountsAfter(s, e, v);
    }
  }

  // ---- the three shapes of a step's writes ----

  function WithWorker(s: State, w: nat, k': LazyWorker): State
    requires w < |s.workers|
  {
    s.(workers := s.workers[w := k'])
  }

  /** A write to one descriptor only, which stays with its owner. */
  predicate LocalOk(s: State, w: nat, k': LazyWorker)
    requires w < |s.workers|
  {
    var k := s.workers[w];
    && Fits(s, w, k') && k'.vhost == k.vhost && k'.owner == k.owner
    && InSection(k') == InSection(k) && Counted(k') == Counted(k)
  }

  lemma LocalEffect(s: State, w: nat, k': LazyWorker)
    requires w < |s.workers| && WorkerOk(s, w) && LocalOk(s, w, k') && LockOk(s, s.workers[w].vhost) && FinalizerOk(s)
    ensures EffectOk(s, NoEffect(s).(worker := Some((w, k'))))
  {
    var e := NoEffect(s).(worker := Some((w, k')));
    assert Perform(s, e) == WithWorker(s, w, k');
  }

  /** A write to a descriptor and to the request that holds it. */
  predicate PairOk(s: State, w: nat, k': LazyWorker, h: nat, x': HandlerState)
    requires w < |s.workers| && h < |s.handlers|
  {
    var k, x := s.workers[w], s.handlers[h];
    var s' := WithWorker(s, w, k').(handlers := s.handlers[h := x']);
    && Fits(s', w, k') && HandlerOk(s', h) && k'.vhost == k.vhost && x'.vhost == x.vhost
    && InSection(k') == InSection(k) && Counted(k') == Counted(k)
    && k.owner == HeldBy(h) && k'.owner != Pooled && (x.pc == Claimed(w) || x.pc == Waiting(w)) && x'.pc != Looking
  }

  lemma PairEffect(s: State, w: nat, k': LazyWorker, h: nat, x': HandlerState)
    requires w < |s.workers| && h < |s.handlers| && WorkerOk(s, w) && HandlerOk(s, h) && PairOk(s, w, k', h, x')
    requires LockOk(s, s.workers[w].vhost) && LockOk(s, s.handlers[h].vhost) && FinalizerOk(s)
    ensures EffectOk(s, NoEffect(s).(worker := Some((w, k')), handler := Some((h, x'))))
  {
    var e := NoEffect(s).(worker := Some((w, k')), handler := Some((h, x')));
    assert Perform(s, e) == WithWorker(s, w, k').(handlers := s.handlers[h := x']);
  }

  /** A worker's write to its descriptor and to its virtual host, whose mutex it takes or gives back. */
  predicate HostOk(s: State, w: nat, k': LazyWorker, y': Vhost)
    requires IsWorker(s, w)
  {
    var k := s.workers[w];
    var y := s.vhosts[k.vhost];
    var s' := WithWorker(s, w, k').(vhosts := s.vhosts[k.vhost := y']);
    && Fits(s', w, k') && k'.vhost == k.vhost && LockOk(s', k.vhost)
    && (y.lock == None || y.lock == Some(Worker(w)))
    && y'.threadsCount + Bit(Counted(k)) == y.threadsCount + Bit(Counted(k'))
    && (k'.owner == k.owner ==> y'.idle == y.idle)
    && (k'.owner != k.owner ==> k.owner == InTransit && k'.owner == Pooled && y'.idle == y.idle + [w])
  }

  lemma HostEffect(s: State, w: nat, k': LazyWorker, y': Vhost)
    requires IsWorker(s, w) && WorkerOk(s, w) && HostOk(s, w, k', y')
    requires LockOk(s, s.workers[w].vhost) && FinalizerOk(s)
    ensures EffectOk(s, WorkerOnVhost(s, w, k', y'))
  {
    var v := s.workers[w].vhost;
    assert Perform(s, WorkerOnVhost(s, w, k', y')) == WithWorker(s, w, k').(vhosts := s.vhosts[v := y']);
  }

  // ---- every step satisfies the conditions ----

  lemma LockEffect(s: State, h: nat)
    requires HandlerReady(s, HLock(h)) && HandlerOk(s, h) && LockOk(s, s.handlers[h].vhost) && FinalizerOk(s)
    ensures EffectOk(s, HandlerEffect(s, HLock(h)))
  {
  }

  lemma LookupEffect(s: State, h: nat)
    requires HandlerReady(s, HLookup(h)) && HandlerOk(s, h) && VhostOk(s, s.handlers[h].vhost) && FinalizerOk(s)
    requires var q := s.vhosts[s.handlers[h].vhost].idle; q != [] ==> WorkerOk(s, q[|q| - 1])
    ensures EffectOk(s, HandlerEffect(s, HLookup(h)))
  {
    if s.shutdown {
      RefuseEffect(s, h);
    } else if s.vhosts[s.handlers[h].vhost].idle == [] {
      CreateEffect(s, h);
    } else {
      TakeEffect(s, h);
    }
  }

  lemma RefuseEffect(s: State, h: nat)
    requires HandlerReady(s, HLookup(h)) && HandlerOk(s, h) && LockOk(s, s.handlers[h].vhost) && FinalizerOk(s)
    requires s.shutdown
    ensures EffectOk(s, HandlerEffect(s, HLookup(h)))
  {
  }

  lemma CreateEffect(s: State, h: nat)
    requires HandlerReady(s, HLookup(h)) && HandlerOk(s, h) && LockOk(s, s.handlers[h].vhost) && FinalizerOk(s)
    requires !s.shutdown && s.vhosts[s.handlers[h].vhost].idle == []
    ensures EffectOk(s, HandlerEffect(s, HLookup(h)))
  {
  }

  lemma TakeEffect(s: State, h: nat)
    requires HandlerReady(s, HLookup(h)) && HandlerOk(s, h) && VhostOk(s, s.handlers[h].vhost) && FinalizerOk(s)
    requires !s.shutdown && s.vhosts[s.handlers[h].vhost].idle != []
    requires var q := s.vhosts[s.handlers[h].vhost].idle; WorkerOk(s, q[|q| - 1])
    ensures EffectOk(s, HandlerEffect(s, HLookup(h)))
  {
  }

  lemma HandOffEffect(s: State, h: nat, t: Thread)
    requires HandlerReady(s, HHandOff(h, t)) && HandlerOk(s, h) && LockOk(s, s.handlers[h].vhost) && FinalizerOk(s)
    requires WorkerOk(s, s.handlers[h].pc.w)
    ensures EffectOk(s, HandlerEffect(s, HHandOff(h, t)))
  {
    var w, x := s.handlers[h].pc.w, s.handlers[h];
    PairEffect(s, w, HandOff(s.workers[w], h, x.vhost, t), h, x.(pc := Waiting(w)));
  }

  /** The handler was woken too early and waits again. */
  lemma WakeAgainEffect(s: State, h: nat, t: Thread)
    requires HandlerReady(s, HWake(h, t)) && HandlerOk(s, h) && LockOk(s, s.handlers[h].vhost) && FinalizerOk(s)
    requires WorkerOk(s, s.handlers[h].pc.w) && s.workers[s.handlers[h].pc.w].status != Done
    ensures EffectOk(s, HandlerEffect(s, HWake(h, t)))
  {
    var w := s.handlers[h].pc.w;
    LocalEffect(s, w, s.workers[w].(waiters := s.workers[w].waiters + {Handler(h)}));
  }

  lemma CollectEffect(s: State, h: nat, t: Thread)
    requires HandlerReady(s, HWake(h, t)) && HandlerOk(s, h) && LockOk(s, s.handlers[h].vhost) && FinalizerOk(s)
    requires WorkerOk(s, s.handlers[h].pc.w) && s.workers[s.handlers[h].pc.w].status == Done
    ensures EffectOk(s, HandlerEffect(s, HWake(h, t)))
  {
    var w, x := s.handlers[h].pc.w, s.handlers[h];
    PairEffect(s, w, Collect(s.workers[w], t), h, x.(pc := Returned(s.workers[w].apSts)));
  }

  lemma ReadConfEffect(s: State, w: nat)
    requires WorkerReady(s, WReadConf(w)) && WorkerOk(s, w) && LockOk(s, s.workers[w].vhost) && FinalizerOk(s)
    ensures EffectOk(s, WorkerEffect(s, WReadConf(w)))
  {
    var k := s.workers[w];
    if k.conf.Some? { LocalEffect(s, w, k.(vhost := k.conf.value, pc := Configured)); }
  }

  lemma EnterEffect(s: State, w: nat)
    requires WorkerReady(s, WEnter(w)) && WorkerOk(s, w) && LockOk(s, s.workers[w].vhost) && FinalizerOk(s)
    ensures EffectOk(s, WorkerEffect(s, WEnter(w)))
  {
    var k := s.workers[w];
    LocalEffect(s, w, k.(locked := true, pc := LoopTop));
  }

  lemma LoopEffect(s: State, w: nat)
    requires WorkerReady(s, WLoop(w)) && WorkerOk(s, w) && LockOk(s, s.workers[w].vhost) && FinalizerOk(s)
    ensures EffectOk(s, WorkerEffect(s, WLoop(w)))
  {
    var k := s.workers[w];
    LocalEffect(s, w, LoopTests(k, w));
  }

  lemma WakeJobEffect(s: State, w: nat)
    requires WorkerReady(s, WWakeJob(w)) && WorkerOk(s, w) && LockOk(s, s.workers[w].vhost) && FinalizerOk(s)
    ensures EffectOk(s, WorkerEffect(s, WWakeJob(w)))
  {
    var k := s.workers[w];
    LocalEffect(s, w, k.(locked := true, pc := LoopTop));
  }

  lemma WakeTakenEffect(s: State, w: nat)
    requires WorkerReady(s, WWakeTaken(w)) && WorkerOk(s, w) && LockOk(s, s.workers[w].vhost) && FinalizerOk(s)
    ensures EffectOk(s, WorkerEffect(s, WWakeTaken(w)))
  {
    var k := s.workers[w];
    LocalEffect(s, w, if k.status == Done then k.(waiters := k.waiters + {Worker(w)})
                      else k.(locked := true, pc := PushLock));
  }

  lemma SpuriousEffect(s: State, w: nat, t: Thread)
    requires WorkerReady(s, Spurious(w, t)) && WorkerOk(s, w) && LockOk(s, s.workers[w].vhost) && FinalizerOk(s)
    ensures EffectOk(s, WorkerEffect(s, Spurious(w, t)))
  {
    LocalEffect(s, w, s.workers[w].(waiters := s.workers[w].waiters - {t}));
  }

  lemma LockCountEffect(s: State, w: nat)
    requires WorkerReady(s, WLockCount(w)) && WorkerOk(s, w) && LockOk(s, s.workers[w].vhost) && FinalizerOk(s)
    ensures EffectOk(s, WorkerEffect(s, WLockCount(w)))
  {
    var k := s.workers[w];
    var y := s.vhosts[k.vhost];
    HostEffect(s, w, k.(pc := Counting), y.(lock := Some(Worker(w))));
  }

  lemma CountEffect(s: State, w: nat)
    requires WorkerReady(s, WCount(w)) && WorkerOk(s, w) && LockOk(s, s.workers[w].vhost) && FinalizerOk(s)
    ensures EffectOk(s, WorkerEffect(s, WCount(w)))
  {
    var k := s.workers[w];
    var y := s.vhosts[k.vhost];
    HostEffect(s, w, k.(pc := Entering), y.(lock := None, threadsCount := y.threadsCount + 1));
  }

  lemma LockPushEffect(s: State, w: nat)
    requires WorkerReady(s, WLockPush(w)) && WorkerOk(s, w) && LockOk(s, s.workers[w].vhost) && FinalizerOk(s)
    ensures EffectOk(s, WorkerEffect(s, WLockPush(w)))
  {
    var k := s.workers[w];
    var y := s.vhosts[k.vhost];
    HostEffect(s, w, k.(pc := Pushing), y.(lock := Some(Worker(w))));
  }

  lemma PushEffect(s: State, w: nat)
    requires WorkerReady(s, WPush(w)) && WorkerOk(s, w) && LockOk(s, s.workers[w].vhost) && FinalizerOk(s)
    ensures EffectOk(s, WorkerEffect(s, WPush(w)))
  {
    var k := s.workers[w];
    var y := s.vhosts[k.vhost];
    HostEffect(s, w, k.(pc := LoopTop, owner := Pooled), y.(lock := None, idle := y.idle + [w]));
  }

  lemma LockUncountEffect(s: State, w: nat)
    requires WorkerReady(s, WLockUncount(w)) && WorkerOk(s, w) && LockOk(s, s.workers[w].vhost) && FinalizerOk(s)
    ensures EffectOk(s, WorkerEffect(s, WLockUncount(w)))
  {
    var k := s.workers[w];
    var y := s.vhosts[k.vhost];
    HostEffect(s, w, k.(pc := Uncounting), y.(lock := Some(Worker(w))));
  }

  lemma UncountEffect(s: State, w: nat)
    requires WorkerReady(s, WUncount(w)) && WorkerOk(s, w) && LockOk(s, s.workers[w].vhost) && FinalizerOk(s)
    ensures EffectOk(s, WorkerEffect(s, WUncount(w)))
  {
    var k := s.workers[w];
    var y := s.vhosts[k.vhost];
    assert y.lock == Some(Worker(w)) && !k.keepGoing;
    assert OwnerOk(s, w, k.(pc := Gone));
    HostEffect(s, w, k.(pc := Gone), y.(lock := None, threadsCount := y.threadsCount - 1));
  }

  lemma FinishEffect(s: State, w: nat, code: int, exits: bool, t: Thread)
    requires WorkerReady(s, WFinish(w, code, exits, t)) && WorkerOk(s, w) && LockOk(s, s.workers[w].vhost)
    requires FinalizerOk(s) && HandlerOk(s, s.workers[w].serving.value)
    ensures EffectOk(s, WorkerEffect(s, WFinish(w, code, exits, t)))
  {
    var h := s.workers[w].serving.value;
    var x := s.handlers[h];
    assert s.workers[w].owner == HeldBy(h);
    PairEffect(s, w, FinishServing(s.workers[w], w, code, exits, t), h, x.(served := x.served + [code]));
  }

  lemma FinalizerLockEffect(s: State)
    requires FinalizerStepReady(s, FLock) && FinalizerOk(s) && LockOk(s, s.fin.idx)
    ensures EffectOk(s, FinalizerEffect(s, FLock))
  {
  }

  lemma FinalizerReadEffect(s: State)
    requires FinalizerStepReady(s, FRead) && FinalizerOk(s) && LockOk(s, s.fin.idx)
    ensures EffectOk(s, FinalizerEffect(s, FRead))
  {
  }

  lemma FinalizerPopEffect(s: State)
    requires FinalizerStepReady(s, FPop) && FinalizerOk(s) && VhostOk(s, s.fin.idx)
    requires var q := s.vhosts[s.fin.idx].idle; q != [] ==> WorkerOk(s, q[|q| - 1])
    ensures EffectOk(s, FinalizerEffect(s, FPop))
  {
  }

  lemma FinalizerRetireEffect(s: State, t: Thread)
    requires FinalizerStepReady(s, FRetire(t)) && FinalizerOk(s)
    requires WorkerOk(s, s.fin.w) && LockOk(s, s.workers[s.fin.w].vhost)
    ensures EffectOk(s, FinalizerEffect(s, FRetire(t)))
  {
  }

  lemma HandlerStepEffect(s: State, a: Step)
    requires Inv(s) && IsHandlerStep(a) && HandlerReady(s, a)
    ensures EffectOk(s, HandlerEffect(s, a))
  {
    assert HandlerOk(s, a.h) && VhostOk(s, s.handlers[a.h].vhost);
    match a
    case HLock(h) => LockEffect(s, h);
    case HLookup(h) =>
      var q := s.vhosts[s.handlers[h].vhost].idle;
      assert q != [] ==> WorkerOk(s, q[|q| - 1]);
      LookupEffect(s, h);
    case HHandOff(h, t) =>
      assert WorkerOk(s, s.handlers[h].pc.w);
      HandOffEffect(s, h, t);
    case HWake(h, t) =>
      assert WorkerOk(s, s.handlers[h].pc.w);
      if s.workers[s.handlers[h].pc.w].status == Done { CollectEffect(s, h, t); } else { WakeAgainEffect(s, h, t); }
  }

  predicate IsLocalStep(a: Step) {
    a.WReadConf? || a.WEnter? || a.WLoop? || a.WWakeJob? || a.WWakeTaken? || a.Spurious?
  }

  predicate IsVhostStep(a: Step) {
    a.WLockCount? || a.WCount? || a.WLockPush? || a.WPush? || a.WLockUncount? || a.WUncount?
  }

  lemma LocalStepEffect(s: State, a: Step)
    requires IsLocalStep(a) && WorkerReady(s, a)
    requires WorkerOk(s, a.w) && LockOk(s, s.workers[a.w].vhost) && FinalizerOk(s)
    ensures EffectOk(s, WorkerEffect(s, a))
  {
    match a
    case WReadConf(w) => ReadConfEffect(s, w);
    case WEnter(w) => EnterEffect(s, w);
    case WLoop(w) => LoopEffect(s, w);
    case WWakeJob(w) => WakeJobEffect(s, w);
    case WWakeTaken(w) => WakeTakenEffect(s, w);
    case Spurious(w, t) => SpuriousEffect(s, w, t);
  }

  lemma VhostStepEffect(s: State, a: Step)
    requires IsVhostStep(a) && WorkerReady(s, a)
    requires WorkerOk(s, a.w) && LockOk(s, s.workers[a.w].vhost) && FinalizerOk(s)
    ensures EffectOk(s, WorkerEffect(s, a))
  {
    match a
    case WLockCount(w) => LockCountEffect(s, w);
    case WCount(w) => CountEffect(s, w);
    case WLockPush(w) => LockPushEffect(s, w);
    case WPush(w) => PushEffect(s, w);
    case WLockUncount(w) => LockUncountEffect(s, w);
    case WUncount(w) => UncountEffect(s, w);
  }

  lemma FinalizerStepEffect(s: State, a: Step)
    requires Inv(s) && IsFinalizerStep(a) && FinalizerStepReady(s, a)
    ensures EffectOk(s, FinalizerEffect(s, a))
  {
    assert a.FStart? || VhostOk(s, s.fin.idx);
    match a
    case FStart(_) =>
    case FLock => FinalizerLockEffect(s);
    case FRead => FinalizerReadEffect(s);
    case FPop =>
      var q := s.vhosts[s.fin.idx].idle;
      assert q != [] ==> WorkerOk(s, q[|q| - 1]);
      FinalizerPopEffect(s);
    case FRetire(t) =>
      assert WorkerOk(s, s.fin.w) && VhostOk(s, s.workers[s.fin.w].vhost);
      FinalizerRetireEffect(s, t);
  }

  lemma WorkerStepEffect(s: State, a: Step)
    requires Inv(s) && (IsLocalStep(a) || IsVhostStep(a) || a.WFinish?) && WorkerReady(s, a)
    ensures EffectOk(s, WorkerEffect(s, a))
  {
    assert WorkerOk(s, a.w) && VhostOk(s, s.workers[a.w].vhost);
    if IsLocalStep(a) {
      LocalStepEffect(s, a);
    } else if IsVhostStep(a) {
      VhostStepEffect(s, a);
    } else {
      assert HandlerOk(s, s.workers[a.w].serving.value);
      FinishEffect(s, a.w, a.code, a.exits, a.t);
    }
  }

  lemma StepEffectOk(s: State, a: Step)
    requires Inv(s) && Enabled(s, a)
    ensures EffectOk(s, EffectOf(s, a))
  {
    if IsHandlerStep(a) {
      HandlerStepEffect(s, a);
    } else if IsFinalizerStep(a) {
      FinalizerStepEffect(s, a);
    } else if !a.Arrive? {
      WorkerStepEffect(s, a);
    }
  }

  /** The invariant is kept by every step of every thread. */
  lemma StepKeepsInv(s: State, a: Step)
    requires Inv(s) && Enabled(s, a)
    ensures Inv(Apply(s, a))
  {
    StepEffectOk(s, a);
    EffectKeepsInv(s, EffectOf(s, a));
  }

  /** Every state of every run satisfies the invariant. */
  lemma {:induction false} RunInv(tr: seq<State>, steps: seq<Step>, i: nat)
    requires IsRun(tr, steps) && i < |tr|
    ensures Inv(tr[i])
  {
    if i == 0 {
      InitialInv(tr[0]);
    } else {
      RunInv(tr, steps, i - 1);
      StepKeepsInv(tr[i - 1], steps[i - 1]);
    }
  }
}
