/** What every reachable state of the worker bridge satisfies. */
module WorkerInvariant {
  import opened Prelude
  import opened WorkerBridge

  /** On the exiting list or past it. */
  predicate Reported(k: TclThread) { k.pc.Uncounting? || k.pc.Gone? }

  /** Out of the service loop for good. */
  predicate Left(k: TclThread) { k.pc.Exiting? || k.pc.Reporting? || Reported(k) }

  predicate LooksForJob(k: TclThread) { k.pc.JobTest? || k.pc.AwaitJob? }

  predicate BeforePush(k: TclThread) {
    k.pc.Booting? || k.pc.Setup? || k.pc.Counting? || k.pc.Entering? || k.pc.Pushing?
  }

  /** The thread has offered itself and nobody has written to its descriptor. */
  predicate OnOffer(k: TclThread, w: nat) {
    k.status == Idle && LooksForJob(k) && k.waiters <= {Worker(w)} && (Worker(w) in k.waiters ==> k.pc == AwaitJob)
  }

  predicate Engaged(k: TclThread, w: nat, h: nat, served: seq<int>, shutdown: bool) {
    && k.r == Some(h)
    && match k.status
       case Init => (LooksForJob(k) || (Left(k) && shutdown)) && k.waiters <= {Handler(h)} && served == []
       case Processing => k.pc == Serving && k.serving == Some(h) && k.waiters <= {Handler(h)} && served == []
       case Done => k.pc == AwaitTaken && k.waiters <= {Worker(w)} && served == [k.code]
       case _ => false
  }

  /** What the owner of descriptor `k` at `w` says about it. */
  predicate OwnerOk(s: State, w: nat, k: TclThread) {
    match k.owner
    case Own =>
      && k.status == Idle && k.waiters == {}
      && (BeforePush(k) || k.pc.AwaitTaken? || k.pc.Served? || Left(k))
    case Queued => OnOffer(k, w) && w in s.g.queue
    case HeldBy(h) =>
      && h < |s.handlers|
      && if s.handlers[h].pc == Claimed(w) then OnOffer(k, w)
         else s.handlers[h].pc == Waiting(w) && Engaged(k, w, h, s.handlers[h].served, s.g.shutdown)
    case HeldByShutdown => OnOffer(k, w) && s.g.sh.Dismissing? && s.g.sh.w == w
    case Dismissed => k.status == Init && (LooksForJob(k) || Left(k)) && k.waiters == {} && s.g.shutdown
  }

  /** Where the thread stands decides whether its mutex is held and whether its loop goes on. */
  predicate PcOk(k: TclThread) {
    && (k.locked <==> k.pc.Pushing? || k.pc.JobTest? || k.pc.Serving? || k.pc.Served?)
    && (BeforePush(k) || LooksForJob(k) || k.pc.Serving? ==> k.keepGoing)
  }

  /** Inside a section that holds job_mutex. */
  predicate InJobSection(k: TclThread) { k.pc.Setup? || k.pc.Reporting? }

  /** Descriptor `k` may stand at `w` among the globals and handlers of `s`. */
  predicate Fits(s: State, w: nat, k: TclThread) {
    PcOk(k) && (InJobSection(k) ==> s.g.jobLock == Some(Worker(w))) && OwnerOk(s, w, k)
  }

  /** A live thread has a slot, and one that reported its exit keeps it until the supervisor has seen the report. */
  predicate PlaceOk(s: State, w: nat)
    requires w < |s.threads|
  {
    if Reported(s.threads[w]) then Some(w) !in s.g.slots || w in s.g.exiting else Some(w) in s.g.slots
  }

  predicate ThreadOk(s: State, w: nat)
    requires w < |s.threads|
  {
    PlaceOk(s, w) && Fits(s, w, s.threads[w])
  }

  predicate HandlerOk(s: State, h: nat)
    requires h < |s.handlers|
  {
    var x := s.handlers[h];
    match x.pc
    case Arrived => x.served == []
    case Popping => x.served == []
    case Claimed(w) => w < |s.threads| && s.threads[w].owner == HeldBy(h) && x.served == []
    case Waiting(w) => w < |s.threads| && s.threads[w].owner == HeldBy(h)
    case Returned(code) => x.served == [code]
    case Refused => x.served == [] && s.g.shutdown
  }

  predicate LockOk(s: State) {
    s.g.jobLock.Some? ==>
      match s.g.jobLock.value
      case Worker(w) => w < |s.threads| && (s.threads[w].pc.Setup? || s.threads[w].pc.Reporting?)
      case Supervisor => s.g.sup == AtTest || s.g.sup == Refilling
      case Finalizer => s.g.sh == Announcing
      case Handler(_) => false
  }

  predicate ControlOk(s: State) {
    && (s.g.sup == AtTest || s.g.sup == Refilling ==> s.g.jobLock == Some(Supervisor))
    && (s.g.sh == Announcing ==> s.g.jobLock == Some(Finalizer))
    && (s.g.supWaits ==> s.g.sup == InWait && s.g.exiting == [] && !s.g.shutdown)
    && (s.g.shutdown <==> s.g.sh != Running && s.g.sh != Announcing)
    && (s.g.sh.Dismissing? ==> s.g.sh.w < |s.threads| && s.threads[s.g.sh.w].owner == HeldByShutdown)
    && (s.g.sup == Stopped ==> s.g.shutdown)
    && (s.g.sh.Draining? ==> s.g.sh.waits > 0)
    && (s.g.sh.Dismissing? ==> s.g.sh.waits > 0)
  }

  predicate QueueOk(s: State) {
    var q := s.g.queue;
    && |q| <= QUEUE_SIZE
    && (forall i :: 0 <= i < |q| ==> q[i] < |s.threads| && s.threads[q[i]].owner == Queued)
    && (forall i, j :: 0 <= i < j < |q| ==> q[i] != q[j])
  }

  /** How many slots `start_thread_pool` has filled. */
  function Started(g: Globals): nat { if g.sup.Starting? then g.sup.next else g.toStart }

  /** The slot table: distinct threads in the slots started so far, nothing in the others. */
  predicate SlotsOk(s: State) {
    var t := s.g.slots;
    && 1 <= s.g.toStart && Started(s.g) <= s.g.toStart <= |t|
    && (forall i :: 0 <= i < |t| ==> (t[i].Some? <==> i < Started(s.g)))
    && (forall i :: 0 <= i < |t| && t[i].Some? ==> t[i].value < |s.threads|)
    && (forall i, j :: 0 <= i < j < |t| && t[i].Some? ==> t[i] != t[j])
  }

  predicate ExitingOk(s: State) {
    var x := s.g.exiting;
    && (forall i :: 0 <= i < |x| ==> x[i] < |s.threads| && Reported(s.threads[x[i]]) && Some(x[i]) in s.g.slots)
    && (forall i, j :: 0 <= i < j < |x| ==> x[i] != x[j])
  }

  const COUNTED: TclThread -> bool :=
    (k: TclThread) => !(k.pc.Booting? || k.pc.Setup? || k.pc.Counting? || k.pc.Gone?)

  const RUNNING: TclThread -> bool := (k: TclThread) => k.pc.Serving? || k.pc.AwaitTaken? || k.pc.Served?

  const LIVE: TclThread -> bool := (k: TclThread) => !Reported(k)

  predicate CountersOk(s: State) {
    && s.g.threadsCount == Tally(s.threads, COUNTED)
    && s.g.runningCount == Tally(s.threads, RUNNING)
    && Tally(s.threads, LIVE) + |s.g.exiting| == Started(s.g)
  }

  ghost predicate Inv(s: State) {
    && (forall w :: 0 <= w < |s.threads| ==> ThreadOk(s, w))
    && (forall h :: 0 <= h < |s.handlers| ==> HandlerOk(s, h))
    && LockOk(s) && ControlOk(s) && QueueOk(s) && SlotsOk(s) && ExitingOk(s) && CountersOk(s)
  }

  lemma InitialInv(s: State)
    requires Initial(s)
    ensures Inv(s)
  {
  }

  // ---- one step: conditions on its writes that keep the invariant ----

  predicate Targets(e: Effect, w: nat) { e.worker.Some? && e.worker.value.0 == w }

  /** The queue grows at its end, or loses its head, with the thread the step writes to. */
  predicate QueueMoves(s: State, e: Effect) {
    || (e.g.queue == s.g.queue
        && (e.worker.Some? && IsThread(s, e.worker.value.0) ==>
              (s.threads[e.worker.value.0].owner == Queued <==> e.worker.value.1.owner == Queued)))
    || (e.worker.Some? && IsThread(s, e.worker.value.0)
        && var (w, k') := e.worker.value;
        && ((e.g.queue == s.g.queue + [w] && |s.g.queue| < QUEUE_SIZE
             && s.threads[w].owner != Queued && k'.owner == Queued)
            || (s.g.queue != [] && s.g.queue[0] == w && e.g.queue == s.g.queue[1..] && k'.owner != Queued)))
  }

  /** A thread reports its exit, or the supervisor takes one off the list and replaces it. */
  predicate PoolMoves(s: State, e: Effect) {
    || (e.g.exiting == s.g.exiting && e.g.slots == s.g.slots && e.created.None?
        && Started(e.g) == Started(s.g) && e.g.toStart == s.g.toStart
        && (e.worker.Some? && IsThread(s, e.worker.value.0) ==>
              (Reported(s.threads[e.worker.value.0]) <==> Reported(e.worker.value.1))))
    || (e.worker.Some? && IsThread(s, e.worker.value.0)
        && var (w, k') := e.worker.value;
        && e.g.exiting == s.g.exiting + [w] && e.g.slots == s.g.slots && e.created.None?
        && Started(e.g) == Started(s.g) && e.g.toStart == s.g.toStart
        && !Reported(s.threads[w]) && Reported(k'))
    || (e.worker.None? && e.created == Some(NEW_THREAD) && e.g.toStart == s.g.toStart
        && Started(s.g) < s.g.toStart && Started(e.g) == Started(s.g) + 1
        && Started(s.g) < |s.g.slots| && e.g.slots == s.g.slots[Started(s.g) := Some(|s.threads|)]
        && e.g.exiting == s.g.exiting)
    || (e.worker.None? && e.created == Some(NEW_THREAD) && e.g.toStart == s.g.toStart
        && Started(e.g) == Started(s.g) && s.g.exiting != []
        && var n := |s.g.exiting| - 1;
        && var i := FindSlot(s.g.slots, s.g.exiting[n]);
        && i < |s.g.slots| && s.g.slots[i] == Some(s.g.exiting[n])
        && e.g.exiting == s.g.exiting[..n] && e.g.slots == s.g.slots[i := Some(|s.threads|)])
  }

  predicate WorkerWriteOk(s: State, e: Effect) {
    e.worker.Some? ==>
      var (w, k') := e.worker.value;
      && IsThread(s, w) && e.created.None?
      && var k := s.threads[w];
      && Fits(Perform(s, e), w, k')
      && (k.owner.HeldBy? && k'.owner != k.owner ==> e.handler.Some? && e.handler.value.0 == k.owner.h)
  }

  predicate HandlerWriteOk(s: State, e: Effect) {
    && (e.handler.Some? ==>
          var (h, x') := e.handler.value;
          && IsHandler(s, h)
          && var x := s.handlers[h];
          && HandlerOk(Perform(s, e), h)
          && (x.pc.Claimed? || x.pc.Waiting? ==> Targets(e, x.pc.w)))
    && (e.arrived.Some? ==> HandlerOk(Perform(s, e), |s.handlers|))
  }

  predicate OwnLock(e: Effect, t: Thread) {
    match t
    case Worker(w) => Targets(e, w)
    case Supervisor => e.g.sup != AtTest && e.g.sup != Refilling
    case Finalizer => e.g.sh != Announcing
    case Handler(_) => false
  }

  predicate GlobalsWriteOk(s: State, e: Effect) {
    && LockOk(Perform(s, e)) && ControlOk(Perform(s, e))
    && (s.g.shutdown ==> e.g.shutdown)
    && (e.g.jobLock != s.g.jobLock && s.g.jobLock.Some? ==> OwnLock(e, s.g.jobLock.value))
    && (s.g.sh.Dismissing? && e.g.sh != s.g.sh ==> Targets(e, s.g.sh.w))
    && (e.worker.Some? && IsThread(s, e.worker.value.0) ==>
          var (w, k') := e.worker.value;
          && e.g.threadsCount + Bit(COUNTED(s.threads[w])) == s.g.threadsCount + Bit(COUNTED(k'))
          && e.g.runningCount + Bit(RUNNING(s.threads[w])) == s.g.runningCount + Bit(RUNNING(k')))
    && (e.worker.None? ==> e.g.threadsCount == s.g.threadsCount && e.g.runningCount == s.g.runningCount)
  }

  predicate EffectOk(s: State, e: Effect) {
    && QueueMoves(s, e) && PoolMoves(s, e) && WorkerWriteOk(s, e) && HandlerWriteOk(s, e) && GlobalsWriteOk(s, e)
  }

  /** The supervisor has just taken `w` off the exiting list and given its slot to a new thread. */
  predicate Replaced(s: State, e: Effect, w: nat) {
    |e.g.exiting| < |s.g.exiting| && s.g.exiting[|s.g.exiting| - 1] == w
  }

  lemma SlotStays(s: State, e: Effect, w: nat)
    requires PoolMoves(s, e) && SlotsOk(s) && w < |s.threads|
    ensures Some(w) in e.g.slots <==> Some(w) in s.g.slots && !Replaced(s, e, w)
  {
    if Some(w) in s.g.slots {
      var i :| 0 <= i < |s.g.slots| && s.g.slots[i] == Some(w);
      if !Replaced(s, e, w) {
        assert e.g.slots[i] == Some(w);
      }
    }
  }

  lemma PlaceAfter(s: State, e: Effect, w: nat)
    requires PoolMoves(s, e) && w < |Perform(s, e).threads| && SlotsOk(s) && ExitingOk(s)
    requires e.worker.Some? ==> e.created.None?
    requires w < |s.threads| ==> PlaceOk(s, w)
    ensures PlaceOk(Perform(s, e), w)
  {
    if w < |s.threads| {
      SlotStays(s, e, w);
      if w in s.g.exiting && !Replaced(s, e, w) {
        var i :| 0 <= i < |s.g.exiting| && s.g.exiting[i] == w;
        assert e.g.exiting[i] == w;
      }
      if |e.g.exiting| > |s.g.exiting| {
        assert e.g.exiting[|s.g.exiting|] == e.worker.value.0;
      }
    } else if |e.g.exiting| < |s.g.exiting| {
      assert e.g.slots[FindSlot(s.g.slots, s.g.exiting[|s.g.exiting| - 1])] == Some(w);
    } else {
      assert e.g.slots[Started(s.g)] == Some(w);
    }
  }

  lemma TargetAfter(s: State, e: Effect)
    requires EffectOk(s, e) && e.worker.Some? && PlaceOk(Perform(s, e), e.worker.value.0)
    ensures ThreadOk(Perform(s, e), e.worker.value.0)
  {
  }

  lemma OtherAfter(s: State, e: Effect, w: nat)
    requires WorkerWriteOk(s, e) && HandlerWriteOk(s, e) && GlobalsWriteOk(s, e) && QueueMoves(s, e)
    requires w < |s.threads| && ThreadOk(s, w) && !Targets(e, w) && PlaceOk(Perform(s, e), w)
    ensures ThreadOk(Perform(s, e), w)
  {
  }

  lemma ThreadsAfter(s: State, e: Effect, w: nat)
    requires EffectOk(s, e) && w < |Perform(s, e).threads| && SlotsOk(s) && ExitingOk(s)
    requires w < |s.threads| ==> ThreadOk(s, w)
    ensures ThreadOk(Perform(s, e), w)
  {
    PlaceAfter(s, e, w);
    if Targets(e, w) { TargetAfter(s, e); }
    else if w < |s.threads| { OtherAfter(s, e, w); }
  }

  lemma HandlersAfter(s: State, e: Effect, h: nat)
    requires EffectOk(s, e) && h < |Perform(s, e).handlers|
    requires h < |s.handlers| ==> HandlerOk(s, h)
    ensures HandlerOk(Perform(s, e), h)
  {
  }

  lemma QueueAfter(s: State, e: Effect)
    requires QueueMoves(s, e) && QueueOk(s)
    requires e.worker.Some? ==> IsThread(s, e.worker.value.0) && e.created.None?
    ensures QueueOk(Perform(s, e))
  {
    if e.g.queue != s.g.queue {
      if |e.g.queue| > |s.g.queue| { QueueGrows(s, e); } else { QueueShrinks(s, e); }
    }
  }

  lemma QueueGrows(s: State, e: Effect)
    requires QueueMoves(s, e) && QueueOk(s) && |e.g.queue| > |s.g.queue|
    requires e.worker.Some? ==> IsThread(s, e.worker.value.0) && e.created.None?
    ensures QueueOk(Perform(s, e))
  {
  }

  lemma QueueShrinks(s: State, e: Effect)
    requires QueueMoves(s, e) && QueueOk(s) && |e.g.queue| < |s.g.queue|
    requires e.worker.Some? ==> IsThread(s, e.worker.value.0) && e.created.None?
    ensures QueueOk(Perform(s, e))
  {
    assert forall i :: 0 <= i < |e.g.queue| ==> e.g.queue[i] == s.g.queue[i + 1];
  }

  lemma SlotsAfter(s: State, e: Effect)
    requires EffectOk(s, e) && SlotsOk(s) && ExitingOk(s)
    ensures SlotsOk(Perform(s, e))
  {
  }

  lemma ExitingAfter(s: State, e: Effect)
    requires EffectOk(s, e) && SlotsOk(s) && ExitingOk(s)
    requires e.worker.Some? ==> ThreadOk(s, e.worker.value.0)
    ensures ExitingOk(Perform(s, e))
  {
    var x := e.g.exiting;
    forall i | 0 <= i < |x| ensures x[i] < |s.threads| && Some(x[i]) in e.g.slots {
      if i < |s.g.exiting| {
        assert x[i] == s.g.exiting[i];
      }
      SlotStays(s, e, x[i]);
    }
  }

  lemma CountersAfter(s: State, e: Effect)
    requires EffectOk(s, e) && CountersOk(s)
    ensures CountersOk(Perform(s, e))
  {
    if e.worker.Some? {
      var (w, k') := e.worker.value;
      TallyUpdate(s.threads, w, k', COUNTED);
      TallyUpdate(s.threads, w, k', RUNNING);
      TallyUpdate(s.threads, w, k', LIVE);
    } else if e.created.Some? {
      TallyAppend(s.threads, NEW_THREAD, COUNTED);
      TallyAppend(s.threads, NEW_THREAD, RUNNING);
      TallyAppend(s.threads, NEW_THREAD, LIVE);
    }
  }

  lemma EffectKeepsInv(s: State, e: Effect)
    requires Inv(s) && EffectOk(s, e)
    ensures Inv(Perform(s, e))
  {
    var s' := Perform(s, e);
    forall w | 0 <= w < |s'.threads| ensures ThreadOk(s', w) { ThreadsAfter(s, e, w); }
    forall h | 0 <= h < |s'.handlers| ensures HandlerOk(s', h) { HandlersAfter(s, e, h); }
    QueueAfter(s, e);
    SlotsAfter(s, e);
    ExitingAfter(s, e);
    CountersAfter(s, e);
  }

  // ---- every step satisfies the conditions ----

  lemma FoundSlot(slots: seq<Option<nat>>, p: nat)
    requires Some(p) in slots
    ensures FindSlot(slots, p) < |slots| && slots[FindSlot(slots, p)] == Some(p)
  {
    if slots[0] != Some(p) {
      assert Some(p) in slots[1..];
      FoundSlot(slots[1..], p);
    }
  }

  // ---- three shapes of a step's writes ----

  /** A write to one descriptor only, which stays with its owner. */
  predicate LocalOk(s: State, w: nat, k': TclThread)
    requires w < |s.threads|
  {
    var k := s.threads[w];
    && Fits(s, w, k') && k'.owner == k.owner && InJobSection(k') == InJobSection(k)
    && COUNTED(k') == COUNTED(k) && RUNNING(k') == RUNNING(k) && Reported(k') == Reported(k)
  }

  lemma LocalEffect(s: State, w: nat, k': TclThread)
    requires w < |s.threads| && ThreadOk(s, w) && LocalOk(s, w, k') && LockOk(s) && ControlOk(s)
    ensures EffectOk(s, OnThread(s, w, k'))
  {
    assert Perform(s, OnThread(s, w, k')) == s.(threads := s.threads[w := k']);
  }

  /** A write to one descriptor that moves its thread in or out of the counted or the running ones. */
  predicate CountingOk(s: State, w: nat, k': TclThread, threads: int, running: int)
    requires w < |s.threads|
  {
    var k := s.threads[w];
    && Fits(s, w, k') && k'.owner == k.owner && InJobSection(k') == InJobSection(k) && Reported(k') == Reported(k)
    && threads + Bit(COUNTED(k)) == s.g.threadsCount + Bit(COUNTED(k'))
    && running + Bit(RUNNING(k)) == s.g.runningCount + Bit(RUNNING(k'))
  }

  lemma CountingEffect(s: State, w: nat, k': TclThread, threads: int, running: int)
    requires w < |s.threads| && ThreadOk(s, w) && CountingOk(s, w, k', threads, running) && LockOk(s) && ControlOk(s)
    ensures EffectOk(s, OnThread(s, w, k').(g := s.g.(threadsCount := threads, runningCount := running)))
  {
    var e := OnThread(s, w, k').(g := s.g.(threadsCount := threads, runningCount := running));
    assert Perform(s, e) == s.(threads := s.threads[w := k'], g := e.g);
  }

  /** A write to a descriptor and to the request that holds it. */
  predicate PairOk(s: State, w: nat, k': TclThread, h: nat, x': HandlerState)
    requires w < |s.threads| && h < |s.handlers|
  {
    var k, x := s.threads[w], s.handlers[h];
    var s' := s.(threads := s.threads[w := k'], handlers := s.handlers[h := x']);
    && Fits(s', w, k') && HandlerOk(s', h) && k.owner == HeldBy(h) && k'.owner != Queued
    && (x.pc == Claimed(w) || x.pc == Waiting(w)) && InJobSection(k') == InJobSection(k)
    && COUNTED(k') == COUNTED(k) && RUNNING(k') == RUNNING(k) && Reported(k') == Reported(k)
  }

  lemma PairEffect(s: State, w: nat, k': TclThread, h: nat, x': HandlerState)
    requires w < |s.threads| && h < |s.handlers| && ThreadOk(s, w) && PairOk(s, w, k', h, x')
    requires LockOk(s) && ControlOk(s)
    ensures EffectOk(s, OnThread(s, w, k').(handler := Some((h, x'))))
  {
    assert Perform(s, OnThread(s, w, k').(handler := Some((h, x'))))
      == s.(threads := s.threads[w := k'], handlers := s.handlers[h := x']);
  }

  // ---- every step satisfies the conditions ----

  lemma CheckEffect(s: State, h: nat)
    requires HandlerReady(s, HCheck(h)) && HandlerOk(s, h) && LockOk(s) && ControlOk(s)
    ensures EffectOk(s, HandlerEffect(s, HCheck(h)))
  {
  }

  lemma PopEffect(s: State, h: nat)
    requires HandlerReady(s, HPop(h)) && HandlerOk(s, h) && LockOk(s) && ControlOk(s) && QueueOk(s)
    requires ThreadOk(s, s.g.queue[0])
    ensures EffectOk(s, HandlerEffect(s, HPop(h)))
  {
  }

  lemma HandOffEffect(s: State, h: nat, t: Thread)
    requires HandlerReady(s, HHandOff(h, t)) && HandlerOk(s, h) && ThreadOk(s, s.handlers[h].pc.w)
    requires LockOk(s) && ControlOk(s)
    ensures EffectOk(s, HandlerEffect(s, HHandOff(h, t)))
  {
    var w := s.handlers[h].pc.w;
    PairEffect(s, w, HandOff(s.threads[w], h, t), h, s.handlers[h].(pc := Waiting(w)));
  }

  /** The handler was woken too early and waits again. */
  lemma WakeAgainEffect(s: State, h: nat, t: Thread)
    requires HandlerReady(s, HWake(h, t)) && HandlerOk(s, h) && ThreadOk(s, s.handlers[h].pc.w)
    requires LockOk(s) && ControlOk(s) && s.threads[s.handlers[h].pc.w].status != Done
    ensures EffectOk(s, HandlerEffect(s, HWake(h, t)))
  {
    var w := s.handlers[h].pc.w;
    LocalEffect(s, w, s.threads[w].(waiters := s.threads[w].waiters + {Handler(h)}));
  }

  lemma CollectEffect(s: State, h: nat, t: Thread)
    requires HandlerReady(s, HWake(h, t)) && HandlerOk(s, h) && ThreadOk(s, s.handlers[h].pc.w)
    requires LockOk(s) && ControlOk(s) && s.threads[s.handlers[h].pc.w].status == Done
    ensures EffectOk(s, HandlerEffect(s, HWake(h, t)))
  {
    var w := s.handlers[h].pc.w;
    PairEffect(s, w, Collect(s.threads[w], t), h, s.handlers[h].(pc := Returned(s.threads[w].code)));
  }

  lemma EnterEffect(s: State, w: nat)
    requires ThreadReady(s, WEnter(w)) && ThreadOk(s, w) && LockOk(s) && ControlOk(s)
    ensures EffectOk(s, ThreadEffect(s, WEnter(w)))
  {
    var k := s.threads[w];
    LocalEffect(s, w, k.(locked := true, pc := Pushing));
  }

  lemma WakeJobEffect(s: State, w: nat)
    requires ThreadReady(s, WWakeJob(w)) && ThreadOk(s, w) && LockOk(s) && ControlOk(s)
    ensures EffectOk(s, ThreadEffect(s, WWakeJob(w)))
  {
    var k := s.threads[w];
    LocalEffect(s, w, k.(locked := true, pc := JobTest));
  }

  lemma WakeTakenEffect(s: State, w: nat)
    requires ThreadReady(s, WWakeTaken(w)) && ThreadOk(s, w) && LockOk(s) && ControlOk(s)
    ensures EffectOk(s, ThreadEffect(s, WWakeTaken(w)))
  {
    var k := s.threads[w];
    LocalEffect(s, w, if k.status != Idle then k.(waiters := k.waiters + {Worker(w)})
                      else k.(locked := true, pc := Served));
  }

  lemma SpuriousEffect(s: State, w: nat, t: Thread)
    requires ThreadReady(s, Spurious(w, t)) && ThreadOk(s, w) && LockOk(s) && ControlOk(s)
    ensures EffectOk(s, ThreadEffect(s, Spurious(w, t)))
  {
    LocalEffect(s, w, s.threads[w].(waiters := s.threads[w].waiters - {t}));
  }

  lemma FinishEffect(s: State, w: nat, code: int, exits: bool, t: Thread)
    requires ThreadReady(s, WFinish(w, code, exits, t)) && ThreadOk(s, w) && LockOk(s) && ControlOk(s)
    requires HandlerOk(s, s.threads[w].serving.value)
    ensures EffectOk(s, ThreadEffect(s, WFinish(w, code, exits, t)))
  {
    var h := s.threads[w].serving.value;
    var x := s.handlers[h];
    assert s.threads[w].owner == HeldBy(h);
    PairEffect(s, w, FinishServing(s.threads[w], w, code, exits, t), h, x.(served := x.served + [code]));
  }

  lemma BootEffect(s: State, w: nat)
    requires ThreadReady(s, WBoot(w)) && ThreadOk(s, w) && LockOk(s) && ControlOk(s)
    ensures EffectOk(s, ThreadEffect(s, WBoot(w)))
  {
  }

  lemma CountEffect(s: State, w: nat)
    requires ThreadReady(s, WCount(w)) && ThreadOk(s, w) && LockOk(s) && ControlOk(s)
    ensures EffectOk(s, ThreadEffect(s, WCount(w)))
  {
    CountingEffect(s, w, s.threads[w].(pc := Entering), s.g.threadsCount + 1, s.g.runningCount);
  }

  lemma PushEffect(s: State, w: nat)
    requires ThreadReady(s, WPush(w)) && ThreadOk(s, w) && LockOk(s) && ControlOk(s)
    ensures EffectOk(s, ThreadEffect(s, WPush(w)))
  {
  }

  lemma TestEffect(s: State, w: nat)
    requires ThreadReady(s, WTest(w)) && ThreadOk(s, w) && LockOk(s) && ControlOk(s)
    ensures EffectOk(s, ThreadEffect(s, WTest(w)))
  {
    var k := JobTests(s.threads[w], w, s.g.shutdown);
    CountingEffect(s, w, k, s.g.threadsCount, s.g.runningCount + Bit(k.pc == Serving));
  }

  lemma ServedEffect(s: State, w: nat)
    requires ThreadReady(s, WServed(w)) && ThreadOk(s, w) && LockOk(s) && ControlOk(s)
    ensures EffectOk(s, ThreadEffect(s, WServed(w)))
  {
    var k := s.threads[w];
    CountingEffect(s, w, if k.keepGoing then k.(pc := Pushing) else k.(locked := false, pc := Exiting),
                   s.g.threadsCount, s.g.runningCount - 1);
  }

  lemma LockJobEffect(s: State, w: nat)
    requires ThreadReady(s, WLockJob(w)) && ThreadOk(s, w) && LockOk(s) && ControlOk(s)
    ensures EffectOk(s, ThreadEffect(s, WLockJob(w)))
  {
  }

  lemma ReportEffect(s: State, w: nat)
    requires ThreadReady(s, WReport(w)) && ThreadOk(s, w) && LockOk(s) && ControlOk(s)
    ensures EffectOk(s, ThreadEffect(s, WReport(w)))
  {
  }

  lemma UncountEffect(s: State, w: nat)
    requires ThreadReady(s, WUncount(w)) && ThreadOk(s, w) && LockOk(s) && ControlOk(s)
    ensures EffectOk(s, ThreadEffect(s, WUncount(w)))
  {
    var k := s.threads[w];
    assert OwnerOk(s, w, k.(pc := Gone));
    CountingEffect(s, w, k.(pc := Gone), s.g.threadsCount - 1, s.g.runningCount);
  }

  lemma SetupEffect(s: State, w: nat, ok: bool)
    requires ThreadReady(s, WSetup(w, ok)) && ThreadOk(s, w) && LockOk(s) && ControlOk(s)
    ensures EffectOk(s, ThreadEffect(s, WSetup(w, ok)))
  {
  }

  lemma StartEffect(s: State)
    requires SupervisorReady(s, SStart) && LockOk(s) && ControlOk(s) && SlotsOk(s)
    ensures EffectOk(s, SupervisorEffect(s, SStart))
  {
  }

  lemma SupervisorLockEffect(s: State, a: Step)
    requires (a == SLock || a == STest || a == SWake || a == SpuriousSupervisor) && SupervisorReady(s, a)
    requires LockOk(s) && ControlOk(s) && SlotsOk(s)
    ensures EffectOk(s, SupervisorEffect(s, a))
  {
  }

  lemma RefillEffect(s: State)
    requires SupervisorReady(s, SRefill) && LockOk(s) && ControlOk(s) && SlotsOk(s) && ExitingOk(s)
    ensures EffectOk(s, SupervisorEffect(s, SRefill))
  {
    if s.g.exiting != [] {
      FoundSlot(s.g.slots, s.g.exiting[|s.g.exiting| - 1]);
    }
  }

  lemma AnnounceEffect(s: State, a: Step)
    requires (a == KLock || a == KAnnounce) && ShutdownReady(s, a) && LockOk(s) && ControlOk(s)
    ensures EffectOk(s, ShutdownEffect(s, a))
  {
  }

  lemma TryPopEffect(s: State)
    requires ShutdownReady(s, KTryPop) && LockOk(s) && ControlOk(s) && QueueOk(s)
    requires s.g.queue != [] ==> ThreadOk(s, s.g.queue[0])
    ensures EffectOk(s, ShutdownEffect(s, KTryPop))
  {
  }

  lemma DismissEffect(s: State, t: Thread)
    requires ShutdownReady(s, KDismiss(t)) && LockOk(s) && ControlOk(s) && ThreadOk(s, s.g.sh.w)
    ensures EffectOk(s, ShutdownEffect(s, KDismiss(t)))
  {
  }

  lemma HandlerStepEffect(s: State, a: Step)
    requires Inv(s) && IsHandlerStep(a) && HandlerReady(s, a)
    ensures EffectOk(s, HandlerEffect(s, a))
  {
    assert HandlerOk(s, a.h);
    match a
    case HCheck(h) => CheckEffect(s, h);
    case HPop(h) =>
      assert ThreadOk(s, s.g.queue[0]);
      PopEffect(s, h);
    case HHandOff(h, t) =>
      assert ThreadOk(s, s.handlers[h].pc.w);
      HandOffEffect(s, h, t);
    case HWake(h, t) =>
      assert ThreadOk(s, s.handlers[h].pc.w);
      if s.threads[s.handlers[h].pc.w].status == Done { CollectEffect(s, h, t); } else { WakeAgainEffect(s, h, t); }
  }

  predicate IsServiceStep(a: Step) {
    a.WPush? || a.WTest? || a.WWakeJob? || a.WFinish? || a.WWakeTaken? || a.WServed? || a.Spurious?
  }

  lemma ServiceStepEffect(s: State, a: Step)
    requires IsServiceStep(a) && ThreadReady(s, a) && ThreadOk(s, a.w) && LockOk(s) && ControlOk(s)
    requires a.WFinish? ==>
      && s.threads[a.w].serving.Some? && s.threads[a.w].serving.value < |s.handlers|
      && HandlerOk(s, s.threads[a.w].serving.value)
    ensures EffectOk(s, ThreadEffect(s, a))
  {
    match a
    case WPush(w) => PushEffect(s, w);
    case WTest(w) => TestEffect(s, w);
    case WWakeJob(w) => WakeJobEffect(s, w);
    case WFinish(w, code, exits, t) => FinishEffect(s, w, code, exits, t);
    case WWakeTaken(w) => WakeTakenEffect(s, w);
    case WServed(w) => ServedEffect(s, w);
    case Spurious(w, t) => SpuriousEffect(s, w, t);
  }

  predicate IsBootStep(a: Step) {
    a.WBoot? || a.WSetup? || a.WCount? || a.WEnter? || a.WLockJob? || a.WReport? || a.WUncount?
  }

  lemma BootStepEffect(s: State, a: Step)
    requires IsBootStep(a) && ThreadReady(s, a) && ThreadOk(s, a.w) && LockOk(s) && ControlOk(s)
    ensures EffectOk(s, ThreadEffect(s, a))
  {
    match a
    case WBoot(w) => BootEffect(s, w);
    case WSetup(w, ok) => SetupEffect(s, w, ok);
    case WCount(w) => CountEffect(s, w);
    case WEnter(w) => EnterEffect(s, w);
    case WLockJob(w) => LockJobEffect(s, w);
    case WReport(w) => ReportEffect(s, w);
    case WUncount(w) => UncountEffect(s, w);
  }

  lemma ShutdownStepEffect(s: State, a: Step)
    requires Inv(s) && IsShutdownStep(a) && ShutdownReady(s, a)
    ensures EffectOk(s, ShutdownEffect(s, a))
  {
    match a
    case KLock => AnnounceEffect(s, a);
    case KAnnounce => AnnounceEffect(s, a);
    case KTryPop =>
      assert s.g.queue != [] ==> ThreadOk(s, s.g.queue[0]);
      TryPopEffect(s);
    case KDismiss(t) =>
      assert ThreadOk(s, s.g.sh.w);
      DismissEffect(s, t);
  }

  lemma ThreadStepEffect(s: State, a: Step)
    requires Inv(s) && IsThreadStep(a) && ThreadReady(s, a)
    ensures EffectOk(s, ThreadEffect(s, a))
  {
    assert ThreadOk(s, a.w);
    if IsBootStep(a) {
      BootStepEffect(s, a);
    } else {
      assert a.WFinish? ==> HandlerOk(s, s.threads[a.w].serving.value);
      ServiceStepEffect(s, a);
    }
  }

  lemma SupervisorStepEffect(s: State, a: Step)
    requires Inv(s) && IsSupervisorStep(a) && SupervisorReady(s, a)
    ensures EffectOk(s, SupervisorEffect(s, a))
  {
    match a
    case SStart => StartEffect(s);
    case SRefill => RefillEffect(s);
    case _ => SupervisorLockEffect(s, a);
  }

  lemma ArriveEffect(s: State)
    requires LockOk(s) && ControlOk(s)
    ensures EffectOk(s, NoEffect(s).(arrived := Some(HandlerState(Arrived, []))))
  {
    var e := NoEffect(s).(arrived := Some(HandlerState(Arrived, [])));
    assert Perform(s, e) == s.(handlers := s.handlers + [HandlerState(Arrived, [])]);
  }

  lemma StepEffectOk(s: State, a: Step)
    requires Inv(s) && Enabled(s, a)
    ensures EffectOk(s, EffectOf(s, a))
  {
    if IsHandlerStep(a) {
      HandlerStepEffect(s, a);
    } else if IsSupervisorStep(a) {
      SupervisorStepEffect(s, a);
    } else if IsShutdownStep(a) {
      ShutdownStepEffect(s, a);
    } else if a.Arrive? {
      ArriveEffect(s);
    } else {
      ThreadStepEffect(s, a);
    }
  }

  /** The invariant is kept by every step of every thread. */
  lemma StepKeepsInv(s: State, a: Step)
    requires Inv(s) && Enabled(s, a)
    ensures Inv(Apply(s, a))
  {
    StepEffectOk(s, a);
    EffectKeepsInv(s, EffectOf(s, a));
  }

  /** Every state of every run satisfies the invariant. */
  lemma {:induction false} RunInv(tr: seq<State>, steps: seq<Step>, i: nat)
    requires IsRun(tr, steps) && i < |tr|
    ensures Inv(tr[i])
  {
    if i == 0 {
      InitialInv(tr[0]);
    } else {
      RunInv(tr, steps, i - 1);
      StepKeepsInv(tr[i - 1], steps[i - 1]);
    }
  }
}
