/**
The critical sections of rivet_lazy_mpm.c as methods on the objects they update: a
worker descriptor and the bookkeeping of a virtual host. The descriptor's validity is
the hand-off protocol; every section keeps it and ends in the state the step machine of
`LazyBridge` gives it.
*/
module LazySections {
  import opened Prelude
  import B = LazyBridge
  import I = LazyInvariant

  /**
  The hand-off protocol of a descriptor, given whether a request has been stored in it and the answers computed
  for that one. Between jobs only the worker itself may wait, and only in its job loop; from the hand-off on,
  status, position, waiters and answers go together; nobody waits on a worker that was given back.
  */
  predicate Protocol(k: B.LazyWorker, id: nat, handed: bool, served: seq<int>) {
    && I.PcOk(k) && (handed ==> k.owner.HeldBy?) && (k.pc != B.Starting ==> k.conf.Some?)
    && match k.owner
       case Pooled => I.Untouched(k, id)
       case HeldByFinalizer => I.Untouched(k, id)
       case HeldBy(h) =>
         if handed then k.conf.Some? && I.Engaged(k, id, h, served) else served == [] && I.Untouched(k, id)
       case InTransit => k.status == B.Idle && (k.pc.AwaitTaken? || k.pc.PushLock? || k.pc.Pushing?) && k.waiters == {}
       case Retired => k.status == B.ThreadExit && I.BetweenJobs(k) && k.waiters == {}
  }

  predicate Handed(s: B.State, w: nat)
    requires w < |s.workers|
  {
    var o := s.workers[w].owner;
    o.HeldBy? && o.h < |s.handlers| && s.handlers[o.h].pc == B.Waiting(w)
  }

  /** The descriptors of every run follow the protocol, so the methods below may be called where its steps are taken. */
  lemma RunsFollowProtocol(tr: seq<B.State>, steps: seq<B.Step>, i: nat, w: nat)
    requires B.IsRun(tr, steps) && i < |tr| && w < |tr[i].workers|
    ensures var k := tr[i].workers[w];
      var handed := Handed(tr[i], w);
      Protocol(k, w, handed, if handed then tr[i].handlers[k.owner.h].served else [])
  {
    I.RunInv(tr, steps, i);
    assert I.WorkerOk(tr[i], w);
  }

  /** Publishing an answer keeps the protocol: there was none yet, and only the worker waits for its collection. */
  lemma AnswerIsPublished(k: B.LazyWorker, id: nat, handed: bool, served: seq<int>, code: int, exits: bool, t: B.Thread)
    requires Protocol(k, id, handed, served) && k.pc == B.Serving && B.SignalPicks(k.waiters, t)
    ensures served == [] && B.FinishServing(k, id, code, exits, t).waiters == {B.Worker(id)}
    ensures Protocol(B.FinishServing(k, id, code, exits, t), id, handed, [code])
  {
  }

  /** `lazy_tcl_worker`, with the private data of the thread that runs it. */
  class LazyTclWorker {
    const id: nat
    var vhost: nat
    var conf: Option<nat>
    var status: B.Status
    var r: Option<nat>
    var apSts: int
    var keepGoing: bool
    var serving: Option<nat>
    ghost var waiters: set<B.Thread>
    ghost var locked: bool
    ghost var pc: B.WorkerPc
    ghost var owner: B.Owner
    /** The request has been stored and its answer not yet been collected. */
    ghost var handed: bool
    /** The answers computed for it. */
    ghost var served: seq<int>

    ghost function View(): B.LazyWorker
      reads this
    {
      B.LazyWorker(vhost, conf, status, r, apSts, waiters, locked, pc, keepGoing, serving, owner)
    }

    ghost predicate Valid()
      reads this
    {
      Protocol(View(), id, handed, served)
    }

    /** `create_worker`, on behalf of handler `h`: the thread has no `conf` to read yet. */
    constructor (id: nat, v: nat, ghost h: nat)
      ensures Valid() && owner == B.HeldBy(h) && !handed && conf == None && pc == B.Starting
      ensures View() == B.CreateWorker(v, h) && this.id == id
    {
      this.id := id;
      vhost, conf, status, r, apSts, keepGoing, serving := v, None, B.Idle, None, 0, true, None;
      waiters, locked, pc, owner, handed, served := {}, false, B.Starting, B.HeldBy(h), false, [];
    }

    /** Wakes the picked thread, if any waits. */
    ghost method Signal(t: B.Thread)
      requires B.SignalPicks(waiters, t)
      modifies this`waiters
      ensures waiters == old(waiters) - {t}
    {
      waiters := waiters - {t};
    }

    /**
    The handler's section, from its lock to its wait: afterwards the worker is awake, with a request and a
    host to read, and the handler is the only one that waits.
    */
    method HandOff(h: nat, v: nat, ghost t: B.Thread)
      requires Valid() && owner == B.HeldBy(h) && !handed && !locked && B.SignalPicks(waiters, t)
      modifies this
      ensures Valid() && handed && owner == B.HeldBy(h) && served == [] && conf == Some(v)
      ensures waiters == {B.Handler(h)} && status == B.Init && r == Some(h)
      ensures View() == B.HandOff(old(View()), h, v, t)
    {
      r := Some(h);
      status := B.Init;
      conf := Some(v);
      Signal(t);
      waiters := waiters + {B.Handler(h)};
      handed := true;
    }

    /** The worker is back from `cond_wait` in its job loop. */
    ghost method WakeForJob()
      requires Valid() && pc == B.AwaitJob && !locked && B.Worker(id) !in waiters
      modifies this
      ensures Valid() && pc == B.LoopTop && locked && owner == old(owner)
      ensures View() == old(View()).(locked := true, pc := B.LoopTop) && served == old(served) && handed == old(handed)
    {
      locked, pc := true, B.LoopTop;
    }

    /**
    The worker's loop tests. It starts on a request exactly when one has been handed over and its loop goes
    on, and then on that of the handler that waits for it, which nobody has served before.
    */
    method LoopTests() returns (request: Option<nat>)
      requires Valid() && locked && pc == B.LoopTop
      modifies this
      ensures Valid() && owner == old(owner) && handed == old(handed) && served == old(served)
      ensures request.Some? <==> old(keepGoing) && old(handed)
      ensures request.Some? ==> pc == B.Serving && owner == B.HeldBy(request.value) && served == []
      ensures request.None? ==> !locked && (pc == B.Leaving <==> !old(keepGoing) || old(status) == B.ThreadExit)
      ensures request.None? && pc != B.Leaving ==> pc == B.AwaitJob && waiters == {B.Worker(id)}
      ensures View() == B.LoopTests(old(View()), id)
    {
      request := None;
      if !keepGoing {
        locked, pc := false, B.Leaving;
      } else if status != B.Init && status != B.ThreadExit {
        waiters, locked, pc := waiters + {B.Worker(id)}, false, B.AwaitJob;
      } else if status == B.ThreadExit {
        keepGoing := false;
        locked, pc := false, B.Leaving;
      } else {
        status := B.Processing;
        serving := r;
        request := serving;
        pc := B.Serving;
      }
    }

    /** The worker's section after content generation: the handler is awake, and the only answer is this one. */
    method FinishServing(code: int, exits: bool, ghost t: B.Thread)
      requires Valid() && pc == B.Serving && B.SignalPicks(waiters, t)
      modifies this
      ensures Valid() && old(served) == [] && served == [code] && handed == old(handed) && owner == old(owner)
      ensures pc == B.AwaitTaken && !locked && waiters == {B.Worker(id)}
      ensures View() == B.FinishServing(old(View()), id, code, exits, t)
    {
      AnswerIsPublished(View(), id, handed, served, code, exits, t);
      if exits { keepGoing := false; }
      apSts := code;
      status := B.Done;
      Signal(t);
      waiters, locked, pc := waiters + {B.Worker(id)}, false, B.AwaitTaken;
      served := [code];
    }

    /**
    The handler's section after a wakeup: it gets an answer exactly when one has been computed, and that one;
    then the worker is awake and given back, otherwise the handler waits again.
    */
    method HandlerWake(h: nat, ghost t: B.Thread) returns (answer: Option<int>)
      requires Valid() && owner == B.HeldBy(h) && handed && !locked
      requires B.Handler(h) !in waiters && B.SignalPicks(waiters, t)
      modifies this
      ensures Valid() && (answer.Some? <==> old(served) != []) && (answer.Some? ==> old(served) == [answer.value])
      ensures answer.Some? ==> owner == B.InTransit && waiters == {} && pc == B.AwaitTaken
      ensures answer.None? ==> owner == old(owner) && handed && B.Handler(h) in waiters && served == []
      ensures View() == if answer.Some? then B.Collect(old(View()), t)
                        else old(View()).(waiters := old(waiters) + {B.Handler(h)})
    {
      if status != B.Done {
        waiters := waiters + {B.Handler(h)};
        return None;
      }
      answer := Some(apSts);
      status := B.Idle;
      r := None;
      Signal(t);
      owner, handed := B.InTransit, false;
    }

    /** The finalizer's section on an idle worker: it is awake, and its next loop test makes it leave. */
    method Retire(ghost t: B.Thread)
      requires Valid() && owner == B.HeldByFinalizer && !locked && B.SignalPicks(waiters, t)
      modifies this
      ensures Valid() && owner == B.Retired && waiters == {} && status == B.ThreadExit
      ensures View() == B.Retire(old(View()), t)
    {
      r := None;
      status := B.ThreadExit;
      Signal(t);
      owner := B.Retired;
    }
  }

  /** One whole exchange on an idle worker, in the order the protocol forces: the handler gets what was computed. */
  method Exchange(k: LazyTclWorker, h: nat, v: nat, code: int, exits: bool) returns (answer: Option<int>)
    requires k.Valid() && k.owner == B.HeldBy(h) && !k.handed && k.pc == B.AwaitJob
    modifies k
    ensures k.Valid() && answer == Some(code) && k.owner == B.InTransit && k.keepGoing == !exits
  {
    ghost var t: B.Thread := if B.Worker(k.id) in k.waiters then B.Worker(k.id) else B.Finalizer;
    k.HandOff(h, v, t);
    k.WakeForJob();
    var request := k.LoopTests();
    assert request == Some(h);
    k.FinishServing(code, exits, B.Handler(h));
    answer := k.HandlerWake(h, B.Worker(k.id));
  }

  /** `vhost_iface`: the thread counter and the array of idle workers, an `apr_array_header_t`. */
  class VhostIface {
    var threadsCount: int
    var elts: array<nat>
    var nelts: nat
    ghost var lock: Option<B.Thread>

    ghost predicate Valid()
      reads this
    {
      nelts <= elts.Length
    }

    ghost function View(): B.Vhost
      reads this, elts
      requires Valid()
    {
      B.Vhost(threadsCount, lock, elts[..nelts])
    }

    constructor ()
      ensures Valid() && View() == B.Vhost(0, None, []) && fresh(elts)
    {
      threadsCount, nelts, lock := 0, 0, None;
      elts := new nat[0];
    }

    /** Room for one more element: a full array is copied into one of twice the size. */
    method Grow()
      requires Valid()
      modifies this`elts
      ensures Valid() && nelts < elts.Length && View() == old(View())
      ensures elts == old(elts) || fresh(elts)
    {
      if nelts == elts.Length {
        var more := new nat[if nelts == 0 then 1 else 2 * nelts];
        var i := 0;
        while i < nelts
          invariant 0 <= i <= nelts && more[..i] == elts[..i]
          modifies more
        {
          more[i] := elts[i];
          i := i + 1;
        }
        elts := more;
      }
    }

    /** A worker reschedules itself and gives the mutex back. */
    method Push(w: nat)
      requires Valid()
      modifies this, elts
      ensures Valid() && (elts == old(elts) || fresh(elts))
      ensures View() == old(View()).(lock := None, idle := old(View()).idle + [w])
    {
      Grow();
      elts[nelts] := w;
      nelts := nelts + 1;
      lock := None;
      assert elts[..nelts] == elts[..nelts - 1] + [w];
    }

    /** The handler's section: refuse, ask for a new worker, or take the one put back last. */
    method Take(shutdown: bool) returns (refused: bool, w: Option<nat>)
      requires Valid()
      modifies this
      ensures Valid() && refused == shutdown
      ensures w.Some? <==> !shutdown && old(View()).idle != []
      ensures w.None? ==> View() == old(View()).(lock := None)
      ensures w.Some? ==>
        (View().idle + [w.value] == old(View()).idle && View() == old(View()).(lock := None, idle := View().idle))
    {
      refused, w := shutdown, None;
      if !shutdown && nelts > 0 {
        nelts := nelts - 1;
        w := Some(elts[nelts]);
        assert elts[..nelts + 1] == elts[..nelts] + [elts[nelts]];
      }
      lock := None;
    }
  }

  /** What `Take` does to a virtual host is what the lookup step does to it. */
  lemma TakeIsLookup(s: B.State, h: nat)
    requires B.Enabled(s, B.HLookup(h))
    ensures
      var v := s.handlers[h].vhost;
      var before := s.vhosts[v];
      var after := B.Apply(s, B.HLookup(h)).vhosts[v];
      && after == before.(lock := None, idle := after.idle)
      && after.idle + (if s.shutdown || before.idle == [] then [] else [before.idle[|before.idle| - 1]]) == before.idle
  {
    var q := s.vhosts[s.handlers[h].vhost].idle;
    assert q != [] ==> q[..|q| - 1] + [q[|q| - 1]] == q;
  }
}
