/**
The critical sections of rivet_worker_mpm.c as methods: those on a descriptor, whose
validity is the hand-off protocol, and the supervisor's two loops over the slot table.
Each ends where the step machine of `WorkerBridge` does.
*/
module WorkerSections {
  import opened Prelude
  import B = WorkerBridge
  import I = WorkerInvariant

  /**
  The hand-off protocol of a descriptor, given whether a request has been stored in it, the answers computed for
  that one, and whether the shutdown flag has been seen. On offer only the thread itself may wait, and only for a
  job; from the hand-off on, status, position, waiters and answers go together; nobody waits on a descriptor that
  is its thread's own.
  */
  predicate Protocol(k: B.TclThread, id: nat, handed: bool, served: seq<int>, stopping: bool) {
    && I.PcOk(k) && (handed ==> k.owner.HeldBy?)
    && match k.owner
       case Own => k.status == B.Idle && k.waiters == {} && !I.LooksForJob(k) && !k.pc.Serving?
       case Queued => I.OnOffer(k, id)
       case HeldByShutdown => I.OnOffer(k, id)
       case HeldBy(h) =>
         if handed then I.Engaged(k, id, h, served, stopping) else served == [] && I.OnOffer(k, id)
       case Dismissed => stopping && k.status == B.Init && (I.LooksForJob(k) || I.Left(k)) && k.waiters == {}
  }

  predicate Handed(s: B.State, w: nat)
    requires w < |s.threads|
  {
    var o := s.threads[w].owner;
    o.HeldBy? && o.h < |s.handlers| && s.handlers[o.h].pc == B.Waiting(w)
  }

  /** The descriptors of every run follow the protocol, so the methods below may be called where its steps are taken. */
  lemma RunsFollowProtocol(tr: seq<B.State>, steps: seq<B.Step>, i: nat, w: nat)
    requires B.IsRun(tr, steps) && i < |tr| && w < |tr[i].threads|
    ensures var k := tr[i].threads[w];
      var handed := Handed(tr[i], w);
      Protocol(k, w, handed, if handed then tr[i].handlers[k.owner.h].served else [], tr[i].g.shutdown)
  {
    I.RunInv(tr, steps, i);
    assert I.ThreadOk(tr[i], w);
  }

  /** Publishing an answer keeps the protocol: there was none yet, and only the thread waits for its collection. */
  lemma AnswerIsPublished(
      k: B.TclThread, id: nat, handed: bool, served: seq<int>, stopping: bool, code: int, exits: bool, t: B.Thread)
    requires Protocol(k, id, handed, served, stopping) && k.pc == B.Serving && B.SignalPicks(k.waiters, t)
    ensures served == [] && B.FinishServing(k, id, code, exits, t).waiters == {B.Worker(id)}
    ensures Protocol(B.FinishServing(k, id, code, exits, t), id, handed, [code], stopping)
  {
  }

  /** `handler_private`, with the private data of the Tcl thread that owns it. */
  class HandlerPrivate {
    const id: nat
    var status: B.Status
    var r: Option<nat>
    var code: int
    var keepGoing: bool
    var serving: Option<nat>
    ghost var waiters: set<B.Thread>
    ghost var locked: bool
    ghost var pc: B.WorkerPc
    ghost var owner: B.Owner
    /** The request has been stored and its answer not yet been collected. */
    ghost var handed: bool
    /** The answers computed for it. */
    ghost var served: seq<int>
    /** The flag has been seen set by someone. */
    ghost var stopping: bool

    ghost function View(): B.TclThread
      reads this
    {
      B.TclThread(status, r, code, waiters, locked, pc, keepGoing, serving, owner)
    }

    ghost predicate Valid()
      reads this
    {
      Protocol(View(), id, handed, served, stopping)
    }

    constructor (id: nat)
      ensures Valid() && owner == B.Own && View() == B.NEW_THREAD && this.id == id
    {
      this.id := id;
      status, r, code, keepGoing, serving := B.Idle, None, 0, true, None;
      waiters, locked, pc, owner := {}, false, B.Booting, B.Own;
      handed, served, stopping := false, [], false;
    }

    ghost method Signal(t: B.Thread)
      requires B.SignalPicks(waiters, t)
      modifies this`waiters
      ensures waiters == old(waiters) - {t}
    {
      waiters := waiters - {t};
    }

    /** The handler's section, from its lock to its wait: the thread is awake and only the handler waits. */
    method HandOff(h: nat, ghost t: B.Thread)
      requires Valid() && owner == B.HeldBy(h) && !handed && !locked && B.SignalPicks(waiters, t)
      modifies this
      ensures Valid() && handed && owner == B.HeldBy(h) && served == [] && stopping == old(stopping)
      ensures waiters == {B.Handler(h)} && status == B.Init && r == Some(h)
      ensures View() == B.HandOff(old(View()), h, t)
    {
      r := Some(h);
      status := B.Init;
      code := 0;
      Signal(t);
      waiters := waiters + {B.Handler(h)};
      handed := true;
    }

    /** The thread is back from `cond_wait` in its job loop. */
    ghost method WakeForJob()
      requires Valid() && pc == B.AwaitJob && !locked && B.Worker(id) !in waiters
      modifies this
      ensures Valid() && pc == B.JobTest && locked && owner == old(owner) && stopping == old(stopping)
      ensures View() == old(View()).(locked := true, pc := B.JobTest) && served == old(served) && handed == old(handed)
    {
      locked, pc := true, B.JobTest;
    }

    /**
    The thread's tests once it is on the queue: it serves exactly a request that was handed over before the
    shutdown, first and for the handler that waits; it leaves exactly when something came and the flag is set.
    */
    method JobTests(shutdown: bool) returns (request: Option<nat>)
      requires Valid() && locked && pc == B.JobTest && (stopping ==> shutdown)
      modifies this
      ensures Valid() && owner == old(owner) && handed == old(handed) && served == old(served) && stopping == shutdown
      ensures request.Some? <==> old(handed) && !shutdown
      ensures request.Some? ==> pc == B.Serving && owner == B.HeldBy(request.value) && served == []
      ensures pc == B.Exiting <==> shutdown && (old(handed) || owner == B.Dismissed)
      ensures !old(handed) && owner != B.Dismissed ==> pc == B.AwaitJob && waiters == {B.Worker(id)}
      ensures View() == B.JobTests(old(View()), id, shutdown)
    {
      request := None;
      stopping := shutdown;
      if status != B.Init {
        waiters, locked, pc := waiters + {B.Worker(id)}, false, B.AwaitJob;
      } else if shutdown {
        keepGoing := false;
        locked, pc := false, B.Exiting;
      } else {
        status := B.Processing;
        serving := r;
        request := serving;
        pc := B.Serving;
      }
    }

    /** The section after content generation: the handler is awake, and the only answer is this one. */
    method FinishServing(result: int, exits: bool, ghost t: B.Thread)
      requires Valid() && pc == B.Serving && B.SignalPicks(waiters, t)
      modifies this
      ensures Valid() && old(served) == [] && served == [result] && handed == old(handed) && owner == old(owner)
      ensures pc == B.AwaitTaken && !locked && waiters == {B.Worker(id)}
      ensures View() == B.FinishServing(old(View()), id, result, exits, t)
    {
      AnswerIsPublished(View(), id, handed, served, stopping, result, exits, t);
      if exits { keepGoing := false; }
      code := result;
      status := B.Done;
      Signal(t);
      waiters, locked, pc := waiters + {B.Worker(id)}, false, B.AwaitTaken;
      served := [result];
    }

    /** The handler's section after a wakeup: an answer exactly when one has been computed, and that one. */
    method HandlerWake(h: nat, ghost t: B.Thread) returns (answer: Option<int>)
      requires Valid() && owner == B.HeldBy(h) && handed && !locked
      requires B.Handler(h) !in waiters && B.SignalPicks(waiters, t)
      modifies this
      ensures Valid() && (answer.Some? <==> old(served) != []) && (answer.Some? ==> old(served) == [answer.value])
      ensures answer.Some? ==> owner == B.Own && waiters == {} && pc == B.AwaitTaken
      ensures answer.None? ==> owner == old(owner) && handed && B.Handler(h) in waiters && served == []
      ensures View() == if answer.Some? then B.Collect(old(View()), t)
                        else old(View()).(waiters := old(waiters) + {B.Handler(h)})
    {
      if status != B.Done {
        waiters := waiters + {B.Handler(h)};
        return None;
      }
      answer := Some(code);
      status := B.Idle;
      Signal(t);
      owner, handed := B.Own, false;
    }

    /** The shutdown thread's section on a descriptor it popped: its thread is awake and will see the flag. */
    method Dismiss(ghost t: B.Thread)
      requires Valid() && owner == B.HeldByShutdown && !locked && B.SignalPicks(waiters, t)
      modifies this
      ensures Valid() && owner == B.Dismissed && waiters == {} && status == B.Init && I.LooksForJob(View())
      ensures View() == B.Dismiss(old(View()), t)
    {
      status := B.Init;
      Signal(t);
      owner, stopping := B.Dismissed, true;
    }
  }

  /** One whole exchange on a waiting thread: the handler gets what was computed for it. */
  method Exchange(k: HandlerPrivate, h: nat, result: int, exits: bool) returns (answer: Option<int>)
    requires k.Valid() && k.owner == B.HeldBy(h) && !k.handed && k.pc == B.AwaitJob && !k.stopping
    modifies k
    ensures k.Valid() && answer == Some(result) && k.owner == B.Own && k.keepGoing == !exits
  {
    ghost var t: B.Thread := if B.Worker(k.id) in k.waiters then B.Worker(k.id) else B.Finalizer;
    k.HandOff(h, t);
    k.WakeForJob();
    var request := k.JobTests(false);
    assert request == Some(h);
    k.FinishServing(result, exits, B.Handler(h));
    answer := k.HandlerWake(h, B.Worker(k.id));
  }

  // ----- The slot table -----

  /** The table and the next thread id after every thread on the exiting list has been looked up and replaced. */
  function Refilled(slots: seq<Option<nat>>, exiting: seq<nat>, next: nat): (seq<Option<nat>>, nat)
    decreases |exiting|
  {
    if exiting == [] then (slots, next)
    else
      var n := |exiting| - 1;
      var i := B.FindSlot(slots, exiting[n]);
      if i < |slots| then Refilled(slots[i := Some(next)], exiting[..n], next + 1)
      else Refilled(slots, exiting[..n], next)
  }

  /** `mpm_bridge_status` as far as the supervisor uses it; `created` counts the threads started so far. */
  class Supervisor {
    const workers: array<Option<nat>>
    var exiting: seq<nat>
    var created: nat

    constructor (maxThreads: nat)
      ensures workers[..] == seq(maxThreads, _ => None) && fresh(workers) && exiting == [] && created == 0
    {
      workers := new Option<nat>[maxThreads](_ => None);
      exiting, created := [], 0;
    }

    method CreateWorkerThread() returns (id: nat)
      modifies this`created
      ensures id == old(created) && created == id + 1
    {
      id := created;
      created := created + 1;
    }

    /** `start_thread_pool`: the first `nthreads` slots get a thread each. */
    method StartThreadPool(nthreads: nat)
      requires nthreads <= workers.Length
      modifies this`created, workers
      ensures created == old(created) + nthreads
      ensures forall i :: 0 <= i < workers.Length ==>
        workers[i] == if i < nthreads then Some(old(created) + i) else old(workers[i])
    {
      var i := 0;
      while i < nthreads
        invariant 0 <= i <= nthreads && created == old(created) + i
        invariant forall k :: 0 <= k < workers.Length ==>
          workers[k] == if k < i then Some(old(created) + k) else old(workers[k])
      {
        var slot := CreateWorkerThread();
        workers[i] := Some(slot);
        i := i + 1;
      }
    }

    /** The search of the slot table for one reported thread, which is replaced where it is found. */
    method RestartThread(p: nat)
      modifies this`created, workers
      ensures
        var i := B.FindSlot(old(workers[..]), p);
        if i < workers.Length
        then workers[..] == old(workers[..])[i := Some(old(created))] && created == old(created) + 1
        else workers[..] == old(workers[..]) && created == old(created)
    {
      ghost var slots := workers[..];
      var i := 0;
      assert slots[0..] == slots;
      while i < workers.Length
        invariant 0 <= i <= workers.Length && workers[..] == slots && created == old(created)
        invariant B.FindSlot(slots, p) == i + B.FindSlot(slots[i..], p)
      {
        assert slots[i..][0] == workers[i] && slots[i..][1..] == slots[i + 1..];
        if workers[i] == Some(p) {
          var id := CreateWorkerThread();
          workers[i] := Some(id);
          return;
        }
        i := i + 1;
      }
      assert slots[i..] == [];
    }

    /** The supervisor's loop over the exiting list, run with the job mutex held and no shutdown. */
    method Refill()
      modifies this`created, this`exiting, workers
      ensures exiting == [] && (workers[..], created) == Refilled(old(workers[..]), old(exiting), old(created))
    {
      while exiting != []
        invariant Refilled(workers[..], exiting, created) == Refilled(old(workers[..]), old(exiting), old(created))
        decreases |exiting|
      {
        var p := exiting[|exiting| - 1];
        exiting := exiting[..|exiting| - 1];
        RestartThread(p);
      }
    }
  }

  /** Each refill step of the machine is one round of that loop. */
  lemma RefillStepIsOneRound(s: B.State)
    requires B.Enabled(s, B.SRefill) && s.g.exiting != [] && !s.g.shutdown
    ensures
      var t := B.Apply(s, B.SRefill);
      && |t.g.exiting| == |s.g.exiting| - 1
      && Refilled(t.g.slots, t.g.exiting, |t.threads|) == Refilled(s.g.slots, s.g.exiting, |s.threads|)
  {
  }

  /** A slot's thread after a refill: a reported one is replaced, any other kept. */
  predicate SlotRefilled(before: Option<nat>, after: Option<nat>, exiting: seq<nat>, next: nat, next': nat) {
    if before.Some? && before.value in exiting then after.Some? && next <= after.value < next'
    else after == before
  }

  /**
   * When the slots hold different threads, older than the next one, and the reported threads are different
   * and all in the table, a refill starts one thread for each of them and puts it in that one's slot.
   */
  lemma {:induction false} RefillReplacesExactly(slots: seq<Option<nat>>, exiting: seq<nat>, next: nat)
    requires NoRepeats(exiting) && (forall p :: p in exiting ==> Some(p) in slots)
    requires forall i :: 0 <= i < |slots| && slots[i].Some? ==> slots[i].value < next
    requires forall i, j :: 0 <= i < j < |slots| && slots[i].Some? ==> slots[i] != slots[j]
    ensures var (after, next') := Refilled(slots, exiting, next);
      && next' == next + |exiting| && |after| == |slots|
      && (forall i :: 0 <= i < |slots| ==> SlotRefilled(slots[i], after[i], exiting, next, next'))
      && (forall i, j :: 0 <= i < j < |after| && after[i].Some? ==> after[i] != after[j])
    decreases |exiting|
  {
    if exiting != [] {
      var n := |exiting| - 1;
      var p, rest := exiting[n], exiting[..n];
      var f := B.FindSlot(slots, p);
      I.FoundSlot(slots, p);
      var slots' := slots[f := Some(next)];
      assert exiting == rest + [p];
      OneReplaced(slots, rest, p, next, f);
      RefillReplacesExactly(slots', rest, next + 1);
      var (after, next') := Refilled(slots', rest, next + 1);
      forall i | 0 <= i < |slots| ensures SlotRefilled(slots[i], after[i], exiting, next, next') {
        OneSlot(slots, rest, p, next, f, i, after[i], next');
      }
    }
  }

  /** The last thread on the list has been replaced: the others are still in the table. */
  lemma OneReplaced(slots: seq<Option<nat>>, rest: seq<nat>, p: nat, next: nat, f: nat)
    requires NoRepeats(rest + [p]) && f < |slots| && slots[f] == Some(p)
    requires forall q :: q in rest ==> Some(q) in slots
    requires forall i :: 0 <= i < |slots| && slots[i].Some? ==> slots[i].value < next
    ensures forall q :: q in rest ==> q < next && Some(q) in slots[f := Some(next)]
  {
    forall q | q in rest ensures q < next && Some(q) in slots[f := Some(next)] {
      var j :| 0 <= j < |rest| && rest[j] == q;
      assert (rest + [p])[j] == q && (rest + [p])[|rest|] == p;
      var i :| 0 <= i < |slots| && slots[i] == Some(q);
      assert slots[f := Some(next)][i] == Some(q);
    }
  }

  /** What the rest of the refill leaves in slot `i`, seen from before that replacement. */
  lemma OneSlot(
      slots: seq<Option<nat>>, rest: seq<nat>, p: nat, next: nat, f: nat, i: nat, after: Option<nat>, next': nat)
    requires f < |slots| && i < |slots| && slots[f] == Some(p) && next < next'
    requires forall k, l :: 0 <= k < l < |slots| && slots[k].Some? ==> slots[k] != slots[l]
    requires forall q :: q in rest ==> q < next
    requires SlotRefilled(slots[f := Some(next)][i], after, rest, next + 1, next')
    ensures SlotRefilled(slots[i], after, rest + [p], next, next')
  {
  }
}
