/** What the shutdown of the worker bridge achieves: when its drain loop ends, and for whom it has been the end. */
module WorkerDrain {
  import opened Prelude
  import opened WorkerBridge
  import opened WorkerInvariant
  import opened WorkerTheorems
  import opened WorkerAnswers

  // ---- the history of a run ----

  /** Step `i` tried to pop and found the queue empty. */
  function FoundEmpty(tr: seq<State>, steps: seq<Step>): nat -> bool {
    (i: nat) => i < |steps| && i < |tr| && steps[i].KTryPop? && tr[i].g.queue == []
  }

  /** How many tries before moment `j` found the queue empty. */
  function EmptyTries(tr: seq<State>, steps: seq<Step>, j: nat): nat { CountIf(FoundEmpty(tr, steps), 0, j) }

  /** The number of threads the shutdown thread read last before moment `j`, which it does after each dismissal. */
  function LastRead(tr: seq<State>, steps: seq<Step>, j: nat): int
    requires |tr| == |steps| + 1 && j <= |steps|
  {
    if j == 0 then 0
    else if steps[j - 1].KDismiss? then tr[j - 1].g.threadsCount
    else LastRead(tr, steps, j - 1)
  }

  /** Five tries were in vain, or no more threads are left than may be skipped. */
  predicate MayStop(tr: seq<State>, steps: seq<Step>, j: nat)
    requires |tr| == |steps| + 1 && j <= |steps|
  {
    EmptyTries(tr, steps, j) >= 5 || LastRead(tr, steps, j) <= tr[0].g.skip
  }

  // ---- what the shutdown thread knows of it ----

  /** After `empty` tries in vain, when `read` threads were read last. */
  predicate Remembers(g: Globals, empty: nat, read: int) {
    match g.sh
    case Draining(waits, threadsToStop) => waits == 5 - empty && threadsToStop == read
    case Dismissing(waits, _) => waits == 5 - empty
    case Drained => empty >= 5 || read <= g.skip
    case _ => empty == 0 && read == 0
  }

  predicate SameDrain(s: State, e: Effect) { e.g.sh == s.g.sh && e.g.skip == s.g.skip }

  lemma ThreadsDoNotDrain(s: State, a: Step)
    requires IsThreadStep(a) && ThreadReady(s, a)
    ensures SameDrain(s, ThreadEffect(s, a))
  {
  }

  lemma OthersDoNotDrain(s: State, a: Step)
    requires Enabled(s, a) && !IsShutdownStep(a)
    ensures SameDrain(s, EffectOf(s, a))
  {
    if IsThreadStep(a) { ThreadsDoNotDrain(s, a); }
  }

  lemma DrainStep(s: State, a: Step, empty: nat, read: int)
    requires IsShutdownStep(a) && ShutdownReady(s, a) && Remembers(s.g, empty, read)
    ensures var e := ShutdownEffect(s, a);
      && e.g.skip == s.g.skip
      && Remembers(e.g, empty + Bit(a.KTryPop? && s.g.queue == []), if a.KDismiss? then s.g.threadsCount else read)
  {
  }

  lemma {:induction false} AlwaysRemembers(tr: seq<State>, steps: seq<Step>, j: nat)
    requires IsRun(tr, steps) && j < |tr|
    ensures tr[j].g.skip == tr[0].g.skip
    ensures Remembers(tr[j].g, EmptyTries(tr, steps, j), LastRead(tr, steps, j))
  {
    if j > 0 {
      var s, a := tr[j - 1], steps[j - 1];
      AlwaysRemembers(tr, steps, j - 1);
      if IsShutdownStep(a) {
        DrainStep(s, a, EmptyTries(tr, steps, j - 1), LastRead(tr, steps, j - 1));
      } else {
        OthersDoNotDrain(s, a);
      }
    }
  }

  // ---- when the loop ends ----

  /** The shutdown thread is through only after five tries in vain or with no more threads left than may be skipped. */
  lemma DrainedMayStop(tr: seq<State>, steps: seq<Step>, j: nat)
    requires IsRun(tr, steps) && j < |tr| && tr[j].g.sh.Drained?
    ensures MayStop(tr, steps, j)
  {
    AlwaysRemembers(tr, steps, j);
  }

  /**
  At the end of every round, after a try in vain or a dismissal, the loop ends exactly when it may;
  otherwise it tries again.
  */
  lemma RoundEndsExactly(tr: seq<State>, steps: seq<Step>, j: nat)
    requires IsRun(tr, steps) && j < |steps|
    requires steps[j].KDismiss? || (steps[j].KTryPop? && tr[j].g.queue == [])
    ensures if MayStop(tr, steps, j + 1) then tr[j + 1].g.sh.Drained? else Enabled(tr[j + 1], KTryPop)
  {
    AlwaysRemembers(tr, steps, j);
    AlwaysRemembers(tr, steps, j + 1);
    RunInv(tr, steps, j + 1);
  }

  /** A try that finds descriptors takes the one that was pushed first, and is followed by its dismissal. */
  lemma PopTakesTheFirst(tr: seq<State>, steps: seq<Step>, j: nat)
    requires IsRun(tr, steps) && j < |steps| && steps[j].KTryPop? && tr[j].g.queue != []
    ensures tr[j + 1].g.sh.Dismissing? && [tr[j + 1].g.sh.w] + tr[j + 1].g.queue == tr[j].g.queue
  {
  }

  // ---- who has been dismissed ----

  /** The thread finds the flag set at its next job test, and nothing can make it wait there. */
  predicate ToldToLeave(k: TclThread) { k.status == Init && k.waiters == {} && (LooksForJob(k) || Left(k)) }

  lemma HandlersSpareDismissed(s: State, a: Step, w: nat)
    requires IsHandlerStep(a) && HandlerReady(s, a) && HandlerOk(s, a.h) && QueueOk(s)
    requires w < |s.threads| && s.threads[w].owner == Dismissed
    ensures !Targets(HandlerEffect(s, a), w)
  {
  }

  lemma ShutdownSparesDismissed(s: State, a: Step, w: nat)
    requires IsShutdownStep(a) && ShutdownReady(s, a) && QueueOk(s) && ControlOk(s)
    requires w < |s.threads| && s.threads[w].owner == Dismissed
    ensures !Targets(ShutdownEffect(s, a), w)
  {
  }

  lemma ThreadsKeepDismissed(s: State, a: Step, w: nat)
    requires IsThreadStep(a) && ThreadReady(s, a)
    requires w < |s.threads| && s.threads[w].owner == Dismissed && PcOk(s.threads[w]) && ToldToLeave(s.threads[w])
    ensures Targets(ThreadEffect(s, a), w) ==> ThreadEffect(s, a).worker.value.1.owner == Dismissed
  {
  }

  lemma DismissedStays(s: State, a: Step, w: nat)
    requires Enabled(s, a) && QueueOk(s) && ControlOk(s) && (IsHandlerStep(a) ==> HandlerOk(s, a.h))
    requires w < |s.threads| && s.threads[w].owner == Dismissed && ThreadOk(s, w)
    ensures w < |Apply(s, a).threads| && Apply(s, a).threads[w].owner == Dismissed
  {
    if IsHandlerStep(a) {
      HandlersSpareDismissed(s, a, w);
    } else if IsShutdownStep(a) {
      ShutdownSparesDismissed(s, a, w);
    } else if IsThreadStep(a) {
      ThreadsKeepDismissed(s, a, w);
    }
    OwnerAfter(s, EffectOf(s, a), w);
  }

  lemma OwnerAfter(s: State, e: Effect, w: nat)
    requires w < |s.threads| && s.threads[w].owner == Dismissed
    requires Targets(e, w) ==> e.worker.value.1.owner == Dismissed
    ensures w < |Perform(s, e).threads| && Perform(s, e).threads[w].owner == Dismissed
  {
  }

  lemma DismissalIsDone(s: State, a: Step)
    requires Enabled(s, a) && s.g.sh.Dismissing? && s.g.sh.w < |s.threads|
    ensures if a.KDismiss? then Apply(s, a).threads[s.g.sh.w].owner == Dismissed
            else Apply(s, a).g.sh == s.g.sh
  {
    if IsShutdownStep(a) {
    } else {
      OthersDoNotDrain(s, a);
    }
  }

  /** Being dismissed, or dismissed before. */
  predicate Popped(s: State, w: nat) {
    w < |s.threads| && (s.threads[w].owner == Dismissed || (s.g.sh.Dismissing? && s.g.sh.w == w))
  }

  lemma PoppedStays(s: State, a: Step, w: nat)
    requires Inv(s) && Enabled(s, a) && Popped(s, w)
    ensures Popped(Apply(s, a), w)
  {
    if s.threads[w].owner == Dismissed {
      assert ThreadOk(s, w) && (IsHandlerStep(a) ==> HandlerOk(s, a.h));
      DismissedStays(s, a, w);
    } else {
      DismissalIsDone(s, a);
      ThreadsRemain(s, EffectOf(s, a));
    }
  }

  lemma ThreadsRemain(s: State, e: Effect)
    ensures |s.threads| <= |Perform(s, e).threads|
  {
  }

  lemma PopBegins(s: State)
    requires Enabled(s, KTryPop) && s.g.queue != []
    ensures Popped(Apply(s, KTryPop), s.g.queue[0])
  {
  }

  lemma {:induction false} PoppedRemain(tr: seq<State>, steps: seq<Step>, i: nat, j: nat)
    requires IsRun(tr, steps) && i < j < |tr| && steps[i].KTryPop? && tr[i].g.queue != []
    ensures Popped(tr[j], tr[i].g.queue[0])
    decreases j
  {
    if i == j - 1 {
      PopBegins(tr[i]);
    } else {
      PoppedRemain(tr, steps, i, j - 1);
      RunInv(tr, steps, j - 1);
      PoppedStays(tr[j - 1], steps[j - 1], tr[i].g.queue[0]);
    }
  }

  /** Whoever has been popped is told to leave by the end of that round, and stays so. */
  lemma PoppedMustLeave(tr: seq<State>, steps: seq<Step>, i: nat, j: nat)
    requires IsRun(tr, steps) && i < j < |tr| && steps[i].KTryPop? && tr[i].g.queue != []
    ensures var w := tr[i].g.queue[0];
      && w < |tr[j].threads|
      && (ToldToLeave(tr[j].threads[w]) || (tr[j].g.sh.Dismissing? && tr[j].g.sh.w == w))
  {
    PoppedRemain(tr, steps, i, j);
    RunInv(tr, steps, j);
    assert ThreadOk(tr[j], tr[i].g.queue[0]);
  }

  /** When all threads have come to rest, whoever was popped is gone. */
  lemma PoppedAreGone(tr: seq<State>, steps: seq<Step>, i: nat, j: nat)
    requires IsRun(tr, steps) && i < j < |tr| && steps[i].KTryPop? && tr[i].g.queue != [] && Quiet(tr[j])
    ensures tr[i].g.queue[0] < |tr[j].threads| && tr[j].threads[tr[i].g.queue[0]].pc == Gone
  {
    var s, w := tr[j], tr[i].g.queue[0];
    RunInv(tr, steps, j);
    PoppedRemain(tr, steps, i, j);
    if s.g.jobLock.Some? {
      JobHolderIsNotQuiet(s);
    } else if s.g.sh.Dismissing? {
      DismissingIsNotQuiet(s);
    } else if s.threads[w].pc != Gone {
      LeavingIsNotQuiet(s, w);
    }
  }

  lemma JobHolderIsNotQuiet(s: State)
    requires Inv(s) && s.g.jobLock.Some?
    ensures !Quiet(s)
  {
    JobHolderNeverBlocks(s);
    assert !FromOutside(JobRelease(s));
  }

  lemma DismissingIsNotQuiet(s: State)
    requires Inv(s) && s.g.sh.Dismissing?
    ensures !Quiet(s)
  {
    var w := s.g.sh.w;
    assert ThreadOk(s, w);
    var k := s.threads[w];
    if k.locked {
      assert Enabled(s, WTest(w)) && !FromOutside(WTest(w));
    } else {
      var t := Pick(k.waiters);
      assert Enabled(s, KDismiss(t)) && !FromOutside(KDismiss(t));
    }
  }

  /** The next step of a thread on its way out. */
  function LeavingNext(pc: WorkerPc, w: nat): Step {
    match pc
    case JobTest => WTest(w)
    case AwaitJob => WWakeJob(w)
    case Exiting => WLockJob(w)
    case Reporting => WReport(w)
    case _ => WUncount(w)
  }

  lemma LeavingIsNotQuiet(s: State, w: nat)
    requires Inv(s) && s.g.jobLock == None && w < |s.threads| && s.threads[w].owner == Dismissed
    requires s.threads[w].pc != Gone
    ensures !Quiet(s)
  {
    assert ThreadOk(s, w);
    var a := LeavingNext(s.threads[w].pc, w);
    assert Enabled(s, a) && !FromOutside(a);
  }
}
