/** The shutdown of the worker bridge: its drain loop ends. */
module WorkerShutdown {
  import opened Prelude
  import opened WorkerBridge
  import opened WorkerInvariant
  import opened WorkerTheorems

  // ---- the drain loop terminates ----

  /** The thread may still push its descriptor once more. */
  const MAY_PUSH: TclThread -> bool :=
    (k: TclThread) => BeforePush(k) || (RUNNING(k) && k.keepGoing)

  function Waits(sh: ShutdownPc): int {
    match sh
    case Draining(waits, _) => waits
    case Dismissing(waits, _) => waits
    case _ => 0
  }

  /** The retries left, plus every descriptor that is or may still come on the queue. */
  function Measure(s: State): int {
    Waits(s.g.sh) + |s.g.queue| + Tally(s.threads, MAY_PUSH) + (s.g.toStart - Started(s.g))
  }

  /** What the writes `e` do to the number of possible pushes. */
  function Change(s: State, e: Effect): int {
    if e.worker.Some? && IsThread(s, e.worker.value.0)
    then Bit(MAY_PUSH(e.worker.value.1)) - Bit(MAY_PUSH(s.threads[e.worker.value.0]))
    else Bit(e.created.Some?)
  }

  /** The writes `e` come after shutdown and take at least `cost` off the measure. */
  predicate Lowers(s: State, e: Effect, cost: nat) {
    && e.g.shutdown
    && Waits(e.g.sh) + |e.g.queue| + (e.g.toStart - Started(e.g)) + Change(s, e) + cost
       <= Waits(s.g.sh) + |s.g.queue| + (s.g.toStart - Started(s.g))
  }

  lemma MeasureAfter(s: State, e: Effect, cost: nat)
    requires PoolMoves(s, e) && Lowers(s, e, cost)
    requires e.worker.Some? ==> IsThread(s, e.worker.value.0) && e.created.None?
    ensures Perform(s, e).g.shutdown && Measure(Perform(s, e)) + cost <= Measure(s)
  {
    if e.worker.Some? {
      TallyUpdate(s.threads, e.worker.value.0, e.worker.value.1, MAY_PUSH);
    } else if e.created.Some? {
      TallyAppend(s.threads, NEW_THREAD, MAY_PUSH);
    }
  }

  lemma BootLowers(s: State, a: Step)
    requires IsBootStep(a) && ThreadReady(s, a) && s.g.shutdown
    ensures Lowers(s, ThreadEffect(s, a), 0)
  {
  }

  /** A push uses up one possible push, unless it is not the last. */
  lemma ServiceLowers(s: State, a: Step)
    requires IsServiceStep(a) && ThreadReady(s, a) && s.g.shutdown && Fits(s, a.w, s.threads[a.w])
    ensures Lowers(s, ThreadEffect(s, a), 0)
  {
  }

  lemma HandlerLowers(s: State, a: Step)
    requires IsHandlerStep(a) && HandlerReady(s, a) && s.g.shutdown
    ensures Lowers(s, HandlerEffect(s, a), 0)
  {
  }

  lemma SupervisorLowers(s: State, a: Step)
    requires IsSupervisorStep(a) && SupervisorReady(s, a) && s.g.shutdown && SlotsOk(s)
    ensures Lowers(s, SupervisorEffect(s, a), 0)
  {
  }

  /** Every try to pop takes a descriptor off the queue or uses up one of the retries. */
  lemma ShutdownLowers(s: State, a: Step)
    requires IsShutdownStep(a) && ShutdownReady(s, a) && s.g.shutdown && ControlOk(s)
    ensures Lowers(s, ShutdownEffect(s, a), Bit(a.KTryPop?))
  {
  }

  lemma StepLowers(s: State, a: Step)
    requires Enabled(s, a) && s.g.shutdown && ControlOk(s) && SlotsOk(s)
    requires IsThreadStep(a) ==> Fits(s, a.w, s.threads[a.w])
    ensures Lowers(s, EffectOf(s, a), Bit(a.KTryPop?))
  {
    if IsHandlerStep(a) {
      HandlerLowers(s, a);
    } else if IsSupervisorStep(a) {
      SupervisorLowers(s, a);
    } else if IsShutdownStep(a) {
      ShutdownLowers(s, a);
    } else if IsBootStep(a) {
      BootLowers(s, a);
    } else if !a.Arrive? {
      ServiceLowers(s, a);
    }
  }

  /** After shutdown no step of any thread raises the measure, and every try to pop lowers it. */
  lemma MeasureDecreases(s: State, a: Step)
    requires Inv(s) && Enabled(s, a) && s.g.shutdown
    ensures Apply(s, a).g.shutdown
    ensures Measure(Apply(s, a)) + Bit(a.KTryPop?) <= Measure(s)
  {
    StepEffectOk(s, a);
    assert IsThreadStep(a) ==> ThreadOk(s, a.w);
    StepLowers(s, a);
    MeasureAfter(s, EffectOf(s, a), Bit(a.KTryPop?));
  }

  lemma NeverNegative(tr: seq<State>, steps: seq<Step>, i: nat)
    requires IsRun(tr, steps) && i < |tr|
    ensures 0 <= Measure(tr[i])
  {
    RunInv(tr, steps, i);
  }

  lemma DrainGoesOn(tr: seq<State>, steps: seq<Step>, i: nat)
    requires IsRun(tr, steps) && i < |steps| && tr[i].g.shutdown
    ensures tr[i + 1].g.shutdown && Measure(tr[i + 1]) + Bit(steps[i].KTryPop?) <= Measure(tr[i])
  {
    RunInv(tr, steps, i);
    MeasureDecreases(tr[i], steps[i]);
  }

  lemma PopsOfOneMore(steps: seq<Step>, i: nat, j: nat)
    requires i < j <= |steps|
    ensures Pops(steps[i..j]) == Pops(steps[i..j - 1]) + Bit(steps[j - 1].KTryPop?)
  {
    assert steps[i..j][..j - 1 - i] == steps[i..j - 1];
  }

  function Pops(steps: seq<Step>): nat {
    if steps == [] then 0 else Pops(steps[..|steps| - 1]) + Bit(steps[|steps| - 1].KTryPop?)
  }

  /**
  The drain loop of `WorkerBridge_Shutdown` ends whatever the other threads do: from any
  moment after shutdown it goes round at most `Measure` times, because a thread pushes
  its descriptor at most once more.
  */
  lemma {:induction false} DrainTerminates(tr: seq<State>, steps: seq<Step>, i: nat, j: nat)
    requires IsRun(tr, steps) && i <= j < |tr| && tr[i].g.shutdown
    ensures tr[j].g.shutdown && 0 <= Measure(tr[j])
    ensures Pops(steps[i..j]) + Measure(tr[j]) <= Measure(tr[i])
  {
    NeverNegative(tr, steps, j);
    if i < j {
      DrainTerminates(tr, steps, i, j - 1);
      DrainGoesOn(tr, steps, j - 1);
      PopsOfOneMore(steps, i, j);
    }
  }

  lemma SomePick(waiters: set<Thread>) returns (t: Thread)
    ensures SignalPicks(waiters, t)
  {
    if waiters == {} { t := Finalizer; } else { t :| t in waiters; }
  }

  /** The loop never blocks for good: the thread whose mutex it needs is on its way into `cond_wait`. */
  lemma DrainCanStep(tr: seq<State>, steps: seq<Step>, i: nat)
    requires IsRun(tr, steps) && i < |tr|
    ensures tr[i].g.sh.Draining? ==> Enabled(tr[i], KTryPop)
    ensures tr[i].g.sh.Dismissing? ==>
              IsThread(tr[i], tr[i].g.sh.w)
              && ((exists t :: Enabled(tr[i], KDismiss(t))) || Enabled(tr[i], WTest(tr[i].g.sh.w)))
  {
    RunInv(tr, steps, i);
    if tr[i].g.sh.Dismissing? {
      var k := tr[i].threads[tr[i].g.sh.w];
      assert ThreadOk(tr[i], tr[i].g.sh.w);
      if !k.locked {
        var t := SomePick(k.waiters);
        assert Enabled(tr[i], KDismiss(t));
      }
    }
  }
}
