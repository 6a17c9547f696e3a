/**
Before shutdown the threads of the worker bridge do not keep each other from the queue: a
potential that the steps of threads, supervisor and served requests lower until one of the
threads pushes its descriptor.
*/
module WorkerPotential {
  import opened Prelude
  import opened WorkerBridge
  import opened WorkerInvariant
  import opened WorkerTheorems
  import opened WorkerProgress

  /** The handler of the request in the descriptor has been woken. */
  predicate Roused(k: TclThread) { k.r.Some? && Handler(k.r.value) !in k.waiters }

  /** How far the thread at `w` is from its next push, or from being replaced. */
  function Weight(k: TclThread, w: nat): nat {
    match k.pc
    case Booting => 20
    case Setup => 19
    case Counting => 18
    case Entering => 17
    case Pushing => 16
    case AwaitJob =>
      if k.status == Init then 154 + Bit(Roused(k)) else if Worker(w) in k.waiters then 157 else 159
    case JobTest => if k.status == Init then 152 + Bit(Roused(k)) else 158
    case Serving => 148 + Bit(Roused(k))
    case AwaitTaken => if k.status == Idle then 143 else if Worker(w) in k.waiters then 146 else 147
    case Served => 142
    case Exiting => 141
    case Reporting => 140
    case Uncounting => 1
    case Gone => 0
  }

  function Total(ts: seq<TclThread>): nat {
    if ts == [] then 0 else Total(ts[..|ts| - 1]) + Weight(ts[|ts| - 1], |ts| - 1)
  }

  lemma {:induction false} TotalUpdate(ts: seq<TclThread>, w: nat, k: TclThread)
    requires w < |ts|
    ensures Total(ts[w := k]) + Weight(ts[w], w) == Total(ts) + Weight(k, w)
  {
    var n := |ts| - 1;
    if w < n {
      TotalUpdate(ts[..n], w, k);
      assert ts[w := k][..n] == ts[..n][w := k];
    } else {
      assert ts[w := k][..n] == ts[..n];
    }
  }

  lemma TotalAppend(ts: seq<TclThread>, k: TclThread)
    ensures Total(ts + [k]) == Total(ts) + Weight(k, |ts|)
  {
    assert (ts + [k])[..|ts|] == ts;
  }

  /** What the supervisor still has to do before it waits. */
  function SupervisorWeight(g: Globals): int {
    var more := g.exiting != [];
    match g.sup
    case Starting(next) => 7 + 100 * (g.toStart - next)
    case AtLock => if more then 6 else 3
    case AtTest => if more then 5 else 1
    case InWait => if g.supWaits then 0 else if more then 6 else 2
    case Refilling => 4
    case Stopped => 0
  }

  function Potential(s: State): int {
    Total(s.threads) + 130 * |s.g.exiting| + SupervisorWeight(s.g)
  }

  lemma PotentialIsNatural(s: State)
    requires SlotsOk(s)
    ensures 0 <= Potential(s)
  {
  }

  /** The change of the potential by a write to one descriptor. */
  lemma AfterWrite(s: State, w: nat, k': TclThread, g': Globals, hs: seq<HandlerState>)
    requires w < |s.threads|
    ensures var s' := State(g', s.threads[w := k'], hs);
      Potential(s') - Potential(s) == Weight(k', w) - Weight(s.threads[w], w)
        + 130 * (|g'.exiting| - |s.g.exiting|) + SupervisorWeight(g') - SupervisorWeight(s.g)
  {
    TotalUpdate(s.threads, w, k');
  }

  /** The threads of the machine after a step, by its effect. */
  lemma WriteIs(s: State, a: Step, w: nat)
    requires Enabled(s, a) && w < |s.threads|
    requires EffectOf(s, a).worker.Some? && EffectOf(s, a).worker.value.0 == w && EffectOf(s, a).created.None?
    ensures Potential(Apply(s, a)) - Potential(s)
      == Weight(EffectOf(s, a).worker.value.1, w) - Weight(s.threads[w], w)
        + 130 * (|EffectOf(s, a).g.exiting| - |s.g.exiting|)
        + SupervisorWeight(EffectOf(s, a).g) - SupervisorWeight(s.g)
  {
    var e := EffectOf(s, a);
    AfterWrite(s, w, e.worker.value.1, e.g, Perform(s, e).handlers);
  }

  // ---- steps of a request that holds a thread ----

  lemma HandOffLowers(s: State, h: nat, t: Thread, w: nat)
    requires Enabled(s, HHandOff(h, t)) && s.handlers[h].pc == Claimed(w)
    requires Fits(s, w, s.threads[w]) && OnOffer(s.threads[w], w)
    ensures Potential(Apply(s, HHandOff(h, t))) < Potential(s)
  {
    WriteIs(s, HHandOff(h, t), w);
  }

  lemma HandlerWakeLowers(s: State, h: nat, t: Thread, w: nat)
    requires Enabled(s, HWake(h, t)) && s.handlers[h].pc == Waiting(w) && Held(s, h, w) && !s.g.shutdown
    ensures Potential(Apply(s, HWake(h, t))) < Potential(s)
  {
    WriteIs(s, HWake(h, t), w);
  }

  lemma TestLowers(s: State, w: nat)
    requires Enabled(s, WTest(w)) && Fits(s, w, s.threads[w]) && !s.g.shutdown
    ensures Potential(Apply(s, WTest(w))) < Potential(s)
  {
    WriteIs(s, WTest(w), w);
  }

  lemma WakeJobLowers(s: State, w: nat)
    requires Enabled(s, WWakeJob(w)) && Fits(s, w, s.threads[w])
    ensures Potential(Apply(s, WWakeJob(w))) < Potential(s)
  {
    WriteIs(s, WWakeJob(w), w);
  }

  lemma FinishLowers(s: State, w: nat, code: int, exits: bool, t: Thread)
    requires Enabled(s, WFinish(w, code, exits, t))
    ensures Potential(Apply(s, WFinish(w, code, exits, t))) < Potential(s)
  {
    WriteIs(s, WFinish(w, code, exits, t), w);
  }

  lemma WakeTakenLowers(s: State, w: nat)
    requires Enabled(s, WWakeTaken(w)) && Fits(s, w, s.threads[w])
    ensures Potential(Apply(s, WWakeTaken(w))) < Potential(s)
  {
    WriteIs(s, WWakeTaken(w), w);
  }

  lemma ServedLowers(s: State, w: nat)
    requires Enabled(s, WServed(w))
    ensures Potential(Apply(s, WServed(w))) < Potential(s)
  {
    WriteIs(s, WServed(w), w);
  }

  // ---- steps of threads that come and go ----

  lemma ComingLowers(s: State, a: Step)
    requires Enabled(s, a) && (a.WBoot? || a.WCount? || a.WEnter? || (a.WSetup? && a.ok))
    ensures Potential(Apply(s, a)) < Potential(s)
  {
    WriteIs(s, a, a.w);
  }

  lemma LockJobLowers(s: State, w: nat)
    requires Enabled(s, WLockJob(w))
    ensures Potential(Apply(s, WLockJob(w))) < Potential(s)
  {
    WriteIs(s, WLockJob(w), w);
  }

  lemma ReportLowers(s: State, w: nat)
    requires Enabled(s, WReport(w))
    ensures Potential(Apply(s, WReport(w))) < Potential(s)
  {
    WriteIs(s, WReport(w), w);
  }

  // ---- steps of the supervisor ----

  lemma StartLowers(s: State)
    requires Enabled(s, SStart)
    ensures Potential(Apply(s, SStart)) < Potential(s)
  {
    TotalAppend(s.threads, NEW_THREAD);
  }

  lemma SupervisorLowers(s: State, a: Step)
    requires Enabled(s, a) && (a == SLock || a == STest || a == SWake) && !s.g.shutdown
    ensures Potential(Apply(s, a)) < Potential(s)
  {
  }

  lemma RefillLowers(s: State)
    requires Enabled(s, SRefill) && !s.g.shutdown
    ensures Potential(Apply(s, SRefill)) < Potential(s)
  {
    TotalAppend(s.threads, NEW_THREAD);
  }
}
