/** What one step does to a request of the worker bridge that is not answered yet. */
module WorkerProgress {
  import opened Prelude
  import opened WorkerBridge
  import opened WorkerInvariant
  import opened WorkerTheorems

  predicate Pending(s: State, h: nat)
    requires h < |s.handlers|
  {
    !s.handlers[h].pc.Returned? && !s.handlers[h].pc.Refused?
  }

  /** Past the shutdown test, but content generation has not begun for it and the flag is set. */
  predicate Abandoned(s: State, h: nat)
    requires h < |s.handlers|
  {
    && s.g.shutdown
    && match s.handlers[h].pc
       case Popping => true
       case Claimed(_) => true
       case Waiting(w) => w < |s.threads| && s.threads[w].status == Init
       case _ => false
  }

  // ---- a request that holds a thread ----

  /** Handler `h` holds the thread at `w`, and the descriptor says so. */
  predicate Owns(s: State, h: nat, w: nat) {
    IsHandler(s, h) && IsThread(s, w) && HasThread(s.handlers[h].pc, w) && s.threads[w].owner == HeldBy(h)
  }

  predicate Held(s: State, h: nat, w: nat) { Owns(s, h, w) && Fits(s, w, s.threads[w]) }

  lemma HoldersHold(s: State, h: nat, w: nat)
    requires Inv(s) && h < |s.handlers| && HasThread(s.handlers[h].pc, w)
    ensures Held(s, h, w)
  {
    assert HandlerOk(s, h) && ThreadOk(s, w);
  }

  predicate TakenByHandler(a: Step, h: nat) { IsHandlerStep(a) && a.h == h }

  predicate TakenByThread(a: Step, w: nat) { IsServiceStep(a) && !a.Spurious? && a.w == w }

  /** Step `a` is taken by handler `h` or by thread `w`. */
  predicate TakenBy(a: Step, h: nat, w: nat) { TakenByHandler(a, h) || TakenByThread(a, w) }

  // ---- what the steps of others leave alone ----

  /** Step `a` is taken neither by handler `h` nor on the descriptor `w`. */
  predicate Elsewhere(a: Step, h: nat, w: nat) { !TakenByHandler(a, h) && (IsThreadStep(a) ==> a.w != w) }

  /** The writes `e` leave out request `h` and descriptor `w`. */
  predicate Spares(e: Effect, h: nat, w: nat) { (e.handler.Some? ==> e.handler.value.0 != h) && !Targets(e, w) }

  lemma SparedStays(s: State, e: Effect, h: nat, w: nat)
    requires h < |s.handlers| && w < |s.threads| && Spares(e, h, w)
    ensures h < |Perform(s, e).handlers| && Perform(s, e).handlers[h] == s.handlers[h]
    ensures w < |Perform(s, e).threads| && Perform(s, e).threads[w] == s.threads[w]
  {
  }

  lemma OtherHandlersSpare(s: State, a: Step, h: nat, w: nat)
    requires IsHandlerStep(a) && HandlerReady(s, a) && a.h != h && HandlerOk(s, a.h) && QueueOk(s)
    requires w < |s.threads| && s.threads[w].owner == HeldBy(h)
    ensures Spares(HandlerEffect(s, a), h, w)
  {
  }

  lemma OtherThreadsSpare(s: State, a: Step, h: nat, w: nat)
    requires IsThreadStep(a) && ThreadReady(s, a) && a.w != w && Fits(s, a.w, s.threads[a.w])
    requires h < |s.handlers| && HasThread(s.handlers[h].pc, w)
    ensures Spares(ThreadEffect(s, a), h, w)
  {
  }

  lemma ShutdownSpares(s: State, a: Step, h: nat, w: nat)
    requires IsShutdownStep(a) && ShutdownReady(s, a) && QueueOk(s) && ControlOk(s)
    requires w < |s.threads| && s.threads[w].owner == HeldBy(h)
    ensures Spares(ShutdownEffect(s, a), h, w)
  {
  }

  lemma OthersSpare(s: State, a: Step, h: nat, w: nat)
    requires Enabled(s, a) && Owns(s, h, w) && Elsewhere(a, h, w) && QueueOk(s) && ControlOk(s)
    requires IsHandlerStep(a) ==> HandlerOk(s, a.h)
    requires IsThreadStep(a) ==> Fits(s, a.w, s.threads[a.w])
    ensures Spares(EffectOf(s, a), h, w)
  {
    if IsHandlerStep(a) {
      OtherHandlersSpare(s, a, h, w);
    } else if IsShutdownStep(a) {
      ShutdownSpares(s, a, h, w);
    } else if IsThreadStep(a) {
      OtherThreadsSpare(s, a, h, w);
    }
  }

  /** Nobody but its holder and the thread itself writes to a held descriptor and to the request that holds it. */
  lemma HeldThreadIsLeftAlone(s: State, a: Step, h: nat, w: nat)
    requires Inv(s) && Enabled(s, a) && Owns(s, h, w) && Elsewhere(a, h, w)
    ensures Spares(EffectOf(s, a), h, w)
  {
    assert IsHandlerStep(a) ==> HandlerOk(s, a.h);
    assert IsThreadStep(a) ==> ThreadOk(s, a.w);
    OthersSpare(s, a, h, w);
  }

  /** A thread in the hands of a request that is not abandoned neither starts nor exits. */
  lemma HeldThreadIsInItsLoop(s: State, a: Step, h: nat, w: nat)
    requires Held(s, h, w) && !Abandoned(s, h) && IsBootStep(a) && a.w == w
    ensures !ThreadReady(s, a)
  {
  }

  /** A step of others leaves a held request and its thread as they are. */
  lemma OthersLeaveItAlone(s: State, a: Step, h: nat, w: nat)
    requires Inv(s) && Enabled(s, a) && h < |s.handlers| && HasThread(s.handlers[h].pc, w) && !Abandoned(s, h)
    requires !TakenBy(a, h, w) && (a.Spurious? ==> a.w != w)
    ensures h < |Apply(s, a).handlers| && Apply(s, a).handlers[h] == s.handlers[h]
    ensures w < |s.threads| && w < |Apply(s, a).threads| && Apply(s, a).threads[w] == s.threads[w]
  {
    HoldersHold(s, h, w);
    if IsBootStep(a) && a.w == w {
      HeldThreadIsInItsLoop(s, a, h, w);
      assert false;
    }
    HeldThreadIsLeftAlone(s, a, h, w);
    SparedStays(s, EffectOf(s, a), h, w);
  }

  // ---- a bound on the work a held request needs ----

  function ThreadRank(k: TclThread, w: nat): nat {
    match k.pc
    case JobTest => if k.status == Init then 6 else 4
    case AwaitJob => if Worker(w) !in k.waiters then 7 else 3
    case Serving => 5
    case AwaitTaken => if Worker(w) in k.waiters then 1 else 2
    case _ => 0
  }

  function HeldRank(k: TclThread, h: nat, w: nat, pc: HandlerPc): nat {
    if pc.Claimed? then 20 + ThreadRank(k, w) else 1 + ThreadRank(k, w) + Bit(Handler(h) !in k.waiters)
  }

  /** Steps a request may still need from its handler and from the thread in its hands. */
  function Rank(s: State, h: nat): nat
    requires h < |s.handlers|
  {
    var pc := s.handlers[h].pc;
    if (pc.Claimed? || pc.Waiting?) && pc.w < |s.threads| then HeldRank(s.threads[pc.w], h, pc.w, pc) else 0
  }

  /**
  Each step of the handler or of the thread it holds brings the request strictly closer
  to its answer, and a request needs at most 28 of them.
  */
  lemma OwnStepsDecrease(s: State, a: Step, h: nat, w: nat)
    requires Inv(s) && Enabled(s, a) && h < |s.handlers| && HasThread(s.handlers[h].pc, w) && !Abandoned(s, h)
    requires TakenBy(a, h, w)
    ensures h < |Apply(s, a).handlers| && Rank(Apply(s, a), h) < Rank(s, h) <= 28
  {
    HoldersHold(s, h, w);
    if TakenByHandler(a, h) {
      HandlerStepsDecrease(s, a, h, w);
    } else {
      ThreadStepsDecrease(s, a, h, w);
    }
  }

  lemma HandlerStepsDecrease(s: State, a: Step, h: nat, w: nat)
    requires Held(s, h, w) && !Abandoned(s, h) && TakenByHandler(a, h) && HandlerReady(s, a)
    ensures var s' := Perform(s, HandlerEffect(s, a)); h < |s'.handlers| && Rank(s', h) < Rank(s, h) <= 28
  {
  }

  lemma ThreadStepsDecrease(s: State, a: Step, h: nat, w: nat)
    requires Held(s, h, w) && !Abandoned(s, h) && TakenByThread(a, w) && ThreadReady(s, a)
    ensures var s' := Perform(s, ThreadEffect(s, a)); h < |s'.handlers| && Rank(s', h) < Rank(s, h) <= 28
  {
  }

  /** Steps of all others, spurious wakeups on its thread apart, do not set such a request back. */
  lemma OtherStepsKeepRank(s: State, a: Step, h: nat, w: nat)
    requires Inv(s) && Enabled(s, a) && h < |s.handlers| && HasThread(s.handlers[h].pc, w) && !Abandoned(s, h)
    requires !TakenBy(a, h, w) && (a.Spurious? ==> a.w != w)
    ensures h < |Apply(s, a).handlers| && Rank(Apply(s, a), h) == Rank(s, h)
  {
    OthersLeaveItAlone(s, a, h, w);
  }

  /** A spurious wakeup costs at most four further steps. */
  lemma SpuriousCostsFour(s: State, h: nat, w: nat, t: Thread)
    requires Inv(s) && h < |s.handlers| && HasThread(s.handlers[h].pc, w) && Enabled(s, Spurious(w, t))
    ensures var s' := Apply(s, Spurious(w, t));
      h < |s'.handlers| && Rank(s', h) <= Rank(s, h) + 4
  {
    HoldersHold(s, h, w);
  }

  // ---- requests that stay unanswered ----

  lemma ShutdownStays(s: State, a: Step)
    requires Enabled(s, a) && s.g.shutdown
    ensures Apply(s, a).g.shutdown
  {
  }

  /** The record of a request is written by its handler and by the thread that serves it. */
  lemma RecordWriter(s: State, a: Step, h: nat)
    requires Enabled(s, a) && EffectOf(s, a).handler.Some? && EffectOf(s, a).handler.value.0 == h
    ensures TakenByHandler(a, h) || (a.WFinish? && s.threads[a.w].serving == Some(h))
  {
  }

  /** The thread serves a request that waits on it. */
  lemma ServedIsWaiting(s: State, a: Step, h: nat)
    requires Inv(s) && Enabled(s, a) && a.WFinish? && s.threads[a.w].serving == Some(h)
    ensures h < |s.handlers| && s.handlers[h].pc == Waiting(a.w)
  {
    assert ThreadOk(s, a.w);
  }

  lemma RecordStays(s: State, e: Effect, h: nat)
    requires h < |s.handlers| && (e.handler.Some? ==> e.handler.value.0 != h)
    ensures h < |Perform(s, e).handlers| && Perform(s, e).handlers[h] == s.handlers[h]
  {
  }

  /** Steps of others leave a popping handler popping. */
  lemma PoppingStays(s: State, a: Step, h: nat)
    requires Inv(s) && Enabled(s, a) && h < |s.handlers| && s.handlers[h].pc == Popping && a != HPop(h)
    ensures h < |Apply(s, a).handlers| && Apply(s, a).handlers[h].pc == Popping
  {
    PoppingIsLeftAlone(s, a, h);
    RecordStays(s, EffectOf(s, a), h);
  }

  lemma PoppingIsLeftAlone(s: State, a: Step, h: nat)
    requires Inv(s) && Enabled(s, a) && h < |s.handlers| && s.handlers[h].pc == Popping && a != HPop(h)
    ensures EffectOf(s, a).handler.Some? ==> EffectOf(s, a).handler.value.0 != h
  {
    var e := EffectOf(s, a);
    if e.handler.Some? && e.handler.value.0 == h {
      RecordWriter(s, a, h);
      if a.WFinish? { ServedIsWaiting(s, a, h); }
    }
  }

  lemma PopClaims(s: State, h: nat)
    requires Enabled(s, HPop(h))
    ensures h < |Apply(s, HPop(h)).handlers| && Apply(s, HPop(h)).handlers[h].pc.Claimed?
  {
  }

  /** After shutdown a request without a thread finds none that would serve it. */
  lemma AbandonedPopping(s: State, a: Step, h: nat)
    requires Inv(s) && Enabled(s, a) && h < |s.handlers| && s.handlers[h].pc == Popping && s.g.shutdown
    ensures h < |Apply(s, a).handlers| && Abandoned(Apply(s, a), h)
  {
    ShutdownStays(s, a);
    if a == HPop(h) { PopClaims(s, h); } else { PoppingStays(s, a, h); }
  }

  /** A handler that comes after shutdown hands its request over to a thread that will not serve it, or waits on. */
  lemma AbandonedByItsHandler(s: State, a: Step, h: nat, w: nat)
    requires Held(s, h, w) && Abandoned(s, h) && TakenByHandler(a, h) && HandlerReady(s, a)
    ensures h < |Perform(s, HandlerEffect(s, a)).handlers| && Abandoned(Perform(s, HandlerEffect(s, a)), h)
  {
  }

  /** The thread sees the flag before it serves. */
  lemma AbandonedByItsThread(s: State, a: Step, h: nat, w: nat)
    requires Held(s, h, w) && Abandoned(s, h) && TakenByThread(a, w) && ThreadReady(s, a)
    ensures h < |Perform(s, ThreadEffect(s, a)).handlers| && Abandoned(Perform(s, ThreadEffect(s, a)), h)
  {
  }

  /** A wakeup and the steps outside the service loop are no service. */
  lemma StatusStays(s: State, a: Step, h: nat)
    requires (IsBootStep(a) || a.Spurious?) && ThreadReady(s, a) && h < |s.handlers|
    ensures var s' := Perform(s, ThreadEffect(s, a));
      && h < |s'.handlers| && s'.handlers[h] == s.handlers[h]
      && a.w < |s'.threads| && s'.threads[a.w].status == s.threads[a.w].status
  {
  }

  lemma AbandonedHeld(s: State, a: Step, h: nat, w: nat)
    requires Inv(s) && Enabled(s, a) && h < |s.handlers| && HasThread(s.handlers[h].pc, w) && Abandoned(s, h)
    ensures h < |Apply(s, a).handlers| && Abandoned(Apply(s, a), h)
  {
    HoldersHold(s, h, w);
    if TakenBy(a, h, w) {
      AbandonedByItsOwn(s, a, h, w);
    } else {
      ShutdownStays(s, a);
      UnservedStays(s, a, h, w);
    }
  }

  lemma AbandonedByItsOwn(s: State, a: Step, h: nat, w: nat)
    requires Enabled(s, a) && Held(s, h, w) && Abandoned(s, h) && TakenBy(a, h, w)
    ensures h < |Apply(s, a).handlers| && Abandoned(Apply(s, a), h)
  {
    if TakenByHandler(a, h) {
      AbandonedByItsHandler(s, a, h, w);
    } else {
      AbandonedByItsThread(s, a, h, w);
    }
  }

  /** Others do not serve it either. */
  lemma UnservedStays(s: State, a: Step, h: nat, w: nat)
    requires Inv(s) && Enabled(s, a) && Owns(s, h, w) && !TakenBy(a, h, w)
    ensures h < |Apply(s, a).handlers| && Apply(s, a).handlers[h] == s.handlers[h]
    ensures w < |Apply(s, a).threads| && Apply(s, a).threads[w].status == s.threads[w].status
  {
    if IsThreadStep(a) && a.w == w {
      StatusStays(s, a, h);
    } else {
      HeldThreadIsLeftAlone(s, a, h, w);
      SparedStays(s, EffectOf(s, a), h, w);
    }
  }

  lemma AbandonedForever(s: State, a: Step, h: nat)
    requires Inv(s) && Enabled(s, a) && h < |s.handlers| && Abandoned(s, h)
    ensures h < |Apply(s, a).handlers| && Abandoned(Apply(s, a), h)
  {
    match s.handlers[h].pc
    case Popping => AbandonedPopping(s, a, h);
    case Claimed(w) => AbandonedHeld(s, a, h, w);
    case Waiting(w) => AbandonedHeld(s, a, h, w);
  }

  // ---- over a whole run ----

  function ThreadInHand(s: State, h: nat): nat
    requires h < |s.handlers|
  {
    if s.handlers[h].pc.Claimed? || s.handlers[h].pc.Waiting? then s.handlers[h].pc.w else |s.threads|
  }

  /** Step `i` is taken by the handler of request `h` or by the thread in its hands. */
  function OwnStep(tr: seq<State>, steps: seq<Step>, h: nat): nat -> bool {
    (i: nat) => i < |steps| && i < |tr| && h < |tr[i].handlers| && TakenBy(steps[i], h, ThreadInHand(tr[i], h))
  }

  /** Step `i` is a spurious wakeup on the thread in the hands of handler `h`. */
  function Rousing(tr: seq<State>, steps: seq<Step>, h: nat): nat -> bool {
    (i: nat) => i < |steps| && i < |tr| && h < |tr[i].handlers|
      && steps[i].Spurious? && steps[i].w == ThreadInHand(tr[i], h)
  }

  /** Holds a thread that shutdown has not kept from serving it. */
  predicate Open(s: State, h: nat) {
    h < |s.handlers| && (s.handlers[h].pc.Claimed? || s.handlers[h].pc.Waiting?) && !Abandoned(s, h)
  }

  function OpenAt(tr: seq<State>, h: nat): nat -> bool { (i: nat) => i < |tr| && Open(tr[i], h) }

  function RankAt(tr: seq<State>, h: nat): nat -> nat {
    (i: nat) => if i < |tr| && h < |tr[i].handlers| then Rank(tr[i], h) else 0
  }

  /** What one step brings and costs a request that holds a thread. */
  lemma RankAfter(s: State, a: Step, h: nat)
    requires Inv(s) && Enabled(s, a) && Open(s, h)
    ensures h < |Apply(s, a).handlers|
    ensures Bit(TakenBy(a, h, ThreadInHand(s, h))) + Rank(Apply(s, a), h)
      <= Rank(s, h) + 4 * Bit(a.Spurious? && a.w == ThreadInHand(s, h))
  {
    var w := ThreadInHand(s, h);
    if TakenBy(a, h, w) {
      OwnStepsDecrease(s, a, h, w);
    } else if a.Spurious? && a.w == w {
      SpuriousCostsFour(s, h, w, a.t);
    } else {
      OtherStepsKeepRank(s, a, h, w);
    }
  }

  lemma {:induction false} StillThere(tr: seq<State>, steps: seq<Step>, i: nat, j: nat, h: nat)
    requires IsRun(tr, steps) && i <= j < |tr| && h < |tr[i].handlers|
    ensures h < |tr[j].handlers|
    decreases j - i
  {
    if i < j {
      StillThere(tr, steps, i + 1, j, h);
    }
  }

  /**
  In any run, as long as a request holds a thread that shutdown has not kept from serving it,
  it costs its handler and its thread at most 28 steps, and four more for each spurious wakeup.
  */
  lemma WorkIsBounded(tr: seq<State>, steps: seq<Step>, i: nat, j: nat, h: nat)
    requires IsRun(tr, steps) && i <= j < |tr| && Open(tr[i], h) && Open(tr[j], h)
    requires forall k :: i <= k <= j ==> Open(tr[k], h)
    ensures CountIf(OwnStep(tr, steps, h), i, j) + Rank(tr[j], h)
      <= Rank(tr[i], h) + 4 * CountIf(Rousing(tr, steps, h), i, j)
    ensures Rank(tr[i], h) <= 28
  {
    forall k: nat | i <= k < j && OpenAt(tr, h)(k + 1)
      ensures OpenAt(tr, h)(k) && Bit(OwnStep(tr, steps, h)(k)) + RankAt(tr, h)(k + 1)
        <= RankAt(tr, h)(k) + 4 * Bit(Rousing(tr, steps, h)(k))
    {
      assert Open(tr[k], h);
      RunInv(tr, steps, k);
      RankAfter(tr[k], steps[k], h);
    }
    RankBudget(OpenAt(tr, h), OwnStep(tr, steps, h), Rousing(tr, steps, h), RankAt(tr, h), i, j);
    RankIsSmall(tr[i], h);
  }

  lemma RankIsSmall(s: State, h: nat)
    requires h < |s.handlers|
    ensures Rank(s, h) <= 28
  {
  }
}
