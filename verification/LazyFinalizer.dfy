/** What the finalizer of the lazy bridge achieves: where it goes, when it ends, and whom it has told to leave. */
module LazyFinalizer {
  import opened Prelude
  import opened LazyBridge
  import opened LazyInvariant
  import opened LazyTheorems
  import opened LazyProgress
  import opened LazyContinuations
  import opened LazyAnswers

  // ---- the history of a run ----

  predicate AtHost(f: FinalizerPc, v: nat) {
    (f.Locking? || f.Reading? || f.Draining? || f.Retiring?) && f.idx == v
  }

  predicate PopsNothing(s: State, a: Step, v: nat) {
    a.FPop? && AtHost(s.fin, v) && v < |s.vhosts| && s.vhosts[v].idle == []
  }

  /** Step `i` finds the array of host `v` empty, which ends a round of popping. */
  function FoundEmpty(tr: seq<State>, steps: seq<Step>, v: nat): nat -> bool {
    (i: nat) => i < |steps| && i < |tr| && PopsNothing(tr[i], steps[i], v)
  }

  /** How many rounds of popping have ended for host `v` before moment `j`. */
  function Rounds(tr: seq<State>, steps: seq<Step>, v: nat, j: nat): nat { CountIf(FoundEmpty(tr, steps, v), 0, j) }

  /** No thread of host `v` is counted, or `v` is the finalizer's own server `c` and only its own thread is. */
  predicate NobodyLeft(s: State, c: nat, v: nat)
    requires v < |s.vhosts|
  {
    s.vhosts[v].threadsCount <= 0 || (v == c && s.vhosts[v].threadsCount == 1)
  }

  predicate ReadsCounter(s: State, a: Step, v: nat) {
    a.FRead? && AtHost(s.fin, v) && v < |s.vhosts| && s.vhosts[v].lock == Some(Finalizer)
  }

  /** Step `k` reads the counter of host `v` under its mutex and finds nobody left, or three rounds are over. */
  predicate Closes(tr: seq<State>, steps: seq<Step>, c: nat, v: nat, k: nat) {
    && k < |steps| && k < |tr| && ReadsCounter(tr[k], steps[k], v)
    && (NobodyLeft(tr[k], c, v) || Rounds(tr, steps, v, k) == 3)
  }

  /** Host `v` has been read for the last time, and no further round has followed. */
  ghost predicate Closed(tr: seq<State>, steps: seq<Step>, c: nat, v: nat, j: nat) {
    exists k: nat :: k < j && Closes(tr, steps, c, v, k) && Rounds(tr, steps, v, k) == Rounds(tr, steps, v, j)
  }

  // ---- what the finalizer knows of it ----

  /** Of host `v`, after `rounds` rounds and, if `closed`, after the last reading of its counter. */
  predicate Knows(f: FinalizerPc, c: nat, v: nat, rounds: nat, closed: bool) {
    match f
    case NotStarted => false
    case Finished => closed
    case Locking(conf, idx, tries) => conf == c && Passed(idx, v, rounds, closed) && (v == idx ==> tries == rounds <= 3)
    case Reading(conf, idx, tries) => conf == c && Passed(idx, v, rounds, closed) && (v == idx ==> tries == rounds <= 3)
    case Draining(conf, idx, tries) =>
      conf == c && Passed(idx, v, rounds, closed) && (v == idx ==> tries == rounds + 1 <= 3)
    case Retiring(conf, idx, tries, _) =>
      conf == c && Passed(idx, v, rounds, closed) && (v == idx ==> tries == rounds + 1 <= 3)
  }

  predicate Passed(idx: nat, v: nat, rounds: nat, closed: bool) {
    (v < idx ==> closed) && (v > idx ==> rounds == 0)
  }

  lemma FinalizerLearns(s: State, a: Step, c: nat, v: nat, rounds: nat, closed: bool)
    requires IsFinalizerStep(a) && !a.FStart? && FinalizerStepReady(s, a) && FinalizerOk(s) && v < |s.vhosts|
    requires Knows(s.fin, c, v, rounds, closed)
    ensures Knows(FinalizerEffect(s, a).fin, c, v, rounds + Bit(PopsNothing(s, a, v)),
                  (closed && !PopsNothing(s, a, v))
                  || (ReadsCounter(s, a, v) && (NobodyLeft(s, c, v) || rounds == 3)))
  {
  }

  lemma WorkersDoNotFinalize(s: State, a: Step)
    requires IsWorkerStep(a) && WorkerReady(s, a)
    ensures WorkerEffect(s, a).fin == s.fin
  {
  }

  lemma OthersDoNotFinalize(s: State, a: Step)
    requires Enabled(s, a) && !IsFinalizerStep(a)
    ensures EffectOf(s, a).fin == s.fin
  {
    if IsWorkerStep(a) { WorkersDoNotFinalize(s, a); }
  }

  lemma HostsRemain(s: State, e: Effect)
    ensures |Perform(s, e).vhosts| == |s.vhosts|
  {
  }

  lemma KnowsMore(s: State, a: Step, c: nat, v: nat, rounds: nat, closed: bool)
    requires Inv(s) && Enabled(s, a) && !a.FStart? && v < |s.vhosts| && Knows(s.fin, c, v, rounds, closed)
    ensures Knows(Apply(s, a).fin, c, v, rounds + Bit(PopsNothing(s, a, v)),
                  (closed && !PopsNothing(s, a, v))
                  || (ReadsCounter(s, a, v) && (NobodyLeft(s, c, v) || rounds == 3)))
  {
    if IsFinalizerStep(a) {
      FinalizerLearns(s, a, c, v, rounds, closed);
    } else {
      OthersDoNotFinalize(s, a);
    }
  }

  lemma ClosedGoesOn(tr: seq<State>, steps: seq<Step>, c: nat, v: nat, j: nat)
    requires |tr| == |steps| + 1 && j < |steps| && v < |tr[j].vhosts|
    requires (Closed(tr, steps, c, v, j) && !PopsNothing(tr[j], steps[j], v))
      || (ReadsCounter(tr[j], steps[j], v) && (NobodyLeft(tr[j], c, v) || Rounds(tr, steps, v, j) == 3))
    ensures Closed(tr, steps, c, v, j + 1)
  {
    if Closed(tr, steps, c, v, j) && !PopsNothing(tr[j], steps[j], v) {
      var k: nat :| k < j && Closes(tr, steps, c, v, k) && Rounds(tr, steps, v, k) == Rounds(tr, steps, v, j);
      assert Rounds(tr, steps, v, k) == Rounds(tr, steps, v, j + 1);
    } else {
      assert Closes(tr, steps, c, v, j) && Rounds(tr, steps, v, j) == Rounds(tr, steps, v, j + 1);
    }
  }

  lemma {:induction false} HostsAreFixed(tr: seq<State>, steps: seq<Step>, j: nat)
    requires IsRun(tr, steps) && j < |tr|
    ensures |tr[j].vhosts| == |tr[0].vhosts|
  {
    if j > 0 {
      HostsAreFixed(tr, steps, j - 1);
      HostsRemain(tr[j - 1], EffectOf(tr[j - 1], steps[j - 1]));
    }
  }

  lemma NotStartedBefore(s: State, a: Step)
    requires Enabled(s, a) && Apply(s, a).fin == NotStarted
    ensures s.fin == NotStarted && !a.FPop?
  {
    if !IsFinalizerStep(a) { OthersDoNotFinalize(s, a); }
  }

  /** Before the finalizer starts nothing is popped. */
  lemma {:induction false} NoRoundsYet(tr: seq<State>, steps: seq<Step>, v: nat, j: nat)
    requires IsRun(tr, steps) && j < |tr| && tr[j].fin == NotStarted
    ensures Rounds(tr, steps, v, j) == 0
  {
    if j > 0 {
      NotStartedBefore(tr[j - 1], steps[j - 1]);
      NoRoundsYet(tr, steps, v, j - 1);
    }
  }

  lemma LearnsAt(tr: seq<State>, steps: seq<Step>, c: nat, v: nat, j: nat)
    requires |tr| == |steps| + 1 && j < |steps| && v < |tr[j].vhosts|
    requires Knows(tr[j + 1].fin, c, v, Rounds(tr, steps, v, j) + Bit(PopsNothing(tr[j], steps[j], v)),
      (Closed(tr, steps, c, v, j) && !PopsNothing(tr[j], steps[j], v))
      || (ReadsCounter(tr[j], steps[j], v) && (NobodyLeft(tr[j], c, v) || Rounds(tr, steps, v, j) == 3)))
    ensures Knows(tr[j + 1].fin, c, v, Rounds(tr, steps, v, j + 1), Closed(tr, steps, c, v, j + 1))
  {
    if (Closed(tr, steps, c, v, j) && !PopsNothing(tr[j], steps[j], v))
       || (ReadsCounter(tr[j], steps[j], v) && (NobodyLeft(tr[j], c, v) || Rounds(tr, steps, v, j) == 3)) {
      ClosedGoesOn(tr, steps, c, v, j);
    }
  }

  ghost function KnowsAt(tr: seq<State>, steps: seq<Step>, c: nat, v: nat): nat -> bool {
    (j: nat) => j < |tr| && Knows(tr[j].fin, c, v, Rounds(tr, steps, v, j), Closed(tr, steps, c, v, j))
  }

  lemma StartKnows(tr: seq<State>, steps: seq<Step>, c: nat, v: nat, i: nat)
    requires IsRun(tr, steps) && i < |steps| && steps[i] == FStart(c)
    ensures KnowsAt(tr, steps, c, v)(i + 1)
  {
    NoRoundsYet(tr, steps, v, i);
  }

  lemma KnowsOn(tr: seq<State>, steps: seq<Step>, c: nat, v: nat, j: nat)
    requires IsRun(tr, steps) && j < |steps| && v < |tr[0].vhosts| && KnowsAt(tr, steps, c, v)(j)
    ensures KnowsAt(tr, steps, c, v)(j + 1)
  {
    RunInv(tr, steps, j);
    HostsAreFixed(tr, steps, j);
    KnowsMore(tr[j], steps[j], c, v, Rounds(tr, steps, v, j), Closed(tr, steps, c, v, j));
    LearnsAt(tr, steps, c, v, j);
  }

  lemma KnowsAllAlong(tr: seq<State>, steps: seq<Step>, c: nat, v: nat, i: nat, j: nat)
    requires IsRun(tr, steps) && i <= j < |tr| && v < |tr[0].vhosts|
    ensures forall k: nat :: i <= k < j && KnowsAt(tr, steps, c, v)(k) ==> KnowsAt(tr, steps, c, v)(k + 1)
  {
    forall k: nat | i <= k < j && KnowsAt(tr, steps, c, v)(k) ensures KnowsAt(tr, steps, c, v)(k + 1) {
      KnowsOn(tr, steps, c, v, k);
    }
  }

  lemma AlwaysKnows(tr: seq<State>, steps: seq<Step>, i: nat, c: nat, v: nat, j: nat)
    requires IsRun(tr, steps) && i < j < |tr| && steps[i] == FStart(c) && v < |tr[0].vhosts|
    ensures KnowsAt(tr, steps, c, v)(j)
  {
    StartKnows(tr, steps, c, v, i);
    KnowsAllAlong(tr, steps, c, v, i + 1, j);
    HoldsOn(KnowsAt(tr, steps, c, v), i + 1, j);
  }

  // ---- where it goes ----

  /**
  The finalizer reads a counter under the mutex of its host. It starts a round of popping there exactly when
  somebody is left and three rounds are not over yet; otherwise it goes to the next host, or is through after the last.
  */
  lemma ReadDecidesExactly(tr: seq<State>, steps: seq<Step>, i: nat, c: nat, j: nat, v: nat)
    requires IsRun(tr, steps) && i < j < |steps| && steps[i] == FStart(c) && steps[j].FRead? && AtHost(tr[j].fin, v)
    ensures v < |tr[j].vhosts| && tr[j].vhosts[v].lock == Some(Finalizer) && tr[j + 1].vhosts[v].lock == None
    ensures
      var f := tr[j + 1].fin;
      if Rounds(tr, steps, v, j) < 3 && !NobodyLeft(tr[j], c, v) then f.Draining? && AtHost(f, v)
      else if v + 1 < |tr[j].vhosts| then f.Locking? && AtHost(f, v + 1)
      else f == Finished
  {
    RunInv(tr, steps, j);
    HostsAreFixed(tr, steps, j);
    AlwaysKnows(tr, steps, i, c, v, j);
  }

  /**
  A round pops from the end until the array is empty, tells each popped worker to leave, and is followed
  by a reading.
  */
  lemma RoundPopsAll(tr: seq<State>, steps: seq<Step>, j: nat, v: nat)
    requires IsRun(tr, steps) && j < |steps| && AtHost(tr[j].fin, v) && v < |tr[j].vhosts|
    ensures steps[j].FPop? && tr[j].vhosts[v].idle == [] ==> tr[j + 1].fin.Locking? && AtHost(tr[j + 1].fin, v)
    ensures steps[j].FPop? && tr[j].vhosts[v].idle != [] ==>
      && tr[j + 1].fin.Retiring? && AtHost(tr[j + 1].fin, v)
      && tr[j + 1].vhosts[v].idle + [tr[j + 1].fin.w] == tr[j].vhosts[v].idle
    ensures steps[j].FRetire? ==>
      && tr[j + 1].fin.Draining? && AtHost(tr[j + 1].fin, v) && tr[j].fin.w < |tr[j + 1].workers|
      && tr[j + 1].workers[tr[j].fin.w].status == ThreadExit
      && Worker(tr[j].fin.w) !in tr[j + 1].workers[tr[j].fin.w].waiters
    ensures steps[j].FLock? ==> tr[j + 1].fin.Reading? && AtHost(tr[j + 1].fin, v)
  {
    RunInv(tr, steps, j);
    RunInv(tr, steps, j + 1);
    if steps[j].FRetire? {
      RetirementIsDone(tr[j], steps[j].t);
    }
  }

  lemma RetirementIsDone(s: State, t: Thread)
    requires Inv(s) && Enabled(s, FRetire(t))
    ensures var s' := Apply(s, FRetire(t));
      && s.fin.w < |s'.workers| && s'.workers[s.fin.w].owner == Retired && s'.workers[s.fin.w].status == ThreadExit
      && Worker(s.fin.w) !in s'.workers[s.fin.w].waiters
  {
    assert WorkerOk(s, s.fin.w);
  }

  /**
  When the finalizer is through, it has locked and read every host, and at the last reading nobody was left
  or the array had been found empty at the end of three rounds.
  */
  lemma FinishedMeansDone(tr: seq<State>, steps: seq<Step>, i: nat, c: nat, j: nat, v: nat)
    requires IsRun(tr, steps) && i < j < |tr| && steps[i] == FStart(c) && tr[j].fin == Finished && v < |tr[j].vhosts|
    ensures exists k: nat ::
      && k < j && ReadsCounter(tr[k], steps[k], v)
      && (NobodyLeft(tr[k], c, v) || Rounds(tr, steps, v, j) == 3)
  {
    HostsAreFixed(tr, steps, j);
    AlwaysKnows(tr, steps, i, c, v, j);
    var k: nat :| k < j && Closes(tr, steps, c, v, k) && Rounds(tr, steps, v, k) == Rounds(tr, steps, v, j);
    assert ReadsCounter(tr[k], steps[k], v);
  }

  // ---- whom it has told to leave ----

  /** In the array of its host, in the finalizer's hands, or told to leave. */
  predicate OnTheWayOut(k: LazyWorker) { k.owner.Pooled? || k.owner.HeldByFinalizer? || k.owner.Retired? }

  lemma RefusedTakeNobody(s: State, a: Step, w: nat)
    requires IsHandlerStep(a) && HandlerReady(s, a) && s.shutdown && HandlerOk(s, a.h)
    requires w < |s.workers| && OnTheWayOut(s.workers[w])
    ensures !Targets(HandlerEffect(s, a), w)
  {
  }

  lemma WorkersKeepOwner(s: State, a: Step, w: nat)
    requires IsWorkerStep(a) && WorkerReady(s, a) && w < |s.workers|
    requires Fits(s, w, s.workers[w]) && OnTheWayOut(s.workers[w])
    ensures Targets(WorkerEffect(s, a), w) ==>
      var k' := WorkerEffect(s, a).worker.value.1;
      k'.owner == s.workers[w].owner && k'.vhost == s.workers[w].vhost
  {
  }

  lemma FinalizerGoesForward(s: State, a: Step, w: nat)
    requires IsFinalizerStep(a) && FinalizerStepReady(s, a) && FinalizerOk(s) && (a.FPop? ==> IdleOk(s, s.fin.idx))
    requires w < |s.workers| && OnTheWayOut(s.workers[w])
    ensures Targets(FinalizerEffect(s, a), w) ==>
      var k' := FinalizerEffect(s, a).worker.value.1;
      OnTheWayOut(k') && k'.vhost == s.workers[w].vhost && !s.workers[w].owner.Retired?
  {
  }

  lemma WayOutAfter(s: State, a: Step, w: nat)
    requires Inv(s) && Enabled(s, a) && s.shutdown && w < |s.workers| && OnTheWayOut(s.workers[w])
    ensures Targets(EffectOf(s, a), w) ==>
      var k' := EffectOf(s, a).worker.value.1;
      && OnTheWayOut(k') && k'.vhost == s.workers[w].vhost && (s.workers[w].owner.Retired? ==> k'.owner.Retired?)
  {
    if IsHandlerStep(a) {
      assert HandlerOk(s, a.h);
      RefusedTakeNobody(s, a, w);
    } else if IsFinalizerStep(a) {
      assert a.FPop? ==> VhostOk(s, s.fin.idx);
      FinalizerGoesForward(s, a, w);
    } else if IsWorkerStep(a) {
      assert WorkerOk(s, w);
      WorkersKeepOwner(s, a, w);
    }
  }

  /** During shutdown nobody but the finalizer takes a worker out of the array, and that for good. */
  lemma WayOutIsOneWay(s: State, a: Step, w: nat)
    requires Inv(s) && Enabled(s, a) && s.shutdown && w < |s.workers| && OnTheWayOut(s.workers[w])
    ensures w < |Apply(s, a).workers| && OnTheWayOut(Apply(s, a).workers[w])
    ensures Apply(s, a).workers[w].vhost == s.workers[w].vhost
    ensures s.workers[w].owner.Retired? ==> Apply(s, a).workers[w].owner.Retired?
  {
    if Targets(EffectOf(s, a), w) {
      WayOutAfter(s, a, w);
    } else {
      WorkerStays(s, EffectOf(s, a), w);
    }
  }

  /** Who is neither in the empty array nor in the finalizer's hands has been told to leave. */
  lemma EmptyMeansRetired(s: State, a: Step, v: nat, w: nat)
    requires Inv(s) && Enabled(s, a) && PopsNothing(s, a, v)
    requires w < |s.workers| && OnTheWayOut(s.workers[w]) && s.workers[w].vhost == v
    ensures s.workers[w].owner.Retired?
  {
    assert WorkerOk(s, w);
  }

  lemma ShutdownStays(s: State, a: Step)
    requires Inv(s) && Enabled(s, a) && s.shutdown
    ensures Apply(s, a).shutdown
  {
    StepEffectOk(s, a);
  }

  lemma ShutdownGoesOn(tr: seq<State>, steps: seq<Step>, i: nat, j: nat)
    requires IsRun(tr, steps) && i <= j < |tr| && tr[i].shutdown
    ensures tr[j].shutdown
  {
    var down := (k: nat) => k < |tr| && tr[k].shutdown;
    forall k: nat | i <= k < j && down(k) ensures down(k + 1) {
      RunInv(tr, steps, k);
      ShutdownStays(tr[k], steps[k]);
    }
    HoldsOn(down, i, j);
  }

  /** Worker `w` of host `v` is on the way out, and told to leave if a round has ended after `rounds`. */
  predicate WayOut(s: State, v: nat, w: nat, rounds: nat, now: nat) {
    && s.shutdown && w < |s.workers| && OnTheWayOut(s.workers[w]) && s.workers[w].vhost == v
    && (rounds < now ==> s.workers[w].owner.Retired?)
  }

  function WayOutAt(tr: seq<State>, steps: seq<Step>, v: nat, w: nat, rounds: nat): nat -> bool {
    (j: nat) => j < |tr| && WayOut(tr[j], v, w, rounds, Rounds(tr, steps, v, j))
  }

  lemma WayOutGoesOn(s: State, a: Step, v: nat, w: nat, rounds: nat, now: nat)
    requires Inv(s) && Enabled(s, a) && WayOut(s, v, w, rounds, now) && rounds <= now
    ensures WayOut(Apply(s, a), v, w, rounds, now + Bit(PopsNothing(s, a, v)))
  {
    ShutdownStays(s, a);
    if PopsNothing(s, a, v) { EmptyMeansRetired(s, a, v, w); }
    WayOutIsOneWay(s, a, w);
  }

  lemma {:induction false} RoundsGrow(tr: seq<State>, steps: seq<Step>, v: nat, i: nat, j: nat)
    requires i <= j
    ensures Rounds(tr, steps, v, i) <= Rounds(tr, steps, v, j)
    decreases j
  {
    if i < j { RoundsGrow(tr, steps, v, i, j - 1); }
  }

  lemma RunKeepsWay(tr: seq<State>, steps: seq<Step>, v: nat, w: nat, rounds: nat, k: nat)
    requires IsRun(tr, steps) && k < |steps| && rounds <= Rounds(tr, steps, v, k)
    requires WayOutAt(tr, steps, v, w, rounds)(k)
    ensures WayOutAt(tr, steps, v, w, rounds)(k + 1)
  {
    RunInv(tr, steps, k);
    WayOutGoesOn(tr[k], steps[k], v, w, rounds, Rounds(tr, steps, v, k));
  }

  lemma WayAllAlong(tr: seq<State>, steps: seq<Step>, i: nat, j: nat, v: nat, w: nat, rounds: nat)
    requires IsRun(tr, steps) && i <= j < |tr| && rounds == Rounds(tr, steps, v, i)
    ensures forall k: nat :: i <= k < j && WayOutAt(tr, steps, v, w, rounds)(k) ==>
      WayOutAt(tr, steps, v, w, rounds)(k + 1)
  {
    forall k: nat | i <= k < j && WayOutAt(tr, steps, v, w, rounds)(k)
      ensures WayOutAt(tr, steps, v, w, rounds)(k + 1)
    {
      RoundsGrow(tr, steps, v, i, k);
      RunKeepsWay(tr, steps, v, w, rounds, k);
    }
  }

  lemma OnlyOneWay(tr: seq<State>, steps: seq<Step>, i: nat, j: nat, v: nat, w: nat)
    requires IsRun(tr, steps) && i <= j < |tr| && WayOut(tr[i], v, w, 0, 0)
    ensures WayOutAt(tr, steps, v, w, Rounds(tr, steps, v, i))(j)
  {
    var rounds := Rounds(tr, steps, v, i);
    WayAllAlong(tr, steps, i, j, v, w, rounds);
    HoldsOn(WayOutAt(tr, steps, v, w, rounds), i, j);
  }

  /**
  Whoever lies in an idle array at some moment of the shutdown has been told to leave by the end
  of the round of popping on its host, and never serves again.
  */
  lemma RoundRetiresAll(tr: seq<State>, steps: seq<Step>, i: nat, j: nat, v: nat, w: nat)
    requires IsRun(tr, steps) && i <= j < |tr| && tr[i].shutdown && v < |tr[i].vhosts| && w in tr[i].vhosts[v].idle
    requires Rounds(tr, steps, v, i) < Rounds(tr, steps, v, j)
    ensures w < |tr[j].workers| && tr[j].workers[w].status == ThreadExit
  {
    RunInv(tr, steps, i);
    RunInv(tr, steps, j);
    assert VhostOk(tr[i], v);
    assert WayOut(tr[i], v, w, 0, 0);
    OnlyOneWay(tr, steps, i, j, v, w);
    assert WorkerOk(tr[j], w);
  }

  // ---- how long it takes ----

  const TO_RETIRE: LazyWorker -> bool := (k: LazyWorker) => !k.owner.HeldByFinalizer? && !k.owner.Retired?

  /** The way the finalizer still has to go over `n` hosts, apart from the workers it may find there. */
  function Way(f: FinalizerPc, n: nat): int {
    match f
    case NotStarted => 11 * n + 1
    case Locking(_, idx, tries) => 11 * (n - idx) - 3 * tries
    case Reading(_, idx, tries) => 11 * (n - idx) - 3 * tries - 1
    case Draining(_, idx, tries) => 11 * (n - idx) - 3 * tries + 1
    case Retiring(_, idx, tries, _) => 11 * (n - idx) - 3 * tries + 2
    case Finished => 0
  }

  /** The steps the finalizer may still need. */
  function FinalizerRank(s: State): int { Way(s.fin, |s.vhosts|) + 2 * Tally(s.workers, TO_RETIRE) }

  /** It is on its way, within three rounds for each host. */
  predicate OnCourse(s: State) {
    match s.fin
    case Locking(_, idx, tries) => idx < |s.vhosts| && tries <= 3
    case Reading(_, idx, tries) => idx < |s.vhosts| && tries <= 3
    case Draining(_, idx, tries) => idx < |s.vhosts| && 1 <= tries <= 3
    case Retiring(_, idx, tries, _) => idx < |s.vhosts| && 1 <= tries <= 3
    case _ => true
  }

  function Spent(s: State, e: Effect): int {
    if e.worker.Some? && e.worker.value.0 < |s.workers|
    then Bit(TO_RETIRE(s.workers[e.worker.value.0])) - Bit(TO_RETIRE(e.worker.value.1))
    else 0
  }

  /** The writes `e` create nobody and take at least `cost` off the rank. */
  predicate Spends(s: State, e: Effect, cost: nat) {
    e.created.None? && Way(e.fin, |s.vhosts|) + cost <= Way(s.fin, |s.vhosts|) + 2 * Spent(s, e)
  }

  lemma FinalizerSpends(s: State, a: Step)
    requires IsFinalizerStep(a) && FinalizerStepReady(s, a) && FinalizerOk(s) && OnCourse(s)
    requires a.FPop? ==> IdleOk(s, s.fin.idx)
    ensures var e := FinalizerEffect(s, a); OnCourse(Perform(s, e)) && Spends(s, e, 1)
  {
  }

  lemma HandlersSpendNothing(s: State, a: Step)
    requires IsHandlerStep(a) && HandlerReady(s, a) && s.shutdown && HandlerOk(s, a.h)
    ensures var e := HandlerEffect(s, a); e.created.None? && e.fin == s.fin && Spent(s, e) == 0
  {
  }

  lemma WorkersSpendNothing(s: State, a: Step)
    requires IsWorkerStep(a) && WorkerReady(s, a) && Fits(s, a.w, s.workers[a.w])
    ensures var e := WorkerEffect(s, a); e.created.None? && e.fin == s.fin && Spent(s, e) == 0
  {
  }

  lemma RankFalls(s: State, e: Effect)
    requires e.created.None?
    ensures FinalizerRank(Perform(s, e)) == Way(e.fin, |s.vhosts|) + 2 * (Tally(s.workers, TO_RETIRE) - Spent(s, e))
  {
    if e.worker.Some? && e.worker.value.0 < |s.workers| {
      TallyUpdate(s.workers, e.worker.value.0, e.worker.value.1, TO_RETIRE);
    }
  }

  lemma EffectSpends(s: State, a: Step)
    requires Inv(s) && Enabled(s, a) && s.shutdown && OnCourse(s)
    ensures Spends(s, EffectOf(s, a), Bit(IsFinalizerStep(a))) && OnCourse(Perform(s, EffectOf(s, a)))
  {
    if IsHandlerStep(a) {
      assert HandlerOk(s, a.h);
      HandlersSpendNothing(s, a);
    } else if IsFinalizerStep(a) {
      assert a.FPop? ==> VhostOk(s, s.fin.idx);
      FinalizerSpends(s, a);
    } else if IsWorkerStep(a) {
      assert WorkerOk(s, a.w);
      WorkersSpendNothing(s, a);
    }
    if !IsFinalizerStep(a) {
      HostsRemain(s, EffectOf(s, a));
    }
  }

  lemma StepSpends(s: State, a: Step)
    requires Inv(s) && Enabled(s, a) && s.shutdown && OnCourse(s)
    ensures OnCourse(Apply(s, a)) && FinalizerRank(Apply(s, a)) + Bit(IsFinalizerStep(a)) <= FinalizerRank(s)
  {
    EffectSpends(s, a);
    RankFalls(s, EffectOf(s, a));
  }

  lemma {:induction false} StaysOnCourse(tr: seq<State>, steps: seq<Step>, j: nat)
    requires IsRun(tr, steps) && j < |tr|
    ensures OnCourse(tr[j])
  {
    if j > 0 {
      StaysOnCourse(tr, steps, j - 1);
      RunInv(tr, steps, j - 1);
      if tr[j - 1].shutdown {
        StepSpends(tr[j - 1], steps[j - 1]);
      } else {
        RunInv(tr, steps, j);
        StartIsOnCourse(tr[j - 1], steps[j - 1]);
      }
    }
  }

  lemma StartIsOnCourse(s: State, a: Step)
    requires FinalizerOk(s) && Enabled(s, a) && !s.shutdown
    ensures OnCourse(Apply(s, a))
  {
    if !IsFinalizerStep(a) { OthersDoNotFinalize(s, a); }
  }

  function FinalizerTakes(steps: seq<Step>): nat -> bool { (i: nat) => i < |steps| && IsFinalizerStep(steps[i]) }

  lemma RunSpends(tr: seq<State>, steps: seq<Step>, k: nat)
    requires IsRun(tr, steps) && k < |steps| && tr[k].shutdown
    ensures FinalizerRank(tr[k + 1]) + Bit(IsFinalizerStep(steps[k])) <= FinalizerRank(tr[k])
  {
    RunInv(tr, steps, k);
    StaysOnCourse(tr, steps, k);
    StepSpends(tr[k], steps[k]);
  }

  lemma RankIsSmall(tr: seq<State>, steps: seq<Step>, i: nat)
    requires IsRun(tr, steps) && i < |tr| && tr[i].shutdown
    ensures 0 <= FinalizerRank(tr[i]) <= 11 * |tr[i].vhosts| + 2 * |tr[i].workers|
  {
    RunInv(tr, steps, i);
    StaysOnCourse(tr, steps, i);
    TallyAtMost(tr[i].workers, TO_RETIRE);
  }

  function RankAt(tr: seq<State>): nat -> nat {
    (i: nat) => if i < |tr| && FinalizerRank(tr[i]) >= 0 then FinalizerRank(tr[i]) else 0
  }

  /**
  However the other threads are interleaved with it, the finalizer takes at most eleven steps for each
  host and two for each worker.
  */
  lemma FinalizerIsBounded(tr: seq<State>, steps: seq<Step>, i: nat, j: nat)
    requires IsRun(tr, steps) && i <= j < |tr| && tr[i].shutdown
    ensures CountIf(FinalizerTakes(steps), i, j) <= 11 * |tr[i].vhosts| + 2 * |tr[i].workers|
  {
    var always, never := (k: nat) => true, (k: nat) => false;
    forall k: nat | i <= k < j ensures Bit(FinalizerTakes(steps)(k)) + RankAt(tr)(k + 1) <= RankAt(tr)(k) {
      ShutdownGoesOn(tr, steps, i, k);
      ShutdownGoesOn(tr, steps, i, k + 1);
      RankIsSmall(tr, steps, k);
      RankIsSmall(tr, steps, k + 1);
      RunSpends(tr, steps, k);
    }
    RankBudget(always, FinalizerTakes(steps), never, RankAt(tr), i, j);
    NeverCounts(i, j);
    RankIsSmall(tr, steps, i);
  }

  lemma {:induction false} NeverCounts(i: nat, j: nat)
    requires i <= j
    ensures CountIf((k: nat) => false, i, j) == 0
    decreases j
  {
    if i < j { NeverCounts(i, j - 1); }
  }

  lemma {:induction false} TallyAtMost(ws: seq<LazyWorker>, p: LazyWorker -> bool)
    ensures Tally(ws, p) <= |ws|
  {
    if ws != [] { TallyAtMost(ws[..|ws| - 1], p); }
  }

  // ---- that it gets there ----

  ghost function Pick(waiters: set<Thread>): (t: Thread)
    ensures SignalPicks(waiters, t)
  {
    if waiters == {} then Finalizer else var t :| t in waiters; t
  }

  /** What the finalizer does next, or the thread that holds what it needs. */
  ghost function FinalizerNext(s: State): Step
    requires FinalizerReady(s) && (s.fin.Retiring? ==> s.fin.w < |s.workers|)
  {
    match s.fin
    case Locking(_, idx, _) => if s.vhosts[idx].lock.Some? then VhostRelease(s, idx) else FLock
    case Reading(_, _, _) => FRead
    case Draining(_, _, _) => FPop
    case Retiring(_, _, _, w) => if s.workers[w].locked then WLoop(w) else FRetire(Pick(s.workers[w].waiters))
  }

  /** The finalizer never waits for good: the mutex it needs is given back by a thread that can step. */
  lemma FinalizerCanStep(s: State)
    requires Inv(s) && !s.crashed && s.shutdown && s.fin != Finished
    ensures FinalizerReady(s) && (s.fin.Retiring? ==> s.fin.w < |s.workers|)
    ensures Enabled(s, FinalizerNext(s)) && !FromOutside(FinalizerNext(s))
  {
    var v := s.fin.idx;
    assert VhostOk(s, v);
    if s.fin.Locking? && s.vhosts[v].lock.Some? {
      VhostHolderNeverBlocks(s, v);
    } else if s.fin.Draining? {
      var q := s.vhosts[v].idle;
      assert q != [] ==> WorkerOk(s, q[|q| - 1]);
    } else if s.fin.Retiring? {
      assert WorkerOk(s, s.fin.w);
    }
  }

  /** When the threads of a live process come to rest after a shutdown, the finalizer is through. */
  lemma QuietMeansFinished(tr: seq<State>, steps: seq<Step>, i: nat)
    requires IsRun(tr, steps) && i < |tr| && !tr[i].crashed && tr[i].shutdown && Quiet(tr[i])
    ensures tr[i].fin == Finished
  {
    RunInv(tr, steps, i);
    if tr[i].fin != Finished { FinalizerCanStep(tr[i]); }
  }

  /** Whoever has been told to leave does so. */
  lemma RetiredAreGone(tr: seq<State>, steps: seq<Step>, i: nat, w: nat)
    requires IsRun(tr, steps) && i < |tr| && !tr[i].crashed && Quiet(tr[i])
    requires w < |tr[i].workers| && tr[i].workers[w].status == ThreadExit
    ensures tr[i].workers[w].pc == Gone
  {
    RunInv(tr, steps, i);
    if tr[i].workers[w].pc != Gone { LeavingIsNotQuiet(tr[i], w); }
  }

  /** The next step of a worker that has been told to leave. */
  function LeavingNext(pc: WorkerPc, w: nat): Step {
    match pc
    case Configured => WLockCount(w)
    case Counting => WCount(w)
    case Entering => WEnter(w)
    case LoopTop => WLoop(w)
    case AwaitJob => WWakeJob(w)
    case Leaving => WLockUncount(w)
    case _ => WUncount(w)
  }

  lemma LeavingIsNotQuiet(s: State, w: nat)
    requires Inv(s) && !s.crashed && w < |s.workers| && s.workers[w].status == ThreadExit && s.workers[w].pc != Gone
    ensures !Quiet(s)
  {
    assert WorkerOk(s, w);
    var v := s.workers[w].vhost;
    if s.vhosts[v].lock.Some? {
      VhostHolderNeverBlocks(s, v);
      assert !FromOutside(VhostRelease(s, v));
    } else {
      var a := LeavingNext(s.workers[w].pc, w);
      assert Enabled(s, a) && !FromOutside(a);
    }
  }
}
