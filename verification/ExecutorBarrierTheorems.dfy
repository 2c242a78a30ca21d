/** What holds in every run of the executor: the barrier, exactly-once execution, parallel equals
    sequential, and progress. */
module ExecutorBarrierTheorems {
  import opened ExecutorBarrier
  import opened ExecutorBarrierProofs
  import opened ExecutorBarrierSteps

  // ---- Safety ---------------------------------------------------------------------------------

  lemma {:induction false} RunKeepsInv(
      p: Program, nThreads: nat, mem: seq<int>, run: seq<Actor>, states: seq<State>, i: nat)
    requires WellFormed(p, |mem|, nThreads) && IsRun(p, nThreads, mem, run, states) && i <= |run|
    ensures Inv(p, states[i]) && |states[i].threads| == nThreads
  {
    hide Inv; hide Enabled; hide Apply;
    if i == 0 {
      assert Inv(p, Init(nThreads, mem)) by { InvInitially(p, nThreads, mem); }
    } else {
      RunKeepsInv(p, nThreads, mem, run, states, i - 1);
      StepKeepsInv(p, states[i - 1], run[i - 1]);
    }
  }

  lemma InvInitially(p: Program, nThreads: nat, mem: seq<int>)
    requires WellFormed(p, |mem|, nThreads)
    ensures Inv(p, Init(nThreads, mem))
  {
  }

  predicate InsideStep(th: Thread, k: nat)
  {
    (th.pc.Execute? || th.pc.Compute? || th.pc.Write?) && th.pc.k == k
  }

  /** The barrier: while any thread is inside step k, every thread has executed the steps before k,
      each once and in order, in this forward. */
  lemma Barrier(
      p: Program, nThreads: nat, mem: seq<int>, run: seq<Actor>, states: seq<State>, i: nat, t: nat, u: nat, k: nat)
    requires WellFormed(p, |mem|, nThreads) && IsRun(p, nThreads, mem, run, states) && i <= |run|
    requires t < |states[i].threads| && u < |states[i].threads| && InsideStep(states[i].threads[t], k)
    ensures k < |p| && states[i].threads[t].log == Upto(k)
    ensures 0 < k ==> states[i].threads[u].localEpoch == states[i].epoch
    ensures 0 < k ==> states[i].threads[u].log == Upto(k) || states[i].threads[u].log == Upto(k + 1)
  {
    RunKeepsInv(p, nThreads, mem, run, states, i);
    var s := states[i];
    hide MemOk; hide CountersOk; hide WellFormed; hide RunSteps; hide From; hide To;
    assert s.main.Wait?;
    assert ThreadOk(p, s, t) && ThreadOk(p, s, u);
  }

  /** When `forward()` has returned, every thread executed every step exactly once and in order, and
      the shared memory is what running the steps one after the other computes. */
  lemma {:induction false} ForwardIsSequential(
      p: Program, nThreads: nat, mem: seq<int>, run: seq<Actor>, states: seq<State>, i: nat)
    requires WellFormed(p, |mem|, nThreads) && IsRun(p, nThreads, mem, run, states) && i <= |run|
    requires states[i].main.Outside? && 0 < states[i].forwards
    ensures states[i].mem == RunSteps(p, |p|, states[i].start)
    ensures forall t :: 0 <= t < nThreads ==> states[i].threads[t].pc.Waiting? && states[i].threads[t].log == Upto(|p|)
  {
    RunKeepsInv(p, nThreads, mem, run, states, i);
  }

  /** The memory `forward()` starts from is the one its caller filled. */
  lemma {:induction false} StartIsFilled(
      p: Program, nThreads: nat, mem: seq<int>, run: seq<Actor>, states: seq<State>, i: nat, j: nat)
    requires 0 < nThreads && IsRun(p, nThreads, mem, run, states) && i < j <= |run|
    requires run[i].Begin? && forall m :: i < m < j ==> !run[m].Begin?
    ensures states[j].start == run[i].filled
    decreases j
  {
    hide WellFormed; hide From; hide To;
    if i + 1 < j {
      StartIsFilled(p, nThreads, mem, run, states, i, j - 1);
      assert states[j] == Apply(p, states[j - 1], run[j - 1]);
    }
  }

  /** No access of the worker loop is ever out of bounds. */
  lemma AccessesInBounds(p: Program, nThreads: nat, mem: seq<int>, run: seq<Actor>, states: seq<State>, i: nat, t: nat)
    requires WellFormed(p, |mem|, nThreads) && IsRun(p, nThreads, mem, run, states) && i <= |run| && t < nThreads
    ensures InBounds(p, states[i], t)
  {
    RunKeepsInv(p, nThreads, mem, run, states, i);
    var s := states[i];
    if s.main.Wait? { BoundsInWait(p, s, t); }
  }

  lemma BoundsInWait(p: Program, s: State, t: nat)
    requires Running(p, s) && t < |s.threads|
    ensures InBounds(p, s, t)
  {
    assert ThreadOk(p, s, t);
    FromTo2(p, s, t);
    hide MemOk; hide CountersOk; hide From; hide To; hide OwnerComputes;
  }

  lemma FromTo2(p: Program, s: State, t: nat)
    requires t < |s.threads|
    ensures forall k :: 0 <= k < |p| ==> From(p[k], |s.threads|, t) <= To(p[k], |s.threads|, t) <= p[k].len
  {
    forall k | 0 <= k < |p| ensures From(p[k], |s.threads|, t) <= To(p[k], |s.threads|, t) <= p[k].len {
      FromTo(p[k], |s.threads|, t);
    }
  }

  /** No two threads are about to write one cell, and a sync is the work of thread 0 alone. */
  lemma OneWriter(
      p: Program, nThreads: nat, mem: seq<int>, run: seq<Actor>, states: seq<State>, i: nat, t: nat, u: nat)
    requires WellFormed(p, |mem|, nThreads) && IsRun(p, nThreads, mem, run, states) && i <= |run|
    requires t < nThreads && u < nThreads
    requires states[i].threads[t].pc.Write? && states[i].threads[u].pc.Write?
    ensures var mine, other := states[i].threads[t].pc, states[i].threads[u].pc;
      && mine.k == other.k < |p| && (t != u ==> mine.i != other.i) && (p[mine.k].sync ==> t == 0)
  {
    RunKeepsInv(p, nThreads, mem, run, states, i);
    var s := states[i];
    hide MemOk; hide CountersOk; hide WellFormed; hide S.Start; hide S.End;
    assert s.main.Wait?;
    assert ThreadOk(p, s, t) && ThreadOk(p, s, u);
    if t != u { SharesDisjoint(p[s.currentStep], nThreads, t, u, s.threads[t].pc.i); }
  }

  // ---- Progress -------------------------------------------------------------------------------

  /** The atomic operations thread `t` still has to do before it is past the last step, from step `k` on. */
  function Weight(p: Program, n: nat, t: nat, k: nat): (w: int)
    requires 0 < n && k <= |p|
    ensures t < n ==> 0 <= w
    decreases |p| - k
  {
    if k == |p| then 0
    else
      (FromTo3(p[k], n, t); 2 * (To(p[k], n, t) - From(p[k], n, t)) + 9 + Weight(p, n, t, k + 1))
  }

  lemma FromTo3(st: Step, n: nat, t: nat)
    requires 0 < n
    ensures t < n ==> From(st, n, t) <= To(st, n, t) <= st.len
  {
    if t < n { FromTo(st, n, t); }
  }

  function Clamp(p: Program, k: nat): nat { if k <= |p| then k else |p| }

  function Rank(p: Program, n: nat, t: nat, th: Thread, epoch: nat, c: nat): int
    requires 0 < n
  {
    match th.pc
    case Waiting => if th.localEpoch == epoch then 0 else Weight(p, n, t, 0) + 5
    case Latch => Weight(p, n, t, 0) + 4
    case Load => Weight(p, n, t, Clamp(p, |th.log|)) + 3
    case Execute(k) => Weight(p, n, t, Clamp(p, k)) + 2
    case Compute(k, i) => Weight(p, n, t, Clamp(p, k + 1)) + (if k < |p| then 2 * (To(p[k], n, t) - i) else 0) + 8
    case Write(k, i, _) => Weight(p, n, t, Clamp(p, k + 1)) + (if k < |p| then 2 * (To(p[k], n, t) - i) else 0) + 7
    case Arrive(k) => Weight(p, n, t, Clamp(p, k + 1)) + 8 - 1
    case ResetCount(k) => Weight(p, n, t, Clamp(p, k + 1)) + 6
    case Advance(k) => Weight(p, n, t, Clamp(p, k + 1)) + 5
    case SpinStep(k) => Weight(p, n, t, Clamp(p, k + 1)) + if k == c then 5 else 4
    case SpinEpoch(k) => Weight(p, n, t, Clamp(p, k + 1)) + 5
    case FinishRun => 2
    case Publish => 1
  }

  function TotalRank(p: Program, s: State, t: nat): int
    requires t <= |s.threads|
  {
    if t == 0 then 0 else TotalRank(p, s, t - 1) + Rank(p, |s.threads|, t - 1, s.threads[t - 1], s.epoch, s.currentStep)
  }

  /** A spinning thread whose step is still the current one only waits. */
  predicate Idles(s: State, t: nat)
    requires t < |s.threads|
  {
    var pc := s.threads[t].pc;
    (pc.SpinStep? || pc.SpinEpoch?) && pc.k == s.currentStep
  }

  lemma OwnRankInStep(p: Program, s: State, t: nat)
    requires CanStep(p, s, t) && (s.threads[t].pc.Execute? || s.threads[t].pc.Compute? || s.threads[t].pc.Write?)
    ensures var s', n := StepWorker(p, s, t), |s.threads|;
      Rank(p, n, t, s'.threads[t], s'.epoch, s'.currentStep) + 1 <= Rank(p, n, t, s.threads[t], s.epoch, s.currentStep)
  {
    hide MemOk; hide CountersOk; hide From; hide To; hide WellFormed; hide Weight;
    assert ThreadOk(p, s, t);
    WeightUnfold(p, |s.threads|, t, s.currentStep);
  }

  lemma OwnRankAtStart(p: Program, s: State, t: nat)
    requires CanStep(p, s, t) && (s.threads[t].pc.Waiting? || s.threads[t].pc.Latch? || s.threads[t].pc.Load?)
    ensures var s', n := StepWorker(p, s, t), |s.threads|;
      Rank(p, n, t, s'.threads[t], s'.epoch, s'.currentStep) + 1
        <= Rank(p, n, t, s.threads[t], s.epoch, s.currentStep)
  {
    hide MemOk; hide CountersOk; hide From; hide To; hide WellFormed; hide Weight;
    assert ThreadOk(p, s, t);
  }

  lemma OwnRankLast(p: Program, s: State, t: nat)
    requires CanStep(p, s, t)
      && (s.threads[t].pc.Arrive? || Last(s.threads[t]) || s.threads[t].pc.FinishRun? || s.threads[t].pc.Publish?)
    ensures var s', n := StepWorker(p, s, t), |s.threads|;
      Rank(p, n, t, s'.threads[t], s'.epoch, s'.currentStep) + 1
        <= Rank(p, n, t, s.threads[t], s.epoch, s.currentStep)
  {
    hide MemOk; hide CountersOk; hide From; hide To; hide WellFormed; hide Weight;
    assert ThreadOk(p, s, t);
  }

  lemma OwnRankSpin(p: Program, s: State, t: nat)
    requires CanStep(p, s, t) && (s.threads[t].pc.SpinStep? || s.threads[t].pc.SpinEpoch?)
    ensures var s', n := StepWorker(p, s, t), |s.threads|;
      Rank(p, n, t, s'.threads[t], s'.epoch, s'.currentStep) + (if Idles(s, t) then 0 else 1)
        <= Rank(p, n, t, s.threads[t], s.epoch, s.currentStep)
  {
    hide MemOk; hide CountersOk; hide From; hide To; hide WellFormed; hide Weight;
    assert ThreadOk(p, s, t);
  }

  lemma OwnRank(p: Program, s: State, t: nat)
    requires CanStep(p, s, t)
    ensures var s', n := StepWorker(p, s, t), |s.threads|;
      Rank(p, n, t, s'.threads[t], s'.epoch, s'.currentStep) + (if Idles(s, t) then 0 else 1)
        <= Rank(p, n, t, s.threads[t], s.epoch, s.currentStep)
  {
    var pc := s.threads[t].pc;
    hide CanStep; hide StepWorker; hide Rank;
    match pc
    case Execute(_) => OwnRankInStep(p, s, t);
    case Compute(_, _) => OwnRankInStep(p, s, t);
    case Write(_, _, _) => OwnRankInStep(p, s, t);
    case Waiting => OwnRankAtStart(p, s, t);
    case Latch => OwnRankAtStart(p, s, t);
    case Load => OwnRankAtStart(p, s, t);
    case SpinStep(_) => OwnRankSpin(p, s, t);
    case SpinEpoch(_) => OwnRankSpin(p, s, t);
    case _ => OwnRankLast(p, s, t);
  }

  lemma WeightUnfold(p: Program, n: nat, t: nat, k: nat)
    requires 0 < n && k < |p|
    ensures Weight(p, n, t, k) == 2 * (To(p[k], n, t) - From(p[k], n, t)) + 9 + Weight(p, n, t, k + 1)
  {
  }

  lemma OtherRank(p: Program, s: State, t: nat, u: nat)
    requires CanStep(p, s, t) && u < |s.threads| && u != t
    ensures var s', n := StepWorker(p, s, t), |s.threads|;
      Rank(p, n, u, s'.threads[u], s'.epoch, s'.currentStep) <= Rank(p, n, u, s.threads[u], s.epoch, s.currentStep)
  {
    hide MemOk; hide CountersOk; hide From; hide To; hide OwnerComputes; hide WellFormed; hide Weight;
    assert ThreadOk(p, s, u);
    assert ThreadOk(p, s, t);
  }

  lemma {:induction false} RankFalls(p: Program, s: State, s': State, t: nat, m: nat)
    requires CanStep(p, s, t) && s' == StepWorker(p, s, t) && |s'.threads| == |s.threads| && m <= |s.threads|
    ensures TotalRank(p, s', m) + (if t < m && !Idles(s, t) then 1 else 0) <= TotalRank(p, s, m)
  {
    hide Rank; hide CanStep; hide StepWorker; hide Idles;
    if m > 0 {
      RankFalls(p, s, s', t, m - 1);
      if m - 1 == t { OwnRank(p, s, t); } else { OtherRank(p, s, t, m - 1); }
    }
  }

  lemma {:induction false} RankNonNegative(p: Program, s: State, m: nat)
    requires Running(p, s) && m <= |s.threads|
    ensures 0 <= TotalRank(p, s, m)
  {
    hide MemOk; hide CountersOk; hide From; hide To; hide OwnerComputes; hide WellFormed;
    if m > 0 {
      RankNonNegative(p, s, m - 1);
      assert ThreadOk(p, s, m - 1);
    }
  }

  /** No unfinished state is stuck: the caller can return, or some thread can make a step that is not idling. */
  lemma NeverStuck(p: Program, s: State) returns (t: nat)
    requires Running(p, s) && !s.runDone
    ensures t < |s.threads| && Enabled(p, s, Worker(t)) && !Idles(s, t)
  {
    ArrivedBounds(s.threads, s.epoch, s.currentStep);
    FinishedBounds(s.threads, s.epoch);
    hide CountArrived; hide CountFinished; hide MemOk; hide From; hide To; hide OwnerComputes;
    if s.currentStep == |p| {
      if s.doneRuns == |s.threads| {
        t :| 0 <= t < |s.threads| && s.threads[t].pc.Publish?;
      } else {
        t :| 0 <= t < |s.threads| && !Finished(s.threads[t], s.epoch);
      }
    } else {
      if CountArrived(s.threads, s.epoch, s.currentStep) == |s.threads| {
        t :| 0 <= t < |s.threads| && Last(s.threads[t]);
      } else {
        t :| 0 <= t < |s.threads| && !Arrived(s.threads[t], s.epoch, s.currentStep);
      }
    }
    assert ThreadOk(p, s, t);
    BoundsInWait(p, s, t);
  }

  predicate IsProductive(s: State, a: Actor) { a.Worker? && a.t < |s.threads| && !Idles(s, a.t) }

  /** Steps of a run segment that are not idling. */
  function Productive(states: seq<State>, run: seq<Actor>, i: nat, j: nat): nat
    requires i <= j <= |run| && |states| == |run| + 1
    decreases j - i
  {
    if i == j then 0 else Productive(states, run, i, j - 1) + (if IsProductive(states[j - 1], run[j - 1]) then 1 else 0)
  }

  lemma WaitStep(p: Program, s: State, a: Actor)
    requires Running(p, s) && Enabled(p, s, a) && Apply(p, s, a).main.Wait?
    ensures |Apply(p, s, a).threads| == |s.threads|
    ensures TotalRank(p, Apply(p, s, a), |s.threads|) + (if IsProductive(s, a) then 1 else 0) <=
      TotalRank(p, s, |s.threads|)
  {
    hide ActiveOk; hide WellFormed; hide TotalRank; hide InBounds; hide Idles;
    assert a.Worker?;
    RankFalls(p, s, StepWorker(p, s, a.t), a.t, |s.threads|);
  }

  lemma RunningThere(p: Program, nThreads: nat, mem: seq<int>, run: seq<Actor>, states: seq<State>, i: nat)
    requires WellFormed(p, |mem|, nThreads) && IsRun(p, nThreads, mem, run, states) && i <= |run|
      && states[i].main.Wait?
    ensures |states| == |run| + 1 && Running(p, states[i]) && |states[i].threads| == nThreads
    ensures i < |run| ==> Enabled(p, states[i], run[i]) && states[i + 1] == Apply(p, states[i], run[i])
  {
    hide ActiveOk; hide WellFormed; hide Enabled; hide Apply;
    RunKeepsInv(p, nThreads, mem, run, states, i);
  }

  /** While `forward()` waits, the threads can make only so many steps that are not idling: with
      `NeverStuck`, the forward ends under any schedule that does not let a thread starve. */
  lemma {:induction false} WorkIsBounded(
      p: Program, nThreads: nat, mem: seq<int>, run: seq<Actor>, states: seq<State>, i: nat, j: nat)
    requires WellFormed(p, |mem|, nThreads) && IsRun(p, nThreads, mem, run, states) && i <= j <= |run|
    requires forall m :: i <= m <= j ==> states[m].main.Wait?
    ensures 0 <= TotalRank(p, states[j], nThreads)
    ensures Productive(states, run, i, j) + TotalRank(p, states[j], nThreads) <= TotalRank(p, states[i], nThreads)
    decreases j - i
  {
    hide IsRun; hide Running; hide TotalRank; hide Apply; hide WellFormed; hide IsProductive; hide Enabled;
    RunningThere(p, nThreads, mem, run, states, j);
    RankNonNegative(p, states[j], nThreads);
    if i < j {
      WorkIsBounded(p, nThreads, mem, run, states, i, j - 1);
      RunningThere(p, nThreads, mem, run, states, j - 1);
      WaitStep(p, states[j - 1], run[j - 1]);
    }
  }
}
