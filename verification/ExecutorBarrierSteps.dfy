/** Every step of a worker or of `forward()` keeps the executor's invariant. */
module ExecutorBarrierSteps {
  import opened ExecutorBarrier
  import opened ExecutorBarrierProofs

  ghost predicate Running(p: Program, s: State)
  {
    WellFormed(p, |s.mem|, |s.threads|) && |s.start| == |s.mem| && s.main.Wait? && ActiveOk(p, s)
  }

  ghost predicate CanStep(p: Program, s: State, t: nat)
  {
    Running(p, s) && Enabled(p, s, Worker(t))
  }

  lemma Assemble(p: Program, s: State, s': State, t: nat)
    requires CanStep(p, s, t) && |s'.threads| == |s.threads|
    requires s' == Put(s, t, s'.threads[t]).(doneThreads := s'.doneThreads, doneRuns := s'.doneRuns, runDone :=
      s'.runDone, mem := s'.mem)
    requires |s'.mem| == |s.mem|
    requires s.currentStep <= |p| && ThreadOk(p, s', t) && CountersOk(s') && MemOk(p, s')
    ensures Running(p, s')
  {
    hide CountersOk; hide MemOk;
    forall u | 0 <= u < |s'.threads|
      ensures ThreadOk(p, s', u)
    {
      if u != t { OthersUnmoved(p, s, s', t, u); }
    }
  }

  // ---- Steps that touch no shared variable ---------------------------------------------------

  predicate IsLocal(pc: Pc)
  {
    pc.Waiting? || pc.Latch? || pc.Load? || pc.Execute? || pc.Compute? || pc.SpinStep? || pc.SpinEpoch?
  }

  lemma LocalThread(p: Program, s: State, t: nat)
    requires CanStep(p, s, t) && IsLocal(s.threads[t].pc)
    ensures ThreadOk(p, StepWorker(p, s, t), t)
  {
    hide CountersOk; hide MemOk; hide WellFormed; hide From; hide To;
    var th := s.threads[t];
    assert ThreadOk(p, s, t);
    if th.pc.Execute? { FromTo(p[th.pc.k], |s.threads|, t); }
  }

  lemma LocalCounters(p: Program, s: State, t: nat)
    requires CanStep(p, s, t) && IsLocal(s.threads[t].pc)
    ensures CountersOk(StepWorker(p, s, t))
  {
    hide CountersOk; hide MemOk; hide WellFormed; hide From; hide To;
    assert ThreadOk(p, s, t);
    CountersAfterLocalMove(s, StepWorker(p, s, t), t);
  }

  lemma LocalMem(p: Program, s: State, t: nat)
    requires CanStep(p, s, t) && IsLocal(s.threads[t].pc)
    ensures MemOk(p, StepWorker(p, s, t))
  {
    hide CountersOk; hide MemOk; hide From; hide To;
    var th := s.threads[t];
    assert ThreadOk(p, s, t);
    if th.pc.Compute? && th.pc.i < To(p[th.pc.k], |s.threads|, t) { ComputedValue(p, s, t); }
    MemAfterLocalMove(p, s, StepWorker(p, s, t), t);
  }

  lemma LocalStep(p: Program, s: State, t: nat)
    requires CanStep(p, s, t) && IsLocal(s.threads[t].pc)
    ensures Running(p, StepWorker(p, s, t))
  {
    LocalThread(p, s, t);
    LocalCounters(p, s, t);
    LocalMem(p, s, t);
    hide CountersOk; hide MemOk; hide WellFormed; hide From; hide To; hide ThreadOk;
    Assemble(p, s, StepWorker(p, s, t), t);
  }

  // ---- Write ---------------------------------------------------------------------------------

  /** Thread `t` writes one cell of its share; every other share keeps its cells. */
  lemma WriteShare(p: Program, s: State, t: nat, u: nat, before: seq<int>)
    requires CanStep(p, s, t) && s.threads[t].pc.Write? && u < |s.threads|
    requires s.currentStep < |p| && |before| == |s.mem| && ShareOk(p, s, u, before) && ShareOk(p, s, t, before)
    ensures ShareOk(p, StepWorker(p, s, t), u, before)
  {
    hide CountersOk; hide MemOk; hide From; hide To; hide OwnerComputes;
    assert ThreadOk(p, s, t);
    var s' := StepWorker(p, s, t);
    var c, n := s.currentStep, |s.threads|;
    var st := p[c];
    var i0 := s.threads[t].pc.i;
    forall i: nat | From(st, n, u) <= i < To(st, n, u)
      ensures CellOk(st, s'.mem, before, Progress(p, n, u, s'.threads[u], s'.epoch, c), i)
    {
      assert CellOk(st, s.mem, before, Progress(p, n, u, s.threads[u], s.epoch, c), i);
      if u != t { SharesDisjoint(st, n, t, u, i0); }
    }
  }

  lemma WriteStep(p: Program, s: State, t: nat)
    requires CanStep(p, s, t) && s.threads[t].pc.Write?
    ensures Running(p, StepWorker(p, s, t))
  {
    var s' := StepWorker(p, s, t);
    var before := RunSteps(p, s.currentStep, s.start);
    assert ThreadOk(p, s, t);
    FromTo(p[s.currentStep], |s.threads|, t);
    forall u | 0 <= u < |s.threads| ensures ShareOk(p, s', u, before) {
      assert ShareOk(p, s, u, before) && ShareOk(p, s, t, before);
      WriteShare(p, s, t, u, before);
    }
    hide From; hide To; hide OwnerComputes; hide ShareOk; hide RunSteps;
    assert CountersOk(s') by {
      hide MemOk; hide CountersOk;
      CountersAfterLocalMove(s, s', t);
    }
    hide CountersOk;
    assert MemOk(p, s');
    assert ThreadOk(p, s', t);
    Assemble(p, s, s', t);
  }

  // ---- Arrive, ResetCount --------------------------------------------------------------------

  /** A thread that is not finished keeps the run open. */
  lemma RunOpen(s: State, t: nat)
    requires RunDoneOk(s) && t < |s.threads| && !Finished(s.threads[t], s.epoch)
    ensures s.doneRuns == CountFinished(s.threads, s.epoch) < |s.threads| && !s.runDone
    ensures forall u :: 0 <= u < |s.threads| ==> !s.threads[u].pc.Publish?
  {
    FinishedBounds(s.threads, s.epoch);
    hide CountFinished;
  }

  lemma ArriveCounters(s: State, s': State, t: nat)
    requires t < |s.threads| && CountersOk(s) && Woken(s.threads[t], s.epoch)
    requires s.threads[t].pc == Arrive(s.currentStep)
    requires s' == Put(s, t, s.threads[t].(pc :=
      if s.doneThreads == |s.threads| - 1 then ResetCount(s.currentStep)
          else SpinStep(s.currentStep))).(doneThreads := s.doneThreads + 1)
    ensures CountersOk(s')
  {
    hide CountArrived; hide CountFinished;
    RunOpen(s, t);
    ArrivedUpdate(s.threads, s.epoch, s.currentStep, t, s'.threads[t]);
    FinishedUpdate(s.threads, s.epoch, t, s'.threads[t]);
    ArrivedBounds(s'.threads, s.epoch, s.currentStep);
    if CountArrived(s'.threads, s'.epoch, s'.currentStep) == |s'.threads| { assert Last(s'.threads[t]); }
    assert DoneThreadsOk(s');
    assert LastOk(s');
    assert RunDoneOk(s');
  }

  lemma ArriveStep(p: Program, s: State, t: nat)
    requires CanStep(p, s, t) && s.threads[t].pc.Arrive?
    ensures Running(p, StepWorker(p, s, t))
  {
    hide CountersOk; hide From; hide To; hide OwnerComputes; hide MemOk; hide RunSteps;
    var s' := StepWorker(p, s, t);
    assert ThreadOk(p, s, t);
    ArriveCounters(s, s', t);
    MemAfterLocalMove(p, s, s', t);
    Assemble(p, s, s', t);
  }

  lemma ResetCounters(s: State, s': State, t: nat)
    requires t < |s.threads| && CountersOk(s) && Woken(s.threads[t], s.epoch)
    requires s.threads[t].pc == ResetCount(s.currentStep)
    requires s' == Put(s, t, s.threads[t].(pc := Advance(s.currentStep))).(doneThreads := 0)
    ensures CountersOk(s')
  {
    hide CountArrived; hide CountFinished;
    RunOpen(s, t);
    FinishedUpdate(s.threads, s.epoch, t, s'.threads[t]);
    assert Last(s.threads[t]) && s'.threads[t].pc.Advance?;
    assert DoneThreadsOk(s');
    assert LastOk(s');
    assert RunDoneOk(s');
  }

  lemma ResetStep(p: Program, s: State, t: nat)
    requires CanStep(p, s, t) && s.threads[t].pc.ResetCount?
    ensures Running(p, StepWorker(p, s, t))
  {
    hide CountersOk; hide From; hide To; hide OwnerComputes; hide MemOk; hide RunSteps;
    var s' := StepWorker(p, s, t);
    assert ThreadOk(p, s, t);
    ResetCounters(s, s', t);
    MemAfterLocalMove(p, s, s', t);
    Assemble(p, s, s', t);
  }

  // ---- Advance -------------------------------------------------------------------------------

  lemma RunStepAt(st: Step, before: seq<int>, mem: seq<int>)
    requires |mem| == |before|
    requires forall x :: 0 <= x < |mem| ==> mem[x] == if InRange(st, x) then st.f(x - st.base, before) else before[x]
    ensures mem == RunStep(st, before)
  {
  }

  /** When every share is complete the memory is the step's sequential result. */
  lemma SharesComplete(p: Program, s: State)
    requires 0 < |s.threads| && s.currentStep < |p| && MemOk(p, s)
    requires forall u :: 0 <= u < |s.threads| ==> Arrived(s.threads[u], s.epoch, s.currentStep)
    ensures s.mem == RunSteps(p, s.currentStep + 1, s.start)
  {
    hide RunSteps; hide From; hide To; hide RunStep;
    var c, n := s.currentStep, |s.threads|;
    var st, before := p[c], RunSteps(p, c, s.start);
    forall x | 0 <= x < |s.mem| && InRange(st, x)
      ensures s.mem[x] == st.f(x - st.base, before)
    {
      var u := SharesCover(st, n, x - st.base);
      assert ShareOk(p, s, u, before);
      assert CellOk(st, s.mem, before, Progress(p, n, u, s.threads[u], s.epoch, c), x - st.base);
    }
    RunStepAt(st, before, s.mem);
    RunStepsSnoc(p, c, s.start);
  }

  lemma RunStepsSnoc(p: Program, c: nat, start: seq<int>)
    requires c < |p|
    ensures RunSteps(p, c + 1, start) == RunStep(p[c], RunSteps(p, c, start))
  {
  }

  /** At the start of a step nobody has any progress in it. */
  lemma FreshStepMem(p: Program, s: State)
    requires WellFormed(p, |s.mem|, |s.threads|) && |s.start| == |s.mem| && s.currentStep <= |p|
    requires s.mem == RunSteps(p, s.currentStep, s.start)
    requires s.currentStep < |p| ==> forall u :: 0 <= u < |s.threads| ==>
      && Progress(p, |s.threads|, u, s.threads[u], s.epoch, s.currentStep) == From(p[s.currentStep], |s.threads|, u)
      && (s.threads[u].pc.Write? ==> !Woken(s.threads[u], s.epoch))
    ensures MemOk(p, s)
  {
    hide RunSteps; hide From; hide To; hide OwnerComputes;
    if s.currentStep < |p| {
      forall u | 0 <= u < |s.threads| ensures ShareOk(p, s, u, s.mem) {
      }
    }
  }

  lemma AllSpin(p: Program, s: State, t: nat)
    requires CanStep(p, s, t) && s.threads[t].pc.Advance?
    ensures s.currentStep < |p| && s.threads[t].pc.k == s.currentStep && s.doneThreads == 0
    ensures forall u :: 0 <= u < |s.threads| ==> Arrived(s.threads[u], s.epoch, s.currentStep)
    ensures forall u :: 0 <= u < |s.threads| && u != t ==> s.threads[u].pc.SpinStep? || s.threads[u].pc.SpinEpoch?
  {
    hide MemOk; hide CountArrived; hide RunDoneOk; hide WellFormed;
    assert ThreadOk(p, s, t);
    assert Last(s.threads[t]);
  }

  lemma AdvanceCounters(s: State, s': State, t: nat)
    requires t < |s.threads| && CountersOk(s) && s.threads[t].pc == Advance(s.currentStep) && s.doneThreads == 0
    requires forall u :: 0 <= u < |s.threads| ==> Arrived(s.threads[u], s.epoch, s.currentStep)
    requires forall u :: 0 <= u < |s.threads| && u != t ==> s.threads[u].pc.SpinStep? || s.threads[u].pc.SpinEpoch?
    requires s' == Put(s, t, s.threads[t].(pc := Load)).(currentStep := s.currentStep + 1)
    ensures CountersOk(s')
  {
    hide CountArrived; hide CountFinished; hide LastOk; hide DoneThreadsOk;
    RunOpen(s, t);
    FinishedUpdate(s.threads, s.epoch, t, s'.threads[t]);
    assert RunDoneOk(s');
    NoneArrived(s');
  }

  lemma NoneArrived(s: State)
    requires 0 < |s.threads| && s.doneThreads == 0
    requires forall u :: 0 <= u < |s.threads| ==> !Arrived(s.threads[u], s.epoch, s.currentStep) && !Last(s.threads[u])
    ensures DoneThreadsOk(s) && LastOk(s)
  {
    hide CountArrived;
    ArrivedBounds(s.threads, s.epoch, s.currentStep);
  }

  lemma AdvanceThreads(p: Program, s: State, t: nat)
    requires CanStep(p, s, t) && s.threads[t].pc.Advance?
    ensures var s' := StepWorker(p, s, t);
    s'.currentStep <= |p| && forall u :: 0 <= u < |s'.threads| ==> ThreadOk(p, s', u)
  {
    hide CountersOk; hide MemOk; hide From; hide To; hide WellFormed;
    AllSpin(p, s, t);
    var s' := StepWorker(p, s, t);
    forall u | 0 <= u < |s'.threads| ensures ThreadOk(p, s', u) {
      assert ThreadOk(p, s, u);
    }
  }

  lemma AdvanceMem(p: Program, s: State, t: nat)
    requires CanStep(p, s, t) && s.threads[t].pc.Advance?
    ensures var s' := StepWorker(p, s, t); s'.currentStep <= |p| && MemOk(p, s')
  {
    hide CountersOk; hide MemOk; hide From; hide To; hide OwnerComputes; hide RunSteps; hide ThreadOk;
    AllSpin(p, s, t);
    SharesComplete(p, s);
    FreshStepMem(p, StepWorker(p, s, t));
  }

  lemma AdvanceStep(p: Program, s: State, t: nat)
    requires CanStep(p, s, t) && s.threads[t].pc.Advance?
    ensures Running(p, StepWorker(p, s, t))
  {
    hide CountersOk; hide MemOk; hide WellFormed; hide ThreadOk;
    AllSpin(p, s, t);
    AdvanceThreads(p, s, t);
    AdvanceMem(p, s, t);
    AdvanceCounters(s, StepWorker(p, s, t), t);
  }

  // ---- FinishRun, Publish ----------------------------------------------------------------------

  lemma FinishCounters(s: State, s': State, t: nat)
    requires t < |s.threads| && CountersOk(s) && Woken(s.threads[t], s.epoch) && s.threads[t].pc.FinishRun?
    requires s' == Put(s, t, s.threads[t].(pc :=
      if s.doneRuns == |s.threads| - 1 then Publish else Waiting)).(doneRuns := s.doneRuns + 1)
    ensures CountersOk(s')
  {
    hide CountArrived; hide CountFinished;
    RunOpen(s, t);
    ArrivedUpdate(s.threads, s.epoch, s.currentStep, t, s'.threads[t]);
    FinishedUpdate(s.threads, s.epoch, t, s'.threads[t]);
    if s'.doneRuns == |s'.threads| { assert s'.threads[t].pc.Publish?; }
    assert DoneThreadsOk(s');
    assert LastOk(s');
    assert RunDoneOk(s');
  }

  lemma PublishCounters(s: State, s': State, t: nat)
    requires t < |s.threads| && CountersOk(s) && Woken(s.threads[t], s.epoch) && s.threads[t].pc.Publish?
    requires s' == Put(s, t, s.threads[t].(pc := Waiting)).(runDone := true)
    ensures CountersOk(s')
  {
    hide CountArrived; hide CountFinished; hide LastOk; hide DoneThreadsOk;
    FinishedUpdate(s.threads, s.epoch, t, s'.threads[t]);
    FinishedBounds(s.threads, s.epoch);
    assert RunDoneOk(s');
    IdleCounters(s, s', t);
  }

  lemma EndStep(p: Program, s: State, t: nat)
    requires CanStep(p, s, t) && (s.threads[t].pc.FinishRun? || s.threads[t].pc.Publish?)
    ensures Running(p, StepWorker(p, s, t))
  {
    hide CountersOk; hide From; hide To; hide OwnerComputes; hide RunSteps; hide MemOk;
    var s' := StepWorker(p, s, t);
    assert ThreadOk(p, s, t);
    if s.threads[t].pc.FinishRun? { FinishCounters(s, s', t); } else { PublishCounters(s, s', t); }
    MemAfterLocalMove(p, s, s', t);
    Assemble(p, s, s', t);
  }

  lemma WorkerStep(p: Program, s: State, t: nat)
    requires CanStep(p, s, t)
    ensures Running(p, StepWorker(p, s, t))
  {
    hide Running;
    if s.threads[t].pc.Write? { WriteStep(p, s, t); }
    else if s.threads[t].pc.Arrive? { ArriveStep(p, s, t); }
    else if s.threads[t].pc.ResetCount? { ResetStep(p, s, t); }
    else if s.threads[t].pc.Advance? { AdvanceStep(p, s, t); }
    else if s.threads[t].pc.FinishRun? || s.threads[t].pc.Publish? { EndStep(p, s, t); }
    else { LocalStep(p, s, t); }
  }

  // ---- The caller of forward() -----------------------------------------------------------------

  /** The epoch increment releases the mutex with every thread one epoch behind. */
  lemma ReleaseStep(p: Program, s: State)
    requires Inv(p, s) && s.main == Store(4)
    ensures Running(p, StepMain(s))
  {
    hide CountFinished; hide From; hide To; hide OwnerComputes; hide MemOk; hide LastOk; hide DoneThreadsOk;
    var s' := StepMain(s);
    FinishedBounds(s'.threads, s'.epoch);
    NoneArrived(s');
    assert RunDoneOk(s');
    FreshStepMem(p, s');
    forall t | 0 <= t < |s'.threads| ensures ThreadOk(p, s', t) {
      assert s.threads[t].pc.Waiting? && s.threads[t].localEpoch == s.epoch;
    }
  }

  /** `forward()` returns only when all threads are waiting for the next epoch with all steps behind them. */
  lemma ReturnStep(p: Program, s: State)
    requires Running(p, s) && s.runDone
    ensures IdleOk(p, s) && s.mem == RunSteps(p, |p|, s.start)
    ensures forall t :: 0 <= t < |s.threads| ==> s.threads[t].log == Upto(|p|)
  {
    FinishedBounds(s.threads, s.epoch);
    hide CountFinished; hide DoneThreadsOk; hide LastOk; hide RunSteps; hide From; hide To; hide ShareOk;
    hide OwnerComputes;
    forall t | 0 <= t < |s.threads|
      ensures s.threads[t].pc.Waiting? && s.threads[t].localEpoch == s.epoch && s.currentStep == |p|
        && s.threads[t].log == Upto(|p|)
    {
      assert ThreadOk(p, s, t);
    }
    assert ThreadOk(p, s, 0);
  }

  lemma StepKeepsInv(p: Program, s: State, a: Actor)
    requires Inv(p, s) && Enabled(p, s, a)
    ensures Inv(p, Apply(p, s, a))
  {
    match a
    case Worker(t) =>
      assert s.main.Wait?;
      WorkerStep(p, s, t);
    case Main =>
      if s.main == Store(4) {
        ReleaseStep(p, s);
      } else if s.main.Wait? {
        ReturnStep(p, s);
      }
    case Begin(filled) =>
  }
}
