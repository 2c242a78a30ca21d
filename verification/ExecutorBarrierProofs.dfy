module ExecutorBarrierProofs {
  import S = SplitThreads
  import opened ExecutorBarrier

  // ---- Counting threads -----------------------------------------------------------------------

  lemma {:induction false} ArrivedUpdate(ts: seq<Thread>, epoch: nat, c: nat, t: nat, th: Thread)
    requires t < |ts|
    ensures CountArrived(ts[t := th], epoch, c) + (if Arrived(ts[t], epoch, c) then 1 else 0)
         == CountArrived(ts, epoch, c) + (if Arrived(th, epoch, c) then 1 else 0)
  {
    if t == 0 {
      assert ts[0 := th][1..] == ts[1..];
    } else {
      assert ts[t := th][1..] == ts[1..][t - 1 := th];
      ArrivedUpdate(ts[1..], epoch, c, t - 1, th);
    }
  }

  lemma {:induction false} FinishedUpdate(ts: seq<Thread>, epoch: nat, t: nat, th: Thread)
    requires t < |ts|
    ensures CountFinished(ts[t := th], epoch) + (if Finished(ts[t], epoch) then 1 else 0)
         == CountFinished(ts, epoch) + (if Finished(th, epoch) then 1 else 0)
  {
    if t == 0 {
      assert ts[0 := th][1..] == ts[1..];
    } else {
      assert ts[t := th][1..] == ts[1..][t - 1 := th];
      FinishedUpdate(ts[1..], epoch, t - 1, th);
    }
  }

  lemma {:induction false} ArrivedBounds(ts: seq<Thread>, epoch: nat, c: nat)
    ensures CountArrived(ts, epoch, c) <= |ts|
    ensures CountArrived(ts, epoch, c) == |ts| <==> forall u :: 0 <= u < |ts| ==> Arrived(ts[u], epoch, c)
    ensures CountArrived(ts, epoch, c) == 0 <==> forall u :: 0 <= u < |ts| ==> !Arrived(ts[u], epoch, c)
  {
    if ts != [] {
      ArrivedBounds(ts[1..], epoch, c);
      assert forall u :: 0 < u < |ts| ==> ts[u] == ts[1..][u - 1];
      assert forall u :: 0 <= u < |ts| - 1 ==> ts[1..][u] == ts[u + 1];
    }
  }

  lemma {:induction false} FinishedBounds(ts: seq<Thread>, epoch: nat)
    ensures CountFinished(ts, epoch) <= |ts|
    ensures CountFinished(ts, epoch) == |ts| <==> forall u :: 0 <= u < |ts| ==> Finished(ts[u], epoch)
    ensures CountFinished(ts, epoch) == 0 <==> forall u :: 0 <= u < |ts| ==> !Finished(ts[u], epoch)
  {
    if ts != [] {
      FinishedBounds(ts[1..], epoch);
      assert forall u :: 0 < u < |ts| ==> ts[u] == ts[1..][u - 1];
      assert forall u :: 0 <= u < |ts| - 1 ==> ts[1..][u] == ts[u + 1];
    }
  }

  lemma FromTo(st: Step, n: nat, t: nat)
    requires 0 < n && t < n
    ensures From(st, n, t) <= To(st, n, t) <= st.len
  {
    S.Inside(st.len, n, t);
  }

  lemma SharesDisjoint(st: Step, n: nat, t: nat, u: nat, i: nat)
    requires 0 < n && t != u && From(st, n, t) <= i < To(st, n, t)
    ensures !(From(st, n, u) <= i < To(st, n, u))
  {
    if !st.sync {
      S.Disjoint(st.len, n, t, u, i);
    }
  }

  lemma SharesCover(st: Step, n: nat, i: nat) returns (t: nat)
    requires 0 < n && i < st.len
    ensures t < n && From(st, n, t) <= i < To(st, n, t)
  {
    if st.sync { t := 0; } else { t := S.Owner(st.len, n, i); }
  }

  // ---- Frames ---------------------------------------------------------------------------------

  /** Worker `t` moves without touching a shared variable and without changing what it is counted as. */
  ghost predicate LocalMove(s: State, s': State, t: nat)
    requires t < |s.threads|
  {
    && |s'.threads| == |s.threads|
    && s' == Put(s, t, s'.threads[t]).(mem := s'.mem)
    && (Arrived(s'.threads[t], s.epoch, s.currentStep) == Arrived(s.threads[t], s.epoch, s.currentStep))
    && !Finished(s.threads[t], s.epoch) && !Finished(s'.threads[t], s.epoch)
    && !Last(s.threads[t]) && !Last(s'.threads[t])
    && !s.threads[t].pc.Publish? && !s'.threads[t].pc.Publish?
    && (s.threads[t].pc.Waiting? ==> !Woken(s.threads[t], s.epoch))
  }

  /** A move between program counters that count neither as arrived nor as last keeps the arrival bookkeeping. */
  lemma IdleCounters(s: State, s': State, t: nat)
    requires t < |s.threads| && DoneThreadsOk(s) && LastOk(s) && |s'.threads| == |s.threads|
    requires s' == Put(s, t, s'.threads[t]).(runDone := s'.runDone, doneRuns := s'.doneRuns, mem := s'.mem)
    requires Arrived(s'.threads[t], s.epoch, s.currentStep) == Arrived(s.threads[t], s.epoch, s.currentStep)
    requires !Last(s.threads[t]) && !Last(s'.threads[t])
    ensures DoneThreadsOk(s') && LastOk(s')
  {
    hide CountArrived;
    ArrivedUpdate(s.threads, s.epoch, s.currentStep, t, s'.threads[t]);
    if u :| 0 <= u < |s.threads| && Last(s.threads[u]) { assert Last(s'.threads[u]); }
    if u :| 0 <= u < |s.threads| && s.threads[u].pc.Advance? { assert s'.threads[u].pc.Advance?; }
    assert DoneThreadsOk(s');
    assert LastOk(s');
  }

  lemma CountersAfterLocalMove(s: State, s': State, t: nat)
    requires t < |s.threads| && CountersOk(s) && LocalMove(s, s', t)
    ensures CountersOk(s')
  {
    hide CountFinished; hide LastOk; hide DoneThreadsOk;
    FinishedUpdate(s.threads, s.epoch, t, s'.threads[t]);
    FinishedBounds(s.threads, s.epoch);
    assert RunDoneOk(s');
    IdleCounters(s, s', t);
  }

  lemma OthersUnmoved(p: Program, s: State, s': State, t: nat, u: nat)
    requires s.currentStep <= |p| && t < |s.threads| && u < |s.threads| && u != t && ThreadOk(p, s, u)
    requires |s'.threads| == |s.threads| && s'.threads[u] == s.threads[u]
    requires s'.currentStep == s.currentStep && s'.epoch == s.epoch
    ensures ThreadOk(p, s', u)
  {
  }

  /** Memory untouched and the progress of `t` unchanged. */
  lemma MemAfterLocalMove(p: Program, s: State, s': State, t: nat)
    requires 0 < |s.threads| && s.currentStep <= |p| && t < |s.threads| && MemOk(p, s)
    requires |s'.threads| == |s.threads|
    requires s' == Put(s, t, s'.threads[t]).(doneThreads := s'.doneThreads, doneRuns := s'.doneRuns, runDone :=
      s'.runDone)
    requires s.currentStep < |p| ==>
      Progress(p, |s.threads|, t, s'.threads[t], s.epoch, s.currentStep) ==
        Progress(p, |s.threads|, t, s.threads[t], s.epoch, s.currentStep)
    requires s'.threads[t].pc.Write? && Woken(s'.threads[t], s.epoch) && s.currentStep < |p| ==>
      && s'.threads[t].pc.i < p[s.currentStep].len
      && s'.threads[t].pc.v == p[s.currentStep].f(s'.threads[t].pc.i, RunSteps(p, s.currentStep, s.start))
    ensures MemOk(p, s')
  {
    hide RunSteps; hide From; hide To;
    if s.currentStep < |p| {
      var before := RunSteps(p, s.currentStep, s.start);
      forall u | 0 <= u < |s.threads|
        ensures ShareOk(p, s', u, before)
      {
        assert ShareOk(p, s, u, before);
      }
    }
  }

  // ---- The value a thread computes ------------------------------------------------------------

  lemma ComputedValue(p: Program, s: State, t: nat)
    requires WellFormed(p, |s.mem|, |s.threads|) && s.currentStep < |p| && MemOk(p, s) && t < |s.threads|
    requires ThreadOk(p, s, t)
    requires s.threads[t].pc.Compute? && s.threads[t].pc.i < To(p[s.currentStep], |s.threads|, t)
    ensures var i := s.threads[t].pc.i;
      i < p[s.currentStep].len
      && p[s.currentStep].f(i, s.mem) == p[s.currentStep].f(i, RunSteps(p, s.currentStep, s.start))
  {
    hide RunSteps; hide From; hide To;
    var c := s.currentStep;
    var st, i := p[c], s.threads[t].pc.i;
    var before := RunSteps(p, c, s.start);
    FromTo(st, |s.threads|, t);
    assert ShareOk(p, s, t, before);
    assert CellOk(st, s.mem, before, Progress(p, |s.threads|, t, s.threads[t], s.epoch, c), i);
    assert Agree(st, i, s.mem, before);
  }
}
