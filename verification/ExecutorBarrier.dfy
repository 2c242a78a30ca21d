/** The executor of src/nn/nn-executor.cpp: worker threads that share an epoch, a step counter and
    two done counters. Every atomic operation of a worker and every store of `forward()` is a step
    of its own; the threads run the steps of the program on one shared memory. */
module ExecutorBarrier {
  import S = SplitThreads

  // ---- The program and its sequential meaning ---------------------------------------------

  /** One executor step: it overwrites `len` cells from `base`. An op splits them over the threads; with
      `sync` thread 0 does them all, as in most node synchronisations. The one that hands the root's
      sockets out to the threads splits like an op, one cell for what leaves on a socket
      (`SocketsInTurn`). `f(i, mem)` is the new value of cell base+i. */
  datatype Step = Step(sync: bool, base: nat, len: nat, f: (nat, seq<int>) -> int)

  type Program = seq<Step>

  predicate Fits(st: Step, size: nat) { st.base + st.len <= size }

  predicate InRange(st: Step, x: nat) { st.base <= x < st.base + st.len }

  /** Owner-computes: a cell's new value depends on the cell itself and on cells the step does not write. */
  ghost predicate OwnerComputes(st: Step, size: nat)
  {
    forall i: nat, m: seq<int>, m': seq<int> {:trigger st.f(i, m), st.f(i, m')} ::
      i < st.len && |m| == |m'| == size && Agree(st, i, m, m') ==> st.f(i, m) == st.f(i, m')
  }

  ghost predicate Agree(st: Step, i: nat, m: seq<int>, m': seq<int>)
    requires |m| == |m'|
  {
    forall x: nat :: x < |m| && (!InRange(st, x) || x == st.base + i) ==> m[x] == m'[x]
  }

  ghost predicate WellFormed(p: Program, size: nat, nThreads: nat)
  {
    && 0 < nThreads
    && forall k :: 0 <= k < |p| ==> Fits(p[k], size) && OwnerComputes(p[k], size)
  }

  function RunStep(st: Step, mem: seq<int>): seq<int>
  {
    seq(|mem|, x requires 0 <= x < |mem| => if InRange(st, x) then st.f(x - st.base, mem) else mem[x])
  }

  function RunSteps(p: Program, k: nat, mem: seq<int>): (r: seq<int>)
    requires k <= |p|
    ensures |r| == |mem|
  {
    if k == 0 then mem else RunStep(p[k - 1], RunSteps(p, k - 1, mem))
  }

  function From(st: Step, nThreads: nat, t: nat): nat
    requires 0 < nThreads
  {
    if st.sync then 0 else S.Start(st.len, nThreads, t)
  }

  function To(st: Step, nThreads: nat, t: nat): nat
    requires 0 < nThreads
  {
    if !st.sync then S.End(st.len, nThreads, t) else if t == 0 then st.len else 0
  }

  // ---- The machine ------------------------------------------------------------------------

  datatype Pc =
    | Waiting
    | Latch
    | Load
    | Execute(k: nat)
    | Compute(k: nat, i: nat)
    | Write(k: nat, i: nat, v: int)
    | Arrive(k: nat)
    | ResetCount(k: nat)
    | Advance(k: nat)
    | SpinStep(k: nat)
    | SpinEpoch(k: nat)
    | FinishRun
    | Publish

  /** `log` is history: the steps this thread has executed since it was last woken. */
  datatype Thread = Thread(localEpoch: nat, pc: Pc, log: seq<nat>)

  datatype MainPc = Outside | Store(i: nat) | Wait

  /** `start` (the memory a forward began with) and `forwards` are history. */
  datatype State = State(
    epoch: nat, currentStep: nat, doneThreads: nat, doneRuns: nat, runDone: bool,
    mem: seq<int>, threads: seq<Thread>, main: MainPc, start: seq<int>, forwards: nat)

  datatype Actor = Begin(filled: seq<int>) | Main | Worker(t: nat)

  function Init(nThreads: nat, mem: seq<int>): State
  {
    State(0, 0, 0, 0, true, mem, seq(nThreads, _ => Thread(0, Waiting, [])), Outside, mem, 0)
  }

  /** `forward()` holds the mutex from its first store to the epoch increment. */
  predicate MutexFree(s: State) { !s.main.Store? }

  predicate Enabled(p: Program, s: State, a: Actor)
  {
    match a
    case Begin(filled) => s.main.Outside? && |filled| == |s.mem|
    case Main => (s.main.Store? && s.main.i < 5) || (s.main.Wait? && s.runDone)
    case Worker(t) =>
      && t < |s.threads|
      && (s.threads[t].pc.Waiting? ==> MutexFree(s) && s.epoch != s.threads[t].localEpoch)
      && InBounds(p, s, t)
  }

  /** Array accesses of the worker loop; shown to hold in every reachable state. */
  predicate InBounds(p: Program, s: State, t: nat)
    requires t < |s.threads|
  {
    match s.threads[t].pc
    case Execute(k) => k < |p|
    case Compute(k, i) => k < |p|
    case Write(k, i, _) => k < |p| && p[k].base + i < |s.mem|
    case _ => true
  }

  function StepMain(s: State): State
    requires (s.main.Store? && s.main.i < 5) || s.main.Wait?
  {
    match s.main
    case Wait => s.(main := Outside, forwards := s.forwards + 1)
    case Store(i) =>
      if i == 0 then s.(currentStep := 0, main := Store(1))
      else if i == 1 then s.(doneThreads := 0, main := Store(2))
      else if i == 2 then s.(doneRuns := 0, main := Store(3))
      else if i == 3 then s.(runDone := false, main := Store(4))
      else s.(epoch := s.epoch + 1, main := Wait)
  }

  function Put(s: State, t: nat, th: Thread): State
    requires t < |s.threads|
  {
    s.(threads := s.threads[t := th])
  }

  /** One atomic operation of worker `t`. */
  function StepWorker(p: Program, s: State, t: nat): State
    requires Enabled(p, s, Worker(t)) && 0 < |s.threads|
  {
    var th := s.threads[t];
    var n := |s.threads|;
    match th.pc
    case Waiting => Put(s, t, th.(pc := Latch))
    case Latch => Put(s, t, Thread(s.epoch, Load, []))
    case Load => Put(s, t, th.(pc := if s.currentStep == |p| then FinishRun else Execute(s.currentStep)))
    case Execute(k) => Put(s, t, th.(pc := Compute(k, From(p[k], n, t))))
    case Compute(k, i) =>
      if i < To(p[k], n, t) then Put(s, t, th.(pc := Write(k, i, p[k].f(i, s.mem))))
      else Put(s, t, th.(pc := Arrive(k), log := th.log + [k]))
    case Write(k, i, v) => Put(s, t, th.(pc := Compute(k, i + 1))).(mem := s.mem[p[k].base + i := v])
    case Arrive(k) =>
      Put(s, t, th.(pc := if s.doneThreads == n - 1 then ResetCount(k) else SpinStep(k)))
      .(doneThreads := s.doneThreads + 1)
    case ResetCount(k) => Put(s, t, th.(pc := Advance(k))).(doneThreads := 0)
    case Advance(k) => Put(s, t, th.(pc := Load)).(currentStep := s.currentStep + 1)
    case SpinStep(k) => Put(s, t, th.(pc := if s.currentStep == k then SpinEpoch(k) else Load))
    case SpinEpoch(k) => Put(s, t, th.(pc := if s.epoch == th.localEpoch then SpinStep(k) else Load))
    case FinishRun =>
      Put(s, t, th.(pc := if s.doneRuns == n - 1 then Publish else Waiting)).(doneRuns := s.doneRuns + 1)
    case Publish => Put(s, t, th.(pc := Waiting)).(runDone := true)
  }

  function Apply(p: Program, s: State, a: Actor): State
    requires Enabled(p, s, a) && 0 < |s.threads|
  {
    match a
    case Begin(filled) => s.(main := Store(0), mem := filled, start := filled)
    case Main => StepMain(s)
    case Worker(t) => StepWorker(p, s, t)
  }

  ghost predicate IsRun(p: Program, nThreads: nat, mem: seq<int>, run: seq<Actor>, states: seq<State>)
    requires 0 < nThreads
  {
    && |states| == |run| + 1
    && states[0] == Init(nThreads, mem)
    && (forall i :: 0 <= i < |states| ==> |states[i].threads| == nThreads)
    && (forall i :: 0 <= i < |run| ==> Enabled(p, states[i], run[i]) && states[i + 1] == Apply(p, states[i], run[i]))
  }

  // ---- The invariant ------------------------------------------------------------------------

  function Upto(k: nat): seq<nat> { seq(k, i requires 0 <= i => i) }

  predicate Woken(th: Thread, epoch: nat) { th.localEpoch == epoch }

  predicate Arrived(th: Thread, epoch: nat, c: nat)
  {
    th.localEpoch == epoch &&
    (th.pc == SpinStep(c) || th.pc == SpinEpoch(c) || th.pc == ResetCount(c) || th.pc == Advance(c))
  }

  predicate Finished(th: Thread, epoch: nat) { th.localEpoch == epoch && (th.pc.Waiting? || th.pc.Publish?) }

  function CountArrived(ts: seq<Thread>, epoch: nat, c: nat): nat
  {
    if ts == [] then 0 else (if Arrived(ts[0], epoch, c) then 1 else 0) + CountArrived(ts[1..], epoch, c)
  }

  function CountFinished(ts: seq<Thread>, epoch: nat): nat
  {
    if ts == [] then 0 else (if Finished(ts[0], epoch) then 1 else 0) + CountFinished(ts[1..], epoch)
  }

  predicate Last(th: Thread) { th.pc.ResetCount? || th.pc.Advance? }

  /** How far a thread is through step `c`, as an index into the step's range. */
  function Progress(p: Program, nThreads: nat, t: nat, th: Thread, epoch: nat, c: nat): nat
    requires c < |p| && 0 < nThreads
  {
    if th.localEpoch != epoch then From(p[c], nThreads, t)
    else
      match th.pc
      case Compute(_, i) => i
      case Write(_, i, _) => i
      case Arrive(_) => To(p[c], nThreads, t)
      case ResetCount(_) => To(p[c], nThreads, t)
      case Advance(_) => To(p[c], nThreads, t)
      case SpinStep(k) => if k == c then To(p[c], nThreads, t) else From(p[c], nThreads, t)
      case SpinEpoch(k) => if k == c then To(p[c], nThreads, t) else From(p[c], nThreads, t)
      case _ => From(p[c], nThreads, t)
  }

  ghost predicate IdleOk(p: Program, s: State)
  {
    forall t :: 0 <= t < |s.threads| ==> s.threads[t].pc.Waiting? && s.threads[t].localEpoch == s.epoch
  }

  ghost predicate ThreadOk(p: Program, s: State, t: nat)
    requires t < |s.threads| && s.currentStep <= |p|
  {
    var th, c := s.threads[t], s.currentStep;
    var n := |s.threads|;
    0 < n &&
    match th.pc
    case Waiting => if Woken(th, s.epoch) then c == |p| && th.log == Upto(c) else th.localEpoch + 1 == s.epoch && c == 0
    case Latch => th.localEpoch + 1 == s.epoch && c == 0
    case Load => Woken(th, s.epoch) && th.log == Upto(c)
    case Execute(k) => Woken(th, s.epoch) && k == c < |p| && th.log == Upto(c)
    case Compute(k, i) =>
      Woken(th, s.epoch) && k == c < |p| && th.log == Upto(c) && From(p[c], n, t) <= i <= To(p[c], n, t)
    case Write(k, i, v) =>
      Woken(th, s.epoch) && k == c < |p| && th.log == Upto(c) && From(p[c], n, t) <= i < To(p[c], n, t)
    case Arrive(k) => Woken(th, s.epoch) && k == c < |p| && th.log == Upto(c + 1)
    case ResetCount(k) => Woken(th, s.epoch) && k == c < |p| && th.log == Upto(c + 1)
    case Advance(k) => Woken(th, s.epoch) && k == c < |p| && th.log == Upto(c + 1)
    case SpinStep(k) => Woken(th, s.epoch) && th.log == Upto(k + 1) && ((k == c < |p|) || k + 1 == c)
    case SpinEpoch(k) => Woken(th, s.epoch) && th.log == Upto(k + 1) && ((k == c < |p|) || k + 1 == c)
    case FinishRun => Woken(th, s.epoch) && c == |p| && th.log == Upto(c)
    case Publish => Woken(th, s.epoch) && c == |p| && th.log == Upto(c)
  }

  predicate DoneThreadsOk(s: State)
  {
    if exists t :: 0 <= t < |s.threads| && s.threads[t].pc.Advance? then s.doneThreads == 0
    else s.doneThreads == CountArrived(s.threads, s.epoch, s.currentStep)
  }

  /** The last thread to arrive is alone, and all the others have arrived. */
  predicate LastOk(s: State)
  {
    && (forall t, u :: 0 <= t < |s.threads| && 0 <= u < |s.threads| && Last(s.threads[t]) && Last(s.threads[u]) ==>
      t == u)
    && (forall t, u :: 0 <= t < |s.threads| && 0 <= u < |s.threads| && Last(s.threads[t]) ==>
          Arrived(s.threads[u], s.epoch, s.currentStep))
    && (CountArrived(s.threads, s.epoch, s.currentStep) == |s.threads| ==>
          exists t :: 0 <= t < |s.threads| && Last(s.threads[t]))
  }

  predicate RunDoneOk(s: State)
  {
    && s.doneRuns == CountFinished(s.threads, s.epoch)
    && (s.runDone ==> s.doneRuns == |s.threads|)
    && (s.runDone ==> forall t :: 0 <= t < |s.threads| ==> s.threads[t].pc.Waiting?)
    && (!s.runDone && s.doneRuns == |s.threads| ==> exists t :: 0 <= t < |s.threads| && s.threads[t].pc.Publish?)
    && (forall t :: 0 <= t < |s.threads| && s.threads[t].pc.Publish? ==> s.doneRuns == |s.threads|)
    && (forall t, u :: 0 <= t < |s.threads| && 0 <= u < |s.threads| ==>
      s.threads[t].pc.Publish? && s.threads[u].pc.Publish? ==> t == u)
  }

  predicate CountersOk(s: State) { DoneThreadsOk(s) && LastOk(s) && RunDoneOk(s) }

  /** Cell `base + i` of a step whose owner has got as far as `progress`. */
  ghost predicate CellOk(st: Step, mem: seq<int>, before: seq<int>, progress: nat, i: nat)
    requires |before| == |mem| && Fits(st, |mem|)
  {
    i < st.len ==> mem[st.base + i] == if i < progress then st.f(i, before) else before[st.base + i]
  }

  /** Each thread has written its share of the current step up to its progress, from the values of
      the memory the step began with. */
  ghost predicate ShareOk(p: Program, s: State, t: nat, before: seq<int>)
    requires t < |s.threads| && s.currentStep < |p| && |before| == |s.mem| && Fits(p[s.currentStep], |s.mem|)
  {
    var st, n, th := p[s.currentStep], |s.threads|, s.threads[t];
    && (forall i: nat :: From(st, n, t) <= i < To(st, n, t) ==>
          CellOk(st, s.mem, before, Progress(p, n, t, th, s.epoch, s.currentStep), i))
    && (th.pc.Write? && Woken(th, s.epoch) ==> th.pc.i < st.len && th.pc.v == st.f(th.pc.i, before))
  }

  ghost predicate MemOk(p: Program, s: State)
    requires s.currentStep <= |p|
  {
    var c := s.currentStep;
    var before := RunSteps(p, c, s.start);
    && |s.mem| == |s.start|
    && (c == |p| ==> s.mem == before)
    && (c < |p| ==>
          && Fits(p[c], |s.mem|)
          && (forall x :: 0 <= x < |s.mem| && !InRange(p[c], x) ==> s.mem[x] == before[x])
          && (forall t :: 0 <= t < |s.threads| ==> ShareOk(p, s, t, before)))
  }

  ghost predicate ActiveOk(p: Program, s: State)
  {
    && s.currentStep <= |p|
    && (forall t :: 0 <= t < |s.threads| ==> ThreadOk(p, s, t))
    && CountersOk(s)
    && MemOk(p, s)
  }

  ghost predicate Inv(p: Program, s: State)
  {
    && WellFormed(p, |s.mem|, |s.threads|)
    && |s.start| == |s.mem|
    && match s.main
       case Outside =>
         && IdleOk(p, s)
         && (0 < s.forwards ==>
               s.mem == RunSteps(p, |p|, s.start) && forall t :: 0 <= t < |s.threads| ==> s.threads[t].log == Upto(|p|))
       case Store(i) =>
         && IdleOk(p, s) && i < 5 && s.mem == s.start
         && (1 <= i ==> s.currentStep == 0) && (2 <= i ==> s.doneThreads == 0)
         && (3 <= i ==> s.doneRuns == 0) && (4 <= i ==> !s.runDone)
       case Wait => ActiveOk(p, s)
  }
}
