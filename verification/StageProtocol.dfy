/** The root / worker protocol of a pipeline-parallel run (src/app.cpp) as a state machine over
    FIFO channels: control packets and activations share the root socket, the stage before the
    skip target sends header-only markers and bypass activations, and the stage after the target
    polls two sources. Beside it stands what the run is meant to compute, job by job. */
module StageProtocol {
  import opened Common
  import opened SkipDecision

  // ---- The sequential meaning -------------------------------------------------------------

  /** One `forward()` of the root; `wave` says that it does not wait for the logits of the job before. */
  datatype Job = Job(pkt: Packet, tokens: Vec, wave: bool)

  /** `stage(j, pkt, kv, row)` is one execution of the op program of stage `j`. */
  datatype Net = Net(
    pp: nat,
    options: SkipOptions,
    norm: (Vec, Vec) -> Option<real>,
    stage: (nat, Packet, Vec, Vec) -> (Vec, Vec),
    jobs: seq<Job>)
  {
    const n := |jobs|
    const last: nat := if pp == 0 then 0 else pp - 1
    const target := options.target

    predicate SkipAt(j: nat) { options.execute && j == options.target }
    predicate PostTarget(j: nat) { options.execute && j == options.target + 1 }
  }

  predicate DecodeJob(net: Net, k: nat)
    requires k < net.n
  {
    DecodeSingle(net.jobs[k].pkt)
  }

  /** What the command line and the root enforce: a target in [1, pp-2], non-empty batches, and
      wave emission only between prefill chunks. */
  predicate WellFormed(net: Net)
  {
    && 2 <= net.pp
    && (net.options.Tracking() ==> 1 <= net.target <= net.pp - 2)
    && (forall k :: 0 <= k < net.n ==> 1 <= net.jobs[k].pkt.batchSize)
    && (forall k :: 0 <= k < net.n && net.jobs[k].wave ==>
          0 < k && !net.jobs[k].pkt.decode && !net.jobs[k - 1].pkt.decode)
  }

  const InitWorker := Worker([], false, false, [], 0, 0, 0)

  datatype Served = Served(worker: Worker, out: Vec, accept: bool)

  /** One stage serving one job on one row. The root keeps no skip state. */
  function Serve(net: Net, j: nat, w: Worker, pkt: Packet, row: Vec): Served
  {
    var (kv', out) := net.stage(j, pkt, w.kv, row);
    if j == 0 then Served(w.(kv := kv'), out, false)
    else
      var delta := Delta(net.options, net.norm, w, pkt, row);
      var w1 := AfterRow(net.options, w, pkt, row).(kv := kv');
      Served(AfterDecision(net.options, j, w1, pkt, delta), out, Accepts(net.options, j, w1, pkt, delta))
  }

  /** The state of stage `j` after the first `k` jobs. */
  ghost function Local(net: Net, j: nat, k: nat): Worker
    requires k <= net.n
    decreases k, 0, 0
  {
    if k == 0 then InitWorker
    else
      var w := Opened(net, j, k - 1);
      if net.SkipAt(j) && Bypass(net, k - 1) then w
      else Serve(net, j, w, net.jobs[k - 1].pkt, Row(net, j, k - 1)).worker
  }

  /** The state of stage `j` once it has read the control packet of job `k`. */
  ghost function Opened(net: Net, j: nat, k: nat): Worker
    requires k < net.n
    decreases k, 0, 1
  {
    AfterControl(Local(net, j, k), net.jobs[k].pkt)
  }

  /** The row stage `j` works on in job `k`. */
  ghost function Row(net: Net, j: nat, k: nat): Vec
    requires k < net.n
    decreases k, j, 2
  {
    if j == 0 then net.jobs[k].tokens
    else if net.PostTarget(j) && Bypass(net, k) then Out(net, net.target - 1, k)
    else Out(net, j - 1, k)
  }

  ghost function Out(net: Net, j: nat, k: nat): Vec
    requires k < net.n
    decreases k, j, 3
  {
    Serve(net, j, Opened(net, j, k), net.jobs[k].pkt, Row(net, j, k)).out
  }

  /** Job `k` goes around the target stage. The root (stage 0) never decides. */
  ghost predicate Bypass(net: Net, k: nat)
    requires k < net.n
    decreases k, if net.target == 0 then 0 else net.target - 1, 4
  {
    && net.options.execute
    && 2 <= net.target
    && DecodeJob(net, k)
    && Serve(net, net.target - 1, Opened(net, net.target - 1, k), net.jobs[k].pkt,
             Row(net, net.target - 1, k)).accept
  }

  // ---- Messages and states ----------------------------------------------------------------

  datatype Msg = Ctrl(pkt: Packet) | Act(pos: nat, bypass: bool, payload: Vec)

  datatype Taken = Taken(source: nat, msg: Msg)

  datatype Pc =
    | Idle
    | Serving(pkt: Packet)
    | Ready(pkt: Packet, row: Vec, skip: bool, delta: Option<real>)
    | Computed(pkt: Packet, out: Vec, skip: bool, accept: bool)
    | MarkerSent(pkt: Packet, out: Vec)
    | Stopped
    | Failed

  /** A worker; `served` and `took` record its history and steer nothing. */
  datatype Stage = Stage(w: Worker, pc: Pc, served: nat, took: seq<Taken>)

  datatype RootPc =
    | Next
    | Sending(pending: set<nat>)
    | Forward
    | Push(out: Vec)
    | Stopping(pending: set<nat>)
    | Done

  datatype Root = Root(kv: Vec, pc: RootPc, emitted: nat, collected: seq<Msg>)

  /** `ctl[j]` is the socket root -> j, `link[j]` is j -> j+1 (j >= 1), `byp` is target-1 -> target+1,
      `ret` is last -> root. */
  datatype State = State(
    root: Root, stages: seq<Stage>, ctl: seq<seq<Msg>>, link: seq<seq<Msg>>, byp: seq<Msg>, ret: seq<Msg>)

  const StopPacket := Packet(0, 0, false)

  predicate IsWorker(net: Net, j: nat) { 1 <= j < net.pp }

  function Workers(net: Net): set<nat> { set j: nat | 1 <= j < net.pp && IsWorker(net, j) }

  function Init(net: Net): State
  {
    State(Root([], Next, 0, []),
          seq(net.pp, _ => Stage(InitWorker, Idle, 0, [])),
          seq(net.pp, _ => []), seq(net.pp, _ => []), [], [])
  }

  predicate Shape(net: Net, s: State)
  {
    |s.stages| == net.pp && |s.ctl| == net.pp && |s.link| == net.pp
  }

  // ---- Steps --------------------------------------------------------------------------------

  datatype Action =
    | StartJob
    | SendCtrl(to: nat)
    | RootForward
    | RootPush
    | Collect
    | StartStop
    | SendStop(to: nat)
    | ReadCtrl(j: nat)
    | TakeNormal(j: nat)
    | TakeBypass(j: nat)
    | Compute(j: nat)
    | Send(j: nat)

  /** The worker loop polls two sockets only in this state. */
  predicate Polls(net: Net, j: nat, pkt: Packet)
  {
    net.PostTarget(j) && DecodeSingle(pkt)
  }

  /** The socket from the stage before `j`; stage 1 reads the root socket. */
  function Upstream(net: Net, s: State, j: nat): seq<Msg>
    requires Shape(net, s) && 1 <= j < net.pp
  {
    if j == 1 then s.ctl[1] else s.link[j - 1]
  }

  /** The socket from target-1 to target+1; for target 1 that is the root socket of stage 2. */
  function BypassSocket(net: Net, s: State): seq<Msg>
    requires Shape(net, s) && 3 <= net.pp
  {
    if net.target == 1 then s.ctl[2] else s.byp
  }

  predicate MayStart(net: Net, s: State)
  {
    && s.root.emitted < net.n
    && (|s.root.collected| == s.root.emitted || net.jobs[s.root.emitted].wave)
  }

  predicate Enabled(net: Net, s: State, a: Action)
    requires Shape(net, s) && WellFormed(net)
  {
    match a
    case StartJob => s.root.pc.Next? && MayStart(net, s)
    case SendCtrl(to) => s.root.pc.Sending? && to in s.root.pc.pending && 1 <= to < net.pp && s.root.emitted < net.n
    case RootForward => s.root.pc == Forward && s.root.emitted < net.n
    case RootPush => s.root.pc.Push? && s.root.emitted < net.n
    case Collect => s.root.pc.Next? && !MayStart(net, s) && |s.root.collected| < s.root.emitted && s.ret != []
    case StartStop => s.root.pc.Next? && s.root.emitted == net.n && |s.root.collected| == net.n
    case SendStop(to) => s.root.pc.Stopping? && to in s.root.pc.pending && 1 <= to < net.pp
    case ReadCtrl(j) => 1 <= j < net.pp && s.stages[j].pc.Idle? && s.ctl[j] != []
    case TakeNormal(j) => 1 <= j < net.pp && s.stages[j].pc.Serving? && Upstream(net, s, j) != []
    case TakeBypass(j) =>
      && 1 <= j < net.pp && s.stages[j].pc.Serving? && Polls(net, j, s.stages[j].pc.pkt)
      && BypassSocket(net, s) != []
    case Compute(j) => 1 <= j < net.pp && s.stages[j].pc.Ready?
    case Send(j) => 1 <= j < net.pp && (s.stages[j].pc.Computed? || s.stages[j].pc.MarkerSent?)
  }

  function ReadControl(st: Stage, m: Msg): Stage
  {
    if !m.Ctrl? then st.(pc := Failed)
    else if m.pkt.batchSize == 0 then st.(pc := Stopped)
    else st.(w := AfterControl(st.w, m.pkt), pc := Serving(m.pkt))
  }

  /** `beforeForward` once a message has arrived. */
  function TakeMessage(net: Net, j: nat, st: Stage, source: nat, m: Msg): Stage
    requires st.pc.Serving?
  {
    var pkt := st.pc.pkt;
    var st1 := st.(took := st.took + [Taken(source, m)]);
    if !m.Act? then st1.(pc := Failed)
    else if net.SkipAt(j) && DecodeSingle(pkt) && m.bypass && m.payload == [] then
      st1.(pc := Ready(pkt, [], true, None))
    else if m.pos != pkt.position then st1.(pc := Failed)
    else st1.(w := AfterRow(net.options, st.w, pkt, m.payload),
              pc := Ready(pkt, m.payload, false, Delta(net.options, net.norm, st.w, pkt, m.payload)))
  }

  /** `executor.forward()` unless skipped, then the decision at the head of `afterForward`. */
  function RunStage(net: Net, j: nat, st: Stage): Stage
    requires st.pc.Ready?
  {
    var Ready(pkt, row, skip, delta) := st.pc;
    var (kv', out) := if skip then (st.w.kv, []) else net.stage(j, pkt, st.w.kv, row);
    var w1 := st.w.(kv := kv');
    st.(w := AfterDecision(net.options, j, w1, pkt, delta),
        pc := Computed(pkt, out, skip, Accepts(net.options, j, w1, pkt, delta)))
  }

  function Finish(st: Stage): Stage { st.(pc := Idle, served := st.served + 1) }

  /** The rest of `afterForward`. */
  function SendOn(net: Net, s: State, j: nat): State
    requires Shape(net, s) && 1 <= j < net.pp
    requires s.stages[j].pc.Computed? || s.stages[j].pc.MarkerSent?
  {
    var st := s.stages[j];
    var pkt := st.pc.pkt;
    if st.pc.MarkerSent? then
      s.(stages := s.stages[j := Finish(st)], byp := s.byp + [Act(pkt.position, true, st.pc.out)])
    else if net.SkipAt(j) && DecodeSingle(pkt) && st.pc.skip then
      s.(stages := s.stages[j := Finish(st)])
    else if j == net.last then
      s.(stages := s.stages[j := Finish(st)], ret := s.ret + [Act(pkt.position, false, st.pc.out)])
    else if net.options.execute && DecodeSingle(pkt) && net.options.IsDecisionStage(j) && st.pc.accept then
      s.(stages := s.stages[j := st.(pc := MarkerSent(pkt, st.pc.out))],
         link := s.link[j := s.link[j] + [Act(pkt.position, true, [])]])
    else
      s.(stages := s.stages[j := Finish(st)],
         link := s.link[j := s.link[j] + [Act(pkt.position, false, st.pc.out)]])
  }

  function Apply(net: Net, s: State, a: Action): State
    requires Shape(net, s) && WellFormed(net) && Enabled(net, s, a)
  {
    var r := s.root;
    match a
    case StartJob => s.(root := r.(pc := Sending(Workers(net))))
    case SendCtrl(to) =>
      var rest := r.pc.pending - {to};
      s.(root := r.(pc := if rest == {} then Forward else Sending(rest)),
         ctl := s.ctl[to := s.ctl[to] + [Ctrl(net.jobs[r.emitted].pkt)]])
    case RootForward =>
      var (kv', out) := net.stage(0, net.jobs[r.emitted].pkt, r.kv, net.jobs[r.emitted].tokens);
      s.(root := r.(kv := kv', pc := Push(out)))
    case RootPush =>
      s.(root := r.(pc := Next, emitted := r.emitted + 1),
         ctl := s.ctl[1 := s.ctl[1] + [Act(net.jobs[r.emitted].pkt.position, false, r.pc.out)]])
    case Collect =>
      s.(root := r.(collected := r.collected + [s.ret[0]]), ret := s.ret[1..])
    case StartStop => s.(root := r.(pc := Stopping(Workers(net))))
    case SendStop(to) =>
      var rest := r.pc.pending - {to};
      s.(root := r.(pc := if rest == {} then Done else Stopping(rest)),
         ctl := s.ctl[to := s.ctl[to] + [Ctrl(StopPacket)]])
    case ReadCtrl(j) =>
      s.(stages := s.stages[j := ReadControl(s.stages[j], s.ctl[j][0])], ctl := s.ctl[j := s.ctl[j][1..]])
    case TakeNormal(j) =>
      var s1 := s.(stages := s.stages[j := TakeMessage(net, j, s.stages[j], j - 1, Upstream(net, s, j)[0])]);
      if j == 1 then s1.(ctl := s.ctl[1 := s.ctl[1][1..]]) else s1.(link := s.link[j - 1 := s.link[j - 1][1..]])
    case TakeBypass(j) =>
      var s1 := s.(stages := s.stages[j := TakeMessage(net, j, s.stages[j], net.target - 1, BypassSocket(net, s)[0])]);
      if net.target == 1 then s1.(ctl := s.ctl[2 := s.ctl[2][1..]]) else s1.(byp := s.byp[1..])
    case Compute(j) => s.(stages := s.stages[j := RunStage(net, j, s.stages[j])])
    case Send(j) => SendOn(net, s, j)
  }

  /** A run: every interleaving of root and workers is a sequence of enabled actions. */
  ghost predicate IsRun(net: Net, run: seq<Action>, states: seq<State>)
    requires WellFormed(net)
  {
    && |states| == |run| + 1
    && states[0] == Init(net)
    && (forall i :: 0 <= i < |run| ==>
          Shape(net, states[i]) && Enabled(net, states[i], run[i]) && states[i + 1] == Apply(net, states[i], run[i]))
  }
}
