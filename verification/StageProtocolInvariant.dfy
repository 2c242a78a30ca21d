/** Every interleaving of the stage protocol keeps every worker, channel and the root exactly
    where the sequential meaning of the job list puts them. */
module StageProtocolInvariant {
  import opened Common
  import opened SkipDecision
  import opened StageProtocol

  // ---- Progress counters --------------------------------------------------------------------

  function Reads(st: Stage): nat
  {
    st.served + if st.pc.Idle? || st.pc.Stopped? || st.pc.Failed? then 0 else 1
  }

  function Takes(st: Stage): nat
  {
    st.served + if st.pc.Ready? || st.pc.Computed? || st.pc.MarkerSent? then 1 else 0
  }

  /** Jobs whose link message has been sent. */
  function Sends(st: Stage): nat
  {
    st.served + if st.pc.MarkerSent? then 1 else 0
  }

  function CtlReads(j: nat, st: Stage): nat
  {
    Reads(st) + (if j == 1 then Takes(st) else 0) + (if st.pc.Stopped? then 1 else 0)
  }

  function Started(r: Root): nat
  {
    r.emitted + if r.pc.Sending? || r.pc.Forward? || r.pc.Push? then 1 else 0
  }

  function CtlSends(j: nat, r: Root): nat
  {
    r.emitted + (if j == 1 then r.emitted else 0)
    + (if (r.pc.Sending? && j !in r.pc.pending) || r.pc.Forward? || r.pc.Push? then 1 else 0)
    + (if (r.pc.Stopping? && j !in r.pc.pending) || r.pc.Done? then 1 else 0)
  }

  // ---- Expected messages --------------------------------------------------------------------

  ghost predicate Skips(net: Net, j: nat, k: nat)
    requires k < net.n
  {
    net.SkipAt(j) && Bypass(net, k)
  }

  ghost function InputMsg(net: Net, j: nat, k: nat): Msg
    requires k < net.n
  {
    if Skips(net, j, k) then Act(net.jobs[k].pkt.position, true, [])
    else Act(net.jobs[k].pkt.position, net.PostTarget(j) && Bypass(net, k), Row(net, j, k))
  }

  ghost function Source(net: Net, j: nat, k: nat): nat
    requires k < net.n && 1 <= j
  {
    if net.PostTarget(j) && Bypass(net, k) then net.target - 1 else j - 1
  }

  ghost function Expected(net: Net, j: nat, k: nat): Taken
    requires k < net.n && 1 <= j
  {
    Taken(Source(net, j, k), InputMsg(net, j, k))
  }

  ghost function LogitsMsg(net: Net, k: nat): Msg
    requires k < net.n
  {
    Act(net.jobs[k].pkt.position, false, Out(net, net.last, k))
  }

  ghost function CtlItem(net: Net, j: nat, i: nat): Msg
  {
    if j == 1 && i < 2 * net.n then
      if i % 2 == 0 then Ctrl(net.jobs[i / 2].pkt) else InputMsg(net, 1, i / 2)
    else if j != 1 && i < net.n then Ctrl(net.jobs[i].pkt)
    else Ctrl(StopPacket)
  }

  ghost function CtlSeq(net: Net, j: nat, lo: nat, hi: nat): seq<Msg>
    requires lo <= hi
  {
    seq(hi - lo, i requires 0 <= i => CtlItem(net, j, lo + i))
  }

  /** What stage `j` leaves on its link for the jobs in [lo, hi): the target is silent on a bypassed job. */
  ghost function LinkSeq(net: Net, j: nat, lo: nat, hi: nat): seq<Msg>
    requires hi <= net.n
    decreases hi
  {
    if hi <= lo then []
    else LinkSeq(net, j, lo, hi - 1) + if Skips(net, j, hi - 1) then [] else [InputMsg(net, j + 1, hi - 1)]
  }

  /** What stage target-1 leaves on the bypass socket for the jobs in [lo, hi). */
  ghost function BypSeq(net: Net, lo: nat, hi: nat): seq<Msg>
    requires hi <= net.n
    decreases hi
  {
    if hi <= lo then []
    else BypSeq(net, lo, hi - 1) + if Bypass(net, hi - 1) then [InputMsg(net, net.target + 1, hi - 1)] else []
  }

  ghost function RetSeq(net: Net, lo: nat, hi: nat): seq<Msg>
    requires lo <= hi <= net.n
  {
    seq(hi - lo, i requires 0 <= i && lo + i < net.n => LogitsMsg(net, lo + i))
  }

  // ---- The invariant ------------------------------------------------------------------------

  ghost predicate WorkerOk(net: Net, j: nat, st: Stage)
    requires 1 <= j
  {
    && Takes(st) <= net.n && Reads(st) <= net.n
    && |st.took| == Takes(st)
    && (forall k :: 0 <= k < |st.took| ==> st.took[k] == Expected(net, j, k))
    && PcOk(net, j, st)
  }

  ghost predicate PcOk(net: Net, j: nat, st: Stage)
    requires Reads(st) <= net.n
  {
    var k := st.served;
    match st.pc
    case Idle => st.w == Local(net, j, k)
    case Serving(pkt) => pkt == net.jobs[k].pkt && st.w == Opened(net, j, k)
    case Ready(pkt, row, skip, delta) =>
      && pkt == net.jobs[k].pkt
      && skip == Skips(net, j, k)
      && (if skip then st.w == Opened(net, j, k) && delta == None
          else
            && row == Row(net, j, k)
            && st.w == AfterRow(net.options, Opened(net, j, k), pkt, row)
            && delta == Delta(net.options, net.norm, Opened(net, j, k), pkt, row))
    case Computed(pkt, out, skip, accept) =>
      && pkt == net.jobs[k].pkt
      && skip == Skips(net, j, k)
      && st.w == Local(net, j, k + 1)
      && (!skip ==> out == Out(net, j, k))
      && (net.options.execute && DecodeSingle(pkt) && net.options.IsDecisionStage(j) ==> accept == Bypass(net, k))
    case MarkerSent(pkt, out) =>
      && pkt == net.jobs[k].pkt
      && net.options.IsDecisionStage(j)
      && Bypass(net, k)
      && st.w == Local(net, j, k + 1)
      && out == Out(net, j, k)
    case Stopped => k == net.n && st.w == Local(net, j, k)
    case Failed => false
  }

  ghost predicate CtlOk(net: Net, j: nat, st: Stage, r: Root, ch: seq<Msg>)
  {
    CtlReads(j, st) <= CtlSends(j, r) && ch == CtlSeq(net, j, CtlReads(j, st), CtlSends(j, r))
  }

  ghost predicate LinkOk(net: Net, j: nat, st: Stage, next: Stage, ch: seq<Msg>)
    requires Sends(st) <= net.n
  {
    ch == LinkSeq(net, j, Takes(next), Sends(st))
  }

  /** Whatever stage `j + 1` has taken, stage `j` had sent; the stage after the target is treated apart. */
  ghost predicate OrderOk(net: Net, j: nat, st: Stage, next: Stage)
  {
    net.PostTarget(j + 1) || Takes(next) <= Sends(st)
  }

  /** The stage after the target: every job it took came from the stage it was routed through. */
  ghost predicate RouteOk(net: Net, s: State)
    requires Shape(net, s) && WellFormed(net)
  {
    net.options.execute ==>
      var before, at, after := s.stages[net.target - 1], s.stages[net.target], s.stages[net.target + 1];
      && Takes(after) <= net.n
      && (forall k :: 0 <= k < Takes(after) && Bypass(net, k) ==> k < before.served)
      && (forall k :: 0 <= k < Takes(after) && !Bypass(net, k) ==> k < at.served)
  }

  ghost predicate BypOk(net: Net, s: State)
    requires Shape(net, s) && WellFormed(net)
  {
    if net.options.execute && 2 <= net.target then
      var before, after := s.stages[net.target - 1], s.stages[net.target + 1];
      before.served <= net.n && s.byp == BypSeq(net, Takes(after), before.served)
    else s.byp == []
  }

  ghost predicate RootOk(net: Net, r: Root)
  {
    && Started(r) <= net.n
    && |r.collected| <= r.emitted
    && (forall k :: 0 <= k < |r.collected| ==> r.collected[k] == LogitsMsg(net, k))
    && (forall k :: 0 <= k < Started(r) && !net.jobs[k].wave ==> k <= |r.collected|)
    && (r.pc.Sending? ==> r.pc.pending != {} && r.pc.pending <= Workers(net))
    && (r.pc.Stopping? ==> r.pc.pending != {} && r.pc.pending <= Workers(net))
    && (r.pc.Stopping? || r.pc.Done? ==> r.emitted == net.n == |r.collected|)
    && (if r.pc.Push? then
          r.kv == Local(net, 0, r.emitted + 1).kv && r.pc.out == Out(net, 0, r.emitted)
        else r.kv == Local(net, 0, r.emitted).kv)
  }

  ghost predicate RetOk(net: Net, s: State)
    requires Shape(net, s) && WellFormed(net)
  {
    var st := s.stages[net.last];
    && |s.root.collected| <= st.served <= net.n
    && s.ret == RetSeq(net, |s.root.collected|, st.served)
  }

  ghost predicate Inv(net: Net, s: State)
    requires WellFormed(net)
  {
    && Shape(net, s)
    && RootOk(net, s.root)
    && (forall j :: 1 <= j < net.pp ==> WorkerOk(net, j, s.stages[j]))
    && (forall j :: 1 <= j < net.pp ==> CtlOk(net, j, s.stages[j], s.root, s.ctl[j]))
    && (forall j :: 1 <= j < net.last ==> LinkOk(net, j, s.stages[j], s.stages[j + 1], s.link[j]))
    && (forall j :: 1 <= j < net.last ==> OrderOk(net, j, s.stages[j], s.stages[j + 1]))
    && RouteOk(net, s)
    && BypOk(net, s)
    && RetOk(net, s)
  }
}
