/** The stage protocol cannot run for ever, and when it can move no more the work is done. */
module StageProtocolTermination {
  import opened SkipDecision
  import opened StageProtocol
  import opened StageProtocolInvariant
  import opened StageProtocolProofs
  import opened StageProtocolSteps
  import opened StageProtocolTheorems

  function PcRank(pc: Pc): int
  {
    match pc
    case Idle => 0
    case Serving(_) => 1
    case Ready(_, _, _, _) => 2
    case Computed(_, _, _, _) => 3
    case MarkerSent(_, _) => 4
    case Stopped => 1
    case Failed => 0
  }

  function WorkerRank(n: nat, st: Stage): int { 6 * (n - st.served) + 1 - PcRank(st.pc) }

  function WorkersRank(n: nat, stages: seq<Stage>): int
  {
    if stages == [] then 0 else WorkerRank(n, stages[0]) + WorkersRank(n, stages[1..])
  }

  /** The root's share of `left` jobs with `w` workers. */
  function Share(w: nat, left: int): int { (w + 4) * left }

  lemma ShareStep(w: nat, left: int)
    ensures Share(w, left - 1) == Share(w, left) - (w + 4)
    ensures 0 <= left ==> 0 <= Share(w, left)
    ensures 1 <= left ==> w + 4 <= Share(w, left)
  {
  }

  function RootRank(net: Net, r: Root): int
  {
    var w := |Workers(net)|;
    Share(w, net.n - r.emitted) + (net.n - |r.collected|) + w + 2 -
    match r.pc
    case Next => 0
    case Sending(pending) => 1 + w - |pending|
    case Forward => 1 + w
    case Push(_) => 2 + w
    case Stopping(pending) => 1 + w - |pending|
    case Done => 1 + w
  }

  function Rank(net: Net, s: State): int
    requires Shape(net, s)
  {
    RootRank(net, s.root) + WorkersRank(net.n, s.stages)
  }

  lemma {:induction false} WorkersRankUpdate(n: nat, stages: seq<Stage>, j: nat, st: Stage)
    requires j < |stages|
    ensures WorkersRank(n, stages[j := st]) == WorkersRank(n, stages) - WorkerRank(n, stages[j]) + WorkerRank(n, st)
  {
    if j == 0 {
      assert stages[0 := st][1..] == stages[1..];
    } else {
      assert stages[j := st][1..] == stages[1..][j - 1 := st];
      WorkersRankUpdate(n, stages[1..], j - 1, st);
    }
  }

  lemma {:induction false} WorkersRankPositive(net: Net, stages: seq<Stage>, from: nat)
    requires from <= |stages|
    requires forall j :: from <= j < |stages| ==>
      stages[j].served <= net.n && (stages[j].served == net.n ==> stages[j].pc.Idle? || stages[j].pc.Stopped?)
    ensures 0 <= WorkersRank(net.n, stages[from..])
    decreases |stages| - from
  {
    if from < |stages| {
      WorkersRankPositive(net, stages, from + 1);
      assert stages[from..][1..] == stages[from + 1..];
    }
  }

  /** An action of stage `j` changes no other stage and not the root. */
  lemma OnlyOwnStage(net: Net, s: State, a: Action)
    requires WellFormed(net) && Shape(net, s) && Enabled(net, s, a)
    requires a.ReadCtrl? || a.TakeNormal? || a.TakeBypass? || a.Compute? || a.Send?
    ensures 1 <= a.j < net.pp
    ensures var s' := Apply(net, s, a);
      s'.root == s.root && |s'.stages| == |s.stages| && s'.stages == s.stages[a.j := s'.stages[a.j]]
  {
  }

  /** The rank of stage `j` before and after an action. */
  predicate Falls(net: Net, s: State, s': State, j: nat)
  {
    j < |s.stages| && j < |s'.stages| && WorkerRank(net.n, s'.stages[j]) < WorkerRank(net.n, s.stages[j])
  }

  lemma ReadFalls(net: Net, s: State, j: nat)
    requires WellFormed(net) && Inv(net, s) && Shape(net, s) && Enabled(net, s, ReadCtrl(j))
    ensures Falls(net, s, Apply(net, s, ReadCtrl(j)), j)
  {
    hide Local; hide Bypass; hide Row; hide Out; hide Opened; hide Serve; hide CtlSeq; hide Inv;
    OnlyOwnStage(net, s, ReadCtrl(j));
    InvAt(net, s, j);
    ReadStage(net, j, s.stages[j], s.ctl[j], s.root);
  }

  lemma TakeFalls(net: Net, s: State, a: Action)
    requires WellFormed(net) && Inv(net, s) && Shape(net, s) && Enabled(net, s, a) && (a.TakeNormal? || a.TakeBypass?)
    ensures Falls(net, s, Apply(net, s, a), a.j)
  {
    hide Inv; hide Apply;
    OnlyOwnStage(net, s, a);
    TakenIsReady(net, s, a);
    InvAt(net, s, a.j);
  }

  lemma ComputeFalls(net: Net, s: State, j: nat)
    requires WellFormed(net) && Inv(net, s) && Shape(net, s) && Enabled(net, s, Compute(j))
    ensures Falls(net, s, Apply(net, s, Compute(j)), j)
  {
    hide Local; hide Bypass; hide Row; hide Out; hide Opened; hide Serve; hide CtlSeq; hide Inv;
    OnlyOwnStage(net, s, Compute(j));
    InvAt(net, s, j);
    ComputeStage(net, j, s.stages[j]);
  }

  lemma SendFalls(net: Net, s: State, j: nat)
    requires WellFormed(net) && Inv(net, s) && Shape(net, s) && Enabled(net, s, Send(j))
    ensures Falls(net, s, Apply(net, s, Send(j)), j)
  {
    hide Local; hide Bypass; hide Row; hide Out; hide Opened; hide Serve; hide CtlSeq; hide Inv;
    OnlyOwnStage(net, s, Send(j));
    InvAt(net, s, j);
  }

  lemma WorkerAdvances(net: Net, s: State, a: Action)
    requires WellFormed(net) && Inv(net, s) && Shape(net, s) && Enabled(net, s, a)
    requires a.ReadCtrl? || a.TakeNormal? || a.TakeBypass? || a.Compute? || a.Send?
    ensures 1 <= a.j < net.pp
    ensures var s' := Apply(net, s, a);
      s'.root == s.root && |s'.stages| == |s.stages| && s'.stages == s.stages[a.j := s'.stages[a.j]]
        && Falls(net, s, s', a.j)
  {
    hide Inv; hide Apply; hide Enabled; hide Falls;
    OnlyOwnStage(net, s, a);
    match a {
      case ReadCtrl(j) => ReadFalls(net, s, j);
      case TakeNormal(j) => TakeFalls(net, s, a);
      case TakeBypass(j) => TakeFalls(net, s, a);
      case Compute(j) => ComputeFalls(net, s, j);
      case Send(j) => SendFalls(net, s, j);
    }
  }

  lemma InvAt(net: Net, s: State, j: nat)
    requires WellFormed(net) && Inv(net, s) && 1 <= j < net.pp
    ensures WorkerOk(net, j, s.stages[j]) && CtlOk(net, j, s.stages[j], s.root, s.ctl[j])
    ensures RootOk(net, s.root)
  {
  }

  lemma TakenIsReady(net: Net, s: State, a: Action)
    requires WellFormed(net) && Inv(net, s) && Shape(net, s) && Enabled(net, s, a) && (a.TakeNormal? || a.TakeBypass?)
    ensures var s' := Apply(net, s, a); s'.stages[a.j].pc.Ready? && s'.stages[a.j].served == s.stages[a.j].served
  {
    hide Local; hide Bypass; hide Row; hide Out; hide Opened; hide Serve; hide LinkSeq; hide BypSeq; hide CtlSeq;
    hide Inv;
    ShapeOf(net, s);
    OnlyOwnStage(net, s, a);
    StepOk(net, s, a);
    InvAt(net, Apply(net, s, a), a.j);
  }

  lemma RootAdvances(net: Net, s: State, a: Action)
    requires WellFormed(net) && Inv(net, s) && Enabled(net, s, a)
    requires !(a.ReadCtrl? || a.TakeNormal? || a.TakeBypass? || a.Compute? || a.Send?)
    ensures var s' := Apply(net, s, a);
      s'.stages == s.stages && RootRank(net, s'.root) < RootRank(net, s.root)
  {
    hide Local; hide Bypass; hide Row; hide Out; hide Opened; hide Serve; hide LinkSeq; hide BypSeq; hide CtlSeq;
    hide Inv;
    hide Share;
    ShareStep(|Workers(net)|, net.n - s.root.emitted);
  }

  lemma StepAdvances(net: Net, s: State, a: Action)
    requires WellFormed(net) && Inv(net, s) && Enabled(net, s, a)
    ensures Inv(net, Apply(net, s, a))
    ensures Rank(net, Apply(net, s, a)) < Rank(net, s)
  {
    hide Local; hide Bypass; hide Row; hide Out; hide Opened; hide Serve; hide LinkSeq; hide BypSeq; hide CtlSeq;
    hide Apply; hide WorkerRank; hide WorkersRank; hide RootRank; hide Enabled; hide Inv;
    ShapeOf(net, s);
    StepOk(net, s, a);
    if a.ReadCtrl? || a.TakeNormal? || a.TakeBypass? || a.Compute? || a.Send? {
      WorkerAdvances(net, s, a);
      WorkersRankUpdate(net.n, s.stages, a.j, Apply(net, s, a).stages[a.j]);
    } else {
      RootAdvances(net, s, a);
    }
  }

  lemma RootRankPositive(net: Net, r: Root)
    requires RootOk(net, r)
    ensures 0 <= RootRank(net, r)
  {
    hide Local; hide Out; hide Share;
    ShareStep(|Workers(net)|, net.n - r.emitted);
  }

  lemma RankPositive(net: Net, s: State)
    requires WellFormed(net) && Inv(net, s) && s.stages[0] == Init(net).stages[0]
    ensures 0 <= Rank(net, s)
  {
    hide Local; hide Bypass; hide Row; hide Out; hide Opened; hide Serve; hide LinkSeq; hide BypSeq; hide CtlSeq;
    hide Inv;
    hide RootRank; hide RootOk; hide WorkersRank; hide CtlOk;
    ShapeOf(net, s);
    InvAt(net, s, 1);
    RootRankPositive(net, s.root);
    forall j | 0 <= j < |s.stages|
      ensures s.stages[j].served <= net.n
      ensures s.stages[j].served == net.n ==> s.stages[j].pc.Idle? || s.stages[j].pc.Stopped?
    {
      if 0 < j {
        InvAt(net, s, j);
        SendsFacts(net, j, s.stages[j]);
      }
    }
    assert s.stages[0..] == s.stages;
    WorkersRankPositive(net, s.stages, 0);
  }

  lemma ShapeOf(net: Net, s: State)
    requires WellFormed(net) && Inv(net, s)
    ensures Shape(net, s)
  {
  }

  /** Every step of every run uses up rank, so no run is longer than the rank it starts with. */
  lemma {:induction false} RunsAreBounded(net: Net, run: seq<Action>, states: seq<State>, i: nat)
    requires WellFormed(net) && IsRun(net, run, states) && i < |states|
    ensures Inv(net, states[i]) && states[i].stages[0] == Init(net).stages[0]
    ensures i + Rank(net, states[i]) <= Rank(net, Init(net))
    ensures i <= Rank(net, Init(net))
  {
    hide Inv; hide Apply; hide Rank;
    RunKeepsInv(net, run, states, i);
    ShapeOf(net, states[i]);
    if 0 < i {
      RunsAreBounded(net, run, states, i - 1);
      var s, a := states[i - 1], run[i - 1];
      assert Shape(net, s) && Enabled(net, s, a) && states[i] == Apply(net, s, a);
      StepAdvances(net, s, a);
      IdleRootSlot(net, s, a);
    }
    RankPositive(net, states[i]);
  }

  lemma IdleRootSlot(net: Net, s: State, a: Action)
    requires WellFormed(net) && Shape(net, s) && Enabled(net, s, a)
    ensures Shape(net, Apply(net, s, a)) && Apply(net, s, a).stages[0] == s.stages[0]
  {
  }

  /** A run that cannot be extended has delivered every job: the root holds the logits of all of
      them, every worker has stopped in the state of the sequential run, every channel is empty. */
  lemma StuckMeansComplete(net: Net, run: seq<Action>, states: seq<State>)
    requires WellFormed(net) && IsRun(net, run, states) && Shape(net, states[|run|])
    requires forall a :: !Enabled(net, states[|run|], a)
    ensures var s := states[|run|];
      && Final(net, s) && ChannelsEmpty(net, s)
      && |s.root.collected| == net.n
      && (forall k :: 0 <= k < net.n ==> s.root.collected[k] == LogitsMsg(net, k))
      && (forall j :: 1 <= j < net.pp ==> s.stages[j].w == Local(net, j, net.n) && |s.stages[j].took| == net.n)
  {
    var s := states[|run|];
    RunKeepsInv(net, run, states, |run|);
    if !Final(net, s) {
      var a := NoDeadlock(net, s);
      assert false;
    }
    FinalIsComplete(net, s);
  }

  lemma FinalIsComplete(net: Net, s: State)
    requires WellFormed(net) && Inv(net, s) && Final(net, s)
    ensures ChannelsEmpty(net, s) && |s.root.collected| == net.n
    ensures forall k :: 0 <= k < net.n ==> s.root.collected[k] == LogitsMsg(net, k)
    ensures forall j :: 1 <= j < net.pp ==> s.stages[j].w == Local(net, j, net.n) && |s.stages[j].took| == net.n
  {
    hide Local; hide Bypass; hide Row; hide Out; hide Opened; hide Serve;
    assert RootOk(net, s.root) && BypOk(net, s) && RetOk(net, s);
    forall j | 1 <= j < net.pp
      ensures s.stages[j].w == Local(net, j, net.n) && |s.stages[j].took| == net.n && s.ctl[j] == []
    {
      assert WorkerOk(net, j, s.stages[j]) && CtlOk(net, j, s.stages[j], s.root, s.ctl[j]);
    }
    forall j | 1 <= j < net.last
      ensures s.link[j] == []
    {
      assert LinkOk(net, j, s.stages[j], s.stages[j + 1], s.link[j]);
      assert WorkerOk(net, j, s.stages[j]) && WorkerOk(net, j + 1, s.stages[j + 1]);
    }
  }
}
