/** What the sequential meaning of the stage protocol is, said with the stage programs and the rows alone:
    every job runs through the stages in turn, and a decode token goes around the target exactly when its
    row has changed little enough (src/app.cpp). */
module StageProtocolMeaning {
  import opened Common
  import opened SkipDecision
  import opened StageProtocol
  import opened StageProtocolInvariant
  import opened StageProtocolProofs
  import opened StageProtocolTheorems
  import opened StageProtocolTermination

  // ---- One job, stage by stage ------------------------------------------------------------------------

  /** A stage that is not skipped hands on what its program makes of the row it got; a skipped stage keeps
      what it has, and the stage behind it gets the row from before it. */
  lemma StageEquations(net: Net, j: nat, k: nat)
    requires k < net.n
    ensures var skipped := net.options.execute && j == net.options.target && Bypass(net, k);
      && Local(net, j, 0).kv == [] && Row(net, 0, k) == net.jobs[k].tokens
      && (!skipped ==>
            (Local(net, j, k + 1).kv, Out(net, j, k)) ==
            net.stage(j, net.jobs[k].pkt, Local(net, j, k).kv, Row(net, j, k)))
      && (skipped ==> Local(net, j, k + 1).kv == Local(net, j, k).kv)
      && Row(net, j + 1, k) == Out(net, if skipped && 0 < j then j - 1 else j, k)
  {
    LocalStep(net, j, k);
    RowStep(net, 0, k);
    RowStep(net, j + 1, k);
    BypassStep(net, k);
    hide Local; hide Row; hide Out; hide Bypass; hide Opened;
  }

  // ---- The fold of all stages over all jobs -----------------------------------------------------------

  /** The first `j` stages on one job: what they keep, and the row they hand on. */
  function Through(net: Net, pkt: Packet, tokens: Vec, kvs: seq<Vec>, skipped: bool, j: nat): (r: (seq<Vec>, Vec))
    requires j <= |kvs|
    ensures |r.0| == j
  {
    if j == 0 then ([], tokens)
    else
      var (kept, row) := Through(net, pkt, tokens, kvs, skipped, j - 1);
      if skipped && j - 1 == net.options.target then (kept + [kvs[j - 1]], row)
      else
        var (kv, out) := net.stage(j - 1, pkt, kvs[j - 1], row);
        (kept + [kv], out)
  }

  /** The first `k` jobs, one after the other: what the stages keep, and the logits of each job. */
  function Fold(net: Net, bypass: seq<bool>, k: nat): (r: (seq<Vec>, seq<Vec>))
    requires k <= net.n == |bypass|
    ensures |r.0| == net.pp && |r.1| == k
  {
    if k == 0 then (seq(net.pp, _ => []), [])
    else
      var (kvs, logits) := Fold(net, bypass, k - 1);
      var (kept, out) := Through(net, net.jobs[k - 1].pkt, net.jobs[k - 1].tokens, kvs, bypass[k - 1], net.pp);
      (kept, logits + [out])
  }

  /** Which jobs go around the target. */
  ghost predicate Bypassed(net: Net, bypass: seq<bool>)
  {
    |bypass| == net.n && forall k :: 0 <= k < net.n ==> (bypass[k] <==> Bypass(net, k))
  }

  lemma {:induction false} ThroughIs(net: Net, bypass: seq<bool>, k: nat, kvs: seq<Vec>, j: nat)
    requires WellFormed(net) && Bypassed(net, bypass) && k < net.n && j <= net.pp == |kvs|
    requires forall i :: 0 <= i < net.pp ==> kvs[i] == Local(net, i, k).kv
    ensures var (kept, row) := Through(net, net.jobs[k].pkt, net.jobs[k].tokens, kvs, bypass[k], j);
      row == Row(net, j, k) && forall i :: 0 <= i < j ==> kept[i] == Local(net, i, k + 1).kv
    decreases j
  {
    hide Local; hide Row; hide Out; hide Bypass;
    StageEquations(net, 0, k);
    if 0 < j {
      ThroughIs(net, bypass, k, kvs, j - 1);
      StageEquations(net, j - 1, k);
      BypassStep(net, k);
      if bypass[k] && j - 1 == net.options.target { StageEquations(net, j - 2, k); }
    }
  }

  lemma {:induction false} FoldIs(net: Net, bypass: seq<bool>, k: nat)
    requires WellFormed(net) && Bypassed(net, bypass) && k <= net.n
    ensures var (kvs, logits) := Fold(net, bypass, k);
      && (forall i :: 0 <= i < net.pp ==> kvs[i] == Local(net, i, k).kv)
      && (forall i :: 0 <= i < k ==> logits[i] == Out(net, net.last, i))
    decreases k
  {
    hide Local; hide Row; hide Out; hide Bypass; hide Through;
    if k == 0 {
      forall i | 0 <= i < net.pp ensures Local(net, i, 0).kv == [] { NothingYet(net, i); }
    } else {
      FoldIs(net, bypass, k - 1);
      ThroughIs(net, bypass, k - 1, Fold(net, bypass, k - 1).0, net.pp);
      StageEquations(net, net.last, k - 1);
      BypassStep(net, k - 1);
    }
  }

  lemma NothingYet(net: Net, j: nat)
    ensures Local(net, j, 0).kv == []
  {
  }

  /** In every run, the logits the root collects are those of the stages run one after the other, job by job. */
  lemma LogitsAreFold(net: Net, bypass: seq<bool>, run: seq<Action>, states: seq<State>, i: nat)
    requires WellFormed(net) && Bypassed(net, bypass) && IsRun(net, run, states) && i < |states|
    ensures var logits := states[i].root.collected;
      |logits| <= net.n && forall k :: 0 <= k < |logits| ==>
        logits[k] == Act(net.jobs[k].pkt.position, false, Fold(net, bypass, net.n).1[k])
  {
    hide Local; hide Row; hide Out; hide Bypass; hide Fold; hide IsRun;
    ConsumptionIsExact(net, run, states, i, 1);
    FoldIs(net, bypass, net.n);
  }

  /** A run that cannot be extended has left every stage what the fold leaves it. */
  lemma StatesAreFold(net: Net, bypass: seq<bool>, run: seq<Action>, states: seq<State>)
    requires WellFormed(net) && Bypassed(net, bypass) && IsRun(net, run, states) && Shape(net, states[|run|])
    requires forall a :: !Enabled(net, states[|run|], a)
    ensures var s, kvs := states[|run|], Fold(net, bypass, net.n).0;
      s.root.kv == kvs[0] && forall j :: 1 <= j < net.pp ==> s.stages[j].w.kv == kvs[j]
  {
    hide Local; hide Row; hide Out; hide Bypass; hide Fold; hide Enabled;
    StuckMeansComplete(net, run, states);
    RunKeepsInv(net, run, states, |run|);
    RootKeeps(net, states[|run|]);
    FoldIs(net, bypass, net.n);
  }

  lemma RootKeeps(net: Net, s: State)
    requires WellFormed(net) && Inv(net, s) && s.root.pc.Done?
    ensures s.root.kv == Local(net, 0, net.n).kv
  {
    hide Local; hide Row; hide Out; hide Bypass;
    assert RootOk(net, s.root);
  }

  // ---- The decision, on rows ----------------------------------------------------------------------------

  /** The decode token of batch 1 before job `k` in the same decode phase. */
  function TokenBefore(net: Net, k: nat): Option<nat>
    requires k <= net.n
  {
    if k == 0 || !net.jobs[k - 1].pkt.decode then None
    else if net.jobs[k - 1].pkt.batchSize == 1 then Some(k - 1)
    else TokenBefore(net, k - 1)
  }

  /** A stage before the target remembers the row of that token. */
  lemma {:induction false} Remembers(net: Net, j: nat, k: nat)
    requires k <= net.n && net.options.Tracking() && 0 < j && j != net.options.target
    ensures var w, p := Local(net, j, k), TokenBefore(net, k);
      && (w.decodePhase <==> 0 < k && net.jobs[k - 1].pkt.decode)
      && (w.decodePhase ==> (w.hasPrev <==> p.Some?))
      && (p.Some? ==> p.value < k && w.prevRow == Row(net, j, p.value))
      && (!w.decodePhase ==> p == None && !w.hasPrev)
    decreases k
  {
    hide Row; hide Out; hide Bypass;
    if 0 < k {
      Remembers(net, j, k - 1);
      LocalStep(net, j, k - 1);
      hide Local; hide Opened;
    } else {
      NothingRemembered(net, j);
    }
  }

  lemma NothingRemembered(net: Net, j: nat)
    ensures Local(net, j, 0) == Worker([], false, false, [], 0, 0, 0)
  {
  }

  /** A decode token goes around the target exactly when skipping is on, the row that the stage before the
      target got differs from the row of the token before it in the phase by at most theta, and the stage's two
      budgets are not used up. */
  lemma BypassOnRows(net: Net, k: nat)
    requires k < net.n && WellFormed(net)
    ensures var j := if net.options.target == 0 then 0 else net.options.target - 1;
      var p := TokenBefore(net, k);
      Bypass(net, k) <==>
        && net.options.execute && 2 <= net.options.target
        && net.jobs[k].pkt.decode && net.jobs[k].pkt.batchSize == 1
        && p.Some? && p.value < k
        && var d := net.norm(Row(net, j, k), Row(net, j, p.value));
           && d.Some? && d.value <= net.options.theta
           && Local(net, j, k).accepts < net.options.maxConsecutive
           && Local(net, j, k).rejectStreak < net.options.maxRejectStreak
  {
    hide Row; hide Out;
    BypassStep(net, k);
    if net.options.execute && 2 <= net.options.target {
      var j := net.options.target - 1;
      Remembers(net, j, k);
      LocalStep(net, j, k);
      FreshBudgets(net, j, k);
    }
    hide Local; hide Bypass; hide Opened;
  }

  /** Outside a decode phase both budgets are free. */
  lemma {:induction false} FreshBudgets(net: Net, j: nat, k: nat)
    requires k <= net.n && net.options.Tracking() && 0 < j && j != net.options.target
    ensures !Local(net, j, k).decodePhase ==> Local(net, j, k).accepts == 0 == Local(net, j, k).rejectStreak
    decreases k
  {
    hide Row; hide Out; hide Bypass;
    if 0 < k {
      FreshBudgets(net, j, k - 1);
      LocalStep(net, j, k - 1);
      hide Local; hide Opened;
    } else {
      NothingRemembered(net, j);
    }
  }
}
