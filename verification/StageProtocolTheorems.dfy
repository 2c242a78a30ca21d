/** What every run of the stage protocol guarantees. */
module StageProtocolTheorems {
  import opened SkipDecision
  import opened StageProtocol
  import opened StageProtocolInvariant
  import opened StageProtocolProofs
  import opened StageProtocolSteps

  lemma {:induction false} RunKeepsInv(net: Net, run: seq<Action>, states: seq<State>, i: nat)
    requires WellFormed(net) && IsRun(net, run, states) && i < |states|
    ensures Inv(net, states[i])
  {
    hide Inv; hide Apply; hide Enabled;
    if i == 0 {
      InitOk(net);
    } else {
      RunKeepsInv(net, run, states, i - 1);
      assert Enabled(net, states[i - 1], run[i - 1]) && states[i] == Apply(net, states[i - 1], run[i - 1]);
      StepOk(net, states[i - 1], run[i - 1]);
    }
  }

  // ---- Safety ---------------------------------------------------------------------------------

  /** In every run and interleaving: no worker throws or reads a control packet as an activation;
      the i-th message a worker consumes is an activation or marker for the position of its i-th
      control packet, with the payload of the sequential meaning, taken from the one stage that
      job was routed through; the root gets the logits of the jobs one by one and in order. */
  lemma ConsumptionIsExact(net: Net, run: seq<Action>, states: seq<State>, i: nat, j: nat)
    requires WellFormed(net) && IsRun(net, run, states) && i < |states| && 1 <= j < net.pp
    ensures Shape(net, states[i])
    ensures !states[i].stages[j].pc.Failed?
    ensures var st := states[i].stages[j];
      && |st.took| <= net.n && |st.took| - 1 <= st.served <= |st.took|
      && (forall k :: 0 <= k < |st.took| ==> st.took[k] == Expected(net, j, k))
      && (forall k :: 0 <= k < |st.took| ==>
            st.took[k].msg.Act? && st.took[k].msg.pos == net.jobs[k].pkt.position)
      && (!st.pc.Idle? && !st.pc.Stopped? ==> st.served < net.n && st.pc.pkt == net.jobs[st.served].pkt)
    ensures var logits := states[i].root.collected;
      |logits| <= net.n && forall k :: 0 <= k < |logits| ==> logits[k] == LogitsMsg(net, k)
  {
    RunKeepsInv(net, run, states, i);
    hide Local; hide Bypass; hide Row; hide Out; hide Opened; hide Serve;
    assert WorkerOk(net, j, states[i].stages[j]);
    assert RootOk(net, states[i].root);
    forall k | 0 <= k < |states[i].stages[j].took|
      ensures states[i].stages[j].took[k].msg.Act?
      ensures states[i].stages[j].took[k].msg.pos == net.jobs[k].pkt.position
    {
      assert states[i].stages[j].took[k] == Expected(net, j, k);
    }
  }

  // ---- Unread bypass markers ------------------------------------------------------------------

  function Markers(q: seq<Msg>): nat
  {
    if q == [] then 0
    else Markers(q[..|q| - 1]) + if q[|q| - 1].Act? && q[|q| - 1].bypass then 1 else 0
  }

  lemma MarkersSnoc(q: seq<Msg>, m: Msg)
    ensures Markers(q + [m]) == Markers(q) + if m.Act? && m.bypass then 1 else 0
  {
    assert (q + [m])[..|q|] == q;
  }

  /** A run of bypassed jobs is counted by the decision stage, so it is at most `maxConsecutive` long. */
  lemma {:induction false} BypassRun(net: Net, lo: nat, hi: nat)
    requires WellFormed(net) && 2 <= net.target && lo < hi <= net.n
    requires forall k :: lo <= k < hi ==> Bypass(net, k)
    ensures hi - lo <= Local(net, net.target - 1, hi).accepts <= net.options.maxConsecutive
    ensures Local(net, net.target - 1, hi).decodePhase
    decreases hi
  {
    BypassStep(net, hi - 1);
    LocalStep(net, net.target - 1, hi - 1);
    hide Local; hide Bypass; hide Row; hide Out; hide Opened;
    assert !Skips(net, net.target - 1, hi - 1);
    if lo + 1 < hi {
      BypassRun(net, lo, hi - 1);
    }
  }

  lemma MarkersStep(net: Net, lo: nat, hi: nat)
    requires WellFormed(net) && net.options.execute && 2 <= net.target && lo < hi <= net.n
    ensures Markers(LinkSeq(net, net.target - 1, lo, hi)) ==
      Markers(LinkSeq(net, net.target - 1, lo, hi - 1)) + if Bypass(net, hi - 1) then 1 else 0
  {
    hide Local; hide Bypass; hide Row; hide Out; hide Opened; hide Serve; hide Markers;
    MarkersSnoc(LinkSeq(net, net.target - 1, lo, hi - 1), InputMsg(net, net.target, hi - 1));
  }

  /** In [lo, hi) a bypassed job only ever follows bypassed jobs. */
  ghost predicate BypassesFirst(net: Net, lo: nat, hi: nat)
  {
    hi <= net.n && forall k, k' :: lo <= k < k' < hi && Bypass(net, k') ==> Bypass(net, k)
  }

  lemma {:induction false} MarkersOnLink(net: Net, lo: nat, hi: nat)
    requires WellFormed(net) && net.options.execute && 2 <= net.target && BypassesFirst(net, lo, hi)
    ensures Markers(LinkSeq(net, net.target - 1, lo, hi)) <= net.options.maxConsecutive
    ensures lo < hi && Bypass(net, hi - 1) ==> Markers(LinkSeq(net, net.target - 1, lo, hi)) == hi - lo
    decreases hi
  {
    hide Local; hide Bypass; hide Row; hide Out; hide Opened; hide Serve; hide Markers;
    if lo < hi {
      MarkersOnLink(net, lo, hi - 1);
      MarkersStep(net, lo, hi);
      if Bypass(net, hi - 1) {
        BypassRun(net, lo, hi);
        if lo == hi - 1 {
          assert LinkSeq(net, net.target - 1, lo, lo) == [];
          NoMarkers();
        }
      }
    }
    if hi <= lo {
      assert LinkSeq(net, net.target - 1, lo, hi) == [];
      NoMarkers();
    }
  }

  lemma NoMarkers()
    ensures Markers([]) == 0
  {
  }

  lemma UnreadBypassesFirst(net: Net, s: State)
    requires WellFormed(net) && Inv(net, s) && net.options.execute && 2 <= net.target
    ensures BypassesFirst(net, Takes(s.stages[net.target]), Sends(s.stages[net.target - 1]))
  {
    hide Local; hide Bypass; hide Row; hide Out; hide Opened; hide Serve; hide PcOk; hide CtlSeq; hide LinkSeq;
    hide BypSeq;
    hide Inv;
    InvAround(net, s, net.target);
    var before, at, after := s.stages[net.target - 1], s.stages[net.target], s.stages[net.target + 1];
    SendsFacts(net, net.target - 1, before);
    SendsFacts(net, net.target, at);
    SendsFacts(net, net.target + 1, after);
    ReadsBound(net, s, net.target - 1);
    Frontier(net, s, net.target + 1);
    assert RootOk(net, s.root) && RouteOk(net, s);
    forall k, k' | Takes(at) <= k < k' < Sends(before) && Bypass(net, k')
      ensures Bypass(net, k)
    {
      BypassStep(net, k');
      assert !net.jobs[k'].wave;
      assert k < Takes(after);
    }
  }

  /** The bypassed stage may lag behind the root, but the markers waiting for it never exceed `maxConsecutive`. */
  lemma UnreadMarkersBounded(net: Net, run: seq<Action>, states: seq<State>, i: nat)
    requires WellFormed(net) && IsRun(net, run, states) && i < |states|
    requires net.options.execute && 2 <= net.target
    ensures Shape(net, states[i]) && Markers(states[i].link[net.target - 1]) <= net.options.maxConsecutive
  {
    RunKeepsInv(net, run, states, i);
    var s := states[i];
    hide Local; hide Bypass; hide Row; hide Out; hide Opened; hide Serve; hide PcOk; hide CtlSeq; hide IsRun;
    hide Markers;
    UnreadBypassesFirst(net, s);
    MarkersOnLink(net, Takes(s.stages[net.target]), Sends(s.stages[net.target - 1]));
    assert LinkOk(net, net.target - 1, s.stages[net.target - 1], s.stages[net.target], s.link[net.target - 1]);
  }

  // ---- Liveness -------------------------------------------------------------------------------

  predicate Final(net: Net, s: State)
    requires Shape(net, s)
  {
    s.root.pc.Done? && forall j :: 1 <= j < net.pp ==> s.stages[j].pc.Stopped?
  }

  lemma BypReady(net: Net, s: State, k: nat)
    requires WellFormed(net) && Inv(net, s) && net.options.execute && 2 <= net.target && k < net.n
    requires Bypass(net, k) && k == Takes(s.stages[net.target + 1]) && k < s.stages[net.target - 1].served
    ensures s.byp != []
  {
    hide Local; hide Bypass; hide Row; hide Out; hide Opened; hide Serve; hide PcOk; hide LinkSeq; hide CtlSeq;
    assert BypOk(net, s);
    BypSeqHead(net, k, s.stages[net.target - 1].served);
  }

  lemma LinkReady(net: Net, s: State, j: nat)
    requires WellFormed(net) && Inv(net, s) && 2 <= j < net.pp && s.stages[j].pc.Serving?
    requires s.stages[j].served < net.n && !Skips(net, j - 1, s.stages[j].served)
    requires s.stages[j].served < Sends(s.stages[j - 1])
    ensures s.link[j - 1] != []
  {
    hide Local; hide Bypass; hide Row; hide Out; hide Opened; hide Serve; hide PcOk; hide BypSeq; hide CtlSeq;
    SendsFacts(net, j - 1, s.stages[j - 1]);
    assert LinkOk(net, j - 1, s.stages[j - 1], s.stages[j], s.link[j - 1]);
    LinkSeqHead(net, j - 1, s.stages[j].served, Sends(s.stages[j - 1]));
  }

  lemma CtlReady(net: Net, s: State, j: nat)
    requires WellFormed(net) && Inv(net, s) && 1 <= j < net.pp
    ensures CtlReads(j, s.stages[j]) < CtlSends(j, s.root) ==> s.ctl[j] != []
  {
    assert CtlOk(net, j, s.stages[j], s.root, s.ctl[j]);
  }

  /** A worker that is not waiting for an activation can move while an emitted job is open. */
  lemma OpenJobMoves(net: Net, s: State, j: nat, k: nat) returns (a: Action)
    requires WellFormed(net) && Inv(net, s) && 1 <= j < net.pp
    requires k < s.root.emitted && s.stages[j].served <= k
    requires !s.stages[j].pc.Serving? || j == 1
    ensures Enabled(net, s, a)
  {
    hide Local; hide Bypass; hide Row; hide Out; hide Opened; hide Serve; hide LinkSeq; hide BypSeq; hide CtlSeq;
    hide RouteOk; hide BypOk; hide RetOk; hide OrderOk; hide LinkOk; hide CtlOk;
    var st := s.stages[j];
    assert WorkerOk(net, j, st);
    assert RootOk(net, s.root);
    CtlReady(net, s, j);
    if st.pc.Ready? {
      return Compute(j);
    } else if st.pc.Computed? || st.pc.MarkerSent? {
      return Send(j);
    } else if st.pc.Idle? {
      return ReadCtrl(j);
    }
    return TakeNormal(1);
  }

  /** If job `k` has been emitted and stage `j` has not finished it, then `j` or a stage before it can move. */
  lemma {:induction false} SomeWorkerMoves(net: Net, s: State, j: nat, k: nat) returns (a: Action)
    requires WellFormed(net) && Inv(net, s) && 1 <= j < net.pp
    requires k < s.root.emitted && s.stages[j].served <= k
    ensures Enabled(net, s, a)
    decreases j
  {
    hide Local; hide Bypass; hide Row; hide Out; hide Opened; hide Serve; hide LinkSeq; hide BypSeq; hide CtlSeq;
    hide PcOk;
    var d := s.stages[j].served;
    SendsFacts(net, j, s.stages[j]);
    if !s.stages[j].pc.Serving? || j == 1 {
      a := OpenJobMoves(net, s, j, k);
    } else {
      ServingJob(net, j, s.stages[j]);
      BypassStep(net, d);
      SendsFacts(net, j - 1, s.stages[j - 1]);
      if net.PostTarget(j) && Bypass(net, d) {
        if d < s.stages[net.target - 1].served {
          BypReady(net, s, d);
          a := TakeBypass(j);
        } else {
          a := SomeWorkerMoves(net, s, net.target - 1, k);
        }
      } else if d < Sends(s.stages[j - 1]) {
        LinkReady(net, s, j);
        a := TakeNormal(j);
      } else {
        a := SomeWorkerMoves(net, s, j - 1, k);
      }
    }
  }

  /** No reachable state is stuck: until the root is done and every worker has stopped, somebody can move. */
  lemma NoDeadlock(net: Net, s: State) returns (a: Action)
    requires WellFormed(net) && Inv(net, s) && !Final(net, s)
    ensures Enabled(net, s, a)
  {
    hide Local; hide Bypass; hide Row; hide Out; hide Opened; hide Serve; hide LinkSeq; hide BypSeq; hide CtlSeq;
    hide PcOk;
    assert RootOk(net, s.root) && RetOk(net, s);
    match s.root.pc {
      case Sending(pending) =>
        var to :| to in pending;
        assert to in Workers(net);
        a := SendCtrl(to);
      case Stopping(pending) =>
        var to :| to in pending;
        assert to in Workers(net);
        a := SendStop(to);
      case Forward => a := RootForward;
      case Push(_) => a := RootPush;
      case Next =>
        if MayStart(net, s) {
          a := StartJob;
        } else if s.root.emitted == net.n == |s.root.collected| {
          a := StartStop;
        } else if s.ret != [] {
          a := Collect;
        } else {
          a := SomeWorkerMoves(net, s, net.last, |s.root.collected|);
        }
      case Done =>
        var j :| 1 <= j < net.pp && !s.stages[j].pc.Stopped?;
        a := StopReaches(net, s, j);
    }
  }

  lemma StopReaches(net: Net, s: State, j: nat) returns (a: Action)
    requires WellFormed(net) && Inv(net, s) && s.root.pc.Done? && 1 <= j < net.pp && !s.stages[j].pc.Stopped?
    ensures Enabled(net, s, a)
  {
    assert WorkerOk(net, j, s.stages[j]);
    assert RootOk(net, s.root);
    if s.stages[j].served < net.n {
      a := SomeWorkerMoves(net, s, j, net.n - 1);
    } else {
      CtlReady(net, s, j);
      a := ReadCtrl(j);
    }
  }

  // ---- Outcome --------------------------------------------------------------------------------

  ghost predicate ChannelsEmpty(net: Net, s: State)
    requires Shape(net, s)
  {
    && (forall j :: 1 <= j < net.pp ==> s.ctl[j] == [])
    && (forall j :: 1 <= j < net.last ==> s.link[j] == [])
    && s.byp == [] && s.ret == []
  }

  /** Between jobs, once the root holds all the logits and the last job was not bypassed. */
  ghost predicate Quiet(net: Net, s: State)
  {
    && s.root.pc.Next? && |s.root.collected| == s.root.emitted <= net.n
    && (0 < s.root.emitted ==> !Bypass(net, s.root.emitted - 1))
  }

  /** With all logits collected and the last job not bypassed, no stage is behind. */
  lemma QuietServed(net: Net, s: State, j: nat)
    requires WellFormed(net) && Inv(net, s) && Quiet(net, s) && 1 <= j < net.pp
    ensures s.stages[j].served == s.root.emitted == Reads(s.stages[j])
  {
    hide Local; hide Bypass; hide Row; hide Out; hide Opened; hide Serve; hide LinkSeq; hide BypSeq; hide CtlSeq;
    hide PcOk;
    hide CtlOk; hide LinkOk; hide OrderOk; hide BypOk; hide RetOk; hide RootOk;
    ReadsBound(net, s, j);
    SendsFacts(net, j, s.stages[j]);
    if net.SkipAt(j) {
      Frontier(net, s, j + 1);
      SendsFacts(net, j + 1, s.stages[j + 1]);
      assert RouteOk(net, s);
      if 0 < s.root.emitted { assert s.root.emitted - 1 < s.stages[j].served; }
    } else {
      Frontier(net, s, j);
    }
  }

  lemma QuietWorker(net: Net, s: State, j: nat)
    requires WellFormed(net) && Inv(net, s) && Quiet(net, s) && 1 <= j < net.pp
    ensures s.stages[j].pc.Idle? && s.stages[j].served == s.root.emitted
    ensures s.stages[j].w == Local(net, j, s.root.emitted)
    ensures s.ctl[j] == []
  {
    hide Local; hide Bypass; hide Row; hide Out; hide Opened; hide Serve; hide LinkSeq; hide BypSeq;
    hide LinkOk; hide OrderOk; hide BypOk; hide RetOk; hide RootOk; hide RouteOk;
    QuietServed(net, s, j);
    assert WorkerOk(net, j, s.stages[j]) && CtlOk(net, j, s.stages[j], s.root, s.ctl[j]);
  }

  lemma QuietLinks(net: Net, s: State)
    requires WellFormed(net) && Inv(net, s) && Quiet(net, s)
    requires forall j :: 1 <= j < net.pp ==>
      s.stages[j].pc.Idle? && s.stages[j].served == s.root.emitted && s.ctl[j] == []
    ensures ChannelsEmpty(net, s)
  {
    hide Local; hide Bypass; hide Row; hide Out; hide Opened; hide Serve; hide PcOk; hide CtlSeq;
    forall j | 1 <= j < net.last
      ensures s.link[j] == []
    {
      assert LinkOk(net, j, s.stages[j], s.stages[j + 1], s.link[j]);
    }
    assert BypOk(net, s) && RetOk(net, s);
  }

  /** Wave prefill refines synchronous prefill, and every decode token ends the same way: when the
      root has drained what it emitted, every channel is empty, every stage is where the
      job-by-job run leaves it, and the root holds the logits of the last job. */
  lemma DrainedEqualsSequential(net: Net, run: seq<Action>, states: seq<State>, i: nat)
    requires WellFormed(net) && IsRun(net, run, states) && i < |states| && Quiet(net, states[i])
    ensures Shape(net, states[i]) && ChannelsEmpty(net, states[i])
    ensures forall j :: 1 <= j < net.pp ==>
      states[i].stages[j].pc.Idle? && states[i].stages[j].w == Local(Synchronous(net), j, states[i].root.emitted)
    ensures states[i].root.kv == Local(Synchronous(net), 0, states[i].root.emitted).kv
    ensures var e := states[i].root.emitted;
      0 < e ==> states[i].root.collected[e - 1] == LogitsMsg(Synchronous(net), e - 1)
  {
    var s := states[i];
    RunKeepsInv(net, run, states, i);
    assert RootOk(net, s.root);
    hide Bypass; hide Row; hide Opened; hide Serve; hide LinkSeq; hide BypSeq; hide CtlSeq; hide PcOk; hide IsRun;
    hide Local; hide Out;
    forall j | 1 <= j < net.pp
      ensures s.stages[j].pc.Idle? && s.stages[j].served == s.root.emitted && s.ctl[j] == []
      ensures s.stages[j].w == Local(Synchronous(net), j, s.root.emitted)
    {
      QuietWorker(net, s, j);
      WaveIsInvisible(net, j, s.root.emitted);
    }
    QuietLinks(net, s);
    WaveIsInvisible(net, 0, s.root.emitted);
    if 0 < s.root.emitted {
      WaveOutIsInvisible(net, net.last, s.root.emitted - 1);
      assert s.root.collected[s.root.emitted - 1] == LogitsMsg(net, s.root.emitted - 1);
    }
  }

  /** The same jobs, each emitted only after the logits of the one before. */
  function Synchronous(net: Net): Net
  {
    net.(jobs := seq(net.n, k requires 0 <= k < net.n => net.jobs[k].(wave := false)))
  }

  lemma {:induction false} WaveIsInvisible(net: Net, j: nat, k: nat)
    requires k <= net.n
    ensures Local(net, j, k) == Local(Synchronous(net), j, k)
    decreases k, 0, 0
  {
    var m := Synchronous(net);
    if 0 < k {
      WaveIsInvisible(net, j, k - 1);
      WaveRowIsInvisible(net, j, k - 1);
      WaveBypassIsInvisible(net, k - 1);
    }
  }

  lemma {:induction false} WaveRowIsInvisible(net: Net, j: nat, k: nat)
    requires k < net.n
    ensures Row(net, j, k) == Row(Synchronous(net), j, k)
    decreases k, j, 2
  {
    if 0 < j {
      if net.PostTarget(j) {
        WaveBypassIsInvisible(net, k);
        if 0 < net.target {
          WaveOutIsInvisible(net, net.target - 1, k);
        }
      }
      WaveOutIsInvisible(net, j - 1, k);
    }
  }

  lemma {:induction false} WaveOutIsInvisible(net: Net, j: nat, k: nat)
    requires k < net.n
    ensures Out(net, j, k) == Out(Synchronous(net), j, k)
    decreases k, j, 3
  {
    WaveIsInvisible(net, j, k);
    WaveRowIsInvisible(net, j, k);
  }

  lemma {:induction false} WaveBypassIsInvisible(net: Net, k: nat)
    requires k < net.n
    ensures Bypass(net, k) == Bypass(Synchronous(net), k)
    decreases k, if net.target == 0 then 0 else net.target - 1, 4
  {
    if 2 <= net.target {
      WaveIsInvisible(net, net.target - 1, k);
      WaveRowIsInvisible(net, net.target - 1, k);
    }
  }
}
