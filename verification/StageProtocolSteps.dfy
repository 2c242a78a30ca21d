module StageProtocolSteps {
  import opened SkipDecision
  import opened StageProtocol
  import opened StageProtocolInvariant
  import opened StageProtocolProofs

  lemma InitOk(net: Net)
    requires WellFormed(net)
    ensures Inv(net, Init(net))
  {
    hide Bypass; hide Row; hide Out; hide Opened; hide Serve;
    var s := Init(net);
    assert RetSeq(net, 0, 0) == [];
  }

  /** What the invariant says around worker `j`. */
  lemma InvAround(net: Net, s: State, j: nat)
    requires WellFormed(net) && Inv(net, s) && 1 <= j < net.pp
    ensures Shape(net, s) && RootOk(net, s.root) && RouteOk(net, s) && BypOk(net, s) && RetOk(net, s)
    ensures WorkerOk(net, j, s.stages[j]) && CtlOk(net, j, s.stages[j], s.root, s.ctl[j])
    ensures 1 < j ==> WorkerOk(net, j - 1, s.stages[j - 1])
    ensures 1 < j ==> LinkOk(net, j - 1, s.stages[j - 1], s.stages[j], s.link[j - 1])
    ensures 1 < j ==> OrderOk(net, j - 1, s.stages[j - 1], s.stages[j])
    ensures j < net.last ==> WorkerOk(net, j + 1, s.stages[j + 1])
    ensures j < net.last ==> LinkOk(net, j, s.stages[j], s.stages[j + 1], s.link[j])
    ensures j < net.last ==> OrderOk(net, j, s.stages[j], s.stages[j + 1])
  {
    hide Local; hide Bypass; hide Row; hide Out; hide Opened; hide Serve; hide PcOk; hide LinkSeq; hide BypSeq;
    hide CtlSeq; hide RootOk; hide RouteOk; hide BypOk; hide RetOk; hide WorkerOk; hide CtlOk; hide LinkOk;
    hide OrderOk;
  }

  // ---- Root actions ---------------------------------------------------------------------------

  lemma StartJobOk(net: Net, s: State)
    requires WellFormed(net) && Inv(net, s) && Enabled(net, s, StartJob)
    ensures Inv(net, Apply(net, s, StartJob))
  {
    hide Local; hide Bypass; hide Row; hide Out; hide Opened; hide Serve; hide PcOk; hide LinkSeq; hide BypSeq;
    var s' := Apply(net, s, StartJob);
    assert IsWorker(net, 1);
    forall j | 1 <= j < net.pp
      ensures CtlOk(net, j, s'.stages[j], s'.root, s'.ctl[j])
    {
      assert IsWorker(net, j) && CtlOk(net, j, s.stages[j], s.root, s.ctl[j]);
    }
  }

  /** A root action that leaves workers and worker links alone. */
  lemma RootFrame(net: Net, s: State, s': State)
    requires WellFormed(net) && Inv(net, s) && Shape(net, s')
    requires s'.stages == s.stages && s'.link == s.link && s'.byp == s.byp
    requires RootOk(net, s'.root) && RetOk(net, s')
    requires forall j :: 1 <= j < net.pp ==> CtlOk(net, j, s.stages[j], s'.root, s'.ctl[j])
    ensures Inv(net, s')
  {
    hide Local; hide Bypass; hide Row; hide Out; hide Opened; hide Serve; hide PcOk; hide LinkSeq; hide BypSeq;
  }

  lemma CtlAppend(net: Net, j: nat, st: Stage, r: Root, r': Root, ch: seq<Msg>, m: Msg)
    requires CtlOk(net, j, st, r, ch)
    requires CtlSends(j, r') == CtlSends(j, r) + 1 && m == CtlItem(net, j, CtlSends(j, r))
    ensures CtlOk(net, j, st, r', ch + [m])
  {
    CtlSeqLast(net, j, CtlReads(j, st), CtlSends(j, r));
  }

  lemma SendCtrlOk(net: Net, s: State, to: nat)
    requires WellFormed(net) && Inv(net, s) && Enabled(net, s, SendCtrl(to))
    ensures Inv(net, Apply(net, s, SendCtrl(to)))
  {
    hide Local; hide Bypass; hide Row; hide Out; hide Opened; hide Serve; hide PcOk; hide LinkSeq; hide BypSeq;
    hide CtlSeq;
    var s' := Apply(net, s, SendCtrl(to));
    var e := s.root.emitted;
    assert CtlItem(net, to, CtlSends(to, s.root)) == Ctrl(net.jobs[e].pkt) by {
      assert to == 1 ==> (2 * e) / 2 == e && (2 * e) % 2 == 0;
    }
    forall j | 1 <= j < net.pp
      ensures CtlOk(net, j, s.stages[j], s'.root, s'.ctl[j])
    {
      assert CtlOk(net, j, s.stages[j], s.root, s.ctl[j]);
      if j == to {
        CtlAppend(net, j, s.stages[j], s.root, s'.root, s.ctl[j], Ctrl(net.jobs[e].pkt));
      } else {
        assert j in s.root.pc.pending <==> j in s.root.pc.pending - {to};
      }
    }
    RootFrame(net, s, s');
  }

  /** The root's own stage program. */
  lemma RootServes(net: Net, s: State)
    requires WellFormed(net) && Shape(net, s) && RootOk(net, s.root) && Enabled(net, s, RootForward)
    ensures var r := Apply(net, s, RootForward).root;
      && r.pc.Push? && r.emitted == s.root.emitted && r.collected == s.root.collected
      && r.kv == Local(net, 0, r.emitted + 1).kv && r.pc.out == Out(net, 0, r.emitted)
  {
    hide Bypass;
    LocalStep(net, 0, s.root.emitted);
    RowStep(net, 0, s.root.emitted);
    BypassStep(net, s.root.emitted);
  }

  lemma RootForwardOk(net: Net, s: State)
    requires WellFormed(net) && Inv(net, s) && Enabled(net, s, RootForward)
    ensures Inv(net, Apply(net, s, RootForward))
  {
    hide Local; hide Bypass; hide Row; hide Out; hide Opened; hide Serve; hide PcOk; hide LinkSeq; hide BypSeq;
    hide CtlSeq;
    RootServes(net, s);
    var s' := Apply(net, s, RootForward);
    forall j | 1 <= j < net.pp
      ensures CtlOk(net, j, s.stages[j], s'.root, s'.ctl[j])
    {
      assert CtlOk(net, j, s.stages[j], s.root, s.ctl[j]);
    }
    RootFrame(net, s, s');
  }

  lemma RootPushOk(net: Net, s: State)
    requires WellFormed(net) && Inv(net, s) && Enabled(net, s, RootPush)
    ensures Inv(net, Apply(net, s, RootPush))
  {
    hide Local; hide Bypass; hide Row; hide Out; hide Opened; hide Serve; hide PcOk; hide LinkSeq; hide BypSeq;
    hide CtlSeq;
    var s' := Apply(net, s, RootPush);
    var e := s.root.emitted;
    BypassStep(net, e);
    RowStep(net, 1, e);
    assert CtlItem(net, 1, CtlSends(1, s.root)) == InputMsg(net, 1, e) by {
      assert (2 * e + 1) / 2 == e && (2 * e + 1) % 2 == 1;
    }
    forall j | 1 <= j < net.pp
      ensures CtlOk(net, j, s.stages[j], s'.root, s'.ctl[j])
    {
      assert CtlOk(net, j, s.stages[j], s.root, s.ctl[j]);
      if j == 1 {
        CtlAppend(net, 1, s.stages[1], s.root, s'.root, s.ctl[1], InputMsg(net, 1, e));
      }
    }
    RootFrame(net, s, s');
  }

  lemma CollectOk(net: Net, s: State)
    requires WellFormed(net) && Inv(net, s) && Enabled(net, s, Collect)
    ensures Inv(net, Apply(net, s, Collect))
  {
    hide Local; hide Bypass; hide Row; hide Out; hide Opened; hide Serve; hide PcOk; hide LinkSeq; hide BypSeq;
    hide CtlSeq;
    var s' := Apply(net, s, Collect);
    RetSeqHead(net, |s.root.collected|, s.stages[net.last].served);
    forall j | 1 <= j < net.pp
      ensures CtlOk(net, j, s.stages[j], s'.root, s'.ctl[j])
    {
      assert CtlOk(net, j, s.stages[j], s.root, s.ctl[j]);
    }
    RootFrame(net, s, s');
  }

  lemma StartStopOk(net: Net, s: State)
    requires WellFormed(net) && Inv(net, s) && Enabled(net, s, StartStop)
    ensures Inv(net, Apply(net, s, StartStop))
  {
    hide Local; hide Bypass; hide Row; hide Out; hide Opened; hide Serve; hide PcOk; hide LinkSeq; hide BypSeq;
    hide CtlSeq;
    var s' := Apply(net, s, StartStop);
    assert IsWorker(net, 1);
    forall j | 1 <= j < net.pp
      ensures CtlOk(net, j, s.stages[j], s'.root, s'.ctl[j])
    {
      assert IsWorker(net, j) && CtlOk(net, j, s.stages[j], s.root, s.ctl[j]);
    }
    RootFrame(net, s, s');
  }

  lemma SendStopOk(net: Net, s: State, to: nat)
    requires WellFormed(net) && Inv(net, s) && Enabled(net, s, SendStop(to))
    ensures Inv(net, Apply(net, s, SendStop(to)))
  {
    hide Local; hide Bypass; hide Row; hide Out; hide Opened; hide Serve; hide PcOk; hide LinkSeq; hide BypSeq;
    hide CtlSeq;
    var s' := Apply(net, s, SendStop(to));
    forall j | 1 <= j < net.pp
      ensures CtlOk(net, j, s.stages[j], s'.root, s'.ctl[j])
    {
      assert CtlOk(net, j, s.stages[j], s.root, s.ctl[j]);
      if j == to {
        CtlAppend(net, j, s.stages[j], s.root, s'.root, s.ctl[j], Ctrl(StopPacket));
      } else {
        assert j in s.root.pc.pending <==> j in s.root.pc.pending - {to};
      }
    }
    RootFrame(net, s, s');
  }

  // ---- Worker actions -------------------------------------------------------------------------

  /** Stage `j` changes its state but none of its counters seen by the links. */
  lemma ReadCtrlOk(net: Net, s: State, j: nat)
    requires WellFormed(net) && Inv(net, s) && Enabled(net, s, ReadCtrl(j))
    ensures Inv(net, Apply(net, s, ReadCtrl(j)))
  {
    hide Local; hide Bypass; hide Row; hide Out; hide Opened; hide Serve; hide PcOk; hide LinkSeq; hide BypSeq;
    hide CtlSeq;
    ReadStage(net, j, s.stages[j], s.ctl[j], s.root);
    WorkerFrame(net, s, Apply(net, s, ReadCtrl(j)), j);
  }

  lemma ComputeOk(net: Net, s: State, j: nat)
    requires WellFormed(net) && Inv(net, s) && Enabled(net, s, Compute(j))
    ensures Inv(net, Apply(net, s, Compute(j)))
  {
    hide Local; hide Bypass; hide Row; hide Out; hide Opened; hide Serve; hide PcOk; hide LinkSeq; hide BypSeq;
    hide CtlSeq;
    ComputeStage(net, j, s.stages[j]);
    assert CtlOk(net, j, s.stages[j], s.root, s.ctl[j]);
    WorkerFrame(net, s, Apply(net, s, Compute(j)), j);
  }

  /** The routing facts see only how far each stage has got. */
  lemma WorkerFrameRoutes(net: Net, s: State, s': State)
    requires WellFormed(net) && Inv(net, s) && Shape(net, s')
    requires s'.root == s.root && s'.byp == s.byp && s'.ret == s.ret
    requires forall i :: 0 <= i < net.pp ==>
      s'.stages[i].served == s.stages[i].served && Takes(s'.stages[i]) == Takes(s.stages[i])
    ensures RouteOk(net, s') && BypOk(net, s') && RetOk(net, s')
  {
    hide Local; hide Bypass; hide Row; hide Out; hide Opened; hide Serve; hide PcOk; hide LinkSeq; hide BypSeq;
    hide CtlSeq;
    hide WorkerOk; hide CtlOk; hide LinkOk; hide OrderOk; hide RootOk; hide Takes;
    assert RouteOk(net, s) && BypOk(net, s) && RetOk(net, s);
  }

  lemma WorkerFrame(net: Net, s: State, s': State, j: nat)
    requires WellFormed(net) && Inv(net, s) && Shape(net, s') && 1 <= j < net.pp
    requires s'.root == s.root && s'.link == s.link && s'.byp == s.byp && s'.ret == s.ret
    requires s'.stages == s.stages[j := s'.stages[j]] && s'.ctl == s.ctl[j := s'.ctl[j]]
    requires WorkerOk(net, j, s'.stages[j]) && CtlOk(net, j, s'.stages[j], s.root, s'.ctl[j])
    requires s'.stages[j].served == s.stages[j].served
    requires Takes(s'.stages[j]) == Takes(s.stages[j]) && Sends(s'.stages[j]) == Sends(s.stages[j])
    ensures Inv(net, s')
  {
    hide Local; hide Bypass; hide Row; hide Out; hide Opened; hide Serve; hide PcOk; hide LinkSeq; hide BypSeq;
    hide CtlSeq;
    hide RouteOk; hide BypOk; hide RetOk; hide CtlOk; hide RootOk;
    forall i | 1 <= i < net.pp
      ensures WorkerOk(net, i, s'.stages[i]) && CtlOk(net, i, s'.stages[i], s'.root, s'.ctl[i])
    {
      assert WorkerOk(net, i, s.stages[i]) && CtlOk(net, i, s.stages[i], s.root, s.ctl[i]);
    }
    forall i | 1 <= i < net.last
      ensures LinkOk(net, i, s'.stages[i], s'.stages[i + 1], s'.link[i])
      ensures OrderOk(net, i, s'.stages[i], s'.stages[i + 1])
    {
      assert LinkOk(net, i, s.stages[i], s.stages[i + 1], s.link[i]);
      assert OrderOk(net, i, s.stages[i], s.stages[i + 1]);
    }
    WorkerFrameRoutes(net, s, s');
  }

  /** Stage `j` moves, and with it at most its two links. */
  lemma StageFrame(net: Net, s: State, s': State, j: nat)
    requires WellFormed(net) && Inv(net, s) && Shape(net, s') && 1 <= j < net.pp
    requires s'.root == s.root
    requires forall i :: 1 <= i < net.pp && i != j ==> s'.stages[i] == s.stages[i] && s'.ctl[i] == s.ctl[i]
    requires forall i :: 1 <= i < net.last && i != j && i + 1 != j ==> s'.link[i] == s.link[i]
    requires WorkerOk(net, j, s'.stages[j]) && CtlOk(net, j, s'.stages[j], s.root, s'.ctl[j])
    requires 1 < j ==> Sends(s.stages[j - 1]) <= net.n
    requires 1 < j ==> LinkOk(net, j - 1, s.stages[j - 1], s'.stages[j], s'.link[j - 1])
    requires 1 < j ==> OrderOk(net, j - 1, s.stages[j - 1], s'.stages[j])
    requires j < net.last ==> LinkOk(net, j, s'.stages[j], s.stages[j + 1], s'.link[j])
    requires j < net.last ==> OrderOk(net, j, s'.stages[j], s.stages[j + 1])
    requires RouteOk(net, s') && BypOk(net, s') && RetOk(net, s')
    ensures Inv(net, s')
  {
    hide Local; hide Bypass; hide Row; hide Out; hide Opened; hide Serve; hide PcOk; hide LinkSeq; hide BypSeq;
    hide CtlSeq;
    hide RouteOk; hide BypOk; hide RetOk; hide CtlOk; hide RootOk; hide OrderOk;
    forall i | 1 <= i < net.pp
      ensures WorkerOk(net, i, s'.stages[i]) && CtlOk(net, i, s'.stages[i], s'.root, s'.ctl[i])
    {
      assert WorkerOk(net, i, s.stages[i]) && CtlOk(net, i, s.stages[i], s.root, s.ctl[i]);
    }
    forall i | 1 <= i < net.last
      ensures LinkOk(net, i, s'.stages[i], s'.stages[i + 1], s'.link[i])
      ensures OrderOk(net, i, s'.stages[i], s'.stages[i + 1])
    {
      assert LinkOk(net, i, s.stages[i], s.stages[i + 1], s.link[i]);
      assert OrderOk(net, i, s.stages[i], s.stages[i + 1]);
    }
  }

  lemma RootSocketHead(net: Net, s: State)
    requires WellFormed(net) && Inv(net, s) && s.stages[1].pc.Serving? && s.ctl[1] != []
    ensures var k := s.stages[1].served;
      && k < net.n && s.ctl[1][0] == InputMsg(net, 1, k)
      && CtlReads(1, s.stages[1]) < CtlSends(1, s.root)
  {
    hide Local; hide Bypass; hide Row; hide Out; hide Opened; hide Serve; hide PcOk; hide LinkSeq; hide BypSeq;
    hide CtlSeq;
    var k := s.stages[1].served;
    assert WorkerOk(net, 1, s.stages[1]);
    assert CtlOk(net, 1, s.stages[1], s.root, s.ctl[1]);
    CtlNonEmpty(net, 1, CtlReads(1, s.stages[1]), CtlSends(1, s.root));
    CtlSeqHead(net, 1, 2 * k + 1, CtlSends(1, s.root));
    assert (2 * k + 1) / 2 == k && (2 * k + 1) % 2 == 1;
  }

  lemma LinkSocketHead(net: Net, s: State, j: nat)
    requires WellFormed(net) && Inv(net, s) && 2 <= j < net.pp && s.stages[j].pc.Serving? && s.link[j - 1] != []
    ensures var k := s.stages[j].served;
      && k < Sends(s.stages[j - 1]) <= net.n && !Skips(net, j - 1, k)
      && s.link[j - 1][0] == InputMsg(net, j, k)
      && s.link[j - 1][1..] == LinkSeq(net, j - 1, k + 1, Sends(s.stages[j - 1]))
  {
    hide Local; hide Bypass; hide Row; hide Out; hide Opened; hide Serve; hide PcOk; hide LinkSeq; hide BypSeq;
    hide CtlSeq;
    hide RouteOk; hide BypOk; hide RetOk; hide CtlOk; hide RootOk; hide OrderOk;
    var k := s.stages[j].served;
    var hi := Sends(s.stages[j - 1]);
    ServingJob(net, j, s.stages[j]);
    SendsFacts(net, j - 1, s.stages[j - 1]);
    assert LinkOk(net, j - 1, s.stages[j - 1], s.stages[j], s.link[j - 1]);
    LinkNonEmpty(net, j - 1, k, hi);
    LinkSeqHead(net, j - 1, k, hi);
    if Skips(net, j - 1, k) {
      BypassStep(net, k);
      PollFence(net, s, j - 1);
      LinkNonEmpty(net, j - 1, k + 1, hi);
    }
  }

  lemma NotRerouted(net: Net, j: nat, k: nat)
    requires k < net.n && 1 <= j
    requires j == 1 || !Skips(net, j - 1, k)
    ensures Source(net, j, k) == j - 1
  {
    BypassStep(net, k);
  }

  lemma CtlNonEmpty(net: Net, j: nat, lo: nat, hi: nat)
    requires lo <= hi && CtlSeq(net, j, lo, hi) != []
    ensures lo < hi
  {
  }

  lemma LinkNonEmpty(net: Net, j: nat, lo: nat, hi: nat)
    requires hi <= net.n
    ensures hi <= lo ==> LinkSeq(net, j, lo, hi) == []
  {
  }

  lemma BypNonEmpty(net: Net, lo: nat, hi: nat)
    requires hi <= net.n
    ensures hi <= lo ==> BypSeq(net, lo, hi) == []
  {
  }

  lemma ServingJob(net: Net, j: nat, st: Stage)
    requires 1 <= j && WorkerOk(net, j, st) && st.pc.Serving?
    ensures st.served < net.n && st.pc.pkt == net.jobs[st.served].pkt
  {
  }

  /** The links after stage `j` do not see what it takes. */
  lemma DownstreamOk(net: Net, s: State, j: nat, st': Stage)
    requires WellFormed(net) && Inv(net, s) && 1 <= j < net.last
    requires Sends(st') == Sends(s.stages[j])
    ensures Sends(st') <= net.n && LinkOk(net, j, st', s.stages[j + 1], s.link[j])
      && OrderOk(net, j, st', s.stages[j + 1])
  {
    hide Local; hide Bypass; hide Row; hide Out; hide Opened; hide Serve; hide PcOk; hide LinkSeq; hide BypSeq;
    hide CtlSeq;
    SendsFacts(net, j, s.stages[j]);
    assert LinkOk(net, j, s.stages[j], s.stages[j + 1], s.link[j]);
    assert OrderOk(net, j, s.stages[j], s.stages[j + 1]);
  }

  lemma TakeFromRootOk(net: Net, s: State)
    requires WellFormed(net) && Inv(net, s) && Enabled(net, s, TakeNormal(1))
    ensures Inv(net, Apply(net, s, TakeNormal(1)))
  {
    hide Local; hide Bypass; hide Row; hide Out; hide Opened; hide Serve; hide PcOk; hide LinkSeq; hide BypSeq;
    hide CtlSeq;
    hide Inv; hide RootOk;
    InvAround(net, s, 1);
    var s' := Apply(net, s, TakeNormal(1));
    ServingJob(net, 1, s.stages[1]);
    TakeStage(net, 1, s.stages[1]);
    assert CtlOk(net, 1, s.stages[1], s.root, s.ctl[1]);
    RootSocketHead(net, s);
    CtlSeqHead(net, 1, CtlReads(1, s.stages[1]), CtlSends(1, s.root));
    NotRerouted(net, 1, s.stages[1].served);
    if 1 < net.last {
      DownstreamOk(net, s, 1, s'.stages[1]);
    }
    StageFrame(net, s, s', 1);
  }

  lemma TakeFromLinkOk(net: Net, s: State, j: nat)
    requires WellFormed(net) && Inv(net, s) && Enabled(net, s, TakeNormal(j)) && 2 <= j
    ensures Inv(net, Apply(net, s, TakeNormal(j)))
  {
    hide Local; hide Bypass; hide Row; hide Out; hide Opened; hide Serve; hide PcOk; hide LinkSeq; hide BypSeq;
    hide CtlSeq;
    hide Inv; hide RouteOk; hide BypOk; hide RootOk;
    InvAround(net, s, j);
    var s' := Apply(net, s, TakeNormal(j));
    var k := s.stages[j].served;
    ServingJob(net, j, s.stages[j]);
    TakeStage(net, j, s.stages[j]);
    LinkSocketHead(net, s, j);
    NotRerouted(net, j, k);
    assert CtlOk(net, j, s.stages[j], s.root, s.ctl[j]);
    SendsFacts(net, j - 1, s.stages[j - 1]);
    RouteAfterTake(net, s, s', j);
    if j < net.last {
      DownstreamOk(net, s, j, s'.stages[j]);
    }
    StageFrame(net, s, s', j);
  }

  /** A job the stage after the target takes from the target was not bypassed. */
  lemma TakenFromTarget(net: Net, j: nat, k: nat)
    requires WellFormed(net) && k < net.n && 2 <= j && net.PostTarget(j) && !Skips(net, j - 1, k)
    ensures !Bypass(net, k)
  {
    hide Local; hide Row; hide Out; hide Opened; hide Serve;
    BypassStep(net, k);
  }

  lemma RouteAfterTake(net: Net, s: State, s': State, j: nat)
    requires WellFormed(net) && Inv(net, s) && Shape(net, s') && 2 <= j < net.pp
    requires s'.stages == s.stages[j := s'.stages[j]] && s'.byp == s.byp
    requires s'.stages[j].served == s.stages[j].served < net.n
    requires Takes(s.stages[j]) == s.stages[j].served
    requires Takes(s'.stages[j]) == s.stages[j].served + 1
    requires s.stages[j].served < Sends(s.stages[j - 1]) && !Skips(net, j - 1, s.stages[j].served)
    ensures RouteOk(net, s') && BypOk(net, s')
  {
    hide Local; hide Bypass; hide Row; hide Out; hide Opened; hide Serve; hide PcOk; hide LinkSeq; hide BypSeq;
    hide CtlSeq;
    hide CtlOk; hide LinkOk; hide OrderOk; hide RootOk; hide RetOk;
    assert RouteOk(net, s) && BypOk(net, s);
    if net.PostTarget(j) {
      SendsFacts(net, j - 1, s.stages[j - 1]);
      TakenFromTarget(net, j, s.stages[j].served);
      AtTargetServed(net, j - 1, s.stages[j - 1]);
      if 2 <= net.target {
        TakenNormally(net, s.stages[j].served, s.stages[net.target - 1].served);
      }
    }
  }

  /** The target itself never sends a marker. */
  lemma AtTargetServed(net: Net, j: nat, st: Stage)
    requires 1 <= j && net.target == j && WorkerOk(net, j, st)
    ensures Sends(st) == st.served
  {
    hide Local; hide Bypass; hide Row; hide Out; hide Opened; hide Serve; hide PcOk;
    SendsFacts(net, j, st);
  }

  lemma TakeNormalOk(net: Net, s: State, j: nat)
    requires WellFormed(net) && Inv(net, s) && Enabled(net, s, TakeNormal(j))
    ensures Inv(net, Apply(net, s, TakeNormal(j)))
  {
    if j == 1 { TakeFromRootOk(net, s); } else { TakeFromLinkOk(net, s, j); }
  }

  lemma TakenNormally(net: Net, k: nat, hi: nat)
    requires k < net.n && hi <= net.n && !Bypass(net, k)
    ensures BypSeq(net, k + 1, hi) == BypSeq(net, k, hi)
  {
    if k < hi {
      BypSeqHead(net, k, hi);
    }
  }

  /** The stage after target 1 polls the root socket, which is empty while it waits for its activation. */
  lemma RootSocketEmpty(net: Net, s: State)
    requires WellFormed(net) && Inv(net, s) && net.options.execute && net.target == 1
    requires s.stages[2].pc.Serving? && DecodeSingle(s.stages[2].pc.pkt)
    ensures s.ctl[2] == []
  {
    hide Local; hide Bypass; hide Row; hide Out; hide Opened; hide Serve; hide PcOk; hide LinkSeq; hide BypSeq;
    hide CtlSeq;
    hide LinkOk; hide OrderOk; hide RouteOk; hide BypOk; hide RetOk; hide WorkerOk;
    PollFence(net, s, 2);
    assert CtlOk(net, 2, s.stages[2], s.root, s.ctl[2]);
    assert RootOk(net, s.root);
    if s.ctl[2] != [] {
      CtlNonEmpty(net, 2, CtlReads(2, s.stages[2]), CtlSends(2, s.root));
    }
  }

  /** A non-empty bypass socket holds exactly the activation the polling stage is waiting for. */
  lemma BypassHead(net: Net, s: State, j: nat)
    requires WellFormed(net) && Inv(net, s) && Enabled(net, s, TakeBypass(j))
    ensures var k := s.stages[j].served;
      && 2 <= net.target && j == net.target + 1
      && k < net.n && Bypass(net, k) && s.stages[net.target - 1].served == k + 1
      && s.byp == [InputMsg(net, j, k)] && Source(net, j, k) == net.target - 1
  {
    hide Local; hide Bypass; hide Row; hide Out; hide Opened; hide Serve; hide PcOk; hide LinkSeq; hide BypSeq;
    hide CtlSeq;
    hide CtlOk; hide LinkOk; hide OrderOk; hide RouteOk; hide RootOk; hide RetOk; hide Inv;
    InvAround(net, s, j);
    var k := s.stages[j].served;
    ServingJob(net, j, s.stages[j]);
    if net.target == 1 {
      RootSocketEmpty(net, s);
    } else {
      InvAround(net, s, net.target - 1);
      PollFence(net, s, net.target - 1);
      SendsFacts(net, net.target - 1, s.stages[net.target - 1]);
      assert BypOk(net, s);
      var hi := s.stages[net.target - 1].served;
      BypNonEmpty(net, k, hi);
      BypSeqHead(net, k, hi);
      BypNonEmpty(net, k + 1, hi);
    }
  }

  lemma RouteAfterBypass(net: Net, s: State, s': State, j: nat)
    requires WellFormed(net) && Inv(net, s) && Shape(net, s') && net.options.execute && 2 <= net.target
      && j == net.target + 1
    requires s'.stages == s.stages[j := s'.stages[j]] && s'.byp == [] && s'.root == s.root && s'.ret == s.ret
    requires s'.stages[j].served == s.stages[j].served < net.n && Bypass(net, s.stages[j].served)
    requires Takes(s.stages[j]) == s.stages[j].served && Takes(s'.stages[j]) == s.stages[j].served + 1
    requires s.stages[net.target - 1].served == s.stages[j].served + 1
    ensures RouteOk(net, s') && BypOk(net, s') && RetOk(net, s')
  {
    hide Local; hide Bypass; hide Row; hide Out; hide Opened; hide Serve; hide PcOk; hide LinkSeq; hide BypSeq;
    hide CtlSeq;
    hide CtlOk; hide LinkOk; hide OrderOk; hide WorkerOk; hide RootOk;
    assert RouteOk(net, s) && BypOk(net, s) && RetOk(net, s);
    BypNonEmpty(net, s.stages[j].served + 1, s.stages[j].served + 1);
  }

  lemma TakeBypassOk(net: Net, s: State, j: nat)
    requires WellFormed(net) && Inv(net, s) && Enabled(net, s, TakeBypass(j))
    ensures Inv(net, Apply(net, s, TakeBypass(j)))
  {
    hide Local; hide Bypass; hide Row; hide Out; hide Opened; hide Serve; hide PcOk; hide LinkSeq; hide BypSeq;
    hide CtlSeq;
    hide RouteOk; hide BypOk; hide RetOk; hide RootOk; hide TakeMessage;
    var s' := Apply(net, s, TakeBypass(j));
    var k := s.stages[j].served;
    BypassHead(net, s, j);
    TakeStage(net, j, s.stages[j]);
    assert CtlOk(net, j, s.stages[j], s.root, s.ctl[j]);
    RouteAfterBypass(net, s, s', j);
    assert LinkOk(net, j - 1, s.stages[j - 1], s.stages[j], s.link[j - 1]);
    SendsFacts(net, j - 1, s.stages[j - 1]);
    TakenAround(net, k, Sends(s.stages[j - 1]));
    if j < net.last {
      DownstreamOk(net, s, j, s'.stages[j]);
    }
    StageFrame(net, s, s', j);
  }

  lemma TakenAround(net: Net, k: nat, hi: nat)
    requires k < net.n && hi <= net.n && Bypass(net, k)
    ensures LinkSeq(net, net.target, k + 1, hi) == LinkSeq(net, net.target, k, hi)
  {
    if k < hi {
      LinkSeqHead(net, net.target, k, hi);
    }
  }

  lemma ComputedJob(net: Net, j: nat, st: Stage)
    requires 1 <= j && WorkerOk(net, j, st) && st.pc.Computed?
    ensures var k := st.served;
      && k < net.n && st.pc.pkt == net.jobs[k].pkt && st.pc.skip == Skips(net, j, k)
      && (!st.pc.skip ==> st.pc.out == Out(net, j, k))
      && (net.options.execute && DecodeSingle(st.pc.pkt) && net.options.IsDecisionStage(j) ==>
            st.pc.accept == Bypass(net, k))
  {
  }

  /** What stage `j` sends for job `k` is what stage `j + 1` expects. */
  lemma SentMessage(net: Net, j: nat, k: nat)
    requires k < net.n && !Skips(net, j, k)
    ensures Skips(net, j + 1, k) ==> InputMsg(net, j + 1, k) == Act(net.jobs[k].pkt.position, true, [])
    ensures !Skips(net, j + 1, k) ==> InputMsg(net, j + 1, k) == Act(net.jobs[k].pkt.position, false, Out(net, j, k))
    ensures Bypass(net, k) ==>
      InputMsg(net, net.target + 1, k) == Act(net.jobs[k].pkt.position, true, Out(net, net.target - 1, k))
  {
    RowStep(net, j + 1, k);
    RowStep(net, net.target + 1, k);
    BypassStep(net, k);
  }

  lemma LinkAppend(net: Net, j: nat, lo: nat, k: nat)
    requires k < net.n
    ensures Skips(net, j, k) ==> LinkSeq(net, j, lo, k + 1) == LinkSeq(net, j, lo, k)
    ensures lo <= k && !Skips(net, j, k) ==>
      LinkSeq(net, j, lo, k + 1) == LinkSeq(net, j, lo, k) + [InputMsg(net, j + 1, k)]
  {
  }

  /** The stage after `j` has not run ahead of a job `j` is about to hand over on its link. */
  lemma NotAhead(net: Net, s: State, j: nat)
    requires WellFormed(net) && Inv(net, s) && 1 <= j < net.last && s.stages[j].pc.Computed?
    requires !Skips(net, j, s.stages[j].served)
    ensures Takes(s.stages[j + 1]) <= s.stages[j].served
  {
    hide Local; hide Bypass; hide Row; hide Out; hide Opened; hide Serve; hide PcOk; hide LinkSeq; hide BypSeq;
    hide CtlSeq;
    assert OrderOk(net, j, s.stages[j], s.stages[j + 1]) && RouteOk(net, s);
    ComputedJob(net, j, s.stages[j]);
    if net.PostTarget(j + 1) {
      assert !Bypass(net, s.stages[j].served);
    }
  }

  /** Finishing a job keeps what the stages around the target rely on. */
  lemma RouteAfterFinish(net: Net, s: State, s': State, j: nat)
    requires WellFormed(net) && Inv(net, s) && Shape(net, s') && 1 <= j < net.pp
    requires s'.stages == s.stages[j := s'.stages[j]]
    requires s'.stages[j].served >= s.stages[j].served && Takes(s'.stages[j]) == Takes(s.stages[j])
    ensures RouteOk(net, s')
  {
    hide Local; hide Bypass; hide Row; hide Out; hide Opened; hide Serve; hide PcOk; hide LinkSeq; hide BypSeq;
    hide CtlSeq;
    assert RouteOk(net, s);
  }

  lemma UpstreamOk(net: Net, s: State, j: nat, st': Stage)
    requires WellFormed(net) && Inv(net, s) && 2 <= j < net.pp
    requires Takes(st') == Takes(s.stages[j])
    ensures Sends(s.stages[j - 1]) <= net.n
    ensures LinkOk(net, j - 1, s.stages[j - 1], st', s.link[j - 1]) && OrderOk(net, j - 1, s.stages[j - 1], st')
  {
    hide Local; hide Bypass; hide Row; hide Out; hide Opened; hide Serve; hide PcOk; hide LinkSeq; hide BypSeq;
    hide CtlSeq;
    SendsFacts(net, j - 1, s.stages[j - 1]);
    assert LinkOk(net, j - 1, s.stages[j - 1], s.stages[j], s.link[j - 1]);
    assert OrderOk(net, j - 1, s.stages[j - 1], s.stages[j]);
  }

  lemma SendBypassOk(net: Net, s: State, j: nat)
    requires WellFormed(net) && Inv(net, s) && Enabled(net, s, Send(j)) && s.stages[j].pc.MarkerSent?
    ensures Inv(net, Apply(net, s, Send(j)))
  {
    hide Local; hide Bypass; hide Row; hide Out; hide Opened; hide Serve; hide PcOk; hide LinkSeq; hide BypSeq;
    hide CtlSeq;
    hide Inv;
    InvAround(net, s, j);
    var s' := Apply(net, s, Send(j));
    var k := s.stages[j].served;
    assert WorkerOk(net, j, s.stages[j]) && CtlOk(net, j, s.stages[j], s.root, s.ctl[j]);
    MarkerJob(net, j, s.stages[j]);
    FinishStage(net, j, s.stages[j]);
    assert BypOk(net, s) && RetOk(net, s) && RouteOk(net, s);
    assert OrderOk(net, j, s.stages[j], s.stages[j + 1]) && WorkerOk(net, j + 1, s.stages[j + 1]);
    if k < Takes(s.stages[j + 2]) {
      BeforeTarget(net, s, k);
    }
    BypAppend(net, Takes(s.stages[j + 2]), k);
    SentMessage(net, j, k);
    RouteAfterFinish(net, s, s', j);
    if 1 < j {
      UpstreamOk(net, s, j, s'.stages[j]);
    }
    DownstreamOk(net, s, j, s'.stages[j]);
    StageFrame(net, s, s', j);
  }

  lemma MarkerJob(net: Net, j: nat, st: Stage)
    requires WellFormed(net) && 1 <= j && WorkerOk(net, j, st) && st.pc.MarkerSent?
    ensures var k := st.served;
      && k < net.n && st.pc.pkt == net.jobs[k].pkt && st.pc.out == Out(net, j, k)
      && Bypass(net, k) && net.options.execute && j + 1 == net.target && 2 <= net.target
      && !Skips(net, j, k) && j + 2 < net.pp
  {
    BypassStep(net, st.served);
  }

  lemma BypAppend(net: Net, lo: nat, k: nat)
    requires k < net.n && lo <= k && Bypass(net, k)
    ensures BypSeq(net, lo, k + 1) == BypSeq(net, lo, k) + [InputMsg(net, net.target + 1, k)]
  {
  }

  lemma BypIdle(net: Net, lo: nat, k: nat)
    requires k < net.n && !Bypass(net, k)
    ensures BypSeq(net, lo, k + 1) == BypSeq(net, lo, k)
  {
  }

  /** A stage that leaves the bypass socket alone has not bypassed its job. */
  lemma BypAfterFinish(net: Net, s: State, s': State, j: nat)
    requires WellFormed(net) && Inv(net, s) && Shape(net, s') && 1 <= j < net.pp
    requires s'.stages == s.stages[j := s'.stages[j]] && s'.byp == s.byp
    requires s.stages[j].served < net.n && Takes(s'.stages[j]) == Takes(s.stages[j])
    requires s'.stages[j].served == s.stages[j].served ||
      (s'.stages[j].served == s.stages[j].served + 1
        && (net.options.execute && j + 1 == net.target ==> !Bypass(net, s.stages[j].served)))
    ensures BypOk(net, s')
  {
    hide Local; hide Bypass; hide Row; hide Out; hide Opened; hide Serve; hide PcOk; hide LinkSeq; hide BypSeq;
    hide CtlSeq;
    assert BypOk(net, s);
    if net.options.execute && 2 <= net.target && j + 1 == net.target {
      if s'.stages[j].served == s.stages[j].served + 1 {
        BypIdle(net, Takes(s.stages[net.target + 1]), s.stages[j].served);
      }
    }
  }

  lemma SendSkipOk(net: Net, s: State, j: nat)
    requires WellFormed(net) && Inv(net, s) && Enabled(net, s, Send(j)) && s.stages[j].pc.Computed?
      && s.stages[j].pc.skip
    ensures Inv(net, Apply(net, s, Send(j)))
  {
    hide Local; hide Bypass; hide Row; hide Out; hide Opened; hide Serve; hide PcOk; hide LinkSeq; hide BypSeq;
    hide CtlSeq;
    var s' := Apply(net, s, Send(j));
    var k := s.stages[j].served;
    assert WorkerOk(net, j, s.stages[j]) && CtlOk(net, j, s.stages[j], s.root, s.ctl[j]);
    ComputedJob(net, j, s.stages[j]);
    BypassStep(net, k);
    FinishStage(net, j, s.stages[j]);
    LinkAppend(net, j, Takes(s.stages[j + 1]), k);
    assert LinkOk(net, j, s.stages[j], s.stages[j + 1], s.link[j]);
    assert RetOk(net, s);
    RouteAfterFinish(net, s, s', j);
    BypAfterFinish(net, s, s', j);
    if 1 < j {
      UpstreamOk(net, s, j, s'.stages[j]);
    }
    StageFrame(net, s, s', j);
  }

  lemma SendLogitsOk(net: Net, s: State)
    requires WellFormed(net) && Inv(net, s)
    requires s.stages[net.last].pc.Computed? && !s.stages[net.last].pc.skip
    ensures Inv(net, Apply(net, s, Send(net.last)))
  {
    hide Local; hide Bypass; hide Row; hide Out; hide Opened; hide Serve; hide PcOk; hide LinkSeq; hide BypSeq;
    hide CtlSeq;
    var j := net.last;
    var s' := Apply(net, s, Send(j));
    assert WorkerOk(net, j, s.stages[j]) && CtlOk(net, j, s.stages[j], s.root, s.ctl[j]);
    ComputedJob(net, j, s.stages[j]);
    FinishStage(net, j, s.stages[j]);
    assert RetOk(net, s);
    RetSeqLast(net, |s.root.collected|, s.stages[j].served);
    RouteAfterFinish(net, s, s', j);
    BypAfterFinish(net, s, s', j);
    if 1 < j {
      UpstreamOk(net, s, j, s'.stages[j]);
    }
    StageFrame(net, s, s', j);
  }

  predicate SendsMarker(net: Net, j: nat, st: Stage)
    requires st.pc.Computed?
  {
    net.options.execute && DecodeSingle(st.pc.pkt) && net.options.IsDecisionStage(j) && st.pc.accept
  }

  lemma MarkerDecision(net: Net, j: nat, st: Stage)
    requires WellFormed(net) && 1 <= j && WorkerOk(net, j, st) && st.pc.Computed?
    ensures SendsMarker(net, j, st) <==> (net.options.execute && j + 1 == net.target && Bypass(net, st.served))
    ensures !st.pc.skip ==> (SendsMarker(net, j, st) <==> Skips(net, j + 1, st.served))
  {
    BypassStep(net, st.served);
  }

  lemma SendMarkerOk(net: Net, s: State, j: nat)
    requires WellFormed(net) && Inv(net, s) && 1 <= j < net.last
    requires s.stages[j].pc.Computed? && !s.stages[j].pc.skip && SendsMarker(net, j, s.stages[j])
    ensures Inv(net, Apply(net, s, Send(j)))
  {
    hide Local; hide Bypass; hide Row; hide Out; hide Opened; hide Serve; hide PcOk; hide LinkSeq; hide BypSeq;
    hide CtlSeq;
    hide Inv; hide RouteOk; hide RootOk;
    InvAround(net, s, j);
    var s' := Apply(net, s, Send(j));
    var k := s.stages[j].served;
    assert WorkerOk(net, j, s.stages[j]) && CtlOk(net, j, s.stages[j], s.root, s.ctl[j]);
    ComputedJob(net, j, s.stages[j]);
    MarkerDecision(net, j, s.stages[j]);
    NotAhead(net, s, j);
    SentMessage(net, j, k);
    LinkAppend(net, j, Takes(s.stages[j + 1]), k);
    assert LinkOk(net, j, s.stages[j], s.stages[j + 1], s.link[j]);
    MarkStage(net, j, s.stages[j]);
    assert RetOk(net, s);
    RouteAfterFinish(net, s, s', j);
    BypAfterFinish(net, s, s', j);
    if 1 < j {
      UpstreamOk(net, s, j, s'.stages[j]);
    }
    StageFrame(net, s, s', j);
  }

  lemma MarkStage(net: Net, j: nat, st: Stage)
    requires WellFormed(net) && 1 <= j && WorkerOk(net, j, st) && st.pc.Computed? && !st.pc.skip
      && SendsMarker(net, j, st)
    ensures var st' := st.(pc := MarkerSent(st.pc.pkt, st.pc.out));
      && WorkerOk(net, j, st')
      && st'.served == st.served && Takes(st') == Takes(st) && Sends(st') == st.served + 1 && Reads(st') == Reads(st)
  {
  }

  lemma SendLinkOk(net: Net, s: State, j: nat)
    requires WellFormed(net) && Inv(net, s) && 1 <= j < net.last
    requires s.stages[j].pc.Computed? && !s.stages[j].pc.skip && !SendsMarker(net, j, s.stages[j])
    ensures Inv(net, Apply(net, s, Send(j)))
  {
    hide Local; hide Bypass; hide Row; hide Out; hide Opened; hide Serve; hide PcOk; hide LinkSeq; hide BypSeq;
    hide CtlSeq;
    var s' := Apply(net, s, Send(j));
    var k := s.stages[j].served;
    assert WorkerOk(net, j, s.stages[j]) && CtlOk(net, j, s.stages[j], s.root, s.ctl[j]);
    ComputedJob(net, j, s.stages[j]);
    MarkerDecision(net, j, s.stages[j]);
    NotAhead(net, s, j);
    SentMessage(net, j, k);
    LinkAppend(net, j, Takes(s.stages[j + 1]), k);
    assert LinkOk(net, j, s.stages[j], s.stages[j + 1], s.link[j]);
    FinishStage(net, j, s.stages[j]);
    assert RetOk(net, s);
    RouteAfterFinish(net, s, s', j);
    if j + 1 == net.target {
      BypassStep(net, k);
    }
    BypAfterFinish(net, s, s', j);
    if 1 < j {
      UpstreamOk(net, s, j, s'.stages[j]);
    }
    StageFrame(net, s, s', j);
  }

  lemma SendOk(net: Net, s: State, j: nat)
    requires WellFormed(net) && Inv(net, s) && Enabled(net, s, Send(j))
    ensures Inv(net, Apply(net, s, Send(j)))
  {
    if s.stages[j].pc.MarkerSent? { SendBypassOk(net, s, j); }
    else if s.stages[j].pc.skip { SendSkipOk(net, s, j); }
    else if j == net.last { SendLogitsOk(net, s); }
    else if SendsMarker(net, j, s.stages[j]) { SendMarkerOk(net, s, j); }
    else { SendLinkOk(net, s, j); }
  }

  lemma StepOk(net: Net, s: State, a: Action)
    requires WellFormed(net) && Inv(net, s) && Enabled(net, s, a)
    ensures Inv(net, Apply(net, s, a))
  {
    hide Apply; hide Inv;
    match a
    case StartJob => StartJobOk(net, s);
    case SendCtrl(to) => SendCtrlOk(net, s, to);
    case RootForward => RootForwardOk(net, s);
    case RootPush => RootPushOk(net, s);
    case Collect => CollectOk(net, s);
    case StartStop => StartStopOk(net, s);
    case SendStop(to) => SendStopOk(net, s, to);
    case ReadCtrl(j) => ReadCtrlOk(net, s, j);
    case TakeNormal(j) => TakeNormalOk(net, s, j);
    case TakeBypass(j) => TakeBypassOk(net, s, j);
    case Compute(j) => ComputeOk(net, s, j);
    case Send(j) => SendOk(net, s, j);
  }
}
