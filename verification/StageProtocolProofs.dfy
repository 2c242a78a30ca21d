module StageProtocolProofs {
  import opened SkipDecision
  import opened StageProtocol
  import opened StageProtocolInvariant

  // ---- Unfolding the sequential meaning -------------------------------------------------------

  lemma LocalStep(net: Net, j: nat, k: nat)
    requires k < net.n
    ensures Local(net, j, 0) == InitWorker
    ensures Opened(net, j, k) == AfterControl(Local(net, j, k), net.jobs[k].pkt)
    ensures var served := Serve(net, j, Opened(net, j, k), net.jobs[k].pkt, Row(net, j, k));
      && Local(net, j, k + 1) == (if Skips(net, j, k) then Opened(net, j, k) else served.worker)
      && Out(net, j, k) == served.out
  {
  }

  lemma BypassStep(net: Net, k: nat)
    requires k < net.n
    ensures Bypass(net, k) ==> net.options.execute && 2 <= net.target && DecodeJob(net, k)
    ensures net.options.execute && 2 <= net.target && DecodeJob(net, k) ==>
      Bypass(net, k) == Serve(net, net.target - 1, Opened(net, net.target - 1, k), net.jobs[k].pkt,
                              Row(net, net.target - 1, k)).accept
  {
  }

  lemma RowStep(net: Net, j: nat, k: nat)
    requires k < net.n
    ensures Row(net, 0, k) == net.jobs[k].tokens
    ensures 0 < j && !(net.PostTarget(j) && Bypass(net, k)) ==> Row(net, j, k) == Out(net, j - 1, k)
    ensures net.PostTarget(j) && Bypass(net, k) ==> Row(net, j, k) == Out(net, net.target - 1, k)
  {
    BypassStep(net, k);
  }

  // ---- Channel contents -----------------------------------------------------------------------

  lemma CtlSeqHead(net: Net, j: nat, lo: nat, hi: nat)
    requires lo < hi
    ensures CtlSeq(net, j, lo, hi)[0] == CtlItem(net, j, lo)
    ensures CtlSeq(net, j, lo, hi)[1..] == CtlSeq(net, j, lo + 1, hi)
  {
  }

  lemma CtlSeqLast(net: Net, j: nat, lo: nat, hi: nat)
    requires lo <= hi
    ensures CtlSeq(net, j, lo, hi + 1) == CtlSeq(net, j, lo, hi) + [CtlItem(net, j, hi)]
  {
  }

  lemma {:induction false} LinkSeqHead(net: Net, j: nat, lo: nat, hi: nat)
    requires lo < hi <= net.n
    ensures LinkSeq(net, j, lo, hi) ==
      (if Skips(net, j, lo) then [] else [InputMsg(net, j + 1, lo)]) + LinkSeq(net, j, lo + 1, hi)
    decreases hi
  {
    if lo + 1 < hi {
      LinkSeqHead(net, j, lo, hi - 1);
    } else {
      assert LinkSeq(net, j, lo, hi - 1) == [];
      assert LinkSeq(net, j, lo + 1, hi) == [];
    }
  }

  lemma {:induction false} BypSeqHead(net: Net, lo: nat, hi: nat)
    requires lo < hi <= net.n
    ensures BypSeq(net, lo, hi) ==
      (if Bypass(net, lo) then [InputMsg(net, net.target + 1, lo)] else []) + BypSeq(net, lo + 1, hi)
    decreases hi
  {
    if lo + 1 < hi {
      BypSeqHead(net, lo, hi - 1);
    } else {
      assert BypSeq(net, lo, hi - 1) == [];
      assert BypSeq(net, lo + 1, hi) == [];
    }
  }

  lemma RetSeqHead(net: Net, lo: nat, hi: nat)
    requires lo < hi <= net.n
    ensures RetSeq(net, lo, hi)[0] == LogitsMsg(net, lo)
    ensures RetSeq(net, lo, hi)[1..] == RetSeq(net, lo + 1, hi)
  {
  }

  lemma RetSeqLast(net: Net, lo: nat, hi: nat)
    requires lo <= hi < net.n
    ensures RetSeq(net, lo, hi + 1) == RetSeq(net, lo, hi) + [LogitsMsg(net, hi)]
  {
  }

  // ---- How far the stages can drift apart -----------------------------------------------------

  /** No worker has opened a job the root has not started. */
  lemma ReadsBound(net: Net, s: State, j: nat)
    requires WellFormed(net) && Inv(net, s) && 1 <= j < net.pp
    ensures Reads(s.stages[j]) <= Started(s.root)
  {
    assert WorkerOk(net, j, s.stages[j]);
    assert CtlOk(net, j, s.stages[j], s.root, s.ctl[j]);
  }

  lemma SendsFacts(net: Net, j: nat, st: Stage)
    requires 1 <= j && WorkerOk(net, j, st)
    ensures st.served <= Takes(st) <= Reads(st) + 0 <= net.n && Sends(st) <= Takes(st)
    ensures st.pc.MarkerSent? ==> st.served < net.n && Bypass(net, st.served) && net.options.IsDecisionStage(j)
    ensures !st.pc.MarkerSent? ==> Sends(st) == st.served
    ensures !st.pc.Failed?
  {
  }

  /** The stage before the target has served whatever the stage after it has taken. */
  lemma BeforeTarget(net: Net, s: State, k: nat)
    requires WellFormed(net) && Shape(net, s) && net.options.execute && 2 <= net.target
    requires WorkerOk(net, net.target - 1, s.stages[net.target - 1])
    requires WorkerOk(net, net.target, s.stages[net.target])
    requires OrderOk(net, net.target - 1, s.stages[net.target - 1], s.stages[net.target])
    requires RouteOk(net, s) && k < Takes(s.stages[net.target + 1])
    ensures k < s.stages[net.target - 1].served
  {
    hide Local; hide Bypass; hide Row; hide Out; hide Opened; hide Serve; hide PcOk;
    SendsFacts(net, net.target - 1, s.stages[net.target - 1]);
    SendsFacts(net, net.target, s.stages[net.target]);
    if !Bypass(net, k) {
      assert k < s.stages[net.target].served;
    }
  }

  /** Every stage but the target has served all the jobs the root holds logits for. */
  lemma {:induction false} Frontier(net: Net, s: State, j: nat)
    requires WellFormed(net) && Inv(net, s) && 1 <= j < net.pp && !net.SkipAt(j)
    ensures |s.root.collected| <= s.stages[j].served
    decreases net.pp - j
  {
    hide Local; hide Bypass; hide Row; hide Out; hide Opened; hide PcOk; hide Serve; hide CtlOk; hide LinkOk;
    var c := |s.root.collected|;
    if j < net.last {
      SendsFacts(net, j, s.stages[j]);
      assert OrderOk(net, j, s.stages[j], s.stages[j + 1]);
      if net.SkipAt(j + 1) {
        Frontier(net, s, j + 2);
        if c > 0 {
          BeforeTarget(net, s, c - 1);
        }
      } else {
        Frontier(net, s, j + 1);
      }
    }
  }

  /** The root emits nothing past a decode job whose logits it does not hold. */
  lemma DecodeFence(net: Net, s: State, k: nat)
    requires WellFormed(net) && Inv(net, s) && k < net.n && DecodeJob(net, k) && |s.root.collected| <= k
    ensures Started(s.root) <= k + 1
  {
    if k + 1 < net.n {
      assert !net.jobs[k + 1].wave;
    }
  }

  /** While the stage after the target polls for a decode token, nothing of a later job exists. */
  lemma PollFence(net: Net, s: State, j: nat)
    requires WellFormed(net) && Inv(net, s) && net.options.execute
    requires s.stages[net.target + 1].pc.Serving? && DecodeSingle(s.stages[net.target + 1].pc.pkt)
    requires 1 <= j < net.pp
    ensures var k := s.stages[net.target + 1].served;
      && k < net.n && DecodeJob(net, k)
      && |s.root.collected| <= k
      && Started(s.root) <= k + 1 && Reads(s.stages[j]) <= k + 1
  {
    hide Local; hide Bypass; hide Row; hide Out; hide Opened; hide Serve;
    hide CtlOk; hide LinkOk; hide OrderOk; hide RouteOk; hide BypOk; hide RetOk; hide RootOk;
    assert WorkerOk(net, net.target + 1, s.stages[net.target + 1]);
    Frontier(net, s, net.target + 1);
    DecodeFence(net, s, s.stages[net.target + 1].served);
    ReadsBound(net, s, j);
  }

  // ---- One worker at a time -------------------------------------------------------------------

  lemma ReadStage(net: Net, j: nat, st: Stage, ch: seq<Msg>, r: Root)
    requires WellFormed(net) && 1 <= j < net.pp && WorkerOk(net, j, st) && st.pc.Idle?
    requires RootOk(net, r) && CtlOk(net, j, st, r, ch) && ch != []
    ensures var st' := ReadControl(st, ch[0]);
      && WorkerOk(net, j, st') && CtlOk(net, j, st', r, ch[1..])
      && st'.served == st.served && Takes(st') == Takes(st) && Sends(st') == Sends(st)
      && (ch[0].Ctrl?)
  {
    hide Local; hide Bypass; hide Row; hide Out; hide Opened; hide Serve;
    var k := st.served;
    var lo := CtlReads(j, st);
    CtlSeqHead(net, j, lo, CtlSends(j, r));
    assert j == 1 ==> lo == 2 * k && lo / 2 == k && lo % 2 == 0;
    if k < net.n {
      LocalStep(net, j, k);
      assert ch[0] == Ctrl(net.jobs[k].pkt);
    } else {
      assert ch[0] == Ctrl(StopPacket);
    }
  }

  lemma TakeStage(net: Net, j: nat, st: Stage)
    requires WellFormed(net) && 1 <= j < net.pp && WorkerOk(net, j, st) && st.pc.Serving?
    ensures var st' := TakeMessage(net, j, st, Source(net, j, st.served), InputMsg(net, j, st.served));
      && WorkerOk(net, j, st') && st'.pc.Ready?
      && st'.served == st.served && Takes(st') == Takes(st) + 1 && Sends(st') == Sends(st) && Reads(st') == Reads(st)
  {
    hide Local; hide Row; hide Out; hide Serve;
    BypassStep(net, st.served);
  }

  lemma ComputeStage(net: Net, j: nat, st: Stage)
    requires WellFormed(net) && 1 <= j < net.pp && WorkerOk(net, j, st) && st.pc.Ready?
    ensures var st' := RunStage(net, j, st);
      && WorkerOk(net, j, st') && st'.pc.Computed?
      && st'.served == st.served && Takes(st') == Takes(st) && Sends(st') == Sends(st) && Reads(st') == Reads(st)
  {
    hide Local; hide Bypass; hide Row; hide Out; hide Opened;
    LocalStep(net, j, st.served);
    BypassStep(net, st.served);
  }

  lemma FinishStage(net: Net, j: nat, st: Stage)
    requires 1 <= j < net.pp && WorkerOk(net, j, st) && (st.pc.Computed? || st.pc.MarkerSent?)
    ensures var st' := Finish(st);
      && WorkerOk(net, j, st') && st'.pc.Idle?
      && st'.served == st.served + 1 && Takes(st') == Takes(st) && Sends(st') == st.served + 1
        && Reads(st') == Reads(st)
  {
    hide Local; hide Bypass; hide Row; hide Out; hide Opened;
  }
}
