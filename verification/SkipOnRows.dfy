/** The skip decision of a whole decode phase, said on its tokens and rows alone: against which row a token
    is measured, and what its verdict is given the verdicts before it (src/app.cpp). */
module SkipOnRows {
  import opened Common
  import opened SkipDecision

  datatype Verdict = Undecided | Accept | Reject

  /** What the decision stage decides on each token of a decode phase entered from prefill. */
  function Verdicts(
      o: SkipOptions, norm: (Vec, Vec) -> Option<real>, ppRank: nat, w: Worker, tokens: seq<Token>): (v: seq<Verdict>)
    ensures |v| == |tokens|
  {
    if tokens == [] then []
    else
      var before := tokens[..|tokens| - 1];
      var (_, decided, accepted) :=
        ServeToken(o, norm, ppRank, Phase(o, norm, ppRank, w, before).worker, tokens[|tokens| - 1]);
      Verdicts(o, norm, ppRank, w, before) + [if !decided then Undecided else if accepted then Accept else Reject]
  }

  /** The row of the last token of batch 1. */
  function LastRow(tokens: seq<Token>): Option<Vec>
  {
    if tokens == [] then None
    else if tokens[|tokens| - 1].batchSize == 1 then Some(tokens[|tokens| - 1].row)
    else LastRow(tokens[..|tokens| - 1])
  }

  /** Accepts since the last reject. */
  function AcceptRun(v: seq<Verdict>): nat
  {
    if v == [] then 0
    else match v[|v| - 1]
      case Undecided => AcceptRun(v[..|v| - 1])
      case Accept => AcceptRun(v[..|v| - 1]) + 1
      case Reject => 0
  }

  /** Rejects since the last accept. */
  function RejectRun(v: seq<Verdict>): nat
  {
    if v == [] then 0
    else match v[|v| - 1]
      case Undecided => RejectRun(v[..|v| - 1])
      case Accept => 0
      case Reject => RejectRun(v[..|v| - 1]) + 1
  }

  /** One token, on the fields of the stage. */
  lemma TokenStep(o: SkipOptions, norm: (Vec, Vec) -> Option<real>, ppRank: nat, w: Worker, t: Token)
    requires w.decodePhase
    ensures var (w', decided, accepted) := ServeToken(o, norm, ppRank, w, t);
      var d := if w.hasPrev then norm(t.row, w.prevRow) else None;
      && (decided <==>
            (o.execute || o.shadow) && o.target != 0 && ppRank + 1 == o.target && t.batchSize == 1 && d.Some?)
      && (accepted <==>
            decided && d.value <= o.theta && w.accepts < o.maxConsecutive && w.rejectStreak < o.maxRejectStreak)
      && (if (o.execute || o.shadow) && t.batchSize == 1 then w'.hasPrev && w'.prevRow == t.row
          else w'.hasPrev == w.hasPrev && w'.prevRow == w.prevRow)
  {
  }

  lemma PhaseStep(o: SkipOptions, norm: (Vec, Vec) -> Option<real>, ppRank: nat, w: Worker, tokens: seq<Token>)
    ensures tokens == [] ==> Phase(o, norm, ppRank, w, tokens).worker == AfterControl(w, Packet(0, 1, true))
    ensures tokens != [] ==>
      var before, t := tokens[..|tokens| - 1], tokens[|tokens| - 1];
      Phase(o, norm, ppRank, w, tokens).worker ==
        ServeToken(o, norm, ppRank, Phase(o, norm, ppRank, w, before).worker, t).0
  {
    hide ServeToken;
  }

  /** The counters and the remembered row of the stage, read off the verdicts and the rows so far. */
  lemma {:induction false} PhaseState(
      o: SkipOptions, norm: (Vec, Vec) -> Option<real>, ppRank: nat, w: Worker, tokens: seq<Token>)
    requires !w.decodePhase
    ensures var now, v := Phase(o, norm, ppRank, w, tokens).worker, Verdicts(o, norm, ppRank, w, tokens);
      && now.decodePhase && now.accepts == AcceptRun(v)
      && now.rejectStreak == Rem(RejectRun(v), o.maxRejectStreak + 1)
      && ((o.execute || o.shadow) ==>
            (now.hasPrev <==> LastRow(tokens).Some?) && (now.hasPrev ==> now.prevRow == LastRow(tokens).value))
    decreases |tokens|
  {
    hide ServeToken; hide Phase; hide Rem;
    StreakStep(0, o.maxRejectStreak);
    PhaseStep(o, norm, ppRank, w, tokens);
    if tokens != [] {
      var before, t := tokens[..|tokens| - 1], tokens[|tokens| - 1];
      PhaseState(o, norm, ppRank, w, before);
      var v, v' := Verdicts(o, norm, ppRank, w, before), Verdicts(o, norm, ppRank, w, tokens);
      assert v'[..|v'| - 1] == v;
      var now := Phase(o, norm, ppRank, w, before).worker;
      TokenStep(o, norm, ppRank, now, t);
      ServeTokenCases(o, norm, ppRank, now, t);
      hide Verdicts;
      StreakStep(RejectRun(v), o.maxRejectStreak);
    }
  }

  /** The streak counts to `m` and starts again. */
  lemma StreakStep(n: nat, m: nat)
    ensures Rem(n, m + 1) <= m && Rem(n + 1, m + 1) == if Rem(n, m + 1) == m then 0 else Rem(n, m + 1) + 1
    ensures Rem(n, m + 1) == n % (m + 1) && Rem(0, m + 1) == 0
  {
    var q, r := n / (m + 1), n % (m + 1);
    assert n == q * (m + 1) + r;
    assert (q + 1) * (m + 1) == q * (m + 1) + (m + 1);
    if r == m { QuotRem(n + 1, q + 1, 0, m + 1); } else { QuotRem(n + 1, q, r + 1, m + 1); }
    QuotRem(0, 0, 0, m + 1);
  }

  /** A token is decided on exactly when its row can be measured against the row of the last token of batch 1
      in the phase. It is accepted exactly when the two differ by at most theta, fewer than `maxConsecutive`
      accepts have gone before since the last reject, and it is not the turn of a forced full pass, which
      comes after every `maxRejectStreak` rejects. */
  lemma DecisionOnRows(
      o: SkipOptions, norm: (Vec, Vec) -> Option<real>, ppRank: nat, w: Worker, tokens: seq<Token>, t: Token)
    requires !w.decodePhase
    ensures var v := Verdicts(o, norm, ppRank, w, tokens);
      var prev := LastRow(tokens);
      var d := if prev.None? then None else norm(t.row, prev.value);
      var measured := (o.execute || o.shadow) && o.target != 0 && ppRank + 1 == o.target && t.batchSize == 1 && d.Some?;
      Verdicts(o, norm, ppRank, w, tokens + [t]) == v +
        [if !measured then Undecided
         else if d.value <= o.theta && AcceptRun(v) < o.maxConsecutive
                 && RejectRun(v) % (o.maxRejectStreak + 1) != o.maxRejectStreak then Accept
         else Reject]
  {
    hide ServeToken; hide Phase; hide AcceptRun; hide RejectRun; hide LastRow; hide Rem;
    PhaseState(o, norm, ppRank, w, tokens);
    TokenStep(o, norm, ppRank, Phase(o, norm, ppRank, w, tokens).worker, t);
    StreakStep(RejectRun(Verdicts(o, norm, ppRank, w, tokens)), o.maxRejectStreak);
    assert (tokens + [t])[..|tokens|] == tokens;
  }
}
