/** What each emitted segment reads and writes: no op of a program reads a stale buffer. */
module SegmentFootprints {
  import opened LayerPrograms
  import opened StageSemantics

  // ---- What the segments of a layer read and write -------------------------------------------------

  /** What the ops of layer `l` may write: never an input, the X pipe, the logits or another layer's cache. */
  predicate Scratch(x: Loc, l: nat)
  {
    && !x.X? && !x.Pos? && !x.Tok? && !x.Lg? && !x.RopeCache?
    && (x.K? ==> x.layer == l) && (x.V? ==> x.layer == l)
  }

  function May(l: nat): Loc -> bool { (x: Loc) => Scratch(x, l) }

  lemma NormSegment(name: string, l: nat)
    ensures Segment(Norm(name, l), {BX}, {Inv, BY}, May(l))
  {
    hide Segment;
    TwoOps(Norm(name, l)[0], Norm(name, l)[1], {BX}, {Inv, BY}, May(l));
  }

  lemma QkvSegment(c: Config, l: nat)
    ensures Segment(Qkv(c, l), {BY}, {Q, KTemp, VTemp}, May(l))
  {
    hide Segment;
    var yq := YqOf(c);
    var q, k, v := Op(Matmul(Weight("block_matmul_q", l)), [yq], [Q]),
      Op(Matmul(Weight("block_matmul_k", l)), [yq], [KTemp]), Op(Matmul(Weight("block_matmul_v", l)), [yq], [VTemp]);
    ThreeOps(q, k, v, {BY} + {yq}, {Q, KTemp, VTemp}, May(l));
    CastThen(c, BY, yq, [q, k, v], {BY}, {Q, KTemp, VTemp}, May(l));
  }

  lemma QkNormSegment(c: Config, l: nat)
    ensures Segment(QkNorm(c, l), {Q, KTemp}, {}, May(l))
  {
    hide Segment;
    if c.arch.Llama? {
      NoOps({Q, KTemp}, May(l));
    } else {
      var p := QkNorm(c, l);
      FourOps(p[0], p[1], p[2], p[3], {Q, KTemp}, {}, May(l));
    }
  }

  lemma RopeShiftSegment(l: nat)
    ensures Segment(RopeShift(l), {Q, KTemp, VTemp, Pos, RopeCache, K(l), V(l)}, {K(l), V(l)}, May(l))
  {
    hide Segment;
    var p := RopeShift(l);
    FourOps(p[0], p[1], p[2], p[3], {Q, KTemp, VTemp, Pos, RopeCache, K(l), V(l)}, {K(l), V(l)}, May(l));
  }

  lemma AttOutSegment(c: Config, l: nat)
    ensures Segment(AttOut(c, l), {Q, K(l), V(l), Pos}, {Zq}, May(l))
  {
    hide Segment;
    var p := AttOut(c, l);
    FourOps(p[0], p[1], p[2], p[3], {Q, K(l), V(l), Pos}, {Zq}, May(l));
  }

  lemma AttentionSegment(c: Config, l: nat)
    ensures Segment(Attention(c, l), {BX, Pos, RopeCache, K(l), V(l)}, {Zq, K(l), V(l)}, May(l))
  {
    hide Segment; hide Norm; hide Qkv; hide QkNorm; hide RopeShift; hide AttOut;
    var need := {BX, Pos, RopeCache, K(l), V(l)};
    NormSegment("block_norm_0", l);
    QkvSegment(c, l);
    QkNormSegment(c, l);
    RopeShiftSegment(l);
    AttOutSegment(c, l);
    var p0 := Norm("block_norm_0", l);
    SegmentWiden(p0, {BX}, {Inv, BY}, need, {BY}, May(l));
    var p1 := p0 + Qkv(c, l);
    var g1 := {BY} + {Q, KTemp, VTemp};
    SegmentThen(p0, Qkv(c, l), need, {BY}, {BY}, {Q, KTemp, VTemp}, May(l));
    SegmentThen(p1, QkNorm(c, l), need, g1, {Q, KTemp}, {}, May(l));
    var p2 := p1 + QkNorm(c, l);
    SegmentWiden(p2, need, g1 + {}, need, g1, May(l));
    SegmentThen(p2, RopeShift(l), need, g1, {Q, KTemp, VTemp, Pos, RopeCache, K(l), V(l)}, {K(l), V(l)}, May(l));
    var p3 := p2 + RopeShift(l);
    SegmentThen(p3, AttOut(c, l), need, g1 + {K(l), V(l)}, {Q, K(l), V(l), Pos}, {Zq}, May(l));
    SegmentWiden(p3 + AttOut(c, l), need, g1 + {K(l), V(l)} + {Zq}, need, {Zq, K(l), V(l)}, May(l));
  }

  lemma RouteSegment(c: Config, l: nat)
    ensures Segment(Route(c, l), {BY}, {MoeYqOf(c), MoeS, MoeIdx}, May(l))
  {
    hide Segment;
    var p := Route(c, l);
    FourOps(p[0], p[1], p[2], p[3], {BY}, {MoeYqOf(c), MoeS, MoeIdx}, May(l));
  }

  lemma ExpertsSegment(c: Config, l: nat)
    ensures Segment(Experts(c, l), {MoeYqOf(c), MoeIdx}, {MoeD}, May(l))
  {
    hide Segment;
    var p := Experts(c, l);
    FourOps(p[0], p[1], p[2], p[3], {MoeYqOf(c), MoeIdx}, {MoeD}, May(l));
  }

  lemma MergeExpertsSegment(c: Config, l: nat)
    ensures Segment(MergeExperts(c, l), {MoeD, MoeIdx, MoeS}, {BY}, May(l))
  {
    hide Segment;
    var dq := MoeDqOf(c);
    var need := {MoeD, MoeIdx, MoeS};
    var a, b, d := Op(Matmul(Weight("block_matmul_w2", l)), [dq, MoeIdx], [MoeY]), Op(Scale, [MoeY, MoeS], [MoeY]),
      Op(MergeSum, [MoeY], [BY]);
    ThreeOps(a, b, d, need + {dq}, {BY}, May(l));
    CastThen(c, MoeD, dq, [a, b, d], need, {BY}, May(l));
  }

  lemma DenseSegment(c: Config, l: nat)
    ensures Segment(Dense(c, l), {BY}, {D}, May(l))
  {
    hide Segment;
    var yq := YqOf(c);
    var a, b := Op(Matmul(Weight("block_matmul_w1", l)), [yq], [D]),
      Op(Matmul(Weight("block_matmul_w3", l)), [yq], [L]);
    var d, e := Op(Silu, [D], [D]), Op(Mul, [D, L], [D]);
    FourOps(a, b, d, e, {BY} + {yq}, {D}, May(l));
    CastThen(c, BY, yq, [a, b, d, e], {BY}, {D}, May(l));
  }

  lemma DenseOutSegment(c: Config, l: nat)
    ensures Segment(DenseOut(c, l), {D}, {BY}, May(l))
  {
    var dq := DqOf(c);
    var a := Op(Matmul(Weight("block_matmul_w2", l)), [dq], [BY]);
    OneOp(a, May(l));
    SegmentWiden([a], {dq}, {BY}, {D} + {dq}, {BY}, May(l));
    CastThen(c, D, dq, [a], {D}, {BY}, May(l));
  }

  /** Dense or mixture of experts, the middle of a feed-forward segment turns y into y. */
  lemma MiddleSegment(c: Config, l: nat)
    ensures Segment(if c.arch.Qwen3Moe? then Route(c, l) + Experts(c, l) + MergeExperts(c, l)
      else Dense(c, l) + DenseOut(c, l),
                    {BY}, {BY}, May(l))
  {
    hide Segment; hide Route; hide Experts; hide MergeExperts; hide Dense; hide DenseOut;
    if c.arch.Qwen3Moe? {
      RouteSegment(c, l);
      ExpertsSegment(c, l);
      MergeExpertsSegment(c, l);
      var g := {MoeYqOf(c), MoeS, MoeIdx};
      SegmentThen(Route(c, l), Experts(c, l), {BY}, g, {MoeYqOf(c), MoeIdx}, {MoeD}, May(l));
      var p := Route(c, l) + Experts(c, l);
      SegmentThen(p, MergeExperts(c, l), {BY}, g + {MoeD}, {MoeD, MoeIdx, MoeS}, {BY}, May(l));
      SegmentWiden(p + MergeExperts(c, l), {BY}, g + {MoeD} + {BY}, {BY}, {BY}, May(l));
    } else {
      DenseSegment(c, l);
      DenseOutSegment(c, l);
      SegmentThen(Dense(c, l), DenseOut(c, l), {BY}, {D}, {D}, {BY}, May(l));
      SegmentWiden(Dense(c, l) + DenseOut(c, l), {BY}, {D} + {BY}, {BY}, {BY}, May(l));
    }
  }

  lemma FeedForwardSegment(c: Config, l: nat)
    ensures Segment(FeedForward(c, l), {BX, Zq}, {BX, Zq}, May(l))
  {
    hide Segment; hide Route; hide Experts; hide MergeExperts; hide Dense; hide DenseOut; hide Norm;
    var need := {BX, Zq};
    var a, z := Op(MergeAdd, [Zq, BX], [BX]), Op(Cast(F32, F32), [BY], [Zq]);
    var mid := if c.arch.Qwen3Moe? then Route(c, l) + Experts(c, l) + MergeExperts(c, l)
      else Dense(c, l) + DenseOut(c, l);
    OneOp(a, May(l));
    OneOp(z, May(l));
    MiddleSegment(c, l);
    NormSegment("block_norm_1", l);
    var p := [a] + Norm("block_norm_1", l);
    SegmentThen([a], Norm("block_norm_1", l), need, {BX}, {BX}, {Inv, BY}, May(l));
    SegmentThen(p, mid, need, {BX} + {Inv, BY}, {BY}, {BY}, May(l));
    SegmentThen(p + mid, [z], need, {BX} + {Inv, BY} + {BY}, {BY}, {Zq}, May(l));
    SegmentWiden(p + mid + [z], need, {BX} + {Inv, BY} + {BY} + {Zq}, need, need, May(l));
  }

  /** A layer depends on x, the position and its own cache alone, and writes x, zq and its own cache. */
  lemma BodySegment(c: Config, l: nat)
    ensures Segment(Body(c, l), {BX, Pos, RopeCache, K(l), V(l)}, {BX, Zq, K(l), V(l)}, May(l))
  {
    hide Segment; hide Attention; hide FeedForward;
    var need := {BX, Pos, RopeCache, K(l), V(l)};
    AttentionSegment(c, l);
    FeedForwardSegment(c, l);
    SegmentThen(Attention(c, l), FeedForward(c, l), need, {Zq, K(l), V(l)}, {BX, Zq}, {BX, Zq}, May(l));
    SegmentWiden(Body(c, l), need, {Zq, K(l), V(l)} + {BX, Zq}, need, {BX, Zq, K(l), V(l)}, May(l));
  }

  function EndMay(): Loc -> bool { (x: Loc) => !x.K? && !x.V? && !x.X? && !x.Pos? && !x.RopeCache? }

  lemma EndHeadSegment()
    ensures Segment([Op(MergeAdd, [Zq, BX], [BX])] + Norm("final_norm", 0), {BX, Zq}, {BY}, EndMay())
  {
    hide Segment;
    var p := [Op(MergeAdd, [Zq, BX], [BX])] + Norm("final_norm", 0);
    ThreeOps(p[0], p[1], p[2], {BX, Zq}, {BY}, EndMay());
    assert p == [p[0], p[1], p[2]];
  }

  lemma LmHeadSegment(c: Config)
    ensures Segment(LmHead(c), {BY}, {Lg}, EndMay())
  {
    hide Segment;
    var yq := YqOf(c);
    var tail :=
      if c.fusedArgmax then [Op(MatmulArgmax(Weight("final_matmul_logits", 0)), [yq], [Argmax]),
          Op(ArgmaxReduce, [Argmax], [Lg])]
      else [Op(Matmul(Weight("final_matmul_logits", 0)), [yq], [Lg])];
    if c.fusedArgmax {
      TwoOps(tail[0], tail[1], {BY} + {yq}, {Lg}, EndMay());
    } else {
      OneOp(tail[0], EndMay());
      SegmentWiden(tail, {yq}, {Lg}, {BY} + {yq}, {Lg}, EndMay());
    }
    CastThen(c, BY, yq, tail, {BY}, {Lg}, EndMay());
  }

  lemma EndSegment(c: Config)
    ensures Segment(End(c), {BX, Zq}, {Lg}, EndMay())
  {
    hide Segment; hide LmHead; hide Norm;
    EndHeadSegment();
    LmHeadSegment(c);
    var head := [Op(MergeAdd, [Zq, BX], [BX])] + Norm("final_norm", 0);
    SegmentThen(head, LmHead(c), {BX, Zq}, {BY}, {BY}, {Lg}, EndMay());
    SegmentWiden(End(c), {BX, Zq}, {BY} + {Lg}, {BX, Zq}, {Lg}, EndMay());
  }
}
