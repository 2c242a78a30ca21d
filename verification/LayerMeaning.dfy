/** What the emitted programs compute, written down as nested applications of the layer mathematics: a
    layer's attention and feed-forward, its cache rows, and the logits (src/llm.cpp). */
module LayerMeaning {
  import opened LayerPrograms
  import opened StageSemantics
  import opened SegmentFootprints
  import opened PipelineRefinement

  // ---- The meaning ------------------------------------------------------------------------------------

  function Nth(r: seq<Tensor>, i: nat): Tensor { if i < |r| then r[i] else [] }

  /** The one output of an op. */
  function One(eval: Eval, kind: Kind, ins: seq<Tensor>): Tensor { Nth(eval(kind, ins), 0) }

  function Product(eval: Eval, name: string, l: nat, ins: seq<Tensor>): Tensor
  { One(eval, Matmul(Weight(name, l)), ins) }

  /** Rows that a product reads are in the sync format. */
  function Narrow(eval: Eval, c: Config, v: Tensor): Tensor { if c.syncF32 then v else One(eval, Cast(F32, Sync), [v]) }

  function Normed(eval: Eval, name: string, l: nat, x: Tensor): Tensor
  {
    One(eval, RmsNorm(Weight(name, l)), [x, One(eval, InvRms("x"), [x])])
  }

  /** The row the products of a layer's attention read. */
  function AttentionInput(eval: Eval, c: Config, l: nat, x: Tensor): Tensor
  {
    Narrow(eval, c, Normed(eval, "block_norm_0", l, x))
  }

  /** The Qwen architectures normalise queries and keys per head. */
  function Query(eval: Eval, c: Config, l: nat, x: Tensor, pos: Tensor, rope: Tensor): Tensor
  {
    var q := Product(eval, "block_matmul_q", l, [AttentionInput(eval, c, l, x)]);
    var n := if c.arch.Llama? then q
      else One(eval, RmsNorm(Weight("block_norm_q", l)), [q, One(eval, InvRms("q"), [q])]);
    One(eval, Rope(true), [n, pos, rope])
  }

  function Key(eval: Eval, c: Config, l: nat, x: Tensor, pos: Tensor, rope: Tensor): Tensor
  {
    var k := Product(eval, "block_matmul_k", l, [AttentionInput(eval, c, l, x)]);
    var n := if c.arch.Llama? then k
      else One(eval, RmsNorm(Weight("block_norm_k", l)), [k, One(eval, InvRms("k"), [k])]);
    One(eval, Rope(false), [n, pos, rope])
  }

  function Value(eval: Eval, c: Config, l: nat, x: Tensor): Tensor
  {
    Product(eval, "block_matmul_v", l, [AttentionInput(eval, c, l, x)])
  }

  /** The cache of a layer after its rows have been shifted in. */
  function KeyCache(eval: Eval, c: Config, l: nat, x: Tensor, pos: Tensor, rope: Tensor, keys: Tensor): Tensor
  {
    One(eval, Shift, [Key(eval, c, l, x, pos, rope), pos, keys])
  }

  function ValueCache(eval: Eval, c: Config, l: nat, x: Tensor, pos: Tensor, values: Tensor): Tensor
  {
    One(eval, Shift, [Value(eval, c, l, x), pos, values])
  }

  /** What attention adds to the hidden row. */
  function Attended(
      eval: Eval, c: Config, l: nat, x: Tensor, pos: Tensor, rope: Tensor, keys: Tensor, values: Tensor): Tensor
  {
    var z := One(eval, MultiheadAtt,
      [Query(eval, c, l, x, pos, rope), KeyCache(eval, c, l, x, pos, rope, keys),
       ValueCache(eval, c, l, x, pos, values), pos]);
    var narrow := One(eval, Cast(F32, if c.syncF32 then F32 else Sync), [z]);
    One(eval, Cast(F32, F32), [Product(eval, "block_matmul_wo", l, [narrow])])
  }

  function Added(eval: Eval, part: Tensor, x: Tensor): Tensor { One(eval, MergeAdd, [part, x]) }

  /** w2(silu(w1 y) * w3 y). */
  function DensePart(eval: Eval, c: Config, l: nat, y: Tensor): Tensor
  {
    var n := Narrow(eval, c, y);
    var gate := One(eval, Silu, [Product(eval, "block_matmul_w1", l, [n])]);
    var h := One(eval, Mul, [gate, Product(eval, "block_matmul_w3", l, [n])]);
    Product(eval, "block_matmul_w2", l, [Narrow(eval, c, h)])
  }

  /** The same with the experts that the gate picks, weighted and summed. */
  function ExpertPart(eval: Eval, c: Config, l: nat, y: Tensor): Tensor
  {
    var picked := eval(MoeGate, [One(eval, Softmax, [Product(eval, "block_moe_gate", l, [y])])]);
    var weights, experts := Nth(picked, 0), Nth(picked, 1);
    var n := One(eval, RepeatZ, [y]);
    var gate := One(eval, Silu, [Product(eval, "block_matmul_w1", l, [n, experts])]);
    var h := One(eval, Mul, [gate, Product(eval, "block_matmul_w3", l, [n, experts])]);
    var out := Product(eval, "block_matmul_w2", l, [Narrow(eval, c, h), experts]);
    One(eval, MergeSum, [One(eval, Scale, [out, weights])])
  }

  /** What the feed-forward adds to the hidden row `x`. */
  function FedForward(eval: Eval, c: Config, l: nat, x: Tensor): Tensor
  {
    var y := Normed(eval, "block_norm_1", l, x);
    One(eval, Cast(F32, F32), [if c.arch.Qwen3Moe? then ExpertPart(eval, c, l, y) else DensePart(eval, c, l, y)])
  }

  /** The logits of a hidden row, or with the fused head the index of the largest. */
  function Logits(eval: Eval, c: Config, x: Tensor): Tensor
  {
    var y := Narrow(eval, c, Normed(eval, "final_norm", 0, x));
    if c.fusedArgmax then One(eval, ArgmaxReduce, [One(eval, MatmulArgmax(Weight("final_matmul_logits", 0)), [y])])
    else Product(eval, "final_matmul_logits", 0, [y])
  }

  // ---- Single ops ---------------------------------------------------------------------------------------

  lemma ExecArgs(eval: Eval, op: Op, m: Memory, ins: seq<Tensor>)
    requires |op.outs| == 1 && Fetch(m, op.args) == ins
    ensures Exec(eval, op, m)(op.outs[0]) == One(eval, op.kind, ins)
    ensures forall l :: l != op.outs[0] ==> Exec(eval, op, m)(l) == m(l)
  {
    ExecOne(eval, op, m);
  }

  lemma Exec1(eval: Eval, kind: Kind, a: Loc, out: Loc, m: Memory)
    ensures var m' := Exec(eval, Op(kind, [a], [out]), m);
      m'(out) == One(eval, kind, [m(a)]) && forall l :: l != out ==> m'(l) == m(l)
  {
    hide Exec; hide One;
    var op := Op(kind, [a], [out]);
    assert Fetch(m, op.args) == [m(a)];
    ExecArgs(eval, op, m, [m(a)]);
  }

  lemma Exec2(eval: Eval, kind: Kind, a: Loc, b: Loc, out: Loc, m: Memory)
    ensures var m' := Exec(eval, Op(kind, [a, b], [out]), m);
      m'(out) == One(eval, kind, [m(a), m(b)]) && forall l :: l != out ==> m'(l) == m(l)
  {
    hide Exec; hide One;
    var op := Op(kind, [a, b], [out]);
    assert Fetch(m, op.args) == [m(a), m(b)];
    ExecArgs(eval, op, m, [m(a), m(b)]);
  }

  lemma Exec3(eval: Eval, kind: Kind, a: Loc, b: Loc, d: Loc, out: Loc, m: Memory)
    ensures var m' := Exec(eval, Op(kind, [a, b, d], [out]), m);
      m'(out) == One(eval, kind, [m(a), m(b), m(d)]) && forall l :: l != out ==> m'(l) == m(l)
  {
    hide Exec; hide One;
    var op := Op(kind, [a, b, d], [out]);
    assert Fetch(m, op.args) == [m(a), m(b), m(d)];
    ExecArgs(eval, op, m, [m(a), m(b), m(d)]);
  }

  lemma Exec4(eval: Eval, kind: Kind, a: Loc, b: Loc, d: Loc, e: Loc, out: Loc, m: Memory)
    ensures var m' := Exec(eval, Op(kind, [a, b, d, e], [out]), m);
      m'(out) == One(eval, kind, [m(a), m(b), m(d), m(e)]) && forall l :: l != out ==> m'(l) == m(l)
  {
    hide Exec; hide One;
    var op := Op(kind, [a, b, d, e], [out]);
    assert Fetch(m, op.args) == [m(a), m(b), m(d), m(e)];
    ExecArgs(eval, op, m, [m(a), m(b), m(d), m(e)]);
  }

  lemma RunOne(eval: Eval, a: Op, m: Memory)
    ensures Run(eval, [a], m) == Exec(eval, a, m)
  {
    hide Exec;
    RunNothing(eval, Exec(eval, a, m));
    assert [a][1..] == [];
  }

  lemma RunCons(eval: Eval, a: Op, p: Program, m: Memory)
    ensures Run(eval, [a] + p, m) == Run(eval, p, Exec(eval, a, m))
  {
    hide Exec; hide Run;
    RunAppend(eval, [a], p, m);
    RunOne(eval, a, m);
  }

  lemma RunTwo(eval: Eval, a: Op, b: Op, m: Memory)
    ensures Run(eval, [a, b], m) == Exec(eval, b, Exec(eval, a, m))
  {
    hide Exec; hide Run;
    assert [a, b] == [a] + [b];
    RunCons(eval, a, [b], m);
    RunOne(eval, b, Exec(eval, a, m));
  }

  lemma RunThree(eval: Eval, a: Op, b: Op, d: Op, m: Memory)
    ensures Run(eval, [a, b, d], m) == Exec(eval, d, Exec(eval, b, Exec(eval, a, m)))
  {
    hide Exec; hide Run;
    assert [a, b, d] == [a] + [b, d];
    RunCons(eval, a, [b, d], m);
    RunTwo(eval, b, d, Exec(eval, a, m));
  }

  lemma RunFour(eval: Eval, a: Op, b: Op, d: Op, e: Op, m: Memory)
    ensures Run(eval, [a, b, d, e], m) == Exec(eval, e, Exec(eval, d, Exec(eval, b, Exec(eval, a, m))))
  {
    hide Exec; hide Run;
    assert [a, b, d, e] == [a] + [b, d, e];
    RunCons(eval, a, [b, d, e], m);
    RunThree(eval, b, d, e, Exec(eval, a, m));
  }

  lemma NarrowIs(eval: Eval, c: Config, from: Loc, to: Loc, m: Memory)
    requires from == to <==> c.syncF32
    ensures var m' := Run(eval, CastTo(c, from, to), m);
      m'(to) == Narrow(eval, c, m(from)) && forall l :: l != to ==> m'(l) == m(l)
  {
    hide Exec; hide Run; hide One;
    if from == to {
      RunNothing(eval, m);
    } else {
      RunOne(eval, Op(Cast(F32, Sync), [from], [to]), m);
      Exec1(eval, Cast(F32, Sync), from, to, m);
    }
  }

  // ---- Segments -----------------------------------------------------------------------------------------

  lemma NormIs(eval: Eval, name: string, l: nat, m: Memory)
    ensures var m' := Run(eval, Norm(name, l), m);
      m'(BY) == Normed(eval, name, l, m(BX)) && forall x :: x != BY && x != Inv ==> m'(x) == m(x)
  {
    hide Exec; hide Run; hide One;
    var a, b := Op(InvRms("x"), [BX], [Inv]), Op(RmsNorm(Weight(name, l)), [BX, Inv], [BY]);
    RunTwo(eval, a, b, m);
    Exec1(eval, InvRms("x"), BX, Inv, m);
    Exec2(eval, RmsNorm(Weight(name, l)), BX, Inv, BY, Exec(eval, a, m));
  }

  lemma QkvIs(eval: Eval, c: Config, l: nat, m: Memory)
    ensures var m', n := Run(eval, Qkv(c, l), m), Narrow(eval, c, m(BY));
      && m'(Q) == Product(eval, "block_matmul_q", l, [n]) && m'(KTemp) == Product(eval, "block_matmul_k", l, [n])
      && m'(VTemp) == Product(eval, "block_matmul_v", l, [n])
      && forall x :: x !in {BYq, Q, KTemp, VTemp} ==> m'(x) == m(x)
  {
    hide Exec; hide Run; hide One; hide CastTo; hide Narrow;
    var y := YqOf(c);
    var kq, kk, kv := Matmul(Weight("block_matmul_q", l)), Matmul(Weight("block_matmul_k", l)),
      Matmul(Weight("block_matmul_v", l));
    var m0 := Run(eval, CastTo(c, BY, y), m);
    RunAppend(eval, CastTo(c, BY, y), [Op(kq, [y], [Q]), Op(kk, [y], [KTemp]), Op(kv, [y], [VTemp])], m);
    NarrowIs(eval, c, BY, y, m);
    RunThree(eval, Op(kq, [y], [Q]), Op(kk, [y], [KTemp]), Op(kv, [y], [VTemp]), m0);
    Exec1(eval, kq, y, Q, m0);
    var m1 := Exec(eval, Op(kq, [y], [Q]), m0);
    Exec1(eval, kk, y, KTemp, m1);
    Exec1(eval, kv, y, VTemp, Exec(eval, Op(kk, [y], [KTemp]), m1));
    KeepsY(eval, c, m);
  }

  /** When the formats are one, narrowing y leaves y as it is. */
  lemma KeepsY(eval: Eval, c: Config, m: Memory)
    ensures forall x :: x != BYq ==> Run(eval, CastTo(c, BY, YqOf(c)), m)(x) == m(x)
  {
    hide Run;
    NarrowIs(eval, c, BY, YqOf(c), m);
  }

  lemma QkNormIs(eval: Eval, c: Config, l: nat, m: Memory)
    ensures var m' := Run(eval, QkNorm(c, l), m);
      && m'(Q) == (if c.arch.Llama? then m(Q)
           else One(eval, RmsNorm(Weight("block_norm_q", l)), [m(Q), One(eval, InvRms("q"), [m(Q)])]))
      && m'(KTemp) == (if c.arch.Llama? then m(KTemp)
           else One(eval, RmsNorm(Weight("block_norm_k", l)), [m(KTemp), One(eval, InvRms("k"), [m(KTemp)])]))
      && forall x :: x !in {Inv, Q, KTemp} ==> m'(x) == m(x)
  {
    hide Exec; hide Run; hide One;
    if c.arch.Llama? {
      RunNothing(eval, m);
    } else {
      var nq, nk := RmsNorm(Weight("block_norm_q", l)), RmsNorm(Weight("block_norm_k", l));
      var a, b := Op(InvRms("q"), [Q], [Inv]), Op(nq, [Q, Inv], [Q]);
      var d, e := Op(InvRms("k"), [KTemp], [Inv]), Op(nk, [KTemp, Inv], [KTemp]);
      RunFour(eval, a, b, d, e, m);
      Exec1(eval, InvRms("q"), Q, Inv, m);
      var m1 := Exec(eval, a, m);
      Exec2(eval, nq, Q, Inv, Q, m1);
      var m2 := Exec(eval, b, m1);
      Exec1(eval, InvRms("k"), KTemp, Inv, m2);
      Exec2(eval, nk, KTemp, Inv, KTemp, Exec(eval, d, m2));
    }
  }

  lemma RopeShiftIs(eval: Eval, l: nat, m: Memory)
    ensures var m' := Run(eval, RopeShift(l), m);
      && m'(Q) == One(eval, Rope(true), [m(Q), m(Pos), m(RopeCache)])
      && m'(K(l)) == One(eval, Shift, [One(eval, Rope(false), [m(KTemp), m(Pos), m(RopeCache)]), m(Pos), m(K(l))])
      && m'(V(l)) == One(eval, Shift, [m(VTemp), m(Pos), m(V(l))])
      && forall x :: x !in {Q, KTemp, K(l), V(l)} ==> m'(x) == m(x)
  {
    hide Exec; hide Run; hide One;
    var a, b := Op(Rope(true), [Q, Pos, RopeCache], [Q]), Op(Rope(false), [KTemp, Pos, RopeCache], [KTemp]);
    var d, e := Op(Shift, [KTemp, Pos, K(l)], [K(l)]), Op(Shift, [VTemp, Pos, V(l)], [V(l)]);
    RunFour(eval, a, b, d, e, m);
    Exec3(eval, Rope(true), Q, Pos, RopeCache, Q, m);
    var m1 := Exec(eval, a, m);
    Exec3(eval, Rope(false), KTemp, Pos, RopeCache, KTemp, m1);
    var m2 := Exec(eval, b, m1);
    Exec3(eval, Shift, KTemp, Pos, K(l), K(l), m2);
    Exec3(eval, Shift, VTemp, Pos, V(l), V(l), Exec(eval, d, m2));
  }

  lemma AttOutIs(eval: Eval, c: Config, l: nat, m: Memory)
    ensures var m' := Run(eval, AttOut(c, l), m);
      var z := One(eval, MultiheadAtt, [m(Q), m(K(l)), m(V(l)), m(Pos)]);
      var narrow := One(eval, Cast(F32, if c.syncF32 then F32 else Sync), [z]);
      && m'(Zq) == One(eval, Cast(F32, F32), [Product(eval, "block_matmul_wo", l, [narrow])])
      && forall x :: x !in {Z, ZqSlice, BY, Zq} ==> m'(x) == m(x)
  {
    hide Exec; hide Run; hide One;
    var f, w := SyncFormat(c), Matmul(Weight("block_matmul_wo", l));
    var a, b := Op(MultiheadAtt, [Q, K(l), V(l), Pos], [Z]), Op(Cast(F32, f), [Z], [ZqSlice]);
    var d, e := Op(w, [ZqSlice], [BY]), Op(Cast(F32, F32), [BY], [Zq]);
    RunFour(eval, a, b, d, e, m);
    Exec4(eval, MultiheadAtt, Q, K(l), V(l), Pos, Z, m);
    var m1 := Exec(eval, a, m);
    Exec1(eval, Cast(F32, f), Z, ZqSlice, m1);
    var m2 := Exec(eval, b, m1);
    Exec1(eval, w, ZqSlice, BY, m2);
    Exec1(eval, Cast(F32, F32), BY, Zq, Exec(eval, d, m2));
  }

  /** The attention segment leaves the rotated key rows in the layer's key cache, the value rows in its value
      cache, and what attention adds in zq. */
  lemma AttentionIs(eval: Eval, c: Config, l: nat, m: Memory)
    ensures var m' := Run(eval, Attention(c, l), m);
      && m'(K(l)) == KeyCache(eval, c, l, m(BX), m(Pos), m(RopeCache), m(K(l)))
      && m'(V(l)) == ValueCache(eval, c, l, m(BX), m(Pos), m(V(l)))
      && m'(Zq) == Attended(eval, c, l, m(BX), m(Pos), m(RopeCache), m(K(l)), m(V(l)))
      && m'(BX) == m(BX)
  {
    hide Run; hide One; hide Norm; hide Qkv; hide QkNorm; hide RopeShift; hide AttOut; hide Narrow; hide Normed;
    var p0, p1, p2, p3 := Norm("block_norm_0", l), Qkv(c, l), QkNorm(c, l), RopeShift(l);
    RunAppend(eval, p0 + p1 + p2 + p3, AttOut(c, l), m);
    RunAppend(eval, p0 + p1 + p2, p3, m);
    RunAppend(eval, p0 + p1, p2, m);
    RunAppend(eval, p0, p1, m);
    NormIs(eval, "block_norm_0", l, m);
    var m0 := Run(eval, p0, m);
    QkvIs(eval, c, l, m0);
    var m1 := Run(eval, p1, m0);
    QkNormIs(eval, c, l, m1);
    var m2 := Run(eval, p2, m1);
    RopeShiftIs(eval, l, m2);
    AttOutIs(eval, c, l, Run(eval, p3, m2));
  }

  lemma DenseIs(eval: Eval, c: Config, l: nat, m: Memory)
    ensures var m', n := Run(eval, Dense(c, l), m), Narrow(eval, c, m(BY));
      && m'(D) == One(eval, Mul, [One(eval, Silu, [Product(eval, "block_matmul_w1", l, [n])]),
                                  Product(eval, "block_matmul_w3", l, [n])])
      && forall x :: x !in {BYq, D, L} ==> m'(x) == m(x)
  {
    hide Exec; hide Run; hide One; hide CastTo; hide Narrow;
    var y := YqOf(c);
    var k1, k3 := Matmul(Weight("block_matmul_w1", l)), Matmul(Weight("block_matmul_w3", l));
    var a, b, d, e := Op(k1, [y], [D]), Op(k3, [y], [L]), Op(Silu, [D], [D]), Op(Mul, [D, L], [D]);
    var m0 := Run(eval, CastTo(c, BY, y), m);
    RunAppend(eval, CastTo(c, BY, y), [a, b, d, e], m);
    NarrowIs(eval, c, BY, y, m);
    KeepsY(eval, c, m);
    RunFour(eval, a, b, d, e, m0);
    Exec1(eval, k1, y, D, m0);
    var m1 := Exec(eval, a, m0);
    Exec1(eval, k3, y, L, m1);
    var m2 := Exec(eval, b, m1);
    Exec1(eval, Silu, D, D, m2);
    Exec2(eval, Mul, D, L, D, Exec(eval, d, m2));
  }

  lemma DenseOutIs(eval: Eval, c: Config, l: nat, m: Memory)
    ensures var m' := Run(eval, DenseOut(c, l), m);
      && m'(BY) == Product(eval, "block_matmul_w2", l, [Narrow(eval, c, m(D))])
      && forall x :: x !in {BY, D, Dq} ==> m'(x) == m(x)
  {
    hide Exec; hide Run; hide One; hide CastTo; hide Narrow;
    var d, w := DqOf(c), Matmul(Weight("block_matmul_w2", l));
    var m0 := Run(eval, CastTo(c, D, d), m);
    RunAppend(eval, CastTo(c, D, d), [Op(w, [d], [BY])], m);
    NarrowIs(eval, c, D, d, m);
    RunOne(eval, Op(w, [d], [BY]), m0);
    Exec1(eval, w, d, BY, m0);
  }

  lemma RouteIs(eval: Eval, c: Config, l: nat, m: Memory)
    ensures var m' := Run(eval, Route(c, l), m);
      var picked := eval(MoeGate, [One(eval, Softmax, [Product(eval, "block_moe_gate", l, [m(BY)])])]);
      && m'(MoeYqOf(c)) == One(eval, RepeatZ, [m(BY)])
      && m'(MoeS) == Nth(picked, 0) && m'(MoeIdx) == Nth(picked, 1)
      && forall x :: x !in {MoeYqOf(c), MoeGt, MoeS, MoeIdx} ==> m'(x) == m(x)
  {
    hide Exec; hide Run; hide One;
    var w := Matmul(Weight("block_moe_gate", l));
    var a, b := Op(RepeatZ, [BY], [MoeYqOf(c)]), Op(w, [BY], [MoeGt]);
    var d, e := Op(Softmax, [MoeGt], [MoeGt]), Op(MoeGate, [MoeGt], [MoeS, MoeIdx]);
    RunFour(eval, a, b, d, e, m);
    Exec1(eval, RepeatZ, BY, MoeYqOf(c), m);
    var m1 := Exec(eval, a, m);
    Exec1(eval, w, BY, MoeGt, m1);
    var m2 := Exec(eval, b, m1);
    Exec1(eval, Softmax, MoeGt, MoeGt, m2);
    GateIs(eval, Exec(eval, d, m2));
  }

  lemma GateIs(eval: Eval, m: Memory)
    ensures var m', picked := Exec(eval, Op(MoeGate, [MoeGt], [MoeS, MoeIdx]), m), eval(MoeGate, [m(MoeGt)]);
      && m'(MoeS) == Nth(picked, 0) && m'(MoeIdx) == Nth(picked, 1)
      && forall x :: x !in {MoeS, MoeIdx} ==> m'(x) == m(x)
  {
    assert Fetch(m, [MoeGt]) == [m(MoeGt)];
    var picked := eval(MoeGate, [m(MoeGt)]);
    var m1 := Put(m, MoeS, Nth(picked, 0));
    var rest := if picked == [] then [] else picked[1..];
    assert [MoeS, MoeIdx][1..] == [MoeIdx] && [MoeIdx][1..] == [];
    assert PutAll(m, [MoeS, MoeIdx], picked) == PutAll(m1, [MoeIdx], rest);
    assert PutAll(m1, [MoeIdx], rest) ==
      PutAll(Put(m1, MoeIdx, Nth(picked, 1)), [], if rest == [] then [] else rest[1..]);
  }

  lemma ExpertsIs(eval: Eval, c: Config, l: nat, m: Memory)
    ensures var m', n, i := Run(eval, Experts(c, l), m), m(MoeYqOf(c)), m(MoeIdx);
      && m'(MoeD) == One(eval, Mul, [One(eval, Silu, [Product(eval, "block_matmul_w1", l, [n, i])]),
                                     Product(eval, "block_matmul_w3", l, [n, i])])
      && forall x :: x !in {MoeD, MoeL} ==> m'(x) == m(x)
  {
    hide Exec; hide Run; hide One;
    var y := MoeYqOf(c);
    var k1, k3 := Matmul(Weight("block_matmul_w1", l)), Matmul(Weight("block_matmul_w3", l));
    var a, b := Op(k1, [y, MoeIdx], [MoeD]), Op(k3, [y, MoeIdx], [MoeL]);
    var d, e := Op(Silu, [MoeD], [MoeD]), Op(Mul, [MoeD, MoeL], [MoeD]);
    RunFour(eval, a, b, d, e, m);
    Exec2(eval, k1, y, MoeIdx, MoeD, m);
    var m1 := Exec(eval, a, m);
    Exec2(eval, k3, y, MoeIdx, MoeL, m1);
    var m2 := Exec(eval, b, m1);
    Exec1(eval, Silu, MoeD, MoeD, m2);
    Exec2(eval, Mul, MoeD, MoeL, MoeD, Exec(eval, d, m2));
  }

  lemma MergeExpertsIs(eval: Eval, c: Config, l: nat, m: Memory)
    ensures var m' := Run(eval, MergeExperts(c, l), m);
      var out := Product(eval, "block_matmul_w2", l, [Narrow(eval, c, m(MoeD)), m(MoeIdx)]);
      && m'(BY) == One(eval, MergeSum, [One(eval, Scale, [out, m(MoeS)])])
      && forall x :: x !in {BY, MoeY, MoeD, MoeDq} ==> m'(x) == m(x)
  {
    hide Exec; hide Run; hide One; hide CastTo; hide Narrow;
    var q, w := MoeDqOf(c), Matmul(Weight("block_matmul_w2", l));
    var a, b, d := Op(w, [q, MoeIdx], [MoeY]), Op(Scale, [MoeY, MoeS], [MoeY]), Op(MergeSum, [MoeY], [BY]);
    var m0 := Run(eval, CastTo(c, MoeD, q), m);
    RunAppend(eval, CastTo(c, MoeD, q), [a, b, d], m);
    NarrowIs(eval, c, MoeD, q, m);
    RunThree(eval, a, b, d, m0);
    Exec2(eval, w, q, MoeIdx, MoeY, m0);
    var m1 := Exec(eval, a, m0);
    Exec2(eval, Scale, MoeY, MoeS, MoeY, m1);
    Exec1(eval, MergeSum, MoeY, BY, Exec(eval, b, m1));
  }

  function Middle(c: Config, l: nat): Program
  {
    if c.arch.Qwen3Moe? then Route(c, l) + Experts(c, l) + MergeExperts(c, l) else Dense(c, l) + DenseOut(c, l)
  }

  lemma MiddleIs(eval: Eval, c: Config, l: nat, m: Memory)
    ensures var m' := Run(eval, Middle(c, l), m);
      && m'(BY) == (if c.arch.Qwen3Moe? then ExpertPart(eval, c, l, m(BY)) else DensePart(eval, c, l, m(BY)))
      && m'(BX) == m(BX) && forall x: Loc :: x.K? || x.V? ==> m'(x) == m(x)
  {
    hide Run; hide One; hide Route; hide Experts; hide MergeExperts; hide Dense; hide DenseOut; hide Narrow;
    if c.arch.Qwen3Moe? {
      RunAppend(eval, Route(c, l) + Experts(c, l), MergeExperts(c, l), m);
      RunAppend(eval, Route(c, l), Experts(c, l), m);
      RouteIs(eval, c, l, m);
      var m1 := Run(eval, Route(c, l), m);
      ExpertsIs(eval, c, l, m1);
      MergeExpertsIs(eval, c, l, Run(eval, Experts(c, l), m1));
    } else {
      RunAppend(eval, Dense(c, l), DenseOut(c, l), m);
      DenseIs(eval, c, l, m);
      DenseOutIs(eval, c, l, Run(eval, Dense(c, l), m));
    }
  }

  /** The feed-forward segment adds zq to the hidden row and leaves what it adds next in zq. */
  lemma FeedForwardIs(eval: Eval, c: Config, l: nat, m: Memory)
    ensures var m', x := Run(eval, FeedForward(c, l), m), Added(eval, m(Zq), m(BX));
      && m'(BX) == x && m'(Zq) == FedForward(eval, c, l, x)
      && forall y: Loc :: y.K? || y.V? ==> m'(y) == m(y)
  {
    hide Run; hide Exec; hide One; hide Norm; hide Middle; hide Normed; hide ExpertPart; hide DensePart;
    var a, z := Op(MergeAdd, [Zq, BX], [BX]), Op(Cast(F32, F32), [BY], [Zq]);
    var norm := Norm("block_norm_1", l);
    assert FeedForward(c, l) == [a] + norm + Middle(c, l) + [z] by { FeedForwardShape(c, l); }
    RunAppend(eval, [a] + norm + Middle(c, l), [z], m);
    RunAppend(eval, [a] + norm, Middle(c, l), m);
    RunAppend(eval, [a], norm, m);
    RunOne(eval, a, m);
    Exec2(eval, MergeAdd, Zq, BX, BX, m);
    var m0 := Exec(eval, a, m);
    NormIs(eval, "block_norm_1", l, m0);
    var m1 := Run(eval, norm, m0);
    MiddleIs(eval, c, l, m1);
    var m2 := Run(eval, Middle(c, l), m1);
    RunOne(eval, z, m2);
    Exec1(eval, Cast(F32, F32), BY, Zq, m2);
  }

  lemma FeedForwardShape(c: Config, l: nat)
    ensures FeedForward(c, l) ==
      [Op(MergeAdd, [Zq, BX], [BX])] + Norm("block_norm_1", l) + Middle(c, l) + [Op(Cast(F32, F32), [BY], [Zq])]
  {
    hide Norm; hide Route; hide Experts; hide MergeExperts; hide Dense; hide DenseOut;
  }

  lemma LmHeadIs(eval: Eval, c: Config, m: Memory)
    ensures var n := Narrow(eval, c, m(BY));
      Run(eval, LmHead(c), m)(Lg) ==
        if c.fusedArgmax then One(eval, ArgmaxReduce, [One(eval, MatmulArgmax(Weight("final_matmul_logits", 0)), [n])])
        else Product(eval, "final_matmul_logits", 0, [n])
  {
    hide Run; hide Exec; hide One; hide CastTo; hide Narrow;
    var y := YqOf(c);
    var m0 := Run(eval, CastTo(c, BY, y), m);
    NarrowIs(eval, c, BY, y, m);
    if c.fusedArgmax {
      var k := MatmulArgmax(Weight("final_matmul_logits", 0));
      var a, b := Op(k, [y], [Argmax]), Op(ArgmaxReduce, [Argmax], [Lg]);
      RunAppend(eval, CastTo(c, BY, y), [a, b], m);
      RunTwo(eval, a, b, m0);
      Exec1(eval, k, y, Argmax, m0);
      Exec1(eval, ArgmaxReduce, Argmax, Lg, Exec(eval, a, m0));
    } else {
      var k := Matmul(Weight("final_matmul_logits", 0));
      RunAppend(eval, CastTo(c, BY, y), [Op(k, [y], [Lg])], m);
      RunOne(eval, Op(k, [y], [Lg]), m0);
      Exec1(eval, k, y, Lg, m0);
    }
  }

  /** The final segment leaves the logits of the merged hidden row. */
  lemma EndIs(eval: Eval, c: Config, m: Memory)
    ensures Run(eval, End(c), m)(Lg) == Logits(eval, c, Added(eval, m(Zq), m(BX)))
  {
    hide Run; hide Exec; hide One; hide Norm; hide LmHead; hide Normed; hide Narrow;
    var a, norm := Op(MergeAdd, [Zq, BX], [BX]), Norm("final_norm", 0);
    RunAppend(eval, [a] + norm, LmHead(c), m);
    RunAppend(eval, [a], norm, m);
    RunOne(eval, a, m);
    Exec2(eval, MergeAdd, Zq, BX, BX, m);
    NormIs(eval, "final_norm", 0, Exec(eval, a, m));
    LmHeadIs(eval, c, Run(eval, norm, Exec(eval, a, m)));
  }

  // ---- A whole forward ------------------------------------------------------------------------------------

  /** The caches of all layers. */
  datatype Caches = Caches(keys: nat -> Tensor, values: nat -> Tensor)

  /** What a forward is given. */
  datatype Given = Given(pos: Tensor, tok: Tensor, rope: Tensor, caches: Caches)

  /** The hidden row that layer `l` starts from: the embedding, or what the layer before left, merged. */
  function Entering(eval: Eval, c: Config, g: Given, l: nat): Tensor
    decreases l, 0
  {
    if l == 0 then One(eval, Cast(F32, F32), [One(eval, Embedding, [g.tok])])
    else var (x, part) := Leaving(eval, c, g, l - 1); Added(eval, part, x)
  }

  /** What layer `l` leaves: the hidden row with its attention, and what its feed-forward adds. */
  function Leaving(eval: Eval, c: Config, g: Given, l: nat): (Tensor, Tensor)
    decreases l, 1
  {
    var x := Entering(eval, c, g, l);
    var attended := Added(eval, Attended(eval, c, l, x, g.pos, g.rope, g.caches.keys(l), g.caches.values(l)), x);
    (attended, FedForward(eval, c, l, attended))
  }

  /** The logits of a model of `n` layers. */
  function ModelLogits(eval: Eval, c: Config, g: Given, n: nat): Tensor { Logits(eval, c, Entering(eval, c, g, n)) }

  /** The caches after a forward; only the layers of the model write theirs. */
  function ModelCaches(eval: Eval, c: Config, g: Given, n: nat): Caches
  {
    Caches(
      (l: nat) => if l < n then KeyCache(eval, c, l, Entering(eval, c, g, l), g.pos, g.rope, g.caches.keys(l))
           else g.caches.keys(l),
      (l: nat) => if l < n then ValueCache(eval, c, l, Entering(eval, c, g, l), g.pos, g.caches.values(l))
           else g.caches.values(l))
  }

  ghost predicate Holds(m: Memory, g: Given)
  {
    && m(Pos) == g.pos && m(Tok) == g.tok && m(RopeCache) == g.rope
    && forall l: nat :: m(K(l)) == g.caches.keys(l) && m(V(l)) == g.caches.values(l)
  }

  lemma BodyIs(eval: Eval, c: Config, l: nat, m: Memory)
    ensures var m' := Run(eval, Body(c, l), m);
      var x := Added(eval, Attended(eval, c, l, m(BX), m(Pos), m(RopeCache), m(K(l)), m(V(l))), m(BX));
      && m'(K(l)) == KeyCache(eval, c, l, m(BX), m(Pos), m(RopeCache), m(K(l)))
      && m'(V(l)) == ValueCache(eval, c, l, m(BX), m(Pos), m(V(l)))
      && m'(BX) == x && m'(Zq) == FedForward(eval, c, l, x)
  {
    hide Run; hide Attention; hide FeedForward; hide KeyCache; hide ValueCache; hide Attended; hide FedForward;
    RunAppend(eval, Attention(c, l), FeedForward(c, l), m);
    AttentionIs(eval, c, l, m);
    var m1 := Run(eval, Attention(c, l), m);
    FeedForwardIs(eval, c, l, m1);
  }

  /** The undivided program before layer `l` holds the hidden row that layer starts from, the caches of the
      layers below `l` after their shift, and the others as they were. */
  ghost predicate Reached(eval: Eval, c: Config, g: Given, l: nat, m: Memory)
  {
    && m(Pos) == g.pos && m(RopeCache) == g.rope
    && (if l == 0 then m(X) == One(eval, Embedding, [g.tok])
        else m(BX) == Leaving(eval, c, g, l - 1).0 && m(Zq) == Leaving(eval, c, g, l - 1).1)
    && var after := ModelCaches(eval, c, g, l);
       forall i: nat :: m(K(i)) == after.keys(i) && m(V(i)) == after.values(i)
  }

  lemma HeadIs(eval: Eval, c: Config, g: Given, l: nat, m: Memory)
    requires Reached(eval, c, g, l, m)
    ensures var m' := Run(eval, Head(l, l == 0), m);
      m'(BX) == Entering(eval, c, g, l) && forall x :: x != BX ==> m'(x) == m(x)
  {
    hide Run; hide Exec; hide One; hide Leaving; hide ModelCaches;
    if l == 0 {
      RunOne(eval, Op(Cast(F32, F32), [X], [BX]), m);
      Exec1(eval, Cast(F32, F32), X, BX, m);
    } else {
      RunOne(eval, Op(MergeAdd, [Zq, BX], [BX]), m);
      Exec2(eval, MergeAdd, Zq, BX, BX, m);
    }
  }

  /** Head and body of a layer, on what the layer starts from. */
  lemma LayerEffect(eval: Eval, c: Config, g: Given, l: nat, m: Memory)
    requires Reached(eval, c, g, l, m)
    ensures var m', x := LayerStep(eval, c, l, l == 0, m), Entering(eval, c, g, l);
      && m'(BX) == Leaving(eval, c, g, l).0 && m'(Zq) == Leaving(eval, c, g, l).1
      && m'(K(l)) == KeyCache(eval, c, l, x, g.pos, g.rope, g.caches.keys(l))
      && m'(V(l)) == ValueCache(eval, c, l, x, g.pos, g.caches.values(l))
      && forall y: Loc :: y == Pos || y == RopeCache || ((y.K? || y.V?) && y.layer != l) ==> m'(y) == m(y)
  {
    hide Run; hide Head; hide Body; hide KeyCache; hide ValueCache; hide Attended; hide FedForward; hide Added;
    hide Entering;
    HeadIs(eval, c, g, l, m);
    var m1 := Run(eval, Head(l, l == 0), m);
    OwnCache(eval, c, g, l, m);
    BodyIs(eval, c, l, m1);
    forall y: Loc | y == Pos || y == RopeCache || ((y.K? || y.V?) && y.layer != l)
      ensures Run(eval, Body(c, l), m1)(y) == m(y)
    {
      BodyKeeps(eval, c, l, m1, y);
    }
  }

  /** Before its own layer a cache is what the forward was given. */
  lemma OwnCache(eval: Eval, c: Config, g: Given, l: nat, m: Memory)
    requires Reached(eval, c, g, l, m)
    ensures m(K(l)) == g.caches.keys(l) && m(V(l)) == g.caches.values(l) && m(Pos) == g.pos && m(RopeCache) == g.rope
  {
    hide Entering; hide Leaving; hide KeyCache; hide ValueCache; hide One;
  }

  lemma CachesStep(eval: Eval, c: Config, g: Given, l: nat, i: nat)
    ensures var now, next := ModelCaches(eval, c, g, l), ModelCaches(eval, c, g, l + 1);
      && (i != l ==> next.keys(i) == now.keys(i) && next.values(i) == now.values(i))
      && next.keys(l) == KeyCache(eval, c, l, Entering(eval, c, g, l), g.pos, g.rope, g.caches.keys(l))
      && next.values(l) == ValueCache(eval, c, l, Entering(eval, c, g, l), g.pos, g.caches.values(l))
  {
    hide Entering; hide KeyCache; hide ValueCache;
  }

  lemma ReachedStep(eval: Eval, c: Config, g: Given, l: nat, m: Memory)
    requires Reached(eval, c, g, l, m)
    ensures Reached(eval, c, g, l + 1, LayerStep(eval, c, l, l == 0, m))
  {
    hide LayerStep; hide KeyCache; hide ValueCache; hide Entering; hide Leaving; hide ModelCaches; hide One;
    LayerEffect(eval, c, g, l, m);
    var m', next := LayerStep(eval, c, l, l == 0, m), ModelCaches(eval, c, g, l + 1);
    forall i: nat ensures m'(K(i)) == next.keys(i) && m'(V(i)) == next.values(i) {
      CachesStep(eval, c, g, l, i);
    }
  }

  lemma {:induction false} PrefixReaches(eval: Eval, c: Config, g: Given, l: nat, input: Memory)
    requires Holds(input, g)
    ensures Reached(eval, c, g, l, Prefix(eval, c, l, input))
    decreases l
  {
    hide Run; hide Reached; hide LayerStep; hide Exec; hide One;
    if l == 0 {
      PrefixNothing(eval, c, input);
      RunOne(eval, Op(Embedding, [Tok], [X]), input);
      Exec1(eval, Embedding, Tok, X, input);
      StartReaches(eval, c, g, input, Prefix(eval, c, 0, input));
    } else {
      PrefixReaches(eval, c, g, l - 1, input);
      LayersStep(eval, c, 0, l - 1, Run(eval, Start(0), input));
      ReachedStep(eval, c, g, l - 1, Prefix(eval, c, l - 1, input));
    }
  }

  lemma StartReaches(eval: Eval, c: Config, g: Given, input: Memory, m: Memory)
    requires Holds(input, g) && m(X) == One(eval, Embedding, [g.tok]) && forall x :: x != X ==> m(x) == input(x)
    ensures Reached(eval, c, g, 0, m)
  {
  }

  /** One forward of the undivided program computes the model: its logits and all its caches. */
  lemma WholeIsModel(eval: Eval, c: Config, n: nat, m: Memory, pos: Tensor, tok: Tensor)
    requires 0 < n
    ensures var g := Given(pos, tok, m(RopeCache), CachesOf(m));
      && Whole(eval, c, n, m, pos, tok)(Lg) == ModelLogits(eval, c, g, n)
      && Whole(eval, c, n, m, pos, tok)(RopeCache) == m(RopeCache)
      && SameCaches(CachesOf(Whole(eval, c, n, m, pos, tok)), ModelCaches(eval, c, g, n))
  {
    hide Run; hide StageProgram; hide End; hide Prefix; hide ModelCaches; hide Logits; hide Leaving;
    var input, g := RootInput(m, pos, tok), Given(pos, tok, m(RopeCache), CachesOf(m));
    var before := Prefix(eval, c, n, input);
    WholeRuns(eval, c, n, input);
    PrefixReaches(eval, c, g, n, input);
    EndIs(eval, c, before);
    forall x: Loc | x.K? || x.V? || x.RopeCache? ensures Run(eval, End(c), before)(x) == before(x) {
      EndKeepsCache(eval, c, before, x);
    }
  }

  function CachesOf(m: Memory): Caches { Caches((l: nat) => m(K(l)), (l: nat) => m(V(l))) }

  ghost predicate SameCaches(a: Caches, b: Caches)
  { forall l: nat :: a.keys(l) == b.keys(l) && a.values(l) == b.values(l) }

  // ---- Pipelines ------------------------------------------------------------------------------------------

  /** The caches of the model after a sequence of inputs. */
  function ModelRun(eval: Eval, c: Config, n: nat, rope: Tensor, caches: Caches, inputs: seq<Input>): Caches
  {
    if inputs == [] then caches
    else
      var last := inputs[|inputs| - 1];
      var before := ModelRun(eval, c, n, rope, caches, inputs[..|inputs| - 1]);
      ModelCaches(eval, c, Given(last.pos, last.tok, rope, before), n)
  }

  lemma {:induction false} SameCachesSameRows(eval: Eval, c: Config, g: Given, h: Given, l: nat)
    requires g.pos == h.pos && g.tok == h.tok && g.rope == h.rope && SameCaches(g.caches, h.caches)
    ensures Entering(eval, c, g, l) == Entering(eval, c, h, l) && Leaving(eval, c, g, l) == Leaving(eval, c, h, l)
    decreases l
  {
    hide Attended; hide FedForward; hide Added; hide One;
    if 0 < l { SameCachesSameRows(eval, c, g, h, l - 1); }
  }

  lemma SameCachesSameModel(eval: Eval, c: Config, g: Given, h: Given, n: nat)
    requires g.pos == h.pos && g.tok == h.tok && g.rope == h.rope && SameCaches(g.caches, h.caches)
    ensures ModelLogits(eval, c, g, n) == ModelLogits(eval, c, h, n)
    ensures SameCaches(ModelCaches(eval, c, g, n), ModelCaches(eval, c, h, n))
  {
    hide Entering; hide Logits; hide KeyCache; hide ValueCache;
    SameCachesSameRows(eval, c, g, h, n);
    forall l: nat ensures Entering(eval, c, g, l) == Entering(eval, c, h, l) { SameCachesSameRows(eval, c, g, h, l); }
  }

  /** The undivided program computes the model over any sequence of inputs. */
  lemma {:induction false} RunIsModel(eval: Eval, c: Config, n: nat, m: Memory, inputs: seq<Input>)
    requires 0 < n
    ensures WholeRun(eval, c, n, m, inputs)(RopeCache) == m(RopeCache)
    ensures SameCaches(CachesOf(WholeRun(eval, c, n, m, inputs)),
      ModelRun(eval, c, n, m(RopeCache), CachesOf(m), inputs))
    ensures inputs != [] ==>
      var last := inputs[|inputs| - 1];
      var before := ModelRun(eval, c, n, m(RopeCache), CachesOf(m), inputs[..|inputs| - 1]);
      WholeRun(eval, c, n, m, inputs)(Lg) == ModelLogits(eval, c, Given(last.pos, last.tok, m(RopeCache), before), n)
    decreases |inputs|
  {
    hide Whole; hide ModelLogits; hide ModelCaches; hide CachesOf;
    if inputs != [] {
      var last, before := inputs[|inputs| - 1], inputs[..|inputs| - 1];
      RunIsModel(eval, c, n, m, before);
      var w := WholeRun(eval, c, n, m, before);
      WholeIsModel(eval, c, n, w, last.pos, last.tok);
      SameCachesSameModel(eval, c, Given(last.pos, last.tok, m(RopeCache), CachesOf(w)),
        Given(last.pos, last.tok, m(RopeCache), ModelRun(eval, c, n, m(RopeCache), CachesOf(m), before)), n);
    }
  }

  /** For every partition into non-empty stages and every sequence of inputs, the stage programs compute the
      model: the logits of the last input, and every layer's caches on the stage that runs it. */
  lemma PipelineIsModel(eval: Eval, n: Pipeline, mems: seq<Memory>, whole: Memory, inputs: seq<Input>, j: nat, l: nat)
    requires CopyingCasts(eval) && n.Valid() && NonEmptyStages(n.offsets, n.pp) && Matches(n, mems, whole)
    requires j < n.pp && n.offsets[j] <= l < n.offsets[j + 1]
    ensures var after := ModelRun(eval, n.c, n.nLayers, whole(RopeCache), CachesOf(whole), inputs);
      var m := PipelineRun(eval, n, mems, inputs)[j];
      m(K(l)) == after.keys(l) && m(V(l)) == after.values(l)
    ensures inputs != [] ==>
      var last := inputs[|inputs| - 1];
      var before := ModelRun(eval, n.c, n.nLayers, whole(RopeCache), CachesOf(whole), inputs[..|inputs| - 1]);
      PipelineRun(eval, n, mems, inputs)[n.pp - 1](Lg)
        == ModelLogits(eval, n.c, Given(last.pos, last.tok, whole(RopeCache), before), n.nLayers)
  {
    hide ModelLogits; hide ModelRun; hide PipelineRun; hide WholeRun; hide CopyingCasts;
    Within(n, j);
    PipelineRefinesWhole(eval, n, mems, whole, inputs);
    RunIsModel(eval, n.c, n.nLayers, whole, inputs);
    assert StageMatches(n, PipelineRun(eval, n, mems, inputs)[j], WholeRun(eval, n.c, n.nLayers, whole, inputs), j);
  }
}
