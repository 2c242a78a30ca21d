/** The emitted feed-forward program of a layer, under the mathematics of dense matrices, is the block that
    tensor parallelism splits (src/llm.cpp). */
module DenseBlock {
  import opened LayerPrograms
  import opened StageSemantics
  import L = LayerMeaning
  import T = TensorParallel

  /** Rows times a matrix. */
  function MatVec(m: T.Matrix, rows: nat, v: Tensor): (r: Tensor)
    ensures |r| == rows
  {
    seq(rows, i requires 0 <= i < rows => T.Dot(m, i, v, |v|))
  }

  function Mapped(f: real -> real, v: Tensor): (r: Tensor)
    ensures |r| == |v|
  {
    seq(|v|, i requires 0 <= i < |v| => f(v[i]))
  }

  function Elementwise(u: Tensor, v: Tensor): (r: Tensor)
    requires |u| == |v|
    ensures |r| == |u|
  {
    seq(|u|, i requires 0 <= i < |u| => u[i] * v[i])
  }

  /** The mathematics of layer `l` with dense weights: `n` hidden elements, `dim` results; formats lose nothing. */
  ghost predicate DenseMaths(eval: Eval, l: nat, b: T.Block, n: nat, dim: nat)
  {
    && (forall v :: eval(Matmul(Weight("block_matmul_w1", l)), [v]) == [MatVec(b.w1, n, v)])
    && (forall v :: eval(Matmul(Weight("block_matmul_w3", l)), [v]) == [MatVec(b.w3, n, v)])
    && (forall v :: eval(Matmul(Weight("block_matmul_w2", l)), [v]) == [MatVec(b.w2, dim, v)])
    && (forall v :: eval(Silu, [v]) == [Mapped(b.act, v)])
    && (forall u: Tensor, v: Tensor :: |u| == |v| ==> eval(Mul, [u, v]) == [Elementwise(u, v)])
    && (forall f, t, v :: eval(Cast(f, t), [v]) == [v])
  }

  lemma Products(eval: Eval, l: nat, b: T.Block, n: nat, dim: nat, v: Tensor)
    requires DenseMaths(eval, l, b, n, dim)
    ensures L.Product(eval, "block_matmul_w1", l, [v]) == MatVec(b.w1, n, v)
    ensures L.Product(eval, "block_matmul_w3", l, [v]) == MatVec(b.w3, n, v)
    ensures L.Product(eval, "block_matmul_w2", l, [v]) == MatVec(b.w2, dim, v)
  {
    hide MatVec; hide Mapped; hide Elementwise;
  }

  lemma Activated(eval: Eval, l: nat, b: T.Block, n: nat, dim: nat, v: Tensor)
    requires DenseMaths(eval, l, b, n, dim)
    ensures L.One(eval, Silu, [v]) == Mapped(b.act, v)
  {
    hide MatVec; hide Mapped; hide Elementwise;
  }

  lemma Multiplied(eval: Eval, l: nat, b: T.Block, n: nat, dim: nat, u: Tensor, v: Tensor)
    requires DenseMaths(eval, l, b, n, dim) && |u| == |v|
    ensures L.One(eval, Mul, [u, v]) == Elementwise(u, v)
  {
    hide MatVec; hide Mapped; hide Elementwise;
  }

  lemma NotNarrowed(eval: Eval, c: Config, l: nat, b: T.Block, n: nat, dim: nat, v: Tensor)
    requires DenseMaths(eval, l, b, n, dim)
    ensures L.Narrow(eval, c, v) == v
  {
    hide MatVec; hide Mapped; hide Elementwise;
  }

  /** w2(act(w1 y) * w3 y), element by element. */
  lemma DensePartIs(eval: Eval, c: Config, l: nat, b: T.Block, n: nat, dim: nat, y: Tensor)
    requires DenseMaths(eval, l, b, n, dim)
    ensures L.DensePart(eval, c, l, y) == seq(dim, r requires 0 <= r < dim => T.Forward(b, y, n, r))
  {
    hide DenseMaths; hide L.Product; hide L.One; hide L.Narrow; hide T.Dot;
    var g, u := MatVec(b.w1, n, y), MatVec(b.w3, n, y);
    var h := Elementwise(Mapped(b.act, g), u);
    NotNarrowed(eval, c, l, b, n, dim, y);
    Products(eval, l, b, n, dim, y);
    Activated(eval, l, b, n, dim, g);
    Multiplied(eval, l, b, n, dim, Mapped(b.act, g), u);
    NotNarrowed(eval, c, l, b, n, dim, h);
    Products(eval, l, b, n, dim, h);
    HiddenIs(b, y, n);
  }

  lemma HiddenIs(b: T.Block, y: Tensor, n: nat)
    ensures Elementwise(Mapped(b.act, MatVec(b.w1, n, y)), MatVec(b.w3, n, y)) == T.HiddenRow(b, y, n)
  {
    hide T.Dot;
    var h := Elementwise(Mapped(b.act, MatVec(b.w1, n, y)), MatVec(b.w3, n, y));
    forall i | 0 <= i < n ensures h[i] == T.HiddenRow(b, y, n)[i] {
      assert T.Hidden(b, y, i) == b.act(T.Dot(b.w1, i, y, |y|)) * T.Dot(b.w3, i, y, |y|);
    }
  }

  /** The emitted program, from the normed row on. */
  lemma ProgramIsBlock(eval: Eval, c: Config, l: nat, b: T.Block, n: nat, dim: nat, m: Memory)
    requires DenseMaths(eval, l, b, n, dim) && !c.arch.Qwen3Moe?
    ensures Run(eval, Dense(c, l) + DenseOut(c, l), m)(BY) ==
      seq(dim, r requires 0 <= r < dim => T.Forward(b, m(BY), n, r))
  {
    hide Run; hide DenseMaths; hide Dense; hide DenseOut;
    L.MiddleIs(eval, c, l, m);
    DensePartIs(eval, c, l, b, n, dim, m(BY));
  }
}
