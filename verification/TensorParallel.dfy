/** Tensor parallelism of the feed-forward block: the byte copies that cut the weights
    (src/nn/nn-core.cpp), the per-rank block (src/llm.cpp) and the all-reduce after it. */
module TensorParallel {
  import opened Common
  import opened RingBytes
  import opened RingSchedule
  import opened RingProtocol
  import C = Collectives

  type Byte = b: int | 0 <= b < 256

  /** A weight format: blocks of `blockSize` elements in `blockBytes` bytes each. */
  datatype Format = Format(blockSize: nat, blockBytes: nat, dec: seq<Byte> -> seq<real>)
  {
    ghost predicate Valid()
    {
      0 < blockSize && 0 < blockBytes && forall b :: |b| == blockBytes ==> |dec(b)| == blockSize
    }
  }

  // ---- Reading a matrix out of its bytes -----------------------------------------------------------

  function Offset(f: Format, blocks: nat, r: nat, j: nat): nat { (r * blocks + j) * f.blockBytes }

  lemma OffsetFits(f: Format, rows: nat, blocks: nat, r: nat, j: nat)
    requires r < rows && j < blocks
    ensures Offset(f, blocks, r, j) + f.blockBytes <= Size(f, rows, blocks)
  {
    MulMonotone(r + 1, rows, blocks);
    assert (r + 1) * blocks == r * blocks + blocks;
    MulMonotone(r * blocks + j + 1, rows * blocks, f.blockBytes);
    assert (r * blocks + j + 1) * f.blockBytes == (r * blocks + j) * f.blockBytes + f.blockBytes;
  }

  function Size(f: Format, rows: nat, blocks: nat): nat { rows * blocks * f.blockBytes }

  /** The bytes of block `j` of row `r`. */
  function BlockAt(f: Format, w: seq<Byte>, rows: nat, blocks: nat, r: nat, j: nat): (b: seq<Byte>)
    requires r < rows && j < blocks && |w| == Size(f, rows, blocks)
    ensures |b| == f.blockBytes
  {
    OffsetFits(f, rows, blocks, r, j);
    w[Offset(f, blocks, r, j)..Offset(f, blocks, r, j) + f.blockBytes]
  }

  /** Element (r, c) of a matrix with `blocks` blocks per row. */
  function Elem(f: Format, w: seq<Byte>, rows: nat, blocks: nat, r: nat, c: nat): real
    requires f.Valid() && r < rows && c < blocks * f.blockSize && |w| == Size(f, rows, blocks)
  {
    InBlock(f, blocks, c);
    f.dec(BlockAt(f, w, rows, blocks, r, c / f.blockSize))[c % f.blockSize]
  }

  lemma InBlock(f: Format, blocks: nat, c: nat)
    requires 0 < f.blockSize && c < blocks * f.blockSize
    ensures c / f.blockSize < blocks && c % f.blockSize < f.blockSize
  {
    var q := c / f.blockSize;
    assert q * f.blockSize <= c;
    MulMonotone(blocks, q, f.blockSize);
  }

  // ---- Splitting ---------------------------------------------------------------------------------

  method Memcpy(dst: array<Byte>, at: nat, src: array<Byte>, from: nat, n: nat)
    requires dst != src && at + n <= dst.Length && from + n <= src.Length
    modifies dst
    ensures forall k :: 0 <= k < dst.Length ==> dst[k] == if at <= k < at + n then src[from + k - at] else old(dst[k])
  {
    forall k | 0 <= k < n { dst[at + k] := src[from + k]; }
    forall k | at <= k < at + n
      ensures dst[k] == src[from + k - at]
    {
      var i := k - at;
      assert dst[at + i] == src[from + i];
    }
  }

  /** Where the rows of rank `node` start. */
  function RowsFrom(f: Format, d0: nat, blocks: nat, node: nat): nat { d0 * node * blocks * f.blockBytes }

  /** The rows of rank `node`, as bytes. */
  predicate RowSlice(f: Format, w: seq<Byte>, w0: seq<Byte>, d0: nat, blocks: nat, node: nat)
  {
    && |w0| == Size(f, d0, blocks)
    && RowsFrom(f, d0, blocks, node) + |w0| <= |w|
    && w0 == w[RowsFrom(f, d0, blocks, node)..RowsFrom(f, d0, blocks, node) + |w0|]
  }

  /** `splitRowMatmulWeight`: rank `node` gets `d0` whole rows. */
  method SplitRow(f: Format, d0: nat, blocks: nat, node: nat, weight: array<Byte>, weight0: array<Byte>)
    returns (copied: nat)
    requires weight != weight0 && weight0.Length == Size(f, d0, blocks)
    requires RowsFrom(f, d0, blocks, node) + Size(f, d0, blocks) <= weight.Length
    modifies weight0
    ensures copied == Size(f, d0, blocks) && RowSlice(f, weight[..], weight0[..], d0, blocks, node)
  {
    hide Size; hide Offset; hide RowsFrom;
    var offset := RowsFrom(f, d0, blocks, node);
    copied := 0;
    Rows(f, blocks, 0);
    for d := 0 to d0
      invariant copied == Offset(f, blocks, d, 0) <= weight0.Length
      invariant forall k :: 0 <= k < copied ==> weight0[k] == weight[offset + k]
    {
      for j := 0 to blocks
        invariant copied == Offset(f, blocks, d, j) <= weight0.Length
        invariant forall k :: 0 <= k < copied ==> weight0[k] == weight[offset + k]
      {
        OffsetFits(f, d0, blocks, d, j);
        NextBlock(f, blocks, d, j);
        Memcpy(weight0, copied, weight, offset + copied, f.blockBytes);
        copied := copied + f.blockBytes;
      }
      Rows(f, blocks, d);
    }
    Rows(f, blocks, d0);
  }

  lemma NextBlock(f: Format, blocks: nat, r: nat, j: nat)
    ensures Offset(f, blocks, r, j + 1) == Offset(f, blocks, r, j) + f.blockBytes
  {
    assert (r * blocks + j + 1) * f.blockBytes == (r * blocks + j) * f.blockBytes + f.blockBytes;
  }

  lemma Rows(f: Format, blocks: nat, r: nat)
    ensures Offset(f, blocks, r, blocks) == Offset(f, blocks, r + 1, 0)
    ensures Offset(f, blocks, r, 0) == Size(f, r, blocks)
    ensures Offset(f, blocks, 0, 0) == 0
  {
    assert (r + 1) * blocks == r * blocks + blocks;
  }

  function At(rowBytes: nat, row: nat): nat { rowBytes * row }

  /** Row after row, `row0Bytes` bytes from `rowOffset` on. */
  predicate Copied(w0: seq<Byte>, w: seq<Byte>, rowBytes: nat, row0Bytes: nat, rowOffset: nat, e: nat, k: nat)
  {
    && At(row0Bytes, e) + k < |w0| && At(rowBytes, e) + rowOffset + k < |w|
    && w0[At(row0Bytes, e) + k] == w[At(rowBytes, e) + rowOffset + k]
  }

  predicate RowsCopied(w0: seq<Byte>, w: seq<Byte>, d: nat, rowBytes: nat, row0Bytes: nat, rowOffset: nat)
  {
    forall e: nat, k: nat :: e < d && k < row0Bytes ==> Copied(w0, w, rowBytes, row0Bytes, rowOffset, e, k)
  }

  /** The blocks of rank `node` in every row, as bytes. */
  predicate ColSlice(f: Format, w: seq<Byte>, w0: seq<Byte>, d: nat, blocks: nat, blocks0: nat, node: nat)
  {
    RowsCopied(w0, w, d, blocks * f.blockBytes, blocks0 * f.blockBytes, node * (blocks0 * f.blockBytes))
  }

  /** `splitColMatmulWeight`: rank `node` gets `blocks0` blocks of every row. */
  method SplitCol(f: Format, d: nat, blocks: nat, blocks0: nat, node: nat, weight: array<Byte>, weight0: array<Byte>)
    returns (copied: nat)
    requires weight != weight0 && weight0.Length == At(blocks0 * f.blockBytes, d)
      && weight.Length == At(blocks * f.blockBytes, d)
    requires node * blocks0 + blocks0 <= blocks
    modifies weight0
    ensures copied == weight0.Length
    ensures ColSlice(f, weight[..], weight0[..], d, blocks, blocks0, node)
  {
    var rowBytes, row0Bytes := blocks * f.blockBytes, blocks0 * f.blockBytes;
    var rowOffset := node * row0Bytes;
    copied := CopyRows(d, rowBytes, row0Bytes, rowOffset, weight, weight0);
  }

  method CopyRows(d: nat, rowBytes: nat, row0Bytes: nat, rowOffset: nat, weight: array<Byte>, weight0: array<Byte>)
    returns (copied: nat)
    requires weight != weight0 && weight0.Length == At(row0Bytes, d) && weight.Length == At(rowBytes, d)
      && rowOffset + row0Bytes <= rowBytes
    modifies weight0
    ensures copied == weight0.Length
    ensures RowsCopied(weight0[..], weight[..], d, rowBytes, row0Bytes, rowOffset)
  {
    hide At; hide Copied;
    copied := 0;
    FirstRow(row0Bytes);
    for r := 0 to d
      invariant copied == At(row0Bytes, r)
      invariant RowsCopied(weight0[..], weight[..], r, rowBytes, row0Bytes, rowOffset)
    {
      RowEnds(row0Bytes, r, d);
      RowEnds(rowBytes, r, d);
      ghost var before := weight0[..];
      Memcpy(weight0, At(row0Bytes, r), weight, At(rowBytes, r) + rowOffset, row0Bytes);
      RowCopied(weight[..], before, weight0[..], d, rowBytes, row0Bytes, rowOffset, r);
      copied := copied + row0Bytes;
    }
  }

  lemma FirstRow(b: nat)
    ensures At(b, 0) == 0
  {
  }

  lemma RowEnds(b: nat, r: nat, d: nat)
    requires r < d
    ensures At(b, r) + b <= At(b, d) && At(b, r + 1) == At(b, r) + b
  {
    MulMonotone(r + 1, d, b);
  }

  lemma RowCopied(
      w: seq<Byte>, before: seq<Byte>, w0: seq<Byte>, d: nat, rowBytes: nat, row0Bytes: nat, rowOffset: nat, r: nat)
    requires r < d && |w| == At(rowBytes, d) && |before| == |w0| == At(row0Bytes, d)
      && rowOffset + row0Bytes <= rowBytes
    requires RowsCopied(before, w, r, rowBytes, row0Bytes, rowOffset)
    requires At(rowBytes, r) + rowOffset + row0Bytes <= |w|
    requires forall k :: 0 <= k < |w0| ==>
      w0[k] == if At(row0Bytes, r) <= k < At(row0Bytes, r) + row0Bytes
        then w[At(rowBytes, r) + rowOffset + k - At(row0Bytes, r)] else before[k]
    ensures RowsCopied(w0, w, r + 1, rowBytes, row0Bytes, rowOffset)
  {
    hide At;
    RowEnds(row0Bytes, r, d);
    RowEnds(rowBytes, r, d);
    forall e: nat, k: nat | e < r + 1 && k < row0Bytes
      ensures Copied(w0, w, rowBytes, row0Bytes, rowOffset, e, k)
    {
      if e < r {
        assert Copied(before, w, rowBytes, row0Bytes, rowOffset, e, k);
        RowEnds(row0Bytes, e, r);
      }
    }
  }

  // ---- What the slices hold --------------------------------------------------------------------------

  /** The slice of a row split is the rank's rows of the matrix. */
  lemma RowSliceElem(
      f: Format, w: seq<Byte>, w0: seq<Byte>, nodes: nat, d0: nat, blocks: nat, node: nat, r: nat, c: nat)
    requires f.Valid() && node < nodes && r < d0 && c < blocks * f.blockSize
    requires |w| == Size(f, nodes * d0, blocks) && RowSlice(f, w, w0, d0, blocks, node)
    ensures node * d0 + r < nodes * d0
    ensures Elem(f, w0, d0, blocks, r, c) == Elem(f, w, nodes * d0, blocks, node * d0 + r, c)
  {
    hide RowsFrom; hide Offset; hide Size;
    RowOf(nodes, d0, node, r);
    InBlock(f, blocks, c);
    RowSliceBlock(f, w, w0, nodes * d0, d0, blocks, node, node * d0 + r, r, c / f.blockSize);
  }

  lemma RowSliceBlock(
      f: Format, w: seq<Byte>, w0: seq<Byte>, d: nat, d0: nat, blocks: nat, node: nat, row: nat, r: nat, j: nat)
    requires row == node * d0 + r < d && r < d0 && j < blocks && |w| == Size(f, d, blocks)
      && RowSlice(f, w, w0, d0, blocks, node)
    ensures BlockAt(f, w0, d0, blocks, r, j) == BlockAt(f, w, d, blocks, row, j)
  {
    hide RowsFrom; hide Offset; hide Size;
    OffsetFits(f, d0, blocks, r, j);
    OffsetFits(f, d, blocks, row, j);
    RowShift(f, d0, blocks, node, row, r, j);
  }

  lemma RowOf(nodes: nat, d0: nat, node: nat, r: nat)
    requires node < nodes && r < d0
    ensures node * d0 + r < nodes * d0
  {
    MulMonotone(node + 1, nodes, d0);
  }

  lemma RowShift(f: Format, d0: nat, blocks: nat, node: nat, row: nat, r: nat, j: nat)
    requires row == node * d0 + r
    ensures Offset(f, blocks, row, j) == RowsFrom(f, d0, blocks, node) + Offset(f, blocks, r, j)
  {
  }

  /** The slice of a column split is the rank's columns of the matrix. */
  lemma ColSliceElem(
      f: Format, w: seq<Byte>, w0: seq<Byte>, d: nat, nodes: nat, blocks0: nat, node: nat, r: nat, c: nat)
    requires f.Valid() && node < nodes && r < d && c < blocks0 * f.blockSize
    requires |w| == Size(f, d, nodes * blocks0) && |w0| == Size(f, d, blocks0)
    requires ColSlice(f, w, w0, d, nodes * blocks0, blocks0, node)
    ensures node * (blocks0 * f.blockSize) + c < nodes * blocks0 * f.blockSize
    ensures Elem(f, w0, d, blocks0, r, c) == Elem(f, w, d, nodes * blocks0, r, node * (blocks0 * f.blockSize) + c)
  {
    InBlock(f, blocks0, c);
    var j := c / f.blockSize;
    RowOf(nodes, blocks0, node, j);
    ColumnOf(nodes, blocks0, node, f.blockSize, c);
    OffsetFits(f, d, blocks0, r, j);
    OffsetFits(f, d, nodes * blocks0, r, node * blocks0 + j);
    var b0, b := BlockAt(f, w0, d, blocks0, r, j), BlockAt(f, w, d, nodes * blocks0, r, node * blocks0 + j);
    forall k | 0 <= k < f.blockBytes ensures b0[k] == b[k] {
      ColShift(f, blocks0, nodes * blocks0, node, r, j, k);
      assert Copied(w0, w, nodes * blocks0 * f.blockBytes, blocks0 * f.blockBytes, node * (blocks0 * f.blockBytes), r,
        j * f.blockBytes + k);
    }
    assert b0 == b;
  }

  lemma ColumnOf(nodes: nat, blocks0: nat, node: nat, bs: nat, c: nat)
    requires 0 < bs && node < nodes && c < blocks0 * bs
    ensures node * (blocks0 * bs) + c < nodes * blocks0 * bs
    ensures (node * (blocks0 * bs) + c) / bs == node * blocks0 + c / bs
    ensures (node * (blocks0 * bs) + c) % bs == c % bs
  {
    RowOf(nodes, blocks0 * bs, node, c);
    Regroup(nodes, blocks0, bs);
    Regroup(node, blocks0, bs);
    WholeBlocks(node * blocks0, c, bs);
  }

  lemma Regroup(a: nat, b: nat, c: nat)
    ensures a * (b * c) == a * b * c
  {
  }

  lemma WholeBlocks(a: nat, c: nat, bs: nat)
    requires 0 < bs
    ensures (a * bs + c) / bs == a + c / bs && (a * bs + c) % bs == c % bs
  {
    var q := c / bs;
    assert a * bs + c == (a + q) * bs + c % bs by { assert (a + q) * bs == a * bs + q * bs; }
    QuotRem(a * bs + c, a + q, c % bs, bs);
  }

  lemma ColShift(f: Format, blocks0: nat, blocks: nat, node: nat, r: nat, j: nat, k: nat)
    requires j < blocks0 && k < f.blockBytes
    ensures j * f.blockBytes + k < blocks0 * f.blockBytes
    ensures Offset(f, blocks0, r, j) + k == blocks0 * f.blockBytes * r + (j * f.blockBytes + k)
    ensures Offset(f, blocks, r, node * blocks0 + j) + k ==
      blocks * f.blockBytes * r + node * (blocks0 * f.blockBytes) + (j * f.blockBytes + k)
  {
    MulMonotone(j + 1, blocks0, f.blockBytes);
    assert (node * blocks0 + j) * f.blockBytes == node * blocks0 * f.blockBytes + j * f.blockBytes;
    assert node * blocks0 * f.blockBytes == node * (blocks0 * f.blockBytes);
  }

  // ---- The block ----------------------------------------------------------------------------------------

  /** A matrix as a function of row and column. */
  type Matrix = (nat, nat) -> real

  function Dot(m: Matrix, r: nat, x: seq<real>, n: nat): real
    requires n <= |x|
  {
    if n == 0 then 0.0 else Dot(m, r, x, n - 1) + m(r, n - 1) * x[n - 1]
  }

  /** The feed-forward block after its norm: w1, w3, activation, product, w2. */
  datatype Block = Block(w1: Matrix, w3: Matrix, w2: Matrix, act: real -> real)

  function Hidden(b: Block, x: seq<real>, i: nat): real { b.act(Dot(b.w1, i, x, |x|)) * Dot(b.w3, i, x, |x|) }

  function HiddenRow(b: Block, x: seq<real>, n: nat): (h: seq<real>)
    ensures |h| == n
  {
    seq(n, i requires 0 <= i => Hidden(b, x, i))
  }

  /** Element `r` of the block's result with `n` hidden elements. */
  function Forward(b: Block, x: seq<real>, n: nat, r: nat): real { Dot(b.w2, r, HiddenRow(b, x, n), n) }

  /** What rank `t` computes with: its rows of w1 and w3, its columns of w2. */
  function Slice(b: Block, n0: nat, t: nat): Block
  {
    Block((r: nat, c: nat) => b.w1(t * n0 + r, c), (r: nat, c: nat) => b.w3(t * n0 + r, c),
      (r: nat, c: nat) => b.w2(r, t * n0 + c), b.act)
  }

  lemma {:induction false} DotAgrees(m: Matrix, m': Matrix, r: nat, r': nat, x: seq<real>, n: nat)
    requires n <= |x| && forall c: nat :: c < n ==> m(r, c) == m'(r', c)
    ensures Dot(m, r, x, n) == Dot(m', r', x, n)
  {
    if n > 0 { DotAgrees(m, m', r, r', x, n - 1); }
  }

  /** A rank's hidden elements are the block's from `t * n0` on. */
  lemma SliceHidden(b: Block, x: seq<real>, n0: nat, t: nat, i: nat)
    ensures Hidden(Slice(b, n0, t), x, i) == Hidden(b, x, t * n0 + i)
  {
    DotAgrees(Slice(b, n0, t).w1, b.w1, i, t * n0 + i, x, |x|);
    DotAgrees(Slice(b, n0, t).w3, b.w3, i, t * n0 + i, x, |x|);
  }

  /** The part of a dot product between `from` and `from + n`. */
  lemma {:induction false} PartialDot(m: Matrix, m': Matrix, r: nat, h: seq<real>, h': seq<real>, from: nat, n: nat)
    requires from + n <= |h| && n <= |h'|
    requires forall c: nat :: c < n ==> m'(r, c) == m(r, from + c) && h'[c] == h[from + c]
    ensures Dot(m', r, h', n) == Dot(m, r, h, from + n) - Dot(m, r, h, from)
    decreases n
  {
    if n > 0 { PartialDot(m, m', r, h, h', from, n - 1); }
  }

  /** What rank `t` adds: the terms of its hidden elements. */
  lemma {:induction false} RankPart(b: Block, x: seq<real>, n0: nat, nodes: nat, t: nat, r: nat)
    requires t < nodes
    ensures t * n0 + n0 <= nodes * n0
    ensures var h := HiddenRow(b, x, nodes * n0);
      Forward(Slice(b, n0, t), x, n0, r) == Dot(b.w2, r, h, t * n0 + n0) - Dot(b.w2, r, h, t * n0)
  {
    hide Dot; hide Hidden;
    ChunkInside(t, nodes, n0);
    var at, s := t * n0, Slice(b, n0, t);
    var h, h0 := HiddenRow(b, x, nodes * n0), HiddenRow(s, x, n0);
    forall c: nat | c < n0 ensures s.w2(r, c) == b.w2(r, at + c) && h0[c] == h[at + c] { SliceHidden(b, x, n0, t, c); }
    PartialDot(b.w2, s.w2, r, h, h0, at, n0);
  }

  /** The ranks' results, as the buffers the all-reduce starts from. */
  predicate RankResults(b: Block, x: seq<real>, n0: nat, nodes: nat, dim: nat, ys: seq<seq<real>>)
  {
    C.Buffers(nodes, dim, ys) && forall t: nat, r: nat :: t < nodes && r < dim ==>
      ys[t][r] == Forward(Slice(b, n0, t), x, n0, r)
  }

  lemma NoTerms(m: Matrix, r: nat, h: seq<real>)
    ensures Dot(m, r, h, 0) == 0.0
  {
  }

  lemma {:induction false} SumOfParts(
      b: Block, x: seq<real>, n0: nat, nodes: nat, dim: nat, ys: seq<seq<real>>, r: nat, t: nat)
    requires RankResults(b, x, n0, nodes, dim, ys) && r < dim && t <= nodes
    ensures t * n0 <= nodes * n0
    ensures RangeSum(ys, r, 0, t) == Dot(b.w2, r, HiddenRow(b, x, nodes * n0), t * n0)
    decreases t
  {
    hide Forward; hide HiddenRow; hide Dot;
    MulMonotone(t, nodes, n0);
    if t == 0 {
      NoTerms(b.w2, r, HiddenRow(b, x, nodes * n0));
    } else {
      SumOfParts(b, x, n0, nodes, dim, ys, r, t - 1);
      RankPart(b, x, n0, nodes, t - 1, r);
    }
  }

  /** The sum of the ranks' results is the result of the unsplit block, for every number of ranks. */
  lemma PartsSumToWhole(b: Block, x: seq<real>, n0: nat, nodes: nat, dim: nat, ys: seq<seq<real>>, r: nat)
    requires RankResults(b, x, n0, nodes, dim, ys) && r < dim
    ensures Sum(ys, r) == Forward(b, x, nodes * n0, r)
  {
    SumOfParts(b, x, n0, nodes, dim, ys, r, nodes);
  }

  /** After the all-reduce every rank holds the unsplit block's result, unless the sync takes the ring. */
  lemma SyncedBlock(
      b: Block, x: seq<real>, n0: nat, nodes: nat, dim: nat, ys: seq<seq<real>>, c: C.Collective, w: FloatWire,
      t: nat, r: nat)
    requires 0 < nodes && !C.TakesRing(c, nodes, 4 * dim, false)
    requires RankResults(b, x, n0, nodes, dim, ys) && t < nodes && r < dim
    ensures C.Synced(c, false, w, dim, ys, t, r) == Forward(b, x, nodes * n0, r)
  {
    hide C.Synced; hide C.TakesRing; hide Forward; hide Sum;
    C.MeetsExactly(c, false, w, dim, ys);
    PartsSumToWhole(b, x, n0, nodes, dim, ys, r);
  }

  // ---- From the bytes ------------------------------------------------------------------------------------

  /** The matrix a byte buffer stands for; outside it, zero. */
  function MatrixOf(f: Format, w: seq<Byte>, rows: nat, blocks: nat): Matrix
    requires f.Valid() && |w| == Size(f, rows, blocks)
  {
    (r: nat, c: nat) => if r < rows && c < blocks * f.blockSize then Elem(f, w, rows, blocks, r, c) else 0.0
  }

  /** The bytes of w1, w3 and w2: `h` rows of `inBlocks` blocks twice, `dim` rows of `hBlocks` blocks. */
  datatype Weights = Weights(w1: seq<Byte>, w3: seq<Byte>, w2: seq<Byte>)

  predicate Sized(f: Format, w: Weights, h: nat, inBlocks: nat, dim: nat, hBlocks: nat)
  {
    |w.w1| == Size(f, h, inBlocks) && |w.w3| == Size(f, h, inBlocks) && |w.w2| == Size(f, dim, hBlocks)
      && h == hBlocks * f.blockSize
  }

  function BlockOf(f: Format, w: Weights, act: real -> real, h: nat, inBlocks: nat, dim: nat, hBlocks: nat): Block
    requires f.Valid() && Sized(f, w, h, inBlocks, dim, hBlocks)
  {
    Block(MatrixOf(f, w.w1, h, inBlocks), MatrixOf(f, w.w3, h, inBlocks), MatrixOf(f, w.w2, dim, hBlocks), act)
  }

  /** What the two copy methods leave on rank `t`. */
  predicate SplitWeights(
      f: Format, w: Weights, w0: Weights, n0: nat, inBlocks: nat, dim: nat, nodes: nat, hBlocks0: nat, t: nat)
  {
    && RowSlice(f, w.w1, w0.w1, n0, inBlocks, t) && RowSlice(f, w.w3, w0.w3, n0, inBlocks, t)
    && ColSlice(f, w.w2, w0.w2, dim, nodes * hBlocks0, hBlocks0, t)
  }

  /** Two blocks alike on the elements a rank uses compute the same. */
  lemma ForwardAgrees(b: Block, b': Block, x: seq<real>, n: nat, r: nat)
    requires b.act == b'.act
    requires forall i: nat, c: nat :: i < n && c < |x| ==> b.w1(i, c) == b'.w1(i, c) && b.w3(i, c) == b'.w3(i, c)
    requires forall c: nat :: c < n ==> b.w2(r, c) == b'.w2(r, c)
    ensures Forward(b, x, n, r) == Forward(b', x, n, r)
  {
    forall i: nat | i < n ensures Hidden(b, x, i) == Hidden(b', x, i) {
      DotAgrees(b.w1, b'.w1, i, i, x, |x|);
      DotAgrees(b.w3, b'.w3, i, i, x, |x|);
    }
    assert HiddenRow(b, x, n) == HiddenRow(b', x, n);
    DotAgrees(b.w2, b'.w2, r, r, HiddenRow(b, x, n), n);
  }

  /** A rank that reads its copied bytes computes with its rows and columns of the full matrices. */
  lemma RankReadsSlice(
      f: Format, w: Weights, w0: Weights, act: real -> real, nodes: nat, hBlocks0: nat, inBlocks: nat, dim: nat,
      t: nat, x: seq<real>, r: nat)
    requires f.Valid() && t < nodes && r < dim && |x| == inBlocks * f.blockSize
    requires Sized(f, w, nodes * hBlocks0 * f.blockSize, inBlocks, dim, nodes * hBlocks0)
    requires Sized(f, w0, hBlocks0 * f.blockSize, inBlocks, dim, hBlocks0)
    requires SplitWeights(f, w, w0, hBlocks0 * f.blockSize, inBlocks, dim, nodes, hBlocks0, t)
    ensures var n0 := hBlocks0 * f.blockSize;
      Forward(BlockOf(f, w0, act, n0, inBlocks, dim, hBlocks0), x, n0, r)
      == Forward(Slice(BlockOf(f, w, act, nodes * hBlocks0 * f.blockSize, inBlocks, dim, nodes * hBlocks0), n0, t), x,
        n0, r)
  {
    hide Elem; hide Size; hide RowSlice; hide ColSlice; hide Forward;
    var n0 := hBlocks0 * f.blockSize;
    assert nodes * n0 == nodes * hBlocks0 * f.blockSize;
    var mine, whole := BlockOf(f, w0, act, n0, inBlocks, dim, hBlocks0),
      BlockOf(f, w, act, nodes * hBlocks0 * f.blockSize, inBlocks, dim, nodes * hBlocks0);
    forall i: nat, c: nat | i < n0 && c < |x|
      ensures mine.w1(i, c) == whole.w1(t * n0 + i, c) && mine.w3(i, c) == whole.w3(t * n0 + i, c)
    {
      RowSliceElem(f, w.w1, w0.w1, nodes, n0, inBlocks, t, i, c);
      RowSliceElem(f, w.w3, w0.w3, nodes, n0, inBlocks, t, i, c);
    }
    forall c: nat | c < n0 ensures mine.w2(r, c) == whole.w2(r, t * n0 + c) {
      ColSliceElem(f, w.w2, w0.w2, dim, nodes, hBlocks0, t, r, c);
    }
    ForwardAgrees(mine, Slice(whole, n0, t), x, n0, r);
  }

  /** From the bytes: ranks that compute with their copied slices and add their results up compute the
      unsplit block, for every number of ranks that divides the hidden size in whole blocks. */
  lemma SplitBlockIsWhole(
      f: Format, w: Weights, slices: seq<Weights>, act: real -> real, nodes: nat, hBlocks0: nat, inBlocks: nat,
      dim: nat, x: seq<real>, ys: seq<seq<real>>, r: nat)
    requires f.Valid() && 0 < nodes && |slices| == nodes && r < dim && |x| == inBlocks * f.blockSize
      && C.Buffers(nodes, dim, ys)
    requires Sized(f, w, nodes * hBlocks0 * f.blockSize, inBlocks, dim, nodes * hBlocks0)
    requires forall t :: 0 <= t < nodes ==> Sized(f, slices[t], hBlocks0 * f.blockSize, inBlocks, dim, hBlocks0)
    requires forall t :: 0 <= t < nodes ==>
      SplitWeights(f, w, slices[t], hBlocks0 * f.blockSize, inBlocks, dim, nodes, hBlocks0, t)
    requires forall t, s: nat :: 0 <= t < nodes && s < dim ==>
      ys[t][s] == Forward(BlockOf(f, slices[t], act, hBlocks0 * f.blockSize, inBlocks, dim, hBlocks0), x,
        hBlocks0 * f.blockSize, s)
    ensures Sum(ys, r) == Forward(BlockOf(f, w, act, nodes * hBlocks0 * f.blockSize, inBlocks, dim, nodes * hBlocks0),
      x, nodes * hBlocks0 * f.blockSize, r)
  {
    hide Forward; hide BlockOf; hide SplitWeights; hide Sized; hide Sum;
    var n0 := hBlocks0 * f.blockSize;
    var whole := BlockOf(f, w, act, nodes * hBlocks0 * f.blockSize, inBlocks, dim, nodes * hBlocks0);
    forall t: nat, s: nat | t < nodes && s < dim
      ensures ys[t][s] == Forward(Slice(whole, n0, t), x, n0, s)
    {
      RankReadsSlice(f, w, slices[t], act, nodes, hBlocks0, inBlocks, dim, t, x, s);
    }
    PartsSumToWhole(whole, x, n0, nodes, dim, ys, r);
    assert nodes * n0 == nodes * hBlocks0 * f.blockSize;
  }
}
