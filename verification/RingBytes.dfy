/** The ring all-reduce of src/nn/nn-network.cpp at the level of bytes, for slices of any size: what a
    slice holds does not matter for where it ends up, so nothing is asked of the reduction. */
module RingBytes {
  import opened Common
  import opened RingSchedule

  predicate Slices<T>(g: Ring, xs: seq<seq<T>>)
  {
    |xs| == g.n && forall i :: 0 <= i < g.n ==> |xs[i]| == g.n
  }

  /** Slice `c` of node `i` after its first `r` receives, when `add` reduces a slice. */
  function Slot<T>(g: Ring, xs: seq<seq<T>>, add: (T, T) -> T, i: nat, r: nat, c: nat): T
    requires g.Valid() && Slices(g, xs) && i < g.n && r <= g.exchanges && c < g.n
    decreases r
  {
    if r == 0 then xs[i][c]
    else if RecvChunk(g, i, r - 1) != c then Slot(g, xs, add, i, r - 1, c)
    else if r - 1 < g.n - 1 then add(Slot(g, xs, add, i, r - 1, c), Slot(g, xs, add, Prev(g.n, i), r - 1, c))
    else Slot(g, xs, add, Prev(g.n, i), r - 1, c)
  }

  /** Reduce-scatter leaves a node's own slice alone. */
  lemma {:induction false} OwnSlice<T>(g: Ring, xs: seq<seq<T>>, add: (T, T) -> T, i: nat, r: nat)
    requires g.Valid() && Slices(g, xs) && i < g.n && r <= g.n - 1
    ensures Slot(g, xs, add, i, r, i) == xs[i][i]
    decreases r
  {
    if 0 < r {
      OwnSlice(g, xs, add, i, r - 1);
      RecvIsDistance(g, i, r - 1, i);
    }
  }

  /** The written gather spreads each node's own slice. */
  lemma {:induction false} OwnSliceSpreads<T>(g: Ring, xs: seq<seq<T>>, add: (T, T) -> T, i: nat, s: nat, c: nat)
    requires g.Valid() && g.sigma == 0 && Slices(g, xs) && i < g.n && s <= g.n - 1 && c < g.n
    ensures Dist(g.n, i, c) <= s ==> Slot(g, xs, add, i, g.n - 1 + s, c) == xs[c][c]
    decreases s
  {
    hide RecvChunk; hide Slices;
    if s == 0 {
      if Dist(g.n, i, c) == 0 { OwnSlice(g, xs, add, i, g.n - 1); }
    } else {
      RecvIsDistance(g, i, g.n - 1 + s - 1, c);
      OwnSliceSpreads(g, xs, add, i, s - 1, c);
      OwnSliceSpreads(g, xs, add, Prev(g.n, i), s - 1, c);
    }
  }

  // ---- Floats cut by slices ---------------------------------------------------------------------------

  /** A byte of a float, as an opaque cell. */
  datatype Cell = Cell(value: real)

  /** How floats lie in bytes, and what `reduceSum` makes of two slices. */
  datatype FloatWire = FloatWire(bytes: real -> seq<Cell>, value: seq<Cell> -> real,
    add: (seq<Cell>, seq<Cell>) -> seq<Cell>)
  {
    ghost predicate Valid() { forall x :: |bytes(x)| == 4 && value(bytes(x)) == x }
  }

  /** Byte `b` of a buffer of floats. */
  function CellAt(w: FloatWire, buffer: seq<real>, b: nat): Cell
  {
    if b / 4 < |buffer| && b % 4 < |w.bytes(buffer[b / 4])| then w.bytes(buffer[b / 4])[b % 4] else Cell(0.0)
  }

  function SliceOf(w: FloatWire, buffer: seq<real>, size: nat, c: nat): (s: seq<Cell>)
    ensures |s| == size
  {
    seq(size, x requires 0 <= x => CellAt(w, buffer, c * size + x))
  }

  function SlicesOf(w: FloatWire, xs: seq<seq<real>>, size: nat): seq<seq<seq<Cell>>>
  {
    seq(|xs|, i requires 0 <= i < |xs| => seq(|xs|, c requires 0 <= c => SliceOf(w, xs[i], size, c)))
  }

  /** Buffers a ring may take: `bytes` bytes in whole slices. */
  predicate Cuts(xs: seq<seq<real>>, bytes: nat) { 2 <= |xs| && 0 < bytes && bytes % |xs| == 0 }

  /** Byte `b` of node `i` after the ring. */
  function RingCell(w: FloatWire, xs: seq<seq<real>>, bytes: nat, i: nat, b: nat): Cell
    requires Cuts(xs, bytes) && i < |xs| && b < bytes
  {
    var n, size := |xs|, bytes / |xs|;
    SliceBound(n, bytes, b);
    var s := Slot(Ring(n, size, 0), SlicesOf(w, xs, size), w.add, i, Ring(n, size, 0).exchanges, b / size);
    if b % size < |s| then s[b % size] else Cell(0.0)
  }

  lemma SliceBound(n: nat, bytes: nat, b: nat)
    requires 0 < n && 0 < bytes && bytes % n == 0 && b < bytes
    ensures 0 < bytes / n && b / (bytes / n) < n
  {
    var size := bytes / n;
    assert bytes == n * size;
    assert b / size * size <= b;
    MulMonotone(n, b / size, size);
  }

  /** Every byte is the one of the node whose slice it lies in. */
  lemma RingCellIsDiagonal(w: FloatWire, xs: seq<seq<real>>, bytes: nat, i: nat, b: nat)
    requires Cuts(xs, bytes) && i < |xs| && b < bytes
    ensures 0 < bytes / |xs| && b / (bytes / |xs|) < |xs|
    ensures RingCell(w, xs, bytes, i, b) == CellAt(w, xs[b / (bytes / |xs|)], b)
  {
    hide Slot; hide CellAt;
    var n, size := |xs|, bytes / |xs|;
    SliceBound(n, bytes, b);
    OwnSliceSpreads(Ring(n, size, 0), SlicesOf(w, xs, size), w.add, i, n - 1, b / size);
    assert b / size * size + b % size == b;
  }

  /** Float `k` of node `i` after the ring. */
  function RingFloat(w: FloatWire, xs: seq<seq<real>>, floats: nat, i: nat, k: nat): real
    requires Cuts(xs, 4 * floats) && i < |xs| && k < floats
  {
    w.value([RingCell(w, xs, 4 * floats, i, 4 * k), RingCell(w, xs, 4 * floats, i, 4 * k + 1),
             RingCell(w, xs, 4 * floats, i, 4 * k + 2), RingCell(w, xs, 4 * floats, i, 4 * k + 3)])
  }

  /** The node whose byte `b` the ring delivers. */
  function ByteOwner(n: nat, bytes: nat, b: nat): (o: nat)
    requires 0 < n && 0 < bytes && bytes % n == 0 && b < bytes
    ensures o < n
  {
    SliceBound(n, bytes, b);
    b / (bytes / n)
  }

  /** The byte of the node that owns the slice. */
  function OwnCell(w: FloatWire, xs: seq<seq<real>>, bytes: nat, b: nat): Cell
    requires Cuts(xs, bytes) && b < bytes
  {
    CellAt(w, xs[ByteOwner(|xs|, bytes, b)], b)
  }

  /** The float put together from the bytes of the nodes whose slices they lie in. */
  function Diagonal(w: FloatWire, xs: seq<seq<real>>, floats: nat, k: nat): real
    requires Cuts(xs, 4 * floats) && k < floats
  {
    w.value([OwnCell(w, xs, 4 * floats, 4 * k), OwnCell(w, xs, 4 * floats, 4 * k + 1),
             OwnCell(w, xs, 4 * floats, 4 * k + 2), OwnCell(w, xs, 4 * floats, 4 * k + 3)])
  }

  /** For every size, the ring as written delivers the diagonal of the bytes, on every node. */
  lemma RingFloatIsDiagonal(w: FloatWire, xs: seq<seq<real>>, floats: nat, i: nat, k: nat)
    requires Cuts(xs, 4 * floats) && i < |xs| && k < floats
    ensures RingFloat(w, xs, floats, i, k) == Diagonal(w, xs, floats, k)
  {
    hide RingCell; hide CellAt;
    RingCellIsDiagonal(w, xs, 4 * floats, i, 4 * k);
    RingCellIsDiagonal(w, xs, 4 * floats, i, 4 * k + 1);
    RingCellIsDiagonal(w, xs, 4 * floats, i, 4 * k + 2);
    RingCellIsDiagonal(w, xs, 4 * floats, i, 4 * k + 3);
  }

  lemma OneCell(w: FloatWire, xs: seq<seq<real>>, floats: nat, k: nat, x: nat, v: real)
    requires w.Valid() && Cuts(xs, 4 * floats) && k < floats && x < 4
    requires var o := ByteOwner(|xs|, 4 * floats, 4 * k + x); k < |xs[o]| && xs[o][k] == v
    ensures |w.bytes(v)| == 4 && OwnCell(w, xs, 4 * floats, 4 * k + x) == w.bytes(v)[x]
  {
  }

  /** Bytes that all come from floats with the value `v` make up `v`. */
  lemma WholeFloat(w: FloatWire, xs: seq<seq<real>>, floats: nat, k: nat, v: real)
    requires w.Valid() && Cuts(xs, 4 * floats) && k < floats
    requires forall b: nat :: 4 * k <= b < 4 * k + 4 ==>
      var o := ByteOwner(|xs|, 4 * floats, b); k < |xs[o]| && xs[o][k] == v
    ensures Diagonal(w, xs, floats, k) == v
  {
    hide OwnCell; hide ByteOwner;
    OneCell(w, xs, floats, k, 0, v);
    OneCell(w, xs, floats, k, 1, v);
    OneCell(w, xs, floats, k, 2, v);
    OneCell(w, xs, floats, k, 3, v);
    assert w.bytes(v) == [w.bytes(v)[0], w.bytes(v)[1], w.bytes(v)[2], w.bytes(v)[3]];
  }

  /** A byte of float `k` lies in the slice the float lies in. */
  lemma WholeOwner(n: nat, floats: nat, k: nat, b: nat)
    requires 0 < n && 0 < floats && floats % n == 0 && k < floats && 4 * k <= b < 4 * k + 4
    ensures (4 * floats) % n == 0 && 0 < floats / n && ByteOwner(n, 4 * floats, b) == k / (floats / n)
  {
    var len, q := floats / n, k / (floats / n);
    SliceBound(n, floats, k);
    assert 4 * floats == (4 * len) * n + 0;
    QuotRem(4 * floats, 4 * len, 0, n);
    assert k == q * len + k % len && k % len <= len - 1;
    assert b == q * (4 * len) + (4 * (k % len) + (b - 4 * k));
    QuotRem(b, q, 4 * (k % len) + (b - 4 * k), 4 * len);
  }

  /** With slices of whole floats the diagonal is that of the floats. */
  lemma WholeSlices(w: FloatWire, xs: seq<seq<real>>, floats: nat, k: nat)
    requires w.Valid() && Cuts(xs, 4 * floats) && k < floats && floats % |xs| == 0
    requires forall i :: 0 <= i < |xs| ==> k < |xs[i]|
    ensures 0 < floats / |xs| && k / (floats / |xs|) < |xs|
    ensures Diagonal(w, xs, floats, k) == xs[k / (floats / |xs|)][k]
  {
    hide ByteOwner;
    SliceBound(|xs|, floats, k);
    var o := k / (floats / |xs|);
    forall b: nat | 4 * k <= b < 4 * k + 4 ensures ByteOwner(|xs|, 4 * floats, b) == o {
      WholeOwner(|xs|, floats, k, b);
    }
    WholeFloat(w, xs, floats, k, xs[o][k]);
  }

  /** Where all nodes hold the same float, the ring delivers that float, however the slices cut it. */
  lemma SameFloat(w: FloatWire, xs: seq<seq<real>>, floats: nat, k: nat, v: real)
    requires w.Valid() && Cuts(xs, 4 * floats) && k < floats
    requires forall i :: 0 <= i < |xs| ==> k < |xs[i]| && xs[i][k] == v
    ensures Diagonal(w, xs, floats, k) == v
  {
    hide ByteOwner;
    WholeFloat(w, xs, floats, k, v);
  }
}
