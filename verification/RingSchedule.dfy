/** The ring all-reduce of src/nn/nn-network.cpp as a schedule: which chunk a node sends and
    receives at its r-th exchange, and what its buffer holds after that. */
module RingSchedule {
  import opened Common

  /** `len` floats in each of the `n` slices. The written gather starts from the node's own chunk
      (`sigma` 0); `sigma` 1 starts it from the chunk the node has just reduced. */
  datatype Ring = Ring(n: nat, len: nat, sigma: nat)
  {
    predicate Valid() { 2 <= n && 0 < len && sigma <= 1 }

    const exchanges: int := 2 * (n - 1)
  }

  function SendChunk(g: Ring, i: nat, r: nat): nat
    requires g.Valid() && i < g.n && r < g.exchanges
  {
    if r < g.n - 1 then (i - r + g.n) % g.n else (i + g.sigma - (r - (g.n - 1)) + g.n) % g.n
  }

  function RecvChunk(g: Ring, i: nat, r: nat): nat
    requires g.Valid() && i < g.n && r < g.exchanges
  {
    if r < g.n - 1 then (i - r - 1 + g.n) % g.n else (i + g.sigma - (r - (g.n - 1)) - 1 + g.n) % g.n
  }

  function Prev(n: nat, i: nat): (p: nat)
    requires i < n
    ensures p < n
  {
    if i == 0 then n - 1 else i - 1
  }

  function Next(n: nat, i: nat): (p: nat)
    requires i < n
    ensures p < n && Prev(n, p) == i
  {
    if i + 1 == n then 0 else i + 1
  }

  predicate Inputs(g: Ring, xs: seq<seq<real>>)
  {
    |xs| == g.n && forall i :: 0 <= i < g.n ==> |xs[i]| == g.n * g.len
  }

  function Chunk(g: Ring, k: nat): nat
    requires g.Valid()
  {
    k / g.len
  }

  lemma ChunkBound(g: Ring, k: nat)
    requires g.Valid() && k < g.n * g.len
    ensures Chunk(g, k) < g.n
  {
    assert (k / g.len) * g.len <= k;
  }

  /** Float `k` of node `i` after its first `r` receives. */
  function Buf(g: Ring, xs: seq<seq<real>>, i: nat, r: nat, k: nat): real
    requires g.Valid() && Inputs(g, xs) && i < g.n && r <= g.exchanges && k < g.n * g.len
    decreases r
  {
    if r == 0 then xs[i][k]
    else if RecvChunk(g, i, r - 1) != Chunk(g, k) then Buf(g, xs, i, r - 1, k)
    else if r - 1 < g.n - 1 then Buf(g, xs, i, r - 1, k) + Buf(g, xs, Prev(g.n, i), r - 1, k)
    else Buf(g, xs, Prev(g.n, i), r - 1, k)
  }

  // ---- Chunk indices ----------------------------------------------------------------------------

  /** How many places node `i` comes after node `c` on the ring. */
  function Dist(n: nat, i: nat, c: nat): (d: nat)
    requires i < n && c < n
    ensures d < n
  {
    if c <= i then i - c else i - c + n
  }

  function Ahead(n: nat, i: nat, sigma: nat): (m: nat)
    requires i < n && sigma <= 1
    ensures m < n
  {
    if sigma == 0 then i else Next(n, i)
  }

  /** The chunk received at exchange `r` is the one the sender lies `r + 1` places after. */
  lemma RecvIsDistance(g: Ring, i: nat, r: nat, c: nat)
    requires g.Valid() && i < g.n && r < g.exchanges && c < g.n
    ensures r < g.n - 1 ==> (RecvChunk(g, i, r) == c <==> Dist(g.n, i, c) == r + 1)
    ensures g.n - 1 <= r ==> (RecvChunk(g, i, r) == c <==> Dist(g.n, Ahead(g.n, i, g.sigma), c) == r - (g.n - 1) + 1)
  {
    if r < g.n - 1 {
      ModOnce(i - r - 1 + g.n, g.n);
    } else {
      var s := r - (g.n - 1);
      if i + g.sigma - s - 1 + g.n < 2 * g.n {
        ModOnce(i + g.sigma - s - 1 + g.n, g.n);
      }
    }
  }

  /** A node sends what its neighbour expects, and never the chunk it is receiving at that exchange. */
  lemma SendMatchesRecv(g: Ring, i: nat, r: nat)
    requires g.Valid() && i < g.n && r < g.exchanges
    ensures SendChunk(g, i, r) < g.n
    ensures SendChunk(g, i, r) == RecvChunk(g, Next(g.n, i), r)
    ensures SendChunk(g, i, r) != RecvChunk(g, i, r)
  {
    var j := Next(g.n, i);
    var s := if r < g.n - 1 then r else r - (g.n - 1) - g.sigma;
    SendValue(i - s + g.n, g.n);
    SendValue(i - s - 1 + g.n, g.n);
    SendValue(j - s - 1 + g.n, g.n);
  }

  lemma SendValue(x: int, n: nat)
    requires 0 < n && 0 <= x <= 2 * n
    ensures x % n == if x < n then x else if x < 2 * n then x - n else 0
  {
    if x < 2 * n { ModOnce(x, n); } else { assert (2 * n) % n == 0 by { } }
  }

  // ---- Phase 1: reduce-scatter -------------------------------------------------------------------

  function RangeSum(xs: seq<seq<real>>, k: nat, lo: nat, hi: nat): real
    requires lo <= hi <= |xs| && forall i :: 0 <= i < |xs| ==> k < |xs[i]|
    decreases hi
  {
    if lo == hi then 0.0 else RangeSum(xs, k, lo, hi - 1) + xs[hi - 1][k]
  }

  function Sum(xs: seq<seq<real>>, k: nat): real
    requires forall i :: 0 <= i < |xs| ==> k < |xs[i]|
  {
    RangeSum(xs, k, 0, |xs|)
  }

  lemma {:induction false} RangeSplit(xs: seq<seq<real>>, k: nat, lo: nat, mid: nat, hi: nat)
    requires lo <= mid <= hi <= |xs| && forall i :: 0 <= i < |xs| ==> k < |xs[i]|
    ensures RangeSum(xs, k, lo, hi) == RangeSum(xs, k, lo, mid) + RangeSum(xs, k, mid, hi)
    decreases hi
  {
    if mid < hi { RangeSplit(xs, k, lo, mid, hi - 1); }
  }

  /** The nodes from `c` on, `d + 1` of them, round the ring. */
  function ArcSum(xs: seq<seq<real>>, k: nat, c: nat, d: nat): real
    requires c < |xs| && d < |xs| && forall i :: 0 <= i < |xs| ==> k < |xs[i]|
  {
    if c + d < |xs| then RangeSum(xs, k, c, c + d + 1)
    else RangeSum(xs, k, c, |xs|) + RangeSum(xs, k, 0, c + d + 1 - |xs|)
  }

  lemma ArcExtend(xs: seq<seq<real>>, k: nat, c: nat, d: nat)
    requires c < |xs| && 0 < d < |xs| && forall i :: 0 <= i < |xs| ==> k < |xs[i]|
    ensures var last := if c + d < |xs| then c + d else c + d - |xs|;
      ArcSum(xs, k, c, d) == ArcSum(xs, k, c, d - 1) + xs[last][k]
  {
  }

  lemma WholeArc(xs: seq<seq<real>>, k: nat, c: nat)
    requires c < |xs| && forall i :: 0 <= i < |xs| ==> k < |xs[i]|
    ensures ArcSum(xs, k, c, |xs| - 1) == Sum(xs, k)
  {
    RangeSplit(xs, k, 0, c, |xs|);
    if c == 0 { assert RangeSum(xs, k, 0, 0) == 0.0; }
  }

  lemma Wide(g: Ring, xs: seq<seq<real>>, k: nat)
    requires Inputs(g, xs) && k < g.n * g.len
    ensures |xs| == g.n && forall i :: 0 <= i < |xs| ==> k < |xs[i]|
  {
  }

  /** After `r` exchanges of reduce-scatter, a chunk received by then holds the sum of the nodes from
      the chunk's own up to this one; the others, the node's own chunk among them, are untouched. */
  lemma {:induction false} ScatterState(g: Ring, xs: seq<seq<real>>, i: nat, r: nat, k: nat)
    requires g.Valid() && Inputs(g, xs) && i < g.n && r <= g.n - 1 && k < g.n * g.len
    ensures Chunk(g, k) < g.n && forall i :: 0 <= i < |xs| ==> k < |xs[i]|
    ensures var c := Chunk(g, k); var d := Dist(g.n, i, c);
      Buf(g, xs, i, r, k) == if 1 <= d <= r then ArcSum(xs, k, c, d) else xs[i][k]
    decreases r
  {
    hide RecvChunk; hide Chunk; hide Inputs; hide ArcSum;
    ChunkBound(g, k);
    Wide(g, xs, k);
    var c := Chunk(g, k);
    if 0 < r {
      var p := Prev(g.n, i);
      RecvIsDistance(g, i, r - 1, c);
      ScatterState(g, xs, i, r - 1, k);
      ScatterState(g, xs, p, r - 1, k);
      if Dist(g.n, i, c) == r {
        assert Dist(g.n, p, c) == r - 1;
        ArcExtend(xs, k, c, r);
        if r == 1 { ArcOne(xs, k, c); }
      }
    }
  }

  lemma ArcOne(xs: seq<seq<real>>, k: nat, c: nat)
    requires c < |xs| && forall i :: 0 <= i < |xs| ==> k < |xs[i]|
    ensures ArcSum(xs, k, c, 0) == xs[c][k]
  {
    assert RangeSum(xs, k, c, c) == 0.0;
  }

  /** Reduce-scatter: node `i` ends with the full sum in chunk i+1 and its own chunk `i` untouched. */
  lemma ReduceScatter(g: Ring, xs: seq<seq<real>>, i: nat, k: nat)
    requires g.Valid() && Inputs(g, xs) && i < g.n && k < g.n * g.len
    ensures forall j :: 0 <= j < |xs| ==> k < |xs[j]|
    ensures Chunk(g, k) == Next(g.n, i) ==> Buf(g, xs, i, g.n - 1, k) == Sum(xs, k)
    ensures Chunk(g, k) == i ==> Buf(g, xs, i, g.n - 1, k) == xs[i][k]
  {
    hide Buf; hide ArcSum; hide Sum; hide RangeSum; hide Chunk;
    ScatterState(g, xs, i, g.n - 1, k);
    WholeArc(xs, k, Chunk(g, k));
  }

  // ---- Phase 2: all-gather -----------------------------------------------------------------------

  /** The node whose copy of chunk `c` the gather spreads. */
  function Origin(g: Ring, c: nat): (m: nat)
    requires g.Valid() && c < g.n
    ensures m < g.n
  {
    if g.sigma == 0 then c else Prev(g.n, c)
  }

  lemma {:induction false} GatherState(g: Ring, xs: seq<seq<real>>, i: nat, s: nat, k: nat)
    requires g.Valid() && Inputs(g, xs) && i < g.n && s <= g.n - 1 && k < g.n * g.len
    ensures Chunk(g, k) < g.n
    ensures var c := Chunk(g, k); var d := Dist(g.n, Ahead(g.n, i, g.sigma), c);
      Buf(g, xs, i, g.n - 1 + s, k) ==
        if 1 <= d <= s then Buf(g, xs, Origin(g, c), g.n - 1, k) else Buf(g, xs, i, g.n - 1, k)
    decreases s
  {
    hide RecvChunk; hide Chunk; hide Inputs;
    ChunkBound(g, k);
    var c := Chunk(g, k);
    if 0 < s {
      var p := Prev(g.n, i);
      RecvIsDistance(g, i, g.n - 1 + s - 1, c);
      GatherState(g, xs, i, s - 1, k);
      GatherState(g, xs, p, s - 1, k);
    }
  }

  /** After the gather every node holds, in every chunk, the copy of that chunk's origin. */
  lemma Gathered(g: Ring, xs: seq<seq<real>>, i: nat, k: nat)
    requires g.Valid() && Inputs(g, xs) && i < g.n && k < g.n * g.len
    ensures Chunk(g, k) < g.n
    ensures Buf(g, xs, i, g.exchanges, k) == Buf(g, xs, Origin(g, Chunk(g, k)), g.n - 1, k)
  {
    hide Buf; hide Chunk;
    GatherState(g, xs, i, g.n - 1, k);
  }

  /** The ring as written leaves every node with the diagonal: chunk j is node j's own, unreduced. */
  lemma WrittenRingIsDiagonal(g: Ring, xs: seq<seq<real>>, i: nat, k: nat)
    requires g.Valid() && g.sigma == 0 && Inputs(g, xs) && i < g.n && k < g.n * g.len
    ensures Chunk(g, k) < g.n && k < |xs[Chunk(g, k)]|
    ensures Buf(g, xs, i, g.exchanges, k) == xs[Chunk(g, k)][k]
  {
    hide Buf; hide Chunk;
    Gathered(g, xs, i, k);
    ReduceScatter(g, xs, Chunk(g, k), k);
  }

  /** Starting the gather one chunk later gives every node the sum of all nodes. */
  lemma ShiftedRingIsSum(g: Ring, xs: seq<seq<real>>, i: nat, k: nat)
    requires g.Valid() && g.sigma == 1 && Inputs(g, xs) && i < g.n && k < g.n * g.len
    ensures forall j :: 0 <= j < |xs| ==> k < |xs[j]|
    ensures Buf(g, xs, i, g.exchanges, k) == Sum(xs, k)
  {
    hide Buf; hide Sum; hide Chunk;
    Gathered(g, xs, i, k);
    ReduceScatter(g, xs, Prev(g.n, Chunk(g, k)), k);
  }
}
