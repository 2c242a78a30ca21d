/** The tiled matrix product of src/nn/llamafile/sgemm.cpp: a recursive packing picks a tile size for
    the largest aligned block, each thread takes a run of its tiles, and the strips left over recurse.
    `A`, `B` and `C` are tables of rows; their strides are the row lengths. */
module TiledGemm {
  import opened Common

  // ---- Tile tables --------------------------------------------------------------------------------

  /** The kernels and register files the tables are written for. */
  datatype Variant = Float32Registers | Float16Registers | Q0Arm | Q0Avx32Registers | Q0Avx16Registers

  function Cap(v: Variant): nat
  {
    match v
    case Float32Registers => 5
    case Float16Registers => 5
    case Q0Arm => 3
    case Q0Avx32Registers => 4
    case Q0Avx16Registers => 4
  }

  datatype Tile = Tile(mc: nat, nc: nat)

  function Min(a: nat, b: nat): nat { if a < b then a else b }

  /** The switch of `mnpack` on the clipped height and width of the region. */
  function TileOf(v: Variant, height: nat, width: nat): Tile
  {
    var a, b := Min(height, Cap(v)), Min(width, Cap(v));
    match v
    case Float32Registers => Tile(a, b)
    case Float16Registers =>
      if 4 <= a && 3 <= b then Tile(4, 3)
      else if a == 3 && 4 <= b then Tile(3, 4)
      else Tile(a, b)
    case Q0Arm => Tile(a, b)
    case Q0Avx32Registers => Tile(a, b)
    case Q0Avx16Registers =>
      if a == 4 && 2 <= b then Tile(4, 2)
      else if 2 <= a && b == 4 then Tile(2, 4)
      else if a == 3 && 2 <= b then Tile(3, 2)
      else Tile(a, b)
  }

  lemma TileFits(v: Variant, height: nat, width: nat)
    requires 0 < height && 0 < width
    ensures 1 <= TileOf(v, height, width).mc <= height && 1 <= TileOf(v, height, width).nc <= width
  {
  }

  // ---- The block of whole tiles ---------------------------------------------------------------------

  /** Where the whole tiles of size `c` in [from, to) end. */
  function Aligned(from: nat, to: nat, c: nat): nat
    requires from <= to && 0 < c
  {
    from + (to - from) / c * c
  }

  lemma AlignedBounds(from: nat, to: nat, c: nat)
    requires from <= to && 0 < c
    ensures from <= Aligned(from, to, c) <= to
    ensures c <= to - from ==> from < Aligned(from, to, c)
  {
    QuotientBounds(to - from, c);
    if c <= to - from {
      QuotPositive(to - from, c);
      MulMonotone(1, (to - from) / c, c);
    }
  }

  lemma AtLeastOne(a: nat, c: nat)
    requires 0 < c <= a
    ensures 1 <= a / c
  {
  }

  /** A region cut into tiles. */
  datatype Grid = Grid(m0: nat, m: nat, n0: nat, n: nat, mc: nat, nc: nat)
  {
    predicate Valid() { m0 <= m && n0 <= n && 0 < mc && 0 < nc }

    function XTiles(): nat requires Valid() { Quot(n - n0, nc) }
    function YTiles(): nat requires Valid() { Quot(m - m0, mc) }
    function Tiles(): nat requires Valid() { XTiles() * YTiles() }
  }

  predicate Covers(g: Grid, i: nat, j: nat)
    requires g.Valid()
  {
    g.m0 <= i < Aligned(g.m0, g.m, g.mc) && g.n0 <= j < Aligned(g.n0, g.n, g.nc)
  }

  function JobAt(y: nat, x: nat, xt: nat): nat { y * xt + x }

  /** The job whose tile holds cell (i, j). */
  function JobOf(g: Grid, i: nat, j: nat): nat
    requires g.Valid() && Covers(g, i, j)
  {
    JobAt(Quot(i - g.m0, g.mc), Quot(j - g.n0, g.nc), g.XTiles())
  }

  /** First row and column of a job's tile. */
  function Row(g: Grid, job: nat): nat requires g.Valid() && 0 < g.XTiles() { g.m0 + Quot(job, g.XTiles()) * g.mc }
  function Col(g: Grid, job: nat): nat requires g.Valid() && 0 < g.XTiles() { g.n0 + Rem(job, g.XTiles()) * g.nc }

  predicate InTile(r: nat, c: nat, mc: nat, nc: nat, i: nat, j: nat) { r <= i < r + mc && c <= j < c + nc }

  lemma IndexBelow(x: nat, len: nat, c: nat)
    requires 0 < c && x < Quot(len, c) * c
    ensures Quot(x, c) < Quot(len, c)
    ensures Quot(x, c) * c <= x < Quot(x, c) * c + c
  {
    hide Quot; hide Rem;
    QuotientBounds(x, c);
    LessByFactor(Quot(x, c), Quot(len, c), c);
  }

  lemma Combine(y: nat, x: nat, xt: nat)
    requires x < xt
    ensures Quot(JobAt(y, x, xt), xt) == y && Rem(JobAt(y, x, xt), xt) == x
  {
    QuotientUnique(y * xt + x, y, xt);
  }

  lemma JobBelow(y: nat, x: nat, yt: nat, xt: nat)
    requires x < xt && y < yt
    ensures JobAt(y, x, xt) < xt * yt
  {
    MulMonotone(y + 1, yt, xt);
    assert (y + 1) * xt == y * xt + xt && yt * xt == xt * yt;
  }

  /** Every covered cell lies in the tile of its job, and the job exists. */
  lemma CellHasJob(g: Grid, i: nat, j: nat)
    requires g.Valid() && Covers(g, i, j)
    ensures JobOf(g, i, j) < g.Tiles() && 0 < g.XTiles()
    ensures InTile(Row(g, JobOf(g, i, j)), Col(g, JobOf(g, i, j)), g.mc, g.nc, i, j)
  {
    hide Quot; hide Rem; hide JobAt;
    AlignedQuot(g.m0, g.m, g.mc);
    AlignedQuot(g.n0, g.n, g.nc);
    IndexBelow(i - g.m0, g.m - g.m0, g.mc);
    IndexBelow(j - g.n0, g.n - g.n0, g.nc);
    var y, x := Quot(i - g.m0, g.mc), Quot(j - g.n0, g.nc);
    JobBelow(y, x, g.YTiles(), g.XTiles());
    Combine(y, x, g.XTiles());
  }

  lemma AlignedQuot(from: nat, to: nat, c: nat)
    requires from <= to && 0 < c
    ensures Aligned(from, to, c) == from + Quot(to - from, c) * c
  {
  }

  lemma JobParts(job: nat, xt: nat, yt: nat)
    requires 0 < xt && job < xt * yt
    ensures Quot(job, xt) < yt && Rem(job, xt) < xt && job == JobAt(Quot(job, xt), Rem(job, xt), xt)
  {
    hide Quot; hide Rem;
    QuotientBounds(job, xt);
    assert xt * yt == yt * xt;
    LessByFactor(Quot(job, xt), yt, xt);
  }

  lemma TileEnds(y: nat, i: nat, from: nat, to: nat, c: nat)
    requires from <= to && 0 < c && y < Quot(to - from, c) && from + y * c <= i < from + y * c + c
    ensures from <= i < Aligned(from, to, c) && Quot(i - from, c) == y
  {
    AlignedQuot(from, to, c);
    QuotientUnique(i - from, y, c);
    MulMonotone(y + 1, Quot(to - from, c), c);
    assert (y + 1) * c == y * c + c;
  }

  /** The cells of a job's tile are exactly the covered cells with that job. */
  lemma JobCells(g: Grid, job: nat, i: nat, j: nat)
    requires g.Valid() && job < g.Tiles() && 0 < g.XTiles()
    ensures InTile(Row(g, job), Col(g, job), g.mc, g.nc, i, j) <==> Covers(g, i, j) && JobOf(g, i, j) == job
  {
    hide Quot; hide Rem; hide JobAt; hide Aligned;
    if Covers(g, i, j) { CellHasJob(g, i, j); }
    if InTile(Row(g, job), Col(g, job), g.mc, g.nc, i, j) {
      JobParts(job, g.XTiles(), g.YTiles());
      TileEnds(Quot(job, g.XTiles()), i, g.m0, g.m, g.mc);
      TileEnds(Rem(job, g.XTiles()), j, g.n0, g.n, g.nc);
    }
  }

  // ---- Threads ----------------------------------------------------------------------------------------

  function Duty(tiles: nat, nth: nat): nat
    requires 0 < nth
  {
    (tiles + nth - 1) / nth
  }

  function FirstJob(tiles: nat, nth: nat, t: nat): nat
    requires 0 < nth
  {
    Duty(tiles, nth) * t
  }

  predicate OnDuty(tiles: nat, nth: nat, t: nat, job: nat)
    requires 0 < nth
  {
    FirstJob(tiles, nth, t) <= job < FirstJob(tiles, nth, t) + Duty(tiles, nth) && job < tiles
  }

  lemma DutyCovers(tiles: nat, nth: nat)
    requires 0 < nth && 0 < tiles
    ensures 0 < Duty(tiles, nth) && tiles <= nth * Duty(tiles, nth)
  {
    var d := Duty(tiles, nth);
    assert tiles + nth - 1 == nth * d + (tiles + nth - 1) % nth;
    AtLeastOne(tiles + nth - 1, nth);
  }

  function OwnerOf(tiles: nat, nth: nat, job: nat): nat
    requires 0 < nth && job < tiles
  {
    DutyCovers(tiles, nth);
    job / Duty(tiles, nth)
  }

  /** Every job is on the duty of exactly one thread. */
  lemma OneOwner(tiles: nat, nth: nat, job: nat, t: nat)
    requires 0 < nth && job < tiles
    ensures OwnerOf(tiles, nth, job) < nth
    ensures OnDuty(tiles, nth, t, job) <==> t == OwnerOf(tiles, nth, job)
  {
    DutyCovers(tiles, nth);
    var d := Duty(tiles, nth);
    var q := job / d;
    assert q * d <= job < q * d + d;
    assert d * t == t * d && nth * d == d * nth;
    LessByFactor(q, nth, d);
    QuotientUnique(job, q, d);
    if t * d <= job < t * d + d { QuotientUnique(job, t, d); }
  }

  predicate CellOnDuty(g: Grid, nth: nat, t: nat, i: nat, j: nat)
    requires g.Valid() && 0 < nth
  {
    Covers(g, i, j) && OnDuty(g.Tiles(), nth, t, JobOf(g, i, j))
  }

  predicate JobIn(g: Grid, lo: nat, hi: nat, i: nat, j: nat)
    requires g.Valid()
  {
    Covers(g, i, j) && lo <= JobOf(g, i, j) < hi
  }

  lemma DutyRange(g: Grid, nth: nat, t: nat, job: nat, i: nat, j: nat)
    requires g.Valid() && 0 < nth
    requires var start := FirstJob(g.Tiles(), nth, t);
      var end := if start + Duty(g.Tiles(), nth) > g.Tiles() then g.Tiles() else start + Duty(g.Tiles(), nth);
      if start < end then job == end else job == start
    ensures JobIn(g, FirstJob(g.Tiles(), nth, t), job, i, j) <==> CellOnDuty(g, nth, t, i, j)
  {
    if Covers(g, i, j) { CellHasJob(g, i, j); }
  }

  lemma DutyRangeEverywhere(g: Grid, nth: nat, t: nat, job: nat)
    requires g.Valid() && 0 < nth
    requires var start := FirstJob(g.Tiles(), nth, t);
      var end := if start + Duty(g.Tiles(), nth) > g.Tiles() then g.Tiles() else start + Duty(g.Tiles(), nth);
      if start < end then job == end else job == start
    ensures forall i: nat, j: nat :: JobIn(g, FirstJob(g.Tiles(), nth, t), job, i, j) <==> CellOnDuty(g, nth, t, i, j)
  {
    forall i: nat, j: nat ensures JobIn(g, FirstJob(g.Tiles(), nth, t), job, i, j) <==> CellOnDuty(g, nth, t, i, j) {
      DutyRange(g, nth, t, job, i, j);
    }
  }

  /** Covered cells belong to the region. */
  lemma InsideBounds(g: Grid)
    requires g.Valid()
    ensures forall i: nat, j: nat :: Covers(g, i, j) ==> i < g.m && j < g.n
  {
    AlignedBounds(g.m0, g.m, g.mc);
    AlignedBounds(g.n0, g.n, g.nc);
  }

  // ---- Which thread writes which cell --------------------------------------------------------------------

  /** How often thread `t` of `nth` writes cell (i, j) when the region is packed. */
  function Writes(v: Variant, nth: nat, t: nat, m0: nat, m: nat, n0: nat, n: nat, i: nat, j: nat): nat
    requires 0 < nth && m0 <= m && n0 <= n
    decreases (m - m0) + (n - n0)
  {
    if m0 == m || n0 == n then 0
    else
      TileFits(v, m - m0, n - n0);
      var tile := TileOf(v, m - m0, n - n0);
      AlignedBounds(m0, m, tile.mc);
      AlignedBounds(n0, n, tile.nc);
      var g := Grid(m0, m, n0, n, tile.mc, tile.nc);
      var mp, np := Aligned(m0, m, tile.mc), Aligned(n0, n, tile.nc);
      (if CellOnDuty(g, nth, t, i, j) then 1 else 0)
      + Writes(v, nth, t, mp, m, n0, np, i, j)
      + Writes(v, nth, t, m0, m, np, n, i, j)
  }

  predicate InRegion(m0: nat, m: nat, n0: nat, n: nat, i: nat, j: nat) { m0 <= i < m && n0 <= j < n }

  lemma {:induction false} OutsideUntouched(
      v: Variant, nth: nat, t: nat, m0: nat, m: nat, n0: nat, n: nat, i: nat, j: nat)
    requires 0 < nth && m0 <= m && n0 <= n && !InRegion(m0, m, n0, n, i, j)
    ensures Writes(v, nth, t, m0, m, n0, n, i, j) == 0
    decreases (m - m0) + (n - n0)
  {
    hide TileOf; hide Aligned; hide OnDuty;
    if m0 < m && n0 < n {
      TileFits(v, m - m0, n - n0);
      var tile := TileOf(v, m - m0, n - n0);
      AlignedBounds(m0, m, tile.mc);
      AlignedBounds(n0, n, tile.nc);
      OutsideUntouched(v, nth, t, Aligned(m0, m, tile.mc), m, n0, Aligned(n0, n, tile.nc), i, j);
      OutsideUntouched(v, nth, t, m0, m, Aligned(n0, n, tile.nc), n, i, j);
    }
  }

  /** Every cell of the region is written exactly once, by exactly one thread. */
  lemma {:induction false} ExactlyOnce(v: Variant, nth: nat, m0: nat, m: nat, n0: nat, n: nat, i: nat, j: nat)
    returns (owner: nat)
    requires 0 < nth && m0 <= m && n0 <= n && InRegion(m0, m, n0, n, i, j)
    ensures owner < nth
    ensures forall t: nat :: Writes(v, nth, t, m0, m, n0, n, i, j) == if t == owner then 1 else 0
    decreases (m - m0) + (n - n0)
  {
    hide TileOf; hide Aligned; hide OnDuty; hide OwnerOf;
    TileFits(v, m - m0, n - n0);
    var tile := TileOf(v, m - m0, n - n0);
    AlignedBounds(m0, m, tile.mc);
    AlignedBounds(n0, n, tile.nc);
    var g := Grid(m0, m, n0, n, tile.mc, tile.nc);
    var mp, np := Aligned(m0, m, tile.mc), Aligned(n0, n, tile.nc);
    if j < np {
      forall t: nat ensures Writes(v, nth, t, m0, m, np, n, i, j) == 0 {
        OutsideUntouched(v, nth, t, m0, m, np, n, i, j);
      }
      if i < mp {
        CellHasJob(g, i, j);
        owner := OwnerOf(g.Tiles(), nth, JobOf(g, i, j));
        forall t: nat ensures Writes(v, nth, t, m0, m, n0, n, i, j) == if t == owner then 1 else 0 {
          OneOwner(g.Tiles(), nth, JobOf(g, i, j), t);
          OutsideUntouched(v, nth, t, mp, m, n0, np, i, j);
        }
        OneOwner(g.Tiles(), nth, JobOf(g, i, j), 0);
      } else {
        owner := ExactlyOnce(v, nth, mp, m, n0, np, i, j);
      }
    } else {
      owner := ExactlyOnce(v, nth, m0, m, np, n, i, j);
      forall t: nat ensures Writes(v, nth, t, mp, m, n0, np, i, j) == 0 {
        OutsideUntouched(v, nth, t, mp, m, n0, np, i, j);
      }
    }
  }

  // ---- Values -------------------------------------------------------------------------------------------

  /** The product of a row of A and a row of B up to element `l`. */
  function Dot(a: seq<real>, b: seq<real>, l: nat): real
    requires l <= |a| && l <= |b|
  {
    if l == 0 then 0.0 else Dot(a, b, l - 1) + a[l - 1] * b[l - 1]
  }

  type Vector = seq<real>

  function Madd(a: Vector, b: Vector, c: Vector): (r: Vector)
    requires |a| == |b| == |c|
    ensures |r| == |a|
  {
    seq(|a|, x requires 0 <= x < |a| => a[x] * b[x] + c[x])
  }

  function Hsum(v: Vector): real { if v == [] then 0.0 else Hsum(v[..|v| - 1]) + v[|v| - 1] }

  function Zeros(kn: nat): (r: Vector) ensures |r| == kn { seq(kn, _ => 0.0) }

  /** The accumulator after `s` vector steps of width `kn`. */
  function Lanes(a: seq<real>, b: seq<real>, kn: nat, s: nat): (r: Vector)
    requires s * kn <= |a| && s * kn <= |b|
    ensures |r| == kn
  {
    if s == 0 then Zeros(kn)
    else
      Step(s, kn);
      Madd(a[(s - 1) * kn..s * kn], b[(s - 1) * kn..s * kn], Lanes(a, b, kn, s - 1))
  }

  lemma Step(s: nat, kn: nat)
    requires 0 < s
    ensures s * kn - (s - 1) * kn == kn && 0 <= (s - 1) * kn <= s * kn
  {
    assert s * kn == (s - 1) * kn + kn;
  }

  lemma {:induction false} HsumZeros(kn: nat)
    ensures Hsum(Zeros(kn)) == 0.0
  {
    if 0 < kn {
      assert Zeros(kn)[..kn - 1] == Zeros(kn - 1);
      HsumZeros(kn - 1);
    }
  }

  lemma MaddInit(a: Vector, b: Vector, c: Vector)
    requires 0 < |a| == |b| == |c|
    ensures Madd(a, b, c)[..|a| - 1] == Madd(a[..|a| - 1], b[..|a| - 1], c[..|a| - 1])
  {
    var n := |a| - 1;
    var l, r := Madd(a, b, c)[..n], Madd(a[..n], b[..n], c[..n]);
    assert |l| == |r| == n;
    forall x | 0 <= x < n ensures l[x] == r[x] {
      assert l[x] == Madd(a, b, c)[x] == a[x] * b[x] + c[x];
      assert r[x] == a[..n][x] * b[..n][x] + c[..n][x];
    }
  }

  lemma HsumSnoc(v: Vector)
    ensures Hsum(v) == if v == [] then 0.0 else Hsum(v[..|v| - 1]) + v[|v| - 1]
  {
  }

  lemma MaddLast(a: Vector, b: Vector, c: Vector)
    requires 0 < |a| == |b| == |c|
    ensures var n := |a| - 1; Madd(a, b, c)[n] == a[n] * b[n] + c[n]
  {
  }

  /** A vector step adds the products of its lanes. */
  lemma {:induction false} HsumMadd(a: seq<real>, b: seq<real>, at: nat, c: Vector, w: nat)
    requires at + w <= |a| && at + w <= |b| && |c| == w
    ensures Hsum(Madd(a[at..at + w], b[at..at + w], c)) == Hsum(c) + Dot(a, b, at + w) - Dot(a, b, at)
    decreases w
  {
    hide Hsum; hide Madd;
    var x, y := a[at..at + w], b[at..at + w];
    HsumSnoc(Madd(x, y, c));
    HsumSnoc(c);
    if 0 < w {
      MaddInit(x, y, c);
      MaddLast(x, y, c);
      assert x[..w - 1] == a[at..at + (w - 1)] && y[..w - 1] == b[at..at + (w - 1)];
      HsumMadd(a, b, at, c[..w - 1], w - 1);
      assert Dot(a, b, at + w) == Dot(a, b, at + w - 1) + a[at + w - 1] * b[at + w - 1];
    } else {
      assert c == [] && Madd(x, y, c) == [];
    }
  }

  /** The vector kernel computes the dot product. */
  lemma {:induction false} LanesAreDot(a: seq<real>, b: seq<real>, kn: nat, s: nat)
    requires s * kn <= |a| && s * kn <= |b|
    ensures Hsum(Lanes(a, b, kn, s)) == Dot(a, b, s * kn)
  {
    hide Hsum; hide Madd; hide Dot; hide Zeros;
    if s == 0 {
      HsumZeros(kn);
      EmptyDot(a, b);
    } else {
      Step(s, kn);
      LanesAreDot(a, b, kn, s - 1);
      HsumMadd(a, b, (s - 1) * kn, Lanes(a, b, kn, s - 1), kn);
    }
  }

  lemma EmptyDot(a: seq<real>, b: seq<real>)
    ensures Dot(a, b, 0) == 0.0
  {
  }

  lemma Whole(k: nat, kn: nat)
    requires 0 < kn && k % kn == 0
    ensures k / kn * kn == k
  {
    assert k == kn * (k / kn) + k % kn;
  }

  // ---- The kernel class ------------------------------------------------------------------------------------

  class TinyBlas {
    const variant: Variant
    const kn: nat
    const k: nat
    const A: seq<seq<real>>
    const B: seq<seq<real>>
    const C: array2<real>
    const ith: nat
    const nth: nat

    constructor (
        variant: Variant, kn: nat, k: nat, A: seq<seq<real>>, B: seq<seq<real>>, C: array2<real>, ith: nat, nth: nat)
      ensures this.variant == variant && this.kn == kn && this.k == k && this.A == A && this.B == B && this.C == C
      ensures this.ith == ith && this.nth == nth
    {
      this.variant := variant;
      this.kn := kn;
      this.k := k;
      this.A := A;
      this.B := B;
      this.C := C;
      this.ith := ith;
      this.nth := nth;
    }

    /** What `llamafile_sgemm` asserts of its arguments, and whole vectors. */
    predicate Valid()
    {
      && 0 < kn && k % kn == 0 && ith < nth
      && (forall i :: 0 <= i < |A| ==> k <= |A[i]|)
      && (forall j :: 0 <= j < |B| ==> k <= |B[j]|)
      && |A| <= C.Length1 && |B| <= C.Length0
    }

    function Cell(i: nat, j: nat): real
      requires Valid() && i < |A| && j < |B|
    {
      Dot(A[i], B[j], k)
    }

    /** One vector step of one cell. */
    method AddStep(i: nat, j: nat, s: nat, v: Vector) returns (r: Vector)
      requires Valid() && Accumulated(v, i, j, s) && LanesAt(s + 1, i, j)
      ensures Accumulated(r, i, j, s + 1)
    {
      Step(s + 1, kn);
      r := Madd(A[i][s * kn..(s + 1) * kn], B[j][s * kn..(s + 1) * kn], v);
    }

    /** One vector step of every cell of the tile. */
    method StepTile(cv: array2<Vector>, ii: nat, jj: nat, s: nat)
      requires Valid() && ii + cv.Length1 <= |A| && jj + cv.Length0 <= |B| && s < k / kn
      requires forall j, i :: 0 <= j < cv.Length0 && 0 <= i < cv.Length1 ==> Accumulated(cv[j, i], ii + i, jj + j, s)
      modifies cv
      ensures forall j, i :: 0 <= j < cv.Length0 && 0 <= i < cv.Length1 ==> Accumulated(cv[j, i], ii + i, jj + j, s + 1)
    {
      hide Accumulated;
      Room(s, k / kn);
      for j := 0 to cv.Length0
        invariant forall y, x :: 0 <= y < cv.Length0 && 0 <= x < cv.Length1 ==>
          Accumulated(cv[y, x], ii + x, jj + y, if y < j then s + 1 else s)
      {
        for i := 0 to cv.Length1
          invariant forall y, x :: 0 <= y < cv.Length0 && 0 <= x < cv.Length1 ==>
            Accumulated(cv[y, x], ii + x, jj + y, if y < j || (y == j && x < i) then s + 1 else s)
        {
          cv[j, i] := AddStep(ii + i, jj + j, s, cv[j, i]);
        }
      }
    }

    /** The k loop of one job: the tile's accumulators. */
    method Accumulate(ii: nat, jj: nat, rm: nat, rn: nat) returns (cv: array2<Vector>)
      requires Valid() && ii + rm <= |A| && jj + rn <= |B|
      ensures fresh(cv) && cv.Length0 == rn && cv.Length1 == rm
      ensures forall j, i :: 0 <= j < rn && 0 <= i < rm ==> Accumulated(cv[j, i], ii + i, jj + j, k / kn)
    {
      cv := new Vector[rn, rm]((_, _) => Zeros(kn));
      for s := 0 to k / kn
        modifies cv
        invariant forall j, i :: 0 <= j < rn && 0 <= i < rm ==> Accumulated(cv[j, i], ii + i, jj + j, s)
      {
        StepTile(cv, ii, jj, s);
      }
    }

    /** After the k loop an accumulator sums up to its cell. */
    lemma CellDone(v: Vector, i: nat, j: nat)
      requires Valid() && i < |A| && j < |B| && Accumulated(v, i, j, k / kn)
      ensures Hsum(v) == Cell(i, j)
    {
      hide Hsum; hide Dot; hide Lanes;
      Whole(k, kn);
      LanesAreDot(A[i], B[j], kn, k / kn);
    }

    /** The stores of one row of the tile. */
    method StoreRow(cv: array2<Vector>, ii: nat, jj: nat, j: nat)
      requires Valid() && ii + cv.Length1 <= |A| && jj + cv.Length0 <= |B| && j < cv.Length0
      requires forall i :: 0 <= i < cv.Length1 ==> Hsum(cv[j, i]) == Cell(ii + i, jj + j)
      modifies C
      ensures forall i: nat, y: nat :: i < C.Length1 && y < C.Length0 ==>
        C[y, i] == if InTile(ii, jj + j, cv.Length1, 1, i, y) then Cell(i, y) else old(C[y, i])
    {
      hide Hsum; hide Cell;
      for i := 0 to cv.Length1
        modifies C
        invariant forall x: nat, y: nat :: x < C.Length1 && y < C.Length0 ==>
          C[y, x] == if InTile(ii, jj + j, i, 1, x, y) then Cell(x, y) else old(C[y, x])
      {
        C[jj + j, ii + i] := Hsum(cv[j, i]);
      }
    }

    /** One job: accumulate the tile in registers, then store it. */
    method TileKernel(ii: nat, jj: nat, rm: nat, rn: nat)
      requires Valid() && ii + rm <= |A| && jj + rn <= |B|
      modifies C
      ensures forall i: nat, j: nat :: i < C.Length1 && j < C.Length0 ==>
        C[j, i] == if InTile(ii, jj, rm, rn, i, j) then Cell(i, j) else old(C[j, i])
    {
      hide Accumulated; hide Hsum; hide Cell;
      var cv := Accumulate(ii, jj, rm, rn);
      forall j, i | 0 <= j < rn && 0 <= i < rm ensures Hsum(cv[j, i]) == Cell(ii + i, jj + j) {
        CellDone(cv[j, i], ii + i, jj + j);
      }
      for j := 0 to rn
        modifies C
        invariant forall i: nat, y: nat :: i < C.Length1 && y < C.Length0 ==>
          C[y, i] == if InTile(ii, jj, rm, j, i, y) then Cell(i, y) else old(C[y, i])
      {
        StoreRow(cv, ii, jj, j);
      }
    }

    predicate LanesAt(s: nat, i: nat, j: nat)
    {
      i < |A| && j < |B| && s * kn <= |A[i]| && s * kn <= |B[j]|
    }

    /** `v` is the accumulator of cell (i, j) after `s` vector steps. */
    predicate Accumulated(v: Vector, i: nat, j: nat, s: nat)
    {
      LanesAt(s, i, j) && v == Lanes(A[i], B[j], kn, s)
    }

    lemma Room(s: nat, steps: nat)
      requires Valid() && s < steps && steps == k / kn
      ensures forall i, j :: 0 <= i < |A| && 0 <= j < |B| ==> LanesAt(s, i, j) && LanesAt(s + 1, i, j)
    {
      Whole(k, kn);
      MulMonotone(s, steps, kn);
      MulMonotone(s + 1, steps, kn);
      forall i, j | 0 <= i < |A| && 0 <= j < |B| ensures LanesAt(s, i, j) && LanesAt(s + 1, i, j) {
        assert k <= |A[i]| && k <= |B[j]|;
      }
    }

    /** The tiles of the jobs in [start, end). */
    method RunJobs(g: Grid, start: nat, end: nat) returns (job: nat)
      requires Valid() && g.Valid() && g.m <= |A| && g.n <= |B| && end <= g.Tiles()
      modifies C
      ensures if start < end then job == end else job == start
      ensures forall i: nat, j: nat :: i < C.Length1 && j < C.Length0 ==>
        C[j, i] == if i < |A| && j < |B| && JobIn(g, start, job, i, j) then Cell(i, j) else old(C[j, i])
    {
      InsideBounds(g);
      hide Covers; hide JobOf; hide Row; hide Col; hide InTile; hide Cell;
      job := start;
      while job < end
        invariant start <= job && (job <= end || job == start)
        invariant forall i: nat, j: nat :: i < C.Length1 && j < C.Length0 ==>
          C[j, i] == if i < |A| && j < |B| && JobIn(g, start, job, i, j) then Cell(i, j) else old(C[j, i])
      {
        TileInside(g, job);
        TileKernel(Row(g, job), Col(g, job), g.mc, g.nc);
        forall i: nat, j: nat | i < C.Length1 && j < C.Length0
          ensures JobIn(g, start, job + 1, i, j) <==>
            JobIn(g, start, job, i, j) || InTile(Row(g, job), Col(g, job), g.mc, g.nc, i, j)
        {
          JobCells(g, job, i, j);
        }
        job := job + 1;
      }
    }

    /** `gemm<RM, RN>`: this thread's run of tiles. */
    method Gemm(g: Grid)
      requires Valid() && g.Valid() && g.m <= |A| && g.n <= |B|
      modifies C
      ensures forall i: nat, j: nat :: i < C.Length1 && j < C.Length0 ==>
        C[j, i] == if i < |A| && j < |B| && CellOnDuty(g, nth, ith, i, j) then Cell(i, j) else old(C[j, i])
    {
      hide Covers; hide JobIn; hide CellOnDuty; hide Cell; hide Duty; hide FirstJob;
      var tiles := g.Tiles();
      var duty := Duty(tiles, nth);
      var start := FirstJob(tiles, nth, ith);
      var end := if start + duty > tiles then tiles else start + duty;
      var job := RunJobs(g, start, end);
      DutyRangeEverywhere(g, nth, ith, job);
    }

    /** `mnpack`: the largest block of whole tiles, then the strips below and to the right of it. */
    method Mnpack(m0: nat, m: nat, n0: nat, n: nat)
      requires Valid() && m0 <= m <= |A| && n0 <= n <= |B|
      modifies C
      ensures forall i: nat, j: nat :: i < C.Length1 && j < C.Length0 ==>
        C[j, i] == if Writes(variant, nth, ith, m0, m, n0, n, i, j) > 0 && i < |A|
          && j < |B| then Cell(i, j) else old(C[j, i])
      decreases (m - m0) + (n - n0)
    {
      if m0 == m || n0 == n { return; }
      var tile := TileOf(variant, m - m0, n - n0);
      TileFits(variant, m - m0, n - n0);
      AlignedBounds(m0, m, tile.mc);
      AlignedBounds(n0, n, tile.nc);
      var g := Grid(m0, m, n0, n, tile.mc, tile.nc);
      Gemm(g);
      var mp, np := m0 + (m - m0) / tile.mc * tile.mc, n0 + (n - n0) / tile.nc * tile.nc;
      Mnpack(mp, m, n0, np);
      Mnpack(m0, m, np, n);
    }

    method Matmul()
      requires Valid()
      modifies C
      ensures forall i: nat, j: nat :: i < C.Length1 && j < C.Length0 ==>
        C[j, i] == if Writes(variant, nth, ith, 0, |A|, 0, |B|, i, j) > 0 && i < |A|
          && j < |B| then Cell(i, j) else old(C[j, i])
    {
      Mnpack(0, |A|, 0, |B|);
    }
  }

  lemma PositiveFactor(x: nat, y: nat, job: nat)
    requires job < x * y
    ensures 0 < x
  {
  }

  lemma TileInside(g: Grid, job: nat)
    requires g.Valid() && job < g.Tiles()
    ensures 0 < g.XTiles()
    ensures Row(g, job) + g.mc <= g.m && Col(g, job) + g.nc <= g.n
  {
    PositiveFactor(g.XTiles(), g.YTiles(), job);
    JobParts(job, g.XTiles(), g.YTiles());
    AlignedBounds(g.m0, g.m, g.mc);
    AlignedBounds(g.n0, g.n, g.nc);
    TileEnds(Quot(job, g.XTiles()), Row(g, job) + g.mc - 1, g.m0, g.m, g.mc);
    TileEnds(Rem(job, g.XTiles()), Col(g, job) + g.nc - 1, g.n0, g.n, g.nc);
  }

  // ---- Threads side by side -------------------------------------------------------------------------

  /** One store of the kernel: thread `t` writes cell (i, j). */
  datatype CellStore = CellStore(t: nat, i: nat, j: nat)

  /** A log of stores in which every thread makes exactly its own, in whatever order. */
  ghost predicate Interleaving(v: Variant, nth: nat, m: nat, n: nat, log: seq<CellStore>)
    requires 0 < nth
  {
    forall x: CellStore :: multiset(log)[x] == if x.t < nth then Writes(v, nth, x.t, 0, m, 0, n, x.i, x.j) else 0
  }

  /** C after the stores of a log; what a store writes depends on its cell alone. */
  function Stored(
      A: seq<seq<real>>, B: seq<seq<real>>, kn: nat, k: nat, C0: (nat, nat) -> real, log: seq<CellStore>, i: nat,
      j: nat): real
    requires 0 < kn && k % kn == 0 && i < |A| && j < |B| && k <= |A[i]| && k <= |B[j]|
  {
    if log == [] then C0(i, j)
    else
      var x := log[|log| - 1];
      if x.i == i && x.j == j then (Whole(k, kn); Hsum(Lanes(A[i], B[j], kn, k / kn)))
      else Stored(A, B, kn, k, C0, log[..|log| - 1], i, j)
  }

  lemma {:induction false} StoredOnce(
      A: seq<seq<real>>, B: seq<seq<real>>, kn: nat, k: nat, C0: (nat, nat) -> real, log: seq<CellStore>, i: nat,
      j: nat, p: nat)
    requires 0 < kn && k % kn == 0 && i < |A| && j < |B| && k <= |A[i]| && k <= |B[j]|
    requires p < |log| && log[p].i == i && log[p].j == j
    ensures Stored(A, B, kn, k, C0, log, i, j) == Dot(A[i], B[j], k)
    decreases |log|
  {
    hide Hsum; hide Lanes; hide Dot;
    var x := log[|log| - 1];
    if x.i == i && x.j == j {
      Whole(k, kn);
      LanesAreDot(A[i], B[j], kn, k / kn);
    } else {
      StoredOnce(A, B, kn, k, C0, log[..|log| - 1], i, j, p);
    }
  }

  /** However the threads' stores interleave, C becomes the product, and every store is to a cell of it. */
  lemma AnyInterleaving(
      v: Variant, kn: nat, k: nat, A: seq<seq<real>>, B: seq<seq<real>>, C0: (nat, nat) -> real, nth: nat,
      log: seq<CellStore>)
    requires 0 < kn && k % kn == 0 && 0 < nth
    requires (forall i :: 0 <= i < |A| ==> k <= |A[i]|) && (forall j :: 0 <= j < |B| ==> k <= |B[j]|)
    requires Interleaving(v, nth, |A|, |B|, log)
    ensures forall i, j :: 0 <= i < |A| && 0 <= j < |B| ==> Stored(A, B, kn, k, C0, log, i, j) == Dot(A[i], B[j], k)
    ensures forall p :: 0 <= p < |log| ==> log[p].t < nth && log[p].i < |A| && log[p].j < |B|
    ensures forall p, q :: 0 <= p < q < |log| ==> log[p].i != log[q].i || log[p].j != log[q].j
  {
    hide Writes; hide Stored; hide Dot;
    forall i, j | 0 <= i < |A| && 0 <= j < |B| ensures Stored(A, B, kn, k, C0, log, i, j) == Dot(A[i], B[j], k) {
      var owner := ExactlyOnce(v, nth, 0, |A|, 0, |B|, i, j);
      var x := CellStore(owner, i, j);
      assert multiset(log)[x] == 1;
      assert x in multiset(log);
      var p :| 0 <= p < |log| && log[p] == x;
      StoredOnce(A, B, kn, k, C0, log, i, j, p);
    }
    forall p | 0 <= p < |log|
      ensures log[p].t < nth && log[p].i < |A| && log[p].j < |B|
    {
      InsideStore(v, nth, |A|, |B|, log, p);
    }
    forall p, q | 0 <= p < q < |log| ensures log[p].i != log[q].i || log[p].j != log[q].j {
      OnlyStore(v, nth, |A|, |B|, log, p, q);
    }
  }

  lemma InsideStore(v: Variant, nth: nat, m: nat, n: nat, log: seq<CellStore>, p: nat)
    requires 0 < nth && Interleaving(v, nth, m, n, log) && p < |log|
    ensures log[p].t < nth && log[p].i < m && log[p].j < n
  {
    hide Writes;
    var x := log[p];
    assert x in multiset(log);
    if !InRegion(0, m, 0, n, x.i, x.j) { OutsideUntouched(v, nth, x.t, 0, m, 0, n, x.i, x.j); }
  }

  /** No cell is stored twice, by one thread or by two. */
  lemma OnlyStore(v: Variant, nth: nat, m: nat, n: nat, log: seq<CellStore>, p: nat, q: nat)
    requires 0 < nth && Interleaving(v, nth, m, n, log) && p < q < |log|
    ensures log[p].i != log[q].i || log[p].j != log[q].j
  {
    hide Writes;
    InsideStore(v, nth, m, n, log, p);
    InsideStore(v, nth, m, n, log, q);
    var x := log[p];
    var owner := ExactlyOnce(v, nth, 0, m, 0, n, x.i, x.j);
    assert x in multiset(log) && log[q] in multiset(log);
    assert multiset(log)[x] == 1;
    CountTwo(log, p, q);
  }

  lemma CountTwo<T>(s: seq<T>, p: nat, q: nat)
    requires p < q < |s|
    ensures s[p] == s[q] ==> multiset(s)[s[p]] >= 2
  {
    assert s == s[..p + 1] + s[p + 1..];
    assert s[p] == s[..p + 1][p] && s[q] == s[p + 1..][q - p - 1];
  }

  /** All threads, in any order: C becomes the product of A and the transpose of B. */
  method Sgemm(
      v: Variant, kn: nat, k: nat, A: seq<seq<real>>, B: seq<seq<real>>, C: array2<real>, nth: nat, order: seq<nat>)
    requires 0 < kn && k % kn == 0 && 0 < nth
    requires (forall i :: 0 <= i < |A| ==> k <= |A[i]|) && (forall j :: 0 <= j < |B| ==> k <= |B[j]|)
    requires |A| <= C.Length1 && |B| <= C.Length0
    requires (forall x :: x in order ==> x < nth) && forall t: nat :: t < nth ==> t in order
    modifies C
    ensures forall i: nat, j: nat :: i < |A| && j < |B| ==> C[j, i] == Dot(A[i], B[j], k)
    ensures forall i: nat, j: nat :: i < C.Length1 && j < C.Length0 && (|A| <= i || |B| <= j) ==>
      C[j, i] == old(C[j, i])
  {
    for x := 0 to |order|
      invariant forall i: nat, j: nat ::
        i < |A| && j < |B| && (exists y :: 0 <= y < x && Writes(v, nth, order[y], 0, |A|, 0, |B|, i, j) > 0) ==>
        C[j, i] == Dot(A[i], B[j], k)
      invariant forall i: nat, j: nat :: i < C.Length1 && j < C.Length0 && (|A| <= i || |B| <= j) ==>
        C[j, i] == old(C[j, i])
    {
      assert order[x] in order;
      var worker := new TinyBlas(v, kn, k, A, B, C, order[x], nth);
      worker.Matmul();
    }
    forall i: nat, j: nat | i < |A| && j < |B| ensures C[j, i] == Dot(A[i], B[j], k) {
      var owner := ExactlyOnce(v, nth, 0, |A|, 0, |B|, i, j);
      assert owner in order;
    }
  }
}
