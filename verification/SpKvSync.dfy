/** Sequence-parallel KV caches: every rank holds the full sequence, writes only its own slice
    (src/nn/nn-core.cpp, src/nn/nn-cpu-ops.cpp), and a pairwise exchange over zero-capacity channels
    copies the active rows of every slice to every rank (src/nn/nn-network.cpp). */
module SpKvSync {
  import opened Common

  type Row = seq<real>

  /** `size` ranks with `local` positions each, as `sliceKvCache` cuts the sequence. */
  datatype Group = Group(size: nat, local: nat)
  {
    predicate Valid() { 0 < size && 0 < local }
    function SeqLen(): nat { size * local }
    function Start(p: nat): nat { p * local }
    function Owner(x: nat): nat requires Valid() { x / local }
  }

  /** Rows of slice `p` at positions up to `maxPos`: what `p` sends and what everybody expects of `p`. */
  function ActiveRows(g: Group, maxPos: nat, p: nat): nat
  {
    var end := g.Start(p) + g.local;
    var active := if maxPos + 1 < end then maxPos + 1 else end;
    if active > g.Start(p) then active - g.Start(p) else 0
  }

  predicate Cache(g: Group, c: seq<Row>) { |c| == g.SeqLen() }

  predicate Caches(g: Group, cs: seq<seq<Row>>) { |cs| == g.size && forall i :: 0 <= i < g.size ==> Cache(g, cs[i]) }

  // ---- Guarded writes ---------------------------------------------------------------------------

  /** One forward's new rows: `rows[b]` belongs at position `at[b]`. */
  datatype Batch = Batch(at: seq<nat>, rows: seq<Row>)

  predicate Fits(g: Group, b: Batch)
  { |b.at| == |b.rows| && 0 < |b.at| && forall i :: 0 <= i < |b.at| ==> b.at[i] < g.SeqLen() }

  predicate InSlice(g: Group, rank: nat, x: nat) { g.Start(rank) <= x < g.Start(rank) + g.local }

  /** The cache after the first `n` rows of a batch; a rank writes only its slice. */
  function Shifted(g: Group, c: seq<Row>, b: Batch, n: nat, rank: nat, guarded: bool): (r: seq<Row>)
    requires Fits(g, b) && Cache(g, c) && n <= |b.at|
    ensures Cache(g, r)
  {
    if n == 0 then c
    else
      var before := Shifted(g, c, b, n - 1, rank, guarded);
      if guarded && !InSlice(g, rank, b.at[n - 1]) then before else before[b.at[n - 1] := b.rows[n - 1]]
  }

  /** `shiftForward_F32_F32`. A slice length of 0 switches the guard off. */
  method ShiftForward(g: Group, output: array<Row>, b: Batch, localSeqStart: nat, localSeqLen: nat, ghost rank: nat)
    requires Fits(g, b) && output.Length == g.SeqLen()
    requires 0 < localSeqLen ==> localSeqLen == g.local && localSeqStart == g.Start(rank)
    modifies output
    ensures output[..] == Shifted(g, old(output[..]), b, |b.at|, rank, 0 < localSeqLen)
  {
    for batchIndex := 0 to |b.at|
      invariant output[..] == Shifted(g, old(output[..]), b, batchIndex, rank, 0 < localSeqLen)
    {
      var index := b.at[batchIndex];
      if localSeqLen > 0 && (index < localSeqStart || index >= localSeqStart + localSeqLen) { continue; }
      output[index] := b.rows[batchIndex];
    }
  }

  /** In its own slice a guarded rank does what the undivided cache does; outside it does nothing. */
  lemma {:induction false} GuardedWrites(g: Group, c: seq<Row>, whole: seq<Row>, b: Batch, n: nat, rank: nat, x: nat)
    requires Fits(g, b) && Cache(g, c) && Cache(g, whole) && n <= |b.at| && x < g.SeqLen()
    ensures !InSlice(g, rank, x) ==> Shifted(g, c, b, n, rank, true)[x] == c[x]
    ensures InSlice(g, rank, x) && c[x] == whole[x] ==>
      Shifted(g, c, b, n, rank, true)[x] == Shifted(g, whole, b, n, rank, false)[x]
    decreases n
  {
    if n > 0 { GuardedWrites(g, c, whole, b, n - 1, rank, x); }
  }

  lemma {:induction false} UnguardedIgnoresRank(g: Group, c: seq<Row>, b: Batch, n: nat, r: nat, s: nat)
    requires Fits(g, b) && Cache(g, c) && n <= |b.at|
    ensures Shifted(g, c, b, n, r, false) == Shifted(g, c, b, n, s, false)
    decreases n
  {
    if n > 0 { UnguardedIgnoresRank(g, c, b, n - 1, r, s); }
  }

  /** The largest position of a batch, found as `sync` finds it. */
  method MaxPosition(at: seq<nat>) returns (maxPos: nat)
    ensures forall i :: 0 <= i < |at| ==> at[i] <= maxPos
    ensures at != [] ==> maxPos in at
    ensures at == [] ==> maxPos == 0
  {
    maxPos := 0;
    for b := 0 to |at|
      invariant forall i :: 0 <= i < b ==> at[i] <= maxPos
      invariant 0 < b ==> maxPos in at
      invariant b == 0 ==> maxPos == 0
    {
      if at[b] > maxPos { maxPos := at[b]; }
      assert at[b] in at;
    }
  }

  // ---- The exchange -------------------------------------------------------------------------------

  /** Where a rank is in its loop: the peer, and the next of four transfers with it (the lower rank's
      keys and values, then the higher rank's). */
  datatype Pc = Pc(peer: nat, ev: nat)

  datatype State = State(pcs: seq<Pc>, ks: seq<seq<Row>>, vs: seq<seq<Row>>)

  /** Who sends in transfer `e` of the pair {i, p}. */
  function Source(i: nat, p: nat, e: nat): nat
  {
    if e < 2 then (if i < p then i else p) else (if i < p then p else i)
  }

  predicate Skips(g: Group, maxPos: nat, i: nat, p: nat, e: nat) { ActiveRows(g, maxPos, Source(i, p, e)) == 0 }

  function Advance(pc: Pc): Pc { if pc.ev == 3 then Pc(pc.peer + 1, 0) else Pc(pc.peer, pc.ev + 1) }

  /** `Skip(i)`: rank i passes itself or a transfer without rows. `Meet(i)`: rank i's write meets its peer's read. */
  datatype Action = Skip(i: nat) | Meet(i: nat)

  predicate Shape(g: Group, s: State)
  {
    && |s.pcs| == g.size && Caches(g, s.ks) && Caches(g, s.vs)
    && forall i :: 0 <= i < g.size ==> PcOk(g, i, s.pcs[i])
  }

  predicate PcOk(g: Group, i: nat, pc: Pc)
  { pc.peer <= g.size && pc.ev < 4 && ((pc.peer == g.size || pc.peer == i) ==> pc.ev == 0) }

  predicate Enabled(g: Group, maxPos: nat, s: State, a: Action)
    requires Shape(g, s)
  {
    a.i < g.size && s.pcs[a.i].peer < g.size &&
    var p, e := s.pcs[a.i].peer, s.pcs[a.i].ev;
    match a
    case Skip(i) => p == i || Skips(g, maxPos, i, p, e)
    case Meet(i) => p != i && !Skips(g, maxPos, i, p, e) && Source(i, p, e) == i && s.pcs[p] == Pc(i, e)
  }

  lemma SliceBounds(g: Group, maxPos: nat, p: nat)
    requires p < g.size
    ensures g.Start(p) + g.local <= g.SeqLen() && ActiveRows(g, maxPos, p) <= g.local
  {
    MulMonotone(p + 1, g.size, g.local);
    assert (p + 1) * g.local == p * g.local + g.local;
  }

  /** The reader's rows of slice `src` become the sender's. */
  function CopyRows(g: Group, maxPos: nat, to: seq<Row>, from: seq<Row>, src: nat): (r: seq<Row>)
    requires Cache(g, to) && Cache(g, from) && src < g.size
    ensures Cache(g, r)
  {
    SliceBounds(g, maxPos, src);
    var at, n := g.Start(src), ActiveRows(g, maxPos, src);
    to[..at] + from[at..at + n] + to[at + n..]
  }

  function Apply(g: Group, maxPos: nat, s: State, a: Action): State
    requires Shape(g, s) && Enabled(g, maxPos, s, a)
  {
    var pc := s.pcs[a.i];
    match a
    case Skip(i) => s.(pcs := s.pcs[i := if pc.peer == i then Pc(i + 1, 0) else Advance(pc)])
    case Meet(i) =>
      var p := pc.peer;
      var pcs := s.pcs[i := Advance(pc)][p := Advance(s.pcs[p])];
      if pc.ev % 2 == 0 then State(pcs, s.ks[p := CopyRows(g, maxPos, s.ks[p], s.ks[i], i)], s.vs)
      else State(pcs, s.ks, s.vs[p := CopyRows(g, maxPos, s.vs[p], s.vs[i], i)])
  }

  function Begin(g: Group, ks: seq<seq<Row>>, vs: seq<seq<Row>>): State { State(seq(g.size, _ => Pc(0, 0)), ks, vs) }

  ghost predicate IsRun(
      g: Group, maxPos: nat, ks: seq<seq<Row>>, vs: seq<seq<Row>>, run: seq<Action>, states: seq<State>)
  {
    && |states| == |run| + 1 && states[0] == Begin(g, ks, vs)
    && forall m :: 0 <= m < |run| ==>
         Shape(g, states[m]) && Enabled(g, maxPos, states[m], run[m])
           && states[m + 1] == Apply(g, maxPos, states[m], run[m])
  }

  // ---- The invariant --------------------------------------------------------------------------------

  /** How many of the four transfers with `p` a rank at `pc` has behind it. */
  function Prog(pc: Pc, p: nat): nat { if p < pc.peer then 4 else if p == pc.peer then pc.ev else 0 }

  /** Two ranks disagree about their common transfers only by ones that carry nothing. */
  predicate PairOk(g: Group, maxPos: nat, s: State, i: nat, p: nat)
    requires Shape(g, s) && i < g.size && p < g.size
  {
    forall e :: Prog(s.pcs[i], p) <= e < Prog(s.pcs[p], i) ==> Skips(g, maxPos, i, p, e)
  }

  /** Has rank `i` the rows of slice `p` (transfer `e0` of the lower rank, `e0 + 2` of the higher)? */
  predicate Has(pc: Pc, i: nat, p: nat, e0: nat) { p != i && Prog(pc, p) > (if p < i then e0 else e0 + 2) }

  ghost predicate RowOk(g: Group, maxPos: nat, c0: seq<seq<Row>>, c: seq<Row>, pc: Pc, i: nat, e0: nat, x: nat)
    requires g.Valid() && Caches(g, c0) && Cache(g, c) && i < g.size && x < g.SeqLen()
  {
    OwnerBounds(g, x);
    c[x] == if x <= maxPos && Has(pc, i, g.Owner(x), e0) then c0[g.Owner(x)][x] else c0[i][x]
  }

  lemma OwnerBounds(g: Group, x: nat)
    requires g.Valid() && x < g.SeqLen()
    ensures g.Owner(x) < g.size && InSlice(g, g.Owner(x), x)
  {
    var q := x / g.local;
    assert q * g.local <= x < q * g.local + g.local;
    MulMonotone(g.size, q, g.local);
  }

  lemma SlicesDisjoint(g: Group, p: nat, q: nat, x: nat)
    requires g.Valid() && InSlice(g, p, x) && InSlice(g, q, x)
    ensures p == q
  {
    MulMonotone(p + 1, q, g.local);
    MulMonotone(q + 1, p, g.local);
    assert (p + 1) * g.local == p * g.local + g.local && (q + 1) * g.local == q * g.local + g.local;
  }

  ghost predicate CacheOk(g: Group, maxPos: nat, c0: seq<seq<Row>>, c: seq<Row>, pc: Pc, i: nat, e0: nat)
    requires g.Valid() && Caches(g, c0) && Cache(g, c) && i < g.size
  {
    forall x: nat :: x < g.SeqLen() ==> RowOk(g, maxPos, c0, c, pc, i, e0, x)
  }

  ghost predicate Inv(g: Group, maxPos: nat, ks: seq<seq<Row>>, vs: seq<seq<Row>>, s: State)
    requires g.Valid() && Caches(g, ks) && Caches(g, vs)
  {
    && Shape(g, s)
    && (forall i, p :: 0 <= i < g.size && 0 <= p < g.size && i != p ==> PairOk(g, maxPos, s, i, p))
    && (forall i :: 0 <= i < g.size ==> CacheOk(g, maxPos, ks, s.ks[i], s.pcs[i], i, 0))
    && (forall i :: 0 <= i < g.size ==> CacheOk(g, maxPos, vs, s.vs[i], s.pcs[i], i, 1))
  }

  lemma InvInitially(g: Group, maxPos: nat, ks: seq<seq<Row>>, vs: seq<seq<Row>>)
    requires g.Valid() && Caches(g, ks) && Caches(g, vs)
    ensures Inv(g, maxPos, ks, vs, Begin(g, ks, vs))
  {
    var s := Begin(g, ks, vs);
    assert Shape(g, s);
    forall i | 0 <= i < g.size
      ensures CacheOk(g, maxPos, ks, s.ks[i], s.pcs[i], i, 0) && CacheOk(g, maxPos, vs, s.vs[i], s.pcs[i], i, 1)
    {
    }
  }

  lemma AdvanceProg(pc: Pc, p: nat)
    requires pc.ev < 4
    ensures Prog(Advance(pc), p) == if p == pc.peer then pc.ev + 1 else Prog(pc, p)
  {
  }

  lemma PassSelf(pc: Pc, p: nat)
    requires pc.ev == 0 && p != pc.peer
    ensures Prog(Pc(pc.peer + 1, 0), p) == Prog(pc, p)
  {
  }

  /** A row is in the part of slice `src` that is sent exactly when `src` owns it and it is active. */
  lemma SentRows(g: Group, maxPos: nat, src: nat, x: nat)
    requires g.Valid() && src < g.size && x < g.SeqLen()
    ensures g.Start(src) <= x < g.Start(src) + ActiveRows(g, maxPos, src) <==> x <= maxPos && g.Owner(x) == src
  {
    OwnerBounds(g, x);
    ActiveInSlice(g, maxPos, src, x);
    if InSlice(g, src, x) { SlicesDisjoint(g, src, g.Owner(x), x); }
  }

  lemma ActiveInSlice(g: Group, maxPos: nat, src: nat, x: nat)
    ensures g.Start(src) <= x < g.Start(src) + ActiveRows(g, maxPos, src) <==> x <= maxPos && InSlice(g, src, x)
  {
  }

  lemma CopyRowsAt(g: Group, maxPos: nat, to: seq<Row>, from: seq<Row>, src: nat, x: nat)
    requires g.Valid() && Cache(g, to) && Cache(g, from) && src < g.size && x < g.SeqLen()
    ensures CopyRows(g, maxPos, to, from, src)[x] == if x <= maxPos && g.Owner(x) == src then from[x] else to[x]
  {
    SliceBounds(g, maxPos, src);
    SentRows(g, maxPos, src, x);
  }

  /** Without rows to send, having them or not makes no difference. */
  lemma SkippedRows(g: Group, maxPos: nat, x: nat)
    requires g.Valid() && x < g.SeqLen() && ActiveRows(g, maxPos, g.Owner(x)) == 0
    ensures maxPos < x
  {
    OwnerBounds(g, x);
    SentRows(g, maxPos, g.Owner(x), x);
  }

  lemma CacheAfterSkip(g: Group, maxPos: nat, c0: seq<seq<Row>>, c: seq<Row>, pc: Pc, i: nat, e0: nat)
    requires g.Valid() && Caches(g, c0) && Cache(g, c) && i < g.size && CacheOk(g, maxPos, c0, c, pc, i, e0)
    requires PcOk(g, i, pc) && pc.peer != i && Skips(g, maxPos, i, pc.peer, pc.ev) && pc.peer < g.size && e0 < 2
    ensures CacheOk(g, maxPos, c0, c, Advance(pc), i, e0)
  {
    forall x: nat | x < g.SeqLen() ensures RowOk(g, maxPos, c0, c, Advance(pc), i, e0, x) {
      assert RowOk(g, maxPos, c0, c, pc, i, e0, x);
      OwnerBounds(g, x);
      AdvanceProg(pc, g.Owner(x));
      if g.Owner(x) == pc.peer && Source(i, pc.peer, pc.ev) == pc.peer { SkippedRows(g, maxPos, x); }
    }
  }

  lemma CacheAfterSelf(g: Group, maxPos: nat, c0: seq<seq<Row>>, c: seq<Row>, pc: Pc, i: nat, e0: nat)
    requires g.Valid() && Caches(g, c0) && Cache(g, c) && i < g.size && CacheOk(g, maxPos, c0, c, pc, i, e0)
    requires PcOk(g, i, pc) && pc.peer == i
    ensures CacheOk(g, maxPos, c0, c, Pc(i + 1, 0), i, e0)
  {
    var next := Pc(i + 1, 0);
    forall x: nat | x < g.SeqLen() ensures RowOk(g, maxPos, c0, c, next, i, e0, x) {
      assert RowOk(g, maxPos, c0, c, pc, i, e0, x);
      if g.Owner(x) != i { PassSelf(pc, g.Owner(x)); }
    }
  }

  /** The sender's cache does not change, and its own slice is what it started with. */
  lemma CacheAfterSend(g: Group, maxPos: nat, c0: seq<seq<Row>>, c: seq<Row>, pc: Pc, i: nat, e0: nat)
    requires g.Valid() && Caches(g, c0) && Cache(g, c) && i < g.size && CacheOk(g, maxPos, c0, c, pc, i, e0)
    requires PcOk(g, i, pc) && pc.peer < g.size && pc.peer != i && Source(i, pc.peer, pc.ev) == i && e0 < 2
    ensures CacheOk(g, maxPos, c0, c, Advance(pc), i, e0)
  {
    forall x: nat | x < g.SeqLen() ensures RowOk(g, maxPos, c0, c, Advance(pc), i, e0, x) {
      assert RowOk(g, maxPos, c0, c, pc, i, e0, x);
      AdvanceProg(pc, g.Owner(x));
    }
  }

  /** The reader's cache: `took` says that this is the cache the transfer belongs to. */
  lemma CacheAfterRecv(
      g: Group, maxPos: nat, c0: seq<seq<Row>>, c: seq<Row>, sender: seq<Row>, senderPc: Pc, pc: Pc, i: nat, e0: nat,
      took: bool)
    requires g.Valid() && Caches(g, c0) && Cache(g, c) && Cache(g, sender) && i < g.size
      && CacheOk(g, maxPos, c0, c, pc, i, e0)
    requires PcOk(g, i, pc) && pc.peer < g.size && pc.peer != i && Source(i, pc.peer, pc.ev) == pc.peer && e0 < 2
    requires CacheOk(g, maxPos, c0, sender, senderPc, pc.peer, e0)
    requires took <==> pc.ev % 2 == e0
    ensures CacheOk(g, maxPos, c0, if took then CopyRows(g, maxPos, c, sender, pc.peer) else c, Advance(pc), i, e0)
  {
    var c' := if took then CopyRows(g, maxPos, c, sender, pc.peer) else c;
    forall x: nat | x < g.SeqLen() ensures RowOk(g, maxPos, c0, c', Advance(pc), i, e0, x) {
      assert RowOk(g, maxPos, c0, c, pc, i, e0, x) && RowOk(g, maxPos, c0, sender, senderPc, pc.peer, e0, x);
      AdvanceProg(pc, g.Owner(x));
      CopyRowsAt(g, maxPos, c, sender, pc.peer, x);
    }
  }

  lemma PairAfterSkip(g: Group, maxPos: nat, s: State, s': State, i: nat, j: nat, p: nat)
    requires Shape(g, s) && Shape(g, s') && i < g.size && j < g.size && p < g.size && j != p
    requires s.pcs[i].peer < g.size && (s.pcs[i].peer == i || Skips(g, maxPos, i, s.pcs[i].peer, s.pcs[i].ev))
    requires s'.pcs == s.pcs[i := if s.pcs[i].peer == i then Pc(i + 1, 0) else Advance(s.pcs[i])]
    requires PairOk(g, maxPos, s, j, p)
    ensures PairOk(g, maxPos, s', j, p)
  {
    if s.pcs[i].peer == i {
      if j == i { PassSelf(s.pcs[i], p); }
      if p == i { PassSelf(s.pcs[i], j); }
    } else {
      if j == i { AdvanceProg(s.pcs[i], p); }
      if p == i { AdvanceProg(s.pcs[i], j); }
    }
  }

  lemma PairAfterMeet(g: Group, maxPos: nat, s: State, s': State, i: nat, q: nat, j: nat, p: nat)
    requires Shape(g, s) && Shape(g, s') && i < g.size && q < g.size && j < g.size && p < g.size && j != p && i != q
    requires s.pcs[i].peer == q && s.pcs[q] == Pc(i, s.pcs[i].ev)
    requires s'.pcs == s.pcs[i := Advance(s.pcs[i])][q := Advance(s.pcs[q])]
    requires PairOk(g, maxPos, s, j, p)
    ensures PairOk(g, maxPos, s', j, p)
  {
    AdvanceProg(s.pcs[j], p);
    AdvanceProg(s.pcs[p], j);
  }

  lemma SkipShape(g: Group, maxPos: nat, s: State, a: Action)
    requires Shape(g, s) && Enabled(g, maxPos, s, a)
    ensures Shape(g, Apply(g, maxPos, s, a))
  {
  }

  lemma SkipKeepsInv(g: Group, maxPos: nat, ks: seq<seq<Row>>, vs: seq<seq<Row>>, s: State, i: nat)
    requires g.Valid() && Caches(g, ks) && Caches(g, vs) && Inv(g, maxPos, ks, vs, s) && Enabled(g, maxPos, s, Skip(i))
    ensures Inv(g, maxPos, ks, vs, Apply(g, maxPos, s, Skip(i)))
  {
    hide CacheOk; hide PairOk; hide CopyRows; hide Advance;
    var s' := Apply(g, maxPos, s, Skip(i));
    SkipShape(g, maxPos, s, Skip(i));
    forall j, p | 0 <= j < g.size && 0 <= p < g.size && j != p ensures PairOk(g, maxPos, s', j, p) {
      PairAfterSkip(g, maxPos, s, s', i, j, p);
    }
    if s.pcs[i].peer == i {
      CacheAfterSelf(g, maxPos, ks, s.ks[i], s.pcs[i], i, 0);
      CacheAfterSelf(g, maxPos, vs, s.vs[i], s.pcs[i], i, 1);
    } else {
      CacheAfterSkip(g, maxPos, ks, s.ks[i], s.pcs[i], i, 0);
      CacheAfterSkip(g, maxPos, vs, s.vs[i], s.pcs[i], i, 1);
    }
  }

  lemma MeetKeepsInv(g: Group, maxPos: nat, ks: seq<seq<Row>>, vs: seq<seq<Row>>, s: State, i: nat)
    requires g.Valid() && Caches(g, ks) && Caches(g, vs) && Inv(g, maxPos, ks, vs, s) && Enabled(g, maxPos, s, Meet(i))
    ensures Inv(g, maxPos, ks, vs, Apply(g, maxPos, s, Meet(i)))
  {
    hide CacheOk; hide PairOk; hide CopyRows; hide Advance;
    var s' := Apply(g, maxPos, s, Meet(i));
    var p, e := s.pcs[i].peer, s.pcs[i].ev;
    SkipShape(g, maxPos, s, Meet(i));
    forall j, q | 0 <= j < g.size && 0 <= q < g.size && j != q ensures PairOk(g, maxPos, s', j, q) {
      PairAfterMeet(g, maxPos, s, s', i, p, j, q);
    }
    CacheAfterSend(g, maxPos, ks, s.ks[i], s.pcs[i], i, 0);
    CacheAfterSend(g, maxPos, vs, s.vs[i], s.pcs[i], i, 1);
    CacheAfterRecv(g, maxPos, ks, s.ks[p], s.ks[i], s.pcs[i], s.pcs[p], p, 0, e % 2 == 0);
    CacheAfterRecv(g, maxPos, vs, s.vs[p], s.vs[i], s.pcs[i], s.pcs[p], p, 1, e % 2 == 1);
  }

  lemma {:induction false} RunKeepsInv(
      g: Group, maxPos: nat, ks: seq<seq<Row>>, vs: seq<seq<Row>>, run: seq<Action>, states: seq<State>, m: nat)
    requires g.Valid() && Caches(g, ks) && Caches(g, vs) && IsRun(g, maxPos, ks, vs, run, states) && m < |states|
    ensures Inv(g, maxPos, ks, vs, states[m])
  {
    hide Inv; hide Apply; hide Enabled;
    if m == 0 {
      InvInitially(g, maxPos, ks, vs);
    } else {
      RunKeepsInv(g, maxPos, ks, vs, run, states, m - 1);
      var s := states[m - 1];
      if run[m - 1].Skip? { SkipKeepsInv(g, maxPos, ks, vs, s, run[m - 1].i); }
          else { MeetKeepsInv(g, maxPos, ks, vs, s, run[m - 1].i); }
    }
  }

  // ---- Deadlock freedom -------------------------------------------------------------------------------

  predicate Done(g: Group, s: State)
    requires Shape(g, s)
  {
    forall i :: 0 <= i < g.size ==> s.pcs[i].peer == g.size
  }

  /** The unfinished rank below `n` whose pair comes first in the order by the sum of the two ranks. */
  lemma {:induction false} First(g: Group, s: State, n: nat) returns (found: bool, i: nat)
    requires Shape(g, s) && n <= g.size
    ensures found ==> i < n && s.pcs[i].peer < g.size
    ensures found ==> forall j :: 0 <= j < n && s.pcs[j].peer < g.size ==> i + s.pcs[i].peer <= j + s.pcs[j].peer
    ensures !found ==> forall j :: 0 <= j < n ==> s.pcs[j].peer == g.size
  {
    if n == 0 {
      found, i := false, 0;
    } else {
      found, i := First(g, s, n - 1);
      if s.pcs[n - 1].peer < g.size && (!found || n - 1 + s.pcs[n - 1].peer < i + s.pcs[i].peer) {
        found, i := true, n - 1;
      }
    }
  }

  /** The pairwise exchange never deadlocks: the first pair in that order has both its ranks at it. */
  lemma NoDeadlock(g: Group, maxPos: nat, ks: seq<seq<Row>>, vs: seq<seq<Row>>, s: State) returns (a: Action)
    requires g.Valid() && Caches(g, ks) && Caches(g, vs) && Inv(g, maxPos, ks, vs, s) && !Done(g, s)
    ensures Enabled(g, maxPos, s, a)
  {
    hide CacheOk; hide ActiveRows;
    var found, i := First(g, s, g.size);
    var p, e := s.pcs[i].peer, s.pcs[i].ev;
    if p == i || Skips(g, maxPos, i, p, e) { return Skip(i); }
    assert PairOk(g, maxPos, s, i, p) && PairOk(g, maxPos, s, p, i);
    assert Prog(s.pcs[p], i) <= e;
    assert s.pcs[p].peer == i;
    if s.pcs[p].ev < e {
      assert Skips(g, maxPos, p, i, s.pcs[p].ev);
      return Skip(p);
    }
    return if Source(i, p, e) == i then Meet(i) else Meet(p);
  }

  // ---- Outcome ------------------------------------------------------------------------------------------

  function StepsLeft(g: Group, pcs: seq<Pc>): int
  {
    if pcs == [] then 0 else 4 * (g.size - pcs[0].peer) - pcs[0].ev + StepsLeft(g, pcs[1..])
  }

  lemma {:induction false} StepsLeftUpdate(g: Group, pcs: seq<Pc>, i: nat, pc: Pc)
    requires i < |pcs|
    ensures StepsLeft(g, pcs[i := pc]) == StepsLeft(g, pcs) + 4 * (pcs[i].peer - pc.peer) + pcs[i].ev - pc.ev
  {
    if i == 0 {
      assert pcs[0 := pc][1..] == pcs[1..];
    } else {
      assert pcs[i := pc][1..] == pcs[1..][i - 1 := pc];
      StepsLeftUpdate(g, pcs[1..], i - 1, pc);
    }
  }

  lemma {:induction false} StepsLeftPositive(g: Group, pcs: seq<Pc>)
    requires forall i :: 0 <= i < |pcs| ==>
      pcs[i].peer <= g.size && (pcs[i].peer == g.size ==> pcs[i].ev == 0) && pcs[i].ev < 4
    ensures 0 <= StepsLeft(g, pcs)
  {
    if pcs != [] { StepsLeftPositive(g, pcs[1..]); }
  }

  /** Every step leaves fewer to do, so every exchange ends. */
  lemma StepsFall(g: Group, maxPos: nat, s: State, a: Action)
    requires Shape(g, s) && Enabled(g, maxPos, s, a)
    ensures 0 <= StepsLeft(g, Apply(g, maxPos, s, a).pcs) < StepsLeft(g, s.pcs)
  {
    hide StepsLeft; hide CopyRows; hide ActiveRows;
    var s' := Apply(g, maxPos, s, a);
    SkipShape(g, maxPos, s, a);
    StepsLeftPositive(g, s'.pcs);
    var i, pc := a.i, s.pcs[a.i];
    match a
    case Skip(_) => StepsLeftUpdate(g, s.pcs, i, s'.pcs[i]);
    case Meet(_) =>
      StepsLeftUpdate(g, s.pcs, i, Advance(pc));
      StepsLeftUpdate(g, s.pcs[i := Advance(pc)], pc.peer, Advance(s.pcs[pc.peer]));
  }

  /** When the exchange is over, every rank has every active row of every slice from its owner. */
  lemma Exchanged(g: Group, maxPos: nat, ks: seq<seq<Row>>, vs: seq<seq<Row>>, s: State, i: nat, x: nat)
    requires g.Valid() && Caches(g, ks) && Caches(g, vs) && Inv(g, maxPos, ks, vs, s) && Done(g, s)
    requires i < g.size && x < g.SeqLen()
    ensures g.Owner(x) < g.size
    ensures s.ks[i][x] == if x <= maxPos then ks[g.Owner(x)][x] else ks[i][x]
    ensures s.vs[i][x] == if x <= maxPos then vs[g.Owner(x)][x] else vs[i][x]
  {
    OwnerBounds(g, x);
    assert CacheOk(g, maxPos, ks, s.ks[i], s.pcs[i], i, 0) && CacheOk(g, maxPos, vs, s.vs[i], s.pcs[i], i, 1);
    assert RowOk(g, maxPos, ks, s.ks[i], s.pcs[i], i, 0, x) && RowOk(g, maxPos, vs, s.vs[i], s.pcs[i], i, 1, x);
  }

  // ---- Whole runs of forwards -----------------------------------------------------------------------------

  /** Every rank's own slice is what the undivided cache holds there. */
  ghost predicate OwnSlices(g: Group, cs: seq<seq<Row>>, whole: seq<Row>)
    requires Caches(g, cs) && Cache(g, whole)
  {
    forall i: nat, x: nat :: i < g.size && x < g.SeqLen() && InSlice(g, i, x) ==> cs[i][x] == whole[x]
  }

  function Written(g: Group, cs: seq<seq<Row>>, b: Batch): (r: seq<seq<Row>>)
    requires Caches(g, cs) && Fits(g, b)
    ensures Caches(g, r)
  {
    seq(g.size, i requires 0 <= i < g.size => Shifted(g, cs[i], b, |b.at|, i, true))
  }

  lemma WrittenOwnSlices(g: Group, cs: seq<seq<Row>>, whole: seq<Row>, b: Batch)
    requires Caches(g, cs) && Cache(g, whole) && Fits(g, b) && OwnSlices(g, cs, whole)
    ensures OwnSlices(g, Written(g, cs, b), Shifted(g, whole, b, |b.at|, 0, false))
  {
    forall i: nat, x: nat | i < g.size && x < g.SeqLen() && InSlice(g, i, x)
      ensures Written(g, cs, b)[i][x] == Shifted(g, whole, b, |b.at|, 0, false)[x]
    {
      GuardedWrites(g, cs[i], whole, b, |b.at|, i, x);
      UnguardedIgnoresRank(g, whole, b, |b.at|, i, 0);
    }
  }

  /** Keys and values of one layer on all ranks. */
  datatype Layer = Layer(ks: seq<seq<Row>>, vs: seq<seq<Row>>)

  /** The keys and values of one layer in one place: on one rank, or undivided. */
  datatype Kv = Kv(k: seq<Row>, v: seq<Row>)

  predicate LayerOk(g: Group, l: Layer) { Caches(g, l.ks) && Caches(g, l.vs) }
  predicate KvOk(g: Group, u: Kv) { Cache(g, u.k) && Cache(g, u.v) }

  /** One forward's positions with the key and value rows computed for them. */
  datatype Input = Input(at: seq<nat>, k: seq<Row>, v: seq<Row>)
  {
    function Keys(): Batch { Batch(at, k) }
    function Values(): Batch { Batch(at, v) }
  }

  predicate InputOk(g: Group, b: Input) { Fits(g, b.Keys()) && Fits(g, b.Values()) }

  predicate IsMax(at: seq<nat>, m: nat) { m in at && forall i :: 0 <= i < |at| ==> at[i] <= m }

  /** Some completed exchange leads from these caches to `after`. */
  ghost predicate Exchange(g: Group, maxPos: nat, ks: seq<seq<Row>>, vs: seq<seq<Row>>, after: Layer)
  {
    exists run: seq<Action>, states: seq<State> ::
      |states| == |run| + 1 && IsRun(g, maxPos, ks, vs, run, states)
      && Shape(g, states[|run|]) && Done(g, states[|run|]) && after == Layer(states[|run|].ks, states[|run|].vs)
  }

  /** Guarded writes on every rank, then some completed exchange. */
  ghost predicate Forward(g: Group, b: Input, maxPos: nat, l: Layer, l': Layer)
    requires LayerOk(g, l) && InputOk(g, b)
  {
    Exchange(g, maxPos, Written(g, l.ks, b.Keys()), Written(g, l.vs, b.Values()), l')
  }

  function UndividedForward(g: Group, b: Input, u: Kv): (r: Kv)
    requires KvOk(g, u) && InputOk(g, b)
    ensures KvOk(g, r)
  {
    Kv(Shifted(g, u.k, b.Keys(), |b.at|, 0, false), Shifted(g, u.v, b.Values(), |b.at|, 0, false))
  }

  /** After a forward every rank's rows up to the largest position are the undivided cache's. */
  ghost predicate Complete(g: Group, cs: seq<seq<Row>>, whole: seq<Row>, maxPos: nat)
    requires Caches(g, cs) && Cache(g, whole)
  {
    forall i: nat, x: nat :: i < g.size && x < g.SeqLen() && x <= maxPos ==> cs[i][x] == whole[x]
  }

  lemma SlicesSuffice(g: Group, c0: seq<seq<Row>>, c: seq<seq<Row>>, whole: seq<Row>, maxPos: nat)
    requires g.Valid() && Caches(g, c0) && Caches(g, c) && Cache(g, whole) && OwnSlices(g, c0, whole)
    requires forall i: nat, x: nat :: i < g.size && x < g.SeqLen() ==> FromOwner(g, c0, c, maxPos, i, x)
    ensures Complete(g, c, whole, maxPos) && OwnSlices(g, c, whole)
  {
    forall i: nat, x: nat | i < g.size && x < g.SeqLen()
      ensures x <= maxPos ==> c[i][x] == whole[x]
      ensures InSlice(g, i, x) ==> c[i][x] == whole[x]
    {
      assert FromOwner(g, c0, c, maxPos, i, x);
      OwnerBounds(g, x);
      if InSlice(g, i, x) { SlicesDisjoint(g, i, g.Owner(x), x); }
    }
  }

  predicate FromOwner(g: Group, c0: seq<seq<Row>>, c: seq<seq<Row>>, maxPos: nat, i: nat, x: nat)
    requires g.Valid() && Caches(g, c0) && Caches(g, c) && i < g.size && x < g.SeqLen()
  {
    g.Owner(x) < g.size && c[i][x] == if x <= maxPos then c0[g.Owner(x)][x] else c0[i][x]
  }

  lemma ForwardCompletes(g: Group, b: Input, maxPos: nat, l: Layer, l': Layer, u: Kv)
    requires g.Valid() && LayerOk(g, l) && InputOk(g, b) && KvOk(g, u) && IsMax(b.at, maxPos)
    requires OwnSlices(g, l.ks, u.k) && OwnSlices(g, l.vs, u.v) && Forward(g, b, maxPos, l, l')
    ensures LayerOk(g, l')
    ensures var u' := UndividedForward(g, b, u);
      && OwnSlices(g, l'.ks, u'.k) && OwnSlices(g, l'.vs, u'.v)
      && Complete(g, l'.ks, u'.k, maxPos) && Complete(g, l'.vs, u'.v, maxPos)
  {
    hide Shifted; hide IsRun; hide OwnSlices; hide Complete; hide Written;
    var ks, vs := Written(g, l.ks, b.Keys()), Written(g, l.vs, b.Values());
    WrittenOwnSlices(g, l.ks, u.k, b.Keys());
    WrittenOwnSlices(g, l.vs, u.v, b.Values());
    var run: seq<Action>, states: seq<State> :| |states| == |run| + 1 && IsRun(g, maxPos, ks, vs, run, states)
      && Shape(g, states[|run|]) && Done(g, states[|run|]) && l' == Layer(states[|run|].ks, states[|run|].vs);
    ExchangeCompletes(g, maxPos, ks, vs, run, states, UndividedForward(g, b, u));
  }

  lemma ExchangeCompletes(
      g: Group, maxPos: nat, ks: seq<seq<Row>>, vs: seq<seq<Row>>, run: seq<Action>, states: seq<State>, u: Kv)
    requires g.Valid() && Caches(g, ks) && Caches(g, vs) && |states| == |run| + 1
      && IsRun(g, maxPos, ks, vs, run, states)
    requires Shape(g, states[|run|]) && Done(g, states[|run|]) && KvOk(g, u)
    requires OwnSlices(g, ks, u.k) && OwnSlices(g, vs, u.v)
    ensures var s := states[|run|];
      && OwnSlices(g, s.ks, u.k) && OwnSlices(g, s.vs, u.v) && Complete(g, s.ks, u.k, maxPos)
        && Complete(g, s.vs, u.v, maxPos)
  {
    hide Inv; hide IsRun; hide OwnSlices; hide Complete; hide Done;
    var s := states[|run|];
    LastInv(g, maxPos, ks, vs, run, states);
    forall i: nat, x: nat | i < g.size && x < g.SeqLen()
      ensures FromOwner(g, ks, s.ks, maxPos, i, x) && FromOwner(g, vs, s.vs, maxPos, i, x)
    {
      Exchanged(g, maxPos, ks, vs, s, i, x);
    }
    SlicesSuffice(g, ks, s.ks, u.k, maxPos);
    SlicesSuffice(g, vs, s.vs, u.v, maxPos);
  }

  lemma LastInv(g: Group, maxPos: nat, ks: seq<seq<Row>>, vs: seq<seq<Row>>, run: seq<Action>, states: seq<State>)
    requires g.Valid() && Caches(g, ks) && Caches(g, vs) && IsRun(g, maxPos, ks, vs, run, states)
    ensures |run| < |states| && Inv(g, maxPos, ks, vs, states[|run|])
  {
    RunKeepsInv(g, maxPos, ks, vs, run, states, |run|);
  }

  function UndividedRun(g: Group, inputs: seq<Input>, u: Kv): (r: Kv)
    requires KvOk(g, u) && forall f :: 0 <= f < |inputs| ==> InputOk(g, inputs[f])
    ensures KvOk(g, r)
  {
    if inputs == [] then u else UndividedForward(g, inputs[|inputs| - 1], UndividedRun(g, inputs[..|inputs| - 1], u))
  }

  /** Any sequence of forwards, each with any interleaving of its exchange. */
  ghost predicate LayerRun(g: Group, inputs: seq<Input>, maxPos: seq<nat>, layers: seq<Layer>)
  {
    && |maxPos| == |inputs| && |layers| == |inputs| + 1
    && (forall f :: 0 <= f < |inputs| ==> InputOk(g, inputs[f]) && IsMax(inputs[f].at, maxPos[f]))
    && (forall f :: 0 <= f < |inputs| ==>
      LayerOk(g, layers[f]) && Forward(g, inputs[f], maxPos[f], layers[f], layers[f + 1]))
  }

  /** Over any run of forwards, after each of them every rank's keys and values up to the largest
      position are those of one undivided cache. */
  lemma {:induction false} ShardedIsUndivided(
      g: Group, inputs: seq<Input>, maxPos: seq<nat>, layers: seq<Layer>, u: Kv, n: nat)
    requires g.Valid() && LayerRun(g, inputs, maxPos, layers) && KvOk(g, u) && n <= |inputs|
    requires LayerOk(g, layers[0]) && OwnSlices(g, layers[0].ks, u.k) && OwnSlices(g, layers[0].vs, u.v)
    ensures LayerOk(g, layers[n])
    ensures var now := UndividedRun(g, inputs[..n], u);
      && OwnSlices(g, layers[n].ks, now.k) && OwnSlices(g, layers[n].vs, now.v)
      && (0 < n ==> Complete(g, layers[n].ks, now.k, maxPos[n - 1]) && Complete(g, layers[n].vs, now.v, maxPos[n - 1]))
    decreases n
  {
    hide Forward; hide OwnSlices; hide Complete; hide UndividedForward;
    assert |layers| == |inputs| + 1;
    if n > 0 {
      ShardedIsUndivided(g, inputs, maxPos, layers, u, n - 1);
      assert inputs[..n][..n - 1] == inputs[..n - 1];
      ForwardCompletes(g, inputs[n - 1], maxPos[n - 1], layers[n - 1], layers[n], UndividedRun(g, inputs[..n - 1], u));
    }
  }
}
