/** A model run on a sequence-parallel group (src/llm.cpp, src/nn/nn-executor.cpp, src/nn/nn-network.cpp).
    The executor runs all ops of a segment before its syncs, so a rank attends to its own cache with its own
    new rows, and the rows of the other slices arrive only afterwards. */
module SpKvModel {
  import opened SpKvSync

  // ---- The exchange as a function -------------------------------------------------------------------

  /** Every rank takes the rows up to the largest position from their owners. */
  function Merged(g: Group, maxPos: nat, cs: seq<seq<Row>>): (r: seq<seq<Row>>)
    requires g.Valid() && Caches(g, cs)
    ensures Caches(g, r)
  {
    seq(g.size, i requires 0 <= i < g.size => MergedCache(g, maxPos, cs, i))
  }

  function MergedCache(g: Group, maxPos: nat, cs: seq<seq<Row>>, i: nat): (r: seq<Row>)
    requires g.Valid() && Caches(g, cs) && i < g.size
    ensures Cache(g, r)
  {
    seq(g.SeqLen(), x requires 0 <= x < g.SeqLen() => MergedRow(g, maxPos, cs, i, x))
  }

  function MergedRow(g: Group, maxPos: nat, cs: seq<seq<Row>>, i: nat, x: nat): Row
    requires g.Valid() && Caches(g, cs) && i < g.size && x < g.SeqLen()
  {
    OwnerBounds(g, x);
    if x <= maxPos then cs[g.Owner(x)][x] else cs[i][x]
  }

  lemma DoneIsMerged(g: Group, maxPos: nat, ks: seq<seq<Row>>, vs: seq<seq<Row>>, s: State)
    requires g.Valid() && Caches(g, ks) && Caches(g, vs) && Inv(g, maxPos, ks, vs, s) && Done(g, s)
    ensures s.ks == Merged(g, maxPos, ks) && s.vs == Merged(g, maxPos, vs)
  {
    hide Inv; hide Done;
    assert Caches(g, s.ks) && Caches(g, s.vs) by { InvShape(g, maxPos, ks, vs, s); }
    forall i | 0 <= i < g.size
      ensures s.ks[i] == Merged(g, maxPos, ks)[i] && s.vs[i] == Merged(g, maxPos, vs)[i]
    {
      forall x | 0 <= x < g.SeqLen()
        ensures s.ks[i][x] == MergedCache(g, maxPos, ks, i)[x] && s.vs[i][x] == MergedCache(g, maxPos, vs, i)[x]
      {
        Exchanged(g, maxPos, ks, vs, s, i, x);
      }
    }
  }

  lemma InvShape(g: Group, maxPos: nat, ks: seq<seq<Row>>, vs: seq<seq<Row>>, s: State)
    requires g.Valid() && Caches(g, ks) && Caches(g, vs) && Inv(g, maxPos, ks, vs, s)
    ensures Shape(g, s)
  {
  }

  /** Every unfinished exchange can be finished. */
  lemma {:induction false} Finish(
      g: Group, maxPos: nat, ks: seq<seq<Row>>, vs: seq<seq<Row>>, run: seq<Action>, states: seq<State>)
    returns (all: seq<Action>, through: seq<State>)
    requires g.Valid() && Caches(g, ks) && Caches(g, vs) && IsRun(g, maxPos, ks, vs, run, states)
    requires Inv(g, maxPos, ks, vs, states[|run|])
    ensures IsRun(g, maxPos, ks, vs, all, through) && Inv(g, maxPos, ks, vs, through[|all|])
    ensures Shape(g, through[|all|]) && Done(g, through[|all|])
    decreases var left := StepsLeft(g, states[|run|].pcs); if left < 0 then 0 else left
  {
    hide CacheOk; hide PairOk; hide Apply; hide Enabled; hide StepsLeft; hide Done;
    var s := states[|run|];
    if Done(g, s) { return run, states; }
    var a := NoDeadlock(g, maxPos, ks, vs, s);
    StepsFall(g, maxPos, s, a);
    var next := Apply(g, maxPos, s, a);
    if a.Skip? { SkipKeepsInv(g, maxPos, ks, vs, s, a.i); } else { MeetKeepsInv(g, maxPos, ks, vs, s, a.i); }
    all, through := Finish(g, maxPos, ks, vs, run + [a], states + [next]);
  }

  /** Whatever the interleaving, a completed exchange ends in the merged caches; and there is one. */
  lemma ExchangeIsMerged(g: Group, maxPos: nat, ks: seq<seq<Row>>, vs: seq<seq<Row>>, after: Layer)
    requires g.Valid() && Caches(g, ks) && Caches(g, vs)
    ensures Exchange(g, maxPos, ks, vs, after) <==> after == Layer(Merged(g, maxPos, ks), Merged(g, maxPos, vs))
  {
    hide Inv; hide IsRun; hide Merged;
    if Exchange(g, maxPos, ks, vs, after) {
      var run: seq<Action>, states: seq<State> :| |states| == |run| + 1 && IsRun(g, maxPos, ks, vs, run, states)
        && Shape(g, states[|run|]) && Done(g, states[|run|]) && after == Layer(states[|run|].ks, states[|run|].vs);
      LastInv(g, maxPos, ks, vs, run, states);
      DoneIsMerged(g, maxPos, ks, vs, states[|run|]);
    }
    if after == Layer(Merged(g, maxPos, ks), Merged(g, maxPos, vs)) {
      NoStepRun(g, maxPos, ks, vs);
      var run, states := Finish(g, maxPos, ks, vs, [], [Begin(g, ks, vs)]);
      RunLength(g, maxPos, ks, vs, run, states);
      DoneIsMerged(g, maxPos, ks, vs, states[|run|]);
    }
  }

  lemma NoStepRun(g: Group, maxPos: nat, ks: seq<seq<Row>>, vs: seq<seq<Row>>)
    requires g.Valid() && Caches(g, ks) && Caches(g, vs)
    ensures IsRun(g, maxPos, ks, vs, [], [Begin(g, ks, vs)]) && Inv(g, maxPos, ks, vs, Begin(g, ks, vs))
  {
    InvInitially(g, maxPos, ks, vs);
  }

  lemma RunLength(g: Group, maxPos: nat, ks: seq<seq<Row>>, vs: seq<seq<Row>>, run: seq<Action>, states: seq<State>)
    requires IsRun(g, maxPos, ks, vs, run, states)
    ensures |states| == |run| + 1
  {
  }

  // ---- One forward on one rank ------------------------------------------------------------------------

  /** The layer mathematics, left open. Rows of a batch meet only through the caches: `project` makes the key
      and value row of a hidden row at its position, `attend` the next hidden row from it and the cached rows
      up to its position. */
  datatype Net = Net(
    nLayers: nat,
    project: (nat, nat, Row) -> (Row, Row),
    attend: (nat, nat, Row, seq<Row>, seq<Row>) -> Row)

  predicate Positions(g: Group, at: seq<nat>) { at != [] && forall i :: 0 <= i < |at| ==> at[i] < g.SeqLen() }

  function InputOf(net: Net, l: nat, at: seq<nat>, x: seq<Row>): (r: Input)
    requires |x| == |at|
    ensures |r.k| == |r.v| == |at|
  {
    Input(at, seq(|at|, b requires 0 <= b < |at| => net.project(l, at[b], x[b]).0),
          seq(|at|, b requires 0 <= b < |at| => net.project(l, at[b], x[b]).1))
  }

  /** The caches of all layers in one place. */
  predicate Kvs(net: Net, g: Group, own: seq<Kv>)
  { |own| == net.nLayers && forall l :: 0 <= l < |own| ==> KvOk(g, own[l]) }

  /** A place where a forward runs: a rank, which writes its slice only, or the undivided model. */
  datatype Place = Rank(rank: nat) | Whole

  function Wrote(net: Net, g: Group, w: Place, at: seq<nat>, x: seq<Row>, l: nat, own: Kv): (r: Kv)
    requires Positions(g, at) && |x| == |at| && KvOk(g, own)
    ensures KvOk(g, r)
  {
    var b := InputOf(net, l, at, x);
    var rank := if w.Rank? then w.rank else 0;
    Kv(Shifted(g, own.k, b.Keys(), |at|, rank, w.Rank?), Shifted(g, own.v, b.Values(), |at|, rank, w.Rank?))
  }

  /** The hidden rows before layer `l`: every layer writes its rows and then attends to what the place has. */
  function Hidden(net: Net, g: Group, w: Place, at: seq<nat>, x: seq<Row>, own: seq<Kv>, l: nat): (r: seq<Row>)
    requires Positions(g, at) && |x| == |at| && Kvs(net, g, own) && l <= net.nLayers
    ensures |r| == |at|
  {
    if l == 0 then x
    else
      var before := Hidden(net, g, w, at, x, own, l - 1);
      var c := Wrote(net, g, w, at, before, l - 1, own[l - 1]);
      seq(|at|, b requires 0 <= b < |at| => net.attend(l - 1, at[b], before[b], c.k[..at[b] + 1], c.v[..at[b] + 1]))
  }

  function WroteAll(net: Net, g: Group, w: Place, at: seq<nat>, x: seq<Row>, own: seq<Kv>): (r: seq<Kv>)
    requires Positions(g, at) && |x| == |at| && Kvs(net, g, own)
    ensures Kvs(net, g, r)
  {
    seq(net.nLayers, l requires 0 <= l < net.nLayers =>
      Wrote(net, g, w, at, Hidden(net, g, w, at, x, own, l), l, own[l]))
  }

  // ---- When a row is right -----------------------------------------------------------------------------

  /** Two caches agree on the positions filled so far; what lies beyond is leftovers. */
  predicate AgreeTo(filled: nat, c: seq<Row>, d: seq<Row>)
  {
    |c| == |d| && forall x :: 0 <= x < |c| && x < filled ==> c[x] == d[x]
  }

  predicate InStep(filled: nat, own: seq<Kv>, whole: seq<Kv>)
  {
    |own| == |whole| && forall l :: 0 <= l < |own| ==>
      AgreeTo(filled, own[l].k, whole[l].k) && AgreeTo(filled, own[l].v, whole[l].v)
  }

  /** A batch leaves no gap: what lies below one of its positions is filled or in the batch. */
  predicate Covered(filled: nat, at: seq<nat>)
  {
    forall b, x: nat :: 0 <= b < |at| && filled <= x <= at[b] ==> x in at
  }

  /** The guard: everything the row at `at[b]` may look at in this batch is in the rank's own slice. */
  predicate InOwnSlice(g: Group, r: nat, at: seq<nat>, b: nat)
    requires b < |at|
  {
    forall c :: 0 <= c < |at| && at[c] <= at[b] ==> InSlice(g, r, at[c])
  }

  /** Where both write the same row, or neither does, the row is the same. */
  lemma {:induction false} SameRow(g: Group, c: seq<Row>, d: seq<Row>, b: Batch, e: Batch, n: nat, r: nat, x: nat)
    requires Fits(g, b) && Fits(g, e) && b.at == e.at && n <= |b.at| && Cache(g, c) && Cache(g, d) && x < g.SeqLen()
    requires forall i :: 0 <= i < n && b.at[i] == x ==> b.rows[i] == e.rows[i] && InSlice(g, r, x)
    requires c[x] == d[x] || x in b.at[..n]
    ensures Shifted(g, c, b, n, r, true)[x] == Shifted(g, d, e, n, 0, false)[x]
    decreases n
  {
    if n > 0 && b.at[n - 1] != x {
      assert b.at[..n] == b.at[..n - 1] + [b.at[n - 1]];
      SameRow(g, c, d, b, e, n - 1, r, x);
    }
  }

  lemma {:induction false} Unwritten(g: Group, c: seq<Row>, b: Batch, n: nat, r: nat, guarded: bool, x: nat)
    requires Fits(g, b) && n <= |b.at| && Cache(g, c) && x < g.SeqLen()
    requires x in b.at[..n] ==> guarded && !InSlice(g, r, x)
    ensures Shifted(g, c, b, n, r, guarded)[x] == c[x]
    decreases n
  {
    if n > 0 {
      assert b.at[..n] == b.at[..n - 1] + [b.at[n - 1]];
      Unwritten(g, c, b, n - 1, r, guarded, x);
    }
  }

  lemma {:induction false} LastWrite(g: Group, c: seq<Row>, b: Batch, n: nat, r: nat, guarded: bool, x: nat, y: Row)
    requires Fits(g, b) && n <= |b.at| && Cache(g, c) && x < g.SeqLen()
    requires x in b.at[..n] && (guarded ==> InSlice(g, r, x))
    requires forall i :: 0 <= i < n && b.at[i] == x ==> b.rows[i] == y
    ensures Shifted(g, c, b, n, r, guarded)[x] == y
    decreases n
  {
    assert b.at[..n] == b.at[..n - 1] + [b.at[n - 1]];
    if b.at[n - 1] != x { LastWrite(g, c, b, n - 1, r, guarded, x, y); }
  }

  /** A rank's row `x` after writing is the undivided one, when the rank owns what the batch writes there and
      computed it from the right hidden rows. */
  lemma SameWrite(
      net: Net, g: Group, r: nat, at: seq<nat>, l: nat, filled: nat, mine: seq<Row>, x: seq<Row>, own: Kv, whole: Kv,
        p: nat)
    requires Positions(g, at) && |mine| == |x| == |at| && KvOk(g, own) && KvOk(g, whole) && p < g.SeqLen()
    requires AgreeTo(filled, own.k, whole.k) && AgreeTo(filled, own.v, whole.v) && (p < filled || p in at)
    requires forall i :: 0 <= i < |at| && at[i] == p ==> mine[i] == x[i] && InSlice(g, r, p)
    ensures Wrote(net, g, Rank(r), at, mine, l, own).k[p] == Wrote(net, g, Whole, at, x, l, whole).k[p]
    ensures Wrote(net, g, Rank(r), at, mine, l, own).v[p] == Wrote(net, g, Whole, at, x, l, whole).v[p]
  {
    hide Shifted;
    var b, e := InputOf(net, l, at, mine), InputOf(net, l, at, x);
    assert at[..|at|] == at;
    SameRow(g, own.k, whole.k, b.Keys(), e.Keys(), |at|, r, p);
    SameRow(g, own.v, whole.v, b.Values(), e.Values(), |at|, r, p);
  }

  /** A rank computes the undivided hidden row of every position that looks only into the rank's slice. */
  lemma {:induction false} HiddenFollows(
      net: Net, g: Group, r: nat, at: seq<nat>, filled: nat, x: seq<Row>, own: seq<Kv>, whole: seq<Kv>, l: nat, b: nat)
    requires Positions(g, at) && |x| == |at| && Kvs(net, g, own) && Kvs(net, g, whole) && l <= net.nLayers && b < |at|
    requires InStep(filled, own, whole) && Covered(filled, at) && InOwnSlice(g, r, at, b)
    ensures Hidden(net, g, Rank(r), at, x, own, l)[b] == Hidden(net, g, Whole, at, x, whole, l)[b]
    decreases l
  {
    hide Wrote;
    if 0 < l {
      var mine, right := Hidden(net, g, Rank(r), at, x, own, l - 1), Hidden(net, g, Whole, at, x, whole, l - 1);
      forall i | 0 <= i < |at| && at[i] <= at[b] ensures mine[i] == right[i] {
        HiddenFollows(net, g, r, at, filled, x, own, whole, l - 1, i);
      }
      var c, d := Wrote(net, g, Rank(r), at, mine, l - 1, own[l - 1]),
        Wrote(net, g, Whole, at, right, l - 1, whole[l - 1]);
      forall p: nat | p <= at[b] ensures c.k[p] == d.k[p] && c.v[p] == d.v[p] {
        SameWrite(net, g, r, at, l - 1, filled, mine, right, own[l - 1], whole[l - 1], p);
      }
      assert c.k[..at[b] + 1] == d.k[..at[b] + 1] && c.v[..at[b] + 1] == d.v[..at[b] + 1];
    }
  }

  /** For all layer mathematics, hidden rows and leftovers, row `b` of rank `r` is the undivided model's after
      all layers. `fed` says that the rank starts from the embedding; if not, it starts from leftovers. */
  ghost predicate AlwaysRight(g: Group, fed: bool, nLayers: nat, at: seq<nat>, filled: nat, r: nat, b: nat)
    requires Positions(g, at) && b < |at|
  {
    forall net: Net, mine: seq<Row>, x: seq<Row>, own: seq<Kv>, whole: seq<Kv> ::
      net.nLayers == nLayers && Kvs(net, g, own) && Kvs(net, g, whole) && InStep(filled, own, whole)
      && |mine| == |x| == |at| && (fed ==> mine == x)
      ==> Hidden(net, g, Rank(r), at, mine, own, nLayers)[b] == Hidden(net, g, Whole, at, x, whole, nLayers)[b]
  }

  // ---- Layers that show the difference -------------------------------------------------------------------

  function Blank(g: Group): (r: seq<Row>) ensures Cache(g, r) { seq(g.SeqLen(), _ => [0.0]) }

  function Blanks(n: nat, g: Group): (r: seq<Kv>)
    ensures |r| == n && forall l :: 0 <= l < n ==> r[l] == Kv(Blank(g), Blank(g))
  {
    seq(n, _ => Kv(Blank(g), Blank(g)))
  }

  function Ones(n: nat): (r: seq<Row>) ensures |r| == n { seq(n, _ => [1.0]) }

  /** Every key row is 1 in layer 0 and the hidden row later; attention returns the key row at `q`. */
  function Peek(nLayers: nat, q: nat): Net
  {
    Net(nLayers, (l, p, x) => if l == 0 then ([1.0], [1.0]) else (x, x), (l, p, x, ks, vs) => if q < |ks| then ks[q]
      else [1.0])
  }

  /** Attention that ignores the cache. */
  function Echo(nLayers: nat): Net { Net(nLayers, (l, p, x) => (x, x), (l, p, x, ks, vs) => x) }

  lemma {:induction false} EchoHidden(n: nat, g: Group, w: Place, at: seq<nat>, x: seq<Row>, own: seq<Kv>, l: nat)
    requires Positions(g, at) && |x| == |at| && Kvs(Echo(n), g, own) && l <= n
    ensures Hidden(Echo(n), g, w, at, x, own, l) == x
    decreases l
  {
    hide Wrote;
    if 0 < l { EchoHidden(n, g, w, at, x, own, l - 1); }
  }

  /** The undivided model finds the row at `q`, which the batch writes, in every layer. */
  lemma {:induction false} PeekFinds(n: nat, g: Group, at: seq<nat>, x: seq<Row>, own: seq<Kv>, l: nat, q: nat)
    requires Positions(g, at) && x == Ones(|at|) && Kvs(Peek(n, q), g, own) && l <= n && q in at
    ensures Hidden(Peek(n, q), g, Whole, at, x, own, l) == x
    decreases l
  {
    hide Shifted;
    if 0 < l {
      PeekFinds(n, g, at, x, own, l - 1, q);
      var b := InputOf(Peek(n, q), l - 1, at, x);
      assert at[..|at|] == at;
      LastWrite(g, own[l - 1].k, b.Keys(), |at|, 0, false, q, [1.0]);
    }
  }

  /** A rank that does not own `q` finds what its cache held there. */
  lemma PeekMisses(n: nat, g: Group, r: nat, at: seq<nat>, x: seq<Row>, own: seq<Kv>, l: nat, q: nat, b: nat)
    requires Positions(g, at) && |x| == |at| && Kvs(Peek(n, q), g, own) && 0 < l <= n && q < g.SeqLen()
    requires !InSlice(g, r, q) && b < |at| && q <= at[b]
    ensures Hidden(Peek(n, q), g, Rank(r), at, x, own, l)[b] == own[l - 1].k[q]
  {
    hide Shifted;
    var before := Hidden(Peek(n, q), g, Rank(r), at, x, own, l - 1);
    Unwritten(g, own[l - 1].k, InputOf(Peek(n, q), l - 1, at, before).Keys(), |at|, r, true, q);
  }

  /** Exactly when: the rank is fed, and everything the row may look at in this batch is in the rank's slice. */
  lemma RowRightIff(g: Group, fed: bool, nLayers: nat, at: seq<nat>, filled: nat, r: nat, b: nat)
    requires g.Valid() && r < g.size && 0 < nLayers && Positions(g, at) && Covered(filled, at) && b < |at|
    ensures AlwaysRight(g, fed, nLayers, at, filled, r, b) <==> fed && InOwnSlice(g, r, at, b)
  {
    hide Hidden; hide Covered;
    var zero, x := Blanks(nLayers, g), Ones(|at|);
    if !fed {
      var mine := seq(|at|, _ => [0.0]);
      EchoHidden(nLayers, g, Rank(r), at, mine, zero, nLayers);
      EchoHidden(nLayers, g, Whole, at, x, zero, nLayers);
    } else if !InOwnSlice(g, r, at, b) {
      var c :| 0 <= c < |at| && at[c] <= at[b] && !InSlice(g, r, at[c]);
      PeekFinds(nLayers, g, at, x, zero, nLayers, at[c]);
      PeekMisses(nLayers, g, r, at, x, zero, nLayers, at[c], b);
    } else {
      forall net: Net, x: seq<Row>, own: seq<Kv>, whole: seq<Kv> |
        net.nLayers == nLayers && Kvs(net, g, own) && Kvs(net, g, whole) && InStep(filled, own, whole) && |x| == |at|
        ensures Hidden(net, g, Rank(r), at, x, own, nLayers)[b] == Hidden(net, g, Whole, at, x, whole, nLayers)[b]
      {
        HiddenFollows(net, g, r, at, filled, x, own, whole, nLayers, b);
      }
    }
  }

  // ---- What a forward leaves in the caches -----------------------------------------------------------------

  /** A forward of the group: its positions, the largest of them, and whether the exchange runs (decoding with
      prefill-only sequence parallelism leaves it out). */
  datatype Pass = Pass(at: seq<nat>, maxPos: nat, synced: bool)

  ghost predicate PassOk(g: Group, p: Pass) { Positions(g, p.at) && IsMax(p.at, p.maxPos) }

  function FilledAfter(filled: nat, p: Pass): nat { if filled <= p.maxPos then p.maxPos + 1 else filled }

  /** The hidden rows the ranks start a forward from: rank 0 embeds, the others get its rows if `shared`
      (without tensor parallelism the broadcast is skipped unless an environment variable asks for it). */
  predicate Started(g: Group, p: Pass, shared: bool, xs: seq<seq<Row>>)
  {
    |xs| == g.size && forall r :: 0 <= r < g.size ==> |xs[r]| == |p.at| && (shared ==> xs[r] == xs[0])
  }

  predicate Fed(shared: bool, r: nat) { shared || r == 0 }

  predicate Layers(net: Net, g: Group, ls: seq<Layer>)
  { |ls| == net.nLayers && forall l :: 0 <= l < |ls| ==> LayerOk(g, ls[l]) }

  function Own(net: Net, g: Group, ls: seq<Layer>, r: nat): (own: seq<Kv>)
    requires Layers(net, g, ls) && r < g.size
    ensures Kvs(net, g, own)
  {
    seq(net.nLayers, l requires 0 <= l < net.nLayers => Kv(ls[l].ks[r], ls[l].vs[r]))
  }

  /** What all ranks hold of layer `l` when its segment has run and its syncs have not. */
  function WrittenLayer(net: Net, g: Group, p: Pass, xs: seq<seq<Row>>, ls: seq<Layer>, l: nat): (r: Layer)
    requires Positions(g, p.at) && Started(g, p, false, xs) && Layers(net, g, ls) && l < net.nLayers
    ensures LayerOk(g, r)
  {
    Layer(seq(g.size, r requires 0 <= r < g.size => WroteAll(net, g, Rank(r), p.at, xs[r], Own(net, g, ls, r))[l].k),
          seq(g.size, r requires 0 <= r < g.size => WroteAll(net, g, Rank(r), p.at, xs[r], Own(net, g, ls, r))[l].v))
  }

  /** A forward: every layer's caches after writing and, in a synced pass, some completed exchange. */
  ghost predicate GroupForward(net: Net, g: Group, p: Pass, xs: seq<seq<Row>>, before: seq<Layer>, after: seq<Layer>)
    requires PassOk(g, p) && Started(g, p, false, xs) && Layers(net, g, before)
  {
    |after| == net.nLayers && forall l :: 0 <= l < net.nLayers ==>
      var w := WrittenLayer(net, g, p, xs, before, l);
      if p.synced then Exchange(g, p.maxPos, w.ks, w.vs, after[l]) else after[l] == w
  }

  function AfterLayer(net: Net, g: Group, p: Pass, xs: seq<seq<Row>>, before: seq<Layer>, l: nat): (r: Layer)
    requires g.Valid() && Positions(g, p.at) && Started(g, p, false, xs) && Layers(net, g, before) && l < net.nLayers
    ensures LayerOk(g, r)
  {
    var w := WrittenLayer(net, g, p, xs, before, l);
    if p.synced then Layer(Merged(g, p.maxPos, w.ks), Merged(g, p.maxPos, w.vs)) else w
  }

  function After(net: Net, g: Group, p: Pass, xs: seq<seq<Row>>, before: seq<Layer>): (r: seq<Layer>)
    requires g.Valid() && Positions(g, p.at) && Started(g, p, false, xs) && Layers(net, g, before)
    ensures Layers(net, g, r)
  {
    seq(net.nLayers, l requires 0 <= l < net.nLayers => AfterLayer(net, g, p, xs, before, l))
  }

  /** The interleaving of the exchanges does not show. */
  lemma ForwardIsAfter(net: Net, g: Group, p: Pass, xs: seq<seq<Row>>, before: seq<Layer>, after: seq<Layer>)
    requires g.Valid() && PassOk(g, p) && Started(g, p, false, xs) && Layers(net, g, before)
    ensures GroupForward(net, g, p, xs, before, after) <==> after == After(net, g, p, xs, before)
  {
    hide Exchange; hide WrittenLayer; hide Merged;
    if |after| == net.nLayers {
      forall l | 0 <= l < net.nLayers
        ensures var w := WrittenLayer(net, g, p, xs, before, l);
          (if p.synced then Exchange(g, p.maxPos, w.ks, w.vs, after[l]) else after[l] == w)
          <==> after[l] == After(net, g, p, xs, before)[l]
      {
        var w := WrittenLayer(net, g, p, xs, before, l);
        ExchangeIsMerged(g, p.maxPos, w.ks, w.vs, after[l]);
      }
    }
  }

  /** Row `x` of rank `i` after a forward is what its owner wrote, or what the rank had. */
  lemma AfterRow(net: Net, g: Group, p: Pass, xs: seq<seq<Row>>, before: seq<Layer>, l: nat, i: nat, x: nat)
    requires g.Valid() && Positions(g, p.at) && Started(g, p, false, xs) && Layers(net, g, before) && l < net.nLayers
    requires i < g.size && x < g.SeqLen()
    ensures g.Owner(x) < g.size && InSlice(g, g.Owner(x), x)
    ensures var r := if p.synced && x <= p.maxPos then g.Owner(x) else i;
      var w := WroteAll(net, g, Rank(r), p.at, xs[r], Own(net, g, before, r))[l];
      && After(net, g, p, xs, before)[l].ks[i][x] == w.k[x]
      && After(net, g, p, xs, before)[l].vs[i][x] == w.v[x]
  {
    hide WroteAll;
    OwnerBounds(g, x);
  }

  ghost predicate AllInStep(net: Net, g: Group, filled: nat, ls: seq<Layer>, whole: seq<Kv>)
    requires Layers(net, g, ls) && Kvs(net, g, whole)
  {
    forall r :: 0 <= r < g.size ==> InStep(filled, Own(net, g, ls, r), whole)
  }

  /** For all layer mathematics, hidden rows and leftovers, a synced forward leaves all ranks with the undivided
      model's caches. */
  ghost predicate AlwaysInStep(g: Group, shared: bool, nLayers: nat, p: Pass, filled: nat)
    requires g.Valid() && PassOk(g, p)
  {
    forall net: Net, xs: seq<seq<Row>>, before: seq<Layer>, whole: seq<Kv> ::
      net.nLayers == nLayers && Layers(net, g, before) && Kvs(net, g, whole) && AllInStep(net, g, filled, before, whole)
      && Started(g, p, shared, xs)
      ==> AllInStep(net, g, FilledAfter(filled, p), After(net, g, p, xs, before),
        WroteAll(net, g, Whole, p.at, xs[0], whole))
  }

  /** The guard: one slice holds the whole batch, and its rank is fed. */
  predicate OneSlice(g: Group, shared: bool, at: seq<nat>)
  {
    exists r :: 0 <= r < g.size && Fed(shared, r) && forall b :: 0 <= b < |at| ==> InSlice(g, r, at[b])
  }

  lemma OneSliceKeepsRow(
      net: Net, g: Group, shared: bool, p: Pass, filled: nat, xs: seq<seq<Row>>, before: seq<Layer>, whole: seq<Kv>,
      l: nat, i: nat, x: nat)
    requires g.Valid() && PassOk(g, p) && Started(g, p, shared, xs) && Layers(net, g, before) && Kvs(net, g, whole)
    requires AllInStep(net, g, filled, before, whole) && Covered(filled, p.at) && OneSlice(g, shared, p.at) && p.synced
    requires l < net.nLayers && i < g.size && x < g.SeqLen() && x < FilledAfter(filled, p)
    ensures var w := WroteAll(net, g, Whole, p.at, xs[0], whole)[l];
      After(net, g, p, xs, before)[l].ks[i][x] == w.k[x] && After(net, g, p, xs, before)[l].vs[i][x] == w.v[x]
  {
    hide Hidden; hide Wrote; hide After;
    AfterRow(net, g, p, xs, before, l, i, x);
    var r := if x <= p.maxPos then g.Owner(x) else i;
    var own := Own(net, g, before, r);
    if x in p.at {
      assert Fed(shared, r) && (forall b :: 0 <= b < |p.at| ==> InSlice(g, r, p.at[b])) by {
        var s :| 0 <= s < g.size && Fed(shared, s) && forall b :: 0 <= b < |p.at| ==> InSlice(g, s, p.at[b]);
        SlicesDisjoint(g, r, s, x);
      }
      forall b | 0 <= b < |p.at|
        ensures Hidden(net, g, Rank(r), p.at, xs[r], own, l)[b] == Hidden(net, g, Whole, p.at, xs[0], whole, l)[b]
      {
        HiddenFollows(net, g, r, p.at, filled, xs[0], own, whole, l, b);
      }
    }
    SameWrite(net, g, r, p.at, l, filled, Hidden(net, g, Rank(r), p.at, xs[r], own, l),
              Hidden(net, g, Whole, p.at, xs[0], whole, l), own[l], whole[l], x);
  }

  lemma OneSliceKeepsStep(
      net: Net, g: Group, shared: bool, p: Pass, filled: nat, xs: seq<seq<Row>>, before: seq<Layer>, whole: seq<Kv>)
    requires g.Valid() && PassOk(g, p) && Started(g, p, shared, xs) && Layers(net, g, before) && Kvs(net, g, whole)
    requires AllInStep(net, g, filled, before, whole) && Covered(filled, p.at) && OneSlice(g, shared, p.at) && p.synced
    ensures AllInStep(net, g, FilledAfter(filled, p), After(net, g, p, xs, before),
      WroteAll(net, g, Whole, p.at, xs[0], whole))
  {
    hide After; hide WroteAll; hide AllInStep; hide Covered; hide OneSlice; hide FilledAfter;
    var after, w := After(net, g, p, xs, before), WroteAll(net, g, Whole, p.at, xs[0], whole);
    forall i, l, x | 0 <= i < g.size && 0 <= l < net.nLayers && 0 <= x < g.SeqLen() && x < FilledAfter(filled, p)
      ensures after[l].ks[i][x] == w[l].k[x] && after[l].vs[i][x] == w[l].v[x]
    {
      OneSliceKeepsRow(net, g, shared, p, filled, xs, before, whole, l, i, x);
    }
    assert AllInStep(net, g, FilledAfter(filled, p), after, w)
      by { RowsAreStep(net, g, FilledAfter(filled, p), after, w); }
  }

  lemma RowsAreStep(net: Net, g: Group, filled: nat, ls: seq<Layer>, whole: seq<Kv>)
    requires Layers(net, g, ls) && Kvs(net, g, whole)
    requires forall i, l, x :: 0 <= i < g.size && 0 <= l < net.nLayers && 0 <= x < g.SeqLen() && x < filled ==>
      ls[l].ks[i][x] == whole[l].k[x] && ls[l].vs[i][x] == whole[l].v[x]
    ensures AllInStep(net, g, filled, ls, whole)
  {
    forall r | 0 <= r < g.size ensures InStep(filled, Own(net, g, ls, r), whole) {
      var own := Own(net, g, ls, r);
      forall l | 0 <= l < net.nLayers
        ensures AgreeTo(filled, own[l].k, whole[l].k) && AgreeTo(filled, own[l].v, whole[l].v)
      {
        assert own[l] == Kv(ls[l].ks[r], ls[l].vs[r]);
        forall x | 0 <= x < g.SeqLen() && x < filled
          ensures own[l].k[x] == whole[l].k[x] && own[l].v[x] == whole[l].v[x]
        {
          assert ls[l].ks[r][x] == whole[l].k[x];
        }
      }
    }
  }

  // ---- Necessity ---------------------------------------------------------------------------------------------

  function BlankLayers(n: nat, g: Group): (r: seq<Layer>)
    ensures |r| == n && forall l :: 0 <= l < n ==> LayerOk(g, r[l])
  {
    seq(n, _ => Layer(seq(g.size, _ => Blank(g)), seq(g.size, _ => Blank(g))))
  }

  lemma BlanksInStep(net: Net, g: Group, filled: nat)
    ensures Layers(net, g, BlankLayers(net.nLayers, g)) && Kvs(net, g, Blanks(net.nLayers, g))
    ensures AllInStep(net, g, filled, BlankLayers(net.nLayers, g), Blanks(net.nLayers, g))
    ensures forall r: nat :: r < g.size ==> Own(net, g, BlankLayers(net.nLayers, g), r) == Blanks(net.nLayers, g)
    ensures g.Valid() ==> InStep(filled, Own(net, g, BlankLayers(net.nLayers, g), 0), Blanks(net.nLayers, g))
  {
    forall r: nat | r < g.size ensures Own(net, g, BlankLayers(net.nLayers, g), r) == Blanks(net.nLayers, g) {
    }
  }

  /** The caches are out of step at `x`, if the owner of `x` writes another key row there. */
  lemma WrongOwnerRow(
      net: Net, g: Group, p: Pass, filled: nat, xs: seq<seq<Row>>, before: seq<Layer>, whole: seq<Kv>, l: nat, o: nat,
        x: nat)
    requires g.Valid() && PassOk(g, p) && Started(g, p, false, xs) && Layers(net, g, before) && Kvs(net, g, whole)
    requires p.synced && l < net.nLayers && o < g.size && x <= p.maxPos && InSlice(g, o, x) && x < g.SeqLen()
    requires WroteAll(net, g, Rank(o), p.at, xs[o], Own(net, g, before, o))[l].k[x]
      != WroteAll(net, g, Whole, p.at, xs[0], whole)[l].k[x]
    ensures !AllInStep(net, g, FilledAfter(filled, p), After(net, g, p, xs, before),
      WroteAll(net, g, Whole, p.at, xs[0], whole))
  {
    hide WroteAll; hide After;
    var after := After(net, g, p, xs, before);
    AfterRow(net, g, p, xs, before, l, o, x);
    SlicesDisjoint(g, o, g.Owner(x), x);
    assert Own(net, g, after, o)[l].k == after[l].ks[o];
  }

  /** What a place writes at `x` in layer `l`, when all its hidden rows at `x` are `y` and the layer keeps them. */
  lemma WrittenKey(net: Net, g: Group, w: Place, at: seq<nat>, x: seq<Row>, own: seq<Kv>, l: nat, q: nat, y: Row)
    requires Positions(g, at) && |x| == |at| && Kvs(net, g, own) && l < net.nLayers && q in at
    requires w.Rank? ==> InSlice(g, w.rank, q)
    requires forall i :: 0 <= i < |at| && at[i] == q ==> net.project(l, q, Hidden(net, g, w, at, x, own, l)[i]).0 == y
    ensures WroteAll(net, g, w, at, x, own)[l].k[q] == y
  {
    hide Shifted; hide Hidden;
    var b := InputOf(net, l, at, Hidden(net, g, w, at, x, own, l));
    assert at[..|at|] == at;
    LastWrite(g, own[l].k, b.Keys(), |at|, if w.Rank? then w.rank else 0, w.Rank?, q, y);
  }

  /** A batch over two slices puts a wrong row into layer 1: the owner of its last position has missed `q`. */
  lemma TwoSlicesBreak(g: Group, n: nat, p: Pass, filled: nat, o: nat, q: nat)
    requires g.Valid() && PassOk(g, p) && p.synced && 2 <= n && o < g.size && InSlice(g, o, p.maxPos)
    requires q in p.at && !InSlice(g, o, q)
    ensures !AlwaysInStep(g, true, n, p, filled)
  {
    hide Hidden; hide WroteAll; hide AllInStep; hide After;
    var net := Peek(n, q);
    var x, zero := Ones(|p.at|), Blanks(n, g);
    var xs, before := seq(g.size, _ => x), BlankLayers(n, g);
    BlanksInStep(net, g, filled);
    forall i | 0 <= i < |p.at| && p.at[i] == p.maxPos
      ensures Hidden(net, g, Rank(o), p.at, x, zero, 1)[i] == [0.0]
    {
      PeekMisses(n, g, o, p.at, x, zero, 1, q, i);
    }
    PeekFinds(n, g, p.at, x, zero, 1, q);
    WrittenKey(net, g, Rank(o), p.at, x, zero, 1, p.maxPos, [0.0]);
    WrittenKey(net, g, Whole, p.at, x, zero, 1, p.maxPos, [1.0]);
    WrongOwnerRow(net, g, p, filled, xs, before, zero, 1, o, p.maxPos);
  }

  /** A rank that starts from leftovers writes them. */
  lemma UnfedBreaks(g: Group, n: nat, p: Pass, filled: nat, o: nat)
    requires g.Valid() && PassOk(g, p) && p.synced && 0 < n && 0 < o < g.size && InSlice(g, o, p.maxPos)
    ensures !AlwaysInStep(g, false, n, p, filled)
  {
    hide Hidden; hide WroteAll; hide AllInStep; hide After;
    var net, zero := Echo(n), Blanks(n, g);
    var x, rest: seq<Row> := Ones(|p.at|), seq(|p.at|, _ => [0.0]);
    var xs, before := seq(g.size, i => if i == 0 then x else rest), BlankLayers(n, g);
    BlanksInStep(net, g, filled);
    EchoHidden(n, g, Rank(o), p.at, rest, zero, 0);
    EchoHidden(n, g, Whole, p.at, x, zero, 0);
    WrittenKey(net, g, Rank(o), p.at, rest, zero, 0, p.maxPos, [0.0]);
    WrittenKey(net, g, Whole, p.at, x, zero, 0, p.maxPos, [1.0]);
    WrongOwnerRow(net, g, p, filled, xs, before, zero, 0, o, p.maxPos);
  }

  lemma SharedIsStronger(g: Group, n: nat, p: Pass, filled: nat)
    requires g.Valid() && PassOk(g, p) && AlwaysInStep(g, false, n, p, filled)
    ensures AlwaysInStep(g, true, n, p, filled)
  {
    hide AllInStep; hide After; hide WroteAll;
  }

  /** With two or more layers the caches stay undivided exactly when every batch lies in one fed slice. */
  lemma InStepIffOneSlice(g: Group, shared: bool, n: nat, p: Pass, filled: nat)
    requires g.Valid() && PassOk(g, p) && p.synced && 2 <= n && Covered(filled, p.at)
    ensures AlwaysInStep(g, shared, n, p, filled) <==> OneSlice(g, shared, p.at)
  {
    hide AllInStep; hide After; hide WroteAll; hide Covered;
    if OneSlice(g, shared, p.at) {
      forall net: Net, xs: seq<seq<Row>>, before: seq<Layer>, whole: seq<Kv> |
        net.nLayers == n && Layers(net, g, before) && Kvs(net, g, whole) && AllInStep(net, g, filled, before, whole)
        && Started(g, p, shared, xs)
        ensures AllInStep(net, g, FilledAfter(filled, p), After(net, g, p, xs, before),
          WroteAll(net, g, Whole, p.at, xs[0], whole))
      {
        OneSliceKeepsStep(net, g, shared, p, filled, xs, before, whole);
      }
    } else {
      hide AlwaysInStep;
      var o := g.Owner(p.maxPos);
      OwnerBounds(g, p.maxPos);
      if !Fed(shared, o) {
        UnfedBreaks(g, n, p, filled, o);
      } else {
        var b :| 0 <= b < |p.at| && !InSlice(g, o, p.at[b]);
        TwoSlicesBreak(g, n, p, filled, o, p.at[b]);
        if !shared && AlwaysInStep(g, shared, n, p, filled) { SharedIsStronger(g, n, p, filled); }
      }
    }
  }

  /** Layer 0 stays undivided for every batch: its rows come from the embedding. */
  lemma FirstLayerInStep(
      net: Net, g: Group, p: Pass, filled: nat, xs: seq<seq<Row>>, before: seq<Layer>, whole: seq<Kv>, i: nat, x: nat)
    requires g.Valid() && PassOk(g, p) && Started(g, p, true, xs) && Layers(net, g, before) && Kvs(net, g, whole)
    requires AllInStep(net, g, filled, before, whole) && Covered(filled, p.at) && p.synced
    requires 0 < net.nLayers && i < g.size && x < g.SeqLen() && x < FilledAfter(filled, p)
    ensures var w := WroteAll(net, g, Whole, p.at, xs[0], whole)[0];
      After(net, g, p, xs, before)[0].ks[i][x] == w.k[x] && After(net, g, p, xs, before)[0].vs[i][x] == w.v[x]
  {
    hide Wrote; hide After;
    AfterRow(net, g, p, xs, before, 0, i, x);
    var r := if x <= p.maxPos then g.Owner(x) else i;
    SameWrite(net, g, r, p.at, 0, filled, xs[r], xs[0], Own(net, g, before, r)[0], whole[0], x);
  }

  // ---- Whole runs --------------------------------------------------------------------------------------------

  function FilledAt(passes: seq<Pass>, filled: nat, n: nat): nat
    requires n <= |passes|
  {
    if n == 0 then filled else FilledAfter(FilledAt(passes, filled, n - 1), passes[n - 1])
  }

  /** The positions of a run, without gaps. */
  ghost predicate Plan(g: Group, passes: seq<Pass>, filled: nat)
  {
    forall f :: 0 <= f < |passes| ==> PassOk(g, passes[f]) && Covered(FilledAt(passes, filled, f), passes[f].at)
  }

  ghost predicate AllStarted(g: Group, passes: seq<Pass>, shared: bool, xs: seq<seq<seq<Row>>>)
  {
    |xs| == |passes| && forall f :: 0 <= f < |passes| ==> PassOk(g, passes[f]) && Started(g, passes[f], shared, xs[f])
  }

  /** A run of forwards, with any interleaving of every exchange; `ls[f]` are the caches before forward `f`. */
  ghost predicate GroupRun(net: Net, g: Group, passes: seq<Pass>, xs: seq<seq<seq<Row>>>, ls: seq<seq<Layer>>)
    requires AllStarted(g, passes, false, xs)
  {
    && |ls| == |passes| + 1 && (forall f :: 0 <= f < |ls| ==> Layers(net, g, ls[f]))
    && forall f :: 0 <= f < |passes| ==> GroupForward(net, g, passes[f], xs[f], ls[f], ls[f + 1])
  }

  /** The undivided model's caches before forward `n`. */
  ghost function WholeAt(net: Net, g: Group, passes: seq<Pass>, xs: seq<seq<seq<Row>>>, whole: seq<Kv>,
    n: nat): (r: seq<Kv>)
    requires AllStarted(g, passes, false, xs) && 0 < g.size && Kvs(net, g, whole) && n <= |passes|
    ensures Kvs(net, g, r)
  {
    if n == 0 then whole
    else WroteAll(net, g, Whole, passes[n - 1].at, xs[n - 1][0], WholeAt(net, g, passes, xs, whole, n - 1))
  }

  /** The root's hidden rows after all layers of forward `f` are the undivided model's. */
  ghost predicate RootRight(
      net: Net, g: Group, passes: seq<Pass>, xs: seq<seq<seq<Row>>>, ls: seq<seq<Layer>>, whole: seq<Kv>, f: nat)
    requires AllStarted(g, passes, false, xs) && GroupRun(net, g, passes, xs, ls) && 0 < g.size && Kvs(net, g, whole)
    requires f < |passes|
  {
    Hidden(net, g, Rank(0), passes[f].at, xs[f][0], Own(net, g, ls[f], 0), net.nLayers)
    == Hidden(net, g, Whole, passes[f].at, xs[f][0], WholeAt(net, g, passes, xs, whole, f), net.nLayers)
  }

  /** For all layer mathematics, embeddings, leftovers and interleavings, every forward of the run is right. */
  ghost predicate AlwaysRootRight(g: Group, shared: bool, nLayers: nat, passes: seq<Pass>, filled: nat)
    requires g.Valid()
  {
    forall net: Net, xs: seq<seq<seq<Row>>>, ls: seq<seq<Layer>>, whole: seq<Kv>, f: nat ::
      net.nLayers == nLayers && Kvs(net, g, whole) && AllStarted(g, passes, shared, xs)
        && AllStarted(g, passes, false, xs)
      && GroupRun(net, g, passes, xs, ls) && InStep(filled, Own(net, g, ls[0], 0), whole) && f < |passes|
      ==> RootRight(net, g, passes, xs, ls, whole, f)
  }

  /** The guard: the root's slice holds every position of the forward. */
  predicate BelowLocal(g: Group, p: Pass) { forall b :: 0 <= b < |p.at| ==> p.at[b] < g.local }

  lemma CoveredRow(p: Pass, filled: nat, x: nat)
    requires IsMax(p.at, p.maxPos) && Covered(filled, p.at) && x < FilledAfter(filled, p)
    ensures x < filled || x in p.at
  {
  }

  lemma RootStaysInStep(net: Net, g: Group, p: Pass, filled: nat, xs: seq<seq<Row>>, ls: seq<Layer>, whole: seq<Kv>)
    requires g.Valid() && PassOk(g, p) && Started(g, p, false, xs) && Layers(net, g, ls) && Kvs(net, g, whole)
    requires InStep(filled, Own(net, g, ls, 0), whole) && Covered(filled, p.at)
    requires BelowLocal(g, p)
    ensures InStep(FilledAfter(filled, p), Own(net, g, After(net, g, p, xs, ls), 0),
      WroteAll(net, g, Whole, p.at, xs[0], whole))
  {
    hide Hidden; hide Wrote; hide After; hide Covered;
    var after, w, own := After(net, g, p, xs, ls), WroteAll(net, g, Whole, p.at, xs[0], whole), Own(net, g, ls, 0);
    forall l, x | 0 <= l < net.nLayers && 0 <= x < g.SeqLen() && x < FilledAfter(filled, p)
      ensures after[l].ks[0][x] == w[l].k[x] && after[l].vs[0][x] == w[l].v[x]
    {
      AfterRow(net, g, p, xs, ls, l, 0, x);
      if x <= p.maxPos { SlicesDisjoint(g, 0, g.Owner(x), x); }
      forall b | 0 <= b < |p.at|
        ensures Hidden(net, g, Rank(0), p.at, xs[0], own, l)[b] == Hidden(net, g, Whole, p.at, xs[0], whole, l)[b]
      {
        HiddenFollows(net, g, 0, p.at, filled, xs[0], own, whole, l, b);
      }
      CoveredRow(p, filled, x);
      SameWrite(net, g, 0, p.at, l, filled, Hidden(net, g, Rank(0), p.at, xs[0], own, l),
                Hidden(net, g, Whole, p.at, xs[0], whole, l), own[l], whole[l], x);
    }
  }

  lemma {:induction false} RootInStepAt(
      net: Net, g: Group, passes: seq<Pass>, xs: seq<seq<seq<Row>>>, ls: seq<seq<Layer>>, whole: seq<Kv>, filled: nat,
        n: nat)
    requires g.Valid() && Plan(g, passes, filled) && AllStarted(g, passes, false, xs)
      && GroupRun(net, g, passes, xs, ls)
    requires Kvs(net, g, whole) && InStep(filled, Own(net, g, ls[0], 0), whole) && n <= |passes|
    requires forall f :: 0 <= f < n ==> BelowLocal(g, passes[f])
    ensures InStep(FilledAt(passes, filled, n), Own(net, g, ls[n], 0), WholeAt(net, g, passes, xs, whole, n))
    decreases n
  {
    hide InStep; hide GroupForward; hide Covered; hide BelowLocal; hide WroteAll; hide After; hide Own; hide Started;
    if 0 < n {
      RootInStepAt(net, g, passes, xs, ls, whole, filled, n - 1);
      var p := passes[n - 1];
      assert PassOk(g, p) && Started(g, p, false, xs[n - 1]) && Covered(FilledAt(passes, filled, n - 1), p.at);
      assert GroupForward(net, g, p, xs[n - 1], ls[n - 1], ls[n - 1 + 1]);
      ForwardIsAfter(net, g, p, xs[n - 1], ls[n - 1], ls[n]);
      RootStaysInStep(net, g, p, FilledAt(passes, filled, n - 1), xs[n - 1], ls[n - 1],
        WholeAt(net, g, passes, xs, whole, n - 1));
    }
  }

  /** While all positions lie in the root's slice, the root computes the undivided model. */
  lemma RootFollows(
      net: Net, g: Group, passes: seq<Pass>, xs: seq<seq<seq<Row>>>, ls: seq<seq<Layer>>, whole: seq<Kv>, filled: nat,
        f: nat)
    requires g.Valid() && Plan(g, passes, filled) && AllStarted(g, passes, false, xs)
      && GroupRun(net, g, passes, xs, ls)
    requires Kvs(net, g, whole) && InStep(filled, Own(net, g, ls[0], 0), whole) && f < |passes|
    requires forall e :: 0 <= e <= f ==> BelowLocal(g, passes[e])
    ensures RootRight(net, g, passes, xs, ls, whole, f)
  {
    hide InStep; hide GroupForward; hide Hidden; hide Covered; hide Own;
    RootInStepAt(net, g, passes, xs, ls, whole, filled, f);
    var p, own, w := passes[f], Own(net, g, ls[f], 0), WholeAt(net, g, passes, xs, whole, f);
    forall b | 0 <= b < |p.at|
      ensures Hidden(net, g, Rank(0), p.at, xs[f][0], own, net.nLayers)[b] ==
        Hidden(net, g, Whole, p.at, xs[f][0], w, net.nLayers)[b]
    {
      HiddenFollows(net, g, 0, p.at, FilledAt(passes, filled, f), xs[f][0], own, w, net.nLayers, b);
    }
  }

  // ---- The first forward that leaves the root's slice --------------------------------------------------------------

  ghost function AfterAt(net: Net, g: Group, passes: seq<Pass>, xs: seq<seq<seq<Row>>>, ls: seq<Layer>,
    n: nat): (r: seq<Layer>)
    requires g.Valid() && AllStarted(g, passes, false, xs) && Layers(net, g, ls) && n <= |passes|
    ensures Layers(net, g, r)
  {
    if n == 0 then ls else After(net, g, passes[n - 1], xs[n - 1], AfterAt(net, g, passes, xs, ls, n - 1))
  }

  lemma RunExists(net: Net, g: Group, passes: seq<Pass>, xs: seq<seq<seq<Row>>>, ls: seq<Layer>)
    returns (all: seq<seq<Layer>>)
    requires g.Valid() && AllStarted(g, passes, false, xs) && Layers(net, g, ls)
    ensures GroupRun(net, g, passes, xs, all) && all[0] == ls
    ensures |all| == |passes| + 1 && forall n :: 0 <= n <= |passes| ==> all[n] == AfterAt(net, g, passes, xs, ls, n)
  {
    hide GroupForward; hide After; hide Layers;
    all := seq(|passes| + 1, n requires 0 <= n <= |passes| => AfterAt(net, g, passes, xs, ls, n));
    forall f | 0 <= f < |passes| ensures GroupForward(net, g, passes[f], xs[f], all[f], all[f + 1]) {
      ForwardIsAfter(net, g, passes[f], xs[f], all[f], all[f + 1]);
    }
  }

  /** Nothing reaches the root's row at `q` before a batch holds a position outside its slice. */
  lemma {:induction false} RootRowUntouched(
      net: Net, g: Group, passes: seq<Pass>, xs: seq<seq<seq<Row>>>, ls: seq<Layer>, n: nat, l: nat, q: nat)
    requires g.Valid() && AllStarted(g, passes, false, xs) && Layers(net, g, ls) && n <= |passes| && l < net.nLayers
    requires g.local <= q < g.SeqLen() && forall f :: 0 <= f < n ==> BelowLocal(g, passes[f])
    ensures AfterAt(net, g, passes, xs, ls, n)[l].ks[0][q] == ls[l].ks[0][q]
    decreases n
  {
    hide Hidden; hide Shifted; hide After;
    if 0 < n {
      RootRowUntouched(net, g, passes, xs, ls, n - 1, l, q);
      var p, x, before := passes[n - 1], xs[n - 1], AfterAt(net, g, passes, xs, ls, n - 1);
      assert PassOk(g, p) && Started(g, p, false, x) && BelowLocal(g, p);
      AfterRow(net, g, p, x, before, l, 0, q);
      var own := Own(net, g, before, 0);
      Unwritten(g, own[l].k, InputOf(net, l, p.at, Hidden(net, g, Rank(0), p.at, x[0], own, l)).Keys(), |p.at|, 0,
        true, q);
    }
  }

  lemma {:induction false} FirstOutside(g: Group, passes: seq<Pass>, n: nat) returns (f: nat)
    requires n < |passes| && !BelowLocal(g, passes[n])
    ensures f <= n && !BelowLocal(g, passes[f]) && forall e :: 0 <= e < f ==> BelowLocal(g, passes[e])
  {
    hide BelowLocal;
    f := 0;
    while BelowLocal(g, passes[f])
      invariant f <= n && forall e :: 0 <= e < f ==> BelowLocal(g, passes[e])
      decreases n - f
    {
      f := f + 1;
    }
  }

  /** Every rank starts every forward of the run from rows of ones. */
  ghost function OnesRun(g: Group, passes: seq<Pass>): (xs: seq<seq<seq<Row>>>)
    ensures |xs| == |passes| && forall f :: 0 <= f < |xs| ==> xs[f] == seq(g.size, _ => Ones(|passes[f].at|))
  {
    seq(|passes|, e requires 0 <= e < |passes| => seq(g.size, _ => Ones(|passes[e].at|)))
  }

  lemma OnesStarted(g: Group, passes: seq<Pass>, filled: nat, shared: bool)
    requires Plan(g, passes, filled)
    ensures AllStarted(g, passes, shared, OnesRun(g, passes))
  {
  }

  /** At the first forward with a position `q` outside its slice the root reads what its cache held at first. */
  lemma OutsideIsMissed(g: Group, nLayers: nat, passes: seq<Pass>, f: nat, b: nat, all: seq<seq<Layer>>)
    requires g.Valid() && 0 < nLayers && f < |passes| && b < |passes[f].at| && passes[f].at[b] >= g.local
    requires forall e :: 0 <= e < f ==> BelowLocal(g, passes[e])
    requires AllStarted(g, passes, false, OnesRun(g, passes))
    requires GroupRun(Peek(nLayers, passes[f].at[b]), g, passes, OnesRun(g, passes), all)
    requires all[f] == AfterAt(Peek(nLayers, passes[f].at[b]), g, passes, OnesRun(g, passes), BlankLayers(nLayers, g),
      f)
    ensures !RootRight(Peek(nLayers, passes[f].at[b]), g, passes, OnesRun(g, passes), all, Blanks(nLayers, g), f)
  {
    hide Hidden; hide GroupForward; hide After; hide AfterAt;
    var p, q, xs := passes[f], passes[f].at[b], OnesRun(g, passes);
    assert PassOk(g, p) && xs[f][0] == Ones(|p.at|);
    RootRowUntouched(Peek(nLayers, q), g, passes, xs, BlankLayers(nLayers, g), f, nLayers - 1, q);
    PeekMisses(nLayers, g, 0, p.at, xs[f][0], Own(Peek(nLayers, q), g, all[f], 0), nLayers, q, b);
    PeekFinds(nLayers, g, p.at, xs[f][0], WholeAt(Peek(nLayers, q), g, passes, xs, Blanks(nLayers, g), f), nLayers, q);
  }

  lemma OutsideIsWrong(g: Group, shared: bool, nLayers: nat, passes: seq<Pass>, filled: nat, f: nat, b: nat)
    requires g.Valid() && Plan(g, passes, filled) && 0 < nLayers && f < |passes|
    requires b < |passes[f].at| && passes[f].at[b] >= g.local && forall e :: 0 <= e < f ==> BelowLocal(g, passes[e])
    ensures !AlwaysRootRight(g, shared, nLayers, passes, filled)
  {
    hide *;
    var net, zero, xs := Peek(nLayers, passes[f].at[b]), Blanks(nLayers, g), OnesRun(g, passes);
    OnesStarted(g, passes, filled, shared);
    OnesStarted(g, passes, filled, false);
    PeekLayers(nLayers, passes[f].at[b]);
    BlanksInStep(net, g, filled);
    var all := RunExists(net, g, passes, xs, BlankLayers(nLayers, g));
    OutsideIsMissed(g, nLayers, passes, f, b, all);
    OneWrongRun(g, shared, passes, filled, net, xs, all, zero, f);
  }

  lemma OneWrongRun(
      g: Group, shared: bool, passes: seq<Pass>, filled: nat, net: Net, xs: seq<seq<seq<Row>>>, ls: seq<seq<Layer>>,
        whole: seq<Kv>,
      f: nat)
    requires g.Valid() && Kvs(net, g, whole) && AllStarted(g, passes, shared, xs) && AllStarted(g, passes, false, xs)
    requires GroupRun(net, g, passes, xs, ls) && InStep(filled, Own(net, g, ls[0], 0), whole) && f < |passes|
    requires !RootRight(net, g, passes, xs, ls, whole, f)
    ensures !AlwaysRootRight(g, shared, net.nLayers, passes, filled)
  {
    hide RootRight; hide GroupForward; hide InStep; hide Own; hide AllStarted; hide Kvs;
  }

  lemma PositionOutside(g: Group, p: Pass) returns (b: nat)
    requires !BelowLocal(g, p)
    ensures b < |p.at| && p.at[b] >= g.local
  {
    b :| b < |p.at| && p.at[b] >= g.local;
  }

  lemma PeekLayers(n: nat, q: nat)
    ensures Peek(n, q).nLayers == n
  {
  }

  /** A run of forwards is right on the root for all models and leftovers, exactly when no position leaves the
      root's slice; with one rank that is always. */
  lemma RunRightIff(g: Group, shared: bool, nLayers: nat, passes: seq<Pass>, filled: nat)
    requires g.Valid() && Plan(g, passes, filled) && 0 < nLayers
    ensures AlwaysRootRight(g, shared, nLayers, passes, filled)
      <==> forall f :: 0 <= f < |passes| ==> BelowLocal(g, passes[f])
  {
    hide InStep; hide GroupForward; hide BelowLocal; hide AllStarted; hide Plan; hide RootRight; hide Own;
    if n :| 0 <= n < |passes| && !BelowLocal(g, passes[n]) {
      var f := FirstOutside(g, passes, n);
      var b := PositionOutside(g, passes[f]);
      OutsideIsWrong(g, shared, nLayers, passes, filled, f, b);
    } else {
      forall net: Net, xs: seq<seq<seq<Row>>>, ls: seq<seq<Layer>>, whole: seq<Kv>, f: nat |
        net.nLayers == nLayers && Kvs(net, g, whole) && AllStarted(g, passes, shared, xs)
        && AllStarted(g, passes, false, xs) && GroupRun(net, g, passes, xs, ls)
        && InStep(filled, Own(net, g, ls[0], 0), whole) && f < |passes|
        ensures RootRight(net, g, passes, xs, ls, whole, f)
      {
        RootFollows(net, g, passes, xs, ls, whole, filled, f);
      }
    }
  }

  /** Two ranks of one position, the root fed, a batch at position 1, attention that returns the last key row:
      the root gets its leftover row, the undivided model the new one. */
  lemma StaleExample(stale: Row)
    ensures var g, at := Group(2, 1), [1];
      var net := Net(1, (l, p, x) => (x, x), (l, p, x, ks: seq<Row>, vs) => if |ks| > 0 then ks[|ks| - 1] else x);
      var own := [Kv([stale, stale], [stale, stale])];
      && Hidden(net, g, Rank(0), at, [[1.0]], own, 1) == [stale]
      && Hidden(net, g, Whole, at, [[1.0]], own, 1) == [[1.0]]
  {
    var g, at := Group(2, 1), [1];
    var net := Net(1, (l, p, x) => (x, x), (l, p, x, ks: seq<Row>, vs) => if |ks| > 0 then ks[|ks| - 1] else x);
    var own := Kv([stale, stale], [stale, stale]);
    assert Kvs(net, g, [own]);
    var keys := InputOf(net, 0, at, [[1.0]]).Keys();
    assert at[..1] == [1];
    Unwritten(g, own.k, keys, 1, 0, true, 1);
    LastWrite(g, own.k, keys, 1, 0, false, 1, [1.0]);
    assert Hidden(net, g, Rank(0), at, [[1.0]], [own], 0) == [[1.0]] == Hidden(net, g, Whole, at, [[1.0]], [own], 0);
  }
}
