/** Pipeline compilation preserves meaning: the stage programs chained over the X pipe compute the
    logits and the KV caches of the one-stage program, whatever is left in the buffers. */
module PipelineRefinement {
  import opened LayerPrograms
  import opened StageSemantics
  import opened SegmentFootprints

  /** Casts between F_32 pipes and buffers are copies. */
  ghost predicate CopyingCasts(eval: Eval)
  {
    forall v: Tensor :: eval(Cast(F32, F32), [v]) == [v]
  }

  // ---- One forward pass ---------------------------------------------------------------------------

  function RootInput(m: Memory, pos: Tensor, tok: Tensor): Memory { Put(Put(m, Pos, pos), Tok, tok) }

  function WorkerInput(m: Memory, pos: Tensor, x: Tensor): Memory { Put(Put(m, Pos, pos), X, x) }

  /** One forward of the undivided model. */
  function Whole(eval: Eval, c: Config, nLayers: nat, m: Memory, pos: Tensor, tok: Tensor): Memory
  {
    Run(eval, StageProgram(c, 1, 0, 0, nLayers), RootInput(m, pos, tok))
  }

  datatype Pipeline = Pipeline(c: Config, pp: nat, offsets: seq<nat>, nLayers: nat)
  {
    predicate Valid() { 0 < pp && Partition(offsets, pp, nLayers) }
  }

  function ProgramOf(n: Pipeline, j: nat): Program
    requires n.Valid() && j < n.pp
  {
    StageProgram(n.c, n.pp, j, n.offsets[j], n.offsets[j + 1])
  }

  /** The memory of stage `j` after one forward: stage 0 gets the tokens, the others the X pipe of the stage before. */
  function Staged(eval: Eval, n: Pipeline, mems: seq<Memory>, pos: Tensor, tok: Tensor, j: nat): Memory
    requires n.Valid() && |mems| == n.pp && j < n.pp
    decreases j, 1
  {
    Run(eval, ProgramOf(n, j), Given(eval, n, mems, pos, tok, j))
  }

  function Given(eval: Eval, n: Pipeline, mems: seq<Memory>, pos: Tensor, tok: Tensor, j: nat): Memory
    requires n.Valid() && |mems| == n.pp && j < n.pp
    decreases j, 0
  {
    if j == 0 then RootInput(mems[0], pos, tok)
        else WorkerInput(mems[j], pos, Staged(eval, n, mems, pos, tok, j - 1)(X))
  }

  function AfterForward(eval: Eval, n: Pipeline, mems: seq<Memory>, pos: Tensor, tok: Tensor): (r: seq<Memory>)
    requires n.Valid() && |mems| == n.pp
    ensures |r| == n.pp
  {
    seq(n.pp, j requires 0 <= j < n.pp => Staged(eval, n, mems, pos, tok, j))
  }

  predicate SameCache(a: Memory, b: Memory, from: nat, to: nat)
  {
    forall l: nat :: from <= l < to ==> a(K(l)) == b(K(l)) && a(V(l)) == b(V(l))
  }

  /** Each stage holds the caches of its own layers, as the undivided model does, and the same rope table. */
  predicate Matches(n: Pipeline, mems: seq<Memory>, whole: Memory)
    requires n.Valid()
  {
    |mems| == n.pp && forall j :: 0 <= j < n.pp ==> StageMatches(n, mems[j], whole, j)
  }

  predicate StageMatches(n: Pipeline, m: Memory, whole: Memory, j: nat)
    requires n.Valid() && j < n.pp
  {
    m(RopeCache) == whole(RopeCache) && SameCache(m, whole, n.offsets[j], n.offsets[j + 1])
  }

  // ---- Facts about single programs ------------------------------------------------------------------

  lemma ExecOne(eval: Eval, op: Op, m: Memory)
    requires |op.outs| == 1
    ensures var vals := eval(op.kind, Fetch(m, op.args));
      Exec(eval, op, m)(op.outs[0]) == if vals == [] then [] else vals[0]
    ensures forall l :: l != op.outs[0] ==> Exec(eval, op, m)(l) == m(l)
  {
    var vals := eval(op.kind, Fetch(m, op.args));
    var m1 := Put(m, op.outs[0], if vals == [] then [] else vals[0]);
    assert op.outs[1..] == [];
    assert PutAll(m1, [], if vals == [] then [] else vals[1..]) == m1;
  }

  function Merged(eval: Eval, m: Memory): Tensor { Exec(eval, Op(MergeAdd, [Zq, BX], [BX]), m)(BX) }

  lemma MergedAgrees(eval: Eval, a: Memory, b: Memory)
    requires a(Zq) == b(Zq) && a(BX) == b(BX)
    ensures Merged(eval, a) == Merged(eval, b)
  {
    var op := Op(MergeAdd, [Zq, BX], [BX]);
    ExecOne(eval, op, a);
    ExecOne(eval, op, b);
    assert Fetch(a, op.args) == Fetch(b, op.args);
  }

  lemma HeadEffect(eval: Eval, l: nat, first: bool, m: Memory)
    requires CopyingCasts(eval)
    ensures Run(eval, Head(l, first), m)(BX) == if first then m(X) else Merged(eval, m)
    ensures forall x :: x != BX ==> Run(eval, Head(l, first), m)(x) == m(x)
  {
    var op := Head(l, first)[0];
    ExecOne(eval, op, m);
    if first { assert Fetch(m, op.args) == [m(X)]; }
  }

  lemma BridgeEffect(eval: Eval, m: Memory)
    requires CopyingCasts(eval)
    ensures Run(eval, Bridge(), m)(X) == Merged(eval, m)
    ensures forall x :: x != BX && x != X ==> Run(eval, Bridge(), m)(x) == m(x)
  {
    var a, b := Op(MergeAdd, [Zq, BX], [BX]), Op(Cast(F32, F32), [BX], [X]);
    var m1 := Exec(eval, a, m);
    assert Bridge() == [a] + [b];
    RunAppend(eval, [a], [b], m);
    ExecOne(eval, a, m);
    ExecOne(eval, b, m1);
    assert Fetch(m1, b.args) == [m1(BX)];
  }

  /** A layer body turns memories alike in x, position and its cache into memories alike in x, zq and its cache. */
  lemma BodyAgrees(eval: Eval, c: Config, l: nat, a: Memory, b: Memory)
    requires a(BX) == b(BX) && a(Pos) == b(Pos) && a(RopeCache) == b(RopeCache)
    requires a(K(l)) == b(K(l)) && a(V(l)) == b(V(l))
    ensures var a', b' := Run(eval, Body(c, l), a), Run(eval, Body(c, l), b);
      a'(BX) == b'(BX) && a'(Zq) == b'(Zq) && a'(K(l)) == b'(K(l)) && a'(V(l)) == b'(V(l))
  {
    hide Body;
    BodySegment(c, l);
    NonInterference(eval, Body(c, l), a, b, {BX, Pos, RopeCache, K(l), V(l)});
  }

  lemma BodyKeeps(eval: Eval, c: Config, l: nat, m: Memory, x: Loc)
    requires !Scratch(x, l)
    ensures Run(eval, Body(c, l), m)(x) == m(x)
  {
    hide Body;
    BodySegment(c, l);
    Untouched(eval, Body(c, l), m, x);
  }

  function LayerStep(eval: Eval, c: Config, l: nat, first: bool, m: Memory): Memory
  {
    Run(eval, Body(c, l), Run(eval, Head(l, first), m))
  }

  lemma LayersStep(eval: Eval, c: Config, from: nat, l: nat, m: Memory)
    requires from <= l
    ensures Run(eval, Layers(c, from, l + 1), m) == LayerStep(eval, c, l, l == from, Run(eval, Layers(c, from, l), m))
  {
    hide Head; hide Body; hide Run;
    RunAppend(eval, Layers(c, from, l) + Head(l, l == from), Body(c, l), m);
    RunAppend(eval, Layers(c, from, l), Head(l, l == from), m);
  }

  lemma RunNothing(eval: Eval, m: Memory)
    ensures Run(eval, [], m) == m
  {
  }

  /** Locations no layer in a range writes. */
  lemma {:induction false} LayersKeep(eval: Eval, c: Config, from: nat, upto: nat, m: Memory, x: Loc)
    requires CopyingCasts(eval) && x != BX && forall l: nat :: from <= l < upto ==> !Scratch(x, l)
    ensures Run(eval, Layers(c, from, upto), m)(x) == m(x)
    decreases upto
  {
    hide Head; hide Body; hide Run; hide Scratch; hide CopyingCasts;
    if upto <= from {
      RunNothing(eval, m);
    } else {
      var mid := Run(eval, Layers(c, from, upto - 1), m);
      LayersKeep(eval, c, from, upto - 1, m, x);
      LayersStep(eval, c, from, upto - 1, m);
      HeadEffect(eval, upto - 1, upto - 1 == from, mid);
      BodyKeeps(eval, c, upto - 1, Run(eval, Head(upto - 1, upto - 1 == from), mid), x);
    }
  }

  // ---- Stage and whole, layer by layer ----------------------------------------------------------------

  /** The undivided model after the embedding and the layers below `l`. */
  function Prefix(eval: Eval, c: Config, l: nat, input: Memory): Memory
  {
    Run(eval, Layers(c, 0, l), Run(eval, Start(0), input))
  }

  /** The hidden row at the boundary before layer `l`. */
  function Hidden(eval: Eval, c: Config, l: nat, input: Memory): Tensor
  {
    if l == 0 then Run(eval, Start(0), input)(X) else Merged(eval, Prefix(eval, c, l, input))
  }

  /** Stage memory `m`, begun at layer `from` and now before layer `l`, follows the undivided model. */
  predicate Follows(eval: Eval, c: Config, from: nat, l: nat, to: nat, m: Memory, input: Memory)
  {
    var w := Prefix(eval, c, l, input);
    && m(Pos) == w(Pos) && m(RopeCache) == w(RopeCache) && SameCache(m, w, from, to)
    && (if l == from then m(X) == Hidden(eval, c, l, input) else m(BX) == w(BX) && m(Zq) == w(Zq))
  }

  /** Cast in or merged, x is the same after a layer's head. */
  lemma FollowsHead(eval: Eval, c: Config, from: nat, l: nat, to: nat, m: Memory, input: Memory)
    requires CopyingCasts(eval) && from <= l < to && Follows(eval, c, from, l, to, m, input)
    ensures Run(eval, Head(l, l == from), m)(BX) == Run(eval, Head(l, l == 0), Prefix(eval, c, l, input))(BX)
  {
    hide Head; hide Body; hide Run; hide CopyingCasts; hide Start; hide Merged; hide SameCache; hide Layers;
    var w := Prefix(eval, c, l, input);
    HeadEffect(eval, l, l == from, m);
    HeadEffect(eval, l, l == 0, w);
    if l == from {
      PrefixNothing(eval, c, input);
    } else {
      MergedAgrees(eval, m, w);
    }
  }

  lemma PrefixNothing(eval: Eval, c: Config, input: Memory)
    ensures Prefix(eval, c, 0, input) == Run(eval, Start(0), input)
  {
    hide Start;
    RunNothing(eval, Run(eval, Start(0), input));
  }

  /** The layer body keeps two memories in step. */
  lemma BodyStep(eval: Eval, c: Config, from: nat, l: nat, to: nat, a: Memory, b: Memory)
    requires a(BX) == b(BX) && a(Pos) == b(Pos) && a(RopeCache) == b(RopeCache)
    requires from <= l < to && SameCache(a, b, from, to)
    ensures var a', b' := Run(eval, Body(c, l), a), Run(eval, Body(c, l), b);
      && a'(Pos) == b'(Pos) && a'(RopeCache) == b'(RopeCache) && a'(BX) == b'(BX) && a'(Zq) == b'(Zq)
      && SameCache(a', b', from, to)
  {
    hide Body; hide Run;
    var a', b' := Run(eval, Body(c, l), a), Run(eval, Body(c, l), b);
    BodyAgrees(eval, c, l, a, b);
    forall x: Loc | x == Pos || x == RopeCache || ((x.K? || x.V?) && from <= x.layer < to && x.layer != l)
      ensures a'(x) == b'(x)
    {
      BodyKeeps(eval, c, l, a, x);
      BodyKeeps(eval, c, l, b, x);
    }
  }

  lemma HeadStep(eval: Eval, c: Config, from: nat, l: nat, to: nat, m: Memory, input: Memory)
    requires CopyingCasts(eval) && from <= l < to && Follows(eval, c, from, l, to, m, input)
    ensures var m1, w1 := Run(eval, Head(l, l == from), m), Run(eval, Head(l, l == 0), Prefix(eval, c, l, input));
      m1(BX) == w1(BX) && m1(Pos) == w1(Pos) && m1(RopeCache) == w1(RopeCache) && SameCache(m1, w1, from, to)
  {
    hide Head; hide Run; hide CopyingCasts; hide Merged; hide Prefix; hide Hidden;
    FollowsHead(eval, c, from, l, to, m, input);
    HeadEffect(eval, l, l == from, m);
    HeadEffect(eval, l, l == 0, Prefix(eval, c, l, input));
  }

  /** Head and body of a layer keep a stage in step, whether the stage casts in or merges. */
  lemma FollowsStep(eval: Eval, c: Config, from: nat, l: nat, to: nat, m: Memory, input: Memory)
    requires CopyingCasts(eval) && from <= l < to && Follows(eval, c, from, l, to, m, input)
    ensures Follows(eval, c, from, l + 1, to, LayerStep(eval, c, l, l == from, m), input)
  {
    hide Head; hide Body; hide Run; hide CopyingCasts; hide Start; hide Layers; hide SameCache; hide Hidden;
    LayersStep(eval, c, 0, l, Run(eval, Start(0), input));
    HeadStep(eval, c, from, l, to, m, input);
    BodyStep(eval, c, from, l, to, Run(eval, Head(l, l == from), m),
      Run(eval, Head(l, l == 0), Prefix(eval, c, l, input)));
  }

  lemma {:induction false} FollowsLayers(eval: Eval, c: Config, from: nat, l: nat, to: nat, m: Memory, input: Memory)
    requires CopyingCasts(eval) && from <= l <= to && Follows(eval, c, from, from, to, m, input)
    ensures Follows(eval, c, from, l, to, Run(eval, Layers(c, from, l), m), input)
    decreases l
  {
    hide Head; hide Body; hide Run; hide CopyingCasts; hide Start; hide Merged; hide Follows; hide LayerStep;
    if l == from {
      RunNothing(eval, m);
    } else {
      FollowsLayers(eval, c, from, l - 1, to, m, input);
      LayersStep(eval, c, from, l - 1, m);
      FollowsStep(eval, c, from, l - 1, to, Run(eval, Layers(c, from, l - 1), m), input);
    }
  }

  // ---- Stage after stage ------------------------------------------------------------------------------

  lemma StageRuns(eval: Eval, n: Pipeline, j: nat, m: Memory)
    requires n.Valid() && j < n.pp
    ensures Run(eval, ProgramOf(n, j), m) ==
      Run(eval, LastSegment(n, j), Run(eval, Layers(n.c, n.offsets[j], n.offsets[j + 1]), Run(eval, Start(j), m)))
  {
    hide Run; hide Start; hide Layers; hide Bridge; hide End;
    var a, b := n.offsets[j], n.offsets[j + 1];
    RunAppend(eval, Start(j) + Layers(n.c, a, b), LastSegment(n, j), m);
    RunAppend(eval, Start(j), Layers(n.c, a, b), m);
  }

  lemma WholeRuns(eval: Eval, c: Config, nLayers: nat, m: Memory)
    ensures Run(eval, StageProgram(c, 1, 0, 0, nLayers), m) == Run(eval, End(c), Prefix(eval, c, nLayers, m))
  {
    hide Run; hide Start; hide Layers; hide Bridge; hide End;
    RunAppend(eval, Start(0) + Layers(c, 0, nLayers), End(c), m);
    RunAppend(eval, Start(0), Layers(c, 0, nLayers), m);
  }

  lemma EmbeddingKeeps(eval: Eval, m: Memory, x: Loc)
    requires x != X
    ensures Run(eval, Start(0), m)(x) == m(x)
  {
    var op := Op(Embedding, [Tok], [X]);
    ExecOne(eval, op, m);
  }

  lemma EmbeddingAgrees(eval: Eval, a: Memory, b: Memory)
    requires a(Tok) == b(Tok)
    ensures Run(eval, Start(0), a)(X) == Run(eval, Start(0), b)(X)
  {
    var op := Op(Embedding, [Tok], [X]);
    ExecOne(eval, op, a);
    ExecOne(eval, op, b);
    assert Fetch(a, op.args) == Fetch(b, op.args);
  }

  /** What the undivided model still holds before layer `l` of what it started with. */
  lemma PrefixKeeps(eval: Eval, c: Config, l: nat, input: Memory, x: Loc)
    requires CopyingCasts(eval) && x != BX && x != X && forall i: nat :: i < l ==> !Scratch(x, i)
    ensures Prefix(eval, c, l, input)(x) == input(x)
  {
    LayersKeep(eval, c, 0, l, Run(eval, Start(0), input), x);
    EmbeddingKeeps(eval, input, x);
  }

  /** A stage whose input is the hidden row at its boundary starts in step. */
  lemma StageStarts(eval: Eval, n: Pipeline, j: nat, m: Memory, whole: Memory, pos: Tensor, tok: Tensor, x: Tensor)
    requires CopyingCasts(eval) && n.Valid() && j < n.pp && StageMatches(n, m, whole, j)
    requires 0 < j ==> n.offsets[0] < n.offsets[j] && x == Hidden(eval, n.c, n.offsets[j], RootInput(whole, pos, tok))
    ensures var input := RootInput(whole, pos, tok);
      var m0 := Run(eval, Start(j), if j == 0 then RootInput(m, pos, tok) else WorkerInput(m, pos, x));
      Follows(eval, n.c, n.offsets[j], n.offsets[j], n.offsets[j + 1], m0, input)
  {
    hide Run; hide Head; hide Body; hide Layers; hide CopyingCasts; hide Merged; hide Prefix; hide Hidden;
    var input := RootInput(whole, pos, tok);
    var given := if j == 0 then RootInput(m, pos, tok) else WorkerInput(m, pos, x);
    var m0 := Run(eval, Start(j), given);
    var a, b := n.offsets[j], n.offsets[j + 1];
    PrefixKeeps(eval, n.c, a, input, Pos);
    PrefixKeeps(eval, n.c, a, input, RopeCache);
    if j == 0 {
      EmbeddingKeeps(eval, given, Pos);
      EmbeddingKeeps(eval, given, RopeCache);
      EmbeddingAgrees(eval, given, input);
      HiddenAtStart(eval, n.c, input);
    } else {
      RunNothing(eval, given);
    }
    forall l: nat | a <= l < b
      ensures m0(K(l)) == Prefix(eval, n.c, a, input)(K(l)) && m0(V(l)) == Prefix(eval, n.c, a, input)(V(l))
    {
      PrefixKeeps(eval, n.c, a, input, K(l));
      PrefixKeeps(eval, n.c, a, input, V(l));
      if j == 0 {
        EmbeddingKeeps(eval, given, K(l));
        EmbeddingKeeps(eval, given, V(l));
      }
    }
  }

  lemma HiddenAtStart(eval: Eval, c: Config, input: Memory)
    ensures Hidden(eval, c, 0, input) == Run(eval, Start(0), input)(X)
  {
  }

  /** The memory of stage `j` before its last segment. */
  function BeforeLast(eval: Eval, n: Pipeline, mems: seq<Memory>, pos: Tensor, tok: Tensor, j: nat): Memory
    requires n.Valid() && |mems| == n.pp && j < n.pp
  {
    Run(eval, Layers(n.c, n.offsets[j], n.offsets[j + 1]), Run(eval, Start(j), Given(eval, n, mems, pos, tok, j)))
  }

  function LastSegment(n: Pipeline, j: nat): Program { if j + 1 < n.pp then Bridge() else End(n.c) }

  lemma StagedAsSegments(eval: Eval, n: Pipeline, mems: seq<Memory>, pos: Tensor, tok: Tensor, j: nat)
    requires n.Valid() && |mems| == n.pp && j < n.pp
    ensures Staged(eval, n, mems, pos, tok, j) == Run(eval, LastSegment(n, j), BeforeLast(eval, n, mems, pos, tok, j))
  {
    hide Run; hide Start; hide Layers; hide ProgramOf; hide Given;
    StageRuns(eval, n, j, Given(eval, n, mems, pos, tok, j));
  }

  /** Before its last segment, every stage has followed the undivided model through its layers, and
      every stage but the last hands over the hidden row at the next boundary. */
  lemma {:induction false} StageFollows(
      eval: Eval, n: Pipeline, mems: seq<Memory>, whole: Memory, pos: Tensor, tok: Tensor, j: nat)
    requires CopyingCasts(eval) && n.Valid() && NonEmptyStages(n.offsets, n.pp) && |mems| == n.pp
      && Matches(n, mems, whole) && j < n.pp
    ensures var input := RootInput(whole, pos, tok);
      && Follows(eval, n.c, n.offsets[j], n.offsets[j + 1], n.offsets[j + 1], BeforeLast(eval, n, mems, pos, tok, j),
        input)
      && (j + 1 < n.pp ==> Staged(eval, n, mems, pos, tok, j)(X) == Hidden(eval, n.c, n.offsets[j + 1], input))
    decreases j
  {
    hide Run; hide Start; hide Layers; hide Bridge; hide End; hide CopyingCasts; hide Merged; hide Follows;
    hide Hidden; hide Staged; hide StageMatches;
    var input := RootInput(whole, pos, tok);
    var a, b := n.offsets[j], n.offsets[j + 1];
    var x := if j == 0 then [] else Staged(eval, n, mems, pos, tok, j - 1)(X);
    if 0 < j {
      StageFollows(eval, n, mems, whole, pos, tok, j - 1);
    }
    StageStarts(eval, n, j, mems[j], whole, pos, tok, x);
    FollowsLayers(eval, n.c, a, b, b, Run(eval, Start(j), Given(eval, n, mems, pos, tok, j)), input);
    if j + 1 < n.pp {
      var last := BeforeLast(eval, n, mems, pos, tok, j);
      StagedAsSegments(eval, n, mems, pos, tok, j);
      BridgeEffect(eval, last);
      FollowsMerged(eval, n.c, a, b, last, input);
    }
  }

  lemma FollowsMerged(eval: Eval, c: Config, from: nat, l: nat, m: Memory, input: Memory)
    requires from < l && Follows(eval, c, from, l, l, m, input)
    ensures Merged(eval, m) == Hidden(eval, c, l, input)
  {
    hide Run; hide Merged; hide Prefix;
    MergedAgrees(eval, m, Prefix(eval, c, l, input));
  }

  lemma EndKeepsCache(eval: Eval, c: Config, m: Memory, x: Loc)
    requires x.K? || x.V? || x.RopeCache?
    ensures Run(eval, End(c), m)(x) == m(x)
  {
    hide End;
    EndSegment(c);
    Untouched(eval, End(c), m, x);
  }

  lemma EndAgrees(eval: Eval, c: Config, a: Memory, b: Memory)
    requires a(BX) == b(BX) && a(Zq) == b(Zq)
    ensures Run(eval, End(c), a)(Lg) == Run(eval, End(c), b)(Lg)
  {
    hide End;
    EndSegment(c);
    NonInterference(eval, End(c), a, b, {BX, Zq});
  }

  predicate IsCacheOf(x: Loc, from: nat, to: nat) { x.RopeCache? || ((x.K? || x.V?) && from <= x.layer < to) }

  lemma StageCacheAt(
      eval: Eval, n: Pipeline, mems: seq<Memory>, whole: Memory, pos: Tensor, tok: Tensor, j: nat, x: Loc)
    requires CopyingCasts(eval) && n.Valid() && NonEmptyStages(n.offsets, n.pp) && |mems| == n.pp
      && Matches(n, mems, whole) && j < n.pp
    requires IsCacheOf(x, n.offsets[j], n.offsets[j + 1])
    ensures Staged(eval, n, mems, pos, tok, j)(x) == Whole(eval, n.c, n.nLayers, whole, pos, tok)(x)
  {
    hide Run; hide Bridge; hide End; hide CopyingCasts; hide Staged; hide BeforeLast;
    hide StageProgram; hide NonEmptyStages; hide Matches; hide Hidden; hide Prefix;
    var input := RootInput(whole, pos, tok);
    var last := BeforeLast(eval, n, mems, pos, tok, j);
    StageFollows(eval, n, mems, whole, pos, tok, j);
    StagedAsSegments(eval, n, mems, pos, tok, j);
    WholeRuns(eval, n.c, n.nLayers, input);
    if j + 1 < n.pp { BridgeEffect(eval, last); } else { EndKeepsCache(eval, n.c, last, x); }
    EndKeepsCache(eval, n.c, Prefix(eval, n.c, n.nLayers, input), x);
    Within(n, j);
    LaterLayersKeep(eval, n.c, n.offsets[j + 1], n.nLayers, input, x);
  }

  /** The caches a stage ends with are the undivided model's. */
  lemma StageCache(eval: Eval, n: Pipeline, mems: seq<Memory>, whole: Memory, pos: Tensor, tok: Tensor, j: nat)
    requires CopyingCasts(eval) && n.Valid() && NonEmptyStages(n.offsets, n.pp) && |mems| == n.pp
      && Matches(n, mems, whole) && j < n.pp
    ensures StageMatches(n, Staged(eval, n, mems, pos, tok, j), Whole(eval, n.c, n.nLayers, whole, pos, tok), j)
  {
    hide Staged; hide Whole; hide CopyingCasts; hide Matches;
    forall x: Loc | IsCacheOf(x, n.offsets[j], n.offsets[j + 1])
      ensures Staged(eval, n, mems, pos, tok, j)(x) == Whole(eval, n.c, n.nLayers, whole, pos, tok)(x)
    {
      StageCacheAt(eval, n, mems, whole, pos, tok, j, x);
    }
  }

  lemma {:induction false} LaterLayersKeep(eval: Eval, c: Config, b: nat, upto: nat, input: Memory, x: Loc)
    requires CopyingCasts(eval) && b <= upto && (x.RopeCache? || ((x.K? || x.V?) && x.layer < b))
    ensures Prefix(eval, c, upto, input)(x) == Prefix(eval, c, b, input)(x)
    decreases upto
  {
    hide Run; hide Start; hide CopyingCasts; hide Head; hide Body;
    if b < upto {
      LaterLayersKeep(eval, c, b, upto - 1, input, x);
      LayersStep(eval, c, 0, upto - 1, Run(eval, Start(0), input));
      var mid := Prefix(eval, c, upto - 1, input);
      HeadEffect(eval, upto - 1, upto - 1 == 0, mid);
      BodyKeeps(eval, c, upto - 1, Run(eval, Head(upto - 1, upto - 1 == 0), mid), x);
    }
  }

  lemma {:induction false} Within(n: Pipeline, j: nat)
    requires n.Valid() && j < n.pp
    ensures n.offsets[j + 1] <= n.nLayers
    decreases n.pp - j
  {
    if j + 1 < n.pp { Within(n, j + 1); }
  }

  lemma StageLogits(eval: Eval, n: Pipeline, mems: seq<Memory>, whole: Memory, pos: Tensor, tok: Tensor)
    requires CopyingCasts(eval) && n.Valid() && NonEmptyStages(n.offsets, n.pp) && |mems| == n.pp
      && Matches(n, mems, whole)
    ensures Staged(eval, n, mems, pos, tok, n.pp - 1)(Lg) == Whole(eval, n.c, n.nLayers, whole, pos, tok)(Lg)
  {
    hide Run; hide Bridge; hide End; hide CopyingCasts; hide Staged; hide BeforeLast; hide StageProgram; hide Matches;
    hide Hidden; hide Prefix; hide SameCache;
    var j := n.pp - 1;
    var input := RootInput(whole, pos, tok);
    StageFollows(eval, n, mems, whole, pos, tok, j);
    StagedAsSegments(eval, n, mems, pos, tok, j);
    WholeRuns(eval, n.c, n.nLayers, input);
    EndAgrees(eval, n.c, BeforeLast(eval, n, mems, pos, tok, j), Prefix(eval, n.c, n.nLayers, input));
  }

  /** One forward: the last stage's logits and all caches are those of the undivided model. */
  lemma ForwardRefines(eval: Eval, n: Pipeline, mems: seq<Memory>, whole: Memory, pos: Tensor, tok: Tensor)
    requires CopyingCasts(eval) && n.Valid() && NonEmptyStages(n.offsets, n.pp) && |mems| == n.pp
      && Matches(n, mems, whole)
    ensures Staged(eval, n, mems, pos, tok, n.pp - 1)(Lg) == Whole(eval, n.c, n.nLayers, whole, pos, tok)(Lg)
    ensures Matches(n, AfterForward(eval, n, mems, pos, tok), Whole(eval, n.c, n.nLayers, whole, pos, tok))
  {
    hide Staged; hide Whole; hide CopyingCasts; hide StageMatches;
    StageLogits(eval, n, mems, whole, pos, tok);
    forall i | 0 <= i < n.pp
      ensures StageMatches(n, Staged(eval, n, mems, pos, tok, i), Whole(eval, n.c, n.nLayers, whole, pos, tok), i)
    {
      StageCache(eval, n, mems, whole, pos, tok, i);
    }
  }

  // ---- Whole conversations ------------------------------------------------------------------------------

  datatype Input = Input(pos: Tensor, tok: Tensor)

  function WholeRun(eval: Eval, c: Config, nLayers: nat, m: Memory, inputs: seq<Input>): Memory
  {
    if inputs == [] then m
    else
      var last := inputs[|inputs| - 1];
      Whole(eval, c, nLayers, WholeRun(eval, c, nLayers, m, inputs[..|inputs| - 1]), last.pos, last.tok)
  }

  function PipelineRun(eval: Eval, n: Pipeline, mems: seq<Memory>, inputs: seq<Input>): (r: seq<Memory>)
    requires n.Valid() && |mems| == n.pp
    ensures |r| == n.pp
  {
    if inputs == [] then mems
    else
      var last := inputs[|inputs| - 1];
      AfterForward(eval, n, PipelineRun(eval, n, mems, inputs[..|inputs| - 1]), last.pos, last.tok)
  }

  /** For every partition into non-empty stages, every sequence of inputs and whatever the buffers
      were left with, the pipeline produces the logits and caches of the undivided model. */
  lemma {:induction false} PipelineRefinesWhole(
      eval: Eval, n: Pipeline, mems: seq<Memory>, whole: Memory, inputs: seq<Input>)
    requires CopyingCasts(eval) && n.Valid() && NonEmptyStages(n.offsets, n.pp) && Matches(n, mems, whole)
    ensures Matches(n, PipelineRun(eval, n, mems, inputs), WholeRun(eval, n.c, n.nLayers, whole, inputs))
    ensures inputs != [] ==>
      PipelineRun(eval, n, mems, inputs)[n.pp - 1](Lg) == WholeRun(eval, n.c, n.nLayers, whole, inputs)(Lg)
    decreases |inputs|
  {
    hide Whole; hide Staged; hide CopyingCasts; hide StageMatches;
    if inputs != [] {
      var last := inputs[|inputs| - 1];
      var before := inputs[..|inputs| - 1];
      PipelineRefinesWhole(eval, n, mems, whole, before);
      ForwardRefines(eval, n, PipelineRun(eval, n, mems, before), WholeRun(eval, n.c, n.nLayers, whole, before),
        last.pos, last.tok);
    }
  }
}
