/** When pipeline compilation is right: exactly for partitions that give every stage a layer. An
    empty stage merges leftovers, which both a reads check and a concrete model show. */
module PipelineNecessity {
  import opened LayerPrograms
  import opened StageSemantics
  import opened SegmentFootprints
  import opened PipelineRefinement

  // ---- Stale reads ---------------------------------------------------------------------------------

  function Caches(from: nat, to: nat): set<Loc>
  {
    if to <= from then {} else Caches(from, to - 1) + {K(to - 1), V(to - 1)}
  }

  lemma {:induction false} InCaches(from: nat, to: nat, l: nat)
    ensures from <= l < to ==> K(l) in Caches(from, to) && V(l) in Caches(from, to)
    ensures BX !in Caches(from, to) && Zq !in Caches(from, to)
  {
    if from < to { InCaches(from, to - 1, l); }
  }

  /** What a stage is given before a forward. */
  function StageInputs(n: Pipeline, j: nat): set<Loc>
    requires n.Valid() && j < n.pp
  {
    {Pos, RopeCache, if j == 0 then Tok else X} + Caches(n.offsets[j], n.offsets[j + 1])
  }

  lemma {:induction false} LayersDefined(c: Config, from: nat, l: nat, have: set<Loc>)
    requires from <= l && {X, Pos, RopeCache} <= have
    requires forall i: nat :: from <= i < l ==> K(i) in have && V(i) in have
    ensures Defined(Layers(c, from, l), have)
    ensures from < l ==> {BX, Zq} <= Writes(Layers(c, from, l))
    decreases l
  {
    hide Head; hide Body; hide Defined; hide Writes;
    if l == from {
      NothingDefined(have);
    } else {
      var p := Layers(c, from, l - 1);
      LayersDefined(c, from, l - 1, have);
      var head := Head(l - 1, l - 1 == from);
      HeadDefined(l - 1, l - 1 == from, have + Writes(p));
      DefinedAppend(p, head, have);
      WritesAppend(p, head);
      BodySegment(c, l - 1);
      DefinedMonotone(Body(c, l - 1), {BX, Pos, RopeCache, K(l - 1), V(l - 1)}, have + Writes(p + head));
      DefinedAppend(p + head, Body(c, l - 1), have);
      WritesAppend(p + head, Body(c, l - 1));
    }
  }

  lemma NothingDefined(have: set<Loc>)
    ensures Defined([], have) && Writes([]) == {}
  {
  }

  lemma HeadDefined(l: nat, first: bool, have: set<Loc>)
    requires if first then X in have else {BX, Zq} <= have
    ensures Defined(Head(l, first), have) && Writes(Head(l, first)) == {BX}
  {
  }

  lemma StartDefined(j: nat, have: set<Loc>)
    requires j == 0 ==> Tok in have
    ensures Defined(Start(j), have) && Writes(Start(j)) == if j == 0 then {X} else {}
  {
    if j == 0 { } else { NothingDefined(have); }
  }

  lemma OneDefined(op: Op, have: set<Loc>)
    ensures Defined([op], have) <==> Locs(op.args) <= have
  {
    NothingDefined(have + Locs(op.outs));
  }

  lemma LastDefined(n: Pipeline, j: nat, have: set<Loc>)
    ensures Defined(LastSegment(n, j), have) <==> {Zq, BX} <= have
  {
    hide Defined;
    var merge := Op(MergeAdd, [Zq, BX], [BX]);
    assert LastSegment(n, j) == [merge] + LastSegment(n, j)[1..];
    DefinedAppend([merge], LastSegment(n, j)[1..], have);
    OneDefined(merge, have);
    assert Locs(merge.args) == {Zq, BX};
    if {Zq, BX} <= have {
      if j + 1 < n.pp {
        var cast := Op(Cast(F32, F32), [BX], [X]);
        assert LastSegment(n, j)[1..] == [cast];
        OneDefined(cast, have + Writes([merge]));
        assert Locs(cast.args) == {BX};
      } else {
        EndDefined(n.c, have);
      }
    }
  }

  lemma EndDefined(c: Config, have: set<Loc>)
    requires {Zq, BX} <= have
    ensures Defined(End(c), have)
  {
    hide End;
    EndSegment(c);
    DefinedMonotone(End(c), {BX, Zq}, have);
  }

  /** A stage program reads a stale buffer exactly when the stage has no layer. */
  lemma NoStaleReads(n: Pipeline, j: nat)
    requires n.Valid() && j < n.pp
    ensures Defined(ProgramOf(n, j), StageInputs(n, j)) <==> n.offsets[j] < n.offsets[j + 1]
  {
    hide Start; hide Layers; hide LastSegment; hide Defined; hide Writes;
    var a, b := n.offsets[j], n.offsets[j + 1];
    var have := StageInputs(n, j);
    StartDefined(j, have);
    var h1 := have + Writes(Start(j));
    InCaches(a, b, a);
    forall i: nat | a <= i < b ensures K(i) in h1 && V(i) in h1 { InCaches(a, b, i); }
    LayersDefined(n.c, a, b, h1);
    DefinedAppend(Start(j), Layers(n.c, a, b), have);
    WritesAppend(Start(j), Layers(n.c, a, b));
    LastDefined(n, j, have + Writes(Start(j) + Layers(n.c, a, b)));
    DefinedAppend(Start(j) + Layers(n.c, a, b), LastSegment(n, j), have);
    if a == b {
      EmptyLayers(n.c, a);
      NothingDefined(h1);
    }
    StageShape(n, j);
  }

  lemma EmptyLayers(c: Config, l: nat)
    ensures Layers(c, l, l) == []
  {
  }

  lemma StageShape(n: Pipeline, j: nat)
    requires n.Valid() && j < n.pp
    ensures ProgramOf(n, j) == Start(j) + Layers(n.c, n.offsets[j], n.offsets[j + 1]) + LastSegment(n, j)
  {
    hide Start; hide Layers; hide Bridge; hide End;
  }

  // ---- A model in which an empty stage shows ----------------------------------------------------------

  /** Layers that leave the hidden row alone: a merge keeps x, everything else echoes its first input. */
  function Echo(kind: Kind, args: seq<Tensor>): seq<Tensor>
  {
    if args == [] then [[], []]
    else if kind.MergeAdd? && |args| == 2 then [args[1]]
    else [args[0], args[0]]
  }

  function EchoEval(): Eval { (kind, args) => var r := Echo(kind, args); if kind.Cast? then r[..1] else r }

  predicate KeepsX(p: Program)
  {
    forall op :: op in p ==> BX !in op.outs || op == Op(MergeAdd, [Zq, BX], [BX])
  }

  lemma EchoMerge(m: Memory)
    ensures Merged(EchoEval(), m) == m(BX)
  {
    var op := Op(MergeAdd, [Zq, BX], [BX]);
    ExecOne(EchoEval(), op, m);
    assert Fetch(m, op.args) == [m(Zq), m(BX)];
  }

  lemma {:induction false} EchoKeepsX(p: Program, m: Memory)
    requires KeepsX(p)
    ensures Run(EchoEval(), p, m)(BX) == m(BX)
    decreases |p|
  {
    hide Exec; hide EchoEval;
    if p != [] {
      var m1 := Exec(EchoEval(), p[0], m);
      assert p[0] in p && forall op :: op in p[1..] ==> op in p;
      EchoKeepsX(p[1..], m1);
      if BX in p[0].outs { EchoMerge(m); } else { ExecKeeps(p[0], m, BX); }
    }
  }

  lemma ExecKeeps(op: Op, m: Memory, x: Loc)
    requires x !in op.outs
    ensures Exec(EchoEval(), op, m)(x) == m(x)
  {
    PutAllKeeps(m, op.outs, EchoEval()(op.kind, Fetch(m, op.args)), x);
  }

  lemma AppendKeepsX(p: Program, q: Program)
    requires KeepsX(p) && KeepsX(q)
    ensures KeepsX(p + q)
  {
  }

  lemma SegmentsKeepX(c: Config, l: nat)
    ensures KeepsX(Norm("block_norm_0", l)) && KeepsX(Norm("block_norm_1", l)) && KeepsX(Qkv(c, l))
  {
  }

  lemma CacheSegmentsKeepX(c: Config, l: nat)
    ensures KeepsX(QkNorm(c, l)) && KeepsX(RopeShift(l)) && KeepsX(AttOut(c, l))
  {
  }

  lemma RouteKeepsX(c: Config, l: nat)
    ensures KeepsX(Route(c, l)) && KeepsX(Experts(c, l))
  {
  }

  lemma ExpertsKeepX(c: Config, l: nat)
    ensures KeepsX(MergeExperts(c, l))
  {
  }

  lemma DenseKeepsX(c: Config, l: nat)
    ensures KeepsX(Dense(c, l)) && KeepsX(DenseOut(c, l))
  {
  }

  lemma AttentionKeepsX(c: Config, l: nat)
    ensures KeepsX(Attention(c, l))
  {
    hide KeepsX; hide Norm; hide Qkv; hide QkNorm; hide RopeShift; hide AttOut;
    SegmentsKeepX(c, l);
    CacheSegmentsKeepX(c, l);
    AppendKeepsX(Norm("block_norm_0", l), Qkv(c, l));
    AppendKeepsX(Norm("block_norm_0", l) + Qkv(c, l), QkNorm(c, l));
    AppendKeepsX(Norm("block_norm_0", l) + Qkv(c, l) + QkNorm(c, l), RopeShift(l));
    AppendKeepsX(Norm("block_norm_0", l) + Qkv(c, l) + QkNorm(c, l) + RopeShift(l), AttOut(c, l));
  }

  lemma FeedForwardKeepsX(c: Config, l: nat)
    ensures KeepsX(FeedForward(c, l))
  {
    assert KeepsX([Op(MergeAdd, [Zq, BX], [BX])]) && KeepsX([Op(Cast(F32, F32), [BY], [Zq])]);
    hide KeepsX; hide Norm; hide Route; hide Experts; hide MergeExperts; hide Dense; hide DenseOut;
    SegmentsKeepX(c, l);
    RouteKeepsX(c, l);
    ExpertsKeepX(c, l);
    DenseKeepsX(c, l);
    var merge := [Op(MergeAdd, [Zq, BX], [BX])];
    AppendKeepsX(merge, Norm("block_norm_1", l));
    if c.arch.Qwen3Moe? {
      AppendKeepsX(Route(c, l), Experts(c, l));
      AppendKeepsX(Route(c, l) + Experts(c, l), MergeExperts(c, l));
    } else {
      AppendKeepsX(Dense(c, l), DenseOut(c, l));
    }
    var mid := if c.arch.Qwen3Moe? then Route(c, l) + Experts(c, l) + MergeExperts(c, l)
      else Dense(c, l) + DenseOut(c, l);
    AppendKeepsX(merge + Norm("block_norm_1", l), mid);
    AppendKeepsX(merge + Norm("block_norm_1", l) + mid, [Op(Cast(F32, F32), [BY], [Zq])]);
  }

  lemma BodyKeepsX(c: Config, l: nat)
    ensures KeepsX(Body(c, l))
  {
    hide KeepsX; hide Attention; hide FeedForward;
    AttentionKeepsX(c, l);
    FeedForwardKeepsX(c, l);
    AppendKeepsX(Attention(c, l), FeedForward(c, l));
  }

  lemma EchoCopies()
    ensures CopyingCasts(EchoEval())
  {
  }

  /** Through its layers a stage carries the row it was given. */
  lemma {:induction false} EchoLayers(c: Config, from: nat, l: nat, m: Memory)
    requires from < l
    ensures Run(EchoEval(), Layers(c, from, l), m)(BX) == m(X)
    decreases l
  {
    hide Head; hide Body; hide Run; hide EchoEval;
    var p := Run(EchoEval(), Layers(c, from, l - 1), m);
    EchoCopies();
    LayersStep(EchoEval(), c, from, l - 1, m);
    HeadEffect(EchoEval(), l - 1, l - 1 == from, p);
    BodyKeepsX(c, l - 1);
    EchoKeepsX(Body(c, l - 1), Run(EchoEval(), Head(l - 1, l - 1 == from), p));
    if l - 1 == from {
      EmptyLayers(c, from);
      RunNothing(EchoEval(), m);
    } else {
      EchoLayers(c, from, l - 1, m);
      EchoMerge(p);
    }
  }

  lemma EchoOne(op: Op, m: Memory)
    requires !op.kind.MergeAdd? && op.args != [] && |op.outs| == 1
    ensures Run(EchoEval(), [op], m)(op.outs[0]) == m(op.args[0])
    ensures forall x :: x != op.outs[0] ==> Run(EchoEval(), [op], m)(x) == m(x)
  {
    ExecOne(EchoEval(), op, m);
    assert Fetch(m, op.args)[0] == m(op.args[0]);
  }

  lemma EchoCast(c: Config, from: Loc, to: Loc, m: Memory)
    ensures Run(EchoEval(), CastTo(c, from, to), m)(to) == m(from)
  {
    if from == to { RunNothing(EchoEval(), m); } else { EchoOne(CastTo(c, from, to)[0], m); }
  }

  lemma EchoLmHead(c: Config, m: Memory)
    ensures Run(EchoEval(), LmHead(c), m)(Lg) == m(BY)
  {
    hide Run; hide EchoEval; hide CastTo;
    var yq := YqOf(c);
    var cast := CastTo(c, BY, yq);
    var m1 := Run(EchoEval(), cast, m);
    EchoCast(c, BY, yq, m);
    if c.fusedArgmax {
      var a, b := Op(MatmulArgmax(Weight("final_matmul_logits", 0)), [yq], [Argmax]), Op(ArgmaxReduce, [Argmax], [Lg]);
      EchoOne(a, m1);
      EchoOne(b, Run(EchoEval(), [a], m1));
      RunAppend(EchoEval(), [a], [b], m1);
      assert [a] + [b] == [a, b];
      RunAppend(EchoEval(), cast, [a, b], m);
    } else {
      var a := Op(Matmul(Weight("final_matmul_logits", 0)), [yq], [Lg]);
      EchoOne(a, m1);
      RunAppend(EchoEval(), cast, [a], m);
    }
  }

  lemma EchoEnd(c: Config, m: Memory)
    ensures Run(EchoEval(), End(c), m)(Lg) == m(BX)
  {
    hide Run; hide EchoEval; hide LmHead;
    var a, i, r := Op(MergeAdd, [Zq, BX], [BX]), Op(InvRms("x"), [BX], [Inv]),
      Op(RmsNorm(Weight("final_norm", 0)), [BX, Inv], [BY]);
    var m1 := Run(EchoEval(), [a], m);
    assert m1(BX) == m(BX) by { assert KeepsX([a]); EchoKeepsX([a], m); }
    var m2 := Run(EchoEval(), [i], m1);
    EchoOne(i, m1);
    EchoOne(r, m2);
    RunAppend(EchoEval(), [a], [i] + ([r] + LmHead(c)), m);
    RunAppend(EchoEval(), [i], [r] + LmHead(c), m1);
    RunAppend(EchoEval(), [r], LmHead(c), m2);
    EchoLmHead(c, Run(EchoEval(), [r], m2));
    assert End(c) == [a] + ([i] + ([r] + LmHead(c)));
  }

  function Blank(): Memory { (l: Loc) => [] }

  function Blanks(pp: nat): seq<Memory> { seq(pp, _ => Blank()) }

  lemma EchoWhole(c: Config, nLayers: nat, tok: Tensor)
    requires 0 < nLayers
    ensures Whole(EchoEval(), c, nLayers, Blank(), [], tok)(Lg) == tok
  {
    hide Run; hide EchoEval; hide Layers; hide End; hide StageProgram;
    var input := RootInput(Blank(), [], tok);
    WholeRuns(EchoEval(), c, nLayers, input);
    EchoEnd(c, Prefix(EchoEval(), c, nLayers, input));
    EchoLayers(c, 0, nLayers, Run(EchoEval(), Start(0), input));
    EchoOne(Op(Embedding, [Tok], [X]), input);
  }

  /** From an empty stage on, the blank leftovers are all that is handed over. */
  lemma {:induction false} EchoAfterEmpty(n: Pipeline, e: nat, j: nat, tok: Tensor)
    requires n.Valid() && e <= j < n.pp && n.offsets[e] == n.offsets[e + 1]
    ensures j + 1 < n.pp ==> Staged(EchoEval(), n, Blanks(n.pp), [], tok, j)(X) == []
    ensures j + 1 == n.pp ==> Staged(EchoEval(), n, Blanks(n.pp), [], tok, j)(Lg) == []
    decreases j
  {
    hide Run; hide EchoEval; hide Layers; hide End; hide Bridge; hide Staged; hide Start;
    var given := Given(EchoEval(), n, Blanks(n.pp), [], tok, j);
    var last := BeforeLast(EchoEval(), n, Blanks(n.pp), [], tok, j);
    if e < j { EchoAfterEmpty(n, e, j - 1, tok); }
    StartKeepsBlank(j, given);
    if n.offsets[j] < n.offsets[j + 1] {
      EchoLayers(n.c, n.offsets[j], n.offsets[j + 1], Run(EchoEval(), Start(j), given));
    } else {
      EmptyLayers(n.c, n.offsets[j]);
      RunNothing(EchoEval(), Run(EchoEval(), Start(j), given));
    }
    assert last(BX) == [];
    StagedAsSegments(EchoEval(), n, Blanks(n.pp), [], tok, j);
    if j + 1 < n.pp {
      EchoCopies();
      BridgeEffect(EchoEval(), last);
      EchoMerge(last);
    } else {
      EchoEnd(n.c, last);
    }
  }

  lemma StartKeepsBlank(j: nat, given: Memory)
    ensures Run(EchoEval(), Start(j), given)(BX) == given(BX)
    ensures 0 < j ==> Run(EchoEval(), Start(j), given)(X) == given(X)
  {
    hide Run;
    if j == 0 { EmbeddingKeeps(EchoEval(), given, BX); } else { RunNothing(EchoEval(), given); }
  }

  // ---- Exactly the partitions without an empty stage -----------------------------------------------------

  /** Whatever the layers compute and whatever the buffers hold, a forward gives the logits of the undivided model. */
  ghost predicate AlwaysRefines(n: Pipeline)
    requires n.Valid()
  {
    forall eval: Eval, mems: seq<Memory>, whole: Memory, pos: Tensor, tok: Tensor ::
      CopyingCasts(eval) && |mems| == n.pp && Matches(n, mems, whole) ==>
      Staged(eval, n, mems, pos, tok, n.pp - 1)(Lg) == Whole(eval, n.c, n.nLayers, whole, pos, tok)(Lg)
  }

  lemma EmptyStageBreaks(n: Pipeline, e: nat)
    requires n.Valid() && 0 < n.nLayers && e < n.pp && n.offsets[e] == n.offsets[e + 1]
    ensures !AlwaysRefines(n)
  {
    hide Staged; hide Whole; hide EchoEval;
    EchoCopies();
    EchoAfterEmpty(n, e, n.pp - 1, [1.0]);
    EchoWhole(n.c, n.nLayers, [1.0]);
    assert Matches(n, Blanks(n.pp), Blank());
  }

  lemma RefinesIffNoEmptyStage(n: Pipeline)
    requires n.Valid() && 0 < n.nLayers
    ensures AlwaysRefines(n) <==> NonEmptyStages(n.offsets, n.pp)
  {
    hide Staged; hide Whole; hide CopyingCasts; hide Matches;
    if NonEmptyStages(n.offsets, n.pp) {
      forall eval: Eval, mems: seq<Memory>, whole: Memory, pos: Tensor, tok: Tensor |
        CopyingCasts(eval) && |mems| == n.pp && Matches(n, mems, whole)
        ensures Staged(eval, n, mems, pos, tok, n.pp - 1)(Lg) == Whole(eval, n.c, n.nLayers, whole, pos, tok)(Lg)
      {
        ForwardRefines(eval, n, mems, whole, pos, tok);
      }
    } else {
      var e :| 0 <= e < n.pp && n.offsets[e] >= n.offsets[e + 1];
      EmptyStageBreaks(n, e);
    }
  }

  /** The equal partition compiles correctly exactly when there are at least as many layers as stages. */
  lemma EqualPartitionRefinesIff(c: Config, pp: nat, nLayers: nat, offsets: seq<nat>)
    requires 0 < pp && 0 < nLayers && |offsets| == pp + 1
    requires forall i :: 0 <= i <= pp ==> offsets[i] == EqualOffset(nLayers, pp, i)
    ensures Partition(offsets, pp, nLayers)
    ensures AlwaysRefines(Pipeline(c, pp, offsets, nLayers)) <==> pp <= nLayers
  {
    hide AlwaysRefines; hide EqualOffset;
    EqualPartition(nLayers, pp, offsets);
    RefinesIffNoEmptyStage(Pipeline(c, pp, offsets, nLayers));
  }
}
