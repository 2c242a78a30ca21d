/** The op programs `buildLlmNet` (src/llm.cpp) emits for the stages of a pipeline. */
module LayerPrograms {
  import opened Common

  datatype Result<T> = Ok(value: T) | Err(message: string)

  datatype Arch = Llama | Qwen3 | Qwen3Moe

  datatype Config = Config(arch: Arch, syncF32: bool, fusedArgmax: bool)

  /** Pipes, per-node buffers and the KV cache of each layer. */
  datatype Loc =
    | Pos | Tok | X | Zq | Lg
    | BX | BY | BYq | Z | ZqSlice | Q | KTemp | VTemp | Inv | RopeCache | Argmax
    | D | Dq | L
    | MoeGt | MoeIdx | MoeY | MoeYq | MoeD | MoeDq | MoeL | MoeS
    | K(layer: nat) | V(layer: nat)

  datatype Format = F32 | Sync

  datatype Weight = Weight(name: string, layer: nat)

  datatype Kind =
    | Embedding | Cast(from: Format, to: Format) | MergeAdd | InvRms(role: string) | RmsNorm(w: Weight)
    | Matmul(w: Weight) | Rope(isQ: bool) | Shift | MultiheadAtt | Silu | Mul
    | RepeatZ | Softmax | MoeGate | Scale | MergeSum | MatmulArgmax(w: Weight) | ArgmaxReduce

  /** An op reads `args` and overwrites `outs`; an op that works in place lists the location in both. */
  datatype Op = Op(kind: Kind, args: seq<Loc>, outs: seq<Loc>)

  type Program = seq<Op>

  // ---- Buffers that are one and the same when the sync type is F_32 --------------------------

  function YqOf(c: Config): Loc { if c.syncF32 then BY else BYq }
  function DqOf(c: Config): Loc { if c.syncF32 then D else Dq }
  function MoeYqOf(c: Config): Loc { if c.syncF32 then MoeY else MoeYq }
  function MoeDqOf(c: Config): Loc { if c.syncF32 then MoeD else MoeDq }

  function CastTo(c: Config, from: Loc, to: Loc): Program
  {
    if from == to then [] else [Op(Cast(F32, Sync), [from], [to])]
  }

  function SyncFormat(c: Config): Format { if c.syncF32 then F32 else Sync }

  // ---- Segments -------------------------------------------------------------------------------

  function Start(stage: nat): Program
  {
    if stage == 0 then [Op(Embedding, [Tok], [X])] else []
  }

  function Head(l: nat, first: bool): Program
  {
    if first then [Op(Cast(F32, F32), [X], [BX])] else [Op(MergeAdd, [Zq, BX], [BX])]
  }

  function Norm(name: string, l: nat): Program
  {
    [Op(InvRms("x"), [BX], [Inv]), Op(RmsNorm(Weight(name, l)), [BX, Inv], [BY])]
  }

  function Qkv(c: Config, l: nat): Program
  {
    CastTo(c, BY, YqOf(c)) +
    [Op(Matmul(Weight("block_matmul_q", l)), [YqOf(c)], [Q]),
     Op(Matmul(Weight("block_matmul_k", l)), [YqOf(c)], [KTemp]),
     Op(Matmul(Weight("block_matmul_v", l)), [YqOf(c)], [VTemp])]
  }

  function QkNorm(c: Config, l: nat): Program
  {
    if c.arch.Llama? then []
    else
      [Op(InvRms("q"), [Q], [Inv]), Op(RmsNorm(Weight("block_norm_q", l)), [Q, Inv], [Q]),
       Op(InvRms("k"), [KTemp], [Inv]), Op(RmsNorm(Weight("block_norm_k", l)), [KTemp, Inv], [KTemp])]
  }

  function RopeShift(l: nat): Program
  {
    [Op(Rope(true), [Q, Pos, RopeCache], [Q]),
     Op(Rope(false), [KTemp, Pos, RopeCache], [KTemp]),
     Op(Shift, [KTemp, Pos, K(l)], [K(l)]),
     Op(Shift, [VTemp, Pos, V(l)], [V(l)])]
  }

  function AttOut(c: Config, l: nat): Program
  {
    [Op(MultiheadAtt, [Q, K(l), V(l), Pos], [Z]),
     Op(Cast(F32, SyncFormat(c)), [Z], [ZqSlice]),
     Op(Matmul(Weight("block_matmul_wo", l)), [ZqSlice], [BY]),
     Op(Cast(F32, F32), [BY], [Zq])]
  }

  function Attention(c: Config, l: nat): Program
  {
    Norm("block_norm_0", l) + Qkv(c, l) + QkNorm(c, l) + RopeShift(l) + AttOut(c, l)
  }

  function Route(c: Config, l: nat): Program
  {
    [Op(RepeatZ, [BY], [MoeYqOf(c)]),
     Op(Matmul(Weight("block_moe_gate", l)), [BY], [MoeGt]),
     Op(Softmax, [MoeGt], [MoeGt]),
     Op(MoeGate, [MoeGt], [MoeS, MoeIdx])]
  }

  function Experts(c: Config, l: nat): Program
  {
    [Op(Matmul(Weight("block_matmul_w1", l)), [MoeYqOf(c), MoeIdx], [MoeD]),
     Op(Matmul(Weight("block_matmul_w3", l)), [MoeYqOf(c), MoeIdx], [MoeL]),
     Op(Silu, [MoeD], [MoeD]),
     Op(Mul, [MoeD, MoeL], [MoeD])]
  }

  function MergeExperts(c: Config, l: nat): Program
  {
    CastTo(c, MoeD, MoeDqOf(c)) +
    [Op(Matmul(Weight("block_matmul_w2", l)), [MoeDqOf(c), MoeIdx], [MoeY]),
     Op(Scale, [MoeY, MoeS], [MoeY]),
     Op(MergeSum, [MoeY], [BY])]
  }

  function Dense(c: Config, l: nat): Program
  {
    CastTo(c, BY, YqOf(c)) +
    [Op(Matmul(Weight("block_matmul_w1", l)), [YqOf(c)], [D]),
     Op(Matmul(Weight("block_matmul_w3", l)), [YqOf(c)], [L]),
     Op(Silu, [D], [D]),
     Op(Mul, [D, L], [D])]
  }

  function DenseOut(c: Config, l: nat): Program
  {
    CastTo(c, D, DqOf(c)) + [Op(Matmul(Weight("block_matmul_w2", l)), [DqOf(c)], [BY])]
  }

  function FeedForward(c: Config, l: nat): Program
  {
    [Op(MergeAdd, [Zq, BX], [BX])] + Norm("block_norm_1", l) +
    (if c.arch.Qwen3Moe? then Route(c, l) + Experts(c, l) + MergeExperts(c, l) else Dense(c, l) + DenseOut(c, l)) +
    [Op(Cast(F32, F32), [BY], [Zq])]
  }

  /** A layer after its first op, the same in every partition. */
  function Body(c: Config, l: nat): Program { Attention(c, l) + FeedForward(c, l) }

  function Bridge(): Program
  {
    [Op(MergeAdd, [Zq, BX], [BX]), Op(Cast(F32, F32), [BX], [X])]
  }

  function LmHead(c: Config): Program
  {
    CastTo(c, BY, YqOf(c)) +
    if c.fusedArgmax then
      [Op(MatmulArgmax(Weight("final_matmul_logits", 0)), [YqOf(c)], [Argmax]), Op(ArgmaxReduce, [Argmax], [Lg])]
    else
      [Op(Matmul(Weight("final_matmul_logits", 0)), [YqOf(c)], [Lg])]
  }

  function End(c: Config): Program
  {
    [Op(MergeAdd, [Zq, BX], [BX])] + Norm("final_norm", 0) + LmHead(c)
  }

  function Layers(c: Config, from: nat, to: nat): Program
    decreases to
  {
    if to <= from then [] else Layers(c, from, to - 1) + Head(to - 1, to - 1 == from) + Body(c, to - 1)
  }

  /** The program of stage `stage` with the layers [from, to). */
  function StageProgram(c: Config, pp: nat, stage: nat, from: nat, to: nat): Program
  {
    Start(stage) + Layers(c, from, to) + if stage + 1 < pp then Bridge() else End(c)
  }

  // ---- Layer ranges ---------------------------------------------------------------------------

  /** Offsets that cut the layers into one contiguous range per stage. */
  predicate Partition(offsets: seq<nat>, pp: nat, nLayers: nat)
  {
    && |offsets| == pp + 1 && offsets[0] == 0 && offsets[pp] == nLayers
    && forall i :: 0 <= i < pp ==> offsets[i] <= offsets[i + 1]
  }

  predicate NonEmptyStages(offsets: seq<nat>, pp: nat)
    requires |offsets| == pp + 1
  {
    forall i :: 0 <= i < pp ==> offsets[i] < offsets[i + 1]
  }

  function Total(counts: seq<nat>): nat
  {
    if counts == [] then 0 else Total(counts[..|counts| - 1]) + counts[|counts| - 1]
  }

  /** Where stage `i` starts when the layers are shared out equally; the last stage takes the rest. */
  function EqualOffset(nLayers: nat, pp: nat, i: nat): nat
    requires 0 < pp
  {
    if i < pp then Times(i, Quot(nLayers, pp)) else nLayers
  }

  lemma EqualSteps(nLayers: nat, pp: nat, i: nat)
    requires i < pp
    ensures EqualOffset(nLayers, pp, 0) == 0 && EqualOffset(nLayers, pp, pp) == nLayers
    ensures EqualOffset(nLayers, pp, i) <= EqualOffset(nLayers, pp, i + 1)
    ensures pp <= nLayers ==> EqualOffset(nLayers, pp, i) < EqualOffset(nLayers, pp, i + 1)
    ensures nLayers < pp && i == 0 && 1 < pp ==> EqualOffset(nLayers, pp, 1) == 0
  {
    hide Times; hide Quot;
    var q := Quot(nLayers, pp);
    QuotPositive(nLayers, pp);
    TimesStep(i, q);
    TimesStep(pp - 1, q);
    TimesStep(0, q);
  }

  lemma EqualPartition(nLayers: nat, pp: nat, offsets: seq<nat>)
    requires 0 < pp && |offsets| == pp + 1
    requires forall i :: 0 <= i <= pp ==> offsets[i] == EqualOffset(nLayers, pp, i)
    ensures Partition(offsets, pp, nLayers) && (NonEmptyStages(offsets, pp) <==> pp <= nLayers)
  {
    hide EqualOffset;
    forall i | 0 <= i < pp
      ensures offsets[i] <= offsets[i + 1] && (pp <= nLayers ==> offsets[i] < offsets[i + 1])
    {
      EqualSteps(nLayers, pp, i);
    }
    EqualSteps(nLayers, pp, 0);
    if nLayers < pp { assert offsets[0] == offsets[1]; }
  }

  /** In the equal partition every stage but the last has `nLayers / pp` layers, and the last has the rest. */
  lemma EqualShares(nLayers: nat, pp: nat, i: nat)
    requires i < pp
    ensures EqualOffset(nLayers, pp, 0) == 0 && EqualOffset(nLayers, pp, pp) == nLayers
    ensures i + 1 < pp ==> EqualOffset(nLayers, pp, i + 1) - EqualOffset(nLayers, pp, i) == nLayers / pp
    ensures nLayers - EqualOffset(nLayers, pp, pp - 1) == nLayers - (pp - 1) * (nLayers / pp)
  {
    TimesStep(i, Quot(nLayers, pp));
    TimesStep(0, Quot(nLayers, pp));
  }

  predicate Acceptable(counts: seq<nat>, pp: nat, nLayers: nat)
  {
    |counts| == pp && (forall i :: 0 <= i < pp ==> counts[i] != 0) && Total(counts) == nLayers
  }

  /** Stage `i` gets `counts[i]` layers. */
  predicate Follows(offsets: seq<nat>, counts: seq<nat>, pp: nat)
    requires |offsets| == pp + 1 && |counts| == pp
  {
    forall i :: 0 <= i < pp ==> offsets[i] + counts[i] == offsets[i + 1]
  }

  lemma TotalSnoc(counts: seq<nat>, i: nat)
    requires i < |counts|
    ensures Total(counts[..0]) == 0 && Total(counts[..i + 1]) == Total(counts[..i]) + counts[i]
  {
    assert counts[..i + 1][..i] == counts[..i];
  }

  /** The explicit branch of `buildLayerStartOffsets`. */
  method OffsetsFromCounts(nLayers: nat, pp: nat, counts: seq<nat>) returns (r: Result<seq<nat>>)
    requires 0 < pp && counts != []
    ensures r.Ok? <==> Acceptable(counts, pp, nLayers)
    ensures r.Ok? ==> Partition(r.value, pp, nLayers) && NonEmptyStages(r.value, pp) && Follows(r.value, counts, pp)
  {
    hide Total;
    var offsets: seq<nat> := seq(pp + 1, _ => 0);
    TotalSnoc(counts, 0);
    if |counts| != pp { return Err("ppStageLayerCounts size mismatch with ppSize"); }
    var sum := 0;
    for i := 0 to pp
      invariant |offsets| == pp + 1
      invariant sum == Total(counts[..i])
      invariant forall m :: 0 <= m < i ==> counts[m] != 0
      invariant forall m :: 0 <= m < i ==> offsets[m] == Total(counts[..m])
    {
      if counts[i] == 0 { return Err("ppStageLayerCounts must be > 0 for all stages"); }
      offsets := offsets[i := sum];
      TotalSnoc(counts, i);
      sum := sum + counts[i];
    }
    assert counts[..pp] == counts;
    offsets := offsets[pp := sum];
    if sum != nLayers { return Err("ppStageLayerCounts sum must match nLayers"); }
    forall i | 0 <= i < pp ensures offsets[i] + counts[i] == offsets[i + 1] {
      TotalSnoc(counts, i);
    }
    return Ok(offsets);
  }

  /** `buildLayerStartOffsets`; an empty `counts` asks for the equal partition. */
  method BuildOffsets(nLayers: nat, pp: nat, counts: seq<nat>) returns (r: Result<seq<nat>>)
    requires 0 < pp
    ensures counts == [] ==> r.Ok? && Partition(r.value, pp, nLayers)
    ensures counts == [] ==> (NonEmptyStages(r.value, pp) <==> pp <= nLayers)
    ensures counts == [] ==> forall i :: 0 <= i <= pp ==> r.value[i] == EqualOffset(nLayers, pp, i)
    ensures counts != [] ==> (r.Ok? <==> Acceptable(counts, pp, nLayers))
    ensures counts != [] && r.Ok? ==>
      Partition(r.value, pp, nLayers) && NonEmptyStages(r.value, pp) && Follows(r.value, counts, pp)
  {
    hide Acceptable; hide Times; hide Quot;
    if counts != [] {
      r := OffsetsFromCounts(nLayers, pp, counts);
      return;
    }
    var offsets: seq<nat> := seq(pp + 1, _ => 0);
    var layersPerStage := Quot(nLayers, pp);
    for i := 0 to pp
      invariant |offsets| == pp + 1
      invariant forall m :: 0 <= m < i ==> offsets[m] == Times(m, layersPerStage)
    {
      offsets := offsets[i := Times(i, layersPerStage)];
    }
    offsets := offsets[pp := nLayers];
    EqualPartition(nLayers, pp, offsets);
    return Ok(offsets);
  }

  // ---- Emission -------------------------------------------------------------------------------

  lemma LayersSnoc(c: Config, from: nat, l: nat)
    requires from <= l
    ensures Layers(c, from, l + 1) == Layers(c, from, l) + Head(l, l == from) + (Attention(c, l) + FeedForward(c, l))
  {
    hide Head; hide Attention; hide FeedForward;
  }

  lemma NoLayers(c: Config, l: nat)
    ensures Layers(c, l, l) == []
  {
  }

  /** One node of `buildLlmNet`: the layer loop appends an attention and a feed-forward segment. */
  method EmitNode(c: Config, pp: nat, stage: nat, layerStart: nat, layerEnd: nat) returns (ops: Program)
    requires layerStart <= layerEnd
    ensures ops == StageProgram(c, pp, stage, layerStart, layerEnd)
  {
    hide Head; hide Attention; hide FeedForward; hide Layers; hide Start; hide Bridge; hide End;
    ops := [];
    NoLayers(c, layerStart);
    for layer := layerStart to layerEnd
      invariant ops == Layers(c, layerStart, layer)
    {
      var att, ff := Head(layer, layer == layerStart) + Attention(c, layer), FeedForward(c, layer);
      LayersSnoc(c, layerStart, layer);
      ops := ops + att + ff;
    }
    ops := Start(stage) + ops;
    if stage + 1 < pp { ops := ops + Bridge(); }
    if stage + 1 >= pp { ops := ops + End(c); }
  }

  predicate Emitted(c: Config, pp: nat, offsets: seq<nat>, programs: seq<Program>, n: nat)
  {
    && n <= pp && |offsets| == pp + 1 && n == |programs|
    && forall s :: 0 <= s < n ==> programs[s] == StageProgram(c, pp, s, offsets[s], offsets[s + 1])
  }

  /** All nodes of a pipeline without tensor or sequence parallelism. */
  method EmitNet(c: Config, nLayers: nat, pp: nat, counts: seq<nat>)
    returns (r: Result<seq<Program>>, offsets: seq<nat>)
    requires 0 < pp
    ensures counts == [] ==> r.Ok?
    ensures r.Ok? ==> Partition(offsets, pp, nLayers) && Emitted(c, pp, offsets, r.value, pp)
    ensures r.Ok? ==> (NonEmptyStages(offsets, pp) <==> counts != [] || pp <= nLayers)
  {
    hide StageProgram; hide Acceptable; hide EqualOffset;
    offsets := [];
    var built := BuildOffsets(nLayers, pp, counts);
    if built.Err? { return Err(built.message), []; }
    offsets := built.value;
    var programs: seq<Program> := [];
    for s := 0 to pp
      invariant Emitted(c, pp, offsets, programs, s)
    {
      var ops := EmitNode(c, pp, s, offsets[s], offsets[s + 1]);
      programs := programs + [ops];
    }
    r := Ok(programs);
  }
}
