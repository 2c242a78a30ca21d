/** Which nodes the root sends a layer's weights to (src/nn/nn-network.cpp), against which nodes run the
    layer (src/llm.cpp), in pipelines of `pp` stages with `tp` nodes each. */
module WeightRouting {
  import opened Common
  import opened LayerPrograms

  /** `getLayerOwnerPpRank`; no stage in particular where the source returns its maximum. */
  function LayerOwner(layer: nat, nLayers: nat, pp: nat): Option<nat>
  {
    if pp <= 1 || nLayers == 0 || Quot(nLayers, pp) == 0 then None
    else
      var stage := Quot(layer, Quot(nLayers, pp));
      Some(if stage >= pp then pp - 1 else stage)
  }

  /** `nodeInPpStage`. */
  predicate InStage(node: nat, stage: nat, tp: nat)
    requires 0 < tp
  {
    Quot(node, tp) == stage
  }

  predicate Sent(node: nat, layer: nat, nLayers: nat, pp: nat, tp: nat)
    requires 0 < tp
  {
    var owner := LayerOwner(layer, nLayers, pp);
    owner.None? || InStage(node, owner.value, tp)
  }

  /** The node loop of `loadRowMatmulSlices` and `loadColMatmulSlices`: the nodes a layer's slices go to. */
  method Recipients(layer: nat, nLayers: nat, pp: nat, tp: nat) returns (nodes: seq<nat>)
    requires 0 < pp && 0 < tp
    ensures forall n: nat :: n in nodes <==> n < Times(pp, tp) && Sent(n, layer, nLayers, pp, tp)
    ensures forall i, j :: 0 <= i < j < |nodes| ==> nodes[i] < nodes[j]
  {
    hide Sent;
    nodes := [];
    var owner := LayerOwner(layer, nLayers, pp);
    for node := 0 to Times(pp, tp)
      invariant forall n: nat :: n in nodes <==> n < node && Sent(n, layer, nLayers, pp, tp)
      invariant forall i :: 0 <= i < |nodes| ==> nodes[i] < node
      invariant forall i, j :: 0 <= i < j < |nodes| ==> nodes[i] < nodes[j]
    {
      SentIs(node, layer, nLayers, pp, tp);
      if owner.Some? && Quot(node, tp) != owner.value { continue; }
      nodes := nodes + [node];
    }
  }

  lemma SentIs(node: nat, layer: nat, nLayers: nat, pp: nat, tp: nat)
    requires 0 < tp
    ensures var owner := LayerOwner(layer, nLayers, pp);
      Sent(node, layer, nLayers, pp, tp) <==> owner.None? || Quot(node, tp) == owner.value
  {
  }

  /** Node `node` has layer `layer` in its program. */
  predicate Runs(node: nat, layer: nat, offsets: seq<nat>, pp: nat, tp: nat)
    requires 0 < tp && |offsets| == pp + 1
  {
    Quot(node, tp) < pp && offsets[Quot(node, tp)] <= layer < offsets[Quot(node, tp) + 1]
  }

  /** Every node gets the weights of the layers it runs. */
  ghost predicate Served(offsets: seq<nat>, nLayers: nat, pp: nat, tp: nat)
    requires 0 < tp && |offsets| == pp + 1
  {
    forall node: nat, layer: nat :: node < Times(pp, tp) && layer < nLayers && Runs(node, layer, offsets, pp, tp) ==>
      Sent(node, layer, nLayers, pp, tp)
  }

  predicate IsEqual(offsets: seq<nat>, nLayers: nat, pp: nat)
    requires 0 < pp && |offsets| == pp + 1
  {
    forall i :: 0 <= i <= pp ==> offsets[i] == EqualOffset(nLayers, pp, i)
  }

  /** The stage that runs a layer. */
  lemma {:induction false} StageOf(offsets: seq<nat>, layer: nat, n: nat) returns (s: nat)
    requires n < |offsets| && offsets[0] == 0 && layer < offsets[n]
    ensures s < n && offsets[s] <= layer < offsets[s + 1]
    decreases n
  {
    if n == 0 { assert false; }
    else if offsets[n - 1] <= layer { s := n - 1; } else { s := StageOf(offsets, layer, n - 1); }
  }

  lemma FirstNode(s: nat, pp: nat, tp: nat)
    requires s < pp && 0 < tp
    ensures Times(s, tp) < Times(pp, tp) && Quot(Times(s, tp), tp) == s
  {
    hide Times; hide Quot;
    TimesMonotone(s + 1, pp, tp);
    TimesStep(s, tp);
    QuotBetween(Times(s, tp), s, tp);
  }

  /** Layer `layer` of a served partition belongs to the stage the root takes it to. */
  lemma ServedStage(offsets: seq<nat>, nLayers: nat, pp: nat, tp: nat, s: nat, layer: nat)
    requires 1 < pp <= nLayers && 0 < tp && Partition(offsets, pp, nLayers) && Served(offsets, nLayers, pp, tp)
    requires s < pp && offsets[s] <= layer < offsets[s + 1] && layer < nLayers
    ensures LayerOwner(layer, nLayers, pp) == Some(s)
  {
    hide Times; hide Quot;
    FirstNode(s, pp, tp);
    QuotPositive(nLayers, pp);
    assert Runs(Times(s, tp), layer, offsets, pp, tp);
  }

  /** The owner of a layer between two multiples of the quotient, and behind the last one. */
  lemma OwnerIs(layer: nat, nLayers: nat, pp: nat, i: nat)
    requires 1 < pp <= nLayers && i < pp && Times(i, Quot(nLayers, pp)) <= layer
    requires i + 1 < pp ==> layer < Times(i + 1, Quot(nLayers, pp))
    ensures LayerOwner(layer, nLayers, pp) == Some(i)
  {
    hide Times; hide Quot;
    var q := Quot(nLayers, pp);
    QuotPositive(nLayers, pp);
    TimesStep(i, q);
    if i + 1 < pp {
      QuotBetween(layer, i, q);
    } else {
      QuotBelow(layer, q);
      TimesMonotone(Quot(layer, q) + 1, i, q);
      TimesStep(Quot(layer, q), q);
    }
  }

  lemma {:induction false} OffsetsForced(offsets: seq<nat>, nLayers: nat, pp: nat, tp: nat, i: nat)
    requires 1 < pp <= nLayers && 0 < tp && Partition(offsets, pp, nLayers) && Served(offsets, nLayers, pp, tp)
      && i < pp
    ensures offsets[i] == EqualOffset(nLayers, pp, i)
    decreases i
  {
    hide Served; hide Times; hide Quot; hide LayerOwner;
    var q := Quot(nLayers, pp);
    QuotPositive(nLayers, pp);
    TimesStep(0, q);
    if 0 < i {
      OffsetsForced(offsets, nLayers, pp, tp, i - 1);
      TimesStep(i - 1, q);
      TimesStep(i, q);
      TimesMonotone(i + 1, pp, q);
      if offsets[i] > Times(i, q) {
        ServedStage(offsets, nLayers, pp, tp, i - 1, Times(i, q));
        OwnerIs(Times(i, q), nLayers, pp, i);
      } else if offsets[i] < Times(i, q) {
        var s := StageOf(offsets, offsets[i], pp);
        ServedStage(offsets, nLayers, pp, tp, s, offsets[i]);
        OwnerIs(offsets[i], nLayers, pp, i - 1);
      }
    }
  }

  /** In the equal partition the owner of a layer is the stage that runs it. */
  lemma EqualOwner(nLayers: nat, pp: nat, s: nat, layer: nat)
    requires 1 < pp <= nLayers && s < pp && layer < nLayers
    requires EqualOffset(nLayers, pp, s) <= layer < EqualOffset(nLayers, pp, s + 1)
    ensures LayerOwner(layer, nLayers, pp) == Some(s)
  {
    hide Times; hide Quot;
    OwnerIs(layer, nLayers, pp, s);
  }

  /** Every node gets the weights of the layers it runs, if and only if the layers are partitioned
      equally, or there is one stage, or fewer layers than stages, when every node gets everything. */
  lemma ServedIffEqual(offsets: seq<nat>, nLayers: nat, pp: nat, tp: nat)
    requires 0 < pp && 0 < tp && Partition(offsets, pp, nLayers)
    ensures Served(offsets, nLayers, pp, tp) <==> pp == 1 || nLayers < pp || IsEqual(offsets, nLayers, pp)
  {
    hide LayerOwner; hide EqualOffset; hide Times; hide Quot;
    if 1 < pp <= nLayers {
      if Served(offsets, nLayers, pp, tp) {
        forall i | 0 <= i <= pp ensures offsets[i] == EqualOffset(nLayers, pp, i) {
          if i < pp { OffsetsForced(offsets, nLayers, pp, tp, i); } else { EqualSteps(nLayers, pp, 0); }
        }
      }
      if IsEqual(offsets, nLayers, pp) {
        forall node: nat, layer: nat | node < Times(pp, tp) && layer < nLayers && Runs(node, layer, offsets, pp, tp)
          ensures Sent(node, layer, nLayers, pp, tp)
        {
          EqualOwner(nLayers, pp, Quot(node, tp), layer);
        }
      }
    } else {
      NoOwner(nLayers, pp);
    }
  }

  lemma NoOwner(nLayers: nat, pp: nat)
    requires pp == 1 || nLayers < pp
    ensures forall layer: nat :: LayerOwner(layer, nLayers, pp) == None
  {
    hide Quot;
    QuotPositive(nLayers, pp);
  }

  /** Counts [1, 3] for 4 layers are accepted, but layer 1 goes to stage 0 and runs on stage 1. */
  method CountsExample() returns (offsets: Result<seq<nat>>)
    ensures offsets == Ok([0, 1, 4]) && !Served([0, 1, 4], 4, 2, 1)
  {
    offsets := BuildOffsets(4, 2, [1, 3]);
    assert [1, 3][..0] == [] && [1, 3][..1] == [1] && [1, 3][..2] == [1, 3];
    assert Total([1]) == Total([1][..0]) + 1 && Total([1, 3]) == Total([1, 3][..1]) + 3;
    assert Acceptable([1, 3], 2, 4);
    assert offsets.value == [0, 1, 4];
    assert Runs(1, 1, [0, 1, 4], 2, 1) && !Sent(1, 1, 4, 2, 1);
  }
}
