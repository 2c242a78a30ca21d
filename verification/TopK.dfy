/** Fast selections from a row of logits: the in-place top-k packing and greedy sampling of
    src/app.cpp and src/tokenizer.cpp, and the argmax fused into the last matrix product
    (src/nn/nn-cpu-ops.cpp). */
module TopK {
  import opened Common
  import S = SplitThreads

  // ---- Stable descending order ----------------------------------------------------------------------

  /** Logit `i` comes before logit `j`. */
  predicate Before(logits: seq<real>, i: nat, j: nat)
    requires i < |logits| && j < |logits|
  {
    logits[i] > logits[j] || (logits[i] == logits[j] && i < j)
  }

  predicate Indices(logits: seq<real>, s: seq<nat>) { forall k :: 0 <= k < |s| ==> s[k] < |logits| }

  /** Where a new value goes in a descending list: behind everything that is not smaller. */
  function Place(logits: seq<real>, s: seq<nat>, v: real, n: nat): (pos: nat)
    requires Indices(logits, s) && n <= |s|
    ensures pos <= n
  {
    if n > 0 && v > logits[s[n - 1]] then Place(logits, s, v, n - 1) else n
  }

  function Insert(logits: seq<real>, s: seq<nat>, i: nat): seq<nat>
    requires Indices(logits, s) && i < |logits|
  {
    var pos := Place(logits, s, logits[i], |s|);
    s[..pos] + [i] + s[pos..]
  }

  /** The indices below `n`, by stable descending insertion sort. */
  function SortDesc(logits: seq<real>, n: nat): (s: seq<nat>)
    requires n <= |logits|
    ensures |s| == n && Indices(logits, s)
  {
    if n == 0 then [] else Insert(logits, SortDesc(logits, n - 1), n - 1)
  }

  predicate Sorted(logits: seq<real>, s: seq<nat>)
    requires Indices(logits, s)
  {
    forall k, l :: 0 <= k < l < |s| ==> Before(logits, s[k], s[l])
  }

  predicate AtLeast(logits: seq<real>, s: seq<nat>, v: real, k: nat)
    requires Indices(logits, s)
  {
    k < |s| && logits[s[k]] >= v
  }

  lemma {:induction false} PlaceSplits(logits: seq<real>, s: seq<nat>, v: real, n: nat)
    requires Indices(logits, s) && Sorted(logits, s) && n <= |s|
    ensures var pos := Place(logits, s, v, n);
      && (forall k :: 0 <= k < pos ==> AtLeast(logits, s, v, k))
      && (forall k :: pos <= k < n ==> !AtLeast(logits, s, v, k))
  {
    if n > 0 && v > logits[s[n - 1]] {
      PlaceSplits(logits, s, v, n - 1);
    } else if n > 0 {
      forall k | 0 <= k < n ensures AtLeast(logits, s, v, k) { if k < n - 1 { assert Before(logits, s[k], s[n - 1]); } }
    }
  }

  lemma InsertSorted(logits: seq<real>, s: seq<nat>, i: nat)
    requires Indices(logits, s) && i < |logits| && Sorted(logits, s) && forall k :: 0 <= k < |s| ==> s[k] < i
    ensures Indices(logits, Insert(logits, s, i)) && Sorted(logits, Insert(logits, s, i))
  {
    hide Place;
    PlaceSplits(logits, s, logits[i], |s|);
    var r := Insert(logits, s, i);
    var pos := Place(logits, s, logits[i], |s|);
    forall k, l | 0 <= k < l < |r| ensures Before(logits, r[k], r[l]) {
      if k < pos { assert AtLeast(logits, s, logits[i], k); }
      if pos < l { assert !AtLeast(logits, s, logits[i], l - 1); }
    }
  }

  predicate Lists(s: seq<nat>, n: nat)
  {
    |s| == n && (forall k :: 0 <= k < n ==> s[k] < n) && forall i: nat :: i < n ==> i in s
  }

  lemma InsertLists(logits: seq<real>, s: seq<nat>, n: nat)
    requires n < |logits| && Indices(logits, s) && Lists(s, n)
    ensures Lists(Insert(logits, s, n), n + 1)
  {
    hide Place;
    var pos := Place(logits, s, logits[n], |s|);
    var r := Insert(logits, s, n);
    forall i: nat | i < n + 1 ensures i in r {
      if i < n {
        assert i in s;
        var k: nat :| k < |s| && s[k] == i;
      } else {
        assert r[pos] == n;
      }
    }
  }

  /** The result is sorted, stable for equal logits, and lists every index exactly once. */
  lemma {:induction false} SortDescIsStableSort(logits: seq<real>, n: nat)
    requires n <= |logits|
    ensures Sorted(logits, SortDesc(logits, n)) && Lists(SortDesc(logits, n), n)
  {
    hide Place; hide Sorted; hide Insert;
    if n == 0 {
      NothingSorted(logits);
    } else {
      SortDescIsStableSort(logits, n - 1);
      InsertSorted(logits, SortDesc(logits, n - 1), n - 1);
      InsertLists(logits, SortDesc(logits, n - 1), n - 1);
    }
  }

  lemma NothingSorted(logits: seq<real>)
    ensures Sorted(logits, [])
  {
  }

  // ---- Packing -----------------------------------------------------------------------------------------

  /** For the first `k` places it is enough to search the first `k - 1`, unless the value does not get in at all. */
  lemma PlaceTruncated(logits: seq<real>, s: seq<nat>, v: real, k: nat)
    requires Indices(logits, s) && Sorted(logits, s) && 0 < k <= |s|
    ensures v <= logits[s[k - 1]] ==> k <= Place(logits, s, v, |s|)
    ensures v > logits[s[k - 1]] ==> Place(logits, s, v, |s|) == Place(logits, s, v, k - 1)
  {
    hide Place;
    PlaceSplits(logits, s, v, |s|);
    PlaceSplits(logits, s, v, k - 1);
    var p, q := Place(logits, s, v, |s|), Place(logits, s, v, k - 1);
    var atP, atQ, atEnd := AtLeast(logits, s, v, p), AtLeast(logits, s, v, q), AtLeast(logits, s, v, k - 1);
  }

  /** The arrays hold the indices `s` and their logits. */
  ghost predicate Holds(logits: seq<real>, topIdx: array<nat>, topVal: array<real>, s: seq<nat>, n: nat)
    reads topIdx, topVal
  {
    && n <= |s| && n <= topIdx.Length == topVal.Length && Indices(logits, s)
    && forall j :: 0 <= j < n ==> topIdx[j] == s[j] && topVal[j] == logits[s[j]]
  }

  /** Element `j` of `s` with index `i` inserted at `pos`. */
  function Shifted(s: seq<nat>, i: nat, pos: nat, j: nat): nat
    requires pos <= |s| && j <= |s|
  {
    if j < pos then s[j] else if j == pos then i else s[j - 1]
  }

  /** Opens a gap for value `v` below `top` and closes it with index `i`: the inner loop of the packing. */
  method InsertAt(
      logits: seq<real>, topIdx: array<nat>, topVal: array<real>, top: nat, v: real, i: nat, ghost s: seq<nat>)
    returns (pos: nat)
    requires Holds(logits, topIdx, topVal, s, top) && top < topIdx.Length && i < |logits| && v == logits[i]
    modifies topIdx, topVal
    ensures pos == Place(logits, s, v, top)
    ensures forall j :: 0 <= j <= top ==> topIdx[j] == Shifted(s, i, pos, j)
    ensures forall j :: 0 <= j <= top ==> topIdx[j] < |logits| && topVal[j] == logits[topIdx[j]]
  {
    hide Place;
    pos := top;
    while pos > 0 && v > topVal[pos - 1]
      invariant pos <= top && Place(logits, s, v, pos) == Place(logits, s, v, top)
      invariant forall j :: 0 <= j < pos ==> topIdx[j] == s[j] && topVal[j] == logits[s[j]]
      invariant forall j :: pos < j <= top ==> topIdx[j] == s[j - 1] && topVal[j] == logits[s[j - 1]]
    {
      PlaceSteps(logits, s, v, pos);
      topVal[pos] := topVal[pos - 1];
      topIdx[pos] := topIdx[pos - 1];
      pos := pos - 1;
    }
    PlaceSteps(logits, s, v, pos);
    topVal[pos] := v;
    topIdx[pos] := i;
  }

  lemma PlaceSteps(logits: seq<real>, s: seq<nat>, v: real, n: nat)
    requires Indices(logits, s) && n <= |s|
    ensures n > 0 && v > logits[s[n - 1]] ==> Place(logits, s, v, n) == Place(logits, s, v, n - 1)
    ensures !(n > 0 && v > logits[s[n - 1]]) ==> Place(logits, s, v, n) == n
  {
  }

  /** One step of the sort, seen through its first `k` places. */
  lemma NextSorted(logits: seq<real>, i: nat, k: nat)
    requires i < |logits| && 0 < k
    ensures var s, s' := SortDesc(logits, i), SortDesc(logits, i + 1);
      && (i < k ==> forall j :: 0 <= j <= i ==> s'[j] == Shifted(s, i, Place(logits, s, logits[i], i), j))
      && (k <= i && logits[i] <= logits[s[k - 1]] ==> forall j :: 0 <= j < k ==> s'[j] == s[j])
      && (k <= i && logits[i] > logits[s[k - 1]] ==>
            forall j :: 0 <= j < k ==> s'[j] == Shifted(s, i, Place(logits, s, logits[i], k - 1), j))
  {
    var s, s' := SortDesc(logits, i), SortDesc(logits, i + 1);
    SortDescIsStableSort(logits, i);
    forall j | 0 <= j <= i ensures s'[j] == Shifted(s, i, Place(logits, s, logits[i], i), j) { }
    if k <= i { PlaceTruncated(logits, s, logits[i], k); }
  }

  /** What one logit does to the arrays, against one step of the sort. */
  method Take(logits: seq<real>, topIdx: array<nat>, topVal: array<real>, i: nat, filled0: nat, k: nat)
    returns (filled: nat)
    requires i < |logits| && 0 < k == topIdx.Length && filled0 == (if i < k then i else k)
    requires Holds(logits, topIdx, topVal, SortDesc(logits, i), filled0)
    modifies topIdx, topVal
    ensures filled == (if i + 1 < k then i + 1 else k)
    ensures Holds(logits, topIdx, topVal, SortDesc(logits, i + 1), filled)
  {
    hide Place; hide SortDesc; hide Shifted;
    NextSorted(logits, i, k);
    ghost var s := SortDesc(logits, i);
    var v := logits[i];
    filled := filled0;
    if filled < k {
      var pos := InsertAt(logits, topIdx, topVal, filled, v, i, s);
      filled := filled + 1;
    } else if v > topVal[k - 1] {
      var pos := InsertAt(logits, topIdx, topVal, k - 1, v, i, s);
    }
  }

  /** `packTopKLogits`: exactly the first k of the stable descending sort, with their logits. */
  method PackTopK(logits: seq<real>, k0: nat) returns (packed: seq<(nat, real)>)
    ensures |packed| == (if k0 < |logits| then k0 else |logits|)
    ensures forall j :: 0 <= j < |packed| ==>
      packed[j].0 == SortDesc(logits, |logits|)[j] && packed[j].1 == logits[packed[j].0]
  {
    hide SortDesc;
    if k0 == 0 || |logits| == 0 { return []; }
    var k := if k0 < |logits| then k0 else |logits|;
    var topIdx, topVal := new nat[k](_ => 0), new real[k](_ => 0.0);
    var filled := 0;
    for i := 0 to |logits|
      invariant filled == (if i < k then i else k)
      invariant Holds(logits, topIdx, topVal, SortDesc(logits, i), filled)
    {
      filled := Take(logits, topIdx, topVal, i, filled, k);
    }
    packed := [];
    for j := 0 to k
      invariant |packed| == j
      invariant forall l :: 0 <= l < j ==>
        packed[l].0 == SortDesc(logits, |logits|)[l] && packed[l].1 == logits[packed[l].0]
    {
      packed := packed + [(topIdx[j], topVal[j])];
    }
  }

  // ---- Greedy sampling -----------------------------------------------------------------------------------

  /** The first index with the largest logit. */
  predicate IsArgmax(logits: seq<real>, i: nat)
  {
    i < |logits| && (forall j :: 0 <= j < |logits| ==> logits[j] <= logits[i]) && forall j :: 0 <= j < i ==>
      logits[j] < logits[i]
  }

  /** `sample_argmax`, and `sampleArgmaxToken` for a row that is not empty. */
  method SampleArgmax(logits: seq<real>) returns (best: nat)
    requires logits != []
    ensures IsArgmax(logits, best)
  {
    best := 0;
    var bestVal := logits[0];
    for i := 1 to |logits|
      invariant best < i && bestVal == logits[best]
      invariant forall j :: 0 <= j < i ==> logits[j] <= bestVal
      invariant forall j :: 0 <= j < best ==> logits[j] < bestVal
    {
      if logits[i] > bestVal { best, bestVal := i, logits[i]; }
    }
  }

  predicate FirstLargest(packed: seq<(nat, real)>, b: nat)
  {
    b < |packed| && (forall j :: 0 <= j < |packed| ==> packed[j].1 <= packed[b].1) && forall j :: 0 <= j < b ==>
      packed[j].1 < packed[b].1
  }

  /** `sampleTopK` at temperature zero. */
  method SampleTopKGreedy(packed: seq<(nat, real)>) returns (token: nat)
    requires packed != []
    ensures exists b: nat :: b < |packed| && token == packed[b].0 && FirstLargest(packed, b)
  {
    var bestLocal, best := 0, packed[0].1;
    for i := 1 to |packed|
      invariant bestLocal < i && best == packed[bestLocal].1
      invariant forall j :: 0 <= j < i ==> packed[j].1 <= best
      invariant forall j :: 0 <= j < bestLocal ==> packed[j].1 < best
    {
      if packed[i].1 > best { bestLocal, best := i, packed[i].1; }
    }
    assert FirstLargest(packed, bestLocal);
    token := packed[bestLocal].0;
  }

  lemma FirstIsArgmax(logits: seq<real>)
    requires logits != []
    ensures IsArgmax(logits, SortDesc(logits, |logits|)[0])
  {
    hide SortDesc;
    SortDescIsStableSort(logits, |logits|);
    var s := SortDesc(logits, |logits|);
    forall j | 0 <= j < |logits| ensures logits[j] <= logits[s[0]] && (j < s[0] ==> logits[j] < logits[s[0]]) {
      assert j in s;
      var k: nat :| k < |s| && s[k] == j;
      if k > 0 { assert Before(logits, s[0], s[k]); }
    }
  }

  /** Zero-temperature sampling from the packed logits picks the token that argmax over all logits picks, for every
      k. */
  method GreedyThroughTopK(logits: seq<real>, k: nat) returns (token: nat, full: nat)
    requires logits != [] && 0 < k
    ensures token == full && IsArgmax(logits, token)
  {
    var packed := PackTopK(logits, k);
    token := SampleTopKGreedy(packed);
    full := SampleArgmax(logits);
    FirstIsArgmax(logits);
    var b: nat :| b < |packed| && token == packed[b].0 && FirstLargest(packed, b);
    assert packed[0].0 == SortDesc(logits, |logits|)[0];
    assert packed[b].1 <= packed[0].1;
  }

  // ---- Fused argmax ----------------------------------------------------------------------------------------

  const STRIDE := 128
  const MAX_THREADS := 64

  /** A float that may still be minus infinity. */
  datatype Value = NegInf | Fin(value: real)

  predicate Exceeds(v: real, w: Value) { w.NegInf? || v > w.value }

  datatype Partial = Partial(idx: nat, max: Value)

  /** The best of one thread's share, or nothing for an empty share. */
  predicate ShardBest(logits: seq<real>, from: nat, to: nat, p: Partial)
    requires to <= |logits|
  {
    if from >= to then p.max == NegInf
    else from <= p.idx < to && p.max == Fin(logits[p.idx]) && forall i :: from <= i < to ==> logits[i] <= logits[p.idx]
  }

  /** One thread of `matmulArgmaxForward`: `logits[i]` is the dot product of row i, `seed` whatever it remembers. */
  method ShardArgmax(logits: seq<real>, nThreads: nat, t: nat, seed: nat) returns (p: Partial)
    requires t < nThreads
    ensures S.End(|logits|, nThreads, t) <= |logits|
    ensures ShardBest(logits, S.Start(|logits|, nThreads, t), S.End(|logits|, nThreads, t), p)
  {
    S.Inside(|logits|, nThreads, t);
    var start, end := S.Start(|logits|, nThreads, t), S.End(|logits|, nThreads, t);
    var localMax, localIdx := NegInf, start;
    if start < end {
      if start <= seed < end { localMax, localIdx := Fin(logits[seed]), seed; }
      for i := start to end
        invariant localMax.NegInf? ==> i == start
        invariant localMax.Fin? ==> start <= localIdx < end && localMax == Fin(logits[localIdx])
        invariant localMax.Fin? ==> forall j :: start <= j < i ==> logits[j] <= logits[localIdx]
      {
        if Exceeds(logits[i], localMax) { localMax, localIdx := Fin(logits[i]), i; }
      }
    }
    p := Partial(localIdx, localMax);
  }

  /** The largest of the partial results below `n`. */
  predicate BestPartial(partials: seq<Partial>, n: nat, t: nat)
  {
    t < n <= |partials| && partials[t].max.Fin?
    && forall u :: 0 <= u < n && partials[u].max.Fin? ==> partials[u].max.value <= partials[t].max.value
  }

  /** `argmaxReduceForward`: it looks at no more than `maxThreads` partial results. */
  method ReduceArgmax(partials: seq<Partial>, maxThreads: nat) returns (bestIdx: nat)
    requires 0 < maxThreads
    ensures var used := if |partials| < maxThreads then |partials| else maxThreads;
      (exists t :: 0 <= t < used && partials[t].max.Fin?) ==>
        exists t: nat :: BestPartial(partials, used, t) && bestIdx == partials[t].idx
  {
    var usedThreads := if |partials| < maxThreads then |partials| else maxThreads;
    var bestVal: Value, best: nat := NegInf, 0;
    bestIdx := 0;
    for t := 0 to usedThreads
      invariant bestVal.NegInf? ==> forall u :: 0 <= u < t ==> partials[u].max.NegInf?
      invariant bestVal.Fin? ==>
        BestPartial(partials, t, best) && partials[best].max == bestVal && bestIdx == partials[best].idx
    {
      if partials[t].max.Fin? && Exceeds(partials[t].max.value, bestVal) {
        bestVal, best := partials[t].max, t;
        bestIdx := partials[t].idx;
      }
    }
    assert bestVal.Fin? ==> BestPartial(partials, usedThreads, best);
  }

  /** The fused argmax over all threads; `None` where the source throws. */
  method FusedArgmax(logits: seq<real>, nThreads: nat, seeds: seq<nat>) returns (token: Option<nat>)
    requires logits != [] && 0 < nThreads == |seeds|
    ensures token.None? <==> STRIDE < 2 * nThreads
    ensures token.Some? ==> token.value < |logits| && forall j :: 0 <= j < |logits| ==> logits[j] <= logits[token.value]
  {
    if STRIDE < nThreads * 2 { return None; }
    var partials: seq<Partial> := [];
    for t := 0 to nThreads
      invariant |partials| == t && forall u :: 0 <= u < t ==> OwnBest(logits, nThreads, u, partials[u])
    {
      var p := ShardArgmax(logits, nThreads, t, seeds[t]);
      partials := partials + [p];
    }
    ghost var first := SomeShard(logits, nThreads, partials, 0);
    var best := ReduceArgmax(partials, MAX_THREADS);
    var b: nat :| BestPartial(partials, nThreads, b) && best == partials[b].idx;
    assert OwnBest(logits, nThreads, b, partials[b]);
    forall j | 0 <= j < |logits| ensures logits[j] <= logits[best] {
      var t := SomeShard(logits, nThreads, partials, j);
    }
    token := Some(best);
  }

  predicate OwnBest(logits: seq<real>, nThreads: nat, t: nat, p: Partial)
    requires 0 < nThreads
  {
    S.End(|logits|, nThreads, t) <= |logits|
      && ShardBest(logits, S.Start(|logits|, nThreads, t), S.End(|logits|, nThreads, t), p)
  }

  /** Every logit is under the partial result of the thread that owns it. */
  lemma SomeShard(logits: seq<real>, nThreads: nat, partials: seq<Partial>, j: nat) returns (t: nat)
    requires 0 < nThreads == |partials| && j < |logits|
    requires forall u :: 0 <= u < nThreads ==> OwnBest(logits, nThreads, u, partials[u])
    ensures t < nThreads && partials[t].max.Fin? && logits[j] <= partials[t].max.value
  {
    t := S.Owner(|logits|, nThreads, j);
    assert OwnBest(logits, nThreads, t, partials[t]);
  }
}
