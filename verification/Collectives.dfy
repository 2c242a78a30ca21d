/** `syncNodeSlices` (src/nn/nn-network.cpp): the reduction both collectives share, the star
    all-reduce, and when the choice between ring and star gives every node the sum. */
module Collectives {
  import opened Common
  import opened RingBytes
  import opened RingSchedule
  import opened RingProtocol

  const BLOCK := 256

  /** `reduceSum` on an F_32 pipe: 256 floats at a time through two stack buffers. */
  method ReduceSum(result: array<real>, at: nat, input: array<real>, from: nat, count: nat)
    requires result != input && at + count <= result.Length && from + count <= input.Length
    modifies result
    ensures forall k :: 0 <= k < result.Length ==>
      result[k] == if at <= k < at + count then old(result[k]) + input[from + k - at] else old(result[k])
  {
    var inputBuf, resultBuf := new real[BLOCK], new real[BLOCK];
    var processed := 0;
    while processed < count
      invariant processed <= count
      invariant forall k :: 0 <= k < result.Length ==>
        result[k] == if at <= k < at + processed then old(result[k]) + input[from + k - at] else old(result[k])
    {
      var current := if count - processed < BLOCK then count - processed else BLOCK;
      forall i | 0 <= i < current { inputBuf[i] := input[from + processed + i]; }
      forall i | 0 <= i < current { resultBuf[i] := result[at + processed + i]; }
      for i := 0 to current
        modifies resultBuf
        invariant forall k :: 0 <= k < current ==> inputBuf[k] == input[from + processed + k]
        invariant forall k :: 0 <= k < current ==>
          resultBuf[k] == result[at + processed + k] + if k < i then inputBuf[k] else 0.0
      {
        resultBuf[i] := resultBuf[i] + inputBuf[i];
      }
      ghost var before := result[..];
      forall i | 0 <= i < current { result[at + processed + i] := resultBuf[i]; }
      assert forall k :: at + processed <= k < at + processed + current ==>
        result[k] == before[k] + input[from + k - at] by {
        forall k | at + processed <= k < at + processed + current
          ensures result[k] == before[k] + input[from + k - at]
        {
          var i := k - at - processed;
          assert result[at + processed + i] == resultBuf[i];
        }
      }
      processed := processed + current;
    }
  }

  /** A reduce-scatter exchange adds the received slice into its chunk, as the schedule says. */
  method ReduceChunk(g: Ring, buffer: array<real>, c: nat, temp: array<real>)
    requires g.Valid() && c < g.n && buffer.Length == g.n * g.len && temp.Length == g.len && buffer != temp
    modifies buffer
    ensures buffer[..] == Store(g, old(buffer[..]), c, temp[..], true)
  {
    ChunkBounds(g, c, 0);
    ReduceSum(buffer, c * g.len, temp, 0, g.len);
  }

  // ---- Star ---------------------------------------------------------------------------------------

  predicate Buffers(n: nat, floats: nat, xs: seq<seq<real>>)
  {
    |xs| == n && forall i :: 0 <= i < n ==> |xs[i]| == floats
  }

  /** The gather buffer of the root after the first `n` workers have been read into it. */
  function Gathering(xs: seq<seq<real>>, n: nat): seq<real>
    requires n < |xs|
  {
    if n == 0 then [] else Gathering(xs, n - 1) + xs[n]
  }

  /** The root's buffer after `w` reductions from the gather buffer. */
  function Reduced(buffer: seq<real>, gather: seq<real>, w: nat): (r: seq<real>)
    requires w * |buffer| <= |gather|
    ensures |r| == |buffer|
  {
    if w == 0 then buffer
    else
      MulMonotone(w - 1, w, |buffer|);
      var before := Reduced(buffer, gather, w - 1);
      seq(|buffer|, k requires 0 <= k < |buffer| => before[k] + gather[(w - 1) * |buffer| + k])
  }

  /** What the star leaves on node `i`: the root reduces its gather buffer and, unless it alone is to
      have the result, writes its buffer to every worker. */
  function Starred(xs: seq<seq<real>>, floats: nat, onlyRoot: bool, i: nat): (r: seq<real>)
    requires Buffers(|xs|, floats, xs) && i < |xs|
    ensures |r| == floats
  {
    GatheringSize(xs, floats, |xs| - 1);
    if i == 0 || !onlyRoot then Reduced(xs[0], Gathering(xs, |xs| - 1), |xs| - 1) else xs[i]
  }

  lemma {:induction false} GatheringSize(xs: seq<seq<real>>, floats: nat, n: nat)
    requires Buffers(|xs|, floats, xs) && n < |xs|
    ensures |Gathering(xs, n)| == n * floats
  {
    if n > 0 { GatheringSize(xs, floats, n - 1); }
  }

  /** Worker `w + 1` lies at `w * floats` of the gather buffer. */
  lemma {:induction false} GatheringAt(xs: seq<seq<real>>, floats: nat, n: nat, w: nat, k: nat)
    requires Buffers(|xs|, floats, xs) && w < n < |xs| && k < floats
    ensures 0 <= w * floats + k < |Gathering(xs, n)| && Gathering(xs, n)[w * floats + k] == xs[w + 1][k]
    decreases n
  {
    GatheringSize(xs, floats, n);
    GatheringSize(xs, floats, n - 1);
    MulMonotone(w + 1, n, floats);
    if w < n - 1 {
      GatheringAt(xs, floats, n - 1, w, k);
    }
  }

  lemma {:induction false} ReducedIsSum(xs: seq<seq<real>>, floats: nat, w: nat, k: nat)
    requires Buffers(|xs|, floats, xs) && w < |xs| && k < floats
    ensures w * floats <= |Gathering(xs, |xs| - 1)|
    ensures Reduced(xs[0], Gathering(xs, |xs| - 1), w)[k] == RangeSum(xs, k, 0, w + 1)
    decreases w
  {
    hide Gathering;
    GatheringSize(xs, floats, |xs| - 1);
    MulMonotone(w, |xs| - 1, floats);
    if w == 0 {
      assert RangeSum(xs, k, 0, 0) == 0.0;
    } else {
      ReducedIsSum(xs, floats, w - 1, k);
      GatheringAt(xs, floats, |xs| - 1, w - 1, k);
    }
  }

  /** The star leaves the sum of all buffers on the root, and on every node unless only the root asked. */
  lemma StarIsSum(xs: seq<seq<real>>, floats: nat, onlyRoot: bool, i: nat, k: nat)
    requires Buffers(|xs|, floats, xs) && i < |xs| && k < floats
    ensures Starred(xs, floats, onlyRoot, i)[k] == if i == 0 || !onlyRoot then Sum(xs, k) else xs[i][k]
  {
    ReducedIsSum(xs, floats, |xs| - 1, k);
  }

  lemma GatheringNext(xs: seq<seq<real>>, n: nat)
    requires n + 1 < |xs|
    ensures Gathering(xs, n + 1) == Gathering(xs, n) + xs[n + 1]
  {
  }

  /** The gather buffer of the root, filled by `readMany`. */
  method GatherWorkers(nodes: seq<array<real>>, floats: nat) returns (gather: array<real>)
    requires 0 < |nodes| && forall i :: 0 <= i < |nodes| ==> nodes[i].Length == floats
    ensures fresh(gather) && gather[..] == Gathering(Contents(nodes), |nodes| - 1)
  {
    hide Gathering; hide Contents;
    gather := new real[(|nodes| - 1) * floats];
    GatheringSize(Contents(nodes), floats, |nodes| - 1);
    ReadWorkers(nodes, floats, gather);
  }

  /** Worker after worker is read behind the ones before. */
  method ReadWorkers(nodes: seq<array<real>>, floats: nat, gather: array<real>)
    requires 0 < |nodes| && gather !in nodes && gather.Length == |Gathering(Contents(nodes), |nodes| - 1)|
    requires forall i :: 0 <= i < |nodes| ==> nodes[i].Length == floats
    modifies gather
    ensures gather[..] == Gathering(old(Contents(nodes)), |nodes| - 1)
  {
    hide Gathering; hide Contents;
    ghost var xs := Contents(nodes);
    var w, at := 0, 0;
    GatheringNone(xs);
    while w < |nodes| - 1
      invariant w <= |nodes| - 1 && Contents(nodes) == xs
      invariant at == |Gathering(xs, w)| <= gather.Length && gather[..at] == Gathering(xs, w)
    {
      GatheringNext(xs, w);
      GatheringGrows(xs, w + 1, |nodes| - 1);
      ReadInto(gather, at, nodes[1 + w]);
      w, at := w + 1, at + floats;
    }
    assert gather[..] == gather[..at];
  }

  lemma {:induction false} GatheringGrows(xs: seq<seq<real>>, w: nat, n: nat)
    requires w <= n < |xs|
    ensures |Gathering(xs, w)| <= |Gathering(xs, n)|
    decreases n
  {
    if w < n { GatheringGrows(xs, w, n - 1); }
  }

  lemma GatheringNone(xs: seq<seq<real>>)
    requires 0 < |xs|
    ensures Gathering(xs, 0) == []
  {
  }

  method ReadInto(gather: array<real>, at: nat, from: array<real>)
    requires gather != from && at + from.Length <= gather.Length
    modifies gather
    ensures gather[..at + from.Length] == old(gather[..at]) + from[..]
  {
    forall k | 0 <= k < from.Length { gather[at + k] := from[k]; }
    assert gather[..at] == old(gather[..at]);
    assert gather[at..at + from.Length] == from[..];
    assert gather[..at + from.Length] == gather[..at] + gather[at..at + from.Length];
  }

  function Contents(nodes: seq<array<real>>): (xs: seq<seq<real>>)
    reads nodes
    ensures |xs| == |nodes| && forall i :: 0 <= i < |nodes| ==> xs[i] == nodes[i][..]
  {
    if nodes == [] then [] else Contents(nodes[..|nodes| - 1]) + [nodes[|nodes| - 1][..]]
  }

  /** `reduceSum` of the root over the gather buffer, worker after worker. */
  method ReduceGathered(buffer: array<real>, gather: array<real>, nWorkers: nat)
    requires buffer != gather && gather.Length == nWorkers * buffer.Length
    modifies buffer
    ensures buffer[..] == Reduced(old(buffer[..]), gather[..], nWorkers)
  {
    var w, len := 0, buffer.Length;
    while w < nWorkers
      invariant w <= nWorkers && w * len <= gather.Length && buffer[..] == Reduced(old(buffer[..]), gather[..], w)
    {
      MulMonotone(w + 1, nWorkers, len);
      assert (w + 1) * len == w * len + len;
      ghost var before := buffer[..];
      ReduceSum(buffer, 0, gather, w * len, len);
      assert forall k :: 0 <= k < len ==> buffer[k] == before[k] + gather[w * len + k];
      w := w + 1;
    }
  }

  /** `syncNodeSlices_starAllReduce` over the buffers of all nodes, the root's first. */
  method StarAllReduce(nodes: seq<array<real>>, floats: nat, onlyRoot: bool)
    requires 0 < |nodes| && (forall i :: 0 <= i < |nodes| ==> nodes[i].Length == floats)
    requires forall i, j :: 0 <= i < j < |nodes| ==> nodes[i] != nodes[j]
    modifies nodes
    ensures forall i :: 0 <= i < |nodes| ==> nodes[i][..] == Starred(old(Contents(nodes)), floats, onlyRoot, i)
  {
    hide Reduced; hide Gathering; hide Contents;
    ghost var xs := Contents(nodes);
    GatheringSize(xs, floats, |xs| - 1);
    var gather := GatherWorkers(nodes, floats);
    ReduceGathered(nodes[0], gather, |nodes| - 1);
    assert nodes[0][..] == Starred(xs, floats, onlyRoot, 0);
    if onlyRoot { return; }
    ghost var sum := nodes[0][..];
    for w := 1 to |nodes|
      invariant forall i :: 0 <= i < w ==> nodes[i][..] == sum
    {
      CopyBuffer(nodes[w], nodes[0]);
    }
  }

  /** A worker reads the root's buffer over its own. */
  method CopyBuffer(to: array<real>, from: array<real>)
    requires to != from && to.Length == from.Length
    modifies to
    ensures to[..] == from[..]
  {
    forall k | 0 <= k < from.Length { to[k] := from[k]; }
  }

  // ---- Choosing the collective ----------------------------------------------------------------------

  datatype Collective = Auto | Star | RingShaped

  function Effective(c: Collective, n: nat, nBytes: nat, onlyRoot: bool): Collective
    requires 0 < n
  {
    var ringSupported := n >= 8 && nBytes % n == 0;
    var picked := if c.Auto? then (if !onlyRoot && ringSupported then RingShaped else Star) else c;
    if picked.RingShaped? && (!ringSupported || onlyRoot) then Star else picked
  }

  predicate TakesRing(c: Collective, n: nat, nBytes: nat, onlyRoot: bool)
  {
    1 < n && 0 < nBytes && Effective(c, n, nBytes, onlyRoot).RingShaped?
  }

  /** Float `k` of node `i` after `syncNodeSlices`. */
  function Synced(c: Collective, onlyRoot: bool, w: FloatWire, floats: nat, xs: seq<seq<real>>, i: nat, k: nat): real
    requires Buffers(|xs|, floats, xs) && i < |xs| && k < floats
  {
    if |xs| <= 1 then xs[i][k]
    else if TakesRing(c, |xs|, 4 * floats, onlyRoot) then RingFloat(w, xs, floats, i, k)
    else Starred(xs, floats, onlyRoot, i)[k]
  }

  /** What a sync is for: every node, or the root alone, ends with the sum of all buffers. */
  ghost predicate Meets(c: Collective, onlyRoot: bool, w: FloatWire, floats: nat, xs: seq<seq<real>>)
    requires Buffers(|xs|, floats, xs)
  {
    forall i: nat, k: nat :: i < |xs| && k < floats && (i == 0 || !onlyRoot) ==>
      Synced(c, onlyRoot, w, floats, xs, i, k) == Sum(xs, k)
  }

  lemma RingTakenWhen(c: Collective, n: nat, nBytes: nat, onlyRoot: bool)
    ensures TakesRing(c, n, nBytes, onlyRoot) <==> !c.Star? && !onlyRoot && 8 <= n && 0 < nBytes && nBytes % n == 0
  {
  }

  lemma SoloSum(xs: seq<seq<real>>, k: nat)
    requires |xs| == 1 && k < |xs[0]|
    ensures Sum(xs, k) == xs[0][k]
  {
    assert RangeSum(xs, k, 0, 0) == 0.0;
  }

  /** What the ring loses of float `k`. */
  function Lost(w: FloatWire, floats: nat, xs: seq<seq<real>>, k: nat): real
    requires Cuts(xs, 4 * floats) && Buffers(|xs|, floats, xs) && k < floats
  {
    Sum(xs, k) - Diagonal(w, xs, floats, k)
  }

  /** With slices of whole floats, what the ring loses is what the other nodes hold there. */
  lemma LostInWholeSlices(w: FloatWire, floats: nat, xs: seq<seq<real>>, k: nat)
    requires w.Valid() && Cuts(xs, 4 * floats) && Buffers(|xs|, floats, xs) && k < floats && floats % |xs| == 0
    ensures 0 < floats / |xs| && k / (floats / |xs|) < |xs|
    ensures Lost(w, floats, xs, k) == Sum(xs, k) - xs[k / (floats / |xs|)][k]
  {
    WholeSlices(w, xs, floats, k);
  }

  /** Off the ring a sync delivers the sum; on the ring exactly when the ring loses nothing. */
  lemma MeetsExactly(c: Collective, onlyRoot: bool, w: FloatWire, floats: nat, xs: seq<seq<real>>)
    requires 0 < |xs| && Buffers(|xs|, floats, xs)
    ensures TakesRing(c, |xs|, 4 * floats, onlyRoot) ==> Cuts(xs, 4 * floats)
    ensures Meets(c, onlyRoot, w, floats, xs) <==>
      (TakesRing(c, |xs|, 4 * floats, onlyRoot) ==> forall k: nat :: k < floats ==> Lost(w, floats, xs, k) == 0.0)
  {
    hide RingFloat; hide Sum; hide Diagonal; hide Starred;
    var n := |xs|;
    if TakesRing(c, n, 4 * floats, onlyRoot) {
      forall i: nat, k: nat | i < n && k < floats
        ensures Synced(c, onlyRoot, w, floats, xs, i, k) == Sum(xs, k) - Lost(w, floats, xs, k)
      {
        RingFloatIsDiagonal(w, xs, floats, i, k);
      }
      if Meets(c, onlyRoot, w, floats, xs) {
        forall k: nat | k < floats ensures Lost(w, floats, xs, k) == 0.0 {
          assert Synced(c, onlyRoot, w, floats, xs, 0, k) == Sum(xs, k);
        }
      }
    } else {
      forall i: nat, k: nat | i < n && k < floats && (i == 0 || !onlyRoot)
        ensures Synced(c, onlyRoot, w, floats, xs, i, k) == Sum(xs, k)
      {
        StarIsSum(xs, floats, onlyRoot, i, k);
        if n == 1 { SoloSum(xs, k); }
      }
    }
  }

  /** The bytes of the ring and the schedule of its floats agree where slices are whole floats. */
  lemma SyncedIsSchedule(c: Collective, w: FloatWire, floats: nat, xs: seq<seq<real>>, i: nat, k: nat)
    requires w.Valid() && Buffers(|xs|, floats, xs) && i < |xs| && k < floats
    requires TakesRing(c, |xs|, 4 * floats, false) && floats % |xs| == 0
    ensures var g := Ring(|xs|, floats / |xs|, 0);
      g.Valid() && Inputs(g, xs) && k < g.n * g.len
        && Synced(c, false, w, floats, xs, i, k) == Buf(g, xs, i, g.exchanges, k)
  {
    hide RingFloat; hide Diagonal; hide Buf;
    RingFloatIsDiagonal(w, xs, floats, i, k);
    WholeSlices(w, xs, floats, k);
    WrittenRingIsDiagonal(Ring(|xs|, floats / |xs|, 0), xs, i, k);
  }

  function Ones(n: nat, floats: nat): (xs: seq<seq<real>>)
    ensures Buffers(n, floats, xs)
  {
    seq(n, _ => seq(floats, _ => 1.0))
  }

  lemma {:induction false} OnesSum(n: nat, floats: nat, k: nat, hi: nat)
    requires k < floats && hi <= n
    ensures RangeSum(Ones(n, floats), k, 0, hi) == hi as real
  {
    if 0 < hi { OnesSum(n, floats, k, hi - 1); }
  }

  /** For a group and a size, the sum is delivered for every content if and only if the ring is not
      taken: whatever the size of its slices, the written gather loses it on buffers of ones. */
  lemma DeliversSumUnlessRing(c: Collective, onlyRoot: bool, w: FloatWire, n: nat, floats: nat)
    requires 0 < n && w.Valid()
    ensures (forall xs :: Buffers(n, floats, xs) ==> Meets(c, onlyRoot, w, floats, xs)) <==>
      !TakesRing(c, n, 4 * floats, onlyRoot)
  {
    hide Meets; hide TakesRing; hide Diagonal;
    forall xs | Buffers(n, floats, xs) && !TakesRing(c, n, 4 * floats, onlyRoot)
      ensures Meets(c, onlyRoot, w, floats, xs)
    {
      MeetsExactly(c, onlyRoot, w, floats, xs);
    }
    if TakesRing(c, n, 4 * floats, onlyRoot) {
      var xs := Ones(n, floats);
      RingTakenWhen(c, n, 4 * floats, onlyRoot);
      MeetsExactly(c, onlyRoot, w, floats, xs);
      OnesSum(n, floats, 0, n);
      SameFloat(w, xs, floats, 0, 1.0);
      assert Lost(w, floats, xs, 0) == n as real - 1.0;
    }
  }

  // ---- Sockets --------------------------------------------------------------------------------------

  /** The slot of `peer` in the socket list of node `me`. */
  function SocketIndex(me: nat, peer: nat): int
  {
    if me == 0 then peer - 1 else if peer == 0 then 0 else if peer < me then peer else peer - 1
  }

  /** Every other node has a slot of its own, together they fill the list, and they are in the order of the nodes. */
  lemma SocketsAreDistinct(n: nat, me: nat, p: nat, q: nat)
    requires me < n && p < n && q < n && p != me && q != me
    ensures 0 <= SocketIndex(me, p) < n - 1
    ensures SocketIndex(me, p) < SocketIndex(me, q) <==> p < q
  {
  }
}
