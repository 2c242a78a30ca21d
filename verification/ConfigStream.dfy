/** The set-up streams between root and worker (src/nn/nn-network.cpp): net and node configurations
    with nested segments, and the weight records, byte by byte and with their acknowledgements. */
module ConfigStream {
  import opened Common
  import opened Utf8Stream
  import D = Utf8Decoder

  type U32 = x: int | 0 <= x < 0x1_0000_0000
  type U64 = x: int | 0 <= x < 0x1_0000_0000_0000_0000

  const ACK: U32 := 23571114

  /** `NnSize3D` and `NnPointerConfig` travel as raw structs. */
  const SIZE_BYTES := 40
  const POINTER_BYTES := 12

  type SizeRecord = b: seq<Byte> | |b| == SIZE_BYTES witness seq(SIZE_BYTES, _ => 0)
  type PointerRecord = b: seq<Byte> | |b| == POINTER_BYTES witness seq(POINTER_BYTES, _ => 0)

  // ---- Words and strings ---------------------------------------------------------------------------

  function Digits(x: nat, n: nat): (b: seq<Byte>)
    ensures |b| == n
  {
    if n == 0 then [] else [x % 256] + Digits(x / 256, n - 1)
  }

  function Value(b: seq<Byte>): nat { if b == [] then 0 else b[0] + 256 * Value(b[1..]) }

  function Power(n: nat): nat { if n == 0 then 1 else 256 * Power(n - 1) }

  /** A number that fits its bytes is read back. */
  lemma {:induction false} DigitsValue(x: nat, n: nat)
    requires x < Power(n)
    ensures Value(Digits(x, n)) == x
  {
    if n > 0 {
      assert x / 256 < Power(n - 1);
      DigitsValue(x / 256, n - 1);
    }
  }

  function Word(x: U32): (b: seq<Byte>) ensures |b| == 4 { Digits(x, 4) }
  function Long(x: U64): (b: seq<Byte>) ensures |b| == 8 { Digits(x, 8) }

  /** A C string without its NUL, short enough for a 32-bit length. */
  type Name = s: seq<Byte> | 0 !in s && |s| + 1 < 0x1_0000_0000

  type Blob = s: seq<Byte> | |s| < 0x1_0000_0000

  /** A weight slice; its length travels in 64 bits. */
  type Weight = s: seq<Byte> | |s| < 0x1_0000_0000_0000_0000 witness []

  function Str(s: Name): seq<Byte> { Word(|s| + 1) + (s + [0]) }

  function Each<T>(xs: seq<T>, f: T -> seq<Byte>): seq<Byte>
  {
    if xs == [] then [] else f(xs[0]) + Each(xs[1..], f)
  }

  function Words(xs: seq<U32>): seq<Byte> { Each(xs, Word) }

  // ---- Configurations ---------------------------------------------------------------------------------

  type Table<T> = s: seq<T> | |s| < 0x1_0000_0000 witness []

  datatype Named = Named(size: SizeRecord, name: Name)

  datatype NetConfig = NetConfig(nBatches: U32, nNodes: U32, pipes: Table<Named>, preSyncs: Table<U32>)

  datatype SyncConfig = SyncConfig(
    pipeIndex: U32, syncType: U32, kBuffer: U32, vBuffer: U32, localSeqStart: U32, localSeqLen: U32, dim0: U32,
      positionPipe: U32)

  datatype OpConfig = OpConfig(
    code: U32, index: U32, weightSize: SizeRecord, name: Name, input: PointerRecord, output: PointerRecord,
      config: Blob)

  datatype SegmentConfig = SegmentConfig(syncs: Table<SyncConfig>, ops: Table<OpConfig>)

  datatype Placement = Placement(
    nodeIndex: U32, ppRank: U32, tpRank: U32, tpGroupStart: U32, tpGroupEnd: U32, spRank: U32, spGroupStart: U32,
      spGroupEnd: U32,
    positionPipe: U32, tokenPipe: U32, xPipe: U32, logitsPipe: U32)

  datatype NodeConfig = NodeConfig(placement: Placement, buffers: Table<Named>, segments: Table<SegmentConfig>)

  function NamedBytes(p: Named): seq<Byte> { p.size + Str(p.name) }

  function NetBytes(c: NetConfig): seq<Byte>
  {
    Words([c.nBatches, c.nNodes, |c.pipes|]) + (Each(c.pipes, NamedBytes) + (Word(|c.preSyncs|) + Words(c.preSyncs)))
  }

  function SyncWords(s: SyncConfig): seq<U32>
  {
    [s.pipeIndex, s.syncType, s.kBuffer, s.vBuffer, s.localSeqStart, s.localSeqLen, s.dim0, s.positionPipe]
  }

  function SyncBytes(s: SyncConfig): seq<Byte> { Words(SyncWords(s)) }

  function OpBytes(o: OpConfig): seq<Byte>
  {
    Words([o.code, o.index]) + (o.weightSize + (Word(|o.config|) + (Str(o.name) + (o.input + (o.output + o.config)))))
  }

  function SegmentBytes(s: SegmentConfig): seq<Byte>
  {
    Words([|s.syncs|, |s.ops|]) + (Each(s.syncs, SyncBytes) + Each(s.ops, OpBytes))
  }

  function PlacementWords(p: Placement): seq<U32>
  {
    [p.nodeIndex, p.ppRank, p.tpRank, p.tpGroupStart, p.tpGroupEnd, p.spRank, p.spGroupStart, p.spGroupEnd,
     p.positionPipe, p.tokenPipe, p.xPipe, p.logitsPipe]
  }

  function NodeBytes(c: NodeConfig): seq<Byte>
  {
    Words(PlacementWords(c.placement) + [|c.buffers|, |c.segments|])
      + (Each(c.buffers, NamedBytes) + Each(c.segments, SegmentBytes))
  }

  /** One weight message. Its name is never written with length 0, which ends the stream. */
  datatype Record = Record(name: Name, opIndex: U32, offset: U64, weight: Weight)

  function RecordBytes(r: Record): seq<Byte>
  {
    Str(r.name) + (Word(r.opIndex) + (Long(r.offset) + (Long(|r.weight|) + r.weight)))
  }

  // ---- The byte layout, field by field --------------------------------------------------------------------

  /** Four bytes, the lowest first. */
  lemma LittleEndian()
    ensures Word(0x04030201) == [1, 2, 3, 4]
  {
    assert Digits(0x04, 1) == [4] + Digits(0, 0);
    assert Digits(0x0403, 2) == [3] + Digits(0x04, 1);
    assert Digits(0x040302, 3) == [2] + Digits(0x0403, 2);
  }

  lemma {:induction false} WordsAt(xs: seq<U32>, i: nat)
    requires i < |xs|
    ensures |Words(xs)| == 4 * |xs| && Words(xs)[4 * i..4 * i + 4] == Word(xs[i])
    decreases |xs|
  {
    hide Word;
    assert Words(xs) == Word(xs[0]) + Words(xs[1..]);
    if |xs| > 1 {
      WordsAt(xs[1..], if i > 0 then i - 1 else 0);
    } else {
      assert xs[1..] == [] && Words([]) == [];
    }
  }

  /** The bytes start with these words. */
  predicate StartsWith(b: seq<Byte>, xs: seq<U32>)
  {
    4 * |xs| <= |b| && forall k :: 0 <= k < |xs| ==> b[4 * k..4 * k + 4] == Word(xs[k])
  }

  lemma WordsFirst(xs: seq<U32>, rest: seq<Byte>)
    ensures StartsWith(Words(xs) + rest, xs) && |Words(xs)| == 4 * |xs|
  {
    hide Word; hide Words;
    if xs == [] { NoWords(); }
    forall k | 0 <= k < |xs|
      ensures |Words(xs)| == 4 * |xs| && (Words(xs) + rest)[4 * k..4 * k + 4] == Word(xs[k])
    {
      WordsAt(xs, k);
    }
    if xs != [] { WordsAt(xs, 0); }
  }

  lemma NoWords()
    ensures Words([]) == []
  {
  }

  /** A sync: pipe, type, the two buffers, slice start and length, row size, position pipe. */
  lemma SyncLayout(s: SyncConfig)
    ensures |SyncBytes(s)| == 32
    ensures StartsWith(SyncBytes(s),
      [s.pipeIndex, s.syncType, s.kBuffer, s.vBuffer, s.localSeqStart, s.localSeqLen, s.dim0, s.positionPipe])
  {
    hide Word; hide Words; hide StartsWith;
    WordsFirst(SyncWords(s), []);
    assert Words(SyncWords(s)) + [] == SyncBytes(s);
  }

  /** The head of a node: its place in the topology, its pipes, and the lengths of its tables. */
  lemma NodeLayout(c: NodeConfig)
    ensures var p := c.placement;
      StartsWith(NodeBytes(c),
        [p.nodeIndex, p.ppRank, p.tpRank, p.tpGroupStart, p.tpGroupEnd, p.spRank, p.spGroupStart, p.spGroupEnd,
         p.positionPipe, p.tokenPipe, p.xPipe, p.logitsPipe, |c.buffers|, |c.segments|])
  {
    hide Word; hide Words; hide StartsWith; hide Each;
    WordsFirst(PlacementWords(c.placement) + [|c.buffers|, |c.segments|],
      Each(c.buffers, NamedBytes) + Each(c.segments, SegmentBytes));
    var p := c.placement;
    assert PlacementWords(p) + [|c.buffers|, |c.segments|] ==
      [p.nodeIndex, p.ppRank, p.tpRank, p.tpGroupStart, p.tpGroupEnd, p.spRank, p.spGroupStart, p.spGroupEnd,
       p.positionPipe, p.tokenPipe, p.xPipe, p.logitsPipe, |c.buffers|, |c.segments|];
  }

  /** The head of a network: batches, nodes and the number of pipes. */
  lemma NetLayout(c: NetConfig)
    ensures StartsWith(NetBytes(c), [c.nBatches, c.nNodes, |c.pipes|])
  {
    hide Word; hide Words; hide StartsWith; hide Each;
    WordsFirst([c.nBatches, c.nNodes, |c.pipes|],
      Each(c.pipes, NamedBytes) + (Word(|c.preSyncs|) + Words(c.preSyncs)));
  }

  /** A string: its length with the NUL, its bytes, the NUL. */
  predicate StringAt(b: seq<Byte>, i: nat, s: Name)
  {
    && i + 5 + |s| <= |b| && b[i..i + 4] == Word(|s| + 1)
    && b[i + 4..i + 4 + |s|] == s && b[i + 4 + |s|] == 0
  }

  lemma StringFirst(a: seq<Byte>, s: Name, rest: seq<Byte>)
    ensures var b, n := a + (Str(s) + rest), |a| + 5 + |s|;
      StringAt(b, |a|, s) && |b| == n + |rest| && b[n..] == rest
  {
    hide Word;
    assert a + (Str(s) + rest) == a + Word(|s| + 1) + s + [0] + rest;
  }

  lemma Within(b: seq<Byte>, n: nat, i: nat, j: nat)
    requires i <= j && n + j <= |b|
    ensures b[n + i..n + j] == b[n..][i..j]
  {
  }

  /** An op: code and layer, weight size, configuration length, name, input, output, configuration. */
  lemma OpLayout(o: OpConfig)
    ensures var b, n := OpBytes(o), 57 + |o.name|;
      && |b| == n + 24 + |o.config| && StartsWith(b, [o.code, o.index])
      && b[8..48] == o.weightSize && b[48..52] == Word(|o.config|) && StringAt(b, 52, o.name)
      && b[n..n + 12] == o.input && b[n + 12..n + 24] == o.output && b[n + 24..] == o.config
  {
    hide Word; hide Words; hide StartsWith; hide StringAt; hide Str;
    var head, places := Words([o.code, o.index]), o.input + (o.output + o.config);
    WordsFirst([o.code, o.index], o.weightSize + (Word(|o.config|) + (Str(o.name) + places)));
    var a := head + o.weightSize + Word(|o.config|);
    assert OpBytes(o) == a + (Str(o.name) + places);
    StringFirst(a, o.name, places);
    forall i, j | 0 <= i <= j <= |places|
      ensures OpBytes(o)[57 + |o.name| + i..57 + |o.name| + j] == places[i..j]
    {
      Within(OpBytes(o), 57 + |o.name|, i, j);
    }
  }

  /** A weight record: name, layer, offset, length, bytes. */
  lemma RecordLayout(r: Record)
    ensures var b, n := RecordBytes(r), 5 + |r.name|;
      && |b| == n + 20 + |r.weight| && StringAt(b, 0, r.name) && b[n..n + 4] == Word(r.opIndex)
      && b[n + 4..n + 12] == Long(r.offset) && b[n + 12..n + 20] == Long(|r.weight|) && b[n + 20..] == r.weight
  {
    hide Word; hide Long; hide StringAt; hide Str;
    var rest := Word(r.opIndex) + (Long(r.offset) + (Long(|r.weight|) + r.weight));
    StringFirst([], r.name, rest);
    assert [] + (Str(r.name) + rest) == RecordBytes(r);
    forall i, j | 0 <= i <= j <= |rest|
      ensures RecordBytes(r)[5 + |r.name| + i..5 + |r.name| + j] == rest[i..j]
    {
      Within(RecordBytes(r), 5 + |r.name|, i, j);
    }
  }

  // ---- The wire ------------------------------------------------------------------------------------------

  /** One direction of a connection. */
  class Wire {
    var bytes: seq<Byte>

    constructor () ensures bytes == [] { bytes := []; }

    method Write(b: seq<Byte>)
      modifies this
      ensures bytes == old(bytes) + b
    {
      bytes := bytes + b;
    }

    method Read(n: nat, ghost b: seq<Byte>, ghost rest: seq<Byte>) returns (r: seq<Byte>)
      requires bytes == b + rest && |b| == n
      modifies this
      ensures r == b && bytes == rest
    {
      r := bytes[..n];
      bytes := bytes[n..];
    }

    method ReadWord(ghost x: U32, ghost rest: seq<Byte>) returns (r: U32)
      requires bytes == Word(x) + rest
      modifies this
      ensures r == x && bytes == rest
    {
      var b := Read(4, Word(x), rest);
      DigitsValue(x, 4);
      r := Value(b);
    }

    method ReadLong(ghost x: U64, ghost rest: seq<Byte>) returns (r: U64)
      requires bytes == Long(x) + rest
      modifies this
      ensures r == x && bytes == rest
    {
      var b := Read(8, Long(x), rest);
      DigitsValue(x, 8);
      r := Value(b);
    }

    /** The `i`-th of a run of words. */
    method ReadNext(ghost xs: seq<U32>, ghost i: nat, ghost rest: seq<Byte>) returns (r: U32)
      requires i < |xs| && bytes == Words(xs[i..]) + rest
      modifies this
      ensures r == xs[i] && bytes == Words(xs[i + 1..]) + rest
    {
      assert bytes == Word(xs[i]) + (Words(xs[i + 1..]) + rest);
      r := ReadWord(xs[i], Words(xs[i + 1..]) + rest);
    }

    method WriteString(s: Name)
      modifies this
      ensures bytes == old(bytes) + Str(s)
    {
      Write(Word(|s| + 1));
      Write(s + [0]);
    }

    method ReadString(ghost s: Name, ghost rest: seq<Byte>) returns (r: Name)
      requires bytes == Str(s) + rest
      modifies this
      ensures r == s && bytes == rest
    {
      assert bytes == Word(|s| + 1) + ((s + [0]) + rest);
      var n := ReadWord(|s| + 1, (s + [0]) + rest);
      var b := Read(n, s + [0], rest);
      D.TextEnds(b, |s|);
      r := D.Text(b);
    }

    method WriteAck()
      modifies this
      ensures bytes == old(bytes) + Word(ACK)
    {
      Write(Word(ACK));
    }

    /** Fails where the source throws on a wrong packet. */
    method ReadAck(ghost rest: seq<Byte>) returns (ok: bool)
      requires bytes == Word(ACK) + rest
      modifies this
      ensures ok && bytes == rest
    {
      var x := ReadWord(ACK, rest);
      ok := x == ACK;
    }
  }

  lemma Assoc(a: seq<Byte>, b: seq<Byte>, c: seq<Byte>)
    ensures (a + b) + c == a + (b + c)
  {
  }

  // ---- Tables of named sizes -----------------------------------------------------------------------------

  method WriteNamed(w: Wire, p: Named)
    modifies w
    ensures w.bytes == old(w.bytes) + NamedBytes(p)
  {
    w.Write(p.size);
    w.WriteString(p.name);
    Assoc(old(w.bytes), p.size, Str(p.name));
  }

  method ReadNamed(w: Wire, ghost p: Named, ghost rest: seq<Byte>) returns (r: Named)
    requires w.bytes == NamedBytes(p) + rest
    modifies w
    ensures r == p && w.bytes == rest
  {
    Assoc(p.size, Str(p.name), rest);
    var size := w.Read(SIZE_BYTES, p.size, Str(p.name) + rest);
    var name := w.ReadString(p.name, rest);
    r := Named(size, name);
  }

  method WriteTable(w: Wire, ps: seq<Named>)
    modifies w
    ensures w.bytes == old(w.bytes) + Each(ps, NamedBytes)
  {
    hide NamedBytes;
    for i := 0 to |ps|
      invariant w.bytes + Each(ps[i..], NamedBytes) == old(w.bytes) + Each(ps, NamedBytes)
    {
      Assoc(w.bytes, NamedBytes(ps[i]), Each(ps[i + 1..], NamedBytes));
      WriteNamed(w, ps[i]);
    }
  }

  method ReadTable(w: Wire, n: nat, ghost ps: seq<Named>, ghost rest: seq<Byte>) returns (r: seq<Named>)
    requires n == |ps| && w.bytes == Each(ps, NamedBytes) + rest
    modifies w
    ensures r == ps && w.bytes == rest
  {
    hide NamedBytes;
    r := [];
    for i := 0 to n
      invariant r == ps[..i] && w.bytes == Each(ps[i..], NamedBytes) + rest
    {
      Assoc(NamedBytes(ps[i]), Each(ps[i + 1..], NamedBytes), rest);
      var p := ReadNamed(w, ps[i], Each(ps[i + 1..], NamedBytes) + rest);
      r := r + [p];
    }
  }

  method WriteWords(w: Wire, xs: seq<U32>)
    modifies w
    ensures w.bytes == old(w.bytes) + Words(xs)
  {
    hide Word;
    for i := 0 to |xs|
      invariant w.bytes + Words(xs[i..]) == old(w.bytes) + Words(xs)
    {
      Assoc(w.bytes, Word(xs[i]), Words(xs[i + 1..]));
      w.Write(Word(xs[i]));
    }
  }

  method ReadWords(w: Wire, n: nat, ghost xs: seq<U32>, ghost rest: seq<Byte>) returns (r: seq<U32>)
    requires n == |xs| && w.bytes == Words(xs) + rest
    modifies w
    ensures r == xs && w.bytes == rest
  {
    hide Word;
    r := [];
    for i := 0 to n
      invariant r == xs[..i] && w.bytes == Words(xs[i..]) + rest
    {
      var x := w.ReadNext(xs, i, rest);
      r := r + [x];
    }
  }

  // ---- Net -------------------------------------------------------------------------------------------------

  /** `writeNet` up to the point where it waits for the worker's acknowledgement. */
  method WriteNet(down: Wire, c: NetConfig)
    modifies down
    ensures down.bytes == old(down.bytes) + (Word(ACK) + NetBytes(c))
  {
    hide Words; hide Word; hide Each;
    down.WriteAck();
    WriteWords(down, [c.nBatches, c.nNodes, |c.pipes|]);
    WriteTable(down, c.pipes);
    down.Write(Word(|c.preSyncs|));
    WriteWords(down, c.preSyncs);
  }

  /** `readNet`: the configuration that was written, and nothing of what follows it. */
  method ReadNet(down: Wire, up: Wire, ghost c: NetConfig, ghost rest: seq<Byte>) returns (ok: bool, r: NetConfig)
    requires down != up && down.bytes == Word(ACK) + NetBytes(c) + rest
    modifies down, up
    ensures ok && r == c && down.bytes == rest && up.bytes == old(up.bytes) + Word(ACK)
  {
    hide Words; hide Word; hide Each;
    ghost var head := [c.nBatches, c.nNodes, |c.pipes|];
    ghost var tail3 := Words(c.preSyncs) + rest;
    ghost var tail2 := Word(|c.preSyncs|) + tail3;
    ghost var tail1 := Each(c.pipes, NamedBytes) + tail2;
    assert down.bytes == Word(ACK) + (Words(head) + tail1);
    ok := down.ReadAck(Words(head) + tail1);
    var words := ReadWords(down, 3, head, tail1);
    var pipes := ReadTable(down, words[2], c.pipes, tail2);
    var nPreSyncs := down.ReadWord(|c.preSyncs|, tail3);
    var preSyncs := ReadWords(down, nPreSyncs, c.preSyncs, rest);
    up.WriteAck();
    r := NetConfig(words[0], words[1], pipes, preSyncs);
  }

  // ---- Node ------------------------------------------------------------------------------------------------

  method WriteOp(w: Wire, o: OpConfig)
    modifies w
    ensures w.bytes == old(w.bytes) + OpBytes(o)
  {
    hide Words; hide Word; hide Str;
    WriteWords(w, [o.code, o.index]);
    w.Write(o.weightSize);
    w.Write(Word(|o.config|));
    w.WriteString(o.name);
    w.Write(o.input);
    w.Write(o.output);
    if |o.config| > 0 { w.Write(o.config); }
  }

  method ReadOp(w: Wire, ghost o: OpConfig, ghost rest: seq<Byte>) returns (r: OpConfig)
    requires w.bytes == OpBytes(o) + rest
    modifies w
    ensures r == o && w.bytes == rest
  {
    hide Words; hide Word; hide Str;
    ghost var t6 := o.config + rest;
    ghost var t5 := o.output + t6;
    ghost var t4 := o.input + t5;
    ghost var t3 := Str(o.name) + t4;
    ghost var t2 := Word(|o.config|) + t3;
    ghost var t1 := o.weightSize + t2;
    assert w.bytes == Words([o.code, o.index]) + t1;
    var words := ReadWords(w, 2, [o.code, o.index], t1);
    var weightSize := w.Read(SIZE_BYTES, o.weightSize, t2);
    var configSize := w.ReadWord(|o.config|, t3);
    var name := w.ReadString(o.name, t4);
    var input := w.Read(POINTER_BYTES, o.input, t5);
    var output := w.Read(POINTER_BYTES, o.output, t6);
    var config: seq<Byte> := [];
    if configSize > 0 { config := w.Read(configSize, o.config, rest); }
    r := OpConfig(words[0], words[1], weightSize, name, input, output, config);
  }

  method ReadSync(w: Wire, ghost s: SyncConfig, ghost rest: seq<Byte>) returns (r: SyncConfig)
    requires w.bytes == SyncBytes(s) + rest
    modifies w
    ensures r == s && w.bytes == rest
  {
    hide Words; hide Word;
    var x := ReadWords(w, 8, SyncWords(s), rest);
    r := SyncConfig(x[0], x[1], x[2], x[3], x[4], x[5], x[6], x[7]);
  }

  method WriteSegment(w: Wire, s: SegmentConfig)
    modifies w
    ensures w.bytes == old(w.bytes) + SegmentBytes(s)
  {
    hide Words; hide Word; hide SyncBytes; hide OpBytes;
    WriteWords(w, [|s.syncs|, |s.ops|]);
    WriteSyncs(w, s.syncs);
    WriteOps(w, s.ops);
  }

  method WriteSyncs(w: Wire, xs: seq<SyncConfig>)
    modifies w
    ensures w.bytes == old(w.bytes) + Each(xs, SyncBytes)
  {
    hide Words;
    for i := 0 to |xs|
      invariant w.bytes + Each(xs[i..], SyncBytes) == old(w.bytes) + Each(xs, SyncBytes)
    {
      Assoc(w.bytes, SyncBytes(xs[i]), Each(xs[i + 1..], SyncBytes));
      WriteWords(w, SyncWords(xs[i]));
    }
  }

  method WriteOps(w: Wire, xs: seq<OpConfig>)
    modifies w
    ensures w.bytes == old(w.bytes) + Each(xs, OpBytes)
  {
    hide OpBytes;
    for i := 0 to |xs|
      invariant w.bytes + Each(xs[i..], OpBytes) == old(w.bytes) + Each(xs, OpBytes)
    {
      Assoc(w.bytes, OpBytes(xs[i]), Each(xs[i + 1..], OpBytes));
      WriteOp(w, xs[i]);
    }
  }

  method ReadSyncs(w: Wire, n: nat, ghost xs: seq<SyncConfig>, ghost rest: seq<Byte>) returns (r: seq<SyncConfig>)
    requires n == |xs| && w.bytes == Each(xs, SyncBytes) + rest
    modifies w
    ensures r == xs && w.bytes == rest
  {
    hide SyncBytes;
    r := [];
    for i := 0 to n
      invariant r == xs[..i] && w.bytes == Each(xs[i..], SyncBytes) + rest
    {
      Assoc(SyncBytes(xs[i]), Each(xs[i + 1..], SyncBytes), rest);
      var x := ReadSync(w, xs[i], Each(xs[i + 1..], SyncBytes) + rest);
      r := r + [x];
    }
  }

  method ReadOps(w: Wire, n: nat, ghost xs: seq<OpConfig>, ghost rest: seq<Byte>) returns (r: seq<OpConfig>)
    requires n == |xs| && w.bytes == Each(xs, OpBytes) + rest
    modifies w
    ensures r == xs && w.bytes == rest
  {
    hide OpBytes;
    r := [];
    for i := 0 to n
      invariant r == xs[..i] && w.bytes == Each(xs[i..], OpBytes) + rest
    {
      Assoc(OpBytes(xs[i]), Each(xs[i + 1..], OpBytes), rest);
      var x := ReadOp(w, xs[i], Each(xs[i + 1..], OpBytes) + rest);
      r := r + [x];
    }
  }

  method ReadSegment(w: Wire, ghost s: SegmentConfig, ghost rest: seq<Byte>) returns (r: SegmentConfig)
    requires w.bytes == SegmentBytes(s) + rest
    modifies w
    ensures r == s && w.bytes == rest
  {
    hide Words; hide Word; hide Each;
    ghost var t2 := Each(s.ops, OpBytes) + rest;
    ghost var t1 := Each(s.syncs, SyncBytes) + t2;
    assert w.bytes == Words([|s.syncs|, |s.ops|]) + t1;
    var counts := ReadWords(w, 2, [|s.syncs|, |s.ops|], t1);
    var syncs := ReadSyncs(w, counts[0], s.syncs, t2);
    var ops := ReadOps(w, counts[1], s.ops, rest);
    r := SegmentConfig(syncs, ops);
  }

  method WriteSegments(w: Wire, xs: seq<SegmentConfig>)
    modifies w
    ensures w.bytes == old(w.bytes) + Each(xs, SegmentBytes)
  {
    hide SegmentBytes;
    for i := 0 to |xs|
      invariant w.bytes + Each(xs[i..], SegmentBytes) == old(w.bytes) + Each(xs, SegmentBytes)
    {
      Assoc(w.bytes, SegmentBytes(xs[i]), Each(xs[i + 1..], SegmentBytes));
      WriteSegment(w, xs[i]);
    }
  }

  method ReadSegments(w: Wire, n: nat, ghost xs: seq<SegmentConfig>, ghost rest: seq<Byte>)
    returns (r: seq<SegmentConfig>)
    requires n == |xs| && w.bytes == Each(xs, SegmentBytes) + rest
    modifies w
    ensures r == xs && w.bytes == rest
  {
    hide SegmentBytes;
    r := [];
    for i := 0 to n
      invariant r == xs[..i] && w.bytes == Each(xs[i..], SegmentBytes) + rest
    {
      Assoc(SegmentBytes(xs[i]), Each(xs[i + 1..], SegmentBytes), rest);
      var x := ReadSegment(w, xs[i], Each(xs[i + 1..], SegmentBytes) + rest);
      r := r + [x];
    }
  }

  /** `writeNode` up to the point where it waits for the worker's acknowledgement. */
  method WriteNode(down: Wire, c: NodeConfig)
    modifies down
    ensures down.bytes == old(down.bytes) + (Word(ACK) + NodeBytes(c))
  {
    hide Words; hide Word; hide Each; hide PlacementWords;
    down.WriteAck();
    WriteWords(down, PlacementWords(c.placement) + [|c.buffers|, |c.segments|]);
    WriteTable(down, c.buffers);
    WriteSegments(down, c.segments);
  }

  /** `readNode`: the configuration that was written, and nothing of what follows it. */
  method ReadNode(down: Wire, up: Wire, ghost c: NodeConfig, ghost rest: seq<Byte>) returns (ok: bool, r: NodeConfig)
    requires down != up && down.bytes == Word(ACK) + NodeBytes(c) + rest
    modifies down, up
    ensures ok && r == c && down.bytes == rest && up.bytes == old(up.bytes) + Word(ACK)
  {
    hide Words; hide Word; hide Each;
    ghost var head := PlacementWords(c.placement) + [|c.buffers|, |c.segments|];
    ghost var t2 := Each(c.segments, SegmentBytes) + rest;
    ghost var t1 := Each(c.buffers, NamedBytes) + t2;
    assert down.bytes == Word(ACK) + (Words(head) + t1);
    ok := down.ReadAck(Words(head) + t1);
    var x := ReadWords(down, 14, head, t1);
    var buffers := ReadTable(down, x[12], c.buffers, t2);
    var segments := ReadSegments(down, x[13], c.segments, rest);
    up.WriteAck();
    r := NodeConfig(Placement(x[0], x[1], x[2], x[3], x[4], x[5], x[6], x[7], x[8], x[9], x[10], x[11]), buffers,
      segments);
  }

  /** `writeToWorkers` and the worker's two reads, for one worker: the worker ends with exactly the two
      configurations, every byte in both directions is consumed, and no acknowledgement is out of step. */
  method Configure(down: Wire, up: Wire, net: NetConfig, node: NodeConfig)
    returns (ok: bool, gotNet: NetConfig, gotNode: NodeConfig)
    requires down != up && down.bytes == [] && up.bytes == []
    modifies down, up
    ensures ok && gotNet == net && gotNode == node && down.bytes == [] && up.bytes == []
  {
    hide NetBytes; hide NodeBytes; hide Word;
    WriteNet(down, net);
    assert down.bytes == Word(ACK) + NetBytes(net) + [];
    var ok1, ok3: bool;
    ok1, gotNet := ReadNet(down, up, net, []);
    assert up.bytes == Word(ACK) + [];
    var ok2 := up.ReadAck([]);
    WriteNode(down, node);
    assert down.bytes == Word(ACK) + NodeBytes(node) + [];
    ok3, gotNode := ReadNode(down, up, node, []);
    assert up.bytes == Word(ACK) + [];
    var ok4 := up.ReadAck([]);
    ok := ok1 && ok2 && ok3 && ok4;
  }

  // ---- Weights ---------------------------------------------------------------------------------------------

  /** `writeWeight`. */
  method WriteRecord(down: Wire, r: Record)
    modifies down
    ensures down.bytes == old(down.bytes) + RecordBytes(r)
  {
    hide Word; hide Long; hide Str;
    down.WriteString(r.name);
    down.Write(Word(r.opIndex));
    down.Write(Long(r.offset));
    down.Write(Long(|r.weight|));
    down.Write(r.weight);
  }

  function StreamBytes(rs: seq<Record>): seq<Byte> { Each(rs, RecordBytes) + Word(0) }

  /** All the records for one worker, then `finish`. */
  method WriteStream(down: Wire, rs: seq<Record>)
    modifies down
    ensures down.bytes == old(down.bytes) + StreamBytes(rs)
  {
    hide RecordBytes; hide Word;
    for i := 0 to |rs|
      invariant down.bytes + Each(rs[i..], RecordBytes) == old(down.bytes) + Each(rs, RecordBytes)
    {
      Assoc(down.bytes, RecordBytes(rs[i]), Each(rs[i + 1..], RecordBytes));
      WriteRecord(down, rs[i]);
    }
    Assoc(old(down.bytes), Each(rs, RecordBytes), Word(0));
    down.Write(Word(0));
  }

  /** The node has an op of that name for that layer. */
  predicate HasOp(segments: seq<SegmentConfig>, name: Name, index: U32)
  {
    exists s, i :: 0 <= s < |segments| && 0 <= i < |segments[s].ops| && IsOp(segments[s].ops[i], name, index)
  }

  predicate IsOp(o: OpConfig, name: Name, index: U32) { o.index == index && o.name == name }

  /** The search of `NnExecutor::loadWeight`, which throws when it finds nothing. */
  method Locate(segments: seq<SegmentConfig>, name: Name, index: U32) returns (found: bool)
    ensures found <==> HasOp(segments, name, index)
  {
    for s := 0 to |segments|
      invariant forall s', i :: 0 <= s' < s && 0 <= i < |segments[s'].ops| ==> !IsOp(segments[s'].ops[i], name, index)
    {
      for i := 0 to |segments[s].ops|
        invariant forall i' :: 0 <= i' < i ==> !IsOp(segments[s].ops[i'], name, index)
      {
        if IsOp(segments[s].ops[i], name, index) { return true; }
      }
    }
    found := false;
  }

  /** The records for ops the node has, in order. */
  function Placed(segments: seq<SegmentConfig>, rs: seq<Record>): seq<Record>
  {
    if rs == [] then []
    else
      var r := rs[|rs| - 1];
      Placed(segments, rs[..|rs| - 1]) + if HasOp(segments, r.name, r.opIndex) then [r] else []
  }

  /** The size of the reader's buffer after `allocate`, whose parameter keeps 32 bits of the length. */
  function TempAfter(tempSize: U32, nBytes: U64): U32
  {
    var size := nBytes % 0x1_0000_0000;
    if tempSize < size then size else tempSize
  }

  function TempAt(tempSize: U32, rs: seq<Record>): U32
  {
    if rs == [] then tempSize else TempAfter(TempAt(tempSize, rs[..|rs| - 1]), |rs[|rs| - 1].weight|)
  }

  /** Every record fits the buffer it is read into. */
  predicate AllFit(tempSize: U32, rs: seq<Record>)
  {
    forall i :: 0 <= i < |rs| ==> |rs[i].weight| <= TempAt(tempSize, rs[..i + 1])
  }

  predicate Short(r: Record) { |r.weight| < 0x1_0000_0000 }

  /** A record fits exactly when its length does not lose bits, whatever the buffer was before. */
  lemma FitsIffShort(tempSize: U32, r: Record)
    ensures |r.weight| <= TempAfter(tempSize, |r.weight|) <==> Short(r)
  {
  }

  /** All reads of a stream stay in the buffer, exactly when every record is shorter than 2^32 bytes. */
  lemma AllFitIffShort(tempSize: U32, rs: seq<Record>)
    ensures AllFit(tempSize, rs) <==> forall i :: 0 <= i < |rs| ==> Short(rs[i])
  {
    forall i | 0 <= i < |rs| ensures |rs[i].weight| <= TempAt(tempSize, rs[..i + 1]) <==> Short(rs[i]) {
      assert rs[..i + 1][..i] == rs[..i];
      FitsIffShort(TempAt(tempSize, rs[..i]), rs[i]);
    }
  }

  /** An F_32 matrix of 128256 times 16384 on one node: 8.4 GB arrive in a buffer of 4.1 GB. */
  lemma OversizedExample(r: Record)
    requires |r.weight| == 128256 * 16384 * 4
    ensures !AllFit(0, [r]) && TempAt(0, [r]) == 4110417920
  {
    assert [r][..1] == [r] && [r][..0] == [];
    AllFitIffShort(0, [r]);
    assert TempAt(0, [r]) == TempAfter(TempAt(0, [r][..0]), |r.weight|);
  }

  /** Where the slice of expert `e` goes in the op's weight: the root keeps 32 bits of the product. */
  function ExpertOffset(e: U32, sliceBytes: U64): U32 { Times(e, sliceBytes) % 0x1_0000_0000 }

  /** Every expert's slice goes where it belongs, exactly when the last one starts below 2^32. */
  lemma ExpertsInPlace(nExperts: U32, sliceBytes: U64)
    requires 0 < nExperts
    ensures (forall e: U32 :: e < nExperts ==> ExpertOffset(e, sliceBytes) == Times(e, sliceBytes))
      <==> Times(nExperts - 1, sliceBytes) < 0x1_0000_0000
  {
    hide Times;
    var last: U32 := nExperts - 1;
    assert ExpertOffset(last, sliceBytes) < 0x1_0000_0000;
    forall e: U32 | e < nExperts && Times(last, sliceBytes) < 0x1_0000_0000
      ensures ExpertOffset(e, sliceBytes) == Times(e, sliceBytes)
    {
      TimesMonotone(e, last, sliceBytes);
    }
  }

  /** What is on the wire before record `i`. */
  function Remaining(rs: seq<Record>, i: nat, rest: seq<Byte>): seq<Byte>
    requires i <= |rs|
  {
    Each(rs[i..], RecordBytes) + (Word(0) + rest)
  }

  lemma RemainingAll(rs: seq<Record>, rest: seq<Byte>)
    ensures StreamBytes(rs) + rest == Remaining(rs, 0, rest)
  {
    hide RecordBytes; hide Word;
    Assoc(Each(rs, RecordBytes), Word(0), rest);
    assert rs[0..] == rs;
  }

  /** One record more, loaded if the node has its op. */
  lemma PlacedStep(segments: seq<SegmentConfig>, rs: seq<Record>, i: nat, loaded: seq<Record>, found: bool)
    requires i < |rs| && loaded == Placed(segments, rs[..i]) && (found <==> HasOp(segments, rs[i].name, rs[i].opIndex))
    ensures Placed(segments, rs[..i + 1]) == if found then loaded + [rs[i]] else loaded
  {
    hide HasOp;
    assert rs[..i + 1][..i] == rs[..i];
  }

  /** One record more for the buffer. */
  lemma TempStep(tempSize: U32, rs: seq<Record>, i: nat)
    requires i < |rs| && AllFit(tempSize, rs[..i])
    ensures var now := TempAfter(TempAt(tempSize, rs[..i]), |rs[i].weight|);
      && TempAt(tempSize, rs[..i + 1]) == now && (|rs[i].weight| <= now <==> Short(rs[i]))
      && (AllFit(tempSize, rs[..i + 1]) <==> Short(rs[i])) && (AllFit(tempSize, rs) ==> Short(rs[i]))
  {
    hide TempAt; hide Short;
    assert TempAt(tempSize, rs[..i + 1]) == TempAfter(TempAt(tempSize, rs[..i]), |rs[i].weight|)
      by { TempAtStep(tempSize, rs, i); }
    FitsIffShort(TempAt(tempSize, rs[..i]), rs[i]);
    AllFitIffShort(tempSize, rs[..i]);
    AllFitIffShort(tempSize, rs[..i + 1]);
    AllFitIffShort(tempSize, rs);
  }

  lemma TempAtStep(tempSize: U32, rs: seq<Record>, i: nat)
    requires i < |rs|
    ensures TempAt(tempSize, rs[..i + 1]) == TempAfter(TempAt(tempSize, rs[..i]), |rs[i].weight|)
  {
    assert rs[..i + 1][..i] == rs[..i];
  }

  /** `NnWorkerWeightReader`, with the size of its buffer. */
  class WeightReader {
    var tempSize: U32

    constructor () ensures tempSize == 0 { tempSize := 0; }

    /** The caller's 64-bit length is cut to the parameter's 32 bits. */
    method Allocate(nBytes: U64)
      modifies this
      ensures tempSize == TempAfter(old(tempSize), nBytes)
    {
      var size := nBytes % 0x1_0000_0000;
      if tempSize < size { tempSize := size; }
    }

    /** `read`: the loop ends at the zero length, has loaded exactly the records for ops the node has, and
        dropped the others; or it meets a record longer than its buffer, and then the records before it are
        loaded and nothing is acknowledged. */
    method Read(down: Wire, up: Wire, segments: seq<SegmentConfig>, ghost rs: seq<Record>, ghost rest: seq<Byte>)
      returns (overrun: bool, loaded: seq<Record>)
      requires down != up && down.bytes == StreamBytes(rs) + rest
      modifies this, down, up
      ensures overrun <==> !AllFit(old(tempSize), rs)
      ensures !overrun ==> loaded == Placed(segments, rs) && down.bytes == rest
      ensures !overrun ==> up.bytes == old(up.bytes) + Word(ACK) && tempSize == 0
      ensures overrun ==> up.bytes == old(up.bytes)
      ensures overrun ==>
        (exists i :: 0 <= i < |rs| && loaded == Placed(segments, rs[..i]) && AllFit(old(tempSize), rs[..i])
          && !Short(rs[i]))
    {
      hide StreamBytes; hide Remaining; hide RecordRest; hide HasOp; hide Placed; hide AllFit; hide Short;
      hide TempAt; hide TempAfter;
      hide Word;
      loaded := [];
      ghost var i := 0;
      RemainingAll(rs, rest);
      NothingRead(tempSize, segments);
      while true
        invariant i <= |rs| && down.bytes == Remaining(rs, i, rest) && up.bytes == old(up.bytes)
        invariant loaded == Placed(segments, rs[..i])
        invariant tempSize == TempAt(old(tempSize), rs[..i]) && AllFit(old(tempSize), rs[..i])
        decreases |rs| - i
      {
        var nameSize := NextLength(down, rs, i, rest);
        if nameSize == 0 {
          assert rs[..i] == rs;
          up.WriteAck();
          tempSize := 0;
          return false, loaded;
        }
        var name, opIndex, offset, nBytes := ReadRecordHead(down, nameSize, rs[i], Remaining(rs, i + 1, rest));
        Allocate(nBytes);
        TempStep(old(tempSize), rs, i);
        if tempSize < nBytes { return true, loaded; }
        var weight := down.Read(nBytes, rs[i].weight, Remaining(rs, i + 1, rest));
        var found := Locate(segments, name, opIndex);
        PlacedStep(segments, rs, i, loaded, found);
        if found { loaded := loaded + [Record(name, opIndex, offset, weight)]; }
        i := i + 1;
      }
    }
  }

  lemma NothingRead(tempSize: U32, segments: seq<SegmentConfig>)
    ensures Placed(segments, []) == [] && TempAt(tempSize, []) == tempSize && AllFit(tempSize, [])
  {
  }

  /** The bytes of a record after its name length. */
  function RecordRest(r: Record): seq<Byte>
  {
    (r.name + [0]) + (Word(r.opIndex) + (Long(r.offset) + (Long(|r.weight|) + r.weight)))
  }

  lemma RecordHead(r: Record)
    ensures RecordBytes(r) == Word(|r.name| + 1) + RecordRest(r)
  {
    hide Word; hide Long;
  }

  lemma RemainingStep(rs: seq<Record>, i: nat, rest: seq<Byte>)
    requires i <= |rs|
    ensures i == |rs| ==> Remaining(rs, i, rest) == Word(0) + rest
    ensures i < |rs| ==>
      Remaining(rs, i, rest) == Word(|rs[i].name| + 1) + (RecordRest(rs[i]) + Remaining(rs, i + 1, rest))
  {
    hide Word; hide RecordBytes; hide RecordRest;
    if i < |rs| {
      RecordHead(rs[i]);
      assert rs[i..][1..] == rs[i + 1..];
      assert Each(rs[i..], RecordBytes) == RecordBytes(rs[i]) + Each(rs[i + 1..], RecordBytes);
    }
  }

  method NextLength(down: Wire, ghost rs: seq<Record>, ghost i: nat, ghost rest: seq<Byte>) returns (n: U32)
    requires i <= |rs| && down.bytes == Remaining(rs, i, rest)
    modifies down
    ensures n == 0 <==> i == |rs|
    ensures i == |rs| ==> down.bytes == rest
    ensures i < |rs| ==> n == |rs[i].name| + 1 && down.bytes == RecordRest(rs[i]) + Remaining(rs, i + 1, rest)
  {
    hide Remaining; hide RecordRest; hide Word;
    ghost var x: U32 := if i < |rs| then |rs[i].name| + 1 else 0;
    ghost var after := if i < |rs| then RecordRest(rs[i]) + Remaining(rs, i + 1, rest) else rest;
    RemainingStep(rs, i, rest);
    n := down.ReadWord(x, after);
  }

  /** Everything of a record but its weight. */
  method ReadRecordHead(down: Wire, nameSize: nat, ghost r: Record, ghost rest: seq<Byte>)
    returns (name: Name, opIndex: U32, offset: U64, nBytes: U64)
    requires nameSize == |r.name| + 1 && down.bytes == RecordRest(r) + rest
    modifies down
    ensures name == r.name && opIndex == r.opIndex && offset == r.offset && nBytes == |r.weight|
      && down.bytes == r.weight + rest
  {
    hide Word; hide Long;
    ghost var t4 := r.weight + rest;
    ghost var t3 := Long(|r.weight|) + t4;
    ghost var t2 := Long(r.offset) + t3;
    ghost var t1 := Word(r.opIndex) + t2;
    assert down.bytes == (r.name + [0]) + t1;
    var b := down.Read(nameSize, r.name + [0], t1);
    D.TextEnds(b, |r.name|);
    opIndex := down.ReadWord(r.opIndex, t2);
    offset := down.ReadLong(r.offset, t3);
    nBytes := down.ReadLong(|r.weight|, t4);
    name := D.Text(b);
  }

  /** Every record for an op the node has is loaded, once and in the order it was sent. */
  lemma {:induction false} PlacedAll(segments: seq<SegmentConfig>, rs: seq<Record>)
    requires forall i :: 0 <= i < |rs| ==> HasOp(segments, rs[i].name, rs[i].opIndex)
    ensures Placed(segments, rs) == rs
    decreases |rs|
  {
    hide HasOp;
    if rs != [] {
      var n := |rs| - 1;
      PlacedAll(segments, rs[..n]);
      assert rs == rs[..n] + [rs[n]];
    }
  }

  /** Only records for an op of the node, with its name and its layer, are loaded. */
  lemma {:induction false} PlacedHaveOps(segments: seq<SegmentConfig>, rs: seq<Record>)
    ensures forall r :: r in Placed(segments, rs) ==> exists s, i ::
      0 <= s < |segments| && 0 <= i < |segments[s].ops|
      && segments[s].ops[i].name == r.name && segments[s].ops[i].index == r.opIndex
    decreases |rs|
  {
    if rs != [] {
      var n := |rs| - 1;
      PlacedHaveOps(segments, rs[..n]);
      if HasOp(segments, rs[n].name, rs[n].opIndex) {
        var s, i :| 0 <= s < |segments| && 0 <= i < |segments[s].ops|
          && IsOp(segments[s].ops[i], rs[n].name, rs[n].opIndex);
        assert segments[s].ops[i].name == rs[n].name && segments[s].ops[i].index == rs[n].opIndex;
      }
    }
  }

  /** A record for a layer the node does not run is dropped, and so is one for an op it does not have. */
  lemma OtherLayersDropped(segments: seq<SegmentConfig>, rs: seq<Record>, r: Record)
    requires forall s, i :: 0 <= s < |segments| && 0 <= i < |segments[s].ops| ==>
      segments[s].ops[i].index != r.opIndex || segments[s].ops[i].name != r.name
    ensures r !in Placed(segments, rs)
  {
    PlacedHaveOps(segments, rs);
  }

  /** A whole weight stream: with records shorter than 2^32 bytes the worker loads those for its own ops, in
      order, and the streams are empty when the root has read the acknowledgement; with a longer one the
      worker leaves its buffer and the root gets no acknowledgement. */
  method LoadWeights(down: Wire, up: Wire, segments: seq<SegmentConfig>, rs: seq<Record>)
    returns (overrun: bool, ok: bool, loaded: seq<Record>)
    requires down != up && down.bytes == [] && up.bytes == []
    modifies down, up
    ensures overrun <==> exists i :: 0 <= i < |rs| && !Short(rs[i])
    ensures !overrun ==> ok && loaded == Placed(segments, rs) && down.bytes == [] && up.bytes == []
    ensures !overrun && (forall i :: 0 <= i < |rs| ==> HasOp(segments, rs[i].name, rs[i].opIndex)) ==> loaded == rs
    ensures overrun ==> !ok
    ensures forall r :: r in loaded ==> exists s, i ::
      0 <= s < |segments| && 0 <= i < |segments[s].ops|
      && segments[s].ops[i].name == r.name && segments[s].ops[i].index == r.opIndex
  {
    hide StreamBytes; hide Word; hide HasOp; hide Short; hide AllFit; hide Placed;
    WriteStream(down, rs);
    assert down.bytes == StreamBytes(rs) + [];
    var reader := new WeightReader();
    overrun, loaded := reader.Read(down, up, segments, rs, []);
    if overrun {
      ghost var i :| 0 <= i < |rs| && loaded == Placed(segments, rs[..i]);
      PlacedHaveOps(segments, rs[..i]);
    } else {
      PlacedHaveOps(segments, rs);
    }
    AllFitIffShort(0, rs);
    if overrun { return true, false, loaded; }
    assert up.bytes == Word(ACK) + [];
    ok := up.ReadAck([]);
    if forall i :: 0 <= i < |rs| ==> HasOp(segments, rs[i].name, rs[i].opIndex) { PlacedAll(segments, rs); }
  }
}
