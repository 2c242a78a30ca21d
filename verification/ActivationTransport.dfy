/** The activation transport of src/nn/nn-pipeline.cpp: per-socket delta bases on both ends, chunked
    framing and lossy wire formats. Payloads are whole floats, the wire is a FIFO of bytes. */
module ActivationTransport {
  import opened Common

  datatype Dtype = F32 | F16 | Q80 | Q40

  /** A wire byte as an opaque cell: with exact arithmetic a codec needs more than 256 values. */
  datatype Byte = Byte(value: real)

  const BLOCK := 32

  /** `selectWireDtype`: the block formats need whole blocks. */
  function SelectWireDtype(requested: Dtype, n: nat): Dtype
  {
    if (requested.Q40? || requested.Q80?) && n % BLOCK != 0 then F16 else requested
  }

  function WireBytes(d: Dtype, n: nat): nat
  {
    match d
    case F32 => 4 * n
    case F16 => 2 * n
    case Q80 => n / BLOCK * 34
    case Q40 => n / BLOCK * 18
  }

  /** Elements a payload of `bytes` bytes decodes to; none when it is not whole elements or blocks. */
  function WireElems(d: Dtype, bytes: nat): Option<nat>
  {
    match d
    case F32 => Some(bytes / 4)
    case F16 => if bytes % 2 == 0 then Some(bytes / 2) else None
    case Q80 => if bytes % 34 == 0 then Some(bytes / 34 * BLOCK) else None
    case Q40 => if bytes % 18 == 0 then Some(bytes / 18 * BLOCK) else None
  }

  datatype Codec = Codec(enc: (Dtype, seq<real>) -> seq<Byte>, dec: (Dtype, seq<Byte>) -> seq<real>)

  predicate Encodable(d: Dtype, n: nat) { (d.Q80? || d.Q40?) ==> n % BLOCK == 0 }

  ghost predicate WellSized(c: Codec)
  {
    && (forall d, xs :: Encodable(d, |xs|) ==> |c.enc(d, xs)| == WireBytes(d, |xs|))
    && (forall d, w :: WireElems(d, |w|).Some? ==> |c.dec(d, w)| == WireElems(d, |w|).value)
  }

  function Abs(x: real): real { if x < 0.0 then -x else x }

  predicate Within(xs: seq<real>, ys: seq<real>, e: real)
  {
    |xs| == |ys| && forall i :: 0 <= i < |xs| ==> Abs(xs[i] - ys[i]) <= e
  }

  // ---- Frames ---------------------------------------------------------------------------------

  datatype Flags = Flags(chunked: bool, delta: bool, bypass: bool)

  datatype Header = Header(pos: nat, dtype: Dtype, payloadBytes: nat, streamChunkBytes: nat, flags: Flags)

  datatype Frame = Frame(header: Header, payload: seq<Byte>)

  datatype Options = Options(deltaEnabled: bool, deltaMinBytes: nat, chunkBytes: nat)

  function Minus(xs: seq<real>, ys: seq<real>): (r: seq<real>)
    requires |xs| == |ys|
    ensures |r| == |xs|
  {
    seq(|xs|, i requires 0 <= i < |xs| => xs[i] - ys[i])
  }

  function Plus(xs: seq<real>, ys: seq<real>): (r: seq<real>)
    requires |xs| == |ys|
    ensures |r| == |xs|
  {
    seq(|xs|, i requires 0 <= i < |xs| => xs[i] + ys[i])
  }

  function UsesDelta(o: Options, base: seq<real>, data: seq<real>): bool
  {
    data != [] && o.deltaEnabled && 4 * |data| >= o.deltaMinBytes && |base| == |data|
  }

  function PayloadOf(c: Codec, o: Options, base: seq<real>, data: seq<real>, d: Dtype): seq<Byte>
  {
    if data == [] then []
    else c.enc(SelectWireDtype(d, |data|), if UsesDelta(o, base, data) then Minus(data, base) else data)
  }

  function FrameOf(c: Codec, o: Options, base: seq<real>, pos: nat, data: seq<real>, d: Dtype, bypass: bool): Frame
  {
    var payload := PayloadOf(c, o, base, data, d);
    var chunk := if 0 < o.chunkBytes < |payload| then o.chunkBytes else 0;
    Frame(Header(pos, SelectWireDtype(d, |data|), |payload|, chunk,
      Flags(0 < chunk, UsesDelta(o, base, data), bypass)), payload)
  }

  function SentBase(base: seq<real>, data: seq<real>): seq<real> { if data == [] then base else data }

  /** What a receiver with room for `capacity` floats makes of a frame: the values, or an error. */
  function Received(c: Codec, base: seq<real>, f: Frame, capacity: nat): Option<seq<real>>
  {
    if f.payload == [] then Some([])
    else
      var n := WireElems(f.header.dtype, |f.payload|);
      var values := c.dec(f.header.dtype, f.payload);
      if n.None? || n.value > capacity || (f.header.dtype.F32? && |f.payload| > 4 * capacity)
          || |values| != n.value then None
      else if f.header.flags.delta then (if |base| == |values| then Some(Plus(base, values)) else None)
      else Some(values)
  }

  function ReceivedBase(base: seq<real>, f: Frame, got: seq<real>): seq<real> { if f.payload == [] then base else got }

  // ---- The wire ---------------------------------------------------------------------------------

  datatype Cell = Head(header: Header) | Data(byte: Byte)

  function Bytes(p: seq<Byte>): (r: seq<Cell>)
    ensures |r| == |p|
  {
    seq(|p|, i requires 0 <= i < |p| => Data(p[i]))
  }

  function Cells(f: Frame): seq<Cell> { [Head(f.header)] + Bytes(f.payload) }

  class Socket {
    var stream: seq<Cell>

    constructor () ensures stream == [] { stream := []; }

    method Write(p: seq<Byte>)
      modifies this
      ensures stream == old(stream) + Bytes(p)
    {
      stream := stream + Bytes(p);
    }

    method WriteHeader(h: Header)
      modifies this
      ensures stream == old(stream) + [Head(h)]
    {
      stream := stream + [Head(h)];
    }

    method ReadHeader() returns (h: Header)
      requires stream != [] && stream[0].Head?
      modifies this
      ensures old(stream) == [Head(h)] + stream
    {
      h := stream[0].header;
      stream := stream[1..];
    }

    /** Reads exactly `|p|` bytes; `p` names what is there. */
    method Read(n: nat, ghost p: seq<Byte>, ghost rest: seq<Cell>) returns (r: seq<Byte>)
      requires |p| == n && stream == Bytes(p) + rest
      modifies this
      ensures r == p && stream == rest
    {
      r := [];
      var i := 0;
      while i < n
        invariant i <= n && r == p[..i]
        invariant stream == old(stream)
      {
        assert stream[i] == Data(p[i]);
        r := r + [stream[i].byte];
        i := i + 1;
      }
      stream := stream[n..];
    }
  }

  /** The payload loop of the sender. */
  method WriteChunks(socket: Socket, payload: seq<Byte>, chunk: nat)
    requires 0 < chunk
    modifies socket
    ensures socket.stream == old(socket.stream) + Bytes(payload)
  {
    var sent := 0;
    while sent < |payload|
      invariant sent <= |payload|
      invariant socket.stream == old(socket.stream) + Bytes(payload[..sent])
    {
      var n := if chunk < |payload| - sent then chunk else |payload| - sent;
      assert payload[..sent + n] == payload[..sent] + payload[sent..sent + n];
      socket.Write(payload[sent..sent + n]);
      sent := sent + n;
    }
    assert payload[..sent] == payload;
  }

  /** The payload loop of the receiver; `p` names the payload on the wire. */
  method ReadChunks(socket: Socket, total: nat, chunk: nat, ghost p: seq<Byte>, ghost rest: seq<Cell>)
    returns (r: seq<Byte>)
    requires 0 < chunk && |p| == total && socket.stream == Bytes(p) + rest
    modifies socket
    ensures r == p && socket.stream == rest
  {
    r := [];
    while |r| < total
      invariant |r| <= total && r == p[..|r|]
      invariant socket.stream == Bytes(p[|r|..]) + rest
    {
      var n := if chunk < total - |r| then chunk else total - |r|;
      ghost var at := |r|;
      assert socket.stream == Bytes(p[at..at + n]) + (Bytes(p[at + n..]) + rest);
      var part := socket.Read(n, p[at..at + n], Bytes(p[at + n..]) + rest);
      r := r + part;
    }
    assert p[total..] == [];
  }

  /** The two element loops of the delta path. */
  method Subtract(xs: seq<real>, ys: seq<real>) returns (r: seq<real>)
    requires |xs| == |ys|
    ensures r == Minus(xs, ys)
  {
    r := [];
    for i := 0 to |xs|
      invariant r == Minus(xs, ys)[..i]
    {
      r := r + [xs[i] - ys[i]];
    }
  }

  method AddInto(buffer: array<real>, xs: seq<real>, ys: seq<real>)
    requires |xs| == |ys| <= buffer.Length
    modifies buffer
    ensures buffer[..|xs|] == Plus(xs, ys)
  {
    for i := 0 to |xs|
      invariant forall k :: 0 <= k < i ==> buffer[k] == Plus(xs, ys)[k]
    {
      buffer[i] := xs[i] + ys[i];
    }
  }

  method CopyInto(buffer: array<real>, xs: seq<real>)
    requires |xs| <= buffer.Length
    modifies buffer
    ensures buffer[..|xs|] == xs
  {
    for i := 0 to |xs|
      invariant forall k :: 0 <= k < i ==> buffer[k] == xs[k]
    {
      buffer[i] := xs[i];
    }
  }

  // ---- The communicator ---------------------------------------------------------------------------

  class Communicator {
    var options: Options
    var prevSend: seq<seq<real>>
    var prevRecv: seq<seq<real>>
    const codec: Codec

    constructor (codec: Codec, nSockets: nat, options: Options)
      ensures this.codec == codec && this.options == options
      ensures prevSend == seq(nSockets, _ => []) && prevRecv == seq(nSockets, _ => [])
    {
      this.codec := codec;
      this.options := options;
      prevSend := seq(nSockets, _ => []);
      prevRecv := seq(nSockets, _ => []);
    }

    method SetTransportOptions(o: Options)
      modifies this`options
      ensures options == o
    {
      options := o;
    }

    /** The frame of the specification goes out whole, in one write or in chunks, and the base becomes
        the exact data. */
    method SendActivation(socket: Socket, target: nat, pos: nat, data: seq<real>, dtype: Dtype, bypass: bool)
      requires target < |prevSend|
      modifies this`prevSend, socket
      ensures socket.stream == old(socket.stream)
        + Cells(FrameOf(codec, options, old(prevSend[target]), pos, data, dtype, bypass))
      ensures prevSend == old(prevSend)[target := SentBase(old(prevSend[target]), data)]
    {
      var wireDtype := SelectWireDtype(dtype, |data|);
      var canDelta := options.deltaEnabled && 4 * |data| >= options.deltaMinBytes;
      var useDelta, payload := false, [];
      if |data| == 0 {
        payload := [];
      } else if canDelta && |prevSend[target]| == |data| {
        var delta := Subtract(data, prevSend[target]);
        payload := codec.enc(wireDtype, delta);
        useDelta := true;
      } else {
        payload := codec.enc(wireDtype, data);
      }
      var chunk := if options.chunkBytes > 0 && |payload| > options.chunkBytes then options.chunkBytes else 0;
      var header := Header(pos, wireDtype, |payload|, chunk, Flags(chunk > 0, useDelta, bypass));
      assert payload == PayloadOf(codec, options, prevSend[target], data, dtype);
      socket.WriteHeader(header);
      if chunk == 0 {
        socket.Write(payload);
      } else {
        WriteChunks(socket, payload, chunk);
      }
      if |data| > 0 { prevSend := prevSend[target := data]; }
    }

    /** Consumes exactly one frame `f` and does with it what the specification says. A polling receive
        of an empty socket changes nothing. */
    method RecvActivation(
        socket: Socket, source: nat, buffer: array<real>, poll: bool, ghost f: Frame, ghost rest: seq<Cell>)
        returns (ok: bool, header: Option<Header>)
      requires source < |prevRecv| && WellSized(codec)
      requires f.header.payloadBytes == |f.payload| && (f.header.flags.chunked <==> 0 < f.header.streamChunkBytes)
      requires socket.stream == Cells(f) + rest || (poll && socket.stream == [])
      modifies this`prevRecv, socket, buffer
      ensures old(socket.stream) == [] ==>
        !ok && header.None? && unchanged(this) && unchanged(socket) && unchanged(buffer)
      ensures old(socket.stream) != [] ==> socket.stream == rest && header == Some(f.header)
      ensures old(socket.stream) != [] ==> ok == Received(codec, old(prevRecv[source]), f, buffer.Length).Some?
      ensures ok ==>
        var got := Received(codec, old(prevRecv[source]), f, buffer.Length).value;
        |got| <= buffer.Length && buffer[..|got|] == got
        && prevRecv == old(prevRecv)[source := ReceivedBase(old(prevRecv[source]), f, got)]
      ensures !ok ==> prevRecv == old(prevRecv)
    {
      if poll && socket.stream == [] { return false, None; }
      assert socket.stream[0] == Head(f.header);
      assert socket.stream[1..] == Bytes(f.payload) + rest;
      var h := socket.ReadHeader();
      assert ([Head(h)] + socket.stream)[1..] == socket.stream;
      header := Some(h);
      var payload: seq<Byte> := [];
      if !h.flags.chunked || h.streamChunkBytes == 0 {
        payload := socket.Read(h.payloadBytes, f.payload, rest);
      } else {
        payload := ReadChunks(socket, h.payloadBytes, h.streamChunkBytes, f.payload, rest);
      }
      if h.payloadBytes == 0 { return true, header; }
      var n := WireElems(h.dtype, |payload|);
      if n.None? || n.value > buffer.Length || (h.dtype.F32? && |payload| > 4 * buffer.Length) { return false, header; }
      var values := codec.dec(h.dtype, payload);
      if h.flags.delta {
        if |prevRecv[source]| != n.value { return false, header; }
        AddInto(buffer, prevRecv[source], values);
      } else {
        CopyInto(buffer, values);
      }
      prevRecv := prevRecv[source := buffer[..n.value]];
      ok := true;
    }
  }
}
