/** What the headers of the activation transport say: over any history every frame carries the position and
    the bypass flag of its own send, and tells what its payload is (src/nn/nn-pipeline.cpp). */
module TransportHeaders {
  import opened Common
  import opened ActivationTransport
  import opened TransportHistory

  // ---- One message over the socket --------------------------------------------------------------------

  /** A send and the receive at the other end, whose bases have one length: the receiver takes the message, with
      the position and the bypass flag it was sent with, and leaves nothing on the wire. */
  method Transfer(
      sender: Communicator, target: nat, receiver: Communicator, source: nat, socket: Socket, buffer: array<real>,
      pos: nat, data: seq<real>, dtype: Dtype, bypass: bool)
    returns (ok: bool, header: Option<Header>)
    requires sender != receiver && target < |sender.prevSend| && source < |receiver.prevRecv| && socket.stream == []
    requires sender.codec == receiver.codec && WellSized(sender.codec)
    requires |sender.prevSend[target]| == |receiver.prevRecv[source]| && |data| <= buffer.Length
    modifies sender`prevSend, receiver`prevRecv, socket, buffer
    ensures ok && header.Some? && header.value.pos == pos && header.value.flags.bypass == bypass
    ensures socket.stream == [] && |sender.prevSend| == old(|sender.prevSend|)
    ensures |receiver.prevRecv| == old(|receiver.prevRecv|)
    ensures |sender.prevSend[target]| == |receiver.prevRecv[source]|
    ensures data != [] ==> |receiver.prevRecv[source]| == |data| && buffer[..|data|] == receiver.prevRecv[source]
    ensures data == [] ==> header.value.payloadBytes == 0 && receiver.prevRecv == old(receiver.prevRecv)
  {
    hide WellSized;
    ghost var link := Link(sender.options, sender.prevSend[target], receiver.prevRecv[source]);
    ghost var e := Send(pos, data, dtype, bypass);
    ghost var f := SentFrame(sender.codec, link, e);
    Delivered(sender.codec, link, e, buffer.Length);
    MarkerHasNoPayload(sender.codec, link, e);
    sender.SendActivation(socket, target, pos, data, dtype, bypass);
    assert socket.stream == Cells(f) + [];
    ok, header := receiver.RecvActivation(socket, source, buffer, false, f, []);
  }

  // ---- A history -----------------------------------------------------------------------------------------

  /** The options in force after a history. */
  function OptionsAfter(o: Options, events: seq<Event>): Options
  {
    if events == [] then o
    else match events[|events| - 1]
      case SetOptions(o') => o'
      case Send(_, _, _, _) => OptionsAfter(o, events[..|events| - 1])
  }

  /** The last message with data. */
  function LastData(events: seq<Event>): seq<real>
  {
    if events == [] then []
    else match events[|events| - 1]
      case SetOptions(_) => LastData(events[..|events| - 1])
      case Send(_, data, _, _) => if data == [] then LastData(events[..|events| - 1]) else data
  }

  lemma {:induction false} SenderState(c: Codec, o: Options, events: seq<Event>, capacity: nat)
    ensures var l := After(c, o, events, capacity);
      l.options == OptionsAfter(o, events) && l.sendBase == LastData(events)
    decreases |events|
  {
    hide Received; hide FrameOf;
    if events != [] { SenderState(c, o, events[..|events| - 1], capacity); }
  }

  /** The frame of the `i`-th event of a history, when that is a send. */
  function FrameAt(c: Codec, o: Options, events: seq<Event>, i: nat, capacity: nat): Frame
    requires i < |events| && events[i].Send?
  {
    SentFrame(c, After(c, o, events[..i], capacity), events[i])
  }

  predicate Differences(xs: seq<real>, data: seq<real>, base: seq<real>)
  {
    |xs| == |data| == |base| && forall k :: 0 <= k < |data| ==> xs[k] == data[k] - base[k]
  }

  /** Every frame carries its send's position and bypass flag. Its format is the requested one, unless that is a
      block format and the message is not whole blocks of 32. The delta flag says that the payload encodes the
      difference to the last message, which takes a message of the same length and the configured size; the chunk
      flag says that the payload is longer than the configured chunk. */
  lemma HeaderTells(c: Codec, o: Options, events: seq<Event>, i: nat, capacity: nat)
    requires i < |events| && events[i].Send?
    ensures var e, f := events[i], FrameAt(c, o, events, i, capacity);
      var now, last, n := OptionsAfter(o, events[..i]), LastData(events[..i]), |events[i].data|;
      var ragged := (e.dtype.Q80? || e.dtype.Q40?) && n % 32 != 0;
      && f.header.pos == e.pos && f.header.flags.bypass == e.bypass
      && f.header.dtype == (if ragged then F16 else e.dtype)
      && f.header.payloadBytes == |f.payload|
      && (f.header.flags.delta <==> now.deltaEnabled && n != 0 && 4 * n >= now.deltaMinBytes && |last| == n)
      && (n == 0 ==> f.payload == [])
      && (n != 0 && !f.header.flags.delta ==> f.payload == c.enc(f.header.dtype, e.data))
      && (f.header.flags.delta ==>
            exists xs :: Differences(xs, e.data, last) && f.payload == c.enc(f.header.dtype, xs))
      && (f.header.flags.chunked <==> 0 < now.chunkBytes < |f.payload|)
      && f.header.streamChunkBytes == (if f.header.flags.chunked then now.chunkBytes else 0)
  {
    SenderState(c, o, events[..i], capacity);
    var last := LastData(events[..i]);
    if |last| == |events[i].data| { assert Differences(Minus(events[i].data, last), events[i].data, last); }
  }

  /** A payload takes 4 bytes a float, 2 as F_16, and 34 or 18 bytes a block of 32 as Q80 or Q40. */
  lemma PayloadSize(c: Codec, o: Options, events: seq<Event>, i: nat, capacity: nat)
    requires i < |events| && events[i].Send? && WellSized(c)
    ensures var f, n := FrameAt(c, o, events, i, capacity), |events[i].data|;
      |f.payload| == match f.header.dtype
        case F32 => 4 * n
        case F16 => 2 * n
        case Q80 => n / 32 * (2 + 32)
        case Q40 => n / 32 * (2 + 16)
  {
    hide WireElems; hide After;
    var l, e := After(c, o, events[..i], capacity), events[i];
    WireDtypeEncodes(e.dtype, |e.data|);
  }

  /** A payload is refused exactly when it is not whole elements or blocks of its format, decodes to more floats than
      the buffer holds (as F_32, takes more bytes than it has), or is a difference to a message of another length.
      Otherwise its values are taken, or added to the last message delivered. */
  lemma RefusedIff(c: Codec, base: seq<real>, f: Frame, capacity: nat)
    requires WellSized(c) && f.payload != []
    ensures var h, size, r := f.header, |f.payload|, Received(c, base, f, capacity);
      var values := c.dec(h.dtype, f.payload);
      && (r.None? <==>
            || (h.dtype.F16? && size % 2 != 0) || (h.dtype.Q80? && size % (2 + 32) != 0)
            || (h.dtype.Q40? && size % (2 + 16) != 0)
            || (h.dtype.F32? && size > 4 * capacity) || (h.dtype.F16? && size / 2 > capacity)
            || (h.dtype.Q80? && size / (2 + 32) * 32 > capacity)
            || (h.dtype.Q40? && size / (2 + 16) * 32 > capacity)
            || (h.flags.delta && |base| != |values|))
      && (r.Some? && !h.flags.delta ==> r.value == values)
      && (r.Some? && h.flags.delta ==> Differences(values, r.value, base))
  {
  }

  /** All that a history puts on the wire, in order. */
  function Wire(c: Codec, o: Options, events: seq<Event>, capacity: nat): seq<Cell>
  {
    if events == [] then []
    else
      var n := |events| - 1;
      Wire(c, o, events[..n], capacity) + if events[n].Send? then Cells(FrameAt(c, o, events, n, capacity)) else []
  }

  /** The headers a reader meets that takes a header and then as many cells as it announces. */
  function Headers(stream: seq<Cell>): seq<Header>
  {
    if stream == [] || !stream[0].Head? then []
    else
      var h := stream[0].header;
      [h] + if h.payloadBytes < |stream| then Headers(stream[1 + h.payloadBytes..]) else []
  }

  /** The sends of a history. */
  function Sends(events: seq<Event>): (s: seq<Event>)
    ensures forall e :: e in s ==> e.Send?
  {
    if events == [] then []
    else Sends(events[..|events| - 1]) + if events[|events| - 1].Send? then [events[|events| - 1]] else []
  }

  /** A stream of whole frames. */
  function Frames(fs: seq<Frame>): seq<Cell> { if fs == [] then [] else Frames(fs[..|fs| - 1]) + Cells(fs[|fs| - 1]) }

  function HeadersOf(fs: seq<Frame>): (hs: seq<Header>)
    ensures |hs| == |fs| && forall i :: 0 <= i < |fs| ==> hs[i] == fs[i].header
  {
    seq(|fs|, i requires 0 <= i < |fs| => fs[i].header)
  }

  predicate Whole(f: Frame) { f.header.payloadBytes == |f.payload| }

  lemma {:induction false} FramesFirst(fs: seq<Frame>)
    requires fs != []
    ensures Frames(fs) == Cells(fs[0]) + Frames(fs[1..])
    decreases |fs|
  {
    hide Cells; hide Frames;
    var n := |fs| - 1;
    FramesLast(fs);
    if n == 0 {
      NoFrames();
      assert fs[..0] == [] && fs[1..] == [];
    } else {
      FramesFirst(fs[..n]);
      assert fs[..n][0] == fs[0] && fs[..n][1..] == fs[1..][..n - 1];
      FramesLast(fs[1..]);
      Regrouped(Cells(fs[0]), Frames(fs[1..][..n - 1]), Cells(fs[n]));
    }
  }

  lemma NoFrames()
    ensures Frames([]) == []
  {
  }

  lemma FramesLast(fs: seq<Frame>)
    requires fs != []
    ensures Frames(fs) == Frames(fs[..|fs| - 1]) + Cells(fs[|fs| - 1])
  {
    hide Cells;
  }

  lemma Regrouped(a: seq<Cell>, b: seq<Cell>, c: seq<Cell>)
    ensures a + b + c == a + (b + c)
  {
  }

  lemma FrameRead(f: Frame, rest: seq<Cell>)
    requires Whole(f)
    ensures Headers(Cells(f) + rest) == [f.header] + Headers(rest)
  {
    var stream := Cells(f) + rest;
    assert stream[0] == Head(f.header) && stream[1 + |f.payload|..] == rest;
  }

  lemma {:induction false} HeadersRead(fs: seq<Frame>)
    requires forall i :: 0 <= i < |fs| ==> Whole(fs[i])
    ensures Headers(Frames(fs)) == HeadersOf(fs)
    decreases |fs|
  {
    hide Cells; hide Whole;
    if fs == [] {
      assert Headers([]) == [];
    } else {
      hide Headers; hide Frames;
      FramesFirst(fs);
      FrameRead(fs[0], Frames(fs[1..]));
      HeadersRead(fs[1..]);
      assert HeadersOf(fs) == [fs[0].header] + HeadersOf(fs[1..]);
    }
  }

  /** The frames of a history. */
  lemma {:induction false} WireIsFrames(c: Codec, o: Options, events: seq<Event>, capacity: nat)
    returns (fs: seq<Frame>)
    ensures Wire(c, o, events, capacity) == Frames(fs) && |fs| == |Sends(events)|
    ensures forall k :: 0 <= k < |fs| ==> Whole(fs[k])
    ensures forall k :: 0 <= k < |fs| ==>
      fs[k].header.pos == Sends(events)[k].pos && fs[k].header.flags.bypass == Sends(events)[k].bypass
    decreases |events|
  {
    hide FrameAt; hide Cells; hide OptionsAfter; hide LastData;
    if events == [] {
      fs := [];
    } else {
      var n := |events| - 1;
      fs := WireIsFrames(c, o, events[..n], capacity);
      if events[n].Send? {
        HeaderTells(c, o, events, n, capacity);
        var f := FrameAt(c, o, events, n, capacity);
        assert (fs + [f])[..|fs|] == fs;
        fs := fs + [f];
      }
    }
  }

  /** Over any history, the k-th header on the wire carries the position and the bypass flag of the k-th send. */
  lemma HeadersInOrder(c: Codec, o: Options, events: seq<Event>, capacity: nat)
    ensures var hs, sends := Headers(Wire(c, o, events, capacity)), Sends(events);
      |hs| == |sends| && forall k :: 0 <= k < |hs| ==>
        hs[k].pos == sends[k].pos && hs[k].flags.bypass == sends[k].bypass
  {
    hide Wire; hide Headers; hide Frames; hide Sends;
    var fs := WireIsFrames(c, o, events, capacity);
    HeadersRead(fs);
  }
}
