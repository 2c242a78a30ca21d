/** What the activation transport guarantees over any history of sends, markers, size changes and
    option changes on one socket. */
module TransportHistory {
  import opened Common
  import opened ActivationTransport

  /** One action of the sender. A marker is a send without data. */
  datatype Event =
    | Send(pos: nat, data: seq<real>, dtype: Dtype, bypass: bool)
    | SetOptions(options: Options)

  /** The two ends after a history: options and base of the sender, base of the receiver. */
  datatype Link = Link(options: Options, sendBase: seq<real>, recvBase: seq<real>)

  function Opened(o: Options): Link { Link(o, [], []) }

  function SentFrame(c: Codec, l: Link, e: Event): Frame
    requires e.Send?
  {
    FrameOf(c, l.options, l.sendBase, e.pos, e.data, e.dtype, e.bypass)
  }

  /** The receiver takes frames in the order they were sent, so its k-th base depends on the first k frames alone. */
  function Step(c: Codec, l: Link, e: Event, capacity: nat): Link
  {
    match e
    case SetOptions(o) => l.(options := o)
    case Send(_, data, _, _) =>
      var f := SentFrame(c, l, e);
      var got := Received(c, l.recvBase, f, capacity);
      Link(l.options, SentBase(l.sendBase, data), if got.Some? then ReceivedBase(l.recvBase, f, got.value)
        else l.recvBase)
  }

  function After(c: Codec, o: Options, events: seq<Event>, capacity: nat): Link
  {
    if events == [] then Opened(o)
        else Step(c, After(c, o, events[..|events| - 1], capacity), events[|events| - 1], capacity)
  }

  /** Every message fits the receive buffer. */
  predicate Fits(events: seq<Event>, capacity: nat)
  {
    forall i :: 0 <= i < |events| && events[i].Send? ==> |events[i].data| <= capacity
  }

  lemma WireSizes(c: Codec, d: Dtype, xs: seq<real>, capacity: nat)
    requires WellSized(c) && Encodable(d, |xs|) && 0 < |xs| <= capacity
    ensures var w := c.enc(d, xs);
      && w != [] && WireElems(d, |w|) == Some(|xs|) && |c.dec(d, w)| == |xs|
      && (d.F32? ==> |w| <= 4 * capacity)
  {
    var w := c.enc(d, xs);
    WireRoundTrip(d, |xs|);
    assert |w| == WireBytes(d, |xs|);
    assert WireElems(d, |w|) == Some(|xs|);
  }

  /** A payload's bytes decode to as many elements as were encoded. */
  lemma WireRoundTrip(d: Dtype, n: nat)
    requires Encodable(d, n)
    ensures WireElems(d, WireBytes(d, n)) == Some(n)
    ensures 0 < n ==> 0 < WireBytes(d, n)
  {
  }

  /** The chosen format can always encode the payload. */
  lemma WireDtypeEncodes(d: Dtype, n: nat)
    ensures Encodable(SelectWireDtype(d, n), n)
  {
  }

  /** A frame from a sender whose base has the receiver's length always decodes, to as many floats as were sent. */
  lemma Delivered(c: Codec, l: Link, e: Event, capacity: nat)
    requires WellSized(c) && e.Send? && |l.sendBase| == |l.recvBase| && |e.data| <= capacity
    ensures var got := Received(c, l.recvBase, SentFrame(c, l, e), capacity);
      && got.Some? && |got.value| == |e.data|
      && (e.data != [] ==> SentFrame(c, l, e).payload != [])
      && (e.data != [] ==>
            var d := SelectWireDtype(e.dtype, |e.data|);
            got.value == if UsesDelta(l.options, l.sendBase, e.data)
              then Plus(l.recvBase, c.dec(d, c.enc(d, Minus(e.data, l.sendBase))))
              else c.dec(d, c.enc(d, e.data)))
  {
    hide WellSized; hide WireElems; hide Encodable; hide WireBytes;
    if e.data != [] {
      var d := SelectWireDtype(e.dtype, |e.data|);
      WireSizes(c, d, e.data, capacity);
      if UsesDelta(l.options, l.sendBase, e.data) {
        WireSizes(c, d, Minus(e.data, l.sendBase), capacity);
      }
    }
  }

  /** Over any history both bases have one length, so a delta never lacks its base and every message
      is delivered at full length. */
  lemma {:induction false} BasesAgreeInLength(c: Codec, o: Options, events: seq<Event>, capacity: nat)
    requires WellSized(c) && Fits(events, capacity)
    ensures var l := After(c, o, events, capacity); |l.sendBase| == |l.recvBase|
    decreases |events|
  {
    hide WellSized; hide Received; hide FrameOf;
    if events != [] {
      var before := events[..|events| - 1];
      var e := events[|events| - 1];
      BasesAgreeInLength(c, o, before, capacity);
      if e.Send? {
        assert events[|events| - 1].Send?;
        Delivered(c, After(c, o, before, capacity), e, capacity);
        MarkerHasNoPayload(c, After(c, o, before, capacity), e);
      }
    }
  }

  lemma MarkerHasNoPayload(c: Codec, l: Link, e: Event)
    requires e.Send?
    ensures e.data == [] ==> SentFrame(c, l, e).payload == []
  {
  }

  /** After any history, a message that fits is accepted by the receiver and arrives with the length it was sent
      with. */
  lemma EveryMessageArrives(c: Codec, o: Options, events: seq<Event>, e: Event, capacity: nat)
    requires WellSized(c) && Fits(events, capacity) && e.Send? && |e.data| <= capacity
    ensures var l := After(c, o, events, capacity);
      var got := Received(c, l.recvBase, SentFrame(c, l, e), capacity);
      got.Some? && |got.value| == |e.data|
  {
    hide WellSized; hide Received; hide FrameOf; hide After;
    BasesAgreeInLength(c, o, events, capacity);
    Delivered(c, After(c, o, events, capacity), e, capacity);
  }

  // ---- Error ------------------------------------------------------------------------------------

  /** What the codec is given for a message: the data, or its difference to the base. */
  function Encoded(l: Link, e: Event): seq<real>
    requires e.Send?
  {
    if UsesDelta(l.options, l.sendBase, e.data) then Minus(e.data, l.sendBase) else e.data
  }

  /** Encoding and decoding this one frame moves no element by more than `err`. */
  predicate FrameError(c: Codec, l: Link, e: Event, err: real)
    requires e.Send?
  {
    var d, xs := SelectWireDtype(e.dtype, |e.data|), Encoded(l, e);
    e.data != [] ==> Within(c.dec(d, c.enc(d, xs)), xs, err)
  }

  /** The frames this history sends, in their own formats and with their own contents, err by at most
      `err`; of other formats and payloads nothing is asked. */
  ghost predicate HistoryError(c: Codec, o: Options, events: seq<Event>, capacity: nat, err: real)
  {
    forall i :: 0 <= i < |events| && events[i].Send? ==>
        FrameError(c, After(c, o, events[..i], capacity), events[i], err)
  }

  /** How many deltas the sender has sent since its last full frame. */
  function Deltas(c: Codec, o: Options, events: seq<Event>, capacity: nat): nat
  {
    if events == [] then 0
    else
      var before := events[..|events| - 1];
      var e := events[|events| - 1];
      var k := Deltas(c, o, before, capacity);
      if e.SetOptions? || e.data == [] then k
      else if UsesDelta(After(c, o, before, capacity).options, After(c, o, before, capacity).sendBase, e.data)
        then k + 1
      else 0
  }

  /** `k + 1` times the error of a frame. */
  function Bound(k: nat, e: real): real { (k + 1) as real * e }

  lemma BoundFacts(k: nat, e: real)
    ensures Bound(0, e) == e
    ensures Bound(k + 1, e) == Bound(k, e) + e
    ensures 0.0 <= e ==> 0.0 <= Bound(k, e)
    ensures Bound(k, 0.0) == 0.0
  {
    assert (k + 2) as real == (k + 1) as real + 1.0;
  }

  /** The receiver adds a decoded difference to a base that is off by `a`: the errors add up. */
  lemma DeltaError(
      diff: seq<real>, got: seq<real>, sendBase: seq<real>, recvBase: seq<real>, data: seq<real>, a: real, e: real)
    requires |data| == |sendBase| == |recvBase| && diff == Minus(data, sendBase)
    requires Within(got, diff, e) && Within(recvBase, sendBase, a)
    ensures Within(Plus(recvBase, got), data, a + e)
  {
    forall i | 0 <= i < |data| ensures Abs(Plus(recvBase, got)[i] - data[i]) <= a + e {
      assert Abs(recvBase[i] - sendBase[i]) <= a && Abs(got[i] - diff[i]) <= e;
    }
  }

  /** When the frames of a history err by at most `e`, the receiver is off by at most (k + 1) e after k
      deltas since the last full frame. */
  lemma {:induction false} ErrorGrowsLinearly(c: Codec, o: Options, events: seq<Event>, capacity: nat, e: real)
    requires WellSized(c) && Fits(events, capacity) && HistoryError(c, o, events, capacity, e)
    ensures var l := After(c, o, events, capacity);
      Within(l.recvBase, l.sendBase, Bound(Deltas(c, o, events, capacity), e))
    decreases |events|
  {
    hide FrameError; hide Received; hide FrameOf; hide Within; hide WellSized; hide Bound; hide UsesDelta;
    if events == [] {
      NothingSent(e);
    } else {
      var n := |events| - 1;
      var before, ev := events[..n], events[n];
      HistoryBefore(c, o, events, capacity, e);
      ErrorGrowsLinearly(c, o, before, capacity, e);
      if ev.Send? {
        assert events[n].Send? && FrameError(c, After(c, o, events[..n], capacity), events[n], e);
        StepError(c, After(c, o, before, capacity), ev, capacity, Deltas(c, o, before, capacity), e);
      }
    }
  }

  lemma HistoryBefore(c: Codec, o: Options, events: seq<Event>, capacity: nat, e: real)
    requires events != [] && HistoryError(c, o, events, capacity, e)
    ensures HistoryError(c, o, events[..|events| - 1], capacity, e)
  {
    hide FrameError;
    var before := events[..|events| - 1];
    forall i | 0 <= i < |before| && before[i].Send?
      ensures FrameError(c, After(c, o, before[..i], capacity), before[i], e)
    {
      assert before[..i] == events[..i] && before[i] == events[i];
    }
  }

  lemma NothingSent(e: real)
    ensures Within([], [], Bound(0, e))
  {
  }

  lemma StepError(c: Codec, l: Link, ev: Event, capacity: nat, k: nat, e: real)
    requires WellSized(c) && ev.Send? && |ev.data| <= capacity && FrameError(c, l, ev, e)
    requires Within(l.recvBase, l.sendBase, Bound(k, e))
    ensures var l' := Step(c, l, ev, capacity);
      var k' := if ev.data == [] then k else if UsesDelta(l.options, l.sendBase, ev.data) then k + 1 else 0;
      Within(l'.recvBase, l'.sendBase, Bound(k', e))
  {
    hide Received; hide FrameOf; hide Within; hide WellSized; hide Encodable; hide Bound;
    SameLength(l.recvBase, l.sendBase, Bound(k, e));
    Delivered(c, l, ev, capacity);
    MarkerHasNoPayload(c, l, ev);
    if ev.data != [] {
      var d := SelectWireDtype(ev.dtype, |ev.data|);
      BoundFacts(k, e);
      if UsesDelta(l.options, l.sendBase, ev.data) {
        var diff := Minus(ev.data, l.sendBase);
        DeltaError(diff, c.dec(d, c.enc(d, diff)), l.sendBase, l.recvBase, ev.data, Bound(k, e), e);
      }
    }
  }

  lemma SameLength(xs: seq<real>, ys: seq<real>, e: real)
    requires Within(xs, ys, e)
    ensures |xs| == |ys|
  {
  }

  /** When no frame of a history errs, the two bases are equal: every payload is rebuilt exactly. */
  lemma LosslessIsExact(c: Codec, o: Options, events: seq<Event>, capacity: nat)
    requires WellSized(c) && Fits(events, capacity) && HistoryError(c, o, events, capacity, 0.0)
    ensures var l := After(c, o, events, capacity); l.recvBase == l.sendBase
  {
    hide HistoryError; hide After; hide Bound; hide Deltas;
    ErrorGrowsLinearly(c, o, events, capacity, 0.0);
    BoundFacts(Deltas(c, o, events, capacity), 0.0);
  }

  /** The F_32 format copies the payload. */
  ghost predicate F32Copies(c: Codec) { forall xs :: c.dec(F32, c.enc(F32, xs)) == xs }

  predicate AllF32(events: seq<Event>) { forall i :: 0 <= i < |events| && events[i].Send? ==> events[i].dtype.F32? }

  /** A link that sends F_32 only rebuilds every message exactly, whatever the other formats lose. */
  lemma F32IsExact(c: Codec, o: Options, events: seq<Event>, e: Event, capacity: nat)
    requires WellSized(c) && F32Copies(c) && AllF32(events + [e]) && Fits(events, capacity)
    requires e.Send? && 0 < |e.data| <= capacity
    ensures var l := After(c, o, events, capacity);
      l.recvBase == l.sendBase && Received(c, l.recvBase, SentFrame(c, l, e), capacity) == Some(e.data)
  {
    var all := events + [e];
    forall i | 0 <= i < |all| && all[i].Send? ensures FrameError(c, After(c, o, all[..i], capacity), all[i], 0.0) {
      CopyHasNoError(c, Encoded(After(c, o, all[..i], capacity), all[i]));
    }
    HistoryBefore(c, o, all, capacity, 0.0);
    assert all[..|events|] == events;
    hide WellSized; hide HistoryError; hide Received; hide FrameOf; hide FrameError; hide F32Copies;
    LosslessIsExact(c, o, events, capacity);
    LosslessIsExact(c, o, all, capacity);
    LastPayload(c, o, events, e, capacity);
  }

  lemma CopyHasNoError(c: Codec, xs: seq<real>)
    requires F32Copies(c)
    ensures Within(c.dec(F32, c.enc(F32, xs)), xs, 0.0)
  {
  }

  /** The base the receiver ends with is the last payload delivered, and the sender's the last one sent. */
  lemma LastPayload(c: Codec, o: Options, events: seq<Event>, e: Event, capacity: nat)
    requires WellSized(c) && Fits(events, capacity) && e.Send? && 0 < |e.data| <= capacity
    ensures var l, l' := After(c, o, events, capacity), After(c, o, events + [e], capacity);
      var got := Received(c, l.recvBase, SentFrame(c, l, e), capacity);
      l'.sendBase == e.data && got == Some(l'.recvBase)
  {
    assert (events + [e])[..|events|] == events;
    hide WellSized; hide Received; hide FrameOf;
    BasesAgreeInLength(c, o, events, capacity);
    Delivered(c, After(c, o, events, capacity), e, capacity);
  }
}
