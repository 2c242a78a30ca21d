/** `Tokenizer::decode` and `Tokenizer::detokUtf8` (src/tokenizer.cpp): the two C buffers, in place. */
module Utf8Decoder {
  import opened Utf8Room
  import opened Utf8Stream

  /** What a call ends in: the source's check fails, its loop leaves the output buffer, or it returns
      no characters or some. Behind an overrun nothing is promised. */
  datatype Outcome = Refused | Overrun | Nothing | Output(bytes: seq<Byte>)

  function Returned(out: seq<Byte>): Outcome { if out == [] then Nothing else Output(out) }

  /** The C string at the head of a buffer: the bytes before the first NUL. */
  function Text(b: seq<Byte>): (t: seq<Byte>)
    ensures |t| <= |b| && t == b[..|t|] && 0 !in t
    ensures |t| < |b| ==> b[|t|] == 0
  {
    if b == [] || b[0] == 0 then [] else [b[0]] + Text(b[1..])
  }

  lemma {:induction false} TextEnds(b: seq<Byte>, n: nat)
    requires n < |b| && b[n] == 0 && 0 !in b[..n]
    ensures Text(b) == b[..n]
    decreases n
  {
    if n > 0 {
      assert b[0] in b[..n];
      assert b[1..][..n - 1] == b[..n][1..];
      TextEnds(b[1..], n - 1);
    }
  }

  /** The pointers and the counter of the decoding loop, as offsets into the two buffers. */
  datatype Cursor = Cursor(src: nat, dst: nat, checkpointSrc: nat, checkpoint: nat, due: nat)

  class Decoder {
    const vocab: seq<seq<Byte>>
    const bosId: int
    const eosIds: seq<int>
    const strBuffer: array<Byte>
    const utf8Buffer: array<Byte>
    var strBufferPos: nat

    constructor (vocab: seq<seq<Byte>>, bosId: int, eosIds: seq<int>, maxTokenLength: nat)
      requires 0 < maxTokenLength
      ensures Valid() && strBufferPos == 0 && fresh(strBuffer) && fresh(utf8Buffer)
      ensures this.vocab == vocab && this.bosId == bosId && this.eosIds == eosIds
      ensures strBuffer.Length == utf8Buffer.Length == BufferSize(maxTokenLength)
    {
      var size := maxTokenLength * 2;
      if size < 4 * 2 { size := 4 * 2; }
      size := size + 1 + 2;
      this.vocab := vocab;
      this.bosId := bosId;
      this.eosIds := eosIds;
      strBuffer := new Byte[size](_ => 0);
      utf8Buffer := new Byte[size](_ => 0);
      strBufferPos := 0;
      new;
      FeedNothing(Init);
    }

    ghost predicate Valid()
      reads this, strBuffer
    {
      strBuffer != utf8Buffer && strBuffer.Length == utf8Buffer.Length && strBufferPos < strBuffer.Length
        && 0 !in strBuffer[..strBufferPos]
      && (0 < strBufferPos ==> strBuffer[strBufferPos] == 0) && Kept(Pending())
    }

    /** The bytes kept for the next call. */
    function Pending(): seq<Byte>
      reads this, strBuffer
      requires strBufferPos <= strBuffer.Length
    {
      strBuffer[..strBufferPos]
    }

    method ResetDecoder()
      requires Valid()
      modifies this`strBufferPos
      ensures Valid() && Pending() == []
    {
      strBufferPos := 0;
      FeedNothing(Init);
    }

    /** The loop state of the decoder stands for the automaton state `cur`. */
    ghost predicate At(k: Cursor, cur: State, text: seq<Byte>)
      reads utf8Buffer
    {
      && k.checkpointSrc <= k.src <= |text| && k.checkpoint <= k.dst <= utf8Buffer.Length
      && cur == State(utf8Buffer[..k.checkpoint], text[k.checkpointSrc..k.src], utf8Buffer[k.checkpoint..k.dst], k.due)
      && Synced(cur, text, k.src)
    }

    /** One round of the loop on a byte that is read. It fails where the source would write behind the buffer. */
    method Accept(k: Cursor, c: Byte, due: nat, ghost cur: State, ghost text: seq<Byte>) returns (k': Cursor, ok: bool)
      requires At(k, cur, text) && k.src < |text| && c == text[k.src]
      requires Feed(cur, c) == Settle(State(cur.out, cur.pend + [c], cur.tail + [c], due))
      modifies utf8Buffer
      ensures ok <==> Written(Feed(cur, c)) <= utf8Buffer.Length
      ensures ok ==> At(k', Feed(cur, c), text) && k'.src == k.src + 1
    {
      hide FeedAll; hide Feed;
      if k.dst == utf8Buffer.Length { return k, false; }
      FeedSynced(cur, text, k.src);
      utf8Buffer[k.dst] := c;
      assert utf8Buffer[k.checkpoint..k.dst + 1] == cur.tail + [c];
      assert utf8Buffer[..k.checkpoint] == cur.out;
      assert text[k.checkpointSrc..k.src + 1] == cur.pend + [c];
      if due == 0 {
        k' := Cursor(k.src + 1, k.dst + 1, k.src + 1, k.dst + 1, 0);
        assert utf8Buffer[..k.dst + 1] == cur.out + (cur.tail + [c]);
        assert utf8Buffer[k.dst + 1..k.dst + 1] == [];
      } else {
        k' := k.(src := k.src + 1, dst := k.dst + 1, due := due);
      }
      ok := true;
    }

    /** One round of the loop on a byte that is not: back to the checkpoint, and one U+FFFD from there.
        It fails where the source would write behind the buffer. */
    method Recover(k: Cursor, c: Byte, ghost cur: State, ghost text: seq<Byte>)
      returns (k': Cursor, ok: bool, ghost cur': State)
      requires At(k, cur, text) && k.src < |text| && c == text[k.src]
      requires if k.due > 0 then !IsContinuation(c) else Announced(c) < 0
      modifies utf8Buffer
      ensures ok <==> |cur.out| + 3 <= utf8Buffer.Length
      ensures ok ==> At(k', cur', text)
      ensures cur' == if k.due > 0 then State(cur.out, cur.pend, REPLACEMENT, 0) else Feed(cur, c)
      ensures ok ==> if k.due > 0 then k'.src == k.src && k'.due == 0 else k'.src == k.src + 1
    {
      hide FeedAll;
      FeedSynced(cur, text, k.src);
      cur' := if k.due > 0 then State(cur.out, cur.pend, REPLACEMENT, 0) else Feed(cur, c);
      if k.checkpoint + 3 > utf8Buffer.Length { return k, false, cur'; }
      var src := if k.due > 0 then k.src else k.src + 1;
      utf8Buffer[k.checkpoint], utf8Buffer[k.checkpoint + 1], utf8Buffer[k.checkpoint + 2] := 0xef, 0xbf, 0xbd;
      k' := k.(src := src, dst := k.checkpoint + 3, due := 0);
      assert utf8Buffer[k.checkpoint..k.checkpoint + 3] == REPLACEMENT;
      assert utf8Buffer[..k.checkpoint] == cur.out;
      assert text[k.checkpointSrc..k.src + 1] == cur.pend + [c];
      ok := true;
    }

    /** The loop of `detokUtf8`. A round may leave the byte it stopped at to the next one. */
    method Scan() returns (k: Cursor, ok: bool)
      requires strBuffer != utf8Buffer && |Text(strBuffer[..])| < strBuffer.Length
      modifies utf8Buffer
      ensures var text := Text(strBuffer[..]); ok <==> Room(text, |text|, utf8Buffer.Length)
      ensures var text := Text(strBuffer[..]); ok ==> k.src == |text| && At(k, FeedAll(Init, text), text)
    {
      hide FeedAll; hide Feed; hide Room; hide Written;
      ghost var text := Text(strBuffer[..]);
      ghost var cur, was := Init, Init;
      k, ok := Cursor(0, 0, 0, 0, 0), true;
      StartSynced(text, utf8Buffer.Length);
      assert utf8Buffer[..0] == [] && utf8Buffer[0..0] == [] && text[0..0] == [];
      while strBuffer[k.src] != 0
        invariant At(k, cur, text) && Room(text, k.src, utf8Buffer.Length)
        decreases |text| - k.src, k.due
      {
        var c := strBuffer[k.src];
        ghost var src := k.src;
        was := cur;
        ReadsAs(cur, c);
        if k.due > 0 && 0x80 <= c < 0xc0 {
          k, ok := Accept(k, c, k.due - 1, cur, text);
          cur := Feed(cur, c);
        } else if k.due > 0 {
          k, ok, cur := Recover(k, c, cur, text);
        } else if c <= 0x7f {
          k, ok := Accept(k, c, 0, cur, text);
          cur := Feed(cur, c);
        } else if 0xc0 <= c <= 0xdf {
          k, ok := Accept(k, c, 1, cur, text);
          cur := Feed(cur, c);
        } else if 0xe0 <= c <= 0xef {
          k, ok := Accept(k, c, 2, cur, text);
          cur := Feed(cur, c);
        } else if 0xf0 <= c <= 0xf7 {
          k, ok := Accept(k, c, 3, cur, text);
          cur := Feed(cur, c);
        } else {
          k, ok, cur := Recover(k, c, cur, text);
        }
        NextRoom(was, text, src, utf8Buffer.Length);
        if !ok { return; }
      }
    }

    /** Moves the bytes from the checkpoint on, and the NUL after them, to the front. */
    method KeepPending(checkpointSrc: nat, src: nat)
      requires checkpointSrc <= src < strBuffer.Length
      modifies this`strBufferPos, strBuffer
      ensures strBufferPos == src - checkpointSrc && Pending() == old(strBuffer[checkpointSrc..src])
      ensures 0 < strBufferPos ==> strBuffer[strBufferPos] == old(strBuffer[src])
    {
      if src > checkpointSrc {
        forall i | 0 <= i <= src - checkpointSrc { strBuffer[i] := strBuffer[checkpointSrc + i]; }
        strBufferPos := src - checkpointSrc;
      } else {
        strBufferPos := 0;
      }
    }

    /** Decodes the C string in `strBuffer`; the characters it completes are returned, the bytes since
        the last complete character are moved to the front of `strBuffer`. */
    method DetokUtf8() returns (r: Outcome)
      requires strBuffer != utf8Buffer && |Text(strBuffer[..])| < strBuffer.Length
      modifies this`strBufferPos, strBuffer, utf8Buffer
      ensures r == Overrun <==> !InBounds(Text(old(strBuffer[..])), utf8Buffer.Length)
      ensures r != Overrun ==> r == Returned(FeedAll(Init, Text(old(strBuffer[..]))).out)
      ensures r != Overrun ==> strBufferPos < strBuffer.Length
      ensures r != Overrun ==> Pending() == FeedAll(Init, Text(old(strBuffer[..]))).pend && 0 !in Pending()
      ensures r != Overrun && 0 < strBufferPos ==> strBuffer[strBufferPos] == 0
    {
      hide FeedAll; hide Room;
      ghost var text := Text(strBuffer[..]);
      var k, ok := Scan();
      if !ok { return Overrun; }
      ghost var s := FeedAll(Init, text);
      assert text[k.checkpointSrc..k.src] == strBuffer[k.checkpointSrc..k.src];
      KeepPending(k.checkpointSrc, k.src);
      assert utf8Buffer[..k.checkpoint] == s.out;
      if k.checkpoint == utf8Buffer.Length { return Overrun; }
      utf8Buffer[k.checkpoint] := 0;
      assert utf8Buffer[..k.checkpoint] == s.out;
      r := if k.checkpoint > 0 then Output(utf8Buffer[..k.checkpoint]) else Nothing;
    }

    /** Appends a piece to the pending bytes, and the NUL behind it. */
    method Append(piece: seq<Byte>)
      requires strBufferPos + |piece| < strBuffer.Length && 0 !in piece && 0 !in strBuffer[..strBufferPos]
      modifies this`strBufferPos, strBuffer
      ensures Text(strBuffer[..]) == old(Pending()) + piece
    {
      ghost var kept := Pending();
      forall i | 0 <= i < |piece| { strBuffer[strBufferPos + i] := piece[i]; }
      assert strBuffer[..strBufferPos] == kept && strBuffer[strBufferPos..strBufferPos + |piece|] == piece;
      strBufferPos := strBufferPos + |piece|;
      strBuffer[strBufferPos] := 0;
      assert strBuffer[..strBufferPos] == kept + piece;
      TextEnds(strBuffer[..], strBufferPos);
    }

    /** `decode`: the piece of an ordinary token is appended to the pending bytes and decoded; the
        begin token gives nothing, an end token gives the pending bytes as they are. */
    method Decode(token: nat) returns (r: Outcome)
      requires Valid() && token < |vocab| && 0 !in vocab[token]
      modifies this`strBufferPos, strBuffer, utf8Buffer
      ensures r != Overrun ==> Valid()
      ensures token == bosId ==> r == Nothing && Pending() == old(Pending())
      ensures token != bosId && token in eosIds ==> r == Returned(old(Pending())) && Pending() == old(Pending())
      ensures token != bosId && token !in eosIds ==>
        var p, l, size := old(strBufferPos), |vocab[token]|, strBuffer.Length;
        && (r == Refused <==> !Asserted(p, l, size))
        && (r == Refused ==> Pending() == old(Pending()))
        && (Asserted(p, l, size) ==> (r == Overrun <==> !InBounds(old(Pending()) + vocab[token], size)))
        && (Need(p, l) <= size ==> r != Overrun)
        && (Asserted(p, l, size) && r != Overrun ==>
              var call := Utf8Stream.Decode(old(Pending()), vocab[token]);
              r == Returned(call.out) && Pending() == call.pend)
    {
      hide FeedAll; hide Room; hide Kept; hide Text; hide InBounds; hide Need;
      if token == bosId { return Nothing; }
      if token in eosIds {
        if strBufferPos > 0 { return Output(strBuffer[..strBufferPos]); }
        return Nothing;
      }
      ghost var kept := Pending();
      var piece := vocab[token];
      if !(strBufferPos + |piece| + 1 < strBuffer.Length) { return Refused; }
      if Need(|kept|, |piece|) <= utf8Buffer.Length { GuardSuffices(kept, piece, utf8Buffer.Length); }
      Append(piece);
      PendingIsKept(kept + piece);
      r := DetokUtf8();
    }
  }

  /** The loop state `cur` is in step with the automaton: reading on from it leads to the same states. */
  predicate Synced(cur: State, text: seq<Byte>, src: nat)
    requires src <= |text|
  {
    if src < |text| then Feed(cur, text[src]) == FeedAll(Init, text[..src + 1]) else cur == FeedAll(Init, text)
  }

  lemma StartSynced(text: seq<Byte>, size: nat)
    ensures Synced(Init, text, 0) && Room(text, 0, size)
  {
    FeedNothing(Init);
    assert text[..0] == [];
    if text != [] {
      FeedSnoc(Init, [], text[0]);
      assert text[..1] == [] + [text[0]];
    }
  }

  /** Consuming a byte keeps step, and so does giving up on an unfinished character first. */
  lemma FeedSynced(cur: State, text: seq<Byte>, src: nat)
    requires src < |text| && Synced(cur, text, src)
    ensures Synced(Feed(cur, text[src]), text, src + 1)
    ensures 0 < cur.due && !IsContinuation(text[src]) ==> Synced(State(cur.out, cur.pend, REPLACEMENT, 0), text, src)
  {
    hide FeedAll;
    assert text[..|text|] == text;
    if src + 1 < |text| {
      assert text[..src + 2] == text[..src + 1] + [text[src + 1]];
      FeedSnoc(Init, text[..src + 1], text[src + 1]);
    }
  }

  /** The room for one byte more, and what a round that fails says about it. */
  lemma NextRoom(cur: State, text: seq<Byte>, src: nat, size: nat)
    requires src < |text| && Synced(cur, text, src) && Room(text, src, size)
    ensures Room(text, src + 1, size) <==> Written(Feed(cur, text[src])) <= size
    ensures Room(text, |text|, size) ==> Written(Feed(cur, text[src])) <= size
    ensures (0 < cur.due && !IsContinuation(text[src])) || (cur.due == 0 && Announced(text[src]) < 0) ==>
      Written(Feed(cur, text[src])) >= |cur.out| + 3
        && (cur.due == 0 ==> Written(Feed(cur, text[src])) == |cur.out| + 3)
  {
    assert Feed(cur, text[src]) == FeedAll(Init, text[..src + 1]);
  }

  lemma PendingIsKept(text: seq<Byte>)
    ensures Kept(FeedAll(Init, text).pend)
  {
    Replay(text);
  }

  /** How the automaton reads a byte it can use. */
  lemma ReadsAs(cur: State, c: Byte)
    ensures 0 < cur.due && IsContinuation(c) ==>
      Feed(cur, c) == Settle(State(cur.out, cur.pend + [c], cur.tail + [c], cur.due - 1))
    ensures cur.due == 0 && 0 <= Announced(c) ==>
      Feed(cur, c) == Settle(State(cur.out, cur.pend + [c], cur.tail + [c], Announced(c)))
  {
  }

}
