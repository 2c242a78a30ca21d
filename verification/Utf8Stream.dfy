/** What the streaming UTF-8 decoder of src/tokenizer.cpp computes: an automaton over bytes that
    commits whole characters, keeps the bytes since the last commit pending, and replaces what it
    cannot read by one U+FFFD. */
module Utf8Stream {

  type Byte = b: int | 0 <= b < 256

  const REPLACEMENT: seq<Byte> := [0xef, 0xbf, 0xbd]

  predicate IsContinuation(c: Byte) { 0x80 <= c < 0xc0 }

  /** Continuation bytes a lead byte announces; -1 for a byte that cannot start a character. */
  function Announced(c: Byte): int
  {
    if c <= 0x7f then 0
    else if 0xc0 <= c <= 0xdf then 1
    else if 0xe0 <= c <= 0xef then 2
    else if 0xf0 <= c <= 0xf7 then 3
    else -1
  }

  /** `out` is committed, `pend` the input since the last commit, `tail` the output since then. */
  datatype State = State(out: seq<Byte>, pend: seq<Byte>, tail: seq<Byte>, due: nat)

  const Init := State([], [], [], 0)

  function Settle(s: State): State
  {
    if s.due == 0 then State(s.out + s.tail, [], [], 0) else s
  }

  /** A byte that starts a character, or cannot. */
  function Lead(s: State, c: Byte): State
  {
    if Announced(c) < 0 then State(s.out, s.pend + [c], REPLACEMENT, 0)
    else Settle(State(s.out, s.pend + [c], s.tail + [c], Announced(c)))
  }

  function Feed(s: State, c: Byte): State
  {
    if s.due == 0 then Lead(s, c)
    else if IsContinuation(c) then Settle(State(s.out, s.pend + [c], s.tail + [c], s.due - 1))
    else Lead(State(s.out, s.pend, REPLACEMENT, 0), c)
  }

  function FeedAll(s: State, bytes: seq<Byte>): State
    decreases |bytes|
  {
    if bytes == [] then s else FeedAll(Feed(s, bytes[0]), bytes[1..])
  }

  lemma {:induction false} FeedAppend(s: State, a: seq<Byte>, b: seq<Byte>)
    ensures FeedAll(s, a + b) == FeedAll(FeedAll(s, a), b)
    decreases |a|
  {
    if a == [] {
      assert a + b == b;
    } else {
      assert (a + b)[1..] == a[1..] + b;
      FeedAppend(Feed(s, a[0]), a[1..], b);
    }
  }

  lemma FeedNothing(s: State)
    ensures FeedAll(s, []) == s
  {
  }

  lemma FeedSnoc(s: State, a: seq<Byte>, c: Byte)
    ensures FeedAll(s, a + [c]) == Feed(FeedAll(s, a), c)
  {
    FeedAppend(s, a, [c]);
    assert [c][1..] == [];
  }

  // ---- Streaming is batch ---------------------------------------------------------------------

  /** What is already committed does not influence what follows. */
  function Shift(prefix: seq<Byte>, s: State): State { s.(out := prefix + s.out) }

  lemma {:induction false} FeedShift(prefix: seq<Byte>, s: State, bytes: seq<Byte>)
    ensures FeedAll(Shift(prefix, s), bytes) == Shift(prefix, FeedAll(s, bytes))
    decreases |bytes|
  {
    if bytes != [] {
      FeedOneShift(prefix, s, bytes[0]);
      FeedShift(prefix, Feed(s, bytes[0]), bytes[1..]);
    }
  }

  lemma FeedOneShift(prefix: seq<Byte>, s: State, c: Byte)
    ensures Feed(Shift(prefix, s), c) == Shift(prefix, Feed(s, c))
  {
    assert forall t: seq<Byte> :: prefix + s.out + t == prefix + (s.out + t);
  }

  /** The pending bytes carry the whole state since the last commit: reading them again restores it. */
  lemma {:induction false} Replay(bytes: seq<Byte>)
    ensures var s := FeedAll(Init, bytes); FeedAll(Init, s.pend) == s.(out := [])
    decreases |bytes|
  {
    if bytes != [] {
      var n := |bytes| - 1;
      assert bytes == bytes[..n] + [bytes[n]];
      FeedSnoc(Init, bytes[..n], bytes[n]);
      Replay(bytes[..n]);
      var s := FeedAll(Init, bytes[..n]);
      var c := bytes[n];
      FeedSnoc(Init, s.pend, c);
    }
  }

  /** Decoding what is pending together with new bytes continues the batch decode exactly where it was. */
  lemma Resume(a: seq<Byte>, b: seq<Byte>)
    ensures var s, all := FeedAll(Init, a), FeedAll(Init, a + b);
      var r := FeedAll(Init, s.pend + b);
      s.out + r.out == all.out && r.pend == all.pend && r.tail == all.tail && r.due == all.due
  {
    var s := FeedAll(Init, a);
    FeedAppend(Init, a, b);
    FeedAppend(Init, s.pend, b);
    Replay(a);
    FeedShift(s.out, s.(out := []), b);
    assert Shift(s.out, s.(out := [])) == s;
  }

  /** One decoder call: the bytes kept from before and a new piece. */
  datatype Call = Call(out: seq<Byte>, pend: seq<Byte>)

  function Decode(pend: seq<Byte>, piece: seq<Byte>): Call
  {
    var s := FeedAll(Init, pend + piece);
    Call(s.out, s.pend)
  }

  function Join(pieces: seq<seq<Byte>>): seq<Byte>
  {
    if pieces == [] then [] else Join(pieces[..|pieces| - 1]) + pieces[|pieces| - 1]
  }

  /** A stream of pieces, each decoded when it arrives. */
  function Stream(pieces: seq<seq<Byte>>): Call
  {
    if pieces == [] then Call([], [])
    else
      var before := Stream(pieces[..|pieces| - 1]);
      var call := Decode(before.pend, pieces[|pieces| - 1]);
      Call(before.out + call.out, call.pend)
  }

  /** However the bytes are cut into pieces, the outputs add up to the one-shot decode and the same bytes stay
      pending. */
  lemma {:induction false} StreamingIsBatch(pieces: seq<seq<Byte>>)
    ensures Stream(pieces) == Decode([], Join(pieces))
    decreases |pieces|
  {
    if pieces == [] {
      assert [] + Join(pieces) == [];
    } else {
      var before, last := pieces[..|pieces| - 1], pieces[|pieces| - 1];
      StreamingIsBatch(before);
      assert [] + Join(before) == Join(before) && [] + Join(pieces) == Join(before) + last;
      Resume(Join(before), last);
    }
  }

  // ---- Structure of the output ------------------------------------------------------------------

  /** A lead byte and its `n` continuation bytes. */
  predicate IsCharacter(b: seq<Byte>)
  {
    b != [] && Announced(b[0]) == |b| - 1 && forall i :: 1 <= i < |b| ==> IsContinuation(b[i])
  }

  /** A sequence of structurally complete characters. */
  predicate WellFormed(b: seq<Byte>)
  {
    b == [] ||
    (Announced(b[0]) >= 0 && Announced(b[0]) + 1 <= |b| && IsCharacter(b[..Announced(b[0]) + 1])
      && WellFormed(b[Announced(b[0]) + 1..]))
  }

  lemma {:induction false} WellFormedAppend(a: seq<Byte>, b: seq<Byte>)
    requires WellFormed(a) && WellFormed(b)
    ensures WellFormed(a + b)
    decreases |a|
  {
    if a == [] {
      assert a + b == b;
    } else {
      var n := Announced(a[0]) + 1;
      assert (a + b)[..n] == a[..n] && (a + b)[n..] == a[n..] + b;
      WellFormedAppend(a[n..], b);
    }
  }

  lemma OneCharacter(b: seq<Byte>)
    requires IsCharacter(b)
    ensures WellFormed(b)
  {
    assert b[..Announced(b[0]) + 1] == b;
  }

  /** A character with `due` continuation bytes to come. */
  predicate IsPartial(b: seq<Byte>, due: nat)
  {
    b != [] && Announced(b[0]) == |b| - 1 + due && forall i :: 1 <= i < |b| ==> IsContinuation(b[i])
  }

  /** The output since the last commit: at most one replacement, then at most one unfinished character. */
  predicate TailOk(s: State)
  {
    if s.due == 0 then s.tail == [] || s.tail == REPLACEMENT
    else IsPartial(s.tail, s.due) || (3 < |s.tail| && s.tail[..3] == REPLACEMENT && IsPartial(s.tail[3..], s.due))
  }

  lemma ReplacementIsWellFormed()
    ensures WellFormed(REPLACEMENT)
  {
    OneCharacter(REPLACEMENT);
  }

  /** A tail that has become complete is well formed. */
  lemma CompleteTail(tail: seq<Byte>, c: Byte, e: nat)
    requires e == 1 && IsContinuation(c)
    requires IsPartial(tail, e) || (3 < |tail| && tail[..3] == REPLACEMENT && IsPartial(tail[3..], e))
    ensures WellFormed(tail + [c])
  {
    hide WellFormed;
    if IsPartial(tail, e) {
      OneCharacter(tail + [c]);
    } else {
      assert tail + [c] == REPLACEMENT + (tail[3..] + [c]);
      OneCharacter(tail[3..] + [c]);
      ReplacementIsWellFormed();
      WellFormedAppend(REPLACEMENT, tail[3..] + [c]);
    }
  }

  lemma LeadKeeps(s: State, c: Byte)
    requires WellFormed(s.out) && s.due == 0 && (s.tail == [] || s.tail == REPLACEMENT)
    ensures WellFormed(Lead(s, c).out) && TailOk(Lead(s, c))
  {
    hide WellFormed;
    if Announced(c) == 0 {
      OneCharacter([c]);
      ReplacementIsWellFormed();
      WellFormedAppend(s.tail, [c]);
      WellFormedAppend(s.out, s.tail + [c]);
    } else if Announced(c) > 0 {
      assert IsPartial([c], Announced(c));
      if s.tail == [] { assert s.tail + [c] == [c]; }
          else { assert (s.tail + [c])[..3] == REPLACEMENT && (s.tail + [c])[3..] == [c]; }
    }
  }

  lemma FeedKeeps(s: State, c: Byte)
    requires WellFormed(s.out) && TailOk(s)
    ensures WellFormed(Feed(s, c).out) && TailOk(Feed(s, c))
  {
    hide WellFormed;
    if s.due == 0 {
      LeadKeeps(s, c);
    } else if IsContinuation(c) {
      if s.due == 1 {
        CompleteTail(s.tail, c, 1);
        WellFormedAppend(s.out, s.tail + [c]);
      } else if IsPartial(s.tail, s.due) {
        assert IsPartial(s.tail + [c], s.due - 1);
      } else {
        assert (s.tail + [c])[..3] == s.tail[..3] && (s.tail + [c])[3..] == s.tail[3..] + [c];
        assert IsPartial(s.tail[3..] + [c], s.due - 1);
      }
    } else {
      LeadKeeps(State(s.out, s.pend, REPLACEMENT, 0), c);
    }
  }

  /** Whatever the input, the committed output is structurally well formed. */
  lemma {:induction false} OutputIsWellFormed(s: State, bytes: seq<Byte>)
    requires WellFormed(s.out) && TailOk(s)
    ensures WellFormed(FeedAll(s, bytes).out) && TailOk(FeedAll(s, bytes))
    decreases |bytes|
  {
    hide WellFormed; hide TailOk; hide Feed;
    if bytes != [] {
      FeedKeeps(s, bytes[0]);
      OutputIsWellFormed(Feed(s, bytes[0]), bytes[1..]);
    }
  }

  lemma DecodeIsWellFormed(pend: seq<Byte>, piece: seq<Byte>)
    ensures WellFormed(Decode(pend, piece).out)
  {
    OutputIsWellFormed(Init, pend + piece);
  }

  // ---- Conservation -------------------------------------------------------------------------------

  /** Bytes that can still become well formed: whole characters and at most one unfinished one. */
  ghost predicate Extendable(b: seq<Byte>)
  {
    exists n: nat, e: nat :: n <= |b| && WellFormed(b[..n]) && Unfinished(b[n..], e)
  }

  predicate Unfinished(b: seq<Byte>, e: nat) { if b == [] then e == 0 else 0 < e && IsPartial(b, e) }

  /** Reading the first `m` bytes of a character from a clean state. */
  lemma {:induction false} ReadPartial(out: seq<Byte>, b: seq<Byte>, e: nat)
    requires 0 < e && IsPartial(b, e)
    ensures FeedAll(State(out, [], [], 0), b) == State(out, b, b, e)
    decreases |b|
  {
    var n := |b| - 1;
    assert b == b[..n] + [b[n]];
    FeedSnoc(State(out, [], [], 0), b[..n], b[n]);
    if n == 0 {
      assert b[..0] == [] && [] + [b[0]] == b;
    } else {
      assert IsPartial(b[..n], e + 1);
      ReadPartial(out, b[..n], e + 1);
    }
  }

  lemma ReadCharacter(out: seq<Byte>, b: seq<Byte>)
    requires IsCharacter(b)
    ensures FeedAll(State(out, [], [], 0), b) == State(out + b, [], [], 0)
  {
    var n := |b| - 1;
    assert b == b[..n] + [b[n]];
    FeedSnoc(State(out, [], [], 0), b[..n], b[n]);
    if n == 0 {
      assert b[..0] == [] && [] + [b[0]] == b;
    } else {
      assert IsPartial(b[..n], 1);
      ReadPartial(out, b[..n], 1);
    }
  }

  /** Well-formed input comes out byte for byte. */
  lemma {:induction false} WellFormedIsConserved(out: seq<Byte>, b: seq<Byte>)
    requires WellFormed(b)
    ensures FeedAll(State(out, [], [], 0), b) == State(out + b, [], [], 0)
    decreases |b|
  {
    hide FeedAll;
    if b == [] {
      FeedNothing(State(out, [], [], 0));
      assert out + b == out;
    } else {
      var n := Announced(b[0]) + 1;
      assert b == b[..n] + b[n..];
      FeedAppend(State(out, [], [], 0), b[..n], b[n..]);
      ReadCharacter(out, b[..n]);
      WellFormedIsConserved(out + b[..n], b[n..]);
      assert out + b[..n] + b[n..] == out + b;
    }
  }

  /** Of an extendable stream nothing is lost and nothing replaced: output and pending bytes are the
      input, and at most three bytes wait. */
  lemma ExtendableIsConserved(b: seq<Byte>)
    requires Extendable(b)
    ensures var s := FeedAll(Init, b);
      s.out + s.pend == b && WellFormed(s.out) && |s.pend| <= 3 && s.tail == s.pend
  {
    hide WellFormed; hide FeedAll;
    var n: nat, e: nat :| n <= |b| && WellFormed(b[..n]) && Unfinished(b[n..], e);
    assert b == b[..n] + b[n..];
    FeedAppend(Init, b[..n], b[n..]);
    WellFormedIsConserved([], b[..n]);
    assert [] + b[..n] == b[..n];
    if b[n..] != [] { ReadPartial(b[..n], b[n..], e); } else { FeedNothing(State(b[..n], [], [], 0)); }
  }

  // ---- Room for the output ------------------------------------------------------------------------

  /** Bytes written to the output buffer so far. */
  function Written(s: State): nat { |s.out| + |s.tail| }

  /** A buffer of `size` bytes takes every byte the loop writes and the closing NUL behind the committed output. */
  predicate InBounds(bytes: seq<Byte>, size: nat)
  {
    Room(bytes, |bytes|, size) && |FeedAll(Init, bytes).out| < size
  }

  /** The writes for the first `n` bytes stay inside the buffer. */
  predicate Room(bytes: seq<Byte>, n: nat, size: nat)
    requires n <= |bytes|
  {
    forall i :: 0 <= i <= n ==> Written(FeedAll(Init, bytes[..i])) <= size
  }

  /** The output is never more than twice the input and one byte. */
  lemma {:induction false} WrittenBound(bytes: seq<Byte>)
    ensures var s := FeedAll(Init, bytes);
      && Written(s) <= 2 * |bytes| + 1
      && (0 < s.due ==> Written(s) <= 2 * |bytes| && s.pend != [])
      && |s.pend| <= |bytes| && |s.out| <= 2 * (|bytes| - |s.pend|)
    decreases |bytes|
  {
    if bytes != [] {
      var n := |bytes| - 1;
      assert bytes == bytes[..n] + [bytes[n]];
      FeedSnoc(Init, bytes[..n], bytes[n]);
      WrittenBound(bytes[..n]);
    }
  }

  lemma PrefixExtendable(b: seq<Byte>, i: nat)
    requires Extendable(b) && i <= |b|
    ensures Extendable(b[..i])
    decreases |b| - i
  {
    if i < |b| {
      PrefixExtendable(b, i + 1);
      assert b[..i + 1][..i] == b[..i];
      DropOne(b[..i + 1]);
    } else {
      assert b[..i] == b;
    }
  }

  lemma PartialInit(b: seq<Byte>, e: nat)
    requires IsPartial(b, e)
    ensures Unfinished(b[..|b| - 1], if |b| == 1 then 0 else e + 1)
  {
  }

  /** Whole characters up to `n`, and a piece of one from there. */
  lemma SplitAt(b: seq<Byte>, n: nat, e: nat)
    requires n < |b| && WellFormed(b[..n]) && IsPartial(b[n..], e)
    ensures Extendable(b[..|b| - 1])
  {
    var c := b[..|b| - 1];
    PartialInit(b[n..], e);
    assert c[..n] == b[..n];
    assert c[n..] == b[n..][..|b[n..]| - 1];
  }

  lemma DropOne(b: seq<Byte>)
    requires Extendable(b) && b != []
    ensures Extendable(b[..|b| - 1])
  {
    hide WellFormed;
    var n: nat, e: nat :| n <= |b| && WellFormed(b[..n]) && Unfinished(b[n..], e);
    if n < |b| {
      SplitAt(b, n, e);
    } else {
      assert b[..n] == b;
      var m := LastCharacter(b);
      SplitAt(b, m, 0);
    }
  }

  /** Where the last character of a well-formed sequence starts. */
  lemma {:induction false} LastCharacter(b: seq<Byte>) returns (m: nat)
    requires WellFormed(b) && b != []
    ensures m < |b| && WellFormed(b[..m]) && IsCharacter(b[m..])
    decreases |b|
  {
    var n := Announced(b[0]) + 1;
    if n == |b| {
      m := 0;
      assert b[..n] == b && b[0..] == b;
    } else {
      var k := LastCharacter(b[n..]);
      m := n + k;
      assert b[m..] == b[n..][k..] && b[..m] == b[..n] + b[n..][..k];
      OneCharacter(b[..n]);
      WellFormedAppend(b[..n], b[n..][..k]);
    }
  }

  /** A stream of real text never needs more room than its own bytes and the NUL. */
  lemma ExtendableInBounds(b: seq<Byte>, size: nat)
    requires Extendable(b) && |b| < size
    ensures InBounds(b, size)
  {
    forall i | 0 <= i <= |b| ensures Written(FeedAll(Init, b[..i])) <= size {
      PrefixExtendable(b, i);
      ExtendableIsConserved(b[..i]);
    }
    ExtendableIsConserved(b);
  }
}
