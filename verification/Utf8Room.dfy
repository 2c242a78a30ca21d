/** How much room the output buffer of `detokUtf8` (src/tokenizer.cpp) needs. The source checks the
    room in its input buffer alone; for malformed streams that is not enough, and this module says
    exactly when it is. */
module Utf8Room {
  import opened Utf8Stream

  /** Texts that can be pending: everything is kept, nothing is committed. */
  predicate Kept(b: seq<Byte>) { FeedAll(Init, b).pend == b }

  /** The buffer size that `l` further bytes need when `p` bytes are pending. */
  function Need(p: nat, l: nat): nat
  {
    2 * l + if p == 0 then 1 else if p < 4 then p + 2 else 6
  }

  // ---- Enough -------------------------------------------------------------------------------------

  /** The room a state takes: what is written, or what a replacement would write, and the closing NUL. */
  function Level(s: State): nat
  {
    |s.out| + if s.tail == [] then 1 else if |s.tail| < 3 then 3 else |s.tail|
  }

  /** A byte takes at most two more, whatever it does. */
  lemma ByteTakesTwo(s: State, c: Byte)
    requires TailOk(s)
    ensures TailOk(Feed(s, c)) && Level(Feed(s, c)) <= Level(s) + 2
    ensures Written(s) <= Level(s) && |s.out| < Level(s)
  {
    TailStays(s, c);
  }

  lemma TailStays(s: State, c: Byte)
    requires TailOk(s)
    ensures TailOk(Feed(s, c))
  {
    var s0 := s.(out := []);
    FeedKeeps(s0, c);
    FeedOneShift(s.out, s0, c);
    assert Shift(s.out, s0) == s;
  }

  /** Pending bytes leave at most one replacement and one unfinished character. */
  lemma {:induction false} TailBound(b: seq<Byte>)
    ensures var s := FeedAll(Init, b);
      TailOk(s) && |s.pend| <= |b| && (s.tail == [] <==> s.pend == []) && (s.pend != [] ==> |s.tail| <= |s.pend| + 2)
    decreases |b|
  {
    if b != [] {
      var n := |b| - 1;
      assert b == b[..n] + [b[n]];
      FeedSnoc(Init, b[..n], b[n]);
      TailBound(b[..n]);
      TailStays(FeedAll(Init, b[..n]), b[n]);
    }
  }

  /** While nothing is committed all bytes are pending. */
  lemma {:induction false} PendIsAll(b: seq<Byte>)
    ensures FeedAll(Init, b).out == [] ==> FeedAll(Init, b).pend == b
    ensures Kept(b) ==> FeedAll(Init, b).out == []
    ensures |FeedAll(Init, b).pend| <= |b|
    decreases |b|
  {
    if b != [] {
      var n := |b| - 1;
      assert b == b[..n] + [b[n]];
      FeedSnoc(Init, b[..n], b[n]);
      PendIsAll(b[..n]);
    }
  }

  /** Prefixes of a pending text are pending texts. */
  lemma {:induction false} KeptPrefix(b: seq<Byte>, i: nat)
    requires Kept(b) && i <= |b|
    ensures Kept(b[..i])
    decreases |b| - i
  {
    if i == |b| {
      assert b[..i] == b;
    } else {
      KeptPrefix(b, i + 1);
      var c := b[..i + 1];
      assert c == c[..i] + [c[i]] && c[..i] == b[..i];
      FeedSnoc(Init, c[..i], c[i]);
      PendIsAll(c);
      PendIsAll(c[..i]);
    }
  }

  lemma {:induction false} KeptLevel(b: seq<Byte>)
    requires Kept(b)
    ensures TailOk(FeedAll(Init, b)) && Level(FeedAll(Init, b)) <= Need(|b|, 0)
  {
    TailBound(b);
    PendIsAll(b);
    TailSize(FeedAll(Init, b));
  }

  lemma TailSize(s: State)
    requires TailOk(s)
    ensures |s.tail| <= 6
  {
    hide FeedAll;
  }

  lemma {:induction false} LevelGrows(s: State, piece: seq<Byte>)
    requires TailOk(s)
    ensures TailOk(FeedAll(s, piece)) && Level(FeedAll(s, piece)) <= Level(s) + 2 * |piece|
    decreases |piece|
  {
    hide Level; hide TailOk; hide Feed;
    if piece != [] {
      ByteTakesTwo(s, piece[0]);
      LevelGrows(Feed(s, piece[0]), piece[1..]);
    }
  }

  /** The guard is enough for every pending text and every piece of these lengths. */
  lemma GuardSuffices(pend: seq<Byte>, piece: seq<Byte>, size: nat)
    requires Kept(pend) && Need(|pend|, |piece|) <= size
    ensures InBounds(pend + piece, size)
  {
    hide Level; hide TailOk; hide FeedAll; hide Kept;
    var text := pend + piece;
    forall i | 0 <= i <= |text|
      ensures Written(FeedAll(Init, text[..i])) <= size && (i == |text| ==> |FeedAll(Init, text[..i]).out| < size)
    {
      var s: State;
      if i <= |pend| {
        assert text[..i] == pend[..i];
        KeptPrefix(pend, i);
        KeptLevel(pend[..i]);
        s := FeedAll(Init, pend[..i]);
      } else {
        assert text[..i] == pend + piece[..i - |pend|];
        FeedAppend(Init, pend, piece[..i - |pend|]);
        KeptLevel(pend);
        LevelGrows(FeedAll(Init, pend), piece[..i - |pend|]);
        s := FeedAll(Init, text[..i]);
      }
      ByteTakesTwo(s, 0);
    }
    assert text[..|text|] == text;
  }

  // ---- Needed -------------------------------------------------------------------------------------

  /** Stray continuation bytes, and from the second byte on an unfinished character behind them. */
  function WorstPending(p: nat): (b: seq<Byte>)
    ensures |b| == p && 0 !in b
  {
    if p == 0 then [] else if p == 1 then [0x80] else if p == 2 then [0x80, 0xc0] else if p == 3 then [0x80, 0xe0, 0x80]
    else Strays(p - 3) + [0xf0, 0x80, 0x80]
  }

  function Strays(n: nat): (b: seq<Byte>)
    ensures |b| == n && 0 !in b
  {
    if n == 0 then [] else Strays(n - 1) + [0x80]
  }

  /** A stray continuation byte and a letter in turn. */
  function Turns(n: nat): (b: seq<Byte>)
    ensures |b| == n && 0 !in b
  {
    if n == 0 then [] else Turns(n - 1) + [if n % 2 == 1 then 0x80 else 0x61]
  }

  /** First what completes the pending character, then strays and letters. */
  function WorstPiece(p: nat, l: nat): (b: seq<Byte>)
    ensures |b| == l && 0 !in b
  {
    if p == 0 || l == 0 then Turns(l) else [if p == 1 then 0x61 else 0x80] + Turns(l - 1)
  }

  lemma {:induction false} StraysKept(n: nat)
    requires 0 < n
    ensures FeedAll(Init, Strays(n)) == State([], Strays(n), REPLACEMENT, 0)
    decreases n
  {
    FeedSnoc(Init, Strays(n - 1), 0x80);
    if n > 1 { StraysKept(n - 1); } else { FeedNothing(Init); assert [] + [0x80] == [0x80]; }
  }

  lemma OneStray()
    ensures FeedAll(Init, [0x80]) == State([], [0x80], REPLACEMENT, 0)
  {
    FeedNothing(Init);
    FeedSnoc(Init, [], 0x80);
    assert [] + [0x80] == [0x80];
  }

  lemma StrayThenLead(lead: Byte)
    requires lead == 0xc0 || lead == 0xe0
    ensures FeedAll(Init, [0x80, lead]) == State([], [0x80, lead], REPLACEMENT + [lead], if lead == 0xc0 then 1 else 2)
  {
    hide FeedAll;
    OneStray();
    FeedSnoc(Init, [0x80], lead);
    assert [0x80] + [lead] == [0x80, lead];
  }

  /** The worst pending text of a length, in three bytes or fewer. */
  lemma ShortWorst()
    ensures FeedAll(Init, [0x80]) == State([], [0x80], REPLACEMENT, 0)
    ensures FeedAll(Init, [0x80, 0xc0]) == State([], [0x80, 0xc0], REPLACEMENT + [0xc0], 1)
    ensures FeedAll(Init, [0x80, 0xe0, 0x80]) == State([], [0x80, 0xe0, 0x80], REPLACEMENT + [0xe0, 0x80], 1)
  {
    hide FeedAll;
    OneStray();
    StrayThenLead(0xc0);
    StrayThenLead(0xe0);
    FeedSnoc(Init, [0x80, 0xe0], 0x80);
    assert [0x80, 0xe0] + [0x80] == [0x80, 0xe0, 0x80];
    assert REPLACEMENT + [0xe0] + [0x80] == REPLACEMENT + [0xe0, 0x80];
  }

  /** What the worst pending text leaves: a replacement and all but the last byte of a character. */
  lemma WorstState(p: nat)
    requires 0 < p
    ensures var s := FeedAll(Init, WorstPending(p));
      && s.out == [] && s.pend == WorstPending(p) && |s.tail| == Need(p, 0)
      && (if p == 1 then s.due == 0 else s.due == 1)
  {
    if p < 4 {
      ShortWorst();
    } else {
      var b := Strays(p - 3);
      StraysKept(p - 3);
      FeedSnoc(Init, b, 0xf0);
      FeedSnoc(Init, b + [0xf0], 0x80);
      FeedSnoc(Init, b + [0xf0] + [0x80], 0x80);
      assert b + [0xf0] + [0x80] + [0x80] == WorstPending(p);
    }
  }

  /** From a clean state, strays and letters write two bytes for one. */
  lemma {:induction false} TurnsWrite(out: seq<Byte>, n: nat)
    ensures var s := FeedAll(State(out, [], [], 0), Turns(n));
      && s.due == 0
      && (if n % 2 == 0 then |s.out| == |out| + 2 * n && s.tail == []
          else |s.out| == |out| + 2 * (n - 1) && s.tail == REPLACEMENT)
    decreases n
  {
    if n == 0 {
      FeedNothing(State(out, [], [], 0));
    } else {
      TurnsWrite(out, n - 1);
      FeedSnoc(State(out, [], [], 0), Turns(n - 1), if n % 2 == 1 then 0x80 else 0x61);
    }
  }

  /** The first byte of the worst piece completes a character: everything pending is committed. */
  lemma FirstByte(p: nat, l: nat)
    requires 0 < p && 0 < l
    ensures var s := FeedAll(Init, WorstPending(p) + WorstPiece(p, l)[..1]);
      s.pend == [] && s.tail == [] && s.due == 0 && |s.out| == Need(p, 0) + 1
  {
    WorstState(p);
    FeedSnoc(Init, WorstPending(p), WorstPiece(p, l)[0]);
    assert WorstPiece(p, l)[..1] == [WorstPiece(p, l)[0]];
  }

  /** The worst piece behind the worst pending text overruns every smaller buffer. */
  lemma WorstOverruns(p: nat, l: nat, size: nat)
    requires size < Need(p, l)
    ensures !InBounds(WorstPending(p) + WorstPiece(p, l), size)
  {
    hide FeedAll; hide Feed;
    var pend, piece := WorstPending(p), WorstPiece(p, l);
    var text := pend + piece;
    var s := FeedAll(Init, text);
    assert text[..|text|] == text;
    if p == 0 {
      TurnsWrite([], l);
      assert text == Turns(l);
    } else if l == 0 {
      WorstState(p);
      assert text == pend;
    } else {
      var first := FeedAll(Init, pend + piece[..1]);
      FirstByte(p, l);
      assert piece == piece[..1] + Turns(l - 1);
      assert text == (pend + piece[..1]) + Turns(l - 1);
      FeedAppend(Init, pend + piece[..1], Turns(l - 1));
      TurnsWrite(first.out, l - 1);
      assert first == State(first.out, [], [], 0);
    }
    assert Written(s) > size || |s.out| >= size;
  }

  // ---- The exact condition -------------------------------------------------------------------------

  /** Every pending text of length `p` and piece of length `l` stays in bounds. */
  ghost predicate AlwaysInBounds(p: nat, l: nat, size: nat)
  {
    forall pend: seq<Byte>, piece: seq<Byte> ::
      |pend| == p && |piece| == l && Kept(pend) && 0 !in pend && 0 !in piece ==> InBounds(pend + piece, size)
  }

  /** Decoding is in bounds for all contents of these lengths if and only if the buffer has the room
      the guard asks for. */
  lemma InBoundsIffGuard(p: nat, l: nat, size: nat)
    ensures AlwaysInBounds(p, l, size) <==> Need(p, l) <= size
  {
    hide InBounds; hide Kept; hide Need;
    if Need(p, l) <= size {
      forall pend: seq<Byte>, piece: seq<Byte> | |pend| == p && |piece| == l && Kept(pend) && 0 !in pend && 0 !in piece
        ensures InBounds(pend + piece, size)
      {
        GuardSuffices(pend, piece, size);
      }
    } else {
      WorstIsKept(p);
      WorstOverruns(p, l, size);
    }
  }

  lemma WorstIsKept(p: nat)
    ensures Kept(WorstPending(p))
  {
    if p > 0 { WorstState(p); } else { FeedNothing(Init); }
  }

  /** The size of both buffers for a vocabulary with tokens of up to `maxTokenLength` bytes. */
  function BufferSize(maxTokenLength: nat): nat { (if maxTokenLength * 2 < 8 then 8 else maxTokenLength * 2) + 3 }

  /** The check the source makes before it appends a piece. */
  predicate Asserted(p: nat, l: nat, size: nat) { p + l + 1 < size }

  /** With the source's buffers, tokens two bytes shorter than the longest are always safe, one byte
      shorter behind at most three pending bytes, and the longest behind at most one. */
  lemma SafeTokens(maxTokenLength: nat, p: nat, l: nat)
    requires 4 <= maxTokenLength && l <= maxTokenLength
    ensures AlwaysInBounds(p, l, BufferSize(maxTokenLength)) <==>
      l + 2 <= maxTokenLength || (l + 1 == maxTokenLength && p <= 3) || p <= 1
  {
    hide AlwaysInBounds;
    InBoundsIffGuard(p, l, BufferSize(maxTokenLength));
  }

  /** For every longest token length from 4 on the check lets an input through that overruns: a longest
      token behind two pending bytes. */
  lemma CheckIsNotEnough(maxTokenLength: nat) returns (pend: seq<Byte>, piece: seq<Byte>)
    requires 4 <= maxTokenLength
    ensures Kept(pend) && 0 !in pend && 0 !in piece && |piece| == maxTokenLength
    ensures Asserted(|pend|, |piece|, BufferSize(maxTokenLength))
    ensures !InBounds(pend + piece, BufferSize(maxTokenLength))
  {
    pend, piece := WorstPending(2), WorstPiece(2, maxTokenLength);
    WorstIsKept(2);
    WorstOverruns(2, maxTokenLength, BufferSize(maxTokenLength));
  }

  /** An input: with tokens of up to 4 bytes, 80 F0 80 80 pending and the token 80 80 61 80. */
  lemma OverrunExample()
    ensures var pend: seq<Byte>, piece: seq<Byte> := [0x80, 0xf0, 0x80, 0x80], [0x80, 0x80, 0x61, 0x80];
      && Kept(pend) && Asserted(|pend|, |piece|, BufferSize(4))
      && Written(FeedAll(Init, pend + piece)) == 14 && BufferSize(4) == 11
      && !InBounds(pend + piece, BufferSize(4))
  {
    var pend, piece := WorstPending(4), WorstPiece(4, 4);
    assert Strays(1) == Strays(0) + [0x80];
    assert pend == [0x80, 0xf0, 0x80, 0x80];
    assert Turns(3) == [0x80, 0x61, 0x80]
      by { assert Turns(1) == Turns(0) + [0x80]; assert Turns(2) == Turns(1) + [0x61]; }
    assert piece == [0x80, 0x80, 0x61, 0x80];
    WorstIsKept(4);
    WorstOverruns(4, 4, 11);
    var first := FeedAll(Init, pend + piece[..1]);
    FirstByte(4, 4);
    assert pend + piece == (pend + piece[..1]) + Turns(3);
    FeedAppend(Init, pend + piece[..1], Turns(3));
    TurnsWrite(first.out, 3);
    assert first == State(first.out, [], [], 0);
  }
}
