/** The streaming decoder against a definition of text by literal byte ranges (src/tokenizer.cpp): which byte
    strings are characters, and what becomes of everything else. */
module Utf8Reference {
  import opened Utf8Stream

  // ---- Text, by ranges ----------------------------------------------------------------------------------

  predicate Tail(c: Byte) { 0x80 <= c <= 0xbf }

  predicate Character(b: seq<Byte>)
  {
    || (|b| == 1 && b[0] <= 0x7f)
    || (|b| == 2 && 0xc0 <= b[0] <= 0xdf && Tail(b[1]))
    || (|b| == 3 && 0xe0 <= b[0] <= 0xef && Tail(b[1]) && Tail(b[2]))
    || (|b| == 4 && 0xf0 <= b[0] <= 0xf7 && Tail(b[1]) && Tail(b[2]) && Tail(b[3]))
  }

  /** The first bytes of a character, with some missing. */
  predicate CutCharacter(b: seq<Byte>)
  {
    && b != [] && (forall i :: 1 <= i < |b| ==> Tail(b[i]))
    && ((0xc0 <= b[0] <= 0xdf && |b| < 2) || (0xe0 <= b[0] <= 0xef && |b| < 3) || (0xf0 <= b[0] <= 0xf7 && |b| < 4))
  }

  /** The length of the character that starts the bytes, or 0. */
  function CharacterLength(b: seq<Byte>): (n: nat)
    ensures n <= |b|
  {
    if 1 <= |b| && Character(b[..1]) then 1
    else if 2 <= |b| && Character(b[..2]) then 2
    else if 3 <= |b| && Character(b[..3]) then 3
    else if 4 <= |b| && Character(b[..4]) then 4
    else 0
  }

  predicate Text(b: seq<Byte>)
  {
    b == [] || (0 < CharacterLength(b) && Text(b[CharacterLength(b)..]))
  }

  /** What decoding the bytes gives and what it keeps: characters are copied; whatever lies between two of them
      becomes one replacement in front of the second; what lies behind the last is kept. */
  function Decoded(b: seq<Byte>, broken: bool): (r: Call)
    ensures r.out == [] ==> r.pend == b
  {
    var n := CharacterLength(b);
    if n > 0 then
      var rest := Decoded(b[n..], false);
      Call((if broken then [0xef, 0xbf, 0xbd] else []) + b[..n] + rest.out, rest.pend)
    else if b == [] || CutCharacter(b) then Call([], b)
    else
      var rest := Decoded(b[1..], true);
      if rest.out == [] then Call([], b) else rest
  }

  // ---- The table of lead bytes is these ranges ------------------------------------------------------------

  lemma CharacterIs(b: seq<Byte>)
    ensures Character(b) <==> IsCharacter(b)
  {
  }

  lemma CutIs(b: seq<Byte>)
    ensures CutCharacter(b) <==> exists due: nat :: 0 < due && IsPartial(b, due)
  {
    if CutCharacter(b) { assert IsPartial(b, (Announced(b[0]) + 1 - |b|) as nat); }
  }

  lemma LengthIs(b: seq<Byte>)
    ensures b != [] && Announced(b[0]) >= 0 && Announced(b[0]) + 1 <= |b| && IsCharacter(b[..Announced(b[0]) + 1])
      ==> CharacterLength(b) == Announced(b[0]) + 1
    ensures CharacterLength(b) > 0 ==>
      CharacterLength(b) == Announced(b[0]) + 1 && IsCharacter(b[..Announced(b[0]) + 1])
  {
    if b != [] {
      forall k | 0 <= k <= |b| ensures Character(b[..k]) <==> IsCharacter(b[..k]) { CharacterIs(b[..k]); }
    }
  }

  /** Structurally well-formed bytes are text by the ranges, and the other way round. */
  lemma {:induction false} TextIs(b: seq<Byte>)
    ensures Text(b) <==> WellFormed(b)
    decreases |b|
  {
    LengthIs(b);
    if b != [] && CharacterLength(b) > 0 { TextIs(b[CharacterLength(b)..]); }
  }

  /** Text comes out byte for byte and nothing is kept. */
  lemma TextIsConserved(b: seq<Byte>)
    requires Text(b)
    ensures Decode([], b) == Call(b, [])
  {
    hide WellFormed; hide Text; hide FeedAll;
    TextIs(b);
    WellFormedIsConserved([], b);
    assert [] + b == b;
  }

  /** The output of every call is text. */
  lemma OutputIsText(pend: seq<Byte>, piece: seq<Byte>)
    ensures Text(Decode(pend, piece).out)
  {
    hide WellFormed; hide Text;
    DecodeIsWellFormed(pend, piece);
    TextIs(Decode(pend, piece).out);
  }

  // ---- The automaton computes it ----------------------------------------------------------------------------

  /** The first bytes of a character read behind pending ones. */
  lemma {:induction false} ReadCut(s: State, b: seq<Byte>, due: nat)
    requires s.due == 0 && 0 < due && IsPartial(b, due)
    ensures FeedAll(s, b) == State(s.out, s.pend + b, s.tail + b, due)
    decreases |b|
  {
    var n := |b| - 1;
    assert b == b[..n] + [b[n]];
    FeedSnoc(s, b[..n], b[n]);
    if n == 0 {
      FeedNothing(s);
      assert b[..0] == [];
    } else {
      assert IsPartial(b[..n], due + 1);
      ReadCut(s, b[..n], due + 1);
      assert s.pend + b[..n] + [b[n]] == s.pend + b && s.tail + b[..n] + [b[n]] == s.tail + b;
    }
  }

  lemma ReadWhole(s: State, b: seq<Byte>)
    requires s.due == 0 && IsCharacter(b)
    ensures FeedAll(s, b) == State(s.out + s.tail + b, [], [], 0)
  {
    hide FeedAll;
    var n := |b| - 1;
    assert b == b[..n] + [b[n]];
    FeedSnoc(s, b[..n], b[n]);
    if n == 0 {
      FeedNothing(s);
      assert b[..0] == [];
    } else {
      assert IsPartial(b[..n], 1);
      ReadCut(s, b[..n], 1);
    }
    assert s.out + (s.tail + b) == s.out + s.tail + b;
  }

  /** The automaton between two characters: what it committed and keeps, and whether something was unreadable. */
  function Between(out: seq<Byte>, pend: seq<Byte>, broken: bool): State
  {
    State(out, pend, if broken then REPLACEMENT else [], 0)
  }

  predicate Reads(out: seq<Byte>, pend: seq<Byte>, broken: bool, b: seq<Byte>)
  {
    var s, r := FeedAll(Between(out, pend, broken), b), Decoded(b, broken);
    s.out == out + r.out && s.pend == if r.out == [] then pend + b else r.pend
  }

  /** Continuation bytes without a lead byte are skipped. */
  lemma {:induction false} Strays(b: seq<Byte>, i: nat, j: nat)
    requires i <= j <= |b| && forall k :: i <= k < j ==> Tail(b[k])
    ensures Decoded(b[i..], true).out == Decoded(b[j..], true).out
    ensures Decoded(b[j..], true).out != [] ==> Decoded(b[i..], true).pend == Decoded(b[j..], true).pend
    decreases j - i
  {
    if i < j {
      Strays(b, i + 1, j);
      assert b[i..][1..] == b[i + 1..] && b[i..][0] == b[i];
      StrayByte(b[i..]);
    }
  }

  lemma StrayByte(b: seq<Byte>)
    requires b != [] && (Tail(b[0]) || 0xf8 <= b[0])
    ensures CharacterLength(b) == 0 && !CutCharacter(b) && Announced(b[0]) < 0
  {
    LengthIs(b);
  }

  /** A lead byte whose character is broken off by byte `j`. */
  lemma BrokenOff(b: seq<Byte>) returns (j: nat)
    requires b != [] && Announced(b[0]) >= 0 && CharacterLength(b) == 0 && !CutCharacter(b)
    ensures 1 <= j < |b| && !IsContinuation(b[j]) && forall k :: 1 <= k < j ==> Tail(b[k])
    ensures Announced(b[0]) - (j - 1) > 0 && IsPartial(b[..j], Announced(b[0]) - (j - 1))
  {
    LengthIs(b);
    j := 1;
    while j < |b| && IsContinuation(b[j]) && j <= Announced(b[0])
      invariant 1 <= j <= |b| && j <= Announced(b[0]) + 1 && forall k :: 1 <= k < j ==> IsContinuation(b[k])
    {
      j := j + 1;
    }
    if Announced(b[0]) < |b| { WholeIs(b); }
  }

  lemma WholeIs(b: seq<Byte>)
    requires b != [] && 0 <= Announced(b[0]) < |b|
    ensures (forall k :: 1 <= k <= Announced(b[0]) ==> IsContinuation(b[k])) ==> IsCharacter(b[..Announced(b[0]) + 1])
  {
  }

  lemma DecodedCharacter(b: seq<Byte>, broken: bool)
    requires 0 < CharacterLength(b)
    ensures var n := CharacterLength(b);
      var rest := Decoded(b[n..], false);
      Decoded(b, broken) == Call((if broken then REPLACEMENT else []) + b[..n] + rest.out, rest.pend)
  {
  }

  lemma DecodedGarbage(b: seq<Byte>, broken: bool)
    requires b != [] && CharacterLength(b) == 0 && !CutCharacter(b)
    ensures var rest := Decoded(b[1..], true);
      Decoded(b, broken) == if rest.out == [] then Call([], b) else rest
  {
  }

  lemma ReadsCharacter(out: seq<Byte>, pend: seq<Byte>, broken: bool, b: seq<Byte>, n: nat)
    requires n == CharacterLength(b) > 0
    requires Reads(Between(out, pend, broken).out + Between(out, pend, broken).tail + b[..n], [], false, b[n..])
    ensures Reads(out, pend, broken, b)
  {
    hide FeedAll; hide CharacterLength; hide Decoded; hide IsCharacter;
    LengthIs(b);
    DecodedCharacter(b, broken);
    var s := Between(out, pend, broken);
    assert b == b[..n] + b[n..];
    FeedAppend(s, b[..n], b[n..]);
    ReadWhole(s, b[..n]);
    var rest := Decoded(b[n..], false);
    assert out + (s.tail + b[..n] + rest.out) == out + s.tail + b[..n] + rest.out;
    assert [] + b[n..] == b[n..];
  }

  lemma ReadsStray(out: seq<Byte>, pend: seq<Byte>, broken: bool, b: seq<Byte>)
    requires b != [] && Announced(b[0]) < 0 && CharacterLength(b) == 0 && !CutCharacter(b)
    requires Reads(out, pend + [b[0]], true, b[1..])
    ensures Reads(out, pend, broken, b)
  {
    assert pend + [b[0]] + b[1..] == pend + b;
  }

  lemma ReadsBroken(out: seq<Byte>, pend: seq<Byte>, broken: bool, b: seq<Byte>, j: nat)
    requires b != [] && CharacterLength(b) == 0 && !CutCharacter(b)
    requires 1 <= j < |b| && !IsContinuation(b[j]) && forall k :: 1 <= k < j ==> Tail(b[k])
    requires Announced(b[0]) - (j - 1) > 0 && IsPartial(b[..j], Announced(b[0]) - (j - 1))
    requires Reads(out, pend + b[..j], true, b[j..])
    ensures Reads(out, pend, broken, b)
  {
    hide CharacterLength; hide CutCharacter; hide FeedAll; hide Decoded; hide IsPartial;
    DecodedGarbage(b, broken);
    var s := Between(out, pend, broken);
    assert b == b[..j] + b[j..];
    FeedAppend(s, b[..j], b[j..]);
    ReadCut(s, b[..j], Announced(b[0]) - (j - 1));
    Rejoins(out, pend + b[..j], s.tail + b[..j], Announced(b[0]) - (j - 1), b[j..]);
    Strays(b, 1, j);
    assert pend + b[..j] + b[j..] == pend + b;
  }

  /** A byte that breaks off a character is read as if nothing but a replacement had gone before. */
  lemma Rejoins(out: seq<Byte>, pend: seq<Byte>, tail: seq<Byte>, due: nat, b: seq<Byte>)
    requires 0 < due && b != [] && !IsContinuation(b[0])
    ensures FeedAll(State(out, pend, tail, due), b) == FeedAll(Between(out, pend, true), b)
  {
    assert Feed(State(out, pend, tail, due), b[0]) == Feed(Between(out, pend, true), b[0]);
  }

  lemma {:induction false} AutomatonDecodes(out: seq<Byte>, pend: seq<Byte>, broken: bool, b: seq<Byte>)
    ensures Reads(out, pend, broken, b)
    decreases |b|
  {
    hide Reads; hide CharacterLength; hide CutCharacter;
    var n := CharacterLength(b);
    if n > 0 {
      AutomatonDecodes(out + Between(out, pend, broken).tail + b[..n], [], false, b[n..]);
      ReadsCharacter(out, pend, broken, b, n);
    } else if b == [] || CutCharacter(b) {
      ReadsEnd(out, pend, broken, b);
    } else if Announced(b[0]) < 0 {
      AutomatonDecodes(out, pend + [b[0]], true, b[1..]);
      ReadsStray(out, pend, broken, b);
    } else {
      var j := BrokenOff(b);
      AutomatonDecodes(out, pend + b[..j], true, b[j..]);
      ReadsBroken(out, pend, broken, b, j);
    }
  }

  lemma ReadsEnd(out: seq<Byte>, pend: seq<Byte>, broken: bool, b: seq<Byte>)
    requires CharacterLength(b) == 0 && (b == [] || CutCharacter(b))
    ensures Reads(out, pend, broken, b)
  {
    assert out + [] == out;
    if b == [] {
      assert pend + [] == pend;
    } else {
      CutIs(b);
      var due: nat :| 0 < due && IsPartial(b, due);
      ReadCut(Between(out, pend, broken), b, due);
    }
  }

  /** For every stream of pieces, however malformed: the outputs together and the bytes kept at the end are those
      of the definition on all the bytes. */
  lemma StreamIsDecoded(pieces: seq<seq<Byte>>)
    ensures Stream(pieces) == Decoded(Join(pieces), false)
  {
    hide Stream; hide Join; hide Decoded; hide FeedAll;
    var b := Join(pieces);
    StreamingIsBatch(pieces);
    AutomatonDecodes([], [], false, b);
    assert [] + b == b && forall r: seq<Byte> :: [] + r == r;
    DecodedEnds(b, false);
  }

  lemma DecodedEnds(b: seq<Byte>, broken: bool)
    ensures Decoded(b, broken).out == [] ==> Decoded(b, broken).pend == b
  {
  }
}
