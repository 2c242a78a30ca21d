/** `Tokenizer::encode` (src/tokenizer.cpp): special tokens and single pieces first, then greedy
    merging of adjacent tokens in place. */
module BpeEncoder {
  import opened Common
  import opened Utf8Stream

  /** Merging below this score never happens. */
  const FLOOR := -10000000000.0

  /** `find` is the lookup in the sorted regular vocabulary, -1 when the string is not in it; the ids
      below `regular` are regular tokens, the others special. */
  datatype Vocabulary = Vocabulary(
    strings: seq<seq<Byte>>, scores: seq<real>, regular: nat, bosId: int, addBos: bool, find: seq<Byte> -> int)
  {
    ghost predicate Valid()
    {
      && |scores| == |strings| && regular <= |strings| && bosId < |strings|
      && (forall s :: find(s) == -1 || (0 <= find(s) < regular && strings[find(s)] == s))
      && (forall id :: 0 <= id < regular ==> find(strings[id]) != -1)
      && (forall id :: regular <= id < |strings| ==> strings[id] != [])
    }
  }

  type Tokens = seq<int>

  predicate Known(v: Vocabulary, toks: Tokens) { forall i :: 0 <= i < |toks| ==> 0 <= toks[i] < |v.strings| }

  /** The text a token sequence stands for. */
  function Concat(v: Vocabulary, toks: Tokens): seq<Byte>
    requires Known(v, toks)
  {
    if toks == [] then [] else Concat(v, toks[..|toks| - 1]) + v.strings[toks[|toks| - 1]]
  }

  lemma {:induction false} ConcatAppend(v: Vocabulary, a: Tokens, b: Tokens)
    requires Known(v, a) && Known(v, b)
    ensures Known(v, a + b) && Concat(v, a + b) == Concat(v, a) + Concat(v, b)
    decreases |b|
  {
    if b == [] {
      assert a + b == a;
    } else {
      assert (a + b)[..|a + b| - 1] == a + b[..|b| - 1];
      ConcatAppend(v, a, b[..|b| - 1]);
    }
  }

  // ---- Greedy merging -------------------------------------------------------------------------------

  /** The regular token the pair at `i` can merge into; -1 if there is none or its score is too low. */
  function MergeId(v: Vocabulary, toks: Tokens, i: nat): int
    requires v.Valid() && Known(v, toks) && i + 1 < |toks|
  {
    var id := v.find(v.strings[toks[i]] + v.strings[toks[i + 1]]);
    if id != -1 && v.scores[id] > FLOOR then id else -1
  }

  /** `i` is the first pair with the best score among the pairs before `n`. */
  predicate IsBest(v: Vocabulary, toks: Tokens, i: nat, n: nat)
    requires v.Valid() && Known(v, toks) && n + 1 <= |toks|
  {
    && i < n && MergeId(v, toks, i) != -1
    && (forall j :: 0 <= j < n && MergeId(v, toks, j) != -1 ==>
      v.scores[MergeId(v, toks, j)] <= v.scores[MergeId(v, toks, i)])
    && (forall j :: 0 <= j < i && MergeId(v, toks, j) != -1 ==>
      v.scores[MergeId(v, toks, j)] < v.scores[MergeId(v, toks, i)])
  }

  predicate NothingMerges(v: Vocabulary, toks: Tokens, n: nat)
    requires v.Valid() && Known(v, toks) && n + 1 <= |toks|
  {
    forall j :: 0 <= j < n ==> MergeId(v, toks, j) == -1
  }

  /** No two neighbours join to a regular string that scores above -1e10. */
  lemma NothingMergesMeans(v: Vocabulary, toks: Tokens)
    requires v.Valid() && Known(v, toks) && 0 < |toks|
    ensures NothingMerges(v, toks, |toks| - 1) <==> forall j :: 0 <= j < |toks| - 1 ==>
      var id := v.find(v.strings[toks[j]] + v.strings[toks[j + 1]]);
      id == -1 || v.scores[id] <= -10000000000.0
  {
    forall j | 0 <= j < |toks| - 1
      ensures MergeId(v, toks, j) == -1 <==>
        var id := v.find(v.strings[toks[j]] + v.strings[toks[j + 1]]);
        id == -1 || v.scores[id] <= -10000000000.0
    {
    }
  }

  function MergeAt(v: Vocabulary, toks: Tokens, i: nat): Tokens
    requires v.Valid() && Known(v, toks) && i + 1 < |toks|
  {
    toks[..i] + [MergeId(v, toks, i)] + toks[i + 2..]
  }

  /** One merge: replacing two adjacent tokens by the token of their joined string keeps the text. */
  lemma MergeKeepsText(v: Vocabulary, toks: Tokens, i: nat)
    requires v.Valid() && Known(v, toks) && i + 1 < |toks| && MergeId(v, toks, i) != -1
    ensures Known(v, MergeAt(v, toks, i)) && Concat(v, MergeAt(v, toks, i)) == Concat(v, toks)
  {
    var a, b := toks[..i], toks[i + 2..];
    assert toks == a + [toks[i]] + [toks[i + 1]] + b;
    ReplacePair(v, a, toks[i], toks[i + 1], b, MergeId(v, toks, i));
  }

  lemma ReplacePair(v: Vocabulary, a: Tokens, x: int, y: int, b: Tokens, id: int)
    requires Known(v, a) && Known(v, b) && 0 <= x < |v.strings| && 0 <= y < |v.strings| && 0 <= id < |v.strings|
    requires v.strings[id] == v.strings[x] + v.strings[y]
    ensures Known(v, a + [id] + b) && Known(v, a + [x] + [y] + b)
    ensures Concat(v, a + [id] + b) == Concat(v, a + [x] + [y] + b)
  {
    hide Concat;
    PushText(v, a, x);
    PushText(v, a + [x], y);
    ConcatAppend(v, a + [x] + [y], b);
    PushText(v, a, id);
    ConcatAppend(v, a + [id], b);
  }

  /** A greedy merge history: each step merges the first best pair. */
  ghost predicate Merges(v: Vocabulary, history: seq<Tokens>)
    requires v.Valid()
  {
    && history != []
    && (forall k :: 0 <= k < |history| ==> Known(v, history[k]))
    && (forall k :: 0 <= k < |history| - 1 ==> MergesInto(v, history[k], history[k + 1]))
  }

  ghost predicate MergesInto(v: Vocabulary, a: Tokens, b: Tokens)
    requires v.Valid() && Known(v, a)
  {
    exists i: nat :: i + 1 < |a| && IsBest(v, a, i, |a| - 1) && b == MergeAt(v, a, i)
  }

  /** The greedy result is determined by the start: two complete histories end alike. */
  lemma {:induction false} GreedyIsDeterministic(v: Vocabulary, h: seq<Tokens>, h': seq<Tokens>, n: nat)
    requires v.Valid() && Merges(v, h) && Merges(v, h') && h[0] == h'[0] && n < |h|
    requires var end := h'[|h'| - 1]; end != [] ==> NothingMerges(v, end, |end| - 1)
    ensures n < |h'| && h[n] == h'[n]
    decreases n
  {
    if n > 0 {
      GreedyIsDeterministic(v, h, h', n - 1);
      assert MergesInto(v, h[n - 1], h[n - 1 + 1]) && MergesInto(v, h'[n - 1], h'[n - 1 + 1]);
      MergesAlike(v, h[n - 1], h[n], h'[n]);
    }
  }

  lemma MergesAlike(v: Vocabulary, a: Tokens, b: Tokens, b': Tokens)
    requires v.Valid() && Known(v, a) && MergesInto(v, a, b) && MergesInto(v, a, b')
    ensures b == b'
  {
    hide MergeAt; hide MergeId;
    var i: nat :| i + 1 < |a| && IsBest(v, a, i, |a| - 1) && b == MergeAt(v, a, i);
    var i': nat :| i' + 1 < |a| && IsBest(v, a, i', |a| - 1) && b' == MergeAt(v, a, i');
  }

  /** A merge step joins the first of the best-scoring pairs that join to a regular string above -1e10. */
  lemma MergeStepMeans(v: Vocabulary, a: Tokens, b: Tokens) returns (i: nat, id: int)
    requires v.Valid() && Known(v, a) && MergesInto(v, a, b)
    ensures i + 1 < |a| && id == v.find(v.strings[a[i]] + v.strings[a[i + 1]]) != -1 && v.scores[id] > -10000000000.0
    ensures b == a[..i] + [id] + a[i + 2..]
    ensures forall j :: 0 <= j < |a| - 1 ==>
      var other := v.find(v.strings[a[j]] + v.strings[a[j + 1]]);
      other == -1 || v.scores[other] < v.scores[id] || (v.scores[other] == v.scores[id] && i <= j)
  {
    i :| i + 1 < |a| && IsBest(v, a, i, |a| - 1) && b == MergeAt(v, a, i);
    id := MergeId(v, a, i);
    forall j | 0 <= j < |a| - 1
      ensures var other := v.find(v.strings[a[j]] + v.strings[a[j + 1]]);
        other == -1 || v.scores[other] < v.scores[id] || (v.scores[other] == v.scores[id] && i <= j)
    {
      if MergeId(v, a, j) != -1 { assert j < i ==> v.scores[MergeId(v, a, j)] < v.scores[id]; }
    }
  }

  lemma AfterMerge(v: Vocabulary, toks: Tokens, i: nat)
    requires v.Valid() && Known(v, toks) && i + 1 < |toks| && IsBest(v, toks, i, |toks| - 1)
    ensures MergesInto(v, toks, MergeAt(v, toks, i))
  {
  }

  // ---- Encoding ----------------------------------------------------------------------------------------

  /** Special token `id` starts the text at `at`. */
  predicate StartsAt(v: Vocabulary, text: seq<Byte>, at: nat, id: nat)
    requires id < |v.strings| && at <= |text|
  {
    |v.strings[id]| <= |text| - at && text[at..at + |v.strings[id]|] == v.strings[id]
  }

  /** The first special token from id `s` on that starts the text at `at`, or -1. */
  function SpecialFrom(v: Vocabulary, text: seq<Byte>, at: nat, s: nat): (id: int)
    requires at <= |text| && s <= |v.strings|
    ensures id == -1 ==> forall t: nat :: s <= t < |v.strings| ==> !StartsAt(v, text, at, t)
    ensures id != -1 ==> s <= id < |v.strings| && StartsAt(v, text, at, id) && forall t: nat :: s <= t < id ==>
      !StartsAt(v, text, at, t)
    decreases |v.strings| - s
  {
    if s == |v.strings| then -1 else if StartsAt(v, text, at, s) then s else SpecialFrom(v, text, at, s + 1)
  }

  function Special(v: Vocabulary, text: seq<Byte>, at: nat, on: bool): int
    requires v.Valid() && at <= |text|
  {
    if on then SpecialFrom(v, text, at, v.regular) else -1
  }

  function Cons(t: int, rest: Option<Tokens>): Option<Tokens>
  {
    if rest.Some? then Some([t] + rest.value) else None
  }

  /** The pieces of the text from `at` on when `buffer` holds the bytes since the last piece. There are
      none when the buffer gets full or bytes are left over, where the source's assertions fail. */
  function PiecesFrom(v: Vocabulary, text: seq<Byte>, at: nat, buffer: seq<Byte>, on: bool,
    bufferSize: nat): Option<Tokens>
    requires v.Valid() && at <= |text|
    decreases |text| - at
  {
    if at == |text| then (if buffer == [] then Some([]) else None)
    else
      var special := Special(v, text, at, on);
      if special != -1 then
        Cons(special, PiecesFrom(v, text, at + |v.strings[special]|, buffer, on, bufferSize))
      else
        var piece := buffer + [text[at]];
        if |piece| >= bufferSize then None
        else if v.find(piece) != -1 then Cons(v.find(piece), PiecesFrom(v, text, at + 1, [], on, bufferSize))
        else PiecesFrom(v, text, at + 1, piece, on, bufferSize)
  }

  /** Every piece is a token and takes at least one byte. */
  lemma {:induction false} PiecesAreKnown(
      v: Vocabulary, text: seq<Byte>, at: nat, buffer: seq<Byte>, on: bool, bufferSize: nat)
    requires v.Valid() && at <= |text|
    ensures var p := PiecesFrom(v, text, at, buffer, on, bufferSize);
      p.Some? ==> Known(v, p.value) && |p.value| <= |text| - at
    decreases |text| - at
  {
    if at < |text| {
      var special := Special(v, text, at, on);
      if special != -1 {
        PiecesAreKnown(v, text, at + |v.strings[special]|, buffer, on, bufferSize);
      } else {
        PiecesAreKnown(v, text, at + 1, [], on, bufferSize);
        PiecesAreKnown(v, text, at + 1, buffer + [text[at]], on, bufferSize);
      }
    }
  }

  /** Every byte of the text is a regular token by itself. */
  predicate BytesRegular(v: Vocabulary, text: seq<Byte>) { forall i :: 0 <= i < |text| ==> v.find([text[i]]) != -1 }

  /** No special token starts while bytes are buffered. */
  predicate Unbroken(v: Vocabulary, text: seq<Byte>, at: nat, buffer: seq<Byte>, on: bool)
    requires v.Valid() && at <= |text|
    decreases |text| - at
  {
    if at == |text| then true
    else
      var special := Special(v, text, at, on);
      if special != -1 then buffer == [] && Unbroken(v, text, at + |v.strings[special]|, [], on)
      else
        var piece := buffer + [text[at]];
        Unbroken(v, text, at + 1, if v.find(piece) != -1 then [] else piece, on)
  }

  lemma {:induction false} BytesAreUnbroken(v: Vocabulary, text: seq<Byte>, at: nat, buffer: seq<Byte>, on: bool)
    requires v.Valid() && at <= |text| && (!on || (BytesRegular(v, text) && buffer == []))
    ensures Unbroken(v, text, at, buffer, on)
    decreases |text| - at
  {
    if at < |text| {
      var special := Special(v, text, at, on);
      if special != -1 {
        BytesAreUnbroken(v, text, at + |v.strings[special]|, [], on);
      } else {
        var piece := buffer + [text[at]];
        assert buffer == [] ==> piece == [text[at]];
        BytesAreUnbroken(v, text, at + 1, if v.find(piece) != -1 then [] else piece, on);
      }
    }
  }

  /** Special tokens start with a byte that is a regular token by itself, so no unfinished piece starts with it. */
  predicate SpecialsApart(v: Vocabulary)
    requires v.Valid()
  {
    forall id :: v.regular <= id < |v.strings| ==> v.find([v.strings[id][0]]) != -1
  }

  lemma SpecialFirst(v: Vocabulary, text: seq<Byte>, at: nat, on: bool)
    requires v.Valid() && at <= |text| && Special(v, text, at, on) != -1
    ensures var id := Special(v, text, at, on);
      && v.regular <= id < |v.strings| && v.strings[id] != [] && at + |v.strings[id]| <= |text|
      && text[at..] == v.strings[id] + text[at + |v.strings[id]|..]
      && (SpecialsApart(v) ==> v.find([v.strings[id][0]]) != -1)
  {
  }

  /** The loop's round on a byte where no special token starts. */
  lemma ByteStep(v: Vocabulary, text: seq<Byte>, at: nat, buffer: seq<Byte>, on: bool, bufferSize: nat)
    requires v.Valid() && at < |text| && PiecesFrom(v, text, at, buffer, on, bufferSize).Some?
    requires Special(v, text, at, on) == -1
    ensures var piece := buffer + [text[at]];
      && buffer + text[at..] == piece + text[at + 1..] && [] + text[at + 1..] == text[at + 1..]
      && Unbroken(v, text, at, buffer, on) == Unbroken(v, text, at + 1, if v.find(piece) != -1 then [] else piece, on)
      && (v.find(piece) == -1 && (buffer != [] ==> v.find([buffer[0]]) == -1) ==> v.find([piece[0]]) == -1)
      && PiecesFrom(v, text, at, buffer, on, bufferSize) == (if v.find(piece) != -1
          then Cons(v.find(piece), PiecesFrom(v, text, at + 1, [], on, bufferSize))
            else PiecesFrom(v, text, at + 1, piece, on, bufferSize))
  {
    hide Special;
    var piece := buffer + [text[at]];
    assert buffer == [] ==> piece == [piece[0]];
    assert buffer != [] ==> piece[0] == buffer[0];
  }

  /** The pieces make up the text, when no special token starts behind an unfinished piece. */
  lemma {:induction false} PiecesKeepText(
      v: Vocabulary, text: seq<Byte>, at: nat, buffer: seq<Byte>, on: bool, bufferSize: nat)
    requires v.Valid() && at <= |text| && PiecesFrom(v, text, at, buffer, on, bufferSize).Some?
    requires Unbroken(v, text, at, buffer, on)
    ensures var toks := PiecesFrom(v, text, at, buffer, on, bufferSize).value;
      Known(v, toks) && Concat(v, toks) == buffer + text[at..]
    decreases |text| - at
  {
    hide Concat; hide Known; hide Special;
    if at == |text| {
      NoTokens(v);
    } else if Special(v, text, at, on) != -1 {
      SpecialFirst(v, text, at, on);
      var s := v.strings[Special(v, text, at, on)];
      PiecesKeepText(v, text, at + |s|, [], on, bufferSize);
      ConsText(v, Special(v, text, at, on), PiecesFrom(v, text, at + |s|, [], on, bufferSize).value);
      assert [] + text[at..] == text[at..] && [] + text[at + |s|..] == text[at + |s|..];
    } else {
      ByteStep(v, text, at, buffer, on, bufferSize);
      var piece := buffer + [text[at]];
      if v.find(piece) != -1 {
        PiecesKeepText(v, text, at + 1, [], on, bufferSize);
        ConsText(v, v.find(piece), PiecesFrom(v, text, at + 1, [], on, bufferSize).value);
      } else {
        PiecesKeepText(v, text, at + 1, piece, on, bufferSize);
      }
    }
  }

  lemma OtherFirst(s: seq<Byte>, a: seq<Byte>, buffer: seq<Byte>, b: seq<Byte>)
    requires s != [] && buffer != [] && s[0] != buffer[0]
    ensures s + a != buffer + b
  {
    assert (s + a)[0] == s[0] && (buffer + b)[0] == buffer[0];
  }

  /** A special token behind an unfinished piece comes out before it, so the text is not kept. */
  lemma {:induction false} BrokenLosesText(
      v: Vocabulary, text: seq<Byte>, at: nat, buffer: seq<Byte>, on: bool, bufferSize: nat)
    requires v.Valid() && at <= |text| && PiecesFrom(v, text, at, buffer, on, bufferSize).Some? && SpecialsApart(v)
    requires !Unbroken(v, text, at, buffer, on) && (buffer != [] ==> v.find([buffer[0]]) == -1)
    ensures var toks := PiecesFrom(v, text, at, buffer, on, bufferSize).value;
      Known(v, toks) && Concat(v, toks) != buffer + text[at..]
    decreases |text| - at
  {
    hide Concat; hide Known; hide Special; hide SpecialsApart;
    PiecesAreKnown(v, text, at, buffer, on, bufferSize);
    var special := Special(v, text, at, on);
    if special != -1 {
      SpecialFirst(v, text, at, on);
      var s := v.strings[special];
      var rest := PiecesFrom(v, text, at + |s|, buffer, on, bufferSize).value;
      PiecesAreKnown(v, text, at + |s|, buffer, on, bufferSize);
      ConsText(v, special, rest);
      if buffer != [] {
        OtherFirst(s, Concat(v, rest), buffer, text[at..]);
      } else {
        BrokenLosesText(v, text, at + |s|, buffer, on, bufferSize);
        SameHead(s, Concat(v, rest), text[at + |s|..]);
        assert buffer + text[at..] == text[at..] && buffer + text[at + |s|..] == text[at + |s|..];
      }
    } else {
      ByteStep(v, text, at, buffer, on, bufferSize);
      var piece := buffer + [text[at]];
      if v.find(piece) != -1 {
        var rest := PiecesFrom(v, text, at + 1, [], on, bufferSize).value;
        BrokenLosesText(v, text, at + 1, [], on, bufferSize);
        ConsText(v, v.find(piece), rest);
        SameHead(piece, Concat(v, rest), text[at + 1..]);
      } else {
        BrokenLosesText(v, text, at + 1, piece, on, bufferSize);
      }
    }
  }

  lemma SameHead(s: seq<Byte>, a: seq<Byte>, b: seq<Byte>)
    ensures s + a == s + b <==> a == b
  {
    assert (s + a)[|s|..] == a && (s + b)[|s|..] == b;
  }

  /** "ab" is the only regular token and "X" the special one. */
  function TwoTokens(): Vocabulary
  {
    Vocabulary([[97, 98], [88]], [0.0, 0.0], 1, -1, false, s => if s == [97, 98] then 0 else -1)
  }

  const AXB: seq<Byte> := [97, 88, 98]

  lemma TwoTokensSpecials()
    ensures var v := TwoTokens();
      && v.Valid() && v.strings[1] == [88] && Special(v, AXB, 0, true) == -1 && Special(v, AXB, 1, true) == 1
        && Special(v, AXB, 2, true) == -1
      && v.find([97]) == -1 && v.find([97, 98]) == 0
  {
    var v := TwoTokens();
    assert AXB[0..1] == [97] && AXB[1..2] == [88] && AXB[2..3] == [98];
    assert !StartsAt(v, AXB, 0, 1) && StartsAt(v, AXB, 1, 1) && !StartsAt(v, AXB, 2, 1);
  }

  lemma LastStep()
    ensures TwoTokens().Valid() && PiecesFrom(TwoTokens(), AXB, 2, [97], true, 9) == Some([0])
  {
    hide Special;
    TwoTokensSpecials();
    assert PiecesFrom(TwoTokens(), AXB, 3, [], true, 9) == Some([]);
    assert [97] + [AXB[2]] == [97, 98] && [0] + [] == [0];
  }

  /** An input: "aXb" comes out as "X" and "ab". */
  lemma BrokenExample()
    ensures var v := TwoTokens();
      && v.Valid() && PiecesFrom(v, AXB, 0, [], true, 9) == Some([1, 0])
      && Known(v, [1, 0]) && Concat(v, [1, 0]) == [88, 97, 98] != AXB
  {
    hide Special; hide Concat;
    var v := TwoTokens();
    TwoTokensSpecials();
    LastStep();
    assert [1] + [0] == [1, 0] && [0] + [] == [0] && [] + [AXB[0]] == [97];
    assert PiecesFrom(v, AXB, 1, [97], true, 9) == Some([1, 0]);
    NoTokens(v);
    ConsText(v, 0, []);
    ConsText(v, 1, [0]);
  }

  /** Where a special token starts, the first of them comes next, whatever is buffered. */
  lemma SpecialComesNext(
      v: Vocabulary, text: seq<Byte>, at: nat, buffer: seq<Byte>, bufferSize: nat, id: nat)
    requires v.Valid() && at < |text| && PiecesFrom(v, text, at, buffer, true, bufferSize).Some?
    requires v.regular <= id < |v.strings| && StartsAt(v, text, at, id)
    requires forall t: nat :: v.regular <= t < id ==> !StartsAt(v, text, at, t)
    ensures var p := PiecesFrom(v, text, at, buffer, true, bufferSize).value;
      p != [] && p[0] == id
  {
  }

  /** Where none starts before, the next piece is the shortest regular string the text goes on with, and it is
      shorter than the buffer. */
  lemma {:induction false} ShortestComesNext(
      v: Vocabulary, text: seq<Byte>, at: nat, n: nat, buffer: seq<Byte>, on: bool, bufferSize: nat)
    requires v.Valid() && at < n <= |text| && PiecesFrom(v, text, at, buffer, on, bufferSize).Some?
    requires forall i, id: nat :: at <= i < n && v.regular <= id < |v.strings| && on ==> !StartsAt(v, text, i, id)
    requires v.find(buffer + text[at..n]) != -1
    requires forall i :: at < i < n ==> v.find(buffer + text[at..i]) == -1
    ensures var p := PiecesFrom(v, text, at, buffer, on, bufferSize).value;
      p != [] && p[0] == v.find(buffer + text[at..n]) && |buffer| + (n - at) < bufferSize
    decreases n - at
  {
    var piece := buffer + [text[at]];
    assert buffer + text[at..at + 1] == piece;
    if at + 1 < n {
      var next := at + 1;
      forall i | next <= i <= n ensures piece + text[next..i] == buffer + text[at..i] {
        assert text[at..i] == [text[at]] + text[next..i];
      }
      forall i | next < i < n ensures v.find(piece + text[next..i]) == -1 {
        assert v.find(buffer + text[at..i]) == -1;
      }
      ShortestComesNext(v, text, next, n, piece, on, bufferSize);
    }
  }

  /** A text of regular bytes is always cut into pieces. */
  lemma {:induction false} BytesAreCut(v: Vocabulary, text: seq<Byte>, at: nat, on: bool, bufferSize: nat)
    requires v.Valid() && at <= |text| && 1 < bufferSize && BytesRegular(v, text)
    ensures PiecesFrom(v, text, at, [], on, bufferSize).Some?
    decreases |text| - at
  {
    if at < |text| {
      var special := Special(v, text, at, on);
      assert [] + [text[at]] == [text[at]];
      BytesAreCut(v, text, if special != -1 then at + |v.strings[special]| else at + 1, on, bufferSize);
    }
  }

  lemma NoTokens(v: Vocabulary)
    ensures Known(v, []) && Concat(v, []) == []
  {
  }

  lemma ConsText(v: Vocabulary, t: int, toks: Tokens)
    requires Known(v, toks) && 0 <= t < |v.strings|
    ensures Known(v, [t] + toks) && Concat(v, [t] + toks) == v.strings[t] + Concat(v, toks)
  {
    ConcatAppend(v, [t], toks);
  }

  /** The begin token, if the text starts a sequence and the tokenizer adds one. */
  function Begin(v: Vocabulary, isStart: bool): Tokens
  {
    if isStart && v.addBos && v.bosId >= 0 then [v.bosId] else []
  }

  function Prefix(v: Vocabulary, isStart: bool): seq<Byte>
  {
    if isStart && v.addBos && 0 <= v.bosId < |v.strings| then v.strings[v.bosId] else []
  }

  /** With the begin token in front, the pieces make up the begin string and the text. */
  lemma BeginText(v: Vocabulary, text: seq<Byte>, isStart: bool, on: bool, bufferSize: nat)
    requires v.Valid() && PiecesFrom(v, text, 0, [], on, bufferSize).Some?
    ensures var toks := Begin(v, isStart) + PiecesFrom(v, text, 0, [], on, bufferSize).value;
      Known(v, toks) && |toks| <= |text| + 1
      && (Unbroken(v, text, 0, [], on) ==> Concat(v, toks) == Prefix(v, isStart) + text)
      && (SpecialsApart(v) && !Unbroken(v, text, 0, [], on) ==> Concat(v, toks) != Prefix(v, isStart) + text)
  {
    hide Concat; hide Unbroken; hide SpecialsApart;
    var toks := PiecesFrom(v, text, 0, [], on, bufferSize).value;
    PiecesAreKnown(v, text, 0, [], on, bufferSize);
    assert [] + text[0..] == text && [] + toks == toks && [] + text == text;
    if Unbroken(v, text, 0, [], on) {
      PiecesKeepText(v, text, 0, [], on, bufferSize);
    } else if SpecialsApart(v) {
      BrokenLosesText(v, text, 0, [], on, bufferSize);
    }
    if Begin(v, isStart) != [] {
      ConsText(v, v.bosId, toks);
      SameHead(Prefix(v, isStart), Concat(v, toks), text);
    }
  }

  /** `rest` is what is left to append to `toks` of the pieces `all`. */
  predicate OnTrack(begin: Tokens, all: Option<Tokens>, toks: Tokens, rest: Option<Tokens>)
  {
    (all.Some? <==> rest.Some?) && (all.Some? ==> begin + all.value == toks + rest.value)
  }

  lemma SpecialIs(v: Vocabulary, text: seq<Byte>, at: nat, on: bool)
    requires v.Valid() && at <= |text|
    ensures Special(v, text, at, on) == if on then SpecialFrom(v, text, at, v.regular) else -1
    ensures Special(v, text, at, on) != -1 ==>
      0 <= Special(v, text, at, on) < |v.strings| && v.strings[Special(v, text, at, on)] != []
  {
  }

  lemma TrackSpecial(
      v: Vocabulary, text: seq<Byte>, c: nat, buffer: seq<Byte>, on: bool, bufferSize: nat, begin: Tokens,
      all: Option<Tokens>, toks: Tokens)
    requires v.Valid() && c < |text| && Special(v, text, c, on) != -1
    requires OnTrack(begin, all, toks, PiecesFrom(v, text, c, buffer, on, bufferSize))
    ensures var s := Special(v, text, c, on);
      c + |v.strings[s]| <= |text|
        && OnTrack(begin, all, toks + [s], PiecesFrom(v, text, c + |v.strings[s]|, buffer, on, bufferSize))
  {
  }

  lemma TrackByte(
      v: Vocabulary, text: seq<Byte>, c: nat, buffer: seq<Byte>, on: bool, bufferSize: nat, begin: Tokens,
      all: Option<Tokens>, toks: Tokens)
    requires v.Valid() && c < |text| && Special(v, text, c, on) == -1
    requires OnTrack(begin, all, toks, PiecesFrom(v, text, c, buffer, on, bufferSize))
    ensures var piece := buffer + [text[c]];
      if |piece| >= bufferSize then all.None?
      else if v.find(piece) != -1
        then OnTrack(begin, all, toks + [v.find(piece)], PiecesFrom(v, text, c + 1, [], on, bufferSize))
      else OnTrack(begin, all, toks, PiecesFrom(v, text, c + 1, piece, on, bufferSize))
  {
  }

  lemma TrackEnd(
      v: Vocabulary, text: seq<Byte>, buffer: seq<Byte>, on: bool, bufferSize: nat, begin: Tokens,
      all: Option<Tokens>, toks: Tokens)
    requires v.Valid() && OnTrack(begin, all, toks, PiecesFrom(v, text, |text|, buffer, on, bufferSize))
    ensures all.Some? <==> buffer == []
    ensures all.Some? ==> begin + all.value == toks
  {
    assert toks + [] == toks;
  }

  class Encoder {
    const v: Vocabulary

    constructor (v: Vocabulary) ensures this.v == v { this.v := v; }

    /** `findSpecialTokenStartWith`: the first special token that starts the text here, or -1. */
    method FindSpecial(text: seq<Byte>, at: nat) returns (id: int)
      requires v.Valid() && at <= |text|
      ensures id == SpecialFrom(v, text, at, v.regular)
    {
      for s := v.regular to |v.strings|
        invariant forall s': nat :: v.regular <= s' < s ==> !StartsAt(v, text, at, s')
      {
        if StartsAt(v, text, at, s) { return s; }
      }
      return -1;
    }

    /** The first loop: `ok` is false where the source's assertions fail. */
    method Pieces(text: seq<Byte>, tokens: array<int>, addSpecialTokens: bool, isStart: bool, bufferSize: nat)
      returns (ok: bool, n: nat)
      requires v.Valid() && |text| + 1 <= tokens.Length
      modifies tokens
      ensures ok <==> PiecesFrom(v, text, 0, [], addSpecialTokens, bufferSize).Some?
      ensures ok ==> n <= tokens.Length
      ensures ok ==>
        tokens[..n] == Begin(v, isStart) + PiecesFrom(v, text, 0, [], addSpecialTokens, bufferSize).value
    {
      hide PiecesFrom; hide Special; hide SpecialFrom; hide StartsAt;
      ghost var begin, all := Begin(v, isStart), PiecesFrom(v, text, 0, [], addSpecialTokens, bufferSize);
      n := 0;
      if isStart && v.addBos && v.bosId >= 0 { tokens[0], n := v.bosId, 1; }
      var strBuffer: seq<Byte> := [];
      var c := 0;
      while c < |text|
        invariant c <= |text| && n <= c + 1
        invariant OnTrack(begin, all, tokens[..n], PiecesFrom(v, text, c, strBuffer, addSpecialTokens, bufferSize))
        decreases |text| - c
      {
        ghost var was := tokens[..n];
        var special := -1;
        if addSpecialTokens { special := FindSpecial(text, c); }
        SpecialIs(v, text, c, addSpecialTokens);
        if special >= 0 {
          TrackSpecial(v, text, c, strBuffer, addSpecialTokens, bufferSize, begin, all, was);
          tokens[n], n := special, n + 1;
          c := c + |v.strings[special]|;
          assert tokens[..n] == was + [special];
        } else {
          TrackByte(v, text, c, strBuffer, addSpecialTokens, bufferSize, begin, all, was);
          strBuffer := strBuffer + [text[c]];
          c := c + 1;
          if |strBuffer| >= bufferSize { return false, n; }
          var id := v.find(strBuffer);
          if id != -1 {
            tokens[n], n := id, n + 1;
            strBuffer := [];
            assert tokens[..n] == was + [id];
          }
        }
      }
      TrackEnd(v, text, strBuffer, addSpecialTokens, bufferSize, begin, all, tokens[..n]);
      ok := |strBuffer| == 0;
    }

    /** The first best pair, found in one pass. */
    method FindBest(tokens: array<int>, n: nat) returns (bestIdx: int, bestId: int)
      requires v.Valid() && n <= tokens.Length && Known(v, tokens[..n])
      ensures bestIdx == -1 && n > 0 ==> NothingMerges(v, tokens[..n], n - 1)
      ensures bestIdx != -1 ==>
        0 <= bestIdx < n - 1 && IsBest(v, tokens[..n], bestIdx, n - 1) && bestId == MergeId(v, tokens[..n], bestIdx)
    {
      var bestScore := FLOOR;
      bestIdx, bestId := -1, -1;
      var i := 0;
      while i < n - 1
        invariant 0 < n ==> i <= n - 1
        invariant bestIdx == -1 ==> bestScore == FLOOR && (i < n ==> NothingMerges(v, tokens[..n], i))
        invariant bestIdx != -1 ==> 0 <= bestIdx < i < n && IsBest(v, tokens[..n], bestIdx, i)
        invariant bestIdx != -1 ==> bestId == MergeId(v, tokens[..n], bestIdx) && bestScore == v.scores[bestId]
      {
        assert tokens[..n][i] == tokens[i] && tokens[..n][i + 1] == tokens[i + 1];
        var id := v.find(v.strings[tokens[i]] + v.strings[tokens[i + 1]]);
        if id != -1 && v.scores[id] > bestScore { bestScore, bestId, bestIdx := v.scores[id], id, i; }
        i := i + 1;
      }
    }

    /** The merge loop: it ends, its steps are greedy merges, and nothing that scores above the floor is left to
        merge. */
    method MergeAll(tokens: array<int>, n0: nat) returns (n: nat, ghost history: seq<Tokens>)
      requires v.Valid() && n0 <= tokens.Length && Known(v, tokens[..n0])
      modifies tokens
      ensures n <= n0 && Known(v, tokens[..n]) && Concat(v, tokens[..n]) == Concat(v, old(tokens[..n0]))
      ensures n > 0 ==> NothingMerges(v, tokens[..n], n - 1)
      ensures Merges(v, history) && history[0] == old(tokens[..n0]) && history[|history| - 1] == tokens[..n]
    {
      hide Concat; hide MergesInto;
      n := n0;
      history := [tokens[..n]];
      while true
        invariant n <= n0 && Known(v, tokens[..n]) && Concat(v, tokens[..n]) == Concat(v, old(tokens[..n0]))
        invariant Merges(v, history) && history[0] == old(tokens[..n0]) && history[|history| - 1] == tokens[..n]
        decreases n
      {
        var bestIdx, bestId := FindBest(tokens, n);
        if bestIdx == -1 { break; }
        ghost var before := tokens[..n];
        MergeKeepsText(v, before, bestIdx);
        MergePair(tokens, bestIdx, bestId, n);
        n := n - 1;
        AfterMerge(v, before, bestIdx);
        history := history + [tokens[..n]];
      }
    }

    method MergePair(tokens: array<int>, bestIdx: nat, bestId: int, n: nat)
      requires v.Valid() && bestIdx + 1 < n <= tokens.Length && Known(v, tokens[..n])
        && bestId == MergeId(v, tokens[..n], bestIdx)
      modifies tokens
      ensures tokens[..n - 1] == MergeAt(v, old(tokens[..n]), bestIdx)
    {
      tokens[bestIdx] := bestId;
      ShiftLeft(tokens, bestIdx + 1, n);
    }

    /** Deletes the token at `at`. */
    method ShiftLeft(tokens: array<int>, at: nat, n: nat)
      requires at < n <= tokens.Length
      modifies tokens
      ensures forall k :: 0 <= k < tokens.Length ==>
        tokens[k] == if at <= k < n - 1 then old(tokens[k + 1]) else old(tokens[k])
    {
      for i := at to n - 1
        invariant forall k :: 0 <= k < tokens.Length ==>
          tokens[k] == if at <= k < i then old(tokens[k + 1]) else old(tokens[k])
      {
        tokens[i] := tokens[i + 1];
      }
    }

    /** `encode`: the output is where greedy merging of the pieces ends, and no adjacent pair is left to merge.
        Its strings join to the begin string and the text exactly when no special token starts behind an
        unfinished piece (the other half for special tokens that no unfinished piece can be confused with). */
    method Encode(text: seq<Byte>, tokens: array<int>, isStart: bool, addSpecialTokens: bool, bufferSize: nat)
        returns (ok: bool, n: nat, ghost history: seq<Tokens>)
      requires v.Valid() && |text| + 1 <= tokens.Length
      modifies tokens
      ensures ok <==> PiecesFrom(v, text, 0, [], addSpecialTokens, bufferSize).Some?
      ensures 1 < bufferSize && BytesRegular(v, text) ==> ok
      ensures ok ==> n <= tokens.Length && Known(v, tokens[..n])
      ensures ok ==> forall j :: 0 <= j < n - 1 ==>
        var id := v.find(v.strings[tokens[j]] + v.strings[tokens[j + 1]]);
        id == -1 || v.scores[id] <= -10000000000.0
      ensures !addSpecialTokens || BytesRegular(v, text) ==> Unbroken(v, text, 0, [], addSpecialTokens)
      ensures ok && Unbroken(v, text, 0, [], addSpecialTokens) ==> Concat(v, tokens[..n]) == Prefix(v, isStart) + text
      ensures ok && SpecialsApart(v) && !Unbroken(v, text, 0, [], addSpecialTokens) ==>
        Concat(v, tokens[..n]) != Prefix(v, isStart) + text
      ensures ok ==> Merges(v, history) && history[|history| - 1] == tokens[..n]
      ensures ok ==>
        var bos := if isStart && v.addBos && v.bosId >= 0 then [v.bosId] else [];
        history[0] == bos + PiecesFrom(v, text, 0, [], addSpecialTokens, bufferSize).value
    {
      hide Merges; hide NothingMerges; hide Concat; hide Known; hide PiecesFrom; hide Unbroken; hide SpecialsApart;
      if !addSpecialTokens || BytesRegular(v, text) { BytesAreUnbroken(v, text, 0, [], addSpecialTokens); }
      history := [];
      ok, n := Pieces(text, tokens, addSpecialTokens, isStart, bufferSize);
      if 1 < bufferSize && BytesRegular(v, text) { BytesAreCut(v, text, 0, addSpecialTokens, bufferSize); }
      if !ok { return; }
      BeginText(v, text, isStart, addSpecialTokens, bufferSize);
      n, history := MergeAll(tokens, n);
      if n > 0 { NothingMergesMeans(v, tokens[..n]); }
    }
  }

  lemma PushText(v: Vocabulary, toks: Tokens, t: int)
    requires Known(v, toks) && 0 <= t < |v.strings|
    ensures Known(v, toks + [t]) && Concat(v, toks + [t]) == Concat(v, toks) + v.strings[t]
  {
    ConcatAppend(v, toks, [t]);
  }
}
