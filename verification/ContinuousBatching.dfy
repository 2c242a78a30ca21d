/** The continuous-batching decode loop of src/dllama.cpp: rounds that pick up to `maxActive`
    unfinished requests, resuming after the last one picked. */
module ContinuousBatching {
  import opened Common

  datatype Request = Request(token: int, pos: nat, maxPos: nat, finished: bool)

  predicate Runnable(r: Request) { !r.finished && r.pos < r.maxPos }

  /** A request before decoding: its prompt but the last token is prefilled. */
  predicate Fresh(r: Request) { !r.finished && r.pos < r.maxPos }

  predicate Sound(reqs: seq<Request>)
  { forall q :: 0 <= q < |reqs| && !reqs[q].finished ==> reqs[q].pos < reqs[q].maxPos }

  // ---- One round --------------------------------------------------------------------------------

  function Slot(n: nat, cursor: nat, i: nat): nat
    requires 0 < n
  {
    (cursor + i) % n
  }

  /** The picks from the `i`-th place after the cursor on, as long as there is room. */
  function Picks(reqs: seq<Request>, cursor: nat, i: nat, room: nat): (p: seq<nat>)
    requires 0 < |reqs| && i <= |reqs|
    ensures |p| <= room && |p| <= |reqs| - i
    ensures forall k :: 0 <= k < |p| ==> p[k] < |reqs| && Runnable(reqs[p[k]])
    decreases |reqs| - i
  {
    if i == |reqs| || room == 0 then []
    else if Runnable(reqs[Slot(|reqs|, cursor, i)])
      then [Slot(|reqs|, cursor, i)] + Picks(reqs, cursor, i + 1, room - 1)
    else Picks(reqs, cursor, i + 1, room)
  }

  /** One sampled token for a picked request. */
  function ServeOne(r: Request, token: int, isEos: int -> bool): Request
  {
    Request(token, r.pos + 1, r.maxPos, r.finished || isEos(token) || r.pos + 1 >= r.maxPos)
  }

  function Serve(reqs: seq<Request>, picked: seq<nat>, tokens: seq<int>, isEos: int -> bool, n: nat): (r: seq<Request>)
    requires n <= |picked| <= |tokens| && forall k :: 0 <= k < |picked| ==> picked[k] < |reqs|
    ensures |r| == |reqs|
  {
    if n == 0 then reqs
    else
      var before := Serve(reqs, picked, tokens, isEos, n - 1);
      before[picked[n - 1] := ServeOne(before[picked[n - 1]], tokens[n - 1], isEos)]
  }

  function Unfinished(reqs: seq<Request>): nat
  {
    if reqs == [] then 0 else Unfinished(reqs[..|reqs| - 1]) + if reqs[|reqs| - 1].finished then 0 else 1
  }

  function Advance(reqs: seq<Request>): nat
  {
    if reqs == [] then 0 else Advance(reqs[..|reqs| - 1]) + reqs[|reqs| - 1].pos
  }

  /** Positions the unfinished requests have left. */
  function Left(reqs: seq<Request>): int
  {
    if reqs == [] then 0
    else Left(reqs[..|reqs| - 1]) + if reqs[|reqs| - 1].finished then 0
      else reqs[|reqs| - 1].maxPos - reqs[|reqs| - 1].pos
  }

  lemma {:induction false} UpdateSums(reqs: seq<Request>, q: nat, r: Request)
    requires q < |reqs|
    ensures Unfinished(reqs[q := r]) + (if reqs[q].finished then 0 else 1) ==
      Unfinished(reqs) + (if r.finished then 0 else 1)
    ensures Advance(reqs[q := r]) + reqs[q].pos == Advance(reqs) + r.pos
    ensures Left(reqs[q := r]) + (if reqs[q].finished then 0 else reqs[q].maxPos - reqs[q].pos)
         == Left(reqs) + (if r.finished then 0 else r.maxPos - r.pos)
  {
    var n := |reqs| - 1;
    if q == n {
      assert reqs[n := r][..n] == reqs[..n];
    } else {
      assert reqs[q := r][..n] == reqs[..n][q := r];
      UpdateSums(reqs[..n], q, r);
    }
  }

  lemma {:induction false} NoneLeft(reqs: seq<Request>)
    requires Sound(reqs)
    ensures 0 <= Left(reqs)
    ensures Unfinished(reqs) == 0 <==> forall q :: 0 <= q < |reqs| ==> reqs[q].finished
  {
    if reqs != [] {
      var n := |reqs| - 1;
      assert forall q :: 0 <= q < n ==> reqs[..n][q] == reqs[q];
      NoneLeft(reqs[..n]);
    }
  }

  // ---- Places after the cursor ---------------------------------------------------------------------

  /** How many places after the cursor request `q` comes. */
  function Dist(n: nat, cursor: nat, q: nat): (d: nat)
    requires q < n && cursor < n
    ensures d < n
  {
    if cursor <= q then q - cursor else q - cursor + n
  }

  lemma SlotOf(n: nat, cursor: nat, i: nat)
    requires cursor < n && i < n
    ensures Slot(n, cursor, i) < n && Dist(n, cursor, Slot(n, cursor, i)) == i
  {
    var x := cursor + i;
    if x < n { ModOnce(x, n); } else { ModOnce(x, n); }
  }

  lemma SlotInverse(n: nat, cursor: nat, q: nat)
    requires q < n && cursor < n
    ensures Slot(n, cursor, Dist(n, cursor, q)) == q
  {
    var x := cursor + Dist(n, cursor, q);
    if x < n { ModOnce(x, n); } else { ModOnce(x, n); }
  }

  predicate InOrder(n: nat, cursor: nat, i: nat, p: seq<nat>)
    requires cursor < n
  {
    && (forall k :: 0 <= k < |p| ==> p[k] < n && i + k <= Dist(n, cursor, p[k]))
    && (forall k, l :: 0 <= k < l < |p| ==> p[k] < n && p[l] < n && Dist(n, cursor, p[k]) < Dist(n, cursor, p[l]))
  }

  predicate Distinct(p: seq<nat>) { forall k, l :: 0 <= k < l < |p| ==> p[k] != p[l] }

  /** Picks come in scanning order, each from its own place. */
  lemma {:induction false} PicksAreOrdered(reqs: seq<Request>, cursor: nat, i: nat, room: nat)
    requires cursor < |reqs| && i <= |reqs|
    ensures InOrder(|reqs|, cursor, i, Picks(reqs, cursor, i, room))
    decreases |reqs| - i
  {
    hide Slot; hide Dist;
    if i < |reqs| && room > 0 {
      SlotOf(|reqs|, cursor, i);
      var here := Slot(|reqs|, cursor, i);
      if Runnable(reqs[here]) {
        PicksAreOrdered(reqs, cursor, i + 1, room - 1);
        var rest := Picks(reqs, cursor, i + 1, room - 1);
      } else {
        PicksAreOrdered(reqs, cursor, i + 1, room);
      }
    }
  }

  /** A request that could run and is not picked comes after all the picks, and there was no room for more. */
  lemma {:induction false} Passed(reqs: seq<Request>, cursor: nat, i: nat, room: nat, q: nat)
    requires cursor < |reqs| && i <= |reqs| && q < |reqs| && Runnable(reqs[q]) && i <= Dist(|reqs|, cursor, q)
    requires q !in Picks(reqs, cursor, i, room)
    ensures var p := Picks(reqs, cursor, i, room);
      |p| == room && forall k :: 0 <= k < |p| ==> Dist(|reqs|, cursor, p[k]) < Dist(|reqs|, cursor, q)
    decreases |reqs| - i
  {
    hide Slot; hide Dist;
    if i < |reqs| && room > 0 {
      SlotOf(|reqs|, cursor, i);
      SlotInverse(|reqs|, cursor, q);
      var here := Slot(|reqs|, cursor, i);
      assert i == Dist(|reqs|, cursor, q) ==> here == q;
      Passed(reqs, cursor, i + 1, if Runnable(reqs[here]) then room - 1 else room, q);
    }
  }

  /** While a request is unfinished somebody is picked. */
  lemma SomebodyPicked(reqs: seq<Request>, cursor: nat, room: nat)
    requires cursor < |reqs| && Sound(reqs) && 0 < room && 0 < Unfinished(reqs)
    ensures Picks(reqs, cursor, 0, room) != []
  {
    NoneLeft(reqs);
    var q :| 0 <= q < |reqs| && !reqs[q].finished;
    if q !in Picks(reqs, cursor, 0, room) { Passed(reqs, cursor, 0, room, q); }
  }

  // ---- Rounds ------------------------------------------------------------------------------------------

  datatype State = State(reqs: seq<Request>, cursor: nat, active: nat, decoded: nat)

  ghost predicate Inv(s: State, advance0: nat)
  {
    Sound(s.reqs) && (0 < |s.reqs| ==> s.cursor < |s.reqs|) && s.active == Unfinished(s.reqs)
      && Advance(s.reqs) == advance0 + s.decoded
  }

  /** A round: pick, decode one token each, move the cursor behind the last pick. */
  function Round(s: State, maxActive: nat, tokens: seq<int>, isEos: int -> bool): State
    requires 0 < |s.reqs| && maxActive <= |tokens|
  {
    var picked := Picks(s.reqs, s.cursor, 0, maxActive);
    if picked == [] then s
    else
      var reqs := Serve(s.reqs, picked, tokens, isEos, |picked|);
      State(reqs, (picked[|picked| - 1] + 1) % |s.reqs|, Unfinished(reqs), s.decoded + |picked|)
  }

  predicate ServesRunnable(reqs: seq<Request>, picked: seq<nat>, tokens: seq<int>, n: nat)
  {
    && n <= |picked| <= |tokens|
    && (forall k :: 0 <= k < |picked| ==> picked[k] < |reqs| && Runnable(reqs[picked[k]]))
    && Distinct(picked)
  }

  /** Serving touches exactly the picked requests, each once. */
  lemma {:induction false} ServeAt(reqs: seq<Request>, picked: seq<nat>, tokens: seq<int>, isEos: int -> bool, n: nat)
    requires ServesRunnable(reqs, picked, tokens, n)
    ensures var r := Serve(reqs, picked, tokens, isEos, n);
      && (forall q :: 0 <= q < |reqs| && (forall k :: 0 <= k < n ==> picked[k] != q) ==> r[q] == reqs[q])
      && (forall k :: 0 <= k < n ==> r[picked[k]] == ServeOne(reqs[picked[k]], tokens[k], isEos))
    decreases n
  {
    hide ServeOne;
    if n > 0 { ServeAt(reqs, picked, tokens, isEos, n - 1); }
  }

  lemma ServedSound(before: seq<Request>, q: nat, token: int, isEos: int -> bool)
    requires q < |before| && Sound(before) && Runnable(before[q])
    ensures var r := before[q := ServeOne(before[q], token, isEos)];
      Sound(r) && Advance(r) == Advance(before) + 1 && Left(r) + 1 <= Left(before)
        && Unfinished(r) <= Unfinished(before)
  {
    UpdateSums(before, q, ServeOne(before[q], token, isEos));
  }

  lemma {:induction false} ServeEffect(
      reqs: seq<Request>, picked: seq<nat>, tokens: seq<int>, isEos: int -> bool, n: nat)
    requires ServesRunnable(reqs, picked, tokens, n) && Sound(reqs)
    ensures var r := Serve(reqs, picked, tokens, isEos, n);
      Sound(r) && Advance(r) == Advance(reqs) + n && Left(r) + n <= Left(reqs) && Unfinished(r) <= Unfinished(reqs)
    decreases n
  {
    hide Sound; hide Advance; hide Left; hide Unfinished; hide ServeOne;
    if n > 0 {
      ServeEffect(reqs, picked, tokens, isEos, n - 1);
      ServeAt(reqs, picked, tokens, isEos, n - 1);
      ServedSound(Serve(reqs, picked, tokens, isEos, n - 1), picked[n - 1], tokens[n - 1], isEos);
    }
  }

  lemma PicksDistinct(reqs: seq<Request>, cursor: nat, room: nat)
    requires cursor < |reqs|
    ensures Distinct(Picks(reqs, cursor, 0, room))
  {
    PicksAreOrdered(reqs, cursor, 0, room);
  }

  lemma RoundKeepsInv(s: State, maxActive: nat, tokens: seq<int>, isEos: int -> bool, advance0: nat)
    requires 0 < |s.reqs| && maxActive <= |tokens| && Inv(s, advance0)
    ensures Inv(Round(s, maxActive, tokens, isEos), advance0)
    ensures Left(Round(s, maxActive, tokens, isEos).reqs) + |Picks(s.reqs, s.cursor, 0, maxActive)| <= Left(s.reqs)
  {
    hide Sound; hide Advance; hide Left; hide Unfinished; hide Serve;
    var picked := Picks(s.reqs, s.cursor, 0, maxActive);
    if picked != [] {
      PicksDistinct(s.reqs, s.cursor, maxActive);
      ServeEffect(s.reqs, picked, tokens, isEos, |picked|);
    }
  }

  /** The potential that bounds waiting: a round that passes `q` over brings the cursor at least `maxActive` places
      closer to it. */
  lemma PassedOverComesCloser(s: State, maxActive: nat, tokens: seq<int>, isEos: int -> bool, q: nat)
    requires s.cursor < |s.reqs| && 0 < maxActive <= |tokens| && Sound(s.reqs)
    requires q < |s.reqs| && !s.reqs[q].finished && q !in Picks(s.reqs, s.cursor, 0, maxActive)
    ensures var s' := Round(s, maxActive, tokens, isEos);
      s'.cursor < |s.reqs| && Dist(|s.reqs|, s'.cursor, q) + maxActive <= Dist(|s.reqs|, s.cursor, q)
  {
    hide Slot; hide Serve; hide Unfinished;
    var n, p := |s.reqs|, Picks(s.reqs, s.cursor, 0, maxActive);
    Passed(s.reqs, s.cursor, 0, maxActive, q);
    PicksAreOrdered(s.reqs, s.cursor, 0, maxActive);
    var last := p[|p| - 1];
    assert maxActive - 1 <= Dist(n, s.cursor, last) < Dist(n, s.cursor, q);
    if last + 1 < n { ModOnce(last + 1, n); } else { ModOnce(last + 1, n); }
  }

  /** Some run of rounds. */
  ghost predicate IsRun(maxActive: nat, tokens: seq<seq<int>>, isEos: int -> bool, states: seq<State>)
  {
    && |states| == |tokens| + 1
    && (forall m :: 0 <= m < |tokens| ==> 0 < |states[m].reqs| && maxActive <= |tokens[m]|)
    && (forall m :: 0 <= m < |tokens| ==> states[m + 1] == Round(states[m], maxActive, tokens[m], isEos))
  }

  lemma {:induction false} RunKeepsInv(
      maxActive: nat, tokens: seq<seq<int>>, isEos: int -> bool, states: seq<State>, m: nat, advance0: nat)
    requires IsRun(maxActive, tokens, isEos, states) && m < |states| && 0 < |states[0].reqs| && Inv(states[0], advance0)
    ensures Inv(states[m], advance0) && |states[m].reqs| == |states[0].reqs|
    decreases m
  {
    hide Inv; hide Picks; hide Serve;
    if m > 0 {
      RunKeepsInv(maxActive, tokens, isEos, states, m - 1, advance0);
      RoundKeepsInv(states[m - 1], maxActive, tokens[m - 1], isEos, advance0);
    }
  }

  /** Request `q` is unfinished and passed over in round `m`. */
  predicate Waits(s: State, maxActive: nat, q: nat)
    requires 0 < |s.reqs| && q < |s.reqs|
  {
    !s.reqs[q].finished && q !in Picks(s.reqs, s.cursor, 0, maxActive)
  }

  /** Nobody starves: an unfinished request is passed over at most (N - 1) / maxActive times in a row. */
  lemma NoStarvation(
      maxActive: nat, tokens: seq<seq<int>>, isEos: int -> bool, states: seq<State>, advance0: nat, a: nat, b: nat,
      q: nat)
    requires 0 < maxActive && IsRun(maxActive, tokens, isEos, states) && 0 < |states[0].reqs|
      && Inv(states[0], advance0)
    requires a <= b <= |tokens| && q < |states[0].reqs|
    requires forall m :: a <= m < b ==> q < |states[m].reqs| && Waits(states[m], maxActive, q)
    ensures b - a <= (|states[0].reqs| - 1) / maxActive
  {
    RunKeepsInv(maxActive, tokens, isEos, states, a, advance0);
    WaitPotential(maxActive, tokens, isEos, states, advance0, a, b, q);
    RunKeepsInv(maxActive, tokens, isEos, states, b, advance0);
    Divide(b - a, maxActive, |states[0].reqs| - 1);
  }

  lemma Divide(k: nat, m: nat, n: nat)
    requires 0 < m && k * m <= n
    ensures k <= n / m
  {
    var d := n / m;
    assert n < (d + 1) * m by { assert (d + 1) * m == d * m + m; }
  }

  lemma {:induction false} WaitPotential(
      maxActive: nat, tokens: seq<seq<int>>, isEos: int -> bool, states: seq<State>, advance0: nat, a: nat, b: nat,
      q: nat)
    requires 0 < maxActive && IsRun(maxActive, tokens, isEos, states) && 0 < |states[0].reqs|
      && Inv(states[0], advance0)
    requires a <= b <= |tokens| && q < |states[0].reqs|
    requires forall m :: a <= m < b ==> q < |states[m].reqs| && Waits(states[m], maxActive, q)
    ensures |states[a].reqs| == |states[b].reqs| == |states[0].reqs|
    ensures states[a].cursor < |states[0].reqs| && states[b].cursor < |states[0].reqs|
    ensures (b - a) * maxActive + Dist(|states[0].reqs|, states[b].cursor, q) <=
      Dist(|states[0].reqs|, states[a].cursor, q)
    decreases b - a
  {
    hide Picks; hide Serve; hide Dist;
    RunKeepsInv(maxActive, tokens, isEos, states, a, advance0);
    RunKeepsInv(maxActive, tokens, isEos, states, b, advance0);
    if a < b {
      RunKeepsInv(maxActive, tokens, isEos, states, b - 1, advance0);
      WaitPotential(maxActive, tokens, isEos, states, advance0, a, b - 1, q);
      assert Waits(states[b - 1], maxActive, q);
      PassedOverComesCloser(states[b - 1], maxActive, tokens[b - 1], isEos, q);
      assert (b - a) * maxActive == (b - 1 - a) * maxActive + maxActive;
    }
  }

  // ---- The loops -----------------------------------------------------------------------------------------

  /** One forward of the prefill: `tokens` at the positions from `position` on. */
  datatype Batch = Batch(position: nat, tokens: seq<int>)

  /** The tokens that the batches feed, in order. */
  function Fed(batches: seq<Batch>): seq<int>
  {
    if batches == [] then [] else Fed(batches[..|batches| - 1]) + batches[|batches| - 1].tokens
  }

  /** The batches lie one behind the other from position 0 to `pos`, each with the tokens of its positions. */
  predicate Covers(prompt: seq<int>, batches: seq<Batch>, pos: nat)
  {
    pos <= |prompt| &&
    if batches == [] then pos == 0
    else
      var last := batches[|batches| - 1];
      last.position <= pos && last.tokens == prompt[last.position..pos] && last.tokens != []
      && Covers(prompt, batches[..|batches| - 1], last.position)
  }

  /** The prefill of one request in batches of at most `cap` tokens: all but the last prompt token, each at its own
      position; the last is the one that decoding feeds first. */
  method Prefill(prompt: seq<int>, cap: nat) returns (pos: nat, token: int, batches: seq<Batch>)
    requires prompt != [] && 0 < cap
    ensures pos == |prompt| - 1 && token == prompt[pos] && Fed(batches) == prompt[..pos]
    ensures Covers(prompt, batches, pos)
    ensures forall i :: 0 <= i < |batches| ==>
      0 < |batches[i].tokens| <= cap && (i + 1 < |batches| ==> |batches[i].tokens| == cap)
  {
    pos, token, batches := 0, prompt[0], [];
    while pos + 1 < |prompt|
      invariant pos < |prompt| && token == prompt[pos] && Covers(prompt, batches, pos)
      invariant forall i :: 0 <= i < |batches| ==>
        0 < |batches[i].tokens| <= cap
        && (|batches[i].tokens| < cap ==> i + 1 == |batches| && pos + 1 == |prompt|)
    {
      var remaining := |prompt| - 1 - pos;
      var batchSize := if remaining < cap then remaining else cap;
      var batch := Batch(pos, prompt[pos..pos + batchSize]);
      assert (batches + [batch])[..|batches|] == batches;
      batches := batches + [batch];
      pos := pos + batchSize;
      token := prompt[pos];
    }
    CoversFeeds(prompt, batches, pos);
  }

  lemma {:induction false} CoversFeeds(prompt: seq<int>, batches: seq<Batch>, pos: nat)
    requires Covers(prompt, batches, pos)
    ensures pos <= |prompt| && Fed(batches) == prompt[..pos]
    decreases |batches|
  {
    if batches != [] { CoversFeeds(prompt, batches[..|batches| - 1], batches[|batches| - 1].position); }
  }

  lemma SlotBound(n: nat, cursor: nat)
    requires 0 < n
    ensures forall i: nat :: Slot(n, cursor, i) < n
  {
  }

  method PickRound(reqs: array<Request>, cursor: nat, maxActive: nat) returns (picked: seq<nat>)
    requires 0 < reqs.Length
    ensures picked == Picks(reqs[..], cursor, 0, maxActive)
  {
    SlotBound(reqs.Length, cursor);
    hide Slot;
    picked := [];
    var i := 0;
    while i < reqs.Length && |picked| < maxActive
      invariant i <= reqs.Length && |picked| <= maxActive
      invariant picked + Picks(reqs[..], cursor, i, maxActive - |picked|) == Picks(reqs[..], cursor, 0, maxActive)
    {
      var idx := Slot(reqs.Length, cursor, i);
      if !reqs[idx].finished && reqs[idx].pos < reqs[idx].maxPos {
        assert picked + ([idx] + Picks(reqs[..], cursor, i + 1, maxActive - |picked| - 1))
            == picked + [idx] + Picks(reqs[..], cursor, i + 1, maxActive - |picked| - 1);
        picked := picked + [idx];
      }
      i := i + 1;
    }
  }

  method ServeSlot(reqs: array<Request>, q: nat, token: int, isEos: int -> bool, active0: nat) returns (active: nat)
    requires q < reqs.Length && !reqs[q].finished && active0 == Unfinished(reqs[..])
    modifies reqs
    ensures reqs[..] == old(reqs[..])[q := ServeOne(old(reqs[q]), token, isEos)] && active == Unfinished(reqs[..])
  {
    UpdateSums(reqs[..], q, ServeOne(reqs[q], token, isEos));
    hide Unfinished;
    active := active0;
    reqs[q] := Request(token, reqs[q].pos + 1, reqs[q].maxPos, reqs[q].finished);
    if isEos(token) || reqs[q].pos >= reqs[q].maxPos {
      reqs[q] := reqs[q].(finished := true);
      active := active - 1;
    }
    assert reqs[..] == old(reqs[..])[q := ServeOne(old(reqs[q]), token, isEos)];
  }

  method ServeRound(reqs: array<Request>, picked: seq<nat>, tokens: seq<int>, isEos: int -> bool, active0: nat)
    returns (active: nat)
    requires ServesRunnable(reqs[..], picked, tokens, |picked|) && active0 == Unfinished(reqs[..])
    modifies reqs
    ensures reqs[..] == Serve(old(reqs[..]), picked, tokens, isEos, |picked|) && active == Unfinished(reqs[..])
  {
    hide Unfinished; hide ServeOne;
    active := active0;
    for i := 0 to |picked|
      invariant reqs[..] == Serve(old(reqs[..]), picked, tokens, isEos, i) && active == Unfinished(reqs[..])
    {
      ServeAt(old(reqs[..]), picked, tokens, isEos, i);
      assert reqs[..][picked[i]] == old(reqs[..])[picked[i]];
      active := ServeSlot(reqs, picked[i], tokens[i], isEos, active);
    }
  }

  /** The decode loop: it ends with every request finished, never by the empty-pick exit, and counts
      exactly the positions the requests have moved on. `sample` gives the tokens of each round, and
      `states` records that the rounds are the ones specified. */
  method DecodeRounds(reqs: array<Request>, maxActive: nat, sample: nat -> seq<int>, isEos: int -> bool)
      returns (decoded: nat, gaveUp: bool, ghost states: seq<State>, ghost sampled: seq<seq<int>>)
    requires 0 < maxActive && (forall m :: |sample(m)| >= maxActive)
    requires forall q :: 0 <= q < reqs.Length ==> Fresh(reqs[q])
    modifies reqs
    ensures !gaveUp && forall q :: 0 <= q < reqs.Length ==> reqs[q].finished
    ensures Advance(reqs[..]) == Advance(old(reqs[..])) + decoded
    ensures IsRun(maxActive, sampled, isEos, states)
    ensures states[0] == State(old(reqs[..]), 0, reqs.Length, 0) && states[|sampled|].reqs == reqs[..]
  {
    hide Round; hide Serve; hide Picks; hide Unfinished; hide Advance; hide Left;
    decoded, gaveUp := 0, false;
    var active := CountFresh(reqs);
    var cursor: nat, round: nat := 0, 0;
    states, sampled := [State(reqs[..], cursor, active, decoded)], [];
    while active > 0
      invariant Sound(reqs[..]) && (0 < reqs.Length ==> cursor < reqs.Length)
      invariant active == Unfinished(reqs[..]) && Advance(reqs[..]) == Advance(old(reqs[..])) + decoded
      invariant !gaveUp
      invariant IsRun(maxActive, sampled, isEos, states) && states[0] == State(old(reqs[..]), 0, reqs.Length, 0)
      invariant states[|sampled|] == State(reqs[..], cursor, active, decoded)
      decreases Left(reqs[..]), active
    {
      ghost var before := reqs[..];
      NoneLeft(before);
      var picked := PickRound(reqs, cursor, maxActive);
      SomebodyPicked(before, cursor, maxActive);
      if |picked| == 0 { gaveUp := true; break; }
      PicksDistinct(before, cursor, maxActive);
      cursor := (picked[|picked| - 1] + 1) % reqs.Length;
      var tokens := sample(round);
      ServeEffect(before, picked, tokens, isEos, |picked|);
      RoundIs(states[|sampled|], maxActive, tokens, isEos);
      active := ServeRound(reqs, picked, tokens, isEos, active);
      decoded := decoded + |picked|;
      round := round + 1;
      states, sampled := states + [State(reqs[..], cursor, active, decoded)], sampled + [tokens];
      NoneLeft(reqs[..]);
    }
    NoneLeft(reqs[..]);
    assert forall q :: 0 <= q < reqs.Length ==> reqs[..][q].finished;
  }

  lemma RoundIs(s: State, maxActive: nat, tokens: seq<int>, isEos: int -> bool)
    requires 0 < |s.reqs| && maxActive <= |tokens| && Picks(s.reqs, s.cursor, 0, maxActive) != []
    ensures var picked := Picks(s.reqs, s.cursor, 0, maxActive);
      var reqs := Serve(s.reqs, picked, tokens, isEos, |picked|);
      Round(s, maxActive, tokens, isEos) ==
        State(reqs, (picked[|picked| - 1] + 1) % |s.reqs|, Unfinished(reqs), s.decoded + |picked|)
  {
    hide Picks; hide Serve; hide Unfinished;
  }

  /** `activeCount` starts at the number of requests, all unfinished. */
  method CountFresh(reqs: array<Request>) returns (n: nat)
    requires forall q :: 0 <= q < reqs.Length ==> Fresh(reqs[q])
    ensures n == reqs.Length == Unfinished(reqs[..]) && Sound(reqs[..])
  {
    n := reqs.Length;
    AllUnfinished(reqs[..]);
  }

  lemma {:induction false} AllUnfinished(reqs: seq<Request>)
    requires forall q :: 0 <= q < |reqs| ==> Fresh(reqs[q])
    ensures Unfinished(reqs) == |reqs|
  {
    if reqs != [] { AllUnfinished(reqs[..|reqs| - 1]); }
  }
}
