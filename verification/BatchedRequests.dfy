/** What happens to one request in the batched decode loop (src/dllama.cpp): which tokens it is fed, and when it
    ends. */
module BatchedRequests {
  import opened Common
  import opened ContinuousBatching

  /** The place of request `q` among the picks. */
  function Place(picked: seq<nat>, q: nat): (k: Option<nat>)
    ensures k.None? ==> q !in picked
    ensures k.Some? ==> k.value < |picked| && picked[k.value] == q
  {
    if picked == [] then None
    else if picked[|picked| - 1] == q then Some(|picked| - 1)
    else Place(picked[..|picked| - 1], q)
  }

  /** The tokens sampled for request `q` in the first `m` rounds. */
  function Sampled(maxActive: nat, tokens: seq<seq<int>>, states: seq<State>, q: nat, m: nat): seq<int>
    requires |states| == |tokens| + 1 && m <= |tokens|
    requires forall i :: 0 <= i < |tokens| ==> 0 < |states[i].reqs| && maxActive <= |tokens[i]|
  {
    if m == 0 then []
    else
      var s := states[m - 1];
      var k := Place(Picks(s.reqs, s.cursor, 0, maxActive), q);
      Sampled(maxActive, tokens, states, q, m - 1) + if k.Some? then [tokens[m - 1][k.value]] else []
  }

  /** One round, for one request: a picked one gets its token and moves on, any other stays as it is. */
  lemma RoundFor(s: State, maxActive: nat, tokens: seq<int>, isEos: int -> bool, q: nat)
    requires s.cursor < |s.reqs| && maxActive <= |tokens| && q < |s.reqs|
    ensures var k, r := Place(Picks(s.reqs, s.cursor, 0, maxActive), q), s.reqs[q];
      && |Round(s, maxActive, tokens, isEos).reqs| == |s.reqs|
      && Round(s, maxActive, tokens, isEos).reqs[q] ==
           (if k.None? then r
            else Request(tokens[k.value], r.pos + 1, r.maxPos, isEos(tokens[k.value]) || r.pos + 1 >= r.maxPos))
      && (k.Some? ==> !r.finished && r.pos < r.maxPos)
  {
    hide Picks; hide Serve; hide Unfinished; hide Place;
    var picked := Picks(s.reqs, s.cursor, 0, maxActive);
    if picked != [] {
      PicksDistinct(s.reqs, s.cursor, maxActive);
      ServeAt(s.reqs, picked, tokens, isEos, |picked|);
      RoundIs(s, maxActive, tokens, isEos);
    }
  }

  /** At any time a request has moved on by the tokens sampled for it, is fed the last of them next, and is finished
      exactly when that was an end token or the positions are used up; before it no end token was sampled. */
  lemma {:induction false} RequestStory(
      maxActive: nat, tokens: seq<seq<int>>, isEos: int -> bool, states: seq<State>, advance0: nat, q: nat, m: nat)
    requires IsRun(maxActive, tokens, isEos, states) && 0 < |states[0].reqs| && Inv(states[0], advance0)
    requires q < |states[0].reqs| && !states[0].reqs[q].finished && m <= |tokens|
    ensures |states[m].reqs| == |states[0].reqs|
    ensures var first, now := states[0].reqs[q], states[m].reqs[q];
      var t := Sampled(maxActive, tokens, states, q, m);
      && now.pos == first.pos + |t| && now.maxPos == first.maxPos
      && now.token == (if t == [] then first.token else t[|t| - 1])
      && (now.finished <==> t != [] && (isEos(t[|t| - 1]) || now.pos >= now.maxPos))
      && forall i :: 0 <= i < |t| - 1 ==> !isEos(t[i])
    decreases m
  {
    hide Inv; hide Picks; hide Round; hide Place;
    RunKeepsInv(maxActive, tokens, isEos, states, m, advance0);
    if m > 0 {
      RequestStory(maxActive, tokens, isEos, states, advance0, q, m - 1);
      RunKeepsInv(maxActive, tokens, isEos, states, m - 1, advance0);
      CursorInside(states[m - 1], advance0);
      RoundFor(states[m - 1], maxActive, tokens[m - 1], isEos, q);
    }
  }

  lemma CursorInside(s: State, advance0: nat)
    requires Inv(s, advance0) && 0 < |s.reqs|
    ensures s.cursor < |s.reqs|
  {
  }
}
