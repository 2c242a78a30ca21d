/** The ring all-reduce as `n` blocking nodes over zero-capacity channels: a transfer happens only
    when a sender and its neighbour's receive meet; even nodes send first, odd nodes receive first,
    and nodes may drift across steps. */
module RingProtocol {
  import opened Common
  import opened RingSchedule

  /** `ops[i]` counts the blocking operations node `i` has completed, two per exchange. */
  datatype State = State(ops: seq<nat>, bufs: seq<seq<real>>)

  function Sends(i: nat, q: nat): nat { if i % 2 == 0 then (q + 1) / 2 else q / 2 }

  function Recvs(i: nat, q: nat): nat { if i % 2 == 0 then q / 2 else (q + 1) / 2 }

  predicate WantsSend(g: Ring, i: nat, q: nat) { q < 2 * g.exchanges && (i % 2 == q % 2) }

  predicate WantsRecv(g: Ring, i: nat, q: nat) { q < 2 * g.exchanges && (i % 2 != q % 2) }

  predicate Shape(g: Ring, s: State)
  {
    && |s.ops| == g.n && |s.bufs| == g.n
    && forall i :: 0 <= i < g.n ==> |s.bufs[i]| == g.n * g.len
  }

  function Init(g: Ring, xs: seq<seq<real>>): State { State(seq(g.n, _ => 0), xs) }

  /** Node `i` meets its neighbour. */
  predicate Enabled(g: Ring, s: State, i: nat)
    requires Shape(g, s)
  {
    i < g.n && WantsSend(g, i, s.ops[i]) && WantsRecv(g, Next(g.n, i), s.ops[Next(g.n, i)])
  }

  lemma ChunkBounds(g: Ring, c: nat, k: nat)
    requires g.Valid() && c < g.n && k < g.n * g.len
    ensures c * g.len + g.len <= g.n * g.len
    ensures Chunk(g, k) == c <==> c * g.len <= k < c * g.len + g.len
  {
    ChunkInside(c, g.n, g.len);
    QuotIff(k, c, g.len);
  }

  function Slice(g: Ring, b: seq<real>, c: nat): (v: seq<real>)
    requires g.Valid() && c < g.n && |b| == g.n * g.len
    ensures |v| == g.len
  {
    ChunkBounds(g, c, 0);
    b[c * g.len..c * g.len + g.len]
  }

  /** `reduceSum` into, or `readMany` over, chunk `c`. */
  function Store(g: Ring, b: seq<real>, c: nat, v: seq<real>, add: bool): (b': seq<real>)
    requires g.Valid() && c < g.n && |b| == g.n * g.len && |v| == g.len
    ensures |b'| == |b|
  {
    ChunkBounds(g, c, 0);
    var at := c * g.len;
    b[..at] + seq(g.len, x requires 0 <= x < g.len => if add then b[at + x] + v[x] else v[x]) + b[at + g.len..]
  }

  function Apply(g: Ring, s: State, i: nat): State
    requires g.Valid() && Shape(g, s) && Enabled(g, s, i) && Sends(i, s.ops[i]) < g.exchanges
  {
    var j, r := Next(g.n, i), Sends(i, s.ops[i]);
    SendMatchesRecv(g, i, r);
    var payload := Slice(g, s.bufs[i], SendChunk(g, i, r));
    State(s.ops[i := s.ops[i] + 1][j := s.ops[j] + 1],
          s.bufs[j := Store(g, s.bufs[j], RecvChunk(g, j, r), payload, r < g.n - 1)])
  }

  ghost predicate IsRun(g: Ring, xs: seq<seq<real>>, run: seq<nat>, states: seq<State>)
    requires g.Valid()
  {
    && |states| == |run| + 1
    && states[0] == Init(g, xs)
    && (forall m :: 0 <= m < |run| ==>
          && Shape(g, states[m]) && Enabled(g, states[m], run[m])
          && Sends(run[m], states[m].ops[run[m]]) < g.exchanges
          && states[m + 1] == Apply(g, states[m], run[m]))
  }

  // ---- The invariant ------------------------------------------------------------------------------

  predicate InStep(g: Ring, s: State, i: nat)
    requires Shape(g, s) && i < g.n
  {
    s.ops[i] <= 2 * g.exchanges && Recvs(Next(g.n, i), s.ops[Next(g.n, i)]) == Sends(i, s.ops[i])
  }

  ghost predicate BufOk(g: Ring, xs: seq<seq<real>>, b: seq<real>, i: nat, r: nat)
    requires g.Valid() && Inputs(g, xs) && i < g.n && |b| == g.n * g.len
  {
    r <= g.exchanges && forall k: nat :: k < g.n * g.len ==> b[k] == Buf(g, xs, i, r, k)
  }

  ghost predicate Inv(g: Ring, xs: seq<seq<real>>, s: State)
    requires g.Valid() && Inputs(g, xs)
  {
    && Shape(g, s)
    && (forall i :: 0 <= i < g.n ==> InStep(g, s, i))
    && (forall i :: 0 <= i < g.n ==> BufOk(g, xs, s.bufs[i], i, Recvs(i, s.ops[i])))
  }

  lemma SliceAt(g: Ring, b: seq<real>, c: nat, k: nat)
    requires g.Valid() && c < g.n && |b| == g.n * g.len && k < g.n * g.len && Chunk(g, k) == c
    ensures 0 <= k - c * g.len < g.len && Slice(g, b, c)[k - c * g.len] == b[k]
  {
    ChunkBounds(g, c, k);
  }

  lemma StoreAt(g: Ring, b: seq<real>, c: nat, v: seq<real>, add: bool, k: nat)
    requires g.Valid() && c < g.n && |b| == g.n * g.len && |v| == g.len && k < g.n * g.len
    ensures Chunk(g, k) == c ==>
      0 <= k - c * g.len < g.len
        && Store(g, b, c, v, add)[k] == if add then b[k] + v[k - c * g.len] else v[k - c * g.len]
    ensures Chunk(g, k) != c ==> Store(g, b, c, v, add)[k] == b[k]
  {
    ChunkBounds(g, c, k);
  }

  lemma ReceivedBuf(g: Ring, xs: seq<seq<real>>, i: nat, sender: seq<real>, b: seq<real>, r: nat, done: nat)
    requires g.Valid() && Inputs(g, xs) && i < g.n && r < g.exchanges && (done == r || done == r + 1)
    requires |sender| == |b| == g.n * g.len
    requires BufOk(g, xs, sender, i, done) && BufOk(g, xs, b, Next(g.n, i), r)
    ensures SendChunk(g, i, r) < g.n && RecvChunk(g, Next(g.n, i), r) == SendChunk(g, i, r)
    ensures BufOk(g, xs, Store(g, b, RecvChunk(g, Next(g.n, i), r), Slice(g, sender, SendChunk(g, i, r)), r < g.n - 1),
                  Next(g.n, i), r + 1)
  {
    hide SendChunk; hide RecvChunk; hide Chunk; hide Store; hide Slice;
    SendMatchesRecv(g, i, r);
    var j, c := Next(g.n, i), SendChunk(g, i, r);
    var v := Slice(g, sender, c);
    var b' := Store(g, b, c, v, r < g.n - 1);
    forall k: nat | k < g.n * g.len
      ensures b'[k] == Buf(g, xs, j, r + 1, k)
    {
      StoreAt(g, b, c, v, r < g.n - 1, k);
      if Chunk(g, k) == c {
        SliceAt(g, sender, c, k);
      }
    }
  }

  lemma Parity(g: Ring, i: nat, q: nat)
    ensures WantsSend(g, i, q) ==>
      Sends(i, q + 1) == Sends(i, q) + 1 && Recvs(i, q + 1) == Recvs(i, q) && Sends(i, q) < g.exchanges
    ensures WantsRecv(g, i, q) ==>
      Recvs(i, q + 1) == Recvs(i, q) + 1 && Sends(i, q + 1) == Sends(i, q) && Recvs(i, q) < g.exchanges
    ensures Sends(i, q) <= Recvs(i, q) + 1 && Recvs(i, q) <= Sends(i, q) + 1
    ensures WantsSend(g, i, q) ==> Recvs(i, q) == Sends(i, q) || Recvs(i, q) == Sends(i, q) + 1
  {
  }

  lemma ApplyParts(g: Ring, s: State, i: nat)
    requires g.Valid() && Shape(g, s) && Enabled(g, s, i) && Sends(i, s.ops[i]) < g.exchanges
    ensures var j, r, s' := Next(g.n, i), Sends(i, s.ops[i]), Apply(g, s, i);
      && i != j && SendChunk(g, i, r) < g.n && RecvChunk(g, j, r) == SendChunk(g, i, r)
      && s'.ops == s.ops[i := s.ops[i] + 1][j := s.ops[j] + 1]
      && s'.bufs == s.bufs[j :=
        Store(g, s.bufs[j], RecvChunk(g, j, r), Slice(g, s.bufs[i], SendChunk(g, i, r)), r < g.n - 1)]
      && Shape(g, s')
  {
    hide SendChunk; hide RecvChunk; hide Sends;
    SendMatchesRecv(g, i, Sends(i, s.ops[i]));
  }

  lemma OpsInStep(g: Ring, s: State, s': State, i: nat, m: nat)
    requires g.Valid() && Shape(g, s) && Shape(g, s') && Enabled(g, s, i) && m < g.n && Next(g.n, i) != i
    requires s'.ops == s.ops[i := s.ops[i] + 1][Next(g.n, i) := s.ops[Next(g.n, i)] + 1]
    requires forall u :: 0 <= u < g.n ==> InStep(g, s, u)
    ensures InStep(g, s', m)
  {
    hide Sends; hide Recvs;
    var j := Next(g.n, i);
    Parity(g, i, s.ops[i]);
    Parity(g, j, s.ops[j]);
    assert InStep(g, s, m) && InStep(g, s, i) && InStep(g, s, j);
    assert Next(g.n, m) == j ==> m == i by { assert Prev(g.n, Next(g.n, m)) == m; }
    if Next(g.n, m) == i { assert m != i; }
  }

  lemma StepKeepsInv(g: Ring, xs: seq<seq<real>>, s: State, i: nat)
    requires g.Valid() && Inputs(g, xs) && Inv(g, xs, s) && Enabled(g, s, i)
    ensures Sends(i, s.ops[i]) < g.exchanges && Inv(g, xs, Apply(g, s, i))
  {
    hide SendChunk; hide RecvChunk; hide Store; hide Slice; hide Inputs; hide BufOk; hide Sends; hide Recvs; hide Apply;
    var j := Next(g.n, i);
    Parity(g, i, s.ops[i]);
    Parity(g, j, s.ops[j]);
    assert InStep(g, s, i) && InStep(g, s, j);
    ReceivedBuf(g, xs, i, s.bufs[i], s.bufs[j], Sends(i, s.ops[i]), Recvs(i, s.ops[i]));
    ApplyParts(g, s, i);
    var s' := Apply(g, s, i);
    forall m | 0 <= m < g.n
      ensures InStep(g, s', m)
    {
      OpsInStep(g, s, s', i, m);
    }
    forall m | 0 <= m < g.n
      ensures BufOk(g, xs, s'.bufs[m], m, Recvs(m, s'.ops[m]))
    {
      assert BufOk(g, xs, s.bufs[m], m, Recvs(m, s.ops[m]));
    }
  }

  lemma {:induction false} RunKeepsInv(g: Ring, xs: seq<seq<real>>, run: seq<nat>, states: seq<State>, m: nat)
    requires g.Valid() && Inputs(g, xs) && IsRun(g, xs, run, states) && m < |states|
    ensures Inv(g, xs, states[m])
  {
    hide Inv; hide Apply; hide Enabled;
    if m == 0 {
      InvInitially(g, xs);
    } else {
      RunKeepsInv(g, xs, run, states, m - 1);
      StepKeepsInv(g, xs, states[m - 1], run[m - 1]);
    }
  }

  lemma InvInitially(g: Ring, xs: seq<seq<real>>)
    requires g.Valid() && Inputs(g, xs)
    ensures Inv(g, xs, Init(g, xs))
  {
  }

  // ---- Deadlock freedom ---------------------------------------------------------------------------

  predicate Done(g: Ring, s: State)
    requires Shape(g, s)
  {
    forall i :: 0 <= i < g.n ==> s.ops[i] == 2 * g.exchanges
  }

  predicate Sending(g: Ring, s: State, m: nat)
    requires Shape(g, s) && m < g.n
  {
    WantsSend(g, m, s.ops[m])
  }

  predicate Receiving(g: Ring, s: State, m: nat)
    requires Shape(g, s) && m < g.n
  {
    WantsRecv(g, m, s.ops[m])
  }

  lemma SendingGap(g: Ring, i: nat, q: nat)
    requires WantsSend(g, i, q)
    ensures Recvs(i, q) == Sends(i, q) + i % 2
  {
  }

  lemma ReceivingGap(g: Ring, i: nat, q: nat)
    requires WantsRecv(g, i, q)
    ensures Sends(i, q) == Recvs(i, q) + 1 - i % 2
  {
  }

  /** If everybody waits to send, each odd node round the ring is one send further behind. */
  lemma {:induction false} AllSending(g: Ring, s: State, i: nat)
    requires g.Valid() && Shape(g, s) && i < g.n
    requires (forall m :: 0 <= m < g.n ==> InStep(g, s, m)) && (forall m :: 0 <= m < g.n ==> Sending(g, s, m))
    ensures Sends(i, s.ops[i]) + (i + 1) / 2 == Sends(0, s.ops[0])
  {
    hide Sends; hide Recvs; hide WantsSend; hide WantsRecv;
    if 0 < i {
      AllSending(g, s, i - 1);
      assert InStep(g, s, i - 1) && Sending(g, s, i);
      assert Next(g.n, i - 1) == i;
      SendingGap(g, i, s.ops[i]);
    }
  }

  /** If everybody waits to receive, each even node round the ring is one send further ahead. */
  lemma {:induction false} AllReceiving(g: Ring, s: State, i: nat)
    requires g.Valid() && Shape(g, s) && i < g.n
    requires (forall m :: 0 <= m < g.n ==> InStep(g, s, m)) && (forall m :: 0 <= m < g.n ==> Receiving(g, s, m))
    ensures Sends(i, s.ops[i]) == Sends(0, s.ops[0]) + i / 2
  {
    hide Sends; hide Recvs; hide WantsSend; hide WantsRecv;
    if 0 < i {
      AllReceiving(g, s, i - 1);
      assert InStep(g, s, i - 1) && Receiving(g, s, i);
      assert Next(g.n, i - 1) == i;
      ReceivingGap(g, i, s.ops[i]);
    }
  }

  predicate NobodyMeets(g: Ring, s: State)
    requires Shape(g, s)
  {
    forall i :: 0 <= i < g.n ==> !Enabled(g, s, i)
  }

  lemma AllDone(g: Ring, i: nat)
    requires g.Valid()
    ensures Sends(i, 2 * g.exchanges) == Recvs(i, 2 * g.exchanges) == g.exchanges
  {
  }

  lemma BlockedSendSpreads(g: Ring, s: State, i: nat)
    requires g.Valid() && Shape(g, s) && i < g.n && InStep(g, s, i) && InStep(g, s, Next(g.n, i))
    requires !Enabled(g, s, i) && WantsSend(g, i, s.ops[i])
    ensures WantsSend(g, Next(g.n, i), s.ops[Next(g.n, i)])
  {
    hide Sends; hide Recvs;
    Parity(g, i, s.ops[i]);
    AllDone(g, Next(g.n, i));
  }

  lemma BlockedRecvSpreads(g: Ring, s: State, i: nat)
    requires g.Valid() && Shape(g, s) && i < g.n && InStep(g, s, i) && InStep(g, s, Next(g.n, i))
    requires !Enabled(g, s, i) && WantsRecv(g, Next(g.n, i), s.ops[Next(g.n, i)])
    ensures WantsRecv(g, i, s.ops[i])
  {
    hide Sends; hide Recvs;
    Parity(g, Next(g.n, i), s.ops[Next(g.n, i)]);
    AllDone(g, i);
  }

  lemma {:induction false} SendersRound(g: Ring, s: State, i: nat, steps: nat)
    requires g.Valid() && Shape(g, s) && i < g.n && NobodyMeets(g, s) && i + steps < 2 * g.n
    requires (forall m :: 0 <= m < g.n ==> InStep(g, s, m)) && WantsSend(g, i, s.ops[i])
    ensures var m := if i + steps < g.n then i + steps else i + steps - g.n; WantsSend(g, m, s.ops[m])
    decreases steps
  {
    hide WantsSend;
    if 0 < steps {
      SendersRound(g, s, i, steps - 1);
      BlockedSendSpreads(g, s, if i + steps - 1 < g.n then i + steps - 1 else i + steps - 1 - g.n);
    }
  }

  lemma {:induction false} ReceiversRound(g: Ring, s: State, i: nat, steps: nat)
    requires g.Valid() && Shape(g, s) && i < g.n && NobodyMeets(g, s) && steps < g.n
    requires (forall m :: 0 <= m < g.n ==> InStep(g, s, m)) && WantsRecv(g, i, s.ops[i])
    ensures var m := Dist(g.n, i, steps); WantsRecv(g, m, s.ops[m])
    decreases steps
  {
    hide WantsRecv;
    if 0 < steps {
      ReceiversRound(g, s, i, steps - 1);
      BlockedRecvSpreads(g, s, Dist(g.n, i, steps));
    }
  }

  /** The rendezvous ring never deadlocks, odd sizes included: until all nodes are done, some pair can meet. */
  lemma NoDeadlock(g: Ring, xs: seq<seq<real>>, s: State) returns (i: nat)
    requires g.Valid() && Inputs(g, xs) && Inv(g, xs, s) && !Done(g, s)
    ensures Enabled(g, s, i)
  {
    hide BufOk; hide Inputs;
    if w :| 0 <= w < g.n && Enabled(g, s, w) {
      i := w;
    } else {
      i := 0;
      Stuck(g, s);
    }
  }

  lemma Stuck(g: Ring, s: State)
    requires g.Valid() && Shape(g, s) && (forall m :: 0 <= m < g.n ==> InStep(g, s, m)) && NobodyMeets(g, s)
    ensures Done(g, s)
  {
    hide NobodyMeets; hide Enabled; hide Sends; hide Recvs; hide InStep;
    forall i | 0 <= i < g.n
      ensures s.ops[i] == 2 * g.exchanges
    {
      OpsBound(g, s, i);
      NotSending(g, s, i);
      NotReceiving(g, s, i);
    }
  }

  lemma OpsBound(g: Ring, s: State, i: nat)
    requires Shape(g, s) && i < g.n && InStep(g, s, i)
    ensures s.ops[i] <= 2 * g.exchanges
  {
  }

  lemma NotSending(g: Ring, s: State, i: nat)
    requires g.Valid() && Shape(g, s) && (forall m :: 0 <= m < g.n ==> InStep(g, s, m)) && NobodyMeets(g, s) && i < g.n
    ensures !WantsSend(g, i, s.ops[i])
  {
    if WantsSend(g, i, s.ops[i]) {
      forall m | 0 <= m < g.n ensures Sending(g, s, m) {
        SendersRound(g, s, i, if i <= m then m - i else m + g.n - i);
        assert WantsSend(g, m, s.ops[m]);
      }
      assert Sending(g, s, 0);
      SendingGap(g, 0, s.ops[0]);
      ClosesTheRing(g, s);
      AllSending(g, s, g.n - 1);
    }
  }

  lemma ClosesTheRing(g: Ring, s: State)
    requires g.Valid() && Shape(g, s) && InStep(g, s, g.n - 1)
    ensures Recvs(0, s.ops[0]) == Sends(g.n - 1, s.ops[g.n - 1])
  {
  }

  lemma NotReceiving(g: Ring, s: State, i: nat)
    requires g.Valid() && Shape(g, s) && (forall m :: 0 <= m < g.n ==> InStep(g, s, m)) && NobodyMeets(g, s) && i < g.n
    ensures !WantsRecv(g, i, s.ops[i])
  {
    if WantsRecv(g, i, s.ops[i]) {
      forall m | 0 <= m < g.n ensures Receiving(g, s, m) {
        ReceiversRound(g, s, i, Dist(g.n, i, m));
        assert Dist(g.n, i, Dist(g.n, i, m)) == m;
        assert WantsRecv(g, m, s.ops[m]);
      }
      assert Receiving(g, s, 0);
      ReceivingGap(g, 0, s.ops[0]);
      ClosesTheRing(g, s);
      AllReceiving(g, s, g.n - 1);
    }
  }

  // ---- Outcome ------------------------------------------------------------------------------------

  function OpsLeft(g: Ring, ops: seq<nat>): int
  {
    if ops == [] then 0 else 2 * g.exchanges - ops[0] + OpsLeft(g, ops[1..])
  }

  lemma {:induction false} OpsLeftUpdate(g: Ring, ops: seq<nat>, i: nat, q: nat)
    requires i < |ops|
    ensures OpsLeft(g, ops[i := q]) == OpsLeft(g, ops) + ops[i] - q
  {
    if i == 0 {
      assert ops[0 := q][1..] == ops[1..];
    } else {
      assert ops[i := q][1..] == ops[1..][i - 1 := q];
      OpsLeftUpdate(g, ops[1..], i - 1, q);
    }
  }

  lemma {:induction false} OpsLeftPositive(g: Ring, ops: seq<nat>)
    requires forall i :: 0 <= i < |ops| ==> ops[i] <= 2 * g.exchanges
    ensures 0 <= OpsLeft(g, ops)
  {
    if ops != [] { OpsLeftPositive(g, ops[1..]); }
  }

  function AllOps(n: nat, each: int): int { n * each }

  lemma {:induction false} OpsLeftInitially(g: Ring, n: nat)
    ensures OpsLeft(g, seq(n, _ => 0)) == AllOps(n, 2 * g.exchanges)
  {
    if 0 < n {
      OpsLeftInitially(g, n - 1);
      assert seq(n, (_: int) => 0 as nat)[1..] == seq(n - 1, (_: int) => 0 as nat);
    }
  }

  lemma OpsLeftStep(g: Ring, s: State, i: nat)
    requires g.Valid() && Shape(g, s) && Enabled(g, s, i) && Sends(i, s.ops[i]) < g.exchanges
    ensures OpsLeft(g, Apply(g, s, i).ops) == OpsLeft(g, s.ops) - 2
  {
    hide Apply; hide Sends; hide WantsSend; hide WantsRecv; hide OpsLeft;
    var j := Next(g.n, i);
    ApplyParts(g, s, i);
    OpsLeftUpdate(g, s.ops, i, s.ops[i] + 1);
    OpsLeftUpdate(g, s.ops[i := s.ops[i] + 1], j, s.ops[j] + 1);
  }

  /** Every meeting completes two operations, so every run is finite. */
  lemma {:induction false} RunsAreBounded(g: Ring, xs: seq<seq<real>>, run: seq<nat>, states: seq<State>, m: nat)
    requires g.Valid() && Inputs(g, xs) && IsRun(g, xs, run, states) && m < |states|
    ensures OpsLeft(g, states[m].ops) == AllOps(g.n, 2 * g.exchanges) - 2 * m
    ensures 2 * m <= AllOps(g.n, 2 * g.exchanges)
  {
    hide Inv; hide Apply; hide Sends; hide Enabled; hide AllOps; hide OpsLeft;
    RunKeepsInv(g, xs, run, states, m);
    if m == 0 {
      OpsLeftInitially(g, g.n);
    } else {
      RunsAreBounded(g, xs, run, states, m - 1);
      OpsLeftStep(g, states[m - 1], run[m - 1]);
    }
    InvOps(g, xs, states[m]);
    OpsLeftPositive(g, states[m].ops);
  }

  lemma InvOps(g: Ring, xs: seq<seq<real>>, s: State)
    requires g.Valid() && Inputs(g, xs) && Inv(g, xs, s)
    ensures forall i :: 0 <= i < |s.ops| ==> s.ops[i] <= 2 * g.exchanges
  {
    forall i | 0 <= i < |s.ops| ensures s.ops[i] <= 2 * g.exchanges { assert InStep(g, s, i); }
  }

  /** A run that cannot be extended has completed on every node, whatever the drift, with the
      scheduled buffers: the diagonal as written, the sum of all nodes with the shifted gather. */
  lemma CompleteRun(g: Ring, xs: seq<seq<real>>, run: seq<nat>, states: seq<State>, i: nat, k: nat)
    requires g.Valid() && Inputs(g, xs) && IsRun(g, xs, run, states)
    requires Shape(g, states[|run|]) && NobodyMeets(g, states[|run|])
    requires i < g.n && k < g.n * g.len
    ensures Done(g, states[|run|])
    ensures Chunk(g, k) < g.n && forall j :: 0 <= j < |xs| ==> k < |xs[j]|
    ensures states[|run|].bufs[i][k] == if g.sigma == 0 then xs[Chunk(g, k)][k] else Sum(xs, k)
  {
    hide Buf; hide Sum; hide Chunk; hide Enabled; hide Apply;
    var s := states[|run|];
    RunKeepsInv(g, xs, run, states, |run|);
    Stuck(g, s);
    ChunkBound(g, k);
    Wide(g, xs, k);
    assert BufOk(g, xs, s.bufs[i], i, Recvs(i, s.ops[i]));
    assert Recvs(i, s.ops[i]) == g.exchanges;
    if g.sigma == 0 { WrittenRingIsDiagonal(g, xs, i, k); } else { ShiftedRingIsSum(g, xs, i, k); }
  }
}
