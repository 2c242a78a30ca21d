/** `SPLIT_THREADS` (src/nn/nn-quants.hpp): the contiguous share of a range each thread owns. */
module SplitThreads {
  import opened Common

  function Start(len: nat, nThreads: nat, t: nat): nat
    requires 0 < nThreads
  {
    t * (len / nThreads) + if t < len % nThreads then t else len % nThreads
  }

  function End(len: nat, nThreads: nat, t: nat): nat
    requires 0 < nThreads
  {
    Start(len, nThreads, t) + len / nThreads + if t < len % nThreads then 1 else 0
  }

  lemma Adjacent(len: nat, nThreads: nat, t: nat)
    requires 0 < nThreads
    ensures Start(len, nThreads, t) <= End(len, nThreads, t) == Start(len, nThreads, t + 1)
  {
    assert (t + 1) * (len / nThreads) == t * (len / nThreads) + len / nThreads;
  }

  lemma Whole(len: nat, nThreads: nat)
    requires 0 < nThreads
    ensures Start(len, nThreads, 0) == 0 && Start(len, nThreads, nThreads) == len
  {
    assert len == nThreads * (len / nThreads) + len % nThreads;
  }

  lemma {:induction false} Ordered(len: nat, nThreads: nat, t: nat, u: nat)
    requires 0 < nThreads && t <= u
    ensures Start(len, nThreads, t) <= Start(len, nThreads, u)
    decreases u
  {
    hide Start;
    if t < u {
      Ordered(len, nThreads, t, u - 1);
      Adjacent(len, nThreads, u - 1);
    }
  }

  /** No two threads own the same index. */
  lemma Disjoint(len: nat, nThreads: nat, t: nat, u: nat, i: nat)
    requires 0 < nThreads && t != u
    requires Start(len, nThreads, t) <= i < End(len, nThreads, t)
    ensures !(Start(len, nThreads, u) <= i < End(len, nThreads, u))
  {
    hide Start;
    Adjacent(len, nThreads, t);
    Adjacent(len, nThreads, u);
    if t < u { Ordered(len, nThreads, t + 1, u); } else { Ordered(len, nThreads, u + 1, t); }
  }

  /** No share reaches past the range. */
  lemma Inside(len: nat, nThreads: nat, t: nat)
    requires 0 < nThreads && t < nThreads
    ensures Start(len, nThreads, t) <= End(len, nThreads, t) <= len
  {
    hide Start;
    Adjacent(len, nThreads, t);
    Ordered(len, nThreads, t + 1, nThreads);
    Whole(len, nThreads);
  }

  /** Every index is owned: the thread is found by walking the shares. */
  lemma {:induction false} OwnerBelow(len: nat, nThreads: nat, m: nat, i: nat) returns (t: nat)
    requires 0 < nThreads && i < Start(len, nThreads, m)
    ensures t < m && Start(len, nThreads, t) <= i < End(len, nThreads, t)
    decreases m
  {
    hide Start;
    Whole(len, nThreads);
    Adjacent(len, nThreads, m - 1);
    if Start(len, nThreads, m - 1) <= i {
      t := m - 1;
    } else {
      t := OwnerBelow(len, nThreads, m - 1, i);
    }
  }

  lemma Owner(len: nat, nThreads: nat, i: nat) returns (t: nat)
    requires 0 < nThreads && i < len
    ensures t < nThreads && Start(len, nThreads, t) <= i < End(len, nThreads, t)
  {
    Whole(len, nThreads);
    t := OwnerBelow(len, nThreads, nThreads, i);
  }

  // ---- Sockets in turn ----------------------------------------------------------------------------

  /** How many sockets thread `t` of the root takes in `syncWithRoot` (src/nn/nn-network.cpp). */
  function SocketShare(nSockets: nat, nThreads: nat, t: nat): nat
    requires 0 < nThreads
  {
    nSockets / nThreads + if nSockets % nThreads > t then 1 else 0
  }

  /** The `i`-th of them: threads take sockets in turn. */
  function SocketOf(nThreads: nat, t: nat, i: nat): nat { t + i * nThreads }

  /** Every socket is taken by exactly one thread, and a thread takes as many as its contiguous share has
      places. So a sync that hands out sockets is a step split over the threads, whose place Start(t) + i
      is what leaves on socket t + i * nThreads. */
  lemma SocketsInTurn(nSockets: nat, nThreads: nat, s: nat, t: nat, i: nat)
    requires 0 < nThreads && t < nThreads
    ensures SocketShare(nSockets, nThreads, t) == End(nSockets, nThreads, t) - Start(nSockets, nThreads, t)
    ensures i < SocketShare(nSockets, nThreads, t) <==> SocketOf(nThreads, t, i) < nSockets
    ensures SocketOf(nThreads, t, i) == s <==> t == s % nThreads && i == s / nThreads
  {
    var q, r := nSockets / nThreads, nSockets % nThreads;
    assert nSockets == q * nThreads + r;
    MulMonotone(i + 1, q, nThreads);
    MulMonotone(q + 1, i, nThreads);
    assert (i + 1) * nThreads == i * nThreads + nThreads && (q + 1) * nThreads == q * nThreads + nThreads;
    QuotRem(SocketOf(nThreads, t, i), i, t, nThreads);
    assert s == s / nThreads * nThreads + s % nThreads;
  }
}
