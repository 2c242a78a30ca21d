/** What an op program does to a node's memory, and when its result depends only on what it was given. */
module StageSemantics {
  import opened LayerPrograms

  type Tensor = seq<real>

  /** Contents of every pipe and buffer; what no op has written yet is whatever was left there. */
  type Memory = Loc -> Tensor

  /** The layer mathematics, left open: the outputs of an op from its inputs. */
  type Eval = (Kind, seq<Tensor>) -> seq<Tensor>

  function Put(m: Memory, at: Loc, v: Tensor): Memory { l => if l == at then v else m(l) }

  function Fetch(m: Memory, args: seq<Loc>): seq<Tensor>
  {
    seq(|args|, i requires 0 <= i < |args| => m(args[i]))
  }

  function PutAll(m: Memory, outs: seq<Loc>, vals: seq<Tensor>): Memory
  {
    if outs == [] then m
    else PutAll(Put(m, outs[0], if vals == [] then [] else vals[0]), outs[1..], if vals == [] then [] else vals[1..])
  }

  function Exec(eval: Eval, op: Op, m: Memory): Memory
  {
    PutAll(m, op.outs, eval(op.kind, Fetch(m, op.args)))
  }

  function Run(eval: Eval, p: Program, m: Memory): Memory
  {
    if p == [] then m else Run(eval, p[1..], Exec(eval, p[0], m))
  }

  // ---- No stale reads -------------------------------------------------------------------------

  function Locs(ls: seq<Loc>): set<Loc> { set l | l in ls }

  /** Every op reads only what was given or what an earlier op of the program wrote. */
  predicate Defined(p: Program, have: set<Loc>)
  {
    p == [] || (Locs(p[0].args) <= have && Defined(p[1..], have + Locs(p[0].outs)))
  }

  function Writes(p: Program): set<Loc>
  {
    if p == [] then {} else Locs(p[0].outs) + Writes(p[1..])
  }

  predicate Agree(a: Memory, b: Memory, s: set<Loc>) { forall l :: l in s ==> a(l) == b(l) }

  // ---- Sequential composition -----------------------------------------------------------------

  lemma {:induction false} RunAppend(eval: Eval, p: Program, q: Program, m: Memory)
    ensures Run(eval, p + q, m) == Run(eval, q, Run(eval, p, m))
    decreases |p|
  {
    hide Exec;
    if p == [] {
      assert p + q == q;
    } else {
      assert (p + q)[1..] == p[1..] + q;
      RunAppend(eval, p[1..], q, Exec(eval, p[0], m));
    }
  }

  lemma {:induction false} WritesAppend(p: Program, q: Program)
    ensures Writes(p + q) == Writes(p) + Writes(q)
  {
    if p == [] {
      assert p + q == q;
    } else {
      assert (p + q)[1..] == p[1..] + q;
      WritesAppend(p[1..], q);
    }
  }

  lemma {:induction false} DefinedMonotone(p: Program, have: set<Loc>, more: set<Loc>)
    requires have <= more && Defined(p, have)
    ensures Defined(p, more)
    decreases |p|
  {
    if p != [] { DefinedMonotone(p[1..], have + Locs(p[0].outs), more + Locs(p[0].outs)); }
  }

  lemma {:induction false} DefinedAppend(p: Program, q: Program, have: set<Loc>)
    ensures Defined(p + q, have) <==> Defined(p, have) && Defined(q, have + Writes(p))
    decreases |p|
  {
    if p == [] {
      assert p + q == q && have + Writes(p) == have;
    } else {
      assert (p + q)[1..] == p[1..] + q;
      DefinedAppend(p[1..], q, have + Locs(p[0].outs));
      assert have + Locs(p[0].outs) + Writes(p[1..]) == have + Writes(p);
    }
  }

  // ---- Results depend only on what was given ----------------------------------------------------

  lemma {:induction false} PutAllAgrees(a: Memory, b: Memory, outs: seq<Loc>, vals: seq<Tensor>, s: set<Loc>)
    requires Agree(a, b, s)
    ensures Agree(PutAll(a, outs, vals), PutAll(b, outs, vals), s + Locs(outs))
    decreases |outs|
  {
    if outs != [] {
      var v := if vals == [] then [] else vals[0];
      PutAllAgrees(Put(a, outs[0], v), Put(b, outs[0], v), outs[1..], if vals == [] then []
        else vals[1..], s + {outs[0]});
      assert s + {outs[0]} + Locs(outs[1..]) == s + Locs(outs);
    }
  }

  lemma {:induction false} PutAllKeeps(m: Memory, outs: seq<Loc>, vals: seq<Tensor>, l: Loc)
    requires l !in outs
    ensures PutAll(m, outs, vals)(l) == m(l)
    decreases |outs|
  {
    if outs != [] {
      PutAllKeeps(Put(m, outs[0], if vals == [] then [] else vals[0]), outs[1..], if vals == [] then []
        else vals[1..], l);
    }
  }

  lemma ExecAgrees(eval: Eval, op: Op, a: Memory, b: Memory, have: set<Loc>)
    requires Locs(op.args) <= have && Agree(a, b, have)
    ensures Agree(Exec(eval, op, a), Exec(eval, op, b), have + Locs(op.outs))
  {
    assert Fetch(a, op.args) == Fetch(b, op.args) by {
      forall i | 0 <= i < |op.args| ensures a(op.args[i]) == b(op.args[i]) { assert op.args[i] in Locs(op.args); }
    }
    PutAllAgrees(a, b, op.outs, eval(op.kind, Fetch(a, op.args)), have);
  }

  /** A program with no stale reads turns memories that agree on what it was given into memories that
      agree on that and on all it wrote: leftovers cannot show. */
  lemma {:induction false} NonInterference(eval: Eval, p: Program, a: Memory, b: Memory, have: set<Loc>)
    requires Defined(p, have) && Agree(a, b, have)
    ensures Agree(Run(eval, p, a), Run(eval, p, b), have + Writes(p))
    decreases |p|
  {
    hide Exec;
    if p == [] {
      assert have + Writes(p) == have;
    } else {
      ExecAgrees(eval, p[0], a, b, have);
      NonInterference(eval, p[1..], Exec(eval, p[0], a), Exec(eval, p[0], b), have + Locs(p[0].outs));
      assert have + Locs(p[0].outs) + Writes(p[1..]) == have + Writes(p);
    }
  }

  lemma {:induction false} Untouched(eval: Eval, p: Program, m: Memory, l: Loc)
    requires l !in Writes(p)
    ensures Run(eval, p, m)(l) == m(l)
    decreases |p|
  {
    if p != [] {
      PutAllKeeps(m, p[0].outs, eval(p[0].kind, Fetch(m, p[0].args)), l);
      Untouched(eval, p[1..], Exec(eval, p[0], m), l);
    }
  }

  // ---- Checking concrete segments -----------------------------------------------------------------

  /** Reads nothing but `need`, and writes all of `give` and nothing outside `may`. */
  predicate Segment(p: Program, need: set<Loc>, give: set<Loc>, may: Loc -> bool)
  {
    Defined(p, need) && give <= Writes(p) && forall l :: l in Writes(p) ==> may(l)
  }

  lemma SegmentThen(
      p: Program, q: Program, need: set<Loc>, give: set<Loc>, need': set<Loc>, give': set<Loc>, may: Loc -> bool)
    requires Segment(p, need, give, may) && Segment(q, need', give', may) && need' <= need + give
    ensures Segment(p + q, need, give + give', may)
  {
    WritesAppend(p, q);
    DefinedMonotone(q, need', need + Writes(p));
    DefinedAppend(p, q, need);
  }

  lemma SegmentWiden(p: Program, need: set<Loc>, give: set<Loc>, need': set<Loc>, give': set<Loc>, may: Loc -> bool)
    requires Segment(p, need, give, may) && need <= need' && give' <= give
    ensures Segment(p, need', give', may)
  {
    DefinedMonotone(p, need, need');
  }

  lemma NoOps(need: set<Loc>, may: Loc -> bool)
    ensures Segment([], need, {}, may)
  {
  }

  lemma OneOp(a: Op, may: Loc -> bool)
    requires forall l :: l in a.outs ==> may(l)
    ensures Segment([a], Locs(a.args), Locs(a.outs), may)
  {
    assert Defined([a][1..], Locs(a.args) + Locs(a.outs)) && Writes([a][1..]) == {};
  }

  lemma ConsOp(a: Op, p: Program, need: set<Loc>, give: set<Loc>, need': set<Loc>, may: Loc -> bool)
    requires Segment(p, need', give, may) && Locs(a.args) <= need && need' <= need + Locs(a.outs)
    requires forall l :: l in a.outs ==> may(l)
    ensures Segment([a] + p, need, Locs(a.outs) + give, may)
  {
    OneOp(a, may);
    SegmentWiden([a], Locs(a.args), Locs(a.outs), need, Locs(a.outs), may);
    SegmentThen([a], p, need, Locs(a.outs), need', give, may);
  }

  predicate OutsOk(a: Op, may: Loc -> bool) { forall l :: l in a.outs ==> may(l) }

  lemma TwoOps(a: Op, b: Op, need: set<Loc>, give: set<Loc>, may: Loc -> bool)
    requires OutsOk(a, may) && OutsOk(b, may)
    requires Locs(a.args) <= need && Locs(b.args) <= need + Locs(a.outs)
    requires give <= Locs(a.outs) + Locs(b.outs)
    ensures Segment([a, b], need, give, may)
  {
    hide Segment; hide Locs;
    OneOp(b, may);
    ConsOp(a, [b], need, Locs(b.outs), Locs(b.args), may);
    assert [a, b] == [a] + [b];
    SegmentWiden([a, b], need, Locs(a.outs) + Locs(b.outs), need, give, may);
  }

  lemma ThreeOps(a: Op, b: Op, c: Op, need: set<Loc>, give: set<Loc>, may: Loc -> bool)
    requires OutsOk(a, may) && OutsOk(b, may) && OutsOk(c, may)
    requires Locs(a.args) <= need && Locs(b.args) <= need + Locs(a.outs)
    requires Locs(c.args) <= need + Locs(a.outs) + Locs(b.outs)
    requires give <= Locs(a.outs) + Locs(b.outs) + Locs(c.outs)
    ensures Segment([a, b, c], need, give, may)
  {
    hide Segment; hide Locs;
    var mid := need + Locs(a.outs);
    TwoOps(b, c, mid, Locs(b.outs) + Locs(c.outs), may);
    ConsOp(a, [b, c], need, Locs(b.outs) + Locs(c.outs), mid, may);
    assert [a, b, c] == [a] + [b, c];
    SegmentWiden([a, b, c], need, Locs(a.outs) + (Locs(b.outs) + Locs(c.outs)), need, give, may);
  }

  lemma FourOps(a: Op, b: Op, c: Op, d: Op, need: set<Loc>, give: set<Loc>, may: Loc -> bool)
    requires OutsOk(a, may) && OutsOk(b, may) && OutsOk(c, may) && OutsOk(d, may)
    requires Locs(a.args) <= need && Locs(b.args) <= need + Locs(a.outs)
    requires Locs(c.args) <= need + Locs(a.outs) + Locs(b.outs)
    requires Locs(d.args) <= need + Locs(a.outs) + Locs(b.outs) + Locs(c.outs)
    requires give <= Locs(a.outs) + Locs(b.outs) + Locs(c.outs) + Locs(d.outs)
    ensures Segment([a, b, c, d], need, give, may)
  {
    hide Segment; hide Locs;
    var mid := need + Locs(a.outs);
    ThreeOps(b, c, d, mid, Locs(b.outs) + Locs(c.outs) + Locs(d.outs), may);
    ConsOp(a, [b, c, d], need, Locs(b.outs) + Locs(c.outs) + Locs(d.outs), mid, may);
    assert [a, b, c, d] == [a] + [b, c, d];
    SegmentWiden([a, b, c, d], need, Locs(a.outs) + (Locs(b.outs) + Locs(c.outs) + Locs(d.outs)), need, give, may);
  }

  /** A cast that is left out when source and target are one buffer, then a program that reads the target. */
  lemma CastThen(c: Config, from: Loc, to: Loc, p: Program, need: set<Loc>, give: set<Loc>, may: Loc -> bool)
    requires may(to) && from in need && Segment(p, need + {to}, give, may)
    ensures Segment(CastTo(c, from, to) + p, need, give, may)
  {
    var g := if from == to then {} else {to};
    if from == to {
      NoOps(need, may);
      assert need + {to} == need;
    } else {
      OneOp(Op(Cast(F32, Sync), [from], [to]), may);
      SegmentWiden(CastTo(c, from, to), {from}, {to}, need, {to}, may);
    }
    hide Segment;
    SegmentThen(CastTo(c, from, to), p, need, g, need + {to}, give, may);
    SegmentWiden(CastTo(c, from, to) + p, need, g + give, need, give, may);
  }
}
