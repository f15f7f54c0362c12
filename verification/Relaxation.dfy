/**
 The delete relaxation of one state: the cost equations that hadd, hff and the
 non-draining hmax of `heuristics.rs` compute, and that a draining hmax stays
 within, stated without any algorithm.
*/
module Relaxation {
  import opened Costs
  import opened CostExpressions

  /** An operator of the relaxation.  `effects` cost 1 on top of the
      precondition; `numeric` pairs a simple numeric condition with the number
      of repetitions needed to reach it from the state at hand. */
  datatype Operator = Operator(
    action: nat, pre: Tree, nodes: seq<Node>, effects: seq<nat>, numeric: seq<(nat, nat)>)

  /** The relaxation of a state.  The goal is the pseudo-operator
      `|ops| - 1`; `readers[c]` are the operators whose precondition reads
      `c`, and `init[c]` is the cost `c` starts from. */
  datatype Task = Task(ops: seq<Operator>, init: seq<Cost>, readers: seq<seq<nat>>, hmax: bool)
  {
    function Goal(): int { |ops| - 1 }
  }

  ghost predicate ValidOperator(t: Task, o: Operator) {
    && Represents(o.nodes, o.pre)
    && (forall c | c in Leaves(o.pre) :: c < |t.init|)
    && (forall i | 0 <= i < |o.nodes| && o.nodes[i].LeafNode? :: o.nodes[i].cid < |t.init|)
    && (forall c | c in o.effects :: c < |t.init|)
    // a condition that does not hold yet needs at least one repetition
    && (forall n | n in o.numeric :: n.0 < |t.init| && (t.init[n.0] != Fin(0) ==> n.1 >= 1))
  }

  // The readers of `c`, once each.
  ghost predicate ValidReader(t: Task, c: nat)
    requires c < |t.readers|
  {
    && (forall o | o in t.readers[c] :: o < |t.ops|)
    && (forall o | 0 <= o < |t.ops| :: o in t.readers[c] <==> c in Leaves(t.ops[o].pre))
    && (forall i, j | 0 <= i < j < |t.readers[c]| :: t.readers[c][i] != t.readers[c][j])
  }

  ghost predicate ValidReaders(t: Task) {
    |t.readers| == |t.init| && forall c | 0 <= c < |t.readers| :: ValidReader(t, c)
  }

  ghost predicate ValidTask(t: Task) {
    && t.ops != []
    && (forall o | 0 <= o < |t.ops| :: ValidOperator(t, t.ops[o]))
    && t.ops[t.Goal()].effects == [] && t.ops[t.Goal()].numeric == []
    && ValidReaders(t)
  }

  /** Operator `o` reaches condition `c` for `w` more than its precondition.
      Numeric conditions that already hold are skipped. */
  ghost predicate Offers(t: Task, o: nat, c: nat, w: nat)
    requires o < |t.ops|
  {
    || (c in t.ops[o].effects && w == 1)
    || ((c, w) in t.ops[o].numeric && c < |t.init| && t.init[c] != Fin(0))
  }

  ghost function Pre(t: Task, o: nat, v: seq<Cost>): Cost
    requires o < |t.ops|
  {
    TreeCost(t.ops[o].pre, v, t.hmax)
  }

  ghost function Offer(t: Task, o: nat, w: nat, v: seq<Cost>): Cost
    requires o < |t.ops|
  {
    Plus(Fin(w), Pre(t, o, v))
  }

  // `v[c]` is no more than anything that reaches `c` ...
  ghost predicate Bounded(t: Task, v: seq<Cost>, c: nat)
    requires c < |v| == |t.init|
  {
    && Le(v[c], t.init[c])
    && forall o, w | 0 <= o < |t.ops| && Offers(t, o, c, w) :: Le(v[c], Offer(t, o, w, v))
  }

  // ... and is reached by one of them.
  ghost predicate Attained(t: Task, v: seq<Cost>, c: nat)
    requires c < |v| == |t.init|
  {
    || v[c] == t.init[c]
    || exists o, w :: 0 <= o < |t.ops| && Offers(t, o, c, w) && v[c] == Offer(t, o, w, v)
  }

  /** `v` solves the AND/OR cost equations: every condition costs the least of
      its initial cost and of the offers of the operators reaching it. */
  ghost predicate Solution(t: Task, v: seq<Cost>) {
    && |v| == |t.init|
    && forall c | 0 <= c < |v| :: Bounded(t, v, c) && Attained(t, v, c)
  }

  /** Costs within every offer are within the solution, since every offer costs
      more than the precondition it pays for.  So there is at most one solution. */
  lemma {:induction false} SolutionBelow(t: Task, v: seq<Cost>, u: seq<Cost>, c: nat, k: nat)
    requires ValidTask(t) && Solution(t, v)
    requires |u| == |t.init| && forall x | 0 <= x < |u| :: Bounded(t, u, x)
    requires c < |v| && v[c] == Fin(k)
    ensures Le(u[c], v[c])
    decreases k
  {
    assert Bounded(t, u, c) && Attained(t, v, c);
    if v[c] != t.init[c] {
      var o, w :| 0 <= o < |t.ops| && Offers(t, o, c, w) && v[c] == Offer(t, o, w, v);
      assert ValidOperator(t, t.ops[o]);
      var p := Pre(t, o, v);
      assert p.Fin? && p.n < k;
      forall x | x in Leaves(t.ops[o].pre) && Le(At(v, x), p) ensures Le(At(u, x), At(v, x)) {
        SolutionBelow(t, v, u, x, v[x].n);
      }
      TreeMonotone(t.ops[o].pre, v, u, t.hmax, p);
      assert Le(u[c], Offer(t, o, w, u));
    }
  }

  lemma SolutionUnique(t: Task, v: seq<Cost>, u: seq<Cost>)
    requires ValidTask(t) && Solution(t, v) && Solution(t, u)
    ensures v == u
  {
    forall c | 0 <= c < |v| ensures v[c] == u[c] {
      if v[c].Fin? { SolutionBelow(t, v, u, c, v[c].n); }
      if u[c].Fin? { SolutionBelow(t, u, v, c, u[c].n); }
    }
  }

  // Naive value iteration, which shows that there is a solution.

  ghost predicate IsBest(t: Task, v: seq<Cost>, c: nat, best: Cost)
    requires c < |v| == |t.init|
  {
    && Le(best, t.init[c])
    && (forall o, w | 0 <= o < |t.ops| && Offers(t, o, c, w) :: Le(best, Offer(t, o, w, v)))
    && (best == t.init[c] || exists o, w :: 0 <= o < |t.ops| && Offers(t, o, c, w) && best == Offer(t, o, w, v))
  }

  // `best` is the least of the initial cost and of the offers up to `b`.
  ghost predicate Candidate(t: Task, v: seq<Cost>, c: nat, b: Cost)
    requires c < |v| == |t.init|
  {
    b == t.init[c] || exists o, w :: 0 <= o < |t.ops| && Offers(t, o, c, w) && b == Offer(t, o, w, v)
  }

  lemma BestExists(t: Task, v: seq<Cost>, c: nat, b: Cost)
    requires c < |v| == |t.init| && Candidate(t, v, c, b) && Le(b, t.init[c])
    ensures exists best :: IsBest(t, v, c, best)
    decreases if b.Inf? then 1 else 0, if b.Inf? then 0 else b.n
  {
    if IsBest(t, v, c, b) {
    } else {
      var o, w :| 0 <= o < |t.ops| && Offers(t, o, c, w) && !Le(b, Offer(t, o, w, v));
      BestExists(t, v, c, Offer(t, o, w, v));
    }
  }

  ghost function Best(t: Task, v: seq<Cost>, c: nat): (best: Cost)
    requires c < |v| == |t.init|
    ensures IsBest(t, v, c, best)
  {
    BestExists(t, v, c, t.init[c]);
    var best :| IsBest(t, v, c, best);
    best
  }

  ghost function Iterate(t: Task, v: seq<Cost>): (u: seq<Cost>)
    requires |v| == |t.init|
    ensures |u| == |v| && forall c | 0 <= c < |u| :: IsBest(t, v, c, u[c])
  {
    seq(|v|, c requires 0 <= c < |v| => Best(t, v, c))
  }

  ghost function Unreached(v: seq<Cost>): nat {
    if v == [] then 0 else Unreached(v[1..]) + if v[0].Inf? then 1 else 0
  }

  ghost function Total(v: seq<Cost>): nat {
    if v == [] then 0 else Total(v[1..]) + if v[0].Inf? then 0 else v[0].n
  }

  lemma {:induction false} LowerMeasure(v: seq<Cost>, u: seq<Cost>)
    requires |u| == |v| && forall c | 0 <= c < |v| :: Le(u[c], v[c])
    ensures Unreached(u) <= Unreached(v)
    ensures Unreached(u) == Unreached(v) ==> Total(u) <= Total(v)
    ensures u != v ==> Unreached(u) < Unreached(v) || Total(u) < Total(v)
  {
    if v != [] {
      LowerMeasure(v[1..], u[1..]);
      assert u != v ==> u[0] != v[0] || u[1..] != v[1..];
    }
  }

  lemma IterateMonotone(t: Task, v: seq<Cost>, u: seq<Cost>)
    requires |v| == |u| == |t.init| && forall c | 0 <= c < |v| :: Le(u[c], v[c])
    ensures forall c | 0 <= c < |v| :: Le(Iterate(t, u)[c], Iterate(t, v)[c])
  {
    forall c | 0 <= c < |v| ensures Le(Iterate(t, u)[c], Iterate(t, v)[c]) {
      var b := Iterate(t, v)[c];
      assert IsBest(t, v, c, b) && IsBest(t, u, c, Iterate(t, u)[c]);
      if b != t.init[c] {
        var o, w :| 0 <= o < |t.ops| && Offers(t, o, c, w) && b == Offer(t, o, w, v);
        CheaperTree(t.ops[o].pre, v, u, t.hmax);
        assert Le(Iterate(t, u)[c], Offer(t, o, w, u));
      }
    }
  }

  /** Value iteration from above settles on a solution. */
  lemma {:induction false} IterationSettles(t: Task, v: seq<Cost>)
    requires |v| == |t.init| && forall c | 0 <= c < |v| :: Le(Iterate(t, v)[c], v[c])
    ensures exists u :: Solution(t, u)
    decreases Unreached(v), Total(v)
  {
    var u := Iterate(t, v);
    if u == v {
      assert Solution(t, v);
    } else {
      LowerMeasure(v, u);
      IterateMonotone(t, v, u);
      IterationSettles(t, u);
    }
  }

  lemma SolutionExists(t: Task)
    ensures exists v :: Solution(t, v)
  {
    IterationSettles(t, seq(|t.init|, c => Inf));
  }

  /** The costs the relaxation assigns to the conditions. */
  ghost function Value(t: Task): (v: seq<Cost>)
    ensures Solution(t, v)
  {
    SolutionExists(t);
    var v :| Solution(t, v);
    v
  }
}
