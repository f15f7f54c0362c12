/**
 The relaxed cost of the goal against real runs: it is finite wherever a run reaches
 the goal, 0 where the goal holds, and for hmax over propositional effects it never
 exceeds the number of steps.
*/
module RelaxationBound {
  import opened Costs
  import opened CostExpressions
  import opened Relaxation

  predicate TrueIn(t: Tree, truths: set<nat>) {
    match t
    case Leaf(c) => c in truths
    case And(ts) => AllTrue(ts, truths)
    case Or(ts) => AnyTrue(ts, truths)
  }

  predicate AllTrue(ts: seq<Tree>, truths: set<nat>) {
    ts == [] || (TrueIn(ts[0], truths) && AllTrue(ts[1..], truths))
  }

  predicate AnyTrue(ts: seq<Tree>, truths: set<nat>) {
    ts != [] && (TrueIn(ts[0], truths) || AnyTrue(ts[1..], truths))
  }

  ghost predicate Becomes(t: Task, o: nat, c: nat)
    requires o < |t.ops|
  {
    c < |t.init| && (Le(t.init[c], Fin(1)) || exists w :: Offers(t, o, c, w))
  }

  /** One step of a run: the operator's precondition holds, and each condition that
      becomes true is one it reaches, or one that costs at most 1 anyway. */
  ghost predicate StepsTo(t: Task, truths: set<nat>, o: nat, truths': set<nat>) {
    && o < |t.ops| && TrueIn(t.ops[o].pre, truths)
    && forall c | c in truths' && c !in truths :: Becomes(t, o, c)
  }

  /** The conditions true along a run: at first those that cost nothing. */
  ghost predicate IsRun(t: Task, truths: seq<set<nat>>, ops: seq<nat>) {
    && |truths| == |ops| + 1
    && (forall c | c in truths[0] :: c < |t.init| && t.init[c] == Fin(0))
    && forall k | 0 <= k < |ops| :: StepsTo(t, truths[k], ops[k], truths[k + 1])
  }

  /** No step of the run reaches a condition by repetition. */
  ghost predicate Propositional(t: Task, ops: seq<nat>) {
    forall o | o in ops :: o < |t.ops| && t.ops[o].numeric == []
  }

  // Every condition true costs something finite, and at most `k` if `bounded`.
  ghost predicate Affordable(v: seq<Cost>, truths: set<nat>, k: nat, bounded: bool) {
    forall c | c in truths :: At(v, c).Fin? && (bounded ==> Le(At(v, c), Fin(k)))
  }

  lemma {:induction false} AffordableTree(t: Tree, v: seq<Cost>, hmax: bool, truths: set<nat>, k: nat, bounded: bool)
    requires TrueIn(t, truths) && Affordable(v, truths, k, bounded) && (bounded ==> hmax || k == 0)
    ensures TreeCost(t, v, hmax).Fin? && (bounded ==> Le(TreeCost(t, v, hmax), Fin(k)))
  {
    match t
    case Leaf(_) =>
    case And(ts) => AffordableAnd(ts, v, hmax, truths, k, bounded);
    case Or(ts) => AffordableOr(ts, v, hmax, truths, k, bounded);
  }

  lemma {:induction false} AffordableAnd(
    ts: seq<Tree>, v: seq<Cost>, hmax: bool, truths: set<nat>, k: nat, bounded: bool)
    requires AllTrue(ts, truths) && Affordable(v, truths, k, bounded) && (bounded ==> hmax || k == 0)
    ensures AndCost(ts, v, hmax).Fin? && (bounded ==> Le(AndCost(ts, v, hmax), Fin(k)))
  {
    if ts != [] {
      AffordableTree(ts[0], v, hmax, truths, k, bounded);
      AffordableAnd(ts[1..], v, hmax, truths, k, bounded);
    }
  }

  lemma {:induction false} AffordableOr(
    ts: seq<Tree>, v: seq<Cost>, hmax: bool, truths: set<nat>, k: nat, bounded: bool)
    requires AnyTrue(ts, truths) && Affordable(v, truths, k, bounded) && (bounded ==> hmax || k == 0)
    ensures OrCost(ts, v, hmax).Fin? && (bounded ==> Le(OrCost(ts, v, hmax), Fin(k)))
  {
    if TrueIn(ts[0], truths) {
      AffordableTree(ts[0], v, hmax, truths, k, bounded);
    } else {
      AffordableOr(ts[1..], v, hmax, truths, k, bounded);
    }
  }

  /** After `k` steps, what is true costs at most `k`. */
  lemma {:induction false} RunAffordable(t: Task, v: seq<Cost>, truths: seq<set<nat>>, ops: seq<nat>, k: nat)
    requires Solution(t, v) && IsRun(t, truths, ops) && k <= |ops|
    ensures Affordable(v, truths[k], k, k == 0 || (t.hmax && Propositional(t, ops)))
  {
    var bounded := t.hmax && Propositional(t, ops);
    if k == 0 {
      forall c | c in truths[0] ensures At(v, c) == Fin(0) {
        assert Bounded(t, v, c);
      }
    } else {
      RunAffordable(t, v, truths, ops, k - 1);
      var o := ops[k - 1];
      assert o in ops && StepsTo(t, truths[k - 1], o, truths[k]);
      AffordableTree(t.ops[o].pre, v, t.hmax, truths[k - 1], k - 1, k - 1 == 0 || bounded);
      forall c | c in truths[k] ensures At(v, c).Fin? && (bounded ==> Le(At(v, c), Fin(k))) {
        if c !in truths[k - 1] {
          assert Becomes(t, o, c) && Bounded(t, v, c);
          if w :| Offers(t, o, c, w) {
            assert Le(v[c], Offer(t, o, w, v));
          }
        }
      }
    }
  }

  /** Every operator a run applies is reached. */
  lemma AppliedIsReached(t: Task, v: seq<Cost>, truths: seq<set<nat>>, ops: seq<nat>, k: nat)
    requires Solution(t, v) && IsRun(t, truths, ops) && k < |ops|
    ensures ops[k] < |t.ops| && Pre(t, ops[k], v).Fin?
  {
    RunAffordable(t, v, truths, ops, k);
    assert StepsTo(t, truths[k], ops[k], truths[k + 1]);
    AffordableTree(t.ops[ops[k]].pre, v, t.hmax, truths[k], k, false);
  }

  /** A run that ends where the goal holds bounds the goal's cost: it is finite, 0 for
      the empty run, and at most its length for hmax over propositional effects. */
  lemma GoalAffordable(t: Task, v: seq<Cost>, truths: seq<set<nat>>, ops: seq<nat>)
    requires ValidTask(t) && Solution(t, v) && IsRun(t, truths, ops)
    requires TrueIn(t.ops[t.Goal()].pre, truths[|ops|])
    ensures Pre(t, t.Goal(), v).Fin?
    ensures ops == [] ==> Pre(t, t.Goal(), v) == Fin(0)
    ensures t.hmax && Propositional(t, ops) ==> Le(Pre(t, t.Goal(), v), Fin(|ops|))
  {
    RunAffordable(t, v, truths, ops, |ops|);
    AffordableTree(t.ops[t.Goal()].pre, v, t.hmax, truths[|ops|], |ops|,
                   ops == [] || (t.hmax && Propositional(t, ops)));
  }
}
