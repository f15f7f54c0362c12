/**
 What a finite relaxed cost means: the operators can be applied one after the other,
 deleting nothing, until the tree is true.
*/
module RelaxedReach {
  import opened Costs
  import opened CostExpressions
  import opened Relaxation
  import opened RelaxationBound

  // The conditions operator `o` reaches.
  ghost predicate Reaches(t: Task, o: nat, c: nat) {
    o < |t.ops| && exists w :: Offers(t, o, c, w)
  }

  /** The condition is reached at first, or by one of the operators. */
  ghost predicate ReachedAfter(t: Task, ops: seq<nat>, c: nat) {
    c < |t.init| && (t.init[c].Fin? || exists o :: o in ops && Reaches(t, o, c))
  }

  ghost function After(t: Task, ops: seq<nat>): set<nat> {
    set c | 0 <= c < |t.init| && ReachedAfter(t, ops, c)
  }

  /** Each operator, none the goal, has its precondition true of what those before it
      reach. */
  ghost predicate Sequence(t: Task, ops: seq<nat>) {
    forall i | 0 <= i < |ops| :: ops[i] < t.Goal() && TrueIn(t.ops[ops[i]].pre, After(t, ops[..i]))
  }

  lemma SequenceSnoc(t: Task, ops: seq<nat>, o: nat)
    requires Sequence(t, ops) && o < t.Goal() && TrueIn(t.ops[o].pre, After(t, ops))
    ensures Sequence(t, ops + [o])
  {
    var more := ops + [o];
    forall i | 0 <= i < |more| ensures more[i] < t.Goal() && TrueIn(t.ops[more[i]].pre, After(t, more[..i])) {
      if i < |ops| {
        assert more[..i] == ops[..i];
      } else {
        assert more[..i] == ops;
      }
    }
  }

  lemma SequencePrefix(t: Task, ops: seq<nat>, k: nat)
    requires Sequence(t, ops) && k <= |ops|
    ensures Sequence(t, ops[..k])
  {
    forall i | 0 <= i < k ensures TrueIn(t.ops[ops[..k][i]].pre, After(t, ops[..k][..i])) {
      assert ops[..k][..i] == ops[..i];
    }
  }

  lemma AfterMore(t: Task, ops: seq<nat>, o: nat)
    ensures After(t, ops) <= After(t, ops + [o])
    ensures forall c: nat | c < |t.init| && Reaches(t, o, c) :: c in After(t, ops + [o])
  {
    assert o in ops + [o];
    forall c | c in After(t, ops) ensures c in After(t, ops + [o]) {
      if x :| x in ops && Reaches(t, x, c) {
        assert x in ops + [o];
      }
    }
  }

  // ---- what a sequence reaches is finite ----

  lemma {:induction false} SequenceFinite(t: Task, v: seq<Cost>, ops: seq<nat>)
    requires Solution(t, v) && Sequence(t, ops)
    ensures Affordable(v, After(t, ops), 0, false)
    decreases |ops|
  {
    forall c | c in After(t, ops) ensures At(v, c).Fin? {
      assert Bounded(t, v, c);
      if !t.init[c].Fin? {
        var o: nat :| o in ops && Reaches(t, o, c);
        var i :| 0 <= i < |ops| && ops[i] == o;
        SequencePrefix(t, ops, i);
        SequenceFinite(t, v, ops[..i]);
        AffordableTree(t.ops[o].pre, v, t.hmax, After(t, ops[..i]), 0, false);
        var w :| Offers(t, o, c, w);
        assert Le(v[c], Offer(t, o, w, v));
      }
    }
  }

  // ---- what is finite is reached by a sequence ----

  // The conditions among `cs` that cost at most `k`.
  ghost function Within(v: seq<Cost>, cs: nat, k: nat): set<nat> {
    set c | 0 <= c < cs && c < |v| && Le(v[c], Fin(k))
  }

  /** A tree that costs at most `k` is true of the leaves that do. */
  lemma {:induction false} CheapIsTrue(t: Tree, v: seq<Cost>, hmax: bool, k: nat, truths: set<nat>)
    requires Le(TreeCost(t, v, hmax), Fin(k)) && forall c | c in Leaves(t) && Le(At(v, c), Fin(k)) :: c in truths
    ensures TrueIn(t, truths)
  {
    match t
    case Leaf(_) =>
    case And(ts) => CheapAnd(ts, v, hmax, k, truths);
    case Or(ts) => CheapOr(ts, v, hmax, k, truths);
  }

  lemma {:induction false} CheapAnd(ts: seq<Tree>, v: seq<Cost>, hmax: bool, k: nat, truths: set<nat>)
    requires Le(AndCost(ts, v, hmax), Fin(k)) && forall c | c in AllLeaves(ts) && Le(At(v, c), Fin(k)) :: c in truths
    ensures AllTrue(ts, truths)
  {
    if ts != [] {
      CheapIsTrue(ts[0], v, hmax, k, truths);
      CheapAnd(ts[1..], v, hmax, k, truths);
    }
  }

  lemma {:induction false} CheapOr(ts: seq<Tree>, v: seq<Cost>, hmax: bool, k: nat, truths: set<nat>)
    requires Le(OrCost(ts, v, hmax), Fin(k)) && forall c | c in AllLeaves(ts) && Le(At(v, c), Fin(k)) :: c in truths
    ensures AnyTrue(ts, truths)
  {
    if ts != [] {
      if Le(TreeCost(ts[0], v, hmax), Fin(k)) {
        CheapIsTrue(ts[0], v, hmax, k, truths);
      } else {
        CheapOr(ts[1..], v, hmax, k, truths);
      }
    }
  }

  lemma {:induction false} TrueMore(t: Tree, truths: set<nat>, more: set<nat>)
    requires TrueIn(t, truths) && truths <= more
    ensures TrueIn(t, more)
  {
    match t
    case Leaf(_) =>
    case And(ts) => AllTrueMore(ts, truths, more);
    case Or(ts) => AnyTrueMore(ts, truths, more);
  }

  lemma {:induction false} AllTrueMore(ts: seq<Tree>, truths: set<nat>, more: set<nat>)
    requires AllTrue(ts, truths) && truths <= more
    ensures AllTrue(ts, more)
  {
    if ts != [] {
      TrueMore(ts[0], truths, more);
      AllTrueMore(ts[1..], truths, more);
    }
  }

  lemma {:induction false} AnyTrueMore(ts: seq<Tree>, truths: set<nat>, more: set<nat>)
    requires AnyTrue(ts, truths) && truths <= more
    ensures AnyTrue(ts, more)
  {
    if TrueIn(ts[0], truths) {
      TrueMore(ts[0], truths, more);
    } else {
      AnyTrueMore(ts[1..], truths, more);
    }
  }

  // Appends an operator that reaches `c`, when those costing less than `c` are reached.
  lemma ReachOne(t: Task, v: seq<Cost>, ops: seq<nat>, c: nat, k: nat) returns (ops': seq<nat>)
    requires ValidTask(t) && Solution(t, v) && Sequence(t, ops) && c < |v| && v[c] == Fin(k)
    requires k > 0 ==> Within(v, |v|, k - 1) <= After(t, ops)
    ensures Sequence(t, ops') && After(t, ops) <= After(t, ops') && c in After(t, ops')
  {
    ops' := ops;
    assert Attained(t, v, c);
    if !t.init[c].Fin? {
      var o: nat, w: nat :| o < |t.ops| && Offers(t, o, c, w) && v[c] == Offer(t, o, w, v);
      assert ValidOperator(t, t.ops[o]);
      assert Reaches(t, o, c) && w > 0 && o != t.Goal();
      CheapIsTrue(t.ops[o].pre, v, t.hmax, k - 1, After(t, ops));
      SequenceSnoc(t, ops, o);
      AfterMore(t, ops, o);
      ops' := ops + [o];
    }
  }

  // ... and so for the first `cs` conditions costing `k`.
  lemma {:induction false} ReachSome(t: Task, v: seq<Cost>, ops: seq<nat>, cs: nat, k: nat) returns (ops': seq<nat>)
    requires ValidTask(t) && Solution(t, v) && Sequence(t, ops) && cs <= |v|
    requires k > 0 ==> Within(v, |v|, k - 1) <= After(t, ops)
    ensures Sequence(t, ops') && After(t, ops) <= After(t, ops') && Within(v, cs, k) <= After(t, ops')
    decreases cs
  {
    if cs == 0 {
      ops' := ops;
    } else {
      ops' := ReachSome(t, v, ops, cs - 1, k);
      if v[cs - 1] == Fin(k) {
        ops' := ReachOne(t, v, ops', cs - 1, k);
      }
    }
  }

  lemma {:induction false} ReachAll(t: Task, v: seq<Cost>, k: nat) returns (ops: seq<nat>)
    requires ValidTask(t) && Solution(t, v)
    ensures Sequence(t, ops) && Within(v, |v|, k) <= After(t, ops)
    decreases k
  {
    ops := [];
    if k > 0 {
      ops := ReachAll(t, v, k - 1);
    }
    ops := ReachSome(t, v, ops, |v|, k);
  }

  /** An operator costs something finite exactly when some sequence of operators makes its
      precondition true. */
  lemma FiniteIsReached(t: Task, v: seq<Cost>, o: nat)
    requires ValidTask(t) && Solution(t, v) && o < |t.ops|
    ensures Pre(t, o, v).Fin? <==> exists ops :: Sequence(t, ops) && TrueIn(t.ops[o].pre, After(t, ops))
  {
    if Pre(t, o, v).Fin? {
      var ops := ReachAll(t, v, Pre(t, o, v).n);
      assert ValidOperator(t, t.ops[o]);
      CheapIsTrue(t.ops[o].pre, v, t.hmax, Pre(t, o, v).n, After(t, ops));
    }
    if ops :| Sequence(t, ops) && TrueIn(t.ops[o].pre, After(t, ops)) {
      SequenceFinite(t, v, ops);
      AffordableTree(t.ops[o].pre, v, t.hmax, After(t, ops), 0, false);
    }
  }
}
