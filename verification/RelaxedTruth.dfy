/**
 The task made of a problem is a valid one, and its trees are true of exactly the
 conditions they stand for.
*/
module RelaxedTruth {
  import opened Collections
  import opened Options
  import opened Expr
  import opened Temporal
  import opened LinearPolynomials
  import opened HeuristicConditions
  import opened RelaxedTasks
  import opened RelaxedLeaves
  import C = Costs
  import CE = CostExpressions
  import R = Relaxation
  import B = RelaxationBound

  /** The ids of the leaves true of `s`. */
  ghost function TrueLeaves(leaves: seq<Expr>, s: Assignment, fs: Functions): set<nat> {
    set c | 0 <= c < |leaves| && IsTrue(leaves[c], s, fs)
  }

  lemma {:induction false} TreeMeets(c: Condition, leaves: seq<Expr>, s: Assignment, fs: Functions)
    requires forall e | e in LeavesOf(c) :: e in leaves
    ensures B.TrueIn(Indexed(c, leaves), TrueLeaves(leaves, s, fs)) <==> Meets(c, s, fs)
    decreases c, 1
  {
    match c
    case Leaf(e) => assert e in LeavesOf(c);
    case All(cs) => TreesMeet(cs, leaves, s, fs);
    case Any(cs) => TreesMeet(cs, leaves, s, fs);
  }

  lemma {:induction false} TreesMeet(cs: seq<Condition>, leaves: seq<Expr>, s: Assignment, fs: Functions)
    requires forall e | e in LeavesOfAll(cs) :: e in leaves
    ensures B.AllTrue(IndexedAll(cs, leaves), TrueLeaves(leaves, s, fs)) <==> MeetsAll(cs, s, fs)
    ensures B.AnyTrue(IndexedAll(cs, leaves), TrueLeaves(leaves, s, fs)) <==> MeetsAny(cs, s, fs)
    decreases cs, 0
  {
    if cs != [] {
      TreeMeets(cs[0], leaves, s, fs);
      TreesMeet(cs[1..], leaves, s, fs);
      var (t, rest) := (Indexed(cs[0], leaves), IndexedAll(cs[1..], leaves));
      assert ([t] + rest)[1..] == rest;
    }
  }

  ghost predicate NoRepeats(leaves: seq<Expr>) {
    forall i, j | 0 <= i < j < |leaves| :: leaves[i] != leaves[j]
  }

  lemma {:induction false} TreeLeaves(c: Condition, leaves: seq<Expr>, k: nat)
    requires NoRepeats(leaves) && forall e | e in LeavesOf(c) :: e in leaves
    ensures k in C.Leaves(Indexed(c, leaves)) <==> k < |leaves| && leaves[k] in LeavesOf(c)
    decreases c, 1
  {
    match c
    case Leaf(e) => assert e in LeavesOf(c);
    case All(cs) => TreesLeaves(cs, leaves, k);
    case Any(cs) => TreesLeaves(cs, leaves, k);
  }

  lemma {:induction false} TreesLeaves(cs: seq<Condition>, leaves: seq<Expr>, k: nat)
    requires NoRepeats(leaves) && forall e | e in LeavesOfAll(cs) :: e in leaves
    ensures k in C.AllLeaves(IndexedAll(cs, leaves)) <==> k < |leaves| && leaves[k] in LeavesOfAll(cs)
    decreases cs, 0
  {
    if cs != [] {
      TreeLeaves(cs[0], leaves, k);
      TreesLeaves(cs[1..], leaves, k);
      var (t, rest) := (Indexed(cs[0], leaves), IndexedAll(cs[1..], leaves));
      assert ([t] + rest)[1..] == rest;
    }
  }

  lemma {:induction false} NodeLeaves(t: C.Tree, node: CE.Node)
    requires node in CE.Flatten(t) && node.LeafNode?
    ensures node.cid in C.Leaves(t)
    decreases t, 1
  {
    match t
    case Leaf(_) =>
    case And(ts) => NodesLeaves(ts, node);
    case Or(ts) => NodesLeaves(ts, node);
  }

  lemma {:induction false} NodesLeaves(ts: seq<C.Tree>, node: CE.Node)
    requires node in CE.FlattenAll(ts) && node.LeafNode?
    ensures node.cid in C.AllLeaves(ts)
    decreases ts, 0
  {
    if node in CE.Flatten(ts[0]) {
      NodeLeaves(ts[0], node);
    } else {
      NodesLeaves(ts[1..], node);
    }
  }

  // ---- the task is valid ----

  // What a condition costs at first, by the kind of its leaf.
  lemma InitialMeans(h: Source, e: Expr, s: Assignment)
    requires KnownLeaf(h, e) && InitialCost(h, e, s).Some?
    ensures IsTrue(e, s, h.p.functions) ==> InitialCost(h, e, s) == Some(C.Fin(0))
    ensures IsSimple(h, e) && !IsTrue(e, s, h.p.functions) ==>
              InitialCost(h, e, s) == Some(C.Inf) && Eval(e, s, h.p.functions).Some?
    ensures IsEstimated(h, e) ==> C.Le(InitialCost(h, e, s).value, C.Fin(1))
    ensures IsTrue(e, s, h.p.functions) && !IsEstimated(h, e) && !IsSimple(h, e) ==> TableLeaf(e, AllDomains(h))
  {
  }

  /** A simple condition that fails is above its margin. */
  lemma FailingLevel(h: Source, leaves: seq<Expr>, e: Expr, s: Assignment)
    requires KnownLeaf(h, e) && IsSimple(h, e) && Typed(s, AllDomains(h)) && |h.doms| == |h.p.init|
    requires !IsTrue(e, s, h.p.functions)
    ensures MarginLevel(h, leaves, LinearOf(e).value, s) > 0.0
  {
    SimpleIsNumeric(h, e, s);
    LinearMeans(e, s, h.p.functions);
  }

  lemma SimpleIsNumeric(h: Source, e: Expr, s: Assignment)
    requires KnownLeaf(h, e) && IsSimple(h, e) && Typed(s, AllDomains(h)) && |h.doms| == |h.p.init|
    ensures Numeric(s, Fluents(e)) && |s| == Size(h.p)
  {
    var doms := AllDomains(h);
    assert NumbersOnly(e, doms);
    forall f | f in Fluents(e) ensures f < |s| && s[f].NumV? {
      assert InDomain(doms[f], s[f]);
    }
  }

  lemma {:induction false} NumericValid(h: Source, leaves: seq<Expr>, ch: Changes, s: Assignment, i: nat, n: (nat, nat))
    requires i <= |leaves| && n in NumericFrom(h, leaves, ch, s, i)
    ensures n.0 < |leaves| && IsSimple(h, leaves[n.0])
    ensures var c := LinearOf(leaves[n.0]).value;
      Achieves(ch, c.weights, h.cfg.inadmissible, Size(h.p)) && n.1 == RepetitionsOf(h, leaves, ch, c, s)
    decreases |leaves| - i
  {
    hide RepetitionsOf, Achieves, IsSimple;
    if n.0 != i {
      NumericValid(h, leaves, ch, s, i + 1, n);
    } else {
      assert n !in NumericFrom(h, leaves, ch, s, i + 1);
    }
  }

  lemma {:induction false} NumericHas(h: Source, leaves: seq<Expr>, ch: Changes, s: Assignment, i: nat, k: nat)
    requires i <= k < |leaves| && IsSimple(h, leaves[k])
    requires Achieves(ch, LinearOf(leaves[k]).value.weights, h.cfg.inadmissible, Size(h.p))
    ensures (k, RepetitionsOf(h, leaves, ch, LinearOf(leaves[k]).value, s)) in NumericFrom(h, leaves, ch, s, i)
    decreases k - i
  {
    hide RepetitionsOf, Achieves, IsSimple;
    if i < k {
      NumericHas(h, leaves, ch, s, i + 1, k);
    }
  }

  // One repetition at least, from where the condition fails.
  lemma RepetitionsAreSome(h: Source, leaves: seq<Expr>, ch: Changes, c: Linear, s: Assignment)
    requires MarginLevel(h, leaves, c, s) > 0.0 && Achieves(ch, c.weights, h.cfg.inadmissible, Size(h.p))
    ensures Repetitions(ch, c.weights, MarginLevel(h, leaves, c, s), h.cfg.inadmissible, Size(h.p)).Some?
    ensures RepetitionsOf(h, leaves, ch, c, s) >= 1
  {
    RepetitionsPositive(ch, c.weights, MarginLevel(h, leaves, c, s), h.cfg.inadmissible, Size(h.p));
  }

  lemma TreeValid(h: Source, leaves: seq<Expr>, c: Condition)
    requires NoRepeats(leaves) && forall x | x in LeavesOf(c) :: x in leaves
    ensures forall k | k in C.Leaves(Indexed(c, leaves)) :: k < |leaves|
    ensures forall node | node in CE.Flatten(Indexed(c, leaves)) && node.LeafNode? :: node.cid < |leaves|
  {
    forall k: nat | k in C.Leaves(Indexed(c, leaves)) ensures k < |leaves| {
      TreeLeaves(c, leaves, k);
    }
    forall node | node in CE.Flatten(Indexed(c, leaves)) && node.LeafNode? ensures node.cid < |leaves| {
      NodeLeaves(Indexed(c, leaves), node);
    }
  }

  // A condition that does not cost 0 needs a repetition at least.
  lemma NumericCounts(h: Source, leaves: seq<Expr>, s: Assignment, init: seq<C.Cost>, ch: Changes, n: (nat, nat))
    requires Known(h, leaves) && Typed(s, AllDomains(h)) && |h.doms| == |h.p.init|
    requires InitialCosts(h, leaves, s) == Some(init) && n in NumericFrom(h, leaves, ch, s, 0)
    ensures n.0 < |init| && (init[n.0] != C.Fin(0) ==> n.1 >= 1)
  {
    NumericValid(h, leaves, ch, s, 0, n);
    var e := leaves[n.0];
    assert KnownLeaf(h, e) && InitialCost(h, e, s) == Some(init[n.0]);
    InitialMeans(h, e, s);
    if init[n.0] != C.Fin(0) {
      FailingLevel(h, leaves, e, s);
      RepetitionsAreSome(h, leaves, ch, LinearOf(e).value, s);
    }
  }

  lemma OperatorValid(h: Source, s: Assignment, t: R.Task, o: nat)
    requires Encodable(h) && Typed(s, AllDomains(h)) && TaskOf(h, s) == Some(t) && o < |t.ops|
    ensures R.ValidOperator(t, t.ops[o])
  {
    var leaves := Interned(h);
    InternedHas(h);
    InternedKnown(h);
    InternedDistinct(h);
    OperatorShape(h, s, t, o);
    assert Typed(h.p.init, h.doms);
    var cond := Conditions(h)[o];
    hide *;
    TreeValid(h, leaves, cond);
    OperatorPartsValid(h, s, t, o, leaves, cond);
  }

  lemma OperatorPartsValid(h: Source, s: Assignment, t: R.Task, o: nat, leaves: seq<Expr>, cond: Condition)
    requires Known(h, leaves) && Typed(s, AllDomains(h)) && |h.doms| == |h.p.init|
    requires InitialCosts(h, leaves, s) == Some(t.init) && |t.init| == |leaves|
    requires forall x | x in LeavesOf(cond) :: x in leaves
    requires o < |t.ops| && t.ops[o].pre == Indexed(cond, leaves) && t.ops[o].nodes == CE.Flatten(t.ops[o].pre)
    requires forall k | k in C.Leaves(t.ops[o].pre) :: k < |leaves|
    requires forall node | node in t.ops[o].nodes && node.LeafNode? :: node.cid < |leaves|
    requires forall c | c in t.ops[o].effects :: c < |t.init|
    requires o < t.Goal() ==>
               && o < |OperatorsOf(h.p, 0)|
               && t.ops[o].numeric
                    == NumericFrom(h, leaves, ChangesOf(EventOf(h.p, OperatorsOf(h.p, 0)[o]).effects, h.doms), s, 0)
    requires o == t.Goal() ==> t.ops[o].numeric == []
    ensures R.ValidOperator(t, t.ops[o])
  {
    var op := t.ops[o];
    hide Typed, Known, Indexed, CE.Flatten, C.Leaves, NumericFrom, ChangesOf, InitialCosts, LeavesOf, OperatorsOf;
    forall i | 0 <= i < |op.nodes| && op.nodes[i].LeafNode? ensures op.nodes[i].cid < |t.init| {
      assert op.nodes[i] in op.nodes;
    }
    forall n | n in op.numeric ensures n.0 < |t.init| && (t.init[n.0] != C.Fin(0) ==> n.1 >= 1) {
      NumericCounts(h, leaves, s, t.init, ChangesOf(EventOf(h.p, OperatorsOf(h.p, 0)[o]).effects, h.doms), n);
    }
  }

  lemma InternedDistinct(h: Source)
    requires WellFormed(h.p)
    ensures NoRepeats(Interned(h))
  {
    DistinctSame(LeavesOfAll(OperatorConditions(h) + [Goals(h), Completion(h)]) + FlagFluents(h.p));
  }

  lemma TaskShape(h: Source, s: Assignment, t: R.Task)
    requires WellFormed(h.p) && TaskOf(h, s) == Some(t)
    ensures InitialCosts(h, Interned(h), s) == Some(t.init) && |t.init| == |Interned(h)|
    ensures |t.ops| == |OperatorsOf(h.p, 0)| + 1 && t.ops == Operators(h, s)
    ensures t.hmax == h.cfg.kind.HMax? && |t.readers| == |Interned(h)|
    ensures forall c | 0 <= c < |t.readers| :: t.readers[c] == ReadersFrom(Conditions(h), Interned(h)[c], 0)
  {
    hide Interned, Conditions, OperatorsOf, WellFormed, InitialCosts, Operators, ReadersFrom, AllReaders;
  }

  /** The pieces of an operator. */
  lemma OperatorShape(h: Source, s: Assignment, t: R.Task, o: nat)
    requires WellFormed(h.p) && TaskOf(h, s) == Some(t) && o < |t.ops|
    ensures InitialCosts(h, Interned(h), s) == Some(t.init) && |t.init| == |Interned(h)|
    ensures |t.ops| == |OperatorsOf(h.p, 0)| + 1 == |Conditions(h)|
    ensures forall x | x in LeavesOf(Conditions(h)[o]) :: x in Interned(h)
    ensures t.ops[o].pre == Indexed(Conditions(h)[o], Interned(h)) && t.ops[o].nodes == CE.Flatten(t.ops[o].pre)
    ensures t.hmax == h.cfg.kind.HMax? && |t.readers| == |Interned(h)|
    ensures forall c | 0 <= c < |t.readers| :: t.readers[c] == ReadersFrom(Conditions(h), Interned(h)[c], 0)
    ensures o < t.Goal() ==>
      && var e := OperatorsOf(h.p, 0)[o];
      && t.ops[o].action == e.0
      && t.ops[o].effects == IdsOf(OperatorEffects(h, e), Interned(h))
      && t.ops[o].numeric == NumericFrom(h, Interned(h), ChangesOf(EventOf(h.p, e).effects, h.doms), s, 0)
    ensures o == t.Goal() ==> t.ops[o].effects == [] && t.ops[o].numeric == []
    ensures forall c | c in t.ops[o].effects :: c < |t.init|
  {
    TaskShape(h, s, t);
    InternedHas(h);
    ConditionCount(h);
    hide Interned, Conditions, OperatorsOf, WellFormed, OperatorEffects, NumericFrom, ChangesOf, Indexed, CE.Flatten,
         InitialCosts, TaskOf, LeavesOf, ReadersFrom, FlagFluents;
  }

  lemma ConditionCount(h: Source)
    requires WellFormed(h.p)
    ensures |Conditions(h)| == |OperatorsOf(h.p, 0)| + 1
  {
  }

  lemma ReaderIff(h: Source, s: Assignment, t: R.Task, c: nat, o: nat)
    requires WellFormed(h.p) && TaskOf(h, s) == Some(t) && c < |t.readers| && o < |t.ops|
    ensures o in t.readers[c] <==> c in C.Leaves(t.ops[o].pre)
  {
    InternedDistinct(h);
    OperatorShape(h, s, t, o);
    hide *;
    TreeLeaves(Conditions(h)[o], Interned(h), c);
  }

  lemma ReaderList(h: Source, s: Assignment, t: R.Task, c: nat)
    requires WellFormed(h.p) && TaskOf(h, s) == Some(t) && t.ops != [] && c < |t.readers|
    ensures forall o | o in t.readers[c] :: o < |t.ops|
    ensures forall i, j | 0 <= i < j < |t.readers[c]| :: t.readers[c][i] != t.readers[c][j]
  {
    OperatorShape(h, s, t, 0);
    hide *;
    var rs := ReadersFrom(Conditions(h), Interned(h)[c], 0);
    assert t.readers[c] == rs;
  }

  lemma ReaderValid(h: Source, s: Assignment, t: R.Task, c: nat)
    requires WellFormed(h.p) && TaskOf(h, s) == Some(t) && t.ops != [] && c < |t.readers|
    ensures R.ValidReader(t, c)
  {
    hide WellFormed, TaskOf, C.Leaves;
    ReaderList(h, s, t, c);
    forall o | 0 <= o < |t.ops| ensures o in t.readers[c] <==> c in C.Leaves(t.ops[o].pre) {
      ReaderIff(h, s, t, c, o);
    }
  }

  lemma ReadersValid(h: Source, s: Assignment, t: R.Task)
    requires WellFormed(h.p) && TaskOf(h, s) == Some(t) && t.ops != []
    ensures R.ValidReaders(t)
  {
    OperatorShape(h, s, t, 0);
    hide WellFormed, TaskOf, R.ValidReader;
    forall c | 0 <= c < |t.readers| ensures R.ValidReader(t, c) {
      ReaderValid(h, s, t, c);
    }
  }

  /** The relaxation of a typed state is a valid task. */
  lemma TaskValid(h: Source, s: Assignment, t: R.Task)
    requires Encodable(h) && Typed(s, AllDomains(h)) && TaskOf(h, s) == Some(t)
    ensures R.ValidTask(t)
  {
    assert t.ops != [] by { TaskHasOperators(h, s, t); }
    hide TaskOf, Encodable, Typed, R.ValidOperator;
    forall o | 0 <= o < |t.ops| ensures R.ValidOperator(t, t.ops[o]) {
      OperatorValid(h, s, t, o);
    }
    assert WellFormed(h.p) by { EncodableIsWellFormed(h); }
    OperatorShape(h, s, t, t.Goal());
    ReadersValid(h, s, t);
  }

  lemma TaskHasOperators(h: Source, s: Assignment, t: R.Task)
    requires WellFormed(h.p) && TaskOf(h, s) == Some(t)
    ensures t.ops != []
  {
  }

  lemma EncodableIsWellFormed(h: Source)
    requires Encodable(h)
    ensures WellFormed(h.p)
  {
  }
}
