/**
 hff's relaxed plan (`heuristics.rs`): backchaining from the goal through the
 cheapest supports and the recorded achievers, and the value it gives.  The
 value depends only on the solution of the cost equations, not on the order in
 which the queue popped equal costs.
*/
module RelaxedPlan {
  import opened Collections
  import opened Options
  import opened Costs
  import opened CostExpressions
  import opened Relaxation
  import opened Fixpoint

  // ---- the conditions supporting a tree ----

  /** Every operand of an AND, and only the cheapest operand of an OR: the last
      one, on ties. */
  ghost function Support(t: Tree, costs: seq<Cost>): set<nat> {
    match t
    case Leaf(c) => {c}
    case And(ts) => SupportAll(ts, costs)
    case Or(ts) => SupportAny(ts, costs)
  }

  ghost function SupportAll(ts: seq<Tree>, costs: seq<Cost>): set<nat> {
    if ts == [] then {} else Support(ts[0], costs) + SupportAll(ts[1..], costs)
  }

  ghost function SupportAny(ts: seq<Tree>, costs: seq<Cost>): set<nat> {
    if ts == [] then {}
    else if Lt(TreeCost(ts[0], costs, false), OrCost(ts[1..], costs, false)) then Support(ts[0], costs)
    else SupportAny(ts[1..], costs)
  }

  /** A tree's supports cost no more than the tree. */
  lemma {:induction false} SupportCosts(t: Tree, costs: seq<Cost>, c: nat)
    requires c in Support(t, costs)
    ensures Le(At(costs, c), TreeCost(t, costs, false))
    ensures c in Leaves(t)
  {
    match t
    case Leaf(_) =>
    case And(ts) => SupportAllCosts(ts, costs, c);
    case Or(ts) => SupportAnyCosts(ts, costs, c);
  }

  lemma {:induction false} SupportAllCosts(ts: seq<Tree>, costs: seq<Cost>, c: nat)
    requires c in SupportAll(ts, costs)
    ensures Le(At(costs, c), AndCost(ts, costs, false)) && c in AllLeaves(ts)
  {
    if c in Support(ts[0], costs) {
      SupportCosts(ts[0], costs, c);
    } else {
      SupportAllCosts(ts[1..], costs, c);
    }
  }

  lemma {:induction false} SupportAnyCosts(ts: seq<Tree>, costs: seq<Cost>, c: nat)
    requires c in SupportAny(ts, costs)
    ensures Le(At(costs, c), OrCost(ts, costs, false)) && c in AllLeaves(ts)
  {
    if Lt(TreeCost(ts[0], costs, false), OrCost(ts[1..], costs, false)) {
      SupportCosts(ts[0], costs, c);
    } else {
      SupportAnyCosts(ts[1..], costs, c);
    }
  }

  // `d` agrees with `v` up to `k` on the leaves `cs`, and is not below it elsewhere.
  ghost predicate ExactOn(cs: set<nat>, v: seq<Cost>, d: seq<Cost>, k: Cost) {
    forall x | x in cs :: Le(At(v, x), At(d, x)) && (Le(At(v, x), k) ==> At(d, x) == At(v, x))
  }

  /** The supports of a tree costing at most `k` need no cost above `k`. */
  lemma {:induction false} ExactSupport(t: Tree, v: seq<Cost>, d: seq<Cost>, k: nat)
    requires ExactOn(Leaves(t), v, d, Fin(k)) && Le(TreeCost(t, v, false), Fin(k))
    ensures Support(t, d) == Support(t, v)
  {
    match t
    case Leaf(_) =>
    case And(ts) => ExactSupportAll(ts, v, d, k);
    case Or(ts) => ExactSupportAny(ts, v, d, k);
  }

  lemma {:induction false} ExactSupportAll(ts: seq<Tree>, v: seq<Cost>, d: seq<Cost>, k: nat)
    requires ExactOn(AllLeaves(ts), v, d, Fin(k)) && Le(AndCost(ts, v, false), Fin(k))
    ensures SupportAll(ts, d) == SupportAll(ts, v)
  {
    if ts != [] {
      ExactSupport(ts[0], v, d, k);
      ExactSupportAll(ts[1..], v, d, k);
    }
  }

  lemma {:induction false} ExactSupportAny(ts: seq<Tree>, v: seq<Cost>, d: seq<Cost>, k: nat)
    requires ExactOn(AllLeaves(ts), v, d, Fin(k)) && Le(OrCost(ts, v, false), Fin(k))
    ensures SupportAny(ts, d) == SupportAny(ts, v)
  {
    if ts != [] {
      var rest := Or(ts[1..]);
      CheaperTree(ts[0], d, v, false);
      CheaperTree(rest, d, v, false);
      if Le(TreeCost(ts[0], v, false), Fin(k)) {
        ExactTree(ts[0], v, d, false, Fin(k));
        ExactSupport(ts[0], v, d, k);
      }
      if Le(TreeCost(rest, v, false), Fin(k)) {
        ExactTree(rest, v, d, false, Fin(k));
        ExactSupportAny(ts[1..], v, d, k);
      }
    }
  }

  // ---- collecting supports on the postfix form ----

  type Collected = (Cost, seq<nat>)

  ghost function ConjOf(vals: seq<Collected>): Collected {
    if vals == [] then (Fin(0), []) else
      var r := ConjOf(vals[1..]);
      (Plus(vals[0].0, r.0), r.1 + vals[0].1)
  }

  ghost function DisjOf(vals: seq<Collected>): Collected {
    if vals == [] then (Inf, []) else
      var r := DisjOf(vals[1..]);
      if Lt(vals[0].0, r.0) then vals[0] else r
  }

  ghost function SupportAlgebra(costs: seq<Cost>): Algebra<Collected> {
    Algebra(c => (At(costs, c), [c]), vals => ConjOf(vals), vals => DisjOf(vals))
  }

  ghost function Elements(s: seq<nat>): set<nat> {
    set c | c in s
  }

  lemma {:induction false} FoldIsSupport(t: Tree, costs: seq<Cost>)
    ensures Fold(t, SupportAlgebra(costs)).0 == TreeCost(t, costs, false)
    ensures Elements(Fold(t, SupportAlgebra(costs)).1) == Support(t, costs)
  {
    match t
    case Leaf(_) =>
    case And(ts) => FoldAllSupports(ts, costs);
    case Or(ts) => FoldAllSupports(ts, costs);
  }

  lemma {:induction false} FoldAllSupports(ts: seq<Tree>, costs: seq<Cost>)
    ensures var r := ConjOf(FoldAll(ts, SupportAlgebra(costs)));
      r.0 == AndCost(ts, costs, false) && Elements(r.1) == SupportAll(ts, costs)
    ensures var r := DisjOf(FoldAll(ts, SupportAlgebra(costs)));
      r.0 == OrCost(ts, costs, false) && Elements(r.1) == SupportAny(ts, costs)
  {
    if ts != [] {
      FoldIsSupport(ts[0], costs);
      FoldAllSupports(ts[1..], costs);
    }
  }

  function LeafCids(nodes: seq<Node>): seq<nat> {
    if nodes == [] then []
    else FirstCid(nodes) + LeafCids(nodes[1..])
  }

  function FirstCid(nodes: seq<Node>): seq<nat>
    requires nodes != []
  {
    if nodes[0].LeafNode? then [nodes[0].cid] else []
  }

  lemma LeafCidsStep(nodes: seq<Node>)
    requires nodes != []
    ensures LeafCids(nodes) == FirstCid(nodes) + LeafCids(nodes[1..])
  {
  }

  lemma {:induction false} LeafCidsConcat(p: seq<Node>, q: seq<Node>)
    ensures LeafCids(p + q) == LeafCids(p) + LeafCids(q)
  {
    if p == [] {
      assert p + q == q;
    } else {
      assert (p + q)[1..] == p[1..] + q && (p + q)[0] == p[0];
      LeafCidsConcat(p[1..], q);
      hide LeafCids;
      LeafCidsStep(p);
      LeafCidsStep(p + q);
    }
  }

  /** Without OR, every leaf is a support. */
  lemma {:induction false} LeavesAreSupport(t: Tree, costs: seq<Cost>)
    requires !HasOr(t)
    ensures Elements(LeafCids(Flatten(t))) == Support(t, costs)
  {
    match t
    case Leaf(_) =>
      assert LeafCids(Flatten(t)[1..]) == [];
    case And(ts) =>
      AllLeavesAreSupport(ts, costs);
      LeafCidsConcat(FlattenAll(ts), [AndNode(|ts|)]);
      assert LeafCids([AndNode(|ts|)]) == [];
  }

  lemma {:induction false} AllLeavesAreSupport(ts: seq<Tree>, costs: seq<Cost>)
    requires !AnyOr(ts)
    ensures Elements(LeafCids(FlattenAll(ts))) == SupportAll(ts, costs)
  {
    if ts != [] {
      LeavesAreSupport(ts[0], costs);
      AllLeavesAreSupport(ts[1..], costs);
      LeafCidsConcat(Flatten(ts[0]), FlattenAll(ts[1..]));
    }
  }

  method PopConj(stack: seq<Collected>, n: nat) returns (rest: seq<Collected>)
    requires n <= |stack|
    ensures rest == stack[..|stack| - n] + [ConjOf(stack[|stack| - n..])]
  {
    var r, l := Fin(0), [];
    rest := stack;
    for k := 0 to n
      invariant rest == stack[..|stack| - k]
      invariant (r, l) == ConjOf(stack[|stack| - k..])
    {
      var (v, ol) := rest[|rest| - 1];
      rest := rest[..|rest| - 1];
      assert stack[|stack| - k - 1..][1..] == stack[|stack| - k..];
      r, l := Plus(v, r), l + ol;
    }
    rest := rest + [(r, l)];
  }

  method PopDisj(stack: seq<Collected>, n: nat) returns (rest: seq<Collected>)
    requires n <= |stack|
    ensures rest == stack[..|stack| - n] + [DisjOf(stack[|stack| - n..])]
  {
    var r, ml := Inf, [];
    rest := stack;
    for k := 0 to n
      invariant rest == stack[..|stack| - k]
      invariant (r, ml) == DisjOf(stack[|stack| - k..])
    {
      var (v, ol) := rest[|rest| - 1];
      rest := rest[..|rest| - 1];
      assert stack[|stack| - k - 1..][1..] == stack[|stack| - k..];
      if Lt(v, r) {
        r, ml := v, ol;
      }
    }
    rest := rest + [(r, ml)];
  }

  /** `supporting_conditions`. */
  method SupportingConditions(nodes: seq<Node>, t: Tree, costs: seq<Cost>) returns (out: seq<nat>)
    requires Represents(nodes, t)
    requires forall i | 0 <= i < |nodes| && nodes[i].LeafNode? :: nodes[i].cid < |costs|
    ensures Elements(out) == Support(t, costs)
  {
    if !HasOr(t) {
      LeavesAreSupport(t, costs);
      return LeafCids(nodes);
    }
    ghost var alg, result := SupportAlgebra(costs), [Fold(t, SupportAlgebra(costs))];
    RunFlatten(t, [], alg);
    FoldIsSupport(t, costs);
    var stack: seq<Collected> := [];
    assert nodes[0..] == nodes && stack + result == result;
    hide Run, TreeCost, Flatten, Fold, Support, Elements;
    for i := 0 to |nodes|
      invariant Run(nodes[i..], stack, alg) == Some(result)
    {
      RunStep(nodes, i, stack, alg);
      match nodes[i]
      case LeafNode(c) => stack := stack + [(costs[c], [c])];
      case AndNode(n) => stack := PopConj(stack, n);
      case OrNode(n) => stack := PopDisj(stack, n);
    }
    RunEmpty(nodes, stack, alg);
    out := stack[0].1;
  }

  // ---- the achievers and the conditions backchained through ----

  /** `r` is the largest operator offering `c` at its cost, if there is one. */
  ghost predicate LargestAchiever(t: Task, v: seq<Cost>, c: nat, r: Option<nat>)
    requires c < |v|
  {
    && (r.Some? ==> r.value < |t.ops| && exists w: nat :: Offers(t, r.value, c, w) && v[c] == Offer(t, r.value, w, v))
    && (forall o: nat, w: nat | o < |t.ops| && Offers(t, o, c, w) && v[c] == Offer(t, o, w, v) ::
          r.Some? && o <= r.value)
  }

  lemma LargestAchieverUnique(t: Task, v: seq<Cost>, c: nat, r: Option<nat>, r': Option<nat>)
    requires c < |v| && LargestAchiever(t, v, c, r) && LargestAchiever(t, v, c, r')
    ensures r == r'
  {
  }

  /** When the fix-point has stopped at `h`, whatever the order of its pops,
      `reached_by` holds the largest achiever of every condition costing at
      most `h`. */
  lemma ReachedByIsLargest(b: FixpointBuffers, v: seq<Cost>, made: Made, h: nat, c: nat)
    requires b.hff && b.Settled(v, made, Fin(h)) && c < |v| && Le(v[c], Fin(h))
    ensures b.condCost[c] == v[c]
    ensures LargestAchiever(b.task, v, c, b.reachedBy[c])
  {
    var t, now := b.task, b.Now();
    ExactUpTo(t, v, now, made, Fin(h), c, v[c].n);
    forall o: nat, w: nat | o < |t.ops| && Offers(t, o, c, w) && v[c] == Offer(t, o, w, v)
      ensures b.reachedBy[c].Some? && o <= b.reachedBy[c].value
    {
      assert ValidOperator(t, t.ops[o]);
      ExpandedByThen(b, v, made, h, o, c, w);
      assert (o, c, w) in made && Ties(now, (o, c, w));
    }
    if b.reachedBy[c].Some? {
      var o := b.reachedBy[c].value;
      var w :| (o, c, w) in made && Ties(now, (o, c, w));
      assert Offers(t, o, c, w) && v[c] == Offer(t, o, w, v);
    }
  }

  lemma ExpandedByThen(b: FixpointBuffers, v: seq<Cost>, made: Made, h: nat, o: nat, c: nat, w: nat)
    requires b.Settled(v, made, Fin(h)) && c < |v| && Le(v[c], Fin(h))
    requires o < |b.task.ops| && Offers(b.task, o, c, w) && v[c] == Offer(b.task, o, w, v)
    ensures b.closed[o]
  {
    var t, now := b.task, b.Now();
    assert ValidOperator(t, t.ops[o]);
    ExactOperator(t, v, now, made, Fin(h), o);
    assert forall p | 0 <= p < |t.ops| && !b.closed[p] :: UpToDate(t, now, p, now.condCost);
  }

  // ---- the relaxed plan and its value ----

  /** The achiever recorded for `c` in the solution: the largest one. */
  ghost function AchieverOf(t: Task, v: seq<Cost>, c: nat): (r: Option<nat>)
    requires c < |v|
    ensures r.Some? ==> r.value < |t.ops|
  {
    if exists r :: LargestAchiever(t, v, c, r) then
      var r :| LargestAchiever(t, v, c, r); r
    else None
  }

  // `c` supports the precondition of the achiever of `d`.
  ghost predicate Supports(t: Task, v: seq<Cost>, d: nat, c: nat) {
    && d < |v|
    && AchieverOf(t, v, d).Some?
    && c in Support(t.ops[AchieverOf(t, v, d).value].pre, v)
  }

  /** A chain of conditions from a support of the goal, each supporting the
      achiever of the one before. */
  ghost predicate Chain(t: Task, v: seq<Cost>, chain: seq<nat>)
    requires t.ops != []
  {
    && chain != []
    && chain[0] in Support(t.ops[t.Goal()].pre, v)
    && forall i | 0 < i < |chain| :: Supports(t, v, chain[i - 1], chain[i])
  }

  /** The conditions backchained through. */
  ghost predicate Backchained(t: Task, v: seq<Cost>, c: nat)
    requires t.ops != []
  {
    exists chain :: Chain(t, v, chain) && chain[|chain| - 1] == c
  }

  lemma ChainGrows(t: Task, v: seq<Cost>, c: nat, d: nat)
    requires t.ops != [] && Backchained(t, v, c) && Supports(t, v, c, d)
    ensures Backchained(t, v, d)
  {
    var chain :| Chain(t, v, chain) && chain[|chain| - 1] == c;
    assert Chain(t, v, chain + [d]);
  }

  lemma ChainStarts(t: Task, v: seq<Cost>, c: nat)
    requires t.ops != [] && c in Support(t.ops[t.Goal()].pre, v)
    ensures Backchained(t, v, c)
  {
    assert Chain(t, v, [c]);
  }

  /** The actions of the relaxed plan. */
  ghost function PlanActions(t: Task, v: seq<Cost>): set<nat>
    requires t.ops != []
  {
    set o | 0 <= o < |t.ops| && UsedByPlan(t, v, o) :: t.ops[o].action
  }

  lemma PlanActionsAreActions(t: Task, v: seq<Cost>, actions: set<nat>)
    requires ValidTask(t) && forall o | 0 <= o < t.Goal() :: t.ops[o].action in actions
    ensures t.ops != [] && PlanActions(t, v) <= actions
  {
    // the goal offers nothing
    assert forall c, w :: !Offers(t, t.Goal(), c, w);
  }

  ghost predicate UsedByPlan(t: Task, v: seq<Cost>, o: nat)
    requires t.ops != []
  {
    exists c: nat :: c < |v| && Backchained(t, v, c) && AchieverOf(t, v, c) == Some(o)
  }

  lemma SupportedCosts(t: Task, v: seq<Cost>, d: nat, c: nat)
    requires ValidTask(t) && !t.hmax && Solution(t, v)
    requires d < |v| && v[d].Fin? && Supports(t, v, d, c)
    ensures c < |v| && Le(v[c], v[d])
  {
    var o := AchieverOf(t, v, d).value;
    assert ValidOperator(t, t.ops[o]);
    SupportCosts(t.ops[o].pre, v, c);
  }

  /** Everything backchained through costs at most the goal. */
  lemma {:induction false} ChainCosts(t: Task, v: seq<Cost>, chain: seq<nat>, h: nat)
    requires ValidTask(t) && !t.hmax && Solution(t, v) && Pre(t, t.Goal(), v) == Fin(h)
    requires Chain(t, v, chain)
    ensures chain[|chain| - 1] < |v| && Le(v[chain[|chain| - 1]], Fin(h))
  {
    var last := |chain| - 1;
    if last == 0 {
      assert ValidOperator(t, t.ops[t.Goal()]);
      SupportCosts(t.ops[t.Goal()].pre, v, chain[0]);
    } else {
      ChainCosts(t, v, chain[..last], h);
      SupportedCosts(t, v, chain[last - 1], chain[last]);
    }
  }

  ghost function SumOver(s: set<nat>, f: map<nat, nat>): nat {
    if s == {} then 0 else
      var a :| a in s;
      (if a in f then f[a] else 0) + SumOver(s - {a}, f)
  }

  lemma {:induction false} SumSplit(s: set<nat>, a: nat, f: map<nat, nat>)
    requires a in s
    ensures SumOver(s, f) == (if a in f then f[a] else 0) + SumOver(s - {a}, f)
    decreases |s|
  {
    var b :| b in s && SumOver(s, f) == (if b in f then f[b] else 0) + SumOver(s - {b}, f);
    if a != b {
      SumSplit(s - {b}, a, f);
      SumSplit(s - {a}, b, f);
      assert s - {a} - {b} == s - {b} - {a};
    }
  }

  /** Adds up `f` over `s`, in whatever order the set is iterated. */
  method Sum(s: set<nat>, f: map<nat, nat>) returns (total: nat)
    requires s <= f.Keys
    ensures total == SumOver(s, f)
  {
    var rest := s;
    total := 0;
    while rest != {}
      invariant rest <= s
      invariant total + SumOver(rest, f) == SumOver(s, f)
      decreases |rest|
    {
      var a :| a in rest;
      SumSplit(rest, a, f);
      total := total + f[a];
      rest := rest - {a};
    }
  }

  /** hff: the events left of the actions in progress, plus all the events of
      the relaxed plan's other actions unless the goal already holds. */
  ghost function HffValue(t: Task, v: seq<Cost>, eventsLen: map<nat, nat>, eventsLeft: map<nat, nat>): Option<nat>
    requires t.ops != []
  {
    var h := Pre(t, t.Goal(), v);
    var inProgress := SumOver(eventsLeft.Keys, eventsLeft);
    if h.Inf? then None
    else if h == Fin(0) then Some(inProgress)
    else Some(inProgress + SumOver(PlanActions(t, v) - eventsLeft.Keys, eventsLen))
  }

  // The progress of the backchaining loop: `pending` are on the stack.
  ghost predicate Chained(t: Task, v: seq<Cost>, plan: set<nat>, visited: set<nat>, pending: set<nat>)
    requires ValidTask(t)
  {
    && pending <= visited
    && Support(t.ops[t.Goal()].pre, v) <= visited
    && plan <= PlanActions(t, v)
    && (forall c | c in visited :: c < |v| && Backchained(t, v, c))
    && (forall c | c in visited && c !in pending :: Handled(t, v, plan, visited, c))
  }

  // The achiever of `c`, if any, is in the plan, and its supports are visited.
  ghost predicate Handled(t: Task, v: seq<Cost>, plan: set<nat>, visited: set<nat>, c: nat) {
    c < |v| && AchieverOf(t, v, c).Some? ==>
      var o := t.ops[AchieverOf(t, v, c).value];
      o.action in plan && Support(o.pre, v) <= visited
  }

  lemma {:induction false} ChainedClosed(
    t: Task, v: seq<Cost>, plan: set<nat>, visited: set<nat>, chain: seq<nat>)
    requires ValidTask(t) && Solution(t, v) && Chained(t, v, plan, visited, {})
    requires Chain(t, v, chain)
    ensures chain[|chain| - 1] in visited
  {
    hide Support, AchieverOf, Solution, ValidTask, Backchained, PlanActions;
    var last := |chain| - 1;
    if last > 0 {
      ChainedClosed(t, v, plan, visited, chain[..last]);
      assert Supports(t, v, chain[last - 1], chain[last]);
    }
  }

  lemma TakenByPlan(t: Task, v: seq<Cost>, plan: set<nat>, visited: set<nat>, c: nat)
    requires ValidTask(t) && Solution(t, v) && Chained(t, v, plan, visited, {})
    requires c < |v| && Backchained(t, v, c) && AchieverOf(t, v, c).Some?
    ensures t.ops[AchieverOf(t, v, c).value].action in plan
  {
    var chain :| Chain(t, v, chain) && chain[|chain| - 1] == c;
    ChainedClosed(t, v, plan, visited, chain);
    hide Support, AchieverOf, Solution, ValidTask, Backchained, PlanActions, Chain;
    assert Handled(t, v, plan, visited, c);
  }

  /** The loop ends with exactly the relaxed plan's actions. */
  lemma ChainedIsPlan(t: Task, v: seq<Cost>, plan: set<nat>, visited: set<nat>)
    requires ValidTask(t) && Solution(t, v) && Chained(t, v, plan, visited, {})
    ensures plan == PlanActions(t, v)
  {
    assert t.ops != [] && plan <= PlanActions(t, v);
    hide *;
    forall a | a in PlanActions(t, v) ensures a in plan {
      var c := PlanActionComesFrom(t, v, a);
      TakenByPlan(t, v, plan, visited, c);
    }
  }

  lemma PlanActionComesFrom(t: Task, v: seq<Cost>, a: nat) returns (c: nat)
    requires t.ops != [] && a in PlanActions(t, v)
    ensures c < |v| && Backchained(t, v, c)
    ensures AchieverOf(t, v, c).Some? && t.ops[AchieverOf(t, v, c).value].action == a
  {
    var o: nat :| o < |t.ops| && UsedByPlan(t, v, o) && t.ops[o].action == a;
    hide Support, AchieverOf, PlanActions, Backchained;
    c :| c < |v| && Backchained(t, v, c) && AchieverOf(t, v, c) == Some(o);
  }

  /** When the fix-point has settled at the goal's cost, its costs and achievers
      give the same supports and achievers as the solution does. */
  lemma BackchainedIsExact(b: FixpointBuffers, v: seq<Cost>, made: Made, h: nat, c: nat)
    requires b.hff && !b.task.hmax && b.Settled(v, made, Fin(h)) && Pre(b.task, b.task.Goal(), v) == Fin(h)
    requires Backchained(b.task, v, c)
    ensures c < |v| == |b.reachedBy| && AchieverOf(b.task, v, c) == b.reachedBy[c]
    ensures b.reachedBy[c].Some? ==> OperatorIsExact(b, v, b.reachedBy[c].value)
  {
    var t := b.task;
    var chain :| Chain(t, v, chain) && chain[|chain| - 1] == c;
    ChainCosts(t, v, chain, h);
    ReachedByIsLargest(b, v, made, h, c);
    LargestAchieverUnique(t, v, c, AchieverOf(t, v, c), b.reachedBy[c]);
    if b.reachedBy[c].Some? {
      var o := b.reachedBy[c].value;
      var w: nat :| Offers(t, o, c, w) && v[c] == Offer(t, o, w, v);
      SupportIsExact(b, v, made, h, o);
    }
  }

  ghost predicate OperatorIsExact(b: FixpointBuffers, v: seq<Cost>, o: nat)
    reads b
  {
    && o < |b.task.ops| && ValidOperator(b.task, b.task.ops[o]) && |b.condCost| == |b.task.init|
    && Support(b.task.ops[o].pre, b.condCost) == Support(b.task.ops[o].pre, v)
  }

  lemma SupportIsExact(b: FixpointBuffers, v: seq<Cost>, made: Made, h: nat, o: nat)
    requires !b.task.hmax && b.Settled(v, made, Fin(h)) && o < |b.task.ops| && Le(Pre(b.task, o, v), Fin(h))
    ensures OperatorIsExact(b, v, o)
  {
    var t, now := b.task, b.Now();
    assert ValidOperator(t, t.ops[o]);
    forall x | x in Leaves(t.ops[o].pre)
      ensures Le(At(v, x), At(b.condCost, x)) && (Le(At(v, x), Fin(h)) ==> At(b.condCost, x) == At(v, x))
    {
      if Le(v[x], Fin(h)) {
        ExactUpTo(t, v, now, made, Fin(h), x, v[x].n);
      }
    }
    ExactSupport(t.ops[o].pre, v, b.condCost, h);
  }

  lemma SupportInRange(t: Task, v: seq<Cost>, o: nat, d: nat)
    requires o < |t.ops| && ValidOperator(t, t.ops[o]) && d in Support(t.ops[o].pre, v)
    ensures d < |t.init|
  {
    SupportCosts(t.ops[o].pre, v, d);
  }

  lemma UsedActions(t: Task, v: seq<Cost>, c: nat)
    requires t.ops != [] && c < |v| && Backchained(t, v, c) && AchieverOf(t, v, c).Some?
    ensures t.ops[AchieverOf(t, v, c).value].action in PlanActions(t, v)
  {
    assert UsedByPlan(t, v, AchieverOf(t, v, c).value);
  }

  // The new conditions are backchained through as well.
  lemma NewAreBackchained(t: Task, v: seq<Cost>, visited: set<nat>, visited': set<nat>, c: nat)
    requires ValidTask(t) && |v| == |t.init| && c < |v| && Backchained(t, v, c)
    requires forall d | d in visited :: d < |v| && Backchained(t, v, d)
    requires forall d | d in visited' && d !in visited :: Supports(t, v, c, d)
    ensures forall d | d in visited' :: d < |v| && Backchained(t, v, d)
  {
    forall d | d in visited' && d !in visited ensures d < |v| && Backchained(t, v, d) {
      var o := AchieverOf(t, v, c).value;
      assert ValidOperator(t, t.ops[o]);
      hide Backchained, AchieverOf, Support, ValidTask;
      ChainGrows(t, v, c, d);
      SupportInRange(t, v, o, d);
    }
  }

  /** One backchained condition has been handled. */
  lemma ChainStep(
    t: Task, v: seq<Cost>, plan: set<nat>, plan': set<nat>, visited: set<nat>, visited': set<nat>,
    pending: set<nat>, pending': set<nat>, c: nat)
    requires ValidTask(t) && |v| == |t.init| && Chained(t, v, plan, visited, pending) && c in pending
    requires visited <= visited' && pending' <= visited' && pending - {c} <= pending'
    requires visited' - visited <= pending'
    requires var r := AchieverOf(t, v, c);
      if r.None? then plan' == plan && visited' == visited
      else plan' == plan + {t.ops[r.value].action} && visited' == visited + Support(t.ops[r.value].pre, v)
    ensures Chained(t, v, plan', visited', pending')
  {
    hide Backchained, AchieverOf, Support, PlanActions, ValidTask;
    NewAreBackchained(t, v, visited, visited', c);
    forall d | d in visited' && d !in pending' ensures Handled(t, v, plan', visited', d) {
      assert d == c || Handled(t, v, plan, visited, d);
    }
    if AchieverOf(t, v, c).Some? {
      UsedActions(t, v, c);
    }
  }

  // Pushes the cids of `leaves` not visited before.
  method PushNew(leaves: seq<nat>, visited: set<nat>, stack: seq<nat>) returns (visited': set<nat>, stack': seq<nat>)
    requires forall d | d in stack :: d in visited
    ensures visited' == visited + Elements(leaves)
    ensures forall d | d in stack' :: d in visited'
    ensures forall d | d in stack :: d in stack'
    ensures forall d | d in visited' && d !in visited :: d in stack'
    ensures visited' == visited ==> stack' == stack
  {
    visited', stack' := visited, stack;
    for i := 0 to |leaves|
      invariant visited' == visited + Elements(leaves[..i])
      invariant forall d | d in stack' :: d in visited'
      invariant forall d | d in stack :: d in stack'
      invariant forall d | d in visited' && d !in visited :: d in stack'
      invariant visited' == visited ==> stack' == stack
    {
      assert leaves[..i + 1] == leaves[..i] + [leaves[i]];
      if leaves[i] !in visited' {
        visited', stack' := visited' + {leaves[i]}, stack' + [leaves[i]];
      }
    }
    assert leaves[..|leaves|] == leaves;
  }

  lemma BoundedSet(s: set<nat>, n: nat)
    requires forall x | x in s :: x < n
    ensures |s| <= n
  {
    SubsetSize(s, Upto(n));
    UptoSize(n);
  }

  lemma {:induction false} SubsetSize(s: set<nat>, t: set<nat>)
    requires s <= t
    ensures |s| <= |t|
    ensures s != t ==> |s| < |t|
  {
    if s != {} {
      var x :| x in s;
      SubsetSize(s - {x}, t - {x});
    }
  }

  // The costs and achievers `_eval` left behind, as far as backchaining goes.
  ghost predicate Ready(t: Task, v: seq<Cost>, condCost: seq<Cost>, reachedBy: seq<Option<nat>>, c: nat) {
    && c < |v| == |reachedBy|
    && AchieverOf(t, v, c) == reachedBy[c]
    && (reachedBy[c].Some? ==>
          && reachedBy[c].value < |t.ops|
          && Support(t.ops[reachedBy[c].value].pre, condCost) == Support(t.ops[reachedBy[c].value].pre, v))
  }

  ghost predicate AllReady(t: Task, v: seq<Cost>, condCost: seq<Cost>, reachedBy: seq<Option<nat>>)
    requires t.ops != []
  {
    && (forall c | 0 <= c < |v| && Backchained(t, v, c) :: Ready(t, v, condCost, reachedBy, c))
    && (forall c | c in Support(t.ops[t.Goal()].pre, v) :: c < |v|)
    && Support(t.ops[t.Goal()].pre, condCost) == Support(t.ops[t.Goal()].pre, v)
  }

  lemma SettledIsReady(b: FixpointBuffers, v: seq<Cost>, made: Made, h: nat)
    requires b.hff && !b.task.hmax && b.Settled(v, made, Fin(h)) && Pre(b.task, b.task.Goal(), v) == Fin(h)
    ensures AllReady(b.task, v, b.condCost, b.reachedBy)
  {
    var t := b.task;
    forall c | 0 <= c < |v| && Backchained(t, v, c) ensures Ready(t, v, b.condCost, b.reachedBy, c) {
      BackchainedIsExact(b, v, made, h, c);
    }
    SupportIsExact(b, v, made, h, t.Goal());
    forall c | c in Support(t.ops[t.Goal()].pre, v) ensures c < |v| {
      SupportInRange(t, v, t.Goal(), c);
    }
  }

  lemma ChainedInitially(t: Task, v: seq<Cost>, condCost: seq<Cost>, reachedBy: seq<Option<nat>>, visited: set<nat>)
    requires ValidTask(t) && AllReady(t, v, condCost, reachedBy)
    requires visited == Support(t.ops[t.Goal()].pre, condCost)
    ensures Chained(t, v, {}, visited, visited)
  {
    forall c | c in visited ensures Backchained(t, v, c) {
      ChainStarts(t, v, c);
    }
  }

  lemma NextIsReady(
    t: Task, v: seq<Cost>, condCost: seq<Cost>, reachedBy: seq<Option<nat>>,
    plan: set<nat>, visited: set<nat>, pending: set<nat>, c: nat)
    requires ValidTask(t) && AllReady(t, v, condCost, reachedBy)
    requires Chained(t, v, plan, visited, pending) && c in pending
    ensures c < |reachedBy| == |v| && Ready(t, v, condCost, reachedBy, c)
    ensures forall d | d in visited :: d < |v|
  {
  }

  // The backchaining loop of `_eval`.
  method Backchain(t: Task, condCost: seq<Cost>, reachedBy: seq<Option<nat>>, ghost v: seq<Cost>)
    returns (plan: set<nat>)
    requires ValidTask(t) && Solution(t, v) && |condCost| == |t.init|
    requires AllReady(t, v, condCost, reachedBy)
    ensures plan == PlanActions(t, v)
  {
    assert forall o | 0 <= o < |t.ops| :: ValidOperator(t, t.ops[o]);
    assert |v| == |t.init|;
    hide ValidTask, AllReady, Solution, Chained, Support, AchieverOf, PlanActions, Backchained, SupportAll;
    plan := {};
    var goals := SupportingConditions(t.ops[t.Goal()].nodes, t.ops[t.Goal()].pre, condCost);
    var visited: set<nat>, stack: seq<nat> := PushNew(goals, {}, []);
    assert visited == Elements(goals) == Elements(stack);
    ChainedInitially(t, v, condCost, reachedBy, visited);
    while stack != []
      invariant Chained(t, v, plan, visited, Elements(stack))
      decreases |v| - |visited|, |stack|
    {
      ghost var before := visited;
      plan, visited, stack := BackchainOne(t, condCost, reachedBy, v, plan, visited, stack);
      SubsetSize(before, visited);
      VisitedBounded(t, v, plan, visited, Elements(stack));
    }
    assert Elements(stack) == {};
    ChainedIsPlan(t, v, plan, visited);
  }

  lemma VisitedBounded(t: Task, v: seq<Cost>, plan: set<nat>, visited: set<nat>, pending: set<nat>)
    requires ValidTask(t) && Chained(t, v, plan, visited, pending)
    ensures |visited| <= |v|
  {
    BoundedSet(visited, |v|);
  }

  // One iteration of the backchaining loop.
  method BackchainOne(
    t: Task, condCost: seq<Cost>, reachedBy: seq<Option<nat>>, ghost v: seq<Cost>,
    plan: set<nat>, visited: set<nat>, stack: seq<nat>)
    returns (plan': set<nat>, visited': set<nat>, stack': seq<nat>)
    requires ValidTask(t) && Solution(t, v) && |condCost| == |t.init|
    requires AllReady(t, v, condCost, reachedBy)
    requires stack != [] && Chained(t, v, plan, visited, Elements(stack))
    ensures Chained(t, v, plan', visited', Elements(stack'))
    ensures visited <= visited' && (visited' == visited ==> |stack'| < |stack|)
  {
    assert forall o | 0 <= o < |t.ops| :: ValidOperator(t, t.ops[o]);
    assert |v| == |t.init| && Elements(stack) <= visited;
    hide ValidTask, AllReady, Solution, Chained, Support, AchieverOf, PlanActions, Backchained, SupportAll;
    var g := stack[|stack| - 1];
    NextIsReady(t, v, condCost, reachedBy, plan, visited, Elements(stack), g);
    plan', visited', stack' := plan, visited, stack[..|stack| - 1];
    assert forall d | d in stack' :: d in stack;
    assert forall d | d in stack && d != g :: d in stack';
    var r := reachedBy[g];
    if r.Some? {
      plan' := plan' + {t.ops[r.value].action};
      var leaves := SupportingConditions(t.ops[r.value].nodes, t.ops[r.value].pre, condCost);
      visited', stack' := PushNew(leaves, visited', stack');
    }
    ChainStep(t, v, plan, plan', visited, visited', Elements(stack), Elements(stack'), g);
  }

  /** `_eval` for hff.  Its result is a function of the solution alone, so it
      is the same for every order in which equal costs are popped. */
  method EvaluateHff(b: FixpointBuffers, ghost v: seq<Cost>, eventsLen: map<nat, nat>, eventsLeft: map<nat, nat>)
    returns (res: Option<nat>)
    requires b.hff && b.monotone && !b.reopen && ValidTask(b.task) && !b.task.hmax && Solution(b.task, v)
    requires forall o | 0 <= o < b.task.Goal() :: b.task.ops[o].action in eventsLen
    modifies b
    ensures res == HffValue(b.task, v, eventsLen, eventsLeft)
  {
    hide Support, AchieverOf, Solution, PlanActions, TreeCost, ValidTask, SumOver, AllReady;
    PlanActionsAreActions(b.task, v, eventsLen.Keys);
    var h; ghost var made;
    h, made := b.Evaluate(v);
    if h.Inf? {
      return None;
    }
    var inProgress := Sum(eventsLeft.Keys, eventsLeft);
    if h == Fin(0) {
      return Some(inProgress);
    }
    SettledIsReady(b, v, made, h.n);
    var plan := Backchain(b.task, b.condCost, b.reachedBy, v);
    var toOpen := Sum(plan - eventsLeft.Keys, eventsLen);
    res := Some(inProgress + toOpen);
  }
}
