/**
 Condition costs and the AND/OR preconditions they are propagated through, as
 in `heuristics.rs`.  Every relaxed cost is a natural number or infinite.
*/
module Costs {

  datatype Cost = Fin(n: nat) | Inf

  predicate Le(a: Cost, b: Cost) {
    b.Inf? || (a.Fin? && a.n <= b.n)
  }

  predicate Lt(a: Cost, b: Cost) {
    a.Fin? && (b.Inf? || a.n < b.n)
  }

  function Plus(a: Cost, b: Cost): Cost {
    if a.Inf? || b.Inf? then Inf else Fin(a.n + b.n)
  }

  function Max(a: Cost, b: Cost): Cost {
    if Le(a, b) then b else a
  }

  function Min(a: Cost, b: Cost): Cost {
    if Lt(a, b) then a else b
  }

  // A precondition over condition ids.
  datatype Tree = Leaf(cid: nat) | And(args: seq<Tree>) | Or(args: seq<Tree>)

  ghost function Leaves(t: Tree): set<nat> {
    match t
    case Leaf(c) => {c}
    case And(ts) => AllLeaves(ts)
    case Or(ts) => AllLeaves(ts)
  }

  ghost function AllLeaves(ts: seq<Tree>): set<nat> {
    if ts == [] then {} else Leaves(ts[0]) + AllLeaves(ts[1..])
  }

  predicate HasOr(t: Tree) {
    match t
    case Leaf(_) => false
    case And(ts) => AnyOr(ts)
    case Or(_) => true
  }

  predicate AnyOr(ts: seq<Tree>) {
    ts != [] && (HasOr(ts[0]) || AnyOr(ts[1..]))
  }

  function At(costs: seq<Cost>, c: nat): Cost {
    if c < |costs| then costs[c] else Inf
  }

  /** The cost of `t`: AND adds up (takes the maximum for hmax), OR takes the
      cheapest operand. */
  ghost function TreeCost(t: Tree, costs: seq<Cost>, hmax: bool): Cost
  {
    match t
    case Leaf(c) => At(costs, c)
    case And(ts) => AndCost(ts, costs, hmax)
    case Or(ts) => OrCost(ts, costs, hmax)
  }

  ghost function AndCost(ts: seq<Tree>, costs: seq<Cost>, hmax: bool): Cost
  {
    if ts == [] then Fin(0) else
      var a, b := TreeCost(ts[0], costs, hmax), AndCost(ts[1..], costs, hmax);
      if hmax then Max(a, b) else Plus(a, b)
  }

  ghost function OrCost(ts: seq<Tree>, costs: seq<Cost>, hmax: bool): Cost
  {
    if ts == [] then Inf else Min(TreeCost(ts[0], costs, hmax), OrCost(ts[1..], costs, hmax))
  }

  // `d` is nowhere above `c`, on the leaves `cs` whose `c` cost is at most `k`.
  ghost predicate BelowUpTo(cs: set<nat>, c: seq<Cost>, d: seq<Cost>, k: Cost) {
    forall x | x in cs && Le(At(c, x), k) :: Le(At(d, x), At(c, x))
  }

  /** A tree costing at most `k` only looks at leaves costing at most `k`, so it
      is monotone in those. */
  lemma {:induction false} TreeMonotone(t: Tree, c: seq<Cost>, d: seq<Cost>, hmax: bool, k: Cost)
    requires BelowUpTo(Leaves(t), c, d, k)
    requires Le(TreeCost(t, c, hmax), k)
    ensures Le(TreeCost(t, d, hmax), TreeCost(t, c, hmax))
  {
    match t
    case Leaf(x) => assert x in Leaves(t);
    case And(ts) => AndMonotone(ts, c, d, hmax, k);
    case Or(ts) => OrMonotone(ts, c, d, hmax, k);
  }

  lemma {:induction false} AndMonotone(ts: seq<Tree>, c: seq<Cost>, d: seq<Cost>, hmax: bool, k: Cost)
    requires BelowUpTo(AllLeaves(ts), c, d, k) && Le(AndCost(ts, c, hmax), k)
    ensures Le(AndCost(ts, d, hmax), AndCost(ts, c, hmax))
  {
    if ts != [] {
      TreeMonotone(ts[0], c, d, hmax, k);
      AndMonotone(ts[1..], c, d, hmax, k);
    }
  }

  lemma {:induction false} OrMonotone(ts: seq<Tree>, c: seq<Cost>, d: seq<Cost>, hmax: bool, k: Cost)
    requires BelowUpTo(AllLeaves(ts), c, d, k) && Le(OrCost(ts, c, hmax), k)
    ensures Le(OrCost(ts, d, hmax), OrCost(ts, c, hmax))
  {
    if ts != [] {
      if Le(TreeCost(ts[0], c, hmax), k) {
        TreeMonotone(ts[0], c, d, hmax, k);
      }
      if Le(OrCost(ts[1..], c, hmax), k) {
        OrMonotone(ts[1..], c, d, hmax, k);
      }
    }
  }

  // Where `c` is finite and at most `k`, so is `d` finite.
  ghost predicate FiniteUpTo(cs: set<nat>, c: seq<Cost>, d: seq<Cost>, k: Cost) {
    forall x | x in cs && At(c, x).Fin? && Le(At(c, x), k) :: At(d, x).Fin?
  }

  /** A tree costing at most `k` is finite wherever its leaves costing at most `k` are. */
  lemma {:induction false} FiniteTree(t: Tree, c: seq<Cost>, d: seq<Cost>, hmax: bool, k: Cost)
    requires FiniteUpTo(Leaves(t), c, d, k)
    requires TreeCost(t, c, hmax).Fin? && Le(TreeCost(t, c, hmax), k)
    ensures TreeCost(t, d, hmax).Fin?
  {
    match t
    case Leaf(x) => assert x in Leaves(t);
    case And(ts) => FiniteAnd(ts, c, d, hmax, k);
    case Or(ts) => FiniteOr(ts, c, d, hmax, k);
  }

  lemma {:induction false} FiniteAnd(ts: seq<Tree>, c: seq<Cost>, d: seq<Cost>, hmax: bool, k: Cost)
    requires FiniteUpTo(AllLeaves(ts), c, d, k)
    requires AndCost(ts, c, hmax).Fin? && Le(AndCost(ts, c, hmax), k)
    ensures AndCost(ts, d, hmax).Fin?
  {
    if ts != [] {
      FiniteTree(ts[0], c, d, hmax, k);
      FiniteAnd(ts[1..], c, d, hmax, k);
    }
  }

  lemma {:induction false} FiniteOr(ts: seq<Tree>, c: seq<Cost>, d: seq<Cost>, hmax: bool, k: Cost)
    requires FiniteUpTo(AllLeaves(ts), c, d, k)
    requires OrCost(ts, c, hmax).Fin? && Le(OrCost(ts, c, hmax), k)
    ensures OrCost(ts, d, hmax).Fin?
  {
    if OrCost(ts, c, hmax) == TreeCost(ts[0], c, hmax) {
      FiniteTree(ts[0], c, d, hmax, k);
    } else {
      FiniteOr(ts[1..], c, d, hmax, k);
    }
  }

  /** Cheaper leaves make cheaper trees. */
  lemma CheaperTree(t: Tree, c: seq<Cost>, d: seq<Cost>, hmax: bool)
    requires forall x | x in Leaves(t) :: Le(At(d, x), At(c, x))
    ensures Le(TreeCost(t, d, hmax), TreeCost(t, c, hmax))
  {
    TreeMonotone(t, c, d, hmax, Inf);
  }

  /** Which leaves are free and which are reached decides whether the tree is. */
  lemma SameReach(t: Tree, c: seq<Cost>, d: seq<Cost>, hmax: bool)
    requires forall x | x in Leaves(t) ::
               (At(c, x).Fin? <==> At(d, x).Fin?) && (At(c, x) == Fin(0) <==> At(d, x) == Fin(0))
    ensures TreeCost(t, c, hmax).Fin? <==> TreeCost(t, d, hmax).Fin?
    ensures TreeCost(t, c, hmax) == Fin(0) <==> TreeCost(t, d, hmax) == Fin(0)
  {
    if TreeCost(t, c, hmax).Fin? { FiniteTree(t, c, d, hmax, Inf); }
    if TreeCost(t, d, hmax).Fin? { FiniteTree(t, d, c, hmax, Inf); }
    if TreeCost(t, c, hmax) == Fin(0) { TreeMonotone(t, c, d, hmax, Fin(0)); }
    if TreeCost(t, d, hmax) == Fin(0) { TreeMonotone(t, d, c, hmax, Fin(0)); }
  }

  /** Trees that agree with `v` on every leaf of cost at most `k`, and are not
      cheaper elsewhere, have the exact cost as soon as it is at most `k`. */
  lemma ExactTree(t: Tree, v: seq<Cost>, c: seq<Cost>, hmax: bool, k: Cost)
    requires forall x | x in Leaves(t) :: Le(At(v, x), At(c, x)) && (Le(At(v, x), k) ==> At(c, x) == At(v, x))
    requires Le(TreeCost(t, v, hmax), k)
    ensures TreeCost(t, c, hmax) == TreeCost(t, v, hmax)
  {
    TreeMonotone(t, v, c, hmax, k);
    CheaperTree(t, c, v, hmax);
  }

  /** Changing the cost of conditions `t` does not read leaves it alone. */
  lemma SameTree(t: Tree, c: seq<Cost>, d: seq<Cost>, hmax: bool)
    requires forall x | x in Leaves(t) :: At(d, x) == At(c, x)
    ensures TreeCost(t, d, hmax) == TreeCost(t, c, hmax)
  {
    CheaperTree(t, c, d, hmax);
    CheaperTree(t, d, c, hmax);
  }

  /** Without OR, one unreached leaf makes the whole tree unreached. */
  lemma {:induction false} UnreachedTree(t: Tree, c: seq<Cost>, hmax: bool, x: nat)
    requires !HasOr(t) && x in Leaves(t) && At(c, x).Inf?
    ensures TreeCost(t, c, hmax).Inf?
  {
    match t
    case Leaf(_) =>
    case And(ts) => UnreachedAnd(ts, c, hmax, x);
  }

  lemma {:induction false} UnreachedAnd(ts: seq<Tree>, c: seq<Cost>, hmax: bool, x: nat)
    requires !AnyOr(ts) && x in AllLeaves(ts) && At(c, x).Inf?
    ensures AndCost(ts, c, hmax).Inf?
  {
    if x in Leaves(ts[0]) {
      UnreachedTree(ts[0], c, hmax, x);
    } else {
      UnreachedAnd(ts[1..], c, hmax, x);
    }
  }

  /** Lowering leaves to values no smaller than `p` cannot take a tree below
      `p` if it was not already. */
  lemma {:induction false} TreeStaysAbove(t: Tree, c: seq<Cost>, d: seq<Cost>, hmax: bool, p: nat)
    requires forall x | x in Leaves(t) :: At(d, x) == At(c, x) || Le(Fin(p), At(d, x))
    requires Le(Fin(p), TreeCost(t, c, hmax))
    ensures Le(Fin(p), TreeCost(t, d, hmax))
  {
    if !Le(Fin(p), TreeCost(t, d, hmax)) {
      TreeMonotone(t, d, c, hmax, TreeCost(t, d, hmax));
    }
  }
}
