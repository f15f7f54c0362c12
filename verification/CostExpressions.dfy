/**
 The postfix form preconditions are evaluated in (`expression_cost` and
 `supporting_conditions` of `heuristics.rs`): leaves push, and AND and OR pop as
 many operands as they have.
*/
module CostExpressions {
  import opened Costs
  import opened Options

  datatype Node = LeafNode(cid: nat) | AndNode(n: nat) | OrNode(n: nat)

  function Flatten(t: Tree): (nodes: seq<Node>)
    ensures nodes != []
  {
    match t
    case Leaf(c) => [LeafNode(c)]
    case And(ts) => FlattenAll(ts) + [AndNode(|ts|)]
    case Or(ts) => FlattenAll(ts) + [OrNode(|ts|)]
  }

  function FlattenAll(ts: seq<Tree>): seq<Node> {
    if ts == [] then [] else Flatten(ts[0]) + FlattenAll(ts[1..])
  }

  // No nodes at all are the empty precondition too.
  ghost predicate Represents(nodes: seq<Node>, t: Tree) {
    nodes == Flatten(t) || (t == And([]) && nodes == [])
  }

  /** What a stack machine over `V` pushes for a leaf, an AND and an OR. */
  datatype Algebra<!V> = Algebra(leaf: nat -> V, conj: seq<V> -> V, disj: seq<V> -> V)

  ghost function Fold<V>(t: Tree, alg: Algebra<V>): V {
    match t
    case Leaf(c) => alg.leaf(c)
    case And(ts) => alg.conj(FoldAll(ts, alg))
    case Or(ts) => alg.disj(FoldAll(ts, alg))
  }

  ghost function FoldAll<V>(ts: seq<Tree>, alg: Algebra<V>): (vals: seq<V>)
    ensures |vals| == |ts|
  {
    if ts == [] then [] else [Fold(ts[0], alg)] + FoldAll(ts[1..], alg)
  }

  // One step of the stack machine; there is no step from a stack too short.
  ghost function Step<V>(node: Node, stack: seq<V>, alg: Algebra<V>): Option<seq<V>> {
    if node.LeafNode? then Some(stack + [alg.leaf(node.cid)])
    else if node.n > |stack| then None
    else
      var vals := stack[|stack| - node.n..];
      Some(stack[..|stack| - node.n] + [if node.AndNode? then alg.conj(vals) else alg.disj(vals)])
  }

  ghost function Run<V>(nodes: seq<Node>, stack: seq<V>, alg: Algebra<V>): Option<seq<V>> {
    if nodes == [] then Some(stack) else
      match Step(nodes[0], stack, alg)
      case None => None
      case Some(stack') => Run(nodes[1..], stack', alg)
  }

  lemma {:induction false} RunConcat<V>(p: seq<Node>, q: seq<Node>, stack: seq<V>, mid: seq<V>, alg: Algebra<V>)
    requires Run(p, stack, alg) == Some(mid)
    ensures Run(p + q, stack, alg) == Run(q, mid, alg)
  {
    if p == [] {
      assert p + q == q;
    } else {
      assert (p + q)[1..] == p[1..] + q;
      RunConcat(p[1..], q, Step(p[0], stack, alg).value, mid, alg);
    }
  }

  /** Running the postfix form of a tree pushes what the tree folds to. */
  lemma {:induction false} RunFlatten<V>(t: Tree, stack: seq<V>, alg: Algebra<V>)
    ensures Run(Flatten(t), stack, alg) == Some(stack + [Fold(t, alg)])
  {
    match t
    case Leaf(c) =>
      assert Flatten(t)[1..] == [];
    case And(ts) =>
      RunFlattenAll(ts, stack, alg);
      RunOperator(AndNode(|ts|), ts, stack, alg);
    case Or(ts) =>
      RunFlattenAll(ts, stack, alg);
      RunOperator(OrNode(|ts|), ts, stack, alg);
  }

  lemma RunOperator<V>(node: Node, ts: seq<Tree>, stack: seq<V>, alg: Algebra<V>)
    requires !node.LeafNode? && node.n == |ts|
    requires Run(FlattenAll(ts), stack, alg) == Some(stack + FoldAll(ts, alg))
    ensures Run(FlattenAll(ts) + [node], stack, alg)
         == Some(stack + [if node.AndNode? then alg.conj(FoldAll(ts, alg)) else alg.disj(FoldAll(ts, alg))])
  {
    var full, vals := stack + FoldAll(ts, alg), FoldAll(ts, alg);
    RunConcat(FlattenAll(ts), [node], stack, full, alg);
    assert full[..|full| - |ts|] == stack && full[|full| - |ts|..] == vals;
    assert [node][1..] == [];
  }

  lemma {:induction false} RunFlattenAll<V>(ts: seq<Tree>, stack: seq<V>, alg: Algebra<V>)
    ensures Run(FlattenAll(ts), stack, alg) == Some(stack + FoldAll(ts, alg))
  {
    if ts == [] {
      assert stack + FoldAll(ts, alg) == stack;
    } else {
      var mid := stack + [Fold(ts[0], alg)];
      RunFlatten(ts[0], stack, alg);
      RunConcat(Flatten(ts[0]), FlattenAll(ts[1..]), stack, mid, alg);
      RunFlattenAll(ts[1..], mid, alg);
      assert mid + FoldAll(ts[1..], alg) == stack + FoldAll(ts, alg);
    }
  }

  lemma RunStep<V>(nodes: seq<Node>, i: nat, stack: seq<V>, alg: Algebra<V>)
    requires i < |nodes| && Run(nodes[i..], stack, alg).Some?
    ensures Step(nodes[i], stack, alg).Some?
    ensures Run(nodes[i + 1..], Step(nodes[i], stack, alg).value, alg) == Run(nodes[i..], stack, alg)
  {
    assert nodes[i..][1..] == nodes[i + 1..];
  }

  lemma RunEmpty<V>(nodes: seq<Node>, stack: seq<V>, alg: Algebra<V>)
    ensures Run(nodes[|nodes|..], stack, alg) == Some(stack)
  {
  }

  // What AND and OR compute from the costs they pop.
  ghost function AndOf(vals: seq<Cost>, hmax: bool): Cost {
    if vals == [] then Fin(0) else
      if hmax then Max(vals[0], AndOf(vals[1..], hmax)) else Plus(vals[0], AndOf(vals[1..], hmax))
  }

  ghost function OrOf(vals: seq<Cost>): Cost {
    if vals == [] then Inf else Min(vals[0], OrOf(vals[1..]))
  }

  ghost function CostAlgebra(costs: seq<Cost>, hmax: bool): Algebra<Cost> {
    Algebra(c => At(costs, c), vals => AndOf(vals, hmax), vals => OrOf(vals))
  }

  lemma {:induction false} FoldIsTreeCost(t: Tree, costs: seq<Cost>, hmax: bool)
    ensures Fold(t, CostAlgebra(costs, hmax)) == TreeCost(t, costs, hmax)
  {
    match t
    case Leaf(_) =>
    case And(ts) => FoldAllCosts(ts, costs, hmax);
    case Or(ts) => FoldAllCosts(ts, costs, hmax);
  }

  lemma {:induction false} FoldAllCosts(ts: seq<Tree>, costs: seq<Cost>, hmax: bool)
    ensures AndOf(FoldAll(ts, CostAlgebra(costs, hmax)), hmax) == AndCost(ts, costs, hmax)
    ensures OrOf(FoldAll(ts, CostAlgebra(costs, hmax))) == OrCost(ts, costs, hmax)
  {
    if ts != [] {
      FoldIsTreeCost(ts[0], costs, hmax);
      FoldAllCosts(ts[1..], costs, hmax);
    }
  }

  /** Evaluates a postfix precondition on its scratch stack. */
  method ExpressionCost(nodes: seq<Node>, ghost t: Tree, costs: seq<Cost>, hmax: bool) returns (cost: Cost)
    requires Represents(nodes, t)
    requires forall i | 0 <= i < |nodes| && nodes[i].LeafNode? :: nodes[i].cid < |costs|
    ensures cost == TreeCost(t, costs, hmax)
  {
    if nodes == [] {
      return Fin(0);
    }
    if nodes[|nodes| - 1].LeafNode? {
      assert t.Leaf?;
      return costs[nodes[|nodes| - 1].cid];
    }
    ghost var alg, result := CostAlgebra(costs, hmax), [TreeCost(t, costs, hmax)];
    RunFlatten(t, [], alg);
    FoldIsTreeCost(t, costs, hmax);
    var stack: seq<Cost> := [];
    assert nodes[0..] == nodes && stack + result == result;
    hide Run, TreeCost, Flatten, Fold;
    for i := 0 to |nodes|
      invariant Run(nodes[i..], stack, alg) == Some(result)
    {
      RunStep(nodes, i, stack, alg);
      match nodes[i]
      case LeafNode(c) => stack := stack + [costs[c]];
      case AndNode(n) => stack := PopAnd(stack, n, hmax);
      case OrNode(n) => stack := PopOr(stack, n);
    }
    RunEmpty(nodes, stack, alg);
    cost := stack[0];
  }

  method PopAnd(stack: seq<Cost>, n: nat, hmax: bool) returns (rest: seq<Cost>)
    requires n <= |stack|
    ensures rest == stack[..|stack| - n] + [AndOf(stack[|stack| - n..], hmax)]
  {
    var r := Fin(0);
    rest := stack;
    for k := 0 to n
      invariant rest == stack[..|stack| - k]
      invariant r == AndOf(stack[|stack| - k..], hmax)
    {
      var v := rest[|rest| - 1];
      rest := rest[..|rest| - 1];
      assert stack[|stack| - k - 1..][1..] == stack[|stack| - k..];
      r := if hmax then Max(r, v) else Plus(r, v);
    }
    rest := rest + [r];
  }

  method PopOr(stack: seq<Cost>, n: nat) returns (rest: seq<Cost>)
    requires n <= |stack|
    ensures rest == stack[..|stack| - n] + [OrOf(stack[|stack| - n..])]
  {
    var r := Inf;
    rest := stack;
    for k := 0 to n
      invariant rest == stack[..|stack| - k]
      invariant r == OrOf(stack[|stack| - k..])
    {
      var v := rest[|rest| - 1];
      rest := rest[..|rest| - 1];
      assert stack[|stack| - k - 1..][1..] == stack[|stack| - k..];
      if Lt(v, r) {
        r := v;
      }
    }
    rest := rest + [r];
  }
}
