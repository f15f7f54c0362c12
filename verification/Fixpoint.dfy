/**
 The generalised Dijkstra fix-point of `heuristics.rs`: operators are popped in
 order of precondition cost, a condition getting cheaper updates the operators
 reading it through lazy `unreached` counters, and the search stops as soon as
 the goal is popped.  For hmax with a numeric condition that several operators
 achieve, the heap is drained instead, and a closed operator that gets cheaper
 is opened again.
*/
module Fixpoint {
  import opened Options
  import opened Costs
  import opened CostExpressions
  import opened Relaxation

  /** The buffers of one evaluation, as a value. */
  datatype View = View(
    condCost: seq<Cost>, opCost: seq<Cost>, closed: seq<bool>, unreached: seq<int>, queue: seq<(nat, nat)>,
    reopen: bool)

  ghost function UnreachedLeaves(t: Task, o: nat, costs: seq<Cost>): set<nat>
    requires o < |t.ops|
  {
    set c | c in Leaves(t.ops[o].pre) && At(costs, c).Inf?
  }

  // What the buffers say about an operator `o` when its leaves cost `costs`.
  ghost predicate UpToDate(t: Task, b: View, o: nat, costs: seq<Cost>)
    requires o < |t.ops| == |b.opCost| == |b.unreached| == |b.closed|
  {
    && b.opCost[o] == Pre(t, o, costs)
    && (!b.closed[o] && b.opCost[o].Fin? ==> (b.opCost[o].n, o) in b.queue)
    && b.unreached[o] == |UnreachedLeaves(t, o, costs)|
  }

  ghost predicate Sized(t: Task, b: View) {
    && |b.condCost| == |t.init|
    && |b.opCost| == |b.closed| == |b.unreached| == |t.ops|
    && (forall e | e in b.queue :: e.1 < |t.ops|)
  }

  /** Every operator that is open, or may be reopened, has its cost and its counter, and
      while it is open its queue entry. */
  ghost predicate Coherent(t: Task, b: View) {
    && Sized(t, b)
    && forall o | 0 <= o < |t.ops| && (b.reopen || !b.closed[o]) :: UpToDate(t, b, o, b.condCost)
  }

  // No open operator is cheaper than `p`.
  ghost predicate AtLeast(b: View, p: nat) {
    forall o | 0 <= o < |b.opCost| && o < |b.closed| && !b.closed[o] :: Le(Fin(p), b.opCost[o])
  }

  // Coherent, but for the readers of `c` in `rest`, which still have to hear
  // that the cost of `c` dropped from what it was in `before`.
  ghost predicate CoherentExcept(t: Task, b: View, before: seq<Cost>, rest: seq<nat>) {
    && Sized(t, b)
    && (forall o | 0 <= o < |t.ops| && (b.reopen || !b.closed[o]) && o !in rest :: UpToDate(t, b, o, b.condCost))
    && (forall o | 0 <= o < |t.ops| && (b.reopen || !b.closed[o]) && o in rest :: UpToDate(t, b, o, before))
  }

  /** Lowering the cost of `c` leaves only its readers to be updated. */
  lemma LowerStarts(t: Task, b: View, c: nat, cost: Cost)
    requires ValidTask(t) && Coherent(t, b) && c < |t.init|
    ensures CoherentExcept(t, b.(condCost := b.condCost[c := cost]), b.condCost, t.readers[c])
  {
    var costs := b.condCost[c := cost];
    assert ValidReader(t, c);
    forall o | 0 <= o < |t.ops| && (b.reopen || !b.closed[o]) && o !in t.readers[c]
      ensures UpToDate(t, b.(condCost := costs), o, costs)
    {
      assert UpToDate(t, b, o, b.condCost);
      assert c !in Leaves(t.ops[o].pre);
      SameTree(t.ops[o].pre, b.condCost, costs, t.hmax);
      assert UnreachedLeaves(t, o, costs) == UnreachedLeaves(t, o, b.condCost);
    }
    forall o | 0 <= o < |t.ops| && (b.reopen || !b.closed[o]) && o in t.readers[c]
      ensures UpToDate(t, b.(condCost := costs), o, b.condCost)
    {
      assert UpToDate(t, b, o, b.condCost);
    }
  }

  /** How the counter and the cost of a reader of `c` change. */
  lemma ReaderChanges(t: Task, o: nat, before: seq<Cost>, c: nat, cost: Cost)
    requires o < |t.ops| && c in Leaves(t.ops[o].pre) && c < |before| && Lt(cost, before[c])
    ensures |UnreachedLeaves(t, o, before[c := cost])|
         == |UnreachedLeaves(t, o, before)| - if before[c].Inf? then 1 else 0
    ensures Le(Pre(t, o, before[c := cost]), Pre(t, o, before))
    ensures !HasOr(t.ops[o].pre) && UnreachedLeaves(t, o, before[c := cost]) != {} ==>
              Pre(t, o, before[c := cost]).Inf? && Pre(t, o, before).Inf?
  {
    var costs := before[c := cost];
    CheaperTree(t.ops[o].pre, before, costs, t.hmax);
    var s, s' := UnreachedLeaves(t, o, before), UnreachedLeaves(t, o, costs);
    assert s' == s - {c};
    if !HasOr(t.ops[o].pre) && s' != {} {
      var x :| x in s';
      UnreachedTree(t.ops[o].pre, costs, t.hmax, x);
      UnreachedTree(t.ops[o].pre, before, t.hmax, x);
    }
  }

  lemma PreIs(t: Task, o: nat, costs: seq<Cost>)
    requires o < |t.ops|
    ensures Pre(t, o, costs) == TreeCost(t.ops[o].pre, costs, t.hmax)
  {
  }

  lemma ReaderStaysAbove(t: Task, o: nat, before: seq<Cost>, c: nat, cost: Cost, p: nat)
    requires o < |t.ops| && c < |before| && Le(Fin(p), cost) && Le(Fin(p), Pre(t, o, before))
    ensures Le(Fin(p), Pre(t, o, before[c := cost]))
  {
    TreeStaysAbove(t.ops[o].pre, before, before[c := cost], t.hmax, p);
  }

  /** Having updated one reader, only the later ones remain. */
  lemma ReaderUpdated(t: Task, b: View, b': View, before: seq<Cost>, rest: seq<nat>)
    requires CoherentExcept(t, b, before, rest) && rest != []
    requires forall i, j | 0 <= i < j < |rest| :: rest[i] != rest[j]
    requires Sized(t, b') && b'.condCost == b.condCost && b'.reopen == b.reopen
    requires forall e | e in b.queue :: e in b'.queue
    requires forall o | 0 <= o < |t.ops| && o != rest[0] ::
               b'.opCost[o] == b.opCost[o] && b'.unreached[o] == b.unreached[o] && b'.closed[o] == b.closed[o]
    requires rest[0] < |t.ops| && ((b'.reopen || !b'.closed[rest[0]]) ==> UpToDate(t, b', rest[0], b'.condCost))
    ensures CoherentExcept(t, b', before, rest[1..])
  {
    forall o | 0 <= o < |t.ops| && (b'.reopen || !b'.closed[o]) && o !in rest[1..] ensures UpToDate(t, b', o, b'.condCost) {
      if o != rest[0] {
        assert o !in rest;
      }
    }
  }

  /** From `b` to `b'` operators only got cheaper, and one was reopened only if it did. */
  ghost predicate Lowers(b: View, b': View) {
    && |b.opCost| == |b'.opCost| == |b.closed| == |b'.closed|
    && (forall o | 0 <= o < |b.opCost| ::
          && Le(b'.opCost[o], b.opCost[o]) && (b'.closed[o] ==> b.closed[o] && b'.opCost[o] == b.opCost[o])
          && (b.closed[o] && !b'.closed[o] ==> b.reopen && b'.opCost[o] != b.opCost[o]))
    && b'.reopen == b.reopen
  }

  lemma LowersOne(b: View, b': View, o: nat)
    requires |b.opCost| == |b.closed| && o < |b.opCost| && (b.reopen || !b.closed[o]) && b'.reopen == b.reopen
    requires |b'.opCost| == |b'.closed| == |b.opCost| && Lt(b'.opCost[o], b.opCost[o]) && !b'.closed[o]
    requires b' == b.(opCost := b.opCost[o := b'.opCost[o]], closed := b.closed[o := false],
                      unreached := b'.unreached, queue := b'.queue)
    ensures Lowers(b, b')
    ensures forall p: nat :: AtLeast(b, p) && Le(Fin(p), b'.opCost[o]) ==> AtLeast(b', p)
  {
    forall p: nat | AtLeast(b, p) && Le(Fin(p), b'.opCost[o]) ensures AtLeast(b', p) {
      forall x | 0 <= x < |b'.opCost| && !b'.closed[x] ensures Le(Fin(p), b'.opCost[x]) {
        assert x == o || !b.closed[x];
      }
    }
  }

  lemma LowersSame(b: View, b': View)
    requires |b.opCost| == |b.closed| && b' == b.(unreached := b'.unreached)
    ensures Lowers(b, b')
    ensures forall p: nat :: AtLeast(b, p) ==> AtLeast(b', p)
  {
    forall p: nat | AtLeast(b, p) ensures AtLeast(b', p) {
      assert forall x | 0 <= x < |b'.opCost| && !b'.closed[x] :: Le(Fin(p), b.opCost[x]);
    }
  }

  lemma LowersOn(b: View, b': View, b'': View)
    requires Lowers(b, b') && Lowers(b', b'')
    ensures Lowers(b, b'')
  {
  }

  // Either nothing got cheaper, and nothing was reopened, or the costs went down.
  lemma LowersLess(b: View, b': View)
    requires Lowers(b, b')
    ensures b'.opCost == b.opCost ==> b'.closed == b.closed
    ensures Unreached(b'.opCost) <= Unreached(b.opCost)
    ensures Unreached(b'.opCost) == Unreached(b.opCost) ==> Total(b'.opCost) <= Total(b.opCost)
    ensures b'.opCost != b.opCost ==>
              Unreached(b'.opCost) < Unreached(b.opCost) || Total(b'.opCost) < Total(b.opCost)
  {
    LowerMeasure(b.opCost, b'.opCost);
  }

  predicate IsCheapest(q: seq<(nat, nat)>, i: int) {
    0 <= i < |q| && forall j | 0 <= j < |q| :: q[i].0 <= q[j].0
  }

  lemma {:induction false} CheapestExists(q: seq<(nat, nat)>)
    requires q != []
    ensures exists i :: IsCheapest(q, i)
  {
    if |q| == 1 {
      assert IsCheapest(q, 0);
    } else {
      var rest := q[1..];
      CheapestExists(rest);
      var k :| IsCheapest(rest, k);
      assert IsCheapest(q, if q[0].0 <= rest[k].0 then 0 else k + 1);
    }
  }

  lemma Removed(q: seq<(nat, nat)>, i: int)
    requires IsCheapest(q, i)
    ensures forall e | e in q[..i] + q[i + 1..] :: e in q && q[i].0 <= e.0
    ensures forall e | e in q :: e == q[i] || e in q[..i] + q[i + 1..]
  {
    assert q == q[..i] + [q[i]] + q[i + 1..];
  }

  function MinOf(a: Cost, b: Cost): (m: Cost)
    ensures m == a || m == b
    ensures Le(m, a) && Le(m, b)
  {
    if Lt(a, b) then a else b
  }

  /** hff's choice among the operators offering a condition's cost: the first
      cheaper one, then the largest id. */
  function Achiever(hff: bool, prev: Option<nat>, current: Cost, cost: Cost, op: nat): Option<nat> {
    if !hff then prev
    else if Lt(cost, current) then Some(op)
    else if cost == current && (prev.None? || op > prev.value) then Some(op)
    else prev
  }

  /** For hmax, no two operators reach the same numeric condition: otherwise the
      source drains the heap. */
  ghost predicate SingleAchievers(t: Task) {
    t.hmax ==> forall o, o', i, j | 0 <= o < |t.ops| && 0 <= o' < |t.ops|
      && 0 <= i < |t.ops[o].numeric| && 0 <= j < |t.ops[o'].numeric|
      && t.ops[o].numeric[i].0 == t.ops[o'].numeric[j].0 :: o == o' && i == j
  }

  // An offer (o, c, w) that an expanded operator `o` has made.
  type Made = set<(nat, nat, nat)>

  /** How far the costs have come, measured against the solution `v`: no cost is
      below it, expanded operators are exact, and every offer made counts. */
  ghost predicate Sound(t: Task, v: seq<Cost>, b: View, made: Made) {
    && Sized(t, b) && |v| == |t.init|
    && (forall c | 0 <= c < |v| :: Le(v[c], b.condCost[c]) && Le(b.condCost[c], t.init[c]))
    && (forall o | 0 <= o < |t.ops| && b.closed[o] :: b.opCost[o].Fin? && b.opCost[o] == Pre(t, o, v))
    && (forall m | m in made ::
          && m.0 < |t.ops| && m.1 < |v| && b.closed[m.0] && Offers(t, m.0, m.1, m.2)
          && Le(b.condCost[m.1], Plus(Fin(m.2), b.opCost[m.0])))
  }

  /** What holds in any order of expansion: no cost is finite unless it is in `v`, none
      is 0 unless it was, and every offer made has reached its condition.  With
      reopening, the condition costs no more than the offer of an operator still closed. */
  ghost predicate Finite(t: Task, v: seq<Cost>, b: View, made: Made) {
    && Sized(t, b) && |v| == |t.init|
    && (forall c | 0 <= c < |v| ::
          && (b.condCost[c].Fin? ==> v[c].Fin?) && Le(b.condCost[c], t.init[c])
          && (b.condCost[c] == Fin(0) <==> t.init[c] == Fin(0)))
    && (forall o | 0 <= o < |t.ops| && b.closed[o] :: b.opCost[o].Fin? && Pre(t, o, v).Fin?)
    && (forall m | m in made ::
          && m.0 < |t.ops| && m.1 < |v| && Offers(t, m.0, m.1, m.2) && b.condCost[m.1].Fin?
          && (b.reopen && b.closed[m.0] ==> Le(b.condCost[m.1], Plus(Fin(m.2), b.opCost[m.0]))))
  }

  // A monotone fix-point is exact; any other tells what is reached.
  ghost predicate Measured(t: Task, v: seq<Cost>, b: View, made: Made, exact: bool) {
    if exact then Sound(t, v, b, made) else Finite(t, v, b, made)
  }

  ghost predicate AllMade(t: Task, closed: seq<bool>, made: Made, but: int) {
    forall o, c: nat, w: nat | 0 <= o < |t.ops| && o < |closed| && closed[o] && o != but && Offers(t, o, c, w) ::
      (o, c, w) in made
  }

  // An offer that costs exactly what the condition now costs.
  ghost predicate Ties(b: View, m: (nat, nat, nat)) {
    m.0 < |b.opCost| && m.1 < |b.condCost| && b.condCost[m.1] == Plus(Fin(m.2), b.opCost[m.0])
  }

  /** hff: `reachedBy` is the largest operator among the offers that tie. */
  ghost predicate LargestAchievers(b: View, reachedBy: seq<Option<nat>>, made: Made) {
    && |reachedBy| == |b.condCost|
    && (forall c | 0 <= c < |reachedBy| && reachedBy[c].Some? ::
          exists w :: (reachedBy[c].value, c, w) in made && Ties(b, (reachedBy[c].value, c, w)))
    && (forall m | m in made && m.1 < |reachedBy| && Ties(b, m) ::
          reachedBy[m.1].Some? && m.0 <= reachedBy[m.1].value)
  }

  /** Making one more offer. */
  lemma OfferMade(t: Task, v: seq<Cost>, b: View, b': View, made: Made, o: nat, c: nat, w: nat)
    requires Solution(t, v) && Sound(t, v, b, made) && Sized(t, b')
    requires o < |t.ops| && c < |t.init| && b.closed[o] && Offers(t, o, c, w)
    requires b'.closed == b.closed
    requires b'.condCost == b.condCost[c := MinOf(Plus(Fin(w), b.opCost[o]), b.condCost[c])]
    requires forall p | 0 <= p < |b.closed| && b.closed[p] :: b'.opCost[p] == b.opCost[p]
    ensures Sound(t, v, b', made + {(o, c, w)})
  {
    assert Bounded(t, v, c);
    assert Le(v[c], Offer(t, o, w, v));
  }

  lemma OfferReaches(
    t: Task, v: seq<Cost>, b: View, b': View, made: Made, o: nat, c: nat, w: nat, cost: nat)
    requires Solution(t, v) && Finite(t, v, b, made) && Sized(t, b')
    requires o < |t.ops| && c < |t.init| && Pre(t, o, v).Fin? && Offers(t, o, c, w)
    requires cost > 0 && (b.reopen && b.closed[o] ==> Le(Fin(cost), Plus(Fin(w), b.opCost[o])))
    requires Lowers(b, b') && b'.condCost == b.condCost[c := MinOf(Fin(cost), b.condCost[c])]
    ensures Finite(t, v, b', made + {(o, c, w)})
  {
    assert Bounded(t, v, c);
    assert Le(v[c], Offer(t, o, w, v));
  }

  lemma AchieverMade(
    t: Task, v: seq<Cost>, b: View, b': View, r: seq<Option<nat>>, made: Made, o: nat, c: nat, w: nat)
    requires Sound(t, v, b, made) && LargestAchievers(b, r, made) && Sized(t, b')
    requires o < |t.ops| && c < |t.init| && b.closed[o]
    requires b'.closed == b.closed
    requires b'.condCost == b.condCost[c := MinOf(Plus(Fin(w), b.opCost[o]), b.condCost[c])]
    requires forall p | 0 <= p < |b.closed| && b.closed[p] :: b'.opCost[p] == b.opCost[p]
    ensures LargestAchievers(b', r[c := Achiever(true, r[c], b.condCost[c], Plus(Fin(w), b.opCost[o]), o)],
                             made + {(o, c, w)})
  {
    var r' := r[c := Achiever(true, r[c], b.condCost[c], Plus(Fin(w), b.opCost[o]), o)];
    forall x | 0 <= x < |r'| && r'[x].Some?
      ensures exists u :: (r'[x].value, x, u) in made + {(o, c, w)} && Ties(b', (r'[x].value, x, u))
    {
      if x == c && r'[x] == Some(o) {
        assert (o, c, w) in made + {(o, c, w)};
        assert Ties(b', (o, c, w)) || r[x] == Some(o);
        if !Ties(b', (o, c, w)) {
          var u :| (r[x].value, x, u) in made && Ties(b, (r[x].value, x, u));
          assert Ties(b', (r[x].value, x, u));
        }
      } else {
        var u :| (r[x].value, x, u) in made && Ties(b, (r[x].value, x, u));
        assert Ties(b', (r[x].value, x, u));
      }
    }
  }

  /** When no queue entry is below `p`, every condition costing at most `p` has
      its exact cost. */
  lemma {:induction false} ExactUpTo(t: Task, v: seq<Cost>, b: View, made: Made, p: Cost, c: nat, k: nat)
    requires ValidTask(t) && Solution(t, v) && Coherent(t, b) && Sound(t, v, b, made)
    requires AllMade(t, b.closed, made, -1)
    requires forall e | e in b.queue :: Le(p, Fin(e.0))
    requires c < |v| && v[c] == Fin(k) && Le(v[c], p)
    ensures b.condCost[c] == v[c]
    decreases k
  {
    assert Attained(t, v, c);
    if v[c] != t.init[c] {
      var o: nat, w: nat :| o < |t.ops| && Offers(t, o, c, w) && v[c] == Offer(t, o, w, v);
      assert ValidOperator(t, t.ops[o]);
      var q := Pre(t, o, v);
      assert q.Fin? && q.n < k;
      forall x | x in Leaves(t.ops[o].pre)
        ensures Le(At(v, x), At(b.condCost, x)) && (Le(At(v, x), q) ==> At(b.condCost, x) == At(v, x))
      {
        if Le(At(v, x), q) {
          ExactUpTo(t, v, b, made, p, x, v[x].n);
        }
      }
      ExactTree(t.ops[o].pre, v, b.condCost, t.hmax, q);
      if b.closed[o] {
        assert (o, c, w) in made;
      }
    }
  }

  /** ... and so has every operator costing at most `p`. */
  lemma ExactOperator(t: Task, v: seq<Cost>, b: View, made: Made, p: Cost, o: nat)
    requires ValidTask(t) && Solution(t, v) && Coherent(t, b) && Sound(t, v, b, made)
    requires AllMade(t, b.closed, made, -1)
    requires forall e | e in b.queue :: Le(p, Fin(e.0))
    requires o < |t.ops| && (Le(Pre(t, o, v), p) || Le(Pre(t, o, b.condCost), p))
    ensures Pre(t, o, b.condCost) == Pre(t, o, v)
  {
    assert ValidOperator(t, t.ops[o]);
    CheaperTree(t.ops[o].pre, b.condCost, v, t.hmax);
    var q := Pre(t, o, v);
    forall x | x in Leaves(t.ops[o].pre)
      ensures Le(At(v, x), At(b.condCost, x)) && (Le(At(v, x), q) ==> At(b.condCost, x) == At(v, x))
    {
      if v[x].Fin? && Le(v[x], q) {
        ExactUpTo(t, v, b, made, p, x, v[x].n);
      }
    }
    ExactTree(t.ops[o].pre, v, b.condCost, t.hmax, q);
  }

  /** Drained in any order, the fix-point has reached all there is to reach. */
  lemma {:induction false} ReachedAll(t: Task, v: seq<Cost>, b: View, made: Made, c: nat, k: nat)
    requires ValidTask(t) && Solution(t, v) && Coherent(t, b) && Finite(t, v, b, made)
    requires AllMade(t, b.closed, made, -1) && b.queue == []
    requires c < |v| && v[c] == Fin(k)
    ensures b.condCost[c].Fin?
    decreases k
  {
    assert Attained(t, v, c);
    if v[c] != t.init[c] {
      var o: nat, w: nat :| o < |t.ops| && Offers(t, o, c, w) && v[c] == Offer(t, o, w, v);
      assert ValidOperator(t, t.ops[o]);
      forall x | x in Leaves(t.ops[o].pre) && Le(At(v, x), Pre(t, o, v)) ensures At(b.condCost, x).Fin? {
        ReachedAll(t, v, b, made, x, v[x].n);
      }
      FiniteTree(t.ops[o].pre, v, b.condCost, t.hmax, Pre(t, o, v));
      if b.closed[o] {
        assert (o, c, w) in made;
      }
    }
  }

  lemma ReachedOperator(t: Task, v: seq<Cost>, b: View, made: Made, o: nat)
    requires ValidTask(t) && Solution(t, v) && Coherent(t, b) && Finite(t, v, b, made)
    requires AllMade(t, b.closed, made, -1) && b.queue == [] && o < |t.ops|
    ensures b.opCost[o].Fin? <==> Pre(t, o, v).Fin?
  {
    assert ValidOperator(t, t.ops[o]);
    if !b.closed[o] {
      assert UpToDate(t, b, o, b.condCost);
      if Pre(t, o, v).Fin? {
        forall x | x in Leaves(t.ops[o].pre) && Le(At(v, x), Pre(t, o, v)) ensures At(b.condCost, x).Fin? {
          ReachedAll(t, v, b, made, x, v[x].n);
        }
        FiniteTree(t.ops[o].pre, v, b.condCost, t.hmax, Pre(t, o, v));
      }
    }
  }

  class FixpointBuffers {
    const task: Task
    const hff: bool
    // whether the queue is the radix heap, which panics on a push below the last pop
    const monotone: bool
    // whether a closed operator that gets cheaper is opened again
    const reopen: bool
    var condCost: seq<Cost>
    var opCost: seq<Cost>
    var closed: seq<bool>
    var minAchieverPreCost: seq<Cost>
    var reachedBy: seq<Option<nat>>
    var unreached: seq<int>
    var queue: seq<(nat, nat)>
    var lastPopped: nat

    /** `drainHeap` for hmax with a numeric condition that several operators achieve. */
    constructor (task: Task, hff: bool, drainHeap: bool, reachability: bool)
      ensures this.task == task && this.hff == hff
      ensures monotone == !drainHeap && reopen == (drainHeap && !reachability)
    {
      this.task, this.hff, this.monotone, this.reopen := task, hff, !drainHeap, drainHeap && !reachability;
    }

    ghost function Now(): View
      reads this
    {
      View(condCost, opCost, closed, unreached, queue, reopen)
    }

    // What the radix heap needs: nothing open is below the last pop.
    ghost predicate Ordered()
      reads this
    {
      monotone ==> !reopen && AtLeast(Now(), lastPopped)
    }

    method Push(cost: nat, op: nat)
      requires monotone ==> lastPopped <= cost
      modifies this`queue
      ensures queue == old(queue) + [(cost, op)]
    {
      queue := queue + [(cost, op)];
    }

    /** Pops some cheapest entry: the radix heap orders ties arbitrarily. */
    method Pop() returns (cost: nat, op: nat)
      requires queue != []
      modifies this`queue, this`lastPopped
      ensures (cost, op) in old(queue) && lastPopped == cost
      ensures |queue| == |old(queue)| - 1
      ensures forall e | e in queue :: e in old(queue) && cost <= e.0
      ensures forall e | e in old(queue) :: e == (cost, op) || e in queue
    {
      CheapestExists(queue);
      var i :| IsCheapest(queue, i);
      Removed(queue, i);
      cost, op := queue[i].0, queue[i].1;
      queue := queue[..i] + queue[i + 1..];
      lastPopped := cost;
    }

    /** `update_condition_cost`. */
    method UpdateConditionCost(cid: nat, cost: nat, op: nat)
      requires ValidTask(task) && Coherent(task, Now()) && cid < |task.init| == |reachedBy|
      requires Ordered() && (monotone ==> lastPopped <= cost)
      modifies this`condCost, this`opCost, this`closed, this`unreached, this`reachedBy, this`queue
      ensures Coherent(task, Now()) && Ordered()
      ensures Lowers(old(Now()), Now())
      ensures condCost == old(condCost)[cid := MinOf(Fin(cost), old(condCost)[cid])]
      ensures reachedBy == old(reachedBy)[cid :=
                Achiever(hff, old(reachedBy)[cid], old(condCost)[cid], Fin(cost), op)]
      ensures forall e | e in queue :: e in old(queue) || (monotone ==> lastPopped <= e.0)
    {
      if Lt(Fin(cost), condCost[cid]) {
        var firstReach := condCost[cid].Inf?;
        ghost var before := condCost;
        LowerStarts(task, Now(), cid, Fin(cost));
        condCost := condCost[cid := Fin(cost)];
        if hff {
          reachedBy := reachedBy[cid := Some(op)];
        }
        UpdateReaders(cid, firstReach, before);
      } else if hff && Fin(cost) == condCost[cid] && (reachedBy[cid].None? || op > reachedBy[cid].value) {
        reachedBy := reachedBy[cid := Some(op)];
      }
    }

    // The loop of `update_condition_cost` over the readers of `cid`.
    method UpdateReaders(cid: nat, firstReach: bool, ghost before: seq<Cost>)
      requires ValidTask(task) && cid < |task.init| == |before| == |condCost|
      requires CoherentExcept(task, Now(), before, task.readers[cid])
      requires Ordered()
      requires Lt(condCost[cid], before[cid]) && condCost == before[cid := condCost[cid]]
      requires firstReach == before[cid].Inf? && (monotone ==> Le(Fin(lastPopped), condCost[cid]))
      modifies this`opCost, this`closed, this`unreached, this`queue
      ensures Coherent(task, Now()) && Ordered()
      ensures Lowers(old(Now()), Now())
      ensures forall e | e in queue :: e in old(queue) || (monotone ==> lastPopped <= e.0)
    {
      var readers := task.readers[cid];
      assert ValidReader(task, cid);
      for i := 0 to |readers|
        invariant CoherentExcept(task, Now(), before, readers[i..])
        invariant Ordered()
        invariant condCost == old(condCost) && Lowers(old(Now()), Now())
        invariant forall e | e in queue :: e in old(queue) || (monotone ==> lastPopped <= e.0)
      {
        ghost var b := Now();
        assert readers[i] in task.readers[cid] && readers[i] in readers[i..];
        assert readers[i..][1..] == readers[i + 1..];
        UpdateReader(readers[i], cid, firstReach, before);
        ReaderUpdated(task, b, Now(), before, readers[i..]);
        LowersOn(old(Now()), b, Now());
      }
    }

    method UpdateReader(reader: nat, cid: nat, firstReach: bool, ghost before: seq<Cost>)
      requires ValidTask(task) && Sized(task, Now()) && Ordered()
      requires reader < |task.ops| && cid < |task.init| == |before| == |condCost|
      requires cid in Leaves(task.ops[reader].pre)
      requires (reopen || !closed[reader]) ==> UpToDate(task, Now(), reader, before)
      requires Lt(condCost[cid], before[cid]) && condCost == before[cid := condCost[cid]]
      requires firstReach == before[cid].Inf? && (monotone ==> Le(Fin(lastPopped), condCost[cid]))
      modifies this`opCost, this`closed, this`unreached, this`queue
      ensures Sized(task, Now()) && Ordered()
      ensures Lowers(old(Now()), Now())
      ensures (reopen || !closed[reader]) ==> UpToDate(task, Now(), reader, condCost)
      ensures forall o | 0 <= o < |task.ops| && o != reader ::
                opCost[o] == old(opCost)[o] && unreached[o] == old(unreached)[o] && closed[o] == old(closed)[o]
      ensures forall e | e in old(queue) :: e in queue
      ensures forall e | e in queue :: e in old(queue) || (monotone ==> lastPopped <= e.0)
    {
      if closed[reader] && !reopen {
        LowersSame(Now(), Now());
        return;
      }
      assert ValidOperator(task, task.ops[reader]);
      hide ValidTask, Pre, Leaves, HasOr, UnreachedLeaves, Lowers, AtLeast;
      ghost var b := Now();
      ReaderChanges(task, reader, before, cid, condCost[cid]);
      if monotone {
        ReaderStaysAbove(task, reader, before, cid, condCost[cid], lastPopped);
      }
      if firstReach {
        unreached := unreached[reader := unreached[reader] - 1];
      }
      LowersSame(b, Now());
      ghost var b' := Now();
      if !HasOr(task.ops[reader].pre) && unreached[reader] > 0 {
        return;
      }
      var readerCost := ExpressionCost(task.ops[reader].nodes, task.ops[reader].pre, condCost, task.hmax);
      assert readerCost == Pre(task, reader, condCost) by { PreIs(task, reader, condCost); }
      if Lt(readerCost, opCost[reader]) {
        LowerOperator(reader, readerCost);
        LowersOn(b, b', Now());
      }
    }

    // Opens `op` at a lower cost.
    method LowerOperator(op: nat, cost: Cost)
      requires Sized(task, Now()) && Ordered() && op < |task.ops| && (reopen || !closed[op])
      requires Lt(cost, opCost[op]) && (monotone ==> lastPopped <= cost.n)
      modifies this`opCost, this`closed, this`queue
      ensures Sized(task, Now()) && Ordered() && Lowers(old(Now()), Now())
      ensures opCost == old(opCost)[op := cost] && closed == old(closed)[op := false]
      ensures queue == old(queue) + [(cost.n, op)]
    {
      ghost var b := Now();
      opCost := opCost[op := cost];
      closed := closed[op := false];
      Push(cost.n, op);
      hide Lowers, AtLeast;
      LowersOne(b, Now(), op);
    }

    // Adds `delta` to the counter of every reader of `c`, once each.
    method CountReaders(counts: seq<int>, c: nat, delta: int) returns (res: seq<int>)
      requires ValidTask(task) && c < |task.init| && |counts| == |task.ops|
      ensures |res| == |counts|
      ensures forall o | 0 <= o < |res| ::
                res[o] == counts[o] + if c in Leaves(task.ops[o].pre) then delta else 0
    {
      res := counts;
      var readers := task.readers[c];
      assert ValidReader(task, c);
      for i := 0 to |readers|
        invariant |res| == |counts|
        invariant forall o | 0 <= o < |res| :: res[o] == counts[o] + if o in readers[..i] then delta else 0
      {
        assert readers[i] in task.readers[c];
        assert readers[i] !in readers[..i];
        assert readers[..i + 1] == readers[..i] + [readers[i]];
        res := res[readers[i] := res[readers[i]] + delta];
      }
      assert readers[..|readers|] == readers;
    }

    // The distinct leaves of each precondition, counted through the readers.
    method DistinctLeaves() returns (counts: seq<int>)
      requires ValidTask(task)
      ensures |counts| == |task.ops|
      ensures forall o | 0 <= o < |counts| :: counts[o] == |Leaves(task.ops[o].pre)|
    {
      counts := seq(|task.ops|, o => 0);
      for c := 0 to |task.init|
        invariant |counts| == |task.ops|
        invariant forall o | 0 <= o < |counts| :: counts[o] == |LeavesBelow(task.ops[o].pre, c)|
      {
        forall o | 0 <= o < |task.ops|
          ensures |LeavesBelow(task.ops[o].pre, c + 1)|
               == |LeavesBelow(task.ops[o].pre, c)| + if c in Leaves(task.ops[o].pre) then 1 else 0
        {
          LeavesBelowStep(task.ops[o].pre, c);
        }
        counts := CountReaders(counts, c, 1);
      }
      forall o | 0 <= o < |counts| ensures LeavesBelow(task.ops[o].pre, |task.init|) == Leaves(task.ops[o].pre) {
        assert ValidOperator(task, task.ops[o]);
      }
    }

    // The counters `_eval` starts from: the leaves unreached in the state.
    method CountUnreached() returns (counts: seq<int>)
      requires ValidTask(task)
      ensures |counts| == |task.ops|
      ensures forall o | 0 <= o < |counts| :: counts[o] == |UnreachedLeaves(task, o, task.init)|
    {
      counts := DistinctLeaves();
      for c := 0 to |task.init|
        invariant |counts| == |task.ops|
        invariant forall o | 0 <= o < |counts| ::
                    counts[o] == |Leaves(task.ops[o].pre)| - |ReachedBelow(task, o, c)|
      {
        forall o | 0 <= o < |task.ops|
          ensures |ReachedBelow(task, o, c + 1)| == |ReachedBelow(task, o, c)|
                    + if task.init[c].Fin? && c in Leaves(task.ops[o].pre) then 1 else 0
        {
          ReachedBelowStep(task, o, c);
        }
        if task.init[c].Fin? {
          counts := CountReaders(counts, c, -1);
        }
      }
      forall o | 0 <= o < |counts|
        ensures |UnreachedLeaves(task, o, task.init)|
             == |Leaves(task.ops[o].pre)| - |ReachedBelow(task, o, |task.init|)|
      {
        assert ValidOperator(task, task.ops[o]);
        assert Leaves(task.ops[o].pre) == UnreachedLeaves(task, o, task.init) + ReachedBelow(task, o, |task.init|);
      }
    }

    // Resets the buffers for the state of the task.
    method ResetBuffers()
      requires ValidTask(task)
      modifies this
      ensures Coherent(task, Now()) && condCost == task.init
      ensures closed == seq(|task.ops|, o => false) && lastPopped == 0
      ensures minAchieverPreCost == seq(|task.init|, c => Inf) && reachedBy == seq(|task.init|, c => None)
    {
      condCost := task.init;
      opCost := seq(|task.ops|, o => Inf);
      closed := seq(|task.ops|, o => false);
      minAchieverPreCost := seq(|task.init|, c => Inf);
      reachedBy := seq(|task.init|, c => None);
      queue, lastPopped := [], 0;
      unreached := CountUnreached();
      QueueInitialOperators();
    }

    method Reset(ghost v: seq<Cost>)
      requires ValidTask(task) && Solution(task, v) && (monotone ==> !reopen && SingleAchievers(task))
      modifies this
      ensures Between(v, {})
      ensures closed == seq(|task.ops|, o => false)
      ensures forall c | 0 <= c < |minAchieverPreCost| :: minAchieverPreCost[c].Inf?
    {
      ResetBuffers();
      forall c | 0 <= c < |v| ensures Le(v[c], task.init[c]) {
        assert Bounded(task, v, c);
      }
    }

    // Queues every operator reachable in the state.
    method QueueInitialOperators()
      requires ValidTask(task) && Sized(task, Now()) && queue == [] && lastPopped == 0
      requires forall o | 0 <= o < |opCost| :: opCost[o].Inf?
      requires forall o | 0 <= o < |unreached| :: unreached[o] == |UnreachedLeaves(task, o, condCost)|
      modifies this`opCost, this`queue
      ensures Sized(task, Now())
      ensures forall o | 0 <= o < |task.ops| :: UpToDate(task, Now(), o, condCost)
    {
      for o := 0 to |task.ops|
        invariant Sized(task, Now())
        invariant forall p | 0 <= p < o :: UpToDate(task, Now(), p, condCost)
        invariant forall p | o <= p < |opCost| :: opCost[p].Inf?
      {
        ghost var b := Now();
        if !HasOr(task.ops[o].pre) && unreached[o] > 0 {
          UnreachedIsInfinite(task, o, condCost);
        } else {
          assert ValidOperator(task, task.ops[o]);
          var c := ExpressionCost(task.ops[o].nodes, task.ops[o].pre, condCost, task.hmax);
          if c.Fin? {
            opCost := opCost[o := c];
            Push(c.n, o);
          }
        }
        forall p | 0 <= p < o ensures UpToDate(task, Now(), p, condCost) {
          assert UpToDate(task, b, p, condCost);
        }
      }
    }

    /** What holds between two pops, measured against the solution `v`. */
    ghost predicate Between(v: seq<Cost>, made: Made)
      reads this
    {
      && ValidTask(task) && Solution(task, v) && (monotone ==> SingleAchievers(task))
      && Coherent(task, Now()) && Measured(task, v, Now(), made, monotone)
      && (hff && monotone ==> LargestAchievers(Now(), reachedBy, made))
      && |reachedBy| == |minAchieverPreCost| == |task.init|
      && Ordered()
      && (monotone ==> forall e | e in queue :: lastPopped <= e.0)
    }

    // Makes the offer of reaching `cid` at `cost`, `w` above the precondition of `op`.
    method MakeOffer(cid: nat, cost: nat, op: nat, ghost v: seq<Cost>, ghost made: Made, ghost w: nat)
      requires Between(v, made) && op < |task.ops| && cid < |task.init| && Offers(task, op, cid, w)
      requires Pre(task, op, v).Fin? && 0 < cost
      requires monotone ==> closed[op] && opCost[op] == Fin(lastPopped) && Fin(cost) == Plus(Fin(w), opCost[op])
      requires closed[op] ==> Le(Fin(cost), Plus(Fin(w), opCost[op]))
      modifies this`condCost, this`opCost, this`closed, this`unreached, this`reachedBy, this`queue
      ensures Between(v, made + {(op, cid, w)})
      ensures Lowers(old(Now()), Now())
    {
      ghost var b, r := Now(), reachedBy;
      UpdateConditionCost(cid, cost, op);
      if monotone {
        OfferMade(task, v, b, Now(), made, op, cid, w);
        if hff {
          AchieverMade(task, v, b, Now(), r, made, op, cid, w);
        }
      } else {
        OfferReaches(task, v, b, Now(), made, op, cid, w, cost);
      }
    }

    // Operator `op` was closed at `preconditionCost`; reopening may have opened it since.
    ghost predicate Expanding(op: nat, preconditionCost: nat, v: seq<Cost>)
      reads this
    {
      && op < |task.ops| && op < |closed| && op < |opCost| && Pre(task, op, v).Fin?
      && (closed[op] ==> opCost[op] == Fin(preconditionCost))
      && (monotone ==> closed[op] && preconditionCost == lastPopped)
    }

    // `expand`, its effects: each is reached for 1 more than the precondition.
    method ExpandEffects(op: nat, preconditionCost: nat, ghost v: seq<Cost>, ghost made: Made)
      returns (ghost made': Made)
      requires Between(v, made) && Expanding(op, preconditionCost, v)
      modifies this`condCost, this`opCost, this`closed, this`unreached, this`reachedBy, this`queue
      ensures Between(v, made') && made <= made'
      ensures forall c | c in task.ops[op].effects :: (op, c, 1) in made'
      ensures Lowers(old(Now()), Now()) && Expanding(op, preconditionCost, v)
    {
      made' := made;
      var effects := task.ops[op].effects;
      for i := 0 to |effects|
        invariant Between(v, made') && made <= made'
        invariant forall j | 0 <= j < i :: (op, effects[j], 1) in made'
        invariant Lowers(old(Now()), Now()) && Expanding(op, preconditionCost, v)
      {
        assert effects[i] in effects && ValidOperator(task, task.ops[op]);
        ghost var b := Now();
        MakeOffer(effects[i], 1 + preconditionCost, op, v, made', 1);
        LowersOn(old(Now()), b, Now());
        made' := made' + {(op, effects[i], 1)};
      }
    }

    // Monotone hmax only: no achiever of a condition from `k` on has been expanded yet.
    ghost predicate Untouched(op: nat, k: nat)
      requires op < |task.ops|
      reads this
    {
      monotone && task.hmax ==>
        forall i | k <= i < |task.ops[op].numeric| && task.ops[op].numeric[i].0 < |minAchieverPreCost| ::
          minAchieverPreCost[task.ops[op].numeric[i].0].Inf?
    }

    lemma NumericNow(v: seq<Cost>, made: Made, op: nat, i: nat)
      requires Between(v, made) && op < |task.ops| && i < |task.ops[op].numeric|
      ensures var (cid, rep) := task.ops[op].numeric[i];
        && cid < |condCost| == |task.init|
        && (condCost[cid] == Fin(0) <==> task.init[cid] == Fin(0))
        && (condCost[cid] != Fin(0) ==> Offers(task, op, cid, rep) && rep > 0)
        && (monotone && task.hmax ==>
              forall j | 0 <= j < |task.ops[op].numeric| && j != i :: task.ops[op].numeric[j].0 != cid)
    {
      assert task.ops[op].numeric[i] in task.ops[op].numeric && ValidOperator(task, task.ops[op]);
      if monotone {
        ZeroIsInitial(task, v, condCost, task.ops[op].numeric[i].0);
      }
    }

    // `expand`, the simple numeric conditions `op` achieves.
    method ExpandNumeric(op: nat, preconditionCost: nat, ghost v: seq<Cost>, ghost made: Made)
      returns (ghost made': Made)
      requires Between(v, made) && Expanding(op, preconditionCost, v) && Untouched(op, 0)
      modifies this`condCost, this`opCost, this`closed, this`unreached, this`reachedBy, this`queue,
               this`minAchieverPreCost
      ensures Between(v, made') && made <= made'
      ensures forall c, w | (c, w) in task.ops[op].numeric && Wanted(c) :: (op, c, w) in made'
      ensures Lowers(old(Now()), Now())
      ensures forall c | 0 <= c < |minAchieverPreCost| && minAchieverPreCost[c] != old(minAchieverPreCost)[c] ::
                exists i :: 0 <= i < |task.ops[op].numeric| && task.ops[op].numeric[i].0 == c
    {
      made' := made;
      var numeric := task.ops[op].numeric;
      for i := 0 to |numeric|
        invariant Between(v, made') && made <= made'
        invariant forall j | 0 <= j < i && Wanted(numeric[j].0) :: (op, numeric[j].0, numeric[j].1) in made'
        invariant Lowers(old(Now()), Now()) && Expanding(op, preconditionCost, v)
        invariant Untouched(op, i)
        invariant forall c | 0 <= c < |minAchieverPreCost| && minAchieverPreCost[c] != old(minAchieverPreCost)[c] ::
                    exists j :: 0 <= j < |numeric| && numeric[j].0 == c
      {
        ghost var b := Now();
        made' := ReachNumeric(op, i, preconditionCost, v, made');
        LowersOn(old(Now()), b, Now());
      }
    }

    ghost predicate Wanted(c: nat) {
      c < |task.init| && task.init[c] != Fin(0)
    }

    method ReachNumeric(op: nat, i: nat, preconditionCost: nat, ghost v: seq<Cost>, ghost made: Made)
      returns (ghost made': Made)
      requires Between(v, made) && Expanding(op, preconditionCost, v)
      requires i < |task.ops[op].numeric| && Untouched(op, i)
      modifies this`condCost, this`opCost, this`closed, this`unreached, this`reachedBy, this`queue,
               this`minAchieverPreCost
      ensures Between(v, made') && made <= made'
      ensures var (cid, rep) := task.ops[op].numeric[i];
        && (Wanted(cid) ==> (op, cid, rep) in made')
        && (forall c | 0 <= c < |minAchieverPreCost| && c != cid :: minAchieverPreCost[c] == old(minAchieverPreCost)[c])
      ensures Lowers(old(Now()), Now()) && Expanding(op, preconditionCost, v)
      ensures Untouched(op, i + 1)
    {
      NumericNow(v, made, op, i);
      var (cid, rep) := task.ops[op].numeric[i];
      made' := made;
      if condCost[cid] != Fin(0) {
        var cost := rep + preconditionCost;
        if task.hmax {
          minAchieverPreCost := minAchieverPreCost[cid := MinOf(minAchieverPreCost[cid], Fin(preconditionCost))];
          cost := rep + minAchieverPreCost[cid].n;
        }
        MakeOffer(cid, cost, op, v, made, rep);
        made' := made + {(op, cid, rep)};
      }
    }

    // Monotone hmax only: the numeric achievers recorded so far have been expanded.
    ghost predicate Achieved()
      reads this
    {
      monotone && task.hmax ==> forall c | 0 <= c < |minAchieverPreCost| && minAchieverPreCost[c].Fin? ::
        exists o, i :: 0 <= o < |task.ops| && o < |closed| && closed[o]
          && 0 <= i < |task.ops[o].numeric| && task.ops[o].numeric[i].0 == c
    }

    /** `expand`: makes every offer of the operator just closed. */
    method Expand(op: nat, ghost v: seq<Cost>, ghost made: Made) returns (ghost made': Made)
      requires Between(v, made) && AllMade(task, closed, made, op)
      requires op < |task.ops| && closed[op] && opCost[op] == Fin(lastPopped) && Untouched(op, 0)
      modifies this`condCost, this`opCost, this`closed, this`unreached, this`reachedBy, this`queue,
               this`minAchieverPreCost
      ensures Between(v, made') && AllMade(task, closed, made', -1)
      ensures Lowers(old(Now()), Now())
      ensures forall c | 0 <= c < |minAchieverPreCost| && minAchieverPreCost[c] != old(minAchieverPreCost)[c] ::
                exists i :: 0 <= i < |task.ops[op].numeric| && task.ops[op].numeric[i].0 == c
    {
      var preconditionCost := opCost[op].n;
      made' := ExpandEffects(op, preconditionCost, v, made);
      ghost var (mid, b) := (made', Now());
      made' := ExpandNumeric(op, preconditionCost, v, mid);
      LowersOn(old(Now()), b, Now());
    }

    /** What `_eval` has computed when it stops, with every cost up to `h` final. */
    ghost predicate Settled(v: seq<Cost>, made: Made, h: Cost)
      reads this
    {
      && monotone && Between(v, made) && AllMade(task, closed, made, -1)
      && forall e | e in queue :: Le(h, Fin(e.0))
    }

    // The loop of `_eval`: until the goal is popped or, to `drain`, until the queue is
    // empty.
    method Propagate(drain: bool, ghost v: seq<Cost>) returns (done: bool, ghost made: Made)
      requires ValidTask(task) && Solution(task, v) && (monotone ==> !reopen && SingleAchievers(task))
      modifies this
      ensures Between(v, made) && AllMade(task, closed, made, -1)
      ensures if done then !drain && GoalPopped() else queue == []
    {
      Reset(v);
      made, done := {}, false;
      while queue != [] && !done
        invariant Between(v, made) && AllMade(task, closed, made, -1) && Achieved()
        invariant done ==> !drain && GoalPopped()
        decreases !done, Unreached(opCost), Total(opCost), CountOpen(closed), |queue|
      {
        done, made := PopOperator(drain, v, made);
      }
    }

    /** `_eval`, for the value: runs the fix-point until the goal is popped, or drains the
        heap, and returns the goal's cost.  Draining may find the goal cheaper than the
        equations do, though neither unreachable nor free unless they do. */
    method Evaluate(ghost v: seq<Cost>) returns (h: Cost, ghost made: Made)
      requires ValidTask(task) && Solution(task, v) && (monotone ==> !reopen && SingleAchievers(task))
      modifies this
      ensures monotone ==> h == Pre(task, task.Goal(), v) && Settled(v, made, h)
      ensures h.Fin? <==> Pre(task, task.Goal(), v).Fin?
      ensures h == Fin(0) <==> Pre(task, task.Goal(), v) == Fin(0)
      ensures monotone || reopen ==> Le(h, Pre(task, task.Goal(), v))
    {
      var done;
      done, made := Propagate(!monotone, v);
      assert ValidOperator(task, task.ops[task.Goal()]);
      if monotone {
        ExactAtTheEnd(task, v, Now(), made, if done then Fin(lastPopped) else Inf);
      } else {
        DrainedGoal(task, v, Now(), made);
      }
      h := ExpressionCost(task.ops[task.Goal()].nodes, task.ops[task.Goal()].pre, condCost, task.hmax);
    }

    /** `_eval`, for reachability: drains the queue, in whatever order, and returns the
        operators that cost something finite. */
    method ReachableOperators(ghost v: seq<Cost>) returns (reachable: seq<nat>)
      requires ValidTask(task) && Solution(task, v) && (monotone ==> !reopen && SingleAchievers(task))
      modifies this
      ensures forall o: nat :: o in reachable <==> o < task.Goal() && Pre(task, o, v).Fin?
      ensures forall i, j | 0 <= i < j < |reachable| :: reachable[i] < reachable[j]
    {
      var done; ghost var made;
      done, made := Propagate(true, v);
      DrainedReaches(v, made);
      hide Between, AllMade, ValidTask, Solution;
      reachable := [];
      for o := 0 to task.Goal()
        invariant forall k: nat :: k in reachable <==> k < o && Pre(task, k, v).Fin?
        invariant forall i | 0 <= i < |reachable| :: reachable[i] < o
        invariant forall i, j | 0 <= i < j < |reachable| :: reachable[i] < reachable[j]
      {
        if opCost[o].Fin? {
          reachable := reachable + [o];
        }
      }
    }

    lemma DrainedReaches(v: seq<Cost>, made: Made)
      requires Between(v, made) && AllMade(task, closed, made, -1) && queue == []
      ensures |opCost| == |task.ops| > 0
      ensures forall o | 0 <= o < |task.ops| :: opCost[o].Fin? <==> Pre(task, o, v).Fin?
    {
      if monotone {
        SoundIsFinite(task, v, Now(), made);
      }
      forall o | 0 <= o < |task.ops| ensures opCost[o].Fin? <==> Pre(task, o, v).Fin? {
        ReachedOperator(task, v, Now(), made, o);
      }
    }

    ghost predicate GoalPopped()
      reads this
    {
      |closed| == |opCost| == |task.ops| > 0 && closed[task.Goal()] && opCost[task.Goal()] == Fin(lastPopped)
    }

    // Pops an entry and closes its operator, unless the entry is stale,
    // superseded by a cheaper push.
    method CloseNext(ghost v: seq<Cost>, ghost made: Made) returns (next: Option<nat>, ghost made': Made)
      requires queue != []
      requires Between(v, made) && AllMade(task, closed, made, -1) && Achieved()
      modifies this`closed, this`queue, this`lastPopped
      ensures Between(v, made') && Achieved()
      ensures next.None? ==> made' == made && closed == old(closed) && |queue| < |old(queue)|
      ensures next.Some? ==>
                && next.value < |task.ops| && closed[next.value] && opCost[next.value] == Fin(lastPopped)
                && AllMade(task, closed, made', next.value) && Untouched(next.value, 0)
                && CountOpen(closed) < CountOpen(old(closed))
    {
      ghost var b := Now();
      var popped, op := Pop();
      PopKeeps(task, b, Now(), popped, op);
      hide Coherent, Measured, LargestAchievers, Solution, ValidTask, AllMade, SingleAchievers, CountOpen, AtLeast;
      if closed[op] || Fin(popped) != opCost[op] {
        QueueKeeps(task, v, b, Now(), made, reachedBy, monotone, hff);
        return None, made;
      }
      made' := Close(op, b, v, made);
      next := Some(op);
    }

    // Closes the operator just popped off the queue of `b`.
    method Close(op: nat, ghost b: View, ghost v: seq<Cost>, ghost made: Made) returns (ghost made': Made)
      requires ValidTask(task) && Solution(task, v) && (monotone ==> SingleAchievers(task))
      requires Coherent(task, b) && Measured(task, v, b, made, monotone) && AllMade(task, b.closed, made, -1)
      requires hff && monotone ==> LargestAchievers(b, reachedBy, made)
      requires Now() == b.(queue := queue) && |reachedBy| == |minAchieverPreCost| == |task.init|
      requires op < |task.ops| == |closed| == |opCost| && !closed[op] && opCost[op] == Fin(lastPopped)
      requires forall e | e in b.queue :: lastPopped <= e.0
      requires forall e | e in queue :: e in b.queue
      requires Coherent(task, Now().(closed := closed[op := true]))
      requires AtLeast(Now().(closed := closed[op := true]), lastPopped) && Achieved() && Ordered()
      modifies this`closed
      ensures Between(v, made') && Achieved() && Untouched(op, 0)
      ensures closed == old(closed)[op := true] && AllMade(task, closed, made', op)
      ensures CountOpen(closed) < CountOpen(old(closed))
    {
      hide Coherent, Measured, LargestAchievers, Solution, ValidTask, AllMade, CountOpen, AtLeast;
      UntouchedWhileOpen(op);
      hide SingleAchievers;
      OpensFewer(closed, op);
      closed := closed[op := true];
      made' := Forget(made, op, reopen);
      CloseKeeps(task, v, b, Now(), made, reachedBy, op, lastPopped, monotone, hff);
    }

    // One iteration of the loop of `_eval`; `done` when it stops at the goal.
    method PopOperator(drain: bool, ghost v: seq<Cost>, ghost made: Made) returns (done: bool, ghost made': Made)
      requires queue != []
      requires Between(v, made) && AllMade(task, closed, made, -1) && Achieved()
      modifies this
      ensures Between(v, made') && AllMade(task, closed, made', -1) && Achieved()
      ensures done ==> !drain && GoalPopped()
      ensures Fewer(old(Now()), Now())
    {
      var next;
      next, made' := CloseNext(v, made);
      if next.None? {
        return false, made';
      }
      if next.value == task.Goal() {
        return !drain, made';
      }
      ghost var b := Now();
      made' := Expand(next.value, v, made');
      LowersLess(b, Now());
      done := false;
    }

    lemma UntouchedWhileOpen(op: nat)
      requires (monotone ==> SingleAchievers(task)) && Achieved() && op < |task.ops| && op < |closed| && !closed[op]
      ensures Untouched(op, 0)
    {
    }
  }

  // What a pop makes of the buffers: less left to do.
  ghost predicate Fewer(b: View, b': View) {
    || Unreached(b'.opCost) < Unreached(b.opCost)
    || (Unreached(b'.opCost) == Unreached(b.opCost) && Total(b'.opCost) < Total(b.opCost))
    || (b'.opCost == b.opCost
        && (CountOpen(b'.closed) < CountOpen(b.closed) || (b'.closed == b.closed && |b'.queue| < |b.queue|)))
  }

  // An operator reopened makes its offers again.
  ghost function Forget(made: Made, op: nat, reopen: bool): Made {
    if reopen then set m | m in made && m.0 != op else made
  }

  lemma SoundIsFinite(t: Task, v: seq<Cost>, b: View, made: Made)
    requires ValidTask(t) && Solution(t, v) && Sound(t, v, b, made) && !b.reopen
    ensures Finite(t, v, b, made)
  {
    forall c | 0 <= c < |v| ensures b.condCost[c] == Fin(0) <==> t.init[c] == Fin(0) {
      ZeroIsInitial(t, v, b.condCost, c);
    }
  }

  /** At the end of a drained fix-point with reopening, no condition costs more than an
      offer, so none costs more than the equations say. */
  lemma DrainedBelow(t: Task, v: seq<Cost>, b: View, made: Made)
    requires ValidTask(t) && Solution(t, v) && Coherent(t, b) && Finite(t, v, b, made) && b.reopen
    requires AllMade(t, b.closed, made, -1) && b.queue == []
    ensures forall c | 0 <= c < |v| :: Le(b.condCost[c], v[c])
  {
    forall c | 0 <= c < |v| ensures Bounded(t, b.condCost, c) {
      forall o: nat, w: nat | o < |t.ops| && Offers(t, o, c, w) ensures Le(b.condCost[c], Offer(t, o, w, b.condCost)) {
        assert UpToDate(t, b, o, b.condCost);
        if b.closed[o] {
          assert (o, c, w) in made;
        }
      }
    }
    forall c | 0 <= c < |v| ensures Le(b.condCost[c], v[c]) {
      if v[c].Fin? {
        SolutionBelow(t, v, b.condCost, c, v[c].n);
      }
    }
  }

  lemma DrainedGoal(t: Task, v: seq<Cost>, b: View, made: Made)
    requires ValidTask(t) && Solution(t, v) && Coherent(t, b) && Finite(t, v, b, made)
    requires AllMade(t, b.closed, made, -1) && b.queue == []
    ensures var (h, g) := (Pre(t, t.Goal(), b.condCost), Pre(t, t.Goal(), v));
      && (h.Fin? <==> g.Fin?) && (h == Fin(0) <==> g == Fin(0)) && (b.reopen ==> Le(h, g))
  {
    var pre := t.ops[t.Goal()].pre;
    assert ValidOperator(t, t.ops[t.Goal()]);
    forall c | c in Leaves(pre)
      ensures (At(b.condCost, c).Fin? <==> At(v, c).Fin?) && (At(b.condCost, c) == Fin(0) <==> At(v, c) == Fin(0))
    {
      if v[c].Fin? {
        ReachedAll(t, v, b, made, c, v[c].n);
      }
      assert Bounded(t, v, c);
      ZeroIsInitial(t, v, v, c);
    }
    SameReach(pre, b.condCost, v, t.hmax);
    if b.reopen {
      DrainedBelow(t, v, b, made);
      CheaperTree(pre, v, b.condCost, t.hmax);
    }
  }

  /** Taking an entry off the queue changes no cost. */
  lemma QueueKeeps(
    t: Task, v: seq<Cost>, b: View, b': View, made: Made, r: seq<Option<nat>>, exact: bool, hff: bool)
    requires Measured(t, v, b, made, exact) && b' == b.(queue := b'.queue)
    requires forall e | e in b'.queue :: e in b.queue
    requires hff && exact ==> LargestAchievers(b, r, made)
    ensures Measured(t, v, b', made, exact)
    ensures hff && exact ==> LargestAchievers(b', r, made)
  {
    assert forall m :: Ties(b', m) <==> Ties(b, m);
  }

  /** Closing the operator just popped at its cost. */
  lemma CloseKeeps(
    t: Task, v: seq<Cost>, b: View, b': View, made: Made, r: seq<Option<nat>>, op: nat, popped: nat,
    exact: bool, hff: bool)
    requires ValidTask(t) && Solution(t, v) && Coherent(t, b)
    requires Measured(t, v, b, made, exact) && AllMade(t, b.closed, made, -1)
    requires op < |t.ops| && !b.closed[op] && b.opCost[op] == Fin(popped)
    requires forall e | e in b.queue :: popped <= e.0
    requires b' == b.(queue := b'.queue, closed := b.closed[op := true])
    requires forall e | e in b'.queue :: e in b.queue
    requires hff && exact ==> LargestAchievers(b, r, made)
    requires exact ==> !b.reopen
    ensures Measured(t, v, b', Forget(made, op, b.reopen), exact)
    ensures AllMade(t, b'.closed, Forget(made, op, b.reopen), op)
    ensures hff && exact ==> LargestAchievers(b', r, made)
  {
    assert forall m :: Ties(b', m) <==> Ties(b, m);
    assert UpToDate(t, b, op, b.condCost);
    if exact {
      ExactOperator(t, v, b, made, Fin(popped), op);
    } else {
      assert ValidOperator(t, t.ops[op]);
      FiniteTree(t.ops[op].pre, b.condCost, v, t.hmax, Inf);
    }
  }

  /** Everything below the last pop, or below infinity, is exact at the end. */
  lemma ExactAtTheEnd(t: Task, v: seq<Cost>, b: View, made: Made, last: Cost)
    requires ValidTask(t) && Solution(t, v) && Coherent(t, b) && Sound(t, v, b, made)
    requires AllMade(t, b.closed, made, -1)
    requires forall e | e in b.queue :: Le(last, Fin(e.0))
    requires last.Fin? ==> Pre(t, t.Goal(), v) == last
    ensures Pre(t, t.Goal(), b.condCost) == Pre(t, t.Goal(), v)
    ensures last.Inf? ==> forall o | 0 <= o < |t.ops| :: b.opCost[o] == Pre(t, o, v)
  {
    ExactOperator(t, v, b, made, last, t.Goal());
    if last.Inf? {
      forall o | 0 <= o < |t.ops| ensures b.opCost[o] == Pre(t, o, v) {
        ExactOperator(t, v, b, made, last, o);
        assert !b.closed[o] ==> UpToDate(t, b, o, b.condCost);
      }
    }
  }

  /** Only conditions holding in the state ever cost 0. */
  lemma ZeroIsInitial(t: Task, v: seq<Cost>, costs: seq<Cost>, c: nat)
    requires ValidTask(t) && Solution(t, v) && c < |t.init| == |costs|
    requires Le(v[c], costs[c]) && Le(costs[c], t.init[c])
    ensures costs[c] == Fin(0) <==> t.init[c] == Fin(0)
  {
    assert Attained(t, v, c);
    forall o: nat, w: nat | o < |t.ops| && Offers(t, o, c, w) ensures w >= 1 {
      assert ValidOperator(t, t.ops[o]);
    }
  }

  ghost function CountOpen(closed: seq<bool>): nat {
    if closed == [] then 0 else CountOpen(closed[1..]) + if closed[0] then 0 else 1
  }

  lemma {:induction false} OpensFewer(closed: seq<bool>, o: nat)
    requires o < |closed| && !closed[o]
    ensures CountOpen(closed[o := true]) < CountOpen(closed)
  {
    if o > 0 {
      OpensFewer(closed[1..], o - 1);
      assert closed[o := true][1..] == closed[1..][o - 1 := true];
    } else {
      assert closed[o := true][1..] == closed[1..];
    }
  }

  /** Popping takes away no entry an open operator still needs. */
  lemma PopKeeps(t: Task, b: View, b': View, cost: nat, op: nat)
    requires Coherent(t, b) && b' == b.(queue := b'.queue)
    requires forall e | e in b'.queue :: e in b.queue && cost <= e.0
    requires forall e | e in b.queue :: e == (cost, op) || e in b'.queue
    requires (cost, op) in b.queue
    ensures op < |t.ops| == |b.closed| == |b.opCost|
    ensures AtLeast(b', cost) && AtLeast(b'.(closed := b'.closed[op := true]), cost)
    ensures b.closed[op] || Fin(cost) != b.opCost[op] ==> Coherent(t, b')
    ensures Coherent(t, b'.(closed := b'.closed[op := true]))
  {
    forall o | 0 <= o < |t.ops| && (b.reopen || !b.closed[o])
      ensures !b.closed[o] ==> Le(Fin(cost), b.opCost[o])
      ensures b.closed[op] || Fin(cost) != b.opCost[op] ==> UpToDate(t, b', o, b'.condCost)
      ensures UpToDate(t, b'.(closed := b'.closed[op := true]), o, b'.condCost)
    {
      assert UpToDate(t, b, o, b.condCost);
    }
  }

  ghost function LeavesBelow(t: Tree, k: nat): set<nat> {
    set c | c in Leaves(t) && c < k
  }

  lemma LeavesBelowStep(t: Tree, k: nat)
    ensures |LeavesBelow(t, k + 1)| == |LeavesBelow(t, k)| + if k in Leaves(t) then 1 else 0
  {
    assert LeavesBelow(t, k + 1) == LeavesBelow(t, k) + if k in Leaves(t) then {k} else {};
  }

  ghost function ReachedBelow(t: Task, o: nat, k: nat): set<nat>
    requires o < |t.ops|
  {
    set c | c in Leaves(t.ops[o].pre) && c < k && At(t.init, c).Fin?
  }

  lemma ReachedBelowStep(t: Task, o: nat, k: nat)
    requires o < |t.ops| && k < |t.init|
    ensures |ReachedBelow(t, o, k + 1)| == |ReachedBelow(t, o, k)|
              + if t.init[k].Fin? && k in Leaves(t.ops[o].pre) then 1 else 0
  {
    assert ReachedBelow(t, o, k + 1)
        == ReachedBelow(t, o, k) + if t.init[k].Fin? && k in Leaves(t.ops[o].pre) then {k} else {};
  }

  lemma UnreachedIsInfinite(t: Task, o: nat, costs: seq<Cost>)
    requires o < |t.ops| && !HasOr(t.ops[o].pre) && UnreachedLeaves(t, o, costs) != {}
    ensures Pre(t, o, costs).Inf?
  {
    var x :| x in UnreachedLeaves(t, o, costs);
    UnreachedTree(t.ops[o].pre, costs, t.hmax, x);
  }
}
