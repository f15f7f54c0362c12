/**
 What `HMaxExplicit` computes, without the bookkeeping: layers of the values each
 fluent can take, every operator re-evaluated on every combination in each layer.
*/
module ValueLayers {
  import opened Options
  import opened Expr
  import opened Temporal

  datatype Operator = Operator(conditions: seq<Expr>, effects: seq<Effect>)

  /** A relaxed task over fluents 0 to `n`. */
  datatype Graph = Graph(n: nat, functions: Functions, operators: seq<Operator>, goals: seq<Expr>)

  // The values each fluent starts with.
  type Start = seq<seq<Value>>

  /** Expressions and effects are about the task's fluents, and every operator has
      a condition on some fluent. */
  ghost predicate WellFormedGraph(g: Graph) {
    && (forall c | c in g.goals :: Within(g.n, c))
    && forall o | o in g.operators ::
         && (forall c | c in o.conditions :: Within(g.n, c))
         && (exists c :: c in o.conditions && Fluents(c) != {})
         && forall e | e in o.effects :: e.fluent < g.n && Within(g.n, e.value)
  }

  /** The fluent `f` can take the value `v` in layer `d`. */
  ghost predicate Reachable(g: Graph, start: Start, d: nat, f: nat, v: Value)
    decreases d, 0
  {
    if d == 0 then f < |start| && v in start[f]
    else Reachable(g, start, d - 1, f, v) || Produced(g, start, d - 1, f, v)
  }

  // Some operator enabled in layer `d` gives `f` the value `v`.
  ghost predicate Produced(g: Graph, start: Start, d: nat, f: nat, v: Value)
    decreases d, 4
  {
    exists o, e | o in g.operators && e in o.effects ::
      e.fluent == f && Enabled(g, start, d, o) && Takes(g, start, d, e.value, Some(v))
  }

  ghost predicate Enabled(g: Graph, start: Start, d: nat, o: Operator)
    decreases d, 3
  {
    forall c | c in o.conditions :: Takes(g, start, d, c, Some(TRUE))
  }

  /** `e` evaluates to `v` (or raises, for None) on some choice from layer `d`. */
  ghost predicate Takes(g: Graph, start: Start, d: nat, e: Expr, v: Option<Value>)
    decreases d, 2
  {
    exists s: Assignment :: Chosen(g, start, d, e, s) && Eval(e, s, g.functions) == v
  }

  ghost predicate Chosen(g: Graph, start: Start, d: nat, e: Expr, s: Assignment)
    decreases d, 1
  {
    |s| == g.n && forall f | f in Fluents(e) :: f < g.n && Reachable(g, start, d, f, s[f])
  }

  ghost predicate GoalAt(g: Graph, start: Start, d: nat) {
    forall c | c in g.goals :: Takes(g, start, d, c, Some(TRUE))
  }

  /** The first layer in which all goals can hold, each on its own. */
  ghost predicate IsDepth(g: Graph, start: Start, d: nat) {
    GoalAt(g, start, d) && forall k: nat | k < d :: !GoalAt(g, start, k)
  }

  lemma TakesMore(g: Graph, start: Start, d: nat, e: Expr, v: Option<Value>)
    requires Takes(g, start, d, e, v)
    ensures Takes(g, start, d + 1, e, v)
  {
    var s: Assignment :| Chosen(g, start, d, e, s) && Eval(e, s, g.functions) == v;
    assert Chosen(g, start, d + 1, e, s);
  }

  // Layer `d` has everything layer `d + 1` has.
  ghost predicate Saturated(g: Graph, start: Start, d: nat) {
    forall f: nat, v | Reachable(g, start, d + 1, f, v) :: Reachable(g, start, d, f, v)
  }

  lemma TakesSame(g: Graph, start: Start, d: nat, k: nat, e: Expr, v: Option<Value>)
    requires Takes(g, start, k, e, v)
    requires forall f: nat, w | Reachable(g, start, k, f, w) :: Reachable(g, start, d, f, w)
    ensures Takes(g, start, d, e, v)
  {
    var s: Assignment :| Chosen(g, start, k, e, s) && Eval(e, s, g.functions) == v;
    assert Chosen(g, start, d, e, s);
  }

  /** Once a layer adds nothing, no later one does. */
  lemma {:induction false} SaturatedStays(g: Graph, start: Start, d: nat, k: nat)
    requires Saturated(g, start, d) && d <= k
    ensures forall f: nat, v | Reachable(g, start, k, f, v) :: Reachable(g, start, d, f, v)
  {
    if k > d {
      SaturatedStays(g, start, d, k - 1);
      forall f: nat, v | Reachable(g, start, k, f, v) ensures Reachable(g, start, d, f, v) {
        if Produced(g, start, k - 1, f, v) {
          var o, e :| o in g.operators && e in o.effects && e.fluent == f
            && Enabled(g, start, k - 1, o) && Takes(g, start, k - 1, e.value, Some(v));
          forall c | c in o.conditions ensures Takes(g, start, d, c, Some(TRUE)) {
            TakesSame(g, start, d, k - 1, c, Some(TRUE));
          }
          TakesSame(g, start, d, k - 1, e.value, Some(v));
          assert Enabled(g, start, d, o);
          assert Produced(g, start, d, f, v);
          assert Reachable(g, start, d + 1, f, v);
        }
      }
    }
  }

  /** ... and goals that do not hold there never will. */
  lemma SaturatedGoal(g: Graph, start: Start, d: nat, k: nat)
    requires Saturated(g, start, d) && d <= k && GoalAt(g, start, k)
    ensures GoalAt(g, start, d)
  {
    SaturatedStays(g, start, d, k);
    forall c | c in g.goals ensures Takes(g, start, d, c, Some(TRUE)) {
      TakesSame(g, start, d, k, c, Some(TRUE));
    }
  }

  lemma {:induction false} GoalStays(g: Graph, start: Start, d: nat, k: nat)
    requires GoalAt(g, start, d) && d <= k
    ensures GoalAt(g, start, k)
    decreases k
  {
    if d < k {
      GoalStays(g, start, d, k - 1);
      forall c | c in g.goals ensures Takes(g, start, k, c, Some(TRUE)) {
        TakesMore(g, start, k - 1, c, Some(TRUE));
      }
    }
  }
}
