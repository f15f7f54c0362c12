/**
 The task `HMaxExplicit` is built for, in the terms of the problem: when an event's
 operator applies and what it gives, and which layers the problem's own events reach.
*/
module GraphExact {
  import opened Collections
  import opened Options
  import opened Expr
  import opened Temporal
  import opened ValueLayers
  import opened RelaxedRuns

  // ---- one event in a state ----

  /** A conjunction holds exactly when all its operands do. */
  lemma SplitExact(p: Problem, e: Expr, s: Assignment)
    ensures Holds(p, e, s) <==> forall c | c in Split(e) :: Holds(p, c, s)
  {
    if Holds(p, e, s) {
      SplitHolds(p, e, s);
    } else if e.And? && forall c | c in Split(e) :: Holds(p, c, s) {
      AllHoldTogether(p, e.args, s);
    }
  }

  lemma {:induction false} AllHoldTogether(p: Problem, es: seq<Expr>, s: Assignment)
    requires forall c | c in es :: Holds(p, c, s)
    ensures EvalAll(es, s, p.functions).Some? && forall v | v in EvalAll(es, s, p.functions).value :: v == TRUE
  {
    if es != [] {
      assert es[0] in es && forall c | c in es[1..] :: c in es;
      AllHoldTogether(p, es[1..], s);
    }
  }

  lemma {:induction false} SplitAllExact(p: Problem, es: seq<Expr>, s: Assignment)
    ensures (forall c | c in SplitAll(es) :: Holds(p, c, s)) <==> forall e | e in es :: Holds(p, e, s)
  {
    if es != [] {
      SplitAllExact(p, es[1..], s);
      SplitExact(p, es[0], s);
      var first := if es[0] == Const(TRUE) then [] else Split(es[0]);
      assert SplitAll(es) == first + SplitAll(es[1..]);
      assert Holds(p, Const(TRUE), s);
      hide Holds, Split, SplitAll;
      assert forall e :: e in es <==> e == es[0] || e in es[1..];
    }
  }

  lemma ConditionsExact(p: Problem, e: Event, s: Assignment)
    ensures (forall c | c in EventConditions(e) :: Holds(p, c, s)) <==>
              Holds(p, e.condition, s) && forall c | c in e.endConditions :: Holds(p, c, s)
  {
    SplitExact(p, e.condition, s);
    DistinctSame(Split(e.condition) + e.endConditions);
    hide Holds, Split;
  }

  // The values of the problem's own fluents do not change with the extra ones added.
  lemma ExtendedSame(p: Problem, c: Expr, s: Assignment, todo: map<nat, (nat, nat)>)
    requires |s| == |p.init| && Within(|p.init|, c)
    ensures Eval(c, Extended(p, s, todo), p.functions) == Eval(c, s, p.functions)
  {
    assert Agree(s, Extended(p, s, todo), Fluents(c));
    EvalReadsFluents(c, s, Extended(p, s, todo), p.functions);
  }

  lemma FlagExact(p: Problem, e: EventId, s: Assignment, todo: map<nat, (nat, nat)>)
    requires IsEvent(p, e) && |s| == |p.init|
    ensures Holds(p, Fluent(Extra(p, e)), Extended(p, s, todo)) <==> LastFired(p, todo, e.0) == e.1
  {
    FlagAt(p, todo, |p.actions|, e);
    assert Extended(p, s, todo)[Extra(p, e)] == Flags(p, todo, |p.actions|)[Extra(p, e) - |p.init|];
  }

  /** In the values of a state, the operator of an event applies exactly when the event
      has its condition and the conditions it closes hold and is next after the last one
      fired. */
  lemma OperatorExact(p: Problem, e: EventId, s: Assignment, todo: map<nat, (nat, nat)>)
    requires IsEvent(p, e) && |s| == |p.init| && EventInScope(|p.init|, EventOf(p, e))
    ensures (forall c | c in OperatorOf(p, e).conditions :: Holds(p, c, Extended(p, s, todo))) <==>
              && Holds(p, EventOf(p, e).condition, s)
              && (forall c | c in EventOf(p, e).endConditions :: Holds(p, c, s))
              && LastFired(p, todo, e.0) == Previous(p, e).1
  {
    var (ev, ext, prev, flag) := (EventOf(p, e), Extended(p, s, todo), Previous(p, e), Fluent(Extra(p, Previous(p, e))));
    ConditionsExact(p, ev, ext);
    SplitAllExact(p, EventConditions(ev), ext);
    FlagExact(p, prev, s, todo);
    forall c | c == ev.condition || c in ev.endConditions ensures Holds(p, c, ext) <==> Holds(p, c, s) {
      ExtendedSame(p, c, s, todo);
    }
    assert OperatorOf(p, e).conditions == [flag] + SplitAll(EventConditions(ev));
    hide Holds, SplitAll, EventConditions, Extended, LastFired, Extra, OperatorOf, EventInScope;
  }

  // Some effect of `effects` gives the fluent the value, in `s`.
  ghost predicate Gives(p: Problem, effects: seq<Effect>, s: Assignment, f: nat, v: Value) {
    exists eff :: eff in effects && eff.fluent == f && Eval(eff.value, s, p.functions) == Some(v)
  }

  /** The operator gives the problem's fluents what the event gives them, and sets the
      flag of the event. */
  lemma EffectsExact(p: Problem, e: EventId, s: Assignment, todo: map<nat, (nat, nat)>, f: nat, v: Value)
    requires IsEvent(p, e) && |s| == |p.init| && EventInScope(|p.init|, EventOf(p, e))
    ensures Gives(p, OperatorOf(p, e).effects, Extended(p, s, todo), f, v) <==>
              if f < |p.init| then Gives(p, EventOf(p, e).effects, s, f, v) else f == Extra(p, e) && v == TRUE
  {
    var (effects, ext, mark) := (EventOf(p, e).effects, Extended(p, s, todo), Effect(Extra(p, e), Const(TRUE)));
    ExtraInRange(p, e);
    assert OperatorOf(p, e).effects == [mark] + effects;
    assert mark in [mark] + effects;
    forall eff | eff in effects ensures Eval(eff.value, ext, p.functions) == Eval(eff.value, s, p.functions) {
      ExtendedSame(p, eff.value, s, todo);
    }
    if Gives(p, effects, s, f, v) {
      var eff :| eff in effects && eff.fluent == f && Eval(eff.value, s, p.functions) == Some(v);
      assert eff in OperatorOf(p, e).effects;
    }
    if f == Extra(p, e) && v == TRUE {
      assert mark.fluent == f && Eval(mark.value, ext, p.functions) == Some(v);
    }
  }

  lemma {:induction false} ExtraGoalsAre(p: Problem, a: nat, c: Expr)
    requires WellFormed(p) && a <= |p.actions|
    ensures c in ExtraGoals(p, a) <==>
              exists b: nat :: a <= b < |p.actions| && c == Fluent(Extra(p, (b, |p.actions[b].events| - 1)))
    decreases |p.actions| - a
  {
    if a < |p.actions| {
      ExtraGoalsAre(p, a + 1, c);
    }
  }

  /** The goals of the graph hold in the values of a state exactly when it is a goal
      state: nothing is in progress, and the goal holds. */
  lemma GoalExact(p: Problem, s: State)
    requires WellFormed(p) && |s.assignment| == |p.init| && Within(|p.init|, p.goal) && Begun(p, s.todo)
    ensures (forall c | c in GraphOf(p).goals :: Holds(p, c, Extended(p, s.assignment, s.todo))) <==> IsGoal(p, s)
  {
    var (ext, goals) := (Extended(p, s.assignment, s.todo), GraphOf(p).goals);
    GraphSize(p);
    SplitExact(p, p.goal, ext);
    ExtendedSame(p, p.goal, s.assignment, s.todo);
    forall a: nat | a < |p.actions|
      ensures Holds(p, Fluent(Extra(p, (a, |p.actions[a].events| - 1))), ext) <==> a !in s.todo
    {
      FlagExact(p, (a, |p.actions[a].events| - 1), s.assignment, s.todo);
    }
    forall c ensures c in ExtraGoals(p, 0) <==>
      exists b: nat :: 0 <= b < |p.actions| && c == Fluent(Extra(p, (b, |p.actions[b].events| - 1)))
    {
      ExtraGoalsAre(p, 0, c);
    }
    hide Extended, Extra, Split, ExtraGoals, GraphOf, WellFormed;
    if forall c | c in goals :: Holds(p, c, ext) {
      forall a: nat | a < |p.actions| ensures a !in s.todo {
        assert Fluent(Extra(p, (a, |p.actions[a].events| - 1))) in ExtraGoals(p, 0);
      }
      assert s.todo == map[];
    }
    if IsGoal(p, s) {
      forall c | c in goals ensures Holds(p, c, ext) {
        if c in ExtraGoals(p, 0) {
          var b: nat :| 0 <= b < |p.actions| && c == Fluent(Extra(p, (b, |p.actions[b].events| - 1)));
        }
      }
    }
  }

  // ---- the layers, in the terms of the problem ----

  /** The operands of an event's condition and of the conditions it closes; each may hold
      in values of its own. */
  ghost predicate IsPart(e: Event, c: Expr) {
    exists x :: (x in Split(e.condition) || x in e.endConditions) && c in Split(x)
  }

  /** Within `d` rounds the fluent may have got the value. */
  ghost predicate Possible(p: Problem, s: State, d: nat, f: nat, v: Value)
    decreases d, 0
  {
    if d == 0 then f < |s.assignment| && s.assignment[f] == v
    else
      || Possible(p, s, d - 1, f, v)
      || MayGet(p, s, d - 1, f, v)
  }

  /** Some event that may fire may give the fluent the value. */
  ghost predicate MayGet(p: Problem, s: State, d: nat, f: nat, v: Value)
    decreases d, 4
  {
    exists e: EventId, eff :: IsEvent(p, e) && eff in EventOf(p, e).effects
      && eff.fluent == f && CanFire(p, s, d, e) && CanBe(p, s, d, eff.value, v)
  }

  ghost predicate PossibleValues(p: Problem, s: State, d: nat, e: Expr, t: Assignment)
    decreases d, 1
  {
    |t| == |p.init| && forall f | f in Fluents(e) :: f < |p.init| && Possible(p, s, d, f, t[f])
  }

  /** The expression may take the value, on some choice of possible values. */
  ghost predicate CanBe(p: Problem, s: State, d: nat, e: Expr, v: Value)
    decreases d, 2
  {
    exists t :: PossibleValues(p, s, d, e, t) && Eval(e, t, p.functions) == Some(v)
  }

  /** The event has fired within `d` rounds, or was the last of its action to fire. */
  ghost predicate HasFired(p: Problem, s: State, d: nat, e: EventId)
    requires IsEvent(p, e)
    decreases d, 0
  {
    if d == 0 then LastFired(p, s.todo, e.0) == e.1
    else HasFired(p, s, d - 1, e) || CanFire(p, s, d - 1, e)
  }

  /** The event may fire next: the one before it has, and what it asks for may hold.  The
      timed action has started already. */
  ghost predicate CanFire(p: Problem, s: State, d: nat, e: EventId)
    requires IsEvent(p, e)
    decreases d, 3
  {
    && !(e.1 == 0 && p.timed == Some(e.0))
    && HasFired(p, s, d, Previous(p, e))
    && forall c | IsPart(EventOf(p, e), c) :: CanBe(p, s, d, c, TRUE)
  }

  /** The goal may hold, each of its operands, with every action complete. */
  ghost predicate GoalPossible(p: Problem, s: State, d: nat)
    requires WellFormed(p)
  {
    && (forall c | c in Split(p.goal) :: CanBe(p, s, d, c, TRUE))
    && forall a: nat | a < |p.actions| :: HasFired(p, s, d, (a, |p.actions[a].events| - 1))
  }

  // What a layer of the graph is.
  ghost predicate LayerIs(p: Problem, s: State, d: nat)
    requires WellFormed(p)
  {
    && (forall f: nat, v | f < |p.init| :: Reachable(GraphOf(p), StartOf(p, s), d, f, v) <==> Possible(p, s, d, f, v))
    && forall e: EventId | IsEvent(p, e) ::
         Reachable(GraphOf(p), StartOf(p, s), d, Extra(p, e), TRUE) <==> HasFired(p, s, d, e)
  }

  // The choice of values that makes an expression take a value.
  lemma ChoiceOf(g: Graph, start: Start, d: nat, c: Expr, v: Value) returns (t: Assignment)
    requires Takes(g, start, d, c, Some(v))
    ensures |t| == g.n && Eval(c, t, g.functions) == Some(v)
    ensures forall f | f in Fluents(c) :: f < g.n && Reachable(g, start, d, f, t[f])
  {
    t :| Chosen(g, start, d, c, t) && Eval(c, t, g.functions) == Some(v);
  }

  lemma ChosenTakes(g: Graph, start: Start, d: nat, c: Expr, v: Value, t: Assignment)
    requires |t| == g.n && Eval(c, t, g.functions) == Some(v)
    requires forall f | f in Fluents(c) :: f < g.n && Reachable(g, start, d, f, t[f])
    ensures Takes(g, start, d, c, Some(v))
  {
    assert Chosen(g, start, d, c, t);
  }

  lemma GraphFunctions(p: Problem)
    requires WellFormed(p)
    ensures |p.init| <= GraphOf(p).n && GraphOf(p).functions == p.functions
  {
    OffsetGrows(p, 0, |p.actions|);
  }

  lemma TakenCanBe(p: Problem, s: State, d: nat, c: Expr, v: Value)
    requires WellFormed(p) && LayerIs(p, s, d) && Within(|p.init|, c)
    requires Takes(GraphOf(p), StartOf(p, s), d, c, Some(v))
    ensures CanBe(p, s, d, c, v)
  {
    GraphFunctions(p);
    var n := |p.init|;
    hide GraphOf, StartOf, Reachable, Possible, WellFormed, HasFired, Takes;
    var t := ChoiceOf(GraphOf(p), StartOf(p, s), d, c, v);
    assert Agree(t, t[..n], Fluents(c));
    EvalReadsFluents(c, t, t[..n], p.functions);
    assert PossibleValues(p, s, d, c, t[..n]);
  }

  lemma CanBeTaken(p: Problem, s: State, d: nat, c: Expr, v: Value)
    requires WellFormed(p) && LayerIs(p, s, d) && Within(|p.init|, c) && CanBe(p, s, d, c, v)
    ensures Takes(GraphOf(p), StartOf(p, s), d, c, Some(v))
  {
    GraphFunctions(p);
    hide GraphOf, StartOf, Reachable, Possible, WellFormed, HasFired, Takes;
    var t :| PossibleValues(p, s, d, c, t) && Eval(c, t, p.functions) == Some(v);
    var more := t + seq(GraphOf(p).n - |p.init|, i => TRUE);
    assert Agree(t, more, Fluents(c));
    EvalReadsFluents(c, t, more, p.functions);
    ChosenTakes(GraphOf(p), StartOf(p, s), d, c, v, more);
  }

  // An expression over the problem's fluents.
  lemma TakesExact(p: Problem, s: State, d: nat, c: Expr, v: Value)
    requires WellFormed(p) && LayerIs(p, s, d) && Within(|p.init|, c)
    ensures Takes(GraphOf(p), StartOf(p, s), d, c, Some(v)) <==> CanBe(p, s, d, c, v)
  {
    hide Takes, CanBe, LayerIs, WellFormed;
    if Takes(GraphOf(p), StartOf(p, s), d, c, Some(v)) {
      TakenCanBe(p, s, d, c, v);
    }
    if CanBe(p, s, d, c, v) {
      CanBeTaken(p, s, d, c, v);
    }
  }

  lemma FlagTaken(p: Problem, s: State, d: nat, e: EventId)
    requires WellFormed(p) && LayerIs(p, s, d) && IsEvent(p, e)
    ensures Takes(GraphOf(p), StartOf(p, s), d, Fluent(Extra(p, e)), Some(TRUE)) <==> HasFired(p, s, d, e)
  {
    var (g, start, f) := (GraphOf(p), StartOf(p, s), Extra(p, e));
    GraphSize(p);
    ExtraInRange(p, e);
    hide GraphOf, StartOf, Reachable, WellFormed, HasFired, Extra;
    if Takes(g, start, d, Fluent(f), Some(TRUE)) {
      var t: Assignment :| Chosen(g, start, d, Fluent(f), t) && Eval(Fluent(f), t, g.functions) == Some(TRUE);
      assert f in Fluents(Fluent(f));
    }
    if HasFired(p, s, d, e) {
      FluentTakes(g, start, d, f);
    }
  }

  lemma {:induction false} SplitAllAre(es: seq<Expr>, c: Expr)
    ensures c in SplitAll(es) ==> exists x :: x in es && c in Split(x)
    ensures (exists x :: x in es && c in Split(x)) ==> c in SplitAll(es) || c == Const(TRUE)
  {
    if es != [] {
      SplitAllAre(es[1..], c);
      assert forall x :: x in es <==> x == es[0] || x in es[1..];
    }
  }

  lemma PartsAre(e: Event, c: Expr)
    ensures c in SplitAll(EventConditions(e)) ==> IsPart(e, c)
    ensures IsPart(e, c) ==> c in SplitAll(EventConditions(e)) || c == Const(TRUE)
  {
    DistinctSame(Split(e.condition) + e.endConditions);
    SplitAllAre(EventConditions(e), c);
    hide SplitAll;
    assert forall x :: x in EventConditions(e) <==> x in Split(e.condition) || x in e.endConditions;
  }

  lemma PartsInScope(p: Problem, e: EventId, c: Expr)
    requires InScope(p) && IsEvent(p, e) && IsPart(EventOf(p, e), c)
    ensures Within(|p.init|, c)
  {
    var ev := EventOf(p, e);
    assert EventInScope(|p.init|, ev);
    var x :| (x in Split(ev.condition) || x in ev.endConditions) && c in Split(x);
    SplitScoped(|p.init|, ev.condition);
    SplitScoped(|p.init|, x);
  }

  lemma TrueCanBe(p: Problem, s: State, d: nat)
    ensures CanBe(p, s, d, Const(TRUE), TRUE)
  {
    assert PossibleValues(p, s, d, Const(TRUE), p.init);
  }

  /** An operator is enabled in a layer exactly when its event may fire there, but for the
      start of the timed action. */
  lemma EnabledExact(p: Problem, s: State, d: nat, e: EventId)
    requires WellFormed(p) && InScope(p) && LayerIs(p, s, d) && IsEvent(p, e)
    ensures Enabled(GraphOf(p), StartOf(p, s), d, OperatorOf(p, e)) <==>
              && HasFired(p, s, d, Previous(p, e))
              && forall c | IsPart(EventOf(p, e), c) :: CanBe(p, s, d, c, TRUE)
  {
    var (g, start, o, flag) := (GraphOf(p), StartOf(p, s), OperatorOf(p, e), Fluent(Extra(p, Previous(p, e))));
    FlagTaken(p, s, d, Previous(p, e));
    TrueCanBe(p, s, d);
    var parts := SplitAll(EventConditions(EventOf(p, e)));
    assert o.conditions == [flag] + parts;
    hide GraphOf, StartOf, Takes, CanBe, LayerIs, InScope, WellFormed, SplitAll, EventConditions, OperatorOf, HasFired,
      Extra, Previous, IsPart;
    forall c | IsPart(EventOf(p, e), c)
      ensures CanBe(p, s, d, c, TRUE) <==> Takes(g, start, d, c, Some(TRUE))
      ensures c in parts || c == Const(TRUE)
    {
      PartsInScope(p, e, c);
      TakesExact(p, s, d, c, TRUE);
      PartsAre(EventOf(p, e), c);
    }
    forall c | c in parts ensures IsPart(EventOf(p, e), c) {
      PartsAre(EventOf(p, e), c);
    }
  }

  lemma {:induction false} OperatorsFromAre(p: Problem, a: nat, i: nat, o: Operator) returns (e: EventId)
    requires a < |p.actions| && i <= |p.actions[a].events| && o in OperatorsFrom(p, a, i)
    ensures IsEvent(p, e) && Included(p, e) && o == OperatorOf(p, e)
    decreases |p.actions[a].events| - i
  {
    hide Included, OperatorOf;
    if Included(p, (a, i)) && o == OperatorOf(p, (a, i)) {
      e := (a, i);
    } else {
      e := OperatorsFromAre(p, a, i + 1, o);
    }
  }

  lemma {:induction false} OperatorsAre(p: Problem, a: nat, o: Operator) returns (e: EventId)
    requires a <= |p.actions| && o in AllOperators(p, a)
    ensures IsEvent(p, e) && Included(p, e) && o == OperatorOf(p, e)
    decreases |p.actions| - a
  {
    hide Included, OperatorOf;
    if o in OperatorsFrom(p, a, 0) {
      e := OperatorsFromAre(p, a, 0, o);
    } else {
      e := OperatorsAre(p, a + 1, o);
    }
  }

  lemma FalseNeverTaken(g: Graph, start: Start, d: nat)
    ensures !Takes(g, start, d, Const(BoolV(false)), Some(TRUE))
  {
  }

  // The operators of the graph that are enabled are those of the events that may fire.
  lemma FiringExact(p: Problem, s: State, d: nat, e: EventId)
    requires WellFormed(p) && InScope(p) && LayerIs(p, s, d) && IsEvent(p, e)
    ensures CanFire(p, s, d, e) <==>
              Included(p, e) && Enabled(GraphOf(p), StartOf(p, s), d, OperatorOf(p, e))
    ensures CanFire(p, s, d, e) ==> OperatorOf(p, e) in GraphOf(p).operators
  {
    EnabledExact(p, s, d, e);
    FalseNeverTaken(GraphOf(p), StartOf(p, s), d);
    hide Takes, LayerIs, InScope, OperatorOf, IsPart, CanBe, HasFired;
    if CanFire(p, s, d, e) {
      assert Included(p, e);
      OperatorIn(p, 0, e);
    }
  }

  lemma ExtraDistinct(p: Problem, e: EventId, e': EventId)
    requires IsEvent(p, e) && IsEvent(p, e') && Extra(p, e) == Extra(p, e')
    ensures e == e'
  {
    if e.0 < e'.0 {
      OffsetGrows(p, e.0 + 1, e'.0);
    } else if e'.0 < e.0 {
      OffsetGrows(p, e'.0 + 1, e.0);
    }
  }

  lemma ProducedMayGet(p: Problem, s: State, d: nat, f: nat, v: Value)
    requires WellFormed(p) && InScope(p) && LayerIs(p, s, d) && f < |p.init|
    requires Produced(GraphOf(p), StartOf(p, s), d, f, v)
    ensures MayGet(p, s, d, f, v)
  {
    var (g, start) := (GraphOf(p), StartOf(p, s));
    hide StartOf, Takes, CanBe, LayerIs, WellFormed, CanFire, Enabled, Extra, AllOperators, Included;
    var o, eff :| o in g.operators && eff in o.effects && eff.fluent == f && Enabled(g, start, d, o)
      && Takes(g, start, d, eff.value, Some(v));
    var e := OperatorsAre(p, 0, o);
    ExtraInRange(p, e);
    FiringExact(p, s, d, e);
    assert EventInScope(|p.init|, EventOf(p, e)) && eff in EventOf(p, e).effects;
    TakesExact(p, s, d, eff.value, v);
  }

  lemma OwnProduced(p: Problem, s: State, d: nat, f: nat, v: Value)
    requires WellFormed(p) && InScope(p) && LayerIs(p, s, d) && f < |p.init|
    ensures Produced(GraphOf(p), StartOf(p, s), d, f, v) <==> MayGet(p, s, d, f, v)
  {
    var (g, start) := (GraphOf(p), StartOf(p, s));
    hide StartOf, Takes, CanBe, LayerIs, WellFormed, CanFire, Enabled, Extra, AllOperators, Included;
    if Produced(g, start, d, f, v) {
      ProducedMayGet(p, s, d, f, v);
    }
    if MayGet(p, s, d, f, v) {
      var e: EventId, eff :| IsEvent(p, e) && eff in EventOf(p, e).effects
        && eff.fluent == f && CanFire(p, s, d, e) && CanBe(p, s, d, eff.value, v);
      FiringExact(p, s, d, e);
      assert EventInScope(|p.init|, EventOf(p, e)) && eff in OperatorOf(p, e).effects;
      TakesExact(p, s, d, eff.value, v);
    }
  }

  // Only its own operator sets the flag of an event.
  lemma FlagOperator(p: Problem, e: EventId, o: Operator, eff: Effect)
    requires InScope(p) && IsEvent(p, e) && o in AllOperators(p, 0) && eff in o.effects && eff.fluent == Extra(p, e)
    ensures Included(p, e) && o == OperatorOf(p, e)
  {
    ExtraInRange(p, e);
    hide AllOperators, Included, Extra;
    var e' := OperatorsAre(p, 0, o);
    assert EventInScope(|p.init|, EventOf(p, e'));
    assert eff == Effect(Extra(p, e'), Const(TRUE));
    ExtraDistinct(p, e, e');
  }

  lemma FlagProduced(p: Problem, s: State, d: nat, e: EventId)
    requires WellFormed(p) && InScope(p) && LayerIs(p, s, d) && IsEvent(p, e)
    ensures Produced(GraphOf(p), StartOf(p, s), d, Extra(p, e), TRUE) <==> CanFire(p, s, d, e)
  {
    var (g, start, mark) := (GraphOf(p), StartOf(p, s), Effect(Extra(p, e), Const(TRUE)));
    FiringExact(p, s, d, e);
    hide StartOf, LayerIs, WellFormed, CanFire, Enabled, Extra, AllOperators, Included, InScope, Takes;
    if Produced(g, start, d, Extra(p, e), TRUE) {
      var o, eff :| o in g.operators && eff in o.effects && eff.fluent == Extra(p, e) && Enabled(g, start, d, o)
        && Takes(g, start, d, eff.value, Some(TRUE));
      FlagOperator(p, e, o, eff);
    }
    if CanFire(p, s, d, e) {
      assert mark in OperatorOf(p, e).effects;
      ChosenTakes(g, start, d, Const(TRUE), TRUE, seq(g.n, i => TRUE));
      assert Takes(g, start, d, mark.value, Some(TRUE));
    }
  }

  lemma FirstLayer(p: Problem, s: State)
    requires WellFormed(p) && |s.assignment| == |p.init|
    ensures LayerIs(p, s, 0)
  {
    FlagsLength(p, s.todo, |p.actions|);
    var ext := Extended(p, s.assignment, s.todo);
    forall e: EventId | IsEvent(p, e)
      ensures Reachable(GraphOf(p), StartOf(p, s), 0, Extra(p, e), TRUE) <==> HasFired(p, s, 0, e)
    {
      FlagAt(p, s.todo, |p.actions|, e);
      assert ext[Extra(p, e)] == Flags(p, s.todo, |p.actions|)[Extra(p, e) - |p.init|];
    }
  }

  /** The layers of the graph are those of the problem. */
  lemma {:induction false} LayersExact(p: Problem, s: State, d: nat)
    requires WellFormed(p) && InScope(p) && |s.assignment| == |p.init|
    ensures LayerIs(p, s, d)
    decreases d
  {
    if d == 0 {
      FirstLayer(p, s);
    } else {
      LayersExact(p, s, d - 1);
      var (g, start) := (GraphOf(p), StartOf(p, s));
      hide GraphOf, StartOf, Produced, CanFire, MayGet, InScope, WellFormed, Extra;
      forall f: nat, v | f < |p.init| ensures Reachable(g, start, d, f, v) <==> Possible(p, s, d, f, v) {
        OwnProduced(p, s, d - 1, f, v);
      }
      forall e: EventId | IsEvent(p, e) ensures Reachable(g, start, d, Extra(p, e), TRUE) <==> HasFired(p, s, d, e) {
        FlagProduced(p, s, d - 1, e);
      }
    }
  }

  /** The goal can be taken in a layer of the graph exactly when the problem's own events
      make it possible in as many rounds.  So the depth answered is the number of rounds
      they need, and there is none exactly when they never do. */
  lemma GraphGoalExact(p: Problem, s: State, d: nat)
    requires WellFormed(p) && InScope(p) && |s.assignment| == |p.init|
    ensures GoalAt(GraphOf(p), StartOf(p, s), d) <==> GoalPossible(p, s, d)
  {
    var (g, start) := (GraphOf(p), StartOf(p, s));
    LayersExact(p, s, d);
    GraphSize(p);
    SplitScoped(|p.init|, p.goal);
    forall c ensures c in ExtraGoals(p, 0) <==>
      exists b: nat :: 0 <= b < |p.actions| && c == Fluent(Extra(p, (b, |p.actions[b].events| - 1)))
    {
      ExtraGoalsAre(p, 0, c);
    }
    hide GraphOf, StartOf, Takes, CanBe, LayerIs, Extra, HasFired, Split, ExtraGoals;
    forall c | c in Split(p.goal) ensures Takes(g, start, d, c, Some(TRUE)) <==> CanBe(p, s, d, c, TRUE) {
      TakesExact(p, s, d, c, TRUE);
    }
    forall a: nat | a < |p.actions|
      ensures Takes(g, start, d, Fluent(Extra(p, (a, |p.actions[a].events| - 1))), Some(TRUE)) <==>
                HasFired(p, s, d, (a, |p.actions[a].events| - 1))
    {
      FlagTaken(p, s, d, (a, |p.actions[a].events| - 1));
    }
    hide WellFormed;
    if GoalAt(g, start, d) {
      forall a: nat | a < |p.actions| ensures HasFired(p, s, d, (a, |p.actions[a].events| - 1)) {
        assert Fluent(Extra(p, (a, |p.actions[a].events| - 1))) in ExtraGoals(p, 0);
      }
    }
  }

  /** `HMaxExplicit` answers the number of rounds the problem's events need. */
  lemma DepthExact(p: Problem, s: State, d: nat)
    requires WellFormed(p) && InScope(p) && |s.assignment| == |p.init|
    ensures IsDepth(GraphOf(p), StartOf(p, s), d) <==>
              GoalPossible(p, s, d) && forall k: nat | k < d :: !GoalPossible(p, s, k)
  {
    hide WellFormed, InScope, GraphOf, StartOf, GoalPossible, GoalAt;
    forall k: nat ensures GoalAt(GraphOf(p), StartOf(p, s), k) <==> GoalPossible(p, s, k) {
      GraphGoalExact(p, s, k);
    }
  }
}
