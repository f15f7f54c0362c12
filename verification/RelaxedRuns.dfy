/**
 `HMaxExplicit` on a temporal problem: its operators are the events, made to follow
 each other by extra fluents, and no run of the search needs fewer events than it
 answers.
*/
module RelaxedRuns {
  import opened Collections
  import opened Options
  import opened Expr
  import opened Temporal
  import opened ValueLayers
  import opened ActiveConditions

  // ---- the task the constructor builds ----

  /** One more fluent per event: it is true of the last event fired. */
  function Offset(p: Problem, a: nat): nat
    requires a <= |p.actions|
  {
    if a == 0 then |p.init| else Offset(p, a - 1) + |p.actions[a - 1].events|
  }

  function Extra(p: Problem, e: EventId): nat
    requires IsEvent(p, e)
  {
    Offset(p, e.0) + e.1
  }

  function Split(e: Expr): seq<Expr> {
    if e.And? then e.args else [e]
  }

  function SplitAll(es: seq<Expr>): seq<Expr> {
    if es == [] then [] else (if es[0] == Const(TRUE) then [] else Split(es[0])) + SplitAll(es[1..])
  }

  /** `get_event_conditions`: the conditions of an event and those it closes, once each. */
  function EventConditions(e: Event): seq<Expr> {
    Distinct(Split(e.condition) + e.endConditions)
  }

  // The event before, or the last of the action if it has not started.
  function Previous(p: Problem, e: EventId): EventId
    requires IsEvent(p, e)
  {
    if e.1 == 0 then (e.0, |p.actions[e.0].events| - 1) else (e.0, e.1 - 1)
  }

  function OperatorOf(p: Problem, e: EventId): Operator
    requires IsEvent(p, e)
  {
    Operator([Fluent(Extra(p, Previous(p, e)))] + SplitAll(EventConditions(EventOf(p, e))),
             [Effect(Extra(p, e), Const(TRUE))] + EventOf(p, e).effects)
  }

  predicate Included(p: Problem, e: EventId)
    requires IsEvent(p, e)
  {
    Const(BoolV(false)) !in OperatorOf(p, e).conditions && !(e.1 == 0 && p.timed == Some(e.0))
  }

  function OperatorsFrom(p: Problem, a: nat, i: nat): seq<Operator>
    requires a < |p.actions| && i <= |p.actions[a].events|
    decreases |p.actions[a].events| - i
  {
    if i == |p.actions[a].events| then []
    else (if Included(p, (a, i)) then [OperatorOf(p, (a, i))] else []) + OperatorsFrom(p, a, i + 1)
  }

  function AllOperators(p: Problem, a: nat): seq<Operator>
    requires a <= |p.actions|
    decreases |p.actions| - a
  {
    if a == |p.actions| then [] else OperatorsFrom(p, a, 0) + AllOperators(p, a + 1)
  }

  /** Besides the goals, every action must have fired its last event. */
  function ExtraGoals(p: Problem, a: nat): seq<Expr>
    requires WellFormed(p) && a <= |p.actions|
    decreases |p.actions| - a
  {
    if a == |p.actions| then []
    else [Fluent(Extra(p, (a, |p.actions[a].events| - 1)))] + ExtraGoals(p, a + 1)
  }

  function GraphOf(p: Problem): Graph
    requires WellFormed(p)
  {
    Graph(Offset(p, |p.actions|), p.functions, AllOperators(p, 0), Split(p.goal) + ExtraGoals(p, 0))
  }

  // ---- the values a state starts with ----

  /** The last event of the action that has fired. */
  function LastFired(p: Problem, todo: map<nat, (nat, nat)>, a: nat): int
    requires a < |p.actions|
  {
    if a in todo then todo[a].0 - 1 else |p.actions[a].events| - 1
  }

  // The values of the extra fluents of the actions below `a`.
  function Flags(p: Problem, todo: map<nat, (nat, nat)>, a: nat): Assignment
    requires a <= |p.actions|
  {
    if a == 0 then [] else
      Flags(p, todo, a - 1)
      + seq(|p.actions[a - 1].events|, i => BoolV(i == LastFired(p, todo, a - 1)))
  }

  /** The values of a state with those of the extra fluents. */
  function Extended(p: Problem, s: Assignment, todo: map<nat, (nat, nat)>): Assignment {
    s + Flags(p, todo, |p.actions|)
  }

  function Singletons(s: Assignment): Start {
    seq(|s|, f requires 0 <= f < |s| => [s[f]])
  }

  function StartOf(p: Problem, s: State): Start {
    Singletons(Extended(p, s.assignment, s.todo))
  }

  lemma {:induction false} OffsetGrows(p: Problem, a: nat, b: nat)
    requires a <= b <= |p.actions|
    ensures Offset(p, a) <= Offset(p, b)
    decreases b
  {
    if a < b {
      OffsetGrows(p, a, b - 1);
    }
  }

  lemma ExtraInRange(p: Problem, e: EventId)
    requires IsEvent(p, e)
    ensures |p.init| <= Offset(p, e.0) && Extra(p, e) < Offset(p, |p.actions|)
  {
    OffsetGrows(p, 0, e.0);
    OffsetGrows(p, e.0 + 1, |p.actions|);
  }

  lemma {:induction false} FlagsLength(p: Problem, todo: map<nat, (nat, nat)>, a: nat)
    requires a <= |p.actions|
    ensures |p.init| + |Flags(p, todo, a)| == Offset(p, a)
  {
    if a > 0 {
      FlagsLength(p, todo, a - 1);
    }
  }

  lemma {:induction false} FlagAt(p: Problem, todo: map<nat, (nat, nat)>, a: nat, e: EventId)
    requires e.0 < a <= |p.actions| && IsEvent(p, e)
    ensures |p.init| <= Extra(p, e) < |p.init| + |Flags(p, todo, a)|
    ensures Flags(p, todo, a)[Extra(p, e) - |p.init|] == BoolV(e.1 == LastFired(p, todo, e.0))
  {
    FlagsLength(p, todo, a - 1);
    FlagsLength(p, todo, a);
    OffsetGrows(p, 0, e.0);
    if e.0 + 1 < a {
      OffsetGrows(p, e.0 + 1, a - 1);
      FlagAt(p, todo, a - 1, e);
    }
  }

  // ---- a run stays within the layers ----

  /** The values of `s`, and the events it has got to, are in layer `d`. */
  ghost predicate Covers(p: Problem, start: Start, d: nat, s: State)
    requires WellFormed(p)
  {
    && |s.assignment| == |p.init|
    && (forall f: nat | f < |p.init| :: Reachable(GraphOf(p), start, d, f, s.assignment[f]))
    && forall a: nat | a < |p.actions| :: CoversAction(p, start, d, s.todo, a)
  }

  ghost predicate CoversAction(p: Problem, start: Start, d: nat, todo: map<nat, (nat, nat)>, a: nat)
    requires WellFormed(p) && a < |p.actions|
  {
    && 0 <= LastFired(p, todo, a) < |p.actions[a].events|
    && Reachable(GraphOf(p), start, d, Extra(p, (a, LastFired(p, todo, a))), TRUE)
  }

  // The indices in `todo` are of events still to fire, after the first.
  ghost predicate Begun(p: Problem, todo: map<nat, (nat, nat)>) {
    forall a | a in todo :: a < |p.actions| && 0 < todo[a].0 < |p.actions[a].events|
  }

  lemma StartCovers(p: Problem, s: State)
    requires WellFormed(p) && |s.assignment| == |p.init| && Begun(p, s.todo)
    ensures |StartOf(p, s)| == Offset(p, |p.actions|) && Covers(p, StartOf(p, s), 0, s)
  {
    FlagsLength(p, s.todo, |p.actions|);
    var start := StartOf(p, s);
    forall f: nat | f < |p.init| ensures Reachable(GraphOf(p), start, 0, f, s.assignment[f]) {
      assert start[f] == [s.assignment[f]];
    }
    forall a: nat | a < |p.actions| ensures CoversAction(p, start, 0, s.todo, a) {
      var last := LastFired(p, s.todo, a);
      FlagAt(p, s.todo, |p.actions|, (a, last));
      assert start[Extra(p, (a, last))] == [TRUE];
    }
  }

  // An expression that evaluates reads fluents that exist.
  lemma {:induction false} EvalInRange(e: Expr, s: Assignment, fs: Functions)
    requires Eval(e, s, fs).Some?
    ensures forall f | f in Fluents(e) :: f < |s|
  {
    match e
    case Const(_) =>
    case Fluent(f) =>
    case Not(a) => EvalInRange(a, s, fs);
    case And(es) => EvalAllInRange(es, s, fs);
    case Or(es) => EvalAllInRange(es, s, fs);
    case Plus(es) => EvalAllInRange(es, s, fs);
    case Times(es) => EvalAllInRange(es, s, fs);
    case Call(_, es) => EvalAllInRange(es, s, fs);
    case Equals(l, r) => EvalInRange(l, s, fs); EvalInRange(r, s, fs);
    case Le(l, r) => EvalInRange(l, s, fs); EvalInRange(r, s, fs);
    case Lt(l, r) => EvalInRange(l, s, fs); EvalInRange(r, s, fs);
    case Minus(l, r) => EvalInRange(l, s, fs); EvalInRange(r, s, fs);
    case Div(l, r) => EvalInRange(l, s, fs); EvalInRange(r, s, fs);
  }

  lemma {:induction false} EvalAllInRange(es: seq<Expr>, s: Assignment, fs: Functions)
    requires EvalAll(es, s, fs).Some?
    ensures forall f | f in AllFluents(es) :: f < |s|
  {
    if es != [] {
      EvalInRange(es[0], s, fs);
      EvalAllInRange(es[1..], s, fs);
    }
  }

  /** What evaluates in the state can be taken in the layer. */
  lemma CoveredTakes(p: Problem, start: Start, d: nat, s: State, e: Expr)
    requires WellFormed(p) && Covers(p, start, d, s) && Eval(e, s.assignment, p.functions).Some?
    ensures Takes(GraphOf(p), start, d, e, Eval(e, s.assignment, p.functions))
  {
    var g := GraphOf(p);
    OffsetGrows(p, 0, |p.actions|);
    var t := s.assignment + seq(g.n - |p.init|, i => BoolV(false));
    EvalInRange(e, s.assignment, p.functions);
    EvalReadsFluents(e, s.assignment, t, p.functions);
    hide Reachable, WellFormed, CoversAction;
    assert Chosen(g, start, d, e, t);
  }

  lemma FluentTakes(g: Graph, start: Start, d: nat, f: nat)
    requires f < g.n && Reachable(g, start, d, f, TRUE)
    ensures Takes(g, start, d, Fluent(f), Some(TRUE))
  {
    var s: Assignment := seq(g.n, i => TRUE);
    assert Chosen(g, start, d, Fluent(f), s);
  }

  // ---- one event ----

  lemma {:induction false} OperatorFrom(p: Problem, a: nat, i: nat, k: nat)
    requires a < |p.actions| && i <= k < |p.actions[a].events| && Included(p, (a, k))
    ensures OperatorOf(p, (a, k)) in OperatorsFrom(p, a, i)
    decreases k - i
  {
    hide Included, OperatorOf;
    if i < k {
      OperatorFrom(p, a, i + 1, k);
    }
  }

  lemma {:induction false} OperatorIn(p: Problem, b: nat, e: EventId)
    requires b <= e.0 && IsEvent(p, e) && Included(p, e)
    ensures OperatorOf(p, e) in AllOperators(p, b)
    decreases e.0 - b
  {
    hide Included, OperatorOf;
    if b < e.0 {
      OperatorIn(p, b + 1, e);
    } else {
      OperatorFrom(p, e.0, 0, e.1);
    }
  }

  lemma {:induction false} EvalAllMember(es: seq<Expr>, k: nat, s: Assignment, fs: Functions)
    requires k < |es| && EvalAll(es, s, fs).Some?
    ensures Eval(es[k], s, fs) == Some(EvalAll(es, s, fs).value[k])
  {
    if k > 0 {
      EvalAllMember(es[1..], k - 1, s, fs);
    }
  }

  /** A conjunction holds piece by piece. */
  lemma SplitHolds(p: Problem, e: Expr, s: Assignment)
    requires Holds(p, e, s)
    ensures forall c | c in Split(e) :: Holds(p, c, s)
  {
    if e.And? {
      var vals := EvalAll(e.args, s, p.functions).value;
      forall c | c in e.args ensures Holds(p, c, s) {
        var k :| 0 <= k < |e.args| && e.args[k] == c;
        EvalAllMember(e.args, k, s, p.functions);
        assert vals[k] in vals;
      }
    }
  }

  lemma {:induction false} SplitAllHolds(p: Problem, es: seq<Expr>, s: Assignment)
    requires forall c | c in es :: Holds(p, c, s)
    ensures forall c | c in SplitAll(es) :: Holds(p, c, s)
  {
    hide Holds;
    if es != [] {
      SplitHolds(p, es[0], s);
      assert forall c | c in es[1..] :: c in es;
      SplitAllHolds(p, es[1..], s);
    }
  }

  lemma EventConditionsHold(p: Problem, e: Event, s: Assignment)
    requires Holds(p, e.condition, s) && forall c | c in e.endConditions :: Holds(p, c, s)
    ensures forall c | c in SplitAll(EventConditions(e)) :: Holds(p, c, s)
  {
    hide Holds;
    SplitHolds(p, e.condition, s);
    DistinctSame(Split(e.condition) + e.endConditions);
    SplitAllHolds(p, EventConditions(e), s);
  }

  // A value of the child is the parent's, or one an effect gives.
  lemma {:induction false} AppliedValue(p: Problem, effects: seq<Effect>, s: Assignment, acc: Assignment, f: nat)
    requires Apply(p, effects, s, acc).Some? && f < |acc|
    ensures |Apply(p, effects, s, acc).value| == |acc|
    ensures Apply(p, effects, s, acc).value[f] == acc[f]
         || exists e :: e in effects && e.fluent == f
                        && Eval(e.value, s, p.functions) == Some(Apply(p, effects, s, acc).value[f])
  {
    if effects != [] {
      var v := Eval(effects[0].value, s, p.functions).value;
      var acc' := acc[effects[0].fluent := v];
      AppliedValue(p, effects[1..], s, acc', f);
      var w := Apply(p, effects, s, acc).value[f];
      if e :| e in effects[1..] && e.fluent == f && Eval(e.value, s, p.functions) == Some(w) {
        assert e in effects;
      } else {
        assert w == acc'[f];
        assert effects[0] in effects;
      }
    }
  }

  /** The operator of an event that fires is there, and enabled. */
  lemma EventEnabled(p: Problem, start: Start, d: nat, s: State, e: EventId)
    requires WellFormed(p) && Covers(p, start, d, s) && IsEvent(p, e)
    requires Holds(p, EventOf(p, e).condition, s.assignment)
    requires forall c | c in EventOf(p, e).endConditions :: Holds(p, c, s.assignment)
    requires e.1 == 0 ==> p.timed != Some(e.0)
    requires Previous(p, e).1 == LastFired(p, s.todo, e.0)
    ensures OperatorOf(p, e) in GraphOf(p).operators && Enabled(GraphOf(p), start, d, OperatorOf(p, e))
  {
    var (g, o, prev) := (GraphOf(p), OperatorOf(p, e), Previous(p, e));
    EventConditionsHold(p, EventOf(p, e), s.assignment);
    assert Included(p, e) by {
      assert !Holds(p, Const(BoolV(false)), s.assignment);
    }
    OperatorIn(p, 0, e);
    ExtraInRange(p, prev);
    assert CoversAction(p, start, d, s.todo, e.0);
    assert prev == (e.0, LastFired(p, s.todo, e.0));
    FluentTakes(g, start, d, Extra(p, prev));
    hide Takes, Holds, Covers, WellFormed, Reachable, SplitAll, Extra, Offset;
    forall c | c in o.conditions ensures Takes(g, start, d, c, Some(TRUE)) {
      if c in SplitAll(EventConditions(EventOf(p, e))) {
        CoveredHolds(p, start, d, s, c);
      } else {
        assert c == Fluent(Extra(p, prev));
      }
    }
  }

  lemma CoveredHolds(p: Problem, start: Start, d: nat, s: State, c: Expr)
    requires WellFormed(p) && Covers(p, start, d, s) && Holds(p, c, s.assignment)
    ensures Takes(GraphOf(p), start, d, c, Some(TRUE))
  {
    CoveredTakes(p, start, d, s, c);
  }

  lemma EffectReached(p: Problem, start: Start, d: nat, e: EventId, eff: Effect, v: Value)
    requires WellFormed(p) && IsEvent(p, e) && eff in OperatorOf(p, e).effects
    requires OperatorOf(p, e) in GraphOf(p).operators && Enabled(GraphOf(p), start, d, OperatorOf(p, e))
    requires Takes(GraphOf(p), start, d, eff.value, Some(v))
    ensures Reachable(GraphOf(p), start, d + 1, eff.fluent, v)
  {
    hide WellFormed, GraphOf, OperatorOf;
    assert Produced(GraphOf(p), start, d, eff.fluent, v);
  }

  /** The child of a state in layer `d` is in layer `d + 1`. */
  lemma EventCovers(p: Problem, start: Start, d: nat, s: State, s': State, e: EventId)
    requires WellFormed(p) && Covers(p, start, d, s) && IsEvent(p, e)
    requires OperatorOf(p, e) in GraphOf(p).operators && Enabled(GraphOf(p), start, d, OperatorOf(p, e))
    requires Apply(p, EventOf(p, e).effects, s.assignment, s.assignment) == Some(s'.assignment)
    requires LastFired(p, s'.todo, e.0) == e.1
    requires forall a: nat | a < |p.actions| && a != e.0 :: LastFired(p, s'.todo, a) == LastFired(p, s.todo, a)
    ensures Covers(p, start, d + 1, s')
  {
    var (g, ev) := (GraphOf(p), EventOf(p, e));
    if |p.init| > 0 {
      AppliedValue(p, ev.effects, s.assignment, s.assignment, 0);
    } else {
      AppliedLength(p, ev.effects, s.assignment, s.assignment);
    }
    hide WellFormed, GraphOf, Takes, Enabled, LastFired, Produced;
    forall f: nat | f < |p.init| ensures Reachable(g, start, d + 1, f, s'.assignment[f]) {
      AppliedValue(p, ev.effects, s.assignment, s.assignment, f);
      var v := s'.assignment[f];
      if eff :| eff in ev.effects && eff.fluent == f && Eval(eff.value, s.assignment, p.functions) == Some(v) {
        CoveredTakes(p, start, d, s, eff.value);
        EffectReached(p, start, d, e, eff, v);
      }
    }
    var next := d + 1;
    forall a: nat | a < |p.actions| ensures CoversAction(p, start, next, s'.todo, a) {
      if a == e.0 {
        ExtraReached(p, start, d, s, e);
      } else {
        assert CoversAction(p, start, d, s.todo, a);
      }
    }
  }

  lemma AppliedLength(p: Problem, effects: seq<Effect>, s: Assignment, acc: Assignment)
    requires Apply(p, effects, s, acc).Some? && |acc| == 0
    ensures |Apply(p, effects, s, acc).value| == 0
  {
  }

  lemma ExtraReached(p: Problem, start: Start, d: nat, s: State, e: EventId)
    requires WellFormed(p) && Covers(p, start, d, s) && IsEvent(p, e)
    requires OperatorOf(p, e) in GraphOf(p).operators && Enabled(GraphOf(p), start, d, OperatorOf(p, e))
    ensures Reachable(GraphOf(p), start, d + 1, Extra(p, e), TRUE)
  {
    var eff := Effect(Extra(p, e), Const(TRUE));
    assert eff in OperatorOf(p, e).effects by {
      assert OperatorOf(p, e).effects[0] == eff;
    }
    CoveredTakes(p, start, d, s, Const(TRUE));
    EffectReached(p, start, d, e, eff, TRUE);
  }

  // ---- whole runs ----

  /** What an event closes holds when it fires: it is active, and what is active
      holds. */
  lemma EndConditionsHold(
    p: Problem, plan: seq<nat>, s: State, s': State, e: EventId, n: nat, todo: map<nat, (nat, nat)>, opening: Network)
    requires WellFormed(p) && Balanced(p) && Reached(p, plan, s) && ValidState(p, s)
    requires Expands(p, s, s', e, n, todo, opening, false)
    ensures forall c | c in EventOf(p, e).endConditions :: Holds(p, c, s.assignment)
  {
    ReachedSafe(p, plan, s);
    ReachedAccounted(p, plan, s);
    ExpandsAdvances(p, s, s', e, n, todo, opening, false);
    hide Reached, Expands, Balanced, WellFormed, Holds, Advances, Progress, HeldBy, ActiveAfter;
    var rest, mine, mine' := HeldStep(p, s.todo, s'.todo, e, n);
    var ends := EventOf(p, e).endConditions;
    forall c | c in ends ensures Holds(p, c, s.assignment) {
      assert c in multiset(ends) && multiset(ends)[c] <= mine[c];
      assert mine[c] > 0 ==> HeldBy(p, s.todo, s.todo.Keys) == mine + rest;
      assert c in s.active;
    }
  }

  lemma StepCovers(p: Problem, plan: seq<nat>, start: Start, d: nat, s: State, a: nat)
    requires WellFormed(p) && Balanced(p) && Reached(p, plan, s) && ValidState(p, s)
    requires Covers(p, start, d, s) && Begun(p, s.todo) && Step(p, s, a).Some?
    ensures Covers(p, start, d + 1, Step(p, s, a).value) && Begun(p, Step(p, s, a).value.todo)
  {
    var s' := Step(p, s, a).value;
    var e, n, todo, opening := StepExpands(p, s, a);
    EndConditionsHold(p, plan, s, s', e, n, todo, opening);
    StepFacts(p, s, s', e, n, todo, opening);
    hide *;
    EventEnabled(p, start, d, s, e);
    EventCovers(p, start, d, s, s', e);
  }

  // What a step says about the values and the events in progress.
  lemma StepFacts(
    p: Problem, s: State, s': State, e: EventId, n: nat, todo: map<nat, (nat, nat)>, opening: Network)
    requires WellFormed(p) && ValidState(p, s) && Begun(p, s.todo)
    requires Expands(p, s, s', e, n, todo, opening, false) && (opening != {} ==> p.timed != Some(e.0))
    ensures IsEvent(p, e) && Holds(p, EventOf(p, e).condition, s.assignment) && (e.1 == 0 ==> p.timed != Some(e.0))
    ensures Apply(p, EventOf(p, e).effects, s.assignment, s.assignment) == Some(s'.assignment)
    ensures Previous(p, e).1 == LastFired(p, s.todo, e.0) && LastFired(p, s'.todo, e.0) == e.1
    ensures forall a: nat | a < |p.actions| && a != e.0 :: LastFired(p, s'.todo, a) == LastFired(p, s.todo, a)
    ensures Begun(p, s'.todo)
  {
    hide PastEdges, TodoEdges, OpeningEdges, DurationBounds, Holds;
  }

  lemma ReachedStep(p: Problem, plan: seq<nat>, s: State, a: nat)
    requires WellFormed(p) && Reached(p, plan, s) && ValidState(p, s) && Step(p, s, a).Some?
    ensures Reached(p, plan + [a], Step(p, s, a).value) && ValidState(p, Step(p, s, a).value)
  {
    InitialValid(p);
    StepValid(p, s, a);
    hide Initial, Step, WellFormed, ValidState, Run;
    RunAppend(p, Initial(p).value, plan, a);
  }

  lemma {:induction false} RunCovers(p: Problem, before: seq<nat>, start: Start, d: nat, s: State, plan: seq<nat>)
    requires WellFormed(p) && Balanced(p) && Reached(p, before, s) && ValidState(p, s)
    requires Covers(p, start, d, s) && Begun(p, s.todo) && Run(p, s, plan).Some?
    ensures Covers(p, start, d + |plan|, Run(p, s, plan).value)
    decreases |plan|
  {
    hide Step, Reached, Covers, Begun, WellFormed, ValidState, Balanced;
    if plan != [] {
      StepCovers(p, before, start, d, s, plan[0]);
      ReachedStep(p, before, s, plan[0]);
      RunCovers(p, before + [plan[0]], start, d + 1, Step(p, s, plan[0]).value, plan[1..]);
    }
  }

  /** The search's goal test. */
  predicate IsGoal(p: Problem, s: State) {
    s.todo == map[] && Holds(p, p.goal, s.assignment)
  }

  lemma {:induction false} ExtraGoalsTaken(p: Problem, start: Start, d: nat, todo: map<nat, (nat, nat)>, a: nat)
    requires WellFormed(p) && a <= |p.actions| && todo == map[]
    requires forall b: nat | b < |p.actions| :: CoversAction(p, start, d, todo, b)
    ensures forall c | c in ExtraGoals(p, a) :: Takes(GraphOf(p), start, d, c, Some(TRUE))
    decreases |p.actions| - a
  {
    hide Takes, Reachable, GraphOf;
    if a < |p.actions| {
      var e: EventId := (a, |p.actions[a].events| - 1);
      ExtraInRange(p, e);
      assert CoversAction(p, start, d, todo, a);
      assert GraphOf(p).n == Offset(p, |p.actions|) by {
        GraphSize(p);
      }
      FluentTakes(GraphOf(p), start, d, Extra(p, e));
      ExtraGoalsTaken(p, start, d, todo, a + 1);
    }
  }

  lemma GraphSize(p: Problem)
    requires WellFormed(p)
    ensures GraphOf(p).n == Offset(p, |p.actions|) && GraphOf(p).goals == Split(p.goal) + ExtraGoals(p, 0)
  {
  }

  lemma CoveredGoal(p: Problem, start: Start, d: nat, s: State)
    requires WellFormed(p) && Covers(p, start, d, s) && IsGoal(p, s)
    ensures GoalAt(GraphOf(p), start, d)
  {
    ExtraGoalsTaken(p, start, d, s.todo, 0);
    SplitHolds(p, p.goal, s.assignment);
    GraphSize(p);
    hide Takes, Holds, Covers, WellFormed, GraphOf, Split, ExtraGoals;
    forall c | c in Split(p.goal) ensures Takes(GraphOf(p), start, d, c, Some(TRUE)) {
      CoveredHolds(p, start, d, s, c);
    }
  }

  lemma {:induction false} ReachedBegun(p: Problem, plan: seq<nat>, s: State)
    requires WellFormed(p) && Reached(p, plan, s)
    ensures ValidState(p, s) && |s.assignment| == |p.init| && Begun(p, s.todo)
    decreases |plan|
  {
    if plan == [] {
      InitialValid(p);
      if p.timed.Some? {
        var e, n, todo, opening := InitialExpands(p);
        ExpandsBegun(p, EmptyState(p), s, e, n, todo, opening, true);
      }
    } else {
      var s0 := ReachedLast(p, plan, s);
      StepValid(p, s0, plan[|plan| - 1]);
      var e, n, todo, opening := StepExpands(p, s0, plan[|plan| - 1]);
      hide *;
      ReachedBegun(p, plan[..|plan| - 1], s0);
      ExpandsBegun(p, s0, s, e, n, todo, opening, false);
    }
  }

  lemma ExpandsBegun(
    p: Problem, s: State, s': State, e: EventId, n: nat, todo: map<nat, (nat, nat)>, opening: Network, pinned: bool)
    requires WellFormed(p) && ValidState(p, s) && |s.assignment| == |p.init| && Begun(p, s.todo)
    requires Expands(p, s, s', e, n, todo, opening, pinned)
    ensures |s'.assignment| == |p.init| && Begun(p, s'.todo)
  {
    hide PastEdges, TodoEdges, OpeningEdges, DurationBounds, Holds;
    AppliedLengths(p, EventOf(p, e).effects, s.assignment, s.assignment);
  }

  lemma {:induction false} AppliedLengths(p: Problem, effects: seq<Effect>, s: Assignment, acc: Assignment)
    requires Apply(p, effects, s, acc).Some?
    ensures |Apply(p, effects, s, acc).value| == |acc|
  {
    if effects != [] {
      AppliedLengths(p, effects[1..], s, acc[effects[0].fluent := Eval(effects[0].value, s, p.functions).value]);
    }
  }

  /** The heuristic is safe and admissible: from any reached state, a run of `k`
      events to a goal state puts the goals in layer `k`. */
  lemma RunsAreLayered(p: Problem, before: seq<nat>, s: State, plan: seq<nat>)
    requires WellFormed(p) && Balanced(p) && Reached(p, before, s) && ValidState(p, s)
    requires Run(p, s, plan).Some? && IsGoal(p, Run(p, s, plan).value)
    ensures GoalAt(GraphOf(p), StartOf(p, s), |plan|)
  {
    hide *;
    var (start, s') := (StartOf(p, s), Run(p, s, plan).value);
    ReachedCovers(p, before, s);
    RunCovers(p, before, start, 0, s, plan);
    CoveredGoal(p, start, |plan|, s');
  }

  lemma ReachedCovers(p: Problem, plan: seq<nat>, s: State)
    requires WellFormed(p) && Reached(p, plan, s)
    ensures Begun(p, s.todo) && Covers(p, StartOf(p, s), 0, s)
  {
    hide *;
    ReachedBegun(p, plan, s);
    StartCovers(p, s);
  }

  /** ... so its answer is at most `k`, and 0 in a goal state. */
  lemma DepthIsAdmissible(p: Problem, before: seq<nat>, s: State, plan: seq<nat>, d: nat)
    requires WellFormed(p) && Balanced(p) && Reached(p, before, s) && ValidState(p, s)
    requires Run(p, s, plan).Some? && IsGoal(p, Run(p, s, plan).value)
    requires IsDepth(GraphOf(p), StartOf(p, s), d)
    ensures d <= |plan|
  {
    hide *;
    RunsAreLayered(p, before, s, plan);
    DepthIsFirst(GraphOf(p), StartOf(p, s), d, |plan|);
  }

  lemma DepthIsFirst(g: Graph, start: Start, d: nat, k: nat)
    requires IsDepth(g, start, d) && GoalAt(g, start, k)
    ensures d <= k
  {
  }

  // ---- the task is well formed ----

  ghost predicate Scoped(n: nat, es: seq<Expr>) {
    forall e | e in es :: Within(n, e)
  }

  /** The expressions of the problem read fluents that exist. */
  ghost predicate InScope(p: Problem) {
    && Within(|p.init|, p.goal)
    && forall a, i: nat | 0 <= a < |p.actions| && i < |p.actions[a].events| :: EventInScope(|p.init|, EventOf(p, (a, i)))
  }

  ghost predicate EventInScope(n: nat, e: Event) {
    && Within(n, e.condition) && Scoped(n, e.endConditions)
    && forall eff | eff in e.effects :: eff.fluent < n && Within(n, eff.value)
  }

  lemma SplitScoped(n: nat, e: Expr)
    requires Within(n, e)
    ensures Scoped(n, Split(e))
  {
    if e.And? {
      assert Fluents(e) == AllFluents(e.args);
      forall c | c in e.args ensures Within(n, c) {
        MemberReads(e.args, c);
      }
    }
  }

  lemma {:induction false} SplitAllScoped(n: nat, es: seq<Expr>)
    requires Scoped(n, es)
    ensures Scoped(n, SplitAll(es))
  {
    if es != [] {
      SplitScoped(n, es[0]);
      SplitAllScoped(n, es[1..]);
    }
  }

  // What `WellFormedGraph` asks of an operator.
  ghost predicate OperatorScoped(n: nat, o: Operator) {
    && Scoped(n, o.conditions)
    && (exists c :: c in o.conditions && Fluents(c) != {})
    && forall e | e in o.effects :: e.fluent < n && Within(n, e.value)
  }

  lemma OperatorOfScoped(p: Problem, e: EventId)
    requires IsEvent(p, e) && EventInScope(|p.init|, EventOf(p, e))
    ensures OperatorScoped(Offset(p, |p.actions|), OperatorOf(p, e))
  {
    var (n, o) := (|p.init|, OperatorOf(p, e));
    ExtraInRange(p, e);
    ExtraInRange(p, Previous(p, e));
    SplitScoped(n, EventOf(p, e).condition);
    DistinctSame(Split(EventOf(p, e).condition) + EventOf(p, e).endConditions);
    SplitAllScoped(n, EventConditions(EventOf(p, e)));
    assert o.conditions[0] == Fluent(Extra(p, Previous(p, e))) && o.conditions[0] in o.conditions;
    assert Fluents(o.conditions[0]) == {Extra(p, Previous(p, e))};
  }

  lemma {:induction false} OperatorsFromScoped(p: Problem, a: nat, i: nat)
    requires InScope(p) && a < |p.actions| && i <= |p.actions[a].events|
    ensures forall o | o in OperatorsFrom(p, a, i) :: OperatorScoped(Offset(p, |p.actions|), o)
    decreases |p.actions[a].events| - i
  {
    hide OperatorScoped, OperatorOf, Included, EventInScope, Offset;
    if i < |p.actions[a].events| {
      OperatorOfScoped(p, (a, i));
      OperatorsFromScoped(p, a, i + 1);
    }
  }

  lemma {:induction false} AllOperatorsScoped(p: Problem, a: nat)
    requires InScope(p) && a <= |p.actions|
    ensures forall o | o in AllOperators(p, a) :: OperatorScoped(Offset(p, |p.actions|), o)
    decreases |p.actions| - a
  {
    hide OperatorScoped, Offset, InScope;
    if a < |p.actions| {
      OperatorsFromScoped(p, a, 0);
      AllOperatorsScoped(p, a + 1);
    }
  }

  lemma {:induction false} ExtraGoalsScoped(p: Problem, a: nat)
    requires WellFormed(p) && a <= |p.actions|
    ensures Scoped(Offset(p, |p.actions|), ExtraGoals(p, a))
    decreases |p.actions| - a
  {
    if a < |p.actions| {
      ExtraInRange(p, (a, |p.actions[a].events| - 1));
      ExtraGoalsScoped(p, a + 1);
    }
  }

  /** `HMaxExplicit` can be built for the problem. */
  lemma GraphIsWellFormed(p: Problem)
    requires WellFormed(p) && InScope(p)
    ensures WellFormedGraph(GraphOf(p))
  {
    AllOperatorsScoped(p, 0);
    ExtraGoalsScoped(p, 0);
    SplitScoped(|p.init|, p.goal);
    OffsetGrows(p, 0, |p.actions|);
    hide WellFormed, InScope, AllOperators, ExtraGoals, Split;
    forall o | o in GraphOf(p).operators ensures OperatorScoped(GraphOf(p).n, o) {
    }
  }
}
