/**
 The makespan of a state is the earliest time of its last event.  As long as no
 action can last a negative time it is also the least distance of that event from
 the plan's start.
*/
module Makespan {
  import opened Options
  import opened Expr
  import opened Temporal
  import opened TwoEdges
  import opened ReachedStates
  import Stn

  function LastAt(path: Path, t: Schedule): int {
    if path == [] then 0 else t(At(path[|path| - 1]))
  }

  /** `makespan`: read off the earliest schedule of the state's network. */
  ghost predicate IsMakespan(s: State, m: int) {
    exists t: Schedule :: Stn.Earliest(t, s.network) && m == LastAt(s.path, t)
  }

  predicate LastsNonNegative(p: Problem, a: nat, s: Assignment)
    requires a < |p.actions|
  {
    match DurationBounds(p, a, s)
    case Some(bounds) => bounds.0 >= 0
    case None => true
  }

  /** Wherever the search opens an action, its least duration is not negative. */
  ghost predicate NonNegativeDurations(p: Problem)
    requires WellFormed(p)
  {
    && (p.timed.Some? ==> LastsNonNegative(p, p.timed.value, p.init))
    && forall plan: seq<nat>, s: State, a: nat |
         Reached(p, plan, s) && ValidState(p, s) && a !in s.todo && Step(p, s, a).Some? ::
         LastsNonNegative(p, a, s.assignment)
  }

  // The plan's end is treated apart: only an action that ends pushes it.
  predicate NotBefore(v: Timepoint, t: Schedule) {
    v == PlanEnd || t(PlanStart) <= t(v)
  }

  ghost predicate NoneBefore(net: Network, t: Schedule) {
    forall c | c in net :: NotBefore(c.src, t) && NotBefore(c.dst, t)
  }

  lemma NoneBeforeUnion(m: Network, n: Network, t: Schedule)
    requires NoneBefore(m, t) && NoneBefore(n, t)
    ensures NoneBefore(m + n, t)
  {
  }

  lemma {:induction false} PastNotBefore(
    p: Problem, path: Path, e: EventId, at: Timepoint, predecessor: bool, t: Schedule)
    requires IsPath(p, path) && IsEvent(p, e) && t(PlanStart) <= t(at)
    requires forall x | x in path :: t(PlanStart) <= t(At(x))
    ensures NoneBefore(PastEdges(p, path, e, at, predecessor), t)
  {
    hide Mutex;
    if path != [] {
      assert path[|path| - 1] in path;
      PastNotBefore(p, path[..|path| - 1], e, at, false, t);
    }
  }

  lemma TodoNotBefore(p: Problem, todo: map<nat, (nat, nat)>, e: EventId, at: Timepoint, t: Schedule)
    requires IsTodo(p, todo) && IsEvent(p, e) && t(PlanStart) <= t(at)
    requires PendingAfterStart(p, todo, t)
    ensures NoneBefore(TodoEdges(p, todo, e, at), t)
  {
    hide GapFor;
    forall c | c in TodoEdges(p, todo, e, at) ensures NotBefore(c.src, t) && NotBefore(c.dst, t) {
      var a, j :| a in todo && todo[a].0 <= j < |p.actions[a].events|
        && c == Before(at, EventAt(a, j, todo[a].1), GapFor(p, e, (a, j)));
    }
  }

  lemma OpeningNotBefore(p: Problem, a: nat, n: nat, bounds: (int, int), pinned: bool, t: Schedule)
    requires WellFormed(p) && a < |p.actions| && bounds.0 >= 0
    requires Stn.Satisfies(t, OpeningEdges(p, a, n, bounds, pinned))
    requires forall j: nat | j < |p.actions[a].events| :: t(PlanStart) <= t(EventAt(a, j, n))
    ensures NoneBefore(OpeningEdges(p, a, n, bounds, pinned), t) && t(PlanStart) <= t(PlanEnd)
  {
    var net := OpeningEdges(p, a, n, bounds, pinned);
    assert Before(PlanStart, ActionStart(a, n), 0) in net;
    assert Before(ActionStart(a, n), ActionEnd(a, n), bounds.0) in net;
    assert Before(ActionEnd(a, n), PlanEnd, p.epsilon) in net;
    assert t(PlanStart) <= t(ActionStart(a, n)) <= t(ActionEnd(a, n)) <= t(PlanEnd);
  }

  /** Nothing the network mentions comes before the plan's start. */
  ghost predicate StartsFirst(s: State, t: Schedule) {
    && NoneBefore(s.network, t)
    && (s.instances > 0 ==> t(PlanStart) <= t(PlanEnd))
  }

  // All events of a newly opened action come after the plan's start.
  lemma OpenedNotBefore(
    p: Problem, s: State, s': State, e: EventId, n: nat, todo: map<nat, (nat, nat)>, opening: Network, pinned: bool,
    t: Schedule)
    requires WellFormed(p) && ValidState(p, s) && ValidState(p, s')
    requires Expands(p, s, s', e, n, todo, opening, pinned) && opening != {} && s'.todo == todo
    requires LastsNonNegative(p, e.0, s.assignment)
    requires Stn.Satisfies(t, opening) && AfterStart(p, s', t) && t(PlanStart) <= t(EventAt(e.0, e.1, n))
    ensures NoneBefore(opening, t) && t(PlanStart) <= t(PlanEnd)
  {
    var bounds := DurationBounds(p, e.0, s.assignment).value;
    assert bounds.0 >= 0;
    hide DurationBounds, Applicable, Expand, OpeningEdges, NoneBefore, WellFormed;
    forall j: nat | j < |p.actions[e.0].events| ensures t(PlanStart) <= t(EventAt(e.0, j, n)) {
      if j > 0 {
        assert todo[e.0] == (1, n) && e.0 in s'.todo;
      }
    }
    OpeningNotBefore(p, e.0, n, bounds, pinned, t);
  }

  lemma NetworkNotBefore(
    p: Problem, s: State, e: EventId, at: Timepoint, todo: map<nat, (nat, nat)>, opening: Network, t: Schedule)
    requires ValidState(p, s) && IsEvent(p, e) && IsTodo(p, todo)
    requires NoneBefore(s.network, t) && NoneBefore(opening, t) && t(PlanStart) <= t(at)
    requires PendingAfterStart(p, todo, t) && forall x | x in s.path :: t(PlanStart) <= t(At(x))
    ensures NoneBefore(s.network + opening + PastEdges(p, s.path, e, at, true) + TodoEdges(p, todo, e, at), t)
  {
    PastNotBefore(p, s.path, e, at, true, t);
    TodoNotBefore(p, todo, e, at, t);
    hide *;
    NoneBeforeUnion(s.network, opening, t);
    NoneBeforeUnion(s.network + opening, PastEdges(p, s.path, e, at, true), t);
    NoneBeforeUnion(s.network + opening + PastEdges(p, s.path, e, at, true), TodoEdges(p, todo, e, at), t);
  }

  lemma ExpandsStartsFirst(
    p: Problem, s: State, s': State, e: EventId, n: nat, todo: map<nat, (nat, nat)>, opening: Network, pinned: bool,
    t: Schedule)
    requires WellFormed(p) && ValidState(p, s) && ValidState(p, s') && Shaped(p, s)
    requires Expands(p, s, s', e, n, todo, opening, pinned) && Stn.Satisfies(t, s'.network)
    requires opening != {} ==> LastsNonNegative(p, e.0, s.assignment)
    requires StartsFirst(s, t) && AfterStart(p, s, t) && AfterStart(p, s', t)
    ensures StartsFirst(s', t)
  {
    var at := EventAt(e.0, e.1, n);
    assert opening == {} ==> e.0 in s.todo && s.instances > 0;
    hide DurationBounds, LastsNonNegative, Applicable, OpeningEdges, NoneBefore, WellFormed, Fire, PastEdges, TodoEdges;
    assert t(PlanStart) <= t(at) by {
      assert s'.path[|s.path|] == (e.0, e.1, n);
      assert (e.0, e.1, n) in s'.path;
    }
    if opening != {} {
      OpenedNotBefore(p, s, s', e, n, todo, opening, pinned, t);
    } else {
      NoneBeforeNothing(t);
    }
    NetworkNotBefore(p, s, e, at, todo, opening, t);
  }

  lemma NoneBeforeNothing(t: Schedule)
    ensures NoneBefore({}, t)
  {
  }

  lemma EmptyStartsFirst(p: Problem, t: Schedule)
    ensures StartsFirst(EmptyState(p), t)
  {
  }

  lemma {:induction false} ReachedStartsFirst(p: Problem, plan: seq<nat>, s: State, t: Schedule)
    requires WellFormed(p) && NonNegativeDurations(p) && Reached(p, plan, s) && Stn.Satisfies(t, s.network)
    ensures StartsFirst(s, t)
    decreases |plan|
  {
    ReachedShaped(p, plan, s);
    ReachedAfterStart(p, plan, s, t);
    if plan == [] {
      EmptyStartsFirst(p, t);
      EmptyShaped(p);
      if p.timed.Some? {
        var e, n, todo, opening := InitialExpands(p);
        hide Shaped, WellFormed, StartsFirst, NonNegativeDurations, Initial, TimedPinned;
        ExpandsStartsFirst(p, EmptyState(p), s, e, n, todo, opening, true, t);
      }
    } else {
      var s0 := ReachedLast(p, plan, s);
      var e, n, todo, opening := StepExpands(p, s0, plan[|plan| - 1]);
      ExpandsMore(p, s0, s, e, n, todo, opening);
      assert opening != {} ==> LastsNonNegative(p, e.0, s0.assignment) by {
        OpensNonNegative(p, plan, s0, s, e, n, todo, opening);
      }
      hide *;
      ReachedShaped(p, plan[..|plan| - 1], s0);
      SatisfiesLess(t, s0.network, s.network);
      ReachedAfterStart(p, plan[..|plan| - 1], s0, t);
      ReachedStartsFirst(p, plan[..|plan| - 1], s0, t);
      ExpandsStartsFirst(p, s0, s, e, n, todo, opening, false, t);
    }
  }

  lemma OpensNonNegative(
    p: Problem, plan: seq<nat>, s0: State, s: State, e: EventId, n: nat, todo: map<nat, (nat, nat)>, opening: Network)
    requires WellFormed(p) && NonNegativeDurations(p) && plan != [] && Reached(p, plan[..|plan| - 1], s0)
    requires ValidState(p, s0) && Step(p, s0, plan[|plan| - 1]) == Some(s) && e.0 == plan[|plan| - 1]
    requires Expands(p, s0, s, e, n, todo, opening, false)
    ensures opening != {} ==> LastsNonNegative(p, e.0, s0.assignment)
  {
    hide Reached, Step, Expand, Applicable, DurationBounds, OpeningEdges, WellFormed, ValidState, LastsNonNegative;
  }

  lemma ExpandsMore(
    p: Problem, s: State, s': State, e: EventId, n: nat, todo: map<nat, (nat, nat)>, opening: Network)
    requires WellFormed(p) && ValidState(p, s) && Expands(p, s, s', e, n, todo, opening, false)
    ensures s.network <= s'.network
  {
  }

  lemma SatisfiesLess(t: Schedule, m: Network, n: Network)
    requires m <= n && Stn.Satisfies(t, n)
    ensures Stn.Satisfies(t, m)
  {
  }

  /** No schedule puts the last event closer to the plan's start than the
      makespan. */
  lemma MakespanIsLeast(p: Problem, plan: seq<nat>, s: State, m: int, t: Schedule)
    requires WellFormed(p) && NonNegativeDurations(p) && Reached(p, plan, s) && IsMakespan(s, m)
    requires Stn.Satisfies(t, s.network)
    ensures s.path != [] ==> m <= t(At(s.path[|s.path| - 1])) - t(PlanStart)
  {
    ReachedStartsFirst(p, plan, s, t);
    ReachedShaped(p, plan, s);
    ReachedAfterStart(p, plan, s, t);
    if s.path != [] {
      var last := s.path[|s.path| - 1];
      assert last in s.path;
      assert s.instances > 0 && t(PlanStart) <= t(At(last));
      // `t` from the plan's start on, and 0 where the network says nothing
      var u: Schedule := v => if t(v) < t(PlanStart) then 0 else t(v) - t(PlanStart);
      hide Reached, AfterStart, Shaped, TimedPinned, WellFormed;
      forall c | c in s.network ensures Stn.Respects(u, c) {
        assert NotBefore(c.src, t) && NotBefore(c.dst, t);
      }
      assert Stn.NonNegative(u);
      var d :| Stn.Earliest(d, s.network) && m == LastAt(s.path, d);
      assert d(At(last)) <= u(At(last));
    }
  }

  // ---- durations that depend on the state ----

  /** An action that lasts as long as fluent 0 says, which grows each time it runs. */
  function Growing(): Problem {
    var time := Expr.Fluent(0);
    var event := Event(Timing(true, 0), Const(TRUE), [], [], [Effect(0, Plus([time, Const(NumV(1.0))]))]);
    Problem([Action([event], Some(Duration(time, time, false, false)))], [NumV(3.0)], Const(TRUE),
            (f: nat, vs: seq<Value>) => None, 1, None, None)
  }

  // The fluent is at least 3.
  predicate Grown(s: Assignment) {
    |s| == 1 && s[0].NumV? && s[0].n >= 3.0
  }

  lemma GrowsMore(s: Assignment)
    requires Grown(s)
    ensures var r := Apply(Growing(), EventOf(Growing(), (0, 0)).effects, s, s); r.Some? && Grown(r.value)
  {
    var p := Growing();
    var (effects, es) := (EventOf(p, (0, 0)).effects, [Expr.Fluent(0), Const(NumV(1.0))]);
    assert Eval(es[0], s, p.functions) == Some(s[0]) && Eval(es[1], s, p.functions) == Some(NumV(1.0));
    assert es[1..] == [es[1]] && es[1..][1..] == [];
    var (one, vals) := ([NumV(1.0)], [s[0], NumV(1.0)]);
    assert one == [NumV(1.0)] + [] && vals == [s[0]] + one;
    assert EvalAll(es[1..][1..], s, p.functions) == Some([]);
    assert EvalAll(es[1..], s, p.functions) == Some(one) && EvalAll(es, s, p.functions) == Some(vals);
    assert vals[..1] == [s[0]] && SumOf([s[0]]) == Some(s[0]);
    assert SumOf(vals) == Some(NumV(s[0].n + 1.0));
    assert effects[1..] == [];
  }

  lemma {:induction false} ReachedGrown(plan: seq<nat>, s: State)
    requires Reached(Growing(), plan, s)
    ensures Grown(s.assignment)
    decreases |plan|
  {
    var p := Growing();
    if plan != [] {
      var s0 := ReachedLast(p, plan, s);
      var e, n, todo, opening := StepExpands(p, s0, plan[|plan| - 1]);
      ReachedGrown(plan[..|plan| - 1], s0);
      GrowsMore(s0.assignment);
      assert e == (0, 0);
      hide Reached, Step, PastEdges, TodoEdges, OpeningEdges, DurationBounds, Applicable;
    }
  }

  lemma GrownLasts(s: Assignment)
    requires |s| == 1 && s[0].NumV?
    ensures DurationBounds(Growing(), 0, s) == match Ticks(Some(s[0]))
      case Some(d) => Some((d, d))
      case None => None
    ensures Grown(s) ==> LastsNonNegative(Growing(), 0, s)
  {
    assert Eval(Expr.Fluent(0), s, Growing().functions) == Some(s[0]);
  }

  /** Durations may depend on the state: what counts is where actions open. */
  lemma StateDependentDurations()
    ensures WellFormed(Growing()) && NonNegativeDurations(Growing())
    ensures DurationBounds(Growing(), 0, Growing().init) == Some((3, 3))
    ensures DurationBounds(Growing(), 0, [NumV(-5.0)]) == Some((-5, -5))
  {
    var p := Growing();
    assert (3.0).Floor == 3 && (-5.0).Floor == -5;
    GrownLasts(p.init);
    GrownLasts([NumV(-5.0)]);
    assert |p.actions| == 1 && p.timed.None? && WellFormed(p);
    hide Reached, Step, DurationBounds, LastsNonNegative, Grown, Growing, WellFormed, ValidState;
    forall plan: seq<nat>, s: State, a: nat |
      Reached(p, plan, s) && ValidState(p, s) && a !in s.todo && Step(p, s, a).Some?
      ensures LastsNonNegative(p, a, s.assignment)
    {
      ReachedGrown(plan, s);
      StepInRange(p, s, a);
      GrownIsNumber(s.assignment);
      GrownLasts(s.assignment);
    }
  }

  lemma StepInRange(p: Problem, s: State, a: nat)
    requires WellFormed(p) && ValidState(p, s) && Step(p, s, a).Some?
    ensures a < |p.actions|
  {
  }

  lemma GrownIsNumber(s: Assignment)
    requires Grown(s)
    ensures |s| == 1 && s[0].NumV?
  {
  }
}
