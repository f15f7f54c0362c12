/**
 The class `DeleteRelaxationHeuristic` of `heuristics.rs`: what it builds once, and what
 it answers for a state.
*/
module RelaxationHeuristic {
  import opened Collections
  import opened Options
  import opened Expr
  import opened Temporal
  import opened HeuristicConditions
  import opened ActiveConditions
  import opened RelaxedRuns
  import opened RelaxedTasks
  import opened RelaxedLeaves
  import opened RelaxedTruth
  import opened RelaxedEvents
  import opened DeleteRelaxation
  import opened RelaxedExact
  import C = Costs
  import F = Fixpoint
  import R = Relaxation
  import RP = RelaxedPlan

  datatype Outcome = Raised | DeadEnd | Estimate(n: nat)

  function EventsLen(p: Problem): map<nat, nat> {
    map a | 0 <= a < |p.actions| :: |p.actions[a].events|
  }

  function EventsLeft(p: Problem, s: Snapshot): map<nat, nat>
    requires Begun(p, s.todo)
  {
    map a | a in s.todo :: |p.actions[a].events| - s.todo[a].0
  }

  function Times(plan: seq<nat>, a: nat): nat {
    if plan == [] then 0 else (if plan[0] == a then 1 else 0) + Times(plan[1..], a)
  }

  // The events an action in progress still has to fire.
  function Left(p: Problem, todo: map<nat, (nat, nat)>, a: nat): int
    requires a < |p.actions|
  {
    if a in todo then |p.actions[a].events| - todo[a].0 else 0
  }

  lemma StepCounts(p: Problem, s: State, b: nat, a: nat)
    requires WellFormed(p) && ValidState(p, s) && Step(p, s, b).Some? && a < |p.actions| && Begun(p, s.todo)
    ensures Begun(p, Step(p, s, b).value.todo)
    ensures Left(p, Step(p, s, b).value.todo, a) == Left(p, s.todo, a)
              - (if a == b then 1 else 0) + (if a == b && a !in s.todo then |p.actions[a].events| else 0)
  {
    var e, n, todo, opening := StepExpands(p, s, b);
    hide Fire, Applicable, PastEdges, TodoEdges, OpeningEdges, DurationBounds, Step;
  }

  lemma MoreTimes(k: int, n: int)
    ensures (k + 1) * n == k * n + n
  {
  }

  /** In a run that completes every action, an action occurs as often as it has events
      left, and once more for each of its events every time it is opened. */
  lemma {:induction false} EventsCounted(p: Problem, s: State, plan: seq<nat>, a: nat) returns (openings: nat)
    requires WellFormed(p) && ValidState(p, s) && Begun(p, s.todo) && a < |p.actions|
    requires Run(p, s, plan).Some? && Run(p, s, plan).value.todo == map[]
    ensures Times(plan, a) == (if a in EventsLeft(p, Snapshot(s.assignment, s.todo))
                               then EventsLeft(p, Snapshot(s.assignment, s.todo))[a] else 0)
                            + openings * EventsLen(p)[a]
    decreases |plan|
  {
    openings := 0;
    if plan != [] {
      var s' := Step(p, s, plan[0]).value;
      StepValid(p, s, plan[0]);
      StepCounts(p, s, plan[0], a);
      hide Step, Begun, ValidState, WellFormed;
      openings := EventsCounted(p, s', plan[1..], a);
      if plan[0] == a && a !in s.todo {
        MoreTimes(openings, |p.actions[a].events|);
        openings := openings + 1;
      }
    }
  }

  /** The value the relaxation gives the state. */
  ghost function RelaxedValue(h: Source, t: R.Task, s: Snapshot): Option<nat>
    requires t.ops != [] && Begun(h.p, s.todo)
  {
    if h.cfg.kind.HFF? then RP.HffValue(t, R.Value(t), EventsLen(h.p), EventsLeft(h.p, s))
    else match R.Pre(t, t.Goal(), R.Value(t))
      case Fin(n) => Some(n)
      case Inf => None
  }

  /** What the fix-point answers: that value, or, when the heap has to be drained, one that
      is no larger and is missing or zero only if that value is. */
  ghost predicate Answers(h: Source, t: R.Task, s: Snapshot, v: Option<nat>)
    requires t.ops != [] && Begun(h.p, s.todo)
  {
    var exact := RelaxedValue(h, t, s);
    && (F.SingleAchievers(t) ==> v == exact)
    && (v.Some? <==> exact.Some?) && (v == Some(0) <==> exact == Some(0))
    && (v.Some? ==> v.value <= exact.value)
  }

  function OutcomeOf(v: Option<nat>): Outcome {
    if v.Some? then Estimate(v.value) else DeadEnd
  }

  lemma {:induction false} SumNothing(f: map<nat, nat>)
    ensures RP.SumOver({}, f) == 0
  {
  }

  /** What the heuristic answers about a reached state, whenever it answers. */
  lemma ValueIsSafe(h: Source, before: seq<nat>, s: State, plan: seq<nat>, t: R.Task)
    requires Encodable(h) && Balanced(h.p) && Reached(h.p, before, s) && ValidState(h.p, s) && Begun(h.p, s.todo)
    requires TaskOf(h, Full(h.p, SnapshotOf(s))) == Some(t) && t.ops != []
    requires Run(h.p, s, plan).Some? && IsGoal(h.p, Run(h.p, s, plan).value)
    ensures RelaxedValue(h, t, SnapshotOf(s)).Some?
    ensures plan == [] ==> RelaxedValue(h, t, SnapshotOf(s)) == Some(0)
    ensures h.cfg.kind.HMax? && NonNumeric(h) ==> RelaxedValue(h, t, SnapshotOf(s)).value <= |plan|
  {
    RelaxationIsSafe(h, before, s, plan, t, R.Value(t));
    hide Encodable, Balanced, Reached, ValidState, TaskOf, NonNumeric, R.Pre;
    if plan == [] {
      assert s.todo == map[];
      assert EventsLeft(h.p, SnapshotOf(s)).Keys == {};
      SumNothing(EventsLeft(h.p, SnapshotOf(s)));
    }
  }

  /** The value is missing exactly when no sequence of events, deleting nothing, reaches
      the goal. */
  lemma ValueExact(h: Source, s: Snapshot, t: R.Task)
    requires Encodable(h) && Typed(s.values, h.doms) && Begun(h.p, s.todo) && TaskOf(h, Full(h.p, s)) == Some(t)
    ensures t.ops != [] && WellFormed(h.p)
    ensures RelaxedValue(h, t, s).None? <==> !CanEnd(h, s)
  {
    hide Encodable, Typed, TaskOf, CanEnd, R.Pre, Full;
    GoalExactly(h, s, t, R.Value(t));
  }

  /** An action is reached exactly when it has operators and their events can all fire. */
  lemma ReachedExact(h: Source, s: Snapshot, t: R.Task, a: nat)
    requires Encodable(h) && Typed(s.values, h.doms) && TaskOf(h, Full(h.p, s)) == Some(t)
    requires |t.ops| == |OperatorsOf(h.p, 0)| + 1
    ensures IsReached(OperatorsOf(h.p, 0), t, a) <==> CanComplete(h, s, a)
  {
    var es := OperatorsOf(h.p, 0);
    forall o: nat | o < |es| ensures R.Pre(t, o, R.Value(t)).Fin? <==> CanFireSometime(h, s, es[o]) {
      hide Encodable, Typed, TaskOf, OperatorsOf, R.Pre, CanFireSometime, Full;
      OperatorExactly(h, s, t, R.Value(t), o);
    }
    forall e | IsEvent(h.p, e) && HasOperator(h.p, e) ensures e in es {
      OperatorsHave(h.p, 0, e);
    }
    assert forall e | e in es :: IsEvent(h.p, e) && HasOperator(h.p, e);
    hide *;
    if IsReached(es, t, a) {
      ReachedCompletes(h, s, t, a, es);
    }
    if CanComplete(h, s, a) {
      CompleteReached(h, s, t, a, es);
    }
  }

  lemma ReachedCompletes(h: Source, s: Snapshot, t: R.Task, a: nat, es: seq<EventId>)
    requires |t.ops| == |es| + 1 && IsReached(es, t, a)
    requires forall e | e in es :: IsEvent(h.p, e) && HasOperator(h.p, e)
    requires forall e | IsEvent(h.p, e) && HasOperator(h.p, e) :: e in es
    requires forall o: nat | o < |es| :: R.Pre(t, o, R.Value(t)).Fin? <==> CanFireSometime(h, s, es[o])
    ensures CanComplete(h, s, a)
  {
    hide CanFireSometime, R.Pre, HasOperator, R.Value;
    forall e: EventId | IsEvent(h.p, e) && e.0 == a && HasOperator(h.p, e) ensures CanFireSometime(h, s, e) {
      var o :| 0 <= o < |es| && es[o] == e;
    }
    var o :| 0 <= o < |es| && es[o].0 == a;
    assert es[o] in es;
  }

  lemma CompleteReached(h: Source, s: Snapshot, t: R.Task, a: nat, es: seq<EventId>)
    requires |t.ops| == |es| + 1 && CanComplete(h, s, a)
    requires forall e | e in es :: IsEvent(h.p, e) && HasOperator(h.p, e)
    requires forall e | IsEvent(h.p, e) && HasOperator(h.p, e) :: e in es
    requires forall o: nat | o < |es| :: R.Pre(t, o, R.Value(t)).Fin? <==> CanFireSometime(h, s, es[o])
    ensures IsReached(es, t, a)
  {
    hide CanFireSometime, R.Pre, HasOperator, R.Value;
    forall o | 0 <= o < |es| && es[o].0 == a ensures R.Pre(t, o, R.Value(t)).Fin? {
      assert es[o] in es;
    }
    var e: EventId :| IsEvent(h.p, e) && e.0 == a && HasOperator(h.p, e);
    var o :| 0 <= o < |es| && es[o] == e;
  }

  /** The action has events that are not known false, and each of them can fire sometime,
      deleting nothing. */
  ghost predicate CanComplete(h: Source, s: Snapshot, a: nat) {
    && (exists e: EventId :: IsEvent(h.p, e) && e.0 == a && HasOperator(h.p, e))
    && forall e: EventId | IsEvent(h.p, e) && e.0 == a && HasOperator(h.p, e) :: CanFireSometime(h, s, e)
  }

  /** Left out are only events with the condition FALSE, and the start of the timed action. */
  lemma OperatorIsLeftOut(p: Problem, e: EventId)
    requires IsEvent(p, e)
    ensures HasOperator(p, e) <==>
              && FALSE !in Split(EventOf(p, e).condition) && FALSE !in EventOf(p, e).endConditions
              && !(e.1 == 0 && p.timed == Some(e.0))
  {
    DistinctSame(Split(EventOf(p, e).condition) + EventOf(p, e).endConditions);
  }

  // The operators below `n` of action `a`, and those of them in `os`.
  ghost function OfAction(es: seq<EventId>, n: nat, a: nat): set<nat> {
    set o | 0 <= o < n && o < |es| && es[o].0 == a
  }

  ghost predicate Counts(m: map<nat, nat>, es: seq<EventId>, os: seq<nat>) {
    forall a: nat :: (if a in m then m[a] else 0) == |Chosen(es, os, a)|
  }

  ghost function Chosen(es: seq<EventId>, os: seq<nat>, a: nat): set<nat> {
    set o | o in os && o < |es| && es[o].0 == a
  }

  lemma ChosenMore(es: seq<EventId>, os: seq<nat>, o: nat, a: nat)
    requires o < |es| && o !in os
    ensures |Chosen(es, os + [o], a)| == |Chosen(es, os, a)| + if es[o].0 == a then 1 else 0
  {
    assert Chosen(es, os + [o], a) == Chosen(es, os, a) + if es[o].0 == a then {o} else {};
  }

  /** Counts the operators `os` by action. */
  method CountByAction(es: seq<EventId>, os: seq<nat>) returns (m: map<nat, nat>)
    requires forall o | o in os :: o < |es|
    requires forall i, j | 0 <= i < j < |os| :: os[i] != os[j]
    ensures Counts(m, es, os)
    ensures forall a | a in m :: m[a] > 0
  {
    m := map[];
    assert forall a: nat :: Chosen(es, os[..0], a) == {};
    for i := 0 to |os|
      invariant Counts(m, es, os[..i])
      invariant forall a | a in m :: m[a] > 0
    {
      assert os[i] in os;
      var (o, a) := (os[i], es[os[i]].0);
      assert o !in os[..i];
      assert os[..i + 1] == os[..i] + [o];
      forall b: nat ensures |Chosen(es, os[..i + 1], b)| == |Chosen(es, os[..i], b)| + if es[o].0 == b then 1 else 0 {
        ChosenMore(es, os[..i], o, b);
      }
      m := m[a := (if a in m then m[a] else 0) + 1];
    }
    assert os[..|os|] == os;
  }

  lemma {:induction false} SubsetFull(x: set<nat>, y: set<nat>)
    requires x <= y && |x| == |y|
    ensures x == y
  {
    assert |y| == |x| + |y - x|;
    assert |y - x| == 0 && y == x + (y - x);
  }

  /** All of an action's operators are among `os`, and it has one. */
  ghost predicate AllChosen(es: seq<EventId>, os: seq<nat>, a: nat) {
    && (exists o :: 0 <= o < |es| && es[o].0 == a)
    && forall o | 0 <= o < |es| && es[o].0 == a :: o in os
  }

  /** The action has operators, and the relaxation reaches them all. */
  ghost predicate IsReached(es: seq<EventId>, t: R.Task, a: nat)
    requires |t.ops| == |es| + 1
  {
    && (exists o :: 0 <= o < |es| && es[o].0 == a)
    && forall o | 0 <= o < |es| && es[o].0 == a :: R.Pre(t, o, R.Value(t)).Fin?
  }

  lemma SameCount(es: seq<EventId>, os: seq<nat>, all: seq<nat>, a: nat)
    requires (forall o | o in os :: o < |es|) && (forall o: nat :: o in all <==> o < |es|)
    ensures |Chosen(es, os, a)| == |Chosen(es, all, a)| && Chosen(es, os, a) != {} <==> AllChosen(es, os, a)
  {
    var (x, y) := (Chosen(es, os, a), Chosen(es, all, a));
    assert x <= y;
    if |x| == |y| && x != {} {
      SubsetFull(x, y);
      var o :| o in x;
      forall q: nat | q < |es| && es[q].0 == a ensures q in os {
        assert q in y;
      }
    }
    if AllChosen(es, os, a) {
      assert x == y;
      var o :| 0 <= o < |es| && es[o].0 == a;
      assert o in x;
    }
  }

  // `cs` are the preconditions of the operators `es`.
  ghost predicate Built(h: Source, es: seq<EventId>, cs: seq<Condition>) {
    |cs| == |es| && forall o | 0 <= o < |es| :: IsEvent(h.p, es[o]) && cs[o] == Prepared(h, Precondition(h.p, es[o]))
  }

  lemma BuiltAppend(h: Source, es: seq<EventId>, cs: seq<Condition>, more: seq<EventId>, conds: seq<Condition>)
    requires Built(h, es, cs) && Built(h, more, conds)
    ensures Built(h, es + more, cs + conds)
  {
    hide Precondition, Prepared;
  }

  lemma BuiltOne(h: Source, es: seq<EventId>, cs: seq<Condition>, e: EventId, c: Condition)
    requires Built(h, es, cs) && IsEvent(h.p, e) && c == Prepared(h, Precondition(h.p, e))
    ensures Built(h, es + [e], cs + [c])
  {
    hide Precondition, Prepared;
  }

  lemma BuiltEnds(h: Source, es: seq<EventId>, cs: seq<Condition>)
    requires es + OperatorsOf(h.p, |h.p.actions|) == OperatorsOf(h.p, 0) && Built(h, es, cs)
    ensures es == OperatorsOf(h.p, 0) && cs == OperatorConditions(h)
  {
    assert OperatorsOf(h.p, |h.p.actions|) == [] && es + [] == es;
    hide Precondition, Prepared;
  }

  lemma OperatorsStep(p: Problem, a: nat, es: seq<EventId>, more: seq<EventId>)
    requires a < |p.actions| && more == EventsFrom(p, a, 0)
    ensures es + OperatorsOf(p, a) == (es + more) + OperatorsOf(p, a + 1)
  {
    assert OperatorsOf(p, a) == more + OperatorsOf(p, a + 1);
    hide OperatorsOf, EventsFrom;
  }

  // The operators of the events of `a` before the `i`-th.
  ghost predicate Building(h: Source, a: nat, i: nat, es: seq<EventId>, cs: seq<Condition>)
    requires a < |h.p.actions| && i <= |h.p.actions[a].events|
  {
    es + EventsFrom(h.p, a, i) == EventsFrom(h.p, a, 0) && Built(h, es, cs)
  }

  lemma BuildingStep(h: Source, a: nat, i: nat, es: seq<EventId>, cs: seq<Condition>)
    requires a < |h.p.actions| && i < |h.p.actions[a].events| && Building(h, a, i, es, cs)
    ensures if HasOperator(h.p, (a, i)) then
              Building(h, a, i + 1, es + [(a, i)], cs + [Prepared(h, Precondition(h.p, (a, i)))])
            else Building(h, a, i + 1, es, cs)
  {
    var e: EventId := (a, i);
    var (head, rest, next) := (if HasOperator(h.p, e) then [e] else [], EventsFrom(h.p, a, i + 1), i + 1);
    assert EventsFrom(h.p, a, i) == head + rest && EventsFrom(h.p, a, next) == rest;
    assert es + (head + rest) == (es + head) + rest && es + [] == es;
    BuiltOne(h, es, cs, e, Prepared(h, Precondition(h.p, e)));
    hide EventsFrom, HasOperator, Built, Prepared, Precondition;
  }

  lemma BuildingEnds(h: Source, a: nat, es: seq<EventId>, cs: seq<Condition>)
    requires a < |h.p.actions| && Building(h, a, |h.p.actions[a].events|, es, cs)
    ensures es == EventsFrom(h.p, a, 0) && Built(h, es, cs)
  {
    assert es + [] == es;
  }

  // `achieved` are the conditions of the operators before `o` and of the first `i`
  // of its own, none of them twice.
  ghost predicate AchievedBefore(t: R.Task, achieved: seq<bool>, o: nat, i: nat) {
    && |achieved| == |t.init|
    && (forall p, j | Seen(t, o, i, p, j) :: t.ops[p].numeric[j].0 < |achieved| && achieved[t.ops[p].numeric[j].0])
    && (forall c | 0 <= c < |achieved| && achieved[c] :: exists p, j :: Seen(t, o, i, p, j) && t.ops[p].numeric[j].0 == c)
    && (forall p, j, p', j' | Seen(t, o, i, p, j) && Seen(t, o, i, p', j')
          && t.ops[p].numeric[j].0 == t.ops[p'].numeric[j'].0 :: p == p' && j == j')
  }

  ghost predicate Seen(t: R.Task, o: nat, i: nat, p: int, j: int) {
    0 <= p < |t.ops| && 0 <= j < |t.ops[p].numeric| && (p < o || (p == o && j < i))
  }

  lemma NextAchieved(t: R.Task, achieved: seq<bool>, o: nat, i: nat)
    requires R.ValidTask(t) && AchievedBefore(t, achieved, o, i) && o < |t.ops| && i < |t.ops[o].numeric| && t.hmax
    ensures var c := t.ops[o].numeric[i].0;
      && c < |achieved|
      && (achieved[c] ==> !F.SingleAchievers(t))
      && (!achieved[c] ==> AchievedBefore(t, achieved[c := true], o, i + 1))
  {
    assert R.ValidOperator(t, t.ops[o]) && t.ops[o].numeric[i] in t.ops[o].numeric;
    var (c, next) := (t.ops[o].numeric[i].0, i + 1);
    assert Seen(t, o, next, o, i);
    if achieved[c] {
      var p, j :| Seen(t, o, i, p, j) && t.ops[p].numeric[j].0 == c;
    } else {
      assert forall p, j :: Seen(t, o, next, p, j) <==> Seen(t, o, i, p, j) || (p == o && j == i);
    }
  }

  lemma NextOperator(t: R.Task, achieved: seq<bool>, o: nat)
    requires o < |t.ops| && AchievedBefore(t, achieved, o, |t.ops[o].numeric|)
    ensures AchievedBefore(t, achieved, o + 1, 0)
  {
    var (n, next) := (|t.ops[o].numeric|, o + 1);
    assert forall p, j :: Seen(t, next, 0, p, j) <==> Seen(t, o, n, p, j);
  }

  lemma AllAchieved(t: R.Task, achieved: seq<bool>)
    requires AchievedBefore(t, achieved, |t.ops|, 0)
    ensures F.SingleAchievers(t)
  {
    assert forall p, j | 0 <= p < |t.ops| && 0 <= j < |t.ops[p].numeric| :: Seen(t, |t.ops|, 0, p, j);
  }

  class DeleteRelaxationHeuristic {
    const h: Source
    const operators: seq<EventId>
    // the preconditions of the operators, then the goal's
    const conditions: seq<Condition>
    const leaves: seq<Expr>

    ghost predicate Valid() {
      && WellFormed(h.p)
      && operators == OperatorsOf(h.p, 0) && conditions == Conditions(h) && leaves == Interned(h)
    }

    constructor (h: Source)
      requires WellFormed(h.p)
      ensures Valid() && this.h == h
    {
      var es, cs := BuildOperators(h);
      this.h := h;
      operators := es;
      conditions := cs + [GoalCondition(h)];
      leaves := Distinct(LeavesOfAll(cs + [Goals(h), Completion(h)]) + FlagFluents(h.p));
    }

    // The operators and their preconditions, action by action.
    static method BuildOperators(h: Source) returns (es: seq<EventId>, cs: seq<Condition>)
      ensures es == OperatorsOf(h.p, 0) && cs == OperatorConditions(h)
    {
      es, cs := [], [];
      assert es + OperatorsOf(h.p, 0) == OperatorsOf(h.p, 0);
      hide OperatorsOf, Built, OperatorConditions;
      for a := 0 to |h.p.actions|
        invariant es + OperatorsOf(h.p, a) == OperatorsOf(h.p, 0)
        invariant Built(h, es, cs)
      {
        var more, conds := BuildAction(h, a);
        OperatorsStep(h.p, a, es, more);
        BuiltAppend(h, es, cs, more, conds);
        es, cs := es + more, cs + conds;
      }
      BuiltEnds(h, es, cs);
    }

    // The operators of an action, event by event.
    static method BuildAction(h: Source, a: nat) returns (es: seq<EventId>, cs: seq<Condition>)
      requires a < |h.p.actions|
      ensures es == EventsFrom(h.p, a, 0) && Built(h, es, cs)
    {
      es, cs := [], [];
      assert Building(h, a, 0, es, cs);
      hide *;
      for i := 0 to |h.p.actions[a].events|
        invariant Building(h, a, i, es, cs)
      {
        var e: EventId := (a, i);
        BuildingStep(h, a, i, es, cs);
        if HasOperator(h.p, e) {
          es, cs := es + [e], cs + [Prepared(h, Precondition(h.p, e))];
        }
      }
      BuildingEnds(h, a, es, cs);
    }

    /** `init_condition_costs`; None when evaluating a condition raises. */
    method InitConditionCosts(s: Assignment) returns (costs: Option<seq<C.Cost>>)
      requires Valid()
      ensures costs == InitialCosts(h, leaves, s)
    {
      var found: seq<C.Cost> := [];
      assert leaves[..0] == [];
      hide OperatorsOf, Conditions, Interned, InitialCost, WellFormed;
      for c := 0 to |leaves|
        invariant InitialCosts(h, leaves[..c], s) == Some(found)
      {
        assert leaves[..c + 1][..c] == leaves[..c];
        var cost := InitialCost(h, leaves[c], s);
        if cost.None? {
          CostsRaise(c + 1, s);
          return None;
        }
        found := found + [cost.value];
      }
      assert leaves[..|leaves|] == leaves;
      costs := Some(found);
    }

    lemma {:induction false} CostsRaise(k: nat, s: Assignment)
      requires k <= |leaves| && InitialCosts(h, leaves[..k], s).None?
      ensures InitialCosts(h, leaves, s).None?
      decreases |leaves| - k
    {
      if k < |leaves| {
        assert leaves[..k + 1][..k] == leaves[..k];
        CostsRaise(k + 1, s);
      } else {
        assert leaves[..k] == leaves;
      }
    }

    method TaskFor(s: Assignment) returns (t: Option<R.Task>)
      requires Valid()
      ensures t == TaskOf(h, s)
    {
      var init := InitConditionCosts(s);
      if init.None? {
        return None;
      }
      t := Some(R.Task(Operators(h, s), init.value, AllReaders(conditions, leaves), h.cfg.kind.HMax?));
    }

    /** `drain_heap`: hmax, with a numeric condition that two operators achieve. */
    method DrainHeap(t: R.Task) returns (drain: bool)
      requires R.ValidTask(t)
      ensures drain <==> !F.SingleAchievers(t)
    {
      if !t.hmax {
        return false;
      }
      var achieved := seq(|t.init|, c => false);
      assert AchievedBefore(t, achieved, 0, 0);
      hide AchievedBefore, F.SingleAchievers, R.ValidTask;
      for o := 0 to |t.ops|
        invariant AchievedBefore(t, achieved, o, 0)
      {
        var numeric := t.ops[o].numeric;
        for i := 0 to |numeric|
          invariant AchievedBefore(t, achieved, o, i)
        {
          var c := numeric[i].0;
          NextAchieved(t, achieved, o, i);
          if achieved[c] {
            return true;
          }
          achieved := achieved[c := true];
        }
        NextOperator(t, achieved, o);
      }
      AllAchieved(t, achieved);
      drain := false;
    }

    /** `eval`.  It answers by the relaxation alone: a dead end is a state from which no
        sequence of events, deleting nothing, reaches the goal.  So it has no run to the
        goal, a goal state is worth 0, and hmax without numeric conditions is admissible. */
    method Eval(s: State, ghost before: seq<nat>) returns (r: Outcome)
      requires Valid() && Encodable(h) && Balanced(h.p) && Reached(h.p, before, s)
      ensures Begun(h.p, s.todo) && ValidState(h.p, s)
      ensures match TaskOf(h, Full(h.p, SnapshotOf(s)))
        case None => r == Raised
        case Some(t) => t.ops != [] && exists v :: r == OutcomeOf(v) && Answers(h, t, SnapshotOf(s), v)
      ensures r != Raised ==> (r.DeadEnd? <==> !CanEnd(h, SnapshotOf(s)))
      ensures r.DeadEnd? ==> forall plan | Run(h.p, s, plan).Some? :: !IsGoal(h.p, Run(h.p, s, plan).value)
      ensures IsGoal(h.p, s) ==> r == Raised || r == Estimate(0)
      ensures r.Estimate? && h.cfg.kind.HMax? && NonNumeric(h) ==>
                forall plan | Run(h.p, s, plan).Some? && IsGoal(h.p, Run(h.p, s, plan).value) :: r.n <= |plan|
    {
      ReachedBegun(h.p, before, s);
      ReachedTyped(h, before, s);
      FullTyped(h, SnapshotOf(s));
      var t := TaskFor(Full(h.p, SnapshotOf(s)));
      if t.None? {
        return Raised;
      }
      TaskValid(h, Full(h.p, SnapshotOf(s)), t.value);
      var v := EvalTask(t.value, SnapshotOf(s));
      r := OutcomeOf(v);
      AnswerIsSafe(h, before, s, t.value, v);
      ValueExact(h, SnapshotOf(s), t.value);
    }

    method EvalTask(t: R.Task, s: Snapshot) returns (v: Option<nat>)
      requires Valid() && R.ValidTask(t) && TaskOf(h, Full(h.p, s)) == Some(t)
      requires Begun(h.p, s.todo)
      ensures Answers(h, t, s, v)
    {
      var drain := DrainHeap(t);
      var buffers := new F.FixpointBuffers(t, h.cfg.kind.HFF?, drain, false);
      ActionsKnown(t, s);
      if h.cfg.kind.HFF? {
        v := RP.EvaluateHff(buffers, R.Value(t), EventsLen(h.p), EventsLeft(h.p, s));
      } else {
        var cost; ghost var made;
        cost, made := buffers.Evaluate(R.Value(t));
        v := if cost.Fin? then Some(cost.n) else None;
      }
    }

    lemma ActionsKnown(t: R.Task, s: Snapshot)
      requires Valid() && TaskOf(h, Full(h.p, s)) == Some(t)
      ensures t.hmax == h.cfg.kind.HMax?
      ensures forall o | 0 <= o < t.Goal() :: t.ops[o].action in EventsLen(h.p)
    {
      TaskShape(h, Full(h.p, s), t);
      forall o | 0 <= o < t.Goal() ensures t.ops[o].action in EventsLen(h.p) {
        OperatorShape(h, Full(h.p, s), t, o);
        assert OperatorsOf(h.p, 0)[o] in OperatorsOf(h.p, 0);
      }
    }

    /** `reachable_actions`: those all of whose operators are reached, in whatever order
        the heap is drained; None when a condition raises. */
    method ReachableActions(s: Snapshot) returns (actions: Option<set<nat>>)
      requires Valid() && Encodable(h) && Typed(s.values, h.doms)
      ensures match TaskOf(h, Full(h.p, s))
        case None => actions.None?
        case Some(t) =>
          && actions.Some? && |t.ops| == |operators| + 1
          && forall a :: a in actions.value <==> IsReached(operators, t, a)
      ensures actions.Some? ==> forall a :: a in actions.value <==> CanComplete(h, s, a)
    {
      FullTyped(h, s);
      var t := TaskFor(Full(h.p, s));
      if t.None? {
        return None;
      }
      TaskValid(h, Full(h.p, s), t.value);
      TaskShape(h, Full(h.p, s), t.value);
      assert |t.value.ops| == |operators| + 1;
      hide *;
      var found := ReachableIn(t.value);
      actions := Some(found);
      forall a: nat ensures a in found <==> CanComplete(h, s, a) {
        ReachedExact(h, s, t.value, a);
      }
    }

    method ReachableIn(t: R.Task) returns (actions: set<nat>)
      requires R.ValidTask(t) && |t.ops| == |operators| + 1
      ensures forall a :: a in actions <==> IsReached(operators, t, a)
    {
      hide R.ValidTask, R.Pre, R.Value, F.SingleAchievers;
      var drain := DrainHeap(t);
      var buffers := new F.FixpointBuffers(t, h.cfg.kind.HFF?, drain, true);
      var reachable := buffers.ReachableOperators(R.Value(t));
      actions := CompleteActions(reachable);
    }

    // The actions with all their operators in `os`.
    method CompleteActions(os: seq<nat>) returns (actions: set<nat>)
      requires forall o | o in os :: o < |operators|
      requires forall i, j | 0 <= i < j < |os| :: os[i] < os[j]
      ensures forall a :: a in actions <==> AllChosen(operators, os, a)
    {
      var all: seq<nat> := [];
      for o := 0 to |operators|
        invariant |all| == o && forall i | 0 <= i < o :: all[i] == i
      {
        all := all + [o];
      }
      forall o: nat ensures o in all <==> o < |operators| {
        if o < |operators| {
          assert all[o] == o;
        }
      }
      var actionOperators := CountByAction(operators, all);
      var actionReachable := CountByAction(operators, os);
      actions := set a | a in actionReachable && a in actionOperators && actionReachable[a] == actionOperators[a];
      forall a ensures a in actions <==> AllChosen(operators, os, a) {
        SameCount(operators, os, all, a);
        assert a in actionReachable <==> Chosen(operators, os, a) != {};
      }
    }
  }

  lemma AnswerIsSafe(h: Source, before: seq<nat>, s: State, t: R.Task, v: Option<nat>)
    requires Encodable(h) && Balanced(h.p) && Reached(h.p, before, s) && ValidState(h.p, s) && Begun(h.p, s.todo)
    requires TaskOf(h, Full(h.p, SnapshotOf(s))) == Some(t) && t.ops != [] && Answers(h, t, SnapshotOf(s), v)
    ensures v.None? ==> forall plan | Run(h.p, s, plan).Some? :: !IsGoal(h.p, Run(h.p, s, plan).value)
    ensures IsGoal(h.p, s) ==> v == Some(0)
    ensures v.Some? && h.cfg.kind.HMax? && NonNumeric(h) ==>
              forall plan | Run(h.p, s, plan).Some? && IsGoal(h.p, Run(h.p, s, plan).value) :: v.value <= |plan|
  {
    assert WellFormed(h.p);
    hide Encodable, Balanced, Reached, ValidState, TaskOf, NonNumeric, RelaxedValue, IsGoal, WellFormed;
    hide F.SingleAchievers;
    forall plan | Run(h.p, s, plan).Some? && IsGoal(h.p, Run(h.p, s, plan).value)
      ensures v.Some? && (h.cfg.kind.HMax? && NonNumeric(h) ==> v.value <= |plan|)
    {
      ValueIsSafe(h, before, s, plan, t);
    }
    if IsGoal(h.p, s) {
      assert Run(h.p, s, []) == Some(s);
      ValueIsSafe(h, before, s, [], t);
    }
  }
}
