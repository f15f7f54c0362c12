/**
 `DeleteRelaxationHeuristic` on a planning problem: whatever run of the search reaches
 the goal, the relaxation of the state it starts from reaches it too.
*/
module DeleteRelaxation {
  import opened Collections
  import opened Options
  import opened Expr
  import opened Temporal
  import opened HeuristicConditions
  import opened ActiveConditions
  import opened RelaxedRuns
  import opened RelaxedTasks
  import opened RelaxedLeaves
  import opened RelaxedTruth
  import opened RelaxedEvents
  import C = Costs
  import R = Relaxation
  import B = RelaxationBound

  /** Events that fire one after the other. */
  ghost predicate EventRun(p: Problem, ss: seq<Snapshot>, es: seq<EventId>) {
    && |ss| == |es| + 1
    && forall k | 0 <= k < |es| :: Follows(p, ss[k], es[k], ss[k + 1])
  }

  ghost function Truths(h: Source, ss: seq<Snapshot>): seq<set<nat>>
    requires WellFormed(h.p)
  {
    seq(|ss|, k requires 0 <= k < |ss| => TrueLeaves(Interned(h), Full(h.p, ss[k]), h.p.functions))
  }

  ghost predicate AllOperators(p: Problem, es: seq<EventId>) {
    forall e | e in es :: e in OperatorsOf(p, 0)
  }

  function OperatorIds(p: Problem, es: seq<EventId>): (ops: seq<nat>)
    requires forall e | e in es :: e in OperatorsOf(p, 0)
    ensures |ops| == |es|
  {
    if es == [] then [] else
      assert es[0] in es && forall e | e in es[1..] :: e in es;
      [OperatorAt(p, es[0])] + OperatorIds(p, es[1..])
  }

  lemma {:induction false} OperatorIdAt(p: Problem, es: seq<EventId>, k: nat)
    requires AllOperators(p, es) && k < |es|
    ensures OperatorIds(p, es)[k] == OperatorAt(p, es[k])
  {
    if k > 0 {
      assert forall e | e in es[1..] :: e in es;
      OperatorIdAt(p, es[1..], k - 1);
    }
  }

  lemma {:induction false} RunTyped(h: Source, ss: seq<Snapshot>, es: seq<EventId>, k: nat)
    requires Encodable(h) && EventRun(h.p, ss, es) && Typed(ss[0].values, h.doms) && k <= |es|
    ensures Typed(ss[k].values, h.doms)
  {
    if k > 0 {
      RunTyped(h, ss, es, k - 1);
      assert Follows(h.p, ss[k - 1], es[k - 1], ss[k - 1 + 1]);
      FollowsTyped(h, ss[k - 1], es[k - 1], ss[k]);
    }
  }

  // What holds at first costs nothing.
  lemma StartsFree(h: Source, t: R.Task, s: Snapshot, c: nat)
    requires Encodable(h) && Typed(s.values, h.doms) && TaskOf(h, Full(h.p, s)) == Some(t)
    requires c in TrueLeaves(Interned(h), Full(h.p, s), h.p.functions)
    ensures c < |t.init| && t.init[c] == C.Fin(0)
  {
    InternedKnown(h);
    TaskShape(h, Full(h.p, s), t);
    var x := Interned(h)[c];
    assert x in Interned(h) && InitialCost(h, x, Full(h.p, s)) == Some(t.init[c]);
    InitialMeans(h, x, Full(h.p, s));
  }

  lemma RunStepIsRelaxed(h: Source, t: R.Task, ss: seq<Snapshot>, es: seq<EventId>, k: nat)
    requires Encodable(h) && EventRun(h.p, ss, es) && Typed(ss[0].values, h.doms) && k < |es|
    requires TaskOf(h, Full(h.p, ss[0])) == Some(t)
    ensures es[k] in OperatorsOf(h.p, 0)
    ensures B.StepsTo(t, Truths(h, ss)[k], OperatorAt(h.p, es[k]), Truths(h, ss)[k + 1])
  {
    RunTyped(h, ss, es, k);
    assert Follows(h.p, ss[k], es[k], ss[k + 1]);
    hide Encodable, Typed, Full, TaskOf, Interned, TrueLeaves, B.StepsTo, Follows, OperatorsOf, OperatorAt, EventRun;
    FollowsSteps(h, Full(h.p, ss[0]), t, ss[k], es[k], ss[k + 1]);
  }

  lemma RunStartsFree(h: Source, t: R.Task, ss: seq<Snapshot>, es: seq<EventId>)
    requires Encodable(h) && EventRun(h.p, ss, es) && Typed(ss[0].values, h.doms)
    requires TaskOf(h, Full(h.p, ss[0])) == Some(t)
    ensures forall c | c in Truths(h, ss)[0] :: c < |t.init| && t.init[c] == C.Fin(0)
  {
    assert WellFormed(h.p);
    hide Encodable, Typed, Full, TaskOf, Interned, TrueLeaves, WellFormed;
    forall c | c in Truths(h, ss)[0] ensures c < |t.init| && t.init[c] == C.Fin(0) {
      StartsFree(h, t, ss[0], c);
    }
  }

  /** A run of events is a run of the relaxed task. */
  lemma RunIsRelaxed(h: Source, t: R.Task, ss: seq<Snapshot>, es: seq<EventId>)
    requires Encodable(h) && EventRun(h.p, ss, es) && Typed(ss[0].values, h.doms)
    requires TaskOf(h, Full(h.p, ss[0])) == Some(t)
    ensures AllOperators(h.p, es) && B.IsRun(t, Truths(h, ss), OperatorIds(h.p, es))
  {
    var truths := Truths(h, ss);
    RunStartsFree(h, t, ss, es);
    assert |truths| == |es| + 1 && WellFormed(h.p);
    hide Encodable, Typed, Full, TaskOf, Truths, B.StepsTo, EventRun, OperatorsOf, OperatorAt, WellFormed;
    forall k: nat | k < |es|
      ensures es[k] in OperatorsOf(h.p, 0) && B.StepsTo(t, truths[k], OperatorAt(h.p, es[k]), truths[k + 1])
    {
      RunStepIsRelaxed(h, t, ss, es, k);
    }
    forall e | e in es ensures e in OperatorsOf(h.p, 0) {
      var k :| 0 <= k < |es| && es[k] == e;
    }
    var ops := OperatorIds(h.p, es);
    forall k: nat | k < |ops| ensures B.StepsTo(t, truths[k], ops[k], truths[k + 1]) {
      OperatorIdAt(h.p, es, k);
    }
  }

  // ---- the goal ----

  predicate AtGoal(p: Problem, s: Snapshot) {
    s.todo == map[] && Holds(p, p.goal, s.values)
  }

  lemma {:induction false} CompletionTrue(p: Problem, s: Snapshot, a: nat)
    requires WellFormed(p) && |s.values| == |p.init| && s.todo == map[] && a <= |p.actions|
    ensures forall e | e in ExtraGoals(p, a) :: IsTrue(e, Full(p, s), p.functions)
    decreases |p.actions| - a
  {
    hide Full, Extra;
    if a < |p.actions| {
      FullFlag(p, s, (a, |p.actions[a].events| - 1));
      CompletionTrue(p, s, a + 1);
    }
  }

  lemma CompletionMet(h: Source, s: Snapshot)
    requires WellFormed(h.p) && |s.values| == |h.p.init| && s.todo == map[]
    ensures Meets(Completion(h), Full(h.p, s), h.p.functions)
  {
    CompletionTrue(h.p, s, 0);
    ConjunctionTrue(ExtraGoals(h.p, 0), Full(h.p, s), h.p.functions);
    ConvertMeans(And(ExtraGoals(h.p, 0)), Full(h.p, s), h.p.functions);
  }

  lemma GoalMet(h: Source, s: Snapshot)
    requires Encodable(h) && Typed(s.values, h.doms) && AtGoal(h.p, s)
    ensures Meets(GoalCondition(h), Full(h.p, s), h.p.functions)
  {
    var (x, fs) := (Full(h.p, s), h.p.functions);
    GoalsKnown(h);
    FullTyped(h, s);
    FullEvaluates(h.p, s, h.p.goal);
    PreparedMeets(h, h.p.goal, x);
    CompletionMet(h, s);
    assert [Goals(h), Completion(h)][1..] == [Completion(h)] && [Completion(h)][1..] == [];
    assert MeetsAll([Completion(h)], x, fs) <==> Meets(Completion(h), x, fs);
  }

  /** No condition is a linear comparison that the heuristic reasons about. */
  ghost predicate NonNumeric(h: Source)
    requires WellFormed(h.p)
  {
    forall k | 0 <= k < |Interned(h)| :: !IsSimple(h, Interned(h)[k])
  }

  lemma NonNumericPropositional(h: Source, s: Assignment, t: R.Task, o: nat)
    requires WellFormed(h.p) && TaskOf(h, s) == Some(t) && NonNumeric(h) && o < |t.ops|
    ensures t.ops[o].numeric == []
  {
    OperatorShape(h, s, t, o);
    hide TaskOf, Interned, OperatorsOf, IsSimple, NumericFrom, ChangesOf;
    if o < t.Goal() {
      var ch := ChangesOf(EventOf(h.p, OperatorsOf(h.p, 0)[o]).effects, h.doms);
      if t.ops[o].numeric != [] {
        var n := t.ops[o].numeric[0];
        NumericValid(h, Interned(h), ch, s, 0, n);
      }
    }
  }

  /** The relaxed cost of the goal is finite in a state from which events lead to the
      goal, 0 in a goal state, and for hmax without numeric conditions no more than the
      number of those events. */
  lemma RunBoundsGoal(h: Source, t: R.Task, v: seq<C.Cost>, ss: seq<Snapshot>, es: seq<EventId>)
    requires Encodable(h) && EventRun(h.p, ss, es) && Typed(ss[0].values, h.doms)
    requires TaskOf(h, Full(h.p, ss[0])) == Some(t) && R.Solution(t, v)
    requires AtGoal(h.p, ss[|es|])
    ensures t.ops != [] && R.Pre(t, t.Goal(), v).Fin?
    ensures es == [] ==> R.Pre(t, t.Goal(), v) == C.Fin(0)
    ensures h.cfg.kind.HMax? && NonNumeric(h) ==> C.Le(R.Pre(t, t.Goal(), v), C.Fin(|es|))
  {
    var s0 := Full(h.p, ss[0]);
    RunIsRelaxed(h, t, ss, es);
    FullTyped(h, ss[0]);
    var (truths, ops) := (Truths(h, ss), OperatorIds(h.p, es));
    assert |h.doms| == |h.p.init| && WellFormed(h.p) && |ss| == |es| + 1;
    hide *;
    TaskValid(h, s0, t);
    EndsTrue(h, s0, t, ss, es);
    if NonNumeric(h) {
      RunPropositional(h, s0, t, truths, ops);
    }
    B.GoalAffordable(t, v, truths, ops);
  }

  // The goal's tree is true at the end.
  lemma EndsTrue(h: Source, s0: Assignment, t: R.Task, ss: seq<Snapshot>, es: seq<EventId>)
    requires Encodable(h) && EventRun(h.p, ss, es) && Typed(ss[0].values, h.doms)
    requires TaskOf(h, s0) == Some(t) && AtGoal(h.p, ss[|es|])
    ensures t.ops != [] && B.TrueIn(t.ops[t.Goal()].pre, Truths(h, ss)[|es|])
  {
    RunTyped(h, ss, es, |es|);
    GoalMet(h, ss[|es|]);
    TaskShape(h, s0, t);
    OperatorShape(h, s0, t, t.Goal());
    assert Conditions(h)[t.Goal()] == GoalCondition(h);
    assert Truths(h, ss)[|es|] == TrueLeaves(Interned(h), Full(h.p, ss[|es|]), h.p.functions);
    hide *;
    TreeMeets(GoalCondition(h), Interned(h), Full(h.p, ss[|es|]), h.p.functions);
  }

  lemma RunPropositional(h: Source, s0: Assignment, t: R.Task, truths: seq<set<nat>>, ops: seq<nat>)
    requires WellFormed(h.p) && TaskOf(h, s0) == Some(t) && NonNumeric(h) && B.IsRun(t, truths, ops)
    ensures B.Propositional(t, ops)
  {
    hide WellFormed, TaskOf, NonNumeric, B.IsRun;
    RunInRange(t, truths, ops);
    forall o | o in ops ensures t.ops[o].numeric == [] {
      NonNumericPropositional(h, s0, t, o);
    }
  }

  lemma RunInRange(t: R.Task, truths: seq<set<nat>>, ops: seq<nat>)
    requires B.IsRun(t, truths, ops)
    ensures forall o | o in ops :: o < |t.ops|
  {
    forall o | o in ops ensures o < |t.ops| {
      var k :| 0 <= k < |ops| && ops[k] == o;
      assert B.StepsTo(t, truths[k], ops[k], truths[k + 1]);
    }
  }

  // ---- runs of the search ----

  function SnapshotOf(s: State): Snapshot {
    Snapshot(s.assignment, s.todo)
  }

  lemma {:induction false} ReachedTyped(h: Source, plan: seq<nat>, s: State)
    requires Encodable(h) && Reached(h.p, plan, s)
    ensures ValidState(h.p, s) && Typed(s.assignment, h.doms)
    decreases |plan|
  {
    if plan == [] {
      InitialValid(h.p);
      if h.p.timed.Some? {
        var e, n, todo, opening := InitialExpands(h.p);
        ExpandsApplies(h.p, EmptyState(h.p), s, e, n, todo, opening, true);
        AppliedTyped(h, e, h.p.init, s.assignment);
      }
    } else {
      assert WellFormed(h.p) by { EncodableIsWellFormed(h); }
      var a := plan[|plan| - 1];
      var s0 := ReachedLast(h.p, plan, s);
      StepValid(h.p, s0, a);
      var e, n, todo, opening := StepExpands(h.p, s0, a);
      ExpandsApplies(h.p, s0, s, e, n, todo, opening, false);
      hide *;
      ReachedTyped(h, plan[..|plan| - 1], s0);
      AppliedTyped(h, e, s0.assignment, s.assignment);
    }
  }

  lemma ExpandsApplies(
    p: Problem, s: State, s': State, e: EventId, n: nat, todo: map<nat, (nat, nat)>, opening: Network, pinned: bool)
    requires WellFormed(p) && ValidState(p, s) && Expands(p, s, s', e, n, todo, opening, pinned)
    ensures IsEvent(p, e) && Apply(p, EventOf(p, e).effects, s.assignment, s.assignment) == Some(s'.assignment)
  {
    hide PastEdges, TodoEdges, OpeningEdges, DurationBounds, Holds;
  }

  /** A step of the search is an event that fires. */
  lemma StepFollows(p: Problem, before: seq<nat>, s: State, a: nat) returns (e: EventId)
    requires WellFormed(p) && Balanced(p) && Reached(p, before, s) && ValidState(p, s) && Step(p, s, a).Some?
    ensures Follows(p, SnapshotOf(s), e, SnapshotOf(Step(p, s, a).value))
  {
    var s' := Step(p, s, a).value;
    ReachedBegun(p, before, s);
    var n, todo, opening;
    e, n, todo, opening := StepExpands(p, s, a);
    EndConditionsHold(p, before, s, s', e, n, todo, opening);
    StepFacts(p, s, s', e, n, todo, opening);
    hide Step, Expands, Reached, Balanced, WellFormed, ValidState, Holds, LastFired;
  }

  /** ... and a run of it is a run of events. */
  lemma {:induction false} RunFollows(p: Problem, before: seq<nat>, s: State, plan: seq<nat>)
    returns (ss: seq<Snapshot>, es: seq<EventId>)
    requires WellFormed(p) && Balanced(p) && Reached(p, before, s) && ValidState(p, s) && Run(p, s, plan).Some?
    ensures EventRun(p, ss, es) && |es| == |plan|
    ensures ss[0] == SnapshotOf(s) && ss[|es|] == SnapshotOf(Run(p, s, plan).value)
    decreases |plan|
  {
    hide Step, Reached, WellFormed, ValidState, Balanced, Follows;
    if plan == [] {
      ss, es := [SnapshotOf(s)], [];
    } else {
      var s' := Step(p, s, plan[0]).value;
      var e := StepFollows(p, before, s, plan[0]);
      ReachedStep(p, before, s, plan[0]);
      var tail, rest := RunFollows(p, before + [plan[0]], s', plan[1..]);
      ss, es := [SnapshotOf(s)] + tail, [e] + rest;
      forall k | 0 <= k < |es| ensures Follows(p, ss[k], es[k], ss[k + 1]) {
        if k > 0 {
          assert Follows(p, tail[k - 1], rest[k - 1], tail[k - 1 + 1]);
        }
      }
    }
  }

  /** The heuristic is safe and knows the goal: from a reached state, with a run of the
      search to a goal state, the goal's relaxed cost is finite; it is 0 in a goal state,
      and for hmax without numeric conditions at most the length of the run. */
  lemma RelaxationIsSafe(h: Source, before: seq<nat>, s: State, plan: seq<nat>, t: R.Task, v: seq<C.Cost>)
    requires Encodable(h) && Balanced(h.p) && Reached(h.p, before, s) && ValidState(h.p, s)
    requires Run(h.p, s, plan).Some? && IsGoal(h.p, Run(h.p, s, plan).value)
    requires TaskOf(h, Full(h.p, SnapshotOf(s))) == Some(t) && R.Solution(t, v)
    ensures t.ops != [] && R.Pre(t, t.Goal(), v).Fin?
    ensures plan == [] ==> R.Pre(t, t.Goal(), v) == C.Fin(0)
    ensures h.cfg.kind.HMax? && NonNumeric(h) ==> C.Le(R.Pre(t, t.Goal(), v), C.Fin(|plan|))
  {
    var ss, es := RunFollows(h.p, before, s, plan);
    ReachedTyped(h, before, s);
    assert AtGoal(h.p, ss[|es|]);
    hide Run, Reached, EventRun, TaskOf, Typed, R.Solution, NonNumeric, AtGoal;
    RunBoundsGoal(h, t, v, ss, es);
  }
}
