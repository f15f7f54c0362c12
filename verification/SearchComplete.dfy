/**
 The search drivers on the temporal search space: the pruning of visited states and
 the dead ends of `HMaxExplicit` and of the delete relaxation meet what completeness
 asks for, so that an answer of no plan is right.
*/
module SearchComplete {
  import opened Options
  import opened Expr
  import opened Temporal
  import opened Makespan
  import opened ActiveConditions
  import opened VisitedStates
  import opened RelaxedRuns
  import DR = DeleteRelaxation
  import L = ValueLayers
  import RE = RelaxedEvents
  import RH = RelaxationHeuristic
  import RL = RelaxedLeaves
  import RT = RelaxedTasks
  import D = Dominance
  import Search
  import Stn

  // The children of `s`, by the actions from `a` on.
  ghost function Children(p: Problem, s: State, a: nat): seq<State>
    requires WellFormed(p) && ValidState(p, s) && a <= |p.actions|
    decreases |p.actions| - a
  {
    if a == |p.actions| then [] else
      (if Step(p, s, a).Some? then [Step(p, s, a).value] else []) + Children(p, s, a + 1)
  }

  ghost function ChildrenOf(p: Problem): State -> seq<State>
    requires WellFormed(p)
  {
    (s: State) => if ValidState(p, s) then Children(p, s, 0) else []
  }

  ghost function GoalOf(p: Problem): State -> bool {
    (s: State) => IsGoal(p, s)
  }

  ghost function TemporalSpace(p: Problem): Search.Space<State>
    requires WellFormed(p)
  {
    Search.Space(Initial(p), ChildrenOf(p), GoalOf(p))
  }

  lemma {:induction false} ChildrenAre(p: Problem, s: State, a: nat, t: State)
    requires WellFormed(p) && ValidState(p, s) && a <= |p.actions|
    ensures t in Children(p, s, a) <==> exists b: nat :: a <= b && Step(p, s, b) == Some(t)
    decreases |p.actions| - a
  {
    hide Expand, Applicable, OpeningEdges, DurationBounds;
    if a < |p.actions| {
      ChildrenAre(p, s, a + 1, t);
      if b: nat :| a <= b && Step(p, s, b) == Some(t) {
        assert b < |p.actions|;
        assert b == a || a + 1 <= b;
      }
    } else {
      forall b: nat | a <= b ensures Step(p, s, b).None? {
      }
    }
  }

  /** A goal is `n` steps away exactly when some plan of `n` actions reaches one. */
  ghost predicate PlanTo(p: Problem, s: State, plan: seq<nat>)
    requires WellFormed(p) && ValidState(p, s)
  {
    Run(p, s, plan).Some? && IsGoal(p, Run(p, s, plan).value)
  }

  lemma {:induction false} GoalInIsPlan(p: Problem, s: State, n: nat) returns (plan: seq<nat>)
    requires WellFormed(p) && ValidState(p, s) && Search.GoalIn(TemporalSpace(p), s, n)
    ensures |plan| == n && PlanTo(p, s, plan)
    decreases n
  {
    hide *;
    if n == 0 {
      Search.AtOnce(TemporalSpace(p), s);
      plan := [];
      PlanStops(p, s);
    } else {
      var t := Search.NextToGoal(TemporalSpace(p), s, n);
      var a := StepTo(p, s, t);
      StepValid(p, s, a);
      var rest := GoalInIsPlan(p, t, n - 1);
      plan := [a] + rest;
      PlanGoesOn(p, s, a, t, rest);
    }
  }

  lemma PlanStops(p: Problem, s: State)
    requires WellFormed(p) && ValidState(p, s)
    ensures TemporalSpace(p).goal(s) <==> PlanTo(p, s, [])
  {
  }

  lemma PlanGoesOn(p: Problem, s: State, a: nat, t: State, rest: seq<nat>)
    requires WellFormed(p) && ValidState(p, s) && ValidState(p, t) && Step(p, s, a) == Some(t) && PlanTo(p, t, rest)
    ensures PlanTo(p, s, [a] + rest)
  {
    hide Step, WellFormed, ValidState, IsGoal;
    assert ([a] + rest)[1..] == rest;
  }

  lemma {:induction false} PlanIsGoalIn(p: Problem, s: State, plan: seq<nat>)
    requires WellFormed(p) && ValidState(p, s) && PlanTo(p, s, plan)
    ensures Search.GoalIn(TemporalSpace(p), s, |plan|)
    decreases |plan|
  {
    hide Step, ValidState, WellFormed, IsGoal;
    if plan != [] {
      var t := Step(p, s, plan[0]).value;
      StepValid(p, s, plan[0]);
      ChildrenAre(p, s, 0, t);
      PlanIsGoalIn(p, t, plan[1..]);
      assert t in TemporalSpace(p).succ(s);
    }
  }

  lemma {:induction false} ReachedInIsReached(p: Problem, s: State, n: nat) returns (plan: seq<nat>)
    requires WellFormed(p) && Search.ReachedIn(TemporalSpace(p), s, n)
    ensures Reached(p, plan, s) && ValidState(p, s)
    decreases n
  {
    hide *;
    if n == 0 {
      plan := [];
      Search.AtOnce(TemporalSpace(p), s);
      SpaceInit(p);
      InitialReached(p, s);
    } else {
      var t := Search.Predecessor(TemporalSpace(p), s, n);
      var before := ReachedInIsReached(p, t, n - 1);
      var a := StepTo(p, t, s);
      ReachedStep(p, before, t, a);
      plan := before + [a];
    }
  }

  lemma SpaceInit(p: Problem)
    requires WellFormed(p)
    ensures TemporalSpace(p).init == Initial(p)
  {
  }

  lemma StepTo(p: Problem, t: State, s: State) returns (a: nat)
    requires WellFormed(p) && ValidState(p, t) && s in TemporalSpace(p).succ(t)
    ensures Step(p, t, a) == Some(s)
  {
    ChildrenAre(p, t, 0, s);
    a :| Step(p, t, a) == Some(s);
  }

  lemma InitialReached(p: Problem, s: State)
    requires WellFormed(p) && Initial(p) == Some(s)
    ensures Reached(p, [], s) && ValidState(p, s)
  {
    InitialValid(p);
  }

  ghost function PruningOf(p: Problem): (set<State>, State) -> bool {
    (seen: set<State>, s: State) => Redundant(p, PolicyOf(p, false), seen, s)
  }

  lemma RedundantIsCovered(p: Problem, r: State, s: State)
    requires WellFormed(p) && Balanced(p) && ClosesAll(p) && NonNegativeDurations(p)
    requires Search.Reached(TemporalSpace(p), r) && Search.Reached(TemporalSpace(p), s)
    requires MakesRedundant(p, PolicyOf(p, false), r, s)
    ensures Search.Covers(TemporalSpace(p), r, s)
  {
    var i: nat :| Search.ReachedIn(TemporalSpace(p), r, i);
    var j: nat :| Search.ReachedIn(TemporalSpace(p), s, j);
    var plan1 := ReachedInIsReached(p, r, i);
    var plan2 := ReachedInIsReached(p, s, j);
    ReachedSatisfiable(p, plan1, r);
    forall n: nat | Search.GoalIn(TemporalSpace(p), s, n) ensures Search.GoalIn(TemporalSpace(p), r, n) {
      CarryGoal(p, plan1, r, plan2, s, n);
    }
  }

  lemma CarryGoal(p: Problem, plan1: seq<nat>, r: State, plan2: seq<nat>, s: State, n: nat)
    requires WellFormed(p) && Balanced(p) && ClosesAll(p) && NonNegativeDurations(p)
    requires Reached(p, plan1, r) && Reached(p, plan2, s) && Stn.Satisfiable(r.network)
    requires ValidState(p, r) && ValidState(p, s)
    requires MakesRedundant(p, PolicyOf(p, false), r, s) && Search.GoalIn(TemporalSpace(p), s, n)
    ensures Search.GoalIn(TemporalSpace(p), r, n)
  {
    var plan := GoalInIsPlan(p, s, n);
    assert Run(p, s, plan).Some? && IsGoal(p, Run(p, s, plan).value);
    hide *;
    var t, r', s' := RedundantLosesNothing(p, plan1, r, plan2, s, plan);
    SameGoal(p, r', s');
    assert Run(p, r, plan) == Some(r');
    PlanReaches(p, r, plan, r');
    PlanIsGoalIn(p, r, plan);
  }

  lemma SameGoal(p: Problem, r: State, s: State)
    requires D.SameKey(r, s) && IsGoal(p, s)
    ensures IsGoal(p, r)
  {
    assert r.todo.Keys == {};
  }

  lemma PlanReaches(p: Problem, s: State, plan: seq<nat>, s': State)
    requires WellFormed(p) && ValidState(p, s) && Run(p, s, plan) == Some(s') && IsGoal(p, s')
    ensures PlanTo(p, s, plan)
  {
  }

  lemma ReachedSatisfiable(p: Problem, plan: seq<nat>, s: State)
    requires WellFormed(p) && Reached(p, plan, s)
    ensures Stn.Satisfiable(s.network)
  {
    if plan == [] {
      InitialValid(p);
      if p.timed.Some? {
        var e, n, todo, opening := InitialExpands(p);
      } else {
        var t: Stn.Schedule<Timepoint> := v => if v == PlanEnd && p.deadline.Some? then p.deadline.value else 0;
        assert Stn.Satisfies(t, DeadlineEdges(p));
      }
    } else {
      var s0 := ReachedLast(p, plan, s);
      hide Reached, WellFormed;
      var e, n, todo, opening := StepExpands(p, s0, plan[|plan| - 1]);
    }
  }

  /** The visited-state store never drops the only way to a goal. */
  lemma PruningIsSafe(p: Problem)
    requires WellFormed(p) && Balanced(p) && ClosesAll(p) && NonNegativeDurations(p)
    ensures Search.SafePruning(TemporalSpace(p), PruningOf(p))
  {
    var sp := TemporalSpace(p);
    hide WellFormed, Balanced, ClosesAll, NonNegativeDurations, Search.Covers, Search.Reached, MakesRedundant;
    forall seen: set<State>, s | Search.AllReached(sp, seen) && Search.Reached(sp, s) && PruningOf(p)(seen, s)
      ensures Search.Covered(sp, seen, s)
    {
      assert Redundant(p, PolicyOf(p, false), seen, s);
      var r :| r in seen && MakesRedundant(p, PolicyOf(p, false), r, s);
      RedundantIsCovered(p, r, s);
    }
  }

  /** A heuristic that answers None only where `HMaxExplicit` would. */
  ghost predicate AnswersDeadEnds(p: Problem, h: State -> Option<real>)
    requires WellFormed(p)
  {
    forall s, d: nat | h(s).None? :: !L.GoalAt(GraphOf(p), StartOf(p, s), d)
  }

  /** `HMaxExplicit` answers None only in dead ends. */
  lemma HmaxIsSafe(p: Problem, h: State -> Option<real>)
    requires WellFormed(p) && Balanced(p) && AnswersDeadEnds(p, h)
    ensures Search.SafeHeuristic(TemporalSpace(p), h)
  {
    forall s, n: nat | Search.Reached(TemporalSpace(p), s) && h(s).None?
      ensures !Search.GoalIn(TemporalSpace(p), s, n)
    {
      if Search.GoalIn(TemporalSpace(p), s, n) {
        var k: nat :| Search.ReachedIn(TemporalSpace(p), s, k);
        var before := ReachedInIsReached(p, s, k);
        var plan := GoalInIsPlan(p, s, n);
        GoalIsLayered(p, before, s, plan);
      }
    }
  }

  lemma GoalIsLayered(p: Problem, before: seq<nat>, s: State, plan: seq<nat>)
    requires WellFormed(p) && Balanced(p) && Reached(p, before, s) && ValidState(p, s) && PlanTo(p, s, plan)
    ensures L.GoalAt(GraphOf(p), StartOf(p, s), |plan|)
  {
    RunsAreLayered(p, before, s, plan);
  }

  /** A heuristic that answers None only where the delete relaxation of the state does. */
  ghost predicate AnswersRelaxedDeadEnds(src: RT.Source, h: State -> Option<real>)
    requires WellFormed(src.p)
  {
    forall s | h(s).None? && Begun(src.p, s.todo) ::
      exists t :: RT.TaskOf(src, RE.Full(src.p, DR.SnapshotOf(s))) == Some(t) && t.ops != []
               && RH.RelaxedValue(src, t, DR.SnapshotOf(s)).None?
  }

  /** hadd, hff and hmax, whose answers are those of the relaxation
      (`DeleteRelaxationHeuristic.Eval`), answer None only in dead ends. */
  lemma RelaxedIsSafe(src: RT.Source, h: State -> Option<real>)
    requires RL.Encodable(src) && Balanced(src.p) && AnswersRelaxedDeadEnds(src, h)
    ensures Search.SafeHeuristic(TemporalSpace(src.p), h)
  {
    var p := src.p;
    assert WellFormed(p);
    hide RL.Encodable, Balanced, AnswersRelaxedDeadEnds, TemporalSpace, Search.Reached, Search.GoalIn, WellFormed;
    forall s, n: nat | Search.Reached(TemporalSpace(p), s) && h(s).None?
      ensures !Search.GoalIn(TemporalSpace(p), s, n)
    {
      if Search.GoalIn(TemporalSpace(p), s, n) {
        var before := SearchReached(p, s);
        RelaxedAnswersPlan(src, h, before, s, n);
      }
    }
  }

  lemma SearchReached(p: Problem, s: State) returns (before: seq<nat>)
    requires WellFormed(p) && Search.Reached(TemporalSpace(p), s)
    ensures Reached(p, before, s) && ValidState(p, s)
  {
    var k: nat :| Search.ReachedIn(TemporalSpace(p), s, k);
    before := ReachedInIsReached(p, s, k);
  }

  lemma RelaxedAnswersPlan(src: RT.Source, h: State -> Option<real>, before: seq<nat>, s: State, n: nat)
    requires RL.Encodable(src) && Balanced(src.p) && WellFormed(src.p) && AnswersRelaxedDeadEnds(src, h)
    requires Reached(src.p, before, s) && ValidState(src.p, s) && Search.GoalIn(TemporalSpace(src.p), s, n)
    ensures h(s).Some?
  {
    ReachedBegun(src.p, before, s);
    var plan := GoalInIsPlan(src.p, s, n);
    assert Run(src.p, s, plan).Some? && IsGoal(src.p, Run(src.p, s, plan).value);
    hide RL.Encodable, Balanced, Reached, Run, RT.TaskOf, RH.RelaxedValue;
    if h(s).None? {
      var t :| RT.TaskOf(src, RE.Full(src.p, DR.SnapshotOf(s))) == Some(t) && t.ops != []
        && RH.RelaxedValue(src, t, DR.SnapshotOf(s)).None?;
      RH.ValueIsSafe(src, before, s, plan, t);
    }
  }

  lemma {:induction false} ReachedIsReachedIn(p: Problem, plan: seq<nat>, s: State)
    requires WellFormed(p) && Reached(p, plan, s)
    ensures Search.ReachedIn(TemporalSpace(p), s, |plan|)
    decreases |plan|
  {
    hide *;
    if plan == [] {
      SpaceInit(p);
      NowhereYet(p, s);
      Search.AtOnce(TemporalSpace(p), s);
    } else {
      var (last, a) := (|plan| - 1, plan[|plan| - 1]);
      var s0 := ReachedLast(p, plan, s);
      StepFrom(p, s0, a, s);
      ReachedIsReachedIn(p, plan[..last], s0);
      OneMore(TemporalSpace(p), s0, s, last);
    }
  }

  lemma NowhereYet(p: Problem, s: State)
    requires WellFormed(p) && Reached(p, [], s)
    ensures Initial(p) == Some(s)
  {
  }

  lemma OneMore(sp: Search.Space<State>, t: State, s: State, n: nat)
    requires Search.ReachedIn(sp, t, n) && s in sp.succ(t)
    ensures Search.ReachedIn(sp, s, n + 1)
  {
  }

  lemma StepFrom(p: Problem, t: State, a: nat, s: State)
    requires WellFormed(p) && ValidState(p, t) && Step(p, t, a) == Some(s)
    ensures s in TemporalSpace(p).succ(t)
  {
    ChildrenAre(p, t, 0, s);
  }

  /** `priority_search` on the temporal search space, with the pruning of the visited
      states by dominance: what it finds is reached and a goal, and when it finds no plan
      there is none, for any heuristic whose None is right.  It gives up only when the
      limit is used up, so never with a limit no order of expansion can reach. */
  method TemporalSearch(
    p: Problem, sp: Search.Space<State>, h: State -> Option<real>, redundant: (set<State>, State) -> bool, early: bool,
    limit: nat)
    returns (r: Search.Outcome<State>, ghost path: seq<nat>, ghost taken: seq<State>)
    requires WellFormed(p) && Balanced(p) && ClosesAll(p) && NonNegativeDurations(p)
    requires sp == TemporalSpace(p) && redundant == PruningOf(p)
    requires Search.SafeHeuristic(TemporalSpace(p), h)
    ensures r.Found? ==> Reached(p, path, r.s) && IsGoal(p, r.s)
    ensures r.NoPlan? ==> forall plan, s | Reached(p, plan, s) :: !IsGoal(p, s)
    ensures r.LimitReached? ==> Search.UsedUp(sp, taken, limit) && Search.Alive(h, taken)
    ensures (forall order | Search.Takes(sp, order) :: |order| < limit) ==> !r.LimitReached?
  {
    PruningIsSafe(p);
    r, taken := Search.PrioritySearch(sp, h, redundant, early, limit);
    path := [];
    if r.Found? {
      path := SearchReached(p, r.s);
    }
    if r.NoPlan? {
      forall plan, s | Reached(p, plan, s) ensures !IsGoal(p, s) {
        ReachedIsReachedIn(p, plan, s);
        assert Search.Reached(sp, s);
      }
    }
  }
}
