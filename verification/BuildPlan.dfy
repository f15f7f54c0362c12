/**
 `build_plan`: replays a path the search found, schedules it from the looser plan
 network, and reads off when each action starts and how long it takes.
*/
module BuildPlan {
  import opened Options
  import opened Expr
  import opened Temporal
  import opened TwoEdges
  import opened PlanNetwork
  import opened SearchSpace
  import Stn

  // ---- what the plan network says about a whole path ----

  lemma {:induction false} PlanEdgesAppend(p: Problem, s: State, plan: seq<nat>, a: nat)
    requires WellFormed(p) && ValidState(p, s) && Run(p, s, plan + [a]).Some?
    ensures Run(p, s, plan).Some? && ValidState(p, Run(p, s, plan).value)
    ensures Step(p, Run(p, s, plan).value, a) == Run(p, s, plan + [a])
    ensures PlanEdges(p, s, plan + [a]) == PlanEdges(p, s, plan) + PlanStep(p, Run(p, s, plan).value, a)
    decreases |plan|
  {
    hide Step, ValidState, WellFormed, PlanStep;
    RunPrefix(p, s, plan + [a], |plan|);
    assert (plan + [a])[..|plan|] == plan;
    RunAppend(p, s, plan, a);
    if plan == [] {
      assert (plan + [a])[1..] == [];
      StepValid(p, s, a);
      assert PlanEdges(p, Step(p, s, a).value, []) == {};
      assert PlanEdges(p, s, []) == {};
    } else {
      assert (plan + [a])[1..] == plan[1..] + [a];
      StepValid(p, s, plan[0]);
      PlanEdgesAppend(p, Step(p, s, plan[0]).value, plan[1..], a);
    }
  }

  /** All that `build_plan` adds for the path `plan`. */
  ghost function PlanNetworkOf(p: Problem, plan: seq<nat>): Network
    requires WellFormed(p) && Initial(p).Some?
    requires ValidState(p, Initial(p).value) && Run(p, Initial(p).value, plan).Some?
  {
    InitialPlan(p) + PlanEdges(p, Initial(p).value, plan)
  }

  ghost predicate Found(p: Problem, plan: seq<nat>)
    requires WellFormed(p)
  {
    Initial(p).Some? && ValidState(p, Initial(p).value) && Run(p, Initial(p).value, plan).Some?
  }

  ghost function StateAfter(p: Problem, plan: seq<nat>): State
    requires WellFormed(p) && Found(p, plan)
  {
    Run(p, Initial(p).value, plan).value
  }

  lemma FoundPrefix(p: Problem, plan: seq<nat>, k: nat)
    requires WellFormed(p) && Found(p, plan) && k <= |plan|
    ensures Found(p, plan[..k]) && ValidState(p, StateAfter(p, plan[..k]))
    ensures k < |plan| ==>
      && Found(p, plan[..k + 1])
      && Step(p, StateAfter(p, plan[..k]), plan[k]) == Some(StateAfter(p, plan[..k + 1]))
      && PlanNetworkOf(p, plan[..k + 1])
         == PlanNetworkOf(p, plan[..k]) + PlanStep(p, StateAfter(p, plan[..k]), plan[k])
  {
    hide Initial, Run, Step, ValidState, WellFormed, PlanStep, InitialPlan, PlanEdges;
    var s1 := Initial(p).value;
    RunPrefix(p, s1, plan, k);
    if k < |plan| {
      RunPrefix(p, s1, plan, k + 1);
      assert plan[..k + 1] == plan[..k] + [plan[k]];
      PlanEdgesAppend(p, s1, plan[..k], plan[k]);
    }
  }

  /** Every schedule the search allows is one the plan network allows: the plan
      is satisfiable whenever the path was found. */
  lemma {:induction false} PlanEntailed(p: Problem, plan: seq<nat>, t: Schedule)
    requires WellFormed(p) && Found(p, plan)
    requires Stn.Satisfies(t, StateAfter(p, plan).network)
    ensures Stn.Satisfies(t, PlanNetworkOf(p, plan))
    decreases |plan|
  {
    if plan == [] {
      InitialEntailed(p, t);
    } else {
      var k := |plan| - 1;
      assert plan[..k + 1] == plan;
      FoundPrefix(p, plan, k);
      var s0, a := StateAfter(p, plan[..k]), plan[k];
      hide Run, Step, WellFormed, PlanStep, InitialPlan, PlanEdges, ValidState;
      NetworkGrows(p, s0, a);
      PlanEntailed(p, plan[..k], t);
      ReachedOrdered(p, plan[..k], s0, t);
      StepEntailed(p, s0, a, t);
    }
  }

  lemma NetworkGrows(p: Problem, s: State, a: nat)
    requires WellFormed(p) && ValidState(p, s) && Step(p, s, a).Some?
    ensures s.network <= Step(p, s, a).value.network
  {
    var e, n, todo, opening := StepExpands(p, s, a);
    ExpandContains(p, s, Step(p, s, a).value, e, n, todo, opening);
  }

  /** The timepoints of one opened action are where they should be: it lasts as its
      duration says in the state it was opened in, and its events are at their delays. */
  ghost predicate OnTime(p: Problem, s: State, a: nat, n: nat, t: Schedule)
    requires a < |p.actions|
  {
    MayLast(p, a, s.assignment, t(ActionEnd(a, n)) - t(ActionStart(a, n))) && AtTheirDelays(p, a, n, t)
  }

  lemma PlanActionOnTime(p: Problem, s: State, a: nat, n: nat, t: Schedule)
    requires a < |p.actions| && DurationBounds(p, a, s.assignment).Some?
    ensures Stn.Satisfies(t, PlanAction(p, a, n, DurationBounds(p, a, s.assignment).value)) <==> OnTime(p, s, a, n, t)
  {
    BoundsExact(p, a, s.assignment);
    DurationExact(a, n, DurationBounds(p, a, s.assignment).value, t);
    RigidExact(p, a, n, t);
    hide DurationBounds, MayLast, AtTheirDelays, DurationEdges, RigidEdges;
  }

  // If the `k`-th action of the plan is opened there, rather than continued, it
  // is on time.
  ghost predicate OpenedOnTime(p: Problem, plan: seq<nat>, k: nat, t: Schedule)
    requires WellFormed(p) && k < |plan|
  {
    Found(p, plan[..k]) && plan[k] !in StateAfter(p, plan[..k]).todo ==>
      && plan[k] < |p.actions|
      && OnTime(p, StateAfter(p, plan[..k]), plan[k], StateAfter(p, plan[..k]).instances, t)
  }

  /** A schedule of the plan network is a plan: every action it opens keeps its
      duration bounds and delays, mutex events are epsilon apart, and events that
      matter to each other's durative conditions keep their order. */
  ghost predicate IsPlan(p: Problem, plan: seq<nat>, t: Schedule)
    requires WellFormed(p) && Found(p, plan)
  {
    && (forall k | 0 <= k < |plan| :: OpenedOnTime(p, plan, k, t))
    && IsPath(p, StateAfter(p, plan).path)
    && KeepsOrder(p, StateAfter(p, plan).path, t)
    && (p.timed.Some? ==> TimedOnTime(p, t))
  }

  ghost predicate KeepsOrder(p: Problem, path: Path, t: Schedule)
    requires IsPath(p, path)
  {
    forall i, j | 0 <= i < j < |path| ::
      && (Mutex(p, Id(path[j]), Id(path[i])) ==> t(At(path[i])) + p.epsilon <= t(At(path[j])))
      && (Precedence(p, Id(path[i]), Id(path[j])) ==> t(At(path[i])) <= t(At(path[j])))
  }

  ghost predicate TimedOnTime(p: Problem, t: Schedule)
    requires p.timed.Some?
  {
    && p.timed.value < |p.actions|
    && OnTime(p, EmptyState(p), p.timed.value, 0, t)
    && t(ActionStart(p.timed.value, 0)) == t(PlanStart)
  }

  lemma PlanPastKeepsOrder(p: Problem, path: Path, last: (nat, nat, nat), t: Schedule)
    requires p.epsilon > 0 && IsPath(p, path) && IsEvent(p, Id(last)) && KeepsOrder(p, path, t)
    requires Stn.Satisfies(t, PlanPast(p, path, Id(last), At(last)))
    ensures IsPath(p, path + [last]) && KeepsOrder(p, path + [last], t)
  {
    hide Mutex, Precedence;
    forall i | 0 <= i < |path| && (Mutex(p, Id(last), Id(path[i])) || Precedence(p, Id(path[i]), Id(last)))
      ensures t(At(path[i])) + GapFor(p, Id(last), Id(path[i])) <= t(At(last))
    {
      assert Before(At(path[i]), At(last), GapFor(p, Id(last), Id(path[i]))) in PlanPast(p, path, Id(last), At(last));
    }
  }

  lemma PlanStepKeepsOrder(p: Problem, s: State, a: nat, t: Schedule)
    requires WellFormed(p) && ValidState(p, s) && Step(p, s, a).Some?
    requires Stn.Satisfies(t, PlanStep(p, s, a)) && KeepsOrder(p, s.path, t)
    ensures IsPath(p, Step(p, s, a).value.path) && KeepsOrder(p, Step(p, s, a).value.path, t)
    ensures a !in s.todo ==> a < |p.actions| && OnTime(p, s, a, s.instances, t)
  {
    var e, n, todo, opening := StepExpands(p, s, a);
    ExpandContains(p, s, Step(p, s, a).value, e, n, todo, opening);
    var at := EventAt(e.0, e.1, n);
    assert PlanPast(p, s.path, e, at) <= PlanStep(p, s, a);
    hide Step, Mutex, Precedence, KeepsOrder, Fire;
    PlanPastKeepsOrder(p, s.path, (e.0, e.1, n), t);
    if a !in s.todo {
      PlanActionOnTime(p, s, a, n, t);
    }
  }

  lemma InitialPlanIsPlan(p: Problem, t: Schedule)
    requires WellFormed(p) && Initial(p).Some? && Stn.Satisfies(t, InitialPlan(p))
    ensures p.timed.Some? ==> TimedOnTime(p, t)
    ensures IsPath(p, Initial(p).value.path) && |Initial(p).value.path| <= 1
  {
    if p.timed.Some? {
      var e, n, todo, opening := InitialExpands(p);
      ExpandContains(p, EmptyState(p), Initial(p).value, e, n, todo, opening);
      var a := p.timed.value;
      assert Before(PlanStart, ActionStart(a, 0), 0) in InitialPlan(p);
      assert Before(ActionStart(a, 0), PlanStart, 0) in InitialPlan(p);
      PlanActionOnTime(p, EmptyState(p), a, 0, t);
    }
  }

  lemma EarlierOnTime(p: Problem, plan: seq<nat>, k: nat, i: nat, t: Schedule)
    requires WellFormed(p) && i < k < |plan| && OpenedOnTime(p, plan[..k], i, t)
    ensures OpenedOnTime(p, plan, i, t)
  {
    assert plan[..k][..i] == plan[..i] && plan[..k][i] == plan[i];
  }

  lemma LastOnTime(p: Problem, plan: seq<nat>, t: Schedule)
    requires WellFormed(p) && Found(p, plan) && plan != []
    requires var k := |plan| - 1;
      Found(p, plan[..k]) ==> plan[k] !in StateAfter(p, plan[..k]).todo ==>
        plan[k] < |p.actions| && OnTime(p, StateAfter(p, plan[..k]), plan[k], StateAfter(p, plan[..k]).instances, t)
    ensures OpenedOnTime(p, plan, |plan| - 1, t)
  {
  }

  lemma PlanGrows(p: Problem, plan: seq<nat>, k: nat, t: Schedule)
    requires WellFormed(p) && Found(p, plan) && k + 1 == |plan|
    requires Found(p, plan[..k]) && IsPlan(p, plan[..k], t) && ValidState(p, StateAfter(p, plan[..k]))
    requires Step(p, StateAfter(p, plan[..k]), plan[k]) == Some(StateAfter(p, plan))
    requires Stn.Satisfies(t, PlanStep(p, StateAfter(p, plan[..k]), plan[k]))
    ensures IsPlan(p, plan, t)
  {
    hide WellFormed, Found, StateAfter, Step, PlanStep, KeepsOrder, OnTime, TimedOnTime, OpenedOnTime, ValidState;
    PlanStepKeepsOrder(p, StateAfter(p, plan[..k]), plan[k], t);
    forall i | 0 <= i < |plan| ensures OpenedOnTime(p, plan, i, t) {
      if i < k {
        EarlierOnTime(p, plan, k, i, t);
      } else {
        LastOnTime(p, plan, t);
      }
    }
  }

  /** Every schedule of the plan network is a plan. */
  lemma {:induction false} ScheduleIsPlan(p: Problem, plan: seq<nat>, t: Schedule)
    requires WellFormed(p) && Found(p, plan)
    requires Stn.Satisfies(t, PlanNetworkOf(p, plan))
    ensures IsPlan(p, plan, t)
    decreases |plan|
  {
    if plan == [] {
      InitialPlanIsPlan(p, t);
    } else {
      hide *;
      var k := |plan| - 1;
      assert plan[..k + 1] == plan;
      FoundPrefix(p, plan, k);
      SatisfiesParts(t, PlanNetworkOf(p, plan[..k]), PlanStep(p, StateAfter(p, plan[..k]), plan[k]));
      ScheduleIsPlan(p, plan[..k], t);
      PlanGrows(p, plan, k, t);
    }
  }

  lemma SatisfiesParts(t: Schedule, m: Network, n: Network)
    requires Stn.Satisfies(t, m + n)
    ensures Stn.Satisfies(t, m) && Stn.Satisfies(t, n)
  {
  }

  /** The earliest schedule of the plan network is no later anywhere than any
      non-negative schedule of the search state, so it meets the deadline too. */
  lemma PlanNoLater(p: Problem, plan: seq<nat>, times: Schedule, t: Schedule)
    requires WellFormed(p) && Found(p, plan)
    requires Stn.Earliest(times, PlanNetworkOf(p, plan))
    requires Stn.Satisfies(t, StateAfter(p, plan).network) && Stn.NonNegative(t)
    ensures forall v :: times(v) <= t(v)
  {
    PlanEntailed(p, plan, t);
  }

  // ---- the algorithm ----

  class PlanBuilder {
    const p: Problem
    const mutex: MutexChecker
    const precedence: PrecedenceChecker
    const tn: Tn

    constructor (p: Problem)
      ensures Valid() && this.p == p && fresh(mutex) && fresh(precedence) && fresh(tn)
      ensures tn.added == {} && tn.isSat
    {
      this.p := p;
      mutex := new MutexChecker(p);
      precedence := new PrecedenceChecker(p);
      tn := new Stn.DeltaStn();
    }

    ghost predicate Valid()
      reads this, mutex, precedence, tn
    {
      && mutex.Valid() && mutex.p == p
      && precedence.Valid() && precedence.p == p
      && tn.Valid()
    }

    // Orders the new event after the past ones it interferes with.
    method AddPast(path: Path, e: EventId, at: Timepoint)
      requires Valid() && IsPath(p, path) && IsEvent(p, e)
      modifies tn, mutex, precedence
      ensures Valid() && tn.added == old(tn.added) + PlanPast(p, path, e, at)
    {
      hide Mutex, Precedence, Stn.DeltaStn.Valid;
      ghost var base := tn.added;
      for i := 0 to |path|
        invariant Valid() && tn.added == base + PastUpTo(p, path, i, e, at)
      {
        var e2 := path[i];
        PastUpToStep(p, path, i, e, at);
        var are := mutex.Check(e, Id(e2));
        if are {
          tn.Add(At(e2), at, -p.epsilon);
        } else {
          var precedes := precedence.Check(Id(e2), e);
          if precedes {
            tn.Add(At(e2), at, 0);
          }
        }
      }
    }

    // Orders the pending events that interfere with it after the new one.
    method AddTodo(todo: map<nat, (nat, nat)>, e: EventId, at: Timepoint)
      requires Valid() && IsTodo(p, todo) && IsEvent(p, e)
      modifies tn, mutex
      ensures Valid() && tn.added == old(tn.added) + PlanTodo(p, todo, e, at)
    {
      hide Mutex, Stn.DeltaStn.Valid;
      ghost var base := tn.added;
      var rest := todo.Keys;
      while rest != {}
        invariant rest <= todo.Keys && Valid()
        invariant tn.added == base + PlanTodo(p, todo - rest, e, at)
        decreases |rest|
      {
        var a :| a in rest;
        AddPending(a, todo[a].0, todo[a].1, e, at);
        PlanTodoSplit(p, todo, rest, a, e, at);
        rest := rest - {a};
      }
      assert todo - rest == todo;
    }

    method AddPending(a: nat, i: nat, n: nat, e: EventId, at: Timepoint)
      requires Valid() && a < |p.actions| && IsEvent(p, e)
      modifies tn, mutex
      ensures Valid() && tn.added == old(tn.added) + PlanPending(p, a, i, |p.actions[a].events|, n, e, at)
    {
      hide Mutex, Stn.DeltaStn.Valid;
      ghost var base := tn.added;
      var len := |p.actions[a].events|;
      if i >= len {
        return;
      }
      for j := i to len
        invariant Valid() && tn.added == base + PlanPending(p, a, i, j, n, e, at)
      {
        var are := mutex.Check(e, (a, j));
        assert PlanPending(p, a, i, j + 1, n, e, at) == PlanPending(p, a, i, j, n, e, at)
            + if Mutex(p, e, (a, j)) then {Before(at, EventAt(a, j, n), p.epsilon)} else {};
        if are {
          tn.Add(at, EventAt(a, j, n), -p.epsilon);
        }
      }
    }

    /** `add_action_to_plan_network`. */
    method AddAction(a: nat, n: nat, bounds: (int, int))
      requires Valid() && a < |p.actions|
      modifies tn
      ensures Valid() && tn.added == old(tn.added) + PlanAction(p, a, n, bounds)
    {
      hide DurationEdges, RigidEdges, Stn.DeltaStn.Valid;
      AddDurationEdges(a, n, bounds, tn);
      AddRigidEdges(p, a, n, tn);
    }

    // The edges between one event and the others.
    method AddEvent(path: Path, todo: map<nat, (nat, nat)>, e: EventId, at: Timepoint)
      requires Valid() && IsPath(p, path) && IsTodo(p, todo) && IsEvent(p, e)
      modifies tn, mutex, precedence
      ensures Valid() && tn.added == old(tn.added) + (PlanPast(p, path, e, at) + PlanTodo(p, todo, e, at))
    {
      hide PlanPast, PlanTodo, Stn.DeltaStn.Valid;
      AddPast(path, e, at);
      AddTodo(todo, e, at);
    }

    // The timed action, opened at time 0.
    method AddTimed(assignment: Assignment)
      requires Valid() && WellFormed(p) && p.timed.Some? && Initial(p).Some?
      modifies tn
      ensures Valid() && tn.added == old(tn.added) + InitialPlan(p)
    {
      hide PlanAction, Stn.DeltaStn.Valid, DurationBounds, Expand, Applicable;
      var a := p.timed.value;
      TimedBounds(p, assignment);
      AddAction(a, 0, DurationBounds(p, a, assignment).value);
      tn.Add(PlanStart, ActionStart(a, 0), 0);
      tn.Add(ActionStart(a, 0), PlanStart, 0);
    }

    // A newly opened action and its first event.
    method AddOpened(path: Path, todo: map<nat, (nat, nat)>, a: nat, n: nat, bounds: (int, int))
      requires Valid() && WellFormed(p) && IsPath(p, path) && IsTodo(p, todo) && a < |p.actions|
      modifies tn, mutex, precedence
      ensures Valid()
      ensures tn.added == old(tn.added) + PlanAction(p, a, n, bounds)
                          + (if p.timed.Some? then {Before(PlanStart, ActionStart(a, n), 0)} else {})
                          + (PlanPast(p, path, (a, 0), EventAt(a, 0, n)) + PlanTodo(p, todo, (a, 0), EventAt(a, 0, n)))
    {
      hide PlanPast, PlanTodo, PlanAction, Stn.DeltaStn.Valid;
      AddAction(a, n, bounds);
      if p.timed.Some? {
        tn.Add(PlanStart, ActionStart(a, n), 0);
      }
      AddEvent(path, todo, (a, 0), EventAt(a, 0, n));
    }

    // The edges for one action of the path, replayed from the state `s`.
    method AddStep(path: Path, todo: map<nat, (nat, nat)>, instances: nat, assignment: Assignment, a: nat, ghost s: State)
      requires Valid() && WellFormed(p) && ValidState(p, s) && Step(p, s, a).Some?
      requires path == s.path && todo == s.todo && instances == s.instances && assignment == s.assignment
      modifies tn, mutex, precedence
      ensures Valid() && tn.added == old(tn.added) + PlanStep(p, s, a)
    {
      hide PlanPast, PlanTodo, PlanAction, Stn.DeltaStn.Valid, Expand, Applicable, OpeningEdges, DurationBounds;
      if a in todo {
        var (i, n) := todo[a];
        var todo' := if i + 1 >= |p.actions[a].events| then todo - {a} else todo[a := (i + 1, n)];
        AddEvent(path, todo', (a, i), EventAt(a, i, n));
      } else {
        var bounds := DurationBounds(p, a, assignment).value;
        AddOpened(path, todo, a, instances, bounds);
      }
    }
  }

  // The duration of the timed action is the same in every state.
  lemma TimedBounds(p: Problem, s: Assignment)
    requires WellFormed(p) && p.timed.Some?
    ensures DurationBounds(p, p.timed.value, s) == DurationBounds(p, p.timed.value, p.init)
  {
    var d := p.actions[p.timed.value].duration;
    if d.Some? {
      EvalReadsFluents(d.value.lower, s, p.init, p.functions);
      EvalReadsFluents(d.value.upper, s, p.init, p.functions);
    }
  }

  ghost function PastUpTo(p: Problem, path: Path, k: nat, e: EventId, at: Timepoint): Network
    requires IsPath(p, path) && IsEvent(p, e) && k <= |path|
  {
    set i | 0 <= i < k && (Mutex(p, e, Id(path[i])) || Precedence(p, Id(path[i]), e)) ::
      Before(At(path[i]), at, GapFor(p, e, Id(path[i])))
  }

  lemma PastUpToStep(p: Problem, path: Path, k: nat, e: EventId, at: Timepoint)
    requires IsPath(p, path) && IsEvent(p, e) && k < |path|
    ensures PastUpTo(p, path, k + 1, e, at) == PastUpTo(p, path, k, e, at)
      + if Mutex(p, e, Id(path[k])) || Precedence(p, Id(path[k]), e)
        then {Before(At(path[k]), at, GapFor(p, e, Id(path[k])))} else {}
    ensures k + 1 == |path| ==> PastUpTo(p, path, k + 1, e, at) == PlanPast(p, path, e, at)
  {
    hide Mutex, Precedence, GapFor;
  }

  ghost function PlanPending(p: Problem, a: nat, i: nat, k: nat, n: nat, e: EventId, at: Timepoint): Network
    requires a < |p.actions| && IsEvent(p, e) && k <= |p.actions[a].events|
  {
    set j | i <= j < k && Mutex(p, e, (a, j)) :: Before(at, EventAt(a, j, n), p.epsilon)
  }

  lemma PlanTodoSplit(p: Problem, todo: map<nat, (nat, nat)>, rest: set<nat>, a: nat, e: EventId, at: Timepoint)
    requires IsTodo(p, todo) && IsEvent(p, e) && rest <= todo.Keys && a in rest
    ensures PlanTodo(p, todo - (rest - {a}), e, at)
         == PlanTodo(p, todo - rest, e, at) + PlanPending(p, a, todo[a].0, |p.actions[a].events|, todo[a].1, e, at)
  {
    hide Mutex;
    var (l, m, r) := (PlanTodo(p, todo - (rest - {a}), e, at), PlanTodo(p, todo - rest, e, at),
                      PlanPending(p, a, todo[a].0, |p.actions[a].events|, todo[a].1, e, at));
    forall c | c in l ensures c in m + r {
      var b, j :| b in todo - (rest - {a}) && todo[b].0 <= j < |p.actions[b].events| && Mutex(p, e, (b, j))
        && c == Before(at, EventAt(b, j, todo[b].1), p.epsilon);
    }
  }
}
