/**
 What the plan network and the search network say, in the terms of the problem: how long
 every action may take, and that the plan network of a complete path asks for nothing a
 plan need not meet.  So the plan extracted is the earliest there is.
*/
module PlanExact {
  import opened Options
  import opened Expr
  import opened Temporal
  import opened TwoEdges
  import opened PlanNetwork
  import opened BuildPlan
  import opened ScheduledPlan
  import opened PlanCorrect
  import D = Deordering
  import Stn

  // The `k`-th action of the plan is opened there.
  ghost predicate OpensAt(p: Problem, plan: seq<nat>, k: nat)
    requires WellFormed(p)
  {
    k < |plan| && plan[k] < |p.actions| && Found(p, plan[..k]) && plan[k] !in StateAfter(p, plan[..k]).todo
  }

  /** Every action a schedule of the search opens lasts as its duration says in the state
      it was opened in, and has its events at their delays. */
  lemma SearchDurations(p: Problem, plan: seq<nat>, k: nat, t: Schedule)
    requires WellFormed(p) && Found(p, plan) && OpensAt(p, plan, k)
    requires Stn.Satisfies(t, StateAfter(p, plan).network)
    ensures var (s, a) := (StateAfter(p, plan[..k]), plan[k]);
      && MayLast(p, a, s.assignment, t(ActionEnd(a, s.instances)) - t(ActionStart(a, s.instances)))
      && AtTheirDelays(p, a, s.instances, t)
      && t(PlanStart) <= t(ActionStart(a, s.instances))
      && t(ActionEnd(a, s.instances)) + p.epsilon <= t(PlanEnd)
  {
    hide Found, StateAfter, Run, Initial, WellFormed, MayLast, AtTheirDelays, Step, PlanNetworkOf, PlanStep, ValidState,
      Stn.Satisfies;
    FoundPrefix(p, plan, k);
    PathPrefix(p, plan, k + 1);
    StepDurations(p, StateAfter(p, plan[..k]), plan[k], StateAfter(p, plan).network, t);
  }

  lemma StepDurations(p: Problem, s: State, a: nat, net: Network, t: Schedule)
    requires WellFormed(p) && ValidState(p, s) && Step(p, s, a).Some? && a < |p.actions| && a !in s.todo
    requires Step(p, s, a).value.network <= net && Stn.Satisfies(t, net)
    ensures MayLast(p, a, s.assignment, t(ActionEnd(a, s.instances)) - t(ActionStart(a, s.instances)))
    ensures AtTheirDelays(p, a, s.instances, t)
    ensures t(PlanStart) <= t(ActionStart(a, s.instances))
    ensures t(ActionEnd(a, s.instances)) + p.epsilon <= t(PlanEnd)
  {
    var e, n, todo, opening := StepExpands(p, s, a);
    ExpandContains(p, s, Step(p, s, a).value, e, n, todo, opening);
    OpeningExact(p, a, n, s.assignment, false, t);
    hide Step, Expand, MayLast, AtTheirDelays, DurationBounds, OpeningEdges, TodoEdges, Applicable;
  }

  /** The duration the plan gives an action is one its interval allows, in the state the
      action is opened in; it starts where it is scheduled, counted from the time 0 of the
      timed effects. */
  lemma PlanDurations(p: Problem, plan: seq<nat>, t: Schedule, k: nat)
    requires WellFormed(p) && Found(p, plan) && IsPlan(p, plan, t) && OpensAt(p, plan, k)
    ensures var s := StateAfter(p, plan[..k]);
      var (start, duration) := Placed(t, p.timed.Some?, plan[k], s.instances);
      && MayLast(p, plan[k], s.assignment, if duration.None? then 0 else duration.value)
      && start + (if p.timed.Some? then t(PlanStart) else 0) == t(ActionStart(plan[k], s.instances))
  {
    assert OpenedOnTime(p, plan, k, t);
  }

  // ---- nothing else is asked ----

  lemma StepAdvances(p: Problem, s: State, a: nat) returns (e: EventId, n: nat)
    requires WellFormed(p) && ValidState(p, s) && Step(p, s, a).Some?
    ensures var s' := Step(p, s, a).value;
      && IsEvent(p, e) && e.0 == a && s'.path == s.path + [(e.0, e.1, n)]
      && (a in s.todo ==> s.todo[a] == (e.1, n))
      && (a in s.todo && e.1 + 1 < |p.actions[a].events| ==> a in s'.todo && s'.todo[a] == (e.1 + 1, n))
      && (a !in s.todo ==> e.1 == 0 && n == s.instances)
      && forall b | b in s.todo && b != a :: b in s'.todo && s'.todo[b] == s.todo[b]
  {
    var todo, opening;
    e, n, todo, opening := StepExpands(p, s, a);
  }

  /** An event pending after `k` actions of a complete path fires after them. */
  lemma {:induction false} PendingFires(p: Problem, plan: seq<nat>, k: nat, a: nat, j: nat)
    requires WellFormed(p) && Found(p, plan) && StateAfter(p, plan).todo == map[] && k <= |plan|
    requires Found(p, plan[..k]) && a in StateAfter(p, plan[..k]).todo && a < |p.actions|
    requires StateAfter(p, plan[..k]).todo[a].0 <= j < |p.actions[a].events|
    ensures exists i :: |StateAfter(p, plan[..k]).path| <= i < |StateAfter(p, plan).path|
              && StateAfter(p, plan).path[i] == (a, j, StateAfter(p, plan[..k]).todo[a].1)
    decreases |plan| - k
  {
    hide *;
    var path := StateAfter(p, plan).path;
    if k == |plan| {
      CompleteDone(p, plan, k, a);
    } else {
      var e, n := NextAdvances(p, plan, k);
      if (e.0, e.1) != (a, j) {
        PendingFires(p, plan, k + 1, a, j);
      }
    }
  }

  lemma CompleteDone(p: Problem, plan: seq<nat>, k: nat, a: nat)
    requires WellFormed(p) && Found(p, plan) && StateAfter(p, plan).todo == map[] && k == |plan|
    requires Found(p, plan[..k])
    ensures a !in StateAfter(p, plan[..k]).todo
  {
    assert plan[..k] == plan;
  }

  // The `k`-th step, on the path of the whole plan.
  lemma NextAdvances(p: Problem, plan: seq<nat>, k: nat) returns (e: EventId, n: nat)
    requires WellFormed(p) && Found(p, plan) && k < |plan| && Found(p, plan[..k])
    ensures Found(p, plan[..k + 1]) && ValidState(p, StateAfter(p, plan[..k]))
    ensures Step(p, StateAfter(p, plan[..k]), plan[k]).Some?
    ensures var (s, s', path, a) :=
        (StateAfter(p, plan[..k]), StateAfter(p, plan[..k + 1]), StateAfter(p, plan).path, plan[k]);
      && IsEvent(p, e) && e.0 == a && a < |p.actions|
      && |s.path| + 1 == |s'.path| <= |path| && path[..|s.path|] == s.path && path[|s.path|] == (e.0, e.1, n)
      && (if a in s.todo then s.todo[a] == (e.1, n) else e.1 == 0 && n == s.instances)
      && (a in s.todo && e.1 + 1 < |p.actions[a].events| ==> a in s'.todo && s'.todo[a] == (e.1 + 1, n))
      && (forall b | b in s.todo && b != a :: b in s'.todo && s'.todo[b] == s.todo[b])
  {
    hide *;
    FoundPrefix(p, plan, k);
    PathPrefix(p, plan, k);
    PathPrefix(p, plan, k + 1);
    var (s, s', path) := (StateAfter(p, plan[..k]), StateAfter(p, plan[..k + 1]), StateAfter(p, plan).path);
    e, n := StepAdvances(p, s, plan[k]);
    assert s'.path[|s.path|] == path[|s.path|];
    assert path[..|s.path|] == s.path;
  }

  // The events of the path that a plan keeps in order.
  lemma PastRespected(p: Problem, path: Path, m: nat, t: Schedule)
    requires IsPath(p, path) && KeepsOrder(p, path, t) && m < |path| && IsPath(p, path[..m])
    ensures Stn.Satisfies(t, PlanPast(p, path[..m], Id(path[m]), At(path[m])))
  {
    var net := PlanPast(p, path[..m], Id(path[m]), At(path[m]));
    forall c | c in net ensures Stn.Respects(t, c) {
      var i :| 0 <= i < m && (Mutex(p, Id(path[m]), Id(path[i])) || Precedence(p, Id(path[i]), Id(path[m])))
        && c == Before(At(path[i]), At(path[m]), GapFor(p, Id(path[m]), Id(path[i])));
    }
  }

  ghost predicate ComesLater(path: Path, m: nat, e: (nat, nat, nat)) {
    exists i :: m < i < |path| && path[i] == e
  }

  lemma TodoRespected(
    p: Problem, path: Path, m: nat, todo: map<nat, (nat, nat)>, t: Schedule)
    requires IsPath(p, path) && KeepsOrder(p, path, t) && m < |path| && IsTodo(p, todo)
    requires forall a: nat, j: nat | a in todo && todo[a].0 <= j < |p.actions[a].events| ::
               ComesLater(path, m, (a, j, todo[a].1))
    ensures Stn.Satisfies(t, PlanTodo(p, todo, Id(path[m]), At(path[m])))
  {
    forall c | c in PlanTodo(p, todo, Id(path[m]), At(path[m])) ensures Stn.Respects(t, c) {
      var a: nat, j: nat :| a in todo && todo[a].0 <= j < |p.actions[a].events| && Mutex(p, Id(path[m]), (a, j))
        && c == Before(At(path[m]), EventAt(a, j, todo[a].1), p.epsilon);
      var i :| m < i < |path| && path[i] == (a, j, todo[a].1);
      D.MutexSymmetric(p, Id(path[m]), Id(path[i]));
    }
  }

  // With timed effects no action starts before their time 0.
  ghost predicate StartsAfter(p: Problem, plan: seq<nat>, t: Schedule)
    requires WellFormed(p)
  {
    p.timed.Some? ==> forall k: nat | OpensAt(p, plan, k) ::
      t(PlanStart) <= t(ActionStart(plan[k], StateAfter(p, plan[..k]).instances))
  }

  lemma StepRespected(p: Problem, plan: seq<nat>, k: nat, t: Schedule)
    requires WellFormed(p) && Found(p, plan) && StateAfter(p, plan).todo == map[]
    requires IsPlan(p, plan, t) && StartsAfter(p, plan, t) && k < |plan| && Found(p, plan[..k])
    requires ValidState(p, StateAfter(p, plan[..k])) && Step(p, StateAfter(p, plan[..k]), plan[k]).Some?
    ensures Stn.Satisfies(t, PlanStep(p, StateAfter(p, plan[..k]), plan[k]))
  {
    hide Found, StateAfter, Run, Initial, Step, PlanStep, WellFormed, KeepsOrder, PlanPast, PlanTodo, PlanNetworkOf,
      IsPlan, OnTime, StartsAfter;
    var (s, path, a) := (StateAfter(p, plan[..k]), StateAfter(p, plan).path, plan[k]);
    PlanParts(p, plan, k, t);
    var e, n := NextAdvances(p, plan, k);
    var m := |s.path|;
    var todo := if a !in s.todo then s.todo
                else if e.1 + 1 >= |p.actions[a].events| then s.todo - {a} else s.todo[a := (e.1 + 1, n)];
    assert Id(path[m]) == e && At(path[m]) == EventAt(e.0, e.1, n);
    PastRespected(p, path, m, t);
    forall b: nat, j: nat | b in todo && todo[b].0 <= j < |p.actions[b].events|
      ensures ComesLater(path, m, (b, j, todo[b].1))
    {
      PendingFires(p, plan, k + 1, b, j);
    }
    TodoRespected(p, path, m, todo, t);
    StepParts(p, s, a, e, n, todo, t);
  }

  // What the plan says of its `k`-th step.
  lemma PlanParts(p: Problem, plan: seq<nat>, k: nat, t: Schedule)
    requires WellFormed(p) && Found(p, plan) && k < |plan| && Found(p, plan[..k])
    requires IsPlan(p, plan, t) && StartsAfter(p, plan, t)
    ensures IsPath(p, StateAfter(p, plan).path) && KeepsOrder(p, StateAfter(p, plan).path, t)
    ensures var (s, a) := (StateAfter(p, plan[..k]), plan[k]);
      a < |p.actions| && a !in s.todo ==>
        && OnTime(p, s, a, s.instances, t)
        && (p.timed.Some? ==> t(PlanStart) <= t(ActionStart(a, s.instances)))
  {
    assert OpenedOnTime(p, plan, k, t);
    assert plan[k] < |p.actions| && plan[k] !in StateAfter(p, plan[..k]).todo ==> OpensAt(p, plan, k);
    hide Found, StateAfter, WellFormed, KeepsOrder, OnTime, TimedOnTime;
  }

  lemma StepParts(p: Problem, s: State, a: nat, e: EventId, n: nat, todo: map<nat, (nat, nat)>, t: Schedule)
    requires WellFormed(p) && ValidState(p, s) && Step(p, s, a).Some? && IsEvent(p, e) && e.0 == a && IsTodo(p, todo)
    requires if a in s.todo then s.todo[a] == (e.1, n) else e.1 == 0 && n == s.instances
    requires todo == if a !in s.todo then s.todo
                     else if e.1 + 1 >= |p.actions[a].events| then s.todo - {a} else s.todo[a := (e.1 + 1, n)]
    requires Stn.Satisfies(t, PlanPast(p, s.path, e, EventAt(e.0, e.1, n)))
    requires Stn.Satisfies(t, PlanTodo(p, todo, e, EventAt(e.0, e.1, n)))
    requires a !in s.todo ==>
               OnTime(p, s, a, n, t) && (p.timed.Some? ==> t(PlanStart) <= t(ActionStart(a, n)))
    ensures Stn.Satisfies(t, PlanStep(p, s, a))
  {
    if a !in s.todo {
      PlanActionOnTime(p, s, a, n, t);
    }
    hide Stn.Satisfiable, PlanPast, PlanTodo, PlanAction, OnTime, Fire, Applicable;
  }

  lemma InitialRespected(p: Problem, t: Schedule)
    requires WellFormed(p) && Initial(p).Some? && (p.timed.Some? ==> TimedOnTime(p, t))
    ensures Stn.Satisfies(t, InitialPlan(p))
  {
    if p.timed.Some? {
      PlanActionOnTime(p, EmptyState(p), p.timed.value, 0, t);
    }
  }

  lemma NothingPlanned(p: Problem, plan: seq<nat>, t: Schedule)
    requires WellFormed(p) && Found(p, plan) && IsPlan(p, plan, t)
    ensures Found(p, plan[..0]) && Stn.Satisfies(t, PlanNetworkOf(p, plan[..0]))
  {
    FoundPrefix(p, plan, 0);
    InitialRespected(p, t);
    assert plan[..0] == [];
    hide IsPlan, InitialPlan, Initial;
    assert PlanEdges(p, Initial(p).value, []) == {};
  }

  lemma {:induction false} PlanRespects(p: Problem, plan: seq<nat>, k: nat, t: Schedule)
    requires WellFormed(p) && Found(p, plan) && StateAfter(p, plan).todo == map[] && k <= |plan|
    requires IsPlan(p, plan, t) && StartsAfter(p, plan, t)
    ensures Found(p, plan[..k]) && Stn.Satisfies(t, PlanNetworkOf(p, plan[..k]))
    decreases k
  {
    hide Found, StateAfter, PlanNetworkOf, PlanStep, IsPlan, StartsAfter, WellFormed, Step, ValidState, Run, Initial;
    if k == 0 {
      NothingPlanned(p, plan, t);
    } else {
      FoundPrefix(p, plan, k - 1);
      PlanRespects(p, plan, k - 1, t);
      StepRespected(p, plan, k - 1, t);
    }
  }

  /** The plan network of a complete path has exactly the plans for its schedules: it
      orders no pair that a plan need not order, and moves no action. */
  lemma PlanExactly(p: Problem, plan: seq<nat>, t: Schedule)
    requires WellFormed(p) && Found(p, plan) && StateAfter(p, plan).todo == map[]
    ensures Stn.Satisfies(t, PlanNetworkOf(p, plan)) <==> IsPlan(p, plan, t) && StartsAfter(p, plan, t)
  {
    if IsPlan(p, plan, t) && StartsAfter(p, plan, t) {
      PlanRespects(p, plan, |plan|, t);
      assert plan[..|plan|] == plan;
    }
    if Stn.Satisfies(t, PlanNetworkOf(p, plan)) {
      ScheduleIsPlan(p, plan, t);
      hide PlanNetworkOf, IsPlan, Found, StateAfter, WellFormed;
      forall k: nat | p.timed.Some? && OpensAt(p, plan, k)
        ensures t(PlanStart) <= t(ActionStart(plan[k], StateAfter(p, plan[..k]).instances))
      {
        StartInNetwork(p, plan, k);
      }
    }
  }

  lemma StartInNetwork(p: Problem, plan: seq<nat>, k: nat)
    requires WellFormed(p) && Found(p, plan) && OpensAt(p, plan, k) && p.timed.Some?
    ensures Before(PlanStart, ActionStart(plan[k], StateAfter(p, plan[..k]).instances), 0) in PlanNetworkOf(p, plan)
  {
    StepInNetwork(p, plan, k);
    hide PlanNetworkOf, Found, StateAfter, WellFormed, ValidState, Step, PlanAction, PlanPast, PlanTodo;
  }

  lemma StepInNetwork(p: Problem, plan: seq<nat>, k: nat)
    requires WellFormed(p) && Found(p, plan) && k < |plan|
    ensures Found(p, plan[..k]) && ValidState(p, StateAfter(p, plan[..k]))
    ensures Step(p, StateAfter(p, plan[..k]), plan[k]).Some?
    ensures PlanStep(p, StateAfter(p, plan[..k]), plan[k]) <= PlanNetworkOf(p, plan)
  {
    FoundPrefix(p, plan, k);
    NetworkPrefix(p, plan, k + 1);
  }

  lemma {:induction false} NetworkPrefix(p: Problem, plan: seq<nat>, k: nat)
    requires WellFormed(p) && Found(p, plan) && k <= |plan|
    ensures Found(p, plan[..k]) && PlanNetworkOf(p, plan[..k]) <= PlanNetworkOf(p, plan)
    decreases |plan| - k
  {
    FoundPrefix(p, plan, k);
    if k == |plan| {
      assert plan[..k] == plan;
    } else {
      NetworkPrefix(p, plan, k + 1);
    }
  }

  /** The plan extracted for a complete path is the earliest of all its plans. */
  lemma PlanIsEarliest(p: Problem, plan: seq<nat>, times: Schedule, t: Schedule)
    requires WellFormed(p) && Found(p, plan) && StateAfter(p, plan).todo == map[]
    requires Stn.Earliest(times, PlanNetworkOf(p, plan))
    requires IsPlan(p, plan, t) && StartsAfter(p, plan, t) && Stn.NonNegative(t)
    ensures forall v :: times(v) <= t(v)
  {
    PlanExactly(p, plan, t);
  }

  // ---- the search network of a complete path ----

  // An action is opened as its duration and its delays say, within the plan.
  ghost predicate OpensRight(p: Problem, a: nat, n: nat, s: Assignment, pinned: bool, t: Schedule)
    requires a < |p.actions|
  {
    && MayLast(p, a, s, t(ActionEnd(a, n)) - t(ActionStart(a, n)))
    && AtTheirDelays(p, a, n, t)
    && (if pinned then t(ActionStart(a, n)) == t(PlanStart) else t(PlanStart) <= t(ActionStart(a, n)))
    && t(ActionEnd(a, n)) + p.epsilon <= t(PlanEnd)
  }

  ghost predicate TimedRight(p: Problem, t: Schedule)
    requires WellFormed(p)
  {
    && (p.timed.Some? ==> OpensRight(p, p.timed.value, 0, p.init, true, t))
    && (p.deadline.Some? ==> t(PlanEnd) == t(PlanStart) + p.deadline.value)
  }

  ghost predicate AllRight(p: Problem, plan: seq<nat>, t: Schedule)
    requires WellFormed(p) && Found(p, plan) && IsPath(p, StateAfter(p, plan).path)
  {
    && Ordered(p, StateAfter(p, plan).path, t)
    && TimedRight(p, t)
    && forall k: nat | OpensAt(p, plan, k) ::
         OpensRight(p, plan[k], StateAfter(p, plan[..k]).instances, StateAfter(p, plan[..k]).assignment, false, t)
  }

  lemma {:induction false} ScanRespected(
    p: Problem, path: Path, m: nat, k: nat, isPredecessor: bool, t: Schedule)
    requires IsPath(p, path) && Ordered(p, path, t) && k <= m < |path| && IsPath(p, path[..k])
    ensures Stn.Satisfies(t, PastEdges(p, path[..k], Id(path[m]), At(path[m]), isPredecessor))
    decreases k
  {
    if k > 0 {
      assert path[..k][..k - 1] == path[..k - 1];
      ScanRespected(p, path, m, k - 1, false, t);
      assert t(At(path[k - 1])) + GapFor(p, Id(path[m]), Id(path[k - 1])) <= t(At(path[m]));
      hide Mutex, Ordered;
    }
  }

  lemma PendingRespected(p: Problem, path: Path, m: nat, todo: map<nat, (nat, nat)>, t: Schedule)
    requires p.epsilon >= 0 && IsPath(p, path) && Ordered(p, path, t) && m < |path| && IsTodo(p, todo)
    requires forall a: nat, j: nat | a in todo && todo[a].0 <= j < |p.actions[a].events| ::
               ComesLater(path, m, (a, j, todo[a].1))
    ensures Stn.Satisfies(t, TodoEdges(p, todo, Id(path[m]), At(path[m])))
  {
    forall c | c in TodoEdges(p, todo, Id(path[m]), At(path[m])) ensures Stn.Respects(t, c) {
      var a: nat, j: nat :| a in todo && todo[a].0 <= j < |p.actions[a].events|
        && c == Before(At(path[m]), EventAt(a, j, todo[a].1), GapFor(p, Id(path[m]), (a, j)));
      var i :| m < i < |path| && path[i] == (a, j, todo[a].1);
      D.MutexSymmetric(p, Id(path[m]), Id(path[i]));
    }
  }

  // What a step adds to the network.
  lemma StepAdds(
    p: Problem, s: State, s': State, e: EventId, n: nat, todo: map<nat, (nat, nat)>, opening: Network, pinned: bool,
    t: Schedule)
    requires WellFormed(p) && ValidState(p, s) && Expands(p, s, s', e, n, todo, opening, pinned)
    requires Stn.Satisfies(t, s.network) && Stn.Satisfies(t, PastEdges(p, s.path, e, EventAt(e.0, e.1, n), true))
    requires Stn.Satisfies(t, TodoEdges(p, todo, e, EventAt(e.0, e.1, n)))
    requires opening != {} ==> OpensRight(p, e.0, n, s.assignment, pinned, t)
    ensures Stn.Satisfies(t, s'.network)
  {
    if opening != {} {
      OpeningExact(p, e.0, n, s.assignment, pinned, t);
    }
    hide Fire, Applicable, PastEdges, TodoEdges, OpeningEdges, DurationBounds, OpensRight;
  }

  // The parts of a step along a plan.
  lemma NextExpands(p: Problem, plan: seq<nat>, k: nat) returns (e: EventId, n: nat, opening: Network)
    requires WellFormed(p) && Found(p, plan) && k < |plan| && Found(p, plan[..k])
    ensures Found(p, plan[..k + 1]) && ValidState(p, StateAfter(p, plan[..k]))
    ensures var (s, s', path) := (StateAfter(p, plan[..k]), StateAfter(p, plan[..k + 1]), StateAfter(p, plan).path);
      && |s.path| + 1 == |s'.path| <= |path| && path[..|s.path|] == s.path && path[|s.path|] == (e.0, e.1, n)
      && IsTodo(p, s'.todo) && Expands(p, s, s', e, n, s'.todo, opening, false)
      && (opening != {} ==> OpensAt(p, plan, k) && plan[k] == e.0 && n == s.instances)
  {
    hide Found, StateAfter, Run, Initial, Step, PlanStep, PastEdges, TodoEdges, PlanNetworkOf, Applicable, OpeningEdges,
      DurationBounds, WellFormed, Fire;
    FoundPrefix(p, plan, k);
    e, n := NextAdvances(p, plan, k);
    var e', n', todo, more := StepExpands(p, StateAfter(p, plan[..k]), plan[k]);
    opening := more;
    assert e' == e && n' == n;
  }

  lemma NextRight(p: Problem, plan: seq<nat>, k: nat, t: Schedule)
    requires WellFormed(p) && Found(p, plan) && StateAfter(p, plan).todo == map[] && k < |plan|
    requires IsPath(p, StateAfter(p, plan).path) && AllRight(p, plan, t)
    requires Found(p, plan[..k]) && Stn.Satisfies(t, StateAfter(p, plan[..k]).network)
    ensures Found(p, plan[..k + 1]) && Stn.Satisfies(t, StateAfter(p, plan[..k + 1]).network)
  {
    assert p.epsilon > 0;
    hide Found, StateAfter, Run, Initial, Step, PlanStep, Ordered, PastEdges, TodoEdges, PlanNetworkOf, OpensRight,
      Expands, WellFormed, Stn.Satisfies, TimedRight;
    var path := StateAfter(p, plan).path;
    var e, n, opening := NextExpands(p, plan, k);
    var (s, s') := (StateAfter(p, plan[..k]), StateAfter(p, plan[..k + 1]));
    var m := |s.path|;
    ScanRespected(p, path, m, m, true, t);
    forall b: nat, j: nat | b in s'.todo && s'.todo[b].0 <= j < |p.actions[b].events|
      ensures ComesLater(path, m, (b, j, s'.todo[b].1))
    {
      PendingFires(p, plan, k + 1, b, j);
    }
    PendingRespected(p, path, m, s'.todo, t);
    StepAdds(p, s, s', e, n, s'.todo, opening, false, t);
  }

  lemma FirstRight(p: Problem, plan: seq<nat>, t: Schedule)
    requires WellFormed(p) && Found(p, plan) && StateAfter(p, plan).todo == map[]
    requires IsPath(p, StateAfter(p, plan).path) && AllRight(p, plan, t)
    ensures Found(p, plan[..0]) && Stn.Satisfies(t, StateAfter(p, plan[..0]).network)
  {
    assert p.epsilon > 0;
    hide Found, StateAfter, Run, Initial, Step, Ordered, PastEdges, TodoEdges, PlanNetworkOf, OpensRight, Expands,
      WellFormed, Stn.Satisfies;
    NothingRun(p, plan);
    if p.timed.None? {
      NothingTimed(p, t);
    } else {
      PathPrefix(p, plan, 0);
      var e, n, opening := FirstExpands(p);
      var (s', path) := (Initial(p).value, StateAfter(p, plan).path);
      assert path[0] == s'.path[0];
      forall b: nat, j: nat | b in s'.todo && s'.todo[b].0 <= j < |p.actions[b].events|
        ensures ComesLater(path, 0, (b, j, s'.todo[b].1))
      {
        PendingFires(p, plan, 0, b, j);
      }
      PendingRespected(p, path, 0, s'.todo, t);
      assert path[..0] == [];
      ScanRespected(p, path, 0, 0, true, t);
      assert Stn.Satisfies(t, EmptyState(p).network) by { DeadlineMet(p, t); }
      StepAdds(p, EmptyState(p), s', e, n, s'.todo, opening, true, t);
    }
  }

  lemma DeadlineMet(p: Problem, t: Schedule)
    requires WellFormed(p) && TimedRight(p, t)
    ensures Stn.Satisfies(t, DeadlineEdges(p))
  {
  }

  // Without timed effects the search starts from the deadline alone.
  lemma NothingTimed(p: Problem, t: Schedule)
    requires WellFormed(p) && p.timed.None? && TimedRight(p, t)
    ensures Initial(p).Some? && Stn.Satisfies(t, Initial(p).value.network)
  {
  }

  lemma FirstExpands(p: Problem) returns (e: EventId, n: nat, opening: Network)
    requires WellFormed(p) && p.timed.Some? && Initial(p).Some?
    ensures ValidState(p, EmptyState(p)) && opening != {} && e.0 == p.timed.value && n == 0
    ensures var s' := Initial(p).value;
      && IsTodo(p, s'.todo) && Expands(p, EmptyState(p), s', e, n, s'.todo, opening, true)
      && s'.path == [(e.0, e.1, n)]
  {
    var todo, more;
    e, n, todo, more := InitialExpands(p);
    opening := more;
    hide Applicable, OpeningEdges, PastEdges, TodoEdges, DurationBounds, WellFormed, Fire, Initial;
  }

  lemma {:induction false} SearchRespects(p: Problem, plan: seq<nat>, k: nat, t: Schedule)
    requires WellFormed(p) && Found(p, plan) && StateAfter(p, plan).todo == map[] && k <= |plan|
    requires IsPath(p, StateAfter(p, plan).path) && AllRight(p, plan, t)
    ensures Found(p, plan[..k]) && Stn.Satisfies(t, StateAfter(p, plan[..k]).network)
    decreases k
  {
    hide *;
    if k == 0 {
      FirstRight(p, plan, t);
    } else {
      SearchRespects(p, plan, k - 1, t);
      NextRight(p, plan, k - 1, t);
    }
  }

  /** The network of a complete path has exactly these schedules: the events in the order
      of the path, mutex ones epsilon apart, every action opened as its duration says,
      and the deadline.  So the network keeps the search from no schedule. */
  lemma SearchExactly(p: Problem, plan: seq<nat>, t: Schedule)
    requires WellFormed(p) && Found(p, plan) && StateAfter(p, plan).todo == map[]
    ensures IsPath(p, StateAfter(p, plan).path)
    ensures Stn.Satisfies(t, StateAfter(p, plan).network) <==> AllRight(p, plan, t)
  {
    FoundReached(p, plan);
    FoundPrefix(p, plan, |plan|);
    assert plan[..|plan|] == plan;
    if AllRight(p, plan, t) {
      SearchRespects(p, plan, |plan|, t);
    }
    if Stn.Satisfies(t, StateAfter(p, plan).network) {
      ReachedOrdered(p, plan, StateAfter(p, plan), t);
      InitialRight(p, plan, t);
      hide Found, StateAfter, Stn.Satisfies, TimedRight, Ordered, WellFormed, OpensRight;
      forall k: nat | OpensAt(p, plan, k)
        ensures OpensRight(p, plan[k], StateAfter(p, plan[..k]).instances, StateAfter(p, plan[..k]).assignment, false, t)
      {
        OpenedRight(p, plan, k, t);
      }
    }
  }

  lemma OpenedRight(p: Problem, plan: seq<nat>, k: nat, t: Schedule)
    requires WellFormed(p) && Found(p, plan) && OpensAt(p, plan, k)
    requires Stn.Satisfies(t, StateAfter(p, plan).network)
    ensures OpensRight(p, plan[k], StateAfter(p, plan[..k]).instances, StateAfter(p, plan[..k]).assignment, false, t)
  {
    SearchDurations(p, plan, k, t);
  }

  lemma InitialRight(p: Problem, plan: seq<nat>, t: Schedule)
    requires WellFormed(p) && Found(p, plan) && Stn.Satisfies(t, StateAfter(p, plan).network)
    ensures TimedRight(p, t)
  {
    hide Found, StateAfter, Step, WellFormed, TimedRight, PlanNetworkOf;
    PathPrefix(p, plan, 0);
    NothingRun(p, plan);
    StartRight(p, t);
  }

  lemma NothingRun(p: Problem, plan: seq<nat>)
    requires WellFormed(p) && Found(p, plan)
    ensures Found(p, plan[..0]) && StateAfter(p, plan[..0]) == Initial(p).value
  {
    assert plan[..0] == [];
  }

  lemma StartRight(p: Problem, t: Schedule)
    requires WellFormed(p) && Initial(p).Some? && Stn.Satisfies(t, Initial(p).value.network)
    ensures TimedRight(p, t)
  {
    DeadlineKept(p);
    hide Initial, OpeningEdges, MayLast, AtTheirDelays, WellFormed, DurationBounds, PastEdges, TodoEdges, Applicable, Fire;
    if p.timed.Some? {
      var e, n, opening := FirstExpands(p);
      OpeningExact(p, e.0, n, p.init, true, t);
    }
    if p.deadline.Some? {
      assert Stn.Constraint(PlanEnd, PlanStart, p.deadline.value) in DeadlineEdges(p);
      assert Stn.Constraint(PlanStart, PlanEnd, -p.deadline.value) in DeadlineEdges(p);
    }
  }

  lemma DeadlineKept(p: Problem)
    requires WellFormed(p) && Initial(p).Some?
    ensures DeadlineEdges(p) <= Initial(p).value.network
  {
    if p.timed.Some? {
      var e, n, opening := FirstExpands(p);
    }
  }
}
