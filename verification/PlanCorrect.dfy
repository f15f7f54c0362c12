/**
 The scheduled plan works: firing its events in the order of their times, however
 ties fall, has every condition hold and ends in the values the search found, and
 the plan meets the deadline.
*/
module PlanCorrect {
  import opened Options
  import opened Expr
  import opened Temporal
  import opened TwoEdges
  import opened PlanNetwork
  import opened BuildPlan
  import opened ScheduledPlan
  import opened ReachedStates
  import opened Makespan
  import opened ActiveConditions
  import D = Deordering
  import DD = DurativeDeordering
  import DX = DurativeExact
  import Stn

  // ---- the path of a state, executed ----

  lemma {:induction false} ExecSnoc(p: Problem, path: Path, e: (nat, nat, nat), s: Assignment)
    requires IsPath(p, path) && IsEvent(p, (e.0, e.1)) && D.Exec(p, path, s).Some?
    ensures IsPath(p, path + [e])
    ensures D.Exec(p, path + [e], s) == D.FireOn(p, (e.0, e.1), D.Exec(p, path, s).value)
    decreases |path|
  {
    hide D.FireOn;
    if path == [] {
      assert (path + [e])[1..] == [];
    } else {
      assert (path + [e])[1..] == path[1..] + [e];
      ExecSnoc(p, path[1..], e, D.FireOn(p, Id(path[0]), s).value);
    }
  }

  lemma ExpandsExecutes(
    p: Problem, s: State, s': State, e: EventId, n: nat, todo: map<nat, (nat, nat)>, opening: Network, pinned: bool)
    requires WellFormed(p) && ValidState(p, s) && D.Exec(p, s.path, p.init) == Some(s.assignment)
    requires Expands(p, s, s', e, n, todo, opening, pinned)
    requires forall a | a in s.todo :: s.todo[a].0 > 0
    ensures ValidState(p, s') && D.Exec(p, s'.path, p.init) == Some(s'.assignment)
    ensures forall a | a in s'.todo :: s'.todo[a].0 > 0
  {
    hide PastEdges, TodoEdges, OpeningEdges, DurationBounds, WellFormed;
    assert (e.0, e.1) == e;
    ExecSnoc(p, s.path, (e.0, e.1, n), p.init);
  }

  /** The values of a reached state are those its path leads to. */
  lemma {:induction false} ReachedExecutes(p: Problem, plan: seq<nat>, s: State)
    requires WellFormed(p) && Reached(p, plan, s)
    ensures ValidState(p, s) && D.Exec(p, s.path, p.init) == Some(s.assignment)
    ensures forall a | a in s.todo :: s.todo[a].0 > 0
    decreases |plan|
  {
    if plan == [] {
      InitialValid(p);
      if p.timed.Some? {
        var e, n, todo, opening := InitialExpands(p);
        ExpandsExecutes(p, EmptyState(p), s, e, n, todo, opening, true);
      }
    } else {
      var s0 := ReachedLast(p, plan, s);
      var e, n, todo, opening := StepExpands(p, s0, plan[|plan| - 1]);
      hide *;
      ReachedExecutes(p, plan[..|plan| - 1], s0);
      ExpandsExecutes(p, s0, s, e, n, todo, opening, false);
    }
  }

  // The events fired are those before the ones pending.
  ghost predicate FiredOnce(s: State) {
    && D.Distinct(s.path)
    && (forall e | e in s.path :: e.2 < s.instances)
    && (forall a | a in s.todo :: s.todo[a].1 < s.instances)
    && (forall e | e in s.path && e.0 in s.todo && s.todo[e.0].1 == e.2 :: e.1 < s.todo[e.0].0)
  }

  lemma DistinctSnoc(path: Path, e: (nat, nat, nat))
    requires D.Distinct(path) && e !in path
    ensures D.Distinct(path + [e])
  {
  }

  lemma ExpandsOnce(
    p: Problem, s: State, s': State, e: EventId, n: nat, todo: map<nat, (nat, nat)>, opening: Network, pinned: bool)
    requires WellFormed(p) && ValidState(p, s) && FiredOnce(s)
    requires Expands(p, s, s', e, n, todo, opening, pinned)
    ensures FiredOnce(s')
  {
    hide PastEdges, TodoEdges, OpeningEdges, DurationBounds, WellFormed, Applicable, Fire, D.Distinct;
    assert (e.0, e.1, n) !in s.path;
    DistinctSnoc(s.path, (e.0, e.1, n));
  }

  lemma {:induction false} ReachedOnce(p: Problem, plan: seq<nat>, s: State)
    requires WellFormed(p) && Reached(p, plan, s)
    ensures FiredOnce(s)
    decreases |plan|
  {
    if plan == [] {
      InitialValid(p);
      if p.timed.Some? {
        var e, n, todo, opening := InitialExpands(p);
        ExpandsOnce(p, EmptyState(p), s, e, n, todo, opening, true);
      }
    } else {
      var s0 := ReachedLast(p, plan, s);
      var e, n, todo, opening := StepExpands(p, s0, plan[|plan| - 1]);
      hide *;
      ReachedOnce(p, plan[..|plan| - 1], s0);
      ExpandsOnce(p, s0, s, e, n, todo, opening, false);
    }
  }

  // ---- the order of the plan's times ----

  /** `path'` fires the events of `path` in the order of their times in `t`. */
  ghost predicate ByTime(path': Path, path: Path, t: Schedule) {
    && D.Distinct(path') && (forall e :: e in path' <==> e in path)
    && forall i, j | 0 <= i < j < |path'| :: t(At(path'[i])) <= t(At(path'[j]))
  }

  // ... with events at the same time whose durative conditions matter to each
  // other in the order of the path.
  ghost predicate BreaksTies(p: Problem, path': Path, path: Path, t: Schedule) {
    forall e, f | D.Comes(path, e, f) && DD.PrecedenceFired(p, e, f) && t(At(e)) == t(At(f)) :: D.Comes(path', e, f)
  }

  lemma EarlierComes(path': Path, t: Schedule, e: (nat, nat, nat), f: (nat, nat, nat))
    requires e in path' && f in path' && t(At(e)) < t(At(f))
    requires forall i, j | 0 <= i < j < |path'| :: t(At(path'[i])) <= t(At(path'[j]))
    ensures D.Comes(path', e, f)
  {
    var i :| 0 <= i < |path'| && path'[i] == e;
    var j :| 0 <= j < |path'| && path'[j] == f;
    assert i < j;
  }

  lemma ByTimeReorders(p: Problem, path': Path, path: Path, t: Schedule)
    requires p.epsilon > 0 && IsPath(p, path) && KeepsOrder(p, path, t) && D.Distinct(path) && ByTime(path', path, t)
    ensures IsPath(p, path') && D.Reorders(p, path', path)
    ensures BreaksTies(p, path', path, t) ==> DD.KeepsPrecedence(p, path', path)
  {
    hide Mutex, Precedence, D.Distinct;
    assert forall i | 0 <= i < |path| :: IsEvent(p, (path[i].0, path[i].1));
    forall i | 0 <= i < |path'| ensures IsEvent(p, (path'[i].0, path'[i].1)) {
      assert path'[i] in path;
    }
    forall e, f | D.Comes(path, e, f) && D.MutexFired(p, e, f) ensures D.Comes(path', e, f) {
      var i, j :| 0 <= i < j < |path| && path[i] == e && path[j] == f;
      D.MutexSymmetric(p, Id(e), Id(f));
      assert Mutex(p, Id(path[j]), Id(path[i]));
      EarlierComes(path', t, e, f);
    }
    if BreaksTies(p, path', path, t) {
      forall e, f | D.Comes(path, e, f) && DD.PrecedenceFired(p, e, f) ensures D.Comes(path', e, f) {
        var i, j :| 0 <= i < j < |path| && path[i] == e && path[j] == f;
        assert Precedence(p, Id(path[i]), Id(path[j]));
        if t(At(e)) < t(At(f)) {
          EarlierComes(path', t, e, f);
        }
      }
    }
  }

  lemma FoundReached(p: Problem, plan: seq<nat>)
    requires WellFormed(p) && Found(p, plan)
    ensures Reached(p, plan, StateAfter(p, plan))
  {
  }

  /** Fired in the order of the plan's times, every event of the path has its
      condition hold and reads what it read there, and the values end as the
      search found them. */
  lemma PlanExecutes(p: Problem, plan: seq<nat>, t: Schedule, path': Path)
    requires WellFormed(p) && Found(p, plan) && IsPlan(p, plan, t)
    requires ByTime(path', StateAfter(p, plan).path, t)
    ensures IsPath(p, path') && IsPath(p, StateAfter(p, plan).path)
    ensures D.Exec(p, path', p.init) == Some(StateAfter(p, plan).assignment)
    ensures D.SeesSame(p, path', StateAfter(p, plan).path, p.init)
  {
    var s := StateAfter(p, plan);
    FoundReached(p, plan);
    assert IsPath(p, s.path) && KeepsOrder(p, s.path, t) && p.epsilon > 0;
    hide Reached, Found, StateAfter, IsPlan, ByTime, KeepsOrder, WellFormed;
    ReachedExecutes(p, plan, s);
    ReachedOnce(p, plan, s);
    ByTimeReorders(p, path', s.path, t);
    D.Deorder(p, path', s.path, p.init);
  }

  /** A durative condition that holds after every cut of its span of the path holds over
      its span of the plan. */
  lemma PlanKeepsDurative(
    p: Problem, plan: seq<nat>, t: Schedule, path': Path, c: Expr, i': nat, j': nat, i: nat, j: nat)
    requires WellFormed(p) && Found(p, plan) && IsPlan(p, plan, t)
    requires ByTime(path', StateAfter(p, plan).path, t) && BreaksTies(p, path', StateAfter(p, plan).path, t)
    requires var path := StateAfter(p, plan).path;
      && i < |path| && j <= |path|
      && DX.CutsHold(p, path, p.init, c, i, j) && DX.SpanAt(path', path, i', j', i, j)
    ensures IsPath(p, path') && DD.HoldsOver(p, path', p.init, c, i', j')
  {
    var s := StateAfter(p, plan);
    FoundReached(p, plan);
    assert KeepsOrder(p, s.path, t) && p.epsilon > 0;
    hide Reached, Found, StateAfter, IsPlan, ByTime, KeepsOrder, WellFormed, BreaksTies, DX.CutsHold, DX.SpanAt;
    ReachedExecutes(p, plan, s);
    ReachedOnce(p, plan, s);
    ByTimeReorders(p, path', s.path, t);
    DX.CutsSuffice(p, path', s.path, p.init, c, i', j', i, j);
  }

  // ---- from the search's states to spans of its path ----

  // How many events the initial state has fired.
  function FiredFirst(p: Problem): nat {
    if p.timed.Some? then 1 else 0
  }

  lemma InitialPath(p: Problem)
    requires WellFormed(p) && Initial(p).Some?
    ensures |Initial(p).value.path| == FiredFirst(p)
  {
    if p.timed.Some? {
      var e, n, todo, opening := InitialExpands(p);
      ExpandsAdvances(p, EmptyState(p), Initial(p).value, e, n, todo, opening, true);
    }
  }

  /** Each action of the plan adds one event to the path. */
  lemma {:induction false} PathPrefix(p: Problem, plan: seq<nat>, k: nat)
    requires WellFormed(p) && Found(p, plan) && k <= |plan|
    ensures Found(p, plan[..k]) && |StateAfter(p, plan[..k]).path| == FiredFirst(p) + k
    ensures StateAfter(p, plan[..k]).path <= StateAfter(p, plan).path
    ensures StateAfter(p, plan[..k]).network <= StateAfter(p, plan).network
    decreases |plan| - k, k
  {
    FoundPrefix(p, plan, k);
    PathLength(p, plan[..k]);
    if k == |plan| {
      assert plan[..k] == plan;
    } else {
      PathPrefix(p, plan, k + 1);
      FoundPrefix(p, plan, k + 1);
      PathGrows(p, StateAfter(p, plan[..k]), plan[k]);
    }
  }

  lemma PathGrows(p: Problem, s: State, a: nat)
    requires WellFormed(p) && ValidState(p, s) && Step(p, s, a).Some?
    ensures s.path <= Step(p, s, a).value.path && |Step(p, s, a).value.path| == |s.path| + 1
    ensures s.network <= Step(p, s, a).value.network
  {
    var e, n, todo, opening := StepExpands(p, s, a);
    ExpandsAdvances(p, s, Step(p, s, a).value, e, n, todo, opening, false);
    NetworkGrows(p, s, a);
  }

  lemma {:induction false} PathLength(p: Problem, plan: seq<nat>)
    requires WellFormed(p) && Found(p, plan)
    ensures |StateAfter(p, plan).path| == FiredFirst(p) + |plan|
    decreases |plan|
  {
    if plan == [] {
      InitialPath(p);
    } else {
      var k := |plan| - 1;
      assert plan[..k + 1] == plan;
      FoundPrefix(p, plan, k);
      hide Found, StateAfter, Run, Initial, Step, WellFormed;
      PathLength(p, plan[..k]);
      PathGrows(p, StateAfter(p, plan[..k]), plan[k]);
    }
  }

  /** A condition that is active in the states of a span holds over the span. */
  lemma SpanHolds(p: Problem, plan: seq<nat>, c: Expr, i: nat, j: nat)
    requires WellFormed(p) && Found(p, plan) && IsPath(p, StateAfter(p, plan).path)
    requires j <= |StateAfter(p, plan).path|
    requires forall k: nat | k <= |plan| && Found(p, plan[..k]) && i < FiredFirst(p) + k <= j ::
               c in StateAfter(p, plan[..k]).active
    ensures DD.HoldsOver(p, StateAfter(p, plan).path, p.init, c, i, j)
  {
    PathLength(p, plan);
    var path := StateAfter(p, plan).path;
    hide Run, Initial, WellFormed, D.Exec;
    forall m: nat | i < m <= j
      ensures D.ValuesAt(p, path, m, p.init).Some? && Holds(p, c, D.ValuesAt(p, path, m, p.init).value)
    {
      var k := m - FiredFirst(p);
      PathPrefix(p, plan, k);
      var s := StateAfter(p, plan[..k]);
      FoundReached(p, plan[..k]);
      ReachedSafe(p, plan[..k], s);
      ReachedExecutes(p, plan[..k], s);
      assert s.path == path[..m];
    }
  }

  // ---- the deadline ----

  lemma OpeningStays(p: Problem, plan: seq<nat>, k: nat) returns (n: nat)
    requires WellFormed(p) && Found(p, plan) && k < |plan| && Found(p, plan[..k])
    requires plan[k] !in StateAfter(p, plan[..k]).todo
    ensures n == StateAfter(p, plan[..k]).instances
    ensures Before(ActionEnd(plan[k], n), PlanEnd, p.epsilon) in StateAfter(p, plan).network
    ensures Before(PlanStart, ActionStart(plan[k], n), 0) in StateAfter(p, plan).network
    ensures StateAfter(p, plan).instances > 0
  {
    FoundPrefix(p, plan, k);
    PathPrefix(p, plan, k + 1);
    var s := StateAfter(p, plan[..k]);
    n := s.instances;
    FoundReached(p, plan);
    hide Found, StateAfter, Run, Initial, WellFormed, Reached;
    OpeningIn(p, s, plan[k]);
    ReachedShaped(p, plan, StateAfter(p, plan));
    hide Step;
    assert InRange(ActionStart(plan[k], n), StateAfter(p, plan).instances);
  }

  lemma OpeningIn(p: Problem, s: State, a: nat)
    requires WellFormed(p) && ValidState(p, s) && Step(p, s, a).Some? && a !in s.todo
    ensures Before(ActionEnd(a, s.instances), PlanEnd, p.epsilon) in Step(p, s, a).value.network
    ensures Before(PlanStart, ActionStart(a, s.instances), 0) in Step(p, s, a).value.network
  {
    var e, n, todo, opening := StepExpands(p, s, a);
    ExpandContains(p, s, Step(p, s, a).value, e, n, todo, opening);
    var bounds := DurationBounds(p, a, s.assignment).value;
    assert Before(ActionEnd(a, n), PlanEnd, p.epsilon) in OpeningEdges(p, a, n, bounds, false);
    assert Before(PlanStart, ActionStart(a, n), 0) in OpeningEdges(p, a, n, bounds, false);
  }

  /** A schedule of the search state that starts the plan at time 0. */
  lemma NormalSchedule(p: Problem, plan: seq<nat>) returns (u: Schedule)
    requires WellFormed(p) && NonNegativeDurations(p) && Found(p, plan) && StateAfter(p, plan).instances > 0
    ensures Stn.Satisfies(u, StateAfter(p, plan).network) && Stn.NonNegative(u) && u(PlanStart) == 0
  {
    var s := StateAfter(p, plan);
    FoundReached(p, plan);
    FoundSatisfiable(p, plan);
    var t := SomeSchedule(s.network);
    hide Found, StateAfter, WellFormed, Reached, NonNegativeDurations;
    ReachedStartsFirst(p, plan, s, t);
    u := v => if t(v) < t(PlanStart) then 0 else t(v) - t(PlanStart);
    forall c | c in s.network ensures Stn.Respects(u, c) {
      assert NotBefore(c.src, t) && NotBefore(c.dst, t);
    }
  }

  /** The plan's actions all end epsilon before the deadline. */
  lemma MeetsDeadline(p: Problem, plan: seq<nat>, times: Schedule, k: nat)
    requires WellFormed(p) && NonNegativeDurations(p) && Found(p, plan) && p.deadline.Some?
    requires Stn.Earliest(times, PlanNetworkOf(p, plan))
    requires k < |plan| && Found(p, plan[..k]) && plan[k] !in StateAfter(p, plan[..k]).todo
    ensures times(ActionEnd(plan[k], StateAfter(p, plan[..k]).instances)) + p.epsilon
         <= times(PlanStart) + p.deadline.value
  {
    var n := OpeningStays(p, plan, k);
    var u := NormalSchedule(p, plan);
    var net := StateAfter(p, plan).network;
    FoundReached(p, plan);
    ReachedShaped(p, plan, StateAfter(p, plan));
    assert Stn.Constraint(PlanEnd, PlanStart, p.deadline.value) in DeadlineEdges(p);
    hide Found, StateAfter, WellFormed, Reached, NonNegativeDurations, PlanNetworkOf;
    PlanNoLater(p, plan, times, u);
    assert Stn.Respects(u, Stn.Constraint(PlanEnd, PlanStart, p.deadline.value));
    assert Stn.Respects(u, Before(ActionEnd(plan[k], n), PlanEnd, p.epsilon));
    assert times(PlanStart) >= 0;
  }
}
