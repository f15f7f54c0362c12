/**
 The network `build_plan` schedules a found path from.  It is looser than the
 search state's: non-mutex events are ordered only when one matters to a
 durative condition of the other, and nothing ties an action to the plan's end.
*/
module PlanNetwork {
  import opened Options
  import opened Expr
  import opened Temporal
  import opened TwoEdges
  import Stn

  /** Past events the plan orders before the new one. */
  ghost function PlanPast(p: Problem, path: Path, e: EventId, at: Timepoint): Network
    requires IsPath(p, path) && IsEvent(p, e)
  {
    set i | 0 <= i < |path| && (Mutex(p, e, Id(path[i])) || Precedence(p, Id(path[i]), e)) ::
      Before(At(path[i]), at, GapFor(p, e, Id(path[i])))
  }

  /** Pending events the plan orders after the new one: the mutex ones. */
  ghost function PlanTodo(p: Problem, todo: map<nat, (nat, nat)>, e: EventId, at: Timepoint): Network
    requires IsTodo(p, todo) && IsEvent(p, e)
  {
    set a, j | a in todo && todo[a].0 <= j < |p.actions[a].events| && Mutex(p, e, (a, j)) ::
      Before(at, EventAt(a, j, todo[a].1), p.epsilon)
  }

  /** `add_action_to_plan_network`. */
  ghost function PlanAction(p: Problem, a: nat, n: nat, bounds: (int, int)): Network
    requires a < |p.actions|
  {
    DurationEdges(a, n, bounds) + RigidEdges(p, a, n)
  }

  /** The constraints `build_plan` adds for one action of the path. */
  ghost function PlanStep(p: Problem, s: State, a: nat): Network
    requires WellFormed(p) && ValidState(p, s) && Step(p, s, a).Some?
  {
    if a in s.todo then
      var (i, n) := s.todo[a];
      var todo := if i + 1 >= |p.actions[a].events| then s.todo - {a} else s.todo[a := (i + 1, n)];
      PlanPast(p, s.path, (a, i), EventAt(a, i, n)) + PlanTodo(p, todo, (a, i), EventAt(a, i, n))
    else
      var n := s.instances;
      PlanAction(p, a, n, DurationBounds(p, a, s.assignment).value)
      + (if p.timed.Some? then {Before(PlanStart, ActionStart(a, n), 0)} else {})
      + PlanPast(p, s.path, (a, 0), EventAt(a, 0, n)) + PlanTodo(p, s.todo, (a, 0), EventAt(a, 0, n))
  }

  ghost function InitialPlan(p: Problem): Network
    requires WellFormed(p) && Initial(p).Some?
  {
    if p.timed.None? then {} else
      var a := p.timed.value;
      PlanAction(p, a, 0, DurationBounds(p, a, p.init).value)
      + {Before(PlanStart, ActionStart(a, 0), 0), Before(ActionStart(a, 0), PlanStart, 0)}
  }

  /** Everything added while replaying `plan` from `s`. */
  ghost function PlanEdges(p: Problem, s: State, plan: seq<nat>): Network
    requires WellFormed(p) && ValidState(p, s) && Run(p, s, plan).Some?
    decreases |plan|
  {
    if plan == [] then {} else
      StepValid(p, s, plan[0]);
      PlanStep(p, s, plan[0]) + PlanEdges(p, Step(p, s, plan[0]).value, plan[1..])
  }

  // ---- entailment ----

  /** The search state's network entails what the plan adds for the same step. */
  lemma StepEntailed(p: Problem, s: State, a: nat, t: Schedule)
    requires WellFormed(p) && ValidState(p, s) && Step(p, s, a).Some?
    requires Stn.Satisfies(t, s.network) ==> Ordered(p, s.path, t)
    requires Stn.Satisfies(t, Step(p, s, a).value.network)
    ensures Stn.Satisfies(t, PlanStep(p, s, a))
  {
    var s' := Step(p, s, a).value;
    var e, n, todo, opening := StepExpands(p, s, a);
    var at := EventAt(e.0, e.1, n);
    ExpandOrders(p, s, s', e, n, todo, opening, t);
    hide Step, Fire, Mutex, Precedence, EventReads, EventWrites, WellFormed, Applicable;
    ExpandContains(p, s, s', e, n, todo, opening);
    PastEntailed(p, s'.path, t);
    TodoEntailed(p, todo, if opening == {} then todo else s.todo, e, at, t);
    if opening != {} {
      OpeningEntailed(p, a, n, DurationBounds(p, a, s.assignment).value, false, t);
    }
    assert s'.path[..|s'.path| - 1] == s.path;
  }

  lemma ExpandContains(
    p: Problem, s: State, s': State, e: EventId, n: nat, todo: map<nat, (nat, nat)>, opening: Network)
    requires ValidState(p, s) && IsEvent(p, e) && IsTodo(p, todo)
    requires Expand(p, s, e, n, todo, opening) == Some(s')
    ensures s.network <= s'.network && opening <= s'.network
    ensures TodoEdges(p, todo, e, EventAt(e.0, e.1, n)) <= s'.network
    ensures s'.path == s.path + [(e.0, e.1, n)] && IsPath(p, s'.path)
  {
  }

  lemma PastEntailed(p: Problem, path: Path, t: Schedule)
    requires IsPath(p, path) && path != [] && Ordered(p, path, t)
    ensures var last := |path| - 1;
      IsPath(p, path[..last]) && Stn.Satisfies(t, PlanPast(p, path[..last], Id(path[last]), At(path[last])))
  {
    var last := |path| - 1;
    hide Mutex, Precedence;
    forall c | c in PlanPast(p, path[..last], Id(path[last]), At(path[last])) ensures Stn.Respects(t, c) {
      var i :| 0 <= i < last && c == Before(At(path[i]), At(path[last]), GapFor(p, Id(path[last]), Id(path[i])));
    }
  }

  lemma TodoEntailed(
    p: Problem, todo: map<nat, (nat, nat)>, fewer: map<nat, (nat, nat)>, e: EventId, at: Timepoint, t: Schedule)
    requires IsTodo(p, todo) && IsTodo(p, fewer) && IsEvent(p, e)
    requires forall a | a in fewer :: a in todo && todo[a] == fewer[a]
    requires Stn.Satisfies(t, TodoEdges(p, todo, e, at))
    ensures Stn.Satisfies(t, PlanTodo(p, fewer, e, at))
  {
    hide Mutex;
    forall c | c in PlanTodo(p, fewer, e, at) ensures Stn.Respects(t, c) {
      assert c in TodoEdges(p, todo, e, at);
    }
  }

  lemma OpeningEntailed(p: Problem, a: nat, n: nat, bounds: (int, int), pinned: bool, t: Schedule)
    requires a < |p.actions| && Stn.Satisfies(t, OpeningEdges(p, a, n, bounds, pinned))
    ensures Stn.Satisfies(t, PlanAction(p, a, n, bounds))
    ensures Stn.Respects(t, Before(PlanStart, ActionStart(a, n), 0))
    ensures pinned ==> Stn.Respects(t, Before(ActionStart(a, n), PlanStart, 0))
  {
    hide RigidEdges, DurationEdges;
    var net := OpeningEdges(p, a, n, bounds, pinned);
    assert Before(PlanStart, ActionStart(a, n), 0) in net;
    assert pinned ==> Before(ActionStart(a, n), PlanStart, 0) in net;
  }

  lemma InitialEntailed(p: Problem, t: Schedule)
    requires WellFormed(p) && Initial(p).Some? && Stn.Satisfies(t, Initial(p).value.network)
    ensures Stn.Satisfies(t, InitialPlan(p))
  {
    if p.timed.Some? {
      var e, n, todo, opening := InitialExpands(p);
      ExpandContains(p, EmptyState(p), Initial(p).value, e, n, todo, opening);
      OpeningEntailed(p, p.timed.value, 0, DurationBounds(p, p.timed.value, p.init).value, true, t);
    }
  }
}
