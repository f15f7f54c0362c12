/**
 A plan that breaks a durative condition: the search finds it, `build_plan` schedules
 it, and in the order of its times the condition fails, because two events that write
 it are not mutex.
*/
module DurativeRace {
  import opened Options
  import opened Expr
  import opened Temporal
  import opened TwoEdges
  import opened PlanNetwork
  import opened BuildPlan
  import opened RelaxedRuns
  import opened Deordering
  import opened DurativeDeordering
  import opened DurativeExact
  import PC = PlanCorrect
  import Stn

  const KEPT := Or([Fluent(0), Not(Fluent(1))])

  /** Action 0 needs `KEPT` from its start to its end, 4 ticks later, and sets fluent 0
      after 2; action 1 sets fluent 1. */
  function Racing(): Problem {
    Problem(
      [Action([Event(Timing(true, 0), Const(TRUE), [KEPT], [], []),
               Event(Timing(true, 2), Const(TRUE), [], [], [Effect(0, Const(TRUE))]),
               Event(Timing(false, 0), Const(TRUE), [], [KEPT], [])],
              Some(Duration(Const(NumV(4.0)), Const(NumV(4.0)), false, false))),
       Action([Event(Timing(true, 0), Const(TRUE), [], [], [Effect(1, Const(TRUE))])], None)],
      [BoolV(false), BoolV(false)], Const(TRUE), (f, vals) => None, 1, None, None)
  }

  function InOrder(): Path {
    [(0, 0, 0), (0, 1, 0), (1, 0, 1), (0, 2, 0)]
  }

  // How the search times the path ...
  function Late(v: Timepoint): int {
    match v
    case PlanStart => 0
    case PlanEnd => 5
    case ActionStart(a, _) => if a == 0 then 0 else 2
    case ActionEnd(a, _) => if a == 0 then 4 else 2
    case EventAt(a, j, _) => if a == 0 then 2 * j else 2
  }

  // ... and how the plan can.
  function Soon(v: Timepoint): int {
    match v
    case ActionEnd(a, n) => if a == 0 && n == 0 then 4 else 0
    case EventAt(a, j, n) => if a == 0 && n == 0 && j <= 2 then 2 * j else 0
    case _ => 0
  }

  lemma RacingEvents()
    ensures var p := Racing();
      && WellFormed(p) && |p.actions| == 2 && |p.actions[0].events| == 3 && |p.actions[1].events| == 1
      && (forall j: nat | j < 3 :: EventReads(p, (0, j)) == {} && StartReads(p, (0, j)) <= {0, 1})
      && EventWrites(p, (0, 0)) == {} && EventWrites(p, (0, 1)) == {0} && EventWrites(p, (0, 2)) == {}
      && EventReads(p, (1, 0)) == {} && EventWrites(p, (1, 0)) == {1}
      && StartReads(p, (0, 1)) == {} && StartReads(p, (0, 2)) == {} && StartReads(p, (1, 0)) == {}
      && EndReads(p, (0, 0)) == {} && EndReads(p, (0, 1)) == {} && EndReads(p, (1, 0)) == {}
      && Fluents(KEPT) == {0, 1}
  {
    assert Fluents(KEPT) == AllFluents([Fluent(0), Not(Fluent(1))]);
    assert [Fluent(0), Not(Fluent(1))][1..] == [Not(Fluent(1))] && [Not(Fluent(1))][1..] == [];
    assert AllFluents([Not(Fluent(1))]) == {1};
    assert [KEPT][1..] == [];
  }

  /** Only events of the same action are mutex, and none of the other pairs matters to a
      durative condition in the order of the path. */
  lemma RacingPairs(e: EventId, f: EventId)
    requires IsEvent(Racing(), e) && IsEvent(Racing(), f)
    ensures Mutex(Racing(), e, f) <==> e.0 == f.0
    ensures Precedence(Racing(), e, f) && e.0 != f.0 ==>
              (e == (1, 0) && f == (0, 0)) || (e == (0, 2) && f == (1, 0))
  {
    RacingEvents();
    assert e.0 == 0 ==> e.1 == 0 || e.1 == 1 || e.1 == 2;
    assert f.0 == 0 ==> f.1 == 0 || f.1 == 1 || f.1 == 2;
    hide Racing, EventReads, EventWrites, StartReads, EndReads;
  }

  lemma KeptHolds(s: Assignment)
    requires |s| == 2
    ensures Holds(Racing(), KEPT, s) <==> s[0] == BoolV(true) || s[1] == BoolV(false)
  {
    var fs := Racing().functions;
    EvalPair(Fluent(0), Not(Fluent(1)), s, fs);
    var vals := [s[0], BoolV(s[1] == BoolV(false))];
    assert vals[0] in vals && vals[1] in vals;
  }

  lemma EvalPair(x: Expr, y: Expr, s: Assignment, fs: Functions)
    requires Eval(x, s, fs).Some? && Eval(y, s, fs).Some?
    ensures EvalAll([x, y], s, fs) == Some([Eval(x, s, fs).value, Eval(y, s, fs).value])
  {
    EvalFirst([x, y], s, fs);
    EvalFirst([y], s, fs);
    assert [x, y][1..] == [y] && [y][1..] == [];
    assert [Eval(x, s, fs).value] + ([Eval(y, s, fs).value] + []) == [Eval(x, s, fs).value, Eval(y, s, fs).value];
  }

  lemma EvalFirst(es: seq<Expr>, s: Assignment, fs: Functions)
    requires es != [] && Eval(es[0], s, fs).Some? && EvalAll(es[1..], s, fs).Some?
    ensures EvalAll(es, s, fs) == Some([Eval(es[0], s, fs).value] + EvalAll(es[1..], s, fs).value)
  {
  }

  lemma ApplySetting(p: Problem, f: nat, s: Assignment)
    requires f < |s|
    ensures Apply(p, [Effect(f, Const(TRUE))], s, s) == Some(s[f := TRUE])
  {
    assert [Effect(f, Const(TRUE))][1..] == [];
  }

  // ---- the search finds the path ----

  /** A state of the search on the way, which `Late` times. */
  ghost predicate OnTheWay(s: State, asg: Assignment, todo: map<nat, (nat, nat)>, active: multiset<Expr>, path: Path, n: nat) {
    && s.assignment == asg && s.todo == todo && s.active == active && s.path == path && s.instances == n
    && Stn.Satisfies(Late, s.network) && ValidState(Racing(), s)
  }

  lemma OnTheWayIs(s: State, asg: Assignment, todo: map<nat, (nat, nat)>, active: multiset<Expr>, path: Path, n: nat)
    requires OnTheWay(s, asg, todo, active, path, n)
    ensures s.assignment == asg && s.todo == todo && s.active == active && s.path == path && s.instances == n
    ensures Stn.Satisfies(Late, s.network) && ValidState(Racing(), s)
  {
  }

  // An expansion, from its pieces.
  lemma Expanded(
    s: State, e: EventId, n: nat, todo: map<nat, (nat, nat)>, opening: Network, asg: Assignment, active: multiset<Expr>)
    requires ValidState(Racing(), s) && IsEvent(Racing(), e) && IsTodo(Racing(), todo)
    requires Fire(Racing(), s, e) == Some((asg, active)) && Stn.Satisfies(Late, s.network)
    requires Stn.Satisfies(Late, opening) && Stn.Satisfies(Late, PastEdges(Racing(), s.path, e, EventAt(e.0, e.1, n), true))
    requires Stn.Satisfies(Late, TodoEdges(Racing(), todo, e, EventAt(e.0, e.1, n)))
    ensures var r := Expand(Racing(), s, e, n, todo, opening);
      && r.Some?
      && OnTheWay(r.value, asg, todo, active, s.path + [(e.0, e.1, n)], s.instances + if opening == {} then 0 else 1)
  {
    hide Racing, Fire, PastEdges, TodoEdges;
    var at := EventAt(e.0, e.1, n);
    var net := s.network + opening + PastEdges(Racing(), s.path, e, at, true) + TodoEdges(Racing(), todo, e, at);
    assert Stn.Satisfies(Late, net);
  }

  lemma {:induction false} LatePast(path: Path, e: EventId, at: Timepoint, predecessor: bool)
    requires IsPath(Racing(), path) && IsEvent(Racing(), e)
    requires forall x | x in path :: Late(At(x)) <= Late(at) && (x.0 == e.0 ==> Late(At(x)) + 1 <= Late(at))
    ensures Stn.Satisfies(Late, PastEdges(Racing(), path, e, at, predecessor))
  {
    if path != [] {
      var last := path[|path| - 1];
      assert last in path && IsEvent(Racing(), (last.0, last.1));
      RacingPairs(e, (last.0, last.1));
      assert forall x | x in path[..|path| - 1] :: x in path;
      LatePast(path[..|path| - 1], e, at, false);
      assert Racing().epsilon == 1;
      hide Racing, Mutex;
    }
  }

  lemma LateTodo(todo: map<nat, (nat, nat)>, e: EventId, at: Timepoint)
    requires IsTodo(Racing(), todo) && IsEvent(Racing(), e)
    requires forall a, j: nat | a in todo && todo[a].0 <= j < |Racing().actions[a].events| ::
               var v := EventAt(a, j, todo[a].1); Late(at) <= Late(v) && (a == e.0 ==> Late(at) + 1 <= Late(v))
    ensures Stn.Satisfies(Late, TodoEdges(Racing(), todo, e, at))
  {
    forall c | c in TodoEdges(Racing(), todo, e, at) ensures Stn.Respects(Late, c) {
      var a, j :| a in todo && todo[a].0 <= j < |Racing().actions[a].events|
        && c == Before(at, EventAt(a, j, todo[a].1), GapFor(Racing(), e, (a, j)));
      RacingPairs(e, (a, j));
    }
  }

  function LastsFor(a: nat): int {
    if a == 0 then 4 else 0
  }

  lemma RacingBounds(a: nat, s: Assignment)
    requires a < 2
    ensures DurationBounds(Racing(), a, s) == Some((LastsFor(a), LastsFor(a)))
  {
    assert (4.0).Floor == 4;
  }

  lemma RigidRespected(p: Problem, a: nat, n: nat, t: Stn.Schedule<Timepoint>)
    requires a < |p.actions|
    requires forall i: nat | i < |p.actions[a].events| ::
               t(EventAt(a, i, n)) == t(Anchor(EventOf(p, (a, i)).timing, a, n)) + EventOf(p, (a, i)).timing.delay
    ensures Stn.Satisfies(t, RigidEdges(p, a, n))
  {
  }

  lemma TimedOpening(a: nat, n: nat)
    requires a < 2 && (a == 0 ==> n == 0)
    ensures Stn.Satisfies(Late, OpeningEdges(Racing(), a, n, (LastsFor(a), LastsFor(a)), false))
    ensures OpeningEdges(Racing(), a, n, (LastsFor(a), LastsFor(a)), false) != {}
    ensures Stn.Satisfies(Soon, PlanAction(Racing(), a, n, (LastsFor(a), LastsFor(a))))
  {
    var (p, d) := (Racing(), LastsFor(a));
    assert Before(PlanStart, ActionStart(a, n), 0) in OpeningEdges(p, a, n, (d, d), false);
    forall i: nat | i < |p.actions[a].events|
      ensures Late(EventAt(a, i, n)) == Late(Anchor(EventOf(p, (a, i)).timing, a, n)) + EventOf(p, (a, i)).timing.delay
      ensures Soon(EventAt(a, i, n)) == Soon(Anchor(EventOf(p, (a, i)).timing, a, n)) + EventOf(p, (a, i)).timing.delay
    {
      assert i == 0 || i == 1 || i == 2;
    }
    RigidRespected(p, a, n, Late);
    RigidRespected(p, a, n, Soon);
    assert p.epsilon == 1;
    hide Racing, RigidEdges;
  }

  lemma SoonPast(path: Path, e: EventId, at: Timepoint)
    requires IsPath(Racing(), path) && IsEvent(Racing(), e)
    requires forall x | x in path && x.0 == e.0 :: Soon(At(x)) + 1 <= Soon(at)
    requires forall x | x in path :: x.0 == e.0 || (Id(x), e) == ((0, 0), (1, 0)) || (Id(x), e) == ((0, 1), (1, 0)) || (Id(x), e) == ((1, 0), (0, 2))
    ensures Stn.Satisfies(Soon, PlanPast(Racing(), path, e, at))
  {
    forall c | c in PlanPast(Racing(), path, e, at) ensures Stn.Respects(Soon, c) {
      var i :| 0 <= i < |path| && (Mutex(Racing(), e, Id(path[i])) || Precedence(Racing(), Id(path[i]), e))
        && c == Before(At(path[i]), at, GapFor(Racing(), e, Id(path[i])));
      assert path[i] in path && IsEvent(Racing(), Id(path[i]));
      RacingPairs(e, Id(path[i]));
      RacingPairs(Id(path[i]), e);
    }
  }

  lemma SoonTodo(todo: map<nat, (nat, nat)>, e: EventId, at: Timepoint)
    requires IsTodo(Racing(), todo) && IsEvent(Racing(), e)
    requires forall j: nat | e.0 in todo && todo[e.0].0 <= j < |Racing().actions[e.0].events| ::
               Soon(at) + 1 <= Soon(EventAt(e.0, j, todo[e.0].1))
    ensures Stn.Satisfies(Soon, PlanTodo(Racing(), todo, e, at))
  {
    forall c | c in PlanTodo(Racing(), todo, e, at) ensures Stn.Respects(Soon, c) {
      var a, j :| a in todo && todo[a].0 <= j < |Racing().actions[a].events| && Mutex(Racing(), e, (a, j))
        && c == Before(at, EventAt(a, j, todo[a].1), Racing().epsilon);
      RacingPairs(e, (a, j));
    }
  }

  const F := BoolV(false)
  const T := BoolV(true)

  lemma SatisfiesUnion(t: Stn.Schedule<Timepoint>, m: Network, n: Network)
    requires Stn.Satisfies(t, m) && Stn.Satisfies(t, n)
    ensures Stn.Satisfies(t, m + n)
  {
  }

  // The parts of a step of the plan network.
  lemma PlanStepSatisfied(s: State, a: nat, e: EventId, n: nat, todo: map<nat, (nat, nat)>)
    requires ValidState(Racing(), s) && Step(Racing(), s, a).Some? && IsEvent(Racing(), e) && a == e.0 < 2
    requires a in s.todo ==>
               && s.todo[a] == (e.1, n)
               && todo == if e.1 + 1 >= |Racing().actions[a].events| then s.todo - {a} else s.todo[a := (e.1 + 1, n)]
    requires a !in s.todo ==> e.1 == 0 && n == s.instances && todo == s.todo && (a == 0 ==> n == 0)
    requires IsTodo(Racing(), todo)
    requires Stn.Satisfies(Soon, PlanPast(Racing(), s.path, e, EventAt(a, e.1, n)))
    requires Stn.Satisfies(Soon, PlanTodo(Racing(), todo, e, EventAt(a, e.1, n)))
    ensures Stn.Satisfies(Soon, PlanStep(Racing(), s, a))
  {
    RacingBounds(a, s.assignment);
    if a !in s.todo {
      TimedOpening(a, n);
    }
    assert Racing().timed.None? && e == (a, e.1);
    hide Racing, PlanPast, PlanTodo, PlanAction, Step, DurationBounds, OpeningEdges;
  }

  // A step that opens an action is the expansion of its first event.
  lemma StepOpens(s: State, a: nat)
    requires ValidState(Racing(), s) && a < 2 && a !in s.todo
    requires Applicable(Racing(), EventOf(Racing(), (a, 0)), s.assignment)
    ensures var todo := if |Racing().actions[a].events| > 1 then s.todo[a := (1, s.instances)] else s.todo;
      && IsTodo(Racing(), todo)
      && Step(Racing(), s, a)
           == Expand(Racing(), s, (a, 0), s.instances, todo,
                     OpeningEdges(Racing(), a, s.instances, (LastsFor(a), LastsFor(a)), false))
  {
    RacingBounds(a, s.assignment);
    assert Racing().timed.None? && |Racing().actions| == 2;
    hide Racing, Expand, OpeningEdges, DurationBounds, Applicable;
  }

  // The edges of the first step.
  lemma FirstEdges()
    ensures IsPath(Racing(), []) && IsTodo(Racing(), map[0 := (1, 0)]) && IsTodo(Racing(), map[])
    ensures IsEvent(Racing(), (0, 0))
    ensures Stn.Satisfies(Late, PastEdges(Racing(), [], (0, 0), EventAt(0, 0, 0), true))
    ensures Stn.Satisfies(Late, TodoEdges(Racing(), map[0 := (1, 0)], (0, 0), EventAt(0, 0, 0)))
    ensures Stn.Satisfies(Soon, PlanPast(Racing(), [], (0, 0), EventAt(0, 0, 0)))
    ensures Stn.Satisfies(Soon, PlanTodo(Racing(), map[], (0, 0), EventAt(0, 0, 0)))
  {
    LatePast([], (0, 0), EventAt(0, 0, 0), true);
    LateTodo(map[0 := (1, 0)], (0, 0), EventAt(0, 0, 0));
    SoonPast([], (0, 0), EventAt(0, 0, 0));
    SoonTodo(map[], (0, 0), EventAt(0, 0, 0));
  }

  lemma FirstOpens(s: State)
    requires OnTheWay(s, [F, F], map[], multiset{}, [], 0)
    ensures Fire(Racing(), s, (0, 0)) == Some(([F, F], multiset{KEPT}))
    ensures Step(Racing(), s, 0)
         == Expand(Racing(), s, (0, 0), 0, map[0 := (1, 0)],
                   OpeningEdges(Racing(), 0, 0, (LastsFor(0), LastsFor(0)), false))
  {
    var ev := EventOf(Racing(), (0, 0));
    assert ev.effects == [] && ActiveAfter(ev, s.active) == multiset{KEPT};
    assert Applicable(Racing(), ev, s.assignment) by {
      KeptHolds([F, F]);
    }
    StepOpens(s, 0);
    assert |Racing().actions[0].events| == 3 && s.todo[0 := (1, 0)] == map[0 := (1, 0)];
  }

  /** The first action opens. */
  lemma FirstStep(s: State) returns (r: State)
    requires OnTheWay(s, [F, F], map[], multiset{}, [], 0)
    ensures Step(Racing(), s, 0) == Some(r)
    ensures OnTheWay(r, [F, F], map[0 := (1, 0)], multiset{KEPT}, [(0, 0, 0)], 1)
    ensures Stn.Satisfies(Soon, PlanStep(Racing(), s, 0))
  {
    hide *;
    var (p, e: EventId, todo) := (Racing(), (0, 0), map[0 := (1, 0)]);
    OnTheWayIs(s, [F, F], map[], multiset{}, [], 0);
    TimedOpening(0, 0);
    FirstEdges();
    FirstOpens(s);
    RacingWellFormed();
    Expanded(s, e, 0, todo, OpeningEdges(p, 0, 0, (LastsFor(0), LastsFor(0)), false), [F, F], multiset{KEPT});
    r := Step(p, s, 0).value;
    assert [] + [(0, 0, 0)] == [(0, 0, 0)];
    PlanStepSatisfied(s, 0, e, 0, map[]);
  }

  // The edges of the second step.
  lemma SecondEdges()
    ensures IsPath(Racing(), [(0, 0, 0)]) && IsTodo(Racing(), map[0 := (2, 0)]) && IsTodo(Racing(), map[0 := (2, 0)])
    ensures IsEvent(Racing(), (0, 1))
    ensures Stn.Satisfies(Late, PastEdges(Racing(), [(0, 0, 0)], (0, 1), EventAt(0, 1, 0), true))
    ensures Stn.Satisfies(Late, TodoEdges(Racing(), map[0 := (2, 0)], (0, 1), EventAt(0, 1, 0)))
    ensures Stn.Satisfies(Soon, PlanPast(Racing(), [(0, 0, 0)], (0, 1), EventAt(0, 1, 0)))
    ensures Stn.Satisfies(Soon, PlanTodo(Racing(), map[0 := (2, 0)], (0, 1), EventAt(0, 1, 0)))
  {
    LatePast([(0, 0, 0)], (0, 1), EventAt(0, 1, 0), true);
    LateTodo(map[0 := (2, 0)], (0, 1), EventAt(0, 1, 0));
    SoonPast([(0, 0, 0)], (0, 1), EventAt(0, 1, 0));
    SoonTodo(map[0 := (2, 0)], (0, 1), EventAt(0, 1, 0));
  }

  /** Its second event sets fluent 0. */
  lemma SecondStep(s: State) returns (r: State)
    requires OnTheWay(s, [F, F], map[0 := (1, 0)], multiset{KEPT}, [(0, 0, 0)], 1)
    ensures Step(Racing(), s, 0) == Some(r)
    ensures OnTheWay(r, [T, F], map[0 := (2, 0)], multiset{KEPT}, [(0, 0, 0), (0, 1, 0)], 1)
    ensures Stn.Satisfies(Soon, PlanStep(Racing(), s, 0))
  {
    var (p, e: EventId, todo) := (Racing(), (0, 1), map[0 := (2, 0)]);
    assert s.todo[0 := (2, 0)] == todo;
    SecondEdges();
    FiresSetting(s, e, 0, [T, F]);
    assert |p.actions| == 2 && |p.actions[0].events| == 3;
    hide Racing, Expand, PastEdges, TodoEdges, PlanPast, PlanTodo, PlanAction, Fire, Applicable;
    Expanded(s, e, 0, todo, {}, [T, F], multiset{KEPT});
    r := Step(p, s, 0).value;
    assert [(0, 0, 0)] + [(0, 1, 0)] == [(0, 0, 0), (0, 1, 0)];
    PlanStepSatisfied(s, 0, e, 0, todo);
  }

  // Firing the event that sets fluent `f`.
  lemma FiresSetting(s: State, e: EventId, f: nat, asg: Assignment)
    requires IsEvent(Racing(), e) && EventOf(Racing(), e).effects == [Effect(f, Const(TRUE))]
    requires EventOf(Racing(), e).condition == Const(TRUE)
    requires EventOf(Racing(), e).startConditions == [] && EventOf(Racing(), e).endConditions == []
    requires |s.assignment| == 2 && f < 2 && asg == s.assignment[f := TRUE] && s.active == multiset{KEPT}
    requires asg[0] == T || asg[1] == F
    ensures Fire(Racing(), s, e) == Some((asg, multiset{KEPT})) && Applicable(Racing(), EventOf(Racing(), e), s.assignment)
  {
    ApplySetting(Racing(), f, s.assignment);
    KeptHolds(asg);
    assert ActiveAfter(EventOf(Racing(), e), s.active) == multiset{KEPT};
  }

  // The edges of the third step.
  lemma ThirdEdges()
    ensures IsPath(Racing(), [(0, 0, 0), (0, 1, 0)]) && IsTodo(Racing(), map[0 := (2, 0)]) && IsTodo(Racing(), map[0 := (2, 0)])
    ensures IsEvent(Racing(), (1, 0))
    ensures Stn.Satisfies(Late, PastEdges(Racing(), [(0, 0, 0), (0, 1, 0)], (1, 0), EventAt(1, 0, 1), true))
    ensures Stn.Satisfies(Late, TodoEdges(Racing(), map[0 := (2, 0)], (1, 0), EventAt(1, 0, 1)))
    ensures Stn.Satisfies(Soon, PlanPast(Racing(), [(0, 0, 0), (0, 1, 0)], (1, 0), EventAt(1, 0, 1)))
    ensures Stn.Satisfies(Soon, PlanTodo(Racing(), map[0 := (2, 0)], (1, 0), EventAt(1, 0, 1)))
  {
    LatePast([(0, 0, 0), (0, 1, 0)], (1, 0), EventAt(1, 0, 1), true);
    LateTodo(map[0 := (2, 0)], (1, 0), EventAt(1, 0, 1));
    SoonPast([(0, 0, 0), (0, 1, 0)], (1, 0), EventAt(1, 0, 1));
    SoonTodo(map[0 := (2, 0)], (1, 0), EventAt(1, 0, 1));
  }

  lemma ThirdOpens(s: State)
    requires OnTheWay(s, [T, F], map[0 := (2, 0)], multiset{KEPT}, [(0, 0, 0), (0, 1, 0)], 1)
    ensures Fire(Racing(), s, (1, 0)) == Some(([T, T], multiset{KEPT}))
    ensures Step(Racing(), s, 1)
         == Expand(Racing(), s, (1, 0), 1, map[0 := (2, 0)],
                   OpeningEdges(Racing(), 1, 1, (LastsFor(1), LastsFor(1)), false))
  {
    FiresSetting(s, (1, 0), 1, [T, T]);
    StepOpens(s, 1);
    assert |Racing().actions[1].events| == 1;
  }

  /** The other action sets fluent 1: the condition still holds. */
  lemma ThirdStep(s: State) returns (r: State)
    requires OnTheWay(s, [T, F], map[0 := (2, 0)], multiset{KEPT}, [(0, 0, 0), (0, 1, 0)], 1)
    ensures Step(Racing(), s, 1) == Some(r)
    ensures OnTheWay(r, [T, T], map[0 := (2, 0)], multiset{KEPT}, [(0, 0, 0), (0, 1, 0), (1, 0, 1)], 2)
    ensures Stn.Satisfies(Soon, PlanStep(Racing(), s, 1))
  {
    hide *;
    var (p, e: EventId, todo) := (Racing(), (1, 0), map[0 := (2, 0)]);
    OnTheWayIs(s, [T, F], map[0 := (2, 0)], multiset{KEPT}, [(0, 0, 0), (0, 1, 0)], 1);
    TimedOpening(1, 1);
    ThirdEdges();
    ThirdOpens(s);
    RacingWellFormed();
    Expanded(s, e, 1, todo, OpeningEdges(p, 1, 1, (LastsFor(1), LastsFor(1)), false), [T, T], multiset{KEPT});
    r := Step(p, s, 1).value;
    assert [(0, 0, 0), (0, 1, 0)] + [(1, 0, 1)] == [(0, 0, 0), (0, 1, 0), (1, 0, 1)];
    PlanStepSatisfied(s, 1, e, 1, todo);
  }

  lemma RacingWellFormed()
    ensures WellFormed(Racing()) && |Racing().actions| == 2
  {
  }

  // The edges of the last step.
  lemma LastEdges()
    ensures IsPath(Racing(), [(0, 0, 0), (0, 1, 0), (1, 0, 1)]) && IsTodo(Racing(), map[]) && IsTodo(Racing(), map[])
    ensures IsEvent(Racing(), (0, 2))
    ensures Stn.Satisfies(Late, PastEdges(Racing(), [(0, 0, 0), (0, 1, 0), (1, 0, 1)], (0, 2), EventAt(0, 2, 0), true))
    ensures Stn.Satisfies(Late, TodoEdges(Racing(), map[], (0, 2), EventAt(0, 2, 0)))
    ensures Stn.Satisfies(Soon, PlanPast(Racing(), [(0, 0, 0), (0, 1, 0), (1, 0, 1)], (0, 2), EventAt(0, 2, 0)))
    ensures Stn.Satisfies(Soon, PlanTodo(Racing(), map[], (0, 2), EventAt(0, 2, 0)))
  {
    LatePast([(0, 0, 0), (0, 1, 0), (1, 0, 1)], (0, 2), EventAt(0, 2, 0), true);
    LateTodo(map[], (0, 2), EventAt(0, 2, 0));
    SoonPast([(0, 0, 0), (0, 1, 0), (1, 0, 1)], (0, 2), EventAt(0, 2, 0));
    SoonTodo(map[], (0, 2), EventAt(0, 2, 0));
  }

  /** The first action ends. */
  lemma LastStep(s: State) returns (r: State)
    requires OnTheWay(s, [T, T], map[0 := (2, 0)], multiset{KEPT}, [(0, 0, 0), (0, 1, 0), (1, 0, 1)], 2)
    ensures Step(Racing(), s, 0) == Some(r) && OnTheWay(r, [T, T], map[], multiset{}, InOrder(), 2)
    ensures Stn.Satisfies(Soon, PlanStep(Racing(), s, 0))
  {
    var (p, e: EventId) := (Racing(), (0, 2));
    assert s.todo - {0} == map[];
    LastEdges();
    var ev := EventOf(p, e);
    assert ev.effects == [] && ActiveAfter(ev, s.active) == multiset{};
    assert Fire(p, s, e) == Some(([T, T], multiset{})) && Applicable(p, ev, s.assignment);
    assert |p.actions| == 2 && |p.actions[0].events| == 3;
    hide Racing, Expand, PastEdges, TodoEdges, PlanPast, PlanTodo, PlanAction, Fire, Applicable;
    Expanded(s, e, 0, map[], {}, [T, T], multiset{});
    r := Step(p, s, 0).value;
    assert [(0, 0, 0), (0, 1, 0), (1, 0, 1)] + [(0, 2, 0)] == InOrder();
    PlanStepSatisfied(s, 0, e, 0, map[]);
  }

  // ---- the plan ----

  const PLAN: seq<nat> := [0, 0, 1, 0]

  lemma EdgesSatisfied(s: State, r: State, plan: seq<nat>)
    requires WellFormed(Racing()) && ValidState(Racing(), s) && ValidState(Racing(), r) && plan != []
    requires Step(Racing(), s, plan[0]) == Some(r) && Run(Racing(), r, plan[1..]).Some?
    requires Stn.Satisfies(Soon, PlanStep(Racing(), s, plan[0])) && Stn.Satisfies(Soon, PlanEdges(Racing(), r, plan[1..]))
    ensures Run(Racing(), s, plan) == Run(Racing(), r, plan[1..])
    ensures Stn.Satisfies(Soon, PlanEdges(Racing(), s, plan))
  {
    hide Racing, Step, PlanStep, ValidState, WellFormed;
  }

  /** The search finds the plan, which ends in a goal state, and `Soon` is a schedule of
      its plan network. */
  lemma RacingFound()
    ensures WellFormed(Racing()) && Found(Racing(), PLAN)
    ensures OnTheWay(StateAfter(Racing(), PLAN), [T, T], map[], multiset{}, InOrder(), 2)
    ensures IsGoal(Racing(), StateAfter(Racing(), PLAN))
    ensures Stn.Satisfies(Soon, PlanNetworkOf(Racing(), PLAN))
  {
    var (p, s0) := (Racing(), EmptyState(Racing()));
    assert OnTheWay(s0, [F, F], map[], multiset{}, [], 0) && Initial(p) == Some(s0) && p.goal == Const(TRUE);
    assert InitialPlan(p) == {};
    var s1 := FirstStep(s0);
    var s2 := SecondStep(s1);
    var s3 := ThirdStep(s2);
    var s4 := LastStep(s3);
    assert PLAN[1..] == [0, 1, 0] && PLAN[1..][1..] == [1, 0] && PLAN[1..][1..][1..] == [0] && [0][1..] == [];
    assert Run(p, s4, []) == Some(s4) && PlanEdges(p, s4, []) == {};
    hide Racing, Step, PlanStep, PlanEdges, Run, InitialPlan, Initial, EmptyState;
    EdgesSatisfied(s3, s4, [0]);
    EdgesSatisfied(s2, s3, [1, 0]);
    EdgesSatisfied(s1, s2, [0, 1, 0]);
    EdgesSatisfied(s0, s1, PLAN);
    SatisfiesUnion(Soon, InitialPlan(p), PlanEdges(p, s0, PLAN));
  }

  // ---- in the order of its times the condition fails ----

  function Swapped(): Path {
    [(0, 0, 0), (1, 0, 1), (0, 1, 0), (0, 2, 0)]
  }

  lemma RacingFires(s: Assignment)
    requires |s| == 2
    ensures FireOn(Racing(), (0, 0), s) == Some(s) && FireOn(Racing(), (0, 2), s) == Some(s)
    ensures FireOn(Racing(), (0, 1), s) == Some(s[0 := TRUE]) && FireOn(Racing(), (1, 0), s) == Some(s[1 := TRUE])
  {
    ApplySetting(Racing(), 0, s);
    ApplySetting(Racing(), 1, s);
    RacingBounds(0, s);
    RacingBounds(1, s);
  }

  // The run in the order of the path ...
  lemma RunInOrder()
    ensures var (p, s) := (Racing(), [F, F]);
      && IsPath(p, InOrder()) && ValuesAt(p, InOrder(), 1, s) == Some(s)
      && ValuesAt(p, InOrder(), 2, s) == Some([T, F]) && ValuesAt(p, InOrder(), 3, s) == Some([T, T])
      && Exec(p, InOrder(), s) == Some([T, T])
  {
    var (p, s) := (Racing(), [F, F]);
    var q: Path := InOrder();
    var none: Path := [];
    RacingFires([F, F]);
    RacingFires([T, F]);
    RacingFires([T, T]);
    assert [F, F][0 := TRUE] == [T, F] && [T, F][1 := TRUE] == [T, T];
    assert IsPath(p, q);
    hide FireOn, Racing, Exec;
    assert q[..1] == [q[0]] && q[..2] == q[..1] + [q[1]] && q[..3] == q[..2] + [q[2]] && q == q[..3] + [q[3]];
    assert q[..0] == none && q[..1] == q[..0] + [q[0]];
    RunNothing(p, s);
    PC.ExecSnoc(p, q[..0], q[0], s);
    PC.ExecSnoc(p, q[..1], q[1], s);
    PC.ExecSnoc(p, q[..2], q[2], s);
    PC.ExecSnoc(p, q[..3], q[3], s);
  }

  lemma RunNothing(p: Problem, s: Assignment)
    ensures IsPath(p, []) && Exec(p, [], s) == Some(s)
  {
  }

  // ... and the first two events in the other.
  lemma RunSwapped()
    ensures IsPath(Racing(), Swapped()) && ValuesAt(Racing(), Swapped(), 2, [F, F]) == Some([F, T])
  {
    var (p, s) := (Racing(), [F, F]);
    var r: Path := Swapped();
    RacingFires([F, F]);
    assert [F, F][1 := TRUE] == [F, T];
    assert IsPath(p, r);
    hide FireOn, Racing, Exec;
    assert r[..0] == [] && r[..1] == r[..0] + [r[0]] && r[..2] == r[..1] + [r[1]];
    RunNothing(p, s);
    PC.ExecSnoc(p, r[..0], r[0], s);
    PC.ExecSnoc(p, r[..1], r[1], s);
  }

  /** On the path the condition holds over its span. */
  lemma KeptOnThePath()
    ensures IsPath(Racing(), InOrder()) && Spans(Racing(), InOrder(), KEPT, 0, 3)
    ensures HoldsOver(Racing(), InOrder(), [F, F], KEPT, 0, 3)
  {
    var p := Racing();
    RunInOrder();
    assert IsEvent(p, (0, 0)) && KEPT in EventOf(p, (0, 0)).startConditions;
    assert IsEvent(p, (0, 2)) && KEPT in EventOf(p, (0, 2)).endConditions;
    KeptHolds([F, F]);
    KeptHolds([T, F]);
    KeptHolds([T, T]);
    hide Racing, Holds, ValuesAt;
    forall m | 0 < m <= 3
      ensures ValuesAt(p, InOrder(), m, [F, F]).Some? && Holds(p, KEPT, ValuesAt(p, InOrder(), m, [F, F]).value)
    {
      assert m == 1 || m == 2 || m == 3;
    }
  }

  // Any plan has the first action's events 2 ticks apart.
  lemma RacingTimes(t: Stn.Schedule<Timepoint>)
    requires WellFormed(Racing()) && Found(Racing(), PLAN) && IsPlan(Racing(), PLAN, t)
    ensures t(EventAt(0, 1, 0)) == t(EventAt(0, 0, 0)) + 2
    ensures t(EventAt(0, 2, 0)) == t(EventAt(0, 0, 0)) + 4
  {
    var p := Racing();
    var s0 := EmptyState(p);
    assert PLAN[..0] == [] && Found(p, []) && StateAfter(p, []) == s0;
    assert OpenedOnTime(p, PLAN, 0, t) && 0 !in s0.todo;
    RacingBounds(0, s0.assignment);
    hide Run, Step, DurationBounds;
    assert IsEvent(p, (0, 0)) && IsEvent(p, (0, 1)) && IsEvent(p, (0, 2));
  }

  /** What `build_plan` answers is `Soon` on the events: the second action runs first. */
  lemma RacingScheduled(t: Stn.Schedule<Timepoint>)
    requires WellFormed(Racing()) && Found(Racing(), PLAN) && Stn.Earliest(t, PlanNetworkOf(Racing(), PLAN))
    ensures IsPlan(Racing(), PLAN, t)
    ensures t(EventAt(0, 0, 0)) == 0 && t(EventAt(1, 0, 1)) == 0 && t(EventAt(0, 1, 0)) == 2 && t(EventAt(0, 2, 0)) == 4
  {
    assert Soon(EventAt(0, 0, 0)) == 0 && Soon(EventAt(1, 0, 1)) == 0;
    SoonNonNegative();
    hide *;
    RacingFound();
    NoLater(t, PlanNetworkOf(Racing(), PLAN), Soon);
    ScheduleIsPlan(Racing(), PLAN, t);
    RacingTimes(t);
    assert t(EventAt(0, 0, 0)) <= Soon(EventAt(0, 0, 0)) && t(EventAt(1, 0, 1)) <= Soon(EventAt(1, 0, 1));
  }

  lemma SoonNonNegative()
    ensures Stn.NonNegative<Timepoint>(Soon)
  {
  }

  lemma NoLater(t: Stn.Schedule<Timepoint>, net: Network, u: Stn.Schedule<Timepoint>)
    requires Stn.Earliest(t, net) && Stn.Satisfies(u, net) && Stn.NonNegative(u)
    ensures Stn.Satisfies(t, net) && forall v :: 0 <= t(v) <= u(v)
  {
  }

  // The first action's events are in order in both.
  lemma OwnOrder()
    ensures Distinct(InOrder()) && Distinct(Swapped()) && forall e :: e in Swapped() <==> e in InOrder()
    ensures Comes(InOrder(), (0, 0, 0), (0, 1, 0)) && Comes(InOrder(), (0, 1, 0), (0, 2, 0))
    ensures Comes(Swapped(), (0, 0, 0), (0, 1, 0)) && Comes(Swapped(), (0, 1, 0), (0, 2, 0))
    ensures Comes(Swapped(), (0, 0, 0), (0, 2, 0))
  {
    var q: Path := InOrder();
    var r: Path := Swapped();
    assert q == [(0, 0, 0), (0, 1, 0), (1, 0, 1), (0, 2, 0)] && r == [(0, 0, 0), (1, 0, 1), (0, 1, 0), (0, 2, 0)];
    hide InOrder, Swapped, Comes;
    ComesAt(q, 0, 1);
    ComesAt(q, 1, 3);
    ComesAt(r, 0, 2);
    ComesAt(r, 0, 3);
    ComesAt(r, 2, 3);
  }

  // A mutex pair of `path'` is one of the first action's.
  lemma OwnPair(path': Path, e: Fired, f: Fired)
    requires IsPath(Racing(), path') && Distinct(path') && forall e :: e in path' <==> e in InOrder()
    requires Comes(path', (0, 0, 0), (0, 1, 0)) && Comes(path', (0, 1, 0), (0, 2, 0))
    requires Comes(path', e, f) && MutexFired(Racing(), e, f)
    ensures Comes(Swapped(), e, f) && MutexFired(Racing(), f, e)
  {
    assert IsEvent(Racing(), Id(e)) && IsEvent(Racing(), Id(f)) && Mutex(Racing(), Id(e), Id(f));
    RacingPairs(Id(e), Id(f));
    RacingPairs(Id(f), Id(e));
    hide Racing, Distinct, Comes, Mutex, Swapped, InOrder, IsPath;
    OwnOrder();
    ComesIn(path', e, f);
    SameAction(e, f);
    if e == f {
      NotTwice(path', e);
    } else {
      PairInTurn(path', (0, 0, 0), (0, 1, 0), (0, 2, 0), e, f);
    }
  }

  // `path'` keeps the first action's events in order.
  lemma SwappedReorders(path': Path)
    requires IsPath(Racing(), path') && Distinct(path') && forall e :: e in path' <==> e in InOrder()
    requires Comes(path', (0, 0, 0), (0, 1, 0)) && Comes(path', (0, 1, 0), (0, 2, 0))
    ensures IsPath(Racing(), Swapped()) && Reorders(Racing(), Swapped(), path')
  {
    RunSwapped();
    OwnOrder();
    hide Distinct, Comes, Racing, MutexFired, Swapped, InOrder, IsPath;
    forall e, f | Comes(path', e, f) && MutexFired(Racing(), e, f) ensures Comes(Swapped(), e, f) {
      OwnPair(path', e, f);
    }
  }

  lemma SameAction(e: Fired, f: Fired)
    requires e in InOrder() && f in InOrder() && e.0 == f.0
    ensures e == f || (e in [(0, 0, 0), (0, 1, 0), (0, 2, 0)] && f in [(0, 0, 0), (0, 1, 0), (0, 2, 0)])
  {
  }

  lemma PairInTurn(q: Path, x: Fired, y: Fired, z: Fired, e: Fired, f: Fired)
    requires Distinct(q) && Comes(q, x, y) && Comes(q, y, z) && Comes(q, e, f)
    requires e in [x, y, z] && f in [x, y, z] && e != f
    ensures (e == x && f == y) || (e == x && f == z) || (e == y && f == z)
  {
    InTurn(q, x, y, z);
    Antisymmetric(q, e, f);
    Antisymmetric(q, x, y);
    Antisymmetric(q, y, z);
    Antisymmetric(q, x, z);
    hide Distinct, Comes;
  }

  lemma InTurn(q: Path, x: Fired, y: Fired, z: Fired)
    requires Distinct(q) && Comes(q, x, y) && Comes(q, y, z)
    ensures Comes(q, x, z)
  {
  }

  /** In whatever order of the plan's times the events fire, the condition fails inside
      its span: `build_plan` schedules a path the search found so that it breaks. */
  lemma PlanCanBreakDurative(t: Stn.Schedule<Timepoint>, path': Path, i': nat, j': nat)
    requires WellFormed(Racing()) && Found(Racing(), PLAN) && Stn.Earliest(t, PlanNetworkOf(Racing(), PLAN))
    requires PC.ByTime(path', InOrder(), t) && SpanAt(path', InOrder(), i', j', 0, 3)
    ensures IsPath(Racing(), path') && IsPlan(Racing(), PLAN, t)
    ensures !HoldsOver(Racing(), path', [F, F], KEPT, i', j')
  {
    RacingScheduled(t);
    RunInOrder();
    RunSwapped();
    var (p, q, x) := (Racing(), Swapped(), (0, 1, 0));
    PartIsPath(p, InOrder(), path');
    assert x in InOrder() && (1, 0, 1) in InOrder() && (0, 0, 0) in InOrder() && (0, 2, 0) in InOrder();
    PC.EarlierComes(path', t, (0, 0, 0), x);
    PC.EarlierComes(path', t, x, (0, 2, 0));
    PC.EarlierComes(path', t, (1, 0, 1), x);
    SwappedReorders(path');
    var m' := PositionOf(path', x);
    InsideSpan(path', i', j', m');
    FirstWriters(path', m');
    KeptHolds([F, T]);
    hide Racing, Distinct, Comes, Found, IsPlan, PlanNetworkOf, Exec, Holds, Reorders, ValuesAt;
    if HoldsOver(p, path', [F, F], KEPT, i', j') {
      assert ValuesAt(p, path', m', [F, F]).Some?;
      RacingExecutes(path');
      SameWritersSameValue(p, KEPT, q, path', 2, m', [F, F]);
    }
  }

  lemma RacingExecutes(path': Path)
    requires IsPath(Racing(), path') && IsPath(Racing(), Swapped()) && Reorders(Racing(), Swapped(), path')
    ensures Exec(Racing(), path', [F, F]).Some?
  {
    var (p, q, r) := (Racing(), InOrder(), Swapped());
    RunInOrder();
    RunSwapped();
    SwappedReordersBack(path');
    hide Racing, Exec, Reorders;
    Deorder(p, path', q, [F, F]);
  }

  // ... and so does any order `Swapped` reorders.
  lemma SwappedReordersBack(path': Path)
    requires IsPath(Racing(), path') && IsPath(Racing(), Swapped()) && Reorders(Racing(), Swapped(), path')
    ensures IsPath(Racing(), InOrder()) && Reorders(Racing(), path', InOrder())
  {
    RunInOrder();
    OwnOrder();
    var (p, q, r) := (Racing(), InOrder(), Swapped());
    hide Distinct, Comes, Racing, MutexFired, Swapped, InOrder, IsPath;
    forall e, f | Comes(q, e, f) && MutexFired(p, e, f) ensures Comes(path', e, f) {
      OwnPair(q, e, f);
      ComesIn(q, e, f);
      DistinctOrder(path', r, e, f);
      Antisymmetric(r, e, f);
    }
  }

  lemma InsideSpan(path': Path, i': nat, j': nat, m': nat)
    requires Distinct(path') && SpanAt(path', InOrder(), i', j', 0, 3) && m' < |path'| && path'[m'] == (0, 1, 0)
    requires Comes(path', (0, 0, 0), (0, 1, 0)) && Comes(path', (0, 1, 0), (0, 2, 0))
    ensures i' < m' <= j'
  {
  }

  // Only the second action's event has written by then.
  lemma FirstWriters(path': Path, m': nat)
    requires Distinct(path') && m' < |path'| && path'[m'] == (0, 1, 0) && Comes(path', (1, 0, 1), (0, 1, 0))
    requires forall e :: e in path' <==> e in InOrder()
    ensures forall e | e in path' && Writer(Racing(), e, KEPT) :: e in path'[..m'] <==> e in Swapped()[..2]
  {
    RacingEvents();
    var i, j :| 0 <= i < j < |path'| && path'[i] == (1, 0, 1) && path'[j] == (0, 1, 0);
    assert j == m' && path'[..m'][i] == (1, 0, 1);
    var (p, q: Path) := (Racing(), Swapped());
    assert q[..2] == [(0, 0, 0), (1, 0, 1)];
    forall e | e in path' && Writer(p, e, KEPT) ensures e in path'[..m'] <==> e in q[..2] {
      assert e == (0, 1, 0) || e == (1, 0, 1);
    }
  }
}
