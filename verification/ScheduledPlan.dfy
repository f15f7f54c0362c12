/**
 `build_plan` as it runs: it replays a path the search found, collects the plan
 network, and reads off when each action starts and how long it takes.
*/
module ScheduledPlan {
  import opened Options
  import opened Expr
  import opened Temporal
  import opened TwoEdges
  import opened PlanNetwork
  import opened BuildPlan
  import opened SearchSpace
  import Stn

  /** The actions, with their instances, that `plan` opens from `s` on. */
  ghost function OpenedBy(p: Problem, s: State, plan: seq<nat>): set<(nat, nat)>
    requires WellFormed(p) && ValidState(p, s) && Run(p, s, plan).Some?
    decreases |plan|
  {
    if plan == [] then {} else
      StepValid(p, s, plan[0]);
      (if plan[0] in s.todo then {} else {(plan[0], s.instances)})
      + OpenedBy(p, Step(p, s, plan[0]).value, plan[1..])
  }

  /** Where a schedule puts an instance: its start, and its duration unless that
      is 0, with the timed effects' time 0 as the origin. */
  function Placed(times: Schedule, timed: bool, a: nat, n: nat): (int, Option<int>) {
    var origin := if timed then times(PlanStart) else 0;
    var (st, et) := (times(ActionStart(a, n)) - origin, times(ActionEnd(a, n)) - origin);
    (st, if et - st == 0 then None else Some(et - st))
  }

  // `net` mentions both ends of the instances in `opened`, and of no others.
  ghost predicate Mentions(net: Network, known: set<(nat, nat)>) {
    forall a: nat, n: nat ::
      && (Stn.Mentioned(net, ActionStart(a, n)) <==> (a, n) in known)
      && (Stn.Mentioned(net, ActionEnd(a, n)) <==> (a, n) in known)
  }

  lemma MentionsUnion(m: Network, n: Network, k: set<(nat, nat)>, l: set<(nat, nat)>)
    requires Mentions(m, k) && Mentions(n, l)
    ensures Mentions(m + n, k + l)
  {
    hide Stn.Mentioned;
    forall v: Timepoint ensures Stn.Mentioned(m + n, v) <==> Stn.Mentioned(m, v) || Stn.Mentioned(n, v) {
      MentionedUnion(m, n, v);
    }
  }

  lemma MentionedUnion(m: Network, n: Network, v: Timepoint)
    ensures Stn.Mentioned(m + n, v) <==> Stn.Mentioned(m, v) || Stn.Mentioned(n, v)
  {
    if Stn.Mentioned(m, v) {
      var c :| c in m && (c.src == v || c.dst == v);
      assert c in m + n;
    }
    if Stn.Mentioned(n, v) {
      var c :| c in n && (c.src == v || c.dst == v);
      assert c in m + n;
    }
  }

  lemma EventEdgesMention(p: Problem, path: Path, todo: map<nat, (nat, nat)>, e: EventId, n: nat)
    requires IsPath(p, path) && IsTodo(p, todo) && IsEvent(p, e)
    ensures Mentions(PlanPast(p, path, e, EventAt(e.0, e.1, n)), {})
    ensures Mentions(PlanTodo(p, todo, e, EventAt(e.0, e.1, n)), {})
  {
    hide Mutex, Precedence, GapFor;
  }

  lemma ActionMentions(p: Problem, a: nat, n: nat, bounds: (int, int))
    requires a < |p.actions|
    ensures Mentions(PlanAction(p, a, n, bounds), {(a, n)})
    ensures Mentions({Before(PlanStart, ActionStart(a, n), 0)} + PlanAction(p, a, n, bounds), {(a, n)})
    ensures Mentions(PlanAction(p, a, n, bounds)
                     + {Before(PlanStart, ActionStart(a, n), 0), Before(ActionStart(a, n), PlanStart, 0)}, {(a, n)})
  {
    assert Before(ActionStart(a, n), ActionEnd(a, n), bounds.0) in PlanAction(p, a, n, bounds);
    var (x, y) := (ActionStart(a, n), ActionEnd(a, n));
    forall c | c in PlanAction(p, a, n, bounds)
      ensures (c.src.ActionStart? ==> c.src == x) && (c.src.ActionEnd? ==> c.src == y)
      ensures (c.dst.ActionStart? ==> c.dst == x) && (c.dst.ActionEnd? ==> c.dst == y)
    {
    }
    hide PlanAction;
  }

  lemma StepMentions(p: Problem, s: State, a: nat)
    requires WellFormed(p) && ValidState(p, s) && Step(p, s, a).Some?
    ensures Mentions(PlanStep(p, s, a), if a in s.todo then {} else {(a, s.instances)})
  {
    hide Mentions, PlanAction, PlanPast, PlanTodo, Expand, DurationBounds, Applicable;
    if a in s.todo {
      var (i, n) := s.todo[a];
      var todo := if i + 1 >= |p.actions[a].events| then s.todo - {a} else s.todo[a := (i + 1, n)];
      EventEdgesMention(p, s.path, todo, (a, i), n);
      MentionsUnion(PlanPast(p, s.path, (a, i), EventAt(a, i, n)), PlanTodo(p, todo, (a, i), EventAt(a, i, n)), {}, {});
      var none: set<(nat, nat)> := {};
      assert none + none == none;
    } else {
      var n := s.instances;
      var (past, pend) := (PlanPast(p, s.path, (a, 0), EventAt(a, 0, n)), PlanTodo(p, s.todo, (a, 0), EventAt(a, 0, n)));
      EventEdgesMention(p, s.path, s.todo, (a, 0), n);
      MentionsUnion(past, pend, {}, {});
      var bounds := DurationBounds(p, a, s.assignment).value;
      ActionMentions(p, a, n, bounds);
      var own := PlanAction(p, a, n, bounds)
        + if p.timed.Some? then {Before(PlanStart, ActionStart(a, n), 0)} else {};
      assert own == (if p.timed.Some? then {Before(PlanStart, ActionStart(a, n), 0)} else {})
                    + PlanAction(p, a, n, bounds);
      assert own == PlanAction(p, a, n, bounds) || p.timed.Some?;
      MentionsUnion(own, past + pend, {(a, n)}, {} + {});
      assert PlanStep(p, s, a) == own + (past + pend);
      assert {(a, n)} + ({} + {}) == {(a, n)};
    }
  }

  lemma {:induction false} EdgesMention(p: Problem, s: State, plan: seq<nat>)
    requires WellFormed(p) && ValidState(p, s) && Run(p, s, plan).Some?
    ensures Mentions(PlanEdges(p, s, plan), OpenedBy(p, s, plan))
    decreases |plan|
  {
    hide Step, ValidState, WellFormed, PlanStep, Mentions;
    if plan == [] {
      NothingMentioned();
    } else {
      StepValid(p, s, plan[0]);
      var s' := Step(p, s, plan[0]).value;
      EdgesMention(p, s', plan[1..]);
      StepMentions(p, s, plan[0]);
      MentionsUnion(PlanStep(p, s, plan[0]), PlanEdges(p, s', plan[1..]),
                    if plan[0] in s.todo then {} else {(plan[0], s.instances)}, OpenedBy(p, s', plan[1..]));
    }
  }

  lemma NothingMentioned()
    ensures Mentions({}, {})
  {
  }

  /** The instances the plan network knows: those the path opens, and that of the
      timed action. */
  lemma PlanMentions(p: Problem, plan: seq<nat>)
    requires WellFormed(p) && Found(p, plan)
    ensures Mentions(PlanNetworkOf(p, plan),
                     (if p.timed.Some? then {(p.timed.value, 0)} else {}) + OpenedBy(p, Initial(p).value, plan))
  {
    var s1 := Initial(p).value;
    hide WellFormed, Initial, Run, Mentions, PlanEdges, OpenedBy, PlanAction, DurationBounds;
    EdgesMention(p, s1, plan);
    if p.timed.Some? {
      TimedMentions(p);
    } else {
      NothingMentioned();
    }
    MentionsUnion(InitialPlan(p), PlanEdges(p, s1, plan),
                  if p.timed.Some? then {(p.timed.value, 0)} else {}, OpenedBy(p, s1, plan));
  }

  lemma TimedMentions(p: Problem)
    requires WellFormed(p) && Initial(p).Some? && p.timed.Some?
    ensures Mentions(InitialPlan(p), {(p.timed.value, 0)})
  {
    hide Mentions, PlanAction, Expand, Applicable, DurationBounds;
    ActionMentions(p, p.timed.value, 0, DurationBounds(p, p.timed.value, p.init).value);
  }

  lemma {:induction false} TimedNotOpened(p: Problem, s: State, plan: seq<nat>, n: nat)
    requires WellFormed(p) && ValidState(p, s) && Run(p, s, plan).Some? && p.timed.Some?
    ensures (p.timed.value, n) !in OpenedBy(p, s, plan)
    decreases |plan|
  {
    if plan != [] {
      StepValid(p, s, plan[0]);
      TimedNotOpened(p, Step(p, s, plan[0]).value, plan[1..], n);
    }
  }

  /** The network of every state the search reaches has a schedule. */
  lemma FoundSatisfiable(p: Problem, plan: seq<nat>)
    requires WellFormed(p) && Found(p, plan)
    ensures Stn.Satisfiable(StateAfter(p, plan).network)
  {
    if plan == [] {
      if p.timed.Some? {
        var e, n, todo, opening := InitialExpands(p);
      } else {
        var t: Schedule := v => if v == PlanEnd && p.deadline.Some? then p.deadline.value else 0;
        assert Stn.Satisfies(t, DeadlineEdges(p));
      }
    } else {
      var k := |plan| - 1;
      FoundPrefix(p, plan, k);
      assert plan[..k + 1] == plan;
      var s := StateAfter(p, plan[..k]);
      hide Found, StateAfter, Run, Initial, WellFormed;
      var e, n, todo, opening := StepExpands(p, s, plan[k]);
      ExpandSatisfiable(p, s, e, n, todo, opening);
    }
  }

  lemma ExpandSatisfiable(
    p: Problem, s: State, e: EventId, n: nat, todo: map<nat, (nat, nat)>, opening: Network)
    requires ValidState(p, s) && IsEvent(p, e) && IsTodo(p, todo)
    requires Expand(p, s, e, n, todo, opening).Some?
    ensures Stn.Satisfiable(Expand(p, s, e, n, todo, opening).value.network)
  {
  }

  /** `build_plan` does not fail on a path the search found: the plan network is
      satisfiable. */
  lemma PlanSatisfiable(p: Problem, plan: seq<nat>)
    requires WellFormed(p) && Found(p, plan)
    ensures Stn.Satisfiable(PlanNetworkOf(p, plan))
  {
    FoundSatisfiable(p, plan);
    hide *;
    var t := SomeSchedule(StateAfter(p, plan).network);
    PlanEntailed(p, plan, t);
    ScheduleSatisfies(PlanNetworkOf(p, plan), t);
  }

  lemma ScheduleSatisfies(net: Network, t: Schedule)
    requires Stn.Satisfies(t, net)
    ensures Stn.Satisfiable(net)
  {
  }

  // ---- the algorithm ----

  /** The path without the first event of the timed action, which the initial state has
      fired. */
  function AfterTimed(p: Problem, path: seq<nat>): seq<nat>
    requires p.timed.Some? ==> path != []
  {
    if p.timed.Some? then path[1..] else path
  }

  /** The first half of `build_plan`: the network of the replayed path.  The
      timed action heads `path`; the initial state has fired its first event. */
  method Replay(b: PlanBuilder, path: seq<nat>)
    requires b.Valid() && b.tn.added == {} && WellFormed(b.p)
    requires b.p.timed.Some? ==> path != [] && path[0] == b.p.timed.value
    requires Found(b.p, AfterTimed(b.p, path))
    modifies b.tn, b.mutex, b.precedence
    ensures b.Valid()
    ensures b.tn.added == PlanNetworkOf(b.p, AfterTimed(b.p, path))
  {
    hide *;
    hide PlanBuilder.Valid, SearchState.Valid;
    var p := b.p;
    var rest := AfterTimed(p, path);
    var state := ReplayInitial(b, rest);
    for k := 0 to |rest|
      invariant state.Valid() && fresh(state) && fresh(state.network)
      invariant Replayed(b, state, rest, k)
    {
      state := ReplayStep(b, state, rest, k);
    }
    AllReplayed(b, state, rest);
  }

  // `state` is the one the first `k` actions lead to, and the network is theirs.
  ghost predicate Replayed(b: PlanBuilder, state: SearchState, plan: seq<nat>, k: nat)
    reads b, b.mutex, b.precedence, b.tn, state, state.network
  {
    && b.Valid() && k <= |plan|
    && WellFormed(b.p) && Found(b.p, plan) && Found(b.p, plan[..k])
    && state.Abs() == StateAfter(b.p, plan[..k])
    && b.tn.added == PlanNetworkOf(b.p, plan[..k])
  }

  lemma AllReplayed(b: PlanBuilder, state: SearchState, plan: seq<nat>)
    requires Replayed(b, state, plan, |plan|)
    ensures b.Valid() && WellFormed(b.p) && Found(b.p, plan) && b.tn.added == PlanNetworkOf(b.p, plan)
  {
    assert plan[..|plan|] == plan;
  }

  method ReplayInitial(b: PlanBuilder, plan: seq<nat>) returns (state: SearchState)
    requires b.Valid() && b.tn.added == {} && WellFormed(b.p) && Found(b.p, plan)
    modifies b.tn, b.mutex
    ensures fresh(state) && fresh(state.network) && state.Valid() && Replayed(b, state, plan, 0)
  {
    hide Initial, InitialPlan, Stn.DeltaStn.Valid, WellFormed, PlanEdges, Run, PlanNetworkOf, ValidState, Found, StateAfter;
    NothingReplayed(b.p, plan);
    state := InitialState(b.p, b.mutex);
    if b.p.timed.Some? {
      b.AddTimed(state.assignment);
    }
  }

  method ReplayStep(b: PlanBuilder, state: SearchState, plan: seq<nat>, k: nat) returns (next: SearchState)
    requires state.Valid() && Replayed(b, state, plan, k) && k < |plan|
    requires state.network != b.tn
    modifies b.tn, b.mutex, b.precedence
    ensures fresh(next) && fresh(next.network) && next.Valid() && Replayed(b, next, plan, k + 1)
  {
    hide Stn.DeltaStn.Valid, WellFormed, Found, StateAfter, Step, PlanStep, PlanNetworkOf, ValidState;
    FoundPrefix(b.p, plan, k);
    b.AddStep(state.path, state.todo, state.instances, state.assignment, plan[k], state.Abs());
    next := GetSuccessorState(b.p, b.mutex, state, plan[k]);
  }

  lemma NothingReplayed(p: Problem, plan: seq<nat>)
    requires WellFormed(p) && Found(p, plan)
    ensures Found(p, plan[..0]) && StateAfter(p, plan[..0]) == Initial(p).value && ValidState(p, Initial(p).value)
    ensures PlanNetworkOf(p, plan[..0]) == InitialPlan(p)
    ensures p.timed.None? ==> InitialPlan(p) == {}
  {
  }

  /** The times of the ends of the actions, but for the timed one, relative to
      `origin`. */
  method ReadTimes(d: map<Timepoint, int>, origin: int, timed: Option<nat>)
    returns (starts: map<(nat, nat), int>, ends: map<(nat, nat), int>)
    ensures forall a: nat, n: nat :: (a, n) in starts <==> ActionStart(a, n) in d && timed != Some(a)
    ensures forall a: nat, n: nat :: (a, n) in ends <==> ActionEnd(a, n) in d && timed != Some(a)
    ensures forall x | x in starts :: starts[x] == Stn.Times(d)(ActionStart(x.0, x.1)) - origin
    ensures forall x | x in ends :: ends[x] == Stn.Times(d)(ActionEnd(x.0, x.1)) - origin
  {
    starts, ends := map[], map[];
    var rest := d.Keys;
    while rest != {}
      invariant rest <= d.Keys
      invariant forall a: nat, n: nat ::
        (a, n) in starts <==> ActionStart(a, n) in d && ActionStart(a, n) !in rest && timed != Some(a)
      invariant forall a: nat, n: nat ::
        (a, n) in ends <==> ActionEnd(a, n) in d && ActionEnd(a, n) !in rest && timed != Some(a)
      invariant forall x | x in starts :: starts[x] == Stn.Times(d)(ActionStart(x.0, x.1)) - origin
      invariant forall x | x in ends :: ends[x] == Stn.Times(d)(ActionEnd(x.0, x.1)) - origin
      decreases |rest|
    {
      var v :| v in rest;
      rest := rest - {v};
      match v {
        case ActionStart(a, n) =>
          if timed != Some(a) {
            starts := starts[(a, n) := -d[v] - origin];
          }
        case ActionEnd(a, n) =>
          if timed != Some(a) {
            ends := ends[(a, n) := -d[v] - origin];
          }
        case _ =>
      }
    }
  }

  method PairTimes(starts: map<(nat, nat), int>, ends: map<(nat, nat), int>)
    returns (res: map<(nat, nat), (int, Option<int>)>)
    requires starts.Keys <= ends.Keys
    ensures res.Keys == starts.Keys
    ensures forall x | x in res ::
              res[x] == (starts[x], if ends[x] - starts[x] == 0 then None else Some(ends[x] - starts[x]))
  {
    res := map[];
    var rest := starts.Keys;
    while rest != {}
      invariant rest <= starts.Keys && res.Keys == starts.Keys - rest
      invariant forall x | x in res ::
        res[x] == (starts[x], if ends[x] - starts[x] == 0 then None else Some(ends[x] - starts[x]))
      decreases |rest|
    {
      var x :| x in rest;
      var d := ends[x] - starts[x];
      res := res[x := (starts[x], if d == 0 then None else Some(d))];
      rest := rest - {x};
    }
  }

  /** The instances of `d` other than the timed action's are the ones opened. */
  lemma TimesRead(d: map<Timepoint, int>, net: Network, timed: Option<nat>, known: set<(nat, nat)>)
    requires forall v :: v in d <==> Stn.Mentioned(net, v)
    requires Mentions(net, (if timed.Some? then {(timed.value, 0)} else {}) + known)
    requires timed.Some? ==> forall n: nat :: (timed.value, n) !in known
    ensures forall a: nat, n: nat :: (a, n) in known <==> ActionStart(a, n) in d && timed != Some(a)
    ensures forall a: nat, n: nat :: (a, n) in known <==> ActionEnd(a, n) in d && timed != Some(a)
  {
    hide Stn.Mentioned;
  }

  lemma TimedMentionsStart(p: Problem, plan: seq<nat>)
    requires WellFormed(p) && Found(p, plan) && p.timed.Some?
    ensures Stn.Mentioned(PlanNetworkOf(p, plan), PlanStart)
  {
    var c := Before(PlanStart, ActionStart(p.timed.value, 0), 0);
    hide Initial, Run, PlanAction, DurationBounds, PlanEdges;
    assert c in InitialPlan(p);
    assert c in PlanNetworkOf(p, plan) && c.src == PlanStart;
  }

  lemma EarliestIsPlan(p: Problem, plan: seq<nat>, times: Schedule)
    requires WellFormed(p) && Found(p, plan) && Stn.Earliest(times, PlanNetworkOf(p, plan))
    ensures IsPlan(p, plan, times)
  {
    assert Stn.Satisfies(times, PlanNetworkOf(p, plan));
    hide *;
    ScheduleIsPlan(p, plan, times);
  }

  method ReadPlan(d: map<Timepoint, int>, timed: Option<nat>, ghost net: Network, ghost known: set<(nat, nat)>)
    returns (res: map<(nat, nat), (int, Option<int>)>)
    requires forall v :: v in d <==> Stn.Mentioned(net, v)
    requires Mentions(net, (if timed.Some? then {(timed.value, 0)} else {}) + known)
    requires timed.Some? ==> Stn.Mentioned(net, PlanStart) && forall n: nat :: (timed.value, n) !in known
    ensures res.Keys == known
    ensures forall x | x in res :: res[x] == Placed(Stn.Times(d), timed.Some?, x.0, x.1)
  {
    hide Stn.Mentioned, Mentions;
    TimesRead(d, net, timed, known);
    var origin := if timed.Some? then -d[PlanStart] else 0;
    var starts, ends := ReadTimes(d, origin, timed);
    SameInstances(starts.Keys, known);
    SameInstances(ends.Keys, known);
    res := PairTimes(starts, ends);
    hide Placed;
    forall x | x in res ensures res[x] == Placed(Stn.Times(d), timed.Some?, x.0, x.1) {
      PlacedAt(d, timed, starts[x], ends[x], x);
    }
  }

  lemma PlacedAt(d: map<Timepoint, int>, timed: Option<nat>, start: int, end: int, x: (nat, nat))
    requires timed.Some? ==> PlanStart in d
    requires var origin := if timed.Some? then -d[PlanStart] else 0;
      && start == Stn.Times(d)(ActionStart(x.0, x.1)) - origin
      && end == Stn.Times(d)(ActionEnd(x.0, x.1)) - origin
    ensures Placed(Stn.Times(d), timed.Some?, x.0, x.1) == (start, if end - start == 0 then None else Some(end - start))
  {
  }

  lemma SameInstances(xs: set<(nat, nat)>, ys: set<(nat, nat)>)
    requires forall a: nat, n: nat :: (a, n) in xs <==> (a, n) in ys
    ensures xs == ys
  {
    forall x: (nat, nat) ensures x in xs <==> x in ys {
      assert x == (x.0, x.1);
    }
  }

  lemma SamePlaces(t: Schedule, times: Schedule, net: Network, timed: bool, x: (nat, nat))
    requires Stn.Earliest(t, net) && Stn.Earliest(times, net)
    ensures Placed(t, timed, x.0, x.1) == Placed(times, timed, x.0, x.1)
  {
    Stn.EarliestUnique(t, times, net);
  }

  /** The plan of a path the search found: the earliest schedule of its plan
      network.  It needs none of the checks the source leaves out: the network is
      satisfiable, every replayed step succeeds and every start has its end. */
  method MakePlan(p: Problem, path: seq<nat>)
    returns (res: map<(nat, nat), (int, Option<int>)>, ghost times: Schedule)
    requires WellFormed(p)
    requires p.timed.Some? ==> path != [] && path[0] == p.timed.value
    requires Found(p, AfterTimed(p, path))
    ensures res.Keys == OpenedBy(p, Initial(p).value, AfterTimed(p, path))
    ensures forall t: Schedule, x | Stn.Earliest(t, PlanNetworkOf(p, AfterTimed(p, path))) && x in res ::
              res[x] == Placed(t, p.timed.Some?, x.0, x.1)
    ensures Stn.Earliest(times, PlanNetworkOf(p, AfterTimed(p, path))) && IsPlan(p, AfterTimed(p, path), times)
  {
    hide Initial, Run, Step, Stn.DeltaStn.Valid, WellFormed, PlanNetworkOf, OpenedBy, Mentions, Stn.Mentioned,
      Stn.Earliest, Stn.Satisfies, Stn.Satisfiable, IsPlan, ValidState, StateAfter, Placed;
    var b := new PlanBuilder(p);
    Replay(b, path);
    ghost var plan := AfterTimed(p, path);
    PlanSatisfiable(p, plan);
    times := Stn.Times(b.tn.distances);
    var ok := b.tn.Check();
    b.tn.Consequences();
    EarliestIsPlan(p, plan, times);
    PlanMentions(p, plan);
    if p.timed.Some? {
      TimedMentionsStart(p, plan);
      forall n: nat ensures (p.timed.value, n) !in OpenedBy(p, Initial(p).value, plan) {
        TimedNotOpened(p, Initial(p).value, plan, n);
      }
    }
    res := ReadPlan(b.tn.distances, p.timed, PlanNetworkOf(p, plan), OpenedBy(p, Initial(p).value, plan));
    forall t: Schedule, x | Stn.Earliest(t, PlanNetworkOf(p, plan)) && x in res
      ensures res[x] == Placed(t, p.timed.Some?, x.0, x.1)
    {
      SamePlaces(t, times, PlanNetworkOf(p, plan), p.timed.Some?, x);
    }
  }
}
