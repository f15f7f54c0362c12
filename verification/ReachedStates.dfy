/**
 What every state the search reaches looks like: which timepoints its network
 mentions, where the timed action is pinned, and that nothing precedes the
 plan's start.
*/
module ReachedStates {
  import opened Options
  import opened Expr
  import opened Temporal
  import opened TwoEdges
  import Stn

  predicate InRange(v: Timepoint, instances: nat) {
    match v
    case PlanStart => true
    case PlanEnd => true
    case ActionStart(_, n) => n < instances
    case ActionEnd(_, n) => n < instances
    case EventAt(_, _, n) => n < instances
  }

  /** The constraints of `net` are about instances below `instances`, and only a
      deadline bounds the plan's end from above. */
  ghost predicate Within(p: Problem, net: Network, instances: nat) {
    forall c | c in net ::
      && InRange(c.src, instances) && InRange(c.dst, instances)
      && (c.src == PlanEnd ==> c in DeadlineEdges(p))
  }

  /** The timed action, if any, has been opened as instance 0, at the start. */
  ghost predicate TimedPinned(p: Problem, s: State)
    requires WellFormed(p)
  {
    p.timed.Some? ==>
      && s.instances > 0
      && DurationBounds(p, p.timed.value, p.init).Some?
      && OpeningEdges(p, p.timed.value, 0, DurationBounds(p, p.timed.value, p.init).value, true) <= s.network
      && (p.timed.value in s.todo ==> s.todo[p.timed.value].1 == 0)
  }

  ghost predicate Shaped(p: Problem, s: State)
    requires WellFormed(p)
  {
    && Within(p, s.network, s.instances)
    && DeadlineEdges(p) <= s.network
    && (forall a | a in s.todo :: s.todo[a].1 < s.instances)
    && (forall e | e in s.path :: e.2 < s.instances)
  }

  lemma WithinUnion(p: Problem, m: Network, n: Network, k: nat)
    requires Within(p, m, k) && Within(p, n, k)
    ensures Within(p, m + n, k)
  {
  }

  lemma WithinMore(p: Problem, net: Network, k: nat, l: nat)
    requires Within(p, net, k) && k <= l
    ensures Within(p, net, l)
  {
  }

  lemma OpeningWithin(p: Problem, a: nat, n: nat, bounds: (int, int), pinned: bool, k: nat)
    requires a < |p.actions| && n < k
    ensures Within(p, OpeningEdges(p, a, n, bounds, pinned), k)
  {
  }

  lemma TodoWithin(p: Problem, todo: map<nat, (nat, nat)>, e: EventId, n: nat, k: nat)
    requires IsTodo(p, todo) && IsEvent(p, e) && n < k && forall a | a in todo :: todo[a].1 < k
    ensures Within(p, TodoEdges(p, todo, e, EventAt(e.0, e.1, n)), k)
  {
    hide GapFor;
  }

  lemma {:induction false} PastWithin(p: Problem, path: Path, e: EventId, n: nat, predecessor: bool, k: nat)
    requires IsPath(p, path) && IsEvent(p, e) && n < k && forall x | x in path :: x.2 < k
    ensures Within(p, PastEdges(p, path, e, EventAt(e.0, e.1, n), predecessor), k)
  {
    hide Mutex;
    if path != [] {
      assert path[|path| - 1] in path;
      PastWithin(p, path[..|path| - 1], e, n, false, k);
    }
  }

  lemma ExpandsShaped(
    p: Problem, s: State, s': State, e: EventId, n: nat, todo: map<nat, (nat, nat)>, opening: Network, pinned: bool)
    requires WellFormed(p) && ValidState(p, s) && Shaped(p, s)
    requires Expands(p, s, s', e, n, todo, opening, pinned)
    ensures Shaped(p, s')
  {
    var k := s'.instances;
    if opening != {} {
      OpeningWithin(p, e.0, n, DurationBounds(p, e.0, s.assignment).value, pinned, k);
    }
    hide Fire, Applicable, DurationBounds, OpeningEdges, PastEdges, TodoEdges, WellFormed;
    WithinMore(p, s.network, s.instances, k);
    PastWithin(p, s.path, e, n, true, k);
    TodoWithin(p, todo, e, n, k);
    var (past, pend) := (PastEdges(p, s.path, e, EventAt(e.0, e.1, n), true), TodoEdges(p, todo, e, EventAt(e.0, e.1, n)));
    hide Within;
    assert Within(p, opening, k) by {
      if opening == {} {
        NothingWithin(p, k);
      }
    }
    WithinUnion(p, s.network, opening, k);
    WithinUnion(p, s.network + opening, past, k);
    WithinUnion(p, s.network + opening + past, pend, k);
  }

  lemma NothingWithin(p: Problem, k: nat)
    ensures Within(p, {}, k)
  {
  }

  lemma ExpandsPinned(
    p: Problem, s: State, s': State, e: EventId, n: nat, todo: map<nat, (nat, nat)>, opening: Network)
    requires WellFormed(p) && ValidState(p, s) && TimedPinned(p, s)
    requires Expands(p, s, s', e, n, todo, opening, false) && (opening != {} ==> p.timed != Some(e.0))
    ensures TimedPinned(p, s')
  {
    hide Fire, Applicable, OpeningEdges, PastEdges, TodoEdges, DurationBounds, WellFormed, DurationReads;
  }

  lemma {:induction false} ReachedShaped(p: Problem, plan: seq<nat>, s: State)
    requires WellFormed(p) && Reached(p, plan, s)
    ensures ValidState(p, s) && Shaped(p, s) && TimedPinned(p, s)
    decreases |plan|
  {
    if plan == [] {
      InitialValid(p);
      EmptyShaped(p);
      if p.timed.Some? {
        var e, n, todo, opening := InitialExpands(p);
        hide Shaped, WellFormed;
        ExpandsShaped(p, EmptyState(p), s, e, n, todo, opening, true);
        hide OpeningEdges, PastEdges, TodoEdges, Applicable, Fire, DurationBounds, Initial, Open;
      }
    } else {
      var s0 := ReachedLast(p, plan, s);
      StepValid(p, s0, plan[|plan| - 1]);
      var e, n, todo, opening := StepExpands(p, s0, plan[|plan| - 1]);
      hide Reached, Step, WellFormed, Expands, Shaped, TimedPinned;
      ReachedShaped(p, plan[..|plan| - 1], s0);
      ExpandsShaped(p, s0, s, e, n, todo, opening, false);
      ExpandsPinned(p, s0, s, e, n, todo, opening);
    }
  }

  lemma EmptyShaped(p: Problem)
    requires WellFormed(p)
    ensures Shaped(p, EmptyState(p))
  {
  }

  // ---- nothing precedes the plan's start ----

  ghost predicate PendingAfterStart(p: Problem, todo: map<nat, (nat, nat)>, t: Schedule)
    requires IsTodo(p, todo)
  {
    forall a, j: nat | a in todo && todo[a].0 <= j < |p.actions[a].events| ::
      t(PlanStart) <= t(EventAt(a, j, todo[a].1))
  }

  /** Every event fired or pending comes no earlier than the plan's start. */
  ghost predicate AfterStart(p: Problem, s: State, t: Schedule)
    requires ValidState(p, s)
  {
    && (forall e | e in s.path :: t(PlanStart) <= t(At(e)))
    && PendingAfterStart(p, s.todo, t)
  }

  lemma OpenedAfterStart(p: Problem, a: nat, n: nat, bounds: (int, int), pinned: bool, t: Schedule)
    requires WellFormed(p) && a < |p.actions| && Stn.Satisfies(t, OpeningEdges(p, a, n, bounds, pinned))
    ensures t(PlanStart) <= t(EventAt(a, 0, n)) && t(EventAt(a, 0, n)) == t(ActionStart(a, n))
  {
    var net := OpeningEdges(p, a, n, bounds, pinned);
    assert Before(PlanStart, ActionStart(a, n), 0) in net;
    assert p.actions[a].events[0].timing == Timing(true, 0);
    assert Before(ActionStart(a, n), EventAt(a, 0, n), 0) in RigidEdges(p, a, n);
    assert Stn.Constraint(EventAt(a, 0, n), ActionStart(a, n), 0) in RigidEdges(p, a, n);
  }

  lemma PendingStep(p: Problem, todo: map<nat, (nat, nat)>, e: EventId, at: Timepoint, t: Schedule)
    requires p.epsilon > 0 && IsTodo(p, todo) && IsEvent(p, e)
    requires Stn.Satisfies(t, TodoEdges(p, todo, e, at)) && t(PlanStart) <= t(at)
    ensures PendingAfterStart(p, todo, t)
  {
    hide Mutex;
    forall a, j: nat | a in todo && todo[a].0 <= j < |p.actions[a].events|
      ensures t(PlanStart) <= t(EventAt(a, j, todo[a].1))
    {
      assert Before(at, EventAt(a, j, todo[a].1), GapFor(p, e, (a, j))) in TodoEdges(p, todo, e, at);
    }
  }

  lemma ExpandsAfterStart(
    p: Problem, s: State, s': State, e: EventId, n: nat, todo: map<nat, (nat, nat)>, opening: Network, pinned: bool,
    t: Schedule)
    requires WellFormed(p) && ValidState(p, s) && Expands(p, s, s', e, n, todo, opening, pinned)
    requires ValidState(p, s')
    requires Stn.Satisfies(t, s'.network) && AfterStart(p, s, t)
    ensures AfterStart(p, s', t)
  {
    var at := EventAt(e.0, e.1, n);
    assert p.epsilon > 0;
    hide Fire, Applicable, OpeningEdges, PastEdges, TodoEdges, DurationBounds, WellFormed;
    if opening != {} {
      OpenedAfterStart(p, e.0, n, DurationBounds(p, e.0, s.assignment).value, pinned, t);
    }
    assert t(PlanStart) <= t(at);
    PendingStep(p, todo, e, at, t);
  }

  lemma {:induction false} ReachedAfterStart(p: Problem, plan: seq<nat>, s: State, t: Schedule)
    requires WellFormed(p) && Reached(p, plan, s) && ValidState(p, s) && Stn.Satisfies(t, s.network)
    ensures AfterStart(p, s, t)
    decreases |plan|
  {
    if plan == [] {
      InitialValid(p);
      if p.timed.Some? {
        var e, n, todo, opening := InitialExpands(p);
        ExpandsAfterStart(p, EmptyState(p), s, e, n, todo, opening, true, t);
      }
    } else {
      var s0 := ReachedLast(p, plan, s);
      var e, n, todo, opening := StepExpands(p, s0, plan[|plan| - 1]);
      assert s0.network <= s.network by {
        hide Fire, Applicable, OpeningEdges, PastEdges, TodoEdges, DurationBounds, WellFormed, Reached, Step;
      }
      hide Reached, Step, WellFormed, Expands, AfterStart;
      ReachedAfterStart(p, plan[..|plan| - 1], s0, t);
      ExpandsAfterStart(p, s0, s, e, n, todo, opening, false, t);
    }
  }
}
