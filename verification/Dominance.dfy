/**
 The pruning of visited temporal states.  A state is dropped for a recorded one
 with the same values and the same events pending, if nothing but the timed
 action is in progress and the recorded one is epsilon earlier, or if nothing is
 in progress and no deadline presses.  Every schedule of every continuation of the
 dropped state then carries over to the recorded one.
*/
module Dominance {
  import opened Options
  import opened Expr
  import opened Temporal
  import opened TwoEdges
  import opened ReachedStates
  import Stn

  /** `weak_eq`. */
  ghost predicate SameKey(s1: State, s2: State) {
    && s1.assignment == s2.assignment
    && s1.todo.Keys == s2.todo.Keys
    && forall a | a in s1.todo :: s1.todo[a].0 == s2.todo[a].0
  }

  // When the last event happens, relative to the plan's start.
  function LastTime(path: Path, t: Schedule): int {
    if path == [] then 0 else t(At(path[|path| - 1])) - t(PlanStart)
  }

  /** How much later than in `t` the future must happen after `seen`, scheduled
      by `r`, than it does after `late`. */
  function Delay(p: Problem, seen: State, late: State, r: Schedule, t: Schedule): nat {
    var ready := if seen.path == [] then 0 else LastTime(seen.path, r) + p.epsilon;
    if ready <= LastTime(late.path, t) then 0 else ready - LastTime(late.path, t)
  }

  // The instance after `late` that takes the place of instance `n` after `seen`.
  function Renumber(seen: State, late: State, n: nat): nat {
    if n < seen.instances then 0 else n - seen.instances + late.instances
  }

  function Rename(seen: State, late: State, v: Timepoint): Timepoint {
    match v
    case PlanStart => PlanStart
    case PlanEnd => PlanEnd
    case ActionStart(a, n) => ActionStart(a, Renumber(seen, late, n))
    case ActionEnd(a, n) => ActionEnd(a, Renumber(seen, late, n))
    case EventAt(a, j, n) => EventAt(a, j, Renumber(seen, late, n))
  }

  function Max(x: int, y: int): int {
    if x < y then y else x
  }

  /** The past of `seen` as `r` schedules it, and after it the future as `t` does
      after `late`. */
  function Transfer(p: Problem, seen: State, late: State, r: Schedule, t: Schedule): Schedule {
    var shift := Delay(p, seen, late, r, t) - t(PlanStart);
    (v: Timepoint) =>
      if v == PlanEnd then Max(r(PlanEnd) - r(PlanStart), t(PlanEnd) + shift)
      else if InRange(v, seen.instances) then r(v) - r(PlanStart)
      else t(Rename(seen, late, v)) + shift
  }

  // ---- the relation between the runs after the two states ----

  // Instance `n'` after `seen` takes the place of `n` after `late`.
  ghost predicate Linked(p: Problem, seen: State, late: State, a: nat, n': nat, n: nat) {
    if p.timed == Some(a) then a in seen.todo && n' == 0 && n == 0
    else n' >= seen.instances && n == Renumber(seen, late, n')
  }

  ghost predicate LinkedTodo(
    p: Problem, seen: State, late: State, todo': map<nat, (nat, nat)>, todo: map<nat, (nat, nat)>)
  {
    && todo'.Keys == todo.Keys
    && forall a | a in todo :: todo'[a].0 == todo[a].0 && Linked(p, seen, late, a, todo'[a].1, todo[a].1)
  }

  ghost predicate LinkedPath(p: Problem, seen: State, late: State, path': Path, path: Path) {
    && seen.path <= path' && late.path <= path
    && LinkedEvents(p, seen, late, path'[|seen.path|..], path[|late.path|..])
  }

  ghost predicate LinkedEvents(p: Problem, seen: State, late: State, f': Path, f: Path) {
    && |f'| == |f|
    && forall i | 0 <= i < |f| :: Id(f'[i]) == Id(f[i]) && Linked(p, seen, late, f[i].0, f'[i].2, f[i].2)
  }

  /** The schedules of `s`, reached after `late`, carry over to `s'`, reached after
      `seen`. */
  ghost predicate Carries(p: Problem, seen: State, late: State, r: Schedule, s': State, s: State)
    requires ValidState(p, s)
  {
    forall t | Stn.Satisfies(t, s.network) ::
      && Ordered(p, s.path, t) && AfterStart(p, s, t)
      && Stn.Satisfies(Transfer(p, seen, late, r, t), s'.network)
  }

  ghost predicate Similar(p: Problem, seen: State, late: State, r: Schedule, s': State, s: State) {
    && ValidState(p, s') && ValidState(p, s)
    && s'.assignment == s.assignment && s'.active == s.active
    && s'.instances >= seen.instances && s.instances == Renumber(seen, late, s'.instances)
    && LinkedTodo(p, seen, late, s'.todo, s.todo)
    && LinkedPath(p, seen, late, s'.path, s.path)
    && late.network <= s.network
    && Carries(p, seen, late, r, s', s)
  }

  /** What the schedules of the two states must be like for the transfer to work:
      the future is never delayed, unless nothing pins it. */
  ghost predicate Transferable(p: Problem, seen: State, late: State, r: Schedule)
    requires WellFormed(p)
  {
    && ValidState(p, seen) && ValidState(p, late)
    && Shaped(p, seen) && Shaped(p, late) && TimedPinned(p, seen) && TimedPinned(p, late)
    && Stn.Satisfies(r, seen.network) && Ordered(p, seen.path, r)
    && ((p.deadline.None? && (p.timed.Some? ==> p.timed.value !in seen.todo))
        || forall t | Stn.Satisfies(t, late.network) :: Delay(p, seen, late, r, t) == 0)
  }

  // ---- where the transfer puts things ----

  lemma OldTime(p: Problem, seen: State, late: State, r: Schedule, t: Schedule, v: Timepoint)
    requires v != PlanEnd && InRange(v, seen.instances)
    ensures Transfer(p, seen, late, r, t)(v) == r(v) - r(PlanStart)
  {
  }

  lemma NewTime(p: Problem, seen: State, late: State, r: Schedule, t: Schedule, v: Timepoint)
    requires !InRange(v, seen.instances)
    ensures Transfer(p, seen, late, r, t)(v)
         == t(Rename(seen, late, v)) - t(PlanStart) + Delay(p, seen, late, r, t)
  {
  }

  /** The timed action's events are where they are pinned. */
  lemma PinnedTime(p: Problem, s: State, j: nat, t: Schedule)
    requires WellFormed(p) && TimedPinned(p, s) && Stn.Satisfies(t, s.network) && p.timed.Some?
    requires j < |p.actions[p.timed.value].events|
    ensures t(EventAt(p.timed.value, j, 0)) == t(PlanStart) + p.actions[p.timed.value].events[j].timing.delay
  {
    var a := p.timed.value;
    var ev := p.actions[a].events[j];
    assert ev.timing.fromStart by {
      assert ev in p.actions[a].events;
    }
    var bounds := DurationBounds(p, a, p.init).value;
    var net := OpeningEdges(p, a, 0, bounds, true);
    hide DurationBounds, WellFormed, DurationEdges;
    assert EventOf(p, (a, j)) == ev;
    assert Before(ActionStart(a, 0), EventAt(a, j, 0), ev.timing.delay) in RigidEdges(p, a, 0);
    assert Stn.Constraint(EventAt(a, j, 0), ActionStart(a, 0), ev.timing.delay) in RigidEdges(p, a, 0);
    assert Before(PlanStart, ActionStart(a, 0), 0) in net;
    assert Before(ActionStart(a, 0), PlanStart, 0) in net;
  }

  /** An event of the future happens as it does after `late`, but for the delay. */
  lemma FutureTime(p: Problem, seen: State, late: State, r: Schedule, t: Schedule, a: nat, j: nat, n': nat, n: nat)
    requires WellFormed(p) && Transferable(p, seen, late, r)
    requires Stn.Satisfies(t, late.network) && Linked(p, seen, late, a, n', n)
    requires a < |p.actions| && j < |p.actions[a].events|
    ensures Transfer(p, seen, late, r, t)(EventAt(a, j, n'))
         == t(EventAt(a, j, n)) - t(PlanStart) + Delay(p, seen, late, r, t)
  {
    if p.timed == Some(a) {
      assert Delay(p, seen, late, r, t) == 0;
      hide Delay, Transfer, WellFormed;
      PinnedTime(p, seen, j, r);
      PinnedTime(p, late, j, t);
      OldTime(p, seen, late, r, t, EventAt(a, j, 0));
    } else {
      NewTime(p, seen, late, r, t, EventAt(a, j, n'));
    }
  }

  // ---- the four kinds of constraints of a step ----

  /** The past of `seen` stays as it was; only the plan's end may move back. */
  lemma PastTransfers(p: Problem, seen: State, late: State, r: Schedule, t: Schedule)
    requires WellFormed(p) && Transferable(p, seen, late, r) && Stn.Satisfies(t, late.network)
    ensures Stn.Satisfies(Transfer(p, seen, late, r, t), seen.network)
  {
    var t' := Transfer(p, seen, late, r, t);
    hide Delay, WellFormed, TimedPinned, Ordered;
    forall c | c in seen.network ensures Stn.Respects(t', c) {
      assert Stn.Respects(r, c);
      if c in DeadlineEdges(p) {
        assert Stn.Respects(t, c);
        assert Delay(p, seen, late, r, t) == 0;
        DeadlineTransfers(p, seen, late, r, t);
      } else {
        assert c.src != PlanEnd;
      }
    }
  }

  lemma DeadlineTransfers(p: Problem, seen: State, late: State, r: Schedule, t: Schedule)
    requires Stn.Satisfies(r, DeadlineEdges(p)) && Stn.Satisfies(t, DeadlineEdges(p))
    requires Delay(p, seen, late, r, t) == 0
    ensures Stn.Satisfies(Transfer(p, seen, late, r, t), DeadlineEdges(p))
  {
    if p.deadline.Some? {
      var d := p.deadline.value;
      assert Stn.Constraint(PlanEnd, PlanStart, d) in DeadlineEdges(p);
      assert Stn.Constraint(PlanStart, PlanEnd, -d) in DeadlineEdges(p);
      hide Delay;
    }
  }

  lemma OpeningTransfers(
    p: Problem, seen: State, late: State, r: Schedule, t: Schedule, a: nat, n': nat, bounds: (int, int))
    requires WellFormed(p) && a < |p.actions| && n' >= seen.instances
    requires Stn.Satisfies(t, OpeningEdges(p, a, Renumber(seen, late, n'), bounds, false))
    ensures Stn.Satisfies(Transfer(p, seen, late, r, t), OpeningEdges(p, a, n', bounds, false))
  {
    var n := Renumber(seen, late, n');
    var t' := Transfer(p, seen, late, r, t);
    var shift := Delay(p, seen, late, r, t) - t(PlanStart);
    assert t'(PlanStart) == 0;
    NewTime(p, seen, late, r, t, ActionStart(a, n'));
    NewTime(p, seen, late, r, t, ActionEnd(a, n'));
    forall i: nat ensures t'(EventAt(a, i, n')) == t(EventAt(a, i, n)) + shift {
      NewTime(p, seen, late, r, t, EventAt(a, i, n'));
    }
    assert t'(PlanEnd) >= t(PlanEnd) + shift;
    hide Transfer, Delay, WellFormed;
    assert RigidEdges(p, a, n) <= OpeningEdges(p, a, n, bounds, false);
    RigidMoves(p, a, n', n, t', t, shift);
    BoundsMove(p, a, n', n, bounds, t', t, shift);
  }

  lemma RigidMoves(p: Problem, a: nat, n': nat, n: nat, t': Schedule, t: Schedule, shift: int)
    requires a < |p.actions| && Stn.Satisfies(t, RigidEdges(p, a, n))
    requires t'(ActionStart(a, n')) == t(ActionStart(a, n)) + shift
    requires t'(ActionEnd(a, n')) == t(ActionEnd(a, n)) + shift
    requires forall i: nat :: t'(EventAt(a, i, n')) == t(EventAt(a, i, n)) + shift
    ensures Stn.Satisfies(t', RigidEdges(p, a, n'))
  {
    forall i | 0 <= i < |p.actions[a].events|
      ensures t(EventAt(a, i, n)) == t(Anchor(EventOf(p, (a, i)).timing, a, n)) + EventOf(p, (a, i)).timing.delay
    {
      var tm := EventOf(p, (a, i)).timing;
      assert Before(Anchor(tm, a, n), EventAt(a, i, n), tm.delay) in RigidEdges(p, a, n);
      assert Stn.Constraint(EventAt(a, i, n), Anchor(tm, a, n), tm.delay) in RigidEdges(p, a, n);
    }
  }

  lemma BoundsMove(
    p: Problem, a: nat, n': nat, n: nat, bounds: (int, int), t': Schedule, t: Schedule, shift: int)
    requires a < |p.actions| && Stn.Satisfies(t, OpeningEdges(p, a, n, bounds, false))
    requires t'(ActionStart(a, n')) == t(ActionStart(a, n)) + shift
    requires t'(ActionEnd(a, n')) == t(ActionEnd(a, n)) + shift
    requires t'(PlanEnd) >= t(PlanEnd) + shift && t'(PlanStart) <= t(PlanStart) + shift
    requires Stn.Satisfies(t', RigidEdges(p, a, n'))
    ensures Stn.Satisfies(t', OpeningEdges(p, a, n', bounds, false))
  {
    hide RigidEdges;
    var net := OpeningEdges(p, a, n, bounds, false);
    assert Before(PlanStart, ActionStart(a, n), 0) in net;
    assert Before(ActionEnd(a, n), PlanEnd, p.epsilon) in net;
    assert Before(ActionStart(a, n), ActionEnd(a, n), bounds.0) in net;
    assert Stn.Constraint(ActionEnd(a, n), ActionStart(a, n), bounds.1) in net;
  }

  lemma TodoTransfers(
    p: Problem, seen: State, late: State, r: Schedule, t: Schedule,
    todo': map<nat, (nat, nat)>, todo: map<nat, (nat, nat)>, e: EventId, n': nat, n: nat)
    requires WellFormed(p) && Transferable(p, seen, late, r) && Stn.Satisfies(t, late.network)
    requires IsEvent(p, e) && IsTodo(p, todo) && IsTodo(p, todo')
    requires LinkedTodo(p, seen, late, todo', todo) && Linked(p, seen, late, e.0, n', n)
    requires Stn.Satisfies(t, TodoEdges(p, todo, e, EventAt(e.0, e.1, n)))
    ensures Stn.Satisfies(Transfer(p, seen, late, r, t), TodoEdges(p, todo', e, EventAt(e.0, e.1, n')))
  {
    var t' := Transfer(p, seen, late, r, t);
    var (at', at) := (EventAt(e.0, e.1, n'), EventAt(e.0, e.1, n));
    hide Transfer, Delay, WellFormed, Transferable, GapFor, Linked;
    FutureTime(p, seen, late, r, t, e.0, e.1, n', n);
    forall c | c in TodoEdges(p, todo', e, at') ensures Stn.Respects(t', c) {
      var a, j :| a in todo' && todo'[a].0 <= j < |p.actions[a].events|
        && c == Before(at', EventAt(a, j, todo'[a].1), GapFor(p, e, (a, j)));
      FutureTime(p, seen, late, r, t, a, j, todo'[a].1, todo[a].1);
      var d := Before(at, EventAt(a, j, todo[a].1), GapFor(p, e, (a, j)));
      assert d in TodoEdges(p, todo, e, at);
      assert Stn.Respects(t, d);
    }
  }

  /** Being after all of the path is more than the scan asks for. */
  lemma {:induction false} FollowsScan(
    p: Problem, path: Path, e: EventId, at: Timepoint, isPredecessor: bool, t: Schedule)
    requires p.epsilon >= 0 && IsPath(p, path) && IsEvent(p, e) && Follows(p, path, e, at, t)
    ensures Stn.Satisfies(t, PastEdges(p, path, e, at, isPredecessor))
  {
    hide Mutex;
    if path != [] {
      var k := |path| - 1;
      assert t(At(path[k])) + GapFor(p, e, Id(path[k])) <= t(at);
      assert forall i | 0 <= i < k :: path[..k][i] == path[i];
      FollowsScan(p, path[..k], e, at, false, t);
    }
  }

  /** The past of `seen` leaves room for every event of the future. */
  lemma PastLeavesRoom(
    p: Problem, seen: State, late: State, r: Schedule, t: Schedule, e: EventId, i: nat, time: int)
    requires WellFormed(p) && ValidState(p, seen) && Ordered(p, seen.path, r) && IsEvent(p, e)
    requires i < |seen.path| && IsEvent(p, Id(seen.path[i]))
    requires LastTime(late.path, t) <= time
    ensures r(At(seen.path[i])) - r(PlanStart) + GapFor(p, e, Id(seen.path[i]))
         <= time + Delay(p, seen, late, r, t)
  {
    var last := |seen.path| - 1;
    hide Mutex;
    if i < last {
      assert r(At(seen.path[i])) + GapFor(p, Id(seen.path[last]), Id(seen.path[i])) <= r(At(seen.path[last]));
    }
  }

  /** A new event comes after everything fired before it. */
  lemma FollowsTransfers(
    p: Problem, seen: State, late: State, r: Schedule, t: Schedule, path': Path, path: Path, e: EventId,
    n': nat, n: nat)
    requires WellFormed(p) && Transferable(p, seen, late, r) && Stn.Satisfies(t, late.network)
    requires IsPath(p, path') && IsPath(p, path) && IsEvent(p, e) && LinkedPath(p, seen, late, path', path)
    requires Linked(p, seen, late, e.0, n', n)
    requires Ordered(p, path + [(e.0, e.1, n)], t) && t(PlanStart) <= t(EventAt(e.0, e.1, n))
    ensures Follows(p, path', e, EventAt(e.0, e.1, n'), Transfer(p, seen, late, r, t))
  {
    var t' := Transfer(p, seen, late, r, t);
    var (at', at) := (EventAt(e.0, e.1, n'), EventAt(e.0, e.1, n));
    var (k', k) := (|seen.path|, |late.path|);
    FutureTime(p, seen, late, r, t, e.0, e.1, n', n);
    OrderedLast(p, path, (e.0, e.1, n), t);
    LastTimeBy(late.path, path, at, t);
    hide Transfer, Delay, WellFormed, GapFor, LastTime, Linked, Ordered;
    forall i | 0 <= i < |path'| ensures t'(At(path'[i])) + GapFor(p, e, Id(path'[i])) <= t'(at') {
      if i < k' {
        assert path'[i] == seen.path[i];
        assert seen.path[i] in seen.path;
        OldTime(p, seen, late, r, t, At(seen.path[i]));
        PastLeavesRoom(p, seen, late, r, t, e, i, t(at) - t(PlanStart));
      } else {
        var j := i - k';
        var (x', x) := (path'[k'..][j], path[k..][j]);
        assert x' == path'[i] && x == path[k + j];
        assert IsEvent(p, Id(x));
        FutureTime(p, seen, late, r, t, x.0, x.1, x'.2, x.2);
        assert t(At(path[k + j])) + GapFor(p, e, Id(path[k + j])) <= t(at);
      }
    }
  }

  lemma LastTimeBy(late: Path, path: Path, at: Timepoint, t: Schedule)
    requires late <= path
    requires t(PlanStart) <= t(at) && forall i | 0 <= i < |path| :: t(At(path[i])) <= t(at)
    ensures LastTime(late, t) <= t(at) - t(PlanStart)
  {
    if late != [] {
      assert late[|late| - 1] == path[|late| - 1];
    }
  }

  lemma OrderedLast(p: Problem, path: Path, last: (nat, nat, nat), t: Schedule)
    requires p.epsilon > 0 && IsPath(p, path) && IsEvent(p, Id(last)) && IsPath(p, path + [last])
    requires Ordered(p, path + [last], t)
    ensures forall i | 0 <= i < |path| :: t(At(path[i])) + GapFor(p, Id(last), Id(path[i])) <= t(At(last))
    ensures forall i | 0 <= i < |path| :: t(At(path[i])) <= t(At(last))
  {
    var q := path + [last];
    forall i | 0 <= i < |path|
      ensures IsEvent(p, Id(path[i]))
      ensures t(At(path[i])) + GapFor(p, Id(last), Id(path[i])) <= t(At(last))
      ensures t(At(path[i])) <= t(At(last))
    {
      assert q[i] == path[i] && q[|path|] == last;
      assert t(At(q[i])) + GapFor(p, Id(q[|path|]), Id(q[i])) <= t(At(q[|path|]));
    }
  }

  // ---- one step ----

  /** The schedules of a child state, and of its parent. */
  lemma ChildSchedule(
    p: Problem, s: State, c: State, e: EventId, n: nat, todo: map<nat, (nat, nat)>, opening: Network, t: Schedule)
    requires WellFormed(p) && ValidState(p, s) && ValidState(p, c)
    requires Expands(p, s, c, e, n, todo, opening, false)
    requires Stn.Satisfies(t, c.network)
    requires Stn.Satisfies(t, s.network) ==> Ordered(p, s.path, t) && AfterStart(p, s, t)
    ensures Ordered(p, c.path, t) && AfterStart(p, c, t) && Stn.Satisfies(t, s.network)
    ensures IsEvent(p, e) && IsTodo(p, todo)
    ensures Stn.Satisfies(t, TodoEdges(p, todo, e, EventAt(e.0, e.1, n)))
    ensures Stn.Satisfies(t, opening)
    ensures c.path == s.path + [(e.0, e.1, n)] && t(PlanStart) <= t(EventAt(e.0, e.1, n))
    ensures s.network <= c.network && c.todo == todo
  {
    var at := EventAt(e.0, e.1, n);
    hide Fire, Applicable, PastEdges, TodoEdges, OpeningEdges, DurationBounds, Ordered, AfterStart;
    ExpandOrders(p, s, c, e, n, todo, opening, t);
    ExpandsAfterStart(p, s, c, e, n, todo, opening, false, t);
    AfterStartLast(p, c, s.path, (e.0, e.1, n), t);
  }

  lemma AfterStartLast(p: Problem, c: State, path: Path, e: (nat, nat, nat), t: Schedule)
    requires ValidState(p, c) && AfterStart(p, c, t) && c.path == path + [e]
    ensures t(PlanStart) <= t(At(e))
  {
    assert c.path[|path|] == e;
    assert e in c.path;
  }

  /** The same step after `seen` adds constraints the transferred schedules meet. */
  lemma StepTransfers(
    p: Problem, seen: State, late: State, r: Schedule, t: Schedule, s': State, s: State,
    e: EventId, n': nat, n: nat, todo': map<nat, (nat, nat)>, todo: map<nat, (nat, nat)>, opening': Network)
    requires WellFormed(p) && Transferable(p, seen, late, r) && Similar(p, seen, late, r, s', s)
    requires Stn.Satisfies(t, s.network) && IsEvent(p, e) && IsPath(p, s.path + [(e.0, e.1, n)])
    requires Ordered(p, s.path + [(e.0, e.1, n)], t) && t(PlanStart) <= t(EventAt(e.0, e.1, n))
    requires Linked(p, seen, late, e.0, n', n) && IsTodo(p, todo') && IsTodo(p, todo)
    requires LinkedTodo(p, seen, late, todo', todo)
    requires Stn.Satisfies(t, TodoEdges(p, todo, e, EventAt(e.0, e.1, n)))
    requires Stn.Satisfies(Transfer(p, seen, late, r, t), opening')
    ensures Stn.Satisfies(Transfer(p, seen, late, r, t), s'.network + opening'
              + PastEdges(p, s'.path, e, EventAt(e.0, e.1, n'), true) + TodoEdges(p, todo', e, EventAt(e.0, e.1, n')))
  {
    var t' := Transfer(p, seen, late, r, t);
    assert Stn.Satisfies(t', s'.network);
    assert p.epsilon > 0;
    hide Transfer, Transferable, WellFormed, TodoEdges, PastEdges, Linked, LinkedTodo, LinkedPath, Ordered, Follows, Carries;
    FollowsTransfers(p, seen, late, r, t, s'.path, s.path, e, n', n);
    FollowsScan(p, s'.path, e, EventAt(e.0, e.1, n'), true, t');
    TodoTransfers(p, seen, late, r, t, todo', todo, e, n', n);
  }

  // The next instance, and what is in progress then, of a step after `seen`.
  lemma LinkedStep(
    p: Problem, seen: State, late: State, r: Schedule, s': State, s: State, c: State, e: EventId, n: nat,
    todo: map<nat, (nat, nat)>, opening: Network)
    returns (n': nat, todo': map<nat, (nat, nat)>)
    requires WellFormed(p) && Similar(p, seen, late, r, s', s)
    requires Expands(p, s, c, e, n, todo, opening, false) && (opening != {} ==> p.timed != Some(e.0))
    ensures n' == if opening == {} && e.0 in s'.todo then s'.todo[e.0].1 else s'.instances
    ensures todo' == if e.1 + 1 < |p.actions[e.0].events| then s'.todo[e.0 := (e.1 + 1, n')] else s'.todo - {e.0}
    ensures e.0 in s'.todo <==> opening == {}
    ensures e.0 in s'.todo ==> s'.todo[e.0] == (e.1, n')
    ensures Linked(p, seen, late, e.0, n', n) && IsTodo(p, todo') && LinkedTodo(p, seen, late, todo', todo)
    ensures opening != {} ==> n' >= seen.instances && n == Renumber(seen, late, n')
  {
    hide Fire, Applicable, PastEdges, TodoEdges, OpeningEdges, DurationBounds, Renumber, Carries, LinkedPath, Expand;
    n' := if opening == {} && e.0 in s'.todo then s'.todo[e.0].1 else s'.instances;
    todo' := if e.1 + 1 < |p.actions[e.0].events| then s'.todo[e.0 := (e.1 + 1, n')] else s'.todo - {e.0};
    assert e.0 in s.todo <==> opening == {};
    assert e.0 !in s.todo ==> s.todo - {e.0} == s.todo;
  }

  lemma LinkedPathStep(
    p: Problem, seen: State, late: State, path': Path, path: Path, e: EventId, n': nat, n: nat)
    requires LinkedPath(p, seen, late, path', path) && Linked(p, seen, late, e.0, n', n)
    ensures LinkedPath(p, seen, late, path' + [(e.0, e.1, n')], path + [(e.0, e.1, n)])
  {
    hide Linked;
    var (q', q) := (path' + [(e.0, e.1, n')], path + [(e.0, e.1, n)]);
    var (k', k) := (|seen.path|, |late.path|);
    assert q'[k'..] == path'[k'..] + [(e.0, e.1, n')] && q[k..] == path[k..] + [(e.0, e.1, n)];
  }

  // The constraints of the step of `s'`.
  ghost function StepNetwork(
    p: Problem, s': State, e: EventId, n': nat, todo': map<nat, (nat, nat)>, opening': Network): Network
    requires ValidState(p, s') && IsEvent(p, e) && IsTodo(p, todo')
  {
    s'.network + opening'
    + PastEdges(p, s'.path, e, EventAt(e.0, e.1, n'), true) + TodoEdges(p, todo', e, EventAt(e.0, e.1, n'))
  }

  /** A child of `s'` that fires what its counterpart fires. */
  lemma FiresToo(
    p: Problem, s': State, s: State, c: State, e: EventId, n': nat, n: nat,
    todo': map<nat, (nat, nat)>, todo: map<nat, (nat, nat)>, opening': Network, opening: Network)
    returns (c': State)
    requires WellFormed(p) && ValidState(p, s') && ValidState(p, s) && IsTodo(p, todo')
    requires Expands(p, s, c, e, n, todo, opening, false)
    requires s'.assignment == s.assignment && s'.active == s.active
    requires Stn.Satisfiable(StepNetwork(p, s', e, n', todo', opening')) && (opening == {} <==> opening' == {})
    ensures Expand(p, s', e, n', todo', opening') == Some(c')
    ensures c'.assignment == c.assignment && c'.active == c.active && c'.todo == todo'
    ensures c'.path == s'.path + [(e.0, e.1, n')] && c'.network == StepNetwork(p, s', e, n', todo', opening')
    ensures c'.instances == s'.instances + if opening == {} then 0 else 1
    ensures c.instances == s.instances + if opening == {} then 0 else 1
  {
    hide PastEdges, TodoEdges, OpeningEdges, DurationBounds, Stn.Satisfiable, Applicable;
    c' := Expand(p, s', e, n', todo', opening').value;
  }

  /** The expansion is the step of the action of `e`. */
  lemma StepIsExpand(p: Problem, s': State, s: State, a: nat, e: EventId, n': nat, todo': map<nat, (nat, nat)>, opening': Network)
    requires WellFormed(p) && ValidState(p, s') && ValidState(p, s) && IsEvent(p, e) && IsTodo(p, todo') && e.0 == a
    requires s'.assignment == s.assignment && Applicable(p, EventOf(p, e), s.assignment)
    requires a in s'.todo ==> s'.todo[a] == (e.1, n') && opening' == {}
    requires a !in s'.todo ==>
               && e.1 == 0 && n' == s'.instances && p.timed != Some(a) && DurationBounds(p, a, s.assignment).Some?
               && opening' == OpeningEdges(p, a, n', DurationBounds(p, a, s.assignment).value, false)
    requires todo' == if e.1 + 1 < |p.actions[a].events| then s'.todo[a := (e.1 + 1, n')] else s'.todo - {a}
    ensures Step(p, s', a) == Expand(p, s', e, n', todo', opening')
  {
    hide Expand, OpeningEdges, DurationBounds, Applicable;
    assert e == (a, e.1);
    assert a !in s'.todo ==> s'.todo - {a} == s'.todo;
  }

  // The constraints of a step after `seen` are met by what carries over.
  lemma CarriesStep(
    p: Problem, seen: State, late: State, r: Schedule, s': State, s: State, c: State, e: EventId, n': nat, n: nat,
    todo': map<nat, (nat, nat)>, todo: map<nat, (nat, nat)>, opening': Network, opening: Network, t: Schedule)
    requires WellFormed(p) && Transferable(p, seen, late, r) && Similar(p, seen, late, r, s', s)
    requires ValidState(p, c) && Expands(p, s, c, e, n, todo, opening, false) && Stn.Satisfies(t, c.network)
    requires Linked(p, seen, late, e.0, n', n) && IsTodo(p, todo') && LinkedTodo(p, seen, late, todo', todo)
    requires opening == {} ==> opening' == {}
    requires opening != {} ==>
               && n' >= seen.instances && n == Renumber(seen, late, n')
               && DurationBounds(p, e.0, s.assignment).Some?
               && opening' == OpeningEdges(p, e.0, n', DurationBounds(p, e.0, s.assignment).value, false)
    ensures Ordered(p, c.path, t) && AfterStart(p, c, t)
    ensures Stn.Satisfies(Transfer(p, seen, late, r, t), StepNetwork(p, s', e, n', todo', opening'))
    ensures s.network <= c.network && c.todo == todo && c.path == s.path + [(e.0, e.1, n)]
  {
    var t' := Transfer(p, seen, late, r, t);
    var bounds := DurationBounds(p, e.0, s.assignment);
    assert opening != {} ==> opening == OpeningEdges(p, e.0, n, bounds.value, false);
    assert Stn.Satisfies(t, s.network) ==> Ordered(p, s.path, t) && AfterStart(p, s, t);
    hide *;
    ChildSchedule(p, s, c, e, n, todo, opening, t);
    if opening != {} {
      OpeningTransfers(p, seen, late, r, t, e.0, n', bounds.value);
    } else {
      MeetsNothing(t');
    }
    StepTransfers(p, seen, late, r, t, s', s, e, n', n, todo', todo, opening');
    StepNetworkIs(p, s', e, n', todo', opening');
  }

  lemma MeetsNothing(t: Schedule)
    ensures Stn.Satisfies(t, {})
  {
  }

  lemma StepNetworkIs(p: Problem, s': State, e: EventId, n': nat, todo': map<nat, (nat, nat)>, opening': Network)
    requires ValidState(p, s') && IsEvent(p, e) && IsTodo(p, todo')
    ensures StepNetwork(p, s', e, n', todo', opening')
         == s'.network + opening'
            + PastEdges(p, s'.path, e, EventAt(e.0, e.1, n'), true) + TodoEdges(p, todo', e, EventAt(e.0, e.1, n'))
  {
  }

  lemma StepSchedule(p: Problem, s: State, a: nat) returns (t: Schedule)
    requires WellFormed(p) && ValidState(p, s) && Step(p, s, a).Some?
    ensures Stn.Satisfies(t, Step(p, s, a).value.network)
  {
    var e, n, todo, opening := StepExpands(p, s, a);
    var net := Step(p, s, a).value.network;
    assert Stn.Satisfiable(net) by {
      hide Fire, Applicable, PastEdges, TodoEdges, OpeningEdges, DurationBounds, Step, WellFormed, Stn.Satisfiable;
    }
    hide *;
    t := SomeSchedule(net);
  }

  // The pieces of `Similar` for the children.
  lemma SimilarChild(
    p: Problem, seen: State, late: State, r: Schedule, s': State, s: State, c': State, c: State, opens: bool)
    requires s'.instances >= seen.instances && s.instances == Renumber(seen, late, s'.instances)
    requires ValidState(p, c') && ValidState(p, c)
    requires c'.assignment == c.assignment && c'.active == c.active
    requires c'.instances == s'.instances + if opens then 1 else 0
    requires c.instances == s.instances + if opens then 1 else 0
    requires LinkedTodo(p, seen, late, c'.todo, c.todo) && LinkedPath(p, seen, late, c'.path, c.path)
    requires late.network <= s.network <= c.network && Carries(p, seen, late, r, c', c)
    ensures Similar(p, seen, late, r, c', c)
  {
    hide LinkedTodo, LinkedPath, Carries, ValidState;
  }

  /** Whatever an action makes of `s`, it makes of `s'`. */
  lemma SimilarStep(p: Problem, seen: State, late: State, r: Schedule, s': State, s: State, a: nat)
    requires WellFormed(p) && Transferable(p, seen, late, r) && Similar(p, seen, late, r, s', s)
    requires Step(p, s, a).Some?
    ensures Step(p, s', a).Some? && Similar(p, seen, late, r, Step(p, s', a).value, Step(p, s, a).value)
  {
    SimilarParts(p, seen, late, r, s', s);
    var c := Step(p, s, a).value;
    StepValid(p, s, a);
    var e, n, todo, opening := StepExpands(p, s, a);
    hide *;
    ExpandsParts(p, s, c, e, n, todo, opening);
    var n', todo' := LinkedStep(p, seen, late, r, s', s, c, e, n, todo, opening);
    var opening' := OpeningToo(p, s, a, n', opening);
    var t0 := StepSchedule(p, s, a);
    forall t | Stn.Satisfies(t, c.network)
      ensures Ordered(p, c.path, t) && AfterStart(p, c, t)
      ensures Stn.Satisfies(Transfer(p, seen, late, r, t), StepNetwork(p, s', e, n', todo', opening'))
      ensures s.network <= c.network && c.todo == todo && c.path == s.path + [(e.0, e.1, n)]
    {
      CarriesStep(p, seen, late, r, s', s, c, e, n', n, todo', todo, opening', opening, t);
    }
    SatisfiedIsSatisfiable(StepNetwork(p, s', e, n', todo', opening'), Transfer(p, seen, late, r, t0));
    var c' := FiresToo(p, s', s, c, e, n', n, todo', todo, opening', opening);
    StepIsExpand(p, s', s, a, e, n', todo', opening');
    StepValid(p, s', a);
    LinkedPathStep(p, seen, late, s'.path, s.path, e, n', n);
    CarriesChild(p, seen, late, r, c', c);
    SimilarChild(p, seen, late, r, s', s, c', c, opening != {});
  }

  lemma CarriesChild(p: Problem, seen: State, late: State, r: Schedule, c': State, c: State)
    requires ValidState(p, c)
    requires forall t | Stn.Satisfies(t, c.network) ::
               && Ordered(p, c.path, t) && AfterStart(p, c, t)
               && Stn.Satisfies(Transfer(p, seen, late, r, t), c'.network)
    ensures Carries(p, seen, late, r, c', c)
  {
  }

  lemma SimilarParts(p: Problem, seen: State, late: State, r: Schedule, s': State, s: State)
    requires Similar(p, seen, late, r, s', s)
    ensures ValidState(p, s') && ValidState(p, s) && s'.assignment == s.assignment && s'.active == s.active
    ensures s'.instances >= seen.instances && s.instances == Renumber(seen, late, s'.instances)
    ensures LinkedTodo(p, seen, late, s'.todo, s.todo) && LinkedPath(p, seen, late, s'.path, s.path)
    ensures late.network <= s.network
  {
  }

  lemma OpeningToo(p: Problem, s: State, a: nat, n': nat, opening: Network) returns (opening': Network)
    requires a < |p.actions| && (opening != {} ==> DurationBounds(p, a, s.assignment).Some?)
    ensures opening == {} <==> opening' == {}
    ensures opening != {} ==> opening' == OpeningEdges(p, a, n', DurationBounds(p, a, s.assignment).value, false)
  {
    if opening == {} {
      opening' := {};
    } else {
      opening' := OpeningEdges(p, a, n', DurationBounds(p, a, s.assignment).value, false);
      assert Before(PlanStart, ActionStart(a, n'), 0) in opening';
    }
  }

  lemma ExpandsParts(
    p: Problem, s: State, c: State, e: EventId, n: nat, todo: map<nat, (nat, nat)>, opening: Network)
    requires WellFormed(p) && ValidState(p, s) && Expands(p, s, c, e, n, todo, opening, false)
    ensures IsEvent(p, e) && IsTodo(p, todo) && Applicable(p, EventOf(p, e), s.assignment)
    ensures opening != {} ==> e.1 == 0 && DurationBounds(p, e.0, s.assignment).Some?
  {
  }

  lemma SatisfiedIsSatisfiable(net: Network, t: Schedule)
    requires Stn.Satisfies(t, net)
    ensures Stn.Satisfiable(net)
  {
  }

  // ---- whole continuations ----

  // Nothing but the timed action is in progress.
  ghost predicate AtMostTimed(p: Problem, s: State) {
    forall a | a in s.todo :: p.timed == Some(a)
  }

  lemma SimilarStart(p: Problem, seen: State, late: State, r: Schedule)
    requires WellFormed(p) && Transferable(p, seen, late, r)
    requires SameKey(seen, late) && seen.active == late.active && AtMostTimed(p, seen)
    requires forall t | Stn.Satisfies(t, late.network) :: Ordered(p, late.path, t) && AfterStart(p, late, t)
    ensures Similar(p, seen, late, r, seen, late)
  {
    forall t | Stn.Satisfies(t, late.network) ensures Stn.Satisfies(Transfer(p, seen, late, r, t), seen.network) {
      PastTransfers(p, seen, late, r, t);
    }
    assert seen.path[|seen.path|..] == [] && late.path[|late.path|..] == [];
    hide Transfer, Delay, Ordered, AfterStart, WellFormed, Shaped, DurationBounds;
  }

  lemma {:induction false} SimilarRun(
    p: Problem, seen: State, late: State, r: Schedule, s': State, s: State, plan: seq<nat>)
    requires WellFormed(p) && Transferable(p, seen, late, r) && Similar(p, seen, late, r, s', s)
    requires Run(p, s, plan).Some?
    ensures Run(p, s', plan).Some? && Similar(p, seen, late, r, Run(p, s', plan).value, Run(p, s, plan).value)
    decreases |plan|
  {
    SimilarParts(p, seen, late, r, s', s);
    hide Step, Similar, Transferable, WellFormed, ValidState;
    if plan != [] {
      SimilarStep(p, seen, late, r, s', s, plan[0]);
      StepValid(p, s, plan[0]);
      StepValid(p, s', plan[0]);
      SimilarRun(p, seen, late, r, Step(p, s', plan[0]).value, Step(p, s, plan[0]).value, plan[1..]);
    }
  }
}
