/**
 The successor generation of `search_space.rs` as it runs: loops over the
 conditions, the effects, the path and the actions in progress, adding edges to
 the incremental network.  Each method is proved against `Temporal.dfy`.
*/
module SearchSpace {
  import opened Options
  import opened Expr
  import opened Temporal
  import opened Stn

  type Tn = DeltaStn<Timepoint>

  /** The mutex relation, remembering what it has been asked. */
  class MutexChecker {
    const p: Problem
    var cache: map<(EventId, EventId), bool>

    constructor (p: Problem)
      ensures Valid() && this.p == p
    {
      this.p := p;
      cache := map[];
    }

    ghost predicate Valid()
      reads this
    {
      forall k | k in cache :: IsEvent(p, k.0) && IsEvent(p, k.1) && cache[k] == Mutex(p, k.0, k.1)
    }

    method Check(e1: EventId, e2: EventId) returns (mutex: bool)
      requires Valid() && IsEvent(p, e1) && IsEvent(p, e2)
      modifies this
      ensures Valid() && mutex == Mutex(p, e1, e2)
    {
      if e1.0 == e2.0 {
        return true;
      }
      if (e1, e2) in cache {
        return cache[(e1, e2)];
      }
      mutex := !(EventReads(p, e2) !! EventWrites(p, e1)
                 && EventReads(p, e1) + EventWrites(p, e1) !! EventWrites(p, e2));
      cache := cache[(e1, e2) := mutex];
    }
  }

  /** The order durative conditions need, remembered in the same way. */
  class PrecedenceChecker {
    const p: Problem
    var cache: map<(EventId, EventId), bool>

    constructor (p: Problem)
      ensures Valid() && this.p == p
    {
      this.p := p;
      cache := map[];
    }

    ghost predicate Valid()
      reads this
    {
      forall k | k in cache :: IsEvent(p, k.0) && IsEvent(p, k.1) && cache[k] == Precedence(p, k.0, k.1)
    }

    method Check(e1: EventId, e2: EventId) returns (precedes: bool)
      requires Valid() && IsEvent(p, e1) && IsEvent(p, e2)
      modifies this
      ensures Valid() && precedes == Precedence(p, e1, e2)
    {
      if e1.0 == e2.0 {
        return true;
      }
      if (e1, e2) in cache {
        return cache[(e1, e2)];
      }
      precedes := !(EventWrites(p, e1) !! StartReads(p, e2) && EventWrites(p, e2) !! EndReads(p, e1));
      cache := cache[(e1, e2) := precedes];
    }
  }

  // ---- the non-temporal part of `expand_event` ----

  method UpdateActive(e: Event, parent: multiset<Expr>) returns (active: multiset<Expr>)
    ensures active == ActiveAfter(e, parent)
  {
    active := parent;
    for i := 0 to |e.endConditions|
      invariant active == parent - multiset(e.endConditions[..i])
    {
      assert e.endConditions[..i + 1] == e.endConditions[..i] + [e.endConditions[i]];
      if e.endConditions[i] in active {
        active := active - multiset{e.endConditions[i]};
      }
    }
    assert e.endConditions[..|e.endConditions|] == e.endConditions;
    ghost var closed := active;
    for i := 0 to |e.startConditions|
      invariant active == closed + multiset(e.startConditions[..i])
    {
      assert e.startConditions[..i + 1] == e.startConditions[..i] + [e.startConditions[i]];
      active := active + multiset{e.startConditions[i]};
    }
    assert e.startConditions[..|e.startConditions|] == e.startConditions;
  }

  method ApplyEffects(p: Problem, effects: seq<Effect>, s: Assignment) returns (child: Option<Assignment>)
    ensures child == Apply(p, effects, s, s)
  {
    var asg := s;
    for i := 0 to |effects|
      invariant Apply(p, effects[i..], s, asg) == Apply(p, effects, s, s)
    {
      assert effects[i..][1..] == effects[i + 1..] && effects[i..][0] == effects[i];
      var v := Eval(effects[i].value, s, p.functions);
      if v.None? || effects[i].fluent >= |asg| {
        return None;
      }
      asg := asg[effects[i].fluent := v.value];
    }
    child := Some(asg);
  }

  method AllHold(p: Problem, conditions: multiset<Expr>, s: Assignment) returns (sat: bool)
    ensures sat <==> forall c | c in conditions :: Holds(p, c, s)
  {
    var rest := set c | c in conditions;
    while rest != {}
      invariant forall c | c in rest :: c in conditions
      invariant forall c | c in conditions :: c in rest || Holds(p, c, s)
      decreases |rest|
    {
      var c :| c in rest;
      if !Holds(p, c, s) {
        return false;
      }
      rest := rest - {c};
    }
    sat := true;
  }

  /** `effect_independent_start_conditions_hold`, after the event's condition. */
  method CheckApplicable(p: Problem, e: Event, s: Assignment) returns (ok: bool)
    ensures ok <==> Applicable(p, e, s)
  {
    if !Holds(p, e.condition, s) {
      return false;
    }
    for k := 0 to |e.startConditions|
      invariant forall j | 0 <= j < k && Independent(e, e.startConditions[j]) :: Holds(p, e.startConditions[j], s)
    {
      if Independent(e, e.startConditions[k]) && !Holds(p, e.startConditions[k], s) {
        return false;
      }
    }
    ok := true;
  }

  // ---- the edges ----

  /** The scan over the past events, newest first. */
  method AddPastEdges(p: Problem, mutex: MutexChecker, path: Path, e: EventId, at: Timepoint, tn: Tn)
    requires mutex.Valid() && mutex.p == p && IsPath(p, path) && IsEvent(p, e) && tn.Valid()
    modifies tn, mutex
    ensures tn.Valid() && mutex.Valid() && tn.added == old(tn.added) + PastEdges(p, path, e, at, true)
  {
    hide Mutex, DeltaStn.Valid;
    ghost var target := tn.added + PastEdges(p, path, e, at, true);
    var k := |path|;
    var isPredecessor := true;
    assert path[..k] == path;
    while k > 0
      invariant 0 <= k <= |path| && mutex.Valid() && tn.Valid()
      invariant tn.added + PastEdges(p, path[..k], e, at, isPredecessor) == target
    {
      var e2 := path[k - 1];
      assert path[..k][..k - 1] == path[..k - 1] && path[..k][k - 1] == e2;
      assert IsEvent(p, (e2.0, e2.1));
      var are := mutex.Check(e, (e2.0, e2.1));
      if are {
        tn.Add(At(e2), at, -p.epsilon);
        return;
      }
      if isPredecessor {
        tn.Add(At(e2), at, 0);
        isPredecessor := false;
      }
      k := k - 1;
    }
  }

  // The pending events of one action in progress, from the `k`-th on.
  ghost function PendingEdges(p: Problem, a: nat, i: nat, k: nat, n: nat, e: EventId, at: Timepoint): Network
    requires a < |p.actions| && IsEvent(p, e) && k <= |p.actions[a].events|
  {
    set j | i <= j < k :: Before(at, EventAt(a, j, n), GapFor(p, e, (a, j)))
  }

  method AddPendingEdges(
    p: Problem, mutex: MutexChecker, a: nat, i: nat, n: nat, e: EventId, at: Timepoint, tn: Tn)
    requires mutex.Valid() && mutex.p == p && a < |p.actions| && IsEvent(p, e) && tn.Valid()
    modifies tn, mutex
    ensures tn.Valid() && mutex.Valid()
    ensures tn.added == old(tn.added) + PendingEdges(p, a, i, |p.actions[a].events|, n, e, at)
  {
    hide Mutex, DeltaStn.Valid;
    ghost var base := tn.added;
    var len := |p.actions[a].events|;
    if i >= len {
      return;
    }
    for j := i to len
      invariant mutex.Valid() && tn.Valid()
      invariant tn.added == base + PendingEdges(p, a, i, j, n, e, at)
    {
      var are := mutex.Check(e, (a, j));
      assert PendingEdges(p, a, i, j + 1, n, e, at)
          == PendingEdges(p, a, i, j, n, e, at) + {Before(at, EventAt(a, j, n), GapFor(p, e, (a, j)))};
      if are {
        tn.Add(at, EventAt(a, j, n), -p.epsilon);
      } else {
        tn.Add(at, EventAt(a, j, n), 0);
      }
    }
  }

  method AddTodoEdges(
    p: Problem, mutex: MutexChecker, todo: map<nat, (nat, nat)>, e: EventId, at: Timepoint, tn: Tn)
    requires mutex.Valid() && mutex.p == p && IsTodo(p, todo) && IsEvent(p, e) && tn.Valid()
    modifies tn, mutex
    ensures tn.Valid() && mutex.Valid() && tn.added == old(tn.added) + TodoEdges(p, todo, e, at)
  {
    hide Mutex, DeltaStn.Valid;
    ghost var base := tn.added;
    var rest := todo.Keys;
    while rest != {}
      invariant rest <= todo.Keys && mutex.Valid() && tn.Valid()
      invariant tn.added == base + TodoEdges(p, todo - rest, e, at)
      decreases |rest|
    {
      var a :| a in rest;
      var (i, n) := todo[a];
      AddPendingEdges(p, mutex, a, i, n, e, at, tn);
      TodoSplit(p, todo, rest, a, e, at);
      rest := rest - {a};
    }
    assert todo - rest == todo;
  }

  lemma TodoSplit(p: Problem, todo: map<nat, (nat, nat)>, rest: set<nat>, a: nat, e: EventId, at: Timepoint)
    requires IsTodo(p, todo) && IsEvent(p, e) && rest <= todo.Keys && a in rest
    ensures TodoEdges(p, todo - (rest - {a}), e, at)
         == TodoEdges(p, todo - rest, e, at)
            + PendingEdges(p, a, todo[a].0, |p.actions[a].events|, todo[a].1, e, at)
  {
    hide GapFor;
    var (l, m, r) := (TodoEdges(p, todo - (rest - {a}), e, at), TodoEdges(p, todo - rest, e, at),
                      PendingEdges(p, a, todo[a].0, |p.actions[a].events|, todo[a].1, e, at));
    forall c | c in l ensures c in m + r {
      var b, j :| b in todo - (rest - {a}) && todo[b].0 <= j < |p.actions[b].events|
        && c == Before(at, EventAt(b, j, todo[b].1), GapFor(p, e, (b, j)));
    }
  }

  ghost function RigidUpTo(p: Problem, a: nat, n: nat, k: nat): Network
    requires a < |p.actions| && k <= |p.actions[a].events|
  {
    (set i | 0 <= i < k ::
      Before(Anchor(EventOf(p, (a, i)).timing, a, n), EventAt(a, i, n), EventOf(p, (a, i)).timing.delay))
    + (set i | 0 <= i < k ::
      Constraint(EventAt(a, i, n), Anchor(EventOf(p, (a, i)).timing, a, n), EventOf(p, (a, i)).timing.delay))
  }

  method AddRigidEdges(p: Problem, a: nat, n: nat, tn: Tn)
    requires a < |p.actions| && tn.Valid()
    modifies tn
    ensures tn.Valid() && tn.added == old(tn.added) + RigidEdges(p, a, n)
  {
    hide DeltaStn.Valid;
    ghost var base := tn.added;
    for i := 0 to |p.actions[a].events|
      invariant tn.Valid() && tn.added == base + RigidUpTo(p, a, n, i)
    {
      var t := p.actions[a].events[i].timing;
      var (b1, b2) := (-t.delay, t.delay);
      if t.fromStart {
        tn.Add(ActionStart(a, n), EventAt(a, i, n), b1);
        tn.Add(EventAt(a, i, n), ActionStart(a, n), b2);
      } else {
        tn.Add(ActionEnd(a, n), EventAt(a, i, n), b1);
        tn.Add(EventAt(a, i, n), ActionEnd(a, n), b2);
      }
      assert RigidUpTo(p, a, n, i + 1) == RigidUpTo(p, a, n, i)
        + {Before(Anchor(t, a, n), EventAt(a, i, n), t.delay), Constraint(EventAt(a, i, n), Anchor(t, a, n), t.delay)};
    }
  }

  method AddDurationEdges(a: nat, n: nat, bounds: (int, int), tn: Tn)
    requires tn.Valid()
    modifies tn
    ensures tn.Valid() && tn.added == old(tn.added) + DurationEdges(a, n, bounds)
  {
    tn.Add(ActionStart(a, n), ActionEnd(a, n), -bounds.0);
    tn.Add(ActionEnd(a, n), ActionStart(a, n), bounds.1);
  }

  method AddOpeningConstraints(p: Problem, a: nat, n: nat, bounds: (int, int), pinned: bool, tn: Tn)
    requires a < |p.actions| && tn.Valid()
    modifies tn
    ensures tn.Valid() && tn.added == old(tn.added) + OpeningEdges(p, a, n, bounds, pinned)
  {
    hide DeltaStn.Valid, DurationEdges, RigidEdges;
    AddDurationEdges(a, n, bounds, tn);
    tn.Add(PlanStart, ActionStart(a, n), 0);
    if pinned {
      tn.Add(ActionStart(a, n), PlanStart, 0);
    }
    tn.Add(ActionEnd(a, n), PlanEnd, -p.epsilon);
    AddRigidEdges(p, a, n, tn);
  }

  method DeadlineNetwork(p: Problem) returns (tn: Tn)
    ensures fresh(tn) && tn.Valid() && tn.added == DeadlineEdges(p)
  {
    hide DeltaStn.Valid;
    tn := new DeltaStn();
    if p.deadline.Some? {
      tn.Add(PlanEnd, PlanStart, p.deadline.value);
      tn.Add(PlanStart, PlanEnd, -p.deadline.value);
    }
  }

  // What opening an action adds: its bounds, and whether it is pinned.
  type Opening = Option<((int, int), bool)>

  ghost function OpeningOf(p: Problem, a: nat, n: nat, opening: Opening): (net: Network)
    requires a < |p.actions|
    ensures net == {} <==> opening.None?
  {
    if opening.None? then {} else
      assert Before(PlanStart, ActionStart(a, n), 0) in OpeningEdges(p, a, n, opening.value.0, opening.value.1);
      OpeningEdges(p, a, n, opening.value.0, opening.value.1)
  }

  /** A state as the search holds it, with a network of its own. */
  class SearchState {
    var assignment: Assignment
    var todo: map<nat, (nat, nat)>
    var active: multiset<Expr>
    var path: Path
    var instances: nat
    var network: Tn

    ghost predicate Valid()
      reads this, network
    {
      network.Valid()
    }

    /** The state as a value. */
    ghost function Abs(): State
      reads this, network
    {
      State(assignment, todo, active, path, instances, network.added)
    }

    constructor (p: Problem, tn: Tn)
      requires tn.Valid() && tn.added == DeadlineEdges(p)
      ensures Valid() && network == tn && Abs() == EmptyState(p)
    {
      hide DeltaStn.Valid;
      assignment, todo, active, path, instances := p.init, map[], multiset{}, [], 0;
      network := tn;
    }

    /** A copy to make a child of. */
    constructor Clone(parent: SearchState)
      requires parent.Valid()
      ensures Valid() && fresh(network) && Abs() == parent.Abs()
    {
      assignment, todo, active := parent.assignment, parent.todo, parent.active;
      path, instances := parent.path, parent.instances;
      network := new DeltaStn.Clone(parent.network);
    }

    /** `expand_event`, on a child that is a copy of `parent` but for its actions
        in progress. */
    method ExpandEvent(p: Problem, mutex: MutexChecker, parent: SearchState, e: EventId, n: nat, opening: Opening)
      returns (ok: bool)
      requires mutex.Valid() && mutex.p == p && parent.Valid() && Valid()
      requires this != parent && network != parent.network
      requires Abs() == parent.Abs().(todo := todo)
      requires ValidState(p, parent.Abs()) && IsEvent(p, e) && IsTodo(p, todo)
      modifies this`assignment, this`active, this`path, this`instances, network, mutex
      ensures mutex.Valid() && parent.Valid() && parent.Abs() == old(parent.Abs())
      ensures ok <==> Expand(p, parent.Abs(), e, n, todo, OpeningOf(p, e.0, n, opening)).Some?
      ensures ok ==> Valid() && network.isSat
      ensures ok ==> Abs() == Expand(p, parent.Abs(), e, n, todo, OpeningOf(p, e.0, n, opening)).value
    {
      hide DeltaStn.Valid, Fire, PastEdges, TodoEdges, OpeningEdges, Satisfiable;
      ghost var s := parent.Abs();
      ok := FireEvent(p, parent, e, n);
      if !ok {
        return;
      }
      ok := AddEdges(p, mutex, parent.path, e, n, opening);
      if opening.Some? {
        instances := instances + 1;
      }
      assert parent.Abs() == s;
    }

    // The checks and updates of `expand_event` that come before the network.
    method FireEvent(p: Problem, parent: SearchState, e: EventId, n: nat) returns (ok: bool)
      requires IsEvent(p, e) && this != parent
      requires assignment == parent.assignment && active == parent.active && path == parent.path
      modifies this`assignment, this`active, this`path
      ensures ok <==> Fire(p, parent.Abs(), e).Some?
      ensures ok ==> (assignment, active) == Fire(p, parent.Abs(), e).value && path == old(path) + [(e.0, e.1, n)]
    {
      var ev := EventOf(p, e);
      path := path + [(e.0, e.1, n)];
      active := UpdateActive(ev, active);
      var asg := ApplyEffects(p, ev.effects, parent.assignment);
      if asg.None? {
        return false;
      }
      assignment := asg.value;
      ok := true;
      if ev.effects != [] {
        ok := AllHold(p, active, assignment);
      }
    }

    // The temporal part of `expand_event`.
    method AddEdges(p: Problem, mutex: MutexChecker, past: Path, e: EventId, n: nat, opening: Opening)
      returns (ok: bool)
      requires mutex.Valid() && mutex.p == p && network.Valid()
      requires IsPath(p, past) && IsEvent(p, e) && IsTodo(p, todo)
      modifies network, mutex
      ensures mutex.Valid() && network.Valid()
      ensures network.added == old(network.added) + OpeningOf(p, e.0, n, opening)
                + PastEdges(p, past, e, EventAt(e.0, e.1, n), true) + TodoEdges(p, todo, e, EventAt(e.0, e.1, n))
      ensures ok <==> Satisfiable(network.added)
      ensures ok ==> network.isSat
    {
      hide DeltaStn.Valid, PastEdges, TodoEdges, OpeningEdges, Satisfiable;
      var at := EventAt(e.0, e.1, n);
      if opening.Some? {
        AddOpeningConstraints(p, e.0, n, opening.value.0, opening.value.1, network);
      }
      AddPastEdges(p, mutex, past, e, at, network);
      AddTodoEdges(p, mutex, todo, e, at, network);
      ok := network.Check();
    }
  }

  /** `get_successor_state_with_compression`, without compression: fires the next
      event of `a`, opening it if it is not in progress. */
  method GetSuccessorState(p: Problem, mutex: MutexChecker, state: SearchState, a: nat) returns (child: SearchState?)
    requires WellFormed(p) && mutex.Valid() && mutex.p == p && state.Valid() && ValidState(p, state.Abs())
    modifies mutex
    ensures mutex.Valid() && state.Valid() && state.Abs() == old(state.Abs())
    ensures child != null <==> Step(p, state.Abs(), a).Some?
    ensures child != null ==> fresh(child) && fresh(child.network) && child.Valid() && child.network.isSat
    ensures child != null ==> child.Abs() == Step(p, state.Abs(), a).value
  {
    hide Continue, Open, DeltaStn.Valid;
    if a >= |p.actions| {
      return null;
    }
    if a in state.todo {
      child := ContinueAction(p, mutex, state, a);
    } else if p.timed == Some(a) {
      child := null;
    } else {
      child := OpenAction(p, mutex, state, a, false);
    }
  }

  method ContinueAction(p: Problem, mutex: MutexChecker, state: SearchState, a: nat) returns (child: SearchState?)
    requires WellFormed(p) && mutex.Valid() && mutex.p == p && state.Valid() && ValidState(p, state.Abs())
    requires a in state.todo
    modifies mutex
    ensures mutex.Valid() && state.Valid() && state.Abs() == old(state.Abs())
    ensures child != null <==> Continue(p, state.Abs(), a).Some?
    ensures child != null ==> fresh(child) && fresh(child.network) && child.Valid() && child.network.isSat
    ensures child != null ==> child.Abs() == Continue(p, state.Abs(), a).value
  {
    hide Expand, Applicable, OpeningEdges, DeltaStn.Valid, DurationBounds, PastEdges, TodoEdges, Open;
    var (i, n) := state.todo[a];
    if i >= |p.actions[a].events| {
      return null;
    }
    var ok := CheckApplicable(p, EventOf(p, (a, i)), state.assignment);
    if !ok {
      return null;
    }
    var child' := new SearchState.Clone(state);
    if i + 1 >= |p.actions[a].events| {
      child'.todo := child'.todo - {a};
    } else {
      child'.todo := child'.todo[a := (i + 1, n)];
    }
    ok := child'.ExpandEvent(p, mutex, state, (a, i), n, None);
    child := if ok then child' else null;
  }

  /** Opens `a` and fires its first event (`open_action`, `open_timed_action`). */
  method OpenAction(p: Problem, mutex: MutexChecker, state: SearchState, a: nat, pinned: bool)
    returns (child: SearchState?)
    requires WellFormed(p) && mutex.Valid() && mutex.p == p && state.Valid() && ValidState(p, state.Abs())
    requires a < |p.actions|
    modifies mutex
    ensures mutex.Valid() && state.Valid() && state.Abs() == old(state.Abs())
    ensures child != null <==> Open(p, state.Abs(), a, pinned).Some?
    ensures child != null ==> fresh(child) && fresh(child.network) && child.Valid() && child.network.isSat
    ensures child != null ==> child.Abs() == Open(p, state.Abs(), a, pinned).value
  {
    hide Expand, Applicable, OpeningEdges, DeltaStn.Valid, DurationBounds, PastEdges, TodoEdges;
    var ok := CheckApplicable(p, EventOf(p, (a, 0)), state.assignment);
    if !ok {
      return null;
    }
    var bounds := DurationBounds(p, a, state.assignment);
    if bounds.None? {
      return null;
    }
    var child' := new SearchState.Clone(state);
    if |p.actions[a].events| > 1 {
      child'.todo := child'.todo[a := (1, state.instances)];
    }
    ok := child'.ExpandEvent(p, mutex, state, (a, 0), state.instances, Some((bounds.value, pinned)));
    child := if ok then child' else null;
  }

  method InitialState(p: Problem, mutex: MutexChecker) returns (state: SearchState?)
    requires WellFormed(p) && mutex.Valid() && mutex.p == p
    modifies mutex
    ensures mutex.Valid()
    ensures state != null <==> Initial(p).Some?
    ensures state != null ==> fresh(state) && fresh(state.network) && state.Valid()
    ensures state != null ==> state.Abs() == Initial(p).value
  {
    hide Expand, Applicable, OpeningEdges, DeltaStn.Valid, DurationBounds, Open;
    var tn := DeadlineNetwork(p);
    var empty := new SearchState(p, tn);
    if p.timed.None? {
      return empty;
    }
    state := OpenAction(p, mutex, empty, p.timed.value, true);
  }
}
