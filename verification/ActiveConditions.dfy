/**
 The multiset of active durative conditions: it is exactly what has been opened
 and not yet closed, and every state the search reaches satisfies all of it.
*/
module ActiveConditions {
  import opened Options
  import opened Expr
  import opened Temporal
  import Stn

  /** All active conditions hold. */
  ghost predicate Safe(p: Problem, s: State) {
    forall c | c in s.active :: Holds(p, c, s.assignment)
  }

  lemma WritesNothing(e: Event, c: Expr)
    requires e.effects == []
    ensures Independent(e, c)
  {
  }

  /** Firing an event keeps the active conditions true, although they are checked
      again only when it has effects. */
  lemma FireKeepsSafe(p: Problem, s: State, e: EventId)
    requires IsEvent(p, e) && Safe(p, s) && Applicable(p, EventOf(p, e), s.assignment)
    requires Fire(p, s, e).Some?
    ensures forall c | c in Fire(p, s, e).value.1 :: Holds(p, c, Fire(p, s, e).value.0)
  {
    var ev := EventOf(p, e);
    if ev.effects == [] {
      forall c | c in ActiveAfter(ev, s.active) ensures Holds(p, c, s.assignment) {
        WritesNothing(ev, c);
        assert c in s.active || c in ev.startConditions;
      }
    }
  }

  lemma ExpandsSafe(
    p: Problem, s: State, s': State, e: EventId, n: nat, todo: map<nat, (nat, nat)>, opening: Network, pinned: bool)
    requires WellFormed(p) && ValidState(p, s) && Safe(p, s)
    requires Expands(p, s, s', e, n, todo, opening, pinned)
    ensures Safe(p, s')
  {
    hide WellFormed, Applicable, Fire;
    FireKeepsSafe(p, s, e);
  }

  lemma {:induction false} UntouchedHolds(p: Problem, effects: seq<Effect>, s: Assignment, acc: Assignment, c: Expr)
    requires Apply(p, effects, s, acc).Some? && Fluents(c) !! Writes(effects)
    ensures Holds(p, c, Apply(p, effects, s, acc).value) <==> Holds(p, c, acc)
    decreases |effects|
  {
    if effects != [] {
      var acc' := acc[effects[0].fluent := Eval(effects[0].value, s, p.functions).value];
      EvalReadsFluents(c, acc, acc', p.functions);
      UntouchedHolds(p, effects[1..], s, acc', c);
    }
  }

  /** The checks made before and after an event fires, which leave out what cannot have
      changed, are together the plain ones: its condition holds before, its effects are
      defined, and everything active holds after. */
  lemma FireExact(p: Problem, s: State, e: EventId)
    requires IsEvent(p, e) && Safe(p, s)
    ensures var (ev, now) := (EventOf(p, e), Apply(p, EventOf(p, e).effects, s.assignment, s.assignment));
      && (Applicable(p, ev, s.assignment) && Fire(p, s, e).Some? <==>
            && Holds(p, ev.condition, s.assignment) && now.Some?
            && forall c | c in s.active - multiset(ev.endConditions) + multiset(ev.startConditions) ::
                 Holds(p, c, now.value))
      && (Fire(p, s, e).Some? ==>
            Fire(p, s, e).value == (now.value, s.active - multiset(ev.endConditions) + multiset(ev.startConditions)))
  {
    var ev := EventOf(p, e);
    var now := Apply(p, ev.effects, s.assignment, s.assignment);
    if now.Some? {
      forall c | c in ev.startConditions && Independent(ev, c)
        ensures Holds(p, c, now.value) <==> Holds(p, c, s.assignment)
      {
        UntouchedHolds(p, ev.effects, s.assignment, s.assignment, c);
      }
      if ev.effects == [] {
        assert now.value == s.assignment;
        assert forall c | c in ev.startConditions :: Independent(ev, c);
      }
    }
  }

  lemma {:induction false} ReachedSafe(p: Problem, plan: seq<nat>, s: State)
    requires WellFormed(p) && Reached(p, plan, s)
    ensures Safe(p, s)
    decreases |plan|
  {
    if plan == [] {
      InitialValid(p);
      if p.timed.Some? {
        var e, n, todo, opening := InitialExpands(p);
        ExpandsSafe(p, EmptyState(p), s, e, n, todo, opening, true);
      }
    } else {
      var s0 := ReachedLast(p, plan, s);
      var e, n, todo, opening := StepExpands(p, s0, plan[|plan| - 1]);
      hide Reached, Step, WellFormed, Expands, Safe;
      ReachedSafe(p, plan[..|plan| - 1], s0);
      ExpandsSafe(p, s0, s, e, n, todo, opening, false);
    }
  }

  // ---- what is active ----

  /** The conditions the first `k` events of an action open, and close. */
  function Starts(p: Problem, a: nat, k: nat): multiset<Expr>
    requires a < |p.actions| && k <= |p.actions[a].events|
  {
    if k == 0 then multiset{} else Starts(p, a, k - 1) + multiset(EventOf(p, (a, k - 1)).startConditions)
  }

  function Ends(p: Problem, a: nat, k: nat): multiset<Expr>
    requires a < |p.actions| && k <= |p.actions[a].events|
  {
    if k == 0 then multiset{} else Ends(p, a, k - 1) + multiset(EventOf(p, (a, k - 1)).endConditions)
  }

  /** Each interval is opened before it is closed. */
  ghost predicate Balanced(p: Problem) {
    forall a: nat, k: nat | a < |p.actions| && k < |p.actions[a].events| :: Ends(p, a, k + 1) <= Starts(p, a, k)
  }

  /** ... and closed in the end, but for the goals the timed action maintains. */
  ghost predicate ClosesAll(p: Problem) {
    forall a: nat | a < |p.actions| && p.timed != Some(a) ::
      Ends(p, a, |p.actions[a].events|) == Starts(p, a, |p.actions[a].events|)
  }

  /** What an action holds active once its first `k` events have fired. */
  function Held(p: Problem, a: nat, k: nat): multiset<Expr>
    requires a < |p.actions| && k <= |p.actions[a].events|
  {
    Starts(p, a, k) - Ends(p, a, k)
  }

  ghost predicate Progress(p: Problem, todo: map<nat, (nat, nat)>) {
    forall a | a in todo :: a < |p.actions| && todo[a].0 < |p.actions[a].events|
  }

  /** What the actions of `todo` that are among `keys` hold active. */
  ghost function HeldBy(p: Problem, todo: map<nat, (nat, nat)>, keys: set<nat>): multiset<Expr>
    requires Progress(p, todo) && keys <= todo.Keys
  {
    if keys == {} then multiset{} else
      var a :| a in keys;
      Held(p, a, todo[a].0) + HeldBy(p, todo, keys - {a})
  }

  lemma {:induction false} HeldBySplit(p: Problem, todo: map<nat, (nat, nat)>, keys: set<nat>, a: nat)
    requires Progress(p, todo) && keys <= todo.Keys && a in keys
    ensures HeldBy(p, todo, keys) == Held(p, a, todo[a].0) + HeldBy(p, todo, keys - {a})
    decreases |keys|
  {
    hide Held;
    var b :| b in keys && HeldBy(p, todo, keys) == Held(p, b, todo[b].0) + HeldBy(p, todo, keys - {b});
    if a != b {
      HeldBySplit(p, todo, keys - {b}, a);
      HeldBySplit(p, todo, keys - {a}, b);
      assert keys - {a} - {b} == keys - {b} - {a};
    }
  }

  lemma {:induction false} HeldBySame(
    p: Problem, todo: map<nat, (nat, nat)>, todo': map<nat, (nat, nat)>, keys: set<nat>)
    requires Progress(p, todo) && Progress(p, todo') && keys <= todo.Keys && keys <= todo'.Keys
    requires forall a | a in keys :: todo[a].0 == todo'[a].0
    ensures HeldBy(p, todo, keys) == HeldBy(p, todo', keys)
    decreases |keys|
  {
    hide Held, Progress;
    if keys != {} {
      var a :| a in keys;
      HeldBySame(p, todo, todo', keys - {a});
      HeldBySplit(p, todo, keys, a);
      HeldBySplit(p, todo', keys, a);
    }
  }

  /** An event closes only what its action holds, and then opens its own. */
  lemma HeldNext(p: Problem, a: nat, k: nat, next: nat)
    requires Balanced(p) && a < |p.actions| && k < |p.actions[a].events| && next == k + 1
    ensures multiset(EventOf(p, (a, k)).endConditions) <= Held(p, a, k)
    ensures Held(p, a, next) == ActiveAfter(EventOf(p, (a, k)), Held(p, a, k))
  {
    var (s, e) := (multiset(EventOf(p, (a, k)).startConditions), multiset(EventOf(p, (a, k)).endConditions));
    assert Ends(p, a, k + 1) == Ends(p, a, k) + e;
    assert Starts(p, a, k + 1) == Starts(p, a, k) + s;
    MultisetStep(Starts(p, a, k), Ends(p, a, k), s, e);
  }

  lemma MultisetStep(x: multiset<Expr>, y: multiset<Expr>, s: multiset<Expr>, e: multiset<Expr>)
    requires y + e <= x
    ensures e <= x - y
    ensures (x + s) - (y + e) == x - y - e + s
  {
  }

  // What the path has opened and closed.
  function Opened(p: Problem, path: Path): multiset<Expr>
    requires IsPath(p, path)
  {
    if path == [] then multiset{} else
      var e := path[|path| - 1];
      assert IsEvent(p, (e.0, e.1));
      Opened(p, path[..|path| - 1]) + multiset(EventOf(p, (e.0, e.1)).startConditions)
  }

  function ClosedOn(p: Problem, path: Path): multiset<Expr>
    requires IsPath(p, path)
  {
    if path == [] then multiset{} else
      var e := path[|path| - 1];
      assert IsEvent(p, (e.0, e.1));
      ClosedOn(p, path[..|path| - 1]) + multiset(EventOf(p, (e.0, e.1)).endConditions)
  }

  /** The active conditions: those the actions in progress hold at least, and
      those opened and not closed exactly. */
  ghost predicate Accounted(p: Problem, s: State)
    requires ValidState(p, s)
  {
    && Progress(p, s.todo)
    && HeldBy(p, s.todo, s.todo.Keys) <= s.active
    && s.active + ClosedOn(p, s.path) == Opened(p, s.path)
  }

  /** What the timed action, once `started`, still holds after its last event. */
  function HeldAtEnd(p: Problem, todo: map<nat, (nat, nat)>, started: bool): multiset<Expr>
    requires WellFormed(p)
  {
    if started && p.timed.Some? && p.timed.value !in todo
    then Held(p, p.timed.value, |p.actions[p.timed.value].events|) else multiset{}
  }

  /** When all intervals are closed, `todo` says what is active. */
  ghost predicate FromTodo(p: Problem, s: State, started: bool)
    requires WellFormed(p)
  {
    Progress(p, s.todo) && s.active == HeldBy(p, s.todo, s.todo.Keys) + HeldAtEnd(p, s.todo, started)
  }

  // Event `e` of instance `n` is the next of its action, and `todo'` is past it.
  ghost predicate Advances(
    p: Problem, todo: map<nat, (nat, nat)>, todo': map<nat, (nat, nat)>, e: EventId, n: nat)
    requires IsEvent(p, e)
  {
    && (if e.0 in todo then todo[e.0] == (e.1, n) else e.1 == 0)
    && todo' == if e.1 + 1 < |p.actions[e.0].events| then todo[e.0 := (e.1 + 1, n)] else todo - {e.0}
  }

  lemma ExpandsAdvances(
    p: Problem, s: State, s': State, e: EventId, n: nat, todo: map<nat, (nat, nat)>, opening: Network, pinned: bool)
    requires WellFormed(p) && ValidState(p, s)
    requires Expands(p, s, s', e, n, todo, opening, pinned)
    ensures IsEvent(p, e) && Advances(p, s.todo, s'.todo, e, n) && todo == s'.todo
    ensures s'.active == ActiveAfter(EventOf(p, e), s.active)
    ensures s'.path == s.path + [(e.0, e.1, n)] && IsPath(p, s'.path)
  {
    hide Applicable, OpeningEdges, DurationBounds, PastEdges, TodoEdges;
    assert e.0 !in s.todo ==> s.todo - {e.0} == s.todo;
  }

  lemma AdvancesOne(p: Problem, todo: map<nat, (nat, nat)>, todo': map<nat, (nat, nat)>, e: EventId, n: nat)
    requires Progress(p, todo) && IsEvent(p, e) && Advances(p, todo, todo', e, n)
    ensures Progress(p, todo') && todo'.Keys - {e.0} == todo.Keys - {e.0}
    ensures forall a | a in todo && a != e.0 :: a in todo' && todo'[a].0 == todo[a].0
    ensures if e.0 in todo then todo[e.0].0 == e.1 else e.1 == 0
    ensures e.0 in todo' ==> todo'[e.0].0 == e.1 + 1
    ensures e.0 in todo' <==> e.1 + 1 < |p.actions[e.0].events|
  {
  }

  /** What the others hold is unchanged. */
  lemma OthersHold(p: Problem, todo: map<nat, (nat, nat)>, todo': map<nat, (nat, nat)>, e: EventId, n: nat)
    requires Progress(p, todo) && IsEvent(p, e) && Advances(p, todo, todo', e, n)
    ensures Progress(p, todo') && todo'.Keys - {e.0} <= todo.Keys && todo.Keys - {e.0} <= todo'.Keys
    ensures HeldBy(p, todo', todo'.Keys - {e.0}) == HeldBy(p, todo, todo.Keys - {e.0})
  {
    AdvancesOne(p, todo, todo', e, n);
    hide *;
    HeldBySame(p, todo, todo', todo.Keys - {e.0});
  }

  lemma HeldByOthers(p: Problem, todo: map<nat, (nat, nat)>, a: nat)
    requires Progress(p, todo)
    ensures a in todo ==> a < |p.actions| && todo[a].0 <= |p.actions[a].events|
    ensures HeldBy(p, todo, todo.Keys)
         == if a in todo then Held(p, a, todo[a].0) + HeldBy(p, todo, todo.Keys - {a})
            else HeldBy(p, todo, todo.Keys - {a})
  {
    if a in todo {
      HeldBySplit(p, todo, todo.Keys, a);
    } else {
      assert todo.Keys - {a} == todo.Keys;
    }
  }

  // The multiset side of a step: `mine` is what the action of the event held.
  lemma ActiveStep(
    active: multiset<Expr>, rest: multiset<Expr>, mine: multiset<Expr>, o: multiset<Expr>, c: multiset<Expr>, ev: Event)
    requires mine + rest <= active && active + c == o && multiset(ev.endConditions) <= mine
    ensures ActiveAfter(ev, mine) + rest <= ActiveAfter(ev, active)
    ensures rest <= ActiveAfter(ev, active)
    ensures ActiveAfter(ev, active) + (c + multiset(ev.endConditions)) == o + multiset(ev.startConditions)
    ensures active == mine + rest ==> ActiveAfter(ev, active) == ActiveAfter(ev, mine) + rest
  {
  }

  lemma HeldNothing(p: Problem, a: nat)
    requires a < |p.actions|
    ensures Held(p, a, 0) == multiset{}
  {
  }

  lemma PathAppend(p: Problem, path: Path, e: (nat, nat, nat))
    requires IsPath(p, path) && IsEvent(p, (e.0, e.1))
    ensures IsPath(p, path + [e])
    ensures Opened(p, path + [e]) == Opened(p, path) + multiset(EventOf(p, (e.0, e.1)).startConditions)
    ensures ClosedOn(p, path + [e]) == ClosedOn(p, path) + multiset(EventOf(p, (e.0, e.1)).endConditions)
  {
    assert (path + [e])[..|path|] == path;
  }

  /** What the actions in progress hold, before and after an event: `mine` and
      `mine'` are the shares of its own action. */
  lemma HeldStep(p: Problem, todo: map<nat, (nat, nat)>, todo': map<nat, (nat, nat)>, e: EventId, n: nat)
    returns (rest: multiset<Expr>, mine: multiset<Expr>, mine': multiset<Expr>)
    requires Balanced(p) && Progress(p, todo) && IsEvent(p, e) && Advances(p, todo, todo', e, n)
    ensures Progress(p, todo')
    ensures multiset(EventOf(p, e).endConditions) <= mine && mine' == ActiveAfter(EventOf(p, e), mine)
    ensures if e.0 in todo then HeldBy(p, todo, todo.Keys) == mine + rest
            else HeldBy(p, todo, todo.Keys) == rest && mine == multiset{}
    ensures HeldBy(p, todo', todo'.Keys) == if e.0 in todo' then mine' + rest else rest
    ensures e.0 !in todo' ==> mine' == Held(p, e.0, |p.actions[e.0].events|)
  {
    AdvancesOne(p, todo, todo', e, n);
    OthersHold(p, todo, todo', e, n);
    rest := HeldBy(p, todo, todo.Keys - {e.0});
    mine := Held(p, e.0, e.1);
    mine' := HeldAfter(p, e);
    hide *;
    HeldByOthers(p, todo, e.0);
    HeldByOthers(p, todo', e.0);
    HeldAround(p, e);
  }

  // What an action holds once event `e` has fired.
  function HeldAfter(p: Problem, e: EventId): multiset<Expr>
    requires IsEvent(p, e)
  {
    Held(p, e.0, e.1 + 1)
  }

  lemma HeldAround(p: Problem, e: EventId)
    requires Balanced(p) && IsEvent(p, e)
    ensures multiset(EventOf(p, e).endConditions) <= Held(p, e.0, e.1)
    ensures HeldAfter(p, e) == ActiveAfter(EventOf(p, e), Held(p, e.0, e.1))
    ensures e.1 == 0 ==> Held(p, e.0, e.1) == multiset{}
    ensures forall k: nat | k == e.1 + 1 :: HeldAfter(p, e) == Held(p, e.0, k)
  {
    hide Starts, Ends, Held, Balanced, ActiveAfter;
    HeldNext(p, e.0, e.1, e.1 + 1);
    HeldNothing(p, e.0);
    assert e == (e.0, e.1);
  }

  lemma ExpandsAccounted(
    p: Problem, s: State, s': State, e: EventId, n: nat, todo: map<nat, (nat, nat)>, opening: Network, pinned: bool)
    requires WellFormed(p) && ValidState(p, s) && Balanced(p)
    requires Expands(p, s, s', e, n, todo, opening, pinned) && ValidState(p, s')
    requires Accounted(p, s)
    ensures Accounted(p, s')
  {
    ExpandsAdvances(p, s, s', e, n, todo, opening, pinned);
    PathAppend(p, s.path, (e.0, e.1, n));
    hide Expands, WellFormed, Balanced, Held, HeldBy, ActiveAfter, Progress, Advances, Opened, ClosedOn, ValidState;
    var rest, mine, mine' := HeldStep(p, s.todo, s'.todo, e, n);
    ActiveStep(s.active, rest, mine, Opened(p, s.path), ClosedOn(p, s.path), EventOf(p, e));
  }

  // What an action that finishes still holds: only the timed one does.
  lemma EndAdvances(
    p: Problem, todo: map<nat, (nat, nat)>, todo': map<nat, (nat, nat)>, e: EventId, n: nat, started: bool)
    requires WellFormed(p) && ClosesAll(p)
    requires Progress(p, todo) && IsEvent(p, e) && Advances(p, todo, todo', e, n)
    requires started ==> e.0 in todo || p.timed != Some(e.0)
    requires !started ==> p.timed.None? || p.timed == Some(e.0)
    ensures p.timed != Some(e.0) || e.0 in todo' ==> HeldAtEnd(p, todo', true) == HeldAtEnd(p, todo, started)
    ensures e.0 !in todo' && p.timed != Some(e.0) ==> Held(p, e.0, |p.actions[e.0].events|) == multiset{}
    ensures e.0 !in todo' && p.timed == Some(e.0) ==>
              && HeldAtEnd(p, todo, started) == multiset{}
              && HeldAtEnd(p, todo', true) == Held(p, e.0, |p.actions[e.0].events|)
  {
    AdvancesOne(p, todo, todo', e, n);
    if p.timed != Some(e.0) {
      assert Ends(p, e.0, |p.actions[e.0].events|) == Starts(p, e.0, |p.actions[e.0].events|);
    }
    hide Advances, Progress, Starts, Ends, ClosesAll;
  }

  lemma ExpandsFromTodo(
    p: Problem, s: State, s': State, e: EventId, n: nat, todo: map<nat, (nat, nat)>, opening: Network, pinned: bool,
    started: bool)
    requires WellFormed(p) && ValidState(p, s) && Balanced(p) && ClosesAll(p)
    requires Expands(p, s, s', e, n, todo, opening, pinned)
    requires FromTodo(p, s, started)
    requires started ==> opening == {} || p.timed != Some(e.0)
    requires !started ==> p.timed.None? || p.timed == Some(e.0)
    ensures FromTodo(p, s', true)
  {
    ExpandsAdvances(p, s, s', e, n, todo, opening, pinned);
    assert e.0 in s.todo <==> opening == {};
    hide Expands, Balanced, Held, HeldBy, HeldAtEnd, ClosesAll, WellFormed, ActiveAfter, Advances, Progress, ValidState;
    var rest, mine, mine' := HeldStep(p, s.todo, s'.todo, e, n);
    EndAdvances(p, s.todo, s'.todo, e, n, started);
    FromTodoStep(EventOf(p, e), s.active, HeldBy(p, s.todo, s.todo.Keys), HeldBy(p, s'.todo, s'.todo.Keys), rest,
                 mine, HeldAtEnd(p, s.todo, started), HeldAtEnd(p, s'.todo, true),
                 e.0 in s.todo, e.0 in s'.todo, p.timed == Some(e.0));
  }

  lemma FromTodoStep(
    ev: Event, active: multiset<Expr>, held: multiset<Expr>, held': multiset<Expr>, rest: multiset<Expr>,
    mine: multiset<Expr>, end: multiset<Expr>, end': multiset<Expr>, was: bool, still: bool, timed: bool)
    requires active == held + end && multiset(ev.endConditions) <= mine
    requires if was then held == mine + rest else held == rest && mine == multiset{}
    requires held' == if still then ActiveAfter(ev, mine) + rest else rest
    requires still || !timed ==> end' == end
    requires !still && !timed ==> ActiveAfter(ev, mine) == multiset{}
    requires !still && timed ==> end == multiset{} && end' == ActiveAfter(ev, mine)
    ensures ActiveAfter(ev, active) == held' + end'
  {
    ActiveStep(active, rest + end, mine, active, multiset{}, ev);
  }

  lemma {:induction false} ReachedAccounted(p: Problem, plan: seq<nat>, s: State)
    requires WellFormed(p) && Balanced(p) && Reached(p, plan, s)
    ensures ValidState(p, s) && Accounted(p, s)
    ensures ClosesAll(p) ==> FromTodo(p, s, true)
    decreases |plan|
  {
    if plan == [] {
      InitialValid(p);
      if p.timed.Some? {
        var e, n, todo, opening := InitialExpands(p);
        hide Expands, Initial;
        ExpandsAccounted(p, EmptyState(p), s, e, n, todo, opening, true);
        if ClosesAll(p) {
          ExpandsFromTodo(p, EmptyState(p), s, e, n, todo, opening, true, false);
        }
      }
    } else {
      var s0 := ReachedLast(p, plan, s);
      StepValid(p, s0, plan[|plan| - 1]);
      var e, n, todo, opening := StepExpands(p, s0, plan[|plan| - 1]);
      hide Reached, Step, WellFormed, Expands, Accounted, FromTodo, Balanced, ClosesAll;
      ReachedAccounted(p, plan[..|plan| - 1], s0);
      ExpandsAccounted(p, s0, s, e, n, todo, opening, false);
      if ClosesAll(p) {
        ExpandsFromTodo(p, s0, s, e, n, todo, opening, false, true);
      }
    }
  }

  /** The multiset is what the path opened minus what it closed, and each closing
      finds its condition. */
  lemma ActiveIsOpenedMinusClosed(p: Problem, plan: seq<nat>, s: State)
    requires WellFormed(p) && Balanced(p) && Reached(p, plan, s)
    ensures IsPath(p, s.path) && ClosedOn(p, s.path) <= Opened(p, s.path)
    ensures s.active == Opened(p, s.path) - ClosedOn(p, s.path)
  {
    ReachedAccounted(p, plan, s);
  }

  /** Two states with the same actions at the same events have the same active
      conditions: nothing else has to be compared. */
  lemma SameTodoSameActive(p: Problem, plan1: seq<nat>, s1: State, plan2: seq<nat>, s2: State)
    requires WellFormed(p) && Balanced(p) && ClosesAll(p) && Reached(p, plan1, s1) && Reached(p, plan2, s2)
    requires s1.todo.Keys == s2.todo.Keys && forall a | a in s1.todo :: s1.todo[a].0 == s2.todo[a].0
    ensures s1.active == s2.active
  {
    ReachedAccounted(p, plan1, s1);
    ReachedAccounted(p, plan2, s2);
    hide Reached, Accounted, Held;
    HeldBySame(p, s1.todo, s2.todo, s1.todo.Keys);
  }
}
