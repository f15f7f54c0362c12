/**
 The temporal search space of `search_space.rs`: what a state is and what firing
 the next event of an action makes of it.  Times are whole ticks.

 Instances of actions are numbered along the path that opened them.  (The source
 draws the numbers from one counter shared by all states, which renames them.)
*/
module Temporal {
  import opened Options
  import opened Expr
  import Stn

  datatype Effect = Effect(fluent: nat, value: Expr)

  datatype Timing = Timing(fromStart: bool, delay: int)

  datatype Event = Event(
    timing: Timing, condition: Expr, startConditions: seq<Expr>, endConditions: seq<Expr>, effects: seq<Effect>)

  datatype Duration = Duration(lower: Expr, upper: Expr, leftOpen: bool, rightOpen: bool)

  datatype Action = Action(events: seq<Event>, duration: Option<Duration>)

  /** `timed` carries the timed effects and goals; it runs from the start. */
  datatype Problem = Problem(
    actions: seq<Action>, init: Assignment, goal: Expr, functions: Functions,
    epsilon: int, deadline: Option<int>, timed: Option<nat>)

  // An event of an action, by position.
  type EventId = (nat, nat)

  datatype Timepoint =
    | PlanStart
    | PlanEnd
    | ActionStart(a: nat, instance: nat)
    | ActionEnd(a: nat, instance: nat)
    | EventAt(a: nat, pos: nat, instance: nat)

  type Network = set<Stn.Constraint<Timepoint>>

  // Fired events, oldest first: action, position, instance.
  type Path = seq<(nat, nat, nat)>

  // The event fired, whatever the instance.
  function Id(e: (nat, nat, nat)): EventId {
    (e.0, e.1)
  }

  datatype State = State(
    assignment: Assignment,
    // the actions in progress: the next event and the instance
    todo: map<nat, (nat, nat)>,
    active: multiset<Expr>,
    path: Path,
    // how many actions have been opened
    instances: nat,
    network: Network)

  /** What the encoder guarantees of the actions: the first event of each sits
      exactly at its start, and the timed action has fixed times. */
  predicate WellFormed(p: Problem) {
    && p.epsilon > 0
    && (forall a | 0 <= a < |p.actions| ::
          p.actions[a].events != [] && p.actions[a].events[0].timing == Timing(true, 0))
    && (p.timed.Some? ==> p.timed.value < |p.actions| && FixedTimes(p.actions[p.timed.value]))
  }

  predicate FixedTimes(a: Action) {
    DurationReads(a.duration) == {} && forall e | e in a.events :: e.timing.fromStart
  }

  predicate IsEvent(p: Problem, e: EventId) {
    e.0 < |p.actions| && e.1 < |p.actions[e.0].events|
  }

  function EventOf(p: Problem, e: EventId): Event
    requires IsEvent(p, e)
  {
    p.actions[e.0].events[e.1]
  }

  // ---- interference ----

  function EffectReads(effects: seq<Effect>): set<nat> {
    if effects == [] then {} else Fluents(effects[0].value) + EffectReads(effects[1..])
  }

  lemma {:induction false} EffectReadsValue(effects: seq<Effect>, e: Effect)
    requires e in effects
    ensures Fluents(e.value) <= EffectReads(effects)
  {
    if e != effects[0] {
      assert e in effects[1..];
      EffectReadsValue(effects[1..], e);
    }
  }

  function Writes(effects: seq<Effect>): set<nat> {
    if effects == [] then {} else {effects[0].fluent} + Writes(effects[1..])
  }

  function DurationReads(d: Option<Duration>): set<nat> {
    if d.None? then {} else Fluents(d.value.lower) + Fluents(d.value.upper)
  }

  /** What an event reads: its condition, its effect values and, opening an
      action, the duration bounds. */
  function EventReads(p: Problem, e: EventId): set<nat>
    requires IsEvent(p, e)
  {
    Fluents(EventOf(p, e).condition) + EffectReads(EventOf(p, e).effects)
      + if e.1 == 0 then DurationReads(p.actions[e.0].duration) else {}
  }

  function EventWrites(p: Problem, e: EventId): set<nat>
    requires IsEvent(p, e)
  {
    Writes(EventOf(p, e).effects)
  }

  predicate Mutex(p: Problem, e1: EventId, e2: EventId)
    requires IsEvent(p, e1) && IsEvent(p, e2)
  {
    e1.0 == e2.0 || !(EventReads(p, e2) !! EventWrites(p, e1)
                      && EventReads(p, e1) + EventWrites(p, e1) !! EventWrites(p, e2))
  }

  function StartReads(p: Problem, e: EventId): set<nat>
    requires IsEvent(p, e)
  {
    AllFluents(EventOf(p, e).startConditions)
  }

  function EndReads(p: Problem, e: EventId): set<nat>
    requires IsEvent(p, e)
  {
    AllFluents(EventOf(p, e).endConditions)
  }

  predicate Precedence(p: Problem, e1: EventId, e2: EventId)
    requires IsEvent(p, e1) && IsEvent(p, e2)
  {
    e1.0 == e2.0 || !(EventWrites(p, e1) !! StartReads(p, e2) && EventWrites(p, e2) !! EndReads(p, e1))
  }

  /** An effect of the event is on the fluent. */
  ghost predicate IsWritten(p: Problem, e: EventId, f: nat)
    requires IsEvent(p, e)
  {
    exists eff :: eff in EventOf(p, e).effects && eff.fluent == f
  }

  /** The fluent occurs in the condition of the event, in the value of an effect or,
      opening an action, in a bound of its duration. */
  ghost predicate IsRead(p: Problem, e: EventId, f: nat)
    requires IsEvent(p, e)
  {
    || f in Fluents(EventOf(p, e).condition)
    || (exists eff :: eff in EventOf(p, e).effects && f in Fluents(eff.value))
    || (e.1 == 0 && p.actions[e.0].duration.Some?
        && (f in Fluents(p.actions[e.0].duration.value.lower) || f in Fluents(p.actions[e.0].duration.value.upper)))
  }

  ghost predicate Occurs(f: nat, cs: seq<Expr>) {
    exists c :: c in cs && f in Fluents(c)
  }

  lemma {:induction false} EffectSetsExact(effects: seq<Effect>, f: nat)
    ensures f in Writes(effects) <==> exists eff :: eff in effects && eff.fluent == f
    ensures f in EffectReads(effects) <==> exists eff :: eff in effects && f in Fluents(eff.value)
  {
    if effects != [] {
      EffectSetsExact(effects[1..], f);
      assert forall eff :: eff in effects <==> eff == effects[0] || eff in effects[1..];
    }
  }

  lemma {:induction false} OccursExact(cs: seq<Expr>, f: nat)
    ensures f in AllFluents(cs) <==> Occurs(f, cs)
  {
    if cs != [] {
      OccursExact(cs[1..], f);
      assert forall c :: c in cs <==> c == cs[0] || c in cs[1..];
    }
  }

  lemma EventSetsExact(p: Problem, e: EventId, f: nat)
    requires IsEvent(p, e)
    ensures f in EventReads(p, e) <==> IsRead(p, e, f)
    ensures f in EventWrites(p, e) <==> IsWritten(p, e, f)
    ensures f in StartReads(p, e) <==> Occurs(f, EventOf(p, e).startConditions)
    ensures f in EndReads(p, e) <==> Occurs(f, EventOf(p, e).endConditions)
  {
    EffectSetsExact(EventOf(p, e).effects, f);
    OccursExact(EventOf(p, e).startConditions, f);
    OccursExact(EventOf(p, e).endConditions, f);
  }

  /** Events are mutex exactly when they are of one action, or one writes a fluent that the
      other reads or writes. */
  lemma MutexExact(p: Problem, e1: EventId, e2: EventId)
    requires IsEvent(p, e1) && IsEvent(p, e2)
    ensures Mutex(p, e1, e2) <==>
              || e1.0 == e2.0
              || exists f :: (IsWritten(p, e1, f) && (IsRead(p, e2, f) || IsWritten(p, e2, f)))
                             || (IsWritten(p, e2, f) && IsRead(p, e1, f))
  {
    forall f: nat
      ensures f in EventReads(p, e1) <==> IsRead(p, e1, f)
      ensures f in EventReads(p, e2) <==> IsRead(p, e2, f)
      ensures f in EventWrites(p, e1) <==> IsWritten(p, e1, f)
      ensures f in EventWrites(p, e2) <==> IsWritten(p, e2, f)
    {
      EventSetsExact(p, e1, f);
      EventSetsExact(p, e2, f);
    }
    hide EventReads, EventWrites, IsRead, IsWritten;
  }

  /** The first event comes before the second exactly when they are of one action, the
      first writes what a condition the second opens reads, or the second writes what a
      condition the first closes reads. */
  lemma PrecedenceExact(p: Problem, e1: EventId, e2: EventId)
    requires IsEvent(p, e1) && IsEvent(p, e2)
    ensures Precedence(p, e1, e2) <==>
              || e1.0 == e2.0
              || exists f :: (IsWritten(p, e1, f) && Occurs(f, EventOf(p, e2).startConditions))
                             || (IsWritten(p, e2, f) && Occurs(f, EventOf(p, e1).endConditions))
  {
    forall f: nat
      ensures f in StartReads(p, e2) <==> Occurs(f, EventOf(p, e2).startConditions)
      ensures f in EndReads(p, e1) <==> Occurs(f, EventOf(p, e1).endConditions)
      ensures f in EventWrites(p, e1) <==> IsWritten(p, e1, f)
      ensures f in EventWrites(p, e2) <==> IsWritten(p, e2, f)
    {
      EventSetsExact(p, e1, f);
      EventSetsExact(p, e2, f);
    }
    hide StartReads, EndReads, EventWrites, Occurs, IsWritten;
  }

  // ---- the constraints an event adds ----

  function Before(x: Timepoint, y: Timepoint, gap: int): Stn.Constraint<Timepoint> {
    Stn.Constraint(x, y, -gap)
  }

  function GapFor(p: Problem, e1: EventId, e2: EventId): int
    requires IsEvent(p, e1) && IsEvent(p, e2)
  {
    if Mutex(p, e1, e2) then p.epsilon else 0
  }

  predicate IsPath(p: Problem, path: Path) {
    forall i | 0 <= i < |path| :: IsEvent(p, (path[i].0, path[i].1))
  }

  function At(e: (nat, nat, nat)): Timepoint {
    EventAt(e.0, e.1, e.2)
  }

  /** The two edges from the past: from the immediate predecessor, and from the
      latest mutex one, where the scan stops. */
  function PastEdges(p: Problem, path: Path, e: EventId, at: Timepoint, isPredecessor: bool): Network
    requires IsPath(p, path) && IsEvent(p, e)
  {
    if path == [] then {} else
      var last := path[|path| - 1];
      if Mutex(p, e, (last.0, last.1)) then {Before(At(last), at, p.epsilon)}
      else (if isPredecessor then {Before(At(last), at, 0)} else {})
           + PastEdges(p, path[..|path| - 1], e, at, false)
  }

  predicate IsTodo(p: Problem, todo: map<nat, (nat, nat)>) {
    forall a | a in todo :: a < |p.actions|
  }

  /** Edges to every event still pending. */
  function TodoEdges(p: Problem, todo: map<nat, (nat, nat)>, e: EventId, at: Timepoint): Network
    requires IsTodo(p, todo) && IsEvent(p, e)
  {
    set a, j | a in todo && todo[a].0 <= j < |p.actions[a].events| ::
      Before(at, EventAt(a, j, todo[a].1), GapFor(p, e, (a, j)))
  }

  /** A duration bound in ticks; other values make opening the action raise. */
  function Ticks(v: Option<Value>): Option<int> {
    match v
    case Some(NumV(n)) => if n.Floor as real == n then Some(n.Floor) else None
    case _ => None
  }

  /** The least and the greatest duration of an action opened in `s`. */
  function DurationBounds(p: Problem, a: nat, s: Assignment): Option<(int, int)>
    requires a < |p.actions|
  {
    match p.actions[a].duration
    case None => Some((0, 0))
    case Some(d) =>
      match (Ticks(Eval(d.lower, s, p.functions)), Ticks(Eval(d.upper, s, p.functions)))
      case (Some(lb), Some(ub)) =>
        Some((lb + (if d.leftOpen then p.epsilon else 0), ub - (if d.rightOpen then p.epsilon else 0)))
      case _ => None
  }

  ghost predicate InTicks(p: Problem, e: Expr, s: Assignment, k: int) {
    Eval(e, s, p.functions) == Some(NumV(k as real))
  }

  /** What the duration of the action says of lasting `d` ticks, opened in `s`: it lies
      in the interval, at least epsilon inside an open end; without a duration the
      action takes no time. */
  ghost predicate MayLast(p: Problem, a: nat, s: Assignment, d: int)
    requires a < |p.actions|
  {
    match p.actions[a].duration
    case None => d == 0
    case Some(interval) => exists lo: int, hi: int ::
      && InTicks(p, interval.lower, s, lo) && InTicks(p, interval.upper, s, hi)
      && (if interval.leftOpen then lo + p.epsilon <= d else lo <= d)
      && (if interval.rightOpen then d + p.epsilon <= hi else d <= hi)
  }

  /** The bounds are those of the interval; they are missing only if an end of it is not a
      whole number of ticks. */
  lemma BoundsExact(p: Problem, a: nat, s: Assignment)
    requires a < |p.actions|
    ensures DurationBounds(p, a, s).Some? <==>
              (p.actions[a].duration.Some? ==>
                && (exists lo: int :: InTicks(p, p.actions[a].duration.value.lower, s, lo))
                && exists hi: int :: InTicks(p, p.actions[a].duration.value.upper, s, hi))
    ensures DurationBounds(p, a, s).Some? ==>
              forall d: int :: MayLast(p, a, s, d) <==>
                DurationBounds(p, a, s).value.0 <= d <= DurationBounds(p, a, s).value.1
  {
    if p.actions[a].duration.Some? {
      var interval := p.actions[a].duration.value;
      TicksExact(p, interval.lower, s);
      TicksExact(p, interval.upper, s);
      if DurationBounds(p, a, s).Some? {
        var lo, hi :| Ticks(Eval(interval.lower, s, p.functions)) == Some(lo)
          && Ticks(Eval(interval.upper, s, p.functions)) == Some(hi);
        assert InTicks(p, interval.lower, s, lo) && InTicks(p, interval.upper, s, hi);
      }
    }
  }

  lemma TicksExact(p: Problem, e: Expr, s: Assignment)
    ensures forall k: int :: InTicks(p, e, s, k) <==> Ticks(Eval(e, s, p.functions)) == Some(k)
  {
  }

  function DurationEdges(a: nat, n: nat, bounds: (int, int)): Network {
    {Before(ActionStart(a, n), ActionEnd(a, n), bounds.0), Stn.Constraint(ActionEnd(a, n), ActionStart(a, n), bounds.1)}
  }

  function Anchor(t: Timing, a: nat, n: nat): Timepoint {
    if t.fromStart then ActionStart(a, n) else ActionEnd(a, n)
  }

  // Every event sits exactly at its delay from its anchor.
  function RigidEdges(p: Problem, a: nat, n: nat): Network
    requires a < |p.actions|
  {
    (set i | 0 <= i < |p.actions[a].events| ::
      Before(Anchor(EventOf(p, (a, i)).timing, a, n), EventAt(a, i, n), EventOf(p, (a, i)).timing.delay))
    + (set i | 0 <= i < |p.actions[a].events| ::
      Stn.Constraint(EventAt(a, i, n), Anchor(EventOf(p, (a, i)).timing, a, n), EventOf(p, (a, i)).timing.delay))
  }

  /** `add_opening_constraints`. */
  function OpeningEdges(p: Problem, a: nat, n: nat, bounds: (int, int), pinned: bool): Network
    requires a < |p.actions|
  {
    DurationEdges(a, n, bounds)
    + {Before(PlanStart, ActionStart(a, n), 0)}
    + (if pinned then {Before(ActionStart(a, n), PlanStart, 0)} else {})
    + {Before(ActionEnd(a, n), PlanEnd, p.epsilon)}
    + RigidEdges(p, a, n)
  }

  /** Opening an action constrains exactly what its duration and the delays of its events
      say, that it starts no earlier than the plan, or with it, and that it ends epsilon
      before the plan's end. */
  lemma OpeningExact(p: Problem, a: nat, n: nat, s: Assignment, pinned: bool, t: Timepoint -> int)
    requires a < |p.actions| && DurationBounds(p, a, s).Some?
    ensures Stn.Satisfies(t, OpeningEdges(p, a, n, DurationBounds(p, a, s).value, pinned)) <==>
              && MayLast(p, a, s, t(ActionEnd(a, n)) - t(ActionStart(a, n)))
              && AtTheirDelays(p, a, n, t)
              && (if pinned then t(ActionStart(a, n)) == t(PlanStart) else t(PlanStart) <= t(ActionStart(a, n)))
              && t(ActionEnd(a, n)) + p.epsilon <= t(PlanEnd)
  {
    BoundsExact(p, a, s);
    var bounds := DurationBounds(p, a, s).value;
    var net := OpeningEdges(p, a, n, bounds, pinned);
    DurationExact(a, n, bounds, t);
    RigidExact(p, a, n, t);
    assert Before(PlanStart, ActionStart(a, n), 0) in net;
    assert Before(ActionEnd(a, n), PlanEnd, p.epsilon) in net;
    assert pinned ==> Before(ActionStart(a, n), PlanStart, 0) in net;
    assert DurationEdges(a, n, bounds) <= net && RigidEdges(p, a, n) <= net;
    hide DurationBounds, DurationEdges, RigidEdges, MayLast, AtTheirDelays;
  }

  lemma DurationExact(a: nat, n: nat, bounds: (int, int), t: Timepoint -> int)
    ensures Stn.Satisfies(t, DurationEdges(a, n, bounds)) <==>
              bounds.0 <= t(ActionEnd(a, n)) - t(ActionStart(a, n)) <= bounds.1
  {
    assert Before(ActionStart(a, n), ActionEnd(a, n), bounds.0) in DurationEdges(a, n, bounds);
    assert Stn.Constraint(ActionEnd(a, n), ActionStart(a, n), bounds.1) in DurationEdges(a, n, bounds);
  }

  /** Every event is at its delay from the start or from the end. */
  ghost predicate AtTheirDelays(p: Problem, a: nat, n: nat, t: Timepoint -> int)
    requires a < |p.actions|
  {
    forall i | 0 <= i < |p.actions[a].events| ::
      var timing := EventOf(p, (a, i)).timing;
      t(EventAt(a, i, n)) == t(if timing.fromStart then ActionStart(a, n) else ActionEnd(a, n)) + timing.delay
  }

  lemma RigidExact(p: Problem, a: nat, n: nat, t: Timepoint -> int)
    requires a < |p.actions|
    ensures Stn.Satisfies(t, RigidEdges(p, a, n)) <==> AtTheirDelays(p, a, n, t)
  {
    if Stn.Satisfies(t, RigidEdges(p, a, n)) {
      forall i | 0 <= i < |p.actions[a].events|
        ensures t(EventAt(a, i, n))
             == t(Anchor(EventOf(p, (a, i)).timing, a, n)) + EventOf(p, (a, i)).timing.delay
      {
        var tm := EventOf(p, (a, i)).timing;
        assert Before(Anchor(tm, a, n), EventAt(a, i, n), tm.delay) in RigidEdges(p, a, n);
        assert Stn.Constraint(EventAt(a, i, n), Anchor(tm, a, n), tm.delay) in RigidEdges(p, a, n);
      }
    }
  }

  // ---- firing an event ----

  /** The assignment after `effects`, all evaluated in the parent `s`. */
  function Apply(p: Problem, effects: seq<Effect>, s: Assignment, acc: Assignment): Option<Assignment> {
    if effects == [] then Some(acc) else
      match Eval(effects[0].value, s, p.functions)
      case None => None
      case Some(v) =>
        if effects[0].fluent < |acc| then Apply(p, effects[1..], s, acc[effects[0].fluent := v]) else None
  }

  predicate Holds(p: Problem, c: Expr, s: Assignment) {
    Eval(c, s, p.functions) == Some(TRUE)
  }

  predicate Independent(e: Event, c: Expr) {
    Fluents(c) !! Writes(e.effects)
  }

  /** What is checked before the child state is made: the event's condition and
      the start conditions its effects leave alone. */
  predicate Applicable(p: Problem, e: Event, s: Assignment) {
    && Holds(p, e.condition, s)
    && forall c | c in e.startConditions && Independent(e, c) :: Holds(p, c, s)
  }

  function ActiveAfter(e: Event, active: multiset<Expr>): multiset<Expr> {
    active - multiset(e.endConditions) + multiset(e.startConditions)
  }

  /** `expand_event`, but for the network. */
  function Fire(p: Problem, s: State, e: EventId): Option<(Assignment, multiset<Expr>)>
    requires IsEvent(p, e)
  {
    var ev := EventOf(p, e);
    var active := ActiveAfter(ev, s.active);
    match Apply(p, ev.effects, s.assignment, s.assignment)
    case None => None
    case Some(asg) =>
      if ev.effects != [] && exists c | c in active :: !Holds(p, c, asg) then None
      else Some((asg, active))
  }

  predicate ValidState(p: Problem, s: State) {
    && IsPath(p, s.path)
    && IsTodo(p, s.todo)
  }

  /** The child of `s` in which event `e` of instance `n` fires, `todo` is in
      progress and `opening` has been added for a newly opened action. */
  ghost function Expand(p: Problem, s: State, e: EventId, n: nat, todo: map<nat, (nat, nat)>, opening: Network): Option<State>
    requires ValidState(p, s) && IsEvent(p, e) && IsTodo(p, todo)
  {
    match Fire(p, s, e)
    case None => None
    case Some((asg, active)) =>
      var at := EventAt(e.0, e.1, n);
      var net := s.network + opening + PastEdges(p, s.path, e, at, true) + TodoEdges(p, todo, e, at);
      if Stn.Satisfiable(net) then
        Some(State(asg, todo, active, s.path + [(e.0, e.1, n)],
                   s.instances + if opening == {} then 0 else 1, net))
      else None
  }

  /** Fires the next event of an action in progress. */
  ghost function Continue(p: Problem, s: State, a: nat): Option<State>
    requires ValidState(p, s) && a in s.todo
  {
    var (i, n) := s.todo[a];
    if i >= |p.actions[a].events| || !Applicable(p, EventOf(p, (a, i)), s.assignment) then None else
      var todo := if i + 1 >= |p.actions[a].events| then s.todo - {a} else s.todo[a := (i + 1, n)];
      Expand(p, s, (a, i), n, todo, {})
  }

  /** Opens an action and fires its first event. */
  ghost function Open(p: Problem, s: State, a: nat, pinned: bool): Option<State>
    requires WellFormed(p) && ValidState(p, s) && a < |p.actions|
  {
    var bounds := DurationBounds(p, a, s.assignment);
    if bounds.None? || !Applicable(p, EventOf(p, (a, 0)), s.assignment) then None else
      var todo := if |p.actions[a].events| > 1 then s.todo[a := (1, s.instances)] else s.todo;
      Expand(p, s, (a, 0), s.instances, todo, OpeningEdges(p, a, s.instances, bounds.value, pinned))
  }

  /** `get_successor_state`, without symmetry breaking and compression. */
  ghost function Step(p: Problem, s: State, a: nat): Option<State>
    requires WellFormed(p) && ValidState(p, s)
  {
    if a >= |p.actions| then None
    else if a in s.todo then Continue(p, s, a)
    else if p.timed == Some(a) then None
    else Open(p, s, a, false)
  }

  function DeadlineEdges(p: Problem): Network {
    if p.deadline.None? then {} else
      {Stn.Constraint(PlanEnd, PlanStart, p.deadline.value), Stn.Constraint(PlanStart, PlanEnd, -p.deadline.value)}
  }

  function EmptyState(p: Problem): State {
    State(p.init, map[], multiset{}, [], 0, DeadlineEdges(p))
  }

  /** The initial state, with the timed action opened at time 0; None when there
      is none. */
  ghost function Initial(p: Problem): Option<State>
    requires WellFormed(p)
  {
    if p.timed.None? then Some(EmptyState(p)) else Open(p, EmptyState(p), p.timed.value, true)
  }

  lemma ExpandValid(p: Problem, s: State, e: EventId, n: nat, todo: map<nat, (nat, nat)>, opening: Network)
    requires ValidState(p, s) && IsEvent(p, e) && IsTodo(p, todo)
    requires Expand(p, s, e, n, todo, opening).Some?
    ensures ValidState(p, Expand(p, s, e, n, todo, opening).value)
  {
  }

  lemma StepValid(p: Problem, s: State, a: nat)
    requires WellFormed(p) && ValidState(p, s) && Step(p, s, a).Some?
    ensures ValidState(p, Step(p, s, a).value)
  {
    hide Expand, OpeningEdges, Applicable;
    if a in s.todo {
      var (i, n) := s.todo[a];
      var todo := if i + 1 >= |p.actions[a].events| then s.todo - {a} else s.todo[a := (i + 1, n)];
      ExpandValid(p, s, (a, i), n, todo, {});
    } else {
      var todo := if |p.actions[a].events| > 1 then s.todo[a := (1, s.instances)] else s.todo;
      ExpandValid(p, s, (a, 0), s.instances, todo,
                  OpeningEdges(p, a, s.instances, DurationBounds(p, a, s.assignment).value, false));
    }
  }

  /** Follows the actions `plan` from `s`. */
  ghost function Run(p: Problem, s: State, plan: seq<nat>): Option<State>
    requires WellFormed(p) && ValidState(p, s)
    decreases |plan|
  {
    if plan == [] then Some(s) else
      match Step(p, s, plan[0])
      case None => None
      case Some(s') => StepValid(p, s, plan[0]); Run(p, s', plan[1..])
  }

  lemma InitialValid(p: Problem)
    requires WellFormed(p) && Initial(p).Some?
    ensures ValidState(p, Initial(p).value)
  {
    if p.timed.Some? {
      hide Expand, OpeningEdges, Applicable;
      var (a, s) := (p.timed.value, EmptyState(p));
      var todo := if |p.actions[a].events| > 1 then s.todo[a := (1, s.instances)] else s.todo;
      ExpandValid(p, s, (a, 0), s.instances, todo,
                  OpeningEdges(p, a, s.instances, DurationBounds(p, a, s.assignment).value, true));
    }
  }

  /** `s` is the end of some path from the initial state. */
  ghost predicate Reached(p: Problem, plan: seq<nat>, s: State)
    requires WellFormed(p)
  {
    Initial(p).Some? && (InitialValid(p); Run(p, Initial(p).value, plan) == Some(s))
  }

  lemma {:induction false} RunAppend(p: Problem, s: State, plan: seq<nat>, a: nat)
    requires WellFormed(p) && ValidState(p, s) && Run(p, s, plan).Some?
    ensures ValidState(p, Run(p, s, plan).value)
    ensures Run(p, s, plan + [a]) == Step(p, Run(p, s, plan).value, a)
    decreases |plan|
  {
    hide Step, ValidState, WellFormed;
    if plan == [] {
      assert (plan + [a])[1..] == [];
      if Step(p, s, a).Some? {
        StepValid(p, s, a);
        assert Run(p, Step(p, s, a).value, []) == Step(p, s, a);
      }
    } else {
      assert (plan + [a])[1..] == plan[1..] + [a];
      StepValid(p, s, plan[0]);
      RunAppend(p, Step(p, s, plan[0]).value, plan[1..], a);
    }
  }

  lemma {:induction false} RunPrefix(p: Problem, s: State, plan: seq<nat>, k: nat)
    requires WellFormed(p) && ValidState(p, s) && k <= |plan| && Run(p, s, plan).Some?
    ensures Run(p, s, plan[..k]).Some? && ValidState(p, Run(p, s, plan[..k]).value)
    decreases |plan|
  {
    hide Step, ValidState, WellFormed;
    if k > 0 {
      assert plan[..k][1..] == plan[1..][..k - 1];
      StepValid(p, s, plan[0]);
      RunPrefix(p, Step(p, s, plan[0]).value, plan[1..], k - 1);
    }
  }

  /** A path that is not empty ends with a step from a state reached before. */
  lemma ReachedLast(p: Problem, plan: seq<nat>, s: State) returns (s0: State)
    requires WellFormed(p) && Reached(p, plan, s) && plan != []
    ensures Reached(p, plan[..|plan| - 1], s0) && ValidState(p, s0)
    ensures Step(p, s0, plan[|plan| - 1]) == Some(s)
  {
    hide Step, ValidState, WellFormed, Initial, Run;
    var last := |plan| - 1;
    InitialValid(p);
    var s1 := Initial(p).value;
    RunPrefix(p, s1, plan, last);
    s0 := Run(p, s1, plan[..last]).value;
    assert plan == plan[..last] + [plan[last]];
    RunAppend(p, s1, plan[..last], plan[last]);
  }

  /** Every step is an expansion: of the next event of an action in progress, or
      of the first event of a newly opened action. */
  ghost predicate Expands(
    p: Problem, s: State, s': State, e: EventId, n: nat, todo: map<nat, (nat, nat)>, opening: Network, pinned: bool)
    requires WellFormed(p) && ValidState(p, s)
  {
    && IsEvent(p, e) && IsTodo(p, todo)
    && Expand(p, s, e, n, todo, opening) == Some(s')
    && Applicable(p, EventOf(p, e), s.assignment)
    && (if opening == {} then
          && e.0 in s.todo && s.todo[e.0] == (e.1, n)
          && todo == if e.1 + 1 >= |p.actions[e.0].events| then s.todo - {e.0} else s.todo[e.0 := (e.1 + 1, n)]
        else
          && e.1 == 0 && n == s.instances && e.0 !in s.todo
          && DurationBounds(p, e.0, s.assignment).Some?
          && opening == OpeningEdges(p, e.0, n, DurationBounds(p, e.0, s.assignment).value, pinned)
          && todo == if |p.actions[e.0].events| > 1 then s.todo[e.0 := (1, n)] else s.todo)
  }

  lemma StepExpands(p: Problem, s: State, a: nat)
    returns (e: EventId, n: nat, todo: map<nat, (nat, nat)>, opening: Network)
    requires WellFormed(p) && ValidState(p, s) && Step(p, s, a).Some?
    ensures e.0 == a && Expands(p, s, Step(p, s, a).value, e, n, todo, opening, false)
    ensures opening != {} ==> p.timed != Some(a)
  {
    if a in s.todo {
      var (i, m) := s.todo[a];
      e, n, opening := (a, i), m, {};
      todo := if i + 1 >= |p.actions[a].events| then s.todo - {a} else s.todo[a := (i + 1, m)];
    } else {
      e, n := (a, 0), s.instances;
      opening := OpeningEdges(p, a, n, DurationBounds(p, a, s.assignment).value, false);
      assert Before(PlanStart, ActionStart(a, n), 0) in opening;
      todo := if |p.actions[a].events| > 1 then s.todo[a := (1, n)] else s.todo;
    }
  }

  /** So is the opening of the timed action. */
  lemma InitialExpands(p: Problem)
    returns (e: EventId, n: nat, todo: map<nat, (nat, nat)>, opening: Network)
    requires WellFormed(p) && p.timed.Some? && Initial(p).Some?
    ensures e.0 == p.timed.value && opening != {}
    ensures ValidState(p, EmptyState(p))
    ensures Expands(p, EmptyState(p), Initial(p).value, e, n, todo, opening, true)
  {
    var a := p.timed.value;
    e, n := (a, 0), 0;
    opening := OpeningEdges(p, a, n, DurationBounds(p, a, p.init).value, true);
    assert Before(PlanStart, ActionStart(a, n), 0) in opening;
    todo := if |p.actions[a].events| > 1 then map[a := (1, n)] else map[];
  }
}
