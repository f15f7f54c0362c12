/**
 The store of visited temporal states: which states it prunes, and that pruning
 loses no plan.
*/
module VisitedStates {
  import opened Options
  import opened Expr
  import opened Temporal
  import opened TwoEdges
  import opened ReachedStates
  import opened Makespan
  import opened Dominance
  import opened ActiveConditions
  import opened SearchSpace
  import Stn

  datatype Rule = ByEquality | ByDominance

  datatype Policy = All | TodoEmpty | Dominating

  /** `DedupPolicy::new`, for a temporal problem. */
  function PolicyOf(p: Problem, weakEquality: bool): Policy {
    if weakEquality then All else if p.deadline.Some? then Dominating else TodoEmpty
  }

  /** `DedupPolicy::rule`. */
  function RuleOf(policy: Policy, todo: map<nat, (nat, nat)>, timed: Option<nat>): Option<Rule> {
    if policy == All then Some(ByEquality)
    else if |todo| == 0 then (if policy == Dominating then Some(ByDominance) else Some(ByEquality))
    else if timed.Some? && |todo| == 1 && timed.value in todo then Some(ByDominance)
    else None
  }

  // What two states are compared by.
  type Key = (Assignment, map<nat, nat>)

  function KeyOf(s: State): Key {
    (s.assignment, map a | a in s.todo :: s.todo[a].0)
  }

  lemma KeysCompare(s1: State, s2: State)
    ensures KeyOf(s1) == KeyOf(s2) <==> SameKey(s1, s2)
  {
    var (m1, m2) := (KeyOf(s1).1, KeyOf(s2).1);
    assert m1.Keys == s1.todo.Keys && m2.Keys == s2.todo.Keys;
    if KeyOf(s1) == KeyOf(s2) {
      forall a | a in s1.todo ensures s1.todo[a].0 == s2.todo[a].0 {
        assert m1[a] == m2[a];
      }
    }
    if SameKey(s1, s2) {
      assert m1 == m2;
    }
  }

  /** Having recorded `seen`, there is no need for `s`. */
  ghost predicate MakesRedundant(p: Problem, policy: Policy, seen: State, s: State) {
    && SameKey(seen, s)
    && match RuleOf(policy, s.todo, p.timed)
       case None => false
       case Some(ByEquality) => true
       case Some(ByDominance) => Earlier(p, seen, s)
  }

  /** `makespan_dominates`, at tolerance 0. */
  ghost predicate Earlier(p: Problem, seen: State, s: State) {
    exists m, n :: IsMakespan(seen, m) && IsMakespan(s, n) && m + p.epsilon <= n
  }

  lemma MakespanUnique(s: State, m: int, n: int)
    requires IsMakespan(s, m) && IsMakespan(s, n)
    ensures m == n
  {
    var t: Schedule :| Stn.Earliest(t, s.network) && m == LastAt(s.path, t);
    var u: Schedule :| Stn.Earliest(u, s.network) && n == LastAt(s.path, u);
    Stn.EarliestUnique(t, u, s.network);
  }

  // ---- what pruning may rely on ----

  /** A dominating schedule never delays the future. */
  lemma EarlierNeedsNoDelay(
    p: Problem, plan1: seq<nat>, seen: State, plan2: seq<nat>, s: State, m: int, n: int, r: Schedule, t: Schedule)
    requires WellFormed(p) && NonNegativeDurations(p) && Reached(p, plan1, seen) && Reached(p, plan2, s)
    requires Stn.Earliest(r, seen.network) && m == LastAt(seen.path, r) && IsMakespan(s, n) && m + p.epsilon <= n
    requires Stn.Satisfies(t, s.network)
    ensures Delay(p, seen, s, r, t) == 0
  {
    assert r(PlanStart) >= 0 && forall v :: r(v) >= 0;
    assert p.epsilon > 0;
    assert s.path == [] ==> LastAt(s.path, r) == 0;
    var d: Schedule :| Stn.Earliest(d, s.network) && n == LastAt(s.path, d);
    MakespanIsLeast(p, plan2, s, n, t);
  }

  lemma RedundantTransfers(p: Problem, plan1: seq<nat>, seen: State, plan2: seq<nat>, s: State) returns (r: Schedule)
    requires WellFormed(p) && NonNegativeDurations(p) && Reached(p, plan1, seen) && Reached(p, plan2, s)
    requires MakesRedundant(p, PolicyOf(p, false), seen, s) && Stn.Satisfiable(seen.network)
    ensures Transferable(p, seen, s, r) && AtMostTimed(p, seen)
    ensures RuleOf(PolicyOf(p, false), s.todo, p.timed) == Some(ByDominance) ==>
              forall t | Stn.Satisfies(t, s.network) :: Delay(p, seen, s, r, t) == 0
  {
    ReachedShaped(p, plan1, seen);
    ReachedShaped(p, plan2, s);
    TodoOfRule(p, seen, s);
    if RuleOf(PolicyOf(p, false), s.todo, p.timed) == Some(ByDominance) {
      var m, n :| IsMakespan(seen, m) && IsMakespan(s, n) && m + p.epsilon <= n;
      r :| Stn.Earliest(r, seen.network) && m == LastAt(seen.path, r);
      hide Reached, WellFormed, NonNegativeDurations, Delay, Shaped, TimedPinned, Ordered;
      forall t | Stn.Satisfies(t, s.network) ensures Delay(p, seen, s, r, t) == 0 {
        EarlierNeedsNoDelay(p, plan1, seen, plan2, s, m, n, r, t);
      }
      ReachedOrdered(p, plan1, seen, r);
    } else {
      hide Reached, WellFormed, NonNegativeDurations, Delay, Shaped, TimedPinned, Ordered, IsMakespan;
      r :| Stn.Satisfies(r, seen.network);
      ReachedOrdered(p, plan1, seen, r);
    }
  }

  // Only states with nothing but the timed action in progress have a rule.
  lemma TodoOfRule(p: Problem, seen: State, s: State)
    requires MakesRedundant(p, PolicyOf(p, false), seen, s)
    ensures AtMostTimed(p, seen)
    ensures RuleOf(PolicyOf(p, false), s.todo, p.timed) != Some(ByDominance) ==> p.deadline.None? && seen.todo == map[]
  {
    assert seen.todo.Keys == s.todo.Keys;
    if |s.todo| == 0 {
      assert s.todo.Keys == {};
      assert seen.todo == map[];
    } else {
      SingleKey(s.todo, p.timed.value);
    }
  }

  lemma SingleKey(m: map<nat, (nat, nat)>, a: nat)
    requires |m| == 1 && a in m
    ensures m.Keys == {a}
  {
    assert |m.Keys - {a}| == 0;
  }

  /** The future events happen after `seen` as they do after `late`, all put off
      by the delay. */
  ghost predicate SameTimes(p: Problem, seen: State, late: State, r: Schedule, t: Schedule, path': Path, path: Path) {
    && |seen.path| <= |path'| && |late.path| <= |path|
    && SameFuture(path'[|seen.path|..], path[|late.path|..], Transfer(p, seen, late, r, t), t, Delay(p, seen, late, r, t))
  }

  ghost predicate SameFuture(f': Path, f: Path, t': Schedule, t: Schedule, delay: nat) {
    && |f'| == |f|
    && forall i | 0 <= i < |f| :: Id(f'[i]) == Id(f[i]) && t'(At(f'[i])) == t(At(f[i])) - t(PlanStart) + delay
  }

  // Every schedule of `c` is one of `c'`, with the future where it was.
  ghost predicate CarriesOver(p: Problem, seen: State, late: State, r: Schedule, c': State, c: State) {
    forall t | Stn.Satisfies(t, c.network) ::
      && Stn.Satisfies(Transfer(p, seen, late, r, t), c'.network)
      && SameTimes(p, seen, late, r, t, c'.path, c.path)
  }

  lemma LinkedSameFuture(p: Problem, seen: State, late: State, r: Schedule, t: Schedule, f': Path, f: Path)
    requires WellFormed(p) && Transferable(p, seen, late, r) && Stn.Satisfies(t, late.network)
    requires LinkedEvents(p, seen, late, f', f) && IsPath(p, f)
    ensures SameFuture(f', f, Transfer(p, seen, late, r, t), t, Delay(p, seen, late, r, t))
  {
    hide Transfer, Delay, WellFormed, Transferable, Linked;
    forall i | 0 <= i < |f|
      ensures Transfer(p, seen, late, r, t)(At(f'[i])) == t(At(f[i])) - t(PlanStart) + Delay(p, seen, late, r, t)
    {
      assert IsEvent(p, Id(f[i])) && Id(f'[i]) == Id(f[i]);
      FutureTime(p, seen, late, r, t, f[i].0, f[i].1, f'[i].2, f[i].2);
    }
  }

  lemma SimilarCarriesOver(p: Problem, seen: State, late: State, r: Schedule, c': State, c: State)
    requires WellFormed(p) && Transferable(p, seen, late, r) && Similar(p, seen, late, r, c', c)
    ensures CarriesOver(p, seen, late, r, c', c)
  {
    hide Transferable, WellFormed, Transfer, Delay, LinkedEvents, LinkedTodo, SameFuture, Ordered, AfterStart;
    forall t | Stn.Satisfies(t, c.network) ensures SameTimes(p, seen, late, r, t, c'.path, c.path) {
      LinkedSameFuture(p, seen, late, r, t, c'.path[|seen.path|..], c.path[|late.path|..]);
    }
  }

  lemma SimilarSameKey(p: Problem, seen: State, late: State, r: Schedule, c': State, c: State)
    requires Similar(p, seen, late, r, c', c)
    ensures SameKey(c', c)
  {
  }

  lemma RedundantIsSimilar(p: Problem, plan1: seq<nat>, seen: State, plan2: seq<nat>, s: State, r: Schedule)
    requires WellFormed(p) && Balanced(p) && ClosesAll(p)
    requires Reached(p, plan1, seen) && Reached(p, plan2, s)
    requires SameKey(seen, s) && AtMostTimed(p, seen) && Transferable(p, seen, s, r)
    ensures Similar(p, seen, s, r, seen, s)
  {
    SameTodoSameActive(p, plan1, seen, plan2, s);
    assert ValidState(p, s);
    hide *;
    forall t | Stn.Satisfies(t, s.network) ensures Ordered(p, s.path, t) && AfterStart(p, s, t) {
      ReachedOrdered(p, plan2, s, t);
      ReachedAfterStart(p, plan2, s, t);
    }
    SimilarStart(p, seen, s, r);
  }

  /** Pruning loses nothing: whatever plan continues the pruned state continues
      the recorded one, and ends with the same values and the same events pending.
      Any schedule of it carries over, with the future events at the same distance
      from the plan's start; with neither a deadline nor timed events to meet they
      may all come later by the same delay. */
  lemma RedundantLosesNothing(
    p: Problem, plan1: seq<nat>, seen: State, plan2: seq<nat>, s: State, plan: seq<nat>)
    returns (r: Schedule, c': State, c: State)
    requires WellFormed(p) && Balanced(p) && ClosesAll(p) && NonNegativeDurations(p)
    requires Reached(p, plan1, seen) && Reached(p, plan2, s) && Stn.Satisfiable(seen.network)
    requires ValidState(p, s) && ValidState(p, seen)
    requires MakesRedundant(p, PolicyOf(p, false), seen, s)
    requires Run(p, s, plan).Some?
    ensures Run(p, s, plan) == Some(c) && Run(p, seen, plan) == Some(c')
    ensures SameKey(c', c)
    ensures CarriesOver(p, seen, s, r, c', c)
    ensures RuleOf(PolicyOf(p, false), s.todo, p.timed) == Some(ByDominance) ==>
              forall t | Stn.Satisfies(t, s.network) :: Delay(p, seen, s, r, t) == 0
  {
    r := RedundantTransfers(p, plan1, seen, plan2, s);
    assert SameKey(seen, s);
    hide *;
    RedundantIsSimilar(p, plan1, seen, plan2, s, r);
    SimilarRun(p, seen, s, r, seen, s, plan);
    c', c := Run(p, seen, plan).value, Run(p, s, plan).value;
    SimilarCarriesOver(p, seen, s, r, c', c);
    SimilarSameKey(p, seen, s, r, c', c);
  }

  // ---- the store ----

  // The network knows the events fired, and those pending.
  ghost predicate EventsKnown(p: Problem, s: State)
    requires ValidState(p, s)
  {
    && (forall e | e in s.path :: Stn.Mentioned(s.network, At(e)))
    && (forall a | a in s.todo :: RigidEdges(p, a, s.todo[a].1) <= s.network)
  }

  lemma RigidMentions(p: Problem, e: EventId, n: nat, net: Network)
    requires IsEvent(p, e) && RigidEdges(p, e.0, n) <= net
    ensures Stn.Mentioned(net, EventAt(e.0, e.1, n))
  {
    var tm := EventOf(p, e).timing;
    assert e == (e.0, e.1);
    var c := Before(Anchor(tm, e.0, n), EventAt(e.0, e.1, n), tm.delay);
    assert c in RigidEdges(p, e.0, n) && c in net;
  }

  lemma MentionedMore(m: Network, n: Network, v: Timepoint)
    requires Stn.Mentioned(m, v) && m <= n
    ensures Stn.Mentioned(n, v)
  {
    var c :| c in m && (c.src == v || c.dst == v);
    assert c in n;
  }

  lemma ExpandsKnown(
    p: Problem, s: State, s': State, e: EventId, n: nat, todo: map<nat, (nat, nat)>, opening: Network, pinned: bool)
    requires WellFormed(p) && ValidState(p, s) && ValidState(p, s') && EventsKnown(p, s)
    requires Expands(p, s, s', e, n, todo, opening, pinned)
    ensures EventsKnown(p, s')
  {
    KnownAfter(p, s, s', e, n, todo, opening, pinned);
    hide Expands, RigidEdges, Stn.Mentioned, WellFormed;
    RigidMentions(p, e, n, s'.network);
    forall x | x in s'.path ensures Stn.Mentioned(s'.network, At(x)) {
      if x in s.path {
        MentionedMore(s.network, s'.network, At(x));
      }
    }
  }

  lemma KnownAfter(
    p: Problem, s: State, s': State, e: EventId, n: nat, todo: map<nat, (nat, nat)>, opening: Network, pinned: bool)
    requires WellFormed(p) && ValidState(p, s) && ValidState(p, s') && EventsKnown(p, s)
    requires Expands(p, s, s', e, n, todo, opening, pinned)
    ensures IsEvent(p, e) && RigidEdges(p, e.0, n) <= s'.network && s.network <= s'.network
    ensures s'.path == s.path + [(e.0, e.1, n)]
    ensures forall a | a in s'.todo && a != e.0 :: a in s.todo && s.todo[a] == s'.todo[a]
    ensures e.0 in s'.todo ==> s'.todo[e.0].1 == n
  {
    var bounds := DurationBounds(p, e.0, s.assignment);
    assert opening != {} ==> RigidEdges(p, e.0, n) <= OpeningEdges(p, e.0, n, bounds.value, pinned);
    hide RigidEdges, Stn.Mentioned, OpeningEdges, Applicable, DurationBounds, WellFormed, PastEdges, TodoEdges, Fire;
  }

  lemma {:induction false} ReachedKnown(p: Problem, plan: seq<nat>, s: State)
    requires WellFormed(p) && Reached(p, plan, s)
    ensures ValidState(p, s) && EventsKnown(p, s)
    decreases |plan|
  {
    if plan == [] {
      InitialValid(p);
      if p.timed.Some? {
        var e, n, todo, opening := InitialExpands(p);
        ExpandsKnown(p, EmptyState(p), s, e, n, todo, opening, true);
      }
    } else {
      var s0 := ReachedLast(p, plan, s);
      StepValid(p, s0, plan[|plan| - 1]);
      var e, n, todo, opening := StepExpands(p, s0, plan[|plan| - 1]);
      hide *;
      ReachedKnown(p, plan[..|plan| - 1], s0);
      ExpandsKnown(p, s0, s, e, n, todo, opening, false);
    }
  }

  lemma LastIsMakespan(s: State, t: Schedule)
    requires Stn.Earliest(t, s.network)
    ensures IsMakespan(s, LastAt(s.path, t))
  {
  }

  /** `makespan`: every event of the path has a time to read. */
  method MakespanOf(p: Problem, state: SearchState, ghost plan: seq<nat>) returns (m: int)
    requires state.Valid() && state.network.isSat && WellFormed(p) && Reached(p, plan, state.Abs())
    ensures IsMakespan(state.Abs(), m)
  {
    hide Reached, WellFormed, Stn.DeltaStn.Valid, Stn.Mentioned, Stn.Earliest, RigidEdges;
    ReachedKnown(p, plan, state.Abs());
    state.network.Consequences();
    LastIsMakespan(state.Abs(), Stn.Times(state.network.distances));
    if |state.path| == 0 {
      return 0;
    }
    var last := state.path[|state.path| - 1];
    var time := state.network.GetModelValue(EventAt(last.0, last.1, last.2));
    m := time.value;
  }

  ghost predicate Kept(policy: Policy, p: Problem, recorded: set<State>, s: State, k: Key, rule: Rule) {
    s in recorded && KeyOf(s) == k && RuleOf(policy, s.todo, p.timed) == Some(rule)
  }

  /** The two tables hold what the recorded states say. */
  ghost predicate Stores(p: Problem, policy: Policy, seen: set<Key>, makespans: map<Key, int>, recorded: set<State>) {
    && (forall k | k in seen :: exists s :: Kept(policy, p, recorded, s, k, ByEquality))
    && (forall s, k | Kept(policy, p, recorded, s, k, ByEquality) :: k in seen)
    && (forall k | k in makespans ::
          exists s :: Kept(policy, p, recorded, s, k, ByDominance) && IsMakespan(s, makespans[k]))
    && (forall s, k, m | Kept(policy, p, recorded, s, k, ByDominance) && IsMakespan(s, m) ::
          k in makespans && makespans[k] <= m)
  }

  // States with the same key have the same rule.
  lemma SameRule(policy: Policy, p: Problem, s1: State, s2: State)
    requires SameKey(s1, s2)
    ensures RuleOf(policy, s1.todo, p.timed) == RuleOf(policy, s2.todo, p.timed)
  {
    assert |s1.todo| == |s1.todo.Keys| && |s2.todo| == |s2.todo.Keys|;
  }

  ghost predicate Redundant(p: Problem, policy: Policy, recorded: set<State>, s: State) {
    exists seen :: seen in recorded && MakesRedundant(p, policy, seen, s)
  }

  lemma NoRuleNoRedundancy(p: Problem, policy: Policy, recorded: set<State>, s: State)
    requires RuleOf(policy, s.todo, p.timed).None?
    ensures !Redundant(p, policy, recorded, s)
  {
  }

  // A recorded state has the same values and the same events pending.
  ghost predicate SeenBefore(recorded: set<State>, s: State) {
    exists r :: r in recorded && SameKey(r, s)
  }

  // ... and is earlier by epsilon.
  ghost predicate SeenEarlier(p: Problem, recorded: set<State>, s: State) {
    exists r :: r in recorded && SameKey(r, s) && Earlier(p, r, s)
  }

  /** Which states are dropped.  With nothing in progress and no deadline, every state
      seen before.  With nothing in progress under a deadline, or only the timed action in
      progress, those seen earlier.  Any other, none; but under weak equality, every state
      seen before. */
  lemma DroppedExactly(p: Problem, recorded: set<State>, s: State)
    ensures s.todo == map[] && p.deadline.None? ==>
              (Redundant(p, PolicyOf(p, false), recorded, s) <==> SeenBefore(recorded, s))
    ensures (s.todo == map[] && p.deadline.Some?) || (p.timed.Some? && s.todo.Keys == {p.timed.value}) ==>
              (Redundant(p, PolicyOf(p, false), recorded, s) <==> SeenEarlier(p, recorded, s))
    ensures s.todo != map[] && (p.timed.None? || s.todo.Keys != {p.timed.value}) ==>
              !Redundant(p, PolicyOf(p, false), recorded, s)
    ensures Redundant(p, PolicyOf(p, true), recorded, s) <==> SeenBefore(recorded, s)
  {
    assert |s.todo| == |s.todo.Keys|;
    assert s.todo == map[] <==> |s.todo.Keys| == 0;
    if p.timed.Some? && p.timed.value in s.todo {
      OneKey(s.todo.Keys, p.timed.value);
    }
    var (strict, weak) := (PolicyOf(p, false), PolicyOf(p, true));
    if SeenBefore(recorded, s) {
      var r :| r in recorded && SameKey(r, s);
      assert MakesRedundant(p, weak, r, s);
      assert s.todo == map[] && p.deadline.None? ==> MakesRedundant(p, strict, r, s);
    }
    if SeenEarlier(p, recorded, s) && RuleOf(strict, s.todo, p.timed) == Some(ByDominance) {
      var r :| r in recorded && SameKey(r, s) && Earlier(p, r, s);
      assert MakesRedundant(p, strict, r, s);
    }
  }

  lemma OneKey(keys: set<nat>, a: nat)
    requires a in keys
    ensures |keys| == 1 <==> keys == {a}
  {
    assert |keys - {a}| == |keys| - 1;
    assert |keys| == 1 ==> keys - {a} == {};
  }

  lemma SeenIsRedundant(
    p: Problem, policy: Policy, seen: set<Key>, makespans: map<Key, int>, recorded: set<State>, s: State)
    requires Stores(p, policy, seen, makespans, recorded) && RuleOf(policy, s.todo, p.timed) == Some(ByEquality)
    ensures KeyOf(s) in seen <==> Redundant(p, policy, recorded, s)
  {
    hide RuleOf, KeyOf;
    if KeyOf(s) in seen {
      var x :| Kept(policy, p, recorded, x, KeyOf(s), ByEquality);
      KeysCompare(x, s);
      assert MakesRedundant(p, policy, x, s);
    }
    if Redundant(p, policy, recorded, s) {
      var x :| x in recorded && MakesRedundant(p, policy, x, s);
      KeysCompare(x, s);
      SameRule(policy, p, x, s);
      assert Kept(policy, p, recorded, x, KeyOf(s), ByEquality);
    }
  }

  lemma DominatedIsRedundant(
    p: Problem, policy: Policy, seen: set<Key>, makespans: map<Key, int>, recorded: set<State>, s: State, m: int)
    requires Stores(p, policy, seen, makespans, recorded) && RuleOf(policy, s.todo, p.timed) == Some(ByDominance)
    requires IsMakespan(s, m)
    ensures KeyOf(s) in makespans && makespans[KeyOf(s)] + p.epsilon <= m <==> Redundant(p, policy, recorded, s)
  {
    var k := KeyOf(s);
    hide RuleOf, KeyOf, IsMakespan;
    if k in makespans && makespans[k] + p.epsilon <= m {
      var x :| Kept(policy, p, recorded, x, k, ByDominance) && IsMakespan(x, makespans[k]);
      KeysCompare(x, s);
      assert Earlier(p, x, s);
      assert MakesRedundant(p, policy, x, s);
    }
    if Redundant(p, policy, recorded, s) {
      var x :| x in recorded && MakesRedundant(p, policy, x, s);
      KeysCompare(x, s);
      SameRule(policy, p, x, s);
      var m1, m2 :| IsMakespan(x, m1) && IsMakespan(s, m2) && m1 + p.epsilon <= m2;
      MakespanUnique(s, m, m2);
      assert Kept(policy, p, recorded, x, k, ByDominance);
    }
  }

  // Recording another state.
  lemma StoresMore(
    p: Problem, policy: Policy, seen: set<Key>, makespans: map<Key, int>, recorded: set<State>, s: State,
    m: int, seen': set<Key>, makespans': map<Key, int>)
    requires Stores(p, policy, seen, makespans, recorded)
    requires seen' == if RuleOf(policy, s.todo, p.timed) == Some(ByEquality) then seen + {KeyOf(s)} else seen
    requires RuleOf(policy, s.todo, p.timed) != Some(ByDominance) ==> makespans' == makespans
    requires RuleOf(policy, s.todo, p.timed) == Some(ByDominance) ==>
               && IsMakespan(s, m)
               && makespans' == if KeyOf(s) in makespans && makespans[KeyOf(s)] <= m then makespans
                                else makespans[KeyOf(s) := m]
    ensures Stores(p, policy, seen', makespans', recorded + {s})
  {
    var (all, rule) := (recorded + {s}, RuleOf(policy, s.todo, p.timed));
    hide RuleOf, KeyOf, IsMakespan;
    forall x, k, r: Rule ensures Kept(policy, p, all, x, k, r) <==>
      Kept(policy, p, recorded, x, k, r) || (x == s && k == KeyOf(s) && rule == Some(r)) {
    }
    forall k | k in seen' ensures exists x :: Kept(policy, p, all, x, k, ByEquality) {
      if k in seen {
        var x :| Kept(policy, p, recorded, x, k, ByEquality);
        assert Kept(policy, p, all, x, k, ByEquality);
      } else {
        assert Kept(policy, p, all, s, k, ByEquality);
      }
    }
    forall k | k in makespans'
      ensures exists x :: Kept(policy, p, all, x, k, ByDominance) && IsMakespan(x, makespans'[k])
    {
      if k in makespans && makespans'[k] == makespans[k] {
        var x :| Kept(policy, p, recorded, x, k, ByDominance) && IsMakespan(x, makespans[k]);
        assert Kept(policy, p, all, x, k, ByDominance);
      } else {
        assert Kept(policy, p, all, s, k, ByDominance);
      }
    }
    forall x, k, n | Kept(policy, p, all, x, k, ByDominance) && IsMakespan(x, n)
      ensures k in makespans' && makespans'[k] <= n
    {
      if Kept(policy, p, recorded, x, k, ByDominance) {
        assert k in makespans && makespans[k] <= n;
      } else {
        MakespanUnique(s, m, n);
      }
    }
  }

  class VisitedStates {
    const p: Problem
    const policy: Policy
    var seen: set<Key>
    var makespans: map<Key, int>
    // the states it has taken in
    ghost var recorded: set<State>

    ghost predicate Valid()
      reads this
    {
      Stores(p, policy, seen, makespans, recorded)
    }

    constructor (p: Problem, weakEquality: bool)
      ensures Valid() && this.p == p && policy == PolicyOf(p, weakEquality) && recorded == {}
    {
      this.p, policy := p, PolicyOf(p, weakEquality);
      seen, makespans, recorded := {}, map[], {};
    }

    /** Whether a recorded state makes this one redundant. */
    method IsRedundant(state: SearchState, ghost plan: seq<nat>) returns (redundant: bool)
      requires Valid() && state.Valid() && state.network.isSat && WellFormed(p) && Reached(p, plan, state.Abs())
      ensures redundant <==> Redundant(p, policy, recorded, state.Abs())
    {
      ghost var s := state.Abs();
      var rule := RuleOf(policy, state.todo, p.timed);
      var k: Key := (state.assignment, map a | a in state.todo :: state.todo[a].0);
      assert k == KeyOf(s);
      hide RuleOf, KeyOf, Stores, Redundant, Reached, WellFormed, IsMakespan, Stn.DeltaStn.Valid;
      match rule {
        case None =>
          NoRuleNoRedundancy(p, policy, recorded, s);
          redundant := false;
        case Some(ByEquality) =>
          SeenIsRedundant(p, policy, seen, makespans, recorded, s);
          redundant := k in seen;
        case Some(ByDominance) =>
          var m := MakespanOf(p, state, plan);
          DominatedIsRedundant(p, policy, seen, makespans, recorded, s, m);
          redundant := k in makespans && makespans[k] + p.epsilon <= m;
      }
    }

    /** Takes a state in, unless a recorded one makes it redundant. */
    method Insert(state: SearchState, ghost plan: seq<nat>) returns (isNew: bool)
      requires Valid() && state.Valid() && state.network.isSat && WellFormed(p) && Reached(p, plan, state.Abs())
      modifies this
      ensures Valid()
      ensures isNew <==> !Redundant(p, policy, old(recorded), state.Abs())
      ensures recorded == if isNew then old(recorded) + {state.Abs()} else old(recorded)
    {
      ghost var s := state.Abs();
      var rule := RuleOf(policy, state.todo, p.timed);
      var k: Key := (state.assignment, map a | a in state.todo :: state.todo[a].0);
      assert k == KeyOf(s);
      hide RuleOf, KeyOf, Stores, Redundant, Reached, WellFormed, IsMakespan, Stn.DeltaStn.Valid;
      match rule {
        case None =>
          NoRuleNoRedundancy(p, policy, recorded, s);
          StoresMore(p, policy, seen, makespans, recorded, s, 0, seen, makespans);
          isNew := true;
        case Some(ByEquality) =>
          SeenIsRedundant(p, policy, seen, makespans, recorded, s);
          isNew := k !in seen;
          if isNew {
            StoresMore(p, policy, seen, makespans, recorded, s, 0, seen + {k}, makespans);
            seen := seen + {k};
          }
        case Some(ByDominance) =>
          var m := MakespanOf(p, state, plan);
          DominatedIsRedundant(p, policy, seen, makespans, recorded, s, m);
          isNew := !(k in makespans && makespans[k] + p.epsilon <= m);
          if isNew {
            ghost var kept := if k in makespans && makespans[k] <= m then makespans else makespans[k := m];
            StoresMore(p, policy, seen, makespans, recorded, s, m, seen, kept);
            if !(k in makespans && makespans[k] <= m) {
              makespans := makespans[k := m];
            }
          }
      }
      if isNew {
        recorded := recorded + {s};
      }
    }
  }
}
