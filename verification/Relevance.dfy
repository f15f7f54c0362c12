/**
 Relevance slicing, on classical problems: the actions that cannot matter to the goal
 are dropped, and so are the fluents nothing kept depends on.
*/
module Relevance {
  import opened Options
  import opened Expr
  import T = Temporal
  import opened Deordering

  /** An instantaneous action. */
  datatype Act = Act(condition: Expr, effects: seq<T.Effect>)

  datatype Classical = Classical(acts: seq<Act>, init: Assignment, goal: Expr, functions: Functions)

  // The problem as far as effects are evaluated in it.
  function Frame(p: Classical): T.Problem {
    T.Problem([], p.init, p.goal, p.functions, 1, None, None)
  }

  /** The child of `s`, unless the action is not applicable or raises. */
  function Do(p: Classical, a: Act, s: Assignment): Option<Assignment> {
    if !T.Holds(Frame(p), a.condition, s) then None else T.Apply(Frame(p), a.effects, s, s)
  }

  function RunPlan(p: Classical, s: Assignment, plan: seq<nat>): Option<Assignment>
    decreases |plan|
  {
    if plan == [] then Some(s)
    else if plan[0] >= |p.acts| then None
    else match Do(p, p.acts[plan[0]], s)
      case None => None
      case Some(t) => RunPlan(p, t, plan[1..])
  }

  ghost predicate Solves(p: Classical, plan: seq<nat>) {
    RunPlan(p, p.init, plan).Some? && T.Holds(Frame(p), p.goal, RunPlan(p, p.init, plan).value)
  }

  /** What an action depends on: its condition and the values of its effects. */
  function Depends(a: Act): set<nat> {
    Fluents(a.condition) + T.EffectReads(a.effects)
  }

  /** What its condition or the value of an effect mentions, and nothing else. */
  lemma DependsExact(a: Act, f: nat)
    ensures f in Depends(a) <==>
              f in Fluents(a.condition) || exists eff :: eff in a.effects && f in Fluents(eff.value)
  {
    T.EffectSetsExact(a.effects, f);
  }

  // ---- dropping actions ----

  function Kept(plan: seq<nat>, relevant: set<nat>): seq<nat> {
    if plan == [] then [] else (if plan[0] in relevant then [plan[0]] else []) + Kept(plan[1..], relevant)
  }

  /** The fluents `fls` are all that matters to the goal: the relevant actions depend
      on nothing else, and no other action of `reachable` writes any of them. */
  ghost predicate Backward(p: Classical, reachable: set<nat>, relevant: set<nat>, fls: set<nat>) {
    && Fluents(p.goal) <= fls
    && (forall a | a in relevant :: a < |p.acts| && Depends(p.acts[a]) <= fls)
    && forall a | a in reachable && a !in relevant && a < |p.acts| :: T.Writes(p.acts[a].effects) !! fls
  }

  /** An action does to `fls` what it does there wherever the values agree. */
  lemma DoAgrees(p: Classical, a: Act, s: Assignment, t: Assignment, fls: set<nat>)
    requires Agree(s, t, fls) && |s| == |t| && Depends(a) <= fls && Do(p, a, s).Some?
    ensures Do(p, a, t).Some? && Agree(Do(p, a, s).value, Do(p, a, t).value, fls)
    ensures |Do(p, a, t).value| == |t| && |Do(p, a, s).value| == |s|
  {
    EvalReadsFluents(a.condition, s, t, p.functions);
    ApplySame(Frame(p), a.effects, s, t, s, t);
  }

  lemma DoElsewhere(p: Classical, a: Act, s: Assignment, fls: set<nat>)
    requires Do(p, a, s).Some? && T.Writes(a.effects) !! fls
    ensures Agree(s, Do(p, a, s).value, fls) && |Do(p, a, s).value| == |s|
  {
    ApplyFrame(Frame(p), a.effects, s, s);
  }

  /** Leaving out the actions that are not relevant leaves the values that matter. */
  lemma {:induction false} KeptRuns(
    p: Classical, reachable: set<nat>, relevant: set<nat>, fls: set<nat>, plan: seq<nat>, s: Assignment, t: Assignment)
    requires Backward(p, reachable, relevant, fls) && Agree(s, t, fls) && |s| == |t|
    requires RunPlan(p, s, plan).Some? && forall a | a in plan :: a in reachable
    ensures RunPlan(p, t, Kept(plan, relevant)).Some?
    ensures Agree(RunPlan(p, s, plan).value, RunPlan(p, t, Kept(plan, relevant)).value, fls)
    decreases |plan|
  {
    if plan != [] {
      var (a, rest) := (plan[0], plan[1..]);
      var s' := Do(p, p.acts[a], s).value;
      assert a in plan && forall b | b in rest :: b in plan;
      if a in relevant {
        DoAgrees(p, p.acts[a], s, t, fls);
        hide Do;
        KeptRuns(p, reachable, relevant, fls, rest, s', Do(p, p.acts[a], t).value);
        assert ([a] + Kept(rest, relevant))[1..] == Kept(rest, relevant);
      } else {
        DoElsewhere(p, p.acts[a], s, fls);
        hide Do;
        KeptRuns(p, reachable, relevant, fls, rest, s', t);
        assert [] + Kept(rest, relevant) == Kept(rest, relevant);
      }
    }
  }

  /** What relaxed reachability must ensure: plans use reachable actions only. */
  ghost predicate SafeReachability(p: Classical, reachable: set<nat>) {
    forall plan, a | RunPlan(p, p.init, plan).Some? && a in plan :: a in reachable
  }

  /** Dropping the actions outside `relevant` from a plan leaves a plan. */
  lemma KeptSolves(p: Classical, reachable: set<nat>, relevant: set<nat>, fls: set<nat>, plan: seq<nat>)
    requires Backward(p, reachable, relevant, fls) && SafeReachability(p, reachable) && Solves(p, plan)
    ensures Solves(p, Kept(plan, relevant))
  {
    KeptRuns(p, reachable, relevant, fls, plan, p.init, p.init);
    EvalReadsFluents(p.goal, RunPlan(p, p.init, plan).value, RunPlan(p, p.init, Kept(plan, relevant)).value, p.functions);
  }

  predicate WritesIt(p: Classical, actions: set<nat>, a: nat, f: nat) {
    a in actions && a < |p.acts| && f in T.Writes(p.acts[a].effects)
  }

  function Looked(m: map<nat, set<nat>>, f: nat): set<nat> {
    if f in m then m[f] else {}
  }

  /** Which of the actions write each fluent. */
  method AffectingActions(p: Classical, actions: set<nat>) returns (m: map<nat, set<nat>>)
    requires forall a | a in actions :: a < |p.acts|
    ensures forall f, a: nat :: a in Looked(m, f) <==> WritesIt(p, actions, a, f)
  {
    m := map[];
    var rest := actions;
    while rest != {}
      invariant rest <= actions
      invariant forall f, a: nat :: a in Looked(m, f) <==> a !in rest && WritesIt(p, actions, a, f)
      decreases |rest|
    {
      var a :| a in rest;
      rest := rest - {a};
      m := AddWrites(p, a, m);
    }
  }

  method AddWrites(p: Classical, a: nat, m: map<nat, set<nat>>) returns (m': map<nat, set<nat>>)
    requires a < |p.acts|
    ensures forall f, b: nat :: b in Looked(m', f) <==> b in Looked(m, f) || (b == a && f in T.Writes(p.acts[a].effects))
  {
    m' := m;
    var effects := p.acts[a].effects;
    for i := 0 to |effects|
      invariant forall f, b: nat ::
        b in Looked(m', f) <==> b in Looked(m, f) || (b == a && f in T.Writes(effects[..i]))
    {
      var f := effects[i].fluent;
      WritesSnoc(effects, i);
      var now := m'[f := Looked(m', f) + {a}];
      assert forall g :: Looked(now, g) == if g == f then Looked(m', f) + {a} else Looked(m', g);
      m' := now;
    }
    assert effects[..|effects|] == effects;
  }

  lemma {:induction false} WritesSnoc(effects: seq<T.Effect>, i: nat)
    requires i < |effects|
    ensures T.Writes(effects[..i + 1]) == T.Writes(effects[..i]) + {effects[i].fluent}
    decreases i
  {
    if i == 0 {
      assert effects[..1] == [effects[0]] && [effects[0]][1..] == [];
    } else {
      assert effects[..i + 1][1..] == effects[1..][..i] && effects[..i][1..] == effects[1..][..i - 1];
      WritesSnoc(effects[1..], i - 1);
    }
  }

  // What the walk has found: what relevant actions depend on is checked, and the
  // writers of what has left the stack are relevant.
  ghost predicate Walk(
    p: Classical, reachable: set<nat>, relevant: set<nat>, checked: set<nat>, stack: set<nat>, bound: set<nat>)
  {
    && relevant <= reachable && stack <= checked <= bound && Fluents(p.goal) <= checked
    && (forall a | a in relevant :: a < |p.acts| && Depends(p.acts[a]) <= checked)
    && forall f, a | f in checked && f !in stack && WritesIt(p, reachable, a, f) :: a in relevant
  }

  lemma WalkStep(
    p: Classical, reachable: set<nat>, relevant: set<nat>, checked: set<nat>, stack: set<nat>, bound: set<nat>,
    f: nat, writers: set<nat>, deps: set<nat>)
    requires Walk(p, reachable, relevant, checked, stack, bound) && f in stack
    requires forall a: nat :: a in writers <==> WritesIt(p, reachable, a, f)
    requires forall a | a in writers :: a < |p.acts| && Depends(p.acts[a]) <= deps
    requires deps <= bound
    ensures Walk(p, reachable, relevant + writers, checked + deps, stack - {f} + (deps - checked), bound)
    ensures checked + deps != checked ==> |bound - (checked + deps)| < |bound - checked|
    ensures checked + deps == checked ==> |stack - {f} + (deps - checked)| < |stack|
  {
    WalkMeasure(checked, stack, f, deps, bound);
  }

  // A step adds something, or shortens the stack.
  lemma WalkMeasure(checked: set<nat>, stack: set<nat>, f: nat, deps: set<nat>, bound: set<nat>)
    requires f in stack && deps <= bound
    ensures checked + deps != checked ==> |bound - (checked + deps)| < |bound - checked|
    ensures checked + deps == checked ==> |stack - {f} + (deps - checked)| < |stack|
  {
    if checked + deps != checked {
      assert bound - (checked + deps) < bound - checked;
      SmallerSet(bound - (checked + deps), bound - checked);
    } else {
      assert deps - checked == {};
      SmallerSet(stack - {f} + (deps - checked), stack);
    }
  }

  lemma WalkEnds(
    p: Classical, reachable: set<nat>, relevant: set<nat>, checked: set<nat>, bound: set<nat>)
    requires Walk(p, reachable, relevant, checked, {}, bound)
    ensures Backward(p, reachable, relevant, checked)
  {
    forall a | a in reachable && a !in relevant && a < |p.acts| ensures T.Writes(p.acts[a].effects) !! checked {
      forall f | f in checked ensures f !in T.Writes(p.acts[a].effects) {
        assert !WritesIt(p, reachable, a, f);
      }
    }
  }

  /** No set of actions closed backward from the goal lacks any of `relevant`. */
  ghost predicate Least(p: Classical, reachable: set<nat>, relevant: set<nat>, checked: set<nat>) {
    forall other, fls | Backward(p, reachable, other, fls) :: relevant <= other && checked <= fls
  }

  lemma LeastStep(
    p: Classical, reachable: set<nat>, relevant: set<nat>, checked: set<nat>, f: nat, writers: set<nat>, deps: set<nat>)
    requires Least(p, reachable, relevant, checked) && f in checked
    requires (forall a: nat :: a in writers <==> WritesIt(p, reachable, a, f)) && forall a | a in writers :: a < |p.acts|
    requires forall g :: g in deps <==> exists a :: a in writers && g in Depends(p.acts[a])
    ensures Least(p, reachable, relevant + writers, checked + deps)
  {
    hide Depends;
    forall other, fls | Backward(p, reachable, other, fls)
      ensures relevant + writers <= other && checked + deps <= fls
    {
      forall a | a in writers ensures a in other && Depends(p.acts[a]) <= fls {
        assert WritesIt(p, reachable, a, f) && f in fls;
      }
    }
  }

  lemma AllBackward(p: Classical, reachable: set<nat>)
    requires forall a | a in reachable :: a < |p.acts|
    ensures Backward(p, reachable, reachable, AllOf(p, reachable) + Fluents(p.goal))
  {
    hide Depends, AllOf;
    forall a | a in reachable ensures Depends(p.acts[a]) <= AllOf(p, reachable) {
      AllOfHas(p, reachable, a);
    }
  }

  /** The second pass of `_compute_relevant_actions`: the walk backward from the goal over
      the reachable actions, which finds the least set closed backward.  It also stops
      once all of them are relevant. */
  method WalkBackward(p: Classical, reachable: set<nat>) returns (relevant: set<nat>, ghost fls: set<nat>)
    requires forall a | a in reachable :: a < |p.acts|
    ensures relevant <= reachable
    ensures forall plan | SafeReachability(p, reachable) && Solves(p, plan) :: Solves(p, Kept(plan, relevant))
    ensures Backward(p, reachable, relevant, fls)
    ensures forall other, more | Backward(p, reachable, other, more) :: relevant <= other
  {
    var affecting := AffectingActions(p, reachable);
    var checked := Fluents(p.goal);
    var stack := checked;
    relevant := {};
    ghost var bound := AllOf(p, reachable) + Fluents(p.goal);
    assert Walk(p, reachable, relevant, checked, stack, bound) && Least(p, reachable, relevant, checked);
    AllBackward(p, reachable);
    hide Walk, Depends, AllOf, Least, Backward;
    while stack != {} && |relevant| < |reachable|
      invariant Walk(p, reachable, relevant, checked, stack, bound) && Least(p, reachable, relevant, checked)
      invariant stack <= checked
      decreases |bound - checked|, |stack|
    {
      var f :| f in stack;
      var writers := Looked(affecting, f);
      assert forall a | a in writers :: WritesIt(p, reachable, a, f);
      var deps := DependenciesOf(p, writers);
      DependenciesBound(p, reachable, writers, deps);
      WalkStep(p, reachable, relevant, checked, stack, bound, f, writers, deps);
      LeastStep(p, reachable, relevant, checked, f, writers, deps);
      stack := stack - {f} + (deps - checked);
      relevant, checked := relevant + writers, checked + deps;
    }
    WalkWithin(p, reachable, relevant, checked, stack, bound);
    LeastEnds(p, reachable, relevant, checked);
    if stack != {} {
      SameSize(relevant, reachable);
      fls := bound;
    } else {
      WalkEnds(p, reachable, relevant, checked, bound);
      fls := checked;
    }
    RelevantKeeps(p, reachable, relevant, fls);
  }

  lemma LeastEnds(p: Classical, reachable: set<nat>, relevant: set<nat>, checked: set<nat>)
    requires Least(p, reachable, relevant, checked)
    ensures forall other, more | Backward(p, reachable, other, more) :: relevant <= other
  {
  }

  lemma WalkWithin(
    p: Classical, reachable: set<nat>, relevant: set<nat>, checked: set<nat>, stack: set<nat>, bound: set<nat>)
    requires Walk(p, reachable, relevant, checked, stack, bound)
    ensures relevant <= reachable
  {
  }

  lemma DependenciesBound(p: Classical, reachable: set<nat>, writers: set<nat>, deps: set<nat>)
    requires (forall a | a in reachable :: a < |p.acts|) && writers <= reachable
    requires forall f :: f in deps <==> exists a :: a in writers && f in Depends(p.acts[a])
    ensures deps <= AllOf(p, reachable) + Fluents(p.goal)
    ensures forall a | a in writers :: Depends(p.acts[a]) <= deps
  {
    hide Depends;
    forall g | g in deps ensures g in AllOf(p, reachable) {
      var a :| a in writers && g in Depends(p.acts[a]);
      AllOfHas(p, reachable, a);
    }
  }

  lemma SmallerSet(x: set<nat>, y: set<nat>)
    requires x < y
    ensures |x| < |y|
  {
    assert |y| == |x| + |y - x|;
    assert y - x != {};
  }

  lemma SameSize(x: set<nat>, y: set<nat>)
    requires x <= y && |x| >= |y|
    ensures x == y
  {
    if x != y {
      SmallerSet(x, y);
    }
  }

  lemma RelevantKeeps(p: Classical, reachable: set<nat>, relevant: set<nat>, fls: set<nat>)
    requires Backward(p, reachable, relevant, fls)
    ensures forall plan | SafeReachability(p, reachable) && Solves(p, plan) :: Solves(p, Kept(plan, relevant))
  {
    hide Backward, Solves;
    forall plan | SafeReachability(p, reachable) && Solves(p, plan) ensures Solves(p, Kept(plan, relevant)) {
      KeptSolves(p, reachable, relevant, fls, plan);
    }
  }

  // All that the given actions depend on.
  ghost function AllOf(p: Classical, actions: set<nat>): set<nat>
    requires forall a | a in actions :: a < |p.acts|
  {
    if actions == {} then {} else
      var a :| a in actions;
      Depends(p.acts[a]) + AllOf(p, actions - {a})
  }

  lemma {:induction false} AllOfHas(p: Classical, actions: set<nat>, a: nat)
    requires (forall a | a in actions :: a < |p.acts|) && a in actions
    ensures Depends(p.acts[a]) <= AllOf(p, actions)
    decreases |actions|
  {
    var b :| b in actions && AllOf(p, actions) == Depends(p.acts[b]) + AllOf(p, actions - {b});
    if a != b {
      AllOfHas(p, actions - {b}, a);
    }
  }

  /** What the given actions depend on. */
  method DependenciesOf(p: Classical, actions: set<nat>) returns (fls: set<nat>)
    requires forall a | a in actions :: a < |p.acts|
    ensures forall f :: f in fls <==> exists a :: a in actions && f in Depends(p.acts[a])
  {
    fls := {};
    var rest := actions;
    while rest != {}
      invariant rest <= actions
      invariant forall f :: f in fls <==> exists a :: a in actions - rest && f in Depends(p.acts[a])
      decreases |rest|
    {
      var a :| a in rest;
      rest := rest - {a};
      fls := fls + Depends(p.acts[a]);
    }
  }

  // ---- dropping fluents ----

  /** Closed backward: it has what the goal and the conditions read, and with a fluent
      all that its effects' values read. */
  ghost predicate ClosedBack(p: Classical, actions: set<nat>, fls: set<nat>)
    requires forall a | a in actions :: a < |p.acts|
  {
    && Fluents(p.goal) <= fls
    && forall a | a in actions ::
         && Fluents(p.acts[a].condition) <= fls
         && forall e | e in p.acts[a].effects && e.fluent in fls :: Fluents(e.value) <= fls
  }

  // The fluents read by the values `f` is given.
  ghost predicate WrittenFrom(p: Classical, actions: set<nat>, f: nat, g: nat)
    requires forall a | a in actions :: a < |p.acts|
  {
    exists a, e :: a in actions && e in p.acts[a].effects && e.fluent == f && g in Fluents(e.value)
  }

  /** What one action adds to the seeds and to the adjacency. */
  method Gather(p: Classical, a: nat, seeds: set<nat>, from: map<nat, set<nat>>)
    returns (seeds': set<nat>, from': map<nat, set<nat>>)
    requires a < |p.acts|
    ensures seeds' == seeds + Fluents(p.acts[a].condition)
    ensures forall f, g: nat :: g in Looked(from', f) <==>
              g in Looked(from, f) || exists e :: e in p.acts[a].effects && e.fluent == f && g in Fluents(e.value)
  {
    seeds', from' := seeds + Fluents(p.acts[a].condition), from;
    var effects := p.acts[a].effects;
    for i := 0 to |effects|
      invariant forall f, g: nat :: g in Looked(from', f) <==>
        g in Looked(from, f) || exists e :: e in effects[..i] && e.fluent == f && g in Fluents(e.value)
    {
      var e := effects[i];
      assert effects[..i + 1] == effects[..i] + [e];
      from' := AddReads(from', e, effects[..i], from);
    }
    assert effects[..|effects|] == effects;
  }

  method AddReads(from: map<nat, set<nat>>, e: T.Effect, ghost before: seq<T.Effect>, ghost first: map<nat, set<nat>>)
    returns (from': map<nat, set<nat>>)
    requires forall f, g: nat :: g in Looked(from, f) <==>
               g in Looked(first, f) || exists d :: d in before && d.fluent == f && g in Fluents(d.value)
    ensures forall f, g: nat :: g in Looked(from', f) <==>
              g in Looked(first, f) || exists d :: d in before + [e] && d.fluent == f && g in Fluents(d.value)
  {
    from' := from[e.fluent := Looked(from, e.fluent) + Fluents(e.value)];
    forall f, g: nat ensures g in Looked(from', f) <==>
      g in Looked(first, f) || exists d :: d in before + [e] && d.fluent == f && g in Fluents(d.value)
    {
      assert g in Looked(from', f) <==> g in Looked(from, f) || (f == e.fluent && g in Fluents(e.value));
      if f == e.fluent && g in Fluents(e.value) {
        assert e in before + [e];
      }
      if d :| d in before && d.fluent == f && g in Fluents(d.value) {
        assert d in before + [e];
      }
    }
  }

  /** `_compute_relevant_fluents`: the least closed set. */
  method ComputeRelevantFluents(p: Classical, actions: set<nat>) returns (fls: set<nat>)
    requires forall a | a in actions :: a < |p.acts|
    ensures ClosedBack(p, actions, fls)
    ensures forall other | ClosedBack(p, actions, other) :: fls <= other
  {
    var from: map<nat, set<nat>>;
    fls, from := Seeds(p, actions);
    var stack := fls;
    ghost var bound := AllOf(p, actions) + Fluents(p.goal);
    SeedsBound(p, actions, fls);
    hide AllOf;
    hide SeedsIn, ClosedBack, WrittenFrom;
    while stack != {}
      invariant FluentWalk(p, actions, fls, stack, bound)
      decreases |bound - fls|, |stack|
    {
      var f :| f in stack;
      FluentStep(p, actions, fls, stack, f, Looked(from, f), bound);
      stack, fls := stack - {f} + (Looked(from, f) - fls), fls + Looked(from, f);
    }
    FluentWalkEnds(p, actions, fls, bound);
  }

  // The set found so far is below every closed set, and closed but for the stack.
  ghost predicate FluentWalk(p: Classical, actions: set<nat>, fls: set<nat>, stack: set<nat>, bound: set<nat>)
    requires forall a | a in actions :: a < |p.acts|
  {
    && stack <= fls <= bound && SeedsIn(p, actions, fls)
    && (forall f, g: nat | f in fls && f !in stack && WrittenFrom(p, actions, f, g) :: g in fls)
    && forall other | ClosedBack(p, actions, other) :: fls <= other
  }

  lemma FluentWalkEnds(p: Classical, actions: set<nat>, fls: set<nat>, bound: set<nat>)
    requires (forall a | a in actions :: a < |p.acts|) && FluentWalk(p, actions, fls, {}, bound)
    ensures ClosedBack(p, actions, fls) && forall other | ClosedBack(p, actions, other) :: fls <= other
  {
    WalkedIsClosed(p, actions, fls);
  }

  // The goal's fluents and those of the conditions.
  ghost predicate SeedsIn(p: Classical, actions: set<nat>, fls: set<nat>)
    requires forall a | a in actions :: a < |p.acts|
  {
    Fluents(p.goal) <= fls && forall a | a in actions :: Fluents(p.acts[a].condition) <= fls
  }

  method Seeds(p: Classical, actions: set<nat>) returns (fls: set<nat>, from: map<nat, set<nat>>)
    requires forall a | a in actions :: a < |p.acts|
    ensures SeedsIn(p, actions, fls)
    ensures forall f | f in fls :: f in Fluents(p.goal) || exists a :: a in actions && f in Fluents(p.acts[a].condition)
    ensures forall f, g: nat :: g in Looked(from, f) <==> WrittenFrom(p, actions, f, g)
  {
    fls, from := Fluents(p.goal), map[];
    var rest := actions;
    while rest != {}
      invariant rest <= actions
      invariant Fluents(p.goal) <= fls && forall a | a in actions - rest :: Fluents(p.acts[a].condition) <= fls
      invariant forall f | f in fls ::
        f in Fluents(p.goal) || exists a :: a in actions && f in Fluents(p.acts[a].condition)
      invariant forall f, g: nat :: g in Looked(from, f) <==> WrittenFrom(p, actions - rest, f, g)
      decreases |rest|
    {
      var a :| a in rest;
      ghost var before := from;
      fls, from := Gather(p, a, fls, from);
      forall f, g: nat ensures g in Looked(from, f) <==> WrittenFrom(p, actions - (rest - {a}), f, g) {
        WrittenFromMore(p, actions, rest, a, f, g);
      }
      rest := rest - {a};
    }
    assert actions - rest == actions;
  }

  lemma WrittenFromMore(p: Classical, actions: set<nat>, rest: set<nat>, a: nat, f: nat, g: nat)
    requires (forall a | a in actions :: a < |p.acts|) && rest <= actions && a in rest
    ensures WrittenFrom(p, actions - (rest - {a}), f, g)
        <==> (WrittenFrom(p, actions - rest, f, g)
              || exists e :: e in p.acts[a].effects && e.fluent == f && g in Fluents(e.value))
  {
    if WrittenFrom(p, actions - (rest - {a}), f, g) {
      var b, e :| b in actions - (rest - {a}) && e in p.acts[b].effects && e.fluent == f && g in Fluents(e.value);
      assert b == a || b in actions - rest;
    }
  }

  lemma SeedsBound(p: Classical, actions: set<nat>, fls: set<nat>)
    requires forall a | a in actions :: a < |p.acts|
    requires forall f | f in fls ::
               f in Fluents(p.goal) || exists a :: a in actions && f in Fluents(p.acts[a].condition)
    ensures fls <= AllOf(p, actions) + Fluents(p.goal)
    ensures forall other | ClosedBack(p, actions, other) :: fls <= other
  {
    forall f | f in fls ensures f in AllOf(p, actions) + Fluents(p.goal) {
      if f !in Fluents(p.goal) {
        var a :| a in actions && f in Fluents(p.acts[a].condition);
        AllOfHas(p, actions, a);
      }
    }
  }

  lemma FluentStep(
    p: Classical, actions: set<nat>, fls: set<nat>, stack: set<nat>, f: nat, more: set<nat>, bound: set<nat>)
    requires (forall a | a in actions :: a < |p.acts|) && FluentWalk(p, actions, fls, stack, bound)
    requires f in stack && bound == AllOf(p, actions) + Fluents(p.goal)
    requires forall g: nat :: g in more <==> WrittenFrom(p, actions, f, g)
    ensures FluentWalk(p, actions, fls + more, stack - {f} + (more - fls), bound)
    ensures fls + more != fls ==> |bound - (fls + more)| < |bound - fls|
    ensures fls + more == fls ==> |stack - {f} + (more - fls)| < |stack|
  {
    ReadsAreNeeded(p, actions, fls, f, more, bound);
    SeedsMore(p, actions, fls, more);
    FluentClosure(p, actions, fls, stack, f, more);
    hide WrittenFrom, ClosedBack, AllOf, Fluents, SeedsIn;
    WalkMeasure(fls, stack, f, more, bound);
    SetsStep(fls, stack, f, more, bound);
  }

  lemma SetsStep(fls: set<nat>, stack: set<nat>, f: nat, more: set<nat>, bound: set<nat>)
    requires stack <= fls <= bound && more <= bound
    ensures stack - {f} + (more - fls) <= fls + more <= bound
  {
  }

  lemma FluentClosure(p: Classical, actions: set<nat>, fls: set<nat>, stack: set<nat>, f: nat, more: set<nat>)
    requires forall a | a in actions :: a < |p.acts|
    requires forall d, g: nat | d in fls && d !in stack && WrittenFrom(p, actions, d, g) :: g in fls
    requires forall g: nat :: g in more <==> WrittenFrom(p, actions, f, g)
    ensures var (fls', stack') := (fls + more, stack - {f} + (more - fls));
      forall d, g: nat | d in fls' && d !in stack' && WrittenFrom(p, actions, d, g) :: g in fls'
  {
    hide WrittenFrom;
  }

  lemma SeedsMore(p: Classical, actions: set<nat>, fls: set<nat>, more: set<nat>)
    requires (forall a | a in actions :: a < |p.acts|) && SeedsIn(p, actions, fls)
    ensures SeedsIn(p, actions, fls + more)
  {
  }

  lemma ReadsAreNeeded(p: Classical, actions: set<nat>, fls: set<nat>, f: nat, more: set<nat>, bound: set<nat>)
    requires forall a | a in actions :: a < |p.acts|
    requires f in fls && bound == AllOf(p, actions) + Fluents(p.goal)
    requires forall g: nat :: g in more <==> WrittenFrom(p, actions, f, g)
    requires forall other | ClosedBack(p, actions, other) :: fls <= other
    ensures more <= bound
    ensures forall other | ClosedBack(p, actions, other) :: fls + more <= other
  {
    forall g | g in more ensures g in bound && forall other | ClosedBack(p, actions, other) :: g in other {
      var a, e :| a in actions && e in p.acts[a].effects && e.fluent == f && g in Fluents(e.value);
      AllOfHas(p, actions, a);
      T.EffectReadsValue(p.acts[a].effects, e);
    }
  }

  lemma WalkedIsClosed(p: Classical, actions: set<nat>, fls: set<nat>)
    requires (forall a | a in actions :: a < |p.acts|) && SeedsIn(p, actions, fls)
    requires forall f, g: nat | f in fls && WrittenFrom(p, actions, f, g) :: g in fls
    ensures ClosedBack(p, actions, fls)
  {
    forall a, e | a in actions && e in p.acts[a].effects && e.fluent in fls ensures Fluents(e.value) <= fls {
      forall g | g in Fluents(e.value) ensures g in fls {
        assert WrittenFrom(p, actions, e.fluent, g);
      }
    }
  }

  /** The effects left of those on dropped fluents. */
  function KeptEffects(effects: seq<T.Effect>, fls: set<nat>): seq<T.Effect> {
    if effects == [] then [] else
      (if effects[0].fluent in fls then [effects[0]] else []) + KeptEffects(effects[1..], fls)
  }

  function Compact(a: Act, fls: set<nat>): Act {
    Act(a.condition, KeptEffects(a.effects, fls))
  }

  /** Dropping effects on other fluents changes nothing on `fls`. */
  lemma {:induction false} KeptApply(
    p: Classical, effects: seq<T.Effect>, fls: set<nat>, s: Assignment, t: Assignment, acc: Assignment, bcc: Assignment)
    requires forall e | e in effects && e.fluent in fls :: Fluents(e.value) <= fls
    requires Agree(s, t, fls) && Agree(acc, bcc, fls) && |acc| == |bcc|
    requires T.Apply(Frame(p), effects, s, acc).Some?
    ensures T.Apply(Frame(p), KeptEffects(effects, fls), t, bcc).Some?
    ensures var (r, q) := (T.Apply(Frame(p), effects, s, acc).value, T.Apply(Frame(p), KeptEffects(effects, fls), t, bcc).value);
      Agree(r, q, fls) && |r| == |acc| && |q| == |bcc|
    decreases effects
  {
    if effects != [] {
      var (e, rest) := (effects[0], effects[1..]);
      assert forall d | d in rest :: d in effects;
      var v := Eval(e.value, s, p.functions).value;
      if e.fluent in fls {
        assert e in effects;
        EvalReadsFluents(e.value, s, t, p.functions);
        KeptApply(p, rest, fls, s, t, acc[e.fluent := v], bcc[e.fluent := v]);
        assert ([e] + KeptEffects(rest, fls))[1..] == KeptEffects(rest, fls);
      } else {
        KeptApply(p, rest, fls, s, t, acc[e.fluent := v], bcc);
        assert [] + KeptEffects(rest, fls) == KeptEffects(rest, fls);
      }
    }
  }

  // The effect has a value in `s`, and a fluent to give it to.
  predicate Defined(p: Classical, e: T.Effect, s: Assignment) {
    Eval(e.value, s, p.functions).Some? && e.fluent < |s|
  }

  /** Effects apply exactly when each of them is defined. */
  lemma {:induction false} AppliesIff(p: Classical, effects: seq<T.Effect>, s: Assignment, acc: Assignment)
    requires |acc| == |s|
    ensures T.Apply(Frame(p), effects, s, acc).Some? <==> forall e | e in effects :: Defined(p, e, s)
  {
    if effects != [] {
      assert effects[0] in effects && forall e | e in effects :: e == effects[0] || e in effects[1..];
      assert forall e | e in effects[1..] :: e in effects;
      if Defined(p, effects[0], s) {
        AppliesIff(p, effects[1..], s, acc[effects[0].fluent := Eval(effects[0].value, s, p.functions).value]);
      }
    }
  }

  lemma {:induction false} KeptMembers(effects: seq<T.Effect>, fls: set<nat>)
    ensures forall e :: e in KeptEffects(effects, fls) <==> e in effects && e.fluent in fls
  {
    if effects != [] {
      KeptMembers(effects[1..], fls);
    }
  }

  /** The effects that compaction drops are defined in `s`. */
  predicate DroppedDefined(p: Classical, a: Act, fls: set<nat>, s: Assignment) {
    forall e | e in a.effects && e.fluent !in fls :: Defined(p, e, s)
  }

  /** Compaction is a bisimulation, but for effects it drops that raise: on states that
      agree on the fluents kept, an action is applicable exactly when its compacted form
      is and no dropped effect raises; both lead to states that agree again, and the
      goal is met alike. */
  lemma CompactionBisimulates(p: Classical, actions: set<nat>, fls: set<nat>, a: nat, s: Assignment, t: Assignment)
    requires (forall a | a in actions :: a < |p.acts|) && ClosedBack(p, actions, fls) && a in actions
    requires Agree(s, t, fls) && |s| == |t|
    ensures T.Holds(Frame(p), p.goal, s) <==> T.Holds(Frame(p), p.goal, t)
    ensures Do(p, p.acts[a], s).Some?
        <==> Do(p, Compact(p.acts[a], fls), t).Some? && DroppedDefined(p, p.acts[a], fls, s)
    ensures Do(p, p.acts[a], s).Some? ==>
              var (s', t') := (Do(p, p.acts[a], s).value, Do(p, Compact(p.acts[a], fls), t).value);
              Agree(s', t', fls) && |s'| == |s| && |t'| == |t|
  {
    EvalReadsFluents(p.goal, s, t, p.functions);
    EvalReadsFluents(p.acts[a].condition, s, t, p.functions);
    var effects := p.acts[a].effects;
    AppliesIff(p, effects, s, s);
    AppliesIff(p, KeptEffects(effects, fls), t, t);
    KeptMembers(effects, fls);
    forall e | e in effects && e.fluent in fls ensures Defined(p, e, s) <==> Defined(p, e, t) {
      EvalReadsFluents(e.value, s, t, p.functions);
    }
    if T.Apply(Frame(p), effects, s, s).Some? {
      KeptApply(p, effects, fls, s, t, s, t);
    }
  }

  function CompactAll(acts: seq<Act>, fls: set<nat>): seq<Act> {
    seq(|acts|, a requires 0 <= a < |acts| => Compact(acts[a], fls))
  }

  /** The problem that the second encoding pass builds. */
  function Compacted(p: Classical, fls: set<nat>): Classical {
    p.(acts := CompactAll(p.acts, fls))
  }

  /** Along the plan no dropped effect raises. */
  predicate DroppedAlong(p: Classical, fls: set<nat>, s: Assignment, plan: seq<nat>)
    decreases |plan|
  {
    plan == [] || plan[0] >= |p.acts| ||
      (DroppedDefined(p, p.acts[plan[0]], fls, s)
       && (Do(p, p.acts[plan[0]], s).Some? ==> DroppedAlong(p, fls, Do(p, p.acts[plan[0]], s).value, plan[1..])))
  }

  lemma {:induction false} ApplySameFrame(p: Classical, q: Classical, effects: seq<T.Effect>, s: Assignment, acc: Assignment)
    requires p.functions == q.functions
    ensures T.Apply(Frame(p), effects, s, acc) == T.Apply(Frame(q), effects, s, acc)
  {
    if effects != [] {
      var v := Eval(effects[0].value, s, p.functions);
      if v.Some? && effects[0].fluent < |acc| {
        ApplySameFrame(p, q, effects[1..], s, acc[effects[0].fluent := v.value]);
      }
    }
  }

  lemma DoCompacted(p: Classical, fls: set<nat>, a: nat, t: Assignment)
    requires a < |p.acts|
    ensures Do(Compacted(p, fls), Compacted(p, fls).acts[a], t) == Do(p, Compact(p.acts[a], fls), t)
  {
    ApplySameFrame(p, Compacted(p, fls), Compact(p.acts[a], fls).effects, t, t);
  }

  /** A plan runs exactly when it runs compacted and no dropped effect raises along it;
      then the values kept are the same. */
  lemma {:induction false} CompactionRuns(
    p: Classical, actions: set<nat>, fls: set<nat>, s: Assignment, t: Assignment, plan: seq<nat>)
    requires (forall a | a in actions :: a < |p.acts|) && ClosedBack(p, actions, fls)
    requires Agree(s, t, fls) && |s| == |t| && forall a | a in plan :: a in actions
    ensures RunPlan(p, s, plan).Some? <==> RunPlan(Compacted(p, fls), t, plan).Some? && DroppedAlong(p, fls, s, plan)
    ensures RunPlan(p, s, plan).Some? ==>
              Agree(RunPlan(p, s, plan).value, RunPlan(Compacted(p, fls), t, plan).value, fls)
    decreases |plan|
  {
    if plan != [] {
      var (a, rest) := (plan[0], plan[1..]);
      assert a in plan && forall b | b in rest :: b in plan;
      CompactionBisimulates(p, actions, fls, a, s, t);
      DoCompacted(p, fls, a, t);
      hide Do, Compact, ClosedBack, DroppedDefined;
      if Do(p, p.acts[a], s).Some? {
        CompactionRuns(p, actions, fls, Do(p, p.acts[a], s).value, Do(p, Compact(p.acts[a], fls), t).value, rest);
      }
    }
  }

  lemma GoalReads(p: Classical, fls: set<nat>, s: Assignment, t: Assignment)
    requires Fluents(p.goal) <= fls && Agree(s, t, fls)
    ensures T.Holds(Frame(p), p.goal, s) <==> T.Holds(Frame(Compacted(p, fls)), p.goal, t)
  {
    EvalReadsFluents(p.goal, s, t, p.functions);
  }

  /** So compaction keeps every plan, and adds only those along which a dropped effect
      raises. */
  lemma CompactionSolves(p: Classical, actions: set<nat>, fls: set<nat>, plan: seq<nat>)
    requires (forall a | a in actions :: a < |p.acts|) && ClosedBack(p, actions, fls)
    requires forall a | a in plan :: a in actions
    ensures Solves(p, plan) <==> Solves(Compacted(p, fls), plan) && DroppedAlong(p, fls, p.init, plan)
  {
    CompactionRuns(p, actions, fls, p.init, p.init, plan);
    if RunPlan(p, p.init, plan).Some? {
      GoalReads(p, fls, RunPlan(p, p.init, plan).value, RunPlan(Compacted(p, fls), p.init, plan).value);
    }
  }

  /** No effect on a dropped fluent can raise, in any state of the problem's size. */
  ghost predicate DroppedTotal(p: Classical, fls: set<nat>) {
    forall a: nat, s: Assignment | a < |p.acts| && |s| == |p.init| :: DroppedDefined(p, p.acts[a], fls, s)
  }

  lemma {:induction false} TotalAlong(p: Classical, fls: set<nat>, s: Assignment, plan: seq<nat>)
    requires DroppedTotal(p, fls) && |s| == |p.init|
    ensures DroppedAlong(p, fls, s, plan)
    decreases |plan|
  {
    if plan != [] && plan[0] < |p.acts| {
      var a := p.acts[plan[0]];
      if Do(p, a, s).Some? {
        ApplyFrame(Frame(p), a.effects, s, s);
        TotalAlong(p, fls, Do(p, a, s).value, plan[1..]);
      }
    }
  }

  /** With effects that cannot raise, the compacted problem has the same plans. */
  lemma CompactionSamePlans(p: Classical, actions: set<nat>, fls: set<nat>, plan: seq<nat>)
    requires (forall a | a in actions :: a < |p.acts|) && ClosedBack(p, actions, fls) && DroppedTotal(p, fls)
    requires forall a | a in plan :: a in actions
    ensures Solves(p, plan) <==> Solves(Compacted(p, fls), plan)
  {
    CompactionSolves(p, actions, fls, plan);
    TotalAlong(p, fls, p.init, plan);
  }

  // ---- an effect that raises ----

  /** One action sets fluent 2, the goal, and fluent 0 to 1 divided by fluent 1, which
      is 0. */
  function Dividing(): Classical {
    Classical([Act(Const(TRUE), [T.Effect(0, Div(Const(NumV(1.0)), Fluent(1))), T.Effect(2, Const(TRUE))])],
              [NumV(0.0), NumV(0.0), BoolV(false)], Fluent(2), (f: nat, vs: seq<Value>) => None)
  }

  /** Compaction keeps fluent 2 alone, and makes a plan of what is none. */
  lemma CompactionCanAddPlans()
    ensures ClosedBack(Dividing(), {0}, {2}) && forall fls | ClosedBack(Dividing(), {0}, fls) :: {2} <= fls
    ensures !Solves(Dividing(), [0]) && Solves(Compacted(Dividing(), {2}), [0])
  {
    var p := Dividing();
    var q := Compacted(p, {2});
    var (a, s) := (p.acts[0], p.init);
    var (x, y) := (a.effects[0], a.effects[1]);
    assert a.effects == [x, y] && a.effects[1..] == [y] && [y][1..] == [];
    assert Eval(x.value.l, s, p.functions) == Some(NumV(1.0)) && Eval(x.value.r, s, p.functions) == Some(NumV(0.0));
    assert Eval(x.value, s, p.functions).None?;
    assert Do(p, a, s).None?;
    assert KeptEffects([], {2}) == [] && KeptEffects([y], {2}) == [y] + [] && KeptEffects(a.effects, {2}) == [] + [y];
    assert q.acts[0].effects == [y];
    assert T.Apply(Frame(q), [y], s, s) == Some(s[2 := TRUE]);
    assert [0][1..] == [];
    assert RunPlan(q, q.init, [0]) == Some(s[2 := TRUE]);
  }
}
