/**
 Both passes of `_compute_relevant_actions` on a classical problem: relaxed reachability
 finds every action of every plan, and the walk backward keeps those that matter.
*/
module RelevantActions {
  import opened Options
  import opened Expr
  import opened HeuristicConditions
  import opened RelaxedRuns
  import opened RelaxedTasks
  import opened RelaxedLeaves
  import opened RelaxedTruth
  import opened RelaxedEvents
  import opened DeleteRelaxation
  import opened RelaxedExact
  import opened RelaxationHeuristic
  import opened Relevance
  import B = RelaxationBound
  import R = Relaxation
  import T = Temporal

  // ---- a classical problem as the heuristic sees it ----

  function OneEvent(a: Act): T.Action {
    T.Action([T.Event(T.Timing(true, 0), a.condition, [], [], a.effects)], None)
  }

  function Instants(acts: seq<Act>): seq<T.Action> {
    seq(|acts|, a requires 0 <= a < |acts| => OneEvent(acts[a]))
  }

  /** Every action is one event. */
  function AsTemporal(p: Classical): (q: T.Problem)
    ensures T.WellFormed(q)
  {
    T.Problem(Instants(p.acts), p.init, p.goal, p.functions, 1, None, None)
  }

  function ReachabilitySource(p: Classical, doms: Domains): Source {
    Source(AsTemporal(p), doms, Config(HMax, false, false))
  }

  lemma {:induction false} ApplySameFunctions(
    p: T.Problem, q: T.Problem, effects: seq<T.Effect>, s: Assignment, acc: Assignment)
    requires p.functions == q.functions
    ensures T.Apply(p, effects, s, acc) == T.Apply(q, effects, s, acc)
  {
    if effects != [] {
      var v := Eval(effects[0].value, s, p.functions);
      if v.Some? && effects[0].fluent < |acc| {
        ApplySameFunctions(p, q, effects[1..], s, acc[effects[0].fluent := v.value]);
      }
    }
  }

  function AtRest(s: Assignment): Snapshot {
    Snapshot(s, map[])
  }

  lemma DoFollows(p: Classical, a: nat, s: Assignment)
    requires a < |p.acts| && Do(p, p.acts[a], s).Some?
    ensures Follows(AsTemporal(p), AtRest(s), (a, 0), AtRest(Do(p, p.acts[a], s).value))
  {
    ApplySameFunctions(Frame(p), AsTemporal(p), p.acts[a].effects, s, s);
  }

  /** A plan is a run of events. */
  lemma {:induction false} PlanFollows(p: Classical, s: Assignment, plan: seq<nat>)
    returns (ss: seq<Snapshot>, es: seq<T.EventId>)
    requires RunPlan(p, s, plan).Some?
    ensures EventRun(AsTemporal(p), ss, es) && ss[0] == AtRest(s) && |es| == |plan|
    ensures forall k | 0 <= k < |es| :: es[k] == (plan[k], 0)
    decreases |plan|
  {
    if plan == [] {
      ss, es := [AtRest(s)], [];
    } else {
      var t := Do(p, p.acts[plan[0]], s).value;
      DoFollows(p, plan[0], s);
      var tail, rest := PlanFollows(p, t, plan[1..]);
      hide Do, Follows, RunPlan;
      ss, es := [AtRest(s)] + tail, [(plan[0], 0)] + rest;
      forall k | 0 <= k < |es| ensures Follows(AsTemporal(p), ss[k], es[k], ss[k + 1]) {
        if k > 0 {
          assert Follows(AsTemporal(p), tail[k - 1], rest[k - 1], tail[k - 1 + 1]);
        }
      }
    }
  }

  // ---- the first pass ----

  /** The action applies sometime, deleting nothing: after some sequence of others its
      condition may hold. */
  ghost predicate CanApply(p: Classical, doms: Domains, a: nat) {
    a < |p.acts| && exists es ::
      && RelaxedSequence(ReachabilitySource(p, doms), AtRest(p.init), es)
      && MayHold(ReachabilitySource(p, doms), Full(AsTemporal(p), AtRest(p.init)), es, p.acts[a].condition)
  }

  /** An action's event may fire exactly when the action's condition may hold, and has the
      action's effects. */
  lemma ActFires(p: Classical, doms: Domains, es: seq<T.EventId>, a: nat)
    requires a < |p.acts|
    ensures var h := ReachabilitySource(p, doms);
      && T.IsEvent(h.p, (a, 0)) && T.EventOf(h.p, (a, 0)).effects == p.acts[a].effects
      && (MayFire(h, AtRest(p.init), es, (a, 0)) <==>
            MayHold(h, Full(h.p, AtRest(p.init)), es, p.acts[a].condition))
  {
    hide MayHold;
  }

  lemma ApplicableExact(p: Classical, doms: Domains, a: nat)
    requires Encodable(ReachabilitySource(p, doms))
    ensures CanComplete(ReachabilitySource(p, doms), AtRest(p.init), a) <==> CanApply(p, doms, a)
  {
    var (h, s) := (ReachabilitySource(p, doms), AtRest(p.init));
    forall es | a < |p.acts|
      ensures MayFire(h, s, es, (a, 0)) <==> MayHold(h, Full(h.p, s), es, p.acts[a].condition)
      ensures MayFire(h, s, es, (a, 0)) ==> HasOperator(h.p, (a, 0))
    {
      ActFires(p, doms, es, a);
      hide MayFire, MayHold, MayMeet, HasOperator, Encodable, Precondition;
      FiringExactly(h, s, es, (a, 0));
    }
    hide Encodable, MayFire, MayHold, RelaxedSequence, HasOperator, Full;
    forall e: T.EventId | T.IsEvent(h.p, e) && e.0 == a ensures a < |p.acts| && e == (a, 0) {
    }
    if CanApply(p, doms, a) {
      assert T.IsEvent(h.p, (a, 0)) && (a, 0).0 == a;
    }
  }

  // Operators of the same event cost the same.
  lemma SameEventSamePre(h: Source, s: Assignment, t: R.Task, o: nat, q: nat)
    requires T.WellFormed(h.p) && TaskOf(h, s) == Some(t) && |t.ops| == |OperatorsOf(h.p, 0)| + 1
    requires o < |OperatorsOf(h.p, 0)| && q < |OperatorsOf(h.p, 0)| && OperatorsOf(h.p, 0)[o] == OperatorsOf(h.p, 0)[q]
    ensures R.Pre(t, o, R.Value(t)) == R.Pre(t, q, R.Value(t))
  {
    OperatorShape(h, s, t, o);
    OperatorShape(h, s, t, q);
    assert Conditions(h)[o] == Conditions(h)[q];
  }

  // The action's operator is reached.
  lemma PlanReachesOperator(p: Classical, doms: Domains, t: R.Task, plan: seq<nat>, a: nat)
    requires Encodable(ReachabilitySource(p, doms))
    requires TaskOf(ReachabilitySource(p, doms), Full(AsTemporal(p), AtRest(p.init))) == Some(t)
    requires RunPlan(p, p.init, plan).Some? && a in plan
    ensures (a, 0) in OperatorsOf(AsTemporal(p), 0)
    ensures var q := OperatorAt(AsTemporal(p), (a, 0)); q < |t.ops| && R.Pre(t, q, R.Value(t)).Fin?
  {
    var h := ReachabilitySource(p, doms);
    var ss, es := PlanFollows(p, p.init, plan);
    RunIsRelaxed(h, t, ss, es);
    var k :| 0 <= k < |plan| && plan[k] == a;
    assert es[k] == (a, 0) && es[k] in es;
    var (truths, ops) := (Truths(h, ss), OperatorIds(h.p, es));
    hide Encodable, TaskOf, RunPlan, EventRun, OperatorsOf, OperatorAt, R.Pre, R.Value, Truths, B.IsRun, R.Solution;
    OperatorIdAt(h.p, es, k);
    B.AppliedIsReached(t, R.Value(t), truths, ops, k);
  }

  /** Relaxed reachability reaches every action that occurs in a plan. */
  lemma PlansAreReached(p: Classical, doms: Domains, t: R.Task, plan: seq<nat>, a: nat)
    requires Encodable(ReachabilitySource(p, doms))
    requires TaskOf(ReachabilitySource(p, doms), Full(AsTemporal(p), AtRest(p.init))) == Some(t)
    requires RunPlan(p, p.init, plan).Some? && a in plan
    ensures |t.ops| == |OperatorsOf(AsTemporal(p), 0)| + 1 && IsReached(OperatorsOf(AsTemporal(p), 0), t, a)
  {
    var (h, s0, operators) := (ReachabilitySource(p, doms), Full(AsTemporal(p), AtRest(p.init)), OperatorsOf(AsTemporal(p), 0));
    PlanReachesOperator(p, doms, t, plan, a);
    TaskShape(h, s0, t);
    var q := OperatorAt(h.p, (a, 0));
    assert T.WellFormed(h.p);
    hide *;
    forall o: nat | o < |operators| && operators[o].0 == a ensures R.Pre(t, o, R.Value(t)).Fin? {
      OnlyEvent(p, o);
      SameEventSamePre(h, s0, t, o, q);
    }
    IsReachedBy(operators, t, a, q);
  }

  lemma IsReachedBy(es: seq<T.EventId>, t: R.Task, a: nat, q: nat)
    requires |t.ops| == |es| + 1 && q < |es| && es[q].0 == a
    requires forall o: nat | o < |es| && es[o].0 == a :: R.Pre(t, o, R.Value(t)).Fin?
    ensures IsReached(es, t, a)
  {
    hide R.Pre, R.Value;
  }

  lemma OnlyEvent(p: Classical, o: nat)
    requires o < |OperatorsOf(AsTemporal(p), 0)|
    ensures OperatorsOf(AsTemporal(p), 0)[o] == (OperatorsOf(AsTemporal(p), 0)[o].0, 0)
  {
    var e := OperatorsOf(AsTemporal(p), 0)[o];
    assert e in OperatorsOf(AsTemporal(p), 0) && T.IsEvent(AsTemporal(p), e);
  }

  /** `_compute_relevant_actions`: the least set closed backward from the goal among the
      actions reached; dropping the others from any plan leaves a plan.  None when relaxed
      reachability raises in the initial state. */
  method ComputeRelevantActions(p: Classical, doms: Domains)
    returns (relevant: Option<set<nat>>, ghost reachable: set<nat>, ghost fls: set<nat>)
    requires Encodable(ReachabilitySource(p, doms))
    ensures relevant.None? <==> TaskOf(ReachabilitySource(p, doms), Full(AsTemporal(p), AtRest(p.init))).None?
    ensures relevant.Some? ==> forall plan | Solves(p, plan) :: Solves(p, Kept(plan, relevant.value))
    ensures relevant.Some? ==>
              var t := TaskOf(ReachabilitySource(p, doms), Full(AsTemporal(p), AtRest(p.init))).value;
              && |t.ops| == |OperatorsOf(AsTemporal(p), 0)| + 1
              && forall a :: a in reachable <==> IsReached(OperatorsOf(AsTemporal(p), 0), t, a)
    ensures relevant.Some? ==> forall a :: a in reachable <==> CanApply(p, doms, a)
    ensures relevant.Some? ==> relevant.value <= reachable && Backward(p, reachable, relevant.value, fls)
    ensures relevant.Some? ==> forall other, more | Backward(p, reachable, other, more) :: relevant.value <= other
  {
    reachable, fls := {}, {};
    var h := ReachabilitySource(p, doms);
    var heuristic := new DeleteRelaxationHeuristic(h);
    var reached := heuristic.ReachableActions(AtRest(p.init));
    if reached.None? {
      return None, reachable, fls;
    }
    reachable := reached.value;
    forall a: nat ensures a in reachable <==> CanApply(p, doms, a) {
      ApplicableExact(p, doms, a);
    }
    ghost var t := TaskOf(h, Full(h.p, AtRest(p.init))).value;
    ReachedIsSafe(p, doms, t, reached.value);
    var actions;
    actions, fls := WalkBackward(p, reached.value);
    relevant := Some(actions);
  }

  lemma ReachedIsSafe(p: Classical, doms: Domains, t: R.Task, reachable: set<nat>)
    requires Encodable(ReachabilitySource(p, doms))
    requires TaskOf(ReachabilitySource(p, doms), Full(AsTemporal(p), AtRest(p.init))) == Some(t)
    requires |t.ops| == |OperatorsOf(AsTemporal(p), 0)| + 1
    requires forall a :: a in reachable <==> IsReached(OperatorsOf(AsTemporal(p), 0), t, a)
    ensures SafeReachability(p, reachable) && forall a | a in reachable :: a < |p.acts|
  {
    hide Encodable, TaskOf, RunPlan, OperatorsOf, R.Pre, R.Value;
    forall plan, a | RunPlan(p, p.init, plan).Some? && a in plan ensures a in reachable {
      PlansAreReached(p, doms, t, plan, a);
    }
    var operators := OperatorsOf(AsTemporal(p), 0);
    forall a | a in reachable ensures a < |p.acts| {
      var o :| 0 <= o < |operators| && operators[o].0 == a;
      assert operators[o] in operators && T.IsEvent(AsTemporal(p), operators[o]);
    }
  }
}
