/**
 The delete relaxation that `DeleteRelaxationHeuristic::new` makes of a planning
 problem and `init_condition_costs` of a state: one operator per event, one condition
 per distinct leaf, and the goal as a pseudo-operator.
*/
module RelaxedTasks {
  import opened Collections
  import opened Options
  import opened Expr
  import opened Temporal
  import opened LinearPolynomials
  import opened HeuristicConditions
  import opened RelaxedRuns
  import C = Costs
  import CE = CostExpressions
  import R = Relaxation

  datatype Kind = HMax | HAdd | HFF

  datatype Config = Config(kind: Kind, inadmissible: bool, disableNumeric: bool)

  /** What the heuristic is built from. */
  datatype Source = Source(p: Problem, doms: Domains, cfg: Config)

  function Size(p: Problem): (n: nat)
    ensures n >= |p.init|
  {
    OffsetGrows(p, 0, |p.actions|);
    Offset(p, |p.actions|)
  }

  /** The extra fluents are boolean. */
  function AllDomains(h: Source): Domains {
    h.doms + seq(Size(h.p) - |h.p.init|, i => BoolDomain)
  }

  // ---- conditions ----

  function NotTrue(es: seq<Expr>): seq<Expr> {
    if es == [] then [] else (if es[0] == Const(TRUE) then [] else [es[0]]) + NotTrue(es[1..])
  }

  /** `build_operator_condition`, before its simplification. */
  function Precondition(p: Problem, e: EventId): Expr
    requires IsEvent(p, e)
  {
    var operands := NotTrue(EventConditions(EventOf(p, e))) + [Fluent(Extra(p, Previous(p, e)))];
    if |operands| == 1 then operands[0] else And(operands)
  }

  function Prepared(h: Source, e: Expr): Condition {
    Simplify(Convert(e), AllDomains(h), h.cfg.disableNumeric)
  }

  /** The events that get an operator: not those known false, and not the first of the
      timed action, which has fired before the search starts. */
  predicate HasOperator(p: Problem, e: EventId)
    requires IsEvent(p, e)
  {
    FALSE !in EventConditions(EventOf(p, e)) && !(e.1 == 0 && p.timed == Some(e.0))
  }

  function EventsFrom(p: Problem, a: nat, i: nat): (es: seq<EventId>)
    requires a < |p.actions| && i <= |p.actions[a].events|
    ensures forall e | e in es :: IsEvent(p, e) && HasOperator(p, e) && e.0 == a && e.1 >= i
    decreases |p.actions[a].events| - i
  {
    if i == |p.actions[a].events| then []
    else (if HasOperator(p, (a, i)) then [(a, i)] else []) + EventsFrom(p, a, i + 1)
  }

  function OperatorsOf(p: Problem, a: nat): (es: seq<EventId>)
    requires a <= |p.actions|
    ensures forall e | e in es :: IsEvent(p, e) && HasOperator(p, e) && e.0 >= a
    decreases |p.actions| - a
  {
    if a == |p.actions| then [] else EventsFrom(p, a, 0) + OperatorsOf(p, a + 1)
  }

  function OperatorConditions(h: Source): seq<Condition> {
    var es := OperatorsOf(h.p, 0);
    seq(|es|, o requires 0 <= o < |es| => Prepared(h, Precondition(h.p, es[o])))
  }

  function Goals(h: Source): Condition {
    Prepared(h, h.p.goal)
  }

  /** Every action started must complete. */
  function Completion(h: Source): Condition
    requires WellFormed(h.p)
  {
    Convert(And(ExtraGoals(h.p, 0)))
  }

  /** hff leaves completion to the actions in progress. */
  function GoalCondition(h: Source): Condition
    requires WellFormed(h.p)
  {
    if h.cfg.kind.HFF? then Goals(h) else All([Goals(h), Completion(h)])
  }

  function Conditions(h: Source): seq<Condition>
    requires WellFormed(h.p)
  {
    OperatorConditions(h) + [GoalCondition(h)]
  }

  function LeavesOf(c: Condition): seq<Expr> {
    match c
    case Leaf(e) => [e]
    case All(cs) => LeavesOfAll(cs)
    case Any(cs) => LeavesOfAll(cs)
  }

  function LeavesOfAll(cs: seq<Condition>): seq<Expr> {
    if cs == [] then [] else LeavesOf(cs[0]) + LeavesOfAll(cs[1..])
  }

  function FlagFluents(p: Problem): seq<Expr> {
    seq(Size(p) - |p.init|, i requires i >= 0 => Fluent(|p.init| + i))
  }

  /** The interned conditions, by id. */
  function Interned(h: Source): seq<Expr>
    requires WellFormed(h.p)
  {
    Distinct(LeavesOfAll(OperatorConditions(h) + [Goals(h), Completion(h)]) + FlagFluents(h.p))
  }

  function Indexed(c: Condition, leaves: seq<Expr>): C.Tree
    requires forall e | e in LeavesOf(c) :: e in leaves
    decreases c, 1
  {
    match c
    case Leaf(e) => C.Leaf(IndexOf(leaves, e))
    case All(cs) => C.And(IndexedAll(cs, leaves))
    case Any(cs) => C.Or(IndexedAll(cs, leaves))
  }

  function IndexedAll(cs: seq<Condition>, leaves: seq<Expr>): seq<C.Tree>
    requires forall e | e in LeavesOfAll(cs) :: e in leaves
    decreases cs, 0
  {
    if cs == [] then [] else [Indexed(cs[0], leaves)] + IndexedAll(cs[1..], leaves)
  }

  // ---- effects ----

  function Literal(f: nat, value: bool): Expr {
    if value then Fluent(f) else Not(Fluent(f))
  }

  function AllIs(f: nat, objects: seq<nat>): seq<Expr> {
    seq(|objects|, i requires 0 <= i < |objects| => Is(f, objects[i]))
  }

  /** The conditions an effect makes true: any of them, when its value is not fixed. */
  function EffectLeaves(eff: Effect, doms: Domains): seq<Expr> {
    if eff.fluent >= |doms| then [] else
      match doms[eff.fluent]
      case BoolDomain =>
        if eff.value.Const? && eff.value.value.BoolV? then [Literal(eff.fluent, eff.value.value.b)]
        else [Fluent(eff.fluent), Not(Fluent(eff.fluent))]
      case NumberDomain => []
      case ObjectDomain(objects) =>
        if eff.value.Const? && eff.value.value.ObjV? then [Is(eff.fluent, eff.value.value.o)]
        else AllIs(eff.fluent, objects)
  }

  function AllEffectLeaves(effects: seq<Effect>, doms: Domains): seq<Expr> {
    if effects == [] then [] else EffectLeaves(effects[0], doms) + AllEffectLeaves(effects[1..], doms)
  }

  /** The effects of an event's operator: the event has fired, and what its effects
      make true. */
  function OperatorEffects(h: Source, e: EventId): seq<Expr>
    requires IsEvent(h.p, e)
  {
    [Fluent(Extra(h.p, e))] + AllEffectLeaves(EventOf(h.p, e).effects, h.doms)
  }

  /** How an event changes the numbers. */
  function ChangesOf(effects: seq<Effect>, doms: Domains): Changes {
    if effects == [] then map[] else
      var (rest, eff) := (ChangesOf(effects[..|effects| - 1], doms), effects[|effects| - 1]);
      if eff.fluent < |doms| && doms[eff.fluent].NumberDomain? then rest[eff.fluent := ChangeOf(eff.fluent, eff.value)]
      else rest
  }

  function IdsOf(es: seq<Expr>, leaves: seq<Expr>): (ids: seq<nat>)
    ensures forall c | c in ids :: c < |leaves|
  {
    if es == [] then [] else
      (if es[0] in leaves then [IndexOf(leaves, es[0])] else []) + IdsOf(es[1..], leaves)
  }

  // ---- numeric conditions ----

  /** `simple_numeric_conds`. */
  predicate IsSimple(h: Source, e: Expr) {
    !h.cfg.disableNumeric && !HasCall(e) && IsNumericLeaf(e, AllDomains(h)) && LinearOf(e).Some?
  }

  function Largest(x: Option<real>, y: Option<real>): Option<real> {
    if x.None? || (y.Some? && y.value > x.value) then y else x
  }

  // The largest negative net effect of one operator on the conditions.
  function LargestNet(h: Source, ch: Changes, leaves: seq<Expr>): (r: Option<real>)
    ensures r.Some? ==> r.value < 0.0
  {
    if leaves == [] then None else
      var rest := LargestNet(h, ch, leaves[1..]);
      if !IsSimple(h, leaves[0]) then rest
      else Largest(rest, NegativeNet(ch, LinearOf(leaves[0]).value.weights, h.cfg.inadmissible, Size(h.p)))
  }

  function LargestNetOf(h: Source, es: seq<EventId>, leaves: seq<Expr>): (r: Option<real>)
    requires forall e | e in es :: IsEvent(h.p, e)
    ensures r.Some? ==> r.value < 0.0
  {
    if es == [] then None else
      assert forall e | e in es[1..] :: e in es;
      Largest(LargestNetOf(h, es[1..], leaves), LargestNet(h, ChangesOf(EventOf(h.p, es[0]).effects, h.doms), leaves))
  }

  function TwoTo(n: nat): (r: real)
    ensures r > 0.0
  {
    if n == 0 then 1.0 else 2.0 * TwoTo(n - 1)
  }

  /** What is added to a strict condition: half the smallest progress towards any, or
      half the largest double when there is none. */
  function Margin(h: Source, leaves: seq<Expr>): (r: real)
    ensures r > 0.0
  {
    match LargestNetOf(h, OperatorsOf(h.p, 0), leaves)
    case Some(net) => -net / 2.0
    case None => 9007199254740991.0 * TwoTo(970)
  }

  /** The left-hand side of a condition that is to be at most 0. */
  function MarginLevel(h: Source, leaves: seq<Expr>, c: Linear, s: Assignment): real {
    Weighted(c.weights, s, Size(h.p)) + c.k + if c.strict then Margin(h, leaves) else 0.0
  }

  /** The repetitions of an operator: the source unwraps them, which
      `RepetitionsPositive` allows. */
  function RepetitionsOf(h: Source, leaves: seq<Expr>, ch: Changes, c: Linear, s: Assignment): nat {
    match Repetitions(ch, c.weights, MarginLevel(h, leaves, c, s), h.cfg.inadmissible, Size(h.p))
    case Some(r) => if r > 0 then r else 0
    case None => 0
  }

  /** The simple conditions from the `i`-th on that an operator achieves. */
  function NumericFrom(h: Source, leaves: seq<Expr>, ch: Changes, s: Assignment, i: nat): (ns: seq<(nat, nat)>)
    requires i <= |leaves|
    ensures forall n | n in ns :: i <= n.0 < |leaves|
    decreases |leaves| - i
  {
    if i == |leaves| then [] else
      var rest := NumericFrom(h, leaves, ch, s, i + 1);
      if !IsSimple(h, leaves[i]) then rest else
        var c := LinearOf(leaves[i]).value;
        if Achieves(ch, c.weights, h.cfg.inadmissible, Size(h.p)) then
          [(i, RepetitionsOf(h, leaves, ch, c, s))] + rest
        else rest
  }

  // ---- the costs in a state ----

  // The conditions the cost table finds in the state.
  predicate Tabled(e: Expr) {
    match e
    case Fluent(_) => true
    case Not(Fluent(_)) => true
    case Equals(Fluent(_), Const(v)) => !v.BoolV?
    case _ => false
  }

  /** Calls and numeric conditions that are not linear are evaluated, and cost at most 1. */
  predicate IsEstimated(h: Source, e: Expr) {
    HasCall(e) || (IsNumericLeaf(e, AllDomains(h)) && !IsSimple(h, e))
  }

  /** `init_condition_costs`, for one condition; None when evaluating it raises. */
  function InitialCost(h: Source, e: Expr, s: Assignment): Option<C.Cost> {
    if IsEstimated(h, e) || IsSimple(h, e) then
      match Eval(e, s, h.p.functions)
      case None => None
      case Some(v) => Some(if v == TRUE then C.Fin(0) else if IsEstimated(h, e) then C.Fin(1) else C.Inf)
    else Some(if Tabled(e) && IsTrue(e, s, h.p.functions) then C.Fin(0) else C.Inf)
  }

  function InitialCosts(h: Source, leaves: seq<Expr>, s: Assignment): (costs: Option<seq<C.Cost>>)
    ensures costs.Some? ==> |costs.value| == |leaves|
    ensures costs.Some? ==> forall c | 0 <= c < |leaves| :: InitialCost(h, leaves[c], s) == Some(costs.value[c])
  {
    if leaves == [] then Some([]) else
      var (init, last) := (InitialCosts(h, leaves[..|leaves| - 1], s), InitialCost(h, leaves[|leaves| - 1], s));
      if init.None? || last.None? then None else Some(init.value + [last.value])
  }

  // ---- the task ----

  function ReadersFrom(cs: seq<Condition>, e: Expr, o: nat): (rs: seq<nat>)
    requires o <= |cs|
    ensures forall r :: r in rs <==> o <= r < |cs| && e in LeavesOf(cs[r])
    ensures forall i, j | 0 <= i < j < |rs| :: rs[i] < rs[j]
    decreases |cs| - o
  {
    if o == |cs| then [] else
      var rest := ReadersFrom(cs, e, o + 1);
      assert forall i | 0 <= i < |rest| :: rest[i] in rest;
      (if e in LeavesOf(cs[o]) then [o] else []) + rest
  }

  function AllReaders(cs: seq<Condition>, leaves: seq<Expr>): (readers: seq<seq<nat>>)
    ensures |readers| == |leaves|
    ensures forall c | 0 <= c < |leaves| :: readers[c] == ReadersFrom(cs, leaves[c], 0)
  {
    seq(|leaves|, c requires 0 <= c < |leaves| => ReadersFrom(cs, leaves[c], 0))
  }

  function EventOperator(h: Source, leaves: seq<Expr>, s: Assignment, e: EventId, c: Condition): R.Operator
    requires IsEvent(h.p, e) && forall x | x in LeavesOf(c) :: x in leaves
  {
    R.Operator(e.0, Indexed(c, leaves), CE.Flatten(Indexed(c, leaves)),
               IdsOf(OperatorEffects(h, e), leaves),
               NumericFrom(h, leaves, ChangesOf(EventOf(h.p, e).effects, h.doms), s, 0))
  }

  function GoalOperator(leaves: seq<Expr>, c: Condition): R.Operator
    requires forall x | x in LeavesOf(c) :: x in leaves
  {
    R.Operator(0, Indexed(c, leaves), CE.Flatten(Indexed(c, leaves)), [], [])
  }

  lemma {:induction false} LeafOfMember(cs: seq<Condition>, k: nat, x: Expr)
    requires k < |cs| && x in LeavesOf(cs[k])
    ensures x in LeavesOfAll(cs)
  {
    if k > 0 {
      LeafOfMember(cs[1..], k - 1, x);
    }
  }

  // Every leaf is interned.
  lemma InternedHas(h: Source)
    requires WellFormed(h.p)
    ensures forall o, x | 0 <= o < |Conditions(h)| && x in LeavesOf(Conditions(h)[o]) :: x in Interned(h)
    ensures forall x | x in FlagFluents(h.p) :: x in Interned(h)
  {
    var cs := OperatorConditions(h) + [Goals(h), Completion(h)];
    DistinctSame(LeavesOfAll(cs) + FlagFluents(h.p));
    hide WellFormed, OperatorConditions, Goals, Completion, FlagFluents;
    forall o, x | 0 <= o < |Conditions(h)| && x in LeavesOf(Conditions(h)[o]) ensures x in Interned(h) {
      var n := |OperatorConditions(h)|;
      if o < n {
        LeafOfMember(cs, o, x);
      } else {
        var both := [Goals(h), Completion(h)];
        assert LeavesOfAll(both) == LeavesOf(Goals(h)) + LeavesOfAll([Completion(h)]) by {
          assert both[1..] == [Completion(h)];
        }
        assert LeavesOfAll([Completion(h)]) == LeavesOf(Completion(h)) + LeavesOfAll([]) by {
          assert [Completion(h)][1..] == [];
        }
        if x in LeavesOf(Goals(h)) {
          LeafOfMember(cs, n, x);
        } else {
          LeafOfMember(cs, n + 1, x);
        }
      }
    }
  }

  function Operators(h: Source, s: Assignment): (ops: seq<R.Operator>)
    requires WellFormed(h.p)
    ensures |ops| == |OperatorsOf(h.p, 0)| + 1
  {
    InternedHas(h);
    var (es, leaves, cs) := (OperatorsOf(h.p, 0), Interned(h), Conditions(h));
    assert |cs| == |es| + 1;
    seq(|es|, o requires 0 <= o < |es| => EventOperator(h, leaves, s, es[o], cs[o])) + [GoalOperator(leaves, cs[|es|])]
  }

  /** The relaxation of the state with the values `s`, of the extra fluents too; None
      when computing its costs raises. */
  function TaskOf(h: Source, s: Assignment): Option<R.Task>
    requires WellFormed(h.p)
  {
    match InitialCosts(h, Interned(h), s)
    case None => None
    case Some(init) =>
      Some(R.Task(Operators(h, s), init, AllReaders(Conditions(h), Interned(h)), h.cfg.kind.HMax?))
  }
}
