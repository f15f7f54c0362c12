/**
 The delete relaxation in the terms of the problem: which conditions an event may make
 true, which events may fire after which, deleting nothing, and that the task made of
 the problem reaches exactly what they do.
*/
module RelaxedExact {
  import opened Collections
  import opened Options
  import opened Expr
  import opened Temporal
  import opened LinearPolynomials
  import opened NumericExact
  import opened HeuristicConditions
  import opened RelaxedRuns
  import opened GraphExact
  import opened RelaxedTasks
  import opened RelaxedLeaves
  import opened RelaxedTruth
  import opened RelaxedEvents
  import C = Costs
  import R = Relaxation
  import B = RelaxationBound
  import RR = RelaxedReach

  // ---- conditions, relaxed ----

  /** The leaf is true of the value of the fluent. */
  ghost predicate Makes(x: Expr, f: nat, v: Value) {
    || (x == Fluent(f) && v == TRUE)
    || (x == Not(Fluent(f)) && v == BoolV(false))
    || (v.ObjV? && x == Is(f, v.o))
  }

  /** A value an effect may give, which is not a number: any of the type, unless it is
      fixed. */
  ghost predicate MayGive(h: Source, eff: Effect, v: Value) {
    && eff.fluent < |h.doms| && !h.doms[eff.fluent].NumberDomain? && InDomain(h.doms[eff.fluent], v)
    && (eff.value.Const? ==> v == eff.value.value)
  }

  /** The event may make the leaf true: it is its flag, some value of an effect makes it
      true, or its changes may lower the numbers of a linear condition. */
  ghost predicate MayMake(h: Source, e: EventId, x: Expr)
    requires IsEvent(h.p, e)
  {
    || x == Fluent(Extra(h.p, e))
    || MaySet(h, EventOf(h.p, e).effects, x)
    || (IsSimple(h, x) && MayLower(ChangesOf(EventOf(h.p, e).effects, h.doms), LinearOf(x).value.weights, Size(h.p)))
  }

  ghost predicate MaySet(h: Source, effects: seq<Effect>, x: Expr) {
    exists eff, v :: eff in effects && MayGive(h, eff, v) && Makes(x, eff.fluent, v)
  }

  /** A leaf is reached at once when it holds, or is only estimated, else by an event. */
  ghost predicate MayBeTrue(h: Source, s: Assignment, es: seq<EventId>, x: Expr) {
    || IsTrue(x, s, h.p.functions) || IsEstimated(h, x)
    || exists e :: e in es && IsEvent(h.p, e) && MayMake(h, e, x)
  }

  ghost predicate MayMeet(h: Source, s: Assignment, es: seq<EventId>, c: Condition) {
    match c
    case Leaf(x) => MayBeTrue(h, s, es, x)
    case All(cs) => forall d | d in cs :: MayMeet(h, s, es, d)
    case Any(cs) => exists d :: d in cs && MayMeet(h, s, es, d)
  }

  /** An expression, looked at leaf by leaf, each as it is rewritten. */
  ghost predicate MayHold(h: Source, s: Assignment, es: seq<EventId>, e: Expr) {
    match e
    case And(ds) => forall d | d in ds :: MayHold(h, s, es, d)
    case Or(ds) => exists d :: d in ds && MayHold(h, s, es, d)
    case _ => e == Const(TRUE) || MayMeet(h, s, es, Simplify(Leaf(e), AllDomains(h), h.cfg.disableNumeric))
  }

  // ---- sequences of events, relaxed ----

  /** The event may fire after those of `es`: what it asks for, and the conditions it
      closes, may hold, and the one before it has fired.  The timed action has started
      already. */
  ghost predicate MayFire(h: Source, s: Snapshot, es: seq<EventId>, e: EventId) {
    && IsEvent(h.p, e) && !(e.1 == 0 && h.p.timed == Some(e.0))
    && MayHold(h, Full(h.p, s), es, EventOf(h.p, e).condition)
    && (forall c | c in EventOf(h.p, e).endConditions :: MayHold(h, Full(h.p, s), es, c))
    && (LastFired(h.p, s.todo, e.0) == Previous(h.p, e).1 || Previous(h.p, e) in es)
  }

  /** Events that may fire one after the other, deleting nothing. */
  ghost predicate RelaxedSequence(h: Source, s: Snapshot, es: seq<EventId>) {
    forall i | 0 <= i < |es| :: MayFire(h, s, es[..i], es[i])
  }

  /** The goal may hold after them, with every action complete (which hff leaves out). */
  ghost predicate MayEnd(h: Source, s: Snapshot, es: seq<EventId>)
    requires WellFormed(h.p)
  {
    && MayHold(h, Full(h.p, s), es, h.p.goal)
    && (h.cfg.kind.HFF? || forall a: nat | a < |h.p.actions| ::
          var last := (a, |h.p.actions[a].events| - 1);
          LastFired(h.p, s.todo, a) == last.1 || last in es)
  }

  // ---- converting and rewriting keep the leaves ----

  lemma {:induction false} ConvertedHas(es: seq<Expr>, d: Expr)
    requires d in es
    ensures Convert(d) in ConvertAll(es)
  {
    if d != es[0] {
      ConvertedHas(es[1..], d);
    }
  }

  lemma {:induction false} ConvertedFrom(es: seq<Expr>, c: Condition) returns (d: Expr)
    requires c in ConvertAll(es)
    ensures d in es && c == Convert(d)
  {
    if c == Convert(es[0]) {
      d := es[0];
    } else {
      d := ConvertedFrom(es[1..], c);
    }
  }

  lemma {:induction false} SimplifiedHas(cs: seq<Condition>, doms: Domains, off: bool, d: Condition)
    requires d in cs
    ensures Simplify(d, doms, off) in SimplifyAll(cs, doms, off)
  {
    if d != cs[0] {
      SimplifiedHas(cs[1..], doms, off, d);
    }
  }

  lemma {:induction false} SimplifiedFrom(cs: seq<Condition>, doms: Domains, off: bool, c: Condition)
    returns (d: Condition)
    requires c in SimplifyAll(cs, doms, off)
    ensures d in cs && c == Simplify(d, doms, off)
  {
    if c == Simplify(cs[0], doms, off) {
      d := cs[0];
    } else {
      d := SimplifiedFrom(cs[1..], doms, off, c);
    }
  }

  function PreparedAll(h: Source, es: seq<Expr>): seq<Condition> {
    SimplifyAll(ConvertAll(es), AllDomains(h), h.cfg.disableNumeric)
  }

  // The prepared operands of a conjunction or disjunction.
  lemma PreparedHas(h: Source, es: seq<Expr>, d: Expr)
    requires d in es
    ensures Prepared(h, d) in PreparedAll(h, es)
  {
    ConvertedHas(es, d);
    SimplifiedHas(ConvertAll(es), AllDomains(h), h.cfg.disableNumeric, Convert(d));
  }

  lemma PreparedFrom(h: Source, es: seq<Expr>, c: Condition) returns (d: Expr)
    requires c in PreparedAll(h, es)
    ensures d in es && c == Prepared(h, d)
  {
    var x := SimplifiedFrom(ConvertAll(es), AllDomains(h), h.cfg.disableNumeric, c);
    d := ConvertedFrom(es, x);
  }

  /** What is prepared of an expression may be met exactly when the expression may hold. */
  lemma {:induction false} PreparedExact(h: Source, s: Assignment, es: seq<EventId>, e: Expr)
    ensures MayMeet(h, s, es, Prepared(h, e)) <==> MayHold(h, s, es, e)
    decreases e, 1
  {
    match e
    case And(ds) =>
      assert Prepared(h, e) == All(PreparedAll(h, ds));
      PreparedEach(h, s, es, e, ds);
    case Or(ds) =>
      assert Prepared(h, e) == Any(PreparedAll(h, ds));
      PreparedEach(h, s, es, e, ds);
    case _ => PreparedLeaf(h, s, es, e);
  }

  lemma PreparedLeaf(h: Source, s: Assignment, es: seq<EventId>, e: Expr)
    requires !e.And? && !e.Or?
    ensures MayMeet(h, s, es, Prepared(h, e)) <==> MayHold(h, s, es, e)
  {
    if e == Const(TRUE) {
      assert Convert(e) == All([]);
      assert SimplifyAll([], AllDomains(h), h.cfg.disableNumeric) == [];
    } else {
      assert Convert(e) == Leaf(e);
    }
  }

  lemma {:induction false} PreparedEach(h: Source, s: Assignment, es: seq<EventId>, e: Expr, ds: seq<Expr>)
    requires forall d | d in ds :: d < e
    ensures (forall c | c in PreparedAll(h, ds) :: MayMeet(h, s, es, c)) <==> forall d | d in ds :: MayHold(h, s, es, d)
    ensures (exists c :: c in PreparedAll(h, ds) && MayMeet(h, s, es, c)) <==> exists d :: d in ds && MayHold(h, s, es, d)
    decreases e, 0
  {
    forall d | d in ds
      ensures Prepared(h, d) in PreparedAll(h, ds)
      ensures MayMeet(h, s, es, Prepared(h, d)) <==> MayHold(h, s, es, d)
    {
      PreparedExact(h, s, es, d);
      PreparedHas(h, ds, d);
    }
    hide MayMeet, MayHold, Prepared, PreparedAll;
    forall c | c in PreparedAll(h, ds) ensures exists d :: d in ds && c == Prepared(h, d) {
      var d := PreparedFrom(h, ds, c);
    }
  }

  // ---- the precondition of an operator ----

  lemma PlainFluent(h: Source, f: nat)
    ensures Simplify(Leaf(Fluent(f)), AllDomains(h), h.cfg.disableNumeric) == Leaf(Fluent(f))
    ensures !IsEstimated(h, Fluent(f)) && !IsSimple(h, Fluent(f))
  {
  }

  // No effect writes an extra fluent.
  lemma OnlyFlags(h: Source, e: EventId, d: EventId)
    requires Encodable(h) && IsEvent(h.p, e) && IsEvent(h.p, d)
    ensures MayMake(h, e, Fluent(Extra(h.p, d))) <==> e == d
  {
    var x := Fluent(Extra(h.p, d));
    PlainFluent(h, Extra(h.p, d));
    ExtraInRange(h.p, d);
    assert |h.doms| == |h.p.init|;
    assert !MaySet(h, EventOf(h.p, e).effects, x);
    if Extra(h.p, e) == Extra(h.p, d) {
      ExtraDistinct(h.p, e, d);
    }
  }

  /** The flag of an event may hold when it was the last to fire, or has fired since. */
  lemma FlagMayHold(h: Source, s: Snapshot, es: seq<EventId>, d: EventId)
    requires Encodable(h) && IsEvent(h.p, d) && |s.values| == |h.p.init|
    ensures MayHold(h, Full(h.p, s), es, Fluent(Extra(h.p, d))) <==> LastFired(h.p, s.todo, d.0) == d.1 || d in es
  {
    PlainFluent(h, Extra(h.p, d));
    FlagExact(h.p, d, s.values, s.todo);
    forall e | IsEvent(h.p, e) ensures MayMake(h, e, Fluent(Extra(h.p, d))) <==> e == d {
      OnlyFlags(h, e, d);
    }
    hide Encodable, MayMake, LastFired, IsEstimated, Extra, Extended;
  }

  lemma FalseNeverHolds(h: Source, s: Assignment, es: seq<EventId>)
    ensures !MayHold(h, s, es, FALSE)
  {
    assert !IsNumericLeaf(FALSE, AllDomains(h));
    assert Simplify(Leaf(FALSE), AllDomains(h), h.cfg.disableNumeric) == Leaf(FALSE);
    forall e | e in es && IsEvent(h.p, e) ensures !MayMake(h, e, FALSE) {
    }
  }

  lemma SplitMayHold(h: Source, s: Assignment, es: seq<EventId>, e: Expr)
    ensures MayHold(h, s, es, e) <==> forall c | c in Split(e) :: MayHold(h, s, es, c)
  {
  }

  lemma ConditionsMayHold(h: Source, s: Assignment, es: seq<EventId>, ev: Event)
    ensures (forall c | c in EventConditions(ev) :: MayHold(h, s, es, c)) <==>
              MayHold(h, s, es, ev.condition) && forall c | c in ev.endConditions :: MayHold(h, s, es, c)
  {
    SplitMayHold(h, s, es, ev.condition);
    DistinctSame(Split(ev.condition) + ev.endConditions);
    hide MayHold, Split;
    assert forall c :: c in EventConditions(ev) <==> c in Split(ev.condition) || c in ev.endConditions;
  }

  /** The precondition of an operator may hold exactly when its event may fire; and only
      events with an operator may. */
  lemma FiringExactly(h: Source, s: Snapshot, es: seq<EventId>, e: EventId)
    requires Encodable(h) && IsEvent(h.p, e) && |s.values| == |h.p.init|
    ensures MayFire(h, s, es, e) <==>
              HasOperator(h.p, e) && MayMeet(h, Full(h.p, s), es, Prepared(h, Precondition(h.p, e)))
  {
    var (x, ev, prev) := (Full(h.p, s), EventOf(h.p, e), Previous(h.p, e));
    var (cs, flag) := (EventConditions(ev), Fluent(Extra(h.p, prev)));
    var operands := NotTrue(cs) + [flag];
    PreparedExact(h, x, es, Precondition(h.p, e));
    ConditionsMayHold(h, x, es, ev);
    FlagMayHold(h, s, es, prev);
    FalseNeverHolds(h, x, es);
    NotTrueMembers(cs);
    assert MayHold(h, x, es, Const(TRUE));
    assert MayHold(h, x, es, And(operands)) <==> forall c | c in operands :: MayHold(h, x, es, c);
    assert Precondition(h.p, e) == if |operands| == 1 then operands[0] else And(operands);
    hide MayHold, MayMeet, Encodable, Full, Extra, EventConditions, NotTrue, Prepared, LastFired, Precondition;
    assert forall c :: c in operands <==> c == flag || (c in cs && c != Const(TRUE));
    assert |operands| == 1 ==> operands[0] == flag && forall c | c in operands :: c == flag;
  }

  // ---- what an operator offers ----

  /** The leaves an effect is said to make true are those that a value of it does. */
  lemma EffectLeavesExact(h: Source, eff: Effect, x: Expr)
    requires TypedEffect(h.p, eff, h.doms) && Typed(h.p.init, h.doms)
    ensures x in EffectLeaves(eff, h.doms) <==> exists v :: MayGive(h, eff, v) && Makes(x, eff.fluent, v)
  {
    var (f, dom) := (eff.fluent, h.doms[eff.fluent]);
    if eff.value.Const? {
      assert Eval(eff.value, h.p.init, h.p.functions) == Some(eff.value.value) && InDomain(dom, eff.value.value);
    }
    match dom
    case NumberDomain =>
    case BoolDomain =>
      assert MayGive(h, eff, TRUE) <==> !eff.value.Const? || eff.value.value == TRUE;
      assert MayGive(h, eff, BoolV(false)) <==> !eff.value.Const? || eff.value.value == BoolV(false);
      assert Makes(Fluent(f), f, TRUE) && Makes(Not(Fluent(f)), f, BoolV(false));
    case ObjectDomain(objects) =>
      if !eff.value.Const? {
        if x in EffectLeaves(eff, h.doms) {
          var i :| 0 <= i < |objects| && AllIs(f, objects)[i] == x;
          assert MayGive(h, eff, ObjV(objects[i])) && Makes(x, f, ObjV(objects[i]));
        }
        if v :| MayGive(h, eff, v) && Makes(x, f, v) {
          var i :| 0 <= i < |objects| && objects[i] == v.o;
          assert AllIs(f, objects)[i] == x;
        }
      } else {
        assert MayGive(h, eff, eff.value.value);
      }
  }

  lemma {:induction false} AllEffectLeavesFrom(effects: seq<Effect>, doms: Domains, x: Expr) returns (eff: Effect)
    requires x in AllEffectLeaves(effects, doms)
    ensures eff in effects && x in EffectLeaves(eff, doms)
  {
    if x in EffectLeaves(effects[0], doms) {
      eff := effects[0];
    } else {
      eff := AllEffectLeavesFrom(effects[1..], doms, x);
    }
  }

  lemma SetExact(h: Source, e: EventId, x: Expr)
    requires Encodable(h) && IsEvent(h.p, e)
    ensures x in AllEffectLeaves(EventOf(h.p, e).effects, h.doms) <==> MaySet(h, EventOf(h.p, e).effects, x)
  {
    var effects := EventOf(h.p, e).effects;
    assert NormalEvent(h, EventOf(h.p, e)) && Typed(h.p.init, h.doms);
    hide Encodable, EffectLeaves, MayGive, Makes, TypedEffect, Typed;
    if x in AllEffectLeaves(effects, h.doms) {
      var eff := AllEffectLeavesFrom(effects, h.doms, x);
      EffectLeavesExact(h, eff, x);
    }
    if MaySet(h, effects, x) {
      var eff, v :| eff in effects && MayGive(h, eff, v) && Makes(x, eff.fluent, v);
      EffectLeavesExact(h, eff, x);
      AllEffectsHave(effects, h.doms, eff, x);
    }
  }

  lemma {:induction false} IdsAre(es: seq<Expr>, leaves: seq<Expr>, k: nat)
    requires NoRepeats(leaves) && k < |leaves|
    ensures k in IdsOf(es, leaves) <==> leaves[k] in es
  {
    if es != [] {
      IdsAre(es[1..], leaves, k);
      if es[0] in leaves {
        var i := IndexOf(leaves, es[0]);
        assert leaves[i] == es[0];
      }
    }
  }

  /** A condition achieved by increases, assignments or anything else is one the event may
      lower. */
  lemma LowerExact(h: Source, e: EventId, x: Expr)
    requires Encodable(h) && IsEvent(h.p, e) && KnownLeaf(h, x) && IsSimple(h, x)
    ensures var (ch, w) := (ChangesOf(EventOf(h.p, e).effects, h.doms), LinearOf(x).value.weights);
      Achieves(ch, w, h.cfg.inadmissible, Size(h.p)) <==> MayLower(ch, w, Size(h.p))
  {
    var w := LinearOf(x).value.weights;
    WeightsCount(x);
    assert Typed(h.p.init, h.doms);
    SimpleReads(h, x);
    SimpleWeights(h, x);
    AchievesExact(ChangesOf(EventOf(h.p, e).effects, h.doms), w, h.cfg.inadmissible, Size(h.p));
  }

  lemma SimpleWeights(h: Source, x: Expr)
    requires IsSimple(h, x) && forall f | f in Fluents(x) :: f < |h.p.init|
    ensures forall f | f in LinearOf(x).value.weights :: f < Size(h.p)
  {
    var s: Assignment := seq(|h.p.init|, f => NumV(0.0));
    LinearMeans(x, s, h.p.functions);
  }

  /** What the task's operator of an event reaches: the conditions that the event may make
      true, but for those that hold already. */
  lemma ReachesExact(h: Source, s: Assignment, t: R.Task, o: nat, k: nat)
    requires Encodable(h) && TaskOf(h, s) == Some(t) && o < t.Goal() && k < |Interned(h)| == |t.init|
    requires t.init[k] != C.Fin(0)
    ensures o < |OperatorsOf(h.p, 0)| && OperatorsOf(h.p, 0)[o] in OperatorsOf(h.p, 0)
    ensures RR.Reaches(t, o, k) <==> MayMake(h, OperatorsOf(h.p, 0)[o], Interned(h)[k])
  {
    var (leaves, es) := (Interned(h), OperatorsOf(h.p, 0));
    OperatorShape(h, s, t, o);
    InternedDistinct(h);
    InternedKnown(h);
    assert es[o] in es && IsEvent(h.p, es[o]);
    assert leaves[k] in leaves && KnownLeaf(h, leaves[k]);
    hide *;
    EventReaches(h, s, t, o, es[o], leaves, k);
  }

  lemma EventReaches(h: Source, s: Assignment, t: R.Task, o: nat, e: EventId, leaves: seq<Expr>, k: nat)
    requires Encodable(h) && IsEvent(h.p, e) && o < |t.ops| && NoRepeats(leaves) && k < |leaves| == |t.init|
    requires KnownLeaf(h, leaves[k]) && t.init[k] != C.Fin(0)
    requires t.ops[o].effects == IdsOf(OperatorEffects(h, e), leaves)
    requires t.ops[o].numeric == NumericFrom(h, leaves, ChangesOf(EventOf(h.p, e).effects, h.doms), s, 0)
    ensures RR.Reaches(t, o, k) <==> MayMake(h, e, leaves[k])
  {
    var (x, ch) := (leaves[k], ChangesOf(EventOf(h.p, e).effects, h.doms));
    hide Encodable, KnownLeaf, IsSimple, MaySet, AllEffectLeaves, MayLower, ChangesOf, NumericFrom, Achieves, NoRepeats,
      OperatorEffects, IdsOf, RR.Reaches;
    IdsAre(OperatorEffects(h, e), leaves, k);
    SetExact(h, e, x);
    EffectsReach(h, t, o, e, leaves, k);
    NumericReach(h, s, t, o, ch, leaves, k);
    if IsSimple(h, x) {
      LowerExact(h, e, x);
    }
  }

  lemma EffectsReach(h: Source, t: R.Task, o: nat, e: EventId, leaves: seq<Expr>, k: nat)
    requires o < |t.ops| && k < |leaves| && IsEvent(h.p, e)
    requires t.ops[o].effects == IdsOf(OperatorEffects(h, e), leaves)
    requires k in IdsOf(OperatorEffects(h, e), leaves) <==> leaves[k] in OperatorEffects(h, e)
    ensures k in t.ops[o].effects <==>
              leaves[k] == Fluent(Extra(h.p, e)) || leaves[k] in AllEffectLeaves(EventOf(h.p, e).effects, h.doms)
  {
  }

  lemma NumericReach(h: Source, s: Assignment, t: R.Task, o: nat, ch: Changes, leaves: seq<Expr>, k: nat)
    requires o < |t.ops| && k < |leaves| == |t.init| && t.ops[o].numeric == NumericFrom(h, leaves, ch, s, 0)
    requires t.init[k] != C.Fin(0)
    ensures RR.Reaches(t, o, k) <==>
              k in t.ops[o].effects
              || (IsSimple(h, leaves[k]) && Achieves(ch, LinearOf(leaves[k]).value.weights, h.cfg.inadmissible, Size(h.p)))
  {
    hide IsSimple, Achieves, NumericFrom, RepetitionsOf;
    if RR.Reaches(t, o, k) {
      var w: nat :| R.Offers(t, o, k, w);
      if (k, w) in t.ops[o].numeric {
        NumericValid(h, leaves, ch, s, 0, (k, w));
      }
    }
    if k in t.ops[o].effects {
      assert R.Offers(t, o, k, 1);
    }
    if IsSimple(h, leaves[k]) {
      SimpleIsLinear(h, leaves[k]);
      var c := LinearOf(leaves[k]).value;
      if Achieves(ch, c.weights, h.cfg.inadmissible, Size(h.p)) {
        NumericHas(h, leaves, ch, s, 0, k);
        assert R.Offers(t, o, k, RepetitionsOf(h, leaves, ch, c, s));
      }
    }
  }

  // ---- the task's sequences are the problem's ----

  // `ops` are the operators of the events `es`.
  ghost predicate Names(h: Source, ops: seq<nat>, es: seq<EventId>) {
    && |ops| == |es|
    && forall i | 0 <= i < |ops| :: ops[i] < |OperatorsOf(h.p, 0)| && OperatorsOf(h.p, 0)[ops[i]] == es[i]
  }

  /** A condition is reached at first when it holds or is only estimated. */
  lemma InitialExact(h: Source, e: Expr, s: Assignment)
    requires KnownLeaf(h, e) && InitialCost(h, e, s).Some?
    ensures InitialCost(h, e, s).value.Fin? <==> IsTrue(e, s, h.p.functions) || IsEstimated(h, e)
    ensures InitialCost(h, e, s).value == C.Fin(0) <==> IsTrue(e, s, h.p.functions)
    ensures InitialCost(h, e, s).value.Fin? ==> InitialCost(h, e, s).value.n <= 1
  {
    InitialMeans(h, e, s);
  }

  lemma TruthExact(h: Source, s: Assignment, t: R.Task, ops: seq<nat>, es: seq<EventId>, k: nat)
    requires Encodable(h) && TaskOf(h, s) == Some(t) && Names(h, ops, es) && k < |Interned(h)|
    ensures RR.ReachedAfter(t, ops, k) <==> MayBeTrue(h, s, es, Interned(h)[k])
  {
    var (leaves, x) := (Interned(h), Interned(h)[k]);
    TaskShape(h, s, t);
    InternedKnown(h);
    assert x in leaves && KnownLeaf(h, x) && InitialCost(h, x, s) == Some(t.init[k]);
    InitialExact(h, x, s);
    hide Encodable, TaskOf, Interned, MayMake, RR.Reaches, IsTrue, IsEstimated, InitialCost, KnownLeaf, Known;
    if t.init[k] != C.Fin(0) {
      forall i | 0 <= i < |ops|
        ensures IsEvent(h.p, es[i]) && (RR.Reaches(t, ops[i], k) <==> MayMake(h, es[i], x))
      {
        ReachesExact(h, s, t, ops[i], k);
      }
      ReachedByNames(h, t, ops, es, k, x);
    }
  }

  lemma ReachedByNames(h: Source, t: R.Task, ops: seq<nat>, es: seq<EventId>, k: nat, x: Expr)
    requires |ops| == |es|
    requires forall i | 0 <= i < |ops| ::
               IsEvent(h.p, es[i]) && (RR.Reaches(t, ops[i], k) <==> MayMake(h, es[i], x))
    ensures (exists o :: o in ops && RR.Reaches(t, o, k)) <==>
              exists e :: e in es && IsEvent(h.p, e) && MayMake(h, e, x)
  {
    hide RR.Reaches, MayMake;
    if o: nat :| o in ops && RR.Reaches(t, o, k) {
      var i :| 0 <= i < |ops| && ops[i] == o;
      assert es[i] in es;
    }
    if e :| e in es && IsEvent(h.p, e) && MayMake(h, e, x) {
      var i :| 0 <= i < |es| && es[i] == e;
      assert ops[i] in ops;
    }
  }

  lemma {:induction false} MeetExact(h: Source, s: Assignment, t: R.Task, ops: seq<nat>, es: seq<EventId>, c: Condition)
    requires Encodable(h) && TaskOf(h, s) == Some(t) && Names(h, ops, es)
    requires forall x | x in LeavesOf(c) :: x in Interned(h)
    ensures B.TrueIn(Indexed(c, Interned(h)), RR.After(t, ops)) <==> MayMeet(h, s, es, c)
    decreases c, 1
  {
    assert WellFormed(h.p);
    hide Encodable, TaskOf, Interned, Names, MayBeTrue, RR.ReachedAfter, WellFormed;
    match c
    case Leaf(x) =>
      assert x in LeavesOf(c);
      var k := IndexOf(Interned(h), x);
      TruthExact(h, s, t, ops, es, k);
      assert k in RR.After(t, ops) <==> RR.ReachedAfter(t, ops, k) by {
        assert |t.init| == |Interned(h)| by { SizeOf(h, s, t); }
      }
    case All(cs) => MeetAllExact(h, s, t, ops, es, cs);
    case Any(cs) => MeetAllExact(h, s, t, ops, es, cs);
  }

  lemma SizeOf(h: Source, s: Assignment, t: R.Task)
    requires Encodable(h) && TaskOf(h, s) == Some(t)
    ensures |t.init| == |Interned(h)|
  {
    TaskShape(h, s, t);
  }

  lemma {:induction false} MeetAllExact(
    h: Source, s: Assignment, t: R.Task, ops: seq<nat>, es: seq<EventId>, cs: seq<Condition>)
    requires Encodable(h) && TaskOf(h, s) == Some(t) && Names(h, ops, es)
    requires forall x | x in LeavesOfAll(cs) :: x in Interned(h)
    ensures B.AllTrue(IndexedAll(cs, Interned(h)), RR.After(t, ops)) <==> forall d | d in cs :: MayMeet(h, s, es, d)
    ensures B.AnyTrue(IndexedAll(cs, Interned(h)), RR.After(t, ops)) <==> exists d :: d in cs && MayMeet(h, s, es, d)
    decreases cs, 0
  {
    if cs != [] {
      hide Encodable, TaskOf, Interned, Names, MayMeet;
      MeetExact(h, s, t, ops, es, cs[0]);
      MeetAllExact(h, s, t, ops, es, cs[1..]);
      var (tree, rest) := (Indexed(cs[0], Interned(h)), IndexedAll(cs[1..], Interned(h)));
      assert ([tree] + rest)[1..] == rest;
      assert forall d :: d in cs <==> d == cs[0] || d in cs[1..];
    }
  }

  lemma NamesPrefix(h: Source, ops: seq<nat>, es: seq<EventId>, k: nat)
    requires Names(h, ops, es) && k <= |ops|
    ensures Names(h, ops[..k], es[..k])
  {
  }

  /** The precondition of an operator is true after a sequence exactly when its event may
      fire after the sequence's events. */
  lemma OperatorAfter(h: Source, s: Snapshot, t: R.Task, ops: seq<nat>, es: seq<EventId>, o: nat)
    requires Encodable(h) && |s.values| == |h.p.init| && TaskOf(h, Full(h.p, s)) == Some(t) && Names(h, ops, es)
    requires o < t.Goal()
    ensures o < |OperatorsOf(h.p, 0)| && OperatorsOf(h.p, 0)[o] in OperatorsOf(h.p, 0)
    ensures B.TrueIn(t.ops[o].pre, RR.After(t, ops)) <==> MayFire(h, s, es, OperatorsOf(h.p, 0)[o])
  {
    var x := Full(h.p, s);
    OperatorShape(h, x, t, o);
    var e := OperatorsOf(h.p, 0)[o];
    assert e in OperatorsOf(h.p, 0) && IsEvent(h.p, e) && HasOperator(h.p, e);
    assert Conditions(h)[o] == Prepared(h, Precondition(h.p, e));
    hide *;
    MeetExact(h, x, t, ops, es, Conditions(h)[o]);
    FiringExactly(h, s, es, e);
  }

  lemma SequenceExact(h: Source, s: Snapshot, t: R.Task, ops: seq<nat>, es: seq<EventId>)
    requires Encodable(h) && |s.values| == |h.p.init| && TaskOf(h, Full(h.p, s)) == Some(t) && Names(h, ops, es)
    ensures RR.Sequence(t, ops) <==> RelaxedSequence(h, s, es)
  {
    assert t.Goal() == |OperatorsOf(h.p, 0)| by { TaskShape(h, Full(h.p, s), t); }
    hide Encodable, TaskOf, OperatorsOf, MayFire, B.TrueIn, RR.After;
    forall i | 0 <= i < |ops|
      ensures ops[i] < t.Goal()
      ensures B.TrueIn(t.ops[ops[i]].pre, RR.After(t, ops[..i])) <==> MayFire(h, s, es[..i], es[i])
    {
      NamesPrefix(h, ops, es, i);
      OperatorAfter(h, s, t, ops[..i], es[..i], ops[i]);
    }
  }

  // The events of the operators ...
  lemma EventsOf(h: Source, t: R.Task, ops: seq<nat>) returns (es: seq<EventId>)
    requires t.Goal() == |OperatorsOf(h.p, 0)| && forall i | 0 <= i < |ops| :: ops[i] < t.Goal()
    ensures Names(h, ops, es)
  {
    es := seq(|ops|, i requires 0 <= i < |ops| => OperatorsOf(h.p, 0)[ops[i]]);
  }

  // ... and the operators of events that may fire.
  lemma OperatorsFor(h: Source, s: Snapshot, es: seq<EventId>) returns (ops: seq<nat>)
    requires Encodable(h) && |s.values| == |h.p.init| && RelaxedSequence(h, s, es)
    ensures Names(h, ops, es)
  {
    hide Encodable, OperatorsOf, HasOperator, MayMeet;
    forall i | 0 <= i < |es| ensures es[i] in OperatorsOf(h.p, 0) {
      assert MayFire(h, s, es[..i], es[i]);
      FiringExactly(h, s, es[..i], es[i]);
      OperatorsHave(h.p, 0, es[i]);
    }
    hide MayFire;
    ops := seq(|es|, i requires 0 <= i < |es| => OperatorAt(h.p, es[i]));
  }

  // ---- the goal ----

  lemma CompletionExact(h: Source, s: Snapshot, es: seq<EventId>)
    requires Encodable(h) && |s.values| == |h.p.init|
    ensures MayMeet(h, Full(h.p, s), es, Completion(h)) <==> forall a: nat | a < |h.p.actions| ::
              LastFired(h.p, s.todo, a) == |h.p.actions[a].events| - 1 || (a, |h.p.actions[a].events| - 1) in es
  {
    var (x, p, goals) := (Full(h.p, s), h.p, ExtraGoals(h.p, 0));
    assert WellFormed(p);
    hide *;
    CompletionIs(h, x, es);
    if MayMeet(h, x, es, Completion(h)) {
      forall a: nat | a < |p.actions|
        ensures LastFired(p, s.todo, a) == |p.actions[a].events| - 1 || (a, |p.actions[a].events| - 1) in es
      {
        LastFlagMeets(h, s, es, a);
        ConvertedHas(goals, LastFlag(p, a));
      }
    } else {
      var c :| c in ConvertAll(goals) && !MayMeet(h, x, es, c);
      var d := ConvertedFrom(goals, c);
      var a := GoalIsFlag(p, d);
      LastFlagMeets(h, s, es, a);
    }
  }

  lemma GoalIsFlag(p: Problem, d: Expr) returns (a: nat)
    requires WellFormed(p) && d in ExtraGoals(p, 0)
    ensures a < |p.actions| && d == LastFlag(p, a)
  {
    ExtraGoalsAre(p, 0, d);
    a :| a < |p.actions| && d == Fluent(Extra(p, (a, |p.actions[a].events| - 1)));
  }

  function LastFlag(p: Problem, a: nat): Expr
    requires WellFormed(p) && a < |p.actions|
  {
    Fluent(Extra(p, (a, |p.actions[a].events| - 1)))
  }

  lemma LastFlagMeets(h: Source, s: Snapshot, es: seq<EventId>, a: nat)
    requires Encodable(h) && |s.values| == |h.p.init| && a < |h.p.actions|
    ensures LastFlag(h.p, a) in ExtraGoals(h.p, 0)
    ensures MayMeet(h, Full(h.p, s), es, Convert(LastFlag(h.p, a))) <==>
              LastFired(h.p, s.todo, a) == |h.p.actions[a].events| - 1 || (a, |h.p.actions[a].events| - 1) in es
  {
    var flag := LastFlag(h.p, a);
    assert WellFormed(h.p);
    ExtraGoalsAre(h.p, 0, flag);
    PlainFluent(h, flag.f);
    FlagMayHold(h, s, es, (a, |h.p.actions[a].events| - 1));
    hide Encodable, LastFired, Full, Extra, WellFormed, ExtraGoals, MayBeTrue;
  }

  lemma CompletionIs(h: Source, x: Assignment, es: seq<EventId>)
    requires WellFormed(h.p)
    ensures MayMeet(h, x, es, Completion(h)) <==> forall c | c in ConvertAll(ExtraGoals(h.p, 0)) :: MayMeet(h, x, es, c)
  {
  }

  lemma GoalMeets(h: Source, s: Snapshot, es: seq<EventId>)
    requires Encodable(h) && |s.values| == |h.p.init|
    ensures MayMeet(h, Full(h.p, s), es, GoalCondition(h)) <==> MayEnd(h, s, es)
  {
    PreparedExact(h, Full(h.p, s), es, h.p.goal);
    CompletionExact(h, s, es);
    assert WellFormed(h.p);
    var both := [Goals(h), Completion(h)];
    assert forall c :: c in both <==> c == Goals(h) || c == Completion(h);
    assert !h.cfg.kind.HFF? ==> GoalCondition(h) == All(both);
    assert h.cfg.kind.HFF? ==> GoalCondition(h) == Goals(h);
    hide MayHold, Prepared, Completion, Encodable, WellFormed, LastFired, Full;
  }

  /** The goal of the task is true after a sequence exactly when the goal may hold after
      the sequence's events. */
  lemma GoalAfter(h: Source, s: Snapshot, t: R.Task, ops: seq<nat>, es: seq<EventId>)
    requires Encodable(h) && |s.values| == |h.p.init| && TaskOf(h, Full(h.p, s)) == Some(t) && Names(h, ops, es)
    ensures t.ops != [] && WellFormed(h.p)
    ensures B.TrueIn(t.ops[t.Goal()].pre, RR.After(t, ops)) <==> MayEnd(h, s, es)
  {
    var x := Full(h.p, s);
    assert WellFormed(h.p);
    TaskShape(h, x, t);
    OperatorShape(h, x, t, t.Goal());
    assert Conditions(h)[t.Goal()] == GoalCondition(h);
    hide *;
    MeetExact(h, x, t, ops, es, Conditions(h)[t.Goal()]);
    GoalMeets(h, s, es);
  }

  // ---- what is reached ----

  /** Some sequence of events lets the event fire. */
  ghost predicate CanFireSometime(h: Source, s: Snapshot, e: EventId) {
    exists es :: RelaxedSequence(h, s, es) && MayFire(h, s, es, e)
  }

  /** Some sequence of events reaches the goal. */
  ghost predicate CanEnd(h: Source, s: Snapshot)
    requires WellFormed(h.p)
  {
    exists es :: RelaxedSequence(h, s, es) && MayEnd(h, s, es)
  }

  /** An operator costs something finite exactly when its event can fire sometime. */
  lemma OperatorExactly(h: Source, s: Snapshot, t: R.Task, v: seq<C.Cost>, o: nat)
    requires Encodable(h) && Typed(s.values, h.doms) && TaskOf(h, Full(h.p, s)) == Some(t) && R.Solution(t, v)
    requires o < t.Goal()
    ensures o < |OperatorsOf(h.p, 0)| && OperatorsOf(h.p, 0)[o] in OperatorsOf(h.p, 0)
    ensures R.Pre(t, o, v).Fin? <==> CanFireSometime(h, s, OperatorsOf(h.p, 0)[o])
  {
    assert Typed(h.p.init, h.doms);
    FullTyped(h, s);
    TaskValid(h, Full(h.p, s), t);
    TaskShape(h, Full(h.p, s), t);
    var e := OperatorsOf(h.p, 0)[o];
    hide *;
    RR.FiniteIsReached(t, v, o);
    if R.Pre(t, o, v).Fin? {
      OperatorFires(h, s, t, o);
    }
    if CanFireSometime(h, s, e) {
      EventReached(h, s, t, o);
    }
  }

  lemma OperatorFires(h: Source, s: Snapshot, t: R.Task, o: nat)
    requires Encodable(h) && |s.values| == |h.p.init| && TaskOf(h, Full(h.p, s)) == Some(t) && o < t.Goal()
    requires t.Goal() == |OperatorsOf(h.p, 0)|
    requires exists ops :: RR.Sequence(t, ops) && B.TrueIn(t.ops[o].pre, RR.After(t, ops))
    ensures CanFireSometime(h, s, OperatorsOf(h.p, 0)[o])
  {
    var ops :| RR.Sequence(t, ops) && B.TrueIn(t.ops[o].pre, RR.After(t, ops));
    hide Encodable, TaskOf, OperatorsOf, MayFire, B.TrueIn, RR.After, RelaxedSequence, Names;
    var es := EventsOf(h, t, ops);
    SequenceExact(h, s, t, ops, es);
    OperatorAfter(h, s, t, ops, es, o);
  }

  lemma EventReached(h: Source, s: Snapshot, t: R.Task, o: nat)
    requires Encodable(h) && |s.values| == |h.p.init| && TaskOf(h, Full(h.p, s)) == Some(t) && o < t.Goal()
    requires t.Goal() == |OperatorsOf(h.p, 0)| && CanFireSometime(h, s, OperatorsOf(h.p, 0)[o])
    ensures exists ops :: RR.Sequence(t, ops) && B.TrueIn(t.ops[o].pre, RR.After(t, ops))
  {
    var es :| RelaxedSequence(h, s, es) && MayFire(h, s, es, OperatorsOf(h.p, 0)[o]);
    hide Encodable, TaskOf, OperatorsOf, MayFire, B.TrueIn, RR.After, RelaxedSequence, Names, RR.Sequence;
    var ops := OperatorsFor(h, s, es);
    SequenceExact(h, s, t, ops, es);
    OperatorAfter(h, s, t, ops, es, o);
  }

  /** The goal costs something finite exactly when some sequence of events reaches it. */
  lemma GoalExactly(h: Source, s: Snapshot, t: R.Task, v: seq<C.Cost>)
    requires Encodable(h) && Typed(s.values, h.doms) && TaskOf(h, Full(h.p, s)) == Some(t) && R.Solution(t, v)
    ensures t.ops != [] && WellFormed(h.p)
    ensures R.Pre(t, t.Goal(), v).Fin? <==> CanEnd(h, s)
  {
    assert Typed(h.p.init, h.doms) && WellFormed(h.p);
    FullTyped(h, s);
    TaskValid(h, Full(h.p, s), t);
    TaskShape(h, Full(h.p, s), t);
    hide Encodable, TaskOf, OperatorsOf, MayEnd, B.TrueIn, RR.After, RelaxedSequence, Names, RR.Sequence, R.ValidTask,
      R.Solution, R.Pre, WellFormed, Typed;
    RR.FiniteIsReached(t, v, t.Goal());
    if R.Pre(t, t.Goal(), v).Fin? {
      var ops :| RR.Sequence(t, ops) && B.TrueIn(t.ops[t.Goal()].pre, RR.After(t, ops));
      OperatorsBelow(t, ops);
      var es := EventsOf(h, t, ops);
      SequenceExact(h, s, t, ops, es);
      GoalAfter(h, s, t, ops, es);
    }
    if CanEnd(h, s) {
      var es :| RelaxedSequence(h, s, es) && MayEnd(h, s, es);
      var ops := OperatorsFor(h, s, es);
      SequenceExact(h, s, t, ops, es);
      GoalAfter(h, s, t, ops, es);
    }
  }

  lemma OperatorsBelow(t: R.Task, ops: seq<nat>)
    requires RR.Sequence(t, ops)
    ensures forall i | 0 <= i < |ops| :: ops[i] < t.Goal()
  {
  }

  // ---- preconditions in a state ----

  lemma {:induction false} AllDefined(es: seq<Expr>, s: Assignment, fs: Functions)
    requires forall e | e in es :: Eval(e, s, fs).Some?
    ensures EvalAll(es, s, fs).Some?
  {
    if es != [] {
      assert es[0] in es && forall e | e in es[1..] :: e in es;
      AllDefined(es[1..], s, fs);
    }
  }

  lemma SplitDefined(e: Expr, s: Assignment, fs: Functions, c: Expr)
    requires Eval(e, s, fs).Some? && c in Split(e)
    ensures Eval(c, s, fs).Some?
  {
    if e.And? {
      var k :| 0 <= k < |e.args| && e.args[k] == c;
      EvalAllMember(e.args, k, s, fs);
    }
  }

  /** What is prepared of an expression is met in a state exactly when it is true there. */
  lemma PreparedMeans(h: Source, e: Expr, x: Assignment)
    requires NormalCondition(Convert(e), AllDomains(h)) && Typed(x, AllDomains(h))
    requires Eval(e, x, h.p.functions).Some?
    ensures Meets(Prepared(h, e), x, h.p.functions) <==> IsTrue(e, x, h.p.functions)
  {
    ConvertMeans(e, x, h.p.functions);
    SimplifyMeans(Convert(e), AllDomains(h), h.cfg.disableNumeric, x, h.p.functions);
  }

  // The conditions of the event evaluate.
  ghost predicate Evaluates(p: Problem, ev: Event, s: Assignment) {
    && Eval(ev.condition, s, p.functions).Some?
    && forall c | c in ev.endConditions :: Eval(c, s, p.functions).Some?
  }

  lemma OperandsDefined(h: Source, s: Snapshot, e: EventId)
    requires Encodable(h) && IsEvent(h.p, e) && |s.values| == |h.p.init| && Evaluates(h.p, EventOf(h.p, e), s.values)
    ensures forall c | c in EventConditions(EventOf(h.p, e)) ::
              && Eval(c, s.values, h.p.functions).Some?
              && Eval(c, Full(h.p, s), h.p.functions) == Eval(c, s.values, h.p.functions)
  {
    var ev := EventOf(h.p, e);
    DistinctSame(Split(ev.condition) + ev.endConditions);
    OperandsNormal(h, e);
    forall c | c in EventConditions(ev)
      ensures Eval(c, s.values, h.p.functions).Some?
      ensures Eval(c, Full(h.p, s), h.p.functions) == Eval(c, s.values, h.p.functions)
    {
      if c in Split(ev.condition) {
        SplitDefined(ev.condition, s.values, h.p.functions, c);
      }
      FullEvaluates(h.p, s, c);
    }
  }

  /** In a state where its conditions evaluate, the precondition of an operator is met
      exactly when the event's condition and those it closes hold and the event is next
      after the last one fired. */
  lemma PreconditionExact(h: Source, s: Snapshot, e: EventId)
    requires Encodable(h) && IsEvent(h.p, e) && Typed(s.values, h.doms) && Evaluates(h.p, EventOf(h.p, e), s.values)
    ensures Meets(Prepared(h, Precondition(h.p, e)), Full(h.p, s), h.p.functions) <==>
              && Holds(h.p, EventOf(h.p, e).condition, s.values)
              && (forall c | c in EventOf(h.p, e).endConditions :: Holds(h.p, c, s.values))
              && LastFired(h.p, s.todo, e.0) == Previous(h.p, e).1
  {
    var (p, x, ev) := (h.p, Full(h.p, s), EventOf(h.p, e));
    var (cs, flag) := (EventConditions(ev), Fluent(Extra(p, Previous(p, e))));
    var operands := NotTrue(cs) + [flag];
    assert Typed(p.init, h.doms);
    FullTyped(h, s);
    PreconditionNormal(h, e);
    OperandsDefined(h, s, e);
    ConditionsExact(p, ev, s.values);
    FlagExact(p, Previous(p, e), s.values, s.todo);
    NotTrueMembers(cs);
    FullFlag(p, s, Previous(p, e));
    assert Precondition(p, e) == if |operands| == 1 then operands[0] else And(operands);
    hide Encodable, NormalCondition, Prepared, Precondition, EventConditions, NotTrue, Extra, LastFired, Evaluates, Full,
      Typed, Meets, Convert, AllDomains;
    OperandsTrue(p, operands, x);
    PreparedMeans(h, Precondition(p, e), x);
    assert forall c :: c in operands <==> c == flag || (c in cs && c != Const(TRUE));
    assert |operands| == 1 ==> operands[0] == flag && forall c | c in operands :: c == flag;
  }

  lemma OperandsTrue(p: Problem, es: seq<Expr>, x: Assignment)
    requires forall c | c in es :: Eval(c, x, p.functions).Some?
    ensures Eval(And(es), x, p.functions).Some?
    ensures IsTrue(And(es), x, p.functions) <==> forall c | c in es :: IsTrue(c, x, p.functions)
  {
    AllDefined(es, x, p.functions);
    SplitExact(p, And(es), x);
  }

  /** The repetitions of an operator are the fewest that bring a linear condition below its
      margin when the changes are increases, and one otherwise. */
  lemma RepetitionsOfExact(h: Source, leaves: seq<Expr>, ch: Changes, c: Linear, s: Assignment)
    requires Achieves(ch, c.weights, h.cfg.inadmissible, Size(h.p)) && MarginLevel(h, leaves, c, s) > 0.0
    ensures var (m, net) := (RepetitionsOf(h, leaves, ch, c, s), NetEffect(ch, c.weights, h.cfg.inadmissible, Size(h.p)));
      if net < 0.0 && !(HasAssignOrComplex(ch, c.weights) && !h.cfg.inadmissible) then
        && MarginLevel(h, leaves, c, s) + Mul(m as real, net) <= 0.0
        && 0.0 < MarginLevel(h, leaves, c, s) + Mul((m - 1) as real, net)
      else m == 1
  {
    RepetitionsAreSome(h, leaves, ch, c, s);
    RepetitionsExact(ch, c.weights, MarginLevel(h, leaves, c, s), h.cfg.inadmissible, Size(h.p));
  }

  lemma {:induction false} NotTrueOnce(es: seq<Expr>)
    requires forall i, j | 0 <= i < j < |es| :: es[i] != es[j]
    ensures forall i, j | 0 <= i < j < |NotTrue(es)| :: NotTrue(es)[i] != NotTrue(es)[j]
  {
    if es != [] {
      NotTrueOnce(es[1..]);
      NotTrueMembers(es[1..]);
      var rest := NotTrue(es[1..]);
      assert forall k | 0 <= k < |rest| :: rest[k] in es[1..];
      assert es[0] !in es[1..];
    }
  }

  /** The precondition asks once for each condition of the event, and for its flag: hadd
      adds up their costs. */
  lemma OperandsOnce(h: Source, e: EventId) returns (operands: seq<Expr>)
    requires Encodable(h) && IsEvent(h.p, e)
    ensures Precondition(h.p, e) == if |operands| == 1 then operands[0] else And(operands)
    ensures forall i, j | 0 <= i < j < |operands| :: operands[i] != operands[j]
    ensures forall c :: c in operands <==>
              || c == Fluent(Extra(h.p, Previous(h.p, e)))
              || (c != Const(TRUE)
                  && (c in Split(EventOf(h.p, e).condition) || c in EventOf(h.p, e).endConditions))
  {
    var (ev, flag) := (EventOf(h.p, e), Fluent(Extra(h.p, Previous(h.p, e))));
    var cs := EventConditions(ev);
    operands := NotTrue(cs) + [flag];
    DistinctSame(Split(ev.condition) + ev.endConditions);
    NotTrueMembers(cs);
    NotTrueOnce(cs);
    OperandsNormal(h, e);
    ExtraInRange(h.p, Previous(h.p, e));
    assert flag !in cs by {
      assert Fluents(flag) == {flag.f};
    }
  }

  // The two sides of a comparison, or of its negation.
  predicate Compares(e: Expr, l: Expr, r: Expr) {
    Negated(e) == Le(l, r) || Negated(e) == Lt(l, r) || Negated(e) == Equals(l, r)
  }

  /** Comparisons of affine expressions are rewritten to linear conditions only. */
  lemma ComparisonsAreSimple(h: Source, e: Expr, l: Expr, r: Expr)
    requires !h.cfg.disableNumeric && !HasCall(e) && IsNumericLeaf(e, AllDomains(h)) && Compares(e, l, r)
    requires Affine(l, h.p.functions) && Affine(r, h.p.functions)
    ensures forall x | x in LeavesOf(Simplify(Leaf(e), AllDomains(h), h.cfg.disableNumeric)) :: IsSimple(h, x)
  {
    var fs := h.p.functions;
    AffineIsLinear(Minus(l, r), fs);
    AffineIsLinear(Minus(r, l), fs);
    ComparisonIsLinear(l, r, fs);
    ComparisonIsLinear(r, l, fs);
    assert IsSimple(h, Le(l, r)) && IsSimple(h, Le(r, l)) && IsSimple(h, Lt(l, r)) && IsSimple(h, Lt(r, l));
    hide IsSimple, AllDomains, Affine, ToPolynomial;
    PairOfLeaves(Leaf(Le(l, r)), Leaf(Le(r, l)));
    PairOfLeaves(Leaf(Lt(l, r)), Leaf(Lt(r, l)));
  }

  lemma PairOfLeaves(a: Condition, b: Condition)
    requires a.Leaf? && b.Leaf?
    ensures LeavesOf(All([a, b])) == [a.e, b.e] && LeavesOf(Any([a, b])) == [a.e, b.e]
  {
    LeavesOne(a);
    LeavesOne(b);
    LeavesAppend([a], [b]);
    assert [a] + [b] == [a, b] && [a.e] + [b.e] == [a.e, b.e];
  }

  // What an event's operator takes off a condition, when it lowers it by a fixed amount.
  function TakenOff(h: Source, e: EventId, x: Expr): Option<real>
    requires IsEvent(h.p, e) && IsSimple(h, x)
  {
    NegativeNet(ChangesOf(EventOf(h.p, e).effects, h.doms), LinearOf(x).value.weights, h.cfg.inadmissible, Size(h.p))
  }

  lemma {:induction false} LargestNetExact(h: Source, e: EventId, leaves: seq<Expr>)
    requires IsEvent(h.p, e)
    ensures var net := LargestNet(h, ChangesOf(EventOf(h.p, e).effects, h.doms), leaves);
      && (forall x | x in leaves && IsSimple(h, x) && TakenOff(h, e, x).Some? ::
            net.Some? && TakenOff(h, e, x).value <= net.value)
      && (net.Some? ==> exists x :: x in leaves && IsSimple(h, x) && TakenOff(h, e, x) == net)
  {
    if leaves != [] {
      LargestNetExact(h, e, leaves[1..]);
      assert forall x :: x in leaves <==> x == leaves[0] || x in leaves[1..];
      hide IsSimple, NegativeNet, ChangesOf;
    }
  }

  lemma {:induction false} LargestNetOfExact(h: Source, es: seq<EventId>, leaves: seq<Expr>)
    requires forall e | e in es :: IsEvent(h.p, e)
    ensures var net := LargestNetOf(h, es, leaves);
      && (forall e, x | e in es && x in leaves && IsSimple(h, x) && TakenOff(h, e, x).Some? ::
            net.Some? && TakenOff(h, e, x).value <= net.value)
      && (net.Some? ==> exists e, x :: e in es && x in leaves && IsSimple(h, x) && TakenOff(h, e, x) == net)
  {
    if es != [] {
      assert es[0] in es && forall e | e in es[1..] :: e in es;
      LargestNetOfExact(h, es[1..], leaves);
      LargestNetExact(h, es[0], leaves);
      assert forall e :: e in es <==> e == es[0] || e in es[1..];
      hide IsSimple, TakenOff, LargestNet;
    }
  }

  /** The margin of strict conditions is half of the smallest amount by which an operator
      lowers a condition; so what one step gains is never lost in it. */
  lemma MarginExact(h: Source, leaves: seq<Expr>)
    ensures forall e, x | e in OperatorsOf(h.p, 0) && x in leaves && IsSimple(h, x) && TakenOff(h, e, x).Some? ::
              Margin(h, leaves) <= -TakenOff(h, e, x).value / 2.0
    ensures LargestNetOf(h, OperatorsOf(h.p, 0), leaves).Some? ==> exists e, x ::
              e in OperatorsOf(h.p, 0) && x in leaves && IsSimple(h, x) && TakenOff(h, e, x).Some?
              && Margin(h, leaves) == -TakenOff(h, e, x).value / 2.0
  {
    LargestNetOfExact(h, OperatorsOf(h.p, 0), leaves);
    hide IsSimple, TakenOff, OperatorsOf;
  }
}
