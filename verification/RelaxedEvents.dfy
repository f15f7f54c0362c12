/**
 The delete relaxation against the events that really fire: a run of events is a run of
 the relaxed task.
*/
module RelaxedEvents {
  import opened Collections
  import opened Options
  import opened Expr
  import opened Temporal
  import opened LinearPolynomials
  import opened HeuristicConditions
  import opened RelaxedRuns
  import opened RelaxedTasks
  import opened RelaxedLeaves
  import opened RelaxedTruth
  import C = Costs
  import R = Relaxation
  import B = RelaxationBound

  /** What a heuristic sees of a state. */
  datatype Snapshot = Snapshot(values: Assignment, todo: map<nat, (nat, nat)>)

  function Full(p: Problem, s: Snapshot): Assignment {
    Extended(p, s.values, s.todo)
  }

  /** Event `e` fires in `s` and leads to `s'`: its conditions hold, those it closes too,
      and it follows the last event of its action. */
  ghost predicate Follows(p: Problem, s: Snapshot, e: EventId, s': Snapshot) {
    && IsEvent(p, e)
    && Holds(p, EventOf(p, e).condition, s.values)
    && (forall c | c in EventOf(p, e).endConditions :: Holds(p, c, s.values))
    && (e.1 == 0 ==> p.timed != Some(e.0))
    && Apply(p, EventOf(p, e).effects, s.values, s.values) == Some(s'.values)
    && Previous(p, e).1 == LastFired(p, s.todo, e.0)
    && LastFired(p, s'.todo, e.0) == e.1
    && forall a: nat | a < |p.actions| && a != e.0 :: LastFired(p, s'.todo, a) == LastFired(p, s.todo, a)
  }

  // ---- values ----

  lemma {:induction false} FlagsBool(p: Problem, todo: map<nat, (nat, nat)>, a: nat)
    requires a <= |p.actions|
    ensures forall v | v in Flags(p, todo, a) :: v.BoolV?
  {
    if a > 0 {
      FlagsBool(p, todo, a - 1);
    }
  }

  lemma FullTyped(h: Source, s: Snapshot)
    requires Typed(s.values, h.doms) && |h.doms| == |h.p.init|
    ensures Typed(Full(h.p, s), AllDomains(h)) && |Full(h.p, s)| == Size(h.p)
    ensures Full(h.p, s)[..|h.p.init|] == s.values
  {
    FlagsLength(h.p, s.todo, |h.p.actions|);
    FlagsBool(h.p, s.todo, |h.p.actions|);
    var (x, doms) := (Full(h.p, s), AllDomains(h));
    forall f | 0 <= f < |x| ensures InDomain(doms[f], x[f]) {
      if f >= |h.p.init| {
        assert x[f] in Flags(h.p, s.todo, |h.p.actions|);
      }
    }
  }

  lemma FullFlag(p: Problem, s: Snapshot, e: EventId)
    requires IsEvent(p, e) && |s.values| == |p.init|
    ensures Extra(p, e) < |Full(p, s)| && Full(p, s)[Extra(p, e)] == BoolV(e.1 == LastFired(p, s.todo, e.0))
  {
    FlagAt(p, s.todo, |p.actions|, e);
  }

  /** What evaluates in the state evaluates the same with the extra fluents. */
  lemma FullEvaluates(p: Problem, s: Snapshot, e: Expr)
    requires Eval(e, s.values, p.functions).Some?
    ensures Eval(e, Full(p, s), p.functions) == Eval(e, s.values, p.functions)
  {
    EvalInRange(e, s.values, p.functions);
    EvalReadsFluents(e, s.values, Full(p, s), p.functions);
  }

  lemma {:induction false} WritesMember(effects: seq<Effect>, f: nat)
    ensures f in Writes(effects) <==> exists e :: e in effects && e.fluent == f
  {
    if effects != [] {
      WritesMember(effects[1..], f);
      assert effects[0] in effects && forall e | e in effects :: e == effects[0] || e in effects[1..];
    }
  }

  /** A fluent written gets the value of one of the effects on it. */
  lemma {:induction false} AppliedWritten(p: Problem, effects: seq<Effect>, s: Assignment, acc: Assignment, f: nat)
    requires Apply(p, effects, s, acc).Some? && f < |acc| && f in Writes(effects)
    ensures |Apply(p, effects, s, acc).value| == |acc|
    ensures exists e :: e in effects && e.fluent == f
                    && Eval(e.value, s, p.functions) == Some(Apply(p, effects, s, acc).value[f])
  {
    var v := Eval(effects[0].value, s, p.functions).value;
    var acc' := acc[effects[0].fluent := v];
    if f in Writes(effects[1..]) {
      AppliedWritten(p, effects[1..], s, acc', f);
      var e :| e in effects[1..] && e.fluent == f
        && Eval(e.value, s, p.functions) == Some(Apply(p, effects, s, acc).value[f]);
      assert e in effects;
    } else {
      AppliedValue(p, effects[1..], s, acc', f);
      WritesMember(effects[1..], f);
      assert effects[0] in effects;
    }
  }

  /** Effects keep the types. */
  lemma AppliedTyped(h: Source, e: EventId, s: Assignment, s': Assignment)
    requires Encodable(h) && IsEvent(h.p, e) && Typed(s, h.doms)
    requires Apply(h.p, EventOf(h.p, e).effects, s, s) == Some(s')
    ensures Typed(s', h.doms)
  {
    var effects := EventOf(h.p, e).effects;
    assert NormalEvent(h, EventOf(h.p, e));
    if |s| == 0 {
      AppliedLength(h.p, effects, s, s);
    } else {
      AppliedValue(h.p, effects, s, s, 0);
    }
    forall f | 0 <= f < |s'| ensures InDomain(h.doms[f], s'[f]) {
      AppliedValue(h.p, effects, s, s, f);
      if eff :| eff in effects && eff.fluent == f && Eval(eff.value, s, h.p.functions) == Some(s'[f]) {
        assert TypedEffect(h.p, eff, h.doms);
      } else {
        assert InDomain(h.doms[f], s[f]);
      }
    }
  }

  lemma FollowsTyped(h: Source, s: Snapshot, e: EventId, s': Snapshot)
    requires Encodable(h) && Typed(s.values, h.doms) && Follows(h.p, s, e, s')
    ensures Typed(s'.values, h.doms)
  {
    AppliedTyped(h, e, s.values, s'.values);
  }

  // ---- the precondition ----

  lemma {:induction false} AllTrue(es: seq<Expr>, s: Assignment, fs: Functions)
    requires forall e | e in es :: IsTrue(e, s, fs)
    ensures EvalAll(es, s, fs).Some? && forall v | v in EvalAll(es, s, fs).value :: v == TRUE
  {
    if es != [] {
      assert es[0] in es && forall e | e in es[1..] :: e in es;
      AllTrue(es[1..], s, fs);
    }
  }

  lemma ConjunctionTrue(es: seq<Expr>, s: Assignment, fs: Functions)
    requires forall e | e in es :: IsTrue(e, s, fs)
    ensures IsTrue(And(es), s, fs)
  {
    AllTrue(es, s, fs);
  }

  /** Every condition of an event that fires holds. */
  lemma FiredConditions(p: Problem, s: Snapshot, e: EventId, s': Snapshot)
    requires Follows(p, s, e, s')
    ensures forall c | c in EventConditions(EventOf(p, e)) :: IsTrue(c, Full(p, s), p.functions)
  {
    var ev := EventOf(p, e);
    SplitHolds(p, ev.condition, s.values);
    DistinctSame(Split(ev.condition) + ev.endConditions);
    forall c | c in EventConditions(ev) ensures IsTrue(c, Full(p, s), p.functions) {
      assert Holds(p, c, s.values);
      FullEvaluates(p, s, c);
    }
  }

  lemma PreconditionTrue(h: Source, s: Snapshot, e: EventId, s': Snapshot)
    requires Follows(h.p, s, e, s') && |s.values| == |h.p.init|
    ensures HasOperator(h.p, e) && IsTrue(Precondition(h.p, e), Full(h.p, s), h.p.functions)
  {
    var (x, prev) := (Full(h.p, s), Previous(h.p, e));
    FiredConditions(h.p, s, e, s');
    assert HasOperator(h.p, e) by {
      assert !IsTrue(FALSE, x, h.p.functions);
    }
    FullFlag(h.p, s, prev);
    NotTrueMembers(EventConditions(EventOf(h.p, e)));
    var operands := NotTrue(EventConditions(EventOf(h.p, e))) + [Fluent(Extra(h.p, prev))];
    assert IsTrue(Fluent(Extra(h.p, prev)), x, h.p.functions);
    hide Full, EventConditions, Extra, Follows, NotTrue, HasOperator;
    ConjunctionTrue(operands, x, h.p.functions);
    assert operands[|operands| - 1] in operands;
  }

  /** The operator of an event that fires has its precondition met. */
  lemma PreconditionMet(h: Source, s: Snapshot, e: EventId, s': Snapshot)
    requires Encodable(h) && Typed(s.values, h.doms) && Follows(h.p, s, e, s')
    ensures HasOperator(h.p, e) && Meets(Prepared(h, Precondition(h.p, e)), Full(h.p, s), h.p.functions)
  {
    PreconditionTrue(h, s, e, s');
    FullTyped(h, s);
    PreconditionNormal(h, e);
    hide Encodable, Typed, Follows, Precondition, Full, AllDomains, HasOperator, Meets, Simplify, Convert;
    PreparedMeets(h, Precondition(h.p, e), Full(h.p, s));
  }

  lemma PreparedMeets(h: Source, e: Expr, x: Assignment)
    requires NormalCondition(Convert(e), AllDomains(h)) && Typed(x, AllDomains(h)) && IsTrue(e, x, h.p.functions)
    ensures Meets(Prepared(h, e), x, h.p.functions)
  {
    ConvertMeans(e, x, h.p.functions);
    SimplifyMeans(Convert(e), AllDomains(h), h.cfg.disableNumeric, x, h.p.functions);
  }

  lemma {:induction false} FromHas(p: Problem, a: nat, i: nat, e: EventId)
    requires a < |p.actions| && i <= e.1 && e.0 == a && IsEvent(p, e) && HasOperator(p, e)
    ensures e in EventsFrom(p, a, i)
    decreases e.1 - i
  {
    hide HasOperator;
    if i < e.1 {
      FromHas(p, a, i + 1, e);
    }
  }

  lemma {:induction false} OperatorsHave(p: Problem, a: nat, e: EventId)
    requires a <= e.0 && IsEvent(p, e) && HasOperator(p, e)
    ensures e in OperatorsOf(p, a)
    decreases e.0 - a
  {
    hide HasOperator;
    if a < e.0 {
      OperatorsHave(p, a + 1, e);
    } else {
      FromHas(p, a, 0, e);
    }
  }

  // ---- the leaves that become true ----

  lemma {:induction false} IdsHave(es: seq<Expr>, leaves: seq<Expr>, k: nat)
    requires NoRepeats(leaves) && k < |leaves| && leaves[k] in es
    ensures k in IdsOf(es, leaves)
  {
    if leaves[k] != es[0] {
      IdsHave(es[1..], leaves, k);
    }
  }

  lemma {:induction false} AllEffectsHave(effects: seq<Effect>, doms: Domains, eff: Effect, x: Expr)
    requires eff in effects && x in EffectLeaves(eff, doms)
    ensures x in AllEffectLeaves(effects, doms)
  {
    hide EffectLeaves;
    if eff != effects[0] {
      AllEffectsHave(effects[1..], doms, eff, x);
    }
  }

  // The fluent a table leaf is about.
  function Subject(e: Expr): nat {
    match e
    case Fluent(f) => f
    case Not(Fluent(f)) => f
    case Equals(Fluent(f), _) => f
    case _ => 0
  }

  /** A leaf true of the value an effect gives is among the effect's leaves. */
  lemma EffectMakesTrue(doms: Domains, eff: Effect, x: Expr, s: Assignment, t: Assignment, fs: Functions)
    requires TableLeaf(x, doms) && Subject(x) == eff.fluent < |t| && eff.fluent < |doms|
    requires Eval(eff.value, s, fs) == Some(t[eff.fluent]) && InDomain(doms[eff.fluent], t[eff.fluent])
    requires IsTrue(x, t, fs)
    ensures x in EffectLeaves(eff, doms)
  {
    match x
    case Fluent(f) =>
    case Not(Fluent(f)) => assert Eval(Fluent(f), t, fs) == Some(t[f]);
    case Equals(Fluent(f), Const(v)) =>
      assert Eval(Fluent(f), t, fs) == Some(t[f]) && Eval(Const(v), t, fs) == Some(v);
      var objects := doms[f].objects;
      var i :| 0 <= i < |objects| && objects[i] == v.o;
      assert AllIs(f, objects)[i] == x;
  }

  lemma TableLeafReads(x: Expr, doms: Domains, s: Assignment, t: Assignment, fs: Functions)
    requires TableLeaf(x, doms) && Subject(x) < |s| && Subject(x) < |t| && s[Subject(x)] == t[Subject(x)]
    ensures IsTrue(x, s, fs) == IsTrue(x, t, fs)
  {
    assert Fluents(x) == {Subject(x)};
    EvalReadsFluents(x, s, t, fs);
  }

  /** A condition on the values that becomes true is one of the effects' leaves. */
  lemma TableLeafBecomes(h: Source, s: Snapshot, e: EventId, s': Snapshot, x: Expr)
    requires Encodable(h) && Typed(s.values, h.doms) && Follows(h.p, s, e, s')
    requires TableLeaf(x, AllDomains(h)) && Subject(x) < |h.p.init|
    requires IsTrue(x, Full(h.p, s'), h.p.functions) && !IsTrue(x, Full(h.p, s), h.p.functions)
    ensures x in OperatorEffects(h, e)
  {
    var (f, effects, doms, fs) := (Subject(x), EventOf(h.p, e).effects, AllDomains(h), h.p.functions);
    FollowsTyped(h, s, e, s');
    FullTyped(h, s);
    FullTyped(h, s');
    assert Full(h.p, s)[f] == s.values[f] && Full(h.p, s')[f] == s'.values[f];
    if s.values[f] == s'.values[f] {
      TableLeafReads(x, doms, Full(h.p, s), Full(h.p, s'), fs);
    } else {
      AppliedValue(h.p, effects, s.values, s.values, f);
      var eff :| eff in effects && eff.fluent == f && Eval(eff.value, s.values, fs) == Some(s'.values[f]);
      assert InDomain(doms[f], s'.values[f]);
      EffectMakesTrue(doms, eff, x, s.values, Full(h.p, s'), fs);
      SameEffectLeaves(h, eff);
      AllEffectsHave(effects, h.doms, eff, x);
    }
  }

  lemma SameEffectLeaves(h: Source, eff: Effect)
    requires eff.fluent < |h.doms|
    ensures EffectLeaves(eff, AllDomains(h)) == EffectLeaves(eff, h.doms)
  {
    assert AllDomains(h)[eff.fluent] == h.doms[eff.fluent];
  }

  /** Every extra fluent is some event's. */
  lemma {:induction false} EventOfFlag(p: Problem, a: nat, f: nat) returns (e: EventId)
    requires a <= |p.actions| && |p.init| <= f < Offset(p, a)
    ensures IsEvent(p, e) && Extra(p, e) == f
  {
    if f < Offset(p, a - 1) {
      e := EventOfFlag(p, a - 1, f);
    } else {
      e := (a - 1, f - Offset(p, a - 1));
    }
  }

  /** The only extra fluent that becomes true is that of the event. */
  lemma FlagBecomes(h: Source, s: Snapshot, e: EventId, s': Snapshot, f: nat)
    requires Follows(h.p, s, e, s') && |s.values| == |s'.values| == |h.p.init|
    requires |h.p.init| <= f < Size(h.p)
    requires IsTrue(Fluent(f), Full(h.p, s'), h.p.functions) && !IsTrue(Fluent(f), Full(h.p, s), h.p.functions)
    ensures Fluent(f) in OperatorEffects(h, e)
  {
    var d := EventOfFlag(h.p, |h.p.actions|, f);
    FullFlag(h.p, s, d);
    FullFlag(h.p, s', d);
    assert d == e;
    assert OperatorEffects(h, e)[0] == Fluent(f);
  }

  // ---- numbers ----

  lemma {:induction false} ChangesAt(effects: seq<Effect>, doms: Domains, f: nat)
    requires f < |doms| && doms[f].NumberDomain?
    ensures f in ChangesOf(effects, doms) <==> f in Writes(effects)
    ensures f in ChangesOf(effects, doms) ==>
              exists eff :: eff in effects && eff.fluent == f && ChangesOf(effects, doms)[f] == ChangeOf(f, eff.value)
  {
    WritesMember(effects, f);
    if effects != [] {
      var (init, last) := (effects[..|effects| - 1], effects[|effects| - 1]);
      assert effects == init + [last];
      WritesMember(init, f);
      ChangesAt(init, doms, f);
      assert last in effects && forall e | e in init :: e in effects;
    }
  }

  lemma OnlyEffect(effects: seq<Effect>, doms: Domains, x: Effect, y: Effect)
    requires WritesNumbersOnce(effects, doms) && x in effects && y in effects && x.fluent == y.fluent
    requires x.fluent < |doms| && doms[x.fluent].NumberDomain?
    ensures x == y
  {
    var i :| 0 <= i < |effects| && effects[i] == x;
    var j :| 0 <= j < |effects| && effects[j] == y;
    assert i == j;
  }

  /** The event changes a number as its operator says. */
  lemma NumberChanges(h: Source, s: Snapshot, e: EventId, s': Snapshot, f: nat)
    requires Encodable(h) && Typed(s.values, h.doms) && Follows(h.p, s, e, s')
    requires f < |h.doms| && h.doms[f].NumberDomain?
    ensures |s'.values| == |s.values| && s.values[f].NumV? && s'.values[f].NumV?
    ensures var ch := ChangesOf(EventOf(h.p, e).effects, h.doms);
      && (f !in ch ==> s'.values[f] == s.values[f])
      && (f in ch && ch[f].Increased? ==> s'.values[f].n == s.values[f].n + ch[f].k)
      && (f in ch && ch[f].Assigned? ==> s'.values[f].n == ch[f].v)
  {
    var (effects, fs) := (EventOf(h.p, e).effects, h.p.functions);
    FollowsTyped(h, s, e, s');
    assert InDomain(h.doms[f], s.values[f]) && InDomain(h.doms[f], s'.values[f]);
    assert NormalEvent(h, EventOf(h.p, e));
    ChangesAt(effects, h.doms, f);
    WritesMember(effects, f);
    if f in Writes(effects) {
      AppliedWritten(h.p, effects, s.values, s.values, f);
      var eff :| eff in effects && eff.fluent == f && Eval(eff.value, s.values, fs) == Some(s'.values[f]);
      var x :| x in effects && x.fluent == f && ChangesOf(effects, h.doms)[f] == ChangeOf(f, x.value);
      OnlyEffect(effects, h.doms, eff, x);
      assert TypedEffect(h.p, eff, h.doms);
      hide Encodable, Follows, Typed, ChangesOf, NormalEvent;
      if ChangeOf(f, eff.value).Increased? {
        NumbersAre(h, s, eff.value);
        IncreaseAdds(f, eff.value, s.values, fs);
      }
    } else {
      AppliedValue(h.p, effects, s.values, s.values, f);
    }
  }

  lemma NumbersAre(h: Source, s: Snapshot, e: Expr)
    requires Typed(s.values, h.doms) && NumbersOnly(e, h.doms)
    ensures Numeric(s.values, Fluents(e))
  {
    forall f | f in Fluents(e) ensures f < |s.values| && s.values[f].NumV? {
      assert InDomain(h.doms[f], s.values[f]);
    }
  }

  lemma ChangedAfter(h: Source, s: Snapshot, e: EventId, s': Snapshot, w: map<nat, real>)
    requires Encodable(h) && Typed(s.values, h.doms) && Follows(h.p, s, e, s')
    requires forall f | f in w :: f < |h.doms| && h.doms[f].NumberDomain?
    ensures Changed(ChangesOf(EventOf(h.p, e).effects, h.doms), w, Full(h.p, s), Full(h.p, s'))
  {
    FollowsTyped(h, s, e, s');
    FullTyped(h, s);
    FullTyped(h, s');
    var (x, x', n) := (Full(h.p, s), Full(h.p, s'), |h.p.init|);
    var ch := ChangesOf(EventOf(h.p, e).effects, h.doms);
    hide Encodable, Follows, Full, Typed, ChangesOf;
    forall f | f in w
      ensures f < |x| && x[f].NumV? && x'[f].NumV? && (f !in ch ==> x'[f] == x[f])
           && (f in ch && ch[f].Increased? ==> x'[f].n == x[f].n + ch[f].k)
           && (f in ch && ch[f].Assigned? ==> x'[f].n == ch[f].v)
    {
      NumberChanges(h, s, e, s', f);
      assert x[..n][f] == x[f] && x'[..n][f] == x'[f];
    }
  }

  /** A linear condition that becomes true is one the event's operator achieves. */
  lemma SimpleBecomes(h: Source, s: Snapshot, e: EventId, s': Snapshot, x: Expr)
    requires Encodable(h) && Typed(s.values, h.doms) && Follows(h.p, s, e, s')
    requires KnownLeaf(h, x) && IsSimple(h, x)
    requires IsTrue(x, Full(h.p, s'), h.p.functions) && !IsTrue(x, Full(h.p, s), h.p.functions)
    ensures Achieves(ChangesOf(EventOf(h.p, e).effects, h.doms), LinearOf(x).value.weights, h.cfg.inadmissible, Size(h.p))
  {
    var (c, ch) := (LinearOf(x).value, ChangesOf(EventOf(h.p, e).effects, h.doms));
    assert Typed(h.p.init, h.doms);
    FollowsTyped(h, s, e, s');
    FullTyped(h, s);
    FullTyped(h, s');
    SimpleIsNumeric(h, x, Full(h.p, s));
    SimpleIsNumeric(h, x, Full(h.p, s'));
    LinearMeans(x, Full(h.p, s), h.p.functions);
    LinearMeans(x, Full(h.p, s'), h.p.functions);
    assert Level(c, Full(h.p, s')) < Level(c, Full(h.p, s));
    SimpleReads(h, x);
    hide Encodable, Typed, Follows, Full, IsTrue, KnownLeaf, IsSimple, LinearOf, Achieves;
    ChangedAfter(h, s, e, s', c.weights);
    LoweringAchieves(ch, c.weights, h.cfg.inadmissible, Full(h.p, s), Full(h.p, s'));
  }

  lemma SimpleReads(h: Source, x: Expr)
    requires KnownLeaf(h, x) && IsSimple(h, x) && |h.doms| == |h.p.init|
    ensures forall f | f in Fluents(x) :: f < |h.doms| && h.doms[f].NumberDomain?
  {
    assert NumbersOnly(x, AllDomains(h));
    forall f | f in Fluents(x) ensures f < |h.doms| {
      assert AllDomains(h)[f].NumberDomain?;
    }
  }

  // ---- one step of the relaxed task ----

  // The operator of `e`.
  function OperatorAt(p: Problem, e: EventId): (o: nat)
    requires e in OperatorsOf(p, 0)
    ensures o < |OperatorsOf(p, 0)| && OperatorsOf(p, 0)[o] == e
  {
    IndexOf(OperatorsOf(p, 0), e)
  }

  lemma LeafBecomes(
    h: Source, s0: Assignment, t: R.Task, s: Snapshot, e: EventId, s': Snapshot, o: nat, k: nat)
    requires Encodable(h) && TaskOf(h, s0) == Some(t)
    requires Typed(s.values, h.doms) && Follows(h.p, s, e, s')
    requires o < |OperatorsOf(h.p, 0)| && OperatorsOf(h.p, 0)[o] == e && o < |t.ops| && k < |Interned(h)|
    requires IsTrue(Interned(h)[k], Full(h.p, s'), h.p.functions)
    requires !IsTrue(Interned(h)[k], Full(h.p, s), h.p.functions)
    ensures B.Becomes(t, o, k)
  {
    var (leaves, x) := (Interned(h), Interned(h)[k]);
    InternedKnown(h);
    TaskShape(h, s0, t);
    assert x in leaves && KnownLeaf(h, x);
    assert InitialCost(h, x, s0) == Some(t.init[k]);
    hide Encodable, Interned, Follows, TaskOf, Typed, IsSimple, IsEstimated, KnownLeaf, InitialCost, Full, IsTrue, Known;
    if IsEstimated(h, x) {
      InitialMeans(h, x, s0);
    } else if IsSimple(h, x) {
      SimpleOffered(h, s0, t, s, e, s', o, k);
    } else {
      TableOffered(h, s0, t, s, e, s', o, k);
    }
  }

  lemma SimpleOffered(
    h: Source, s0: Assignment, t: R.Task, s: Snapshot, e: EventId, s': Snapshot, o: nat, k: nat)
    requires Encodable(h) && TaskOf(h, s0) == Some(t)
    requires Typed(s.values, h.doms) && Follows(h.p, s, e, s')
    requires o < |OperatorsOf(h.p, 0)| && OperatorsOf(h.p, 0)[o] == e && o < |t.ops| && k < |Interned(h)|
    requires KnownLeaf(h, Interned(h)[k]) && IsSimple(h, Interned(h)[k])
    requires IsTrue(Interned(h)[k], Full(h.p, s'), h.p.functions)
    requires !IsTrue(Interned(h)[k], Full(h.p, s), h.p.functions)
    ensures B.Becomes(t, o, k)
  {
    assert WellFormed(h.p) && IsEvent(h.p, e);
    hide *;
    var (leaves, x, ch) := (Interned(h), Interned(h)[k], ChangesOf(EventOf(h.p, e).effects, h.doms));
    OperatorShape(h, s0, t, o);
    SimpleBecomes(h, s, e, s', x);
    assert LinearOf(x).Some? by { SimpleIsLinear(h, x); }
    NumericHas(h, leaves, ch, s0, 0, k);
    NumericOffers(t, o, k, RepetitionsOf(h, leaves, ch, LinearOf(x).value, s0));
  }

  lemma SimpleIsLinear(h: Source, x: Expr)
    requires IsSimple(h, x)
    ensures LinearOf(x).Some?
  {
  }

  lemma NumericOffers(t: R.Task, o: nat, k: nat, w: nat)
    requires o < |t.ops| && k < |t.init| && (k, w) in t.ops[o].numeric
    ensures B.Becomes(t, o, k)
  {
    assert t.init[k] != C.Fin(0) ==> R.Offers(t, o, k, w);
  }

  lemma TableOffered(
    h: Source, s0: Assignment, t: R.Task, s: Snapshot, e: EventId, s': Snapshot, o: nat, k: nat)
    requires Encodable(h) && TaskOf(h, s0) == Some(t)
    requires Typed(s.values, h.doms) && Follows(h.p, s, e, s')
    requires o < |OperatorsOf(h.p, 0)| && OperatorsOf(h.p, 0)[o] == e && o < |t.ops| && k < |Interned(h)|
    requires KnownLeaf(h, Interned(h)[k]) && !IsEstimated(h, Interned(h)[k]) && !IsSimple(h, Interned(h)[k])
    requires IsTrue(Interned(h)[k], Full(h.p, s'), h.p.functions)
    requires !IsTrue(Interned(h)[k], Full(h.p, s), h.p.functions)
    ensures B.Becomes(t, o, k)
  {
    assert WellFormed(h.p) && IsEvent(h.p, e);
    hide *;
    var (leaves, x) := (Interned(h), Interned(h)[k]);
    InternedDistinct(h);
    OperatorShape(h, s0, t, o);
    FollowsTyped(h, s, e, s');
    OtherLeafBecomes(h, s, e, s', x);
    IdsHave(OperatorEffects(h, e), leaves, k);
    EffectOffers(t, o, k);
  }

  lemma EffectOffers(t: R.Task, o: nat, k: nat)
    requires o < |t.ops| && k < |t.init| && k in t.ops[o].effects
    ensures B.Becomes(t, o, k)
  {
    assert R.Offers(t, o, k, 1);
  }

  lemma OtherLeafBecomes(h: Source, s: Snapshot, e: EventId, s': Snapshot, x: Expr)
    requires Encodable(h) && Typed(s.values, h.doms) && Typed(s'.values, h.doms) && Follows(h.p, s, e, s')
    requires KnownLeaf(h, x) && !IsEstimated(h, x) && !IsSimple(h, x)
    requires IsTrue(x, Full(h.p, s'), h.p.functions) && !IsTrue(x, Full(h.p, s), h.p.functions)
    ensures x in OperatorEffects(h, e)
  {
    assert Typed(h.p.init, h.doms);
    assert TableLeaf(x, AllDomains(h));
    if x.Fluent? && x.f >= |h.p.init| {
      FlagBecomes(h, s, e, s', x.f);
    } else {
      assert Fluents(x) == {Subject(x)};
      TableLeafBecomes(h, s, e, s', x);
    }
  }

  lemma StepPrecondition(h: Source, s0: Assignment, t: R.Task, s: Snapshot, e: EventId, s': Snapshot)
    requires Encodable(h) && TaskOf(h, s0) == Some(t) && Typed(s.values, h.doms) && Follows(h.p, s, e, s')
    ensures e in OperatorsOf(h.p, 0) && OperatorAt(h.p, e) < |t.ops|
    ensures B.TrueIn(t.ops[OperatorAt(h.p, e)].pre, TrueLeaves(Interned(h), Full(h.p, s), h.p.functions))
  {
    PreconditionMet(h, s, e, s');
    assert IsEvent(h.p, e);
    OperatorsHave(h.p, 0, e);
    TaskShape(h, s0, t);
    var o := OperatorAt(h.p, e);
    OperatorShape(h, s0, t, o);
    assert Conditions(h)[o] == Prepared(h, Precondition(h.p, e));
    hide *;
    TreeMeets(Conditions(h)[o], Interned(h), Full(h.p, s), h.p.functions);
  }

  /** An event that fires is a step of the relaxed task. */
  lemma FollowsSteps(h: Source, s0: Assignment, t: R.Task, s: Snapshot, e: EventId, s': Snapshot)
    requires Encodable(h) && TaskOf(h, s0) == Some(t) && Typed(s.values, h.doms) && Follows(h.p, s, e, s')
    ensures e in OperatorsOf(h.p, 0)
    ensures B.StepsTo(t, TrueLeaves(Interned(h), Full(h.p, s), h.p.functions), OperatorAt(h.p, e),
                      TrueLeaves(Interned(h), Full(h.p, s'), h.p.functions))
  {
    assert WellFormed(h.p);
    hide Encodable, Typed, Follows, Full, Interned, TaskOf, OperatorsOf, B.Becomes, B.TrueIn, IsTrue, WellFormed;
    StepPrecondition(h, s0, t, s, e, s');
    var (o, leaves, fs) := (OperatorAt(h.p, e), Interned(h), h.p.functions);
    forall k | k in TrueLeaves(leaves, Full(h.p, s'), fs) && k !in TrueLeaves(leaves, Full(h.p, s), fs)
      ensures B.Becomes(t, o, k)
    {
      LeafBecomes(h, s0, t, s, e, s', o, k);
    }
  }
}
