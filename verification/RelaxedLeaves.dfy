/**
 The leaf conditions the delete relaxation is left with on a problem as the encoder
 makes them: all are conditions whose cost it can initialise and lower.
*/
module RelaxedLeaves {
  import opened Collections
  import opened Options
  import opened Expr
  import opened Temporal
  import opened LinearPolynomials
  import opened HeuristicConditions
  import opened RelaxedRuns
  import opened RelaxedTasks

  // ---- what the encoder guarantees ----

  /** In negation normal form, over the leaves of `NormalLeaf`. */
  predicate NormalExpr(e: Expr, doms: Domains) {
    match e
    case And(es) => NormalExprs(es, doms)
    case Or(es) => NormalExprs(es, doms)
    case _ => NormalLeaf(e, doms)
  }

  predicate NormalExprs(es: seq<Expr>, doms: Domains) {
    es == [] || (NormalExpr(es[0], doms) && NormalExprs(es[1..], doms))
  }

  /** An effect gives its fluent values of its type. */
  ghost predicate TypedEffect(p: Problem, eff: Effect, doms: Domains) {
    && eff.fluent < |doms|
    && (forall s | Typed(s, doms) && Eval(eff.value, s, p.functions).Some? ::
          InDomain(doms[eff.fluent], Eval(eff.value, s, p.functions).value))
    && (doms[eff.fluent].NumberDomain? && ToPolynomial(eff.value).Some? ==> NumbersOnly(eff.value, doms))
  }

  /** No event writes a number twice: the constructor asserts it. */
  predicate WritesNumbersOnce(effects: seq<Effect>, doms: Domains) {
    forall i, j | 0 <= i < j < |effects| && effects[i].fluent == effects[j].fluent ::
      !(effects[i].fluent < |doms| && doms[effects[i].fluent].NumberDomain?)
  }

  ghost predicate NormalEvent(h: Source, ev: Event) {
    && NormalExpr(ev.condition, AllDomains(h))
    && (forall c | c in ev.endConditions :: NormalExpr(c, AllDomains(h)))
    && (forall eff | eff in ev.effects :: TypedEffect(h.p, eff, h.doms))
    && WritesNumbersOnce(ev.effects, h.doms)
  }

  ghost predicate Encodable(h: Source) {
    && WellFormed(h.p) && InScope(h.p)
    && Typed(h.p.init, h.doms)
    && NormalExpr(h.p.goal, AllDomains(h))
    && forall e | IsEvent(h.p, e) :: NormalEvent(h, EventOf(h.p, e))
  }

  // ---- the interned leaves ----

  predicate TableLeaf(e: Expr, doms: Domains) {
    match e
    case Fluent(f) => IsBool(f, doms)
    case Not(Fluent(f)) => IsBool(f, doms)
    case Equals(Fluent(f), Const(ObjV(_))) => Objects(f, doms)
    case _ => false
  }

  /** What is left after the rewriting. */
  predicate PlainLeaf(e: Expr, doms: Domains) {
    || HasCall(e)
    || (IsNumericLeaf(e, doms) && NumbersOnly(e, doms))
    || TableLeaf(e, doms)
    || e == FALSE
  }

  // About the problem's fluents, or an extra fluent.
  ghost predicate InReach(h: Source, e: Expr) {
    Within(|h.p.init|, e) || (e.Fluent? && |h.p.init| <= e.f < Size(h.p))
  }

  ghost predicate KnownLeaf(h: Source, e: Expr) {
    PlainLeaf(e, AllDomains(h)) && InReach(h, e)
  }

  lemma {:induction false} ConvertNormal(e: Expr, doms: Domains)
    requires NormalExpr(e, doms)
    ensures NormalCondition(Convert(e), doms)
    decreases e, 1
  {
    match e
    case And(es) => ConvertAllNormal(es, doms);
    case Or(es) => ConvertAllNormal(es, doms);
    case _ =>
  }

  lemma {:induction false} ConvertAllNormal(es: seq<Expr>, doms: Domains)
    requires NormalExprs(es, doms)
    ensures NormalConditions(ConvertAll(es), doms)
    decreases es, 0
  {
    if es != [] {
      ConvertNormal(es[0], doms);
      ConvertAllNormal(es[1..], doms);
      NormalSnoc(ConvertAll(es[1..]), Convert(es[0]), doms);
    }
  }

  lemma {:induction false} NormalSnoc(cs: seq<Condition>, c: Condition, doms: Domains)
    requires NormalConditions(cs, doms) && NormalCondition(c, doms)
    ensures NormalConditions(cs + [c], doms)
  {
    if cs == [] {
      assert (cs + [c])[1..] == [];
    } else {
      NormalSnoc(cs[1..], c, doms);
      assert (cs + [c])[1..] == cs[1..] + [c];
    }
  }

  // All leaves satisfy `KnownLeaf`.
  ghost predicate Known(h: Source, es: seq<Expr>) {
    forall e | e in es :: KnownLeaf(h, e)
  }

  lemma {:induction false} LeavesSnoc(cs: seq<Condition>, c: Condition)
    ensures LeavesOfAll(cs + [c]) == LeavesOfAll(cs) + LeavesOf(c)
  {
    if cs == [] {
      assert (cs + [c])[1..] == [] && LeavesOfAll([]) == [];
      assert LeavesOf(c) + [] == LeavesOf(c) && [] + LeavesOf(c) == LeavesOf(c);
    } else {
      LeavesSnoc(cs[1..], c);
      assert (cs + [c])[1..] == cs[1..] + [c];
      assert LeavesOf(cs[0]) + (LeavesOfAll(cs[1..]) + LeavesOf(c)) == (LeavesOf(cs[0]) + LeavesOfAll(cs[1..])) + LeavesOf(c);
    }
  }

  // ---- rewriting leaves only known leaves ----

  lemma {:induction false} OthersLeaves(f: nat, o: nat, objects: seq<nat>)
    ensures forall x | x in LeavesOfAll(Others(f, o, objects)) :: exists q :: x == Is(f, q)
  {
    if objects != [] {
      OthersLeaves(f, o, objects[1..]);
      assert LeavesOf(Leaf(Is(f, objects[0]))) == [Is(f, objects[0])];
      LeavesAppend([Leaf(Is(f, objects[0]))], Others(f, o, objects[1..]));
      LeavesOne(Leaf(Is(f, objects[0])));
      assert [] + Others(f, o, objects[1..]) == Others(f, o, objects[1..]);
    }
  }

  lemma LeavesOne(c: Condition)
    ensures LeavesOfAll([c]) == LeavesOf(c)
  {
    assert [c][1..] == [] && LeavesOfAll([]) == [];
  }

  lemma {:induction false} LeavesAppend(cs: seq<Condition>, ds: seq<Condition>)
    ensures LeavesOfAll(cs + ds) == LeavesOfAll(cs) + LeavesOfAll(ds)
  {
    if cs == [] {
      assert cs + ds == ds;
    } else {
      LeavesAppend(cs[1..], ds);
      assert (cs + ds)[1..] == cs[1..] + ds && (cs + ds)[0] == cs[0];
      hide LeavesOf;
      var (a, b, c) := (LeavesOf(cs[0]), LeavesOfAll(cs[1..]), LeavesOfAll(ds));
      assert a + (b + c) == (a + b) + c;
    }
  }

  // Pairs are about `f` and `g` only.
  ghost predicate AboutPair(f: nat, g: nat, x: Expr) {
    exists o :: x == Is(f, o) || x == Is(g, o)
  }

  lemma PairLeaves(f: nat, o: nat, g: nat, q: nat)
    ensures forall x | x in LeavesOf(Pair(f, o, g, q)) :: AboutPair(f, g, x)
  {
    var (a, b) := (Leaf(Is(f, o)), Leaf(Is(g, q)));
    LeavesAppend([a], [b]);
    LeavesOne(a);
    LeavesOne(b);
    assert [a] + [b] == [a, b];
  }

  lemma {:induction false} SamePairsLeaves(f: nat, g: nat, objects: seq<nat>, others: seq<nat>)
    ensures forall x | x in LeavesOfAll(SamePairs(f, g, objects, others)) :: AboutPair(f, g, x)
  {
    if objects != [] {
      var (c, rest) := (Pair(f, objects[0], g, objects[0]), SamePairs(f, g, objects[1..], others));
      SamePairsLeaves(f, g, objects[1..], others);
      PairLeaves(f, objects[0], g, objects[0]);
      LeavesOne(c);
      LeavesAppend([c], rest);
      assert [] + rest == rest;
    }
  }

  lemma {:induction false} RowLeaves(f: nat, g: nat, o: nat, others: seq<nat>)
    ensures forall x | x in LeavesOfAll(Row(f, g, o, others)) :: AboutPair(f, g, x)
  {
    if others != [] {
      var (c, rest) := (Pair(f, o, g, others[0]), Row(f, g, o, others[1..]));
      RowLeaves(f, g, o, others[1..]);
      PairLeaves(f, o, g, others[0]);
      LeavesOne(c);
      LeavesAppend([c], rest);
      assert [] + rest == rest;
    }
  }

  lemma {:induction false} DifferentPairsLeaves(f: nat, g: nat, objects: seq<nat>, others: seq<nat>)
    ensures forall x | x in LeavesOfAll(DifferentPairs(f, g, objects, others)) :: AboutPair(f, g, x)
  {
    if objects != [] {
      RowLeaves(f, g, objects[0], others);
      DifferentPairsLeaves(f, g, objects[1..], others);
      LeavesAppend(Row(f, g, objects[0], others), DifferentPairs(f, g, objects[1..], others));
    }
  }

  lemma AnyOfLeaves(cs: seq<Condition>)
    ensures forall x | x in LeavesOf(AnyOf(cs)) :: x == FALSE || x in LeavesOfAll(cs)
  {
    if |cs| == 1 {
      LeavesOne(cs[0]);
      assert cs == [cs[0]];
    }
  }

  lemma ObjectFormLeaves(h: Source, e: Expr)
    requires ObjectForm(e, AllDomains(h)).Some? && Within(|h.p.init|, e)
    ensures Known(h, LeavesOf(ObjectForm(e, AllDomains(h)).value))
  {
    var doms := AllDomains(h);
    var eq := Negated(e);
    assert Fluents(e) == Fluents(eq) == Fluents(eq.l) + Fluents(eq.r);
    assert eq.l.f in Fluents(eq.l) && (eq.r.Fluent? ==> eq.r.f in Fluents(eq.r));
    match e
    case Not(Equals(Fluent(f), Const(ObjV(o)))) =>
      AnyOfLeaves(Others(f, o, doms[f].objects));
      OthersLeaves(f, o, doms[f].objects);
      FluentLeaves(h, f, f);
    case Equals(Fluent(f), Fluent(g)) =>
      AnyOfLeaves(SamePairs(f, g, doms[f].objects, doms[g].objects));
      SamePairsLeaves(f, g, doms[f].objects, doms[g].objects);
      FluentLeaves(h, f, g);
    case Not(Equals(Fluent(f), Fluent(g))) =>
      AnyOfLeaves(DifferentPairs(f, g, doms[f].objects, doms[g].objects));
      DifferentPairsLeaves(f, g, doms[f].objects, doms[g].objects);
      FluentLeaves(h, f, g);
  }

  lemma FluentLeaves(h: Source, f: nat, g: nat)
    requires Objects(f, AllDomains(h)) && Objects(g, AllDomains(h)) && f < |h.p.init| && g < |h.p.init|
    ensures KnownLeaf(h, FALSE)
    ensures forall x | AboutPair(f, g, x) :: KnownLeaf(h, x)
    ensures forall o :: KnownLeaf(h, Is(f, o))
  {
    assert forall o: nat, d: nat :: Fluents(Is(d, o)) == {d};
  }

  lemma NumericFormLeaves(h: Source, e: Expr)
    requires NumericForm(e).Some? && NumbersOnly(e, AllDomains(h)) && Within(|h.p.init|, e)
    ensures Known(h, LeavesOf(NumericForm(e).value))
  {
    var cmp := Negated(e);
    var (l, r) := (cmp.l, cmp.r);
    assert Fluents(e) == Fluents(l) + Fluents(r);
    ComparisonKnown(h, e, l, r);
    var (a, b, c, d) := (Leaf(Le(l, r)), Leaf(Le(r, l)), Leaf(Lt(l, r)), Leaf(Lt(r, l)));
    LeavesOne(a);
    LeavesOne(b);
    LeavesOne(c);
    LeavesOne(d);
    LeavesAppend([a], [b]);
    LeavesAppend([c], [d]);
    assert [a] + [b] == [a, b] && [c] + [d] == [c, d];
    hide KnownLeaf, Within, NumbersOnly, ToPolynomial;
  }

  lemma OneKnown(h: Source, e: Expr, c: Expr)
    requires NumbersOnly(e, AllDomains(h)) && Within(|h.p.init|, e) && (c.Le? || c.Lt?)
    requires Fluents(e) == Fluents(c.l) + Fluents(c.r)
    ensures KnownLeaf(h, c)
  {
    assert Fluents(c) == Fluents(e);
  }

  lemma ComparisonKnown(h: Source, e: Expr, l: Expr, r: Expr)
    requires NumbersOnly(e, AllDomains(h)) && Within(|h.p.init|, e) && Fluents(e) == Fluents(l) + Fluents(r)
    ensures KnownLeaf(h, Le(l, r)) && KnownLeaf(h, Le(r, l)) && KnownLeaf(h, Lt(l, r)) && KnownLeaf(h, Lt(r, l))
  {
    OneKnown(h, e, Le(l, r));
    OneKnown(h, e, Le(r, l));
    OneKnown(h, e, Lt(l, r));
    OneKnown(h, e, Lt(r, l));
  }

  lemma SimplifiedLeaf(h: Source, e: Expr)
    requires NormalLeaf(e, AllDomains(h)) && e != Const(TRUE) && InReach(h, e)
    ensures Known(h, LeavesOf(Simplify(Leaf(e), AllDomains(h), h.cfg.disableNumeric)))
  {
    var (doms, q) := (AllDomains(h), SimplifyLeaf(e, AllDomains(h), h.cfg.disableNumeric));
    if q.None? {
      assert PlainLeaf(e, doms);
    } else if IsNumericLeaf(e, doms) {
      NumericFormLeaves(h, e);
    } else {
      ObjectFormLeaves(h, e);
    }
  }

  // Normal, in scope, and without the constant true.
  ghost predicate Ready(h: Source, es: seq<Expr>) {
    forall e | e in es :: NormalLeaf(e, AllDomains(h)) && e != Const(TRUE) && InReach(h, e)
  }

  lemma MembersInReach(h: Source, e: Expr, es: seq<Expr>)
    requires InReach(h, e) && (e == And(es) || e == Or(es))
    ensures forall x | x in es :: InReach(h, x)
  {
    assert Fluents(e) == AllFluents(es);
    forall x | x in es ensures InReach(h, x) {
      MemberReads(es, x);
    }
  }

  lemma {:induction false} ConvertReady(h: Source, e: Expr)
    requires NormalExpr(e, AllDomains(h)) && InReach(h, e)
    ensures Ready(h, LeavesOf(Convert(e)))
    decreases e, 1
  {
    match e
    case And(es) =>
      MembersInReach(h, e, es);
      ConvertAllReady(h, es);
    case Or(es) =>
      MembersInReach(h, e, es);
      ConvertAllReady(h, es);
    case _ =>
  }

  lemma {:induction false} ConvertAllReady(h: Source, es: seq<Expr>)
    requires NormalExprs(es, AllDomains(h)) && forall e | e in es :: InReach(h, e)
    ensures Ready(h, LeavesOfAll(ConvertAll(es)))
    decreases es, 0
  {
    if es != [] {
      assert es[0] in es && forall x | x in es[1..] :: x in es;
      ConvertReady(h, es[0]);
      ConvertAllReady(h, es[1..]);
      LeavesSnoc(ConvertAll(es[1..]), Convert(es[0]));
    }
  }

  lemma {:induction false} SimplifiedKnown(h: Source, c: Condition)
    requires Ready(h, LeavesOf(c))
    ensures Known(h, LeavesOf(Simplify(c, AllDomains(h), h.cfg.disableNumeric)))
    decreases c, 1
  {
    match c
    case Leaf(e) =>
      assert e in LeavesOf(c);
      SimplifiedLeaf(h, e);
    case All(cs) => SimplifiedAllKnown(h, cs);
    case Any(cs) => SimplifiedAllKnown(h, cs);
  }

  lemma {:induction false} SimplifiedAllKnown(h: Source, cs: seq<Condition>)
    requires Ready(h, LeavesOfAll(cs))
    ensures Known(h, LeavesOfAll(SimplifyAll(cs, AllDomains(h), h.cfg.disableNumeric)))
    decreases cs, 0
  {
    if cs != [] {
      SimplifiedKnown(h, cs[0]);
      SimplifiedAllKnown(h, cs[1..]);
      var (c, rest) := (Simplify(cs[0], AllDomains(h), h.cfg.disableNumeric),
                        SimplifyAll(cs[1..], AllDomains(h), h.cfg.disableNumeric));
      LeavesAppend([c], rest);
      LeavesOne(c);
    }
  }

  // ---- the conditions of a problem ----

  lemma PreparedKnown(h: Source, e: Expr)
    requires NormalExpr(e, AllDomains(h)) && InReach(h, e)
    ensures NormalCondition(Convert(e), AllDomains(h)) && Known(h, LeavesOf(Prepared(h, e)))
  {
    ConvertNormal(e, AllDomains(h));
    ConvertReady(h, e);
    SimplifiedKnown(h, Convert(e));
  }

  lemma ExtraFluent(h: Source, e: EventId)
    requires IsEvent(h.p, e) && |h.doms| == |h.p.init|
    ensures |h.p.init| <= Extra(h.p, e) < Size(h.p) == |AllDomains(h)|
    ensures NormalExpr(Fluent(Extra(h.p, e)), AllDomains(h)) && KnownLeaf(h, Fluent(Extra(h.p, e)))
  {
    ExtraInRange(h.p, e);
  }

  lemma {:induction false} NormalMembers(es: seq<Expr>, doms: Domains)
    requires forall e | e in es :: NormalExpr(e, doms)
    ensures NormalExprs(es, doms)
  {
    if es != [] {
      assert es[0] in es && forall e | e in es[1..] :: e in es;
      NormalMembers(es[1..], doms);
    }
  }

  lemma {:induction false} NormalMember(es: seq<Expr>, doms: Domains, e: Expr)
    requires NormalExprs(es, doms) && e in es
    ensures NormalExpr(e, doms)
  {
    if e != es[0] {
      NormalMember(es[1..], doms, e);
    }
  }

  lemma {:induction false} NotTrueMembers(es: seq<Expr>)
    ensures forall e :: e in NotTrue(es) <==> e in es && e != Const(TRUE)
  {
    if es != [] {
      NotTrueMembers(es[1..]);
    }
  }

  lemma SplitNormal(h: Source, e: Expr, c: Expr)
    requires NormalExpr(e, AllDomains(h)) && Within(|h.p.init|, e) && c in Split(e)
    ensures NormalExpr(c, AllDomains(h)) && Within(|h.p.init|, c)
  {
    if e.And? {
      NormalMember(e.args, AllDomains(h), c);
      SplitScoped(|h.p.init|, e);
    }
  }

  /** The operands of an operator's precondition are normal. */
  lemma OperandsNormal(h: Source, e: EventId)
    requires Encodable(h) && IsEvent(h.p, e)
    ensures forall c | c in EventConditions(EventOf(h.p, e)) ::
              NormalExpr(c, AllDomains(h)) && Within(|h.p.init|, c)
  {
    var ev := EventOf(h.p, e);
    assert NormalEvent(h, ev);
    assert EventInScope(|h.p.init|, EventOf(h.p, (e.0, e.1)));
    DistinctSame(Split(ev.condition) + ev.endConditions);
    hide NormalExpr, Within, Encodable, NormalEvent;
    forall c | c in EventConditions(ev) ensures NormalExpr(c, AllDomains(h)) && Within(|h.p.init|, c) {
      if c in Split(ev.condition) {
        assert NormalExpr(ev.condition, AllDomains(h)) by { NormalConditionOf(h, ev); }
        assert Within(|h.p.init|, ev.condition) by { ScopedConditionOf(h, ev); }
        SplitNormal(h, ev.condition, c);
      } else {
        NormalEndOf(h, ev, c);
      }
    }
  }

  lemma NormalConditionOf(h: Source, ev: Event)
    requires NormalEvent(h, ev)
    ensures NormalExpr(ev.condition, AllDomains(h))
  {
  }

  lemma ScopedConditionOf(h: Source, ev: Event)
    requires EventInScope(|h.p.init|, ev)
    ensures Within(|h.p.init|, ev.condition)
  {
  }

  lemma NormalEndOf(h: Source, ev: Event, c: Expr)
    requires NormalEvent(h, ev) && EventInScope(|h.p.init|, ev) && c in ev.endConditions
    ensures NormalExpr(c, AllDomains(h)) && Within(|h.p.init|, c)
  {
  }

  lemma PreconditionNormal(h: Source, e: EventId)
    requires Encodable(h) && IsEvent(h.p, e)
    ensures NormalExpr(Precondition(h.p, e), AllDomains(h))
    ensures NormalCondition(Convert(Precondition(h.p, e)), AllDomains(h))
    ensures Known(h, LeavesOf(Prepared(h, Precondition(h.p, e))))
  {
    var (es, extra) := (NotTrue(EventConditions(EventOf(h.p, e))), Fluent(Extra(h.p, Previous(h.p, e))));
    OperandsNormal(h, e);
    NotTrueMembers(EventConditions(EventOf(h.p, e)));
    ExtraFluent(h, Previous(h.p, e));
    ConvertNormal(extra, AllDomains(h));
    var operands := es + [extra];
    hide Within, Extra, EventConditions, Prepared, Convert;
    assert NormalExpr(extra, AllDomains(h)) && InReach(h, extra);
    assert forall c | c in es :: NormalExpr(c, AllDomains(h)) && InReach(h, c);
    if |operands| == 1 {
      assert operands[0] == extra;
      PreparedKnown(h, extra);
    } else {
      NormalMembers(operands, AllDomains(h));
      ConjunctionKnown(h, operands);
    }
  }

  lemma ConjunctionKnown(h: Source, es: seq<Expr>)
    requires NormalExprs(es, AllDomains(h)) && forall e | e in es :: InReach(h, e)
    ensures NormalCondition(Convert(And(es)), AllDomains(h))
    ensures Known(h, LeavesOf(Prepared(h, And(es))))
  {
    ConvertNormal(And(es), AllDomains(h));
    ConvertAllReady(h, es);
    SimplifiedKnown(h, Convert(And(es)));
  }

  lemma {:induction false} CompletionKnown(h: Source, a: nat)
    requires Encodable(h) && a <= |h.p.actions|
    ensures Known(h, LeavesOfAll(ConvertAll(ExtraGoals(h.p, a))))
    decreases |h.p.actions| - a
  {
    if a < |h.p.actions| {
      var e: EventId := (a, |h.p.actions[a].events| - 1);
      ExtraFluent(h, e);
      CompletionKnown(h, a + 1);
      var (es, x) := (ExtraGoals(h.p, a), Fluent(Extra(h.p, e)));
      assert es == [x] + ExtraGoals(h.p, a + 1) && es[1..] == ExtraGoals(h.p, a + 1);
      LeavesSnoc(ConvertAll(es[1..]), Convert(es[0]));
      assert LeavesOf(Convert(x)) == [x];
    }
  }

  lemma {:induction false} LeavesMember(cs: seq<Condition>, x: Expr)
    requires x in LeavesOfAll(cs)
    ensures exists k :: 0 <= k < |cs| && x in LeavesOf(cs[k])
  {
    if x !in LeavesOf(cs[0]) {
      LeavesMember(cs[1..], x);
      var k :| 0 <= k < |cs[1..]| && x in LeavesOf(cs[1..][k]);
      assert cs[k + 1] == cs[1..][k];
    }
  }

  lemma OperatorKnown(h: Source, k: nat)
    requires Encodable(h) && k < |OperatorConditions(h)|
    ensures Known(h, LeavesOf(OperatorConditions(h)[k]))
  {
    PreconditionNormal(h, OperatorsOf(h.p, 0)[k]);
  }

  lemma GoalsKnown(h: Source)
    requires Encodable(h)
    ensures NormalCondition(Convert(h.p.goal), AllDomains(h))
    ensures Known(h, LeavesOf(Goals(h))) && Known(h, LeavesOf(Completion(h)))
  {
    assert InReach(h, h.p.goal);
    PreparedKnown(h, h.p.goal);
    CompletionKnown(h, 0);
  }

  lemma FlagsKnown(h: Source)
    requires Encodable(h)
    ensures Known(h, FlagFluents(h.p))
  {
    forall x | x in FlagFluents(h.p) ensures KnownLeaf(h, x) {
      assert IsBool(x.f, AllDomains(h));
    }
  }

  // Where an interned leaf comes from.
  lemma InternedFrom(h: Source, x: Expr)
    requires WellFormed(h.p) && x in Interned(h)
    ensures x in FlagFluents(h.p) || x in LeavesOf(Goals(h)) || x in LeavesOf(Completion(h))
         || exists k :: 0 <= k < |OperatorConditions(h)| && x in LeavesOf(OperatorConditions(h)[k])
  {
    var (ops, goals, end) := (OperatorConditions(h), Goals(h), Completion(h));
    var cs := ops + [goals, end];
    DistinctSame(LeavesOfAll(cs) + FlagFluents(h.p));
    assert x in LeavesOfAll(cs) || x in FlagFluents(h.p);
    hide OperatorConditions, Goals, Completion, FlagFluents, LeavesOfAll, LeavesOf, Interned, WellFormed;
    if x in LeavesOfAll(cs) {
      LeavesMember(cs, x);
      var k :| 0 <= k < |cs| && x in LeavesOf(cs[k]);
      if k < |ops| {
        assert cs[k] == ops[k];
      }
    }
  }

  /** Every interned leaf is one the relaxation can handle. */
  lemma InternedKnown(h: Source)
    requires Encodable(h)
    ensures Known(h, Interned(h))
  {
    FlagsKnown(h);
    GoalsKnown(h);
    hide OperatorConditions, Goals, Completion, FlagFluents, Encodable, KnownLeaf, LeavesOf, Interned;
    forall x | x in Interned(h) ensures KnownLeaf(h, x) {
      InternedFrom(h, x);
      if k :| 0 <= k < |OperatorConditions(h)| && x in LeavesOf(OperatorConditions(h)[k]) {
        OperatorKnown(h, k);
      }
    }
  }
}
