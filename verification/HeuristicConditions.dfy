/**
 The conditions of the delete relaxation of `heuristics.rs`: AND/OR trees over leaf
 conditions, with the leaves rewritten to the ones the cost table can hold.
*/
module HeuristicConditions {
  import opened Options
  import opened Expr
  import opened LinearPolynomials

  datatype Domain = BoolDomain | NumberDomain | ObjectDomain(objects: seq<nat>)

  type Domains = seq<Domain>

  /** `HeuristicExpression`, as a tree.  Operands are in the order of the nodes. */
  datatype Condition = Leaf(e: Expr) | All(args: seq<Condition>) | Any(args: seq<Condition>)

  const FALSE := Const(BoolV(false))

  function HasCall(e: Expr): bool {
    match e
    case Const(_) => false
    case Fluent(_) => false
    case Not(a) => HasCall(a)
    case And(es) => AnyCall(es)
    case Or(es) => AnyCall(es)
    case Plus(es) => AnyCall(es)
    case Times(es) => AnyCall(es)
    case Call(_, _) => true
    case Equals(l, r) => HasCall(l) || HasCall(r)
    case Le(l, r) => HasCall(l) || HasCall(r)
    case Lt(l, r) => HasCall(l) || HasCall(r)
    case Minus(l, r) => HasCall(l) || HasCall(r)
    case Div(l, r) => HasCall(l) || HasCall(r)
  }

  function AnyCall(es: seq<Expr>): bool {
    es != [] && (HasCall(es[0]) || AnyCall(es[1..]))
  }

  /** `convert_to_heuristic_expression`: operands are popped last first. */
  function Convert(e: Expr): Condition {
    match e
    case And(es) => All(ConvertAll(es))
    case Or(es) => Any(ConvertAll(es))
    case _ => if e == Const(TRUE) then All([]) else Leaf(e)
  }

  function ConvertAll(es: seq<Expr>): seq<Condition> {
    if es == [] then [] else ConvertAll(es[1..]) + [Convert(es[0])]
  }

  predicate Objects(f: nat, doms: Domains) {
    f < |doms| && doms[f].ObjectDomain?
  }

  /** `is_object_typed`, of an expression without calls. */
  predicate IsObjectTyped(e: Expr, doms: Domains) {
    match e
    case Const(v) => v.ObjV?
    case Fluent(f) => Objects(f, doms)
    case _ => false
  }

  function Negated(e: Expr): Expr {
    if e.Not? then e.arg else e
  }

  /** `is_numeric_leaf_expression`. */
  predicate IsNumericLeaf(e: Expr, doms: Domains) {
    match Negated(e)
    case Equals(l, r) => !IsObjectTyped(l, doms) && !IsObjectTyped(r, doms)
    case Le(_, _) => true
    case Lt(_, _) => true
    case Plus(_) => true
    case Minus(_, _) => true
    case Times(_) => true
    case Div(_, _) => true
    case _ => false
  }

  function Is(f: nat, o: nat): Expr {
    Equals(Fluent(f), Const(ObjV(o)))
  }

  function Pair(f: nat, o: nat, g: nat, q: nat): Condition {
    All([Leaf(Is(f, o)), Leaf(Is(g, q))])
  }

  function AnyOf(cs: seq<Condition>): Condition {
    if cs == [] then Leaf(FALSE) else if |cs| == 1 then cs[0] else Any(cs)
  }

  function Others(f: nat, o: nat, objects: seq<nat>): seq<Condition> {
    if objects == [] then [] else
      (if objects[0] != o then [Leaf(Is(f, objects[0]))] else []) + Others(f, o, objects[1..])
  }

  function SamePairs(f: nat, g: nat, objects: seq<nat>, others: seq<nat>): seq<Condition> {
    if objects == [] then [] else
      (if objects[0] in others then [Pair(f, objects[0], g, objects[0])] else []) + SamePairs(f, g, objects[1..], others)
  }

  function Row(f: nat, g: nat, o: nat, others: seq<nat>): seq<Condition> {
    if others == [] then [] else
      (if others[0] != o then [Pair(f, o, g, others[0])] else []) + Row(f, g, o, others[1..])
  }

  function DifferentPairs(f: nat, g: nat, objects: seq<nat>, others: seq<nat>): seq<Condition> {
    if objects == [] then [] else Row(f, g, objects[0], others) + DifferentPairs(f, g, objects[1..], others)
  }

  /** `simplify_numeric_leaf_node`: only for what is linear. */
  function NumericForm(e: Expr): Option<Condition> {
    match e
    case Equals(l, r) => IfLinear(l, r, All([Leaf(Le(l, r)), Leaf(Le(r, l))]))
    case Not(Equals(l, r)) => IfLinear(l, r, Any([Leaf(Lt(l, r)), Leaf(Lt(r, l))]))
    case Not(Lt(l, r)) => IfLinear(r, l, Leaf(Le(r, l)))
    case Not(Le(l, r)) => IfLinear(r, l, Leaf(Lt(r, l)))
    case _ => None
  }

  function IfLinear(l: Expr, r: Expr, c: Condition): Option<Condition> {
    if ToPolynomial(Minus(l, r)).Some? then Some(c) else None
  }

  /** `simplify_fluent_not_equals_object_expression` and `simplify_object_equality`. */
  function ObjectForm(e: Expr, doms: Domains): Option<Condition> {
    match e
    case Not(Equals(Fluent(f), Const(ObjV(o)))) =>
      if Objects(f, doms) then Some(AnyOf(Others(f, o, doms[f].objects))) else None
    case Equals(Fluent(f), Fluent(g)) =>
      if Objects(f, doms) && Objects(g, doms) then
        Some(AnyOf(SamePairs(f, g, doms[f].objects, doms[g].objects)))
      else None
    case Not(Equals(Fluent(f), Fluent(g))) =>
      if Objects(f, doms) && Objects(g, doms) then
        Some(AnyOf(DifferentPairs(f, g, doms[f].objects, doms[g].objects)))
      else None
    case _ => None
  }

  /** `simplify_leaf`; None leaves the leaf as it is. */
  function SimplifyLeaf(e: Expr, doms: Domains, disableNumeric: bool): Option<Condition> {
    if HasCall(e) then None
    else if IsNumericLeaf(e, doms) then (if disableNumeric then None else NumericForm(e))
    else ObjectForm(e, doms)
  }

  /** `simplify_condition`. */
  function Simplify(c: Condition, doms: Domains, disableNumeric: bool): Condition {
    match c
    case Leaf(e) =>
      var q := SimplifyLeaf(e, doms, disableNumeric);
      if q.Some? then q.value else c
    case All(cs) => All(SimplifyAll(cs, doms, disableNumeric))
    case Any(cs) => Any(SimplifyAll(cs, doms, disableNumeric))
  }

  function SimplifyAll(cs: seq<Condition>, doms: Domains, disableNumeric: bool): seq<Condition> {
    if cs == [] then [] else [Simplify(cs[0], doms, disableNumeric)] + SimplifyAll(cs[1..], doms, disableNumeric)
  }

  // ---- what conditions mean ----

  predicate IsTrue(e: Expr, s: Assignment, fs: Functions) {
    Eval(e, s, fs) == Some(TRUE)
  }

  /** The condition holds when its leaves are looked at one by one. */
  predicate Meets(c: Condition, s: Assignment, fs: Functions) {
    match c
    case Leaf(e) => IsTrue(e, s, fs)
    case All(cs) => MeetsAll(cs, s, fs)
    case Any(cs) => MeetsAny(cs, s, fs)
  }

  predicate MeetsAll(cs: seq<Condition>, s: Assignment, fs: Functions) {
    cs == [] || (Meets(cs[0], s, fs) && MeetsAll(cs[1..], s, fs))
  }

  predicate MeetsAny(cs: seq<Condition>, s: Assignment, fs: Functions) {
    cs != [] && (Meets(cs[0], s, fs) || MeetsAny(cs[1..], s, fs))
  }

  lemma {:induction false} MeetsAllIff(cs: seq<Condition>, s: Assignment, fs: Functions)
    ensures MeetsAll(cs, s, fs) <==> forall c | c in cs :: Meets(c, s, fs)
  {
    if cs != [] {
      MeetsAllIff(cs[1..], s, fs);
      assert cs[0] in cs && forall c | c in cs :: c == cs[0] || c in cs[1..];
    }
  }

  lemma {:induction false} MeetsAnyIff(cs: seq<Condition>, s: Assignment, fs: Functions)
    ensures MeetsAny(cs, s, fs) <==> exists c :: c in cs && Meets(c, s, fs)
  {
    if cs != [] {
      MeetsAnyIff(cs[1..], s, fs);
      assert cs[0] in cs && forall c | c in cs :: c == cs[0] || c in cs[1..];
    }
  }

  /** An expression that evaluates is true exactly when its conversion is met. */
  lemma {:induction false} ConvertMeans(e: Expr, s: Assignment, fs: Functions)
    requires Eval(e, s, fs).Some?
    ensures Meets(Convert(e), s, fs) <==> IsTrue(e, s, fs)
    decreases e, 1
  {
    match e
    case And(es) => ConvertAllMeans(es, s, fs);
    case Or(es) => ConvertAllMeans(es, s, fs);
    case _ =>
  }

  lemma {:induction false} ConvertAllMeans(es: seq<Expr>, s: Assignment, fs: Functions)
    requires EvalAll(es, s, fs).Some?
    ensures MeetsAll(ConvertAll(es), s, fs) <==> forall v | v in EvalAll(es, s, fs).value :: v == TRUE
    ensures MeetsAny(ConvertAll(es), s, fs) <==> exists v :: v in EvalAll(es, s, fs).value && v == TRUE
    decreases es, 0
  {
    if es != [] {
      ConvertMeans(es[0], s, fs);
      ConvertAllMeans(es[1..], s, fs);
      MeetsConcat(ConvertAll(es[1..]), Convert(es[0]), s, fs);
      var (vals, rest) := (EvalAll(es, s, fs).value, EvalAll(es[1..], s, fs).value);
      assert vals == [Eval(es[0], s, fs).value] + rest;
      assert ConvertAll(es) == ConvertAll(es[1..]) + [Convert(es[0])];
      hide Meets, MeetsAll, MeetsAny, Convert, ConvertAll, Eval, EvalAll;
      assert vals[0] in vals && forall v | v in vals :: v == vals[0] || v in rest;
      assert forall v | v in rest :: v in vals;
    }
  }

  lemma {:induction false} MeetsConcat(cs: seq<Condition>, c: Condition, s: Assignment, fs: Functions)
    ensures MeetsAll(cs + [c], s, fs) <==> MeetsAll(cs, s, fs) && Meets(c, s, fs)
    ensures MeetsAny(cs + [c], s, fs) <==> MeetsAny(cs, s, fs) || Meets(c, s, fs)
  {
    if cs == [] {
      assert (cs + [c])[1..] == [];
    } else {
      MeetsConcat(cs[1..], c, s, fs);
      assert (cs + [c])[1..] == cs[1..] + [c];
    }
  }

  // ---- the rewriting is exact ----

  predicate InDomain(d: Domain, v: Value) {
    match d
    case BoolDomain => v.BoolV?
    case NumberDomain => v.NumV?
    case ObjectDomain(objects) => v.ObjV? && v.o in objects
  }

  /** Every fluent has a value of its type. */
  predicate Typed(s: Assignment, doms: Domains) {
    |s| == |doms| && forall f | 0 <= f < |s| :: InDomain(doms[f], s[f])
  }

  predicate NumbersOnly(e: Expr, doms: Domains) {
    forall f | f in Fluents(e) :: f < |doms| && doms[f].NumberDomain?
  }

  predicate IsBool(f: nat, doms: Domains) {
    f < |doms| && doms[f].BoolDomain?
  }

  /** The leaves the encoder makes, in negation normal form: comparisons of numbers,
      calls, boolean fluents, and objects compared with fluents on the left. */
  predicate NormalLeaf(e: Expr, doms: Domains) {
    || HasCall(e)
    || (IsNumericLeaf(e, doms) && NumbersOnly(e, doms))
    || PropositionalLeaf(e, doms)
    || ObjectLeaf(Negated(e), doms)
  }

  predicate PropositionalLeaf(e: Expr, doms: Domains) {
    match Negated(e)
    case Fluent(f) => IsBool(f, doms)
    case Const(v) => !e.Not? && v.BoolV?
    case _ => false
  }

  predicate ObjectLeaf(e: Expr, doms: Domains) {
    match e
    case Equals(Fluent(f), Const(ObjV(_))) => Objects(f, doms)
    case Equals(Fluent(f), Fluent(g)) => Objects(f, doms) && Objects(g, doms)
    case _ => false
  }

  lemma AnyOfMeans(cs: seq<Condition>, s: Assignment, fs: Functions)
    ensures Meets(AnyOf(cs), s, fs) <==> exists c :: c in cs && Meets(c, s, fs)
  {
    MeetsAnyIff(cs, s, fs);
    if |cs| == 1 {
      assert cs[0] in cs;
    }
  }

  lemma IsMeans(f: nat, o: nat, s: Assignment, fs: Functions)
    requires f < |s|
    ensures Meets(Leaf(Is(f, o)), s, fs) <==> s[f] == ObjV(o)
  {
    assert Eval(Fluent(f), s, fs) == Some(s[f]) && Eval(Const(ObjV(o)), s, fs) == Some(ObjV(o));
  }

  lemma {:induction false} OthersMean(f: nat, o: nat, objects: seq<nat>, s: Assignment, fs: Functions)
    requires f < |s|
    ensures (exists c :: c in Others(f, o, objects) && Meets(c, s, fs))
        <==> s[f].ObjV? && s[f].o in objects && s[f].o != o
  {
    if objects != [] {
      OthersMean(f, o, objects[1..], s, fs);
      var (head, rest) := (Leaf(Is(f, objects[0])), Others(f, o, objects[1..]));
      assert Others(f, o, objects) == (if objects[0] != o then [head] else []) + rest;
      IsMeans(f, objects[0], s, fs);
      hide Meets, Others;
      assert objects[0] != o ==> head in Others(f, o, objects);
      assert forall c | c in rest :: c in Others(f, o, objects);
    }
  }

  lemma TwoMeet(a: Condition, b: Condition, s: Assignment, fs: Functions)
    ensures Meets(All([a, b]), s, fs) <==> Meets(a, s, fs) && Meets(b, s, fs)
    ensures Meets(Any([a, b]), s, fs) <==> Meets(a, s, fs) || Meets(b, s, fs)
  {
    MeetsAllIff([a, b], s, fs);
    MeetsAnyIff([a, b], s, fs);
    assert a in [a, b] && b in [a, b];
  }

  lemma PairMeans(f: nat, o: nat, g: nat, q: nat, s: Assignment, fs: Functions)
    requires f < |s| && g < |s|
    ensures Meets(Pair(f, o, g, q), s, fs) <==> s[f] == ObjV(o) && s[g] == ObjV(q)
  {
    IsMeans(f, o, s, fs);
    IsMeans(g, q, s, fs);
    TwoMeet(Leaf(Is(f, o)), Leaf(Is(g, q)), s, fs);
  }

  lemma {:induction false} SamePairsMean(f: nat, g: nat, objects: seq<nat>, others: seq<nat>, s: Assignment, fs: Functions)
    requires f < |s| && g < |s|
    ensures (exists c :: c in SamePairs(f, g, objects, others) && Meets(c, s, fs))
        <==> s[f].ObjV? && s[f] == s[g] && s[f].o in objects && s[f].o in others
  {
    if objects != [] {
      var o := objects[0];
      SamePairsMean(f, g, objects[1..], others, s, fs);
      PairMeans(f, o, g, o, s, fs);
      var (head, rest, cs) := (Pair(f, o, g, o), SamePairs(f, g, objects[1..], others), SamePairs(f, g, objects, others));
      assert cs == (if o in others then [head] else []) + rest;
      hide Meets, Pair, SamePairs;
      assert o in others ==> head in cs;
      assert forall c | c in rest :: c in cs;
    }
  }

  lemma {:induction false} RowMeans(f: nat, g: nat, o: nat, others: seq<nat>, s: Assignment, fs: Functions)
    requires f < |s| && g < |s|
    ensures (exists c :: c in Row(f, g, o, others) && Meets(c, s, fs))
        <==> s[f] == ObjV(o) && s[g].ObjV? && s[g].o in others && s[g].o != o
  {
    if others != [] {
      var q := others[0];
      RowMeans(f, g, o, others[1..], s, fs);
      PairMeans(f, o, g, q, s, fs);
      var (head, rest, cs) := (Pair(f, o, g, q), Row(f, g, o, others[1..]), Row(f, g, o, others));
      assert cs == (if q != o then [head] else []) + rest;
      hide Meets, Pair, Row;
      assert q != o ==> head in cs;
      assert forall c | c in rest :: c in cs;
    }
  }

  lemma {:induction false} DifferentPairsMean(
    f: nat, g: nat, objects: seq<nat>, others: seq<nat>, s: Assignment, fs: Functions)
    requires f < |s| && g < |s|
    ensures (exists c :: c in DifferentPairs(f, g, objects, others) && Meets(c, s, fs))
        <==> s[f].ObjV? && s[g].ObjV? && s[f].o in objects && s[g].o in others && s[f] != s[g]
  {
    if objects != [] {
      DifferentPairsMean(f, g, objects[1..], others, s, fs);
      RowMeans(f, g, objects[0], others, s, fs);
      var (row, rest) := (Row(f, g, objects[0], others), DifferentPairs(f, g, objects[1..], others));
      hide Meets, Row;
      assert forall c :: c in row + rest <==> c in row || c in rest;
    }
  }

  /** Comparing numbers is rewritten exactly, wherever they are linear. */
  lemma NumericMeans(e: Expr, doms: Domains, s: Assignment, fs: Functions)
    requires NumbersOnly(e, doms) && Typed(s, doms) && NumericForm(e).Some?
    ensures Meets(NumericForm(e).value, s, fs) <==> IsTrue(e, s, fs)
  {
    var cmp := Negated(e);
    assert Numeric(s, Fluents(e)) by {
      assert forall f | f in Fluents(e) :: InDomain(doms[f], s[f]);
    }
    assert Fluents(e) == Fluents(cmp.l) + Fluents(cmp.r);
    PolynomialMeans(cmp.l, s, fs);
    PolynomialMeans(cmp.r, s, fs);
    var (l, r) := (cmp.l, cmp.r);
    TwoMeet(Leaf(Le(l, r)), Leaf(Le(r, l)), s, fs);
    TwoMeet(Leaf(Lt(l, r)), Leaf(Lt(r, l)), s, fs);
    Compares(l, r, s, fs);
    Compares(r, l, s, fs);
    hide ToPolynomial, Fluents, Typed, NumbersOnly, ValueOf;
  }

  // How the comparisons of two numbers evaluate.
  lemma Compares(l: Expr, r: Expr, s: Assignment, fs: Functions)
    requires Eval(l, s, fs).Some? && Eval(r, s, fs).Some?
    requires Eval(l, s, fs).value.NumV? && Eval(r, s, fs).value.NumV?
    ensures var (x, y) := (Eval(l, s, fs).value.n, Eval(r, s, fs).value.n);
      && Eval(Le(l, r), s, fs) == Some(BoolV(x <= y)) && Eval(Not(Le(l, r)), s, fs) == Some(BoolV(!(x <= y)))
      && Eval(Lt(l, r), s, fs) == Some(BoolV(x < y)) && Eval(Not(Lt(l, r)), s, fs) == Some(BoolV(!(x < y)))
      && Eval(Equals(l, r), s, fs) == Some(BoolV(x == y)) && Eval(Not(Equals(l, r)), s, fs) == Some(BoolV(!(x == y)))
      && (Meets(Leaf(Le(l, r)), s, fs) <==> x <= y) && (Meets(Leaf(Lt(l, r)), s, fs) <==> x < y)
  {
  }

  lemma ObjectMeans(e: Expr, doms: Domains, s: Assignment, fs: Functions)
    requires Typed(s, doms) && ObjectForm(e, doms).Some?
    ensures Meets(ObjectForm(e, doms).value, s, fs) <==> IsTrue(e, s, fs)
  {
    var eq := Negated(e);
    assert Eval(eq.l, s, fs) == Some(s[eq.l.f]);
    assert eq.r.Fluent? ==> Eval(eq.r, s, fs) == Some(s[eq.r.f]);
    assert eq.r.Const? ==> Eval(eq.r, s, fs) == Some(eq.r.value);
    assert Eval(eq, s, fs) == Some(BoolV(Eval(eq.l, s, fs) == Eval(eq.r, s, fs)));
    match e
    case Not(Equals(Fluent(f), Const(ObjV(o)))) =>
      OthersMean(f, o, doms[f].objects, s, fs);
      AnyOfMeans(Others(f, o, doms[f].objects), s, fs);
      assert InDomain(doms[f], s[f]);
    case Equals(Fluent(f), Fluent(g)) =>
      SamePairsMean(f, g, doms[f].objects, doms[g].objects, s, fs);
      AnyOfMeans(SamePairs(f, g, doms[f].objects, doms[g].objects), s, fs);
      assert InDomain(doms[f], s[f]) && InDomain(doms[g], s[g]);
    case Not(Equals(Fluent(f), Fluent(g))) =>
      DifferentPairsMean(f, g, doms[f].objects, doms[g].objects, s, fs);
      AnyOfMeans(DifferentPairs(f, g, doms[f].objects, doms[g].objects), s, fs);
      assert InDomain(doms[f], s[f]) && InDomain(doms[g], s[g]);
  }

  /** A leaf's rewriting is met exactly when the leaf is true. */
  lemma LeafMeans(e: Expr, doms: Domains, disableNumeric: bool, s: Assignment, fs: Functions)
    requires NormalLeaf(e, doms) && Typed(s, doms)
    ensures Meets(Simplify(Leaf(e), doms, disableNumeric), s, fs) <==> IsTrue(e, s, fs)
  {
    var q := SimplifyLeaf(e, doms, disableNumeric);
    if q.Some? {
      if IsNumericLeaf(e, doms) {
        NumericMeans(e, doms, s, fs);
      } else {
        ObjectMeans(e, doms, s, fs);
      }
    }
  }

  ghost predicate NormalCondition(c: Condition, doms: Domains) {
    match c
    case Leaf(e) => NormalLeaf(e, doms)
    case All(cs) => NormalConditions(cs, doms)
    case Any(cs) => NormalConditions(cs, doms)
  }

  ghost predicate NormalConditions(cs: seq<Condition>, doms: Domains) {
    cs == [] || (NormalCondition(cs[0], doms) && NormalConditions(cs[1..], doms))
  }

  /** `simplify_condition` changes no condition's meaning. */
  lemma {:induction false} SimplifyMeans(c: Condition, doms: Domains, disableNumeric: bool, s: Assignment, fs: Functions)
    requires NormalCondition(c, doms) && Typed(s, doms)
    ensures Meets(Simplify(c, doms, disableNumeric), s, fs) <==> Meets(c, s, fs)
    decreases c, 1
  {
    match c
    case Leaf(e) => LeafMeans(e, doms, disableNumeric, s, fs);
    case All(cs) => SimplifyAllMeans(cs, doms, disableNumeric, s, fs);
    case Any(cs) => SimplifyAllMeans(cs, doms, disableNumeric, s, fs);
  }

  lemma {:induction false} SimplifyAllMeans(
    cs: seq<Condition>, doms: Domains, disableNumeric: bool, s: Assignment, fs: Functions)
    requires NormalConditions(cs, doms) && Typed(s, doms)
    ensures MeetsAll(SimplifyAll(cs, doms, disableNumeric), s, fs) <==> MeetsAll(cs, s, fs)
    ensures MeetsAny(SimplifyAll(cs, doms, disableNumeric), s, fs) <==> MeetsAny(cs, s, fs)
    decreases cs, 0
  {
    if cs != [] {
      SimplifyMeans(cs[0], doms, disableNumeric, s, fs);
      SimplifyAllMeans(cs[1..], doms, disableNumeric, s, fs);
      hide NormalConditions, Typed, Meets, Simplify;
      var rest := SimplifyAll(cs[1..], doms, disableNumeric);
      assert ([Simplify(cs[0], doms, disableNumeric)] + rest)[1..] == rest;
    }
  }
}
