/**
 Linear polynomials of expressions, and the numeric reasoning of the delete
 relaxation of `heuristics.rs`: what an effect does to a fluent, which operators can
 make a linear condition true, and in how many repetitions.
*/
module LinearPolynomials {
  import opened Options
  import opened Expr

  /** A weight per fluent; the constant may be missing, which is not the same to
      `IsConstant`. */
  datatype Polynomial = Polynomial(weights: map<nat, real>, constant: Option<real>)

  function ConstantOf(q: Polynomial): real {
    if q.constant.Some? then q.constant.value else 0.0
  }

  predicate IsConstant(q: Polynomial) {
    q.weights == map[] && q.constant.Some?
  }

  function Weight(w: map<nat, real>, f: nat): real {
    if f in w then w[f] else 0.0
  }

  // Adds two polynomials, or subtracts the second.
  function Merged(a: map<nat, real>, b: map<nat, real>, negate: bool): map<nat, real> {
    map f | f in a.Keys + b.Keys :: Weight(a, f) + if negate then -Weight(b, f) else Weight(b, f)
  }

  function MergedConstant(a: Option<real>, b: Option<real>, negate: bool): Option<real> {
    if b.None? then a
    else Some((if a.Some? then a.value else 0.0) + if negate then -b.value else b.value)
  }

  function Merge(a: Polynomial, b: Polynomial, negate: bool): Polynomial {
    Polynomial(Merged(a.weights, b.weights, negate), MergedConstant(a.constant, b.constant, negate))
  }

  function Simplified(q: Polynomial): Polynomial {
    q.(weights := map f | f in q.weights && q.weights[f] != 0.0 :: q.weights[f])
  }

  function Scaled(w: map<nat, real>, k: real): map<nat, real> {
    map f | f in w :: Mul(w[f], k)
  }

  function Scale(q: Polynomial, k: real): Polynomial {
    Polynomial(Scaled(q.weights, k), if q.constant.Some? then Some(Mul(q.constant.value, k)) else None)
  }

  // The polynomial of a product.
  function ProductOfFactors(fac: (real, Option<Polynomial>)): Polynomial {
    if fac.1.Some? && fac.0 != 0.0 then Scale(fac.1.value, fac.0) else Polynomial(map[], Some(fac.0))
  }

  /** `to_linear_polynomial`; None for what is not linear.  (The converter makes no
      empty sum and no empty product.) */
  function ToPolynomial(e: Expr): Option<Polynomial> {
    match e
    case Const(NumV(n)) => Some(Polynomial(map[], Some(n)))
    case Fluent(f) => Some(Polynomial(map[f := 1.0], None))
    case Minus(l, r) =>
      var (a, b) := (ToPolynomial(l), ToPolynomial(r));
      if a.None? || b.None? then None else Some(Simplified(Merge(a.value, b.value, true)))
    case Plus(es) =>
      if es == [] then None else
        var q := SumPolynomial(es);
        if q.None? then None else Some(Simplified(q.value))
    case Times(es) =>
      if es == [] || Factors(es).None? then None else Some(ProductOfFactors(Factors(es).value))
    case Div(l, r) =>
      var (a, b) := (ToPolynomial(l), ToPolynomial(r));
      if a.None? || b.None? || !IsConstant(b.value) || b.value.constant.value == 0.0 then None
      else Some(Scale(a.value, 1.0 / b.value.constant.value))
    case _ => None
  }

  function SumPolynomial(es: seq<Expr>): Option<Polynomial>
    requires es != []
  {
    var q := ToPolynomial(es[|es| - 1]);
    if |es| == 1 then q else
      var p := SumPolynomial(es[..|es| - 1]);
      if p.None? || q.None? then None else Some(Merge(p.value, q.value, false))
  }

  // The product of the constant operands, and the only other one if there is one.
  function Factors(es: seq<Expr>): Option<(real, Option<Polynomial>)> {
    if es == [] then Some((1.0, None)) else
      var (p, q) := (Factors(es[..|es| - 1]), ToPolynomial(es[|es| - 1]));
      if p.None? || q.None? then None
      else if IsConstant(q.value) then Some((Mul(p.value.0, q.value.constant.value), p.value.1))
      else if p.value.1.Some? then None
      else Some((p.value.0, q))
  }

  // ---- its value ----

  function Term(w: map<nat, real>, s: Assignment, f: nat): real {
    if f in w && f < |s| && s[f].NumV? then Mul(w[f], s[f].n) else 0.0
  }

  /** The weighted sum of the fluents below `n`. */
  function Weighted(w: map<nat, real>, s: Assignment, n: nat): real {
    if n == 0 then 0.0 else Weighted(w, s, n - 1) + Term(w, s, n - 1)
  }

  function ValueOf(q: Polynomial, s: Assignment): real {
    Weighted(q.weights, s, |s|) + ConstantOf(q)
  }

  predicate Numeric(s: Assignment, fls: set<nat>) {
    forall f | f in fls :: f < |s| && s[f].NumV?
  }

  lemma {:induction false} MergedValue(a: map<nat, real>, b: map<nat, real>, negate: bool, s: Assignment, n: nat)
    ensures Weighted(Merged(a, b, negate), s, n)
         == Weighted(a, s, n) + if negate then -Weighted(b, s, n) else Weighted(b, s, n)
  {
    if n > 0 {
      MergedValue(a, b, negate, s, n - 1);
      MergedTerm(a, b, negate, s, n - 1);
      hide Merged, Term;
    }
  }

  lemma MergedTerm(a: map<nat, real>, b: map<nat, real>, negate: bool, s: Assignment, f: nat)
    ensures Term(Merged(a, b, negate), s, f) == Term(a, s, f) + if negate then -Term(b, s, f) else Term(b, s, f)
  {
    if f < |s| && s[f].NumV? {
      var (x, y) := (Weight(a, f), Weight(b, f));
      MulDistributes(s[f].n, x, if negate then -y else y);
    }
  }

  lemma {:induction false} SimplifiedValue(q: Polynomial, s: Assignment, n: nat)
    ensures Weighted(Simplified(q).weights, s, n) == Weighted(q.weights, s, n)
  {
    if n > 0 {
      SimplifiedValue(q, s, n - 1);
    }
  }

  lemma MulScaled(x: real, k: real, y: real)
    ensures Mul(Mul(x, k), y) == Mul(Mul(x, y), k)
  {
  }

  lemma MulAdds(x: real, y: real, k: real)
    ensures Mul(x + y, k) == Mul(x, k) + Mul(y, k)
  {
  }

  lemma {:induction false} ScaledValue(w: map<nat, real>, k: real, s: Assignment, n: nat)
    ensures Weighted(Scaled(w, k), s, n) == Mul(Weighted(w, s, n), k)
  {
    if n > 0 {
      ScaledValue(w, k, s, n - 1);
      MulAdds(Weighted(w, s, n - 1), Term(w, s, n - 1), k);
      if n - 1 in w && n - 1 < |s| && s[n - 1].NumV? {
        MulScaled(w[n - 1], k, s[n - 1].n);
      }
    }
  }

  lemma {:induction false} NoWeights(s: Assignment, n: nat)
    ensures Weighted(map[], s, n) == 0.0
  {
    if n > 0 {
      NoWeights(s, n - 1);
    }
  }

  lemma {:induction false} OneWeight(f: nat, s: Assignment, n: nat)
    requires f < |s| && s[f].NumV?
    ensures Weighted(map[f := 1.0], s, n) == if f < n then s[f].n else 0.0
  {
    if n > 0 {
      OneWeight(f, s, n - 1);
    }
  }

  lemma TimesZero(x: real)
    ensures Mul(x, 0.0) == 0.0 && Mul(1.0, x) == x
  {
  }

  // ---- what it stands for ----

  // `e` has the value of the polynomial, and its fluents are those of `e`.
  ghost predicate StandsFor(q: Polynomial, e: Expr, s: Assignment, fs: Functions) {
    Eval(e, s, fs) == Some(NumV(ValueOf(q, s))) && q.weights.Keys <= Fluents(e)
  }

  lemma MergeStands(a: Polynomial, b: Polynomial, negate: bool, s: Assignment)
    ensures ValueOf(Merge(a, b, negate), s) == ValueOf(a, s) + if negate then -ValueOf(b, s) else ValueOf(b, s)
    ensures Merge(a, b, negate).weights.Keys == a.weights.Keys + b.weights.Keys
  {
    MergedValue(a.weights, b.weights, negate, s, |s|);
  }

  lemma ScaleStands(q: Polynomial, k: real, s: Assignment)
    ensures ValueOf(Scale(q, k), s) == Mul(ValueOf(q, s), k)
    ensures Scale(q, k).weights.Keys == q.weights.Keys
  {
    ScaledValue(q.weights, k, s, |s|);
    MulAdds(Weighted(q.weights, s, |s|), ConstantOf(q), k);
  }

  lemma Quotient(x: real, y: real)
    requires y != 0.0
    ensures Mul(x, 1.0 / y) == x / y
  {
  }

  lemma MinusMeans(l: Expr, r: Expr, a: Polynomial, b: Polynomial, s: Assignment, fs: Functions)
    requires StandsFor(a, l, s, fs) && StandsFor(b, r, s, fs)
    ensures StandsFor(Simplified(Merge(a, b, true)), Minus(l, r), s, fs)
  {
    var q := Merge(a, b, true);
    MergeStands(a, b, true, s);
    SimplifiedValue(q, s, |s|);
    assert Simplified(q).weights.Keys <= q.weights.Keys;
    assert Eval(Minus(l, r), s, fs) == MinusOf(Eval(l, s, fs).value, Eval(r, s, fs).value);
    hide Weighted, Merge, Term;
  }

  lemma DivMeans(l: Expr, r: Expr, a: Polynomial, b: Polynomial, s: Assignment, fs: Functions)
    requires StandsFor(a, l, s, fs) && StandsFor(b, r, s, fs) && IsConstant(b) && b.constant.value != 0.0
    ensures StandsFor(Scale(a, 1.0 / b.constant.value), Div(l, r), s, fs)
  {
    NoWeights(s, |s|);
    ScaleStands(a, 1.0 / b.constant.value, s);
    Quotient(ValueOf(a, s), b.constant.value);
    assert Eval(Div(l, r), s, fs) == DivOf(Eval(l, s, fs).value, Eval(r, s, fs).value);
    hide Weighted, Scale, Term, Mul;
  }

  lemma PlusMeans(es: seq<Expr>, q: Polynomial, s: Assignment, fs: Functions)
    requires EvalAll(es, s, fs).Some? && SumOf(EvalAll(es, s, fs).value) == Some(NumV(ValueOf(q, s)))
    requires q.weights.Keys <= AllFluents(es)
    ensures StandsFor(Simplified(q), Plus(es), s, fs)
  {
    SimplifiedValue(q, s, |s|);
    assert Simplified(q).weights.Keys <= q.weights.Keys;
    hide Weighted, Term;
  }

  lemma TimesMeans(es: seq<Expr>, fac: (real, Option<Polynomial>), s: Assignment, fs: Functions)
    requires EvalAll(es, s, fs).Some? && ProductOf(EvalAll(es, s, fs).value) == Some(NumV(FactorsValue(fac, s)))
    requires fac.1.Some? ==> fac.1.value.weights.Keys <= AllFluents(es)
    ensures StandsFor(ProductOfFactors(fac), Times(es), s, fs)
  {
    NoWeights(s, |s|);
    if fac.1.Some? {
      ScaleStands(fac.1.value, fac.0, s);
      TimesZero(ValueOf(fac.1.value, s));
    }
    hide Weighted, Scale, Term, Mul;
  }

  /** A linear expression evaluates, wherever its fluents are numbers, to the value of
      its polynomial. */
  lemma {:induction false} PolynomialMeans(e: Expr, s: Assignment, fs: Functions)
    requires ToPolynomial(e).Some? && Numeric(s, Fluents(e))
    ensures StandsFor(ToPolynomial(e).value, e, s, fs)
    decreases e, 1
  {
    match e
    case Const(NumV(n)) => NoWeights(s, |s|);
    case Fluent(f) => OneWeight(f, s, |s|);
    case Minus(l, r) =>
      PolynomialMeans(l, s, fs);
      PolynomialMeans(r, s, fs);
      hide StandsFor, Merge, Simplified;
      MinusMeans(l, r, ToPolynomial(l).value, ToPolynomial(r).value, s, fs);
    case Plus(es) =>
      hide StandsFor, Simplified, SumPolynomial;
      SumMeans(es, s, fs);
      PlusMeans(es, SumPolynomial(es).value, s, fs);
    case Times(es) =>
      hide StandsFor, Factors, FactorsValue;
      FactorsMean(es, s, fs);
      TimesMeans(es, Factors(es).value, s, fs);
    case Div(l, r) =>
      PolynomialMeans(l, s, fs);
      PolynomialMeans(r, s, fs);
      hide StandsFor, Scale;
      DivMeans(l, r, ToPolynomial(l).value, ToPolynomial(r).value, s, fs);
  }

  lemma {:induction false} EvalAllSnoc(es: seq<Expr>, s: Assignment, fs: Functions)
    requires es != []
    ensures EvalAll(es, s, fs) ==
      var (vals, v) := (EvalAll(es[..|es| - 1], s, fs), Eval(es[|es| - 1], s, fs));
      if vals.None? || v.None? then None else Some(vals.value + [v.value])
  {
    if |es| == 1 {
      assert es[1..] == [] == es[..|es| - 1];
      assert EvalAll(es[1..], s, fs) == Some([]);
      if v :| Eval(es[0], s, fs) == Some(v) {
        assert [v] + [] == [] + [v];
      }
    } else {
      var init := es[..|es| - 1];
      EvalAllSnoc(es[1..], s, fs);
      assert es[1..][..|es| - 2] == init[1..] && init[0] == es[0];
      var (v, vals, w) := (Eval(es[0], s, fs), EvalAll(init[1..], s, fs), Eval(es[|es| - 1], s, fs));
      if v.Some? && vals.Some? && w.Some? {
        assert [v.value] + (vals.value + [w.value]) == ([v.value] + vals.value) + [w.value];
      }
    }
  }

  lemma {:induction false} AllFluentsSnoc(es: seq<Expr>)
    requires es != []
    ensures AllFluents(es) == AllFluents(es[..|es| - 1]) + Fluents(es[|es| - 1])
  {
    if |es| == 1 {
      assert es[1..] == [] == es[..|es| - 1];
    } else {
      AllFluentsSnoc(es[1..]);
      assert es[1..][..|es| - 2] == es[..|es| - 1][1..];
    }
  }

  lemma {:induction false} SumMeans(es: seq<Expr>, s: Assignment, fs: Functions)
    requires es != [] && SumPolynomial(es).Some? && Numeric(s, AllFluents(es))
    ensures EvalAll(es, s, fs).Some?
    ensures SumOf(EvalAll(es, s, fs).value) == Some(NumV(ValueOf(SumPolynomial(es).value, s)))
    ensures SumPolynomial(es).value.weights.Keys <= AllFluents(es)
    decreases es, 0
  {
    hide Weighted, Merge, Scale, Term, Mul, Simplified;
    var (init, last) := (es[..|es| - 1], es[|es| - 1]);
    EvalAllSnoc(es, s, fs);
    AllFluentsSnoc(es);
    PolynomialMeans(last, s, fs);
    var v := Eval(last, s, fs).value;
    if |es| == 1 {
      assert EvalAll(init, s, fs) == Some([]);
      assert EvalAll(es, s, fs).value == [v];
    } else {
      SumMeans(init, s, fs);
      var vals := EvalAll(init, s, fs).value;
      assert (vals + [v])[..|vals|] == vals;
      MergeStands(SumPolynomial(init).value, ToPolynomial(last).value, false, s);
    }
  }

  // The value of the factors: a constant, times the polynomial if there is one.
  function FactorsValue(fac: (real, Option<Polynomial>), s: Assignment): real {
    if fac.1.None? then fac.0 else Mul(ValueOf(fac.1.value, s), fac.0)
  }

  lemma FactorsValueOne(s: Assignment)
    ensures FactorsValue((1.0, None), s) == 1.0
  {
  }

  lemma FactorsStep(fac: (real, Option<Polynomial>), q: Polynomial, s: Assignment)
    requires IsConstant(q) || fac.1.None?
    ensures IsConstant(q) ==>
              FactorsValue((Mul(fac.0, q.constant.value), fac.1), s) == Mul(FactorsValue(fac, s), ValueOf(q, s))
    ensures !IsConstant(q) ==> FactorsValue((fac.0, Some(q)), s) == Mul(FactorsValue(fac, s), ValueOf(q, s))
  {
    if IsConstant(q) {
      NoWeights(s, |s|);
      if fac.1.Some? {
        MulScaled(ValueOf(fac.1.value, s), fac.0, q.constant.value);
        MulAssociates(ValueOf(fac.1.value, s), fac.0, q.constant.value);
      }
    }
  }

  lemma MulAssociates(x: real, y: real, z: real)
    ensures Mul(x, Mul(y, z)) == Mul(Mul(x, y), z)
  {
  }

  lemma {:induction false} FactorsMean(es: seq<Expr>, s: Assignment, fs: Functions)
    requires Factors(es).Some? && Numeric(s, AllFluents(es))
    ensures EvalAll(es, s, fs).Some?
    ensures es != [] ==> ProductOf(EvalAll(es, s, fs).value) == Some(NumV(FactorsValue(Factors(es).value, s)))
    ensures Factors(es).value.1.Some? ==> Factors(es).value.1.value.weights.Keys <= AllFluents(es)
    decreases es, 0
  {
    hide Weighted, Term, Mul, FactorsValue;
    if es != [] {
      var (init, last) := (es[..|es| - 1], es[|es| - 1]);
      EvalAllSnoc(es, s, fs);
      AllFluentsSnoc(es);
      PolynomialMeans(last, s, fs);
      FactorsMean(init, s, fs);
      FactorsStep(Factors(init).value, ToPolynomial(last).value, s);
      var (v, vals) := (Eval(last, s, fs).value, EvalAll(init, s, fs).value);
      assert (vals + [v])[..|vals|] == vals;
      if |es| == 1 {
        assert init == [] && Factors(init) == Some((1.0, None));
        FactorsValueOne(s);
        TimesZero(v.n);
        assert EvalAll(es, s, fs).value == [v];
      }
    }
  }

  // ---- effects and conditions ----

  datatype Change = Assigned(v: real) | Increased(k: real) | Complex

  /** `update_numeric_effects`. */
  function ChangeOf(f: nat, value: Expr): Change {
    if value.Const? && value.value.NumV? then Assigned(value.value.n) else
      match ToPolynomial(value)
      case Some(q) => if q.weights == map[f := 1.0] then Increased(ConstantOf(q)) else Complex
      case None => Complex
  }

  /** A constant increase adds its amount. */
  lemma IncreaseAdds(f: nat, value: Expr, s: Assignment, fs: Functions)
    requires ChangeOf(f, value).Increased? && Numeric(s, Fluents(value)) && f < |s| && s[f].NumV?
    ensures Eval(value, s, fs) == Some(NumV(s[f].n + ChangeOf(f, value).k))
  {
    PolynomialMeans(value, s, fs);
    OneWeight(f, s, |s|);
  }

  /** A condition: the weighted sum plus `k` is at most 0, or below it if `strict`. */
  datatype Linear = Linear(weights: map<nat, real>, k: real, strict: bool)

  /** `extract_fluents_weights_simple_numeric_condition`. */
  function LinearOf(e: Expr): Option<Linear> {
    match e
    case Le(l, r) => LinearDifference(l, r, false)
    case Lt(l, r) => LinearDifference(l, r, true)
    case _ => None
  }

  function LinearDifference(l: Expr, r: Expr, strict: bool): Option<Linear> {
    match ToPolynomial(Minus(l, r))
    case None => None
    case Some(q) => Some(Linear(q.weights, ConstantOf(q), strict))
  }

  function Level(c: Linear, s: Assignment): real {
    Weighted(c.weights, s, |s|) + c.k
  }

  lemma LinearMeans(e: Expr, s: Assignment, fs: Functions)
    requires LinearOf(e).Some? && Numeric(s, Fluents(e))
    ensures var c := LinearOf(e).value;
      && Eval(e, s, fs) == Some(BoolV(if c.strict then Level(c, s) < 0.0 else Level(c, s) <= 0.0))
      && c.weights.Keys <= Fluents(e)
  {
    PolynomialMeans(Minus(e.l, e.r), s, fs);
    PolynomialMeans(e.l, s, fs);
    PolynomialMeans(e.r, s, fs);
  }

  // ---- operators and conditions ----

  type Changes = map<nat, Change>

  predicate HasAssignOrComplex(ch: Changes, w: map<nat, real>) {
    exists f :: f in w && f in ch && !ch[f].Increased?
  }

  function NetTerm(ch: Changes, w: map<nat, real>, inadmissible: bool, f: nat): real {
    if f !in w || f !in ch then 0.0
    else if ch[f].Increased? then Mul(w[f], ch[f].k)
    else if inadmissible then -1.0
    else 0.0
  }

  /** `net_effect`, over the fluents below `n`. */
  function NetEffect(ch: Changes, w: map<nat, real>, inadmissible: bool, n: nat): real {
    if n == 0 then 0.0 else NetEffect(ch, w, inadmissible, n - 1) + NetTerm(ch, w, inadmissible, n - 1)
  }

  /** `achieves`. */
  predicate Achieves(ch: Changes, w: map<nat, real>, inadmissible: bool, n: nat) {
    HasAssignOrComplex(ch, w) || NetEffect(ch, w, inadmissible, n) < 0.0
  }

  // What `achieves` offers to the largest negative net effect.
  function NegativeNet(ch: Changes, w: map<nat, real>, inadmissible: bool, n: nat): Option<real> {
    var net := NetEffect(ch, w, inadmissible, n);
    if (HasAssignOrComplex(ch, w) && !inadmissible) || net >= 0.0 then None else Some(net)
  }

  function Ceiling(x: real): int {
    -((-x).Floor)
  }

  /** `repetitions`, of a condition at `level` above 0. */
  function Repetitions(ch: Changes, w: map<nat, real>, level: real, inadmissible: bool, n: nat): Option<int> {
    var net := NetEffect(ch, w, inadmissible, n);
    if level <= 0.0 then Some(0)
    else if HasAssignOrComplex(ch, w) && !inadmissible then Some(1)
    else if net < 0.0 then Some(Ceiling(-level / net))
    else if HasAssignOrComplex(ch, w) then Some(1)
    else None
  }

  lemma PositiveQuotient(x: real, y: real)
    requires x > 0.0 && y < 0.0
    ensures -x / y > 0.0
  {
    assert -x / y == x / -y;
  }

  /** An operator that achieves a condition has a number of repetitions for it, and
      from a state where the condition fails it is at least one. */
  lemma RepetitionsPositive(ch: Changes, w: map<nat, real>, level: real, inadmissible: bool, n: nat)
    requires Achieves(ch, w, inadmissible, n) && level > 0.0
    ensures Repetitions(ch, w, level, inadmissible, n).Some?
    ensures Repetitions(ch, w, level, inadmissible, n).value >= 1
  {
    var net := NetEffect(ch, w, inadmissible, n);
    if net < 0.0 {
      PositiveQuotient(level, net);
    }
  }

  // `s'` is `s` after the changes, on the fluents weighted.
  ghost predicate Changed(ch: Changes, w: map<nat, real>, s: Assignment, s': Assignment) {
    && |s| == |s'|
    && forall f | f in w ::
         && f < |s| && s[f].NumV? && s'[f].NumV?
         && (f !in ch ==> s'[f] == s[f])
         && (f in ch && ch[f].Increased? ==> s'[f].n == s[f].n + ch[f].k)
         && (f in ch && ch[f].Assigned? ==> s'[f].n == ch[f].v)
  }

  lemma {:induction false} NetIsDifference(
    ch: Changes, w: map<nat, real>, inadmissible: bool, s: Assignment, s': Assignment, n: nat)
    requires Changed(ch, w, s, s') && !HasAssignOrComplex(ch, w)
    ensures Weighted(w, s', n) - Weighted(w, s, n) == NetEffect(ch, w, inadmissible, n)
  {
    if n > 0 {
      NetIsDifference(ch, w, inadmissible, s, s', n - 1);
      var f := n - 1;
      if f in w && f in ch {
        assert ch[f].Increased?;
        MulDistributes(w[f], s[f].n, ch[f].k);
      }
    }
  }

  lemma MulDistributes(x: real, y: real, z: real)
    ensures Mul(x, y + z) == Mul(x, y) + Mul(x, z)
  {
  }

  /** Only an operator that achieves a condition lowers its level. */
  lemma LoweringAchieves(ch: Changes, w: map<nat, real>, inadmissible: bool, s: Assignment, s': Assignment)
    requires Changed(ch, w, s, s') && Weighted(w, s', |s|) < Weighted(w, s, |s|)
    ensures Achieves(ch, w, inadmissible, |s|)
  {
    if !HasAssignOrComplex(ch, w) {
      NetIsDifference(ch, w, inadmissible, s, s', |s|);
    }
  }
}
