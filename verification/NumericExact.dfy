/**
 The numeric reasoning of the delete relaxation, from above: an operator is said to
 achieve a condition only if it can bring it closer, and needs no more repetitions than
 it takes to meet it.
*/
module NumericExact {
  import opened Options
  import opened Expr
  import opened LinearPolynomials

  /** The weights of a condition are not 0. */
  lemma WeightsCount(e: Expr)
    requires LinearOf(e).Some?
    ensures forall f | f in LinearOf(e).value.weights :: LinearOf(e).value.weights[f] != 0.0
  {
  }

  /** Some values of the numbers are lowered by the changes. */
  ghost predicate MayLower(ch: Changes, w: map<nat, real>, n: nat) {
    exists s: Assignment, s': Assignment :: |s| == n && Changed(ch, w, s, s') && Weighted(w, s', n) < Weighted(w, s, n)
  }

  // The changes from 0, but for the fluent `f`, which changes by `d`.
  function Before(ch: Changes, w: map<nat, real>, f: nat, d: real, n: nat): Assignment {
    seq(n, g requires 0 <= g < n =>
      if g in ch && ch[g].Assigned? then NumV(if g == f then ch[g].v - d else ch[g].v) else NumV(0.0))
  }

  function Afterwards(ch: Changes, w: map<nat, real>, f: nat, d: real, n: nat): Assignment {
    seq(n, g requires 0 <= g < n =>
      if g !in ch then NumV(0.0)
      else match ch[g]
        case Assigned(v) => NumV(v)
        case Increased(k) => NumV(k)
        case Complex => NumV(if g == f then d else 0.0))
  }

  function RestNet(ch: Changes, w: map<nat, real>, f: nat, n: nat): real {
    if n == 0 then 0.0 else
      RestNet(ch, w, f, n - 1)
      + if n - 1 != f && n - 1 in w && n - 1 in ch && ch[n - 1].Increased? then Mul(w[n - 1], ch[n - 1].k) else 0.0
  }

  lemma MulDifference(x: real, y: real, z: real)
    ensures Mul(x, y) - Mul(x, z) == Mul(x, y - z)
  {
  }

  lemma {:induction false} DifferenceAt(ch: Changes, w: map<nat, real>, f: nat, d: real, n: nat, k: nat)
    requires k <= n && f in w && f in ch && !ch[f].Increased?
    ensures Weighted(w, Afterwards(ch, w, f, d, n), k) - Weighted(w, Before(ch, w, f, d, n), k)
         == RestNet(ch, w, f, k) + if f < k then Mul(w[f], d) else 0.0
  {
    if k > 0 {
      DifferenceAt(ch, w, f, d, n, k - 1);
      var (g, s, s') := (k - 1, Before(ch, w, f, d, n), Afterwards(ch, w, f, d, n));
      if g in w {
        MulDifference(w[g], s'[g].n, s[g].n);
      }
    }
  }

  lemma Solves(x: real, y: real)
    requires x != 0.0
    ensures Mul(x, (-y - 1.0) / x) == -y - 1.0
  {
  }

  /** An operator achieves a condition exactly when, from some values, it lowers the
      weighted sum. */
  lemma AchievesExact(ch: Changes, w: map<nat, real>, inadmissible: bool, n: nat)
    requires forall f | f in w :: f < n && w[f] != 0.0
    ensures Achieves(ch, w, inadmissible, n) <==> MayLower(ch, w, n)
  {
    if MayLower(ch, w, n) {
      var s: Assignment, s': Assignment :|
        |s| == n && Changed(ch, w, s, s') && Weighted(w, s', n) < Weighted(w, s, n);
      LoweringAchieves(ch, w, inadmissible, s, s');
    }
    if Achieves(ch, w, inadmissible, n) {
      if f :| f in w && f in ch && !ch[f].Increased? {
        var d := (-RestNet(ch, w, f, n) - 1.0) / w[f];
        DifferenceAt(ch, w, f, d, n, n);
        Solves(w[f], RestNet(ch, w, f, n));
        assert Changed(ch, w, Before(ch, w, f, d, n), Afterwards(ch, w, f, d, n));
      } else {
        var (s, s') := (Before(ch, w, n, 0.0, n), Afterwards(ch, w, n, 0.0, n));
        assert Changed(ch, w, s, s');
        NetIsDifference(ch, w, inadmissible, s, s', n);
      }
    }
  }

  // ---- repetitions ----

  lemma CeilingLeast(x: real)
    ensures x <= Ceiling(x) as real && (Ceiling(x) - 1) as real < x
  {
    assert (Ceiling(x) - 1) as real == Ceiling(x) as real - 1.0;
  }

  lemma QuotientTimes(level: real, net: real)
    requires net < 0.0
    ensures Mul(-level / net, net) == -level
  {
  }

  lemma BelowTimes(x: real, y: real, net: real)
    requires net < 0.0
    ensures x <= y ==> Mul(y, net) <= Mul(x, net)
    ensures x < y ==> Mul(y, net) < Mul(x, net)
  {
    if x < y {
      assert (y - x) * net < 0.0;
      assert y * net - x * net == (y - x) * net;
    }
  }

  lemma Crossing(level: real, net: real)
    requires net < 0.0
    ensures var m := Ceiling(-level / net);
      level + Mul(m as real, net) <= 0.0 && 0.0 < level + Mul((m - 1) as real, net)
  {
    var q := -level / net;
    CeilingLeast(q);
    QuotientTimes(level, net);
    BelowTimes(q, Ceiling(q) as real, net);
    BelowTimes((Ceiling(q) - 1) as real, q, net);
    hide Mul, Ceiling;
  }

  /** Where the changes are increases, the repetitions are as many as it takes to bring
      the level down to 0, and not one more; otherwise it is one. */
  lemma RepetitionsExact(ch: Changes, w: map<nat, real>, level: real, inadmissible: bool, n: nat)
    requires Achieves(ch, w, inadmissible, n) && level > 0.0
    ensures Repetitions(ch, w, level, inadmissible, n).Some?
    ensures var (m, net) := (Repetitions(ch, w, level, inadmissible, n).value, NetEffect(ch, w, inadmissible, n));
      if net < 0.0 && !(HasAssignOrComplex(ch, w) && !inadmissible) then
        level + Mul(m as real, net) <= 0.0 && 0.0 < level + Mul((m - 1) as real, net)
      else m == 1
  {
    var net := NetEffect(ch, w, inadmissible, n);
    hide Mul, Ceiling, NetEffect;
    if net < 0.0 && !(HasAssignOrComplex(ch, w) && !inadmissible) {
      Crossing(level, net);
    }
  }

  // The changes applied again and again.
  ghost predicate Repeats(ch: Changes, w: map<nat, real>, ss: seq<Assignment>) {
    forall i | 0 <= i < |ss| - 1 :: Changed(ch, w, ss[i], ss[i + 1])
  }

  lemma OnceMore(k: nat, net: real)
    requires k > 0
    ensures Mul((k - 1) as real, net) + net == Mul(k as real, net)
  {
    assert (k - 1) as real == k as real - 1.0;
  }

  lemma {:induction false} RepeatedLevel(
    ch: Changes, w: map<nat, real>, inadmissible: bool, ss: seq<Assignment>, n: nat, k: nat)
    requires Repeats(ch, w, ss) && !HasAssignOrComplex(ch, w) && k < |ss|
    ensures Weighted(w, ss[k], n) == Weighted(w, ss[0], n) + Mul(k as real, NetEffect(ch, w, inadmissible, n))
  {
    if k > 0 {
      RepeatedLevel(ch, w, inadmissible, ss, n, k - 1);
      assert Changed(ch, w, ss[k - 1], ss[k - 1 + 1]);
      NetIsDifference(ch, w, inadmissible, ss[k - 1], ss[k], n);
      OnceMore(k, NetEffect(ch, w, inadmissible, n));
    }
  }

  /** So many repetitions meet the condition, and one fewer does not, up to the margin. */
  lemma RepetitionsMeet(
    ch: Changes, c: Linear, margin: real, inadmissible: bool, ss: seq<Assignment>, n: nat, m: nat)
    requires Achieves(ch, c.weights, inadmissible, n) && !HasAssignOrComplex(ch, c.weights) && ss != []
    requires var level := Weighted(c.weights, ss[0], n) + c.k + margin;
      level > 0.0 && Repetitions(ch, c.weights, level, inadmissible, n) == Some(m)
    requires Repeats(ch, c.weights, ss) && m < |ss|
    ensures m > 0 && Weighted(c.weights, ss[m], n) + c.k + margin <= 0.0
    ensures Weighted(c.weights, ss[m - 1], n) + c.k + margin > 0.0
  {
    var level := Weighted(c.weights, ss[0], n) + c.k + margin;
    RepetitionsExact(ch, c.weights, level, inadmissible, n);
    RepetitionsPositive(ch, c.weights, level, inadmissible, n);
    RepeatedLevel(ch, c.weights, inadmissible, ss, n, m);
    RepeatedLevel(ch, c.weights, inadmissible, ss, n, m - 1);
    hide Mul, Weighted, NetEffect, Repetitions;
  }

  // ---- which expressions are linear ----

  /** Made of constants alone. */
  predicate Closed(e: Expr) {
    match e
    case Const(v) => v.NumV?
    case Minus(l, r) => Closed(l) && Closed(r)
    case Div(l, r) => Closed(l) && Closed(r)
    case Plus(es) => es != [] && AllClosed(es)
    case Times(es) => es != [] && AllClosed(es)
    case _ => false
  }

  predicate AllClosed(es: seq<Expr>) {
    es == [] || (AllClosed(es[..|es| - 1]) && Closed(es[|es| - 1]))
  }

  /** Sums and differences of affine expressions, products with at most one operand that is
      not closed, and quotients by a closed expression that is not 0. */
  predicate Affine(e: Expr, fs: Functions) {
    match e
    case Const(v) => v.NumV?
    case Fluent(_) => true
    case Minus(l, r) => Affine(l, fs) && Affine(r, fs)
    case Plus(es) => es != [] && AllAffine(es, fs)
    case Times(es) => es != [] && AllAffine(es, fs) && OneOpen(es)
    case Div(l, r) => Affine(l, fs) && Affine(r, fs) && Closed(r) && Eval(r, [], fs) != Some(NumV(0.0))
    case _ => false
  }

  predicate AllAffine(es: seq<Expr>, fs: Functions) {
    es == [] || (AllAffine(es[..|es| - 1], fs) && Affine(es[|es| - 1], fs))
  }

  // All operands are closed but for one at most.
  predicate OneOpen(es: seq<Expr>) {
    es == [] || (if Closed(es[|es| - 1]) then OneOpen(es[..|es| - 1]) else AllClosed(es[..|es| - 1]))
  }

  lemma {:induction false} ClosedReads(e: Expr)
    requires Closed(e)
    ensures Fluents(e) == {}
    decreases e, 1
  {
    match e
    case Const(_) =>
    case Minus(l, r) => ClosedReads(l); ClosedReads(r);
    case Div(l, r) => ClosedReads(l); ClosedReads(r);
    case Plus(es) => AllClosedRead(es);
    case Times(es) => AllClosedRead(es);
  }

  lemma {:induction false} AllClosedRead(es: seq<Expr>)
    requires AllClosed(es)
    ensures AllFluents(es) == {}
    decreases es, 0
  {
    if es != [] {
      AllClosedRead(es[..|es| - 1]);
      ClosedReads(es[|es| - 1]);
      AllFluentsSnoc(es);
    }
  }

  /** The polynomial of a closed expression is its value. */
  lemma ClosedValue(e: Expr, fs: Functions)
    requires Closed(e) && ToPolynomial(e).Some? && IsConstant(ToPolynomial(e).value)
    ensures Eval(e, [], fs) == Some(NumV(ToPolynomial(e).value.constant.value))
  {
    ClosedReads(e);
    PolynomialMeans(e, [], fs);
    NoWeights([], 0);
  }

  lemma MergedConstants(a: Polynomial, b: Polynomial, negate: bool)
    requires IsConstant(a) && IsConstant(b)
    ensures IsConstant(Merge(a, b, negate)) && IsConstant(Simplified(Merge(a, b, negate)))
  {
    assert Merged(a.weights, b.weights, negate) == map[];
    assert Simplified(Merge(a, b, negate)).weights == map[];
  }

  lemma ScaledConstant(a: Polynomial, k: real)
    requires IsConstant(a)
    ensures IsConstant(Scale(a, k))
  {
    assert Scaled(a.weights, k) == map[];
  }

  /** Every affine expression has a polynomial, and a closed one a constant. */
  lemma {:induction false} AffineIsLinear(e: Expr, fs: Functions)
    requires Affine(e, fs)
    ensures ToPolynomial(e).Some? && (Closed(e) ==> IsConstant(ToPolynomial(e).value))
    decreases e, 1
  {
    match e
    case Const(_) =>
    case Fluent(_) =>
    case Minus(l, r) =>
      AffineIsLinear(l, fs);
      AffineIsLinear(r, fs);
      if Closed(e) {
        MergedConstants(ToPolynomial(l).value, ToPolynomial(r).value, true);
      }
    case Div(l, r) =>
      AffineIsLinear(l, fs);
      AffineIsLinear(r, fs);
      ClosedValue(r, fs);
      if Closed(e) {
        ScaledConstant(ToPolynomial(l).value, 1.0 / ToPolynomial(r).value.constant.value);
      }
    case Plus(es) =>
      SumIsLinear(es, fs);
      if Closed(e) {
        var q := SumPolynomial(es).value;
        assert Simplified(q).weights == map[];
      }
    case Times(es) => FactorsAre(es, fs);
  }

  lemma {:induction false} SumIsLinear(es: seq<Expr>, fs: Functions)
    requires es != [] && AllAffine(es, fs)
    ensures SumPolynomial(es).Some? && (AllClosed(es) ==> IsConstant(SumPolynomial(es).value))
    decreases es, 0
  {
    var (init, last) := (es[..|es| - 1], es[|es| - 1]);
    AffineIsLinear(last, fs);
    if |es| > 1 {
      SumIsLinear(init, fs);
      if AllClosed(es) {
        MergedConstants(SumPolynomial(init).value, ToPolynomial(last).value, false);
      }
    }
  }

  lemma {:induction false} FactorsAre(es: seq<Expr>, fs: Functions)
    requires AllAffine(es, fs) && OneOpen(es)
    ensures Factors(es).Some? && (AllClosed(es) ==> Factors(es).value.1.None?)
    decreases es, 0
  {
    if es != [] {
      var (init, last) := (es[..|es| - 1], es[|es| - 1]);
      AffineIsLinear(last, fs);
      ClosedHasOneOpen(init);
      FactorsAre(init, fs);
    }
  }

  lemma {:induction false} ClosedHasOneOpen(es: seq<Expr>)
    ensures AllClosed(es) ==> OneOpen(es)
  {
    if es != [] && AllClosed(es) {
      ClosedHasOneOpen(es[..|es| - 1]);
    }
  }

  /** A comparison of affine expressions is a linear condition. */
  lemma ComparisonIsLinear(l: Expr, r: Expr, fs: Functions)
    requires Affine(l, fs) && Affine(r, fs)
    ensures LinearOf(Le(l, r)).Some? && !LinearOf(Le(l, r)).value.strict
    ensures LinearOf(Lt(l, r)).Some? && LinearOf(Lt(l, r)).value.strict
  {
    AffineIsLinear(Minus(l, r), fs);
  }

  /** An effect that adds a closed amount to its fluent, or takes it away, is a constant
      increase; one that gives it a number is an assignment. */
  lemma IncreaseIsOne(f: nat, c: Expr, n: real, fs: Functions)
    requires Closed(c) && Affine(c, fs)
    ensures ChangeOf(f, Plus([Fluent(f), c])).Increased? && ChangeOf(f, Minus(Fluent(f), c)).Increased?
    ensures ChangeOf(f, Const(NumV(n))) == Assigned(n)
  {
    AffineIsLinear(c, fs);
    var (x, q) := (Polynomial(map[f := 1.0], None), ToPolynomial(c).value);
    PlusOne(f, c);
    OneLeft(x, q, f);
    hide Merge, Simplified, Affine, Closed;
  }

  lemma PlusOne(f: nat, c: Expr)
    requires ToPolynomial(c).Some?
    ensures ToPolynomial(Plus([Fluent(f), c]))
         == Some(Simplified(Merge(Polynomial(map[f := 1.0], None), ToPolynomial(c).value, false)))
    ensures ToPolynomial(Minus(Fluent(f), c))
         == Some(Simplified(Merge(Polynomial(map[f := 1.0], None), ToPolynomial(c).value, true)))
  {
    assert ToPolynomial(Fluent(f)) == Some(Polynomial(map[f := 1.0], None));
    SumOfTwo(Fluent(f), c);
    PlusIs([Fluent(f), c]);
    MinusIs(Fluent(f), c);
    hide ToPolynomial, SumPolynomial, Merge, Simplified;
  }

  lemma SumOfTwo(a: Expr, c: Expr)
    requires ToPolynomial(a).Some? && ToPolynomial(c).Some?
    ensures SumPolynomial([a, c]) == Some(Merge(ToPolynomial(a).value, ToPolynomial(c).value, false))
  {
    hide ToPolynomial, Merge;
    assert [a, c][..1] == [a] && SumPolynomial([a]) == ToPolynomial(a);
  }

  lemma PlusIs(es: seq<Expr>)
    requires es != [] && SumPolynomial(es).Some?
    ensures ToPolynomial(Plus(es)) == Some(Simplified(SumPolynomial(es).value))
  {
    hide SumPolynomial, Simplified;
  }

  lemma MinusIs(l: Expr, r: Expr)
    requires ToPolynomial(l).Some? && ToPolynomial(r).Some?
    ensures ToPolynomial(Minus(l, r)) == Some(Simplified(Merge(ToPolynomial(l).value, ToPolynomial(r).value, true)))
  {
    hide Merge, Simplified;
  }

  lemma OneLeft(x: Polynomial, q: Polynomial, f: nat)
    requires x.weights == map[f := 1.0] && IsConstant(q)
    ensures Simplified(Merge(x, q, false)).weights == map[f := 1.0]
    ensures Simplified(Merge(x, q, true)).weights == map[f := 1.0]
  {
  }
}
