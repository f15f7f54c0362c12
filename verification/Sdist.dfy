/**
 The exact distance of a numeric subgoal, in two representations: machine integers
 when both operands are small integers, fractions otherwise.
*/
module Sdist {
  import opened Options

  /** Integer and rational constants. */
  datatype Number = Int(i: int) | Rational(num: int, den: nat)

  predicate Proper(n: Number) {
    n.Rational? ==> n.den > 0
  }

  ghost function Meaning(n: Number): real
    requires Proper(n)
  {
    match n
    case Int(i) => i as real
    case Rational(num, den) => num as real / den as real
  }

  datatype Kind = Le | Lt | Eq

  datatype Sdist = Small(d: int) | Big(num: int, den: nat)

  predicate ProperDist(s: Sdist) {
    s.Big? ==> s.den > 0
  }

  ghost function Distance(s: Sdist): real
    requires ProperDist(s)
  {
    match s
    case Small(d) => d as real
    case Big(num, den) => num as real / den as real
  }

  /** What a subgoal `l` (kind) `r` measures: larger is better. */
  function DistanceOf(kind: Kind, l: real, r: real): real {
    if kind == Eq then (if r - l < 0.0 then r - l else l - r) else r - l
  }

  function Satisfied(kind: Kind, l: real, r: real): bool {
    match kind
    case Le => l <= r
    case Lt => l < r
    case Eq => l == r
  }

  const MAX_I64 := 0x7FFF_FFFF_FFFF_FFFF

  predicate FitsI64(n: Number) {
    n.Int? && -MAX_I64 - 1 <= n.i <= MAX_I64
  }

  function AbsOf(d: int): int {
    if d < 0 then -d else d
  }

  function SdistSmall(diff: int, kind: Kind): (Sdist, bool) {
    match kind
    case Eq => (Small(-AbsOf(diff)), diff == 0)
    case Le => (Small(diff), diff >= 0)
    case Lt => (Small(diff), diff > 0)
  }

  function SdistBig(num: int, den: nat, kind: Kind): (Sdist, bool) {
    match kind
    case Eq => (Big(-AbsOf(num), den), num == 0)
    case Le => (Big(num, den), num >= 0)
    case Lt => (Big(num, den), num > 0)
  }

  function Numerator(n: Number): int {
    if n.Int? then n.i else n.num
  }

  function Denominator(n: Number): nat {
    if n.Int? then 1 else n.den
  }

  /** `compute_sdist`, on the operands' values. */
  function ComputeSdist(l: Number, r: Number, kind: Kind): (Sdist, bool) {
    if FitsI64(l) && FitsI64(r) then SdistSmall(r.i - l.i, kind)
    else SdistBig(Numerator(r) * Denominator(l) - Numerator(l) * Denominator(r), Denominator(r) * Denominator(l), kind)
  }

  /** Negative, zero or positive, as the first is less, equal or greater. */
  function Compare(x: Sdist, y: Sdist): int {
    match (x, y)
    case (Small(a), Small(b)) => a - b
    case (Big(a, m), Big(b, n)) => a * n - b * m
    case (Small(a), Big(b, n)) => a * n - b
    case (Big(a, m), Small(b)) => a - b * m
  }

  lemma FractionSign(num: int, den: nat)
    requires den > 0
    ensures num as real / den as real > 0.0 <==> num > 0
    ensures num as real / den as real == 0.0 <==> num == 0
  {
    var q := num as real / den as real;
    assert q * den as real == num as real;
    if q > 0.0 {
      assert q * den as real > 0.0;
    } else if q < 0.0 {
      assert q * den as real < 0.0;
    }
  }

  lemma FractionDifference(a: int, m: nat, b: int, n: nat)
    requires m > 0 && n > 0
    ensures m * n > 0
    ensures a as real / m as real - b as real / n as real == (a * n - b * m) as real / (m * n) as real
  {
    var (x, y) := (m as real, n as real);
    assert (m * n) as real == x * y;
    assert (a * n - b * m) as real == a as real * y - b as real * x;
    assert a as real / x == (a as real * y) / (x * y);
    assert b as real / y == (b as real * x) / (x * y);
  }

  lemma SdistBigExact(num: int, den: nat, kind: Kind, l: real, r: real)
    requires den > 0 && r - l == num as real / den as real
    ensures var (d, sat) := SdistBig(num, den, kind);
      ProperDist(d) && Distance(d) == DistanceOf(kind, l, r) && sat == Satisfied(kind, l, r)
  {
    FractionSign(num, den);
    assert (-num) as real / den as real == -(num as real / den as real);
  }

  /** The distance and the verdict are exact in both representations. */
  lemma ComputeSdistExact(l: Number, r: Number, kind: Kind)
    requires Proper(l) && Proper(r)
    ensures var (d, sat) := ComputeSdist(l, r, kind);
      && ProperDist(d)
      && Distance(d) == DistanceOf(kind, Meaning(l), Meaning(r))
      && sat == Satisfied(kind, Meaning(l), Meaning(r))
  {
    if FitsI64(l) && FitsI64(r) {
      assert ComputeSdist(l, r, kind) == SdistSmall(r.i - l.i, kind);
    } else {
      MeaningIs(l);
      MeaningIs(r);
      var (a, m, b, n) := (Numerator(r), Denominator(r), Numerator(l), Denominator(l));
      assert ComputeSdist(l, r, kind) == SdistBig(a * n - b * m, m * n, kind);
      hide *;
      FractionDifference(a, m, b, n);
      SdistBigExact(a * n - b * m, m * n, kind, Meaning(l), Meaning(r));
    }
  }

  lemma MeaningIs(n: Number)
    requires Proper(n)
    ensures Denominator(n) > 0 && Meaning(n) == Numerator(n) as real / Denominator(n) as real
  {
  }

  /** Comparing across representations compares the distances. */
  lemma CompareExact(x: Sdist, y: Sdist)
    requires ProperDist(x) && ProperDist(y)
    ensures Compare(x, y) > 0 <==> Distance(x) > Distance(y)
    ensures Compare(x, y) == 0 <==> Distance(x) == Distance(y)
  {
    var (a, m) := if x.Small? then (x.d, 1) else (x.num, x.den);
    var (b, n) := if y.Small? then (y.d, 1) else (y.num, y.den);
    FractionDifference(a, m, b, n);
    assert Distance(x) == a as real / m as real && Distance(y) == b as real / n as real;
    FractionSign(a * n - b * m, m * n);
    assert Compare(x, y) == a * n - b * m;
  }
}
