/**
 `simplify`: partial evaluation of a contiguous array, first folding constants in
 place and then rebuilding what is left in postfix order.
*/
module Simplify {
  import opened Options
  import E = Expr
  import opened Expr
  import opened Postfix

  // What is known of the fluents, and whether interpreted functions are called.
  datatype Known = Known(values: map<nat, Value>, calls: bool, functions: Functions)

  predicate IsBoolLit(t: Term) {
    t.op.Literal? && t.op.value.BoolV?
  }

  predicate IsNumLit(t: Term) {
    t.op.Literal? && t.op.value.NumV?
  }

  function Lit(v: Value): Term {
    Term(Literal(v), [])
  }

  // ---- folding, on trees ----

  /** The operands that are not constant booleans. */
  function Open(ts: seq<Term>): seq<Term> {
    if ts == [] then [] else (if IsBoolLit(ts[0]) then [] else [ts[0]]) + Open(ts[1..])
  }

  predicate HasLit(ts: seq<Term>, b: bool) {
    exists t :: t in ts && t.op == Literal(BoolV(b))
  }

  /** A conjunction (`unit` true) or disjunction (`unit` false) of simplified operands. */
  function FoldConnective(op: Op, unit: bool, ts: seq<Term>): Term {
    if HasLit(ts, !unit) then Lit(BoolV(!unit))
    else if Open(ts) == [] then Lit(BoolV(unit))
    else if |Open(ts)| == 1 then Open(ts)[0]
    else Term(op, Open(ts))
  }

  function Combine(op: Op, x: real, y: real): real {
    if op == PlusOp then x + y else Mul(x, y)
  }

  function Unit(op: Op): real {
    if op == PlusOp then 0.0 else 1.0
  }

  function Number(t: Term): real {
    if IsNumLit(t) then t.op.value.n else 0.0
  }

  /** The sum or product of the constant operands. */
  function Total(op: Op, ts: seq<Term>): real {
    if ts == [] then Unit(op)
    else if IsNumLit(ts[0]) then Combine(op, ts[0].op.value.n, Total(op, ts[1..]))
    else Total(op, ts[1..])
  }

  /** The operands, with `total` for the first constant and without the others. */
  function Merge(ts: seq<Term>, total: Term, placed: bool): seq<Term> {
    if ts == [] then []
    else if IsNumLit(ts[0]) then (if placed then [] else [total]) + Merge(ts[1..], total, true)
    else [ts[0]] + Merge(ts[1..], total, placed)
  }

  predicate HasNumber(ts: seq<Term>) {
    exists t :: t in ts && IsNumLit(t)
  }

  function FoldNumeric(op: Op, ts: seq<Term>): Term {
    var total := Lit(NumV(Total(op, ts)));
    if !HasNumber(ts) then Term(op, ts)
    else if |Merge(ts, total, false)| == 1 then total
    else Term(op, Merge(ts, total, false))
  }

  function LitValues(ts: seq<Term>): seq<Value>
    requires forall t | t in ts :: t.op.Literal?
  {
    if ts == [] then [] else [ts[0].op.value] + LitValues(ts[1..])
  }

  /** An operator over simplified operands; None when folding raises. */
  function Fold(op: Op, ts: seq<Term>, k: Known): Option<Term> {
    match op
    case AndOp => Some(FoldConnective(op, true, ts))
    case OrOp => Some(FoldConnective(op, false, ts))
    case PlusOp => Some(FoldNumeric(op, ts))
    case TimesOp => Some(FoldNumeric(op, ts))
    case NotOp => if |ts| == 1 && IsBoolLit(ts[0]) then Some(Lit(BoolV(!ts[0].op.value.b))) else Some(Term(op, ts))
    case EqualsOp =>
      // two subtrees with operands of their own are never the same node
      if |ts| == 2 && ts[0] == ts[1] && ts[0].args == [] then Some(Lit(BoolV(true)))
      else if |ts| == 2 && IsNumLit(ts[0]) && IsNumLit(ts[1]) then Some(Lit(BoolV(Number(ts[0]) == Number(ts[1]))))
      else Some(Term(op, ts))
    case Literal(_) => Some(Term(op, ts))
    case Read(f) => if f in k.values then Some(Lit(k.values[f])) else Some(Term(op, ts))
    case CallOp(func) =>
      if k.calls && forall t | t in ts :: t.op.Literal? then
        var v := k.functions(func, LitValues(ts));
        if v.None? then None else Some(Lit(v.value))
      else Some(Term(op, ts))
    case _ =>
      if |ts| == 2 && IsNumLit(ts[0]) && IsNumLit(ts[1]) then
        var v := BinaryOf(op, ts[0].op.value, ts[1].op.value);
        if v.None? then None else Some(Lit(v.value))
      else Some(Term(op, ts))
  }

  function SimplifyTerm(t: Term, k: Known): Option<Term> {
    var ts := SimplifyTerms(t.args, k);
    if ts.None? then None else Fold(t.op, ts.value, k)
  }

  function SimplifyTerms(ts: seq<Term>, k: Known): (us: Option<seq<Term>>)
    ensures us.Some? ==> |us.value| == |ts|
  {
    if ts == [] then Some([]) else
      var (u, rest) := (SimplifyTerm(ts[0], k), SimplifyTerms(ts[1..], k));
      if u.None? || rest.None? then None else Some([u.value] + rest.value)
  }

  // ---- folding preserves meaning ----

  /** The state has the values known. */
  ghost predicate Knows(s: Assignment, k: Known) {
    forall f | f in k.values :: f < |s| && s[f] == k.values[f]
  }

  /** Operands of connectives are boolean, and leaves have no operands. */
  ghost predicate BooleanOperands(t: Term, s: Assignment, fs: Functions) {
    && AllBooleanOperands(t.args, s, fs)
    && (t.op.AndOp? || t.op.OrOp? ==>
          EvalTerms(t.args, s, fs).Some? ==> forall v | v in EvalTerms(t.args, s, fs).value :: v.BoolV?)
    && (t.op.Literal? || t.op.Read? ==> t.args == [])
  }

  /** Leaves have no operands, and every connective folds exactly. */
  ghost predicate Collapsible(t: Term, s: Assignment, k: Known) {
    && AllCollapsible(t.args, s, k)
    && (t.op.AndOp? || t.op.OrOp? ==>
          SimplifyTerms(t.args, k).Some? ==> FoldsExactly(t.op.AndOp?, SimplifyTerms(t.args, k).value, s, k.functions))
    && (t.op.Literal? || t.op.Read? ==> t.args == [])
  }

  ghost predicate AllCollapsible(ts: seq<Term>, s: Assignment, k: Known) {
    ts == [] || (Collapsible(ts[0], s, k) && AllCollapsible(ts[1..], s, k))
  }

  ghost predicate AllBooleanOperands(ts: seq<Term>, s: Assignment, fs: Functions) {
    ts == [] || (BooleanOperands(ts[0], s, fs) && AllBooleanOperands(ts[1..], s, fs))
  }

  lemma LitValue(v: Value, s: Assignment, fs: Functions)
    ensures EvalTerm(Lit(v), s, fs) == Some(v)
  {
    TermsFirst([], s, fs);
  }

  // A term that is a constant evaluates to it.
  lemma LitEval(t: Term, s: Assignment, fs: Functions)
    requires t.op.Literal? && EvalTerm(t, s, fs).Some?
    ensures EvalTerm(t, s, fs) == Some(t.op.value)
  {
  }

  /** The operands left out are the connective's unit, so it is that of the open ones,
      boolean or not. */
  lemma {:induction false} OpenMeans(ts: seq<Term>, vals: seq<Value>, unit: bool, s: Assignment, fs: Functions)
    returns (rest: seq<Value>)
    requires EvalTerms(ts, s, fs) == Some(vals) && !HasLit(ts, !unit)
    ensures EvalTerms(Open(ts), s, fs) == Some(rest)
    ensures forall v | v != BoolV(unit) :: v in vals <==> v in rest
    ensures forall v | v in rest :: v in vals
  {
    TermsFirst(ts, s, fs);
    if ts == [] {
      rest := [];
    } else {
      forall t | t in ts[1..] ensures t in ts {
      }
      rest := OpenMeans(ts[1..], vals[1..], unit, s, fs);
      assert vals == [vals[0]] + vals[1..];
      if IsBoolLit(ts[0]) {
        LitEval(ts[0], s, fs);
        assert ts[0] in ts && vals[0] == ts[0].op.value && vals[0] != BoolV(!unit);
        assert Open(ts) == Open(ts[1..]);
      } else {
        var more := [vals[0]] + rest;
        assert Open(ts) == [ts[0]] + Open(ts[1..]) && Open(ts)[1..] == Open(ts[1..]);
        TermsFirst(Open(ts), s, fs);
        rest := more;
      }
    }
  }

  // A connective only looks for an operand that is not its unit, or for TRUE.
  lemma SameConnective(unit: bool, vals: seq<Value>, rest: seq<Value>)
    requires forall v | v != BoolV(unit) :: v in vals <==> v in rest
    ensures ConnectiveOf(unit, vals) == ConnectiveOf(unit, rest)
  {
  }

  lemma {:induction false} LitPresent(ts: seq<Term>, vals: seq<Value>, b: bool, s: Assignment, fs: Functions)
    requires EvalTerms(ts, s, fs) == Some(vals) && HasLit(ts, b)
    ensures BoolV(b) in vals
  {
    TermsFirst(ts, s, fs);
    var t :| t in ts && t.op == Literal(BoolV(b));
    assert vals == [vals[0]] + vals[1..];
    if t == ts[0] {
      LitEval(ts[0], s, fs);
    } else {
      assert t in ts[1..];
      LitPresent(ts[1..], vals[1..], b, s, fs);
    }
  }

  function ConnectiveOf(unit: bool, vals: seq<Value>): Value {
    if unit then E.AndOf(vals) else E.OrOf(vals)
  }

  /** The one case in which folding a connective is wrong: it drops the connective of a
      single open operand whose value is not boolean. */
  ghost predicate FoldsExactly(unit: bool, ts: seq<Term>, s: Assignment, fs: Functions) {
    HasLit(ts, !unit) || |Open(ts)| != 1 || IsBool(EvalTerm(Open(ts)[0], s, fs))
  }

  /** Folding a connective keeps its value exactly then. */
  lemma FoldConnectiveExact(op: Op, unit: bool, ts: seq<Term>, vals: seq<Value>, s: Assignment, fs: Functions)
    requires op == if unit then AndOp else OrOp
    requires EvalTerms(ts, s, fs) == Some(vals)
    ensures EvalTerm(FoldConnective(op, unit, ts), s, fs) == Some(ConnectiveOf(unit, vals)) <==> FoldsExactly(unit, ts, s, fs)
  {
    LitValue(BoolV(unit), s, fs);
    LitValue(BoolV(!unit), s, fs);
    if HasLit(ts, !unit) {
      LitPresent(ts, vals, !unit, s, fs);
      Absorbed(unit, vals);
    } else {
      var rest := OpenMeans(ts, vals, unit, s, fs);
      SameConnective(unit, vals, rest);
      TermsFirst(Open(ts), s, fs);
      if |Open(ts)| == 1 {
        TermsFirst(Open(ts)[1..], s, fs);
        assert rest == [rest[0]];
        assert rest[0] in rest;
      }
    }
  }

  lemma Absorbed(unit: bool, vals: seq<Value>)
    requires BoolV(!unit) in vals
    ensures ConnectiveOf(unit, vals) == BoolV(!unit)
  {
  }

  // ---- sums and products ----

  lemma CombineLaws(op: Op, x: real, y: real, z: real)
    ensures Combine(op, x, Combine(op, y, z)) == Combine(op, Combine(op, x, y), z)
    ensures Combine(op, x, y) == Combine(op, y, x)
    ensures Combine(op, Unit(op), x) == x
  {
    if op != PlusOp {
      assert x * (y * z) == (x * y) * z;
    }
  }

  /** The sum or product of values that are numbers. */
  function AllOf(op: Op, vals: seq<Value>): real {
    if vals == [] then Unit(op)
    else Combine(op, if vals[0].NumV? then vals[0].n else 0.0, AllOf(op, vals[1..]))
  }

  predicate Numbers(vals: seq<Value>) {
    forall v | v in vals :: v.NumV?
  }

  function NumericOf(op: Op, vals: seq<Value>): Option<Value> {
    if op == PlusOp then SumOf(vals) else ProductOf(vals)
  }

  lemma {:induction false} AllOfSnoc(op: Op, vals: seq<Value>, x: real)
    ensures AllOf(op, vals + [NumV(x)]) == Combine(op, AllOf(op, vals), x)
  {
    if vals == [] {
      assert [] + [NumV(x)] == [NumV(x)] && [NumV(x)][1..] == [];
      CombineLaws(op, Unit(op), x, x);
      CombineLaws(op, x, Unit(op), x);
    } else {
      var v := if vals[0].NumV? then vals[0].n else 0.0;
      assert (vals + [NumV(x)])[1..] == vals[1..] + [NumV(x)];
      AllOfSnoc(op, vals[1..], x);
      CombineLaws(op, v, AllOf(op, vals[1..]), x);
    }
  }

  // The last step of the evaluator's left fold.
  lemma NumericLast(op: Op, vals: seq<Value>)
    requires (op.PlusOp? || op.TimesOp?) && vals != []
    ensures var (front, last) := (vals[..|vals| - 1], vals[|vals| - 1]);
      NumericOf(op, vals) ==
        if !last.NumV? then None
        else if front == [] then Some(last)
        else if NumericOf(op, front).Some? && NumericOf(op, front).value.NumV?
        then Some(NumV(Combine(op, NumericOf(op, front).value.n, last.n)))
        else None
  {
    var (front, last) := (vals[..|vals| - 1], vals[|vals| - 1]);
    assert front == [] <==> |vals| == 1;
    hide Mul;
    if op == PlusOp {
      assert NumericOf(op, vals) == SumOf(vals) && NumericOf(op, front) == SumOf(front);
    } else {
      assert NumericOf(op, vals) == ProductOf(vals) && NumericOf(op, front) == ProductOf(front);
    }
  }

  /** The left fold of the evaluator is that of the laws. */
  lemma {:induction false} NumericIs(op: Op, vals: seq<Value>)
    requires op.PlusOp? || op.TimesOp?
    ensures NumericOf(op, vals).Some? <==> Numbers(vals) && vals != []
    ensures NumericOf(op, vals).Some? ==> NumericOf(op, vals) == Some(NumV(AllOf(op, vals)))
    decreases |vals|
  {
    if vals != [] {
      var (front, last) := (vals[..|vals| - 1], vals[|vals| - 1]);
      assert vals == front + [last];
      NumericIs(op, front);
      NumericLast(op, vals);
      hide NumericOf, Combine, Unit;
      if last.NumV? {
        AllOfSnoc(op, front, last.n);
        assert [last] == [NumV(last.n)];
        assert Numbers(vals) <==> Numbers(front);
        CombineLaws(op, Unit(op), last.n, last.n);
      } else {
        assert last in vals;
      }
    }
  }

  // The operands that are not constant numbers.
  function Symbolic(ts: seq<Term>): seq<Term> {
    if ts == [] then [] else (if IsNumLit(ts[0]) then [] else [ts[0]]) + Symbolic(ts[1..])
  }

  /** The total of all operands is that of the constants with that of the others. */
  lemma {:induction false} TotalSplits(op: Op, ts: seq<Term>, vals: seq<Value>, s: Assignment, fs: Functions)
    returns (sym: seq<Value>)
    requires EvalTerms(ts, s, fs) == Some(vals) && Numbers(vals)
    ensures EvalTerms(Symbolic(ts), s, fs) == Some(sym) && Numbers(sym)
    ensures AllOf(op, vals) == Combine(op, Total(op, ts), AllOf(op, sym))
  {
    TermsFirst(ts, s, fs);
    if ts == [] {
      sym := [];
      CombineLaws(op, Unit(op), Unit(op), Unit(op));
    } else {
      assert vals == [vals[0]] + vals[1..];
      assert vals[0] in vals;
      var rest := TotalSplits(op, ts[1..], vals[1..], s, fs);
      var (x, t, r) := (vals[0].n, Total(op, ts[1..]), AllOf(op, rest));
      if IsNumLit(ts[0]) {
        LitEval(ts[0], s, fs);
        assert Symbolic(ts) == Symbolic(ts[1..]);
        CombineLaws(op, x, t, r);
        sym := rest;
      } else {
        assert Symbolic(ts) == [ts[0]] + Symbolic(ts[1..]) && Symbolic(ts)[1..] == Symbolic(ts[1..]);
        TermsFirst(Symbolic(ts), s, fs);
        sym := [vals[0]] + rest;
        CombineLaws(op, x, t, r);
        CombineLaws(op, t, x, r);
      }
    }
  }

  /** Merging the constants: the total once, among the others. */
  lemma {:induction false} MergeMeans(
    op: Op, ts: seq<Term>, sym: seq<Value>, c: real, placed: bool, s: Assignment, fs: Functions)
    returns (vals: seq<Value>)
    requires EvalTerms(Symbolic(ts), s, fs) == Some(sym) && Numbers(sym)
    ensures EvalTerms(Merge(ts, Lit(NumV(c)), placed), s, fs) == Some(vals) && Numbers(vals)
    ensures AllOf(op, vals) == if placed || !HasNumber(ts) then AllOf(op, sym) else Combine(op, c, AllOf(op, sym))
    decreases ts
  {
    var total := Lit(NumV(c));
    var merged := Merge(ts, total, placed);
    hide Combine, EvalTerm, EvalTerms, Unit;
    if ts == [] {
      TermsFirst([], s, fs);
      vals := [];
    } else if IsNumLit(ts[0]) {
      assert ts[0] in ts && Symbolic(ts) == Symbolic(ts[1..]);
      var rest := MergeMeans(op, ts[1..], sym, c, true, s, fs);
      if placed {
        assert merged == Merge(ts[1..], total, true);
        vals := rest;
      } else {
        assert merged == [total] + Merge(ts[1..], total, true) && merged[1..] == Merge(ts[1..], total, true);
        LitValue(NumV(c), s, fs);
        TermsFirst(merged, s, fs);
        vals := [NumV(c)] + rest;
      }
    } else {
      assert HasNumber(ts) <==> HasNumber(ts[1..]) by {
        HasNumberTail(ts);
      }
      assert Symbolic(ts) == [ts[0]] + Symbolic(ts[1..]) && Symbolic(ts)[1..] == Symbolic(ts[1..]);
      TermsFirst(Symbolic(ts), s, fs);
      assert sym == [sym[0]] + sym[1..];
      assert sym[0] in sym;
      var rest := MergeMeans(op, ts[1..], sym[1..], c, placed, s, fs);
      assert merged == [ts[0]] + Merge(ts[1..], total, placed) && merged[1..] == Merge(ts[1..], total, placed);
      TermsFirst(merged, s, fs);
      vals := [sym[0]] + rest;
      CombineLaws(op, c, sym[0].n, AllOf(op, sym[1..]));
      CombineLaws(op, sym[0].n, c, AllOf(op, sym[1..]));
    }
  }

  lemma HasNumberTail(ts: seq<Term>)
    requires ts != [] && !IsNumLit(ts[0])
    ensures HasNumber(ts) <==> HasNumber(ts[1..])
  {
    if HasNumber(ts) {
      var t :| t in ts && IsNumLit(t);
      assert t in ts[1..];
    }
    if HasNumber(ts[1..]) {
      var t :| t in ts[1..] && IsNumLit(t);
      assert t in ts;
    }
  }

  lemma FoldNumericMeans(op: Op, ts: seq<Term>, vals: seq<Value>, s: Assignment, fs: Functions)
    requires op.PlusOp? || op.TimesOp?
    requires EvalTerms(ts, s, fs) == Some(vals) && OpValue(op, vals, s, fs).Some?
    ensures EvalTerm(FoldNumeric(op, ts), s, fs) == OpValue(op, vals, s, fs)
  {
    NumericIs(op, vals);
    assert OpValue(op, vals, s, fs) == NumericOf(op, vals);
    if HasNumber(ts) {
      var c := Total(op, ts);
      var sym := TotalSplits(op, ts, vals, s, fs);
      var merged := MergeMeans(op, ts, sym, c, false, s, fs);
      NumericIs(op, merged);
      MergeNonEmpty(ts, Lit(NumV(c)));
      LitValue(NumV(c), s, fs);
      if |Merge(ts, Lit(NumV(c)), false)| == 1 {
        MergeSingle(ts, Lit(NumV(c)));
        TermsFirst([Lit(NumV(c))], s, fs);
        TermsFirst([], s, fs);
        assert [Lit(NumV(c))][1..] == [];
        assert merged == [NumV(c)] && merged[1..] == [];
        CombineLaws(op, c, Unit(op), c);
        CombineLaws(op, Unit(op), c, c);
      }
    }
  }

  lemma {:induction false} MergeNonEmpty(ts: seq<Term>, total: Term)
    requires HasNumber(ts)
    ensures total in Merge(ts, total, false)
  {
    if !IsNumLit(ts[0]) {
      HasNumberTail(ts);
      MergeNonEmpty(ts[1..], total);
    }
  }

  lemma MergeSingle(ts: seq<Term>, total: Term)
    requires HasNumber(ts) && |Merge(ts, total, false)| == 1
    ensures Merge(ts, total, false) == [total]
  {
    MergeNonEmpty(ts, total);
  }

  // ---- any operator ----

  lemma {:induction false} LitValuesAre(ts: seq<Term>, s: Assignment, fs: Functions)
    requires (forall t | t in ts :: t.op.Literal?) && EvalTerms(ts, s, fs).Some?
    ensures EvalTerms(ts, s, fs) == Some(LitValues(ts))
  {
    TermsFirst(ts, s, fs);
    if ts != [] {
      assert ts[0] in ts;
      LitEval(ts[0], s, fs);
      assert forall t | t in ts[1..] :: t in ts;
      LitValuesAre(ts[1..], s, fs);
    }
  }

  lemma PairVals(ts: seq<Term>, vals: seq<Value>, s: Assignment, fs: Functions)
    requires |ts| == 2 && EvalTerms(ts, s, fs) == Some(vals)
    ensures |vals| == 2 && EvalTerm(ts[0], s, fs) == Some(vals[0]) && EvalTerm(ts[1], s, fs) == Some(vals[1])
  {
    TermsFirst(ts, s, fs);
    TermsFirst(ts[1..], s, fs);
  }

  lemma SingleVal(ts: seq<Term>, vals: seq<Value>, s: Assignment, fs: Functions)
    requires |ts| == 1 && EvalTerms(ts, s, fs) == Some(vals)
    ensures |vals| == 1 && EvalTerm(ts[0], s, fs) == Some(vals[0])
  {
    TermsFirst(ts, s, fs);
    TermsFirst(ts[1..], s, fs);
  }

  // Comparisons, differences and quotients of two constants.
  lemma FoldBinaryMeans(op: Op, ts: seq<Term>, vals: seq<Value>, s: Assignment, k: Known)
    requires IsBinary(op) && EvalTerms(ts, s, k.functions) == Some(vals)
    requires OpValue(op, vals, s, k.functions).Some?
    ensures Fold(op, ts, k).Some?
    ensures EvalTerm(Fold(op, ts, k).value, s, k.functions) == OpValue(op, vals, s, k.functions)
  {
    var fs := k.functions;
    var v := OpValue(op, vals, s, fs).value;
    PairVals(ts, vals, s, fs);
    LitValue(v, s, fs);
    if IsNumLit(ts[0]) {
      LitEval(ts[0], s, fs);
    }
    if IsNumLit(ts[1]) {
      LitEval(ts[1], s, fs);
    }
    hide EvalTerms, CompareOf, MinusOf, DivOf;
    assert EvalTerm(Term(op, ts), s, fs) == Some(v);
  }

  lemma FoldMeans(op: Op, ts: seq<Term>, vals: seq<Value>, s: Assignment, k: Known)
    requires EvalTerms(ts, s, k.functions) == Some(vals) && OpValue(op, vals, s, k.functions).Some?
    requires op.AndOp? || op.OrOp? ==> FoldsExactly(op.AndOp?, ts, s, k.functions)
    requires op.Literal? || op.Read? ==> ts == []
    requires Knows(s, k)
    ensures Fold(op, ts, k).Some?
    ensures EvalTerm(Fold(op, ts, k).value, s, k.functions) == OpValue(op, vals, s, k.functions)
  {
    var fs := k.functions;
    var v := OpValue(op, vals, s, fs).value;
    LitValue(v, s, fs);
    match op
    case AndOp => FoldConnectiveExact(op, true, ts, vals, s, fs);
    case OrOp => FoldConnectiveExact(op, false, ts, vals, s, fs);
    case PlusOp => FoldNumericMeans(op, ts, vals, s, fs);
    case TimesOp => FoldNumericMeans(op, ts, vals, s, fs);
    case NotOp =>
      SingleVal(ts, vals, s, fs);
      if IsBoolLit(ts[0]) {
        LitEval(ts[0], s, fs);
      }
    case CallOp(_) =>
      if forall t | t in ts :: t.op.Literal? {
        LitValuesAre(ts, s, fs);
      }
    case Literal(_) =>
    case Read(_) =>
    case _ => FoldBinaryMeans(op, ts, vals, s, k);
  }

  /** Simplifying preserves meaning: where the tree has a value, so does what is
      left of it, and the same. */
  lemma {:induction false} SimplifyMeans(t: Term, s: Assignment, k: Known)
    requires Collapsible(t, s, k) && Knows(s, k) && EvalTerm(t, s, k.functions).Some?
    ensures SimplifyTerm(t, k).Some?
    ensures EvalTerm(SimplifyTerm(t, k).value, s, k.functions) == EvalTerm(t, s, k.functions)
    decreases t, 0
  {
    SimplifyAllMeans(t.args, s, k);
    FoldMeans(t.op, SimplifyTerms(t.args, k).value, EvalTerms(t.args, s, k.functions).value, s, k);
  }

  lemma {:induction false} SimplifyAllMeans(ts: seq<Term>, s: Assignment, k: Known)
    requires AllCollapsible(ts, s, k) && Knows(s, k) && EvalTerms(ts, s, k.functions).Some?
    ensures SimplifyTerms(ts, k).Some?
    ensures EvalTerms(SimplifyTerms(ts, k).value, s, k.functions) == EvalTerms(ts, s, k.functions)
    decreases ts
  {
    TermsFirst(ts, s, k.functions);
    if ts != [] {
      SimplifyMeans(ts[0], s, k);
      SimplifyAllMeans(ts[1..], s, k);
      var us := SimplifyTerms(ts, k).value;
      assert us[1..] == SimplifyTerms(ts[1..], k).value;
      TermsFirst(us, s, k.functions);
    } else {
      TermsFirst([], s, k.functions);
    }
  }

  lemma {:induction false} OpenValue(ts: seq<Term>, vals: seq<Value>, s: Assignment, fs: Functions)
    requires EvalTerms(ts, s, fs) == Some(vals) && Open(ts) != []
    ensures EvalTerm(Open(ts)[0], s, fs).Some? && EvalTerm(Open(ts)[0], s, fs).value in vals
  {
    TermsFirst(ts, s, fs);
    assert vals == [vals[0]] + vals[1..];
    if IsBoolLit(ts[0]) {
      assert Open(ts) == Open(ts[1..]);
      OpenValue(ts[1..], vals[1..], s, fs);
    }
  }

  /** Boolean operands, which typed expressions have, fold exactly. */
  lemma {:induction false} BooleanCollapsible(t: Term, s: Assignment, k: Known)
    requires BooleanOperands(t, s, k.functions) && Knows(s, k) && EvalTerm(t, s, k.functions).Some?
    ensures Collapsible(t, s, k)
    decreases t, 0
  {
    AllBooleanCollapsible(t.args, s, k);
    SimplifyAllMeans(t.args, s, k);
    var (us, vals) := (SimplifyTerms(t.args, k).value, EvalTerms(t.args, s, k.functions).value);
    if (t.op.AndOp? || t.op.OrOp?) && |Open(us)| == 1 {
      OpenValue(us, vals, s, k.functions);
    }
  }

  lemma {:induction false} AllBooleanCollapsible(ts: seq<Term>, s: Assignment, k: Known)
    requires AllBooleanOperands(ts, s, k.functions) && Knows(s, k) && EvalTerms(ts, s, k.functions).Some?
    ensures AllCollapsible(ts, s, k)
    decreases ts
  {
    TermsFirst(ts, s, k.functions);
    if ts != [] {
      BooleanCollapsible(ts[0], s, k);
      AllBooleanCollapsible(ts[1..], s, k);
    }
  }

  /** Of operands that are not boolean it need not be: the conjunction of TRUE and the number
      1 is false, and simplifies to 1. */
  lemma SimplifyCanFail(s: Assignment, k: Known)
    ensures var t := Term(AndOp, [Lit(BoolV(true)), Lit(NumV(1.0))]);
      && EvalTerm(t, s, k.functions) == Some(BoolV(false))
      && SimplifyTerm(t, k) == Some(Lit(NumV(1.0)))
  {
    var (a, b) := (Lit(BoolV(true)), Lit(NumV(1.0)));
    EvalPair(a, b, s, k.functions);
    LitValue(BoolV(true), s, k.functions);
    LitValue(NumV(1.0), s, k.functions);
    var vals := [BoolV(true), NumV(1.0)];
    assert vals[1] in vals;
    assert SimplifyTerms([], k) == Some([]);
    assert SimplifyTerm(a, k) == Some(a) && SimplifyTerm(b, k) == Some(b);
    assert [a, b][1..] == [b] && [b][1..] == [];
    assert SimplifyTerms([b], k) == Some([b] + []);
    assert [a] + ([b] + []) == [a, b];
    assert Open([b]) == [b] + [] && Open([a, b]) == [] + ([b] + []);
    assert [] + ([b] + []) == [b];
  }
}
