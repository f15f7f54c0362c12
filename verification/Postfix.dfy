/**
 The postfix arrays expressions are kept in: every operator names its operands by
 their positions.  An array is contiguous when it lists a tree's nodes in postfix
 order and nothing else.
*/
module Postfix {
  import opened Options
  import E = Expr
  import opened Expr

  datatype Op =
    | Literal(value: Value)
    | Read(fluent: nat)
    | AndOp | OrOp | NotOp | EqualsOp | LeOp | LtOp | PlusOp | MinusOp | TimesOp | DivOp
    | CallOp(func: nat)

  datatype Node = Node(op: Op, args: seq<nat>)

  /** An expression tree, in the uniform shape of the arrays. */
  datatype Term = Term(op: Op, args: seq<Term>)

  // ---- what terms mean ----

  function BinaryOf(op: Op, l: Value, r: Value): Option<Value> {
    match op
    case EqualsOp => Some(BoolV(l == r))
    case LeOp => CompareOf(false, l, r)
    case LtOp => CompareOf(true, l, r)
    case MinusOp => MinusOf(l, r)
    case DivOp => DivOf(l, r)
    case _ => None
  }

  predicate IsBinary(op: Op) {
    op.EqualsOp? || op.LeOp? || op.LtOp? || op.MinusOp? || op.DivOp?
  }

  /** The value of an operator on its operands' values. */
  function OpValue(op: Op, vals: seq<Value>, s: Assignment, fs: Functions): Option<Value> {
    match op
    case Literal(v) => Some(v)
    case Read(f) => if f < |s| then Some(s[f]) else None
    case AndOp => Some(AndOf(vals))
    case OrOp => Some(OrOf(vals))
    case NotOp => if |vals| == 1 then Some(BoolV(vals[0] == BoolV(false))) else None
    case PlusOp => SumOf(vals)
    case TimesOp => ProductOf(vals)
    case CallOp(func) => fs(func, vals)
    case _ => if |vals| == 2 then BinaryOf(op, vals[0], vals[1]) else None
  }

  function EvalTerm(t: Term, s: Assignment, fs: Functions): Option<Value> {
    var vals := EvalTerms(t.args, s, fs);
    if vals.None? then None else OpValue(t.op, vals.value, s, fs)
  }

  function EvalTerms(ts: seq<Term>, s: Assignment, fs: Functions): (vals: Option<seq<Value>>)
    ensures vals.Some? ==> |vals.value| == |ts|
  {
    if ts == [] then Some([]) else
      var (v, rest) := (EvalTerm(ts[0], s, fs), EvalTerms(ts[1..], s, fs));
      if v.None? || rest.None? then None else Some([v.value] + rest.value)
  }

  lemma TermsFirst(ts: seq<Term>, s: Assignment, fs: Functions)
    ensures ts == [] ==> EvalTerms(ts, s, fs) == Some([])
    ensures ts != [] ==>
              var (a, b) := (EvalTerm(ts[0], s, fs), EvalTerms(ts[1..], s, fs));
              EvalTerms(ts, s, fs) == if a.None? || b.None? then None else Some([a.value] + b.value)
  {
  }

  // ---- contiguous arrays ----

  function Size(t: Term): (n: nat)
    ensures n > 0
  {
    SizeAll(t.args) + 1
  }

  function SizeAll(ts: seq<Term>): nat {
    if ts == [] then 0 else Size(ts[0]) + SizeAll(ts[1..])
  }

  /** Where the roots of consecutive trees end up, the first starting at `base`. */
  function Roots(ts: seq<Term>, base: nat): (rs: seq<nat>)
    ensures |rs| == |ts|
  {
    if ts == [] then [] else [base + Size(ts[0]) - 1] + Roots(ts[1..], base + Size(ts[0]))
  }

  /** The nodes of `t` in postfix order, from position `base` on. */
  function Flat(t: Term, base: nat): (nodes: seq<Node>)
    ensures |nodes| == Size(t)
  {
    FlatAll(t.args, base) + [Node(t.op, Roots(t.args, base))]
  }

  function FlatAll(ts: seq<Term>, base: nat): (nodes: seq<Node>)
    ensures |nodes| == SizeAll(ts)
  {
    if ts == [] then [] else Flat(ts[0], base) + FlatAll(ts[1..], base + Size(ts[0]))
  }

  // ---- shifting ----

  function ShiftArgs(args: seq<nat>, offset: nat): seq<nat> {
    seq(|args|, i requires 0 <= i < |args| => args[i] + offset)
  }

  /** `shift_expression`. */
  function Shift(nodes: seq<Node>, offset: nat): (r: seq<Node>)
    ensures |r| == |nodes|
  {
    seq(|nodes|, i requires 0 <= i < |nodes| => Node(nodes[i].op, ShiftArgs(nodes[i].args, offset)))
  }

  lemma ShiftConcat(p: seq<Node>, q: seq<Node>, offset: nat)
    ensures Shift(p + q, offset) == Shift(p, offset) + Shift(q, offset)
  {
  }

  lemma {:induction false} ShiftRoots(ts: seq<Term>, base: nat, offset: nat)
    ensures ShiftArgs(Roots(ts, base), offset) == Roots(ts, base + offset)
    decreases ts
  {
    if ts != [] {
      var n := Size(ts[0]);
      ShiftRoots(ts[1..], base + n, offset);
      assert base + offset + n == base + n + offset;
      ShiftArgsCons(base + n - 1, Roots(ts[1..], base + n), offset);
    }
  }

  lemma ShiftArgsCons(a: nat, args: seq<nat>, offset: nat)
    ensures ShiftArgs([a] + args, offset) == [a + offset] + ShiftArgs(args, offset)
  {
  }

  /** Shifting a contiguous array is laying out the same tree further on. */
  lemma {:induction false} ShiftFlat(t: Term, base: nat, offset: nat)
    ensures Shift(Flat(t, base), offset) == Flat(t, base + offset)
    decreases t, 0
  {
    ShiftFlatAll(t.args, base, offset);
    ShiftRoots(t.args, base, offset);
    ShiftConcat(FlatAll(t.args, base), [Node(t.op, Roots(t.args, base))], offset);
  }

  lemma {:induction false} ShiftFlatAll(ts: seq<Term>, base: nat, offset: nat)
    ensures Shift(FlatAll(ts, base), offset) == FlatAll(ts, base + offset)
    decreases ts
  {
    if ts != [] {
      ShiftFlat(ts[0], base, offset);
      ShiftFlatAll(ts[1..], base + Size(ts[0]), offset);
      ShiftConcat(Flat(ts[0], base), FlatAll(ts[1..], base + Size(ts[0])), offset);
      assert base + Size(ts[0]) + offset == base + offset + Size(ts[0]);
    }
  }

  // ---- evaluation ----

  /** The operands' values; None when a position is not there. */
  function Operands(args: seq<nat>, res: seq<Value>): Option<seq<Value>> {
    if forall a | a in args :: a < |res| then Some(seq(|args|, i requires 0 <= i < |args| => Operand(args, res, i)))
    else None
  }

  function Operand(args: seq<nat>, res: seq<Value>, i: nat): Value
    requires i < |args| && forall a | a in args :: a < |res|
  {
    assert args[i] in args;
    res[args[i]]
  }

  function NodeValue(node: Node, res: seq<Value>, s: Assignment, fs: Functions): Option<Value> {
    var vals := Operands(node.args, res);
    if vals.None? then None else OpValue(node.op, vals.value, s, fs)
  }

  /** The values of all nodes, from left to right, after those in `res`. */
  function RunNodes(nodes: seq<Node>, res: seq<Value>, s: Assignment, fs: Functions): Option<seq<Value>> {
    if nodes == [] then Some(res) else
      match NodeValue(nodes[0], res, s, fs)
      case None => None
      case Some(v) => RunNodes(nodes[1..], res + [v], s, fs)
  }

  /** `internal_evaluate_into`. */
  method Evaluate(nodes: seq<Node>, s: Assignment, fs: Functions) returns (v: Option<Value>)
    ensures v == var all := RunNodes(nodes, [], s, fs);
                 if nodes == [] || all.None? || all.value == [] then None else Some(all.value[|all.value| - 1])
  {
    var res: seq<Value> := [];
    for i := 0 to |nodes|
      invariant |res| == i && RunNodes(nodes[i..], res, s, fs) == RunNodes(nodes, [], s, fs)
      invariant nodes == [] || i < |nodes|
    {
      assert nodes[i..][0] == nodes[i] && nodes[i..][1..] == nodes[i + 1..];
      var value := NodeValue(nodes[i], res, s, fs);
      if value.None? {
        return None;
      }
      if |res| == |nodes| - 1 {
        assert RunNodes(nodes[i + 1..], res + [value.value], s, fs) == Some(res + [value.value]);
        return value;
      }
      res := res + [value.value];
    }
    v := None;
  }

  lemma {:induction false} RunConcat(p: seq<Node>, q: seq<Node>, res: seq<Value>, s: Assignment, fs: Functions)
    ensures RunNodes(p + q, res, s, fs)
         == match RunNodes(p, res, s, fs) case None => None case Some(mid) => RunNodes(q, mid, s, fs)
    decreases |p|
  {
    if p == [] {
      assert p + q == q;
    } else {
      assert (p + q)[1..] == p[1..] + q;
      var v := NodeValue(p[0], res, s, fs);
      if v.Some? {
        RunConcat(p[1..], q, res + [v.value], s, fs);
      }
    }
  }

  /** Running a contiguous array computes the tree's value, last; it raises exactly
      when the tree's value is undefined. */
  lemma {:induction false} RunFlat(t: Term, res: seq<Value>, s: Assignment, fs: Functions) returns (more: seq<Value>)
    ensures EvalTerm(t, s, fs).None? ==> RunNodes(Flat(t, |res|), res, s, fs).None?
    ensures EvalTerm(t, s, fs).Some? ==>
              && RunNodes(Flat(t, |res|), res, s, fs) == Some(res + more) && |more| == Size(t)
              && more[|more| - 1] == EvalTerm(t, s, fs).value
    decreases t, 0
  {
    more := [];
    var node := Node(t.op, Roots(t.args, |res|));
    var below := RunFlatAll(t.args, res, s, fs);
    RunConcat(FlatAll(t.args, |res|), [node], res, s, fs);
    var vals := EvalTerms(t.args, s, fs);
    if vals.Some? {
      RootValues(t.args, res, below, vals.value, s, fs);
      var v := OpValue(t.op, vals.value, s, fs);
      RunOne(node, res + below, s, fs);
      if v.Some? {
        more := below + [v.value];
        assert res + below + [v.value] == res + more;
      }
    }
  }

  lemma RunOne(node: Node, res: seq<Value>, s: Assignment, fs: Functions)
    ensures RunNodes([node], res, s, fs)
         == match NodeValue(node, res, s, fs) case None => None case Some(v) => Some(res + [v])
  {
    assert [node][1..] == [];
  }

  lemma {:induction false} RunFlatAll(ts: seq<Term>, res: seq<Value>, s: Assignment, fs: Functions)
    returns (more: seq<Value>)
    ensures EvalTerms(ts, s, fs).None? ==> RunNodes(FlatAll(ts, |res|), res, s, fs).None?
    ensures EvalTerms(ts, s, fs).Some? ==>
              && RunNodes(FlatAll(ts, |res|), res, s, fs) == Some(res + more) && |more| == SizeAll(ts)
              && HasRoots(ts, more, EvalTerms(ts, s, fs).value)
    decreases ts
  {
    more := [];
    if ts == [] {
      assert res + more == res;
    } else {
      var first := RunFlat(ts[0], res, s, fs);
      TermsFirst(ts, s, fs);
      RunConcat(Flat(ts[0], |res|), FlatAll(ts[1..], |res| + Size(ts[0])), res, s, fs);
      assert FlatAll(ts, |res|) == Flat(ts[0], |res|) + FlatAll(ts[1..], |res| + Size(ts[0]));
      assert SizeAll(ts) == Size(ts[0]) + SizeAll(ts[1..]);
      hide RunNodes, HasRoots, Flat, FlatAll, EvalTerm, EvalTerms, Size, SizeAll;
      if EvalTerm(ts[0], s, fs).Some? {
        var rest := RunFlatAll(ts[1..], res + first, s, fs);
        if EvalTerms(ts[1..], s, fs).Some? {
          more := first + rest;
          assert res + first + rest == res + more;
          HasRootsCons(ts, first, rest, EvalTerms(ts, s, fs).value);
        }
      }
    }
  }

  // The values of the trees `ts` are at their roots in `more`.
  ghost predicate HasRoots(ts: seq<Term>, more: seq<Value>, vals: seq<Value>)
    requires |vals| == |ts|
  {
    && |more| == SizeAll(ts)
    && (ts != [] ==>
          && more[Size(ts[0]) - 1] == vals[0]
          && HasRoots(ts[1..], more[Size(ts[0])..], vals[1..]))
  }

  lemma {:induction false} HasRootsCons(ts: seq<Term>, first: seq<Value>, rest: seq<Value>, vals: seq<Value>)
    requires ts != [] && |vals| == |ts| && |first| == Size(ts[0]) && first[|first| - 1] == vals[0]
    requires HasRoots(ts[1..], rest, vals[1..])
    ensures HasRoots(ts, first + rest, vals)
  {
    assert (first + rest)[|first|..] == rest;
  }

  lemma {:induction false} RootsWithin(ts: seq<Term>, base: nat)
    ensures forall i | 0 <= i < |ts| :: base <= Roots(ts, base)[i] < base + SizeAll(ts)
    decreases ts
  {
    if ts != [] {
      RootsWithin(ts[1..], base + Size(ts[0]));
    }
  }

  lemma {:induction false} RootsHold(ts: seq<Term>, res: seq<Value>, more: seq<Value>, vals: seq<Value>, base: nat)
    requires |vals| == |ts| && HasRoots(ts, more, vals) && base == |res|
    ensures forall i | 0 <= i < |ts| ::
              Roots(ts, base)[i] < |res + more| && (res + more)[Roots(ts, base)[i]] == vals[i]
    decreases ts
  {
    RootsWithin(ts, base);
    if ts != [] {
      var n := Size(ts[0]);
      var (first, rest) := (more[..n], more[n..]);
      RootsHold(ts[1..], res + first, rest, vals[1..], base + n);
      assert res + first + rest == res + more;
    }
  }

  lemma RootValues(ts: seq<Term>, res: seq<Value>, more: seq<Value>, vals: seq<Value>, s: Assignment, fs: Functions)
    requires |vals| == |ts| && HasRoots(ts, more, vals)
    ensures Operands(Roots(ts, |res|), res + more) == Some(vals)
  {
    RootsHold(ts, res, more, vals, |res|);
    hide HasRoots, Roots;
    OperandsAre(Roots(ts, |res|), res + more, vals);
  }

  lemma OperandsAre(args: seq<nat>, res: seq<Value>, vals: seq<Value>)
    requires |args| == |vals| && forall i | 0 <= i < |args| :: args[i] < |res| && res[args[i]] == vals[i]
    ensures Operands(args, res) == Some(vals)
  {
    forall a | a in args ensures a < |res| {
      var i :| 0 <= i < |args| && args[i] == a;
    }
    var got := Operands(args, res).value;
    forall i | 0 <= i < |args| ensures got[i] == vals[i] {
      assert got[i] == Operand(args, res, i);
    }
    assert got == vals;
  }

  /** The array form evaluates to what the tree means. */
  method EvaluateFlat(ghost t: Term, nodes: seq<Node>, s: Assignment, fs: Functions) returns (v: Option<Value>)
    requires nodes == Flat(t, 0)
    ensures v == EvalTerm(t, s, fs)
  {
    ghost var more := RunFlat(t, [], s, fs);
    assert [] + more == more;
    v := Evaluate(nodes, s, fs);
  }

  // ---- from expressions ----

  /** The tree the converter lists: a conjunction or disjunction of one operand is
      that operand, and one of none is a constant.  `swapped` tells which equalities
      it turns around. */
  function TermOf(e: Expr, swapped: Expr -> bool): Term {
    match e
    case Const(v) => Term(Literal(v), [])
    case Fluent(f) => Term(Read(f), [])
    case And(es) =>
      if es == [] then Term(Literal(BoolV(true)), []) else if |es| == 1 then TermOf(es[0], swapped)
      else Term(AndOp, TermsOf(es, swapped))
    case Or(es) =>
      if es == [] then Term(Literal(BoolV(false)), []) else if |es| == 1 then TermOf(es[0], swapped)
      else Term(OrOp, TermsOf(es, swapped))
    case Not(a) => Term(NotOp, [TermOf(a, swapped)])
    case Equals(l, r) =>
      if swapped(e) then Term(EqualsOp, [TermOf(r, swapped), TermOf(l, swapped)])
      else Term(EqualsOp, [TermOf(l, swapped), TermOf(r, swapped)])
    case Le(l, r) => Term(LeOp, [TermOf(l, swapped), TermOf(r, swapped)])
    case Lt(l, r) => Term(LtOp, [TermOf(l, swapped), TermOf(r, swapped)])
    case Plus(es) => Term(PlusOp, TermsOf(es, swapped))
    case Minus(l, r) => Term(MinusOp, [TermOf(l, swapped), TermOf(r, swapped)])
    case Times(es) => Term(TimesOp, TermsOf(es, swapped))
    case Div(l, r) => Term(DivOp, [TermOf(l, swapped), TermOf(r, swapped)])
    case Call(f, es) => Term(CallOp(f), TermsOf(es, swapped))
  }

  function TermsOf(es: seq<Expr>, swapped: Expr -> bool): (ts: seq<Term>)
    ensures |ts| == |es|
  {
    if es == [] then [] else [TermOf(es[0], swapped)] + TermsOf(es[1..], swapped)
  }

  /** A conjunction or disjunction with a single operand is of a boolean. */
  predicate BooleanSingles(e: Expr, s: Assignment, fs: Functions) {
    match e
    case Const(_) => true
    case Fluent(_) => true
    case And(es) => AllBooleanSingles(es, s, fs) && (|es| == 1 ==> IsBool(Eval(es[0], s, fs)))
    case Or(es) => AllBooleanSingles(es, s, fs) && (|es| == 1 ==> IsBool(Eval(es[0], s, fs)))
    case Not(a) => BooleanSingles(a, s, fs)
    case Plus(es) => AllBooleanSingles(es, s, fs)
    case Times(es) => AllBooleanSingles(es, s, fs)
    case Call(_, es) => AllBooleanSingles(es, s, fs)
    case Equals(l, r) => BooleanSingles(l, s, fs) && BooleanSingles(r, s, fs)
    case Le(l, r) => BooleanSingles(l, s, fs) && BooleanSingles(r, s, fs)
    case Lt(l, r) => BooleanSingles(l, s, fs) && BooleanSingles(r, s, fs)
    case Minus(l, r) => BooleanSingles(l, s, fs) && BooleanSingles(r, s, fs)
    case Div(l, r) => BooleanSingles(l, s, fs) && BooleanSingles(r, s, fs)
  }

  predicate AllBooleanSingles(es: seq<Expr>, s: Assignment, fs: Functions) {
    es == [] || (BooleanSingles(es[0], s, fs) && AllBooleanSingles(es[1..], s, fs))
  }

  predicate IsBool(v: Option<Value>) {
    v.Some? ==> v.value.BoolV?
  }

  lemma EvalSingle(t: Term, s: Assignment, fs: Functions)
    ensures EvalTerms([t], s, fs) == var a := EvalTerm(t, s, fs); if a.None? then None else Some([a.value])
  {
    assert [t][1..] == [];
    TermsFirst([t], s, fs);
    TermsFirst([], s, fs);
    assert forall v: Value :: [v] + [] == [v];
  }

  lemma EvalPair(l: Term, r: Term, s: Assignment, fs: Functions)
    ensures EvalTerms([l, r], s, fs)
         == var (a, b) := (EvalTerm(l, s, fs), EvalTerm(r, s, fs));
            if a.None? || b.None? then None else Some([a.value, b.value])
  {
    assert [l, r][1..] == [r];
    TermsFirst([l, r], s, fs);
    EvalSingle(r, s, fs);
    assert forall v: Value, w: Value :: [v] + [w] == [v, w];
  }

  lemma ExprsFirst(es: seq<Expr>, s: Assignment, fs: Functions)
    ensures es == [] ==> EvalAll(es, s, fs) == Some([])
    ensures es != [] ==>
              var (a, b) := (Eval(es[0], s, fs), EvalAll(es[1..], s, fs));
              EvalAll(es, s, fs) == if a.None? || b.None? then None else Some([a.value] + b.value)
  {
  }

  // The connective of a single boolean is that boolean.
  lemma SingleConnective(es: seq<Expr>, s: Assignment, fs: Functions)
    requires |es| == 1 && IsBool(Eval(es[0], s, fs))
    ensures Eval(And(es), s, fs) == Eval(es[0], s, fs) && Eval(Or(es), s, fs) == Eval(es[0], s, fs)
  {
    ExprsFirst(es, s, fs);
    ExprsFirst(es[1..], s, fs);
    var v := Eval(es[0], s, fs);
    if v.Some? {
      assert [v.value] + [] == [v.value];
      assert v.value in [v.value];
    }
  }

  lemma NoneConnective(s: Assignment, fs: Functions)
    ensures Eval(And([]), s, fs) == Some(BoolV(true)) && Eval(Or([]), s, fs) == Some(BoolV(false))
  {
    ExprsFirst([], s, fs);
  }

  lemma PairValue(op: Op, l: Term, r: Term, s: Assignment, fs: Functions)
    requires IsBinary(op)
    ensures EvalTerm(Term(op, [l, r]), s, fs)
         == var (a, b) := (EvalTerm(l, s, fs), EvalTerm(r, s, fs));
            if a.None? || b.None? then None else BinaryOf(op, a.value, b.value)
  {
    EvalPair(l, r, s, fs);
  }

  /** The tree means what the expression does, provided single operands are boolean. */
  lemma {:induction false} TermMeans(e: Expr, swapped: Expr -> bool, s: Assignment, fs: Functions)
    requires BooleanSingles(e, s, fs)
    ensures EvalTerm(TermOf(e, swapped), s, fs) == Eval(e, s, fs)
    decreases e, 2
  {
    hide CompareOf, MinusOf, DivOf, SumOf, ProductOf, E.AndOf, E.OrOf;
    match e
    case Const(_) => TermsFirst([], s, fs);
    case Fluent(_) => TermsFirst([], s, fs);
    case And(es) => ConnectiveMeans(es, swapped, s, fs);
    case Or(es) => ConnectiveMeans(es, swapped, s, fs);
    case Not(a) => TermMeans(a, swapped, s, fs); EvalSingle(TermOf(a, swapped), s, fs);
    case Plus(es) => TermsMean(es, swapped, s, fs);
    case Times(es) => TermsMean(es, swapped, s, fs);
    case Call(f, es) => TermsMean(es, swapped, s, fs);
    case _ => BinaryMeans(e, swapped, s, fs);
  }

  lemma {:induction false} BinaryMeans(e: Expr, swapped: Expr -> bool, s: Assignment, fs: Functions)
    requires e.Equals? || e.Le? || e.Lt? || e.Minus? || e.Div?
    requires BooleanSingles(e, s, fs)
    ensures EvalTerm(TermOf(e, swapped), s, fs) == Eval(e, s, fs)
    decreases e, 1
  {
    hide CompareOf, MinusOf, DivOf;
    match e
    case Equals(l, r) => OperandsMean(e, EqualsOp, l, r, swapped, s, fs); OperandsMean(e, EqualsOp, r, l, swapped, s, fs);
    case Le(l, r) => OperandsMean(e, LeOp, l, r, swapped, s, fs);
    case Lt(l, r) => OperandsMean(e, LtOp, l, r, swapped, s, fs);
    case Minus(l, r) => OperandsMean(e, MinusOp, l, r, swapped, s, fs);
    case Div(l, r) => OperandsMean(e, DivOp, l, r, swapped, s, fs);
  }

  lemma {:induction false} OperandsMean(
    e: Expr, op: Op, l: Expr, r: Expr, swapped: Expr -> bool, s: Assignment, fs: Functions)
    requires e == Equals(l, r) || e == Equals(r, l) || e == Le(l, r) || e == Lt(l, r) || e == Minus(l, r) || e == Div(l, r)
    requires IsBinary(op) && BooleanSingles(l, s, fs) && BooleanSingles(r, s, fs)
    ensures EvalTerm(Term(op, [TermOf(l, swapped), TermOf(r, swapped)]), s, fs)
         == var (a, b) := (Eval(l, s, fs), Eval(r, s, fs));
            if a.None? || b.None? then None else BinaryOf(op, a.value, b.value)
    decreases e, 0
  {
    TermMeans(l, swapped, s, fs);
    TermMeans(r, swapped, s, fs);
    PairValue(op, TermOf(l, swapped), TermOf(r, swapped), s, fs);
  }

  lemma {:induction false} TermsMean(es: seq<Expr>, swapped: Expr -> bool, s: Assignment, fs: Functions)
    requires AllBooleanSingles(es, s, fs)
    ensures EvalTerms(TermsOf(es, swapped), s, fs) == EvalAll(es, s, fs)
    decreases es, 0
  {
    TermsFirst(TermsOf(es, swapped), s, fs);
    ExprsFirst(es, s, fs);
    if es != [] {
      TermMeans(es[0], swapped, s, fs);
      TermsMean(es[1..], swapped, s, fs);
      assert TermsOf(es, swapped)[1..] == TermsOf(es[1..], swapped);
    }
  }

  lemma {:induction false} ConnectiveMeans(es: seq<Expr>, swapped: Expr -> bool, s: Assignment, fs: Functions)
    requires AllBooleanSingles(es, s, fs) && (|es| == 1 ==> IsBool(Eval(es[0], s, fs)))
    ensures EvalTerm(TermOf(And(es), swapped), s, fs) == Eval(And(es), s, fs)
    ensures EvalTerm(TermOf(Or(es), swapped), s, fs) == Eval(Or(es), s, fs)
    decreases es, 1
  {
    if es == [] {
      NoneConnective(s, fs);
      TermsFirst([], s, fs);
    } else if |es| == 1 {
      SingleConnective(es, s, fs);
      TermMeans(es[0], swapped, s, fs);
    } else {
      TermsMean(es, swapped, s, fs);
    }
  }

  /** Exactly when dropping the connective of a single operand is right. */
  lemma SingleExact(x: Expr, swapped: Expr -> bool, s: Assignment, fs: Functions)
    requires BooleanSingles(x, s, fs)
    ensures EvalTerm(TermOf(And([x]), swapped), s, fs) == Eval(And([x]), s, fs) <==> IsBool(Eval(x, s, fs))
    ensures EvalTerm(TermOf(Or([x]), swapped), s, fs) == Eval(Or([x]), s, fs) <==> IsBool(Eval(x, s, fs))
  {
    TermMeans(x, swapped, s, fs);
    ExprsFirst([x], s, fs);
    ExprsFirst([], s, fs);
    assert [x][1..] == [];
    if IsBool(Eval(x, s, fs)) {
      SingleConnective([x], s, fs);
    }
  }

  /** It can be wrong: the conjunction of the number 1 is false, its array is 1. */
  lemma SingleCanFail(swapped: Expr -> bool, s: Assignment, fs: Functions)
    ensures var one := Const(NumV(1.0));
      && Eval(And([one]), s, fs) == Some(BoolV(false))
      && EvalTerm(TermOf(And([one]), swapped), s, fs) == Some(NumV(1.0))
  {
    var one := Const(NumV(1.0));
    ExprsFirst([one], s, fs);
    ExprsFirst([], s, fs);
    assert [one][1..] == [];
    TermsFirst([], s, fs);
    var vals := [NumV(1.0)];
    assert [NumV(1.0)] + [] == vals && vals[0] in vals;
  }

  // ---- the converter ----

  /** `walk_and` and its like, for several operands: one array after the other, each
      shifted to where it starts. */
  method WalkMany(op: Op, arrays: seq<seq<Node>>, ghost ts: seq<Term>) returns (nodes: seq<Node>)
    requires |arrays| == |ts| > 0 && forall i | 0 <= i < |ts| :: arrays[i] == Flat(ts[i], 0)
    ensures nodes == Flat(Term(op, ts), 0)
  {
    var res := arrays[0];
    var offset := |res| - 1;
    var operands := [offset];
    FirstLaid(ts);
    hide *;
    for i := 1 to |arrays|
      invariant offset + 1 == |res| && res == FlatAll(ts[..i], 0) && operands == Roots(ts[..i], 0)
    {
      WalkStep(ts, i, res, operands);
      res := res + Shift(arrays[i], offset + 1);
      offset := offset + |arrays[i]|;
      operands := operands + [offset];
    }
    assert ts[..|ts|] == ts;
    nodes := res + [Node(op, operands)];
    FlatIs(op, ts);
  }

  lemma FlatIs(op: Op, ts: seq<Term>)
    ensures Flat(Term(op, ts), 0) == FlatAll(ts, 0) + [Node(op, Roots(ts, 0))]
  {
  }

  lemma WalkStep(ts: seq<Term>, i: nat, res: seq<Node>, operands: seq<nat>)
    requires i < |ts| && res == FlatAll(ts[..i], 0) && operands == Roots(ts[..i], 0)
    ensures res + Shift(Flat(ts[i], 0), |res|) == FlatAll(ts[..i + 1], 0)
    ensures operands + [|res| - 1 + |Flat(ts[i], 0)|] == Roots(ts[..i + 1], 0)
  {
    ShiftFlat(ts[i], 0, |res|);
    LaidNext(ts[..i], ts[i], 0);
    assert ts[..i + 1] == ts[..i] + [ts[i]];
    hide Flat, FlatAll, Roots, Size, SizeAll, Shift;
  }

  lemma FirstLaid(ts: seq<Term>)
    requires ts != []
    ensures FlatAll(ts[..1], 0) == Flat(ts[0], 0) && Roots(ts[..1], 0) == [Size(ts[0]) - 1]
  {
    assert ts[..1] == [ts[0]] && [ts[0]][1..] == [];
    assert Flat(ts[0], 0) + [] == Flat(ts[0], 0);
  }

  lemma {:induction false} SizeSnoc(ts: seq<Term>, t: Term)
    ensures SizeAll(ts + [t]) == SizeAll(ts) + Size(t)
  {
    if ts == [] {
      assert [] + [t] == [t] && [t][1..] == [];
    } else {
      assert (ts + [t])[1..] == ts[1..] + [t];
      SizeSnoc(ts[1..], t);
    }
  }

  lemma {:induction false} RootsSnoc(ts: seq<Term>, t: Term, base: nat)
    ensures Roots(ts + [t], base) == Roots(ts, base) + [base + SizeAll(ts) + Size(t) - 1]
    decreases ts
  {
    if ts == [] {
      assert [] + [t] == [t] && [t][1..] == [];
    } else {
      assert (ts + [t])[1..] == ts[1..] + [t];
      RootsSnoc(ts[1..], t, base + Size(ts[0]));
    }
  }

  lemma {:induction false} FlatSnoc(ts: seq<Term>, t: Term, base: nat)
    ensures FlatAll(ts + [t], base) == FlatAll(ts, base) + Flat(t, base + SizeAll(ts))
    decreases ts
  {
    if ts == [] {
      assert [] + [t] == [t] && [t][1..] == [];
      assert Flat(t, base) + [] == Flat(t, base);
    } else {
      assert (ts + [t])[1..] == ts[1..] + [t] && (ts + [t])[0] == ts[0];
      FlatSnoc(ts[1..], t, base + Size(ts[0]));
      FlatCons(ts, base);
      FlatCons(ts + [t], base);
      assert SizeAll(ts) == Size(ts[0]) + SizeAll(ts[1..]);
      hide Flat, FlatAll, Size, SizeAll;
    }
  }

  lemma FlatCons(ts: seq<Term>, base: nat)
    requires ts != []
    ensures FlatAll(ts, base) == Flat(ts[0], base) + FlatAll(ts[1..], base + Size(ts[0]))
  {
  }

  /** Laying out one more tree. */
  lemma LaidNext(ts: seq<Term>, t: Term, base: nat)
    ensures SizeAll(ts + [t]) == SizeAll(ts) + Size(t)
    ensures FlatAll(ts + [t], base) == FlatAll(ts, base) + Flat(t, base + SizeAll(ts))
    ensures Roots(ts + [t], base) == Roots(ts, base) + [base + SizeAll(ts) + Size(t) - 1]
  {
    SizeSnoc(ts, t);
    RootsSnoc(ts, t, base);
    FlatSnoc(ts, t, base);
  }

  /** `walk_minus` and its like. */
  method WalkPair(op: Op, a: seq<Node>, b: seq<Node>, ghost l: Term, ghost r: Term) returns (nodes: seq<Node>)
    requires a == Flat(l, 0) && b == Flat(r, 0)
    ensures nodes == Flat(Term(op, [l, r]), 0)
  {
    nodes := a + Shift(b, |a|) + [Node(op, [|a| - 1, |a| + |b| - 1])];
    ShiftFlat(r, 0, |a|);
    FirstLaid([l, r]);
    LaidNext([l], r, 0);
    assert [l, r][..1] == [l] && [l] + [r] == [l, r];
    SizeSnoc([], l);
    assert [] + [l] == [l];
    assert [|a| - 1] + [|a| + |b| - 1] == [|a| - 1, |a| + |b| - 1];
  }

  // What Unified Planning guarantees of sums and products.
  predicate Convertible(e: Expr) {
    match e
    case Const(_) => true
    case Fluent(_) => true
    case And(es) => AllConvertible(es)
    case Or(es) => AllConvertible(es)
    case Not(a) => Convertible(a)
    case Plus(es) => AllConvertible(es) && |es| >= 2
    case Times(es) => AllConvertible(es) && |es| >= 2
    case Call(_, es) => AllConvertible(es) && |es| >= 1
    case Equals(l, r) => Convertible(l) && Convertible(r)
    case Le(l, r) => Convertible(l) && Convertible(r)
    case Lt(l, r) => Convertible(l) && Convertible(r)
    case Minus(l, r) => Convertible(l) && Convertible(r)
    case Div(l, r) => Convertible(l) && Convertible(r)
  }

  predicate AllConvertible(es: seq<Expr>) {
    es == [] || (Convertible(es[0]) && AllConvertible(es[1..]))
  }

  /** `walk_equals` puts a fluent first if the left side is not a changing one. */
  function SwapsFor(statics: set<nat>): Expr -> bool {
    (e: Expr) => e.Equals? && (!e.l.Fluent? || e.l.f in statics) && e.r.Fluent?
  }

  /** The array of an expression is the contiguous form of its tree. */
  method Convert(e: Expr, statics: set<nat>) returns (nodes: seq<Node>)
    requires Convertible(e)
    ensures nodes == Flat(TermOf(e, SwapsFor(statics)), 0)
    decreases e, 1
  {
    ghost var sw := SwapsFor(statics);
    match e {
      case Const(v) => nodes := [Node(Literal(v), [])];
      case Fluent(f) => nodes := [Node(Read(f), [])];
      case And(es) => nodes := ConvertMany(e, AndOp, es, BoolV(true), statics);
      case Or(es) => nodes := ConvertMany(e, OrOp, es, BoolV(false), statics);
      case Not(a) =>
        var inner := Convert(a, statics);
        nodes := inner + [Node(NotOp, [|inner| - 1])];
        FirstLaid([TermOf(a, sw)]);
        assert [TermOf(a, sw)][..1] == [TermOf(a, sw)];
      case Plus(es) =>
        var arrays := ConvertAll(es, statics);
        nodes := WalkMany(PlusOp, arrays, TermsOf(es, sw));
      case Times(es) =>
        var arrays := ConvertAll(es, statics);
        nodes := WalkMany(TimesOp, arrays, TermsOf(es, sw));
      case Call(f, es) =>
        var arrays := ConvertAll(es, statics);
        nodes := WalkMany(CallOp(f), arrays, TermsOf(es, sw));
      case _ => nodes := ConvertPair(e, statics);
    }
  }

  method ConvertPair(e: Expr, statics: set<nat>) returns (nodes: seq<Node>)
    requires e.Equals? || e.Le? || e.Lt? || e.Minus? || e.Div?
    requires Convertible(e)
    ensures nodes == Flat(TermOf(e, SwapsFor(statics)), 0)
    decreases e, 0
  {
    ghost var sw := SwapsFor(statics);
    var (l, r) := (e.l, e.r);
    var a := Convert(l, statics);
    var b := Convert(r, statics);
    hide Flat;
    match e {
      case Equals(_, _) =>
        if (!l.Fluent? || l.f in statics) && r.Fluent? {
          nodes := WalkPair(EqualsOp, b, a, TermOf(r, sw), TermOf(l, sw));
        } else {
          nodes := WalkPair(EqualsOp, a, b, TermOf(l, sw), TermOf(r, sw));
        }
      case Le(_, _) => nodes := WalkPair(LeOp, a, b, TermOf(l, sw), TermOf(r, sw));
      case Lt(_, _) => nodes := WalkPair(LtOp, a, b, TermOf(l, sw), TermOf(r, sw));
      case Minus(_, _) => nodes := WalkPair(MinusOp, a, b, TermOf(l, sw), TermOf(r, sw));
      case Div(_, _) => nodes := WalkPair(DivOp, a, b, TermOf(l, sw), TermOf(r, sw));
    }
  }

  // A connective of any number of operands.
  method ConvertMany(e: Expr, op: Op, es: seq<Expr>, unit: Value, statics: set<nat>) returns (nodes: seq<Node>)
    requires AllConvertible(es)
    requires (op == AndOp && unit == BoolV(true) && e == And(es)) || (op == OrOp && unit == BoolV(false) && e == Or(es))
    ensures nodes == Flat(TermOf(e, SwapsFor(statics)), 0)
    decreases e, 0
  {
    if |es| == 0 {
      nodes := [Node(Literal(unit), [])];
    } else if |es| == 1 {
      nodes := Convert(es[0], statics);
    } else {
      var arrays := ConvertAll(es, statics);
      nodes := WalkMany(op, arrays, TermsOf(es, SwapsFor(statics)));
    }
  }

  method ConvertAll(es: seq<Expr>, statics: set<nat>) returns (arrays: seq<seq<Node>>)
    requires AllConvertible(es)
    ensures |arrays| == |es|
    ensures forall i | 0 <= i < |es| :: arrays[i] == Flat(TermsOf(es, SwapsFor(statics))[i], 0)
    decreases es, 0
  {
    if es == [] {
      arrays := [];
    } else {
      var first := Convert(es[0], statics);
      var rest := ConvertAll(es[1..], statics);
      hide Flat;
      arrays := [first] + rest;
    }
  }
}
