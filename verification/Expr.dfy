/**
 Planning expressions as trees, and what they evaluate to.  The postfix arrays
 the planner works on are in `Postfix.dfy`.
*/
module Expr {
  import opened Options

  // Numbers are exact, and the integer and rational nodes are one kind.
  datatype Value = BoolV(b: bool) | NumV(n: real) | ObjV(o: nat)

  datatype Expr =
    | Const(value: Value)
    | Fluent(f: nat)
    | And(args: seq<Expr>)
    | Or(args: seq<Expr>)
    | Not(arg: Expr)
    | Equals(l: Expr, r: Expr)
    | Le(l: Expr, r: Expr)
    | Lt(l: Expr, r: Expr)
    | Plus(args: seq<Expr>)
    | Minus(l: Expr, r: Expr)
    | Times(args: seq<Expr>)
    | Div(l: Expr, r: Expr)
    | Call(func: nat, args: seq<Expr>)

  // The values of the fluents, by fluent id.
  type Assignment = seq<Value>

  // The interpreted functions: deterministic, possibly failing.
  type Functions = (nat, seq<Value>) -> Option<Value>

  const TRUE := BoolV(true)

  function AndOf(vals: seq<Value>): Value {
    BoolV(forall v | v in vals :: v == BoolV(true))
  }

  function OrOf(vals: seq<Value>): Value {
    BoolV(exists v | v in vals :: v == BoolV(true))
  }

  function SumOf(vals: seq<Value>): Option<Value> {
    if vals == [] then None
    else if !vals[|vals| - 1].NumV? then None
    else if |vals| == 1 then Some(vals[0])
    else match SumOf(vals[..|vals| - 1])
      case Some(NumV(n)) => Some(NumV(n + vals[|vals| - 1].n))
      case _ => None
  }

  function Mul(x: real, y: real): real {
    x * y
  }

  function ProductOf(vals: seq<Value>): Option<Value> {
    if vals == [] then None
    else if !vals[|vals| - 1].NumV? then None
    else if |vals| == 1 then Some(vals[0])
    else match ProductOf(vals[..|vals| - 1])
      case Some(NumV(n)) => Some(NumV(Mul(n, vals[|vals| - 1].n)))
      case _ => None
  }

  function CompareOf(strict: bool, l: Value, r: Value): Option<Value> {
    if l.NumV? && r.NumV? then Some(BoolV(if strict then l.n < r.n else l.n <= r.n)) else None
  }

  function MinusOf(l: Value, r: Value): Option<Value> {
    if l.NumV? && r.NumV? then Some(NumV(l.n - r.n)) else None
  }

  function DivOf(l: Value, r: Value): Option<Value> {
    if l.NumV? && r.NumV? && r.n != 0.0 then Some(NumV(l.n / r.n)) else None
  }

  /** The value of `e`, or None when evaluating it raises.  Every operand is
      evaluated, whatever the others are. */
  function Eval(e: Expr, s: Assignment, fs: Functions): Option<Value> {
    match e
    case Const(v) => Some(v)
    case Fluent(f) => if f < |s| then Some(s[f]) else None
    case And(es) => var vals := EvalAll(es, s, fs); if vals.None? then None else Some(AndOf(vals.value))
    case Or(es) => var vals := EvalAll(es, s, fs); if vals.None? then None else Some(OrOf(vals.value))
    case Not(a) => var v := Eval(a, s, fs); if v.None? then None else Some(BoolV(v.value == BoolV(false)))
    case Equals(l, r) =>
      var (a, b) := (Eval(l, s, fs), Eval(r, s, fs));
      if a.None? || b.None? then None else Some(BoolV(a.value == b.value))
    case Le(l, r) =>
      var (a, b) := (Eval(l, s, fs), Eval(r, s, fs));
      if a.None? || b.None? then None else CompareOf(false, a.value, b.value)
    case Lt(l, r) =>
      var (a, b) := (Eval(l, s, fs), Eval(r, s, fs));
      if a.None? || b.None? then None else CompareOf(true, a.value, b.value)
    case Plus(es) => var vals := EvalAll(es, s, fs); if vals.None? then None else SumOf(vals.value)
    case Minus(l, r) =>
      var (a, b) := (Eval(l, s, fs), Eval(r, s, fs));
      if a.None? || b.None? then None else MinusOf(a.value, b.value)
    case Times(es) => var vals := EvalAll(es, s, fs); if vals.None? then None else ProductOf(vals.value)
    case Div(l, r) =>
      var (a, b) := (Eval(l, s, fs), Eval(r, s, fs));
      if a.None? || b.None? then None else DivOf(a.value, b.value)
    case Call(f, es) => var vals := EvalAll(es, s, fs); if vals.None? then None else fs(f, vals.value)
  }

  function EvalAll(es: seq<Expr>, s: Assignment, fs: Functions): (vals: Option<seq<Value>>)
    ensures vals.Some? ==> |vals.value| == |es|
  {
    if es == [] then Some([]) else
      var (v, rest) := (Eval(es[0], s, fs), EvalAll(es[1..], s, fs));
      if v.None? || rest.None? then None else Some([v.value] + rest.value)
  }

  /** The fluents `e` reads (`get_fluents`). */
  function Fluents(e: Expr): set<nat> {
    match e
    case Const(_) => {}
    case Fluent(f) => {f}
    case Not(a) => Fluents(a)
    case And(es) => AllFluents(es)
    case Or(es) => AllFluents(es)
    case Plus(es) => AllFluents(es)
    case Times(es) => AllFluents(es)
    case Call(_, es) => AllFluents(es)
    case Equals(l, r) => Fluents(l) + Fluents(r)
    case Le(l, r) => Fluents(l) + Fluents(r)
    case Lt(l, r) => Fluents(l) + Fluents(r)
    case Minus(l, r) => Fluents(l) + Fluents(r)
    case Div(l, r) => Fluents(l) + Fluents(r)
  }

  function AllFluents(es: seq<Expr>): set<nat> {
    if es == [] then {} else Fluents(es[0]) + AllFluents(es[1..])
  }

  // `e` reads fluents below `n` only.
  ghost predicate Within(n: nat, e: Expr) {
    forall f | f in Fluents(e) :: f < n
  }

  /** The two assignments give the fluents `fls` the same values. */
  ghost predicate Agree(s: Assignment, t: Assignment, fls: set<nat>) {
    forall f | f in fls :: (f < |s| <==> f < |t|) && (f < |s| ==> s[f] == t[f])
  }

  /** An expression depends on nothing but the fluents it mentions. */
  lemma {:induction false} EvalReadsFluents(e: Expr, s: Assignment, t: Assignment, fs: Functions)
    requires Agree(s, t, Fluents(e))
    ensures Eval(e, s, fs) == Eval(e, t, fs)
  {
    match e
    case Const(_) =>
    case Fluent(f) =>
    case Not(a) => EvalReadsFluents(a, s, t, fs);
    case And(es) => EvalAllReadsFluents(es, s, t, fs);
    case Or(es) => EvalAllReadsFluents(es, s, t, fs);
    case Plus(es) => EvalAllReadsFluents(es, s, t, fs);
    case Times(es) => EvalAllReadsFluents(es, s, t, fs);
    case Call(_, es) => EvalAllReadsFluents(es, s, t, fs);
    case Equals(l, r) => EvalReadsFluents(l, s, t, fs); EvalReadsFluents(r, s, t, fs);
    case Le(l, r) => EvalReadsFluents(l, s, t, fs); EvalReadsFluents(r, s, t, fs);
    case Lt(l, r) => EvalReadsFluents(l, s, t, fs); EvalReadsFluents(r, s, t, fs);
    case Minus(l, r) => EvalReadsFluents(l, s, t, fs); EvalReadsFluents(r, s, t, fs);
    case Div(l, r) => EvalReadsFluents(l, s, t, fs); EvalReadsFluents(r, s, t, fs);
  }

  lemma {:induction false} EvalAllReadsFluents(es: seq<Expr>, s: Assignment, t: Assignment, fs: Functions)
    requires Agree(s, t, AllFluents(es))
    ensures EvalAll(es, s, fs) == EvalAll(es, t, fs)
  {
    if es != [] {
      EvalReadsFluents(es[0], s, t, fs);
      EvalAllReadsFluents(es[1..], s, t, fs);
    }
  }

  lemma {:induction false} MemberReads(es: seq<Expr>, e: Expr)
    requires e in es
    ensures Fluents(e) <= AllFluents(es)
  {
    if e != es[0] {
      assert e in es[1..];
      MemberReads(es[1..], e);
    }
  }
}
