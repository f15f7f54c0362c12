/**
 The two passes of `simplify` as they run on arrays: the fold that overwrites
 constants in place, and the depth-first rebuilding.
*/
module SimplifyArrays {
  import opened Options
  import opened Expr
  import opened Postfix
  import opened Simplify

  // ---- what a node of the array stands for ----

  /** Node `i` stands for `u`, using no node below `lo`. */
  ghost predicate Stands(res: seq<Node>, lo: nat, i: nat, u: Term)
    decreases u
  {
    && lo <= i < |res| && res[i].op == u.op && |res[i].args| == |u.args|
    && forall q | 0 <= q < |u.args| :: res[i].args[q] < i && Stands(res, lo, res[i].args[q], u.args[q])
  }

  /** Consecutive stretches of the array, from `lo` on, stand for `us`: each ends at
      its root, named by `args`. */
  ghost predicate Kids(res: seq<Node>, lo: nat, args: seq<nat>, us: seq<Term>)
    decreases |args|
  {
    && |args| == |us|
    && (args != [] ==>
          && lo <= args[0] < |res| && Stands(res, lo, args[0], us[0])
          && Kids(res, args[0] + 1, args[1..], us[1..]))
  }

  lemma {:induction false} StandsFrame(res: seq<Node>, res': seq<Node>, lo: nat, i: nat, u: Term)
    requires Stands(res, lo, i, u) && i < |res'| && forall j | lo <= j <= i :: res'[j] == res[j]
    ensures Stands(res', lo, i, u)
    decreases u
  {
    forall q | 0 <= q < |u.args| ensures Stands(res', lo, res[i].args[q], u.args[q]) {
      StandsFrame(res, res', lo, res[i].args[q], u.args[q]);
    }
  }

  lemma {:induction false} StandsLower(res: seq<Node>, lo: nat, lo': nat, i: nat, u: Term)
    requires Stands(res, lo, i, u) && lo' <= lo
    ensures Stands(res, lo', i, u)
    decreases u
  {
    forall q | 0 <= q < |u.args| ensures Stands(res, lo', res[i].args[q], u.args[q]) {
      StandsLower(res, lo, lo', res[i].args[q], u.args[q]);
    }
  }

  lemma {:induction false} KidsFrame(res: seq<Node>, res': seq<Node>, lo: nat, args: seq<nat>, us: seq<Term>)
    requires Kids(res, lo, args, us) && |res| <= |res'| && forall j | lo <= j < |res| :: res'[j] == res[j]
    ensures Kids(res', lo, args, us)
    decreases |args|
  {
    if args != [] {
      StandsFrame(res, res', lo, args[0], us[0]);
      KidsFrame(res, res', args[0] + 1, args[1..], us[1..]);
    }
  }

  /** Each operand stands for its term, and they are in increasing order. */
  lemma {:induction false} KidAt(res: seq<Node>, lo: nat, args: seq<nat>, us: seq<Term>, q: nat)
    requires Kids(res, lo, args, us) && q < |args|
    ensures lo <= args[q] < |res| && Stands(res, lo, args[q], us[q])
    ensures forall r | q < r < |args| :: args[q] < args[r] && Stands(res, args[q] + 1, args[r], us[r])
    decreases |args|
  {
    if q == 0 {
      forall r | 0 < r < |args| ensures args[0] < args[r] && Stands(res, args[0] + 1, args[r], us[r]) {
        KidAt(res, args[0] + 1, args[1..], us[1..], r - 1);
      }
    } else {
      KidAt(res, args[0] + 1, args[1..], us[1..], q - 1);
      StandsLower(res, args[0] + 1, lo, args[q], us[q]);
      forall r | q < r < |args| ensures args[q] < args[r] && Stands(res, args[q] + 1, args[r], us[r]) {
        assert args[1..][q - 1] == args[q] && args[1..][r - 1] == args[r] && us[1..][r - 1] == us[r];
      }
    }
  }

  // ---- folding one node ----

  function LitNode(v: Value): Node {
    Node(Literal(v), [])
  }

  predicate IsBoolNode(n: Node) {
    n.op.Literal? && n.op.value.BoolV?
  }

  predicate IsNumNode(n: Node) {
    n.op.Literal? && n.op.value.NumV?
  }

  predicate InRange(args: seq<nat>, res: seq<Node>) {
    forall q | 0 <= q < |args| :: args[q] < |res|
  }

  /** The first `i` operands that are not constant booleans. */
  function OpenArgs(args: seq<nat>, res: seq<Node>, i: nat): seq<nat>
    requires InRange(args, res) && i <= |args|
  {
    if i == 0 then [] else OpenArgs(args, res, i - 1) + if IsBoolNode(res[args[i - 1]]) then [] else [args[i - 1]]
  }

  predicate HasBool(args: seq<nat>, res: seq<Node>, b: bool)
    requires InRange(args, res)
  {
    exists q :: 0 <= q < |args| && res[args[q]].op == Literal(BoolV(b))
  }

  function FoldConnectiveNode(op: Op, unit: bool, args: seq<nat>, res: seq<Node>): Node
    requires InRange(args, res)
  {
    var left := OpenArgs(args, res, |args|);
    if HasBool(args, res, !unit) then LitNode(BoolV(!unit))
    else if left == [] then LitNode(BoolV(unit))
    else if |left| == 1 then (OpenInRange(args, res, |args|); res[left[0]])
    else Node(op, left)
  }

  lemma {:induction false} OpenInRange(args: seq<nat>, res: seq<Node>, i: nat)
    requires InRange(args, res) && i <= |args|
    ensures InRange(OpenArgs(args, res, i), res)
  {
    if i > 0 {
      OpenInRange(args, res, i - 1);
    }
  }

  /** The loops of `And` and `Or`. */
  method FoldConnectiveArgs(op: Op, unit: bool, args: seq<nat>, res: seq<Node>) returns (value: Node)
    requires InRange(args, res)
    ensures value == FoldConnectiveNode(op, unit, args, res)
  {
    var left: seq<nat> := [];
    for i := 0 to |args|
      invariant left == OpenArgs(args, res, i)
      invariant forall q | 0 <= q < i :: res[args[q]].op != Literal(BoolV(!unit))
    {
      var n := res[args[i]];
      if IsBoolNode(n) {
        if n.op.value.b != unit {
          assert n.op == Literal(BoolV(!unit));
          return LitNode(BoolV(!unit));
        }
      } else {
        left := left + [args[i]];
      }
    }
    OpenInRange(args, res, |args|);
    if |left| == 0 {
      value := LitNode(BoolV(unit));
    } else if |left| == 1 {
      value := res[left[0]];
    } else {
      value := Node(op, left);
    }
  }

  /** The accumulator of `Plus` and `Times` after `i` operands, the first constant
      seen, and the operands kept. */
  function AccOf(op: Op, args: seq<nat>, res: seq<Node>, i: nat): Option<real>
    requires InRange(args, res) && i <= |args|
  {
    if i == 0 then None else
      var (prev, n) := (AccOf(op, args, res, i - 1), res[args[i - 1]]);
      if !IsNumNode(n) then prev
      else if prev.None? then Some(n.op.value.n) else Some(Combine(op, prev.value, n.op.value.n))
  }

  function FirstOf(args: seq<nat>, res: seq<Node>, i: nat): Option<nat>
    requires InRange(args, res) && i <= |args|
  {
    if i == 0 then None else
      var prev := FirstOf(args, res, i - 1);
      if prev.None? && IsNumNode(res[args[i - 1]]) then Some(args[i - 1]) else prev
  }

  function KeptOf(args: seq<nat>, res: seq<Node>, i: nat): seq<nat>
    requires InRange(args, res) && i <= |args|
  {
    if i == 0 then [] else
      KeptOf(args, res, i - 1)
      + if IsNumNode(res[args[i - 1]]) && FirstOf(args, res, i - 1).Some? then [] else [args[i - 1]]
  }

  lemma {:induction false} FirstIsAcc(op: Op, args: seq<nat>, res: seq<Node>, i: nat)
    requires InRange(args, res) && i <= |args|
    ensures FirstOf(args, res, i).Some? <==> AccOf(op, args, res, i).Some?
    ensures FirstOf(args, res, i).Some? ==>
              FirstOf(args, res, i).value < |res| && IsNumNode(res[FirstOf(args, res, i).value])
  {
    if i > 0 {
      FirstIsAcc(op, args, res, i - 1);
    }
  }

  /** The node pushed for a sum or product, and the array with the total put in the
      place of the first constant. */
  function FoldNumericNode(op: Op, args: seq<nat>, res: seq<Node>): (seq<Node>, Node)
    requires InRange(args, res)
  {
    var (acc, first, kept) := (AccOf(op, args, res, |args|), FirstOf(args, res, |args|), KeptOf(args, res, |args|));
    if acc.None? then (res, Node(op, args))
    else if |kept| == 1 then (res, LitNode(NumV(acc.value)))
    else FirstIsAcc(op, args, res, |args|); (res[first.value := LitNode(NumV(acc.value))], Node(op, kept))
  }

  method FoldNumericArgs(op: Op, args: seq<nat>, res: seq<Node>) returns (res': seq<Node>, value: Node)
    requires InRange(args, res)
    ensures (res', value) == FoldNumericNode(op, args, res)
  {
    var acc: Option<real>, first: Option<nat>, kept: seq<nat> := None, None, [];
    for i := 0 to |args|
      invariant acc == AccOf(op, args, res, i) && first == FirstOf(args, res, i) && kept == KeptOf(args, res, i)
    {
      var n := res[args[i]];
      FirstIsAcc(op, args, res, i);
      if IsNumNode(n) {
        acc := if acc.Some? then Some(Combine(op, acc.value, n.op.value.n)) else Some(n.op.value.n);
        if first.None? {
          first := Some(args[i]);
          kept := kept + [args[i]];
        }
      } else {
        kept := kept + [args[i]];
      }
    }
    FirstIsAcc(op, args, res, |args|);
    res' := res;
    if acc.Some? {
      if |kept| == 1 {
        value := LitNode(NumV(acc.value));
      } else {
        res' := res[first.value := LitNode(NumV(acc.value))];
        value := Node(op, kept);
      }
    } else {
      value := Node(op, args);
    }
  }

  // ---- what folding one node does to the terms ----

  // Operands, in any order, that stand for `ts`.
  ghost predicate Pairs(res: seq<Node>, lo: nat, args: seq<nat>, ts: seq<Term>) {
    |args| == |ts| && forall q | 0 <= q < |args| :: Stands(res, lo, args[q], ts[q])
  }

  lemma KidsInRange(res: seq<Node>, lo: nat, args: seq<nat>, us: seq<Term>)
    requires Kids(res, lo, args, us)
    ensures InRange(args, res) && Pairs(res, lo, args, us)
    ensures forall q | 0 <= q < |args| :: res[args[q]].op == us[q].op && |res[args[q]].args| == |us[q].args|
  {
    forall q | 0 <= q < |args|
      ensures args[q] < |res| && Stands(res, lo, args[q], us[q])
      ensures res[args[q]].op == us[q].op && |res[args[q]].args| == |us[q].args|
    {
      KidAt(res, lo, args, us, q);
    }
  }

  lemma {:induction false} OpenSnoc(ts: seq<Term>, t: Term)
    ensures Open(ts + [t]) == Open(ts) + if IsBoolLit(t) then [] else [t]
  {
    if ts == [] {
      assert [] + [t] == [t] && [t][1..] == [];
    } else {
      assert (ts + [t])[1..] == ts[1..] + [t] && (ts + [t])[0] == ts[0];
      OpenSnoc(ts[1..], t);
      hide IsBoolLit;
    }
  }

  lemma {:induction false} OpenPairs(res: seq<Node>, lo: nat, args: seq<nat>, us: seq<Term>, i: nat)
    requires InRange(args, res) && Pairs(res, lo, args, us) && i <= |args|
    ensures Pairs(res, lo, OpenArgs(args, res, i), Open(us[..i]))
  {
    if i > 0 {
      OpenPairs(res, lo, args, us, i - 1);
      assert us[..i] == us[..i - 1] + [us[i - 1]];
      OpenSnoc(us[..i - 1], us[i - 1]);
    }
  }

  /** Appending a node over operands that stand for `ts`. */
  lemma NodeStands(res: seq<Node>, lo: nat, op: Op, args: seq<nat>, ts: seq<Term>)
    requires lo <= |res| && Pairs(res, lo, args, ts)
    ensures Stands(res + [Node(op, args)], lo, |res|, Term(op, ts))
  {
    var res' := res + [Node(op, args)];
    forall q | 0 <= q < |args| ensures args[q] < |res| && Stands(res', lo, args[q], ts[q]) {
      StandsFrame(res, res', lo, args[q], ts[q]);
    }
  }

  /** ... or a copy of a node. */
  lemma CopyStands(res: seq<Node>, lo: nat, i: nat, u: Term)
    requires Stands(res, lo, i, u)
    ensures Stands(res + [res[i]], lo, |res|, u)
  {
    var res' := res + [res[i]];
    forall q | 0 <= q < |u.args| ensures Stands(res', lo, res[i].args[q], u.args[q]) {
      StandsFrame(res, res', lo, res[i].args[q], u.args[q]);
    }
  }

  lemma ConnectiveStands(op: Op, unit: bool, res: seq<Node>, lo: nat, args: seq<nat>, us: seq<Term>)
    requires lo <= |res| && Kids(res, lo, args, us)
    ensures InRange(args, res)
    ensures Stands(res + [FoldConnectiveNode(op, unit, args, res)], lo, |res|, FoldConnective(op, unit, us))
  {
    KidsInRange(res, lo, args, us);
    assert HasBool(args, res, !unit) <==> HasLit(us, !unit) by {
      if HasBool(args, res, !unit) {
        var q :| 0 <= q < |args| && res[args[q]].op == Literal(BoolV(!unit));
        assert us[q] in us;
      }
      if HasLit(us, !unit) {
        var t :| t in us && t.op == Literal(BoolV(!unit));
        var q :| 0 <= q < |us| && us[q] == t;
        assert res[args[q]].op == Literal(BoolV(!unit));
      }
    }
    OpenPairs(res, lo, args, us, |args|);
    assert us[..|args|] == us;
    hide HasBool, HasLit, Kids;
    var left := OpenArgs(args, res, |args|);
    NodeStands(res, lo, op, left, Open(us));
    if |left| == 1 {
      CopyStands(res, lo, left[0], Open(us)[0]);
    }
  }

  // ---- sums and products ----

  lemma {:induction false} TotalSnoc(op: Op, ts: seq<Term>, t: Term)
    ensures Total(op, ts + [t]) == if IsNumLit(t) then Combine(op, Total(op, ts), t.op.value.n) else Total(op, ts)
    ensures !HasNumber(ts) ==> Total(op, ts) == Unit(op)
  {
    hide Combine, Unit;
    if ts == [] {
      assert [] + [t] == [t] && [t][1..] == [];
      if IsNumLit(t) {
        CombineLaws(op, t.op.value.n, Unit(op), Unit(op));
      }
    } else {
      assert (ts + [t])[1..] == ts[1..] + [t];
      TotalSnoc(op, ts[1..], t);
      if IsNumLit(ts[0]) {
        assert ts[0] in ts;
        if IsNumLit(t) {
          CombineLaws(op, ts[0].op.value.n, Total(op, ts[1..]), t.op.value.n);
        }
      } else {
        HasNumberTail(ts);
      }
    }
  }

  lemma HasNumberSnoc(ts: seq<Term>, t: Term)
    ensures HasNumber(ts + [t]) <==> HasNumber(ts) || IsNumLit(t)
  {
    assert t in ts + [t];
    if HasNumber(ts) {
      var u :| u in ts && IsNumLit(u);
      assert u in ts + [t];
    }
  }

  lemma {:induction false} MergeSnoc(ts: seq<Term>, t: Term, total: Term, placed: bool)
    ensures Merge(ts + [t], total, placed)
         == Merge(ts, total, placed)
            + if !IsNumLit(t) then [t] else if placed || HasNumber(ts) then [] else [total]
  {
    if ts == [] {
      assert [] + [t] == [t] && [t][1..] == [];
    } else {
      assert (ts + [t])[1..] == ts[1..] + [t];
      if IsNumLit(ts[0]) {
        assert ts[0] in ts;
        MergeSnoc(ts[1..], t, total, true);
      } else {
        HasNumberTail(ts);
        MergeSnoc(ts[1..], t, total, placed);
      }
    }
  }

  /** The accumulator holds the total of the constants seen. */
  lemma {:induction false} AccIsTotal(op: Op, res: seq<Node>, args: seq<nat>, us: seq<Term>, i: nat)
    requires InRange(args, res) && |us| == |args| && forall q | 0 <= q < |args| :: res[args[q]].op == us[q].op
    requires i <= |args|
    ensures AccOf(op, args, res, i) == if HasNumber(us[..i]) then Some(Total(op, us[..i])) else None
  {
    if i > 0 {
      AccIsTotal(op, res, args, us, i - 1);
      var (ts, t) := (us[..i - 1], us[i - 1]);
      assert us[..i] == ts + [t];
      TotalSnoc(op, ts, t);
      HasNumberSnoc(ts, t);
      if IsNumLit(t) {
        CombineLaws(op, t.op.value.n, t.op.value.n, t.op.value.n);
      }
    }
  }

  // The first constant is operand `f`.
  ghost predicate FirstAt(us: seq<Term>, f: nat) {
    f < |us| && IsNumLit(us[f]) && forall q | 0 <= q < f :: !IsNumLit(us[q])
  }

  lemma {:induction false} FirstIsAt(res: seq<Node>, args: seq<nat>, us: seq<Term>, i: nat, f: nat)
    requires InRange(args, res) && |us| == |args| && forall q | 0 <= q < |args| :: res[args[q]].op == us[q].op
    requires i <= |args| && FirstAt(us, f)
    ensures FirstOf(args, res, i) == if f < i then Some(args[f]) else None
  {
    if i > 0 {
      FirstIsAt(res, args, us, i - 1, f);
    }
  }

  lemma {:induction false} FindFirst(us: seq<Term>) returns (f: nat)
    requires HasNumber(us)
    ensures FirstAt(us, f)
    decreases |us|
  {
    if IsNumLit(us[0]) {
      f := 0;
    } else {
      HasNumberTail(us);
      var g := FindFirst(us[1..]);
      f := g + 1;
    }
  }

  /** The operands kept stand for the merged ones, once the total is in place. */
  lemma {:induction false} KeptPairs(
    res: seq<Node>, res': seq<Node>, lo: nat, args: seq<nat>, us: seq<Term>, total: Term, f: nat, i: nat)
    requires InRange(args, res) && |us| == |args| && forall q | 0 <= q < |args| :: res[args[q]].op == us[q].op
    requires i <= |args| && FirstAt(us, f)
    requires forall q | 0 <= q < |args| && q != f :: Stands(res', lo, args[q], us[q])
    requires Stands(res', lo, args[f], total)
    ensures Pairs(res', lo, KeptOf(args, res, i), Merge(us[..i], total, false))
  {
    if i > 0 {
      var (ts, t) := (us[..i - 1], us[i - 1]);
      assert us[..i] == ts + [t];
      MergeSnoc(ts, t, total, false);
      FirstIsAt(res, args, us, i - 1, f);
      NumberBefore(us, f, i - 1);
      KeptPairs(res, res', lo, args, us, total, f, i - 1);
      var (kept, merged) := (KeptOf(args, res, i - 1), Merge(ts, total, false));
      assert KeptOf(args, res, i) == kept + if IsNumLit(t) && f < i - 1 then [] else [args[i - 1]];
      assert IsNumLit(t) && !(f < i - 1) ==> f == i - 1;
      hide *;
      PairsSnoc(res', lo, kept, merged, args[i - 1], if f == i - 1 then total else t);
      assert kept + [] == kept && merged + [] == merged;
    } else {
      assert us[..0] == [];
    }
  }

  lemma PairsSnoc(res: seq<Node>, lo: nat, args: seq<nat>, ts: seq<Term>, a: nat, t: Term)
    ensures Pairs(res, lo, args, ts) && Stands(res, lo, a, t) ==> Pairs(res, lo, args + [a], ts + [t])
  {
    hide Stands;
  }

  lemma NumberBefore(us: seq<Term>, f: nat, i: nat)
    requires FirstAt(us, f) && i <= |us|
    ensures HasNumber(us[..i]) <==> f < i
  {
    if f < i {
      assert us[..i][f] in us[..i];
    }
    if HasNumber(us[..i]) {
      var u :| u in us[..i] && IsNumLit(u);
      var q :| 0 <= q < i && us[..i][q] == u;
    }
  }

  lemma NumericStands(op: Op, res: seq<Node>, lo: nat, args: seq<nat>, us: seq<Term>)
    requires lo <= |res| && Kids(res, lo, args, us)
    ensures InRange(args, res)
    ensures var (res', v) := FoldNumericNode(op, args, res);
      && |res'| == |res| && (forall j | 0 <= j < lo :: res'[j] == res[j])
      && Stands(res' + [v], lo, |res|, FoldNumeric(op, us))
  {
    KidsInRange(res, lo, args, us);
    var n := |args|;
    AccIsTotal(op, res, args, us, n);
    assert us[..n] == us;
    if HasNumber(us) {
      var f := FindFirst(us);
      FirstIsAt(res, args, us, n, f);
      var total := Lit(NumV(Total(op, us)));
      var res' := res[args[f] := LitNode(NumV(Total(op, us)))];
      OverwriteStands(res, res', lo, args, us, total, f);
      KeptPairs(res, res', lo, args, us, total, f, n);
      var kept := KeptOf(args, res, n);
      hide FirstOf, AccOf, KeptOf, Kids;
      NodeStands(res', lo, op, kept, Merge(us, total, false));
      LitStands(res, lo, NumV(Total(op, us)));
    } else {
      NodeStands(res, lo, op, args, us);
    }
  }

  lemma LitStands(res: seq<Node>, lo: nat, v: Value)
    requires lo <= |res|
    ensures Stands(res + [LitNode(v)], lo, |res|, Lit(v))
  {
  }

  /** Overwriting the first constant changes what no other operand stands for. */
  lemma OverwriteStands(
    res: seq<Node>, res': seq<Node>, lo: nat, args: seq<nat>, us: seq<Term>, total: Term, f: nat)
    requires Kids(res, lo, args, us) && FirstAt(us, f) && total.op.Literal? && total.args == []
    requires f < |args| && args[f] < |res| && res' == res[args[f] := LitNode(total.op.value)]
    ensures forall q | 0 <= q < |args| && q != f :: Stands(res', lo, args[q], us[q])
    ensures Stands(res', lo, args[f], total) && lo <= args[f]
  {
    KidAt(res, lo, args, us, f);
    assert Stands(res', lo, args[f], total);
    hide *;
    forall q | 0 <= q < |args| && q != f ensures Stands(res', lo, args[q], us[q]) {
      OtherStands(res, res', lo, args, us, f, q);
    }
  }

  lemma OtherStands(
    res: seq<Node>, res': seq<Node>, lo: nat, args: seq<nat>, us: seq<Term>, f: nat, q: nat)
    requires Kids(res, lo, args, us) && f < |args| && q < |args| && q != f && args[f] < |res| && |us| == |args|
    requires |res'| == |res| && forall j | 0 <= j < |res| && j != args[f] :: res'[j] == res[j]
    ensures Stands(res', lo, args[q], us[q])
  {
    var (i, j, u) := (args[q], args[f], us[q]);
    KidAt(res, lo, args, us, if q < f then q else f);
    hide *;
    if q < f {
      StandsFrame(res, res', lo, i, u);
    } else {
      StandsFrame(res, res', j + 1, i, u);
      StandsLower(res', j + 1, lo, i, u);
    }
  }

  // ---- one node ----

  predicate AllLiterals(args: seq<nat>, res: seq<Node>)
    requires InRange(args, res)
  {
    forall q | 0 <= q < |args| :: res[args[q]].op.Literal?
  }

  function LiteralsOf(args: seq<nat>, res: seq<Node>): seq<Value>
    requires InRange(args, res) && AllLiterals(args, res)
  {
    seq(|args|, q requires 0 <= q < |args| => res[args[q]].op.value)
  }

  predicate BothNumbers(args: seq<nat>, res: seq<Node>)
    requires InRange(args, res)
  {
    |args| == 2 && IsNumNode(res[args[0]]) && IsNumNode(res[args[1]])
  }

  /** What the first pass pushes for a node, and the array it leaves below. */
  function StepNode(node: Node, res: seq<Node>, k: Known): Option<(seq<Node>, Node)> {
    var (op, args) := (node.op, node.args);
    if !InRange(args, res) then None else
      match op
      case AndOp => Some((res, FoldConnectiveNode(op, true, args, res)))
      case OrOp => Some((res, FoldConnectiveNode(op, false, args, res)))
      case PlusOp => Some(FoldNumericNode(op, args, res))
      case TimesOp => Some(FoldNumericNode(op, args, res))
      case NotOp =>
        if |args| == 1 && IsBoolNode(res[args[0]]) then Some((res, LitNode(BoolV(!res[args[0]].op.value.b))))
        else Some((res, node))
      case EqualsOp =>
        if |args| == 2 && res[args[0]] == res[args[1]] then Some((res, LitNode(BoolV(true))))
        else if BothNumbers(args, res) then
          Some((res, LitNode(BoolV(res[args[0]].op.value.n == res[args[1]].op.value.n))))
        else Some((res, node))
      case Literal(_) => Some((res, node))
      case Read(f) => Some((res, if f in k.values then LitNode(k.values[f]) else node))
      case CallOp(func) =>
        if k.calls && AllLiterals(args, res) then
          var v := k.functions(func, LiteralsOf(args, res));
          if v.None? then None else Some((res, LitNode(v.value)))
        else Some((res, node))
      case _ =>
        if BothNumbers(args, res) then
          var v := BinaryOf(op, res[args[0]].op.value, res[args[1]].op.value);
          if v.None? then None else Some((res, LitNode(v.value)))
        else Some((res, node))
  }

  // The step of a node over operands that stand for `us` is the fold of `us`.
  ghost predicate StepsTo(step: Option<(seq<Node>, Node)>, folded: Option<Term>, res: seq<Node>, lo: nat) {
    && (step.None? <==> folded.None?)
    && (step.Some? ==>
          var (res', v) := step.value;
          && |res'| == |res| && (forall j | 0 <= j < lo && j < |res| :: res'[j] == res[j])
          && Stands(res' + [v], lo, |res|, folded.value))
  }

  lemma {:induction false} LiteralsAre(args: seq<nat>, res: seq<Node>, us: seq<Term>)
    requires InRange(args, res) && AllLiterals(args, res) && |us| == |args|
    requires forall q | 0 <= q < |args| :: res[args[q]].op == us[q].op
    ensures (forall t | t in us :: t.op.Literal?) && LitValues(us) == LiteralsOf(args, res)
    decreases |args|
  {
    if us != [] {
      LiteralsAre(args[1..], res, us[1..]);
      assert us == [us[0]] + us[1..];
      assert LiteralsOf(args, res) == [res[args[0]].op.value] + LiteralsOf(args[1..], res);
    }
  }

  lemma CallStepsTo(func: nat, args: seq<nat>, res: seq<Node>, lo: nat, us: seq<Term>, k: Known)
    requires lo <= |res| && Kids(res, lo, args, us)
    ensures StepsTo(StepNode(Node(CallOp(func), args), res, k), Fold(CallOp(func), us, k), res, lo)
  {
    KidsInRange(res, lo, args, us);
    NodeStands(res, lo, CallOp(func), args, us);
    if AllLiterals(args, res) {
      LiteralsAre(args, res, us);
      var v := k.functions(func, LiteralsOf(args, res));
      if v.Some? {
        LitStands(res, lo, v.value);
      }
    } else {
      var q :| 0 <= q < |args| && !res[args[q]].op.Literal?;
      assert us[q] in us;
    }
  }

  /** Different subtrees are the same node only if they have no operands. */
  lemma SameNode(res: seq<Node>, lo: nat, args: seq<nat>, us: seq<Term>)
    requires Kids(res, lo, args, us) && |args| == 2
    ensures InRange(args, res)
    ensures res[args[0]] == res[args[1]] <==> us[0] == us[1] && us[0].args == []
  {
    KidsInRange(res, lo, args, us);
    KidAt(res, lo, args, us, 0);
    if us[0].args != [] {
      FirstArgWithin(res, lo, args[0], us[0]);
    }
    if us[1].args != [] {
      FirstArgWithin(res, args[0] + 1, args[1], us[1]);
    }
  }

  lemma FirstArgWithin(res: seq<Node>, lo: nat, i: nat, u: Term)
    requires Stands(res, lo, i, u) && u.args != []
    ensures |res[i].args| > 0 && lo <= res[i].args[0] < i
  {
    assert Stands(res, lo, res[i].args[0], u.args[0]);
  }

  lemma BinaryStepsTo(op: Op, args: seq<nat>, res: seq<Node>, lo: nat, us: seq<Term>, k: Known)
    requires IsBinary(op) && lo <= |res| && Kids(res, lo, args, us)
    ensures StepsTo(StepNode(Node(op, args), res, k), Fold(op, us, k), res, lo)
  {
    KidsInRange(res, lo, args, us);
    NodeStands(res, lo, op, args, us);
    if |args| == 2 {
      if op == EqualsOp {
        SameNode(res, lo, args, us);
        LitStands(res, lo, BoolV(true));
      }
      if BothNumbers(args, res) {
        LitStands(res, lo, BoolV(res[args[0]].op.value.n == res[args[1]].op.value.n));
        var v := BinaryOf(op, res[args[0]].op.value, res[args[1]].op.value);
        if v.Some? {
          LitStands(res, lo, v.value);
        }
      }
    }
    hide Stands, Kids, Pairs;
  }

  lemma StepFolds(op: Op, args: seq<nat>, res: seq<Node>, lo: nat, us: seq<Term>, k: Known)
    requires lo <= |res| && Kids(res, lo, args, us)
    ensures StepsTo(StepNode(Node(op, args), res, k), Fold(op, us, k), res, lo)
  {
    KidsInRange(res, lo, args, us);
    match op
    case AndOp => ConnectiveStands(op, true, res, lo, args, us);
    case OrOp => ConnectiveStands(op, false, res, lo, args, us);
    case PlusOp => NumericStands(op, res, lo, args, us);
    case TimesOp => NumericStands(op, res, lo, args, us);
    case CallOp(func) => CallStepsTo(func, args, res, lo, us, k);
    case NotOp =>
      NodeStands(res, lo, op, args, us);
      if |args| == 1 && IsBoolNode(res[args[0]]) {
        LitStands(res, lo, BoolV(!res[args[0]].op.value.b));
      }
    case Literal(_) => NodeStands(res, lo, op, args, us);
    case Read(f) =>
      NodeStands(res, lo, op, args, us);
      if f in k.values {
        LitStands(res, lo, k.values[f]);
      }
    case _ => BinaryStepsTo(op, args, res, lo, us, k);
  }

  // ---- the first pass ----

  /** The array after the first pass over `nodes`, started from `res`. */
  function Pass(nodes: seq<Node>, res: seq<Node>, k: Known): Option<seq<Node>> {
    if nodes == [] then Some(res) else
      match StepNode(nodes[0], res, k)
      case None => None
      case Some((res', v)) => Pass(nodes[1..], res' + [v], k)
  }

  lemma {:induction false} PassConcat(p: seq<Node>, q: seq<Node>, res: seq<Node>, k: Known)
    ensures Pass(p + q, res, k) == match Pass(p, res, k) case None => None case Some(mid) => Pass(q, mid, k)
    decreases |p|
  {
    hide StepNode;
    if p == [] {
      assert p + q == q;
    } else {
      assert (p + q)[1..] == p[1..] + q;
      var step := StepNode(p[0], res, k);
      if step.Some? {
        PassConcat(p[1..], q, step.value.0 + [step.value.1], k);
      }
    }
  }

  lemma PassOne(node: Node, res: seq<Node>, k: Known)
    ensures Pass([node], res, k)
         == match StepNode(node, res, k) case None => None case Some((res', v)) => Some(res' + [v])
  {
    hide StepNode;
    assert [node][1..] == [];
  }

  lemma SimplifyFirst(ts: seq<Term>, k: Known)
    ensures ts == [] ==> SimplifyTerms(ts, k) == Some([])
    ensures ts != [] ==>
              var (a, b) := (SimplifyTerm(ts[0], k), SimplifyTerms(ts[1..], k));
              SimplifyTerms(ts, k) == if a.None? || b.None? then None else Some([a.value] + b.value)
  {
  }

  /** The first pass over a tree's array leaves an array whose last node stands for
      the simplified tree, and does not touch what was there before. */
  lemma {:induction false} PassFlat(t: Term, res: seq<Node>, k: Known) returns (now: seq<Node>)
    ensures SimplifyTerm(t, k).None? ==> Pass(Flat(t, |res|), res, k).None?
    ensures SimplifyTerm(t, k).Some? ==>
              && Pass(Flat(t, |res|), res, k) == Some(now) && |now| == |res| + Size(t)
              && (forall j | 0 <= j < |res| :: now[j] == res[j])
              && Stands(now, |res|, |now| - 1, SimplifyTerm(t, k).value)
    decreases t, 1
  {
    var node := Node(t.op, Roots(t.args, |res|));
    now := PassFlatAll(t.args, res, k);
    PassConcat(FlatAll(t.args, |res|), [node], res, k);
    var us := SimplifyTerms(t.args, k);
    if us.Some? {
      PassOne(node, now, k);
      StepFolds(t.op, node.args, now, |res|, us.value, k);
      hide StepNode, Fold, Kids, Stands;
      var step := StepNode(node, now, k);
      if step.Some? {
        now := step.value.0 + [step.value.1];
      }
    }
  }

  lemma {:induction false} PassFlatAll(ts: seq<Term>, res: seq<Node>, k: Known) returns (now: seq<Node>)
    ensures SimplifyTerms(ts, k).None? ==> Pass(FlatAll(ts, |res|), res, k).None?
    ensures SimplifyTerms(ts, k).Some? ==>
              && Pass(FlatAll(ts, |res|), res, k) == Some(now) && |now| == |res| + SizeAll(ts)
              && (forall j | 0 <= j < |res| :: now[j] == res[j])
              && Kids(now, |res|, Roots(ts, |res|), SimplifyTerms(ts, k).value)
    decreases ts, 0
  {
    now := res;
    SimplifyFirst(ts, k);
    if ts != [] {
      FlatCons(ts, |res|);
      assert SizeAll(ts) == Size(ts[0]) + SizeAll(ts[1..]);
      hide *;
      var first := PassFlat(ts[0], res, k);
      PassFirst(ts, res, k, first);
      if SimplifyTerm(ts[0], k).Some? {
        now := PassFlatAll(ts[1..], first, k);
        if SimplifyTerms(ts[1..], k).Some? {
          KidsCons(first, now, |res|, ts, SimplifyTerm(ts[0], k).value, SimplifyTerms(ts[1..], k).value);
        }
      }
    } else {
      PassNothing(res, k);
    }
  }

  // The layout after the first of several trees, which ends at `mid`.
  lemma FlatSplit(ts: seq<Term>, base: nat, mid: nat)
    requires ts != [] && mid == base + Size(ts[0])
    ensures FlatAll(ts, base) == Flat(ts[0], base) + FlatAll(ts[1..], mid)
    ensures Roots(ts, base) == [mid - 1] + Roots(ts[1..], mid)
  {
  }

  // The pass over several trees goes on after the first.
  lemma PassFirst(ts: seq<Term>, res: seq<Node>, k: Known, first: seq<Node>)
    requires ts != []
    ensures Pass(Flat(ts[0], |res|), res, k).None? ==> Pass(FlatAll(ts, |res|), res, k).None?
    ensures Pass(Flat(ts[0], |res|), res, k) == Some(first) && |first| == |res| + Size(ts[0]) ==>
              Pass(FlatAll(ts, |res|), res, k) == Pass(FlatAll(ts[1..], |first|), first, k)
  {
    hide *;
    var mid := |res| + Size(ts[0]);
    FlatSplit(ts, |res|, mid);
    PassConcat(Flat(ts[0], |res|), FlatAll(ts[1..], mid), res, k);
    if |first| == mid {
      FlatSplit(ts, |res|, |first|);
      PassConcat(Flat(ts[0], |res|), FlatAll(ts[1..], |first|), res, k);
    }
  }

  lemma PassNothing(res: seq<Node>, k: Known)
    ensures Pass([], res, k) == Some(res) && Kids(res, |res|, [], []) && FlatAll([], |res|) == [] && SizeAll([]) == 0
  {
  }

  lemma KidsCons(first: seq<Node>, now: seq<Node>, lo: nat, ts: seq<Term>, u: Term, us: seq<Term>)
    requires ts != [] && |first| == lo + Size(ts[0]) && Stands(first, lo, |first| - 1, u)
    requires |first| <= |now| && forall j | 0 <= j < |first| :: now[j] == first[j]
    requires Kids(now, |first|, Roots(ts[1..], |first|), us)
    ensures Kids(now, lo, Roots(ts, lo), [u] + us)
  {
    StandsFrame(first, now, lo, |first| - 1, u);
    assert Roots(ts, lo) == [lo + Size(ts[0]) - 1] + Roots(ts[1..], lo + Size(ts[0]));
    hide Stands, Roots, Size;
    KidsFront(now, lo, |first| - 1, Roots(ts[1..], |first|), u, us);
  }

  lemma KidsFront(res: seq<Node>, lo: nat, i: nat, args: seq<nat>, u: Term, us: seq<Term>)
    requires Stands(res, lo, i, u) && Kids(res, i + 1, args, us)
    ensures Kids(res, lo, [i] + args, [u] + us)
  {
    assert ([i] + args)[1..] == args && ([u] + us)[1..] == us;
  }

  /** One node of the first pass. */
  method FoldNode(node: Node, res: seq<Node>, k: Known) returns (ok: bool, res': seq<Node>, value: Node)
    ensures ok <==> StepNode(node, res, k).Some?
    ensures ok ==> StepNode(node, res, k) == Some((res', value))
  {
    res', value := res, node;
    var (op, args) := (node.op, node.args);
    if !InRange(args, res) {
      return false, res', value;
    }
    if op == AndOp {
      value := FoldConnectiveArgs(op, true, args, res);
      ok := true;
    } else if op == OrOp {
      value := FoldConnectiveArgs(op, false, args, res);
      ok := true;
    } else if op == PlusOp || op == TimesOp {
      res', value := FoldNumericArgs(op, args, res);
      ok := true;
    } else {
      var step := StepNode(node, res, k);
      ok := step.Some?;
      if ok {
        res', value := step.value.0, step.value.1;
      }
    }
  }

  // ---- the second pass ----

  /** What the stack of the rebuilding holds: a tree to visit, or one whose operands
      are done. */
  datatype Item = Visit(t: Term) | Done(t: Term)

  predicate IsLeaf(op: Op) {
    op.Literal? || op.Read?
  }

  function Visits(ts: seq<Term>): seq<Item> {
    if ts == [] then [] else Visits(ts[1..]) + [Visit(ts[0])]
  }

  function Work(items: seq<Item>): nat {
    if items == [] then 0 else
      Work(items[..|items| - 1])
      + match items[|items| - 1] case Visit(t) => 2 * Size(t) case Done(_) => 1
  }

  lemma {:induction false} WorkVisits(items: seq<Item>, ts: seq<Term>)
    ensures Work(items + Visits(ts)) == Work(items) + 2 * SizeAll(ts)
    decreases ts
  {
    if ts == [] {
      assert items + [] == items;
    } else {
      WorkVisits(items, ts[1..]);
      var all := items + Visits(ts);
      assert all[..|all| - 1] == items + Visits(ts[1..]) && all[|all| - 1] == Visit(ts[0]);
    }
  }

  lemma WorkDone(items: seq<Item>, t: Term)
    ensures Work(items + [Done(t)]) == Work(items) + 1
  {
    assert (items + [Done(t)])[..|items|] == items;
  }

  /** The nodes the rebuilding will have emitted, and the positions on its operand
      stack, once its stack is empty. */
  function Finish(items: seq<Item>, out: seq<Node>, ops: seq<nat>): Option<(seq<Node>, seq<nat>)>
    decreases Work(items)
  {
    if items == [] then Some((out, ops)) else
      var (rest, top) := (items[..|items| - 1], items[|items| - 1]);
      match top
      case Visit(t) =>
        if IsLeaf(t.op) then Finish(rest, out + [Node(t.op, [])], ops + [|out|])
        else
          WorkVisits(rest + [Done(t)], t.args);
          WorkDone(rest, t);
          Finish(rest + [Done(t)] + Visits(t.args), out, ops)
      case Done(t) =>
        var n := |t.args|;
        if |ops| < n then None
        else Finish(rest, out + [Node(t.op, ops[|ops| - n..])], ops[..|ops| - n] + [|out|])
  }

  // Leaves have no operands.
  ghost predicate LeavesBare(t: Term) {
    (IsLeaf(t.op) ==> t.args == []) && AllBare(t.args)
  }

  ghost predicate AllBare(ts: seq<Term>) {
    ts == [] || (LeavesBare(ts[0]) && AllBare(ts[1..]))
  }

  // One step of the machine, by what is on top.
  lemma StepLeaf(items: seq<Item>, t: Term, out: seq<Node>, ops: seq<nat>, out': seq<Node>, ops': seq<nat>)
    requires items != [] && items[|items| - 1] == Visit(t) && IsLeaf(t.op)
    requires out' == out + [Node(t.op, [])] && ops' == ops + [|out|]
    ensures Finish(items, out, ops) == Finish(items[..|items| - 1], out', ops')
    ensures Work(items[..|items| - 1]) < Work(items)
  {
  }

  lemma StepVisit(items: seq<Item>, t: Term, out: seq<Node>, ops: seq<nat>)
    requires items != [] && items[|items| - 1] == Visit(t) && !IsLeaf(t.op)
    ensures var more := items[..|items| - 1] + [Done(t)] + Visits(t.args);
      Finish(items, out, ops) == Finish(more, out, ops) && Work(more) < Work(items)
  {
    WorkVisits(items[..|items| - 1] + [Done(t)], t.args);
    WorkDone(items[..|items| - 1], t);
  }

  lemma StepDone(items: seq<Item>, t: Term, out: seq<Node>, ops: seq<nat>, out': seq<Node>, ops': seq<nat>)
    requires items != [] && items[|items| - 1] == Done(t) && |ops| >= |t.args|
    requires out' == out + [Node(t.op, ops[|ops| - |t.args|..])] && ops' == ops[..|ops| - |t.args|] + [|out|]
    ensures Finish(items, out, ops) == Finish(items[..|items| - 1], out', ops')
    ensures Work(items[..|items| - 1]) < Work(items)
  {
  }

  /** Visiting a tree emits its nodes in postfix order. */
  lemma {:induction false} FinishVisit(
    items: seq<Item>, t: Term, out: seq<Node>, ops: seq<nat>, out': seq<Node>, ops': seq<nat>)
    requires LeavesBare(t) && items != [] && items[|items| - 1] == Visit(t)
    requires out' == out + Flat(t, |out|) && ops' == ops + [|out| + Size(t) - 1]
    ensures Finish(items, out, ops) == Finish(items[..|items| - 1], out', ops')
    decreases t, 1
  {
    hide Finish, Work;
    if IsLeaf(t.op) {
      LeafFlat(t, |out|);
      StepLeaf(items, t, out, ops, out', ops');
    } else {
      var rest := items[..|items| - 1];
      var (below, roots) := (FlatAll(t.args, |out|), Roots(t.args, |out|));
      StepVisit(items, t, out, ops);
      FinishVisits(rest + [Done(t)], t.args, out, ops, out + below, ops + roots);
      var full := ops + roots;
      assert full[|full| - |roots|..] == roots && full[..|full| - |roots|] == ops;
      assert (rest + [Done(t)])[..|rest|] == rest;
      assert out + below + [Node(t.op, roots)] == out';
      StepDone(rest + [Done(t)], t, out + below, full, out', ops');
    }
  }

  lemma LeafFlat(t: Term, base: nat)
    requires t.args == []
    ensures Flat(t, base) == [Node(t.op, [])] && Size(t) == 1
  {
    assert FlatAll([], base) == [] && Roots([], base) == [];
  }

  lemma {:induction false} FinishVisits(
    items: seq<Item>, ts: seq<Term>, out: seq<Node>, ops: seq<nat>, out': seq<Node>, ops': seq<nat>)
    requires AllBare(ts) && out' == out + FlatAll(ts, |out|) && ops' == ops + Roots(ts, |out|)
    ensures Finish(items + Visits(ts), out, ops) == Finish(items, out', ops')
    decreases ts, 0
  {
    hide Finish, Work;
    if ts == [] {
      assert items + Visits(ts) == items && out' == out && ops' == ops;
    } else {
      var all := items + Visits(ts);
      assert all[|all| - 1] == Visit(ts[0]) && all[..|all| - 1] == items + Visits(ts[1..]);
      assert LeavesBare(ts[0]) && AllBare(ts[1..]);
      hide *;
      var out1, ops1 := FirstEmitted(ts, out, ops, out', ops');
      FinishVisit(all, ts[0], out, ops, out1, ops1);
      FinishVisits(items, ts[1..], out1, ops1, out', ops');
    }
  }

  // The outputs after the first of several trees.
  lemma FirstEmitted(ts: seq<Term>, out: seq<Node>, ops: seq<nat>, out': seq<Node>, ops': seq<nat>)
    returns (out1: seq<Node>, ops1: seq<nat>)
    requires ts != [] && out' == out + FlatAll(ts, |out|) && ops' == ops + Roots(ts, |out|)
    ensures out1 == out + Flat(ts[0], |out|) && ops1 == ops + [|out| + Size(ts[0]) - 1]
    ensures out' == out1 + FlatAll(ts[1..], |out1|) && ops' == ops1 + Roots(ts[1..], |out1|)
  {
    out1 := out + Flat(ts[0], |out|);
    assert |out1| == |out| + Size(ts[0]);
    hide *;
    FlatSplit(ts, |out|, |out1|);
    Regroup(out, Flat(ts[0], |out|), FlatAll(ts[1..], |out1|));
    ops1 := FirstPosition(ops, |out1|, Roots(ts[1..], |out1|), ops');
  }

  lemma FirstPosition(ops: seq<nat>, mid: nat, roots: seq<nat>, ops': seq<nat>) returns (ops1: seq<nat>)
    requires mid > 0 && ops' == ops + ([mid - 1] + roots)
    ensures ops1 == ops + [mid - 1] && ops' == ops1 + roots
  {
    ops1 := ops + [mid - 1];
  }

  lemma Regroup<X>(a: seq<X>, b: seq<X>, c: seq<X>)
    ensures a + b + c == a + (b + c)
  {
  }

  // The concrete stack: positions of the array that stand for the items' trees.
  ghost predicate StackStands(res: seq<Node>, stack: seq<(nat, bool)>, items: seq<Item>) {
    && |stack| == |items|
    && forall i | 0 <= i < |stack| ::
         && Stands(res, 0, stack[i].0, items[i].t)
         && stack[i].1 == items[i].Done?
         && LeavesBare(items[i].t)
  }

  // Pushing the operands of a node, last first.
  lemma {:induction false} PushedStand(res: seq<Node>, args: seq<nat>, ts: seq<Term>)
    requires |args| == |ts| && AllBare(ts) && forall q | 0 <= q < |args| :: Stands(res, 0, args[q], ts[q])
    ensures StackStands(res, Pushed(args), Visits(ts))
    decreases |args|
  {
    if args != [] {
      PushedStand(res, args[1..], ts[1..]);
    }
  }

  function Pushed(args: seq<nat>): seq<(nat, bool)> {
    if args == [] then [] else Pushed(args[1..]) + [(args[0], false)]
  }

  /** Rebuilds what a node stands for as a contiguous array. */
  method Rebuild(res: seq<Node>, root: nat, ghost u: Term) returns (out: seq<Node>)
    requires Stands(res, 0, root, u) && LeavesBare(u)
    ensures out == Flat(u, 0)
  {
    var stack := [(root, false)];
    var ops: seq<nat> := [];
    out := [];
    ghost var items := [Visit(u)];
    FinishVisit(items, u, [], [], Flat(u, 0), [Size(u) - 1]);
    hide Finish, Stands;
    while stack != []
      invariant StackStands(res, stack, items)
      invariant Finish(items, out, ops) == Finish([], Flat(u, 0), [Size(u) - 1])
      decreases Work(items)
    {
      stack, out, ops, items := RebuildStep(res, stack, out, ops, items);
    }
    FinishNone(out, ops);
    FinishNone(Flat(u, 0), [Size(u) - 1]);
  }

  lemma FinishNone(out: seq<Node>, ops: seq<nat>)
    ensures Finish([], out, ops) == Some((out, ops))
  {
  }

  // One pop of the stack.
  method RebuildStep(
    res: seq<Node>, stack: seq<(nat, bool)>, out: seq<Node>, ops: seq<nat>, ghost items: seq<Item>)
    returns (stack': seq<(nat, bool)>, out': seq<Node>, ops': seq<nat>, ghost items': seq<Item>)
    requires stack != [] && StackStands(res, stack, items) && Finish(items, out, ops).Some?
    ensures StackStands(res, stack', items') && Work(items') < Work(items)
    ensures Finish(items', out', ops') == Finish(items, out, ops)
  {
    var (idx, processed) := stack[|stack| - 1];
    ghost var t := items[|items| - 1].t;
    ghost var rest := items[..|items| - 1];
    assert Stands(res, 0, idx, t) && LeavesBare(t) && processed == items[|items| - 1].Done?;
    assert res[idx].op == t.op && |res[idx].args| == |t.args| && (IsLeaf(t.op) ==> t.args == []);
    assert forall q | 0 <= q < |t.args| :: Stands(res, 0, res[idx].args[q], t.args[q]);
    stack', out', ops' := stack[..|stack| - 1], out, ops;
    var node := res[idx];
    assert AllBare(t.args) && (processed ==> |ops| >= |t.args|);
    StackPop(res, stack, items);
    hide Stands, LeavesBare, Finish, Work, AllBare, StackStands;
    if processed {
      var n := |node.args|;
      out' := out + [Node(node.op, ops[|ops| - n..])];
      ops' := ops[..|ops| - n] + [|out|];
      items' := rest;
      StepDone(items, t, out, ops, out', ops');
    } else if IsLeaf(node.op) {
      ops' := ops + [|out|];
      out' := out + [Node(node.op, [])];
      items' := rest;
      StepLeaf(items, t, out, ops, out', ops');
    } else {
      stack' := stack' + [(idx, true)] + Pushed(node.args);
      items' := rest + [Done(t)] + Visits(t.args);
      PushedStand(res, node.args, t.args);
      StackOne(res, idx, t);
      StackConcat(res, stack[..|stack| - 1], rest, [(idx, true)], [Done(t)]);
      StackConcat(res, stack[..|stack| - 1] + [(idx, true)], rest + [Done(t)], Pushed(node.args), Visits(t.args));
      StepVisit(items, t, out, ops);
    }
  }

  lemma StackPop(res: seq<Node>, stack: seq<(nat, bool)>, items: seq<Item>)
    requires stack != [] && StackStands(res, stack, items)
    ensures StackStands(res, stack[..|stack| - 1], items[..|items| - 1])
  {
    hide Stands, LeavesBare;
  }

  lemma StackOne(res: seq<Node>, idx: nat, t: Term)
    requires Stands(res, 0, idx, t) && LeavesBare(t)
    ensures StackStands(res, [(idx, true)], [Done(t)])
  {
    hide Stands, LeavesBare;
  }

  lemma StackConcat(
    res: seq<Node>, stack: seq<(nat, bool)>, items: seq<Item>, stack': seq<(nat, bool)>, items': seq<Item>)
    requires StackStands(res, stack, items) && StackStands(res, stack', items')
    ensures StackStands(res, stack + stack', items + items')
  {
    hide Stands, LeavesBare;
  }

  // ---- the whole ----

  lemma BareCons(t: Term, ts: seq<Term>)
    requires LeavesBare(t) && AllBare(ts)
    ensures AllBare([t] + ts)
  {
    assert ([t] + ts)[1..] == ts;
  }

  lemma {:induction false} OpenBare(ts: seq<Term>)
    requires AllBare(ts)
    ensures AllBare(Open(ts))
  {
    if ts != [] {
      OpenBare(ts[1..]);
      BareCons(ts[0], Open(ts[1..]));
      assert [] + Open(ts[1..]) == Open(ts[1..]);
    }
  }

  lemma {:induction false} MergeBare(ts: seq<Term>, total: Term, placed: bool)
    requires AllBare(ts) && LeavesBare(total)
    ensures AllBare(Merge(ts, total, placed))
  {
    if ts != [] {
      MergeBare(ts[1..], total, true);
      MergeBare(ts[1..], total, placed);
      BareCons(total, Merge(ts[1..], total, true));
      BareCons(ts[0], Merge(ts[1..], total, placed));
      assert [] + Merge(ts[1..], total, true) == Merge(ts[1..], total, true);
    }
  }

  lemma LitBare(v: Value)
    ensures LeavesBare(Lit(v))
  {
  }

  lemma FoldBare(op: Op, ts: seq<Term>, k: Known)
    requires AllBare(ts) && (IsLeaf(op) ==> ts == []) && Fold(op, ts, k).Some?
    ensures LeavesBare(Fold(op, ts, k).value)
  {
    forall v: Value ensures LeavesBare(Lit(v)) {
      LitBare(v);
    }
    assert LeavesBare(Term(op, ts));
    if op.AndOp? || op.OrOp? {
      ConnectiveBare(op, op.AndOp?, ts);
    } else if op.PlusOp? || op.TimesOp? {
      NumericBare(op, ts);
    }
    hide FoldConnective, FoldNumeric, LeavesBare, Lit;
  }

  lemma ConnectiveBare(op: Op, unit: bool, ts: seq<Term>)
    requires AllBare(ts) && !IsLeaf(op)
    ensures LeavesBare(FoldConnective(op, unit, ts))
  {
    OpenBare(ts);
    LitBare(BoolV(true));
    LitBare(BoolV(false));
  }

  lemma NumericBare(op: Op, ts: seq<Term>)
    requires AllBare(ts) && !IsLeaf(op)
    ensures LeavesBare(FoldNumeric(op, ts))
  {
    LitBare(NumV(Total(op, ts)));
    MergeBare(ts, Lit(NumV(Total(op, ts))), false);
  }

  /** Simplified trees keep their leaves bare. */
  lemma {:induction false} SimplifyBare(t: Term, k: Known)
    requires LeavesBare(t) && SimplifyTerm(t, k).Some?
    ensures LeavesBare(SimplifyTerm(t, k).value)
    decreases t, 1
  {
    SimplifyAllBare(t.args, k);
    SimplifyFirst([], k);
    FoldBare(t.op, SimplifyTerms(t.args, k).value, k);
  }

  lemma {:induction false} SimplifyAllBare(ts: seq<Term>, k: Known)
    requires AllBare(ts) && SimplifyTerms(ts, k).Some?
    ensures AllBare(SimplifyTerms(ts, k).value)
    decreases ts, 0
  {
    SimplifyFirst(ts, k);
    if ts != [] {
      SimplifyBare(ts[0], k);
      SimplifyAllBare(ts[1..], k);
      assert SimplifyTerms(ts, k).value[1..] == SimplifyTerms(ts[1..], k).value;
    }
  }

  /** `simplify`: the result is the contiguous array of the simplified tree, and it
      raises exactly when folding does. */
  method SimplifyArray(nodes: seq<Node>, k: Known, ghost t: Term) returns (r: Option<seq<Node>>)
    requires nodes == Flat(t, 0) && LeavesBare(t)
    ensures r.None? <==> SimplifyTerm(t, k).None?
    ensures r.Some? ==> r.value == Flat(SimplifyTerm(t, k).value, 0)
  {
    var res: seq<Node> := [];
    ghost var now := PassFlat(t, [], k);
    hide StepNode, SimplifyTerm, Stands;
    for i := 0 to |nodes|
      invariant Pass(nodes[i..], res, k) == Pass(nodes, [], k) && |res| == i
    {
      assert nodes[i..][0] == nodes[i] && nodes[i..][1..] == nodes[i + 1..];
      var ok, res', value := FoldNode(nodes[i], res, k);
      if !ok {
        return None;
      }
      StepLength(nodes[i], res, k);
      res := res' + [value];
    }
    assert nodes[|nodes|..] == [];
    SimplifyBare(t, k);
    var out := Rebuild(res, |res| - 1, SimplifyTerm(t, k).value);
    r := Some(out);
  }

  lemma StepLength(node: Node, res: seq<Node>, k: Known)
    requires StepNode(node, res, k).Some?
    ensures |StepNode(node, res, k).value.0| == |res|
  {
    FirstIsAcc(node.op, node.args, res, |node.args|);
  }

  /** Simplifying preserves meaning, on arrays: where the given one has a value, so
      does the simplified one, and the same. */
  method SimplifyAndEvaluate(nodes: seq<Node>, k: Known, s: Assignment, ghost t: Term)
    returns (r: Option<seq<Node>>, v: Option<Value>)
    requires nodes == Flat(t, 0) && LeavesBare(t)
    requires Collapsible(t, s, k) && Knows(s, k) && EvalTerm(t, s, k.functions).Some?
    ensures v == EvalTerm(t, s, k.functions)
    ensures r.Some? && SimplifyTerm(t, k).Some? && r.value == Flat(SimplifyTerm(t, k).value, 0)
  {
    SimplifyMeans(t, s, k);
    r := SimplifyArray(nodes, k, t);
    v := EvaluateFlat(SimplifyTerm(t, k).value, r.value, s, k.functions);
  }

  /** What the converter builds can be simplified. */
  lemma {:induction false} ConvertedBare(e: Expr, swapped: Expr -> bool)
    ensures LeavesBare(TermOf(e, swapped))
    decreases e, 1
  {
    match e
    case Const(_) =>
    case Fluent(_) =>
    case And(es) => AllConvertedBare(es, swapped);
    case Or(es) => AllConvertedBare(es, swapped);
    case Plus(es) => AllConvertedBare(es, swapped);
    case Times(es) => AllConvertedBare(es, swapped);
    case Call(_, es) => AllConvertedBare(es, swapped);
    case Not(a) => ConvertedBare(a, swapped); BareCons(TermOf(a, swapped), []);
    case Equals(l, r) =>
      ConvertedBare(l, swapped); ConvertedBare(r, swapped); PairBare(TermOf(l, swapped), TermOf(r, swapped));
    case Le(l, r) =>
      ConvertedBare(l, swapped); ConvertedBare(r, swapped); PairBare(TermOf(l, swapped), TermOf(r, swapped));
    case Lt(l, r) =>
      ConvertedBare(l, swapped); ConvertedBare(r, swapped); PairBare(TermOf(l, swapped), TermOf(r, swapped));
    case Minus(l, r) =>
      ConvertedBare(l, swapped); ConvertedBare(r, swapped); PairBare(TermOf(l, swapped), TermOf(r, swapped));
    case Div(l, r) =>
      ConvertedBare(l, swapped); ConvertedBare(r, swapped); PairBare(TermOf(l, swapped), TermOf(r, swapped));
  }

  lemma PairBare(a: Term, b: Term)
    requires LeavesBare(a) && LeavesBare(b)
    ensures AllBare([a, b]) && AllBare([b, a])
  {
    BareCons(b, []);
    BareCons(a, [b]);
    BareCons(a, []);
    BareCons(b, [a]);
    assert [a] + [b] == [a, b] && [b] + [a] == [b, a] && [a] + [] == [a] && [b] + [] == [b];
  }

  lemma {:induction false} AllConvertedBare(es: seq<Expr>, swapped: Expr -> bool)
    ensures AllBare(TermsOf(es, swapped))
    ensures es != [] ==> LeavesBare(TermOf(es[0], swapped))
    decreases es, 0
  {
    if es != [] {
      ConvertedBare(es[0], swapped);
      AllConvertedBare(es[1..], swapped);
      BareCons(TermOf(es[0], swapped), TermsOf(es[1..], swapped));
    }
  }
}
