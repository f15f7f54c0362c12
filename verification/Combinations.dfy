/**
 The enumeration of value combinations in `HMaxExplicit`: a mixed-radix counter
 over ranges of indices, and the semi-naive scheme that visits only the
 combinations with a value that is new.
*/
module Combinations {
  import opened Options
  import opened Expr

  type Tuple = seq<nat>

  // Half-open ranges of indices, one per position.
  type Ranges = seq<(nat, nat)>

  predicate InBox(t: Tuple, ranges: Ranges) {
    |t| == |ranges| && forall i | 0 <= i < |t| :: ranges[i].0 <= t[i] < ranges[i].1
  }

  /** The order the counter visits tuples in. */
  predicate Less(s: Tuple, t: Tuple) {
    |s| == |t| && s != [] && (s[0] < t[0] || (s[0] == t[0] && Less(s[1..], t[1..])))
  }

  function Lows(ranges: Ranges): Tuple {
    seq(|ranges|, i requires 0 <= i < |ranges| => ranges[i].0)
  }

  /** The tuple after `t`; None after the last. */
  function Next(t: Tuple, ranges: Ranges): Option<Tuple>
    requires |t| == |ranges|
  {
    if t == [] then None else
      match Next(t[1..], ranges[1..])
      case Some(rest) => Some([t[0]] + rest)
      case None => if t[0] + 1 < ranges[0].1 then Some([t[0] + 1] + Lows(ranges[1..])) else None
  }

  ghost predicate NonEmpty(ranges: Ranges) {
    forall i | 0 <= i < |ranges| :: ranges[i].0 < ranges[i].1
  }

  lemma LowsCons(ranges: Ranges)
    requires ranges != []
    ensures Lows(ranges) == [ranges[0].0] + Lows(ranges[1..])
  {
  }

  lemma {:induction false} LowsLeast(t: Tuple, ranges: Ranges)
    requires InBox(t, ranges)
    ensures t == Lows(ranges) || Less(Lows(ranges), t)
    ensures !Less(t, Lows(ranges))
    decreases |t|
  {
    if t != [] {
      BoxTail(t, ranges);
      LowsCons(ranges);
      hide Lows, InBox;
      LowsLeast(t[1..], ranges[1..]);
      assert t == [t[0]] + t[1..];
      assert Lows(ranges)[1..] == Lows(ranges[1..]);
    }
  }

  lemma BoxTail(t: Tuple, ranges: Ranges)
    requires InBox(t, ranges) && t != []
    ensures |t| == |ranges| && ranges[0].0 <= t[0] < ranges[0].1 && InBox(t[1..], ranges[1..])
  {
  }

  lemma {:induction false} LessOrder(s: Tuple, t: Tuple)
    requires |s| == |t|
    ensures !Less(s, s) && !(Less(s, t) && Less(t, s))
    ensures s == t || Less(s, t) || Less(t, s)
    decreases |s|
  {
    if s != [] {
      LessOrder(s[1..], t[1..]);
      assert s == [s[0]] + s[1..] && t == [t[0]] + t[1..];
    }
  }

  /** `Next` is the least tuple of the box above `t`, and there is one unless `t`
      is the greatest. */
  lemma {:induction false} NextIsSuccessor(t: Tuple, ranges: Ranges, u: Tuple)
    requires InBox(t, ranges) && InBox(u, ranges) && NonEmpty(ranges)
    ensures Next(t, ranges).Some? ==>
              InBox(Next(t, ranges).value, ranges) && (Less(u, Next(t, ranges).value) <==> Less(u, t) || u == t)
    ensures Next(t, ranges).None? ==> Less(u, t) || u == t
    decreases |t|
  {
    if t != [] {
      var (t', u', ranges') := (t[1..], u[1..], ranges[1..]);
      NextIsSuccessor(t', ranges', u');
      assert t == [t[0]] + t' && u == [u[0]] + u';
      var next := Next(t, ranges);
      if next.Some? {
        assert next.value[1..] == if Next(t', ranges').Some? then Next(t', ranges').value else Lows(ranges');
        LowsLeast(u', ranges');
      }
    }
  }

  /** How many tuples come after `t`. */
  function Left(t: Tuple, ranges: Ranges): nat
    requires InBox(t, ranges)
  {
    if t == [] then 0 else
      assert ranges[0].0 <= t[0] < ranges[0].1;
      Product(ranges[0].1 - 1 - t[0], Size(ranges[1..])) + Left(t[1..], ranges[1..])
  }

  function Product(x: nat, y: nat): nat {
    x * y
  }

  function Size(ranges: Ranges): nat {
    if ranges == [] then 1
    else if ranges[0].0 < ranges[0].1 then Product(ranges[0].1 - ranges[0].0, Size(ranges[1..])) else 0
  }

  lemma ProductSteps(x: nat, y: nat)
    ensures Product(x + 1, y) == Product(x, y) + y
  {
  }

  lemma ProductGrows(x: nat, x': nat, y: nat)
    requires x <= x'
    ensures Product(x, y) <= Product(x', y)
  {
  }

  lemma {:induction false} LeftBelowSize(t: Tuple, ranges: Ranges)
    requires InBox(t, ranges)
    ensures Left(t, ranges) < Size(ranges)
    decreases |t|
  {
    hide Product;
    if t != [] {
      assert ranges[0].0 <= t[0] < ranges[0].1;
      LeftBelowSize(t[1..], ranges[1..]);
      var (n, m, s) := (ranges[0].1 - 1 - t[0], ranges[0].1 - ranges[0].0, Size(ranges[1..]));
      ProductSteps(n, s);
      ProductGrows(n + 1, m, s);
    }
  }

  lemma {:induction false} NextLeft(t: Tuple, ranges: Ranges)
    requires InBox(t, ranges) && NonEmpty(ranges) && Next(t, ranges).Some?
    ensures InBox(Next(t, ranges).value, ranges) && Left(Next(t, ranges).value, ranges) < Left(t, ranges)
    decreases |t|
  {
    hide Product;
    NextIsSuccessor(t, ranges, t);
    var (t', ranges', next) := (t[1..], ranges[1..], Next(t, ranges).value);
    assert ranges[0].0 <= t[0] < ranges[0].1;
    if Next(t', ranges').Some? {
      NextLeft(t', ranges');
      assert next[1..] == Next(t', ranges').value;
    } else {
      assert next[1..] == Lows(ranges');
      LeftBelowSize(Lows(ranges'), ranges');
      ProductSteps(ranges[0].1 - 2 - t[0], Size(ranges'));
    }
  }

  lemma {:induction false} NextPrefix(t: Tuple, ranges: Ranges, pos: nat)
    requires |t| == |ranges| && pos <= |t|
    ensures Next(t[pos..], ranges[pos..]).Some? ==>
              Next(t, ranges) == Some(t[..pos] + Next(t[pos..], ranges[pos..]).value)
    decreases pos
  {
    if pos > 0 {
      assert t[1..][pos - 1..] == t[pos..] && ranges[1..][pos - 1..] == ranges[pos..];
      NextPrefix(t[1..], ranges[1..], pos - 1);
      assert [t[0]] + t[1..][..pos - 1] == t[..pos];
      if Next(t[pos..], ranges[pos..]).Some? {
        var n := Next(t[pos..], ranges[pos..]).value;
        assert [t[0]] + (t[1..][..pos - 1] + n) == t[..pos] + n;
      }
    } else {
      assert t[0..] == t && ranges[0..] == ranges;
      if Next(t, ranges).Some? {
        assert t[..0] + Next(t, ranges).value == Next(t, ranges).value;
      }
    }
  }

  /** The increment, rightmost position first. */
  method Advance(t: Tuple, ranges: Ranges) returns (more: bool, next: Tuple)
    requires InBox(t, ranges)
    ensures more <==> Next(t, ranges).Some?
    ensures more ==> next == Next(t, ranges).value
  {
    next := t;
    var pos := |t|;
    while pos > 0
      invariant 0 <= pos <= |t| && |next| == |t|
      invariant Next(t[pos..], ranges[pos..]).None?
      invariant next == t[..pos] + Lows(ranges[pos..])
      decreases pos
    {
      var (q, r) := (t[pos - 1..], ranges[pos - 1..]);
      assert q[1..] == t[pos..] && r[1..] == ranges[pos..];
      pos := pos - 1;
      next := next[pos := next[pos] + 1];
      if next[pos] < ranges[pos].1 {
        NextPrefix(t, ranges, pos);
        assert next == t[..pos] + ([t[pos] + 1] + Lows(ranges[pos + 1..]));
        return true, next;
      }
      next := next[pos := ranges[pos].0];
      assert Lows(r) == [ranges[pos].0] + Lows(r[1..]);
      assert next == t[..pos] + Lows(ranges[pos..]);
    }
    assert t[0..] == t && ranges[0..] == ranges;
    more := false;
  }

  // ---- evaluating an expression on combinations ----

  // The values each fluent can take so far, in the order they were found.
  type ValueSets = seq<seq<Value>>

  predicate Indexed(fluents: seq<nat>, sets: ValueSets) {
    forall i | 0 <= i < |fluents| :: fluents[i] < |sets|
  }

  /** `fluents` are the ones `exp` reads, once each, and all have a set. */
  ghost predicate Dims(exp: Expr, fluents: seq<nat>, sets: ValueSets) {
    && (forall i, j | 0 <= i < j < |fluents| :: fluents[i] != fluents[j])
    && (forall f :: f in fluents <==> f in Fluents(exp))
    && Indexed(fluents, sets)
  }

  function Sizes(fluents: seq<nat>, sets: ValueSets): Tuple
    requires Indexed(fluents, sets)
  {
    seq(|fluents|, i requires 0 <= i < |fluents| => |sets[fluents[i]]|)
  }

  /** The tuples of indices below `sizes`. */
  predicate Below(t: Tuple, sizes: Tuple) {
    |t| == |sizes| && forall i | 0 <= i < |t| :: t[i] < sizes[i]
  }

  function IndexIn(fluents: seq<nat>, f: nat): (i: nat)
    requires f in fluents
    ensures i < |fluents| && fluents[i] == f
  {
    if fluents[0] == f then 0 else 1 + IndexIn(fluents[1..], f)
  }

  /** The assignment a tuple of indices stands for; the fluents `exp` does not read
      are given any value. */
  function Pick(fluents: seq<nat>, sets: ValueSets, t: Tuple): Assignment
    requires Indexed(fluents, sets) && Below(t, Sizes(fluents, sets))
  {
    seq(|sets|, f requires 0 <= f < |sets| =>
      if f in fluents then PickOne(fluents, sets, t, f) else BoolV(false))
  }

  function PickOne(fluents: seq<nat>, sets: ValueSets, t: Tuple, f: nat): Value
    requires Indexed(fluents, sets) && Below(t, Sizes(fluents, sets)) && f in fluents
  {
    var i := IndexIn(fluents, f);
    assert Sizes(fluents, sets)[i] == |sets[f]| && t[i] < Sizes(fluents, sets)[i];
    sets[f][t[i]]
  }

  function ValueOf(fs: Functions, exp: Expr, fluents: seq<nat>, sets: ValueSets, t: Tuple): Option<Value>
    requires Indexed(fluents, sets) && Below(t, Sizes(fluents, sets))
  {
    Eval(exp, Pick(fluents, sets, t), fs)
  }

  /** `v` is a value of `exp` for some choice from the sets. */
  ghost predicate CanTake(fs: Functions, exp: Expr, sets: ValueSets, v: Option<Value>) {
    exists s: Assignment :: From(s, exp, sets) && Eval(exp, s, fs) == v
  }

  ghost predicate From(s: Assignment, exp: Expr, sets: ValueSets) {
    |s| == |sets| && forall f | f in Fluents(exp) :: f < |sets| && s[f] in sets[f]
  }

  // Some tuple has the value `v`, or raises.
  ghost predicate HasTuple(fs: Functions, exp: Expr, fluents: seq<nat>, sets: ValueSets, v: Option<Value>)
    requires Indexed(fluents, sets)
  {
    exists t :: Below(t, Sizes(fluents, sets)) && ValueOf(fs, exp, fluents, sets, t) == v
  }

  /** The tuples cover all choices. */
  lemma TuplesCover(fs: Functions, exp: Expr, fluents: seq<nat>, sets: ValueSets, v: Option<Value>)
    requires Dims(exp, fluents, sets)
    ensures CanTake(fs, exp, sets, v) <==> HasTuple(fs, exp, fluents, sets, v)
  {
    assert Indexed(fluents, sets);
    hide ValueOf, Pick, From, Below, Sizes, Dims;
    if CanTake(fs, exp, sets, v) {
      var s: Assignment :| From(s, exp, sets) && Eval(exp, s, fs) == v;
      var t := TupleOf(exp, fluents, sets, s);
      ChoiceValue(fs, exp, fluents, sets, t, s);
    }
    if HasTuple(fs, exp, fluents, sets, v) {
      var t :| Below(t, Sizes(fluents, sets)) && ValueOf(fs, exp, fluents, sets, t) == v;
      TupleIsChoice(fs, exp, fluents, sets, t);
    }
  }

  lemma ChoiceValue(fs: Functions, exp: Expr, fluents: seq<nat>, sets: ValueSets, t: Tuple, s: Assignment)
    requires Indexed(fluents, sets) && Below(t, Sizes(fluents, sets))
    requires Agree(Pick(fluents, sets, t), s, Fluents(exp))
    ensures ValueOf(fs, exp, fluents, sets, t) == Eval(exp, s, fs)
  {
    EvalReadsFluents(exp, Pick(fluents, sets, t), s, fs);
  }

  lemma TupleIsChoice(fs: Functions, exp: Expr, fluents: seq<nat>, sets: ValueSets, t: Tuple)
    requires Dims(exp, fluents, sets) && Below(t, Sizes(fluents, sets))
    ensures CanTake(fs, exp, sets, ValueOf(fs, exp, fluents, sets, t))
  {
    var s := Pick(fluents, sets, t);
    forall f | f in Fluents(exp) ensures f < |sets| && s[f] in sets[f] {
      assert f in fluents;
      assert s[f] == PickOne(fluents, sets, t, f);
    }
    assert From(s, exp, sets);
  }

  lemma TupleOf(exp: Expr, fluents: seq<nat>, sets: ValueSets, s: Assignment) returns (t: Tuple)
    requires Dims(exp, fluents, sets) && From(s, exp, sets)
    ensures Below(t, Sizes(fluents, sets)) && Agree(Pick(fluents, sets, t), s, Fluents(exp))
  {
    t := TupleFor(fluents, sets, s);
    forall f | f in Fluents(exp) ensures f < |sets| && Pick(fluents, sets, t)[f] == s[f] {
      assert f in fluents;
      assert Pick(fluents, sets, t)[f] == PickOne(fluents, sets, t, f);
    }
  }

  lemma {:induction false} TupleFor(fluents: seq<nat>, sets: ValueSets, s: Assignment) returns (t: Tuple)
    requires |s| == |sets| && Indexed(fluents, sets)
    requires forall i | 0 <= i < |fluents| :: s[fluents[i]] in sets[fluents[i]]
    ensures |t| == |fluents| && forall i | 0 <= i < |t| :: t[i] < |sets[fluents[i]]| && sets[fluents[i]][t[i]] == s[fluents[i]]
  {
    if fluents == [] {
      t := [];
    } else {
      var rest := TupleFor(fluents[1..], sets, s);
      var k: nat :| k < |sets[fluents[0]]| && sets[fluents[0]][k] == s[fluents[0]];
      t := [k] + rest;
    }
  }

  // ---- the enumerations ----

  /** Evaluating raised, or the visitor stopped it, or all were visited. */
  datatype Visit = Raised | Stopped | Completed

  ghost predicate NoRepeats(trace: seq<Tuple>) {
    forall i, j | 0 <= i < j < |trace| :: trace[i] != trace[j]
  }

  // The values are those of the tuples visited; `stop` is for the visitor that
  // stops at the first true one.
  ghost predicate Collected(
    fs: Functions, exp: Expr, fluents: seq<nat>, sets: ValueSets, trace: seq<Tuple>, values: set<Value>, stop: bool)
    requires Indexed(fluents, sets)
  {
    && (forall t | t in trace ::
          && Below(t, Sizes(fluents, sets)) && ValueOf(fs, exp, fluents, sets, t).Some?
          && ValueOf(fs, exp, fluents, sets, t).value in values
          && !(stop && ValueOf(fs, exp, fluents, sets, t) == Some(TRUE)))
    && forall v | v in values ::
         exists t :: t in trace && Below(t, Sizes(fluents, sets)) && ValueOf(fs, exp, fluents, sets, t) == Some(v)
  }

  lemma CollectOne(
    fs: Functions, exp: Expr, fluents: seq<nat>, sets: ValueSets, trace: seq<Tuple>, values: set<Value>, stop: bool,
    t: Tuple)
    requires Indexed(fluents, sets) && Collected(fs, exp, fluents, sets, trace, values, stop)
    requires Below(t, Sizes(fluents, sets)) && ValueOf(fs, exp, fluents, sets, t).Some?
    requires !(stop && ValueOf(fs, exp, fluents, sets, t) == Some(TRUE))
    ensures Collected(fs, exp, fluents, sets, trace + [t], values + {ValueOf(fs, exp, fluents, sets, t).value}, stop)
  {
    hide ValueOf, Below, Sizes;
    assert t in trace + [t];
    forall v | v in values
      ensures exists u ::
        u in trace + [t] && Below(u, Sizes(fluents, sets)) && ValueOf(fs, exp, fluents, sets, u) == Some(v)
    {
      var u :| u in trace && Below(u, Sizes(fluents, sets)) && ValueOf(fs, exp, fluents, sets, u) == Some(v);
      assert u in trace + [t];
    }
  }

  lemma CollectMore(
    fs: Functions, exp: Expr, fluents: seq<nat>, sets: ValueSets, trace: seq<Tuple>, values: set<Value>, stop: bool,
    trace': seq<Tuple>, values': set<Value>)
    requires Indexed(fluents, sets)
    requires Collected(fs, exp, fluents, sets, trace, values, stop)
    requires Collected(fs, exp, fluents, sets, trace', values', stop)
    ensures Collected(fs, exp, fluents, sets, trace + trace', values + values', stop)
  {
    hide ValueOf, Below, Sizes;
    forall v | v in values + values'
      ensures exists u ::
        u in trace + trace' && Below(u, Sizes(fluents, sets)) && ValueOf(fs, exp, fluents, sets, u) == Some(v)
    {
      if v in values {
        var u :| u in trace && Below(u, Sizes(fluents, sets)) && ValueOf(fs, exp, fluents, sets, u) == Some(v);
        assert u in trace + trace';
      } else {
        var u :| u in trace' && Below(u, Sizes(fluents, sets)) && ValueOf(fs, exp, fluents, sets, u) == Some(v);
        assert u in trace + trace';
      }
    }
  }

  predicate RangesFit(ranges: Ranges, fluents: seq<nat>, sets: ValueSets)
    requires Indexed(fluents, sets)
  {
    |ranges| == |fluents| && forall i | 0 <= i < |ranges| :: ranges[i].1 <= |sets[fluents[i]]|
  }

  lemma BoxIsBelow(t: Tuple, ranges: Ranges, fluents: seq<nat>, sets: ValueSets)
    requires Indexed(fluents, sets) && RangesFit(ranges, fluents, sets) && InBox(t, ranges)
    ensures Below(t, Sizes(fluents, sets))
  {
  }

  // What has been visited when the counter stands at `t`.
  ghost predicate VisitedUpTo(trace: seq<Tuple>, ranges: Ranges, t: Tuple) {
    NoRepeats(trace) && forall u :: u in trace <==> InBox(u, ranges) && Less(u, t)
  }

  lemma VisitNext(trace: seq<Tuple>, ranges: Ranges, t: Tuple)
    requires InBox(t, ranges) && NonEmpty(ranges) && VisitedUpTo(trace, ranges, t)
    ensures NoRepeats(trace + [t])
    ensures Next(t, ranges).Some? ==> VisitedUpTo(trace + [t], ranges, Next(t, ranges).value)
    ensures Next(t, ranges).None? ==> forall u :: u in trace + [t] <==> InBox(u, ranges)
  {
    LessOrder(t, t);
    assert t !in trace;
    hide Less, InBox, Next;
    forall u | InBox(u, ranges)
      ensures Next(t, ranges).Some? ==> (Less(u, Next(t, ranges).value) <==> Less(u, t) || u == t)
      ensures Next(t, ranges).None? ==> Less(u, t) || u == t
    {
      NextIsSuccessor(t, ranges, u);
    }
  }

  /** Visits every tuple of the box, once each, unless it is stopped or raises. */
  method ForEachCombination(
    fs: Functions, exp: Expr, fluents: seq<nat>, sets: ValueSets, ranges: Ranges, stop: bool)
    returns (r: Visit, values: set<Value>, ghost trace: seq<Tuple>)
    requires Indexed(fluents, sets) && RangesFit(ranges, fluents, sets)
    ensures r == Completed ==> NoRepeats(trace) && forall t :: t in trace <==> InBox(t, ranges)
    ensures r == Completed ==> Collected(fs, exp, fluents, sets, trace, values, stop)
    ensures r == Stopped ==> stop && HasTuple(fs, exp, fluents, sets, Some(TRUE))
    ensures r == Raised ==> HasTuple(fs, exp, fluents, sets, None)
  {
    values, trace := {}, [];
    if i :| 0 <= i < |ranges| && ranges[i].0 >= ranges[i].1 {
      return Completed, values, trace;
    }
    var t := Lows(ranges);
    var more := true;
    assert VisitedUpTo(trace, ranges, t) by {
      forall u | InBox(u, ranges) ensures !Less(u, t) {
        LowsLeast(u, ranges);
      }
    }
    while more
      invariant InBox(t, ranges)
      invariant more ==> VisitedUpTo(trace, ranges, t)
      invariant !more ==> NoRepeats(trace) && forall u :: u in trace <==> InBox(u, ranges)
      invariant Collected(fs, exp, fluents, sets, trace, values, stop)
      decreases if more then 1 + Left(t, ranges) else 0
    {
      BoxIsBelow(t, ranges, fluents, sets);
      var v := ValueOf(fs, exp, fluents, sets, t);
      if v.None? {
        return Raised, values, trace;
      }
      if stop && v == Some(TRUE) {
        return Stopped, values, trace;
      }
      CollectOne(fs, exp, fluents, sets, trace, values, stop, t);
      VisitNext(trace, ranges, t);
      trace, values := trace + [t], values + {v.value};
      var next;
      more, next := Advance(t, ranges);
      if more {
        NextLeft(t, ranges);
        t := next;
      }
    }
    r := Completed;
  }

  /** The tuples an expression with `k` fluents was evaluated on when its sizes
      were `old`; one without fluents is marked by `[1]`. */
  predicate Seen(past: Tuple, k: nat, t: Tuple) {
    if k == 0 then |past| > 0 && past[0] == 1 else |past| == k && Below(t, past)
  }

  /** The `j`-th round of ranges: a new value at `j`, only old ones before. */
  function RangesAt(j: nat, sizes: Tuple, sizes': Tuple): Ranges
    requires |sizes| == |sizes'|
  {
    seq(|sizes|, i requires 0 <= i < |sizes| =>
      if i < j then (0, sizes[i]) else if i == j then (sizes[i], sizes'[i]) else (0, sizes'[i]))
  }

  // The first position with a new value.
  function FirstNew(t: Tuple, sizes: Tuple): (j: nat)
    requires |t| == |sizes|
    ensures j <= |t|
    ensures forall i | 0 <= i < j :: t[i] < sizes[i]
    ensures j < |t| ==> t[j] >= sizes[j]
  {
    if t == [] || t[0] >= sizes[0] then 0 else 1 + FirstNew(t[1..], sizes[1..])
  }

  /** The rounds split up the tuples with a new value: each is in exactly one. */
  lemma RoundsSplit(t: Tuple, sizes: Tuple, sizes': Tuple, j: nat)
    requires |sizes| == |sizes'| == |t| && j < |t| && forall i | 0 <= i < |t| :: sizes[i] <= sizes'[i]
    ensures InBox(t, RangesAt(j, sizes, sizes')) <==> Below(t, sizes') && j == FirstNew(t, sizes)
    ensures Below(t, sizes) <==> FirstNew(t, sizes) == |t|
  {
    var r := RangesAt(j, sizes, sizes');
    if InBox(t, r) {
      assert forall i | 0 <= i < |t| :: r[i].0 <= t[i] < r[i].1;
      assert t[j] >= sizes[j];
    }
  }

  // What the first `j` rounds have visited.
  ghost predicate VisitedRounds(trace: seq<Tuple>, j: nat, sizes: Tuple, sizes': Tuple)
    requires |sizes| == |sizes'|
  {
    && NoRepeats(trace)
    && forall t :: t in trace <==> Below(t, sizes') && FirstNew(t, sizes) < j
  }

  lemma VisitRound(trace: seq<Tuple>, trace': seq<Tuple>, j: nat, sizes: Tuple, sizes': Tuple)
    requires |sizes| == |sizes'| && j < |sizes| && forall i | 0 <= i < |sizes| :: sizes[i] <= sizes'[i]
    requires VisitedRounds(trace, j, sizes, sizes')
    requires NoRepeats(trace') && forall t :: t in trace' <==> InBox(t, RangesAt(j, sizes, sizes'))
    ensures VisitedRounds(trace + trace', j + 1, sizes, sizes')
  {
    hide FirstNew;
    forall t | |t| == |sizes| ensures t in trace' <==> Below(t, sizes') && FirstNew(t, sizes) == j {
      RoundsSplit(t, sizes, sizes', j);
    }
    forall t | t in trace' ensures |t| == |sizes| {
    }
    assert forall t :: !(t in trace && t in trace');
  }

  /** Evaluates `exp` on the combinations with a value it has not been evaluated
      on, each once. */
  method ForEachNewValue(
    fs: Functions, exp: Expr, fluents: seq<nat>, sets: ValueSets, past: Tuple, stop: bool)
    returns (r: Visit, values: set<Value>, now: Tuple, ghost trace: seq<Tuple>)
    requires Indexed(fluents, sets)
    requires |past| == |fluents| ==> forall i | 0 <= i < |past| :: past[i] <= Sizes(fluents, sets)[i]
    ensures r == Completed ==> NoRepeats(trace)
    ensures r == Completed ==>
              forall t :: t in trace <==> Below(t, Sizes(fluents, sets)) && !Seen(past, |fluents|, t)
    ensures r == Completed ==> Collected(fs, exp, fluents, sets, trace, values, stop)
    ensures r == Completed ==> now == if fluents == [] then [1] else Sizes(fluents, sets)
    ensures r == Stopped ==> stop && HasTuple(fs, exp, fluents, sets, Some(TRUE))
    ensures r == Raised ==> HasTuple(fs, exp, fluents, sets, None)
  {
    var k := |fluents|;
    values, now, trace := {}, past, [];
    if k == 0 {
      r, values, now, trace := EvaluateOnce(fs, exp, sets, past, stop);
      return;
    }
    var sizes' := Sizes(fluents, sets);
    var sizes := if |past| == k then past else seq(k, i => 0);
    forall t ensures Seen(past, k, t) <==> Below(t, sizes) {
      if |past| != k && |t| == k {
        assert !(t[0] < sizes[0]);
      }
    }
    if sizes == sizes' {
      return Completed, values, sizes', trace;
    }
    for j := 0 to k
      invariant VisitedRounds(trace, j, sizes, sizes')
      invariant Collected(fs, exp, fluents, sets, trace, values, stop)
    {
      var ranges := RangesAt(j, sizes, sizes');
      ghost var trace';
      var values';
      r, values', trace' := ForEachCombination(fs, exp, fluents, sets, ranges, stop);
      if r != Completed {
        return;
      }
      VisitRound(trace, trace', j, sizes, sizes');
      CollectMore(fs, exp, fluents, sets, trace, values, stop, trace', values');
      trace, values := trace + trace', values + values';
    }
    forall t | |t| == k ensures Below(t, sizes) <==> FirstNew(t, sizes) == k {
      RoundsSplit(t, sizes, sizes', 0);
    }
    r, now := Completed, sizes';
  }

  // An expression without fluents is evaluated once.
  method EvaluateOnce(fs: Functions, exp: Expr, sets: ValueSets, past: Tuple, stop: bool)
    returns (r: Visit, values: set<Value>, now: Tuple, ghost trace: seq<Tuple>)
    ensures r == Completed ==> NoRepeats(trace) && forall t :: t in trace <==> Below(t, []) && !Seen(past, 0, t)
    ensures r == Completed ==> Collected(fs, exp, [], sets, trace, values, stop) && now == [1]
    ensures r == Stopped ==> stop && HasTuple(fs, exp, [], sets, Some(TRUE))
    ensures r == Raised ==> HasTuple(fs, exp, [], sets, None)
  {
    values, now, trace := {}, past, [];
    var t: Tuple := [];
    assert Below(t, Sizes([], sets));
    if |past| > 0 && past[0] == 1 {
      return Completed, values, [1], trace;
    }
    var v := ValueOf(fs, exp, [], sets, t);
    if v.None? {
      return Raised, values, now, trace;
    }
    now := [1];
    if stop && v == Some(TRUE) {
      return Stopped, values, now, trace;
    }
    CollectOne(fs, exp, [], sets, trace, values, stop, t);
    r, values, trace := Completed, values + {v.value}, trace + [t];
  }
}
