/**
 Exactly when a durative condition survives every order the plan allows: when it holds
 after every set of events of the span that some order could fire first.
*/
module DurativeExact {
  import opened Options
  import opened Expr
  import opened Temporal
  import opened Deordering
  import opened DurativeDeordering

  /** An order the plan allows. */
  ghost predicate Allowed(p: Problem, path': Path, path: Path) {
    IsPath(p, path') && IsPath(p, path) && Reorders(p, path', path) && KeepsPrecedence(p, path', path)
  }

  // `e` has to come before `f`.
  ghost predicate MustPrecede(p: Problem, path: Path, e: Fired, f: Fired) {
    Comes(path, e, f) && (MutexFired(p, e, f) || PrecedenceFired(p, e, f))
  }

  /** A set of events that some order fires first, ending inside the span: with an event
      it has all that must precede it, it has the one that opens the condition, and not
      the one that closes it. */
  ghost predicate Cut(p: Problem, path: Path, i: nat, j: nat, w: set<Fired>)
    requires i < |path| && j <= |path|
  {
    && (forall e | e in w :: e in path)
    && (forall e, f | f in w && MustPrecede(p, path, e, f) :: e in w)
    && path[i] in w && (j < |path| ==> path[j] !in w)
  }

  /** The events of `w`, in the order of the path. */
  ghost function Only(path: Path, w: set<Fired>): Path {
    if path == [] then [] else (if path[0] in w then [path[0]] else []) + Only(path[1..], w)
  }

  ghost function Others(path: Path, w: set<Fired>): Path {
    if path == [] then [] else (if path[0] in w then [] else [path[0]]) + Others(path[1..], w)
  }

  ghost predicate HoldsAfter(p: Problem, path: Path, s: Assignment, c: Expr) {
    IsPath(p, path) && Exec(p, path, s).Some? && Holds(p, c, Exec(p, path, s).value)
  }

  /** The condition holds after every cut of its span. */
  ghost predicate CutsHold(p: Problem, path: Path, s: Assignment, c: Expr, i: nat, j: nat)
    requires i < |path| && j <= |path|
  {
    forall w | Cut(p, path, i, j, w) :: HoldsAfter(p, Only(path, w), s, c)
  }

  // Where the span is in another order.
  ghost predicate SpanAt(path': Path, path: Path, i': nat, j': nat, i: nat, j: nat)
    requires i < |path| && j <= |path|
  {
    && i' < j' <= |path'| && path'[i'] == path[i]
    && if j < |path| then j' < |path'| && path'[j'] == path[j] else j' == |path'|
  }

  /** The condition holds over its span in every order the plan allows. */
  ghost predicate AllOrdersHold(p: Problem, path: Path, s: Assignment, c: Expr, i: nat, j: nat)
    requires i < |path| && j <= |path|
  {
    forall path', i', j' | Allowed(p, path', path) && SpanAt(path', path, i', j', i, j) ::
      HoldsOver(p, path', s, c, i', j')
  }

  // ---- the order that fires a cut first ----

  lemma {:induction false} OnlyMembers(path: Path, w: set<Fired>)
    ensures forall e :: e in Only(path, w) <==> e in path && e in w
    ensures forall e :: e in Others(path, w) <==> e in path && e !in w
    ensures |Only(path, w)| + |Others(path, w)| == |path|
  {
    if path != [] {
      OnlyMembers(path[1..], w);
      assert forall e :: e in path <==> e == path[0] || e in path[1..];
    }
  }

  lemma {:induction false} OnlyDistinct(path: Path, w: set<Fired>)
    requires Distinct(path)
    ensures Distinct(Only(path, w)) && Distinct(Others(path, w))
  {
    if path != [] {
      OnlyDistinct(path[1..], w);
      OnlyMembers(path[1..], w);
      assert path[0] !in path[1..];
      FirstDistinct(path[0], Only(path[1..], w));
      FirstDistinct(path[0], Others(path[1..], w));
      assert [] + Only(path[1..], w) == Only(path[1..], w) && [] + Others(path[1..], w) == Others(path[1..], w);
    }
  }

  lemma FirstDistinct(e: Fired, path: Path)
    requires Distinct(path) && e !in path
    ensures Distinct([e] + path)
  {
  }

  // The first of a path comes before the rest.
  lemma ComesSplit(e: Fired, path: Path, x: Fired, y: Fired)
    ensures Comes([e] + path, x, y) <==> (x == e && y in path) || Comes(path, x, y)
  {
    var q := [e] + path;
    if Comes(q, x, y) {
      var i, j :| 0 <= i < j < |q| && q[i] == x && q[j] == y;
      assert y == path[j - 1];
      if i > 0 {
        assert path[i - 1] == x;
      }
    }
    if x == e && y in path {
      var j :| 0 <= j < |path| && path[j] == y;
      assert q[0] == x && q[j + 1] == y;
    }
    if Comes(path, x, y) {
      var i, j :| 0 <= i < j < |path| && path[i] == x && path[j] == y;
      assert q[i + 1] == x && q[j + 1] == y;
    }
  }

  lemma {:induction false} OnlyComes(path: Path, w: set<Fired>, x: Fired, y: Fired)
    requires path != [] && Comes(path, x, y)
    ensures x in w && y in w ==> Comes(Only(path, w), x, y)
    ensures x !in w && y !in w ==> Comes(Others(path, w), x, y)
  {
    var (e, rest) := (path[0], path[1..]);
    assert path == [e] + rest && path[0] == e;
    hide Comes;
    ComesSplit(e, rest, x, y);
    OnlyMembers(rest, w);
    ComesSplit(e, Only(rest, w), x, y);
    ComesSplit(e, Others(rest, w), x, y);
    if Comes(rest, x, y) {
      ComesIn(rest, x, y);
      OnlyComes(rest, w, x, y);
    }
    assert [] + Only(rest, w) == Only(rest, w) && [] + Others(rest, w) == Others(rest, w);
  }

  function First(path: Path, rest: Path): Path {
    path + rest
  }

  lemma ConcatComes(a: Path, b: Path, x: Fired, y: Fired)
    ensures Comes(a, x, y) || Comes(b, x, y) || (x in a && y in b) ==> Comes(First(a, b), x, y)
  {
    var q := First(a, b);
    if Comes(a, x, y) {
      var i, j :| 0 <= i < j < |a| && a[i] == x && a[j] == y;
      assert q[i] == x && q[j] == y;
    } else if Comes(b, x, y) {
      var i, j :| 0 <= i < j < |b| && b[i] == x && b[j] == y;
      assert q[|a| + i] == x && q[|a| + j] == y;
    } else if x in a && y in b {
      var i :| 0 <= i < |a| && a[i] == x;
      var j :| 0 <= j < |b| && b[j] == y;
      assert q[i] == x && q[|a| + j] == y;
    }
  }

  lemma ConcatDistinct(a: Path, b: Path)
    requires Distinct(a) && Distinct(b) && forall e | e in a :: e !in b
    ensures Distinct(First(a, b))
  {
    var q := First(a, b);
    forall i, j | 0 <= i < j < |q| ensures q[i] != q[j] {
      if i < |a| <= j {
        assert q[i] == a[i] && q[j] == b[j - |a|] && a[i] in a && b[j - |a|] in b;
      }
    }
  }

  // Firing a downward closed set first, each part in the order of the path.
  ghost predicate Downward(p: Problem, path: Path, w: set<Fired>) {
    forall e, f | f in w && MustPrecede(p, path, e, f) :: e in w
  }

  lemma CutFirstIsAllowed(p: Problem, path: Path, w: set<Fired>)
    requires IsPath(p, path) && Distinct(path) && Downward(p, path, w)
    ensures Allowed(p, First(Only(path, w), Others(path, w)), path)
    ensures IsPath(p, Only(path, w))
  {
    var (a, b) := (Only(path, w), Others(path, w));
    var q := First(a, b);
    OnlyMembers(path, w);
    OnlyDistinct(path, w);
    ConcatDistinct(a, b);
    assert forall e :: e in q <==> e in path;
    PartIsPath(p, path, a);
    PartIsPath(p, path, q);
    hide Distinct, Only, Others, First, MutexFired, PrecedenceFired, IsPath;
    forall e, f | MustPrecede(p, path, e, f) ensures Comes(q, e, f) {
      ComesIn(path, e, f);
      OnlyComes(path, w, e, f);
      ConcatComes(a, b, e, f);
    }
  }

  lemma PartIsPath(p: Problem, path: Path, q: Path)
    requires IsPath(p, path) && forall e | e in q :: e in path
    ensures IsPath(p, q)
  {
    forall i | 0 <= i < |q| ensures IsEvent(p, (q[i].0, q[i].1)) {
      assert q[i] in path;
    }
  }

  // ---- the prefixes of an allowed order are cuts ----

  ghost function Elements(path: Path): set<Fired> {
    set e | e in path
  }

  lemma PrefixIsCut(p: Problem, path': Path, path: Path, i': nat, j': nat, i: nat, j: nat, m': nat)
    requires Allowed(p, path', path) && i < |path| && j <= |path| && SpanAt(path', path, i', j', i, j)
    requires i' < m' <= j'
    ensures Cut(p, path, i, j, Elements(path'[..m']))
  {
    var w := Elements(path'[..m']);
    forall e, f | f in w && MustPrecede(p, path, e, f) ensures e in w {
      var k: nat :| k < m' && path'[k] == f;
      assert Comes(path', e, f);
      BeforeIsIn(path', e, k, m');
    }
    BeforeIsIn(path', path[i], i', m');
    if j < |path| {
      NotAfter(path', path[j], m', j');
    }
  }

  // Two orders the plan allows reorder each other.
  lemma AllowedPair(p: Problem, q: Path, path': Path, path: Path)
    requires Allowed(p, q, path) && Allowed(p, path', path)
    ensures Reorders(p, path', q)
  {
    forall e, f | Comes(q, e, f) && MutexFired(p, e, f) ensures Comes(path', e, f) {
      ComesIn(q, e, f);
      DistinctOrder(path, q, e, f);
      if Comes(path, f, e) {
        MutexSymmetric(p, Id(e), Id(f));
        assert MutexFired(p, f, e);
        assert Comes(q, f, e);
        Antisymmetric(q, e, f);
      }
    }
  }

  lemma Antisymmetric(q: Path, e: Fired, f: Fired)
    requires Distinct(q) && Comes(q, e, f)
    ensures !Comes(q, f, e)
  {
  }

  // Two events of a path come one before the other.
  lemma DistinctOrder(path: Path, q: Path, e: Fired, f: Fired)
    requires Distinct(q) && Comes(q, e, f) && e in path && f in path
    ensures Comes(path, e, f) || Comes(path, f, e)
  {
    var i :| 0 <= i < |path| && path[i] == e;
    var j :| 0 <= j < |path| && path[j] == f;
    assert e != f by {
      if e == f {
        NotTwice(q, e);
      }
    }
    if i < j {
      ComesAt(path, i, j);
    } else {
      ComesAt(path, j, i);
    }
  }

  lemma FirstPart(p: Problem, a: Path, b: Path, s: Assignment)
    requires IsPath(p, a) && IsPath(p, First(a, b))
    ensures First(a, b)[..|a|] == a && ValuesAt(p, First(a, b), |a|, s) == Exec(p, a, s)
  {
    assert First(a, b)[..|a|] == a;
  }

  /** What `c` reads after a cut is what it reads in any allowed order once exactly the
      same of its writers have fired. */
  lemma OnlyWritersCount(
    p: Problem, path': Path, path: Path, s: Assignment, c: Expr, w: set<Fired>, m': nat)
    requires IsPath(p, path) && Distinct(path) && Exec(p, path, s).Some? && Downward(p, path, w)
    requires Allowed(p, path', path) && m' <= |path'| && HoldsAfter(p, Only(path, w), s, c)
    requires forall e | e in path && Writer(p, e, c) :: e in w <==> e in path'[..m']
    ensures ValuesAt(p, path', m', s).Some? && Holds(p, c, ValuesAt(p, path', m', s).value)
  {
    var (a, b) := (Only(path, w), Others(path, w));
    var q := First(a, b);
    CutFirstIsAllowed(p, path, w);
    AllowedPair(p, q, path', path);
    OnlyMembers(path, w);
    FirstPart(p, a, b, s);
    Deorder(p, q, path, s);
    assert |a| <= |q| && forall e :: e in q <==> e in path;
    hide Only, Others, First, Distinct, Writer, Allowed, Downward, ValuesAt, Exec, KeepsPrecedence, Comes;
    SameWritersSameValue(p, c, path', q, m', |a|, s);
  }

  /** A durative condition holds over its span in every order the plan allows exactly
      when it holds after every cut of the span. */
  lemma DurativeExactly(p: Problem, path: Path, s: Assignment, c: Expr, i: nat, j: nat)
    requires IsPath(p, path) && Distinct(path) && Exec(p, path, s).Some? && Spans(p, path, c, i, j)
    ensures CutsHold(p, path, s, c, i, j) <==> AllOrdersHold(p, path, s, c, i, j)
  {
    SpanInside(p, path, c, i, j);
    hide Spans, Exec, Allowed, HoldsOver, CutsHold, Distinct;
    if CutsHold(p, path, s, c, i, j) {
      forall path', i': nat, j': nat | Allowed(p, path', path) && SpanAt(path', path, i', j', i, j)
        ensures IsPath(p, path') && HoldsOver(p, path', s, c, i', j')
      {
        AllowedIsPath(p, path', path);
        CutsSuffice(p, path', path, s, c, i', j', i, j);
      }
    }
    if AllOrdersHold(p, path, s, c, i, j) {
      CutsNeeded(p, path, s, c, i, j);
    }
  }

  lemma SpanInside(p: Problem, path: Path, c: Expr, i: nat, j: nat)
    requires IsPath(p, path) && Spans(p, path, c, i, j)
    ensures i < j <= |path|
  {
  }

  lemma CutsSuffice(
    p: Problem, path': Path, path: Path, s: Assignment, c: Expr, i': nat, j': nat, i: nat, j: nat)
    requires IsPath(p, path) && Distinct(path) && Exec(p, path, s).Some? && i < |path| && j <= |path|
    requires CutsHold(p, path, s, c, i, j) && Allowed(p, path', path) && SpanAt(path', path, i', j', i, j)
    ensures HoldsOver(p, path', s, c, i', j')
  {
    hide Exec, Allowed, Distinct, Holds, HoldsAfter, Only, ValuesAt;
    assert IsPath(p, path') by { AllowedIsPath(p, path', path); }
    forall m': nat | i' < m' <= j'
      ensures ValuesAt(p, path', m', s).Some? && Holds(p, c, ValuesAt(p, path', m', s).value)
    {
      var w := Elements(path'[..m']);
      PrefixIsCut(p, path', path, i', j', i, j, m');
      assert Downward(p, path, w);
      OnlyWritersCount(p, path', path, s, c, w, m');
    }
  }

  lemma AllowedIsPath(p: Problem, path': Path, path: Path)
    requires Allowed(p, path', path)
    ensures IsPath(p, path')
  {
  }

  lemma CutsNeeded(p: Problem, path: Path, s: Assignment, c: Expr, i: nat, j: nat)
    requires IsPath(p, path) && Distinct(path) && Exec(p, path, s).Some? && i < j <= |path|
    requires AllOrdersHold(p, path, s, c, i, j)
    ensures CutsHold(p, path, s, c, i, j)
  {
    hide Allowed, Distinct, Exec, Cut, HoldsAfter, Only, AllOrdersHold;
    forall w | Cut(p, path, i, j, w) ensures HoldsAfter(p, Only(path, w), s, c) {
      CutNeeded(p, path, s, c, i, j, w);
    }
  }

  lemma CutNeeded(p: Problem, path: Path, s: Assignment, c: Expr, i: nat, j: nat, w: set<Fired>)
    requires IsPath(p, path) && Distinct(path) && Exec(p, path, s).Some? && i < j <= |path|
    requires AllOrdersHold(p, path, s, c, i, j) && Cut(p, path, i, j, w)
    ensures HoldsAfter(p, Only(path, w), s, c)
  {
    var (a, b) := (Only(path, w), Others(path, w));
    var q := First(a, b);
    assert Downward(p, path, w);
    CutFirstIsAllowed(p, path, w);
    OnlyMembers(path, w);
    var i', j' := FirstSpan(path, a, b, w, i, j);
    AllowedIsPath(p, q, path);
    FirstPart(p, a, b, s);
    assert HoldsOver(p, q, s, c, i', j') && |a| <= |q|;
    hide Only, Others, First, Allowed, Distinct, Exec, Holds, SpanAt, Cut, ValuesAt, AllOrdersHold;
    assert ValuesAt(p, q, |a|, s).Some?;
  }

  // The span of the order that fires `a` first: it opens in `a` and closes after.
  lemma FirstSpan(path: Path, a: Path, b: Path, w: set<Fired>, i: nat, j: nat) returns (i': nat, j': nat)
    requires i < |path| && j <= |path| && path[i] in a && (j < |path| ==> path[j] in b)
    ensures SpanAt(First(a, b), path, i', j', i, j) && i' < |a| <= j' <= |First(a, b)|
  {
    i' := PositionOf(a, path[i]);
    assert First(a, b)[i'] == path[i];
    j' := |First(a, b)|;
    if j < |path| {
      var k := PositionOf(b, path[j]);
      j' := |a| + k;
      assert First(a, b)[j'] == path[j];
    }
  }

  /** Writers that are mutex with each other are enough, if the condition held on the
      path. */
  lemma WritersOrderedSuffice(p: Problem, path: Path, s: Assignment, c: Expr, i: nat, j: nat)
    requires IsPath(p, path) && Distinct(path) && Exec(p, path, s).Some? && Spans(p, path, c, i, j)
    requires WritersOrdered(p, path, c) && HoldsOver(p, path, s, c, i, j)
    ensures i < j <= |path| && CutsHold(p, path, s, c, i, j)
  {
    SpanInside(p, path, c, i, j);
    hide Spans, Exec, Distinct, HoldsOver, CutsHold, WritersOrdered;
    forall path', i': nat, j': nat | Allowed(p, path', path) && SpanAt(path', path, i', j', i, j)
      ensures IsPath(p, path') && HoldsOver(p, path', s, c, i', j')
    {
      DurativeHolds(p, c, path', path, i', j', i, j, s);
    }
    DurativeExactly(p, path, s, c, i, j);
  }
}
