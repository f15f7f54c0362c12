/**
 Durative conditions under reordering.  A plan also keeps the order of the pairs
 that `PrecedenceChecker` finds.  That protects a condition whose writers are
 mutex with each other.
*/
module DurativeDeordering {
  import opened Options
  import opened Expr
  import opened Temporal
  import opened Deordering

  ghost predicate PrecedenceFired(p: Problem, e: Fired, f: Fired) {
    IsEvent(p, Id(e)) && IsEvent(p, Id(f)) && Precedence(p, Id(e), Id(f))
  }

  /** The pairs that matter to each other's durative conditions keep their order. */
  ghost predicate KeepsPrecedence(p: Problem, path': Path, path: Path) {
    forall e, f | Comes(path, e, f) && PrecedenceFired(p, e, f) :: Comes(path', e, f)
  }

  ghost predicate Writer(p: Problem, e: Fired, c: Expr) {
    IsEvent(p, Id(e)) && !(EventWrites(p, Id(e)) !! Fluents(c))
  }

  /** The events that write what `c` reads are mutex with each other. */
  ghost predicate WritersOrdered(p: Problem, path: Path, c: Expr) {
    forall e, f | e in path && f in path && e != f && Writer(p, e, c) && Writer(p, f, c) :: MutexFired(p, e, f)
  }

  /** `c` is opened by the `i`-th event and closed by the `j`-th, if that exists. */
  ghost predicate Spans(p: Problem, path: Path, c: Expr, i: nat, j: nat)
    requires IsPath(p, path)
  {
    && i < j <= |path|
    && IsEvent(p, Id(path[i])) && c in EventOf(p, Id(path[i])).startConditions
    && (j < |path| ==> IsEvent(p, Id(path[j])) && c in EventOf(p, Id(path[j])).endConditions)
  }

  /** `c` holds after every event of the span but the last. */
  ghost predicate HoldsOver(p: Problem, path: Path, s: Assignment, c: Expr, i: nat, j: nat)
    requires IsPath(p, path) && j <= |path|
  {
    forall m | i < m <= j :: ValuesAt(p, path, m, s).Some? && Holds(p, c, ValuesAt(p, path, m, s).value)
  }

  // ---- a probe: an event that only reads `c` ----

  /** The problem with one more action, that checks `c` and does nothing. */
  function Probed(p: Problem, c: Expr): Problem {
    p.(actions := p.actions + [Action([Event(Timing(true, 0), c, [], [], [])], None)])
  }

  function Probe(p: Problem): Fired {
    (|p.actions|, 0, 0)
  }

  function WithProbe(p: Problem, path: Path, m: nat): Path
    requires m <= |path|
  {
    path[..m] + [Probe(p)] + path[m..]
  }

  lemma SameEvents(p: Problem, c: Expr, e: EventId)
    requires IsEvent(p, e)
    ensures IsEvent(Probed(p, c), e) && EventOf(Probed(p, c), e) == EventOf(p, e)
    ensures EventReads(Probed(p, c), e) == EventReads(p, e) && EventWrites(Probed(p, c), e) == EventWrites(p, e)
  {
  }

  lemma SameMutex(p: Problem, c: Expr, e: EventId, f: EventId)
    requires IsEvent(p, e) && IsEvent(p, f)
    ensures IsEvent(Probed(p, c), e) && IsEvent(Probed(p, c), f)
    ensures Mutex(Probed(p, c), e, f) <==> Mutex(p, e, f)
  {
    SameEvents(p, c, e);
    SameEvents(p, c, f);
    hide EventReads, EventWrites;
  }

  lemma {:induction false} ApplyProbed(p: Problem, c: Expr, effects: seq<Effect>, s: Assignment, acc: Assignment)
    ensures Apply(Probed(p, c), effects, s, acc) == Apply(p, effects, s, acc)
  {
    if effects != [] {
      var v := Eval(effects[0].value, s, p.functions);
      if v.Some? && effects[0].fluent < |acc| {
        ApplyProbed(p, c, effects[1..], s, acc[effects[0].fluent := v.value]);
      }
    }
  }

  lemma FireProbed(p: Problem, c: Expr, e: EventId, s: Assignment)
    requires IsEvent(p, e)
    ensures IsEvent(Probed(p, c), e) && FireOn(Probed(p, c), e, s) == FireOn(p, e, s)
  {
    ApplyProbed(p, c, EventOf(p, e).effects, s, s);
  }

  lemma {:induction false} ExecProbed(p: Problem, c: Expr, path: Path, s: Assignment)
    requires IsPath(p, path)
    ensures IsPath(Probed(p, c), path) && Exec(Probed(p, c), path, s) == Exec(p, path, s)
  {
    if path != [] {
      assert IsEvent(p, Id(path[0]));
      FireProbed(p, c, Id(path[0]), s);
      hide FireOn;
      if FireOn(p, Id(path[0]), s).Some? {
        ExecProbed(p, c, path[1..], FireOn(p, Id(path[0]), s).value);
      }
    }
    assert IsPath(Probed(p, c), path) by {
      assert forall i | 0 <= i < |path| :: IsEvent(p, (path[i].0, path[i].1));
    }
  }

  lemma {:induction false} ExecAppend(p: Problem, path: Path, rest: Path, s: Assignment)
    requires IsPath(p, path + rest) && IsPath(p, path) && IsPath(p, rest) && Exec(p, path, s).Some?
    ensures Exec(p, path + rest, s) == Exec(p, rest, Exec(p, path, s).value)
    decreases |path|
  {
    hide FireOn;
    if path == [] {
      assert path + rest == rest;
    } else {
      assert (path + rest)[1..] == path[1..] + rest;
      ExecAppend(p, path[1..], rest, FireOn(p, Id(path[0]), s).value);
    }
  }

  lemma FireProbe(p: Problem, c: Expr, s: Assignment)
    requires Holds(p, c, s)
    ensures IsEvent(Probed(p, c), Id(Probe(p))) && FireOn(Probed(p, c), Id(Probe(p)), s) == Some(s)
  {
    assert EventOf(Probed(p, c), Id(Probe(p))) == Event(Timing(true, 0), c, [], [], []);
  }

  lemma ProbedIsPath(p: Problem, c: Expr, path: Path, m: nat)
    requires IsPath(p, path) && m <= |path|
    ensures IsPath(Probed(p, c), WithProbe(p, path, m))
  {
    var q := WithProbe(p, path, m);
    forall i | 0 <= i < |q| ensures IsEvent(Probed(p, c), (q[i].0, q[i].1)) {
      assert q[i] == if i < m then path[i] else if i == m then Probe(p) else path[i - 1];
    }
  }

  /** Probing where `c` holds changes nothing. */
  lemma ExecWithProbe(p: Problem, c: Expr, path: Path, m: nat, s: Assignment)
    requires IsPath(p, path) && m <= |path| && Exec(p, path, s).Some?
    requires ValuesAt(p, path, m, s).Some? && Holds(p, c, ValuesAt(p, path, m, s).value)
    ensures IsPath(Probed(p, c), WithProbe(p, path, m))
    ensures Exec(Probed(p, c), WithProbe(p, path, m), s) == Exec(p, path, s)
  {
    var (pp, rest) := (Probed(p, c), [Probe(p)] + path[m..]);
    ProbedIsPath(p, c, path, m);
    ExecPrefix(p, path, m, s);
    var t := ValuesAt(p, path, m, s).value;
    ExecProbed(p, c, path[..m], s);
    assert rest[1..] == path[m..] && path[..m] + rest == WithProbe(p, path, m);
    SuffixIsPath(pp, path[..m], rest);
    hide FireOn, Probed, Probe, WithProbe, Exec;
    ExecFromProbe(p, c, path[m..], t);
    ExecAppend(pp, path[..m], rest, s);
  }

  lemma ExecFromProbe(p: Problem, c: Expr, path: Path, s: Assignment)
    requires IsPath(p, path) && Holds(p, c, s) && IsPath(Probed(p, c), [Probe(p)] + path)
    ensures Exec(Probed(p, c), [Probe(p)] + path, s) == Exec(p, path, s)
  {
    ExecProbed(p, c, path, s);
    FireProbe(p, c, s);
    hide FireOn, Probed, Probe;
    assert ([Probe(p)] + path)[1..] == path;
  }

  lemma SuffixIsPath(p: Problem, path: Path, rest: Path)
    requires IsPath(p, path + rest)
    ensures IsPath(p, path) && IsPath(p, rest)
  {
    assert forall i | 0 <= i < |path| :: path[i] == (path + rest)[i];
    assert forall i | 0 <= i < |rest| :: rest[i] == (path + rest)[|path| + i];
  }

  lemma InsertDistinct(path: Path, x: Fired, m: nat)
    requires m <= |path| && Distinct(path) && x !in path
    ensures Distinct(path[..m] + [x] + path[m..])
  {
    var q := path[..m] + [x] + path[m..];
    forall i, j | 0 <= i < j < |q| ensures q[i] != q[j] {
      var (i', j') := (if i < m then i else i - 1, if j < m then j else j - 1);
      assert i != m ==> q[i] == path[i'] && path[i'] in path;
      assert j != m ==> q[j] == path[j'] && path[j'] in path;
      assert i != m && j != m ==> path[i'] != path[j'];
    }
  }

  lemma ProbeIsNew(p: Problem, path: Path, m: nat)
    requires IsPath(p, path) && m <= |path| && Distinct(path)
    ensures Distinct(WithProbe(p, path, m)) && Without(WithProbe(p, path, m), m) == path && Probe(p) !in path
    ensures WithProbe(p, path, m)[m] == Probe(p)
    ensures forall e :: e in WithProbe(p, path, m) <==> e == Probe(p) || e in path
  {
    var (q, x) := (WithProbe(p, path, m), Probe(p));
    assert x !in path by {
      assert forall i | 0 <= i < |path| :: IsEvent(p, (path[i].0, path[i].1));
    }
    assert q == path[..m] + [x] + path[m..] && path == path[..m] + path[m..];
    InsertDistinct(path, x, m);
    hide WithProbe, IsPath, Probe, Distinct;
  }

  /** What comes before the probe, and what after. */
  lemma ProbeComes(p: Problem, path: Path, m: nat, e: Fired)
    requires IsPath(p, path) && m <= |path| && Distinct(path) && e in path
    ensures Comes(WithProbe(p, path, m), e, Probe(p)) <==> e in path[..m]
    ensures Comes(WithProbe(p, path, m), Probe(p), e) <==> e !in path[..m]
  {
    hide *;
    var (q, x) := (WithProbe(p, path, m), Probe(p));
    ProbeIsNew(p, path, m);
    var k := PositionOf(path, e);
    DistinctPrefix(path, m, k);
    ProbeAt(p, path, m, k);
    if k < m {
      NotBoth(q, e, x, k, m);
    } else {
      NotBoth(q, x, e, m, k + 1);
    }
  }

  lemma ProbeAt(p: Problem, path: Path, m: nat, k: nat)
    requires m <= |path| && k < |path|
    ensures |WithProbe(p, path, m)| == |path| + 1 && WithProbe(p, path, m)[m] == Probe(p)
    ensures path[k] == if k < m then WithProbe(p, path, m)[k] else WithProbe(p, path, m)[k + 1]
  {
  }

  lemma DistinctPrefix(path: Path, m: nat, k: nat)
    requires Distinct(path) && m <= |path| && k < |path|
    ensures path[k] in path[..m] <==> k < m
  {
    if k < m {
      assert path[..m][k] == path[k];
    }
  }

  lemma NotBoth(q: Path, e: Fired, f: Fired, i: nat, j: nat)
    requires Distinct(q) && i < j < |q| && q[i] == e && q[j] == f
    ensures Comes(q, e, f) && !Comes(q, f, e) && e != f
  {
  }

  lemma NotTwice(q: Path, e: Fired)
    requires Distinct(q)
    ensures !Comes(q, e, e)
  {
  }

  // What is mutex with the probe is what writes `c`.
  lemma ProbeMutex(p: Problem, c: Expr, e: Fired)
    requires IsEvent(p, Id(e))
    ensures MutexFired(Probed(p, c), e, Probe(p)) <==> Writer(p, e, c)
    ensures MutexFired(Probed(p, c), Probe(p), e) <==> Writer(p, e, c)
  {
    var x := Id(Probe(p));
    SameEvents(p, c, Id(e));
    assert EventOf(Probed(p, c), x) == Event(Timing(true, 0), c, [], [], []);
    assert EventReads(Probed(p, c), x) == Fluents(c);
    hide EventReads, Fluents;
  }

  /** Where the same writers of `c` have fired, probing fits both orders. */
  lemma ProbedReorders(p: Problem, c: Expr, path': Path, path: Path, m': nat, m: nat)
    requires IsPath(p, path') && IsPath(p, path) && Reorders(p, path', path) && m' <= |path'| && m <= |path|
    requires forall e | e in path && Writer(p, e, c) :: e in path[..m] <==> e in path'[..m']
    ensures IsPath(Probed(p, c), WithProbe(p, path', m')) && IsPath(Probed(p, c), WithProbe(p, path, m))
    ensures Reorders(Probed(p, c), WithProbe(p, path', m'), WithProbe(p, path, m))
  {
    ProbedIsPath(p, c, path', m');
    ProbedIsPath(p, c, path, m);
    ProbeIsNew(p, path', m');
    ProbeIsNew(p, path, m);
    var (pp, q', q, x) := (Probed(p, c), WithProbe(p, path', m'), WithProbe(p, path, m), Probe(p));
    hide Probed, Probe, WithProbe, Distinct, Writer, Without;
    forall e, f | Comes(q, e, f) && MutexFired(pp, e, f) ensures Comes(q', e, f) {
      ComesIn(q, e, f);
      ProbedPair(p, c, path', path, m', m, e, f);
    }
  }

  lemma ComesIn(q: Path, e: Fired, f: Fired)
    requires Comes(q, e, f)
    ensures e in q && f in q
  {
  }

  lemma ProbedPair(p: Problem, c: Expr, path': Path, path: Path, m': nat, m: nat, e: Fired, f: Fired)
    requires IsPath(p, path') && IsPath(p, path) && Reorders(p, path', path) && m' <= |path'| && m <= |path|
    requires forall w | w in path && Writer(p, w, c) :: w in path[..m] <==> w in path'[..m']
    requires Comes(WithProbe(p, path, m), e, f) && MutexFired(Probed(p, c), e, f)
    requires e in path || e == Probe(p)
    requires f in path || f == Probe(p)
    ensures Comes(WithProbe(p, path', m'), e, f)
  {
    ProbeIsNew(p, path', m');
    ProbeIsNew(p, path, m);
    var (q', q, x) := (WithProbe(p, path', m'), WithProbe(p, path, m), Probe(p));
    assert e in path ==> IsEvent(p, Id(e));
    assert f in path ==> IsEvent(p, Id(f));
    NotTwice(q, x);
    hide Probed, Probe, WithProbe, Distinct, Writer, Without, Comes, Mutex;
    if e == x {
      ProbeMutex(p, c, f);
      ProbeComes(p, path, m, f);
      ProbeComes(p, path', m', f);
    } else if f == x {
      ProbeMutex(p, c, e);
      ProbeComes(p, path, m, e);
      ProbeComes(p, path', m', e);
    } else {
      SameMutex(p, c, Id(e), Id(f));
      WithoutComes(q, m, e, f);
      WithoutComes(q', m', e, f);
    }
  }

  // What the probe reads.
  lemma ProbeValues(p: Problem, c: Expr, path: Path, m: nat, s: Assignment)
    requires IsPath(p, path) && m <= |path|
    ensures IsPath(Probed(p, c), WithProbe(p, path, m)) && |WithProbe(p, path, m)| == |path| + 1
    ensures WithProbe(p, path, m)[m] == Probe(p)
    ensures ValuesAt(Probed(p, c), WithProbe(p, path, m), m, s) == ValuesAt(p, path, m, s)
  {
    ProbedIsPath(p, c, path, m);
    assert WithProbe(p, path, m)[..m] == path[..m];
    hide Probed;
    SuffixIsPath(p, path[..m], path[m..]) by {
      assert path[..m] + path[m..] == path;
    }
    ExecProbed(p, c, path[..m], s);
  }

  lemma ProbeReads(p: Problem, c: Expr)
    ensures IsEvent(Probed(p, c), Id(Probe(p))) && EventReads(Probed(p, c), Id(Probe(p))) == Fluents(c)
  {
    assert EventOf(Probed(p, c), Id(Probe(p))) == Event(Timing(true, 0), c, [], [], []);
  }

  /** `c` reads the same where the same of its writers have fired. */
  lemma SameWritersSameValue(p: Problem, c: Expr, path': Path, path: Path, m': nat, m: nat, s: Assignment)
    requires IsPath(p, path') && IsPath(p, path) && Reorders(p, path', path) && m' <= |path'| && m <= |path|
    requires Exec(p, path, s).Some? && forall e | e in path && Writer(p, e, c) :: e in path[..m] <==> e in path'[..m']
    requires ValuesAt(p, path, m, s).Some? && Holds(p, c, ValuesAt(p, path, m, s).value)
    ensures ValuesAt(p, path', m', s).Some? && Holds(p, c, ValuesAt(p, path', m', s).value)
  {
    var (pp, q', q) := (Probed(p, c), WithProbe(p, path', m'), WithProbe(p, path, m));
    ProbedReorders(p, c, path', path, m', m);
    ExecWithProbe(p, c, path, m, s);
    ProbeValues(p, c, path, m, s);
    ProbeValues(p, c, path', m', s);
    ProbeReads(p, c);
    hide Reorders, Probed, Probe, WithProbe, EventReads, ValuesAt, Exec, Eval;
    Deorder(pp, q', q, s);
    assert q'[m'] == q[m];
    EvalReadsFluents(c, ValuesAt(p, path, m, s).value, ValuesAt(p, path', m', s).value, p.functions);
  }

  // ---- the matching point of the original path ----

  /** The position after the last of the first `k` events that writes `c` and
      is in `fired`; 0 when there is none. */
  ghost function LastWriter(p: Problem, path: Path, k: nat, fired: Path, c: Expr): (m: nat)
    requires k <= |path|
    ensures m <= k && (m > 0 ==> path[m - 1] in fired && Writer(p, path[m - 1], c))
    ensures forall i | m <= i < k :: !(path[i] in fired && Writer(p, path[i], c))
  {
    if k == 0 then 0
    else if path[k - 1] in fired && Writer(p, path[k - 1], c) then k
    else LastWriter(p, path, k - 1, fired, c)
  }

  lemma ComesAt(path: Path, i: nat, j: nat)
    requires i < j < |path|
    ensures Comes(path, path[i], path[j])
  {
  }

  // An event at or after position `j` is not in a prefix that ends before.
  lemma NotAfter(path: Path, e: Fired, m: nat, j: nat)
    requires Distinct(path) && m <= j < |path| && (e == path[j] || Comes(path, path[j], e))
    ensures e !in path[..m]
  {
    var i, k :| 0 <= i <= k < |path| && path[i] == path[j] && path[k] == e;
    assert i == j;
  }

  lemma BeforeIsIn(path: Path, e: Fired, k: nat, m: nat)
    requires Distinct(path) && k < m <= |path| && (Comes(path, e, path[k]) || e == path[k])
    ensures e in path[..m]
  {
    if e == path[k] {
      assert path[..m][k] == e;
    } else {
      var i, j :| 0 <= i < j < |path| && path[i] == e && path[j] == path[k];
      assert j == k;
      assert path[..m][i] == e;
    }
  }

  /** Whenever the reordered path is inside the span of `c`, the original one has
      fired the same writers of `c` at some point of its own span. */
  lemma MatchingPoint(
    p: Problem, c: Expr, path': Path, path: Path, i': nat, j': nat, i: nat, j: nat, m': nat) returns (m: nat)
    requires IsPath(p, path') && IsPath(p, path) && Reorders(p, path', path) && KeepsPrecedence(p, path', path)
    requires Spans(p, path, c, i, j) && WritersOrdered(p, path, c)
    requires i' < m' <= j' <= |path'| && path'[i'] == path[i]
    requires if j < |path| then j' < |path'| && path'[j'] == path[j] else j' == |path'|
    ensures i < m <= j
    ensures forall e | e in path && Writer(p, e, c) :: e in path[..m] <==> e in path'[..m']
  {
    var last := LastWriter(p, path, |path|, path'[..m'], c);
    m := if last > i + 1 then last else i + 1;
    LastInSpan(p, c, path', path, j', i, j, m');
    hide *;
    forall e | e in path && Writer(p, e, c) ensures e in path[..m] <==> e in path'[..m'] {
      MatchOne(p, c, path', path, i', i, j, m', last, m, e);
    }
  }

  lemma LastInSpan(p: Problem, c: Expr, path': Path, path: Path, j': nat, i: nat, j: nat, m': nat)
    requires IsPath(p, path') && IsPath(p, path) && Reorders(p, path', path) && KeepsPrecedence(p, path', path)
    requires Spans(p, path, c, i, j) && m' <= j' <= |path'|
    requires if j < |path| then j' < |path'| && path'[j'] == path[j] else j' == |path'|
    ensures LastWriter(p, path, |path|, path'[..m'], c) <= j && i < j <= |path|
  {
    var last := LastWriter(p, path, |path|, path'[..m'], c);
    hide LastWriter, Writer, Comes, Distinct, KeepsPrecedence, EventOf;
    assert Distinct(path) && Distinct(path');
    if last > j {
      NotFiredInSpan(p, c, path', path, j', j, m', last - 1);
    }
  }

  lemma MatchOne(
    p: Problem, c: Expr, path': Path, path: Path, i': nat, i: nat, j: nat, m': nat, last: nat, m: nat, e: Fired)
    requires IsPath(p, path') && IsPath(p, path) && Reorders(p, path', path) && KeepsPrecedence(p, path', path)
    requires Spans(p, path, c, i, j) && WritersOrdered(p, path, c) && e in path && Writer(p, e, c)
    requires i' < m' <= |path'| && path'[i'] == path[i] && last == LastWriter(p, path, |path|, path'[..m'], c)
    requires last <= |path| && m == (if last > i + 1 then last else i + 1)
    ensures m <= |path| && (e in path[..m] <==> e in path'[..m'])
  {
    assert Distinct(path);
    hide *;
    var k := PositionOf(path, e);
    SpanStart(p, path, c, i, j);
    WriterMatches(p, c, path', path, i', i, m', last, k);
    DistinctPrefix(path, m, k);
  }

  lemma SpanStart(p: Problem, path: Path, c: Expr, i: nat, j: nat)
    requires IsPath(p, path) && Spans(p, path, c, i, j)
    ensures i < |path| && IsEvent(p, Id(path[i])) && c in EventOf(p, Id(path[i])).startConditions
  {
  }

  lemma PositionOf(path: Path, e: Fired) returns (k: nat)
    requires e in path
    ensures k < |path| && path[k] == e
  {
    k :| 0 <= k < |path| && path[k] == e;
  }

  lemma WriterMatches(
    p: Problem, c: Expr, path': Path, path: Path, i': nat, i: nat, m': nat, last: nat, k: nat)
    requires IsPath(p, path') && IsPath(p, path) && Reorders(p, path', path) && KeepsPrecedence(p, path', path)
    requires WritersOrdered(p, path, c) && k < |path| && Writer(p, path[k], c)
    requires i < |path| && i' < m' <= |path'| && path'[i'] == path[i]
    requires IsEvent(p, Id(path[i])) && c in EventOf(p, Id(path[i])).startConditions
    requires last == LastWriter(p, path, |path|, path'[..m'], c)
    ensures k <= i || k < last <==> path[k] in path'[..m']
  {
    hide Distinct, Comes, Writer, MutexFired, PrecedenceFired;
    assert last <= k ==> path[k] !in path'[..m'];
    if k < i {
      WriterBeforeStart(p, c, path', path, i', i, m', k);
    } else if k == i {
      BeforeIsIn(path', path[k], i', m');
    } else if k < last {
      WriterBeforeWriter(p, c, path', path, m', k, last - 1);
    }
  }

  // A writer that comes at the end of the span or later has not fired in it.
  lemma NotFiredInSpan(p: Problem, c: Expr, path': Path, path: Path, j': nat, j: nat, m': nat, w: nat)
    requires IsPath(p, path) && Distinct(path') && KeepsPrecedence(p, path', path)
    requires j <= w < |path| && m' <= j' < |path'| && path'[j'] == path[j]
    requires IsEvent(p, Id(path[j])) && c in EventOf(p, Id(path[j])).endConditions && Writer(p, path[w], c)
    ensures path[w] !in path'[..m']
  {
    if j < w {
      ComesAt(path, j, w);
      MemberReads(EventOf(p, Id(path[j])).endConditions, c);
      assert PrecedenceFired(p, path[j], path[w]);
    }
    NotAfter(path', path[w], m', j');
  }

  lemma WriterBeforeStart(p: Problem, c: Expr, path': Path, path: Path, i': nat, i: nat, m': nat, k: nat)
    requires IsPath(p, path) && Distinct(path') && KeepsPrecedence(p, path', path)
    requires k < i < |path| && i' < m' <= |path'| && path'[i'] == path[i]
    requires IsEvent(p, Id(path[i])) && c in EventOf(p, Id(path[i])).startConditions && Writer(p, path[k], c)
    ensures path[k] in path'[..m']
  {
    ComesAt(path, k, i);
    MemberReads(EventOf(p, Id(path[i])).startConditions, c);
    assert PrecedenceFired(p, path[k], path[i]);
    BeforeIsIn(path', path[k], i', m');
  }

  lemma WriterBeforeWriter(p: Problem, c: Expr, path': Path, path: Path, m': nat, k: nat, w: nat)
    requires IsPath(p, path') && IsPath(p, path) && Reorders(p, path', path) && WritersOrdered(p, path, c)
    requires k <= w < |path| && m' <= |path'| && path[w] in path'[..m']
    requires Writer(p, path[k], c) && Writer(p, path[w], c)
    ensures path[k] in path'[..m']
  {
    if k < w {
      ComesAt(path, k, w);
      assert path[k] in path && path[w] in path && path[k] != path[w];
      assert MutexFired(p, path[k], path[w]);
      var n: nat :| n < m' && path'[n] == path[w];
      BeforeIsIn(path', path[k], n, m');
    }
  }

  /** A durative condition that held over its span holds over it in every order
      the plan allows, if the events that write it are mutex. */
  lemma DurativeHolds(
    p: Problem, c: Expr, path': Path, path: Path, i': nat, j': nat, i: nat, j: nat, s: Assignment)
    requires IsPath(p, path') && IsPath(p, path) && Reorders(p, path', path) && KeepsPrecedence(p, path', path)
    requires Exec(p, path, s).Some? && Spans(p, path, c, i, j) && HoldsOver(p, path, s, c, i, j)
    requires WritersOrdered(p, path, c)
    requires i' < j' <= |path'| && path'[i'] == path[i]
    requires if j < |path| then j' < |path'| && path'[j'] == path[j] else j' == |path'|
    ensures HoldsOver(p, path', s, c, i', j')
  {
    forall m': nat | i' < m' <= j'
      ensures ValuesAt(p, path', m', s).Some? && Holds(p, c, ValuesAt(p, path', m', s).value)
    {
      var m := MatchingPoint(p, c, path', path, i', j', i, j, m');
      SameWritersSameValue(p, c, path', path, m', m, s);
    }
  }
}
