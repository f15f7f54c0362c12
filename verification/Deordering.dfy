/**
 Deordering is sound: reordering the events of a path, but for the mutex pairs,
 changes nothing any event reads, and not the values it ends with.  This is why a
 plan may leave the other pairs unordered.
*/
module Deordering {
  import opened Options
  import opened Expr
  import opened Temporal

  type Fired = (nat, nat, nat)

  /** What one event makes of the values: None unless its condition holds, its
      effects are defined and, opening an action, its duration bounds are. */
  function FireOn(p: Problem, e: EventId, s: Assignment): Option<Assignment>
    requires IsEvent(p, e)
  {
    if !Holds(p, EventOf(p, e).condition, s) then None
    else if e.1 == 0 && DurationBounds(p, e.0, s).None? then None
    else Apply(p, EventOf(p, e).effects, s, s)
  }

  /** The values after the events of `path`, fired from `s`. */
  function Exec(p: Problem, path: Path, s: Assignment): Option<Assignment>
    requires IsPath(p, path)
  {
    if path == [] then Some(s) else
      assert IsEvent(p, (path[0].0, path[0].1));
      match FireOn(p, Id(path[0]), s)
      case None => None
      case Some(s') => Exec(p, path[1..], s')
  }

  /** Each event is fired once, and the mutex ones in the same order. */
  ghost predicate Reorders(p: Problem, path': Path, path: Path)
    requires IsPath(p, path') && IsPath(p, path)
  {
    && Distinct(path) && Distinct(path')
    && (forall e :: e in path' <==> e in path)
    && forall e, f | Comes(path, e, f) && MutexFired(p, e, f) :: Comes(path', e, f)
  }

  ghost predicate Distinct(path: Path) {
    forall i, j | 0 <= i < j < |path| :: path[i] != path[j]
  }

  // `e` comes before `f`.
  ghost predicate Comes(path: Path, e: Fired, f: Fired) {
    exists i, j :: 0 <= i < j < |path| && path[i] == e && path[j] == f
  }

  ghost predicate MutexFired(p: Problem, e: Fired, f: Fired) {
    IsEvent(p, Id(e)) && IsEvent(p, Id(f)) && Mutex(p, Id(e), Id(f))
  }

  // ---- what effects change ----

  lemma {:induction false} ApplyFrame(p: Problem, effects: seq<Effect>, s: Assignment, acc: Assignment)
    requires Apply(p, effects, s, acc).Some?
    ensures |Apply(p, effects, s, acc).value| == |acc|
    ensures forall f: nat | f < |acc| && f !in Writes(effects) :: Apply(p, effects, s, acc).value[f] == acc[f]
  {
    if effects != [] {
      var v := Eval(effects[0].value, s, p.functions).value;
      ApplyFrame(p, effects[1..], s, acc[effects[0].fluent := v]);
    }
  }

  /** Effects write the same values wherever what they read is the same. */
  lemma {:induction false} ApplySame(
    p: Problem, effects: seq<Effect>, s: Assignment, t: Assignment, acc: Assignment, bcc: Assignment)
    requires Apply(p, effects, s, acc).Some? && Agree(s, t, EffectReads(effects)) && |acc| == |bcc|
    ensures Apply(p, effects, t, bcc).Some?
    ensures |Apply(p, effects, t, bcc).value| == |Apply(p, effects, s, acc).value| == |acc|
    ensures forall f: nat | f < |acc| && (f in Writes(effects) || acc[f] == bcc[f]) ::
              Apply(p, effects, t, bcc).value[f] == Apply(p, effects, s, acc).value[f]
  {
    if effects != [] {
      EvalReadsFluents(effects[0].value, s, t, p.functions);
      var v := Eval(effects[0].value, s, p.functions).value;
      var g := effects[0].fluent;
      ApplySame(p, effects[1..], s, t, acc[g := v], bcc[g := v]);
    }
  }

  /** The bounds are the same where what they read is. */
  lemma BoundsSame(p: Problem, a: nat, s: Assignment, t: Assignment)
    requires a < |p.actions| && Agree(s, t, DurationReads(p.actions[a].duration))
    ensures DurationBounds(p, a, s) == DurationBounds(p, a, t)
  {
    var d := p.actions[a].duration;
    if d.Some? {
      EvalReadsFluents(d.value.lower, s, t, p.functions);
      EvalReadsFluents(d.value.upper, s, t, p.functions);
    }
  }

  /** An event does the same wherever what it reads is the same. */
  lemma FireSame(p: Problem, e: EventId, s: Assignment, t: Assignment)
    requires IsEvent(p, e) && FireOn(p, e, s).Some? && Agree(s, t, EventReads(p, e)) && |s| == |t|
    ensures FireOn(p, e, t).Some?
    ensures |FireOn(p, e, t).value| == |FireOn(p, e, s).value| == |s|
    ensures forall f: nat | f < |s| && (f in EventWrites(p, e) || s[f] == t[f]) ::
              FireOn(p, e, t).value[f] == FireOn(p, e, s).value[f]
    ensures forall f: nat | f < |s| && f !in EventWrites(p, e) :: FireOn(p, e, s).value[f] == s[f]
  {
    var ev := EventOf(p, e);
    EvalReadsFluents(ev.condition, s, t, p.functions);
    if e.1 == 0 {
      BoundsSame(p, e.0, s, t);
    }
    hide DurationBounds, Eval, Fluents;
    ApplySame(p, ev.effects, s, t, s, t);
    ApplyFrame(p, ev.effects, s, s);
  }

  lemma MutexSymmetric(p: Problem, e: EventId, f: EventId)
    requires IsEvent(p, e) && IsEvent(p, f)
    ensures Mutex(p, e, f) <==> Mutex(p, f, e)
  {
    hide EventReads, EventWrites;
  }

  /** Two events that are not mutex commute, and read the same either way. */
  lemma Commute(p: Problem, x: EventId, y: EventId, s: Assignment)
    requires IsEvent(p, x) && IsEvent(p, y) && !Mutex(p, x, y)
    requires FireOn(p, y, s).Some? && FireOn(p, x, FireOn(p, y, s).value).Some?
    ensures FireOn(p, x, s).Some?
    ensures FireOn(p, y, FireOn(p, x, s).value) == FireOn(p, x, FireOn(p, y, s).value)
    ensures Agree(FireOn(p, y, s).value, s, EventReads(p, x)) && Agree(s, FireOn(p, x, s).value, EventReads(p, y))
  {
    hide FireOn, EventReads, EventWrites;
    var s1 := FireOn(p, y, s).value;
    FireSame(p, y, s, s);
    assert Agree(s1, s, EventReads(p, x));
    FireSame(p, x, s1, s);
    var t1 := FireOn(p, x, s).value;
    FireSame(p, x, s, s);
    assert Agree(s, t1, EventReads(p, y));
    FireSame(p, y, s, t1);
    FireSame(p, y, t1, t1);
    var (s2, t2) := (FireOn(p, x, s1).value, FireOn(p, y, t1).value);
    assert |s2| == |t2|;
    forall f: nat | f < |s2| ensures s2[f] == t2[f] {
    }
    assert s2 == t2;
  }

  // ---- moving one event to the front ----

  // The events before position `k`, and the values there.
  lemma {:induction false} ExecPrefix(p: Problem, path: Path, k: nat, s: Assignment)
    requires IsPath(p, path) && k <= |path| && Exec(p, path, s).Some?
    ensures IsPath(p, path[..k]) && IsPath(p, path[k..]) && Exec(p, path[..k], s).Some?
    ensures Exec(p, path[k..], Exec(p, path[..k], s).value) == Exec(p, path, s)
    decreases |path|
  {
    hide FireOn;
    if k == 0 {
      assert path[..0] == [] && path[0..] == path;
    } else {
      assert path[..k][1..] == path[1..][..k - 1] && path[1..][k - 1..] == path[k..];
      ExecPrefix(p, path[1..], k - 1, FireOn(p, Id(path[0]), s).value);
    }
  }

  /** The values `path` reads at position `k`. */
  function ValuesAt(p: Problem, path: Path, k: nat, s: Assignment): Option<Assignment>
    requires IsPath(p, path) && k <= |path|
  {
    Exec(p, path[..k], s)
  }

  // The `i`-th event taken out, and put in front.
  function Without(path: Path, i: nat): Path
    requires i < |path|
  {
    path[..i] + path[i + 1..]
  }

  function ToFront(path: Path, i: nat): Path
    requires i < |path|
  {
    [path[i]] + Without(path, i)
  }

  /** What position `k` becomes when the `i`-th event moves to the front. */
  function Moved(i: nat, k: nat): nat {
    if k == i then 0 else if k < i then k + 1 else k
  }

  // Every event reads the same once the `i`-th has moved to the front.
  ghost predicate ReadsSame(p: Problem, path: Path, i: nat, s: Assignment)
    requires IsPath(p, path) && i < |path| && IsPath(p, ToFront(path, i))
  {
    forall k | 0 <= k < |path| ::
      && IsEvent(p, Id(path[k]))
      && ValuesAt(p, path, k, s).Some? && ValuesAt(p, ToFront(path, i), Moved(i, k), s).Some?
      && Agree(ValuesAt(p, path, k, s).value, ValuesAt(p, ToFront(path, i), Moved(i, k), s).value,
               EventReads(p, Id(path[k])))
  }

  ghost predicate FreeOf(p: Problem, path: Path, i: nat)
    requires i < |path|
  {
    forall j | 0 <= j < i :: IsEvent(p, Id(path[i])) && IsEvent(p, Id(path[j])) && !Mutex(p, Id(path[i]), Id(path[j]))
  }

  // Two events in front that are not mutex change places.
  lemma SwapFront(p: Problem, x: Fired, y: Fired, q: Path, s: Assignment)
    requires IsPath(p, [x, y] + q) && IsPath(p, [y, x] + q) && IsEvent(p, Id(x)) && IsEvent(p, Id(y))
    requires !Mutex(p, Id(x), Id(y))
    requires FireOn(p, Id(y), s).Some? && FireOn(p, Id(x), FireOn(p, Id(y), s).value).Some?
    ensures Exec(p, [x, y] + q, s) == Exec(p, [y, x] + q, s)
  {
    Commute(p, Id(x), Id(y), s);
    hide FireOn, Mutex;
    assert ([x, y] + q)[1..] == [y] + q && ([y, x] + q)[1..] == [x] + q;
    assert ([y] + q)[1..] == q && ([x] + q)[1..] == q;
  }

  // What an event after the first reads, when the others have moved.
  lemma ReadsSameLater(p: Problem, path: Path, i: nat, s: Assignment, k: nat)
    requires IsPath(p, path) && 0 < i < |path| && 0 < k < |path| && k != i && IsPath(p, ToFront(path, i))
    requires FireOn(p, Id(path[0]), s).Some? && IsPath(p, path[1..]) && IsPath(p, ToFront(path[1..], i - 1))
    requires FireOn(p, Id(path[i]), FireOn(p, Id(path[0]), s).value).Some? && !Mutex(p, Id(path[i]), Id(path[0]))
    ensures ValuesAt(p, path, k, s) == ValuesAt(p, path[1..], k - 1, FireOn(p, Id(path[0]), s).value)
    ensures ValuesAt(p, ToFront(path, i), Moved(i, k), s)
         == ValuesAt(p, ToFront(path[1..], i - 1), Moved(i - 1, k - 1), FireOn(p, Id(path[0]), s).value)
  {
    var (y, x, rest) := (path[0], path[i], path[1..]);
    hide FireOn, Mutex;
    assert path[..k][1..] == rest[..k - 1] && path[..k][0] == y;
    var m := Moved(i - 1, k - 1);
    var q := Without(rest, i - 1)[..m - 1];
    assert ToFront(rest, i - 1)[..m] == [x] + q;
    assert ToFront(path, i)[..m + 1] == [x, y] + q;
    PrefixIsPath(p, ToFront(path, i), m + 1);
    SwappedIsPath(p, x, y, q);
    SwapFront(p, x, y, q, s);
    assert ([y, x] + q)[1..] == [x] + q;
  }

  lemma PrefixIsPath(p: Problem, path: Path, m: nat)
    requires IsPath(p, path) && m <= |path|
    ensures IsPath(p, path[..m])
  {
  }

  lemma SwappedIsPath(p: Problem, x: Fired, y: Fired, q: Path)
    requires IsPath(p, [x, y] + q)
    ensures IsPath(p, [y, x] + q) && IsEvent(p, Id(x)) && IsEvent(p, Id(y)) && IsPath(p, q) && IsPath(p, [x] + q)
  {
    assert ([x, y] + q)[0] == x && ([x, y] + q)[1] == y;
    forall j | 0 <= j < |q| ensures IsEvent(p, (q[j].0, q[j].1)) {
      assert ([x, y] + q)[j + 2] == q[j];
    }
  }

  lemma {:induction false} MoveToFront(p: Problem, path: Path, i: nat, s: Assignment)
    requires IsPath(p, path) && i < |path| && FreeOf(p, path, i) && Exec(p, path, s).Some?
    ensures IsPath(p, ToFront(path, i)) && Exec(p, ToFront(path, i), s) == Exec(p, path, s)
    ensures ReadsSame(p, path, i, s)
    decreases i
  {
    IsPathToFront(p, path, i);
    if i == 0 {
      FrontIsFront(p, path, s);
    } else {
      var (y, x, rest) := (path[0], path[i], path[1..]);
      var s1 := FireOn(p, Id(y), s).value;
      assert rest[i - 1] == x;
      hide FireOn, Mutex, EventReads, ReadsSame;
      MoveToFront(p, rest, i - 1, s1);
      FrontStep(p, path, i, s, s1);
      MovedReadsSame(p, path, i, s, s1);
    }
  }

  lemma FrontIsFront(p: Problem, path: Path, s: Assignment)
    requires IsPath(p, path) && path != [] && Exec(p, path, s).Some?
    ensures ToFront(path, 0) == path && ReadsSame(p, path, 0, s)
  {
    assert ToFront(path, 0) == path;
    hide FireOn, EventReads, Exec, ToFront, ValuesAt;
    forall k | 0 <= k < |path|
      ensures IsEvent(p, Id(path[k])) && ValuesAt(p, path, k, s).Some? && Moved(0, k) == k
    {
      PrefixHasValues(p, path, k, s);
    }
  }

  lemma PrefixHasValues(p: Problem, path: Path, k: nat, s: Assignment)
    requires IsPath(p, path) && k < |path| && Exec(p, path, s).Some?
    ensures IsEvent(p, Id(path[k])) && ValuesAt(p, path, k, s).Some?
  {
    ExecPrefix(p, path, k, s);
  }

  // The event moved to second place changes places with the first.
  lemma FrontStep(p: Problem, path: Path, i: nat, s: Assignment, s1: Assignment)
    requires IsPath(p, path) && 0 < i < |path| && IsPath(p, ToFront(path, i)) && IsPath(p, ToFront(path[1..], i - 1))
    requires FireOn(p, Id(path[0]), s) == Some(s1) && !Mutex(p, Id(path[i]), Id(path[0]))
    requires Exec(p, ToFront(path[1..], i - 1), s1).Some?
    ensures FireOn(p, Id(path[i]), s1).Some?
    ensures Exec(p, ToFront(path, i), s) == Exec(p, ToFront(path[1..], i - 1), s1)
  {
    var (y, x, rest) := (path[0], path[i], path[1..]);
    var q := Without(rest, i - 1);
    assert ToFront(rest, i - 1) == [x] + q && ([x] + q)[1..] == q;
    assert ToFront(path, i) == [x, y] + q && ([y, x] + q)[1..] == [x] + q;
    assert IsPath(p, [y, x] + q) by {
      assert forall j | 0 < j < |[y, x] + q| :: ([y, x] + q)[j] == ([x] + q)[j - 1];
    }
    hide FireOn, Mutex;
    SwapFront(p, x, y, q, s);
  }

  // `ReadsSame` for a path, from that for all but its first event.
  lemma MovedReadsSame(p: Problem, path: Path, i: nat, s: Assignment, s1: Assignment)
    requires IsPath(p, path) && 0 < i < |path| && IsPath(p, ToFront(path, i))
    requires FireOn(p, Id(path[0]), s) == Some(s1) && FireOn(p, Id(path[i]), s1).Some?
    requires IsPath(p, path[1..]) && IsPath(p, ToFront(path[1..], i - 1)) && ReadsSame(p, path[1..], i - 1, s1)
    requires !Mutex(p, Id(path[i]), Id(path[0]))
    ensures ReadsSame(p, path, i, s)
  {
    var (y, x, rest) := (path[0], path[i], path[1..]);
    Commute(p, Id(x), Id(y), s);
    hide FireOn, Mutex, EventReads;
    forall k | 0 <= k < |path|
      ensures IsEvent(p, Id(path[k]))
      ensures ValuesAt(p, path, k, s).Some? && ValuesAt(p, ToFront(path, i), Moved(i, k), s).Some?
      ensures Agree(ValuesAt(p, path, k, s).value, ValuesAt(p, ToFront(path, i), Moved(i, k), s).value,
                    EventReads(p, Id(path[k])))
    {
      if k == 0 {
        assert path[..0] == [];
        assert ToFront(path, i)[..1] == [x];
        assert Exec(p, [x], s) == FireOn(p, Id(x), s);
      } else {
        assert rest[k - 1] == path[k];
        if k == i {
          assert path[..k][1..] == rest[..k - 1] && path[..k][0] == y;
          assert ToFront(rest, i - 1)[..0] == [] && ToFront(path, i)[..0] == [];
        } else {
          ReadsSameLater(p, path, i, s, k);
        }
      }
    }
  }

  lemma IsPathToFront(p: Problem, path: Path, i: nat)
    requires IsPath(p, path) && i < |path|
    ensures IsPath(p, ToFront(path, i)) && IsPath(p, Without(path, i))
  {
  }

  // ---- any reordering ----

  /** Every event reads the same values in both orders. */
  ghost predicate SeesSame(p: Problem, path': Path, path: Path, s: Assignment)
    requires IsPath(p, path') && IsPath(p, path)
  {
    forall k', k | 0 <= k' < |path'| && 0 <= k < |path| && path'[k'] == path[k] ::
      && IsEvent(p, Id(path[k]))
      && ValuesAt(p, path, k, s).Some? && ValuesAt(p, path', k', s).Some?
      && Agree(ValuesAt(p, path, k, s).value, ValuesAt(p, path', k', s).value, EventReads(p, Id(path[k])))
  }

  // Nothing before the `i`-th event keeps it from being the first.
  lemma FirstIsFree(p: Problem, path': Path, path: Path, i: nat)
    requires IsPath(p, path') && IsPath(p, path) && Reorders(p, path', path)
    requires path' != [] && i < |path| && path[i] == path'[0]
    ensures FreeOf(p, path, i)
  {
    hide EventReads, EventWrites;
    assert IsEvent(p, Id(path[i]));
    forall j | 0 <= j < i
      ensures IsEvent(p, Id(path[i])) && IsEvent(p, Id(path[j])) && !Mutex(p, Id(path[i]), Id(path[j]))
    {
      MutexSymmetric(p, Id(path[i]), Id(path[j]));
      assert Mutex(p, Id(path[j]), Id(path[i])) ==> MutexFired(p, path[j], path[i]);
      assert Comes(path, path[j], path[i]);
      NothingBeforeFirst(path', path[j]);
    }
  }

  lemma NothingBeforeFirst(path: Path, e: Fired)
    requires path != [] && Distinct(path)
    ensures !Comes(path, e, path[0])
  {
  }

  // Where the events of `Without(path, i)` are in `path`, and back.
  function Put(i: nat, k: nat): nat {
    if k < i then k else k + 1
  }

  function Take(i: nat, k: nat): nat
    requires k != i
  {
    if k < i then k else k - 1
  }

  lemma PutAt(path: Path, i: nat, k: nat)
    requires i < |path| && k < |path| - 1
    ensures |Without(path, i)| == |path| - 1 && Without(path, i)[k] == path[Put(i, k)]
  {
  }

  lemma TakeAt(path: Path, i: nat, k: nat)
    requires i < |path| && k < |path| && k != i
    ensures |Without(path, i)| == |path| - 1 && Take(i, k) < |path| - 1 && path[k] == Without(path, i)[Take(i, k)]
  {
  }

  lemma WithoutDistinct(path: Path, i: nat)
    requires i < |path| && Distinct(path)
    ensures Distinct(Without(path, i))
    ensures forall e :: e in Without(path, i) <==> e in path && e != path[i]
  {
    var q := Without(path, i);
    assert |q| == |path| - 1;
    hide Without;
    forall j, k | 0 <= j < k < |q| ensures q[j] != q[k] {
      PutAt(path, i, j);
      PutAt(path, i, k);
    }
    forall e ensures e in q <==> e in path && e != path[i] {
      if e in q {
        var k :| 0 <= k < |q| && q[k] == e;
        PutAt(path, i, k);
      }
      if e in path && e != path[i] {
        var k :| 0 <= k < |path| && path[k] == e;
        TakeAt(path, i, k);
      }
    }
  }

  lemma WithoutComes(path: Path, i: nat, e: Fired, f: Fired)
    requires i < |path| && Distinct(path)
    ensures Comes(Without(path, i), e, f) <==> Comes(path, e, f) && e != path[i] && f != path[i]
  {
    var q := Without(path, i);
    assert |q| == |path| - 1;
    hide Without;
    if Comes(path, e, f) && e != path[i] && f != path[i] {
      var j, k :| 0 <= j < k < |path| && path[j] == e && path[k] == f;
      TakeAt(path, i, j);
      TakeAt(path, i, k);
    }
    if Comes(q, e, f) {
      var j, k :| 0 <= j < k < |q| && q[j] == e && q[k] == f;
      PutAt(path, i, j);
      PutAt(path, i, k);
    }
  }

  /** What is left after taking out the first event is still a reordering. */
  lemma RestReorders(p: Problem, path': Path, path: Path, i: nat)
    requires IsPath(p, path') && IsPath(p, path) && Reorders(p, path', path)
    requires path' != [] && i < |path| && path[i] == path'[0]
    ensures IsPath(p, path'[1..]) && IsPath(p, Without(path, i)) && Reorders(p, path'[1..], Without(path, i))
  {
    assert Without(path', 0) == path'[1..];
    IsPathToFront(p, path, i);
    WithoutDistinct(path, i);
    WithoutDistinct(path', 0);
    hide MutexFired, Comes;
    forall e, f | Comes(Without(path, i), e, f) && MutexFired(p, e, f) ensures Comes(path'[1..], e, f) {
      WithoutComes(path, i, e, f);
      WithoutComes(path', 0, e, f);
    }
  }

  // The values along a path whose first event has been fired.
  lemma ValuesAfterFirst(p: Problem, path: Path, k: nat, s: Assignment)
    requires IsPath(p, path) && 0 < k <= |path| && FireOn(p, Id(path[0]), s).Some?
    ensures IsPath(p, path[1..])
    ensures ValuesAt(p, path, k, s) == ValuesAt(p, path[1..], k - 1, FireOn(p, Id(path[0]), s).value)
  {
    hide FireOn;
    assert path[..k][1..] == path[1..][..k - 1] && path[..k][0] == path[0];
  }

  lemma AgreeTransitive(s: Assignment, t: Assignment, u: Assignment, fls: set<nat>)
    requires Agree(s, t, fls) && Agree(t, u, fls)
    ensures Agree(s, u, fls)
  {
  }

  lemma SeesSameStep(p: Problem, path': Path, path: Path, i: nat, s: Assignment, s1: Assignment, k': nat, k: nat)
    requires IsPath(p, path') && IsPath(p, path) && Distinct(path') && Distinct(path)
    requires path' != [] && i < |path| && path[i] == path'[0] && FireOn(p, Id(path'[0]), s) == Some(s1)
    requires IsPath(p, ToFront(path, i)) && ReadsSame(p, path, i, s)
    requires IsPath(p, path'[1..]) && IsPath(p, Without(path, i)) && SeesSame(p, path'[1..], Without(path, i), s1)
    requires k' < |path'| && k < |path| && path'[k'] == path[k]
    ensures IsEvent(p, Id(path[k])) && ValuesAt(p, path, k, s).Some? && ValuesAt(p, path', k', s).Some?
    ensures Agree(ValuesAt(p, path, k, s).value, ValuesAt(p, path', k', s).value, EventReads(p, Id(path[k])))
  {
    hide FireOn, EventReads, Agree;
    if k' == 0 {
      assert path'[..0] == [] && ToFront(path, i)[..0] == [];
      assert Moved(i, k) == 0;
    } else {
      var (q, m) := (Without(path, i), Moved(i, k));
      assert k != i;
      assert ToFront(path, i)[1..] == q && ToFront(path, i)[0] == path[i];
      ValuesAfterFirst(p, ToFront(path, i), m, s);
      ValuesAfterFirst(p, path', k', s);
      assert path'[1..][k' - 1] == q[m - 1] == path[k];
      AgreeTransitive(ValuesAt(p, path, k, s).value, ValuesAt(p, ToFront(path, i), m, s).value,
                      ValuesAt(p, path', k', s).value, EventReads(p, Id(path[k])));
    }
  }

  lemma NothingInEmpty(path: Path)
    ensures path == [] || exists e :: e in path
  {
    if path != [] {
      assert path[0] in path;
    }
  }

  /** Deordering is sound. */
  lemma {:induction false} Deorder(p: Problem, path': Path, path: Path, s: Assignment)
    requires IsPath(p, path') && IsPath(p, path) && Reorders(p, path', path) && Exec(p, path, s).Some?
    ensures Exec(p, path', s) == Exec(p, path, s)
    ensures SeesSame(p, path', path, s)
    decreases |path'|
  {
    if path' == [] {
      NothingInEmpty(path);
    } else {
      var x := path'[0];
      assert x in path';
      var i: nat :| i < |path| && path[i] == x;
      FirstIsFree(p, path', path, i);
      RestReorders(p, path', path, i);
      IsPathToFront(p, path, i);
      hide FireOn, Mutex, EventReads, Reorders, ReadsSame, SeesSame;
      MoveToFront(p, path, i, s);
      assert ToFront(path, i)[1..] == Without(path, i) && ToFront(path, i)[0] == x;
      var s1 := FireOn(p, Id(x), s).value;
      Deorder(p, path'[1..], Without(path, i), s1);
      SeesSameAll(p, path', path, i, s, s1);
    }
  }

  lemma SeesSameAll(p: Problem, path': Path, path: Path, i: nat, s: Assignment, s1: Assignment)
    requires IsPath(p, path') && IsPath(p, path) && Reorders(p, path', path)
    requires path' != [] && i < |path| && path[i] == path'[0] && FireOn(p, Id(path'[0]), s) == Some(s1)
    requires IsPath(p, ToFront(path, i)) && ReadsSame(p, path, i, s)
    requires IsPath(p, path'[1..]) && IsPath(p, Without(path, i)) && SeesSame(p, path'[1..], Without(path, i), s1)
    ensures SeesSame(p, path', path, s)
  {
    hide FireOn, EventReads, Agree, ReadsSame;
    forall k', k | 0 <= k' < |path'| && 0 <= k < |path| && path'[k'] == path[k]
      ensures IsEvent(p, Id(path[k])) && ValuesAt(p, path, k, s).Some? && ValuesAt(p, path', k', s).Some?
      ensures Agree(ValuesAt(p, path, k, s).value, ValuesAt(p, path', k', s).value, EventReads(p, Id(path[k])))
    {
      SeesSameStep(p, path', path, i, s, s1, k', k);
    }
  }

  /** So conditions, duration bounds and the values effects write are what they
      were on the path. */
  lemma DeorderedEvaluates(p: Problem, path': Path, path: Path, s: Assignment, k': nat, k: nat)
    requires IsPath(p, path') && IsPath(p, path) && Reorders(p, path', path) && Exec(p, path, s).Some?
    requires k' < |path'| && k < |path| && path'[k'] == path[k]
    ensures ValuesAt(p, path, k, s).Some? && ValuesAt(p, path', k', s).Some? && IsEvent(p, Id(path[k]))
    ensures var (t, t', e) := (ValuesAt(p, path, k, s).value, ValuesAt(p, path', k', s).value, Id(path[k]));
      && Eval(EventOf(p, e).condition, t, p.functions) == Eval(EventOf(p, e).condition, t', p.functions)
      && (e.1 == 0 ==> DurationBounds(p, e.0, t) == DurationBounds(p, e.0, t'))
      && forall eff | eff in EventOf(p, e).effects ::
           Eval(eff.value, t, p.functions) == Eval(eff.value, t', p.functions)
  {
    Deorder(p, path', path, s);
    var (t, t', e) := (ValuesAt(p, path, k, s).value, ValuesAt(p, path', k', s).value, Id(path[k]));
    EvalReadsFluents(EventOf(p, e).condition, t, t', p.functions);
    if e.1 == 0 {
      BoundsSame(p, e.0, t, t');
    }
    forall eff | eff in EventOf(p, e).effects
      ensures Eval(eff.value, t, p.functions) == Eval(eff.value, t', p.functions)
    {
      EffectReadsValue(EventOf(p, e).effects, eff);
      EvalReadsFluents(eff.value, t, t', p.functions);
    }
  }
}
