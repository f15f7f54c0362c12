/**
 Novelty of a state over a catalogue of subgoals, and the tables it updates, defined
 on all subgoals at once; and the passes that update the tables.
*/
module NoveltyTables {
  import opened Collections
  import opened Options
  import opened Expr
  import opened Sdist

  /** A subgoal: a proposition, or a comparison of numbers. */
  datatype Leaf = Prop(e: Expr) | Num(l: Expr, r: Expr, kind: Kind)

  /** Whether a subgoal is satisfied in a state, and its distance there; 0 for a
      proposition. */
  datatype Feature = Feature(sat: bool, dist: real)

  function FeatureOf(fs: Functions, leaf: Leaf, s: Assignment): Option<Feature> {
    match leaf
    case Prop(e) => var v := Eval(e, s, fs); if v.None? then None else Some(Feature(v.value == TRUE, 0.0))
    case Num(l, r, kind) =>
      match (Eval(l, s, fs), Eval(r, s, fs))
      case (Some(NumV(a)), Some(NumV(b))) => Some(Feature(Satisfied(kind, a, b), DistanceOf(kind, a, b)))
      case _ => None
  }

  function Reads(leaf: Leaf): set<nat> {
    match leaf
    case Prop(e) => Fluents(e)
    case Num(l, r, _) => Fluents(l) + Fluents(r)
  }

  /** A subgoal none of whose fluents changed has the same feature. */
  lemma FeatureReads(fs: Functions, leaf: Leaf, s: Assignment, t: Assignment)
    requires Agree(s, t, Reads(leaf))
    ensures FeatureOf(fs, leaf, s) == FeatureOf(fs, leaf, t)
  {
    match leaf
    case Prop(e) => EvalReadsFluents(e, s, t, fs);
    case Num(l, r, _) => EvalReadsFluents(l, s, t, fs); EvalReadsFluents(r, s, t, fs);
  }

  /** All subgoals of a state, next to those of its parent if they are compared. */
  datatype View = View(leaves: seq<Leaf>, parent: Option<seq<Feature>>, child: seq<Feature>)

  predicate Complete(v: View) {
    && |v.child| == |v.leaves|
    && (v.parent.Some? ==> |v.parent.value| == |v.leaves|)
  }

  predicate IsCurrent(v: View, l: nat) {
    l < |v.child| && v.child[l].sat
  }

  predicate IsUnsat(v: View, l: nat) {
    l < |v.child| && l < |v.leaves| && v.leaves[l].Num? && !v.child[l].sat
  }

  // Closer than in the parent, which did not satisfy it.
  predicate Closer(v: View, l: nat)
    requires Complete(v) && l < |v.leaves| && v.leaves[l].Num?
  {
    v.parent.None? || (!v.parent.value[l].sat && v.child[l].dist > v.parent.value[l].dist)
  }

  predicate IsNew(v: View, l: nat)
    requires Complete(v)
  {
    && l < |v.leaves| && v.child[l].sat
    && if v.leaves[l].Prop? then v.parent.None? || !v.parent.value[l].sat else Closer(v, l)
  }

  predicate IsImproved(v: View, l: nat)
    requires Complete(v)
  {
    IsUnsat(v, l) && Closer(v, l)
  }

  predicate Persists(v: View, l: nat)
    requires Complete(v)
  {
    l < |v.leaves| && v.parent.Some? && v.parent.value[l].sat && v.child[l].sat
  }

  function NewOnes(v: View): set<nat>
    requires Complete(v)
  {
    set l | l in Upto(|v.leaves|) && IsNew(v, l)
  }

  function CurrentOnes(v: View): set<nat>
    requires Complete(v)
  {
    set l | l in Upto(|v.leaves|) && IsCurrent(v, l)
  }

  function ImprovedOnes(v: View): set<nat>
    requires Complete(v)
  {
    set l | l in Upto(|v.leaves|) && IsImproved(v, l)
  }

  function PersistingOnes(v: View): set<nat>
    requires Complete(v)
  {
    set l | l in Upto(|v.leaves|) && Persists(v, l)
  }

  function UnsatOnes(v: View): set<nat>
    requires Complete(v)
  {
    set l | l in Upto(|v.leaves|) && IsUnsat(v, l)
  }

  // ---- the tables of a partition ----

  datatype Tables = Tables(
    psi: set<nat>, best: map<nat, real>, pairs: set<(nat, nat)>, bestWith: map<(nat, nat), real>)

  const EMPTY := Tables({}, map[], {}, map[])

  /** `pack_pair`. */
  function Pair(f: nat, t: nat): (nat, nat) {
    if f < t then (f, t) else (t, f)
  }

  function DistAt(v: View, l: nat): real {
    if l < |v.child| then v.child[l].dist else 0.0
  }

  function DistIn(v: View): nat -> real {
    (l: nat) => DistAt(v, l)
  }

  // A conditioned record is about the second subgoal of the key.
  function PairDistIn(v: View): ((nat, nat)) -> real {
    (k: (nat, nat)) => DistAt(v, k.1)
  }

  /** Keeps the greatest distance seen for each key. */
  function Raise<K>(m: map<K, real>, keys: set<K>, dist: K -> real): map<K, real> {
    map k | k in m.Keys + keys :: if k in keys && (k !in m || dist(k) > m[k]) then dist(k) else m[k]
  }

  /** Some key is new, or has a distance greater than all seen. */
  ghost predicate Beats<K(!new)>(m: map<K, real>, keys: set<K>, dist: K -> real) {
    exists k :: k in keys && (k !in m || dist(k) > m[k])
  }

  function PairsOf(fs: set<nat>, ts: set<nat>): set<(nat, nat)> {
    set f, t | f in fs && t in ts && f != t :: Pair(f, t)
  }

  function Conditioned(fs: set<nat>, ts: set<nat>): set<(nat, nat)> {
    set f, t | f in fs && t in ts && f != t :: (f, t)
  }

  /** The pairs of a satisfied and an unsatisfied subgoal that can set a record. */
  function ConditionedOnes(v: View): set<(nat, nat)>
    requires Complete(v)
  {
    Conditioned(NewOnes(v), UnsatOnes(v)) + Conditioned(PersistingOnes(v), ImprovedOnes(v))
  }

  /** The tables after the state. */
  function After(t: Tables, v: View): Tables
    requires Complete(v)
  {
    Tables(t.psi + NewOnes(v),
           Raise(t.best, ImprovedOnes(v), DistIn(v)),
           t.pairs + PairsOf(NewOnes(v), CurrentOnes(v)),
           Raise(t.bestWith, ConditionedOnes(v), PairDistIn(v)))
  }

  ghost predicate Unary(t: Tables, v: View)
    requires Complete(v)
  {
    (exists l :: l in NewOnes(v) && l !in t.psi) || Beats(t.best, ImprovedOnes(v), DistIn(v))
  }

  ghost predicate Binary(t: Tables, v: View)
    requires Complete(v)
  {
    || (exists k :: k in PairsOf(NewOnes(v), CurrentOnes(v)) && k !in t.pairs)
    || Beats(t.bestWith, ConditionedOnes(v), PairDistIn(v))
  }

  /** The novelty class: 1 and 2 for a new subgoal or pair of them, 3 for none. */
  ghost function NoveltyOf(t: Tables, v: View): nat
    requires Complete(v)
  {
    if Unary(t, v) then 1 else if Binary(t, v) then 2 else 3
  }

  // ---- the passes over lists of subgoals ----

  function Elems(ls: seq<nat>): set<nat> {
    set l | l in ls
  }

  /** One offer to a table of records. */
  method Offer<K(==, !new)>(m: map<K, real>, k: K, d: real) returns (m': map<K, real>, better: bool)
    ensures better <==> k !in m || d > m[k]
    ensures m' == if better then m[k := d] else m
  {
    better := k !in m || d > m[k];
    m' := if better then m[k := d] else m;
  }

  // Offering `k` after `keys`.
  lemma RaiseOne<K(!new)>(m: map<K, real>, keys: set<K>, dist: K -> real, k: K)
    ensures var now := Raise(m, keys, dist);
      && Raise(m, keys + {k}, dist) == (if k !in now || dist(k) > now[k] then now[k := dist(k)] else now)
      && (Beats(m, keys + {k}, dist) <==> Beats(m, keys, dist) || k !in now || dist(k) > now[k])
  {
    var now := Raise(m, keys, dist);
    var more := Raise(m, keys + {k}, dist);
    assert more.Keys == (if k !in now || dist(k) > now[k] then now[k := dist(k)] else now).Keys;
    if Beats(m, keys, dist) {
      var j :| j in keys && (j !in m || dist(j) > m[j]);
      assert j in keys + {k};
    }
    if k !in now || dist(k) > now[k] {
      assert k in keys + {k} && (k !in m || dist(k) > m[k]);
    }
  }

  lemma RaiseNone<K(!new)>(m: map<K, real>, dist: K -> real)
    ensures Raise(m, {}, dist) == m && !Beats(m, {}, dist)
  {
  }

  lemma ElemsSnoc(ls: seq<nat>, i: nat)
    requires i < |ls|
    ensures Elems(ls[..i + 1]) == Elems(ls[..i]) + {ls[i]}
  {
    assert ls[..i + 1] == ls[..i] + [ls[i]];
  }

  /** Pass B: single subgoals. */
  method PassB(psi: set<nat>, newly: seq<nat>) returns (psi': set<nat>, novel: bool)
    ensures psi' == psi + Elems(newly)
    ensures novel <==> exists l :: l in Elems(newly) && l !in psi
  {
    psi', novel := psi, false;
    for i := 0 to |newly|
      invariant psi' == psi + Elems(newly[..i])
      invariant novel <==> exists l :: l in Elems(newly[..i]) && l !in psi
    {
      ElemsSnoc(newly, i);
      novel := novel || newly[i] !in psi';
      psi' := psi' + {newly[i]};
    }
    assert newly[..|newly|] == newly;
  }

  /** ... and records. */
  method PassRecords(best: map<nat, real>, improved: seq<nat>, cache: seq<real>, ghost dist: nat -> real)
    returns (best': map<nat, real>, novel: bool)
    requires forall l | l in improved :: l < |cache| && cache[l] == dist(l)
    ensures best' == Raise(best, Elems(improved), dist)
    ensures novel <==> Beats(best, Elems(improved), dist)
  {
    best', novel := best, false;
    RaiseNone(best, dist);
    assert Elems(improved[..0]) == {};
    hide Raise, Beats;
    for i := 0 to |improved|
      invariant best' == Raise(best, Elems(improved[..i]), dist)
      invariant novel <==> Beats(best, Elems(improved[..i]), dist)
    {
      ElemsSnoc(improved, i);
      RaiseOne(best, Elems(improved[..i]), dist, improved[i]);
      var better;
      best', better := Offer(best', improved[i], cache[improved[i]]);
      novel := novel || better;
    }
    assert improved[..|improved|] == improved;
  }

  // ---- pass C ----

  lemma PairsSnoc(fs: set<nat>, ts: set<nat>, f: nat)
    ensures PairsOf(fs + {f}, ts) == PairsOf(fs, ts) + PairsOf({f}, ts)
  {
  }

  lemma PairsOne(f: nat, ts: set<nat>, t: nat)
    ensures PairsOf({f}, ts + {t}) == PairsOf({f}, ts) + if f == t then {} else {Pair(f, t)}
  {
  }

  /** C1: pairs of satisfied subgoals, one of them new.  With nothing to compare to
      the two lists are the same one, and each pair is visited once. */
  method PassC1(pairs: set<(nat, nat)>, newly: seq<nat>, current: seq<nat>, alone: bool)
    returns (pairs': set<(nat, nat)>, novel: bool)
    requires alone ==> newly == current
    ensures pairs' == pairs + PairsOf(Elems(newly), Elems(current))
    ensures novel <==> exists k :: k in PairsOf(Elems(newly), Elems(current)) && k !in pairs
  {
    pairs', novel := pairs, false;
    ghost var done: set<(nat, nat)> := {};
    NoPairs(Elems(current));
    assert Elems(newly[..0]) == {};
    hide PairsOf;
    for i := 0 to |newly|
      invariant pairs' == pairs + done && (novel <==> exists k :: k in done && k !in pairs)
      invariant done <= PairsOf(Elems(newly), Elems(current))
      invariant PairsOf(Elems(newly[..i]), Elems(current)) <= done
    {
      ElemsSnoc(newly, i);
      PairsSnoc(Elems(newly[..i]), Elems(current), newly[i]);
      var start := if alone then i + 1 else 0;
      pairs', novel := PassC1Row(pairs', novel, newly[i], current[start..], pairs, done);
      RowCovers(newly, current, alone, i, start);
      done := done + PairsOf({newly[i]}, Elems(current[start..]));
    }
    assert newly[..|newly|] == newly;
  }

  lemma NoPairs(ts: set<nat>)
    ensures PairsOf({}, ts) == {} && forall f :: PairsOf({f}, {}) == {}
  {
  }

  // The row of `f`: one pair for each other subgoal of `rest`.
  method PassC1Row(
    pairs: set<(nat, nat)>, novel: bool, f: nat, rest: seq<nat>, ghost first: set<(nat, nat)>,
    ghost done: set<(nat, nat)>)
    returns (pairs': set<(nat, nat)>, novel': bool)
    requires pairs == first + done && (novel <==> exists k :: k in done && k !in first)
    ensures pairs' == first + (done + PairsOf({f}, Elems(rest)))
    ensures novel' <==> exists k :: k in done + PairsOf({f}, Elems(rest)) && k !in first
  {
    pairs', novel' := pairs, novel;
    ghost var row: set<(nat, nat)> := {};
    NoPairs({});
    assert Elems(rest[..0]) == {};
    hide PairsOf;
    for j := 0 to |rest|
      invariant row == PairsOf({f}, Elems(rest[..j]))
      invariant pairs' == first + (done + row) && (novel' <==> exists k :: k in done + row && k !in first)
    {
      ElemsSnoc(rest, j);
      PairsOne(f, Elems(rest[..j]), rest[j]);
      if f != rest[j] {
        var pair := Pair(f, rest[j]);
        novel' := novel' || pair !in pairs';
        pairs' := pairs' + {pair};
        row := row + {pair};
      }
    }
    assert rest[..|rest|] == rest;
  }

  /** What skipping leaves out has been visited from the other side. */
  lemma RowCovers(newly: seq<nat>, current: seq<nat>, alone: bool, i: nat, start: nat)
    requires i < |newly| && (alone ==> newly == current) && start == (if alone then i + 1 else 0) && start <= |current|
    ensures PairsOf({newly[i]}, Elems(current[start..])) <= PairsOf(Elems(newly), Elems(current))
    ensures PairsOf({newly[i]}, Elems(current))
         <= PairsOf({newly[i]}, Elems(current[start..])) + PairsOf(Elems(newly[..i]), Elems(current))
  {
    forall k | k in PairsOf({newly[i]}, Elems(current))
      ensures k in PairsOf({newly[i]}, Elems(current[start..])) + PairsOf(Elems(newly[..i]), Elems(current))
    {
      var t :| t in Elems(current) && newly[i] != t && k == Pair(newly[i], t);
      var j :| 0 <= j < |current| && current[j] == t;
      if j >= start {
        assert current[start..][j - start] == t;
      } else if j < i {
        assert newly[..i][j] == t && newly[i] in Elems(current);
        assert k == Pair(t, newly[i]);
      }
    }
  }

  /** Where the distances of the child's subgoals are: evaluated for the child, or
      those of the parent for the subgoals that were not. */
  datatype Lookup = Lookup(alone: bool, stamp: seq<nat>, generation: nat, cache: seq<real>, parent: seq<Feature>)

  predicate CanLookUp(lk: Lookup, l: nat) {
    l < |lk.stamp| && l < |lk.cache| && l < |lk.parent|
  }

  function LookUp(lk: Lookup, l: nat): real
    requires CanLookUp(lk, l)
  {
    if lk.alone || lk.stamp[l] == lk.generation then lk.cache[l] else lk.parent[l].dist
  }

  lemma ConditionedSnoc(fs: set<nat>, ts: set<nat>, f: nat, t: nat)
    ensures Conditioned(fs + {f}, ts) == Conditioned(fs, ts) + Conditioned({f}, ts)
    ensures Conditioned(fs, ts + {t}) == Conditioned(fs, ts) + Conditioned(fs, {t})
    ensures Conditioned({f}, {t}) == if f == t then {} else {(f, t)}
    ensures Conditioned({}, ts) == {} && Conditioned(fs, {}) == {}
  {
  }

  // One record of an unsatisfied subgoal next to a satisfied one.
  method OfferPair(
    m: map<(nat, nat), real>, novel: bool, f: nat, t: nat, d: real, ghost first: map<(nat, nat), real>,
    ghost done: set<(nat, nat)>, ghost dist: ((nat, nat)) -> real)
    returns (m': map<(nat, nat), real>, novel': bool)
    requires m == Raise(first, done, dist) && (novel <==> Beats(first, done, dist))
    requires d == dist((f, t))
    ensures m' == Raise(first, done + Conditioned({f}, {t}), dist)
    ensures novel' <==> Beats(first, done + Conditioned({f}, {t}), dist)
  {
    ConditionedSnoc({}, {}, f, t);
    hide Raise, Beats, Conditioned;
    m', novel' := m, novel;
    if f != t {
      RaiseOne(first, done, dist, (f, t));
      var better;
      m', better := Offer(m, (f, t), d);
      novel' := novel || better;
    } else {
      assert done + Conditioned({f}, {t}) == done;
    }
  }

  /** C1b: a new subgoal next to an unsatisfied one. */
  method PassC1b(
    m: map<(nat, nat), real>, newly: seq<nat>, unsat: seq<nat>, lk: Lookup, ghost dist: ((nat, nat)) -> real)
    returns (m': map<(nat, nat), real>, novel: bool)
    requires forall l | l in unsat :: CanLookUp(lk, l) && forall f: nat :: LookUp(lk, l) == dist((f, l))
    ensures m' == Raise(m, Conditioned(Elems(newly), Elems(unsat)), dist)
    ensures novel <==> Beats(m, Conditioned(Elems(newly), Elems(unsat)), dist)
  {
    m', novel := m, false;
    ghost var us := Elems(unsat);
    RaiseNone(m, dist);
    ConditionedSnoc({}, us, 0, 0);
    assert Elems(newly[..0]) == {};
    hide Raise, Beats, Conditioned, LookUp;
    for i := 0 to |newly|
      invariant m' == Raise(m, Conditioned(Elems(newly[..i]), us), dist)
      invariant novel <==> Beats(m, Conditioned(Elems(newly[..i]), us), dist)
    {
      ElemsSnoc(newly, i);
      ConditionedSnoc(Elems(newly[..i]), us, newly[i], 0);
      m', novel := PassC1bRow(m', novel, newly[i], unsat, lk, m, Conditioned(Elems(newly[..i]), us), dist);
    }
    assert newly[..|newly|] == newly;
  }

  method PassC1bRow(
    m: map<(nat, nat), real>, novel: bool, f: nat, unsat: seq<nat>, lk: Lookup, ghost first: map<(nat, nat), real>,
    ghost done: set<(nat, nat)>, ghost dist: ((nat, nat)) -> real)
    returns (m': map<(nat, nat), real>, novel': bool)
    requires forall l | l in unsat :: CanLookUp(lk, l) && forall f: nat :: LookUp(lk, l) == dist((f, l))
    requires m == Raise(first, done, dist) && (novel <==> Beats(first, done, dist))
    ensures m' == Raise(first, done + Conditioned({f}, Elems(unsat)), dist)
    ensures novel' <==> Beats(first, done + Conditioned({f}, Elems(unsat)), dist)
  {
    m', novel' := m, novel;
    ConditionedSnoc({f}, {}, 0, 0);
    assert Elems(unsat[..0]) == {} && done + {} == done;
    hide Raise, Beats, Conditioned, LookUp;
    for j := 0 to |unsat|
      invariant m' == Raise(first, done + Conditioned({f}, Elems(unsat[..j])), dist)
      invariant novel' <==> Beats(first, done + Conditioned({f}, Elems(unsat[..j])), dist)
    {
      ghost var row := done + Conditioned({f}, Elems(unsat[..j]));
      ElemsSnoc(unsat, j);
      ConditionedSnoc({f}, Elems(unsat[..j]), 0, unsat[j]);
      m', novel' := OfferPair(m', novel', f, unsat[j], LookUp(lk, unsat[j]), first, row, dist);
      assert row + Conditioned({f}, {unsat[j]}) == done + Conditioned({f}, Elems(unsat[..j + 1]));
    }
    assert unsat[..|unsat|] == unsat;
  }

  /** C2: a persisting subgoal next to one that has come closer. */
  method PassC2(
    m: map<(nat, nat), real>, novel: bool, improved: seq<nat>, persisting: seq<nat>, cache: seq<real>,
    ghost first: map<(nat, nat), real>, ghost done: set<(nat, nat)>, ghost dist: ((nat, nat)) -> real)
    returns (m': map<(nat, nat), real>, novel': bool)
    requires forall l | l in improved :: l < |cache| && forall f: nat :: cache[l] == dist((f, l))
    requires m == Raise(first, done, dist) && (novel <==> Beats(first, done, dist))
    ensures m' == Raise(first, done + Conditioned(Elems(persisting), Elems(improved)), dist)
    ensures novel' <==> Beats(first, done + Conditioned(Elems(persisting), Elems(improved)), dist)
  {
    m', novel' := m, novel;
    ghost var ps := Elems(persisting);
    ConditionedSnoc(ps, {}, 0, 0);
    assert Elems(improved[..0]) == {} && done + {} == done;
    hide Raise, Beats, Conditioned;
    for i := 0 to |improved|
      invariant m' == Raise(first, done + Conditioned(ps, Elems(improved[..i])), dist)
      invariant novel' <==> Beats(first, done + Conditioned(ps, Elems(improved[..i])), dist)
    {
      ghost var row := done + Conditioned(ps, Elems(improved[..i]));
      assert improved[i] in improved;
      ElemsSnoc(improved, i);
      ConditionedSnoc(ps, Elems(improved[..i]), 0, improved[i]);
      m', novel' := PassC2Row(m', novel', improved[i], persisting, cache, first, row, dist);
      assert row + Conditioned(ps, {improved[i]}) == done + Conditioned(ps, Elems(improved[..i + 1]));
    }
    assert improved[..|improved|] == improved;
  }

  method PassC2Row(
    m: map<(nat, nat), real>, novel: bool, t: nat, persisting: seq<nat>, cache: seq<real>,
    ghost first: map<(nat, nat), real>, ghost done: set<(nat, nat)>, ghost dist: ((nat, nat)) -> real)
    returns (m': map<(nat, nat), real>, novel': bool)
    requires t < |cache| && forall f: nat :: cache[t] == dist((f, t))
    requires m == Raise(first, done, dist) && (novel <==> Beats(first, done, dist))
    ensures m' == Raise(first, done + Conditioned(Elems(persisting), {t}), dist)
    ensures novel' <==> Beats(first, done + Conditioned(Elems(persisting), {t}), dist)
  {
    m', novel' := m, novel;
    ConditionedSnoc({}, {t}, 0, 0);
    assert Elems(persisting[..0]) == {} && done + {} == done;
    hide Raise, Beats, Conditioned;
    for j := 0 to |persisting|
      invariant m' == Raise(first, done + Conditioned(Elems(persisting[..j]), {t}), dist)
      invariant novel' <==> Beats(first, done + Conditioned(Elems(persisting[..j]), {t}), dist)
    {
      ghost var row := done + Conditioned(Elems(persisting[..j]), {t});
      ElemsSnoc(persisting, j);
      ConditionedSnoc(Elems(persisting[..j]), {t}, persisting[j], 0);
      m', novel' := OfferPair(m', novel', persisting[j], t, cache[t], first, row, dist);
      assert row + Conditioned({persisting[j]}, {t}) == done + Conditioned(Elems(persisting[..j + 1]), {t});
    }
    assert persisting[..|persisting|] == persisting;
  }
}
