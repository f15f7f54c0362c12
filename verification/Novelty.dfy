/**
 `NumericNovelty` as it runs: for a child in its parent's partition it evaluates only
 the subgoals that read a changed fluent, stops at once when none of them made
 progress, and takes the rest from a snapshot of the parent made once per expansion.
*/
module Novelty {
  import opened Collections
  import opened Options
  import opened Expr
  import opened Sdist
  import opened NoveltyTables
  import opened NoveltyHistory

  // Some subgoal raises in the state.
  ghost predicate Undefined(fs: Functions, leaves: seq<Leaf>, s: Assignment) {
    exists l :: 0 <= l < |leaves| && FeatureOf(fs, leaves[l], s).None?
  }

  /** The five lists of subgoals an evaluation sorts into. */
  datatype Lists = Lists(
    newly: seq<nat>, current: seq<nat>, persisting: seq<nat>, improved: seq<nat>, unsat: seq<nat>)

  const NONE := Lists([], [], [], [], [])

  // The lists hold what belongs there of the subgoals in `ls`.
  ghost predicate Sorted(v: View, lists: Lists, ls: set<nat>)
    requires Complete(v)
  {
    && Elems(lists.newly) == NewOnes(v) * ls
    && Elems(lists.current) == CurrentOnes(v) * ls
    && Elems(lists.persisting) == PersistingOnes(v) * ls
    && Elems(lists.improved) == ImprovedOnes(v) * ls
    && Elems(lists.unsat) == UnsatOnes(v) * ls
  }

  function PushIf(ls: seq<nat>, l: nat, b: bool): seq<nat> {
    if b then ls + [l] else ls
  }

  /** Sorts one subgoal with a parent to compare to. */
  function Sort(lists: Lists, leaf: Leaf, l: nat, p: Feature, c: Feature): Lists {
    var progress := if leaf.Prop? then !p.sat else !p.sat && c.dist > p.dist;
    Lists(
      PushIf(lists.newly, l, c.sat && progress),
      PushIf(lists.current, l, c.sat),
      PushIf(lists.persisting, l, c.sat && p.sat),
      PushIf(lists.improved, l, leaf.Num? && !c.sat && progress),
      PushIf(lists.unsat, l, leaf.Num? && !c.sat))
  }

  /** ... or without. */
  function SortAlone(lists: Lists, leaf: Leaf, l: nat, c: Feature): Lists {
    Lists(
      PushIf(lists.newly, l, c.sat), PushIf(lists.current, l, c.sat), lists.persisting,
      PushIf(lists.improved, l, leaf.Num? && !c.sat), PushIf(lists.unsat, l, leaf.Num? && !c.sat))
  }

  lemma PushedElems(ls: seq<nat>, l: nat, b: bool, all: set<nat>, done: set<nat>)
    requires Elems(ls) == all * done && (b <==> l in all)
    ensures Elems(PushIf(ls, l, b)) == all * (done + {l})
  {
    assert Elems(ls + [l]) == Elems(ls) + {l};
  }

  lemma SortedOne(v: View, lists: Lists, lists': Lists, done: set<nat>, l: nat)
    requires Complete(v) && l < |v.leaves| && Sorted(v, lists, done)
    requires lists' == if v.parent.Some? then Sort(lists, v.leaves[l], l, v.parent.value[l], v.child[l])
                       else SortAlone(lists, v.leaves[l], l, v.child[l])
    ensures Sorted(v, lists', done + {l})
  {
    PushedElems(lists.newly, l, l in NewOnes(v), NewOnes(v), done);
    PushedElems(lists.current, l, l in CurrentOnes(v), CurrentOnes(v), done);
    PushedElems(lists.persisting, l, l in PersistingOnes(v), PersistingOnes(v), done);
    PushedElems(lists.improved, l, l in ImprovedOnes(v), ImprovedOnes(v), done);
    PushedElems(lists.unsat, l, l in UnsatOnes(v), UnsatOnes(v), done);
  }

  lemma SortedNone(v: View)
    requires Complete(v)
    ensures Sorted(v, NONE, {})
  {
  }

  lemma SortedAll(v: View, lists: Lists)
    requires Complete(v) && Sorted(v, lists, Upto(|v.leaves|))
    ensures Elems(lists.newly) == NewOnes(v) && Elems(lists.current) == CurrentOnes(v)
    ensures Elems(lists.persisting) == PersistingOnes(v) && Elems(lists.improved) == ImprovedOnes(v)
    ensures Elems(lists.unsat) == UnsatOnes(v)
  {
  }

  // ---- updating the tables ----

  /** Passes B and C, on sorted subgoals. */
  method Update(t: Tables, lists: Lists, lk: Lookup, ghost v: View) returns (t': Tables, novelty: nat)
    requires Complete(v) && Sorted(v, lists, Upto(|v.leaves|)) && (lk.alone ==> lists.newly == lists.current)
    requires forall l | l in lists.unsat :: CanLookUp(lk, l) && LookUp(lk, l) == DistAt(v, l)
    requires forall l | l in lists.improved :: l < |lk.cache| && lk.cache[l] == DistAt(v, l)
    ensures t' == After(t, v) && novelty == NoveltyOf(t, v)
  {
    SortedAll(v, lists);
    ghost var (d, dd) := (DistIn(v), PairDistIn(v));
    assert forall l: nat :: d(l) == DistAt(v, l);
    assert forall f: nat, l: nat :: dd((f, l)) == DistAt(v, l);
    ghost var (n, c, p, i, u) := (NewOnes(v), CurrentOnes(v), PersistingOnes(v), ImprovedOnes(v), UnsatOnes(v));
    assert Conditioned(n, u) + Conditioned(p, i) == ConditionedOnes(v);
    hide Raise, Beats, PairsOf, Conditioned, DistIn, PairDistIn, LookUp, DistAt, NewOnes, CurrentOnes, PersistingOnes,
      ImprovedOnes, UnsatOnes, ConditionedOnes, Sorted;
    var psi, byPsi := PassB(t.psi, lists.newly);
    var best, byBest := PassRecords(t.best, lists.improved, lk.cache, d);
    var pairs, byPair := PassC1(t.pairs, lists.newly, lists.current, lk.alone);
    var bestWith, byRecord := PassC1b(t.bestWith, lists.newly, lists.unsat, lk, dd);
    bestWith, byRecord := PassC2(bestWith, byRecord, lists.improved, lists.persisting, lk.cache, t.bestWith,
                                 Conditioned(n, u), dd);
    t' := Tables(psi, best, pairs, bestWith);
    novelty := if byPsi || byBest then 1 else if byPair || byRecord then 2 else 3;
  }

  /** Without progress nothing is new, and the tables stay as they are. */
  lemma NoProgress(t: Tables, v: View)
    requires Complete(v) && NewOnes(v) == {} && ImprovedOnes(v) == {}
    ensures After(t, v) == t && NoveltyOf(t, v) == 3
  {
    RaiseNone(t.best, DistIn(v));
    RaiseNone(t.bestWith, PairDistIn(v));
    NoPairs(CurrentOnes(v));
    ConditionedSnoc({}, UnsatOnes(v), 0, 0);
    ConditionedSnoc(PersistingOnes(v), {}, 0, 0);
    hide Raise, Beats, PairsOf, Conditioned, CurrentOnes, PersistingOnes, UnsatOnes, NewOnes, ImprovedOnes;
    assert ConditionedOnes(v) == {} && t.psi + {} == t.psi && t.pairs + {} == t.pairs;
  }

  // ---- clean subgoals ----

  /** A subgoal with the parent's feature makes no progress. */
  lemma CleanIsIdle(v: View, l: nat)
    requires Complete(v) && v.parent.Some? && l < |v.leaves| && v.child[l] == v.parent.value[l]
    ensures l !in NewOnes(v) && l !in ImprovedOnes(v)
    ensures l in PersistingOnes(v) <==> v.parent.value[l].sat
    ensures l in CurrentOnes(v) <==> v.parent.value[l].sat
    ensures l in UnsatOnes(v) <==> v.leaves[l].Num? && !v.parent.value[l].sat
  {
  }

  // ---- the parent's features, cached for an expansion ----

  /** Entries stamped with the current generation are the parent's. */
  ghost predicate CacheOk(
    fs: Functions, leaves: seq<Leaf>, stamp: seq<nat>, features: seq<Feature>, generation: nat,
    parent: Option<Assignment>)
  {
    && |stamp| == |leaves| && |features| == |leaves|
    && forall l | 0 <= l < |leaves| ::
         && stamp[l] <= generation
         && (stamp[l] == generation ==>
               parent.Some? && FeatureOf(fs, leaves[l], parent.value) == Some(features[l]))
  }

  // The snapshot lists the parent's satisfied, and its unsatisfied numeric, subgoals.
  ghost predicate SnapshotOk(
    leaves: seq<Leaf>, stamp: seq<nat>, features: seq<Feature>, generation: nat, sat: seq<nat>, unsat: seq<nat>)
    requires |stamp| == |leaves| && |features| == |leaves|
  {
    && (forall l | 0 <= l < |leaves| :: stamp[l] == generation)
    && (forall l: nat :: l in sat <==> l < |leaves| && features[l].sat)
    && (forall l: nat :: l in unsat <==> l < |leaves| && leaves[l].Num? && !features[l].sat)
  }

  /** The parent's feature of one subgoal, from the cache or put there. */
  method ParentFeature(
    fs: Functions, leaves: seq<Leaf>, l: nat, parent: Assignment, stamp: seq<nat>, features: seq<Feature>,
    generation: nat)
    returns (ok: bool, stamp': seq<nat>, features': seq<Feature>)
    requires l < |leaves| && CacheOk(fs, leaves, stamp, features, generation, Some(parent))
    ensures CacheOk(fs, leaves, stamp', features', generation, Some(parent))
    ensures ok ==> stamp'[l] == generation
    ensures !ok ==> FeatureOf(fs, leaves[l], parent).None? && stamp' == stamp && features' == features
    ensures forall k | 0 <= k < |leaves| && stamp[k] == generation ::
              stamp'[k] == generation && features'[k] == features[k]
  {
    stamp', features', ok := stamp, features, true;
    if stamp[l] != generation {
      var f := FeatureOf(fs, leaves[l], parent);
      if f.None? {
        return false, stamp, features;
      }
      stamp', features' := stamp[l := generation], features[l := f.value];
    }
  }

  // The cached feature is the one the view has.
  lemma CachedInView(
    fs: Functions, leaves: seq<Leaf>, stamp: seq<nat>, features: seq<Feature>, generation: nat, parent: Assignment,
    s: Assignment, l: nat)
    requires CacheOk(fs, leaves, stamp, features, generation, Some(parent)) && l < |leaves| && stamp[l] == generation
    ensures ViewOf(fs, leaves, s, Some(parent)).parent.value[l] == features[l]
  {
  }

  ghost predicate BothDefined(fs: Functions, leaf: Leaf, s: Assignment, t: Assignment) {
    FeatureOf(fs, leaf, s).Some? && FeatureOf(fs, leaf, t).Some?
  }

  ghost predicate AllDefined(fs: Functions, leaves: seq<Leaf>, list: seq<nat>, s: Assignment, t: Assignment) {
    forall l | l in list :: l < |leaves| && BothDefined(fs, leaves[l], s, t)
  }

  lemma CachedDefined(
    fs: Functions, leaves: seq<Leaf>, stamp: seq<nat>, features: seq<Feature>, generation: nat, parent: Assignment,
    s: Assignment, l: nat)
    requires CacheOk(fs, leaves, stamp, features, generation, Some(parent)) && l < |leaves| && stamp[l] == generation
    requires FeatureOf(fs, leaves[l], s).Some?
    ensures BothDefined(fs, leaves[l], s, parent)
  {
  }

  // ---- which subgoals are dirty ----

  predicate ReadBy(leaves: seq<Leaf>, f: nat, l: nat) {
    l < |leaves| && f in Reads(leaves[l])
  }

  /** `index[f]` lists the subgoals that read fluent `f`. */
  ghost predicate Indexes(index: seq<seq<nat>>, leaves: seq<Leaf>) {
    forall f: nat, l: nat | f < |index| :: l in index[f] <==> ReadBy(leaves, f, l)
  }

  method BuildIndex(leaves: seq<Leaf>, n: nat) returns (index: seq<seq<nat>>)
    ensures |index| == n && Indexes(index, leaves)
  {
    index := seq(n, f => []);
    for l := 0 to |leaves|
      invariant |index| == n
      invariant forall f: nat, k: nat | f < n :: k in index[f] <==> k < l && ReadBy(leaves, f, k)
    {
      ghost var before := index;
      var rest := Reads(leaves[l]);
      while rest != {}
        invariant rest <= Reads(leaves[l]) && |index| == n
        invariant forall f: nat, k: nat | f < n ::
          k in index[f] <==> k in before[f] || (k == l && f !in rest && ReadBy(leaves, f, l))
        decreases |rest|
      {
        var f :| f in rest;
        rest := rest - {f};
        if f < n {
          index := index[f := index[f] + [l]];
        }
      }
    }
  }

  // Subgoal `l` reads a fluent below `n` that the two states differ on.
  ghost predicate Dirty(leaves: seq<Leaf>, s: Assignment, t: Assignment, n: nat, l: nat) {
    l < |leaves| && exists f :: f in Reads(leaves[l]) && f < n && f < |s| && f < |t| && s[f] != t[f]
  }

  lemma CleanSame(fs: Functions, leaves: seq<Leaf>, s: Assignment, t: Assignment, l: nat)
    requires l < |leaves| && |s| == |t| && !Dirty(leaves, s, t, |s|, l)
    ensures FeatureOf(fs, leaves[l], s) == FeatureOf(fs, leaves[l], t)
  {
    forall f | f in Reads(leaves[l]) && f < |s| ensures s[f] == t[f] {
    }
    FeatureReads(fs, leaves[l], s, t);
  }

  /** Dirty subgoals that are defined, and clean ones, can be compared. */
  lemma DirtyComparable(
    fs: Functions, leaves: seq<Leaf>, from: Assignment, s: Assignment, stamp: seq<nat>, generation: nat, list: seq<nat>)
    requires |from| == |s| && Marked(leaves, from, s, |from|, stamp, generation, list)
    requires AllDefined(fs, leaves, list, s, from)
    ensures Comparable(fs, leaves, Child(s, Some(from)))
  {
    forall l | 0 <= l < |leaves|
      ensures FeatureOf(fs, leaves[l], s).Some? <==> FeatureOf(fs, leaves[l], from).Some?
    {
      if l in list {
        assert BothDefined(fs, leaves[l], s, from);
      } else {
        CleanSame(fs, leaves, from, s, l);
      }
    }
  }

  // The marks of the first `n` fluents.
  ghost predicate Marked(
    leaves: seq<Leaf>, s: Assignment, t: Assignment, n: nat, stamp: seq<nat>, generation: nat, list: seq<nat>)
  {
    && |stamp| == |leaves|
    && (forall l | 0 <= l < |stamp| :: stamp[l] <= generation)
    && (forall l: nat :: l in list <==> l < |leaves| && stamp[l] == generation)
    && forall l: nat | l < |leaves| :: stamp[l] == generation <==> Dirty(leaves, s, t, n, l)
  }

  /** `mark_dirty_leaves`: stamps and lists the subgoals that read a changed fluent. */
  method MarkDirty(
    leaves: seq<Leaf>, index: seq<seq<nat>>, s: Assignment, t: Assignment, stamp: seq<nat>, generation: nat)
    returns (stamp': seq<nat>, list: seq<nat>)
    requires |s| == |t| == |index| && Indexes(index, leaves) && |stamp| == |leaves|
    requires forall l | 0 <= l < |stamp| :: stamp[l] < generation
    ensures Marked(leaves, s, t, |s|, stamp', generation, list)
  {
    stamp', list := stamp, [];
    for f := 0 to |s|
      invariant Marked(leaves, s, t, f, stamp', generation, list)
    {
      if s[f] != t[f] {
        assert forall l | l in index[f] :: l < |leaves|;
        stamp', list := MarkAll(leaves, index[f], stamp', generation, list);
        forall l: nat | l < |leaves| ensures stamp'[l] == generation <==> Dirty(leaves, s, t, f + 1, l) {
          MarkedFluent(leaves, index, s, t, f, l);
        }
      } else {
        forall l: nat | l < |leaves| ensures stamp'[l] == generation <==> Dirty(leaves, s, t, f + 1, l) {
          UnmarkedFluent(leaves, s, t, f, l);
        }
      }
    }
  }

  lemma MarkedFluent(leaves: seq<Leaf>, index: seq<seq<nat>>, s: Assignment, t: Assignment, f: nat, l: nat)
    requires |s| == |t| == |index| && Indexes(index, leaves) && f < |s| && s[f] != t[f] && l < |leaves|
    ensures Dirty(leaves, s, t, f + 1, l) <==> Dirty(leaves, s, t, f, l) || l in index[f]
  {
  }

  lemma UnmarkedFluent(leaves: seq<Leaf>, s: Assignment, t: Assignment, f: nat, l: nat)
    requires |s| == |t| && f < |s| && s[f] == t[f] && l < |leaves|
    ensures Dirty(leaves, s, t, f + 1, l) <==> Dirty(leaves, s, t, f, l)
  {
  }

  method MarkAll(leaves: seq<Leaf>, ls: seq<nat>, stamp: seq<nat>, generation: nat, list: seq<nat>)
    returns (stamp': seq<nat>, list': seq<nat>)
    requires |stamp| == |leaves| && (forall l | l in ls :: l < |leaves|)
    requires forall l: nat :: l in list <==> l < |leaves| && stamp[l] == generation
    requires forall l | 0 <= l < |stamp| :: stamp[l] <= generation
    ensures |stamp'| == |leaves| && forall l | 0 <= l < |stamp'| :: stamp'[l] <= generation
    ensures forall l: nat :: l in list' <==> l < |leaves| && stamp'[l] == generation
    ensures forall l: nat | l < |leaves| :: stamp'[l] == generation <==> stamp[l] == generation || l in ls
  {
    stamp', list' := stamp, list;
    for i := 0 to |ls|
      invariant |stamp'| == |leaves| && forall l | 0 <= l < |stamp'| :: stamp'[l] <= generation
      invariant forall l: nat :: l in list' <==> l < |leaves| && stamp'[l] == generation
      invariant forall l: nat | l < |leaves| :: stamp'[l] == generation <==> stamp[l] == generation || l in ls[..i]
    {
      assert ls[i] in ls;
      if stamp'[ls[i]] != generation {
        stamp' := stamp'[ls[i] := generation];
        list' := list' + [ls[i]];
      }
      assert ls[..i + 1] == ls[..i] + [ls[i]];
    }
    assert ls[..|ls|] == ls;
  }

  // ---- sorting ----

  lemma UptoNext(i: nat)
    ensures Upto(i + 1) == Upto(i) + {i}
  {
  }

  /** Dense: every subgoal, with nothing to compare to. */
  method SortDense(fs: Functions, leaves: seq<Leaf>, s: Assignment, cache: seq<real>)
    returns (ok: bool, lists: Lists, cache': seq<real>)
    requires |cache| == |leaves|
    ensures |cache'| == |leaves| && (!ok ==> Undefined(fs, leaves, s))
    ensures ok ==> Sorted(ViewOf(fs, leaves, s, None), lists, Upto(|leaves|)) && lists.newly == lists.current
    ensures ok ==> forall l | 0 <= l < |leaves| :: cache'[l] == Total(fs, leaves[l], s).dist
  {
    ghost var v := ViewOf(fs, leaves, s, None);
    lists, cache' := NONE, cache;
    SortedNone(v);
    hide Sorted, FeatureOf, Upto, Total;
    for i := 0 to |leaves|
      invariant |cache'| == |leaves| && Sorted(v, lists, Upto(i)) && lists.newly == lists.current
      invariant forall l | 0 <= l < i :: cache'[l] == Total(fs, leaves[l], s).dist
    {
      var c := FeatureOf(fs, leaves[i], s);
      if c.None? {
        return false, lists, cache';
      }
      cache' := cache'[i := c.value.dist];
      var lists' := SortAlone(lists, leaves[i], i, c.value);
      SortedOne(v, lists, lists', Upto(i), i);
      lists := lists';
      UptoNext(i);
    }
    ok := true;
  }

  /** Sparse: the dirty subgoals, next to the parent's. */
  method SortDirty(
    fs: Functions, leaves: seq<Leaf>, s: Assignment, parent: Assignment, list: seq<nat>, cache: seq<real>,
    stamp: seq<nat>, features: seq<Feature>, generation: nat)
    returns (ok: bool, lists: Lists, cache': seq<real>, stamp': seq<nat>, features': seq<Feature>)
    requires |cache| == |leaves| && CacheOk(fs, leaves, stamp, features, generation, Some(parent))
    requires forall l | l in list :: l < |leaves|
    ensures |cache'| == |leaves| && CacheOk(fs, leaves, stamp', features', generation, Some(parent))
    ensures forall k | 0 <= k < |leaves| && stamp[k] == generation ::
              stamp'[k] == generation && features'[k] == features[k]
    ensures !ok ==> Undefined(fs, leaves, s) || Undefined(fs, leaves, parent)
    ensures ok ==> Sorted(ViewOf(fs, leaves, s, Some(parent)), lists, Elems(list))
    ensures ok ==> forall l | l in list :: cache'[l] == Total(fs, leaves[l], s).dist
    ensures ok ==> AllDefined(fs, leaves, list, s, parent)
  {
    ghost var v := ViewOf(fs, leaves, s, Some(parent));
    lists, cache', stamp', features' := NONE, cache, stamp, features;
    SortedNone(v);
    assert Elems(list[..0]) == {};
    hide Sorted, FeatureOf, CacheOk, Total, Undefined, Elems, Sort, BothDefined;
    for i := 0 to |list|
      invariant |cache'| == |leaves| && CacheOk(fs, leaves, stamp', features', generation, Some(parent))
      invariant SameWhereStamped(stamp, features, stamp', features', generation)
      invariant Sorted(v, lists, Elems(list[..i]))
      invariant forall k | 0 <= k < i ::
        list[k] < |leaves| && cache'[list[k]] == Total(fs, leaves[list[k]], s).dist
      invariant forall k | 0 <= k < i :: BothDefined(fs, leaves[list[k]], s, parent)
    {
      var l := list[i];
      assert l in list;
      CacheSizes(fs, leaves, stamp', features', generation, Some(parent));
      ok, stamp', features' := ParentFeature(fs, leaves, l, parent, stamp', features', generation);
      var c := FeatureOf(fs, leaves[l], s);
      if !ok || c.None? {
        return false, lists, cache', stamp', features';
      }
      CacheSizes(fs, leaves, stamp', features', generation, Some(parent));
      CachedInView(fs, leaves, stamp', features', generation, parent, s, l);
      CachedDefined(fs, leaves, stamp', features', generation, parent, s, l);
      cache' := cache'[l := c.value.dist];
      var lists' := Sort(lists, leaves[l], l, features'[l], c.value);
      SortedOne(v, lists, lists', Elems(list[..i]), l);
      ElemsSnoc(list, i);
      lists := lists';
    }
    assert list[..|list|] == list;
    CacheSizes(fs, leaves, stamp, features, generation, Some(parent));
    ok := true;
  }

  ghost predicate SameWhereStamped(
    stamp: seq<nat>, features: seq<Feature>, stamp': seq<nat>, features': seq<Feature>, generation: nat)
  {
    && |stamp'| == |stamp| == |features| == |features'|
    && forall k | 0 <= k < |stamp| && stamp[k] == generation :: stamp'[k] == generation && features'[k] == features[k]
  }

  lemma CacheFor(
    fs: Functions, leaves: seq<Leaf>, stamp: seq<nat>, features: seq<Feature>, generation: nat,
    parent: Option<Assignment>, from: Assignment)
    requires CacheOk(fs, leaves, stamp, features, generation, parent) && (parent.None? || parent == Some(from))
    ensures CacheOk(fs, leaves, stamp, features, generation, Some(from))
  {
  }

  lemma CacheSizes(
    fs: Functions, leaves: seq<Leaf>, stamp: seq<nat>, features: seq<Feature>, generation: nat,
    parent: Option<Assignment>)
    requires CacheOk(fs, leaves, stamp, features, generation, parent)
    ensures |stamp| == |features| == |leaves| && forall l | 0 <= l < |leaves| :: stamp[l] <= generation
  {
  }

  // ---- the parent's snapshot ----

  /** `ensure_parent_snapshot`, when it has not been made for this expansion. */
  method Snapshot(
    fs: Functions, leaves: seq<Leaf>, parent: Assignment, stamp: seq<nat>, features: seq<Feature>, generation: nat)
    returns (ok: bool, stamp': seq<nat>, features': seq<Feature>, sat: seq<nat>, unsat: seq<nat>)
    requires CacheOk(fs, leaves, stamp, features, generation, Some(parent))
    ensures CacheOk(fs, leaves, stamp', features', generation, Some(parent))
    ensures ok ==> SnapshotOk(leaves, stamp', features', generation, sat, unsat)
    ensures !ok ==> Undefined(fs, leaves, parent)
  {
    stamp', features', sat, unsat := stamp, features, [], [];
    hide FeatureOf;
    for i := 0 to |leaves|
      invariant CacheOk(fs, leaves, stamp', features', generation, Some(parent))
      invariant forall l | 0 <= l < i :: stamp'[l] == generation
      invariant forall l: nat :: l in sat <==> l < i && features'[l].sat
      invariant forall l: nat :: l in unsat <==> l < i && leaves[l].Num? && !features'[l].sat
    {
      ok, stamp', features' := ParentFeature(fs, leaves, i, parent, stamp', features', generation);
      if !ok {
        return;
      }
      if features'[i].sat {
        sat := sat + [i];
      } else if leaves[i].Num? {
        unsat := unsat + [i];
      }
    }
    ok := true;
  }

  /** The clean ones of `ls`. */
  method Clean(ls: seq<nat>, stamp: seq<nat>, generation: nat) returns (clean: seq<nat>)
    requires forall l | l in ls :: l < |stamp|
    ensures forall l: nat :: l in clean <==> l in ls && stamp[l] != generation
  {
    clean := [];
    for i := 0 to |ls|
      invariant forall l: nat :: l in clean <==> l in ls[..i] && l < |stamp| && stamp[l] != generation
    {
      assert ls[i] in ls && ls[..i + 1] == ls[..i] + [ls[i]];
      if stamp[ls[i]] != generation {
        clean := clean + [ls[i]];
      }
    }
    assert ls[..|ls|] == ls;
  }

  lemma MergedElems(ls: seq<nat>, more: seq<nat>, all: set<nat>, done: set<nat>, n: nat)
    requires Elems(ls) == all * done && done <= Upto(n)
    requires forall l: nat :: l in more <==> l < n && l !in done && l in all
    ensures Elems(ls + more) == all * Upto(n)
  {
    forall l: nat ensures l in Elems(ls + more) <==> l in all * Upto(n) {
      assert l in ls <==> l in Elems(ls);
    }
  }

  /** Adding the clean subgoals, with the parent's verdicts, sorts them all. */
  lemma MergeSorts(v: View, lists: Lists, dirty: set<nat>, sat: seq<nat>, unsat: seq<nat>)
    requires Complete(v) && v.parent.Some? && dirty <= Upto(|v.leaves|) && Sorted(v, lists, dirty)
    requires forall l | 0 <= l < |v.leaves| && l !in dirty :: v.child[l] == v.parent.value[l]
    requires forall l: nat :: l in sat <==> l < |v.leaves| && l !in dirty && v.parent.value[l].sat
    requires forall l: nat ::
               l in unsat <==> l < |v.leaves| && l !in dirty && v.leaves[l].Num? && !v.parent.value[l].sat
    ensures Sorted(v, Lists(lists.newly, lists.current + sat, lists.persisting + sat, lists.improved,
                            lists.unsat + unsat), Upto(|v.leaves|))
  {
    var n := |v.leaves|;
    forall l: nat | l < n && l !in dirty
      ensures l !in NewOnes(v) && l !in ImprovedOnes(v)
      ensures l in PersistingOnes(v) <==> v.parent.value[l].sat
      ensures l in CurrentOnes(v) <==> v.parent.value[l].sat
      ensures l in UnsatOnes(v) <==> v.leaves[l].Num? && !v.parent.value[l].sat
    {
      CleanIsIdle(v, l);
    }
    hide NewOnes, ImprovedOnes, PersistingOnes, CurrentOnes, UnsatOnes, Elems;
    MergedElems(lists.newly, [], NewOnes(v), dirty, n);
    MergedElems(lists.improved, [], ImprovedOnes(v), dirty, n);
    MergedElems(lists.current, sat, CurrentOnes(v), dirty, n);
    MergedElems(lists.persisting, sat, PersistingOnes(v), dirty, n);
    MergedElems(lists.unsat, unsat, UnsatOnes(v), dirty, n);
    assert lists.newly + [] == lists.newly && lists.improved + [] == lists.improved;
  }

  /** When no dirty subgoal made progress, no subgoal did. */
  lemma OnlyDirtyProgress(v: View, lists: Lists, dirty: set<nat>)
    requires Complete(v) && v.parent.Some? && Sorted(v, lists, dirty)
    requires forall l | 0 <= l < |v.leaves| && l !in dirty :: v.child[l] == v.parent.value[l]
    requires lists.newly == [] && lists.improved == []
    ensures NewOnes(v) == {} && ImprovedOnes(v) == {}
  {
    forall l: nat ensures l !in NewOnes(v) && l !in ImprovedOnes(v) {
      if l < |v.leaves| && l !in dirty {
        CleanIsIdle(v, l);
      } else if l in dirty {
        assert l !in Elems(lists.newly) && l !in Elems(lists.improved);
      }
    }
  }

  // ---- the evaluator ----

  function TablesOf(partitions: map<nat, Tables>, q: nat): Tables {
    if q in partitions then partitions[q] else EMPTY
  }

  lemma HistoryMore(fs: Functions, leaves: seq<Leaf>, cs: seq<Child>, c: Child)
    requires AllComparable(fs, leaves, cs) && Comparable(fs, leaves, c)
    ensures TablesAfter(fs, leaves, cs + [c]) == After(TablesAfter(fs, leaves, cs), ViewIn(fs, leaves, c))
    ensures AllComparable(fs, leaves, cs + [c])
  {
    assert (cs + [c])[..|cs|] == cs;
    hide After, ViewIn, Comparable;
  }

  class NumericNovelty {
    const fs: Functions
    const leaves: seq<Leaf>
    const index: seq<seq<nat>>
    var partitions: map<nat, Tables>
    var cache: seq<real>
    // the parent's features; `generation` counts expansions
    var stamp: seq<nat>
    var features: seq<Feature>
    var generation: nat
    // the dirty subgoals; `evaluation` counts comparisons with a parent
    var dirtyStamp: seq<nat>
    var evaluation: nat
    var dirtyList: seq<nat>
    // the snapshot of the parent
    var parentSat: seq<nat>
    var parentUnsat: seq<nat>
    var snapshot: nat
    // the children evaluated since the search started, by partition
    ghost var history: map<nat, seq<Child>>
    // the state being expanded, once one of its children has been compared to it
    ghost var parent: Option<Assignment>

    ghost predicate Valid()
      reads this
    {
      && Indexes(index, leaves)
      && |cache| == |leaves| && |dirtyStamp| == |leaves|
      && (forall l | 0 <= l < |leaves| :: dirtyStamp[l] <= evaluation)
      && CachesValid() && Remembers()
    }

    ghost function HistoryOf(q: nat): seq<Child>
      reads this`history
    {
      if q in history then history[q] else []
    }

    // The tables of each partition are those of its children.
    ghost predicate Remembers()
      reads this`partitions, this`history
    {
      forall q: nat ::
        && TablesOf(partitions, q) == TablesAfter(fs, leaves, HistoryOf(q))
        && AllComparable(fs, leaves, HistoryOf(q))
    }

    // The caches are about the parent, once an expansion has begun.
    ghost predicate CachesValid()
      reads this`stamp, this`features, this`generation, this`snapshot, this`parentSat, this`parentUnsat, this`parent
    {
      && |stamp| == |leaves| && |features| == |leaves|
      && (forall l | 0 <= l < |leaves| :: stamp[l] <= generation) && snapshot <= generation
      && (generation > 0 ==> CacheOk(fs, leaves, stamp, features, generation, parent))
      && (generation > 0 && snapshot == generation ==>
            SnapshotOk(leaves, stamp, features, generation, parentSat, parentUnsat))
    }

    constructor (fs: Functions, leaves: seq<Leaf>, n: nat)
      ensures Valid() && generation == 0 && this.fs == fs && this.leaves == leaves && |index| == n
    {
      this.fs, this.leaves := fs, leaves;
      partitions, history, cache, parent := map[], map[], seq(|leaves|, l => 0.0), None;
      stamp, features, generation := seq(|leaves|, l => 0), seq(|leaves|, l => Feature(false, 0.0)), 0;
      dirtyStamp, evaluation, dirtyList := seq(|leaves|, l => 0), 0, [];
      parentSat, parentUnsat, snapshot := [], [], 0;
      var built := BuildIndex(leaves, n);
      index := built;
    }

    /** A new search: no tables, no parent. */
    method Start()
      requires Valid()
      modifies this
      ensures Valid() && generation > 0 && partitions == map[] && history == map[] && parent == None
    {
      partitions, history := map[], map[];
      generation, parent := generation + 1, None;
    }

    /** A new expansion: the caches are about no state yet. */
    method BeginExpansion()
      requires Valid()
      modifies this
      ensures Valid() && generation > 0 && partitions == old(partitions) && history == old(history) && parent == None
    {
      generation, parent := generation + 1, None;
    }

    /** The novelty of a child, by the children of its partition evaluated since the
        search started: 1 when a subgoal is met for the first time or comes closer than
        ever, 2 when only a pair of them does, else 3.  When it raises, so would evaluating
        all subgoals. */
    method Eval(state: Assignment, partition: nat, from: Option<Assignment>, fromPartition: Option<nat>)
      returns (r: Option<nat>)
      requires Valid() && generation > 0 && |state| == |index|
      requires from.Some? ==> |from.value| == |index| && (parent.None? || parent == from)
      modifies this
      ensures Valid() && generation == old(generation)
      ensures from.Some? ==> parent.None? || parent == from
      ensures var alone := from.None? || fromPartition != Some(partition);
              var c := Child(state, if alone then None else from);
        && (r.Some? ==>
              && r.value == ClassOf(fs, leaves, old(HistoryOf(partition)), c)
              && history == old(history)[partition := old(HistoryOf(partition)) + [c]])
        && (r.None? ==> Undefined(fs, leaves, state) || (!alone && Undefined(fs, leaves, from.value)))
      ensures r.None? ==> partitions == old(partitions) && history == old(history)
    {
      hide CachesValid, NoveltyOf, After, Undefined, Indexes, Remembers, ClassOf;
      if from.None? || fromPartition != Some(partition) {
        r := EvalAlone(state, partition);
      } else {
        r := EvalChild(state, partition, from.value);
      }
    }

    // Adds the child to the history of its partition, whose tables have just been updated.
    ghost method Remember(partition: nat, c: Child, was: map<nat, Tables>, novelty: nat)
      requires Comparable(fs, leaves, c)
      requires forall q: nat ::
                 && TablesOf(was, q) == TablesAfter(fs, leaves, HistoryOf(q))
                 && AllComparable(fs, leaves, HistoryOf(q))
      requires TablesOf(partitions, partition) == After(TablesOf(was, partition), ViewIn(fs, leaves, c))
      requires forall q: nat | q != partition :: TablesOf(partitions, q) == TablesOf(was, q)
      requires novelty == NoveltyOf(TablesOf(was, partition), ViewIn(fs, leaves, c))
      modifies this`history
      ensures Remembers() && history == old(history)[partition := old(HistoryOf(partition)) + [c]]
      ensures novelty == ClassOf(fs, leaves, old(HistoryOf(partition)), c)
    {
      hide After, ViewIn, ClassOf, NoveltyOf, TablesAfter, Comparable, AllComparable, TablesOf;
      var cs := HistoryOf(partition);
      ClassExact(fs, leaves, cs, c);
      HistoryMore(fs, leaves, cs, c);
      history := history[partition := cs + [c]];
      assert forall q: nat | q != partition :: HistoryOf(q) == old(HistoryOf(q));
    }

    method EvalAlone(state: Assignment, partition: nat) returns (r: Option<nat>)
      requires Valid()
      modifies this`cache, this`partitions, this`history
      ensures Valid()
      ensures r.Some? ==>
                && r.value == ClassOf(fs, leaves, old(HistoryOf(partition)), Child(state, None))
                && history == old(history)[partition := old(HistoryOf(partition)) + [Child(state, None)]]
      ensures r.None? ==> Undefined(fs, leaves, state) && partitions == old(partitions) && history == old(history)
    {
      hide CachesValid, NoveltyOf, After, Undefined, Indexes, FeatureOf, Sorted, ClassOf, TablesAfter;
      var ok, lists, now := SortDense(fs, leaves, state, cache);
      cache := now;
      if !ok {
        return None;
      }
      ghost var v := ViewOf(fs, leaves, state, None);
      var lk := Lookup(true, dirtyStamp, evaluation, cache, features);
      DenseLooksUp(v, lists, lk) by {
        assert |features| == |leaves| by {
          CacheSize();
        }
      }
      ghost var was := partitions;
      var t, novelty := Update(TablesOf(partitions, partition), lists, lk, v);
      partitions := partitions[partition := t];
      Remember(partition, Child(state, None), was, novelty);
      r := Some(novelty);
    }

    // The sparse part of an evaluation: marks the dirty subgoals and sorts them.
    method Compare(state: Assignment, from: Assignment) returns (ok: bool, lists: Lists)
      requires Valid() && generation > 0 && |state| == |from| == |index|
      requires parent.None? || parent == Some(from)
      modifies this`cache, this`stamp, this`features, this`dirtyStamp, this`evaluation, this`dirtyList, this`parent
      ensures Valid() && parent == Some(from)
      ensures Marked(leaves, from, state, |from|, dirtyStamp, evaluation, dirtyList)
      ensures !ok ==> Undefined(fs, leaves, state) || Undefined(fs, leaves, from)
      ensures ok ==> Sorted(ViewOf(fs, leaves, state, Some(from)), lists, Elems(dirtyList))
      ensures ok ==> forall l | l in dirtyList :: l < |leaves| && cache[l] == Total(fs, leaves[l], state).dist
      ensures ok ==> Comparable(fs, leaves, Child(state, Some(from)))
    {
      hide Undefined, Sorted, Comparable, AllDefined, Marked, Elems, Total, FeatureOf;
      MarkChanged(state, from);
      ok, lists := SortChanged(state, from);
      if ok {
        DirtyComparable(fs, leaves, from, state, dirtyStamp, evaluation, dirtyList);
      }
    }

    method MarkChanged(state: Assignment, from: Assignment)
      requires Valid() && |state| == |from| == |index|
      modifies this`dirtyStamp, this`evaluation, this`dirtyList
      ensures Valid() && Marked(leaves, from, state, |from|, dirtyStamp, evaluation, dirtyList)
      ensures forall l | l in dirtyList :: l < |leaves|
    {
      hide Indexes, CachesValid, Remembers, Marked;
      evaluation := evaluation + 1;
      dirtyStamp, dirtyList := MarkDirty(leaves, index, from, state, dirtyStamp, evaluation);
      MarkedSizes(leaves, from, state, |from|, dirtyStamp, evaluation, dirtyList);
    }

    method SortChanged(state: Assignment, from: Assignment) returns (ok: bool, lists: Lists)
      requires Valid() && generation > 0 && (parent.None? || parent == Some(from))
      requires forall l | l in dirtyList :: l < |leaves|
      modifies this`cache, this`stamp, this`features, this`parent
      ensures Valid() && parent == Some(from)
      ensures !ok ==> Undefined(fs, leaves, state) || Undefined(fs, leaves, from)
      ensures ok ==> Sorted(ViewOf(fs, leaves, state, Some(from)), lists, Elems(dirtyList))
      ensures ok ==> forall l | l in dirtyList :: cache[l] == Total(fs, leaves[l], state).dist
      ensures ok ==> AllDefined(fs, leaves, dirtyList, state, from)
    {
      CacheFor(fs, leaves, stamp, features, generation, parent, from);
      hide Undefined, Indexes, FeatureOf, Sorted, AllDefined, Remembers, Elems, Total, CacheOk, SnapshotOk;
      parent := Some(from);
      ghost var (was, were) := (stamp, features);
      ok, lists, cache, stamp, features :=
        SortDirty(fs, leaves, state, from, dirtyList, cache, stamp, features, generation);
      CacheSizes(fs, leaves, stamp, features, generation, parent);
      if snapshot == generation {
        SnapshotStays(leaves, was, were, stamp, features, generation, parentSat, parentUnsat);
      }
    }

    method EnsureSnapshot(from: Assignment) returns (ok: bool)
      requires Valid() && generation > 0 && parent == Some(from)
      modifies this`stamp, this`features, this`parentSat, this`parentUnsat, this`snapshot
      ensures Valid()
      ensures ok ==> snapshot == generation
      ensures !ok ==> Undefined(fs, leaves, from)
    {
      hide Undefined, Indexes, FeatureOf;
      if snapshot == generation {
        return true;
      }
      var stamp', features', sat, unsat;
      ok, stamp', features', sat, unsat := Snapshot(fs, leaves, from, stamp, features, generation);
      stamp, features := stamp', features';
      if ok {
        parentSat, parentUnsat, snapshot := sat, unsat, generation;
      }
    }

    method EvalChild(state: Assignment, partition: nat, from: Assignment) returns (r: Option<nat>)
      requires Valid() && generation > 0 && |state| == |from| == |index|
      requires parent.None? || parent == Some(from)
      modifies this
      ensures Valid() && generation == old(generation) && parent == Some(from)
      ensures r.Some? ==>
                && r.value == ClassOf(fs, leaves, old(HistoryOf(partition)), Child(state, Some(from)))
                && history == old(history)[partition := old(HistoryOf(partition)) + [Child(state, Some(from))]]
      ensures r.None? ==> Undefined(fs, leaves, state) || Undefined(fs, leaves, from)
      ensures r.None? ==> partitions == old(partitions) && history == old(history)
    {
      hide CachesValid, NoveltyOf, After, Undefined, Indexes, FeatureOf, Sorted, Marked, Complete, ClassOf, TablesAfter,
        Comparable;
      ghost var (v, c, was) := (ViewOf(fs, leaves, state, Some(from)), Child(state, Some(from)), partitions);
      var ok, lists := Compare(state, from);
      if !ok {
        return None;
      }
      CleanInView(fs, leaves, from, state, dirtyStamp, evaluation, dirtyList);
      if lists.newly == [] && lists.improved == [] {
        OnlyDirtyProgress(v, lists, Elems(dirtyList));
        NoProgress(TablesOf(partitions, partition), v);
        Remember(partition, c, was, 3);
        return Some(3);
      }
      ok := EnsureSnapshot(from);
      if !ok {
        return None;
      }
      var all := Merge(lists, state, from);
      var lk := Lookup(false, dirtyStamp, evaluation, cache, features);
      var t, novelty := Update(TablesOf(partitions, partition), all, lk, v);
      partitions := partitions[partition := t];
      Remember(partition, c, was, novelty);
      r := Some(novelty);
    }

    // Fills in the clean subgoals from the snapshot.
    method Merge(lists: Lists, state: Assignment, from: Assignment) returns (all: Lists)
      requires Valid() && generation > 0 && |state| == |from| && parent == Some(from) && snapshot == generation
      requires Marked(leaves, from, state, |from|, dirtyStamp, evaluation, dirtyList)
      requires Sorted(ViewOf(fs, leaves, state, Some(from)), lists, Elems(dirtyList))
      requires forall l | l in dirtyList :: l < |leaves| && cache[l] == Total(fs, leaves[l], state).dist
      ensures var v := ViewOf(fs, leaves, state, Some(from));
        var lk := Lookup(false, dirtyStamp, evaluation, cache, features);
        && Sorted(v, all, Upto(|leaves|))
        && (forall l | l in all.unsat :: CanLookUp(lk, l) && LookUp(lk, l) == DistAt(v, l))
        && forall l | l in all.improved :: l < |cache| && cache[l] == DistAt(v, l)
    {
      hide FeatureOf, Indexes, Sorted, Marked, Elems;
      ghost var v := ViewOf(fs, leaves, state, Some(from));
      SnapshotInView(fs, leaves, state, from, stamp, features, generation, parentSat, parentUnsat);
      MarkedSizes(leaves, from, state, |from|, dirtyStamp, evaluation, dirtyList);
      CleanInView(fs, leaves, from, state, dirtyStamp, evaluation, dirtyList);
      var sat := Clean(parentSat, dirtyStamp, evaluation);
      var unsat := Clean(parentUnsat, dirtyStamp, evaluation);
      MergeSorts(v, lists, Elems(dirtyList), sat, unsat);
      all := Lists(lists.newly, lists.current + sat, lists.persisting + sat, lists.improved, lists.unsat + unsat);
      SparseLooksUp(v, lists, all, Elems(dirtyList), Lookup(false, dirtyStamp, evaluation, cache, features));
    }

    lemma CacheSize()
      requires Valid()
      ensures |features| == |leaves| == |stamp|
    {
    }
  }

  lemma DenseLooksUp(v: View, lists: Lists, lk: Lookup)
    requires Complete(v) && Sorted(v, lists, Upto(|v.leaves|)) && lk.alone
    requires |lk.stamp| == |lk.cache| == |lk.parent| == |v.leaves|
    requires forall l | 0 <= l < |v.leaves| :: lk.cache[l] == v.child[l].dist
    ensures forall l | l in lists.unsat :: CanLookUp(lk, l) && LookUp(lk, l) == DistAt(v, l)
    ensures forall l | l in lists.improved :: l < |lk.cache| && lk.cache[l] == DistAt(v, l)
  {
    SortedAll(v, lists);
    assert forall l | l in lists.unsat :: l in Elems(lists.unsat);
    assert forall l | l in lists.improved :: l in Elems(lists.improved);
  }

  lemma SnapshotStays(
    leaves: seq<Leaf>, stamp: seq<nat>, features: seq<Feature>, stamp': seq<nat>, features': seq<Feature>,
    generation: nat, sat: seq<nat>, unsat: seq<nat>)
    requires |stamp| == |features| == |stamp'| == |features'| == |leaves|
    requires SnapshotOk(leaves, stamp, features, generation, sat, unsat)
    requires forall k | 0 <= k < |leaves| && stamp[k] == generation ::
               stamp'[k] == generation && features'[k] == features[k]
    ensures SnapshotOk(leaves, stamp', features', generation, sat, unsat)
  {
  }

  // A complete snapshot is the parent's side of the view.
  lemma SnapshotInView(
    fs: Functions, leaves: seq<Leaf>, s: Assignment, parent: Assignment, stamp: seq<nat>, features: seq<Feature>,
    generation: nat, sat: seq<nat>, unsat: seq<nat>)
    requires CacheOk(fs, leaves, stamp, features, generation, Some(parent))
    requires SnapshotOk(leaves, stamp, features, generation, sat, unsat)
    ensures ViewOf(fs, leaves, s, Some(parent)).parent.value == features
  {
    forall l | 0 <= l < |leaves| ensures ViewOf(fs, leaves, s, Some(parent)).parent.value[l] == features[l] {
      CachedInView(fs, leaves, stamp, features, generation, parent, s, l);
    }
  }

  lemma MarkedSizes(
    leaves: seq<Leaf>, s: Assignment, t: Assignment, n: nat, stamp: seq<nat>, generation: nat, list: seq<nat>)
    requires Marked(leaves, s, t, n, stamp, generation, list)
    ensures |stamp| == |leaves| && forall l: nat :: l in list <==> l < |leaves| && stamp[l] == generation
    ensures forall l | 0 <= l < |stamp| :: stamp[l] <= generation
    ensures forall l: nat :: l in Elems(list) <==> l < |leaves| && stamp[l] == generation
    ensures Elems(list) <= Upto(|leaves|)
  {
  }

  /** What is not listed has the parent's feature. */
  lemma CleanInView(
    fs: Functions, leaves: seq<Leaf>, parent: Assignment, s: Assignment, stamp: seq<nat>, generation: nat,
    list: seq<nat>)
    requires |parent| == |s| && Marked(leaves, parent, s, |parent|, stamp, generation, list)
    ensures var v := ViewOf(fs, leaves, s, Some(parent));
      forall l | 0 <= l < |leaves| && l !in Elems(list) :: v.child[l] == v.parent.value[l]
    ensures Complete(ViewOf(fs, leaves, s, Some(parent)))
  {
    forall l | 0 <= l < |leaves| && l !in Elems(list)
      ensures Total(fs, leaves[l], s) == Total(fs, leaves[l], parent)
    {
      CleanSame(fs, leaves, parent, s, l);
    }
  }

  lemma SparseLooksUp(v: View, lists: Lists, all: Lists, dirty: set<nat>, lk: Lookup)
    requires Complete(v) && v.parent.Some? && dirty <= Upto(|v.leaves|) && !lk.alone
    requires Sorted(v, lists, dirty) && Sorted(v, all, Upto(|v.leaves|)) && all.improved == lists.improved
    requires |lk.stamp| == |lk.cache| == |v.leaves| && lk.parent == v.parent.value
    requires forall l: nat :: l in dirty <==> l < |v.leaves| && lk.stamp[l] == lk.generation
    requires forall l | l in dirty :: lk.cache[l] == v.child[l].dist
    requires forall l | 0 <= l < |v.leaves| && l !in dirty :: v.child[l] == v.parent.value[l]
    ensures forall l | l in all.unsat :: CanLookUp(lk, l) && LookUp(lk, l) == DistAt(v, l)
    ensures forall l | l in all.improved :: l < |lk.cache| && lk.cache[l] == DistAt(v, l)
  {
    SortedAll(v, all);
    assert forall l | l in all.unsat :: l in Elems(all.unsat);
    forall l | l in all.improved ensures l in dirty {
      assert l in Elems(lists.improved);
      assert Elems(lists.improved) == ImprovedOnes(v) * dirty;
    }
  }
}
