/**
 What a novelty class says about the children evaluated before: the tables of a partition
 remember which subgoals were met for the first time, and how close the others came.
*/
module NoveltyHistory {
  import opened Collections
  import opened Options
  import opened Expr
  import opened Sdist
  import opened NoveltyTables

  // An undefined subgoal counts as unsatisfied; evaluating it raises.
  function Total(fs: Functions, leaf: Leaf, s: Assignment): Feature {
    var f := FeatureOf(fs, leaf, s);
    if f.Some? then f.value else Feature(false, 0.0)
  }

  function Features(fs: Functions, leaves: seq<Leaf>, s: Assignment): seq<Feature> {
    seq(|leaves|, l requires 0 <= l < |leaves| => Total(fs, leaves[l], s))
  }

  /** All subgoals in the state, next to the parent unless it is in another
      partition. */
  function ViewOf(fs: Functions, leaves: seq<Leaf>, s: Assignment, parent: Option<Assignment>): (v: View)
    ensures Complete(v)
  {
    View(leaves, if parent.None? then None else Some(Features(fs, leaves, parent.value)), Features(fs, leaves, s))
  }

  // ---- subgoals, by their operands ----

  /** A child that was evaluated, next to its parent unless that is in another partition. */
  datatype Child = Child(state: Assignment, parent: Option<Assignment>)

  ghost predicate Met(fs: Functions, leaf: Leaf, s: Assignment) {
    match leaf
    case Prop(e) => Eval(e, s, fs) == Some(TRUE)
    case Num(l, r, kind) => exists a, b ::
      && Eval(l, s, fs) == Some(NumV(a)) && Eval(r, s, fs) == Some(NumV(b))
      && (if kind.Eq? then a == b else if kind.Lt? then a < b else a <= b)
  }

  /** How far the operands of a comparison are from meeting it: l - r, or |l - r| for an
      equality. */
  ghost function Gap(fs: Functions, leaf: Leaf, s: Assignment): real {
    match leaf
    case Prop(_) => 0.0
    case Num(l, r, kind) =>
      match (Eval(l, s, fs), Eval(r, s, fs))
      case (Some(NumV(a)), Some(NumV(b))) => if kind.Eq? && a < b then b - a else a - b
      case _ => 0.0
  }

  /** The child meets the subgoal, and its parent did not. */
  ghost predicate NewlyMet(fs: Functions, leaf: Leaf, c: Child) {
    Met(fs, leaf, c.state) && (c.parent.None? || !Met(fs, leaf, c.parent.value))
  }

  /** Neither meets it, and the gap got smaller. */
  ghost predicate CameCloser(fs: Functions, leaf: Leaf, c: Child) {
    && leaf.Num? && !Met(fs, leaf, c.state)
    && (c.parent.None? ||
        (!Met(fs, leaf, c.parent.value) && Gap(fs, leaf, c.state) < Gap(fs, leaf, c.parent.value)))
  }

  ghost predicate StaysMet(fs: Functions, leaf: Leaf, c: Child) {
    c.parent.Some? && Met(fs, leaf, c.parent.value) && Met(fs, leaf, c.state)
  }

  // Subgoals are undefined in both states or in neither, else comparing them raises.
  ghost predicate Comparable(fs: Functions, leaves: seq<Leaf>, c: Child) {
    c.parent.Some? ==> forall l | 0 <= l < |leaves| ::
      FeatureOf(fs, leaves[l], c.state).Some? <==> FeatureOf(fs, leaves[l], c.parent.value).Some?
  }

  /** The feature of a subgoal: whether it is met, and minus its gap. */
  lemma FeatureExact(fs: Functions, leaf: Leaf, s: Assignment)
    ensures Total(fs, leaf, s).sat <==> Met(fs, leaf, s)
    ensures Total(fs, leaf, s).dist == -Gap(fs, leaf, s)
  {
  }

  /** The feature is what is computed from the operands' constants, in whichever
      representation they come. */
  lemma FeatureComputed(fs: Functions, l: Expr, r: Expr, kind: Kind, s: Assignment, a: Number, b: Number)
    requires Proper(a) && Proper(b)
    requires Eval(l, s, fs) == Some(NumV(Meaning(a))) && Eval(r, s, fs) == Some(NumV(Meaning(b)))
    ensures var (d, sat) := ComputeSdist(a, b, kind);
      ProperDist(d) && FeatureOf(fs, Num(l, r, kind), s) == Some(Feature(sat, Distance(d)))
  {
    ComputeSdistExact(a, b, kind);
  }

  /** Against its parent an unmet subgoal comes closer exactly when the gap got smaller,
      and one newly met always does. */
  lemma ProgressExact(fs: Functions, leaf: Leaf, s: Assignment, parent: Assignment)
    requires leaf.Num? && FeatureOf(fs, leaf, s).Some? && FeatureOf(fs, leaf, parent).Some?
    ensures Total(fs, leaf, s).dist > Total(fs, leaf, parent).dist <==> Gap(fs, leaf, s) < Gap(fs, leaf, parent)
    ensures Met(fs, leaf, s) && !Met(fs, leaf, parent) ==> Gap(fs, leaf, s) < Gap(fs, leaf, parent)
  {
    FeatureExact(fs, leaf, s);
    FeatureExact(fs, leaf, parent);
  }

  function ViewIn(fs: Functions, leaves: seq<Leaf>, c: Child): (v: View)
    ensures Complete(v) && v.leaves == leaves
  {
    ViewOf(fs, leaves, c.state, c.parent)
  }

  lemma ViewExact(fs: Functions, leaves: seq<Leaf>, c: Child, l: nat)
    requires Comparable(fs, leaves, c)
    ensures var v := ViewIn(fs, leaves, c);
      && (l in NewOnes(v) <==> l < |leaves| && NewlyMet(fs, leaves[l], c))
      && (l in ImprovedOnes(v) <==> l < |leaves| && CameCloser(fs, leaves[l], c))
      && (l in CurrentOnes(v) <==> l < |leaves| && Met(fs, leaves[l], c.state))
      && (l in PersistingOnes(v) <==> l < |leaves| && StaysMet(fs, leaves[l], c))
      && (l in UnsatOnes(v) <==> l < |leaves| && leaves[l].Num? && !Met(fs, leaves[l], c.state))
      && (l < |leaves| ==> DistAt(v, l) == -Gap(fs, leaves[l], c.state))
  {
    if l < |leaves| {
      var leaf := leaves[l];
      FeatureExact(fs, leaf, c.state);
      if c.parent.Some? {
        FeatureExact(fs, leaf, c.parent.value);
        if leaf.Num? && FeatureOf(fs, leaf, c.state).Some? {
          ProgressExact(fs, leaf, c.state, c.parent.value);
        }
      }
      hide Gap, Met;
    }
  }

  // ---- records ----

  // What was offered to a table of records, once per child.
  type Offers<!K> = seq<(set<K>, K -> real)>

  /** The table holds the greatest distance offered for each key. */
  ghost predicate Records<K(!new)>(m: map<K, real>, offers: Offers<K>) {
    && (forall k | k in m :: exists i :: 0 <= i < |offers| && k in offers[i].0 && offers[i].1(k) == m[k])
    && forall i, k | 0 <= i < |offers| && k in offers[i].0 :: k in m && offers[i].1(k) <= m[k]
  }

  lemma RecordsMore<K(!new)>(m: map<K, real>, offers: Offers<K>, keys: set<K>, dist: K -> real)
    requires Records(m, offers)
    ensures Records(Raise(m, keys, dist), offers + [(keys, dist)])
  {
    var (now, more) := (Raise(m, keys, dist), offers + [(keys, dist)]);
    forall k | k in now ensures exists i :: 0 <= i < |more| && k in more[i].0 && more[i].1(k) == now[k] {
      if k in keys && (k !in m || dist(k) > m[k]) {
        assert more[|offers|] == (keys, dist);
      } else {
        var i :| 0 <= i < |offers| && k in offers[i].0 && offers[i].1(k) == m[k];
        assert more[i] == offers[i];
      }
    }
  }

  /** A record is beaten exactly when every earlier offer for some key is. */
  lemma BeatsExact<K(!new)>(m: map<K, real>, offers: Offers<K>, keys: set<K>, dist: K -> real)
    requires Records(m, offers)
    ensures Beats(m, keys, dist) <==>
              exists k :: k in keys && forall i | 0 <= i < |offers| && k in offers[i].0 :: offers[i].1(k) < dist(k)
  {
  }

  // ---- the tables of a partition's history ----

  function TablesAfter(fs: Functions, leaves: seq<Leaf>, cs: seq<Child>): Tables {
    if cs == [] then EMPTY
    else After(TablesAfter(fs, leaves, cs[..|cs| - 1]), ViewIn(fs, leaves, cs[|cs| - 1]))
  }

  ghost function BestOffers(fs: Functions, leaves: seq<Leaf>, cs: seq<Child>): Offers<nat> {
    seq(|cs|, i requires 0 <= i < |cs| =>
      (ImprovedOnes(ViewIn(fs, leaves, cs[i])), DistIn(ViewIn(fs, leaves, cs[i]))))
  }

  ghost function PairOffers(fs: Functions, leaves: seq<Leaf>, cs: seq<Child>): Offers<(nat, nat)> {
    seq(|cs|, i requires 0 <= i < |cs| =>
      (ConditionedOnes(ViewIn(fs, leaves, cs[i])), PairDistIn(ViewIn(fs, leaves, cs[i]))))
  }

  function NewPairs(v: View): set<(nat, nat)>
    requires Complete(v)
  {
    PairsOf(NewOnes(v), CurrentOnes(v))
  }

  ghost predicate EverNew(fs: Functions, leaves: seq<Leaf>, cs: seq<Child>, l: nat) {
    exists i :: 0 <= i < |cs| && l in NewOnes(ViewIn(fs, leaves, cs[i]))
  }

  ghost predicate EverPaired(fs: Functions, leaves: seq<Leaf>, cs: seq<Child>, k: (nat, nat)) {
    exists i :: 0 <= i < |cs| && k in NewPairs(ViewIn(fs, leaves, cs[i]))
  }

  lemma EverMore(fs: Functions, leaves: seq<Leaf>, cs: seq<Child>, l: nat, k: (nat, nat))
    requires cs != []
    ensures var (rest, v) := (cs[..|cs| - 1], ViewIn(fs, leaves, cs[|cs| - 1]));
      && (EverNew(fs, leaves, cs, l) <==> EverNew(fs, leaves, rest, l) || l in NewOnes(v))
      && (EverPaired(fs, leaves, cs, k) <==> EverPaired(fs, leaves, rest, k) || k in NewPairs(v))
  {
    hide ViewIn, NewOnes, NewPairs;
    var rest := cs[..|cs| - 1];
    assert forall i | 0 <= i < |rest| :: rest[i] == cs[i];
    if EverNew(fs, leaves, rest, l) {
      var i :| 0 <= i < |rest| && l in NewOnes(ViewIn(fs, leaves, rest[i]));
      assert l in NewOnes(ViewIn(fs, leaves, cs[i]));
    }
    if EverPaired(fs, leaves, rest, k) {
      var i :| 0 <= i < |rest| && k in NewPairs(ViewIn(fs, leaves, rest[i]));
      assert k in NewPairs(ViewIn(fs, leaves, cs[i]));
    }
  }

  // The tables say what the history was.
  lemma {:induction false} SetsRemember(fs: Functions, leaves: seq<Leaf>, cs: seq<Child>, l: nat, k: (nat, nat))
    ensures l in TablesAfter(fs, leaves, cs).psi <==> EverNew(fs, leaves, cs, l)
    ensures k in TablesAfter(fs, leaves, cs).pairs <==> EverPaired(fs, leaves, cs, k)
    decreases |cs|
  {
    hide *;
    if cs == [] {
      NothingRemembered(fs, leaves, l, k);
    } else {
      SetsRemember(fs, leaves, cs[..|cs| - 1], l, k);
      EverMore(fs, leaves, cs, l, k);
      TablesMore(fs, leaves, cs);
    }
  }

  lemma NothingRemembered(fs: Functions, leaves: seq<Leaf>, l: nat, k: (nat, nat))
    ensures TablesAfter(fs, leaves, []) == EMPTY && l !in EMPTY.psi && k !in EMPTY.pairs
    ensures !EverNew(fs, leaves, [], l) && !EverPaired(fs, leaves, [], k)
  {
  }

  lemma TablesMore(fs: Functions, leaves: seq<Leaf>, cs: seq<Child>)
    requires cs != []
    ensures var (t, t') := (TablesAfter(fs, leaves, cs[..|cs| - 1]), TablesAfter(fs, leaves, cs));
      var v := ViewIn(fs, leaves, cs[|cs| - 1]);
      && t'.psi == t.psi + NewOnes(v) && t'.pairs == t.pairs + NewPairs(v)
      && t'.best == Raise(t.best, ImprovedOnes(v), DistIn(v))
      && t'.bestWith == Raise(t.bestWith, ConditionedOnes(v), PairDistIn(v))
  {
    hide ViewIn, NewOnes, CurrentOnes, ImprovedOnes, ConditionedOnes, Raise, PairsOf, DistIn, PairDistIn;
  }

  lemma OffersMore(fs: Functions, leaves: seq<Leaf>, cs: seq<Child>)
    requires cs != []
    ensures var (rest, v) := (cs[..|cs| - 1], ViewIn(fs, leaves, cs[|cs| - 1]));
      && BestOffers(fs, leaves, cs) == BestOffers(fs, leaves, rest) + [(ImprovedOnes(v), DistIn(v))]
      && PairOffers(fs, leaves, cs) == PairOffers(fs, leaves, rest) + [(ConditionedOnes(v), PairDistIn(v))]
  {
    hide ViewIn, ImprovedOnes, ConditionedOnes, DistIn, PairDistIn;
  }

  lemma {:induction false} RecordsRemember(fs: Functions, leaves: seq<Leaf>, cs: seq<Child>)
    ensures Records(TablesAfter(fs, leaves, cs).best, BestOffers(fs, leaves, cs))
    ensures Records(TablesAfter(fs, leaves, cs).bestWith, PairOffers(fs, leaves, cs))
    decreases |cs|
  {
    if cs != [] {
      var rest := cs[..|cs| - 1];
      RecordsRemember(fs, leaves, rest);
      OffersMore(fs, leaves, cs);
      TablesMore(fs, leaves, cs);
      var (t, v) := (TablesAfter(fs, leaves, rest), ViewIn(fs, leaves, cs[|rest|]));
      hide *;
      RecordsMore(t.best, BestOffers(fs, leaves, rest), ImprovedOnes(v), DistIn(v));
      RecordsMore(t.bestWith, PairOffers(fs, leaves, rest), ConditionedOnes(v), PairDistIn(v));
    }
  }

  // ---- what the classes mean ----

  /** A subgoal is newly met that no earlier child newly met, or comes closer than in every
      earlier child in which it came closer. */
  ghost predicate Single(fs: Functions, leaves: seq<Leaf>, cs: seq<Child>, c: Child) {
    exists l :: 0 <= l < |leaves| && (FirstMet(fs, leaves[l], cs, c) || Closest(fs, leaves[l], cs, c))
  }

  ghost predicate FirstMet(fs: Functions, leaf: Leaf, cs: seq<Child>, c: Child) {
    NewlyMet(fs, leaf, c) && forall i | 0 <= i < |cs| :: !NewlyMet(fs, leaf, cs[i])
  }

  ghost predicate Closest(fs: Functions, leaf: Leaf, cs: seq<Child>, c: Child) {
    && CameCloser(fs, leaf, c)
    && forall i | 0 <= i < |cs| && CameCloser(fs, leaf, cs[i]) :: Gap(fs, leaf, c.state) < Gap(fs, leaf, cs[i].state)
  }

  // Both are met, and one of them newly.
  ghost predicate NewlyTogether(fs: Functions, f: Leaf, l: Leaf, c: Child) {
    || (NewlyMet(fs, f, c) && Met(fs, l, c.state))
    || (NewlyMet(fs, l, c) && Met(fs, f, c.state))
  }

  // `f` is newly met while `l` is not, or `l` comes closer while `f` stays met.
  ghost predicate NewlyBeside(fs: Functions, f: Leaf, l: Leaf, c: Child) {
    || (NewlyMet(fs, f, c) && l.Num? && !Met(fs, l, c.state))
    || (StaysMet(fs, f, c) && CameCloser(fs, l, c))
  }

  /** The same of two subgoals: they are met together for the first time, or one comes
      closer beside the other than ever before. */
  ghost predicate Pairwise(fs: Functions, leaves: seq<Leaf>, cs: seq<Child>, c: Child) {
    exists f, l :: 0 <= f < |leaves| && 0 <= l < |leaves| && f != l
      && (FirstTogether(fs, leaves[f], leaves[l], cs, c) || ClosestBeside(fs, leaves[f], leaves[l], cs, c))
  }

  ghost predicate FirstTogether(fs: Functions, f: Leaf, l: Leaf, cs: seq<Child>, c: Child) {
    NewlyTogether(fs, f, l, c) && forall i | 0 <= i < |cs| :: !NewlyTogether(fs, f, l, cs[i])
  }

  ghost predicate ClosestBeside(fs: Functions, f: Leaf, l: Leaf, cs: seq<Child>, c: Child) {
    && NewlyBeside(fs, f, l, c)
    && forall i | 0 <= i < |cs| && NewlyBeside(fs, f, l, cs[i]) :: Gap(fs, l, c.state) < Gap(fs, l, cs[i].state)
  }

  /** The class of a child after its partition's earlier ones. */
  ghost function ClassOf(fs: Functions, leaves: seq<Leaf>, cs: seq<Child>, c: Child): nat {
    if Single(fs, leaves, cs, c) then 1 else if Pairwise(fs, leaves, cs, c) then 2 else 3
  }

  lemma PairIn(fs: Functions, leaves: seq<Leaf>, c: Child, f: nat, l: nat)
    requires Comparable(fs, leaves, c) && f < |leaves| && l < |leaves| && f != l
    ensures Pair(f, l) in NewPairs(ViewIn(fs, leaves, c)) <==> NewlyTogether(fs, leaves[f], leaves[l], c)
    ensures (f, l) in ConditionedOnes(ViewIn(fs, leaves, c)) <==> NewlyBeside(fs, leaves[f], leaves[l], c)
  {
    var v := ViewIn(fs, leaves, c);
    ViewExact(fs, leaves, c, f);
    ViewExact(fs, leaves, c, l);
    hide ViewIn, NewOnes, CurrentOnes, PersistingOnes, UnsatOnes, ImprovedOnes, Met, NewlyMet, CameCloser, StaysMet,
      Comparable;
    assert Pair(f, l) == Pair(l, f);
    if Pair(f, l) in NewPairs(v) {
      var x, y :| x in NewOnes(v) && y in CurrentOnes(v) && x != y && Pair(x, y) == Pair(f, l);
      assert (x == f && y == l) || (x == l && y == f);
    }
  }

  ghost predicate AllComparable(fs: Functions, leaves: seq<Leaf>, cs: seq<Child>) {
    forall i | 0 <= i < |cs| :: Comparable(fs, leaves, cs[i])
  }

  lemma FirstMetExact(fs: Functions, leaves: seq<Leaf>, cs: seq<Child>, c: Child, l: nat)
    requires AllComparable(fs, leaves, cs) && Comparable(fs, leaves, c) && l < |leaves|
    ensures l in NewOnes(ViewIn(fs, leaves, c)) && l !in TablesAfter(fs, leaves, cs).psi <==>
              FirstMet(fs, leaves[l], cs, c)
  {
    SetsRemember(fs, leaves, cs, l, (0, 0));
    ViewExact(fs, leaves, c, l);
    forall i | 0 <= i < |cs| ensures l in NewOnes(ViewIn(fs, leaves, cs[i])) <==> NewlyMet(fs, leaves[l], cs[i]) {
      ViewExact(fs, leaves, cs[i], l);
    }
    hide ViewIn, NewOnes, TablesAfter, NewlyMet, Comparable;
  }

  lemma ClosestExact(fs: Functions, leaves: seq<Leaf>, cs: seq<Child>, c: Child, l: nat)
    requires AllComparable(fs, leaves, cs) && Comparable(fs, leaves, c) && l < |leaves|
    ensures var (es, v) := (BestOffers(fs, leaves, cs), ViewIn(fs, leaves, c));
      (l in ImprovedOnes(v) && forall i | 0 <= i < |es| && l in es[i].0 :: es[i].1(l) < DistIn(v)(l)) <==>
        Closest(fs, leaves[l], cs, c)
  {
    ViewExact(fs, leaves, c, l);
    assert DistIn(ViewIn(fs, leaves, c))(l) == -Gap(fs, leaves[l], c.state);
    var es := BestOffers(fs, leaves, cs);
    forall i | 0 <= i < |cs|
      ensures l in es[i].0 <==> CameCloser(fs, leaves[l], cs[i])
      ensures es[i].1(l) == -Gap(fs, leaves[l], cs[i].state)
    {
      ViewExact(fs, leaves, cs[i], l);
    }
    hide ViewIn, ImprovedOnes, CameCloser, Gap, Comparable, DistAt, DistIn;
  }

  lemma TogetherExact(fs: Functions, leaves: seq<Leaf>, cs: seq<Child>, c: Child, f: nat, l: nat)
    requires AllComparable(fs, leaves, cs) && Comparable(fs, leaves, c) && f < |leaves| && l < |leaves| && f != l
    ensures Pair(f, l) in NewPairs(ViewIn(fs, leaves, c)) && Pair(f, l) !in TablesAfter(fs, leaves, cs).pairs <==>
              FirstTogether(fs, leaves[f], leaves[l], cs, c)
  {
    SetsRemember(fs, leaves, cs, 0, Pair(f, l));
    PairIn(fs, leaves, c, f, l);
    forall i | 0 <= i < |cs|
      ensures Pair(f, l) in NewPairs(ViewIn(fs, leaves, cs[i])) <==> NewlyTogether(fs, leaves[f], leaves[l], cs[i])
    {
      PairIn(fs, leaves, cs[i], f, l);
    }
    hide ViewIn, NewPairs, TablesAfter, NewlyTogether, Comparable, Pair;
  }

  lemma BesideExact(fs: Functions, leaves: seq<Leaf>, cs: seq<Child>, c: Child, f: nat, l: nat)
    requires AllComparable(fs, leaves, cs) && Comparable(fs, leaves, c) && f < |leaves| && l < |leaves| && f != l
    ensures var (es, v, k) := (PairOffers(fs, leaves, cs), ViewIn(fs, leaves, c), (f, l));
      (k in ConditionedOnes(v) && forall i | 0 <= i < |es| && k in es[i].0 :: es[i].1(k) < PairDistIn(v)(k)) <==>
        ClosestBeside(fs, leaves[f], leaves[l], cs, c)
  {
    PairIn(fs, leaves, c, f, l);
    ViewExact(fs, leaves, c, l);
    assert PairDistIn(ViewIn(fs, leaves, c))((f, l)) == -Gap(fs, leaves[l], c.state);
    var es := PairOffers(fs, leaves, cs);
    forall i | 0 <= i < |cs|
      ensures (f, l) in es[i].0 <==> NewlyBeside(fs, leaves[f], leaves[l], cs[i])
      ensures es[i].1((f, l)) == -Gap(fs, leaves[l], cs[i].state)
    {
      PairIn(fs, leaves, cs[i], f, l);
      ViewExact(fs, leaves, cs[i], l);
    }
    hide ViewIn, ConditionedOnes, NewlyBeside, Gap, Comparable, DistAt, PairDistIn;
  }

  lemma SingleExact(fs: Functions, leaves: seq<Leaf>, cs: seq<Child>, c: Child)
    requires AllComparable(fs, leaves, cs) && Comparable(fs, leaves, c)
    ensures Unary(TablesAfter(fs, leaves, cs), ViewIn(fs, leaves, c)) <==> Single(fs, leaves, cs, c)
  {
    var (t, v) := (TablesAfter(fs, leaves, cs), ViewIn(fs, leaves, c));
    RecordsRemember(fs, leaves, cs);
    BeatsExact(t.best, BestOffers(fs, leaves, cs), ImprovedOnes(v), DistIn(v));
    forall l: nat | l < |leaves|
      ensures l in NewOnes(v) && l !in t.psi <==> FirstMet(fs, leaves[l], cs, c)
    {
      FirstMetExact(fs, leaves, cs, c, l);
    }
    forall l: nat | l < |leaves|
      ensures var es := BestOffers(fs, leaves, cs);
        (l in ImprovedOnes(v) && forall i | 0 <= i < |es| && l in es[i].0 :: es[i].1(l) < DistIn(v)(l)) <==>
          Closest(fs, leaves[l], cs, c)
    {
      ClosestExact(fs, leaves, cs, c, l);
    }
    forall l: nat | l in NewOnes(v) || l in ImprovedOnes(v) ensures l < |leaves| {
      ViewExact(fs, leaves, c, l);
    }
    hide NewOnes, ImprovedOnes, ViewIn, TablesAfter, Beats, Records, FirstMet, Closest, BestOffers, DistIn, Comparable;
  }

  // Some pair is met together for the first time.
  lemma PairsExact(fs: Functions, leaves: seq<Leaf>, cs: seq<Child>, c: Child)
    requires AllComparable(fs, leaves, cs) && Comparable(fs, leaves, c)
    ensures (exists k :: k in NewPairs(ViewIn(fs, leaves, c)) && k !in TablesAfter(fs, leaves, cs).pairs) <==>
              exists f, l :: 0 <= f < |leaves| && 0 <= l < |leaves| && f != l
                && FirstTogether(fs, leaves[f], leaves[l], cs, c)
  {
    var (t, v) := (TablesAfter(fs, leaves, cs), ViewIn(fs, leaves, c));
    assert v.leaves == leaves;
    hide NewPairs, ViewIn, TablesAfter, FirstTogether, Pair, Comparable;
    if k :| k in NewPairs(v) && k !in t.pairs {
      PairsInRange(v, k);
      var f: nat, l: nat :| f < |leaves| && l < |leaves| && f != l && k == Pair(f, l);
      TogetherExact(fs, leaves, cs, c, f, l);
    }
    if f, l :| 0 <= f < |leaves| && 0 <= l < |leaves| && f != l && FirstTogether(fs, leaves[f], leaves[l], cs, c) {
      TogetherExact(fs, leaves, cs, c, f, l);
    }
  }

  lemma BesideBeats(fs: Functions, leaves: seq<Leaf>, cs: seq<Child>, c: Child, f: nat, l: nat)
    requires AllComparable(fs, leaves, cs) && Comparable(fs, leaves, c) && f < |leaves| && l < |leaves| && f != l
    requires ClosestBeside(fs, leaves[f], leaves[l], cs, c)
    ensures var v := ViewIn(fs, leaves, c);
      Beats(TablesAfter(fs, leaves, cs).bestWith, ConditionedOnes(v), PairDistIn(v))
  {
    var (t, v, es) := (TablesAfter(fs, leaves, cs), ViewIn(fs, leaves, c), PairOffers(fs, leaves, cs));
    hide ConditionedOnes, ViewIn, TablesAfter, Beats, Records, ClosestBeside, PairOffers, PairDistIn, Comparable,
      AllComparable, Complete;
    RecordsRemember(fs, leaves, cs);
    BeatsExact(t.bestWith, es, ConditionedOnes(v), PairDistIn(v));
    BesideExact(fs, leaves, cs, c, f, l);
    assert (f, l) in ConditionedOnes(v);
  }

  // Some record of a pair is beaten.
  lemma PairRecordsExact(fs: Functions, leaves: seq<Leaf>, cs: seq<Child>, c: Child)
    requires AllComparable(fs, leaves, cs) && Comparable(fs, leaves, c)
    ensures var v := ViewIn(fs, leaves, c);
      Beats(TablesAfter(fs, leaves, cs).bestWith, ConditionedOnes(v), PairDistIn(v)) <==>
        exists f, l :: 0 <= f < |leaves| && 0 <= l < |leaves| && f != l
          && ClosestBeside(fs, leaves[f], leaves[l], cs, c)
  {
    var (t, v, es) := (TablesAfter(fs, leaves, cs), ViewIn(fs, leaves, c), PairOffers(fs, leaves, cs));
    assert v.leaves == leaves;
    hide ConditionedOnes, ViewIn, TablesAfter, Beats, Records, ClosestBeside, PairOffers, PairDistIn, Comparable,
      AllComparable, Complete;
    RecordsRemember(fs, leaves, cs);
    BeatsExact(t.bestWith, es, ConditionedOnes(v), PairDistIn(v));
    if Beats(t.bestWith, ConditionedOnes(v), PairDistIn(v)) {
      var k :| k in ConditionedOnes(v) && forall i | 0 <= i < |es| && k in es[i].0 :: es[i].1(k) < PairDistIn(v)(k);
      PairsApart(v, k);
      assert k == (k.0, k.1);
      BesideExact(fs, leaves, cs, c, k.0, k.1);
    }
    if f, l :| 0 <= f < |leaves| && 0 <= l < |leaves| && f != l && ClosestBeside(fs, leaves[f], leaves[l], cs, c) {
      BesideBeats(fs, leaves, cs, c, f, l);
    }
  }

  lemma PairwiseExact(fs: Functions, leaves: seq<Leaf>, cs: seq<Child>, c: Child)
    requires AllComparable(fs, leaves, cs) && Comparable(fs, leaves, c)
    ensures Binary(TablesAfter(fs, leaves, cs), ViewIn(fs, leaves, c)) <==> Pairwise(fs, leaves, cs, c)
  {
    PairsExact(fs, leaves, cs, c);
    PairRecordsExact(fs, leaves, cs, c);
    hide ConditionedOnes, ViewIn, TablesAfter, Beats, FirstTogether, ClosestBeside, PairDistIn, Comparable, PairsOf,
      NewOnes, CurrentOnes;
  }

  lemma PairsInRange(v: View, k: (nat, nat))
    requires Complete(v) && k in NewPairs(v)
    ensures exists f: nat, l: nat :: f < |v.leaves| && l < |v.leaves| && f != l && k == Pair(f, l)
  {
    var f, l :| f in NewOnes(v) && l in CurrentOnes(v) && f != l && k == Pair(f, l);
  }

  lemma PairsApart(v: View, k: (nat, nat))
    requires Complete(v) && k in ConditionedOnes(v)
    ensures k.0 < |v.leaves| && k.1 < |v.leaves| && k.0 != k.1
  {
  }

  /** The tables of a history give every further child the class that the history says. */
  lemma ClassExact(fs: Functions, leaves: seq<Leaf>, cs: seq<Child>, c: Child)
    requires AllComparable(fs, leaves, cs) && Comparable(fs, leaves, c)
    ensures NoveltyOf(TablesAfter(fs, leaves, cs), ViewIn(fs, leaves, c)) == ClassOf(fs, leaves, cs, c)
  {
    SingleExact(fs, leaves, cs, c);
    PairwiseExact(fs, leaves, cs, c);
    hide Unary, Binary, Single, Pairwise;
  }
}
