/**
 `HMaxExplicit` as it runs: semi-naive rounds that evaluate each expression only
 on combinations with a value it has not seen, skip what no changed fluent can
 affect and remember the conditions found true.  It computes what `ValueLayers`
 defines.
*/
module HMaxExplicit {
  import opened Collections
  import opened Options
  import opened Expr
  import opened Temporal
  import opened Combinations
  import opened ValueLayers

  /** The fluents of each expression, listed once each. */
  type Lists = map<Expr, seq<nat>>

  /** What an evaluation remembers from round to round: the conditions known to be
      true, the sizes conditions and effects were last evaluated at, and the
      operators applied. */
  datatype Tables = Tables(
    known: set<Expr>, sizes: map<Expr, Tuple>, effects: map<(nat, nat), Tuple>, applied: seq<bool>)

  datatype Answer = Failed | Known(b: bool)

  // ---- conditions ----

  // The sizes `past` of an earlier evaluation, at which nothing raised or was true.
  ghost predicate NoneTrue(fs: Functions, e: Expr, fluents: seq<nat>, sets: ValueSets, past: Tuple) {
    && Indexed(fluents, sets)
    && (|past| == |fluents| ==> forall i | 0 <= i < |past| :: past[i] <= Sizes(fluents, sets)[i])
    && forall t | Below(t, Sizes(fluents, sets)) && Seen(past, |fluents|, t) ::
         ValueOf(fs, e, fluents, sets, t).Some? && ValueOf(fs, e, fluents, sets, t) != Some(TRUE)
  }

  ghost predicate Tracks(fs: Functions, lists: Lists, sets: ValueSets, known: set<Expr>, sizes: map<Expr, Tuple>) {
    && (forall e | e in known :: CanTake(fs, e, sets, Some(TRUE)))
    && forall e | e in sizes && e !in known :: e in lists && NoneTrue(fs, e, lists[e], sets, sizes[e])
  }

  lemma NoneTrueNow(
    fs: Functions, e: Expr, fluents: seq<nat>, sets: ValueSets, past: Tuple, trace: seq<Tuple>, values: set<Value>,
    now: Tuple)
    requires Dims(e, fluents, sets) && NoneTrue(fs, e, fluents, sets, past)
    requires forall t :: t in trace <==> Below(t, Sizes(fluents, sets)) && !Seen(past, |fluents|, t)
    requires Collected(fs, e, fluents, sets, trace, values, true)
    requires now == if fluents == [] then [1] else Sizes(fluents, sets)
    ensures NoneTrue(fs, e, fluents, sets, now) && !CanTake(fs, e, sets, Some(TRUE))
  {
    hide ValueOf, CanTake;
    forall t | Below(t, Sizes(fluents, sets))
      ensures ValueOf(fs, e, fluents, sets, t).Some? && ValueOf(fs, e, fluents, sets, t) != Some(TRUE)
    {
      if !Seen(past, |fluents|, t) {
        assert t in trace;
      }
    }
    TuplesCover(fs, e, fluents, sets, Some(TRUE));
  }

  /** Whether `e` can be true, from the combinations it has not been evaluated on. */
  method ExpCanBeTrue(
    fs: Functions, lists: Lists, e: Expr, sets: ValueSets, known: set<Expr>, sizes: map<Expr, Tuple>)
    returns (r: Answer, known': set<Expr>, sizes': map<Expr, Tuple>)
    requires e in lists && Dims(e, lists[e], sets) && Tracks(fs, lists, sets, known, sizes)
    ensures r.Known? ==> Tracks(fs, lists, sets, known', sizes') && (r.b <==> CanTake(fs, e, sets, Some(TRUE)))
    ensures r.Failed? ==> CanTake(fs, e, sets, None)
  {
    known', sizes' := known, sizes;
    if e in known {
      return Known(true), known', sizes';
    }
    var fluents := lists[e];
    var past := if e in sizes then sizes[e] else [];
    assert NoneTrue(fs, e, fluents, sets, past);
    var visit, values, now;
    ghost var trace;
    visit, values, now, trace := ForEachNewValue(fs, e, fluents, sets, past, true);
    hide CanTake, NoneTrue, Collected, Dims;
    match visit {
      case Raised =>
        TuplesCover(fs, e, fluents, sets, None);
        r := Failed;
      case Stopped =>
        TuplesCover(fs, e, fluents, sets, Some(TRUE));
        r, known' := Known(true), known + {e};
      case Completed =>
        NoneTrueNow(fs, e, fluents, sets, past, trace, values, now);
        r, sizes' := Known(false), sizes[e := now];
    }
  }

  // All of `es` can be true, each on its own.
  ghost predicate CanAll(fs: Functions, es: seq<Expr>, sets: ValueSets) {
    forall e | e in es :: CanTake(fs, e, sets, Some(TRUE))
  }

  ghost predicate Listed(lists: Lists, e: Expr, sets: ValueSets) {
    e in lists && Dims(e, lists[e], sets)
  }

  method CanBeTrue(
    fs: Functions, lists: Lists, es: seq<Expr>, sets: ValueSets, known: set<Expr>, sizes: map<Expr, Tuple>)
    returns (r: Answer, known': set<Expr>, sizes': map<Expr, Tuple>)
    requires (forall e | e in es :: Listed(lists, e, sets)) && Tracks(fs, lists, sets, known, sizes)
    ensures r.Known? ==> Tracks(fs, lists, sets, known', sizes') && (r.b <==> CanAll(fs, es, sets))
    ensures r.Failed? ==> exists e :: e in es && CanTake(fs, e, sets, None)
  {
    hide Tracks, CanTake, Dims;
    known', sizes' := known, sizes;
    for i := 0 to |es|
      invariant Tracks(fs, lists, sets, known', sizes')
      invariant forall k | 0 <= k < i :: CanTake(fs, es[k], sets, Some(TRUE))
    {
      assert Listed(lists, es[i], sets);
      r, known', sizes' := ExpCanBeTrue(fs, lists, es[i], sets, known', sizes');
      if r != Known(true) {
        assert es[i] in es;
        return;
      }
    }
    r := Known(true);
  }

  // ---- growing sets ----

  /** The sets of `sets'` extend those of `sets`. */
  ghost predicate Extends(sets: ValueSets, sets': ValueSets) {
    |sets| == |sets'| && forall f | 0 <= f < |sets| :: sets[f] <= sets'[f]
  }

  lemma SameValueLater(fs: Functions, e: Expr, fluents: seq<nat>, sets: ValueSets, sets': ValueSets, t: Tuple)
    requires Indexed(fluents, sets) && Extends(sets, sets') && Below(t, Sizes(fluents, sets))
    requires Dims(e, fluents, sets)
    ensures Indexed(fluents, sets') && Below(t, Sizes(fluents, sets'))
    ensures ValueOf(fs, e, fluents, sets', t) == ValueOf(fs, e, fluents, sets, t)
  {
    forall i | 0 <= i < |t| ensures t[i] < Sizes(fluents, sets')[i] {
      assert t[i] < Sizes(fluents, sets)[i];
      assert sets[fluents[i]] <= sets'[fluents[i]];
    }
    var (s, s') := (Pick(fluents, sets, t), Pick(fluents, sets', t));
    forall f | f in Fluents(e) ensures f < |sets| && s[f] == s'[f] {
      assert f in fluents;
      assert s[f] == PickOne(fluents, sets, t, f) && s'[f] == PickOne(fluents, sets', t, f);
      assert sets[f] <= sets'[f];
    }
    EvalReadsFluents(e, s', s, fs);
  }

  lemma CanTakeLater(fs: Functions, e: Expr, sets: ValueSets, sets': ValueSets, v: Option<Value>)
    requires Extends(sets, sets') && CanTake(fs, e, sets, v)
    ensures CanTake(fs, e, sets', v)
  {
    var s: Assignment :| From(s, e, sets) && Eval(e, s, fs) == v;
    forall f | f in Fluents(e) ensures f < |sets'| && s[f] in sets'[f] {
      assert sets[f] <= sets'[f];
    }
    assert From(s, e, sets');
  }

  lemma NoneTrueLater(fs: Functions, e: Expr, fluents: seq<nat>, sets: ValueSets, sets': ValueSets, past: Tuple)
    requires Dims(e, fluents, sets) && Extends(sets, sets') && NoneTrue(fs, e, fluents, sets, past)
    ensures NoneTrue(fs, e, fluents, sets', past)
  {
    var (z, z') := (Sizes(fluents, sets), Sizes(fluents, sets'));
    assert forall i | 0 <= i < |fluents| :: sets[fluents[i]] <= sets'[fluents[i]] && z[i] <= z'[i];
    hide ValueOf, Extends;
    forall t | Below(t, z') && Seen(past, |fluents|, t)
      ensures ValueOf(fs, e, fluents, sets', t).Some? && ValueOf(fs, e, fluents, sets', t) != Some(TRUE)
    {
      assert Below(t, z);
      SameValueLater(fs, e, fluents, sets, sets', t);
    }
  }

  lemma TracksLater(
    fs: Functions, lists: Lists, sets: ValueSets, sets': ValueSets, known: set<Expr>, sizes: map<Expr, Tuple>)
    requires Extends(sets, sets') && Tracks(fs, lists, sets, known, sizes)
    requires forall e | e in lists :: Listed(lists, e, sets)
    ensures Tracks(fs, lists, sets', known, sizes)
  {
    hide CanTake, NoneTrue, Dims;
    forall e | e in known ensures CanTake(fs, e, sets', Some(TRUE)) {
      CanTakeLater(fs, e, sets, sets', Some(TRUE));
    }
    forall e | e in sizes && e !in known ensures NoneTrue(fs, e, lists[e], sets', sizes[e]) {
      assert Listed(lists, e, sets);
      NoneTrueLater(fs, e, lists[e], sets, sets', sizes[e]);
    }
  }

  // ---- effects ----

  // New values by fluent, found during a round.
  type Found = map<nat, set<Value>>

  function FoundFor(found: Found, f: nat): set<Value> {
    if f in found then found[f] else {}
  }

  // The values of `e` on the combinations seen at sizes `past` are in `got`.
  ghost predicate Gathered(fs: Functions, e: Expr, fluents: seq<nat>, sets: ValueSets, past: Tuple, got: set<Value>) {
    && Indexed(fluents, sets)
    && (|past| == |fluents| ==> forall i | 0 <= i < |past| :: past[i] <= Sizes(fluents, sets)[i])
    && forall t | Below(t, Sizes(fluents, sets)) && Seen(past, |fluents|, t) ::
         ValueOf(fs, e, fluents, sets, t).Some? && ValueOf(fs, e, fluents, sets, t).value in got
  }

  function Members(vs: seq<Value>): set<Value> {
    set v | v in vs
  }

  // All values `e` can take are in `got`.
  ghost predicate AllGathered(fs: Functions, e: Expr, sets: ValueSets, got: set<Value>) {
    forall v | CanTake(fs, e, sets, Some(v)) :: v in got
  }

  lemma GatheredNow(
    fs: Functions, e: Expr, fluents: seq<nat>, sets: ValueSets, past: Tuple, got: set<Value>, trace: seq<Tuple>,
    values: set<Value>, now: Tuple)
    requires Dims(e, fluents, sets) && Gathered(fs, e, fluents, sets, past, got)
    requires forall t :: t in trace <==> Below(t, Sizes(fluents, sets)) && !Seen(past, |fluents|, t)
    requires Collected(fs, e, fluents, sets, trace, values, false)
    requires now == if fluents == [] then [1] else Sizes(fluents, sets)
    ensures Gathered(fs, e, fluents, sets, now, got + values) && AllGathered(fs, e, sets, got + values)
    ensures forall v | v in values :: CanTake(fs, e, sets, Some(v))
  {
    hide ValueOf, CanTake;
    forall t | Below(t, Sizes(fluents, sets))
      ensures ValueOf(fs, e, fluents, sets, t).Some? && ValueOf(fs, e, fluents, sets, t).value in got + values
    {
      if !Seen(past, |fluents|, t) {
        assert t in trace;
      }
    }
    forall v: Value ensures CanTake(fs, e, sets, Some(v)) ==> v in got + values {
      TuplesCover(fs, e, fluents, sets, Some(v));
    }
    forall v | v in values ensures CanTake(fs, e, sets, Some(v)) {
      TuplesCover(fs, e, fluents, sets, Some(v));
    }
  }

  lemma GatheredLater(
    fs: Functions, e: Expr, fluents: seq<nat>, sets: ValueSets, sets': ValueSets, past: Tuple, got: set<Value>,
    got': set<Value>)
    requires Dims(e, fluents, sets) && Extends(sets, sets') && Gathered(fs, e, fluents, sets, past, got) && got <= got'
    ensures Gathered(fs, e, fluents, sets', past, got')
  {
    var (z, z') := (Sizes(fluents, sets), Sizes(fluents, sets'));
    assert forall i | 0 <= i < |fluents| :: sets[fluents[i]] <= sets'[fluents[i]] && z[i] <= z'[i];
    hide ValueOf, Extends;
    forall t | Below(t, z') && Seen(past, |fluents|, t)
      ensures ValueOf(fs, e, fluents, sets', t).Some? && ValueOf(fs, e, fluents, sets', t).value in got'
    {
      assert Below(t, z);
      SameValueLater(fs, e, fluents, sets, sets', t);
    }
  }

  // Every value of `e` gathered when nothing it reads has changed since.
  lemma GatheredUnchanged(fs: Functions, e: Expr, fluents: seq<nat>, sets: ValueSets, past: Tuple, got: set<Value>)
    requires Dims(e, fluents, sets) && Gathered(fs, e, fluents, sets, past, got)
    requires past == if fluents == [] then [1] else Sizes(fluents, sets)
    ensures AllGathered(fs, e, sets, got)
  {
    hide ValueOf, CanTake;
    forall v: Value ensures CanTake(fs, e, sets, Some(v)) ==> v in got {
      TuplesCover(fs, e, fluents, sets, Some(v));
    }
  }

  // ---- the tables between rounds ----

  ghost predicate ValidLists(g: Graph, lists: Lists, sets: ValueSets) {
    && |sets| == g.n
    && (forall e | e in lists :: Listed(lists, e, sets))
    && (forall c | c in g.goals :: c in lists)
    && forall o | o in g.operators :: (forall c | c in o.conditions :: c in lists)
                                    && forall e | e in o.effects :: e.value in lists
  }

  // The sizes an effect was last evaluated at are current, but for fluents changed.
  ghost predicate UpToDate(fluents: seq<nat>, sets: ValueSets, past: Tuple, changed: set<nat>)
    requires Indexed(fluents, sets)
  {
    if fluents == [] then past == [1]
    else |past| == |fluents| && forall i | 0 <= i < |past| && fluents[i] !in changed :: past[i] == |sets[fluents[i]]|
  }

  // What is remembered of the `j`-th effect of an applied operator.
  ghost predicate EffectDone(
    g: Graph, lists: Lists, sets: ValueSets, effects: map<(nat, nat), Tuple>, i: nat, j: nat, changed: set<nat>)
    requires i < |g.operators| && j < |g.operators[i].effects|
  {
    var e := g.operators[i].effects[j];
    && (i, j) in effects && Listed(lists, e.value, sets) && e.fluent < |sets|
    && UpToDate(lists[e.value], sets, effects[(i, j)], changed)
    && Gathered(g.functions, e.value, lists[e.value], sets, effects[(i, j)], Members(sets[e.fluent]))
  }

  ghost predicate Touches(es: seq<Expr>, changed: set<nat>) {
    !(AllFluents(es) !! changed)
  }

  // Whether operator `i` has been applied is known, but for fluents changed.
  ghost predicate OperatorKnown(g: Graph, lists: Lists, sets: ValueSets, tb: Tables, changed: set<nat>, i: nat)
    requires i < |g.operators| == |tb.applied|
  {
    if tb.applied[i] then
      && CanAll(g.functions, g.operators[i].conditions, sets)
      && forall j | 0 <= j < |g.operators[i].effects| :: EffectDone(g, lists, sets, tb.effects, i, j, changed)
    else
      && (forall j: nat :: (i, j) !in tb.effects)
      && (!Touches(g.operators[i].conditions, changed) ==> !CanAll(g.functions, g.operators[i].conditions, sets))
  }

  /** What holds when a round starts: the fluents in `changed` are those that grew
      in the last one. */
  ghost predicate RoundStart(g: Graph, lists: Lists, sets: ValueSets, tb: Tables, changed: set<nat>) {
    && ValidLists(g, lists, sets) && |tb.applied| == |g.operators|
    && Tracks(g.functions, lists, sets, tb.known, tb.sizes)
    && forall i | 0 <= i < |g.operators| :: OperatorKnown(g, lists, sets, tb, changed, i)
  }

  // ---- one operator in a round ----

  // All values of the first `k` effects of operator `i` are in its sets or found.
  ghost predicate EffectsGathered(
    g: Graph, lists: Lists, sets: ValueSets, effects: map<(nat, nat), Tuple>, found: Found, i: nat, k: nat)
    requires i < |g.operators| && k <= |g.operators[i].effects|
  {
    forall j | 0 <= j < k :: EffectGathered(g, lists, sets, effects, found, i, j)
  }

  ghost predicate EffectGathered(
    g: Graph, lists: Lists, sets: ValueSets, effects: map<(nat, nat), Tuple>, found: Found, i: nat, j: nat)
    requires i < |g.operators| && j < |g.operators[i].effects|
  {
    var e := g.operators[i].effects[j];
    && (i, j) in effects && Listed(lists, e.value, sets) && e.fluent < |sets|
    && UpToDate(lists[e.value], sets, effects[(i, j)], {})
    && Gathered(g.functions, e.value, lists[e.value], sets, effects[(i, j)],
                Members(sets[e.fluent]) + FoundFor(found, e.fluent))
    && AllGathered(g.functions, e.value, sets, Members(sets[e.fluent]) + FoundFor(found, e.fluent))
  }

  // Everything found is produced by an operator that can be applied.
  ghost predicate Sound(g: Graph, sets: ValueSets, found: Found) {
    && (forall f | f in found :: f < |sets|)
    && forall f, v | f in found && v in found[f] :: FoundRightly(g, sets, f, v)
  }

  ghost predicate FoundRightly(g: Graph, sets: ValueSets, f: nat, v: Value) {
    exists o, e | o in g.operators && e in o.effects ::
      e.fluent == f && CanAll(g.functions, o.conditions, sets) && CanTake(g.functions, e.value, sets, Some(v))
  }

  ghost predicate MoreFound(found: Found, found': Found) {
    forall f | f in found :: f in found' && found[f] <= found'[f]
  }

  /** Evaluates the effects of an operator that can be applied on what is new. */
  method ApplyEffects(
    g: Graph, lists: Lists, sets: ValueSets, effects: map<(nat, nat), Tuple>, found: Found, i: nat,
    ghost changed: set<nat>)
    returns (ok: bool, effects': map<(nat, nat), Tuple>, found': Found)
    requires i < |g.operators| && ValidLists(g, lists, sets) && WellFormedGraph(g)
    requires CanAll(g.functions, g.operators[i].conditions, sets) && Sound(g, sets, found)
    requires forall j | 0 <= j < |g.operators[i].effects| ::
               (i, j) in effects ==> EffectDone(g, lists, sets, effects, i, j, changed)
    ensures !ok ==> exists e :: e in g.operators[i].effects && CanTake(g.functions, e.value, sets, None)
    ensures ok ==> EffectsGathered(g, lists, sets, effects', found', i, |g.operators[i].effects|)
    ensures ok ==> Sound(g, sets, found') && MoreFound(found, found')
    ensures forall k, j | k != i :: (k, j) in effects' <==> (k, j) in effects
    ensures forall k, j | k != i && (k, j) in effects :: effects'[(k, j)] == effects[(k, j)]
  {
    effects', found' := effects, found;
    var es := g.operators[i].effects;
    hide CanAll, Sound, EffectDone, EffectGathered, WellFormedGraph, ValidLists;
    for j := 0 to |es|
      invariant forall k, l | k != i :: (k, l) in effects' <==> (k, l) in effects
      invariant forall k, l | k != i && (k, l) in effects :: effects'[(k, l)] == effects[(k, l)]
      invariant forall l | j <= l < |es| ::
        (i, l) in effects' ==> EffectDone(g, lists, sets, effects', i, l, changed)
      invariant EffectsGathered(g, lists, sets, effects', found', i, j)
      invariant Sound(g, sets, found') && MoreFound(found, found')
    {
      ghost var (was, wasFound) := (effects', found');
      var now;
      ok, effects', found', now := ApplyEffect(g, lists, sets, effects', found', i, j, changed);
      if !ok {
        return;
      }
      forall l | j < l < |es| && (i, l) in effects' ensures EffectDone(g, lists, sets, effects', i, l, changed) {
        SameEffect(g, lists, sets, was, effects', i, l, changed);
      }
      forall l | 0 <= l < j ensures EffectGathered(g, lists, sets, effects', found', i, l) {
        StillGathered(g, lists, sets, was, effects', wasFound, found', i, l);
      }
    }
    ok := true;
  }

  lemma SameEffect(
    g: Graph, lists: Lists, sets: ValueSets, effects: map<(nat, nat), Tuple>, effects': map<(nat, nat), Tuple>,
    i: nat, j: nat, changed: set<nat>)
    requires i < |g.operators| && j < |g.operators[i].effects| && EffectDone(g, lists, sets, effects, i, j, changed)
    requires (i, j) in effects' && effects'[(i, j)] == effects[(i, j)]
    ensures EffectDone(g, lists, sets, effects', i, j, changed)
  {
  }

  lemma StillGathered(
    g: Graph, lists: Lists, sets: ValueSets, effects: map<(nat, nat), Tuple>, effects': map<(nat, nat), Tuple>,
    found: Found, found': Found, i: nat, j: nat)
    requires i < |g.operators| && j < |g.operators[i].effects|
    requires EffectGathered(g, lists, sets, effects, found, i, j) && MoreFound(found, found')
    requires (i, j) in effects' && effects'[(i, j)] == effects[(i, j)]
    ensures EffectGathered(g, lists, sets, effects', found', i, j)
  {
    var f := g.operators[i].effects[j].fluent;
    assert FoundFor(found, f) <= FoundFor(found', f);
    hide ValueOf, CanTake, Dims;
  }

  method ApplyEffect(
    g: Graph, lists: Lists, sets: ValueSets, effects: map<(nat, nat), Tuple>, found: Found, i: nat, j: nat,
    ghost changed: set<nat>)
    returns (ok: bool, effects': map<(nat, nat), Tuple>, found': Found, now: Tuple)
    requires i < |g.operators| && j < |g.operators[i].effects| && ValidLists(g, lists, sets) && WellFormedGraph(g)
    requires CanAll(g.functions, g.operators[i].conditions, sets) && Sound(g, sets, found)
    requires (i, j) in effects ==> EffectDone(g, lists, sets, effects, i, j, changed)
    ensures !ok ==> exists e :: e in g.operators[i].effects && CanTake(g.functions, e.value, sets, None)
    ensures ok ==> EffectGathered(g, lists, sets, effects', found', i, j)
    ensures ok ==> Sound(g, sets, found') && MoreFound(found, found')
    ensures ok ==> effects' == effects[(i, j) := now]
    ensures !ok ==> effects' == effects
  {
    effects', found' := effects, found;
    var e := g.operators[i].effects[j];
    assert g.operators[i] in g.operators && e in g.operators[i].effects;
    assert Listed(lists, e.value, sets) && e.fluent < |sets|;
    var fluents := lists[e.value];
    var past := if (i, j) in effects then effects[(i, j)] else [];
    ghost var got := Members(sets[e.fluent]);
    assert Gathered(g.functions, e.value, fluents, sets, past, got);
    hide CanTake, ValueOf, WellFormedGraph, ValidLists, CanAll;
    var visit, values;
    ghost var trace;
    visit, values, now, trace := ForEachNewValue(g.functions, e.value, fluents, sets, past, false);
    if visit != Completed {
      TuplesCover(g.functions, e.value, fluents, sets, None);
      return false, effects', found', now;
    }
    GatheredNow(g.functions, e.value, fluents, sets, past, got, trace, values, now);
    found' := found[e.fluent := FoundFor(found, e.fluent) + values];
    effects' := effects[(i, j) := now];
    FindMore(g, sets, found, i, j, values);
    GatheredMore(g.functions, e.value, fluents, sets, now, got + values, got + FoundFor(found', e.fluent));
    ok := true;
  }

  lemma GatheredMore(
    fs: Functions, e: Expr, fluents: seq<nat>, sets: ValueSets, past: Tuple, got: set<Value>, got': set<Value>)
    requires Gathered(fs, e, fluents, sets, past, got) && AllGathered(fs, e, sets, got) && got <= got'
    ensures Gathered(fs, e, fluents, sets, past, got') && AllGathered(fs, e, sets, got')
  {
  }

  lemma FindMore(g: Graph, sets: ValueSets, found: Found, i: nat, j: nat, values: set<Value>)
    requires i < |g.operators| && j < |g.operators[i].effects|
    requires CanAll(g.functions, g.operators[i].conditions, sets) && Sound(g, sets, found)
    requires g.operators[i].effects[j].fluent < |sets|
    requires forall v | v in values :: CanTake(g.functions, g.operators[i].effects[j].value, sets, Some(v))
    ensures var f := g.operators[i].effects[j].fluent;
      Sound(g, sets, found[f := FoundFor(found, f) + values])
  {
    hide CanTake, CanAll;
    var o := g.operators[i];
    var e := o.effects[j];
    assert o in g.operators && e in o.effects;
  }

  /** Operator `i` has been dealt with in this round. */
  ghost predicate OperatorDone(g: Graph, lists: Lists, sets: ValueSets, tb: Tables, found: Found, i: nat)
    requires i < |g.operators| == |tb.applied|
  {
    && (tb.applied[i] <==> CanAll(g.functions, g.operators[i].conditions, sets))
    && if tb.applied[i] then EffectsGathered(g, lists, sets, tb.effects, found, i, |g.operators[i].effects|)
       else forall j: nat :: (i, j) !in tb.effects
  }

  // Only operator `i` has a new entry in the tables.
  ghost predicate OthersSame(tb: Tables, tb': Tables, i: nat)
    requires i < |tb.applied|
  {
    && |tb'.applied| == |tb.applied|
    && forall k | 0 <= k < |tb.applied| && k != i ::
         && tb'.applied[k] == tb.applied[k]
         && forall j: nat :: ((k, j) in tb'.effects <==> (k, j) in tb.effects)
                       && ((k, j) in tb.effects ==> tb'.effects[(k, j)] == tb.effects[(k, j)])
  }

  lemma OtherKnown(g: Graph, lists: Lists, sets: ValueSets, tb: Tables, tb': Tables, changed: set<nat>, i: nat, k: nat)
    requires k < |g.operators| == |tb.applied| && i < |tb.applied| && k != i && OthersSame(tb, tb', i)
    requires OperatorKnown(g, lists, sets, tb, changed, k)
    ensures OperatorKnown(g, lists, sets, tb', changed, k)
  {
    hide EffectDone, CanAll, Touches;
    if tb.applied[k] {
      forall j | 0 <= j < |g.operators[k].effects| ensures EffectDone(g, lists, sets, tb'.effects, k, j, changed) {
        EffectInTable(g, lists, sets, tb.effects, k, j, changed);
        SameEffect(g, lists, sets, tb.effects, tb'.effects, k, j, changed);
      }
    }
  }

  lemma EffectInTable(
    g: Graph, lists: Lists, sets: ValueSets, effects: map<(nat, nat), Tuple>, i: nat, j: nat, changed: set<nat>)
    requires i < |g.operators| && j < |g.operators[i].effects| && EffectDone(g, lists, sets, effects, i, j, changed)
    ensures (i, j) in effects
  {
  }

  lemma OtherDone(
    g: Graph, lists: Lists, sets: ValueSets, tb: Tables, tb': Tables, found: Found, found': Found, i: nat, k: nat)
    requires k < |g.operators| == |tb.applied| && i < |tb.applied| && k != i && OthersSame(tb, tb', i)
    requires OperatorDone(g, lists, sets, tb, found, k) && MoreFound(found, found')
    ensures OperatorDone(g, lists, sets, tb', found', k)
  {
    hide CanAll, EffectGathered;
    if tb.applied[k] {
      forall j | 0 <= j < |g.operators[k].effects| ensures EffectGathered(g, lists, sets, tb'.effects, found', k, j) {
        GatheredInTable(g, lists, sets, tb.effects, found, k, j);
        StillGathered(g, lists, sets, tb.effects, tb'.effects, found, found', k, j);
      }
    }
  }

  lemma GatheredInTable(
    g: Graph, lists: Lists, sets: ValueSets, effects: map<(nat, nat), Tuple>, found: Found, i: nat, j: nat)
    requires i < |g.operators| && j < |g.operators[i].effects| && EffectGathered(g, lists, sets, effects, found, i, j)
    ensures (i, j) in effects
  {
  }

  /** Skipping an applied operator is right when no fluent its effects read has
      changed. */
  lemma SkippedGathered(
    g: Graph, lists: Lists, sets: ValueSets, tb: Tables, found: Found, changed: set<nat>, i: nat)
    requires i < |g.operators| == |tb.applied| && tb.applied[i] && OperatorKnown(g, lists, sets, tb, changed, i)
    requires EffectReads(g.operators[i].effects) !! changed
    ensures OperatorDone(g, lists, sets, tb, found, i)
  {
    hide CanAll;
    forall j | 0 <= j < |g.operators[i].effects| ensures EffectGathered(g, lists, sets, tb.effects, found, i, j) {
      assert EffectDone(g, lists, sets, tb.effects, i, j, changed);
      EffectReadsValue(g.operators[i].effects, g.operators[i].effects[j]);
      SkippedEffect(g, lists, sets, tb.effects, found, i, j, changed);
    }
  }

  lemma SkippedEffect(
    g: Graph, lists: Lists, sets: ValueSets, effects: map<(nat, nat), Tuple>, found: Found, i: nat, j: nat,
    changed: set<nat>)
    requires i < |g.operators| && j < |g.operators[i].effects| && EffectDone(g, lists, sets, effects, i, j, changed)
    requires Fluents(g.operators[i].effects[j].value) !! changed
    ensures EffectGathered(g, lists, sets, effects, found, i, j)
  {
    var e := g.operators[i].effects[j];
    var (fluents, past) := (lists[e.value], effects[(i, j)]);
    assert forall q | 0 <= q < |fluents| :: fluents[q] in fluents && fluents[q] in Fluents(e.value);
    assert fluents != [] ==> past == Sizes(fluents, sets);
    hide ValueOf, CanTake;
    GatheredUnchanged(g.functions, e.value, fluents, sets, past, Members(sets[e.fluent]));
  }

  // Some expression of the task raises on a choice from the sets.
  ghost predicate Raises(g: Graph, sets: ValueSets) {
    || (exists c :: c in g.goals && CanTake(g.functions, c, sets, None))
    || (exists o, c :: o in g.operators && c in o.conditions && CanTake(g.functions, c, sets, None))
    || (exists o, e :: o in g.operators && e in o.effects && CanTake(g.functions, e.value, sets, None))
  }

  /** One operator of a round. */
  method ProcessOperator(
    g: Graph, lists: Lists, sets: ValueSets, tb: Tables, found: Found, changed: set<nat>, i: nat)
    returns (ok: bool, tb': Tables, found': Found)
    requires WellFormedGraph(g) && ValidLists(g, lists, sets) && i < |g.operators| == |tb.applied|
    requires Tracks(g.functions, lists, sets, tb.known, tb.sizes) && OperatorKnown(g, lists, sets, tb, changed, i)
    requires Sound(g, sets, found)
    ensures !ok ==> Raises(g, sets)
    ensures ok ==> Tracks(g.functions, lists, sets, tb'.known, tb'.sizes) && OthersSame(tb, tb', i)
    ensures ok ==> OperatorDone(g, lists, sets, tb', found', i)
    ensures ok ==> Sound(g, sets, found') && MoreFound(found, found')
  {
    var o := g.operators[i];
    assert o in g.operators;
    tb', found' := tb, found;
    hide Tracks, CanTake, EffectDone, EffectGathered, WellFormedGraph, Sound, CanAll;
    if tb.applied[i] {
      if EffectReads(o.effects) !! changed {
        SkippedGathered(g, lists, sets, tb, found, changed, i);
        return true, tb', found';
      }
    } else if !(exists c | c in AllFluents(o.conditions) :: c in changed) {
      assert !Touches(o.conditions, changed);
      return true, tb', found';
    } else {
      var r, known, sizes := CanBeTrueOf(g, lists, o, sets, tb.known, tb.sizes);
      if r.Failed? {
        return false, tb', found';
      }
      tb' := tb'.(known := known, sizes := sizes);
      if !r.b {
        return true, tb', found';
      }
      tb' := tb'.(applied := tb'.applied[i := true]);
    }
    var effects';
    ok, effects', found' := ApplyEffects(g, lists, sets, tb.effects, found, i, changed);
    tb' := tb'.(effects := effects');
  }

  method CanBeTrueOf(
    g: Graph, lists: Lists, o: Operator, sets: ValueSets, known: set<Expr>, sizes: map<Expr, Tuple>)
    returns (r: Answer, known': set<Expr>, sizes': map<Expr, Tuple>)
    requires ValidLists(g, lists, sets) && o in g.operators && Tracks(g.functions, lists, sets, known, sizes)
    ensures r.Known? ==>
              Tracks(g.functions, lists, sets, known', sizes') && (r.b <==> CanAll(g.functions, o.conditions, sets))
    ensures r.Failed? ==> Raises(g, sets)
  {
    hide Tracks, CanTake, CanAll;
    r, known', sizes' := CanBeTrue(g.functions, lists, o.conditions, sets, known, sizes);
  }

  // ---- one round ----

  /** All operators, evaluated on the same sets. */
  method EvaluateOperators(g: Graph, lists: Lists, sets: ValueSets, tb: Tables, changed: set<nat>)
    returns (ok: bool, tb': Tables, found: Found)
    requires WellFormedGraph(g) && RoundStart(g, lists, sets, tb, changed)
    ensures !ok ==> Raises(g, sets)
    ensures ok ==> |tb'.applied| == |g.operators| && Tracks(g.functions, lists, sets, tb'.known, tb'.sizes)
    ensures ok ==> forall i | 0 <= i < |g.operators| :: OperatorDone(g, lists, sets, tb', found, i)
    ensures ok ==> Sound(g, sets, found)
  {
    tb', found := tb, map[];
    hide Tracks, OperatorDone, OperatorKnown, Raises, WellFormedGraph, OthersSame, MoreFound, ValidLists, FoundRightly;
    for i := 0 to |g.operators|
      invariant |tb'.applied| == |g.operators| && Tracks(g.functions, lists, sets, tb'.known, tb'.sizes)
      invariant forall k | 0 <= k < i :: OperatorDone(g, lists, sets, tb', found, k)
      invariant forall k | i <= k < |g.operators| :: OperatorKnown(g, lists, sets, tb', changed, k)
      invariant Sound(g, sets, found)
    {
      var next, found';
      ok, next, found' := ProcessOperator(g, lists, sets, tb', found, changed, i);
      if !ok {
        return;
      }
      OthersKeep(g, lists, sets, tb', next, found, found', changed, i);
      tb', found := next, found';
    }
    ok := true;
  }

  lemma OthersKeep(
    g: Graph, lists: Lists, sets: ValueSets, tb: Tables, tb': Tables, found: Found, found': Found,
    changed: set<nat>, i: nat)
    requires i < |g.operators| == |tb.applied| && OthersSame(tb, tb', i) && MoreFound(found, found')
    requires forall k | 0 <= k < i :: OperatorDone(g, lists, sets, tb, found, k)
    requires forall k | i <= k < |g.operators| :: OperatorKnown(g, lists, sets, tb, changed, k)
    ensures |tb'.applied| == |g.operators|
    ensures forall k | 0 <= k < i :: OperatorDone(g, lists, sets, tb', found', k)
    ensures forall k | i < k < |g.operators| :: OperatorKnown(g, lists, sets, tb', changed, k)
  {
    assert |tb'.applied| == |tb.applied|;
    hide OperatorDone, OperatorKnown, OthersSame, MoreFound;
    forall k | 0 <= k < i ensures OperatorDone(g, lists, sets, tb', found', k) {
      OtherDone(g, lists, sets, tb, tb', found, found', i, k);
    }
    forall k | i < k < |g.operators| ensures OperatorKnown(g, lists, sets, tb', changed, k) {
      OtherKnown(g, lists, sets, tb, tb', changed, i, k);
    }
  }

  // ---- from one round to the next ----

  // What became of the values `vs` of one fluent when `more` were found.
  ghost predicate GrownOne(vs: seq<Value>, more: set<Value>, vs': seq<Value>, changed: bool) {
    vs <= vs' && Members(vs') == Members(vs) + more && (changed <==> vs' != vs)
  }

  // `sets'` are `sets` with what was found, and `changed` the fluents that grew.
  ghost predicate Grown(sets: ValueSets, found: Found, sets': ValueSets, changed: set<nat>) {
    && |sets'| == |sets|
    && (forall f | 0 <= f < |sets| :: GrownOne(sets[f], FoundFor(found, f), sets'[f], f in changed))
    && forall f | f in changed :: f < |sets|
  }

  lemma NothingGrown(vs: seq<Value>)
    ensures GrownOne(vs, {}, vs, false)
  {
  }

  // ... and what they were, for the fluents in `rest`.
  ghost predicate GrownBut(sets: ValueSets, found: Found, rest: set<nat>, sets': ValueSets, changed: set<nat>) {
    && |sets'| == |sets|
    && (forall f | 0 <= f < |sets| ::
          if f in rest then sets'[f] == sets[f] && f !in changed
          else GrownOne(sets[f], FoundFor(found, f), sets'[f], f in changed))
    && forall f | f in changed :: f < |sets|
  }

  lemma NotGrownYet(sets: ValueSets, found: Found)
    ensures GrownBut(sets, found, found.Keys, sets, {})
  {
    forall f | 0 <= f < |sets| && f !in found ensures GrownOne(sets[f], FoundFor(found, f), sets[f], false) {
      NothingGrown(sets[f]);
    }
  }

  lemma GrowStep(
    sets: ValueSets, found: Found, rest: set<nat>, sets': ValueSets, changed: set<nat>, f: nat, vs: seq<Value>)
    requires GrownBut(sets, found, rest, sets', changed) && f in rest && f < |sets|
    requires GrownOne(sets[f], FoundFor(found, f), vs, vs != sets[f])
    ensures GrownBut(sets, found, rest - {f}, sets'[f := vs], if vs != sets[f] then changed + {f} else changed)
  {
    hide GrownOne, FoundFor;
  }

  /** Inserts the values found, in any order, those not yet there at the end. */
  method Grow(sets: ValueSets, found: Found) returns (sets': ValueSets, changed: set<nat>)
    requires forall f | f in found :: f < |sets|
    ensures Grown(sets, found, sets', changed)
  {
    sets', changed := sets, {};
    var rest := found.Keys;
    NotGrownYet(sets, found);
    while rest != {}
      invariant rest <= found.Keys && GrownBut(sets, found, rest, sets', changed)
      decreases |rest|
    {
      hide GrownBut, GrownOne;
      var f :| f in rest;
      var vs := InsertAll(sets[f], found[f]);
      InsertedGrown(sets[f], found[f], vs);
      GrowStep(sets, found, rest, sets', changed, f, vs);
      AllThere(sets, found, rest, sets', changed);
      rest := rest - {f};
      sets' := sets'[f := vs];
      if vs != sets[f] {
        changed := changed + {f};
      }
    }
  }

  lemma AllThere(sets: ValueSets, found: Found, rest: set<nat>, sets': ValueSets, changed: set<nat>)
    requires GrownBut(sets, found, rest, sets', changed)
    ensures |sets'| == |sets|
  {
  }

  lemma InsertedGrown(vs: seq<Value>, more: set<Value>, vs': seq<Value>)
    requires vs <= vs' && Members(vs') == Members(vs) + more
    ensures GrownOne(vs, more, vs', vs' != vs)
  {
  }

  lemma GrownExtends(sets: ValueSets, found: Found, sets': ValueSets, changed: set<nat>)
    requires Grown(sets, found, sets', changed)
    ensures Extends(sets, sets')
    ensures forall f | 0 <= f < |sets| && f !in changed :: sets'[f] == sets[f]
  {
  }

  method InsertAll(vs: seq<Value>, more: set<Value>) returns (vs': seq<Value>)
    ensures vs <= vs' && Members(vs') == Members(vs) + more
  {
    vs' := vs;
    var rest := more;
    while rest != {}
      invariant rest <= more && vs <= vs' && Members(vs') == Members(vs) + (more - rest)
      decreases |rest|
    {
      var v :| v in rest;
      rest := rest - {v};
      assert v in vs' <==> v in Members(vs');
      assert Members(vs' + [v]) == Members(vs') + {v};
      if v !in vs' {
        vs' := vs' + [v];
      }
    }
  }

  lemma UnchangedCanTake(fs: Functions, e: Expr, sets: ValueSets, sets': ValueSets, v: Option<Value>)
    requires |sets| == |sets'| && forall f | f in Fluents(e) && f < |sets| :: sets'[f] == sets[f]
    requires CanTake(fs, e, sets', v)
    ensures CanTake(fs, e, sets, v)
  {
    var s: Assignment :| From(s, e, sets') && Eval(e, s, fs) == v;
    assert From(s, e, sets);
  }

  lemma ListsLater(g: Graph, lists: Lists, sets: ValueSets, sets': ValueSets)
    requires ValidLists(g, lists, sets) && |sets'| == |sets|
    ensures ValidLists(g, lists, sets')
  {
  }

  lemma EffectDoneNext(
    g: Graph, lists: Lists, sets: ValueSets, effects: map<(nat, nat), Tuple>, found: Found, sets': ValueSets,
    changed: set<nat>, i: nat, j: nat)
    requires i < |g.operators| && j < |g.operators[i].effects| && EffectGathered(g, lists, sets, effects, found, i, j)
    requires Grown(sets, found, sets', changed)
    ensures EffectDone(g, lists, sets', effects, i, j, changed)
  {
    var e := g.operators[i].effects[j];
    var (fluents, past) := (lists[e.value], effects[(i, j)]);
    assert forall q | 0 <= q < |fluents| :: fluents[q] < |sets|;
    hide ValueOf, CanTake, AllGathered;
    GatheredLater(g.functions, e.value, fluents, sets, sets', past,
                  Members(sets[e.fluent]) + FoundFor(found, e.fluent), Members(sets'[e.fluent]));
  }

  lemma OperatorKnownNext(
    g: Graph, lists: Lists, sets: ValueSets, tb: Tables, found: Found, sets': ValueSets, changed: set<nat>, i: nat)
    requires i < |g.operators| == |tb.applied| && OperatorDone(g, lists, sets, tb, found, i)
    requires Grown(sets, found, sets', changed)
    ensures OperatorKnown(g, lists, sets', tb, changed, i)
  {
    GrownExtends(sets, found, sets', changed);
    hide EffectGathered, EffectDone, CanTake, Touches, Grown;
    var conditions := g.operators[i].conditions;
    if tb.applied[i] {
      forall c | c in conditions ensures CanTake(g.functions, c, sets', Some(TRUE)) {
        CanTakeLater(g.functions, c, sets, sets', Some(TRUE));
      }
      forall j | 0 <= j < |g.operators[i].effects| ensures EffectDone(g, lists, sets', tb.effects, i, j, changed) {
        EffectDoneNext(g, lists, sets, tb.effects, found, sets', changed, i, j);
      }
    } else if !Touches(conditions, changed) && CanAll(g.functions, conditions, sets') {
      forall c | c in conditions ensures CanTake(g.functions, c, sets, Some(TRUE)) {
        MemberReads(conditions, c);
        UnchangedCanTake(g.functions, c, sets, sets', Some(TRUE));
      }
    }
  }

  lemma RoundNext(
    g: Graph, lists: Lists, sets: ValueSets, tb: Tables, found: Found, sets': ValueSets, changed: set<nat>)
    requires ValidLists(g, lists, sets) && |tb.applied| == |g.operators|
    requires Tracks(g.functions, lists, sets, tb.known, tb.sizes)
    requires forall i | 0 <= i < |g.operators| :: OperatorDone(g, lists, sets, tb, found, i)
    requires Grown(sets, found, sets', changed)
    ensures RoundStart(g, lists, sets', tb, changed)
  {
    GrownExtends(sets, found, sets', changed);
    ListsLater(g, lists, sets, sets');
    TracksLater(g.functions, lists, sets, sets', tb.known, tb.sizes);
    hide OperatorDone, OperatorKnown, Tracks, ValidLists, Grown;
    forall i | 0 <= i < |g.operators| ensures OperatorKnown(g, lists, sets', tb, changed, i) {
      OperatorKnownNext(g, lists, sets, tb, found, sets', changed, i);
    }
  }

  // ---- the layers ----

  /** The sets are those of layer `d`. */
  ghost predicate IsLayer(g: Graph, start: Start, d: nat, sets: ValueSets) {
    |sets| == g.n && forall f: nat, v :: f < g.n ==> (v in sets[f] <==> Reachable(g, start, d, f, v))
  }

  lemma LayerTakes(g: Graph, start: Start, d: nat, sets: ValueSets, e: Expr, v: Option<Value>)
    requires IsLayer(g, start, d, sets)
    ensures CanTake(g.functions, e, sets, v) <==> Takes(g, start, d, e, v)
  {
    hide Reachable;
    if CanTake(g.functions, e, sets, v) {
      var s: Assignment :| From(s, e, sets) && Eval(e, s, g.functions) == v;
      assert Chosen(g, start, d, e, s);
    }
    if Takes(g, start, d, e, v) {
      var s: Assignment :| Chosen(g, start, d, e, s) && Eval(e, s, g.functions) == v;
      assert From(s, e, sets);
    }
  }

  lemma LayerAll(g: Graph, start: Start, d: nat, sets: ValueSets, es: seq<Expr>)
    requires IsLayer(g, start, d, sets)
    ensures CanAll(g.functions, es, sets) <==> forall e | e in es :: Takes(g, start, d, e, Some(TRUE))
  {
    hide IsLayer, CanTake, Takes;
    forall e | e in es ensures CanTake(g.functions, e, sets, Some(TRUE)) <==> Takes(g, start, d, e, Some(TRUE)) {
      LayerTakes(g, start, d, sets, e, Some(TRUE));
    }
  }

  lemma FoundIsProduced(g: Graph, start: Start, d: nat, sets: ValueSets, f: nat, v: Value)
    requires IsLayer(g, start, d, sets) && FoundRightly(g, sets, f, v)
    ensures Produced(g, start, d, f, v)
  {
    hide IsLayer, CanTake, CanAll, Takes;
    var o, e :| o in g.operators && e in o.effects && e.fluent == f
      && CanAll(g.functions, o.conditions, sets) && CanTake(g.functions, e.value, sets, Some(v));
    LayerAll(g, start, d, sets, o.conditions);
    LayerTakes(g, start, d, sets, e.value, Some(v));
    assert Enabled(g, start, d, o);
  }

  lemma ProducedIsFound(
    g: Graph, lists: Lists, start: Start, d: nat, sets: ValueSets, tb: Tables, found: Found, f: nat, v: Value)
    requires IsLayer(g, start, d, sets) && |tb.applied| == |g.operators| && Produced(g, start, d, f, v)
    requires forall i | 0 <= i < |g.operators| :: OperatorDone(g, lists, sets, tb, found, i)
    ensures f < |sets| && (v in sets[f] || v in FoundFor(found, f))
  {
    hide IsLayer, CanTake, CanAll, Takes, Gathered, UpToDate, Listed;
    var o, e :| o in g.operators && e in o.effects && e.fluent == f
      && Enabled(g, start, d, o) && Takes(g, start, d, e.value, Some(v));
    var i: nat :| i < |g.operators| && g.operators[i] == o;
    var j: nat :| j < |o.effects| && o.effects[j] == e;
    LayerAll(g, start, d, sets, o.conditions);
    LayerTakes(g, start, d, sets, e.value, Some(v));
    assert OperatorDone(g, lists, sets, tb, found, i);
    assert EffectGathered(g, lists, sets, tb.effects, found, i, j);
  }

  /** A round leads to the next layer: the fluents it leaves out could not have
      changed anything. */
  lemma LayerNext(
    g: Graph, lists: Lists, start: Start, d: nat, sets: ValueSets, tb: Tables, found: Found, sets': ValueSets,
    changed: set<nat>)
    requires IsLayer(g, start, d, sets) && |tb.applied| == |g.operators| && Sound(g, sets, found)
    requires forall i | 0 <= i < |g.operators| :: OperatorDone(g, lists, sets, tb, found, i)
    requires Grown(sets, found, sets', changed)
    ensures IsLayer(g, start, d + 1, sets')
  {
    hide OperatorDone, FoundRightly, Produced;
    forall f: nat, v | f < g.n ensures v in sets'[f] <==> Reachable(g, start, d + 1, f, v) {
      assert v in sets'[f] <==> v in Members(sets'[f]);
      assert v in sets[f] <==> v in Members(sets[f]);
      if v in FoundFor(found, f) {
        FoundIsProduced(g, start, d, sets, f, v);
      }
      if Produced(g, start, d, f, v) {
        ProducedIsFound(g, lists, start, d, sets, tb, found, f, v);
      }
    }
  }

  // ---- the heuristic ----

  datatype Estimate = Error | DeadEnd | Depth(d: nat) | Unfinished

  /** The fluents of an expression, leftmost occurrence first. */
  function Leaves(e: Expr): seq<nat> {
    match e
    case Const(_) => []
    case Fluent(f) => [f]
    case Not(a) => Leaves(a)
    case And(es) => AllLeaves(es)
    case Or(es) => AllLeaves(es)
    case Plus(es) => AllLeaves(es)
    case Times(es) => AllLeaves(es)
    case Call(_, es) => AllLeaves(es)
    case Equals(l, r) => Leaves(l) + Leaves(r)
    case Le(l, r) => Leaves(l) + Leaves(r)
    case Lt(l, r) => Leaves(l) + Leaves(r)
    case Minus(l, r) => Leaves(l) + Leaves(r)
    case Div(l, r) => Leaves(l) + Leaves(r)
  }

  function AllLeaves(es: seq<Expr>): seq<nat> {
    if es == [] then [] else Leaves(es[0]) + AllLeaves(es[1..])
  }

  lemma {:induction false} LeavesAreFluents(e: Expr)
    ensures forall f :: f in Leaves(e) <==> f in Fluents(e)
  {
    match e
    case Const(_) =>
    case Fluent(f) =>
    case Not(a) => LeavesAreFluents(a);
    case And(es) => AllLeavesAreFluents(es);
    case Or(es) => AllLeavesAreFluents(es);
    case Plus(es) => AllLeavesAreFluents(es);
    case Times(es) => AllLeavesAreFluents(es);
    case Call(_, es) => AllLeavesAreFluents(es);
    case Equals(l, r) => LeavesAreFluents(l); LeavesAreFluents(r);
    case Le(l, r) => LeavesAreFluents(l); LeavesAreFluents(r);
    case Lt(l, r) => LeavesAreFluents(l); LeavesAreFluents(r);
    case Minus(l, r) => LeavesAreFluents(l); LeavesAreFluents(r);
    case Div(l, r) => LeavesAreFluents(l); LeavesAreFluents(r);
  }

  lemma {:induction false} AllLeavesAreFluents(es: seq<Expr>)
    ensures forall f :: f in AllLeaves(es) <==> f in AllFluents(es)
  {
    if es != [] {
      LeavesAreFluents(es[0]);
      AllLeavesAreFluents(es[1..]);
    }
  }

  // `fluents` are those of `e`, once each.
  ghost predicate ListsFluents(fluents: seq<nat>, e: Expr) {
    && (forall i, j | 0 <= i < j < |fluents| :: fluents[i] != fluents[j])
    && forall f :: f in fluents <==> f in Fluents(e)
  }

  method DedupFluents(e: Expr) returns (fluents: seq<nat>)
    ensures ListsFluents(fluents, e)
  {
    fluents := [];
    var leaves := Leaves(e);
    for k := 0 to |leaves|
      invariant forall i, j | 0 <= i < j < |fluents| :: fluents[i] != fluents[j]
      invariant forall f :: f in fluents <==> f in leaves[..k]
    {
      if leaves[k] !in fluents {
        fluents := fluents + [leaves[k]];
      }
    }
    assert leaves[..|leaves|] == leaves;
    LeavesAreFluents(e);
  }

  /** The lists for all expressions of `es`. */
  method ListAll(es: seq<Expr>, lists: Lists) returns (lists': Lists)
    requires forall e | e in lists :: ListsFluents(lists[e], e)
    ensures forall e | e in lists' :: ListsFluents(lists'[e], e)
    ensures lists'.Keys == lists.Keys + set e | e in es
  {
    lists' := lists;
    hide ListsFluents;
    for i := 0 to |es|
      invariant forall e | e in lists' :: ListsFluents(lists'[e], e)
      invariant lists'.Keys == lists.Keys + set e | e in es[..i]
    {
      if es[i] !in lists' {
        var fluents := DedupFluents(es[i]);
        lists' := lists'[es[i] := fluents];
      }
      assert es[..i + 1] == es[..i] + [es[i]];
    }
    assert es[..|es|] == es;
  }

  // ... of one operator.
  method ListOperator(o: Operator, lists: Lists) returns (lists': Lists)
    requires forall e | e in lists :: ListsFluents(lists[e], e)
    ensures forall e | e in lists' :: ListsFluents(lists'[e], e)
    ensures lists'.Keys == lists.Keys + OperatorExprs(o)
  {
    hide ListsFluents;
    lists' := ListAll(o.conditions, lists);
    var values := seq(|o.effects|, i requires 0 <= i < |o.effects| => o.effects[i].value);
    ghost var was := lists'.Keys;
    lists' := ListAll(values, lists');
    forall e ensures e in values <==> exists x :: x in o.effects && x.value == e {
      if x :| x in o.effects && x.value == e {
        var i :| 0 <= i < |o.effects| && o.effects[i] == x;
        assert values[i] == e;
      }
    }
  }

  ghost function OperatorExprs(o: Operator): set<Expr> {
    (set c | c in o.conditions) + (set e | e in o.effects :: e.value)
  }

  // The lists of the goals and the first `i` operators.
  ghost predicate BuiltUpTo(g: Graph, lists: Lists, i: nat)
    requires i <= |g.operators|
  {
    && (forall e | e in lists :: ListsFluents(lists[e], e))
    && (forall e | e in lists :: e in g.goals || exists k :: 0 <= k < i && e in OperatorExprs(g.operators[k]))
    && (forall c | c in g.goals :: c in lists)
    && forall k | 0 <= k < i :: OperatorExprs(g.operators[k]) <= lists.Keys
  }

  /** The lists of all expressions of a task. */
  method BuildLists(g: Graph) returns (lists: Lists)
    requires WellFormedGraph(g)
    ensures forall sets: ValueSets | |sets| == g.n :: ValidLists(g, lists, sets)
  {
    hide ListsFluents, WellFormedGraph, OperatorExprs, ValidLists;
    lists := map[];
    lists := ListAll(g.goals, lists);
    for i := 0 to |g.operators|
      invariant BuiltUpTo(g, lists, i)
    {
      var lists' := ListOperator(g.operators[i], lists);
      BuiltOne(g, lists, lists', i);
      lists := lists';
    }
    forall sets: ValueSets | |sets| == g.n ensures ValidLists(g, lists, sets) {
      BuiltLists(g, lists, sets);
    }
  }

  lemma BuiltOne(g: Graph, lists: Lists, lists': Lists, i: nat)
    requires i < |g.operators| && BuiltUpTo(g, lists, i)
    requires forall e | e in lists' :: ListsFluents(lists'[e], e)
    requires lists'.Keys == lists.Keys + OperatorExprs(g.operators[i])
    ensures BuiltUpTo(g, lists', i + 1)
  {
    hide ListsFluents, OperatorExprs;
    forall e | e in lists'
      ensures e in g.goals || exists k :: 0 <= k < i + 1 && e in OperatorExprs(g.operators[k])
    {
      if e !in lists {
        assert e in OperatorExprs(g.operators[i]);
      }
    }
  }

  lemma BuiltLists(g: Graph, lists: Lists, sets: ValueSets)
    requires WellFormedGraph(g) && |sets| == g.n && BuiltUpTo(g, lists, |g.operators|)
    ensures ValidLists(g, lists, sets)
  {
    forall e | e in lists ensures Listed(lists, e, sets) {
      assert Within(g.n, e);
      var fluents := lists[e];
      assert ListsFluents(fluents, e);
      assert forall i | 0 <= i < |fluents| :: fluents[i] in fluents && fluents[i] in Fluents(e);
    }
    forall o | o in g.operators
      ensures (forall c | c in o.conditions :: c in lists) && forall e | e in o.effects :: e.value in lists
    {
      var k :| 0 <= k < |g.operators| && g.operators[k] == o;
      assert OperatorExprs(g.operators[k]) <= lists.Keys;
    }
  }

  // ---- the first round, and what a round concludes ----

  lemma FirstRound(g: Graph, lists: Lists, start: Start, tb: Tables, changed: set<nat>)
    requires WellFormedGraph(g) && |start| == g.n && ValidLists(g, lists, start)
    requires tb.known == {} && tb.sizes == map[] && tb.effects == map[]
    requires |tb.applied| == |g.operators| && forall i | 0 <= i < |tb.applied| :: !tb.applied[i]
    requires changed == Upto(g.n)
    ensures RoundStart(g, lists, start, tb, changed) && IsLayer(g, start, 0, start)
  {
    forall i | 0 <= i < |g.operators| ensures OperatorKnown(g, lists, start, tb, changed, i) {
      var o := g.operators[i];
      assert o in g.operators;
      var c :| c in o.conditions && Fluents(c) != {};
      var f :| f in Fluents(c);
      MemberReads(o.conditions, c);
      assert Within(g.n, c);
      assert f in changed && f in AllFluents(o.conditions);
    }
  }

  ghost predicate RaisesAt(g: Graph, start: Start, d: nat) {
    || (exists c :: c in g.goals && Takes(g, start, d, c, None))
    || (exists o, c :: o in g.operators && c in o.conditions && Takes(g, start, d, c, None))
    || (exists o, e :: o in g.operators && e in o.effects && Takes(g, start, d, e.value, None))
  }

  lemma RaisesInLayer(g: Graph, start: Start, d: nat, sets: ValueSets)
    requires IsLayer(g, start, d, sets) && Raises(g, sets)
    ensures RaisesAt(g, start, d)
  {
    hide IsLayer, CanTake, Takes;
    if c :| c in g.goals && CanTake(g.functions, c, sets, None) {
      LayerTakes(g, start, d, sets, c, None);
    } else if o, c :| o in g.operators && c in o.conditions && CanTake(g.functions, c, sets, None) {
      LayerTakes(g, start, d, sets, c, None);
    } else {
      var o, e :| o in g.operators && e in o.effects && CanTake(g.functions, e.value, sets, None);
      LayerTakes(g, start, d, sets, e.value, None);
    }
  }

  method GoalsCanBeTrue(g: Graph, lists: Lists, sets: ValueSets, tb: Tables, ghost changed: set<nat>)
    returns (r: Answer, known: set<Expr>, sizes: map<Expr, Tuple>)
    requires RoundStart(g, lists, sets, tb, changed)
    ensures r.Known? ==> Tracks(g.functions, lists, sets, known, sizes) && (r.b <==> CanAll(g.functions, g.goals, sets))
    ensures r.Failed? ==> Raises(g, sets)
  {
    hide Tracks, CanTake, CanAll, OperatorKnown;
    r, known, sizes := CanBeTrue(g.functions, lists, g.goals, sets, tb.known, tb.sizes);
  }

  // Checking the goals touches only what conditions share with them.
  lemma GoalsChecked(
    g: Graph, lists: Lists, sets: ValueSets, tb: Tables, changed: set<nat>, known: set<Expr>, sizes: map<Expr, Tuple>)
    requires RoundStart(g, lists, sets, tb, changed) && Tracks(g.functions, lists, sets, known, sizes)
    ensures RoundStart(g, lists, sets, tb.(known := known, sizes := sizes), changed) && ValidLists(g, lists, sets)
  {
    hide EffectDone, CanAll, Touches, Tracks;
    var tb' := tb.(known := known, sizes := sizes);
    forall i | 0 <= i < |g.operators| ensures OperatorKnown(g, lists, sets, tb', changed, i) {
      assert OperatorKnown(g, lists, sets, tb, changed, i);
    }
  }

  lemma {:induction false} ReachableInRange(g: Graph, start: Start, d: nat)
    requires WellFormedGraph(g) && |start| == g.n
    ensures forall f: nat, v | Reachable(g, start, d, f, v) :: f < g.n
  {
    if d > 0 {
      ReachableInRange(g, start, d - 1);
    }
  }

  lemma SoundInRange(g: Graph, sets: ValueSets, found: Found)
    requires Sound(g, sets, found)
    ensures forall f | f in found :: f < |sets|
  {
  }

  lemma NothingNew(
    g: Graph, start: Start, d: nat, sets: ValueSets, found: Found, sets': ValueSets, changed: set<nat>)
    requires IsLayer(g, start, d, sets) && IsLayer(g, start, d + 1, sets') && Grown(sets, found, sets', changed)
    requires WellFormedGraph(g) && |start| == g.n && !GoalAt(g, start, d)
    ensures changed == {} ==> forall k: nat | k >= d :: !GoalAt(g, start, k)
  {
    if changed == {} {
      GrownExtends(sets, found, sets', changed);
      hide GrownOne, Takes, Produced;
      assert sets' == sets;
      ReachableInRange(g, start, d + 1);
      assert Saturated(g, start, d);
      forall k: nat | k >= d ensures !GoalAt(g, start, k) {
        if GoalAt(g, start, k) {
          SaturatedGoal(g, start, d, k);
        }
      }
    }
  }

  /** Without any fluent nothing ever changes, so a goal can hold in some layer only if it
      can in the first. */
  lemma NoFluentsExact(g: Graph, start: Start)
    requires WellFormedGraph(g) && g.n == 0 && start == []
    ensures (forall d: nat :: !GoalAt(g, start, d)) <==> !GoalAt(g, start, 0)
  {
    forall d: nat | GoalAt(g, start, d) ensures GoalAt(g, start, 0) {
      forall c | c in g.goals ensures Takes(g, start, 0, c, Some(TRUE)) {
        assert Takes(g, start, d, c, Some(TRUE)) && Within(g.n, c);
        var s: Assignment :| Chosen(g, start, d, c, s) && Eval(c, s, g.functions) == Some(TRUE);
        assert Chosen(g, start, 0, c, s);
      }
    }
  }

  /** Such a task with a goal that holds: `Heuristic.Evaluate` calls it a dead end. */
  lemma NoFluentsCanFail(fs: Functions)
    ensures var g := Graph(0, fs, [], [Const(TRUE)]); WellFormedGraph(g) && GoalAt(g, [], 0)
  {
    var g := Graph(0, fs, [], [Const(TRUE)]);
    assert Chosen(g, [], 0, Const(TRUE), []) && Eval(Const(TRUE), [], fs) == Some(TRUE);
  }

  /** The heuristic, built for a task. */
  class Heuristic {
    const g: Graph
    const lists: Lists

    ghost predicate Valid() {
      WellFormedGraph(g) && forall sets: ValueSets | |sets| == g.n :: ValidLists(g, lists, sets)
    }

    constructor (g: Graph)
      requires WellFormedGraph(g)
      ensures Valid() && this.g == g
    {
      this.g := g;
      var all := BuildLists(g);
      this.lists := all;
    }

    /** The number of rounds until all goals can hold; it gives up after `limit`. */
    method Evaluate(start: Start, limit: nat) returns (r: Estimate)
      requires Valid() && |start| == g.n
      ensures r.Depth? ==> IsDepth(g, start, r.d)
      ensures r.DeadEnd? && g.n > 0 ==> forall d: nat :: !GoalAt(g, start, d)
      ensures g.n == 0 ==> r == DeadEnd
      ensures r.Error? ==> exists d: nat :: RaisesAt(g, start, d)
      ensures r.Unfinished? ==> forall d: nat | d < limit :: !GoalAt(g, start, d)
    {
      var sets := start;
      var tb := Tables({}, map[], map[], seq(|g.operators|, i => false));
      var changed := Upto(g.n);
      assert g.n > 0 ==> 0 in changed;
      assert g.n == 0 ==> changed == {};
      FirstRound(g, lists, start, tb, changed);
      hide RoundStart, IsLayer, WellFormedGraph, GoalAt, RaisesAt, Valid;
      var depth := 0;
      while changed != {} && depth < limit
        invariant RoundStart(g, lists, sets, tb, changed) && IsLayer(g, start, depth, sets)
        invariant forall d: nat | d < depth :: !GoalAt(g, start, d)
        invariant changed == {} ==> g.n == 0 || forall d: nat :: !GoalAt(g, start, d)
        invariant g.n == 0 ==> changed == {}
        decreases limit - depth
      {
        var tb', sets', changed', outcome := Round(start, depth, sets, tb, changed);
        if outcome.Some? {
          return outcome.value;
        }
        sets, tb, changed := sets', tb', changed';
        depth := depth + 1;
      }
      r := if changed == {} then DeadEnd else Unfinished;
    }

    // Checks the goals and, if they do not all hold, goes on to the next layer.
    method Round(start: Start, depth: nat, sets: ValueSets, tb: Tables, changed: set<nat>)
      returns (tb': Tables, sets': ValueSets, changed': set<nat>, outcome: Option<Estimate>)
      requires Valid() && |start| == g.n
      requires RoundStart(g, lists, sets, tb, changed) && IsLayer(g, start, depth, sets)
      ensures outcome.Some? ==> outcome.value == Error || outcome.value == Depth(depth)
      ensures outcome == Some(Error) ==> RaisesAt(g, start, depth)
      ensures outcome == Some(Depth(depth)) ==> GoalAt(g, start, depth)
      ensures outcome.None? ==> !GoalAt(g, start, depth)
      ensures outcome.None? ==> RoundStart(g, lists, sets', tb', changed') && IsLayer(g, start, depth + 1, sets')
      ensures outcome.None? && changed' == {} ==> forall d: nat | d >= depth :: !GoalAt(g, start, d)
    {
      tb', sets', changed' := tb, sets, changed;
      var ok, found, r, known, sizes;
      r, known, sizes := GoalsCanBeTrue(g, lists, sets, tb, changed);
      LayerAll(g, start, depth, sets, g.goals);
      hide IsLayer, CanAll, RaisesAt, RoundStart, OperatorDone, Sound, Tracks, ValidLists;
      if r.Failed? {
        RaisesInLayer(g, start, depth, sets);
        return tb', sets', changed', Some(Error);
      }
      if r.b {
        return tb', sets', changed', Some(Depth(depth));
      }
      GoalsChecked(g, lists, sets, tb, changed, known, sizes);
      ok, tb', found := EvaluateOperators(g, lists, sets, tb.(known := known, sizes := sizes), changed);
      if !ok {
        RaisesInLayer(g, start, depth, sets);
        return tb', sets', changed', Some(Error);
      }
      assert forall f | f in found :: f < |sets| by {
        SoundInRange(g, sets, found);
      }
      sets', changed' := Grow(sets, found);
      RoundNext(g, lists, sets, tb', found, sets', changed');
      LayerNext(g, lists, start, depth, sets, tb', found, sets', changed');
      NothingNew(g, start, depth, sets, found, sets', changed');
      outcome := None;
    }
  }
}
