/**
 The incremental simple temporal network of `stn.rs`, at tolerance 0 and with
 bounds scaled to integers.

 A constraint (src, dst, bound) says that `dst` happens no earlier than `bound`
 before `src`.  The network keeps one distance per timepoint; the time of a
 timepoint is its negated distance.
*/
module Stn {
  import opened Options

  datatype Constraint<T> = Constraint(src: T, dst: T, bound: int)

  datatype Edge<T> = Edge(dst: T, bound: int)

  // A schedule gives every timepoint a time.
  type Schedule<!T> = T -> int

  predicate Respects<T>(t: Schedule<T>, c: Constraint<T>) {
    t(c.src) - t(c.dst) <= c.bound
  }

  ghost predicate Satisfies<T(!new)>(t: Schedule<T>, cs: set<Constraint<T>>) {
    forall c | c in cs :: Respects(t, c)
  }

  ghost predicate Satisfiable<T(!new)>(cs: set<Constraint<T>>) {
    exists t: Schedule<T> :: Satisfies(t, cs)
  }

  ghost predicate NonNegative<T(!new)>(t: Schedule<T>) {
    forall v :: 0 <= t(v)
  }

  /** `times` is the pointwise least non-negative solution of `cs`. */
  ghost predicate Earliest<T(!new)>(times: Schedule<T>, cs: set<Constraint<T>>) {
    && Satisfies(times, cs)
    && NonNegative(times)
    && forall t: Schedule<T> :: Satisfies(t, cs) && NonNegative(t) ==> forall v :: times(v) <= t(v)
  }

  /** What `inc_check` works on: the adjacency lists of `constraints`. */
  type Adjacency<T(==)> = map<T, seq<Edge<T>>>

  ghost predicate Stored<T(!new)>(g: Adjacency<T>, c: Constraint<T>) {
    c.src in g && Edge(c.dst, c.bound) in g[c.src]
  }

  /** `t` meets every stored edge. */
  ghost predicate Meets<T(!new)>(t: Schedule<T>, g: Adjacency<T>) {
    forall c | Stored(g, c) :: Respects(t, c)
  }

  ghost predicate Unmet<T(!new)>(g: Adjacency<T>) {
    forall t: Schedule<T> :: !Meets(t, g)
  }

  ghost predicate StoredIn<T(!new)>(g: Adjacency<T>, cs: set<Constraint<T>>) {
    forall c | Stored(g, c) :: c in cs
  }

  ghost predicate Closed<T(!new)>(g: Adjacency<T>, d: map<T, int>) {
    && g.Keys == d.Keys
    && forall c | Stored(g, c) :: c.dst in d
  }

  /** The times a distance table denotes; unknown timepoints sit at 0. */
  function Times<T(==)>(d: map<T, int>): Schedule<T> {
    v => if v in d then -d[v] else 0
  }

  ghost function Gap<T>(d: map<T, int>, floor: map<T, int>, v: T): nat {
    if v in d && v in floor && floor[v] <= d[v] then d[v] - floor[v] else 0
  }

  // How far the distances of `keys` can still drop before reaching `floor`.
  ghost function Slack<T>(keys: set<T>, d: map<T, int>, floor: map<T, int>): nat {
    if keys == {} then 0 else
      var v :| v in keys;
      Gap(d, floor, v) + Slack(keys - {v}, d, floor)
  }

  // The propagation has not moved, or it has used up some slack.
  ghost predicate Advanced<T>(
    keys: set<T>, floor: map<T, int>, d: map<T, int>, queued: seq<T>, d': map<T, int>, queued': seq<T>)
  {
    (d' == d && queued' == queued) || Slack(keys, d', floor) < Slack(keys, d, floor)
  }

  lemma {:induction false} SlackSplit<T>(keys: set<T>, u: T, d: map<T, int>, floor: map<T, int>)
    requires u in keys
    ensures Slack(keys, d, floor) == Gap(d, floor, u) + Slack(keys - {u}, d, floor)
    decreases |keys|
  {
    var v :| v in keys && Slack(keys, d, floor) == Gap(d, floor, v) + Slack(keys - {v}, d, floor);
    if v != u {
      SlackSplit(keys - {v}, u, d, floor);
      SlackSplit(keys - {u}, v, d, floor);
      assert keys - {v} - {u} == keys - {u} - {v};
    }
  }

  lemma {:induction false} SlackSame<T>(keys: set<T>, d: map<T, int>, d': map<T, int>, floor: map<T, int>)
    requires forall v | v in keys :: Gap(d, floor, v) == Gap(d', floor, v)
    ensures Slack(keys, d, floor) == Slack(keys, d', floor)
    decreases |keys|
  {
    if keys != {} {
      var v :| v in keys;
      SlackSame(keys - {v}, d, d', floor);
      SlackSplit(keys, v, d, floor);
      SlackSplit(keys, v, d', floor);
    }
  }

  lemma SlackDrops<T>(keys: set<T>, u: T, val: int, d: map<T, int>, floor: map<T, int>)
    requires u in keys && u in floor && u in d
    requires floor[u] <= val < d[u]
    ensures Slack(keys, d[u := val], floor) < Slack(keys, d, floor)
  {
    SlackSplit(keys, u, d, floor);
    SlackSplit(keys, u, d[u := val], floor);
    SlackSame(keys - {u}, d, d[u := val], floor);
  }

  lemma EarliestSatisfies<T(!new)>(t: Schedule<T>, cs: set<Constraint<T>>)
    requires Earliest(t, cs)
    ensures Satisfiable(cs)
  {
  }

  /** Two schedules that are both earliest agree everywhere. */
  lemma EarliestUnique<T(!new)>(t1: Schedule<T>, t2: Schedule<T>, cs: set<Constraint<T>>)
    requires Earliest(t1, cs) && Earliest(t2, cs)
    ensures forall v :: t1(v) == t2(v)
  {
    forall v ensures t1(v) == t2(v) {
      assert t1(v) <= t2(v) && t2(v) <= t1(v);
    }
  }

  /** The state of the propagation loop of `inc_check`, for the edge
      (x, y, b) added to distances `d0`. */
  ghost predicate Propagating<T(!new)>(
    g: Adjacency<T>, x: T, y: T, b: int, d0: map<T, int>, d: map<T, int>, queued: seq<T>)
    requires Closed(g, d0) && x in d0 && y in d0
  {
    var drop := d0[y] - (d0[x] + b);
    && drop > 0
    && d.Keys == d0.Keys
    && d[y] == d0[y] - drop
    // no distance falls below its old value minus the first decrease at y
    && (forall v | v in d :: d0[v] - drop <= d[v] <= d0[v])
    && (forall v | v in queued :: v in d && (v == y || d[v] < d0[v]))
  }

  ghost predicate Relaxed<T(!new)>(g: Adjacency<T>, d: map<T, int>)
    requires Closed(g, d)
  {
    forall c | Stored(g, c) :: d[c.dst] <= d[c.src] + c.bound
  }

  // Every edge is relaxed, except those out of a queued timepoint and the
  // `edges` out of `c` that are still to be visited.
  ghost predicate Settled<T(!new)>(g: Adjacency<T>, d: map<T, int>, queued: seq<T>, c: T, edges: seq<Edge<T>>)
    requires Closed(g, d)
  {
    forall e | Stored(g, e) && e.src !in queued ::
      || (e.src == c && Edge(e.dst, e.bound) in edges)
      || d[e.dst] <= d[e.src] + e.bound
  }

  // Every schedule meeting the stored edges puts an improved `v` at least as
  // late after `y` as the distances do.
  ghost predicate Forced<T(!new)>(g: Adjacency<T>, y: T, d0: map<T, int>, d: map<T, int>)
    requires d.Keys == d0.Keys && y in d
  {
    forall t: Schedule<T>, v | Meets(t, g) && v in d && (v == y || d[v] < d0[v]) ::
      t(y) - t(v) <= d[v] - d[y]
  }

  ghost predicate BelowAll<T(!new)>(g: Adjacency<T>, d: map<T, int>) {
    forall t: Schedule<T>, v | Meets(t, g) && NonNegative(t) && v in d :: -d[v] <= t(v)
  }

  /** Everything the propagation of the new edge (x, y, b) maintains. */
  ghost predicate Invariant<T(!new)>(
    g: Adjacency<T>, x: T, y: T, b: int, d0: map<T, int>, d: map<T, int>, queued: seq<T>, c: T, edges: seq<Edge<T>>)
  {
    && Closed(g, d0) && x in d0 && y in d0
    && (forall e | Stored(g, e) && e != Constraint(x, y, b) :: d0[e.dst] <= d0[e.src] + e.bound)
    && Propagating(g, x, y, b, d0, d, queued)
    && Settled(g, d, queued, c, edges)
    && Forced(g, y, d0, d)
    && (BelowAll(g, d0) ==> BelowAll(g, d))
    && c in d && (c == y || d[c] < d0[c]) && (forall e | e in edges :: e in g[c])
  }

  /** The lowest value the propagation can take each distance to. */
  ghost function Floor<T>(x: T, y: T, b: int, d0: map<T, int>): map<T, int>
    requires x in d0 && y in d0
  {
    map v | v in d0 :: d0[v] - (d0[y] - (d0[x] + b))
  }

  /** The first decrease, at `y`, starts the propagation off. */
  lemma FirstDecrease<T(!new)>(g: Adjacency<T>, x: T, y: T, b: int, d0: map<T, int>)
    requires Closed(g, d0) && x in d0 && y in d0
    requires forall e | Stored(g, e) && e != Constraint(x, y, b) :: d0[e.dst] <= d0[e.src] + e.bound
    requires d0[x] + b < d0[y] && Stored(g, Constraint(x, y, b))
    ensures Invariant(g, x, y, b, d0, d0[y := d0[x] + b], [y], y, [])
  {
    var d := d0[y := d0[x] + b];
    if BelowAll(g, d0) {
      forall t: Schedule<T>, v | Meets(t, g) && NonNegative(t) && v in d ensures -d[v] <= t(v) {
        assert Respects(t, Constraint(x, y, b));
        assert -d0[x] <= t(x);
      }
    }
  }

  /** Dequeuing a timepoint leaves all its edges to be visited. */
  lemma Dequeue<T(!new)>(
    g: Adjacency<T>, x: T, y: T, b: int, d0: map<T, int>, d: map<T, int>, queued: seq<T>, c: T)
    requires Invariant(g, x, y, b, d0, d, queued, c, []) && queued != []
    ensures queued[0] in g
    ensures Invariant(g, x, y, b, d0, d, queued[1..], queued[0], g[queued[0]])
  {
    assert forall v | v in queued :: v == queued[0] || v in queued[1..];
  }

  /** Moving past an edge that needs no relaxing. */
  lemma SkipEdge<T(!new)>(
    g: Adjacency<T>, x: T, y: T, b: int, d0: map<T, int>, d: map<T, int>, queued: seq<T>, c: T, edges: seq<Edge<T>>)
    requires edges != [] && Invariant(g, x, y, b, d0, d, queued, c, edges)
    requires edges[0].dst in d && d[edges[0].dst] <= d[c] + edges[0].bound
    ensures Invariant(g, x, y, b, d0, d, queued, c, edges[1..])
  {
    assert forall e | e in edges :: e == edges[0] || e in edges[1..];
  }

  /** Only the new edge can improve `y` again, and then no schedule exists. */
  lemma ImprovingYClosesACycle<T(!new)>(
    g: Adjacency<T>, x: T, y: T, b: int, d0: map<T, int>, d: map<T, int>, queued: seq<T>, c: T, edges: seq<Edge<T>>)
    requires edges != [] && Invariant(g, x, y, b, d0, d, queued, c, edges)
    requires edges[0].dst == y && d[c] + edges[0].bound < d[y]
    ensures c == x && edges[0].bound == b
    ensures Unmet(g)
  {
    var e := Constraint(c, y, edges[0].bound);
    assert edges[0] in edges;
    assert Stored(g, e);
    forall t: Schedule<T> ensures !Meets(t, g) {
      assert Meets(t, g) ==> Respects(t, e);
    }
  }

  /** An old edge never improves `y`, and never takes a distance below its
      floor. */
  lemma OldEdgeStaysAboveFloor<T(!new)>(
    g: Adjacency<T>, x: T, y: T, b: int, d0: map<T, int>, d: map<T, int>, queued: seq<T>, c: Constraint<T>)
    requires Closed(g, d0) && x in d0 && y in d0
    requires Propagating(g, x, y, b, d0, d, queued)
    requires Stored(g, c) && d0[c.dst] <= d0[c.src] + c.bound && d[c.src] + c.bound < d[c.dst]
    ensures c.dst != y && c.dst != c.src
    ensures Floor(x, y, b, d0)[c.dst] <= d[c.src] + c.bound
    ensures Propagating(g, x, y, b, d0, d[c.dst := d[c.src] + c.bound], queued + [c.dst])
  {
  }

  lemma RelaxDrops<T(!new)>(
    g: Adjacency<T>, x: T, y: T, b: int, d0: map<T, int>, d: map<T, int>, queued: seq<T>, c: Constraint<T>)
    requires Closed(g, d0) && x in d0 && y in d0
    requires Propagating(g, x, y, b, d0, d, queued)
    requires Stored(g, c) && d0[c.dst] <= d0[c.src] + c.bound && d[c.src] + c.bound < d[c.dst]
    ensures Slack(d0.Keys, d[c.dst := d[c.src] + c.bound], Floor(x, y, b, d0)) < Slack(d0.Keys, d, Floor(x, y, b, d0))
  {
    OldEdgeStaysAboveFloor(g, x, y, b, d0, d, queued, c);
    SlackDrops(d0.Keys, c.dst, d[c.src] + c.bound, d, Floor(x, y, b, d0));
  }

  lemma ForcedKeeps<T(!new)>(g: Adjacency<T>, y: T, d0: map<T, int>, d: map<T, int>, c: Constraint<T>)
    requires d.Keys == d0.Keys && y in d && Forced(g, y, d0, d)
    requires Stored(g, c) && c.src in d && c.dst in d && c.dst != y && c.dst != c.src
    requires c.src == y || d[c.src] < d0[c.src]
    ensures Forced(g, y, d0, d[c.dst := d[c.src] + c.bound])
  {
    var d' := d[c.dst := d[c.src] + c.bound];
    forall t: Schedule<T>, v | Meets(t, g) && v in d' && (v == y || d'[v] < d0[v])
      ensures t(y) - t(v) <= d'[v] - d'[y]
    {
      assert Respects(t, c);
      assert t(y) - t(c.src) <= d[c.src] - d[y];
    }
  }

  lemma BelowAllKeeps<T(!new)>(g: Adjacency<T>, d: map<T, int>, c: Constraint<T>)
    requires Stored(g, c) && c.src in d && BelowAll(g, d)
    ensures BelowAll(g, d[c.dst := d[c.src] + c.bound])
  {
    var d' := d[c.dst := d[c.src] + c.bound];
    forall t: Schedule<T>, v | Meets(t, g) && NonNegative(t) && v in d' ensures -d'[v] <= t(v) {
      assert Respects(t, c);
      assert -d[c.src] <= t(c.src);
    }
  }

  lemma SettledKeeps<T(!new)>(g: Adjacency<T>, d: map<T, int>, queued: seq<T>, c: T, edges: seq<Edge<T>>)
    requires Closed(g, d) && c in d && edges != [] && edges[0].dst in d && edges[0].dst != c
    requires d[c] + edges[0].bound < d[edges[0].dst]
    requires Settled(g, d, queued, c, edges)
    ensures Settled(g, d[edges[0].dst := d[c] + edges[0].bound], queued + [edges[0].dst], c, edges[1..])
  {
    assert forall e | e in edges :: e == edges[0] || e in edges[1..];
  }

  /** Relaxing an old edge lowers its head, within the floor, and queues it. */
  lemma RelaxKeeps<T(!new)>(
    g: Adjacency<T>, x: T, y: T, b: int, d0: map<T, int>, d: map<T, int>, queued: seq<T>, c: T, edges: seq<Edge<T>>)
    requires edges != [] && Invariant(g, x, y, b, d0, d, queued, c, edges)
    requires edges[0].dst in d && d[c] + edges[0].bound < d[edges[0].dst]
    requires !(edges[0].dst == y && edges[0].bound == b)
    ensures Invariant(g, x, y, b, d0, d[edges[0].dst := d[c] + edges[0].bound], queued + [edges[0].dst],
                      c, edges[1..])
    ensures Slack(d0.Keys, d[edges[0].dst := d[c] + edges[0].bound], Floor(x, y, b, d0))
         < Slack(d0.Keys, d, Floor(x, y, b, d0))
  {
    var e := Constraint(c, edges[0].dst, edges[0].bound);
    assert edges[0] in edges;
    assert Stored(g, e) && e != Constraint(x, y, b);
    assert d.Keys == d0.Keys;
    hide Forced, Settled, BelowAll, Meets, Slack, Floor, Propagating, Closed, Stored;
    OldEdgeStaysAboveFloor(g, x, y, b, d0, d, queued, e);
    RelaxDrops(g, x, y, b, d0, d, queued, e);
    ForcedKeeps(g, y, d0, d, e);
    if BelowAll(g, d) {
      BelowAllKeeps(g, d, e);
    }
    SettledKeeps(g, d, queued, c, edges);
  }

  /** What `inc_check` leaves behind, whatever it answers. */
  lemma Propagated<T(!new)>(
    g: Adjacency<T>, x: T, y: T, b: int, d0: map<T, int>, d: map<T, int>, queued: seq<T>, c: T, edges: seq<Edge<T>>)
    requires Stored(g, Constraint(x, y, b))
    requires Invariant(g, x, y, b, d0, d, queued, c, edges)
    ensures Lowered(g, d0, d)
    ensures queued == [] && edges == [] ==> Closed(g, d) && Relaxed(g, d)
  {
  }

  ghost predicate Lowered<T(!new)>(g: Adjacency<T>, d: map<T, int>, d': map<T, int>) {
    && d'.Keys == d.Keys
    && (forall v | v in d :: d'[v] <= d[v])
    && (BelowAll(g, d) ==> BelowAll(g, d'))
  }

  /** One iteration of the inner loop of `inc_check`: the visited edge reveals
      a cycle, or is relaxed, or is skipped. */
  lemma VisitEdge<T(!new)>(
    g: Adjacency<T>, x: T, y: T, b: int, d0: map<T, int>, d: map<T, int>, queued: seq<T>, c: T, edges: seq<Edge<T>>)
    requires Stored(g, Constraint(x, y, b))
    requires edges != [] && Invariant(g, x, y, b, d0, d, queued, c, edges)
    ensures x in d0 && y in d0 && c in d && edges[0].dst in d
    ensures d[c] + edges[0].bound >= d[edges[0].dst] ==>
              Invariant(g, x, y, b, d0, d, queued, c, edges[1..])
    ensures d[c] + edges[0].bound < d[edges[0].dst] && edges[0].dst == y && edges[0].bound == b ==>
              Unmet(g) && Lowered(g, d0, d)
    ensures d[c] + edges[0].bound < d[edges[0].dst] && !(edges[0].dst == y && edges[0].bound == b) ==>
              && Invariant(g, x, y, b, d0, d[edges[0].dst := d[c] + edges[0].bound],
                           queued + [edges[0].dst], c, edges[1..])
              && Slack(d0.Keys, d[edges[0].dst := d[c] + edges[0].bound], Floor(x, y, b, d0))
               < Slack(d0.Keys, d, Floor(x, y, b, d0))
  {
    var n := edges[0];
    assert n in edges && Stored(g, Constraint(c, n.dst, n.bound));
    hide *;
    if d[c] + n.bound < d[n.dst] {
      if n.dst == y && n.bound == b {
        ImprovingYClosesACycle(g, x, y, b, d0, d, queued, c, edges);
        Propagated(g, x, y, b, d0, d, queued, c, edges);
      } else {
        RelaxKeeps(g, x, y, b, d0, d, queued, c, edges);
      }
    } else {
      SkipEdge(g, x, y, b, d0, d, queued, c, edges);
    }
  }

  // Every constraint of `cs` is at least as loose as a stored edge.
  ghost predicate Subsumes<T(!new)>(g: Adjacency<T>, cs: set<Constraint<T>>) {
    forall c | c in cs :: exists w :: Stored(g, Constraint(c.src, c.dst, w)) && w <= c.bound
  }

  /** Dropping subsumed constraints changes no solution. */
  lemma SubsumedSameSolutions<T(!new)>(g: Adjacency<T>, cs: set<Constraint<T>>, t: Schedule<T>)
    requires StoredIn(g, cs) && Subsumes(g, cs)
    ensures Meets(t, g) <==> Satisfies(t, cs)
  {
    if Meets(t, g) {
      forall c | c in cs ensures Respects(t, c) {
        var w :| Stored(g, Constraint(c.src, c.dst, w)) && w <= c.bound;
        assert Respects(t, Constraint(c.src, c.dst, w));
      }
    }
  }

  /** The network `(g, d)` represents the constraints `cs`, and no schedule of
      them is earlier than `d`; the last edge may still be unrelaxed. */
  ghost predicate Represents<T(!new)>(g: Adjacency<T>, d: map<T, int>, cs: set<Constraint<T>>) {
    && Closed(g, d)
    && StoredIn(g, cs)
    && Subsumes(g, cs)
    && (forall c | c in cs :: c.src in d && c.dst in d)
    && (forall v | v in d :: d[v] <= 0)
    && BelowAll(g, d)
  }

  ghost predicate Mentioned<T(!new)>(cs: set<Constraint<T>>, v: T) {
    exists c | c in cs :: c.src == v || c.dst == v
  }

  // Only timepoints of the constraints have a distance.
  ghost predicate Known<T(!new)>(d: map<T, int>, cs: set<Constraint<T>>) {
    forall v | v in d :: Mentioned(cs, v)
  }

  lemma EmptyNetwork<T(!new)>()
    ensures Represents<T>(map[], map[], {}) && Relaxed<T>(map[], map[]) && Known<T>(map[], {})
  {
    hide Known;
    EmptyKnown<T>();
  }

  lemma EmptyKnown<T(!new)>()
    ensures Known<T>(map[], {})
  {
  }

  lemma MentionedIsKnown<T(!new)>(g: Adjacency<T>, d: map<T, int>, cs: set<Constraint<T>>, v: T)
    requires Represents(g, d, cs) && Mentioned(cs, v)
    ensures v in d
  {
    var c :| c in cs && (c.src == v || c.dst == v);
  }

  lemma KnownIsMentioned<T(!new)>(d: map<T, int>, cs: set<Constraint<T>>, v: T)
    requires Known(d, cs) && v in d
    ensures Mentioned(cs, v)
  {
  }

  lemma KnownGrows<T(!new)>(d: map<T, int>, d': map<T, int>, cs: set<Constraint<T>>, c: Constraint<T>)
    requires Known(d, cs) && d'.Keys == d.Keys + {c.src, c.dst}
    ensures Known(d', cs + {c})
  {
    forall v | v in d' ensures Mentioned(cs + {c}, v) {
      if v == c.src || v == c.dst {
        assert c in cs + {c};
      } else {
        assert Mentioned(cs, v);
        var e :| e in cs && (e.src == v || e.dst == v);
        assert e in cs + {c};
      }
    }
  }

  /** Relaxed distances are the earliest times of everything added. */
  lemma RelaxedIsEarliest<T(!new)>(g: Adjacency<T>, d: map<T, int>, cs: set<Constraint<T>>)
    requires Represents(g, d, cs) && Relaxed(g, d)
    ensures Earliest(Times(d), cs)
  {
    var times := Times(d);
    forall c | Stored(g, c) ensures Respects(times, c) {
    }
    SubsumedSameSolutions(g, cs, times);
    forall t: Schedule<T> | Satisfies(t, cs) && NonNegative(t) ensures forall v :: times(v) <= t(v) {
      SubsumedSameSolutions(g, cs, t);
    }
  }

  lemma SameStored<T(!new)>(g: Adjacency<T>, g': Adjacency<T>, cs: set<Constraint<T>>)
    requires forall e :: Stored(g', e) <==> Stored(g, e)
    requires StoredIn(g, cs) && Subsumes(g, cs)
    ensures StoredIn(g', cs) && Subsumes(g', cs)
    ensures forall t: Schedule<T> :: Meets(t, g') ==> Meets(t, g)
  {
    hide Stored;
    forall e | e in cs ensures exists w :: Stored(g', Constraint(e.src, e.dst, w)) && w <= e.bound {
      var w :| Stored(g, Constraint(e.src, e.dst, w)) && w <= e.bound;
      assert Stored(g', Constraint(e.src, e.dst, w));
    }
  }

  lemma BelowAllRegister<T(!new)>(g: Adjacency<T>, g': Adjacency<T>, d: map<T, int>, v: T)
    requires BelowAll(g, d) && forall t: Schedule<T> :: Meets(t, g') ==> Meets(t, g)
    ensures BelowAll(g', d[v := 0])
  {
    hide Meets;
  }

  /** Registering a fresh timepoint at time 0. */
  lemma RegisterKeeps<T(!new)>(g: Adjacency<T>, d: map<T, int>, cs: set<Constraint<T>>, v: T)
    requires Represents(g, d, cs) && Relaxed(g, d) && v !in d
    ensures Represents(g[v := []], d[v := 0], cs) && Relaxed(g[v := []], d[v := 0])
  {
    var g', d' := g[v := []], d[v := 0];
    assert forall e :: Stored(g', e) <==> Stored(g, e);
    hide BelowAll, StoredIn, Subsumes, Meets, Stored;
    SameStored(g, g', cs);
    BelowAllRegister(g, g', d, v);
  }

  /** Adding a constraint that a stored edge subsumes. */
  lemma SubsumedKeeps<T(!new)>(g: Adjacency<T>, d: map<T, int>, cs: set<Constraint<T>>, c: Constraint<T>, w: int)
    requires Represents(g, d, cs) && c.src in d && c.dst in d
    requires Stored(g, Constraint(c.src, c.dst, w)) && w <= c.bound
    ensures Represents(g, d, cs + {c})
  {
  }

  /** Adding a constraint as a new edge at the head of its list. */
  lemma PushKeeps<T(!new)>(g: Adjacency<T>, d: map<T, int>, cs: set<Constraint<T>>, c: Constraint<T>)
    requires Represents(g, d, cs) && c.src in d && c.dst in d
    ensures Represents(g[c.src := [Edge(c.dst, c.bound)] + g[c.src]], d, cs + {c})
    ensures forall e :: Stored(g[c.src := [Edge(c.dst, c.bound)] + g[c.src]], e) <==> Stored(g, e) || e == c
  {
    var g' := g[c.src := [Edge(c.dst, c.bound)] + g[c.src]];
    assert forall e :: Stored(g', e) <==> Stored(g, e) || e == c;
    forall e | e in cs + {c} ensures exists w :: Stored(g', Constraint(e.src, e.dst, w)) && w <= e.bound {
      if e == c {
        assert Stored(g', Constraint(c.src, c.dst, c.bound));
      } else {
        var w :| Stored(g, Constraint(e.src, e.dst, w)) && w <= e.bound;
        assert Stored(g', Constraint(e.src, e.dst, w));
      }
    }
    forall t: Schedule<T>, v | Meets(t, g') && NonNegative(t) && v in d ensures -d[v] <= t(v) {
      assert Meets(t, g);
    }
  }

  /** Lowering distances, as far as every schedule allows, keeps the rest. */
  lemma LowerKeeps<T(!new)>(g: Adjacency<T>, d: map<T, int>, d': map<T, int>, cs: set<Constraint<T>>)
    requires Represents(g, d, cs) && Lowered(g, d, d')
    ensures Represents(g, d', cs) && d'.Keys == d.Keys
  {
  }

  lemma UnmetIsUnsatisfiable<T(!new)>(g: Adjacency<T>, cs: set<Constraint<T>>)
    requires StoredIn(g, cs) && Subsumes(g, cs)
    requires Unmet(g)
    ensures !Satisfiable(cs)
  {
    forall t: Schedule<T> ensures !Satisfies(t, cs) {
      SubsumedSameSolutions(g, cs, t);
    }
  }

  lemma UnsatisfiableGrows<T(!new)>(cs: set<Constraint<T>>, cs': set<Constraint<T>>)
    requires !Satisfiable(cs) && cs <= cs'
    ensures !Satisfiable(cs')
  {
    forall t: Schedule<T> ensures !Satisfies(t, cs') {
      assert !Satisfies(t, cs);
    }
  }

  // The inner loop of `inc_check`: visits every edge out of `c`.
  method RelaxNeighbors<T(==, !new)>(
    g: Adjacency<T>, x: T, y: T, b: int, c: T, distances: map<T, int>, queued: seq<T>, ghost d0: map<T, int>)
    returns (ok: bool, d: map<T, int>, q: seq<T>)
    requires c in g && x in d0 && y in d0 && Stored(g, Constraint(x, y, b))
    requires Invariant(g, x, y, b, d0, distances, queued, c, g[c])
    ensures ok ==> Invariant(g, x, y, b, d0, d, q, c, [])
    ensures Advanced(d0.Keys, Floor(x, y, b, d0), distances, queued, d, q)
    ensures !ok ==> Unmet(g) && Lowered(g, d0, d)
  {
    hide Invariant, Slack, Lowered, Meets, Stored, Floor, Unmet;
    d, q := distances, queued;
    var neighbors := g[c];
    while neighbors != []
      invariant Invariant(g, x, y, b, d0, d, q, c, neighbors)
      invariant Advanced(d0.Keys, Floor(x, y, b, d0), distances, queued, d, q)
      decreases |neighbors|
    {
      VisitEdge(g, x, y, b, d0, d, q, c, neighbors);
      var n := neighbors[0];
      neighbors := neighbors[1..];
      var val := d[c] + n.bound;
      if val < d[n.dst] {
        if n.dst == y && n.bound == b {
          return false, d, q;
        }
        d := d[n.dst := val];
        q := q + [n.dst];
      }
    }
    ok := true;
  }

  class DeltaStn<T(==, !new)> {
    var constraints: Adjacency<T>
    var distances: map<T, int>
    var isSat: bool
    // every constraint ever passed to `Add`, including subsumed ones and the
    // ones that arrived after the network became unsatisfiable
    ghost var added: set<Constraint<T>>

    ghost predicate Valid()
      reads this
    {
      if isSat then
        Represents(constraints, distances, added) && Relaxed(constraints, distances) && Known(distances, added)
      else !Satisfiable(added)
    }

    constructor ()
      ensures Valid() && added == {} && isSat
    {
      constraints, distances, isSat, added := map[], map[], true, {};
      hide Represents, Relaxed, Known;
      EmptyNetwork<T>();
    }

    /** A network of its own with the same constraints. */
    constructor Clone(other: DeltaStn<T>)
      requires other.Valid()
      ensures Valid() && added == other.added && isSat == other.isSat && distances == other.distances
    {
      constraints, distances, isSat := other.constraints, other.distances, other.isSat;
      added := other.added;
    }

    /** Whether every constraint added so far can hold at once. */
    method Check() returns (sat: bool)
      requires Valid()
      ensures sat == isSat && (sat <==> Satisfiable(added))
      ensures sat ==> Earliest(Times(distances), added)
    {
      hide Known;
      sat := isSat;
      if isSat {
        RelaxedIsEarliest(constraints, distances, added);
      }
    }

    lemma Consequences()
      requires Valid() && isSat
      ensures Earliest(Times(distances), added) && Satisfiable(added)
      ensures forall v :: v in distances <==> Mentioned(added, v)
    {
      hide Known, Mentioned, Represents;
      RelaxedIsEarliest(constraints, distances, added);
      EarliestSatisfies(Times(distances), added);
      forall v ensures v in distances <==> Mentioned(added, v) {
        if Mentioned(added, v) {
          MentionedIsKnown(constraints, distances, added, v);
        }
        if v in distances {
          KnownIsMentioned(distances, added, v);
        }
      }
    }

    method GetModelValue(v: T) returns (time: Option<int>)
      requires Valid()
      ensures time == if v in distances then Some(Times(distances)(v)) else None
    {
      time := if v in distances then Some(distances[v] * -1) else None;
    }

    method Add(x: T, y: T, b: int)
      requires Valid()
      modifies this
      ensures Valid()
      ensures added == old(added) + {Constraint(x, y, b)}
      ensures old(isSat) ==> distances.Keys == old(distances.Keys) + {x, y}
    {
      hide Represents, Relaxed, Closed, Lowered, Satisfiable, Stored, StoredIn, Subsumes, Meets, Known;
      if isSat {
        ghost var known, before := distances, added;
        Register(x);
        Register(y);
        Store(x, y, b);
        ghost var g, d, cs := constraints, distances, added;
        isSat := IncCheck(x, y, b);
        LowerKeeps(g, d, distances, cs);
        KnownGrows(known, distances, before, Constraint(x, y, b));
        if !isSat {
          UnmetIsUnsatisfiable(g, cs);
        }
      } else {
        UnsatisfiableGrows(added, added + {Constraint(x, y, b)});
        added := added + {Constraint(x, y, b)};
      }
    }

    // The timepoint part of `add`: unknown timepoints start at 0.
    method Register(v: T)
      requires Represents(constraints, distances, added) && Relaxed(constraints, distances)
      modifies this`constraints, this`distances
      ensures Represents(constraints, distances, added) && Relaxed(constraints, distances)
      ensures distances.Keys == old(distances.Keys) + {v}
    {
      if v !in distances {
        RegisterKeeps(constraints, distances, added, v);
        distances := distances[v := 0];
        constraints := constraints[v := []];
      }
    }

    // The edge part of `add`: a subsumed constraint is not stored.
    method Store(x: T, y: T, b: int)
      requires Represents(constraints, distances, added) && Relaxed(constraints, distances)
      requires x in distances && y in distances
      modifies this`constraints, this`added
      ensures Represents(constraints, distances, added)
      ensures added == old(added) + {Constraint(x, y, b)}
      ensures forall c | Stored(constraints, c) && c != Constraint(x, y, b) ::
                distances[c.dst] <= distances[c.src] + c.bound
      ensures distances[x] + b < distances[y] ==> Stored(constraints, Constraint(x, y, b))
    {
      ghost var c := Constraint(x, y, b);
      var subsumed := IsSubsumed(x, y, b);
      if !subsumed {
        PushKeeps(constraints, distances, added, c);
        constraints := constraints[x := [Edge(y, b)] + constraints[x]];
      } else {
        ghost var w :| Stored(constraints, Constraint(x, y, w)) && w <= b;
        SubsumedKeeps(constraints, distances, added, c, w);
      }
      added := added + {c};
    }

    method IsSubsumed(x: T, y: T, b: int) returns (subsumed: bool)
      requires x in constraints
      ensures subsumed ==> exists w :: Stored(constraints, Constraint(x, y, w)) && w <= b
    {
      var neighbors := constraints[x];
      while neighbors != []
        invariant forall e | e in neighbors :: e in constraints[x]
        decreases |neighbors|
      {
        var n := neighbors[0];
        if n.dst == y {
          assert n in neighbors;
          assert Stored(constraints, Constraint(x, y, n.bound));
          return n.bound <= b;
        }
        neighbors := neighbors[1..];
      }
      subsumed := false;
    }

    method IncCheck(x: T, y: T, b: int) returns (ok: bool)
      requires Closed(constraints, distances) && x in distances && y in distances
      requires forall c | Stored(constraints, c) && c != Constraint(x, y, b) ::
                 distances[c.dst] <= distances[c.src] + c.bound
      requires distances[x] + b < distances[y] ==> Stored(constraints, Constraint(x, y, b))
      modifies this`distances
      ensures Lowered(constraints, old(distances), distances)
      ensures ok ==> Closed(constraints, distances) && Relaxed(constraints, distances)
      ensures !ok ==> Unmet(constraints)
    {
      ghost var g, d0 := constraints, distances;
      if distances[x] + b < distances[y] {
        distances := distances[y := distances[x] + b];
      } else {
        return true;
      }
      ghost var floor := Floor(x, y, b, d0);
      FirstDecrease(g, x, y, b, d0);
      hide Invariant, Slack, Relaxed, Lowered, Meets, Stored, Floor, Closed, Unmet;
      var q := [y];
      ghost var last := y;
      while q != []
        invariant constraints == g
        invariant Invariant(g, x, y, b, d0, distances, q, last, [])
        decreases Slack(d0.Keys, distances, floor), |q|
      {
        Dequeue(g, x, y, b, d0, distances, q, last);
        var c := q[0];
        last := c;
        ok, distances, q := RelaxNeighbors(constraints, x, y, b, c, distances, q[1..], d0);
        if !ok {
          return;
        }
      }
      Propagated(g, x, y, b, d0, distances, q, last, []);
      ok := true;
    }
  }
}
