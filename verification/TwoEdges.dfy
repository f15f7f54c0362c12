/**
 Two edges suffice: `expand_event` links a new event to at most two past ones,
 and yet every schedule of a reachable state's network orders all the events of
 its path, with a gap of epsilon between mutex ones.
*/
module TwoEdges {
  import opened Options
  import opened Expr
  import opened Temporal
  import Stn

  type Schedule = Stn.Schedule<Timepoint>

  lemma SomeSchedule(net: Network) returns (t: Schedule)
    requires Stn.Satisfiable(net)
    ensures Stn.Satisfies(t, net)
  {
    t :| Stn.Satisfies(t, net);
  }

  /** `t` orders every pair of events of `path`, and separates the mutex ones. */
  ghost predicate Ordered(p: Problem, path: Path, t: Schedule)
    requires IsPath(p, path)
  {
    forall i, j | 0 <= i < j < |path| ::
      t(At(path[i])) + GapFor(p, Id(path[j]), Id(path[i])) <= t(At(path[j]))
  }

  // ... and the event at `at` comes after all of them.
  ghost predicate Follows(p: Problem, path: Path, e: EventId, at: Timepoint, t: Schedule)
    requires IsPath(p, path) && IsEvent(p, e)
  {
    forall i | 0 <= i < |path| :: t(At(path[i])) + GapFor(p, e, Id(path[i])) <= t(at)
  }

  /** The edges the scan adds put the new event after the whole path. */
  lemma {:induction false} ScanFollows(
    p: Problem, path: Path, e: EventId, at: Timepoint, isPredecessor: bool, t: Schedule)
    requires p.epsilon >= 0 && IsPath(p, path) && IsEvent(p, e)
    requires Ordered(p, path, t) && Stn.Satisfies(t, PastEdges(p, path, e, at, isPredecessor))
    requires !isPredecessor && path != [] ==> t(At(path[|path| - 1])) <= t(at)
    ensures Follows(p, path, e, at, t)
  {
    hide Mutex, EventReads, EventWrites;
    if path != [] {
      var k := |path| - 1;
      assert IsEvent(p, Id(path[k]));
      forall i | 0 <= i < k ensures IsEvent(p, Id(path[i])) && t(At(path[i])) <= t(At(path[k])) {
        assert t(At(path[i])) + GapFor(p, Id(path[k]), Id(path[i])) <= t(At(path[k]));
      }
      if Mutex(p, e, Id(path[k])) {
        assert Stn.Respects(t, Before(At(path[k]), at, p.epsilon));
      } else {
        if isPredecessor {
          assert Stn.Respects(t, Before(At(path[k]), at, 0));
        }
        var rest := path[..k];
        assert forall c | c in PastEdges(p, rest, e, at, false) :: c in PastEdges(p, path, e, at, isPredecessor);
        OrderedPrefix(p, path, k, t);
        hide PastEdges, Ordered;
        ScanFollows(p, rest, e, at, false, t);
        forall i | 0 <= i < |path| ensures t(At(path[i])) + GapFor(p, e, Id(path[i])) <= t(at) {
          if i < k {
            assert rest[i] == path[i];
          }
        }
      }
    }
  }

  lemma OrderedPrefix(p: Problem, path: Path, k: nat, t: Schedule)
    requires IsPath(p, path) && Ordered(p, path, t) && k <= |path|
    ensures Ordered(p, path[..k], t)
    ensures k > 0 ==> k == |path| || t(At(path[k - 1])) + GapFor(p, Id(path[k]), Id(path[k - 1])) <= t(At(path[k]))
  {
  }

  /** Expanding a state keeps its path ordered in every schedule. */
  lemma ExpandOrders(
    p: Problem, s: State, s': State, e: EventId, n: nat, todo: map<nat, (nat, nat)>, opening: Network, t: Schedule)
    requires p.epsilon >= 0 && ValidState(p, s) && IsEvent(p, e) && IsTodo(p, todo)
    requires Expand(p, s, e, n, todo, opening) == Some(s')
    requires Stn.Satisfies(t, s.network) ==> Ordered(p, s.path, t)
    requires Stn.Satisfies(t, s'.network)
    ensures Ordered(p, s'.path, t)
  {
    var at := EventAt(e.0, e.1, n);
    assert forall c | c in s.network :: c in s'.network;
    assert forall c | c in PastEdges(p, s.path, e, at, true) :: c in s'.network;
    ScanFollows(p, s.path, e, at, true, t);
  }

  lemma {:induction false} ReachedOrdered(p: Problem, plan: seq<nat>, s: State, t: Schedule)
    requires WellFormed(p) && Reached(p, plan, s) && ValidState(p, s)
    requires Stn.Satisfies(t, s.network)
    ensures Ordered(p, s.path, t)
    decreases |plan|
  {
    if plan == [] {
      InitialValid(p);
      if p.timed.Some? {
        var e, n, todo, opening := InitialExpands(p);
        ExpandOrders(p, EmptyState(p), s, e, n, todo, opening, t);
      }
    } else {
      var s0 := ReachedLast(p, plan, s);
      var e, n, todo, opening := StepExpands(p, s0, plan[|plan| - 1]);
      hide Reached, Step, WellFormed;
      if Stn.Satisfies(t, s0.network) {
        ReachedOrdered(p, plan[..|plan| - 1], s0, t);
      }
      ExpandOrders(p, s0, s, e, n, todo, opening, t);
    }
  }

  /** The constraints between all pairs of events, which the source leaves out. */
  ghost function AllPairs(p: Problem, path: Path): Network
    requires IsPath(p, path)
  {
    set i, j | 0 <= i < j < |path| :: Before(At(path[i]), At(path[j]), GapFor(p, Id(path[j]), Id(path[i])))
  }

  /** Two edges suffice: in every reachable state, adding all the pairwise
      constraints would not exclude a single schedule. */
  lemma TwoEdgesSuffice(p: Problem, plan: seq<nat>, s: State, t: Schedule)
    requires WellFormed(p) && Reached(p, plan, s) && ValidState(p, s)
    ensures Stn.Satisfies(t, s.network) <==> Stn.Satisfies(t, s.network + AllPairs(p, s.path))
  {
    if Stn.Satisfies(t, s.network) {
      ReachedOrdered(p, plan, s, t);
      forall c | c in AllPairs(p, s.path) ensures Stn.Respects(t, c) {
        var i, j :| 0 <= i < j < |s.path|
          && c == Before(At(s.path[i]), At(s.path[j]), GapFor(p, Id(s.path[j]), Id(s.path[i])));
      }
    }
  }
}
