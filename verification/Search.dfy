/**
 The search drivers, over any search space: an answer of no plan is right although
 states are generated once and never reopened, whatever order the queues pop in.
*/
module Search {
  import opened Options

  /** A search space: its initial state, if there is one, the successors of a state
      and the goal test. */
  datatype Space<!S> = Space(init: Option<S>, succ: S -> seq<S>, goal: S -> bool)

  datatype Outcome<S> = Found(s: S) | NoPlan | LimitReached

  /** A goal can be reached from `s` in exactly `n` steps. */
  ghost predicate GoalIn<S(!new)>(sp: Space<S>, s: S, n: nat) {
    if n == 0 then sp.goal(s) else exists t :: t in sp.succ(s) && GoalIn(sp, t, n - 1)
  }

  ghost predicate ReachedIn<S(!new)>(sp: Space<S>, s: S, n: nat) {
    if n == 0 then sp.init == Some(s) else exists t :: ReachedIn(sp, t, n - 1) && s in sp.succ(t)
  }

  ghost predicate Reached<S(!new)>(sp: Space<S>, s: S) {
    exists n: nat :: ReachedIn(sp, s, n)
  }

  lemma NextToGoal<S(!new)>(sp: Space<S>, s: S, n: nat) returns (t: S)
    requires n > 0 && GoalIn(sp, s, n)
    ensures t in sp.succ(s) && GoalIn(sp, t, n - 1)
  {
    t :| t in sp.succ(s) && GoalIn(sp, t, n - 1);
  }

  lemma Predecessor<S(!new)>(sp: Space<S>, s: S, n: nat) returns (t: S)
    requires n > 0 && ReachedIn(sp, s, n)
    ensures ReachedIn(sp, t, n - 1) && s in sp.succ(t)
  {
    t :| ReachedIn(sp, t, n - 1) && s in sp.succ(t);
  }

  lemma AtOnce<S(!new)>(sp: Space<S>, s: S)
    ensures ReachedIn(sp, s, 0) <==> sp.init == Some(s)
    ensures GoalIn(sp, s, 0) <==> sp.goal(s)
  {
  }

  /** Whatever can be reached from `s` can be reached from `r`, in as many steps. */
  ghost predicate Covers<S(!new)>(sp: Space<S>, r: S, s: S) {
    forall n: nat | GoalIn(sp, s, n) :: GoalIn(sp, r, n)
  }

  /** A heuristic that answers None only in dead ends. */
  ghost predicate SafeHeuristic<S(!new)>(sp: Space<S>, h: S -> Option<real>) {
    forall s, n: nat | Reached(sp, s) && h(s).None? :: !GoalIn(sp, s, n)
  }

  /** A rule that drops only states some recorded one covers. */
  ghost predicate SafePruning<S(!new)>(sp: Space<S>, redundant: (set<S>, S) -> bool) {
    forall seen: set<S>, s | AllReached(sp, seen) && Reached(sp, s) && redundant(seen, s) ::
      Covered(sp, seen, s)
  }

  ghost predicate Covered<S(!new)>(sp: Space<S>, seen: set<S>, s: S) {
    exists r :: r in seen && Covers(sp, r, s)
  }

  ghost predicate AllReached<S(!new)>(sp: Space<S>, seen: set<S>) {
    forall s | s in seen :: Reached(sp, s)
  }

  // ---- the invariant ----

  /** Some state of `open` is at most `n` steps from a goal. */
  ghost predicate Within<S(!new)>(sp: Space<S>, open: multiset<S>, n: nat) {
    exists o, m: nat :: o in open && m <= n && GoalIn(sp, o, m)
  }

  /** Every goal a recorded state can reach is no further from an open one. */
  ghost predicate Promising<S(!new)>(sp: Space<S>, seen: set<S>, open: multiset<S>) {
    forall s, n: nat | s in seen && GoalIn(sp, s, n) :: Within(sp, open, n)
  }

  lemma WithinMore<S(!new)>(sp: Space<S>, open: multiset<S>, open': multiset<S>, n: nat, n': nat)
    requires Within(sp, open, n) && n <= n' && forall o | o in open :: o in open'
    ensures Within(sp, open', n')
  {
    var o, m: nat :| o in open && m <= n && GoalIn(sp, o, m);
    assert o in open';
  }

  /** The least distance of a state to a goal. */
  lemma {:induction false} LeastDistance<S(!new)>(sp: Space<S>, s: S, n: nat) returns (m: nat)
    requires GoalIn(sp, s, n)
    ensures m <= n && GoalIn(sp, s, m) && forall k: nat | k < m :: !GoalIn(sp, s, k)
    decreases n
  {
    if k: nat :| k < n && GoalIn(sp, s, k) {
      m := LeastDistance(sp, s, k);
    } else {
      m := n;
    }
  }

  // What became of a successor: it was put in `more`, or something recorded covers it,
  // or it leads nowhere.
  ghost predicate Handled<S(!new)>(sp: Space<S>, seen: set<S>, more: multiset<S>, t: S) {
    t in more || Covered(sp, seen, t) || forall n: nat :: !GoalIn(sp, t, n)
  }

  /** Replacing an open state, not a goal, by its successors keeps the promise. */
  lemma ExpandKeeps<S(!new)>(
    sp: Space<S>, seen: set<S>, open: multiset<S>, c: S, seen': set<S>, more: multiset<S>)
    requires Promising(sp, seen, open) && c in open && !sp.goal(c) && c in seen
    requires forall t | t in sp.succ(c) :: Handled(sp, seen', more, t)
    requires forall s | s in seen' :: s in seen || s in more || forall n: nat :: !GoalIn(sp, s, n)
    ensures Promising(sp, seen', open - multiset{c} + more)
  {
    var now := open - multiset{c} + more;
    forall s, n: nat | s in seen' && GoalIn(sp, s, n) ensures Within(sp, now, n) {
      if s in more {
        assert s in now;
      } else {
        WithinAfter(sp, seen, open, c, seen', more, s, n);
      }
    }
  }

  lemma WithinAfter<S(!new)>(
    sp: Space<S>, seen: set<S>, open: multiset<S>, c: S, seen': set<S>, more: multiset<S>, s: S, n: nat)
    requires Promising(sp, seen, open) && c in open && !sp.goal(c)
    requires forall t | t in sp.succ(c) :: Handled(sp, seen', more, t)
    requires forall s | s in seen' :: s in seen || s in more || forall n: nat :: !GoalIn(sp, s, n)
    requires s in seen && GoalIn(sp, s, n)
    ensures Within(sp, open - multiset{c} + more, n)
  {
    var now := open - multiset{c} + more;
    var o, m: nat :| o in open && m <= n && GoalIn(sp, o, m);
    if o != c {
      assert o in now;
    } else {
      // the least distance of `c`: one of its successors is a step closer
      var d := LeastDistance(sp, c, m);
      var t :| t in sp.succ(c) && GoalIn(sp, t, d - 1);
      if t in more {
        assert t in now;
      } else {
        var r :| r in seen' && Covers(sp, r, t);
        assert GoalIn(sp, r, d - 1);
        if r in more {
          assert r in now;
        } else {
          var o', m': nat :| o' in open && m' <= d - 1 && GoalIn(sp, o', m');
          assert o' != c;
          assert o' in now;
        }
      }
    }
  }

  lemma NothingPromised<S(!new)>(sp: Space<S>, seen: set<S>, s: S)
    requires Promising(sp, seen, multiset{}) && s in seen
    ensures forall n: nat :: !GoalIn(sp, s, n)
  {
    forall n: nat ensures !GoalIn(sp, s, n) {
      NothingWithin(sp, n);
    }
  }

  lemma NothingWithin<S(!new)>(sp: Space<S>, n: nat)
    ensures !Within(sp, multiset{}, n)
  {
  }

  lemma SuccessorReached<S(!new)>(sp: Space<S>, s: S, t: S)
    requires Reached(sp, s) && t in sp.succ(s)
    ensures Reached(sp, t)
  {
    var n: nat :| ReachedIn(sp, s, n);
    assert ReachedIn(sp, t, n + 1);
  }

  // ---- giving up ----

  /** The states generated by expanding `taken`: the initial one and all successors, as
      often as they come up. */
  ghost function Generated<S(!new)>(sp: Space<S>, taken: seq<S>): multiset<S> {
    if taken == [] then if sp.init.Some? then multiset{sp.init.value} else multiset{}
    else Generated(sp, taken[..|taken| - 1]) + multiset(sp.succ(taken[|taken| - 1]))
  }

  /** An order of expansion: each state has been generated by those before it, more often
      than it was taken, and none is a goal. */
  ghost predicate Takes<S(!new)>(sp: Space<S>, taken: seq<S>) {
    forall i | 0 <= i < |taken| ::
      !sp.goal(taken[i]) && multiset(taken[..i + 1]) <= Generated(sp, taken[..i])
  }

  /** The limit is used up on states expanded, and one more is left to expand. */
  ghost predicate UsedUp<S(!new)>(sp: Space<S>, taken: seq<S>, limit: nat) {
    Takes(sp, taken) && |taken| == limit && exists c :: multiset(taken) + multiset{c} <= Generated(sp, taken)
  }

  /** A rule that drops every state recorded before. */
  ghost predicate DropsRepeats<S(!new)>(redundant: (set<S>, S) -> bool) {
    forall seen: set<S>, s | s in seen :: redundant(seen, s)
  }

  /** The limit exceeds the states there are to expand, none of them twice. */
  ghost predicate EnoughFor<S(!new)>(sp: Space<S>, redundant: (set<S>, S) -> bool, limit: nat) {
    DropsRepeats(redundant)
    && exists all: set<S> :: HasAll(sp, all) && |all| < limit
  }

  // Every state that can be reached and is not a goal is in `all`.
  ghost predicate HasAll<S(!new)>(sp: Space<S>, all: set<S>) {
    forall s | Reached(sp, s) && !sp.goal(s) :: s in all
  }

  ghost predicate NoneTwice<S(!new)>(ms: multiset<S>) {
    forall s :: ms[s] <= 1
  }

  lemma FirstTaken<S(!new)>(sp: Space<S>)
    requires sp.init.Some?
    ensures Takes(sp, []) && multiset([]) + multiset{sp.init.value} <= Generated(sp, [])
  {
  }

  lemma TakeOne<S(!new)>(sp: Space<S>, taken: seq<S>, open: multiset<S>, c: S, more: multiset<S>)
    requires Takes(sp, taken) && multiset(taken) + open <= Generated(sp, taken) && c in open && !sp.goal(c)
    requires more <= multiset(sp.succ(c))
    ensures Takes(sp, taken + [c])
    ensures multiset(taken + [c]) + (open - multiset{c} + more) <= Generated(sp, taken + [c])
  {
    var next := taken + [c];
    OneTaken(multiset(taken), open, c, more, Generated(sp, taken), multiset(sp.succ(c)));
    assert next[..|taken|] == taken && next[|taken|] == c;
    assert multiset(next) == multiset(taken) + multiset{c};
    forall i | 0 <= i < |next| ensures !sp.goal(next[i]) && multiset(next[..i + 1]) <= Generated(sp, next[..i]) {
      if i < |taken| {
        assert next[..i + 1] == taken[..i + 1] && next[..i] == taken[..i];
      } else {
        assert next[..i + 1] == next;
      }
    }
  }

  lemma OneTaken<S(!new)>(
    taken: multiset<S>, open: multiset<S>, c: S, more: multiset<S>, all: multiset<S>, succ: multiset<S>)
    requires taken + open <= all && c in open && more <= succ
    ensures taken + multiset{c} <= all
    ensures taken + multiset{c} + (open - multiset{c} + more) <= all + succ
  {
    forall s ensures (taken + multiset{c})[s] <= all[s] {
      assert (taken + open)[s] <= all[s] && open[c] >= 1;
    }
    assert taken + multiset{c} + (open - multiset{c} + more) == taken + open + more;
    forall s ensures (taken + open + more)[s] <= (all + succ)[s] {
      assert (taken + open)[s] <= all[s] && more[s] <= succ[s];
    }
  }

  /** Every state generated can be reached. */
  lemma {:induction false} GeneratedReached<S(!new)>(sp: Space<S>, taken: seq<S>, s: S)
    requires Takes(sp, taken) && s in Generated(sp, taken)
    ensures Reached(sp, s)
    decreases |taken|
  {
    if taken == [] {
      assert ReachedIn(sp, s, 0);
    } else {
      var (rest, last) := (taken[..|taken| - 1], taken[|taken| - 1]);
      forall i | 0 <= i < |rest| ensures !sp.goal(rest[i]) && multiset(rest[..i + 1]) <= Generated(sp, rest[..i]) {
        assert rest[..i + 1] == taken[..i + 1] && rest[..i] == taken[..i];
      }
      if s in Generated(sp, rest) {
        GeneratedReached(sp, rest, s);
      } else {
        assert last in multiset(taken[..|taken|]) && taken[..|taken|] == taken;
        GeneratedReached(sp, rest, last);
        SuccessorReached(sp, last, s);
      }
    }
  }

  /** With repeats dropped, the limit is used up only if there are as many states to
      expand. */
  lemma FiniteSpace<S(!new)>(sp: Space<S>, taken: seq<S>, limit: nat, all: set<S>)
    requires UsedUp(sp, taken, limit) && NoneTwice(multiset(taken))
    requires HasAll(sp, all)
    ensures limit <= |all|
  {
    forall i | 0 <= i < |taken| ensures taken[i] in all {
      assert taken[i] in multiset(taken[..i + 1]);
      PrefixTakes(sp, taken, i);
      GeneratedReached(sp, taken[..i], taken[i]);
    }
    CountDistinct(taken, all);
  }

  lemma PrefixTakes<S(!new)>(sp: Space<S>, taken: seq<S>, k: nat)
    requires Takes(sp, taken) && k <= |taken|
    ensures Takes(sp, taken[..k])
  {
    forall i | 0 <= i < k ensures multiset(taken[..k][..i + 1]) <= Generated(sp, taken[..k][..i]) {
      assert taken[..k][..i + 1] == taken[..i + 1] && taken[..k][..i] == taken[..i];
    }
  }

  lemma {:induction false} CountDistinct<S(!new)>(ss: seq<S>, all: set<S>)
    requires NoneTwice(multiset(ss)) && forall s | s in ss :: s in all
    ensures |ss| <= |all|
    decreases |ss|
  {
    if ss != [] {
      var (rest, last) := (ss[..|ss| - 1], ss[|ss| - 1]);
      assert ss == rest + [last];
      assert multiset(ss) == multiset(rest) + multiset{last};
      assert last !in rest by {
        assert multiset(ss)[last] <= 1;
      }
      forall s ensures multiset(rest)[s] <= 1 {
        assert multiset(ss)[s] <= 1;
      }
      CountDistinct(rest, all - {last});
    }
  }

  // No state of `taken` is a dead end for the heuristic.
  ghost predicate Alive<S(!new)>(h: S -> Option<real>, taken: seq<S>) {
    forall s | s in taken :: h(s).Some?
  }

  // What holds between two pops.
  ghost predicate Exploring<S(!new)>(
    sp: Space<S>, h: S -> Option<real>, redundant: (set<S>, S) -> bool, early: bool, seen: set<S>, open: multiset<S>,
    taken: seq<S>)
  {
    && sp.init.Some? && sp.init.value in seen && AllReached(sp, seen) && Promising(sp, seen, open)
    && (forall s | s in open :: s in seen && h(s).Some? && (early ==> !sp.goal(s)))
    && Takes(sp, taken) && multiset(taken) + open <= Generated(sp, taken)
    && Alive(h, taken) && Unrepeated(redundant, seen, taken, open)
  }

  lemma FirstExploring<S(!new)>(
    sp: Space<S>, h: S -> Option<real>, redundant: (set<S>, S) -> bool, early: bool, init: S)
    requires sp.init == Some(init) && h(init).Some? && (early ==> !sp.goal(init))
    ensures Exploring(sp, h, redundant, early, {init}, multiset{init}, [])
  {
    assert ReachedIn(sp, init, 0);
    FirstPromise(sp, init);
    FirstTaken(sp);
    FirstUnrepeated(redundant, init);
    hide Promising, Takes, Generated, Unrepeated;
  }

  lemma ExploringEnds<S(!new)>(
    sp: Space<S>, h: S -> Option<real>, redundant: (set<S>, S) -> bool, early: bool, seen: set<S>, open: multiset<S>,
    taken: seq<S>)
    requires Exploring(sp, h, redundant, early, seen, open, taken)
    ensures AllReached(sp, seen) && Alive(h, taken) && (DropsRepeats(redundant) ==> NoneTwice(multiset(taken)))
    ensures forall c | c in open :: c in seen && Reached(sp, c) && (early ==> !sp.goal(c))
    ensures open == multiset{} ==> forall s | Reached(sp, s) :: !sp.goal(s)
  {
    UnrepeatedEnds(redundant, seen, taken, open);
    hide Promising, Takes, Generated, Unrepeated, Reached;
    if open == multiset{} {
      NothingPromised(sp, seen, sp.init.value);
      NoGoalReached(sp);
    }
  }

  lemma ExploringLimit<S(!new)>(
    sp: Space<S>, h: S -> Option<real>, redundant: (set<S>, S) -> bool, early: bool, seen: set<S>, open: multiset<S>,
    taken: seq<S>, c: S)
    requires Exploring(sp, h, redundant, early, seen, open, taken) && c in open
    ensures UsedUp(sp, taken, |taken|) && !EnoughFor(sp, redundant, |taken|)
  {
    LimitIsUsedUp(sp, redundant, seen, taken, open, c);
  }

  lemma ExploringOn<S(!new)>(
    sp: Space<S>, h: S -> Option<real>, redundant: (set<S>, S) -> bool, early: bool, seen: set<S>, open: multiset<S>,
    taken: seq<S>, c: S, seen': set<S>, more: multiset<S>)
    requires Exploring(sp, h, redundant, early, seen, open, taken) && c in open && !sp.goal(c)
    requires Expanded(sp, h, redundant, early, seen, sp.succ(c), seen', more)
    ensures Exploring(sp, h, redundant, early, seen', open - multiset{c} + more, taken + [c])
  {
    hide Promising, Takes, Generated, Unrepeated, Handled, Fresh;
    ExpandKeeps(sp, seen, open, c, seen', more);
    TakeOne(sp, taken, open, c, more);
    UnrepeatedOn(redundant, seen, taken, open, c, seen', more);
  }

  /** `priority_search`: the queue may pop in any order. */
  method PrioritySearch<S(==, !new)>(
    sp: Space<S>, h: S -> Option<real>, redundant: (set<S>, S) -> bool, early: bool, limit: nat)
    returns (r: Outcome<S>, ghost taken: seq<S>)
    requires SafeHeuristic(sp, h) && SafePruning(sp, redundant)
    ensures r.Found? ==> Reached(sp, r.s) && sp.goal(r.s)
    ensures r.NoPlan? ==> forall s | Reached(sp, s) :: !sp.goal(s)
    ensures r.LimitReached? ==> UsedUp(sp, taken, limit) && Alive(h, taken)
    ensures DropsRepeats(redundant) ==> NoneTwice(multiset(taken))
    ensures EnoughFor(sp, redundant, limit) ==> !r.LimitReached?
  {
    taken := [];
    assert NoneTwice(multiset(taken));
    if sp.init.None? {
      NoneReached(sp);
      return NoPlan, taken;
    }
    var init := sp.init.value;
    assert ReachedIn(sp, init, 0);
    var seen := {init};
    if early && sp.goal(init) {
      return Found(init), taken;
    }
    if h(init).None? {
      NoGoalReached(sp);
      return NoPlan, taken;
    }
    var open := multiset{init};
    FirstExploring(sp, h, redundant, early, init);
    var expanded := 0;
    hide *;
    while open != multiset{}
      invariant Exploring(sp, h, redundant, early, seen, open, taken) && |taken| == expanded <= limit
      decreases limit - expanded
    {
      ExploringEnds(sp, h, redundant, early, seen, open, taken);
      var c :| c in open;
      if expanded >= limit {
        ExploringLimit(sp, h, redundant, early, seen, open, taken, c);
        return LimitReached, taken;
      }
      expanded := expanded + 1;
      if !early && sp.goal(c) {
        return Found(c), taken;
      }
      var found, seen', more := Expand(sp, h, redundant, early, c, seen);
      if found.Some? {
        return Found(found.value), taken;
      }
      ExploringOn(sp, h, redundant, early, seen, open, taken, c, seen', more);
      taken := taken + [c];
      open := open - multiset{c} + more;
      seen := seen';
    }
    ExploringEnds(sp, h, redundant, early, seen, open, taken);
    r := NoPlan;
  }

  // With repeats dropped, the states taken and open are different, and recorded.
  ghost predicate Unrepeated<S(!new)>(
    redundant: (set<S>, S) -> bool, seen: set<S>, taken: seq<S>, open: multiset<S>)
  {
    DropsRepeats(redundant) ==>
      NoneTwice(multiset(taken) + open) && forall s | s in multiset(taken) + open :: s in seen
  }

  // Without repeats, what one expansion adds is new.
  ghost predicate Fresh<S(!new)>(redundant: (set<S>, S) -> bool, seen: set<S>, more: multiset<S>) {
    DropsRepeats(redundant) ==> NoneTwice(more) && forall s | s in more :: s !in seen
  }

  lemma FreshOn<S(!new)>(redundant: (set<S>, S) -> bool, seen: set<S>, was: set<S>, more: multiset<S>, t: S)
    requires Fresh(redundant, seen, more) && seen <= was && (forall s | s in more :: s in was)
    requires !redundant(was, t)
    ensures Fresh(redundant, seen, more + multiset{t})
  {
    if DropsRepeats(redundant) {
      assert t !in was;
      forall s ensures (more + multiset{t})[s] <= 1 {
        assert more[s] <= 1;
      }
    }
  }

  lemma SnocMore<S(!new)>(ts: seq<S>, t: S, more: multiset<S>, more': multiset<S>)
    requires more <= multiset(ts) && (more' == more || more' == more + multiset{t})
    ensures more' <= multiset(ts + [t])
  {
    assert multiset(ts + [t]) == multiset(ts) + multiset{t};
    forall s ensures more'[s] <= multiset(ts + [t])[s] {
      assert more[s] <= multiset(ts)[s];
    }
  }

  lemma FirstUnrepeated<S(!new)>(redundant: (set<S>, S) -> bool, init: S)
    ensures Unrepeated(redundant, {init}, [], multiset{init})
  {
  }

  lemma UnrepeatedEnds<S(!new)>(redundant: (set<S>, S) -> bool, seen: set<S>, taken: seq<S>, open: multiset<S>)
    requires Unrepeated(redundant, seen, taken, open)
    ensures DropsRepeats(redundant) ==> NoneTwice(multiset(taken))
  {
    forall s | DropsRepeats(redundant) ensures multiset(taken)[s] <= 1 {
      assert (multiset(taken) + open)[s] <= 1;
    }
  }

  lemma UnrepeatedOn<S(!new)>(
    redundant: (set<S>, S) -> bool, seen: set<S>, taken: seq<S>, open: multiset<S>, c: S, seen': set<S>,
    more: multiset<S>)
    requires Unrepeated(redundant, seen, taken, open) && c in open && seen <= seen'
    requires forall s | s in more :: s in seen'
    requires Fresh(redundant, seen, more)
    ensures Unrepeated(redundant, seen', taken + [c], open - multiset{c} + more)
  {
    assert multiset(taken + [c]) == multiset(taken) + multiset{c};
    assert multiset(taken + [c]) + (open - multiset{c} + more) == multiset(taken) + open + more;
    forall s | DropsRepeats(redundant) ensures (multiset(taken) + open + more)[s] <= 1 {
      assert (multiset(taken) + open)[s] <= 1 && more[s] <= 1;
    }
  }

  lemma LimitIsUsedUp<S(!new)>(
    sp: Space<S>, redundant: (set<S>, S) -> bool, seen: set<S>, taken: seq<S>, open: multiset<S>, c: S)
    requires Takes(sp, taken) && multiset(taken) + open <= Generated(sp, taken) && c in open
    requires Unrepeated(redundant, seen, taken, open)
    ensures UsedUp(sp, taken, |taken|)
    ensures DropsRepeats(redundant) ==> NoneTwice(multiset(taken))
    ensures !EnoughFor(sp, redundant, |taken|)
  {
    OneTaken(multiset(taken), open, c, multiset{}, Generated(sp, taken), multiset{});
    UnrepeatedEnds(redundant, seen, taken, open);
    if EnoughFor(sp, redundant, |taken|) {
      var all: set<S> :| HasAll(sp, all) && |all| < |taken|;
      FiniteSpace(sp, taken, |taken|, all);
    }
  }

  // What the successors `ts` of an expanded state have become.
  ghost predicate Expanded<S(!new)>(
    sp: Space<S>, h: S -> Option<real>, redundant: (set<S>, S) -> bool, early: bool, seen: set<S>, ts: seq<S>,
    seen': set<S>, more: multiset<S>)
  {
    && AllReached(sp, seen') && seen <= seen'
    && (forall t | t in ts :: Handled(sp, seen', more, t))
    && OnlyNew(sp, seen, seen', more)
    && (forall s | s in more :: s in seen' && h(s).Some? && (early ==> !sp.goal(s)))
    && more <= multiset(ts) && Fresh(redundant, seen, more)
  }

  lemma ExpandedNone<S(!new)>(
    sp: Space<S>, h: S -> Option<real>, redundant: (set<S>, S) -> bool, early: bool, seen: set<S>)
    requires AllReached(sp, seen)
    ensures Expanded(sp, h, redundant, early, seen, [], seen, multiset{})
  {
  }

  lemma ExpandedOld<S(!new)>(
    sp: Space<S>, h: S -> Option<real>, redundant: (set<S>, S) -> bool, early: bool, seen: set<S>, ts: seq<S>,
    seen': set<S>, more: multiset<S>, t: S)
    requires Expanded(sp, h, redundant, early, seen, ts, seen', more)
    requires SafePruning(sp, redundant) && Reached(sp, t) && redundant(seen', t)
    ensures Expanded(sp, h, redundant, early, seen, ts + [t], seen', more)
  {
    PrunedHandled(sp, redundant, seen', more, t);
    SnocMore(ts, t, more, more);
    hide Handled, SafePruning, Fresh, AllReached, OnlyNew;
  }

  lemma ExpandedNew<S(!new)>(
    sp: Space<S>, h: S -> Option<real>, redundant: (set<S>, S) -> bool, early: bool, seen: set<S>, ts: seq<S>,
    seen': set<S>, more: multiset<S>, t: S)
    requires Expanded(sp, h, redundant, early, seen, ts, seen', more) && SafeHeuristic(sp, h)
    requires Reached(sp, t) && !redundant(seen', t) && (early ==> !sp.goal(t))
    ensures Expanded(sp, h, redundant, early, seen, ts + [t], seen' + {t},
                     if h(t).Some? then more + multiset{t} else more)
  {
    var (now, all) := (seen' + {t}, if h(t).Some? then more + multiset{t} else more);
    hide Handled, Fresh, OnlyNew, SafeHeuristic;
    SnocMore(ts, t, more, all);
    RecordedHandled(sp, h, seen, seen', more, now, all, t);
    FreshOn(redundant, seen, seen', more, t);
    forall x | x in ts + [t] ensures Handled(sp, now, all, x) {
      if x in ts {
        HandledStays(sp, seen', more, now, all, x);
      }
    }
  }

  // One expansion: the successors that are new and not dead ends.
  method Expand<S(==, !new)>(
    sp: Space<S>, h: S -> Option<real>, redundant: (set<S>, S) -> bool, early: bool, c: S, seen: set<S>)
    returns (found: Option<S>, seen': set<S>, more: multiset<S>)
    requires SafeHeuristic(sp, h) && SafePruning(sp, redundant) && AllReached(sp, seen) && c in seen
    ensures found.Some? ==> Reached(sp, found.value) && sp.goal(found.value)
    ensures found.None? ==> Expanded(sp, h, redundant, early, seen, sp.succ(c), seen', more)
  {
    found, seen', more := None, seen, multiset{};
    var ts := sp.succ(c);
    assert ts[..|ts|] == ts;
    ExpandedNone(sp, h, redundant, early, seen);
    hide Expanded, SafeHeuristic, SafePruning;
    for i := 0 to |ts|
      invariant Expanded(sp, h, redundant, early, seen, ts[..i], seen', more)
    {
      var t := ts[i];
      assert ts[..i + 1] == ts[..i] + [t];
      assert t in sp.succ(c);
      SuccessorReached(sp, c, t);
      if redundant(seen', t) {
        ExpandedOld(sp, h, redundant, early, seen, ts[..i], seen', more, t);
      } else if early && sp.goal(t) {
        return Some(t), seen' + {t}, more;
      } else {
        ExpandedNew(sp, h, redundant, early, seen, ts[..i], seen', more, t);
        seen' := seen' + {t};
        if h(t).Some? {
          more := more + multiset{t};
        }
      }
    }
  }

  // Every state recorded by an expansion was put in `more` or leads nowhere.
  ghost predicate OnlyNew<S(!new)>(sp: Space<S>, seen: set<S>, seen': set<S>, more: multiset<S>) {
    forall s | s in seen' :: s in seen || s in more || forall n: nat :: !GoalIn(sp, s, n)
  }

  lemma PrunedHandled<S(!new)>(
    sp: Space<S>, redundant: (set<S>, S) -> bool, seen: set<S>, more: multiset<S>, t: S)
    requires SafePruning(sp, redundant) && AllReached(sp, seen) && Reached(sp, t) && redundant(seen, t)
    ensures Handled(sp, seen, more, t)
  {
    assert Covered(sp, seen, t);
  }

  lemma RecordedHandled<S(!new)>(
    sp: Space<S>, h: S -> Option<real>, seen: set<S>, was: set<S>, had: multiset<S>, seen': set<S>,
    more: multiset<S>, t: S)
    requires SafeHeuristic(sp, h) && Reached(sp, t) && OnlyNew(sp, seen, was, had) && seen' == was + {t}
    requires more == if h(t).Some? then had + multiset{t} else had
    ensures Handled(sp, seen', more, t) && OnlyNew(sp, seen, seen', more)
  {
  }

  lemma HandledStays<S(!new)>(
    sp: Space<S>, seen: set<S>, more: multiset<S>, seen': set<S>, more': multiset<S>, t: S)
    requires Handled(sp, seen, more, t) && seen <= seen' && more <= more'
    ensures Handled(sp, seen', more', t)
  {
    if Covered(sp, seen, t) {
      var r :| r in seen && Covers(sp, r, t);
      assert r in seen';
    }
  }

  lemma {:induction false} NoneReachedIn<S(!new)>(sp: Space<S>, s: S, n: nat)
    requires sp.init.None?
    ensures !ReachedIn(sp, s, n)
  {
    if n > 0 && ReachedIn(sp, s, n) {
      var t :| ReachedIn(sp, t, n - 1) && s in sp.succ(t);
      NoneReachedIn(sp, t, n - 1);
    }
  }

  lemma NoneReached<S(!new)>(sp: Space<S>)
    requires sp.init.None?
    ensures forall s :: !Reached(sp, s)
  {
    forall s ensures !Reached(sp, s) {
      forall n: nat ensures !ReachedIn(sp, s, n) {
        NoneReachedIn(sp, s, n);
      }
    }
  }

  /** A goal reached from the initial state is one it can reach. */
  lemma {:induction false} GoalFromInit<S(!new)>(sp: Space<S>, s: S, k: nat, n: nat)
    requires sp.init.Some? && ReachedIn(sp, s, k) && GoalIn(sp, s, n)
    ensures GoalIn(sp, sp.init.value, n + k)
    decreases k
  {
    if k > 0 {
      var t :| ReachedIn(sp, t, k - 1) && s in sp.succ(t);
      assert GoalIn(sp, t, n + 1);
      GoalFromInit(sp, t, k - 1, n + 1);
    }
  }

  lemma NoGoalReached<S(!new)>(sp: Space<S>)
    requires sp.init.Some? && forall n: nat :: !GoalIn(sp, sp.init.value, n)
    ensures forall s | Reached(sp, s) :: !sp.goal(s)
  {
    forall s | Reached(sp, s) ensures !sp.goal(s) {
      if sp.goal(s) {
        var k: nat :| ReachedIn(sp, s, k);
        assert GoalIn(sp, s, 0);
        GoalFromInit(sp, s, k, 0);
      }
    }
  }

  lemma FirstPromise<S(!new)>(sp: Space<S>, init: S)
    ensures Promising(sp, {init}, multiset{init})
  {
  }

  // ---- several queues ----

  // Sharing is by number: queues hold the numbers of the states generated, and all
  // of them see the one flag of a number.
  datatype Pool<S> = Pool(states: seq<S>, expanded: seq<bool>)

  ghost predicate PoolOk<S(!new)>(pool: Pool<S>) {
    |pool.states| == |pool.expanded|
  }

  // The states not yet expanded.
  function Pending<S>(pool: Pool<S>, i: nat): multiset<S>
    requires |pool.states| == |pool.expanded| && i <= |pool.states|
  {
    if i == 0 then multiset{} else
      Pending(pool, i - 1) + if pool.expanded[i - 1] then multiset{} else multiset{pool.states[i - 1]}
  }

  function AllPending<S>(pool: Pool<S>): multiset<S>
    requires |pool.states| == |pool.expanded|
  {
    Pending(pool, |pool.states|)
  }

  lemma PendingStep<S(!new)>(pool: Pool<S>, i: nat)
    requires PoolOk(pool) && 0 < i <= |pool.states|
    ensures Pending(pool, i)
         == if pool.expanded[i - 1] then Pending(pool, i - 1) else Pending(pool, i - 1) + multiset{pool.states[i - 1]}
  {
  }

  // State `s` has a number below `i` that is not expanded.
  ghost predicate Numbered<S(!new)>(pool: Pool<S>, i: nat, s: S)
    requires PoolOk(pool) && i <= |pool.states|
  {
    exists c :: 0 <= c < i && !pool.expanded[c] && pool.states[c] == s
  }

  lemma {:induction false} PendingHas<S(!new)>(pool: Pool<S>, i: nat, s: S)
    requires PoolOk(pool) && i <= |pool.states|
    ensures s in Pending(pool, i) <==> Numbered(pool, i, s)
  {
    if i > 0 {
      PendingHas(pool, i - 1, s);
      PendingStep(pool, i);
      NumberedStep(pool, i, s);
      hide Pending, Numbered;
    }
  }

  lemma NumberedStep<S(!new)>(pool: Pool<S>, i: nat, s: S)
    requires PoolOk(pool) && 0 < i <= |pool.states|
    ensures Numbered(pool, i, s)
        <==> Numbered(pool, i - 1, s) || (!pool.expanded[i - 1] && pool.states[i - 1] == s)
  {
    if Numbered(pool, i, s) {
      var c :| 0 <= c < i && !pool.expanded[c] && pool.states[c] == s;
      assert c == i - 1 || Numbered(pool, i - 1, s);
    }
  }

  /** Every state in the pool that is not expanded is in the queue, unless it is a
      dead end for the queue's heuristic. */
  ghost predicate Complete<S(!new)>(pool: Pool<S>, queue: multiset<nat>, h: S -> Option<real>)
    requires PoolOk(pool)
  {
    && (forall c | c in queue :: c < |pool.states|)
    && forall c: nat | c < |pool.states| && !pool.expanded[c] :: c in queue || h(pool.states[c]).None?
  }

  ghost predicate AllComplete<S(!new)>(pool: Pool<S>, queues: seq<multiset<nat>>, hs: seq<S -> Option<real>>)
    requires PoolOk(pool)
  {
    |queues| == |hs| && forall i | 0 <= i < |hs| :: Complete(pool, queues[i], hs[i])
  }

  // How many numbers the queues hold.
  function Load(queues: seq<multiset<nat>>): nat {
    if queues == [] then 0 else |queues[0]| + Load(queues[1..])
  }

  lemma {:induction false} LoadPop(queues: seq<multiset<nat>>, i: nat, c: nat)
    requires i < |queues| && c in queues[i]
    ensures Load(queues[i := queues[i] - multiset{c}]) < Load(queues)
    decreases |queues|
  {
    var after := queues[i := queues[i] - multiset{c}];
    if i == 0 {
      assert after[1..] == queues[1..];
    } else {
      assert after[1..] == queues[1..][i - 1 := queues[1..][i - 1] - multiset{c}];
      LoadPop(queues[1..], i - 1, c);
    }
  }

  /** When one queue is empty, nothing promising is left in any. */
  lemma EmptyQueueIsEnough<S(!new)>(
    sp: Space<S>, seen: set<S>, pool: Pool<S>, h: S -> Option<real>, s: S)
    requires PoolOk(pool) && SafeHeuristic(sp, h) && Complete(pool, multiset{}, h)
    requires (forall c | 0 <= c < |pool.states| :: Reached(sp, pool.states[c]))
    requires Promising(sp, seen, AllPending(pool)) && s in seen
    ensures forall n: nat :: !GoalIn(sp, s, n)
  {
    forall o, m: nat | o in AllPending(pool) ensures !GoalIn(sp, o, m) {
      PendingHas(pool, |pool.states|, o);
      var c: nat :| c < |pool.states| && !pool.expanded[c] && pool.states[c] == o;
    }
    forall n: nat ensures !GoalIn(sp, s, n) {
      assert !Within(sp, AllPending(pool), n);
    }
  }

  // Marking one state expanded takes it out of the pending ones.
  lemma {:induction false} PendingMark<S(!new)>(pool: Pool<S>, pool': Pool<S>, c: nat, i: nat)
    requires PoolOk(pool) && c < |pool.states| && !pool.expanded[c] && i <= |pool.states|
    requires pool' == Pool(pool.states, pool.expanded[c := true])
    ensures i <= c ==> Pending(pool', i) == Pending(pool, i)
    ensures c < i ==> pool.states[c] in Pending(pool, i)
    ensures c < i ==> Pending(pool', i) == Pending(pool, i) - multiset{pool.states[c]}
  {
    if i > 0 {
      PendingMark(pool, pool', c, i - 1);
      PendingStep(pool, i);
      PendingStep(pool', i);
      hide Pending;
      if c < i - 1 && !pool.expanded[i - 1] {
        TakeAndAdd(Pending(pool, i - 1), pool.states[c], pool.states[i - 1]);
      } else if c == i - 1 {
        AddAndTake(Pending(pool, i - 1), pool.states[c]);
      }
    }
  }

  lemma AddAndTake<S>(ms: multiset<S>, s: S)
    ensures s in ms + multiset{s} && ms + multiset{s} - multiset{s} == ms
  {
  }

  lemma TakeAndAdd<S>(ms: multiset<S>, s: S, t: S)
    requires s in ms
    ensures ms - multiset{s} + multiset{t} == ms + multiset{t} - multiset{s}
  {
  }

  // Adding a state adds it to the pending ones.
  lemma {:induction false} PendingPrefix<S(!new)>(pool: Pool<S>, pool': Pool<S>, i: nat)
    requires PoolOk(pool) && PoolOk(pool') && i <= |pool.states| <= |pool'.states|
    requires pool'.states[..|pool.states|] == pool.states && pool'.expanded[..|pool.states|] == pool.expanded
    ensures Pending(pool', i) == Pending(pool, i)
  {
    if i > 0 {
      PendingPrefix(pool, pool', i - 1);
      assert pool'.states[..|pool.states|][i - 1] == pool'.states[i - 1];
      assert pool'.expanded[..|pool.states|][i - 1] == pool'.expanded[i - 1];
    }
  }

  lemma PendingAdd<S(!new)>(pool: Pool<S>, t: S)
    requires PoolOk(pool)
    ensures var more := Pool(pool.states + [t], pool.expanded + [false]);
      AllPending(more) == AllPending(pool) + multiset{t}
  {
    PendingPrefix(pool, Pool(pool.states + [t], pool.expanded + [false]), |pool.states|);
  }

  // What holds between two pops.
  ghost predicate Searching<S(!new)>(
    sp: Space<S>, redundant: (set<S>, S) -> bool, early: bool, seen: set<S>, pool: Pool<S>, taken: seq<S>)
  {
    && PoolOk(pool) && sp.init.Some? && sp.init.value in seen
    && AllReached(sp, seen) && Promising(sp, seen, AllPending(pool))
    && (forall c | 0 <= c < |pool.states| :: pool.states[c] in seen && (early ==> !sp.goal(pool.states[c])))
    && Takes(sp, taken) && multiset(taken) + AllPending(pool) <= Generated(sp, taken)
    && Unrepeated(redundant, seen, taken, AllPending(pool))
  }

  lemma FirstSearching<S(!new)>(
    sp: Space<S>, redundant: (set<S>, S) -> bool, early: bool, init: S, pool: Pool<S>)
    requires sp.init == Some(init) && pool == Pool([init], [false]) && (early ==> !sp.goal(init))
    ensures Searching(sp, redundant, early, {init}, pool, [])
  {
    assert ReachedIn(sp, init, 0);
    FirstPromise(sp, init);
    assert AllPending(pool) == multiset{init} by {
      PendingAdd(Pool([], []), init);
      assert [] + [init] == [init] && [] + [false] == [false];
    }
    FirstTaken(sp);
    FirstUnrepeated(redundant, init);
    hide Promising, Pending, Takes, Generated, Unrepeated, AllPending;
  }

  lemma SearchingEnds<S(!new)>(
    sp: Space<S>, redundant: (set<S>, S) -> bool, early: bool, seen: set<S>, pool: Pool<S>, taken: seq<S>)
    requires Searching(sp, redundant, early, seen, pool, taken)
    ensures forall c | 0 <= c < |pool.states| :: Reached(sp, pool.states[c]) && (early ==> !sp.goal(pool.states[c]))
    ensures DropsRepeats(redundant) ==> NoneTwice(multiset(taken))
  {
    UnrepeatedEnds(redundant, seen, taken, AllPending(pool));
  }

  // A queue is empty: there is no plan.
  lemma SearchingDone<S(!new)>(
    sp: Space<S>, redundant: (set<S>, S) -> bool, early: bool, seen: set<S>, pool: Pool<S>, taken: seq<S>,
    h: S -> Option<real>)
    requires Searching(sp, redundant, early, seen, pool, taken)
    requires SafeHeuristic(sp, h) && Complete(pool, multiset{}, h)
    ensures forall s | Reached(sp, s) :: !sp.goal(s)
  {
    SearchingEnds(sp, redundant, early, seen, pool, taken);
    hide Reached, Takes, Unrepeated;
    EmptyQueueIsEnough(sp, seen, pool, h, sp.init.value);
    NoGoalReached(sp);
  }

  lemma SearchingLimit<S(!new)>(
    sp: Space<S>, redundant: (set<S>, S) -> bool, early: bool, seen: set<S>, pool: Pool<S>, taken: seq<S>, c: nat)
    requires Searching(sp, redundant, early, seen, pool, taken) && c < |pool.states| && !pool.expanded[c]
    ensures UsedUp(sp, taken, |taken|)
    ensures DropsRepeats(redundant) ==> NoneTwice(multiset(taken))
    ensures !EnoughFor(sp, redundant, |taken|)
  {
    PendingHas(pool, |pool.states|, pool.states[c]);
    LimitIsUsedUp(sp, redundant, seen, taken, AllPending(pool), pool.states[c]);
  }

  /** `_multiqueue_search`, with any switching policy that names a queue. */
  method MultiqueueSearch<S(==, !new)>(
    sp: Space<S>, hs: seq<S -> Option<real>>, redundant: (set<S>, S) -> bool, policy: nat -> nat, early: bool,
    limit: nat)
    returns (r: Outcome<S>, ghost taken: seq<S>)
    requires |hs| > 0 && forall e: nat :: policy(e) < |hs|
    requires (forall i | 0 <= i < |hs| :: SafeHeuristic(sp, hs[i])) && SafePruning(sp, redundant)
    ensures r.Found? ==> Reached(sp, r.s) && sp.goal(r.s)
    ensures r.NoPlan? ==> forall s | Reached(sp, s) :: !sp.goal(s)
    ensures r.LimitReached? ==> UsedUp(sp, taken, limit)
    ensures DropsRepeats(redundant) ==> NoneTwice(multiset(taken))
    ensures EnoughFor(sp, redundant, limit) ==> !r.LimitReached?
  {
    taken := [];
    assert NoneTwice(multiset(taken));
    if sp.init.None? {
      NoneReached(sp);
      return NoPlan, taken;
    }
    var init := sp.init.value;
    assert ReachedIn(sp, init, 0);
    if early && sp.goal(init) {
      return Found(init), taken;
    }
    var pool := Pool([init], [false]);
    var seen := {init};
    var queues := seq(|hs|, i => multiset{0});
    FirstSearching(sp, redundant, early, init, pool);
    var i := 0;
    var expanded := 0;
    AllStart(init, hs);
    hide *;
    while queues[i] != multiset{}
      invariant i < |queues| == |hs| && PoolOk(pool) && AllComplete(pool, queues, hs)
      invariant Searching(sp, redundant, early, seen, pool, taken) && |taken| == expanded <= limit
      decreases limit - expanded, Load(queues), if queues[i] == multiset{} then 0 else 1
    {
      i := policy(expanded);
      if queues[i] != multiset{} {
        var c :| c in queues[i];
        LoadPop(queues, i, c);
        QueueComplete(pool, queues, hs, i);
        QueueNumbers(pool, queues[i], hs[i]);
        if pool.expanded[c] {
          PopExpanded(pool, queues, hs, i, c);
          queues := queues[i := queues[i] - multiset{c}];
        } else {
          SearchingEnds(sp, redundant, early, seen, pool, taken);
          if expanded >= limit {
            SearchingLimit(sp, redundant, early, seen, pool, taken, c);
            return LimitReached, taken;
          }
          expanded := expanded + 1;
          var s := pool.states[c];
          if !early && sp.goal(s) {
            return Found(s), taken;
          }
          var found;
          found, seen, pool, queues := ExpandMany(sp, hs, redundant, early, c, seen, pool, queues, i, taken);
          if found.Some? {
            return Found(found.value), taken;
          }
          taken := taken + [s];
        }
      }
    }
    SearchingEnds(sp, redundant, early, seen, pool, taken);
    QueueComplete(pool, queues, hs, i);
    SearchingDone(sp, redundant, early, seen, pool, taken, hs[i]);
    r := NoPlan;
  }

  lemma FirstComplete<S(!new)>(init: S, h: S -> Option<real>)
    ensures Complete(Pool([init], [false]), multiset{0}, h)
  {
  }

  lemma AllStart<S(!new)>(init: S, hs: seq<S -> Option<real>>)
    ensures PoolOk(Pool([init], [false]))
    ensures AllComplete(Pool([init], [false]), seq(|hs|, i => multiset{0}), hs)
  {
    forall j | 0 <= j < |hs| ensures Complete(Pool([init], [false]), seq(|hs|, i => multiset{0})[j], hs[j]) {
      FirstComplete(init, hs[j]);
    }
  }

  lemma QueueComplete<S(!new)>(pool: Pool<S>, queues: seq<multiset<nat>>, hs: seq<S -> Option<real>>, i: nat)
    requires PoolOk(pool) && AllComplete(pool, queues, hs) && i < |queues|
    ensures |queues| == |hs| && |pool.states| == |pool.expanded| && Complete(pool, queues[i], hs[i])
  {
  }

  lemma QueueNumbers<S(!new)>(pool: Pool<S>, queue: multiset<nat>, h: S -> Option<real>)
    requires PoolOk(pool) && Complete(pool, queue, h)
    ensures forall c | c in queue :: c < |pool.states|
  {
  }

  // Popping a state another queue has expanded leaves all queues complete.
  lemma PopExpanded<S(!new)>(
    pool: Pool<S>, queues: seq<multiset<nat>>, hs: seq<S -> Option<real>>, i: nat, c: nat)
    requires PoolOk(pool) && AllComplete(pool, queues, hs) && i < |queues|
    requires c < |pool.states| && pool.expanded[c]
    ensures AllComplete(pool, queues[i := queues[i] - multiset{c}], hs)
  {
    assert Complete(pool, queues[i], hs[i]);
  }

  // The pool grows at the end, with states not yet expanded.
  ghost predicate PoolGrows<S(!new)>(pool: Pool<S>, pool': Pool<S>) {
    && PoolOk(pool) && PoolOk(pool') && |pool.states| <= |pool'.states|
    && pool'.states[..|pool.states|] == pool.states && pool'.expanded[..|pool.states|] == pool.expanded
  }

  lemma PoolAdd<S(!new)>(pool: Pool<S>, pool': Pool<S>, t: S)
    requires PoolGrows(pool, pool')
    ensures PoolGrows(pool, Pool(pool'.states + [t], pool'.expanded + [false])) && PoolOk(pool')
  {
  }

  // What the successors `ts` have become: recorded in `seen`, and in the pool.
  ghost predicate Gathered<S(!new)>(
    sp: Space<S>, redundant: (set<S>, S) -> bool, early: bool, seen: set<S>, pool: Pool<S>, ts: seq<S>, seen': set<S>,
    pool': Pool<S>, more: multiset<S>)
  {
    && AllReached(sp, seen') && seen <= seen' && PoolGrows(pool, pool')
    && AllPending(pool') == AllPending(pool) + more
    && (forall t | t in ts :: Handled(sp, seen', more, t))
    && (forall t | t in seen' :: t in seen || t in more)
    && (forall t | t in more :: t in seen')
    && more <= multiset(ts) && Fresh(redundant, seen, more)
    && forall c | 0 <= c < |pool'.states| :: pool'.states[c] in seen' && (early ==> !sp.goal(pool'.states[c]))
  }

  lemma GatheredNone<S(!new)>(
    sp: Space<S>, redundant: (set<S>, S) -> bool, early: bool, seen: set<S>, pool: Pool<S>)
    requires AllReached(sp, seen) && PoolOk(pool)
    requires forall c | 0 <= c < |pool.states| :: pool.states[c] in seen && (early ==> !sp.goal(pool.states[c]))
    ensures Gathered(sp, redundant, early, seen, pool, [], seen, pool, multiset{})
  {
  }

  lemma GatheredOld<S(!new)>(
    sp: Space<S>, redundant: (set<S>, S) -> bool, early: bool, seen: set<S>, pool: Pool<S>, ts: seq<S>, seen': set<S>,
    pool': Pool<S>, more: multiset<S>, t: S)
    requires Gathered(sp, redundant, early, seen, pool, ts, seen', pool', more)
    requires SafePruning(sp, redundant) && Reached(sp, t) && redundant(seen', t)
    ensures Gathered(sp, redundant, early, seen, pool, ts + [t], seen', pool', more)
  {
    PrunedHandled(sp, redundant, seen', more, t);
    SnocMore(ts, t, more, more);
    hide Handled, SafePruning, Fresh, PoolGrows, AllPending, AllReached;
  }

  lemma GatheredNew<S(!new)>(
    sp: Space<S>, redundant: (set<S>, S) -> bool, early: bool, seen: set<S>, pool: Pool<S>, ts: seq<S>, seen': set<S>,
    pool': Pool<S>, more: multiset<S>, t: S)
    requires Gathered(sp, redundant, early, seen, pool, ts, seen', pool', more) && PoolOk(pool')
    requires Reached(sp, t) && !redundant(seen', t) && (early ==> !sp.goal(t))
    ensures Gathered(sp, redundant, early, seen, pool, ts + [t], seen' + {t},
                     Pool(pool'.states + [t], pool'.expanded + [false]), more + multiset{t})
  {
    var (now, all) := (seen' + {t}, more + multiset{t});
    hide SafePruning, Fresh, AllPending, PoolGrows, Handled;
    SnocMore(ts, t, more, all);
    PoolAdd(pool, pool', t);
    PendingAdd(pool', t);
    FreshOn(redundant, seen, seen', more, t);
    forall x | x in ts + [t] ensures Handled(sp, now, all, x) {
      if x in ts {
        HandledStays(sp, seen', more, now, all, x);
      } else {
        NewHandled(sp, now, all, x);
      }
    }
    assert AllPending(pool) + more + multiset{t} == AllPending(pool) + all;
  }

  lemma NewHandled<S(!new)>(sp: Space<S>, seen: set<S>, more: multiset<S>, t: S)
    requires t in more
    ensures Handled(sp, seen, more, t)
  {
  }

  /** The successors that are new enter the pool. */
  method Generate<S(==, !new)>(
    sp: Space<S>, redundant: (set<S>, S) -> bool, early: bool, s: S, seen: set<S>, pool: Pool<S>)
    returns (found: Option<S>, seen': set<S>, pool': Pool<S>, ghost more: multiset<S>)
    requires SafePruning(sp, redundant) && AllReached(sp, seen) && s in seen && PoolOk(pool)
    requires forall c | 0 <= c < |pool.states| :: pool.states[c] in seen && (early ==> !sp.goal(pool.states[c]))
    ensures found.Some? ==> Reached(sp, found.value) && sp.goal(found.value)
    ensures found.None? ==> Gathered(sp, redundant, early, seen, pool, sp.succ(s), seen', pool', more)
  {
    found, seen', pool', more := None, seen, pool, multiset{};
    var ts := sp.succ(s);
    assert ts[..|ts|] == ts;
    GatheredNone(sp, redundant, early, seen, pool);
    hide Gathered, SafePruning;
    for i := 0 to |ts|
      invariant PoolOk(pool') && Gathered(sp, redundant, early, seen, pool, ts[..i], seen', pool', more)
    {
      var t := ts[i];
      assert ts[..i + 1] == ts[..i] + [t];
      assert t in sp.succ(s);
      SuccessorReached(sp, s, t);
      if early && sp.goal(t) {
        return Some(t), seen', pool', more;
      }
      if redundant(seen', t) {
        GatheredOld(sp, redundant, early, seen, pool, ts[..i], seen', pool', more, t);
      } else {
        GatheredNew(sp, redundant, early, seen, pool, ts[..i], seen', pool', more, t);
        pool' := Pool(pool'.states + [t], pool'.expanded + [false]);
        seen', more := seen' + {t}, more + multiset{t};
      }
    }
  }

  /** The states from number `from` on, evaluated by one heuristic. */
  method PushAll<S(==, !new)>(pool: Pool<S>, from: nat, queue: multiset<nat>, h: S -> Option<real>)
    returns (queue': multiset<nat>)
    requires PoolOk(pool) && from <= |pool.states| && forall c | c in queue :: c < |pool.states|
    requires forall c: nat | c < from && !pool.expanded[c] :: c in queue || h(pool.states[c]).None?
    ensures Complete(pool, queue', h)
  {
    queue' := queue;
    for c := from to |pool.states|
      invariant forall k | k in queue' :: k < |pool.states|
      invariant forall k: nat | k < c && !pool.expanded[k] :: k in queue' || h(pool.states[k]).None?
    {
      if h(pool.states[c]).Some? {
        queue' := queue' + multiset{c};
      }
    }
  }

  // One expansion: of state number `c`, popped from queue `i`.
  method ExpandMany<S(==, !new)>(
    sp: Space<S>, hs: seq<S -> Option<real>>, redundant: (set<S>, S) -> bool, early: bool, c: nat, seen: set<S>,
    pool: Pool<S>, queues: seq<multiset<nat>>, i: nat, ghost taken: seq<S>)
    returns (found: Option<S>, seen': set<S>, pool': Pool<S>, queues': seq<multiset<nat>>)
    requires SafePruning(sp, redundant) && PoolOk(pool) && AllComplete(pool, queues, hs) && i < |queues|
    requires c < |pool.states| && !pool.expanded[c] && c in queues[i] && !sp.goal(pool.states[c])
    requires Searching(sp, redundant, early, seen, pool, taken)
    ensures found.Some? ==> Reached(sp, found.value) && sp.goal(found.value)
    ensures found.None? ==> PoolOk(pool') && AllComplete(pool', queues', hs)
    ensures found.None? ==> Searching(sp, redundant, early, seen', pool', taken + [pool.states[c]])
  {
    var s := pool.states[c];
    var marked := Pool(pool.states, pool.expanded[c := true]);
    queues' := queues[i := queues[i] - multiset{c}];
    MarkKeepsComplete(pool, queues, hs, i, c);
    PendingMark(pool, marked, c, |pool.states|);
    ghost var more;
    assert s in seen && AllReached(sp, seen);
    found, seen', pool', more := Generate(sp, redundant, early, s, seen, marked);
    if found.Some? {
      return;
    }
    assert PoolGrows(marked, pool');
    ExpandSearching(sp, redundant, early, c, seen, pool, taken, seen', pool', more);
    hide Pending, Gathered, SafePruning, Searching;
    queues' := PushInto(pool', |pool.states|, marked, queues', hs);
  }

  lemma ExpandSearching<S(!new)>(
    sp: Space<S>, redundant: (set<S>, S) -> bool, early: bool, c: nat, seen: set<S>, pool: Pool<S>, taken: seq<S>,
    seen': set<S>, pool': Pool<S>, more: multiset<S>)
    requires Searching(sp, redundant, early, seen, pool, taken) && PoolOk(pool)
    requires c < |pool.states| && !pool.expanded[c] && !sp.goal(pool.states[c])
    requires Gathered(sp, redundant, early, seen, Pool(pool.states, pool.expanded[c := true]),
                      sp.succ(pool.states[c]), seen', pool', more)
    ensures Searching(sp, redundant, early, seen', pool', taken + [pool.states[c]])
  {
    var s := pool.states[c];
    PendingMark(pool, Pool(pool.states, pool.expanded[c := true]), c, |pool.states|);
    hide Pending, Handled, Promising, SafePruning, Fresh, Takes, Unrepeated, Generated;
    ExpandKeeps(sp, seen, AllPending(pool), s, seen', more);
    TakeOne(sp, taken, AllPending(pool), s, more);
    UnrepeatedOn(redundant, seen, taken, AllPending(pool), s, seen', more);
  }

  // The new states enter every queue.
  method PushInto<S(==, !new)>(
    pool: Pool<S>, from: nat, ghost before: Pool<S>, queues: seq<multiset<nat>>, hs: seq<S -> Option<real>>)
    returns (queues': seq<multiset<nat>>)
    requires from == |before.states| && PoolGrows(before, pool) && AllComplete(before, queues, hs)
    ensures AllComplete(pool, queues', hs)
  {
    queues' := queues;
    for i := 0 to |hs|
      invariant |queues'| == |hs| && forall j | i <= j < |hs| :: queues'[j] == queues[j]
      invariant forall j | 0 <= j < i :: Complete(pool, queues'[j], hs[j])
    {
      assert Complete(before, queues[i], hs[i]);
      CompleteBefore(before, pool, queues[i], hs[i]);
      var queue := PushAll(pool, from, queues'[i], hs[i]);
      queues' := queues'[i := queue];
    }
  }

  lemma CompleteBefore<S(!new)>(before: Pool<S>, pool: Pool<S>, queue: multiset<nat>, h: S -> Option<real>)
    requires PoolGrows(before, pool) && Complete(before, queue, h)
    ensures forall c | c in queue :: c < |pool.states|
    ensures forall c: nat | c < |before.states| && !pool.expanded[c] :: c in queue || h(pool.states[c]).None?
  {
    forall c: nat | c < |before.states| ensures pool.states[c] == before.states[c] && pool.expanded[c] == before.expanded[c] {
      assert pool.states[..|before.states|][c] == pool.states[c];
      assert pool.expanded[..|before.states|][c] == pool.expanded[c];
    }
  }

  lemma MarkKeepsComplete<S(!new)>(
    pool: Pool<S>, queues: seq<multiset<nat>>, hs: seq<S -> Option<real>>, i: nat, c: nat)
    requires PoolOk(pool) && AllComplete(pool, queues, hs) && i < |queues| && c < |pool.states|
    ensures AllComplete(Pool(pool.states, pool.expanded[c := true]), queues[i := queues[i] - multiset{c}], hs)
  {
    var marked := Pool(pool.states, pool.expanded[c := true]);
    forall j | 0 <= j < |hs| ensures Complete(marked, queues[i := queues[i] - multiset{c}][j], hs[j]) {
      assert Complete(pool, queues[j], hs[j]);
    }
  }
}
