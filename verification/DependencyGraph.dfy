/** The dependency graph of a run: walks, descendants, cycles, and the two worklist searches. */
module DependencyGraph {
  import opened Basics
  import opened SubTasks

  function Last<T>(p: seq<T>): T
    requires p != []
  {
    p[|p| - 1]
  }

  /** `a` depends directly on `b`. */
  ghost predicate Edge(subs: seq<Sub>, a: nat, b: nat) {
    a < |subs| && b in subs[a].deps
  }

  /** A walk goes from a subtask towards what it depends on. */
  ghost predicate Walk(subs: seq<Sub>, p: seq<nat>) {
    p != [] && forall j, k {:trigger p[j], p[k]} :: 0 <= j < |p| - 1 && k == j + 1 ==> Edge(subs, p[j], p[k])
  }

  /** `p` shows that `a` depends on `b` through one or more edges. */
  ghost predicate Connects(subs: seq<Sub>, a: nat, b: nat, p: seq<nat>) {
    |p| >= 2 && Walk(subs, p) && p[0] == a && Last(p) == b
  }

  ghost predicate DependsOn(subs: seq<Sub>, a: nat, b: nat) {
    exists p :: Connects(subs, a, b, p)
  }

  ghost function Below(n: nat): (s: set<nat>)
    ensures |s| == n && forall c: nat :: c in s <==> c < n
  {
    if n == 0 then {} else Below(n - 1) + {n - 1}
  }

  ghost function Descendants(subs: seq<Sub>, source: nat): set<nat> {
    set c: nat | c < |subs| && DependsOn(subs, c, source)
  }

  // ---------------------------------------------------------------- walks

  lemma EdgeConnects(subs: seq<Sub>, a: nat, b: nat)
    requires Edge(subs, a, b)
    ensures DependsOn(subs, a, b)
  {
    assert Connects(subs, a, b, [a, b]);
  }

  lemma StepConnects(subs: seq<Sub>, a: nat, b: nat, c: nat)
    requires Edge(subs, a, b) && DependsOn(subs, b, c)
    ensures DependsOn(subs, a, c)
  {
    var p :| Connects(subs, b, c, p);
    var q := [a] + p;
    forall k | 0 <= k < |q| - 1
      ensures Edge(subs, q[k], q[k + 1])
    {
      if k > 0 { assert Edge(subs, p[k - 1], p[k]); }
    }
    assert Connects(subs, a, c, q);
  }

  /** A connection either is one edge or starts with one. */
  lemma FirstStep(subs: seq<Sub>, a: nat, c: nat) returns (b: nat)
    requires DependsOn(subs, a, c)
    ensures Edge(subs, a, b) && (b == c || DependsOn(subs, b, c))
  {
    var p :| Connects(subs, a, c, p);
    b := p[1];
    assert Edge(subs, p[0], p[1]);
    if |p| > 2 {
      var q := p[1..];
      forall k | 0 <= k < |q| - 1
        ensures Edge(subs, q[k], q[k + 1])
      {
        assert Edge(subs, p[k + 1], p[k + 2]);
      }
      assert Connects(subs, b, c, q);
    }
  }

  // ---------------------------------------------------------------- cycles

  /** Every member of `c` depends on a member of `c`. */
  ghost predicate Stuck(subs: seq<Sub>, c: set<nat>) {
    c != {} && forall i {:trigger DependsInto(subs, i, c)} :: i in c ==> DependsInto(subs, i, c)
  }

  ghost predicate DependsInto(subs: seq<Sub>, i: nat, c: set<nat>) {
    i < |subs| && exists d :: d in subs[i].deps && d in c
  }

  ghost predicate Acyclic(subs: seq<Sub>) {
    !exists c: set<nat> :: Stuck(subs, c)
  }

  /** `Acyclic` says that no subtask depends on itself, directly or not. */
  lemma AcyclicMeansNoCycle(subs: seq<Sub>)
    ensures Acyclic(subs) <==> forall a: nat :: !DependsOn(subs, a, a)
  {
    if a: nat :| DependsOn(subs, a, a) {
      var p :| Connects(subs, a, a, p);
      CycleIsStuck(subs, p);
    }
    if c: set<nat> :| Stuck(subs, c) {
      var a := StuckHasCycle(subs, c);
    }
  }

  lemma CycleIsStuck(subs: seq<Sub>, p: seq<nat>)
    requires |p| >= 2 && Walk(subs, p) && p[0] == Last(p)
    ensures !Acyclic(subs)
  {
    var c := set x | x in p;
    forall i | i in c
      ensures DependsInto(subs, i, c)
    {
      var k :| 0 <= k < |p| && p[k] == i;
      var k' := if k == |p| - 1 then 0 else k;
      assert Edge(subs, p[k'], p[k' + 1]);
      assert p[k' + 1] in c;
    }
    assert p[0] in c;
    assert Stuck(subs, c);
  }

  /** Walking inside a stuck set must revisit some member. */
  lemma StuckHasCycle(subs: seq<Sub>, c: set<nat>) returns (a: nat)
    requires Stuck(subs, c)
    ensures DependsOn(subs, a, a)
  {
    var i :| i in c;
    var p := StuckWalk(subs, c, i, |c| + 1);
    var x, y := Pigeonhole(p, c);
    a := p[x];
    assert Connects(subs, a, a, p[x..y + 1]);
  }

  lemma StuckWalk(subs: seq<Sub>, c: set<nat>, i: nat, n: nat) returns (p: seq<nat>)
    requires Stuck(subs, c) && i in c && n >= 1
    ensures |p| == n && Walk(subs, p) && forall k :: 0 <= k < n ==> p[k] in c
  {
    if n == 1 {
      p := [i];
    } else {
      p := StuckWalk(subs, c, i, n - 1);
      assert DependsInto(subs, Last(p), c);
      var d :| d in subs[Last(p)].deps && d in c;
      p := p + [d];
    }
  }

  lemma Pigeonhole(p: seq<nat>, c: set<nat>) returns (x: nat, y: nat)
    requires |p| > |c| && forall k :: 0 <= k < |p| ==> p[k] in c
    ensures x < y < |p| && p[x] == p[y]
  {
    var q := p[..|p| - 1];
    if k :| 0 <= k < |q| && q[k] == Last(p) {
      x, y := k, |q|;
    } else {
      x, y := Pigeonhole(q, c - {Last(p)});
    }
  }

  // ---------------------------------------------------------------- descendants

  /** Collects everything that depends on `source`, on any graph. */
  method CollectDescendants(subs: seq<Sub>, source: nat) returns (descendants: set<nat>)
    ensures descendants == Descendants(subs, source)
  {
    hide DependsOn;
    descendants := {};
    var pending := [source];
    ghost var done: set<nat> := {};
    ghost var all := Below(|subs|);
    while pending != []
      invariant descendants <= Descendants(subs, source) <= all
      invariant forall p: nat :: p in pending ==> p == source || p in descendants
      invariant forall p: nat :: p == source || p in descendants ==> p in done || p in pending
      invariant forall c: nat, d: nat :: d in done && Edge(subs, c, d) ==> c in descendants
      decreases all - descendants, |pending|
    {
      var current: nat := pending[0];
      ghost var before := descendants;
      pending := pending[1..];
      ghost var rest := pending;
      for c: nat := 0 to |subs|
        invariant before <= descendants <= Descendants(subs, source)
        invariant current == source || current in before
        invariant before == descendants ==> pending == rest
        invariant forall p: nat :: p in pending ==> p == source || p in descendants
        invariant forall p: nat :: p in rest ==> p in pending
        invariant forall p: nat :: p in descendants ==> p in before || p in pending
        invariant forall k: nat :: k < c && Edge(subs, k, current) ==> k in descendants
      {
        if current in subs[c].deps && c !in descendants {
          if current == source {
            EdgeConnects(subs, c, source);
          } else {
            StepConnects(subs, c, current, source);
          }
          descendants := descendants + {c};
          pending := pending + [c];
        }
      }
      done := done + {current};
      assert before < descendants || pending == rest;
    }
    forall c | c in Descendants(subs, source)
      ensures c in descendants
    {
      ReachedByClosure(subs, source, descendants, c);
    }
  }

  /** A set closed under "depends on" contains every descendant. */
  lemma ReachedByClosure(subs: seq<Sub>, source: nat, s: set<nat>, c: nat)
    requires forall a: nat, b :: (b == source || b in s) && Edge(subs, a, b) ==> a in s
    requires DependsOn(subs, c, source)
    ensures c in s
  {
    var p :| Connects(subs, c, source, p);
    var k := |p| - 1;
    while k > 0
      invariant 0 <= k < |p| && (k < |p| - 1 ==> p[k] in s)
    {
      assert Edge(subs, p[k - 1], p[k]);
      k := k - 1;
    }
  }

  // ---------------------------------------------------------------- rework target

  /** `p` leads from `start` to a subtask whose work can be sent back. */
  ghost predicate TargetWalk(subs: seq<Sub>, start: nat, p: seq<nat>) {
    |p| >= 2 && Walk(subs, p) && p[0] == start && Last(p) < |subs| && subs[Last(p)].role.Produces()
  }

  /** The target is a producing ancestor at the least dependency distance; there is none only if
      no producing ancestor can be reached. */
  ghost predicate NearestTarget(subs: seq<Sub>, start: nat, target: Option<nat>) {
    match target
    case None => forall q: seq<nat> :: !TargetWalk(subs, start, q)
    case Some(t) =>
      exists p: seq<nat> :: TargetWalk(subs, start, p) && Last(p) == t &&
        forall q: seq<nat> :: TargetWalk(subs, start, q) ==> |p| <= |q|
  }

  function Front<T>(p: seq<T>): seq<T>
    requires p != []
  {
    p[..|p| - 1]
  }

  /** Where one gets to from `start` by following the listed dependencies at the positions `w`. */
  ghost function Along(subs: seq<Sub>, start: nat, w: seq<nat>): Option<nat>
    decreases |w|
  {
    if w == [] then Some(start) else Next(subs, Along(subs, start, Front(w)), Last(w))
  }

  ghost function Next(subs: seq<Sub>, c: Option<nat>, j: nat): Option<nat> {
    if c.Some? && c.value < |subs| && j < |subs[c.value].deps| then Some(subs[c.value].deps[j]) else None
  }

  ghost predicate Hits(subs: seq<Sub>, start: nat, w: seq<nat>) {
    w != [] && Along(subs, start, w).Some? &&
    var t := Along(subs, start, w).value;
    t < |subs| && subs[t].role.Produces()
  }

  /** Shorter ways come first; those of one length in the order in which dependencies are listed. */
  ghost predicate Earlier(v: seq<nat>, w: seq<nat>)
    decreases |v|
  {
    |v| < |w| ||
    (|v| == |w| && v != [] && (Earlier(Front(v), Front(w)) || (Front(v) == Front(w) && Last(v) < Last(w))))
  }

  ghost predicate NotLater(v: seq<nat>, w: seq<nat>) {
    v == w || Earlier(v, w)
  }

  /** The target is the producing ancestor at the end of the earliest of all ways to one; there is none
      only if no way leads to one. */
  ghost predicate FirstTarget(subs: seq<Sub>, start: nat, target: Option<nat>) {
    match target
    case None => forall w: seq<nat> :: !Hits(subs, start, w)
    case Some(t) =>
      exists w: seq<nat> :: Hits(subs, start, w) && Along(subs, start, w) == Some(t) &&
        forall v: seq<nat> :: Hits(subs, start, v) ==> NotLater(w, v)
  }

  // ---------------------------------------------------------------- ways in order

  lemma {:induction false} EarlierIsStrict(v: seq<nat>, w: seq<nat>)
    ensures !(Earlier(v, w) && NotLater(w, v))
    decreases |v|
  {
    if |v| == |w| && v != [] {
      EarlierIsStrict(Front(v), Front(w));
      EarlierIsStrict(Front(w), Front(v));
    }
  }

  lemma {:induction false} EarlierThen(u: seq<nat>, v: seq<nat>, w: seq<nat>)
    requires NotLater(u, v) && NotLater(v, w)
    ensures NotLater(u, w) && (Earlier(u, v) || Earlier(v, w) ==> Earlier(u, w))
    decreases |u|
  {
    if |u| == |v| == |w| && u != v && v != w {
      EarlierThen(Front(u), Front(v), Front(w));
    }
  }

  /** One more step keeps the order, and takes a way past all that its beginning was earlier than. */
  lemma EarlierExtended(v: seq<nat>, w: seq<nat>, x: nat, y: nat)
    requires Earlier(v, w)
    ensures Earlier(v + [x], w + [y])
  {
    assert Front(v + [x]) == v && Front(w + [y]) == w;
  }

  lemma NextIsLater(w: seq<nat>, x: nat, y: nat)
    requires x < y
    ensures Earlier(w + [x], w + [y])
  {
    assert Front(w + [x]) == w && Front(w + [y]) == w;
  }

  lemma AlongOneMore(subs: seq<Sub>, start: nat, w: seq<nat>, j: nat)
    ensures Along(subs, start, w + [j]) == Next(subs, Along(subs, start, w), j)
  {
    assert Front(w + [j]) == w;
  }

  // ---------------------------------------------------------------- ways and walks

  lemma {:induction false} WayIsWalk(subs: seq<Sub>, start: nat, w: seq<nat>) returns (p: seq<nat>)
    requires Along(subs, start, w).Some?
    ensures |p| == |w| + 1 && Walk(subs, p) && p[0] == start && Last(p) == Along(subs, start, w).value
    decreases |w|
  {
    if w == [] {
      p := [start];
    } else {
      var front := WayIsWalk(subs, start, Front(w));
      p := front + [Along(subs, start, w).value];
      assert Edge(subs, Last(front), Last(p));
    }
  }

  lemma {:induction false} WalkIsWay(subs: seq<Sub>, p: seq<nat>) returns (w: seq<nat>)
    requires Walk(subs, p)
    ensures |w| == |p| - 1 && Along(subs, p[0], w) == Some(Last(p))
    decreases |p|
  {
    if |p| == 1 {
      w := [];
    } else {
      var front := Front(p);
      forall j, k | 0 <= j < |front| - 1 && k == j + 1
        ensures Edge(subs, front[j], front[k])
      {
        assert Edge(subs, p[j], p[k]);
      }
      var v := WalkIsWay(subs, front);
      assert Edge(subs, p[|p| - 2], p[|p| - 1]);
      var j :| 0 <= j < |subs[Last(front)].deps| && subs[Last(front)].deps[j] == Last(p);
      w := v + [j];
      AlongOneMore(subs, p[0], v, j);
    }
  }

  lemma TargetHasWay(subs: seq<Sub>, start: nat, q: seq<nat>) returns (v: seq<nat>)
    requires TargetWalk(subs, start, q)
    ensures Hits(subs, start, v) && |v| == |q| - 1
  {
    v := WalkIsWay(subs, q);
  }

  /** The first target is a nearest one. */
  lemma FirstIsNearest(subs: seq<Sub>, start: nat, target: Option<nat>)
    requires FirstTarget(subs, start, target)
    ensures NearestTarget(subs, start, target)
  {
    hide Along, Walk, Earlier;
    if target.None? {
      forall q: seq<nat> | TargetWalk(subs, start, q)
        ensures false
      {
        var v := TargetHasWay(subs, start, q);
      }
    } else {
      var w: seq<nat> :| Hits(subs, start, w) && Along(subs, start, w) == target && forall v: seq<nat> ::
        Hits(subs, start, v) ==>
        NotLater(w, v);
      var p := WayIsWalk(subs, start, w);
      forall q: seq<nat> | TargetWalk(subs, start, q)
        ensures |p| <= |q|
      {
        var v := TargetHasWay(subs, start, q);
        EarlierIsShorter(w, v);
      }
      assert TargetWalk(subs, start, p);
    }
  }

  lemma EarlierIsShorter(v: seq<nat>, w: seq<nat>)
    requires NotLater(v, w)
    ensures |v| <= |w|
  {
  }

  /** There is only one first target, so a review leaves no choice. */
  lemma FirstTargetIsUnique(subs: seq<Sub>, start: nat, t: Option<nat>, t': Option<nat>)
    requires FirstTarget(subs, start, t) && FirstTarget(subs, start, t')
    ensures t == t'
  {
    if t.Some? && t'.Some? {
      var w: seq<nat> :| Hits(subs, start, w) && Along(subs, start, w) == t && forall v: seq<nat> ::
        Hits(subs, start, v) ==> NotLater(w, v);
      var w' :| Hits(subs, start, w') && Along(subs, start, w') == t' && forall v: seq<nat> :: Hits(subs, start, v) ==>
        NotLater(w', v);
      EarlierIsStrict(w, w');
    }
  }

  /** If some listed dependency produces, the first such one is sent back. */
  lemma FirstListedIsSentBack(subs: seq<Sub>, start: nat, target: Option<nat>, j: nat)
    requires FirstTarget(subs, start, target) && start < |subs| && j < |subs[start].deps|
    requires var deps := subs[start].deps;
      && deps[j] < |subs| && subs[deps[j]].role.Produces()
      && forall k :: 0 <= k < j && deps[k] < |subs| ==> !subs[deps[k]].role.Produces()
    ensures target == Some(subs[start].deps[j])
  {
    var deps := subs[start].deps;
    forall k: nat | k < |deps|
      ensures Along(subs, start, [k]) == Some(deps[k])
    {
      assert [k] == [] + [k] && Along(subs, start, []) == Some(start);
      AlongOneMore(subs, start, [], k);
    }
    assert Hits(subs, start, [j]);
    var w: seq<nat> :| Hits(subs, start, w) && Along(subs, start, w) == target && forall v: seq<nat> ::
      Hits(subs, start, v) ==> NotLater(w, v);
    assert |w| == 1 && w == [w[0]] && Front(w) == Front([j]) == [] && !Earlier([], []);
    assert NotLater(w, [j]) && w[0] <= j;
    assert Along(subs, start, w) == Next(subs, Along(subs, start, []), w[0]);
  }

  // ---------------------------------------------------------------- the search

  /** `ways[k]` leads to `pending[k]`; the ways stand in order, each one step longer at most than what
      has been looked at so far. */
  ghost predicate Queue(subs: seq<Sub>, start: nat, pending: seq<nat>, ways: seq<seq<nat>>) {
    && |ways| == |pending|
    && (forall k :: 0 <= k < |ways| ==> ways[k] != [] && Along(subs, start, ways[k]) == Some(pending[k]))
    && (forall j, k :: 0 <= j < k < |ways| ==> Earlier(ways[j], ways[k]))
    && (forall k :: 0 <= k < |ways| ==> Earlier(Front(ways[k]), ways[0]))
  }

  /** `d` has been visited, or is waiting, by a way that is not later than `w`. */
  ghost predicate Met(pending: seq<nat>, ways: seq<seq<nat>>, found: map<nat, seq<nat>>, d: nat, w: seq<nat>)
    requires |ways| == |pending|
  {
    (d in found && NotLater(found[d], w)) || exists k :: 0 <= k < |pending| && pending[k] == d && NotLater(ways[k], w)
  }

  /** `found` gives the way by which each identifier was visited; nothing that a visited subtask lists
      has been forgotten. */
  ghost predicate Explored(subs: seq<Sub>, start: nat, pending: seq<nat>, ways: seq<seq<nat>>,
      found: map<nat, seq<nat>>)
    requires |ways| == |pending|
  {
    && (forall v: nat :: v in found && v < |subs| ==> !subs[v].role.Produces())
    && (forall v: nat :: v in found && pending != [] ==> Earlier(found[v], ways[0]))
    && (start < |subs| ==> ListMet(pending, ways, found, subs[start].deps, []))
    && (forall v: nat :: v in found && v < |subs| ==> ListMet(pending, ways, found, subs[v].deps, found[v]))
  }

  ghost predicate ListMet(pending: seq<nat>, ways: seq<seq<nat>>, found: map<nat, seq<nat>>, deps: seq<nat>,
      w: seq<nat>)
    requires |ways| == |pending|
  {
    forall j :: 0 <= j < |deps| ==> Met(pending, ways, found, deps[j], w + [j])
  }

  /** No way to a target is earlier than the front of the queue; if the queue is empty there is none. */
  lemma FrontIsFirst(subs: seq<Sub>, start: nat, pending: seq<nat>, ways: seq<seq<nat>>, found: map<nat, seq<nat>>,
      q: seq<nat>)
    requires start < |subs| && Queue(subs, start, pending, ways) && Explored(subs, start, pending, ways, found)
    requires Hits(subs, start, q)
    ensures pending != [] && NotLater(ways[0], q)
  {
    assert |ways| == |pending|;
    hide Queue, Explored, Along, Earlier;
    AheadOrFound(subs, start, pending, ways, found, q);
    FoundIsNoTarget(subs, start, pending, ways, found, Along(subs, start, q).value);
  }

  lemma FoundIsNoTarget(subs: seq<Sub>, start: nat, pending: seq<nat>, ways: seq<seq<nat>>,
      found: map<nat, seq<nat>>, v: nat)
    requires |ways| == |pending| && Explored(subs, start, pending, ways, found) && v < |subs| && subs[v].role.Produces()
    ensures v !in found
  {
  }

  /** The front of the queue is not later than `v`, or where `v` leads has been visited. */
  lemma {:induction false} AheadOrFound(subs: seq<Sub>, start: nat, pending: seq<nat>, ways: seq<seq<nat>>,
      found: map<nat, seq<nat>>, v: seq<nat>)
    requires start < |subs| && Queue(subs, start, pending, ways) && Explored(subs, start, pending, ways, found)
    requires v != [] && Along(subs, start, v).Some?
    ensures (pending != [] && NotLater(ways[0], v)) ||
      (var d := Along(subs, start, v).value; d in found && NotLater(found[d], v))
    decreases |v|
  {
    var before, x := Front(v), Last(v);
    assert v == before + [x];
    var c := Along(subs, start, before).value;
    if before == [] {
      StartIsListed(subs, start, pending, ways, found);
      hide Queue, Explored, ListMet, Met, NotLater;
      OneStepMet(subs, start, pending, ways, found, subs[start].deps, [], before, x);
    } else {
      AheadOrFound(subs, start, pending, ways, found, before);
      if pending != [] && NotLater(ways[0], before) {
        EarlierThen(ways[0], before, v);
      } else {
        FoundIsListed(subs, start, pending, ways, found, c);
        hide Queue, Explored, ListMet, Met, NotLater;
        OneStepMet(subs, start, pending, ways, found, subs[c].deps, found[c], before, x);
      }
    }
  }

  lemma StartIsListed(subs: seq<Sub>, start: nat, pending: seq<nat>, ways: seq<seq<nat>>, found: map<nat, seq<nat>>)
    requires start < |subs| && |ways| == |pending| && Explored(subs, start, pending, ways, found)
    ensures ListMet(pending, ways, found, subs[start].deps, []) && NotLater([], [])
  {
  }

  lemma FoundIsListed(subs: seq<Sub>, start: nat, pending: seq<nat>, ways: seq<seq<nat>>, found: map<nat, seq<nat>>,
      c: nat)
    requires c < |subs| && |ways| == |pending| && Explored(subs, start, pending, ways, found) && c in found
    ensures ListMet(pending, ways, found, subs[c].deps, found[c])
  {
  }

  lemma OneStepMet(subs: seq<Sub>, start: nat, pending: seq<nat>, ways: seq<seq<nat>>, found: map<nat, seq<nat>>,
      deps: seq<nat>, w: seq<nat>, before: seq<nat>, x: nat)
    requires Queue(subs, start, pending, ways) && ListMet(pending, ways, found, deps, w) && x < |deps|
    requires NotLater(w, before)
    ensures (pending != [] && NotLater(ways[0], before + [x])) ||
      (deps[x] in found && NotLater(found[deps[x]], before + [x]))
  {
    assert Met(pending, ways, found, deps[x], w + [x]);
    hide ListMet, Along, Earlier;
    if w != before { EarlierExtended(w, before, x, x); }
    if deps[x] in found && NotLater(found[deps[x]], w + [x]) {
      EarlierThen(found[deps[x]], w + [x], before + [x]);
    } else {
      var k :| 0 <= k < |pending| && pending[k] == deps[x] && NotLater(ways[k], w + [x]);
      EarlierThen(ways[k], w + [x], before + [x]);
      EarlierThen(ways[0], ways[k], before + [x]);
    }
  }

  /** Breadth-first search from a reviewer for the subtask to send back. */
  method FindReworkTarget(subs: seq<Sub>, start: nat) returns (target: Option<nat>)
    requires start < |subs|
    ensures FirstTarget(subs, start, target)
  {
    hide Along, Explored, FirstTarget, Queue;
    var pending := subs[start].deps;
    var visited: set<nat> := {};
    ghost var found: map<nat, seq<nat>> := map[];
    ghost var ways: seq<seq<nat>> := WaysOn([], |pending|);
    ghost var known: set<nat> := set a: nat, d: nat | a < |subs| && d in subs[a].deps :: d;
    SearchStarts(subs, start);
    while pending != []
      invariant visited == found.Keys && visited <= known && |ways| == |pending|
      invariant forall d: nat :: d in pending ==> d in known
      invariant Queue(subs, start, pending, ways) && Explored(subs, start, pending, ways, found)
      decreases known - visited, |pending|
    {
      var current := pending[0];
      if current in visited {
        SkipKeeps(subs, start, pending, ways, found);
        pending, ways := pending[1..], ways[1..];
      } else if current < |subs| && subs[current].role.Produces() {
        FrontIsTarget(subs, start, pending, ways, found);
        return Some(current);
      } else {
        var next := if current < |subs| then subs[current].deps else [];
        VisitKeepsQueue(subs, start, pending, ways, next);
        VisitKeepsExplored(subs, start, pending, ways, found, next);
        visited, found := visited + {current}, found[current := ways[0]];
        pending, ways := pending[1..] + next, ways[1..] + WaysOn(ways[0], |next|);
      }
    }
    NothingFound(subs, start, ways, found);
    return None;
  }

  /** The ways to the first `n` dependencies of where `w` leads. */
  ghost function WaysOn(w: seq<nat>, n: nat): seq<seq<nat>> {
    seq(n, j requires 0 <= j < n => w + [j])
  }

  lemma NothingFound(subs: seq<Sub>, start: nat, ways: seq<seq<nat>>, found: map<nat, seq<nat>>)
    requires start < |subs| && Queue(subs, start, [], ways) && Explored(subs, start, [], ways, found)
    ensures FirstTarget(subs, start, None)
  {
    hide Queue, Explored, Hits;
    forall q: seq<nat> | Hits(subs, start, q)
      ensures false
    {
      FrontIsFirst(subs, start, [], ways, found, q);
    }
  }

  lemma SearchStarts(subs: seq<Sub>, start: nat)
    requires start < |subs|
    ensures var pending := subs[start].deps;
      var ways := WaysOn([], |pending|);
      Queue(subs, start, pending, ways) && Explored(subs, start, pending, ways, map[])
  {
    var pending := subs[start].deps;
    var ways := WaysOn([], |pending|);
    assert forall k :: 0 <= k < |ways| ==> ways[k] == [] + [k];
    forall k: nat | k < |ways|
      ensures Along(subs, start, ways[k]) == Some(pending[k]) && Earlier(Front(ways[k]), ways[0])
      ensures Met(pending, ways, map[], pending[k], [] + [k])
    {
      AlongOneMore(subs, start, [], k);
    }
    forall j: nat, k: nat | j < k < |ways|
      ensures Earlier(ways[j], ways[k])
    {
      NextIsLater([], j, k);
    }
  }

  lemma FrontIsTarget(subs: seq<Sub>, start: nat, pending: seq<nat>, ways: seq<seq<nat>>, found: map<nat, seq<nat>>)
    requires start < |subs| && Queue(subs, start, pending, ways) && Explored(subs, start, pending, ways, found)
    requires pending != [] && pending[0] < |subs| && subs[pending[0]].role.Produces()
    ensures FirstTarget(subs, start, Some(pending[0]))
  {
    assert Hits(subs, start, ways[0]) && Along(subs, start, ways[0]) == Some(pending[0]);
    hide Queue, Explored, Along, Hits;
    forall q: seq<nat> | Hits(subs, start, q)
      ensures NotLater(ways[0], q)
    {
      FrontIsFirst(subs, start, pending, ways, found, q);
    }
  }

  lemma SkipKeeps(subs: seq<Sub>, start: nat, pending: seq<nat>, ways: seq<seq<nat>>, found: map<nat, seq<nat>>)
    requires Queue(subs, start, pending, ways) && Explored(subs, start, pending, ways, found)
    requires pending != [] && pending[0] in found
    ensures Queue(subs, start, pending[1..], ways[1..]) && Explored(subs, start, pending[1..], ways[1..], found)
  {
    RestIsQueue(subs, start, pending, ways);
    var pending', ways' := pending[1..], ways[1..];
    assert pending' + [] == pending' && ways' + [] == ways';
    forall v: nat | v in found && pending' != []
      ensures Earlier(found[v], ways'[0])
    {
      EarlierThen(found[v], ways[0], ways[1]);
    }
    hide Queue, ListMet, Earlier;
    if start < |subs| { ListStillMet(pending, ways, found, found, [], [], subs[start].deps, []); }
    forall v: nat | v in found && v < |subs|
      ensures ListMet(pending', ways', found, subs[v].deps, found[v])
    {
      ListStillMet(pending, ways, found, found, [], [], subs[v].deps, found[v]);
    }
  }

  lemma RestIsQueue(subs: seq<Sub>, start: nat, pending: seq<nat>, ways: seq<seq<nat>>)
    requires Queue(subs, start, pending, ways) && pending != []
    ensures Queue(subs, start, pending[1..], ways[1..])
  {
    hide Along, Earlier;
    forall k | 0 <= k < |ways[1..]|
      ensures Earlier(Front(ways[1..][k]), ways[1..][0])
    {
      EarlierThen(Front(ways[k + 1]), ways[0], ways[1]);
    }
  }

  /** What was met is still met once the front of the queue has been visited and more has been queued. */
  lemma StillMet(pending: seq<nat>, ways: seq<seq<nat>>, found: map<nat, seq<nat>>, found': map<nat, seq<nat>>,
      next: seq<nat>, more: seq<seq<nat>>, d: nat, w: seq<nat>)
    requires |ways| == |pending| && pending != [] && |more| == |next| && Met(pending, ways, found, d, w)
    requires pending[0] in found' && NotLater(found'[pending[0]], ways[0])
    requires forall v :: v in found ==> v in found' && found'[v] == found[v]
    ensures Met(pending[1..] + next, ways[1..] + more, found', d, w)
  {
    if !(d in found && NotLater(found[d], w)) {
      var k :| 0 <= k < |pending| && pending[k] == d && NotLater(ways[k], w);
      if k == 0 {
        EarlierThen(found'[d], ways[0], w);
      } else {
        hide NotLater;
        assert (pending[1..] + next)[k - 1] == d && (ways[1..] + more)[k - 1] == ways[k];
      }
    }
  }

  lemma ListStillMet(pending: seq<nat>, ways: seq<seq<nat>>, found: map<nat, seq<nat>>, found': map<nat, seq<nat>>,
      next: seq<nat>, more: seq<seq<nat>>, deps: seq<nat>, w: seq<nat>)
    requires |ways| == |pending| && pending != [] && |more| == |next| && ListMet(pending, ways, found, deps, w)
    requires pending[0] in found' && NotLater(found'[pending[0]], ways[0])
    requires forall v :: v in found ==> v in found' && found'[v] == found[v]
    ensures ListMet(pending[1..] + next, ways[1..] + more, found', deps, w)
  {
    forall j | 0 <= j < |deps|
      ensures Met(pending[1..] + next, ways[1..] + more, found', deps[j], w + [j])
    {
      StillMet(pending, ways, found, found', next, more, deps[j], w + [j]);
    }
  }

  lemma VisitKeepsQueue(subs: seq<Sub>, start: nat, pending: seq<nat>, ways: seq<seq<nat>>, next: seq<nat>)
    requires Queue(subs, start, pending, ways) && pending != []
    requires next == if pending[0] < |subs| then subs[pending[0]].deps else []
    ensures Queue(subs, start, pending[1..] + next, ways[1..] + WaysOn(ways[0], |next|))
  {
    var first, rest, more := ways[0], |pending| - 1, WaysOn(ways[0], |next|);
    var pending', ways' := pending[1..] + next, ways[1..] + more;
    assert forall k :: 0 <= k < rest ==> pending'[k] == pending[k + 1] && ways'[k] == ways[k + 1];
    assert forall k :: rest <= k < |ways'| ==> pending'[k] == next[k - rest] && ways'[k] == first + [k - rest];
    forall k | 0 <= k < |ways'|
      ensures ways'[k] != [] && Along(subs, start, ways'[k]) == Some(pending'[k])
    {
      if k >= rest { AlongOneMore(subs, start, first, k - rest); }
    }
    hide Along;
    forall j, k | 0 <= j < k < |ways'|
      ensures Earlier(ways'[j], ways'[k])
    {
      VisitKeepsOrder(subs, start, pending, ways, |next|, j, k);
    }
    forall k | 0 <= k < |ways'|
      ensures Earlier(Front(ways'[k]), ways'[0])
    {
      FrontMoves(subs, start, pending, ways, |next|);
      if k < rest {
        EarlierThen(Front(ways[k + 1]), first, ways'[0]);
      } else {
        assert Front(ways'[k]) == first;
      }
    }
  }

  lemma VisitKeepsOrder(subs: seq<Sub>, start: nat, pending: seq<nat>, ways: seq<seq<nat>>, n: nat, j: nat, k: nat)
    requires Queue(subs, start, pending, ways) && pending != [] && j < k < |pending| - 1 + n
    ensures var ways' := ways[1..] + WaysOn(ways[0], n);
      Earlier(ways'[j], ways'[k])
  {
    hide Along, Earlier;
    var rest := |pending| - 1;
    if k < rest {
      assert Earlier(ways[j + 1], ways[k + 1]);
    } else if j < rest {
      var w := ways[j + 1];
      assert w == Front(w) + [Last(w)];
      EarlierExtended(Front(w), ways[0], Last(w), k - rest);
    } else {
      NextIsLater(ways[0], j - rest, k - rest);
    }
  }

  /** What comes next is later than the front. */
  lemma FrontMoves(subs: seq<Sub>, start: nat, pending: seq<nat>, ways: seq<seq<nat>>, n: nat)
    requires Queue(subs, start, pending, ways) && pending != []
    ensures var ways' := ways[1..] + WaysOn(ways[0], n);
      ways' != [] ==> Earlier(ways[0], ways'[0])
  {
  }

  lemma VisitKeepsExplored(
    subs: seq<Sub>, start: nat, pending: seq<nat>, ways: seq<seq<nat>>, found: map<nat, seq<nat>>, next: seq<nat>)
    requires Queue(subs, start, pending, ways) && Explored(subs, start, pending, ways, found)
    requires pending != [] && pending[0] !in found
    requires pending[0] < |subs| ==> !subs[pending[0]].role.Produces()
    requires next == if pending[0] < |subs| then subs[pending[0]].deps else []
    ensures Explored(subs, start, pending[1..] + next, ways[1..] + WaysOn(ways[0], |next|),
      found[pending[0] := ways[0]])
  {
    var current, first, more := pending[0], ways[0], WaysOn(ways[0], |next|);
    var pending', ways', found' := pending[1..] + next, ways[1..] + more, found[current := first];
    FrontMoves(subs, start, pending, ways, |next|);
    hide Queue, ListMet, Earlier;
    forall v: nat | v in found' && pending' != []
      ensures Earlier(found'[v], ways'[0])
    {
      if v != current { EarlierThen(found[v], first, ways'[0]); }
    }
    if start < |subs| { ListStillMet(pending, ways, found, found', next, more, subs[start].deps, []); }
    forall v: nat | v in found' && v < |subs|
      ensures ListMet(pending', ways', found', subs[v].deps, found'[v])
    {
      if v == current {
        NextIsMet(pending, ways, found', next);
      } else {
        ListStillMet(pending, ways, found, found', next, more, subs[v].deps, found[v]);
      }
    }
  }

  lemma NextIsMet(pending: seq<nat>, ways: seq<seq<nat>>, found: map<nat, seq<nat>>, next: seq<nat>)
    requires |ways| == |pending| && pending != []
    ensures ListMet(pending[1..] + next, ways[1..] + WaysOn(ways[0], |next|), found, next, ways[0])
  {
    var pending', ways' := pending[1..] + next, ways[1..] + WaysOn(ways[0], |next|);
    forall j | 0 <= j < |next|
      ensures Met(pending', ways', found, next[j], ways[0] + [j])
    {
      assert pending'[|pending| - 1 + j] == next[j] && ways'[|pending| - 1 + j] == ways[0] + [j];
    }
  }
}
