/** What is true of a run's subtasks in every reachable state. */
module Invariant {
  import opened Basics
  import opened SubTasks
  import opened DependencyGraph
  import opened Protocol

  predicate Waiting(status: Status) {
    status == Queued || status == Cancelled
  }

  // ---------------------------------------------------------------- gating

  /** Every dependency lies in the run. */
  ghost predicate Closed(subs: seq<Sub>) {
    forall i, d :: 0 <= i < |subs| && d in subs[i].deps ==> d < |subs|
  }

  /** Whatever was handed out had all its dependencies succeeded. */
  ghost predicate Gated(subs: seq<Sub>) {
    forall i, d :: 0 <= i < |subs| && d in subs[i].deps && d < |subs| && !Waiting(subs[i].status) ==>
      subs[d].status == Succeeded
  }

  /** A success carries the result its role owes; nothing unfinished carries a result or a flag. */
  predicate Credible(sub: Sub) {
    && sub.status != Ready
    && (sub.status == Succeeded ==>
      && sub.result.Some?
      && sub.result.value.verificationPassed != Some(false)
      && (sub.role.Verifies() ==> sub.result.value.passed == Some(true))
      && (sub.role == Reviewer <==> sub.result.value.decision.Some?))
    && (sub.status != Succeeded && sub.status != Failed ==> sub.result == None && !sub.repaired && !sub.reworked)
  }

  ghost predicate AllCredible(subs: seq<Sub>) {
    forall i :: 0 <= i < |subs| ==> Credible(subs[i])
  }

  // ---------------------------------------------------------------- cancellation

  /** Nothing that depends on it will ever run. */
  predicate Dead(sub: Sub) {
    sub.status == Cancelled || sub.repaired
  }

  ghost predicate CancelClosed(subs: seq<Sub>) {
    forall i, d :: 0 <= i < |subs| && d in subs[i].deps && d < |subs| && Dead(subs[d]) ==> subs[i].status == Cancelled
  }

  predicate HasDeadDependency(subs: seq<Sub>, i: nat)
    requires i < |subs|
  {
    exists d | d in subs[i].deps :: d < |subs| && Dead(subs[d])
  }

  ghost predicate CancelCaused(subs: seq<Sub>) {
    forall i {:trigger HasDeadDependency(subs, i)} ::
      0 <= i < |subs| && subs[i].status == Cancelled ==> HasDeadDependency(subs, i)
  }

  // ---------------------------------------------------------------- chains

  /** `c`, `c + 1`, `c + 2` repair the failed subtask `f`. */
  ghost predicate RepairsFailure(cfg: Config, subs: seq<Sub>, c: nat, f: nat)
    requires c + 2 < |subs|
  {
    && f < c && subs[f].repaired && subs[f].status == Failed && cfg.repairEnabled && subs[f].role.Repairable()
    && subs[c].deps == subs[f].deps && subs[c].role == subs[f].role
    && subs[c].source == Some(f) && subs[c + 1].source == Some(f) && subs[c + 2].source == Some(f)
    && subs[c].reworkOf == None && subs[c + 1].reworkOf == None && subs[c + 2].reworkOf == None
    && subs[c].attempt == subs[f].attempt + 1 <= cfg.maxAttempts
  }

  /** `c`, `c + 1`, `c + 2` answer the rework decision of reviewer `r`, sending back some `t`. */
  ghost predicate AnswersRework(cfg: Config, subs: seq<Sub>, c: nat, r: nat)
    requires c + 2 < |subs|
  {
    && r < c && subs[r].reworked && ReworkDue(cfg, subs[r]) && subs[c].deps == [r]
    && subs[c].role.Produces() && subs[c].source == None && subs[c + 2].source == None
    && subs[c + 1].source.Some? && subs[c + 1].source.value < c
    && subs[subs[c + 1].source.value].status == Succeeded && subs[subs[c + 1].source.value].role == subs[c].role
    && subs[c].reworkOf == Some(r) && subs[c + 1].reworkOf == Some(r) && subs[c + 2].reworkOf == Some(r)
    && subs[c].attempt == subs[r].attempt + 1 <= cfg.maxAttempts
  }

  /** A chain occupies three consecutive places: repair, then its verification, then its review. */
  ghost predicate ChainAt(cfg: Config, subs: seq<Sub>, c: nat) {
    && c + 2 < |subs|
    && subs[c].part == Repair && subs[c + 1].part == Verify && subs[c + 2].part == Review
    && subs[c + 1].role == Tester && subs[c + 2].role == Reviewer
    && subs[c + 1].deps == [c] && subs[c + 2].deps == [c + 1]
    && subs[c].attempt == subs[c + 1].attempt == subs[c + 2].attempt
    && match subs[c].source
       case Some(f) => RepairsFailure(cfg, subs, c, f)
       case None => subs[c].reworkOf.Some? && AnswersRework(cfg, subs, c, subs[c].reworkOf.value)
  }

  /** The subtask whose end made the chain headed by `sub`. */
  function Maker(sub: Sub): Option<nat> {
    if sub.source.Some? then sub.source else sub.reworkOf
  }

  ghost predicate PlacedAt(cfg: Config, subs: seq<Sub>, i: nat)
    requires i < |subs|
  {
    match subs[i].part
    case Planned => i < cfg.planned && subs[i].attempt == 0 && subs[i].source == None && subs[i].reworkOf == None
    case Repair => cfg.planned <= i && ChainAt(cfg, subs, i)
    case Verify => cfg.planned <= i - 1 && ChainAt(cfg, subs, i - 1)
    case Review => cfg.planned <= i - 2 && ChainAt(cfg, subs, i - 2)
  }

  ghost predicate Placed(cfg: Config, subs: seq<Sub>) {
    && cfg.planned <= |subs|
    && forall i {:trigger PlacedAt(cfg, subs, i)} :: 0 <= i < |subs| ==> PlacedAt(cfg, subs, i)
  }

  /** No subtask makes two chains. */
  ghost predicate OneChainEach(subs: seq<Sub>) {
    forall c, c' :: 0 <= c < |subs| && 0 <= c' < |subs| && Twins(subs[c], subs[c']) ==> c == c'
  }

  /** Heads of chains with the same maker. */
  predicate Twins(head: Sub, head': Sub) {
    head.part == Repair && head'.part == Repair && Maker(head) == Maker(head')
  }

  ghost predicate HeadsChain(subs: seq<Sub>, i: nat, c: nat) {
    c < |subs| && subs[c].part == Repair && Maker(subs[c]) == Some(i)
  }

  /** The two flags are set exactly where a chain was made. */
  ghost predicate FlagTold(subs: seq<Sub>, i: nat)
    requires i < |subs|
  {
    && (subs[i].repaired || subs[i].reworked ==> exists c: nat :: HeadsChain(subs, i, c))
    && (subs[i].repaired ==> subs[i].status == Failed)
    && (subs[i].reworked ==> subs[i].status == Succeeded)
  }

  ghost predicate FlagsTold(subs: seq<Sub>) {
    forall i {:trigger FlagTold(subs, i)} :: 0 <= i < |subs| ==> FlagTold(subs, i)
  }

  ghost predicate Core(cfg: Config, subs: seq<Sub>) {
    && Closed(subs) && Gated(subs) && AllCredible(subs)
    && CancelClosed(subs) && CancelCaused(subs)
    && Placed(cfg, subs) && OneChainEach(subs) && FlagsTold(subs)
  }

  // ---------------------------------------------------------------- evolution

  /** What never changes about a subtask: its place in the graph, and everything once it has ended
      by itself, except that a flag may be raised. */
  predicate Kept(sub: Sub, sub': Sub) {
    && sub' == sub.(status := sub'.status, result := sub'.result, repaired := sub'.repaired, reworked := sub'.reworked)
    && (sub.repaired ==> sub'.repaired) && (sub.reworked ==> sub'.reworked)
    && (sub.status == Succeeded || sub.status == Failed ==> sub'.status == sub.status && sub'.result == sub.result)
  }

  ghost predicate Evolves(subs: seq<Sub>, subs': seq<Sub>) {
    |subs| <= |subs'| && forall i {:trigger subs'[i]} :: 0 <= i < |subs| ==> Kept(subs[i], subs'[i])
  }

  lemma EvolutionKeepsChain(cfg: Config, subs: seq<Sub>, subs': seq<Sub>, c: nat)
    requires Evolves(subs, subs') && ChainAt(cfg, subs, c)
    ensures ChainAt(cfg, subs', c)
  {
  }

  lemma EvolutionKeepsPlace(cfg: Config, subs: seq<Sub>, subs': seq<Sub>, i: nat)
    requires i < |subs| && Evolves(subs, subs') && PlacedAt(cfg, subs, i)
    ensures PlacedAt(cfg, subs', i)
  {
    assert Kept(subs[i], subs'[i]);
    match subs[i].part
    case Planned =>
    case Repair => EvolutionKeepsChain(cfg, subs, subs', i);
    case Verify => EvolutionKeepsChain(cfg, subs, subs', i - 1);
    case Review => EvolutionKeepsChain(cfg, subs, subs', i - 2);
  }

  // ---------------------------------------------------------------- moves

  /** Subtask `i` moves on by itself: it is assigned when ready, starts running, or ends credibly. */
  ghost predicate Moves(subs: seq<Sub>, i: nat, sub': Sub)
    requires i < |subs|
  {
    var sub := subs[i];
    || sub' == sub
    || (sub.status == Queued && IsReady(subs, i) && sub' == sub.(status := Assigned))
    || (sub.status.Active() && sub'.status.Running() && sub' == sub.(status := sub'.status))
    || (sub.status.Active() && (sub'.status == Succeeded || sub'.status == Failed) && Credible(sub') &&
        sub' == sub.(status := sub'.status, result := sub'.result))
  }

  ghost predicate Advances(subs: seq<Sub>, subs': seq<Sub>) {
    |subs'| == |subs| && forall i {:trigger subs'[i]} :: 0 <= i < |subs| ==> Moves(subs, i, subs'[i])
  }

  lemma AdvanceKeepsGating(subs: seq<Sub>, subs': seq<Sub>)
    requires Advances(subs, subs') && Closed(subs) && Gated(subs)
    ensures Closed(subs') && Gated(subs')
  {
    forall i, d | 0 <= i < |subs'| && d in subs'[i].deps
      ensures d < |subs'|
    {
      assert Moves(subs, i, subs'[i]);
    }
    forall i, d | 0 <= i < |subs'| && d in subs'[i].deps && d < |subs'| && !Waiting(subs'[i].status)
      ensures subs'[d].status == Succeeded
    {
      assert Moves(subs, i, subs'[i]) && Moves(subs, d, subs'[d]);
    }
  }

  lemma AdvanceKeepsCredible(subs: seq<Sub>, subs': seq<Sub>)
    requires Advances(subs, subs') && AllCredible(subs)
    ensures AllCredible(subs')
  {
  }

  lemma AdvanceKeepsCancelClosed(subs: seq<Sub>, subs': seq<Sub>)
    requires Advances(subs, subs') && CancelClosed(subs)
    ensures CancelClosed(subs')
  {
    forall i, d | 0 <= i < |subs'| && d in subs'[i].deps && d < |subs'| && Dead(subs'[d])
      ensures subs'[i].status == Cancelled
    {
      assert Moves(subs, i, subs'[i]) && Moves(subs, d, subs'[d]);
    }
  }

  lemma AdvanceKeepsCancellation(subs: seq<Sub>, subs': seq<Sub>)
    requires Advances(subs, subs') && CancelClosed(subs) && CancelCaused(subs)
    ensures CancelClosed(subs') && CancelCaused(subs')
  {
    AdvanceKeepsCancelClosed(subs, subs');
    hide CancelClosed;
    forall i | 0 <= i < |subs'| && subs'[i].status == Cancelled
      ensures HasDeadDependency(subs', i)
    {
      assert Moves(subs, i, subs'[i]);
      assert HasDeadDependency(subs, i);
      var d :| d in subs[i].deps && d < |subs| && Dead(subs[d]);
      assert Moves(subs, d, subs'[d]);
    }
  }

  lemma AdvanceEvolves(subs: seq<Sub>, subs': seq<Sub>)
    requires Advances(subs, subs')
    ensures Evolves(subs, subs')
  {
  }

  lemma AdvanceKeepsPlaces(cfg: Config, subs: seq<Sub>, subs': seq<Sub>)
    requires Advances(subs, subs') && Evolves(subs, subs') && Placed(cfg, subs) && OneChainEach(subs)
    ensures Placed(cfg, subs') && OneChainEach(subs')
  {
    forall i | 0 <= i < |subs'|
      ensures PlacedAt(cfg, subs', i)
    {
      assert PlacedAt(cfg, subs, i);
      EvolutionKeepsPlace(cfg, subs, subs', i);
    }
    forall c, c' | 0 <= c < |subs'| && 0 <= c' < |subs'| && Twins(subs'[c], subs'[c'])
      ensures c == c'
    {
      assert Kept(subs[c], subs'[c]) && Kept(subs[c'], subs'[c']);
      assert Twins(subs[c], subs[c']);
    }
  }

  lemma AdvanceKeepsFlags(subs: seq<Sub>, subs': seq<Sub>)
    requires Advances(subs, subs') && FlagsTold(subs)
    ensures FlagsTold(subs')
  {
    forall i | 0 <= i < |subs'|
      ensures FlagTold(subs', i)
    {
      assert FlagTold(subs, i) && Moves(subs, i, subs'[i]);
      if c: nat :| HeadsChain(subs, i, c) {
        assert Moves(subs, c, subs'[c]);
        assert HeadsChain(subs', i, c);
      }
    }
  }

  lemma AdvanceKeepsCore(cfg: Config, subs: seq<Sub>, subs': seq<Sub>)
    requires Advances(subs, subs') && Core(cfg, subs)
    ensures Core(cfg, subs') && Evolves(subs, subs')
  {
    AdvanceEvolves(subs, subs');
    AdvanceKeepsFlags(subs, subs');
    AdvanceKeepsGating(subs, subs');
    AdvanceKeepsCredible(subs, subs');
    AdvanceKeepsCancellation(subs, subs');
    AdvanceKeepsPlaces(cfg, subs, subs');
  }

  // ---------------------------------------------------------------- the three moves of the protocol

  lemma DispatchAdvances(subs: seq<Sub>)
    requires AllCredible(subs)
    ensures Advances(subs, AssignReady(subs))
  {
  }

  lemma BeginAdvances(s: State, i: nat, status: Status)
    requires i < |s.subs| && s.subs[i].status.Active() && status.Running()
    ensures Advances(s.subs, Begin(s, i, status).subs)
  {
  }

  /** A verifier that succeeds has passed, and a reviewer that ran had only passing verifiers before it. */
  lemma FinishAdvances(s: State, i: nat, o: Outcome)
    requires i < |s.subs| && s.subs[i].status.Active()
    requires Gated(s.subs) && AllCredible(s.subs)
    ensures Advances(s.subs, Finish(s, i, o).subs)
  {
  }

  // ---------------------------------------------------------------- generated chains

  /** Everything a handed-out subtask depends on, however far, has succeeded. */
  lemma GatedFar(subs: seq<Sub>, i: nat, t: nat)
    requires Closed(subs) && Gated(subs)
    requires DependsOn(subs, i, t) && i < |subs| && !Waiting(subs[i].status)
    ensures t < |subs| && subs[t].status == Succeeded
  {
    var p :| Connects(subs, i, t, p);
    var k := 0;
    while k < |p| - 1
      invariant 0 <= k < |p| && p[k] < |subs| && !Waiting(subs[p[k]].status) &&
        (k > 0 ==> subs[p[k]].status == Succeeded)
    {
      assert Edge(subs, p[k], p[k + 1]);
      k := k + 1;
    }
  }

  /** What a subtask depends on, and in which order it lists that, never changes. */
  lemma {:induction false} AlongStays(subs: seq<Sub>, subs': seq<Sub>, i: nat, w: seq<nat>)
    requires Evolves(subs, subs') && Closed(subs) && i < |subs|
    ensures Along(subs', i, w) == Along(subs, i, w)
    ensures Along(subs, i, w).Some? ==> Along(subs, i, w).value < |subs|
    decreases |w|
  {
    if w != [] {
      AlongStays(subs, subs', i, Front(w));
      var c := Along(subs, i, Front(w));
      if c.Some? {
        var deps := subs[c.value].deps;
        assert Kept(subs[c.value], subs'[c.value]) && forall j :: 0 <= j < |deps| ==> deps[j] in deps;
      }
    }
  }

  lemma FirstTargetStays(subs: seq<Sub>, subs': seq<Sub>, i: nat, t: Option<nat>)
    requires Evolves(subs, subs') && Closed(subs) && i < |subs| && FirstTarget(subs, i, t)
    ensures FirstTarget(subs', i, t)
  {
    hide Along, NotLater, Closed;
    forall w: seq<nat>
      ensures Hits(subs', i, w) == Hits(subs, i, w) && Along(subs', i, w) == Along(subs, i, w)
    {
      AlongStays(subs, subs', i, w);
      var d := Along(subs, i, w);
      if d.Some? { assert Kept(subs[d.value], subs'[d.value]); }
    }
  }

  lemma TargetSucceeded(subs: seq<Sub>, i: nat, t: nat)
    requires Closed(subs) && Gated(subs) && i < |subs| && !Waiting(subs[i].status)
    requires FirstTarget(subs, i, Some(t))
    ensures t < |subs| && subs[t].status == Succeeded && subs[t].role.Produces()
  {
    FirstIsNearest(subs, i, Some(t));
    var p: seq<nat> :| TargetWalk(subs, i, p) && Last(p) == t;
    assert Connects(subs, i, t, p);
    GatedFar(subs, i, t);
  }

  /** Cancellation only ever meets subtasks that were never handed out. */
  lemma DescendantsWait(subs: seq<Sub>, i: nat, j: nat)
    requires Closed(subs) && Gated(subs) && i < |subs| && subs[i].status != Succeeded
    requires j in Descendants(subs, i)
    ensures Waiting(subs[j].status) && (j == i ==> Waiting(subs[i].status))
  {
    if !Waiting(subs[j].status) {
      GatedFar(subs, j, i);
    }
  }

  /** Whoever made a chain carries a flag. */
  lemma MakerHasFlag(cfg: Config, subs: seq<Sub>, i: nat, c: nat)
    requires i < |subs| && Placed(cfg, subs) && HeadsChain(subs, i, c)
    ensures subs[i].repaired || subs[i].reworked
  {
    assert PlacedAt(cfg, subs, c);
  }

  /** A splice: `i` gets its flag, some queued subtasks are cancelled, a chain made by `i` is appended. */
  ghost predicate Splices(cfg: Config, subs: seq<Sub>, i: nat, subs': seq<Sub>) {
    && i < |subs| && |subs'| == |subs| + 3
    && (forall j {:trigger subs'[j]} :: 0 <= j < |subs| && j != i ==>
      subs'[j] == subs[j] || (subs[j].status == Queued && subs'[j] == subs[j].(status := Cancelled)))
    && !subs[i].repaired && !subs[i].reworked
    && ((subs'[i] == subs[i].(repaired := true) && subs[i].status == Failed) ||
        (subs'[i] == subs[i].(reworked := true) && subs[i].status == Succeeded))
    && FreshFrom(subs', |subs|)
    && Maker(subs'[|subs|]) == Some(i) && ChainAt(cfg, subs', |subs|)
  }

  predicate FreshIn(subs: seq<Sub>, j: nat)
    requires j < |subs|
  {
    subs[j].status == Queued && subs[j].result == None && !subs[j].repaired && !subs[j].reworked &&
    forall d | d in subs[j].deps :: d < j
  }

  ghost predicate FreshFrom(subs: seq<Sub>, n: nat) {
    forall j {:trigger FreshIn(subs, j)} {:trigger subs[j]} :: n <= j < |subs| ==> FreshIn(subs, j)
  }

  lemma SpliceEvolves(cfg: Config, subs: seq<Sub>, i: nat, subs': seq<Sub>)
    requires Splices(cfg, subs, i, subs')
    ensures Evolves(subs, subs')
  {
  }

  lemma SpliceKeepsGating(cfg: Config, subs: seq<Sub>, i: nat, subs': seq<Sub>)
    requires Splices(cfg, subs, i, subs') && Closed(subs) && Gated(subs) && AllCredible(subs)
    ensures Closed(subs') && Gated(subs') && AllCredible(subs')
  {
    forall j, d | 0 <= j < |subs'| && d in subs'[j].deps
      ensures d < |subs'|
    {
      if j >= |subs| { assert FreshIn(subs', j); }
    }
    forall j, d | 0 <= j < |subs'| && d in subs'[j].deps && !Waiting(subs'[j].status)
      ensures d < |subs'| && subs'[d].status == Succeeded
    {
      assert j < |subs|;
      assert subs[d].status == Succeeded;
      assert subs'[d].status == Succeeded;
    }
    forall j | 0 <= j < |subs'|
      ensures Credible(subs'[j])
    {
      if j < |subs| { assert Credible(subs[j]); }
    }
  }

  lemma NewPlaces(cfg: Config, subs: seq<Sub>, n: nat, j: nat)
    requires cfg.planned <= n && |subs| == n + 3 && ChainAt(cfg, subs, n) && n <= j < |subs|
    ensures PlacedAt(cfg, subs, j) && (subs[j].part == Repair <==> j == n)
  {
  }

  lemma SpliceKeepsPlaces(cfg: Config, subs: seq<Sub>, i: nat, subs': seq<Sub>)
    requires Splices(cfg, subs, i, subs')
    requires Placed(cfg, subs) && OneChainEach(subs)
    ensures Placed(cfg, subs') && OneChainEach(subs')
  {
    var n := |subs|;
    SpliceEvolves(cfg, subs, i, subs');
    forall j | 0 <= j < |subs'|
      ensures PlacedAt(cfg, subs', j)
    {
      if j < n {
        assert PlacedAt(cfg, subs, j);
        EvolutionKeepsPlace(cfg, subs, subs', j);
      } else {
        NewPlaces(cfg, subs', n, j);
      }
    }
    forall c: nat, c': nat | c < |subs'| && c' < |subs'| && Twins(subs'[c], subs'[c'])
      ensures c == c'
    {
      if c < n && c' < n {
        assert Kept(subs[c], subs'[c]) && Kept(subs[c'], subs'[c']);
        assert Twins(subs[c], subs[c']);
      } else if c < n {
        NoNewTwin(cfg, subs, i, subs', c, c');
      } else if c' < n {
        NoNewTwin(cfg, subs, i, subs', c', c);
      } else {
        NewPlaces(cfg, subs', n, c);
        NewPlaces(cfg, subs', n, c');
      }
    }
  }

  /** No older chain has the maker of the new one. */
  lemma NoNewTwin(cfg: Config, subs: seq<Sub>, i: nat, subs': seq<Sub>, c: nat, c': nat)
    requires Splices(cfg, subs, i, subs') && Placed(cfg, subs)
    requires c < |subs| <= c' < |subs'|
    ensures !Twins(subs'[c], subs'[c']) && !Twins(subs'[c'], subs'[c])
  {
    SpliceEvolves(cfg, subs, i, subs');
    NewPlaces(cfg, subs', |subs|, c');
    assert Kept(subs[c], subs'[c]);
    if HeadsChain(subs, i, c) {
      MakerHasFlag(cfg, subs, i, c);
    }
  }

  lemma SpliceKeepsFlags(cfg: Config, subs: seq<Sub>, i: nat, subs': seq<Sub>)
    requires Splices(cfg, subs, i, subs') && FlagsTold(subs)
    ensures FlagsTold(subs')
  {
    forall j: nat | j < |subs'|
      ensures FlagTold(subs', j)
    {
      if j == i {
        assert ChainAt(cfg, subs', |subs|);
        assert HeadsChain(subs', i, |subs|);
      } else if j < |subs| {
        assert FlagTold(subs, j);
        if c: nat :| HeadsChain(subs, j, c) {
          assert HeadsChain(subs', j, c);
        }
      }
    }
  }

  lemma ReworkSplices(s: State, i: nat, t: nat)
    requires i < |s.subs| && ReworkDue(s.cfg, s.subs[i]) && !s.subs[i].repaired && !s.subs[i].reworked
    requires t < |s.subs| && s.subs[t].status == Succeeded && s.subs[t].role.Produces()
    ensures Splices(s.cfg, s.subs, i, SpliceRework(s, i, t).subs)
  {
    var n, subs', chain := |s.subs|, SpliceRework(s, i, t).subs, ReworkChain(s.subs, i, t);
    assert subs'[n] == chain[0] && subs'[n + 1] == chain[1] && subs'[n + 2] == chain[2];
    assert FreshIn(subs', n) && FreshIn(subs', n + 1) && FreshIn(subs', n + 2);
    assert ChainAt(s.cfg, subs', n);
  }

  lemma ReworkKeepsCore(s: State, i: nat, t: nat)
    requires Core(s.cfg, s.subs)
    requires i < |s.subs| && ReworkDue(s.cfg, s.subs[i]) && !s.subs[i].repaired && !s.subs[i].reworked
    requires FirstTarget(s.subs, i, Some(t)) && t < |s.subs|
    ensures Core(s.cfg, SpliceRework(s, i, t).subs)
  {
    var subs, subs' := s.subs, SpliceRework(s, i, t).subs;
    TargetSucceeded(subs, i, t);
    ReworkSplices(s, i, t);
    SpliceKeepsGating(s.cfg, subs, i, subs');
    SpliceKeepsPlaces(s.cfg, subs, i, subs');
    SpliceKeepsFlags(s.cfg, subs, i, subs');
    ReworkKeepsCancellation(s, i, t);
  }

  lemma ReworkKeepsCancellation(s: State, i: nat, t: nat)
    requires CancelClosed(s.subs) && CancelCaused(s.subs) && Closed(s.subs)
    requires i < |s.subs| && s.subs[i].status == Succeeded && !s.subs[i].repaired && t < |s.subs|
    ensures CancelClosed(SpliceRework(s, i, t).subs) && CancelCaused(SpliceRework(s, i, t).subs)
  {
    var subs, subs' := s.subs, SpliceRework(s, i, t).subs;
    forall j: nat | j < |subs'| && subs'[j].status == Cancelled
      ensures HasDeadDependency(subs', j)
    {
      assert HasDeadDependency(subs, j);
      var d :| d in subs[j].deps && d < |subs| && Dead(subs[d]);
      assert Dead(subs'[d]);
    }
  }

  lemma RepairCancelsQueued(s: State, i: nat)
    requires Closed(s.subs) && Gated(s.subs) && i < |s.subs| && s.subs[i].status == Failed
    ensures var marked := MarkRepaired(s.subs, i);
      forall j {:trigger CancelOne(marked, i, j)} :: 0 <= j < |s.subs| ==>
        CancelOne(marked, i, j) == marked[j] ||
          (j != i && s.subs[j].status == Queued && CancelOne(marked, i, j) == s.subs[j].(status := Cancelled))
  {
    var marked := MarkRepaired(s.subs, i);
    forall j: nat | j < |s.subs| && j in Descendants(marked, i)
      ensures Waiting(s.subs[j].status) && j != i
    {
      DescendantsWait(marked, i, j);
    }
  }

  lemma RepairSplices(s: State, i: nat)
    requires Closed(s.subs) && Gated(s.subs)
    requires i < |s.subs| && RepairDue(s.cfg, s.subs[i]) && !s.subs[i].reworked
    ensures Splices(s.cfg, s.subs, i, SpliceRepair(s, i).subs)
  {
    var marked := MarkRepaired(s.subs, i);
    RepairCancelsQueued(s, i);
    var n, subs', chain := |s.subs|, SpliceRepair(s, i).subs, RepairChain(s.subs, i);
    assert subs'[n] == chain[0] && subs'[n + 1] == chain[1] && subs'[n + 2] == chain[2];
    forall j | 0 <= j < n
      ensures subs'[j] == CancelOne(marked, i, j)
    {
    }
    assert FreshIn(subs', n) && FreshIn(subs', n + 1) && FreshIn(subs', n + 2);
    assert ChainAt(s.cfg, subs', n);
  }

  /** After a repair splice the cancelled subtasks are exactly those that were cancelled before and
      the descendants of the repaired failure. */
  lemma RepairKeepsCancellation(s: State, i: nat)
    requires Core(s.cfg, s.subs)
    requires i < |s.subs| && RepairDue(s.cfg, s.subs[i]) && !s.subs[i].reworked
    ensures CancelClosed(SpliceRepair(s, i).subs) && CancelCaused(SpliceRepair(s, i).subs)
  {
    var subs' := SpliceRepair(s, i).subs;
    hide Core, RepairDue, SpliceRepair, HasDeadDependency;
    forall j: nat, d | j < |subs'| && d in subs'[j].deps && d < |subs'| && Dead(subs'[d])
      ensures subs'[j].status == Cancelled
    {
      RepairReachesDependents(s, i, j, d);
    }
    forall j: nat | j < |subs'| && subs'[j].status == Cancelled
      ensures HasDeadDependency(subs', j)
    {
      CancelledHasCause(s, i, j);
    }
  }

  lemma CancelledHasCause(s: State, i: nat, j: nat)
    requires Core(s.cfg, s.subs)
    requires i < |s.subs| && RepairDue(s.cfg, s.subs[i]) && !s.subs[i].reworked
    requires j < |SpliceRepair(s, i).subs| && SpliceRepair(s, i).subs[j].status == Cancelled
    ensures HasDeadDependency(SpliceRepair(s, i).subs, j)
  {
    var subs, marked, subs' := s.subs, MarkRepaired(s.subs, i), SpliceRepair(s, i).subs;
    if j < |subs| && subs[j].status == Cancelled {
      assert HasDeadDependency(subs, j);
      var d :| d in subs[j].deps && d < |subs| && Dead(subs[d]);
      assert Dead(subs'[d]);
    } else if j < |subs| {
      assert j in Descendants(marked, i);
      var d := FirstStep(marked, j, i);
      assert Dead(subs'[d]) by {
        if d != i { DescendantsWait(marked, i, d); }
      }
    }
  }

  /** The repair waits for what the failure had, and that has succeeded; the rest waits for the repair. */
  lemma NewWaitForLive(s: State, i: nat, j: nat, d: nat)
    requires Core(s.cfg, s.subs)
    requires i < |s.subs| && RepairDue(s.cfg, s.subs[i]) && !s.subs[i].reworked
    requires var subs' := SpliceRepair(s, i).subs; |s.subs| <= j < |subs'| && d in subs'[j].deps && d < |subs'|
    ensures !Dead(SpliceRepair(s, i).subs[d])
  {
    var subs, subs' := s.subs, SpliceRepair(s, i).subs;
    var n, chain := |subs|, RepairChain(subs, i);
    assert subs'[n] == chain[0] && subs'[n + 1] == chain[1] && subs'[n + 2] == chain[2];
    if j == n {
      assert d in subs[i].deps && subs[d].status == Succeeded && !Dead(subs[d]);
      assert subs'[d] == CancelOne(MarkRepaired(subs, i), i, d);
    }
  }

  lemma RepairReachesDependents(s: State, i: nat, j: nat, d: nat)
    requires Core(s.cfg, s.subs)
    requires i < |s.subs| && RepairDue(s.cfg, s.subs[i]) && !s.subs[i].reworked
    requires var subs' := SpliceRepair(s, i).subs; j < |subs'| && d in subs'[j].deps && d < |subs'| && Dead(subs'[d])
    ensures SpliceRepair(s, i).subs[j].status == Cancelled
  {
    var subs, marked, subs' := s.subs, MarkRepaired(s.subs, i), SpliceRepair(s, i).subs;
    if j >= |subs| {
      NewWaitForLive(s, i, j, d);
    } else if d == i {
      assert Edge(marked, j, i);
      EdgeConnects(marked, j, i);
      DescendantsWait(marked, i, j);
    } else if Dead(subs[d]) {
      assert subs[j].status == Cancelled;
    } else {
      assert d in Descendants(marked, i);
      assert Edge(marked, j, d);
      StepConnects(marked, j, d, i);
      DescendantsWait(marked, i, j);
    }
  }

  lemma RepairKeepsCore(s: State, i: nat)
    requires Core(s.cfg, s.subs)
    requires i < |s.subs| && RepairDue(s.cfg, s.subs[i]) && !s.subs[i].reworked
    ensures Core(s.cfg, SpliceRepair(s, i).subs)
  {
    var subs, subs' := s.subs, SpliceRepair(s, i).subs;
    RepairSplices(s, i);
    SpliceKeepsGating(s.cfg, subs, i, subs');
    SpliceKeepsPlaces(s.cfg, subs, i, subs');
    SpliceKeepsFlags(s.cfg, subs, i, subs');
    RepairKeepsCancellation(s, i);
  }
}
