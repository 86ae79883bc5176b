/** What the invariant means for a run: justified verdicts, a stable verdict, exactly-once
    execution, and a dependency graph that stays closed and acyclic while it grows. */
module Guarantees {
  import opened Basics
  import opened SubTasks
  import opened DependencyGraph
  import opened Protocol
  import opened Invariant
  import opened Runs

  // ---------------------------------------------------------------- gating

  /** In every reachable state, whatever was handed out has only succeeded ancestors, at any distance. */
  lemma HandedOutMeansAncestorsSucceeded(cfg: Config, plan: seq<Sub>, s: State, i: nat, d: nat)
    requires IsPlan(plan) && cfg.planned == |plan| && Reaches(Start(cfg, plan), s)
    requires i < |s.subs| && !Waiting(s.subs[i].status) && DependsOn(s.subs, i, d)
    ensures d < |s.subs| && s.subs[d].status == Succeeded
  {
    ReachableHasInv(cfg, plan, s);
    GatedFar(s.subs, i, d);
  }

  ghost predicate BelowRepaired(subs: seq<Sub>, i: nat) {
    exists f: nat :: f < |subs| && subs[f].status == Failed && subs[f].repaired && DependsOn(subs, i, f)
  }

  /** A cancelled subtask hangs below a repaired failure, or below another cancelled one that does not. */
  lemma CancelledHasStep(subs: seq<Sub>, j: nat) returns (d: nat)
    requires CancelCaused(subs) && FlagsTold(subs) && j < |subs| && subs[j].status == Cancelled
    ensures BelowRepaired(subs, j) ||
      (d in subs[j].deps && d < |subs| && subs[d].status == Cancelled && !BelowRepaired(subs, d))
  {
    assert HasDeadDependency(subs, j);
    d :| d in subs[j].deps && d < |subs| && Dead(subs[d]);
    assert FlagTold(subs, d);
    assert Edge(subs, j, d);
    EdgeConnects(subs, j, d);
    if BelowRepaired(subs, d) {
      var f: nat :| f < |subs| && subs[f].status == Failed && subs[f].repaired && DependsOn(subs, d, f);
      StepConnects(subs, j, d, f);
    }
  }

  lemma CancelledHasCause(subs: seq<Sub>, i: nat)
    requires CancelCaused(subs) && FlagsTold(subs) && Acyclic(subs)
    requires i < |subs| && subs[i].status == Cancelled
    ensures BelowRepaired(subs, i)
  {
    hide CancelCaused, FlagsTold, BelowRepaired;
    var c := set j: nat | j in Below(|subs|) && subs[j].status == Cancelled && !BelowRepaired(subs, j);
    forall j: nat | j in c
      ensures DependsInto(subs, j, c)
    {
      var d := CancelledHasStep(subs, j);
    }
    assert !Stuck(subs, c);
    assert i !in c;
  }

  // ---------------------------------------------------------------- verification

  /** The list of successes with a failed verification that `reconcile` computes is always empty. */
  lemma NoSuccessFailedVerification(cfg: Config, plan: seq<Sub>, s: State, i: nat)
    requires IsPlan(plan) && cfg.planned == |plan| && Reaches(Start(cfg, plan), s)
    requires i < |s.subs|
    ensures !VerificationFailed(s.subs[i])
  {
    ReachableHasInv(cfg, plan, s);
    assert Credible(s.subs[i]);
  }

  // ---------------------------------------------------------------- coverage

  /** A failure is covered exactly if its repair chain was made; no other chain covers it by accident. */
  lemma CoveredMeansRepaired(cfg: Config, subs: seq<Sub>, f: nat)
    requires Placed(cfg, subs) && FlagsTold(subs) && f < |subs| && subs[f].status == Failed
    ensures Covered(subs, f) <==> subs[f].repaired
    ensures subs[f].repaired ==>
      exists c: nat :: c + 2 < |subs| && ChainAt(cfg, subs, c) && RepairsFailure(cfg, subs, c, f)
  {
    if Covered(subs, f) {
      var j: nat :| 0 <= j < |subs| && subs[j].source == Some(f);
      assert PlacedAt(cfg, subs, j);
    }
    assert FlagTold(subs, f);
    if subs[f].repaired {
      var c: nat :| HeadsChain(subs, f, c);
      assert PlacedAt(cfg, subs, c);
      assert RepairsFailure(cfg, subs, c, f);
      assert Covered(subs, f) by { assert subs[c].source == Some(f); }
    }
  }

  // ---------------------------------------------------------------- justified success

  /** A repair, its verification by a tester and the review of that. */
  predicate ChainParts(repair: Sub, verify: Sub, review: Sub, c: nat) {
    && repair.part == Repair
    && verify.part == Verify && verify.role == Tester && verify.deps == [c]
    && review.part == Review && review.role == Reviewer && review.deps == [c + 1]
  }

  /** The chain headed by `c` did its work: either its repair, verification and review all succeeded,
      or its repair failed and a chain of the next attempt delivers instead. */
  ghost predicate Fulfilled(subs: seq<Sub>, c: nat)
    decreases |subs| - c
  {
    c + 2 < |subs| && ChainParts(subs[c], subs[c + 1], subs[c + 2], c) &&
    if subs[c].status == Succeeded then subs[c + 1].status == Succeeded && subs[c + 2].status == Succeeded
    else
      subs[c].status == Failed && exists c' ::
        c < c' < |subs| && subs[c'].source == Some(c) && subs[c'].attempt == subs[c].attempt + 1 && Fulfilled(subs, c')
  }

  /** A failed subtask whose repair delivers. */
  ghost predicate Mended(subs: seq<Sub>, f: nat)
    requires f < |subs|
  {
    exists c :: f < c < |subs| && subs[c].source == Some(f) && subs[c].attempt == subs[f].attempt + 1 &&
      Fulfilled(subs, c)
  }

  predicate AskedForRework(sub: Sub) {
    sub.status == Succeeded && sub.result.Some? && sub.result.value.decision == Some(Rework)
  }

  /** A rework decision whose chain delivers. */
  ghost predicate Reworked(subs: seq<Sub>, r: nat)
    requires r < |subs|
  {
    exists c :: r < c < |subs| && subs[c].reworkOf == Some(r) && subs[c].attempt == subs[r].attempt + 1 &&
      Fulfilled(subs, c)
  }

  lemma CancelledHasLooseEnd(subs: seq<Sub>, i: nat) returns (d: nat)
    requires CancelCaused(subs) && FlagsTold(subs) && i < |subs| && subs[i].status == Cancelled
    ensures d in subs[i].deps && d < |subs| && subs[d].status != Succeeded
  {
    assert HasDeadDependency(subs, i);
    d :| d in subs[i].deps && d < |subs| && Dead(subs[d]);
    assert FlagTold(subs, d);
  }

  lemma RepairIsNotCancelled(cfg: Config, subs: seq<Sub>, c: nat)
    requires Core(cfg, subs) && c < |subs| && subs[c].part == Repair
    ensures subs[c].status != Cancelled
  {
    assert PlacedAt(cfg, subs, c);
    if subs[c].status == Cancelled {
      var d := CancelledHasLooseEnd(subs, c);
    }
  }

  lemma EndedWell(cfg: Config, subs: seq<Sub>, i: nat)
    requires Core(cfg, subs) && Judge(subs) == Done && i < |subs|
    requires !subs[i].role.Repairable()
    requires forall d :: d in subs[i].deps && d < |subs| ==> subs[d].status == Succeeded
    ensures subs[i].status == Succeeded
  {
    assert subs[i].status.Terminal();
    if subs[i].status == Failed {
      var c := FailureHasChain(cfg, subs, i);
    } else if subs[i].status == Cancelled {
      var d := CancelledHasLooseEnd(subs, i);
    }
  }

  lemma PartsOfChain(cfg: Config, subs: seq<Sub>, c: nat)
    requires ChainAt(cfg, subs, c)
    ensures c + 2 < |subs| && ChainParts(subs[c], subs[c + 1], subs[c + 2], c)
  {
  }

  lemma RestEndsWell(cfg: Config, subs: seq<Sub>, c: nat)
    requires Core(cfg, subs) && Judge(subs) == Done && ChainAt(cfg, subs, c) && subs[c].status == Succeeded
    ensures subs[c + 1].status == Succeeded && subs[c + 2].status == Succeeded
  {
    hide Core, Judge, RepairsFailure, AnswersRework;
    EndedWell(cfg, subs, c + 1);
    EndedWell(cfg, subs, c + 2);
  }

  lemma ChainIsFulfilled(cfg: Config, subs: seq<Sub>, c: nat)
    requires Core(cfg, subs) && Judge(subs) == Done && c < |subs| && subs[c].part == Repair
    ensures Fulfilled(subs, c)
    decreases |subs| - c
  {
    assert PlacedAt(cfg, subs, c);
    PartsOfChain(cfg, subs, c);
    RepairIsNotCancelled(cfg, subs, c);
    assert subs[c].status.Terminal();
    hide Core, Judge, ChainAt, PlacedAt, ChainParts;
    if subs[c].status == Succeeded {
      RestEndsWell(cfg, subs, c);
    } else {
      var c' := FailureHasChain(cfg, subs, c);
      ChainIsFulfilled(cfg, subs, c');
    }
  }

  lemma FailureHasChain(cfg: Config, subs: seq<Sub>, f: nat) returns (c: nat)
    requires Core(cfg, subs) && Judge(subs) == Done && f < |subs| && subs[f].status == Failed
    ensures f < c < |subs| && subs[c].part == Repair && subs[c].source == Some(f) &&
      subs[c].attempt == subs[f].attempt + 1
    ensures subs[f].role.Repairable()
  {
    CoveredMeansRepaired(cfg, subs, f);
    assert !UncoveredFailure(subs, f);
    c :| c + 2 < |subs| && ChainAt(cfg, subs, c) && RepairsFailure(cfg, subs, c, f);
  }

  /** A run is reported as succeeded only if every subtask has ended, every failure was mended by
      repairs of strictly increasing attempts, and every rework decision was carried out. */
  lemma SuccessIsJustified(cfg: Config, plan: seq<Sub>, s: State, i: nat)
    requires IsPlan(plan) && cfg.planned == |plan| && Reaches(Start(cfg, plan), s)
    requires s.run.status == RunSucceeded && i < |s.subs|
    ensures s.subs[i].status.Terminal()
    ensures s.subs[i].status == Failed ==> Mended(s.subs, i)
    ensures AskedForRework(s.subs[i]) ==> Reworked(s.subs, i)
  {
    ReachableHasInv(cfg, plan, s);
    DoneIsJustified(cfg, s.subs, i);
  }

  lemma DoneIsJustified(cfg: Config, subs: seq<Sub>, i: nat)
    requires Core(cfg, subs) && Judge(subs) == Done && i < |subs|
    ensures subs[i].status.Terminal()
    ensures subs[i].status == Failed ==> Mended(subs, i)
    ensures AskedForRework(subs[i]) ==> Reworked(subs, i)
  {
    if subs[i].status == Failed {
      var c := FailureHasChain(cfg, subs, i);
      ChainIsFulfilled(cfg, subs, c);
    } else if AskedForRework(subs[i]) {
      assert !ReworkUnresolved(subs[i]);
      assert FlagTold(subs, i);
      var c: nat :| HeadsChain(subs, i, c);
      assert PlacedAt(cfg, subs, c);
      ChainIsFulfilled(cfg, subs, c);
    }
  }

  /** A run is reported as failed only for a failure that could not be repaired, or for a rework
      decision that came with an empty budget or with nothing to send back. */
  lemma FailureIsJustified(cfg: Config, plan: seq<Sub>, s: State)
    requires IsPlan(plan) && cfg.planned == |plan| && Reaches(Start(cfg, plan), s)
    requires s.run.status == RunFailed
    ensures
      || (exists f :: 0 <= f < |s.subs| && s.subs[f].status == Failed && !s.subs[f].repaired &&
           (!s.cfg.repairEnabled || !s.subs[f].role.Repairable() || s.subs[f].attempt >= s.cfg.maxAttempts))
      || ((forall i :: 0 <= i < |s.subs| ==> s.subs[i].status.Terminal()) &&
          exists r: nat :: r < |s.subs| && ReworkUnresolved(s.subs[r]) &&
           (s.subs[r].attempt >= s.cfg.maxAttempts || NearestTarget(s.subs, r, None)))
  {
    var subs := s.subs;
    ReachableHasInv(cfg, plan, s);
    if Judge(subs) == Broken {
      var f := BrokenHasFailure(subs);
      CoveredMeansRepaired(s.cfg, subs, f);
      assert Answered(s.cfg, subs, f);
    } else {
      var r: nat :| r < |subs| && ReworkUnresolved(subs[r]);
      assert Credible(subs[r]);
      assert Answered(s.cfg, subs, r);
      if s.subs[r].attempt < s.cfg.maxAttempts { FirstIsNearest(subs, r, None); }
    }
  }

  // ---------------------------------------------------------------- a stable verdict

  /** One action changes no finished subtask, appends only fresh ones and only adds to the history. */
  ghost predicate Grows(s: State, t: State) {
    s.log <= t.log && Evolves(s.subs, t.subs) && FreshFrom(t.subs, |s.subs|)
  }

  lemma SpliceGrows(s: State, i: nat, s': State)
    requires Splices(s.cfg, s.subs, i, s'.subs) && s.log <= s'.log
    ensures Grows(s, s')
  {
  }

  lemma RespondGrows(s: State, i: nat, t: Option<nat>)
    requires Unanswered(s, i)
    requires if ReworkDue(s.cfg, s.subs[i]) then FirstTarget(s.subs, i, t) else t == None
    ensures Grows(s, Respond(s, i, t)) && Respond(s, i, t).run.status == s.run.status
  {
    if ReworkDue(s.cfg, s.subs[i]) {
      if t.Some? {
        TargetSucceeded(s.subs, i, t.value);
        ReworkSplices(s, i, t.value);
        SpliceGrows(s, i, SpliceRework(s, i, t.value));
      }
    } else if RepairDue(s.cfg, s.subs[i]) {
      RepairSplices(s, i);
      SpliceGrows(s, i, SpliceRepair(s, i));
    }
  }

  lemma EvolvesThen(a: seq<Sub>, b: seq<Sub>, c: seq<Sub>)
    requires Evolves(a, b) && Evolves(b, c)
    ensures Evolves(a, c)
  {
    forall i | 0 <= i < |a|
      ensures Kept(a[i], c[i])
    {
      assert Kept(a[i], b[i]) && Kept(b[i], c[i]);
    }
  }

  lemma ConcludeGrows(s: State, i: nat, o: Outcome, t: Option<nat>)
    requires Inv(s) && Enabled(s, Concludes(i, o, t))
    ensures Grows(s, Apply(s, Concludes(i, o, t))) && Apply(s, Concludes(i, o, t)).run.status == s.run.status
  {
    var m := Finish(s, i, o);
    assert Evolves(s.subs, m.subs) by {
      FinishAdvances(s, i, o);
      AdvanceEvolves(s.subs, m.subs);
    }
    FinishLeavesUnanswered(s, i, o);
    hide Inv, Unanswered, Respond, Evolves;
    RespondGrows(m, i, t);
    EvolvesThen(s.subs, m.subs, Respond(m, i, t).subs);
  }

  lemma ActionGrows(s: State, a: Action)
    requires Inv(s) && Enabled(s, a)
    ensures Grows(s, Apply(s, a))
  {
    match a
    case Dispatches =>
      DispatchAdvances(s.subs);
      AdvanceEvolves(s.subs, AssignReady(s.subs));
    case Delivers(i) =>
    case Begins(i, status) =>
      BeginAdvances(s, i, status);
      AdvanceEvolves(s.subs, Begin(s, i, status).subs);
    case Concludes(i, o, t) => ConcludeGrows(s, i, o, t);
    case Reconciles =>
  }

  lemma ActionKeepsVerdict(s: State, a: Action)
    requires Inv(s) && Enabled(s, a) && s.run.status.Final()
    ensures Apply(s, a).run.status == s.run.status
  {
  }

  lemma {:induction false} RunKeepsVerdict(s: State, acts: seq<Action>)
    requires Inv(s) && Legal(s, acts)
    ensures s.run.status.Final() ==> Perform(s, acts).run.status == s.run.status
    ensures s.log <= Perform(s, acts).log && Evolves(s.subs, Perform(s, acts).subs)
    decreases |acts|
  {
    if acts == [] {
    } else {
      var s' := Apply(s, acts[0]);
      if s.run.status.Final() {
        ActionKeepsVerdict(s, acts[0]);
      }
      ActionGrows(s, acts[0]);
      ActionKeepsInv(s, acts[0]);
      RunKeepsVerdict(s', acts[1..]);
    }
  }

  /** Once the run is reported as succeeded or failed, no later step changes that, although every
      reconciliation recomputes it; what has ended stays as it ended; the history only grows. */
  lemma VerdictIsStable(cfg: Config, plan: seq<Sub>, s: State, t: State)
    requires IsPlan(plan) && cfg.planned == |plan| && Reaches(Start(cfg, plan), s) && Reaches(s, t)
    ensures s.run.status.Final() ==> t.run.status == s.run.status
    ensures s.log <= t.log && Evolves(s.subs, t.subs)
  {
    ReachableHasInv(cfg, plan, s);
    var acts :| Legal(s, acts) && Perform(s, acts) == t;
    RunKeepsVerdict(s, acts);
  }

  /** Reconciling again without any change to the subtasks changes nothing and publishes nothing. */
  lemma ReconcileTwice(s: State)
    ensures Reconcile(Reconcile(s)) == Reconcile(s)
  {
  }

  /** All terminal events of a run, over its whole history, report the same status. */
  lemma TerminalEventsAgree(cfg: Config, plan: seq<Sub>, s: State, e: Event, e': Event)
    requires IsPlan(plan) && cfg.planned == |plan| && Reaches(Start(cfg, plan), s)
    requires e in s.log && e' in s.log && e.RunTerminal? && e'.RunTerminal?
    ensures e == e'
  {
    ReachableHasInv(cfg, plan, s);
  }

  // ---------------------------------------------------------------- exactly once

  /** Each subtask is announced at most once; one that ran to its end was announced once and
      published exactly one of the two terminal events; each makes at most one chain. */
  lemma ExactlyOnce(cfg: Config, plan: seq<Sub>, s: State, i: nat)
    requires IsPlan(plan) && cfg.planned == |plan| && Reaches(Start(cfg, plan), s)
    ensures var seen := multiset(s.log);
      && seen[SubtaskAssigned(i)] <= 1
      && seen[SubtaskCompleted(i)] + seen[SubtaskFailed(i)] <= seen[SubtaskAssigned(i)]
      && (i < |s.subs| && (s.subs[i].status == Succeeded || s.subs[i].status == Failed) <==>
          seen[SubtaskCompleted(i)] + seen[SubtaskFailed(i)] == 1)
      && seen[ReworkRequested(i)] <= seen[SubtaskCompleted(i)] && seen[RepairRequested(i)] <= seen[SubtaskFailed(i)]
    ensures forall c: nat, c': nat :: HeadsChain(s.subs, i, c) && HeadsChain(s.subs, i, c') ==> c == c'
  {
    ReachableHasInv(cfg, plan, s);
    assert Told(s.subs, s.log, i);
    if i < |s.subs| {
      assert FlagTold(s.subs, i);
    }
    forall c: nat, c': nat | HeadsChain(s.subs, i, c) && HeadsChain(s.subs, i, c')
      ensures c == c'
    {
      assert Twins(s.subs[c], s.subs[c']);
    }
  }

  /** In the history, a subtask is announced only after all its dependencies completed. */
  lemma HistoryFollowsDependencies(cfg: Config, plan: seq<Sub>, s: State, p: nat, i: nat, d: nat)
    requires IsPlan(plan) && cfg.planned == |plan| && Reaches(Start(cfg, plan), s)
    requires p < |s.log| && s.log[p] == SubtaskAssigned(i) && i < |s.subs| && d in s.subs[i].deps
    ensures exists q :: 0 <= q < p && s.log[q] == SubtaskCompleted(d)
  {
    ReachableHasInv(cfg, plan, s);
    assert Warranted(s.subs, s.log[..p], s.log[p]);
    var q :| 0 <= q < p && s.log[..p][q] == SubtaskCompleted(d);
  }

  // ---------------------------------------------------------------- the graph

  lemma GrowthKeepsAcyclic(s: State, t: State)
    requires Acyclic(s.subs) && Closed(s.subs) && Grows(s, t)
    ensures Acyclic(t.subs)
  {
    var subs, subs' := s.subs, t.subs;
    if c: set<nat> :| Stuck(subs', c) {
      var kept := set i: nat | i in c && i < |subs|;
      var i := Least(c);
      assert DependsInto(subs', i, c);
      assert i < |subs|;
      forall j: nat | j in kept
        ensures DependsInto(subs, j, kept)
      {
        assert DependsInto(subs', j, c) && Kept(subs[j], subs'[j]);
      }
      assert i in kept;
      assert Stuck(subs, kept);
    }
  }

  lemma Least(c: set<nat>) returns (i: nat)
    requires c != {}
    ensures i in c && forall j :: j in c ==> i <= j
  {
    i :| i in c;
    if c != {i} {
      assert c == (c - {i}) + {i};
      var m := Least(c - {i});
      if m < i { i := m; }
    }
  }

  lemma {:induction false} RunKeepsAcyclic(s: State, acts: seq<Action>)
    requires Inv(s) && Legal(s, acts) && Acyclic(s.subs)
    ensures Acyclic(Perform(s, acts).subs)
    decreases |acts|
  {
    if acts != [] {
      ActionGrows(s, acts[0]);
      GrowthKeepsAcyclic(s, Apply(s, acts[0]));
      ActionKeepsInv(s, acts[0]);
      RunKeepsAcyclic(Apply(s, acts[0]), acts[1..]);
    }
  }

  /** The graph of an acyclic plan stays acyclic and closed however it grows, and the run lists
      its subtasks in creation order, each once. */
  lemma GraphStaysClosedDag(cfg: Config, plan: seq<Sub>, s: State)
    requires IsPlan(plan) && cfg.planned == |plan| && Reaches(Start(cfg, plan), s)
    ensures Acyclic(plan) ==> Acyclic(s.subs)
    ensures forall i, d :: 0 <= i < |s.subs| && d in s.subs[i].deps ==> d < |s.subs|
    ensures s.run.subtaskIds == Ids(|s.subs|)
  {
    ReachableHasInv(cfg, plan, s);
    StartHasInv(cfg, plan);
    if Acyclic(plan) {
      var acts :| Legal(Start(cfg, plan), acts) && Perform(Start(cfg, plan), acts) == s;
      RunKeepsAcyclic(Start(cfg, plan), acts);
    }
  }

  /** A subtask is cancelled only if it was never handed out, and only below a repaired failure. */
  lemma CancelledWasNeverHandedOut(cfg: Config, plan: seq<Sub>, s: State, i: nat)
    requires IsPlan(plan) && cfg.planned == |plan| && Reaches(Start(cfg, plan), s)
    requires i < |s.subs| && s.subs[i].status == Cancelled
    ensures SubtaskAssigned(i) !in s.log
    ensures Acyclic(plan) ==> BelowRepaired(s.subs, i)
  {
    ReachableHasInv(cfg, plan, s);
    assert Told(s.subs, s.log, i);
    if Acyclic(plan) {
      GraphStaysClosedDag(cfg, plan, s);
      CancelledHasCause(s.subs, i);
    }
  }
}
