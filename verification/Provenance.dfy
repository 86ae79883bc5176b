/** Where everything in a run comes from: how each execution's outcome decides the status and result of
    its subtask, which ends make a chain, what the chain looks like, and what a dispatch hands out. */
module Provenance {
  import opened Basics
  import opened SubTasks
  import opened DependencyGraph
  import opened Protocol
  import opened Invariant
  import opened Runs
  import opened Guarantees

  predicate Ended(sub: Sub) {
    sub.status == Succeeded || sub.status == Failed
  }

  // ---------------------------------------------------------------- what an outcome does

  predicate HasVerifier(subs: seq<Sub>, i: nat)
    requires i < |subs|
  {
    exists d | d in subs[i].deps :: d < |subs| && (subs[d].role == Verifier || subs[d].role == Tester)
  }

  /** A verifier that succeeds has passed, by its structured verdict or else by the evidence; both keys
      record the verdict, whichever it is. */
  predicate VerifierEnds(sub: Sub, passed: bool) {
    sub.status == (if passed then Succeeded else Failed) && sub.result == Some(Result(Some(passed), Some(passed), None))
  }

  /** A reviewer's decision is the structured one, or else the forced one, or else to accept if there was
      a verifier -- which then has passed. */
  predicate ReviewerEnds(sub: Sub, decision: Option<Decision>, forced: Option<Decision>, verified: bool) {
    sub.status == Succeeded &&
    sub.result == Some(Result(None, Some(true),
      if decision.Some? then decision else if forced.Some? then forced else if verified then Some(Accept)
        else Some(Rework)))
  }

  predicate WorkEnds(sub: Sub, ok: bool) {
    if ok then sub.status == Succeeded && sub.result == Some(Result(None, None, None))
    else sub.status == Failed && sub.result == None
  }

  ghost predicate EndsByOutcome(subs: seq<Sub>, i: nat, o: Outcome)
    requires i < |subs|
  {
    var sub := subs[i];
    match o
    case Raised => sub.status == Failed && sub.result == None
    case Finished(ok, verdict, evidence, decision, forced) =>
      if sub.role == Verifier || sub.role == Tester then
        VerifierEnds(sub, if verdict.Some? then verdict.value else evidence)
      else if sub.role == Reviewer then ReviewerEnds(sub, decision, forced, HasVerifier(subs, i))
      else WorkEnds(sub, ok)
  }

  ghost predicate AccountedAt(cfg: Config, subs: seq<Sub>, i: nat)
    requires i < |subs|
  {
    Ended(subs[i]) ==> EndsByOutcome(subs, i, cfg.outcomes(i))
  }

  ghost predicate Accounted(cfg: Config, subs: seq<Sub>) {
    forall i {:trigger AccountedAt(cfg, subs, i)} :: 0 <= i < |subs| ==> AccountedAt(cfg, subs, i)
  }

  lemma FinishAccounts(s: State, i: nat)
    requires Inv(s) && i < |s.subs| && s.subs[i].status.Active()
    ensures EndsByOutcome(Finish(s, i, s.cfg.outcomes(i)).subs, i, s.cfg.outcomes(i))
  {
    var subs, o := s.subs, s.cfg.outcomes(i);
    assert Credible(subs[i]);
    assert TestersPassed(subs, subs[i].deps) by {
      assert forall d :: d in subs[i].deps ==> d < |subs| && subs[d].status == Succeeded && Credible(subs[d]);
    }
    assert RulesVerdict(subs, subs[i].deps, o.Finished? && o.evidence) == (o.Finished? && o.evidence);
    SameVerifiers(s, i, o);
  }

  lemma SameVerifiers(s: State, i: nat, o: Outcome)
    requires i < |s.subs|
    ensures HasVerifier(Finish(s, i, o).subs, i) == HasVerifier(s.subs, i) == HasTester(s.subs, s.subs[i].deps)
  {
    var subs, subs' := s.subs, Finish(s, i, o).subs;
    forall d: nat | d < |subs|
      ensures subs'[d].role == subs[d].role
    {
    }
    assert subs'[i].deps == subs[i].deps;
  }

  /** What has ended stays accounted for. */
  lemma EvolutionKeepsAccount(cfg: Config, subs: seq<Sub>, subs': seq<Sub>, i: nat)
    requires Evolves(subs, subs') && Closed(subs) && i < |subs| && Ended(subs[i]) && AccountedAt(cfg, subs, i)
    ensures AccountedAt(cfg, subs', i)
  {
    assert Kept(subs[i], subs'[i]);
    forall d | d in subs[i].deps
      ensures d < |subs| && subs'[d].role == subs[d].role
    {
      assert Kept(subs[d], subs'[d]);
    }
  }

  /** Only a conclusion ends a subtask, and only its own. */
  lemma OnlyConcludingEnds(s: State, a: Action, i: nat)
    requires Inv(s) && Enabled(s, a) && i < |Apply(s, a).subs| && Ended(Apply(s, a).subs[i])
    requires !(a.Concludes? && i == a.id)
    ensures i < |s.subs| && Ended(s.subs[i])
  {
    ActionGrows(s, a);
    EndedIsNotFresh(Apply(s, a).subs, |s.subs|, i);
    match a
    case Dispatches => if SomeReady(s.subs) { assert Apply(s, a).subs[i] == AssignOne(s.subs, i); }
    case Delivers(_) =>
    case Begins(_, _) =>
    case Concludes(j, o, t) =>
      FinishLeavesUnanswered(s, j, o);
      OnlyOwnEnd(Finish(s, j, o), j, t, i);
    case Reconciles =>
  }

  lemma EndedIsNotFresh(subs: seq<Sub>, n: nat, i: nat)
    requires FreshFrom(subs, n) && i < |subs| && Ended(subs[i])
    ensures i < n
  {
  }

  lemma OnlyOwnEnd(m: State, j: nat, t: Option<nat>, i: nat)
    requires Unanswered(m, j) && i < |m.subs| && i != j
    requires if ReworkDue(m.cfg, m.subs[j]) then FirstTarget(m.subs, j, t) else t == None
    requires i < |Respond(m, j, t).subs| && Ended(Respond(m, j, t).subs[i])
    ensures Ended(m.subs[i])
  {
    if ReworkDue(m.cfg, m.subs[j]) {
      if t.Some? {
        TargetSucceeded(m.subs, j, t.value);
        ReworkSplices(m, j, t.value);
      }
    } else if RepairDue(m.cfg, m.subs[j]) {
      RepairSplices(m, j);
    }
  }

  lemma ConcludingAccounts(s: State, i: nat, o: Outcome, t: Option<nat>)
    requires Inv(s) && Enabled(s, Concludes(i, o, t))
    ensures i < |Apply(s, Concludes(i, o, t)).subs| && AccountedAt(s.cfg, Apply(s, Concludes(i, o, t)).subs, i)
  {
    var m := Finish(s, i, o);
    FinishAccounts(s, i);
    FinishLeavesUnanswered(s, i, o);
    assert Ended(m.subs[i]) && Closed(m.subs);
    hide Inv, Unanswered, EndsByOutcome, Respond, Finish;
    RespondGrows(m, i, t);
    EvolutionKeepsAccount(s.cfg, m.subs, Respond(m, i, t).subs, i);
  }

  lemma ActionKeepsAccounts(s: State, a: Action)
    requires Inv(s) && Enabled(s, a) && Accounted(s.cfg, s.subs)
    ensures Accounted(s.cfg, Apply(s, a).subs)
  {
    var subs' := Apply(s, a).subs;
    ActionGrows(s, a);
    assert Closed(s.subs);
    hide Inv, Enabled, Apply, Closed, EndsByOutcome;
    forall i: nat | i < |subs'|
      ensures AccountedAt(s.cfg, subs', i)
    {
      if a.Concludes? && i == a.id {
        ConcludingAccounts(s, i, a.outcome, a.target);
      } else if Ended(subs'[i]) {
        OnlyConcludingEnds(s, a, i);
        assert AccountedAt(s.cfg, s.subs, i);
        EvolutionKeepsAccount(s.cfg, s.subs, subs', i);
      }
    }
  }

  lemma {:induction false} RunKeepsAccounts(s: State, acts: seq<Action>)
    requires Inv(s) && Legal(s, acts) && Accounted(s.cfg, s.subs)
    ensures Accounted(s.cfg, Perform(s, acts).subs)
    decreases |acts|
  {
    hide Inv, Accounted;
    if acts != [] {
      ActionKeepsAccounts(s, acts[0]);
      ActionKeepsInv(s, acts[0]);
      RunKeepsAccounts(Apply(s, acts[0]), acts[1..]);
    }
  }

  /** Every subtask that has ended did so as its execution came out. */
  lemma OutcomeDecides(cfg: Config, plan: seq<Sub>, s: State, i: nat)
    requires IsPlan(plan) && cfg.planned == |plan| && Reaches(Start(cfg, plan), s)
    requires i < |s.subs| && Ended(s.subs[i])
    ensures EndsByOutcome(s.subs, i, cfg.outcomes(i))
    ensures forall d :: d in s.subs[i].deps ==> d < |s.subs| && s.subs[d].status == Succeeded
  {
    StartHasInv(cfg, plan);
    assert Accounted(cfg, plan) by {
      assert forall j :: 0 <= j < |plan| ==> IsPlanned(plan[j], |plan|);
    }
    var acts :| Legal(Start(cfg, plan), acts) && Perform(Start(cfg, plan), acts) == s;
    ReachableHasInv(cfg, plan, s);
    assert Closed(s.subs) && Gated(s.subs);
    hide Inv, EndsByOutcome, Accounted, IsPlan;
    RunKeepsAccounts(Start(cfg, plan), acts);
    AccountIs(cfg, s.subs, i);
  }

  lemma AccountIs(cfg: Config, subs: seq<Sub>, i: nat)
    requires Accounted(cfg, subs) && i < |subs| && Ended(subs[i])
    ensures EndsByOutcome(subs, i, cfg.outcomes(i))
  {
    assert AccountedAt(cfg, subs, i);
  }

  // ---------------------------------------------------------------- whose work is sent back

  /** The repair of a rework chain is for the role of the work that is sent back, and its verification
      names that work. */
  ghost predicate AimedAt(subs: seq<Sub>, c: nat)
    requires c < |subs|
  {
    subs[c].part == Repair && subs[c].source == None ==>
      && subs[c].reworkOf.Some? && c + 1 < |subs| && subs[c + 1].source.Some?
      && subs[c].reworkOf.value < c && FirstTarget(subs, subs[c].reworkOf.value, subs[c + 1].source)
      && subs[c + 1].source.value < c && subs[c].role == subs[subs[c + 1].source.value].role
  }

  ghost predicate Aimed(subs: seq<Sub>) {
    forall c {:trigger AimedAt(subs, c)} :: 0 <= c < |subs| ==> AimedAt(subs, c)
  }

  lemma EvolutionKeepsAim(subs: seq<Sub>, subs': seq<Sub>, c: nat)
    requires Evolves(subs, subs') && Closed(subs) && c < |subs| && AimedAt(subs, c)
    ensures AimedAt(subs', c)
  {
    hide FirstTarget, Closed;
    assert Kept(subs[c], subs'[c]);
    if subs[c].part == Repair && subs[c].source == None {
      assert Kept(subs[c + 1], subs'[c + 1]) && Kept(subs[subs[c + 1].source.value], subs'[subs[c + 1].source.value]);
      FirstTargetStays(subs, subs', subs[c].reworkOf.value, subs[c + 1].source);
    }
  }

  lemma ReworkIsAimed(m: State, i: nat, t: nat)
    requires Closed(m.subs) && i < |m.subs| && t < |m.subs| && FirstTarget(m.subs, i, Some(t))
    requires Evolves(m.subs, SpliceRework(m, i, t).subs)
    ensures var subs' := SpliceRework(m, i, t).subs;
      AimedAt(subs', |m.subs|) && AimedAt(subs', |m.subs| + 1) && AimedAt(subs', |m.subs| + 2)
  {
    var n, subs', chain := |m.subs|, SpliceRework(m, i, t).subs, ReworkChain(m.subs, i, t);
    assert subs'[n] == chain[0] && subs'[n + 1] == chain[1] && subs'[n + 2] == chain[2];
    assert subs'[t].role == m.subs[t].role;
    hide FirstTarget, Evolves, Closed, SpliceRework;
    FirstTargetStays(m.subs, subs', i, Some(t));
  }

  lemma RepairIsAimed(m: State, i: nat)
    requires i < |m.subs|
    ensures var subs' := SpliceRepair(m, i).subs;
      AimedAt(subs', |m.subs|) && AimedAt(subs', |m.subs| + 1) && AimedAt(subs', |m.subs| + 2)
  {
    var n, subs', chain := |m.subs|, SpliceRepair(m, i).subs, RepairChain(m.subs, i);
    assert subs'[n] == chain[0] && subs'[n + 1] == chain[1] && subs'[n + 2] == chain[2];
  }

  lemma UnansweredIsClosed(m: State, i: nat)
    requires Unanswered(m, i)
    ensures i < |m.subs| && Closed(m.subs)
  {
  }

  lemma SplicesAddThree(m: State, i: nat)
    requires i < |m.subs|
    ensures |SpliceRepair(m, i).subs| == |m.subs| + 3
    ensures forall t: nat :: t < |m.subs| ==> |SpliceRework(m, i, t).subs| == |m.subs| + 3
  {
  }

  /** The answer to an end aims its chain. */
  lemma AnswerIsAimed(m: State, i: nat, t: Option<nat>, c: nat)
    requires Unanswered(m, i) && |m.subs| <= c < |Respond(m, i, t).subs|
    requires if ReworkDue(m.cfg, m.subs[i]) then FirstTarget(m.subs, i, t) else t == None
    ensures AimedAt(Respond(m, i, t).subs, c)
  {
    UnansweredIsClosed(m, i);
    hide Unanswered, FirstTarget, Closed, AimedAt, Evolves, FreshFrom, SpliceRework, SpliceRepair, ReworkDue, RepairDue;
    RespondGrows(m, i, t);
    SplicesAddThree(m, i);
    if ReworkDue(m.cfg, m.subs[i]) {
      ReworkIsAimed(m, i, t.value);
    } else {
      RepairIsAimed(m, i);
    }
  }

  lemma ActionKeepsAim(s: State, a: Action)
    requires Inv(s) && Enabled(s, a) && Aimed(s.subs)
    ensures Aimed(Apply(s, a).subs)
  {
    var subs' := Apply(s, a).subs;
    ActionGrows(s, a);
    assert Closed(s.subs);
    if a.Concludes? { FinishLeavesUnanswered(s, a.id, a.outcome); }
    hide Inv, Closed, AimedAt, Unanswered;
    forall c: nat | c < |subs'|
      ensures AimedAt(subs', c)
    {
      if c < |s.subs| {
        assert AimedAt(s.subs, c);
        EvolutionKeepsAim(s.subs, subs', c);
      } else {
        assert a.Concludes?;
        AnswerIsAimed(Finish(s, a.id, a.outcome), a.id, a.target, c);
      }
    }
  }

  lemma {:induction false} RunKeepsAim(s: State, acts: seq<Action>)
    requires Inv(s) && Legal(s, acts) && Aimed(s.subs)
    ensures Aimed(Perform(s, acts).subs)
    decreases |acts|
  {
    hide Inv, Aimed;
    if acts != [] {
      ActionKeepsAim(s, acts[0]);
      ActionKeepsInv(s, acts[0]);
      RunKeepsAim(Apply(s, acts[0]), acts[1..]);
    }
  }

  lemma ReachableIsAimed(cfg: Config, plan: seq<Sub>, s: State)
    requires IsPlan(plan) && cfg.planned == |plan| && Reaches(Start(cfg, plan), s)
    ensures Aimed(s.subs)
  {
    StartHasInv(cfg, plan);
    assert Aimed(plan) by {
      assert forall j :: 0 <= j < |plan| ==> IsPlanned(plan[j], |plan|);
    }
    var acts :| Legal(Start(cfg, plan), acts) && Perform(Start(cfg, plan), acts) == s;
    RunKeepsAim(Start(cfg, plan), acts);
  }

  /** A rework chain repairs, in the role of its author, the work that the first way from the reviewer
      leads to. */
  lemma ReworkSendsBackTarget(cfg: Config, plan: seq<Sub>, s: State, c: nat)
    requires IsPlan(plan) && cfg.planned == |plan| && Reaches(Start(cfg, plan), s)
    requires c < |s.subs| && s.subs[c].part == Repair && s.subs[c].source == None
    ensures c + 2 < |s.subs| && s.subs[c].reworkOf.Some? && s.subs[c + 1].source.Some?
    ensures var r, t := s.subs[c].reworkOf.value, s.subs[c + 1].source.value;
      && r < c && t < c && FirstTarget(s.subs, r, Some(t)) && NearestTarget(s.subs, r, Some(t))
      && s.subs[c].role == s.subs[t].role &&
           (s.subs[t].role == Coder || s.subs[t].role == Writer || s.subs[t].role == Researcher)
      && AskedForRework(s.subs[r]) && s.subs[r].role == Reviewer
      && s.subs[c].deps == [r] && s.subs[c + 1].deps == [c] && s.subs[c + 2].deps == [c + 1]
      && s.subs[c].attempt == s.subs[c + 1].attempt == s.subs[c + 2].attempt == s.subs[r].attempt + 1
      && s.subs[c].reworkOf == s.subs[c + 1].reworkOf == s.subs[c + 2].reworkOf && s.subs[c + 2].source == None
      && s.subs[c + 1].role == Tester && s.subs[c + 2].role == Reviewer
  {
    ReachableHasInv(cfg, plan, s);
    ReachableIsAimed(cfg, plan, s);
    assert AimedAt(s.subs, c) && PlacedAt(cfg, s.subs, c);
    hide Inv, FirstTarget;
    FirstIsNearest(s.subs, s.subs[c].reworkOf.value, s.subs[c + 1].source);
  }

  /** A repair chain repeats the failed subtask, with its dependencies in their order. */
  lemma RepairRepeatsFailure(cfg: Config, plan: seq<Sub>, s: State, c: nat)
    requires IsPlan(plan) && cfg.planned == |plan| && Reaches(Start(cfg, plan), s)
    requires c < |s.subs| && s.subs[c].part == Repair && s.subs[c].source.Some?
    ensures c + 2 < |s.subs|
    ensures var f := s.subs[c].source.value;
      && f < c && s.subs[f].status == Failed && s.subs[c].role == s.subs[f].role && s.subs[c].deps == s.subs[f].deps
      && s.subs[c + 1].deps == [c] && s.subs[c + 2].deps == [c + 1]
      && s.subs[c].attempt == s.subs[c + 1].attempt == s.subs[c + 2].attempt == s.subs[f].attempt + 1
      && s.subs[c].source == s.subs[c + 1].source == s.subs[c + 2].source
      && s.subs[c].reworkOf == s.subs[c + 1].reworkOf == s.subs[c + 2].reworkOf == None
      && s.subs[c + 1].role == Tester && s.subs[c + 2].role == Reviewer
  {
    ReachableHasInv(cfg, plan, s);
    assert PlacedAt(cfg, s.subs, c);
  }

  // ---------------------------------------------------------------- which ends make a chain

  /** Exactly the failures of these roles with budget left are repaired, if the task allows it. */
  lemma RepairedIff(cfg: Config, plan: seq<Sub>, s: State, f: nat)
    requires IsPlan(plan) && cfg.planned == |plan| && Reaches(Start(cfg, plan), s)
    requires f < |s.subs| && s.subs[f].status == Failed
    ensures var sub := s.subs[f];
      sub.repaired <==>
        && cfg.repairEnabled && sub.attempt < cfg.maxAttempts
        && (sub.role == Coder || sub.role == Writer || sub.role == Researcher || sub.role == Planner)
  {
    ReachableHasInv(cfg, plan, s);
    assert Answered(cfg, s.subs, f);
    if s.subs[f].repaired {
      CoveredMeansRepaired(cfg, s.subs, f);
    }
  }

  /** Exactly the rework decisions with budget left and some producing ancestor are carried out. */
  lemma ReworkedIff(cfg: Config, plan: seq<Sub>, s: State, r: nat)
    requires IsPlan(plan) && cfg.planned == |plan| && Reaches(Start(cfg, plan), s) && r < |s.subs|
    ensures s.subs[r].reworked <==>
      AskedForRework(s.subs[r]) && s.subs[r].attempt < cfg.maxAttempts && !FirstTarget(s.subs, r, None)
  {
    ReachableHasInv(cfg, plan, s);
    assert Answered(cfg, s.subs, r) && FlagTold(s.subs, r) && Credible(s.subs[r]);
    if s.subs[r].reworked {
      ReachableIsAimed(cfg, plan, s);
      ReworkHasTarget(cfg, s.subs, r);
    }
  }

  lemma ReworkHasTarget(cfg: Config, subs: seq<Sub>, r: nat)
    requires Core(cfg, subs) && Aimed(subs) && r < |subs| && subs[r].reworked
    ensures AskedForRework(subs[r]) && subs[r].attempt < cfg.maxAttempts && !FirstTarget(subs, r, None)
  {
    assert FlagTold(subs, r);
    var c: nat :| HeadsChain(subs, r, c);
    assert PlacedAt(cfg, subs, c) && AimedAt(subs, c);
    hide Core, FirstTarget;
    TargetsExclude(subs, r, subs[c + 1].source);
  }

  lemma TargetsExclude(subs: seq<Sub>, r: nat, t: Option<nat>)
    requires FirstTarget(subs, r, t) && t.Some?
    ensures !FirstTarget(subs, r, None)
  {
  }

  // ---------------------------------------------------------------- what a dispatch hands out

  /** A dispatch hands out every queued subtask whose dependencies have all succeeded, all of them at
      once, and changes no other. */
  lemma DispatchIsExact(cfg: Config, plan: seq<Sub>, s: State, i: nat)
    requires IsPlan(plan) && cfg.planned == |plan| && Reaches(Start(cfg, plan), s) && i < |s.subs|
    ensures var t := Dispatch(s);
      && |t.subs| == |s.subs| && t.log == s.log
      && t.subs[i] == (
        if s.subs[i].status == Queued && forall d :: d in s.subs[i].deps && d < |s.subs| ==>
          s.subs[d].status == Succeeded
          then s.subs[i].(status := Assigned) else s.subs[i])
  {
    ReachableHasInv(cfg, plan, s);
    assert Credible(s.subs[i]);
    if SomeReady(s.subs) {
      assert Dispatch(s).subs[i] == AssignOne(s.subs, i);
    } else {
      assert !IsReady(s.subs, i);
    }
  }

  // ---------------------------------------------------------------- what runs how

  /** Verifiers and reviewers run as a verification, everything else in a sandbox or inline. */
  predicate RunsAs(sub: Sub) {
    sub.status.Running() ==>
      (sub.status == Verifying <==> sub.role == Verifier || sub.role == Tester || sub.role == Reviewer)
  }

  ghost predicate AllRunAs(subs: seq<Sub>) {
    forall i :: 0 <= i < |subs| ==> RunsAs(subs[i])
  }

  lemma SpliceStartsNothing(cfg: Config, subs: seq<Sub>, i: nat, subs': seq<Sub>)
    requires Splices(cfg, subs, i, subs') && AllRunAs(subs)
    ensures AllRunAs(subs')
  {
    forall j | 0 <= j < |subs'|
      ensures RunsAs(subs'[j])
    {
      if j >= |subs| { assert FreshIn(subs', j); }
    }
  }

  lemma AnswerStartsNothing(m: State, i: nat, t: Option<nat>)
    requires Unanswered(m, i) && AllRunAs(m.subs)
    requires if ReworkDue(m.cfg, m.subs[i]) then FirstTarget(m.subs, i, t) else t == None
    ensures AllRunAs(Respond(m, i, t).subs)
  {
    if ReworkDue(m.cfg, m.subs[i]) {
      if t.Some? {
        TargetSucceeded(m.subs, i, t.value);
        ReworkSplices(m, i, t.value);
        SpliceStartsNothing(m.cfg, m.subs, i, SpliceRework(m, i, t.value).subs);
      }
    } else if RepairDue(m.cfg, m.subs[i]) {
      RepairSplices(m, i);
      SpliceStartsNothing(m.cfg, m.subs, i, SpliceRepair(m, i).subs);
    }
  }

  lemma ActionKeepsRunning(s: State, a: Action)
    requires Inv(s) && Enabled(s, a) && AllRunAs(s.subs)
    ensures AllRunAs(Apply(s, a).subs)
  {
    match a
    case Dispatches =>
    case Delivers(_) =>
    case Begins(_, _) =>
    case Concludes(i, o, t) => ConcludingStartsNothing(s, i, o, t);
    case Reconciles =>
  }

  lemma ConcludingStartsNothing(s: State, i: nat, o: Outcome, t: Option<nat>)
    requires Inv(s) && Enabled(s, Concludes(i, o, t)) && AllRunAs(s.subs)
    ensures AllRunAs(Apply(s, Concludes(i, o, t)).subs)
  {
    FinishLeavesUnanswered(s, i, o);
    assert AllRunAs(Finish(s, i, o).subs);
    hide Inv, Unanswered, AllRunAs, Finish, Respond;
    AnswerStartsNothing(Finish(s, i, o), i, t);
  }

  lemma {:induction false} RunKeepsRunning(s: State, acts: seq<Action>)
    requires Inv(s) && Legal(s, acts) && AllRunAs(s.subs)
    ensures AllRunAs(Perform(s, acts).subs)
    decreases |acts|
  {
    hide Inv, AllRunAs;
    if acts != [] {
      ActionKeepsRunning(s, acts[0]);
      ActionKeepsInv(s, acts[0]);
      RunKeepsRunning(Apply(s, acts[0]), acts[1..]);
    }
  }

  /** A running subtask has the status that its role calls for. */
  lemma StatusFitsRole(cfg: Config, plan: seq<Sub>, s: State, i: nat)
    requires IsPlan(plan) && cfg.planned == |plan| && Reaches(Start(cfg, plan), s) && i < |s.subs|
    ensures RunsAs(s.subs[i])
  {
    StartHasInv(cfg, plan);
    assert AllRunAs(plan) by {
      assert forall j :: 0 <= j < |plan| ==> IsPlanned(plan[j], |plan|);
    }
    var acts :| Legal(Start(cfg, plan), acts) && Perform(Start(cfg, plan), acts) == s;
    RunKeepsRunning(Start(cfg, plan), acts);
  }
}
