/** One inductive invariant for every interleaving of the protocol's actions. */
module Runs {
  import opened Basics
  import opened SubTasks
  import opened DependencyGraph
  import opened Protocol
  import opened Invariant

  // ---------------------------------------------------------------- the verdict

  /** A final run status agrees with the verdict recomputed from the subtasks, and every terminal
      event published so far carried it. */
  ghost predicate VerdictHolds(s: State) {
    && s.run.status != RunPending
    && (s.run.status == RunSucceeded ==> Judge(s.subs) == Done)
    && (s.run.status == RunFailed ==> Judge(s.subs) == Broken || Judge(s.subs) == OutOfRework)
    && (forall e :: e in s.log && e.RunTerminal? ==> e.status == s.run.status && e.status.Final())
  }

  // ---------------------------------------------------------------- reactions

  /** Every end that called for a chain got one, unless there was nothing to send back. */
  ghost predicate Answered(cfg: Config, subs: seq<Sub>, i: nat)
    requires i < |subs|
  {
    && !RepairDue(cfg, subs[i])
    && (ReworkDue(cfg, subs[i]) && !subs[i].reworked ==> FirstTarget(subs, i, None))
  }

  ghost predicate AllAnswered(cfg: Config, subs: seq<Sub>) {
    forall i {:trigger Answered(cfg, subs, i)} :: 0 <= i < |subs| ==> Answered(cfg, subs, i)
  }

  // ---------------------------------------------------------------- history

  function Once(b: bool): nat {
    if b then 1 else 0
  }

  /** How often each event about `i` stands in the history. */
  ghost predicate Told(subs: seq<Sub>, log: seq<Event>, i: nat) {
    var seen := multiset(log);
    if i < |subs| then
      && seen[SubtaskAssigned(i)] <= 1
      && (subs[i].status.Running() || subs[i].status == Succeeded || subs[i].status == Failed ==>
           seen[SubtaskAssigned(i)] == 1)
      && (Waiting(subs[i].status) ==> seen[SubtaskAssigned(i)] == 0)
      && seen[SubtaskCompleted(i)] == Once(subs[i].status == Succeeded)
      && seen[SubtaskFailed(i)] == Once(subs[i].status == Failed)
      && seen[ReworkRequested(i)] == Once(subs[i].reworked)
      && seen[RepairRequested(i)] == Once(subs[i].repaired)
    else
      && seen[SubtaskAssigned(i)] == seen[SubtaskCompleted(i)] == seen[SubtaskFailed(i)] == 0
      && seen[ReworkRequested(i)] == seen[RepairRequested(i)] == 0
  }

  ghost predicate HistoryTold(subs: seq<Sub>, log: seq<Event>) {
    forall i: nat {:trigger Told(subs, log, i)} :: Told(subs, log, i)
  }

  /** What must already stand in the history when `e` is published. */
  ghost predicate Warranted(subs: seq<Sub>, past: seq<Event>, e: Event) {
    match e
    case SubtaskAssigned(i) => i < |subs| && forall d :: d in subs[i].deps ==> SubtaskCompleted(d) in past
    case SubtaskCompleted(i) => SubtaskAssigned(i) in past
    case SubtaskFailed(i) => SubtaskAssigned(i) in past
    case ReworkRequested(i) => SubtaskCompleted(i) in past
    case RepairRequested(i) => SubtaskFailed(i) in past
    case _ => true
  }

  ghost predicate HistoryOrdered(subs: seq<Sub>, log: seq<Event>) {
    forall p {:trigger log[p]} :: 0 <= p < |log| ==> Warranted(subs, log[..p], log[p])
  }

  // ---------------------------------------------------------------- the invariant

  ghost predicate Inv(s: State) {
    && Core(s.cfg, s.subs) && AllAnswered(s.cfg, s.subs) && VerdictHolds(s)
    && HistoryTold(s.subs, s.log) && HistoryOrdered(s.subs, s.log)
    && s.run.subtaskIds == Ids(|s.subs|)
  }

  lemma StartHasInv(cfg: Config, plan: seq<Sub>)
    requires IsPlan(plan) && cfg.planned == |plan|
    ensures Inv(Start(cfg, plan))
  {
    assert forall i :: 0 <= i < |plan| ==> IsPlanned(plan[i], |plan|);
    var s := Start(cfg, plan);
    forall i: nat | i < |plan|
      ensures PlacedAt(cfg, plan, i) && FlagTold(plan, i) && Answered(cfg, plan, i)
    {
      assert IsPlanned(plan[i], |plan|);
    }
    assert HistoryOrdered(plan, s.log);
    assert HistoryTold(plan, s.log);
  }

  // ---------------------------------------------------------------- keeping the verdict

  /** No success carries a failed verification, so a broken run has an uncovered failure. */
  lemma BrokenHasFailure(subs: seq<Sub>) returns (f: nat)
    requires AllCredible(subs) && Judge(subs) == Broken
    ensures f < |subs| && UncoveredFailure(subs, f)
  {
    f :| 0 <= f < |subs| && (UncoveredFailure(subs, f) || VerificationFailed(subs[f]));
    assert Credible(subs[f]);
  }

  lemma FailureStays(subs: seq<Sub>, subs': seq<Sub>, f: nat)
    requires Evolves(subs, subs') && f < |subs| && UncoveredFailure(subs, f)
    requires Covered(subs', f) ==> Covered(subs, f)
    ensures Judge(subs') == Broken
  {
    assert Kept(subs[f], subs'[f]);
    assert UncoveredFailure(subs', f);
  }

  lemma AdvanceCoverage(subs: seq<Sub>, subs': seq<Sub>, f: nat)
    requires Advances(subs, subs') && Covered(subs', f)
    ensures Covered(subs, f)
  {
  }

  lemma SpliceCoverage(cfg: Config, subs: seq<Sub>, i: nat, subs': seq<Sub>, f: nat)
    requires Splices(cfg, subs, i, subs') && f < |subs| && f != i && subs[f].status == Failed
    requires Covered(subs', f)
    ensures Covered(subs, f)
  {
  }

  lemma AdvanceKeepsVerdict(subs: seq<Sub>, subs': seq<Sub>)
    requires Advances(subs, subs') && Evolves(subs, subs') && AllCredible(subs) && Judge(subs) != Open
    ensures Judge(subs') == Judge(subs)
  {
    if Judge(subs) == Broken {
      var f := BrokenHasFailure(subs);
      if Covered(subs', f) {
        AdvanceCoverage(subs, subs', f);
      }
      FailureStays(subs, subs', f);
    } else {
      forall i | 0 <= i < |subs|
        ensures subs'[i] == subs[i]
      {
        assert Moves(subs, i, subs'[i]);
      }
      assert subs' == subs;
    }
  }

  lemma SpliceKeepsBroken(cfg: Config, subs: seq<Sub>, i: nat, subs': seq<Sub>, f: nat)
    requires Splices(cfg, subs, i, subs') && f < |subs| && f != i && UncoveredFailure(subs, f)
    ensures Judge(subs') == Broken
  {
    SpliceEvolves(cfg, subs, i, subs');
    if Covered(subs', f) {
      SpliceCoverage(cfg, subs, i, subs', f);
    }
    FailureStays(subs, subs', f);
  }

  // ---------------------------------------------------------------- keeping the answers

  lemma SameAnswer(cfg: Config, subs: seq<Sub>, subs': seq<Sub>, j: nat)
    requires Evolves(subs, subs') && Closed(subs) && j < |subs| && Answered(cfg, subs, j)
    requires subs'[j] == subs[j] || !(subs'[j].status == Succeeded || subs'[j].status == Failed)
    ensures Answered(cfg, subs', j)
  {
    if ReworkDue(cfg, subs'[j]) && !subs'[j].reworked {
      FirstTargetStays(subs, subs', j, None);
    }
  }

  lemma SpliceKeepsAnswers(cfg: Config, subs: seq<Sub>, i: nat, subs': seq<Sub>)
    requires Splices(cfg, subs, i, subs') && Closed(subs)
    requires forall j {:trigger Answered(cfg, subs, j)} :: 0 <= j < |subs| && j != i ==> Answered(cfg, subs, j)
    ensures AllAnswered(cfg, subs')
  {
    SpliceEvolves(cfg, subs, i, subs');
    forall j: nat | j < |subs'|
      ensures Answered(cfg, subs', j)
    {
      if j < |subs| && j != i {
        assert Answered(cfg, subs, j);
        SameAnswer(cfg, subs, subs', j);
      } else if j > i {
        assert FreshIn(subs', j);
      }
    }
  }

  // ---------------------------------------------------------------- keeping the history

  lemma OrderedMore(subs: seq<Sub>, subs': seq<Sub>, log: seq<Event>, e: Event)
    requires HistoryOrdered(subs, log) && Evolves(subs, subs') && Warranted(subs', log, e)
    ensures HistoryOrdered(subs', log + [e])
  {
    var log' := log + [e];
    forall p | 0 <= p < |log'|
      ensures Warranted(subs', log'[..p], log'[p])
    {
      if p < |log| {
        assert log'[..p] == log[..p];
        assert Warranted(subs, log[..p], log[p]);
        if log[p].SubtaskAssigned? { assert Kept(subs[log[p].id], subs'[log[p].id]); }
      } else {
        assert log'[..p] == log;
      }
    }
  }

  predicate AboutRun(e: Event) {
    e.PlanningCompleted? || e.RunUpdated? || e.RunTerminal? || e.RunSummary?
  }

  lemma RunEventsKeepHistory(subs: seq<Sub>, log: seq<Event>, more: seq<Event>)
    requires HistoryTold(subs, log) && HistoryOrdered(subs, log)
    requires forall e :: e in more ==> AboutRun(e)
    ensures HistoryTold(subs, log + more) && HistoryOrdered(subs, log + more)
    decreases |more|
  {
    if more == [] {
      assert log + more == log;
    } else {
      assert more[0] in more && AboutRun(more[0]);
      RunEventKeepsHistory(subs, log, more[0]);
      hide HistoryTold, HistoryOrdered, AboutRun;
      assert forall e :: e in more[1..] ==> e in more;
      RunEventsKeepHistory(subs, log + [more[0]], more[1..]);
      Unshift(log, more);
    }
  }

  lemma RunEventKeepsHistory(subs: seq<Sub>, log: seq<Event>, e: Event)
    requires HistoryTold(subs, log) && HistoryOrdered(subs, log) && AboutRun(e)
    ensures HistoryTold(subs, log + [e]) && HistoryOrdered(subs, log + [e])
  {
    OrderedMore(subs, subs, log, e);
    forall i: nat
      ensures Told(subs, log + [e], i)
    {
      assert Told(subs, log, i);
    }
  }

  /** Moves that end nothing and publish nothing. */
  lemma QuietAdvanceKeepsHistory(subs: seq<Sub>, subs': seq<Sub>, log: seq<Event>)
    requires Advances(subs, subs') && Evolves(subs, subs') && HistoryTold(subs, log) && HistoryOrdered(subs, log)
    requires forall i {:trigger subs'[i]} :: 0 <= i < |subs| ==>
      subs'[i] == subs[i] || subs'[i].status == Assigned || (subs'[i].status.Running() && SubtaskAssigned(i) in log)
    ensures HistoryTold(subs', log) && HistoryOrdered(subs', log)
  {
    forall i: nat
      ensures Told(subs', log, i)
    {
      assert Told(subs, log, i);
      if i < |subs| { assert Moves(subs, i, subs'[i]); }
    }
    forall p | 0 <= p < |log|
      ensures Warranted(subs', log[..p], log[p])
    {
      assert Warranted(subs, log[..p], log[p]);
      if log[p].SubtaskAssigned? { assert Kept(subs[log[p].id], subs'[log[p].id]); }
    }
  }

  lemma DeliverKeepsHistory(s: State, i: nat)
    requires HistoryTold(s.subs, s.log) && HistoryOrdered(s.subs, s.log) && Closed(s.subs) && Gated(s.subs)
    requires i < |s.subs| && s.subs[i].status == Assigned && SubtaskAssigned(i) !in s.log
    ensures HistoryTold(s.subs, Deliver(s, i).log) && HistoryOrdered(s.subs, Deliver(s, i).log)
  {
    forall d: nat | d in s.subs[i].deps
      ensures SubtaskCompleted(d) in s.log
    {
      assert Told(s.subs, s.log, d);
    }
    OrderedMore(s.subs, s.subs, s.log, SubtaskAssigned(i));
    forall j: nat
      ensures Told(s.subs, Deliver(s, i).log, j)
    {
      assert Told(s.subs, s.log, j);
    }
  }

  /** One subtask ends and its terminal event is published. */
  lemma EndKeepsHistory(subs: seq<Sub>, i: nat, sub': Sub, log: seq<Event>)
    requires HistoryTold(subs, log) && i < |subs| && subs[i].status.Active() && SubtaskAssigned(i) in log
    requires sub' == subs[i].(status := sub'.status, result := sub'.result) &&
      (sub'.status == Succeeded || sub'.status == Failed)
    ensures HistoryTold(subs[i := sub'],
      log + [if sub'.status == Succeeded then SubtaskCompleted(i) else SubtaskFailed(i)])
  {
    var subs', log' := subs[i := sub'],
      log + [if sub'.status == Succeeded then SubtaskCompleted(i) else SubtaskFailed(i)];
    forall j: nat
      ensures Told(subs', log', j)
    {
      assert Told(subs, log, j);
    }
  }

  lemma FinishKeepsHistory(s: State, i: nat, o: Outcome)
    requires HistoryTold(s.subs, s.log) && HistoryOrdered(s.subs, s.log)
    requires i < |s.subs| && s.subs[i].status.Active() && SubtaskAssigned(i) in s.log
    requires Evolves(s.subs, Finish(s, i, o).subs)
    ensures HistoryTold(Finish(s, i, o).subs, Finish(s, i, o).log) &&
      HistoryOrdered(Finish(s, i, o).subs, Finish(s, i, o).log)
  {
    var s' := Finish(s, i, o);
    var e := if s'.subs[i].status == Succeeded then SubtaskCompleted(i) else SubtaskFailed(i);
    OrderedMore(s.subs, s'.subs, s.log, e);
    EndKeepsHistory(s.subs, i, s'.subs[i], s.log);
  }

  lemma SpliceTells(cfg: Config, subs: seq<Sub>, i: nat, subs': seq<Sub>, log: seq<Event>, e: Event, j: nat)
    requires Splices(cfg, subs, i, subs') && Told(subs, log, j)
    requires e == if subs'[i].repaired then RepairRequested(i) else ReworkRequested(i)
    ensures Told(subs', log + [e], j)
  {
    hide ChainAt;
    if |subs| <= j < |subs'| { assert FreshIn(subs', j); }
  }

  lemma SpliceKeepsHistory(cfg: Config, subs: seq<Sub>, i: nat, subs': seq<Sub>, log: seq<Event>, e: Event)
    requires Splices(cfg, subs, i, subs') && HistoryTold(subs, log) && HistoryOrdered(subs, log)
    requires e == if subs'[i].repaired then RepairRequested(i) else ReworkRequested(i)
    ensures HistoryTold(subs', log + [e]) && HistoryOrdered(subs', log + [e])
  {
    SpliceEvolves(cfg, subs, i, subs');
    assert Told(subs, log, i);
    OrderedMore(subs, subs', log, e);
    forall j: nat
      ensures Told(subs', log + [e], j)
    {
      assert Told(subs, log, j);
      SpliceTells(cfg, subs, i, subs', log, e, j);
    }
  }

  // ---------------------------------------------------------------- every action keeps the invariant

  /** Moves that end nothing and publish nothing. */
  ghost predicate AdvancesQuietly(s: State, s': State) {
    && Advances(s.subs, s'.subs) && s'.cfg == s.cfg && s'.log == s.log
    && s'.run.status == s.run.status && s'.run.subtaskIds == s.run.subtaskIds
    && forall i {:trigger s'.subs[i]} :: 0 <= i < |s.subs| ==>
      s'.subs[i] == s.subs[i] || s'.subs[i].status == Assigned ||
        (s'.subs[i].status.Running() && SubtaskAssigned(i) in s.log)
  }

  lemma QuietAdvanceKeepsInv(s: State, s': State)
    requires Inv(s) && AdvancesQuietly(s, s')
    ensures Inv(s')
  {
    AdvanceKeepsCore(s.cfg, s.subs, s'.subs);
    QuietAdvanceKeepsHistory(s.subs, s'.subs, s.log);
    if s.run.status.Final() {
      AdvanceKeepsVerdict(s.subs, s'.subs);
    }
    forall j: nat | j < |s'.subs|
      ensures Answered(s.cfg, s'.subs, j)
    {
      assert Answered(s.cfg, s.subs, j);
      SameAnswer(s.cfg, s.subs, s'.subs, j);
    }
  }

  lemma DispatchKeepsInv(s: State)
    requires Inv(s)
    ensures Inv(Dispatch(s))
  {
    DispatchAdvances(s.subs);
    QuietAdvanceKeepsInv(s, Dispatch(s));
  }

  lemma BeginKeepsInv(s: State, i: nat, status: Status)
    requires Inv(s) && Enabled(s, Begins(i, status))
    ensures Inv(Begin(s, i, status))
  {
    BeginAdvances(s, i, status);
    QuietAdvanceKeepsInv(s, Begin(s, i, status));
  }

  lemma DeliverKeepsInv(s: State, i: nat)
    requires Inv(s) && Enabled(s, Delivers(i))
    ensures Inv(Deliver(s, i))
  {
    DeliverKeepsHistory(s, i);
  }

  lemma ReconcileKeepsInv(s: State)
    requires Inv(s)
    ensures Inv(Reconcile(s))
  {
    var s' := Reconcile(s);
    RunEventsKeepHistory(s.subs, s.log, Announcement(s.run, s.task, s'.run, s'.task));
  }

  /** What holds between the publication of a terminal event and the orchestrator's answer. */
  ghost predicate Unanswered(s: State, i: nat) {
    && i < |s.subs| && Core(s.cfg, s.subs) && HistoryTold(s.subs, s.log) && HistoryOrdered(s.subs, s.log)
    && !s.subs[i].repaired && !s.subs[i].reworked
    && (forall j {:trigger Answered(s.cfg, s.subs, j)} :: 0 <= j < |s.subs| && j != i ==> Answered(s.cfg, s.subs, j))
    && s.run.status != RunPending && s.run.subtaskIds == Ids(|s.subs|)
    && (forall e :: e in s.log && e.RunTerminal? ==> e.status == s.run.status && e.status.Final())
    && (s.run.status.Final() ==>
         s.run.status == RunFailed && exists f :: 0 <= f < |s.subs| && f != i && UncoveredFailure(s.subs, f))
  }

  lemma FinishLeavesUnanswered(s: State, i: nat, o: Outcome)
    requires Inv(s) && i < |s.subs| && s.subs[i].status.Active() && SubtaskAssigned(i) in s.log
    ensures Unanswered(Finish(s, i, o), i)
  {
    var s' := Finish(s, i, o);
    FinishAdvances(s, i, o);
    AdvanceKeepsCore(s.cfg, s.subs, s'.subs);
    FinishKeepsHistory(s, i, o);
    assert Credible(s.subs[i]);
    if s.run.status.Final() {
      assert AnyPending(s.subs);
      var f := BrokenHasFailure(s.subs);
      if Covered(s'.subs, f) { AdvanceCoverage(s.subs, s'.subs, f); }
      assert UncoveredFailure(s'.subs, f);
    }
    forall j: nat | j < |s'.subs| && j != i
      ensures Answered(s.cfg, s'.subs, j)
    {
      assert Answered(s.cfg, s.subs, j);
      SameAnswer(s.cfg, s.subs, s'.subs, j);
    }
  }

  lemma RespondRestoresInv(s: State, i: nat, t: Option<nat>)
    requires Unanswered(s, i)
    requires if ReworkDue(s.cfg, s.subs[i]) then FirstTarget(s.subs, i, t) else t == None
    ensures Inv(Respond(s, i, t))
  {
    if ReworkDue(s.cfg, s.subs[i]) {
      if t.Some? {
        ReworkRestoresInv(s, i, t.value);
      } else {
        StandsAsInv(s, i);
      }
    } else if RepairDue(s.cfg, s.subs[i]) {
      RepairRestoresInv(s, i);
    } else {
      StandsAsInv(s, i);
    }
  }

  lemma ReworkRestoresInv(s: State, i: nat, t: nat)
    requires Unanswered(s, i) && ReworkDue(s.cfg, s.subs[i]) && FirstTarget(s.subs, i, Some(t))
    ensures t < |s.subs| && Inv(SpliceRework(s, i, t))
  {
    TargetSucceeded(s.subs, i, t);
    ReworkKeepsCore(s, i, t);
    ReworkSplices(s, i, t);
    SpliceRestoresInv(s, i, SpliceRework(s, i, t), ReworkRequested(i));
  }

  lemma RepairRestoresInv(s: State, i: nat)
    requires Unanswered(s, i) && RepairDue(s.cfg, s.subs[i])
    ensures Inv(SpliceRepair(s, i))
  {
    RepairKeepsCore(s, i);
    RepairSplices(s, i);
    SpliceRestoresInv(s, i, SpliceRepair(s, i), RepairRequested(i));
  }

  lemma StandsAsInv(s: State, i: nat)
    requires Unanswered(s, i) && Answered(s.cfg, s.subs, i)
    ensures Inv(s)
  {
  }

  lemma SpliceRestoresInv(s: State, i: nat, s': State, e: Event)
    requires Unanswered(s, i) && Core(s.cfg, s'.subs) && Splices(s.cfg, s.subs, i, s'.subs)
    requires e == if s'.subs[i].repaired then RepairRequested(i) else ReworkRequested(i)
    requires s' == s.(subs := s'.subs, run := Attach(s.run, |s.subs|), log := s.log + [e])
    ensures Inv(s')
  {
    hide Unanswered, Splices, Core, AllAnswered, VerdictHolds, HistoryTold, HistoryOrdered, Ids;
    SpliceRestoresList(s, i, s');
    SpliceRestoresAnswers(s, i, s');
    SpliceRestoresHistory(s, i, s', e);
    SpliceRestoresVerdict(s, i, s', e);
  }

  lemma SpliceRestoresList(s: State, i: nat, s': State)
    requires Unanswered(s, i) && Splices(s.cfg, s.subs, i, s'.subs) && s'.run == Attach(s.run, |s.subs|)
    ensures s'.run.subtaskIds == Ids(|s'.subs|)
  {
  }

  lemma SpliceRestoresAnswers(s: State, i: nat, s': State)
    requires Unanswered(s, i) && Splices(s.cfg, s.subs, i, s'.subs)
    ensures AllAnswered(s.cfg, s'.subs)
  {
    assert Closed(s.subs);
    hide Splices, Closed;
    SpliceKeepsAnswers(s.cfg, s.subs, i, s'.subs);
  }

  lemma SpliceRestoresHistory(s: State, i: nat, s': State, e: Event)
    requires Unanswered(s, i) && Splices(s.cfg, s.subs, i, s'.subs) && s'.log == s.log + [e]
    requires e == if s'.subs[i].repaired then RepairRequested(i) else ReworkRequested(i)
    ensures HistoryTold(s'.subs, s'.log) && HistoryOrdered(s'.subs, s'.log)
  {
    hide Splices, HistoryTold, HistoryOrdered, Core;
    SpliceKeepsHistory(s.cfg, s.subs, i, s'.subs, s.log, e);
  }

  lemma SpliceRestoresVerdict(s: State, i: nat, s': State, e: Event)
    requires Unanswered(s, i) && Splices(s.cfg, s.subs, i, s'.subs)
    requires s'.run.status == s.run.status && s'.log == s.log + [e] && (e.RepairRequested? || e.ReworkRequested?)
    ensures VerdictHolds(s')
  {
    if s.run.status.Final() {
      var f :| 0 <= f < |s.subs| && f != i && UncoveredFailure(s.subs, f);
      SpliceKeepsBroken(s.cfg, s.subs, i, s'.subs, f);
    }
  }

  lemma ActionKeepsInv(s: State, a: Action)
    requires Inv(s) && Enabled(s, a)
    ensures Inv(Apply(s, a)) && Apply(s, a).cfg == s.cfg
  {
    match a
    case Dispatches => DispatchKeepsInv(s);
    case Delivers(i) => DeliverKeepsInv(s, i);
    case Begins(i, status) => BeginKeepsInv(s, i, status);
    case Concludes(i, o, t) =>
      FinishLeavesUnanswered(s, i, o);
      RespondRestoresInv(Finish(s, i, o), i, t);
    case Reconciles => ReconcileKeepsInv(s);
  }

  lemma {:induction false} RunKeepsInv(s: State, acts: seq<Action>)
    requires Inv(s) && Legal(s, acts)
    ensures Inv(Perform(s, acts)) && Perform(s, acts).cfg == s.cfg
    decreases |acts|
  {
    if acts != [] {
      ActionKeepsInv(s, acts[0]);
      RunKeepsInv(Apply(s, acts[0]), acts[1..]);
    }
  }

  /** Every state of every run of every plan satisfies the invariant. */
  lemma ReachableHasInv(cfg: Config, plan: seq<Sub>, s: State)
    requires IsPlan(plan) && cfg.planned == |plan| && Reaches(Start(cfg, plan), s)
    ensures Inv(s) && s.cfg == cfg
  {
    StartHasInv(cfg, plan);
    var acts :| Legal(Start(cfg, plan), acts) && Perform(Start(cfg, plan), acts) == s;
    RunKeepsInv(Start(cfg, plan), acts);
  }
}
