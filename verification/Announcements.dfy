/** What a run reports about its end: how often it is announced, and which cause is named. */
module Announcements {
  import opened Basics
  import opened SubTasks
  import opened DependencyGraph
  import opened Protocol
  import opened Invariant
  import opened Runs
  import opened Guarantees

  /** How many terminal events stand in the history. */
  function Terminals(log: seq<Event>): nat {
    if log == [] then 0 else Terminals(log[..|log| - 1]) + if log[|log| - 1].RunTerminal? then 1 else 0
  }

  lemma {:induction false} TerminalsOfConcat(a: seq<Event>, b: seq<Event>)
    ensures Terminals(a + b) == Terminals(a) + Terminals(b)
    decreases |b|
  {
    if b == [] {
      assert a + b == a;
    } else {
      TerminalsOfConcat(a, b[..|b| - 1]);
      assert (a + b)[..|a + b| - 1] == a + b[..|b| - 1];
    }
  }

  lemma {:induction false} TerminalsAbsent(log: seq<Event>)
    ensures Terminals(log) == 0 <==> forall e <- log :: !e.RunTerminal?
  {
    if log != [] {
      TerminalsAbsent(log[..|log| - 1]);
      assert log == log[..|log| - 1] + [log[|log| - 1]];
    }
  }

  lemma TerminalsOfAnnouncement(run: RunRecord, task: TaskRecord, run': RunRecord, task': TaskRecord)
    ensures Terminals(Announcement(run, task, run', task')) ==
      if run'.status.Final() && !(run.status == run'.status && run.phase == run'.phase && task == task') then 1 else 0
  {
    var updated, terminal, summary :=
      RunUpdated(run'.status, run'.phase, task'.status), RunTerminal(run'.status), RunSummary(run'.status);
    TerminalsOfOne(updated);
    TerminalsOfOne(terminal);
    TerminalsOfOne(summary);
    assert [terminal] + [summary] == [terminal, summary] && [updated] + [] == [updated];
    TerminalsOfConcat([terminal], [summary]);
    TerminalsOfConcat([updated], [terminal, summary]);
  }

  lemma TerminalsOfOne(e: Event)
    ensures Terminals([e]) == if e.RunTerminal? then 1 else 0
  {
  }

  // ---------------------------------------------------------------- the records of an ended run

  /** The cause that a failed run names: an uncovered failure, or an open rework decision in a run that
      has ended entirely. */
  ghost predicate Blames(subs: seq<Sub>, cause: Cause) {
    match cause
    case NoCause => false
    case FailureOf(f) => f < |subs| && UncoveredFailure(subs, f)
    case UnresolvedRework(r) =>
      r < |subs| && ReworkUnresolved(subs[r]) && Judge(subs) == OutOfRework && r == FirstUnresolved(subs, 0)
  }

  predicate Untouched(subs: seq<Sub>) {
    forall i | 0 <= i < |subs| :: subs[i].status == Queued
  }

  /** What the records of a run look like.  A failed run whose task runs again has been dispatched since
      it was last reconciled; a run still being coordinated has not even begun. */
  ghost predicate Filed(s: State) {
    match s.run.status
    case RunPending => false
    case RunRunning =>
      && Terminals(s.log) == 0 && s.run.error == NoCause && s.task.error == NoCause
      && ((s.run.phase == Phase.Executing && s.task.status == TaskRunning) ||
          (s.run.phase == Coordinating && s.task.status == TaskPlanning && Untouched(s.subs)))
    case RunSucceeded =>
      && Terminals(s.log) == 1 && s.run.error == NoCause && s.task.error == NoCause
      && s.run.phase == Delivering && s.task.status == TaskSucceeded
    case RunFailed =>
      && Blames(s.subs, s.run.error) && Blames(s.subs, s.task.error)
      && ((s.run.phase == Reviewing && s.task.status == TaskFailed) ||
          (s.run.phase == Phase.Executing && s.task.status == TaskRunning))
  }

  lemma FirstUnresolvedExists(subs: seq<Sub>, k: nat)
    requires k <= |subs| && exists i :: k <= i < |subs| && ReworkUnresolved(subs[i])
    ensures var r := FirstUnresolved(subs, k); k <= r < |subs| && ReworkUnresolved(subs[r])
    decreases |subs| - k
  {
  }

  /** The failure named is the first uncovered one. */
  lemma FirstFailedIsLeast(subs: seq<Sub>, k: nat)
    requires k <= |subs| && exists i :: k <= i < |subs| && UncoveredFailure(subs, i)
    ensures var f := FirstFailed(subs, k);
      k <= f < |subs| && UncoveredFailure(subs, f) && forall i :: k <= i < f ==> !UncoveredFailure(subs, i)
    decreases |subs| - k
  {
  }

  lemma JudgedCause(subs: seq<Sub>, run: RunRecord, task: TaskRecord)
    requires AllCredible(subs) && (Judge(subs) == Broken || Judge(subs) == OutOfRework)
    ensures var cause := if Judge(subs) == Broken then FailureOf(FirstFailed(subs, 0))
      else UnresolvedRework(FirstUnresolved(subs, 0));
      NextRun(subs, run) == FailRun(run, cause) && NextTask(subs, task) == FailTask(task, cause) && Blames(subs, cause)
  {
    if Judge(subs) == Broken {
      var f := BrokenHasFailure(subs);
      FirstFailedIsLeast(subs, 0);
    } else {
      FirstUnresolvedExists(subs, 0);
    }
  }

  lemma ReconcileRecords(s: State)
    ensures var s' := Reconcile(s);
      s'.cfg == s.cfg && s'.subs == s.subs && s'.run == NextRun(s.subs, s.run) && s'.task == NextTask(s.subs, s.task)
  {
  }

  lemma ReconcileReports(s: State)
    ensures var s' := Reconcile(s);
      var same := s.run.status == s'.run.status && s.run.phase == s'.run.phase && s.task == s'.task;
      Terminals(s'.log) == Terminals(s.log) + if s'.run.status.Final() && !same then 1 else 0
  {
    var s' := Reconcile(s);
    hide Terminals, NextRun, NextTask;
    TerminalsOfConcat(s.log, Announcement(s.run, s.task, s'.run, s'.task));
    TerminalsOfAnnouncement(s.run, s.task, s'.run, s'.task);
  }

  lemma ReconcileFiles(s: State)
    requires Inv(s) && Filed(s)
    ensures Filed(Reconcile(s))
  {
    var s' := Reconcile(s);
    ReconcileReports(s);
    assert VerdictHolds(s) && AllCredible(s.subs);
    hide Inv, Announcement, Judge, Terminals, Reconcile, Untouched;
    ReconcileRecords(s);
    if Judge(s.subs) == Broken || Judge(s.subs) == OutOfRework {
      JudgedCause(s.subs, s.run, s.task);
    }
  }

  // ---------------------------------------------------------------- no action spoils the records

  /** A run that has ended entirely does not move any more. */
  lemma EndedDoesNotMove(s: State, a: Action)
    requires Inv(s) && Enabled(s, a) && !AnyPending(s.subs)
    ensures a.Dispatches? || a.Reconciles?
    ensures a.Dispatches? ==> Apply(s, a) == s
  {
    forall i: nat | i < |s.subs|
      ensures s.subs[i].status.Terminal()
    {
    }
  }

  lemma RespondCovers(m: State, i: nat, t: Option<nat>, f: nat)
    requires Unanswered(m, i) && f < |m.subs| && f != i && m.subs[f].status == Failed
    requires if ReworkDue(m.cfg, m.subs[i]) then FirstTarget(m.subs, i, t) else t == None
    requires Covered(Respond(m, i, t).subs, f)
    ensures Covered(m.subs, f)
  {
    if ReworkDue(m.cfg, m.subs[i]) {
      if t.Some? {
        TargetSucceeded(m.subs, i, t.value);
        ReworkSplices(m, i, t.value);
        SpliceCoverage(m.cfg, m.subs, i, SpliceRework(m, i, t.value).subs, f);
      }
    } else if RepairDue(m.cfg, m.subs[i]) {
      RepairSplices(m, i);
      SpliceCoverage(m.cfg, m.subs, i, SpliceRepair(m, i).subs, f);
    }
  }

  lemma ConcludeCovers(s: State, i: nat, o: Outcome, t: Option<nat>, f: nat)
    requires Inv(s) && Enabled(s, Concludes(i, o, t)) && f < |s.subs| && s.subs[f].status == Failed
    requires Covered(Apply(s, Concludes(i, o, t)).subs, f)
    ensures Covered(s.subs, f)
  {
    var m := Finish(s, i, o);
    FinishAdvances(s, i, o);
    assert m.subs[f] == s.subs[f];
    assert Covered(m.subs, f) by {
      FinishLeavesUnanswered(s, i, o);
      RespondCovers(m, i, t, f);
    }
    AdvanceCoverage(s.subs, m.subs, f);
  }

  /** No action covers a failure that was there before. */
  lemma ActionCovers(s: State, a: Action, f: nat)
    requires Inv(s) && Enabled(s, a) && f < |s.subs| && s.subs[f].status == Failed && Covered(Apply(s, a).subs, f)
    ensures Covered(s.subs, f)
  {
    match a
    case Dispatches =>
      DispatchAdvances(s.subs);
      if SomeReady(s.subs) { AdvanceCoverage(s.subs, AssignReady(s.subs), f); }
    case Delivers(i) =>
    case Begins(i, status) =>
      BeginAdvances(s, i, status);
      AdvanceCoverage(s.subs, Begin(s, i, status).subs, f);
    case Concludes(i, o, t) => ConcludeCovers(s, i, o, t, f);
    case Reconciles =>
  }

  lemma CausesStay(s: State, a: Action, cause: Cause)
    requires Inv(s) && Enabled(s, a) && Blames(s.subs, cause)
    ensures Blames(Apply(s, a).subs, cause)
  {
    ActionGrows(s, a);
    if cause.UnresolvedRework? {
      EndedDoesNotMove(s, a);
    } else if Covered(Apply(s, a).subs, cause.id) {
      ActionCovers(s, a, cause.id);
    }
  }

  lemma RespondReports(s: State, i: nat, t: Option<nat>)
    requires i < |s.subs|
    ensures var s' := Respond(s, i, t);
      && s'.run.status == s.run.status && s'.run.phase == s.run.phase && s'.run.error == s.run.error &&
           s'.task == s.task
      && Terminals(s'.log) == Terminals(s.log)
  {
    TerminalsOfConcat(s.log, [ReworkRequested(i)]);
    TerminalsOfConcat(s.log, [RepairRequested(i)]);
    TerminalsOfOne(ReworkRequested(i));
    TerminalsOfOne(RepairRequested(i));
  }

  /** Only a dispatch and a reconciliation touch the records. */
  lemma OthersReportNothing(s: State, a: Action)
    requires Enabled(s, a) && !a.Dispatches? && !a.Reconciles?
    ensures var s' := Apply(s, a);
      && s'.run.status == s.run.status && s'.run.phase == s.run.phase && s'.run.error == s.run.error &&
           s'.task == s.task
      && Terminals(s'.log) == Terminals(s.log)
  {
    match a
    case Delivers(i) => TerminalsOfConcat(s.log, [SubtaskAssigned(i)]);
    case Begins(_, _) =>
    case Concludes(i, o, t) =>
      var m := Finish(s, i, o);
      var e := if m.subs[i].status == Succeeded then SubtaskCompleted(i) else SubtaskFailed(i);
      TerminalsOfConcat(s.log, [e]);
      TerminalsOfOne(e);
      RespondReports(m, i, t);
  }

  lemma ActionKeepsFiled(s: State, a: Action)
    requires Inv(s) && Enabled(s, a) && Filed(s)
    ensures Filed(Apply(s, a))
  {
    if a.Reconciles? {
      ReconcileFiles(s);
    } else {
      if s.run.status == RunSucceeded {
        EndedDoesNotMove(s, a);
      }
      if s.run.status == RunFailed {
        CausesStay(s, a, s.run.error);
        CausesStay(s, a, s.task.error);
      }
      if a.Dispatches? {
        hide Inv, Blames, Terminals, Untouched, SomeReady;
      } else {
        WorkIsNotUntouched(s, a);
        OthersReportNothing(s, a);
        hide Inv, Blames, Terminals, Untouched, Apply, Enabled;
      }
    }
  }

  lemma WorkIsNotUntouched(s: State, a: Action)
    requires Enabled(s, a) && !a.Dispatches? && !a.Reconciles?
    ensures !Untouched(s.subs)
  {
  }

  lemma {:induction false} RunKeepsFiled(s: State, acts: seq<Action>)
    requires Inv(s) && Legal(s, acts) && Filed(s)
    ensures Filed(Perform(s, acts))
    decreases |acts|
  {
    if acts != [] {
      ActionKeepsFiled(s, acts[0]);
      ActionKeepsInv(s, acts[0]);
      RunKeepsFiled(Apply(s, acts[0]), acts[1..]);
    }
  }

  lemma ReachableIsFiled(cfg: Config, plan: seq<Sub>, s: State)
    requires IsPlan(plan) && cfg.planned == |plan| && Reaches(Start(cfg, plan), s)
    ensures Filed(s)
  {
    StartHasInv(cfg, plan);
    TerminalsAbsent(Start(cfg, plan).log);
    var acts :| Legal(Start(cfg, plan), acts) && Perform(Start(cfg, plan), acts) == s;
    RunKeepsFiled(Start(cfg, plan), acts);
  }

  // ---------------------------------------------------------------- how often the end is announced

  /** How many of the reconciliations among `acts` come after a dispatch that found something ready;
      `since` says whether there was one before. */
  ghost function Redispatches(s: State, acts: seq<Action>, since: bool): nat
    requires Legal(s, acts)
    decreases |acts|
  {
    if acts == [] then 0
    else
      var s', rest := Apply(s, acts[0]), acts[1..];
      match acts[0]
      case Dispatches => Redispatches(s', rest, since || SomeReady(s.subs))
      case Reconciles => (if since then 1 else 0) + Redispatches(s', rest, false)
      case _ => Redispatches(s', rest, since)
  }

  lemma FailedReconcile(s: State)
    requires Inv(s) && Filed(s) && s.run.status == RunFailed
    ensures var s' := Reconcile(s);
      && s'.run.phase == Reviewing
      && Terminals(s'.log) == Terminals(s.log) + if s.run.phase == Phase.Executing then 1 else 0
  {
    var s' := Reconcile(s);
    JudgedCause(s.subs, s.run, s.task);
    TerminalsOfConcat(s.log, Announcement(s.run, s.task, s'.run, s'.task));
    TerminalsOfAnnouncement(s.run, s.task, s'.run, s'.task);
  }

  lemma {:induction false} FailedRunRepeats(s: State, acts: seq<Action>)
    requires Inv(s) && Legal(s, acts) && Filed(s) && s.run.status == RunFailed
    ensures Terminals(Perform(s, acts).log) ==
      Terminals(s.log) + Redispatches(s, acts, s.run.phase == Phase.Executing)
    decreases |acts|
  {
    if acts != [] {
      var a, s' := acts[0], Apply(s, acts[0]);
      ActionKeepsFiled(s, a);
      ActionKeepsVerdict(s, a);
      ActionKeepsInv(s, a);
      hide Inv, Blames, Terminals, Enabled;
      if a.Reconciles? {
        FailedReconcile(s);
      } else if !a.Dispatches? {
        OthersReportNothing(s, a);
      }
      FailedRunRepeats(s', acts[1..]);
    }
  }

  /** A succeeded run has announced its end exactly once. */
  lemma SuccessAnnouncedOnce(cfg: Config, plan: seq<Sub>, s: State)
    requires IsPlan(plan) && cfg.planned == |plan| && Reaches(Start(cfg, plan), s) && s.run.status == RunSucceeded
    ensures Terminals(s.log) == 1
  {
    ReachableIsFiled(cfg, plan, s);
  }

  /** A failed run announces its end when it fails, and again at every reconciliation that follows
      another dispatch -- as long as it still has independent subtasks to hand out. */
  lemma FailureAnnouncedAgainIff(cfg: Config, plan: seq<Sub>, r: State, acts: seq<Action>)
    requires IsPlan(plan) && cfg.planned == |plan| && Reaches(Start(cfg, plan), r) && !r.run.status.Final()
    requires Reconcile(r).run.status == RunFailed && Legal(Reconcile(r), acts)
    ensures Terminals(Perform(Reconcile(r), acts).log) == 1 + Redispatches(Reconcile(r), acts, false)
  {
    var s := Reconcile(r);
    ReachableHasInv(cfg, plan, r);
    ReachableIsFiled(cfg, plan, r);
    ReconcileKeepsInv(r);
    ReconcileFiles(r);
    assert s.run.phase == Reviewing;
    TerminalsOfConcat(r.log, Announcement(r.run, r.task, s.run, s.task));
    TerminalsOfAnnouncement(r.run, r.task, s.run, s.task);
    FailedRunRepeats(s, acts);
  }

  // ---------------------------------------------------------------- which cause is named

  lemma {:induction false} FailedRunKeepsError(s: State, acts: seq<Action>)
    requires Inv(s) && Legal(s, acts) && s.run.status == RunFailed
    ensures Perform(s, acts).run.error == s.run.error
    decreases |acts|
  {
    if acts != [] {
      var a, s' := acts[0], Apply(s, acts[0]);
      if a.Reconciles? {
        JudgedCause(s.subs, s.run, s.task);
      } else if !a.Dispatches? {
        OthersReportNothing(s, a);
      }
      ActionKeepsVerdict(s, a);
      ActionKeepsInv(s, a);
      FailedRunKeepsError(s', acts[1..]);
    }
  }

  /** A failed run names as its cause a failure that is uncovered, or a rework decision that is open, in every later
      state as well; and it never names another one. */
  lemma ErrorIsStable(cfg: Config, plan: seq<Sub>, s: State, t: State)
    requires IsPlan(plan) && cfg.planned == |plan| && Reaches(Start(cfg, plan), s) && Reaches(s, t)
    requires s.run.status == RunFailed
    ensures t.run.error == s.run.error && Blames(t.subs, s.run.error)
  {
    ReachableHasInv(cfg, plan, s);
    var acts :| Legal(s, acts) && Perform(s, acts) == t;
    FailedRunKeepsError(s, acts);
    ReachesTransitive(Start(cfg, plan), s, t);
    ReachableIsFiled(cfg, plan, t);
    VerdictIsStable(cfg, plan, s, t);
  }

  /** The cause that the task names is found anew after every dispatch, the run's is not.  After a
      reconciliation that follows a dispatch the two causes differ if and only if a subtask created before
      the one that the run names has failed uncovered in the meantime. */
  lemma ErrorsDifferIff(cfg: Config, plan: seq<Sub>, s: State)
    requires IsPlan(plan) && cfg.planned == |plan| && Reaches(Start(cfg, plan), s)
    requires s.run.status == RunFailed && s.task.status == TaskRunning
    ensures var t := Reconcile(s);
      t.task.error != t.run.error <==>
        t.run.error.FailureOf? && exists f: nat :: f < |s.subs| && f < t.run.error.id && UncoveredFailure(s.subs, f)
  {
    ReachableHasInv(cfg, plan, s);
    ReachableIsFiled(cfg, plan, s);
    JudgedCause(s.subs, s.run, s.task);
    if s.run.error.FailureOf? {
      assert UncoveredFailure(s.subs, s.run.error.id);
      FirstFailedIsLeast(s.subs, 0);
    }
  }
}
