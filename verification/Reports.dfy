/** What the history says about the run itself: it begins with the plan, every update reports the
    records as a reconciliation left them, and a final one is followed at once by the run's end and its
    summary. */
module Reports {
  import opened Basics
  import opened SubTasks
  import opened Protocol
  import opened Invariant
  import opened Runs
  import opened Guarantees
  import opened Announcements

  // ---------------------------------------------------------------- the shape of the history

  function FinalPhase(status: RunStatus): Phase {
    if status == RunSucceeded then Delivering else Reviewing
  }

  function FinalTask(status: RunStatus): TaskStatus {
    if status == RunSucceeded then TaskSucceeded else TaskFailed
  }

  /** An update, a terminal event and a summary of one final status stand next to each other at `p`. */
  ghost predicate EndsAt(log: seq<Event>, p: nat, status: RunStatus) {
    && p + 2 < |log| && log[p] == RunUpdated(status, FinalPhase(status), FinalTask(status))
    && log[p + 1] == RunTerminal(status) && log[p + 2] == RunSummary(status)
  }

  /** What stands at `p` may stand there. */
  ghost predicate InPlace(log: seq<Event>, p: nat)
    requires p < |log|
  {
    match log[p]
    case PlanningCompleted => p == 0
    case RunUpdated(status, phase, taskStatus) =>
      if status.Final() then EndsAt(log, p, status)
      else status == RunRunning && phase == Phase.Executing && taskStatus == TaskRunning
    case RunTerminal(status) => p >= 1 && EndsAt(log, p - 1, status)
    case RunSummary(status) => p >= 2 && EndsAt(log, p - 2, status)
    case _ => p > 0
  }

  ghost predicate WellReported(log: seq<Event>) {
    log != [] && forall p: nat :: p < |log| ==> InPlace(log, p)
  }

  /** The last that is said of the run is its end. */
  ghost predicate EndsWith(log: seq<Event>, p: nat, status: RunStatus) {
    EndsAt(log, p, status) && forall q :: p + 2 < q < |log| ==> !AboutRun(log[q])
  }

  ghost predicate Reported(s: State) {
    WellReported(s.log) && (s.run.status.Final() ==> exists p: nat :: EndsWith(s.log, p, s.run.status))
  }

  // ---------------------------------------------------------------- growing

  lemma StaysInPlace(log: seq<Event>, more: seq<Event>, p: nat)
    requires p < |log| && InPlace(log, p)
    ensures InPlace(log + more, p)
  {
  }

  lemma OtherEventIsInPlace(log: seq<Event>, e: Event)
    requires WellReported(log) && !AboutRun(e)
    ensures WellReported(log + [e])
    ensures forall p: nat, status :: EndsWith(log, p, status) ==> EndsWith(log + [e], p, status)
  {
    forall p: nat | p < |log|
      ensures InPlace(log + [e], p)
    {
      StaysInPlace(log, [e], p);
    }
  }

  lemma EndIsInPlace(log: seq<Event>, status: RunStatus)
    requires WellReported(log) && status.Final()
    ensures var end := [RunUpdated(status, FinalPhase(status), FinalTask(status)), RunTerminal(status),
      RunSummary(status)];
      WellReported(log + end) && EndsWith(log + end, |log|, status)
  {
    var end := [RunUpdated(status, FinalPhase(status), FinalTask(status)), RunTerminal(status), RunSummary(status)];
    var n, log' := |log|, log + end;
    assert log'[n] == end[0] && log'[n + 1] == end[1] && log'[n + 2] == end[2];
    forall p: nat | p < |log'|
      ensures InPlace(log', p)
    {
      if p < n { StaysInPlace(log, end, p); }
    }
  }

  lemma UpdateIsInPlace(log: seq<Event>)
    requires WellReported(log)
    ensures WellReported(log + [RunUpdated(RunRunning, Phase.Executing, TaskRunning)])
  {
    var update := [RunUpdated(RunRunning, Phase.Executing, TaskRunning)];
    forall p: nat | p < |log + update|
      ensures InPlace(log + update, p)
    {
      if p < |log| { StaysInPlace(log, update, p); }
    }
  }

  // ---------------------------------------------------------------- every action

  /** A reconciliation reports what it has just found. */
  lemma AnnouncementIs(s: State)
    requires Inv(s) && Filed(s)
    ensures var s' := Reconcile(s);
      var status := s'.run.status;
      if s.run.status == status && s.run.phase == s'.run.phase && s.task == s'.task then s'.log == s.log
      else if status.Final() then
        s'.log == s.log + [RunUpdated(status, FinalPhase(status), FinalTask(status)), RunTerminal(status),
          RunSummary(status)]
      else s'.log == s.log + [RunUpdated(RunRunning, Phase.Executing, TaskRunning)]
  {
    var s' := Reconcile(s);
    ReconcileFiles(s);
    ReconciledPhase(s);
    hide Inv, Filed, NextRun, NextTask, FinalPhase, FinalTask;
    var status := s'.run.status;
    assert [RunUpdated(status, s'.run.phase, s'.task.status)] + [RunTerminal(status), RunSummary(status)] ==
      [RunUpdated(status, s'.run.phase, s'.task.status), RunTerminal(status), RunSummary(status)];
    assert [RunUpdated(status, s'.run.phase, s'.task.status)] + [] == [RunUpdated(status, s'.run.phase,
      s'.task.status)];
  }

  lemma ReconciledPhase(s: State)
    requires Inv(s) && Filed(s)
    ensures var s' := Reconcile(s);
      var status := s'.run.status;
      if status.Final() then s'.run.phase == FinalPhase(status) && s'.task.status == FinalTask(status)
      else status == RunRunning && s'.run.phase == Phase.Executing && s'.task.status == TaskRunning
  {
    ReconcileFiles(s);
    assert VerdictHolds(s);
  }

  lemma ReconcileIsReported(s: State)
    requires Inv(s) && Filed(s) && Reported(s)
    ensures Reported(Reconcile(s))
  {
    AnnouncementIs(s);
    var s' := Reconcile(s);
    var status := s'.run.status;
    if s.run.status.Final() { ActionKeepsVerdict(s, Reconciles); }
    hide Inv, Filed, WellReported, EndsWith, Reconcile;
    if s'.log != s.log {
      if status.Final() {
        EndIsInPlace(s.log, status);
      } else {
        UpdateIsInPlace(s.log);
      }
    }
  }

  /** Other actions say nothing about the run. */
  lemma OtherActionsAreReported(s: State, a: Action)
    requires Inv(s) && Enabled(s, a) && Reported(s) && !a.Reconciles?
    ensures Reported(Apply(s, a))
  {
    match a
    case Dispatches =>
    case Delivers(i) => OtherEventIsInPlace(s.log, SubtaskAssigned(i));
    case Begins(_, _) =>
    case Concludes(i, o, t) =>
      var m := Finish(s, i, o);
      var e := if m.subs[i].status == Succeeded then SubtaskCompleted(i) else SubtaskFailed(i);
      OtherEventIsInPlace(s.log, e);
      AnswerIsReported(m, i, t);
  }

  lemma AnswerIsReported(m: State, i: nat, t: Option<nat>)
    requires i < |m.subs| && Reported(m)
    ensures Reported(Respond(m, i, t))
  {
    OtherEventIsInPlace(m.log, ReworkRequested(i));
    OtherEventIsInPlace(m.log, RepairRequested(i));
  }

  lemma {:induction false} RunIsReported(s: State, acts: seq<Action>)
    requires Inv(s) && Legal(s, acts) && Filed(s) && Reported(s)
    ensures Reported(Perform(s, acts))
    decreases |acts|
  {
    if acts != [] {
      var a := acts[0];
      if a.Reconciles? {
        ReconcileIsReported(s);
      } else {
        OtherActionsAreReported(s, a);
      }
      ActionKeepsFiled(s, a);
      ActionKeepsInv(s, a);
      RunIsReported(Apply(s, a), acts[1..]);
    }
  }

  lemma ReachableIsReported(cfg: Config, plan: seq<Sub>, s: State)
    requires IsPlan(plan) && cfg.planned == |plan| && Reaches(Start(cfg, plan), s)
    ensures Reported(s)
  {
    StartHasInv(cfg, plan);
    ReachableIsFiled(cfg, plan, Start(cfg, plan)) by { ReachesSelf(Start(cfg, plan)); }
    var acts :| Legal(Start(cfg, plan), acts) && Perform(Start(cfg, plan), acts) == s;
    RunIsReported(Start(cfg, plan), acts);
  }

  // ---------------------------------------------------------------- what a reader of the history can rely on

  /** The history begins with the plan; an update reports a running run, or a final status together with
      the phase and task status that belong to it, and then the end and the summary follow at once; no
      end and no summary stands anywhere else. */
  lemma HistoryIsWellReported(cfg: Config, plan: seq<Sub>, s: State, p: nat)
    requires IsPlan(plan) && cfg.planned == |plan| && Reaches(Start(cfg, plan), s) && p < |s.log|
    ensures s.log[p] == PlanningCompleted <==> p == 0
    ensures InPlace(s.log, p)
  {
    ReachableIsReported(cfg, plan, s);
    StartIsFirst(cfg, plan, s);
    assert InPlace(s.log, p);
  }

  lemma StartIsFirst(cfg: Config, plan: seq<Sub>, s: State)
    requires IsPlan(plan) && cfg.planned == |plan| && Reaches(Start(cfg, plan), s)
    ensures s.log != [] && s.log[0] == PlanningCompleted
  {
    ReachesSelf(Start(cfg, plan));
    VerdictIsStable(cfg, plan, Start(cfg, plan), s);
  }

  /** When a run has ended and is reconciled, the last update reports exactly the records of run and
      task, end and summary follow it at once, and nothing more is said of the run. */
  lemma EndIsReported(cfg: Config, plan: seq<Sub>, s: State) returns (p: nat)
    requires IsPlan(plan) && cfg.planned == |plan| && Reaches(Start(cfg, plan), s)
    requires s.run.status.Final() && Reconcile(s) == s
    ensures p + 2 < |s.log| && s.log[p] == RunUpdated(s.run.status, s.run.phase, s.task.status)
    ensures s.log[p + 1] == RunTerminal(s.run.status) && s.log[p + 2] == RunSummary(s.run.status)
    ensures forall q :: p + 2 < q < |s.log| ==> !AboutRun(s.log[q])
  {
    ReachableIsReported(cfg, plan, s);
    ReachableHasInv(cfg, plan, s);
    ReachableIsFiled(cfg, plan, s);
    ReconciledPhase(s);
    p :| EndsWith(s.log, p, s.run.status);
  }

  // ---------------------------------------------------------------- the records

  /** Run and task records only ever stand in one of these ways to each other. */
  lemma RecordsAreExact(cfg: Config, plan: seq<Sub>, s: State)
    requires IsPlan(plan) && cfg.planned == |plan| && Reaches(Start(cfg, plan), s)
    ensures match s.run.status
      case RunPending => false
      case RunRunning =>
        && s.run.error == NoCause && s.task.error == NoCause
        && ((s.run.phase == Phase.Executing && s.task.status == TaskRunning) ||
            (s.run.phase == Coordinating && s.task.status == TaskPlanning && Untouched(s.subs)))
      case RunSucceeded =>
        s.run.phase == Delivering && s.run.error == NoCause && s.task == TaskRecord(TaskSucceeded, NoCause)
      case RunFailed =>
        && s.run.error != NoCause && s.task.error != NoCause
        && ((s.run.phase == Reviewing && s.task.status == TaskFailed) ||
            (s.run.phase == Phase.Executing && s.task.status == TaskRunning))
  {
    ReachableIsFiled(cfg, plan, s);
  }

  // ---------------------------------------------------------------- the verdict, from the subtasks alone

  ghost predicate SomeUnrepaired(subs: seq<Sub>) {
    exists f: nat :: f < |subs| && subs[f].status == Failed && !subs[f].repaired
  }

  ghost predicate SomeWaiting(subs: seq<Sub>) {
    exists i: nat :: i < |subs| && !subs[i].status.Terminal()
  }

  ghost predicate SomeOpenRework(subs: seq<Sub>) {
    exists r: nat :: r < |subs| && AskedForRework(subs[r]) && !subs[r].reworked
  }

  /** A reconciliation fails the run exactly if some failure was not repaired, or everything has ended
      with a rework decision that was not carried out; it succeeds exactly if everything has ended and
      neither is the case. */
  lemma ReconcileIsExact(cfg: Config, plan: seq<Sub>, s: State)
    requires IsPlan(plan) && cfg.planned == |plan| && Reaches(Start(cfg, plan), s)
    ensures var t, subs := Reconcile(s), s.subs;
      && (t.run.status == RunFailed <==> SomeUnrepaired(subs) || (!SomeWaiting(subs) && SomeOpenRework(subs)))
      && (t.run.status == RunSucceeded <==> !SomeUnrepaired(subs) && !SomeWaiting(subs) && !SomeOpenRework(subs))
      && (t.task.status == TaskFailed <==> t.run.status == RunFailed)
      && (t.task.status == TaskSucceeded <==> t.run.status == RunSucceeded)
  {
    ReachableHasInv(cfg, plan, s);
    ReachableIsFiled(cfg, plan, s);
    ReconciledPhase(s);
    JudgeIsExact(cfg, s.subs);
    assert VerdictHolds(s);
    assert s.subs != [] by { GraphOnlyGrows(cfg, plan, s); }
  }

  lemma GraphOnlyGrows(cfg: Config, plan: seq<Sub>, s: State)
    requires IsPlan(plan) && cfg.planned == |plan| && Reaches(Start(cfg, plan), s)
    ensures |plan| <= |s.subs|
  {
    ReachesSelf(Start(cfg, plan));
    VerdictIsStable(cfg, plan, Start(cfg, plan), s);
  }

  lemma JudgeIsExact(cfg: Config, subs: seq<Sub>)
    requires Core(cfg, subs)
    ensures Judge(subs) == Broken <==> SomeUnrepaired(subs)
    ensures Judge(subs) == OutOfRework <==> !SomeUnrepaired(subs) && !SomeWaiting(subs) && SomeOpenRework(subs)
    ensures Judge(subs) == Done <==> subs != [] && !SomeUnrepaired(subs) && !SomeWaiting(subs) && !SomeOpenRework(subs)
  {
    FailureIsUnrepaired(cfg, subs);
    hide Core, Covered;
    assert AnyPending(subs) <==> SomeWaiting(subs);
    assert AnyUnresolved(subs) <==> SomeOpenRework(subs);
  }

  lemma FailureIsUnrepaired(cfg: Config, subs: seq<Sub>)
    requires Core(cfg, subs)
    ensures AnyFailure(subs) <==> SomeUnrepaired(subs)
    ensures forall f: nat :: f < |subs| ==>
      (UncoveredFailure(subs, f) <==> subs[f].status == Failed && !subs[f].repaired)
  {
    forall f: nat | f < |subs|
      ensures UncoveredFailure(subs, f) <==> subs[f].status == Failed && !subs[f].repaired
      ensures !VerificationFailed(subs[f])
    {
      assert Credible(subs[f]);
      if subs[f].status == Failed { CoveredMeansRepaired(cfg, subs, f); }
    }
  }

  /** The cause of a run's failure is its first unrepaired failure, or else its first open rework decision. */
  ghost predicate FirstCause(subs: seq<Sub>, cause: Cause) {
    match cause
    case NoCause => false
    case FailureOf(f) =>
      && f < |subs| && subs[f].status == Failed && !subs[f].repaired
      && forall k :: 0 <= k < f && subs[k].status == Failed ==> subs[k].repaired
    case UnresolvedRework(r) =>
      && !SomeUnrepaired(subs) && r < |subs| && AskedForRework(subs[r]) && !subs[r].reworked
      && forall k :: 0 <= k < r && AskedForRework(subs[k]) ==> subs[k].reworked
  }

  /** A run that fails now, and a task that is not failed already, get this cause. */
  lemma CauseIsFirst(cfg: Config, plan: seq<Sub>, s: State)
    requires IsPlan(plan) && cfg.planned == |plan| && Reaches(Start(cfg, plan), s) &&
      Reconcile(s).run.status == RunFailed
    ensures s.run.status != RunFailed ==> FirstCause(s.subs, Reconcile(s).run.error)
    ensures s.task.status != TaskFailed ==> FirstCause(s.subs, Reconcile(s).task.error)
  {
    ReachableHasInv(cfg, plan, s);
    assert VerdictHolds(s) && AllCredible(s.subs) && Core(cfg, s.subs);
    assert Judge(s.subs) == Broken || Judge(s.subs) == OutOfRework;
    hide Inv, Core, AllCredible, Judge, FirstCause, VerdictHolds;
    JudgedCause(s.subs, s.run, s.task);
    CauseOfVerdict(cfg, s.subs);
  }

  lemma CauseOfVerdict(cfg: Config, subs: seq<Sub>)
    requires Core(cfg, subs) && (Judge(subs) == Broken || Judge(subs) == OutOfRework)
    ensures FirstCause(subs, if Judge(subs) == Broken then FailureOf(FirstFailed(subs, 0))
      else UnresolvedRework(FirstUnresolved(subs, 0)))
  {
    JudgeIsExact(cfg, subs);
    FailureIsUnrepaired(cfg, subs);
    if Judge(subs) == Broken {
      var f := BrokenHasFailure(subs);
      hide Core, Judge, UncoveredFailure;
      FirstFailedIsLeast(subs, 0);
    } else {
      hide Core, UncoveredFailure;
      FirstOpenIsLeast(subs, 0);
    }
  }

  lemma {:induction false} FirstOpenIsLeast(subs: seq<Sub>, k: nat)
    requires k <= |subs| && exists i :: k <= i < |subs| && ReworkUnresolved(subs[i])
    ensures var r := FirstUnresolved(subs, k);
      k <= r < |subs| && ReworkUnresolved(subs[r]) && forall i :: k <= i < r ==> !ReworkUnresolved(subs[i])
    decreases |subs| - k
  {
    if !ReworkUnresolved(subs[k]) { FirstOpenIsLeast(subs, k + 1); }
  }
}
