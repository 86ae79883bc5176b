/** A concrete run that announces its end twice and names two causes: three coders, of which the first
    waits for the third; only the third succeeds, and nothing is repaired. */
module TwoFailures {
  import opened Basics
  import opened SubTasks
  import opened DependencyGraph
  import opened Protocol
  import opened Invariant
  import opened Runs
  import opened Guarantees
  import opened Announcements

  function Outcomes(i: nat): Outcome {
    if i == 2 then Finished(true, None, true, None, None) else Raised
  }

  const CODERS := Config(false, 1, 3, Outcomes)

  function OneCoder(deps: seq<nat>, status: Status): Sub {
    Sub(Coder, deps, Planned, 0, None, None, status,
        if status == Succeeded then Some(Result(None, None, None)) else None, false, false)
  }

  function Coders(a: Status, b: Status, c: Status): seq<Sub> {
    [OneCoder([2], a), OneCoder([], b), OneCoder([], c)]
  }

  /** A state that the run reaches, with its records and its number of terminal events. */
  ghost predicate Reached(s: State, subs: seq<Sub>, run: RunRecord, task: TaskRecord, terminals: nat) {
    && Reaches(Start(CODERS, Coders(Queued, Queued, Queued)), s)
    && s.cfg == CODERS && s.subs == subs && s.run == run && s.task == task && Terminals(s.log) == terminals
  }

  function Records(status: RunStatus, phase: Phase, error: Cause): RunRecord {
    RunRecord(status, phase, [0, 1, 2], error)
  }

  lemma Next(s: State, a: Action)
    requires Reaches(Start(CODERS, Coders(Queued, Queued, Queued)), s) && Enabled(s, a)
    ensures Reaches(Start(CODERS, Coders(Queued, Queued, Queued)), Apply(s, a))
  {
    ReachesNext(s, a);
    ReachesTransitive(Start(CODERS, Coders(Queued, Queued, Queued)), s, Apply(s, a));
  }

  lemma Starts() returns (s: State)
    ensures IsPlan(Coders(Queued, Queued, Queued)) && s.log == [PlanningCompleted]
    ensures Reached(s, Coders(Queued, Queued, Queued), Records(RunRunning, Coordinating, NoCause),
      TaskRecord(TaskPlanning, NoCause), 0)
  {
    s := Start(CODERS, Coders(Queued, Queued, Queued));
    ReachesSelf(s);
    TerminalsOfOne(PlanningCompleted);
    assert s.run.subtaskIds == [0, 1, 2];
  }

  /** How subtask `i` ends. */
  function Ended(sub: Sub, i: nat): Sub {
    if i == 2 then sub.(status := Succeeded, result := Some(Result(None, None, None))) else sub.(status := Failed)
  }

  lemma EndCallsForNothing(s: State, i: nat)
    requires s.cfg == CODERS && i < |s.subs| && s.subs[i].role == Coder
    ensures var t := Finish(s, i, Outcomes(i));
      && t.subs == s.subs[i := Ended(s.subs[i], i)] && t.run == s.run && t.task == s.task && t.cfg == s.cfg
      && (t.log == s.log + [SubtaskCompleted(i)] || t.log == s.log + [SubtaskFailed(i)])
      && !ReworkDue(t.cfg, t.subs[i]) && !RepairDue(t.cfg, t.subs[i])
  {
  }

  lemma Announced(s: State, i: nat) returns (t: State)
    requires Reached(s, s.subs, s.run, s.task, Terminals(s.log)) && i < |s.subs| && s.subs[i].status == Assigned
    requires SubtaskAssigned(i) !in s.log
    ensures Reached(t, s.subs, s.run, s.task, Terminals(s.log)) && t.log == s.log + [SubtaskAssigned(i)]
  {
    t := Deliver(s, i);
    Next(s, Delivers(i));
    OthersReportNothing(s, Delivers(i));
  }

  lemma Begun(s: State, i: nat) returns (t: State)
    requires Reached(s, s.subs, s.run, s.task, Terminals(s.log)) && i < |s.subs| && s.subs[i].status == Assigned
    requires SubtaskAssigned(i) in s.log && s.subs[i].role == Coder
    ensures Reached(t, s.subs[i := s.subs[i].(status := Status.Executing)], s.run, s.task, Terminals(s.log))
    ensures t.log == s.log
  {
    t := Begin(s, i, Status.Executing);
    Next(s, Begins(i, Status.Executing));
  }

  lemma Concluded(s: State, i: nat) returns (t: State)
    requires Reached(s, s.subs, s.run, s.task, Terminals(s.log)) && i < |s.subs| && s.subs[i].status.Running()
    requires SubtaskAssigned(i) in s.log && s.subs[i].role == Coder
    ensures Reached(t, s.subs[i := Ended(s.subs[i], i)], s.run, s.task, Terminals(s.log))
    ensures t.log == s.log + [SubtaskCompleted(i)] || t.log == s.log + [SubtaskFailed(i)]
  {
    t := Finish(s, i, Outcomes(i));
    EndCallsForNothing(s, i);
    hide Finish, ReworkDue, RepairDue, Terminals, Reaches;
    Next(s, Concludes(i, Outcomes(i), None));
    OthersReportNothing(s, Concludes(i, Outcomes(i), None));
  }

  /** Subtask `i` is announced, runs and ends. */
  lemma Executed(s: State, i: nat, subs: seq<Sub>) returns (t: State)
    requires Reached(s, s.subs, s.run, s.task, Terminals(s.log)) && i < |s.subs| && s.subs[i].status == Assigned
    requires SubtaskAssigned(i) !in s.log && s.subs[i].role == Coder && subs == s.subs[i := Ended(s.subs[i], i)]
    ensures Reached(t, subs, s.run, s.task, Terminals(s.log))
    ensures forall e <- t.log ::
      e in s.log || e == SubtaskAssigned(i) || e == SubtaskCompleted(i) || e == SubtaskFailed(i)
  {
    hide Terminals, Reaches;
    var announced := Announced(s, i);
    var running := Begun(announced, i);
    t := Concluded(running, i);
    assert t.subs == subs;
  }

  lemma Dispatched(s: State, subs: seq<Sub>) returns (t: State)
    requires Reached(s, s.subs, s.run, s.task, Terminals(s.log)) && SomeReady(s.subs) && AssignReady(s.subs) == subs
    ensures Reached(t, subs, s.run.(phase := Phase.Executing), s.task.(status := TaskRunning), Terminals(s.log))
    ensures t.log == s.log
  {
    t := Dispatch(s);
    Next(s, Dispatches);
  }

  lemma FirstBatch()
    ensures var subs := Coders(Queued, Queued, Queued);
      SomeReady(subs) && AssignReady(subs) == Coders(Queued, Assigned, Assigned)
  {
    var subs := Coders(Queued, Queued, Queued);
    assert IsReady(subs, 1) && IsReady(subs, 2) && !IsReady(subs, 0);
  }

  lemma SecondBatch()
    ensures var subs := Coders(Queued, Failed, Succeeded);
      SomeReady(subs) && AssignReady(subs) == Coders(Assigned, Failed, Succeeded)
  {
    var subs := Coders(Queued, Failed, Succeeded);
    assert IsReady(subs, 0);
  }

  lemma Blamed(c: Status)
    ensures Judge(Coders(Queued, Failed, c)) == Broken && FirstFailed(Coders(Queued, Failed, c), 0) == 1
    ensures Judge(Coders(Failed, Failed, c)) == Broken && FirstFailed(Coders(Failed, Failed, c), 0) == 0
  {
    assert UncoveredFailure(Coders(Queued, Failed, c), 1) && !UncoveredFailure(Coders(Queued, Failed, c), 0);
    assert UncoveredFailure(Coders(Failed, Failed, c), 0);
  }

  lemma Reconciled(s: State, cause: Cause) returns (t: State)
    requires Reached(s, s.subs, s.run, s.task, Terminals(s.log)) && s.run.phase == Phase.Executing
    requires Judge(s.subs) == Broken && cause == FailureOf(FirstFailed(s.subs, 0)) && s.task.status == TaskRunning
    requires s.run.status == RunRunning || s.run.status == RunFailed
    ensures Reached(t, s.subs, FailRun(s.run, cause), TaskRecord(TaskFailed, cause), Terminals(s.log) + 1)
    ensures t == Reconcile(s) && forall e <- t.log :: e in s.log || AboutRun(e)
  {
    t := Reconcile(s);
    Next(s, Reconciles);
    TerminalsOfConcat(s.log, Announcement(s.run, s.task, t.run, t.task));
    TerminalsOfAnnouncement(s.run, s.task, t.run, t.task);
  }

  /** The run has failed because of the second subtask and has said so; then the first fails as well.
      The run still names the second, the task names the first, and the end has been announced twice. */
  lemma CausesCanDiffer() returns (s: State)
    ensures IsPlan(Coders(Queued, Queued, Queued)) && CODERS.planned == 3
    ensures Reaches(Start(CODERS, Coders(Queued, Queued, Queued)), s) && Reconcile(s) == s
    ensures s.run.status == RunFailed && s.run.error == FailureOf(1) && s.task.error == FailureOf(0)
    ensures Terminals(s.log) == 2
  {
    hide Terminals, Reaches, Judge, FirstFailed, AssignReady, SomeReady;
    var s0 := Starts();
    FirstBatch();
    SecondBatch();
    Blamed(Assigned);
    Blamed(Succeeded);
    var s1 := Dispatched(s0, Coders(Queued, Assigned, Assigned));
    var s2 := Executed(s1, 1, Coders(Queued, Failed, Assigned));
    var s3 := Reconciled(s2, FailureOf(1));
    var s4 := Executed(s3, 2, Coders(Queued, Failed, Succeeded));
    var s5 := Dispatched(s4, Coders(Assigned, Failed, Succeeded));
    var s6 := Executed(s5, 0, Coders(Failed, Failed, Succeeded));
    s := Reconciled(s6, FailureOf(0));
    ReconcileTwice(s6);
  }
}
