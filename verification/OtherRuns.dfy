/** What the other runs of the same process can do to a run: nothing, except through the record of a
    task that they share. */
module OtherRuns {
  import opened Basics
  import opened SubTasks
  import opened Protocol
  import opened Invariant
  import opened Runs
  import opened Guarantees
  import opened Announcements

  // ---------------------------------------------------------------- the repository

  /** A subtask in the repository, with the run in its metadata. */
  datatype Row = Row(run: nat, sub: Sub)

  function ListForRun(rows: seq<Row>, run: nat): seq<Sub> {
    if rows == [] then []
    else
      var last := rows[|rows| - 1];
      ListForRun(rows[..|rows| - 1], run) + if last.run == run then [last.sub] else []
  }

  /** Handlers of other runs only touch rows that `list_for_run` gave them, and only add their own. */
  ghost predicate LeavesAlone(rows: seq<Row>, rows': seq<Row>, run: nat) {
    && |rows| <= |rows'|
    && (forall i :: 0 <= i < |rows| ==> rows'[i].run == rows[i].run && (rows[i].run == run ==> rows'[i] == rows[i]))
    && forall i :: |rows| <= i < |rows'| ==> rows'[i].run != run
  }

  /** So a run's own list does not change. */
  lemma {:induction false} OthersLeaveList(rows: seq<Row>, rows': seq<Row>, run: nat)
    requires LeavesAlone(rows, rows', run)
    ensures ListForRun(rows', run) == ListForRun(rows, run)
    decreases |rows'|
  {
    if |rows'| > |rows| {
      OthersLeaveList(rows, rows'[..|rows'| - 1], run);
    } else if rows != [] {
      OthersLeaveList(rows[..|rows| - 1], rows'[..|rows'| - 1], run);
    }
  }

  // ---------------------------------------------------------------- the shared task

  /** An action, and what others have made of the task record by the time it is taken. */
  datatype Step = Step(task: TaskRecord, action: Action)

  ghost predicate LegalAmid(s: State, steps: seq<Step>)
    decreases |steps|
  {
    steps != [] ==>
      var s' := s.(task := steps[0].task);
      Enabled(s', steps[0].action) && LegalAmid(Apply(s', steps[0].action), steps[1..])
  }

  /** The run's actions, with the task record overwritten before each of them. */
  ghost function PerformAmid(s: State, steps: seq<Step>): State
    requires LegalAmid(s, steps)
    decreases |steps|
  {
    if steps == [] then s else PerformAmid(Apply(s.(task := steps[0].task), steps[0].action), steps[1..])
  }

  /** The invariant does not look at the task. */
  lemma TaskDoesNotMatter(s: State, task: TaskRecord)
    requires Inv(s)
    ensures Inv(s.(task := task))
  {
  }

  lemma {:induction false} AmidKeepsVerdict(s: State, steps: seq<Step>)
    requires Inv(s) && LegalAmid(s, steps)
    ensures var t := PerformAmid(s, steps);
      Inv(t) && t.cfg == s.cfg && s.log <= t.log && Evolves(s.subs, t.subs) &&
      (s.run.status.Final() ==> t.run.status == s.run.status)
    decreases |steps|
  {
    if steps != [] {
      hide Inv;
      var s', a := s.(task := steps[0].task), steps[0].action;
      TaskDoesNotMatter(s, steps[0].task);
      ActionKeepsInv(s', a);
      ActionGrows(s', a);
      if s.run.status.Final() { ActionKeepsVerdict(s', a); }
      AmidKeepsVerdict(Apply(s', a), steps[1..]);
    }
  }

  /** Whatever other runs do to the task record, and whenever: a run's verdict is as stable as when it
      is alone, its verdict agrees with its subtasks, and all its other invariants hold. */
  lemma VerdictSurvivesOthers(cfg: Config, plan: seq<Sub>, steps: seq<Step>, more: seq<Step>)
    requires IsPlan(plan) && cfg.planned == |plan|
    requires LegalAmid(Start(cfg, plan), steps) && LegalAmid(PerformAmid(Start(cfg, plan), steps), more)
    ensures var s := PerformAmid(Start(cfg, plan), steps);
      var t := PerformAmid(s, more);
      Inv(s) && Inv(t) && s.log <= t.log && (s.run.status.Final() ==> t.run.status == s.run.status)
  {
    StartHasInv(cfg, plan);
    AmidKeepsVerdict(Start(cfg, plan), steps);
    AmidKeepsVerdict(PerformAmid(Start(cfg, plan), steps), more);
  }

  /** The shared task itself follows whichever run was reconciled last: a verdict overwrites any other. */
  lemma LastReconcileWins(s: State, task: TaskRecord)
    ensures var t := Reconcile(s.(task := task));
      match Judge(s.subs)
      case Done => t.task.status == TaskSucceeded
      case Broken => t.task.status == TaskFailed
      case OutOfRework => t.task.status == TaskFailed
      case Open => t.task.status == if task.status == TaskPlanning then TaskRunning else task.status
  {
  }

  /** So a run can be reported as failed while its task is reported as succeeded. */
  lemma TaskCanContradictRun(s: State, other: State)
    requires Inv(s) && s.run.status == RunFailed && Judge(other.subs) == Done
    ensures var t := Reconcile(other.(task := Reconcile(s).task));
      t.task.status == TaskSucceeded && Reconcile(s).run.status == RunFailed
  {
    LastReconcileWins(other, Reconcile(s).task);
    ActionKeepsVerdict(s, Reconciles);
  }
}
