/** The orchestration protocol of one run as a state machine.

    Each action is a stretch of the program that no other handler can interrupt.  The program runs
    them in one nested order (module Orchestration); here they may interleave in any order. */
module Protocol {
  import opened Basics
  import opened SubTasks
  import opened DependencyGraph

  datatype RunStatus = RunPending | RunRunning | RunSucceeded | RunFailed
  {
    predicate Final() {
      this == RunSucceeded || this == RunFailed
    }
  }
  datatype Phase = Intake | Planning | Coordinating | Executing | Reviewing | Delivering
  datatype TaskStatus = TaskPending | TaskPlanning | TaskRunning | TaskSucceeded | TaskFailed

  /** Why a run or task failed; stands for the error message. */
  datatype Cause = NoCause | FailureOf(id: nat) | UnresolvedRework(id: nat)

  datatype Event =
    | SubtaskAssigned(id: nat) | SubtaskCompleted(id: nat) | SubtaskFailed(id: nat)
    | ReworkRequested(id: nat) | RepairRequested(id: nat)
    | PlanningCompleted | RunUpdated(status: RunStatus, phase: Phase, taskStatus: TaskStatus)
    | RunTerminal(status: RunStatus) | RunSummary(status: RunStatus)

  /** The constraints the orchestrator reads, the number of subtasks in the plan, and what comes out of
      each execution.  The last is arbitrary; as every subtask is executed at most once, fixing it
      beforehand excludes no run. */
  datatype Config = Config(repairEnabled: bool, maxAttempts: int, planned: nat, outcomes: nat -> Outcome)

  datatype RunRecord = RunRecord(status: RunStatus, phase: Phase, subtaskIds: seq<nat>, error: Cause)
  datatype TaskRecord = TaskRecord(status: TaskStatus, error: Cause)

  /** `log` is the event bus history. */
  datatype State = State(cfg: Config, subs: seq<Sub>, run: RunRecord, task: TaskRecord, log: seq<Event>)

  function Ids(n: nat): seq<nat> {
    seq(n, k requires 0 <= k < n => k)
  }

  // ---------------------------------------------------------------- dispatch

  /** Dependencies outside the run are ignored. */
  predicate IsReady(subs: seq<Sub>, i: nat)
    requires i < |subs|
  {
    (subs[i].status == Queued || subs[i].status == Ready) &&
    forall d | d in subs[i].deps && d < |subs| :: subs[d].status == Succeeded
  }

  function AssignOne(subs: seq<Sub>, i: nat): Sub
    requires i < |subs|
  {
    if IsReady(subs, i) then subs[i].(status := Assigned) else subs[i]
  }

  /** The whole ready batch becomes assigned at once. */
  function AssignReady(subs: seq<Sub>): seq<Sub> {
    seq(|subs|, i requires 0 <= i < |subs| => AssignOne(subs, i))
  }

  predicate SomeReady(subs: seq<Sub>) {
    exists i | 0 <= i < |subs| :: IsReady(subs, i)
  }

  function Dispatch(s: State): State {
    if SomeReady(s.subs) then
      s.(subs := AssignReady(s.subs), task := s.task.(status := TaskRunning), run := s.run.(phase := Phase.Executing))
    else s
  }

  // ---------------------------------------------------------------- execution

  function Deliver(s: State, i: nat): State {
    s.(log := s.log + [SubtaskAssigned(i)])
  }

  function Begin(s: State, i: nat, status: Status): State
    requires i < |s.subs|
  {
    s.(subs := s.subs[i := s.subs[i].(status := status)])
  }

  /** The subtask reaches its terminal status and the terminal event is published. */
  function Finish(s: State, i: nat, o: Outcome): State
    requires i < |s.subs|
  {
    var (status, result) := Verdict(s.subs, i, o);
    s.(subs := s.subs[i := s.subs[i].(status := status, result := result)],
       log := s.log + [if status == Succeeded then SubtaskCompleted(i) else SubtaskFailed(i)])
  }

  // ---------------------------------------------------------------- reactions

  function Fresh(role: Role, deps: seq<nat>, part: Part, attempt: nat, source: Option<nat>,
      reworkOf: Option<nat>): Sub {
    Sub(role, deps, part, attempt, source, reworkOf, Queued, None, false, false)
  }

  /** The chain for reviewer `r` that sends back `t`; it starts at position `n`. */
  function ReworkChain(subs: seq<Sub>, r: nat, t: nat): seq<Sub>
    requires r < |subs| && t < |subs|
  {
    var n, attempt := |subs|, subs[r].attempt + 1;
    [ Fresh(subs[t].role, [r], Repair, attempt, None, Some(r)),
      Fresh(Tester, [n], Verify, attempt, Some(t), Some(r)),
      Fresh(Reviewer, [n + 1], Review, attempt, None, Some(r)) ]
  }

  /** The chain that repairs the failed subtask `f`. */
  function RepairChain(subs: seq<Sub>, f: nat): seq<Sub>
    requires f < |subs|
  {
    var n, attempt := |subs|, subs[f].attempt + 1;
    [ Fresh(subs[f].role, subs[f].deps, Repair, attempt, Some(f), None),
      Fresh(Tester, [n], Verify, attempt, Some(f), None),
      Fresh(Reviewer, [n + 1], Review, attempt, Some(f), None) ]
  }

  predicate ReworkDue(cfg: Config, sub: Sub) {
    sub.status == Succeeded && sub.role == Reviewer && sub.result.Some? && sub.result.value.decision == Some(Rework) &&
    sub.attempt < cfg.maxAttempts
  }

  predicate RepairDue(cfg: Config, sub: Sub) {
    sub.status == Failed && cfg.repairEnabled && sub.role.Repairable() && !sub.repaired &&
      sub.attempt + 1 <= cfg.maxAttempts
  }

  function Attach(run: RunRecord, n: nat): RunRecord {
    run.(subtaskIds := run.subtaskIds + [n, n + 1, n + 2])
  }

  ghost function CancelOne(subs: seq<Sub>, source: nat, j: nat): Sub
    requires j < |subs|
  {
    if j in Descendants(subs, source) && !subs[j].status.Terminal() then subs[j].(status := Cancelled) else subs[j]
  }

  ghost function CancelDescendants(subs: seq<Sub>, source: nat): seq<Sub> {
    seq(|subs|, j requires 0 <= j < |subs| => CancelOne(subs, source, j))
  }

  function MarkReworked(subs: seq<Sub>, i: nat): seq<Sub>
    requires i < |subs|
  {
    subs[i := subs[i].(reworked := true)]
  }

  function MarkRepaired(subs: seq<Sub>, i: nat): seq<Sub>
    requires i < |subs|
  {
    subs[i := subs[i].(repaired := true)]
  }

  ghost function SpliceRework(s: State, i: nat, t: nat): State
    requires i < |s.subs| && t < |s.subs|
  {
    s.(subs := MarkReworked(s.subs, i) + ReworkChain(s.subs, i, t),
       run := Attach(s.run, |s.subs|), log := s.log + [ReworkRequested(i)])
  }

  ghost function SpliceRepair(s: State, i: nat): State
    requires i < |s.subs|
  {
    s.(subs := CancelDescendants(MarkRepaired(s.subs, i), i) + RepairChain(s.subs, i),
       run := Attach(s.run, |s.subs|), log := s.log + [RepairRequested(i)])
  }

  /** What the orchestrator does with a terminal event before it dispatches again. */
  ghost function Respond(s: State, i: nat, t: Option<nat>): State
    requires i < |s.subs|
  {
    if ReworkDue(s.cfg, s.subs[i]) then
      if t.Some? && t.value < |s.subs| then SpliceRework(s, i, t.value) else s
    else if RepairDue(s.cfg, s.subs[i]) then SpliceRepair(s, i)
    else s
  }

  // ---------------------------------------------------------------- reconcile

  predicate Covered(subs: seq<Sub>, f: nat) {
    exists j | 0 <= j < |subs| :: subs[j].source == Some(f)
  }

  predicate UncoveredFailure(subs: seq<Sub>, i: nat)
    requires i < |subs|
  {
    subs[i].status == Failed && !Covered(subs, i)
  }

  predicate VerificationFailed(sub: Sub) {
    sub.status == Succeeded && sub.result.Some? && sub.result.value.verificationPassed == Some(false) && !sub.reworked
  }

  predicate ReworkUnresolved(sub: Sub) {
    sub.status == Succeeded && sub.result.Some? && sub.result.value.decision == Some(Rework) && !sub.reworked
  }

  predicate AnyFailure(subs: seq<Sub>) {
    exists i | 0 <= i < |subs| :: UncoveredFailure(subs, i) || VerificationFailed(subs[i])
  }

  predicate AnyPending(subs: seq<Sub>) {
    exists i | 0 <= i < |subs| :: !subs[i].status.Terminal()
  }

  predicate AnyUnresolved(subs: seq<Sub>) {
    exists i | 0 <= i < |subs| :: ReworkUnresolved(subs[i])
  }

  datatype Judgement = Broken | OutOfRework | Done | Open

  /** The verdict on a list of subtasks, recomputed from scratch. */
  function Judge(subs: seq<Sub>): Judgement {
    if AnyFailure(subs) then Broken
    else if AnyUnresolved(subs) && !AnyPending(subs) then OutOfRework
    else if subs != [] && !AnyPending(subs) then Done
    else Open
  }

  /** The first element of `failed or verification_failed`, scanning from `k`. */
  function FirstFailed(subs: seq<Sub>, k: nat): nat
    requires k <= |subs|
    decreases |subs| - k
  {
    if k == |subs| then FirstUnverified(subs, 0)
    else if UncoveredFailure(subs, k) then k
    else FirstFailed(subs, k + 1)
  }

  function FirstUnverified(subs: seq<Sub>, k: nat): nat
    requires k <= |subs|
    decreases |subs| - k
  {
    if k == |subs| || VerificationFailed(subs[k]) then k else FirstUnverified(subs, k + 1)
  }

  function FirstUnresolved(subs: seq<Sub>, k: nat): nat
    requires k <= |subs|
    decreases |subs| - k
  {
    if k == |subs| || ReworkUnresolved(subs[k]) then k else FirstUnresolved(subs, k + 1)
  }

  function FailRun(run: RunRecord, cause: Cause): RunRecord {
    if run.status == RunFailed then run.(phase := Reviewing)
    else run.(phase := Reviewing, status := RunFailed, error := cause)
  }

  function FailTask(task: TaskRecord, cause: Cause): TaskRecord {
    if task.status == TaskFailed then task else TaskRecord(TaskFailed, cause)
  }

  function NextRun(subs: seq<Sub>, run: RunRecord): RunRecord {
    match Judge(subs)
    case Broken => FailRun(run, FailureOf(FirstFailed(subs, 0)))
    case OutOfRework => FailRun(run, UnresolvedRework(FirstUnresolved(subs, 0)))
    case Done => run.(phase := Delivering, status := RunSucceeded)
    case Open => run.(phase := Phase.Executing, status := if run.status == RunPending then RunRunning else run.status)
  }

  function NextTask(subs: seq<Sub>, task: TaskRecord): TaskRecord {
    match Judge(subs)
    case Broken => FailTask(task, FailureOf(FirstFailed(subs, 0)))
    case OutOfRework => FailTask(task, UnresolvedRework(FirstUnresolved(subs, 0)))
    case Done => task.(status := TaskSucceeded)
    case Open => task.(status := if task.status == TaskPlanning then TaskRunning else task.status)
  }

  /** The events of a reconciliation; none when status, phase and task are as before. */
  function Announcement(run: RunRecord, task: TaskRecord, run': RunRecord, task': TaskRecord): seq<Event> {
    if run.status == run'.status && run.phase == run'.phase && task == task' then []
    else
      [RunUpdated(run'.status, run'.phase, task'.status)] +
      if run'.status.Final() then [RunTerminal(run'.status), RunSummary(run'.status)] else []
  }

  function Reconcile(s: State): State {
    var run', task' := NextRun(s.subs, s.run), NextTask(s.subs, s.task);
    s.(run := run', task := task', log := s.log + Announcement(s.run, s.task, run', task'))
  }

  // ---------------------------------------------------------------- actions

  datatype Action =
    | Dispatches
    | Delivers(id: nat)
    | Begins(id: nat, status: Status)
    | Concludes(id: nat, outcome: Outcome, target: Option<nat>)
    | Reconciles

  /** Which running statuses a subtask takes follows from its role. */
  predicate Fits(role: Role, status: Status) {
    if role.Verifies() || role == Reviewer then status == Verifying
    else status == SandboxCreating || status == Status.Executing
  }

  ghost predicate Enabled(s: State, a: Action) {
    match a
    case Dispatches => true
    case Delivers(i) => i < |s.subs| && s.subs[i].status == Assigned && SubtaskAssigned(i) !in s.log
    case Begins(i, status) => i < |s.subs| && s.subs[i].status.Active() && SubtaskAssigned(i) in s.log &&
      Fits(s.subs[i].role, status)
    case Concludes(i, o, t) =>
      && i < |s.subs| && s.subs[i].status.Active() && SubtaskAssigned(i) in s.log && o == s.cfg.outcomes(i)
      && var s' := Finish(s, i, o);
         if ReworkDue(s'.cfg, s'.subs[i]) then FirstTarget(s'.subs, i, t) else t == None
    case Reconciles => true
  }

  ghost function Apply(s: State, a: Action): State
    requires Enabled(s, a)
  {
    match a
    case Dispatches => Dispatch(s)
    case Delivers(i) => Deliver(s, i)
    case Begins(i, status) => Begin(s, i, status)
    case Concludes(i, o, t) => Respond(Finish(s, i, o), i, t)
    case Reconciles => Reconcile(s)
  }

  /** Every action is enabled where it is taken. */
  ghost predicate Legal(s: State, acts: seq<Action>)
    decreases |acts|
  {
    acts != [] ==> Enabled(s, acts[0]) && Legal(Apply(s, acts[0]), acts[1..])
  }

  ghost function Perform(s: State, acts: seq<Action>): State
    requires Legal(s, acts)
    decreases |acts|
  {
    if acts == [] then s else Perform(Apply(s, acts[0]), acts[1..])
  }

  ghost predicate Reaches(s: State, t: State) {
    exists acts :: Legal(s, acts) && Perform(s, acts) == t
  }

  lemma ReachesSelf(s: State)
    ensures Reaches(s, s)
  {
    assert Legal(s, []) && Perform(s, []) == s;
  }

  lemma {:induction false} PerformThen(s: State, acts: seq<Action>, more: seq<Action>)
    requires Legal(s, acts) && Legal(Perform(s, acts), more)
    ensures Legal(s, acts + more) && Perform(s, acts + more) == Perform(Perform(s, acts), more)
    decreases |acts|
  {
    hide Enabled, Apply;
    if acts == [] {
      assert acts + more == more;
    } else {
      PerformThen(Apply(s, acts[0]), acts[1..], more);
      assert (acts + more)[1..] == acts[1..] + more;
    }
  }

  lemma ReachesTransitive(s: State, t: State, u: State)
    requires Reaches(s, t) && Reaches(t, u)
    ensures Reaches(s, u)
  {
    var acts :| Legal(s, acts) && Perform(s, acts) == t;
    var more :| Legal(t, more) && Perform(t, more) == u;
    PerformThen(s, acts, more);
  }

  lemma ReachesNext(s: State, a: Action)
    requires Enabled(s, a)
    ensures Reaches(s, Apply(s, a))
  {
    assert [a][1..] == [];
    assert Legal(Apply(s, a), []);
    assert Legal(s, [a]) && Perform(s, [a]) == Apply(s, a);
  }

  // ---------------------------------------------------------------- initial states

  /** A plan as the planner builds it: queued subtasks whose dependencies lie in the plan. */
  predicate IsPlan(plan: seq<Sub>) {
    plan != [] && forall i | 0 <= i < |plan| :: IsPlanned(plan[i], |plan|)
  }

  predicate IsPlanned(sub: Sub, n: nat) {
    && sub.part == Planned && sub.attempt == 0 && sub.source == None && sub.reworkOf == None
    && sub.status == Queued && sub.result == None && !sub.repaired && !sub.reworked
    && forall d | d in sub.deps :: d < n
  }

  /** The state in which the orchestrator dispatches for the first time. */
  function Start(cfg: Config, plan: seq<Sub>): State
    requires cfg.planned == |plan|
  {
    State(cfg, plan, RunRecord(RunRunning, Coordinating, Ids(|plan|), NoCause), TaskRecord(TaskPlanning, NoCause),
      [PlanningCompleted])
  }
}
