/** The program itself: mutable subtasks shared by reference, and handlers that call one another
    through the event bus before they return.

    `Swarm` holds the handlers of the scheduler, coordinator, orchestrator, runner and run-state
    service, wired as the application container wires them. */
module Orchestration {
  import opened Basics
  import opened Nesting
  import opened Publications
  import opened SubTasks
  import opened DependencyGraph
  import opened Protocol
  import opened Invariant
  import opened Runs
  import opened Guarantees
  import opened GrowthBound
  import opened Settling

  // ---------------------------------------------------------------- the records

  class SubTask {
    const role: Role
    const deps: seq<nat>
    const part: Part
    const attempt: nat
    const source: Option<nat>
    const reworkOf: Option<nat>
    var status: Status
    var result: Option<Result>
    var repaired: bool
    var reworked: bool

    constructor (sub: Sub)
      ensures View() == sub
    {
      role, deps, part, attempt, source, reworkOf :=
        sub.role, sub.deps, sub.part, sub.attempt, sub.source, sub.reworkOf;
      status, result, repaired, reworked := sub.status, sub.result, sub.repaired, sub.reworked;
    }

    function View(): Sub
      reads this
    {
      Sub(role, deps, part, attempt, source, reworkOf, status, result, repaired, reworked)
    }

    method MarkReady()
      modifies this
      ensures View() == old(View()).(status := Ready)
    {
      status := Ready;
    }

    method Assign()
      modifies this
      ensures View() == old(View()).(status := Assigned)
    {
      status := Assigned;
    }

    method MarkSandboxCreating()
      modifies this
      ensures View() == old(View()).(status := SandboxCreating)
    {
      status := SandboxCreating;
    }

    method StartExecution()
      modifies this
      ensures View() == old(View()).(status := Status.Executing)
    {
      status := Status.Executing;
    }

    method StartVerification()
      modifies this
      ensures View() == old(View()).(status := Verifying)
    {
      status := Verifying;
    }

    method Complete(r: Option<Result>)
      modifies this
      ensures View() == old(View()).(status := Succeeded, result := r)
    {
      status, result := Succeeded, r;
    }

    method Fail(r: Option<Result>)
      modifies this
      ensures View() == old(View()).(status := Failed, result := r)
    {
      status, result := Failed, r;
    }
  }

  class Task {
    var status: TaskStatus
    var error: Cause

    constructor ()
      ensures View() == TaskRecord(TaskPending, NoCause)
    {
      status, error := TaskPending, NoCause;
    }

    function View(): TaskRecord
      reads this
    {
      TaskRecord(status, error)
    }

    method Start()
      modifies this
      ensures View() == old(View()).(status := TaskRunning)
    {
      status := TaskRunning;
    }

    method Succeed()
      modifies this
      ensures View() == old(View()).(status := TaskSucceeded)
    {
      status := TaskSucceeded;
    }

    method Fail(cause: Cause)
      modifies this
      ensures View() == TaskRecord(TaskFailed, cause)
    {
      status, error := TaskFailed, cause;
    }
  }

  class Run {
    var status: RunStatus
    var phase: Phase
    var subtaskIds: seq<nat>
    var error: Cause

    constructor ()
      ensures View() == RunRecord(RunPending, Intake, [], NoCause)
    {
      status, phase, subtaskIds, error := RunPending, Intake, [], NoCause;
    }

    function View(): RunRecord
      reads this
    {
      RunRecord(status, phase, subtaskIds, error)
    }

    method Start()
      modifies this
      ensures View() == old(View()).(status := RunRunning)
    {
      status := RunRunning;
    }

    method SetPhase(p: Phase)
      modifies this
      ensures View() == old(View()).(phase := p)
    {
      phase := p;
    }

    method AttachSubtasks(ids: seq<nat>)
      modifies this
      ensures View() == old(View()).(subtaskIds := ids)
    {
      subtaskIds := ids;
    }

    method Succeed()
      modifies this
      ensures View() == old(View()).(status := RunSucceeded)
    {
      status := RunSucceeded;
    }

    method Fail(cause: Cause)
      modifies this
      ensures View() == old(View()).(status := RunFailed, error := cause)
    {
      status, error := RunFailed, cause;
    }
  }

  /** Subtasks in insertion order; readers get the stored objects, not copies. */
  class SubTaskRepository {
    var items: seq<SubTask>

    constructor ()
      ensures items == []
    {
      items := [];
    }

    method CreateMany(subtasks: seq<SubTask>)
      modifies this
      ensures items == old(items) + subtasks
    {
      items := items + subtasks;
    }
  }

  /** The bus with its history, and the replay of the wildcard subscriber that records the run. */
  class EventBus {
    var events: seq<Event>
    var replay: seq<Event>

    constructor ()
      ensures events == [] && replay == []
    {
      events, replay := [], [];
    }

    function View(): Records<Event>
      reads this
    {
      Records(events, replay)
    }

    /** An event is noted before its topic handlers run. */
    method Note(e: Event)
      modifies this`events
      ensures events == old(events) + [e]
    {
      events := events + [e];
    }

    /** Wildcard handlers run after the topic handlers. */
    method Record(e: Event)
      modifies this`replay
      ensures replay == old(replay) + [e]
    {
      replay := replay + [e];
    }

    /** Publishes an event to which no topic handler reacts. */
    method Append(e: Event)
      modifies this
      ensures View() == Records(old(events) + [e], old(replay) + [e])
    {
      Note(e);
      Record(e);
    }
  }

  function Views(items: seq<SubTask>): seq<Sub>
    reads items
  {
    seq(|items|, i requires 0 <= i < |items| reads items => items[i].View())
  }

  lemma ViewsLength(items: seq<SubTask>)
    ensures |Views(items)| == |items|
  {
  }

  lemma ViewAt(items: seq<SubTask>, i: nat)
    requires i < |items|
    ensures |Views(items)| == |items| && Views(items)[i] == items[i].View()
  {
  }

  lemma ViewsOfBoth(a: seq<SubTask>, b: seq<SubTask>)
    ensures Views(a + b) == Views(a) + Views(b)
  {
  }

  // ---------------------------------------------------------------- what the handlers rely on

  ghost predicate Sound(s: State) {
    Inv(s) && Balanced(s.cfg, s.subs)
  }

  /** Nothing is running, and nothing assigned has been announced -- except `except`. */
  ghost predicate IdleBut(s: State, except: set<nat>) {
    forall i: nat {:trigger SubtaskAssigned(i)} {:trigger s.subs[i]} :: i < |s.subs| && i !in except ==>
      !s.subs[i].status.Running() && (s.subs[i].status == Assigned ==> SubtaskAssigned(i) !in s.log)
  }

  ghost predicate Idle(s: State) {
    IdleBut(s, {})
  }

  ghost function Ended(subs: seq<Sub>): set<nat> {
    set i: nat | i in Below(|subs|) && (subs[i].status == Succeeded || subs[i].status == Failed)
  }

  /** How many executions the growth bound still allows; the handlers' recursion decreases it. */
  ghost function Fuel(s: State): nat {
    if Bound(s.cfg) >= |Ended(s.subs)| then Bound(s.cfg) - |Ended(s.subs)| else 0
  }

  lemma EndedStays(subs: seq<Sub>, subs': seq<Sub>)
    requires Evolves(subs, subs')
    ensures Ended(subs) <= Ended(subs')
  {
  }

  lemma EvolutionKeepsFuel(s: State, t: State)
    requires Evolves(s.subs, t.subs) && t.cfg == s.cfg
    ensures Fuel(t) <= Fuel(s)
  {
    EndedStays(s.subs, t.subs);
    SubsetSize(Ended(s.subs), Ended(t.subs));
  }

  lemma EndingGrowsEnded(subs: seq<Sub>, subs': seq<Sub>, i: nat)
    requires Evolves(subs, subs') && i < |subs| && subs[i].status.Active()
    requires subs'[i].status == Succeeded || subs'[i].status == Failed
    ensures |Ended(subs)| < |Ended(subs')| && |Ended(subs)| < |subs|
  {
    EndedStays(subs, subs');
    assert i !in Ended(subs) && i in Ended(subs') && i in Below(|subs|) && Ended(subs) <= Below(|subs|);
    hide Ended, Evolves;
    ProperSubsetSize(Ended(subs), Ended(subs'), i);
    ProperSubsetSize(Ended(subs), Below(|subs|), i);
  }

  lemma EndingTakesFuel(s: State, t: State, i: nat)
    requires |s.subs| <= Bound(s.cfg) && Evolves(s.subs, t.subs) && t.cfg == s.cfg
    requires i < |s.subs| && s.subs[i].status.Active() && (t.subs[i].status == Succeeded || t.subs[i].status == Failed)
    ensures Fuel(t) < Fuel(s)
  {
    EndingGrowsEnded(s.subs, t.subs, i);
  }

  lemma ReachKeeps(s: State, t: State)
    requires Sound(s) && Reaches(s, t)
    ensures Sound(t) && t.cfg == s.cfg && Evolves(s.subs, t.subs) && s.log <= t.log && Fuel(t) <= Fuel(s)
  {
    var acts :| Legal(s, acts) && Perform(s, acts) == t;
    RunKeepsInv(s, acts);
    RunKeepsBalance(s, acts);
    RunKeepsVerdict(s, acts);
    EvolutionKeepsFuel(s, t);
  }

  // ---------------------------------------------------------------- the ready batch

  function ReadyIds(subs: seq<Sub>, k: nat): seq<nat>
    requires k <= |subs|
  {
    if k == 0 then [] else ReadyIds(subs, k - 1) + if IsReady(subs, k - 1) then [k - 1] else []
  }

  lemma ReadyIdsAreReady(subs: seq<Sub>, k: nat)
    requires k <= |subs|
    ensures forall i: nat :: i in ReadyIds(subs, k) <==> i < k && IsReady(subs, i)
    ensures forall a, b :: 0 <= a < b < |ReadyIds(subs, k)| ==> ReadyIds(subs, k)[a] < ReadyIds(subs, k)[b]
  {
    if k > 0 {
      ReadyIdsAreReady(subs, k - 1);
      var before := ReadyIds(subs, k - 1);
      assert forall a :: 0 <= a < |before| ==> before[a] in before;
    }
  }

  function MarkOne(subs: seq<Sub>, i: nat): Sub
    requires i < |subs|
  {
    if IsReady(subs, i) then subs[i].(status := Ready) else subs[i]
  }

  ghost function MarkedUpTo(subs: seq<Sub>, k: nat): seq<Sub> {
    seq(|subs|, j requires 0 <= j < |subs| => if j < k then MarkOne(subs, j) else subs[j])
  }

  /** Marking subtasks ready does not change which ones are. */
  lemma MarkingKeepsReady(subs: seq<Sub>, k: nat)
    requires k < |subs|
    ensures IsReady(MarkedUpTo(subs, k), k) == IsReady(subs, k)
  {
  }

  lemma MarkNone(subs: seq<Sub>)
    ensures MarkedUpTo(subs, 0) == subs
  {
  }

  lemma MarkNext(subs: seq<Sub>, k: nat)
    requires k < |subs|
    ensures MarkedUpTo(subs, k)[k] == subs[k]
    ensures MarkedUpTo(subs, k + 1) == MarkedUpTo(subs, k)[k := MarkOne(subs, k)]
    ensures MarkOne(subs, k) == subs[k] ==> MarkedUpTo(subs, k + 1) == MarkedUpTo(subs, k)
  {
  }

  predicate DependenciesSucceeded(items: seq<SubTask>, k: nat)
    requires k < |items|
    reads items
  {
    forall d | d in items[k].deps && d < |items| :: items[d].status == Succeeded
  }

  lemma ReadyViewed(items: seq<SubTask>, k: nat)
    requires k < |items|
    ensures IsReady(Views(items), k) <==>
      (items[k].status == Queued || items[k].status == Ready) && DependenciesSucceeded(items, k)
  {
    assert Views(items)[k] == items[k].View();
    assert forall d: nat :: d < |items| ==> Views(items)[d].status == items[d].status;
  }

  /** A verifying dependency recorded a passing verdict. */
  predicate Passed(subtask: SubTask)
    reads subtask
  {
    subtask.result.Some? && subtask.result.value.passed == Some(true)
  }

  lemma TestersViewed(items: seq<SubTask>, deps: seq<nat>, found: seq<nat>)
    requires forall d: nat :: d in found <==> d in deps && d < |items|
    ensures HasTester(Views(items), deps) == exists d | d in found :: items[d].role.Verifies()
    ensures TestersPassed(Views(items), deps) ==
      forall d | d in found && items[d].role.Verifies() :: Passed(items[d])
  {
    assert forall d: nat :: d < |items| ==> Views(items)[d] == items[d].View();
  }

  /** The identifiers below `n`, in order and as often as they are listed. */
  function InRun(ids: seq<nat>, n: nat): seq<nat> {
    if ids == [] then []
    else
      var last := ids[|ids| - 1];
      InRun(ids[..|ids| - 1], n) + if last < n then [last] else []
  }

  lemma {:induction false} InRunMembers(ids: seq<nat>, n: nat)
    ensures forall d: nat :: d in InRun(ids, n) <==> d in ids && d < n
  {
    if ids != [] {
      var front, last := ids[..|ids| - 1], ids[|ids| - 1];
      InRunMembers(front, n);
      assert ids == front + [last];
    }
  }

  ghost function Elements(ids: seq<nat>): set<nat> {
    set i | i in ids
  }

  lemma MarkedThenAssigned(subs: seq<Sub>, j: nat)
    requires j < |subs|
    ensures AssignOne(subs, j) ==
      if IsReady(subs, j) then MarkedUpTo(subs, |subs|)[j].(status := Assigned) else MarkedUpTo(subs, |subs|)[j]
  {
  }

  /** Marking and then assigning the batch is the dispatch step of the protocol. */
  lemma BatchIsDispatch(subs: seq<Sub>, ready: seq<nat>, subs': seq<Sub>)
    requires ready == ReadyIds(subs, |subs|) && |subs'| == |subs|
    requires forall j: nat :: j < |subs| ==>
      subs'[j] == (if j in ready then MarkedUpTo(subs, |subs|)[j].(status := Assigned) else MarkedUpTo(subs, |subs|)[j])
    ensures subs' == AssignReady(subs) && (ready != [] <==> SomeReady(subs))
  {
    ReadyIdsAreReady(subs, |subs|);
    assert subs' == AssignReady(subs) by {
      hide ReadyIds, SomeReady;
      forall j: nat | j < |subs|
        ensures subs'[j] == AssignOne(subs, j)
      {
        MarkedThenAssigned(subs, j);
      }
    }
    if ready != [] { assert ready[0] in ready; }
    if SomeReady(subs) {
      var i: nat :| i < |subs| && IsReady(subs, i);
      assert i in ready;
    }
  }

  lemma DispatchedBatch(s: State, ready: seq<nat>)
    requires Sound(s) && Idle(s) && SomeReady(s.subs) && ready == ReadyIds(s.subs, |s.subs|)
    ensures Reaches(s, Dispatch(s)) && Sound(Dispatch(s)) && Idle(Dispatch(s)) && Fuel(Dispatch(s)) <= Fuel(s)
    ensures forall a, b :: 0 <= a < b < |ready| ==> ready[a] < ready[b]
    ensures Elements(ready) <= WithStatus(Dispatch(s).subs, Assigned)
    ensures WithStatus(Dispatch(s).subs, Assigned) - Elements(ready) == WithStatus(s.subs, Assigned)
  {
    assert AllCredible(s.subs) && HistoryTold(s.subs, s.log);
    DispatchStaysIdle(s);
    ReadyIdsAreReady(s.subs, |s.subs|);
    hide Inv, Balanced, IdleBut, Fuel, ReadyIds, WithStatus, Elements, HistoryTold, AllCredible;
    DispatchAssignsBatch(s.subs, ready);
    ReachesNext(s, Dispatches);
    ReachKeeps(s, Dispatch(s));
  }

  lemma DispatchStaysIdle(s: State)
    requires AllCredible(s.subs) && HistoryTold(s.subs, s.log) && Idle(s)
    ensures Idle(Dispatch(s))
  {
    forall i: nat | i < |s.subs|
      ensures AssignOne(s.subs, i).status == Assigned ==> SubtaskAssigned(i) !in s.log
    {
      assert Credible(s.subs[i]) && Told(s.subs, s.log, i);
    }
  }

  lemma DispatchAssignsBatch(subs: seq<Sub>, ready: seq<nat>)
    requires ready == ReadyIds(subs, |subs|)
    ensures WithStatus(AssignReady(subs), Assigned) == WithStatus(subs, Assigned) + Elements(ready)
    ensures WithStatus(subs, Assigned) !! Elements(ready)
  {
    ReadyIdsAreReady(subs, |subs|);
    var subs' := AssignReady(subs);
    forall i: nat
      ensures i in WithStatus(subs', Assigned) <==> i in WithStatus(subs, Assigned) + Elements(ready)
      ensures !(i in WithStatus(subs, Assigned) && i in Elements(ready))
    {
      if i < |subs| { assert subs'[i] == AssignOne(subs, i); }
    }
  }

  lemma NothingReady(subs: seq<Sub>)
    requires !SomeReady(subs)
    ensures AssignReady(subs) == subs
  {
  }

  lemma BatchHead(subs: seq<Sub>, batch: seq<nat>)
    requires batch != [] && Elements(batch) <= WithStatus(subs, Assigned)
    requires forall a, b :: 0 <= a < b < |batch| ==> batch[a] < batch[b]
    ensures batch[0] in Elements(batch) && batch[0] < |subs| && subs[batch[0]].status == Assigned
    ensures Elements(batch[1..]) == Elements(batch) - {batch[0]} && (|batch| == 1 ==> Elements(batch) == {batch[0]})
  {
  }

  // ---------------------------------------------------------------- one execution

  ghost predicate TargetFound(s: State, i: nat, t: Option<nat>)
    requires i < |s.subs|
  {
    if ReworkDue(s.cfg, s.subs[i]) then FirstTarget(s.subs, i, t) else t == None
  }

  lemma DeliveryIsEnabled(s: State, i: nat)
    requires Idle(s) && i < |s.subs| && s.subs[i].status == Assigned
    ensures Enabled(s, Delivers(i)) && IdleBut(Deliver(s, i), {i})
  {
  }

  lemma DeliveryReaches(s: State, i: nat)
    requires Sound(s) && Idle(s) && i < |s.subs| && s.subs[i].status == Assigned
    ensures Reaches(s, Deliver(s, i)) && Sound(Deliver(s, i)) && IdleBut(Deliver(s, i), {i})
    ensures Fuel(Deliver(s, i)) <= Fuel(s) && SubtaskAssigned(i) in Deliver(s, i).log
  {
    DeliveryIsEnabled(s, i);
    hide Sound, IdleBut, Fuel, Enabled, Reaches;
    ReachesNext(s, Delivers(i));
    ReachKeeps(s, Deliver(s, i));
  }

  lemma BeginReaches(s: State, i: nat, status: Status)
    requires i < |s.subs| && s.subs[i].status.Active() && SubtaskAssigned(i) in s.log && Fits(s.subs[i].role, status)
    ensures Reaches(s, Begin(s, i, status))
  {
    hide Reaches;
    ReachesNext(s, Begins(i, status));
  }

  lemma BeginTwice(s: State, i: nat, first: Status, second: Status)
    requires i < |s.subs|
    ensures Begin(Begin(s, i, first), i, second) == Begin(s, i, second)
  {
    SetTwice(s.subs, i, s.subs[i].(status := first), s.subs[i].(status := second));
  }

  lemma EndsAs(s: State, i: nat, o: Outcome)
    requires i < |s.subs|
    ensures Finish(s, i, o).subs[i].status == Succeeded || Finish(s, i, o).subs[i].status == Failed
  {
  }

  lemma ReconcileKeepsRest(s: State)
    requires Idle(s) && !SomeReady(s.subs)
    ensures Idle(Reconcile(s)) && !SomeReady(Reconcile(s).subs) && Reconcile(s).subs == s.subs
  {
  }

  /** The state in which the orchestrator meets a terminal event. */
  lemma AfterEnd(s1: State, s2: State, s3: State, i: nat, o: Outcome)
    requires Sound(s1) && i < |s1.subs| && s1.subs[i].status == Assigned && IdleBut(s1, {i})
    requires Sound(s2) && |s2.subs| == |s1.subs| &&
      s2 == s1.(subs := s1.subs[i := s1.subs[i].(status := s2.subs[i].status)])
    requires s2.subs[i].status.Active() && SubtaskAssigned(i) in s2.log && s3 == Finish(s2, i, o)
    ensures Unanswered(s3, i) && Balanced(s3.cfg, s3.subs) && Idle(s3) && Fuel(s3) < Fuel(s1)
    ensures WithStatus(s3.subs, Assigned) == WithStatus(s1.subs, Assigned) - {i}
  {
    FinishLeavesUnanswered(s2, i, o);
    FinishAdvances(s2, i, o);
    AdvanceKeepsBalance(s2.cfg, s2.subs, s3.subs);
    AdvanceEvolves(s2.subs, s3.subs);
    BalanceBounds(s1.cfg, s1.subs);
    OneEnds(s1, s3, i);
  }

  lemma OneEnds(s1: State, s3: State, i: nat)
    requires |s1.subs| <= Bound(s1.cfg) && s3.cfg == s1.cfg && i < |s1.subs| && s1.subs[i].status == Assigned &&
      IdleBut(s1, {i})
    requires |s3.subs| == |s1.subs| && forall j: nat :: j < |s1.subs| && j != i ==> s3.subs[j] == s1.subs[j]
    requires s3.subs[i] == s1.subs[i].(status := s3.subs[i].status, result := s3.subs[i].result)
    requires s3.subs[i].status == Succeeded || s3.subs[i].status == Failed
    requires s3.log == s1.log + [SubtaskCompleted(i)] || s3.log == s1.log + [SubtaskFailed(i)]
    ensures Idle(s3) && Fuel(s3) < Fuel(s1) && WithStatus(s3.subs, Assigned) == WithStatus(s1.subs, Assigned) - {i}
  {
    assert Fuel(s3) < Fuel(s1) by {
      hide Fuel, WithStatus, IdleBut;
      assert Evolves(s1.subs, s3.subs);
      EndingTakesFuel(s1, s3, i);
    }
    hide Fuel;
  }

  /** Answering the terminal event leaves the rest idle and takes no fuel. */
  lemma AfterAnswer(s: State, i: nat, t: Option<nat>)
    requires Unanswered(s, i) && Balanced(s.cfg, s.subs) && Idle(s) && TargetFound(s, i, t)
    ensures Sound(Respond(s, i, t)) && Idle(Respond(s, i, t)) && Fuel(Respond(s, i, t)) <= Fuel(s)
    ensures WithStatus(Respond(s, i, t).subs, Assigned) == WithStatus(s.subs, Assigned)
  {
    RespondRestoresInv(s, i, t);
    RespondKeepsBalance(s, i, t);
    RespondGrows(s, i, t);
    EvolutionKeepsFuel(s, Respond(s, i, t));
    AnswerAssignsNothing(s, i, t);
  }

  lemma AnswerAssignsNothing(s: State, i: nat, t: Option<nat>)
    requires Unanswered(s, i) && Idle(s) && TargetFound(s, i, t)
    ensures Idle(Respond(s, i, t)) && WithStatus(Respond(s, i, t).subs, Assigned) == WithStatus(s.subs, Assigned)
  {
    if ReworkDue(s.cfg, s.subs[i]) {
      if t.Some? {
        TargetSucceeded(s.subs, i, t.value);
        ReworkSplices(s, i, t.value);
        SpliceAssignsNothing(s, i, SpliceRework(s, i, t.value));
      }
    } else if RepairDue(s.cfg, s.subs[i]) {
      RepairSplices(s, i);
      SpliceAssignsNothing(s, i, SpliceRepair(s, i));
    }
  }

  lemma SpliceAssignsNothing(s: State, i: nat, s': State)
    requires Splices(s.cfg, s.subs, i, s'.subs) && Idle(s)
    requires s'.log == s.log + [ReworkRequested(i)] || s'.log == s.log + [RepairRequested(i)]
    ensures Idle(s') && WithStatus(s'.subs, Assigned) == WithStatus(s.subs, Assigned)
  {
    hide ChainAt, Maker;
    forall j: nat | j < |s'.subs|
      ensures !s'.subs[j].status.Running()
      ensures s'.subs[j].status == Assigned <==> j < |s.subs| && s.subs[j].status == Assigned
    {
      if j >= |s.subs| { assert FreshIn(s'.subs, j); }
    }
  }

  /** From the first state the run gets to the second, in which `i` is about to end. */
  ghost predicate Concluding(s1: State, s2: State, i: nat, o: Outcome) {
    Reaches(s1, s2) && i < |s2.subs| && s2.subs[i].status.Active() && SubtaskAssigned(i) in s2.log &&
    o == s2.cfg.outcomes(i)
  }

  /** The runner's last step, and the run it completes. */
  lemma AfterReaction(s1: State, s2: State, i: nat, o: Outcome, t: Option<nat>, s5: State)
    requires i < |s2.subs| && Concluding(s1, s2, i, o)
    requires TargetFound(Finish(s2, i, o), i, t) && Reaches(Respond(Finish(s2, i, o), i, t), s5)
    ensures Reaches(s1, Reconcile(s5)) && Reconcile(Reconcile(s5)) == Reconcile(s5)
  {
    var a := Concludes(i, o, t);
    ReachesNext(s2, a);
    ReachesTransitive(s1, s2, Apply(s2, a));
    ReachesTransitive(s1, Apply(s2, a), s5);
    ReachesNext(s5, Reconciles);
    ReachesTransitive(s1, s5, Reconcile(s5));
    ReconcileTwice(s5);
  }

  // ---------------------------------------------------------------- classification

  /** The four lists that a reconciliation draws up. */
  datatype Kind = UncoveredFailures | FailedVerifications | Pending | OpenRework

  predicate Belongs(subs: seq<Sub>, kind: Kind, i: nat)
    requires i < |subs|
  {
    match kind
    case UncoveredFailures => UncoveredFailure(subs, i)
    case FailedVerifications => VerificationFailed(subs[i])
    case Pending => !subs[i].status.Terminal()
    case OpenRework => ReworkUnresolved(subs[i])
  }

  /** The members of a list among the first `n` subtasks, in order. */
  function Listed(subs: seq<Sub>, kind: Kind, n: nat): seq<nat>
    requires n <= |subs|
  {
    if n == 0 then [] else Listed(subs, kind, n - 1) + if Belongs(subs, kind, n - 1) then [n - 1] else []
  }

  lemma ListedIsExact(subs: seq<Sub>, kind: Kind, n: nat)
    requires n <= |subs|
    ensures forall i: nat :: i in Listed(subs, kind, n) <==> i < n && Belongs(subs, kind, i)
    ensures forall i: nat :: i < n && Belongs(subs, kind, i) ==>
      Listed(subs, kind, n) != [] && Listed(subs, kind, n)[0] <= i
  {
    if n > 0 {
      ListedIsExact(subs, kind, n - 1);
      var before := Listed(subs, kind, n - 1);
      if before != [] { assert before[0] in before; }
    }
  }

  /** A list is empty or starts with its least member. */
  lemma ListedHead(subs: seq<Sub>, kind: Kind)
    ensures var l := Listed(subs, kind, |subs|);
      if l == [] then forall i: nat :: i < |subs| ==> !Belongs(subs, kind, i)
      else l[0] < |subs| && Belongs(subs, kind, l[0]) && forall i: nat :: i < l[0] ==> !Belongs(subs, kind, i)
  {
    ListedIsExact(subs, kind, |subs|);
    var l := Listed(subs, kind, |subs|);
    if l != [] { assert l[0] in l; }
  }

  lemma {:induction false} FirstUnverifiedIs(subs: seq<Sub>, k: nat, f: nat)
    requires k <= f < |subs| && VerificationFailed(subs[f]) && forall i :: k <= i < f ==> !VerificationFailed(subs[i])
    ensures FirstUnverified(subs, k) == f
    decreases f - k
  {
    if k < f { FirstUnverifiedIs(subs, k + 1, f); }
  }

  lemma {:induction false} FirstUnresolvedIs(subs: seq<Sub>, k: nat, f: nat)
    requires k <= f < |subs| && ReworkUnresolved(subs[f]) && forall i :: k <= i < f ==> !ReworkUnresolved(subs[i])
    ensures FirstUnresolved(subs, k) == f
    decreases f - k
  {
    if k < f { FirstUnresolvedIs(subs, k + 1, f); }
  }

  lemma {:induction false} FirstFailedIs(subs: seq<Sub>, k: nat, f: nat)
    requires k <= f <= |subs| && (forall i :: k <= i < f ==> !UncoveredFailure(subs, i))
    requires f < |subs| ==> UncoveredFailure(subs, f)
    ensures FirstFailed(subs, k) == if f < |subs| then f else FirstUnverified(subs, 0)
    decreases f - k
  {
    if k < f { FirstFailedIs(subs, k + 1, f); }
  }

  lemma NotListed(subs: seq<Sub>, kind: Kind, n: nat, i: nat)
    requires i < n <= |subs|
    requires var l := Listed(subs, kind, |subs|); l == [] || n <= l[0]
    ensures !Belongs(subs, kind, i)
  {
    ListedHead(subs, kind);
  }

  /** The first two lists decide whether the run is broken, and name the cause. */
  lemma FailuresDecide(subs: seq<Sub>, failed: seq<nat>, unverified: seq<nat>)
    requires failed == Listed(subs, UncoveredFailures, |subs|) &&
      unverified == Listed(subs, FailedVerifications, |subs|)
    ensures AnyFailure(subs) <==> failed != [] || unverified != []
    ensures failed != [] || unverified != [] ==>
      FirstFailed(subs, 0) == if failed != [] then failed[0] else unverified[0]
  {
    ListedHead(subs, UncoveredFailures);
    ListedHead(subs, FailedVerifications);
    var f := if failed == [] then |subs| else failed[0];
    forall i: nat | i < f
      ensures !UncoveredFailure(subs, i)
    {
      NotListed(subs, UncoveredFailures, f, i);
    }
    FirstFailedIs(subs, 0, f);
    var u := if unverified == [] then |subs| else unverified[0];
    forall i: nat | i < u
      ensures !VerificationFailed(subs[i])
    {
      NotListed(subs, FailedVerifications, u, i);
    }
    if u < |subs| { FirstUnverifiedIs(subs, 0, u); }
  }

  lemma PendingDecides(subs: seq<Sub>, pending: seq<nat>)
    requires pending == Listed(subs, Pending, |subs|)
    ensures AnyPending(subs) <==> pending != []
  {
    ListedHead(subs, Pending);
    if pending == [] {
      forall i: nat | i < |subs|
        ensures subs[i].status.Terminal()
      {
        NotListed(subs, Pending, |subs|, i);
      }
    }
  }

  lemma UnresolvedDecides(subs: seq<Sub>, unresolved: seq<nat>)
    requires unresolved == Listed(subs, OpenRework, |subs|)
    ensures AnyUnresolved(subs) <==> unresolved != []
    ensures unresolved != [] ==> FirstUnresolved(subs, 0) == unresolved[0]
  {
    ListedHead(subs, OpenRework);
    var u := if unresolved == [] then |subs| else unresolved[0];
    forall i: nat | i < u
      ensures !ReworkUnresolved(subs[i])
    {
      NotListed(subs, OpenRework, u, i);
    }
    if u < |subs| { FirstUnresolvedIs(subs, 0, u); }
  }

  // ---------------------------------------------------------------- the whole run

  lemma StartIsSound(cfg: Config, plan: seq<Sub>)
    requires IsPlan(plan) && cfg.planned == |plan|
    ensures Sound(Start(cfg, plan)) && Idle(Start(cfg, plan)) && WithStatus(plan, Assigned) == {}
  {
    StartHasInv(cfg, plan);
    PlanIsBalanced(cfg, plan, |plan|);
    assert forall i :: 0 <= i < |plan| ==> IsPlanned(plan[i], |plan|);
  }

  lemma AcyclicPlanHasRoot(plan: seq<Sub>)
    requires IsPlan(plan) && Acyclic(plan)
    ensures SomeReady(plan)
  {
    var all := Below(|plan|);
    assert !Stuck(plan, all);
    var i: nat :| i in all && !DependsInto(plan, i, all);
    assert IsPlanned(plan[i], |plan|);
    assert IsReady(plan, i);
  }

  /** Run and task have the same verdict, and whatever is still queued hangs below a failure that was
      not repaired. */
  ghost predicate Settled(s: State) {
    && s.run.status.Final()
    && s.task.status == (if s.run.status == RunSucceeded then TaskSucceeded else TaskFailed)
    && forall i: nat :: i < |s.subs| && !s.subs[i].status.Terminal() ==>
      s.subs[i].status == Queued && BelowFailure(s.subs, i)
  }

  lemma RestIsQuiet(cfg: Config, plan: seq<Sub>, s: State)
    requires IsPlan(plan) && cfg.planned == |plan| && Reaches(Start(cfg, plan), s)
    requires Idle(s) && !SomeReady(s.subs) && WithStatus(s.subs, Assigned) == {}
    requires SomeReady(plan) ==> Reconcile(s) == s
    ensures Quiet(s.subs)
    ensures Acyclic(plan) ==> Settled(s)
    ensures NoneFailed(s.subs) ==> (s.run.status.Final() <==> Acyclic(plan))
    ensures AllSucceed(cfg) ==> NoneFailed(s.subs)
  {
    forall i: nat | i < |s.subs|
      ensures !s.subs[i].status.Active() && !IsReady(s.subs, i)
    {
      assert i !in WithStatus(s.subs, Assigned);
    }
    if Acyclic(plan) {
      AcyclicPlanHasRoot(plan);
      NoRunHangs(cfg, plan, s);
    } else if NoneFailed(s.subs) {
      CyclicPlanGetsNoVerdict(cfg, plan, s);
    }
    if AllSucceed(cfg) {
      SuccessMeansNoneFailed(cfg, plan, s);
    }
  }

  lemma RestIsBounded(cfg: Config, plan: seq<Sub>, s: State)
    requires IsPlan(plan) && cfg.planned == |plan| && Reaches(Start(cfg, plan), s) && Quiet(s.subs)
    ensures |s.subs| <= Bound(cfg)
    ensures cfg.repairEnabled && AllFail(cfg) && Independent(plan, |plan|) ==> |s.subs| == Bound(cfg)
  {
    hide Reaches, Quiet, AllFail, Independent, IsPlan, Budget, Slack, Bound;
    BoundIsProduct(cfg);
    GrowthIsLinear(cfg, plan, s);
    if cfg.repairEnabled && AllFail(cfg) && Independent(plan, |plan|) {
      BoundIsAttained(cfg, plan, s);
    }
  }

  // ---------------------------------------------------------------- the handlers

  class Swarm {
    const cfg: Config
    const run: Run
    const task: Task
    const repo: SubTaskRepository
    const bus: EventBus

    constructor (config: Config)
      ensures Valid() && fresh(Repr()) && cfg == config && bus.replay == []
      ensures Abs() == State(config, [], RunRecord(RunPending, Intake, [], NoCause),
        TaskRecord(TaskPending, NoCause), [])
    {
      cfg := config;
      run := new Run();
      task := new Task();
      repo := new SubTaskRepository();
      bus := new EventBus();
    }

    ghost function Repr(): set<object>
      reads repo
    {
      {run, task, repo, bus} + (set x | x in repo.items)
    }

    ghost predicate Valid()
      reads repo
    {
      forall i, j :: 0 <= i < j < |repo.items| ==> repo.items[i] != repo.items[j]
    }

    ghost function Abs(): State
      reads repo, Repr()
    {
      State(cfg, Views(repo.items), run.View(), task.View(), bus.events)
    }

    /** Scheduler: queued subtasks whose dependencies have succeeded become ready. */
    method GetReadySubtasks() returns (ready: seq<nat>)
      requires Valid()
      modifies repo.items
      ensures ready == ReadyIds(old(Views(repo.items)), |repo.items|)
      ensures Views(repo.items) == MarkedUpTo(old(Views(repo.items)), |repo.items|)
    {
      hide MarkedUpTo, IsReady, DependenciesSucceeded, Views;
      ghost var subs := Views(repo.items);
      ViewsLength(repo.items);
      MarkNone(subs);
      ready := [];
      for k: nat := 0 to |repo.items|
        invariant ready == ReadyIds(subs, k)
        invariant Views(repo.items) == MarkedUpTo(subs, k)
      {
        MarkingKeepsReady(subs, k);
        MarkNext(subs, k);
        ViewAt(repo.items, k);
        ReadyViewed(repo.items, k);
        if (repo.items[k].status == Queued || repo.items[k].status == Ready) && DependenciesSucceeded(repo.items, k) {
          if repo.items[k].status == Queued {
            MarkReadyAt(k);
          }
          ready := ready + [k];
        }
      }
    }

    method MarkReadyAt(k: nat)
      requires Valid() && k < |repo.items|
      modifies repo.items[k]
      ensures Views(repo.items) == old(Views(repo.items))[k := old(repo.items[k].View()).(status := Ready)]
    {
      repo.items[k].MarkReady();
    }

    method CompleteAt(k: nat, result: Option<Result>)
      requires Valid() && k < |repo.items|
      modifies repo.items[k]
      ensures var subs := old(Views(repo.items));
        Views(repo.items) == subs[k := subs[k].(status := Succeeded, result := result)]
    {
      ViewAt(repo.items, k);
      repo.items[k].Complete(result);
    }

    method FailAt(k: nat, result: Option<Result>)
      requires Valid() && k < |repo.items|
      modifies repo.items[k]
      ensures var subs := old(Views(repo.items));
        Views(repo.items) == subs[k := subs[k].(status := Failed, result := result)]
    {
      ViewAt(repo.items, k);
      repo.items[k].Fail(result);
    }

    /** Coordinator: every subtask of the batch becomes assigned. */
    method AssignBatch(ready: seq<nat>)
      requires Valid() && forall i :: i in ready ==> i < |repo.items|
      modifies repo.items
      ensures var subs := old(Views(repo.items));
        forall j: nat :: j < |subs| ==>
          Views(repo.items)[j] == if j in ready then subs[j].(status := Assigned) else subs[j]
    {
      for k: nat := 0 to |ready|
        invariant forall j: nat :: j < |repo.items| ==>
          repo.items[j].View() == (if j in ready[..k] then old(repo.items[j].View()).(status := Assigned)
            else old(repo.items[j].View()))
      {
        assert ready[k] in ready && ready[..k + 1] == ready[..k] + [ready[k]];
        repo.items[ready[k]].Assign();
      }
      assert ready[..|ready|] == ready;
    }

    /** Assigns everything that is ready and runs it, one subtask after the other; each run may
        extend the graph and dispatch again before the next one starts. */
    method DispatchReadySubtasks() returns (ghost ps: seq<Publication<Event>>)
      requires Valid() && Sound(Abs()) && Idle(Abs())
      modifies Repr()
      ensures Valid() && fresh(Repr() - old(Repr())) && old(repo.items) <= repo.items
      ensures Reaches(old(Abs()), Abs()) && Idle(Abs()) && !SomeReady(Abs().subs)
      ensures WithStatus(Abs().subs, Assigned) == old(WithStatus(Abs().subs, Assigned))
      ensures if old(SomeReady(Abs().subs)) then Reconcile(Abs()) == Abs() else Abs() == old(Abs())
      ensures Adds(old(bus.View()), bus.View(), ps) && IsBatch(ps)
      ensures Announces(ps, ReadyIds(old(Abs().subs), old(|repo.items|)))
      decreases Fuel(Abs()), 4
    {
      hide Sound, Reaches, IdleBut, Reconcile, Fuel, WithStatus, Elements, Dispatch, SomeReady, ReadyIds, Adds,
        IsBatch;
      ghost var s0 := Abs();
      var ready := PrepareBatch();
      if ready == [] {
        ps := [];
        NothingIsBatch();
        AddsNothing(bus.View());
        ReachesSelf(s0);
        return;
      }
      DispatchedBatch(s0, ready);
      ps := RunBatch(ready);
      ReachesTransitive(s0, Dispatch(s0), Abs());
    }

    /** Everything up to the publication of the batch. */
    method PrepareBatch() returns (ready: seq<nat>)
      requires Valid()
      modifies repo.items, run, task
      ensures Abs() == Dispatch(old(Abs())) && ready == ReadyIds(old(Abs()).subs, |repo.items|)
      ensures if ready == [] then !SomeReady(old(Abs()).subs) && Abs() == old(Abs()) else SomeReady(old(Abs()).subs)
    {
      ready := AssignReadyBatch();
      if ready == [] {
        return;
      }
      task.Start();
      run.SetPhase(Phase.Executing);
    }

    method AssignReadyBatch() returns (ready: seq<nat>)
      requires Valid()
      modifies repo.items
      ensures Views(repo.items) == AssignReady(old(Views(repo.items)))
      ensures ready == ReadyIds(old(Views(repo.items)), |repo.items|)
      ensures if ready == [] then !SomeReady(old(Views(repo.items))) && Views(repo.items) == old(Views(repo.items))
        else SomeReady(old(Views(repo.items)))
    {
      ghost var subs := Views(repo.items);
      ready := GetReadySubtasks();
      ReadyIdsAreReady(subs, |subs|);
      hide ReadyIds, MarkedUpTo, AssignReady, SomeReady, IsReady, Views;
      AssignBatch(ready);
      BatchIsDispatch(subs, ready, Views(repo.items));
      if ready == [] {
        NothingReady(subs);
      }
    }

    /** Publishes the assignment of each subtask of the batch in turn. */
    method RunBatch(batch: seq<nat>) returns (ghost ps: seq<Publication<Event>>)
      requires Valid() && Sound(Abs()) && Idle(Abs())
      requires batch != [] && forall a, b :: 0 <= a < b < |batch| ==> batch[a] < batch[b]
      requires Elements(batch) <= WithStatus(Abs().subs, Assigned)
      modifies Repr()
      ensures Valid() && fresh(Repr() - old(Repr())) && old(repo.items) <= repo.items
      ensures Reaches(old(Abs()), Abs()) && Idle(Abs()) && !SomeReady(Abs().subs) && Reconcile(Abs()) == Abs()
      ensures WithStatus(Abs().subs, Assigned) == old(WithStatus(Abs().subs, Assigned)) - Elements(batch)
      ensures Adds(old(bus.View()), bus.View(), ps) && IsBatch(ps) && Announces(ps, batch)
      decreases Fuel(Abs()), 3, |batch|
    {
      hide Sound, Reaches, IdleBut, Reconcile, SomeReady, Fuel, WithStatus, Elements, Adds, IsBatch;
      ghost var s0 := Abs();
      BatchHead(s0.subs, batch);
      ViewAt(repo.items, batch[0]);
      hide Views;
      ghost var r0 := bus.View();
      ps := PublishAssigned(batch[0]);
      ghost var s1, r1 := Abs(), bus.View();
      ReachKeeps(s0, s1);
      if |batch| > 1 {
        ghost var more := RunBatch(batch[1..]);
        AddsThen(r0, r1, bus.View(), ps, more);
        BatchGrows(ps, more, batch);
        ps := ps + more;
        ReachesTransitive(s0, s1, Abs());
      }
    }

    /** Publishes `subtask.assigned`; the runner handles it before this returns. */
    method PublishAssigned(i: nat) returns (ghost ps: seq<Publication<Event>>)
      requires Valid() && Sound(Abs()) && Idle(Abs())
      requires i < |repo.items| && repo.items[i].status == Assigned
      modifies Repr()
      ensures Valid() && fresh(Repr() - old(Repr())) && old(repo.items) <= repo.items
      ensures Reaches(old(Abs()), Abs()) && Idle(Abs()) && !SomeReady(Abs().subs) && Reconcile(Abs()) == Abs()
      ensures WithStatus(Abs().subs, Assigned) == old(WithStatus(Abs().subs, Assigned)) - {i}
      ensures Adds(old(bus.View()), bus.View(), ps) && IsBatch(ps) && Announces(ps, [i])
      decreases Fuel(Abs()), 2
    {
      hide Sound, Reaches, IdleBut, Reconcile, Fuel, SomeReady, WithStatus, Adds, IsBatch;
      ghost var s0 := Abs();
      assert s0.subs[i].status == Assigned;
      DeliveryReaches(s0, i);
      ghost var r := bus.View();
      bus.Note(SubtaskAssigned(i));
      assert Abs() == Deliver(s0, i);
      ghost var nested := HandleSubtaskAssigned(i);
      ReachesTransitive(s0, Deliver(s0, i), Abs());
      AddsAround(r, bus.View(), SubtaskAssigned(i), nested);
      ghost var s1 := Abs();
      bus.Record(SubtaskAssigned(i));
      assert Abs() == s1;
      ps := [Publication(SubtaskAssigned(i), nested)];
      OneIsBatch(i, nested);
    }

    /** The runner's whole handling of one assigned subtask.  A second delivery is ignored. */
    method HandleSubtaskAssigned(i: nat) returns (ghost ps: seq<Publication<Event>>)
      requires Valid()
      requires i < |repo.items| && repo.items[i].status == Assigned ==>
        Sound(Abs()) && IdleBut(Abs(), {i}) && SubtaskAssigned(i) in bus.events
      modifies Repr()
      ensures Valid() && fresh(Repr() - old(Repr())) && old(repo.items) <= repo.items
      ensures if old(i < |repo.items| && repo.items[i].status == Assigned) then
          && Reaches(old(Abs()), Abs()) && Idle(Abs()) && !SomeReady(Abs().subs) && Reconcile(Abs()) == Abs()
          && WithStatus(Abs().subs, Assigned) == old(WithStatus(Abs().subs, Assigned)) - {i}
        else Abs() == old(Abs())
      ensures old(i < |repo.items| && repo.items[i].status == Assigned) ==>
        ps != [] && IsEnd(ps[0], i) && IsReport(ps[1..])
      ensures Adds(old(bus.View()), bus.View(), ps)
      decreases Fuel(Abs()), 1
    {
      hide IdleBut, Reaches, Sound, SomeReady, Reconcile, Adds, IsEnd, IsReport;
      ps := [];
      AddsNothing(bus.View());
      if i >= |repo.items| {
        return;
      }
      if repo.items[i].status != Assigned {
        return;
      }
      ps := Execute(i);
    }

    /** The subtask runs and ends; `before` is the state in which it does so. */
    method RunToEnd(i: nat) returns (outcome: Outcome, e: Event, ghost before: State)
      requires Valid() && i < |repo.items| && repo.items[i].status == Assigned
      requires Sound(Abs()) && IdleBut(Abs(), {i}) && SubtaskAssigned(i) in bus.events
      modifies repo.items[i], bus`events
      ensures i < |before.subs| && Concluding(old(Abs()), before, i, outcome) && Abs() == Finish(before, i, outcome)
      ensures Unanswered(Abs(), i) && Balanced(cfg, Abs().subs) && Idle(Abs()) && Fuel(Abs()) < Fuel(old(Abs()))
      ensures WithStatus(Abs().subs, Assigned) == old(WithStatus(Abs().subs, Assigned)) - {i}
      ensures e == EndEvent(i, repo.items[i].status == Succeeded) && bus.events == old(bus.events) + [e]
      ensures repo.items[i].status == Succeeded || repo.items[i].status == Failed
    {
      hide Unanswered, Balanced, IdleBut, Reaches, Sound, Finish, Fuel, WithStatus;
      ghost var s1 := Abs();
      assert s1.subs[i].status == Assigned;
      outcome := RunSubtask(i);
      before := Abs();
      ReachKeeps(s1, before);
      e := EndSubtask(i, outcome);
      AfterEnd(s1, before, Abs(), i, outcome);
      EndsAs(before, i, outcome);
      assert repo.items[i].View() == Abs().subs[i];
    }

    method Execute(i: nat) returns (ghost ps: seq<Publication<Event>>)
      requires Valid() && i < |repo.items| && repo.items[i].status == Assigned
      requires Sound(Abs()) && IdleBut(Abs(), {i}) && SubtaskAssigned(i) in bus.events
      modifies Repr()
      ensures Valid() && fresh(Repr() - old(Repr())) && old(repo.items) <= repo.items
      ensures Reaches(old(Abs()), Abs()) && Idle(Abs()) && !SomeReady(Abs().subs) && Reconcile(Abs()) == Abs()
      ensures WithStatus(Abs().subs, Assigned) == old(WithStatus(Abs().subs, Assigned)) - {i}
      ensures ps != [] && IsEnd(ps[0], i) && IsReport(ps[1..])
      ensures Adds(old(bus.View()), bus.View(), ps)
      decreases Fuel(Abs()), 0
    {
      hide Unanswered, Balanced, IdleBut, Reaches, Sound, Respond, SomeReady, Reconcile, Finish, Fuel, WithStatus,
        Adds, Concluding, Views, TargetFound, Idle, IsEnd, IsReport;
      ghost var s1, r1 := Abs(), bus.View();
      var outcome, e;
      ghost var s2;
      outcome, e, s2 := RunToEnd(i);
      ghost var target, nested := HandleSubtaskTerminal(i, repo.items[i].status == Succeeded);
      ghost var s5 := Abs();
      AddsAround(r1, bus.View(), e, nested);
      bus.Record(e);
      assert Abs() == s5;
      ghost var r2 := bus.View();
      ghost var more := ReconcileRun();
      AddsThen(r1, r2, bus.View(), [Publication(e, nested)], more);
      ps := [Publication(e, nested)] + more;
      assert ps[1..] == more;
      AfterReaction(s1, s2, i, outcome, target, s5);
      ReconcileKeepsRest(s5);
    }

    /** A verifier or reviewer starts. */
    method StartValidation(i: nat)
      requires Valid() && i < |repo.items| && repo.items[i].status.Active() && SubtaskAssigned(i) in bus.events
      requires (repo.items[i].role.Verifies() || repo.items[i].role == Reviewer)
      modifies repo.items[i]
      ensures Abs() == Begin(old(Abs()), i, Verifying) && Reaches(old(Abs()), Abs())
    {
      hide Reaches;
      ghost var s := Abs();
      ViewAt(repo.items, i);
      repo.items[i].StartVerification();
      BeginReaches(s, i, Verifying);
    }

    /** Any other subtask starts, or fails while its sandbox is created. */
    method StartSandboxed(i: nat, raised: bool)
      requires Valid() && i < |repo.items| && repo.items[i].status.Active() && SubtaskAssigned(i) in bus.events
      requires !repo.items[i].role.Verifies() && repo.items[i].role != Reviewer
      modifies repo.items[i]
      ensures Abs() == Begin(old(Abs()), i, Status.Executing) ||
        (raised && Abs() == Begin(old(Abs()), i, SandboxCreating))
      ensures Reaches(old(Abs()), Abs())
    {
      hide Reaches;
      ghost var s := Abs();
      ViewAt(repo.items, i);
      repo.items[i].MarkSandboxCreating();
      BeginReaches(s, i, SandboxCreating);
      assert Abs() == Begin(s, i, SandboxCreating);
      var leased: bool := *;
      if raised && !leased {
        return;
      }
      StartInline(i);
      BeginTwice(s, i, SandboxCreating, Status.Executing);
      ReachesTransitive(s, Begin(s, i, SandboxCreating), Abs());
    }

    method StartInline(i: nat)
      requires Valid() && i < |repo.items| && repo.items[i].status.Active() && SubtaskAssigned(i) in bus.events
      requires !repo.items[i].role.Verifies() && repo.items[i].role != Reviewer
      modifies repo.items[i]
      ensures Abs() == Begin(old(Abs()), i, Status.Executing) && Reaches(old(Abs()), Abs())
    {
      hide Reaches;
      ghost var s := Abs();
      ViewAt(repo.items, i);
      repo.items[i].StartExecution();
      BeginReaches(s, i, Status.Executing);
    }

    /** The subtask runs; its status follows the runtime that was chosen.  An exception may come before
        the subtask starts, while its sandbox is created, or later. */
    method RunSubtask(i: nat) returns (outcome: Outcome)
      requires Valid() && i < |repo.items| && repo.items[i].status == Assigned && SubtaskAssigned(i) in bus.events
      modifies repo.items[i]
      ensures Abs() == old(Abs()).(subs := old(Abs()).subs[i := old(Abs()).subs[i].(status := Abs().subs[i].status)])
      ensures Abs().subs[i].status.Active() && Reaches(old(Abs()), Abs()) && outcome == cfg.outcomes(i)
    {
      hide Reaches, Views;
      ReachesSelf(Abs());
      ViewAt(repo.items, i);
      outcome := cfg.outcomes(i);
      var early: bool := *;
      if outcome.Raised? && early {
        return;
      }
      var subtask := repo.items[i];
      if subtask.role.Verifies() || subtask.role == Reviewer {
        StartValidation(i);
        return;
      }
      var sandboxed: bool := *;
      if sandboxed {
        StartSandboxed(i, outcome.Raised?);
      } else {
        StartInline(i);
      }
    }

    /** The dependencies of a subtask that are in the run, in the order in which it lists them. */
    method LoadDependencies(i: nat) returns (found: seq<nat>)
      requires i < |repo.items|
      ensures found == InRun(repo.items[i].deps, |repo.items|)
      ensures forall d: nat :: d in found <==> d in repo.items[i].deps && d < |repo.items|
    {
      var deps := repo.items[i].deps;
      found := [];
      for k: nat := 0 to |deps|
        invariant found == InRun(deps[..k], |repo.items|)
      {
        assert deps[..k + 1][..k] == deps[..k];
        if deps[k] < |repo.items| {
          found := found + [deps[k]];
        }
      }
      assert deps[..|deps|] == deps;
      InRunMembers(deps, |repo.items|);
    }

    /** The rules of a verifier: every criterion passes if nothing failed, there is evidence and every
        dependency succeeded; a subtask without criteria is given one. */
    method BuildVerificationResult(deps: seq<nat>, evidence: bool, criteria: nat) returns (passed: bool)
      requires forall d :: d in deps ==> d < |repo.items|
      ensures passed == (evidence && forall d | d in deps :: repo.items[d].status == Succeeded)
    {
      forall j | 0 <= j < |deps|
        ensures deps[j] < |repo.items|
      {
        assert deps[j] in deps;
      }
      var failures: seq<nat> := [];
      var allSucceeded := true;
      for k: nat := 0 to |deps|
        invariant failures == [] <==> forall j :: 0 <= j < k ==> repo.items[deps[j]].status != Failed
        invariant allSucceeded == forall j :: 0 <= j < k ==> repo.items[deps[j]].status == Succeeded
      {
        if repo.items[deps[k]].status == Failed {
          failures := failures + [deps[k]];
        }
        if repo.items[deps[k]].status != Succeeded {
          allSucceeded := false;
        }
      }
      passed := true;
      for c := 0 to Max(1, criteria)
        invariant passed == (c == 0 || (failures == [] && evidence && allSucceeded))
      {
        passed := passed && failures == [] && evidence && allSucceeded;
      }
    }

    /** Whether there is a verifying dependency, and whether all of them recorded a pass. */
    method CheckTesters(deps: seq<nat>) returns (any: bool, passed: bool)
      requires forall d :: d in deps ==> d < |repo.items|
      ensures any == exists d | d in deps :: repo.items[d].role.Verifies()
      ensures passed == forall d | d in deps && repo.items[d].role.Verifies() :: Passed(repo.items[d])
    {
      forall j | 0 <= j < |deps|
        ensures deps[j] < |repo.items|
      {
        assert deps[j] in deps;
      }
      any, passed := false, true;
      for k: nat := 0 to |deps|
        invariant any == exists j :: 0 <= j < k && repo.items[deps[j]].role.Verifies()
        invariant passed == forall j :: 0 <= j < k && repo.items[deps[j]].role.Verifies() ==>
          Passed(repo.items[deps[j]])
      {
        if repo.items[deps[k]].role.Verifies() {
          any := true;
          if !Passed(repo.items[deps[k]]) {
            passed := false;
          }
        }
      }
    }

    /** The rules of a reviewer: a forced decision, or accept if there is a tester and all passed. */
    method BuildReviewDecision(deps: seq<nat>, forced: Option<Decision>) returns (decision: Decision)
      requires forall d :: d in deps ==> d < |repo.items|
      ensures forced.Some? ==> decision == forced.value
      ensures forced.None? ==> (decision == Accept || decision == Rework)
      ensures forced.None? ==> (decision == Accept <==>
        (exists d | d in deps :: repo.items[d].role.Verifies()) &&
        (forall d | d in deps && repo.items[d].role.Verifies() :: Passed(repo.items[d])))
    {
      if forced.Some? {
        return forced.value;
      }
      var any, passed := CheckTesters(deps);
      decision := if passed && any then Accept else Rework;
    }

    /** A verifier ends by its verdict, and records it. */
    method EndVerification(i: nat, verdict: Option<bool>, evidence: bool) returns (completed: bool)
      requires Valid() && i < |repo.items| && repo.items[i].role.Verifies()
      modifies repo.items[i]
      ensures completed == (if verdict.Some? then verdict.value
        else RulesVerdict(old(Views(repo.items)), repo.items[i].deps, evidence))
      ensures var subs := old(Views(repo.items));
        Views(repo.items) == subs[i := subs[i].(status := if completed then Succeeded else Failed,
          result := Some(Result(Some(completed), Some(completed), None)))]
    {
      var deps := LoadDependencies(i);
      var criteria: nat := *;
      if verdict.Some? {
        completed := verdict.value;
      } else {
        completed := BuildVerificationResult(deps, evidence, criteria);
      }
      var payload := Some(Result(Some(completed), Some(completed), None));
      if completed {
        CompleteAt(i, payload);
      } else {
        FailAt(i, payload);
      }
    }

    /** A reviewer always completes, with its decision. */
    method EndReview(i: nat, structured: Option<Decision>, forced: Option<Decision>)
      requires Valid() && i < |repo.items|
      modifies repo.items[i]
      ensures var subs, deps := old(Views(repo.items)), repo.items[i].deps;
        var decision := if structured.Some? then structured.value else RulesDecision(subs, deps, forced);
        Views(repo.items) == subs[i := subs[i].(
          status := Succeeded, result := Some(Result(None, Some(TestersPassed(subs, deps)), Some(decision))))]
    {
      hide HasTester, TestersPassed, RulesDecision, Views;
      var decision, passed := DecideReview(i, structured, forced);
      CompleteAt(i, Some(Result(None, Some(passed), Some(decision))));
    }

    method DecideReview(i: nat, structured: Option<Decision>, forced: Option<Decision>)
      returns (decision: Decision, passed: bool)
      requires i < |repo.items|
      ensures var subs, deps := Views(repo.items), repo.items[i].deps;
        && decision == (if structured.Some? then structured.value else RulesDecision(subs, deps, forced))
        && passed == TestersPassed(subs, deps)
    {
      var deps := LoadDependencies(i);
      TestersViewed(repo.items, repo.items[i].deps, deps);
      hide HasTester, TestersPassed, InRun, Passed, Views;
      if structured.Some? {
        decision := structured.value;
      } else {
        decision := BuildReviewDecision(deps, forced);
      }
      var _, tested := CheckTesters(deps);
      passed := tested;
    }

    /** The subtask takes its terminal status and result, and the terminal event is noted. */
    method EndSubtask(i: nat, outcome: Outcome) returns (e: Event)
      requires Valid() && i < |repo.items|
      modifies repo.items[i], bus`events
      ensures Abs() == Finish(old(Abs()), i, outcome)
      ensures e == EndEvent(i, repo.items[i].status == Succeeded) && bus.events == old(bus.events) + [e]
    {
      hide Verdict, Views;
      ViewAt(repo.items, i);
      var completed := TakeOutcome(i, outcome);
      ViewAt(repo.items, i);
      e := if completed then SubtaskCompleted(i) else SubtaskFailed(i);
      bus.Note(e);
    }

    method TakeOutcome(i: nat, outcome: Outcome) returns (completed: bool)
      requires Valid() && i < |repo.items|
      modifies repo.items[i]
      ensures Views(repo.items) == Finish(old(Abs()), i, outcome).subs
      ensures completed <==> Verdict(old(Views(repo.items)), i, outcome).0 == Succeeded
    {
      hide RulesVerdict, RulesDecision, TestersPassed, Views;
      ViewAt(repo.items, i);
      var subtask := repo.items[i];
      completed := false;
      if outcome.Raised? {
        FailAt(i, subtask.result);
      } else if subtask.role.Verifies() {
        completed := EndVerification(i, outcome.verdict, outcome.evidence);
      } else if subtask.role == Reviewer {
        EndReview(i, outcome.decision, outcome.forced);
        completed := true;
      } else if outcome.ok {
        CompleteAt(i, Some(Result(None, None, None)));
        completed := true;
      } else {
        FailAt(i, subtask.result);
      }
    }

    /** The orchestrator's answer to a terminal event: a chain if one is due, then the next dispatch. */
    method HandleSubtaskTerminal(i: nat, completed: bool)
      returns (ghost target: Option<nat>, ghost ps: seq<Publication<Event>>)
      requires Valid() && Unanswered(Abs(), i) && Balanced(cfg, Abs().subs) && Idle(Abs())
      requires i < |repo.items| && repo.items[i].status == if completed then Succeeded else Failed
      modifies Repr()
      ensures Valid() && fresh(Repr() - old(Repr())) && old(repo.items) <= repo.items
      ensures TargetFound(old(Abs()), i, target) && Reaches(Respond(old(Abs()), i, target), Abs())
      ensures Idle(Abs()) && !SomeReady(Abs().subs)
      ensures WithStatus(Abs().subs, Assigned) == old(WithStatus(Abs().subs, Assigned))
      ensures Adds(old(bus.View()), bus.View(), ps) && IsEnd(Publication(EndEvent(i, completed), ps), i)
      decreases Fuel(Abs()), 5
    {
      hide Unanswered, Balanced, IdleBut, Reaches, Sound, Respond, SomeReady, Adds, Fuel, WithStatus, IsEnd, IsBatch;
      ghost var s, r := Abs(), bus.View();
      target, ps := MaybeGenerateChain(i, completed);
      AfterAnswer(s, i, target);
      ghost var r' := bus.View();
      ghost var more := DispatchReadySubtasks();
      AddsThen(r, r', bus.View(), ps, more);
      EndWithBatch(EndEvent(i, completed), i, ps, more);
      ps := ps + more;
    }

    method MaybeGenerateChain(i: nat, completed: bool)
      returns (ghost target: Option<nat>, ghost ps: seq<Publication<Event>>)
      requires Valid() && i < |repo.items| && repo.items[i].status == if completed then Succeeded else Failed
      modifies Repr()
      ensures Valid() && fresh(Repr() - old(Repr())) && old(repo.items) <= repo.items
      ensures TargetFound(old(Abs()), i, target) && Abs() == Respond(old(Abs()), i, target)
      ensures Adds(old(bus.View()), bus.View(), ps)
      ensures ps == [] || (|ps| == 1 && IsRequest(ps[0], EndEvent(i, completed)))
    {
      hide Adds, Respond, Views, FirstTarget;
      ViewAt(repo.items, i);
      if completed {
        target, ps := MaybeGenerateReworkChain(i);
      } else {
        target := None;
        ps := MaybeGenerateFailureRepairChain(i);
      }
    }

    method MaybeGenerateReworkChain(i: nat)
      returns (ghost target: Option<nat>, ghost ps: seq<Publication<Event>>)
      requires Valid() && i < |repo.items| && repo.items[i].status == Succeeded
      modifies Repr()
      ensures Valid() && fresh(Repr() - old(Repr())) && old(repo.items) <= repo.items
      ensures TargetFound(old(Abs()), i, target) && Abs() == Respond(old(Abs()), i, target)
      ensures Adds(old(bus.View()), bus.View(), ps) && (ps == [] || ps == [Publication(ReworkRequested(i), [])])
    {
      hide FirstTarget, Adds, SpliceRework, SpliceRepair;
      target, ps := None, [];
      AddsNothing(bus.View());
      var subtask := repo.items[i];
      if subtask.role != Reviewer {
        return;
      }
      if subtask.result.None? || subtask.result.value.decision != Some(Rework) {
        return;
      }
      if subtask.attempt >= cfg.maxAttempts {
        return;
      }
      var found := FindReworkTarget(Views(repo.items), i);
      target := found;
      if found.None? {
        return;
      }
      TargetInside(Abs().subs, i, found.value);
      ps := GenerateReworkChain(i, found.value);
    }

    method GenerateReworkChain(i: nat, t: nat) returns (ghost ps: seq<Publication<Event>>)
      requires Valid() && i < |repo.items| && t < |repo.items|
      modifies Repr()
      ensures Valid() && fresh(Repr() - old(Repr())) && old(repo.items) <= repo.items
      ensures Abs() == SpliceRework(old(Abs()), i, t)
      ensures Adds(old(bus.View()), bus.View(), ps) && ps == [Publication(ReworkRequested(i), [])]
    {
      hide Adds, Attach;
      ghost var subs := Views(repo.items);
      var chain := ReworkChain(Views(repo.items), i, t);
      repo.items[i].reworked := true;
      assert Views(repo.items) == MarkReworked(subs, i);
      ps := StoreChain(chain, ReworkRequested(i));
    }

    static method Instantiate(plan: seq<Sub>) returns (subtasks: seq<SubTask>)
      ensures |subtasks| == |plan| && forall j :: 0 <= j < |plan| ==>
        fresh(subtasks[j]) && subtasks[j].View() == plan[j]
      ensures forall i, j :: 0 <= i < j < |plan| ==> subtasks[i] != subtasks[j]
    {
      subtasks := [];
      for k: nat := 0 to |plan|
        invariant |subtasks| == k && forall j :: 0 <= j < k ==> fresh(subtasks[j]) && subtasks[j].View() == plan[j]
        invariant forall i, j :: 0 <= i < j < k ==> subtasks[i] != subtasks[j]
      {
        var subtask := new SubTask(plan[k]);
        subtasks := subtasks + [subtask];
      }
    }

    method CreateSubtasks(plan: seq<Sub>)
      requires Valid()
      modifies repo
      ensures Valid() && fresh(Repr() - old(Repr())) && old(repo.items) <= repo.items
      ensures Views(repo.items) == old(Views(repo.items)) + plan
    {
      var created := Instantiate(plan);
      repo.CreateMany(created);
      ViewsOfBoth(old(repo.items), created);
      assert Views(created) == plan;
    }

    /** Creates the three subtasks of a chain, attaches them to the run and publishes the request. */
    method StoreChain(chain: seq<Sub>, e: Event) returns (ghost ps: seq<Publication<Event>>)
      requires Valid() && |chain| == 3
      modifies repo, run, bus
      ensures Valid() && fresh(Repr() - old(Repr())) && old(repo.items) <= repo.items
      ensures var s := old(Abs());
        Abs() == s.(subs := s.subs + chain, run := Attach(s.run, |s.subs|), log := s.log + [e])
      ensures Adds(old(bus.View()), bus.View(), ps) && ps == [Publication(e, [])]
    {
      hide Adds, Views;
      ViewsLength(repo.items);
      var n := |repo.items|;
      CreateSubtasks(chain);
      run.AttachSubtasks(run.subtaskIds + [n, n + 1, n + 2]);
      ps := PublishLeaf(e);
    }

    method MaybeGenerateFailureRepairChain(i: nat) returns (ghost ps: seq<Publication<Event>>)
      requires Valid() && i < |repo.items| && repo.items[i].status == Failed
      modifies Repr()
      ensures Valid() && fresh(Repr() - old(Repr())) && old(repo.items) <= repo.items
      ensures Abs() == Respond(old(Abs()), i, None)
      ensures Adds(old(bus.View()), bus.View(), ps) && (ps == [] || ps == [Publication(RepairRequested(i), [])])
    {
      hide Adds;
      ps := [];
      AddsNothing(bus.View());
      var subtask := repo.items[i];
      if !cfg.repairEnabled {
        return;
      }
      if !subtask.role.Repairable() {
        return;
      }
      if subtask.repaired {
        return;
      }
      var attempt := subtask.attempt + 1;
      if attempt > cfg.maxAttempts {
        return;
      }
      ghost var s := Abs();
      var chain := RepairChain(Views(repo.items), i);
      subtask.repaired := true;
      assert Views(repo.items) == MarkRepaired(s.subs, i);
      CancelDescendantSubtasks(i);
      ps := StoreChain(chain, RepairRequested(i));
    }

    /** Cancels every descendant of `source` that has not ended; the new chain is not stored yet. */
    method CancelDescendantSubtasks(source: nat)
      requires Valid()
      modifies repo.items
      ensures Views(repo.items) == CancelDescendants(old(Views(repo.items)), source)
    {
      hide Descendants;
      ghost var subs := Views(repo.items);
      var descendants := CollectDescendants(Views(repo.items), source);
      for k: nat := 0 to |repo.items|
        invariant forall j: nat :: j < k ==> repo.items[j].View() == CancelOne(subs, source, j)
        invariant forall j: nat :: k <= j < |repo.items| ==> repo.items[j].View() == subs[j]
      {
        var candidate := repo.items[k];
        if k !in descendants {
          continue;
        }
        if candidate.status.Terminal() {
          continue;
        }
        candidate.status := Cancelled;
      }
    }

    /** The run-state service: the verdict is recomputed from all subtasks. */
    method ReconcileRun() returns (ghost ps: seq<Publication<Event>>)
      requires Valid()
      modifies run, task, bus
      ensures Abs() == Reconcile(old(Abs()))
      ensures Adds(old(bus.View()), bus.View(), ps) && IsReport(ps)
    {
      hide NextRun, NextTask, Announcement, Adds;
      var runBefore, taskBefore := run.View(), task.View();
      ApplyVerdict();
      ps := Announce(runBefore, taskBefore);
    }

    method ApplyVerdict()
      requires Valid()
      modifies run, task
      ensures run.View() == NextRun(Views(repo.items), old(run.View()))
      ensures task.View() == NextTask(Views(repo.items), old(task.View()))
    {
      hide AnyFailure, AnyPending, AnyUnresolved, FirstFailed, FirstUnresolved;
      var failed, unverified, pending, unresolved := Classify();
      assert |repo.items| == |Views(repo.items)|;
      if failed != [] || unverified != [] {
        FailBoth(FailureOf(if failed != [] then failed[0] else unverified[0]));
      } else if unresolved != [] && pending == [] {
        FailBoth(UnresolvedRework(unresolved[0]));
      } else if |repo.items| > 0 && pending == [] {
        run.SetPhase(Phase.Delivering);
        if run.status != RunSucceeded {
          run.Succeed();
        }
        if task.status != TaskSucceeded {
          task.Succeed();
        }
      } else {
        if task.status == TaskPlanning {
          task.Start();
        }
        if run.status == RunPending {
          run.Start();
        }
        if run.phase != Phase.Executing {
          run.SetPhase(Phase.Executing);
        }
      }
    }

    method FailBoth(cause: Cause)
      modifies run, task
      ensures run.View() == FailRun(old(run.View()), cause) && task.View() == FailTask(old(task.View()), cause)
    {
      run.SetPhase(Reviewing);
      if run.status != RunFailed {
        run.Fail(cause);
      }
      if task.status != TaskFailed {
        task.Fail(cause);
      }
    }

    /** Publishes what changed, and the terminal events if the run has ended. */
    method Announce(runBefore: RunRecord, taskBefore: TaskRecord) returns (ghost ps: seq<Publication<Event>>)
      modifies bus
      ensures bus.events == old(bus.events) + Announcement(runBefore, taskBefore, run.View(), task.View())
      ensures Adds(old(bus.View()), bus.View(), ps) && IsReport(ps)
    {
      hide Adds;
      ps := [];
      AddsNothing(bus.View());
      if runBefore.status == run.status && runBefore.phase == run.phase && taskBefore == task.View() {
        return;
      }
      ps := PublishLeaf(RunUpdated(run.status, run.phase, task.status));
      if run.status.Final() {
        ghost var r, r1 := old(bus.View()), bus.View();
        ghost var terminal := PublishLeaf(RunTerminal(run.status));
        AddsThen(r, r1, bus.View(), ps, terminal);
        ghost var r2 := bus.View();
        ghost var summary := PublishLeaf(RunSummary(run.status));
        AddsThen(r, r2, bus.View(), ps + terminal, summary);
        ps := ps + terminal + summary;
      }
    }

    /** Publishes an event to which no topic handler reacts. */
    method PublishLeaf(e: Event) returns (ghost ps: seq<Publication<Event>>)
      modifies bus
      ensures bus.events == old(bus.events) + [e] && Adds(old(bus.View()), bus.View(), ps)
      ensures ps == [Publication(e, [])]
    {
      AddsOne(bus.View(), e);
      bus.Append(e);
      ps := [Publication(e, [])];
    }

    /** The lists of uncovered failures, failed verifications, pending subtasks and open rework requests. */
    method Classify() returns (failed: seq<nat>, unverified: seq<nat>, pending: seq<nat>, unresolved: seq<nat>)
      ensures var subs := Views(repo.items);
        && (AnyFailure(subs) <==> failed != [] || unverified != [])
        && (failed != [] || unverified != [] ==>
             FirstFailed(subs, 0) == if failed != [] then failed[0] else unverified[0])
        && (AnyPending(subs) <==> pending != [])
        && (AnyUnresolved(subs) <==> unresolved != [])
        && (unresolved != [] ==> FirstUnresolved(subs, 0) == unresolved[0])
    {
      var subs := Views(repo.items);
      var covered := set j | 0 <= j < |subs| && subs[j].source.Some? :: subs[j].source.value;
      failed, unverified, pending, unresolved := [], [], [], [];
      for k: nat := 0 to |subs|
        invariant failed == Listed(subs, UncoveredFailures, k) && unverified == Listed(subs, FailedVerifications, k)
        invariant pending == Listed(subs, Pending, k) && unresolved == Listed(subs, OpenRework, k)
      {
        assert k in covered <==> Covered(subs, k);
        if subs[k].status == Failed && k !in covered { failed := failed + [k]; }
        if VerificationFailed(subs[k]) { unverified := unverified + [k]; }
        if !subs[k].status.Terminal() { pending := pending + [k]; }
        if ReworkUnresolved(subs[k]) { unresolved := unresolved + [k]; }
      }
      FailuresDecide(subs, failed, unverified);
      PendingDecides(subs, pending);
      UnresolvedDecides(subs, unresolved);
    }

    /** The orchestrator's handling of a new task whose planner answered with `plan`: when it returns,
        the whole run has happened.  An acyclic plan always leaves it with a verdict; a cyclic one never
        does as long as nothing failed, in particular when every execution succeeds. */
    method HandleTaskCreated(plan: seq<Sub>) returns (ghost ps: seq<Publication<Event>>)
      requires Valid() && IsPlan(plan) && cfg.planned == |plan| && bus.replay == []
      requires Abs() == State(cfg, [], RunRecord(RunPending, Intake, [], NoCause), TaskRecord(TaskPending, NoCause), [])
      modifies Repr()
      ensures Reaches(Start(cfg, plan), Abs()) && Quiet(Abs().subs)
      ensures Acyclic(plan) ==> Settled(Abs())
      ensures NoneFailed(Abs().subs) ==> (run.status.Final() <==> Acyclic(plan))
      ensures AllSucceed(cfg) ==> NoneFailed(Abs().subs)
      ensures |repo.items| <= Bound(cfg)
      ensures cfg.repairEnabled && AllFail(cfg) && Independent(plan, |plan|) ==> |repo.items| == Bound(cfg)
      ensures bus.events == Before(ps) && bus.replay == After(ps)
      ensures IsRun(ps) && Announces(ps[1..], ReadyIds(plan, |plan|))
      ensures EndsComeFirst(bus.replay) && MoreFollows(bus.replay)
    {
      hide Reaches, Quiet, Settled, IsPlan, NoneFailed, AllSucceed, AllFail, Independent, Adds,
        EndsComeFirst, MoreFollows, IsRun, ReadyIds, Bound;
      ps := RunPlan(plan);
      RestIsQuiet(cfg, plan, Abs());
      RestIsBounded(cfg, plan, Abs());
      assert |repo.items| == |Abs().subs|;
      PublishedFromScratch(old(bus.View()), bus.View(), ps);
    }

    /** The plan is stored and run until nothing moves. */
    method RunPlan(plan: seq<Sub>) returns (ghost ps: seq<Publication<Event>>)
      requires Valid() && IsPlan(plan) && cfg.planned == |plan|
      requires Abs() == State(cfg, [], RunRecord(RunPending, Intake, [], NoCause), TaskRecord(TaskPending, NoCause), [])
      modifies Repr()
      ensures Reaches(Start(cfg, plan), Abs()) && Idle(Abs()) && !SomeReady(Abs().subs)
      ensures WithStatus(Abs().subs, Assigned) == {} && (SomeReady(plan) ==> Reconcile(Abs()) == Abs())
      ensures Adds(old(bus.View()), bus.View(), ps) && IsRun(ps) && Announces(ps[1..], ReadyIds(plan, |plan|))
    {
      hide Sound, Reaches, IsPlan, Adds, IsBatch, IdleBut, SomeReady, WithStatus, Reconcile;
      ghost var r := bus.View();
      ps := PlanRun(plan);
      ghost var r' := bus.View();
      StartIsSound(cfg, plan);
      ghost var more := DispatchReadySubtasks();
      AddsThen(r, r', bus.View(), ps, more);
      ps := ps + more;
      assert ps[1..] == more;
    }

    /** Everything up to the first dispatch: the planned subtasks are stored, attached and announced. */
    method PlanRun(plan: seq<Sub>) returns (ghost ps: seq<Publication<Event>>)
      requires Valid() && cfg.planned == |plan|
      requires Abs() == State(cfg, [], RunRecord(RunPending, Intake, [], NoCause), TaskRecord(TaskPending, NoCause), [])
      modifies repo, run, task, bus
      ensures Valid() && fresh(Repr() - old(Repr())) && Abs() == Start(cfg, plan)
      ensures Adds(old(bus.View()), bus.View(), ps) && ps == [Publication(PlanningCompleted, [])]
    {
      hide Adds, Views;
      StorePlan(plan);
      ps := PublishLeaf(PlanningCompleted);
    }

    method StorePlan(plan: seq<Sub>)
      requires Valid() && Views(repo.items) == []
      modifies repo, run, task
      ensures Valid() && fresh(Repr() - old(Repr())) && Views(repo.items) == plan
      ensures task.View() == old(task.View()).(status := TaskPlanning)
      ensures run.View() == RunRecord(RunRunning, Coordinating, Ids(|plan|), old(run.error))
    {
      hide Views;
      assert [] + plan == plan;
      task.status := TaskPlanning;
      run.Start();
      run.SetPhase(Phase.Planning);
      CreateSubtasks(plan);
      run.AttachSubtasks(Ids(|plan|));
      run.SetPhase(Coordinating);
    }
  }
}
