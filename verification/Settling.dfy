/** When a run comes to rest, it has a verdict -- exactly if its plan is acyclic; and how far it has
    grown by then. */
module Settling {
  import opened Basics
  import opened SubTasks
  import opened DependencyGraph
  import opened Protocol
  import opened Invariant
  import opened Runs
  import opened Guarantees
  import opened GrowthBound

  /** Nothing is running and nothing can be dispatched. */
  ghost predicate Quiet(subs: seq<Sub>) {
    forall i :: 0 <= i < |subs| ==> !subs[i].status.Active() && !IsReady(subs, i)
  }

  ghost predicate BelowFailure(subs: seq<Sub>, i: nat) {
    exists f: nat :: f < |subs| && subs[f].status == Failed && !subs[f].repaired && DependsOn(subs, i, f)
  }

  /** A queued subtask that cannot be dispatched waits for an unrepaired failure, or for another one. */
  lemma QueuedHasStep(subs: seq<Sub>, i: nat) returns (d: nat)
    requires Closed(subs) && CancelClosed(subs) && AllCredible(subs) && Quiet(subs)
    requires i < |subs| && subs[i].status == Queued
    ensures BelowFailure(subs, i) ||
      (d in subs[i].deps && d < |subs| && subs[d].status == Queued && !BelowFailure(subs, d))
  {
    assert !IsReady(subs, i);
    d :| d in subs[i].deps && d < |subs| && subs[d].status != Succeeded;
    assert !subs[d].status.Active() && Credible(subs[d]);
    assert Edge(subs, i, d);
    EdgeConnects(subs, i, d);
    if BelowFailure(subs, d) {
      var f: nat :| f < |subs| && subs[f].status == Failed && !subs[f].repaired && DependsOn(subs, d, f);
      StepConnects(subs, i, d, f);
    }
  }

  lemma QueuedWaitsForFailure(subs: seq<Sub>, i: nat)
    requires Closed(subs) && CancelClosed(subs) && AllCredible(subs) && Quiet(subs) && Acyclic(subs)
    requires i < |subs| && subs[i].status == Queued
    ensures BelowFailure(subs, i)
  {
    hide Closed, CancelClosed, AllCredible, Quiet, BelowFailure;
    var c := set j: nat | j in Below(|subs|) && subs[j].status == Queued && !BelowFailure(subs, j);
    forall j: nat | j in c
      ensures DependsInto(subs, j, c)
    {
      var d := QueuedHasStep(subs, j);
    }
    assert !Stuck(subs, c);
    assert i !in c;
  }

  lemma QuietIsJudged(cfg: Config, subs: seq<Sub>)
    requires Core(cfg, subs) && Quiet(subs) && Acyclic(subs) && subs != []
    ensures Judge(subs) != Open
  {
    if i: nat :| i < |subs| && !subs[i].status.Terminal() {
      assert Credible(subs[i]);
      QueuedWaitsForFailure(subs, i);
      var f: nat :| f < |subs| && subs[f].status == Failed && !subs[f].repaired && DependsOn(subs, i, f);
      CoveredMeansRepaired(cfg, subs, f);
      assert UncoveredFailure(subs, f);
    }
  }

  /** When an acyclic run is at rest and has been reconciled, run and task have the same final
      verdict, and whatever is still queued hangs below a failure that was not repaired. */
  lemma NoRunHangs(cfg: Config, plan: seq<Sub>, s: State)
    requires IsPlan(plan) && Acyclic(plan) && cfg.planned == |plan| && Reaches(Start(cfg, plan), s)
    requires Quiet(s.subs) && Reconcile(s).run == s.run && Reconcile(s).task == s.task
    ensures s.run.status.Final() &&
      s.task.status == (if s.run.status == RunSucceeded then TaskSucceeded else TaskFailed)
    ensures forall i: nat :: i < |s.subs| && !s.subs[i].status.Terminal() ==>
      s.subs[i].status == Queued && BelowFailure(s.subs, i)
  {
    ReachableHasInv(cfg, plan, s);
    GraphStaysClosedDag(cfg, plan, s);
    QuietIsJudged(cfg, s.subs);
    forall i: nat | i < |s.subs| && !s.subs[i].status.Terminal()
      ensures s.subs[i].status == Queued && BelowFailure(s.subs, i)
    {
      assert Credible(s.subs[i]);
      QueuedWaitsForFailure(s.subs, i);
    }
  }

  // ---------------------------------------------------------------- the converse

  predicate NoneFailed(subs: seq<Sub>) {
    forall i | 0 <= i < |subs| :: subs[i].status != Failed
  }

  /** The members of `c` depend on one another, and none has moved as long as nothing failed.  (A
      repaired failure may cancel them.) */
  ghost predicate WaitInCircle(subs: seq<Sub>, c: set<nat>) {
    Stuck(subs, c) && (NoneFailed(subs) ==> forall i: nat :: i in c && i < |subs| ==> subs[i].status == Queued)
  }

  lemma CircleStays(subs: seq<Sub>, subs': seq<Sub>, c: set<nat>)
    requires WaitInCircle(subs, c) && Evolves(subs, subs')
    requires NoneFailed(subs') ==> forall i: nat :: i in c && i < |subs| ==> subs'[i].status == subs[i].status
    ensures WaitInCircle(subs', c)
  {
    forall i: nat | i in c
      ensures i < |subs| && DependsInto(subs', i, c)
    {
      assert DependsInto(subs, i, c) && Kept(subs[i], subs'[i]);
    }
    if NoneFailed(subs') {
      forall i | 0 <= i < |subs|
        ensures subs[i].status != Failed
      {
        assert Kept(subs[i], subs'[i]);
      }
    }
  }

  lemma StuckIsNotReady(subs: seq<Sub>, c: set<nat>, i: nat)
    requires WaitInCircle(subs, c) && NoneFailed(subs) && i in c
    ensures i < |subs| && !IsReady(subs, i)
  {
    assert DependsInto(subs, i, c);
    var d :| d in subs[i].deps && d in c;
    assert DependsInto(subs, d, c);
  }

  lemma DispatchKeepsCircle(s: State, c: set<nat>)
    requires Inv(s) && WaitInCircle(s.subs, c)
    ensures WaitInCircle(Dispatch(s).subs, c)
  {
    ActionGrows(s, Dispatches);
    var subs' := Dispatch(s).subs;
    forall i: nat | NoneFailed(subs') && i in c && i < |s.subs|
      ensures subs'[i].status == s.subs[i].status
    {
      assert forall j :: 0 <= j < |s.subs| ==> Kept(s.subs[j], subs'[j]);
      StuckIsNotReady(s.subs, c, i);
    }
    CircleStays(s.subs, subs', c);
  }

  /** An end that leaves no failure behind cancels nothing. */
  lemma CleanEndCancelsNothing(s: State, i: nat, t: Option<nat>, j: nat)
    requires i < |s.subs| && (t.Some? ==> t.value < |s.subs|)
    requires NoneFailed(Respond(s, i, t).subs) && |Respond(s, i, t).subs| >= |s.subs| && j < |s.subs|
    ensures Respond(s, i, t).subs[j].status == s.subs[j].status
  {
    if !ReworkDue(s.cfg, s.subs[i]) && RepairDue(s.cfg, s.subs[i]) {
      RepairLeavesFailure(s, i);
    }
  }

  lemma RepairLeavesFailure(s: State, i: nat)
    requires i < |s.subs| && RepairDue(s.cfg, s.subs[i])
    ensures !NoneFailed(SpliceRepair(s, i).subs)
  {
    assert SpliceRepair(s, i).subs[i] == CancelOne(MarkRepaired(s.subs, i), i, i);
  }

  lemma ConcludeKeepsCircle(s: State, i: nat, o: Outcome, t: Option<nat>, c: set<nat>)
    requires Inv(s) && Enabled(s, Concludes(i, o, t)) && WaitInCircle(s.subs, c)
    ensures WaitInCircle(Apply(s, Concludes(i, o, t)).subs, c)
  {
    var m, s' := Finish(s, i, o), Apply(s, Concludes(i, o, t));
    ConcludeGrows(s, i, o, t);
    forall j: nat | NoneFailed(s'.subs) && j in c && j < |s.subs|
      ensures s'.subs[j].status == s.subs[j].status
    {
      assert NoneFailed(s.subs) by {
        assert forall k :: 0 <= k < |s.subs| ==> Kept(s.subs[k], s'.subs[k]);
      }
      assert j != i && m.subs[j] == s.subs[j];
      if t.Some? { TargetInside(m.subs, i, t.value); }
      CleanEndCancelsNothing(m, i, t, j);
    }
    CircleStays(s.subs, s'.subs, c);
  }

  lemma TargetInside(subs: seq<Sub>, i: nat, t: nat)
    requires FirstTarget(subs, i, Some(t))
    ensures t < |subs|
  {
  }

  lemma ActionKeepsCircle(s: State, a: Action, c: set<nat>)
    requires Inv(s) && Enabled(s, a) && WaitInCircle(s.subs, c)
    ensures WaitInCircle(Apply(s, a).subs, c)
  {
    match a
    case Dispatches => DispatchKeepsCircle(s, c);
    case Delivers(i) =>
    case Begins(i, status) =>
      ActionGrows(s, a);
      assert forall j: nat :: j < |s.subs| && j != i ==> Apply(s, a).subs[j] == s.subs[j];
      assert NoneFailed(Apply(s, a).subs) ==> NoneFailed(s.subs);
      CircleStays(s.subs, Apply(s, a).subs, c);
    case Concludes(i, o, t) => ConcludeKeepsCircle(s, i, o, t, c);
    case Reconciles =>
  }

  lemma {:induction false} RunKeepsCircle(s: State, acts: seq<Action>, c: set<nat>)
    requires Inv(s) && Legal(s, acts) && WaitInCircle(s.subs, c)
    ensures WaitInCircle(Perform(s, acts).subs, c)
    decreases |acts|
  {
    if acts != [] {
      ActionKeepsCircle(s, acts[0], c);
      ActionKeepsInv(s, acts[0]);
      RunKeepsCircle(Apply(s, acts[0]), acts[1..], c);
    }
  }

  /** In whatever order a cyclic plan is run, it gets no verdict as long as nothing fails. */
  lemma CyclicPlanGetsNoVerdict(cfg: Config, plan: seq<Sub>, s: State)
    requires IsPlan(plan) && cfg.planned == |plan| && Reaches(Start(cfg, plan), s)
    requires !Acyclic(plan) && NoneFailed(s.subs)
    ensures !s.run.status.Final()
  {
    var c: set<nat> :| Stuck(plan, c);
    StartHasInv(cfg, plan);
    assert WaitInCircle(plan, c) by {
      assert forall i :: 0 <= i < |plan| ==> IsPlanned(plan[i], |plan|);
    }
    var acts :| Legal(Start(cfg, plan), acts) && Perform(Start(cfg, plan), acts) == s;
    RunKeepsCircle(Start(cfg, plan), acts, c);
    ReachableHasInv(cfg, plan, s);
    var i :| i in c;
    assert DependsInto(s.subs, i, c);
    assert !s.subs[i].status.Terminal();
    if Judge(s.subs) == Broken {
      var f := BrokenHasFailure(s.subs);
    }
  }

  /** A run at rest in which nothing failed has a verdict if and only if no planned subtask depends on
      itself, directly or not. */
  lemma VerdictIffAcyclic(cfg: Config, plan: seq<Sub>, s: State)
    requires IsPlan(plan) && cfg.planned == |plan| && Reaches(Start(cfg, plan), s)
    requires Quiet(s.subs) && Reconcile(s).run == s.run && Reconcile(s).task == s.task && NoneFailed(s.subs)
    ensures s.run.status.Final() <==> forall a: nat :: !DependsOn(plan, a, a)
  {
    AcyclicMeansNoCycle(plan);
    if Acyclic(plan) {
      NoRunHangs(cfg, plan, s);
    } else {
      CyclicPlanGetsNoVerdict(cfg, plan, s);
    }
  }

  // ---------------------------------------------------------------- when everything succeeds

  const SUCCESS := Finished(true, Some(true), true, Some(Accept), None)

  ghost predicate AllSucceed(cfg: Config) {
    forall i :: cfg.outcomes(i) == SUCCESS
  }

  /** A subtask that goes well succeeds and calls for nothing. */
  lemma SuccessCallsForNothing(s: State, i: nat)
    requires i < |s.subs|
    ensures var s' := Finish(s, i, SUCCESS);
      s'.subs[i].status == Succeeded && !ReworkDue(s.cfg, s'.subs[i]) && !RepairDue(s.cfg, s'.subs[i])
  {
  }

  lemma {:induction false} SuccessLeavesNoneFailed(s: State, acts: seq<Action>)
    requires AllSucceed(s.cfg) && Legal(s, acts) && NoneFailed(s.subs)
    ensures NoneFailed(Perform(s, acts).subs)
    decreases |acts|
  {
    if acts != [] {
      if acts[0].Concludes? { SuccessCallsForNothing(s, acts[0].id); }
      SuccessLeavesNoneFailed(Apply(s, acts[0]), acts[1..]);
    }
  }

  lemma SuccessMeansNoneFailed(cfg: Config, plan: seq<Sub>, s: State)
    requires IsPlan(plan) && cfg.planned == |plan| && Reaches(Start(cfg, plan), s) && AllSucceed(cfg)
    ensures NoneFailed(s.subs)
  {
    assert forall i :: 0 <= i < |plan| ==> IsPlanned(plan[i], |plan|);
    var acts :| Legal(Start(cfg, plan), acts) && Perform(Start(cfg, plan), acts) == s;
    SuccessLeavesNoneFailed(Start(cfg, plan), acts);
  }

  ghost function WithStatus(subs: seq<Sub>, status: Status): set<nat> {
    set i: nat | i in Below(|subs|) && subs[i].status == status
  }

  ghost function ActiveOnes(subs: seq<Sub>): set<nat> {
    set i: nat | i in Below(|subs|) && subs[i].status.Active()
  }

  lemma AssignShrinksQueue(subs: seq<Sub>)
    requires SomeReady(subs) && AllCredible(subs)
    ensures WithStatus(AssignReady(subs), Queued) < WithStatus(subs, Queued)
  {
    var subs' := AssignReady(subs);
    var i: nat :| i < |subs| && IsReady(subs, i);
    assert Credible(subs[i]);
    assert subs'[i] == AssignOne(subs, i);
    assert i in WithStatus(subs, Queued) && i !in WithStatus(subs', Queued);
    forall j: nat | j in WithStatus(subs', Queued)
      ensures j in WithStatus(subs, Queued)
    {
      assert subs'[j] == AssignOne(subs, j);
    }
  }

  lemma Announced(s: State, i: nat) returns (s': State)
    requires Inv(s) && i < |s.subs| && s.subs[i].status.Active()
    ensures Reaches(s, s') && Inv(s') && s'.cfg == s.cfg && s'.subs == s.subs && SubtaskAssigned(i) in s'.log
  {
    s' := s;
    ReachesSelf(s);
    if SubtaskAssigned(i) !in s.log {
      assert Told(s.subs, s.log, i);
      ReachesNext(s, Delivers(i));
      DeliverKeepsInv(s, i);
      s' := Deliver(s, i);
    }
  }

  lemma Started(s: State, i: nat) returns (s': State)
    requires Inv(s) && i < |s.subs| && s.subs[i].status.Active() && SubtaskAssigned(i) in s.log
    ensures |s'.subs| == |s.subs| && Reaches(s, s') && Inv(s') && s'.subs[i].status.Running() &&
      s' == Begin(s, i, s'.subs[i].status)
  {
    var sub := s.subs[i];
    var status := if sub.role.Verifies() || sub.role == Reviewer then Verifying else Status.Executing;
    ReachesNext(s, Begins(i, status));
    BeginKeepsInv(s, i, status);
    s' := Begin(s, i, status);
  }

  lemma EndsWell(s: State, i: nat) returns (s': State)
    requires Inv(s) && AllSucceed(s.cfg) && i < |s.subs| && s.subs[i].status.Active() && SubtaskAssigned(i) in s.log
    ensures Reaches(s, s') && Inv(s') && s' == Finish(s, i, SUCCESS)
  {
    SuccessCallsForNothing(s, i);
    ReachesNext(s, Concludes(i, SUCCESS, None));
    ActionKeepsInv(s, Concludes(i, SUCCESS, None));
    s' := Finish(s, i, SUCCESS);
  }

  /** One subtask is announced, runs and succeeds. */
  lemma OneSucceeds(s: State, i: nat) returns (s': State)
    requires Inv(s) && AllSucceed(s.cfg) && i < |s.subs| && s.subs[i].status.Active()
    ensures Reaches(s, s') && Inv(s') && s'.cfg == s.cfg
    ensures WithStatus(s'.subs, Queued) == WithStatus(s.subs, Queued) && ActiveOnes(s'.subs) < ActiveOnes(s.subs)
  {
    hide Reaches, Inv, AllSucceed;
    var announced := Announced(s, i);
    var running := Started(announced, i);
    s' := EndsWell(running, i);
    ReachesTransitive(s, announced, running);
    ReachesTransitive(s, running, s');
    OneLessActive(s.subs, s'.subs, i);
  }

  lemma OneLessActive(subs: seq<Sub>, subs': seq<Sub>, i: nat)
    requires |subs'| == |subs| && i < |subs| && subs[i].status.Active() && subs'[i].status == Succeeded
    requires forall j: nat :: j < |subs| && j != i ==> subs'[j] == subs[j]
    ensures WithStatus(subs', Queued) == WithStatus(subs, Queued) && ActiveOnes(subs') < ActiveOnes(subs)
  {
    assert i in ActiveOnes(subs) && i !in ActiveOnes(subs');
  }

  /** A run in which everything goes well comes to rest. */
  lemma SuccessComesToRest(s: State) returns (t: State)
    requires Inv(s) && AllSucceed(s.cfg)
    ensures Reaches(s, t) && Quiet(t.subs)
    decreases WithStatus(s.subs, Queued), ActiveOnes(s.subs)
  {
    if SomeReady(s.subs) {
      AssignShrinksQueue(s.subs);
      DispatchKeepsInv(s);
      ReachesNext(s, Dispatches);
      t := SuccessComesToRest(Dispatch(s));
      ReachesTransitive(s, Dispatch(s), t);
    } else if i: nat :| i < |s.subs| && s.subs[i].status.Active() {
      var s' := OneSucceeds(s, i);
      t := SuccessComesToRest(s');
      ReachesTransitive(s, s', t);
    } else {
      t := s;
      ReachesSelf(s);
    }
  }

  /** If every execution succeeds, a cyclic plan comes to rest, and in no order ever gets a verdict. */
  lemma CyclicPlanHangs(cfg: Config, plan: seq<Sub>) returns (s: State)
    requires IsPlan(plan) && cfg.planned == |plan| && !Acyclic(plan) && AllSucceed(cfg)
    ensures Reaches(Start(cfg, plan), s) && Quiet(s.subs) && Reconcile(s) == s
    ensures forall t :: Reaches(Start(cfg, plan), t) ==> !t.run.status.Final()
  {
    StartHasInv(cfg, plan);
    var t := SuccessComesToRest(Start(cfg, plan));
    s := Reconcile(t);
    ReconcileTwice(t);
    ReachesNext(t, Reconciles);
    ReachesTransitive(Start(cfg, plan), t, s);
    forall t | Reaches(Start(cfg, plan), t)
      ensures !t.run.status.Final()
    {
      SuccessMeansNoneFailed(cfg, plan, t);
      CyclicPlanGetsNoVerdict(cfg, plan, t);
    }
  }

  /** Whatever comes out of the executions, a run of the plan that comes to rest ends with a verdict. */
  ghost predicate AlwaysSettles(cfg: Config, plan: seq<Sub>)
    requires cfg.planned == |plan|
  {
    forall outcomes: nat -> Outcome, s ::
      Reaches(Start(cfg.(outcomes := outcomes), plan), s) && Quiet(s.subs) && Reconcile(s) == s ==>
        s.run.status.Final()
  }

  /** The exact condition on the plan: no planned subtask depends on itself, directly or not.  The
      planner does not check this. */
  lemma SettlesIffAcyclic(cfg: Config, plan: seq<Sub>)
    requires IsPlan(plan) && cfg.planned == |plan|
    ensures AlwaysSettles(cfg, plan) <==> forall a: nat :: !DependsOn(plan, a, a)
  {
    AcyclicMeansNoCycle(plan);
    if Acyclic(plan) {
      forall outcomes: nat -> Outcome, s | Reaches(Start(cfg.(outcomes := outcomes), plan), s) && Quiet(s.subs) &&
          Reconcile(s) == s
        ensures s.run.status.Final()
      {
        NoRunHangs(cfg.(outcomes := outcomes), plan, s);
      }
    } else {
      var s := CyclicPlanHangs(cfg.(outcomes := _ => SUCCESS), plan);
    }
  }

  // ---------------------------------------------------------------- how far a run grows

  lemma StartIsBalanced(cfg: Config, plan: seq<Sub>)
    requires IsPlan(plan) && cfg.planned == |plan|
    ensures Balanced(cfg, Start(cfg, plan).subs)
  {
    PlanIsBalanced(cfg, plan, |plan|);
  }

  /** A plan of `n` subtasks with a repair budget of `m` never has more than `n * (1 + 3 * m)`
      subtasks; what exists and the budget not yet spent always add up to that number. */
  lemma GrowthIsLinear(cfg: Config, plan: seq<Sub>, s: State)
    requires IsPlan(plan) && cfg.planned == |plan| && Reaches(Start(cfg, plan), s)
    ensures |s.subs| <= |plan| * (1 + 3 * Budget(cfg))
    ensures |s.subs| + Slack(cfg, s.subs, |s.subs|) == |plan| * (1 + 3 * Budget(cfg))
  {
    StartHasInv(cfg, plan);
    StartIsBalanced(cfg, plan);
    ReachableHasInv(cfg, plan, s);
    assert Placed(cfg, s.subs);
    BoundIsProduct(cfg);
    hide Inv, IsPlan, Budget, Start, Placed, Slack, Bound;
    var acts :| Legal(Start(cfg, plan), acts) && Perform(Start(cfg, plan), acts) == s;
    RunKeepsBalance(Start(cfg, plan), acts);
    BalanceBounds(cfg, s.subs);
  }

  // ---------------------------------------------------------------- when everything fails

  ghost predicate AllFail(cfg: Config) {
    forall i :: cfg.outcomes(i) == Raised
  }

  predicate NoneSucceeded(subs: seq<Sub>) {
    forall i | 0 <= i < |subs| :: subs[i].status != Succeeded
  }

  /** Subtasks that may be repaired and depend on nothing. */
  predicate Independent(subs: seq<Sub>, n: nat)
    requires n <= |subs|
  {
    forall i | 0 <= i < n :: subs[i].role.Repairable() && subs[i].deps == []
  }

  lemma FailedRespondAddsNoSuccess(s: State, i: nat, t: Option<nat>)
    requires NoneSucceeded(s.subs) && i < |s.subs|
    ensures NoneSucceeded(Respond(s, i, t).subs)
  {
  }

  lemma {:induction false} FailureLeavesNoneSucceeded(s: State, acts: seq<Action>)
    requires AllFail(s.cfg) && Legal(s, acts) && NoneSucceeded(s.subs)
    ensures NoneSucceeded(Perform(s, acts).subs)
    decreases |acts|
  {
    if acts != [] {
      if acts[0].Concludes? { FailedRespondAddsNoSuccess(Finish(s, acts[0].id, Raised), acts[0].id, acts[0].target); }
      FailureLeavesNoneSucceeded(Apply(s, acts[0]), acts[1..]);
    }
  }

  /** The head of every group is a copy of a planned subtask. */
  lemma {:induction false} HeadIsIndependent(cfg: Config, subs: seq<Sub>, c: nat)
    requires Placed(cfg, subs) && NoneSucceeded(subs) && Independent(subs, cfg.planned)
    requires c < |subs| && (subs[c].part == Planned || subs[c].part == Repair)
    ensures subs[c].role.Repairable() && forall d :: d !in subs[c].deps
    decreases c
  {
    assert PlacedAt(cfg, subs, c);
    if subs[c].part == Repair {
      assert subs[c].source.Some?;
      var f := subs[c].source.value;
      assert PlacedAt(cfg, subs, f);
      HeadIsIndependent(cfg, subs, f);
    }
  }

  /** At rest, a group of failures has nothing left to spend. */
  lemma NoRoomAtRest(cfg: Config, subs: seq<Sub>, c: nat)
    requires Core(cfg, subs) && AllAnswered(cfg, subs) && Quiet(subs) && cfg.repairEnabled
    requires NoneSucceeded(subs) && Independent(subs, cfg.planned) && c < |subs|
    ensures Room(cfg, subs, c) == 0
  {
    assert PlacedAt(cfg, subs, c) && Answered(cfg, subs, c);
    if subs[c].part == Planned || subs[c].part == Repair {
      HeadIsIndependent(cfg, subs, c);
      assert subs[c].status == Cancelled ==> HasDeadDependency(subs, c);
      assert Credible(subs[c]) && !IsReady(subs, c);
      assert subs[c].status == Failed;
    }
  }

  lemma {:induction false} NoSlack(cfg: Config, subs: seq<Sub>, k: nat)
    requires k <= |subs| && forall i: nat :: i < k ==> Room(cfg, subs, i) == 0
    ensures Slack(cfg, subs, k) == 0
  {
    if k > 0 { NoSlack(cfg, subs, k - 1); }
  }

  /** The bound on growth is attained: by independent subtasks of which every execution fails. */
  lemma BoundIsAttained(cfg: Config, plan: seq<Sub>, s: State)
    requires IsPlan(plan) && cfg.planned == |plan| && Reaches(Start(cfg, plan), s) && Quiet(s.subs)
    requires cfg.repairEnabled && AllFail(cfg) && Independent(plan, |plan|)
    ensures |s.subs| == |plan| * (1 + 3 * Budget(cfg))
  {
    var start := Start(cfg, plan);
    ReachesSelf(start);
    VerdictIsStable(cfg, plan, start, s);
    ReachableHasInv(cfg, plan, s);
    var acts :| Legal(start, acts) && Perform(start, acts) == s;
    assert NoneSucceeded(plan) by {
      assert forall i :: 0 <= i < |plan| ==> IsPlanned(plan[i], |plan|);
    }
    FailureLeavesNoneSucceeded(start, acts);
    assert Independent(s.subs, |plan|) by {
      assert forall i :: 0 <= i < |plan| ==> Kept(plan[i], s.subs[i]);
    }
    forall c: nat | c < |s.subs|
      ensures Room(cfg, s.subs, c) == 0
    {
      NoRoomAtRest(cfg, s.subs, c);
    }
    NoSlack(cfg, s.subs, |s.subs|);
    GrowthIsLinear(cfg, plan, s);
  }
}
