# SwarmMind orchestration: a verified model

SwarmMind plans a task as a graph of subtasks, hands out the ones that are ready, runs them with agents, and lets
the graph extend itself: a failed subtask may get a repair chain (repair, verification, review), a reviewer's rework
decision may get one too, and descendants of a repaired failure are cancelled. All of this happens inside one
synchronous, re-entrant event bus, and after every execution the run's verdict is recomputed from scratch.

This project models that protocol twice and connects the two:

* **as a state machine** (`Protocol`) whose five actions -- dispatch, deliver, begin, conclude, reconcile -- may
  interleave in any order, with one inductive invariant (`Invariant`, `Runs`) and the guarantees that follow from it
  (`Guarantees`, `Provenance`, `GrowthBound`, `Settling`);
* **as the program** (`Orchestration`): classes with mutable fields, subtasks shared by reference, and the handlers
  of the scheduler, coordinator, orchestrator, runner and run-state service calling one another through the bus
  before they return, wired as `swarmmind/app/container.py:273-278` wires them. Every handler is proved to do nothing
  but protocol steps, and the nested recursion is proved to end. So each guarantee about all reachable states holds
  of the program. The outcome of each execution is fixed beforehand in the configuration; as every subtask is executed
  at most once this excludes no run, and it lets the contracts speak of runs in which, say, everything succeeds.

`Provenance` says where statuses, results and chains come from, `Announcements` how often a run's end is announced and
which cause it names, `Reports` what the history says about the run, and `Nesting` what is published while what is
handled. `TwoFailures` is a run that announces its end twice and names two causes, and `OtherRuns` says what other runs
of the process can do to one. Around this stand six smaller models: the bus history against the recorded replay
(`Publications`, `EventHistory`), replay paging and the run event stream (`ReplayPaging`), server-sent events
(`ServerSentEvents`), plan naming (`PlanNames`), the audit sanitiser (`AuditSanitizer`, `AuditLossless`), and the
in-memory vector memory (`VectorSearch`). `Basics` and `Strings` hold what they share.

`dafny verify dfyconfig.toml` checks everything.

## What is established

For every plan, every repair budget and every outcome of every execution:

* A run is reported as succeeded only if all subtasks have ended, every failure heads a sequence of repairs of
  strictly increasing attempts whose last one succeeded together with its verification and its review, and every
  rework decision was carried out. It is reported as failed only for a cause that could not be repaired.
* A reported verdict never changes, though each reconciliation computes it anew; all terminal events of a run agree.
  A succeeded run announces its end once. Whatever other runs do to the task record they share, and whenever, the
  verdict is as stable as if the run were alone.
* Every subtask that has ended did so as its execution came out, whatever happened in between; and exactly the
  failures and rework decisions that the budget, the role and the task allow are answered by a chain, whose parts are
  determined: a rework chain repairs, in the role of its author, the work at the end of the first way from the reviewer.
* What the history says of the run is exactly what was recorded: when a run has ended and is reconciled, the last
  update reports its records, its end and its summary follow at once, and then nothing more.
* Each subtask is announced at most once and ends with exactly one terminal event; each makes at most one chain.
* `n` planned subtasks with a budget of `m` never become more than `n * (1 + 3 * m)`: that number is always what
  exists plus the budget not yet spent. Independent subtasks whose executions all fail attain it.
* Cancellation never meets a subtask that was handed out.
* The bus history and the recorded replay of the whole run are the two orders of one tree of publications of a fixed
  shape, in which every batch goes out in the order in which its subtasks were created; in the replay each subtask's
  announcement comes after its end, and the end of the run before some announcement: when the status turns final, the
  replay is never complete yet.

Where the code does not do what one would expect, the exact condition is proved:

* **A run always ends with a verdict if and only if the plan has no cycle.** The planner drops self-dependencies and
  unknown names (`swarmmind/orchestration/planner.py:463`) but does not look for cycles: two subtasks that list each
  other pass it. An acyclic plan ends with a verdict whatever happens; a cyclic one never gets one as long as nothing
  fails, in particular when every execution succeeds. Both are part of the contract of the handler that runs the task.
* **A failed run announces its end again for every reconciliation that follows another dispatch, and the causes
  recorded for run and task differ if and only if a subtask created before the one the run names has failed
  uncovered.** In a concrete run of three coders the end is announced twice, the run names the second of them and the
  task the first. Each cause, once recorded, is and stays uncovered or open.
* **A task that has several runs follows whichever was reconciled last**, so it can be reported as succeeded while one
  of its runs is reported as failed.
* **Server-sent events come back if and only if no payload contains U+0085, U+2028 or U+2029.** `json.dumps` with
  `ensure_ascii=False` leaves these in place and `splitlines` breaks on them; the blocks are still found, but one such
  payload makes the parser fail on the whole stream.
* **Dependencies of a plan of two or more subtasks lead where their names say if and only if the names are non-empty,
  in normal form and distinct.** Dependencies are looked up among the normalised names without being normalised
  themselves, so `"Design"` is silently dropped, and `"a"` can lead to the subtask that was called `"A"`.
* **The run event stream is complete if and only if neither its start nor any replay it read was more than one page of
  256 entries per remaining reading behind.** Of a run of 513 entries that has ended before, the last is never sent.
* **The audit sanitiser returns a value unchanged if and only if**, as far down as the depth limit, all texts and
  containers are within the limits or end exactly like truncated ones -- a list or mapping one too long with the note
  of 1, a text 24 characters too long with the note of 24 -- and nothing lies deeper, except a text that is printed as
  itself. **Its output is JSON if and only if** no number that it keeps is infinite or not a number: not a number by
  itself is passed through.

## How the program is represented

* Identifiers drawn with `uuid4` are taken to be fresh; subtasks are named by their position in creation order.
* The repositories are the default in-memory ones, which hand out the stored objects
  (`swarmmind/app/container.py:356-363`).
* The orchestration models hold one run; `OtherRuns` adds rows of other runs to the repository and lets them change
  the shared task record before any step.
* What an agent, a model or a sandbox answers is an arbitrary `Outcome`, one for each subtask. Any exception during an
  execution is one such outcome; none is assumed after a subtask has been completed
  (`swarmmind/orchestration/execution_runner.py:196-197` would turn its success into a failure).
* Error messages are represented by their cause.
* Wildcard subscribers publish nothing.
* Whether a text decodes to a JSON object, lower-casing, `repr`, the square root and the token digest are parameters
  with the laws that are needed.
* The record classes `SubTask`, `Task`, `Run` mirror `swarmmind/models/task.py:65-161` and
  `swarmmind/models/run.py:49-76`; their one-line transitions have no rows below.

## Model

| member | source | states |
|---|---|---|
| DependencyGraph.AcyclicMeansNoCycle | swarmmind/orchestration/planner.py:459-463 | the notion of cycle used in the proofs (a set whose members all depend into it) is exactly "some subtask depends on itself, directly or not" |
| DependencyGraph.CollectDescendants | swarmmind/orchestration/task_orchestrator.py:364-375 | the worklist ends on any graph, cyclic ones included, and returns exactly the subtasks that depend on the source through one or more edges |
| DependencyGraph.FindReworkTarget | swarmmind/orchestration/task_orchestrator.py:377-396 | the search ends on any graph; it returns the producing ancestor at the end of the earliest way -- fewest dependencies first, ways of one length in the order in which dependencies are listed -- and none only if no way leads to one |
| DependencyGraph.FrontIsFirst | swarmmind/orchestration/task_orchestrator.py:379-395 | at any moment of the search no way to a producing ancestor is earlier than the way to the front of the queue; an empty queue means there is none |
| DependencyGraph.FirstIsNearest | swarmmind/orchestration/task_orchestrator.py:377-396 | the ancestor found is one at the least dependency distance |
| DependencyGraph.FirstTargetIsUnique | swarmmind/orchestration/task_orchestrator.py:377-396 | a graph and a reviewer leave no choice of what is sent back |
| DependencyGraph.FirstListedIsSentBack | swarmmind/orchestration/task_orchestrator.py:379-394 | if some dependency that the reviewer lists produces, the first such one is sent back |
| Invariant.FinishAdvances | swarmmind/orchestration/execution_runner.py:658-699 | a verifier that succeeds has passed, and a reviewer that runs after gating records `verification_passed` true |
| Invariant.TargetSucceeded | swarmmind/orchestration/task_orchestrator.py:377-396 | the subtask a review sends back has succeeded |
| Invariant.DescendantsWait | swarmmind/orchestration/task_orchestrator.py:351-362 | every descendant of a subtask that has not succeeded is queued or cancelled, so cancelling never touches one that was handed out |
| Invariant.RepairKeepsCancellation | swarmmind/orchestration/task_orchestrator.py:326-333 | after a repair splice, whatever depends on a repaired or cancelled subtask is cancelled, and every cancelled one has such a dependency |
| Invariant.RepairKeepsCore | swarmmind/orchestration/task_orchestrator.py:243-333 | splicing a repair chain keeps the graph closed, gating, results, cancellation, chain layout and flags |
| Invariant.ReworkKeepsCore | swarmmind/orchestration/task_orchestrator.py:133-224 | the same for a rework chain |
| Runs.FinishLeavesUnanswered | swarmmind/orchestration/execution_runner.py:715-730 | what holds between a terminal event and the orchestrator's answer: if the run is already final it is failed, for another failure that stays uncovered |
| Runs.RespondRestoresInv | swarmmind/orchestration/task_orchestrator.py:77-93 | the orchestrator's answer to a terminal event restores the whole invariant, including coverage of the failure before any reconciliation can see it |
| Runs.ActionKeepsInv | swarmmind/orchestration/task_orchestrator.py:77-131 | every action, taken in any invariant state, keeps the invariant |
| Runs.ReachableHasInv | swarmmind/orchestration/task_orchestrator.py:42-75 | every state of every run of every plan satisfies the invariant |
| Guarantees.HandedOutMeansAncestorsSucceeded | swarmmind/orchestration/scheduler.py:14-27 | whatever is neither queued nor cancelled has all its ancestors succeeded, at any distance |
| Guarantees.NoSuccessFailedVerification | swarmmind/orchestration/run_state_service.py:58-62 | the list of successes with a failed verification is always empty |
| Guarantees.CoveredMeansRepaired | swarmmind/orchestration/run_state_service.py:47-56 | a failure is covered exactly if its own repair chain was generated; no rework chain covers a failure by accident |
| Guarantees.SuccessIsJustified | swarmmind/orchestration/run_state_service.py:47-116 | a succeeded run has only ended subtasks; each failed one is mended by repairs of strictly increasing attempts, each followed by the tester that depends on it and the reviewer that depends on the tester, and the last repair, its tester and its reviewer succeeded; each rework decision has such a chain |
| Guarantees.FailureIsJustified | swarmmind/orchestration/run_state_service.py:75-103 | a failed run has a failure that was not eligible for repair, or has ended entirely with a rework decision whose budget was spent or that had nothing to send back |
| Guarantees.VerdictIsStable | swarmmind/orchestration/run_state_service.py:75-123 | once succeeded or failed, no later step changes the run's status; ended subtasks stay as they ended; the history only grows |
| Guarantees.ReconcileTwice | swarmmind/orchestration/run_state_service.py:125-130 | reconciling again without a change to the subtasks changes nothing and publishes nothing |
| Guarantees.TerminalEventsAgree | swarmmind/orchestration/run_state_service.py:150-169 | all terminal events of a run, over its whole history, report the same status |
| Guarantees.ExactlyOnce | swarmmind/orchestration/execution_runner.py:144-153 | each subtask is announced at most once, has exactly one terminal event if and only if it succeeded or failed, and makes at most one chain although the rework generator does not test its flag |
| Guarantees.HistoryFollowsDependencies | swarmmind/orchestration/task_orchestrator.py:95-131 | in the history, a subtask is announced only after all its dependencies completed |
| Guarantees.GraphStaysClosedDag | swarmmind/orchestration/task_orchestrator.py:221-224 | an acyclic plan stays acyclic however the graph grows, every dependency resolves, and the run lists exactly its subtasks in creation order, each once |
| Guarantees.CancelledWasNeverHandedOut | swarmmind/orchestration/task_orchestrator.py:351-362 | a cancelled subtask was never announced, and in an acyclic plan hangs below a repaired failure |
| Provenance.OutcomeDecides | swarmmind/orchestration/execution_runner.py:658-730 | in every reachable state each ended subtask ended as its execution came out: by exception as failed; a verifier by its structured verdict or else by the evidence, recorded under both keys whichever it was; a reviewer as succeeded with its structured decision, or else the forced one, or else accept exactly if it depends on a verifier; any other by whether its work succeeded; and all its dependencies had succeeded |
| Provenance.ReworkSendsBackTarget | swarmmind/orchestration/task_orchestrator.py:151-219 | every rework chain answers a rework decision by a repair in the role of the work that the first way from the reviewer leads to, a tester that names that work as source, and a reviewer, each depending on the one before and with the next attempt number |
| Provenance.RepairRepeatsFailure | swarmmind/orchestration/task_orchestrator.py:261-324 | every failure chain repeats the failed subtask in its role and with its dependencies in their order, followed by a tester and a reviewer, all naming it as source |
| Provenance.RepairedIff | swarmmind/orchestration/task_orchestrator.py:244-259 | a failure is repaired if and only if the task allows it, its role is coder, writer, researcher or planner, and an attempt is left |
| Provenance.ReworkedIff | swarmmind/orchestration/task_orchestrator.py:133-155 | a chain answers a subtask with success exactly if that is a rework decision with an attempt left and some producing ancestor |
| Provenance.DispatchIsExact | swarmmind/orchestration/task_orchestrator.py:95-107 | a dispatch hands out every queued subtask whose dependencies have all succeeded, all at once, and changes no other |
| Provenance.StatusFitsRole | swarmmind/orchestration/execution_runner.py:228-243 | a running verifier or reviewer has the status of a verification, anything else that of a sandbox or an execution |
| GrowthBound.GroupIsUnspent | swarmmind/orchestration/task_orchestrator.py:136-149 | whoever is about to make a chain belongs to a planned subtask or chain that has made none: "the repair failed" and "its review asked for rework" exclude each other |
| Settling.GrowthIsLinear | swarmmind/orchestration/task_orchestrator.py:253-259 | at most `n * (1 + 3 * m)` subtasks ever exist; what exists plus the budget not yet spent is exactly that number in every reachable state |
| Settling.NoRunHangs | swarmmind/orchestration/run_state_service.py:75-123 | an acyclic run at rest and reconciled has a final status that task and run share, and whatever is still queued hangs below a failure that was not repaired |
| Settling.CyclicPlanGetsNoVerdict | swarmmind/orchestration/planner.py:462-463 | in no order of steps does a cyclic plan get a verdict as long as no subtask has failed |
| Settling.VerdictIffAcyclic | swarmmind/orchestration/run_state_service.py:75-123 | a run at rest in which nothing failed has a verdict if and only if no planned subtask depends on itself, directly or not |
| Settling.CyclicPlanHangs | swarmmind/orchestration/planner.py:462-463 | if every execution succeeds, a cyclic plan comes to rest, and no state that it can reach in any order has a verdict |
| Settling.SettlesIffAcyclic | swarmmind/orchestration/planner.py:462-463 | the exact condition on the plan under which every run at rest has a verdict whatever comes out of the executions: no planned subtask depends on itself, directly or not |
| Settling.BoundIsAttained | swarmmind/orchestration/task_orchestrator.py:253-259 | independent repairable subtasks whose executions all fail end with exactly `n * (1 + 3 * m)` subtasks |
| Announcements.SuccessAnnouncedOnce | swarmmind/orchestration/run_state_service.py:125-169 | a succeeded run has published exactly one terminal event |
| Announcements.FailureAnnouncedAgainIff | swarmmind/orchestration/run_state_service.py:125-169 | after the failure a failed run publishes one more terminal event for every reconciliation that follows another dispatch, and no others |
| Announcements.ErrorIsStable | swarmmind/orchestration/run_state_service.py:75-88 | the cause recorded for a failed run never changes, and is an uncovered failure or an open rework decision in every later state as well |
| Announcements.ErrorsDifferIff | swarmmind/orchestration/run_state_service.py:78-82 | after a reconciliation that follows a dispatch, the cause recorded for the task differs from the run's if and only if a subtask created before the one the run names has failed uncovered |
| TwoFailures.CausesCanDiffer | swarmmind/orchestration/run_state_service.py:75-88 | a concrete run for both: a reachable, reconciled state of three coders without repair in which the run names the second, the task the first, and the end has been announced twice |
| Reports.HistoryIsWellReported | swarmmind/orchestration/run_state_service.py:125-185 | the history begins with the plan; each update reports a running run, or a final status with the phase and task status that belong to it, and then the end and the summary of that status follow at once; neither stands anywhere else |
| Reports.EndIsReported | swarmmind/orchestration/run_state_service.py:125-185 | in every reachable reconciled state with a final status the last update reports exactly the status, phase and task status recorded, the end and the summary follow it at once, and nothing more is said of the run |
| Reports.RecordsAreExact | swarmmind/orchestration/run_state_service.py:75-123 | the ways in which status, phase, task status and causes of run and task can stand to each other in a reachable state |
| Reports.ReconcileIsExact | swarmmind/orchestration/run_state_service.py:75-123 | a reconciliation fails the run exactly if some failure is unrepaired, or everything has ended with a rework decision not carried out; it succeeds exactly if everything has ended and neither is the case; the task follows |
| Reports.CauseIsFirst | swarmmind/orchestration/run_state_service.py:75-103 | the cause recorded is the first unrepaired failure in creation order, or else the first rework decision not carried out |
| OtherRuns.OthersLeaveList | swarmmind/repositories/in_memory/__init__.py:96-97 | rows that other runs add or change do not change what the repository lists for a run |
| OtherRuns.VerdictSurvivesOthers | swarmmind/orchestration/run_state_service.py:34-42 | if others overwrite the task record arbitrarily before every step, all invariants still hold and a final run status still never changes |
| OtherRuns.LastReconcileWins | swarmmind/orchestration/run_state_service.py:75-123 | whatever the task record held, a reconciliation with a verdict gives the task that verdict |
| OtherRuns.TaskCanContradictRun | swarmmind/orchestration/run_state_service.py:104-116 | a run that is and stays failed can have a task reported as succeeded, after the reconciliation of another run |
| Orchestration.Swarm.GetReadySubtasks | swarmmind/orchestration/scheduler.py:9-27 | the ready list is computed against the statuses before the call, although the loop changes statuses as it goes; exactly the listed subtasks are marked |
| Orchestration.Swarm.AssignBatch | swarmmind/orchestration/coordinator.py:69-113 | every subtask of the batch becomes assigned and nothing else changes |
| Orchestration.BatchIsDispatch | swarmmind/orchestration/task_orchestrator.py:96-101 | marking and assigning in two loops is the protocol's dispatch of all ready subtasks at once; the batch is empty exactly if none is ready |
| Orchestration.Swarm.PrepareBatch | swarmmind/orchestration/task_orchestrator.py:95-107 | scheduler, coordinator and record updates together are one dispatch action; nothing changes when nothing is ready |
| Orchestration.Swarm.DispatchReadySubtasks | swarmmind/orchestration/task_orchestrator.py:95-131 | it returns, having taken only protocol steps and having announced exactly the ready subtasks, in creation order; nothing is running or ready any more, the subtasks an outer dispatch still has to publish are untouched, and if anything was dispatched the run is reconciled |
| Orchestration.Swarm.RunBatch | swarmmind/orchestration/task_orchestrator.py:109-131 | the batch is published in its order, one subtask after the other, each with everything it sets off before the next; the members stay assigned until their turn however much the earlier ones dispatch |
| Orchestration.Swarm.PublishAssigned | swarmmind/orchestration/task_orchestrator.py:112-131 | publishing one assignment runs that subtask, everything it sets off, and a final reconciliation |
| Orchestration.Swarm.HandleSubtaskAssigned | swarmmind/orchestration/execution_runner.py:133-153 | an assigned subtask is executed; a second delivery changes nothing |
| Orchestration.Swarm.Execute | swarmmind/orchestration/execution_runner.py:155-221 | execution, terminal event, re-entrant answer and reconciliation are protocol steps, published in this nesting, and leave the run reconciled |
| Orchestration.Swarm.RunSubtask | swarmmind/orchestration/execution_runner.py:223-243 | whichever runtime is chosen, a subtask only moves through the running statuses of its role before its outcome |
| Orchestration.Swarm.LoadDependencies | swarmmind/orchestration/execution_runner.py:921-924 | exactly the listed dependencies that are in the run, in the order and as often as they are listed |
| Orchestration.Swarm.BuildVerificationResult | swarmmind/orchestration/execution_runner.py:1090-1115 | the rules pass exactly if there is evidence and every dependency succeeded, whatever the number of criteria |
| Orchestration.Swarm.CheckTesters | swarmmind/orchestration/execution_runner.py:1123-1124 | whether a verifying dependency exists, and whether all of them recorded a pass |
| Orchestration.Swarm.BuildReviewDecision | swarmmind/orchestration/execution_runner.py:1117-1125 | a forced decision is taken; otherwise accept exactly if there is a verifying dependency and all passed, else rework |
| Orchestration.Swarm.EndVerification | swarmmind/orchestration/execution_runner.py:658-672 | a verifier ends as succeeded or failed by its structured or rule-based verdict, and records it under both keys |
| Orchestration.Swarm.EndReview | swarmmind/orchestration/execution_runner.py:686-700 | a reviewer always succeeds, with its structured or rule-based decision and whether all testers passed |
| Orchestration.Swarm.EndSubtask | swarmmind/orchestration/execution_runner.py:658-730 | for every role and outcome, status, result and terminal event are those of the protocol |
| Orchestration.Swarm.HandleSubtaskTerminal | swarmmind/orchestration/task_orchestrator.py:77-93 | the answer is one of the two splices or none, with the first rework target, followed by a complete dispatch; while the terminal event is handled at most one request for a chain is published, and then the next batch |
| Orchestration.Swarm.MaybeGenerateReworkChain | swarmmind/orchestration/task_orchestrator.py:133-241 | role, decision, budget and target decide; the chain sends back the first producing ancestor, and the request is published exactly with it |
| Orchestration.Swarm.MaybeGenerateFailureRepairChain | swarmmind/orchestration/task_orchestrator.py:243-349 | constraint, role, flag and budget decide; descendants are cancelled before the chain exists |
| Orchestration.Swarm.StoreChain | swarmmind/orchestration/task_orchestrator.py:221-224 | three fresh subtasks are appended, and the run lists them in the repository's order |
| Orchestration.Swarm.CancelDescendantSubtasks | swarmmind/orchestration/task_orchestrator.py:351-362 | exactly the unfinished descendants become cancelled |
| Orchestration.Swarm.Classify | swarmmind/orchestration/run_state_service.py:47-73 | the four lists are empty exactly if no subtask qualifies, and their heads are the first that do |
| Orchestration.FailuresDecide | swarmmind/orchestration/run_state_service.py:75-79 | the run is broken exactly if one of the first two lists has a member, and the cause is the head of the first non-empty one |
| Orchestration.Swarm.ApplyVerdict | swarmmind/orchestration/run_state_service.py:75-123 | branching on the lists and mutating run and task gives the verdict of the specification |
| Orchestration.Swarm.Announce | swarmmind/orchestration/run_state_service.py:125-185 | nothing is published unless status, phase or task changed; an update carries the records as they are after the reconciliation, and after a final one the end and the summary follow |
| Orchestration.Swarm.ReconcileRun | swarmmind/orchestration/run_state_service.py:32-185 | a reconciliation is one protocol action |
| Orchestration.Swarm.RunPlan | swarmmind/orchestration/task_orchestrator.py:49-75 | planning and the first dispatch leave nothing assigned, running or ready, by protocol steps only |
| Nesting.EndComesFirst | swarmmind/app/container.py:273-278 | in the replay of a run, every announcement of a subtask comes after that subtask's terminal event |
| Nesting.AssignmentComesLast | swarmmind/app/container.py:273-278 | as the end of a run is only ever published while some assignment is handled, the replay records an assignment after it |
| Orchestration.Swarm.HandleTaskCreated | swarmmind/orchestration/task_orchestrator.py:42-75 | when it returns the whole run has happened by protocol steps and is at rest; for an acyclic plan run and task have a shared final verdict and whatever is queued hangs below an unrepaired failure; if nothing failed -- in particular if every execution succeeds -- there is a verdict exactly if the plan is acyclic; the growth bound holds and is attained; history and replay are the two orders of one tree of publications in which each batch goes out in creation order, each assignment is followed by the end of its subtask and then a reconciliation, and each end by at most one request for a chain and then the next batch; each subtask's end is recorded before its announcement, and each end of the run before some later announcement |
| EventHistory.InMemoryEventBus.HandleEvent | swarmmind/sandbox/replay_recorder.py:16-42 | the event goes to its run's replay and to no other; events without a known run are dropped |
| EventHistory.ReplayRoot.Record | swarmmind/sandbox/replay_recorder.py:36-40 | the timeline gets the event, the artifact list its non-empty artifact unless known |
| EventHistory.InMemoryEventBus.Publish | swarmmind/events/in_memory_bus.py:18-23 | for any tree of nested publications the bus history grows by its pre-order and the replays by its post-order |
| Publications.SameEvents | swarmmind/events/in_memory_bus.py:18-23 | the two orders hold the same events, each as often |
| EventHistory.ReplayIsPermutation | swarmmind/sandbox/replay_recorder.py:16-42 | a run's replay is a permutation of the run's part of the history |
| EventHistory.ReplayedExactlyOnce | swarmmind/sandbox/replay_recorder.py:36 | with distinct events, each event of the run is replayed exactly once and no other is |
| Publications.RecordsDetermineNesting | swarmmind/events/in_memory_bus.py:20-23 | history and replay together determine who published what while handling what |
| EventHistory.CollectIsExact | swarmmind/sandbox/replay_recorder.py:38-40 | a replay's artifact list holds each non-empty artifact of its events exactly once |
| ReplayPaging.BuildEventPage | swarmmind/api/server.py:299-314 | a page holds the next entries in order, each under its position, and the cursor moves past them and never past the end |
| ReplayPaging.FollowingServesAll | swarmmind/api/server.py:299-314 | following the cursor over any limits, while the replay grows, serves every entry once, in order, without a gap |
| ReplayPaging.FollowingCatchesUp | swarmmind/api/server.py:299-314 | after as many requests as there are entries, everything has been served |
| ReplayPaging.SelectTwice | swarmmind/api/server.py:289-296 | the two filters in turn keep exactly the entries that pass both |
| ReplayPaging.SelectIsExact | swarmmind/api/server.py:289-296 | a filter keeps every entry of that topic and tool as often as it stands there, and no other |
| ReplayPaging.SelectKeepsOrder | swarmmind/api/server.py:289-296 | and keeps their order |
| ReplayPaging.FilterGrows | swarmmind/api/server.py:289-296 | appending to the replay only appends to what a filter shows |
| ReplayPaging.FollowingServesAllFiltered | swarmmind/api/server.py:289-314 | the same no-gap, no-repeat guarantee for filtered pages |
| ReplayPaging.StreamRunEvents | swarmmind/api/server.py:703-760 | the stream emits one contiguous stretch of the replay, each entry once and under its position, a comment after every twentieth turn, and a terminal frame exactly if it saw the run end |
| ReplayPaging.StreamIsCompleteIff | swarmmind/api/server.py:703-755 | the stream shows everything if and only if neither its start nor any replay it read is more than one page per remaining reading behind what there is at the last reading |
| ReplayPaging.EndedRunIsCutOff | swarmmind/api/server.py:726-755 | of a run that had ended before the client asked, exactly two pages are sent if there is more |
| ReplayPaging.LastOf513IsLost | swarmmind/api/server.py:726-755 | the smallest such run: 513 entries, of which 512 are sent |
| ServerSentEvents.ReadBlock | scripts/fly_report_conversation_e2e.py:273-279 | the loop finds the last event line and the data lines, an event line never counting as data |
| ServerSentEvents.ParseSse | scripts/fly_report_conversation_e2e.py:268-290 | the parser yields the messages of the blocks in order, skipping blank and nameless ones, and fails as a whole exactly if one of their payloads is no JSON object |
| ServerSentEvents.BlockRoundTrip | swarmmind/domains/fly_report/api.py:716-729 | a printed block is read back as itself if and only if its payload has no line break |
| ServerSentEvents.WireFormat | swarmmind/domains/fly_report/api.py:729 | the literal text of a printed block, and its reading |
| ServerSentEvents.LastEventNames | scripts/fly_report_conversation_e2e.py:275-277 | whatever stands before and after it, the last event line names the block |
| ServerSentEvents.TwoDataLines | scripts/fly_report_conversation_e2e.py:278-281 | data lines are joined by a line feed in their order, for any names and payloads without line breaks |
| ServerSentEvents.NoDataLines | scripts/fly_report_conversation_e2e.py:281 | a block without data lines carries the empty object |
| ServerSentEvents.NamelessIsSkipped | scripts/fly_report_conversation_e2e.py:279-280 | a block without an event line gives nothing |
| ServerSentEvents.CarriageReturn | scripts/fly_report_conversation_e2e.py:275 | a carriage return and a line feed together end one line |
| ServerSentEvents.StreamBlocks | swarmmind/domains/fly_report/api.py:729 | the blocks of a printed stream are found again whatever the payloads contain |
| ServerSentEvents.StreamRoundTripIff | scripts/fly_report_conversation_e2e.py:268-290 | parsing a printed stream of objects succeeds and returns the original list if and only if no payload has a line break |
| ServerSentEvents.BrokenStreamFails | scripts/fly_report_conversation_e2e.py:281-286 | one payload with a line break makes the parser fail on the whole stream, unless what follows the break looks like another event or data line |
| ServerSentEvents.ObjectTextBreaks | swarmmind/domains/fly_report/api.py:722-728 | among the texts the encoder writes, exactly those with U+0085, U+2028 or U+2029 have one |
| ServerSentEvents.LineSeparatorFails | scripts/fly_report_conversation_e2e.py:275-286 | a concrete payload that is printed and on which the parser fails |
| PlanNames.NormalizedIsNormal | swarmmind/orchestration/planner.py:584-588 | a normalised name consists of lower-case words and digits separated by single dashes, whatever lower-casing does |
| PlanNames.NormalizedWords | swarmmind/orchestration/planner.py:584-588 | a normalised name consists of all the maximal words of the lower-cased name, in their order, with one dash between two of them and none elsewhere |
| PlanNames.NormalizeFixesExactlyNormal | swarmmind/orchestration/planner.py:584-588 | a name is left alone if and only if it is in normal form; normalising twice is normalising once |
| PlanNames.CandidatesDiffer | swarmmind/orchestration/planner.py:452-455 | no two suffixes give the same name |
| PlanNames.UniqueName | swarmmind/orchestration/planner.py:451-455 | the suffix loop ends for any set of used names and returns the first free candidate |
| PlanNames.NameSubtasks | swarmmind/orchestration/planner.py:447-457 | the names are pairwise distinct and each is the first free one for its base, in plan order |
| PlanNames.NamelessAreNumbered | swarmmind/orchestration/planner.py:447-455 | three subtasks whose names hold no letter or digit are called subtask, subtask-2 and subtask-3 |
| PlanNames.ResolveIsExact | swarmmind/orchestration/planner.py:463 | the resolved dependencies are exactly the positions of other subtasks whose final name is listed |
| PlanNames.ResolveKeepsOrder | swarmmind/orchestration/planner.py:463 | the order in which dependencies are listed is kept |
| PlanNames.BuildSubtasksFromPlan | swarmmind/orchestration/planner.py:432-495 | roles are kept; dependencies lie in the plan and never name the subtask itself; a non-empty answer is a plan in the protocol's sense |
| PlanNames.NamesSurviveIff | swarmmind/orchestration/planner.py:447-457 | a plan keeps all the names it came with if and only if they are non-empty, in normal form and distinct |
| PlanNames.DependenciesLeadIff | swarmmind/orchestration/planner.py:447-463 | whatever dependencies are listed by the plan's own names, each leads to the other subtasks of that name and to nothing else -- if and only if the plan has fewer than two subtasks or its names are non-empty, in normal form and distinct |
| PlanNames.DependencyIsMisdirected | swarmmind/orchestration/planner.py:463 | a concrete plan whose dependency leads to another subtask than the one of that name |
| PlanNames.PlannerAcceptsCycle | swarmmind/orchestration/planner.py:463 | two subtasks that list each other become a cyclic plan |
| PlanNames.UnnormalisedDependencyIsLost | swarmmind/orchestration/planner.py:463 | a concrete plan whose only dependency is dropped because it is written with a capital |
| AuditSanitizer.TruncateClips | swarmmind/utils/audit.py:104-108 | a truncated text is short enough, or is cut at the limit and ends in a note of how much is missing |
| AuditSanitizer.SanitizedIsBounded | swarmmind/utils/audit.py:9-93 | for any input the output has no more nodes than a number that depends on the depth and width limits only |
| AuditSanitizer.SanitizedIsStorable | swarmmind/utils/audit.py:9-93 | for any input the output consists of plain values, with no key twice, containers at most one over the limit, texts clipped, and at most two levels deeper than allowed |
| AuditSanitizer.SanitizedIsJsonIff | swarmmind/utils/audit.py:20-21 | the output is JSON if and only if no number that is reached and not replaced is infinite or not a number |
| AuditSanitizer.NaNIsPassedThrough | swarmmind/utils/audit.py:20-21 | a concrete value for that: not a number comes out as it went in |
| AuditLossless.TruncateFixesIff | swarmmind/utils/audit.py:104-108 | a text is left alone if and only if it is within the limit, or 24 characters too long and ends in the note saying so |
| AuditLossless.UnchangedIff | swarmmind/utils/audit.py:9-93 | the exact condition, for every value and every depth: it is returned unchanged if and only if, down to the depth limit, every text stays and every list and mapping is within the limit with distinct keys, or one too long and ends in the note saying so, and whatever lies deeper is a text that is printed as itself |
| AuditLossless.SmallIsUnchanged | swarmmind/utils/audit.py:9-93 | a JSON tree within the limits is returned unchanged |
| AuditLossless.SanitizedShows | swarmmind/utils/audit.py:9-108 | whatever goes in, what comes out tells the truth about it: texts or their beginnings with the number of characters left out, the first items of a list and how many more there were, under each key the last value given for it, of bytes their number |
| AuditLossless.MarkerCanBeForged | swarmmind/utils/audit.py:77-91 | a concrete family for the second half: a list of any allowed length followed by the note of 1 is too long and returned unchanged |
| VectorSearch.CauchySchwarz | swarmmind/memory/long_term.py:357-362 | the square of a scalar product is at most the product of the squared lengths, for vectors of any dimension |
| VectorSearch.CosineInRange | swarmmind/memory/long_term.py:354-362 | every score lies between -1 and 1 |
| VectorSearch.CosineOfSelf | swarmmind/memory/long_term.py:354-362 | a vector scores 1 against itself, and 0 if it is zero |
| VectorSearch.CosineIsExact | swarmmind/memory/long_term.py:354-362 | a score times the two lengths is the scalar product; it is 0 if a vector is zero or the dimensions differ |
| VectorSearch.DotOfConcat | swarmmind/memory/long_term.py:357 | the scalar product adds up over the coordinates |
| VectorSearch.RankStablySorts | swarmmind/memory/long_term.py:126 | the ranking keeps all items, descends, and keeps the order of equal scores |
| VectorSearch.StableSortIsUnique | swarmmind/memory/long_term.py:126 | these properties determine the ranking, so any stable descending sort gives the same result |
| VectorSearch.TopIsBest | swarmmind/memory/long_term.py:126-127 | a query's result has the asked-for length or all there is, descends, is not below anything left out, and among equal scores takes what was stored first |
| VectorSearch.PutThenGet | swarmmind/memory/long_term.py:111-112 | the store answers with the last item put under an identifier and keeps all others |
| VectorSearch.RemoveThenGet | swarmmind/memory/long_term.py:129-130 | a removed identifier is gone and all others stay |
| VectorSearch.DeleteUndoesUpsert | swarmmind/memory/long_term.py:111-130 | deleting undoes the upsert of a new identifier, order included |
| VectorSearch.PutKeepsPlace | swarmmind/memory/long_term.py:111-112 | an item put under a known identifier takes its place, a new one comes last |
| VectorSearch.RemoveKeepsOrder | swarmmind/memory/long_term.py:129-130 | removing one item keeps the order of the others |
| VectorSearch.InMemoryVectorStore.Upsert | swarmmind/memory/long_term.py:111-112 | every later lookup sees the new item under its identifier and everything else as before; identifiers stay distinct |
| VectorSearch.InMemoryVectorStore.Delete | swarmmind/memory/long_term.py:129-130 | every later lookup misses the removed identifier and sees everything else as before |
| VectorSearch.InMemoryVectorStore.Query | swarmmind/memory/long_term.py:114-127 | the result is the leading part of the stable descending sort of all scores, and every score is that of the stored vector of its item |
| VectorSearch.StoredVectorIsFound | swarmmind/memory/long_term.py:114-127 | asking with a stored non-zero vector finds a perfect score at the top |
| VectorSearch.EmbedTokens | swarmmind/memory/long_term.py:89-102 | filling the buckets token by token gives the signed counts, scaled; without dimensions any token fails |
| VectorSearch.EmbeddingOfOne | swarmmind/memory/long_term.py:95-102 | a single token gives 1 or -1, as its digest says, in the bucket that its digest names, and 0 elsewhere |
| VectorSearch.EmbeddingIgnoresOrder | swarmmind/memory/long_term.py:95-102 | reordering the tokens of a text does not change its embedding |
| VectorSearch.EmbeddingIsUnit | swarmmind/memory/long_term.py:101-102 | an embedding has length 1, or is zero because the signed counts cancelled out |

## Left out

- Postgres, Redis, Qdrant, Chroma and file stores: with copies instead of shared objects the handlers would not see each other's changes, and the proofs do not carry over.
- Other runs of the same process beyond `OtherRuns`: their steps are summed up as changes of rows that are not this run's and of the task record.
- Early returns for unknown tasks, runs and missing event fields: they change nothing.
- Exceptions after a subtask was completed (artifact or memory storage failing): excluded by assumption, see above.
- Deletion of tasks while they run.
- The events `execution.*`, `subtask.started`, `subtask.terminal`, `subtask.summary`: nobody reacts to them; they would only lengthen the history.
- The replay of a run in the orchestration model holds its events without the entries' payloads (`EventHistory` models the recorder itself).
- Event payloads, timestamps, names and messages of subtasks; a failed sandbox execution's result dictionary, of which no key is read back.
- Choice of tools, runtimes, agent and skill profiles: it only decides which arbitrary outcome occurs.
- `swarmmind/orchestration/state_machine.py`: its table is not consulted by the orchestrator.
- The planner's validation of roles, tool groups and execution candidates, and its fallback plan.
- Context-dependent lower-casing (the final sigma): lower-casing is a function of one character.
- JSON encoding and decoding: whether a text is that of an object is a parameter, of which the failing parser only needs that no text of an object is the beginning of another; `_sanitise_json` is not modelled.
- The texts of run and task errors: their causes are compared, and two causes may have the same text.
- Clearing the vector store.
- The `id:` line of the run event stream, and HTTP around it.
- Rounding: vectors are real, and the audit sanitiser's floats are real numbers, infinities or not numbers, which pass through.
- Negative limits of the audit sanitiser, and exceptions raised by `repr`.
- Lower-casing and splitting a text into tokens: the embedding starts from the tokens.
- The long-term memory wrappers around the vector store.
