/** The vocabulary of one run: subtasks, their roles, statuses, results and outcomes.

    A subtask is named by its position in creation order.  The program draws a fresh random
    identifier for each one, so this is a renaming of its identifiers that keeps them distinct. */
module SubTasks {
  import opened Basics

  datatype Role = Planner | Coordinator | Researcher | Coder | Verifier | Tester | Reviewer | Writer
  {
    /** Roles that check the work of others by a pass/fail verdict. */
    predicate Verifies() {
      this == Verifier || this == Tester
    }

    /** Roles whose work a review may send back. */
    predicate Produces() {
      this == Coder || this == Writer || this == Researcher
    }

    /** Roles whose failure may be repaired. */
    predicate Repairable() {
      Produces() || this == Planner
    }
  }

  datatype Status =
    Queued | Ready | Assigned | SandboxCreating | Executing | Verifying | Succeeded | Failed | Cancelled
  {
    predicate Terminal() {
      this == Succeeded || this == Failed || this == Cancelled
    }

    /** Handed to the runner and not finished. */
    predicate Active() {
      this == Assigned || Running()
    }

    predicate Running() {
      this == SandboxCreating || this == Executing || this == Verifying
    }
  }

  datatype Decision = Accept | Rework | Escalate

  /** The keys of a result dictionary that the orchestrator reads back. */
  datatype Result = Result(passed: Option<bool>, verificationPassed: Option<bool>, decision: Option<Decision>)

  /** Where a subtask comes from: the plan, or one of the three places in a generated chain
      (the program records these in the subtask's name). */
  datatype Part = Planned | Repair | Verify | Review

  /** A subtask; `source` is the repair source and `reworkOf` the rework source in its metadata,
      `repaired` and `reworked` its two "chain generated" flags. */
  datatype Sub = Sub(
    role: Role, deps: seq<nat>, part: Part, attempt: nat, source: Option<nat>, reworkOf: Option<nat>,
    status: Status, result: Option<Result>, repaired: bool, reworked: bool)

  /** What happens while a subtask runs.  `Raised` stands for every exception, at whatever point.
      `verdict` and `decision` are the structured answers of the validation agent, absent when the
      program falls back on its rules; `evidence` says whether dependency artifacts were found;
      `forced` is the review decision that the task's constraints impose, if any. */
  datatype Outcome =
    | Raised
    | Finished(ok: bool, verdict: Option<bool>, evidence: bool, decision: Option<Decision>, forced: Option<Decision>)

  /** Every verifying dependency recorded a passing verdict. */
  predicate TestersPassed(subs: seq<Sub>, deps: seq<nat>) {
    forall d | d in deps && d < |subs| && subs[d].role.Verifies() ::
      subs[d].result.Some? && subs[d].result.value.passed == Some(true)
  }

  predicate HasTester(subs: seq<Sub>, deps: seq<nat>) {
    exists d | d in deps :: d < |subs| && subs[d].role.Verifies()
  }

  /** The rules a verifier falls back on. */
  predicate RulesVerdict(subs: seq<Sub>, deps: seq<nat>, evidence: bool) {
    evidence && forall d | d in deps && d < |subs| :: subs[d].status == Succeeded
  }

  /** The rules a reviewer falls back on. */
  function RulesDecision(subs: seq<Sub>, deps: seq<nat>, forced: Option<Decision>): Decision {
    if forced.Some? then forced.value
    else if HasTester(subs, deps) && TestersPassed(subs, deps) then Accept
    else Rework
  }

  /** The terminal status and result that the runner gives subtask `i`. */
  function Verdict(subs: seq<Sub>, i: nat, o: Outcome): (Status, Option<Result>)
    requires i < |subs|
  {
    var sub := subs[i];
    if o.Raised? then (Failed, sub.result)
    else if sub.role.Verifies() then
      var passed := if o.verdict.Some? then o.verdict.value else RulesVerdict(subs, sub.deps, o.evidence);
      (if passed then Succeeded else Failed, Some(Result(Some(passed), Some(passed), None)))
    else if sub.role == Reviewer then
      var decision := if o.decision.Some? then o.decision.value else RulesDecision(subs, sub.deps, o.forced);
      (Succeeded, Some(Result(None, Some(TestersPassed(subs, sub.deps)), Some(decision))))
    else if o.ok then (Succeeded, Some(Result(None, None, None)))
    else (Failed, sub.result)
  }
}
