/** How far a run's graph can grow.

    Every planned subtask and every chain forms a group, and a group makes at most one chain,
    because cancellation keeps "the repair failed" and "the review asked for rework" apart.  The
    room still left to the groups that have made none is therefore paid out exactly. */
module GrowthBound {
  import opened Basics
  import opened SubTasks
  import opened DependencyGraph
  import opened Protocol
  import opened Invariant
  import opened Runs
  import opened Guarantees

  function Budget(cfg: Config): nat {
    if cfg.maxAttempts < 0 then 0 else cfg.maxAttempts
  }

  /** The group of `i` -- a planned subtask, or the chain headed by `i` -- has made a chain. */
  predicate Spent(subs: seq<Sub>, i: nat)
    requires i < |subs|
  {
    subs[i].repaired || subs[i].reworked || (subs[i].part == Repair && i + 2 < |subs| && subs[i + 2].reworked)
  }

  /** How many subtasks the group of `i` may still bring about within its budget. */
  function Room(cfg: Config, subs: seq<Sub>, i: nat): int
    requires i < |subs|
  {
    if (subs[i].part == Planned || subs[i].part == Repair) && !Spent(subs, i)
      then 3 * (Budget(cfg) - subs[i].attempt) else 0
  }

  function Slack(cfg: Config, subs: seq<Sub>, k: nat): int
    requires k <= |subs|
  {
    if k == 0 then 0 else Slack(cfg, subs, k - 1) + Room(cfg, subs, k - 1)
  }

  /** `n` groups of `size` subtasks each. */
  function Groups(n: nat, size: nat): nat {
    if n == 0 then 0 else size + Groups(n - 1, size)
  }

  /** A planned subtask and as many chains of three as the budget allows, for each planned subtask. */
  function Bound(cfg: Config): nat {
    Groups(cfg.planned, 1 + 3 * Budget(cfg))
  }

  lemma {:induction false} GroupsMultiply(n: nat, size: nat)
    ensures Groups(n, size) == n * size
  {
    if n > 0 {
      GroupsMultiply(n - 1, size);
      assert n * size == size + (n - 1) * size;
    }
  }

  lemma BoundIsProduct(cfg: Config)
    ensures Bound(cfg) == cfg.planned * (1 + 3 * Budget(cfg))
  {
    GroupsMultiply(cfg.planned, 1 + 3 * Budget(cfg));
  }

  /** What exists and the budget not yet spent add up to the bound. */
  ghost predicate Balanced(cfg: Config, subs: seq<Sub>) {
    |subs| + Slack(cfg, subs, |subs|) == Bound(cfg)
  }

  // ---------------------------------------------------------------- the sum

  lemma {:induction false} SlackSame(cfg: Config, subs: seq<Sub>, subs': seq<Sub>, k: nat)
    requires k <= |subs| && k <= |subs'|
    requires forall j :: 0 <= j < k ==> Room(cfg, subs', j) == Room(cfg, subs, j)
    ensures Slack(cfg, subs', k) == Slack(cfg, subs, k)
  {
    if k > 0 { SlackSame(cfg, subs, subs', k - 1); }
  }

  lemma {:induction false} SlackChanges(cfg: Config, subs: seq<Sub>, subs': seq<Sub>, k: nat, g: nat)
    requires g < k <= |subs| && k <= |subs'|
    requires forall j :: 0 <= j < k && j != g ==> Room(cfg, subs', j) == Room(cfg, subs, j)
    ensures Slack(cfg, subs', k) == Slack(cfg, subs, k) - Room(cfg, subs, g) + Room(cfg, subs', g)
  {
    if g == k - 1 {
      SlackSame(cfg, subs, subs', k - 1);
    } else {
      SlackChanges(cfg, subs, subs', k - 1, g);
    }
  }

  lemma {:induction false} SlackIsNonNegative(cfg: Config, subs: seq<Sub>, k: nat)
    requires Placed(cfg, subs) && k <= |subs|
    ensures Slack(cfg, subs, k) >= 0
  {
    if k > 0 {
      SlackIsNonNegative(cfg, subs, k - 1);
      assert PlacedAt(cfg, subs, k - 1);
    }
  }

  lemma {:induction false} PlanIsBalanced(cfg: Config, plan: seq<Sub>, k: nat)
    requires IsPlan(plan) && k <= |plan|
    ensures k + Slack(cfg, plan, k) == Groups(k, 1 + 3 * Budget(cfg))
  {
    if k > 0 {
      PlanIsBalanced(cfg, plan, k - 1);
      assert IsPlanned(plan[k - 1], |plan|);
    }
  }

  // ---------------------------------------------------------------- one group, one chain

  /** The group that `i` belongs to. */
  function Group(subs: seq<Sub>, i: nat): nat
    requires i < |subs|
  {
    if subs[i].part == Review && i >= 2 then i - 2 else i
  }

  /** Whoever is about to make a chain belongs to a group that has made none. */
  lemma GroupIsUnspent(cfg: Config, subs: seq<Sub>, i: nat)
    requires Core(cfg, subs) && i < |subs| && !subs[i].repaired && !subs[i].reworked
    requires ReworkDue(cfg, subs[i]) || RepairDue(cfg, subs[i])
    ensures var g := Group(subs, i);
      (subs[g].part == Planned || subs[g].part == Repair) && !Spent(subs, g) && subs[g].attempt == subs[i].attempt
  {
    assert PlacedAt(cfg, subs, i);
    hide Core, RepairsFailure, AnswersRework;
    match subs[i].part
    case Planned =>
    case Repair => RepairHeadIsUnspent(cfg, subs, i);
    case Verify =>
    case Review => ReviewGroupIsUnspent(cfg, subs, i);
  }

  /** A failed repair cancels its review, so that review asked for nothing. */
  lemma RepairHeadIsUnspent(cfg: Config, subs: seq<Sub>, c: nat)
    requires Core(cfg, subs) && c < |subs| && subs[c].part == Repair && !subs[c].repaired && !subs[c].reworked
    requires ReworkDue(cfg, subs[c]) || RepairDue(cfg, subs[c])
    ensures !Spent(subs, c)
  {
    assert PlacedAt(cfg, subs, c);
    assert subs[c].status == Failed;
    if subs[c + 2].reworked {
      FlagIsTold(cfg, subs, c + 2);
      EndedReviewHasGoodRepair(cfg, subs, c);
    }
  }

  lemma EndedReviewHasGoodRepair(cfg: Config, subs: seq<Sub>, c: nat)
    requires Core(cfg, subs) && ChainAt(cfg, subs, c) && !Waiting(subs[c + 2].status)
    ensures subs[c].status == Succeeded
  {
  }

  lemma FlagIsTold(cfg: Config, subs: seq<Sub>, i: nat)
    requires Core(cfg, subs) && i < |subs|
    ensures FlagTold(subs, i)
  {
  }

  lemma ReworkedIsReviewer(cfg: Config, subs: seq<Sub>, r: nat)
    requires Core(cfg, subs) && r < |subs| && subs[r].reworked
    ensures subs[r].role == Reviewer
  {
    assert FlagTold(subs, r);
    var c: nat :| HeadsChain(subs, r, c);
    assert PlacedAt(cfg, subs, c);
  }

  lemma RepairOfReview(cfg: Config, subs: seq<Sub>, i: nat)
    requires Core(cfg, subs) && i < |subs| && subs[i].part == Review
    ensures i >= 2 && ChainAt(cfg, subs, i - 2)
    ensures subs[i - 2].part == Repair && subs[i - 2].role.Repairable() && subs[i - 2].attempt == subs[i].attempt
  {
    assert PlacedAt(cfg, subs, i);
  }

  /** A review that asked for rework had a repair that succeeded. */
  lemma ReviewGroupIsUnspent(cfg: Config, subs: seq<Sub>, i: nat)
    requires Core(cfg, subs) && i < |subs| && subs[i].part == Review && !subs[i].reworked && i >= 2
    requires ReworkDue(cfg, subs[i]) || RepairDue(cfg, subs[i])
    ensures subs[i - 2].part == Repair && !Spent(subs, i - 2) && subs[i - 2].attempt == subs[i].attempt
  {
    hide Core, ChainAt;
    RepairOfReview(cfg, subs, i);
    FlagIsTold(cfg, subs, i - 2);
    EndedReviewHasGoodRepair(cfg, subs, i - 2);
    if subs[i - 2].reworked {
      ReworkedIsReviewer(cfg, subs, i - 2);
    }
  }

  // ---------------------------------------------------------------- keeping the balance

  lemma AdvanceKeepsBalance(cfg: Config, subs: seq<Sub>, subs': seq<Sub>)
    requires Advances(subs, subs') && Balanced(cfg, subs)
    ensures Balanced(cfg, subs')
  {
    forall j: nat | j < |subs|
      ensures Room(cfg, subs', j) == Room(cfg, subs, j)
    {
      assert Moves(subs, j, subs'[j]);
      if j + 2 < |subs| { assert Moves(subs, j + 2, subs'[j + 2]); }
    }
    SlackSame(cfg, subs, subs', |subs|);
  }

  lemma SpliceShape(cfg: Config, subs: seq<Sub>, i: nat, subs': seq<Sub>)
    requires Splices(cfg, subs, i, subs') && Core(cfg, subs)
    ensures |subs'| == |subs| + 3 && Placed(cfg, subs)
    ensures i < |subs| && Group(subs, i) < |subs|
  {
  }

  lemma SpliceKeepsBalance(cfg: Config, subs: seq<Sub>, i: nat, subs': seq<Sub>)
    requires Splices(cfg, subs, i, subs') && Core(cfg, subs) && Balanced(cfg, subs)
    requires ReworkDue(cfg, subs[i]) || RepairDue(cfg, subs[i])
    ensures Balanced(cfg, subs')
  {
    var n := |subs|;
    hide Splices, Core, Placed, Room, Slack, Bound, Group, ReworkDue, RepairDue;
    SpliceShape(cfg, subs, i, subs');
    OldSlack(cfg, subs, i, subs');
    NewRoom(cfg, subs, i, subs');
    NewSlack(cfg, subs', n);
  }

  lemma NewSlack(cfg: Config, subs: seq<Sub>, n: nat)
    requires |subs| == n + 3 && Room(cfg, subs, n + 1) == 0 && Room(cfg, subs, n + 2) == 0
    ensures Slack(cfg, subs, n + 3) == Slack(cfg, subs, n) + Room(cfg, subs, n)
  {
    assert Slack(cfg, subs, n + 1) == Slack(cfg, subs, n) + Room(cfg, subs, n);
    assert Slack(cfg, subs, n + 2) == Slack(cfg, subs, n + 1);
    assert Slack(cfg, subs, n + 3) == Slack(cfg, subs, n + 2);
  }

  lemma OldSlack(cfg: Config, subs: seq<Sub>, i: nat, subs': seq<Sub>)
    requires Splices(cfg, subs, i, subs') && Placed(cfg, subs)
    requires ReworkDue(cfg, subs[i]) || RepairDue(cfg, subs[i])
    ensures Slack(cfg, subs', |subs|) == Slack(cfg, subs, |subs|) - Room(cfg, subs, Group(subs, i))
  {
    assert PlacedAt(cfg, subs, i);
    forall j: nat | j < |subs| && j != Group(subs, i)
      ensures Room(cfg, subs', j) == Room(cfg, subs, j)
    {
      RoomElsewhere(cfg, subs, i, subs', j);
    }
    GroupBecomesSpent(cfg, subs, i, subs');
    SlackChanges(cfg, subs, subs', |subs|, Group(subs, i));
  }

  lemma RoomElsewhere(cfg: Config, subs: seq<Sub>, i: nat, subs': seq<Sub>, j: nat)
    requires Splices(cfg, subs, i, subs') && Placed(cfg, subs) && j < |subs| && j != Group(subs, i)
    ensures Room(cfg, subs', j) == Room(cfg, subs, j)
  {
    if subs[j].part == Repair {
      ReviewFollows(cfg, subs, j);
    }
    hide ChainAt, PlacedAt, Maker, FreshFrom;
  }

  lemma ReviewFollows(cfg: Config, subs: seq<Sub>, c: nat)
    requires Placed(cfg, subs) && c < |subs| && subs[c].part == Repair
    ensures c + 2 < |subs| && subs[c + 2].part == Review
  {
    assert PlacedAt(cfg, subs, c);
  }

  lemma GroupBecomesSpent(cfg: Config, subs: seq<Sub>, i: nat, subs': seq<Sub>)
    requires Splices(cfg, subs, i, subs') && PlacedAt(cfg, subs, i)
    requires ReworkDue(cfg, subs[i]) || RepairDue(cfg, subs[i])
    ensures Room(cfg, subs', Group(subs, i)) == 0
  {
  }

  /** The new chain gets what its maker's group had, less the chain itself. */
  lemma NewRoom(cfg: Config, subs: seq<Sub>, i: nat, subs': seq<Sub>)
    requires Splices(cfg, subs, i, subs') && Core(cfg, subs)
    requires ReworkDue(cfg, subs[i]) || RepairDue(cfg, subs[i])
    ensures var n := |subs|;
      Room(cfg, subs', n) == Room(cfg, subs, Group(subs, i)) - 3 && Room(cfg, subs', n + 1) == 0 &&
        Room(cfg, subs', n + 2) == 0
  {
    var n := |subs|;
    GroupIsUnspent(cfg, subs, i);
    NewAttempt(cfg, subs, i, subs');
    assert FreshIn(subs', n) && FreshIn(subs', n + 2);
  }

  lemma NewAttempt(cfg: Config, subs: seq<Sub>, i: nat, subs': seq<Sub>)
    requires Splices(cfg, subs, i, subs')
    ensures subs'[|subs|].attempt == subs[i].attempt + 1 && subs'[|subs|].part == Repair
    ensures subs'[|subs| + 1].part == Verify && subs'[|subs| + 2].part == Review
  {
  }

  lemma RespondKeepsBalance(s: State, i: nat, t: Option<nat>)
    requires Unanswered(s, i) && Balanced(s.cfg, s.subs)
    requires if ReworkDue(s.cfg, s.subs[i]) then FirstTarget(s.subs, i, t) else t == None
    ensures Balanced(s.cfg, Respond(s, i, t).subs)
  {
    if ReworkDue(s.cfg, s.subs[i]) {
      if t.Some? {
        TargetSucceeded(s.subs, i, t.value);
        ReworkSplices(s, i, t.value);
        SpliceKeepsBalance(s.cfg, s.subs, i, SpliceRework(s, i, t.value).subs);
      }
    } else if RepairDue(s.cfg, s.subs[i]) {
      RepairSplices(s, i);
      SpliceKeepsBalance(s.cfg, s.subs, i, SpliceRepair(s, i).subs);
    }
  }

  lemma ActionKeepsBalance(s: State, a: Action)
    requires Inv(s) && Enabled(s, a) && Balanced(s.cfg, s.subs)
    ensures Balanced(s.cfg, Apply(s, a).subs)
  {
    match a
    case Dispatches =>
      DispatchAdvances(s.subs);
      AdvanceKeepsBalance(s.cfg, s.subs, AssignReady(s.subs));
    case Delivers(i) =>
    case Begins(i, status) =>
      BeginAdvances(s, i, status);
      AdvanceKeepsBalance(s.cfg, s.subs, Begin(s, i, status).subs);
    case Concludes(i, o, t) =>
      FinishAdvances(s, i, o);
      AdvanceKeepsBalance(s.cfg, s.subs, Finish(s, i, o).subs);
      FinishLeavesUnanswered(s, i, o);
      RespondKeepsBalance(Finish(s, i, o), i, t);
    case Reconciles =>
  }

  lemma {:induction false} RunKeepsBalance(s: State, acts: seq<Action>)
    requires Inv(s) && Legal(s, acts) && Balanced(s.cfg, s.subs)
    ensures Balanced(s.cfg, Perform(s, acts).subs)
    decreases |acts|
  {
    if acts != [] {
      ActionKeepsBalance(s, acts[0]);
      ActionKeepsInv(s, acts[0]);
      RunKeepsBalance(Apply(s, acts[0]), acts[1..]);
    }
  }

  lemma BalanceBounds(cfg: Config, subs: seq<Sub>)
    requires Placed(cfg, subs) && Balanced(cfg, subs)
    ensures |subs| <= Bound(cfg)
  {
    SlackIsNonNegative(cfg, subs, |subs|);
  }
}
