/** What a run publishes while it handles what: the shape of its tree of publications. */
module Nesting {
  import opened Publications
  import opened SubTasks
  import opened Protocol

  predicate Ends(e: Event, i: nat) {
    e == SubtaskCompleted(i) || e == SubtaskFailed(i)
  }

  /** The terminal event of subtask `i`. */
  function EndEvent(i: nat, succeeded: bool): Event {
    if succeeded then SubtaskCompleted(i) else SubtaskFailed(i)
  }

  predicate IsLeaf(p: Publication<Event>, e: Event) {
    p == Publication(e, [])
  }

  /** What a reconciliation publishes: nothing, or an update, or an update with the end and the summary. */
  predicate IsReport(ps: seq<Publication<Event>>) {
    ps != [] ==>
      && ps[0].event.RunUpdated? && ps[0].nested == []
      && var status := ps[0].event.status;
         ps[1..] == if status.Final()
           then [Publication(RunTerminal(status), []), Publication(RunSummary(status), [])] else []
  }

  /** The request for a chain that the end of a subtask may call for. */
  predicate IsRequest(p: Publication<Event>, end: Event) {
    match end
    case SubtaskCompleted(i) => IsLeaf(p, ReworkRequested(i))
    case SubtaskFailed(i) => IsLeaf(p, RepairRequested(i))
    case _ => false
  }

  /** The end of subtask `i`: while it is handled a chain may be requested, and then the next batch goes out. */
  ghost predicate IsEnd(p: Publication<Event>, i: nat)
    decreases p
  {
    Ends(p.event, i) &&
    (IsBatch(p.nested) || (p.nested != [] && IsRequest(p.nested[0], p.event) && IsBatch(p.nested[1..])))
  }

  /** The assignment of a subtask: while it is handled the subtask ends, and then the run is reconciled. */
  ghost predicate IsAssignment(p: Publication<Event>)
    decreases p
  {
    p.event.SubtaskAssigned? && p.nested != [] && IsEnd(p.nested[0], p.event.id) && IsReport(p.nested[1..])
  }

  /** A batch: assignments one after the other, in the order in which the subtasks were created. */
  ghost predicate IsBatch(ps: seq<Publication<Event>>)
    decreases ps
  {
    && (forall k :: 0 <= k < |ps| ==> IsAssignment(ps[k]))
    && forall j, k :: 0 <= j < k < |ps| ==> ps[j].event.id < ps[k].event.id
  }

  /** The publications announce these subtasks, in this order. */
  predicate Announces(ps: seq<Publication<Event>>, ids: seq<nat>) {
    |ps| == |ids| && forall k | 0 <= k < |ps| :: ps[k].event == SubtaskAssigned(ids[k])
  }

  // ---------------------------------------------------------------- building the tree

  lemma OneIsBatch(i: nat, nested: seq<Publication<Event>>)
    requires nested != [] && IsEnd(nested[0], i) && IsReport(nested[1..])
    ensures var ps := [Publication(SubtaskAssigned(i), nested)];
      IsBatch(ps) && Announces(ps, [i])
  {
    assert IsAssignment(Publication(SubtaskAssigned(i), nested));
  }

  lemma BatchGrows(ps: seq<Publication<Event>>, more: seq<Publication<Event>>, ids: seq<nat>)
    requires ids != [] && IsBatch(ps) && Announces(ps, [ids[0]]) && IsBatch(more) && Announces(more, ids[1..])
    requires forall a, b :: 0 <= a < b < |ids| ==> ids[a] < ids[b]
    ensures IsBatch(ps + more) && Announces(ps + more, ids)
  {
    hide IsAssignment;
    var all := ps + more;
    forall k | 0 <= k < |all|
      ensures IsAssignment(all[k]) && all[k].event == SubtaskAssigned(ids[k])
    {
      if k > 0 { assert all[k] == more[k - 1]; }
    }
  }

  lemma NothingIsBatch()
    ensures IsBatch([]) && Announces([], [])
  {
  }

  lemma EndWithBatch(end: Event, i: nat, request: seq<Publication<Event>>, batch: seq<Publication<Event>>)
    requires Ends(end, i) && IsBatch(batch)
    requires request == [] || (|request| == 1 && IsRequest(request[0], end))
    ensures IsEnd(Publication(end, request + batch), i)
  {
    if request == [] {
      assert request + batch == batch;
    } else {
      assert (request + batch)[1..] == batch;
    }
  }

  // ---------------------------------------------------------------- what the tree means for the records

  /** An assignment is answered by the end of the subtask, before anything else; deep down as well. */
  ghost predicate Answers(ps: seq<Publication<Event>>)
    decreases ps
  {
    ps != [] ==>
      && (ps[0].event.SubtaskAssigned? ==> ps[0].nested != [] && Ends(ps[0].nested[0].event, ps[0].event.id))
      && Answers(ps[0].nested)
      && Answers(ps[1..])
  }

  /** The end of the run is announced only while some assignment is being handled. */
  ghost predicate Enclosed(ps: seq<Publication<Event>>)
    decreases ps
  {
    ps != [] ==>
      && !ps[0].event.RunTerminal?
      && (ps[0].event.SubtaskAssigned? || Enclosed(ps[0].nested))
      && Enclosed(ps[1..])
  }

  lemma ReportAnswers(ps: seq<Publication<Event>>)
    requires IsReport(ps)
    ensures Answers(ps)
  {
    if ps != [] && ps[0].event.status.Final() {
      var rest := ps[1..];
      assert rest[1..] == [rest[1]] && rest[1..][1..] == [];
    }
  }

  lemma {:induction false} BatchAnswers(ps: seq<Publication<Event>>)
    requires IsBatch(ps)
    ensures Answers(ps) && Enclosed(ps)
    decreases ps
  {
    if ps != [] {
      var p, rest := ps[0], ps[1..];
      assert IsAssignment(p);
      assert forall k :: 0 <= k < |rest| ==> rest[k] == ps[k + 1];
      BatchAnswers(rest);
      var end := p.nested[0];
      assert IsEnd(end, p.event.id) && Ends(end.event, p.event.id);
      if IsBatch(end.nested) {
        BatchAnswers(end.nested);
      } else {
        BatchAnswers(end.nested[1..]);
        assert Answers(end.nested[0].nested) && Answers(end.nested);
      }
      ReportAnswers(p.nested[1..]);
      assert Answers(p.nested);
    }
  }

  lemma {:induction false} EndComesFirst(ps: seq<Publication<Event>>, k: nat)
    requires Answers(ps) && k < |After(ps)| && After(ps)[k].SubtaskAssigned?
    ensures exists j :: 0 <= j < k && Ends(After(ps)[j], After(ps)[k].id)
    decreases ps
  {
    var inner, later := After(ps[0].nested), After(ps[1..]);
    assert After(ps) == inner + [ps[0].event] + later;
    if k < |inner| {
      EndComesFirst(ps[0].nested, k);
      var j :| 0 <= j < k && Ends(inner[j], inner[k].id);
      assert After(ps)[j] == inner[j];
    } else if k == |inner| {
      FirstIsRecorded(ps[0].nested);
      var j :| 0 <= j < |inner| && inner[j] == ps[0].nested[0].event;
      assert After(ps)[j] == inner[j];
    } else {
      EndComesFirst(ps[1..], k - |inner| - 1);
      var j :| 0 <= j < k - |inner| - 1 && Ends(later[j], later[k - |inner| - 1].id);
      assert After(ps)[|inner| + 1 + j] == later[j];
    }
  }

  lemma FirstIsRecorded(ps: seq<Publication<Event>>)
    requires ps != []
    ensures exists j :: 0 <= j < |After(ps)| && After(ps)[j] == ps[0].event
  {
    assert After(ps)[|After(ps[0].nested)|] == ps[0].event;
  }

  /** So the end of the run is recorded before the assignment that was being handled. */
  lemma {:induction false} AssignmentComesLast(ps: seq<Publication<Event>>, k: nat)
    requires Enclosed(ps) && k < |After(ps)| && After(ps)[k].RunTerminal?
    ensures exists j :: k < j < |After(ps)| && After(ps)[j].SubtaskAssigned?
    decreases ps
  {
    var inner, later := After(ps[0].nested), After(ps[1..]);
    assert After(ps) == inner + [ps[0].event] + later;
    if k < |inner| {
      if ps[0].event.SubtaskAssigned? {
        assert After(ps)[|inner|] == ps[0].event;
      } else {
        AssignmentComesLast(ps[0].nested, k);
        var j :| k < j < |inner| && inner[j].SubtaskAssigned?;
        assert After(ps)[j] == inner[j];
      }
    } else {
      AssignmentComesLast(ps[1..], k - |inner| - 1);
      var j :| k - |inner| - 1 < j < |later| && later[j].SubtaskAssigned?;
      assert After(ps)[|inner| + 1 + j] == later[j];
    }
  }

  /** In the replay, every announcement of a subtask comes after the subtask's end. */
  ghost predicate EndsComeFirst(replay: seq<Event>) {
    forall k: nat :: k < |replay| && replay[k].SubtaskAssigned? ==>
      exists j :: 0 <= j < k && Ends(replay[j], replay[k].id)
  }

  /** When the end of the run is recorded, some announcement is still to come: the replay of a run whose
      status has turned final is never complete. */
  ghost predicate MoreFollows(replay: seq<Event>) {
    forall k: nat :: k < |replay| && replay[k].RunTerminal? ==>
      exists j :: k < j < |replay| && replay[j].SubtaskAssigned?
  }

  /** A whole run: the plan, then the first batch. */
  ghost predicate IsRun(ps: seq<Publication<Event>>) {
    ps != [] && IsLeaf(ps[0], PlanningCompleted) && IsBatch(ps[1..])
  }

  lemma PublishedFromScratch(r: Records<Event>, r': Records<Event>, ps: seq<Publication<Event>>)
    requires Adds(r, r', ps) && IsRun(ps) && r == Records([], [])
    ensures r' == Records(Before(ps), After(ps)) && EndsComeFirst(r'.replay) && MoreFollows(r'.replay)
  {
    assert [] + Before(ps) == Before(ps) && [] + After(ps) == After(ps);
    BatchAnswers(ps[1..]);
    assert Answers(ps) && Enclosed(ps);
    hide IsRun, Answers, Enclosed, Before, After;
    forall k: nat | k < |After(ps)| && After(ps)[k].SubtaskAssigned?
      ensures exists j :: 0 <= j < k && Ends(After(ps)[j], After(ps)[k].id)
    {
      EndComesFirst(ps, k);
    }
    forall k: nat | k < |After(ps)| && After(ps)[k].RunTerminal?
      ensures exists j :: k < j < |After(ps)| && After(ps)[j].SubtaskAssigned?
    {
      AssignmentComesLast(ps, k);
    }
  }
}
