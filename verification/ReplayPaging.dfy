/** Reading an append-only replay: pages that follow a cursor, filters, and the run event stream. */
module ReplayPaging {
  import opened Basics

  /** A replay entry, as far as the filters look at it; an absent tool name reads as "". */
  datatype Entry = Entry(topic: string, toolName: string, payload: nat)

  /** An entry together with the cursor under which it is served. */
  datatype Item = Item(cursor: nat, entry: Entry)

  /** The entries from `from` up to `to`, numbered by position. */
  function Numbered(entries: seq<Entry>, from: nat, to: nat): seq<Item>
    requires from == to || from <= to <= |entries|
  {
    if from == to then [] else seq(to - from, k requires 0 <= k < to - from => Item(from + k, entries[from + k]))
  }

  /** The cursor after a page: at most `limit` entries further, never beyond what there is. */
  function NextCursor(n: nat, cursor: nat, limit: int): nat {
    if cursor >= n then cursor else Min(n, cursor + Max(1, limit))
  }

  /** A page serves the next entries in order, each under its position. */
  method BuildEventPage(entries: seq<Entry>, cursor: int, limit: int) returns (events: seq<Item>, next: nat)
    ensures var start := Max(0, cursor);
      next == NextCursor(|entries|, start, limit) && events == Numbered(entries, start, next)
    ensures |events| == Min(Max(1, limit), Max(0, |entries| - Max(0, cursor))) && next == Max(0, cursor) + |events|
    ensures Max(0, cursor) < |entries| ==> next <= |entries|
    ensures forall k :: 0 <= k < |events| ==> events[k] == Item(next - |events| + k, entries[next - |events| + k])
  {
    var start := Max(0, cursor);
    var lo, hi := Min(start, |entries|), Min(start + Max(1, limit), |entries|);
    var selected := entries[lo..hi];
    events := [];
    for offset := 0 to |selected|
      invariant events == seq(offset, k requires 0 <= k < offset => Item(start + k, selected[k]))
    {
      events := events + [Item(start + offset, selected[offset])];
    }
    next := start + |events|;
    if start < |entries| {
      assert forall k :: 0 <= k < |selected| ==> selected[k] == entries[start + k];
    }
  }

  // ---------------------------------------------------------------- following the cursor

  /** One request: the entries there are when it is served, and the limit it asks for. */
  datatype Request = Request(entries: seq<Entry>, limit: int)

  /** Entries are only ever appended between requests. */
  ghost predicate Growing(requests: seq<Request>) {
    forall i, j :: 0 <= i < j < |requests| ==> requests[i].entries <= requests[j].entries
  }

  function FollowedTo(cursor: nat, requests: seq<Request>): nat
    decreases |requests|
  {
    if requests == [] then cursor
    else FollowedTo(NextCursor(|requests[0].entries|, cursor, requests[0].limit), requests[1..])
  }

  /** Everything a client receives that always asks for the cursor it was given. */
  function Followed(cursor: nat, requests: seq<Request>): seq<Item>
    decreases |requests|
  {
    if requests == [] then []
    else
      var next := NextCursor(|requests[0].entries|, cursor, requests[0].limit);
      Numbered(requests[0].entries, cursor, next) + Followed(next, requests[1..])
  }

  lemma NumberedJoin(a: seq<Entry>, b: seq<Entry>, from: nat, mid: nat, to: nat)
    requires a <= b && from <= mid <= to && (from == mid || mid <= |a|) && (from == to || to <= |b|)
    ensures Numbered(a, from, mid) + (if mid == to then [] else Numbered(b, mid, to)) == Numbered(b, from, to)
  {
    if from < mid < to {
      var joined := Numbered(a, from, mid) + Numbered(b, mid, to);
      forall k | 0 <= k < to - from
        ensures joined[k] == Numbered(b, from, to)[k]
      {
        assert a <= b;
      }
      assert joined == Numbered(b, from, to);
    }
  }

  /** Following the cursor serves every entry once, in order and without a gap, whatever the limits
      and however the replay grows meanwhile. */
  lemma {:induction false} FollowingServesAll(cursor: nat, requests: seq<Request>)
    requires requests != [] && Growing(requests) && cursor <= |requests[0].entries|
    ensures var last := requests[|requests| - 1].entries;
      cursor <= FollowedTo(cursor, requests) <= |last| &&
      Followed(cursor, requests) == Numbered(last, cursor, FollowedTo(cursor, requests))
    decreases |requests|
  {
    var first, last := requests[0].entries, requests[|requests| - 1].entries;
    var next := NextCursor(|first|, cursor, requests[0].limit);
    var rest := requests[1..];
    if rest == [] {
      assert Followed(next, rest) == [];
    } else {
      assert first <= rest[0].entries && first <= last && rest[|rest| - 1] == requests[|requests| - 1];
      FollowingServesAll(next, rest);
      NumberedJoin(first, last, cursor, next, FollowedTo(next, rest));
    }
  }

  /** Every request that finds something unread serves something; after as many requests as there
      are entries, everything has been served. */
  lemma {:induction false} FollowingCatchesUp(cursor: nat, requests: seq<Request>, n: nat)
    requires forall i :: 0 <= i < |requests| ==> |requests[i].entries| >= n
    ensures FollowedTo(cursor, requests) >= Min(n, cursor + |requests|)
    decreases |requests|
  {
    if requests != [] {
      FollowingCatchesUp(NextCursor(|requests[0].entries|, cursor, requests[0].limit), requests[1..], n);
    }
  }

  // ---------------------------------------------------------------- filters

  predicate Passes(e: Entry, topic: string, toolName: string) {
    (topic == "" || e.topic == topic) && (toolName == "" || e.toolName == toolName)
  }

  function Select(entries: seq<Entry>, topic: string, toolName: string): seq<Entry> {
    if entries == [] then []
    else
      var last := entries[|entries| - 1];
      Select(entries[..|entries| - 1], topic, toolName) + if Passes(last, topic, toolName) then [last] else []
  }

  /** The two filters applied one after the other, an empty one being none. */
  function FilterReplayEntries(entries: seq<Entry>, topic: string, toolName: string): seq<Entry> {
    var filtered := if topic != "" then Select(entries, topic, "") else entries;
    if toolName != "" then Select(filtered, "", toolName) else filtered
  }

  lemma {:induction false} SelectTwice(entries: seq<Entry>, topic: string, toolName: string)
    ensures FilterReplayEntries(entries, topic, toolName) == Select(entries, topic, toolName)
    decreases |entries|
  {
    if entries != [] {
      var front, last := entries[..|entries| - 1], entries[|entries| - 1];
      SelectTwice(front, topic, toolName);
      var a := Select(front, topic, "");
      if Passes(last, topic, "") {
        assert (a + [last])[..|a|] == a && (a + [last])[|a|] == last;
      } else {
        assert a + [] == a;
      }
      assert front + [last] == entries;
    }
  }

  /** A filter keeps every entry of that topic and tool as often as it stands there, and no other. */
  lemma {:induction false} SelectIsExact(entries: seq<Entry>, topic: string, toolName: string, e: Entry)
    ensures multiset(Select(entries, topic, toolName))[e] ==
      if (topic != "" && e.topic != topic) || (toolName != "" && e.toolName != toolName) then 0
        else multiset(entries)[e]
    decreases |entries|
  {
    if entries != [] {
      var front, last := entries[..|entries| - 1], entries[|entries| - 1];
      SelectIsExact(front, topic, toolName, e);
      assert entries == front + [last];
      SelectOneMore(front, last, topic, toolName);
      hide Select;
      if Passes(last, topic, toolName) {
        OneMoreOf(Select(front, topic, toolName), last, e);
      }
      OneMoreOf(front, last, e);
    }
  }

  lemma SelectOneMore(front: seq<Entry>, last: Entry, topic: string, toolName: string)
    ensures Select(front + [last], topic, toolName) ==
      if Passes(last, topic, toolName) then Select(front, topic, toolName) + [last] else Select(front, topic, toolName)
  {
    assert (front + [last])[..|front|] == front;
    assert Select(front, topic, toolName) + [] == Select(front, topic, toolName);
  }

  lemma OneMoreOf(front: seq<Entry>, last: Entry, e: Entry)
    ensures multiset(front + [last])[e] == multiset(front)[e] + if e == last then 1 else 0
  {
  }

  /** It keeps the order. */
  lemma {:induction false} SelectKeepsOrder(a: seq<Entry>, b: seq<Entry>, topic: string, toolName: string)
    ensures Select(a + b, topic, toolName) == Select(a, topic, toolName) + Select(b, topic, toolName)
    decreases |b|
  {
    if b == [] {
      assert a + b == a;
    } else {
      var front, last := b[..|b| - 1], b[|b| - 1];
      SelectKeepsOrder(a, front, topic, toolName);
      assert (a + b)[..|a + b| - 1] == a + front && (a + b)[|a + b| - 1] == last;
      Regroup(Select(a, topic, toolName), Select(front, topic, toolName),
        if Passes(last, topic, toolName) then [last] else []);
    }
  }

  /** Appending to the replay only appends to what a filter shows. */
  lemma {:induction false} FilterGrows(a: seq<Entry>, b: seq<Entry>, topic: string, toolName: string)
    requires a <= b
    ensures Select(a, topic, toolName) <= Select(b, topic, toolName)
    decreases |b|
  {
    if |a| < |b| {
      FilterGrows(a, b[..|b| - 1], topic, toolName);
    } else {
      assert a == b;
    }
  }

  function Filtered(requests: seq<Request>, topic: string, toolName: string): seq<Request> {
    seq(|requests|, i requires 0 <= i < |requests| =>
      Request(FilterReplayEntries(requests[i].entries, topic, toolName), requests[i].limit))
  }

  /** The same holds of filtered pages: every entry that passes is served once, in order. */
  lemma FollowingServesAllFiltered(requests: seq<Request>, topic: string, toolName: string)
    requires requests != [] && Growing(requests)
    ensures var shown := Filtered(requests, topic, toolName);
      var last := Select(requests[|requests| - 1].entries, topic, toolName);
      FollowedTo(0, shown) <= |last| && Followed(0, shown) == Numbered(last, 0, FollowedTo(0, shown))
  {
    var shown := Filtered(requests, topic, toolName);
    FilteredGrow(requests, topic, toolName);
    hide Growing, Filtered, Select, Followed, FollowedTo, Numbered;
    FollowingServesAll(0, shown);
  }

  lemma FilteredGrow(requests: seq<Request>, topic: string, toolName: string)
    requires Growing(requests)
    ensures var shown := Filtered(requests, topic, toolName);
      && Growing(shown) && |shown| == |requests|
      && forall i :: 0 <= i < |shown| ==> shown[i].entries == Select(requests[i].entries, topic, toolName)
  {
    hide Select, FilterReplayEntries;
    var shown := Filtered(requests, topic, toolName);
    forall i | 0 <= i < |requests|
      ensures shown[i].entries == Select(requests[i].entries, topic, toolName)
    {
      SelectTwice(requests[i].entries, topic, toolName);
    }
    forall i, j | 0 <= i < j < |shown|
      ensures shown[i].entries <= shown[j].entries
    {
      FilterGrows(requests[i].entries, requests[j].entries, topic, toolName);
    }
  }

  // ---------------------------------------------------------------- the stream

  const PAGE_SIZE := 256

  /** One turn of the stream's loop: the replay it reads, whether the run then has ended, and the
      replay it reads once more in that case.  A replay that does not exist yet reads as empty. */
  datatype Turn = Turn(replay: seq<Entry>, ended: bool, final: seq<Entry>)

  datatype Frame = RunEvent(item: Item) | RunEnd | KeepAlive

  ghost predicate AppendOnly(turns: seq<Turn>) {
    && (forall i :: 0 <= i < |turns| ==> turns[i].replay <= turns[i].final)
    && (forall i, j :: 0 <= i < j < |turns| ==> turns[i].final <= turns[j].replay)
  }

  function Items(frames: seq<Frame>): seq<Item> {
    if frames == [] then []
    else
      var last := frames[|frames| - 1];
      Items(frames[..|frames| - 1]) + if last.RunEvent? then [last.item] else []
  }

  lemma {:induction false} ItemsOfEvents(frames: seq<Frame>, items: seq<Item>)
    ensures Items(frames + seq(|items|, k requires 0 <= k < |items| => RunEvent(items[k]))) == Items(frames) + items
    decreases |items|
  {
    var added := seq(|items|, k requires 0 <= k < |items| => RunEvent(items[k]));
    if items == [] {
      assert frames + added == frames;
    } else {
      var front := items[..|items| - 1];
      var addedFront := seq(|front|, k requires 0 <= k < |front| => RunEvent(front[k]));
      ItemsOfEvents(frames, front);
      var all := frames + added;
      assert all[..|all| - 1] == frames + addedFront && all[|all| - 1] == RunEvent(items[|items| - 1]);
      assert items == front + [items[|items| - 1]];
    }
  }

  /** How many comments that only keep the connection open are among the frames. */
  function KeepAlives(frames: seq<Frame>): nat {
    if frames == [] then 0
    else KeepAlives(frames[..|frames| - 1]) + if frames[|frames| - 1] == KeepAlive then 1 else 0
  }

  lemma {:induction false} EventsAreNoKeepAlives(frames: seq<Frame>, items: seq<Item>)
    ensures KeepAlives(frames + seq(|items|, k requires 0 <= k < |items| => RunEvent(items[k]))) == KeepAlives(frames)
    decreases |items|
  {
    var added := seq(|items|, k requires 0 <= k < |items| => RunEvent(items[k]));
    if items == [] {
      assert frames + added == frames;
    } else {
      var front := items[..|items| - 1];
      EventsAreNoKeepAlives(frames, front);
      var all := frames + added;
      assert all[..|all| - 1] == frames + seq(|front|, k requires 0 <= k < |front| => RunEvent(front[k]));
      assert all[|all| - 1] == RunEvent(items[|items| - 1]);
    }
  }

  /** The last frame says that the run has ended. */
  predicate SaysEnd(out: seq<Frame>) {
    out != [] && out[|out| - 1] == RunEnd
  }

  /** Emits one page of run events. */
  method EmitPage(out: seq<Frame>, replay: seq<Entry>, cursor: nat) returns (more: seq<Frame>, next: nat)
    ensures next == NextCursor(|replay|, cursor, PAGE_SIZE) &&
      Items(more) == Items(out) + Numbered(replay, cursor, next)
    ensures (SaysEnd(more) ==> SaysEnd(out)) && KeepAlives(more) == KeepAlives(out)
  {
    var events;
    events, next := BuildEventPage(replay, cursor, PAGE_SIZE);
    more := out + seq(|events|, k requires 0 <= k < |events| => RunEvent(events[k]));
    ItemsOfEvents(out, events);
    EventsAreNoKeepAlives(out, events);
  }

  /** The turn in which the stream stops: the first in which the run has ended, if any. */
  function StopsAt(turns: seq<Turn>): nat {
    if turns == [] then 0 else if turns[0].ended then 0 else 1 + StopsAt(turns[1..])
  }

  /** The cursor before turn `i`. */
  function CursorAt(start: nat, turns: seq<Turn>, i: nat): nat
    requires i <= |turns|
  {
    if i == 0 then start else NextCursor(|turns[i - 1].replay|, CursorAt(start, turns, i - 1), PAGE_SIZE)
  }

  lemma {:induction false} StopsAtIsFirst(turns: seq<Turn>, i: nat)
    requires i <= |turns| && forall j :: 0 <= j < i ==> !turns[j].ended
    ensures i <= StopsAt(turns) <= |turns| && (i < |turns| && turns[i].ended ==> StopsAt(turns) == i)
    decreases |turns|
  {
    if i > 0 {
      StopsAtIsFirst(turns[1..], i - 1);
    } else if turns != [] && !turns[0].ended {
      StopsAtIsFirst(turns[1..], 0);
    }
  }

  /** Where the stream has got to when it stops: in the last turn it reads once more. */
  function StreamedTo(start: nat, turns: seq<Turn>): nat
  {
    StopsAtIsFirst(turns, 0);
    var k := StopsAt(turns);
    if k == |turns| then CursorAt(start, turns, k)
    else NextCursor(|turns[k].final|, CursorAt(start, turns, k + 1), PAGE_SIZE)
  }

  /** Everything there was to see when the stream stopped. */
  function LastSeen(turns: seq<Turn>): seq<Entry>
  {
    StopsAtIsFirst(turns, 0);
    var k := StopsAt(turns);
    if turns == [] then [] else if k == |turns| then turns[k - 1].replay else turns[k].final
  }

  /** The frames carry exactly the entries from `from` up to `to`, each once and under its position. */
  ghost predicate Shows(out: seq<Frame>, entries: seq<Entry>, from: nat, to: nat) {
    from <= to && (from == to || to <= |entries|) && Items(out) == Numbered(entries, from, to)
  }

  lemma ShowsMore(out: seq<Frame>, more: seq<Frame>, seen: seq<Entry>, replay: seq<Entry>, from: nat, to: nat,
      next: nat)
    requires Shows(out, seen, from, to) && seen <= replay && next == NextCursor(|replay|, to, PAGE_SIZE)
    requires Items(more) == Items(out) + Numbered(replay, to, next)
    ensures Shows(more, replay, from, next)
  {
  }

  lemma ShowsMark(out: seq<Frame>, mark: Frame, entries: seq<Entry>, from: nat, to: nat)
    requires Shows(out, entries, from, to) && !mark.RunEvent?
    ensures Shows(out + [mark], entries, from, to) && (SaysEnd(out + [mark]) <==> mark == RunEnd)
    ensures KeepAlives(out + [mark]) == KeepAlives(out) + if mark == KeepAlive then 1 else 0
  {
  }

  lemma ReplayGrows(turns: seq<Turn>, i: nat)
    requires AppendOnly(turns) && i < |turns|
    ensures turns[i].replay <= turns[i].final && (i > 0 ==> turns[i - 1].replay <= turns[i].replay)
  {
    assert i > 0 ==> turns[i - 1].replay <= turns[i - 1].final <= turns[i].replay;
  }

  lemma StopsHere(start: nat, turns: seq<Turn>, i: nat)
    requires i < |turns| && turns[i].ended && forall j :: 0 <= j < i ==> !turns[j].ended
    ensures StopsAt(turns) == i && LastSeen(turns) == turns[i].final
    ensures StreamedTo(start, turns) == NextCursor(|turns[i].final|, CursorAt(start, turns, i + 1), PAGE_SIZE)
  {
    StopsAtIsFirst(turns, i);
  }

  lemma NeverStops(start: nat, turns: seq<Turn>)
    requires forall j :: 0 <= j < |turns| ==> !turns[j].ended
    ensures StopsAt(turns) == |turns| && StreamedTo(start, turns) == CursorAt(start, turns, |turns|)
    ensures LastSeen(turns) == if turns == [] then [] else turns[|turns| - 1].replay
  {
    StopsAtIsFirst(turns, |turns|);
  }

  /** The stream's loop over the turns it lives through.  What it emits is one contiguous stretch of
      the replay, and it says so when the run has ended. */
  method StreamRunEvents(cursor: int, turns: seq<Turn>) returns (out: seq<Frame>)
    requires AppendOnly(turns)
    ensures Shows(out, LastSeen(turns), Max(0, cursor), StreamedTo(Max(0, cursor), turns))
    ensures SaysEnd(out) <==> StopsAt(turns) < |turns|
    ensures KeepAlives(out) == StopsAt(turns) / 20
  {
    hide Shows, Items, Numbered, NextCursor, StopsAt, LastSeen, StreamedTo, SaysEnd, AppendOnly,
      KeepAlives;
    var start := Max(0, cursor);
    var nextCursor: nat := start;
    var tick := 0;
    out := [];
    ghost var seen: seq<Entry> := [];
    ShowsNothing(start);
    for i: nat := 0 to |turns|
      invariant forall j :: 0 <= j < i ==> !turns[j].ended
      invariant nextCursor == CursorAt(start, turns, i) && Shows(out, seen, start, nextCursor)
      invariant seen == if i == 0 then [] else turns[i - 1].replay
      invariant !SaysEnd(out) && tick == i && KeepAlives(out) == i / 20
    {
      ReplayGrows(turns, i);
      ghost var before := out;
      ghost var reached := nextCursor;
      out, nextCursor := EmitPage(out, turns[i].replay, nextCursor);
      ShowsMore(before, out, seen, turns[i].replay, start, reached, nextCursor);
      seen := turns[i].replay;
      if turns[i].ended {
        StopsHere(start, turns, i);
        before, reached := out, nextCursor;
        out, nextCursor := EmitPage(out, turns[i].final, nextCursor);
        ShowsMore(before, out, seen, turns[i].final, start, reached, nextCursor);
        ShowsMark(out, RunEnd, turns[i].final, start, nextCursor);
        out := out + [RunEnd];
        return;
      }
      tick := tick + 1;
      if tick % 20 == 0 {
        ShowsMark(out, KeepAlive, seen, start, nextCursor);
        out := out + [KeepAlive];
      }
    }
    NeverStops(start, turns);
  }

  lemma ShowsNothing(from: nat)
    ensures Shows([], [], from, from) && !SaysEnd([]) && KeepAlives([]) == 0
  {
  }

  // ---------------------------------------------------------------- when the stream is complete

  /** What the start and the replays read in the first `i` turns allow: a page from each turn on. */
  ghost predicate InReach(start: nat, turns: seq<Turn>, i: nat, n: int)
    requires i <= |turns|
  {
    && n <= start + PAGE_SIZE * i
    && forall j {:trigger turns[j]} :: 0 <= j < i ==> n <= Max(start, |turns[j].replay|) + PAGE_SIZE * (i - 1 - j)
  }

  /** The cursor before turn `i` has passed `n` entries exactly if they were in reach. */
  lemma {:induction false} CursorPassesIff(start: nat, turns: seq<Turn>, i: nat, n: int)
    requires AppendOnly(turns) && i <= |turns|
    ensures CursorAt(start, turns, i) >= start
    ensures i > 0 ==> CursorAt(start, turns, i) <= Max(start, |turns[i - 1].replay|)
    ensures CursorAt(start, turns, i) >= n <==> InReach(start, turns, i, n)
    decreases i
  {
    if i > 0 {
      CursorPassesIff(start, turns, i - 1, n - PAGE_SIZE);
      if i > 1 {
        assert turns[i - 2].replay <= turns[i - 2].final <= turns[i - 1].replay;
      }
      InReachStep(start, turns, i, n);
    }
  }

  lemma InReachStep(start: nat, turns: seq<Turn>, i: nat, n: int)
    requires 0 < i <= |turns|
    ensures InReach(start, turns, i, n) <==>
      InReach(start, turns, i - 1, n - PAGE_SIZE) && n <= Max(start, |turns[i - 1].replay|)
  {
  }

  /** A stream that ends has shown everything that was recorded when it read last -- if and only if the
      start is at most one page per reading behind, and so was every replay it read on the way. */
  lemma StreamIsCompleteIff(start: nat, turns: seq<Turn>)
    requires AppendOnly(turns) && StopsAt(turns) < |turns|
    ensures var k := StopsAt(turns);
      var n := |turns[k].final|;
      StreamedTo(start, turns) >= n <==>
        n <= start + PAGE_SIZE * (k + 2) &&
        forall j :: 0 <= j <= k ==> n <= Max(start, |turns[j].replay|) + PAGE_SIZE * (k + 1 - j)
  {
    var k := StopsAt(turns);
    StopsAtIsFirst(turns, 0);
    CursorPassesIff(start, turns, k + 1, |turns[k].final| - PAGE_SIZE);
  }

  /** A run that had ended before the client asked is cut off after two pages. */
  lemma EndedRunIsCutOff(start: nat, replay: seq<Entry>)
    ensures var turns := [Turn(replay, true, replay)];
      |replay| > start + 2 * PAGE_SIZE ==> StreamedTo(start, turns) == start + 2 * PAGE_SIZE < |LastSeen(turns)|
  {
    var turns := [Turn(replay, true, replay)];
    assert CursorAt(start, turns, 1) == NextCursor(|replay|, CursorAt(start, turns, 0), PAGE_SIZE);
  }

  /** The smallest such run: of 513 entries the last is never sent. */
  lemma LastOf513IsLost(replay: seq<Entry>)
    requires |replay| == 513
    ensures StreamedTo(0, [Turn(replay, true, replay)]) == 512
  {
    EndedRunIsCutOff(0, replay);
  }
}
