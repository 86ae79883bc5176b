/** The event bus and the replay recorder: two records of the same nested publications.

    The bus notes an event before it delivers it; the recorder is a wildcard subscriber, so it
    notes the event after every topic handler -- and everything those published -- is done. */
module EventHistory {
  import opened Basics
  import opened Publications

  type Id = nat

  datatype DomainEvent = DomainEvent(id: Id, topic: string, run: Option<Id>, artifact: Option<string>)

  lemma {:induction false} DistinctCountsOnce<T>(s: seq<T>, x: T)
    requires Distinct(s)
    ensures multiset(s)[x] == if x in s then 1 else 0
  {
    if s != [] {
      DistinctCountsOnce(s[1..], x);
      assert s == [s[0]] + s[1..];
    }
  }

  // ---------------------------------------------------------------- one run

  /** The events of one run, in order. */
  function OfRun(es: seq<DomainEvent>, run: Id): seq<DomainEvent> {
    if es == [] then [] else (if es[0].run == Some(run) then [es[0]] else []) + OfRun(es[1..], run)
  }

  lemma {:induction false} OfRunConcat(a: seq<DomainEvent>, b: seq<DomainEvent>, run: Id)
    ensures OfRun(a + b, run) == OfRun(a, run) + OfRun(b, run)
    decreases |a|
  {
    if a == [] {
      assert a + b == b;
    } else {
      OfRunConcat(a[1..], b, run);
      assert (a + b)[1..] == a[1..] + b && (a + b)[0] == a[0];
      var first := if a[0].run == Some(run) then [a[0]] else [];
      assert first + (OfRun(a[1..], run) + OfRun(b, run)) == (first + OfRun(a[1..], run)) + OfRun(b, run);
    }
  }

  lemma {:induction false} OfRunCounts(es: seq<DomainEvent>, run: Id, e: DomainEvent)
    ensures multiset(OfRun(es, run))[e] == if e.run == Some(run) then multiset(es)[e] else 0
  {
    if es != [] {
      OfRunCounts(es[1..], run, e);
      assert es == [es[0]] + es[1..];
    }
  }

  /** Whatever was published, a run's replay is a permutation of the run's part of the history. */
  lemma ReplayIsPermutation(ps: seq<Publication<DomainEvent>>, run: Id)
    ensures multiset(OfRun(Before(ps), run)) == multiset(OfRun(After(ps), run))
  {
    forall e: DomainEvent
      ensures multiset(OfRun(Before(ps), run))[e] == multiset(OfRun(After(ps), run))[e]
    {
      SameEvents(ps);
      OfRunCounts(Before(ps), run, e);
      OfRunCounts(After(ps), run, e);
    }
  }

  /** With distinct events, each event of the run is replayed exactly once. */
  lemma ReplayedExactlyOnce(ps: seq<Publication<DomainEvent>>, run: Id, e: DomainEvent)
    requires Distinct(Before(ps)) && e.run == Some(run)
    ensures multiset(OfRun(After(ps), run))[e] == if e in Before(ps) then 1 else 0
  {
    SameEvents(ps);
    OfRunCounts(After(ps), run, e);
    DistinctCountsOnce(Before(ps), e);
  }

  // ---------------------------------------------------------------- the program

  /** The artifact identifiers of a replay: each non-empty one once, in order of first appearance. */
  function Collect(ids: seq<string>, es: seq<DomainEvent>): seq<string>
    decreases |es|
  {
    if es == [] then ids else Collect(CollectOne(ids, es[0]), es[1..])
  }

  function CollectOne(ids: seq<string>, e: DomainEvent): seq<string> {
    match e.artifact
    case Some(a) => if a != "" && a !in ids then ids + [a] else ids
    case None => ids
  }

  lemma {:induction false} CollectConcat(ids: seq<string>, a: seq<DomainEvent>, b: seq<DomainEvent>)
    ensures Collect(ids, a + b) == Collect(Collect(ids, a), b)
    decreases |a|
  {
    if a == [] {
      assert a + b == b;
    } else {
      CollectConcat(CollectOne(ids, a[0]), a[1..], b);
      assert (a + b)[1..] == a[1..] + b;
    }
  }

  lemma {:induction false} CollectIsExact(ids: seq<string>, es: seq<DomainEvent>)
    requires Distinct(ids)
    ensures Distinct(Collect(ids, es)) && ids <= Collect(ids, es)
    ensures forall a :: a in Collect(ids, es) <==> a in ids || (a != "" && exists e :: e in es && e.artifact == Some(a))
    decreases |es|
  {
    if es != [] {
      var ids' := CollectOne(ids, es[0]);
      CollectIsExact(ids', es[1..]);
      assert forall e :: e in es <==> e == es[0] || e in es[1..];
    }
  }

  /** The contents of a replay: its timeline and its artifact identifiers. */
  datatype Replay = Replay(entries: seq<DomainEvent>, artifactIds: seq<string>)

  /** A run's replay takes the events of that run. */
  function Grown(replay: Replay, run: Id, es: seq<DomainEvent>): Replay {
    Replay(replay.entries + OfRun(es, run), Collect(replay.artifactIds, OfRun(es, run)))
  }

  lemma GrownConcat(replay: Replay, run: Id, a: seq<DomainEvent>, b: seq<DomainEvent>)
    ensures Grown(replay, run, a + b) == Grown(Grown(replay, run, a), run, b)
  {
    OfRunConcat(a, b, run);
    CollectConcat(replay.artifactIds, OfRun(a, run), OfRun(b, run));
  }

  /** What the replays hold after `es` were recorded. */
  ghost function Recorded(m: map<Id, Replay>, es: seq<DomainEvent>): map<Id, Replay> {
    map r | r in m :: Grown(m[r], r, es)
  }

  lemma RecordedConcat(m: map<Id, Replay>, a: seq<DomainEvent>, b: seq<DomainEvent>)
    ensures Recorded(m, a + b) == Recorded(Recorded(m, a), b)
  {
    forall r | r in m
      ensures Recorded(m, a + b)[r] == Recorded(Recorded(m, a), b)[r]
    {
      GrownConcat(m[r], r, a, b);
    }
  }

  lemma RecordedNothing(m: map<Id, Replay>, es: seq<DomainEvent>)
    requires es == [] || (|es| == 1 && (es[0].run.None? || es[0].run.value !in m))
    ensures Recorded(m, es) == m
  {
    assert forall r :: r in m ==> OfRun(es, r) == [];
    assert forall r :: r in m ==> Grown(m[r], r, es) == m[r];
  }

  lemma RecordedOne(m: map<Id, Replay>, e: DomainEvent)
    requires e.run.Some? && e.run.value in m
    ensures var r := e.run.value;
      Recorded(m, [e]) == m[r := Replay(m[r].entries + [e], CollectOne(m[r].artifactIds, e))]
  {
    assert [e][1..] == [];
    forall r | r in m
      ensures Grown(m[r], r, [e]) == if r == e.run.value
        then Replay(m[r].entries + [e], CollectOne(m[r].artifactIds, e)) else m[r]
    {
      assert OfRun([e], r) == if r == e.run.value then [e] else [];
      assert Collect(m[r].artifactIds, [e]) == CollectOne(m[r].artifactIds, e);
    }
  }

  class ReplayRoot {
    var entries: seq<DomainEvent>
    var artifactIds: seq<string>

    constructor ()
      ensures View() == Replay([], [])
    {
      entries, artifactIds := [], [];
    }

    function View(): Replay
      reads this
    {
      Replay(entries, artifactIds)
    }

    method Append(e: DomainEvent)
      modifies this`entries
      ensures entries == old(entries) + [e]
    {
      entries := entries + [e];
    }

    /** The timeline gets the event, the artifact list its artifact unless it is known already. */
    method Record(e: DomainEvent)
      modifies this
      ensures View() == Replay(old(entries) + [e], CollectOne(old(artifactIds), e))
    {
      Append(e);
      if e.artifact.Some? && e.artifact.value != "" && e.artifact.value !in artifactIds {
        artifactIds := artifactIds + [e.artifact.value];
      }
    }
  }

  class InMemoryEventBus {
    var events: seq<DomainEvent>
    const replays: map<Id, ReplayRoot>

    constructor (roots: map<Id, ReplayRoot>)
      ensures events == [] && replays == roots
    {
      events, replays := [], roots;
    }

    ghost predicate Valid() {
      forall r, r' :: r in replays && r' in replays && r != r' ==> replays[r] != replays[r']
    }

    ghost function Views(): map<Id, Replay>
      reads replays.Values
    {
      map r | r in replays :: replays[r].View()
    }

    /** The recorder's wildcard handler; events without a run, or of an unknown run, are dropped. */
    method HandleEvent(e: DomainEvent)
      requires Valid()
      modifies replays.Values
      ensures Views() == Recorded(old(Views()), [e])
    {
      if e.run.None? || e.run.value !in replays {
        RecordedNothing(Views(), [e]);
        return;
      }
      ghost var m := Views();
      replays[e.run.value].Record(e);
      RecordedOne(m, e);
    }

    /** Publishes one event: it is noted, delivered to its topic handlers -- which publish `nested`
        before they return -- and only then to the wildcard handler. */
    method Publish(p: Publication<DomainEvent>)
      requires Valid()
      modifies this`events, replays.Values
      ensures events == old(events) + Before([p])
      ensures Views() == Recorded(old(Views()), After([p]))
      decreases p
    {
      hide Recorded, Views;
      ghost var m := Views();
      events := events + [p.event];
      PublishAll(p.nested);
      HandleEvent(p.event);
      Single(p);
      RecordedConcat(m, After(p.nested), [p.event]);
    }

    /** A handler publishes one event after the other. */
    method PublishAll(ps: seq<Publication<DomainEvent>>)
      requires Valid()
      modifies this`events, replays.Values
      ensures events == old(events) + Before(ps)
      ensures Views() == Recorded(old(Views()), After(ps))
      decreases ps
    {
      hide Recorded, Views;
      if ps == [] {
        RecordedNothing(Views(), []);
      } else {
        ghost var m := Views();
        Publish(ps[0]);
        PublishAll(ps[1..]);
        OneByOne(ps);
        RecordedConcat(m, After([ps[0]]), After(ps[1..]));
      }
    }
  }
}
