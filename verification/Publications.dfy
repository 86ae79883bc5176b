/** Nested publications: an event and what its handlers publish while they handle it.

    The bus notes an event before it delivers it; a recorder that is a wildcard subscriber notes it
    after every topic handler -- and everything those published -- is done. */
module Publications {
  import opened Basics

  /** An event together with what its topic handlers publish while they handle it, in order. */
  datatype Publication<E> = Publication(event: E, nested: seq<Publication<E>>)

  // ---------------------------------------------------------------- the two orders

  function Before<E>(ps: seq<Publication<E>>): seq<E>
    decreases ps
  {
    if ps == [] then [] else [ps[0].event] + Before(ps[0].nested) + Before(ps[1..])
  }

  function After<E>(ps: seq<Publication<E>>): seq<E>
    decreases ps
  {
    if ps == [] then [] else After(ps[0].nested) + [ps[0].event] + After(ps[1..])
  }

  /** Both records hold the same events, each as often. */
  lemma {:induction false} SameEvents<E>(ps: seq<Publication<E>>)
    ensures multiset(Before(ps)) == multiset(After(ps)) && |Before(ps)| == |After(ps)|
    decreases ps
  {
    if ps != [] {
      SameEvents(ps[0].nested);
      SameEvents(ps[1..]);
    }
  }

  lemma DistinctParts<T>(a: seq<T>, x: T, b: seq<T>)
    requires Distinct(a + [x] + b)
    ensures Distinct(a) && Distinct(b) && x !in a && x !in b
  {
    var s := a + [x] + b;
    assert forall i :: 0 <= i < |a| ==> s[i] == a[i];
    assert forall i :: 0 <= i < |b| ==> s[|a| + 1 + i] == b[i];
    assert s[|a|] == x;
  }

  /** An element that occurs once splits a sequence in one way. */
  lemma SplitsOnce<T>(a: seq<T>, b: seq<T>, a': seq<T>, b': seq<T>, x: T)
    requires a + [x] + b == a' + [x] + b' && x !in a && x !in a'
    ensures a == a' && b == b'
  {
    var s := a + [x] + b;
    assert s[|a|] == x && s[|a'|] == x;
    assert forall i :: 0 <= i < |a| ==> s[i] == a[i] && s[i] != x;
    assert forall i :: 0 <= i < |a'| ==> s[i] == a'[i] && s[i] != x;
    assert a == s[..|a|] && b == s[|a| + 1..];
    assert a' == s[..|a'|] && b' == s[|a'| + 1..];
  }

  /** The first publication and the rest can be told apart in the two records. */
  lemma RecordsSplit<E>(ps: seq<Publication<E>>, qs: seq<Publication<E>>)
    requires ps != [] && qs != []
    requires Before(ps) == Before(qs) && After(ps) == After(qs) && Distinct(After(ps))
    ensures ps[0].event == qs[0].event
    ensures After(ps[0].nested) == After(qs[0].nested) && After(ps[1..]) == After(qs[1..])
    ensures Distinct(After(ps[0].nested)) && Distinct(After(ps[1..]))
    ensures Before(ps[0].nested) == Before(qs[0].nested) && Before(ps[1..]) == Before(qs[1..])
  {
    var e := ps[0].event;
    assert Before(ps)[0] == e && Before(qs)[0] == qs[0].event;
    DistinctParts(After(ps[0].nested), e, After(ps[1..]));
    DistinctParts(After(qs[0].nested), e, After(qs[1..]));
    SplitsOnce(After(ps[0].nested), After(ps[1..]), After(qs[0].nested), After(qs[1..]), e);
    SameEvents(ps[0].nested);
    SameEvents(qs[0].nested);
    CutAt(e, Before(ps[0].nested), Before(ps[1..]));
    CutAt(e, Before(qs[0].nested), Before(qs[1..]));
  }

  lemma CutAt<T>(x: T, a: seq<T>, b: seq<T>)
    ensures ([x] + a + b)[1..1 + |a|] == a && ([x] + a + b)[1 + |a|..] == b
  {
  }

  /** The two records together determine who published what while handling what. */
  lemma {:induction false} RecordsDetermineNesting<E>(ps: seq<Publication<E>>, qs: seq<Publication<E>>)
    requires Before(ps) == Before(qs) && After(ps) == After(qs) && Distinct(After(ps))
    ensures ps == qs
    decreases ps
  {
    if ps != [] && qs != [] {
      RecordsSplit(ps, qs);
      RecordsDetermineNesting(ps[0].nested, qs[0].nested);
      RecordsDetermineNesting(ps[1..], qs[1..]);
      assert ps == [ps[0]] + ps[1..] && qs == [qs[0]] + qs[1..];
    } else {
      assert |Before(ps)| == |Before(qs)|;
    }
  }

  lemma OneByOne<E>(ps: seq<Publication<E>>)
    requires ps != []
    ensures Before(ps) == Before([ps[0]]) + Before(ps[1..]) && After(ps) == After([ps[0]]) + After(ps[1..])
  {
    Single(ps[0]);
    assert Before(ps) == ([ps[0].event] + Before(ps[0].nested)) + Before(ps[1..]);
  }

  lemma Single<E>(p: Publication<E>)
    ensures Before([p]) == [p.event] + Before(p.nested) && After([p]) == After(p.nested) + [p.event]
  {
  }

  lemma {:induction false} OrdersOfConcat<E>(ps: seq<Publication<E>>, qs: seq<Publication<E>>)
    ensures Before(ps + qs) == Before(ps) + Before(qs) && After(ps + qs) == After(ps) + After(qs)
    decreases |ps|
  {
    if ps == [] {
      assert ps + qs == qs;
    } else {
      var p, rest := ps[0], ps[1..];
      OrdersOfConcat(rest, qs);
      assert (ps + qs)[0] == p && (ps + qs)[1..] == rest + qs;
      Regroup([p.event] + Before(p.nested), Before(rest), Before(qs));
      Regroup(After(p.nested) + [p.event], After(rest), After(qs));
    }
  }

  // ---------------------------------------------------------------- growing records

  /** The two records of a bus. */
  datatype Records<E> = Records(history: seq<E>, replay: seq<E>)

  /** Between the two moments exactly `ps` was published. */
  ghost predicate Adds<E>(r: Records<E>, r': Records<E>, ps: seq<Publication<E>>) {
    r'.history == r.history + Before(ps) && r'.replay == r.replay + After(ps)
  }

  lemma AddsThen<E>(r: Records<E>, r': Records<E>, r'': Records<E>, ps: seq<Publication<E>>, qs: seq<Publication<E>>)
    requires Adds(r, r', ps) && Adds(r', r'', qs)
    ensures Adds(r, r'', ps + qs)
  {
    OrdersOfConcat(ps, qs);
    hide Before, After;
    Regroup(r.history, Before(ps), Before(qs));
    Regroup(r.replay, After(ps), After(qs));
  }

  lemma AddsNothing<E>(r: Records<E>)
    ensures Adds(r, r, [])
  {
  }

  lemma AddsOne<E>(r: Records<E>, e: E)
    ensures Adds(r, Records(r.history + [e], r.replay + [e]), [Publication(e, [])])
  {
    AddsNothing(Records(r.history + [e], r.replay));
    AddsAround(r, Records(r.history + [e], r.replay), e, []);
  }

  /** An event is noted, its handlers publish, and then it is recorded. */
  lemma AddsAround<E>(r: Records<E>, r': Records<E>, e: E, nested: seq<Publication<E>>)
    requires Adds(Records(r.history + [e], r.replay), r', nested)
    ensures Adds(r, Records(r'.history, r'.replay + [e]), [Publication(e, nested)])
  {
  }
}
