/** The in-memory vector memory over the reals: cosine scores, the ranked query, and the hashing
    embedding.  The square root and the hash are parameters. */
module VectorSearch {
  import opened Basics

  ghost predicate IsSquareRoot(sqrt: real -> real) {
    forall x :: x >= 0.0 ==> sqrt(x) >= 0.0 && sqrt(x) * sqrt(x) == x
  }

  // ---------------------------------------------------------------- cosine

  function Dot(a: seq<real>, b: seq<real>): real
    requires |a| == |b|
  {
    if a == [] then 0.0 else Product(a[0], b[0]) + Dot(a[1..], b[1..])
  }

  function Product(x: real, y: real): real {
    x * y
  }

  function Norm(a: seq<real>, sqrt: real -> real): real {
    sqrt(Dot(a, a))
  }

  function Cosine(left: seq<real>, right: seq<real>, sqrt: real -> real): real {
    if left == [] || right == [] || |left| != |right| then 0.0
    else Quotient(Dot(left, right), Norm(left, sqrt), Norm(right, sqrt))
  }

  function Quotient(numerator: real, leftNorm: real, rightNorm: real): real {
    if leftNorm == 0.0 || rightNorm == 0.0 then 0.0
    else
      numerator / (leftNorm * rightNorm)
  }

  /** The scalar product is the sum of the products, coordinate by coordinate. */
  lemma {:induction false} DotOfConcat(a: seq<real>, b: seq<real>, c: seq<real>, d: seq<real>)
    requires |a| == |c| && |b| == |d|
    ensures Dot(a + b, c + d) == Dot(a, c) + Dot(b, d)
    decreases |a|
  {
    if a == [] {
      assert a + b == b && c + d == d;
    } else {
      DotOfConcat(a[1..], b, c[1..], d);
      assert (a + b)[1..] == a[1..] + b && (c + d)[1..] == c[1..] + d;
    }
  }

  lemma DotOfOne(x: real, y: real)
    ensures Dot([x], [y]) == x * y
  {
    assert [x][1..] == [] && [y][1..] == [];
  }

  /** A score times both lengths is the scalar product; it is 0 without a direction or a common dimension. */
  lemma CosineIsExact(left: seq<real>, right: seq<real>, sqrt: real -> real) returns (l: real, r: real)
    requires IsSquareRoot(sqrt)
    ensures l >= 0.0 && l * l == Dot(left, left) && r >= 0.0 && r * r == Dot(right, right)
    ensures if |left| == |right| && l != 0.0 && r != 0.0 then Cosine(left, right, sqrt) * (l * r) == Dot(left, right)
      else Cosine(left, right, sqrt) == 0.0
  {
    SquaresAreNotNegative(left);
    SquaresAreNotNegative(right);
    l, r := Norm(left, sqrt), Norm(right, sqrt);
    if |left| == |right| && l != 0.0 && r != 0.0 {
      assert left != [] by { RootOfZero(l, Dot(left, left)); }
      QuotientTimes(Dot(left, right), l, r);
    }
  }

  lemma RootOfZero(n: real, d: real)
    requires n >= 0.0 && n * n == d
    ensures n == 0.0 <==> d == 0.0
  {
    if n > 0.0 { ProductOf(n, n, d); }
  }

  lemma QuotientTimes(n: real, l: real, r: real)
    requires l > 0.0 && r > 0.0
    ensures Quotient(n, l, r) * (l * r) == n
  {
    Products(l, r);
    var d := l * r;
    assert (n / d) * d == n;
  }

  lemma {:induction false} SquaresAreNotNegative(a: seq<real>)
    ensures Dot(a, a) >= 0.0
  {
    if a != [] { SquaresAreNotNegative(a[1..]); }
  }

  lemma Products(p: real, q: real)
    requires p >= 0.0 && q >= 0.0
    ensures p * q >= 0.0 && (p > 0.0 && q > 0.0 ==> p * q > 0.0)
  {
  }

  /** What is not negative is at least any number of at most the same square. */
  lemma RootOrder(q: real, r: real)
    requires q >= 0.0 && r * r <= q * q
    ensures -q <= r <= q
  {
    if r > q {
      SquareGrows(q, r - q);
    } else if r < -q {
      SquareGrows(q, -r - q);
    }
  }

  lemma SquareGrows(q: real, d: real)
    requires q >= 0.0 && d > 0.0
    ensures q * q < (q + d) * (q + d)
  {
  }

  lemma ProductOf(p: real, q: real, d: real)
    requires p > 0.0 && q > 0.0 && p * q == d
    ensures d > 0.0
  {
  }

  lemma Cancel(p: real, q: real)
    requires q > 0.0 && p * q == q
    ensures p == 1.0
  {
  }

  /** The step of the Cauchy-Schwarz inequality: 2xyP is at most x*x*B + y*y*A. */
  lemma CrossTerms(x: real, y: real, a: real, b: real, p: real)
    requires a >= 0.0 && b >= 0.0 && p * p <= a * b
    ensures 2.0 * x * y * p <= x * x * b + y * y * a
  {
    var u, v, w := x * x * b, y * y * a, x * y;
    Products(x * x, b);
    Products(y * y, a);
    assert (u + v) * (u + v) - 4.0 * u * v == (u - v) * (u - v);
    assert u * v == (w * w) * (a * b);
    Products(w * w, a * b - p * p);
    assert (2.0 * w * p) * (2.0 * w * p) == 4.0 * (w * w) * (p * p);
    RootOrder(u + v, 2.0 * w * p);
  }

  ghost predicate Bounds(aa: real, bb: real, ab: real) {
    aa >= 0.0 && bb >= 0.0 && ab * ab <= aa * bb
  }

  lemma Expand(x: real, y: real, aa: real, bb: real, ab: real)
    requires Bounds(aa, bb, ab)
    ensures Bounds(Product(x, x) + aa, Product(y, y) + bb, Product(x, y) + ab)
  {
    CrossTerms(x, y, aa, bb, ab);
    assert (x * y + ab) * (x * y + ab) == (x * y) * (x * y) + 2.0 * x * y * ab + ab * ab;
    assert (x * x + aa) * (y * y + bb) == (x * x) * (y * y) + x * x * bb + y * y * aa + aa * bb;
    assert (x * y) * (x * y) == (x * x) * (y * y);
  }

  /** The Cauchy-Schwarz inequality. */
  lemma {:induction false} CauchySchwarz(a: seq<real>, b: seq<real>)
    requires |a| == |b|
    ensures Bounds(Dot(a, a), Dot(b, b), Dot(a, b))
  {
    if a != [] {
      hide Bounds, Product;
      CauchySchwarz(a[1..], b[1..]);
      Expand(a[0], b[0], Dot(a[1..], a[1..]), Dot(b[1..], b[1..]), Dot(a[1..], b[1..]));
    }
  }

  /** Every score lies between -1 and 1. */
  lemma CosineInRange(left: seq<real>, right: seq<real>, sqrt: real -> real)
    requires IsSquareRoot(sqrt)
    ensures -1.0 <= Cosine(left, right, sqrt) <= 1.0
  {
    if left != [] && |left| == |right| {
      CauchySchwarz(left, right);
      var l, r := Norm(left, sqrt), Norm(right, sqrt);
      QuotientInRange(Dot(left, right), l, r, Dot(left, left), Dot(right, right));
    }
  }

  lemma QuotientInRange(n: real, l: real, r: real, ll: real, rr: real)
    requires l >= 0.0 && r >= 0.0 && l * l == ll && r * r == rr && Bounds(ll, rr, n)
    ensures -1.0 <= Quotient(n, l, r) <= 1.0
  {
    if l > 0.0 && r > 0.0 {
      var d := l * r;
      Products(l, r);
      assert d * d == (l * l) * (r * r);
      RootOrder(d, n);
      assert (n / d) * d == n;
      assert Quotient(n, l, r) == n / d;
    }
  }

  lemma QuotientOfSelf(n: real, d: real)
    requires n > 0.0 && n * n == d
    ensures d > 0.0 && Quotient(d, n, n) == 1.0
  {
    ProductOf(n, n, d);
    assert d / d == 1.0;
  }

  /** A vector scores 1 against itself, unless it is zero; nothing scores higher. */
  lemma CosineOfSelf(v: seq<real>, sqrt: real -> real)
    requires IsSquareRoot(sqrt)
    ensures Cosine(v, v, sqrt) == if Dot(v, v) == 0.0 then 0.0 else 1.0
  {
    SquaresAreNotNegative(v);
    var n, d := Norm(v, sqrt), Dot(v, v);
    assert n * n == d;
    if n != 0.0 { QuotientOfSelf(n, d); }
  }

  // ---------------------------------------------------------------- ranking

  datatype MemoryItem = MemoryItem(id: string, content: string)
  datatype Scored = Scored(item: MemoryItem, score: real)
  datatype Stored = Stored(item: MemoryItem, vector: seq<real>)

  /** The stable descending sort. */
  function Rank(s: seq<Scored>): seq<Scored> {
    if s == [] then [] else Insert(s[0], Rank(s[1..]))
  }

  function Insert(x: Scored, t: seq<Scored>): seq<Scored> {
    if t == [] || x.score >= t[0].score then [x] + t else [t[0]] + Insert(x, t[1..])
  }

  predicate Descending(s: seq<Scored>) {
    forall i, j | 0 <= i < j < |s| :: s[i].score >= s[j].score
  }

  function WithScore(s: seq<Scored>, v: real): seq<Scored> {
    if s == [] then []
    else if s[0].score == v then [s[0]] + WithScore(s[1..], v)
    else WithScore(s[1..], v)
  }

  /** `t` is the stable descending sort of `s`: it descends, and the items of any one score are those
      of `s` in the order of `s`. */
  ghost predicate StablySorts(t: seq<Scored>, s: seq<Scored>) {
    Descending(t) && forall v :: WithScore(t, v) == WithScore(s, v)
  }

  lemma {:induction false} InsertAdds(x: Scored, t: seq<Scored>)
    ensures |Insert(x, t)| == |t| + 1 && multiset(Insert(x, t)) == multiset(t) + multiset{x}
  {
    if t != [] && x.score < t[0].score {
      InsertAdds(x, t[1..]);
      assert t == [t[0]] + t[1..];
    }
  }

  lemma {:induction false} InsertDescends(x: Scored, t: seq<Scored>)
    requires Descending(t)
    ensures Descending(Insert(x, t))
  {
    if t != [] && x.score < t[0].score {
      InsertDescends(x, t[1..]);
      InsertAdds(x, t[1..]);
      var rest := Insert(x, t[1..]);
      forall i | 0 <= i < |rest|
        ensures t[0].score >= rest[i].score
      {
        assert rest[i] in multiset(rest);
      }
    }
  }

  lemma {:induction false} InsertIsStable(x: Scored, t: seq<Scored>, v: real)
    ensures WithScore(Insert(x, t), v) == if x.score == v then [x] + WithScore(t, v) else WithScore(t, v)
  {
    if t == [] || x.score >= t[0].score {
      assert ([x] + t)[1..] == t;
    } else {
      InsertIsStable(x, t[1..], v);
      assert ([t[0]] + Insert(x, t[1..]))[1..] == Insert(x, t[1..]);
    }
  }

  /** Sorting keeps the items, descends, and is stable. */
  lemma {:induction false} RankStablySorts(s: seq<Scored>)
    ensures StablySorts(Rank(s), s)
    ensures |Rank(s)| == |s| && multiset(Rank(s)) == multiset(s)
  {
    if s != [] {
      RankStablySorts(s[1..]);
      assert s == [s[0]] + s[1..];
      InsertAdds(s[0], Rank(s[1..]));
      InsertDescends(s[0], Rank(s[1..]));
      forall v
        ensures WithScore(Rank(s), v) == WithScore(s, v)
      {
        InsertIsStable(s[0], Rank(s[1..]), v);
      }
    }
  }

  lemma {:induction false} WithScoreOfAbsent(s: seq<Scored>, v: real)
    ensures WithScore(s, v) == [] <==> forall x <- s :: x.score != v
    ensures forall x <- WithScore(s, v) :: x in s && x.score == v
  {
    if s != [] { WithScoreOfAbsent(s[1..], v); }
  }

  /** There is only one stable descending sort. */
  lemma {:induction false} StableSortIsUnique(t: seq<Scored>, u: seq<Scored>)
    requires Descending(t) && Descending(u)
    requires forall v :: WithScore(t, v) == WithScore(u, v)
    ensures t == u
  {
    if t == [] || u == [] {
      SameWhenEmpty(t, u);
      SameWhenEmpty(u, t);
    } else {
      SameHead(t, u);
      forall v
        ensures WithScore(t[1..], v) == WithScore(u[1..], v)
      {
        TailOf(t, v);
        TailOf(u, v);
        assert WithScore(t, v) == WithScore(u, v);
      }
      StableSortIsUnique(t[1..], u[1..]);
      assert t == [t[0]] + t[1..] && u == [u[0]] + u[1..];
    }
  }

  lemma TailOf(t: seq<Scored>, v: real)
    requires t != []
    ensures WithScore(t[1..], v) == if t[0].score == v then WithScore(t, v)[1..] else WithScore(t, v)
  {
  }

  lemma SameWhenEmpty(t: seq<Scored>, u: seq<Scored>)
    requires forall v :: WithScore(t, v) == WithScore(u, v)
    ensures t == [] ==> u == []
  {
    if t == [] && u != [] {
      WithScoreOfAbsent(u, u[0].score);
      assert WithScore(t, u[0].score) == [];
    }
  }

  lemma SameHead(t: seq<Scored>, u: seq<Scored>)
    requires t != [] && u != [] && Descending(t) && Descending(u)
    requires forall v :: WithScore(t, v) == WithScore(u, v)
    ensures t[0] == u[0]
  {
    HeadIsAsHigh(t, u);
    HeadIsAsHigh(u, t);
    assert WithScore(t, t[0].score)[0] == t[0];
    assert WithScore(u, t[0].score)[0] == u[0];
  }

  lemma HeadIsAsHigh(t: seq<Scored>, u: seq<Scored>)
    requires t != [] && u != [] && Descending(u)
    requires forall v :: WithScore(t, v) == WithScore(u, v)
    ensures u[0].score >= t[0].score
  {
    WithScoreOfAbsent(t, t[0].score);
    WithScoreOfAbsent(u, t[0].score);
    assert WithScore(t, t[0].score) == WithScore(u, t[0].score);
    var x :| x in u && x.score == t[0].score;
  }

  // ---------------------------------------------------------------- slices

  /** A slice up to `k`, where a negative `k` counts from the end. */
  function Slice<T>(s: seq<T>, k: int): seq<T> {
    if k >= 0 then s[..if k < |s| then k else |s|]
    else s[..if |s| + k < 0 then 0 else |s| + k]
  }

  lemma {:induction false} WithScoreOfConcat(a: seq<Scored>, b: seq<Scored>, v: real)
    ensures WithScore(a + b, v) == WithScore(a, v) + WithScore(b, v)
    decreases |a|
  {
    if a == [] {
      assert a + b == b;
    } else {
      WithScoreOfConcat(a[1..], b, v);
      assert (a + b)[1..] == a[1..] + b;
    }
  }

  /** `top` was chosen and `rest` left out of `s`: nothing is lost, nothing left out scores higher, and
      of the items of one score those that come first in `s` are chosen. */
  ghost predicate Chosen(top: seq<Scored>, rest: seq<Scored>, s: seq<Scored>) {
    && multiset(top) + multiset(rest) == multiset(s)
    && (forall x <- top, y <- rest :: x.score >= y.score)
    && forall v :: WithScore(top, v) + WithScore(rest, v) == WithScore(s, v)
  }

  lemma PrefixIsChosen(top: seq<Scored>, rest: seq<Scored>, s: seq<Scored>)
    requires StablySorts(top + rest, s) && multiset(top + rest) == multiset(s)
    ensures Descending(top) && Chosen(top, rest, s)
  {
    var all := top + rest;
    assert Descending(top) by {
      assert forall i :: 0 <= i < |top| ==> top[i] == all[i];
    }
    forall x, y | x in top && y in rest
      ensures x.score >= y.score
    {
      var i :| 0 <= i < |top| && top[i] == x;
      var j :| 0 <= j < |rest| && rest[j] == y;
      assert all[i] == x && all[|top| + j] == y;
    }
    forall v
      ensures WithScore(top, v) + WithScore(rest, v) == WithScore(s, v)
    {
      WithScoreOfConcat(top, rest, v);
      assert WithScore(all, v) == WithScore(s, v);
    }
  }

  /** What a query returns is the best of what was scored: as many as asked for, in descending order,
      none of them below one that was left out, and of two with the same score the one stored first. */
  lemma TopIsBest(s: seq<Scored>, k: int)
    ensures var top := Slice(Rank(s), k);
      && |top| == (if k >= 0 then Min(k, |s|) else Max(0, |s| + k))
      && Descending(top)
      && exists rest: seq<Scored> :: Chosen(top, rest, s)
  {
    hide StablySorts, Chosen;
    RankStablySorts(s);
    var top := Slice(Rank(s), k);
    var rest := Rank(s)[|top|..];
    assert Rank(s) == top + rest;
    PrefixIsChosen(top, rest, s);
  }

  // ---------------------------------------------------------------- the store

  ghost predicate DistinctIds(items: seq<Stored>) {
    forall i, j :: 0 <= i < j < |items| ==> items[i].item.id != items[j].item.id
  }

  /** An insertion-ordered dictionary: a known key keeps its place. */
  function PutItem(items: seq<Stored>, x: Stored): seq<Stored> {
    if items == [] then [x]
    else if items[0].item.id == x.item.id then [x] + items[1..]
    else [items[0]] + PutItem(items[1..], x)
  }

  function Remove(items: seq<Stored>, id: string): seq<Stored> {
    if items == [] then []
    else if items[0].item.id == id then items[1..]
    else [items[0]] + Remove(items[1..], id)
  }

  function Get(items: seq<Stored>, id: string): Option<Stored> {
    if items == [] then None
    else if items[0].item.id == id then Some(items[0])
    else Get(items[1..], id)
  }

  lemma {:induction false} GetFinds(items: seq<Stored>, id: string)
    ensures match Get(items, id)
      case None => forall x <- items :: x.item.id != id
      case Some(x) => x in items && x.item.id == id
  {
    if items != [] && items[0].item.id != id { GetFinds(items[1..], id); }
  }

  /** The store answers as a dictionary: the last value put under an id, until it is removed. */
  lemma {:induction false} PutThenGet(items: seq<Stored>, x: Stored, id: string)
    ensures Get(PutItem(items, x), id) == if id == x.item.id then Some(x) else Get(items, id)
  {
    if items != [] && items[0].item.id != x.item.id { PutThenGet(items[1..], x, id); }
  }

  lemma {:induction false} PutKeepsDistinct(items: seq<Stored>, x: Stored)
    requires DistinctIds(items)
    ensures DistinctIds(PutItem(items, x))
    ensures forall y <- PutItem(items, x) :: y == x || y in items
  {
    if items != [] && items[0].item.id != x.item.id {
      PutKeepsDistinct(items[1..], x);
      var rest := PutItem(items[1..], x);
      forall y | y in rest
        ensures y.item.id != items[0].item.id
      {
        if y != x {
          var i :| 0 <= i < |items[1..]| && items[1..][i] == y;
          assert items[i + 1] == y;
        }
      }
    }
  }

  lemma {:induction false} RemoveThenGet(items: seq<Stored>, gone: string, id: string)
    requires DistinctIds(items)
    ensures DistinctIds(Remove(items, gone))
    ensures forall y <- Remove(items, gone) :: y in items
    ensures Get(Remove(items, gone), id) == if id == gone then None else Get(items, id)
  {
    if items != [] {
      if items[0].item.id == gone {
        GetFinds(items[1..], gone);
      } else {
        RemoveThenGet(items[1..], gone, id);
        forall y | y in Remove(items[1..], gone)
          ensures y.item.id != items[0].item.id
        {
          var i :| 0 <= i < |items[1..]| && items[1..][i] == y;
          assert items[i + 1] == y;
        }
      }
    }
  }

  /** Deleting undoes the upsert of a new id, order included. */
  lemma {:induction false} DeleteUndoesUpsert(items: seq<Stored>, x: Stored)
    requires forall y <- items :: y.item.id != x.item.id
    ensures Remove(PutItem(items, x), x.item.id) == items
  {
    if items != [] {
      DeleteUndoesUpsert(items[1..], x);
      assert items == [items[0]] + items[1..];
    }
  }

  /** A known identifier keeps its place, a new one comes last. */
  lemma {:induction false} PutKeepsPlace(items: seq<Stored>, x: Stored, i: nat)
    requires DistinctIds(items) && i <= |items| && forall j :: 0 <= j < i ==> items[j].item.id != x.item.id
    requires i < |items| ==> items[i].item.id == x.item.id
    ensures PutItem(items, x) == if i < |items| then items[i := x] else items + [x]
    decreases i
  {
    if i > 0 {
      PutKeepsPlace(items[1..], x, i - 1);
      assert items == [items[0]] + items[1..];
    }
  }

  /** Removing one item keeps the order of the others. */
  lemma {:induction false} RemoveKeepsOrder(items: seq<Stored>, i: nat)
    requires DistinctIds(items) && i < |items|
    ensures Remove(items, items[i].item.id) == items[..i] + items[i + 1..]
    decreases i
  {
    if i > 0 {
      RemoveKeepsOrder(items[1..], i - 1);
      assert items[..i] + items[i + 1..] == [items[0]] + (items[1..][..i - 1] + items[1..][i..]);
    }
  }

  function Scores(items: seq<Stored>, vector: seq<real>, sqrt: real -> real): seq<Scored> {
    seq(|items|, i requires 0 <= i < |items| => Scored(items[i].item, Cosine(vector, items[i].vector, sqrt)))
  }

  class InMemoryVectorStore {
    var items: seq<Stored>

    ghost predicate Valid()
      reads this
    {
      DistinctIds(items)
    }

    constructor ()
      ensures Valid() && items == []
    {
      items := [];
    }

    method Upsert(item: MemoryItem, vector: seq<real>)
      requires Valid()
      modifies this
      ensures Valid()
      ensures forall id :: Get(items, id) == if id == item.id then Some(Stored(item, vector)) else Get(old(items), id)
      ensures items == PutItem(old(items), Stored(item, vector))
    {
      PutKeepsDistinct(items, Stored(item, vector));
      forall id
        ensures Get(PutItem(items, Stored(item, vector)), id) ==
          if id == item.id then Some(Stored(item, vector)) else Get(items, id)
      {
        PutThenGet(items, Stored(item, vector), id);
      }
      items := PutItem(items, Stored(item, vector));
    }

    method Delete(id: string)
      requires Valid()
      modifies this
      ensures Valid()
      ensures forall other :: Get(items, other) == if other == id then None else Get(old(items), other)
      ensures items == Remove(old(items), id)
    {
      RemoveThenGet(items, id, id);
      forall other
        ensures Get(Remove(items, id), other) == if other == id then None else Get(items, other)
      {
        RemoveThenGet(items, id, other);
      }
      items := Remove(items, id);
    }

    method Query(vector: seq<real>, topK: int, sqrt: real -> real) returns (best: seq<Scored>)
      ensures exists sorted: seq<Scored> ::
        StablySorts(sorted, Scores(items, vector, sqrt)) && best == Slice(sorted, topK)
      ensures best == Slice(Rank(Scores(items, vector, sqrt)), topK)
      ensures forall x <- best :: exists y <- items :: x.item == y.item && x.score == Cosine(vector, y.vector, sqrt)
    {
      var scored: seq<Scored> := [];
      for i := 0 to |items|
        invariant scored == Scores(items, vector, sqrt)[..i]
      {
        scored := scored + [Scored(items[i].item, Cosine(vector, items[i].vector, sqrt))];
      }
      assert scored == Scores(items, vector, sqrt);
      RankStablySorts(scored);
      best := Slice(Rank(scored), topK);
      BestAreStored(items, vector, sqrt, best);
    }
  }

  lemma BestAreStored(items: seq<Stored>, vector: seq<real>, sqrt: real -> real, best: seq<Scored>)
    requires exists k :: best == Slice(Rank(Scores(items, vector, sqrt)), k)
    ensures forall x <- best :: exists y <- items :: x.item == y.item && x.score == Cosine(vector, y.vector, sqrt)
  {
    var s := Scores(items, vector, sqrt);
    RankStablySorts(s);
    forall x | x in best
      ensures exists y <- items :: x.item == y.item && x.score == Cosine(vector, y.vector, sqrt)
    {
      assert x in Rank(s) && x in multiset(s);
      var i :| 0 <= i < |s| && s[i] == x;
      assert items[i] in items;
    }
  }

  /** Asking with the very vector that was stored finds a perfect score at the top. */
  lemma StoredVectorIsFound(items: seq<Stored>, x: Stored, k: int, sqrt: real -> real)
    requires IsSquareRoot(sqrt) && x in items && Dot(x.vector, x.vector) != 0.0 && k > 0
    ensures var best := Slice(Rank(Scores(items, x.vector, sqrt)), k);
      best != [] && best[0].score == 1.0
  {
    var s := Scores(items, x.vector, sqrt);
    var i :| 0 <= i < |items| && items[i] == x;
    CosineOfSelf(x.vector, sqrt);
    assert s[i].score == 1.0 && s[i] in multiset(s);
    RankStablySorts(s);
    var all := Rank(s);
    assert s[i] in all;
    assert all[0] in multiset(s);
    var j :| 0 <= j < |s| && s[j] == all[0];
    CosineInRange(x.vector, items[j].vector, sqrt);
  }

  // ---------------------------------------------------------------- the hashing embedding

  /** The digest of a token, as far as it is read. */
  datatype Digest = Digest(head: nat, even: bool)

  function Sign(d: Digest): real {
    if d.even then 1.0 else -1.0
  }

  /** The signed count of the tokens that fall into a bucket. */
  function Weight(tokens: seq<string>, hash: string -> Digest, dimensions: nat, bucket: nat): real
    requires dimensions > 0
  {
    if tokens == [] then 0.0
    else
      var last := hash(tokens[|tokens| - 1]);
      var others := Weight(tokens[..|tokens| - 1], hash, dimensions, bucket);
      if last.head % dimensions == bucket then others + Sign(last) else others
  }

  function Scaled(values: seq<real>, unit: real): seq<real>
    requires unit != 0.0
  {
    seq(|values|, i requires 0 <= i < |values| => values[i] / unit)
  }

  function Weights(tokens: seq<string>, hash: string -> Digest, dimensions: nat): seq<real>
    requires dimensions > 0
  {
    seq(dimensions, bucket requires 0 <= bucket < dimensions => Weight(tokens, hash, dimensions, bucket))
  }

  function Magnitude(values: seq<real>, sqrt: real -> real): (m: real)
    ensures m != 0.0
  {
    if Norm(values, sqrt) == 0.0 then 1.0 else Norm(values, sqrt)
  }

  function Embedding(tokens: seq<string>, hash: string -> Digest, dimensions: nat, sqrt: real -> real): seq<real>
    requires dimensions > 0
  {
    var weights := Weights(tokens, hash, dimensions);
    Scaled(weights, Magnitude(weights, sqrt))
  }

  /** Fills the buckets and scales them to length 1.  Without dimensions the first token fails. */
  method EmbedTokens(tokens: seq<string>, hash: string -> Digest, dimensions: nat, sqrt: real -> real)
    returns (embedding: Option<seq<real>>)
    ensures embedding.None? <==> dimensions == 0 && tokens != []
    ensures dimensions == 0 && tokens == [] ==> embedding == Some([])
    ensures dimensions > 0 ==> embedding == Some(Embedding(tokens, hash, dimensions, sqrt))
  {
    if tokens == [] {
      assert dimensions > 0 ==> seq(dimensions, _ => 0.0) == Embedding(tokens, hash, dimensions, sqrt);
      return Some(seq(dimensions, _ => 0.0));
    }
    if dimensions == 0 {
      return None;
    }
    var values := new real[dimensions](_ => 0.0);
    for n := 0 to |tokens|
      invariant forall b: nat :: b < dimensions ==> values[b] == Weight(tokens[..n], hash, dimensions, b)
    {
      var digest := hash(tokens[n]);
      var bucket := digest.head % dimensions;
      assert tokens[..n + 1][..n] == tokens[..n];
      values[bucket] := values[bucket] + Sign(digest);
    }
    assert tokens[..|tokens|] == tokens;
    assert values[..] == Weights(tokens, hash, dimensions);
    var magnitude := Magnitude(values[..], sqrt);
    embedding := Some(Scaled(values[..], magnitude));
  }

  lemma {:induction false} WeightOfConcat(a: seq<string>, b: seq<string>, hash: string -> Digest, dimensions: nat,
                                          bucket: nat)
    requires dimensions > 0
    ensures Weight(a + b, hash, dimensions, bucket) ==
      Weight(a, hash, dimensions, bucket) + Weight(b, hash, dimensions, bucket)
    decreases |b|
  {
    if b == [] {
      assert a + b == a;
    } else {
      WeightOfConcat(a, b[..|b| - 1], hash, dimensions, bucket);
      assert (a + b)[..|a + b| - 1] == a + b[..|b| - 1];
    }
  }

  lemma {:induction false} WeightIgnoresOrder(a: seq<string>, b: seq<string>, hash: string -> Digest, dimensions: nat,
                                              bucket: nat)
    requires dimensions > 0 && multiset(a) == multiset(b)
    ensures Weight(a, hash, dimensions, bucket) == Weight(b, hash, dimensions, bucket)
    decreases |a|
  {
    if a == [] {
      SameLength(a, b);
    } else {
      hide Weight;
      var last := a[|a| - 1];
      var front := a[..|a| - 1];
      assert a == front + [last];
      assert last in multiset(b);
      var i :| 0 <= i < |b| && b[i] == last;
      var before, after := b[..i], b[i + 1..];
      assert b == before + ([last] + after);
      SameRest(front, before, after, last);
      WeightIgnoresOrder(front, before + after, hash, dimensions, bucket);
      WeightOfConcat(before, after, hash, dimensions, bucket);
      WeightOfConcat([last], after, hash, dimensions, bucket);
      WeightOfConcat(before, [last] + after, hash, dimensions, bucket);
      WeightOfConcat(front, [last], hash, dimensions, bucket);
    }
  }

  lemma SameRest(front: seq<string>, before: seq<string>, after: seq<string>, last: string)
    requires multiset(front + [last]) == multiset(before + ([last] + after))
    ensures multiset(front) == multiset(before + after)
  {
    assert multiset(front) == multiset(front + [last]) - multiset{last};
    assert multiset(before + after) == multiset(before + ([last] + after)) - multiset{last};
  }

  lemma SameLength(a: seq<string>, b: seq<string>)
    requires multiset(a) == multiset(b)
    ensures |a| == |b|
  {
    assert |multiset(a)| == |a| && |multiset(b)| == |b|;
  }

  /** One token counts once, in the bucket that its digest names and with the sign that its digest gives. */
  lemma WeightOfOne(token: string, hash: string -> Digest, dimensions: nat, bucket: nat)
    requires dimensions > 0
    ensures Weight([token], hash, dimensions, bucket) ==
      if hash(token).head % dimensions != bucket then 0.0 else if hash(token).even then 1.0 else -1.0
  {
    assert [token][..0] == [];
  }

  lemma {:induction false} ZeroDot(v: seq<real>)
    requires forall j :: 0 <= j < |v| ==> v[j] == 0.0
    ensures Dot(v, v) == 0.0
  {
    if v != [] { ZeroDot(v[1..]); }
  }

  lemma {:induction false} DotOfSingle(v: seq<real>, b: nat)
    requires b < |v| && (v[b] == 1.0 || v[b] == -1.0) && forall j :: 0 <= j < |v| && j != b ==> v[j] == 0.0
    ensures Dot(v, v) == 1.0
    decreases b
  {
    if b == 0 {
      ZeroDot(v[1..]);
    } else {
      DotOfSingle(v[1..], b - 1);
    }
  }

  lemma RootOfOne(n: real)
    requires n >= 0.0 && n * n == 1.0
    ensures n == 1.0
  {
    RootOrder(n, 1.0);
    RootOrder(1.0, n);
  }

  /** The embedding of a single token: its sign in its bucket, and 0 elsewhere. */
  lemma EmbeddingOfOne(token: string, hash: string -> Digest, dimensions: nat, sqrt: real -> real, bucket: nat)
    requires IsSquareRoot(sqrt) && bucket < dimensions
    ensures Embedding([token], hash, dimensions, sqrt)[bucket] ==
      if hash(token).head % dimensions != bucket then 0.0 else if hash(token).even then 1.0 else -1.0
  {
    var values := Weights([token], hash, dimensions);
    forall b: nat | b < dimensions
      ensures values[b] == if hash(token).head % dimensions != b then 0.0 else if hash(token).even then 1.0 else -1.0
    {
      WeightOfOne(token, hash, dimensions, b);
    }
    var home := hash(token).head % dimensions;
    hide Weights, Weight, Dot;
    DotOfSingle(values, home);
    RootOfOne(Norm(values, sqrt));
    assert values[bucket] / 1.0 == values[bucket];
  }

  /** Reordering the tokens of a text does not change its buckets, hence not its embedding. */
  lemma EmbeddingIgnoresOrder(a: seq<string>, b: seq<string>, hash: string -> Digest, dimensions: nat,
                              sqrt: real -> real)
    requires dimensions > 0 && multiset(a) == multiset(b)
    ensures Embedding(a, hash, dimensions, sqrt) == Embedding(b, hash, dimensions, sqrt)
  {
    forall bucket: nat | bucket < dimensions
      ensures Weight(a, hash, dimensions, bucket) == Weight(b, hash, dimensions, bucket)
    {
      WeightIgnoresOrder(a, b, hash, dimensions, bucket);
    }
    assert Weights(a, hash, dimensions) == Weights(b, hash, dimensions);
  }

  lemma {:induction false} ScaledSquares(values: seq<real>, unit: real, square: real)
    requires unit != 0.0 && unit * unit == square
    ensures Dot(Scaled(values, unit), Scaled(values, unit)) * square == Dot(values, values)
  {
    if values != [] {
      ScaledSquares(values[1..], unit, square);
      var s := Scaled(values, unit);
      assert s[1..] == Scaled(values[1..], unit);
      ScaledStep(s[0], Dot(s[1..], s[1..]), unit, square);
      assert s[0] * unit == values[0];
    }
  }

  lemma ScaledStep(x: real, rest: real, unit: real, square: real)
    requires unit * unit == square
    ensures (x * x + rest) * square == (x * unit) * (x * unit) + rest * square
  {
  }

  /** An embedding has length 1, or is zero because the tokens cancelled out. */
  lemma EmbeddingIsUnit(tokens: seq<string>, hash: string -> Digest, dimensions: nat, sqrt: real -> real)
    requires IsSquareRoot(sqrt) && dimensions > 0
    ensures var e := Embedding(tokens, hash, dimensions, sqrt);
      var weights := Weights(tokens, hash, dimensions);
      Dot(e, e) == if Dot(weights, weights) == 0.0 then 0.0 else 1.0
  {
    var values := Weights(tokens, hash, dimensions);
    var m := Magnitude(values, sqrt);
    SquaresAreNotNegative(values);
    var e, n, square := Scaled(values, m), Norm(values, sqrt), Dot(values, values);
    assert n * n == square;
    if n == 0.0 {
      ScaledSquares(values, 1.0, 1.0);
    } else {
      QuotientOfSelf(n, square);
      ScaledSquares(values, n, square);
      Cancel(Dot(e, e), square);
    }
  }
}
