/** The bounded sanitiser of audit payloads. */
module AuditSanitizer {
  import opened Basics
  import opened Strings

  /** Run-time values as the sanitiser tells them apart.  `Dumps` is an object with `model_dump` or
      `to_dict`, which may raise; `Other` is everything that is only ever printed.  Mapping keys are
      given as the strings they are turned into, so two of them may coincide. */
  datatype Value =
    | Null | Bool(b: bool) | Number(n: int) | Float(x: FloatingPoint) | Str(s: string)
    | Bytes(length: nat, decoded: string)
    | Dumps(dump: Option<Value>)
    | Dict(entries: seq<Pair>)
    | List(items: seq<Value>)
    | Other(id: nat)

  datatype FloatingPoint = Finite(x: real) | Infinity(negative: bool) | NaN

  datatype Pair = Pair(key: string, value: Value)

  datatype Limits = Limits(maxString: nat, maxItems: nat, repr: Value -> string)

  /** The note that takes the place of what was cut off. */
  function Missing(count: nat): string {
    "\n...[truncated " + Decimal(count) + " chars]"
  }

  function Truncate(s: string, maxLength: nat): (r: string)
    ensures |s| <= maxLength ==> r == s
    ensures |s| > maxLength ==> s[..maxLength] <= r && |r| > maxLength
  {
    if |s| <= maxLength then s else s[..maxLength] + Missing(|s| - maxLength)
  }

  // ---------------------------------------------------------------- mappings

  /** Assignment to a key: it keeps its place if it is there, and comes last if not. */
  function SetKey(entries: seq<Pair>, key: string, v: Value): seq<Pair> {
    if entries == [] then [Pair(key, v)]
    else if entries[0].key == key then [Pair(key, v)] + entries[1..]
    else [entries[0]] + SetKey(entries[1..], key, v)
  }

  /** A dictionary built from pairs in order. */
  function SetAll(entries: seq<Pair>, pairs: seq<Pair>): seq<Pair>
    decreases |pairs|
  {
    if pairs == [] then entries else SetAll(SetKey(entries, pairs[0].key, pairs[0].value), pairs[1..])
  }

  // ---------------------------------------------------------------- the sanitiser

  /** What stands for bytes. */
  function Description(length: nat, preview: string): seq<Pair> {
    [Pair("type", Str("bytes")), Pair("length", Number(length)), Pair("preview", Str(preview))]
  }

  /** What ends a list that was cut. */
  function Note(count: nat): Value {
    Dict([Pair("_truncated_items", Number(count))])
  }

  /** The list that stands for one of `length` items of which `kept` were looked at. */
  function Recut(length: nat, kept: seq<Value>, maxItems: nat): seq<Value> {
    if length > maxItems then kept + [Note(length - maxItems)] else kept
  }

  /** The mapping that stands for one of `length` entries of which `pairs` were looked at. */
  function Rebuilt(length: nat, pairs: seq<Pair>, maxItems: nat): seq<Pair> {
    if length > maxItems then SetKey(SetAll([], pairs), "_truncated_keys", Number(length - maxItems))
    else SetAll([], pairs)
  }

  function Sanitize(v: Value, l: Limits, depth: int): Value
    decreases depth, 0
  {
    if depth <= 0 then Str(Truncate(l.repr(v), l.maxString))
    else
      match v
      case Null => v
      case Bool(_) => v
      case Number(_) => v
      case Float(_) => v
      case Str(s) => Str(Truncate(s, l.maxString))
      case Bytes(n, text) => Dict(Description(n, Truncate(text, l.maxString)))
      case Dumps(Some(dumped)) => Sanitize(dumped, l, depth - 1)
      case Dumps(None) => Str(Truncate(l.repr(v), l.maxString))
      case Dict(entries) =>
        Dict(Rebuilt(|entries|, SanitizePairs(entries[..Min(|entries|, l.maxItems)], l, depth - 1), l.maxItems))
      case List(items) =>
        List(Recut(|items|, SanitizeItems(items[..Min(|items|, l.maxItems)], l, depth - 1), l.maxItems))
      case Other(_) => Str(Truncate(l.repr(v), l.maxString))
  }

  function SanitizeItems(items: seq<Value>, l: Limits, depth: int): seq<Value>
    requires depth >= 0
    decreases depth, 1
  {
    seq(|items|, i requires 0 <= i < |items| => Sanitize(items[i], l, depth))
  }

  function SanitizePairs(entries: seq<Pair>, l: Limits, depth: int): seq<Pair>
    requires depth >= 0
    decreases depth, 1
  {
    seq(|entries|, i requires 0 <= i < |entries| => Pair(entries[i].key, Sanitize(entries[i].value, l, depth)))
  }

  // ---------------------------------------------------------------- bounded

  /** The number of nodes of a value. */
  function Size(v: Value): nat {
    1 + match v
    case Dict(entries) => SizeOfPairs(entries)
    case List(items) => SizeOfItems(items)
    case Dumps(dump) => if dump.Some? then Size(dump.value) else 0
    case _ => 0
  }

  function SizeOfItems(items: seq<Value>): nat {
    if items == [] then 0 else Size(items[0]) + SizeOfItems(items[1..])
  }

  function SizeOfPairs(entries: seq<Pair>): nat {
    if entries == [] then 0 else Size(entries[0].value) + SizeOfPairs(entries[1..])
  }

  function NodeBound(maxItems: nat, depth: int): nat
    decreases depth
  {
    if depth <= 0 then 1 else 4 + maxItems * NodeBound(maxItems, depth - 1)
  }

  lemma PairsOfCons(e: Pair, entries: seq<Pair>)
    ensures SizeOfPairs([e] + entries) == Size(e.value) + SizeOfPairs(entries)
  {
  }

  lemma OneMore(n: nat, bound: nat)
    ensures (n + 1) * bound == n * bound + bound
  {
  }

  lemma {:induction false} ItemsWithin(items: seq<Value>, bound: nat)
    requires forall i :: 0 <= i < |items| ==> Size(items[i]) <= bound
    ensures SizeOfItems(items) <= |items| * bound
  {
    hide Size;
    if items != [] {
      ItemsWithin(items[1..], bound);
      OneMore(|items[1..]|, bound);
    }
  }

  lemma {:induction false} ItemsConcat(a: seq<Value>, b: seq<Value>)
    ensures SizeOfItems(a + b) == SizeOfItems(a) + SizeOfItems(b)
    decreases |a|
  {
    if a == [] {
      assert a + b == b;
    } else {
      ItemsConcat(a[1..], b);
      assert (a + b)[1..] == a[1..] + b;
    }
  }

  lemma {:induction false} PairsWithin(entries: seq<Pair>, bound: nat)
    requires forall i :: 0 <= i < |entries| ==> Size(entries[i].value) <= bound
    ensures SizeOfPairs(entries) <= |entries| * bound
  {
    hide Size;
    if entries != [] {
      PairsWithin(entries[1..], bound);
      OneMore(|entries[1..]|, bound);
    }
  }

  lemma {:induction false} SetKeySize(entries: seq<Pair>, key: string, v: Value)
    ensures SizeOfPairs(SetKey(entries, key, v)) <= SizeOfPairs(entries) + Size(v)
  {
    if entries != [] && entries[0].key != key {
      SetKeySize(entries[1..], key, v);
      PairsOfCons(entries[0], SetKey(entries[1..], key, v));
    } else if entries != [] {
      PairsOfCons(Pair(key, v), entries[1..]);
    } else {
      PairsOfCons(Pair(key, v), []);
      assert [Pair(key, v)] + [] == [Pair(key, v)];
    }
  }

  lemma {:induction false} SetAllSize(entries: seq<Pair>, pairs: seq<Pair>)
    ensures SizeOfPairs(SetAll(entries, pairs)) <= SizeOfPairs(entries) + SizeOfPairs(pairs)
    decreases |pairs|
  {
    if pairs != [] {
      SetKeySize(entries, pairs[0].key, pairs[0].value);
      SetAllSize(SetKey(entries, pairs[0].key, pairs[0].value), pairs[1..]);
    }
  }

  lemma ProductGrows(a: nat, b: nat, c: nat)
    requires a <= b
    ensures a * c <= b * c
  {
  }

  /** Whatever goes in, what comes out has no more nodes than the depth and width limits allow. */
  lemma {:induction false} SanitizedIsBounded(v: Value, l: Limits, depth: int)
    ensures Size(Sanitize(v, l, depth)) <= NodeBound(l.maxItems, depth)
    decreases depth
  {
    if depth > 0 {
      var bound := NodeBound(l.maxItems, depth - 1);
      match v
      case Dumps(dump) =>
        if dump.Some? {
          SanitizedIsBounded(dump.value, l, depth - 1);
          BoundGrows(l.maxItems, depth);
        }
      case Dict(entries) => SanitizedDictIsBounded(entries, l, depth);
      case List(items) => SanitizedListIsBounded(items, l, depth);
      case Bytes(n, text) => BytesSize(n, Truncate(text, l.maxString));
      case _ =>
    }
  }

  lemma BytesSize(n: nat, text: string)
    ensures Size(Dict(Description(n, text))) == 4
  {
    var kind, length, preview := Pair("type", Str("bytes")), Pair("length", Number(n)), Pair("preview", Str(text));
    assert Description(n, text) == [kind] + ([length] + ([preview] + []));
    PairsOfCons(kind, [length] + ([preview] + []));
    PairsOfCons(length, [preview] + []);
    PairsOfCons(preview, []);
  }

  lemma {:induction false} BoundGrows(maxItems: nat, depth: int)
    requires depth > 0
    ensures NodeBound(maxItems, depth - 1) <= NodeBound(maxItems, depth)
    decreases depth
  {
  }

  lemma SanitizedListIsBounded(items: seq<Value>, l: Limits, depth: int)
    requires depth > 0
    ensures Size(Sanitize(List(items), l, depth)) <= NodeBound(l.maxItems, depth)
    decreases depth, 0
  {
    var n, bound := Min(|items|, l.maxItems), NodeBound(l.maxItems, depth - 1);
    var kept := SanitizeItems(items[..n], l, depth - 1);
    forall i | 0 <= i < n
      ensures Size(kept[i]) <= bound
    {
      SanitizedIsBounded(items[i], l, depth - 1);
    }
    ItemsWithin(kept, bound);
    ProductGrows(n, l.maxItems, bound);
    if |items| > l.maxItems {
      var mark := Note(|items| - l.maxItems);
      ItemsConcat(kept, [mark]);
      PairsOfCons(mark.entries[0], []);
      assert mark.entries == [mark.entries[0]] + [] && [mark] == [mark] + [];
    }
  }

  lemma SanitizedDictIsBounded(entries: seq<Pair>, l: Limits, depth: int)
    requires depth > 0
    ensures Size(Sanitize(Dict(entries), l, depth)) <= NodeBound(l.maxItems, depth)
    decreases depth, 0
  {
    var n, bound := Min(|entries|, l.maxItems), NodeBound(l.maxItems, depth - 1);
    var pairs := SanitizePairs(entries[..n], l, depth - 1);
    forall i | 0 <= i < n
      ensures Size(pairs[i].value) <= bound
    {
      SanitizedIsBounded(entries[i].value, l, depth - 1);
    }
    PairsWithin(pairs, bound);
    ProductGrows(n, l.maxItems, bound);
    SetAllSize([], pairs);
    SetKeySize(SetAll([], pairs), "_truncated_keys", Number(|entries| - l.maxItems));
  }

  // ---------------------------------------------------------------- JSON-friendly

  /** Every way down has fewer than `depth` containers on it. */
  ghost predicate HeightBelow(v: Value, depth: int)
    decreases depth
  {
    depth > 0 &&
    match v
    case List(items) => forall i :: 0 <= i < |items| ==> HeightBelow(items[i], depth - 1)
    case Dict(entries) => forall i :: 0 <= i < |entries| ==> HeightBelow(entries[i].value, depth - 1)
    case _ => true
  }

  predicate DistinctKeys(entries: seq<Pair>) {
    forall i, j | 0 <= i < j < |entries| :: entries[i].key != entries[j].key
  }

  /** A text that was short enough, or ends in a note of how much is missing. */
  ghost predicate Clipped(s: string, maxLength: nat) {
    |s| <= maxLength || exists count: nat :: count > 0 && s[maxLength..] == Missing(count)
  }

  /** What may be stored: plain values only, every container at most one wider than the limit (or the
      three entries that describe bytes), no key twice, every text clipped (except the type name of
      bytes, which is not a caller's text). */
  ghost predicate Storable(v: Value, maxString: nat, maxItems: nat) {
    match v
    case Str(s) => s == "bytes" || Clipped(s, maxString)
    case List(items) =>
      && |items| <= maxItems + 1
      && forall i | 0 <= i < |items| :: Storable(items[i], maxString, maxItems)
    case Dict(entries) =>
      && (|entries| <= maxItems + 1 || |entries| == 3)
      && DistinctKeys(entries)
      && forall i | 0 <= i < |entries| :: Storable(entries[i].value, maxString, maxItems)
    case Bytes(_, _) => false
    case Dumps(_) => false
    case Other(_) => false
    case _ => true
  }

  ghost predicate Bounded(v: Value, l: Limits, height: int) {
    Storable(v, l.maxString, l.maxItems) && HeightBelow(v, height)
  }

  lemma TruncateClips(s: string, maxLength: nat)
    ensures Clipped(Truncate(s, maxLength), maxLength)
  {
  }

  ghost predicate AllBounded(entries: seq<Pair>, l: Limits, height: int) {
    forall e <- entries :: Bounded(e.value, l, height)
  }

  lemma {:induction false} SetKeyNames(entries: seq<Pair>, key: string, v: Value)
    requires DistinctKeys(entries)
    ensures var r := SetKey(entries, key, v);
      && DistinctKeys(r)
      && |r| <= |entries| + 1
      && forall e <- r :: e.key == key || exists d <- entries :: d.key == e.key
  {
    if entries != [] && entries[0].key != key {
      SetKeyNames(entries[1..], key, v);
      assert SetKey(entries, key, v) == [entries[0]] + SetKey(entries[1..], key, v);
    }
  }

  lemma {:induction false} SetKeyKeeps(entries: seq<Pair>, key: string, v: Value, l: Limits, height: int)
    requires AllBounded(entries, l, height) && Bounded(v, l, height)
    ensures AllBounded(SetKey(entries, key, v), l, height)
  {
    hide Bounded;
    if entries != [] && entries[0].key != key {
      SetKeyKeeps(entries[1..], key, v, l, height);
    }
  }

  lemma {:induction false} SetAllKeeps(entries: seq<Pair>, pairs: seq<Pair>, l: Limits, height: int)
    requires DistinctKeys(entries) && AllBounded(entries, l, height) && AllBounded(pairs, l, height)
    ensures var r := SetAll(entries, pairs);
      DistinctKeys(r) && |r| <= |entries| + |pairs| && AllBounded(r, l, height)
    decreases |pairs|
  {
    hide Bounded;
    if pairs != [] {
      SetKeyNames(entries, pairs[0].key, pairs[0].value);
      SetKeyKeeps(entries, pairs[0].key, pairs[0].value, l, height);
      SetAllKeeps(SetKey(entries, pairs[0].key, pairs[0].value), pairs[1..], l, height);
    }
  }

  /** Whatever goes in, what comes out are plain values within the limits, at most two levels (the
      truncation note and its number) deeper than allowed. */
  lemma {:induction false} SanitizedIsStorable(v: Value, l: Limits, depth: nat)
    ensures Bounded(Sanitize(v, l, depth), l, depth + 2)
    decreases depth, 0
  {
    TruncateClips(l.repr(v), l.maxString);
    if depth > 0 {
      match v
      case Str(s) => TruncateClips(s, l.maxString);
      case Bytes(n, text) =>
        TruncateClips(text, l.maxString);
        BoundedDict(Description(n, Truncate(text, l.maxString)), l, depth + 1);
      case Dumps(dump) =>
        if dump.Some? {
          SanitizedIsStorable(dump.value, l, depth - 1);
          HeightGrows(Sanitize(dump.value, l, depth - 1), depth + 1);
        }
      case Dict(entries) => SanitizedDictIsStorable(entries, l, depth);
      case List(items) => SanitizedListIsStorable(items, l, depth);
      case _ =>
    }
  }

  lemma {:induction false} HeightGrows(v: Value, depth: int)
    requires HeightBelow(v, depth)
    ensures HeightBelow(v, depth + 1)
    decreases depth
  {
    match v
    case List(items) =>
      forall i | 0 <= i < |items|
        ensures HeightBelow(items[i], depth)
      {
        HeightGrows(items[i], depth - 1);
      }
    case Dict(entries) =>
      forall i | 0 <= i < |entries|
        ensures HeightBelow(entries[i].value, depth)
      {
        HeightGrows(entries[i].value, depth - 1);
      }
    case _ =>
  }

  lemma SanitizedListIsStorable(items: seq<Value>, l: Limits, depth: nat)
    requires depth > 0
    ensures Bounded(Sanitize(List(items), l, depth), l, depth + 2)
    decreases depth - 1, 1
  {
    var n := Min(|items|, l.maxItems);
    var kept := SanitizeItems(items[..n], l, depth - 1);
    forall i | 0 <= i < n
      ensures Bounded(kept[i], l, depth + 1)
    {
      SanitizedIsStorable(items[i], l, depth - 1);
    }
    if |items| > l.maxItems {
      var mark := Note(|items| - l.maxItems);
      assert Bounded(mark, l, depth + 1);
      assert forall i :: 0 <= i < |kept + [mark]| ==> Bounded((kept + [mark])[i], l, depth + 1);
    }
  }

  lemma SanitizedDictIsStorable(entries: seq<Pair>, l: Limits, depth: nat)
    requires depth > 0
    ensures Bounded(Sanitize(Dict(entries), l, depth), l, depth + 2)
    decreases depth - 1, 1
  {
    var n := Min(|entries|, l.maxItems);
    var pairs := SanitizePairs(entries[..n], l, depth - 1);
    assert AllBounded(pairs, l, depth + 1) by {
      hide Bounded;
      forall i | 0 <= i < n
        ensures Bounded(pairs[i].value, l, depth + 1)
      {
        SanitizedIsStorable(entries[i].value, l, depth - 1);
      }
    }
    RebuiltIsBounded(|entries|, pairs, l, depth + 1);
  }

  lemma RebuiltIsBounded(length: nat, pairs: seq<Pair>, l: Limits, height: nat)
    requires |pairs| == Min(length, l.maxItems) && height > 0 && AllBounded(pairs, l, height)
    ensures Bounded(Dict(Rebuilt(length, pairs, l.maxItems)), l, height + 1)
  {
    hide Bounded;
    SetAllKeeps([], pairs, l, height);
    var kept := SetAll([], pairs);
    if length > l.maxItems {
      var note := Number(length - l.maxItems);
      NumberIsBounded(length - l.maxItems, l, height);
      SetKeyNames(kept, "_truncated_keys", note);
      SetKeyKeeps(kept, "_truncated_keys", note, l, height);
    }
    BoundedDict(Rebuilt(length, pairs, l.maxItems), l, height);
  }

  lemma NumberIsBounded(n: int, l: Limits, height: nat)
    requires height > 0
    ensures Bounded(Number(n), l, height)
  {
  }

  lemma BoundedDict(entries: seq<Pair>, l: Limits, height: int)
    requires height >= 0 && DistinctKeys(entries) && AllBounded(entries, l, height)
    requires |entries| <= l.maxItems + 1 || |entries| == 3
    ensures Bounded(Dict(entries), l, height + 1)
  {
  }

  // ---------------------------------------------------------------- when it is JSON

  /** JSON has no way to write an infinite number or one that is not a number. */
  ghost predicate IsFinite(v: Value) {
    match v
    case Float(x) => x.Finite?
    case List(items) => forall i :: 0 <= i < |items| ==> IsFinite(items[i])
    case Dict(entries) => forall i :: 0 <= i < |entries| ==> IsFinite(entries[i].value)
    case _ => true
  }

  ghost predicate IsJson(v: Value, l: Limits) {
    Storable(v, l.maxString, l.maxItems) && IsFinite(v)
  }

  /** Pair `i` is among those that are looked at, and no later one replaces it. */
  predicate Survives(entries: seq<Pair>, maxItems: nat, i: nat)
    requires i < |entries|
  {
    && i < maxItems
    && (forall j | i < j < Min(|entries|, maxItems) :: entries[j].key != entries[i].key)
    && (|entries| > maxItems ==> entries[i].key != "_truncated_keys")
  }

  /** The sanitiser reaches a number that is not finite, and keeps it. */
  ghost predicate KeepsNonFinite(v: Value, l: Limits, depth: int)
    decreases depth
  {
    depth > 0 &&
    match v
    case Float(x) => !x.Finite?
    case Dumps(Some(dumped)) => KeepsNonFinite(dumped, l, depth - 1)
    case List(items) => exists i :: 0 <= i < Min(|items|, l.maxItems) && KeepsNonFinite(items[i], l, depth - 1)
    case Dict(entries) =>
      exists i :: 0 <= i < |entries| && Survives(entries, l.maxItems, i) &&
        KeepsNonFinite(entries[i].value, l, depth - 1)
    case _ => false
  }

  /** Pair `i` is the last one under its key. */
  ghost predicate LastUnderKey(pairs: seq<Pair>, i: nat)
    requires i < |pairs|
  {
    forall j :: i < j < |pairs| ==> pairs[j].key != pairs[i].key
  }

  lemma {:induction false} SetKeyMembers(entries: seq<Pair>, key: string, v: Value, e: Pair)
    requires DistinctKeys(entries)
    ensures e in SetKey(entries, key, v) <==> e == Pair(key, v) || (e in entries && e.key != key)
  {
    if entries != [] {
      assert entries == [entries[0]] + entries[1..];
      if entries[0].key != key { SetKeyMembers(entries[1..], key, v, e); }
    }
  }

  /** Of several entries under one key the last is kept. */
  lemma {:induction false} SetAllMembers(entries: seq<Pair>, pairs: seq<Pair>, e: Pair)
    requires DistinctKeys(entries)
    ensures e in SetAll(entries, pairs) <==>
      (exists i: nat :: i < |pairs| && pairs[i] == e && LastUnderKey(pairs, i)) ||
      (e in entries && forall i :: 0 <= i < |pairs| ==> pairs[i].key != e.key)
    decreases |pairs|
  {
    if pairs != [] {
      var first, rest := pairs[0], pairs[1..];
      SetKeyNames(entries, first.key, first.value);
      SetKeyMembers(entries, first.key, first.value, e);
      SetAllMembers(SetKey(entries, first.key, first.value), rest, e);
    }
  }

  /** What is kept of a sanitised mapping. */
  lemma KeptEntries(entries: seq<Pair>, l: Limits, depth: nat, e: Pair)
    requires depth > 0
    ensures e in Sanitize(Dict(entries), l, depth).entries <==>
      (|entries| > l.maxItems && e == Pair("_truncated_keys", Number(|entries| - l.maxItems))) ||
      exists i: nat :: i < |entries| && Survives(entries, l.maxItems, i) && e == SanitizeEntry(entries[i], l, depth - 1)
  {
    var n := Min(|entries|, l.maxItems);
    var pairs := SanitizePairs(entries[..n], l, depth - 1);
    assert forall i: nat :: i < n ==> pairs[i] == SanitizeEntry(entries[i], l, depth - 1);
    assert Sanitize(Dict(entries), l, depth).entries == Rebuilt(|entries|, pairs, l.maxItems);
    hide Sanitize, SanitizePairs, SanitizeEntry, SetAll;
    RebuiltMembers(|entries|, pairs, l.maxItems, e);
    forall i: nat | i < n
      ensures Lasts(|entries|, pairs, l.maxItems, i) <==> Survives(entries, l.maxItems, i)
    {
      assert forall j: nat :: j < n ==> pairs[j].key == entries[j].key;
    }
  }

  /** Pair `i` of those looked at is not replaced. */
  ghost predicate Lasts(length: nat, pairs: seq<Pair>, maxItems: nat, i: nat)
    requires i < |pairs|
  {
    LastUnderKey(pairs, i) && (length > maxItems ==> pairs[i].key != "_truncated_keys")
  }

  lemma RebuiltMembers(length: nat, pairs: seq<Pair>, maxItems: nat, e: Pair)
    ensures e in Rebuilt(length, pairs, maxItems) <==>
      (length > maxItems && e == Pair("_truncated_keys", Number(length - maxItems))) ||
      exists i: nat :: i < |pairs| && Lasts(length, pairs, maxItems, i) && e == pairs[i]
  {
    SetAllMembers([], pairs, e);
    SetAllNames(pairs);
    if length > maxItems {
      SetKeyMembers(SetAll([], pairs), "_truncated_keys", Number(length - maxItems), e);
    }
    if i: nat :| i < |pairs| && pairs[i] == e && LastUnderKey(pairs, i) {
      assert Lasts(length, pairs, maxItems, i) <==> (length > maxItems ==> e.key != "_truncated_keys");
    }
  }

  function SanitizeEntry(e: Pair, l: Limits, depth: nat): (r: Pair)
    ensures r.key == e.key && r.value == Sanitize(e.value, l, depth)
  {
    Pair(e.key, Sanitize(e.value, l, depth))
  }

  lemma {:induction false} SetAllNamesOf(entries: seq<Pair>, pairs: seq<Pair>)
    requires DistinctKeys(entries)
    ensures DistinctKeys(SetAll(entries, pairs))
    decreases |pairs|
  {
    if pairs != [] {
      SetKeyNames(entries, pairs[0].key, pairs[0].value);
      SetAllNamesOf(SetKey(entries, pairs[0].key, pairs[0].value), pairs[1..]);
    }
  }

  lemma SetAllNames(pairs: seq<Pair>)
    ensures DistinctKeys(SetAll([], pairs))
  {
    SetAllNamesOf([], pairs);
  }

  lemma {:induction false} FiniteIff(v: Value, l: Limits, depth: nat)
    ensures IsFinite(Sanitize(v, l, depth)) <==> !KeepsNonFinite(v, l, depth)
    decreases depth, 0
  {
    if depth > 0 {
      match v
      case Dumps(Some(dumped)) => FiniteIff(dumped, l, depth - 1);
      case List(items) => FiniteListIff(items, l, depth);
      case Dict(entries) => FiniteDictIff(entries, l, depth);
      case _ =>
    }
  }

  lemma FiniteListIff(items: seq<Value>, l: Limits, depth: nat)
    requires depth > 0
    ensures IsFinite(Sanitize(List(items), l, depth)) <==> !KeepsNonFinite(List(items), l, depth)
    decreases depth - 1, 1
  {
    var n := Min(|items|, l.maxItems);
    var kept := SanitizeItems(items[..n], l, depth - 1);
    assert Sanitize(List(items), l, depth) == List(Recut(|items|, kept, l.maxItems));
    forall i: nat | i < n
      ensures IsFinite(kept[i]) <==> !KeepsNonFinite(items[i], l, depth - 1)
    {
      FiniteIff(items[i], l, depth - 1);
    }
    FiniteRecut(|items|, kept, l.maxItems);
  }

  lemma FiniteRecut(length: nat, kept: seq<Value>, maxItems: nat)
    ensures IsFinite(List(Recut(length, kept, maxItems))) <==> forall i :: 0 <= i < |kept| ==> IsFinite(kept[i])
  {
    var out := Recut(length, kept, maxItems);
    assert forall i :: 0 <= i < |kept| ==> out[i] == kept[i];
    if length > maxItems {
      assert out[|kept|] == Note(length - maxItems) && IsFinite(Note(length - maxItems));
    }
  }

  lemma FiniteDictIff(entries: seq<Pair>, l: Limits, depth: nat)
    requires depth > 0
    ensures IsFinite(Sanitize(Dict(entries), l, depth)) <==> !KeepsNonFinite(Dict(entries), l, depth)
    decreases depth - 1, 1
  {
    var out := Sanitize(Dict(entries), l, depth).entries;
    forall i: nat | i < |entries|
      ensures IsFinite(SanitizeEntry(entries[i], l, depth - 1).value) <==>
        !KeepsNonFinite(entries[i].value, l, depth - 1)
      ensures Survives(entries, l.maxItems, i) ==> SanitizeEntry(entries[i], l, depth - 1) in out
    {
      FiniteIff(entries[i].value, l, depth - 1);
      KeptEntries(entries, l, depth, SanitizeEntry(entries[i], l, depth - 1));
    }
    forall e | e in out && !KeepsNonFinite(Dict(entries), l, depth)
      ensures IsFinite(e.value)
    {
      KeptEntries(entries, l, depth, e);
    }
  }

  /** What comes out is JSON, for any input, if and only if no number that is kept is infinite or not a
      number; such numbers are passed through. */
  lemma SanitizedIsJsonIff(v: Value, l: Limits, depth: nat)
    ensures IsJson(Sanitize(v, l, depth), l) <==> !KeepsNonFinite(v, l, depth)
  {
    SanitizedIsStorable(v, l, depth);
    FiniteIff(v, l, depth);
  }

  /** The smallest value that is passed through and is not JSON. */
  lemma NaNIsPassedThrough(l: Limits, depth: nat)
    requires depth > 0
    ensures !IsJson(Sanitize(Float(NaN), l, depth), l)
  {
  }
}
