/** What the audit sanitiser leaves alone. */
module AuditLossless {
  import opened Basics
  import opened Strings
  import opened AuditSanitizer

  /** A JSON tree whose strings and containers are within the limits. */
  predicate Within(v: Value, maxString: nat, maxItems: nat) {
    match v
    case Null => true
    case Bool(_) => true
    case Number(_) => true
    case Float(_) => true
    case Str(s) => |s| <= maxString
    case List(items) => |items| <= maxItems && forall i | 0 <= i < |items| :: Within(items[i], maxString, maxItems)
    case Dict(entries) =>
      && |entries| <= maxItems
      && DistinctKeys(entries)
      && forall i | 0 <= i < |entries| :: Within(entries[i].value, maxString, maxItems)
    case _ => false
  }

  lemma {:induction false} SetKeyNew(entries: seq<Pair>, key: string, v: Value)
    requires forall i :: 0 <= i < |entries| ==> entries[i].key != key
    ensures SetKey(entries, key, v) == entries + [Pair(key, v)]
  {
    if entries != [] { SetKeyNew(entries[1..], key, v); }
  }

  lemma {:induction false} SetAllDistinct(entries: seq<Pair>, pairs: seq<Pair>)
    requires forall i, j :: 0 <= i < j < |entries + pairs| ==> (entries + pairs)[i].key != (entries + pairs)[j].key
    ensures SetAll(entries, pairs) == entries + pairs
    decreases |pairs|
  {
    if pairs != [] {
      var all := entries + pairs;
      assert forall i :: 0 <= i < |entries| ==> entries[i] == all[i];
      assert all[|entries|] == pairs[0];
      SetKeyNew(entries, pairs[0].key, pairs[0].value);
      assert entries + [pairs[0]] + pairs[1..] == all;
      SetAllDistinct(entries + [pairs[0]], pairs[1..]);
    }
  }

  // ---------------------------------------------------------------- texts

  lemma {:induction false} DecimalLength(n: nat)
    ensures |Decimal(n)| <= 1 + n / 10
    ensures n < 10 ==> |Decimal(n)| == 1
    ensures 10 <= n < 100 ==> |Decimal(n)| == 2
  {
    if n >= 10 { DecimalLength(n / 10); }
  }

  /** Only the note for 24 missing characters is as long as what it stands for. */
  lemma MissingLength(count: nat)
    ensures |Missing(count)| == count <==> count == 24
  {
    DecimalLength(count);
    assert |Missing(count)| == 22 + |Decimal(count)|;
  }

  /** A text that is short enough, or that is 24 characters too long and ends in the note saying so. */
  predicate TextStays(s: string, maxLength: nat) {
    |s| <= maxLength || (|s| == maxLength + 24 && s[maxLength..] == Missing(24))
  }

  lemma TruncateFixesIff(s: string, maxLength: nat)
    ensures Truncate(s, maxLength) == s <==> TextStays(s, maxLength)
  {
    if |s| > maxLength {
      var count := |s| - maxLength;
      MissingLength(count);
      assert s == s[..maxLength] + s[maxLength..];
      assert Truncate(s, maxLength)[maxLength..] == Missing(count);
    }
  }

  // ---------------------------------------------------------------- mappings

  lemma {:induction false} SetKeyLength(entries: seq<Pair>, key: string, v: Value)
    ensures |SetKey(entries, key, v)| == |entries| + if exists e <- entries :: e.key == key then 0 else 1
  {
    if entries != [] {
      assert entries == [entries[0]] + entries[1..];
      if entries[0].key != key { SetKeyLength(entries[1..], key, v); }
    }
  }

  lemma {:induction false} SetAllLength(entries: seq<Pair>, pairs: seq<Pair>)
    ensures |SetAll(entries, pairs)| <= |entries| + |pairs|
    decreases |pairs|
  {
    if pairs != [] {
      SetKeyLength(entries, pairs[0].key, pairs[0].value);
      SetAllLength(SetKey(entries, pairs[0].key, pairs[0].value), pairs[1..]);
    }
  }

  /** If no pair replaced another, they are there in order. */
  lemma {:induction false} SetAllFull(entries: seq<Pair>, pairs: seq<Pair>)
    requires |SetAll(entries, pairs)| == |entries| + |pairs|
    ensures SetAll(entries, pairs) == entries + pairs
    decreases |pairs|
  {
    if pairs != [] {
      var next := SetKey(entries, pairs[0].key, pairs[0].value);
      SetKeyLength(entries, pairs[0].key, pairs[0].value);
      SetAllLength(next, pairs[1..]);
      SetKeyNew(entries, pairs[0].key, pairs[0].value);
      SetAllFull(next, pairs[1..]);
      assert next + pairs[1..] == entries + pairs;
    }
  }

  // ---------------------------------------------------------------- the exact condition

  /** As far down as the depth allows: every text stays; every list is within the limit, or is one too
      long and ends in the note saying so; every mapping has distinct keys and is within the limit, or is
      one too long and ends in the count saying so.  What lies deeper is printed, so it stays only if it
      is a text that is printed as itself. */
  ghost predicate Stays(v: Value, l: Limits, depth: int)
    decreases depth
  {
    if depth <= 0 then v.Str? && Truncate(l.repr(v), l.maxString) == v.s
    else
      match v
      case Str(s) => TextStays(s, l.maxString)
      case List(items) =>
        && (|items| <= l.maxItems || (|items| == l.maxItems + 1 && items[l.maxItems] == Note(1)))
        && forall i :: 0 <= i < Min(|items|, l.maxItems) ==> Stays(items[i], l, depth - 1)
      case Dict(entries) =>
        && DistinctKeys(entries)
        && (|entries| <= l.maxItems ||
             (|entries| == l.maxItems + 1 && entries[l.maxItems] == Pair("_truncated_keys", Number(1))))
        && forall i :: 0 <= i < Min(|entries|, l.maxItems) ==> Stays(entries[i].value, l, depth - 1)
      case Bytes(_, _) => false
      case Dumps(_) => false
      case Other(_) => false
      case _ => true
  }

  /** The exact condition, for every value and every depth. */
  lemma {:induction false} UnchangedIff(v: Value, l: Limits, depth: int)
    ensures Sanitize(v, l, depth) == v <==> Stays(v, l, depth)
    decreases depth, 0
  {
    if depth > 0 {
      match v
      case Str(s) => TruncateFixesIff(s, l.maxString);
      case Dumps(dump) => SanitizedIsStorable(v, l, depth);
      case List(items) => ListUnchangedIff(items, l, depth);
      case Dict(entries) => DictUnchangedIff(entries, l, depth);
      case _ =>
    }
  }

  lemma ListUnchangedIff(items: seq<Value>, l: Limits, depth: int)
    requires depth > 0
    ensures Sanitize(List(items), l, depth) == List(items) <==> Stays(List(items), l, depth)
    decreases depth - 1, 1
  {
    var n := Min(|items|, l.maxItems);
    var kept := SanitizeItems(items[..n], l, depth - 1);
    assert Sanitize(List(items), l, depth) == List(Recut(|items|, kept, l.maxItems));
    forall i: nat | i < n
      ensures kept[i] == items[i] <==> Stays(items[i], l, depth - 1)
    {
      UnchangedIff(items[i], l, depth - 1);
    }
  }

  lemma PairsUnchangedIff(entries: seq<Pair>, l: Limits, depth: nat)
    ensures SanitizePairs(entries, l, depth) == entries <==>
      forall i :: 0 <= i < |entries| ==> Stays(entries[i].value, l, depth)
    decreases depth, 1
  {
    var pairs := SanitizePairs(entries, l, depth);
    forall i: nat | i < |entries|
      ensures pairs[i] == entries[i] <==> Stays(entries[i].value, l, depth)
    {
      UnchangedIff(entries[i].value, l, depth);
    }
  }

  lemma DictUnchangedIff(entries: seq<Pair>, l: Limits, depth: int)
    requires depth > 0
    ensures Sanitize(Dict(entries), l, depth) == Dict(entries) <==> Stays(Dict(entries), l, depth)
    decreases depth - 1, 2
  {
    var front := entries[..Min(|entries|, l.maxItems)];
    var pairs := SanitizePairs(front, l, depth - 1);
    assert Sanitize(Dict(entries), l, depth) == Dict(Rebuilt(|entries|, pairs, l.maxItems));
    PairsUnchangedIff(front, l, depth - 1);
    hide Sanitize, Rebuilt, DistinctKeys;
    RebuiltFixesIff(entries, pairs, l.maxItems);
  }

  lemma RebuiltFixesIff(entries: seq<Pair>, pairs: seq<Pair>, maxItems: nat)
    requires |pairs| == Min(|entries|, maxItems)
    ensures Rebuilt(|entries|, pairs, maxItems) == entries <==>
      pairs == entries[..|pairs|] && DistinctKeys(entries) &&
      (|entries| <= maxItems || (|entries| == maxItems + 1 && entries[maxItems] == Pair("_truncated_keys", Number(1))))
  {
    hide Rebuilt, SetAll, SetKey;
    if Rebuilt(|entries|, pairs, maxItems) == entries {
      Restored(entries, pairs, maxItems);
    } else if pairs == entries[..|pairs|] && DistinctKeys(entries) &&
      (|entries| <= maxItems || (|entries| == maxItems + 1 && entries[maxItems] == Pair("_truncated_keys", Number(1))))
    {
      Restores(entries, pairs, maxItems);
    }
  }

  lemma Restores(entries: seq<Pair>, pairs: seq<Pair>, maxItems: nat)
    requires pairs == entries[..Min(|entries|, maxItems)] && DistinctKeys(entries)
    requires |entries| <= maxItems ||
      (|entries| == maxItems + 1 && entries[maxItems] == Pair("_truncated_keys", Number(1)))
    ensures Rebuilt(|entries|, pairs, maxItems) == entries
  {
    assert [] + pairs == pairs;
    SetAllDistinct([], pairs);
    if |entries| > maxItems {
      SetKeyNew(pairs, "_truncated_keys", Number(1));
      assert entries == pairs + [entries[maxItems]];
    } else {
      assert pairs == entries;
    }
  }

  lemma Restored(entries: seq<Pair>, pairs: seq<Pair>, maxItems: nat)
    requires |pairs| == Min(|entries|, maxItems) && Rebuilt(|entries|, pairs, maxItems) == entries
    ensures pairs == entries[..|pairs|] && DistinctKeys(entries)
    ensures |entries| <= maxItems ||
      (|entries| == maxItems + 1 && entries[maxItems] == Pair("_truncated_keys", Number(1)))
  {
    var kept := SetAll([], pairs);
    SetAllLength([], pairs);
    SetAllNames(pairs);
    if |entries| > maxItems {
      SetKeyLength(kept, "_truncated_keys", Number(|entries| - maxItems));
      SetKeyNew(kept, "_truncated_keys", Number(|entries| - maxItems));
      SetKeyNames(kept, "_truncated_keys", Number(|entries| - maxItems));
    }
    SetAllFull([], pairs);
    assert [] + pairs == pairs;
  }

  // ---------------------------------------------------------------- consequences

  lemma {:induction false} WithinStays(v: Value, l: Limits, depth: int)
    requires Within(v, l.maxString, l.maxItems) && HeightBelow(v, depth)
    ensures Stays(v, l, depth)
    decreases depth
  {
    match v
    case List(items) =>
      forall i | 0 <= i < |items|
        ensures Stays(items[i], l, depth - 1)
      {
        WithinStays(items[i], l, depth - 1);
      }
    case Dict(entries) =>
      forall i | 0 <= i < |entries|
        ensures Stays(entries[i].value, l, depth - 1)
      {
        WithinStays(entries[i].value, l, depth - 1);
      }
    case _ =>
  }

  /** A tree that is small enough in every respect comes out as it went in. */
  lemma SmallIsUnchanged(v: Value, l: Limits, depth: int)
    requires Within(v, l.maxString, l.maxItems) && HeightBelow(v, depth)
    ensures Sanitize(v, l, depth) == v
  {
    WithinStays(v, l, depth);
    UnchangedIff(v, l, depth);
  }

  /** The limits are sufficient, not necessary: a list one item too long whose last item looks like
      the truncation marker also comes out unchanged, so the marker can be mistaken. */
  lemma MarkerCanBeForged(l: Limits, depth: int, items: seq<Value>)
    requires depth >= 2 && |items| == l.maxItems && forall i :: 0 <= i < |items| ==> items[i] == Null
    ensures var v := List(items + [Note(1)]);
      !Within(v, l.maxString, l.maxItems) && Sanitize(v, l, depth) == v
  {
    var mark := Note(1);
    var all := items + [mark];
    assert all[..|items|] == items;
    assert SanitizeItems(items, l, depth - 1) == items;
  }

  // ---------------------------------------------------------------- what is shown of a value that does not fit

  /** The text, or its beginning with a note from which its length can be told. */
  ghost predicate ShowsText(s: string, out: Value, maxLength: nat) {
    out.Str? &&
    if |s| <= maxLength then out.s == s
    else exists count: nat :: maxLength + count == |s| && out.s == s[..maxLength] + Missing(count)
  }

  function Lookup(entries: seq<Pair>, key: string): Option<Value> {
    if entries == [] then None
    else if entries[0].key == key then Some(entries[0].value)
    else Lookup(entries[1..], key)
  }

  /** The value of the last entry with a key; of several that coincide it is the one that stays. */
  function LastValue(entries: seq<Pair>, key: string): Option<Value> {
    if entries == [] then None
    else
      var last := entries[|entries| - 1];
      if last.key == key then Some(last.value) else LastValue(entries[..|entries| - 1], key)
  }

  /** What `out` tells about `v`: everything down to the depth limit, of a list or mapping that is too
      long the first items and how many more there were, of bytes their number. */
  ghost predicate Shows(v: Value, out: Value, l: Limits, depth: int)
    decreases depth, 0
  {
    if depth <= 0 then ShowsText(l.repr(v), out, l.maxString)
    else
      match v
      case Str(s) => ShowsText(s, out, l.maxString)
      case Bytes(n, text) =>
        && out.Dict? && Lookup(out.entries, "type") == Some(Str("bytes")) &&
             Lookup(out.entries, "length") == Some(Number(n))
        && Lookup(out.entries, "preview").Some? && ShowsText(text, Lookup(out.entries, "preview").value, l.maxString)
      case Dumps(dump) =>
        if dump.Some? then Shows(dump.value, out, l, depth - 1) else ShowsText(l.repr(v), out, l.maxString)
      case List(items) =>
        && out.List? && |out.items| == Min(|items|, l.maxItems + 1)
        && (forall k :: 0 <= k < Min(|items|, l.maxItems) ==> Shows(items[k], out.items[k], l, depth - 1))
        && (|items| > l.maxItems ==>
             exists count: nat :: l.maxItems + count == |items| &&
               out.items[l.maxItems] == Dict([Pair("_truncated_items", Number(count))]))
      case Dict(entries) =>
        && out.Dict?
        && (forall key: string :: |entries| <= l.maxItems || key != "_truncated_keys" ==>
             ShowsEntry(LastValue(entries[..Min(|entries|, l.maxItems)], key), Lookup(out.entries, key), l, depth - 1))
        && (|entries| > l.maxItems ==>
             exists count: nat :: l.maxItems + count == |entries| &&
               Lookup(out.entries, "_truncated_keys") == Some(Number(count)))
      case Other(_) => ShowsText(l.repr(v), out, l.maxString)
      case _ => out == v
  }

  ghost predicate ShowsEntry(x: Option<Value>, shown: Option<Value>, l: Limits, depth: int)
    decreases depth, 1
  {
    x.Some? == shown.Some? && (x.Some? ==> Shows(x.value, shown.value, l, depth))
  }

  lemma TruncateShows(s: string, maxLength: nat)
    ensures ShowsText(s, Str(Truncate(s, maxLength)), maxLength)
  {
    if |s| > maxLength { assert maxLength + (|s| - maxLength) == |s|; }
  }

  lemma {:induction false} LookupAfterSet(entries: seq<Pair>, key: string, v: Value, other: string)
    ensures Lookup(SetKey(entries, key, v), other) == if other == key then Some(v) else Lookup(entries, other)
  {
    if entries != [] && entries[0].key != key {
      LookupAfterSet(entries[1..], key, v, other);
      assert SetKey(entries, key, v)[1..] == SetKey(entries[1..], key, v);
    } else {
      assert SetKey(entries, key, v)[1..] == if entries == [] then [] else entries[1..];
    }
  }

  lemma {:induction false} LookupAfterAll(entries: seq<Pair>, pairs: seq<Pair>, key: string)
    ensures Lookup(SetAll(entries, pairs), key) ==
      if LastValue(pairs, key).Some? then LastValue(pairs, key) else Lookup(entries, key)
    decreases |pairs|
  {
    if pairs != [] {
      var first, rest := pairs[0], pairs[1..];
      LookupAfterAll(SetKey(entries, first.key, first.value), rest, key);
      LookupAfterSet(entries, first.key, first.value, key);
      LastOfMore(first, rest, key);
      assert [first] + rest == pairs;
    }
  }

  lemma {:induction false} LastOfMore(first: Pair, rest: seq<Pair>, key: string)
    ensures LastValue([first] + rest, key) ==
      if LastValue(rest, key).Some? then LastValue(rest, key) else if first.key == key then Some(first.value) else None
    decreases |rest|
  {
    if rest == [] {
      assert [first] + rest == [first] && [first][..0] == [];
    } else {
      var front := rest[..|rest| - 1];
      LastOfMore(first, front, key);
      assert ([first] + rest)[..|rest|] == [first] + front && ([first] + rest)[|rest|] == rest[|rest| - 1];
    }
  }

  lemma {:induction false} LastOfSanitized(entries: seq<Pair>, l: Limits, depth: nat, key: string)
    ensures var x := LastValue(entries, key);
      LastValue(SanitizePairs(entries, l, depth), key) == if x.Some? then Some(Sanitize(x.value, l, depth)) else None
    decreases |entries|
  {
    if entries != [] {
      var front := entries[..|entries| - 1];
      LastOfSanitized(front, l, depth, key);
      assert SanitizePairs(entries, l, depth)[..|entries| - 1] == SanitizePairs(front, l, depth);
    }
  }

  /** What comes out tells the truth about what went in, whatever had to be left out. */
  lemma {:induction false} SanitizedShows(v: Value, l: Limits, depth: int)
    ensures Shows(v, Sanitize(v, l, depth), l, depth)
    decreases depth, 1
  {
    TruncateShows(l.repr(v), l.maxString);
    if depth > 0 {
      match v
      case Str(s) => TruncateShows(s, l.maxString);
      case Bytes(n, text) =>
        TruncateShows(text, l.maxString);
        DescriptionShows(n, Truncate(text, l.maxString));
      case Dumps(dump) => if dump.Some? { SanitizedShows(dump.value, l, depth - 1); }
      case List(items) => SanitizedListShows(items, l, depth);
      case Dict(entries) => SanitizedDictShows(entries, l, depth);
      case _ =>
    }
  }

  lemma DescriptionShows(n: nat, preview: string)
    ensures var d := Description(n, preview);
      Lookup(d, "type") == Some(Str("bytes")) && Lookup(d, "length") == Some(Number(n)) &&
        Lookup(d, "preview") == Some(Str(preview))
  {
    var kind, length, text := Pair("type", Str("bytes")), Pair("length", Number(n)), Pair("preview", Str(preview));
    assert "type"[0] == 't' && "length"[0] == 'l' && "preview"[0] == 'p';
    var d := [kind, length, text];
    assert d[1..] == [length, text] && [length, text][1..] == [text];
    assert Lookup([text], "preview") == Some(Str(preview));
    assert Lookup([length, text], "preview") == Some(Str(preview)) &&
      Lookup([length, text], "length") == Some(Number(n));
  }

  lemma SanitizedListShows(items: seq<Value>, l: Limits, depth: int)
    requires depth > 0
    ensures Shows(List(items), Sanitize(List(items), l, depth), l, depth)
    decreases depth, 0
  {
    var n := Min(|items|, l.maxItems);
    var kept := SanitizeItems(items[..n], l, depth - 1);
    var out := Recut(|items|, kept, l.maxItems);
    forall k | 0 <= k < n
      ensures Shows(items[k], out[k], l, depth - 1)
    {
      SanitizedShows(items[k], l, depth - 1);
    }
    if |items| > l.maxItems {
      var count := |items| - l.maxItems;
      assert out[l.maxItems] == Note(count) && l.maxItems + count == |items|;
    }
  }

  lemma EntryShows(kept: seq<Pair>, l: Limits, depth: nat, length: nat, key: string)
    requires length <= l.maxItems || key != "_truncated_keys"
    requires var x := LastValue(kept, key); x.Some? ==> Shows(x.value, Sanitize(x.value, l, depth), l, depth)
    ensures ShowsEntry(LastValue(kept, key), Lookup(Rebuilt(length, SanitizePairs(kept, l, depth), l.maxItems), key),
      l, depth)
  {
    hide Shows, Sanitize, LastValue, SetKey, SetAll, Lookup;
    var pairs := SanitizePairs(kept, l, depth);
    LookupAfterAll([], pairs, key);
    LookupInNothing(key);
    LastOfSanitized(kept, l, depth, key);
    if length > l.maxItems {
      LookupAfterSet(SetAll([], pairs), "_truncated_keys", Number(length - l.maxItems), key);
    }
  }

  lemma LookupInNothing(key: string)
    ensures Lookup([], key) == None
  {
  }

  lemma SanitizedDictShows(entries: seq<Pair>, l: Limits, depth: int)
    requires depth > 0
    ensures Shows(Dict(entries), Sanitize(Dict(entries), l, depth), l, depth)
    decreases depth, 0
  {
    var n := Min(|entries|, l.maxItems);
    var kept := entries[..n];
    var pairs := SanitizePairs(kept, l, depth - 1);
    var out := Rebuilt(|entries|, pairs, l.maxItems);
    forall key: string | |entries| <= l.maxItems || key != "_truncated_keys"
      ensures ShowsEntry(LastValue(kept, key), Lookup(out, key), l, depth - 1)
    {
      var x := LastValue(kept, key);
      if x.Some? { SanitizedShows(x.value, l, depth - 1); }
      EntryShows(kept, l, depth - 1, |entries|, key);
    }
    if |entries| > l.maxItems {
      var count := |entries| - l.maxItems;
      LookupAfterSet(SetAll([], pairs), "_truncated_keys", Number(count), "_truncated_keys");
      assert l.maxItems + count == |entries|;
    }
  }
}
