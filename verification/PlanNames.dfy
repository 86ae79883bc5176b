/** How the planner names its subtasks and resolves their dependencies. */
module PlanNames {
  import opened SubTasks
  import opened DependencyGraph
  import opened Protocol
  import opened Strings
  import opened Basics

  // ---------------------------------------------------------------- normalisation

  predicate IsWord(c: char) {
    'a' <= c <= 'z' || '0' <= c <= '9'
  }

  /** Lower-casing is a library matter; it must leave lower-case letters, digits and dashes alone. */
  ghost predicate Lowers(lower: char -> string) {
    forall c :: IsWord(c) || c == '-' ==> lower(c) == [c]
  }

  function LowerAll(s: string, lower: char -> string): string {
    if s == "" then "" else lower(s[0]) + LowerAll(s[1..], lower)
  }

  /** Every maximal stretch of other characters becomes one dash. */
  function Dashed(s: string, inGap: bool): string {
    if s == "" then ""
    else if IsWord(s[0]) then [s[0]] + Dashed(s[1..], false)
    else (if inGap then "" else "-") + Dashed(s[1..], true)
  }

  function DropLeft(s: string): string {
    if s != "" && s[0] == '-' then DropLeft(s[1..]) else s
  }

  function DropRight(s: string): string {
    if s != "" && s[|s| - 1] == '-' then DropRight(s[..|s| - 1]) else s
  }

  function NormalizeName(name: string, lower: char -> string): string {
    DropRight(DropLeft(Dashed(LowerAll(Strip(name), lower), false)))
  }

  /** Only word characters and dashes, and no two dashes in a row. */
  predicate Spaced(s: string) {
    (forall i | 0 <= i < |s| :: IsWord(s[i]) || s[i] == '-') &&
    forall i | 0 <= i < |s| - 1 :: IsWord(s[i]) || IsWord(s[i + 1])
  }

  /** Words of lower-case letters and digits, separated by single dashes. */
  predicate IsNormal(s: string) {
    Spaced(s) && (s != "" ==> s[0] != '-' && s[|s| - 1] != '-')
  }

  lemma {:induction false} DashedIsSpaced(s: string, inGap: bool)
    ensures Spaced(Dashed(s, inGap)) && (inGap && Dashed(s, inGap) != "" ==> IsWord(Dashed(s, inGap)[0]))
    decreases |s|
  {
    if s != "" {
      if IsWord(s[0]) {
        DashedIsSpaced(s[1..], false);
      } else {
        DashedIsSpaced(s[1..], true);
      }
    }
  }

  lemma {:induction false} DropLeftSpaced(s: string)
    requires Spaced(s)
    ensures Spaced(DropLeft(s)) && (DropLeft(s) != "" ==> DropLeft(s)[0] != '-')
    decreases |s|
  {
  }

  lemma {:induction false} DropRightSpaced(s: string)
    requires Spaced(s) && (s != "" ==> s[0] != '-')
    ensures IsNormal(DropRight(s))
    decreases |s|
  {
  }

  /** The result of normalisation is in normal form, whatever lower-casing does. */
  lemma NormalizedIsNormal(name: string, lower: char -> string)
    ensures IsNormal(NormalizeName(name, lower))
  {
    var lowered := LowerAll(Strip(name), lower);
    DashedIsSpaced(lowered, false);
    DropLeftSpaced(Dashed(lowered, false));
    DropRightSpaced(DropLeft(Dashed(lowered, false)));
  }

  lemma {:induction false} LowerNormal(s: string, lower: char -> string)
    requires Lowers(lower) && forall i :: 0 <= i < |s| ==> IsWord(s[i]) || s[i] == '-'
    ensures LowerAll(s, lower) == s
    decreases |s|
  {
    if s != "" {
      LowerNormal(s[1..], lower);
      assert s == [s[0]] + s[1..];
    }
  }

  lemma {:induction false} DashedNormal(s: string, inGap: bool)
    requires Spaced(s) && (inGap && s != "" ==> IsWord(s[0]))
    ensures Dashed(s, inGap) == s
    decreases |s|
  {
    if s != "" {
      assert forall i :: 0 <= i < |s| - 1 ==> s[1..][i] == s[i + 1];
      assert s == [s[0]] + s[1..];
      if IsWord(s[0]) {
        DashedNormal(s[1..], false);
      } else {
        assert |s| > 1 ==> IsWord(s[0]) || IsWord(s[0 + 1]);
        DashedNormal(s[1..], true);
      }
    }
  }

  /** A name is left alone if and only if it is in normal form; so normalising twice is normalising once. */
  lemma NormalizeFixesExactlyNormal(name: string, lower: char -> string)
    requires Lowers(lower)
    ensures NormalizeName(name, lower) == name <==> IsNormal(name)
    ensures NormalizeName(NormalizeName(name, lower), lower) == NormalizeName(name, lower)
  {
    NormalizedIsNormal(name, lower);
    if IsNormal(name) { NormalStays(name, lower); }
    NormalStays(NormalizeName(name, lower), lower);
  }

  lemma NormalStays(s: string, lower: char -> string)
    requires Lowers(lower) && IsNormal(s)
    ensures NormalizeName(s, lower) == s
  {
    assert StripLeft(s) == s && StripRight(s) == s;
    LowerNormal(s, lower);
    DashedNormal(s, false);
  }

  // ---------------------------------------------------------------- words

  /** The length of the word that `s` begins with. */
  function WordEnd(s: string): (k: nat)
    ensures k <= |s| && (k < |s| ==> !IsWord(s[k])) && forall i :: 0 <= i < k ==> IsWord(s[i])
  {
    if s == "" || !IsWord(s[0]) then 0 else 1 + WordEnd(s[1..])
  }

  /** The maximal stretches of word characters. */
  function Words(s: string): seq<string>
    decreases |s|
  {
    if s == "" then []
    else if !IsWord(s[0]) then Words(s[1..])
    else [s[..WordEnd(s)]] + Words(s[WordEnd(s)..])
  }

  function Hyphenated(words: seq<string>): string {
    if words == [] then "" else if |words| == 1 then words[0] else words[0] + "-" + Hyphenated(words[1..])
  }

  /** A gap before the words is one dash, and so is one after them. */
  function Gap(b: bool): string {
    if b then "-" else ""
  }

  predicate EndsInGap(s: string) {
    s != "" && !IsWord(s[|s| - 1])
  }

  lemma {:induction false} DashedWord(w: string, s: string, inGap: bool)
    requires forall i :: 0 <= i < |w| ==> IsWord(w[i])
    ensures Dashed(w + s, inGap) == w + Dashed(s, inGap && w == "")
    decreases |w|
  {
    if w == "" {
      assert w + s == s;
    } else {
      DashedWord(w[1..], s, false);
      assert (w + s)[1..] == w[1..] + s && w == [w[0]] + w[1..];
    }
  }

  /** The words, and a dash for the gap after them. */
  function Spell(words: seq<string>, after: bool): string {
    if words == [] then "" else Hyphenated(words) + Gap(after)
  }

  function Spelled(s: string): string {
    Spell(Words(s), EndsInGap(s))
  }

  /** Dashes stand exactly where a gap was. */
  lemma {:induction false} DashedIsHyphenated(s: string, inGap: bool)
    ensures Dashed(s, inGap) == Gap(s != "" && !IsWord(s[0]) && !inGap) + Spelled(s)
    decreases |s|
  {
    if s == "" {
      assert Gap(false) + "" == "";
    } else if IsWord(s[0]) {
      DashedFromWord(s, inGap);
      assert Gap(false) + Spelled(s) == Spelled(s);
    } else {
      DashedIsHyphenated(s[1..], true);
      SpelledAfterGap(s);
      assert Gap(false) + Spelled(s[1..]) == Spelled(s[1..]);
    }
  }

  lemma SpelledAfterGap(s: string)
    requires s != "" && !IsWord(s[0])
    ensures Spelled(s) == Spelled(s[1..])
  {
    assert Words(s) == Words(s[1..]);
    if |s| > 1 {
      assert s[1..][|s| - 2] == s[|s| - 1];
    } else {
      assert Words(s[1..]) == [];
    }
  }

  lemma DashedFromWord(s: string, inGap: bool)
    requires s != "" && IsWord(s[0])
    ensures Dashed(s, inGap) == Spelled(s)
    decreases |s|, 0
  {
    var k := WordEnd(s);
    var w, rest := s[..k], s[k..];
    assert s == w + rest && (rest != "" ==> !IsWord(rest[0]));
    DashedWord(w, rest, inGap);
    DashedIsHyphenated(rest, false);
    SpelledFromWord(s, k);
  }

  lemma SpelledFromWord(s: string, k: nat)
    requires s != "" && IsWord(s[0]) && k == WordEnd(s)
    ensures Spelled(s) == s[..k] + (Gap(k < |s|) + Spelled(s[k..]))
  {
    var w, rest := s[..k], s[k..];
    assert Words(s) == [w] + Words(rest);
    GapAtEnd(s, k);
    hide Words, Spell, EndsInGap;
    if Words(rest) == [] {
      assert [w] + [] == [w];
      SpellLast(w, EndsInGap(s));
      SpellNothing(EndsInGap(rest));
    } else {
      SpellMore(w, Words(rest), EndsInGap(rest));
    }
  }

  lemma GapAtEnd(s: string, k: nat)
    requires s != "" && IsWord(s[0]) && k == WordEnd(s)
    ensures Words(s[k..]) == [] ==> EndsInGap(s) == (k < |s|)
    ensures Words(s[k..]) != [] ==> EndsInGap(s) == EndsInGap(s[k..]) && k < |s|
  {
    hide Words;
    var rest := s[k..];
    if rest == "" {
      WordsOfNothing();
    } else {
      assert rest[|rest| - 1] == s[|s| - 1];
      if Words(rest) == [] { NoWords(rest); }
    }
  }

  lemma WordsOfNothing()
    ensures Words("") == []
  {
  }

  lemma SpellNothing(after: bool)
    ensures Spell([], after) == ""
  {
  }

  lemma SpellLast(w: string, after: bool)
    ensures Spell([w], after) == w + (Gap(after) + "")
  {
    assert Gap(after) + "" == Gap(after);
  }

  lemma SpellMore(w: string, words: seq<string>, after: bool)
    requires words != []
    ensures Spell([w] + words, after) == w + (Gap(true) + Spell(words, after))
  {
    HyphenatedMore(w, words);
    hide Hyphenated;
    Regroup(w, "-", Hyphenated(words));
    Regroup(w, "-" + Hyphenated(words), Gap(after));
    Regroup("-", Hyphenated(words), Gap(after));
  }

  lemma HyphenatedMore(w: string, words: seq<string>)
    ensures Hyphenated([w] + words) == if words == [] then w else w + "-" + Hyphenated(words)
  {
    assert words != [] ==> ([w] + words)[1..] == words;
  }

  lemma {:induction false} NoWords(s: string)
    requires Words(s) == []
    ensures forall i :: 0 <= i < |s| ==> !IsWord(s[i])
    decreases |s|
  {
    if s != "" && !IsWord(s[0]) {
      NoWords(s[1..]);
      assert forall i :: 1 <= i < |s| ==> s[i] == s[1..][i - 1];
    }
  }

  lemma {:induction false} HyphenatedEdges(words: seq<string>)
    requires words != [] && forall w <- words :: w != "" && IsWord(w[0]) && IsWord(w[|w| - 1])
    ensures var h := Hyphenated(words);
      h != "" && h[0] != '-' && h[|h| - 1] != '-'
    decreases |words|
  {
    if |words| > 1 { HyphenatedEdges(words[1..]); }
  }

  lemma {:induction false} WordsAreWords(s: string)
    ensures forall w <- Words(s) :: w != "" && IsWord(w[0]) && IsWord(w[|w| - 1])
    decreases |s|
  {
    if s != "" {
      if IsWord(s[0]) {
        WordsAreWords(s[WordEnd(s)..]);
      } else {
        WordsAreWords(s[1..]);
      }
    }
  }

  lemma DropDashes(h: string, before: bool, after: bool)
    requires h != "" && h[0] != '-' && h[|h| - 1] != '-'
    ensures DropRight(DropLeft(Gap(before) + (h + Gap(after)))) == h
  {
    var t := h + Gap(after);
    var s := Gap(before) + t;
    assert DropLeft(t) == t;
    assert DropLeft(s) == t by {
      if before { assert s[1..] == t; } else { assert s == t; }
    }
    assert DropRight(h) == h;
    assert DropRight(t) == h by {
      if after { assert t[..|t| - 1] == h; } else { assert t == h; }
    }
  }

  /** A normalised name consists of the words of the lower-cased name, all of them and in their order,
      with one dash between two of them and none elsewhere. */
  lemma NormalizedWords(name: string, lower: char -> string)
    ensures NormalizeName(name, lower) == Hyphenated(Words(LowerAll(Strip(name), lower)))
  {
    var s := LowerAll(Strip(name), lower);
    var words := Words(s);
    DashedIsHyphenated(s, false);
    if words != [] {
      WordsAreWords(s);
      HyphenatedEdges(words);
      DropDashes(Hyphenated(words), !IsWord(s[0]), EndsInGap(s));
    } else {
      assert Gap(true) + "" == "-" && Gap(false) + "" == "";
      assert DropLeft("-") == DropLeft("") == "";
    }
  }

  // ---------------------------------------------------------------- suffixes

  /** The names tried for a base, in order: the base itself, then with suffixes from 2. */
  function Candidate(base: string, k: nat): string {
    if k <= 1 then base else base + "-" + Decimal(k)
  }

  lemma CandidatesDiffer(base: string, j: nat, k: nat)
    requires 1 <= j < k
    ensures Candidate(base, j) != Candidate(base, k)
  {
    if j > 1 && Candidate(base, j) == Candidate(base, k) {
      assert Candidate(base, j)[|base| + 1..] == Decimal(j) && Candidate(base, k)[|base| + 1..] == Decimal(k);
      DecimalIsInjective(j, k);
    }
  }

  /** `name` is the first candidate that is not used yet. */
  ghost predicate FirstFree(base: string, used: set<string>, name: string) {
    name !in used &&
    exists k: nat :: k >= 1 && name == Candidate(base, k) && forall j: nat :: 1 <= j < k ==> Candidate(base, j) in used
  }

  lemma FreeBaseIsTaken(base: string, used: set<string>, name: string)
    requires FirstFree(base, used, name) && base !in used
    ensures name == base
  {
    assert Candidate(base, 1) == base;
  }

  /** The first `n` candidates. */
  ghost function Tried(base: string, n: nat): set<string> {
    if n == 0 then {} else Tried(base, n - 1) + {Candidate(base, n)}
  }

  lemma {:induction false} TriedMembers(base: string, n: nat, t: string)
    ensures t in Tried(base, n) <==> exists j: nat :: 1 <= j <= n && t == Candidate(base, j)
  {
    hide Candidate;
    if n > 0 {
      TriedMembers(base, n - 1, t);
    }
  }

  lemma {:induction false} TriedSize(base: string, n: nat)
    ensures |Tried(base, n)| == n
  {
    hide Candidate;
    if n > 0 {
      TriedSize(base, n - 1);
      TriedMembers(base, n - 1, Candidate(base, n));
      if j: nat :| 1 <= j <= n - 1 && Candidate(base, n) == Candidate(base, j) {
        CandidatesDiffer(base, j, n);
      }
    }
  }

  lemma TriedNone(base: string)
    ensures Tried(base, 0) == {}
  {
  }

  /** One more name that is taken: there cannot be more of them than used names. */
  lemma TriedOneMore(base: string, n: nat, used: set<string>)
    requires Tried(base, n) <= used && Candidate(base, n + 1) in used
    ensures Tried(base, n + 1) <= used && n + 1 <= |used|
  {
    hide Candidate;
    TriedSize(base, n + 1);
    SubsetSize(Tried(base, n + 1), used);
  }

  lemma TriedAreUsed(base: string, n: nat, used: set<string>)
    requires Tried(base, n) <= used && Candidate(base, n + 1) !in used
    ensures FirstFree(base, used, Candidate(base, n + 1))
  {
    forall j: nat | 1 <= j < n + 1
      ensures Candidate(base, j) in used
    {
      TriedMembers(base, n, Candidate(base, j));
    }
  }

  /** The suffix loop.  It ends because every name tried so far is a different used one. */
  method UniqueName(base: string, used: set<string>) returns (name: string)
    ensures FirstFree(base, used, name)
  {
    hide Tried, FirstFree, Decimal;
    TriedNone(base);
    name := base;
    var suffix: nat := 2;
    while name in used
      invariant suffix >= 2 && name == Candidate(base, suffix - 1)
      invariant Tried(base, suffix - 2) <= used && suffix - 2 <= |used|
      decreases |used| + 2 - suffix
    {
      TriedOneMore(base, suffix - 2, used);
      name := base + "-" + Decimal(suffix);
      suffix := suffix + 1;
    }
    TriedAreUsed(base, suffix - 2, used);
  }

  // ---------------------------------------------------------------- the plan

  datatype Spec = Spec(name: string, role: Role, dependencies: seq<string>)

  function BaseName(spec: Spec, lower: char -> string): string {
    var n := NormalizeName(spec.name, lower);
    if n == "" then "subtask" else n
  }

  function Names(names: seq<string>): set<string> {
    set n | n in names
  }

  ghost predicate WellNamed(specs: seq<Spec>, lower: char -> string, names: seq<string>) {
    && |names| == |specs|
    && forall i :: 0 <= i < |specs| ==> FirstFree(BaseName(specs[i], lower), Names(names[..i]), names[i])
  }

  /** The naming loop gives each spec, in plan order, the first free name for its base. */
  method NameSubtasks(specs: seq<Spec>, lower: char -> string) returns (names: seq<string>)
    ensures WellNamed(specs, lower, names) && Distinct(names)
  {
    names := [];
    for i: nat := 0 to |specs|
      invariant WellNamed(specs[..i], lower, names)
      invariant Distinct(names)
    {
      var name := UniqueName(BaseName(specs[i], lower), Names(names));
      NamedOneMore(specs[..i], lower, names, specs[i], name);
      assert specs[..i + 1] == specs[..i] + [specs[i]];
      names := names + [name];
    }
    assert specs[..|specs|] == specs;
  }

  lemma NamedOneMore(specs: seq<Spec>, lower: char -> string, names: seq<string>, spec: Spec, name: string)
    requires WellNamed(specs, lower, names) && Distinct(names) && FirstFree(BaseName(spec, lower), Names(names), name)
    ensures WellNamed(specs + [spec], lower, names + [name]) && Distinct(names + [name])
  {
    var more := names + [name];
    forall i | 0 <= i < |more|
      ensures FirstFree(BaseName((specs + [spec])[i], lower), Names(more[..i]), more[i])
    {
      assert more[..i] == names[..i];
      assert names[..|names|] == names;
    }
    assert forall i :: 0 <= i < |names| ==> names[i] in Names(names);
  }

  /** The subtask whose final name is `d`, if any. */
  function IndexOf(names: seq<string>, d: string, k: nat): (r: Option<nat>)
    requires k <= |names|
    ensures r.Some? ==> k <= r.value < |names| && names[r.value] == d
    ensures r.None? ==> forall j :: k <= j < |names| ==> names[j] != d
    decreases |names| - k
  {
    if k == |names| then None else if names[k] == d then Some(k) else IndexOf(names, d, k + 1)
  }

  /** Dependencies are looked up among the final names; unknown ones and the subtask itself are dropped. */
  function Resolve(names: seq<string>, own: string, dependencies: seq<string>): seq<nat> {
    if dependencies == [] then []
    else
      var d := dependencies[0];
      var found := IndexOf(names, d, 0);
      (if d != own && found.Some? then [found.value] else []) + Resolve(names, own, dependencies[1..])
  }

  lemma {:induction false} ResolveIsExact(names: seq<string>, own: string, dependencies: seq<string>, j: nat)
    requires Distinct(names)
    ensures j in Resolve(names, own, dependencies) <==> j < |names| && names[j] != own && names[j] in dependencies
    decreases |dependencies|
  {
    if dependencies != [] {
      ResolveIsExact(names, own, dependencies[1..], j);
      assert dependencies == [dependencies[0]] + dependencies[1..];
    }
  }

  /** A listed dependency that names another subtask contributes that one; any other contributes nothing. */
  lemma ResolveOne(names: seq<string>, own: string, d: string, j: nat)
    requires Distinct(names) && j < |names| && names[j] == d
    ensures Resolve(names, own, [d]) == if d == own then [] else [j]
  {
    assert [d][1..] == [];
  }

  lemma ResolveUnknown(names: seq<string>, own: string, d: string)
    requires d !in names
    ensures Resolve(names, own, [d]) == []
  {
    assert [d][1..] == [];
  }

  /** The order in which dependencies are listed is kept. */
  lemma {:induction false} ResolveKeepsOrder(names: seq<string>, own: string, a: seq<string>, b: seq<string>)
    ensures Resolve(names, own, a + b) == Resolve(names, own, a) + Resolve(names, own, b)
    decreases |a|
  {
    if a == [] {
      assert a + b == b && [] + Resolve(names, own, b) == Resolve(names, own, b);
    } else {
      var d, rest := a[0], a[1..];
      ResolveKeepsOrder(names, own, rest, b);
      ResolveFirst(names, own, d, rest);
      ResolveFirst(names, own, d, rest + b);
      hide Resolve;
      assert a == [d] + rest;
      Regroup([d], rest, b);
      Regroup(Resolve(names, own, [d]), Resolve(names, own, rest), Resolve(names, own, b));
    }
  }

  lemma ResolveFirst(names: seq<string>, own: string, d: string, rest: seq<string>)
    ensures Resolve(names, own, [d] + rest) == Resolve(names, own, [d]) + Resolve(names, own, rest)
  {
    assert ([d] + rest)[1..] == rest && [d][1..] == [];
  }

  function Planned(spec: Spec, names: seq<string>, i: nat): Sub
    requires i < |names|
  {
    Fresh(spec.role, Resolve(names, names[i], spec.dependencies), Part.Planned, 0, None, None)
  }

  /** The planner's last step: names first, then subtasks whose dependencies are positions. */
  method BuildSubtasksFromPlan(specs: seq<Spec>, lower: char -> string) returns (names: seq<string>, plan: seq<Sub>)
    ensures WellNamed(specs, lower, names) && Distinct(names)
    ensures |plan| == |specs| && forall i :: 0 <= i < |plan| ==> plan[i] == Planned(specs[i], names, i)
    ensures forall i :: 0 <= i < |plan| ==> plan[i].role == specs[i].role
    ensures forall i, d: nat :: 0 <= i < |plan| && d in plan[i].deps ==> d < |plan| && d != i
    ensures specs != [] ==> IsPlan(plan)
  {
    names := NameSubtasks(specs, lower);
    plan := [];
    for i: nat := 0 to |specs|
      invariant |plan| == i && forall j :: 0 <= j < i ==> plan[j] == Planned(specs[j], names, j)
    {
      plan := plan + [Planned(specs[i], names, i)];
    }
    PlannedIsPlan(specs, names, plan);
  }

  lemma PlannedIsPlan(specs: seq<Spec>, names: seq<string>, plan: seq<Sub>)
    requires Distinct(names) && |names| == |specs| == |plan| && forall i :: 0 <= i < |plan| ==>
      plan[i] == Planned(specs[i], names, i)
    ensures forall i, d: nat :: 0 <= i < |plan| && d in plan[i].deps ==> d < |plan| && d != i
    ensures specs != [] ==> IsPlan(plan)
  {
    forall i: nat | i < |plan|
      ensures IsPlanned(plan[i], |plan|) && i !in plan[i].deps
    {
      forall d: nat | d in plan[i].deps
        ensures d < |plan| && d != i
      {
        ResolveIsExact(names, names[i], specs[i].dependencies, d);
      }
    }
  }

  // ---------------------------------------------------------------- what names survive

  lemma CandidateIsNormal(base: string, k: nat)
    requires IsNormal(base) && base != ""
    ensures IsNormal(Candidate(base, k)) && Candidate(base, k) != ""
  {
  }

  lemma NamesAreNormal(specs: seq<Spec>, lower: char -> string, names: seq<string>, i: nat)
    requires WellNamed(specs, lower, names) && i < |names|
    ensures IsNormal(names[i]) && names[i] != ""
  {
    var base := BaseName(specs[i], lower);
    NormalizedIsNormal(specs[i].name, lower);
    assert IsNormal("subtask");
    var k: nat :| k >= 1 && names[i] == Candidate(base, k);
    CandidateIsNormal(base, k);
  }

  /** The names are non-empty, in normal form and pairwise distinct. */
  ghost predicate WellChosen(specs: seq<Spec>) {
    && (forall i :: 0 <= i < |specs| ==> specs[i].name != "" && IsNormal(specs[i].name))
    && forall i, j :: 0 <= i < j < |specs| ==> specs[i].name != specs[j].name
  }

  /** A plan keeps all the names it came with if and only if they are well chosen. */
  lemma NamesSurviveIff(specs: seq<Spec>, lower: char -> string, names: seq<string>)
    requires Lowers(lower) && WellNamed(specs, lower, names) && Distinct(names)
    ensures (forall i :: 0 <= i < |specs| ==> names[i] == specs[i].name) <==> WellChosen(specs)
  {
    if forall i :: 0 <= i < |specs| ==> names[i] == specs[i].name {
      forall i: nat | i < |specs|
        ensures specs[i].name != "" && IsNormal(specs[i].name)
      {
        NamesAreNormal(specs, lower, names, i);
      }
    }
    if WellChosen(specs) {
      NormalNamesStay(specs, lower, names, |specs|);
    }
  }

  // ---------------------------------------------------------------- where dependencies lead

  predicate Mentions(specs: seq<Spec>, dependencies: seq<string>) {
    forall d | d in dependencies :: exists k | 0 <= k < |specs| :: specs[k].name == d
  }

  /** What the subtask built from `specs[i]` depends on if its spec lists `dependencies`; the names do
      not depend on what is listed. */
  function Edges(specs: seq<Spec>, names: seq<string>, i: nat, dependencies: seq<string>): seq<nat>
    requires i < |specs| == |names|
  {
    Planned(specs[i].(dependencies := dependencies), names, i).deps
  }

  /** Whatever dependencies the specs list by the plan's own names, each leads to the subtasks of that
      name, other than the subtask itself, and to nothing else. */
  ghost predicate DependenciesLead(specs: seq<Spec>, names: seq<string>)
    requires |specs| == |names|
  {
    forall i: nat, dependencies: seq<string>, j: nat ::
      i < |specs| && j < |specs| && Mentions(specs, dependencies) ==>
        (j in Edges(specs, names, i, dependencies) <==> j != i && specs[j].name in dependencies)
  }

  /** The exact condition: a plan of two or more subtasks needs well-chosen names. */
  lemma DependenciesLeadIff(specs: seq<Spec>, lower: char -> string, names: seq<string>)
    requires Lowers(lower) && WellNamed(specs, lower, names) && Distinct(names)
    ensures DependenciesLead(specs, names) <==> |specs| < 2 || WellChosen(specs)
  {
    NamesSurviveIff(specs, lower, names);
    if |specs| < 2 || WellChosen(specs) {
      forall i: nat, dependencies: seq<string>, j: nat | i < |specs| && j < |specs| && Mentions(specs, dependencies)
        ensures j in Edges(specs, names, i, dependencies) <==> j != i && specs[j].name in dependencies
      {
        ResolveIsExact(names, names[i], dependencies, j);
      }
    } else if DependenciesLead(specs, names) {
      forall j: nat | j < |specs|
        ensures names[j] == specs[j].name
      {
        LedToKeepsName(specs, names, if j == 0 then 1 else 0, j);
      }
    }
  }

  /** A subtask that a dependency by its own name reaches has kept that name. */
  lemma LedToKeepsName(specs: seq<Spec>, names: seq<string>, i: nat, j: nat)
    requires |specs| == |names| && Distinct(names) && i < |specs| && j < |specs| && i != j
    requires DependenciesLead(specs, names)
    ensures names[j] == specs[j].name
  {
    var dependencies := [specs[j].name];
    assert Mentions(specs, dependencies);
    assert specs[j].name in dependencies && j in Edges(specs, names, i, dependencies);
    ResolveIsExact(names, names[i], dependencies, j);
  }

  lemma BaseOfNormal(spec: Spec, lower: char -> string)
    requires Lowers(lower) && spec.name != "" && IsNormal(spec.name)
    ensures BaseName(spec, lower) == spec.name
  {
    NormalStays(spec.name, lower);
  }

  lemma {:induction false} NormalNamesStay(specs: seq<Spec>, lower: char -> string, names: seq<string>, n: nat)
    requires Lowers(lower) && WellNamed(specs, lower, names) && n <= |specs|
    requires forall i :: 0 <= i < |specs| ==> specs[i].name != "" && IsNormal(specs[i].name)
    requires forall i, j :: 0 <= i < j < |specs| ==> specs[i].name != specs[j].name
    ensures forall i :: 0 <= i < n ==> names[i] == specs[i].name
  {
    hide IsNormal, FirstFree, BaseName, Lowers;
    if n > 0 {
      NormalNamesStay(specs, lower, names, n - 1);
      var base, before := specs[n - 1].name, names[..n - 1];
      BaseOfNormal(specs[n - 1], lower);
      assert base !in Names(before) by {
        forall i | 0 <= i < |before|
          ensures before[i] != base
        {
          assert before[i] == specs[i].name;
        }
      }
      FreeBaseIsTaken(base, Names(before), names[n - 1]);
    }
  }

  /** Three subtasks whose names hold no letter and no digit. */
  lemma NamelessAreNumbered(specs: seq<Spec>, lower: char -> string, names: seq<string>)
    requires WellNamed(specs, lower, names) && |specs| == 3
    requires forall i :: 0 <= i < 3 ==> Words(LowerAll(Strip(specs[i].name), lower)) == []
    ensures names == ["subtask", "subtask-2", "subtask-3"]
  {
    forall i | 0 <= i < 3
      ensures BaseName(specs[i], lower) == "subtask"
    {
      NormalizedWords(specs[i].name, lower);
    }
    hide BaseName, NormalizeName, WellNamed, Words;
    ThreeOfOneBase(specs, lower, names, "subtask");
    assert "subtask" + "-2" == "subtask-2" && "subtask" + "-3" == "subtask-3";
  }

  lemma ThreeOfOneBase(specs: seq<Spec>, lower: char -> string, names: seq<string>, base: string)
    requires WellNamed(specs, lower, names) && |specs| == 3
    requires forall i :: 0 <= i < 3 ==> BaseName(specs[i], lower) == base
    ensures names == [base, base + "-2", base + "-3"]
  {
    assert FirstFree(base, Names(names[..0]), names[0]);
    assert FirstFree(base, Names(names[..1]), names[1]);
    assert FirstFree(base, Names(names[..2]), names[2]);
    assert names[..0] == [] && names[..1] == [names[0]] && names[..2] == [names[0], names[1]];
    assert names == [names[0], names[1], names[2]];
    hide BaseName, WellNamed, FirstFree;
    FreeBaseIsTaken(base, Names(names[..0]), names[0]);
    SecondIsTried(base, Names(names[..1]), names[1]);
    ThirdIsTried(base, Names(names[..2]), names[2]);
  }

  lemma FirstCandidates(base: string)
    ensures Candidate(base, 1) == base && Candidate(base, 2) == base + "-2" && Candidate(base, 3) == base + "-3"
  {
    assert Decimal(2) == "2" && Decimal(3) == "3";
  }

  lemma SecondIsTried(base: string, used: set<string>, name: string)
    requires FirstFree(base, used, name) && used == {base}
    ensures name == base + "-2"
  {
    FirstCandidates(base);
    CandidatesDiffer(base, 1, 2);
    assert Candidate(base, 2) !in used;
    var k: nat :| k >= 1 && name == Candidate(base, k) && forall j: nat :: 1 <= j < k ==> Candidate(base, j) in used;
    assert k == 2;
  }

  lemma ThirdIsTried(base: string, used: set<string>, name: string)
    requires FirstFree(base, used, name) && used == {base, base + "-2"}
    ensures name == base + "-3"
  {
    FirstCandidates(base);
    CandidatesDiffer(base, 1, 3);
    CandidatesDiffer(base, 2, 3);
    assert Candidate(base, 3) !in used;
    var k: nat :| k >= 1 && name == Candidate(base, k) && forall j: nat :: 1 <= j < k ==> Candidate(base, j) in used;
    assert k == 3;
  }

  lemma EmptyIffNoMember(s: seq<nat>)
    ensures s == [] <==> forall j: nat :: j !in s
  {
    if s != [] { assert s[0] in s; }
  }

  /** A dependency written as the planner wrote the name, capitals and all, is silently dropped. */
  lemma UnnormalisedDependencyIsLost(specs: seq<Spec>, lower: char -> string, names: seq<string>)
    requires Lowers(lower) && WellNamed(specs, lower, names) && Distinct(names)
    requires specs == [Spec("Design", Researcher, []), Spec("build", Coder, ["Design"])]
    ensures Planned(specs[1], names, 1).deps == []
  {
    var deps := Resolve(names, names[1], specs[1].dependencies);
    assert !IsWord('D') && !IsNormal("Design") by { assert "Design"[0] == 'D'; }
    forall j: nat
      ensures j !in deps
    {
      ResolveIsExact(names, names[1], specs[1].dependencies, j);
      if j < |names| { NamesAreNormal(specs, lower, names, j); }
    }
    EmptyIffNoMember(deps);
  }

  /** A dependency can also lead to the wrong subtask: here "a" becomes the name of another one. */
  lemma DependencyIsMisdirected(specs: seq<Spec>, lower: char -> string, names: seq<string>)
    requires lower('A') == "a" && Lowers(lower) && WellNamed(specs, lower, names) && Distinct(names)
    requires specs == [Spec("A", Coder, []), Spec("a", Coder, []), Spec("b", Coder, ["a"])]
    ensures 0 in Planned(specs[2], names, 2).deps && 1 !in Planned(specs[2], names, 2).deps
  {
    assert Strip("A") == "A" && LowerAll("A"[1..], lower) == "" && LowerAll("A", lower) == "a";
    assert NormalizeName("A", lower) == NormalizeName("a", lower) by {
      assert Strip("a") == "a" && LowerAll("a"[1..], lower) == "" && LowerAll("a", lower) == "a";
    }
    NormalStays("a", lower);
    FreeBaseIsTaken("a", Names(names[..0]), names[0]);
    ResolveIsExact(names, names[2], ["a"], 0);
    ResolveIsExact(names, names[2], ["a"], 1);
  }

  lemma MutualIsCyclic(plan: seq<Sub>)
    requires |plan| == 2 && 1 in plan[0].deps && 0 in plan[1].deps
    ensures DependsOn(plan, 0, 0) && !Acyclic(plan)
  {
    assert Edge(plan, 0, 1) && Edge(plan, 1, 0);
    EdgeConnects(plan, 1, 0);
    StepConnects(plan, 0, 1, 0);
    AcyclicMeansNoCycle(plan);
  }

  lemma NamesOfTwo(a: Spec, b: Spec)
    requires a.name == "a" && b.name == "b"
    ensures WellChosen([a, b])
  {
    assert IsNormal("a") && IsNormal("b") && "a"[0] != "b"[0];
  }

  lemma MutualNames(specs: seq<Spec>, lower: char -> string, names: seq<string>)
    requires Lowers(lower) && WellNamed(specs, lower, names) && Distinct(names)
    requires specs == [Spec("a", Coder, ["b"]), Spec("b", Coder, ["a"])]
    ensures names == ["a", "b"]
  {
    NamesOfTwo(specs[0], specs[1]);
    assert specs == [specs[0], specs[1]] && |names| == 2;
    hide WellChosen, WellNamed, IsNormal, Lowers, Distinct;
    NamesSurviveIff(specs, lower, names);
    assert names[0] == specs[0].name && names[1] == specs[1].name;
  }

  /** Two subtasks that list each other: the planner keeps both dependencies, and the plan is cyclic. */
  lemma PlannerAcceptsCycle(specs: seq<Spec>, lower: char -> string, names: seq<string>)
    requires Lowers(lower) && WellNamed(specs, lower, names) && Distinct(names)
    requires specs == [Spec("a", Coder, ["b"]), Spec("b", Coder, ["a"])]
    ensures var plan := [Planned(specs[0], names, 0), Planned(specs[1], names, 1)];
      IsPlan(plan) && DependsOn(plan, 0, 0) && !Acyclic(plan)
  {
    var plan := [Planned(specs[0], names, 0), Planned(specs[1], names, 1)];
    MutualNames(specs, lower, names);
    hide WellNamed, Acyclic, DependsOn, IsPlan, Resolve, IsNormal, Lowers;
    PlannedIsPlan(specs, names, plan);
    ResolveIsExact(names, names[0], ["b"], 1);
    ResolveIsExact(names, names[1], ["a"], 0);
    MutualIsCyclic(plan);
  }
}
