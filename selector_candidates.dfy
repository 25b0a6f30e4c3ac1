/**
 * The list-shaped helpers of the selector utilities: class combinations for
 * parent-qualified CSS selectors, candidate deduplication and candidate
 * ordering.
 */
module SelectorCandidates {
  import opened JsStrings
  import opened Candidates
  import SelectorUtils

  /** CSS_PARENT_CLASS_LIMIT, CSS_PARENT_COMBINATION_LIMIT and CSS_PARENT_MAX_COMBINATIONS. */
  const CssParentClassLimit: nat := 4
  const CssParentCombinationLimit: nat := 3
  const CssParentMaxCombinations: nat := 20

  predicate NoDuplicates<T(==)>(xs: seq<T>)
  {
    forall i, j :: 0 <= i < j < |xs| ==> xs[i] != xs[j]
  }

  // ---------------------------------------------------------------------
  // Class combinations
  // ---------------------------------------------------------------------

  /** `Array.from(new Set(xs))`: each value once, at its first occurrence. */
  function Distinct(xs: seq<string>): (r: seq<string>)
    ensures NoDuplicates(r)
    ensures forall x :: x in r <==> x in xs
  {
    if xs == [] then []
    else
      var d := Distinct(xs[..|xs| - 1]);
      assert xs == xs[..|xs| - 1] + [xs[|xs| - 1]];
      if xs[|xs| - 1] in d then d else d + [xs[|xs| - 1]]
  }

  lemma {:induction false} FilterNonEmptyKeepsDistinct(xs: seq<string>)
    requires NoDuplicates(xs)
    ensures NoDuplicates(FilterNonEmpty(xs))
  {
    if xs != [] {
      FilterNonEmptyKeepsDistinct(xs[1..]);
      assert xs[0] !in xs[1..];
    }
  }

  lemma {:induction false} FilterNonEmptyComplete(xs: seq<string>, x: string)
    requires x in xs && x != ""
    ensures x in FilterNonEmpty(xs)
  {
    if xs[0] != x {
      FilterNonEmptyComplete(xs[1..], x);
    }
  }

  /** The classes the combinations draw from: distinct, non-empty, the first `classLimit` of them. */
  function UniqueClasses(classes: seq<string>, classLimit: nat): (r: seq<string>)
    ensures |r| <= classLimit
    ensures NoDuplicates(r)
    ensures forall c :: c in r ==> c != "" && c in classes
  {
    var d := FilterNonEmpty(Distinct(classes));
    FilterNonEmptyKeepsDistinct(Distinct(classes));
    if |d| <= classLimit then d
    else
      assert forall c :: c in d[..classLimit] ==> c in d;
      d[..classLimit]
  }

  /** With no more distinct classes than the limit, every non-empty class is kept. */
  lemma UniqueClassesComplete(classes: seq<string>, classLimit: nat, c: string)
    requires |FilterNonEmpty(Distinct(classes))| <= classLimit
    requires c in classes && c != ""
    ensures c in UniqueClasses(classes, classLimit)
  {
    FilterNonEmptyComplete(Distinct(classes), c);
  }

  /** The index of `x` in `uc`, or -1. */
  function Position(uc: seq<string>, x: string): (p: int)
    ensures -1 <= p < |uc|
    ensures p == -1 <==> x !in uc
    ensures 0 <= p ==> uc[p] == x
  {
    if uc == [] then -1
    else if uc[0] == x then 0
    else
      var p := Position(uc[1..], x);
      if p == -1 then -1 else p + 1
  }

  lemma PositionOfDistinct(uc: seq<string>, i: nat)
    requires NoDuplicates(uc) && i < |uc|
    ensures Position(uc, uc[i]) == i
  {
  }

  /** `c` lists classes of `uc`, in strictly increasing index order. */
  predicate Ascending(uc: seq<string>, c: seq<string>)
  {
    (forall k :: 0 <= k < |c| ==> 0 <= Position(uc, c[k])) &&
    (forall k :: 0 <= k < |c| - 1 ==> Position(uc, c[k]) < Position(uc, c[k + 1]))
  }

  /** What one call `backtrack(start, current)` may push: `current` or an extension of it past `start`. */
  predicate Extends(uc: seq<string>, limit: nat, current: seq<string>, start: nat, c: seq<string>)
  {
    1 <= |c| <= limit && |current| <= |c| && c[..|current|] == current && Ascending(uc, c) &&
    (|c| > |current| ==> start <= Position(uc, c[|current|]))
  }

  lemma AscendingSnoc(uc: seq<string>, current: seq<string>, start: nat, i: nat)
    requires NoDuplicates(uc) && start <= i < |uc|
    requires Ascending(uc, current)
    requires current != [] ==> Position(uc, current[|current| - 1]) < start
    ensures Ascending(uc, current + [uc[i]])
  {
    PositionOfDistinct(uc, i);
    var c := current + [uc[i]];
    forall k | 0 <= k < |c| - 1
      ensures Position(uc, c[k]) < Position(uc, c[k + 1])
    {
      if k == |current| - 1 {
        assert c[k] == current[|current| - 1];
      } else {
        assert c[k] == current[k] && c[k + 1] == current[k + 1];
      }
    }
  }

  lemma ExtendsStep(uc: seq<string>, limit: nat, current: seq<string>, start: nat, i: nat, c: seq<string>)
    requires NoDuplicates(uc) && start <= i < |uc|
    requires Extends(uc, limit, current + [uc[i]], i + 1, c)
    ensures Extends(uc, limit, current, start, c)
    ensures |c| > |current| && c[|current|] == uc[i] && Position(uc, c[|current|]) == i
  {
    PositionOfDistinct(uc, i);
    assert c[..|current| + 1][..|current|] == c[..|current|];
    assert c[..|current| + 1][|current|] == c[|current|];
  }

  /**
   * The state of `combos` inside `backtrack(start, current)` once the loop has
   * tried every index below `i`: what was there before is untouched, and each
   * new entry is `current` (first) or an extension of it through an index in
   * `start..i`, with no entry twice.
   */
  predicate Pushed(uc: seq<string>, limit: nat, maxResults: nat, current: seq<string>, start: nat, i: nat,
                   combos0: seq<seq<string>>, combos: seq<seq<string>>)
  {
    |combos0| <= |combos| <= maxResults && combos[..|combos0|] == combos0 &&
    (forall j :: |combos0| <= j < |combos| ==> Extends(uc, limit, current, start, combos[j])) &&
    (forall j :: |combos0| <= j < |combos| && |combos[j]| > |current| ==> Position(uc, combos[j][|current|]) < i) &&
    (forall j :: |combos0| < j < |combos| ==> |combos[j]| > |current|) &&
    (forall a, b :: |combos0| <= a < b < |combos| ==> combos[a] != combos[b])
  }

  lemma PushedStep(uc: seq<string>, limit: nat, maxResults: nat, current: seq<string>, start: nat, i: nat,
                   combos0: seq<seq<string>>, before: seq<seq<string>>, combos: seq<seq<string>>)
    requires NoDuplicates(uc) && start <= i < |uc|
    requires Pushed(uc, limit, maxResults, current, start, i, combos0, before)
    requires |before| <= |combos| <= maxResults && combos[..|before|] == before
    requires forall j :: |before| <= j < |combos| ==> Extends(uc, limit, current + [uc[i]], i + 1, combos[j])
    requires forall a, b :: |before| <= a < b < |combos| ==> combos[a] != combos[b]
    ensures Pushed(uc, limit, maxResults, current, start, i + 1, combos0, combos)
  {
    forall j | |before| <= j < |combos|
      ensures Extends(uc, limit, current, start, combos[j])
      ensures |combos[j]| > |current| && Position(uc, combos[j][|current|]) == i
    {
      ExtendsStep(uc, limit, current, start, i, combos[j]);
    }
    assert forall j :: 0 <= j < |before| ==> combos[j] == before[j];
    assert combos[..|combos0|] == before[..|combos0|];
  }

  /** `backtrack(start, current)` appending to `combos0`. */
  method Backtrack(uc: seq<string>, limit: nat, maxResults: nat, start: nat, current: seq<string>,
                   combos0: seq<seq<string>>) returns (combos: seq<seq<string>>)
    requires NoDuplicates(uc) && start <= |uc|
    requires |current| <= limit && Ascending(uc, current)
    requires current != [] ==> Position(uc, current[|current| - 1]) < start
    requires |combos0| <= maxResults
    ensures |combos0| <= |combos| <= maxResults && combos[..|combos0|] == combos0
    ensures forall j :: |combos0| <= j < |combos| ==> Extends(uc, limit, current, start, combos[j])
    ensures forall j :: |combos0| < j < |combos| ==> |combos[j]| > |current|
    ensures forall a, b :: |combos0| <= a < b < |combos| ==> combos[a] != combos[b]
    decreases |uc| - start
  {
    combos := combos0;
    if |current| > 0 && |combos| < maxResults {
      combos := combos + [current];
    }
    if |current| == limit {
      return;
    }
    var i := start;
    while i < |uc| && |combos| < maxResults
      invariant start <= i <= |uc|
      invariant Pushed(uc, limit, maxResults, current, start, i, combos0, combos)
      decreases |uc| - i
    {
      AscendingSnoc(uc, current, start, i);
      var before := combos;
      combos := Backtrack(uc, limit, maxResults, i + 1, current + [uc[i]], combos);
      PushedStep(uc, limit, maxResults, current, start, i, combos0, before, combos);
      i := i + 1;
    }
  }

  /** `buildClassCombinationLists(classes, { limit, maxResults, classLimit })`. */
  method BuildClassCombinationLists(classes: seq<string>, limit: nat, maxResults: nat, classLimit: nat)
    returns (combos: seq<seq<string>>)
    ensures |combos| <= maxResults
    ensures forall c :: c in combos ==> 1 <= |c| <= limit && Ascending(UniqueClasses(classes, classLimit), c)
    ensures NoDuplicates(combos)
  {
    combos := Backtrack(UniqueClasses(classes, classLimit), limit, maxResults, 0, [], []);
  }

  // ---------------------------------------------------------------------
  // Deduplication
  // ---------------------------------------------------------------------

  /** The comparison key of a candidate: its selector, normalised. */
  function Key(c: Candidate): string
  {
    SelectorUtils.DedupKey(c.selector)
  }

  /** A later candidate with the same key replaces the stored one. */
  predicate Replaces(c: Candidate, existing: Candidate)
  {
    ScoreOrZero(c) > ScoreOrZero(existing) ||
    (ScoreOrZero(c) == ScoreOrZero(existing) &&
      if IsUnique(c) && !IsUnique(existing) then true
      else c.unique == existing.unique && RelativeRank(c) > RelativeRank(existing))
  }

  /** The `seen` map, with its keys in insertion order. */
  datatype Seen = Seen(keys: seq<string>, best: map<string, Candidate>)

  /** One iteration of the loop over the candidates, under the key function `key`. */
  function SeenStep(key: Candidate -> string, st: Seen, c: Candidate): Seen
  {
    if key(c) == "" then st
    else if key(c) !in st.best then Seen(st.keys + [key(c)], st.best[key(c) := c])
    else if Replaces(c, st.best[key(c)]) then st.(best := st.best[key(c) := c])
    else st
  }

  /** The `seen` map after the loop has visited every candidate of `cs`. */
  function SeenAfter(key: Candidate -> string, cs: seq<Candidate>): Seen
  {
    if cs == [] then Seen([], map[]) else SeenStep(key, SeenAfter(key, cs[..|cs| - 1]), cs[|cs| - 1])
  }

  ghost predicate KeysMatch(st: Seen)
  {
    NoDuplicates(st.keys) && forall k :: k in st.best <==> k in st.keys
  }

  /** `Array.from(seen.values())`. */
  function Survivors(st: Seen): seq<Candidate>
    requires KeysMatch(st)
  {
    seq(|st.keys|, i requires 0 <= i < |st.keys| => st.best[st.keys[i]])
  }

  /** What the `seen` map holds after visiting `cs`. */
  ghost predicate SeenInvariant(key: Candidate -> string, st: Seen, cs: seq<Candidate>)
  {
    KeysMatch(st) &&
    (forall k :: k in st.best ==> k != "" && key(st.best[k]) == k && st.best[k] in cs) &&
    (forall j :: 0 <= j < |cs| && key(cs[j]) != "" ==>
      key(cs[j]) in st.best && ScoreOrZero(cs[j]) <= ScoreOrZero(st.best[key(cs[j])]))
  }

  lemma NewKeyKeepsDistinct(keys: seq<string>, k: string)
    requires NoDuplicates(keys) && k !in keys
    ensures NoDuplicates(keys + [k])
  {
    var keys' := keys + [k];
    forall a, b | 0 <= a < b < |keys'|
      ensures keys'[a] != keys'[b]
    {
      if b == |keys| {
        assert keys'[a] == keys[a];
      } else {
        assert keys'[a] == keys[a] && keys'[b] == keys[b];
      }
    }
  }

  lemma SeenStepInvariant(key: Candidate -> string, st: Seen, cs: seq<Candidate>, c: Candidate)
    requires SeenInvariant(key, st, cs)
    ensures SeenInvariant(key, SeenStep(key, st, c), cs + [c])
  {
    var cs' := cs + [c];
    assert forall j :: 0 <= j < |cs| ==> cs'[j] == cs[j];
    assert cs'[|cs|] == c;
    if key(c) != "" && key(c) !in st.best {
      NewKeyKeepsDistinct(st.keys, key(c));
    }
  }

  lemma {:induction false} SeenAfterInvariant(key: Candidate -> string, cs: seq<Candidate>)
    ensures SeenInvariant(key, SeenAfter(key, cs), cs)
  {
    if cs != [] {
      SeenAfterInvariant(key, cs[..|cs| - 1]);
      SeenStepInvariant(key, SeenAfter(key, cs[..|cs| - 1]), cs[..|cs| - 1], cs[|cs| - 1]);
      assert cs[..|cs| - 1] + [cs[|cs| - 1]] == cs;
    }
  }

  /** `deduplicateCandidates(candidates)`. */
  method DeduplicateCandidates(candidates: seq<Candidate>) returns (r: seq<Candidate>)
    ensures KeysMatch(SeenAfter(Key, candidates)) && r == Survivors(SeenAfter(Key, candidates))
  {
    var keys: seq<string> := [];
    var best: map<string, Candidate> := map[];
    for i := 0 to |candidates|
      invariant Seen(keys, best) == SeenAfter(Key, candidates[..i])
    {
      assert candidates[..i + 1][..i] == candidates[..i];
      var candidate := candidates[i];
      var normalizedKey := Key(candidate);
      if normalizedKey != "" {
        if normalizedKey !in best {
          keys := keys + [normalizedKey];
          best := best[normalizedKey := candidate];
        } else if Replaces(candidate, best[normalizedKey]) {
          best := best[normalizedKey := candidate];
        }
      }
    }
    assert candidates[..|candidates|] == candidates;
    SeenAfterInvariant(Key, candidates);
    r := seq(|keys|, j requires 0 <= j < |keys| => best[keys[j]]);
  }

  lemma SurvivorsFromInput(key: Candidate -> string, st: Seen, cs: seq<Candidate>)
    requires SeenInvariant(key, st, cs)
    ensures forall i :: 0 <= i < |Survivors(st)| ==> key(Survivors(st)[i]) != "" && Survivors(st)[i] in cs
  {
    var r := Survivors(st);
    forall i | 0 <= i < |r|
      ensures key(r[i]) != "" && r[i] in cs
    {
      assert st.keys[i] in st.best;
    }
  }

  lemma SurvivorsDistinctKeys(key: Candidate -> string, st: Seen, cs: seq<Candidate>)
    requires SeenInvariant(key, st, cs)
    ensures forall i, j :: 0 <= i < j < |Survivors(st)| ==> key(Survivors(st)[i]) != key(Survivors(st)[j])
  {
    var r := Survivors(st);
    forall i, j | 0 <= i < j < |r|
      ensures key(r[i]) != key(r[j])
    {
      assert st.keys[i] in st.best && st.keys[j] in st.best;
      assert key(r[i]) == st.keys[i] && key(r[j]) == st.keys[j];
    }
  }

  lemma SurvivorsCover(key: Candidate -> string, st: Seen, cs: seq<Candidate>)
    requires SeenInvariant(key, st, cs)
    ensures forall j :: 0 <= j < |cs| && key(cs[j]) != "" ==>
      exists i :: 0 <= i < |Survivors(st)| && key(Survivors(st)[i]) == key(cs[j]) && ScoreOrZero(cs[j]) <= ScoreOrZero(Survivors(st)[i])
  {
    var r := Survivors(st);
    forall j | 0 <= j < |cs| && key(cs[j]) != ""
      ensures exists i :: 0 <= i < |r| && key(r[i]) == key(cs[j]) && ScoreOrZero(cs[j]) <= ScoreOrZero(r[i])
    {
      var k := key(cs[j]);
      var i :| 0 <= i < |st.keys| && st.keys[i] == k;
      assert r[i] == st.best[k];
    }
  }

  /**
   * The survivors of deduplication under any key function: one per non-blank
   * key, each taken from the input, each scoring at least as high as every
   * input candidate with its key.
   */
  lemma SurvivorsFacts(key: Candidate -> string, cs: seq<Candidate>)
    ensures KeysMatch(SeenAfter(key, cs))
    ensures var r := Survivors(SeenAfter(key, cs));
      (forall i :: 0 <= i < |r| ==> key(r[i]) != "" && r[i] in cs) &&
      (forall i, j :: 0 <= i < j < |r| ==> key(r[i]) != key(r[j])) &&
      (forall j :: 0 <= j < |cs| && key(cs[j]) != "" ==>
        exists i :: 0 <= i < |r| && key(r[i]) == key(cs[j]) && ScoreOrZero(cs[j]) <= ScoreOrZero(r[i]))
  {
    SeenAfterInvariant(key, cs);
    SurvivorsFromInput(key, SeenAfter(key, cs), cs);
    SurvivorsDistinctKeys(key, SeenAfter(key, cs), cs);
    SurvivorsCover(key, SeenAfter(key, cs), cs);
  }

  /**
   * `deduplicateCandidates` keeps one candidate per non-blank normalised
   * selector, taken from the input, whose score is the highest among the
   * candidates with that selector.
   */
  lemma DeduplicateCandidatesSurvivors(cs: seq<Candidate>)
    ensures KeysMatch(SeenAfter(Key, cs))
    ensures var r := Survivors(SeenAfter(Key, cs));
      (forall i :: 0 <= i < |r| ==> Key(r[i]) != "" && r[i] in cs) &&
      (forall i, j :: 0 <= i < j < |r| ==> Key(r[i]) != Key(r[j])) &&
      (forall j :: 0 <= j < |cs| && Key(cs[j]) != "" ==>
        exists i :: 0 <= i < |r| && Key(r[i]) == Key(cs[j]) && ScoreOrZero(cs[j]) <= ScoreOrZero(r[i]))
  {
    SurvivorsFacts(Key, cs);
  }

  // ---------------------------------------------------------------------
  // Ordering
  // ---------------------------------------------------------------------

  /** The comparator handed to `Array.prototype.sort`; at most zero keeps `a` before `b`. */
  function Compare(a: Candidate, b: Candidate): int
  {
    var ua := if IsUnique(a) then 1 else 0;
    var ub := if IsUnique(b) then 1 else 0;
    if ua != ub then ub - ua
    else if RelativeRank(a) != RelativeRank(b) then RelativeRank(b) - RelativeRank(a)
    else ScoreOrZero(b) - ScoreOrZero(a)
  }

  /** The triple the comparator looks at. */
  datatype Rank = Rank(unique: bool, relative: int, score: int)

  function RankOf(c: Candidate): Rank
  {
    Rank(IsUnique(c), RelativeRank(c), ScoreOrZero(c))
  }

  lemma CompareFacts(a: Candidate, b: Candidate, c: Candidate)
    ensures Compare(a, b) == -Compare(b, a)
    ensures Compare(a, b) == 0 <==> RankOf(a) == RankOf(b)
    ensures Compare(a, b) <= 0 && Compare(b, c) <= 0 ==> Compare(a, c) <= 0
  {
  }

  predicate SortedBy(s: seq<Candidate>)
  {
    forall i, j :: 0 <= i < j < |s| ==> Compare(s[i], s[j]) <= 0
  }

  /** Places `c` before the first element it may precede. */
  function Insert(c: Candidate, s: seq<Candidate>): (r: seq<Candidate>)
    ensures multiset(r) == multiset(s) + multiset{c}
  {
    if s == [] then [c]
    else if Compare(c, s[0]) <= 0 then [c] + s
    else
      assert s == [s[0]] + s[1..];
      [s[0]] + Insert(c, s[1..])
  }

  /** `candidates.slice().sort(comparator)`, a stable sort of a copy. */
  function SortCandidates(candidates: seq<Candidate>): seq<Candidate>
  {
    if candidates == [] then [] else Insert(candidates[0], SortCandidates(candidates[1..]))
  }

  lemma {:induction false} InsertSorted(c: Candidate, s: seq<Candidate>)
    requires SortedBy(s)
    ensures SortedBy(Insert(c, s))
  {
    if s != [] {
      if Compare(c, s[0]) <= 0 {
        forall j | 0 <= j < |s|
          ensures Compare(c, s[j]) <= 0
        {
          CompareFacts(c, s[0], s[j]);
        }
        SortedCons(c, s);
      } else {
        InsertSorted(c, s[1..]);
        var t := Insert(c, s[1..]);
        forall j | 0 <= j < |t|
          ensures Compare(s[0], t[j]) <= 0
        {
          assert t[j] in multiset(t);
          if t[j] == c {
            CompareFacts(c, s[0], c);
          } else {
            assert t[j] in multiset(s[1..]);
            var k :| 0 <= k < |s[1..]| && s[1..][k] == t[j];
            assert s[k + 1] == t[j];
          }
        }
        SortedCons(s[0], t);
      }
    }
  }

  lemma SortedCons(x: Candidate, s: seq<Candidate>)
    requires SortedBy(s)
    requires forall j :: 0 <= j < |s| ==> Compare(x, s[j]) <= 0
    ensures SortedBy([x] + s)
  {
    var r := [x] + s;
    forall i, j | 0 <= i < j < |r|
      ensures Compare(r[i], r[j]) <= 0
    {
      assert r[j] == s[j - 1];
      if i > 0 {
        assert r[i] == s[i - 1];
      }
    }
  }

  /** `sortCandidates` returns a permutation of its input. */
  lemma {:induction false} SortCandidatesPermutes(candidates: seq<Candidate>)
    ensures multiset(SortCandidates(candidates)) == multiset(candidates)
  {
    if candidates != [] {
      SortCandidatesPermutes(candidates[1..]);
      assert candidates == [candidates[0]] + candidates[1..];
    }
  }

  /** `sortCandidates` orders by the comparator. */
  lemma {:induction false} SortCandidatesSorted(candidates: seq<Candidate>)
    ensures SortedBy(SortCandidates(candidates))
  {
    if candidates != [] {
      SortCandidatesSorted(candidates[1..]);
      InsertSorted(candidates[0], SortCandidates(candidates[1..]));
    }
  }

  /** Unique candidates come first. */
  lemma SortCandidatesUniqueFirst(candidates: seq<Candidate>, i: nat, j: nat)
    requires i < j < |SortCandidates(candidates)|
    requires IsUnique(SortCandidates(candidates)[j])
    ensures IsUnique(SortCandidates(candidates)[i])
  {
    SortCandidatesSorted(candidates);
  }

  /** The candidates of one rank, in order. */
  function OfRank(s: seq<Candidate>, k: Rank): seq<Candidate>
  {
    if s == [] then [] else (if RankOf(s[0]) == k then [s[0]] else []) + OfRank(s[1..], k)
  }

  lemma OfRankCons(x: Candidate, t: seq<Candidate>, k: Rank)
    ensures OfRank([x] + t, k) == (if RankOf(x) == k then [x] else []) + OfRank(t, k)
  {
    assert ([x] + t)[1..] == t;
  }

  lemma {:induction false} InsertOfRank(c: Candidate, s: seq<Candidate>, k: Rank)
    ensures OfRank(Insert(c, s), k) == (if RankOf(c) == k then [c] else []) + OfRank(s, k)
  {
    if s == [] {
      OfRankCons(c, [], k);
    } else if Compare(c, s[0]) <= 0 {
      OfRankCons(c, s, k);
    } else {
      CompareFacts(c, s[0], c);
      assert RankOf(c) != RankOf(s[0]);
      InsertOfRank(c, s[1..], k);
      var t := Insert(c, s[1..]);
      OfRankCons(s[0], t, k);
      OfRankCons(s[0], s[1..], k);
      assert [s[0]] + s[1..] == s;
      if RankOf(c) == k {
        assert OfRank(Insert(c, s), k) == [c] + OfRank(s[1..], k);
      } else if RankOf(s[0]) == k {
        assert OfRank(Insert(c, s), k) == [s[0]] + OfRank(s[1..], k);
      }
    }
  }

  /** The sort is stable: candidates that compare equal keep their input order. */
  lemma {:induction false} SortCandidatesStable(candidates: seq<Candidate>, k: Rank)
    ensures OfRank(SortCandidates(candidates), k) == OfRank(candidates, k)
  {
    if candidates != [] {
      SortCandidatesStable(candidates[1..], k);
      InsertOfRank(candidates[0], SortCandidates(candidates[1..]), k);
    }
  }
}
