/**
 * The stable sort behind `array.sort(compare)`. A comparator is modelled by
 * the relation `before(a, b)`, meaning `compare(a, b) <= 0`; for a
 * consistent comparator that relation is a total preorder, and the stable
 * sort is then the insertion sort below. `array.sort((a, b) => key(a) -
 * key(b))`, which the object repository and the healing service use to rank
 * entries by a numeric key, is the case `before(a, b) == key(a) <= key(b)`
 * (a descending sort is the ascending one on the negated key).
 */
module KeySort {

  /** `before` is total and transitive. */
  ghost predicate TotalPreorder<T(!new)>(before: (T, T) -> bool)
  {
    && (forall a, b :: before(a, b) || before(b, a))
    && (forall a, b, c :: before(a, b) && before(b, c) ==> before(a, c))
  }

  /** Every entry comes before every later one. */
  ghost predicate SortedBy<T>(xs: seq<T>, before: (T, T) -> bool)
  {
    forall i, j :: 0 <= i < j < |xs| ==> before(xs[i], xs[j])
  }

  /** Every entry of `xs` comes before `y`. */
  ghost predicate AllBefore<T>(xs: seq<T>, before: (T, T) -> bool, y: T)
  {
    forall e :: e in xs ==> before(e, y)
  }

  /** Inserts `x` after the last entry that comes before it. */
  function InsertBy<T>(xs: seq<T>, x: T, before: (T, T) -> bool): (r: seq<T>)
    ensures multiset(r) == multiset(xs) + multiset{x}
  {
    if xs == [] then [x]
    else if !before(xs[|xs| - 1], x) then
      var r := InsertBy(xs[..|xs| - 1], x, before) + [xs[|xs| - 1]];
      assert xs == xs[..|xs| - 1] + [xs[|xs| - 1]];
      r
    else xs + [x]
  }

  /** The stable insertion sort: entries that compare equal keep their order. */
  function SortBy<T>(xs: seq<T>, before: (T, T) -> bool): seq<T>
  {
    if xs == [] then [] else InsertBy(SortBy(xs[..|xs| - 1], before), xs[|xs| - 1], before)
  }

  /** Inserting an entry that comes before `b` keeps every entry before `b`. */
  lemma InsertAllBefore<T>(xs: seq<T>, x: T, before: (T, T) -> bool, b: T)
    requires AllBefore(xs, before, b) && before(x, b)
    ensures AllBefore(InsertBy(xs, x, before), before, b)
  {
    var r := InsertBy(xs, x, before);
    forall e | e in r ensures before(e, b) {
      assert e in multiset(r);
      if e != x {
        assert e in multiset(xs);
      }
    }
  }

  /** Appending an entry that every other comes before keeps a list sorted. */
  lemma SnocSorted<T>(xs: seq<T>, y: T, before: (T, T) -> bool)
    requires SortedBy(xs, before) && AllBefore(xs, before, y)
    ensures SortedBy(xs + [y], before)
  {
    var r := xs + [y];
    forall i, j | 0 <= i < j < |r| ensures before(r[i], r[j]) {
      if j == |xs| {
        assert r[i] in xs;
      } else {
        assert r[i] == xs[i] && r[j] == xs[j];
      }
    }
  }

  /** Inserting into a sorted list keeps it sorted. */
  lemma {:induction false} InsertSorted<T(!new)>(xs: seq<T>, x: T, before: (T, T) -> bool)
    requires TotalPreorder(before) && SortedBy(xs, before)
    ensures SortedBy(InsertBy(xs, x, before), before)
  {
    if xs == [] {
    } else if !before(xs[|xs| - 1], x) {
      var pre, last := xs[..|xs| - 1], xs[|xs| - 1];
      InsertSorted(pre, x, before);
      assert AllBefore(pre, before, last) by {
        forall e | e in pre ensures before(e, last) {
          var k :| 0 <= k < |pre| && pre[k] == e;
          assert xs[k] == e;
        }
      }
      InsertAllBefore(pre, x, before, last);
      SnocSorted(InsertBy(pre, x, before), last, before);
    } else {
      assert AllBefore(xs, before, x) by {
        forall e | e in xs ensures before(e, x) {
          var k :| 0 <= k < |xs| && xs[k] == e;
          assert before(xs[k], xs[|xs| - 1]) || k == |xs| - 1;
        }
      }
      SnocSorted(xs, x, before);
    }
  }

  /** The sort orders by `before` and keeps every entry, each as often as before. */
  lemma {:induction false} SortByFacts<T(!new)>(xs: seq<T>, before: (T, T) -> bool)
    requires TotalPreorder(before)
    ensures SortedBy(SortBy(xs, before), before)
    ensures multiset(SortBy(xs, before)) == multiset(xs)
  {
    if xs != [] {
      SortByFacts(xs[..|xs| - 1], before);
      InsertSorted(SortBy(xs[..|xs| - 1], before), xs[|xs| - 1], before);
      assert xs == xs[..|xs| - 1] + [xs[|xs| - 1]];
    }
  }

  /** The sort keeps exactly the entries of the list, and their number. */
  lemma SortByMembers<T(!new)>(xs: seq<T>, before: (T, T) -> bool)
    requires TotalPreorder(before)
    ensures |SortBy(xs, before)| == |xs|
    ensures forall e :: e in SortBy(xs, before) <==> e in xs
  {
    SortByFacts(xs, before);
    var s := SortBy(xs, before);
    assert |s| == |multiset(s)| == |multiset(xs)| == |xs|;
    forall e ensures e in s <==> e in xs {
      assert e in s <==> e in multiset(s);
      assert e in xs <==> e in multiset(xs);
    }
  }

  /** `compare(a, b) = key(a) - key(b)`, as a relation. */
  function KeyBefore<T>(key: T -> int): (T, T) -> bool
  {
    (a: T, b: T) => key(a) <= key(b)
  }

  /** A key comparison is a total preorder. */
  lemma KeyBeforeIsPreorder<T(!new)>(key: T -> int)
    ensures TotalPreorder(KeyBefore(key))
  {
  }

  /** Ascending by `key`. */
  ghost predicate SortedByKey<T>(xs: seq<T>, key: T -> int)
  {
    forall i, j :: 0 <= i < j < |xs| ==> key(xs[i]) <= key(xs[j])
  }

  /** `array.sort((a, b) => key(a) - key(b))`. */
  function SortByKey<T>(xs: seq<T>, key: T -> int): seq<T>
  {
    SortBy(xs, KeyBefore(key))
  }

  /** The sort orders by key and keeps every entry, each as often as before. */
  lemma SortByKeyFacts<T(!new)>(xs: seq<T>, key: T -> int)
    ensures SortedByKey(SortByKey(xs, key), key)
    ensures multiset(SortByKey(xs, key)) == multiset(xs)
  {
    KeyBeforeIsPreorder(key);
    SortByFacts(xs, KeyBefore(key));
    var s := SortByKey(xs, key);
    forall i, j | 0 <= i < j < |s| ensures key(s[i]) <= key(s[j]) {
      assert KeyBefore(key)(s[i], s[j]);
    }
  }

  /** A list of one entry is already sorted. */
  lemma SortSingleton<T>(x: T, key: T -> int)
    ensures SortByKey([x], key) == [x]
  {
    assert [x][..0] == [];
    assert SortBy([x], KeyBefore(key)) == InsertBy(SortBy([], KeyBefore(key)), x, KeyBefore(key));
  }

  /**
   * After sorting a non-empty list, the first entry is one of the list's
   * entries and no entry has a smaller key.
   */
  lemma SortedHeadIsLeast<T(!new)>(xs: seq<T>, key: T -> int)
    requires xs != []
    ensures |SortByKey(xs, key)| == |xs|
    ensures SortByKey(xs, key)[0] in xs
    ensures forall e :: e in xs ==> key(SortByKey(xs, key)[0]) <= key(e)
  {
    var s := SortByKey(xs, key);
    SortByKeyFacts(xs, key);
    assert |s| == |multiset(s)| == |multiset(xs)| == |xs|;
    assert s[0] in multiset(s);
    forall e | e in xs ensures key(s[0]) <= key(e) {
      assert e in multiset(xs);
      var k :| 0 <= k < |s| && s[k] == e;
    }
  }

  /**
   * The head after inserting `x`: `x` itself when no entry comes before it,
   * the old head otherwise.
   */
  lemma {:induction false} InsertByHead<T>(ys: seq<T>, x: T, before: (T, T) -> bool)
    requires ys != []
    ensures InsertBy(ys, x, before)[0] == if forall e :: e in ys ==> !before(e, x) then x else ys[0]
  {
    var n := |ys|;
    if !before(ys[n - 1], x) {
      var pre := ys[..n - 1];
      if pre == [] {
        assert ys == [ys[0]];
      } else {
        InsertByHead(pre, x, before);
        assert pre[0] == ys[0];
        assert forall e :: e in ys ==> e in pre || e == ys[n - 1] by {
          assert ys == pre + [ys[n - 1]];
        }
      }
    } else {
      assert ys[n - 1] in ys;
    }
  }

  /**
   * The stable sort by key puts first the earliest of the entries with the
   * smallest key: it has the least key, and every entry before it in the
   * input has a larger one.
   */
  lemma {:induction false} SortedHeadIsFirstLeast<T(!new)>(xs: seq<T>, key: T -> int) returns (i: nat)
    requires xs != []
    ensures i < |xs| && SortByKey(xs, key)[0] == xs[i]
    ensures forall j :: 0 <= j < |xs| ==> key(xs[i]) <= key(xs[j])
    ensures forall j :: 0 <= j < i ==> key(xs[j]) > key(xs[i])
  {
    var n := |xs|;
    var pre, last := xs[..n - 1], xs[n - 1];
    var before := KeyBefore(key);
    assert SortByKey(xs, key) == InsertBy(SortBy(pre, before), last, before);
    if pre == [] {
      i := 0;
    } else {
      var k := SortedHeadIsFirstLeast(pre, key);
      var sorted := SortBy(pre, before);
      KeyBeforeIsPreorder(key);
      SortByMembers(pre, before);
      InsertByHead(sorted, last, before);
      if forall e :: e in sorted ==> !before(e, last) {
        assert pre[k] in sorted;
        i := n - 1;
        forall j | 0 <= j < n - 1 ensures key(xs[j]) > key(last) {
          assert xs[j] == pre[j] && pre[j] in sorted;
          assert !before(pre[j], last);
        }
        LeastAt(xs, key, i);
      } else {
        var e :| e in sorted && before(e, last);
        var m :| 0 <= m < |pre| && pre[m] == e;
        assert key(pre[m]) <= key(last);
        i := k;
        forall j | 0 <= j < n ensures key(xs[k]) <= key(xs[j]) {
          if j < n - 1 {
            assert xs[j] == pre[j];
          }
        }
        forall j | 0 <= j < k ensures key(xs[j]) > key(xs[k]) {
          assert xs[j] == pre[j];
        }
      }
    }
  }

  /** An entry whose key is below that of every entry before it, and no larger than the rest. */
  lemma LeastAt<T>(xs: seq<T>, key: T -> int, i: nat)
    requires i == |xs| - 1
    requires forall j :: 0 <= j < i ==> key(xs[j]) > key(xs[i])
    ensures forall j :: 0 <= j < |xs| ==> key(xs[i]) <= key(xs[j])
  {
  }

  /** The sort keeps exactly the entries of the list. */
  lemma SortKeepsMembers<T(!new)>(xs: seq<T>, key: T -> int)
    ensures forall e :: e in SortByKey(xs, key) <==> e in xs
  {
    KeyBeforeIsPreorder(key);
    SortByMembers(xs, KeyBefore(key));
  }
}
