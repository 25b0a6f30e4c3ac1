/**
 * The ordering both `buildActionTimeline` implementations (the code
 * generator's and the replayer's) apply to their entries:
 * `timeline.sort((a, b) => a.time - b.time || a.sequence - b.sequence)`.
 * The sort itself is the JavaScript library's; it is modelled here as an
 * insertion sort, which yields the same list because no two entries share
 * a sequence number.
 */
module ActionTimeline {

  /** A timeline entry: what happened, when, and its position in the input. */
  datatype Entry<T> = Entry(item: T, time: int, sequence: nat)

  /** The comparator: earlier time first, then lower sequence number. */
  predicate Before<T>(a: Entry<T>, b: Entry<T>)
  {
    a.time < b.time || (a.time == b.time && a.sequence <= b.sequence)
  }

  predicate Ordered<T>(xs: seq<Entry<T>>)
  {
    forall i, j :: 0 <= i < j < |xs| ==> Before(xs[i], xs[j])
  }

  /** Inserting `e` before the first entry it precedes. */
  function Insert<T>(e: Entry<T>, xs: seq<Entry<T>>): (r: seq<Entry<T>>)
    ensures |r| == |xs| + 1
  {
    if xs == [] then [e]
    else if Before(e, xs[0]) then [e] + xs
    else [xs[0]] + Insert(e, xs[1..])
  }

  /** The sorted timeline. */
  function Sort<T>(xs: seq<Entry<T>>): (r: seq<Entry<T>>)
    ensures |r| == |xs|
  {
    if xs == [] then [] else Insert(xs[0], Sort(xs[1..]))
  }

  /** `x` precedes every entry of `xs`. */
  ghost predicate BeforeAll<T>(x: Entry<T>, xs: seq<Entry<T>>)
  {
    forall y :: y in xs ==> Before(x, y)
  }

  lemma ConsOrdered<T>(x: Entry<T>, xs: seq<Entry<T>>)
    requires BeforeAll(x, xs) && Ordered(xs)
    ensures Ordered([x] + xs)
  {
    forall i, j | 0 <= i < j < |[x] + xs|
      ensures Before(([x] + xs)[i], ([x] + xs)[j])
    {
      assert ([x] + xs)[j] == xs[j - 1];
      if i == 0 { assert xs[j - 1] in xs; } else { assert ([x] + xs)[i] == xs[i - 1]; }
    }
  }

  lemma TailOrdered<T>(xs: seq<Entry<T>>)
    requires xs != [] && Ordered(xs)
    ensures Ordered(xs[1..]) && BeforeAll(xs[0], xs[1..])
  {
    var rest := xs[1..];
    forall i, j | 0 <= i < j < |rest| ensures Before(rest[i], rest[j]) {
      assert rest[i] == xs[i + 1] && rest[j] == xs[j + 1];
    }
    forall y | y in rest ensures Before(xs[0], y) {
      var k :| 0 <= k < |rest| && rest[k] == y;
      assert xs[k + 1] == y;
    }
  }

  /** Entries that all follow `x` still do after adding one that follows it. */
  lemma BeforeAllInsert<T>(x: Entry<T>, e: Entry<T>, rest: seq<Entry<T>>, tail: seq<Entry<T>>)
    requires BeforeAll(x, rest) && Before(x, e)
    requires multiset(tail) == multiset(rest) + multiset{e}
    ensures BeforeAll(x, tail)
  {
    forall y | y in tail ensures Before(x, y)
    {
      assert y in multiset(tail);
      if y != e { assert y in multiset(rest); }
    }
  }

  lemma {:induction false} InsertFacts<T>(e: Entry<T>, xs: seq<Entry<T>>)
    requires Ordered(xs)
    ensures Ordered(Insert(e, xs))
    ensures multiset(Insert(e, xs)) == multiset(xs) + multiset{e}
  {
    if xs == [] {
    } else if Before(e, xs[0]) {
      TailOrdered(xs);
      assert BeforeAll(e, xs) by {
        forall y | y in xs ensures Before(e, y) {
          if y != xs[0] { assert y in xs[1..] by { var k :| 0 <= k < |xs| && xs[k] == y; assert xs[1..][k - 1] == y; } }
        }
      }
      ConsOrdered(e, xs);
    } else {
      TailOrdered(xs);
      var rest := xs[1..];
      InsertFacts(e, rest);
      var tail := Insert(e, rest);
      assert xs == [xs[0]] + rest;
      BeforeAllInsert(xs[0], e, rest, tail);
      ConsOrdered(xs[0], tail);
    }
  }

  /** The sort yields an ordered permutation of its input. */
  lemma {:induction false} SortFacts<T>(xs: seq<Entry<T>>)
    ensures Ordered(Sort(xs))
    ensures multiset(Sort(xs)) == multiset(xs)
  {
    if xs != [] {
      SortFacts(xs[1..]);
      InsertFacts(xs[0], Sort(xs[1..]));
      assert xs == [xs[0]] + xs[1..];
    }
  }
}
