/**
 * String and value helpers shared by every module of the model.
 *
 * The recorder and its server are written in JavaScript (one helper in
 * Python); this module fixes, once, the meaning of the library calls they
 * lean on: `startsWith`, `includes`, `indexOf`, `split`, `join`, `trim`,
 * `toLowerCase` and JavaScript truthiness of strings.
 */
module JsStrings {

  datatype Option<T> = None | Some(value: T)
  {
    predicate IsSome() { Some? }
  }

  /** A JavaScript string value that may be missing (`undefined`, `null` or not a string). */
  type JsStr = Option<string>

  /** JavaScript truthiness of a possibly missing string: `undefined`, `null` and `''` are falsy. */
  predicate Truthy(s: JsStr) { s.Some? && s.value != "" }

  /** `a || b` on possibly missing strings. */
  function OrElse(a: JsStr, b: JsStr): (r: JsStr)
    ensures Truthy(a) ==> r == a
    ensures !Truthy(a) ==> r == b
  {
    if Truthy(a) then a else b
  }

  /** The string value of a truthy `JsStr`, or `''`. */
  function OrEmpty(s: JsStr): string { if s.Some? then s.value else "" }

  predicate StartsWith(s: string, p: string) { |p| <= |s| && s[..|p|] == p }

  predicate EndsWith(s: string, p: string) { |p| <= |s| && s[|s| - |p|..] == p }

  /** `p` occurs in `s` starting at index `i`. */
  predicate OccursAt(s: string, p: string, i: nat) { i + |p| <= |s| && s[i..i + |p|] == p }

  /** `\w`. */
  predicate IsWordChar(c: char)
  {
    'a' <= c <= 'z' || 'A' <= c <= 'Z' || '0' <= c <= '9' || c == '_'
  }

  /** A JavaScript string delimiter: `'` or `"`. */
  predicate IsQuote(c: char) { c == '\'' || c == '"' }

  /** `s.includes(p)`. */
  predicate Contains(s: string, p: string) { exists i :: 0 <= i <= |s| && OccursAt(s, p, i) }

  /** A string starts with any prefix of its first part. */
  lemma StartsWithAppend(x: string, y: string, p: string)
    requires StartsWith(x, p)
    ensures StartsWith(x + y, p)
  {
    assert (x + y)[..|p|] == x[..|p|];
  }

  /** Putting the same text in front keeps a prefix. */
  lemma StartsWithPrepend(x: string, s: string, p: string)
    requires StartsWith(s, p)
    ensures StartsWith(x + s, x + p)
  {
    assert (x + s)[..|x + p|] == x + s[..|p|];
  }

  /** A suffix of `s` is a suffix of `x + s`. */
  lemma EndsWithPrepend(x: string, s: string, p: string)
    requires EndsWith(s, p)
    ensures EndsWith(x + s, p)
  {
    assert (x + s)[|x + s| - |p|..] == s[|s| - |p|..];
  }

  lemma ConcatAssoc(a: string, b: string, c: string)
    ensures a + b + c == a + (b + c)
  {
  }

  lemma ContainsExtend(a: string, b: string, p: string)
    requires Contains(a, p)
    ensures Contains(a + b, p)
  {
    var i :| 0 <= i <= |a| && OccursAt(a, p, i);
    assert (a + b)[i..i + |p|] == a[i..i + |p|];
    assert OccursAt(a + b, p, i);
  }

  lemma ContainsMiddle(a: string, p: string, b: string)
    ensures Contains(a + p + b, p)
  {
    assert (a + p + b)[|a|..|a| + |p|] == p;
    assert OccursAt(a + p + b, p, |a|);
  }

  lemma ContainsInPrefix(s: string, k: nat, p: string)
    requires k <= |s| && Contains(s[..k], p)
    ensures Contains(s, p)
  {
    ContainsExtend(s[..k], s[k..], p);
    assert s[..k] + s[k..] == s;
  }

  /** `s.indexOf(c)`: the first index holding `c`, or -1. */
  function IndexOfChar(s: string, c: char): (r: int)
    ensures -1 <= r < |s|
    ensures r >= 0 ==> s[r] == c && c !in s[..r]
    ensures r == -1 <==> c !in s
  {
    if |s| == 0 then -1
    else if s[0] == c then 0
    else
      var k := IndexOfChar(s[1..], c);
      assert s[1..][..if k < 0 then 0 else k] == s[1..if k < 0 then 1 else k + 1];
      if k < 0 then -1 else k + 1
  }

  /** The first index at or after `from` where `p` occurs in `s`, or -1. */
  function IndexOfFrom(s: string, p: string, from: nat): (r: int)
    ensures r == -1 || (from <= r && OccursAt(s, p, r))
    ensures r == -1 ==> forall i :: from <= i <= |s| ==> !OccursAt(s, p, i)
    ensures r >= 0 ==> forall i :: from <= i < r ==> !OccursAt(s, p, i)
    decreases |s| - from
  {
    if from > |s| then -1
    else if OccursAt(s, p, from) then from
    else IndexOfFrom(s, p, from + 1)
  }

  /** `s.indexOf(p)`. */
  function IndexOf(s: string, p: string): (r: int)
    ensures r == -1 <==> !Contains(s, p)
    ensures r >= 0 ==> OccursAt(s, p, r) && forall i :: 0 <= i < r ==> !OccursAt(s, p, i)
  {
    IndexOfFrom(s, p, 0)
  }

  /** `s.split(c)[0]`: everything before the first `c`. */
  function BeforeFirst(s: string, c: char): (r: string)
    ensures c !in r
    ensures StartsWith(s, r)
    ensures r == s || (|r| < |s| && s[|r|] == c)
  {
    var k := IndexOfChar(s, c);
    if k < 0 then s else s[..k]
  }

  /** ECMAScript white space and line terminators: the set matched by `\s` and removed by `trim`. */
  predicate IsJsSpace(c: char)
  {
    SpaceFrom(c, 0)
  }

  /** `c` lies in one of the white-space ranges numbered `k` and above. */
  predicate SpaceFrom(c: char, k: nat)
    decreases 10 - k
  {
    k < 10 && (InSpaceRange(c, k) || SpaceFrom(c, k + 1))
  }

  /** The white-space characters of ECMAScript as ten ranges of code points. */
  predicate InSpaceRange(c: char, k: nat)
  {
    if k == 0 then c == ' '
    else if k == 1 then '\t' <= c <= '\r'
    else if k == 2 then c == '\U{00A0}'
    else if k == 3 then c == '\U{1680}'
    else if k == 4 then '\U{2000}' <= c <= '\U{200A}'
    else if k == 5 then '\U{2028}' <= c <= '\U{2029}'
    else if k == 6 then c == '\U{202F}'
    else if k == 7 then c == '\U{205F}'
    else if k == 8 then c == '\U{3000}'
    else c == '\U{FEFF}'
  }

  /** White space is a space, a control character from tab to carriage return, or lies at or above U+00A0. */
  lemma {:induction false} SpaceFromBounds(c: char, k: nat)
    ensures SpaceFrom(c, k) ==> c == ' ' || ('\t' <= c <= '\r') || c >= '\U{00A0}'
    decreases 10 - k
  {
    if k < 10 {
      SpaceFromBounds(c, k + 1);
    }
  }

  /** No visible ASCII character is white space. */
  lemma VisibleAsciiNotSpace(c: char)
    requires '!' <= c <= '~'
    ensures !IsJsSpace(c)
  {
    SpaceFromBounds(c, 0);
  }

  /** Lower-casing neither creates nor removes white space. */
  lemma LowerCharSpace(c: char)
    ensures IsJsSpace(LowerChar(c)) == IsJsSpace(c)
  {
    if 'A' <= c <= 'Z' {
      VisibleAsciiNotSpace(c);
      VisibleAsciiNotSpace(LowerChar(c));
    }
  }

  function TrimStart(s: string): (r: string)
    ensures |r| <= |s| && r == s[|s| - |r|..]
    ensures r == [] || !IsJsSpace(r[0])
  {
    if |s| > 0 && IsJsSpace(s[0]) then TrimStart(s[1..]) else s
  }

  /** What `TrimStart` removes is white space. */
  lemma {:induction false} TrimStartRemovesSpace(s: string)
    ensures forall i :: 0 <= i < |s| - |TrimStart(s)| ==> IsJsSpace(s[i])
    decreases |s|
  {
    if |s| > 0 && IsJsSpace(s[0]) {
      TrimStartRemovesSpace(s[1..]);
    }
  }

  function TrimEnd(s: string): (r: string)
    ensures |r| <= |s| && r == s[..|r|]
    ensures r == [] || !IsJsSpace(r[|r| - 1])
  {
    if |s| > 0 && IsJsSpace(s[|s| - 1]) then TrimEnd(s[..|s| - 1]) else s
  }

  /** What `TrimEnd` removes is white space. */
  lemma {:induction false} TrimEndRemovesSpace(s: string)
    ensures forall i :: |TrimEnd(s)| <= i < |s| ==> IsJsSpace(s[i])
    decreases |s|
  {
    if |s| > 0 && IsJsSpace(s[|s| - 1]) {
      TrimEndRemovesSpace(s[..|s| - 1]);
    }
  }

  /** `s.trim()`. */
  function Trim(s: string): (r: string)
    ensures r == [] || (!IsJsSpace(r[0]) && !IsJsSpace(r[|r| - 1]))
    ensures |r| <= |s|
  {
    TrimEnd(TrimStart(s))
  }

  /** `s.trim()` is a slice of `s`: the returned index is where it starts. */
  lemma TrimSlice(s: string) returns (k: nat)
    ensures k + |Trim(s)| <= |s|
    ensures forall i :: 0 <= i < |Trim(s)| ==> Trim(s)[i] == s[k + i]
  {
    var u := TrimStart(s);
    var t := Trim(s);
    k := |s| - |u|;
    assert t == TrimEnd(u);
    forall i | 0 <= i < |t| ensures t[i] == s[k + i] {
      assert t[i] == u[i];
    }
  }

  lemma TrimIdempotent(s: string)
    ensures Trim(Trim(s)) == Trim(s)
  {
    var t := Trim(s);
    assert TrimStart(t) == t;
    assert TrimEnd(t) == t;
  }

  lemma TrimOfUnspaced(s: string)
    requires s == [] || (!IsJsSpace(s[0]) && !IsJsSpace(s[|s| - 1]))
    ensures Trim(s) == s
  {
  }

  /** `c.toLowerCase()` on the ASCII letters; every other character is kept. */
  function LowerChar(c: char): (r: char)
    ensures !('A' <= r <= 'Z')
    ensures ('A' <= c <= 'Z') || r == c
  {
    if 'A' <= c <= 'Z' then (c as int + 32) as char else c
  }

  /** `s.toLowerCase()` (ASCII letters only). */
  function Lower(s: string): (r: string)
    ensures |r| == |s|
    ensures forall i :: 0 <= i < |s| ==> r[i] == LowerChar(s[i])
  {
    if s == [] then [] else [LowerChar(s[0])] + Lower(s[1..])
  }

  lemma LowerIdempotent(s: string)
    ensures Lower(Lower(s)) == Lower(s)
  {
    assert forall i :: 0 <= i < |s| ==> LowerChar(LowerChar(s[i])) == LowerChar(s[i]);
  }

  /** `s.toUpperCase()` (ASCII letters only). */
  function Upper(s: string): (r: string)
    ensures |r| == |s|
  {
    if s == [] then []
    else [if 'a' <= s[0] <= 'z' then (s[0] as int - 32) as char else s[0]] + Upper(s[1..])
  }

  /** `parts.join(sep)`. */
  function Join(parts: seq<string>, sep: string): (r: string)
  {
    if |parts| == 0 then ""
    else if |parts| == 1 then parts[0]
    else parts[0] + sep + Join(parts[1..], sep)
  }

  /** `s.split(c)` for a one-character separator: never empty, no piece contains `c`. */
  function Split(s: string, c: char): (r: seq<string>)
    ensures |r| >= 1
    ensures forall i :: 0 <= i < |r| ==> c !in r[i]
    decreases |s|
  {
    var k := IndexOfChar(s, c);
    if k < 0 then [s] else [s[..k]] + Split(s[k + 1..], c)
  }

  /** Joining a list with a head and a non-empty tail. */
  lemma JoinCons(a: string, rest: seq<string>, sep: string)
    requires |rest| >= 1
    ensures Join([a] + rest, sep) == a + sep + Join(rest, sep)
  {
    assert ([a] + rest)[1..] == rest;
  }

  /** Cutting `s` at index `k` and dropping the character there. */
  lemma CutAt(s: string, k: nat)
    requires k < |s|
    ensures s == s[..k] + [s[k]] + s[k + 1..]
  {
    assert s == s[..k] + s[k..];
    assert s[k..] == [s[k]] + s[k + 1..];
  }

  /** `s.split(c).join(c)` gives back `s`. */
  lemma {:induction false} JoinSplit(s: string, c: char)
    ensures Join(Split(s, c), [c]) == s
    decreases |s|
  {
    var k := IndexOfChar(s, c);
    if k < 0 {
      assert Split(s, c) == [s];
    } else {
      var rest := Split(s[k + 1..], c);
      assert Split(s, c) == [s[..k]] + rest;
      JoinCons(s[..k], rest, [c]);
      JoinSplit(s[k + 1..], c);
      CutAt(s, k);
    }
  }

  /** `s.split(sep)` for a non-empty separator string: never empty, no piece contains `sep`. */
  function SplitOn(s: string, sep: string): (r: seq<string>)
    requires sep != ""
    ensures |r| >= 1
    ensures forall i :: 0 <= i < |r| ==> !Contains(r[i], sep)
    decreases |s|
  {
    var k := IndexOf(s, sep);
    if k < 0 then [s]
    else
      assert !Contains(s[..k], sep) by {
        forall i | 0 <= i <= k ensures !OccursAt(s[..k], sep, i) {
          if i + |sep| <= k {
            assert !OccursAt(s, sep, i);
            assert s[..k][i..i + |sep|] == s[i..i + |sep|];
          }
        }
      }
      [s[..k]] + SplitOn(s[k + |sep|..], sep)
  }

  /** `s.split(sep).join(sep)` gives back `s`. */
  lemma {:induction false} JoinSplitOn(s: string, sep: string)
    requires sep != ""
    ensures Join(SplitOn(s, sep), sep) == s
    decreases |s|
  {
    var k := IndexOf(s, sep);
    if k >= 0 {
      var rest := SplitOn(s[k + |sep|..], sep);
      assert SplitOn(s, sep) == [s[..k]] + rest;
      JoinCons(s[..k], rest, sep);
      JoinSplitOn(s[k + |sep|..], sep);
      assert s == s[..k] + s[k..k + |sep|] + s[k + |sep|..];
    }
  }

  /** Splitting a join of `c`-free pieces at `c` gives back the pieces. */
  lemma {:induction false} SplitJoin(parts: seq<string>, c: char)
    requires |parts| >= 1
    requires forall i :: 0 <= i < |parts| ==> c !in parts[i]
    ensures Split(Join(parts, [c]), c) == parts
    decreases |parts|
  {
    var a := parts[0];
    if |parts| > 1 {
      var tail := parts[1..];
      var j := Join(tail, [c]);
      assert parts == [a] + tail;
      JoinCons(a, tail, [c]);
      var s := a + [c] + j;
      IndexOfFirstSeparator(a, [c] + j, c);
      assert a + ([c] + j) == s;
      assert s[..|a|] == a;
      assert s[|a| + 1..] == j;
      SplitJoin(tail, c);
      assert Split(s, c) == [a] + Split(j, c);
    } else {
      IndexOfFirstSeparator(a, [], c);
      assert a + [] == a;
      assert Split(a, c) == [a];
    }
  }

  lemma {:induction false} IndexOfFirstSeparator(a: string, b: string, c: char)
    requires c !in a
    requires b == [] || b[0] == c
    ensures IndexOfChar(a + b, c) == if b == [] then -1 else |a|
    decreases |a|
  {
    if a == [] {
      assert a + b == b;
    } else {
      assert (a + b)[0] == a[0];
      assert (a + b)[1..] == a[1..] + b;
      IndexOfFirstSeparator(a[1..], b, c);
    }
  }

  /** Joining two non-empty runs of pieces puts one separator between them. */
  lemma {:induction false} JoinAppend(a: seq<string>, b: seq<string>, sep: string)
    requires |a| >= 1 && |b| >= 1
    ensures Join(a + b, sep) == Join(a, sep) + sep + Join(b, sep)
    decreases |a|
  {
    if |a| == 1 {
      assert (a + b)[1..] == b;
    } else {
      assert (a + b)[1..] == a[1..] + b;
      JoinAppend(a[1..], b, sep);
    }
  }

  /** `s.replace(/c/g, rep)`: every `c` replaced by `rep`. */
  function ReplaceChar(s: string, c: char, rep: string): (r: string)
    ensures c !in rep ==> c !in r
    ensures c !in s ==> r == s
  {
    if s == [] then [] else (if s[0] == c then rep else [s[0]]) + ReplaceChar(s[1..], c, rep)
  }

  /** Removes every occurrence of `c`. */
  function RemoveChar(s: string, c: char): (r: string)
    ensures c !in r
    ensures |r| <= |s|
    ensures c !in s ==> r == s
  {
    if s == [] then [] else (if s[0] == c then [] else [s[0]]) + RemoveChar(s[1..], c)
  }

  /** Removing one character adds no other. */
  lemma {:induction false} RemoveCharAbsent(s: string, c: char, d: char)
    requires d !in s
    ensures d !in RemoveChar(s, c)
  {
    if s != [] {
      RemoveCharAbsent(s[1..], c, d);
    }
  }

  /** Decimal rendering of a natural number (`String(n)`). */
  function NatToString(n: nat): (r: string)
    ensures |r| >= 1
    ensures forall i :: 0 <= i < |r| ==> '0' <= r[i] <= '9'
    decreases n
  {
    var d := ['0' + (n % 10) as char];
    if n < 10 then d else NatToString(n / 10) + d
  }

  /** Decimal rendering of an integer, with a leading '-' when negative. */
  function IntToString(n: int): (r: string)
  {
    if n < 0 then "-" + NatToString(-n) else NatToString(n)
  }

  predicate IsDigit(c: char) { '0' <= c <= '9' }

  predicate AllDigits(s: string) { |s| >= 1 && forall i :: 0 <= i < |s| ==> IsDigit(s[i]) }

  /** `xs.filter(Boolean)` on strings: the non-empty ones, in order. */
  function FilterNonEmpty(parts: seq<string>): (r: seq<string>)
    ensures forall x :: x in r ==> x != "" && x in parts
  {
    if parts == [] then []
    else (if parts[0] == "" then [] else [parts[0]]) + FilterNonEmpty(parts[1..])
  }

  /** Taking one more element of a sequence appends it. */
  lemma TakeSnoc<T>(xs: seq<T>, n: nat)
    requires n < |xs|
    ensures xs[..n + 1] == xs[..n] + [xs[n]]
  {
  }

  /** The end of the run of non-white-space characters of `s` that covers `k - 1`. */
  function WordEnd(s: string, k: nat): (r: nat)
    requires 1 <= k <= |s|
    ensures k <= r <= |s|
    ensures forall i :: k <= i < r ==> !IsJsSpace(s[i])
    ensures r == |s| || IsJsSpace(s[r])
    decreases |s| - k
  {
    if k == |s| || IsJsSpace(s[k]) then k else WordEnd(s, k + 1)
  }

  /**
   * `s.split(/\s+/).filter(c => c)`: the maximal runs of non-white-space
   * characters, in order.
   */
  function Words(s: string): (r: seq<string>)
    ensures forall w :: w in r ==> w != "" && forall i :: 0 <= i < |w| ==> !IsJsSpace(w[i])
    decreases |s|
  {
    if s == [] then []
    else if IsJsSpace(s[0]) then Words(s[1..])
    else
      var k := WordEnd(s, 1);
      [s[..k]] + Words(s[k..])
  }

  /** A string has no words exactly when it is all white space. */
  lemma {:induction false} WordsOfBlank(s: string)
    ensures Words(s) == [] <==> forall i :: 0 <= i < |s| ==> IsJsSpace(s[i])
    decreases |s|
  {
    if s != [] && IsJsSpace(s[0]) {
      WordsOfBlank(s[1..]);
      assert forall i :: 1 <= i < |s| ==> s[i] == s[1..][i - 1];
    }
  }

  /** Joining non-empty strings gives the empty string only for no strings. */
  lemma {:induction false} JoinNonEmpty(parts: seq<string>, sep: string)
    requires forall p :: p in parts ==> p != ""
    ensures Join(parts, sep) == "" <==> parts == []
  {
    if |parts| >= 2 {
      assert parts[0] in parts;
      assert |Join(parts, sep)| >= |parts[0]|;
    } else if |parts| == 1 {
      assert parts[0] in parts;
    }
  }
}
