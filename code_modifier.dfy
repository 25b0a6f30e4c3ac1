/**
 * Locator replacement in generated Python test code
 * (server/services/codeModifier.js).
 *
 * The three regular expressions of the source are written out as explicit
 * scans with the backtracking behaviour of a JavaScript regex engine:
 *
 *   page-locator   (page\.locator\()(['"])([^'"]*)OLD([^'"]*)\2(\))
 *   any-locator    (\.locator\()(['"])([^'"]*)OLD([^'"]*)\2(\))
 *   find-element   (find_element\([^,]+,\s*)(['"])OLD\2(\))
 *
 * OLD is the extracted old locator taken literally (the source escapes it
 * with escapeRegExp) and the replacement text is inserted literally (the
 * source uses a replacement callback, so `$` in it is not special).
 */
module CodeModifier {
  import opened JsStrings

  /** No quote character in `s[from..to]`. */
  predicate QuoteFreeIn(s: string, from: int, to: int)
    requires 0 <= from <= to <= |s|
  {
    forall t :: from <= t < to ==> !IsQuote(s[t])
  }

  /** The end of the longest quote-free run starting at `j`: what a greedy `[^'"]*` consumes. */
  function QuoteRunEnd(s: string, j: nat): (k: nat)
    requires j <= |s|
    ensures j <= k <= |s| && QuoteFreeIn(s, j, k)
    ensures k == |s| || IsQuote(s[k])
    decreases |s| - j
  {
    if j == |s| || IsQuote(s[j]) then j else QuoteRunEnd(s, j + 1)
  }

  /** A quote-free run that stops at a quote or at the end is the longest one. */
  lemma QuoteRunEndUnique(s: string, j: nat, k: nat)
    requires j <= k <= |s| && QuoteFreeIn(s, j, k)
    requires k == |s| || IsQuote(s[k])
    ensures QuoteRunEnd(s, j) == k
  {
  }

  /** The greedy run reaches past every quote-free stretch that starts where it does. */
  lemma {:induction false} QuoteRunEndCovers(s: string, j: nat, b: nat)
    requires j + b <= |s| && QuoteFreeIn(s, j, j + b)
    ensures QuoteRunEnd(s, j) >= j + b
    decreases b
  {
    if b > 0 {
      assert !IsQuote(s[j]);
      QuoteRunEndCovers(s, j + 1, b - 1);
    }
  }

  // ---------------------------------------------------------------------
  // extractLocatorString
  // ---------------------------------------------------------------------

  /** `lit` is what `['"]([^'"]+)['"]` captures when it matches at position `p`. */
  predicate IsLiteralAt(s: string, p: nat, lit: string)
  {
    p < |s| && IsQuote(s[p]) && |lit| >= 1 && OccursAt(s, lit, p + 1)
    && QuoteFreeIn(s, p + 1, p + 1 + |lit|)
    && p + 1 + |lit| < |s| && IsQuote(s[p + 1 + |lit|])
  }

  /** The scan behind `['"]([^'"]+)['"]` at one position. */
  function LiteralAt(s: string, p: nat): (r: Option<string>)
    requires p <= |s|
  {
    if p < |s| && IsQuote(s[p]) then
      var k := QuoteRunEnd(s, p + 1);
      if k > p + 1 && k < |s| then Some(s[p + 1..k]) else None
    else None
  }

  lemma LiteralAtIff(s: string, p: nat, lit: string)
    requires p <= |s|
    ensures LiteralAt(s, p) == Some(lit) <==> IsLiteralAt(s, p, lit)
  {
    if IsLiteralAt(s, p, lit) {
      QuoteRunEndUnique(s, p + 1, p + 1 + |lit|);
    }
  }

  lemma LiteralAtSound(s: string, p: nat)
    requires p <= |s|
    ensures LiteralAt(s, p).Some? ==> IsLiteralAt(s, p, LiteralAt(s, p).value)
  {
  }

  /** The leftmost position at or after `p` where a quoted literal starts, or -1. */
  function FirstLiteralPos(s: string, p: nat): (r: int)
    requires p <= |s|
    ensures r == -1 || (p <= r < |s| && LiteralAt(s, r).Some?)
    ensures forall q :: p <= q < (if r == -1 then |s| else r) ==> LiteralAt(s, q).None?
    decreases |s| - p
  {
    if p == |s| then -1
    else if LiteralAt(s, p).Some? then p
    else FirstLiteralPos(s, p + 1)
  }

  /** extractLocatorString: the first quoted literal, else the input less one leading '#' or '.'. */
  function ExtractLocatorString(locator: JsStr): (r: JsStr)
    ensures !Truthy(locator) ==> r == None
    ensures Truthy(locator) ==> r.Some?
  {
    if !Truthy(locator) then None
    else
      var s := locator.value;
      var p := FirstLiteralPos(s, 0);
      if p >= 0 then LiteralAt(s, p)
      else if StartsWith(s, "#") || StartsWith(s, ".") then Some(s[1..])
      else Some(s)
  }

  /** With a quoted literal in the expression, the leftmost one is extracted. */
  lemma ExtractTakesFirstLiteral(s: string, p: nat, lit: string)
    requires IsLiteralAt(s, p, lit)
    requires forall q, other :: 0 <= q < p ==> !IsLiteralAt(s, q, other)
    ensures ExtractLocatorString(Some(s)) == Some(lit)
  {
    LiteralAtIff(s, p, lit);
    var f := FirstLiteralPos(s, 0);
    assert 0 <= f <= p;
    LiteralAtSound(s, f);
  }

  /** Without a quoted literal, one leading '#' or '.' is dropped and nothing else changes. */
  lemma ExtractWithoutLiteral(s: string)
    requires s != ""
    requires forall q, other :: !IsLiteralAt(s, q, other)
    ensures ExtractLocatorString(Some(s))
         == Some(if s[0] == '#' || s[0] == '.' then s[1..] else s)
  {
    forall q | 0 <= q < |s| ensures LiteralAt(s, q).None? {
      LiteralAtSound(s, q);
    }
  }

  // ---------------------------------------------------------------------
  // The three patterns
  // ---------------------------------------------------------------------

  /** `Locator(prefix)` is one of the two Playwright patterns; `FindElement` the Selenium one. */
  datatype Pattern = Locator(prefix: string) | FindElement

  const PageLocator: Pattern := Locator("page.locator(")
  const AnyLocator: Pattern := Locator(".locator(")
  const PlaywrightPatterns: seq<Pattern> := [PageLocator, AnyLocator]
  const SeleniumPatterns: seq<Pattern> := [FindElement]
  const FindElementPrefix: string := "find_element("

  /** One match: OLD was found at `hit` and the match ends (exclusively) at `end`. */
  datatype Match = Match(hit: nat, end: nat)

  /**
   * `(pre)(['"])([^'"]*)OLD([^'"]*)\2(\))` matching `s[i..k + 2]` with the
   * first group of `[^'"]*` of length `b` and the closing quote at `k`.
   */
  predicate LocatorShape(s: string, i: nat, pre: string, oldText: string, b: nat, k: nat)
  {
    var j := i + |pre| + 1;
    LocatorOpen(s, i, pre)
    && j + b <= |s| && QuoteFreeIn(s, j, j + b)
    && OccursAt(s, oldText, j + b)
    && j + b + |oldText| <= k && k + 1 < |s| && QuoteFreeIn(s, j + b + |oldText|, k)
    && s[k] == s[j - 1] && s[k + 1] == ')'
  }

  /** `(pre)(['"])` matches at `i`. */
  predicate LocatorOpen(s: string, i: nat, pre: string)
  {
    OccursAt(s, pre, i) && i + |pre| < |s| && IsQuote(s[i + |pre|])
  }

  /** OLD at `h`, then the greedy `[^'"]*`, then the quote `q` and `)`. */
  predicate LocatorCloses(s: string, h: nat, oldText: string, q: char)
  {
    OccursAt(s, oldText, h)
    && var k := QuoteRunEnd(s, h + |oldText|);
       k + 1 < |s| && s[k] == q && s[k + 1] == ')'
  }

  lemma LocatorClosesFromShape(s: string, i: nat, pre: string, oldText: string, b: nat, k: nat)
    requires LocatorShape(s, i, pre, oldText, b, k)
    ensures LocatorCloses(s, i + |pre| + 1 + b, oldText, s[i + |pre|])
    ensures QuoteRunEnd(s, i + |pre| + 1 + b + |oldText|) == k
  {
    QuoteRunEndUnique(s, i + |pre| + 1 + b + |oldText|, k);
  }

  /**
   * Greedy `[^'"]*` before OLD: the quote-free run after the opening quote at
   * `j - 1` is `s[j..j + top]`; try the longest `before` first and give back
   * one character at a time, exactly as the regex engine backtracks. The
   * result is where OLD was found, or -1.
   */
  function LocatorSearch(s: string, j: nat, b: nat, oldText: string, q: char): (h: int)
    requires j + b <= |s|
    ensures h == -1 || (j <= h <= j + b && LocatorCloses(s, h, oldText, q))
    decreases b
  {
    if LocatorCloses(s, j + b, oldText, q) then j + b
    else if b == 0 then -1
    else LocatorSearch(s, j, b - 1, oldText, q)
  }

  function FirstComma(s: string, p: nat): (c: nat)
    requires p <= |s|
    ensures p <= c <= |s| && (c == |s| || s[c] == ',')
    ensures forall t :: p <= t < c ==> s[t] != ','
    decreases |s| - p
  {
    if p == |s| || s[p] == ',' then p else FirstComma(s, p + 1)
  }

  function SpaceRunEnd(s: string, p: nat): (w: nat)
    requires p <= |s|
    ensures p <= w <= |s| && (w == |s| || !IsJsSpace(s[w]))
    ensures forall t :: p <= t < w ==> IsJsSpace(s[t])
    decreases |s| - p
  {
    if p == |s| || !IsJsSpace(s[p]) then p else SpaceRunEnd(s, p + 1)
  }

  /**
   * `(find_element\([^,]+,\s*)(['"])OLD\2(\))` matching `s[i..]` with the
   * comma at `c` and the opening quote at `w`.
   */
  predicate FindElementShape(s: string, i: nat, oldText: string, c: int, w: int)
  {
    var p := i + |FindElementPrefix|;
    OccursAt(s, FindElementPrefix, i) && p < c < |s| && s[c] == ','
    && (forall t :: p <= t < c ==> s[t] != ',')
    && c < w < |s| && (forall t :: c + 1 <= t < w ==> IsJsSpace(s[t])) && IsQuote(s[w])
    && OccursAt(s, oldText, w + 1) && w + 2 + |oldText| < |s|
    && s[w + 1 + |oldText|] == s[w] && s[w + 2 + |oldText|] == ')'
  }

  /** The literal text a pattern starts with. */
  function PatternPrefix(pat: Pattern): string
  {
    match pat
    case Locator(pre) => pre
    case FindElement => FindElementPrefix
  }

  /** Where the search after the opening quote at `i + |pre|` finds OLD, or -1. */
  function LocatorFind(s: string, i: nat, pre: string, oldText: string): (h: int)
    requires LocatorOpen(s, i, pre)
    ensures h == -1 || (i + |pre| + 1 <= h <= QuoteRunEnd(s, i + |pre| + 1) && LocatorCloses(s, h, oldText, s[i + |pre|]))
  {
    LocatorSearch(s, i + |pre| + 1, QuoteRunEnd(s, i + |pre| + 1) - (i + |pre| + 1), oldText, s[i + |pre|])
  }

  /** The scan behind a Playwright pattern at position `i`. */
  function LocatorMatchAt(s: string, i: nat, pre: string, oldText: string): (r: Option<Match>)
    requires i <= |s|
    ensures r.Some? ==> i + |pre| + 1 <= r.value.hit && r.value.hit + |oldText| + 2 <= r.value.end <= |s|
  {
    if LocatorOpen(s, i, pre) then
      var h := LocatorFind(s, i, pre, oldText);
      if h < 0 then None
      else
        var k := QuoteRunEnd(s, h + |oldText|);
        Some(Match(h, k + 2))
    else None
  }

  /** The scan behind the Selenium pattern at position `i`. */
  function FindElementMatchAt(s: string, i: nat, oldText: string): (r: Option<Match>)
    requires i <= |s|
    ensures r.Some? ==> i < r.value.hit && r.value.end == r.value.hit + |oldText| + 2 <= |s|
  {
    var p := i + |FindElementPrefix|;
    if OccursAt(s, FindElementPrefix, i) && p < |s| then
      var c := FirstComma(s, p);
      if p < c < |s| then
        var w := SpaceRunEnd(s, c + 1);
        var e := w + 1 + |oldText|;
        if w < |s| && IsQuote(s[w]) && OccursAt(s, oldText, w + 1) && e + 1 < |s| && s[e] == s[w] && s[e + 1] == ')'
        then Some(Match(w + 1, e + 2))
        else None
      else None
    else None
  }

  /** The scan behind a pattern at position `i`. */
  function MatchAt(s: string, i: nat, pat: Pattern, oldText: string): (r: Option<Match>)
    requires i <= |s|
    ensures r.Some? ==> i <= r.value.hit && r.value.hit + |oldText| <= r.value.end <= |s| && i < r.value.end
  {
    match pat
    case Locator(pre) => LocatorMatchAt(s, i, pre, oldText)
    case FindElement => FindElementMatchAt(s, i, oldText)
  }

  /** Every match starts with the pattern's literal prefix and finds OLD at `hit`. */
  lemma MatchAtFacts(s: string, i: nat, pat: Pattern, oldText: string)
    requires i <= |s| && MatchAt(s, i, pat, oldText).Some?
    ensures var m := MatchAt(s, i, pat, oldText).value;
      OccursAt(s, PatternPrefix(pat), i) && OccursAt(s, oldText, m.hit)
  {
    match pat
    case Locator(pre) => LocatorMatchFacts(s, i, pre, oldText);
    case FindElement => FindElementMatchFacts(s, i, oldText);
  }

  lemma LocatorMatchFacts(s: string, i: nat, pre: string, oldText: string)
    requires i <= |s| && LocatorMatchAt(s, i, pre, oldText).Some?
    ensures var m := LocatorMatchAt(s, i, pre, oldText).value;
      OccursAt(s, pre, i) && OccursAt(s, oldText, m.hit)
  {
    var h := LocatorFind(s, i, pre, oldText);
    var k := QuoteRunEnd(s, h + |oldText|);
    assert LocatorMatchAt(s, i, pre, oldText).value == Match(h, k + 2);
  }

  lemma FindElementMatchFacts(s: string, i: nat, oldText: string)
    requires i <= |s| && FindElementMatchAt(s, i, oldText).Some?
    ensures var m := FindElementMatchAt(s, i, oldText).value;
      OccursAt(s, FindElementPrefix, i) && OccursAt(s, oldText, m.hit)
  {
    var p := i + |FindElementPrefix|;
    var c := FirstComma(s, p);
    var w := SpaceRunEnd(s, c + 1);
    var e := w + 1 + |oldText|;
    assert FindElementMatchAt(s, i, oldText).value == Match(w + 1, e + 2);
  }

  /** A Playwright match has the regex's shape: OLD inside a quoted string argument of the call. */
  lemma LocatorMatchSound(s: string, i: nat, pre: string, oldText: string)
    requires i <= |s|
    requires MatchAt(s, i, Locator(pre), oldText).Some?
    ensures var m := MatchAt(s, i, Locator(pre), oldText).value;
      m.hit >= i + |pre| + 1 && m.end >= 2
      && LocatorShape(s, i, pre, oldText, m.hit - (i + |pre| + 1), m.end - 2)
  {
    assert MatchAt(s, i, Locator(pre), oldText) == LocatorMatchAt(s, i, pre, oldText);
    var h := LocatorFind(s, i, pre, oldText);
    assert LocatorMatchAt(s, i, pre, oldText).value == Match(h, QuoteRunEnd(s, h + |oldText|) + 2);
    LocatorShapeOfSearch(s, i, pre, oldText, h);
  }

  /** Where the backtracking search stops, the regex's shape is present. */
  lemma LocatorShapeOfSearch(s: string, i: nat, pre: string, oldText: string, h: nat)
    requires LocatorOpen(s, i, pre)
    requires i + |pre| + 1 <= h <= QuoteRunEnd(s, i + |pre| + 1)
    requires LocatorCloses(s, h, oldText, s[i + |pre|])
    ensures LocatorShape(s, i, pre, oldText, h - (i + |pre| + 1), QuoteRunEnd(s, h + |oldText|))
  {
    assert QuoteFreeIn(s, i + |pre| + 1, h);
  }

  lemma {:induction false} LocatorSearchComplete(s: string, j: nat, top: nat, b: nat, oldText: string, q: char)
    requires j + top <= |s| && b <= top
    requires LocatorCloses(s, j + b, oldText, q)
    ensures LocatorSearch(s, j, top, oldText, q) >= j + b
    decreases top
  {
    if top > b && !LocatorCloses(s, j + top, oldText, q) {
      LocatorSearchComplete(s, j, top - 1, b, oldText, q);
    }
  }

  /** Whenever the regex shape is present at `i`, the scan matches there, at the latest OLD it can (greedy). */
  lemma LocatorMatchComplete(s: string, i: nat, pre: string, oldText: string, b: nat, k: nat)
    requires i <= |s|
    requires LocatorShape(s, i, pre, oldText, b, k)
    ensures MatchAt(s, i, Locator(pre), oldText).Some?
    ensures MatchAt(s, i, Locator(pre), oldText).value.hit >= i + |pre| + 1 + b
  {
    LocatorFindComplete(s, i, pre, oldText, b, k);
    LocatorMatchAtFound(s, i, pre, oldText);
  }

  lemma LocatorFindComplete(s: string, i: nat, pre: string, oldText: string, b: nat, k: nat)
    requires LocatorShape(s, i, pre, oldText, b, k)
    ensures LocatorFind(s, i, pre, oldText) >= i + |pre| + 1 + b
  {
    LocatorClosesFromShape(s, i, pre, oldText, b, k);
    LocatorFindSearches(s, i, pre, oldText);
    SearchFromRunEnd(s, i + |pre| + 1, b, oldText, s[i + |pre|]);
  }

  /** Searching back from the end of the quote-free run finds OLD no earlier than any place it closes the string. */
  lemma SearchFromRunEnd(s: string, j: nat, b: nat, oldText: string, q: char)
    requires j + b <= |s| && QuoteFreeIn(s, j, j + b)
    requires LocatorCloses(s, j + b, oldText, q)
    ensures LocatorSearch(s, j, QuoteRunEnd(s, j) - j, oldText, q) >= j + b
  {
    QuoteRunEndCovers(s, j, b);
    LocatorSearchComplete(s, j, QuoteRunEnd(s, j) - j, b, oldText, q);
  }

  /** The search runs back from the end of the quote-free run after the opening quote. */
  lemma LocatorFindSearches(s: string, i: nat, pre: string, oldText: string)
    requires LocatorOpen(s, i, pre)
    ensures var j := i + |pre| + 1;
      LocatorFind(s, i, pre, oldText) == LocatorSearch(s, j, QuoteRunEnd(s, j) - j, oldText, s[i + |pre|])
  {
  }

  /** When the backtracking search finds OLD, the pattern matches with OLD where the search found it. */
  lemma LocatorMatchAtFound(s: string, i: nat, pre: string, oldText: string)
    requires i <= |s| && LocatorOpen(s, i, pre)
    requires LocatorFind(s, i, pre, oldText) >= 0
    ensures MatchAt(s, i, Locator(pre), oldText).Some?
    ensures MatchAt(s, i, Locator(pre), oldText).value.hit == LocatorFind(s, i, pre, oldText)
  {
    assert MatchAt(s, i, Locator(pre), oldText) == LocatorMatchAt(s, i, pre, oldText);
  }

  /** Whenever the Selenium regex's shape is present at `i`, the scan matches there with that comma and quote. */
  lemma FindElementComplete(s: string, i: nat, oldText: string, c: int, w: int)
    requires i <= |s|
    requires FindElementShape(s, i, oldText, c, w)
    ensures MatchAt(s, i, FindElement, oldText)
         == Some(Match(w + 1, w + 3 + |oldText|))
  {
    FirstCommaAt(s, i + |FindElementPrefix|, c);
    assert !IsJsSpace(s[w]);
    SpaceRunEndAt(s, c + 1, w);
    assert MatchAt(s, i, FindElement, oldText) == FindElementMatchAt(s, i, oldText);
  }

  lemma {:induction false} FirstCommaAt(s: string, p: nat, c: nat)
    requires p <= c < |s| && s[c] == ','
    requires forall t :: p <= t < c ==> s[t] != ','
    ensures FirstComma(s, p) == c
    decreases c - p
  {
    if p < c {
      FirstCommaAt(s, p + 1, c);
    }
  }

  lemma {:induction false} SpaceRunEndAt(s: string, p: nat, w: nat)
    requires p <= w < |s| && !IsJsSpace(s[w])
    requires forall t :: p <= t < w ==> IsJsSpace(s[t])
    ensures SpaceRunEnd(s, p) == w
    decreases w - p
  {
    if p < w {
      SpaceRunEndAt(s, p + 1, w);
    }
  }

  /** A Selenium match has the regex's shape: the quoted second argument is exactly OLD. */
  lemma FindElementSound(s: string, i: nat, oldText: string)
    requires i <= |s|
    requires MatchAt(s, i, FindElement, oldText).Some?
    ensures i + |FindElementPrefix| <= |s|
    ensures var c := FirstComma(s, i + |FindElementPrefix|);
      c < |s| && FindElementShape(s, i, oldText, c, SpaceRunEnd(s, c + 1))
  {
    assert MatchAt(s, i, FindElement, oldText) == FindElementMatchAt(s, i, oldText);
    var p := i + |FindElementPrefix|;
    var c := FirstComma(s, p);
    var w := SpaceRunEnd(s, c + 1);
    assert FindElementShape(s, i, oldText, c, w);
  }

  // ---------------------------------------------------------------------
  // RegExp.prototype.test and String.prototype.replace with the g flag
  // ---------------------------------------------------------------------

  /** A match starts somewhere in `s[i..]`. */
  predicate MatchesFrom(s: string, i: nat, pat: Pattern, oldText: string)
    requires i <= |s|
    decreases |s| - i
  {
    i < |s| && (MatchAt(s, i, pat, oldText).Some? || MatchesFrom(s, i + 1, pat, oldText))
  }

  /** `pattern.test(s)`. */
  predicate Matches(s: string, pat: Pattern, oldText: string)
  {
    MatchesFrom(s, 0, pat, oldText)
  }

  lemma {:induction false} MatchesFromWitness(s: string, i: nat, pat: Pattern, oldText: string)
    returns (j: nat)
    requires i <= |s| && MatchesFrom(s, i, pat, oldText)
    ensures i <= j < |s| && MatchAt(s, j, pat, oldText).Some?
    decreases |s| - i
  {
    if MatchAt(s, i, pat, oldText).Some? {
      j := i;
    } else {
      j := MatchesFromWitness(s, i + 1, pat, oldText);
    }
  }

  lemma {:induction false} MatchesFromOf(s: string, i: nat, j: nat, pat: Pattern, oldText: string)
    requires i <= j < |s| && MatchAt(s, j, pat, oldText).Some?
    ensures MatchesFrom(s, i, pat, oldText)
    decreases j - i
  {
    if i < j {
      MatchesFromOf(s, i + 1, j, pat, oldText);
    }
  }

  /** `pattern.test(s)` holds exactly when the pattern matches at some position of `s`. */
  lemma MatchesIff(s: string, pat: Pattern, oldText: string)
    ensures Matches(s, pat, oldText)
        <==> exists j :: 0 <= j < |s| && MatchAt(s, j, pat, oldText).Some?
  {
    if Matches(s, pat, oldText) {
      var j := MatchesFromWitness(s, 0, pat, oldText);
    }
    forall j | 0 <= j < |s| && MatchAt(s, j, pat, oldText).Some?
      ensures Matches(s, pat, oldText)
    {
      MatchesFromOf(s, 0, j, pat, oldText);
    }
  }

  /**
   * `s.replace(pattern, callback)` from position `i`: the leftmost match is
   * replaced, then the scan resumes after it. The callback reassembles its
   * groups around the new locator, so its result is the matched text with
   * the OLD at `hit` swapped for `newText` and every other character kept.
   */
  function ReplaceAllFrom(s: string, i: nat, pat: Pattern, oldText: string, newText: string): string
    requires i <= |s|
    decreases |s| - i
  {
    if i == |s| then ""
    else
      match MatchAt(s, i, pat, oldText)
      case Some(m) => s[i..m.hit] + newText + s[m.hit + |oldText|..m.end] + ReplaceAllFrom(s, m.end, pat, oldText, newText)
      case None => [s[i]] + ReplaceAllFrom(s, i + 1, pat, oldText, newText)
  }

  function ReplaceAll(s: string, pat: Pattern, oldText: string, newText: string): string
  {
    ReplaceAllFrom(s, 0, pat, oldText, newText)
  }

  lemma {:induction false} ReplaceAllFromNoMatch(s: string, i: nat, pat: Pattern, oldText: string, newText: string)
    requires i <= |s|
    requires !MatchesFrom(s, i, pat, oldText)
    ensures ReplaceAllFrom(s, i, pat, oldText, newText) == s[i..]
    decreases |s| - i
  {
    if i < |s| {
      ReplaceAllFromNoMatch(s, i + 1, pat, oldText, newText);
      assert s[i..] == [s[i]] + s[i + 1..];
    }
  }

  /** A pattern that does not match leaves the text as it is. */
  lemma ReplaceAllNoMatch(s: string, pat: Pattern, oldText: string, newText: string)
    requires !Matches(s, pat, oldText)
    ensures ReplaceAll(s, pat, oldText, newText) == s
  {
    ReplaceAllFromNoMatch(s, 0, pat, oldText, newText);
  }

  /** The three patterns of the source; each one's literal prefix ends with the call's '('. */
  predicate IsSourcePattern(pat: Pattern)
  {
    pat == PageLocator || pat == AnyLocator || pat == FindElement
  }

  /** Text without '(' is matched by none of the source's patterns. */
  lemma NoParenNoMatch(s: string, pat: Pattern, oldText: string)
    requires IsSourcePattern(pat)
    requires '(' !in s
    ensures !Matches(s, pat, oldText)
  {
    var pre := PatternPrefix(pat);
    var t := |pre| - 1;
    assert pre[t] == '(';
    forall i | 0 <= i < |s| ensures MatchAt(s, i, pat, oldText).None? {
      MatchNeedsPrefix(s, i, pat, oldText, t);
    }
    MatchesIff(s, pat, oldText);
  }

  lemma MatchNeedsPrefix(s: string, i: nat, pat: Pattern, oldText: string, t: nat)
    requires i <= |s| && t < |PatternPrefix(pat)|
    ensures MatchAt(s, i, pat, oldText).Some? ==> i + t < |s| && s[i + t] == PatternPrefix(pat)[t]
  {
    if MatchAt(s, i, pat, oldText).Some? {
      MatchAtFacts(s, i, pat, oldText);
      assert s[i..i + |PatternPrefix(pat)|][t] == PatternPrefix(pat)[t];
    }
  }

  // ---------------------------------------------------------------------
  // "for (const pattern of patterns) { if (pattern.test(t)) { ...; break; } }"
  // ---------------------------------------------------------------------

  /** The index of the first `true` in `bs`, or `|bs|` when there is none. */
  function FirstTrue(bs: seq<bool>): (t: nat)
    ensures t <= |bs| && (t < |bs| ==> bs[t])
    ensures forall u :: 0 <= u < t ==> !bs[u]
  {
    if bs == [] || bs[0] then 0 else 1 + FirstTrue(bs[1..])
  }

  lemma {:induction false} FirstTrueUnique(bs: seq<bool>, t: nat)
    requires t <= |bs| && (t < |bs| ==> bs[t])
    requires forall u :: 0 <= u < t ==> !bs[u]
    ensures FirstTrue(bs) == t
  {
    if bs != [] && !bs[0] {
      assert t > 0;
      FirstTrueUnique(bs[1..], t - 1);
    }
  }

  /** `pattern.test(test)` for each pattern of a family, in order. */
  function Tests(test: string, pats: seq<Pattern>, oldText: string): (bs: seq<bool>)
    ensures |bs| == |pats|
    ensures forall u :: 0 <= u < |pats| ==> bs[u] == Matches(test, pats[u], oldText)
  {
    seq(|pats|, u requires 0 <= u < |pats| => Matches(test, pats[u], oldText))
  }

  /** The first pattern of `pats` that `test` matches is applied to `target`; none matching leaves it. */
  function ApplyFirst(test: string, target: string, pats: seq<Pattern>, oldText: string, newText: string): string
  {
    var t := FirstTrue(Tests(test, pats, oldText));
    if t < |pats| then ReplaceAll(target, pats[t], oldText, newText) else target
  }

  /** Only the first matching pattern of a family is applied. */
  lemma ApplyFirstPicksFirstMatching(test: string, target: string, pats: seq<Pattern>,
                                     oldText: string, newText: string, t: nat)
    requires t < |pats| && Matches(test, pats[t], oldText)
    requires forall u :: 0 <= u < t ==> !Matches(test, pats[u], oldText)
    ensures ApplyFirst(test, target, pats, oldText, newText) == ReplaceAll(target, pats[t], oldText, newText)
  {
    var bs := Tests(test, pats, oldText);
    assert bs[t];
    forall u | 0 <= u < t ensures !bs[u] { }
    FirstTrueUnique(bs, t);
  }

  /** When no pattern of the family matches, the target is returned untouched. */
  lemma ApplyFirstNoneMatching(test: string, target: string, pats: seq<Pattern>,
                               oldText: string, newText: string)
    requires forall u :: 0 <= u < |pats| ==> !Matches(test, pats[u], oldText)
    ensures ApplyFirst(test, target, pats, oldText, newText) == target
  {
    var bs := Tests(test, pats, oldText);
    forall u | 0 <= u < |pats| ensures !bs[u] { }
    FirstTrueUnique(bs, |pats|);
  }

  /** The loop of the source over one pattern family, with its `break` on the first pattern that tests true. */
  method ApplyFirstMatching(test: string, target: string, pats: seq<Pattern>, oldText: string, newText: string)
    returns (out: string)
    ensures out == ApplyFirst(test, target, pats, oldText, newText)
  {
    out := target;
    var k := 0;
    while k < |pats|
      invariant 0 <= k <= |pats|
      invariant out == target
      invariant forall u :: 0 <= u < k ==> !Matches(test, pats[u], oldText)
    {
      if Matches(test, pats[k], oldText) {
        out := ReplaceAll(target, pats[k], oldText, newText);
        ApplyFirstPicksFirstMatching(test, target, pats, oldText, newText, k);
        return;
      }
      k := k + 1;
    }
    ApplyFirstNoneMatching(test, target, pats, oldText, newText);
  }

  // ---------------------------------------------------------------------
  // replaceLocatorWithRegex
  // ---------------------------------------------------------------------

  /** `lineNumber && lineNumber > 0 && lineNumber <= lines.length`. */
  predicate InWindowRange(lineNumber: Option<int>, n: nat)
  {
    lineNumber.Some? && 0 < lineNumber.value <= n
  }

  /** `Math.max(0, lineNumber - 10)`. */
  function WindowStart(lineNumber: int): nat { if lineNumber - 10 > 0 then lineNumber - 10 else 0 }

  /** `Math.min(lines.length, lineNumber + 10)`. */
  function WindowEnd(lineNumber: int, n: nat): nat { if 0 <= lineNumber + 10 < n then lineNumber + 10 else n }

  lemma WindowBounds(lineNumber: int, n: nat)
    requires 0 < lineNumber <= n
    ensures WindowStart(lineNumber) < lineNumber <= WindowEnd(lineNumber, n) <= n
  {
  }

  /** The window's text after both pattern families: Playwright matched and applied on the window, Selenium matched on the ORIGINAL window and applied to the edited one. */
  function EditWindow(contextCode: string, oldText: string, newText: string): string
  {
    var pw := ApplyFirst(contextCode, contextCode, PlaywrightPatterns, oldText, newText);
    ApplyFirst(contextCode, pw, SeleniumPatterns, oldText, newText)
  }

  /** Whole-file edit: each family is matched against the current text and applied to it. */
  function EditWhole(code: string, oldText: string, newText: string): string
  {
    var pw := ApplyFirst(code, code, PlaywrightPatterns, oldText, newText);
    ApplyFirst(pw, pw, SeleniumPatterns, oldText, newText)
  }

  /** `[before, modified, after].filter(Boolean).join('\n')`, as the source reassembles the file. */
  function JoinNonEmpty(parts: seq<string>): string
  {
    Join(FilterNonEmpty(parts), "\n")
  }

  /** The rewrite of the code text as the source writes it, with the reassembly of line 115. */
  function RewriteAsWritten(code: string, oldText: string, newText: string, lineNumber: Option<int>): string
  {
    var lines := Split(code, '\n');
    if InWindowRange(lineNumber, |lines|) then
      var start := WindowStart(lineNumber.value);
      var end := WindowEnd(lineNumber.value, |lines|);
      WindowBounds(lineNumber.value, |lines|);
      var modified := EditWindow(Join(lines[start..end], "\n"), oldText, newText);
      JoinNonEmpty([Join(lines[..start], "\n"), modified, Join(lines[end..], "\n")])
    else EditWhole(code, oldText, newText)
  }

  /** The window's edited text put back between the untouched lines before and after it. */
  function Reassemble(lines: seq<string>, start: nat, end: nat, modified: string): string
    requires start < end <= |lines|
  {
    Join(lines[..start] + [modified] + lines[end..], "\n")
  }

  /** The rewrite with the reassembly corrected: empty lines around the window are kept. */
  function Rewrite(code: string, oldText: string, newText: string, lineNumber: Option<int>): string
  {
    var lines := Split(code, '\n');
    if InWindowRange(lineNumber, |lines|) then
      var start := WindowStart(lineNumber.value);
      var end := WindowEnd(lineNumber.value, |lines|);
      WindowBounds(lineNumber.value, |lines|);
      Reassemble(lines, start, end, EditWindow(Join(lines[start..end], "\n"), oldText, newText))
    else EditWhole(code, oldText, newText)
  }

  /** replaceLocatorWithRegex as a value: guards, locator extraction, then the rewrite. */
  function ReplaceLocator(code: JsStr, oldLocator: JsStr, newLocator: JsStr, lineNumber: Option<int>): (r: JsStr)
    ensures !Truthy(code) || !Truthy(oldLocator) || !Truthy(newLocator) ==> r == code
    ensures Truthy(code) && Truthy(oldLocator) && Truthy(newLocator)
            && (!Truthy(ExtractLocatorString(oldLocator)) || !Truthy(ExtractLocatorString(newLocator)))
            ==> r == code
    ensures Truthy(code) ==> r.Some?
  {
    if !Truthy(code) || !Truthy(oldLocator) || !Truthy(newLocator) then code
    else
      var oldPattern := ExtractLocatorString(oldLocator);
      var newPattern := ExtractLocatorString(newLocator);
      if !Truthy(oldPattern) || !Truthy(newPattern) then code
      else Some(RewriteAsWritten(code.value, oldPattern.value, newPattern.value, lineNumber))
  }

  /**
   * replaceLocatorWithRegex: the pattern-family loops of the source, with the
   * window put back as the source does it, dropping empty parts.
   */
  method ReplaceLocatorWithRegex(code: JsStr, oldLocator: JsStr, newLocator: JsStr, lineNumber: Option<int>)
    returns (r: JsStr)
    ensures r == ReplaceLocator(code, oldLocator, newLocator, lineNumber)
  {
    if !Truthy(code) || !Truthy(oldLocator) || !Truthy(newLocator) {
      return code;
    }
    var lines := Split(code.value, '\n');
    var oldPattern := ExtractLocatorString(oldLocator);
    var newPattern := ExtractLocatorString(newLocator);
    if !Truthy(oldPattern) || !Truthy(newPattern) {
      return code;
    }
    var oldText, newText := oldPattern.value, newPattern.value;
    var modifiedCode := code.value;
    if InWindowRange(lineNumber, |lines|) {
      var start := WindowStart(lineNumber.value);
      var end := WindowEnd(lineNumber.value, |lines|);
      WindowBounds(lineNumber.value, |lines|);
      var contextCode := Join(lines[start..end], "\n");
      var modifiedContext := ApplyFirstMatching(contextCode, contextCode, PlaywrightPatterns, oldText, newText);
      modifiedContext := ApplyFirstMatching(contextCode, modifiedContext, SeleniumPatterns, oldText, newText);
      var beforeContext := Join(lines[..start], "\n");
      var afterContext := Join(lines[end..], "\n");
      modifiedCode := JoinNonEmpty([beforeContext, modifiedContext, afterContext]);
    } else {
      modifiedCode := ApplyFirstMatching(modifiedCode, modifiedCode, PlaywrightPatterns, oldText, newText);
      modifiedCode := ApplyFirstMatching(modifiedCode, modifiedCode, SeleniumPatterns, oldText, newText);
    }
    r := Some(modifiedCode);
  }

  // ---------------------------------------------------------------------
  // What the rewrite keeps
  // ---------------------------------------------------------------------

  lemma {:induction false} JoinOfWindow(lines: seq<string>, start: nat, end: nat)
    requires start < end <= |lines|
    ensures Reassemble(lines, start, end, Join(lines[start..end], "\n")) == Join(lines, "\n")
  {
    var a, w, b := lines[..start], lines[start..end], lines[end..];
    assert lines == a + w + b;
    var joined := Join(w, "\n");
    if a == [] && b == [] {
      assert a + [joined] + b == [joined];
      assert w == lines;
    } else if a == [] {
      assert a + [joined] + b == [joined] + b;
      JoinAppend([joined], b, "\n");
      JoinAppend(w, b, "\n");
      assert a + w + b == w + b;
    } else if b == [] {
      assert a + [joined] + b == a + [joined];
      JoinAppend(a, [joined], "\n");
      JoinAppend(a, w, "\n");
      assert a + w + b == a + w;
    } else {
      JoinAppend(a + [joined], b, "\n");
      JoinAppend(a, [joined], "\n");
      JoinAppend(a + w, b, "\n");
      JoinAppend(a, w, "\n");
    }
  }

  /** With a window, every line before it and every line after it is copied back unchanged. */
  lemma RewriteKeepsLinesOutsideWindow(code: string, oldText: string, newText: string, lineNumber: int)
    requires InWindowRange(Some(lineNumber), |Split(code, '\n')|)
    ensures var lines := Split(code, '\n');
      var start := WindowStart(lineNumber);
      var end := WindowEnd(lineNumber, |lines|);
      var r := Rewrite(code, oldText, newText, Some(lineNumber));
      start < end
      && (start > 0 ==> StartsWith(r, Join(lines[..start], "\n") + "\n"))
      && (end < |lines| ==> EndsWith(r, "\n" + Join(lines[end..], "\n")))
  {
    var lines := Split(code, '\n');
    var start := WindowStart(lineNumber);
    var end := WindowEnd(lineNumber, |lines|);
    WindowBounds(lineNumber, |lines|);
    var modified := EditWindow(Join(lines[start..end], "\n"), oldText, newText);
    assert Rewrite(code, oldText, newText, Some(lineNumber)) == Join(lines[..start] + [modified] + lines[end..], "\n");
    JoinKeepsNeighbours(lines[..start], modified, lines[end..]);
  }

  /** Joining lines around a middle part keeps the lines before it as a prefix and those after it as a suffix. */
  lemma JoinKeepsNeighbours(a: seq<string>, m: string, b: seq<string>)
    ensures a != [] ==> StartsWith(Join(a + [m] + b, "\n"), Join(a, "\n") + "\n")
    ensures b != [] ==> EndsWith(Join(a + [m] + b, "\n"), "\n" + Join(b, "\n"))
  {
    var r := Join(a + [m] + b, "\n");
    if a != [] {
      JoinAppend(a, [m] + b, "\n");
      assert a + [m] + b == a + ([m] + b);
      var head := Join(a, "\n") + "\n";
      assert r == head + Join([m] + b, "\n");
      assert r[..|head|] == head;
    }
    if b != [] {
      JoinAppend(a + [m], b, "\n");
      var tail := "\n" + Join(b, "\n");
      assert r == Join(a + [m], "\n") + tail;
      assert r[|r| - |tail|..] == tail;
    }
  }

  /** A line number that is absent or out of range edits the whole file, exactly as no line number does, as written and corrected alike. */
  lemma OutOfRangeLineEditsWholeFile(code: string, oldText: string, newText: string, lineNumber: Option<int>)
    requires !InWindowRange(lineNumber, |Split(code, '\n')|)
    ensures Rewrite(code, oldText, newText, lineNumber) == EditWhole(code, oldText, newText)
    ensures Rewrite(code, oldText, newText, lineNumber) == Rewrite(code, oldText, newText, None)
    ensures RewriteAsWritten(code, oldText, newText, lineNumber) == EditWhole(code, oldText, newText)
    ensures RewriteAsWritten(code, oldText, newText, lineNumber) == RewriteAsWritten(code, oldText, newText, None)
  {
  }

  /**
   * The source's reassembly and the corrected one agree when no line of the
   * file is empty and the edited window is not empty; without a window both
   * edit the whole file.
   */
  lemma RewriteAsWrittenAgrees(code: string, oldText: string, newText: string, lineNumber: Option<int>)
    requires forall i :: 0 <= i < |Split(code, '\n')| ==> Split(code, '\n')[i] != ""
    requires InWindowRange(lineNumber, |Split(code, '\n')|) ==>
      var lines := Split(code, '\n');
      EditWindow(Join(lines[WindowStart(lineNumber.value)..WindowEnd(lineNumber.value, |lines|)], "\n"), oldText, newText) != ""
    ensures RewriteAsWritten(code, oldText, newText, lineNumber) == Rewrite(code, oldText, newText, lineNumber)
  {
    var lines := Split(code, '\n');
    if InWindowRange(lineNumber, |lines|) {
      var start := WindowStart(lineNumber.value);
      var end := WindowEnd(lineNumber.value, |lines|);
      WindowBounds(lineNumber.value, |lines|);
      var modified := EditWindow(Join(lines[start..end], "\n"), oldText, newText);
      NoEmptyLinesJoin(lines[..start]);
      NoEmptyLinesJoin(lines[end..]);
      JoinNonEmptyAgrees(lines[..start], modified, lines[end..]);
    }
  }

  /** Lines none of which is empty join to a non-empty text, unless there are none. */
  lemma NoEmptyLinesJoin(lines: seq<string>)
    requires forall i :: 0 <= i < |lines| ==> lines[i] != ""
    ensures lines != [] ==> Join(lines, "\n") != ""
  {
    if lines != [] {
      JoinNonEmptyFirst(lines);
    }
  }

  /** `[x, m, y].filter(Boolean)` for a non-empty middle part. */
  lemma FilterThree(x: string, m: string, y: string)
    requires m != ""
    ensures FilterNonEmpty([x, m, y]) == (if x == "" then [] else [x]) + [m] + (if y == "" then [] else [y])
  {
    assert [x, m, y][1..] == [m, y] && [m, y][1..] == [y] && [y][1..] == [];
    assert FilterNonEmpty([y]) == (if y == "" then [] else [y]) + FilterNonEmpty([]);
    assert FilterNonEmpty([m, y]) == [m] + FilterNonEmpty([y]);
  }

  /** Dropping empty parts changes nothing when the middle part and every present neighbour run are non-empty. */
  lemma JoinNonEmptyAgrees(a: seq<string>, m: string, b: seq<string>)
    requires m != ""
    requires a != [] ==> Join(a, "\n") != ""
    requires b != [] ==> Join(b, "\n") != ""
    ensures JoinNonEmpty([Join(a, "\n"), m, Join(b, "\n")]) == Join(a + [m] + b, "\n")
  {
    var x, y := Join(a, "\n"), Join(b, "\n");
    var parts := [x, m, y];
    FilterThree(x, m, y);
    if a == [] && b == [] {
      assert FilterNonEmpty(parts) == [m];
      assert a + [m] + b == [m];
    } else if a == [] {
      assert FilterNonEmpty(parts) == [m, y];
      assert a + [m] + b == [m] + b;
      JoinAppend([m], b, "\n");
      assert Join([m, y], "\n") == m + "\n" + y;
    } else if b == [] {
      assert FilterNonEmpty(parts) == [x, m];
      assert a + [m] + b == a + [m];
      JoinAppend(a, [m], "\n");
      assert Join([x, m], "\n") == x + "\n" + m;
    } else {
      assert FilterNonEmpty(parts) == [x, m, y];
      JoinAppend(a, [m] + b, "\n");
      JoinAppend([m], b, "\n");
      assert a + [m] + b == a + ([m] + b);
      assert Join([x, m, y], "\n") == x + "\n" + (m + "\n" + y);
    }
  }

  // ---------------------------------------------------------------------
  // The reassembly of the source drops an empty last line
  // ---------------------------------------------------------------------

  lemma {:induction false} JoinAvoids(parts: seq<string>, sep: string, c: char)
    requires c !in sep
    requires forall i :: 0 <= i < |parts| ==> c !in parts[i]
    ensures c !in Join(parts, sep)
    decreases |parts|
  {
    if |parts| > 1 {
      JoinAvoids(parts[1..], sep, c);
    }
  }

  /** Without '(' in the window, the window's edit changes nothing. */
  lemma EditWindowWithoutParen(ctx: string, oldText: string, newText: string)
    requires '(' !in ctx
    ensures EditWindow(ctx, oldText, newText) == ctx
  {
    forall pat | IsSourcePattern(pat) ensures !Matches(ctx, pat, oldText) {
      NoParenNoMatch(ctx, pat, oldText);
    }
    ApplyFirstNoneMatching(ctx, ctx, PlaywrightPatterns, oldText, newText);
    ApplyFirstNoneMatching(ctx, ctx, SeleniumPatterns, oldText, newText);
  }

  /** Lines without '\n' or '(' followed by an empty last line: the text's lines, and the text of all but the last. */
  lemma FinalNewlineCode(body: seq<string>)
    requires |body| >= 1 && body[0] != ""
    requires forall i :: 0 <= i < |body| ==> '\n' !in body[i] && '(' !in body[i]
    ensures Split(Join(body + [""], "\n"), '\n') == body + [""]
    ensures Join(body + [""], "\n") == Join(body, "\n") + "\n"
    ensures '(' !in Join(body, "\n") && Join(body, "\n") != ""
  {
    var lines := body + [""];
    forall i | 0 <= i < |lines| ensures '\n' !in lines[i] {
      if i < |body| { assert lines[i] == body[i]; } else { assert lines[i] == ""; }
    }
    SplitJoin(lines, '\n');
    JoinAvoids(body, "\n", '(');
    JoinNonEmptyFirst(body);
    JoinAppend(body, [""], "\n");
  }

  /**
   * Eleven lines without '(' and a final newline, failing line 1: nothing
   * is replaced, yet the source's reassembly returns the code without its
   * final newline, while the corrected reassembly returns the code as it was.
   */
  lemma RewriteAsWrittenDropsFinalNewline(body: seq<string>, oldText: string, newText: string)
    requires |body| == 11 && body[0] != ""
    requires forall i :: 0 <= i < |body| ==> '\n' !in body[i] && '(' !in body[i]
    ensures var code := Join(body + [""], "\n");
      RewriteAsWritten(code, oldText, newText, Some(1)) == Join(body, "\n") != code
      && Rewrite(code, oldText, newText, Some(1)) == code
  {
    FinalNewlineCode(body);
    AsWrittenOnFinalNewline(body, oldText, newText);
    CorrectedOnFinalNewline(body, oldText, newText);
  }

  lemma AsWrittenOnFinalNewline(body: seq<string>, oldText: string, newText: string)
    requires |body| == 11 && body[0] != ""
    requires forall i :: 0 <= i < |body| ==> '\n' !in body[i] && '(' !in body[i]
    ensures RewriteAsWritten(Join(body + [""], "\n"), oldText, newText, Some(1)) == Join(body, "\n")
  {
    FinalNewlineCode(body);
    AppendOneSlices(body, "");
    AsWrittenOnLines(Join(body + [""], "\n"), body + [""], Join(body, "\n"), oldText, newText);
  }

  lemma CorrectedOnFinalNewline(body: seq<string>, oldText: string, newText: string)
    requires |body| == 11 && body[0] != ""
    requires forall i :: 0 <= i < |body| ==> '\n' !in body[i] && '(' !in body[i]
    ensures Rewrite(Join(body + [""], "\n"), oldText, newText, Some(1)) == Join(body + [""], "\n")
  {
    FinalNewlineCode(body);
    AppendOneSlices(body, "");
    CorrectedOnLines(Join(body + [""], "\n"), body + [""], Join(body, "\n"), oldText, newText);
  }

  /** Twelve lines, the last empty, the first eleven joined into `ctx` without '(' or emptiness: the window of line 1. */
  predicate FinalNewlineLines(code: string, lines: seq<string>, ctx: string)
  {
    Split(code, '\n') == lines && |lines| == 12 && lines[11] == ""
    && Join(lines[0..11], "\n") == ctx && '(' !in ctx && ctx != ""
    && lines[..0] == [] && lines[11..] == [""]
  }

  lemma AsWrittenOnLines(code: string, lines: seq<string>, ctx: string, oldText: string, newText: string)
    requires FinalNewlineLines(code, lines, ctx)
    ensures RewriteAsWritten(code, oldText, newText, Some(1)) == ctx
  {
    WindowOfLineOne();
    EditWindowWithoutParen(ctx, oldText, newText);
    FilterBetweenEmpty(ctx);
  }

  lemma CorrectedOnLines(code: string, lines: seq<string>, ctx: string, oldText: string, newText: string)
    requires FinalNewlineLines(code, lines, ctx)
    ensures Rewrite(code, oldText, newText, Some(1)) == ctx + "\n"
  {
    WindowOfLineOne();
    EditWindowWithoutParen(ctx, oldText, newText);
    ReassembleBeforeEmptyLast(lines, ctx);
  }

  /** A window covering every line but an empty last one is followed by a single newline. */
  lemma ReassembleBeforeEmptyLast(lines: seq<string>, m: string)
    requires |lines| >= 2 && lines[|lines| - 1] == ""
    ensures Reassemble(lines, 0, |lines| - 1, m) == m + "\n"
  {
    assert lines[..0] + [m] + lines[|lines| - 1..] == [m, ""];
    assert [m, ""][1..] == [""];
    assert Join([m, ""], "\n") == m + "\n" + "";
    assert m + "\n" + "" == m + "\n";
  }

  lemma WindowOfLineOne()
    ensures WindowStart(1) == 0 && WindowEnd(1, 12) == 11
  {
  }

  lemma FilterBetweenEmpty(x: string)
    requires x != ""
    ensures FilterNonEmpty(["", x, ""]) == [x]
  {
    assert [""][1..] == [];
    assert FilterNonEmpty([""]) == [];
    assert [x, ""][1..] == [""];
    assert FilterNonEmpty([x, ""]) == [x];
    assert ["", x, ""][1..] == [x, ""];
  }

  lemma AppendOneSlices<T>(xs: seq<T>, x: T)
    ensures (xs + [x])[..|xs|] == xs && (xs + [x])[0..|xs|] == xs
    ensures (xs + [x])[..0] == [] && (xs + [x])[|xs|..] == [x]
    ensures |xs + [x]| == |xs| + 1 && (xs + [x])[|xs|] == x
  {
  }

  lemma JoinNonEmptyFirst(parts: seq<string>)
    requires |parts| >= 1 && |parts[0]| >= 1
    ensures |Join(parts, "\n")| >= 1
  {
  }

  // ---------------------------------------------------------------------
  // replaceLocatorInCode
  // ---------------------------------------------------------------------

  datatype Outcome = Replaced(code: JsStr) | Thrown(message: string)

  /** replaceLocatorInCode: rejects a missing code, old or new locator; otherwise delegates. */
  method ReplaceLocatorInCode(code: JsStr, oldLocator: JsStr, newLocator: JsStr, lineNumber: Option<int>)
    returns (r: Outcome)
    ensures r.Thrown? <==> !Truthy(code) || !Truthy(oldLocator) || !Truthy(newLocator)
    ensures r.Replaced? ==> r.code == ReplaceLocator(code, oldLocator, newLocator, lineNumber) && r.code.Some?
  {
    if !Truthy(code) || !Truthy(oldLocator) || !Truthy(newLocator) {
      return Thrown("code, oldLocator, newLocator는 필수입니다.");
    }
    var replaced := ReplaceLocatorWithRegex(code, oldLocator, newLocator, lineNumber);
    r := Replaced(replaced);
  }
}
