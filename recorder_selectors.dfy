/**
 * The selector panel's logic (`recorder-selectors.js`): where the target
 * element sits among its siblings, whether a selector is likely stable, the
 * `:nth-of-type(n)` refinement of a selector that matches several elements,
 * and the split of an event's candidates into the "unique" and "repeat"
 * tabs.
 */
module RecorderSelectors {
  import opened JsStrings
  import opened Candidates
  import SelectorUtils

  // ---------------------------------------------------------------------
  // Position of the target element
  // ---------------------------------------------------------------------

  /** `position` as the recorder stores it; a non-number is `None`. */
  datatype Position = Position(nthOfType: Option<int>, total: Option<int>, index: Option<int>)

  /** An object that may carry a position: the target, or a `domContext.self`. */
  datatype Holder = Holder(position: Option<Position>, tag: JsStr, repeats: Option<bool>)

  /** `event.target`, with its own `domContext.self`. */
  datatype Target = Target(node: Holder, domSelf: Option<Holder>)

  /** The parts of an event `getTargetPositionInfo` reads. */
  datatype PositionEvent = PositionEvent(target: Option<Target>, domSelf: Option<Holder>)

  /** What `getTargetPositionInfo` returns. */
  datatype PositionInfo = PositionInfo(nthOfType: int, total: Option<int>, index: Option<int>, tag: JsStr, repeats: bool)

  /** The tag of the target element, lower-cased, or `null`. */
  function TargetTag(target: Option<Target>): JsStr
  {
    if target.Some? && Truthy(target.value.node.tag) then Some(Lower(target.value.node.tag.value)) else None
  }

  /** `extractFromPosition(pos, source)`: nothing unless `nthOfType` is a number of at least 1. */
  function ExtractFromPosition(pos: Option<Position>, source: Holder, target: Option<Target>): (r: Option<PositionInfo>)
  {
    if pos.None? then None
    else
      var nth := pos.value.nthOfType;
      if nth.None? || nth.value == 0 || nth.value < 1 then None
      else
        var total := pos.value.total;
        Some(PositionInfo(nth.value, total, pos.value.index,
          if Truthy(source.tag) then Some(Lower(source.tag.value)) else TargetTag(target),
          if source.repeats.Some? then source.repeats.value else total.Some? && total.value > 1))
  }

  /**
   * `getTargetPositionInfo(event)`: the target's own position when it is
   * usable, else the position of the target's `domContext.self`, else of
   * the event's.
   */
  function GetTargetPositionInfo(event: Option<PositionEvent>): (r: Option<PositionInfo>)
  {
    if event.None? then None
    else
      var target := event.value.target;
      var direct := if target.Some? && target.value.node.position.Some?
                    then ExtractFromPosition(target.value.node.position, target.value.node, target) else None;
      if direct.Some? then direct
      else
        var fallback := if target.Some? && target.value.domSelf.Some? then target.value.domSelf else event.value.domSelf;
        if fallback.Some? && fallback.value.position.Some? then ExtractFromPosition(fallback.value.position, fallback.value, target)
        else None
  }

  /**
   * A position is reported only with an `nthOfType` of at least 1, taken
   * from the target when the target's position is usable; its tag is
   * lower-case.
   */
  lemma GetTargetPositionInfoFacts(event: Option<PositionEvent>)
    ensures var r := GetTargetPositionInfo(event);
      && (event.None? ==> r.None?)
      && (r.Some? ==> r.value.nthOfType >= 1)
      && (r.Some? && r.value.tag.Some? ==> Lower(r.value.tag.value) == r.value.tag.value)
      && (event.Some? && event.value.target.Some? && event.value.target.value.node.position.Some?
          && event.value.target.value.node.position.value.nthOfType.Some?
          && event.value.target.value.node.position.value.nthOfType.value >= 1 ==>
            r.Some? && r.value.nthOfType == event.value.target.value.node.position.value.nthOfType.value)
  {
    var r := GetTargetPositionInfo(event);
    if r.Some? && r.value.tag.Some? {
      var target := event.value.target;
      if target.Some? && Truthy(target.value.node.tag) {
        LowerIdempotent(target.value.node.tag.value);
      }
      var direct := if target.Some? && target.value.node.position.Some?
                    then ExtractFromPosition(target.value.node.position, target.value.node, target) else None;
      var fallback := if target.Some? && target.value.domSelf.Some? then target.value.domSelf else event.value.domSelf;
      if direct.None? && Truthy(fallback.value.tag) {
        LowerIdempotent(fallback.value.tag.value);
      }
    }
  }

  // ---------------------------------------------------------------------
  // Stability
  // ---------------------------------------------------------------------

  /** `s[a..b]` is a non-empty run of characters other than `]` and `=`. */
  predicate AttrNameRun(s: string, a: int, b: int)
  {
    0 <= a < b <= |s| && forall k :: a <= k < b ==> s[k] != ']' && s[k] != '='
  }

  /** `s[a..b]` is a non-empty run of characters other than quotes. */
  predicate QuotedRun(s: string, a: int, b: int)
  {
    0 <= a < b <= |s| && forall k :: a <= k < b ==> !IsQuote(s[k])
  }

  /** `['"][^'"]+['"]` spans `s[a..b+1]`. */
  predicate QuotedValueAt(s: string, a: int, b: int)
  {
    0 <= a < b < |s| && IsQuote(s[a]) && QuotedRun(s, a + 1, b) && IsQuote(s[b])
  }

  /** `\[<prefix>[^\]=]+=['"][^'"]+['"]` spans `s[i..k+1]`, its `=` at `j`. */
  predicate PrefixedAttrSpan(s: string, i: nat, prefix: string, j: int, k: int)
  {
    && OccursAt(s, "[" + prefix, i)
    && AttrNameRun(s, i + 1 + |prefix|, j) && j < |s| && s[j] == '=' && QuotedValueAt(s, j + 1, k)
  }

  /** `\[id=['"][^'"]+['"]` spans `s[i..k+1]`. */
  predicate IdAttrSpan(s: string, i: nat, k: int)
  {
    OccursAt(s, "[id=", i) && QuotedValueAt(s, i + 4, k)
  }

  /** `selectorLikelyStable(selector)`. */
  predicate SelectorLikelyStable(selector: JsStr)
  {
    && Truthy(selector)
    && var s := selector.value;
       || '#' in s
       || (exists i: nat, j, k :: i < |s| && 0 <= j < |s| && 0 <= k < |s| && PrefixedAttrSpan(s, i, "data-", j, k))
       || (exists i: nat, j, k :: i < |s| && 0 <= j < |s| && 0 <= k < |s| && PrefixedAttrSpan(s, i, "aria-", j, k))
       || (exists i: nat, k :: i < |s| && 0 <= k < |s| && IdAttrSpan(s, i, k))
  }

  /** An id selector, or one fixing a `data-*` attribute, counts as stable; a missing one never does. */
  lemma SelectorLikelyStableExamples(name: string, value: string)
    requires name != "" && ']' !in name && '=' !in name
    requires value != "" && '"' !in value && '\'' !in value
    ensures !SelectorLikelyStable(None) && !SelectorLikelyStable(Some(""))
    ensures SelectorLikelyStable(Some("#" + value))
    ensures SelectorLikelyStable(Some("[data-" + name + "=\"" + value + "\"]"))
  {
    var s := "#" + value;
    assert s[0] == '#';
    var t := "[data-" + name + "=\"" + value + "\"]";
    var j := 6 + |name|;
    var k := j + 2 + |value|;
    assert t[..6] == "[data-";
    assert forall m :: 6 <= m < j ==> t[m] == name[m - 6];
    assert t[j] == '=' && t[j + 1] == '"';
    assert forall m :: j + 2 <= m < k ==> t[m] == value[m - j - 2];
    assert t[k] == '"';
    assert AttrNameRun(t, 6, j);
    assert QuotedValueAt(t, j + 1, k);
    assert PrefixedAttrSpan(t, 0, "data-", j, k);
  }

  // ---------------------------------------------------------------------
  // nth-of-type
  // ---------------------------------------------------------------------

  /** The characters that end a compound selector: white space and the combinators `>`, `+`, `~`. */
  predicate IsCombinator(c: char)
  {
    IsJsSpace(c) || c == '>' || c == '+' || c == '~'
  }

  /** Where the run of non-combinator characters ending at `j` starts. */
  function RunStart(s: string, j: nat): (r: nat)
    requires j <= |s|
    ensures r <= j
  {
    if j > 0 && !IsCombinator(s[j - 1]) then RunStart(s, j - 1) else j
  }

  /** The run holds no combinator and is preceded by one (or by the start of `s`). */
  lemma {:induction false} RunStartFacts(s: string, j: nat)
    requires j <= |s|
    ensures forall k :: RunStart(s, j) <= k < j ==> !IsCombinator(s[k])
    ensures RunStart(s, j) > 0 ==> IsCombinator(s[RunStart(s, j) - 1])
    decreases j
  {
    if j > 0 && !IsCombinator(s[j - 1]) {
      RunStartFacts(s, j - 1);
    }
  }

  /** The suffix `:nth-of-type(n)` adds. */
  function NthPart(nth: int): string
  {
    ":nth-of-type(" + IntToString(nth) + ")"
  }

  /** `/:nth-(child|of-type)\(/i`. */
  predicate HasNth(s: string)
  {
    Contains(Lower(s), ":nth-child(") || Contains(Lower(s), ":nth-of-type(")
  }

  /**
   * A selector cut at its last compound: what comes before it, the
   * compound up to its first `:`, and the pseudo-classes from there on.
   */
  datatype Compound = Compound(prefix: string, basePart: string, pseudoPart: string)

  /** The cut `appendNthToSelector` makes. */
  function LastCompound(t: string): (c: Compound)
  {
    var start := RunStart(t, |t|);
    var (basePart, pseudoPart) := SplitPseudo(t[start..]);
    Compound(t[..start], basePart, pseudoPart)
  }

  /** A compound cut at its first `:` into the base and the pseudo-classes (none when it has no `:`). */
  function SplitPseudo(lastPart: string): (r: (string, string))
    ensures r.0 + r.1 == lastPart && ':' !in r.0 && (r.1 == "" || r.1[0] == ':')
  {
    var pseudoIndex := IndexOfChar(lastPart, ':');
    if pseudoIndex >= 0 then
      CutJoin(lastPart, pseudoIndex);
      (lastPart[..pseudoIndex], lastPart[pseudoIndex..])
    else
      assert lastPart + "" == lastPart;
      (lastPart, "")
  }

  /** Cutting `x` at `i` loses nothing. */
  lemma CutJoin(x: string, i: nat)
    requires i <= |x|
    ensures x[..i] + x[i..] == x
  {
  }

  /** Cutting `t` at `start` and the rest into `b` and `p` loses nothing. */
  lemma Rejoin(t: string, start: nat, b: string, p: string)
    requires start <= |t| && b + p == t[start..]
    ensures t == t[..start] + b + p
  {
    assert t == t[..start] + t[start..];
  }

  /** The cut loses nothing; the base holds no `:` and the pseudo-classes start with one. */
  lemma LastCompoundJoin(t: string)
    ensures var c := LastCompound(t);
      && t == c.prefix + c.basePart + c.pseudoPart
      && ':' !in c.basePart && (c.pseudoPart == "" || c.pseudoPart[0] == ':')
      && c.prefix == t[..RunStart(t, |t|)] && c.basePart + c.pseudoPart == t[RunStart(t, |t|)..]
  {
    var c := LastCompound(t);
    Rejoin(t, RunStart(t, |t|), c.basePart, c.pseudoPart);
  }

  /** The last compound holds no combinator; what comes before it ends with one. */
  lemma LastCompoundRun(t: string)
    ensures var c := LastCompound(t);
      && (forall k :: 0 <= k < |c.basePart + c.pseudoPart| ==> !IsCombinator((c.basePart + c.pseudoPart)[k]))
      && (c.prefix == "" || IsCombinator(c.prefix[|c.prefix| - 1]))
  {
    var c := LastCompound(t);
    var start := RunStart(t, |t|);
    RunStartFacts(t, |t|);
    var lastPart := t[start..];
    LastCompoundJoin(t);
    forall k | 0 <= k < |lastPart| ensures !IsCombinator(lastPart[k]) {
      assert lastPart[k] == t[start + k];
    }
    if start > 0 {
      assert c.prefix[|c.prefix| - 1] == t[start - 1];
    }
  }

  /**
   * The insertion step of `appendNthToSelector`, on the trimmed selector:
   * the refinement goes between the base and the pseudo-classes of the last
   * compound; nothing when that compound is empty.
   */
  function InsertNth(trimmed: string, nth: int): (r: Option<string>)
  {
    var c := LastCompound(trimmed);
    if c.basePart + c.pseudoPart == "" then None
    else Some(c.prefix + c.basePart + NthPart(nth) + c.pseudoPart)
  }

  /** `appendNthToSelector(selector, nth)`. */
  function AppendNthToSelector(selector: JsStr, nth: int): (r: Option<string>)
  {
    if !Truthy(selector) then None
    else
      var trimmed := Trim(selector.value);
      if trimmed == "" || HasNth(trimmed) then None
      else InsertNth(trimmed, nth)
  }

  /** A selector is refined unless it is blank or already carries an `nth` pseudo-class. */
  lemma AppendNthToSelectorNone(selector: JsStr, nth: int)
    ensures Truthy(selector) && HasNth(Trim(selector.value)) ==> AppendNthToSelector(selector, nth).None?
    ensures !Truthy(selector) || Trim(selector.value) == "" ==> AppendNthToSelector(selector, nth).None?
    ensures AppendNthToSelector(selector, nth).Some? ==> Trim(selector.value) != "" && !HasNth(Trim(selector.value))
  {
  }

  /** `p` has no upper-case ASCII letter. */
  predicate NoUpper(p: string)
  {
    forall k :: 0 <= k < |p| ==> !('A' <= p[k] <= 'Z')
  }

  /** A text without upper-case letters stays where it is under `Lower`. */
  lemma LowerKeepsLowerOccurrence(s: string, p: string, i: nat)
    requires OccursAt(s, p, i) && NoUpper(p)
    ensures OccursAt(Lower(s), p, i)
  {
    forall k | 0 <= k < |p| ensures Lower(s)[i..i + |p|][k] == p[k] {
      assert s[i + k] == p[k];
    }
  }

  /** Inserting the refinement makes an `nth` pseudo-class appear. */
  lemma InsertedHasNth(before: string, nth: int, after: string)
    ensures HasNth(before + NthPart(nth) + after)
  {
    var r := before + NthPart(nth) + after;
    var marker := ":nth-of-type(";
    assert r == before + (marker + IntToString(nth) + ")" + after);
    assert r[|before|..|before| + |marker|] == marker;
    assert NoUpper(marker);
    LowerKeepsLowerOccurrence(r, marker, |before|);
  }

  /** A refined selector is never refined again. */
  lemma AppendNthOnce(selector: JsStr, nth: int, nth2: int)
    requires AppendNthToSelector(selector, nth).Some?
    ensures AppendNthToSelector(Some(AppendNthToSelector(selector, nth).value), nth2).None?
  {
    var t := Trim(selector.value);
    var c := LastCompound(t);
    var r := AppendNthToSelector(selector, nth).value;
    assert r == c.prefix + c.basePart + NthPart(nth) + c.pseudoPart;
    LastCompoundJoin(t);
    RefinedUnspaced(t, c.prefix, c.basePart, c.pseudoPart, NthPart(nth));
    TrimOfUnspaced(r);
    InsertedHasNth(c.prefix + c.basePart, nth, c.pseudoPart);
  }

  /** The refined selector starts and ends like the trimmed one (or with `)`), so it has nothing to trim. */
  lemma RefinedUnspaced(t: string, prefix: string, basePart: string, pseudoPart: string, part: string)
    requires t == prefix + basePart + pseudoPart && t != []
    requires !IsJsSpace(t[0]) && !IsJsSpace(t[|t| - 1])
    requires |part| > 0 && part[0] == ':' && part[|part| - 1] == ')'
    ensures var r := prefix + basePart + part + pseudoPart;
      !IsJsSpace(r[0]) && !IsJsSpace(r[|r| - 1])
  {
    var r := prefix + basePart + part + pseudoPart;
    VisibleAsciiNotSpace(':');
    VisibleAsciiNotSpace(')');
    if prefix + basePart != [] {
      assert r[0] == t[0];
    } else {
      assert r[0] == ':';
    }
    if pseudoPart != [] {
      assert r[|r| - 1] == t[|t| - 1];
    } else {
      assert r[|r| - 1] == ')';
    }
  }

  // ---------------------------------------------------------------------
  // Enforcing nth-of-type on a candidate
  // ---------------------------------------------------------------------

  /** The separator of the parts of a candidate's `reason`. */
  const ReasonSeparator := " \U{2022} "

  /** The reason phrases that state how many elements a selector matches. */
  const CountPhrase := "개 요소와 일치"
  const UniquePhrase := "유일 일치"

  /** `/개 요소와 일치|유일 일치/.test(part)`. */
  predicate MentionsMatchCount(part: string)
  {
    Contains(part, CountPhrase) || Contains(part, UniquePhrase)
  }

  /** The reason part recording the refinement. */
  function NthLabel(nth: int): string
  {
    "nth-of-type(" + IntToString(nth) + ") 적용"
  }

  /** Every character of `IntToString(n)` is a digit or `-`. */
  lemma IntToStringChars(n: int)
    ensures forall k :: 0 <= k < |IntToString(n)| ==> IntToString(n)[k] == '-' || '0' <= IntToString(n)[k] <= '9'
  {
    if n < 0 {
      var d := NatToString(-n);
      assert forall k :: 1 <= k < |IntToString(n)| ==> IntToString(n)[k] == d[k - 1];
    }
  }

  /** A text missing the first character of `p` does not contain `p`. */
  lemma MissingFirstChar(s: string, p: string)
    requires p != [] && p[0] !in s
    ensures !Contains(s, p)
  {
    forall i | 0 <= i <= |s| ensures !OccursAt(s, p, i) {
      if i + |p| <= |s| {
        assert s[i..i + |p|][0] == s[i];
      }
    }
  }

  /** The label itself never mentions a match count, so the filtering keeps it. */
  lemma NthLabelKept(nth: int)
    ensures !MentionsMatchCount(NthLabel(nth))
  {
    var digits := IntToString(nth);
    var nthLabel := NthLabel(nth);
    var head := "nth-of-type(";
    var tail := ") 적용";
    assert nthLabel == head + digits + tail;
    IntToStringChars(nth);
    forall k | 0 <= k < |nthLabel| ensures nthLabel[k] != '개' && nthLabel[k] != '유' {
      if k < |head| {
        assert nthLabel[k] == head[k];
      } else if k < |head| + |digits| {
        assert nthLabel[k] == digits[k - |head|];
      } else {
        assert nthLabel[k] == tail[k - |head| - |digits|];
      }
    }
    MissingFirstChar(nthLabel, CountPhrase);
    MissingFirstChar(nthLabel, UniquePhrase);
  }

  /** `parts.filter((part) => !/개 요소와 일치|유일 일치/.test(part))`. */
  function DropCountParts(parts: seq<string>): (r: seq<string>)
    ensures forall x :: x in r ==> x in parts && !MentionsMatchCount(x)
    ensures forall x :: x in parts && !MentionsMatchCount(x) ==> x in r
  {
    if parts == [] then []
    else (if MentionsMatchCount(parts[0]) then [] else [parts[0]]) + DropCountParts(parts[1..])
  }

  /** `(candidate.reason ? candidate.reason.split(' • ') : []).filter(Boolean)`. */
  function ReasonParts(reason: JsStr): seq<string>
  {
    if Truthy(reason) then FilterNonEmpty(SplitOn(reason.value, ReasonSeparator)) else []
  }

  /** The reason parts of a refined `text` candidate. */
  function TextNthReason(parts: seq<string>, nthLabel: string): seq<string>
  {
    var filtered := DropCountParts(parts);
    if nthLabel !in parts then filtered + [nthLabel] else filtered
  }

  /** The reason parts of a candidate refined with `:nth-of-type(n)`. */
  function SelectorNthReason(parts: seq<string>, nthLabel: string): seq<string>
  {
    var withLabel := if nthLabel !in parts then parts + [nthLabel] else parts;
    var filtered := DropCountParts(withLabel);
    if nthLabel !in filtered then filtered + [nthLabel] else filtered
  }

  /**
   * Both ways of rewriting the reason end with the same parts: the label,
   * and every original part that does not state a match count.
   */
  lemma NthReasonFacts(parts: seq<string>, nth: int)
    ensures var nthLabel := NthLabel(nth);
      forall r :: r == TextNthReason(parts, nthLabel) || r == SelectorNthReason(parts, nthLabel) ==>
        && nthLabel in r
        && (forall x :: x in r ==> !MentionsMatchCount(x) && (x in parts || x == nthLabel))
        && (forall x :: x in parts && !MentionsMatchCount(x) ==> x in r)
  {
    var nthLabel := NthLabel(nth);
    NthLabelKept(nth);
    var withLabel := if nthLabel !in parts then parts + [nthLabel] else parts;
    assert nthLabel in withLabel;
    assert forall x :: x in withLabel ==> x in parts || x == nthLabel;
    assert nthLabel in DropCountParts(withLabel);
    if nthLabel in parts {
      assert nthLabel in DropCountParts(parts);
    }
  }

  /** The candidate's type: its own, or the one inferred from its selector. */
  function CandidateType(c: Candidate): string
  {
    if Truthy(c.selectorType) then c.selectorType.value else SelectorUtils.InferSelectorType(c.selector)
  }

  /** When `enforceNthSelectorIfNeeded` rewrites a candidate located at `info`. */
  predicate NeedsNth(c: Candidate, info: PositionInfo)
  {
    var repeated := info.repeats || (info.total.Some? && info.total.value > 1);
    || (c.matchCount.Some? && c.matchCount.value > 1)
    || c.unique == Some(false)
    || (!SelectorLikelyStable(c.selector) && repeated)
  }

  /** A candidate marked as matching only the target at position `info`. */
  function MarkUnique(c: Candidate, info: PositionInfo, reason: seq<string>): Candidate
  {
    c.(reason := Some(Join(reason, ReasonSeparator)), unique := Some(true), matchCount := Some(1),
       nthApplied := Some(info.nthOfType), nthTotal := info.total,
       nthTag := if Truthy(info.tag) then info.tag else None)
  }

  /** `enforceNthSelectorIfNeeded(candidate, event)`. */
  function EnforceNth(c: Candidate, event: Option<PositionEvent>): (r: Candidate)
  {
    if event.None? then c
    else
      var kind := CandidateType(c);
      if kind == "" || kind == "xpath" || kind == "xpath-full" then c
      else
        var info := GetTargetPositionInfo(event);
        if info.None? || !NeedsNth(c, info.value) then c
        else
          var nth := info.value.nthOfType;
          var parts := ReasonParts(c.reason);
          if kind == "text" then MarkUnique(c, info.value, TextNthReason(parts, NthLabel(nth)))
          else
            var appended := AppendNthToSelector(c.selector, nth);
            if appended.None? then c
            else MarkUnique(c.(selector := Some(appended.value)), info.value, SelectorNthReason(parts, NthLabel(nth)))
  }

  /**
   * A rewritten candidate is marked unique, records the position it was
   * pinned to and carries the label among its reasons; its selector changes
   * only by the `:nth-of-type(n)` refinement. XPath candidates, candidates
   * that need no refinement and events without a position are left alone.
   */
  lemma EnforceNthFacts(c: Candidate, event: Option<PositionEvent>)
    ensures var r := EnforceNth(c, event);
      var info := GetTargetPositionInfo(event);
      && (CandidateType(c) in {"xpath", "xpath-full"} ==> r == c)
      && (info.None? ==> r == c)
      && (info.Some? && !NeedsNth(c, info.value) ==> r == c)
      && (r != c ==>
            && info.Some? && NeedsNth(c, info.value)
            && r.unique == Some(true) && r.matchCount == Some(1)
            && r.nthApplied == Some(info.value.nthOfType) && info.value.nthOfType >= 1
            && r.reason.Some?
            && r.(selector := c.selector, reason := c.reason, unique := c.unique, matchCount := c.matchCount,
                  nthApplied := c.nthApplied, nthTotal := c.nthTotal, nthTag := c.nthTag) == c)
      && (r.selector != c.selector ==>
            && info.Some? && CandidateType(c) != "text"
            && r.selector == Some(AppendNthToSelector(c.selector, info.value.nthOfType).value))
  {
    GetTargetPositionInfoFacts(event);
  }

  /** A candidate pinned by its selector is left alone the second time, whatever `nth` the event then reports. */
  lemma EnforceNthOnce(c: Candidate, event: Option<PositionEvent>, event2: Option<PositionEvent>)
    requires Truthy(c.selectorType)
    requires EnforceNth(c, event).selector != c.selector
    ensures EnforceNth(EnforceNth(c, event), event2) == EnforceNth(c, event)
  {
    var r := EnforceNth(c, event);
    var info := GetTargetPositionInfo(event);
    EnforceNthFacts(c, event);
    assert CandidateType(r) == CandidateType(c);
    AppendNthOnce(c.selector, info.value.nthOfType, 0);
    var info2 := GetTargetPositionInfo(event2);
    if info2.Some? {
      AppendNthOnce(c.selector, info.value.nthOfType, info2.value.nthOfType);
    }
  }

  // ---------------------------------------------------------------------
  // Selector tab groups
  // ---------------------------------------------------------------------

  /** A candidate as a tab stores it, with `__sourceIndex`, `__derived` and `__isRaw`. */
  datatype Stored = Stored(candidate: Candidate, sourceIndex: int, derived: bool, isRaw: bool)

  /** One list of a tab and the indices into it the panel shows. */
  datatype Group = Group(list: seq<Stored>, indices: seq<int>)

  /** The unique and the repeat list built from one source of candidates. */
  datatype Tab = Tab(unique: Group, repeat: Group)

  /** One tab: the base and the AI candidates. */
  datatype SourceGroups = SourceGroups(base: Group, ai: Group)

  /** What `buildSelectorTabGroups` returns. */
  datatype TabGroups = TabGroups(unique: SourceGroups, repeat: SourceGroups)

  const EmptyGroup := Group([], [])
  const EmptyTab := Tab(EmptyGroup, EmptyGroup)

  /** `addIndex`: an index is listed once. */
  function AddIndex(indices: seq<int>, i: int): (r: seq<int>)
  {
    if i in indices then indices else indices + [i]
  }

  /** `registerUnique` / `registerRepeat`: candidates without a selector are dropped. */
  function Register(g: Group, e: Stored): (r: Group)
  {
    if !Truthy(e.candidate.selector) then g
    else Group(g.list + [e], AddIndex(g.indices, |g.list|))
  }

  /** The indices `0, 1, ..., n - 1`. */
  function Range(n: nat): (r: seq<int>)
    ensures |r| == n
    ensures forall i :: 0 <= i < n ==> r[i] == i
  {
    if n == 0 then [] else Range(n - 1) + [n - 1]
  }

  /** The indices of a group list each of its entries exactly once, in order. */
  predicate WellIndexed(g: Group)
  {
    g.indices == Range(|g.list|)
  }

  /** Registering keeps a group well indexed, and appends the entry when it has a selector. */
  lemma RegisterFacts(g: Group, e: Stored)
    requires WellIndexed(g)
    ensures WellIndexed(Register(g, e))
    ensures Register(g, e).list == if Truthy(e.candidate.selector) then g.list + [e] else g.list
  {
    var n := |g.list|;
    assert n !in Range(n);
  }

  /** The selector the candidate was first recorded with. */
  function RawSelector(c: Candidate): JsStr
  {
    OrElse(c.rawSelector, c.selector)
  }

  /** The match count the candidate was first recorded with. */
  function RawMatchCount(c: Candidate): Option<int>
  {
    if c.rawMatchCount.Some? then c.rawMatchCount else c.matchCount
  }

  /** `rawUnique`: recorded as unique, or, if not recorded, matching once. */
  predicate RawUniqueFlag(c: Candidate)
  {
    if c.rawUnique.Some? then c.rawUnique.value else RawMatchCount(c) == Some(1)
  }

  /** The first test of `assign`: the original selector is unique. */
  predicate RawUnique(c: Candidate)
  {
    RawUniqueFlag(c) || RawMatchCount(c) == Some(1)
  }

  /** The original selector matches several elements. */
  predicate RawRepeats(c: Candidate)
  {
    !RawUniqueFlag(c) && RawMatchCount(c).Some? && RawMatchCount(c).value > 1
  }

  /** Whether the reason says the selector was built from a parent, an ancestor, a path or a combination. */
  predicate ReasonShowsProcessing(reason: JsStr)
  {
    Truthy(reason) &&
      (Contains(reason.value, "부모") || Contains(reason.value, "상위")
       || Contains(reason.value, "경로") || Contains(reason.value, "조합"))
  }

  /**
   * `isProcessed`: the selector is not the original one, the candidate is
   * marked `__derived` or `__autoDerived`, or its reason names a parent,
   * ancestor, path or combination.
   */
  predicate Processed(c: Candidate)
  {
    c.selector != RawSelector(c) || c.derived || c.autoDerived || ReasonShowsProcessing(c.reason)
  }

  /** `isAlreadyUnique`. */
  predicate AlreadyUnique(c: Candidate)
  {
    c.unique == Some(true) || c.matchCount == Some(1)
  }

  /** The candidate object for the original selector, shown in the repeat tab. */
  function RawCandidate(c: Candidate): (r: Candidate)
  {
    var rawType := if Truthy(c.rawType) then c.rawType else Some(CandidateType(c));
    Blank.(selector := RawSelector(c), selectorType := rawType, matchCount := RawMatchCount(c),
           unique := Some(false), score := c.score, reason := OrElse(c.rawReason, c.reason))
  }

  /** The refined candidate is registered only when it is unique and its selector changed. */
  predicate DerivedUsable(c: Candidate, d: Candidate)
  {
    d.unique == Some(true) && d.selector != c.selector
  }

  /** Registers `d`, the refined copy of `c`, in the unique list when it is usable. */
  function WithDerived(t: Tab, c: Candidate, d: Candidate, index: int): Tab
  {
    if DerivedUsable(c, d) then t.(unique := Register(t.unique, Stored(d, index, true, false))) else t
  }

  /** What `assign` does with the candidate `c` at `index`, whose refined copy is `d`. */
  function Step(t: Tab, c: Candidate, d: Candidate, index: int): Tab
  {
    if !Truthy(c.selector) then t
    else if RawUnique(c) then
      WithDerived(t.(unique := Register(t.unique, Stored(c, index, false, false))), c, d, index)
    else if AlreadyUnique(c) && Processed(c) then
      var t1 := t.(unique := Register(t.unique, Stored(c, index, false, false)));
      if RawRepeats(c) then t1.(repeat := Register(t1.repeat, Stored(RawCandidate(c), index, false, true))) else t1
    else if RawRepeats(c) && !Processed(c) then
      WithDerived(t.(repeat := Register(t.repeat, Stored(RawCandidate(c), index, false, true))), c, d, index)
    else t
  }

  /** Whether `assign` replaces `c` by a copy carrying `__autoDerived`, `d` being its refined copy. */
  predicate AutoDerives(c: Candidate, d: Candidate)
  {
    && Truthy(c.selector) && !RawUnique(c) && !(AlreadyUnique(c) && Processed(c))
    && RawRepeats(c) && !Processed(c) && DerivedUsable(c, d)
  }

  /** The candidate `assign` leaves in the caller's list. */
  function Rewritten(c: Candidate, d: Candidate): Candidate
  {
    if AutoDerives(c, d) then c.(autoDerived := true) else c
  }

  /** The refined copy `enforceNthSelectorIfNeeded` makes of each candidate. */
  function Derive(cs: seq<Candidate>, event: Option<PositionEvent>): (ds: seq<Candidate>)
    ensures |ds| == |cs| && forall k :: 0 <= k < |cs| ==> ds[k] == EnforceNth(cs[k], event)
  {
    seq(|cs|, k requires 0 <= k < |cs| => EnforceNth(cs[k], event))
  }

  /** `assign` over the first `n` candidates of `cs`, `ds` holding their refined copies. */
  function AssignAll(cs: seq<Candidate>, ds: seq<Candidate>, n: nat): Tab
    requires n <= |cs| == |ds|
  {
    if n == 0 then EmptyTab else Step(AssignAll(cs, ds, n - 1), cs[n - 1], ds[n - 1], n - 1)
  }

  /** The groups `buildSelectorTabGroups` returns for the base and AI lists `assign` sees. */
  function TabGroupsOf(base: seq<Candidate>, ai: seq<Candidate>, event: Option<PositionEvent>): TabGroups
  {
    var b := AssignAll(base, Derive(base, event), |base|);
    var a := AssignAll(ai, Derive(ai, event), |ai|);
    TabGroups(SourceGroups(b.unique, a.unique), SourceGroups(b.repeat, a.repeat))
  }

  /** The contents of a possibly missing candidate array; a missing list is treated as empty. */
  function Contents(list: array?<Candidate>): seq<Candidate>
    reads list
  {
    if list == null then [] else list[..]
  }

  /** The candidates `assign` leaves in the caller's list. */
  function RewriteAll(cs: seq<Candidate>, event: Option<PositionEvent>): (r: seq<Candidate>)
    ensures |r| == |cs| && forall k :: 0 <= k < |cs| ==> r[k] == Rewritten(cs[k], EnforceNth(cs[k], event))
  {
    seq(|cs|, k requires 0 <= k < |cs| => Rewritten(cs[k], EnforceNth(cs[k], event)))
  }

  /** `assign(listRef, source)` on the accumulated lists of its source. */
  method Assign(list: array<Candidate>, event: Option<PositionEvent>) returns (t: Tab)
    modifies list
    ensures t == AssignAll(old(list[..]), Derive(old(list[..]), event), list.Length)
    ensures list[..] == RewriteAll(old(list[..]), event)
  {
    ghost var cs := list[..];
    ghost var ds := Derive(cs, event);
    t := EmptyTab;
    for i := 0 to list.Length
      invariant t == AssignAll(cs, ds, i)
      invariant forall k :: i <= k < list.Length ==> list[k] == cs[k]
      invariant forall k :: 0 <= k < i ==> list[k] == Rewritten(cs[k], ds[k])
    {
      t := AssignAt(list, i, event, t);
    }
  }

  /** One turn of the `assign` loop: register candidate `i` and mark it when it was refined automatically. */
  method AssignAt(list: array<Candidate>, i: nat, event: Option<PositionEvent>, t: Tab) returns (t': Tab)
    requires i < list.Length
    modifies list
    ensures t' == Step(t, old(list[i]), EnforceNth(old(list[i]), event), i)
    ensures list[i] == Rewritten(old(list[i]), EnforceNth(old(list[i]), event))
    ensures forall k :: 0 <= k < list.Length && k != i ==> list[k] == old(list[k])
  {
    var c := list[i];
    var d := EnforceNth(c, event);
    t' := Step(t, c, d, i);
    // Only an auto-derived candidate actually changes here.
    list[i] := Rewritten(c, d);
  }

  /**
   * `buildSelectorTabGroups(event, baseCandidates, aiCandidates)`: the base
   * list is assigned first; when the same array is passed as the AI list it
   * is then read with the base pass's rewrites.
   */
  method BuildSelectorTabGroups(event: Option<PositionEvent>, base: array?<Candidate>, ai: array?<Candidate>)
    returns (groups: TabGroups)
    modifies base, ai
    ensures base != null ==> base[..] == RewriteAll(old(base[..]), event)
    ensures ai != null && ai != base ==> ai[..] == RewriteAll(old(ai[..]), event)
    ensures ai == null || ai != base ==> groups == TabGroupsOf(old(Contents(base)), old(Contents(ai)), event)
    ensures ai != null && ai == base ==>
      groups == TabGroupsOf(old(base[..]), RewriteAll(old(base[..]), event), event)
  {
    var b := EmptyTab;
    var a := EmptyTab;
    if base != null {
      b := Assign(base, event);
    }
    if ai != null {
      a := Assign(ai, event);
    }
    groups := TabGroups(SourceGroups(b.unique, a.unique), SourceGroups(b.repeat, a.repeat));
  }

  /** `getGroupCount(group)`: how many entries a tab shows. */
  function GetGroupCount(group: Option<SourceGroups>): (r: int)
  {
    if group.None? then 0 else |group.value.base.indices| + |group.value.ai.indices|
  }

  /** An entry of a repeat list: the original form of a candidate whose original selector repeats. */
  predicate RepeatEntryOf(e: Stored, cs: seq<Candidate>, n: nat)
    requires n <= |cs|
  {
    && e.isRaw && !e.derived && 0 <= e.sourceIndex < n && Truthy(cs[e.sourceIndex].selector)
    && !RawUnique(cs[e.sourceIndex]) && RawRepeats(cs[e.sourceIndex])
    && e.candidate == RawCandidate(cs[e.sourceIndex])
  }

  /**
   * An entry of a unique list: a candidate whose original selector is
   * unique, or whose processed selector is, or the usable refined copy of a
   * candidate.
   */
  predicate UniqueEntryOf(e: Stored, cs: seq<Candidate>, ds: seq<Candidate>, n: nat)
    requires n <= |cs| == |ds|
  {
    && !e.isRaw && 0 <= e.sourceIndex < n && Truthy(cs[e.sourceIndex].selector)
    && if e.derived then
         e.candidate == ds[e.sourceIndex] && DerivedUsable(cs[e.sourceIndex], e.candidate)
       else
         && e.candidate == cs[e.sourceIndex]
         && (RawUnique(e.candidate) || (AlreadyUnique(e.candidate) && Processed(e.candidate)))
  }

  /** What the lists built from the first `n` candidates of `cs` always satisfy. */
  predicate TabInvariant(t: Tab, cs: seq<Candidate>, ds: seq<Candidate>, n: nat)
    requires n <= |cs| == |ds|
  {
    && WellIndexed(t.unique) && WellIndexed(t.repeat)
    && (forall e :: e in t.unique.list ==> UniqueEntryOf(e, cs, ds, n))
    && (forall e :: e in t.repeat.list ==> RepeatEntryOf(e, cs, n))
    && (forall k :: 0 <= k < n && Truthy(cs[k].selector) && RawUnique(cs[k]) ==> Stored(cs[k], k, false, false) in t.unique.list)
  }

  /** Registering an entry that belongs in a unique list keeps the unique-list facts. */
  lemma RegisterUniqueEntry(g: Group, e: Stored, cs: seq<Candidate>, ds: seq<Candidate>, n: nat)
    requires n < |cs| == |ds| && WellIndexed(g)
    requires forall x :: x in g.list ==> UniqueEntryOf(x, cs, ds, n)
    requires UniqueEntryOf(e, cs, ds, n + 1)
    ensures WellIndexed(Register(g, e))
    ensures forall x :: x in Register(g, e).list ==> UniqueEntryOf(x, cs, ds, n + 1)
    ensures forall x :: x in g.list ==> x in Register(g, e).list
    ensures Truthy(e.candidate.selector) ==> e in Register(g, e).list
  {
    RegisterFacts(g, e);
  }

  /** Registering an entry that belongs in a repeat list keeps the repeat-list facts. */
  lemma RegisterRepeatEntry(g: Group, e: Stored, cs: seq<Candidate>, n: nat)
    requires n < |cs| && WellIndexed(g)
    requires forall x :: x in g.list ==> RepeatEntryOf(x, cs, n)
    requires RepeatEntryOf(e, cs, n + 1)
    ensures WellIndexed(Register(g, e))
    ensures forall x :: x in Register(g, e).list ==> RepeatEntryOf(x, cs, n + 1)
  {
    RegisterFacts(g, e);
  }

  /** Registering the refined copy, when usable, keeps the unique-list facts. */
  lemma WithDerivedKeeps(t: Tab, cs: seq<Candidate>, ds: seq<Candidate>, n: nat)
    requires n < |cs| == |ds| && WellIndexed(t.unique) && Truthy(cs[n].selector)
    requires forall x :: x in t.unique.list ==> UniqueEntryOf(x, cs, ds, n + 1)
    ensures var t2 := WithDerived(t, cs[n], ds[n], n);
      && t2.repeat == t.repeat && WellIndexed(t2.unique)
      && (forall x :: x in t2.unique.list ==> UniqueEntryOf(x, cs, ds, n + 1))
      && (forall x :: x in t.unique.list ==> x in t2.unique.list)
  {
    var e := Stored(ds[n], n, true, false);
    RegisterFacts(t.unique, e);
    if DerivedUsable(cs[n], ds[n]) {
      assert UniqueEntryOf(e, cs, ds, n + 1);
    }
  }

  /** One step of `assign` keeps the invariant. */
  lemma StepKeepsInvariant(cs: seq<Candidate>, ds: seq<Candidate>, n: nat)
    requires n < |cs| == |ds| && TabInvariant(AssignAll(cs, ds, n), cs, ds, n)
    ensures TabInvariant(AssignAll(cs, ds, n + 1), cs, ds, n + 1)
  {
    var t := AssignAll(cs, ds, n);
    var c := cs[n];
    assert AssignAll(cs, ds, n + 1) == Step(t, c, ds[n], n);
    assert forall x :: x in t.unique.list ==> UniqueEntryOf(x, cs, ds, n + 1);
    assert forall x :: x in t.repeat.list ==> RepeatEntryOf(x, cs, n + 1);
    var own := Stored(c, n, false, false);
    var raw := Stored(RawCandidate(c), n, false, true);
    if !Truthy(c.selector) {
    } else if RawUnique(c) {
      RegisterUniqueEntry(t.unique, own, cs, ds, n);
      WithDerivedKeeps(t.(unique := Register(t.unique, own)), cs, ds, n);
    } else if AlreadyUnique(c) && Processed(c) {
      RegisterUniqueEntry(t.unique, own, cs, ds, n);
      if RawRepeats(c) {
        RegisterRepeatEntry(t.repeat, raw, cs, n);
      }
    } else if RawRepeats(c) && !Processed(c) {
      RegisterRepeatEntry(t.repeat, raw, cs, n);
      WithDerivedKeeps(t.(repeat := Register(t.repeat, raw)), cs, ds, n);
    }
  }

  /** Every list `assign` builds satisfies the invariant. */
  lemma {:induction false} AssignAllInvariant(cs: seq<Candidate>, ds: seq<Candidate>, n: nat)
    requires n <= |cs| == |ds|
    ensures TabInvariant(AssignAll(cs, ds, n), cs, ds, n)
  {
    if n > 0 {
      AssignAllInvariant(cs, ds, n - 1);
      StepKeepsInvariant(cs, ds, n - 1);
    }
  }

  /**
   * What one source contributes to the tabs: its repeat list holds only the
   * original, repeating form of candidates whose original selector is not
   * unique; its unique list holds candidates that are unique as recorded or
   * after processing, and refined copies pinned to the target's position;
   * every candidate with a selector that is unique as recorded is listed,
   * and a candidate without a selector contributes no entry.
   */
  lemma AssignedListsFacts(cs: seq<Candidate>, event: Option<PositionEvent>)
    ensures var t := AssignAll(cs, Derive(cs, event), |cs|);
      && (forall e :: e in t.repeat.list ==>
            && e.isRaw && 0 <= e.sourceIndex < |cs| && Truthy(cs[e.sourceIndex].selector) && !RawUnique(cs[e.sourceIndex])
            && e.candidate.unique == Some(false)
            && e.candidate.matchCount.Some? && e.candidate.matchCount.value > 1)
      && (forall e :: e in t.unique.list ==>
            && !e.isRaw && 0 <= e.sourceIndex < |cs| && Truthy(cs[e.sourceIndex].selector)
            && (!e.derived ==> e.candidate == cs[e.sourceIndex])
            && (e.derived ==>
                  && e.candidate == EnforceNth(cs[e.sourceIndex], event)
                  && e.candidate.unique == Some(true) && e.candidate.matchCount == Some(1)
                  && e.candidate.nthApplied.Some? && e.candidate.nthApplied.value >= 1))
      && (forall k :: 0 <= k < |cs| && Truthy(cs[k].selector) && RawUnique(cs[k]) ==>
            Stored(cs[k], k, false, false) in t.unique.list)
  {
    var ds := Derive(cs, event);
    AssignAllInvariant(cs, ds, |cs|);
    var t := AssignAll(cs, ds, |cs|);
    forall e | e in t.unique.list && e.derived
      ensures e.candidate.unique == Some(true) && e.candidate.matchCount == Some(1)
      ensures e.candidate.nthApplied.Some? && e.candidate.nthApplied.value >= 1
    {
      EnforceNthFacts(cs[e.sourceIndex], event);
    }
  }

  /** The count `getGroupCount` shows for a tab is the number of entries its two lists hold. */
  lemma GroupCountIsListSize(base: seq<Candidate>, ai: seq<Candidate>, event: Option<PositionEvent>)
    ensures var g := TabGroupsOf(base, ai, event);
      && GetGroupCount(Some(g.unique)) == |g.unique.base.list| + |g.unique.ai.list|
      && GetGroupCount(Some(g.repeat)) == |g.repeat.base.list| + |g.repeat.ai.list|
  {
    AssignAllInvariant(base, Derive(base, event), |base|);
    AssignAllInvariant(ai, Derive(ai, event), |ai|);
  }
}
