/**
 * Conditional actions of the recorder (src/renderer/recorder/recorder-conditional.js):
 * the wizard's initial state, the structural checks between a base element
 * and the element the user picked as its parent, sibling or ancestor, and
 * the insertion of an assertion or a conditional action into the event list.
 */
module RecorderConditional {
  import opened JsStrings
  import SelectorUtils
  import EventRecords

  // ---------------------------------------------------------------------
  // Wizard state
  // ---------------------------------------------------------------------

  /** An element picked in the wizard: its selector and XPath. */
  datatype ElementData = ElementData(selector: JsStr, xpath: JsStr)

  /** The `data` record the wizard fills in, one answer per field. */
  datatype ActionData = ActionData(
    actionType: JsStr,
    conditionElement: Option<ElementData>,
    childElement: Option<ElementData>,
    siblingElement: Option<ElementData>,
    ancestorElement: Option<ElementData>,
    conditionType: JsStr,
    conditionValue: JsStr,
    targetRelation: JsStr,
    targetSelector: JsStr,
    loopMode: JsStr,
    loopSelector: JsStr,
    actionTypeValue: JsStr,
    actionValue: JsStr,
    stepIndex: int)

  /** The wizard: its current page and its answers. */
  datatype ConditionalState = ConditionalState(step: int, data: ActionData)

  /** No answer given yet. */
  predicate Unanswered(d: ActionData)
  {
    d.actionType.None? && d.conditionElement.None? && d.childElement.None? && d.siblingElement.None? &&
    d.ancestorElement.None? && d.conditionType.None? && d.conditionValue.None? && d.targetRelation.None? &&
    d.targetSelector.None? && d.loopMode.None? && d.loopSelector.None? && d.actionTypeValue.None? &&
    d.actionValue.None?
  }

  /** `createConditionalActionState()`: the wizard on its first page, nothing answered, no step chosen. */
  function CreateConditionalActionState(): (st: ConditionalState)
    ensures st.step == 0 && Unanswered(st.data) && st.data.stepIndex == -1
  {
    ConditionalState(0, ActionData(None, None, None, None, None, None, None, None, None, None, None, None, None, -1))
  }

  // ---------------------------------------------------------------------
  // Structural checks
  // ---------------------------------------------------------------------

  /** `child` is `parent` itself or continues it with one of the two connecting texts. */
  predicate ExtendsWith(child: string, parent: string, sep1: string, sep2: string)
  {
    StartsWith(child, parent + sep1) || StartsWith(child, parent + sep2) || child == parent
  }

  /** `validateBySelector(parentElement, childElement)`, including its `includes` pre-test. */
  predicate ValidateBySelector(parent: ElementData, child: ElementData)
  {
    (Truthy(parent.xpath) && Truthy(child.xpath) && ExtendsWith(child.xpath.value, parent.xpath.value, "/", "["))
    ||
    (Truthy(parent.selector) && Truthy(child.selector) && Contains(child.selector.value, parent.selector.value) &&
     ExtendsWith(child.selector.value, parent.selector.value, ".locator(", "["))
  }

  /** `validateAncestorRelation(baseElement, ancestorElement)`. */
  predicate ValidateAncestorRelation(base: ElementData, ancestor: ElementData)
  {
    (Truthy(base.xpath) && Truthy(ancestor.xpath) && ExtendsWith(base.xpath.value, ancestor.xpath.value, "/", "["))
    ||
    (Truthy(base.selector) && Truthy(ancestor.selector) && Contains(base.selector.value, ancestor.selector.value) &&
     ExtendsWith(base.selector.value, ancestor.selector.value, ".locator(", "["))
  }

  lemma StartsWithContains(s: string, p: string, q: string)
    requires StartsWith(s, p + q)
    ensures Contains(s, p)
  {
    assert s[..|p|] == (p + q)[..|p|];
    assert OccursAt(s, p, 0);
  }

  /**
   * The `includes` pre-test never decides anything: a selector that starts
   * with the parent's or equals it contains it. So the parent-child check
   * holds exactly when one XPath or selector extends the other.
   */
  lemma ValidateBySelectorMeans(parent: ElementData, child: ElementData)
    ensures ValidateBySelector(parent, child) <==>
      (Truthy(parent.xpath) && Truthy(child.xpath) && ExtendsWith(child.xpath.value, parent.xpath.value, "/", "[")) ||
      (Truthy(parent.selector) && Truthy(child.selector) && ExtendsWith(child.selector.value, parent.selector.value, ".locator(", "["))
  {
    if Truthy(parent.selector) && Truthy(child.selector) {
      var c, p := child.selector.value, parent.selector.value;
      if StartsWith(c, p + ".locator(") { StartsWithContains(c, p, ".locator("); }
      else if StartsWith(c, p + "[") { StartsWithContains(c, p, "["); }
      else if c == p { assert OccursAt(c, p, 0); }
    }
  }

  /** An element is its own parent for the check, and a child XPath one step below its parent passes. */
  lemma ValidateBySelectorAccepts(parent: ElementData, child: ElementData, step: string)
    requires Truthy(parent.xpath) && Truthy(child.xpath)
    requires child.xpath.value == parent.xpath.value + "/" + step
    ensures ValidateBySelector(parent, child)
    ensures ValidateBySelector(parent, parent)
  {
    var p := parent.xpath.value;
    assert (p + "/" + step)[..|p + "/"|] == p + "/";
  }

  /** The ancestor check is the parent-child check with the arguments swapped. */
  lemma AncestorIsParentCheck(base: ElementData, ancestor: ElementData)
    ensures ValidateAncestorRelation(base, ancestor) == ValidateBySelector(ancestor, base)
  {
  }

  /** A line terminator: the characters `.` does not match in a regular expression. */
  predicate IsLineTerminator(c: char)
  {
    c == '\n' || c == '\r' || c == '\U{2028}' || c == '\U{2029}'
  }

  predicate NoLineTerminator(s: string)
  {
    forall i :: 0 <= i < |s| ==> !IsLineTerminator(s[i])
  }

  /** `/^(.+)\/[^\/]+$/` matches with its group ending at `p`. */
  predicate XPathSplitAt(s: string, p: int)
  {
    1 <= p < |s| - 1 && s[p] == '/' && '/' !in s[p + 1..] && NoLineTerminator(s[..p])
  }

  /** `s.lastIndexOf('/')`, searching below `end`. */
  function LastSlashBelow(s: string, end: nat): (r: int)
    requires end <= |s|
    ensures -1 <= r < end
    ensures r >= 0 ==> s[r] == '/'
    ensures forall j :: r < j < end ==> s[j] != '/'
  {
    if end == 0 then -1 else if s[end - 1] == '/' then end - 1 else LastSlashBelow(s, end - 1)
  }

  /** `s.match(/^(.+)\/[^\/]+$/)?.[1]`: everything before the last `/`. */
  function XPathParent(s: string): JsStr
  {
    var p := LastSlashBelow(s, |s|);
    if 1 <= p < |s| - 1 && NoLineTerminator(s[..p]) then Some(s[..p]) else None
  }

  /** The XPath parent is the group of the only way the pattern can match. */
  lemma XPathParentMatches(s: string)
    ensures XPathParent(s).Some? <==> exists p :: XPathSplitAt(s, p)
    ensures forall p :: XPathSplitAt(s, p) ==> XPathParent(s) == Some(s[..p])
  {
    var q := LastSlashBelow(s, |s|);
    forall p | XPathSplitAt(s, p)
      ensures p == q
    {
      assert forall j :: p < j < |s| ==> s[j] == s[p + 1..][j - p - 1];
    }
    if XPathParent(s).Some? {
      assert forall j :: q < j < |s| ==> s[q + 1..][j - q - 1] == s[j];
      assert XPathSplitAt(s, q);
    }
  }

  const LocatorCall := ".locator("

  /** `/^(.+)\.locator\([^)]+\)$/` matches with its group ending at `p`. */
  predicate LocatorSplitAt(s: string, p: int)
  {
    1 <= p && p + |LocatorCall| < |s| - 1 && s[|s| - 1] == ')' && s[p..p + |LocatorCall|] == LocatorCall &&
    ')' !in s[p + |LocatorCall|..|s| - 1] && NoLineTerminator(s[..p])
  }

  /** The greedy group: the largest split point at most `p`. */
  function LocatorSplitBelow(s: string, p: int): (r: int)
    ensures r == -1 || (1 <= r <= p && LocatorSplitAt(s, r))
    ensures forall q :: r < q <= p ==> !LocatorSplitAt(s, q)
    decreases p
  {
    if p < 1 then -1 else if LocatorSplitAt(s, p) then p else LocatorSplitBelow(s, p - 1)
  }

  /** `s.match(/^(.+)\.locator\([^)]+\)$/)?.[1]`: the selector the last `.locator(...)` call is made on. */
  function LocatorParent(s: string): (r: JsStr)
    ensures r.Some? <==> exists p :: LocatorSplitAt(s, p)
    ensures r.Some? ==> exists p :: (LocatorSplitAt(s, p) && r.value == s[..p] &&
      forall q :: p < q ==> !LocatorSplitAt(s, q))
  {
    var p := LocatorSplitBelow(s, |s|);
    if p >= 1 then Some(s[..p]) else None
  }

  /** The two elements have the same parent by XPath. */
  predicate SameXPathParent(a: ElementData, b: ElementData)
  {
    Truthy(a.xpath) && Truthy(b.xpath) && XPathParent(a.xpath.value).Some? &&
    XPathParent(b.xpath.value).Some? && XPathParent(a.xpath.value) == XPathParent(b.xpath.value)
  }

  /** The two elements are located from the same locator. */
  predicate SameLocatorParent(a: ElementData, b: ElementData)
  {
    Truthy(a.selector) && Truthy(b.selector) && LocatorParent(a.selector.value).Some? &&
    LocatorParent(b.selector.value).Some? && LocatorParent(a.selector.value) == LocatorParent(b.selector.value)
  }

  /** `validateSiblingRelation(baseElement, siblingElement)`. */
  predicate ValidateSiblingRelation(base: ElementData, sibling: ElementData)
  {
    SameXPathParent(base, sibling) || SameLocatorParent(base, sibling)
  }

  /**
   * Being siblings is symmetric, and by XPath it means both paths have a
   * non-empty part before their last `/`, and the parts are the same.
   */
  lemma SiblingRelationFacts(a: ElementData, b: ElementData)
    ensures ValidateSiblingRelation(a, b) == ValidateSiblingRelation(b, a)
    ensures SameXPathParent(a, b) <==>
      Truthy(a.xpath) && Truthy(b.xpath) &&
      exists p, q :: XPathSplitAt(a.xpath.value, p) && XPathSplitAt(b.xpath.value, q) &&
        a.xpath.value[..p] == b.xpath.value[..q] && p > 0
  {
    if Truthy(a.xpath) && Truthy(b.xpath) {
      XPathParentMatches(a.xpath.value);
      XPathParentMatches(b.xpath.value);
      if SameXPathParent(a, b) {
        var p :| XPathSplitAt(a.xpath.value, p);
        var q :| XPathSplitAt(b.xpath.value, q);
        assert a.xpath.value[..p] == b.xpath.value[..q];
      }
    }
  }

  /** Two elements one step below the same path are siblings. */
  lemma SiblingsUnderSameParent(parent: string, x: string, y: string, a: ElementData, b: ElementData)
    requires parent != [] && NoLineTerminator(parent)
    requires x != [] && y != [] && '/' !in x && '/' !in y
    requires a.xpath == Some(parent + "/" + x) && b.xpath == Some(parent + "/" + y)
    ensures ValidateSiblingRelation(a, b)
  {
    var s, t := parent + "/" + x, parent + "/" + y;
    assert s[|parent| + 1..] == x && s[..|parent|] == parent;
    assert t[|parent| + 1..] == y && t[..|parent|] == parent;
    assert XPathSplitAt(s, |parent|);
    assert XPathSplitAt(t, |parent|);
    XPathParentMatches(s);
    XPathParentMatches(t);
  }

  // ---------------------------------------------------------------------
  // Inserting records into the event list
  // ---------------------------------------------------------------------

  /** The index `splice(k, 0, x)` inserts at in a list of `len` elements. */
  function SpliceIndex(len: nat, k: int): (i: nat)
    ensures i <= len
    ensures 0 <= k <= len ==> i == k
    ensures k > len ==> i == len
    ensures k < 0 ==> i == (if len + k < 0 then 0 else len + k)
  {
    if k < 0 then (if len + k < 0 then 0 else len + k) else if k > len then len else k
  }

  /** `const copy = [...xs]; copy.splice(k, 0, x)`. */
  function Splice<T>(xs: seq<T>, k: int, x: T): (r: seq<T>)
  {
    var i := SpliceIndex(|xs|, k);
    xs[..i] + [x] + xs[i..]
  }

  /** Inserting adds exactly one element at the splice index; without it the old list remains. */
  lemma SpliceFacts<T>(xs: seq<T>, k: int, x: T)
    ensures var r := Splice(xs, k, x); var i := SpliceIndex(|xs|, k);
      |r| == |xs| + 1 && r[i] == x && r[..i] + r[i + 1..] == xs &&
      (forall j :: 0 <= j < i ==> r[j] == xs[j]) && (forall j :: i < j < |r| ==> r[j] == xs[j - 1])
  {
    var r := Splice(xs, k, x);
    var i := SpliceIndex(|xs|, k);
    assert r[..i] == xs[..i];
    assert r[i + 1..] == xs[i..];
  }

  /** The page the recorder shows and the clock: the reads the functions make of their environment. */
  datatype Context = Context(timestamp: nat, url: string, title: string)

  /** An entry of `selectorCandidates`. */
  datatype SelectorEntry = SelectorEntry(selector: JsStr, selectorType: JsStr, textValue: JsStr,
                                         xpathValue: JsStr, matchMode: JsStr, score: int)

  /** A step of the element-selection path. */
  datatype PathItem = PathItem(selector: JsStr, selectorType: JsStr, textValue: JsStr, xpathValue: JsStr,
                               matchMode: JsStr, iframeContext: Option<EventRecords.FrameContext>)

  /** The record `addAssertionAfterStep` builds. `primary` holds the `primarySelector*` fields; `None` stands for their nulls. */
  datatype AssertionRecord = AssertionRecord(
    action: string, value: JsStr, candidates: seq<SelectorEntry>, iframeContext: Option<EventRecords.FrameContext>,
    pageUrl: string, pageTitle: string, manualId: string, primary: Option<SelectorEntry>, matchMode: JsStr)

  /** The record `addConditionalActionAfterStep` builds (before the recorder normalises it). */
  datatype ConditionalRecord = ConditionalRecord(
    action: JsStr, data: ActionData, candidates: seq<SelectorEntry>, pageUrl: string, pageTitle: string,
    target: JsStr, description: JsStr, manualId: string)

  /** The recorder's event list: records it already holds, whose fields these operations never read, and the ones added here. */
  datatype EventRecord = Recorded(key: nat) | AssertionEvent(assertion: AssertionRecord) | ConditionalEvent(conditional: ConditionalRecord)

  /** One `path.map` entry: null for an item without a selector, score 100 for the last item and 80 before it. */
  function PathEntry(item: Option<PathItem>, isLast: bool): Option<SelectorEntry>
  {
    if item.None? || !Truthy(item.value.selector) then None
    else
      var it := item.value;
      var t := if Truthy(it.selectorType) then it.selectorType else Some(SelectorUtils.InferSelectorType(it.selector));
      Some(SelectorEntry(it.selector, t, OrElse(it.textValue, None), OrElse(it.xpathValue, None),
                         OrElse(it.matchMode, None), if isLast then 100 else 80))
  }

  lemma PathEntryFacts(item: Option<PathItem>, isLast: bool)
    ensures PathEntry(item, isLast).None? <==> item.None? || !Truthy(item.value.selector)
    ensures PathEntry(item, isLast).Some? ==>
      var e := PathEntry(item, isLast).value;
      e.selector == item.value.selector && (if isLast then e.score == 100 else e.score == 80)
  {
  }

  /** `.filter(Boolean)` over the mapped entries. */
  function Present<T>(xs: seq<Option<T>>): (r: seq<T>)
    ensures |r| <= |xs|
  {
    if xs == [] then [] else (if xs[0].Some? then [xs[0].value] else []) + Present(xs[1..])
  }

  lemma {:induction false} PresentFacts<T>(xs: seq<Option<T>>)
    ensures |Present(xs)| == 0 <==> forall i :: 0 <= i < |xs| ==> xs[i].None?
    ensures forall x :: x in Present(xs) ==> Some(x) in xs
    ensures xs != [] && xs[|xs| - 1].Some? ==> Present(xs)[|Present(xs)| - 1] == xs[|xs| - 1].value
  {
    if xs != [] {
      PresentFacts(xs[1..]);
      assert forall i :: 1 <= i < |xs| ==> xs[i] == xs[1..][i - 1];
      if xs[|xs| - 1].Some? && |xs| > 1 {
        assert xs[1..][|xs[1..]| - 1] == xs[|xs| - 1];
      }
    }
  }

  /** The candidates built from a selection path. */
  function PathSelectors(path: seq<Option<PathItem>>): seq<SelectorEntry>
  {
    Present(PathEntries(path))
  }

  /** The `.map` over the path: one optional candidate per item, the last one marked. */
  function PathEntries(path: seq<Option<PathItem>>): (r: seq<Option<SelectorEntry>>)
    ensures |r| == |path|
  {
    seq(|path|, i requires 0 <= i < |path| => PathEntry(path[i], i == |path| - 1))
  }

  /**
   * A selection path yields a candidate per item carrying a selector; only
   * the last path item's candidate scores 100, the others 80; the last
   * candidate is the last item's when that item has a selector.
   */
  lemma PathSelectorsFacts(path: seq<Option<PathItem>>)
    ensures PathSelectors(path) == [] <==>
      forall i :: 0 <= i < |path| ==> path[i].None? || !Truthy(path[i].value.selector)
    ensures forall e :: e in PathSelectors(path) ==> Truthy(e.selector) && (e.score == 80 || e.score == 100)
    ensures forall e :: e in PathSelectors(path) && e.score == 100 ==>
      path[|path| - 1].Some? && e.selector == path[|path| - 1].value.selector
    ensures path != [] && path[|path| - 1].Some? && Truthy(path[|path| - 1].value.selector) ==>
      PathSelectors(path)[|PathSelectors(path)| - 1] == PathEntry(path[|path| - 1], true).value
  {
    PathSelectorsEmpty(path);
    PathSelectorsScores(path);
    PathSelectorsLast(path);
  }

  lemma PathSelectorsEmpty(path: seq<Option<PathItem>>)
    ensures PathSelectors(path) == [] <==>
      forall i :: 0 <= i < |path| ==> path[i].None? || !Truthy(path[i].value.selector)
  {
    var mapped := PathEntries(path);
    PresentFacts(mapped);
    forall i | 0 <= i < |path|
      ensures mapped[i].None? <==> path[i].None? || !Truthy(path[i].value.selector)
    {
      PathEntryFacts(path[i], i == |path| - 1);
    }
  }

  lemma PathSelectorsScores(path: seq<Option<PathItem>>)
    ensures forall e :: e in PathSelectors(path) ==> Truthy(e.selector) && (e.score == 80 || e.score == 100)
    ensures forall e :: e in PathSelectors(path) && e.score == 100 ==>
      path[|path| - 1].Some? && e.selector == path[|path| - 1].value.selector
  {
    var mapped := PathEntries(path);
    PresentFacts(mapped);
    forall e | e in PathSelectors(path)
      ensures Truthy(e.selector) && (e.score == 80 || e.score == 100)
      ensures e.score == 100 ==> path[|path| - 1].Some? && e.selector == path[|path| - 1].value.selector
    {
      var i :| 0 <= i < |mapped| && mapped[i] == Some(e);
      PathEntryFacts(path[i], i == |path| - 1);
    }
  }

  lemma PathSelectorsLast(path: seq<Option<PathItem>>)
    ensures path != [] && path[|path| - 1].Some? && Truthy(path[|path| - 1].value.selector) ==>
      PathSelectors(path) != [] && PathSelectors(path)[|PathSelectors(path)| - 1] == PathEntry(path[|path| - 1], true).value
  {
    var mapped := PathEntries(path);
    PresentFacts(mapped);
    if path != [] && path[|path| - 1].Some? && Truthy(path[|path| - 1].value.selector) {
      PathEntryFacts(path[|path| - 1], true);
      assert mapped[|path| - 1] == PathEntry(path[|path| - 1], true);
    }
  }

  datatype AddResult = NoSelectors | Added(record: AssertionRecord, events: seq<EventRecord>)

  /** `manual.id` of an assertion: `verify-<timestamp>`. */
  function VerifyId(ctx: Context): string { "verify-" + NatToString(ctx.timestamp) }

  /**
   * `addAssertionAfterStep(stepIndex, assertionType, path, value, matchMode, ...)`:
   * the record inserted after `stepIndex` and the new event list, or nothing
   * when a non-empty path yields no selector.
   */
  function AddAssertionAfterStep(events: seq<EventRecord>, stepIndex: int, assertionType: string,
                                 path: seq<Option<PathItem>>, value: JsStr, matchMode: JsStr, ctx: Context): AddResult
  {
    if |path| > 0 then
      var sels := PathSelectors(path);
      if sels == [] then NoSelectors
      else
        var target := sels[|sels| - 1];
        var last := path[|path| - 1];
        var frame := if last.Some? then last.value.iframeContext else None;
        var rec := AssertionRecord(assertionType, OrElse(value, None), sels, frame, ctx.url, ctx.title,
                                   VerifyId(ctx), Some(target), OrElse(matchMode, None));
        Added(rec, Splice(events, stepIndex + 1, AssertionEvent(rec)))
    else
      var v := if assertionType == "verifyTitle" then OrElse(value, Some(ctx.title))
               else if assertionType == "verifyUrl" then OrElse(value, Some(ctx.url))
               else value;
      var rec := AssertionRecord(assertionType, v, [], None, ctx.url, ctx.title, VerifyId(ctx), None, OrElse(matchMode, None));
      Added(rec, Splice(events, stepIndex + 1, AssertionEvent(rec)))
  }

  /**
   * Nothing is inserted exactly when a non-empty path has no item with a
   * selector; otherwise the record lands right after `stepIndex`, every
   * other event keeps its place relative to the others, and the record's
   * primary selector is its last candidate. A page assertion without a
   * value takes the current title or URL.
   */
  lemma AddAssertionAfterStepFacts(events: seq<EventRecord>, stepIndex: int, assertionType: string,
                                   path: seq<Option<PathItem>>, value: JsStr, matchMode: JsStr, ctx: Context)
    ensures var r := AddAssertionAfterStep(events, stepIndex, assertionType, path, value, matchMode, ctx);
      r.NoSelectors? <==> |path| > 0 && forall i :: 0 <= i < |path| ==> path[i].None? || !Truthy(path[i].value.selector)
    ensures var r := AddAssertionAfterStep(events, stepIndex, assertionType, path, value, matchMode, ctx);
      r.Added? ==>
        var i := SpliceIndex(|events|, stepIndex + 1);
        |r.events| == |events| + 1 && r.events[i] == AssertionEvent(r.record) &&
        r.events[..i] + r.events[i + 1..] == events &&
        (0 <= stepIndex < |events| ==> i == stepIndex + 1) &&
        r.record.action == assertionType &&
        (r.record.candidates != [] ==> r.record.primary == Some(r.record.candidates[|r.record.candidates| - 1])) &&
        (|path| == 0 ==> r.record.candidates == [] && r.record.primary.None?) &&
        (|path| == 0 && assertionType == "verifyTitle" && !Truthy(value) ==> r.record.value == Some(ctx.title)) &&
        (|path| == 0 && assertionType == "verifyUrl" && !Truthy(value) ==> r.record.value == Some(ctx.url))
  {
    PathSelectorsFacts(path);
    var r := AddAssertionAfterStep(events, stepIndex, assertionType, path, value, matchMode, ctx);
    if r.Added? {
      SpliceFacts(events, stepIndex + 1, AssertionEvent(r.record));
    }
  }

  /** The Korean label of a relation, or the relation itself: `relationLabels[r] || r`. */
  function RelationLabel(relation: JsStr): JsStr
  {
    if relation == Some("parent") then Some("부모 노드")
    else if relation == Some("ancestor") then Some("조상 노드")
    else if relation == Some("sibling") then Some("형제 노드")
    else if relation == Some("child") then Some("자식 노드")
    else relation
  }

  /** The Korean label of an action: `actionLabels[a] || a || '액션'`. */
  function ActionLabel(action: JsStr): string
  {
    if action == Some("click") then "클릭"
    else if action == Some("type") then "입력"
    else if action == Some("hover") then "호버"
    else if action == Some("doubleClick") then "더블 클릭"
    else if action == Some("rightClick") then "우클릭"
    else if Truthy(action) then action.value
    else "액션"
  }

  /** A value in a template literal: a missing one prints as `null`. */
  function Shown(s: JsStr): string
  {
    if s.Some? then s.value else "null"
  }

  /** The selector of an element when the element is given and its selector is not empty. */
  function SelectorOf(e: Option<ElementData>): JsStr
  {
    if e.Some? && Truthy(e.value.selector) then e.value.selector else None
  }

  /** The target text of a relative action: the first related element with a selector, else the explicit target, else the base. */
  function RelativeTarget(d: ActionData): string
  {
    var shown := Shown(RelationLabel(d.targetRelation));
    if SelectorOf(d.childElement).Some? then shown + ": " + SelectorOf(d.childElement).value
    else if SelectorOf(d.siblingElement).Some? then shown + ": " + SelectorOf(d.siblingElement).value
    else if SelectorOf(d.ancestorElement).Some? then shown + ": " + SelectorOf(d.ancestorElement).value
    else if Truthy(d.targetSelector) then shown + ": " + d.targetSelector.value
    else if SelectorOf(d.conditionElement).Some? then shown + " (기준: " + SelectorOf(d.conditionElement).value + ")"
    else shown
  }

  /** The `target` and `description` of the conditional record. */
  function TargetAndDescription(d: ActionData): (JsStr, JsStr)
  {
    if d.actionType == Some("relativeAction") then
      var t := RelativeTarget(d);
      (Some(t), Some(ActionLabel(d.actionTypeValue) + " - " + t))
    else if d.actionType == Some("conditionalAction") then
      (SelectorOf(d.conditionElement), Some("조건부 액션 (" + OrElse(d.conditionType, Some("조건")).value + ")"))
    else if d.actionType == Some("loopAction") then
      (if Truthy(d.loopSelector) then d.loopSelector else None,
       Some("반복 액션 (" + (if d.loopMode == Some("loop") then "반복" else "단일") + ")"))
    else (None, None)
  }

  /** `manual.id` of a conditional action: `conditional-<timestamp>`. */
  function ConditionalId(ctx: Context): string { "conditional-" + NatToString(ctx.timestamp) }

  /** The single candidate of a record whose condition element is given. */
  function ConditionCandidates(cond: Option<ElementData>): seq<SelectorEntry>
  {
    if cond.Some? then [SelectorEntry(cond.value.selector, Some("css"), None, None, None, 100)] else []
  }

  /** The event record of `addConditionalActionAfterStep`. */
  function ConditionalRecordOf(d: ActionData, ctx: Context): ConditionalRecord
  {
    var td := TargetAndDescription(d);
    ConditionalRecord(d.actionType, d, ConditionCandidates(d.conditionElement), ctx.url, ctx.title,
                      td.0, td.1, ConditionalId(ctx))
  }

  /** Where the conditional record goes: the end for `-1`, else right after `stepIndex`. */
  function ConditionalInsertIndex(events: seq<EventRecord>, stepIndex: int): int
  {
    if stepIndex == -1 then |events| else stepIndex + 1
  }

  /** `addConditionalActionAfterStep(stepIndex, actionData, ...)`: the record and the new event list. */
  function AddConditionalActionAfterStep(events: seq<EventRecord>, stepIndex: int, d: ActionData, ctx: Context)
    : (ConditionalRecord, seq<EventRecord>)
  {
    var rec := ConditionalRecordOf(d, ctx);
    (rec, Splice(events, ConditionalInsertIndex(events, stepIndex), ConditionalEvent(rec)))
  }

  /**
   * With step index -1 the record is appended; after an existing step it
   * goes right after it; the other events keep their order. The record
   * has exactly one candidate, scored 100 and carrying the condition
   * element's selector, when a condition element is given, and none
   * otherwise.
   */
  lemma AddConditionalActionAfterStepFacts(events: seq<EventRecord>, stepIndex: int, d: ActionData, ctx: Context)
    ensures var (rec, evs) := AddConditionalActionAfterStep(events, stepIndex, d, ctx);
      |evs| == |events| + 1 &&
      (stepIndex == -1 ==> evs == events + [ConditionalEvent(rec)]) &&
      (0 <= stepIndex < |events| ==> evs == events[..stepIndex + 1] + [ConditionalEvent(rec)] + events[stepIndex + 1..]) &&
      (exists i :: 0 <= i < |evs| && evs[i] == ConditionalEvent(rec) && evs[..i] + evs[i + 1..] == events)
    ensures var (rec, _) := AddConditionalActionAfterStep(events, stepIndex, d, ctx);
      (|rec.candidates| == 1 <==> d.conditionElement.Some?) && (d.conditionElement.None? <==> rec.candidates == []) &&
      (d.conditionElement.Some? ==> rec.candidates[0].score == 100 && rec.candidates[0].selector == d.conditionElement.value.selector)
  {
    var rec := ConditionalRecordOf(d, ctx);
    var k := ConditionalInsertIndex(events, stepIndex);
    SpliceFacts(events, k, ConditionalEvent(rec));
    if stepIndex == -1 {
      assert events[|events|..] == [];
    }
  }

  /**
   * The description of a relative action ends with its target, which
   * starts with the relation's label; a conditional action targets its
   * condition element's selector and a loop action its loop selector;
   * any other action has neither target nor description.
   */
  lemma TargetAndDescriptionFacts(d: ActionData)
    ensures var (t, desc) := TargetAndDescription(d);
      (d.actionType == Some("relativeAction") ==>
        t.Some? && desc.Some? && EndsWith(desc.value, t.value) &&
        StartsWith(t.value, Shown(RelationLabel(d.targetRelation)))) &&
      (d.actionType == Some("conditionalAction") ==> t == SelectorOf(d.conditionElement) && desc.Some?) &&
      (d.actionType == Some("loopAction") ==> (t.Some? <==> Truthy(d.loopSelector)) && desc.Some?) &&
      (d.actionType !in {Some("relativeAction"), Some("conditionalAction"), Some("loopAction")} ==> t.None? && desc.None?)
  {
    if d.actionType == Some("relativeAction") {
      var t := RelativeTarget(d);
      var pre := ActionLabel(d.actionTypeValue) + " - ";
      assert (pre + t)[|pre + t| - |t|..] == t;
      var shown := Shown(RelationLabel(d.targetRelation));
      assert forall x: string :: (shown + x)[..|shown|] == shown;
      assert forall x: string, y: string :: (shown + x + y)[..|shown|] == shown;
    }
  }
}
