/**
 * The recorder window's formatters and resolvers (`recorder-ui.js`): the
 * selector a timeline row shows, the labels and icons of selector types and
 * actions, the short target description, the delete button's state and the
 * editor mode of a generated language.
 */
module RecorderUi {
  import opened JsStrings
  import opened Candidates
  import opened EventRecords

  /** The word that ends every selector-type label ("selector"). */
  const LabelSuffix := "셀렉터"

  /** The label shown when no selector type is known ("selected selector"). */
  const NoTypeLabel := "선택된 " + LabelSuffix

  /**
   * `normalizeTimelineSelectorValue(raw)`: the trimmed value, or `''` for a
   * missing, blank or label-like value (one ending in the label word).
   */
  function NormalizeTimelineSelectorValue(raw: JsStr): string
  {
    if !Truthy(raw) then ""
    else
      var trimmed := Trim(raw.value);
      if trimmed == "" then ""
      else if EndsWith(trimmed, LabelSuffix) then ""
      else trimmed
  }

  /**
   * The value is `''` exactly when the input is missing, blank, or ends in
   * the label word once trimmed; otherwise it is the trimmed input.
   */
  lemma NormalizeTimelineSelectorValueFacts(raw: JsStr)
    ensures var r := NormalizeTimelineSelectorValue(raw);
      && (r == "" <==> !Truthy(raw) || Trim(raw.value) == "" || EndsWith(Trim(raw.value), LabelSuffix))
      && (r != "" ==> r == Trim(raw.value) && !EndsWith(r, LabelSuffix) && Trim(r) == r)
  {
    if Truthy(raw) {
      TrimIdempotent(raw.value);
    }
  }

  /** Normalising a normalised value changes nothing. */
  lemma NormalizeTimelineSelectorValueIdempotent(raw: JsStr)
    ensures var r := NormalizeTimelineSelectorValue(raw);
      NormalizeTimelineSelectorValue(Some(r)) == r
  {
    NormalizeTimelineSelectorValueFacts(raw);
  }

  /** The timeline shows this candidate's selector: it normalises to a non-empty value. */
  predicate ShownSelector(c: Candidate)
  {
    NormalizeTimelineSelectorValue(c.selector) != ""
  }

  /** The first index at `from` or later whose element satisfies `p`. */
  function FirstSatisfying<T>(xs: seq<T>, p: T -> bool, from: nat): (r: Option<nat>)
    requires from <= |xs|
    ensures r.Some? ==> from <= r.value < |xs| && p(xs[r.value])
    ensures r.Some? ==> forall j :: from <= j < r.value ==> !p(xs[j])
    ensures r.None? ==> forall j :: from <= j < |xs| ==> !p(xs[j])
    decreases |xs| - from
  {
    if from == |xs| then None
    else if p(xs[from]) then Some(from)
    else FirstSatisfying(xs, p, from + 1)
  }

  /** The first candidate at `from` or later whose selector normalises to a non-empty value. */
  function FirstShownCandidate(cs: seq<Candidate>, from: nat): (r: Option<nat>)
    requires from <= |cs|
    ensures r.Some? ==> from <= r.value < |cs| && ShownSelector(cs[r.value])
    ensures r.Some? ==> forall j :: from <= j < r.value ==> !ShownSelector(cs[j])
    ensures r.None? ==> forall j :: from <= j < |cs| ==> !ShownSelector(cs[j])
  {
    FirstSatisfying(cs, ShownSelector, from)
  }

  /** The fallback of a timeline row: the lower-cased tag name, or `''`. */
  function TagFallback(tag: JsStr): string
  {
    if Truthy(tag) then Lower(tag.value) else ""
  }

  /**
   * `resolveTimelineSelector(event)`: the first usable value among the
   * primary selector, the candidates, the XPath, the text and the raw
   * selector, else the lower-cased tag, else `''`.
   */
  function ResolveTimelineSelector(event: Option<EventRecord>): string
  {
    if event.None? then ""
    else
      var e := event.value;
      var primary := NormalizeTimelineSelectorValue(e.primarySelector);
      if primary != "" then primary
      else
        var shown := if e.selectorCandidates.Some? then FirstShownCandidate(e.selectorCandidates.value, 0) else None;
        if shown.Some? then NormalizeTimelineSelectorValue(e.selectorCandidates.value[shown.value].selector)
        else
          var xpath := NormalizeTimelineSelectorValue(e.primarySelectorXPath);
          if xpath != "" then xpath
          else
            var text := NormalizeTimelineSelectorValue(e.primarySelectorText);
            if text != "" then text
            else
              var raw := NormalizeTimelineSelectorValue(e.selector);
              if raw != "" then raw else TagFallback(e.tag)
  }

  /** The sources a timeline row reads, in the order it prefers them. */
  function SelectorSources(e: EventRecord): seq<JsStr>
  {
    var shown := if e.selectorCandidates.Some? then FirstShownCandidate(e.selectorCandidates.value, 0) else None;
    [e.primarySelector]
      + (if shown.Some? then [e.selectorCandidates.value[shown.value].selector] else [])
      + [e.primarySelectorXPath, e.primarySelectorText, e.selector]
  }

  /** The first source that normalises to a non-empty value, normalised; `''` when none does. */
  function FirstUsable(sources: seq<JsStr>): (r: string)
    ensures r != "" ==> exists i :: 0 <= i < |sources| && r == NormalizeTimelineSelectorValue(sources[i])
    ensures r == "" <==> forall i :: 0 <= i < |sources| ==> NormalizeTimelineSelectorValue(sources[i]) == ""
  {
    if sources == [] then ""
    else
      var v := NormalizeTimelineSelectorValue(sources[0]);
      if v != "" then v
      else
        var rest := FirstUsable(sources[1..]);
        assert forall i :: 1 <= i < |sources| ==> sources[i] == sources[1..][i - 1];
        rest
  }

  /**
   * A timeline row shows the first usable source in the order primary
   * selector, first usable candidate, XPath, text, raw selector; only when
   * none is usable does it fall back to the tag name. A value it shows from
   * a source is trimmed and never a label.
   */
  lemma ResolveTimelineSelectorPrecedence(e: EventRecord)
    ensures var r := ResolveTimelineSelector(Some(e));
      && (FirstUsable(SelectorSources(e)) != "" ==> r == FirstUsable(SelectorSources(e)))
      && (FirstUsable(SelectorSources(e)) == "" ==> r == TagFallback(e.tag))
    ensures ResolveTimelineSelector(None) == ""
  {
    var shown := if e.selectorCandidates.Some? then FirstShownCandidate(e.selectorCandidates.value, 0) else None;
    var t3: seq<JsStr> := [e.selector];
    var t2 := [e.primarySelectorText] + t3;
    var t1 := [e.primarySelectorXPath] + t2;
    var rest := if shown.Some? then [e.selectorCandidates.value[shown.value].selector] + t1 else t1;
    assert SelectorSources(e) == [e.primarySelector] + rest;
    FirstUsableCons(e.primarySelector, rest);
    if shown.Some? {
      FirstUsableCons(e.selectorCandidates.value[shown.value].selector, t1);
    }
    FirstUsableCons(e.primarySelectorXPath, t2);
    FirstUsableCons(e.primarySelectorText, t3);
    FirstUsableCons(e.selector, []);
  }

  lemma FirstUsableCons(a: JsStr, rest: seq<JsStr>)
    ensures FirstUsable([a] + rest) ==
      if NormalizeTimelineSelectorValue(a) != "" then NormalizeTimelineSelectorValue(a) else FirstUsable(rest)
  {
    assert ([a] + rest)[1..] == rest;
  }

  /** What a row shows from a source is never a label and has nothing to trim. */
  lemma ResolvedFromSourceIsClean(e: EventRecord)
    requires FirstUsable(SelectorSources(e)) != ""
    ensures var r := ResolveTimelineSelector(Some(e));
      r != "" && !EndsWith(r, LabelSuffix) && Trim(r) == r
  {
    ResolveTimelineSelectorPrecedence(e);
    var s := SelectorSources(e);
    var i :| 0 <= i < |s| && FirstUsable(s) == NormalizeTimelineSelectorValue(s[i]);
    NormalizeTimelineSelectorValueFacts(s[i]);
  }

  /** The name a label gives a lower-cased selector type. */
  function TypeName(lowered: string): string
  {
    match lowered
    case "css" => "CSS"
    case "text" => "텍스트"
    case "xpath" => "XPath"
    case "xpath-full" => "절대 XPath"
    case "id" => "ID"
    case "class" => "클래스"
    case "class-tag" => "태그+클래스"
    case "tag" => "태그"
    case _ => Upper(lowered)
  }

  /** The label of a lower-cased selector type. */
  function TypeLabel(lowered: string): string
  {
    TypeName(lowered) + " " + LabelSuffix
  }

  /** `formatSelectorTypeLabel(type)`. */
  function FormatSelectorTypeLabel(selectorType: JsStr): string
  {
    if !Truthy(selectorType) then NoTypeLabel else TypeLabel(Lower(selectorType.value))
  }

  /**
   * Every label ends in the label word, so the timeline never shows a label
   * in place of a selector; the label ignores the case of the type.
   */
  lemma FormatSelectorTypeLabelFacts(selectorType: JsStr)
    ensures EndsWith(FormatSelectorTypeLabel(selectorType), LabelSuffix)
    ensures NormalizeTimelineSelectorValue(Some(FormatSelectorTypeLabel(selectorType))) == ""
    ensures Truthy(selectorType) ==>
      FormatSelectorTypeLabel(Some(Lower(selectorType.value))) == FormatSelectorTypeLabel(selectorType)
  {
    var r := FormatSelectorTypeLabel(selectorType);
    if Truthy(selectorType) {
      LowerIdempotent(selectorType.value);
      EndsWithAppended(TypeName(Lower(selectorType.value)) + " ", LabelSuffix);
    } else {
      EndsWithAppended("선택된 ", LabelSuffix);
    }
    LabelSuffixUnspaced();
    TrimKeepsSuffix(r, LabelSuffix);
  }

  lemma EndsWithAppended(a: string, p: string)
    ensures EndsWith(a + p, p)
  {
    assert (a + p)[|a|..] == p;
  }

  /** Trimming keeps a suffix that holds no white space. */
  lemma TrimKeepsSuffix(s: string, p: string)
    requires EndsWith(s, p) && p != []
    requires forall i :: 0 <= i < |p| ==> !IsJsSpace(p[i])
    ensures Trim(s) != "" && EndsWith(Trim(s), p)
  {
    var u := TrimStart(s);
    TrimStartRemovesSpace(s);
    assert s[|s| - |p|] == p[0];
    assert |s| - |u| <= |s| - |p|;
    assert u[|u| - 1] == s[|s| - 1] == p[|p| - 1];
    assert TrimEnd(u) == u;
    assert u[|u| - |p|..] == s[|s| - |p|..];
  }

  /** The label word holds no white space. */
  lemma LabelSuffixUnspaced()
    ensures forall i :: 0 <= i < |LabelSuffix| ==> !IsJsSpace(LabelSuffix[i])
  {
    SpaceFromBounds(LabelSuffix[0], 0);
    SpaceFromBounds(LabelSuffix[1], 0);
    SpaceFromBounds(LabelSuffix[2], 0);
  }

  /** The icon of each known action. */
  function ActionIcon(action: string): Option<string>
  {
    match action
    case "click" => Some("👆")
    case "doubleClick" => Some("👆👆")
    case "rightClick" => Some("🖱")
    case "hover" => Some("👋")
    case "type" => Some("⌨")
    case "input" => Some("⌨")
    case "clear" => Some("🗑")
    case "select" => Some("📋")
    case "navigate" => Some("🌐")
    case "goto" => Some("🌐")
    case "open" => Some("🌐")
    case "wait" => Some("⏱")
    case "waitForElement" => Some("⏳")
    case "verifyText" => Some("✓")
    case "verifyTextContains" => Some("✓")
    case "verifyElementPresent" => Some("✓")
    case "verifyElementNotPresent" => Some("✗")
    case "verifyTitle" => Some("📄")
    case "verifyUrl" => Some("🔗")
    case "verifyImage" => Some("🖼")
    case _ => None
  }

  /** The label of each known action. */
  function ActionLabel(action: string): Option<string>
  {
    match action
    case "click" => Some("Click")
    case "doubleClick" => Some("Double click")
    case "rightClick" => Some("Right click")
    case "hover" => Some("Hover")
    case "type" => Some("Type")
    case "input" => Some("Type")
    case "clear" => Some("Clear")
    case "select" => Some("Select")
    case "navigate" => Some("Navigate")
    case "goto" => Some("Navigate")
    case "open" => Some("Navigate")
    case "wait" => Some("Wait")
    case "waitForElement" => Some("Wait for element")
    case "verifyText" => Some("Verify text")
    case "verifyTextContains" => Some("Verify text contains")
    case "verifyElementPresent" => Some("Verify element present")
    case "verifyElementNotPresent" => Some("Verify element not present")
    case "verifyTitle" => Some("Verify title")
    case "verifyUrl" => Some("Verify URL")
    case "verifyImage" => Some("Verify image")
    case _ => None
  }

  /** The icon shown for an unknown action. */
  const UnknownIcon := "•"

  /** `getActionIcon(action)`: the table's icon, or a bullet. */
  function GetActionIcon(action: JsStr): (r: string)
    ensures action.Some? && ActionIcon(action.value).Some? ==> r == ActionIcon(action.value).value
    ensures !(action.Some? && ActionIcon(action.value).Some?) ==> r == UnknownIcon
  {
    if action.Some? && ActionIcon(action.value).Some? then ActionIcon(action.value).value else UnknownIcon
  }

  /** `formatActionLabel(action)`: the table's label, or the action itself. */
  function FormatActionLabel(action: JsStr): (r: JsStr)
    ensures action.Some? && ActionLabel(action.value).Some? ==> r == ActionLabel(action.value)
    ensures !(action.Some? && ActionLabel(action.value).Some?) ==> r == action
  {
    if action.Some? && ActionLabel(action.value).Some? then ActionLabel(action.value) else action
  }

  /**
   * The two tables know the same actions, and no known action is its own
   * label, so an action has its own icon exactly when it is shown with a
   * label different from its name.
   */
  lemma ActionTablesAgree(action: string)
    ensures ActionIcon(action).Some? <==> ActionLabel(action).Some?
    ensures ActionIcon(action).Some? ==> ActionIcon(action).value != UnknownIcon
    ensures GetActionIcon(Some(action)) == UnknownIcon <==> FormatActionLabel(Some(action)) == Some(action)
  {
  }

  /** Aliases share their label: input with type, goto and open with navigate. */
  lemma ActionLabelAliases()
    ensures FormatActionLabel(Some("input")) == FormatActionLabel(Some("type"))
    ensures FormatActionLabel(Some("goto")) == FormatActionLabel(Some("navigate")) == FormatActionLabel(Some("open"))
  {
  }

  /**
   * `formatTargetInfo(ev)`: `#id`, else `.` and the first class name, else
   * the lower-cased tag name, else nothing.
   */
  function FormatTargetInfo(target: Option<TargetInfo>): (r: Option<string>)
    ensures r.Some? ==> target.Some? && r.value != ""
    ensures r.None? <==> target.None? || (!Truthy(target.value.id) && !Truthy(target.value.className) && !Truthy(target.value.tagName))
  {
    if target.None? then None
    else
      var t := target.value;
      if Truthy(t.id) then Some("#" + t.id.value)
      else if Truthy(t.className) then Some("." + Split(t.className.value, ' ')[0])
      else if Truthy(t.tagName) then Some(Lower(t.tagName.value))
      else None
  }

  /** The id wins over the class, the class over the tag; a class entry names one class. */
  lemma FormatTargetInfoPrecedence(t: TargetInfo)
    ensures Truthy(t.id) ==> FormatTargetInfo(Some(t)) == Some("#" + t.id.value)
    ensures !Truthy(t.id) && Truthy(t.className) ==>
      var r := FormatTargetInfo(Some(t)).value;
      r[0] == '.' && ' ' !in r[1..] && StartsWith(t.className.value, r[1..])
    ensures !Truthy(t.id) && !Truthy(t.className) && Truthy(t.tagName) ==>
      FormatTargetInfo(Some(t)) == Some(Lower(t.tagName.value))
  {
    if !Truthy(t.id) && Truthy(t.className) {
      var r := FormatTargetInfo(Some(t)).value;
      SplitFirstIsPrefix(t.className.value, ' ');
      assert r[1..] == Split(t.className.value, ' ')[0];
    }
  }

  /** The first piece of a split is what comes before the first separator. */
  lemma SplitFirstIsPrefix(s: string, c: char)
    ensures Split(s, c)[0] == BeforeFirst(s, c) && StartsWith(s, Split(s, c)[0])
  {
  }

  /** `updateDeleteButtonState`: the button is disabled unless an event is selected. */
  predicate DeleteDisabled(currentEventIndex: int, eventCount: nat)
  {
    !(currentEventIndex >= 0 && currentEventIndex < eventCount)
  }

  /** `getCodeMirrorMode(language, selectedLanguage)`. */
  function GetCodeMirrorMode(language: JsStr, selectedLanguage: JsStr): (r: string)
    ensures r == "text/x-python" || r == "text/typescript" || r == "text/javascript"
  {
    var lang := if Truthy(language) then language.value else if Truthy(selectedLanguage) then selectedLanguage.value else "javascript";
    if lang == "python" || lang == "python-class" then "text/x-python"
    else if lang == "typescript" then "text/typescript"
    else "text/javascript"
  }

  /**
   * The explicit language wins over the selected one; Python and its class
   * style use the Python mode, TypeScript its own, anything else (also no
   * language at all) JavaScript.
   */
  lemma GetCodeMirrorModeFacts(language: JsStr, selectedLanguage: JsStr)
    ensures Truthy(language) ==> GetCodeMirrorMode(language, selectedLanguage) == GetCodeMirrorMode(language, None)
    ensures !Truthy(language) ==> GetCodeMirrorMode(language, selectedLanguage) == GetCodeMirrorMode(selectedLanguage, None)
    ensures GetCodeMirrorMode(language, selectedLanguage) == "text/x-python" <==>
      var lang := if Truthy(language) then language.value else OrEmpty(selectedLanguage);
      lang == "python" || lang == "python-class"
    ensures GetCodeMirrorMode(None, None) == "text/javascript"
  {
  }
}
