/**
 * The helpers of the test-code generator (`src/renderer/utils/codeGenerator.js`):
 * the generator's own event normaliser, selector type inference and choice,
 * the text / XPath / attribute readers, escaping for double-quoted
 * literals, frame comparison, the timeline of events and manual actions,
 * and the try/except wrappers. The code emitters are in `CodeEmitter`.
 */
module CodeGenerator {
  import opened JsStrings
  import opened Candidates
  import opened EventRecords
  import opened KeySort
  import opened ActionTimeline
  import RecorderCore
  import RecorderSelection
  import SelectorUtils

  // ---------------------------------------------------------------------
  // normalizeEventRecord
  // ---------------------------------------------------------------------

  /** The version the generator gives a record without one. */
  const GeneratorDefaultVersion := 1

  /** `x || null` for an id that may be a string or a number. */
  function ScalarOrNull(x: Option<Scalar>): (r: Option<Scalar>)
    ensures ScalarTruthy(x) ==> r == x
    ensures !ScalarTruthy(x) ==> r.None?
  {
    if ScalarTruthy(x) then x else None
  }

  /** The `manual` object a raw manual record (`manual: true`) is given. */
  function ManualObject(e: EventRecord): Manual
  {
    ManualInfo(ScalarOrNull(e.manualActionId), OrElse(e.manualActionType, None),
               OrElse(e.manualResultName, None), OrElse(e.manualAttribute, None))
  }

  /** The fields every record gets. */
  function CommonDefaults(e: EventRecord): EventRecord
  {
    var version := if RecorderCore.VersionSet(e.version) then e.version.value else GeneratorDefaultVersion;
    e.(version := Some(version),
       metadata := if e.metadata.None? || e.metadata.value.schemaVersion.Undefined? then Some(Metadata(Val(version))) else e.metadata,
       page := RecorderCore.Default(e.page, Null),
       frame := if e.frame.Undefined? && e.iframeContext.Some? then Val(Frame(e.iframeContext)) else e.frame,
       manual := if e.manual == Val(Flag(true)) then Val(ManualObject(e)) else e.manual,
       wrapInTry := RecorderCore.Default(e.wrapInTry, Val(false)))
  }

  /** The fields of conditional, relative and loop actions: the recorder's, and the three element references. */
  function FlowDefaults(e: EventRecord): EventRecord
  {
    RecorderCore.FlowDefaults(e).(
      childElement := RecorderCore.Default(e.childElement, Null),
      siblingElement := RecorderCore.Default(e.siblingElement, Null),
      ancestorElement := RecorderCore.Default(e.ancestorElement, Null))
  }

  /** `normalizeEventRecord` of the generator, on the record's value. */
  function Normalized(e: EventRecord): EventRecord
  {
    var c := CommonDefaults(e);
    if IsFlowAction(e.action) then FlowDefaults(c) else c
  }

  /**
   * `normalizeEventRecord(event)`: a non-object (`null` here) is left as it
   * is; an object gets its missing fields filled in place.
   */
  method NormalizeEventRecord(event: EventObject?)
    modifies event
    ensures event != null ==> event.record == Normalized(old(event.record))
  {
    if event == null {
      return;
    }
    var e := event.record;
    if !RecorderCore.VersionSet(e.version) {
      e := e.(version := Some(GeneratorDefaultVersion));
    }
    if e.metadata.None? {
      e := e.(metadata := Some(Metadata(Val(e.version.value))));
    } else if e.metadata.value.schemaVersion.Undefined? {
      e := e.(metadata := Some(e.metadata.value.(schemaVersion := Val(e.version.value))));
    }
    if e.page.Undefined? {
      e := e.(page := Null);
    }
    if e.frame.Undefined? && e.iframeContext.Some? {
      e := e.(frame := Val(Frame(e.iframeContext)));
    }
    if e.manual == Val(Flag(true)) {
      e := e.(manual := Val(ManualObject(e)));
    }
    if e.wrapInTry.Undefined? {
      e := e.(wrapInTry := Val(false));
    }
    if IsFlowAction(e.action) {
      e := FlowDefaults(e);
    }
    event.record := e;
  }

  /**
   * The defaults the generator fills in: version 1 when the version is
   * falsy, a `schemaVersion` equal to the version when the metadata or its
   * `schemaVersion` is missing, `page: null`, a frame from the iframe
   * context, the manual object of a raw manual record, `wrapInTry: false`;
   * on conditional, relative and loop actions also the element
   * references, the condition and target fields, `actionType` 'click' and
   * `loopMode` 'single'. Nothing set before is overwritten, apart from
   * `manual: true`.
   */
  lemma NormalizedFacts(e: EventRecord)
    ensures var r := Normalized(e);
      && RecorderCore.VersionSet(r.version)
      && (RecorderCore.VersionSet(e.version) ==> r.version == e.version)
      && (!RecorderCore.VersionSet(e.version) ==> r.version == Some(GeneratorDefaultVersion))
      && r.metadata.Some? && !r.metadata.value.schemaVersion.Undefined?
      && (e.metadata.None? || e.metadata.value.schemaVersion.Undefined? ==> r.metadata.value.schemaVersion == Val(r.version.value))
      && (e.metadata.Some? && !e.metadata.value.schemaVersion.Undefined? ==> r.metadata == e.metadata)
      && r.page == RecorderCore.Default(e.page, Null) && r.wrapInTry == RecorderCore.Default(e.wrapInTry, Val(false))
      && (e.iframeContext.Some? ==> !r.frame.Undefined?)
      && (e.manual == Val(Flag(true)) ==> r.manual == Val(ManualInfo(ScalarOrNull(e.manualActionId),
            OrElse(e.manualActionType, None), OrElse(e.manualResultName, None), OrElse(e.manualAttribute, None))))
      && (e.manual != Val(Flag(true)) ==> r.manual == e.manual)
      && r.action == e.action && r.timestamp == e.timestamp && r.value == e.value
      && r.primarySelector == e.primarySelector && r.selectorCandidates == e.selectorCandidates && r.tag == e.tag
      && (IsFlowAction(e.action) ==>
            && r.actionType == RecorderCore.Default(e.actionType, Val("click"))
            && r.loopMode == RecorderCore.Default(e.loopMode, Val("single"))
            && !r.conditionElement.Undefined? && !r.childElement.Undefined?
            && !r.siblingElement.Undefined? && !r.ancestorElement.Undefined?
            && !r.conditionType.Undefined? && !r.conditionValue.Undefined?
            && !r.targetRelation.Undefined? && !r.targetSelector.Undefined?)
      && (!IsFlowAction(e.action) ==>
            && r.actionType == e.actionType && r.loopMode == e.loopMode && r.childElement == e.childElement
            && r.conditionElement == e.conditionElement && r.targetSelector == e.targetSelector)
  {
  }

  /** A second normalisation changes nothing. */
  lemma NormalizedIdempotent(e: EventRecord)
    ensures Normalized(Normalized(e)) == Normalized(e)
  {
    var r := Normalized(e);
    assert r.action == e.action;
    assert r.manual != Val(Flag(true));
    assert CommonDefaults(r) == r;
    if IsFlowAction(e.action) {
      assert FlowDefaults(r) == r;
    }
  }

  /**
   * On a record that already has a version and a schema version and is not
   * a raw manual record, the generator's normaliser is the recorder's plus
   * the three element references of flow actions.
   */
  lemma NormalizedExtendsRecorder(e: EventRecord)
    requires RecorderCore.VersionSet(e.version) && e.manual != Val(Flag(true))
    requires e.metadata.Some? && !e.metadata.value.schemaVersion.Undefined?
    ensures !IsFlowAction(e.action) ==> Normalized(e) == RecorderCore.Normalized(e)
    ensures IsFlowAction(e.action) ==> Normalized(e) == RecorderCore.Normalized(e).(
      childElement := RecorderCore.Default(e.childElement, Null),
      siblingElement := RecorderCore.Default(e.siblingElement, Null),
      ancestorElement := RecorderCore.Default(e.ancestorElement, Null))
  {
    assert CommonDefaults(e) == RecorderCore.CommonDefaults(e);
  }

  // ---------------------------------------------------------------------
  // inferSelectorType and selectSelectorForEvent
  // ---------------------------------------------------------------------

  /** The decision list of the generator's `inferSelectorType` on the trimmed selector. */
  function InferTrimmed(t: string): (r: JsStr)
  {
    if StartsWith(t, "xpath=") || StartsWith(t, "//") || StartsWith(t, "(") then Some("xpath")
    else if StartsWith(t, "text=") then Some("text")
    else Some("css")
  }

  /**
   * The generator's `inferSelectorType`: `null` for a missing or empty
   * selector, otherwise 'xpath', 'text' or 'css' by the trimmed selector's
   * prefix.
   */
  function InferSelectorType(selector: JsStr): (r: JsStr)
    ensures r.None? <==> !Truthy(selector)
  {
    if !Truthy(selector) then None else InferTrimmed(Trim(selector.value))
  }

  /**
   * The generator's inference against the selector toolkit's: they agree on
   * text selectors, every generator XPath is a toolkit XPath, and where the
   * generator says 'css' to a toolkit XPath the selector is a path with a
   * single leading `/`. Everything else the toolkit types (id, class,
   * attribute, tag, css) is 'css' to the generator.
   */
  lemma InferSelectorTypeAgrees(s: string)
    requires s != ""
    ensures InferSelectorType(Some(s)) == Some("text") <==> SelectorUtils.InferSelectorType(Some(s)) == "text"
    ensures InferSelectorType(Some(s)) == Some("xpath") ==> SelectorUtils.InferSelectorType(Some(s)) == "xpath"
    ensures InferSelectorType(Some(s)) == Some("css") && SelectorUtils.InferSelectorType(Some(s)) == "xpath" ==>
      StartsWith(Trim(s), "/") && !StartsWith(Trim(s), "//")
    ensures SelectorUtils.InferSelectorType(Some(s)) != "xpath" && SelectorUtils.InferSelectorType(Some(s)) != "text" ==>
      InferSelectorType(Some(s)) == Some("css")
  {
    var t := Trim(s);
    TrimIdempotent(s);
    SelectorUtils.InferSelectorTypeIsTrimmedType(t);
    SelectorUtils.InferSelectorTypeOfTrimmed(s);
    TrimmedAgrees(t);
  }

  lemma TrimmedAgrees(t: string)
    ensures InferTrimmed(t) == Some("text") <==> SelectorUtils.InferTrimmedType(t) == "text"
    ensures InferTrimmed(t) == Some("xpath") ==> SelectorUtils.InferTrimmedType(t) == "xpath"
    ensures InferTrimmed(t) == Some("css") && SelectorUtils.InferTrimmedType(t) == "xpath" ==>
      StartsWith(t, "/") && !StartsWith(t, "//")
    ensures SelectorUtils.InferTrimmedType(t) != "xpath" && SelectorUtils.InferTrimmedType(t) != "text" ==>
      InferTrimmed(t) == Some("css")
  {
    if StartsWith(t, "//") {
      assert StartsWith(t, "/") by { assert t[..1] == t[..2][..1]; }
    }
    if StartsWith(t, "text=") {
      assert t[0] == 't';
    }
    if StartsWith(t, "xpath=") {
      assert t[0] == 'x';
    }
  }

  /** The selector description `selectSelectorForEvent` returns. */
  datatype SelectorInfo = SelectorInfo(
    selector: JsStr,
    kind: JsStr,
    textValue: JsStr,
    xpathValue: JsStr,
    matchMode: JsStr,
    iframeContext: Option<FrameContext>)

  /** `{selector: null, type: null, iframeContext}`. */
  function NoSelector(frame: Option<FrameContext>): SelectorInfo
  {
    SelectorInfo(None, None, None, None, None, frame)
  }

  /** `candidate.score || 0`. */
  function ScoreOf(c: Candidate): int
  {
    if c.score.Some? then c.score.value else 0
  }

  /** The key of the descending sort `(b.score || 0) - (a.score || 0)`. */
  function NegScore(c: Candidate): int
  {
    -ScoreOf(c)
  }

  /** `[...candidates].sort(byScoreDescending)[0]`. */
  function BestCandidate(cands: seq<Candidate>): Candidate
    requires cands != []
  {
    SortedHeadIsLeast(cands, NegScore);
    SortByKey(cands, NegScore)[0]
  }

  /** The description built from a candidate. */
  function CandidateInfo(c: Candidate, frame: Option<FrameContext>): SelectorInfo
  {
    SelectorInfo(c.selector, OrElse(c.selectorType, InferSelectorType(c.selector)), OrElse(c.textValue, None),
                 OrElse(c.xpathValue, None), OrElse(c.matchMode, None), frame)
  }

  /** `selectSelectorForEvent(ev)`; `None` is a missing event. */
  function SelectSelectorForEvent(ev: Option<EventRecord>): SelectorInfo
  {
    if ev.None? then NoSelector(None)
    else
      var e := ev.value;
      if Truthy(e.primarySelector) then
        SelectorInfo(e.primarySelector, OrElse(e.primarySelectorType, InferSelectorType(e.primarySelector)),
                     OrElse(e.primarySelectorText, None), OrElse(e.primarySelectorXPath, None),
                     OrElse(e.primarySelectorMatchMode, None), e.iframeContext)
      else if NonEmptyList(e.selectorCandidates) then CandidateInfo(BestCandidate(e.selectorCandidates.value), e.iframeContext)
      else if Truthy(e.tag) then SelectorInfo(Some(Lower(e.tag.value)), Some("tag"), None, None, None, e.iframeContext)
      else NoSelector(e.iframeContext)
  }

  /**
   * The selector is chosen in this order: the primary selector, with its
   * type or the inferred one; else the candidate with the highest score, the
   * earliest one among equals; else the lower-cased tag, typed 'tag'; else
   * none. The frame is always the event's.
   */
  lemma SelectionOrder(e: EventRecord)
    ensures var r := SelectSelectorForEvent(Some(e));
      && r.iframeContext == e.iframeContext
      && (Truthy(e.primarySelector) ==>
            r.selector == e.primarySelector
            && r.kind == (if Truthy(e.primarySelectorType) then e.primarySelectorType else InferSelectorType(e.primarySelector)))
      && (!Truthy(e.primarySelector) && NonEmptyList(e.selectorCandidates) ==>
            var cs := e.selectorCandidates.value;
            exists i :: 0 <= i < |cs| && r == CandidateInfo(cs[i], e.iframeContext)
              && (forall j :: 0 <= j < |cs| ==> ScoreOf(cs[j]) <= ScoreOf(cs[i]))
              && (forall j :: 0 <= j < i ==> ScoreOf(cs[j]) < ScoreOf(cs[i])))
      && (!Truthy(e.primarySelector) && !NonEmptyList(e.selectorCandidates) && Truthy(e.tag) ==>
            r.selector == Some(Lower(e.tag.value)) && r.kind == Some("tag"))
      && (!Truthy(e.primarySelector) && !NonEmptyList(e.selectorCandidates) && !Truthy(e.tag) ==>
            r.selector.None? && r.kind.None?)
  {
    if !Truthy(e.primarySelector) && NonEmptyList(e.selectorCandidates) {
      var cs := e.selectorCandidates.value;
      var i := SortedHeadIsFirstLeast(cs, NegScore);
      assert BestCandidate(cs) == cs[i];
    }
  }

  // ---------------------------------------------------------------------
  // getTextValue, getXPathValue, getSelectorCore, ensureXPathSelector
  // ---------------------------------------------------------------------

  /** `raw.replace(/^['"]|['"]$/g, '')`: one leading and one trailing quote go. */
  function StripQuotes(raw: string): (r: string)
    ensures |r| <= |raw|
  {
    var a := if |raw| > 0 && IsQuote(raw[0]) then raw[1..] else raw;
    if |a| > 0 && IsQuote(a[|a| - 1]) then a[..|a| - 1] else a
  }

  /**
   * `getTextValue(selectorInfo)`: the text value when there is one, else the
   * body of a `text=` selector without its quotes and with `\"` and `\'`
   * read back, else `''`.
   */
  function GetTextValue(info: Option<SelectorInfo>): (r: string)
  {
    if info.None? then ""
    else if Truthy(info.value.textValue) then info.value.textValue.value
    else
      var selector := OrEmpty(info.value.selector);
      if StartsWith(selector, "text=") then
        SelectorUtils.UnescapeQuote(SelectorUtils.UnescapeQuote(StripQuotes(selector[5..]), '"'), '\'')
      else ""
  }

  /** A `text=` selector quoting `v` with its double quotes escaped. */
  function QuotedTextSelector(v: string): string
  {
    "text=\"" + SelectorUtils.EscapeQuote(v, '"') + "\""
  }

  /**
   * A text selector that quotes its text and escapes the quotes in it reads
   * back as that text (for a text without backslashes, which the unescaping
   * of `\'` would otherwise touch).
   */
  lemma TextSelectorReadBack(v: string, frame: Option<FrameContext>)
    requires '\\' !in v
    ensures GetTextValue(Some(SelectorInfo(Some(QuotedTextSelector(v)), Some("text"), None, None, None, frame))) == v
  {
    var esc := SelectorUtils.EscapeQuote(v, '"');
    var sel := QuotedTextSelector(v);
    assert sel[..5] == "text=";
    assert sel[5..] == "\"" + esc + "\"";
    assert StripQuotes(sel[5..]) == esc by {
      var raw := sel[5..];
      assert raw[1..] == esc + "\"";
    }
    SelectorUtils.UnescapeEscapeQuote(v, '"');
  }

  /** `getXPathValue(selectorInfo)`: the XPath value, else the selector without an `xpath=` prefix. */
  function GetXPathValue(info: Option<SelectorInfo>): (r: string)
  {
    if info.None? then ""
    else if Truthy(info.value.xpathValue) then info.value.xpathValue.value
    else
      var selector := OrEmpty(info.value.selector);
      if StartsWith(selector, "xpath=") then selector[6..] else selector
  }

  /** `getSelectorCore(selector)`: the selector without a `css=` or `xpath=` prefix. */
  function GetSelectorCore(selector: JsStr): (r: string)
    ensures !Truthy(selector) ==> r == ""
  {
    if !Truthy(selector) then ""
    else if StartsWith(selector.value, "css=") then selector.value[4..]
    else if StartsWith(selector.value, "xpath=") then selector.value[6..]
    else selector.value
  }

  /** `ensureXPathSelector(selector)`: `''` for no selector, else the selector with an `xpath=` prefix. */
  function EnsureXPathSelector(selector: JsStr): (r: string)
    ensures r == "" <==> !Truthy(selector)
    ensures r != "" ==> StartsWith(r, "xpath=")
    ensures Truthy(selector) && StartsWith(selector.value, "xpath=") ==> r == selector.value
  {
    if !Truthy(selector) then ""
    else if StartsWith(selector.value, "xpath=") then selector.value
    else "xpath=" + selector.value
  }

  /** Ensuring the prefix twice is ensuring it once. */
  lemma EnsureXPathSelectorIdempotent(selector: JsStr)
    ensures EnsureXPathSelector(Some(EnsureXPathSelector(selector))) == EnsureXPathSelector(selector)
  {
  }

  /**
   * Whichever way an XPath is written, with or without its prefix, the
   * core of the ensured selector, and the XPath read from it, is the path
   * itself.
   */
  lemma EnsuredXPathCore(s: string, frame: Option<FrameContext>)
    requires s != ""
    ensures var path := if StartsWith(s, "xpath=") then s[6..] else s;
      && GetSelectorCore(Some(EnsureXPathSelector(Some(s)))) == path
      && GetXPathValue(Some(SelectorInfo(Some(EnsureXPathSelector(Some(s))), Some("xpath"), None, None, None, frame))) == path
  {
    var r := EnsureXPathSelector(Some(s));
    assert StartsWith(r, "xpath=");
    assert !StartsWith(r, "css=") by { assert r[0] == 'x'; }
    if !StartsWith(s, "xpath=") {
      assert r[6..] == s;
    }
  }

  // ---------------------------------------------------------------------
  // escapeForDoubleQuotes
  // ---------------------------------------------------------------------

  /** `(str || '').replace(/\\/g, '\\\\').replace(/"/g, '\\"')`. */
  function EscapeForDoubleQuotes(s: JsStr): string
  {
    ReplaceChar(ReplaceChar(OrEmpty(s), '\\', "\\\\"), '"', "\\\"")
  }

  /** One character as the escaping writes it. */
  function EscapedChar(c: char): string
  {
    if c == '\\' then "\\\\" else if c == '"' then "\\\"" else [c]
  }

  /** The escaping, one character at a time. */
  function EscapeEach(s: string): string
  {
    if s == [] then [] else EscapedChar(s[0]) + EscapeEach(s[1..])
  }

  /** Reading a double-quoted literal's body: `\\` is a backslash and `\"` a quote. */
  function ReadLiteralBody(s: string): (r: string)
    decreases |s|
  {
    if |s| >= 2 && s[0] == '\\' && (s[1] == '\\' || s[1] == '"') then [s[1]] + ReadLiteralBody(s[2..])
    else if s == [] then []
    else [s[0]] + ReadLiteralBody(s[1..])
  }

  /**
   * A complete literal body: every backslash starts an escape, and no quote
   * stands alone, so the closing quote after it ends the literal.
   */
  predicate LiteralBody(s: string)
    decreases |s|
  {
    if s == [] then true
    else if s[0] == '\\' then |s| >= 2 && (s[1] == '\\' || s[1] == '"') && LiteralBody(s[2..])
    else s[0] != '"' && LiteralBody(s[1..])
  }

  lemma {:induction false} ReplaceCharAppend(a: string, b: string, c: char, rep: string)
    ensures ReplaceChar(a + b, c, rep) == ReplaceChar(a, c, rep) + ReplaceChar(b, c, rep)
  {
    if a != [] {
      assert (a + b)[1..] == a[1..] + b;
      ReplaceCharAppend(a[1..], b, c, rep);
    } else {
      assert a + b == b;
    }
  }

  /** The two global replacements are the character-wise escaping. */
  lemma {:induction false} EscapeIsEach(s: string)
    ensures EscapeForDoubleQuotes(Some(s)) == EscapeEach(s)
  {
    if s != [] {
      EscapeIsEach(s[1..]);
      var inner := ReplaceChar(s[1..], '\\', "\\\\");
      assert ReplaceChar(s, '\\', "\\\\") == (if s[0] == '\\' then "\\\\" else [s[0]]) + inner;
      ReplaceCharAppend(if s[0] == '\\' then "\\\\" else [s[0]], inner, '"', "\\\"");
    }
  }

  /**
   * The escaped text is a complete literal body, and reading it back gives
   * the input: a double-quoted Python or JavaScript literal around it
   * denotes exactly the original string.
   */
  lemma {:induction false} EscapeForDoubleQuotesRoundTrip(s: string)
    ensures LiteralBody(EscapeForDoubleQuotes(Some(s)))
    ensures ReadLiteralBody(EscapeForDoubleQuotes(Some(s))) == s
  {
    EscapeIsEach(s);
    EachRoundTrip(s);
  }

  lemma {:induction false} EachRoundTrip(s: string)
    ensures LiteralBody(EscapeEach(s)) && ReadLiteralBody(EscapeEach(s)) == s
  {
    if s != [] {
      EachRoundTrip(s[1..]);
      var rest := EscapeEach(s[1..]);
      var e := EscapedChar(s[0]);
      assert EscapeEach(s) == e + rest;
      if s[0] == '\\' || s[0] == '"' {
        assert (e + rest)[2..] == rest;
      } else {
        assert (e + rest)[1..] == rest;
      }
      assert s == [s[0]] + s[1..];
    }
  }

  // ---------------------------------------------------------------------
  // extractAttributeValue
  // ---------------------------------------------------------------------

  /** The end of the white space (`\s*`) from `i`. */
  function SkipSpaces(s: string, i: nat): (j: nat)
    requires i <= |s|
    ensures i <= j <= |s| && (j == |s| || !IsJsSpace(s[j]))
    decreases |s| - i
  {
    if i < |s| && IsJsSpace(s[i]) then SkipSpaces(s, i + 1) else i
  }

  /** The end of the run of non-quote characters (`[^"']+`) from `i`. */
  function QuoteFreeEnd(s: string, i: nat): (j: nat)
    requires i <= |s|
    ensures i <= j <= |s| && (j == |s| || IsQuote(s[j]))
    ensures forall k :: i <= k < j ==> !IsQuote(s[k])
    decreases |s| - i
  {
    if i < |s| && !IsQuote(s[i]) then QuoteFreeEnd(s, i + 1) else i
  }

  /**
   * The value `\[attr\s*op\s*["']([^"']+)["']\]` captures when it matches at
   * `i`. The pattern has a single way to match from a given start, so this
   * is what the regular expression engine finds there.
   */
  function AttrMatchAt(s: string, i: nat, attr: string, op: string): (r: JsStr)
    requires i <= |s|
    ensures r.Some? ==> r.value != "" && forall k :: 0 <= k < |r.value| ==> !IsQuote(r.value[k])
  {
    var head := "[" + attr;
    if !OccursAt(s, head, i) then None
    else
      var a := SkipSpaces(s, i + |head|);
      if !OccursAt(s, op, a) then None
      else
        var b := SkipSpaces(s, a + |op|);
        if b >= |s| || !IsQuote(s[b]) then None
        else
          var c := QuoteFreeEnd(s, b + 1);
          if c == b + 1 || c + 1 >= |s| || s[c + 1] != ']' then None
          else Some(s[b + 1..c])
  }

  /** The leftmost match from `i` on. */
  function FirstAttrMatch(s: string, i: nat, attr: string, op: string): (r: JsStr)
    requires i <= |s|
    ensures r.Some? ==> r.value != "" && forall k :: 0 <= k < |r.value| ==> !IsQuote(r.value[k])
    decreases |s| - i
  {
    var m := AttrMatchAt(s, i, attr, op);
    if m.Some? then m
    else if i == |s| then None
    else FirstAttrMatch(s, i + 1, attr, op)
  }

  /**
   * `extractAttributeValue(selector, attrName)`: the value of the first
   * `[attr="…"]`, else of the first `[attr*="…"]`, else `''`. The attribute
   * name is taken literally (the generator only passes `data-testid`, in
   * which no character is special to a regular expression).
   */
  function ExtractAttributeValue(selector: JsStr, attrName: JsStr): (r: string)
    ensures forall k :: 0 <= k < |r| ==> !IsQuote(r[k])
  {
    if !Truthy(selector) || !Truthy(attrName) then ""
    else
      var exact := FirstAttrMatch(selector.value, 0, attrName.value, "=");
      if exact.Some? then exact.value
      else
        var partial := FirstAttrMatch(selector.value, 0, attrName.value, "*=");
        if partial.Some? then partial.value else ""
  }

  /** An attribute selector `[attr="v"]` gives back its value. */
  lemma AttributeReadBack(attr: string, v: string)
    requires attr != "" && v != "" && forall k :: 0 <= k < |v| ==> !IsQuote(v[k])
    ensures ExtractAttributeValue(Some("[" + attr + "=\"" + v + "\"]"), Some(attr)) == v
  {
    var s := "[" + attr + "=\"" + v + "\"]";
    var head := "[" + attr;
    var n := |head|;
    assert s[..n] == head;
    assert s[n] == '=';
    assert !IsJsSpace('=') && !IsJsSpace('"');
    assert SkipSpaces(s, n) == n;
    assert OccursAt(s, "=", n);
    assert s[n + 1] == '"';
    assert SkipSpaces(s, n + 1) == n + 1;
    QuoteFreeEndAt(s, n + 2, |v|);
    assert s[n + 2..n + 2 + |v|] == v;
    assert s[n + 3 + |v|] == ']';
  }

  lemma QuoteFreeEndAt(s: string, i: nat, len: nat)
    requires i + len < |s| && IsQuote(s[i + len])
    requires forall k :: i <= k < i + len ==> !IsQuote(s[k])
    ensures QuoteFreeEnd(s, i) == i + len
    decreases len
  {
    if len > 0 {
      QuoteFreeEndAt(s, i + 1, len - 1);
    }
  }

  // ---------------------------------------------------------------------
  // framesEqual
  // ---------------------------------------------------------------------

  /** `framesEqual(a, b)`: both absent, or the same id, name and source (each `|| null`). */
  predicate FramesEqual(a: Option<FrameContext>, b: Option<FrameContext>)
  {
    if a.None? && b.None? then true
    else if a.None? || b.None? then false
    else
      && OrElse(a.value.id, None) == OrElse(b.value.id, None)
      && OrElse(a.value.name, None) == OrElse(b.value.name, None)
      && OrElse(a.value.src, None) == OrElse(b.value.src, None)
  }

  /** Frame equality is an equivalence: reflexive, symmetric and transitive. */
  lemma FramesEqualIsEquivalence(a: Option<FrameContext>, b: Option<FrameContext>, c: Option<FrameContext>)
    ensures FramesEqual(a, a)
    ensures FramesEqual(a, b) ==> FramesEqual(b, a)
    ensures FramesEqual(a, b) && FramesEqual(b, c) ==> FramesEqual(a, c)
  {
  }

  /** Two frames that differ only in empty versus missing fields are equal. */
  lemma FramesEqualIgnoresEmpty(a: FrameContext)
    ensures FramesEqual(Some(a), Some(FrameContext(OrElse(a.id, None), OrElse(a.name, None), OrElse(a.src, None))))
  {
  }

  // ---------------------------------------------------------------------
  // buildActionTimeline
  // ---------------------------------------------------------------------

  /** A manual action handed to the generator; `path` is `None` when it is not an array. */
  datatype ManualAction = ManualAction(
    id: JsStr,
    actionType: JsStr,
    path: Option<seq<RecorderSelection.PathItem>>,
    createdAt: Option<int>)

  /** A timeline entry: a normalised event with its selector, or a manual action. */
  datatype TimelineItem = EventItem(event: EventRecord, info: SelectorInfo) | ManualItem(action: ManualAction)

  /** The time of an event: its timestamp when that is a number, else 0. */
  function EventTime(e: EventRecord): int
  {
    if e.timestamp.Some? && e.timestamp.value.Num? then e.timestamp.value.n else 0
  }

  /** `maxEventTimestamp` after the events loop. */
  function MaxTime(events: seq<EventRecord>): (m: int)
    ensures m >= 0 && forall i :: 0 <= i < |events| ==> EventTime(events[i]) <= m
  {
    if events == [] then 0
    else
      var m := MaxTime(events[..|events| - 1]);
      var t := EventTime(events[|events| - 1]);
      if t > m then t else m
  }

  /** The entry the events loop pushes for event `e` at position `k`. */
  function EventEntry(e: EventRecord, k: nat): Entry<TimelineItem>
  {
    Entry(EventItem(Normalized(e), SelectSelectorForEvent(Some(Normalized(e)))), EventTime(e), k)
  }

  /** The entries the events loop pushes. */
  function EventEntries(events: seq<EventRecord>): (r: seq<Entry<TimelineItem>>)
    ensures |r| == |events|
  {
    if events == [] then []
    else
      var k := |events| - 1;
      EventEntries(events[..k]) + [EventEntry(events[k], k)]
  }

  /** A manual action the timeline keeps: an object whose path is a non-empty array. */
  predicate Kept(m: Option<ManualAction>)
  {
    m.Some? && m.value.path.Some? && |m.value.path.value| > 0
  }

  /** `maxEventTimestamp || Date.now()`. */
  function FallbackBase(maxTime: int, now: int): int
  {
    if maxTime != 0 then maxTime else now
  }

  /** The time of a kept manual action: its numeric `createdAt`, else the fallback base plus its offset. */
  function ManualTime(a: ManualAction, offset: nat, base: int): int
  {
    if a.createdAt.Some? then a.createdAt.value else base + offset
  }

  /** The entries the manual-actions loop pushes, numbering from `s` with fallback offset `offset`. */
  function ManualEntries(ms: seq<Option<ManualAction>>, s: nat, offset: nat, base: int): seq<Entry<TimelineItem>>
  {
    if ms == [] then []
    else if !Kept(ms[0]) then ManualEntries(ms[1..], s, offset, base)
    else [Entry(ManualItem(ms[0].value), ManualTime(ms[0].value, offset, base), s)] + ManualEntries(ms[1..], s + 1, offset + 1, base)
  }

  /** The number of kept manual actions. */
  function KeptCount(ms: seq<Option<ManualAction>>): nat
  {
    if ms == [] then 0 else (if Kept(ms[0]) then 1 else 0) + KeptCount(ms[1..])
  }

  /** `xs` when it is an array, else `[]`. */
  function ListOrEmpty<T>(xs: Option<seq<T>>): seq<T>
  {
    if xs.Some? then xs.value else []
  }

  /** `buildActionTimeline(events, manualList)` at time `now`. */
  function Timeline(events: Option<seq<EventRecord>>, manualList: Option<seq<Option<ManualAction>>>, now: int): seq<Entry<TimelineItem>>
  {
    var es := ListOrEmpty(events);
    Sort(EventEntries(es) + ManualEntries(ListOrEmpty(manualList), |es|, 0, FallbackBase(MaxTime(es), now)))
  }

  /** The events loop: each event, normalised and with its selector, numbered by position; and the latest event time. */
  method PushEvents(es: seq<EventRecord>) returns (timeline: seq<Entry<TimelineItem>>, maxEventTimestamp: int)
    ensures timeline == EventEntries(es)
    ensures maxEventTimestamp == MaxTime(es)
  {
    timeline := [];
    var sequence := 0;
    maxEventTimestamp := 0;
    for i := 0 to |es|
      invariant sequence == i
      invariant timeline == EventEntries(es[..i])
      invariant maxEventTimestamp == MaxTime(es[..i])
    {
      var normalizedEvent := Normalized(es[i]);
      var timestamp := if normalizedEvent.timestamp.Some? && normalizedEvent.timestamp.value.Num? then normalizedEvent.timestamp.value.n else 0;
      if timestamp > maxEventTimestamp {
        maxEventTimestamp := timestamp;
      }
      timeline := timeline + [Entry(EventItem(normalizedEvent, SelectSelectorForEvent(Some(normalizedEvent))), timestamp, sequence)];
      sequence := sequence + 1;
      TakeSnoc(es, i);
    }
    assert es[..|es|] == es;
  }

  /**
   * The manual-actions loop: the kept actions, numbered on from `start`,
   * timed by `createdAt` or by `base` plus how many fallbacks came before.
   */
  method PushManualActions(ms: seq<Option<ManualAction>>, start: nat, base: int) returns (pushed: seq<Entry<TimelineItem>>)
    ensures pushed == ManualEntries(ms, start, 0, base)
  {
    pushed := [];
    var sequence := start;
    var manualFallbackOffset := 0;
    assert ms[0..] == ms;
    for i := 0 to |ms|
      invariant sequence == start + manualFallbackOffset
      invariant ManualEntries(ms, start, 0, base) == pushed + ManualEntries(ms[i..], sequence, manualFallbackOffset, base)
    {
      assert ms[i..][1..] == ms[i + 1..];
      var action := ms[i];
      if Kept(action) {
        var created := if action.value.createdAt.Some? then action.value.createdAt.value else base + manualFallbackOffset;
        manualFallbackOffset := manualFallbackOffset + 1;
        pushed := pushed + [Entry(ManualItem(action.value), created, sequence)];
        sequence := sequence + 1;
      }
    }
    assert ms[|ms|..] == [];
    assert pushed + [] == pushed;
  }

  /** The events loop and the manual-actions loop, then the sort. */
  method BuildActionTimeline(events: Option<seq<EventRecord>>, manualList: Option<seq<Option<ManualAction>>>, now: int)
    returns (timeline: seq<Entry<TimelineItem>>)
    ensures timeline == Timeline(events, manualList, now)
  {
    var es := ListOrEmpty(events);
    var eventPart, maxEventTimestamp := PushEvents(es);
    var manualPart := PushManualActions(ListOrEmpty(manualList), |es|, FallbackBase(maxEventTimestamp, now));
    timeline := Sort(eventPart + manualPart);
  }

  lemma {:induction false} EventEntriesAt(events: seq<EventRecord>)
    ensures forall i :: 0 <= i < |events| ==> EventEntries(events)[i] == EventEntry(events[i], i)
  {
    if events != [] {
      var k := |events| - 1;
      EventEntriesAt(events[..k]);
    }
  }

  lemma {:induction false} ManualEntriesFacts(ms: seq<Option<ManualAction>>, s: nat, offset: nat, base: int)
    ensures |ManualEntries(ms, s, offset, base)| == KeptCount(ms)
    ensures forall x :: x in ManualEntries(ms, s, offset, base) ==>
      x.item.ManualItem? && Kept(Some(x.item.action)) && x.sequence >= s
      && x.time == ManualTime(x.item.action, x.sequence - s + offset, base)
    ensures forall i :: 0 <= i < |ms| && Kept(ms[i]) ==>
      exists x :: x in ManualEntries(ms, s, offset, base) && x.item == ManualItem(ms[i].value)
  {
    if ms != [] {
      var s', o' := if Kept(ms[0]) then s + 1 else s, if Kept(ms[0]) then offset + 1 else offset;
      ManualEntriesFacts(ms[1..], s', o', base);
      forall i | 0 < i < |ms| && Kept(ms[i])
        ensures exists x :: x in ManualEntries(ms, s, offset, base) && x.item == ManualItem(ms[i].value)
      {
        assert ms[1..][i - 1] == ms[i];
      }
      if Kept(ms[0]) {
        assert ManualEntries(ms, s, offset, base)[0].item == ManualItem(ms[0].value);
      }
    }
  }

  /**
   * The timeline is ordered by time, then sequence; it holds every event,
   * normalised, with its selector, numbered by its position and timed by
   * its timestamp (0 when that is not a number), and every manual action
   * whose path is a non-empty array, after the events; the others are
   * dropped. A manual action without a numeric `createdAt` is timed at the
   * largest event timestamp (or `now` when that is 0) plus the number of
   * manual actions kept before it.
   */
  lemma TimelineFacts(events: seq<EventRecord>, ms: seq<Option<ManualAction>>, now: int)
    ensures var t := Timeline(Some(events), Some(ms), now);
      && Ordered(t)
      && |t| == |events| + KeptCount(ms)
      && (forall i :: 0 <= i < |events| ==> EventEntry(events[i], i) in t)
      && (forall i :: 0 <= i < |ms| && Kept(ms[i]) ==> exists x :: x in t && x.item == ManualItem(ms[i].value))
      && (forall x :: x in t && x.item.ManualItem? ==>
            Kept(Some(x.item.action)) && x.sequence >= |events|
            && x.time == ManualTime(x.item.action, x.sequence - |events|, FallbackBase(MaxTime(events), now)))
  {
    var base := FallbackBase(MaxTime(events), now);
    var es := EventEntries(events);
    var mes := ManualEntries(ms, |events|, 0, base);
    var t := Timeline(Some(events), Some(ms), now);
    assert t == Sort(es + mes);
    SortFacts(es + mes);
    SortSameMembers(es + mes);
    EventEntriesAt(events);
    ManualEntriesFacts(ms, |events|, 0, base);
    forall i | 0 <= i < |events| ensures EventEntry(events[i], i) in t {
      assert es[i] in es + mes;
    }
    EventEntriesAreEvents(events);
    forall x | x in t && x.item.ManualItem?
      ensures Kept(Some(x.item.action)) && x.sequence >= |events|
      ensures x.time == ManualTime(x.item.action, x.sequence - |events|, base)
    {
      assert x in mes;
    }
  }

  /** The events loop pushes only event entries. */
  lemma EventEntriesAreEvents(events: seq<EventRecord>)
    ensures forall y :: y in EventEntries(events) ==> y.item.EventItem?
  {
    var es := EventEntries(events);
    EventEntriesAt(events);
    forall y | y in es ensures y.item.EventItem? {
      var k :| 0 <= k < |es| && es[k] == y;
    }
  }

  /** The sort keeps exactly the entries it is given. */
  lemma SortSameMembers<T>(xs: seq<Entry<T>>)
    ensures forall x :: x in Sort(xs) <==> x in xs
  {
    SortFacts(xs);
    forall x ensures x in Sort(xs) <==> x in xs {
      assert x in Sort(xs) <==> x in multiset(Sort(xs));
      assert x in xs <==> x in multiset(xs);
    }
  }

  // ---------------------------------------------------------------------
  // wrapPythonInTry and wrapJSInTry
  // ---------------------------------------------------------------------

  /** What an action builder returns: one line, or an array of lines. */
  datatype ActionCode = Line(text: string) | Lines(lines: seq<string>)

  /** The lines of an action's code. */
  function CodeLines(c: ActionCode): seq<string>
  {
    if c.Line? then [c.text] else c.lines
  }

  /** The code a wrapper leaves alone: none, an empty line, or an empty array. */
  predicate NothingToWrap(c: Option<ActionCode>)
  {
    c.None? || (c.value.Line? && c.value.text == "") || (c.value.Lines? && c.value.lines == [])
  }

  /** The message the generated handlers report on a failed lookup. */
  const FailureMessage := "요소 탐색 실패"

  /** The three lines that close a Python `try` block. */
  function PythonExcept(indent: string): seq<string>
  {
    [indent + "except Exception as e:",
     indent + "    print(f\"" + FailureMessage + ": {type(e).__name__}\")",
     indent + "    pass"]
  }

  /** Each line, left-trimmed, one level inside the block. */
  function PythonTryBody(lines: seq<string>, indent: string): (r: seq<string>)
    ensures |r| == |lines|
  {
    seq(|lines|, k requires 0 <= k < |lines| => indent + "    " + TrimStart(lines[k]))
  }

  /** `wrapPythonInTry(actionLines, indent)`. */
  function WrapPythonInTry(actionLines: Option<ActionCode>, indent: string): (r: Option<ActionCode>)
    ensures NothingToWrap(actionLines) ==> r == actionLines
    ensures !NothingToWrap(actionLines) ==> r.Some? && r.value.Lines? && |r.value.lines| == |CodeLines(actionLines.value)| + 4
  {
    if NothingToWrap(actionLines) then actionLines
    else
      var lines := CodeLines(actionLines.value);
      Some(Lines([indent + "try:"] + PythonTryBody(lines, indent) + PythonExcept(indent)))
  }

  /** The statements inside a `try` block of `n` lines, with the block's indentation removed. */
  function TryBlockStatements(block: seq<string>, indent: string): seq<string>
    requires |block| >= 4
  {
    seq(|block| - 4, k requires 0 <= k < |block| - 4 =>
      var line := block[k + 1];
      if StartsWith(line, indent + "    ") then line[|indent| + 4..] else line)
  }

  /**
   * A wrapped block opens with `try:` and closes with the `except` clause
   * at the given indentation, and its statements, with the indentation
   * removed, are the action's lines without their leading white space.
   */
  lemma WrapPythonInTryFacts(code: ActionCode, indent: string)
    requires !NothingToWrap(Some(code))
    ensures var block := WrapPythonInTry(Some(code), indent).value.lines;
      && block[0] == indent + "try:"
      && block[|block| - 3..] == PythonExcept(indent)
      && TryBlockStatements(block, indent) == seq(|CodeLines(code)|, k requires 0 <= k < |CodeLines(code)| => TrimStart(CodeLines(code)[k]))
  {
    var lines := CodeLines(code);
    var block := WrapPythonInTry(Some(code), indent).value.lines;
    assert block == [indent + "try:"] + PythonTryBody(lines, indent) + PythonExcept(indent);
    forall k | 0 <= k < |lines| ensures TryBlockStatements(block, indent)[k] == TrimStart(lines[k]) {
      var line := block[k + 1];
      assert line == indent + "    " + TrimStart(lines[k]);
      assert line[..|indent| + 4] == indent + "    ";
      assert line[|indent| + 4..] == TrimStart(lines[k]);
    }
  }

  /** The line a JavaScript `catch` logs. */
  const JsCatchLog := "console.error(\"" + FailureMessage + ":\", e.name || \"Error\");"

  /** A JavaScript `try` block around `body`. */
  function JsTryBlock(body: seq<string>, indent: string): seq<string>
  {
    [indent + "try {"] + body + [indent + "} catch (e) {", indent + "  " + JsCatchLog, indent + "}"]
  }

  /** The non-blank lines, left-trimmed, one level inside the block. */
  function JsTryBody(lines: seq<string>, indent: string): (r: seq<string>)
    ensures |r| <= |lines|
  {
    if lines == [] then []
    else (if Trim(lines[0]) != "" then [indent + "  " + TrimStart(lines[0])] else []) + JsTryBody(lines[1..], indent)
  }

  /** `wrapJSInTry(actionLine, indent)`. */
  function WrapJSInTry(actionLine: JsStr, indent: string): (r: JsStr)
    ensures !Truthy(actionLine) ==> r == actionLine
    ensures Truthy(actionLine) ==> r.Some?
  {
    if !Truthy(actionLine) then actionLine
    else
      var s := actionLine.value;
      if '\n' in s then Some(Join(JsTryBlock(JsTryBody(Split(s, '\n'), indent), indent), "\n"))
      else Some(indent + "try {" + "\n" + indent + "  " + TrimStart(s) + "\n" + indent + "} catch (e) {" + "\n"
                + indent + "  " + JsCatchLog + "\n" + indent + "}")
  }

  /**
   * The one-line case writes out the same block the multi-line case builds
   * for a single non-blank line.
   */
  lemma WrapJSInTrySingleLine(s: string, indent: string)
    requires '\n' !in s && Trim(s) != ""
    ensures WrapJSInTry(Some(s), indent) == Some(Join(JsTryBlock(JsTryBody([s], indent), indent), "\n"))
  {
    assert s != "";
    var body := indent + "  " + TrimStart(s);
    assert JsTryBody([s], indent) == [body] by {
      assert [s][1..] == [];
    }
    var a, c, d, e := indent + "try {", indent + "} catch (e) {", indent + "  " + JsCatchLog, indent + "}";
    var lines := JsTryBlock([body], indent);
    assert lines == [a, body, c, d, e];
    JoinFive(a, body, c, d, e);
    var p1 := a + "\n";
    AppendThree(p1, indent, "  ", TrimStart(s));
    var p2 := p1 + body + "\n";
    ConcatAssoc(p2, indent, "} catch (e) {");
    var p3 := p2 + c + "\n";
    AppendThree(p3, indent, "  ", JsCatchLog);
    var p4 := p3 + d + "\n";
    ConcatAssoc(p4, indent, "}");
  }

  lemma AppendThree(p: string, x: string, y: string, z: string)
    ensures p + x + y + z == p + (x + y + z)
  {
  }

  lemma JoinFive(a: string, b: string, c: string, d: string, e: string)
    ensures Join([a, b, c, d, e], "\n") == a + "\n" + b + "\n" + c + "\n" + d + "\n" + e
  {
    JoinCons(d, [e], "\n");
    assert [d] + [e] == [d, e];
    JoinCons(c, [d, e], "\n");
    assert [c] + [d, e] == [c, d, e];
    ConcatAssoc(c + "\n", d + "\n", e);
    JoinCons(b, [c, d, e], "\n");
    assert [b] + [c, d, e] == [b, c, d, e];
    ConcatAssoc(b + "\n", c + "\n" + d + "\n", e);
    JoinCons(a, [b, c, d, e], "\n");
    assert [a] + [b, c, d, e] == [a, b, c, d, e];
    ConcatAssoc(a + "\n", b + "\n" + c + "\n" + d + "\n", e);
  }

}
