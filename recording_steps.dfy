/**
 * How the Electron main process turns recorded browser events into the
 * keyword steps of a test case (`convertEventToStep` in `src/main/main.js`),
 * and the handlers that store those steps in the `steps` column of the
 * local `test_cases` table: the end of a recording
 * (`processRecordingData`), one step saved while recording
 * (`save-event-step`) and one step deleted (`delete-tc-step`).
 * The column is kept as the outcome of `JSON.parse` on its text; the
 * database itself, logging and timestamps are not modelled.
 */
module RecordingSteps {
  import opened JsStrings
  import opened JsonValues

  /** `event.target.selectors`; a missing object reads as all fields missing. */
  datatype SelectorSet = SelectorSet(id: JsStr, css: JsStr, xpath: JsStr, text: JsStr, name: JsStr, dataTestId: JsStr)

  /** `event.target`, as far as the conversion reads it. */
  datatype EventTarget = EventTarget(
    selectors: SelectorSet,
    id: JsStr,
    className: JsStr,
    tagName: JsStr,
    text: JsStr,
    selector: JsStr,
    xpath: JsStr)

  /**
   * A recorded event. `kind` is `event.type`; `candidates` holds the
   * `selector` of each entry of `selectorCandidates` and `selectorList` the
   * entries of `selectors` (both empty when the property is missing or not
   * an array); `pageUrl` is `page?.url`; `expected` is `None` when it is
   * `undefined`.
   */
  datatype RecordedEvent = RecordedEvent(
    kind: JsStr,
    action: JsStr,
    eventType: JsStr,
    name: JsStr,
    assertion: JsStr,
    value: JsStr,
    expected: Option<Json>,
    target: Option<EventTarget>,
    candidates: seq<JsStr>,
    selectorList: seq<JsStr>,
    selector: JsStr,
    xpath: JsStr,
    url: JsStr,
    pageUrl: JsStr,
    condition: JsStr,
    timeout: Option<int>)

  /**
   * A keyword step `{ action, target, value, description }`; the other
   * four properties are absent (`None`) unless the wait or verify block
   * sets them.
   */
  datatype Step = Step(
    action: string,
    target: JsStr,
    value: JsStr,
    description: JsStr,
    condition: Option<string>,
    timeout: Option<int>,
    assertion: Option<string>,
    expected: Option<Json>)

  /** `event.type`, else `action`, `eventType` or `name`, else `'unknown'`. */
  function EventAction(e: RecordedEvent): (r: string)
    ensures r != ""
    ensures Truthy(e.kind) ==> r == e.kind.value
    ensures !Truthy(e.kind) ==> r == "unknown" || Some(r) in [e.action, e.eventType, e.name]
    ensures !Truthy(e.kind) && !Truthy(e.action) && !Truthy(e.eventType) && !Truthy(e.name) ==> r == "unknown"
  {
    if Truthy(e.kind) then e.kind.value
    else if Truthy(e.action) then e.action.value
    else if Truthy(e.eventType) then e.eventType.value
    else if Truthy(e.name) then e.name.value
    else "unknown"
  }

  /** `assertionMapping[event.assertion]`. */
  function AssertionKeyword(assertion: string): Option<string>
  {
    match assertion
    case "text" => Some("verifyText")
    case "elementPresent" => Some("verifyElementPresent")
    case "elementNotPresent" => Some("verifyElementNotPresent")
    case "title" => Some("verifyTitle")
    case "url" => Some("verifyUrl")
    case _ => None
  }

  /**
   * The keyword action: `input` becomes `type`, `navigate` and `goto`
   * become `open`, `assert` becomes a verify keyword (the one its assertion
   * kind names, else `verifyText`), and every other action is kept.
   */
  function KeywordAction(e: RecordedEvent): (r: string)
    ensures r != ""
    ensures EventAction(e) == "input" ==> r == "type"
    ensures EventAction(e) == "navigate" || EventAction(e) == "goto" ==> r == "open"
    ensures EventAction(e) == "assert" ==> StartsWith(r, "verify")
    ensures EventAction(e) == "assert" && (!Truthy(e.assertion) || AssertionKeyword(e.assertion.value).None?) ==> r == "verifyText"
    ensures EventAction(e) !in {"input", "navigate", "goto", "assert"} ==> r == EventAction(e)
  {
    var action := EventAction(e);
    var mapped :=
      if action == "input" then "type"
      else if action == "navigate" || action == "goto" then "open"
      else if action == "assert" then "verifyText"
      else action;
    if action == "assert" && Truthy(e.assertion) && AssertionKeyword(e.assertion.value).Some? then
      AssertionKeyword(e.assertion.value).value
    else mapped
  }

  /** `` `#${id.replace(/^#/, '')}` ``: the id with exactly one leading `#`. */
  function IdSelector(id: string): (r: string)
    ensures StartsWith(id, "#") ==> r == id
    ensures !StartsWith(id, "#") ==> r == "#" + id
  {
    "#" + (if |id| > 0 && id[0] == '#' then id[1..] else id)
  }

  /** `` `text:"${text}"` ``. */
  function TextSelector(text: string): string
  {
    "text:\"" + text + "\""
  }

  /**
   * The first selector of `event.target.selectors`, in the order id, css,
   * xpath, text, name, data-testid; `None` when none is set.
   */
  function SelectorsTarget(s: SelectorSet): (r: JsStr)
    ensures r.None? <==> !Truthy(s.id) && !Truthy(s.css) && !Truthy(s.xpath) && !Truthy(s.text) && !Truthy(s.name) && !Truthy(s.dataTestId)
    ensures r.Some? ==> r.value != ""
    ensures Truthy(s.id) ==> r == Some(IdSelector(s.id.value))
    ensures !Truthy(s.id) && Truthy(s.css) ==> r == s.css
  {
    if Truthy(s.id) then Some(IdSelector(s.id.value))
    else if Truthy(s.css) then s.css
    else if Truthy(s.xpath) then s.xpath
    else if Truthy(s.text) then Some(TextSelector(s.text.value))
    else if Truthy(s.name) then Some("[name=\"" + s.name.value + "\"]")
    else if Truthy(s.dataTestId) then Some("[data-testid=\"" + s.dataTestId.value + "\"]")
    else None
  }

  /** The class names of `className`, joined by `.`. */
  function ClassChain(className: string): string
  {
    Join(Words(className), ".")
  }

  /** A class attribute names no class exactly when it is all white space. */
  lemma ClassChainOfBlank(className: string)
    ensures ClassChain(className) == "" <==> forall i :: 0 <= i < |className| ==> IsJsSpace(className[i])
  {
    JoinNonEmpty(Words(className), ".");
    WordsOfBlank(className);
  }

  /**
   * The selector built from the target's own fields: its id, else its
   * classes, else its tag, text, selector or xpath. A class attribute that
   * is set but all white space yields nothing and ends the search there.
   */
  function FieldsTarget(t: EventTarget): (r: JsStr)
    ensures r.Some? ==> r.value != ""
  {
    if Truthy(t.id) then Some("#" + t.id.value)
    else if Truthy(t.className) then
      var classes := ClassChain(t.className.value);
      if classes != "" then Some("." + classes) else None
    else if Truthy(t.tagName) then Some(Lower(t.tagName.value))
    else if Truthy(t.text) then Some(TextSelector(t.text.value))
    else if Truthy(t.selector) then t.selector
    else if Truthy(t.xpath) then t.xpath
    else None
  }

  /**
   * `targetSelector` of an event with a target: the target's selector set,
   * else the first candidate, else the first entry of `event.selectors`,
   * else the target's own fields.
   */
  function ResolveTarget(e: RecordedEvent, t: EventTarget): (r: JsStr)
    ensures SelectorsTarget(t.selectors).Some? ==> r == SelectorsTarget(t.selectors)
    ensures SelectorsTarget(t.selectors).None? && |e.candidates| > 0 && Truthy(e.candidates[0]) ==> r == e.candidates[0]
    ensures SelectorsTarget(t.selectors).None? && !(|e.candidates| > 0 && Truthy(e.candidates[0])) && |e.selectorList| > 0 && Truthy(e.selectorList[0]) ==>
      r == e.selectorList[0]
    ensures Truthy(r) || r.None? || (|e.selectorList| > 0 && r == e.selectorList[0])
  {
    var fromSet := SelectorsTarget(t.selectors);
    var fromCandidate := if !Truthy(fromSet) && |e.candidates| > 0 && Truthy(e.candidates[0]) then e.candidates[0] else fromSet;
    var fromList := if !Truthy(fromCandidate) && |e.selectorList| > 0 then e.selectorList[0] else fromCandidate;
    if !Truthy(fromList) then
      var fromFields := FieldsTarget(t);
      if fromFields.Some? then fromFields else fromList
    else fromList
  }

  /**
   * When the selector set, the candidates and `event.selectors` give
   * nothing, a target whose class attribute is set but all white space gets
   * no selector, whatever its tag, text, selector or xpath say.
   */
  lemma BlankClassNameStopsSearch(e: RecordedEvent, t: EventTarget)
    requires SelectorsTarget(t.selectors).None? && (|e.candidates| == 0 || !Truthy(e.candidates[0]))
    requires |e.selectorList| == 0
    requires !Truthy(t.id) && Truthy(t.className)
    requires forall i :: 0 <= i < |t.className.value| ==> IsJsSpace(t.className.value[i])
    ensures ResolveTarget(e, t).None?
  {
    ClassChainOfBlank(t.className.value);
  }

  /** The first `n` characters of `s` (`s.substring(0, n)`). */
  function Prefix(s: string, n: nat): (r: string)
    ensures |r| <= n && StartsWith(s, r)
  {
    if |s| <= n then s else s[..n]
  }

  /** The parts of the step description drawn from the target. */
  function DescriptionParts(t: EventTarget): (r: seq<string>)
    ensures forall p :: p in r ==> p != ""
    ensures r == [] <==> !Truthy(t.tagName) && !Truthy(t.id) && !Truthy(t.text) && !Truthy(t.className)
  {
    (if Truthy(t.tagName) then ["tag:" + t.tagName.value] else [])
    + (if Truthy(t.id) then ["id:" + t.id.value] else [])
    + (if Truthy(t.text) then ["text:\"" + Prefix(t.text.value, 50) + "\""] else [])
    + (if Truthy(t.className) then ["class:" + t.className.value] else [])
  }

  /**
   * `targetInfo.join(', ')`: a description exactly when the target has a
   * tag, an id, a text or a class.
   */
  function TargetDescription(t: EventTarget): (r: JsStr)
    ensures r.None? <==> !Truthy(t.tagName) && !Truthy(t.id) && !Truthy(t.text) && !Truthy(t.className)
    ensures r.Some? ==> r.value != ""
  {
    var parts := DescriptionParts(t);
    JoinNonEmpty(parts, ", ");
    if parts == [] then None else Some(Join(parts, ", "))
  }

  /** `selectors.css || selectors.xpath || selectors.id || null`. */
  function SelectorFallback(s: SelectorSet): (r: JsStr)
  {
    var f := OrElse(OrElse(s.css, s.xpath), s.id);
    if Truthy(f) then f else None
  }

  /** The event is a wait: its condition and timeout get defaults. */
  predicate IsWait(e: RecordedEvent)
  {
    var keyword := KeywordAction(e);
    keyword == "wait" || keyword == "waitForElement" || e.kind == Some("wait")
  }

  /** The event is an assertion or a verify keyword. */
  predicate IsVerify(e: RecordedEvent)
  {
    e.kind == Some("assert") || StartsWith(KeywordAction(e), "verify")
  }

  /** `event.url || event.page?.url || null`. */
  function EventUrl(e: RecordedEvent): (r: JsStr)
    ensures r.Some? ==> r.value != ""
  {
    var u := OrElse(e.url, e.pageUrl);
    if Truthy(u) then u else None
  }

  /** `event.value || event.url || event.page?.url || null`. */
  function NavigateUrl(e: RecordedEvent): (r: JsStr)
    ensures r.Some? ==> r.value != ""
  {
    var u := OrElse(OrElse(e.value, e.url), e.pageUrl);
    if Truthy(u) then u else None
  }

  /** The step before the wait and verify blocks: action, target, value, description. */
  function BaseStep(e: RecordedEvent): Step
  {
    var keyword := KeywordAction(e);
    var step := Step(keyword, None, if Truthy(e.value) then e.value else None, None, None, None, None, None);
    if e.target.Some? then
      step.(target := ResolveTarget(e, e.target.value), description := TargetDescription(e.target.value))
    else if Truthy(e.selector) then step.(target := e.selector)
    else if Truthy(e.xpath) then step.(target := e.xpath)
    else if keyword == "open" || keyword == "goto" || EventAction(e) == "navigate" then
      var url := NavigateUrl(e);
      if url.Some? then step.(target := url, value := None) else step
    else step
  }

  /** The wait block: default condition and timeout, and the selector fallback. */
  function WaitBlock(e: RecordedEvent, step: Step): Step
  {
    if IsWait(e) then
      step.(
        condition := Some(if Truthy(e.condition) then e.condition.value else "visible"),
        timeout := Some(if e.timeout.Some? && e.timeout.value != 0 then e.timeout.value else 5000),
        target := if !Truthy(step.target) && e.target.Some? then SelectorFallback(e.target.value.selectors) else step.target)
    else step
  }

  /** The verify block: the assertion, the expected value, and the selector fallback. */
  function VerifyBlock(e: RecordedEvent, step: Step): Step
  {
    if IsVerify(e) then
      step.(
        assertion := if Truthy(e.assertion) then Some(e.assertion.value) else step.assertion,
        expected := if e.expected.Some? then e.expected else step.expected,
        target := if !Truthy(step.target) && e.target.Some? then SelectorFallback(e.target.value.selectors) else step.target)
    else step
  }

  /** The page URL, noted in the description unless it is the target. */
  function UrlNote(e: RecordedEvent, step: Step): Step
  {
    var url := EventUrl(e);
    if url.Some? && url != step.target then
      step.(description := Some(if Truthy(step.description) then step.description.value + " | url:" + url.value else "url:" + url.value))
    else step
  }

  /** `convertEventToStep(event)`: the blocks of the source, applied in order. */
  function ConvertEventToStep(e: RecordedEvent): Step
  {
    UrlNote(e, VerifyBlock(e, WaitBlock(e, BaseStep(e))))
  }

  /**
   * The step keeps the keyword action, and a target found from the event's
   * target object; the selector fallback of the wait and verify blocks
   * never finds a selector the target search missed (at most it turns a
   * falsy target into `null`).
   */
  lemma StepTarget(e: RecordedEvent)
    requires e.target.Some?
    ensures ConvertEventToStep(e).action == KeywordAction(e)
    ensures var r := ConvertEventToStep(e).target;
      r == ResolveTarget(e, e.target.value) || (r.None? && !Truthy(ResolveTarget(e, e.target.value)))
  {
    var t := e.target.value;
    if !Truthy(ResolveTarget(e, t)) {
      assert SelectorsTarget(t.selectors).None?;
      assert SelectorFallback(t.selectors).None?;
    }
  }

  /**
   * An event without a target, selector or xpath that opens a page gets
   * the URL it navigates to as its target, and no value.
   */
  lemma NavigateStep(e: RecordedEvent)
    requires e.target.None? && !Truthy(e.selector) && !Truthy(e.xpath)
    requires EventAction(e) == "navigate" || EventAction(e) == "goto" || EventAction(e) == "open"
    requires NavigateUrl(e).Some?
    ensures ConvertEventToStep(e).action == "open"
    ensures ConvertEventToStep(e).target == NavigateUrl(e)
    ensures ConvertEventToStep(e).value.None?
  {
    var base := BaseStep(e);
    assert base.target == NavigateUrl(e) && base.value.None?;
    assert !IsWait(e) && !IsVerify(e);
  }

  /**
   * A wait step gets its condition, else `visible`, and its timeout, else
   * 5000; no other step has either.
   */
  lemma WaitDefaults(e: RecordedEvent)
    ensures var r := ConvertEventToStep(e);
      && (IsWait(e) ==> r.condition == Some(if Truthy(e.condition) then e.condition.value else "visible"))
      && (IsWait(e) ==> r.timeout == Some(if e.timeout.Some? && e.timeout.value != 0 then e.timeout.value else 5000))
      && (!IsWait(e) ==> r.condition.None? && r.timeout.None?)
  {
    var base := BaseStep(e);
    assert base.condition.None? && base.timeout.None?;
    var w := WaitBlock(e, base);
    var v := VerifyBlock(e, w);
    assert v.condition == w.condition && v.timeout == w.timeout;
  }

  /**
   * An assertion or verify step carries the event's assertion kind and
   * expected value when they are set; no other step carries either.
   */
  lemma VerifyCarries(e: RecordedEvent)
    ensures var r := ConvertEventToStep(e);
      && (IsVerify(e) && Truthy(e.assertion) ==> r.assertion == Some(e.assertion.value))
      && (IsVerify(e) && e.expected.Some? ==> r.expected == e.expected)
      && (!IsVerify(e) ==> r.assertion.None? && r.expected.None?)
      && (r.assertion.Some? ==> IsVerify(e))
  {
    var w := WaitBlock(e, BaseStep(e));
    assert w.assertion.None? && w.expected.None?;
    var v := VerifyBlock(e, w);
    assert UrlNote(e, v).assertion == v.assertion && UrlNote(e, v).expected == v.expected;
  }

  /**
   * The page URL ends the description whenever it is not the target;
   * otherwise the description is the target's.
   */
  lemma DescriptionNotesUrl(e: RecordedEvent)
    ensures var r := ConvertEventToStep(e);
      && (EventUrl(e).Some? && EventUrl(e) != r.target ==> r.description.Some? && EndsWith(r.description.value, "url:" + EventUrl(e).value))
      && (EventUrl(e).None? || EventUrl(e) == r.target ==> r.description == (if e.target.Some? then TargetDescription(e.target.value) else None))
  {
    BlocksKeepDescription(e);
    UrlNoteFacts(e, VerifyBlock(e, WaitBlock(e, BaseStep(e))));
  }

  /** The URL note keeps the target and only appends to the description, as its last part. */
  lemma UrlNoteFacts(e: RecordedEvent, step: Step)
    ensures UrlNote(e, step).target == step.target
    ensures EventUrl(e).Some? && EventUrl(e) != step.target ==>
      UrlNote(e, step).description.Some? && EndsWith(UrlNote(e, step).description.value, "url:" + EventUrl(e).value)
    ensures EventUrl(e).None? || EventUrl(e) == step.target ==> UrlNote(e, step).description == step.description
  {
    var url := EventUrl(e);
    if url.Some? && url != step.target && Truthy(step.description) {
      var note := "url:" + url.value;
      var d := step.description.value + " | url:" + url.value;
      assert d == step.description.value + " | " + note;
      assert d[|d| - |note|..] == note;
    }
  }

  /** The wait and verify blocks leave the description as the target's. */
  lemma BlocksKeepDescription(e: RecordedEvent)
    ensures VerifyBlock(e, WaitBlock(e, BaseStep(e))).description == (if e.target.Some? then TargetDescription(e.target.value) else None)
  {
    var base := BaseStep(e);
    assert base.description == (if e.target.Some? then TargetDescription(e.target.value) else None);
    assert WaitBlock(e, base).description == base.description;
  }

  /** `events.map(convertEventToStep)`: one step per event, in order. */
  function ConvertEvents(events: seq<RecordedEvent>): (r: seq<Step>)
    ensures |r| == |events|
    ensures forall i :: 0 <= i < |events| ==> r[i] == ConvertEventToStep(events[i])
  {
    seq(|events|, i requires 0 <= i < |events| => ConvertEventToStep(events[i]))
  }

  /** `JSON.stringify` of a possibly `null` string property. */
  function NullOr(s: JsStr): Json
  {
    if s.Some? then JStr(s.value) else JNull
  }

  /** Sets `key` when `v` is present, and leaves `m` as it is otherwise. */
  function SetIfPresent(m: map<string, Json>, key: string, v: Option<Json>): (r: map<string, Json>)
    ensures key in r <==> key in m || v.Some?
    ensures v.Some? ==> r[key] == v.value
    ensures forall k :: k != key && k in m ==> k in r && r[k] == m[k]
    ensures forall k :: k in r && k != key ==> k in m
  {
    if v.Some? then m[key := v.value] else m
  }

  /** The step as the JSON object stored in the `steps` column; absent properties are left out. */
  function StepJson(s: Step): Json
  {
    var base := map["action" := JStr(s.action), "target" := NullOr(s.target), "value" := NullOr(s.value), "description" := NullOr(s.description)];
    var m1 := SetIfPresent(base, "condition", if s.condition.Some? then Some(JStr(s.condition.value)) else None);
    var m2 := SetIfPresent(m1, "timeout", if s.timeout.Some? then Some(JNum(s.timeout.value)) else None);
    var m3 := SetIfPresent(m2, "assertion", if s.assertion.Some? then Some(JStr(s.assertion.value)) else None);
    JObj(SetIfPresent(m3, "expected", s.expected))
  }

  /** Reads a string-or-`null` property back. */
  function NullableString(j: Json): Option<JsStr>
  {
    match j
    case JNull => Some(None)
    case JStr(s) => Some(Some(s))
    case _ => None
  }

  /** Reads a stored step back; `None` for JSON that is not a step object. */
  function StepFromJson(j: Json): Option<Step>
  {
    if !j.JObj? then None
    else
      var f := j.fields;
      if "action" !in f || !f["action"].JStr? then None
      else if "target" !in f || NullableString(f["target"]).None? then None
      else if "value" !in f || NullableString(f["value"]).None? then None
      else if "description" !in f || NullableString(f["description"]).None? then None
      else if "condition" in f && !f["condition"].JStr? then None
      else if "timeout" in f && !f["timeout"].JNum? then None
      else if "assertion" in f && !f["assertion"].JStr? then None
      else
        Some(Step(
          f["action"].s,
          NullableString(f["target"]).value,
          NullableString(f["value"]).value,
          NullableString(f["description"]).value,
          if "condition" in f then Some(f["condition"].s) else None,
          if "timeout" in f then Some(f["timeout"].n) else None,
          if "assertion" in f then Some(f["assertion"].s) else None,
          if "expected" in f then Some(f["expected"]) else None))
  }

  /** The properties of a stored step. */
  ghost predicate StepFields(f: map<string, Json>, s: Step)
  {
    && "action" in f && f["action"] == JStr(s.action)
    && "target" in f && f["target"] == NullOr(s.target)
    && "value" in f && f["value"] == NullOr(s.value)
    && "description" in f && f["description"] == NullOr(s.description)
    && ("condition" in f <==> s.condition.Some?) && (s.condition.Some? ==> f["condition"] == JStr(s.condition.value))
    && ("timeout" in f <==> s.timeout.Some?) && (s.timeout.Some? ==> f["timeout"] == JNum(s.timeout.value))
    && ("assertion" in f <==> s.assertion.Some?) && (s.assertion.Some? ==> f["assertion"] == JStr(s.assertion.value))
    && ("expected" in f <==> s.expected.Some?) && (s.expected.Some? ==> f["expected"] == s.expected.value)
  }

  /** The stored object has exactly the step's properties. */
  lemma StoredFields(s: Step)
    ensures StepFields(StepJson(s).fields, s)
  {
    var base := map["action" := JStr(s.action), "target" := NullOr(s.target), "value" := NullOr(s.value), "description" := NullOr(s.description)];
    assert "condition" !in base && "timeout" !in base && "assertion" !in base && "expected" !in base;
  }

  /** Object properties that hold a step read back as that step. */
  lemma ReadFields(f: map<string, Json>, s: Step)
    requires StepFields(f, s)
    ensures StepFromJson(JObj(f)) == Some(s)
  {
  }

  /** A stored step reads back as the step that was stored. */
  lemma StepJsonRoundTrip(s: Step)
    ensures StepFromJson(StepJson(s)) == Some(s)
  {
    StoredFields(s);
    ReadFields(StepJson(s).fields, s);
  }

  /** `!tcId` is false: the id is present and not `0`. */
  predicate IdGiven(id: Option<int>)
  {
    id.Some? && id.value != 0
  }

  /**
   * The steps held in the column: a parsed array, else none (a falsy
   * column, a text `JSON.parse` rejects and a value that is not an array all
   * read as `[]`).
   */
  function ExistingSteps(t: StoredText): seq<Json>
  {
    if t.Text? && t.parsed.Some? && t.parsed.value.JArr? then t.parsed.value.items else []
  }

  /** `JSON.stringify(steps)` as written to the column. */
  function StoredSteps(steps: seq<Json>): (r: StoredText)
    ensures ExistingSteps(r) == steps
  {
    Text(Some(JArr(steps)))
  }

  /** The steps of a recording, as JSON. */
  function StepsJson(steps: seq<Step>): (r: seq<Json>)
    ensures |r| == |steps|
    ensures forall i :: 0 <= i < |steps| ==> r[i] == StepJson(steps[i])
  {
    seq(|steps|, i requires 0 <= i < |steps| => StepJson(steps[i]))
  }

  /** Stored recording steps read back as the steps, one for one. */
  lemma StepsReadBack(steps: seq<Step>)
    ensures forall i :: 0 <= i < |steps| ==> StepFromJson(ExistingSteps(StoredSteps(StepsJson(steps)))[i]) == Some(steps[i])
  {
    forall i | 0 <= i < |steps| ensures StepFromJson(StepsJson(steps)[i]) == Some(steps[i]) {
      StepJsonRoundTrip(steps[i]);
    }
  }

  /** `existingSteps.splice(i, 1)`: removes the step at `i` and keeps the others in order. */
  function RemoveAt(xs: seq<Json>, i: int): (r: seq<Json>)
    requires 0 <= i < |xs|
    ensures |r| == |xs| - 1
    ensures forall k :: 0 <= k < i ==> r[k] == xs[k]
    ensures forall k :: i <= k < |r| ==> r[k] == xs[k + 1]
    ensures multiset(r) + multiset{xs[i]} == multiset(xs)
  {
    assert xs == xs[..i] + [xs[i]] + xs[i + 1..];
    xs[..i] + xs[i + 1..]
  }

  /** Deleting the step just saved gives back the steps there were before. */
  lemma DeleteUndoesSave(xs: seq<Json>, step: Json)
    ensures RemoveAt(xs + [step], |xs|) == xs
  {
  }

  /** The stepIndex of `delete-tc-step`: `undefined`, `null`, or a number. */
  datatype StepIndex = Undefined | NullIndex | Index(i: int)

  /** The number a step index compares and splices as (`null` counts as 0). */
  function IndexValue(x: StepIndex): int
    requires !x.Undefined?
  {
    if x.Index? then x.i else 0
  }

  /** Why `processRecordingData` throws before converting anything. */
  datatype RecordingError = UnsupportedType | MissingData

  /** The message of a finished recording; `events` is `None` when missing or not an array. */
  datatype RecordingData = RecordingData(kind: JsStr, tcId: Option<int>, projectId: Option<int>, events: Option<seq<RecordedEvent>>)

  /** The checks of `processRecordingData`; `None` lets the message through. */
  function ValidateRecording(d: RecordingData): (r: Option<RecordingError>)
    ensures r == Some(UnsupportedType) <==> d.kind != Some("recording_complete")
    ensures r == Some(MissingData) <==> d.kind == Some("recording_complete") && (!IdGiven(d.tcId) || d.events.None?)
  {
    if d.kind != Some("recording_complete") then Some(UnsupportedType)
    else if !IdGiven(d.tcId) || d.events.None? then Some(MissingData)
    else None
  }

  /** What `processRecordingData` returns or throws. */
  datatype RecordingResult =
    | RecordingFailed(error: RecordingError)
    | Recorded(steps: seq<Step>, tcId: int, projectId: Option<int>)

  /** Why `save-event-step` and `delete-tc-step` refuse a request. */
  datatype StepError = MissingArguments | TestCaseNotFound | InvalidIndex

  /** The reply of `save-event-step`. */
  datatype SaveResult = SaveFailed(error: StepError) | Saved(stepIndex: int, step: Step)

  /** The reply of `delete-tc-step`. */
  datatype DeleteResult = DeleteFailed(error: StepError) | Deleted(remainingSteps: int)

  /**
   * The `steps` column of the local `test_cases` table, by test-case id;
   * the ids present are the test cases that exist.
   */
  class StepStore {
    var steps: map<int, StoredText>

    constructor(initial: map<int, StoredText>)
      ensures steps == initial
    {
      steps := initial;
    }

    /**
     * `processRecordingData`: after the checks, one step per event replaces
     * the test case's steps (an `UPDATE` of an id with no row changes
     * nothing and is not an error).
     */
    method ProcessRecordingData(d: RecordingData) returns (r: RecordingResult)
      modifies this
      ensures ValidateRecording(d).Some? ==> r == RecordingFailed(ValidateRecording(d).value) && steps == old(steps)
      ensures ValidateRecording(d).None? ==>
        && r == Recorded(ConvertEvents(d.events.value), d.tcId.value, d.projectId)
        && |r.steps| == |d.events.value|
        && steps == (if d.tcId.value in old(steps) then old(steps)[d.tcId.value := StoredSteps(StepsJson(r.steps))] else old(steps))
    {
      var error := ValidateRecording(d);
      if error.Some? {
        return RecordingFailed(error.value);
      }
      var converted := ConvertEvents(d.events.value);
      var id := d.tcId.value;
      if id in steps {
        steps := steps[id := StoredSteps(StepsJson(converted))];
      }
      r := Recorded(converted, id, d.projectId);
    }

    /**
     * `save-event-step`: converts the event and appends it to the test
     * case's steps; the reply's index is where the new step now sits.
     */
    method SaveEventStep(tcId: Option<int>, event: Option<RecordedEvent>) returns (r: SaveResult)
      modifies this
      ensures r == SaveFailed(MissingArguments) <==> !IdGiven(tcId) || event.None?
      ensures r == SaveFailed(TestCaseNotFound) <==> IdGiven(tcId) && event.Some? && tcId.value !in old(steps)
      ensures r != SaveFailed(InvalidIndex)
      ensures r.SaveFailed? ==> steps == old(steps)
      ensures r.Saved? ==>
        var existing := ExistingSteps(old(steps)[tcId.value]);
        && r.step == ConvertEventToStep(event.value)
        && r.stepIndex == |existing|
        && steps == old(steps)[tcId.value := StoredSteps(existing + [StepJson(r.step)])]
        && StepFromJson(ExistingSteps(steps[tcId.value])[r.stepIndex]) == Some(r.step)
    {
      if !IdGiven(tcId) || event.None? {
        return SaveFailed(MissingArguments);
      }
      var step := ConvertEventToStep(event.value);
      var id := tcId.value;
      if id !in steps {
        return SaveFailed(TestCaseNotFound);
      }
      var existing := ExistingSteps(steps[id]);
      StepJsonRoundTrip(step);
      steps := steps[id := StoredSteps(existing + [StepJson(step)])];
      r := Saved(|existing|, step);
    }

    /**
     * `delete-tc-step`: removes exactly the step at the index when it lies
     * in `[0, length)`, and replies with how many are left.
     */
    method DeleteTcStep(tcId: Option<int>, stepIndex: StepIndex) returns (r: DeleteResult)
      modifies this
      ensures r == DeleteFailed(MissingArguments) <==> !IdGiven(tcId) || stepIndex.Undefined?
      ensures r == DeleteFailed(TestCaseNotFound) <==> IdGiven(tcId) && !stepIndex.Undefined? && tcId.value !in old(steps)
      ensures r == DeleteFailed(InvalidIndex) <==>
        && IdGiven(tcId) && !stepIndex.Undefined? && tcId.value in old(steps)
        && !(0 <= IndexValue(stepIndex) < |ExistingSteps(old(steps)[tcId.value])|)
      ensures r.DeleteFailed? ==> steps == old(steps)
      ensures r.Deleted? ==>
        var existing := ExistingSteps(old(steps)[tcId.value]);
        && 0 <= IndexValue(stepIndex) < |existing|
        && steps == old(steps)[tcId.value := StoredSteps(RemoveAt(existing, IndexValue(stepIndex)))]
        && r.remainingSteps == |existing| - 1
        && multiset(ExistingSteps(steps[tcId.value])) + multiset{existing[IndexValue(stepIndex)]} == multiset(existing)
    {
      if !IdGiven(tcId) || stepIndex.Undefined? {
        return DeleteFailed(MissingArguments);
      }
      var id := tcId.value;
      if id !in steps {
        return DeleteFailed(TestCaseNotFound);
      }
      var existing := ExistingSteps(steps[id]);
      var i := IndexValue(stepIndex);
      if i < 0 || i >= |existing| {
        return DeleteFailed(InvalidIndex);
      }
      var rest := RemoveAt(existing, i);
      steps := steps[id := StoredSteps(rest)];
      r := Deleted(|rest|);
    }
  }
}
