/**
 * `generateCode(events, manualList, framework, language)`: the test script
 * the recorder shows and saves. It builds the action timeline, writes the
 * header of the chosen framework and language, one block of lines per
 * timeline entry (switching frames where the element's frame changes), and
 * the footer, and joins the lines with newlines.
 */
module GenerateCode {
  import opened JsStrings
  import opened EventRecords
  import opened ActionTimeline
  import opened CodeGenerator
  import opened CodeEmitter
  import opened FlowActions

  // ---------------------------------------------------------------------
  // What the timeline holds
  // ---------------------------------------------------------------------

  /** `timeline.some(entry => entry.kind === 'event' && entry.event.action === name)`. */
  predicate HasAction(timeline: seq<Entry<TimelineItem>>, name: string)
  {
    exists i :: 0 <= i < |timeline| && timeline[i].item.EventItem? && timeline[i].item.event.action == Some(name)
  }

  /** The timeline holds a recorded event. */
  predicate HasEvent(timeline: seq<Entry<TimelineItem>>)
  {
    exists i :: 0 <= i < |timeline| && timeline[i].item.EventItem?
  }

  /** The timeline holds a manual action. */
  predicate HasManual(timeline: seq<Entry<TimelineItem>>)
  {
    exists i :: 0 <= i < |timeline| && timeline[i].item.ManualItem?
  }

  /** Every line starts with `prefix`. */
  predicate AllStartWith(lines: seq<string>, prefix: string)
  {
    forall j :: 0 <= j < |lines| ==> StartsWith(lines[j], prefix)
  }

  /** Lines that all start with `p`, concatenated, still do. */
  lemma AllStartWithConcat(a: seq<string>, b: seq<string>, p: string)
    requires AllStartWith(a, p) && AllStartWith(b, p)
    ensures AllStartWith(a + b, p)
  {
    forall j | 0 <= j < |a + b| ensures StartsWith((a + b)[j], p) {
      if j < |a| {
        assert (a + b)[j] == a[j];
      } else {
        assert (a + b)[j] == b[j - |a|];
      }
    }
  }

  /** Extending a prefix of the timeline by one entry. */
  lemma PrefixFacts(timeline: seq<Entry<TimelineItem>>, i: nat)
    requires i < |timeline|
    ensures HasEvent(timeline[..i + 1]) <==> HasEvent(timeline[..i]) || timeline[i].item.EventItem?
    ensures HasManual(timeline[..i + 1]) <==> HasManual(timeline[..i]) || timeline[i].item.ManualItem?
  {
    var p, q := timeline[..i], timeline[..i + 1];
    assert q == p + [timeline[i]];
    if HasEvent(q) && !q[i].item.EventItem? {
      var k :| 0 <= k < |q| && q[k].item.EventItem?;
      assert p[k] == q[k];
    }
    if HasManual(q) && !q[i].item.ManualItem? {
      var k :| 0 <= k < |q| && q[k].item.ManualItem?;
      assert p[k] == q[k];
    }
    if HasEvent(p) {
      var k :| 0 <= k < |p| && p[k].item.EventItem?;
      assert q[k] == p[k];
    }
    if HasManual(p) {
      var k :| 0 <= k < |p| && p[k].item.ManualItem?;
      assert q[k] == p[k];
    }
  }

  // ---------------------------------------------------------------------
  // The lines an action's code becomes
  // ---------------------------------------------------------------------

  /** `if (actionLine)` on Python code: any array, or a non-empty string. */
  predicate Present(code: Option<ActionCode>)
  {
    code.Some? && !(code.value.Line? && code.value.text == "")
  }

  /** `if (event.wrapInTry)`. */
  predicate WrapsInTry(ev: EventRecord)
  {
    ev.wrapInTry == Val(true)
  }

  /** Every line with `indent` put in front. */
  function Indented(lines: seq<string>, indent: string): (r: seq<string>)
    ensures |r| == |lines|
    ensures forall k :: 0 <= k < |lines| ==> r[k] == indent + lines[k]
  {
    seq(|lines|, k requires 0 <= k < |lines| => indent + lines[k])
  }

  /** The lines a Python script pushes for an action's code: wrapped in `try`, or each line indented. */
  function PythonEmit(code: Option<ActionCode>, wrap: bool, indent: string): seq<string>
  {
    if !Present(code) then []
    else if wrap then CodeLines(WrapPythonInTry(code, indent).value)
    else Indented(CodeLines(code.value), indent)
  }

  /** Every line of an emitted Python block sits at the block's indentation, and missing code pushes nothing. */
  lemma PythonEmitIndented(code: Option<ActionCode>, wrap: bool, indent: string)
    ensures AllStartWith(PythonEmit(code, wrap, indent), indent)
    ensures !Present(code) ==> PythonEmit(code, wrap, indent) == []
  {
    if Present(code) && wrap && !NothingToWrap(code) {
      var lines := CodeLines(code.value);
      var body := PythonTryBody(lines, indent);
      var ex := PythonExcept(indent);
      assert CodeLines(WrapPythonInTry(code, indent).value) == [indent + "try:"] + body + ex;
      StartsWithAppend(indent, "try:", indent);
      forall j | 0 <= j < |body| ensures StartsWith(body[j], indent) {
        StartsWithAppend(indent, "    ", indent);
        StartsWithAppend(indent + "    ", TrimStart(lines[j]), indent);
      }
      forall j | 0 <= j < |ex| ensures StartsWith(ex[j], indent) {
        var rest := if j == 0 then "except Exception as e:"
                    else if j == 1 then "    print(f\"" + FailureMessage + ": {type(e).__name__}\")"
                    else "    pass";
        assert ex[j] == indent + rest;
        StartsWithAppend(indent, rest, indent);
      }
      AllStartWithConcat([indent + "try:"], body, indent);
      AllStartWithConcat([indent + "try:"] + body, ex, indent);
    } else if Present(code) && !wrap {
      var lines := CodeLines(code.value);
      forall j | 0 <= j < |lines| ensures StartsWith(Indented(lines, indent)[j], indent) {
        StartsWithAppend(indent, lines[j], indent);
      }
    }
  }

  /** The non-blank lines of a multi-line statement. */
  function NonBlank(lines: seq<string>): (r: seq<string>)
    ensures forall j :: 0 <= j < |r| ==> Trim(r[j]) != ""
  {
    if lines == [] then []
    else (if Trim(lines[0]) != "" then [lines[0]] else []) + NonBlank(lines[1..])
  }

  /** The lines a Playwright JavaScript script pushes for an action's code. */
  function JsEmit(code: JsStr, wrap: bool): seq<string>
  {
    if !Truthy(code) then []
    else if wrap then [WrapJSInTry(code, "  ").value]
    else if '\n' in code.value then Indented(NonBlank(Split(code.value, '\n')), "  ")
    else ["  " + code.value]
  }

  /** A joined list starts with its first element. */
  lemma JoinStartsWithHead(parts: seq<string>, sep: string)
    requires |parts| >= 1
    ensures StartsWith(Join(parts, sep), parts[0])
  {
    if |parts| >= 2 {
      assert Join(parts, sep) == parts[0] + (sep + Join(parts[1..], sep));
    }
  }

  /** A wrapped JavaScript block starts at its indentation. */
  lemma WrapJSInTryIndented(s: string, indent: string)
    requires s != ""
    ensures StartsWith(WrapJSInTry(Some(s), indent).value, indent)
  {
    if '\n' in s {
      JsTryBlockIndented(JsTryBody(Split(s, '\n'), indent), indent);
    } else {
      WrapJSInTryOneLineIndented(s, indent);
    }
  }

  /** A joined `try` block starts at its indentation. */
  lemma JsTryBlockIndented(body: seq<string>, indent: string)
    ensures StartsWith(Join(JsTryBlock(body, indent), "\n"), indent)
  {
    var block := JsTryBlock(body, indent);
    JoinStartsWithHead(block, "\n");
    StartsWithAppend(indent, "try {", indent);
    StartsWithAppend(block[0], Join(block, "\n")[|block[0]|..], indent);
    assert Join(block, "\n") == block[0] + Join(block, "\n")[|block[0]|..];
  }

  /** The one-line block, built piece by piece, keeps its opening indentation. */
  lemma WrapJSInTryOneLineIndented(s: string, indent: string)
    requires s != "" && '\n' !in s
    ensures StartsWith(WrapJSInTry(Some(s), indent).value, indent)
  {
    assert indent[..|indent|] == indent;
    var x := indent;
    StartsWithAppend(x, "try {", indent);
    x := x + "try {";
    StartsWithAppend(x, "\n", indent);
    x := x + "\n";
    StartsWithAppend(x, indent, indent);
    x := x + indent;
    StartsWithAppend(x, "  ", indent);
    x := x + "  ";
    StartsWithAppend(x, TrimStart(s), indent);
    x := x + TrimStart(s);
    StartsWithAppend(x, "\n", indent);
    x := x + "\n";
    StartsWithAppend(x, indent, indent);
    x := x + indent;
    StartsWithAppend(x, "} catch (e) {", indent);
    x := x + "} catch (e) {";
    StartsWithAppend(x, "\n", indent);
    x := x + "\n";
    StartsWithAppend(x, indent, indent);
    x := x + indent;
    StartsWithAppend(x, "  ", indent);
    x := x + "  ";
    StartsWithAppend(x, JsCatchLog, indent);
    x := x + JsCatchLog;
    StartsWithAppend(x, "\n", indent);
    x := x + "\n";
    StartsWithAppend(x, indent, indent);
    x := x + indent;
    StartsWithAppend(x, "}", indent);
    x := x + "}";
    assert WrapJSInTry(Some(s), indent).value == x;
  }

  /** The non-blank lines of a multi-line statement, each indented, start at the indentation. */
  lemma IndentedIndented(lines: seq<string>, indent: string)
    ensures AllStartWith(Indented(lines, indent), indent)
  {
    forall j | 0 <= j < |lines| ensures StartsWith(Indented(lines, indent)[j], indent) {
      StartsWithAppend(indent, lines[j], indent);
    }
  }

  /** A JavaScript block pushed for an action starts at the two-space indentation, and missing code pushes nothing. */
  lemma JsEmitIndented(code: JsStr, wrap: bool)
    ensures AllStartWith(JsEmit(code, wrap), "  ")
    ensures !Truthy(code) ==> JsEmit(code, wrap) == []
  {
    if Truthy(code) && wrap {
      WrapJSInTryIndented(code.value, "  ");
    } else if Truthy(code) && '\n' in code.value {
      IndentedIndented(NonBlank(Split(code.value, '\n')), "  ");
    } else if Truthy(code) {
      StartsWithAppend("  ", code.value, "  ");
    }
  }

  /** The frame-locator line of a frame switch sits at the given indentation. */
  lemma FrameLocatorIndented(ctx: Option<FrameContext>, languageLower: string, alias: string, indent: string, baseVar: string)
    ensures AllStartWith(PlaywrightFrameLocatorLines(ctx, languageLower, alias, indent, baseVar), indent)
  {
    var r := PlaywrightFrameLocatorLines(ctx, languageLower, alias, indent, baseVar);
    if |r| == 1 {
      assert r[0][..|indent|] == indent;
    }
  }

  // ---------------------------------------------------------------------
  // Dispatch on the kind of event
  // ---------------------------------------------------------------------

  function LinesOf(lines: Option<seq<string>>): Option<ActionCode>
  {
    if lines.None? then None else Some(Lines(lines.value))
  }

  function LineOf(line: JsStr): Option<ActionCode>
  {
    if line.None? then None else Some(Line(line.value))
  }

  /** The Playwright-Python code of an event: a flow action by its builder, any other by the basic one. */
  function PlaywrightPythonCode(ev: EventRecord, info: SelectorInfo, base: string, parse: UrlParser, imageVar: string): Option<ActionCode>
  {
    if ev.action == Some("conditionalAction") then LinesOf(ConditionalPython(ev))
    else if ev.action == Some("relativeAction") then LineOf(RelativePython(ev))
    else if ev.action == Some("loopAction") then LinesOf(LoopPython(ev, base))
    else PlaywrightPythonAction(ev, info, base, parse, imageVar)
  }

  /** The Playwright-JavaScript code of an event. */
  function PlaywrightJsCode(ev: EventRecord, info: SelectorInfo, base: string, parse: UrlParser): JsStr
  {
    if ev.action == Some("conditionalAction") then ConditionalJs(ev)
    else if ev.action == Some("relativeAction") then RelativeJs(ev)
    else if ev.action == Some("loopAction") then LoopJs(ev, base)
    else PlaywrightJsAction(ev, info, base, parse)
  }

  // ---------------------------------------------------------------------
  // The bodies: one pass over the timeline
  // ---------------------------------------------------------------------

  /** The lines the Playwright-Python variants push for one event, at four spaces; `present` is `if (actionLine)`. */
  method PlaywrightPythonStatementLines(ev: EventRecord, info: SelectorInfo, base: string, parse: UrlParser, imageVar: string)
    returns (pushed: seq<string>, present: bool)
    ensures AllStartWith(pushed, "    ")
    ensures present == Present(PlaywrightPythonCode(ev, info, base, parse, imageVar))
    ensures !present ==> pushed == []
  {
    var actionLine := PlaywrightPythonCode(ev, info, base, parse, imageVar);
    present := Present(actionLine);
    pushed := PythonEmit(actionLine, WrapsInTry(ev), "    ");
    PythonEmitIndented(actionLine, WrapsInTry(ev), "    ");
  }

  /** The lines the Playwright JavaScript and TypeScript variants push for one event, at two spaces. */
  method PlaywrightJsStatementLines(ev: EventRecord, info: SelectorInfo, base: string, parse: UrlParser)
    returns (pushed: seq<string>)
    ensures AllStartWith(pushed, "  ")
    ensures !Truthy(PlaywrightJsCode(ev, info, base, parse)) ==> pushed == []
  {
    var actionLine := PlaywrightJsCode(ev, info, base, parse);
    pushed := JsEmit(actionLine, WrapsInTry(ev));
    JsEmitIndented(actionLine, WrapsInTry(ev));
  }

  /** The lines the Selenium-Python variant pushes for one event, at two spaces. */
  method SeleniumPythonStatementLines(ev: EventRecord, info: SelectorInfo, parse: UrlParser) returns (pushed: seq<string>)
    ensures AllStartWith(pushed, "  ")
    ensures !Present(SeleniumPythonAction(ev, info, "driver", parse)) ==> pushed == []
  {
    var actionLine := SeleniumPythonAction(ev, info, "driver", parse);
    pushed := PythonEmit(actionLine, WrapsInTry(ev), "  ");
    PythonEmitIndented(actionLine, WrapsInTry(ev), "  ");
  }

  /** The line the Selenium JavaScript and TypeScript variants push for one event: the statement, wrapped or as written. */
  method SeleniumJsStatementLines(ev: EventRecord, info: SelectorInfo, parse: UrlParser) returns (pushed: seq<string>)
    ensures var code := SeleniumJsAction(ev, info, parse);
            && (!Truthy(code) ==> pushed == [])
            && (Truthy(code) && !WrapsInTry(ev) ==> pushed == [code.value])
            && (Truthy(code) && WrapsInTry(ev) ==> pushed == [WrapJSInTry(code, "  ").value])
  {
    var actionLine := SeleniumJsAction(ev, info, parse);
    pushed := [];
    if Truthy(actionLine) {
      if WrapsInTry(ev) {
        pushed := [WrapJSInTry(actionLine, "  ").value];
      } else {
        pushed := [actionLine.value];
      }
    }
  }

  /**
   * The Playwright-Python loop (the pytest and the class variants). A
   * change of frame pushes a frame-locator line and makes its alias the
   * base of the following statements; leaving all frames makes the page
   * the base again. Manual actions push nothing but count as emitted.
   */
  method PlaywrightPythonBody(timeline: seq<Entry<TimelineItem>>, languageLower: string, pageVar: string, aliasPrefix: string,
                              parse: UrlParser, imageVar: nat -> string)
    returns (body: seq<string>, emitted: bool)
    ensures AllStartWith(body, "    ")
    ensures !HasEvent(timeline) ==> body == [] && (emitted <==> HasManual(timeline))
    ensures HasManual(timeline) ==> emitted
  {
    body := [];
    emitted := false;
    var currentFrame: Option<FrameContext> := None;
    var frameLocatorIndex: nat := 0;
    var currentBase := pageVar;
    for i := 0 to |timeline|
      invariant AllStartWith(body, "    ")
      invariant !HasEvent(timeline[..i]) ==> body == [] && (emitted <==> HasManual(timeline[..i]))
      invariant HasManual(timeline[..i]) ==> emitted
    {
      PrefixFacts(timeline, i);
      var item := timeline[i].item;
      if item.EventItem? {
        var targetFrame := item.info.iframeContext;
        if !FramesEqual(targetFrame, currentFrame) {
          if targetFrame.Some? {
            frameLocatorIndex := frameLocatorIndex + 1;
            var alias := aliasPrefix + NatToString(frameLocatorIndex);
            var setup := PlaywrightFrameLocatorLines(targetFrame, languageLower, alias, "    ", pageVar);
            FrameLocatorIndented(targetFrame, languageLower, alias, "    ", pageVar);
            AllStartWithConcat(body, setup, "    ");
            body := body + setup;
            currentBase := alias;
            currentFrame := targetFrame;
          } else {
            currentBase := pageVar;
            currentFrame := None;
          }
        }
        var pushed, present := PlaywrightPythonStatementLines(item.event, item.info, currentBase, parse, imageVar(i));
        AllStartWithConcat(body, pushed, "    ");
        body := body + pushed;
        if present {
          emitted := true;
        }
      } else {
        emitted := true;
      }
    }
    assert timeline[..|timeline|] == timeline;
  }

  /** The Playwright JavaScript and TypeScript loop, at two-space indentation. */
  method PlaywrightJsBody(timeline: seq<Entry<TimelineItem>>, languageLower: string, parse: UrlParser)
    returns (body: seq<string>)
    ensures AllStartWith(body, "  ")
    ensures !HasEvent(timeline) ==> body == []
  {
    body := [];
    var currentFrame: Option<FrameContext> := None;
    var frameLocatorIndex: nat := 0;
    var currentBase := "page";
    for i := 0 to |timeline|
      invariant AllStartWith(body, "  ")
      invariant !HasEvent(timeline[..i]) ==> body == []
    {
      PrefixFacts(timeline, i);
      var item := timeline[i].item;
      if item.EventItem? {
        var targetFrame := item.info.iframeContext;
        if !FramesEqual(targetFrame, currentFrame) {
          if targetFrame.Some? {
            frameLocatorIndex := frameLocatorIndex + 1;
            var alias := "frameLocator" + NatToString(frameLocatorIndex);
            var setup := PlaywrightFrameLocatorLines(targetFrame, languageLower, alias, "  ", "page");
            FrameLocatorIndented(targetFrame, languageLower, alias, "  ", "page");
            AllStartWithConcat(body, setup, "  ");
            body := body + setup;
            currentBase := alias;
            currentFrame := targetFrame;
          } else {
            currentBase := "page";
            currentFrame := None;
          }
        }
        var pushed := PlaywrightJsStatementLines(item.event, item.info, currentBase, parse);
        AllStartWithConcat(body, pushed, "  ");
        body := body + pushed;
      }
    }
    assert timeline[..|timeline|] == timeline;
  }

  /** The frame switch of Selenium Python is a call on the driver. */
  lemma SeleniumSwitchIsDriverCall(ctx: Option<FrameContext>, driver: string)
    ensures SeleniumFrameSwitchPython(ctx, driver).Some? ==>
              StartsWith(SeleniumFrameSwitchPython(ctx, driver).value, driver + ".switch_to.frame(")
  {
    var key := FrameKeyOf(ctx);
    if key.Some? {
      var p := driver + ".switch_to.frame(";
      assert StartsWith(p, p);
      match key.value
      case ByName(n) =>
        StartsWithAppend(p, "\"", p);
        StartsWithAppend(p + "\"", n, p);
        StartsWithAppend(p + "\"" + n, "\")", p);
        assert driver + ".switch_to.frame(\"" == p + "\"";
      case ById(i) =>
        StartsWithAppend(p, driver, p);
        StartsWithAppend(p + driver, ".find_element(By.CSS_SELECTOR, \"iframe#", p);
        StartsWithAppend(p + driver + ".find_element(By.CSS_SELECTOR, \"iframe#", i, p);
        StartsWithAppend(p + driver + ".find_element(By.CSS_SELECTOR, \"iframe#" + i, "\"))", p);
      case BySrc(src) =>
        StartsWithAppend(p, driver, p);
        StartsWithAppend(p + driver, ".find_element(By.CSS_SELECTOR, \"iframe[src='", p);
        StartsWithAppend(p + driver + ".find_element(By.CSS_SELECTOR, \"iframe[src='", src, p);
        StartsWithAppend(p + driver + ".find_element(By.CSS_SELECTOR, \"iframe[src='" + src, "']\"))", p);
    }
  }

  /**
   * The Selenium-Python loop: a frame switch before every event in a
   * frame, a return to the default content when an event outside frames
   * follows one inside; every event, flow actions included, by the basic
   * builder.
   */
  method SeleniumPythonBody(timeline: seq<Entry<TimelineItem>>, parse: UrlParser) returns (body: seq<string>)
    ensures forall j :: 0 <= j < |body| ==> BodyLine(body[j])
    ensures !HasEvent(timeline) ==> body == []
  {
    body := [];
    var currentFrame: Option<FrameContext> := None;
    for i := 0 to |timeline|
      invariant forall j :: 0 <= j < |body| ==> BodyLine(body[j])
      invariant !HasEvent(timeline[..i]) ==> body == []
    {
      PrefixFacts(timeline, i);
      var item := timeline[i].item;
      if item.EventItem? {
        body, currentFrame := SeleniumPythonEvent(body, currentFrame, item.event, item.info, parse);
      }
    }
    assert timeline[..|timeline|] == timeline;
  }

  /** One event of the Selenium Python loop: the frame switch it needs, then its statements. */
  method SeleniumPythonEvent(body: seq<string>, currentFrame: Option<FrameContext>, event: EventRecord, info: SelectorInfo, parse: UrlParser)
    returns (body': seq<string>, frame': Option<FrameContext>)
    requires forall j :: 0 <= j < |body| ==> BodyLine(body[j])
    ensures forall j :: 0 <= j < |body'| ==> BodyLine(body'[j])
  {
    var extra: seq<string> := [];
    frame' := currentFrame;
    var targetFrame := info.iframeContext;
    if targetFrame.Some? {
      var switchLine := SeleniumFrameSwitchPython(targetFrame, "driver");
      if switchLine.Some? {
        SwitchLineIsBodyLine(targetFrame);
        extra := [switchLine.value];
        frame' := targetFrame;
      }
    } else if currentFrame.Some? {
      extra := ["driver.switch_to.default_content()"];
      frame' := None;
    }
    var pushed := SeleniumPythonStatementLines(event, info, parse);
    IndentedAreBodyLines(pushed, "  ");
    BodyLinesConcat(extra, pushed);
    BodyLinesConcat(body, extra + pushed);
    body' := body + (extra + pushed);
  }

  /** A Selenium Python frame switch is a `driver.` call. */
  lemma SwitchLineIsBodyLine(ctx: Option<FrameContext>)
    ensures SeleniumFrameSwitchPython(ctx, "driver").Some? ==> BodyLine(SeleniumFrameSwitchPython(ctx, "driver").value)
  {
    SeleniumSwitchIsDriverCall(ctx, "driver");
    if SeleniumFrameSwitchPython(ctx, "driver").Some? {
      assert SeleniumFrameSwitchPython(ctx, "driver").value[..7] == "driver.";
    }
  }

  /** Body lines stay body lines when two runs of them are joined. */
  lemma BodyLinesConcat(a: seq<string>, b: seq<string>)
    requires forall j :: 0 <= j < |a| ==> BodyLine(a[j])
    requires forall j :: 0 <= j < |b| ==> BodyLine(b[j])
    ensures forall j :: 0 <= j < |a + b| ==> BodyLine((a + b)[j])
  {
  }

  /** The Selenium JavaScript and TypeScript loop; the statements are pushed as the builder writes them. */
  method SeleniumJsBody(timeline: seq<Entry<TimelineItem>>, parse: UrlParser) returns (body: seq<string>)
    ensures !HasEvent(timeline) ==> body == []
    ensures HasEvent(timeline) ==> |body| <= 2 * |timeline|
  {
    body := [];
    var currentFrame: Option<FrameContext> := None;
    for i := 0 to |timeline|
      invariant !HasEvent(timeline[..i]) ==> body == []
      invariant |body| <= 2 * i
    {
      PrefixFacts(timeline, i);
      var item := timeline[i].item;
      if item.EventItem? {
        var targetFrame := item.info.iframeContext;
        if targetFrame.Some? {
          var switchLine := SeleniumFrameSwitchJs(targetFrame, "  ");
          if switchLine.Some? {
            body := body + [switchLine.value];
            currentFrame := targetFrame;
          }
        } else if currentFrame.Some? {
          body := body + ["  await driver.switchTo().defaultContent();"];
          currentFrame := None;
        }
        var pushed := SeleniumJsStatementLines(item.event, item.info, parse);
        body := body + pushed;
      }
    }
    assert timeline[..|timeline|] == timeline;
  }

  // ---------------------------------------------------------------------
  // Headers and footers
  // ---------------------------------------------------------------------

  const ImportNormalizeUrl := "from test_utils import normalize_url"

  /** The pytest header; the `normalize_url` import only when some event checks the URL, the snapshot fixture only when some event compares an image. */
  function PytestHeader(hasVerifyUrl: bool, hasVerifyImage: bool): seq<string>
  {
    ["import pytest"] + (if hasVerifyUrl then [ImportNormalizeUrl] else []) + ["",
     "def test_generated(" + (if hasVerifyImage then "page, assert_snapshot" else "page") + "):",
     "    \"\"\"Generated test case\"\"\""]
  }

  const ClassHeader := ["from playwright.sync_api import sync_playwright", "", "class GeneratedTestCase:",
                        "  def __init__(self, page):", "    self.page = page", "", "  def run(self):"]

  const ClassFooter := ["", "def run_test():", "  with sync_playwright() as p:", "    browser = p.chromium.launch(headless=False)",
                        "    page = browser.new_page()", "    test_case = GeneratedTestCase(page)", "    test_case.run()",
                        "    browser.close()", "", "if __name__ == \"__main__\":", "  run_test()"]

  const JsHeader := ["const { chromium } = require('playwright');", "",
                     "function normalizeUrl(url) {",
                     "  // URL 정규화: 쿼리 파라미터를 제거하여 기본 경로만 반환",
                     "  if (!url) return url;", "  try {", "    const urlObj = new URL(url);",
                     "    return `${urlObj.protocol}//${urlObj.host}${urlObj.pathname}`;", "  } catch (e) {",
                     "    // URL 파싱 실패 시 쿼리 스트링만 제거", "    const queryIndex = url.indexOf('?');",
                     "    return queryIndex !== -1 ? url.substring(0, queryIndex) : url;", "  }", "}", "",
                     "(async () => {", "  const browser = await chromium.launch({ headless: false });",
                     "  const page = await browser.newPage();"]

  const TsHeader := ["import { chromium } from 'playwright';", "", "(async () => {",
                     "  const browser = await chromium.launch({ headless: false });",
                     "  const page = await browser.newPage();"]

  const PlaywrightJsFooter := ["  await browser.close();", "})();"]

  /** The Selenium-Python header. */
  function SeleniumPythonHeader(hasVerifyUrl: bool): seq<string>
  {
    ["from selenium import webdriver", "from selenium.webdriver.common.by import By",
     "from selenium.webdriver.common.action_chains import ActionChains",
     "from selenium.webdriver.support.ui import Select, WebDriverWait"]
    + (if hasVerifyUrl then [ImportNormalizeUrl] else [])
    + ["", "", "driver = webdriver.Chrome()", "driver.get('REPLACE_URL')"]
  }

  /** The Selenium JavaScript and TypeScript headers differ only in how they load the library. */
  const SeleniumJsPreamble := ["", "(async () => {", "  const driver = await new Builder()", "    .forBrowser('chrome')",
                               "    .setChromeOptions(new chrome.Options().addArguments('--headless=new'))", "    .build();",
                               "  await driver.get('REPLACE_URL');"]

  const SeleniumJsHeader := ["const { Builder, By, until } = require('selenium-webdriver');",
                             "const chrome = require('selenium-webdriver/chrome');"] + SeleniumJsPreamble

  const SeleniumTsHeader := ["import { Builder, By, until } from 'selenium-webdriver';",
                             "import * as chrome from 'selenium-webdriver/chrome';"] + SeleniumJsPreamble

  const SeleniumJsFooter := ["  await driver.quit();", "})();"]

  /** A line that starts with a space or with `d` (a statement, or a call on `driver`). */
  predicate BodyLine(line: string)
  {
    |line| > 0 && (line[0] == ' ' || line[0] == 'd')
  }

  /** The Python headers name the `normalize_url` helper exactly when some event checks the URL. */
  lemma ImportInHeader(hasVerifyUrl: bool, hasVerifyImage: bool)
    ensures ImportNormalizeUrl in PytestHeader(hasVerifyUrl, hasVerifyImage) <==> hasVerifyUrl
    ensures ImportNormalizeUrl in SeleniumPythonHeader(hasVerifyUrl) <==> hasVerifyUrl
  {
  }

  /** No statement line can be mistaken for the import, so the script imports the helper exactly when its header does. */
  lemma ImportOnlyInHeader(header: seq<string>, body: seq<string>, footer: seq<string>)
    requires forall j :: 0 <= j < |body| ==> BodyLine(body[j])
    requires ImportNormalizeUrl !in footer
    ensures ImportNormalizeUrl in header + body + footer <==> ImportNormalizeUrl in header
  {
    assert ImportNormalizeUrl[0] == 'f';
    forall j | 0 <= j < |body| ensures body[j] != ImportNormalizeUrl {
      assert BodyLine(body[j]);
    }
  }

  /** Indented lines are statement lines. */
  lemma IndentedAreBodyLines(body: seq<string>, indent: string)
    requires |indent| > 0 && indent[0] == ' ' && AllStartWith(body, indent)
    ensures forall j :: 0 <= j < |body| ==> BodyLine(body[j])
  {
    forall j | 0 <= j < |body| ensures BodyLine(body[j]) {
      assert body[j][..|indent|] == indent;
      assert body[j][0] == indent[0];
    }
  }

  // ---------------------------------------------------------------------
  // generateCode
  // ---------------------------------------------------------------------

  /** `manualList.filter(Boolean)` when it is an array, else `[]`. */
  function PresentActions(manualList: Option<seq<Option<ManualAction>>>): seq<Option<ManualAction>>
  {
    if manualList.None? then [] else Filter(manualList.value)
  }

  function Filter(ms: seq<Option<ManualAction>>): (r: seq<Option<ManualAction>>)
    ensures forall m :: m in r ==> m.Some?
  {
    if ms == [] then [] else (if ms[0].Some? then [ms[0]] else []) + Filter(ms[1..])
  }

  /** The languages the Playwright branch writes a script for. */
  predicate PlaywrightLanguage(languageLower: string)
  {
    languageLower == "python" || languageLower == "python-class" || languageLower == "javascript" || languageLower == "typescript"
  }

  predicate SeleniumLanguage(languageLower: string)
  {
    languageLower == "python" || languageLower == "javascript" || languageLower == "typescript"
  }

  /** The framework and language pairs `generateCode` writes a script for. */
  predicate KnownScript(frameworkLower: string, languageLower: string)
  {
    (frameworkLower == "playwright" && PlaywrightLanguage(languageLower))
    || (frameworkLower == "selenium" && SeleniumLanguage(languageLower))
  }

  /**
   * The pytest script: its header, then the statements at four spaces;
   * `normalize_url` is imported exactly when some event checks the URL,
   * and a timeline without events writes no statement.
   */
  predicate PytestScript(lines: seq<string>, timeline: seq<Entry<TimelineItem>>)
  {
    var header := PytestHeader(HasAction(timeline, "verifyUrl"), HasAction(timeline, "verifyImage"));
    && |lines| >= |header| && lines[..|header|] == header && AllStartWith(lines[|header|..], "    ")
    && (ImportNormalizeUrl in lines <==> HasAction(timeline, "verifyUrl"))
    && (!HasEvent(timeline) ==> lines == header)
  }

  /**
   * The class script: its header and footer around the body of `run` at
   * four spaces; without events the body is `pass` unless a manual action
   * was emitted, and otherwise empty.
   */
  predicate ClassScript(lines: seq<string>, timeline: seq<Entry<TimelineItem>>)
  {
    && |lines| >= |ClassHeader| + |ClassFooter|
    && lines[..|ClassHeader|] == ClassHeader && lines[|lines| - |ClassFooter|..] == ClassFooter
    && AllStartWith(lines[|ClassHeader|..|lines| - |ClassFooter|], "    ")
    && (!HasEvent(timeline) ==> lines == ClassHeader + (if HasManual(timeline) then [] else ["    pass"]) + ClassFooter)
  }

  /** A Playwright JavaScript or TypeScript script: header, statements at two spaces, footer. */
  predicate PlaywrightJsScript(lines: seq<string>, timeline: seq<Entry<TimelineItem>>, header: seq<string>)
  {
    && |lines| >= |header| + |PlaywrightJsFooter|
    && lines[..|header|] == header && lines[|lines| - |PlaywrightJsFooter|..] == PlaywrightJsFooter
    && AllStartWith(lines[|header|..|lines| - |PlaywrightJsFooter|], "  ")
    && (!HasEvent(timeline) ==> lines == header + PlaywrightJsFooter)
  }

  /**
   * The Selenium-Python script: header, statements at two spaces or driver
   * calls, `driver.quit()`; `normalize_url` is imported exactly when some
   * event checks the URL.
   */
  predicate SeleniumPythonScript(lines: seq<string>, timeline: seq<Entry<TimelineItem>>)
  {
    var header := SeleniumPythonHeader(HasAction(timeline, "verifyUrl"));
    && |lines| >= |header| + 1 && lines[..|header|] == header && lines[|lines| - 1] == "driver.quit()"
    && (ImportNormalizeUrl in lines <==> HasAction(timeline, "verifyUrl"))
    && (!HasEvent(timeline) ==> lines == header + ["driver.quit()"])
  }

  /** A Selenium JavaScript or TypeScript script: header, statements, footer. */
  predicate SeleniumJsScript(lines: seq<string>, timeline: seq<Entry<TimelineItem>>, header: seq<string>)
  {
    && |lines| >= |header| + |SeleniumJsFooter|
    && lines[..|header|] == header && lines[|lines| - |SeleniumJsFooter|..] == SeleniumJsFooter
    && (!HasEvent(timeline) ==> lines == header + SeleniumJsFooter)
  }

  /**
   * The lines of the script `generateCode` writes for a lower-cased
   * framework and language pair: the shape of that pair's script, or no
   * lines at all for a pair it does not know.
   */
  predicate ScriptLines(lines: seq<string>, timeline: seq<Entry<TimelineItem>>, frameworkLower: string, languageLower: string)
  {
    if frameworkLower == "playwright" then
      if languageLower == "python" then PytestScript(lines, timeline)
      else if languageLower == "python-class" then ClassScript(lines, timeline)
      else if languageLower == "javascript" then PlaywrightJsScript(lines, timeline, JsHeader)
      else if languageLower == "typescript" then PlaywrightJsScript(lines, timeline, TsHeader)
      else lines == []
    else if frameworkLower == "selenium" then
      if languageLower == "python" then SeleniumPythonScript(lines, timeline)
      else if languageLower == "javascript" then SeleniumJsScript(lines, timeline, SeleniumJsHeader)
      else if languageLower == "typescript" then SeleniumJsScript(lines, timeline, SeleniumTsHeader)
      else lines == []
    else lines == []
  }

  /** The text of a script: the lines of the pair's script joined by newlines. */
  ghost predicate ScriptText(code: string, timeline: seq<Entry<TimelineItem>>, frameworkLower: string, languageLower: string)
  {
    exists lines :: ScriptLines(lines, timeline, frameworkLower, languageLower) && code == Join(lines, "\n")
  }

  /** The `playwright` / `python` branch. */
  method PytestLines(timeline: seq<Entry<TimelineItem>>, parse: UrlParser, imageVar: nat -> string) returns (lines: seq<string>)
    ensures PytestScript(lines, timeline)
  {
    var header := PytestHeader(HasAction(timeline, "verifyUrl"), HasAction(timeline, "verifyImage"));
    var body, _ := PlaywrightPythonBody(timeline, "python", "page", "frame_locator_", parse, imageVar);
    lines := header + body;
    assert lines[..|header|] == header && lines[|header|..] == body;
    ImportInHeader(HasAction(timeline, "verifyUrl"), HasAction(timeline, "verifyImage"));
    IndentedAreBodyLines(body, "    ");
    ImportOnlyInHeader(header, body, []);
    assert lines == header + body + [];
  }

  /** The `playwright` / `python-class` branch. */
  method ClassLines(timeline: seq<Entry<TimelineItem>>, parse: UrlParser, imageVar: nat -> string) returns (lines: seq<string>)
    ensures ClassScript(lines, timeline)
  {
    var body, emitted := PlaywrightPythonBody(timeline, "python-class", "self.page", "self.frame_locator_", parse, imageVar);
    var middle := body + (if emitted then [] else ["    pass"]);
    assert AllStartWith(middle, "    ") by {
      StartsWithAppend("    ", "pass", "    ");
      AllStartWithConcat(body, if emitted then [] else ["    pass"], "    ");
    }
    lines := ClassHeader + middle + ClassFooter;
    assert lines[..|ClassHeader|] == ClassHeader;
    assert lines[|lines| - |ClassFooter|..] == ClassFooter;
    assert lines[|ClassHeader|..|lines| - |ClassFooter|] == middle;
  }

  /** The `playwright` / `javascript` and `typescript` branches. */
  method PlaywrightJsLines(timeline: seq<Entry<TimelineItem>>, languageLower: string, header: seq<string>, parse: UrlParser)
    returns (lines: seq<string>)
    ensures PlaywrightJsScript(lines, timeline, header)
  {
    var body := PlaywrightJsBody(timeline, languageLower, parse);
    lines := header + body + PlaywrightJsFooter;
    assert lines[..|header|] == header;
    assert lines[|lines| - |PlaywrightJsFooter|..] == PlaywrightJsFooter;
    assert lines[|header|..|lines| - |PlaywrightJsFooter|] == body;
  }

  /** The `selenium` / `python` branch. */
  method SeleniumPythonLines(timeline: seq<Entry<TimelineItem>>, parse: UrlParser) returns (lines: seq<string>)
    ensures SeleniumPythonScript(lines, timeline)
  {
    var header := SeleniumPythonHeader(HasAction(timeline, "verifyUrl"));
    var body := SeleniumPythonBody(timeline, parse);
    lines := header + body + ["driver.quit()"];
    assert lines[..|header|] == header;
    ImportInHeader(HasAction(timeline, "verifyUrl"), false);
    ImportOnlyInHeader(header, body, ["driver.quit()"]);
  }

  /** The `selenium` / `javascript` and `typescript` branches. */
  method SeleniumJsLines(timeline: seq<Entry<TimelineItem>>, header: seq<string>, parse: UrlParser) returns (lines: seq<string>)
    ensures SeleniumJsScript(lines, timeline, header)
  {
    var body := SeleniumJsBody(timeline, parse);
    lines := header + body + SeleniumJsFooter;
    assert lines[..|header|] == header;
    assert lines[|lines| - |SeleniumJsFooter|..] == SeleniumJsFooter;
  }

  /** The `playwright` branch: four script forms by language, nothing for another language. */
  method PlaywrightScriptLines(timeline: seq<Entry<TimelineItem>>, languageLower: string, parse: UrlParser, imageVar: nat -> string)
    returns (lines: seq<string>)
    ensures ScriptLines(lines, timeline, "playwright", languageLower)
  {
    lines := [];
    if languageLower == "python" {
      lines := PytestLines(timeline, parse, imageVar);
    } else if languageLower == "python-class" {
      lines := ClassLines(timeline, parse, imageVar);
    } else if languageLower == "javascript" {
      lines := PlaywrightJsLines(timeline, languageLower, JsHeader, parse);
    } else if languageLower == "typescript" {
      lines := PlaywrightJsLines(timeline, languageLower, TsHeader, parse);
    }
  }

  /** The `selenium` branch: three script forms by language, nothing for another language. */
  method SeleniumScriptLines(timeline: seq<Entry<TimelineItem>>, languageLower: string, parse: UrlParser)
    returns (lines: seq<string>)
    ensures ScriptLines(lines, timeline, "selenium", languageLower)
  {
    lines := [];
    if languageLower == "python" {
      lines := SeleniumPythonLines(timeline, parse);
    } else if languageLower == "javascript" {
      lines := SeleniumJsLines(timeline, SeleniumJsHeader, parse);
    } else if languageLower == "typescript" {
      lines := SeleniumJsLines(timeline, SeleniumTsHeader, parse);
    }
  }

  /**
   * The script text for a built timeline: the lines of the pair's script
   * joined by newlines.
   */
  method ScriptCode(timeline: seq<Entry<TimelineItem>>, frameworkLower: string, languageLower: string, parse: UrlParser, imageVar: nat -> string)
    returns (code: string)
    ensures ScriptText(code, timeline, frameworkLower, languageLower)
  {
    var lines := [];
    if frameworkLower == "playwright" {
      lines := PlaywrightScriptLines(timeline, languageLower, parse, imageVar);
    } else if frameworkLower == "selenium" {
      lines := SeleniumScriptLines(timeline, languageLower, parse);
    }
    code := Join(lines, "\n");
  }

  /**
   * `generateCode(events, manualList, framework, language)` at time `now`;
   * `imageVar(k)` is the snapshot variable name drawn for the k-th entry.
   * The framework and language are matched case-insensitively; an unknown
   * one gives the empty script. Otherwise the text is the lines of that
   * pair's script joined by newlines (`ScriptLines`): a pytest or
   * Selenium-Python script imports `normalize_url` exactly when the
   * timeline has a URL check, and a timeline without events writes only
   * the header and footer.
   */
  method GenerateCode(events: Option<seq<EventRecord>>, manualList: Option<seq<Option<ManualAction>>>,
                      framework: JsStr, language: JsStr, now: int, parse: UrlParser, imageVar: nat -> string)
    returns (code: string)
    ensures ScriptText(code, Timeline(events, Some(PresentActions(manualList)), now), Lower(OrEmpty(framework)), Lower(OrEmpty(language)))
  {
    var timeline := BuildActionTimeline(events, Some(PresentActions(manualList)), now);
    code := ScriptCode(timeline, Lower(OrEmpty(framework)), Lower(OrEmpty(language)), parse, imageVar);
  }

  /** An unknown framework or language pair gives the empty script. */
  lemma ScriptTextUnknown(code: string, timeline: seq<Entry<TimelineItem>>, frameworkLower: string, languageLower: string)
    requires ScriptText(code, timeline, frameworkLower, languageLower)
    requires !KnownScript(frameworkLower, languageLower)
    ensures code == ""
  {
    var lines :| ScriptLines(lines, timeline, frameworkLower, languageLower) && code == Join(lines, "\n");
    assert lines == [];
  }

  /** The text of a pytest script starts with its header, which imports `normalize_url` exactly for a URL check. */
  lemma ScriptTextPytest(code: string, timeline: seq<Entry<TimelineItem>>, frameworkLower: string, languageLower: string)
    requires ScriptText(code, timeline, frameworkLower, languageLower)
    requires frameworkLower == "playwright" && languageLower == "python"
    ensures StartsWith(code, Join(PytestHeader(HasAction(timeline, "verifyUrl"), HasAction(timeline, "verifyImage")), "\n"))
  {
    var lines :| ScriptLines(lines, timeline, frameworkLower, languageLower) && code == Join(lines, "\n");
    PytestScriptStarts(lines, timeline);
  }

  /** The text of a Selenium-Python script starts with its header. */
  lemma ScriptTextSeleniumPython(code: string, timeline: seq<Entry<TimelineItem>>, frameworkLower: string, languageLower: string)
    requires ScriptText(code, timeline, frameworkLower, languageLower)
    requires frameworkLower == "selenium" && languageLower == "python"
    ensures StartsWith(code, Join(SeleniumPythonHeader(HasAction(timeline, "verifyUrl")), "\n"))
  {
    var lines :| ScriptLines(lines, timeline, frameworkLower, languageLower) && code == Join(lines, "\n");
    SeleniumPythonScriptStarts(lines, timeline);
  }

  /** The text of a pytest script starts with its header's text. */
  lemma PytestScriptStarts(lines: seq<string>, timeline: seq<Entry<TimelineItem>>)
    requires PytestScript(lines, timeline)
    ensures StartsWith(Join(lines, "\n"), Join(PytestHeader(HasAction(timeline, "verifyUrl"), HasAction(timeline, "verifyImage")), "\n"))
  {
    JoinPrefix(lines, |PytestHeader(HasAction(timeline, "verifyUrl"), HasAction(timeline, "verifyImage"))|, "\n");
  }

  /** The text of a Selenium-Python script starts with its header's text. */
  lemma SeleniumPythonScriptStarts(lines: seq<string>, timeline: seq<Entry<TimelineItem>>)
    requires SeleniumPythonScript(lines, timeline)
    ensures StartsWith(Join(lines, "\n"), Join(SeleniumPythonHeader(HasAction(timeline, "verifyUrl")), "\n"))
  {
    JoinPrefix(lines, |SeleniumPythonHeader(HasAction(timeline, "verifyUrl"))|, "\n");
  }

  /** Joining a list starts with joining any non-empty prefix of it. */
  lemma JoinPrefix(lines: seq<string>, k: nat, sep: string)
    requires 1 <= k <= |lines|
    ensures StartsWith(Join(lines, sep), Join(lines[..k], sep))
  {
    if k == |lines| {
      assert lines[..k] == lines;
    } else {
      assert lines == lines[..k] + lines[k..];
      JoinAppend(lines[..k], lines[k..], sep);
      StartsWithAppend(Join(lines[..k], sep), sep + Join(lines[k..], sep), Join(lines[..k], sep));
      assert Join(lines[..k], sep) + sep + Join(lines[k..], sep) == Join(lines[..k], sep) + (sep + Join(lines[k..], sep));
    }
  }
}
