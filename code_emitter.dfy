/**
 * The action builders of the test-code generator
 * (`src/renderer/utils/codeGenerator.js`): the Playwright locator
 * expression, the Playwright and Selenium statements for Python and
 * JavaScript, and the iframe locator and switch lines.
 *
 * Parsing a URL (`new URL`) is a parameter, as in `UrlNormalize`. The name
 * of the screenshot variable of a Playwright-Python image check is random
 * in the source and a parameter here. `resolveSelectorPosition` returns
 * `null` for every event, so the `.nth(…)` and `(…)[n]` forms it would
 * enable never appear and are not modelled.
 */
module CodeEmitter {
  import opened JsStrings
  import opened EventRecords
  import opened CodeGenerator
  import UrlNormalize

  /** What `new URL(s)` yields: the parsed URL, or `None` when it throws. */
  type UrlParser = string -> Option<UrlNormalize.WebUrl>

  // ---------------------------------------------------------------------
  // String literals in the generated code
  // ---------------------------------------------------------------------

  /** `"${escapeForDoubleQuotes(s)}"`: a double-quoted Python or JavaScript literal. */
  function Quoted(s: string): string
  {
    "\"" + EscapeForDoubleQuotes(Some(s)) + "\""
  }

  /**
   * `line` is `prefix`, then a double-quoted literal that denotes `text`,
   * then `suffix`.
   */
  ghost predicate Quotes(line: string, prefix: string, text: string, suffix: string)
  {
    exists body :: line == prefix + "\"" + body + "\"" + suffix && LiteralBody(body) && ReadLiteralBody(body) == text
  }

  /** A quoted string denotes exactly the string it quotes. */
  lemma QuotedDenotes(prefix: string, text: string, suffix: string)
    ensures Quotes(prefix + Quoted(text) + suffix, prefix, text, suffix)
  {
    var body := EscapeForDoubleQuotes(Some(text));
    EscapeForDoubleQuotesRoundTrip(text);
    assert prefix + Quoted(text) + suffix == prefix + "\"" + body + "\"" + suffix;
  }

  /**
   * The literal of an expected text in an assertion (`verifyText`,
   * `verifyTextContains`, and `verifyTitle` / `verifyUrl` of Selenium
   * JavaScript): the recorded value, escaped once.
   */
  function ExpectedLiteral(v: string): string
  {
    Quoted(v)
  }

  /**
   * The literal as the source writes it: `value` is already escaped, and
   * `escapeForPythonString(value || '')` / `escapeForJSString(value || '')`
   * escapes it a second time.
   */
  function ExpectedLiteralAsWritten(v: string): string
  {
    Quoted(EscapeForDoubleQuotes(Some(v)))
  }

  /**
   * Escaping twice changes what the assertion expects: for the text `"`
   * the literal reads back as `\"`, so the assertion compares the element's
   * text with a string the page does not show.
   */
  lemma ExpectedLiteralAsWrittenMisreads(prefix: string, suffix: string)
    ensures !Quotes(prefix + ExpectedLiteralAsWritten("\"") + suffix, prefix, "\"", suffix)
    ensures Quotes(prefix + ExpectedLiteralAsWritten("\"") + suffix, prefix, "\\\"", suffix)
  {
    assert EscapeForDoubleQuotes(Some("\"")) == "\\\"";
    assert ExpectedLiteralAsWritten("\"") == Quoted("\\\"");
    QuotedDenotes(prefix, "\\\"", suffix);
    QuotedUnique(prefix, "\\\"", suffix, "\"");
  }

  /** A line with one quoted literal at a fixed place denotes one text only. */
  lemma QuotedUnique(prefix: string, text: string, suffix: string, other: string)
    requires other != text
    ensures !Quotes(prefix + Quoted(text) + suffix, prefix, other, suffix)
  {
    var line := prefix + Quoted(text) + suffix;
    var esc := EscapeForDoubleQuotes(Some(text));
    EscapeForDoubleQuotesRoundTrip(text);
    assert line == prefix + "\"" + esc + "\"" + suffix;
    forall body | line == prefix + "\"" + body + "\"" + suffix
      ensures ReadLiteralBody(body) != other
    {
      assert |body| == |esc|;
      assert body == line[|prefix| + 1..|prefix| + 1 + |body|];
      assert esc == line[|prefix| + 1..|prefix| + 1 + |esc|];
    }
  }

  /** The fixed escaped literal reads back with the right text. */
  lemma ExpectedLiteralDenotes(prefix: string, v: string, suffix: string)
    ensures Quotes(prefix + ExpectedLiteral(v) + suffix, prefix, v, suffix)
  {
    QuotedDenotes(prefix, v, suffix);
  }

  // ---------------------------------------------------------------------
  // Values read from the event
  // ---------------------------------------------------------------------

  /** `normalizeUrl(v)` of the generator: the URL without its query; `''` stays `''`. */
  function NormalizedUrl(v: string, parse: UrlParser): string
  {
    OrEmpty(UrlNormalize.RemoveQueryParams(Some(v), parse(v)))
  }

  /** `(ev.matchMode || 'exact') === 'contains'`. */
  predicate UrlContains(ev: EventRecord)
  {
    OrElse(ev.matchMode, Some("exact")) == Some("contains")
  }

  /** `ev.value || 1000`, as written into the wait call. */
  function WaitTime(ev: EventRecord): string
  {
    if Truthy(ev.value) then ev.value.value else "1000"
  }

  /** `ev.value || ev.url || ''`: where a navigation goes. */
  function NavigateTarget(ev: EventRecord): string
  {
    OrEmpty(OrElse(ev.value, ev.url))
  }

  /** `ev.snapshotName || ev.value || 'snapshot'`. */
  function SnapshotName(ev: EventRecord): string
  {
    OrEmpty(OrElse(ev.snapshotName, OrElse(ev.value, Some("snapshot"))))
  }

  /** `selectorInfo.type || inferSelectorType(selectorInfo.selector)`. */
  function SelectorKind(info: SelectorInfo): JsStr
  {
    OrElse(info.kind, InferSelectorType(info.selector))
  }

  /** The `action` names the builders know, and every other value. */
  datatype ActionName =
    | Click | DoubleClick | RightClick | Hover | Input | Type | Clear | Select | Navigate | WaitForElement
    | VerifyText | VerifyTextContains | VerifyElementPresent | VerifyElementNotPresent | VerifyImage
    | VerifyTitle | VerifyUrl | Wait | OtherAction

  /** The builders' `ev.action === '…'` tests. */
  function ActionOf(a: JsStr): ActionName
  {
    if a == Some("click") then Click
    else if a == Some("doubleClick") then DoubleClick
    else if a == Some("rightClick") then RightClick
    else if a == Some("hover") then Hover
    else if a == Some("input") then Input
    else if a == Some("type") then Type
    else if a == Some("clear") then Clear
    else if a == Some("select") then Select
    else if a == Some("navigate") then Navigate
    else if a == Some("waitForElement") then WaitForElement
    else if a == Some("verifyText") then VerifyText
    else if a == Some("verifyTextContains") then VerifyTextContains
    else if a == Some("verifyElementPresent") then VerifyElementPresent
    else if a == Some("verifyElementNotPresent") then VerifyElementNotPresent
    else if a == Some("verifyImage") then VerifyImage
    else if a == Some("verifyTitle") then VerifyTitle
    else if a == Some("verifyUrl") then VerifyUrl
    else if a == Some("wait") then Wait
    else OtherAction
  }

  /** The actions that act on an element and so need a selector. */
  predicate ElementAction(a: ActionName)
  {
    !a.VerifyTitle? && !a.VerifyUrl? && !a.Wait? && !a.OtherAction?
  }

  /** The title and URL checks, which the Selenium builders handle without an element. */
  predicate PageCheck(a: ActionName)
  {
    a.VerifyTitle? || a.VerifyUrl?
  }

  /** The page-level actions the Playwright builders handle before looking at the selector. */
  predicate PageAction(a: ActionName)
  {
    PageCheck(a) || a.Wait?
  }

  // ---------------------------------------------------------------------
  // buildPlaywrightLocatorExpressionForAction
  // ---------------------------------------------------------------------

  /** The `exact` argument of a Playwright text locator. */
  function TextMatchTail(info: SelectorInfo, pythonLike: bool): string
  {
    var contains := OrElse(info.matchMode, Some("exact")) == Some("contains");
    if pythonLike then (if contains then ", exact=False)" else ", exact=True)")
    else (if contains then ")" else ", { exact: true })")
  }

  /** `buildPlaywrightLocatorExpressionForAction(base, selectorInfo, pythonLike)`. */
  function PlaywrightLocator(base: string, info: SelectorInfo, pythonLike: bool): string
  {
    var kind := SelectorKind(info);
    var text := GetTextValue(Some(info));
    var testId := ExtractAttributeValue(info.selector, Some("data-testid"));
    if kind == Some("text") && text != "" then
      base + (if pythonLike then ".get_by_text(" else ".getByText(") + Quoted(text) + TextMatchTail(info, pythonLike)
    else if kind == Some("xpath") || kind == Some("xpath-full") then
      base + ".locator(" + Quoted(EnsureXPathSelector(info.selector)) + ")"
    else if kind == Some("data-testid") && testId != "" then
      base + (if pythonLike then ".get_by_test_id(" else ".getByTestId(") + Quoted(testId) + ")"
    else base + ".locator(" + Quoted(OrEmpty(info.selector)) + ")"
  }

  /**
   * The locator finds the element by its text (exactly unless the match
   * mode is 'contains'), by its XPath with the `xpath=` prefix, by its test
   * id, or else by the selector as it is; in each case the quoted argument
   * denotes that text, path, id or selector exactly.
   */
  lemma PlaywrightLocatorDenotes(base: string, info: SelectorInfo, pythonLike: bool)
    ensures var r := PlaywrightLocator(base, info, pythonLike);
      var kind := SelectorKind(info);
      var text := GetTextValue(Some(info));
      var testId := ExtractAttributeValue(info.selector, Some("data-testid"));
      && (kind == Some("text") && text != "" ==>
            Quotes(r, base + (if pythonLike then ".get_by_text(" else ".getByText("), text, TextMatchTail(info, pythonLike)))
      && (!(kind == Some("text") && text != "") && (kind == Some("xpath") || kind == Some("xpath-full")) ==>
            Quotes(r, base + ".locator(", EnsureXPathSelector(info.selector), ")")
            && (Truthy(info.selector) ==> StartsWith(EnsureXPathSelector(info.selector), "xpath=")))
      && (!(kind == Some("text") && text != "") && !(kind == Some("xpath") || kind == Some("xpath-full"))
            && kind == Some("data-testid") && testId != "" ==>
            Quotes(r, base + (if pythonLike then ".get_by_test_id(" else ".getByTestId("), testId, ")"))
      && (!(kind == Some("text") && text != "") && !(kind == Some("xpath") || kind == Some("xpath-full"))
            && !(kind == Some("data-testid") && testId != "") ==>
            Quotes(r, base + ".locator(", OrEmpty(info.selector), ")"))
  {
    var kind := SelectorKind(info);
    var text := GetTextValue(Some(info));
    var testId := ExtractAttributeValue(info.selector, Some("data-testid"));
    if kind == Some("text") && text != "" {
      QuotedDenotes(base + (if pythonLike then ".get_by_text(" else ".getByText("), text, TextMatchTail(info, pythonLike));
    } else if kind == Some("xpath") || kind == Some("xpath-full") {
      QuotedDenotes(base + ".locator(", EnsureXPathSelector(info.selector), ")");
    } else if kind == Some("data-testid") && testId != "" {
      QuotedDenotes(base + (if pythonLike then ".get_by_test_id(" else ".getByTestId("), testId, ")");
    } else {
      QuotedDenotes(base + ".locator(", OrEmpty(info.selector), ")");
    }
  }

  // ---------------------------------------------------------------------
  // buildPlaywrightPythonAction
  // ---------------------------------------------------------------------

  /** The Playwright-Python statements of an element action on locator `loc`. */
  function PlaywrightPythonElementAction(a: ActionName, ev: EventRecord, info: SelectorInfo, base: string, loc: string, imageVar: string): ActionCode
    requires Truthy(info.selector)
    requires ElementAction(a)
  {
    var v := OrEmpty(ev.value);
    match a
    case Click => Line(loc + ".click()")
    case DoubleClick => Line(loc + ".dblclick()")
    case RightClick => Line(loc + ".click(button=\"right\")")
    case Hover => Line(loc + ".hover()")
    case Input | Type => Line(loc + ".fill(" + Quoted(v) + ")")
    case Clear => Line(loc + ".clear()")
    case Select =>
      Line(if v != "" then loc + ".select_option(" + Quoted(v) + ")" else loc + ".select_option()")
    case Navigate => Line("page.goto(" + Quoted(NavigateTarget(ev)) + ")")
    case WaitForElement => Line(base + ".wait_for_selector(" + Quoted(info.selector.value) + ", timeout=30000)")
    case VerifyText => Line("assert " + loc + ".inner_text() == " + ExpectedLiteralAsWritten(v))
    case VerifyTextContains => Line("assert " + ExpectedLiteralAsWritten(v) + " in " + loc + ".inner_text()")
    case VerifyElementPresent => Line("assert " + loc + ".is_visible()")
    case VerifyElementNotPresent => Line("assert " + loc + ".is_hidden()")
    case VerifyImage =>
      Lines([imageVar + " = " + loc + ".screenshot()", "assert_snapshot(" + imageVar + ", name=\"" + SnapshotName(ev) + ".jpeg\")"])
  }

  /** `buildPlaywrightPythonAction(ev, selectorInfo, base)`; `imageVar` stands for the random screenshot name. */
  function PlaywrightPythonAction(ev: EventRecord, info: SelectorInfo, base: string, parse: UrlParser, imageVar: string): Option<ActionCode>
  {
    PlaywrightPythonStatement(ActionOf(ev.action), ev, info, base, parse, imageVar)
  }

  /** The Playwright-Python statements of the page-level actions, which need no selector. */
  function PlaywrightPythonPageAction(a: ActionName, ev: EventRecord, base: string, parse: UrlParser): ActionCode
    requires PageAction(a)
  {
    var v := OrEmpty(ev.value);
    match a
    case VerifyTitle => Line("assert " + base + ".title() == " + Quoted(v))
    case VerifyUrl =>
      var u := Quoted(NormalizedUrl(v, parse));
      if UrlContains(ev) then Line("assert " + u + " in normalize_url(" + base + ".url)")
      else Lines([base + ".wait_for_url(lambda url: normalize_url(url) == " + u + ", timeout=10000)",
                  "assert normalize_url(" + base + ".url) == " + u])
    case Wait => Line(base + ".wait_for_timeout(" + WaitTime(ev) + ")")
  }

  /** The Playwright-Python statements of action `a`. */
  function PlaywrightPythonStatement(a: ActionName, ev: EventRecord, info: SelectorInfo, base: string, parse: UrlParser, imageVar: string): Option<ActionCode>
  {
    if PageAction(a) then Some(PlaywrightPythonPageAction(a, ev, base, parse))
    else if !Truthy(info.selector) || !ElementAction(a) then None
    else Some(PlaywrightPythonElementAction(a, ev, info, base, PlaywrightLocator(base, info, true), imageVar))
  }




  /** The Playwright-Python title check quotes the recorded title exactly. */
  lemma PlaywrightPythonTitleLiteral(a: ActionName, ev: EventRecord, base: string, parse: UrlParser)
    requires a == VerifyTitle
    ensures var r := PlaywrightPythonPageAction(a, ev, base, parse);
      var v := OrEmpty(ev.value);
      Quotes(r.text, "assert " + base + ".title() == ", v, "")
  {
    var v := OrEmpty(ev.value);
    QuotedDenotes("assert " + base + ".title() == ", v, "");
  }

  /** The Playwright-Python URL check quotes the recorded URL without its query, in both match modes. */
  lemma PlaywrightPythonUrlLiteral(a: ActionName, ev: EventRecord, base: string, parse: UrlParser)
    requires a == VerifyUrl
    ensures var r := PlaywrightPythonPageAction(a, ev, base, parse);
      var v := OrEmpty(ev.value);
      && (UrlContains(ev) ==> Quotes(r.text, "assert ", NormalizedUrl(v, parse), " in normalize_url(" + base + ".url)"))
      && (!UrlContains(ev) ==> Quotes(r.lines[1], "assert normalize_url(" + base + ".url) == ", NormalizedUrl(v, parse), ""))
  {
    var v := OrEmpty(ev.value);
    if UrlContains(ev) {
      QuotedDenotes("assert ", NormalizedUrl(v, parse), " in normalize_url(" + base + ".url)");
    } else {
      QuotedDenotes("assert normalize_url(" + base + ".url) == ", NormalizedUrl(v, parse), "");
    }
  }

  /** The Playwright-Python typing statement quotes the recorded value exactly. */
  lemma PlaywrightPythonFillLiteral(a: ActionName, ev: EventRecord, info: SelectorInfo, base: string, loc: string, imageVar: string)
    requires Truthy(info.selector) && (a == Input || a == Type)
    ensures var r := PlaywrightPythonElementAction(a, ev, info, base, loc, imageVar);
      var v := OrEmpty(ev.value);
      Quotes(r.text, loc + ".fill(", v, ")")
  {
    var v := OrEmpty(ev.value);
    QuotedDenotes(loc + ".fill(", v, ")");
  }

  /**
   * As written, the text check quotes the recorded text after escaping it
   * twice: the assertion expects the once-escaped text, not the text itself.
   */
  lemma PlaywrightPythonExpectedTextLiteral(a: ActionName, ev: EventRecord, info: SelectorInfo, base: string, loc: string, imageVar: string)
    requires Truthy(info.selector) && a == VerifyText
    ensures var r := PlaywrightPythonElementAction(a, ev, info, base, loc, imageVar);
      var v := EscapeForDoubleQuotes(Some(OrEmpty(ev.value)));
      Quotes(r.text, "assert " + loc + ".inner_text() == ", v, "")
  {
    var v := EscapeForDoubleQuotes(Some(OrEmpty(ev.value)));
    QuotedDenotes("assert " + loc + ".inner_text() == ", v, "");
  }





  // ---------------------------------------------------------------------
  // buildPlaywrightJSAction
  // ---------------------------------------------------------------------

  /** The Playwright-JavaScript statement of an element action on locator `loc`. */
  function PlaywrightJsElementAction(a: ActionName, ev: EventRecord, loc: string): string
    requires ElementAction(a)
  {
    var v := OrEmpty(ev.value);
    match a
    case Click => "await " + loc + ".click();"
    case DoubleClick => "await " + loc + ".dblclick();"
    case RightClick => "await " + loc + ".click({ button: 'right' });"
    case Hover => "await " + loc + ".hover();"
    case Input | Type => "await " + loc + ".fill(" + Quoted(v) + ");"
    case Clear => "await " + loc + ".clear();"
    case Select =>
      if v != "" then "await " + loc + ".selectOption(" + Quoted(v) + ");" else "await " + loc + ".selectOption();"
    case Navigate => "await page.goto(" + Quoted(NavigateTarget(ev)) + ");"
    case WaitForElement => "await " + loc + ".waitFor({ timeout: 30000 });"
    case VerifyText => "expect(await " + loc + ".innerText()).toBe(" + ExpectedLiteralAsWritten(v) + ");"
    case VerifyTextContains => "expect(await " + loc + ".innerText()).toContain(" + ExpectedLiteralAsWritten(v) + ");"
    case VerifyElementPresent => "expect(await " + loc + ".isVisible()).toBe(true);"
    case VerifyElementNotPresent => "expect(await " + loc + ".isHidden()).toBe(true);"
    case VerifyImage => "expect(await " + loc + ".screenshot()).toMatchSnapshot();"
  }

  /** `buildPlaywrightJSAction(ev, selectorInfo, base)`. */
  function PlaywrightJsAction(ev: EventRecord, info: SelectorInfo, base: string, parse: UrlParser): JsStr
  {
    PlaywrightJsStatement(ActionOf(ev.action), ev, info, base, parse)
  }

  /** The Playwright-JavaScript statement of the page-level actions, which need no selector. */
  function PlaywrightJsPageAction(a: ActionName, ev: EventRecord, base: string, parse: UrlParser): string
    requires PageAction(a)
  {
    var v := OrEmpty(ev.value);
    match a
    case VerifyTitle => "expect(await " + base + ".title()).toBe(" + Quoted(v) + ");"
    case VerifyUrl =>
      var u := Quoted(NormalizedUrl(v, parse));
      if UrlContains(ev) then "expect(normalizeUrl(" + base + ".url())).toContain(" + u + ");"
      else "await " + base + ".waitForURL(url => normalizeUrl(url) === " + u + ", { timeout: 10000 });\n  expect(normalizeUrl("
           + base + ".url())).toBe(" + u + ");"
    case Wait => "await " + base + ".waitForTimeout(" + WaitTime(ev) + ");"
  }

  /** The Playwright-JavaScript statement of action `a`. */
  function PlaywrightJsStatement(a: ActionName, ev: EventRecord, info: SelectorInfo, base: string, parse: UrlParser): JsStr
  {
    if PageAction(a) then Some(PlaywrightJsPageAction(a, ev, base, parse))
    else if !Truthy(info.selector) || !ElementAction(a) then None
    else Some(PlaywrightJsElementAction(a, ev, PlaywrightLocator(base, info, false)))
  }




  /** The Playwright-JavaScript title check quotes the recorded title exactly. */
  lemma PlaywrightJsTitleLiteral(a: ActionName, ev: EventRecord, base: string, parse: UrlParser)
    requires a == VerifyTitle
    ensures var r := PlaywrightJsPageAction(a, ev, base, parse);
      var v := OrEmpty(ev.value);
      Quotes(r, "expect(await " + base + ".title()).toBe(", v, ");")
  {
    var v := OrEmpty(ev.value);
    QuotedDenotes("expect(await " + base + ".title()).toBe(", v, ");");
  }

  /** The Playwright-JavaScript URL check quotes the recorded URL without its query. */
  lemma PlaywrightJsUrlLiteral(a: ActionName, ev: EventRecord, base: string, parse: UrlParser)
    requires a == VerifyUrl && UrlContains(ev)
    ensures var r := PlaywrightJsPageAction(a, ev, base, parse);
      var v := OrEmpty(ev.value);
      Quotes(r, "expect(normalizeUrl(" + base + ".url())).toContain(", NormalizedUrl(v, parse), ");")
  {
    var v := OrEmpty(ev.value);
    QuotedDenotes("expect(normalizeUrl(" + base + ".url())).toContain(", NormalizedUrl(v, parse), ");");
  }

  /** The Playwright-JavaScript typing statement quotes the recorded value exactly. */
  lemma PlaywrightJsFillLiteral(a: ActionName, ev: EventRecord, loc: string)
    requires (a == Input || a == Type)
    ensures var r := PlaywrightJsElementAction(a, ev, loc);
      var v := OrEmpty(ev.value);
      Quotes(r, "await " + loc + ".fill(", v, ");")
  {
    var v := OrEmpty(ev.value);
    QuotedDenotes("await " + loc + ".fill(", v, ");");
  }

  /**
   * As written, the text check quotes the recorded text after escaping it
   * twice: the assertion expects the once-escaped text, not the text itself.
   */
  lemma PlaywrightJsExpectedTextLiteral(a: ActionName, ev: EventRecord, loc: string)
    requires a == VerifyText
    ensures var r := PlaywrightJsElementAction(a, ev, loc);
      var v := EscapeForDoubleQuotes(Some(OrEmpty(ev.value)));
      Quotes(r, "expect(await " + loc + ".innerText()).toBe(", v, ");")
  {
    var v := EscapeForDoubleQuotes(Some(OrEmpty(ev.value)));
    QuotedDenotes("expect(await " + loc + ".innerText()).toBe(", v, ");");
  }





  // ---------------------------------------------------------------------
  // Selenium element lookup
  // ---------------------------------------------------------------------

  /** The XPath a Selenium text lookup builds: exact unless the match mode is other than 'exact'. */
  function TextXPath(text: string, info: SelectorInfo): string
  {
    if OrElse(info.matchMode, Some("exact")) == Some("exact") then "//*[normalize-space(.) = \"" + text + "\"]"
    else "//*[contains(normalize-space(.), \"" + text + "\")]"
  }

  /** What a Selenium lookup searches by. */
  datatype Lookup = ByXPath(path: string) | ByCss(selector: string)

  /** The lookup the Selenium `getElement` helper chooses. */
  function SeleniumLookup(info: SelectorInfo): (r: Lookup)
  {
    var kind := SelectorKind(info);
    var text := GetTextValue(Some(info));
    if kind == Some("xpath") then ByXPath(GetXPathValue(Some(info)))
    else if kind == Some("text") && text != "" then ByXPath(TextXPath(text, info))
    else ByCss(OrEmpty(info.selector))
  }

  /** `getElement()` of `buildSeleniumPythonAction`. */
  function SeleniumPythonElement(info: SelectorInfo, driver: string): string
  {
    match SeleniumLookup(info)
    case ByXPath(p) => driver + ".find_element(By.XPATH, " + Quoted(p) + ")"
    case ByCss(s) => driver + ".find_element(By.CSS_SELECTOR, " + Quoted(s) + ")"
  }

  /** `getElement()` of `buildSeleniumJSAction`. */
  function SeleniumJsElement(info: SelectorInfo): string
  {
    match SeleniumLookup(info)
    case ByXPath(p) => "driver.findElement(By.xpath(" + Quoted(p) + "))"
    case ByCss(s) => "driver.findElement(By.css(" + Quoted(s) + "))"
  }

  /**
   * Selenium looks an element up by its XPath (without the `xpath=`
   * prefix) for an XPath selector, by an XPath over the normalised text for
   * a text selector with a text, and by the selector as CSS otherwise; the
   * Python and JavaScript lookups quote the same path or selector.
   */
  lemma SeleniumLookupFacts(info: SelectorInfo, driver: string)
    ensures var kind := SelectorKind(info);
      && (kind == Some("xpath") && Truthy(info.selector) && !Truthy(info.xpathValue) && StartsWith(info.selector.value, "xpath=") ==>
            SeleniumLookup(info) == ByXPath(info.selector.value[6..]))
      && (kind == Some("text") && GetTextValue(Some(info)) != "" ==>
            SeleniumLookup(info).ByXPath? && StartsWith(SeleniumLookup(info).path, "//*[")
            && Contains(SeleniumLookup(info).path, GetTextValue(Some(info))))
      && (kind != Some("xpath") && kind != Some("text") ==> SeleniumLookup(info) == ByCss(OrEmpty(info.selector)))
      && (SeleniumLookup(info).ByXPath? ==>
            Quotes(SeleniumPythonElement(info, driver), driver + ".find_element(By.XPATH, ", SeleniumLookup(info).path, ")")
            && Quotes(SeleniumJsElement(info), "driver.findElement(By.xpath(", SeleniumLookup(info).path, "))"))
      && (SeleniumLookup(info).ByCss? ==>
            Quotes(SeleniumPythonElement(info, driver), driver + ".find_element(By.CSS_SELECTOR, ", SeleniumLookup(info).selector, ")")
            && Quotes(SeleniumJsElement(info), "driver.findElement(By.css(", SeleniumLookup(info).selector, "))"))
  {
    var kind := SelectorKind(info);
    var text := GetTextValue(Some(info));
    if kind != Some("xpath") && kind == Some("text") && text != "" {
      var p := TextXPath(text, info);
      if OrElse(info.matchMode, Some("exact")) == Some("exact") {
        assert p == "//*[normalize-space(.) = \"" + text + "\"]";
        ContainsMiddle("//*[normalize-space(.) = \"", text, "\"]");
        assert p[..4] == "//*[";
      } else {
        ContainsMiddle("//*[contains(normalize-space(.), \"", text, "\")]");
        assert p[..4] == "//*[";
      }
    }
    match SeleniumLookup(info)
    case ByXPath(p) =>
      QuotedDenotes(driver + ".find_element(By.XPATH, ", p, ")");
      QuotedDenotes("driver.findElement(By.xpath(", p, "))");
    case ByCss(s) =>
      QuotedDenotes(driver + ".find_element(By.CSS_SELECTOR, ", s, ")");
      QuotedDenotes("driver.findElement(By.css(", s, "))");
  }

  // ---------------------------------------------------------------------
  // buildSeleniumPythonAction
  // ---------------------------------------------------------------------

  /** The Selenium-Python statement of an element action on element expression `el`. */
  function SeleniumPythonElementAction(a: ActionName, ev: EventRecord, info: SelectorInfo, driver: string, el: string): ActionCode
    requires Truthy(info.selector)
    requires ElementAction(a)
  {
    var v := OrEmpty(ev.value);
    match a
    case Click => Line(el + ".click()")
    case DoubleClick => Line(el + ".double_click()")
    case RightClick => Line(el + ".context_click()")
    case Hover => Line("ActionChains(" + driver + ").move_to_element(" + el + ").perform()")
    case Input | Type => Line(el + ".send_keys(" + Quoted(v) + ")")
    case Clear => Line(el + ".clear()")
    case Select =>
      Line(if v != "" then "Select(" + el + ").select_by_visible_text(" + Quoted(v) + ")" else "Select(" + el + ")")
    case Navigate => Line(driver + ".get(" + Quoted(NavigateTarget(ev)) + ")")
    case WaitForElement =>
      Line(if SelectorKind(info) == Some("xpath")
                then "WebDriverWait(" + driver + ", 10).until(EC.presence_of_element_located((By.XPATH, " + Quoted(GetXPathValue(Some(info))) + ")))"
                else "WebDriverWait(" + driver + ", 10).until(EC.presence_of_element_located((By.CSS_SELECTOR, " + Quoted(info.selector.value) + ")))")
    case VerifyText => Line("assert " + el + ".text == " + ExpectedLiteralAsWritten(v))
    case VerifyTextContains => Line("assert " + ExpectedLiteralAsWritten(v) + " in " + el + ".text")
    case VerifyElementPresent => Line("assert " + el + ".is_displayed()")
    case VerifyElementNotPresent => Line("assert not " + el + ".is_displayed()")
    case VerifyImage =>
      Line("# 이미지 비교를 위해 PIL/Pillow 라이브러리 필요\nfrom PIL import Image\nimport io\ncurrent_screenshot = "
                + el + ".screenshot_as_png\n# 기준 이미지와 비교하는 로직 구현 필요")
  }

  /** `buildSeleniumPythonAction(ev, selectorInfo, driverVar)`. */
  function SeleniumPythonAction(ev: EventRecord, info: SelectorInfo, driver: string, parse: UrlParser): Option<ActionCode>
  {
    SeleniumPythonStatement(ActionOf(ev.action), ev, info, driver, parse)
  }

  /** The Selenium-Python statements of the title and URL checks, which need no selector. */
  function SeleniumPythonPageCheck(a: ActionName, ev: EventRecord, driver: string, parse: UrlParser): ActionCode
    requires PageCheck(a)
  {
    var v := OrEmpty(ev.value);
    match a
    case VerifyTitle => Line("assert " + driver + ".title == " + Quoted(v))
    case VerifyUrl =>
      var u := Quoted(NormalizedUrl(v, parse));
      if UrlContains(ev) then Line("assert " + u + " in normalize_url(" + driver + ".current_url)")
      else Lines(["WebDriverWait(" + driver + ", 10).until(lambda d: normalize_url(d.current_url) == " + u + ")",
                  "assert normalize_url(" + driver + ".current_url) == " + u])
  }

  /** The Selenium-Python statements of action `a`. */
  function SeleniumPythonStatement(a: ActionName, ev: EventRecord, info: SelectorInfo, driver: string, parse: UrlParser): Option<ActionCode>
  {
    if PageCheck(a) then Some(SeleniumPythonPageCheck(a, ev, driver, parse))
    else if !Truthy(info.selector) || !ElementAction(a) then None
    else Some(SeleniumPythonElementAction(a, ev, info, driver, SeleniumPythonElement(info, driver)))
  }




  /** The Selenium-Python title check quotes the recorded title exactly. */
  lemma SeleniumPythonTitleLiteral(a: ActionName, ev: EventRecord, driver: string, parse: UrlParser)
    requires a == VerifyTitle
    ensures var r := SeleniumPythonPageCheck(a, ev, driver, parse);
      var v := OrEmpty(ev.value);
      Quotes(r.text, "assert " + driver + ".title == ", v, "")
  {
    var v := OrEmpty(ev.value);
    QuotedDenotes("assert " + driver + ".title == ", v, "");
  }

  /** The Selenium-Python URL check quotes the recorded URL without its query, in both match modes. */
  lemma SeleniumPythonUrlLiteral(a: ActionName, ev: EventRecord, driver: string, parse: UrlParser)
    requires a == VerifyUrl
    ensures var r := SeleniumPythonPageCheck(a, ev, driver, parse);
      var v := OrEmpty(ev.value);
      && (UrlContains(ev) ==> Quotes(r.text, "assert ", NormalizedUrl(v, parse), " in normalize_url(" + driver + ".current_url)"))
      && (!UrlContains(ev) ==> Quotes(r.lines[1], "assert normalize_url(" + driver + ".current_url) == ", NormalizedUrl(v, parse), ""))
  {
    var v := OrEmpty(ev.value);
    if UrlContains(ev) {
      QuotedDenotes("assert ", NormalizedUrl(v, parse), " in normalize_url(" + driver + ".current_url)");
    } else {
      QuotedDenotes("assert normalize_url(" + driver + ".current_url) == ", NormalizedUrl(v, parse), "");
    }
  }

  /** The Selenium-Python typing statement quotes the recorded value exactly. */
  lemma SeleniumPythonFillLiteral(a: ActionName, ev: EventRecord, info: SelectorInfo, driver: string, el: string)
    requires Truthy(info.selector) && (a == Input || a == Type)
    ensures var r := SeleniumPythonElementAction(a, ev, info, driver, el);
      var v := OrEmpty(ev.value);
      Quotes(r.text, el + ".send_keys(", v, ")")
  {
    var v := OrEmpty(ev.value);
    QuotedDenotes(el + ".send_keys(", v, ")");
  }

  /**
   * As written, the text check quotes the recorded text after escaping it
   * twice: the assertion expects the once-escaped text, not the text itself.
   */
  lemma SeleniumPythonExpectedTextLiteral(a: ActionName, ev: EventRecord, info: SelectorInfo, driver: string, el: string)
    requires Truthy(info.selector) && a == VerifyText
    ensures var r := SeleniumPythonElementAction(a, ev, info, driver, el);
      var v := EscapeForDoubleQuotes(Some(OrEmpty(ev.value)));
      Quotes(r.text, "assert " + el + ".text == ", v, "")
  {
    var v := EscapeForDoubleQuotes(Some(OrEmpty(ev.value)));
    QuotedDenotes("assert " + el + ".text == ", v, "");
  }





  // ---------------------------------------------------------------------
  // buildSeleniumJSAction
  // ---------------------------------------------------------------------

  /** The Selenium-JavaScript statement of an action on element expression `el`. */
  function SeleniumJsElementAction(a: ActionName, ev: EventRecord, info: SelectorInfo, el: string, parse: UrlParser): string
    requires Truthy(info.selector)
    requires ElementAction(a)
  {
    var v := OrEmpty(ev.value);
    match a
    case Click => "await " + el + ".click();"
    case DoubleClick => "await " + el + ".doubleClick();"
    case RightClick => "await " + el + ".contextClick();"
    case Hover => "await driver.actions().move({ origin: " + el + " }).perform();"
    case Input | Type => "await " + el + ".sendKeys(" + Quoted(v) + ");"
    case Clear => "await " + el + ".clear();"
    case Select =>
      if v != "" then "await new Select(" + el + ").selectByVisibleText(" + Quoted(v) + ");" else "new Select(" + el + ");"
    case Navigate => "await driver.get(" + Quoted(NavigateTarget(ev)) + ");"
    case WaitForElement =>
      if SelectorKind(info) == Some("xpath")
           then "await driver.wait(until.elementLocated(By.xpath(" + Quoted(GetXPathValue(Some(info))) + ")), 10000);"
           else "await driver.wait(until.elementLocated(By.css(" + Quoted(info.selector.value) + ")), 10000);"
    case VerifyText => "expect(await " + el + ".getText()).toBe(" + ExpectedLiteralAsWritten(v) + ");"
    case VerifyTextContains => "expect(await " + el + ".getText()).toContain(" + ExpectedLiteralAsWritten(v) + ");"
    case VerifyElementPresent => "expect(await " + el + ".isDisplayed()).toBe(true);"
    case VerifyElementNotPresent => "expect(await " + el + ".isDisplayed()).toBe(false);"
    case VerifyImage =>
      "// 이미지 비교를 위해 이미지 비교 라이브러리 필요\nconst screenshot = await " + el
           + ".takeScreenshot();\n// 기준 이미지와 비교하는 로직 구현 필요"
  }

  /**
   * `buildSeleniumJSAction(ev, selectorInfo)`: unlike the other three
   * builders it checks the selector first, so a title or URL check needs
   * a selector too.
   */
  function SeleniumJsAction(ev: EventRecord, info: SelectorInfo, parse: UrlParser): JsStr
  {
    SeleniumJsStatement(ActionOf(ev.action), ev, info, parse)
  }

  /**
   * The Selenium-JavaScript statement of the title and URL checks. The
   * source builds them after the selector check, from the value it has
   * already escaped once.
   */
  function SeleniumJsPageCheck(a: ActionName, ev: EventRecord, parse: UrlParser): string
    requires PageCheck(a)
  {
    var v := OrEmpty(ev.value);
    match a
    case VerifyTitle => "expect(await driver.getTitle()).toBe(" + ExpectedLiteralAsWritten(v) + ");"
    case VerifyUrl =>
      var u := Quoted(NormalizedUrl(EscapeForDoubleQuotes(Some(v)), parse));
      if UrlContains(ev) then "expect(normalizeUrl(await driver.getCurrentUrl())).toContain(" + u + ");"
      else "expect(normalizeUrl(await driver.getCurrentUrl())).toBe(" + u + ");"
  }

  /** The Selenium-JavaScript statement of action `a`: nothing at all without a selector. */
  function SeleniumJsStatement(a: ActionName, ev: EventRecord, info: SelectorInfo, parse: UrlParser): JsStr
  {
    if !Truthy(info.selector) then None
    else if PageCheck(a) then Some(SeleniumJsPageCheck(a, ev, parse))
    else if !ElementAction(a) then None
    else Some(SeleniumJsElementAction(a, ev, info, SeleniumJsElement(info), parse))
  }




  /**
   * As written, the title check quotes the recorded title after escaping it
   * twice: the assertion expects the once-escaped title.
   */
  lemma SeleniumJsTitleLiteral(a: ActionName, ev: EventRecord, parse: UrlParser)
    requires a == VerifyTitle
    ensures var r := SeleniumJsPageCheck(a, ev, parse);
      var v := EscapeForDoubleQuotes(Some(OrEmpty(ev.value)));
      Quotes(r, "expect(await driver.getTitle()).toBe(", v, ");")
  {
    var v := EscapeForDoubleQuotes(Some(OrEmpty(ev.value)));
    QuotedDenotes("expect(await driver.getTitle()).toBe(", v, ");");
  }

  /**
   * As written, the URL check normalizes the once-escaped URL and escapes
   * the result again: the assertion expects the escaped URL without its query.
   */
  lemma SeleniumJsUrlLiteral(a: ActionName, ev: EventRecord, parse: UrlParser)
    requires a == VerifyUrl && !UrlContains(ev)
    ensures var r := SeleniumJsPageCheck(a, ev, parse);
      var v := OrEmpty(ev.value);
      Quotes(r, "expect(normalizeUrl(await driver.getCurrentUrl())).toBe(", NormalizedUrl(EscapeForDoubleQuotes(Some(v)), parse), ");")
  {
    var v := OrEmpty(ev.value);
    QuotedDenotes("expect(normalizeUrl(await driver.getCurrentUrl())).toBe(", NormalizedUrl(EscapeForDoubleQuotes(Some(v)), parse), ");");
  }

  /** The Selenium-JavaScript typing statement quotes the recorded value exactly. */
  lemma SeleniumJsFillLiteral(a: ActionName, ev: EventRecord, info: SelectorInfo, el: string, parse: UrlParser)
    requires Truthy(info.selector) && (a == Input || a == Type)
    ensures var r := SeleniumJsElementAction(a, ev, info, el, parse);
      var v := OrEmpty(ev.value);
      Quotes(r, "await " + el + ".sendKeys(", v, ");")
  {
    var v := OrEmpty(ev.value);
    QuotedDenotes("await " + el + ".sendKeys(", v, ");");
  }

  /**
   * As written, the text check quotes the recorded text after escaping it
   * twice: the assertion expects the once-escaped text, not the text itself.
   */
  lemma SeleniumJsExpectedTextLiteral(a: ActionName, ev: EventRecord, info: SelectorInfo, el: string, parse: UrlParser)
    requires Truthy(info.selector) && a == VerifyText
    ensures var r := SeleniumJsElementAction(a, ev, info, el, parse);
      var v := EscapeForDoubleQuotes(Some(OrEmpty(ev.value)));
      Quotes(r, "expect(await " + el + ".getText()).toBe(", v, ");")
  {
    var v := EscapeForDoubleQuotes(Some(OrEmpty(ev.value)));
    QuotedDenotes("expect(await " + el + ".getText()).toBe(", v, ");");
  }





  // ---------------------------------------------------------------------
  // Frames
  // ---------------------------------------------------------------------

  /** How an iframe is addressed: by name, else by id, else by source. */
  datatype FrameKey = ByName(name: string) | ById(id: string) | BySrc(src: string)

  /** The address the frame helpers use; `None` when the frame has no name, id or source. */
  function FrameKeyOf(ctx: Option<FrameContext>): Option<FrameKey>
  {
    if ctx.None? then None
    else if Truthy(ctx.value.name) then Some(ByName(ctx.value.name.value))
    else if Truthy(ctx.value.id) then Some(ById(ctx.value.id.value))
    else if Truthy(ctx.value.src) then Some(BySrc(ctx.value.src.value))
    else None
  }

  /** `buildPlaywrightFrameLocatorLines(ctx, languageLower, alias, indent, baseVar)`. */
  function PlaywrightFrameLocatorLines(ctx: Option<FrameContext>, languageLower: string, alias: string, indent: string, baseVar: string): (r: seq<string>)
    ensures |r| <= 1
  {
    var pythonLike := languageLower == "python" || languageLower == "python-class";
    var key := FrameKeyOf(ctx);
    if key.None? then []
    else
      var target := match key.value
        case ByName(n) => "'iframe[name=\"" + n + "\"]'"
        case ById(i) => "'iframe#" + i + "'"
        case BySrc(s) => "'iframe[src=\"" + s + "\"]'";
      if pythonLike then [indent + alias + " = " + baseVar + ".frame_locator(" + target + ")"]
      else [indent + "const " + alias + " = " + baseVar + ".frameLocator(" + target + ");"]
  }

  /** `buildSeleniumFrameSwitchPython(ctx, driverVar)`. */
  function SeleniumFrameSwitchPython(ctx: Option<FrameContext>, driver: string): JsStr
  {
    var key := FrameKeyOf(ctx);
    if key.None? then None
    else match key.value
      case ByName(n) => Some(driver + ".switch_to.frame(\"" + n + "\")")
      case ById(i) => Some(driver + ".switch_to.frame(" + driver + ".find_element(By.CSS_SELECTOR, \"iframe#" + i + "\"))")
      case BySrc(s) => Some(driver + ".switch_to.frame(" + driver + ".find_element(By.CSS_SELECTOR, \"iframe[src='" + s + "']\"))")
  }

  /** `buildSeleniumFrameSwitchJS(ctx, indent)`. */
  function SeleniumFrameSwitchJs(ctx: Option<FrameContext>, indent: string): JsStr
  {
    var key := FrameKeyOf(ctx);
    if key.None? then None
    else match key.value
      case ByName(n) => Some(indent + "await driver.switchTo().frame(\"" + n + "\");")
      case ById(i) => Some(indent + "await driver.switchTo().frame(await driver.findElement(By.css(\"iframe#" + i + "\")));")
      case BySrc(s) => Some(indent + "await driver.switchTo().frame(await driver.findElement(By.css(\"iframe[src='" + s + "']\")));")
  }

  /**
   * The frame helpers agree: a Playwright locator line exists exactly when
   * the Selenium switch lines do, which is when the frame has a name, an id
   * or a source, and they address it by the same key, the name first.
   * Frames that `framesEqual` calls equal get the same lines, so skipping
   * the switch between equal frames loses nothing.
   */
  lemma FrameHelpersAgree(a: Option<FrameContext>, b: Option<FrameContext>, languageLower: string, alias: string, indent: string, baseVar: string, driver: string)
    ensures (|PlaywrightFrameLocatorLines(a, languageLower, alias, indent, baseVar)| == 1)
      == SeleniumFrameSwitchPython(a, driver).Some? == SeleniumFrameSwitchJs(a, indent).Some? == FrameKeyOf(a).Some?
    ensures FrameKeyOf(a).Some? <==> a.Some? && (Truthy(a.value.name) || Truthy(a.value.id) || Truthy(a.value.src))
    ensures a.Some? && Truthy(a.value.name) ==> FrameKeyOf(a) == Some(ByName(a.value.name.value))
    ensures FramesEqual(a, b) ==>
      && FrameKeyOf(a) == FrameKeyOf(b)
      && PlaywrightFrameLocatorLines(a, languageLower, alias, indent, baseVar) == PlaywrightFrameLocatorLines(b, languageLower, alias, indent, baseVar)
      && SeleniumFrameSwitchPython(a, driver) == SeleniumFrameSwitchPython(b, driver)
      && SeleniumFrameSwitchJs(a, indent) == SeleniumFrameSwitchJs(b, indent)
  {
    FrameKeyFacts(a);
    FrameHelpersPresent(a, languageLower, alias, indent, baseVar, driver);
    if FramesEqual(a, b) {
      FramesEqualSameLines(a, b, languageLower, alias, indent, baseVar, driver);
    }
  }

  /** A frame has a key exactly when it has a name, an id or a source; the name comes first. */
  lemma FrameKeyFacts(a: Option<FrameContext>)
    ensures FrameKeyOf(a).Some? <==> a.Some? && (Truthy(a.value.name) || Truthy(a.value.id) || Truthy(a.value.src))
    ensures a.Some? && Truthy(a.value.name) ==> FrameKeyOf(a) == Some(ByName(a.value.name.value))
  {
  }

  /** Each helper writes its line exactly when the frame has a key. */
  lemma FrameHelpersPresent(a: Option<FrameContext>, languageLower: string, alias: string, indent: string, baseVar: string, driver: string)
    ensures (|PlaywrightFrameLocatorLines(a, languageLower, alias, indent, baseVar)| == 1) <==> FrameKeyOf(a).Some?
    ensures SeleniumFrameSwitchPython(a, driver).Some? <==> FrameKeyOf(a).Some?
    ensures SeleniumFrameSwitchJs(a, indent).Some? <==> FrameKeyOf(a).Some?
  {
    if FrameKeyOf(a).Some? {
      match FrameKeyOf(a).value
      case ByName(_) =>
      case ById(_) =>
      case BySrc(_) =>
    }
  }

  /** Frames that `framesEqual` calls equal have the same key. */
  lemma FramesEqualSameKey(a: Option<FrameContext>, b: Option<FrameContext>)
    requires FramesEqual(a, b)
    ensures FrameKeyOf(a) == FrameKeyOf(b)
  {
  }

  /** Frames that `framesEqual` calls equal get the same lines from every helper. */
  lemma FramesEqualSameLines(a: Option<FrameContext>, b: Option<FrameContext>, languageLower: string, alias: string, indent: string, baseVar: string, driver: string)
    requires FramesEqual(a, b)
    ensures FrameKeyOf(a) == FrameKeyOf(b)
    ensures PlaywrightFrameLocatorLines(a, languageLower, alias, indent, baseVar) == PlaywrightFrameLocatorLines(b, languageLower, alias, indent, baseVar)
    ensures SeleniumFrameSwitchPython(a, driver) == SeleniumFrameSwitchPython(b, driver)
    ensures SeleniumFrameSwitchJs(a, indent) == SeleniumFrameSwitchJs(b, indent)
  {
    FramesEqualSameKey(a, b);
  }
}
