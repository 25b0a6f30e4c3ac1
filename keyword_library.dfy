/**
 * The keyword library: the table of test keywords, their Python code
 * templates for Playwright, Selenium and pytest, lookups, suggestions, and
 * the generator that turns a list of keyword steps into a pytest file.
 */
module KeywordLibrary {
  import opened JsStrings

  // ---------------------------------------------------------------------
  // String helpers
  // ---------------------------------------------------------------------

  /** `s.replace(p, q)` with a string pattern: only the first occurrence is replaced. */
  function ReplaceFirst(s: string, p: string, q: string): (r: string)
    ensures !Contains(s, p) ==> r == s
  {
    var k := IndexOf(s, p);
    if k < 0 then s else s[..k] + q + s[k + |p|..]
  }

  /** After a replacement the new text occurs where the first old one began. */
  lemma ReplaceFirstPlaces(s: string, p: string, q: string)
    requires Contains(s, p)
    ensures var k := IndexOf(s, p);
      OccursAt(ReplaceFirst(s, p, q), q, k) &&
      ReplaceFirst(s, p, q)[..k] == s[..k] && Contains(ReplaceFirst(s, p, q), q)
  {
    var k := IndexOf(s, p);
    var r := ReplaceFirst(s, p, q);
    assert r == s[..k] + q + s[k + |p|..];
    assert r[k..k + |q|] == q;
    assert OccursAt(r, q, k);
  }

  /** Removes `suffix` once from the end of `s` (`s.replace(/page$/, '')` for `suffix == "page"`). */
  function StripSuffix(s: string, suffix: string): (r: string)
    ensures EndsWith(s, suffix) ==> r + suffix == s
    ensures !EndsWith(s, suffix) ==> r == s
  {
    if EndsWith(s, suffix) then s[..|s| - |suffix|] else s
  }

  // ---------------------------------------------------------------------
  // URLs
  // ---------------------------------------------------------------------

  /** `/^https?:\/\//i`. */
  predicate HasHttpScheme(url: string)
  {
    StartsWith(Lower(url), "http://") || StartsWith(Lower(url), "https://")
  }

  /** `normalizeUrl(url)`: falsy input is returned as is; a URL without `http(s)://` gets `https://`. */
  function NormalizeUrl(url: JsStr): (r: JsStr)
  {
    if !Truthy(url) then url
    else if HasHttpScheme(url.value) then url
    else Some("https://" + url.value)
  }

  lemma LowerHttpsPrefix(s: string)
    ensures StartsWith(Lower("https://" + s), "https://")
  {
    var t := "https://" + s;
    assert forall i :: 0 <= i < 8 ==> t[i] == "https://"[i];
    assert forall i :: 0 <= i < 8 ==> Lower(t)[i] == LowerChar(t[i]);
  }

  /**
   * A truthy result always carries an `http://` or `https://` scheme (in any
   * letter case), URLs that already have one are untouched, and a second
   * application changes nothing.
   */
  lemma NormalizeUrlFacts(url: JsStr)
    ensures !Truthy(url) ==> NormalizeUrl(url) == url
    ensures Truthy(url) && HasHttpScheme(url.value) ==> NormalizeUrl(url) == url
    ensures Truthy(url) && !HasHttpScheme(url.value) ==> NormalizeUrl(url) == Some("https://" + url.value)
    ensures Truthy(url) ==> Truthy(NormalizeUrl(url)) && HasHttpScheme(NormalizeUrl(url).value)
    ensures NormalizeUrl(NormalizeUrl(url)) == NormalizeUrl(url)
  {
    if Truthy(url) && !HasHttpScheme(url.value) {
      LowerHttpsPrefix(url.value);
    }
  }

  // ---------------------------------------------------------------------
  // The keyword table
  // ---------------------------------------------------------------------

  /** KEYWORD_TYPES. */
  const NavigationType: string := "navigation"
  const InteractionType: string := "interaction"
  const VerificationType: string := "verification"
  const WaitType: string := "wait"
  const DataType: string := "data"

  /** The entries of KEYWORDS, one constructor per property. */
  datatype KeywordId =
    | Open | Goto | Click | Type | SetText | Clear | Select | Hover | DoubleClick | RightClick
    | VerifyText | VerifyElementPresent | VerifyElementNotPresent | VerifyTitle | VerifyUrl
    | WaitForElement | Wait | Sleep

  /** A KEYWORDS entry; its `codeGenerators` are `PlaywrightCode(id, _)` and `SeleniumCode(id, _)`. */
  datatype Keyword = Keyword(id: KeywordId, name: string, kind: string, description: string, parameters: seq<string>)

  /** The property name of each KEYWORDS entry, which is also its `name`. */
  function Name(id: KeywordId): string
  {
    match id
    case Open => "open"
    case Goto => "goto"
    case Click => "click"
    case Type => "type"
    case SetText => "setText"
    case Clear => "clear"
    case Select => "select"
    case Hover => "hover"
    case DoubleClick => "doubleClick"
    case RightClick => "rightClick"
    case VerifyText => "verifyText"
    case VerifyElementPresent => "verifyElementPresent"
    case VerifyElementNotPresent => "verifyElementNotPresent"
    case VerifyTitle => "verifyTitle"
    case VerifyUrl => "verifyUrl"
    case WaitForElement => "waitForElement"
    case Wait => "wait"
    case Sleep => "sleep"
  }

  /** The `type` of each KEYWORDS entry. */
  function Kind(id: KeywordId): string
  {
    match id
    case Open | Goto => NavigationType
    case Click | Type | SetText | Clear | Select | Hover | DoubleClick | RightClick => InteractionType
    case VerifyText | VerifyElementPresent | VerifyElementNotPresent | VerifyTitle | VerifyUrl => VerificationType
    case WaitForElement | Wait | Sleep => WaitType
  }

  /** The `parameters` of each KEYWORDS entry. */
  function Parameters(id: KeywordId): seq<string>
  {
    match id
    case Open | Goto => ["url"]
    case Click | Clear | Hover | DoubleClick | RightClick | VerifyElementPresent | VerifyElementNotPresent => ["target"]
    case Type | SetText | Select | VerifyText | WaitForElement => ["target", "value"]
    case VerifyTitle | VerifyUrl | Wait | Sleep => ["value"]
  }

  /** The KEYWORDS entry of each keyword; every entry is stored under its own `name`. */
  function Entry(id: KeywordId): Keyword
  {
    Keyword(id, Name(id), Kind(id), Description(id), Parameters(id))
  }

  /** The `description` of each KEYWORDS entry. */
  function Description(id: KeywordId): string
  {
    match id
    case Open => "URL 열기"
    case Goto => "URL로 이동"
    case Click => "요소 클릭"
    case Type => "텍스트 입력"
    case SetText => "텍스트 설정"
    case Clear => "입력 필드 지우기"
    case Select => "드롭다운 선택"
    case Hover => "요소에 마우스 오버"
    case DoubleClick => "더블 클릭"
    case RightClick => "우클릭"
    case VerifyText => "텍스트 검증"
    case VerifyElementPresent => "요소 존재 확인"
    case VerifyElementNotPresent => "요소 미존재 확인"
    case VerifyTitle => "페이지 타이틀 검증"
    case VerifyUrl => "URL 검증"
    case WaitForElement => "요소 대기"
    case Wait => "시간 대기"
    case Sleep => "대기"
  }

  /** The declaration order of KEYWORDS. */
  const KeywordOrder: seq<KeywordId> := [
    Open, Goto, Click, Type, SetText, Clear, Select, Hover, DoubleClick, RightClick,
    VerifyText, VerifyElementPresent, VerifyElementNotPresent, VerifyTitle, VerifyUrl,
    WaitForElement, Wait, Sleep]

  /** Where each keyword sits in KeywordOrder. */
  function Position(id: KeywordId): (i: nat)
    ensures i < |KeywordOrder| && KeywordOrder[i] == id
  {
    match id
    case Open => 0
    case Goto => 1
    case Click => 2
    case Type => 3
    case SetText => 4
    case Clear => 5
    case Select => 6
    case Hover => 7
    case DoubleClick => 8
    case RightClick => 9
    case VerifyText => 10
    case VerifyElementPresent => 11
    case VerifyElementNotPresent => 12
    case VerifyTitle => 13
    case VerifyUrl => 14
    case WaitForElement => 15
    case Wait => 16
    case Sleep => 17
  }

  function Entries(ids: seq<KeywordId>): (r: seq<Keyword>)
    ensures |r| == |ids| && forall i :: 0 <= i < |ids| ==> r[i] == Entry(ids[i])
  {
    if ids == [] then [] else [Entry(ids[0])] + Entries(ids[1..])
  }

  lemma AllListed()
    ensures forall id :: id in KeywordOrder
  {
    forall id ensures id in KeywordOrder {
      assert KeywordOrder[Position(id)] == id;
    }
  }

  lemma {:induction false} EntriesMembership(ids: seq<KeywordId>)
    ensures forall k :: k in Entries(ids) <==> k.id in ids && k == Entry(k.id)
  {
    if ids != [] {
      EntriesMembership(ids[1..]);
      assert ids == [ids[0]] + ids[1..];
    }
  }

  /** The table lists every keyword once, and no two keywords share a name. */
  lemma KeywordTableWellFormed()
    ensures |KeywordOrder| == 18
    ensures forall id :: id in KeywordOrder
    ensures forall i, j :: 0 <= i < j < |KeywordOrder| ==> KeywordOrder[i] != KeywordOrder[j]
    ensures forall a: KeywordId, b: KeywordId :: a != b ==> Name(a) != Name(b)
  {
    AllListed();
    forall a: KeywordId, b: KeywordId | a != b
      ensures Name(a) != Name(b)
    {
      NamesDiffer(a, b);
    }
  }

  /** Two names differ when their lengths or one of their first characters differ. */
  lemma NamesDiffer(a: KeywordId, b: KeywordId)
    requires a != b
    ensures Name(a) != Name(b)
  {
    var x := Name(a);
    var y := Name(b);
    if |x| == |y| && x[0] == y[0] {
      assert x[..3] != y[..3] || x[3..] != y[3..];
    }
  }

  /** The first keyword among `ids` whose name is `name`. */
  function Find(ids: seq<KeywordId>, name: string): Option<KeywordId>
  {
    if ids == [] then None
    else if Name(ids[0]) == name then Some(ids[0])
    else Find(ids[1..], name)
  }

  lemma {:induction false} FindFacts(ids: seq<KeywordId>, name: string)
    ensures Find(ids, name).None? <==> forall i :: 0 <= i < |ids| ==> Name(ids[i]) != name
    ensures Find(ids, name).Some? ==> Name(Find(ids, name).value) == name
  {
    if ids != [] && Name(ids[0]) != name {
      FindFacts(ids[1..], name);
      forall i | 0 <= i < |ids[1..]| ensures ids[1..][i] == ids[i + 1] { }
    }
  }

  /** `getKeyword(name)`: `KEYWORDS[name] || null`. */
  function GetKeyword(name: string): Option<Keyword>
  {
    match Find(KeywordOrder, name)
    case None => None
    case Some(id) => Some(Entry(id))
  }

  /** Every entry is found under its own name, and only names of entries are found. */
  lemma GetKeywordFacts(name: string)
    ensures forall id :: GetKeyword(Name(id)) == Some(Entry(id))
    ensures GetKeyword(name).Some? <==> exists id :: Name(id) == name
    ensures GetKeyword(name).Some? ==> GetKeyword(name).value.name == name && GetKeyword(name).value == Entry(GetKeyword(name).value.id)
  {
    FindFacts(KeywordOrder, name);
    if Find(KeywordOrder, name).None? {
      forall id ensures Name(id) != name {
        assert KeywordOrder[Position(id)] == id;
      }
    }
    forall id ensures GetKeyword(Name(id)) == Some(Entry(id)) {
      FoundUnderOwnName(id);
    }
  }

  lemma FoundUnderOwnName(id: KeywordId)
    ensures Find(KeywordOrder, Name(id)) == Some(id)
  {
    FindFacts(KeywordOrder, Name(id));
    assert KeywordOrder[Position(id)] == id;
    var found := Find(KeywordOrder, Name(id)).value;
    if found != id {
      NamesDiffer(found, id);
    }
  }

  function FilterKind(ks: seq<Keyword>, kind: string): (r: seq<Keyword>)
    ensures |r| <= |ks|
    ensures forall k :: k in r <==> k in ks && k.kind == kind
  {
    if ks == [] then []
    else (if ks[0].kind == kind then [ks[0]] else []) + FilterKind(ks[1..], kind)
  }

  /** `getKeywords(type)`: the entries of that type in table order, or all of them for a falsy type. */
  function GetKeywords(kind: JsStr): seq<Keyword>
  {
    if Truthy(kind) then FilterKind(Entries(KeywordOrder), kind.value) else Entries(KeywordOrder)
  }

  /** With a type, exactly the entries of that type; without one, all 18 in table order. */
  lemma GetKeywordsFacts(kind: JsStr)
    ensures !Truthy(kind) ==> |GetKeywords(kind)| == 18 && forall i :: 0 <= i < 18 ==> GetKeywords(kind)[i] == Entry(KeywordOrder[i])
    ensures Truthy(kind) ==> forall k :: k in GetKeywords(kind) <==> k == Entry(k.id) && k.kind == kind.value
  {
    AllListed();
    EntriesMembership(KeywordOrder);
  }

  /** A keyword whose name or description contains the (lower-cased) query. */
  predicate MatchesQuery(k: Keyword, query: string)
  {
    Contains(Lower(k.name), Lower(query)) || Contains(Lower(k.description), Lower(query))
  }

  function FilterQuery(ks: seq<Keyword>, query: string): (r: seq<Keyword>)
    ensures |r| <= |ks|
    ensures forall k :: k in r <==> k in ks && MatchesQuery(k, query)
  {
    if ks == [] then []
    else (if MatchesQuery(ks[0], query) then [ks[0]] else []) + FilterQuery(ks[1..], query)
  }

  /** `getKeywordSuggestions(query)`. */
  function GetKeywordSuggestions(query: JsStr): seq<Keyword>
  {
    if !Truthy(query) then GetKeywords(None) else FilterQuery(GetKeywords(None), query.value)
  }

  /** All keywords for an empty query; otherwise those whose name or description contains it, ignoring case. */
  lemma GetKeywordSuggestionsFacts(query: JsStr)
    ensures !Truthy(query) ==> GetKeywordSuggestions(query) == GetKeywords(None)
    ensures Truthy(query) ==> forall k :: k in GetKeywordSuggestions(query) <==>
      k in GetKeywords(None) && (Contains(Lower(k.name), Lower(query.value)) || Contains(Lower(k.description), Lower(query.value)))
  {
  }

  // ---------------------------------------------------------------------
  // Code templates
  // ---------------------------------------------------------------------

  /** The parameters handed to a code generator; a missing one is `None`. */
  datatype Params = Params(target: JsStr, value: JsStr, url: JsStr)

  const Undefined: string := "undefined"

  /** `${x}` in a template literal: a missing value prints as `undefined`. */
  function Render(x: JsStr): string
  {
    if x.Some? then x.value else Undefined
  }

  /** `${params.value || fallback}`. */
  function ValueOr(p: Params, fallback: string): string
  {
    if Truthy(p.value) then p.value.value else fallback
  }

  function ByCss(target: string): string
  {
    "driver.find_element(By.CSS_SELECTOR, \"" + target + "\")"
  }

  /** The `playwright` generator of each keyword (the `pytest` one is identical). */
  function PlaywrightCode(id: KeywordId, p: Params): string
  {
    var t := Render(p.target);
    var v := ValueOr(p, "");
    match id
    case Open | Goto => "page.goto(\"" + Render(NormalizeUrl(p.url)) + "\")"
    case Click => "page.click(\"" + t + "\")"
    case Type | SetText => "page.fill(\"" + t + "\", \"" + v + "\")"
    case Clear => "page.fill(\"" + t + "\", \"\")"
    case Select => "page.select_option(\"" + t + "\", \"" + v + "\")"
    case Hover => "page.hover(\"" + t + "\")"
    case DoubleClick => "page.dblclick(\"" + t + "\")"
    case RightClick => "page.click(\"" + t + "\", button=\"right\")"
    case VerifyText => "expect(page.locator(\"" + t + "\")).to_have_text(\"" + v + "\")"
    case VerifyElementPresent => "expect(page.locator(\"" + t + "\")).to_be_visible()"
    case VerifyElementNotPresent => "expect(page.locator(\"" + t + "\")).not.to_be_visible()"
    case VerifyTitle => "expect(page).to_have_title(\"" + v + "\")"
    case VerifyUrl => "expect(page).to_have_url(\"" + v + "\")"
    case WaitForElement => "page.wait_for_selector(\"" + t + "\", timeout=" + ValueOr(p, "30000") + ")"
    case Wait | Sleep => "page.wait_for_timeout(" + ValueOr(p, "1000") + ")"
  }

  /** The `selenium` generator of each keyword. */
  function SeleniumCode(id: KeywordId, p: Params): string
  {
    var t := Render(p.target);
    var v := ValueOr(p, "");
    match id
    case Open | Goto => "driver.get(\"" + Render(NormalizeUrl(p.url)) + "\")"
    case Click => ByCss(t) + ".click()"
    case Type | SetText => ByCss(t) + ".send_keys(\"" + v + "\")"
    case Clear => ByCss(t) + ".clear()"
    case Select => "Select(" + ByCss(t) + ").select_by_visible_text(\"" + v + "\")"
    case Hover => "ActionChains(driver).move_to_element(" + ByCss(t) + ").perform()"
    case DoubleClick => "ActionChains(driver).double_click(" + ByCss(t) + ").perform()"
    case RightClick => "ActionChains(driver).context_click(" + ByCss(t) + ").perform()"
    case VerifyText => "assert \"" + v + "\" in " + ByCss(t) + ".text"
    case VerifyElementPresent => "assert " + ByCss(t) + ".is_displayed()"
    case VerifyElementNotPresent =>
      "try:\n    assert not " + ByCss(t) + ".is_displayed()\nexcept NoSuchElementException:\n    pass"
    case VerifyTitle => "assert \"" + v + "\" in driver.title"
    case VerifyUrl => "assert \"" + v + "\" in driver.current_url"
    case WaitForElement =>
      "WebDriverWait(driver, " + ValueOr(p, "10") + ").until(EC.presence_of_element_located((By.CSS_SELECTOR, \"" + t + "\")))"
    case Wait | Sleep => "time.sleep(" + ValueOr(p, "1") + ")"
  }

  /** `keyword.codeGenerators[framework]` applied to the parameters; `None` when there is no such generator. */
  function Generate(id: KeywordId, p: Params, framework: string): Option<string>
  {
    if framework == "playwright" || framework == "pytest" then Some(PlaywrightCode(id, p))
    else if framework == "selenium" then Some(SeleniumCode(id, p))
    else None
  }

  /** `generateKeywordCode(keywordName, params, framework)`. */
  function GenerateKeywordCode(name: string, p: Params, framework: string): string
  {
    match GetKeyword(name)
    case None => "# 알 수 없는 키워드: " + name
    case Some(k) =>
      match Generate(k.id, p, framework)
      case None => "# " + framework + "에서 지원하지 않는 키워드: " + name
      case Some(code) => code
  }

  /**
   * An unknown keyword or an unsupported framework yields a fixed comment
   * line; a known keyword under a supported framework yields its template.
   */
  lemma GenerateKeywordCodeFallbacks(name: string, p: Params, framework: string)
    ensures GetKeyword(name).None? ==> GenerateKeywordCode(name, p, framework) == "# 알 수 없는 키워드: " + name
    ensures GetKeyword(name).Some? && framework != "playwright" && framework != "pytest" && framework != "selenium" ==>
      GenerateKeywordCode(name, p, framework) == "# " + framework + "에서 지원하지 않는 키워드: " + name
    ensures GetKeyword(name).Some? && framework == "pytest" ==>
      GenerateKeywordCode(name, p, framework) == GenerateKeywordCode(name, p, "playwright")
  {
  }

  /**
   * The open/goto templates read `params.url`, which the step generator never
   * passes: every such step is rendered with the URL `undefined`.
   */
  lemma OpenWithoutUrlParam(name: string, target: JsStr, value: JsStr)
    requires name == "open" || name == "goto"
    ensures GenerateKeywordCode(name, Params(target, value, None), "playwright") == "page.goto(\"" + Undefined + "\")"
    ensures GenerateKeywordCode(name, Params(target, value, None), "selenium") == "driver.get(\"" + Undefined + "\")"
  {
    OpenTemplates(name, Params(target, value, None));
  }

  /** The two templates of open/goto. */
  lemma OpenTemplates(name: string, p: Params)
    requires name == "open" || name == "goto"
    ensures GetKeyword(name).Some?
    ensures GenerateKeywordCode(name, p, "playwright") == "page.goto(\"" + Render(NormalizeUrl(p.url)) + "\")"
    ensures GenerateKeywordCode(name, p, "selenium") == "driver.get(\"" + Render(NormalizeUrl(p.url)) + "\")"
  {
    OpenIsKnown(name);
    var k := GetKeyword(name).value;
    assert Generate(k.id, p, "playwright") == Some(PlaywrightCode(k.id, p));
    assert Generate(k.id, p, "selenium") == Some(SeleniumCode(k.id, p));
  }

  lemma OpenIsKnown(name: string)
    requires name == "open" || name == "goto"
    ensures GetKeyword(name).Some? && GetKeyword(name).value.id in {Open, Goto}
  {
    if name == Name(Open) {
      FoundUnderOwnName(Open);
    } else {
      FoundUnderOwnName(Goto);
    }
  }

  /** With the step's URL passed as `url`, the template opens that URL with a scheme. */
  lemma OpenWithUrlParam(name: string, target: JsStr, value: JsStr)
    requires name == "open" || name == "goto"
    requires Truthy(OrElse(target, value))
    ensures var url := NormalizeUrl(OrElse(target, value));
      Truthy(url) && HasHttpScheme(url.value) &&
      GenerateKeywordCode(name, Params(target, value, OrElse(target, value)), "playwright") == "page.goto(\"" + url.value + "\")"
  {
    NormalizeUrlFacts(OrElse(target, value));
    OpenTemplates(name, Params(target, value, OrElse(target, value)));
  }

  // ---------------------------------------------------------------------
  // generateCodeFromSteps
  // ---------------------------------------------------------------------

  /** A value in a page-object step's `params`: a string, or anything else as `String(v)` prints it. */
  datatype ParamValue = Text(s: string) | Literal(printed: string)

  /** A keyword step as the generator reads it; `stepType` is `step.type`, `methodName` is `step.method`. */
  datatype KeywordStep = KeywordStep(
    action: JsStr, target: JsStr, value: JsStr, description: JsStr,
    stepType: JsStr, pageObject: JsStr, methodName: JsStr,
    params: seq<(string, ParamValue)>)

  /** The generator's options; `None` is an option left undefined. */
  datatype CodeOptions = CodeOptions(language: JsStr, framework: JsStr, testName: JsStr, testDescription: JsStr)

  function OrDefault(o: JsStr, d: string): string
  {
    if o.Some? then o.value else d
  }

  function Language(o: CodeOptions): string { OrDefault(o.language, "python") }
  function Framework(o: CodeOptions): string { OrDefault(o.framework, "pytest") }
  function TestName(o: CodeOptions): string { OrDefault(o.testName, "test_example") }
  function TestDescription(o: CodeOptions): string { OrDefault(o.testDescription, "Test") }

  /** `step.type === 'page_object' && step.page_object`. */
  predicate IsPageObjectStep(step: KeywordStep)
  {
    step.stepType == Some("page_object") && Truthy(step.pageObject)
  }

  /**
   * The page objects the first pass collects into its insertion-ordered
   * `Set`, for the steps `steps`.
   */
  function UsedPageObjects(steps: seq<KeywordStep>): (r: seq<string>)
  {
    if steps == [] then []
    else
      var used := UsedPageObjects(steps[..|steps| - 1]);
      var step := steps[|steps| - 1];
      if IsPageObjectStep(step) && step.pageObject.value !in used then used + [step.pageObject.value] else used
  }

  /** The collected names are distinct and are exactly the page objects the steps name. */
  lemma {:induction false} UsedPageObjectsFacts(steps: seq<KeywordStep>)
    ensures forall i, j :: 0 <= i < j < |UsedPageObjects(steps)| ==> UsedPageObjects(steps)[i] != UsedPageObjects(steps)[j]
    ensures forall n :: n in UsedPageObjects(steps) <==>
      exists k :: 0 <= k < |steps| && IsPageObjectStep(steps[k]) && steps[k].pageObject.value == n
    decreases |steps|
  {
    if steps != [] {
      var init := steps[..|steps| - 1];
      UsedPageObjectsFacts(init);
      forall n
        ensures n in UsedPageObjects(steps) <==>
          exists k :: 0 <= k < |steps| && IsPageObjectStep(steps[k]) && steps[k].pageObject.value == n
      {
        if n in UsedPageObjects(init) {
          var k :| 0 <= k < |init| && IsPageObjectStep(init[k]) && init[k].pageObject.value == n;
          assert steps[k] == init[k];
        }
        if exists k :: 0 <= k < |steps| && IsPageObjectStep(steps[k]) && steps[k].pageObject.value == n {
          var k :| 0 <= k < |steps| && IsPageObjectStep(steps[k]) && steps[k].pageObject.value == n;
          if k < |init| {
            assert init[k] == steps[k];
          }
        }
      }
    }
  }

  /** The `from page_objects.<module> import <Name>` lines, then a blank line when there are any. */
  function PageObjectImports(used: seq<string>): string
  {
    if used == [] then "" else ImportLines(used) + "\n"
  }

  function ImportLines(used: seq<string>): string
  {
    if used == [] then ""
    else "from page_objects." + Lower(used[0]) + " import " + used[0] + "\n" + ImportLines(used[1..])
  }

  /** The instance variable of a page object: lower case, a trailing `page` dropped, then `_page`. */
  function InstanceVar(name: string): (r: string)
    ensures EndsWith(r, "_page") && |r| >= 5
  {
    var r := StripSuffix(Lower(name), "page") + "_page";
    assert r[|r| - 5..] == "_page";
    r
  }

  /** `pageObjectInstances`. */
  function Instances(used: seq<string>): (m: map<string, string>)
    ensures forall n :: n in m <==> n in used
  {
    map n | n in used :: InstanceVar(n)
  }

  const PlaywrightImports: string := "from playwright.sync_api import Page, expect\nimport pytest\n\n"
  const SeleniumImports: string :=
    "from selenium import webdriver\n" +
    "from selenium.webdriver.common.by import By\n" +
    "from selenium.webdriver.support.ui import WebDriverWait\n" +
    "from selenium.webdriver.support import expected_conditions as EC\n" +
    "from selenium.webdriver.common.action_chains import ActionChains\n" +
    "from selenium.webdriver.support.ui import Select\n" +
    "import pytest\nimport time\n\n"

  /** `imports[framework] || imports.pytest`. */
  function ImportsFor(framework: string): string
  {
    if framework == "selenium" then SeleniumImports else PlaywrightImports
  }

  /** The header line of the test function for Selenium: the text the `try:` is inserted after. */
  function SeleniumDef(testName: string): string
  {
    "def " + testName + "(driver_selenium):"
  }

  /** `functionSignatures[framework] || functionSignatures.pytest`. */
  function SignatureFor(framework: string, testName: string, testDescription: string): string
  {
    if framework == "playwright" then
      "@pytest.mark.playwright\ndef " + testName + "(page_playwright: Page):\n    \"\"\"" + testDescription + "\"\"\"\n"
    else if framework == "selenium" then
      "@pytest.mark.selenium\n" + SeleniumDef(testName) + "\n    \"\"\"" + testDescription + "\"\"\"\n    driver = driver_selenium\n"
    else
      "@pytest.mark.playwright\ndef " + testName + "(page_playwright: Page):\n    \"\"\"" + testDescription + "\"\"\"\n    page = page_playwright\n"
  }

  function DriverVar(framework: string): string
  {
    if framework == "selenium" then "driver" else "page"
  }

  /** `Object.entries(params).map(...).join(', ')`. */
  function ParamList(params: seq<(string, ParamValue)>): string
  {
    Join(ParamStrings(params), ", ")
  }

  function ParamStrings(params: seq<(string, ParamValue)>): (r: seq<string>)
    ensures |r| == |params|
  {
    if params == [] then []
    else
      var (k, v) := params[0];
      [match v
       case Text(s) => k + "=\"" + s + "\""
       case Literal(p) => k + "=" + p] + ParamStrings(params[1..])
  }

  /** The parameters the step generator hands to a keyword: `{ target, value }`, and no `url`. */
  function StepParams(step: KeywordStep): (p: Params)
    ensures p.target == step.target && p.value == step.value && p.url.None?
  {
    Params(step.target, step.value, None)
  }

  /** The parameters as evidently intended: the step's URL passed as `url` too. */
  function StepParamsIntended(step: KeywordStep): (p: Params)
    ensures p.target == step.target && p.value == step.value && p.url == OrElse(step.target, step.value)
  {
    Params(step.target, step.value, OrElse(step.target, step.value))
  }

  /** The text `<var> = <PageObject>(` whose presence means the instance already exists. */
  function CreationPrefix(v: string, po: string): string
  {
    v + " = " + po + "("
  }

  function CreationLine(v: string, po: string, driverVar: string): string
  {
    "    " + CreationPrefix(v, po) + driverVar + ")\n"
  }

  function CallLine(v: string, step: KeywordStep): string
    requires step.methodName.Some?
  {
    "    " + v + "." + step.methodName.value + "(" + ParamList(step.params) + ")\n"
  }

  /** The description comment of a step, if it has one. */
  function DescriptionLine(step: KeywordStep): string
  {
    if Truthy(step.description) then "    # " + step.description.value + "\n" else ""
  }

  /** What the second pass appends for a step after its description comment, given the code `c` so far. */
  function StepLines(c: string, step: KeywordStep, instances: map<string, string>, framework: string): string
  {
    if IsPageObjectStep(step) && Truthy(step.methodName) then
      var po := step.pageObject.value;
      if po in instances then
        var v := instances[po];
        (if Contains(c, CreationPrefix(v, po)) then "" else CreationLine(v, po, DriverVar(framework))) + CallLine(v, step)
      else
        "    # Page Object 인스턴스 생성 필요: " + po + "\n"
    else if Truthy(step.action) then
      KeywordLine(step, framework)
    else
      ""
  }

  /** The line a keyword step produces: its `generateKeywordCode` output, indented. */
  function KeywordLine(step: KeywordStep, framework: string): string
  {
    "    " + GenerateKeywordCode(OrEmpty(step.action), StepParams(step), framework) + "\n"
  }

  /** The code after the second pass has handled one more step. */
  function StepCode(code: string, step: KeywordStep, instances: map<string, string>, framework: string): string
  {
    var c := code + DescriptionLine(step);
    c + StepLines(c, step, instances, framework)
  }

  /** The code after the second pass has handled `steps`, starting from `code`. */
  function StepsCode(code: string, steps: seq<KeywordStep>, instances: map<string, string>, framework: string): string
  {
    if steps == [] then code
    else StepCode(StepsCode(code, steps[..|steps| - 1], instances, framework), steps[|steps| - 1], instances, framework)
  }

  /** What `generateCodeFromSteps(steps, options)` resolves to. */
  function CodeFromSteps(steps: seq<KeywordStep>, o: CodeOptions): string
  {
    if Language(o) != "python" then UnsupportedLanguage(Language(o))
    else
      var fw := Framework(o);
      var used := UsedPageObjects(steps);
      var header := ImportsFor(fw) + PageObjectImports(used) + SignatureFor(fw, TestName(o), TestDescription(o));
      var body := StepsCode(header, steps, Instances(used), fw);
      if fw == "selenium" then SeleniumWrap(body, TestName(o)) else body
  }

  function UnsupportedLanguage(language: string): string
  {
    "# " + language + " 언어는 아직 지원하지 않습니다."
  }

  const SeleniumFinally: string := "    finally:\n        driver.quit()\n"

  /** The Selenium epilogue: `try:` after the first function header, `finally: driver.quit()` at the end. */
  function SeleniumWrap(code: string, testName: string): string
  {
    ReplaceFirst(code, SeleniumDef(testName), SeleniumDef(testName) + "\n    try:") + SeleniumFinally
  }

  /** The first pass: the page objects the steps use, in first-use order. */
  method CollectPageObjects(steps: seq<KeywordStep>) returns (used: seq<string>)
    ensures used == UsedPageObjects(steps)
  {
    used := [];
    var i := 0;
    while i < |steps|
      invariant 0 <= i <= |steps|
      invariant used == UsedPageObjects(steps[..i])
    {
      var step := steps[i];
      TakeSnoc(steps, i);
      if IsPageObjectStep(step) && step.pageObject.value !in used {
        used := used + [step.pageObject.value];
      }
      i := i + 1;
    }
    assert steps[..|steps|] == steps;
  }

  /** The second pass, for one step: appends its comment and its code line(s). */
  method EmitStep(code0: string, step: KeywordStep, instances: map<string, string>, framework: string) returns (code: string)
    ensures code == StepCode(code0, step, instances, framework)
  {
    var c := code0;
    if Truthy(step.description) {
      c := c + ("    # " + step.description.value + "\n");
    }
    var lines := "";
    if IsPageObjectStep(step) && Truthy(step.methodName) {
      var po := step.pageObject.value;
      if po in instances {
        var v := instances[po];
        if !Contains(c, CreationPrefix(v, po)) {
          lines := CreationLine(v, po, DriverVar(framework));
        }
        lines := lines + CallLine(v, step);
      } else {
        lines := "    # Page Object 인스턴스 생성 필요: " + po + "\n";
      }
    } else if Truthy(step.action) {
      lines := "    " + GenerateKeywordCode(step.action.value, StepParams(step), framework) + "\n";
      assert OrEmpty(step.action) == step.action.value;
    }
    assert c == code0 + DescriptionLine(step);
    assert lines == StepLines(c, step, instances, framework);
    code := c + lines;
  }

  /** `generateCodeFromSteps` without a page-object lookup callback. */
  method GenerateCodeFromSteps(steps: seq<KeywordStep>, o: CodeOptions) returns (code: string)
    ensures code == CodeFromSteps(steps, o)
  {
    var language := OrDefault(o.language, "python");
    var framework := OrDefault(o.framework, "pytest");
    var testName := OrDefault(o.testName, "test_example");
    if language != "python" {
      return "# " + language + " 언어는 아직 지원하지 않습니다.";
    }
    var used := CollectPageObjects(steps);
    var instances := Instances(used);
    code := ImportsFor(framework) + PageObjectImports(used) + SignatureFor(framework, testName, OrDefault(o.testDescription, "Test"));
    ghost var header := code;
    var i := 0;
    while i < |steps|
      invariant 0 <= i <= |steps|
      invariant code == StepsCode(header, steps[..i], instances, framework)
    {
      TakeSnoc(steps, i);
      code := EmitStep(code, steps[i], instances, framework);
      i := i + 1;
    }
    assert steps[..|steps|] == steps;
    if framework == "selenium" {
      code := ReplaceFirst(code, SeleniumDef(testName), SeleniumDef(testName) + "\n    try:");
      code := code + "    finally:\n        driver.quit()\n";
    }
  }

  /**
   * An `open` or `goto` step is rendered with the URL `undefined` (`code`,
   * under either framework), whatever its target and value.
   */
  lemma OpenStepLine(step: KeywordStep, name: string, framework: string, code: string)
    requires step.action == Some(name) && (name == "open" || name == "goto")
    requires framework == "playwright" || framework == "selenium"
    requires code == if framework == "playwright" then "page.goto(\"" + Undefined + "\")" else "driver.get(\"" + Undefined + "\")"
    ensures KeywordLine(step, framework) == "    " + code + "\n"
  {
    KeywordLineOf(step, name, framework);
    OpenWithoutUrlParam(name, step.target, step.value);
  }

  /** With the intended parameters, the same step opens its URL, given a scheme. */
  lemma OpenStepIntended(step: KeywordStep, name: string)
    requires name == "open" || name == "goto"
    ensures Truthy(OrElse(step.target, step.value)) ==>
      var url := NormalizeUrl(OrElse(step.target, step.value));
      Truthy(url) && HasHttpScheme(url.value) &&
      GenerateKeywordCode(name, StepParamsIntended(step), "playwright") == "page.goto(\"" + url.value + "\")"
  {
    if Truthy(OrElse(step.target, step.value)) {
      OpenWithUrlParam(name, step.target, step.value);
    }
  }

  lemma KeywordLineOf(step: KeywordStep, name: string, framework: string)
    requires step.action == Some(name)
    ensures KeywordLine(step, framework) == "    " + GenerateKeywordCode(name, Params(step.target, step.value, None), framework) + "\n"
  {
  }

  // ---------------------------------------------------------------------
  // Properties of the generated file
  // ---------------------------------------------------------------------

  lemma StepCodeExtends(code: string, step: KeywordStep, instances: map<string, string>, framework: string)
    ensures var r := StepCode(code, step, instances, framework); |code| <= |r| && r[..|code|] == code
  {
    var d := DescriptionLine(step);
    var c := code + d;
    var tl := StepLines(c, step, instances, framework);
    assert StepCode(code, step, instances, framework) == c + tl;
    assert c + tl == code + (d + tl);
  }

  /** The second pass only appends: the code it starts from is a prefix of its result. */
  lemma {:induction false} StepsCodeExtends(code: string, steps: seq<KeywordStep>, instances: map<string, string>, framework: string)
    ensures var r := StepsCode(code, steps, instances, framework); |code| <= |r| && r[..|code|] == code
    decreases |steps|
  {
    if steps != [] {
      var before := StepsCode(code, steps[..|steps| - 1], instances, framework);
      StepsCodeExtends(code, steps[..|steps| - 1], instances, framework);
      StepCodeExtends(before, steps[|steps| - 1], instances, framework);
      var after := StepsCode(code, steps, instances, framework);
      assert after[..|code|] == after[..|before|][..|code|];
    }
  }

  /**
   * For Python the file opens with the framework's imports, the page-object
   * imports and the test function's signature, in that order; any other
   * language gets a single comment line.
   */
  lemma CodeFromStepsHeader(steps: seq<KeywordStep>, o: CodeOptions)
    ensures Language(o) != "python" ==> CodeFromSteps(steps, o) == UnsupportedLanguage(Language(o))
    ensures Language(o) == "python" && Framework(o) != "selenium" ==>
      StartsWith(CodeFromSteps(steps, o),
        ImportsFor(Framework(o)) + PageObjectImports(UsedPageObjects(steps)) + SignatureFor(Framework(o), TestName(o), TestDescription(o)))
  {
    if Language(o) == "python" {
      var fw := Framework(o);
      var used := UsedPageObjects(steps);
      var header := ImportsFor(fw) + PageObjectImports(used) + SignatureFor(fw, TestName(o), TestDescription(o));
      StepsCodeExtends(header, steps, Instances(used), fw);
    }
  }

  /**
   * A Selenium test ends by quitting the driver in a `finally:` block and has
   * a `try:` right after its `def` line.
   */
  lemma CodeFromStepsSelenium(steps: seq<KeywordStep>, o: CodeOptions)
    requires Language(o) == "python" && Framework(o) == "selenium"
    ensures EndsWith(CodeFromSteps(steps, o), SeleniumFinally)
    ensures Contains(CodeFromSteps(steps, o), SeleniumDef(TestName(o)) + "\n    try:")
  {
    var fw := Framework(o);
    var used := UsedPageObjects(steps);
    var header := ImportsFor(fw) + PageObjectImports(used) + SignatureFor(fw, TestName(o), TestDescription(o));
    var body := StepsCode(header, steps, Instances(used), fw);
    var d := SeleniumDef(TestName(o));
    SeleniumSignatureHasDef(ImportsFor(fw) + PageObjectImports(used), TestName(o), TestDescription(o));
    StepsCodeExtends(header, steps, Instances(used), fw);
    ContainsInPrefix(body, |header|, d);
    SeleniumWrapFacts(body, TestName(o));
  }

  lemma SeleniumSignatureHasDef(pre: string, testName: string, testDescription: string)
    ensures Contains(pre + SignatureFor("selenium", testName, testDescription), SeleniumDef(testName))
  {
    var rest := "\n    \"\"\"" + testDescription + "\"\"\"\n    driver = driver_selenium\n";
    var d := SeleniumDef(testName);
    assert pre + SignatureFor("selenium", testName, testDescription) == (pre + "@pytest.mark.selenium\n") + d + rest;
    ContainsMiddle(pre + "@pytest.mark.selenium\n", d, rest);
  }

  lemma SeleniumWrapFacts(code: string, testName: string)
    requires Contains(code, SeleniumDef(testName))
    ensures EndsWith(SeleniumWrap(code, testName), SeleniumFinally)
    ensures Contains(SeleniumWrap(code, testName), SeleniumDef(testName) + "\n    try:")
  {
    var q := SeleniumDef(testName) + "\n    try:";
    var replaced := ReplaceFirst(code, SeleniumDef(testName), q);
    ReplaceFirstPlaces(code, SeleniumDef(testName), q);
    ContainsExtend(replaced, SeleniumFinally, q);
    var r := replaced + SeleniumFinally;
    assert r[|r| - |SeleniumFinally|..] == SeleniumFinally;
  }

  /** A step handled as a plain keyword: not a page-object call, with an action and no description. */
  predicate IsPlainKeywordStep(step: KeywordStep)
  {
    !(IsPageObjectStep(step) && Truthy(step.methodName)) && Truthy(step.action) && !Truthy(step.description)
  }

  /** The reference reading of a run of plain keyword steps: one indented `generateKeywordCode` line each. */
  function KeywordLines(steps: seq<KeywordStep>, framework: string): string
  {
    if steps == [] then ""
    else KeywordLines(steps[..|steps| - 1], framework) + KeywordLine(steps[|steps| - 1], framework)
  }

  /** Plain keyword steps each add exactly their own keyword line, in order. */
  lemma {:induction false} StepsCodeKeywordLines(code: string, steps: seq<KeywordStep>, instances: map<string, string>, framework: string)
    requires forall k :: 0 <= k < |steps| ==> IsPlainKeywordStep(steps[k])
    ensures StepsCode(code, steps, instances, framework) == code + KeywordLines(steps, framework)
    decreases |steps|
  {
    if steps != [] {
      var init := steps[..|steps| - 1];
      var last := steps[|steps| - 1];
      StepsCodeKeywordLines(code, init, instances, framework);
      var prev := StepsCode(code, init, instances, framework);
      assert DescriptionLine(last) == "";
      assert prev + DescriptionLine(last) == prev;
      ConcatAssoc(code, KeywordLines(init, framework), KeywordLine(last, framework));
    }
  }

  /**
   * A page-object step whose object is known calls its method on the
   * instance variable, and the code before that call always holds the
   * instance's creation; the creation line is added only if the code does
   * not hold it yet.
   */
  lemma PageObjectCallAfterCreation(code: string, step: KeywordStep, instances: map<string, string>, framework: string)
    requires IsPageObjectStep(step) && Truthy(step.methodName) && step.pageObject.value in instances
    ensures var po := step.pageObject.value;
      var v := instances[po];
      var r := StepCode(code, step, instances, framework);
      var before := r[..|r| - |CallLine(v, step)|];
      |r| >= |CallLine(v, step)| && r == before + CallLine(v, step) && Contains(before, CreationPrefix(v, po)) &&
      (Contains(code + DescriptionLine(step), CreationPrefix(v, po)) ==> before == code + DescriptionLine(step))
  {
    var po := step.pageObject.value;
    var v := instances[po];
    var c := code + DescriptionLine(step);
    var call := CallLine(v, step);
    var creation := if Contains(c, CreationPrefix(v, po)) then "" else CreationLine(v, po, DriverVar(framework));
    assert StepLines(c, step, instances, framework) == creation + call;
    var r := StepCode(code, step, instances, framework);
    ConcatAssoc(c, creation, call);
    assert r == (c + creation) + call;
    assert r[..|r| - |call|] == c + creation;
    if creation == "" {
      assert c + creation == c;
    } else {
      CreationLineHasPrefix(c, v, po, DriverVar(framework));
    }
  }

  lemma CreationLineHasPrefix(c: string, v: string, po: string, driverVar: string)
    ensures Contains(c + CreationLine(v, po, driverVar), CreationPrefix(v, po))
  {
    var tail := driverVar + ")\n";
    assert c + CreationLine(v, po, driverVar) == (c + "    ") + CreationPrefix(v, po) + tail;
    ContainsMiddle(c + "    ", CreationPrefix(v, po), tail);
  }

  /** Every page object a step names has an instance variable, so the "instance needed" comment is never emitted. */
  lemma EveryPageObjectHasInstance(steps: seq<KeywordStep>)
    ensures forall k :: 0 <= k < |steps| && IsPageObjectStep(steps[k]) ==>
      steps[k].pageObject.value in Instances(UsedPageObjects(steps))
  {
    UsedPageObjectsFacts(steps);
  }
}
