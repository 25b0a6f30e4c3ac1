/**
 * The locator healing service (`server/services/locatorHealingService.js`):
 * finding the element a failed locator meant in a stored snapshot's
 * element metadata, generating Playwright and Selenium locators for a text
 * or an attribute, finding the same element in the current DOM, ranking
 * the locators that can be built for it, and the choice `healLocator`
 * makes between them.
 *
 * The database, gzip and the regular-expression searches over whole HTML
 * documents are not modelled: what they return is a parameter (the
 * per-snapshot search results, a `DomIndex` of the current DOM and the
 * `MatchCounts` of the uniqueness checks). The regular expressions applied
 * to a locator or to one start tag are modelled character by character.
 */
module LocatorHealing {
  import opened JsStrings
  import opened KeySort

  // ---------------------------------------------------------------------
  // Leftmost regular-expression matches
  // ---------------------------------------------------------------------

  /** The first index at or after `from` holding a quote, or `|s|`. */
  function QuoteFrom(s: string, from: nat): (k: nat)
    requires from <= |s|
    ensures from <= k <= |s|
    ensures k < |s| ==> IsQuote(s[k])
    ensures forall t :: from <= t < k ==> !IsQuote(s[t])
    decreases |s| - from
  {
    if from == |s| || IsQuote(s[from]) then from else QuoteFrom(s, from + 1)
  }

  /** The first index at or after `from` holding a character other than `\w`, or `|s|`. */
  function WordFrom(s: string, from: nat): (k: nat)
    requires from <= |s|
    ensures from <= k <= |s|
    ensures k < |s| ==> !IsWordChar(s[k])
    ensures forall t :: from <= t < k ==> IsWordChar(s[t])
    decreases |s| - from
  {
    if from == |s| || !IsWordChar(s[from]) then from else WordFrom(s, from + 1)
  }

  /**
   * `['"]([^'"]+)['"]` matched at `q`: the captured value and the index of
   * the closing quote.
   */
  function QuotedAt(s: string, q: nat): (r: Option<(string, nat)>)
    ensures r.Some? ==> var (v, k) := r.value;
      && q + 1 < k < |s| && IsQuote(s[q]) && IsQuote(s[k]) && v == s[q + 1..k]
      && forall t :: 0 <= t < |v| ==> !IsQuote(v[t])
  {
    if q < |s| && IsQuote(s[q]) then
      var k := QuoteFrom(s, q + 1);
      if q + 1 < k < |s| then Some((s[q + 1..k], k)) else None
    else None
  }

  /** `name` (lower case) occurs at `i` when case is ignored. */
  predicate NameAt(s: string, name: string, i: nat)
  {
    i + |name| <= |s| && forall t :: 0 <= t < |name| ==> LowerChar(s[i + t]) == name[t]
  }

  /** `/NAME=['"]([^'"]+)['"]/i` matched at `i`. */
  function AttrMatchAt(s: string, name: string, i: nat): (r: Option<string>)
    ensures r.Some? ==> r.value != ""
  {
    if NameAt(s, name, i) && i + |name| < |s| && s[i + |name|] == '=' then
      var q := QuotedAt(s, i + |name| + 1);
      if q.Some? then Some(q.value.0) else None
    else None
  }

  /** No attribute-name character precedes index `i`. */
  predicate NameBoundary(s: string, i: nat)
  {
    i == 0 || (i <= |s| && !IsWordChar(s[i - 1]) && s[i - 1] != '-')
  }

  /** `/\[data-(\w+)=['"]([^'"]+)['"]\]/` matched at `i`: the attribute name and value. */
  function DataAttrAt(s: string, i: nat): Option<(string, string)>
  {
    if OccursAt(s, "[data-", i) then
      var j := WordFrom(s, i + 6);
      if i + 6 < j < |s| && s[j] == '=' then
        var q := QuotedAt(s, j + 1);
        if q.Some? && q.value.1 + 1 < |s| && s[q.value.1 + 1] == ']' then Some(("data-" + s[i + 6..j], q.value.0))
        else None
      else None
    else None
  }

  /** `/\[aria-label=['"]([^'"]+)['"]\]/` matched at `i`: the value. */
  function AriaAt(s: string, i: nat): Option<string>
  {
    if OccursAt(s, "[aria-label=", i) then
      var q := QuotedAt(s, i + 12);
      if q.Some? && q.value.1 + 1 < |s| && s[q.value.1 + 1] == ']' then Some(q.value.0) else None
    else None
  }

  /**
   * The regular expressions searched for: an attribute `NAME=` in a start
   * tag (anywhere, as the source writes it, or only as a whole attribute
   * name), and the `[data-*]` and `[aria-label]` selectors in a locator.
   */
  datatype Pattern = AttrPattern(name: string, whole: bool) | DataAttrPattern | AriaPattern

  /** The pattern matched at `i`: the attribute name and the captured (never empty) value. */
  function MatchAt(s: string, p: Pattern, i: nat): (r: Option<(string, string)>)
    ensures r.Some? ==> r.value.1 != ""
  {
    match p
    case AttrPattern(name, whole) =>
      if whole && !NameBoundary(s, i) then None
      else
        var v := AttrMatchAt(s, name, i);
        if v.Some? then Some((name, v.value)) else None
    case DataAttrPattern => DataAttrAt(s, i)
    case AriaPattern =>
      var v := AriaAt(s, i);
      if v.Some? then Some(("aria-label", v.value)) else None
  }

  /** The leftmost match at or after `from`: `s.match(pattern)`. */
  function FirstMatch(s: string, p: Pattern, from: nat): (r: Option<(string, string)>)
    ensures r.Some? ==> r.value.1 != ""
    decreases |s| - from
  {
    if from >= |s| then None
    else if MatchAt(s, p, from).Some? then MatchAt(s, p, from)
    else FirstMatch(s, p, from + 1)
  }

  /** `FirstMatch` finds the leftmost match, and finds nothing only when nothing matches. */
  lemma {:induction false} FirstMatchFacts(s: string, p: Pattern, from: nat)
    ensures var r := FirstMatch(s, p, from);
      && (r.Some? ==> exists i :: from <= i < |s| && MatchAt(s, p, i) == r && forall j :: from <= j < i ==> MatchAt(s, p, j).None?)
      && (r.None? ==> forall i :: from <= i < |s| ==> MatchAt(s, p, i).None?)
    decreases |s| - from
  {
    if FirstMatch(s, p, from).Some? {
      var i := FirstMatchFound(s, p, from);
    } else {
      FirstMatchMissing(s, p, from);
    }
  }

  /** Where `FirstMatch` finds something, it is the match at the first index that matches. */
  lemma {:induction false} FirstMatchFound(s: string, p: Pattern, from: nat) returns (i: nat)
    requires FirstMatch(s, p, from).Some?
    ensures from <= i < |s| && MatchAt(s, p, i) == FirstMatch(s, p, from)
    ensures forall j :: from <= j < i ==> MatchAt(s, p, j).None?
    decreases |s| - from
  {
    if MatchAt(s, p, from).Some? {
      i := from;
    } else {
      i := FirstMatchFound(s, p, from + 1);
    }
  }

  /** Where `FirstMatch` finds nothing, nothing matches at or after `from`. */
  lemma {:induction false} FirstMatchMissing(s: string, p: Pattern, from: nat)
    requires FirstMatch(s, p, from).None?
    ensures forall i :: from <= i < |s| ==> MatchAt(s, p, i).None?
    decreases |s| - from
  {
    if from < |s| {
      FirstMatchMissing(s, p, from + 1);
    }
  }

  /** No attribute pattern matches where `=` does not follow the name. */
  lemma NoEqualsNoMatch(s: string, name: string, whole: bool, i: nat)
    requires i + |name| >= |s| || s[i + |name|] != '='
    ensures MatchAt(s, AttrPattern(name, whole), i).None?
  {
  }

  /** A whole-name pattern does not match right after a word character. */
  lemma InsideNameNoMatch(s: string, name: string, i: nat)
    requires 0 < i <= |s| && IsWordChar(s[i - 1])
    ensures MatchAt(s, AttrPattern(name, true), i).None?
  {
  }

  /** The first index that matches decides what `FirstMatch` finds. */
  lemma {:induction false} FirstMatchAt(s: string, p: Pattern, from: nat, i: nat)
    requires from <= i < |s| && MatchAt(s, p, i).Some?
    requires forall j :: from <= j < i ==> MatchAt(s, p, j).None?
    ensures FirstMatch(s, p, from) == MatchAt(s, p, i)
    decreases i - from
  {
    if from < i {
      FirstMatchAt(s, p, from + 1, i);
    }
  }

  /** Without any match, `FirstMatch` finds nothing. */
  lemma {:induction false} FirstMatchNone(s: string, p: Pattern, from: nat)
    requires forall j :: from <= j < |s| ==> MatchAt(s, p, j).None?
    ensures FirstMatch(s, p, from).None?
    decreases |s| - from
  {
    if from < |s| {
      FirstMatchNone(s, p, from + 1);
    }
  }

  /**
   * `html.match(/NAME=['"]([^'"]+)['"]/i)?.[1]`: the pattern is not
   * anchored, so the match may begin inside a longer attribute name.
   */
  function AttrValue(s: string, name: string): (r: Option<string>)
    ensures r.Some? ==> r.value != ""
  {
    var m := FirstMatch(s, AttrPattern(name, false), 0);
    if m.Some? then Some(m.value.1) else None
  }

  /** As evidently intended: the value of the first attribute named exactly `name` (case ignored). */
  function AttrValueExact(s: string, name: string): (r: Option<string>)
    ensures r.Some? ==> r.value != ""
  {
    var m := FirstMatch(s, AttrPattern(name, true), 0);
    if m.Some? then Some(m.value.1) else None
  }

  /** The match begins inside `data-testid=`, so an `id` is reported on an element that has none. */
  lemma IdFoundInsideTestId()
    ensures AttrValue(TestIdTag(), "id") == Some("s")
    ensures AttrValueExact(TestIdTag(), "id") == None
  {
    TestIdTagAsWritten(TestIdTag());
    TestIdTagCorrected(TestIdTag());
  }

  /** A start tag with a `data-testid` and no `id`. */
  function TestIdTag(): string { "<b data-testid=\"s\">" }

  /** The `id=` inside `data-testid=` is the first match of the pattern as written. */
  lemma TestIdTagAsWritten(s: string)
    requires s == TestIdTag()
    ensures AttrValue(s, "id") == Some("s")
  {
    assert |s| == 19 && s[14] == '=';
    assert AttrMatchAt(s, "id", 12) == Some("s") by {
      assert NameAt(s, "id", 12);
      assert QuoteFrom(s, 17) == 17;
      assert QuoteFrom(s, 16) == 17;
      assert s[16..17] == "s";
      assert QuotedAt(s, 15) == Some(("s", 17));
    }
    var p := AttrPattern("id", false);
    forall j | 0 <= j < 12 ensures MatchAt(s, p, j).None? {
      NoEqualsNoMatch(s, "id", false, j);
    }
    FirstMatchAt(s, p, 0, 12);
  }

  /** No whole attribute named `id` matches in `TestIdTag()`. */
  lemma TestIdTagCorrected(s: string)
    requires s == TestIdTag()
    ensures AttrValueExact(s, "id") == None
  {
    assert |s| == 19 && s[11] == 't' && s[14] == '=';
    var q := AttrPattern("id", true);
    forall j | 0 <= j < |s| ensures MatchAt(s, q, j).None? {
      if j == 12 {
        InsideNameNoMatch(s, "id", 12);
      } else {
        NoEqualsNoMatch(s, "id", true, j);
      }
    }
    FirstMatchNone(s, q, 0);
  }

  /**
   * The value found is the leftmost match of an attribute named exactly
   * `name`; nothing is found only when no such attribute matches.
   */
  lemma AttrValueExactFacts(s: string, name: string)
    ensures var r := AttrValueExact(s, name);
      && (r.Some? ==> exists i :: 0 <= i < |s| && NameBoundary(s, i) && AttrMatchAt(s, name, i) == r)
      && (r.None? ==> forall i :: 0 <= i < |s| && NameBoundary(s, i) ==> AttrMatchAt(s, name, i).None?)
  {
    FirstMatchFacts(s, AttrPattern(name, true), 0);
    if AttrValueExact(s, name).None? {
      forall i | 0 <= i < |s| && NameBoundary(s, i) ensures AttrMatchAt(s, name, i).None? {
        assert MatchAt(s, AttrPattern(name, true), i).None?;
      }
    }
  }

  /**
   * The value found is the leftmost match of `NAME=` and a quoted value,
   * wherever it begins; nothing is found only when nothing matches.
   */
  lemma AttrValueFacts(s: string, name: string)
    ensures var r := AttrValue(s, name);
      && (r.Some? ==> exists i :: (0 <= i < |s| && AttrMatchAt(s, name, i) == r &&
            (forall j :: 0 <= j < i ==> AttrMatchAt(s, name, j).None?)))
      && (r.None? ==> forall i :: 0 <= i < |s| ==> AttrMatchAt(s, name, i).None?)
  {
    var p := AttrPattern(name, false);
    if FirstMatch(s, p, 0).Some? {
      var i := FirstMatchFound(s, p, 0);
      forall j | 0 <= j < i ensures AttrMatchAt(s, name, j).None? {
        assert MatchAt(s, p, j).None?;
      }
      assert AttrMatchAt(s, name, i) == AttrValue(s, name);
    } else {
      FirstMatchMissing(s, p, 0);
      forall i | 0 <= i < |s| ensures AttrMatchAt(s, name, i).None? {
        assert MatchAt(s, p, i).None?;
      }
    }
  }

  /**
   * The unanchored search and the intended one agree when no `NAME=` match
   * begins inside a longer attribute name.
   */
  lemma AttrValueAgrees(s: string, name: string)
    requires forall i :: 0 <= i < |s| && !NameBoundary(s, i) ==> AttrMatchAt(s, name, i).None?
    ensures AttrValue(s, name) == AttrValueExact(s, name)
  {
    FirstMatchSame(s, AttrPattern(name, false), AttrPattern(name, true), 0);
  }

  /** Two patterns that match alike at every index have the same first match. */
  lemma {:induction false} FirstMatchSame(s: string, p: Pattern, q: Pattern, from: nat)
    requires forall i :: from <= i < |s| ==> MatchAt(s, p, i) == MatchAt(s, q, i)
    ensures FirstMatch(s, p, from) == FirstMatch(s, q, from)
    decreases |s| - from
  {
    if from < |s| {
      FirstMatchSame(s, p, q, from + 1);
    }
  }

  /** The first `data-*` attribute selector in a locator. */
  function DataAttrIn(s: string): Option<(string, string)>
  {
    FirstMatch(s, DataAttrPattern, 0)
  }

  /** The first `aria-label` attribute selector in a locator. */
  function AriaIn(s: string): Option<string>
  {
    var m := FirstMatch(s, AriaPattern, 0);
    if m.Some? then Some(m.value.1) else None
  }

  /** A `[data-*]` match names a `data-` attribute with a word after it and carries a non-empty unquoted value. */
  lemma DataAttrAtFacts(s: string, i: nat)
    requires DataAttrAt(s, i).Some?
    ensures var (name, value) := DataAttrAt(s, i).value;
      && |name| > 5 && name[..5] == "data-"
      && (forall t :: 5 <= t < |name| ==> IsWordChar(name[t]))
      && value != "" && forall t :: 0 <= t < |value| ==> !IsQuote(value[t])
  {
    var j := WordFrom(s, i + 6);
    var word := s[i + 6..j];
    var name := DataAttrAt(s, i).value.0;
    assert name == "data-" + word;
    forall t | 5 <= t < |name| ensures IsWordChar(name[t]) {
      assert name[t] == word[t - 5] == s[i + 6 + t - 5];
    }
  }

  /** The first `[data-*]` selector has the shape `DataAttrAtFacts` states. */
  lemma DataAttrInFacts(s: string)
    ensures var r := DataAttrIn(s);
      r.Some? ==> var (name, value) := r.value;
        && |name| > 5 && name[..5] == "data-"
        && (forall t :: 5 <= t < |name| ==> IsWordChar(name[t]))
        && value != "" && forall t :: 0 <= t < |value| ==> !IsQuote(value[t])
  {
    FirstMatchFacts(s, DataAttrPattern, 0);
    var r := DataAttrIn(s);
    if r.Some? {
      var i :| 0 <= i < |s| && MatchAt(s, DataAttrPattern, i) == r;
      DataAttrAtFacts(s, i);
    }
  }

  /** The locator `[data-name="Save"]` carries the attribute `data-name` with value `Save`. */
  lemma DataAttrExample()
    ensures DataAttrIn("[data-name=\"Save\"]") == Some(("data-name", "Save"))
  {
    var s := "[data-name=\"Save\"]";
    assert |s| == 18 && OccursAt(s, "[data-", 0);
    assert WordFrom(s, 10) == 10;
    assert WordFrom(s, 9) == 10;
    assert WordFrom(s, 8) == 10;
    assert WordFrom(s, 7) == 10;
    assert WordFrom(s, 6) == 10;
    assert QuoteFrom(s, 16) == 16;
    assert QuoteFrom(s, 15) == 16;
    assert QuoteFrom(s, 14) == 16;
    assert QuoteFrom(s, 13) == 16;
    assert QuoteFrom(s, 12) == 16;
    assert s[12..16] == "Save" && s[6..10] == "name";
    assert QuotedAt(s, 11) == Some(("Save", 16));
    assert s[10] == '=' && s[17] == ']';
    assert "data-" + s[6..10] == "data-name";
    assert DataAttrAt(s, 0) == Some(("data-name", "Save"));
  }

  // ---------------------------------------------------------------------
  // What a snapshot search finds
  // ---------------------------------------------------------------------

  /** One element of a snapshot's metadata. */
  datatype MetaElement = MetaElement(
    text: JsStr,
    id: JsStr,
    classes: Option<seq<string>>,
    dataAttrs: map<string, string>,
    attrs: map<string, string>)

  /** The parsed metadata; `elements` is `None` when missing or not an array. */
  datatype Metadata = Metadata(elements: Option<seq<MetaElement>>)

  /**
   * The `snapshotData` argument: falsy, JSON text (with the outcome of
   * `JSON.parse`: `None` when it throws or yields `null`), or an object.
   */
  datatype SnapshotData = NoData | JsonText(parsed: Option<Metadata>) | Object(metadata: Metadata)

  /** The element a search found: in a snapshot's metadata, a start tag, or nothing. */
  datatype OldElement = NoElement | MetaElem(elem: MetaElement) | HtmlElem(html: string)

  datatype LocatedKind = TextKind | AttributeKind

  /** What `findElementInSnapshot` and `findElementInCurrentDom` return. */
  datatype Located = Located(
    kind: LocatedKind,
    text: JsStr,
    matchedText: JsStr,
    attribute: JsStr,
    value: JsStr,
    element: OldElement,
    elementHtml: JsStr)

  function TextLocated(e: MetaElement): Located
  {
    Located(TextKind, e.text, e.text, None, None, MetaElem(e), None)
  }

  function AttrLocated(attribute: string, value: string, e: MetaElement): Located
  {
    Located(AttributeKind, None, None, Some(attribute), Some(value), MetaElem(e), None)
  }

  /** The first index at or after `from` whose element satisfies `p`, or -1. */
  function FirstIndex(xs: seq<MetaElement>, p: MetaElement -> bool, from: nat): (r: int)
    ensures r == -1 || (from <= r < |xs| && p(xs[r]))
    ensures r == -1 ==> forall i :: from <= i < |xs| ==> !p(xs[i])
    ensures r >= 0 ==> forall i :: from <= i < r ==> !p(xs[i])
    decreases |xs| - from
  {
    if from >= |xs| then -1
    else if p(xs[from]) then from
    else FirstIndex(xs, p, from + 1)
  }

  /** The locator is searched as text: by its type or by a `text=` prefix. */
  predicate IsTextLocator(locator: string, locatorType: JsStr)
  {
    locatorType == Some("text") || StartsWith(locator, "text=")
  }

  /** The locator is searched as an attribute for these types. */
  predicate IsAttributeType(locatorType: JsStr)
  {
    locatorType == Some("css") || locatorType == Some("playwright") || locatorType == Some("selenium")
  }

  /** The locator without a leading `text=`, without quotes, in lower case. */
  function TextNeedle(locator: string): string
  {
    var body := if StartsWith(locator, "text=") then locator[5..] else locator;
    Lower(RemoveChar(RemoveChar(body, '\''), '"'))
  }

  /** `elem.text && elem.text.toLowerCase().includes(needle)`. */
  predicate TextMatches(e: MetaElement, needle: string)
  {
    Truthy(e.text) && Contains(Lower(e.text.value), needle)
  }

  /** The `#id`, `.class`, `[data-*]` and `[aria-label]` searches, in that order. */
  function AttributeSearch(els: seq<MetaElement>, locator: string): Option<Located>
  {
    var byId := if StartsWith(locator, "#") then FirstIndex(els, (e: MetaElement) => e.id == Some(locator[1..]), 0) else -1;
    if byId >= 0 then Some(AttrLocated("id", locator[1..], els[byId]))
    else
      var byClass := if StartsWith(locator, ".") then FirstIndex(els, (e: MetaElement) => e.classes.Some? && locator[1..] in e.classes.value, 0) else -1;
      if byClass >= 0 then Some(AttrLocated("class", locator[1..], els[byClass]))
      else
        var d := DataAttrIn(locator);
        var byData := if d.Some? then FirstIndex(els, (e: MetaElement) => d.value.0 in e.dataAttrs && e.dataAttrs[d.value.0] == d.value.1, 0) else -1;
        if d.Some? && byData >= 0 then Some(AttrLocated(d.value.0, d.value.1, els[byData]))
        else
          var a := AriaIn(locator);
          var byAria := if a.Some? then FirstIndex(els, (e: MetaElement) => "aria-label" in e.attrs && e.attrs["aria-label"] == a.value, 0) else -1;
          if a.Some? && byAria >= 0 then Some(AttrLocated("aria-label", a.value, els[byAria]))
          else None
  }

  /** `findElementInSnapshot(snapshotData, failedLocator, locatorType, true)`. */
  function FindInMetadata(data: SnapshotData, failedLocator: JsStr, locatorType: JsStr): Option<Located>
  {
    if data.NoData? || !Truthy(failedLocator) then None
    else
      var m := if data.JsonText? then data.parsed else Some(data.metadata);
      if m.None? || m.value.elements.None? then None
      else
        var els := m.value.elements.value;
        var locator := failedLocator.value;
        var t := if IsTextLocator(locator, locatorType) then FirstIndex(els, (e: MetaElement) => TextMatches(e, TextNeedle(locator)), 0) else -1;
        if t >= 0 then Some(TextLocated(els[t]))
        else if IsAttributeType(locatorType) then AttributeSearch(els, locator)
        else None
  }

  /** The elements of readable metadata. */
  function ElementsOf(data: SnapshotData): Option<seq<MetaElement>>
  {
    match data
    case NoData => None
    case JsonText(parsed) => if parsed.Some? then parsed.value.elements else None
    case Object(metadata) => metadata.elements
  }

  /** Nothing is found without data, without a locator, or without readable metadata. */
  lemma FindInMetadataGuards(data: SnapshotData, failedLocator: JsStr, locatorType: JsStr)
    ensures data.NoData? || !Truthy(failedLocator) || ElementsOf(data).None? ==> FindInMetadata(data, failedLocator, locatorType).None?
    ensures data == JsonText(None) ==> FindInMetadata(data, failedLocator, locatorType).None?
  {
  }

  /**
   * A text locator finds the first element whose text contains the
   * de-quoted, lower-cased locator, ignoring case.
   */
  lemma FindInMetadataText(data: SnapshotData, failedLocator: JsStr, locatorType: JsStr, i: nat)
    requires Truthy(failedLocator) && ElementsOf(data).Some?
    requires IsTextLocator(failedLocator.value, locatorType)
    requires var els := ElementsOf(data).value;
      && i < |els| && TextMatches(els[i], TextNeedle(failedLocator.value))
      && forall j :: 0 <= j < i ==> !TextMatches(els[j], TextNeedle(failedLocator.value))
    ensures FindInMetadata(data, failedLocator, locatorType) == Some(TextLocated(ElementsOf(data).value[i]))
  {
    var els := ElementsOf(data).value;
    var needle := TextNeedle(failedLocator.value);
    var t := FirstIndex(els, (e: MetaElement) => TextMatches(e, needle), 0);
    assert t == i;
  }

  /**
   * What a metadata search returns is an element of the metadata that
   * fits the locator: a text hit contains the needle, an `#id` hit has the
   * id, a `.class` hit has the class.
   */
  lemma FindInMetadataSound(data: SnapshotData, failedLocator: JsStr, locatorType: JsStr)
    ensures var r := FindInMetadata(data, failedLocator, locatorType);
      r.Some? ==>
        && Truthy(failedLocator) && ElementsOf(data).Some?
        && r.value.element.MetaElem? && r.value.element.elem in ElementsOf(data).value
        && (r.value.kind == TextKind ==> IsTextLocator(failedLocator.value, locatorType) && TextMatches(r.value.element.elem, TextNeedle(failedLocator.value)))
        && (r.value.attribute == Some("id") ==> StartsWith(failedLocator.value, "#") && r.value.element.elem.id == r.value.value)
        && (r.value.kind == AttributeKind ==> IsAttributeType(locatorType))
  {
    if Truthy(failedLocator) && ElementsOf(data).Some? {
      AttributeSearchSound(ElementsOf(data).value, failedLocator.value);
    }
  }

  /** An attribute hit is an element of the list, and an `id` hit comes from an `#id` locator naming that id. */
  lemma AttributeSearchSound(els: seq<MetaElement>, locator: string)
    ensures var r := AttributeSearch(els, locator);
      r.Some? ==>
        && r.value.kind == AttributeKind && r.value.element.MetaElem? && r.value.element.elem in els
        && (r.value.attribute == Some("id") ==> StartsWith(locator, "#") && r.value.element.elem.id == r.value.value)
  {
    DataAttrInFacts(locator);
    var d := DataAttrIn(locator);
    if d.Some? {
      assert d.value.0[..5] == "data-";
      assert d.value.0 != "id";
    }
  }

  // ---------------------------------------------------------------------
  // Locator generators
  // ---------------------------------------------------------------------

  /** The `locatorType = 'playwright'` default applies when the argument is missing. */
  function Framework(locatorType: JsStr): JsStr
  {
    if locatorType.None? then Some("playwright") else locatorType
  }

  /** A framework the generators know. */
  predicate KnownFramework(locatorType: JsStr)
  {
    Framework(locatorType) == Some("playwright") || Framework(locatorType) == Some("selenium")
  }

  /** `s.replace(/"/g, '\\"')`. */
  function EscapeQuotes(s: string): string
  {
    ReplaceChar(s, '"', "\\\"")
  }

  /** Reads `\"` back as `"`. */
  function UnescapeQuotes(s: string): string
    decreases |s|
  {
    if |s| >= 2 && s[0] == '\\' && s[1] == '"' then "\"" + UnescapeQuotes(s[2..])
    else if s == [] then []
    else [s[0]] + UnescapeQuotes(s[1..])
  }

  /** An escaped string never begins with a bare quote. */
  lemma EscapedHead(s: string)
    ensures EscapeQuotes(s) == [] || EscapeQuotes(s)[0] != '"'
  {
  }

  /** Unescaping recovers what was escaped. */
  lemma {:induction false} UnescapeEscape(s: string)
    ensures UnescapeQuotes(EscapeQuotes(s)) == s
    decreases |s|
  {
    if s != [] {
      var e := EscapeQuotes(s[1..]);
      UnescapeEscape(s[1..]);
      if s[0] == '"' {
        assert EscapeQuotes(s) == "\\\"" + e;
        assert ("\\\"" + e)[2..] == e;
      } else {
        assert EscapeQuotes(s) == [s[0]] + e;
        EscapedHead(s[1..]);
        assert ([s[0]] + e)[1..] == e;
      }
      assert s == [s[0]] + s[1..];
    }
  }

  /** The fixed text a generated locator puts before and after the escaped value. */
  datatype Frame = Frame(pre: string, post: string)

  /** The escaped value inside its frame. */
  function Framed(f: Frame, value: string): string
  {
    f.pre + EscapeQuotes(value) + f.post
  }

  /** Reads the value back out of a framed locator. */
  function Unframe(f: Frame, locator: string): Option<string>
  {
    if |f.pre| + |f.post| <= |locator| && StartsWith(locator, f.pre) && EndsWith(locator, f.post) then
      Some(UnescapeQuotes(locator[|f.pre|..|locator| - |f.post|]))
    else None
  }

  /** A framed value can always be read back. */
  lemma UnframeFramed(f: Frame, value: string)
    ensures Unframe(f, Framed(f, value)) == Some(value)
  {
    var e := EscapeQuotes(value);
    var loc := f.pre + e + f.post;
    assert loc[..|f.pre|] == f.pre;
    assert loc[|loc| - |f.post|..] == f.post;
    assert loc[|f.pre|..|loc| - |f.post|] == e;
    UnescapeEscape(value);
  }

  /** The frame of a text locator. */
  function TextFrame(locatorType: JsStr): Frame
  {
    if Framework(locatorType) == Some("selenium") then Frame("driver.find_element(By.XPATH, f'//*[text()=\"", "\"]')")
    else Frame("page.locator('text=\"", "\"')")
  }

  /**
   * `generateTextLocator(text, locatorType)`: the Selenium template has
   * `{escapedText}` without the `$`, so the text is never put into the
   * locator.
   */
  function GenerateTextLocator(text: JsStr, locatorType: JsStr): (r: JsStr)
    ensures r.Some? <==> Truthy(text) && KnownFramework(locatorType)
  {
    if !Truthy(text) then None
    else if Framework(locatorType) == Some("playwright") then Some("page.locator('text=\"" + EscapeQuotes(text.value) + "\"')")
    else if Framework(locatorType) == Some("selenium") then Some(SeleniumTextLocatorAsWritten)
    else None
  }

  /** Two different texts get the same Selenium locator from the code as written. */
  lemma SeleniumTextLocatorIgnoresText()
    ensures GenerateTextLocator(Some("Save"), Some("selenium")) == GenerateTextLocator(Some("Cancel"), Some("selenium"))
  {
  }

  /** `generateTextLocator(text, locatorType)` as evidently intended: the escaped text in both templates. */
  function GenerateTextLocatorIntended(text: JsStr, locatorType: JsStr): (r: JsStr)
    ensures r.Some? <==> Truthy(text) && KnownFramework(locatorType)
  {
    if !Truthy(text) || !KnownFramework(locatorType) then None
    else Some(Framed(TextFrame(locatorType), text.value))
  }

  /** Every generated text locator carries its text: reading it back gives the text. */
  lemma TextLocatorRoundTrip(text: JsStr, locatorType: JsStr)
    requires Truthy(text) && KnownFramework(locatorType)
    ensures Unframe(TextFrame(locatorType), GenerateTextLocatorIntended(text, locatorType).value) == Some(text.value)
  {
    UnframeFramed(TextFrame(locatorType), text.value);
  }

  /**
   * The Playwright text locator is the intended one, so it carries its
   * text; the Selenium one is the same fixed text for every element.
   */
  lemma TextLocatorAgrees(text: JsStr, locatorType: JsStr)
    requires Truthy(text)
    ensures Framework(locatorType) == Some("playwright") ==>
      GenerateTextLocator(text, locatorType) == GenerateTextLocatorIntended(text, locatorType)
    ensures Framework(locatorType) == Some("selenium") ==>
      GenerateTextLocator(text, locatorType) == Some(SeleniumTextLocatorAsWritten)
  {
  }

  /** The Selenium text locator the source produces for any text. */
  const SeleniumTextLocatorAsWritten: string := "driver.find_element(By.XPATH, f'//*[text()=\"{escapedText}\"]')"

  /** The frame of an attribute locator. */
  function AttributeFrame(attribute: string, locatorType: JsStr): Frame
  {
    if Framework(locatorType) == Some("selenium") then
      if attribute == "id" then Frame("driver.find_element(By.ID, \"", "\")")
      else if attribute == "class" then Frame("driver.find_element(By.CLASS_NAME, \"", "\")")
      else Frame("driver.find_element(By.XPATH, '//*[@" + attribute + "=\"", "\"]')")
    else
      if attribute == "id" then Frame("page.locator('#", "')")
      else if attribute == "class" then Frame("page.locator('.", "')")
      else Frame("page.locator('[" + attribute + "=\"", "\"]')")
  }

  /** `generateAttributeLocator(attribute, value, locatorType)`. */
  function GenerateAttributeLocator(attribute: JsStr, value: JsStr, locatorType: JsStr): (r: JsStr)
    ensures r.Some? <==> Truthy(attribute) && Truthy(value) && KnownFramework(locatorType)
  {
    if !Truthy(attribute) || !Truthy(value) || !KnownFramework(locatorType) then None
    else Some(Framed(AttributeFrame(attribute.value, locatorType), value.value))
  }

  /**
   * Every generated attribute locator carries its value; Playwright `id`
   * and `class` locators are the `#` and `.` CSS shorthands.
   */
  lemma AttributeLocatorFacts(attribute: string, value: string, locatorType: JsStr)
    requires attribute != "" && value != "" && KnownFramework(locatorType)
    ensures Unframe(AttributeFrame(attribute, locatorType), GenerateAttributeLocator(Some(attribute), Some(value), locatorType).value) == Some(value)
    ensures Framework(locatorType) == Some("playwright") && attribute == "id" ==>
      GenerateAttributeLocator(Some(attribute), Some(value), locatorType) == Some("page.locator('#" + EscapeQuotes(value) + "')")
    ensures Framework(locatorType) == Some("playwright") && attribute == "class" ==>
      GenerateAttributeLocator(Some(attribute), Some(value), locatorType) == Some("page.locator('." + EscapeQuotes(value) + "')")
  {
    UnframeFramed(AttributeFrame(attribute, locatorType), value);
  }

  // ---------------------------------------------------------------------
  // Finding the element again in the current DOM
  // ---------------------------------------------------------------------

  /**
   * The answers of the regular-expression searches over the current DOM:
   * for a text, the first start tag of a tag whose content contains it and
   * the trimmed content; for an attribute and a value, the first start tag
   * carrying it.
   */
  datatype DomIndex = DomIndex(textHits: map<string, (string, string)>, tags: map<(string, string), string>)

  /** `{ id: 6, 'data-testid': 5, name: 4, 'aria-label': 3, text: 2, class: 1 }[attribute] || 0`. */
  function AttrRank(attribute: JsStr): int
  {
    if attribute == Some("id") then 6
    else if attribute == Some("data-testid") then 5
    else if attribute == Some("name") then 4
    else if attribute == Some("aria-label") then 3
    else if attribute == Some("text") then 2
    else if attribute == Some("class") then 1
    else 0
  }

  /** The sort key of `foundElements.sort(...)`: descending by rank. */
  function NegRank(e: Located): int
  {
    -AttrRank(e.attribute)
  }

  /** `characteristics.text || characteristics.matchedText`. */
  function TextOf(c: Located): JsStr
  {
    OrElse(c.text, c.matchedText)
  }

  function DomAttrHit(attribute: string, value: string, html: string): Located
  {
    Located(AttributeKind, None, None, Some(attribute), Some(value), NoElement, Some(html))
  }

  /** The `[data-testid]` and `name` values the old element offers, if any. */
  function OldTestId(c: Located): Option<string>
  {
    match c.element
    case MetaElem(e) => if "data-testid" in e.dataAttrs && e.dataAttrs["data-testid"] != "" then Some(e.dataAttrs["data-testid"]) else None
    case HtmlElem(h) => AttrValue(h, "data-testid")
    case NoElement => None
  }

  function OldName(c: Located): Option<string>
  {
    match c.element
    case MetaElem(e) => if "name" in e.attrs && e.attrs["name"] != "" then Some(e.attrs["name"]) else None
    case HtmlElem(h) => AttrValue(h, "name")
    case NoElement => None
  }

  /** The element found for a text, attribute or old-element value, if the DOM has it. */
  function AttrHit(attribute: string, value: Option<string>, dom: DomIndex): seq<Located>
  {
    if value.Some? && (attribute, value.value) in dom.tags then [DomAttrHit(attribute, value.value, dom.tags[(attribute, value.value)])]
    else []
  }

  /** The element found for the old element's text, if the DOM has it. */
  function TextHit(c: Located, dom: DomIndex): seq<Located>
  {
    var t := TextOf(c);
    if Truthy(t) && t.value in dom.textHits then
      [Located(TextKind, t, Some(dom.textHits[t.value].1), None, None, NoElement, Some(dom.textHits[t.value].0))]
    else []
  }

  /** The element found for the old element's own attribute and value, if the DOM has it. */
  function OwnAttrHit(c: Located, dom: DomIndex): seq<Located>
  {
    if Truthy(c.attribute) && Truthy(c.value) then AttrHit(c.attribute.value, c.value, dom) else []
  }

  /** The elements `findElementInCurrentDom` collects, in the order it pushes them. */
  function CurrentDomMatches(c: Located, dom: DomIndex): seq<Located>
  {
    TextHit(c, dom) + OwnAttrHit(c, dom) + AttrHit("data-testid", OldTestId(c), dom) + AttrHit("name", OldName(c), dom)
  }

  /** The head of the list sorted by descending rank is an entry of highest rank. */
  lemma HighestRankFirst(found: seq<Located>)
    requires found != []
    ensures SortByKey(found, NegRank)[0] in found
    ensures forall e :: e in found ==> AttrRank(e.attribute) <= AttrRank(SortByKey(found, NegRank)[0].attribute)
  {
    SortedHeadIsLeast(found, NegRank);
    forall e | e in found ensures AttrRank(e.attribute) <= AttrRank(SortByKey(found, NegRank)[0].attribute) {
      assert NegRank(SortByKey(found, NegRank)[0]) <= NegRank(e);
    }
  }

  /** The pushes of `findElementInCurrentDom`, in order. */
  method CollectCurrentDomMatches(c: Located, dom: DomIndex) returns (found: seq<Located>)
    ensures found == CurrentDomMatches(c, dom)
  {
    found := [];
    var t := TextOf(c);
    if Truthy(t) && t.value in dom.textHits {
      var (html, matched) := dom.textHits[t.value];
      found := found + [Located(TextKind, t, Some(matched), None, None, NoElement, Some(html))];
    }
    assert found == TextHit(c, dom);
    if Truthy(c.attribute) && Truthy(c.value) && (c.attribute.value, c.value.value) in dom.tags {
      found := found + [DomAttrHit(c.attribute.value, c.value.value, dom.tags[(c.attribute.value, c.value.value)])];
    }
    assert found == TextHit(c, dom) + OwnAttrHit(c, dom);
    var testId := OldTestId(c);
    if testId.Some? && ("data-testid", testId.value) in dom.tags {
      found := found + [DomAttrHit("data-testid", testId.value, dom.tags[("data-testid", testId.value)])];
    }
    assert found == TextHit(c, dom) + OwnAttrHit(c, dom) + AttrHit("data-testid", testId, dom);
    var name := OldName(c);
    if name.Some? && ("name", name.value) in dom.tags {
      found := found + [DomAttrHit("name", name.value, dom.tags[("name", name.value)])];
    }
  }

  /** `findElementInCurrentDom(currentDom, elementCharacteristics)`. */
  method FindElementInCurrentDom(currentDom: JsStr, characteristics: Option<Located>, dom: DomIndex) returns (r: Option<Located>)
    ensures !Truthy(currentDom) || characteristics.None? ==> r.None?
    ensures r.None? && Truthy(currentDom) && characteristics.Some? ==> CurrentDomMatches(characteristics.value, dom) == []
    ensures r.Some? ==> var found := CurrentDomMatches(characteristics.value, dom);
      && r.value in found
      && forall e :: e in found ==> AttrRank(e.attribute) <= AttrRank(r.value.attribute)
  {
    if !Truthy(currentDom) || characteristics.None? {
      return None;
    }
    var found := CollectCurrentDomMatches(characteristics.value, dom);
    if found == [] {
      return None;
    }
    HighestRankFirst(found);
    r := Some(SortByKey(found, NegRank)[0]);
  }

  /**
   * What the current DOM yields is a real hit: a text hit has no attribute
   * (rank 0) and the tag the DOM search found; an attribute hit names the
   * attribute and value the DOM carries.
   */
  lemma CurrentDomMatchesFacts(c: Located, dom: DomIndex)
    ensures forall e :: e in CurrentDomMatches(c, dom) ==>
      if e.kind == TextKind then
        e.attribute.None? && AttrRank(e.attribute) == 0 && Truthy(e.text) && e.text.value in dom.textHits
        && e.elementHtml == Some(dom.textHits[e.text.value].0)
      else
        e.attribute.Some? && e.value.Some? && (e.attribute.value, e.value.value) in dom.tags
        && e.elementHtml == Some(dom.tags[(e.attribute.value, e.value.value)])
  {
  }

  // ---------------------------------------------------------------------
  // Ranking locators for the element found
  // ---------------------------------------------------------------------

  datatype HealMethod = ById | ByTestId | ByName | ByAria | ByText | ByClass | ByAttribute

  function MethodName(m: HealMethod): string
  {
    match m
    case ById => "id"
    case ByTestId => "data-testid"
    case ByName => "name"
    case ByAria => "aria-label"
    case ByText => "text"
    case ByClass => "class"
    case ByAttribute => "attribute"
  }

  /** A healing strategy `{ method, locator, confidence }`. */
  datatype Strategy = Strategy(via: HealMethod, locator: string, confidence: int)

  /**
   * How many matches each uniqueness check counts in the current DOM: the
   * `id=`, `data-testid=`, `name=`, `aria-label=` and `class=` patterns
   * with the value found, and the text pattern.
   */
  datatype MatchCounts = MatchCounts(id: nat, testId: nat, name: nat, aria: nat, text: nat, cls: nat)

  function CountFor(counts: MatchCounts, m: HealMethod): nat
  {
    match m
    case ById => counts.id
    case ByTestId => counts.testId
    case ByName => counts.name
    case ByAria => counts.aria
    case ByText => counts.text
    case ByClass => counts.cls
    case ByAttribute => 0
  }

  /** The confidence `generateOptimalLocators` gives a method with `count` matches. */
  function Confidence(m: HealMethod, count: nat): int
  {
    match m
    case ById => if count == 1 then 95 else 85
    case ByTestId => if count == 1 then 90 else 80
    case ByName => if count == 1 then 85 else 75
    case ByAria => if count == 1 then 82 else 72
    case ByText => if count == 1 then 85 else if count <= 3 then 75 else 65
    case ByClass => if count == 1 then 70 else 60
    case ByAttribute => 0
  }

  /** A unique match always scores higher than a non-unique one for the same method. */
  lemma UniqueScoresHigher(m: HealMethod, count: nat)
    requires m != ByAttribute && count != 1
    ensures Confidence(m, 1) > Confidence(m, count)
    ensures Confidence(m, 1) >= Confidence(m, count) + 10
  {
  }

  /** The order in which `generateOptimalLocators` tries the methods. */
  function MethodOrder(m: HealMethod): nat
  {
    match m
    case ById => 0
    case ByTestId => 1
    case ByName => 2
    case ByAria => 3
    case ByText => 4
    case ByClass => 5
    case ByAttribute => 6
  }

  /** `(html.match(/NAME=.../i) || (element.attribute === NAME ? { 1: element.value } : null))`. */
  function Captured(htmlMatch: Option<string>, element: Located, name: string): Option<JsStr>
  {
    if htmlMatch.Some? then Some(Some(htmlMatch.value))
    else if element.attribute == Some(name) then Some(element.value)
    else None
  }

  /** `value.split(/\s+/)[0]`: the characters before the first white space. */
  function FirstToken(s: string): (r: string)
    ensures |r| <= |s| && r == s[..|r|]
    ensures forall i :: 0 <= i < |r| ==> !IsJsSpace(r[i])
    ensures |r| < |s| ==> IsJsSpace(s[|r|])
  {
    if s == [] || IsJsSpace(s[0]) then [] else [s[0]] + FirstToken(s[1..])
  }

  /** At most one strategy, for method `m`, scored by `m`'s count. */
  predicate PieceFor(s: seq<Strategy>, m: HealMethod, counts: MatchCounts)
  {
    |s| <= 1 && forall x :: x in s ==> x.via == m && x.confidence == Confidence(m, CountFor(counts, m))
  }

  /** The strategy for an attribute method, when the value gives a locator. */
  function AttrStrategy(m: HealMethod, value: Option<JsStr>, counts: MatchCounts, locatorType: JsStr): (r: seq<Strategy>)
    ensures PieceFor(r, m, counts)
    ensures r != [] <==> value.Some? && Truthy(value.value) && KnownFramework(locatorType)
  {
    if value.None? then []
    else
      var loc := GenerateAttributeLocator(Some(MethodName(m)), value.value, locatorType);
      if loc.Some? then [Strategy(m, loc.value, Confidence(m, CountFor(counts, m)))] else []
  }

  /** The text strategy, when the element has a text. */
  function TextStrategy(el: Located, counts: MatchCounts, locatorType: JsStr): (r: seq<Strategy>)
    ensures PieceFor(r, ByText, counts)
    ensures r != [] <==> Truthy(TextOf(el)) && KnownFramework(locatorType)
  {
    var loc := GenerateTextLocator(TextOf(el), locatorType);
    if loc.Some? then [Strategy(ByText, loc.value, Confidence(ByText, counts.text))] else []
  }

  /** The value the `id` search finds in the element's start tag. */
  function IdValue(html: string): Option<JsStr>
  {
    var m := AttrValue(html, "id");
    if m.Some? then Some(Some(m.value)) else None
  }

  /** The first class of the `class` value found, if any. */
  function ClassValue(html: string, el: Located): Option<JsStr>
  {
    var m := Captured(AttrValue(html, "class"), el, "class");
    if m.Some? then Some(Some(FirstToken(OrEmpty(m.value)))) else None
  }

  /** The candidates of `generateOptimalLocators`, in the order it pushes them. */
  function OptimalLocators(el: Located, counts: MatchCounts, locatorType: JsStr): seq<Strategy>
  {
    var html := OrEmpty(el.elementHtml);
    AttrStrategy(ById, IdValue(html), counts, locatorType)
    + AttrStrategy(ByTestId, Captured(AttrValue(html, "data-testid"), el, "data-testid"), counts, locatorType)
    + AttrStrategy(ByName, Captured(AttrValue(html, "name"), el, "name"), counts, locatorType)
    + AttrStrategy(ByAria, Captured(AttrValue(html, "aria-label"), el, "aria-label"), counts, locatorType)
    + TextStrategy(el, counts, locatorType)
    + AttrStrategy(ByClass, ClassValue(html, el), counts, locatorType)
  }

  /** Some strategy uses method `m`. */
  predicate HasMethod(r: seq<Strategy>, m: HealMethod)
  {
    exists s :: s in r && s.via == m
  }

  /** All strategies are ordered by method and scored by their own method's count. */
  predicate WellScored(r: seq<Strategy>, counts: MatchCounts)
  {
    && (forall i :: 0 <= i < |r| ==> r[i].via != ByAttribute && r[i].confidence == Confidence(r[i].via, CountFor(counts, r[i].via)))
    && (forall i, j :: 0 <= i < j < |r| ==> MethodOrder(r[i].via) < MethodOrder(r[j].via))
  }

  /** Appending a strategy for a later method keeps the list well scored. */
  lemma AppendWellScored(r: seq<Strategy>, s: seq<Strategy>, counts: MatchCounts, m: HealMethod)
    requires WellScored(r, counts) && forall i :: 0 <= i < |r| ==> MethodOrder(r[i].via) < MethodOrder(m)
    requires m != ByAttribute && PieceFor(s, m, counts)
    ensures WellScored(r + s, counts)
    ensures forall i :: 0 <= i < |r + s| ==> MethodOrder((r + s)[i].via) <= MethodOrder(m)
  {
    if s != [] {
      assert s[0] in s;
    }
  }

  /**
   * The candidates come one per method at most, in the fixed method order,
   * each scored by its own uniqueness count; there is an `id` candidate
   * exactly when the start tag has an `id`, a text candidate exactly when
   * the element has a text, and none for an unknown framework.
   */
  lemma OptimalLocatorsFacts(el: Located, counts: MatchCounts, locatorType: JsStr)
    ensures var r := OptimalLocators(el, counts, locatorType);
      && WellScored(r, counts)
      && (HasMethod(r, ById) <==> AttrValue(OrEmpty(el.elementHtml), "id").Some? && KnownFramework(locatorType))
      && (HasMethod(r, ByText) <==> Truthy(TextOf(el)) && KnownFramework(locatorType))
      && (!KnownFramework(locatorType) ==> r == [])
  {
    var html := OrEmpty(el.elementHtml);
    var s1 := AttrStrategy(ById, IdValue(html), counts, locatorType);
    var s2 := AttrStrategy(ByTestId, Captured(AttrValue(html, "data-testid"), el, "data-testid"), counts, locatorType);
    var s3 := AttrStrategy(ByName, Captured(AttrValue(html, "name"), el, "name"), counts, locatorType);
    var s4 := AttrStrategy(ByAria, Captured(AttrValue(html, "aria-label"), el, "aria-label"), counts, locatorType);
    var s5 := TextStrategy(el, counts, locatorType);
    var s6 := AttrStrategy(ByClass, ClassValue(html, el), counts, locatorType);
    assert s1 + s2 + s3 + s4 + s5 + s6 == OptimalLocators(el, counts, locatorType);
    SixPieces(s1, s2, s3, s4, s5, s6, counts);
  }

  /** Six pieces in method order make a well-scored list; the first holds the `id` strategy, the fifth the text one. */
  lemma SixPieces(s1: seq<Strategy>, s2: seq<Strategy>, s3: seq<Strategy>, s4: seq<Strategy>, s5: seq<Strategy>, s6: seq<Strategy>, counts: MatchCounts)
    requires PieceFor(s1, ById, counts) && PieceFor(s2, ByTestId, counts) && PieceFor(s3, ByName, counts)
    requires PieceFor(s4, ByAria, counts) && PieceFor(s5, ByText, counts) && PieceFor(s6, ByClass, counts)
    ensures var r := s1 + s2 + s3 + s4 + s5 + s6;
      && WellScored(r, counts)
      && (HasMethod(r, ById) <==> s1 != [])
      && (HasMethod(r, ByText) <==> s5 != [])
  {
    var r1 := s1;
    var r2 := r1 + s2;
    var r3 := r2 + s3;
    var r4 := r3 + s4;
    var r5 := r4 + s5;
    var r := r5 + s6;
    AppendWellScored([], s1, counts, ById);
    assert [] + s1 == r1;
    AppendWellScored(r1, s2, counts, ByTestId);
    AppendWellScored(r2, s3, counts, ByName);
    AppendWellScored(r3, s4, counts, ByAria);
    AppendWellScored(r4, s5, counts, ByText);
    AppendWellScored(r5, s6, counts, ByClass);
    PieceHasMethod(s1, ById, counts);
    PieceHasMethod(s2, ByTestId, counts);
    PieceHasMethod(s3, ByName, counts);
    PieceHasMethod(s4, ByAria, counts);
    PieceHasMethod(s5, ByText, counts);
    PieceHasMethod(s6, ByClass, counts);
    HasMethodConcat(r1, s2, ById);
    HasMethodConcat(r2, s3, ById);
    HasMethodConcat(r3, s4, ById);
    HasMethodConcat(r4, s5, ById);
    HasMethodConcat(r5, s6, ById);
    HasMethodConcat(r1, s2, ByText);
    HasMethodConcat(r2, s3, ByText);
    HasMethodConcat(r3, s4, ByText);
    HasMethodConcat(r4, s5, ByText);
    HasMethodConcat(r5, s6, ByText);
  }

  /** A piece for `m` uses exactly method `m`, when it is not empty. */
  lemma PieceHasMethod(s: seq<Strategy>, m: HealMethod, counts: MatchCounts)
    requires PieceFor(s, m, counts)
    ensures forall m2 :: HasMethod(s, m2) <==> s != [] && m2 == m
  {
    if s != [] {
      assert s[0] in s;
    }
  }

  /** A concatenation uses a method exactly when one of its parts does. */
  lemma HasMethodConcat(a: seq<Strategy>, b: seq<Strategy>, m: HealMethod)
    ensures HasMethod(a + b, m) <==> HasMethod(a, m) || HasMethod(b, m)
  {
    if HasMethod(a + b, m) {
      var s :| s in a + b && s.via == m;
    }
  }

  /** `generateOptimalLocators(elementInCurrentDom, currentDom, locatorType)`. */
  method GenerateOptimalLocators(element: Option<Located>, counts: MatchCounts, locatorType: JsStr) returns (candidates: seq<Strategy>)
    ensures element.None? ==> candidates == []
    ensures element.Some? ==> candidates == OptimalLocators(element.value, counts, locatorType)
  {
    if element.None? {
      return [];
    }
    var el := element.value;
    var html := OrEmpty(el.elementHtml);
    candidates := [];
    var idMatch := AttrValue(html, "id");
    if idMatch.Some? {
      var loc := GenerateAttributeLocator(Some("id"), Some(idMatch.value), locatorType);
      if loc.Some? {
        candidates := candidates + [Strategy(ById, loc.value, Confidence(ById, counts.id))];
      }
    }
    ghost var s1 := candidates;
    assert s1 == AttrStrategy(ById, IdValue(html), counts, locatorType);
    candidates := candidates + AttrStrategy(ByTestId, Captured(AttrValue(html, "data-testid"), el, "data-testid"), counts, locatorType);
    candidates := candidates + AttrStrategy(ByName, Captured(AttrValue(html, "name"), el, "name"), counts, locatorType);
    candidates := candidates + AttrStrategy(ByAria, Captured(AttrValue(html, "aria-label"), el, "aria-label"), counts, locatorType);
    var text := TextOf(el);
    if Truthy(text) {
      var loc := GenerateTextLocator(text, locatorType);
      if loc.Some? {
        candidates := candidates + [Strategy(ByText, loc.value, Confidence(ByText, counts.text))];
      }
    }
    candidates := candidates + AttrStrategy(ByClass, ClassValue(html, el), counts, locatorType);
  }

  // ---------------------------------------------------------------------
  // healLocator
  // ---------------------------------------------------------------------

  datatype HealError =
    | MissingArguments
    | NoSnapshotOrCurrentDom
    | ElementNotFound
    | NoApplicableStrategy
    | NotFoundInCurrentDom
    | NoValidLocator

  /** What `healLocator` resolves to; messages, ids and the URL pattern are left out. */
  datatype HealResult =
    | HealFailure(error: HealError)
    | Healed(locator: string, via: HealMethod, confidence: int, strategies: seq<Strategy>, usedCurrentDom: bool)

  /** The search results that found something, in snapshot order. */
  function Hits(results: seq<Option<Located>>): (r: seq<Located>)
    ensures |r| <= |results|
  {
    if results == [] then []
    else Hits(results[..|results| - 1]) + (if results[|results| - 1].Some? then [results[|results| - 1].value] else [])
  }

  /** Nothing was found in any snapshot exactly when no result is a hit. */
  lemma {:induction false} HitsEmpty(results: seq<Option<Located>>)
    ensures Hits(results) == [] <==> forall i :: 0 <= i < |results| ==> results[i].None?
  {
    if results != [] {
      var k := |results| - 1;
      var init := results[..k];
      HitsEmpty(init);
      assert Hits(results) == Hits(init) + (if results[k].Some? then [results[k].value] else []);
      assert forall i :: 0 <= i < k ==> init[i] == results[i];
    }
  }

  /** The strategy that `sort((a, b) => b.confidence - a.confidence)[0]` picks. */
  function NegConfidence(s: Strategy): int
  {
    -s.confidence
  }

  function Min(a: int, b: int): int { if a <= b then a else b }

  /** The loop over the fetched snapshots, keeping every element found. */
  method CollectSnapshotMatches(snapshotResults: seq<Option<Located>>) returns (matches: seq<Located>)
    ensures matches == Hits(snapshotResults)
    ensures matches == [] <==> forall i :: 0 <= i < |snapshotResults| ==> snapshotResults[i].None?
  {
    matches := [];
    for i := 0 to |snapshotResults|
      invariant matches == Hits(snapshotResults[..i])
    {
      assert snapshotResults[..i + 1][..i] == snapshotResults[..i];
      if snapshotResults[i].Some? {
        matches := matches + [snapshotResults[i].value];
      }
    }
    assert snapshotResults[..|snapshotResults|] == snapshotResults;
    HitsEmpty(snapshotResults);
  }

  /** `i` is the first position of a strategy no other outscores. */
  predicate FirstOfHighest(xs: seq<Strategy>, i: int)
  {
    && 0 <= i < |xs|
    && (forall j :: 0 <= j < |xs| ==> xs[j].confidence <= xs[i].confidence)
    && (forall j :: 0 <= j < i ==> xs[j].confidence < xs[i].confidence)
  }

  /** No strategy is followed by one of higher confidence. */
  predicate ByDescendingConfidence(xs: seq<Strategy>)
  {
    forall i, j :: 0 <= i < j < |xs| ==> xs[j].confidence <= xs[i].confidence
  }

  /**
   * `strategies.sort((a, b) => b.confidence - a.confidence)`: the same
   * strategies by descending confidence; the stable sort puts first the
   * earliest strategy of highest confidence.
   */
  method SortByConfidence(strategies: seq<Strategy>) returns (sorted: seq<Strategy>)
    ensures multiset(sorted) == multiset(strategies)
    ensures ByDescendingConfidence(sorted)
    ensures strategies != [] ==> exists i :: FirstOfHighest(strategies, i) && sorted[0] == strategies[i]
  {
    sorted := SortByKey(strategies, NegConfidence);
    SortByKeyFacts(strategies, NegConfidence);
    forall i, j | 0 <= i < j < |sorted| ensures sorted[j].confidence <= sorted[i].confidence {
      assert NegConfidence(sorted[i]) <= NegConfidence(sorted[j]);
    }
    if strategies != [] {
      var i := SortedHeadIsFirstLeast(strategies, NegConfidence);
      forall j | 0 <= j < |strategies| ensures strategies[j].confidence <= strategies[i].confidence {
        assert NegConfidence(strategies[i]) <= NegConfidence(strategies[j]);
      }
      forall j | 0 <= j < i ensures strategies[j].confidence < strategies[i].confidence {
        assert NegConfidence(strategies[j]) > NegConfidence(strategies[i]);
      }
      assert FirstOfHighest(strategies, i);
    }
  }

  /** The list `FallbackStrategies` pushes: the text strategy, then the attribute one. */
  function FallbackList(c: Located, locatorType: JsStr): seq<Strategy>
  {
    var text := TextOf(c);
    var textLoc := if Truthy(text) then GenerateTextLocator(text, locatorType) else None;
    var attrLoc := if Truthy(c.attribute) && Truthy(c.value) then GenerateAttributeLocator(c.attribute, c.value, locatorType) else None;
    (if textLoc.Some? then [Strategy(ByText, textLoc.value, 70)] else [])
      + (if attrLoc.Some? then [Strategy(ByAttribute, attrLoc.value, if c.attribute == Some("id") then 85 else 75)] else [])
  }

  /**
   * The strategies `healLocator` builds from the snapshot's element alone
   * when no current DOM is given: a text locator at 70, then an attribute
   * locator at 85 for an `id` and 75 otherwise.
   */
  method FallbackStrategies(c: Located, locatorType: JsStr) returns (strategies: seq<Strategy>)
    ensures strategies == FallbackList(c, locatorType)
    ensures forall s :: s in strategies ==>
      || (s.via == ByText && s.confidence == 70)
      || (s.via == ByAttribute && s.confidence == (if c.attribute == Some("id") then 85 else 75))
    ensures HasMethod(strategies, ByText) <==> Truthy(TextOf(c)) && KnownFramework(locatorType)
    ensures HasMethod(strategies, ByAttribute) <==> Truthy(c.attribute) && Truthy(c.value) && KnownFramework(locatorType)
  {
    var textPart: seq<Strategy> := [];
    var text := TextOf(c);
    if Truthy(text) {
      var loc := GenerateTextLocator(text, locatorType);
      if loc.Some? {
        textPart := [Strategy(ByText, loc.value, 70)];
      }
    }
    var attributePart: seq<Strategy> := [];
    if Truthy(c.attribute) && Truthy(c.value) {
      var loc := GenerateAttributeLocator(c.attribute, c.value, locatorType);
      if loc.Some? {
        attributePart := [Strategy(ByAttribute, loc.value, if c.attribute == Some("id") then 85 else 75)];
      }
    }
    strategies := textPart + attributePart;
    HasMethodConcat(textPart, attributePart, ByText);
    HasMethodConcat(textPart, attributePart, ByAttribute);
    HasMethodAtMostOne(textPart, ByText);
    HasMethodAtMostOne(textPart, ByAttribute);
    HasMethodAtMostOne(attributePart, ByText);
    HasMethodAtMostOne(attributePart, ByAttribute);
  }

  /** A list of at most one strategy has a method exactly when its strategy uses it. */
  lemma HasMethodAtMostOne(r: seq<Strategy>, m: HealMethod)
    requires |r| <= 1
    ensures HasMethod(r, m) <==> r != [] && r[0].via == m
  {
    if r != [] && r[0].via == m {
      assert r[0] in r;
    }
  }

  /** A healed result names one of its strategies, and no strategy scores higher. */
  predicate BestOfStrategies(r: HealResult)
    requires r.Healed?
  {
    exists s :: s in r.strategies && s.via == r.via && s.locator == r.locator
      && (r.usedCurrentDom ==> r.confidence == Min(100, s.confidence))
      && (!r.usedCurrentDom ==> r.confidence == s.confidence)
      && forall s2 :: s2 in r.strategies ==> s2.confidence <= s.confidence
  }

  /** The element `healLocator` goes on with: the first snapshot hit, else the current DOM's. */
  function Characteristics(snapshotResults: seq<Option<Located>>, currentDom: JsStr, domResult: Option<Located>): Option<Located>
  {
    var hits := Hits(snapshotResults);
    if hits != [] then Some(hits[0]) else if Truthy(currentDom) then domResult else None
  }

  /**
   * The healed result returns `pushed` sorted by descending confidence and
   * takes its head, the earliest pushed strategy of highest confidence.
   */
  predicate HealedFrom(r: HealResult, pushed: seq<Strategy>)
    requires r.Healed?
  {
    && pushed != [] && r.strategies != []
    && multiset(r.strategies) == multiset(pushed)
    && ByDescendingConfidence(r.strategies)
    && r.via == r.strategies[0].via && r.locator == r.strategies[0].locator
    && r.confidence == (if r.usedCurrentDom then Min(100, r.strategies[0].confidence) else r.strategies[0].confidence)
    && exists i :: 0 <= i < |pushed| && FirstOfHighest(pushed, i) && r.strategies[0] == pushed[i]
  }

  /**
   * `healLocator(options)` once the snapshots are fetched: `snapshotResults`
   * holds `findElementInSnapshot` for each fetched snapshot, most recent
   * first, with its metadata flag already decided, and `domResult` the same
   * search on the current DOM.
   */
  method HealLocator(
    failedLocator: JsStr, pageUrl: JsStr, locatorType: JsStr,
    snapshotResults: seq<Option<Located>>, currentDom: JsStr, domResult: Option<Located>,
    dom: DomIndex, counts: MatchCounts) returns (r: HealResult)
    ensures !Truthy(failedLocator) || !Truthy(pageUrl) ==> r == HealFailure(MissingArguments)
    ensures Truthy(failedLocator) && Truthy(pageUrl) && snapshotResults == [] && !Truthy(currentDom) ==> r == HealFailure(NoSnapshotOrCurrentDom)
    ensures (&& Truthy(failedLocator) && Truthy(pageUrl) && (snapshotResults != [] || Truthy(currentDom))
             && (forall i :: 0 <= i < |snapshotResults| ==> snapshotResults[i].None?)
             && (!Truthy(currentDom) || domResult.None?)) ==> r == HealFailure(ElementNotFound)
    ensures r.Healed? ==> Truthy(failedLocator) && Truthy(pageUrl) && r.usedCurrentDom == Truthy(currentDom) && BestOfStrategies(r)
    ensures r.Healed? && !r.usedCurrentDom ==> forall s :: s in r.strategies ==> s.via in {ByText, ByAttribute} && s.confidence in {70, 75, 85}
    ensures r.Healed? && !r.usedCurrentDom ==> var c := Characteristics(snapshotResults, currentDom, domResult);
      c.Some? && HealedFrom(r, FallbackList(c.value, locatorType))
    ensures r.Healed? && r.usedCurrentDom ==> forall s :: s in r.strategies ==> s.via != ByAttribute && s.confidence == Confidence(s.via, CountFor(counts, s.via))
    ensures r.Healed? && r.usedCurrentDom ==> var c := Characteristics(snapshotResults, currentDom, domResult);
      c.Some? && exists el :: el in CurrentDomMatches(c.value, dom) && HealedFrom(r, OptimalLocators(el, counts, locatorType))
  {
    if !Truthy(failedLocator) || !Truthy(pageUrl) {
      return HealFailure(MissingArguments);
    }
    if snapshotResults == [] && !Truthy(currentDom) {
      return HealFailure(NoSnapshotOrCurrentDom);
    }
    var matches := CollectSnapshotMatches(snapshotResults);
    var characteristics: Option<Located> := if matches != [] then Some(matches[0]) else None;
    if characteristics.None? && Truthy(currentDom) {
      characteristics := domResult;
    }
    if characteristics.None? {
      return HealFailure(ElementNotFound);
    }
    assert characteristics == Characteristics(snapshotResults, currentDom, domResult);
    var c := characteristics.value;
    if !Truthy(currentDom) {
      r := HealWithoutCurrentDom(c, locatorType);
      return;
    }
    var inCurrentDom := FindElementInCurrentDom(currentDom, characteristics, dom);
    if inCurrentDom.None? {
      return HealFailure(NotFoundInCurrentDom);
    }
    r := HealInCurrentDom(inCurrentDom.value, counts, locatorType);
  }

  /** A healed result built from the head of its sorted strategies names the best of them. */
  lemma SortedHeadIsBest(r: HealResult)
    requires r.Healed? && r.strategies != [] && ByDescendingConfidence(r.strategies)
    requires r.via == r.strategies[0].via && r.locator == r.strategies[0].locator
    requires r.confidence == (if r.usedCurrentDom then Min(100, r.strategies[0].confidence) else r.strategies[0].confidence)
    ensures BestOfStrategies(r)
  {
    var s := r.strategies[0];
    forall s2 | s2 in r.strategies ensures s2.confidence <= s.confidence {
      var k :| 0 <= k < |r.strategies| && r.strategies[k] == s2;
      if k > 0 {
        assert r.strategies[k].confidence <= r.strategies[0].confidence;
      }
    }
    assert s in r.strategies;
  }

  /** Every strategy of a permutation of a well-scored list carries its method's score. */
  lemma PermutedScores(pushed: seq<Strategy>, sorted: seq<Strategy>, counts: MatchCounts)
    requires WellScored(pushed, counts) && multiset(sorted) == multiset(pushed)
    ensures forall s :: s in sorted ==> s.via != ByAttribute && s.confidence == Confidence(s.via, CountFor(counts, s.via))
  {
    forall s | s in sorted ensures s.via != ByAttribute && s.confidence == Confidence(s.via, CountFor(counts, s.via)) {
      assert s in multiset(pushed);
      var k :| 0 <= k < |pushed| && pushed[k] == s;
    }
  }

  /**
   * Without a current DOM, an element with text and an `id` yields the text
   * strategy (70) before the `id` one (85); the healed result puts the `id`
   * strategy first and picks it.
   */
  lemma FallbackPrefersId(c: Located, locatorType: JsStr, r: HealResult)
    requires Truthy(TextOf(c)) && c.attribute == Some("id") && Truthy(c.value) && KnownFramework(locatorType)
    requires r.Healed? && HealedFrom(r, FallbackList(c, locatorType))
    ensures r.via == ByAttribute && r.confidence == 85
    ensures |r.strategies| == 2 && r.strategies[1].via == ByText
  {
    var pushed := FallbackList(c, locatorType);
    assert |pushed| == 2 && pushed[0].via == ByText && pushed[0].confidence == 70;
    assert pushed[1].via == ByAttribute && pushed[1].confidence == 85;
    var i :| 0 <= i < |pushed| && FirstOfHighest(pushed, i) && r.strategies[0] == pushed[i];
    assert i == 1;
    assert |r.strategies| == |multiset(r.strategies)| == |multiset(pushed)| == 2;
    assert r.strategies == [pushed[1]] + [r.strategies[1]];
    assert pushed == [pushed[0]] + [pushed[1]];
    assert multiset{r.strategies[1]} == multiset(r.strategies) - multiset{pushed[1]}
        == multiset(pushed) - multiset{pushed[1]} == multiset{pushed[0]};
    assert r.strategies[1] in multiset{pushed[0]};
  }

  /** Sorting keeps the scores the current-DOM strategies were given. */
  lemma SortedKeepsScores(el: Located, counts: MatchCounts, locatorType: JsStr, sorted: seq<Strategy>)
    requires multiset(sorted) == multiset(OptimalLocators(el, counts, locatorType))
    ensures forall s :: s in sorted ==> s.via != ByAttribute && s.confidence == Confidence(s.via, CountFor(counts, s.via))
  {
    OptimalLocatorsFacts(el, counts, locatorType);
    PermutedScores(OptimalLocators(el, counts, locatorType), sorted, counts);
  }

  /** The branch of `healLocator` without a current DOM, from the element's characteristics `c`. */
  method HealWithoutCurrentDom(c: Located, locatorType: JsStr) returns (r: HealResult)
    ensures r.HealFailure? ==> r.error == NoApplicableStrategy && FallbackList(c, locatorType) == []
    ensures r.Healed? ==> !r.usedCurrentDom && BestOfStrategies(r) && HealedFrom(r, FallbackList(c, locatorType))
    ensures r.Healed? ==> forall s :: s in r.strategies ==> s.via in {ByText, ByAttribute} && s.confidence in {70, 75, 85}
  {
    var strategies := FallbackStrategies(c, locatorType);
    if strategies == [] {
      return HealFailure(NoApplicableStrategy);
    }
    var sorted := SortByConfidence(strategies);
    assert sorted != [] by {
      assert strategies[0] in multiset(sorted);
    }
    var best := sorted[0];
    r := Healed(best.locator, best.via, best.confidence, sorted, false);
    SortedHeadIsBest(r);
    assert HealedFrom(r, strategies);
    forall s | s in r.strategies ensures s in strategies {
      assert s in multiset(strategies);
    }
  }

  /** The branch of `healLocator` once the element `el` is found in the current DOM. */
  method HealInCurrentDom(el: Located, counts: MatchCounts, locatorType: JsStr) returns (r: HealResult)
    ensures r.HealFailure? ==> r.error == NoValidLocator && OptimalLocators(el, counts, locatorType) == []
    ensures r.Healed? ==> r.usedCurrentDom && BestOfStrategies(r) && HealedFrom(r, OptimalLocators(el, counts, locatorType))
    ensures r.Healed? ==> forall s :: s in r.strategies ==> s.via != ByAttribute && s.confidence == Confidence(s.via, CountFor(counts, s.via))
  {
    var strategies := GenerateOptimalLocators(Some(el), counts, locatorType);
    if strategies == [] {
      return HealFailure(NoValidLocator);
    }
    var sorted := SortByConfidence(strategies);
    assert sorted != [] by {
      assert strategies[0] in multiset(sorted);
    }
    var best := sorted[0];
    r := Healed(best.locator, best.via, Min(100, best.confidence), sorted, true);
    SortedHeadIsBest(r);
    assert HealedFrom(r, strategies);
    SortedKeepsScores(el, counts, locatorType, sorted);
  }
}
