/**
 * Relative element selectors (src/renderer/utils/domAnalyzer.js): the
 * parent, ancestor, sibling and child of a recorded element as Playwright
 * locator chains and XPath expressions, and the condition expressions the
 * conditional-action wizard emits.
 */
module DomAnalyzer {
  import opened JsStrings

  /** The recorded element: its selector and XPath, either possibly missing. */
  datatype ElementInfo = ElementInfo(selector: JsStr, xpath: JsStr)

  /** A related element: how to reach it from the recorded one. `direction` is set for siblings only. */
  datatype Related = Related(selector: string, xpath: string, relation: string, direction: JsStr, targetSelector: JsStr)

  /** The result of `analyzeElementStructure`. */
  datatype Structure = Structure(parent: Related, ancestors: seq<Related>, next: Related, previous: Related, children: seq<Related>)

  /** `s.replace(/^\./, '')`: one leading dot removed. */
  function StripDot(s: string): (r: string)
    ensures r == s || (s != [] && s[0] == '.' && r == s[1..])
  {
    if |s| > 0 && s[0] == '.' then s[1..] else s
  }

  /** `s.split(c)[1]` for a string that holds `c`: the text between the first `c` and the next one. */
  function SecondPiece(s: string, c: char): string
    requires c in s
  {
    var k := IndexOfChar(s, c);
    BeforeFirst(s[k + 1..], c)
  }

  /** The XPath axis of a sibling direction: `next` looks forward, anything else backward. */
  function Axis(direction: string): string
  {
    if direction == "next" then "following-sibling" else "preceding-sibling"
  }

  /** The tag part of a target selector: no leading dot, nothing from the first `[` on. */
  function TagOf(target: string): (r: string)
    ensures '[' !in r
  {
    BeforeFirst(StripDot(target), '[')
  }

  // ---------------------------------------------------------------------
  // Structure finders
  // ---------------------------------------------------------------------

  /** `findParentElement(elementInfo, selector)`. */
  function FindParentElement(info: Option<ElementInfo>, selector: JsStr): Option<Related>
  {
    if info.None? then None
    else
      var sel := OrEmpty(info.value.selector);
      var xp := OrEmpty(info.value.xpath);
      if Truthy(selector) then
        Some(Related(sel + ".locator('xpath=..').locator('" + selector.value + "')",
                     "(" + xp + ")/..[" + selector.value + "]", "parent", None, selector))
      else
        Some(Related(sel + ".locator('..')", "(" + xp + ")/..", "parent", None, None))
  }

  /** `findAncestorElement(elementInfo, ancestorSelector)`. */
  function FindAncestorElement(info: Option<ElementInfo>, ancestor: JsStr): Option<Related>
  {
    if info.None? || !Truthy(ancestor) then None
    else
      var sel := OrEmpty(info.value.selector);
      var xp := OrEmpty(info.value.xpath);
      var a := StripDot(ancestor.value);
      Some(Related(sel + ".locator('xpath=ancestor::" + a + "[1]')",
                   "(" + xp + ")/ancestor::" + a + "[1]", "ancestor", None, ancestor))
  }

  /** `findSiblingElement(elementInfo, direction, selector)`; an omitted direction is `next`. */
  function FindSiblingElement(info: Option<ElementInfo>, direction: JsStr, selector: JsStr): Option<Related>
  {
    if info.None? then None
    else
      var d := if direction.Some? then direction.value else "next";
      var sel := OrEmpty(info.value.selector);
      var xp := OrEmpty(info.value.xpath);
      var axis := Axis(d);
      if Truthy(selector) then
        var t := selector.value;
        var pred := if '[' in t then "[" + SecondPiece(t, '[') else "";
        Some(Related(sel + ".locator('xpath=../" + axis + "::" + TagOf(t) + pred + "')",
                     "(" + xp + ")/../" + axis + "::" + TagOf(t) + pred, "sibling", Some(d), selector))
      else
        Some(Related(sel + ".locator('xpath=../" + axis + "::*[1]')",
                     "(" + xp + ")/../" + axis + "::*[1]", "sibling", Some(d), None))
  }

  /** `findChildElement(elementInfo, childSelector)`. */
  function FindChildElement(info: Option<ElementInfo>, child: JsStr): Option<Related>
  {
    if info.None? || !Truthy(child) then None
    else
      var sel := OrEmpty(info.value.selector);
      var xp := OrEmpty(info.value.xpath);
      Some(Related(sel + ".locator('" + child.value + "')", xp + "/" + child.value, "child", None, child))
  }

  /** The presence of each finder's result follows its argument guard. */
  lemma FindersDefined(info: Option<ElementInfo>, target: JsStr, direction: JsStr)
    ensures FindParentElement(info, target).Some? <==> info.Some?
    ensures FindSiblingElement(info, direction, target).Some? <==> info.Some?
    ensures FindAncestorElement(info, target).Some? <==> info.Some? && Truthy(target)
    ensures FindChildElement(info, target).Some? <==> info.Some? && Truthy(target)
    ensures info.Some? ==>
      FindParentElement(info, target).value.relation == "parent" &&
      FindSiblingElement(info, direction, target).value.relation == "sibling" &&
      FindSiblingElement(info, direction, target).value.direction == Some(if direction.Some? then direction.value else "next") &&
      FindParentElement(info, target).value.targetSelector == (if Truthy(target) then target else None)
  {
  }

  /** Every related element is reached from the recorded one: its locator chain starts with the element's selector. */
  lemma FindersExtendSelector(info: ElementInfo, target: JsStr, direction: JsStr)
    ensures var s := OrEmpty(info.selector);
      StartsWith(FindParentElement(Some(info), target).value.selector, s) &&
      StartsWith(FindSiblingElement(Some(info), direction, target).value.selector, s) &&
      (Truthy(target) ==> StartsWith(FindAncestorElement(Some(info), target).value.selector, s)) &&
      (Truthy(target) ==> StartsWith(FindChildElement(Some(info), target).value.selector, s))
  {
    var s := OrEmpty(info.selector);
    assert StartsWith(s, s);
    var axis := Axis(if direction.Some? then direction.value else "next");
    if Truthy(target) {
      var t := target.value;
      var pred := if '[' in t then "[" + SecondPiece(t, '[') else "";
      var parent := s + ".locator('xpath=..').locator('";
      StartsWithAppend(s, ".locator('xpath=..').locator('", s);
      StartsWithAppend(parent, t, s);
      StartsWithAppend(parent + t, "')", s);
      var sibling := s + ".locator('xpath=../" + axis + "::" + TagOf(t);
      StartsWithAppend(s, ".locator('xpath=../", s);
      StartsWithAppend(s + ".locator('xpath=../", axis, s);
      StartsWithAppend(s + ".locator('xpath=../" + axis, "::", s);
      StartsWithAppend(s + ".locator('xpath=../" + axis + "::", TagOf(t), s);
      StartsWithAppend(sibling, pred, s);
      StartsWithAppend(sibling + pred, "')", s);
      var ancestor := s + ".locator('xpath=ancestor::" + StripDot(t);
      StartsWithAppend(s, ".locator('xpath=ancestor::", s);
      StartsWithAppend(s + ".locator('xpath=ancestor::", StripDot(t), s);
      StartsWithAppend(ancestor, "[1]')", s);
      StartsWithAppend(s, ".locator('", s);
      StartsWithAppend(s + ".locator('", t, s);
      StartsWithAppend(s + ".locator('" + t, "')", s);
    } else {
      StartsWithAppend(s, ".locator('xpath=../", s);
      StartsWithAppend(s + ".locator('xpath=../", axis, s);
      StartsWithAppend(s + ".locator('xpath=../" + axis, "::*[1]')", s);
      StartsWithAppend(s, ".locator('..')", s);
    }
  }

  /** The names of the common ancestor patterns proposed for every element. */
  const CommonAncestors: seq<string> := [".item", ".product-card", ".card", "li", "div.container"]

  /** The `forEach` over `sels`: the ancestor found for each, skipping missing results. */
  function AncestorsOf(info: Option<ElementInfo>, sels: seq<string>): seq<Related>
  {
    if sels == [] then []
    else
      var a := FindAncestorElement(info, Some(sels[0]));
      (if a.Some? then [a.value] else []) + AncestorsOf(info, sels[1..])
  }

  /** `analyzeElementStructure(elementInfo)`. */
  function AnalyzeElementStructure(info: Option<ElementInfo>): Option<Structure>
  {
    if info.None? then None
    else
      Some(Structure(FindParentElement(info, None).value, AncestorsOf(info, CommonAncestors),
                     FindSiblingElement(info, Some("next"), None).value,
                     FindSiblingElement(info, Some("previous"), None).value, []))
  }

  lemma {:induction false} AncestorsOfAll(info: ElementInfo, sels: seq<string>)
    requires forall i :: 0 <= i < |sels| ==> sels[i] != ""
    ensures |AncestorsOf(Some(info), sels)| == |sels|
    ensures forall i :: 0 <= i < |sels| ==>
      AncestorsOf(Some(info), sels)[i] == FindAncestorElement(Some(info), Some(sels[i])).value
  {
    if sels != [] {
      AncestorsOfAll(info, sels[1..]);
      var rest := AncestorsOf(Some(info), sels[1..]);
      assert AncestorsOf(Some(info), sels) == [FindAncestorElement(Some(info), Some(sels[0])).value] + rest;
    }
  }

  /**
   * An element has a structure exactly when it is given; the structure
   * proposes one ancestor per common pattern, in order, and no children.
   */
  lemma AnalyzeElementStructureFacts(info: Option<ElementInfo>)
    ensures AnalyzeElementStructure(info).Some? <==> info.Some?
    ensures info.Some? ==>
      var st := AnalyzeElementStructure(info).value;
      |st.ancestors| == 5 && st.children == [] &&
      (forall i :: 0 <= i < 5 ==> st.ancestors[i] == FindAncestorElement(info, Some(CommonAncestors[i])).value) &&
      st.parent.relation == "parent" && st.next.direction == Some("next") && st.previous.direction == Some("previous")
  {
    if info.Some? {
      assert forall i :: 0 <= i < |CommonAncestors| ==> CommonAncestors[i] != "";
      AncestorsOfAll(info.value, CommonAncestors);
    }
  }

  // ---------------------------------------------------------------------
  // generateRelativeSelector
  // ---------------------------------------------------------------------

  datatype Relation = Parent | Ancestor | Sibling | Child

  /** The `switch (relation)` cases; `None` is the default branch. */
  function RelationOf(relation: string): (r: Option<Relation>)
    ensures r == Some(Parent) <==> relation == "parent"
    ensures r == Some(Ancestor) <==> relation == "ancestor"
    ensures r == Some(Sibling) <==> relation == "sibling"
    ensures r == Some(Child) <==> relation == "child"
  {
    if relation == "parent" then Some(Parent)
    else if relation == "ancestor" then Some(Ancestor)
    else if relation == "sibling" then Some(Sibling)
    else if relation == "child" then Some(Child)
    else None
  }

  /** `generateRelativeSelector(baseSelector, relation, targetSelector, direction)`; an omitted direction is `next`. */
  function GenerateRelativeSelector(base: JsStr, relation: JsStr, target: JsStr, direction: JsStr): JsStr
  {
    if !Truthy(base) || !Truthy(relation) then base
    else
      var b := base.value;
      match RelationOf(relation.value)
      case None => base
      case Some(Parent) =>
        if Truthy(target) then Some(b + ".locator('xpath=..').locator('" + target.value + "')")
        else Some(b + ".locator('..')")
      case Some(Ancestor) =>
        if !Truthy(target) then base
        else Some(b + ".locator('xpath=ancestor::" + TagOf(target.value) + "[1]')")
      case Some(Sibling) =>
        var axis := Axis(if direction.Some? then direction.value else "next");
        if Truthy(target) then Some(b + ".locator('xpath=../" + axis + "::" + TagOf(target.value) + "[1]')")
        else Some(b + ".locator('xpath=../" + axis + "::*[1]')")
      case Some(Child) =>
        if !Truthy(target) then base
        else Some(b + ".locator('" + target.value + "')")
  }

  /**
   * The base selector comes back unchanged exactly when it or the relation
   * is missing, the relation is unknown, or an ancestor or child relation
   * has no target; in every other case the result extends the base.
   */
  lemma GenerateRelativeSelectorFacts(base: JsStr, relation: JsStr, target: JsStr, direction: JsStr)
    ensures var r := GenerateRelativeSelector(base, relation, target, direction);
      r == base <==>
        !Truthy(base) || !Truthy(relation) || RelationOf(relation.value).None? ||
        (RelationOf(relation.value) in {Some(Ancestor), Some(Child)} && !Truthy(target))
    ensures var r := GenerateRelativeSelector(base, relation, target, direction);
      r != base ==> r.Some? && |r.value| > |base.value| && StartsWith(r.value, base.value)
  {
  }

  /** The parent and child finders build the same locator chain as the selector generator. */
  lemma FindersAgreeWithGenerator(info: ElementInfo, target: JsStr, direction: JsStr)
    requires Truthy(info.selector)
    ensures FindParentElement(Some(info), target).value.selector ==
      GenerateRelativeSelector(info.selector, Some("parent"), target, direction).value
    ensures Truthy(target) ==> (FindChildElement(Some(info), target).value.selector ==
      GenerateRelativeSelector(info.selector, Some("child"), target, direction).value)
    ensures FindSiblingElement(Some(info), direction, None).value.selector ==
      GenerateRelativeSelector(info.selector, Some("sibling"), None, direction).value
  {
  }

  /** For a target without `[`, the ancestor finder and the generator agree too. */
  lemma AncestorAgreesWithGenerator(info: ElementInfo, target: JsStr, direction: JsStr)
    requires Truthy(info.selector) && Truthy(target) && '[' !in target.value
    ensures FindAncestorElement(Some(info), target).value.selector ==
      GenerateRelativeSelector(info.selector, Some("ancestor"), target, direction).value
  {
    var s := StripDot(target.value);
    assert '[' !in s;
    assert TagOf(target.value) == s;
  }

  // ---------------------------------------------------------------------
  // generateConditionCheck
  // ---------------------------------------------------------------------

  datatype Condition = IsVisible | TextContains | TextEquals | ClassName | HasAttribute

  /** The `switch (conditionType)` cases; `None` is the default branch. */
  function ConditionOf(kind: string): (r: Option<Condition>)
    ensures r == Some(IsVisible) <==> kind == "is_visible"
    ensures r == Some(TextContains) <==> kind == "text_contains"
    ensures r == Some(TextEquals) <==> kind == "text_equals"
    ensures r == Some(ClassName) <==> kind == "class_name"
    ensures r == Some(HasAttribute) <==> kind == "has_attribute"
  {
    if kind == "is_visible" then Some(IsVisible)
    else if kind == "text_contains" then Some(TextContains)
    else if kind == "text_equals" then Some(TextEquals)
    else if kind == "class_name" then Some(ClassName)
    else if kind == "has_attribute" then Some(HasAttribute)
    else None
  }

  /** The expression for a known condition, in Python (`pythonLike`) or JavaScript. */
  function ConditionCode(c: Condition, v: string, s: string, pythonLike: bool): string
  {
    match c
    case IsVisible =>
      if pythonLike then "await " + s + ".is_visible()" else "await " + s + ".isVisible()"
    case TextContains =>
      if pythonLike then "\"" + v + "\" in await " + s + ".inner_text()"
      else "(await " + s + ".innerText()).includes(\"" + v + "\")"
    case TextEquals =>
      if pythonLike then "await " + s + ".inner_text() == \"" + v + "\""
      else "(await " + s + ".innerText()) === \"" + v + "\""
    case ClassName =>
      var cn := StripDot(v);
      if pythonLike then "await " + s + ".get_attribute('class') and \"" + cn + "\" in await " + s + ".get_attribute('class')"
      else "(await " + s + ".getAttribute('class'))?.includes(\"" + cn + "\")"
    case HasAttribute =>
      if pythonLike then "await " + s + ".get_attribute('" + v + "') is not None"
      else "(await " + s + ".getAttribute('" + v + "')) !== null"
  }

  /** `generateConditionCheck(conditionType, conditionValue, elementSelector, pythonLike)`. */
  function GenerateConditionCheck(kind: JsStr, value: JsStr, selector: JsStr, pythonLike: bool): string
  {
    if !Truthy(kind) || !Truthy(selector) then ""
    else
      match ConditionOf(kind.value)
      case None => ""
      case Some(c) =>
        if c != IsVisible && !Truthy(value) then "" else ConditionCode(c, OrEmpty(value), selector.value, pythonLike)
  }

  /** Both inner pieces of `a + x + b + y + c` occur in it. */
  lemma MentionsBoth(a: string, x: string, b: string, y: string, c: string)
    ensures Contains(a + x + b + y + c, x) && Contains(a + x + b + y + c, y)
  {
    ContainsMiddle(a, x, b);
    ContainsExtend(a + x + b, y + c, x);
    ConcatAssoc(a + x + b, y, c);
    ContainsMiddle(a + x + b, y, c);
  }

  /** Every condition expression reads the element and, except for visibility, mentions the expected value. */
  lemma ConditionCodeMentions(c: Condition, v: string, s: string, pythonLike: bool)
    ensures var r := ConditionCode(c, v, s, pythonLike);
      Contains(r, s) && (c in {TextContains, TextEquals, HasAttribute} ==> Contains(r, v)) &&
      (c == ClassName ==> Contains(r, StripDot(v)))
  {
    match c
    case IsVisible =>
      if pythonLike { ContainsMiddle("await ", s, ".is_visible()"); }
      else { ContainsMiddle("await ", s, ".isVisible()"); }
    case TextContains =>
      if pythonLike { MentionsBoth("\"", v, "\" in await ", s, ".inner_text()"); }
      else { MentionsBoth("(await ", s, ".innerText()).includes(\"", v, "\")"); }
    case TextEquals =>
      if pythonLike { MentionsBoth("await ", s, ".inner_text() == \"", v, "\""); }
      else { MentionsBoth("(await ", s, ".innerText()) === \"", v, "\""); }
    case ClassName =>
      var cn := StripDot(v);
      if pythonLike {
        var a := "await " + s + ".get_attribute('class') and \"" + cn + "\" in await ";
        MentionsBoth("await ", s, ".get_attribute('class') and \"", cn, "\" in await ");
        ContainsExtend(a, s, s);
        ContainsExtend(a + s, ".get_attribute('class')", s);
        ContainsExtend(a, s, cn);
        ContainsExtend(a + s, ".get_attribute('class')", cn);
      } else {
        MentionsBoth("(await ", s, ".getAttribute('class'))?.includes(\"", cn, "\")");
      }
    case HasAttribute =>
      if pythonLike { MentionsBoth("await ", s, ".get_attribute('", v, "') is not None"); }
      else { MentionsBoth("(await ", s, ".getAttribute('", v, "')) !== null"); }
  }

  /**
   * The check is empty exactly when the type or the selector is missing,
   * the type is unknown, or a type that compares against a value has none;
   * otherwise it is the condition's expression over the selector.
   */
  lemma GenerateConditionCheckFacts(kind: JsStr, value: JsStr, selector: JsStr, pythonLike: bool)
    ensures var r := GenerateConditionCheck(kind, value, selector, pythonLike);
      r == "" <==>
        !Truthy(kind) || !Truthy(selector) || ConditionOf(kind.value).None? ||
        (ConditionOf(kind.value) != Some(IsVisible) && !Truthy(value))
    ensures var r := GenerateConditionCheck(kind, value, selector, pythonLike);
      r != "" ==> Contains(r, selector.value)
  {
    if Truthy(kind) && Truthy(selector) && ConditionOf(kind.value).Some? {
      ConditionCodeMentions(ConditionOf(kind.value).value, OrEmpty(value), selector.value, pythonLike);
    }
  }
}
