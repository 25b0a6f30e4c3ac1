/**
 * The code the generator writes for the three flow actions a user builds
 * in the recorder's panels: a conditional action (act on an element when a
 * condition on it holds), a relative action (act on an element found from
 * another one by a DOM relation) and a loop action (act on every element a
 * selector matches). Each has a Playwright-Python and a
 * Playwright-JavaScript builder; the Python ones return lines, the
 * JavaScript ones one string, possibly with newlines.
 *
 * The element references these actions carry hold Playwright locator
 * expressions (`page.locator(...)`), which the builders paste in as they are.
 */
module FlowActions {
  import opened JsStrings
  import opened EventRecords
  import opened CodeGenerator
  import opened CodeEmitter

  /** `x || d` for a string property. */
  function TextOr(x: Slot<string>, d: string): string
  {
    if x.Val? && x.value != "" then x.value else d
  }

  /** `ref.selector` for an element reference that may be missing. */
  function RefSelector(r: Slot<ElementRef>): JsStr
  {
    if r.Val? then r.value.selector else None
  }

  /** `s.replace(/^\./, '')`: one leading dot removed. */
  function StripDot(s: string): (r: string)
    ensures |s| > 0 && s[0] == '.' ==> r == s[1..]
    ensures !(|s| > 0 && s[0] == '.') ==> r == s
  {
    if |s| > 0 && s[0] == '.' then s[1..] else s
  }

  /** `s.replace(pattern, rep)` with a string pattern: the first occurrence only. */
  function ReplaceFirst(s: string, pattern: string, rep: string): string
  {
    var k := IndexOf(s, pattern);
    if k < 0 then s else s[..k] + rep + s[k + |pattern|..]
  }

  /**
   * A selector that starts with the base variable has that variable, and
   * only it, renamed; one that does not contain it is left alone.
   */
  lemma ReplaceFirstAtStart(s: string, pattern: string, rep: string)
    ensures StartsWith(s, pattern) ==> ReplaceFirst(s, pattern, rep) == rep + s[|pattern|..]
    ensures !Contains(s, pattern) ==> ReplaceFirst(s, pattern, rep) == s
  {
    if StartsWith(s, pattern) {
      assert OccursAt(s, pattern, 0);
    }
  }

  /** `target.replace(/^\./, '').split('[')[0]`: the tag an XPath step names. */
  function TagOf(targetSelector: string): (r: string)
    ensures '[' !in r
    ensures StartsWith(StripDot(targetSelector), r)
  {
    BeforeFirst(StripDot(targetSelector), '[')
  }

  // ---------------------------------------------------------------------
  // Conditions and actions on one element
  // ---------------------------------------------------------------------

  /**
   * The Python condition on element `sel`. The loop builder knows only the
   * visibility and text conditions (`attributes` false); the conditional
   * builder also the class and attribute ones.
   */
  function ConditionCheckPython(sel: string, conditionType: string, conditionValue: string, attributes: bool): string
  {
    if conditionType == "is_visible" then sel + ".is_visible()"
    else if conditionType == "text_contains" && conditionValue != "" then
      Quoted(conditionValue) + " in " + sel + ".inner_text()"
    else if conditionType == "text_equals" && conditionValue != "" then
      sel + ".inner_text() == " + Quoted(conditionValue)
    else if attributes && conditionType == "class_name" && conditionValue != "" then
      sel + ".get_attribute('class') and " + Quoted(StripDot(conditionValue)) + " in " + sel + ".get_attribute('class')"
    else if attributes && conditionType == "has_attribute" && conditionValue != "" then
      sel + ".get_attribute('" + EscapeForDoubleQuotes(Some(conditionValue)) + "') is not None"
    else sel + ".is_visible()"
  }

  /** The JavaScript condition on element `sel`, with the same cases. */
  function ConditionCheckJs(sel: string, conditionType: string, conditionValue: string, attributes: bool): string
  {
    if conditionType == "is_visible" then "await " + sel + ".isVisible()"
    else if conditionType == "text_contains" && conditionValue != "" then
      "(await " + sel + ".innerText()).includes(" + Quoted(conditionValue) + ")"
    else if conditionType == "text_equals" && conditionValue != "" then
      "(await " + sel + ".innerText()) === " + Quoted(conditionValue)
    else if attributes && conditionType == "class_name" && conditionValue != "" then
      "(await " + sel + ".getAttribute('class'))?.includes(" + Quoted(StripDot(conditionValue)) + ")"
    else if attributes && conditionType == "has_attribute" && conditionValue != "" then
      "(await " + sel + ".getAttribute('" + EscapeForDoubleQuotes(Some(conditionValue)) + "')) !== null"
    else "await " + sel + ".isVisible()"
  }

  /** A condition the builders know nothing about is a visibility check. */
  predicate UnknownCondition(conditionType: string, conditionValue: string, attributes: bool)
  {
    && conditionType != "is_visible"
    && (conditionValue == "" || (conditionType != "text_contains" && conditionType != "text_equals"
        && (!attributes || (conditionType != "class_name" && conditionType != "has_attribute"))))
  }

  /**
   * An unknown condition type, or a known one with no value to compare,
   * checks that the element is visible, in both languages.
   */
  lemma UnknownConditionIsVisibility(sel: string, conditionType: string, conditionValue: string, attributes: bool)
    requires UnknownCondition(conditionType, conditionValue, attributes)
    ensures ConditionCheckPython(sel, conditionType, conditionValue, attributes)
            == ConditionCheckPython(sel, "is_visible", conditionValue, attributes)
    ensures ConditionCheckJs(sel, conditionType, conditionValue, attributes)
            == ConditionCheckJs(sel, "is_visible", conditionValue, attributes)
  {
  }

  /** The text a Python `text_contains` or `text_equals` condition compares with is a literal that reads back as that text. */
  lemma TextConditionLiteralsPython(sel: string, conditionValue: string, attributes: bool)
    requires conditionValue != ""
    ensures Quotes(ConditionCheckPython(sel, "text_contains", conditionValue, attributes), "", conditionValue, " in " + sel + ".inner_text()")
    ensures Quotes(ConditionCheckPython(sel, "text_equals", conditionValue, attributes), sel + ".inner_text() == ", conditionValue, "")
  {
    QuotedDenotes("", conditionValue, " in " + sel + ".inner_text()");
    assert ConditionCheckPython(sel, "text_contains", conditionValue, attributes)
        == "" + Quoted(conditionValue) + " in " + sel + ".inner_text()";
    QuotedDenotes(sel + ".inner_text() == ", conditionValue, "");
    assert ConditionCheckPython(sel, "text_equals", conditionValue, attributes)
        == sel + ".inner_text() == " + Quoted(conditionValue) + "";
  }

  /** The same for the JavaScript conditions. */
  lemma TextConditionLiteralsJs(sel: string, conditionValue: string, attributes: bool)
    requires conditionValue != ""
    ensures Quotes(ConditionCheckJs(sel, "text_contains", conditionValue, attributes), "(await " + sel + ".innerText()).includes(", conditionValue, ")")
    ensures Quotes(ConditionCheckJs(sel, "text_equals", conditionValue, attributes), "(await " + sel + ".innerText()) === ", conditionValue, "")
  {
    QuotedDenotes("(await " + sel + ".innerText()).includes(", conditionValue, ")");
    QuotedDenotes("(await " + sel + ".innerText()) === ", conditionValue, "");
    assert ConditionCheckJs(sel, "text_equals", conditionValue, attributes)
        == "(await " + sel + ".innerText()) === " + Quoted(conditionValue) + "";
  }

  /** The Python action on element `target`, without its `await`. */
  function ElementActionPython(target: string, actionType: string, actionValue: string): string
  {
    if actionType == "click" then target + ".click()"
    else if actionType == "type" && actionValue != "" then target + ".fill(" + Quoted(actionValue) + ")"
    else if actionType == "hover" then target + ".hover()"
    else if actionType == "doubleClick" then target + ".dblclick()"
    else if actionType == "rightClick" then target + ".click(button=\"right\")"
    else target + ".click()"
  }

  /** The JavaScript statement acting on element `target`. */
  function ElementActionJs(target: string, actionType: string, actionValue: string): string
  {
    if actionType == "click" then "await " + target + ".click();"
    else if actionType == "type" && actionValue != "" then "await " + target + ".fill(" + Quoted(actionValue) + ");"
    else if actionType == "hover" then "await " + target + ".hover();"
    else if actionType == "doubleClick" then "await " + target + ".dblclick();"
    else if actionType == "rightClick" then "await " + target + ".click({ button: 'right' });"
    else "await " + target + ".click();"
  }

  /**
   * A `type` action with a value fills the element with a literal that
   * reads back as the value; an unknown action type, or `type` with no
   * value, clicks.
   */
  lemma ElementActionFacts(target: string, actionType: string, actionValue: string)
    ensures actionValue != "" ==> Quotes(ElementActionPython(target, "type", actionValue), target + ".fill(", actionValue, ")")
    ensures actionValue != "" ==> Quotes(ElementActionJs(target, "type", actionValue), "await " + target + ".fill(", actionValue, ");")
    ensures actionType !in {"click", "type", "hover", "doubleClick", "rightClick"} || (actionType == "type" && actionValue == "") ==>
              ElementActionPython(target, actionType, actionValue) == target + ".click()"
              && ElementActionJs(target, actionType, actionValue) == "await " + target + ".click();"
  {
    QuotedDenotes(target + ".fill(", actionValue, ")");
    QuotedDenotes("await " + target + ".fill(", actionValue, ");");
  }

  // ---------------------------------------------------------------------
  // buildConditionalActionPython / buildConditionalActionJS
  // ---------------------------------------------------------------------

  /** The two Python lines of a conditional action on its condition element, whatever the event's action. */
  function ConditionalLinesPython(ev: EventRecord): Option<seq<string>>
  {
    var sel := RefSelector(ev.conditionElement);
    if !Truthy(sel) then None
    else
      Some(["if await " + ConditionCheckPython(sel.value, TextOr(ev.conditionType, "is_visible"), TextOr(ev.conditionValue, ""), true) + ":",
            "    await " + ElementActionPython(sel.value, TextOr(ev.actionType, "click"), OrEmpty(ev.value))])
  }

  /** The JavaScript `if` block of a conditional action, whatever the event's action. */
  function ConditionalCodeJs(ev: EventRecord): JsStr
  {
    var sel := RefSelector(ev.conditionElement);
    if !Truthy(sel) then None
    else
      Some("if (" + ConditionCheckJs(sel.value, TextOr(ev.conditionType, "is_visible"), TextOr(ev.conditionValue, ""), true) + ") {\n  "
           + ElementActionJs(sel.value, TextOr(ev.actionType, "click"), OrEmpty(ev.value)) + "\n}")
  }

  /** `buildConditionalActionPython(ev, base)`. */
  function ConditionalPython(ev: EventRecord): Option<seq<string>>
  {
    if ev.action != Some("conditionalAction") then None else ConditionalLinesPython(ev)
  }

  /** `buildConditionalActionJS(ev, base)`. */
  function ConditionalJs(ev: EventRecord): JsStr
  {
    if ev.action != Some("conditionalAction") then None else ConditionalCodeJs(ev)
  }

  /**
   * A conditional action produces code exactly when the event is a
   * conditional action with a condition element that has a selector; the
   * Python code is an `if` line and one statement indented under it that
   * acts on the same element, the JavaScript code an `if` block.
   */
  lemma ConditionalProduced(ev: EventRecord)
    ensures ConditionalPython(ev).Some? <==> ev.action == Some("conditionalAction") && Truthy(RefSelector(ev.conditionElement))
    ensures ConditionalJs(ev).Some? <==> ConditionalPython(ev).Some?
    ensures ConditionalPython(ev).Some? ==>
              var lines := ConditionalPython(ev).value;
              var sel := RefSelector(ev.conditionElement).value;
              |lines| == 2 && StartsWith(lines[0], "if await ") && EndsWith(lines[0], ":")
              && StartsWith(lines[1], "    await " + sel + ".")
    ensures ConditionalJs(ev).Some? ==>
              StartsWith(ConditionalJs(ev).value, "if (") && EndsWith(ConditionalJs(ev).value, "\n}")
  {
    if ConditionalPython(ev).Some? {
      var sel := RefSelector(ev.conditionElement).value;
      var line := "    await " + ElementActionPython(sel, TextOr(ev.actionType, "click"), OrEmpty(ev.value));
      assert ElementActionPython(sel, TextOr(ev.actionType, "click"), OrEmpty(ev.value)) == sel + "." + ElementActionPython(sel, TextOr(ev.actionType, "click"), OrEmpty(ev.value))[|sel| + 1..];
      assert line[..|"    await " + sel + "."|] == "    await " + sel + ".";
    }
  }

  // ---------------------------------------------------------------------
  // buildRelativeActionPython / buildRelativeActionJS
  // ---------------------------------------------------------------------

  /** The element reference the user picked for a relation, if any; only the ancestor, sibling and child relations read one. */
  function PickedFor(ev: EventRecord, relation: string): JsStr
  {
    if relation == "ancestor" then RefSelector(ev.ancestorElement)
    else if relation == "sibling" then RefSelector(ev.siblingElement)
    else if relation == "child" then RefSelector(ev.childElement)
    else None
  }

  /** The XPath or CSS step from the base element for a relation, when nothing was picked. */
  function SearchStep(relation: string, targetSelector: string): string
  {
    if relation == "parent" then
      if targetSelector != "" then "xpath=..').locator('" + targetSelector else ".."
    else if relation == "ancestor" then AxisStep("xpath=ancestor", targetSelector)
    else if relation == "sibling" then AxisStep("xpath=../following-sibling", targetSelector)
    else
      if targetSelector != "" then targetSelector else "*"
  }

  /** The first element along an XPath axis with the target's tag, or with any tag. */
  function AxisStep(axis: string, targetSelector: string): string
  {
    if targetSelector != "" then axis + "::" + TagOf(targetSelector) + "[1]" else axis + "::*[1]"
  }

  /** The relations a relative action knows. */
  predicate KnownRelation(relation: string)
  {
    relation == "parent" || relation == "ancestor" || relation == "sibling" || relation == "child"
  }

  /**
   * The locator of the element a relative action acts on, found from
   * `baseSelector` by `relation`; `picked` is the element the user picked
   * for that relation.
   */
  function RelativeTarget(relation: string, targetSelector: string, picked: JsStr, baseSelector: string): string
  {
    if !KnownRelation(relation) then baseSelector
    else if relation != "parent" && Truthy(picked) then picked.value
    else baseSelector + ".locator('" + SearchStep(relation, targetSelector) + "')"
  }

  /** `targetSelectorCode` of a relative action on base element `baseSelector`. */
  function TargetSelectorCode(ev: EventRecord, baseSelector: string): string
  {
    var relation := TextOr(ev.targetRelation, "parent");
    RelativeTarget(relation, TextOr(ev.targetSelector, ""), PickedFor(ev, relation), baseSelector)
  }

  /** For the ancestor, sibling and child relations an element the user picked wins over any search. */
  lemma RelativeTargetPicked(relation: string, targetSelector: string, picked: JsStr, baseSelector: string)
    requires KnownRelation(relation) && relation != "parent" && Truthy(picked)
    ensures RelativeTarget(relation, targetSelector, picked, baseSelector) == picked.value
  {
  }

  /** Otherwise each known relation searches from the base element. */
  lemma RelativeTargetSearches(relation: string, targetSelector: string, picked: JsStr, baseSelector: string)
    requires KnownRelation(relation) && (relation == "parent" || !Truthy(picked))
    ensures StartsWith(RelativeTarget(relation, targetSelector, picked, baseSelector), baseSelector + ".locator('")
  {
    var p := baseSelector + ".locator('";
    var t := RelativeTarget(relation, targetSelector, picked, baseSelector);
    assert t == p + (SearchStep(relation, targetSelector) + "')");
    assert t[..|p|] == p;
  }

  /** The ancestor and sibling searches name the bare tag of the target selector, without class dot or attribute filter. */
  lemma RelativeTargetTag(relation: string, targetSelector: string, picked: JsStr, baseSelector: string)
    requires relation == "ancestor" || relation == "sibling"
    requires targetSelector != "" && !Truthy(picked)
    ensures '[' !in TagOf(targetSelector)
    ensures EndsWith(RelativeTarget(relation, targetSelector, picked, baseSelector), "::" + TagOf(targetSelector) + "[1]')")
  {
    var axis := if relation == "ancestor" then "xpath=ancestor" else "xpath=../following-sibling";
    assert SearchStep(relation, targetSelector) == AxisStep(axis, targetSelector);
    AxisStepEnds(baseSelector + ".locator('", axis, targetSelector);
  }

  lemma AxisStepEnds(prefix: string, axis: string, targetSelector: string)
    requires targetSelector != ""
    ensures EndsWith(prefix + AxisStep(axis, targetSelector) + "')", "::" + TagOf(targetSelector) + "[1]')")
  {
    var q := "::" + TagOf(targetSelector) + "[1]')";
    var head := prefix + axis;
    assert prefix + AxisStep(axis, targetSelector) + "')" == head + q;
    assert (head + q)[|head|..] == q;
  }

  /** An unknown relation acts on the base element itself. */
  lemma RelativeTargetUnknown(relation: string, targetSelector: string, picked: JsStr, baseSelector: string)
    requires !KnownRelation(relation)
    ensures RelativeTarget(relation, targetSelector, picked, baseSelector) == baseSelector
  {
  }

  /** A missing or empty relation is `parent`. */
  lemma MissingRelationIsParent(ev: EventRecord, baseSelector: string)
    requires !(ev.targetRelation.Val? && ev.targetRelation.value != "")
    ensures TargetSelectorCode(ev, baseSelector)
            == RelativeTarget("parent", TextOr(ev.targetSelector, ""), None, baseSelector)
  {
  }

  /** `buildRelativeActionPython(ev, base)`. */
  function RelativePython(ev: EventRecord): JsStr
  {
    var sel := RefSelector(ev.conditionElement);
    if ev.action != Some("relativeAction") || !Truthy(sel) then None
    else Some("await " + ElementActionPython(TargetSelectorCode(ev, sel.value), TextOr(ev.actionType, "click"), OrEmpty(ev.value)))
  }

  /** `buildRelativeActionJS(ev, base)`. */
  function RelativeJs(ev: EventRecord): JsStr
  {
    var sel := RefSelector(ev.conditionElement);
    if ev.action != Some("relativeAction") || !Truthy(sel) then None
    else Some(ElementActionJs(TargetSelectorCode(ev, sel.value), TextOr(ev.actionType, "click"), OrEmpty(ev.value)))
  }

  /**
   * A relative action produces code exactly when the event is a relative
   * action whose base element has a selector, and then one awaited
   * statement on the target element in each language.
   */
  lemma RelativeProduced(ev: EventRecord)
    ensures RelativePython(ev).Some? <==> ev.action == Some("relativeAction") && Truthy(RefSelector(ev.conditionElement))
    ensures RelativeJs(ev).Some? <==> RelativePython(ev).Some?
    ensures RelativePython(ev).Some? ==>
              var target := TargetSelectorCode(ev, RefSelector(ev.conditionElement).value);
              StartsWith(RelativePython(ev).value, "await " + target + ".")
              && StartsWith(RelativeJs(ev).value, "await " + target + ".")
              && EndsWith(RelativeJs(ev).value, ");")
  {
    if RelativePython(ev).Some? {
      var target := TargetSelectorCode(ev, RefSelector(ev.conditionElement).value);
      ElementActionPythonShape(target, TextOr(ev.actionType, "click"), OrEmpty(ev.value));
      ElementActionJsShape(target, TextOr(ev.actionType, "click"), OrEmpty(ev.value));
      StartsWithPrepend("await ", ElementActionPython(target, TextOr(ev.actionType, "click"), OrEmpty(ev.value)), target + ".");
      assert "await " + (target + ".") == "await " + target + ".";
    }
  }

  /** Every Python element action is a call on the target. */
  lemma ElementActionPythonShape(target: string, actionType: string, actionValue: string)
    ensures StartsWith(ElementActionPython(target, actionType, actionValue), target + ".")
  {
    if actionType == "type" && actionValue != "" {
      var q := Quoted(actionValue);
      StartsWithPrepend(target, ".fill(", ".");
      StartsWithAppend(target + ".fill(", q, target + ".");
      StartsWithAppend(target + ".fill(" + q, ")", target + ".");
    } else {
      var call := if actionType == "hover" then ".hover()" else if actionType == "doubleClick" then ".dblclick()"
                  else if actionType == "rightClick" then ".click(button=\"right\")" else ".click()";
      assert ElementActionPython(target, actionType, actionValue) == target + call;
      StartsWithPrepend(target, call, ".");
    }
  }

  /** Every JavaScript element action awaits a call on the target and ends the statement. */
  lemma ElementActionJsShape(target: string, actionType: string, actionValue: string)
    ensures StartsWith(ElementActionJs(target, actionType, actionValue), "await " + target + ".")
    ensures EndsWith(ElementActionJs(target, actionType, actionValue), ");")
  {
    var head := "await " + target;
    if actionType == "type" && actionValue != "" {
      var q := Quoted(actionValue);
      StartsWithPrepend(head, ".fill(", ".");
      StartsWithAppend(head + ".fill(", q, head + ".");
      StartsWithAppend(head + ".fill(" + q, ");", head + ".");
      assert EndsWith(");", ");");
      EndsWithPrepend(head + ".fill(" + q, ");", ");");
    } else {
      var call := if actionType == "hover" then ".hover();" else if actionType == "doubleClick" then ".dblclick();"
                  else if actionType == "rightClick" then ".click({ button: 'right' });" else ".click();";
      assert ElementActionJs(target, actionType, actionValue) == head + call;
      StartsWithPrepend(head, call, ".");
      EndsWithPrepend(head, call, ");");
    }
  }

  // ---------------------------------------------------------------------
  // buildLoopActionPython / buildLoopActionJS
  // ---------------------------------------------------------------------

  /** The loop mode runs over every match of a non-empty loop selector. */
  predicate LoopsOverItems(ev: EventRecord)
  {
    TextOr(ev.loopMode, "single") == "loop" && Truthy(ev.loopSelector)
  }

  /** The statement on the current `item`: a fill for `type` with a value, else a click. */
  function ItemActionPython(ev: EventRecord): (r: string)
    ensures StartsWith(r, "await item.")
  {
    var actionType := TextOr(ev.actionType, "click");
    var actionValue := OrEmpty(ev.value);
    if actionType == "click" then "await item.click()"
    else if actionType == "type" && actionValue != "" then "await item.fill(" + Quoted(actionValue) + ")"
    else "await item.click()"
  }

  /** The JavaScript statement on the current `item`. */
  function ItemActionJs(ev: EventRecord): (r: string)
    ensures StartsWith(r, "await item.") && EndsWith(r, ";")
  {
    var actionType := TextOr(ev.actionType, "click");
    var actionValue := OrEmpty(ev.value);
    if actionType == "click" then "await item.click();"
    else if actionType == "type" && actionValue != "" then "await item.fill(" + Quoted(actionValue) + ");"
    else "await item.click();"
  }

  /** The condition of a loop, on its condition element with the base variable renamed to `item`. */
  function LoopConditionPython(ev: EventRecord, base: string, sel: string): string
  {
    ConditionCheckPython(ReplaceFirst(sel, base, "item"), TextOr(ev.conditionType, "is_visible"), TextOr(ev.conditionValue, ""), false)
  }

  function LoopConditionJs(ev: EventRecord, base: string, sel: string): string
  {
    ConditionCheckJs(ReplaceFirst(sel, base, "item"), TextOr(ev.conditionType, "is_visible"), TextOr(ev.conditionValue, ""), false)
  }

  /** The Python lines of the loop mode. */
  function LoopLinesPython(ev: EventRecord, base: string): seq<string>
    requires LoopsOverItems(ev)
  {
    var header := ["items = " + base + ".locator('" + ev.loopSelector.value + "')",
                   "count = await items.count()",
                   "for i in range(count):",
                   "    item = items.nth(i)"];
    var sel := RefSelector(ev.conditionElement);
    if Truthy(sel) then header + ["    if await " + LoopConditionPython(ev, base, sel.value) + ":", "        " + ItemActionPython(ev)]
    else header + ["    " + ItemActionPython(ev)]
  }

  /** The JavaScript code of the loop mode. */
  function LoopCodeJs(ev: EventRecord, base: string): string
    requires LoopsOverItems(ev)
  {
    var header := "const items = " + base + ".locator('" + ev.loopSelector.value + "');\n"
                  + "const count = await items.count();\n"
                  + "for (let i = 0; i < count; i++) {\n"
                  + "  const item = items.nth(i);\n";
    var sel := RefSelector(ev.conditionElement);
    var body := if Truthy(sel) then "  if (" + LoopConditionJs(ev, base, sel.value) + ") {\n" + "    " + ItemActionJs(ev) + "\n" + "  }\n"
                else "  " + ItemActionJs(ev) + "\n";
    header + body + "}"
  }

  /**
   * `buildLoopActionPython(ev, base)`: outside the loop mode it hands the
   * event to the conditional builder, which turns away every event whose
   * action is not `conditionalAction`.
   */
  function LoopPython(ev: EventRecord, base: string): Option<seq<string>>
  {
    if ev.action != Some("loopAction") then None
    else if LoopsOverItems(ev) then Some(LoopLinesPython(ev, base))
    else ConditionalPython(ev)
  }

  /** `buildLoopActionJS(ev, base)`. */
  function LoopJs(ev: EventRecord, base: string): JsStr
  {
    if ev.action != Some("loopAction") then None
    else if LoopsOverItems(ev) then Some(LoopCodeJs(ev, base))
    else ConditionalJs(ev)
  }

  /** A loop action in single mode produces no code at all, whatever its condition element. */
  lemma LoopSingleIsEmpty(ev: EventRecord, base: string)
    requires ev.action == Some("loopAction") && !LoopsOverItems(ev)
    ensures LoopPython(ev, base) == None
    ensures LoopJs(ev, base) == None
  {
  }

  /**
   * `buildLoopActionPython(ev, base)` as evidently intended: the single
   * mode acts once, as a conditional action on the condition element.
   */
  function LoopPythonIntended(ev: EventRecord, base: string): Option<seq<string>>
  {
    if ev.action != Some("loopAction") then None
    else if LoopsOverItems(ev) then Some(LoopLinesPython(ev, base))
    else ConditionalLinesPython(ev)
  }

  /** `buildLoopActionJS(ev, base)` as evidently intended. */
  function LoopJsIntended(ev: EventRecord, base: string): JsStr
  {
    if ev.action != Some("loopAction") then None
    else if LoopsOverItems(ev) then Some(LoopCodeJs(ev, base))
    else ConditionalCodeJs(ev)
  }

  /**
   * A loop action in single mode writes exactly what a conditional action
   * with the same fields writes, and so produces code whenever it has a
   * condition element with a selector; only the loop mode differs.
   */
  lemma LoopSingleIsConditional(ev: EventRecord, base: string)
    requires ev.action == Some("loopAction") && !LoopsOverItems(ev)
    ensures LoopPythonIntended(ev, base) == ConditionalPython(ev.(action := Some("conditionalAction")))
    ensures LoopJsIntended(ev, base) == ConditionalJs(ev.(action := Some("conditionalAction")))
    ensures LoopPythonIntended(ev, base).Some? <==> Truthy(RefSelector(ev.conditionElement))
  {
  }

  /**
   * In the loop mode the Python code fetches the matches of the loop
   * selector, counts them and runs over them: four header lines, then the
   * body, every body line indented under the `for`, with the condition
   * line (when there is a condition element) before the one action line.
   */
  lemma LoopLinesShape(ev: EventRecord, base: string)
    requires LoopsOverItems(ev)
    ensures var lines := LoopLinesPython(ev, base);
            && lines[0] == "items = " + base + ".locator('" + ev.loopSelector.value + "')"
            && lines[2] == "for i in range(count):"
            && |lines| == (if Truthy(RefSelector(ev.conditionElement)) then 6 else 5)
            && (forall j :: 3 <= j < |lines| ==> StartsWith(lines[j], "    "))
            && StartsWith(lines[|lines| - 1], (if |lines| == 6 then "        " else "    ") + "await item.")
  {
    var lines := LoopLinesPython(ev, base);
    var sel := RefSelector(ev.conditionElement);
    var cond := if Truthy(sel) then LoopConditionPython(ev, base, sel.value) else "";
    LoopBodyShape(cond, ItemActionPython(ev));
    assert StartsWith(lines[3], "    ");
  }

  /** The lines under the `for`: a condition line at four spaces, the action at four or eight. */
  lemma LoopBodyShape(cond: string, action: string)
    requires StartsWith(action, "await item.")
    ensures StartsWith("    if await " + cond + ":", "    ")
    ensures StartsWith("        " + action, "    ") && StartsWith("        " + action, "        await item.")
    ensures StartsWith("    " + action, "    ") && StartsWith("    " + action, "    await item.")
  {
    assert StartsWith("    ", "    ");
    StartsWithAppend("    ", "if await ", "    ");
    StartsWithAppend("    if await ", cond, "    ");
    StartsWithAppend("    if await " + cond, ":", "    ");
    StartsWithPrepend("        ", action, "await item.");
    StartsWithPrepend("    ", action, "await item.");
    StartsWithAppend("    ", action, "    ");
    StartsWithAppend("    ", "    ", "    ");
    StartsWithAppend("    " + "    ", action, "    ");
    assert "    " + "    " == "        ";
  }

  /** The JavaScript loop mode declares the matches of the loop selector first and closes the `for` block last. */
  lemma LoopCodeShape(ev: EventRecord, base: string)
    requires LoopsOverItems(ev)
    ensures StartsWith(LoopCodeJs(ev, base), "const items = " + base + ".locator('" + ev.loopSelector.value + "');\n")
            && EndsWith(LoopCodeJs(ev, base), "}")
  {
    var js := LoopCodeJs(ev, base);
    var q := "const items = " + base + ".locator('" + ev.loopSelector.value + "');\n";
    assert js[..|q|] == q;
  }

  /** A `type` loop with a value fills every item with a literal that reads back as the value. */
  lemma LoopFillLiteral(ev: EventRecord)
    requires TextOr(ev.actionType, "click") == "type" && Truthy(ev.value)
    ensures Quotes(ItemActionPython(ev), "await item.fill(", ev.value.value, ")")
    ensures Quotes(ItemActionJs(ev), "await item.fill(", ev.value.value, ");")
  {
    QuotedDenotes("await item.fill(", ev.value.value, ")");
    QuotedDenotes("await item.fill(", ev.value.value, ");");
  }
}
