/**
 * The element-selection workflow of the recorder side panel
 * (`recorder-selection.js`): the multi-step workflow state, which keeps a
 * stack of picked elements, and the simple one-shot selection used by
 * "add assertion" and "add wait".
 *
 * The two module-level records are classes whose methods update their
 * fields. The status line, the DOM panels and the messages to the content
 * script are not state of the model; a message sent is reported as an
 * out-parameter, and the callback of a simple selection is returned as the
 * invocation the source performs.
 */
module RecorderSelection {
  import opened JsStrings
  import opened Candidates
  import SelectorUtils
  import EventRecords

  /** `selectionState.stage`. */
  datatype Stage = Idle | AwaitRoot | AwaitCandidate | AwaitAction | AwaitChild | AwaitParent

  /** The element description the content script sends with a pick. */
  datatype PickedElement = PickedElement(
    text: JsStr, iframeContext: Option<EventRecords.FrameContext>, tag: JsStr, id: JsStr, className: JsStr, value: JsStr)

  /** The empty object `{}`. */
  const NoElement := PickedElement(None, None, None, None, None, None)

  /** A picked element on the workflow stack. */
  datatype SelectionNode = SelectionNode(
    element: PickedElement,
    candidates: seq<Candidate>,
    selectedCandidate: Option<Candidate>,
    stage: string)

  /** One entry of a selection path. */
  datatype PathItem = PathItem(
    selector: JsStr,
    kind: string,
    textValue: JsStr,
    xpathValue: JsStr,
    relation: JsStr,
    reason: JsStr,
    matchMode: JsStr,
    iframeContext: Option<EventRecords.FrameContext>)

  /** `candidate.type || inferSelectorType(candidate.selector)`. */
  function TypeOf(c: Candidate): (r: string)
    ensures Truthy(c.selectorType) ==> r == c.selectorType.value
    ensures !Truthy(c.selectorType) ==> r == SelectorUtils.InferSelectorType(c.selector)
  {
    if Truthy(c.selectorType) then c.selectorType.value else SelectorUtils.InferSelectorType(c.selector)
  }

  /** `{...candidate, type: candidate.type || inferSelectorType(candidate.selector)}`. */
  function Typed(c: Candidate): (r: Candidate)
  {
    c.(selectorType := Some(TypeOf(c)))
  }

  /** Typing a candidate keeps its type and changes nothing else once done. */
  lemma TypedFacts(c: Candidate)
    ensures TypeOf(Typed(c)) == TypeOf(c)
    ensures Typed(c).selector == c.selector
    ensures Typed(Typed(c)) == Typed(c)
  {
    SelectorUtils.InferSelectorTypeKnown(c.selector);
  }

  /** `x || null`. */
  function OrNull(x: JsStr): (r: JsStr)
  {
    OrElse(x, None)
  }

  /** The path entry `buildSelectionPathArray` makes of a node with a selected candidate. */
  function PathItemOf(node: SelectionNode): (r: PathItem)
    requires node.selectedCandidate.Some?
  {
    var c := node.selectedCandidate.value;
    PathItem(c.selector, TypeOf(c), OrNull(c.textValue), OrNull(c.xpathValue), OrNull(c.relation),
             OrElse(c.reason, Some("")), OrNull(c.matchMode), node.element.iframeContext)
  }

  /** `buildSelectionPathArray`: the stack mapped to path entries, dropping nodes without a choice. */
  function PathArray(stack: seq<SelectionNode>): (r: seq<PathItem>)
    ensures |r| <= |stack|
  {
    if stack == [] then []
    else (if stack[0].selectedCandidate.Some? then [PathItemOf(stack[0])] else []) + PathArray(stack[1..])
  }

  /** The number of nodes with a selected candidate. */
  function CountSelected(stack: seq<SelectionNode>): nat
  {
    if stack == [] then 0
    else (if stack[0].selectedCandidate.Some? then 1 else 0) + CountSelected(stack[1..])
  }

  /**
   * One path entry per node with a selected candidate, in stack order: the
   * path is as long as there are such nodes, and the node at position `i`
   * lands at the position counting the selected nodes before it.
   */
  lemma {:induction false} PathArrayFacts(stack: seq<SelectionNode>)
    ensures |PathArray(stack)| == CountSelected(stack)
    ensures forall i :: 0 <= i < |stack| && stack[i].selectedCandidate.Some? ==>
      CountSelected(stack[..i]) < |PathArray(stack)| && PathArray(stack)[CountSelected(stack[..i])] == PathItemOf(stack[i])
  {
    if stack != [] {
      var rest := stack[1..];
      PathArrayFacts(rest);
      var head := if stack[0].selectedCandidate.Some? then [PathItemOf(stack[0])] else [];
      assert PathArray(stack) == head + PathArray(rest);
      forall i | 0 <= i < |stack| && stack[i].selectedCandidate.Some?
        ensures CountSelected(stack[..i]) < |PathArray(stack)|
        ensures PathArray(stack)[CountSelected(stack[..i])] == PathItemOf(stack[i])
      {
        if i > 0 {
          assert stack[..i][1..] == rest[..i - 1];
          assert stack[..i][0] == stack[0];
          assert rest[i - 1] == stack[i];
        }
      }
    }
  }

  /** Choosing a candidate for the top node adds that node's entry at the end of the path. */
  lemma {:induction false} PathArraySnoc(stack: seq<SelectionNode>, node: SelectionNode)
    ensures PathArray(stack + [node])
            == PathArray(stack) + (if node.selectedCandidate.Some? then [PathItemOf(node)] else [])
    decreases |stack|
  {
    if stack == [] {
      assert PathArray([node]) == (if node.selectedCandidate.Some? then [PathItemOf(node)] else []) + PathArray([]);
    } else {
      assert (stack + [node])[1..] == stack[1..] + [node];
      PathArraySnoc(stack[1..], node);
    }
  }

  /** `selector.replace(/^#/, '')`. */
  function DropHash(s: string): (r: string)
    ensures s == r || s == "#" + r
  {
    if |s| > 0 && s[0] == '#' then s[1..] else s
  }

  /** The framework and language pairs the preview has a locator line for. */
  predicate PreviewSupported(framework: string, language: string)
  {
    (framework == "playwright"
     && (language == "python" || language == "python-class" || language == "javascript" || language == "typescript"))
    || (framework == "selenium" && (language == "python" || language == "python-class"))
    || framework == "cypress"
  }

  /** The locator line of the preview for a supported pair. */
  function PreviewLine(selector: string, selectorType: string, framework: string, language: string): string
  {
    if framework == "playwright" then
      if (language == "python" || language == "python-class") && selectorType == "id" then
        "page.locator(\"#" + DropHash(selector) + "\")"
      else "page.locator(\"" + selector + "\")"
    else if framework == "selenium" then
      if selectorType == "id" then "driver.find_element(By.ID, \"" + DropHash(selector) + "\")"
      else if selectorType == "xpath" then "driver.find_element(By.XPATH, \"" + selector + "\")"
      else "driver.find_element(By.CSS_SELECTOR, \"" + selector + "\")"
    else "cy.get(\"" + selector + "\")"
  }

  /** `buildSelectionPreviewLines`: the locator of the last path entry, or a count line. */
  function PreviewLines(path: seq<PathItem>, framework: string, language: string): (r: seq<string>)
  {
    if path == [] then []
    else
      var last := path[|path| - 1];
      if !Truthy(last.selector) then []
      else
        var selectorType := if last.kind != "" then last.kind else SelectorUtils.InferSelectorType(last.selector);
        if PreviewSupported(framework, language) then [PreviewLine(last.selector.value, selectorType, framework, language)]
        else ["// 선택 경로: " + NatToString(|path|) + "개 요소"]
  }

  lemma DropHashContained(s: string, a: string, b: string)
    ensures Contains(a + s + b, DropHash(s))
  {
    if s == "#" + DropHash(s) {
      ContainsMiddle(a + "#", DropHash(s), b);
      assert a + s + b == a + "#" + DropHash(s) + b;
    } else {
      ContainsMiddle(a, s, b);
    }
  }

  lemma PreviewLineMentions(selector: string, selectorType: string, framework: string, language: string)
    ensures Contains(PreviewLine(selector, selectorType, framework, language), DropHash(selector))
  {
    var line := PreviewLine(selector, selectorType, framework, language);
    if framework == "playwright" {
      if (language == "python" || language == "python-class") && selectorType == "id" {
        ContainsMiddle("page.locator(\"#", DropHash(selector), "\")");
      } else {
        DropHashContained(selector, "page.locator(\"", "\")");
      }
    } else if framework == "selenium" {
      if selectorType == "id" {
        ContainsMiddle("driver.find_element(By.ID, \"", DropHash(selector), "\")");
      } else if selectorType == "xpath" {
        DropHashContained(selector, "driver.find_element(By.XPATH, \"", "\")");
      } else {
        DropHashContained(selector, "driver.find_element(By.CSS_SELECTOR, \"", "\")");
      }
    } else {
      DropHashContained(selector, "cy.get(\"", "\")");
    }
  }

  /**
   * The preview is empty exactly when the path is empty or its last entry
   * has no selector; otherwise it is one line, which names the selector
   * (without a leading `#`) for a supported framework and language and
   * counts the path entries otherwise.
   */
  lemma PreviewLinesFacts(path: seq<PathItem>, framework: string, language: string)
    ensures var r := PreviewLines(path, framework, language);
      && (r == [] <==> (path == [] || !Truthy(path[|path| - 1].selector)))
      && |r| <= 1
      && (r != [] && PreviewSupported(framework, language) ==>
            Contains(r[0], DropHash(path[|path| - 1].selector.value)))
      && (r != [] && !PreviewSupported(framework, language) ==>
            r[0] == "// 선택 경로: " + NatToString(|path|) + "개 요소")
  {
    if path != [] && Truthy(path[|path| - 1].selector) {
      var last := path[|path| - 1];
      var selectorType := if last.kind != "" then last.kind else SelectorUtils.InferSelectorType(last.selector);
      PreviewLineMentions(last.selector.value, selectorType, framework, language);
    }
  }

  /** The pick request the content script receives. */
  datatype PickMessage = PickMessage(
    selectors: Option<seq<Candidate>>,
    element: Option<PickedElement>,
    stage: JsStr)

  /** `(msg.selectors || []).map(...)` with types filled in. */
  function TypedCandidates(msg: PickMessage): (r: seq<Candidate>)
    ensures msg.selectors.Some? ==> |r| == |msg.selectors.value|
    ensures msg.selectors.None? ==> r == []
    ensures forall i :: 0 <= i < |r| ==> r[i] == Typed(msg.selectors.value[i])
  {
    if msg.selectors.None? then []
    else seq(|msg.selectors.value|, i requires 0 <= i < |msg.selectors.value| => Typed(msg.selectors.value[i]))
  }

  /** `msg.element || {}`: the picked element, or one without any field. */
  function ElementOf(msg: PickMessage): PickedElement
  {
    if msg.element.Some? then msg.element.value else NoElement
  }

  /** The node a pick pushes onto `below`: the stage the message names, else `root` for the first and `child` after. */
  function PickedNode(msg: PickMessage, below: seq<SelectionNode>): (r: SelectionNode)
    ensures r.element == ElementOf(msg) && r.candidates == TypedCandidates(msg) && r.selectedCandidate.None?
    ensures !Truthy(msg.stage) ==> (r.stage == "root" <==> below == [])
  {
    SelectionNode(ElementOf(msg), TypedCandidates(msg), None,
      if Truthy(msg.stage) then msg.stage.value else if below == [] then "root" else "child")
  }

  /**
   * Which of the handlers `handleElementSelectionPicked` is passed are
   * present; a missing one is skipped.
   */
  datatype PickHandlers = PickHandlers(assertAfterStep: bool, verify: bool, wait: bool, cancel: bool)

  /** The handler call the pending-action branch makes, if any. */
  datatype PendingCall =
    | AddAssertionAfterStep(stepIndex: int, action: string, path: seq<PathItem>, value: JsStr)
    | AddVerifyAction(action: string, path: seq<PathItem>, value: JsStr)
    | AddWaitAction(path: seq<PathItem>)
    | NoCall

  /**
   * A pick is diverted to the pending action when there is one and a
   * candidate, and the action is a `verify...` one or `waitForElement`
   * with its handler present; any other pending action lets the pick
   * through to the stack.
   */
  predicate DivertsPick(pending: JsStr, candidates: seq<Candidate>, hasWaitHandler: bool)
  {
    && Truthy(pending) && candidates != []
    && (StartsWith(pending.value, "verify") || (pending.value == "waitForElement" && hasWaitHandler))
  }

  /** The text `verifyText` offers: the element's text, else the first candidate's, else empty. */
  function ElementText(msg: PickMessage): (r: string)
    requires TypedCandidates(msg) != []
    ensures Truthy(ElementOf(msg).text) ==> r == ElementOf(msg).text.value
  {
    OrEmpty(OrElse(OrNull(ElementOf(msg).text), TypedCandidates(msg)[0].textValue))
  }

  /**
   * The value a `verify...` action is added with: for `verifyText` the
   * text entered, or the element's text when the entry is empty; no value
   * for any other check.
   */
  function VerifyValue(pending: string, msg: PickMessage, promptReply: Option<string>): (r: JsStr)
    requires TypedCandidates(msg) != []
    ensures pending != "verifyText" ==> r == None
    ensures pending == "verifyText" && promptReply.Some? && promptReply.value != "" ==> r == promptReply
    ensures pending == "verifyText" && promptReply.Some? && promptReply.value == "" ==> r == Some(ElementText(msg))
  {
    if pending == "verifyText" && promptReply.Some? then
      Some(if promptReply.value != "" then promptReply.value else ElementText(msg))
    else None
  }

  /**
   * What the pending-action branch does with a claimed pick: the handler
   * call it makes and the `pendingStepIndex` it leaves. Only an assertion
   * added after a step, or a `verifyText` prompt the user cancels, clears
   * the step index.
   */
  function Dispatched(pending: string, stepIndex: Option<int>, msg: PickMessage, handlers: PickHandlers,
                      promptReply: Option<string>): (r: (PendingCall, Option<int>))
    requires TypedCandidates(msg) != []
    ensures var cancelled := pending == "verifyText" && promptReply.None?;
      && (r.0.AddAssertionAfterStep? <==> StartsWith(pending, "verify") && !cancelled && stepIndex.Some? && handlers.assertAfterStep)
      && (r.0.AddVerifyAction? <==>
            StartsWith(pending, "verify") && !cancelled && !(stepIndex.Some? && handlers.assertAfterStep) && handlers.verify)
      && (r.0.AddWaitAction? <==> !StartsWith(pending, "verify"))
      && (r.1 == if r.0.AddAssertionAfterStep? || cancelled then None else stepIndex)
    ensures r.0.AddAssertionAfterStep? ==> r.0.stepIndex == stepIndex.value
    ensures r.0.AddAssertionAfterStep? || r.0.AddVerifyAction? ==>
      r.0.action == pending && r.0.path == FirstPath(msg) && r.0.value == VerifyValue(pending, msg, promptReply)
    ensures r.0.AddWaitAction? ==> r.0.path == FirstPath(msg)
  {
    if !StartsWith(pending, "verify") then (AddWaitAction(FirstPath(msg)), stepIndex)
    else if pending == "verifyText" && promptReply.None? then (NoCall, None)
    else if stepIndex.Some? && handlers.assertAfterStep then
      (AddAssertionAfterStep(stepIndex.value, pending, FirstPath(msg), VerifyValue(pending, msg, promptReply)), None)
    else if handlers.verify then (AddVerifyAction(pending, FirstPath(msg), VerifyValue(pending, msg, promptReply)), stepIndex)
    else (NoCall, stepIndex)
  }

  /** The workflow's selection record (`selectionState`). */
  class SelectionWorkflow {
    var active: bool
    var stage: Stage
    var stack: seq<SelectionNode>
    var pendingAction: JsStr
    var pendingStepIndex: Option<int>
    var pendingAttribute: string
    var codePreview: string

    constructor()
      ensures !active && stage == Idle && stack == [] && pendingAction == None
      ensures pendingStepIndex == None && pendingAttribute == "" && codePreview == ""
    {
      active := false;
      stage := Idle;
      stack := [];
      pendingAction := None;
      pendingStepIndex := None;
      pendingAttribute := "";
      codePreview := "";
    }

    /** The state `resetSelectionState` leaves, whatever `pendingStepIndex` holds. */
    predicate Cleared()
      reads this
    {
      !active && stage == Idle && stack == [] && pendingAction == None
      && pendingAttribute == "" && codePreview == ""
    }

    /** `resetSelectionState`: everything but `pendingStepIndex` back to its initial value. */
    method Reset()
      modifies this
      ensures Cleared()
      ensures pendingStepIndex == old(pendingStepIndex)
    {
      active := false;
      stage := Idle;
      stack := [];
      pendingAction := None;
      pendingAttribute := "";
      codePreview := "";
    }

    /** `getCurrentSelectionNode`: the top of the stack, if any. */
    function CurrentNode(): (r: Option<SelectionNode>)
      reads this
      ensures r.None? <==> stack == []
      ensures r.Some? ==> r.value in stack && stack == stack[..|stack| - 1] + [r.value]
    {
      if stack == [] then None else Some(stack[|stack| - 1])
    }

    /** `buildSelectionPathArray(selectionState, inferSelectorType)`. */
    function Path(): (r: seq<PathItem>)
      reads this
      ensures |r| == CountSelected(stack)
    {
      PathArrayFacts(stack);
      PathArray(stack)
    }

    /** `startSelectionWorkflow`: a reset that keeps the status line, then waiting for the root pick. */
    method Start()
      modifies this
      ensures active && stage == AwaitRoot && stack == [] && pendingAction == None
      ensures pendingAttribute == "" && codePreview == ""
      ensures pendingStepIndex == old(pendingStepIndex)
    {
      Reset();
      active := true;
      stage := AwaitRoot;
    }

    /**
     * `cancelSelectionWorkflow`: tells the content script to stop when a
     * selection is under way, then resets.
     */
    method Cancel() returns (cancelSent: bool)
      modifies this
      ensures cancelSent <==> old(active) || old(stage) != Idle
      ensures Cleared() && pendingStepIndex == old(pendingStepIndex)
    {
      cancelSent := active || stage != Idle;
      Reset();
    }

    /**
     * The node-pushing branch of `handleElementSelectionPicked`, taken
     * unless the pick is diverted to a pending action: the picked element
     * becomes the new top node, with typed candidates and no choice.
     */
    method PushPickedNode(msg: PickMessage, handlers: PickHandlers)
      requires !DivertsPick(pendingAction, TypedCandidates(msg), handlers.wait)
      modifies this
      ensures active && stage == AwaitCandidate
      ensures stack == old(stack) + [PickedNode(msg, old(stack))]
      ensures CurrentNode() == Some(PickedNode(msg, old(stack)))
      ensures Path() == old(Path())
      ensures pendingAction == old(pendingAction) && pendingStepIndex == old(pendingStepIndex)
      ensures pendingAttribute == old(pendingAttribute) && codePreview == old(codePreview)
    {
      active := true;
      var node := PickedNode(msg, stack);
      PathArraySnoc(stack, node);
      stack := stack + [node];
      stage := AwaitCandidate;
    }

    /**
     * The pending-action branch of `handleElementSelectionPicked`: the
     * first candidate goes to the handler for the pending action and the
     * workflow ends. A `verify...` action goes to `addAssertionAfterStep`
     * when a step index is pending and that handler is given, else to
     * `addVerifyAction` when given; `verifyText` first asks for the text,
     * and a cancelled prompt ends the workflow without a call.
     * `waitForElement` goes to `addWaitAction`.
     */
    method DispatchPending(msg: PickMessage, handlers: PickHandlers, promptReply: Option<string>)
      returns (call: PendingCall, cancelSent: bool)
      requires DivertsPick(pendingAction, TypedCandidates(msg), handlers.wait)
      modifies this
      ensures (call, pendingStepIndex) == Dispatched(old(pendingAction).value, old(pendingStepIndex), msg, handlers, promptReply)
      ensures pendingAction == None
      ensures cancelSent == handlers.cancel
      ensures handlers.cancel ==> Cleared()
      ensures !handlers.cancel ==>
        active && stage == old(stage) && stack == old(stack)
        && pendingAttribute == old(pendingAttribute) && codePreview == old(codePreview)
    {
      active := true;
      var pending := pendingAction.value;
      var path := FirstPath(msg);
      call := NoCall;
      if StartsWith(pending, "verify") {
        if pending == "verifyText" && promptReply.None? {
          pendingAction := None;
          pendingStepIndex := None;
          cancelSent := false;
          if handlers.cancel {
            cancelSent := Cancel();
          }
          return;
        }
        var value := VerifyValue(pending, msg, promptReply);
        if pendingStepIndex.Some? && handlers.assertAfterStep {
          call := AddAssertionAfterStep(pendingStepIndex.value, pending, path, value);
          pendingStepIndex := None;
        } else if handlers.verify {
          call := AddVerifyAction(pending, path, value);
        }
      } else {
        call := AddWaitAction(path);
      }
      pendingAction := None;
      cancelSent := false;
      if handlers.cancel {
        cancelSent := Cancel();
      }
    }

    /**
     * `handleElementSelectionPicked`: a pick that a pending action claims
     * is dispatched to its handler; any other pick is pushed as a node.
     */
    method HandlePicked(msg: PickMessage, handlers: PickHandlers, promptReply: Option<string>)
      returns (call: PendingCall, cancelSent: bool)
      modifies this
      ensures !DivertsPick(old(pendingAction), TypedCandidates(msg), handlers.wait) ==>
        && call == NoCall && !cancelSent && stage == AwaitCandidate
        && stack == old(stack) + [PickedNode(msg, old(stack))] && pendingAction == old(pendingAction)
        && pendingStepIndex == old(pendingStepIndex)
      ensures DivertsPick(old(pendingAction), TypedCandidates(msg), handlers.wait) ==>
        (call, pendingStepIndex) == Dispatched(old(pendingAction).value, old(pendingStepIndex), msg, handlers, promptReply)
      ensures DivertsPick(old(pendingAction), TypedCandidates(msg), handlers.wait) ==>
        && pendingAction == None && cancelSent == handlers.cancel
        && (handlers.cancel ==> Cleared())
        && (!handlers.cancel ==> stack == old(stack) && stage == old(stage))
      ensures active <==> !handlers.cancel || !DivertsPick(old(pendingAction), TypedCandidates(msg), handlers.wait)
    {
      if DivertsPick(pendingAction, TypedCandidates(msg), handlers.wait) {
        call, cancelSent := DispatchPending(msg, handlers, promptReply);
      } else {
        PushPickedNode(msg, handlers);
        call, cancelSent := NoCall, false;
      }
    }

    /**
     * `applyCandidateToNode`: nothing for a missing node; otherwise the node
     * (here: its position in the stack) gets the candidate, typed, as its
     * choice and the workflow waits for an action.
     */
    method ApplyCandidateToNode(k: Option<nat>, candidate: Candidate)
      requires k.Some? ==> k.value < |stack|
      modifies this
      ensures k.None? ==> stack == old(stack) && stage == old(stage)
      ensures k.Some? ==> stack == old(stack)[k.value := old(stack)[k.value].(selectedCandidate := Some(Typed(candidate)))]
      ensures k.Some? ==> stage == AwaitAction
      ensures k.Some? && k.value == |stack| - 1 ==>
        Path() == PathArray(old(stack)[..k.value]) + [PathItemOf(stack[k.value])]
      ensures active == old(active) && pendingAction == old(pendingAction)
      ensures pendingStepIndex == old(pendingStepIndex)
      ensures pendingAttribute == old(pendingAttribute) && codePreview == old(codePreview)
    {
      if k.None? {
        return;
      }
      var i := k.value;
      var node := stack[i].(selectedCandidate := Some(Typed(candidate)));
      if i == |stack| - 1 {
        assert stack[i := node] == stack[..i] + [node];
        PathArraySnoc(stack[..i], node);
      }
      stack := stack[i := node];
      stage := AwaitAction;
    }
  }

  /** A handle for the function the caller of a simple selection passes in. */
  type CallbackId = nat

  /** What the simple selection hands to its callback. */
  datatype ElementInfo = ElementInfo(
    text: string,
    iframeContext: Option<EventRecords.FrameContext>,
    tag: JsStr,
    id: JsStr,
    className: JsStr,
    value: JsStr,
    selectorCandidates: seq<Candidate>)

  /** `callback(path, elementInfo, pendingAction, pendingStepIndex)`. */
  datatype Invocation = Invocation(
    callback: CallbackId,
    path: seq<PathItem>,
    info: ElementInfo,
    pendingAction: JsStr,
    pendingStepIndex: Option<int>)

  /** The one-entry path made from the first candidate of a pick. */
  function FirstPath(msg: PickMessage): (r: seq<PathItem>)
    requires TypedCandidates(msg) != []
    ensures |r| == 1 && r[0].selector == msg.selectors.value[0].selector
    ensures r[0].kind == TypeOf(msg.selectors.value[0])
  {
    var first := TypedCandidates(msg)[0];
    TypedFacts(msg.selectors.value[0]);
    [PathItem(first.selector, TypeOf(first), OrNull(first.textValue), OrNull(first.xpathValue), None,
              None, OrNull(first.matchMode), ElementOf(msg).iframeContext)]
  }

  /** The element description handed to the callback. */
  function InfoOf(msg: PickMessage): (r: ElementInfo)
    requires TypedCandidates(msg) != []
  {
    var first := TypedCandidates(msg)[0];
    var text := OrElse(OrNull(ElementOf(msg).text), OrElse(first.textValue, Some("")));
    ElementInfo(OrEmpty(text), ElementOf(msg).iframeContext, OrNull(ElementOf(msg).tag),
                OrNull(ElementOf(msg).id), OrNull(ElementOf(msg).className),
                OrNull(ElementOf(msg).value), msg.selectors.value)
  }

  /** The start request's reply (`resp`), as far as the start handler reads it. */
  datatype StartReply = StartReply(ok: Option<bool>, reason: JsStr)

  /** The one-shot selection record (`simpleSelectionState`). */
  class SimpleSelection {
    var active: bool
    var callback: Option<CallbackId>
    var pendingAction: JsStr
    var pendingStepIndex: Option<int>

    predicate Cleared()
      reads this
    {
      !active && callback.None? && pendingAction.None? && pendingStepIndex.None?
    }

    constructor()
      ensures Cleared()
    {
      active := false;
      callback := None;
      pendingAction := None;
      pendingStepIndex := None;
    }

    method Clear()
      modifies this
      ensures Cleared()
    {
      active := false;
      callback := None;
      pendingAction := None;
      pendingStepIndex := None;
    }

    /**
     * `startSimpleElementSelection`: cancels a running workflow selection,
     * then records the callback and what to add once an element is picked.
     */
    method Start(cb: Option<CallbackId>, action: JsStr, stepIndex: Option<int>, workflow: SelectionWorkflow)
      returns (workflowCancelSent: bool)
      modifies this, workflow
      ensures active && callback == cb && pendingAction == action && pendingStepIndex == stepIndex
      ensures old(workflow.active) ==> workflow.Cleared() && workflowCancelSent
      ensures !old(workflow.active) ==> !workflowCancelSent
      ensures !old(workflow.active) ==>
        workflow.stage == old(workflow.stage) && workflow.stack == old(workflow.stack)
        && workflow.pendingAction == old(workflow.pendingAction)
      ensures workflow.pendingStepIndex == old(workflow.pendingStepIndex)
    {
      workflowCancelSent := false;
      if workflow.active {
        workflowCancelSent := workflow.Cancel();
      }
      active := true;
      callback := cb;
      pendingAction := action;
      pendingStepIndex := stepIndex;
    }

    /** The reply to the start request: a refusal with a reason clears the record. */
    method StartReplied(reply: Option<StartReply>)
      modifies this
      ensures reply.Some? && reply.value.ok == Some(false) && Truthy(reply.value.reason) ==> Cleared()
      ensures !(reply.Some? && reply.value.ok == Some(false) && Truthy(reply.value.reason)) ==>
        active == old(active) && callback == old(callback)
        && pendingAction == old(pendingAction) && pendingStepIndex == old(pendingStepIndex)
    {
      if reply.Some? && reply.value.ok == Some(false) && Truthy(reply.value.reason) {
        Clear();
      }
    }

    /**
     * `handleSimpleElementSelectionPicked`. Without an active selection or a
     * callback it only tells the content script to stop; without a candidate
     * it clears the record; otherwise it clears the record, tells the
     * content script to stop, and then calls the callback once with a path
     * made from the first candidate.
     */
    method HandlePicked(msg: PickMessage) returns (cancelSent: bool, call: Option<Invocation>)
      modifies this
      ensures call.Some? <==> old(active) && old(callback).Some? && TypedCandidates(msg) != []
      ensures cancelSent <==> !old(active) || old(callback).None? || TypedCandidates(msg) != []
      ensures !old(active) || old(callback).None? ==>
        active == old(active) && callback == old(callback)
        && pendingAction == old(pendingAction) && pendingStepIndex == old(pendingStepIndex)
      ensures old(active) && old(callback).Some? ==> Cleared()
      ensures call.Some? ==> call.value == Invocation(
        old(callback).value, FirstPath(msg), InfoOf(msg), old(pendingAction), old(pendingStepIndex))
    {
      var wasActive := active;
      var cb := callback;
      var action := pendingAction;
      var stepIndex := pendingStepIndex;
      if !wasActive || cb.None? {
        return true, None;
      }
      var candidates := TypedCandidates(msg);
      if candidates == [] {
        Clear();
        return false, None;
      }
      var path := FirstPath(msg);
      var info := InfoOf(msg);
      Clear();
      cancelSent := true;
      call := Some(Invocation(cb.value, path, info, action, stepIndex));
    }

    /** `cancelSimpleElementSelection`: nothing unless a selection is active. */
    method Cancel() returns (cancelSent: bool)
      modifies this
      ensures cancelSent == old(active)
      ensures old(active) ==> Cleared()
      ensures !old(active) ==>
        callback == old(callback) && pendingAction == old(pendingAction)
        && pendingStepIndex == old(pendingStepIndex) && !active
    {
      cancelSent := active;
      if active {
        Clear();
      }
    }
  }

  /** A completed simple selection always hands over a path the preview can render. */
  lemma PickedPathPreviews(msg: PickMessage, framework: string, language: string)
    requires TypedCandidates(msg) != []
    ensures (PreviewLines(FirstPath(msg), framework, language) == [])
            <==> !Truthy(msg.selectors.value[0].selector)
  {
    PreviewLinesFacts(FirstPath(msg), framework, language);
  }
}
