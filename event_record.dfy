/**
 * The recorded event object the recorder keeps in `allEvents`, as far as
 * the modelled functions read or write it.
 *
 * JavaScript distinguishes a missing property (`undefined`) from one set
 * to `null`, and several normalisers fill in only the missing ones; such
 * properties are `Slot`s. Properties that are only ever checked for
 * truthiness are `Option`s, with `None` for every falsy value.
 */
module EventRecords {
  import opened JsStrings
  import opened Candidates

  /** A property that may be missing, `null`, or hold a value. */
  datatype Slot<T> = Undefined | Null | Val(value: T)

  /** A string or an integer property (ids and timestamps may be either). */
  datatype Scalar = Str(s: string) | Num(n: int)

  predicate ScalarTruthy(x: Option<Scalar>)
  {
    x.Some? && (if x.value.Str? then x.value.s != "" else x.value.n != 0)
  }

  /** `${x}` for a string or an integer. */
  function Render(x: Scalar): string
  {
    if x.Str? then x.s else IntToString(x.n)
  }

  /** `event.metadata`; only `schemaVersion` is read. */
  datatype Metadata = Metadata(schemaVersion: Slot<int>)

  /** `event.manual`: `true` on raw manual records, an object once normalised. */
  datatype Manual =
    | Flag(flag: bool)
    | ManualInfo(id: Option<Scalar>, kind: JsStr, resultName: JsStr, attributeName: JsStr)

  /** `event.page`. */
  datatype PageInfo = PageInfo(url: JsStr, title: JsStr)

  /**
   * The description of the iframe an element lives in, as the content
   * script reports it; `None` where the page has no iframe (`null`).
   */
  datatype FrameContext = FrameContext(id: JsStr, name: JsStr, src: JsStr)

  /** `event.frame`. */
  datatype Frame = Frame(iframeContext: Option<FrameContext>)

  /** An element reference a conditional or relative action carries. */
  datatype ElementRef = ElementRef(selector: JsStr, xpath: JsStr)

  /** `event.target` as the timeline reads it. */
  datatype TargetInfo = TargetInfo(id: JsStr, className: JsStr, tagName: JsStr)

  datatype EventRecord = EventRecord(
    id: Option<Scalar>,
    timestamp: Option<Scalar>,
    createdAt: Option<Scalar>,
    action: JsStr,
    value: JsStr,
    version: Option<int>,
    metadata: Option<Metadata>,
    page: Slot<PageInfo>,
    frame: Slot<Frame>,
    iframeContext: Option<FrameContext>,
    manual: Slot<Manual>,
    manualActionId: Option<Scalar>,
    manualActionType: JsStr,
    manualResultName: JsStr,
    manualAttribute: JsStr,
    wrapInTry: Slot<bool>,
    conditionElement: Slot<ElementRef>,
    childElement: Slot<ElementRef>,
    siblingElement: Slot<ElementRef>,
    ancestorElement: Slot<ElementRef>,
    conditionType: Slot<string>,
    conditionValue: Slot<string>,
    targetRelation: Slot<string>,
    targetSelector: Slot<string>,
    actionType: Slot<string>,
    loopMode: Slot<string>,
    selectorCandidates: Option<seq<Candidate>>,
    aiSelectorCandidates: Option<seq<Candidate>>,
    aiSelectorsUpdatedAt: Option<Scalar>,
    primarySelector: JsStr,
    primarySelectorType: JsStr,
    primarySelectorXPath: JsStr,
    primarySelectorText: JsStr,
    primarySelectorMatchMode: JsStr,
    selector: JsStr,
    tag: JsStr,
    target: Option<TargetInfo>,
    url: JsStr,
    matchMode: JsStr,
    snapshotName: JsStr,
    loopSelector: JsStr)

  /** An event object with no property set. */
  const BlankEvent := EventRecord(
    None, None, None, None, None, None, None, Undefined, Undefined, None,
    Undefined, None, None, None, None, Undefined, Undefined, Undefined, Undefined, Undefined,
    Undefined, Undefined, Undefined, Undefined, Undefined, Undefined, None, None, None, None,
    None, None, None, None, None, None, None, None, None, None, None)

  /** The actions whose records carry the conditional and relative fields. */
  predicate IsFlowAction(action: JsStr)
  {
    action == Some("conditionalAction") || action == Some("relativeAction") || action == Some("loopAction")
  }

  /** `Array.isArray(xs) && xs.length > 0`. */
  predicate NonEmptyList<T>(xs: Option<seq<T>>)
  {
    xs.Some? && |xs.value| > 0
  }

  /** The event object an in-place normaliser works on. */
  class EventObject {
    var record: EventRecord

    constructor(r: EventRecord)
      ensures record == r
    {
      record := r;
    }
  }
}
