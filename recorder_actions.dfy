/**
 * The recorder's action builders (`recorder-actions.js`): manual actions
 * kept beside the events (text extraction, attribute reads), and the wait
 * and interaction actions that become event records appended to the
 * recorder's event list.
 *
 * The clock is a parameter (`now`); the page's URL and title are
 * parameters; alerts and log lines are left out.
 */
module RecorderActions {
  import opened JsStrings
  import opened Candidates
  import opened EventRecords
  import SelectorUtils
  import RecorderSelection
  import RecorderCore
  import RecorderAi

  type PathItem = RecorderSelection.PathItem

  /** The options a manual action may carry. */
  datatype ManualOptions = ManualOptions(resultName: JsStr, attributeName: JsStr, pendingAttribute: JsStr)

  /** A manual action entry as `buildManualActionEntry` returns it. */
  datatype ManualEntry = ManualEntry(
    id: string,
    serial: int,
    actionType: JsStr,
    path: seq<PathItem>,
    createdAt: int,
    iframeContext: Option<FrameContext>,
    resultName: JsStr,
    attributeName: JsStr)

  /** `manualActionSerial || 1`. */
  function SerialOf(manualActionSerial: Option<int>): (r: int)
    ensures r != 0
  {
    if manualActionSerial.Some? && manualActionSerial.value != 0 then manualActionSerial.value else 1
  }

  /** The attribute name of a `get_attribute` action: the option, else the pending one, trimmed. */
  function AttributeNameOf(options: ManualOptions): string
  {
    Trim(OrEmpty(OrElse(OrElse(options.attributeName, options.pendingAttribute), Some(""))))
  }

  /** `buildManualActionEntry(actionType, path, options, serial)` at time `now`. */
  function BuildManualActionEntry(actionType: JsStr, path: Option<seq<PathItem>>, options: ManualOptions,
                                  manualActionSerial: Option<int>, now: int): Option<ManualEntry>
  {
    if path.None? || |path.value| == 0 then None
    else
      var serial := SerialOf(manualActionSerial);
      var last := path.value[|path.value| - 1];
      var entry := ManualEntry("manual-" + IntToString(now) + "-" + IntToString(serial), serial, actionType,
                               path.value, now, last.iframeContext, None, None);
      if actionType == Some("extract_text") then
        Some(entry.(resultName := OrElse(options.resultName, Some("text_result_" + IntToString(serial)))))
      else if actionType == Some("get_attribute") then
        var attrName := AttributeNameOf(options);
        if attrName == "" then None
        else Some(entry.(attributeName := Some(attrName),
                         resultName := OrElse(options.resultName, Some(attrName + "_value_" + IntToString(serial)))))
      else Some(entry)
  }

  /**
   * No entry without a path, nor for an attribute read without an attribute
   * name; otherwise the entry keeps the path, takes its frame from the last
   * path item, numbers itself with the serial (1 by default) and names its
   * result after the serial unless a name is given.
   */
  lemma BuildManualActionEntryFacts(actionType: JsStr, path: Option<seq<PathItem>>, options: ManualOptions,
                                    manualActionSerial: Option<int>, now: int)
    ensures var r := BuildManualActionEntry(actionType, path, options, manualActionSerial, now);
      && (r.None? <==> path.None? || |path.value| == 0
                       || (actionType == Some("get_attribute") && AttributeNameOf(options) == ""))
      && (r.Some? ==>
            && r.value.path == path.value && r.value.actionType == actionType && r.value.createdAt == now
            && r.value.serial == SerialOf(manualActionSerial)
            && (manualActionSerial.None? ==> r.value.serial == 1)
            && r.value.iframeContext == path.value[|path.value| - 1].iframeContext)
      && (r.Some? && actionType == Some("extract_text") ==>
            r.value.resultName == (if Truthy(options.resultName) then options.resultName
                                   else Some("text_result_" + IntToString(r.value.serial))))
      && (r.Some? && actionType == Some("get_attribute") ==>
            && r.value.attributeName == Some(AttributeNameOf(options))
            && Trim(r.value.attributeName.value) == r.value.attributeName.value
            && r.value.resultName == (if Truthy(options.resultName) then options.resultName
                                      else Some(AttributeNameOf(options) + "_value_" + IntToString(r.value.serial))))
      && (r.Some? && actionType != Some("extract_text") && actionType != Some("get_attribute") ==>
            r.value.resultName == None && r.value.attributeName == None)
  {
    var r := BuildManualActionEntry(actionType, path, options, manualActionSerial, now);
    if r.Some? && actionType == Some("get_attribute") {
      var o := OrEmpty(OrElse(OrElse(options.attributeName, options.pendingAttribute), Some("")));
      TrimIdempotent(o);
    }
  }

  /**
   * `addManualAction(entry, callback, manualActions)`: the list the callback
   * receives, or nothing when there is no entry. The caller's list is not
   * changed.
   */
  function AddManualAction(entry: Option<ManualEntry>, manualActions: seq<ManualEntry>): (next: Option<seq<ManualEntry>>)
    ensures next.Some? <==> entry.Some?
    ensures next.Some? ==>
      (|next.value| == |manualActions| + 1
       && next.value[..|manualActions|] == manualActions && next.value[|manualActions|] == entry.value)
  {
    if entry.None? then None else Some(manualActions + [entry.value])
  }

  /** The selector entry made of a path item; the last item scores 100, the others 80. */
  function PathEntry(item: PathItem, isLast: bool): (c: Candidate)
  {
    Blank.(selector := item.selector,
           selectorType := Some(if item.kind != "" then item.kind else SelectorUtils.InferSelectorType(item.selector)),
           textValue := OrElse(item.textValue, None),
           xpathValue := OrElse(item.xpathValue, None),
           matchMode := OrElse(item.matchMode, None),
           score := Some(if isLast then 100 else 80))
  }

  /** The selector entries of the first `n` path items, items without a selector skipped. */
  function PathSelectors(path: seq<PathItem>, n: nat): seq<Candidate>
    requires n <= |path|
  {
    if n == 0 then []
    else
      PathSelectors(path, n - 1)
        + (if Truthy(path[n - 1].selector) then [PathEntry(path[n - 1], n == |path|)] else [])
  }

  /** Every entry has a selector and scores 80 or 100; only the entry of the last path item scores 100. */
  predicate WellScored(r: seq<Candidate>)
  {
    && (forall k :: 0 <= k < |r| ==> Truthy(r[k].selector))
    && (forall k :: 0 <= k < |r| ==> r[k].score == Some(100) || r[k].score == Some(80))
    && (forall k :: 0 <= k < |r| - 1 ==> r[k].score == Some(80))
  }

  lemma WellScoredSnoc(r: seq<Candidate>, c: Candidate)
    requires WellScored(r) && Truthy(c.selector) && (c.score == Some(100) || c.score == Some(80))
    requires forall k :: 0 <= k < |r| ==> r[k].score == Some(80)
    ensures WellScored(r + [c])
  {
  }

  /**
   * The entries keep the order of the path; there is none exactly when no
   * item has a selector; each has a selector and scores 80, except that the
   * last path item's entry, when it has one, is the last entry and scores
   * 100.
   */
  lemma {:induction false} PathSelectorsFacts(path: seq<PathItem>, n: nat)
    requires n <= |path|
    ensures var r := PathSelectors(path, n);
      && WellScored(r)
      && (n < |path| ==> forall k :: 0 <= k < |r| ==> r[k].score == Some(80))
      && (|r| == 0 <==> forall i :: 0 <= i < n ==> !Truthy(path[i].selector))
      && (n > 0 && Truthy(path[n - 1].selector) ==> |r| > 0 && r[|r| - 1] == PathEntry(path[n - 1], n == |path|))
  {
    if n > 0 {
      PathSelectorsFacts(path, n - 1);
      var r0 := PathSelectors(path, n - 1);
      if Truthy(path[n - 1].selector) {
        WellScoredSnoc(r0, PathEntry(path[n - 1], n == |path|));
      } else {
        assert PathSelectors(path, n) == r0;
      }
    }
  }

  /** The selector entries of a whole path. */
  function Selectors(path: seq<PathItem>): seq<Candidate>
  {
    PathSelectors(path, |path|)
  }

  /** The frame of a record built from a path: the last item's, else `null`. */
  function PathFrame(path: seq<PathItem>): Option<FrameContext>
    requires |path| > 0
  {
    path[|path| - 1].iframeContext
  }

  /** The page a record built in the recorder window carries when none is known. */
  const EmptyPage := PageInfo(Some(""), Some(""))

  /** The manual block of a record the recorder builds itself. */
  function ManualBlock(prefix: string, timestamp: int, kind: JsStr): Slot<Manual>
  {
    Val(ManualInfo(Some(Str(prefix + IntToString(timestamp))), kind, None, None))
  }

  /** The record of an interaction on the last element of `path`. */
  function InteractionRecord(interactionType: JsStr, path: seq<PathItem>, value: JsStr, timestamp: int,
                             selectors: seq<Candidate>): EventRecord
    requires |path| > 0 && |selectors| > 0
  {
    var target := selectors[|selectors| - 1];
    var frame := PathFrame(path);
    BlankEvent.(
      version := Some(2), timestamp := Some(Num(timestamp)), action := interactionType,
      value := OrElse(value, None), tag := None, selectorCandidates := Some(selectors),
      iframeContext := frame, page := Val(EmptyPage), frame := Val(Frame(frame)), target := None,
      metadata := Some(Metadata(Val(2))),
      manual := ManualBlock("interaction-", timestamp, interactionType),
      primarySelector := target.selector, primarySelectorType := target.selectorType,
      primarySelectorText := target.textValue, primarySelectorXPath := target.xpathValue,
      primarySelectorMatchMode := target.matchMode)
  }

  /** `String(timeValue || 1000)`. */
  function WaitValue(timeValue: Option<int>): string
  {
    if timeValue.Some? && timeValue.value != 0 then IntToString(timeValue.value) else "1000"
  }

  /** The record of a timed wait. */
  function WaitRecord(timeValue: Option<int>, timestamp: int): EventRecord
  {
    BlankEvent.(
      version := Some(2), timestamp := Some(Num(timestamp)), action := Some("wait"),
      value := Some(WaitValue(timeValue)), tag := None, selectorCandidates := Some([]),
      iframeContext := None, page := Val(EmptyPage), frame := Val(Frame(None)), target := None,
      metadata := Some(Metadata(Val(2))),
      manual := ManualBlock("wait-", timestamp, Some("wait")),
      primarySelector := None, primarySelectorType := None)
  }

  /** What the element picker reported about the element to wait for. */
  datatype ElementInfo = ElementInfo(
    iframeContext: Option<FrameContext>,
    tag: JsStr,
    page: Option<PageInfo>,
    selectorCandidates: Option<seq<Candidate>>,
    id: JsStr,
    className: JsStr)

  /** The record of a wait for the last element of `path`. */
  function WaitForElementRecord(path: seq<PathItem>, elementInfo: Option<ElementInfo>, currentUrl: string,
                                currentTitle: string, timestamp: int, selectors: seq<Candidate>): EventRecord
    requires |path| > 0 && |selectors| > 0
  {
    var target := selectors[|selectors| - 1];
    var info := elementInfo;
    var frame := if path[|path| - 1].iframeContext.Some? then path[|path| - 1].iframeContext
                 else if info.Some? then info.value.iframeContext else None;
    var tag := if info.Some? then OrElse(info.value.tag, None) else None;
    var page := if info.Some? && info.value.page.Some? then info.value.page.value else PageInfo(Some(currentUrl), Some(currentTitle));
    BlankEvent.(
      version := Some(2), timestamp := Some(Num(timestamp)), action := Some("waitForElement"),
      value := None, tag := tag,
      selectorCandidates := if info.Some? && info.value.selectorCandidates.Some? then info.value.selectorCandidates else Some(selectors),
      iframeContext := frame, page := Val(page), frame := Val(Frame(frame)),
      // the target object names the tag `tag`, so its `tagName` stays unset
      target := if Truthy(tag) then Some(TargetInfo(OrElse(info.value.id, None), OrElse(info.value.className, None), None)) else None,
      metadata := Some(Metadata(Val(2))),
      manual := ManualBlock("wait-", timestamp, Some("waitForElement")),
      primarySelector := target.selector, primarySelectorType := target.selectorType,
      primarySelectorText := target.textValue, primarySelectorXPath := target.xpathValue,
      primarySelectorMatchMode := target.matchMode)
  }

  /**
   * An interaction record points at the last selector-bearing path item:
   * its primary selector is that item's selector, scored 100 when it is the
   * last item; all entries are its candidates, and its frame is the last
   * item's.
   */
  lemma InteractionRecordFacts(interactionType: JsStr, path: seq<PathItem>, value: JsStr, timestamp: int)
    requires |path| > 0 && Selectors(path) != []
    ensures var r := InteractionRecord(interactionType, path, value, timestamp, Selectors(path));
      && r.action == interactionType && r.version == Some(2)
      && r.selectorCandidates == Some(Selectors(path))
      && r.primarySelector == Selectors(path)[|Selectors(path)| - 1].selector && Truthy(r.primarySelector)
      && (Truthy(path[|path| - 1].selector) ==> r.primarySelector == path[|path| - 1].selector)
      && r.iframeContext == PathFrame(path) && r.frame == Val(Frame(PathFrame(path)))
      && (Truthy(value) ==> r.value == value) && (!Truthy(value) ==> r.value == None)
  {
    PathSelectorsFacts(path, |path|);
  }

  /** A timed wait stores its duration in milliseconds, 1000 when none is given. */
  lemma WaitRecordFacts(timeValue: Option<int>, timestamp: int)
    ensures var r := WaitRecord(timeValue, timestamp);
      && r.action == Some("wait") && r.selectorCandidates == Some([])
      && (timeValue.None? ==> r.value == Some("1000"))
      && (timeValue.Some? && timeValue.value != 0 ==> r.value == Some(IntToString(timeValue.value)))
  {
  }

  /** The record the list receives: normalised when a normaliser is given. */
  function Prepared(normalize: bool, record: EventRecord): EventRecord
  {
    if normalize then RecorderCore.Normalized(record) else record
  }

  /**
   * The list and selection after a record is pushed: the list grows by the
   * record, and with the timeline synchronised it is normalised and its
   * last entry selected.
   */
  twostate predicate AppendedTo(rec: RecorderCore.Recorder, ai: RecorderAi.AiSuggestions?, saved: EventRecord, syncTimeline: bool)
    reads rec, ai
  {
    && (!syncTimeline ==> rec.allEvents == old(rec.allEvents) + [saved] && rec.currentEventIndex == old(rec.currentEventIndex)
                          && (ai != null ==> ai.states == old(ai.states)))
    && (syncTimeline ==> rec.allEvents == RecorderCore.NormalizeAll(Some(old(rec.allEvents) + [saved]))
                         && rec.currentEventIndex == |old(rec.allEvents)|
                         && (ai != null ==> ai.states == RecorderCore.AiStatesFor(rec.allEvents, old(ai.states))))
    && rec.recording == old(rec.recording)
  }

  /** `allEvents.push(normalized)` followed by the optional timeline synchronisation. */
  method Append(rec: RecorderCore.Recorder, ai: RecorderAi.AiSuggestions?, record: EventRecord, normalize: bool, syncTimeline: bool)
    returns (saved: EventRecord)
    modifies rec, ai
    ensures saved == Prepared(normalize, record)
    ensures AppendedTo(rec, ai, saved, syncTimeline)
  {
    saved := Prepared(normalize, record);
    rec.allEvents := rec.allEvents + [saved];
    if syncTimeline {
      var events := rec.allEvents;
      var _ := rec.SyncTimelineFromEvents(Some(events), false, true, false, ai);
    }
  }

  /**
   * `addInteractionAction`: nothing without a path or without a selector
   * in it; otherwise one record is appended and handed on to be saved.
   */
  method AddInteractionAction(rec: RecorderCore.Recorder, ai: RecorderAi.AiSuggestions?, interactionType: JsStr,
                              path: Option<seq<PathItem>>, value: JsStr, now: int, normalize: bool, syncTimeline: bool)
    returns (saved: Option<EventRecord>)
    modifies rec, ai
    ensures saved.None? <==> path.None? || |path.value| == 0 || Selectors(path.value) == []
    ensures saved.None? ==> rec.allEvents == old(rec.allEvents) && rec.currentEventIndex == old(rec.currentEventIndex)
                            && rec.recording == old(rec.recording) && (ai != null ==> ai.states == old(ai.states))
    ensures saved.Some? ==>
      saved.value == Prepared(normalize, InteractionRecord(interactionType, path.value, value, now, Selectors(path.value)))
      && AppendedTo(rec, ai, saved.value, syncTimeline)
  {
    if path.None? || |path.value| == 0 {
      return None;
    }
    var selectors := Selectors(path.value);
    if selectors == [] {
      return None;
    }
    var record := InteractionRecord(interactionType, path.value, value, now, selectors);
    var s := Append(rec, ai, record, normalize, syncTimeline);
    saved := Some(s);
  }

  /**
   * `addWaitAction`: a timed wait always; a wait for an element only with a
   * path holding a selector; nothing for any other kind.
   */
  method AddWaitAction(rec: RecorderCore.Recorder, ai: RecorderAi.AiSuggestions?, waitType: JsStr, timeValue: Option<int>,
                       path: Option<seq<PathItem>>, elementInfo: Option<ElementInfo>, currentUrl: string,
                       currentTitle: string, now: int, normalize: bool, syncTimeline: bool)
    returns (saved: Option<EventRecord>)
    modifies rec, ai
    ensures waitType == Some("wait") ==>
      saved == Some(Prepared(normalize, WaitRecord(timeValue, now))) && AppendedTo(rec, ai, saved.value, syncTimeline)
    ensures waitType == Some("waitForElement") && path.Some? && |path.value| > 0 && Selectors(path.value) != [] ==>
      saved == Some(Prepared(normalize, WaitForElementRecord(path.value, elementInfo, currentUrl, currentTitle, now, Selectors(path.value))))
      && AppendedTo(rec, ai, saved.value, syncTimeline)
    ensures saved.None? <==>
      waitType != Some("wait") && !(waitType == Some("waitForElement") && path.Some? && |path.value| > 0 && Selectors(path.value) != [])
    ensures saved.None? ==> rec.allEvents == old(rec.allEvents) && rec.currentEventIndex == old(rec.currentEventIndex)
                            && rec.recording == old(rec.recording) && (ai != null ==> ai.states == old(ai.states))
  {
    var record: EventRecord;
    if waitType == Some("wait") {
      record := WaitRecord(timeValue, now);
    } else if waitType == Some("waitForElement") && path.Some? && |path.value| > 0 {
      var selectors := Selectors(path.value);
      if selectors == [] {
        return None;
      }
      record := WaitForElementRecord(path.value, elementInfo, currentUrl, currentTitle, now, selectors);
    } else {
      return None;
    }
    var s := Append(rec, ai, record, normalize, syncTimeline);
    saved := Some(s);
  }
}
