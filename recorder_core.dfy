/**
 * The recorder window's core state (`recorder-core.js`): the event
 * normaliser of the recorder, the timeline synchronisation that selects an
 * event and rebuilds the AI suggestion map, and the start and stop of a
 * recording.
 *
 * The shared `stateRefs` record is a class with the fields these functions
 * update; the WebSocket is represented by whether it is open, and the
 * rendering callbacks are left out.
 */
module RecorderCore {
  import opened JsStrings
  import opened Candidates
  import opened EventRecords
  import RecorderAi
  import RecorderUi

  /** `event.version` as JavaScript truthiness (`0` and a missing value are falsy). */
  predicate VersionSet(v: Option<int>) { v.Some? && v.value != 0 }

  /** `if (x === undefined) x = d`. */
  function Default<T>(x: Slot<T>, d: Slot<T>): (r: Slot<T>)
    ensures x.Undefined? ==> r == d
    ensures !x.Undefined? ==> r == x
  {
    if x.Undefined? then d else x
  }

  /** The recorder's schema version. */
  const RecorderSchemaVersion := 2

  /** The fields every record gets. */
  function CommonDefaults(e: EventRecord): (r: EventRecord)
  {
    var version := if VersionSet(e.version) then e.version.value else RecorderSchemaVersion;
    e.(version := Some(version),
       metadata := if e.metadata.Some? then e.metadata else Some(Metadata(Val(version))),
       page := Default(e.page, Null),
       frame := if e.frame.Undefined? && e.iframeContext.Some? then Val(Frame(e.iframeContext)) else e.frame,
       wrapInTry := Default(e.wrapInTry, Val(false)))
  }

  /** The fields conditional, relative and loop actions get. */
  function FlowDefaults(e: EventRecord): (r: EventRecord)
  {
    e.(conditionElement := Default(e.conditionElement, Null),
       conditionType := Default(e.conditionType, Null),
       conditionValue := Default(e.conditionValue, Null),
       targetRelation := Default(e.targetRelation, Null),
       targetSelector := Default(e.targetSelector, Null),
       actionType := Default(e.actionType, Val("click")),
       loopMode := Default(e.loopMode, Val("single")))
  }

  /** `normalizeEventRecord` of the recorder, on the record's value. */
  function Normalized(e: EventRecord): (r: EventRecord)
  {
    var c := CommonDefaults(e);
    if IsFlowAction(e.action) then FlowDefaults(c) else c
  }

  /**
   * The defaults the recorder fills in: version 2 when the version is
   * falsy, metadata carrying the version when missing, `page: null`, a frame
   * from a truthy `iframeContext`, `wrapInTry: false`; the flow fields only
   * on conditional, relative and loop actions, with `actionType` 'click'
   * and `loopMode` 'single'. Nothing set before is overwritten.
   */
  lemma NormalizedFacts(e: EventRecord)
    ensures var r := Normalized(e);
      && VersionSet(r.version)
      && (VersionSet(e.version) ==> r.version == e.version)
      && (!VersionSet(e.version) ==> r.version == Some(RecorderSchemaVersion))
      && (e.metadata.None? ==> r.metadata == Some(Metadata(Val(r.version.value))))
      && (e.metadata.Some? ==> r.metadata == e.metadata)
      && !r.page.Undefined? && !r.wrapInTry.Undefined?
      && (e.iframeContext.Some? ==> !r.frame.Undefined?)
      && r.action == e.action && r.id == e.id && r.selectorCandidates == e.selectorCandidates
      && (IsFlowAction(e.action) ==>
            && r.actionType == Default(e.actionType, Val("click"))
            && r.loopMode == Default(e.loopMode, Val("single"))
            && !r.conditionElement.Undefined? && !r.targetSelector.Undefined?)
      && (!IsFlowAction(e.action) ==>
            r.actionType == e.actionType && r.loopMode == e.loopMode
            && r.conditionElement == e.conditionElement && r.targetSelector == e.targetSelector)
  {
  }

  /** A second normalisation changes nothing. */
  lemma NormalizedIdempotent(e: EventRecord)
    ensures Normalized(Normalized(e)) == Normalized(e)
  {
    var r := Normalized(e);
    assert r.action == e.action;
    assert CommonDefaults(r) == r;
    if IsFlowAction(e.action) {
      assert FlowDefaults(r) == r;
    }
  }

  /**
   * `normalizeEventRecord(event)`: a non-object (`null` here) is left as it
   * is; an object gets its missing fields filled in place.
   */
  method NormalizeEventRecord(event: EventObject?)
    modifies event
    ensures event != null ==> event.record == Normalized(old(event.record))
  {
    if event == null {
      return;
    }
    var e := event.record;
    if !VersionSet(e.version) {
      e := e.(version := Some(RecorderSchemaVersion));
    }
    if e.metadata.None? {
      e := e.(metadata := Some(Metadata(Val(e.version.value))));
    }
    if e.page.Undefined? {
      e := e.(page := Null);
    }
    if e.frame.Undefined? && e.iframeContext.Some? {
      e := e.(frame := Val(Frame(e.iframeContext)));
    }
    if e.wrapInTry.Undefined? {
      e := e.(wrapInTry := Val(false));
    }
    if IsFlowAction(e.action) {
      e := FlowDefaults(e);
    }
    event.record := e;
  }

  /** The events mapped through the normaliser; `[]` for a non-array. */
  function NormalizeAll(events: Option<seq<EventRecord>>): (r: seq<EventRecord>)
    ensures events.Some? ==> |r| == |events.value| && forall i :: 0 <= i < |r| ==> r[i] == Normalized(events.value[i])
    ensures events.None? ==> r == []
  {
    if events.None? then [] else seq(|events.value|, i requires 0 <= i < |events.value| => Normalized(events.value[i]))
  }

  /** The event the timeline selects after a synchronisation, or -1. */
  function SelectedIndex(preserveSelection: bool, selectLast: bool, current: int, count: nat): (r: int)
    ensures -1 <= r < count
    ensures preserveSelection && 0 <= current < count ==> r == current
    ensures !(preserveSelection && 0 <= current < count) && selectLast && count > 0 ==> r == count - 1
    ensures !(preserveSelection && 0 <= current < count) && !(selectLast && count > 0) ==> r == -1
  {
    var previous := if preserveSelection then current else -1;
    if preserveSelection && previous >= 0 && previous < count then previous
    else if selectLast && count > 0 then count - 1
    else -1
  }

  /**
   * After a synchronisation the delete button is enabled exactly when an
   * event was kept selected or the last one was selected.
   */
  lemma DeleteButtonAfterSync(preserveSelection: bool, selectLast: bool, current: int, count: nat)
    ensures var i := SelectedIndex(preserveSelection, selectLast, current, count);
      (RecorderUi.DeleteDisabled(i, count) <==> i == -1)
      && (!RecorderUi.DeleteDisabled(i, count) <==> (preserveSelection && 0 <= current < count) || (selectLast && count > 0))
  {
  }

  /** `existing`: the old entry for `key`, unless the state is being reset. */
  function Existing(prev: map<string, RecorderAi.AiState>, key: string): Option<RecorderAi.AiState>
  {
    if key in prev then Some(prev[key]) else None
  }

  /** The entry the rebuilt map holds for an event, given the old entry for its key. */
  function NextEntry(e: EventRecord, existing: Option<RecorderAi.AiState>): (r: RecorderAi.AiState)
    ensures existing.Some? && existing.value.status == "loading" ==> r == existing.value
    ensures !(existing.Some? && existing.value.status == "loading") && NonEmptyList(e.aiSelectorCandidates) ==>
      r.status == "loaded" && r.error == None
    ensures !NonEmptyList(e.aiSelectorCandidates) && existing.None? ==> r == RecorderAi.IdleState
  {
    if existing.Some? && existing.value.status == "loading" then existing.value
    else if NonEmptyList(e.aiSelectorCandidates) then
      RecorderAi.AiState("loaded", None,
        if ScalarTruthy(e.aiSelectorsUpdatedAt) then e.aiSelectorsUpdatedAt
        else if existing.Some? && ScalarTruthy(existing.value.updatedAt) then existing.value.updatedAt
        else None)
    else if existing.Some? then existing.value
    else RecorderAi.IdleState
  }

  /** The map `syncTimelineFromEvents` builds from `events`, one event after the other. */
  function AiStatesFor(events: seq<EventRecord>, prev: map<string, RecorderAi.AiState>): map<string, RecorderAi.AiState>
  {
    if events == [] then map[]
    else
      var m := AiStatesFor(events[..|events| - 1], prev);
      var e := events[|events| - 1];
      var key := RecorderAi.AiStateKey(Some(e));
      if key.None? then m else m[key.value := NextEntry(e, Existing(prev, key.value))]
  }

  /** Some event of `events` has the key `k`. */
  predicate HasKey(events: seq<EventRecord>, k: string)
  {
    exists i :: 0 <= i < |events| && RecorderAi.AiStateKey(Some(events[i])) == Some(k)
  }

  /** `i` is the last event with the key `k`. */
  predicate LastWithKey(events: seq<EventRecord>, i: int, k: string)
  {
    && 0 <= i < |events| && RecorderAi.AiStateKey(Some(events[i])) == Some(k)
    && forall j :: i < j < |events| ==> RecorderAi.AiStateKey(Some(events[j])) != Some(k)
  }

  lemma HasKeySnoc(events: seq<EventRecord>, k: string)
    requires events != []
    ensures HasKey(events, k) <==>
      HasKey(events[..|events| - 1], k) || RecorderAi.AiStateKey(Some(events[|events| - 1])) == Some(k)
  {
    var init := events[..|events| - 1];
    if HasKey(events, k) && RecorderAi.AiStateKey(Some(events[|events| - 1])) != Some(k) {
      var i :| 0 <= i < |events| && RecorderAi.AiStateKey(Some(events[i])) == Some(k);
      assert init[i] == events[i];
    }
    if HasKey(init, k) {
      var i :| 0 <= i < |init| && RecorderAi.AiStateKey(Some(init[i])) == Some(k);
      assert events[i] == init[i];
    }
  }

  /** The rebuilt map has exactly the keys of the events. */
  lemma {:induction false} AiStatesForKeys(events: seq<EventRecord>, prev: map<string, RecorderAi.AiState>)
    ensures forall k :: k in AiStatesFor(events, prev) <==> HasKey(events, k)
  {
    if events != [] {
      AiStatesForKeys(events[..|events| - 1], prev);
      forall k ensures k in AiStatesFor(events, prev) <==> HasKey(events, k) {
        HasKeySnoc(events, k);
      }
    }
  }

  /**
   * Each key holds the entry made from the last event with that key (so an
   * entry that was loading stays as it was).
   */
  lemma {:induction false} AiStatesForLastWins(events: seq<EventRecord>, prev: map<string, RecorderAi.AiState>, i: int, k: string)
    requires LastWithKey(events, i, k)
    ensures k in AiStatesFor(events, prev) && AiStatesFor(events, prev)[k] == NextEntry(events[i], Existing(prev, k))
  {
    var init := events[..|events| - 1];
    if i < |events| - 1 {
      assert init[i] == events[i];
      assert LastWithKey(init, i, k);
      AiStatesForLastWins(init, prev, i, k);
    }
  }

  /** An entry that was loading is kept as it was, whichever events share its key. */
  lemma LoadingKept(events: seq<EventRecord>, prev: map<string, RecorderAi.AiState>, k: string)
    requires k in prev && prev[k].status == "loading" && HasKey(events, k)
    ensures k in AiStatesFor(events, prev) && AiStatesFor(events, prev)[k] == prev[k]
  {
    var i :| 0 <= i < |events| && RecorderAi.AiStateKey(Some(events[i])) == Some(k);
    var last := LastIndexWithKey(events, k, i);
    AiStatesForLastWins(events, prev, last, k);
  }

  /** The last index carrying the key `k`, at or after `i`. */
  lemma LastIndexWithKey(events: seq<EventRecord>, k: string, i: int) returns (last: int)
    requires 0 <= i < |events| && RecorderAi.AiStateKey(Some(events[i])) == Some(k)
    ensures i <= last && LastWithKey(events, last, k)
    decreases |events| - i
  {
    if j :| i < j < |events| && RecorderAi.AiStateKey(Some(events[j])) == Some(k) {
      last := LastIndexWithKey(events, k, j);
    } else {
      last := i;
    }
  }

  /** The `forEach` that fills the new AI map, one event after the other. */
  method RebuildAiStates(events: seq<EventRecord>, prev: map<string, RecorderAi.AiState>)
    returns (next: map<string, RecorderAi.AiState>)
    ensures next == AiStatesFor(events, prev)
  {
    next := map[];
    var i := 0;
    while i < |events|
      invariant 0 <= i <= |events|
      invariant next == AiStatesFor(events[..i], prev)
    {
      var e := events[i];
      var key := RecorderAi.AiStateKey(Some(e));
      assert events[..i + 1][..i] == events[..i];
      if key.Some? {
        next := next[key.value := NextEntry(e, Existing(prev, key.value))];
      }
      i := i + 1;
    }
    assert events[..i] == events;
  }

  /** The recorder window's state (`stateRefs`). */
  class Recorder {
    var recording: bool
    var allEvents: seq<EventRecord>
    var currentEventIndex: int

    constructor()
      ensures !recording && allEvents == [] && currentEventIndex == -1
    {
      recording := false;
      allEvents := [];
      currentEventIndex := -1;
    }

    /**
     * `syncTimelineFromEvents`: the events are normalised and become
     * `allEvents`, the AI map (when there is one) is rebuilt from them, and
     * the selection is kept, moved to the last event, or cleared.
     */
    method SyncTimelineFromEvents(events: Option<seq<EventRecord>>, preserveSelection: bool, selectLast: bool,
                                  resetAiState: bool, ai: RecorderAi.AiSuggestions?)
      returns (normalized: seq<EventRecord>)
      modifies this, ai
      ensures normalized == NormalizeAll(events) && allEvents == normalized
      ensures currentEventIndex == SelectedIndex(preserveSelection, selectLast, old(currentEventIndex), |normalized|)
      ensures ai != null ==> ai.states == AiStatesFor(normalized, if resetAiState then map[] else old(ai.states))
      ensures recording == old(recording)
    {
      normalized := NormalizeAll(events);
      var prev: map<string, RecorderAi.AiState> := if resetAiState || ai == null then map[] else ai.states;
      var next := RebuildAiStates(normalized, prev);
      if ai != null {
        ai.states := next;
      }
      allEvents := normalized;
      currentEventIndex := SelectedIndex(preserveSelection, selectLast, currentEventIndex, |normalized|);
    }

    /**
     * `startRecording`: nothing when already recording; otherwise the events
     * and the selection are cleared, and the recording stays on only when the
     * socket is open and the start signal could be sent.
     */
    method StartRecording(socketOpen: bool, sendFails: bool) returns (startSent: bool)
      modifies this
      ensures old(recording) ==> recording && allEvents == old(allEvents)
                                 && currentEventIndex == old(currentEventIndex) && !startSent
      ensures !old(recording) ==> allEvents == [] && currentEventIndex == -1
      ensures !old(recording) ==> (recording <==> socketOpen && !sendFails) && startSent == recording
    {
      if recording {
        return false;
      }
      recording := true;
      allEvents := [];
      currentEventIndex := -1;
      if !socketOpen {
        recording := false;
        return false;
      }
      if sendFails {
        recording := false;
        return false;
      }
      startSent := true;
    }

    /**
     * `stopRecording`: nothing when not recording; otherwise the stop signal
     * goes out when the socket is open, the code is saved while the
     * recording flag is still on, and the recording ends.
     */
    method StopRecording(socketOpen: bool, hasUpdateCode: bool) returns (stopSent: bool, codeSaved: bool)
      modifies this
      ensures !recording
      ensures stopSent <==> old(recording) && socketOpen
      ensures codeSaved <==> old(recording) && hasUpdateCode
      ensures allEvents == old(allEvents) && currentEventIndex == old(currentEventIndex)
    {
      if !recording {
        return false, false;
      }
      stopSent := socketOpen;
      codeSaved := hasUpdateCode;
      recording := false;
    }
  }
}
