/**
 * Replay of a recording (src/renderer/recorder/recorder-replay.js): the
 * queue of steps built from the recorded events and the manual actions,
 * and the module-level `replayState` record, stepped by the send / result
 * / timeout handlers.
 *
 * Timers are not run: an armed timer is a boolean field, and its expiry is
 * a method the environment calls (`TimerFires`, `ResponseTimeout`,
 * `NavigationTimeout`). The `onFinish`, `onAbort` and `onScheduleNext`
 * callbacks are the module's own `finishReplay`, `abortReplay` and
 * `scheduleNextStep`, as the recorder wires them.
 */
module RecorderReplay {
  import opened JsStrings
  import opened ActionTimeline

  const StepDelayMs := 150
  const MaxNavigationWaitMs := 15000
  const StepTimeoutMs := 10000

  // ---------------------------------------------------------------------
  // Timeline and replay queue
  // ---------------------------------------------------------------------

  /** A recorded event: an identity and its `timestamp` when that is a number. */
  datatype RecordedEvent = RecordedEvent(key: nat, timestamp: Option<int>)

  /** An element of a manual action's selection path. */
  datatype PathStep = PathStep(selector: JsStr)

  /** A manual action object; `createdAt` is present when it is a number. */
  datatype ManualAction = ManualAction(actionType: JsStr, path: seq<PathStep>, value: JsStr, createdAt: Option<int>)

  datatype TimelineItem = EventItem(event: RecordedEvent) | ManualItem(action: ManualAction)

  /** The event `convertManualActionToEvent` builds (its `manual` flag is always true). */
  datatype ManualEvent = ManualEvent(action: string, target: Option<PathStep>, value: JsStr, timestamp: int)

  /** An entry of the replay queue. */
  datatype ReplayItem = Recorded(event: RecordedEvent) | Manual(manual: ManualEvent)

  /** The time of an event: its numeric timestamp, else 0. */
  function EventTime(e: RecordedEvent): int
  {
    if e.timestamp.Some? then e.timestamp.value else 0
  }

  /** `maxEventTimestamp` after the events loop: the largest event time, and at least 0. */
  function MaxTime(events: seq<RecordedEvent>): (m: int)
    ensures m >= 0 && forall i :: 0 <= i < |events| ==> EventTime(events[i]) <= m
  {
    if events == [] then 0
    else
      var m := MaxTime(events[..|events| - 1]);
      var t := EventTime(events[|events| - 1]);
      if t > m then t else m
  }

  /** The entries the events loop pushes. */
  function EventEntries(events: seq<RecordedEvent>): (r: seq<Entry<TimelineItem>>)
    ensures |r| == |events|
  {
    if events == [] then []
    else
      var k := |events| - 1;
      EventEntries(events[..k]) + [Entry(EventItem(events[k]), EventTime(events[k]), k)]
  }

  /** The time of a manual action pushed with sequence number `s`: its `createdAt`, else `max + s * 100`. */
  function ManualTime(a: ManualAction, s: nat, maxTime: int): int
  {
    if a.createdAt.Some? then a.createdAt.value else maxTime + s * 100
  }

  /** The entries the manual-actions loop pushes, numbering from `s`; a non-object is skipped. */
  function ManualEntries(ms: seq<Option<ManualAction>>, s: nat, maxTime: int): seq<Entry<TimelineItem>>
  {
    if ms == [] then []
    else if ms[0].None? then ManualEntries(ms[1..], s, maxTime)
    else [Entry(ManualItem(ms[0].value), ManualTime(ms[0].value, s, maxTime), s)] + ManualEntries(ms[1..], s + 1, maxTime)
  }

  /** The number of manual action objects. */
  function ObjectCount(ms: seq<Option<ManualAction>>): nat
  {
    if ms == [] then 0 else (if ms[0].Some? then 1 else 0) + ObjectCount(ms[1..])
  }

  /** `buildActionTimeline(events, manualList)`. */
  function Timeline(events: seq<RecordedEvent>, ms: seq<Option<ManualAction>>): seq<Entry<TimelineItem>>
  {
    Sort(EventEntries(events) + ManualEntries(ms, |events|, MaxTime(events)))
  }

  lemma {:induction false} EventEntriesAt(events: seq<RecordedEvent>)
    ensures forall i :: 0 <= i < |events| ==>
      EventEntries(events)[i] == Entry(EventItem(events[i]), EventTime(events[i]), i)
  {
    if events != [] {
      var k := |events| - 1;
      EventEntriesAt(events[..k]);
    }
  }

  lemma {:induction false} ManualEntriesFacts(ms: seq<Option<ManualAction>>, s: nat, maxTime: int)
    ensures |ManualEntries(ms, s, maxTime)| == ObjectCount(ms)
    ensures forall x :: x in ManualEntries(ms, s, maxTime) ==>
      x.item.ManualItem? && x.sequence >= s && x.time == ManualTime(x.item.action, x.sequence, maxTime)
    ensures forall i :: 0 <= i < |ms| && ms[i].Some? ==>
      exists x :: x in ManualEntries(ms, s, maxTime) && x.item == ManualItem(ms[i].value)
  {
    if ms != [] {
      ManualEntriesFacts(ms[1..], if ms[0].Some? then s + 1 else s, maxTime);
      forall i | 0 < i < |ms| && ms[i].Some?
        ensures exists x :: x in ManualEntries(ms, s, maxTime) && x.item == ManualItem(ms[i].value)
      {
        assert ms[1..][i - 1] == ms[i];
      }
      if ms[0].Some? {
        assert ManualEntries(ms, s, maxTime)[0].item == ManualItem(ms[0].value);
      }
    }
  }

  /**
   * The timeline is ordered by time, then sequence; it holds every event,
   * numbered by its position and timed by its timestamp (0 when that is
   * not a number), and every manual action object, after the events; a
   * manual action without a numeric `createdAt` is timed
   * `maxEventTimestamp + sequence * 100`.
   */
  lemma TimelineFacts(events: seq<RecordedEvent>, ms: seq<Option<ManualAction>>)
    ensures Ordered(Timeline(events, ms))
    ensures |Timeline(events, ms)| == |events| + ObjectCount(ms)
    ensures forall i :: 0 <= i < |events| ==>
      Entry(EventItem(events[i]), EventTime(events[i]), i) in Timeline(events, ms)
    ensures forall i :: 0 <= i < |ms| && ms[i].Some? ==>
      exists x :: x in Timeline(events, ms) && x.item == ManualItem(ms[i].value)
    ensures forall x :: x in Timeline(events, ms) && x.item.ManualItem? ==>
      x.sequence >= |events| && x.time == ManualTime(x.item.action, x.sequence, MaxTime(events))
  {
    var es := EventEntries(events);
    var mes := ManualEntries(ms, |events|, MaxTime(events));
    SortFacts(es + mes);
    EventEntriesAt(events);
    ManualEntriesFacts(ms, |events|, MaxTime(events));
    var t := Timeline(events, ms);
    assert forall x :: x in t <==> x in es + mes by {
      forall x ensures x in t <==> x in es + mes {
        assert x in t <==> x in multiset(t);
        assert x in es + mes <==> x in multiset(es + mes);
      }
    }
    forall i | 0 <= i < |events|
      ensures Entry(EventItem(events[i]), EventTime(events[i]), i) in t
    {
      assert es[i] in es + mes;
    }
    assert forall x :: x in es ==> x.item.EventItem?;
  }

  /** The events loop and the manual-actions loop of `buildActionTimeline`, then the sort. */
  method BuildActionTimeline(events: seq<RecordedEvent>, manualList: seq<Option<ManualAction>>)
    returns (timeline: seq<Entry<TimelineItem>>)
    ensures timeline == Timeline(events, manualList)
  {
    timeline := [];
    var sequence := 0;
    var maxEventTimestamp := 0;
    for i := 0 to |events|
      invariant sequence == i
      invariant timeline == EventEntries(events[..i])
      invariant maxEventTimestamp == MaxTime(events[..i])
    {
      var timestamp := if events[i].timestamp.Some? then events[i].timestamp.value else 0;
      if timestamp > maxEventTimestamp {
        maxEventTimestamp := timestamp;
      }
      timeline := timeline + [Entry(EventItem(events[i]), timestamp, sequence)];
      sequence := sequence + 1;
      TakeSnoc(events, i);
    }
    assert events[..|events|] == events;
    ghost var eventPart := timeline;
    assert manualList[0..] == manualList;
    for i := 0 to |manualList|
      invariant sequence >= |events|
      invariant eventPart + ManualEntries(manualList, |events|, maxEventTimestamp) ==
                timeline + ManualEntries(manualList[i..], sequence, maxEventTimestamp)
    {
      assert manualList[i..][1..] == manualList[i + 1..];
      if manualList[i].Some? {
        var action := manualList[i].value;
        var actionTime := if action.createdAt.Some? then action.createdAt.value else maxEventTimestamp + sequence * 100;
        timeline := timeline + [Entry(ManualItem(action), actionTime, sequence)];
        sequence := sequence + 1;
      }
    }
    assert manualList[|manualList|..] == [];
    assert timeline + [] == timeline;
    timeline := Sort(timeline);
  }

  /** `convertManualActionToEvent(action)`; `now` is `Date.now()`. */
  function ConvertManualActionToEvent(action: Option<ManualAction>, now: int): (r: Option<ManualEvent>)
    ensures r.None? <==> action.None?
    ensures r.Some? ==>
      var a := action.value;
      (r.value.action == if Truthy(a.actionType) then a.actionType.value else "click") &&
      (r.value.target == if |a.path| > 0 then Some(a.path[|a.path| - 1]) else None)
  {
    if action.None? then None
    else
      var a := action.value;
      Some(ManualEvent(OrElse(a.actionType, Some("click")).value,
                       if |a.path| > 0 then Some(a.path[|a.path| - 1]) else None,
                       OrElse(a.value, None),
                       if a.createdAt.Some? && a.createdAt.value != 0 then a.createdAt.value else now))
  }

  /** The queue entry of one timeline entry. */
  function QueueItem(item: TimelineItem, now: int): ReplayItem
  {
    match item
    case EventItem(e) => Recorded(e)
    case ManualItem(a) => Manual(ConvertManualActionToEvent(Some(a), now).value)
  }

  /** The queue of a timeline, in timeline order. */
  function Queue(timeline: seq<Entry<TimelineItem>>, now: int): (q: seq<ReplayItem>)
    ensures |q| == |timeline|
  {
    if timeline == [] then []
    else
      var k := |timeline| - 1;
      Queue(timeline[..k], now) + [QueueItem(timeline[k].item, now)]
  }

  lemma {:induction false} QueueAt(timeline: seq<Entry<TimelineItem>>, now: int)
    ensures forall i :: 0 <= i < |timeline| ==> Queue(timeline, now)[i] == QueueItem(timeline[i].item, now)
  {
    if timeline != [] {
      QueueAt(timeline[..|timeline| - 1], now);
    }
  }

  /** `buildReplayQueue(events, manualList)`. */
  method BuildReplayQueue(events: seq<RecordedEvent>, manualList: seq<Option<ManualAction>>, now: int)
    returns (queue: seq<ReplayItem>)
    ensures queue == Queue(Timeline(events, manualList), now)
  {
    var timeline := BuildActionTimeline(events, manualList);
    queue := [];
    for i := 0 to |timeline|
      invariant queue == Queue(timeline[..i], now)
    {
      var entry := timeline[i];
      match entry.item {
        case EventItem(e) =>
          queue := queue + [Recorded(e)];
        case ManualItem(a) =>
          var manualEvent := ConvertManualActionToEvent(Some(a), now);
          queue := queue + [Manual(manualEvent.value)];
      }
      TakeSnoc(timeline, i);
    }
    assert timeline[..|timeline|] == timeline;
  }

  /** The timeline, and so the queue, has one entry per event and per manual action object. */
  lemma QueueLength(events: seq<RecordedEvent>, ms: seq<Option<ManualAction>>, now: int)
    ensures |Timeline(events, ms)| == |events| + ObjectCount(ms)
    ensures |Queue(Timeline(events, ms), now)| == |events| + ObjectCount(ms)
  {
    ManualEntriesFacts(ms, |events|, MaxTime(events));
  }

  /**
   * The queue has one step per event plus one per manual action object,
   * each step converting the timeline entry at its position.
   */
  lemma ReplayQueueFacts(events: seq<RecordedEvent>, ms: seq<Option<ManualAction>>, now: int)
    ensures |Queue(Timeline(events, ms), now)| == |events| + ObjectCount(ms)
    ensures forall i :: 0 <= i < |Timeline(events, ms)| ==>
      Queue(Timeline(events, ms), now)[i] == QueueItem(Timeline(events, ms)[i].item, now)
  {
    TimelineFacts(events, ms);
    QueueAt(Timeline(events, ms), now);
  }

  // ---------------------------------------------------------------------
  // The replay state machine
  // ---------------------------------------------------------------------

  /** The `replay-execute-step` message sent for one step. */
  datatype StepMessage = StepMessage(sessionId: string, event: ReplayItem, index: nat, total: nat, timeoutMs: int)

  /** A `replay-step-result` message; `stepIndex` and `step` are present when defined. */
  datatype StepResult = StepResult(stepIndex: Option<int>, step: Option<int>, ok: bool, reason: JsStr, navigation: bool)

  /** What a handler did, as the recorder observes it. */
  datatype Outcome =
    | Skipped                // nothing happened
    | Finished               // finishReplay ran
    | Aborted(reason: string) // abortReplay ran with this reason
    | Sent(msg: StepMessage) // a step went to the page
    | Scheduled(delay: int)  // scheduleNextStep armed the step timer
    | AwaitingPage           // the navigation guard is armed

  datatype StartOutcome = AlreadyRunning | NothingToReplay | NoStartUrl | NoConnection
                        | Started(sessionId: string, url: string, events: seq<ReplayItem>)

  const NoSessionReason := "대상 세션을 찾을 수 없습니다."
  const DisconnectedReason := "WebSocket 연결이 끊어졌습니다."
  const PageTooSlowReason := "페이지 로딩이 너무 오래 걸립니다."
  const UnknownErrorReason := "알 수 없는 오류로 리플레이가 중단되었습니다."

  /** The step a result reports: `stepIndex`, else `step - 1`, else the expected one. */
  function ResultIndex(msg: StepResult, expected: int): int
  {
    if msg.stepIndex.Some? then msg.stepIndex.value
    else if msg.step.Some? then msg.step.value - 1
    else expected
  }

  /** The session of a replay started at `now`: `replay-<now>`. */
  function SessionId(now: nat): (s: string)
    ensures Truthy(Some(s))
  {
    "replay-" + NatToString(now)
  }

  /** The module-level `replayState` record. */
  class Replayer {
    var running: bool
    var events: seq<ReplayItem>
    var index: nat
    var sessionId: JsStr
    var pending: bool
    var awaitingNavigation: bool
    var awaitingContent: bool
    var navigationGuard: bool  // the navigation timeout is armed
    var scheduledTimer: bool   // the next-step timer is armed

    /** The state `resetReplayState` leaves. */
    predicate Idle()
      reads this
    {
      !running && events == [] && index == 0 && sessionId.None? && !pending &&
      !awaitingNavigation && !awaitingContent && !navigationGuard && !scheduledTimer
    }

    /**
     * What holds between handlers: a stopped replay is fully reset; a
     * running one points at an existing step; only a running replay has
     * a step in flight or a timer armed.
     */
    predicate Valid()
      reads this
    {
      (!running ==> Idle()) &&
      (running ==> index < |events|) &&
      (pending || navigationGuard || scheduledTimer ==> running)
    }

    constructor()
      ensures Idle() && Valid()
    {
      running, events, index, sessionId := false, [], 0, None;
      pending, awaitingNavigation, awaitingContent := false, false, false;
      navigationGuard, scheduledTimer := false, false;
    }

    /** `resetReplayState()`: both timers are cleared and every field returns to its initial value. */
    method Reset()
      modifies this
      ensures Idle() && Valid()
    {
      running, events, index, sessionId := false, [], 0, None;
      pending, awaitingNavigation, awaitingContent := false, false, false;
      navigationGuard, scheduledTimer := false, false;
    }

    /** `finishReplay()`: resets; the completion is logged when the replay was running. */
    method FinishReplay() returns (logged: bool)
      modifies this
      ensures Idle() && Valid() && logged == old(running)
    {
      logged := running;
      Reset();
    }

    /** `abortReplay(reason)`: resets and reports the reason, or a generic one. */
    method AbortReplay(reason: JsStr) returns (message: string)
      modifies this
      ensures Idle() && Valid()
      ensures message == if Truthy(reason) then reason.value else UnknownErrorReason
    {
      message := OrElse(reason, Some(UnknownErrorReason)).value;
      Reset();
    }

    /** `scheduleNextStep(delayMs)`: arms the step timer of a running replay, never with a negative delay. */
    method ScheduleNextStep(delayMs: int) returns (delay: int)
      modifies this
      ensures old(running) ==> scheduledTimer && delay == (if delayMs > 0 then delayMs else 0)
      ensures !old(running) ==> delay == 0
      ensures running == old(running) && events == old(events) && index == old(index) && sessionId == old(sessionId)
      ensures pending == old(pending) && navigationGuard == old(navigationGuard)
      ensures awaitingNavigation == old(awaitingNavigation) && awaitingContent == old(awaitingContent)
      ensures !old(running) ==> scheduledTimer == old(scheduledTimer)
      ensures old(Valid()) ==> Valid()
    {
      delay := 0;
      if !running { return; }
      scheduledTimer := true;
      delay := if delayMs > 0 then delayMs else 0;
    }

    /**
     * `sendReplayStep()`: nothing while stopped or waiting for a result;
     * finishes past the last step; aborts without a session; otherwise
     * marks the step as pending, clears the navigation guard and sends the
     * step, aborting when the connection is not open.
     */
    method SendReplayStep(wsOpen: bool) returns (out: Outcome)
      modifies this
      ensures !old(running) || old(pending) ==> out == Skipped && unchanged(this)
      ensures old(running) && !old(pending) && old(index) >= |old(events)| ==> out == Finished && Idle()
      ensures old(running) && !old(pending) && old(index) < |old(events)| && !Truthy(old(sessionId)) ==>
        out == Aborted(NoSessionReason) && Idle()
      ensures old(running) && !old(pending) && old(index) < |old(events)| && Truthy(old(sessionId)) && !wsOpen ==>
        out == Aborted(DisconnectedReason) && Idle()
      ensures old(running) && !old(pending) && old(index) < |old(events)| && Truthy(old(sessionId)) && wsOpen ==>
        out == Sent(StepMessage(old(sessionId).value, old(events)[old(index)], old(index), |old(events)|, StepTimeoutMs)) &&
        running && pending && !navigationGuard && events == old(events) && index == old(index) &&
        sessionId == old(sessionId) && scheduledTimer == old(scheduledTimer) &&
        awaitingNavigation == old(awaitingNavigation) && awaitingContent == old(awaitingContent)
      ensures old(Valid()) ==> Valid()
    {
      if !running || pending {
        return Skipped;
      }
      if index >= |events| {
        var _ := FinishReplay();
        return Finished;
      }
      var currentEvent := events[index];
      if !Truthy(sessionId) {
        var reason := AbortReplay(Some(NoSessionReason));
        return Aborted(reason);
      }
      pending := true;
      navigationGuard := false;
      if wsOpen {
        out := Sent(StepMessage(sessionId.value, currentEvent, index, |events|, StepTimeoutMs));
      } else {
        var reason := AbortReplay(Some(DisconnectedReason));
        out := Aborted(reason);
      }
    }

    /** The step timer fires: it disarms itself and sends the next step. */
    method TimerFires(wsOpen: bool) returns (out: Outcome)
      requires scheduledTimer
      modifies this
      ensures out == Skipped || out == Finished || out.Aborted? || out.Sent?
      ensures old(Valid()) ==> Valid()
      ensures out.Sent? ==> !scheduledTimer && pending && index == old(index)
    {
      scheduledTimer := false;
      out := SendReplayStep(wsOpen);
    }

    /**
     * The ten-second response timeout of a sent step: when the step is
     * still pending, the replay moves past it, finishing after the last
     * step and otherwise scheduling the next one.
     */
    method ResponseTimeout() returns (out: Outcome)
      modifies this
      ensures !(old(pending) && old(running)) ==> out == Skipped && unchanged(this)
      ensures old(pending) && old(running) && old(index) + 1 >= |old(events)| ==> out == Finished && Idle()
      ensures old(pending) && old(running) && old(index) + 1 < |old(events)| ==>
        out == Scheduled(StepDelayMs) && !pending && index == old(index) + 1 && running && scheduledTimer &&
        events == old(events) && sessionId == old(sessionId) && navigationGuard == old(navigationGuard)
      ensures old(Valid()) ==> Valid()
    {
      if pending && running {
        pending := false;
        index := index + 1;
        if index >= |events| {
          var _ := FinishReplay();
          return Finished;
        }
        var delay := ScheduleNextStep(StepDelayMs);
        return Scheduled(delay);
      }
      return Skipped;
    }

    /**
     * `handleReplayStepResult(msg)`: a result for another step is ignored;
     * a failure aborts; a success advances to the following step, finishing
     * after the last one, waiting for the page after a navigation, and
     * otherwise scheduling the next step.
     */
    method HandleReplayStepResult(msg: StepResult) returns (out: Outcome)
      modifies this
      ensures !old(running) || ResultIndex(msg, old(index)) != old(index) ==> out == Skipped && unchanged(this)
      ensures old(running) && ResultIndex(msg, old(index)) == old(index) && !msg.ok ==>
        out == Aborted(if Truthy(msg.reason) then msg.reason.value else "step failed") && Idle()
      ensures old(running) && ResultIndex(msg, old(index)) == old(index) && msg.ok && old(index) + 1 >= |old(events)| ==>
        out == Finished && Idle()
      ensures old(running) && ResultIndex(msg, old(index)) == old(index) && msg.ok && old(index) + 1 < |old(events)| ==>
        running && !pending && index == old(index) + 1 && events == old(events) && sessionId == old(sessionId) &&
        (msg.navigation ==> out == AwaitingPage && awaitingNavigation && awaitingContent && navigationGuard &&
                            scheduledTimer == old(scheduledTimer)) &&
        (!msg.navigation ==> out == Scheduled(StepDelayMs) && scheduledTimer && navigationGuard == old(navigationGuard) &&
                             awaitingNavigation == old(awaitingNavigation))
      ensures old(Valid()) ==> Valid()
    {
      if !running { return Skipped; }
      var expectedIndex := index;
      var msgIndex := ResultIndex(msg, expectedIndex);
      if msgIndex != expectedIndex {
        return Skipped;
      }
      pending := false;
      if !msg.ok {
        var reason := AbortReplay(OrElse(msg.reason, Some("step failed")));
        return Aborted(reason);
      }
      index := expectedIndex + 1;
      if index >= |events| {
        var _ := FinishReplay();
        return Finished;
      }
      if msg.navigation {
        awaitingNavigation := true;
        awaitingContent := true;
        navigationGuard := true;
        return AwaitingPage;
      }
      var delay := ScheduleNextStep(StepDelayMs);
      return Scheduled(delay);
    }

    /** The navigation guard fires: the page took too long, and the replay aborts. */
    method NavigationTimeout() returns (out: Outcome)
      requires navigationGuard
      modifies this
      ensures out == Aborted(PageTooSlowReason) && Idle()
    {
      navigationGuard := false;
      var reason := AbortReplay(Some(PageTooSlowReason));
      out := Aborted(reason);
    }

    /**
     * `startReplay(...)`: refuses while a replay runs, with an empty queue,
     * without a start URL or without an open connection (in that order);
     * otherwise starts at the first step of the queue under the session
     * `replay-<now>`. `startUrl` is the trimmed test-URL field.
     */
    method StartReplay(allEvents: seq<RecordedEvent>, manualActions: seq<Option<ManualAction>>,
                       startUrl: string, wsOpen: bool, now: nat) returns (out: StartOutcome)
      modifies this
      ensures !out.Started? ==> unchanged(this)
      ensures out == AlreadyRunning <==> old(running)
      ensures out == NothingToReplay <==> !old(running) && |allEvents| + ObjectCount(manualActions) == 0
      ensures out == NoStartUrl ==> startUrl == ""
      ensures out == NoConnection ==> !wsOpen
      ensures out.Started? <==> !old(running) && |allEvents| + ObjectCount(manualActions) > 0 && startUrl != "" && wsOpen
      ensures out.Started? ==>
        out.url == startUrl && out.sessionId == SessionId(now) &&
        out.events == Queue(Timeline(allEvents, manualActions), now) &&
        running && events == out.events && index == 0 && sessionId == Some(out.sessionId) && !pending &&
        !awaitingNavigation && !awaitingContent && !navigationGuard && !scheduledTimer && Valid()
      ensures old(Valid()) ==> Valid()
    {
      if running {
        return AlreadyRunning;
      }
      var queue := BuildReplayQueue(allEvents, manualActions, now);
      QueueLength(allEvents, manualActions, now);
      if |queue| == 0 {
        return NothingToReplay;
      }
      if startUrl == "" {
        return NoStartUrl;
      }
      if !wsOpen {
        return NoConnection;
      }
      var session := SessionId(now);
      Reset();
      running := true;
      events := queue;
      index := 0;
      sessionId := Some(session);
      out := Started(session, startUrl, queue);
    }
  }
}
