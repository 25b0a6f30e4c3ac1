/**
 * AI selector suggestions in the recorder (`recorder-ai.js`): the per-event
 * suggestion state kept in a map from a key derived from the event, and the
 * clean-up of the candidates an AI endpoint returns.
 *
 * The map (`aiSuggestionState`) is a field of a class whose methods are the
 * module's `getAiState` and `setAiState`.
 */
module RecorderAi {
  import opened JsStrings
  import opened Candidates
  import opened EventRecords
  import SelectorUtils

  /** Which property of the event a state key comes from. */
  datatype KeySource = ById(v: Scalar) | ByManualId(v: Scalar) | ByTimestamp(v: Scalar) | ByCreatedAt(v: Scalar)

  /** `event.manual && event.manual.id`. */
  function ManualId(e: EventRecord): Option<Scalar>
  {
    if e.manual.Val? && e.manual.value.ManualInfo? then e.manual.value.id else None
  }

  /** The first truthy of `id`, `manual.id`, `timestamp`, `createdAt`. */
  function KeySourceOf(e: EventRecord): (r: Option<KeySource>)
    ensures r.None? <==>
      !ScalarTruthy(e.id) && !ScalarTruthy(ManualId(e)) && !ScalarTruthy(e.timestamp) && !ScalarTruthy(e.createdAt)
  {
    if ScalarTruthy(e.id) then Some(ById(e.id.value))
    else if ScalarTruthy(ManualId(e)) then Some(ByManualId(ManualId(e).value))
    else if ScalarTruthy(e.timestamp) then Some(ByTimestamp(e.timestamp.value))
    else if ScalarTruthy(e.createdAt) then Some(ByCreatedAt(e.createdAt.value))
    else None
  }

  function KeyPrefix(src: KeySource): string
  {
    match src
    case ById(_) => "id:"
    case ByManualId(_) => "manual:"
    case ByTimestamp(_) => "ts:"
    case ByCreatedAt(_) => "created:"
  }

  /** `getAiStateKey`: a prefixed key, or `null` for a non-object or an event without any of the four. */
  function AiStateKey(e: Option<EventRecord>): (r: JsStr)
    ensures r.None? <==> e.None? || KeySourceOf(e.value).None?
  {
    if e.None? then None
    else
      match KeySourceOf(e.value)
      case None => None
      case Some(src) => Some(KeyPrefix(src) + Render(src.v))
  }

  lemma PrefixesDiffer(a: KeySource, b: KeySource, ra: string, rb: string)
    requires KeyPrefix(a) + ra == KeyPrefix(b) + rb
    ensures KeyPrefix(a) == KeyPrefix(b) && ra == rb
  {
    var x := KeyPrefix(a) + ra;
    assert x[..|KeyPrefix(a)|] == KeyPrefix(a);
    assert x[..|KeyPrefix(b)|] == KeyPrefix(b);
    assert x[0] == KeyPrefix(a)[0] == KeyPrefix(b)[0];
    assert ra == x[|KeyPrefix(a)|..];
  }

  /**
   * Keys from different properties never collide: two events share a key
   * only when it comes from the same property with the same rendering.
   */
  lemma AiStateKeyInjective(a: EventRecord, b: EventRecord)
    requires AiStateKey(Some(a)) == AiStateKey(Some(b)) != None
    ensures KeyPrefix(KeySourceOf(a).value) == KeyPrefix(KeySourceOf(b).value)
    ensures Render(KeySourceOf(a).value.v) == Render(KeySourceOf(b).value.v)
  {
    var sa := KeySourceOf(a).value;
    var sb := KeySourceOf(b).value;
    PrefixesDiffer(sa, sb, Render(sa.v), Render(sb.v));
  }

  /** One entry of `aiSuggestionState`: `{status, error, updatedAt}`. */
  datatype AiState = AiState(status: string, error: JsStr, updatedAt: Option<Scalar>)

  /** `{status: 'idle', error: null}`. */
  const IdleState := AiState("idle", None, None)

  /** The state `getAiState` creates for an event seen for the first time. */
  function InitialState(e: EventRecord): (r: AiState)
    ensures r.status == "loaded" <==> NonEmptyList(e.aiSelectorCandidates)
    ensures r.status == "idle" <==> !NonEmptyList(e.aiSelectorCandidates)
    ensures r.error == None
  {
    if NonEmptyList(e.aiSelectorCandidates) then
      AiState("loaded", None, if ScalarTruthy(e.aiSelectorsUpdatedAt) then e.aiSelectorsUpdatedAt else None)
    else IdleState
  }

  /** The properties a `setAiState` patch carries (`Some` when present). */
  datatype AiPatch = AiPatch(status: Option<string>, error: Option<JsStr>, updatedAt: Option<Option<Scalar>>)

  /** `{...prev, ...patch}`. */
  function Merge(prev: AiState, patch: AiPatch): (r: AiState)
  {
    AiState(
      if patch.status.Some? then patch.status.value else prev.status,
      if patch.error.Some? then patch.error.value else prev.error,
      if patch.updatedAt.Some? then patch.updatedAt.value else prev.updatedAt)
  }

  /** A patch overrides exactly the properties it carries; merging it twice is merging it once. */
  lemma MergeFacts(prev: AiState, patch: AiPatch)
    ensures patch.status.Some? ==> Merge(prev, patch).status == patch.status.value
    ensures patch.status.None? ==> Merge(prev, patch).status == prev.status
    ensures patch.error.Some? ==> Merge(prev, patch).error == patch.error.value
    ensures patch.error.None? ==> Merge(prev, patch).error == prev.error
    ensures patch.updatedAt.Some? ==> Merge(prev, patch).updatedAt == patch.updatedAt.value
    ensures patch.updatedAt.None? ==> Merge(prev, patch).updatedAt == prev.updatedAt
    ensures Merge(Merge(prev, patch), patch) == Merge(prev, patch)
    ensures Merge(prev, AiPatch(None, None, None)) == prev
  {
  }

  /** The suggestion-state map (`aiSuggestionState`). */
  class AiSuggestions {
    var states: map<string, AiState>

    constructor()
      ensures states == map[]
    {
      states := map[];
    }

    /**
     * `getAiState`: an event without a key gets a fresh idle state and the
     * map is untouched; otherwise the stored state, created and stored on
     * first use.
     */
    method GetState(e: Option<EventRecord>) returns (s: AiState)
      modifies this
      ensures AiStateKey(e).None? ==> s == IdleState && states == old(states)
      ensures AiStateKey(e).Some? ==> AiStateKey(e).value in states && states[AiStateKey(e).value] == s
      ensures AiStateKey(e).Some? && AiStateKey(e).value in old(states) ==>
        s == old(states)[AiStateKey(e).value] && states == old(states)
      ensures AiStateKey(e).Some? && AiStateKey(e).value !in old(states) ==>
        s == InitialState(e.value) && states == old(states)[AiStateKey(e).value := s]
    {
      var key := AiStateKey(e);
      if key.None? {
        return IdleState;
      }
      if key.value in states {
        return states[key.value];
      }
      s := InitialState(e.value);
      states := states[key.value := s];
    }

    /**
     * `setAiState`: `null` and no change without a key; otherwise the stored
     * (or idle) state merged with the patch, stored and returned.
     */
    method SetState(e: Option<EventRecord>, patch: AiPatch) returns (r: Option<AiState>)
      modifies this
      ensures AiStateKey(e).None? ==> r.None? && states == old(states)
      ensures AiStateKey(e).Some? ==>
        var key := AiStateKey(e).value;
        && r == Some(Merge(if key in old(states) then old(states)[key] else IdleState, patch))
        && states == old(states)[key := r.value]
    {
      var key := AiStateKey(e);
      if key.None? {
        return None;
      }
      var prev := if key.value in states then states[key.value] else IdleState;
      var next := Merge(prev, patch);
      states := states[key.value := next];
      r := Some(next);
    }
  }

  /** The greatest number of candidates kept. */
  const MaxAiCandidates := 12

  /** The default reason of an AI candidate. */
  const AiReason := "AI 추천"

  /** The trimmed selector of an entry, or `''` for a non-object or a non-string selector. */
  function SelectorText(c: Option<Candidate>): string
  {
    if c.None? || c.value.selector.None? then "" else Trim(c.value.selector.value)
  }

  lemma SelectorTextTrimmed(c: Option<Candidate>)
    ensures Trim(SelectorText(c)) == SelectorText(c)
  {
    if c.Some? && c.value.selector.Some? {
      TrimIdempotent(c.value.selector.value);
    }
  }

  /** `normalized.type || inferSelectorType(selector)`. */
  function KindOf(c: Candidate, s: string): (r: string)
    ensures r != ""
  {
    SelectorUtils.InferSelectorTypeKnown(Some(s));
    if Truthy(c.selectorType) then c.selectorType.value else SelectorUtils.InferSelectorType(Some(s))
  }

  /** `normalized.reason || 'AI 추천'`. */
  function ReasonOf(c: Candidate): (r: string)
    ensures r != ""
  {
    if Truthy(c.reason) then c.reason.value else AiReason
  }

  /** The copy of `c` with the trimmed selector, the type, the reason and the raw fields filled in. */
  function Filled(c: Candidate, s: string): (r: Candidate)
    ensures r.selector == Some(s) && r.selectorType == Some(KindOf(c, s)) && r.reason == Some(ReasonOf(c))
    ensures r.source == Some("ai")
  {
    c.(
      selector := Some(s),
      selectorType := Some(KindOf(c, s)),
      reason := Some(ReasonOf(c)),
      rawSelector := if c.rawSelector.None? then Some(s) else c.rawSelector,
      rawType := if c.rawType.None? then Some(KindOf(c, s)) else c.rawType,
      rawMatchCount := if c.rawMatchCount.None? then c.matchCount else c.rawMatchCount,
      rawUnique := if c.rawUnique.None? then c.unique else c.rawUnique,
      rawReason := if c.rawReason.None? then Some(ReasonOf(c)) else c.rawReason,
      source := Some("ai"))
  }

  /** The clean-up of one AI candidate whose trimmed selector is `s`. */
  function NormalizeOne(c: Candidate, s: string): (r: Candidate)
    ensures r.selector == Some(s) && r.selectorType == Some(KindOf(c, s)) && r.reason == Some(ReasonOf(c))
    ensures r.source == Some("ai")
    ensures KindOf(c, s) != "text" ==> r.matchMode.None? && r.textValue.None?
    ensures KindOf(c, s) == "text" ==> Truthy(r.matchMode)
  {
    var n := Filled(c, s);
    if KindOf(c, s) != "text" then n.(matchMode := None, textValue := None)
    else n.(matchMode := if Truthy(c.matchMode) then c.matchMode else Some("exact"))
  }

  /** What every cleaned candidate satisfies. */
  ghost predicate CleanAi(r: Candidate)
  {
    && r.selector.Some? && r.selector.value != "" && Trim(r.selector.value) == r.selector.value
    && r.source == Some("ai")
    && Truthy(r.selectorType) && Truthy(r.reason)
    && (r.selectorType != Some("text") ==> r.matchMode.None? && r.textValue.None?)
    && (r.selectorType == Some("text") ==> Truthy(r.matchMode))
  }

  lemma NormalizeOneClean(c: Candidate, s: string)
    requires s != "" && Trim(s) == s
    ensures CleanAi(NormalizeOne(c, s))
    ensures NormalizeOne(c, s).selector == Some(s)
  {
  }

  /** The candidates kept from `cs`, given the selectors already `seen`. */
  function NormalizedFrom(cs: seq<Option<Candidate>>, seen: set<string>): (r: seq<Candidate>)
    ensures |r| <= |cs|
  {
    if cs == [] then [] else Kept(cs[0], seen) + NormalizedFrom(cs[1..], SeenAfter(cs[0], seen))
  }

  /** Whether the entry `c` is kept: a non-blank selector not seen before. */
  predicate Fresh(c: Option<Candidate>, seen: set<string>)
  {
    SelectorText(c) != "" && SelectorText(c) !in seen
  }

  /** What the entry `c` contributes. */
  function Kept(c: Option<Candidate>, seen: set<string>): (r: seq<Candidate>)
    ensures |r| <= 1
  {
    if Fresh(c, seen) then [NormalizeOne(c.value, SelectorText(c))] else []
  }

  /** The selectors seen once `c` is processed. */
  function SeenAfter(c: Option<Candidate>, seen: set<string>): set<string>
  {
    if Fresh(c, seen) then seen + {SelectorText(c)} else seen
  }

  /** `normalizeAiCandidates` as a value: `[]` for a non-array, at most twelve otherwise. */
  function AiCandidates(candidates: Option<seq<Option<Candidate>>>): (r: seq<Candidate>)
  {
    if candidates.None? then []
    else
      var all := NormalizedFrom(candidates.value, {});
      if |all| > MaxAiCandidates then all[..MaxAiCandidates] else all
  }

  /** Every candidate of `r` is clean and has a selector outside `seen`. */
  ghost predicate AllClean(r: seq<Candidate>, seen: set<string>)
  {
    forall i :: 0 <= i < |r| ==> CleanAi(r[i]) && r[i].selector.value !in seen
  }

  /** No two candidates of `r` share a selector. */
  ghost predicate DistinctSelectors(r: seq<Candidate>)
  {
    forall i, j :: 0 <= i < j < |r| ==> r[i].selector != r[j].selector
  }

  lemma ConsClean(h: Candidate, s: string, t: seq<Candidate>, seen: set<string>)
    requires CleanAi(h) && h.selector == Some(s) && s !in seen
    requires AllClean(t, seen + {s}) && DistinctSelectors(t)
    ensures AllClean([h] + t, seen) && DistinctSelectors([h] + t)
  {
    var r := [h] + t;
    forall i | 0 <= i < |r| ensures CleanAi(r[i]) && r[i].selector.value !in seen {
      if i > 0 { assert r[i] == t[i - 1]; }
    }
    forall i, j | 0 <= i < j < |r| ensures r[i].selector != r[j].selector {
      assert r[j] == t[j - 1];
      if i > 0 { assert r[i] == t[i - 1]; }
    }
  }

  /** One step of the scan, in the form the loop below uses. */
  lemma NormalizedFromStep(cs: seq<Option<Candidate>>, i: nat, seen: set<string>, kept: seq<Candidate>)
    requires i < |cs|
    ensures kept + NormalizedFrom(cs[i..], seen)
            == (kept + Kept(cs[i], seen)) + NormalizedFrom(cs[i + 1..], SeenAfter(cs[i], seen))
  {
    assert cs[i..][1..] == cs[i + 1..];
  }

  /** Every kept candidate is clean, none has a selector already seen, and no two share a selector. */
  lemma {:induction false} NormalizedFromFacts(cs: seq<Option<Candidate>>, seen: set<string>)
    ensures AllClean(NormalizedFrom(cs, seen), seen)
    ensures DistinctSelectors(NormalizedFrom(cs, seen))
  {
    if cs != [] {
      var s := SelectorText(cs[0]);
      if !Fresh(cs[0], seen) {
        NormalizedFromFacts(cs[1..], seen);
      } else {
        NormalizedFromFacts(cs[1..], seen + {s});
        SelectorTextTrimmed(cs[0]);
        NormalizeOneClean(cs[0].value, s);
        ConsClean(NormalizeOne(cs[0].value, s), s, NormalizedFrom(cs[1..], seen + {s}), seen);
      }
    }
  }

  /**
   * At most twelve candidates, each with a trimmed, non-empty selector no
   * other one shares, marked as coming from the AI, typed, with a reason,
   * and with the text-only properties present exactly on text candidates.
   */
  lemma AiCandidatesFacts(candidates: Option<seq<Option<Candidate>>>)
    ensures |AiCandidates(candidates)| <= MaxAiCandidates
    ensures forall i :: 0 <= i < |AiCandidates(candidates)| ==> CleanAi(AiCandidates(candidates)[i])
    ensures forall i, j :: 0 <= i < j < |AiCandidates(candidates)| ==>
      AiCandidates(candidates)[i].selector != AiCandidates(candidates)[j].selector
  {
    if candidates.Some? {
      var all := NormalizedFrom(candidates.value, {});
      NormalizedFromFacts(candidates.value, {});
      if |all| > MaxAiCandidates {
        assert AllClean(all[..MaxAiCandidates], {}) && DistinctSelectors(all[..MaxAiCandidates]);
      }
    }
  }

  /** A candidate with a fresh non-blank selector is kept, as the first entry. */
  lemma FirstFreshKept(c: Candidate, rest: seq<Option<Candidate>>)
    requires c.selector.Some? && Trim(c.selector.value) != ""
    ensures AiCandidates(Some([Some(c)] + rest)) != []
    ensures AiCandidates(Some([Some(c)] + rest))[0] == NormalizeOne(c, Trim(c.selector.value))
  {
    assert ([Some(c)] + rest)[1..] == rest;
  }

  /** `normalizeAiCandidates`: the entries in order, keeping the first of each trimmed selector, then the first twelve. */
  method NormalizeAiCandidates(candidates: Option<seq<Option<Candidate>>>) returns (r: seq<Candidate>)
    ensures r == AiCandidates(candidates)
  {
    if candidates.None? {
      return [];
    }
    var cs := candidates.value;
    var seen: set<string> := {};
    var kept: seq<Candidate> := [];
    var i := 0;
    while i < |cs|
      invariant 0 <= i <= |cs|
      invariant kept + NormalizedFrom(cs[i..], seen) == NormalizedFrom(cs, {})
    {
      NormalizedFromStep(cs, i, seen, kept);
      kept := kept + Kept(cs[i], seen);
      seen := SeenAfter(cs[i], seen);
      i := i + 1;
    }
    assert cs[i..] == [];
    r := if |kept| > MaxAiCandidates then kept[..MaxAiCandidates] else kept;
  }
}
