/**
 * The selector candidate record shared by the recorder, the selector
 * utilities and the code generator.
 *
 * Every field of the JavaScript object is optional; a missing field is
 * `None`. Only the fields the modelled functions read or write appear.
 */
module Candidates {
  import opened JsStrings

  datatype Candidate = Candidate(
    selector: JsStr,
    selectorType: JsStr,
    score: Option<int>,
    unique: Option<bool>,
    relation: JsStr,
    matchCount: Option<int>,
    reason: JsStr,
    textValue: JsStr,
    xpathValue: JsStr,
    matchMode: JsStr,
    source: JsStr,
    rawSelector: JsStr,
    rawType: JsStr,
    rawMatchCount: Option<int>,
    rawUnique: Option<bool>,
    rawReason: JsStr,
    nthApplied: Option<int>,
    nthTotal: Option<int>,
    nthTag: JsStr,
    autoDerived: bool,
    derived: bool)

  /** A candidate object with no field set. */
  const Blank := Candidate(None, None, None, None, None, None, None, None, None, None, None,
                           None, None, None, None, None, None, None, None, false, false)

  /** A candidate carrying only a selector and a type. */
  function WithSelector(selector: string, selectorType: string): (c: Candidate)
    ensures c.selector == Some(selector) && c.selectorType == Some(selectorType)
  {
    Blank.(selector := Some(selector), selectorType := Some(selectorType))
  }

  /** `c.score || 0`. */
  function ScoreOrZero(c: Candidate): int
  {
    if c.score.Some? then c.score.value else 0
  }

  /** `c.unique` as JavaScript truthiness. */
  predicate IsUnique(c: Candidate) { c.unique == Some(true) }

  /** `c.relation === "relative" ? 1 : 0`. */
  function RelativeRank(c: Candidate): int
  {
    if c.relation == Some("relative") then 1 else 0
  }
}
