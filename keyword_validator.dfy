/**
 * Validation and normalisation of keyword steps before they are turned into
 * code: required fields and parameters per keyword, the recognised target
 * formats, and the clean-up of step fields.
 */
module KeywordValidator {
  import opened JsStrings
  import opened KeywordLibrary

  /** A step as the validator reads it. */
  datatype Step = Step(action: JsStr, target: JsStr, value: JsStr, description: JsStr)

  /** The messages the validator reports, by kind; `stepNo` is the 1-based step number they name. */
  datatype Issue =
    | ActionRequired(stepNo: int)
    | UnknownKeyword(stepNo: int, action: string)
    | TargetRequired(stepNo: int, action: string)
    | ValueMissing(stepNo: int, action: string)
    | UrlRequired(stepNo: int, action: string)
    | NonstandardTarget(stepNo: int, message: string)
    | StepsNotArray
    | NoSteps

  datatype ValidationResult = ValidationResult(valid: bool, errors: seq<Issue>, warnings: seq<Issue>)

  // ---------------------------------------------------------------------
  // validateTarget
  // ---------------------------------------------------------------------

  /** `[\w-]+` over the whole string. */
  predicate IsNameChars(s: string)
  {
    |s| >= 1 && forall i :: 0 <= i < |s| ==> IsWordChar(s[i]) || s[i] == '-'
  }

  /** `/^#[\w-]+$/`. */
  predicate IsIdSelector(t: string) { |t| >= 1 && t[0] == '#' && IsNameChars(t[1..]) }

  /** `/^\.[\w-]+$/`. */
  predicate IsClassSelector(t: string) { |t| >= 1 && t[0] == '.' && IsNameChars(t[1..]) }

  /** A character of the class `[\w\s#.\[\]:-]`. */
  predicate IsCssChar(c: char)
  {
    IsWordChar(c) || IsJsSpace(c) || c == '#' || c == '.' || c == '[' || c == ']' || c == ':' || c == '-'
  }

  /** `/^[\w\s#.\[\]:-]+$/`. */
  predicate IsCssSelector(t: string) { |t| >= 1 && forall i :: 0 <= i < |t| ==> IsCssChar(t[i]) }

  /** The first of the selector patterns, in their declared order, that the trimmed target matches. */
  function SelectorKind(t: string): Option<string>
  {
    if IsIdSelector(t) then Some("id")
    else if IsClassSelector(t) then Some("class")
    else if IsCssSelector(t) then Some("css")
    else if StartsWith(t, "//") then Some("xpath")
    else if StartsWith(t, "link=") then Some("linkText")
    else if StartsWith(t, "partialLink=") then Some("partialLinkText")
    else if StartsWith(t, "name=") then Some("name")
    else if StartsWith(t, "tag=") then Some("tag")
    else None
  }

  datatype TargetCheck = TargetCheck(valid: bool, kind: Option<string>, message: string)

  /** `validateTarget(target)` on string (or missing) targets. */
  function ValidateTarget(target: JsStr): TargetCheck
  {
    if !Truthy(target) then TargetCheck(false, None, "타겟은 문자열이어야 합니다.")
    else
      match SelectorKind(Trim(target.value))
      case Some(kind) => TargetCheck(true, Some(kind), kind + " 선택자로 인식됨")
      case None =>
        if StartsWith(target.value, "http://") || StartsWith(target.value, "https://") then
          TargetCheck(true, Some("url"), "URL로 인식됨")
        else
          TargetCheck(true, Some("unknown"), "표준 선택자 형식이 아닐 수 있습니다")
  }

  /**
   * Only a missing or empty target is rejected: every non-empty string is
   * accepted, as a selector kind, a URL or an unknown format.
   */
  lemma ValidateTargetFacts(target: JsStr)
    ensures ValidateTarget(target).valid <==> Truthy(target)
    ensures Truthy(target) ==> ValidateTarget(target).kind.Some?
    ensures Truthy(target) ==> (ValidateTarget(target).kind == Some("id") <==> IsIdSelector(Trim(target.value)))
    ensures Truthy(target) ==> (ValidateTarget(target).kind == Some("url") <==>
      !IsIdSelector(Trim(target.value)) && !IsClassSelector(Trim(target.value)) && !IsCssSelector(Trim(target.value)) &&
      !StartsWith(Trim(target.value), "//") && !StartsWith(Trim(target.value), "link=") &&
      !StartsWith(Trim(target.value), "partialLink=") && !StartsWith(Trim(target.value), "name=") &&
      !StartsWith(Trim(target.value), "tag=") &&
      (StartsWith(target.value, "http://") || StartsWith(target.value, "https://")))
  {
    if Truthy(target) {
      var t := Trim(target.value);
      assert SelectorKind(t) != Some("url") && SelectorKind(t) != Some("id") ==> !IsIdSelector(t);
    }
  }

  // ---------------------------------------------------------------------
  // validateStep
  // ---------------------------------------------------------------------

  /** Keywords for which a missing `value` is not worth a warning. */
  const OptionalValueKeywords: seq<string> := ["clear", "verifyElementPresent", "verifyElementNotPresent"]

  datatype Finding = NoFinding | Error(issue: Issue) | Warning(issue: Issue)

  /** What one declared parameter of the step's keyword contributes. */
  function ParamFinding(param: string, step: Step, stepNo: int): Finding
    requires Truthy(step.action)
  {
    if param == "target" && !Truthy(step.target) then Error(TargetRequired(stepNo, step.action.value))
    else if param == "value" && !Truthy(step.value) then
      (if step.action.value in OptionalValueKeywords then NoFinding else Warning(ValueMissing(stepNo, step.action.value)))
    else if param == "url" && !Truthy(step.target) && !Truthy(step.value) then Error(UrlRequired(stepNo, step.action.value))
    else NoFinding
  }

  /** The errors of the parameter loop over `params`. */
  function ParamErrors(params: seq<string>, step: Step, stepNo: int): seq<Issue>
    requires Truthy(step.action)
  {
    if params == [] then []
    else
      var f := ParamFinding(params[|params| - 1], step, stepNo);
      ParamErrors(params[..|params| - 1], step, stepNo) + (if f.Error? then [f.issue] else [])
  }

  /** The warnings of the parameter loop over `params`. */
  function ParamWarnings(params: seq<string>, step: Step, stepNo: int): seq<Issue>
    requires Truthy(step.action)
  {
    if params == [] then []
    else
      var f := ParamFinding(params[|params| - 1], step, stepNo);
      ParamWarnings(params[..|params| - 1], step, stepNo) + (if f.Warning? then [f.issue] else [])
  }

  /** The warning about a target whose format `validateTarget` rejects. */
  function TargetWarnings(step: Step, stepNo: int): seq<Issue>
  {
    if Truthy(step.target) && !ValidateTarget(step.target).valid then
      [NonstandardTarget(stepNo, ValidateTarget(step.target).message)]
    else []
  }

  /** What `validateStep(step, index)` returns. */
  function StepValidation(step: Step, index: int): ValidationResult
  {
    var no := index + 1;
    if !Truthy(step.action) then ValidationResult(false, [ActionRequired(no)], [])
    else
      match GetKeyword(step.action.value)
      case None => ValidationResult(false, [UnknownKeyword(no, step.action.value)], [])
      case Some(k) =>
        var errors := ParamErrors(k.parameters, step, no);
        ValidationResult(errors == [], errors, ParamWarnings(k.parameters, step, no) + TargetWarnings(step, no))
  }

  /** `validateStep(step, index)`. */
  method ValidateStep(step: Step, index: int) returns (r: ValidationResult)
    ensures r == StepValidation(step, index)
  {
    var no := index + 1;
    if !Truthy(step.action) {
      return ValidationResult(false, [ActionRequired(no)], []);
    }
    var keyword := GetKeyword(step.action.value);
    if keyword.None? {
      return ValidationResult(false, [UnknownKeyword(no, step.action.value)], []);
    }
    var errors, warnings := CheckParams(keyword.value.parameters, step, no);
    if Truthy(step.target) {
      var check := ValidateTarget(step.target);
      if !check.valid {
        warnings := warnings + [NonstandardTarget(no, check.message)];
      }
    }
    r := ValidationResult(|errors| == 0, errors, warnings);
  }

  /** The loop over the keyword's declared parameters. */
  method CheckParams(params: seq<string>, step: Step, no: int) returns (errors: seq<Issue>, warnings: seq<Issue>)
    requires Truthy(step.action)
    ensures errors == ParamErrors(params, step, no)
    ensures warnings == ParamWarnings(params, step, no)
  {
    errors := [];
    warnings := [];
    var i := 0;
    while i < |params|
      invariant 0 <= i <= |params|
      invariant errors == ParamErrors(params[..i], step, no)
      invariant warnings == ParamWarnings(params[..i], step, no)
    {
      var param := params[i];
      ParamsSnoc(params, i, step, no);
      if param == "target" && !Truthy(step.target) {
        errors := errors + [TargetRequired(no, step.action.value)];
      } else if param == "value" && !Truthy(step.value) {
        if step.action.value !in OptionalValueKeywords {
          warnings := warnings + [ValueMissing(no, step.action.value)];
        }
      } else if param == "url" && !Truthy(step.target) && !Truthy(step.value) {
        errors := errors + [UrlRequired(no, step.action.value)];
      }
      i := i + 1;
    }
    assert params[..|params|] == params;
  }

  lemma ParamsSnoc(params: seq<string>, i: nat, step: Step, stepNo: int)
    requires i < |params| && Truthy(step.action)
    ensures var f := ParamFinding(params[i], step, stepNo);
      ParamErrors(params[..i + 1], step, stepNo) == ParamErrors(params[..i], step, stepNo) + (if f.Error? then [f.issue] else []) &&
      ParamWarnings(params[..i + 1], step, stepNo) == ParamWarnings(params[..i], step, stepNo) + (if f.Warning? then [f.issue] else [])
  {
    TakeSnoc(params, i);
    assert params[..i + 1][..i] == params[..i];
  }

  /** The reference reading of the parameter checks: a `target` parameter needs a target, a `url` one a target or a value. */
  predicate ParamsSatisfied(params: seq<string>, step: Step)
  {
    forall i :: 0 <= i < |params| ==>
      (params[i] == "target" ==> Truthy(step.target)) &&
      (params[i] == "url" ==> Truthy(step.target) || Truthy(step.value))
  }

  lemma {:induction false} ParamErrorsEmpty(params: seq<string>, step: Step, stepNo: int)
    requires Truthy(step.action)
    ensures ParamErrors(params, step, stepNo) == [] <==> ParamsSatisfied(params, step)
    decreases |params|
  {
    if params != [] {
      var init := params[..|params| - 1];
      ParamErrorsEmpty(init, step, stepNo);
      if ParamsSatisfied(params, step) {
        assert forall i :: 0 <= i < |init| ==> init[i] == params[i];
      }
      if ParamsSatisfied(init, step) && ParamFinding(params[|params| - 1], step, stepNo) != Error(TargetRequired(stepNo, step.action.value))
        && ParamFinding(params[|params| - 1], step, stepNo) != Error(UrlRequired(stepNo, step.action.value)) {
        forall i | 0 <= i < |params|
          ensures (params[i] == "target" ==> Truthy(step.target)) &&
            (params[i] == "url" ==> Truthy(step.target) || Truthy(step.value))
        {
          if i < |init| {
            assert params[i] == init[i];
          }
        }
      }
    }
  }

  /** A target of any non-empty form passes `validateTarget`, so the target-format warning is never issued. */
  lemma TargetWarningsNever(step: Step, stepNo: int)
    ensures TargetWarnings(step, stepNo) == []
  {
    ValidateTargetFacts(step.target);
  }

  lemma StepValidIffNoErrors(step: Step, index: int)
    ensures StepValidation(step, index).valid <==> StepValidation(step, index).errors == []
  {
  }

  /**
   * A step is valid exactly when it has no errors, and that is exactly when
   * it names a known keyword and supplies a target for a `target` parameter
   * and a target or value for a `url` parameter. A missing action or an
   * unknown keyword is a single error.
   */
  lemma StepValidationFacts(step: Step, index: int)
    ensures StepValidation(step, index).valid <==> StepValidation(step, index).errors == []
    ensures StepValidation(step, index).valid <==>
      Truthy(step.action) && GetKeyword(step.action.value).Some? &&
      ParamsSatisfied(GetKeyword(step.action.value).value.parameters, step)
    ensures !Truthy(step.action) ==> StepValidation(step, index).errors == [ActionRequired(index + 1)]
    ensures Truthy(step.action) && GetKeyword(step.action.value).None? ==>
      StepValidation(step, index).errors == [UnknownKeyword(index + 1, step.action.value)]
  {
    if Truthy(step.action) && GetKeyword(step.action.value).Some? {
      ParamErrorsEmpty(GetKeyword(step.action.value).value.parameters, step, index + 1);
    }
  }

  // ---------------------------------------------------------------------
  // validateSteps
  // ---------------------------------------------------------------------

  /** The result of `validateStep` for each step, with its index. */
  function StepResults(steps: seq<Step>): (rs: seq<ValidationResult>)
    ensures |rs| == |steps|
  {
    if steps == [] then []
    else StepResults(steps[..|steps| - 1]) + [StepValidation(steps[|steps| - 1], |steps| - 1)]
  }

  lemma {:induction false} StepResultsAt(steps: seq<Step>, k: nat)
    requires k < |steps|
    ensures StepResults(steps)[k] == StepValidation(steps[k], k)
  {
    if k < |steps| - 1 {
      var init := steps[..|steps| - 1];
      StepResultsAt(init, k);
      assert init[k] == steps[k];
    }
  }

  lemma StepResultsSnoc(steps: seq<Step>, i: nat)
    requires i < |steps|
    ensures StepResults(steps[..i + 1]) == StepResults(steps[..i]) + [StepValidation(steps[i], i)]
  {
    TakeSnoc(steps, i);
    assert steps[..i + 1][..i] == steps[..i];
  }

  /** The `forEach` over the first `n` results: all valid, errors and warnings concatenated in step order. */
  function Combine(rs: seq<ValidationResult>, n: nat): ValidationResult
    requires n <= |rs|
  {
    if n == 0 then ValidationResult(true, [], [])
    else
      var acc := Combine(rs, n - 1);
      ValidationResult(acc.valid && rs[n - 1].valid, acc.errors + rs[n - 1].errors, acc.warnings + rs[n - 1].warnings)
  }

  /** What `validateSteps(steps)` returns; `None` is a value that is not an array. */
  function StepsValidation(steps: Option<seq<Step>>): ValidationResult
  {
    if steps.None? then ValidationResult(false, [StepsNotArray], [])
    else if steps.value == [] then ValidationResult(false, [NoSteps], [])
    else Combine(StepResults(steps.value), |steps.value|)
  }

  /** `validateSteps(steps)`. */
  method ValidateSteps(steps: Option<seq<Step>>) returns (r: ValidationResult)
    ensures r == StepsValidation(steps)
  {
    if steps.None? {
      return ValidationResult(false, [StepsNotArray], []);
    }
    var ss := steps.value;
    if |ss| == 0 {
      return ValidationResult(false, [NoSteps], []);
    }
    ghost var results: seq<ValidationResult> := [];
    var allErrors: seq<Issue> := [];
    var allWarnings: seq<Issue> := [];
    var allValid := true;
    var i := 0;
    while i < |ss|
      invariant 0 <= i <= |ss| && |results| == i
      invariant results == StepResults(ss[..i])
      invariant ValidationResult(allValid, allErrors, allWarnings) == Combine(results, i)
    {
      var result := ValidateStep(ss[i], i);
      StepResultsSnoc(ss, i);
      CombineSnoc(results, result);
      results := results + [result];
      if !result.valid {
        allValid := false;
      }
      allErrors := allErrors + result.errors;
      allWarnings := allWarnings + result.warnings;
      i := i + 1;
    }
    assert ss[..|ss|] == ss;
    r := ValidationResult(allValid, allErrors, allWarnings);
  }

  /** Combining one more result extends the errors and warnings by its own. */
  lemma CombineSnoc(rs: seq<ValidationResult>, r: ValidationResult)
    ensures var c := Combine(rs, |rs|);
      Combine(rs + [r], |rs| + 1) == ValidationResult(c.valid && r.valid, c.errors + r.errors, c.warnings + r.warnings)
  {
    CombinePrefix(rs, [r], |rs|);
  }

  /** Combining the first `n` results ignores the rest. */
  lemma {:induction false} CombinePrefix(rs: seq<ValidationResult>, more: seq<ValidationResult>, n: nat)
    requires n <= |rs|
    ensures Combine(rs + more, n) == Combine(rs, n)
  {
    if n > 0 {
      CombinePrefix(rs, more, n - 1);
      assert (rs + more)[n - 1] == rs[n - 1];
    }
  }

  lemma {:induction false} CombineFacts(rs: seq<ValidationResult>, n: nat)
    requires n <= |rs|
    requires forall k :: 0 <= k < |rs| ==> (rs[k].valid <==> rs[k].errors == [])
    ensures Combine(rs, n).valid <==> Combine(rs, n).errors == []
    ensures Combine(rs, n).valid <==> forall k :: 0 <= k < n ==> rs[k].valid
  {
    if n > 0 {
      CombineFacts(rs, n - 1);
    }
  }

  /**
   * A list of steps is valid exactly when it is a non-empty array whose
   * every step is valid, and exactly when no error is reported.
   */
  lemma StepsValidationFacts(steps: Option<seq<Step>>)
    ensures StepsValidation(steps).valid <==> StepsValidation(steps).errors == []
    ensures StepsValidation(steps).valid <==>
      steps.Some? && steps.value != [] && forall i :: 0 <= i < |steps.value| ==> StepValidation(steps.value[i], i).valid
  {
    if steps.Some? && steps.value != [] {
      var rs := StepResults(steps.value);
      forall k | 0 <= k < |rs|
        ensures rs[k] == StepValidation(steps.value[k], k)
        ensures rs[k].valid <==> rs[k].errors == []
      {
        StepResultsAt(steps.value, k);
        StepValidIffNoErrors(steps.value[k], k);
      }
      CombineFacts(rs, |rs|);
    }
  }

  // ---------------------------------------------------------------------
  // normalizeStep / normalizeSteps
  // ---------------------------------------------------------------------

  /** Keywords the source exempts from lower-casing. */
  const CaseSensitiveKeywords: seq<string> := ["setText", "doubleClick", "rightClick", "verifyText"]

  /** `x ? x.trim() : ''`. */
  function TrimmedOrEmpty(x: JsStr): (r: string)
    ensures r == [] || (!IsJsSpace(r[0]) && !IsJsSpace(r[|r| - 1]))
  {
    if Truthy(x) then Trim(x.value) else ""
  }

  /**
   * `normalizeStep(step)`: every field trimmed (a missing one becomes
   * empty), and an action outside the short exemption list lower-cased.
   */
  function NormalizeStep(step: Step): Step
  {
    var action := TrimmedOrEmpty(step.action);
    Step(Some(ActionAsWritten(action)),
         Some(TrimmedOrEmpty(step.target)), Some(TrimmedOrEmpty(step.value)), Some(TrimmedOrEmpty(step.description)))
  }

  /** The action after the intended normalisation: a keyword name is kept as it is, anything else is lower-cased. */
  function NormalizeAction(action: string): (r: string)
    ensures GetKeyword(action).Some? ==> r == action
    ensures GetKeyword(action).None? ==> r == Lower(action)
  {
    if GetKeyword(action).Some? then action else Lower(action)
  }

  /** `normalizeStep(step)` as evidently intended: every keyword name exempt from lower-casing. */
  function NormalizeStepIntended(step: Step): Step
  {
    Step(Some(NormalizeAction(TrimmedOrEmpty(step.action))),
         Some(TrimmedOrEmpty(step.target)), Some(TrimmedOrEmpty(step.value)), Some(TrimmedOrEmpty(step.description)))
  }

  lemma LowerKeepsTrimmed(s: string)
    requires s == [] || (!IsJsSpace(s[0]) && !IsJsSpace(s[|s| - 1]))
    ensures Trim(Lower(s)) == Lower(s)
  {
    if s != [] {
      LowerCharSpace(s[0]);
      LowerCharSpace(s[|s| - 1]);
    }
    TrimOfUnspaced(Lower(s));
  }

  lemma TrimmedOrEmptyStable(x: JsStr)
    ensures TrimmedOrEmpty(Some(TrimmedOrEmpty(x))) == TrimmedOrEmpty(x)
  {
    if Truthy(x) {
      var t := Trim(x.value);
      TrimIdempotent(x.value);
      assert TrimmedOrEmpty(x) == t;
      assert Trim(t) == t;
    }
  }

  /** The normalised action is trimmed. */
  lemma NormalizeActionTrimmed(x: JsStr)
    ensures Trim(NormalizeAction(TrimmedOrEmpty(x))) == NormalizeAction(TrimmedOrEmpty(x))
  {
    var a := TrimmedOrEmpty(x);
    if GetKeyword(a).Some? {
      assert NormalizeAction(a) == a;
      TrimOfUnspaced(a);
    } else {
      assert NormalizeAction(a) == Lower(a);
      LowerKeepsTrimmed(a);
    }
  }

  /** Normalising an action twice changes nothing more. */
  lemma NormalizeActionIdempotent(a: string)
    ensures NormalizeAction(NormalizeAction(a)) == NormalizeAction(a)
  {
    if GetKeyword(a).None? {
      LowerIdempotent(a);
    }
  }

  /** A lower-cased text is none of the exempt names, each of which holds a capital letter. */
  lemma LoweredNotExempt(a: string)
    ensures Lower(a) !in CaseSensitiveKeywords
  {
    var l := Lower(a);
    if |l| > 6 {
      assert !('A' <= l[3] <= 'Z') && !('A' <= l[5] <= 'Z') && !('A' <= l[6] <= 'Z');
    }
  }

  /** The action after `normalizeStep`: kept when exempt, lower-cased otherwise. */
  function ActionAsWritten(action: string): (r: string)
    ensures action in CaseSensitiveKeywords ==> r == action
    ensures action !in CaseSensitiveKeywords ==> r == Lower(action)
  {
    if action in CaseSensitiveKeywords then action else Lower(action)
  }

  /** Lower-casing the action again changes nothing more. */
  lemma ActionAsWrittenIdempotent(a: string)
    ensures ActionAsWritten(ActionAsWritten(a)) == ActionAsWritten(a)
  {
    if a !in CaseSensitiveKeywords {
      LoweredNotExempt(a);
      LowerIdempotent(a);
    }
  }

  /** The normalised action is trimmed. */
  lemma ActionAsWrittenTrimmed(x: JsStr)
    ensures Trim(ActionAsWritten(TrimmedOrEmpty(x))) == ActionAsWritten(TrimmedOrEmpty(x))
  {
    var a := TrimmedOrEmpty(x);
    if a in CaseSensitiveKeywords {
      TrimOfUnspaced(a);
    } else {
      LowerKeepsTrimmed(a);
    }
  }

  /**
   * A normalised step has every field present and trimmed; an exempt name
   * and an action already in lower case are kept as they are, any other
   * action is lower-cased; normalising twice changes nothing more.
   */
  lemma NormalizeStepFacts(step: Step)
    ensures var n := NormalizeStep(step);
      n.action.Some? && n.target.Some? && n.value.Some? && n.description.Some? &&
      Trim(n.action.value) == n.action.value && Trim(n.target.value) == n.target.value
    ensures var a := TrimmedOrEmpty(step.action);
      && (a in CaseSensitiveKeywords || Lower(a) == a ==> NormalizeStep(step).action == Some(a))
      && (a !in CaseSensitiveKeywords ==> NormalizeStep(step).action == Some(Lower(a)))
    ensures NormalizeStep(NormalizeStep(step)) == NormalizeStep(step)
  {
    var a := TrimmedOrEmpty(step.action);
    var n := ActionAsWritten(a);
    assert NormalizeStep(step).action == Some(n);
    ActionAsWrittenTrimmed(step.action);
    TrimmedOrEmptyStable(Some(TrimmedOrEmpty(step.target)));
    TrimmedOrEmptyStable(step.target);
    TrimmedOrEmptyStable(step.value);
    TrimmedOrEmptyStable(step.description);
    TrimmedOrEmptyStable(Some(n));
    ActionAsWrittenIdempotent(a);
  }

  /**
   * The intended normalisation keeps the name of every keyword given
   * exactly, and normalising twice changes nothing more.
   */
  lemma NormalizeStepIntendedFacts(step: Step)
    ensures GetKeyword(TrimmedOrEmpty(step.action)).Some? ==> NormalizeStepIntended(step).action == Some(TrimmedOrEmpty(step.action))
    ensures NormalizeStepIntended(NormalizeStepIntended(step)) == NormalizeStepIntended(step)
  {
    var a := TrimmedOrEmpty(step.action);
    var n := NormalizeAction(a);
    NormalizeActionTrimmed(step.action);
    TrimmedOrEmptyStable(step.target);
    TrimmedOrEmptyStable(step.value);
    TrimmedOrEmptyStable(step.description);
    TrimmedOrEmptyStable(Some(n));
    NormalizeActionIdempotent(a);
  }

  /** Each exempt name is a keyword name. */
  lemma ExemptAreKeywords(a: string)
    requires a in CaseSensitiveKeywords
    ensures GetKeyword(a).Some?
  {
    if a == Name(SetText) {
      FoundUnderOwnName(SetText);
    } else if a == Name(DoubleClick) {
      FoundUnderOwnName(DoubleClick);
    } else if a == Name(RightClick) {
      FoundUnderOwnName(RightClick);
    } else {
      FoundUnderOwnName(VerifyText);
    }
  }

  /**
   * The source's normalisation and the intended one differ exactly on a
   * keyword named with capitals that the exemption list misses.
   */
  lemma NormalizeStepAgrees(step: Step)
    ensures var a := TrimmedOrEmpty(step.action);
      NormalizeStep(step) == NormalizeStepIntended(step) <==>
        !(GetKeyword(a).Some? && a !in CaseSensitiveKeywords && Lower(a) != a)
  {
    var a := TrimmedOrEmpty(step.action);
    if a in CaseSensitiveKeywords {
      ExemptAreKeywords(a);
    }
    assert NormalizeStep(step).action == Some(ActionAsWritten(a));
    assert NormalizeStepIntended(step).action == Some(NormalizeAction(a));
  }

  /** The normalised steps of `steps` that keep a non-empty action. */
  function NormalizeAll(steps: seq<Step>): (r: seq<Step>)
    ensures |r| <= |steps|
  {
    if steps == [] then []
    else
      var n := NormalizeStep(steps[0]);
      (if n.action != Some("") then [n] else []) + NormalizeAll(steps[1..])
  }

  /** `normalizeSteps(steps)`; `None` is a value that is not an array. */
  function NormalizeSteps(steps: Option<seq<Step>>): seq<Step>
  {
    if steps.None? then [] else NormalizeAll(steps.value)
  }

  /**
   * Every kept step has a non-empty, trimmed action, and normalising the
   * result again returns it unchanged.
   */
  lemma {:induction false} NormalizeAllFacts(steps: seq<Step>)
    ensures forall s :: s in NormalizeAll(steps) ==>
      Truthy(s.action) && Trim(s.action.value) == s.action.value && s == NormalizeStep(s)
    ensures NormalizeAll(NormalizeAll(steps)) == NormalizeAll(steps)
  {
    if steps != [] {
      NormalizeAllFacts(steps[1..]);
      var n := NormalizeStep(steps[0]);
      NormalizeStepFacts(steps[0]);
      var rest := NormalizeAll(steps[1..]);
      if n.action != Some("") {
        assert NormalizeAll(steps) == [n] + rest;
        NormalizeAllCons(n, rest);
      } else {
        assert NormalizeAll(steps) == rest;
      }
    }
  }

  lemma NormalizeAllCons(n: Step, rest: seq<Step>)
    requires NormalizeStep(n) == n && n.action != Some("")
    ensures NormalizeAll([n] + rest) == [n] + NormalizeAll(rest)
  {
    assert ([n] + rest)[0] == n;
    assert ([n] + rest)[1..] == rest;
  }

  /** What `validateAndNormalizeSteps(steps)` returns: the validation of the normalised steps, and those steps. */
  method ValidateAndNormalizeSteps(steps: Option<seq<Step>>) returns (validation: ValidationResult, normalized: seq<Step>)
    ensures normalized == NormalizeSteps(steps)
    ensures validation == StepsValidation(Some(normalized))
  {
    normalized := NormalizeSteps(steps);
    validation := ValidateSteps(Some(normalized));
  }

  /** A valid outcome means every normalised step names a known keyword. */
  lemma ValidatedStepsAreKeywords(steps: Option<seq<Step>>)
    ensures var ns := NormalizeSteps(steps);
      StepsValidation(Some(ns)).valid ==> (ns != [] &&
        forall i :: 0 <= i < |ns| ==> Truthy(ns[i].action) && GetKeyword(ns[i].action.value).Some?)
  {
    var ns := NormalizeSteps(steps);
    StepsValidationFacts(Some(ns));
    forall i | 0 <= i < |ns| && StepsValidation(Some(ns)).valid
      ensures Truthy(ns[i].action) && GetKeyword(ns[i].action.value).Some?
    {
      StepValidationFacts(ns[i], i);
    }
  }

  // ---------------------------------------------------------------------
  // Lower-casing of camel-case keywords
  // ---------------------------------------------------------------------

  /** `verifyElementPresent` has no surrounding blanks, so trimming keeps it. */
  lemma CamelCaseNameTrimmed(x: JsStr)
    requires x == Some(Name(VerifyElementPresent))
    ensures TrimmedOrEmpty(x) == x.value
  {
    CamelCaseNameUnspaced(x.value);
  }

  lemma CamelCaseNameUnspaced(a: string)
    requires a == Name(VerifyElementPresent)
    ensures Trim(a) == a
  {
    VisibleAsciiNotSpace(a[0]);
    VisibleAsciiNotSpace(a[|a| - 1]);
    TrimOfUnspaced(a);
  }

  /** `verifyElementPresent` is the only keyword name of 20 characters. */
  lemma OnlyNameOfLength20(id: KeywordId)
    ensures |Name(id)| == 20 <==> id == VerifyElementPresent
    ensures id == VerifyElementPresent ==> Name(id)[6] == 'E'
  {
  }

  lemma NoExemptNameOfLength20(a: string)
    requires |a| == 20
    ensures a !in CaseSensitiveKeywords
  {
    assert forall i :: 0 <= i < |CaseSensitiveKeywords| ==> |CaseSensitiveKeywords[i]| < 20;
  }

  /** No keyword is named `verifyelementpresent`. */
  lemma CamelCaseLoweredUnknown(a: string)
    requires a == Name(VerifyElementPresent)
    ensures GetKeyword(Lower(a)).None?
  {
    var l := Lower(a);
    assert l[6] == LowerChar(a[6]) == 'e';
    FindFacts(KeywordOrder, l);
    forall i | 0 <= i < |KeywordOrder|
      ensures Name(KeywordOrder[i]) != l
    {
      OnlyNameOfLength20(KeywordOrder[i]);
    }
  }

  /**
   * As written, a step whose action is `verifyElementPresent` has it
   * lower-cased to a name no keyword has, so a correct step is reported as
   * an unknown keyword.
   */
  lemma CamelCaseKeywordLostAsWritten(step: Step)
    requires step.action == Some(Name(VerifyElementPresent))
    ensures var n := NormalizeStep(step);
      n.action == Some(Lower(step.action.value)) && GetKeyword(n.action.value).None? &&
      !StepValidation(n, 0).valid
  {
    CamelCaseLowerCased(step);
    CamelCaseInvalid(step.action.value, NormalizeStep(step));
  }

  lemma CamelCaseInvalid(a: string, n: Step)
    requires a == Name(VerifyElementPresent) && n.action == Some(Lower(a))
    ensures GetKeyword(n.action.value).None? && !StepValidation(n, 0).valid
  {
    CamelCaseLoweredUnknown(a);
    UnknownKeywordInvalid(n);
  }

  lemma CamelCaseLowerCased(step: Step)
    requires step.action == Some(Name(VerifyElementPresent))
    ensures NormalizeStep(step).action == Some(Lower(step.action.value))
  {
    CamelCaseNameTrimmed(step.action);
    NoExemptNameOfLength20(step.action.value);
  }

  lemma UnknownKeywordInvalid(n: Step)
    requires Truthy(n.action) && GetKeyword(n.action.value).None?
    ensures !StepValidation(n, 0).valid
  {
  }

  /** With keyword names exempt, the same step keeps its action and is valid when it has a target. */
  lemma CamelCaseKeywordKept(step: Step)
    requires step.action == Some(Name(VerifyElementPresent)) && Truthy(step.target) && Trim(step.target.value) != ""
    ensures var n := NormalizeStepIntended(step);
      n.action == step.action && StepValidation(n, 0).valid
  {
    CamelCaseNormalized(step);
    CamelCaseValid(step.action.value, NormalizeStepIntended(step));
  }

  lemma CamelCaseNormalized(step: Step)
    requires step.action == Some(Name(VerifyElementPresent)) && Truthy(step.target) && Trim(step.target.value) != ""
    ensures NormalizeStepIntended(step).action == step.action && Truthy(NormalizeStepIntended(step).target)
  {
    CamelCaseNameTrimmed(step.action);
    CamelCaseNameKnown(step.action.value);
  }

  lemma CamelCaseValid(a: string, n: Step)
    requires a == Name(VerifyElementPresent) && n.action == Some(a) && Truthy(n.target)
    ensures StepValidation(n, 0).valid
  {
    CamelCaseNameKnown(a);
    TargetOnlyValid(n);
  }

  lemma CamelCaseNameKnown(a: string)
    requires a == Name(VerifyElementPresent)
    ensures GetKeyword(a).Some? && GetKeyword(a).value.parameters == ["target"] && NormalizeAction(a) == a
  {
    FoundUnderOwnName(VerifyElementPresent);
  }

  /** A step naming a keyword whose only parameter is `target` is valid once it has a target. */
  lemma TargetOnlyValid(n: Step)
    requires Truthy(n.action) && GetKeyword(n.action.value).Some? && Truthy(n.target)
    requires GetKeyword(n.action.value).value.parameters == ["target"]
    ensures StepValidation(n, 0).valid
  {
    assert ParamFinding("target", n, 1) == NoFinding;
    assert ParamErrors(["target"], n, 1) == ParamErrors([], n, 1) + [];
  }
}
