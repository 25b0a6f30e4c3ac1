# Recorder and code generator — a Dafny model

This project models the core of a desktop test-automation tool. Its
recorder is injected into a browser page. It captures the user's clicks,
typing and assertions as events, picks selectors for the elements involved,
and replays or stores them as test-case steps. The code generator turns the
steps into Playwright or Selenium scripts in Python, JavaScript or
TypeScript. A keyword library and validator check keyword-style steps.
A locator-healing service finds a replacement when a selector breaks. A
DOM-snapshot scheduler decides which page snapshots to keep. A group of
small URL helpers normalise addresses.

The Dafny modules follow the program's files:

- `RecorderCore`, `RecorderSelection`, `RecorderSelectors`, `RecorderActions`,
  `RecorderConditional`, `RecorderAi`, `RecorderUi` and `RecorderReplay`
  model the recorder modules under `src/renderer/recorder/`. The recorder is
  a set of objects with state updated in place, so these modules are
  classes with `modifies` clauses. Their methods are specified by functions
  on the old state.
- `SelectorUtils` and `SelectorCandidates` model `src/renderer/utils/selectorUtils.js`.
  That file covers escaping, candidate building, scoring and ordering.
  `DomAnalyzer` models `domAnalyzer.js`.
- `CodeEmitter`, `CodeGenerator`, `FlowActions`, `GenerateCode` and
  `ActionTimeline` model `src/renderer/utils/codeGenerator.js`. They cover
  literal escaping, the per-action emitters, loop and conditional actions,
  script assembly and the timeline of actions and snapshots.
- `KeywordLibrary` and `KeywordValidator` model `keywordLibrary.js` and
  `keywordValidator.js`. `ObjectRepository` models `objectRepository.js`.
- `CodeModifier` and `LocatorHealing` model the server services
  `codeModifier.js` and `locatorHealingService.js`. `SnapshotScheduler`
  models `domSnapshotScheduler.js` and the date helpers of `domSnapshot.js`.
- `ObjectRoutes` and `TestCaseRoutes` model the tree builders of
  `server/routes/objects.js` and `server/routes/testCases.js`.
  `RecordingSteps`, `TcTree` and `PageObjectLookup` model the step handling,
  the test-case tree and the page-object lookup of `src/main/main.js`.
- `UrlNormalize` models the URL normalisers in `urlFilter.js`,
  `codeGenerator.js`, `domSnapshotScheduler.js` and `scripts/test_utils.py`.
- `JsStrings`, `JsonValues`, `EventRecords`, `KeySort` and `Candidates`
  are shared foundations:
  - JavaScript string operations (`split`, `join`, `trim`, `replace`,
    `toLowerCase` on ASCII);
  - JSON values and parent/child levels;
  - the recorded event record, with `undefined` and `null` kept apart;
  - a stable sort by a total preorder, which is what `Array.prototype.sort`
    guarantees;
  - scored candidates.

Where the source has a defect, the operations follow the code as written.
Each such member has a corrected definition beside it, and the intended
property is proved about that definition (see "## Findings").

## Model

| member | source | states |
|---|---|---|
| ActionTimeline.InsertFacts | src/renderer/utils/codeGenerator.js:286-289 | inserting an entry into a timeline ordered by (time, sequence) keeps it ordered and adds exactly that entry |
| ActionTimeline.SortFacts | src/renderer/utils/codeGenerator.js:286-289 | the sorted timeline is ordered by time and then sequence, and is a permutation of the entries |
| ActionTimeline.Sort | src/renderer/recorder/recorder-replay.js:223-226 | the replayer's timeline sort keeps every entry (same length); its order is `SortFacts` |
| CodeEmitter.QuotedDenotes | src/renderer/utils/codeGenerator.js:213-223 | a literal written with `escapeForDoubleQuotes` between double quotes reads back as exactly the text it quotes |
| CodeEmitter.QuotedUnique | src/renderer/utils/codeGenerator.js:213-223 | a line with one quoted literal at a fixed place denotes that text and no other |
| CodeEmitter.ExpectedLiteralAsWrittenMisreads | src/renderer/utils/codeGenerator.js:437-443 | as written, the expected-text literal is escaped twice: for the text `"` it reads back as `\"`, not as `"` |
| CodeEmitter.ExpectedLiteralDenotes | src/renderer/utils/codeGenerator.js:437-443 | the intended literal, escaped once, reads back as the recorded text |
| CodeEmitter.PlaywrightLocatorDenotes | src/renderer/utils/codeGenerator.js:297-353 | the Playwright locator finds the element by its text (exact unless the match mode is 'contains'), by its XPath with the `xpath=` prefix, by its test id, or by the selector as it is, and its quoted argument denotes that text, path, id or selector |
| CodeEmitter.PlaywrightPythonTitleLiteral | src/renderer/utils/codeGenerator.js:360-364 | the Playwright-Python title check compares the page title with exactly the recorded title |
| CodeEmitter.PlaywrightPythonUrlLiteral | src/renderer/utils/codeGenerator.js:365-381 | the Playwright-Python URL check compares with the recorded URL without its query, in both match modes |
| CodeEmitter.PlaywrightPythonFillLiteral | src/renderer/utils/codeGenerator.js:415-417 | the Playwright-Python typing statement fills exactly the recorded value |
| CodeEmitter.PlaywrightPythonExpectedTextLiteral | src/renderer/utils/codeGenerator.js:392-439 | as written, the Playwright-Python text check expects the once-escaped recorded text |
| CodeEmitter.PlaywrightJsTitleLiteral | src/renderer/utils/codeGenerator.js:492-496 | the Playwright-JavaScript title check compares with exactly the recorded title |
| CodeEmitter.PlaywrightJsUrlLiteral | src/renderer/utils/codeGenerator.js:497-510 | the Playwright-JavaScript URL check compares with the recorded URL without its query |
| CodeEmitter.PlaywrightJsFillLiteral | src/renderer/utils/codeGenerator.js:544-546 | the Playwright-JavaScript typing statement fills exactly the recorded value |
| CodeEmitter.PlaywrightJsExpectedTextLiteral | src/renderer/utils/codeGenerator.js:521-567 | as written, the Playwright-JavaScript text check expects the once-escaped recorded text |
| CodeEmitter.SeleniumLookupFacts | src/renderer/utils/codeGenerator.js:637-658 | Selenium finds an element by its XPath without the `xpath=` prefix, by an XPath over the text for a text selector, or by the selector as CSS, and the Python and JavaScript lookups quote the same path or selector |
| CodeEmitter.SeleniumPythonTitleLiteral | src/renderer/utils/codeGenerator.js:609-613 | the Selenium-Python title check compares with exactly the recorded title |
| CodeEmitter.SeleniumPythonUrlLiteral | src/renderer/utils/codeGenerator.js:614-630 | the Selenium-Python URL check compares with the recorded URL without its query, in both match modes |
| CodeEmitter.SeleniumPythonFillLiteral | src/renderer/utils/codeGenerator.js:675-677 | the Selenium-Python typing statement sends exactly the recorded value |
| CodeEmitter.SeleniumPythonExpectedTextLiteral | src/renderer/utils/codeGenerator.js:634-704 | as written, the Selenium-Python text check expects the once-escaped recorded text |
| CodeEmitter.SeleniumJsTitleLiteral | src/renderer/utils/codeGenerator.js:832-835 | as written, the Selenium-JavaScript title check expects the once-escaped title, because the value was escaped before |
| CodeEmitter.SeleniumJsUrlLiteral | src/renderer/utils/codeGenerator.js:836-848 | as written, the Selenium-JavaScript URL check normalizes the once-escaped URL and expects it escaped again |
| CodeEmitter.SeleniumJsFillLiteral | src/renderer/utils/codeGenerator.js:791-793 | the Selenium-JavaScript typing statement sends exactly the recorded value |
| CodeEmitter.SeleniumJsExpectedTextLiteral | src/renderer/utils/codeGenerator.js:750-820 | as written, the Selenium-JavaScript text check expects the once-escaped recorded text |
| CodeEmitter.PlaywrightFrameLocatorLines | src/renderer/utils/codeGenerator.js:859-885 | the iframe locator lines of a frame context are at most one line (their presence and key are `FrameHelpersAgree`) |
| CodeEmitter.FrameHelpersAgree | src/renderer/utils/codeGenerator.js:859-907 | the Playwright and Selenium frame helpers agree: each writes its line exactly when the frame has a name, id or source, and they address it by the same key, the name first |
| CodeEmitter.FrameKeyFacts | src/renderer/utils/codeGenerator.js:890-896 | a frame has a key exactly when it has a name, an id or a source; the name comes first |
| CodeEmitter.FrameHelpersPresent | src/renderer/utils/codeGenerator.js:859-907 | each frame helper writes its line exactly when the frame has a key |
| CodeEmitter.FramesEqualSameKey | src/renderer/utils/codeGenerator.js:228-234 | frames that `framesEqual` calls equal have the same key |
| CodeEmitter.FramesEqualSameLines | src/renderer/utils/codeGenerator.js:228-234 | frames that `framesEqual` calls equal get the same lines from every frame helper |
| CodeGenerator.ScalarOrNull | src/renderer/utils/codeGenerator.js:32 | a truthy id is kept, a falsy one becomes null |
| CodeGenerator.NormalizeEventRecord | src/renderer/utils/codeGenerator.js:14-75 | the generator's normaliser fills the record's missing fields in place: the new record is `Normalized` of the old one, and a null event is left alone |
| CodeGenerator.NormalizedFacts | src/renderer/utils/codeGenerator.js:14-75 | the defaults filled in: version 1 when unset, `schemaVersion` equal to the version when missing, `page: null`, the frame from the iframe context, the manual-action object of a manual record, and the flow-action fields, while action, timestamp, value, selectors and tag stay as they were |
| CodeGenerator.NormalizedIdempotent | src/renderer/utils/codeGenerator.js:14-75 | normalising a normalised record changes nothing |
| CodeGenerator.NormalizedExtendsRecorder | src/renderer/utils/codeGenerator.js:58-70 | on a versioned, non-manual record, the generator's normaliser is the recorder's one plus null defaults for the three element references of flow actions |
| CodeGenerator.InferSelectorType | src/renderer/utils/codeGenerator.js:103-111 | the generator's selector type is missing exactly when the selector is missing or empty |
| CodeGenerator.InferSelectorTypeAgrees | src/renderer/utils/codeGenerator.js:103-111 | the generator's type inference and the selector toolkit's agree on text selectors, every generator XPath is a toolkit XPath, and they disagree only on a path with a single leading `/` |
| CodeGenerator.SelectionOrder | src/renderer/utils/codeGenerator.js:116-144 | the selector of an event is the primary selector (with its type or the inferred one), else the first candidate with the highest score, else the lower-cased tag typed 'tag', else none; the iframe context is kept |
| CodeGenerator.StripQuotes | src/renderer/utils/codeGenerator.js:155 | removing one leading and one trailing quote never lengthens the text |
| CodeGenerator.TextSelectorReadBack | src/renderer/utils/codeGenerator.js:149-159 | `getTextValue` of a text selector that quotes its text (escaping the quotes) reads back that text, for a text without backslashes |
| CodeGenerator.GetSelectorCore | src/renderer/utils/codeGenerator.js:177-182 | a missing selector has the empty core |
| CodeGenerator.EnsureXPathSelector | src/renderer/utils/codeGenerator.js:205-208 | the result is empty exactly for a missing selector, otherwise starts with `xpath=`, and a selector that already has the prefix is kept as it is |
| CodeGenerator.EnsureXPathSelectorIdempotent | src/renderer/utils/codeGenerator.js:205-208 | ensuring the `xpath=` prefix twice is ensuring it once |
| CodeGenerator.EnsuredXPathCore | src/renderer/utils/codeGenerator.js:164-208 | with or without its prefix, the core of the ensured XPath selector and the XPath read from it are the path itself |
| CodeGenerator.EscapeIsEach | src/renderer/utils/codeGenerator.js:213-215 | the two global replacements (backslashes, then double quotes) are one character-wise escaping |
| CodeGenerator.EscapeForDoubleQuotesRoundTrip | src/renderer/utils/codeGenerator.js:213-223 | the escaped text is a complete literal body and reading it back gives the input |
| CodeGenerator.AttrMatchAt | src/renderer/utils/codeGenerator.js:187-200 | a value captured by `\[attr\s*op\s*["']([^"']+)["']\]` is non-empty and quote-free |
| CodeGenerator.FirstAttrMatch | src/renderer/utils/codeGenerator.js:187-200 | the leftmost capture is non-empty and quote-free |
| CodeGenerator.ExtractAttributeValue | src/renderer/utils/codeGenerator.js:187-200 | the extracted attribute value never contains a quote |
| CodeGenerator.AttributeReadBack | src/renderer/utils/codeGenerator.js:187-200 | the selector `[attr="v"]` gives back `v` |
| CodeGenerator.FramesEqualIsEquivalence | src/renderer/utils/codeGenerator.js:228-234 | frame equality is reflexive, symmetric and transitive |
| CodeGenerator.FramesEqualIgnoresEmpty | src/renderer/utils/codeGenerator.js:228-234 | frames that differ only in empty versus missing fields are equal |
| CodeGenerator.MaxTime | src/renderer/utils/codeGenerator.js:251-259 | the latest event time is non-negative and at least every event's time |
| CodeGenerator.EventEntries | src/renderer/utils/codeGenerator.js:253-267 | the events loop pushes one entry per event |
| CodeGenerator.PushEvents | src/renderer/utils/codeGenerator.js:253-267 | the events loop pushes `EventEntries` and leaves `maxEventTimestamp` at `MaxTime` |
| CodeGenerator.PushManualActions | src/renderer/utils/codeGenerator.js:270-284 | the manual-actions loop pushes the kept actions numbered on from the events and timed by `createdAt` or the fallback base plus an offset |
| CodeGenerator.BuildActionTimeline | src/renderer/utils/codeGenerator.js:248-292 | `buildActionTimeline` returns `Timeline` of its inputs |
| CodeGenerator.TimelineFacts | src/renderer/utils/codeGenerator.js:248-292 | the timeline is ordered by time then sequence, holds every event and every kept manual action and nothing else, and times each manual action by `createdAt` or by the fallback base |
| CodeGenerator.EventEntriesAreEvents | src/renderer/utils/codeGenerator.js:253-267 | the events loop pushes only event entries |
| CodeGenerator.SortSameMembers | src/renderer/utils/codeGenerator.js:286-289 | the sort keeps exactly the entries it is given |
| CodeGenerator.WrapPythonInTry | src/renderer/utils/codeGenerator.js:1306-1326 | nothing to wrap is returned as it is; otherwise the block is the action's lines plus four |
| CodeGenerator.WrapPythonInTryFacts | src/renderer/utils/codeGenerator.js:1306-1326 | the block opens with `try:` and closes with the `except` clause at the indentation, and its statements are the action's lines without leading white space |
| CodeGenerator.WrapJSInTry | src/renderer/utils/codeGenerator.js:1331-1351 | a missing or empty line is returned as it is; otherwise a block is returned |
| CodeGenerator.WrapJSInTrySingleLine | src/renderer/utils/codeGenerator.js:1331-1351 | the one-line case writes the same block the multi-line case builds for a single non-blank line |
| CodeModifier.QuoteRunEnd | server/services/codeModifier.js:70-72 | the greedy `[^'"]*` run from a position ends at a quote or at the end of the text and holds no quote |
| CodeModifier.FirstLiteralPos | server/services/codeModifier.js:16 | the leftmost position where a quoted literal `['"]([^'"]+)['"]` starts, with none before it, or -1 when there is none |
| CodeModifier.ExtractLocatorString | server/services/codeModifier.js:12-32 | a missing or empty locator expression gives null, any other gives a string |
| CodeModifier.ExtractTakesFirstLiteral | server/services/codeModifier.js:16-19 | with a quoted literal in the expression, the leftmost one is extracted |
| CodeModifier.ExtractWithoutLiteral | server/services/codeModifier.js:21-31 | without a quoted literal, one leading `#` or `.` is dropped and nothing else changes |
| CodeModifier.MatchAtFacts | server/services/codeModifier.js:68-79 | every match starts with its pattern's literal prefix and finds the old locator where it says |
| CodeModifier.LocatorMatchSound | server/services/codeModifier.js:70-72 | a Playwright-pattern match has the regex's shape: the old locator inside a quoted string argument of `locator(` closed by the same quote and `)` |
| CodeModifier.LocatorShapeOfSearch | server/services/codeModifier.js:70-72 | where the backtracking search stops, the regex's shape is present |
| CodeModifier.LocatorMatchComplete | server/services/codeModifier.js:70-72 | whenever the Playwright regex's shape is present at a position, the scan matches there, at the latest occurrence it can (greedy) |
| CodeModifier.FindElementComplete | server/services/codeModifier.js:78 | whenever the Selenium regex's shape is present at a position, the scan matches there with that comma and quote |
| CodeModifier.FindElementSound | server/services/codeModifier.js:78 | a Selenium-pattern match has the regex's shape: the quoted second argument of `find_element(` is exactly the old locator |
| CodeModifier.MatchesIff | server/services/codeModifier.js:94 | `pattern.test(s)` holds exactly when the pattern matches at some position of `s` |
| CodeModifier.ReplaceAllNoMatch | server/services/codeModifier.js:95-97 | a pattern that does not match leaves the text as it is |
| CodeModifier.NoParenNoMatch | server/services/codeModifier.js:68-79 | text without `(` is matched by none of the three patterns |
| CodeModifier.ApplyFirstPicksFirstMatching | server/services/codeModifier.js:93-100 | only the first pattern of a family that tests true is applied |
| CodeModifier.ApplyFirstNoneMatching | server/services/codeModifier.js:93-100 | when no pattern of the family tests true, the target is returned untouched |
| CodeModifier.ApplyFirstMatching | server/services/codeModifier.js:118-125 | the loop over a pattern family with its `break` computes `ApplyFirst` |
| CodeModifier.ReplaceLocator | server/services/codeModifier.js:49-62 | a missing code, old or new locator, or a locator with no extractable string, returns the code unchanged; a present code always gives a present result |
| CodeModifier.ReplaceLocatorWithRegex | server/services/codeModifier.js:49-138 | the method with the source's loops computes `ReplaceLocator`, which reassembles the window as the source does |
| CodeModifier.RewriteKeepsLinesOutsideWindow | server/services/codeModifier.js:84-115 | with the corrected reassembly, every line before the ten-line window and every line after it comes back unchanged |
| CodeModifier.OutOfRangeLineEditsWholeFile | server/services/codeModifier.js:84-135 | a line number that is absent, not positive or past the end edits the whole file, as no line number does, both in the reassembly as written and in the corrected one |
| CodeModifier.RewriteAsWrittenAgrees | server/services/codeModifier.js:113-115 | the source's `filter(Boolean)` reassembly and the corrected one agree when no line is empty and the edited window is not empty |
| CodeModifier.EditWindowWithoutParen | server/services/codeModifier.js:90-110 | without `(` in the window the window's edit changes nothing |
| CodeModifier.RewriteAsWrittenDropsFinalNewline | server/services/codeModifier.js:115 | a twelve-line file ending in a newline with nothing to replace, fixed at line 1, loses its final newline as written, and comes back unchanged with the corrected reassembly |
| CodeModifier.ReplaceLocatorInCode | server/services/codeModifier.js:149-158 | the call throws exactly when the code, old or new locator is missing or empty, and otherwise returns `ReplaceLocator`'s present result |
| DomAnalyzer.StripDot | src/renderer/utils/domAnalyzer.js:43 | `replace(/^\./, '')` removes one leading dot when there is one and changes nothing else |
| DomAnalyzer.TagOf | src/renderer/utils/domAnalyzer.js:63 | the tag part of a target selector contains no `[` |
| DomAnalyzer.FindersDefined | src/renderer/utils/domAnalyzer.js:12-97 | the parent and sibling finders return a result exactly when element info is given, the ancestor and child finders when a target is given too; each result carries its relation, and the sibling direction defaults to 'next' |
| DomAnalyzer.FindersExtendSelector | src/renderer/utils/domAnalyzer.js:12-97 | every related element's locator chain starts with the recorded element's selector |
| DomAnalyzer.AnalyzeElementStructureFacts | src/renderer/utils/domAnalyzer.js:104-127 | a structure exists exactly when element info is given; it holds one ancestor per common pattern, in order, the parent, the next and previous siblings, and no children |
| DomAnalyzer.RelationOf | src/renderer/utils/domAnalyzer.js:140-165 | each `switch (relation)` case is chosen by exactly its relation name |
| DomAnalyzer.GenerateRelativeSelectorFacts | src/renderer/utils/domAnalyzer.js:137-167 | the base selector comes back unchanged exactly when it or the relation is missing, the relation is unknown, or an ancestor or child relation has no target; otherwise the result strictly extends the base |
| DomAnalyzer.FindersAgreeWithGenerator | src/renderer/utils/domAnalyzer.js:12-167 | the parent, child and sibling finders build the same locator chain as `generateRelativeSelector` |
| DomAnalyzer.AncestorAgreesWithGenerator | src/renderer/utils/domAnalyzer.js:39-48 | for a target without `[`, the ancestor finder and `generateRelativeSelector` agree |
| DomAnalyzer.ConditionOf | src/renderer/utils/domAnalyzer.js:182-214 | each `switch (conditionType)` case is chosen by exactly its condition name |
| DomAnalyzer.ConditionCodeMentions | src/renderer/utils/domAnalyzer.js:183-212 | every condition expression reads the element's selector and, except visibility, mentions the expected value (the class name without its dot) |
| DomAnalyzer.GenerateConditionCheckFacts | src/renderer/utils/domAnalyzer.js:177-216 | the check is empty exactly when the type or selector is missing, the type is unknown, or a value-comparing type has no value; otherwise it mentions the selector |
| FlowActions.StripDot | src/renderer/utils/codeGenerator.js:942 | `replace(/^\./, '')` drops exactly one leading dot and otherwise keeps the text |
| FlowActions.ReplaceFirstAtStart | src/renderer/utils/codeGenerator.js:1196 | `selector.replace(base, 'item')` renames the base variable at the start of a selector and leaves a selector without it alone |
| FlowActions.TagOf | src/renderer/utils/codeGenerator.js:1054 | the tag an XPath step names has no `[` and is a prefix of the target selector without its dot |
| FlowActions.UnknownConditionIsVisibility | src/renderer/utils/codeGenerator.js:926-946 | an unknown condition type, or a value-comparing one with no value, checks visibility, in both languages |
| FlowActions.TextConditionLiteralsPython | src/renderer/utils/codeGenerator.js:937-940 | the Python `text_contains` and `text_equals` conditions compare with a literal that reads back as the condition value |
| FlowActions.TextConditionLiteralsJs | src/renderer/utils/codeGenerator.js:992-995 | the JavaScript `text_contains` and `text_equals` conditions compare with a literal that reads back as the condition value |
| FlowActions.ElementActionFacts | src/renderer/utils/codeGenerator.js:952-963 | `type` with a value fills the element with a literal that reads back as the value; an unknown action type, or `type` without a value, clicks |
| FlowActions.ConditionalProduced | src/renderer/utils/codeGenerator.js:920-1022 | a conditional action produces code exactly when the event is a conditional action whose condition element has a selector, in both languages; the Python code is an `if` line and one statement on that element under it, the JavaScript code an `if (` block |
| FlowActions.RelativeTargetPicked | src/renderer/utils/codeGenerator.js:1048-1079 | for the ancestor, sibling and child relations an element the user picked wins over any search |
| FlowActions.RelativeTargetSearches | src/renderer/utils/codeGenerator.js:1042-1079 | otherwise each known relation searches from the base element |
| FlowActions.RelativeTargetTag | src/renderer/utils/codeGenerator.js:1053-1066 | the ancestor and sibling searches name the bare tag of the target selector, without class dot or attribute filter |
| FlowActions.RelativeTargetUnknown | src/renderer/utils/codeGenerator.js:1039-1080 | an unknown relation acts on the base element itself |
| FlowActions.MissingRelationIsParent | src/renderer/utils/codeGenerator.js:1034 | a missing or empty relation is `parent` |
| FlowActions.RelativeProduced | src/renderer/utils/codeGenerator.js:1027-1170 | a relative action produces code exactly when the event is a relative action whose base element has a selector, and then one awaited statement on the target in each language |
| FlowActions.ElementActionPythonShape | src/renderer/utils/codeGenerator.js:1083-1095 | every Python element action is a call on the target |
| FlowActions.ElementActionJsShape | src/renderer/utils/codeGenerator.js:1157-1169 | every JavaScript element action awaits a call on the target and ends the statement |
| FlowActions.ItemActionPython | src/renderer/utils/codeGenerator.js:1212-1226 | the Python statement inside the loop acts on the current `item` |
| FlowActions.ItemActionJs | src/renderer/utils/codeGenerator.js:1275-1290 | the JavaScript statement inside the loop awaits an action on the current `item` and ends with `;` |
| FlowActions.LoopSingleIsEmpty | src/renderer/utils/codeGenerator.js:1233 | as written, a loop action in single mode produces no code in either language, whatever its condition element |
| FlowActions.LoopSingleIsConditional | src/renderer/utils/codeGenerator.js:1233 | with the intended delegation, a single-mode loop writes what a conditional action with the same fields writes, so it produces code exactly when it has a condition element with a selector |
| FlowActions.LoopLinesShape | src/renderer/utils/codeGenerator.js:1186-1230 | the Python loop fetches the matches of the loop selector, counts them and runs over them: the body lines are indented under the `for`, with the condition line when there is a condition element, and end with the action on `item` |
| FlowActions.LoopCodeShape | src/renderer/utils/codeGenerator.js:1251-1296 | the JavaScript loop declares the matches of the loop selector first and closes the `for` block last |
| FlowActions.LoopFillLiteral | src/renderer/utils/codeGenerator.js:1214-1225 | a `type` loop with a value fills every item with a literal that reads back as the value, in both languages |
| GenerateCode.PythonEmitIndented | src/renderer/utils/codeGenerator.js:1421-1443 | every line a Python block pushes for an action sits at the block's indentation, and a missing action pushes nothing |
| GenerateCode.JsEmitIndented | src/renderer/utils/codeGenerator.js:1549-1602 | every line a Playwright JavaScript block pushes for an action starts at two spaces, and a missing action pushes nothing |
| GenerateCode.FrameLocatorIndented | src/renderer/utils/codeGenerator.js:1396-1403 | the frame-locator line of a frame switch sits at the given indentation |
| GenerateCode.PlaywrightPythonStatementLines | src/renderer/utils/codeGenerator.js:1410-1443 | the lines pushed for one event sit at four spaces; `present` is `if (actionLine)`, and nothing is pushed without an action |
| GenerateCode.PlaywrightJsStatementLines | src/renderer/utils/codeGenerator.js:1549-1602 | the lines pushed for one event sit at two spaces, and nothing is pushed without an action |
| GenerateCode.SeleniumPythonStatementLines | src/renderer/utils/codeGenerator.js:1701-1730 | the lines pushed for one event sit at two spaces, and nothing is pushed without an action |
| GenerateCode.SeleniumJsStatementLines | src/renderer/utils/codeGenerator.js:1761-1770 | the line pushed for one event is the statement itself, or its `try` block when the event asks for one, and nothing without a statement |
| GenerateCode.PlaywrightPythonBody | src/renderer/utils/codeGenerator.js:1392-1447 | the pytest and class loops push only lines at four spaces; without events they push nothing, and a manual action is reported as emitted |
| GenerateCode.PlaywrightJsBody | src/renderer/utils/codeGenerator.js:1549-1602 | the Playwright JavaScript loop pushes only lines at two spaces, and nothing without events |
| GenerateCode.SeleniumSwitchIsDriverCall | src/renderer/utils/codeGenerator.js:890-896 | the Selenium-Python frame switch is a call on the driver |
| GenerateCode.SeleniumPythonBody | src/renderer/utils/codeGenerator.js:1687-1734 | the Selenium-Python loop pushes only statement lines (indented or `driver.` calls), and nothing without events |
| GenerateCode.SeleniumPythonEvent | src/renderer/utils/codeGenerator.js:1688-1730 | one event of the Selenium-Python loop, its frame switch and its statements, keeps every line a statement line |
| GenerateCode.SeleniumJsBody | src/renderer/utils/codeGenerator.js:1747-1774 | the Selenium JavaScript loop pushes nothing without events and at most two lines per entry |
| GenerateCode.ImportInHeader | src/renderer/utils/codeGenerator.js:1369-1381 | the pytest and Selenium-Python headers import `normalize_url` exactly when some event checks the URL |
| GenerateCode.ImportOnlyInHeader | src/renderer/utils/codeGenerator.js:1679-1735 | no statement line can be the import line, so the script imports the helper exactly when its header does |
| GenerateCode.Filter | src/renderer/utils/codeGenerator.js:1360 | `manualList.filter(Boolean)` keeps only present manual actions |
| GenerateCode.PytestLines | src/renderer/utils/codeGenerator.js:1364-1447 | the pytest branch writes its header, then statements at four spaces; `normalize_url` is imported exactly for a URL check, and without events only the header is written |
| GenerateCode.ClassLines | src/renderer/utils/codeGenerator.js:1448-1526 | the class branch writes its header and footer around the body of `run` at four spaces; without events the body is `pass` unless a manual action was emitted |
| GenerateCode.PlaywrightJsLines | src/renderer/utils/codeGenerator.js:1527-1666 | the JavaScript and TypeScript branches write header, statements at two spaces and footer; without events only header and footer |
| GenerateCode.SeleniumPythonLines | src/renderer/utils/codeGenerator.js:1668-1735 | the Selenium-Python branch writes its header and ends with `driver.quit()`; `normalize_url` is imported exactly for a URL check |
| GenerateCode.SeleniumJsLines | src/renderer/utils/codeGenerator.js:1736-1819 | the Selenium JavaScript and TypeScript branches write header, statements and footer; without events only header and footer |
| GenerateCode.PlaywrightScriptLines | src/renderer/utils/codeGenerator.js:1363-1666 | the `playwright` branch writes the script of its language, and nothing for another language |
| GenerateCode.SeleniumScriptLines | src/renderer/utils/codeGenerator.js:1667-1819 | the `selenium` branch writes the script of its language, and nothing for another language |
| GenerateCode.ScriptCode | src/renderer/utils/codeGenerator.js:1363-1821 | the text is the lines of the framework and language's script joined by newlines |
| GenerateCode.GenerateCode | src/renderer/utils/codeGenerator.js:1356-1822 | `generateCode` returns the lines of the lower-cased framework and language's script, over the timeline of the events and present manual actions, joined by newlines |
| GenerateCode.ScriptTextUnknown | src/renderer/utils/codeGenerator.js:1356-1822 | an unknown framework or language gives the empty script |
| GenerateCode.ScriptTextPytest | src/renderer/utils/codeGenerator.js:1364-1391 | the text of a pytest script starts with its header, whose `normalize_url` import is there exactly for a URL check |
| GenerateCode.ScriptTextSeleniumPython | src/renderer/utils/codeGenerator.js:1668-1686 | the text of a Selenium-Python script starts with its header |
| GenerateCode.PytestScriptStarts | src/renderer/utils/codeGenerator.js:1364-1391 | the lines of a pytest script, joined, start with its joined header |
| GenerateCode.SeleniumPythonScriptStarts | src/renderer/utils/codeGenerator.js:1668-1686 | the lines of a Selenium-Python script, joined, start with its joined header |
| JsonValues.ParseStored | server/routes/objects.js:59-63 | a stored JSON column reads as an empty array when it is missing or empty text, and as its parsed value when it parses |
| JsonValues.LevelMembers | server/routes/objects.js:41-46 | one level of a tree holds exactly the rows whose parent is the parent asked for |
| JsonValues.LevelEmpty | server/routes/objects.js:41-46 | a level is empty exactly when no row has that parent |
| KeySort.InsertBy | server/routes/objects.js:73 | inserting into a list keeps every entry, each as often as before, and adds the new one once |
| KeySort.InsertSorted | server/routes/objects.js:73 | inserting into a list sorted by a total preorder keeps it sorted |
| KeySort.SortByFacts | server/routes/objects.js:73 | sorting by a total preorder yields a sorted permutation of the input |
| KeySort.SortByMembers | server/routes/objects.js:73 | the sort keeps the length and exactly the entries of the list |
| KeySort.KeyBeforeIsPreorder | server/routes/objects.js:73 | `(a, b) => key(a) - key(b)` is a consistent comparator: total and transitive |
| KeySort.SortByKeyFacts | src/renderer/utils/objectRepository.js:234 | sorting by a numeric key yields a permutation of the input in ascending key order |
| KeySort.SortedHeadIsLeast | server/services/locatorHealingService.js:752-753 | after sorting a non-empty list, `[0]` is an entry of the list with the smallest key |
| KeySort.SortedHeadIsFirstLeast | server/services/locatorHealingService.js:788-789 | because the sort is stable, `[0]` is the earliest entry with the smallest key: every entry before it has a larger key |
| KeySort.SortKeepsMembers | server/services/locatorHealingService.js:410-414 | the sort keeps exactly the entries of the list |
| ObjectRoutes.BuildTree | server/routes/objects.js:37-74 | every node of a built level comes from a row with that parent |
| ObjectRoutes.BuildNodes | server/routes/objects.js:47-72 | the `map` gives one node per row of the level, in order, each carrying its row's fields, its parsed selectors and, as children, the whole tree built under its row, unset when that is empty |
| ObjectRoutes.BuiltChildrenUnset | server/routes/objects.js:66-69 | a node's children are unset exactly when no row names it as parent |
| ObjectRoutes.BuiltChildren | server/routes/objects.js:66-73 | set children hold one node per row naming the node as parent, none other, sorted by `priority`, each itself built from its row, so the same holds at every depth |
| ObjectRoutes.BuildTreeLength | server/routes/objects.js:41-72 | a built level has as many nodes as the level has rows |
| ObjectRoutes.BuildTreeFacts | server/routes/objects.js:37-74 | a level has one node per row with exactly that parent (`null` means a `null` parent), each node built from its row (with its whole subtree as children), sorted by `priority` |
| ObjectRoutes.SortedLevel | server/routes/objects.js:40-73 | sorting the mapped level by `priority` keeps one node per row of the level and orders them |
| ObjectRoutes.ValidatePost | server/routes/objects.js:158-170 | the first 400 answers exactly a falsy `project_id` or `name`; the second exactly a body that passed the first and has no non-empty `selectors` array |
| ObjectRoutes.AcceptedPost | server/routes/objects.js:158-170 | a body that passes has a truthy project and name and a `selectors` array with at least one entry |
| TestCaseRoutes.BuildTree | server/routes/testCases.js:51-99 | every node of a built level comes from a row with that parent |
| TestCaseRoutes.BuildNodes | server/routes/testCases.js:62-97 | the `map` gives one node per row of the level, in order, each built from its row (parsed steps and tags, script flag) with, as children, the whole tree built under its row, unset when that is empty |
| TestCaseRoutes.BuiltChildrenUnset | server/routes/testCases.js:91-94 | a node's children are unset exactly when no row names it as parent |
| TestCaseRoutes.BuiltChildren | server/routes/testCases.js:91-98 | set children hold one node per row naming the node as parent, none other, sorted by `order_index`, each itself built from its row, so the same holds at every depth |
| TestCaseRoutes.BuildTreeLength | server/routes/testCases.js:55-97 | a built level has as many nodes as the level has rows |
| TestCaseRoutes.BuildTreeFacts | server/routes/testCases.js:51-99 | a level has one node per row with exactly that parent, each built from its row, sorted by `order_index` |
| TestCaseRoutes.SortedLevel | server/routes/testCases.js:54-98 | sorting the mapped level by `order_index` keeps one node per row of the level and orders them |
| TestCaseRoutes.ValidatePost | server/routes/testCases.js:201-214 | the first 400 answers exactly a falsy `project_id` or `name`; the second exactly a `test_case` body with falsy `steps` |
| TestCaseRoutes.AcceptedPost | server/routes/testCases.js:201-214 | a body that passes has a truthy project and name, and truthy steps when it is a test case |
| TcTree.NodeNumber | src/main/main.js:5426-5448 | a test case always gets a number (its own `tc_number` when truthy, else its id); a folder keeps a truthy `tc_number` or has none |
| TcTree.TcBeforeIsPreorder | src/main/main.js:5458-5469 | the comparator (numbered first by number, then by `order_index`, then by id) is total and transitive |
| TcTree.BuildTree | src/main/main.js:5407-5470 | every node of a built level comes from a row with that parent |
| TcTree.BuildNodes | src/main/main.js:5417-5457 | the `map` gives one node per row of the level, in order, each built from its row with, as children, the whole tree built under its row, unset when that is empty |
| TcTree.BuiltChildrenUnset | src/main/main.js:5451-5454 | a node's children are unset exactly when no row names it as parent |
| TcTree.BuiltChildren | src/main/main.js:5451-5469 | set children hold one node per row naming the node as parent, none other, in the comparator's order, each itself built from its row, so the same holds at every depth |
| TcTree.BuildTreeLength | src/main/main.js:5411-5457 | a built level has as many nodes as the level has rows |
| TcTree.BuildTreeFacts | src/main/main.js:5407-5470 | a level has one node per row with exactly that parent, each built from its row, sorted by the comparator |
| TcTree.SortedLevel | src/main/main.js:5411-5469 | sorting the mapped level by the comparator keeps one node per row and orders them |
| TcTree.SiblingOrder | src/main/main.js:5458-5469 | in a sorted level numbered nodes come first in ascending number, and unnumbered ones follow ascending by `order_index`, then by id |
| PageObjectLookup.AnyPatternMatches | src/main/main.js:6233-6262 | the inner loop reports a match exactly when some pattern matches exactly, as a path prefix of the URL's path, or as a `regex:` pattern |
| PageObjectLookup.FindPageObjectByUrl | src/main/main.js:6217-6265 | the result is the first page object with a matching pattern, and nothing exactly when no page object matches |
| KeywordLibrary.ReplaceFirst | src/renderer/utils/keywordLibrary.js:504-508 | `String.prototype.replace` with a string pattern leaves the text alone when the pattern does not occur |
| KeywordLibrary.ReplaceFirstPlaces | src/renderer/utils/keywordLibrary.js:504-508 | when the pattern occurs, the replacement stands at its first occurrence and the text before it is unchanged |
| KeywordLibrary.StripSuffix | src/renderer/utils/keywordLibrary.js:431 | `replace(/page$/, '')` removes a trailing `page` exactly when the name ends with it and otherwise changes nothing |
| KeywordLibrary.NormalizeUrlFacts | src/renderer/utils/keywordLibrary.js:22-32 | a falsy URL and one with an `http(s)://` scheme (any case) come back unchanged; any other gets `https://` in front; the result of a truthy URL has a scheme, and normalising twice changes nothing |
| KeywordLibrary.Position | src/renderer/utils/keywordLibrary.js:37-260 | every keyword has a place in the table's declaration order |
| KeywordLibrary.Entries | src/renderer/utils/keywordLibrary.js:267-268 | `Object.values(KEYWORDS)` lists each keyword's entry in table order |
| KeywordLibrary.KeywordTableWellFormed | src/renderer/utils/keywordLibrary.js:37-260 | the table holds 18 keywords, each once, with pairwise different names |
| KeywordLibrary.FindFacts | src/renderer/utils/keywordLibrary.js:280-282 | a lookup finds nothing exactly when no listed keyword has that name, and what it finds has that name |
| KeywordLibrary.GetKeywordFacts | src/renderer/utils/keywordLibrary.js:280-282 | `getKeyword` returns a keyword's own entry for its name, and an entry exactly when the name is a keyword's |
| KeywordLibrary.FoundUnderOwnName | src/renderer/utils/keywordLibrary.js:280-282 | every keyword is found under its own name |
| KeywordLibrary.FilterKind | src/renderer/utils/keywordLibrary.js:270 | the filter keeps exactly the entries of that type |
| KeywordLibrary.GetKeywordsFacts | src/renderer/utils/keywordLibrary.js:267-273 | without a type all 18 entries come back in table order; with one, exactly the entries of that type |
| KeywordLibrary.FilterQuery | src/renderer/utils/keywordLibrary.js:526-531 | the filter keeps exactly the entries whose name or description contains the query |
| KeywordLibrary.GetKeywordSuggestionsFacts | src/renderer/utils/keywordLibrary.js:522-532 | an empty query suggests every keyword; otherwise exactly those whose lower-cased name or description contains the lower-cased query |
| KeywordLibrary.GenerateKeywordCodeFallbacks | src/renderer/utils/keywordLibrary.js:291-300 | an unknown keyword yields the "unknown keyword" comment, an unsupported framework the "not supported" comment, and `pytest` the same code as `playwright` |
| KeywordLibrary.OpenWithoutUrlParam | src/renderer/utils/keywordLibrary.js:39-60 | `open`/`goto` called without a `url` parameter navigate to the text `undefined` |
| KeywordLibrary.OpenTemplates | src/renderer/utils/keywordLibrary.js:39-60 | `open`/`goto` render `page.goto("…")` and `driver.get("…")` around the normalised URL |
| KeywordLibrary.OpenIsKnown | src/renderer/utils/keywordLibrary.js:39-60 | `open` and `goto` are keywords of the table |
| KeywordLibrary.OpenWithUrlParam | src/renderer/utils/keywordLibrary.js:39-60 | with a `url` parameter, `open`/`goto` navigate to that URL with a scheme |
| KeywordLibrary.UsedPageObjectsFacts | src/renderer/utils/keywordLibrary.js:337-368 | the set of used page objects holds each name once, exactly the names the page-object steps give |
| KeywordLibrary.InstanceVar | src/renderer/utils/keywordLibrary.js:431 | an instance variable name ends with `_page` |
| KeywordLibrary.Instances | src/renderer/utils/keywordLibrary.js:428-434 | the instance map has an entry exactly for each used page object |
| KeywordLibrary.ParamStrings | src/renderer/utils/keywordLibrary.js:481-489 | one `k=v` text per parameter |
| KeywordLibrary.StepParams | src/renderer/utils/keywordLibrary.js:497 | as written, a keyword step passes only `target` and `value`, so `params.url` is missing |
| KeywordLibrary.StepParamsIntended | src/renderer/utils/keywordLibrary.js:345-346 | the intended parameters also carry `url` as the target, or the value when the target is empty, as the page-object lookup reads it |
| KeywordLibrary.CollectPageObjects | src/renderer/utils/keywordLibrary.js:337-368 | the first loop collects exactly the used page objects |
| KeywordLibrary.EmitStep | src/renderer/utils/keywordLibrary.js:440-500 | one iteration of the second loop appends exactly the step's code |
| KeywordLibrary.GenerateCodeFromSteps | src/renderer/utils/keywordLibrary.js:322-515 | the generated script is the header, page-object imports, signature and every step's code, wrapped in `try`/`finally` for Selenium |
| KeywordLibrary.OpenStepLine | src/renderer/utils/keywordLibrary.js:495-498 | as written, every `open`/`goto` step produces a line navigating to `undefined` |
| KeywordLibrary.OpenStepIntended | src/renderer/utils/keywordLibrary.js:345-346 | with the intended parameters an `open`/`goto` step with a URL navigates to that URL with a scheme |
| KeywordLibrary.KeywordLineOf | src/renderer/utils/keywordLibrary.js:495-498 | a plain keyword step adds the keyword's code, indented four spaces, on its own line |
| KeywordLibrary.StepsCodeExtends | src/renderer/utils/keywordLibrary.js:440-500 | the loop only appends: the code before it is a prefix of the code after it |
| KeywordLibrary.CodeFromStepsHeader | src/renderer/utils/keywordLibrary.js:332-333 | a language other than Python yields the "not supported" comment; for Playwright/pytest the code starts with imports, page-object imports and signature |
| KeywordLibrary.CodeFromStepsSelenium | src/renderer/utils/keywordLibrary.js:503-512 | Selenium code opens `try:` right after the `def` line and ends with the `finally: driver.quit()` block |
| KeywordLibrary.StepsCodeKeywordLines | src/renderer/utils/keywordLibrary.js:495-498 | steps that are all plain keyword steps append exactly their keyword lines, in order |
| KeywordLibrary.PageObjectCallAfterCreation | src/renderer/utils/keywordLibrary.js:472-491 | a page-object step's method call is appended after a line creating its instance, and the creation line is added only when the code does not already hold one |
| KeywordLibrary.EveryPageObjectHasInstance | src/renderer/utils/keywordLibrary.js:428-434 | every page-object step's object has an instance variable |
| KeywordValidator.ValidateTargetFacts | src/renderer/utils/keywordValidator.js:116-162 | a target is valid exactly when truthy; a valid one always has a type; `id` exactly when the trimmed target matches `#name`; `url` exactly when no selector pattern matches and the untrimmed target starts with `http://` or `https://` |
| KeywordValidator.ValidateStep | src/renderer/utils/keywordValidator.js:22-67 | the method computes the step's validation |
| KeywordValidator.CheckParams | src/renderer/utils/keywordValidator.js:40-52 | the parameter loop computes exactly the parameter errors and warnings |
| KeywordValidator.ParamErrorsEmpty | src/renderer/utils/keywordValidator.js:40-52 | no parameter error exactly when every required `target` is truthy and every `url` has a target or a value |
| KeywordValidator.TargetWarningsNever | src/renderer/utils/keywordValidator.js:55-60 | the target-format warning never fires, because a truthy target is always valid |
| KeywordValidator.StepValidIffNoErrors | src/renderer/utils/keywordValidator.js:62-66 | a step is valid exactly when it has no errors |
| KeywordValidator.StepValidationFacts | src/renderer/utils/keywordValidator.js:22-67 | a step is valid exactly when its action is a keyword whose required parameters are present; a missing action and an unknown keyword each give exactly one error |
| KeywordValidator.StepResults | src/renderer/utils/keywordValidator.js:95-102 | one result per step |
| KeywordValidator.StepResultsAt | src/renderer/utils/keywordValidator.js:95-96 | the k-th result is the validation of the k-th step at index k |
| KeywordValidator.ValidateSteps | src/renderer/utils/keywordValidator.js:74-109 | the method computes the list's validation |
| KeywordValidator.CombineFacts | src/renderer/utils/keywordValidator.js:95-108 | the combined result is valid exactly when it has no errors, and exactly when every step is valid |
| KeywordValidator.StepsValidationFacts | src/renderer/utils/keywordValidator.js:74-109 | a list is valid exactly when it has no errors, and exactly when it is an array with at least one step and every step is valid |
| KeywordValidator.TrimmedOrEmpty | src/renderer/utils/keywordValidator.js:171-174 | a trimmed field neither starts nor ends with white space |
| KeywordValidator.NormalizeAction | src/renderer/utils/keywordValidator.js:177-181 | the intended rule: a keyword's own name is kept, anything else is lower-cased |
| KeywordValidator.NormalizeActionIdempotent | src/renderer/utils/keywordValidator.js:177-181 | the intended rule applied twice changes nothing more |
| KeywordValidator.ActionAsWritten | src/renderer/utils/keywordValidator.js:177-181 | as written: the four listed names are kept and every other action is lower-cased |
| KeywordValidator.ActionAsWrittenIdempotent | src/renderer/utils/keywordValidator.js:177-181 | the as-written rule applied twice changes nothing more |
| KeywordValidator.NormalizeStepFacts | src/renderer/utils/keywordValidator.js:169-184 | every field becomes a string, action and target trimmed; the action is lower-cased unless it is one of the four listed names; normalising twice changes nothing |
| KeywordValidator.NormalizeStepIntendedFacts | src/renderer/utils/keywordValidator.js:169-184 | with the intended rule a keyword's own name survives, and normalising twice changes nothing |
| KeywordValidator.NormalizeStepAgrees | src/renderer/utils/keywordValidator.js:177-181 | the two rules differ exactly on keywords with capitals that the list leaves out |
| KeywordValidator.NormalizeAll | src/renderer/utils/keywordValidator.js:196-198 | filtering never lengthens the list |
| KeywordValidator.NormalizeAllFacts | src/renderer/utils/keywordValidator.js:191-199 | every kept step has a non-empty trimmed action and is already normalised, and normalising the list again changes nothing |
| KeywordValidator.ValidateAndNormalizeSteps | src/renderer/utils/keywordValidator.js:206-214 | the result is the normalised steps and the validation of exactly those |
| KeywordValidator.ValidatedStepsAreKeywords | src/renderer/utils/keywordValidator.js:206-214 | when the normalised steps validate, there is at least one and each action is a keyword |
| KeywordValidator.CamelCaseKeywordLostAsWritten | src/renderer/utils/keywordValidator.js:178-180 | as written, `verifyElementPresent` is lower-cased to a name no keyword has, so the normalised step is invalid |
| KeywordValidator.CamelCaseKeywordKept | src/renderer/utils/keywordValidator.js:178-180 | with the intended rule, `verifyElementPresent` with a target keeps its name and validates |
| LocatorHealing.QuoteFrom | server/services/locatorHealingService.js:82 | the scan stops at the first quote at or after its start, or at the end |
| LocatorHealing.WordFrom | server/services/locatorHealingService.js:82 | the scan covers the longest run of `\w` characters from its start |
| LocatorHealing.QuotedAt | server/services/locatorHealingService.js:82 | a match of `['"]([^'"]+)['"]` is a non-empty run without quotes between two quotes |
| LocatorHealing.AttrMatchAt | server/services/locatorHealingService.js:438 | an attribute match captures a non-empty value |
| LocatorHealing.MatchAt | server/services/locatorHealingService.js:82-100 | every pattern match captures a non-empty value |
| LocatorHealing.FirstMatch | server/services/locatorHealingService.js:82-100 | `s.match(pattern)` captures a non-empty value |
| LocatorHealing.FirstMatchFacts | server/services/locatorHealingService.js:82-100 | `s.match` returns the match at the leftmost index that matches, and nothing exactly when no index matches |
| LocatorHealing.FirstMatchFound | server/services/locatorHealingService.js:82-100 | a found match sits at an index before which nothing matches |
| LocatorHealing.FirstMatchMissing | server/services/locatorHealingService.js:82-100 | when nothing is found, no index matches |
| LocatorHealing.FirstMatchAt | server/services/locatorHealingService.js:82-100 | the first index that matches decides the result |
| LocatorHealing.FirstMatchNone | server/services/locatorHealingService.js:82-100 | without any matching index, nothing is found |
| LocatorHealing.NoEqualsNoMatch | server/services/locatorHealingService.js:438 | an attribute pattern never matches where `=` does not follow the name |
| LocatorHealing.InsideNameNoMatch | server/services/locatorHealingService.js:438 | a whole-name pattern never matches right after a word character |
| LocatorHealing.AttrValue | server/services/locatorHealingService.js:438 | as written, `/id=['"]([^'"]+)['"]/i` captures a non-empty value wherever `id=` occurs, even inside a longer name |
| LocatorHealing.AttrValueExact | server/services/locatorHealingService.js:438 | as evidently intended, only an attribute named exactly `id` is read; its value is non-empty |
| LocatorHealing.IdFoundInsideTestId | server/services/locatorHealingService.js:438 | as written, a start tag with only `data-testid="s"` yields the id `s`; read exactly, it yields none |
| LocatorHealing.TestIdTagAsWritten | server/services/locatorHealingService.js:438 | the pattern as written finds `id` inside `data-testid` |
| LocatorHealing.TestIdTagCorrected | server/services/locatorHealingService.js:438 | the exact reading finds no `id` in that tag |
| LocatorHealing.AttrValueExactFacts | server/services/locatorHealingService.js:438 | the exact reading finds the first match that starts a whole attribute name, and nothing when none does |
| LocatorHealing.AttrValueFacts | server/services/locatorHealingService.js:438 | the reading as written finds the leftmost match, and nothing exactly when none exists |
| LocatorHealing.AttrValueAgrees | server/services/locatorHealingService.js:438 | the two readings agree whenever every match starts a whole attribute name |
| LocatorHealing.FirstMatchSame | server/services/locatorHealingService.js:438 | two patterns that match alike at every index find the same first match |
| LocatorHealing.DataAttrAtFacts | server/services/locatorHealingService.js:82-85 | a `[data-*]` match names an attribute `data-` followed by word characters, with a non-empty value without quotes |
| LocatorHealing.DataAttrInFacts | server/services/locatorHealingService.js:82-85 | the first `[data-*]` selector in a locator has that shape |
| LocatorHealing.DataAttrExample | server/services/locatorHealingService.js:82-85 | `[data-name="Save"]` carries `data-name` with value `Save` |
| LocatorHealing.FirstIndex | server/services/locatorHealingService.js:37-46 | `find`/`for…of` returns the first element satisfying the test, or none when no element does |
| LocatorHealing.FindInMetadataGuards | server/services/locatorHealingService.js:22-32 | no data, no locator, or metadata without an `elements` array finds nothing |
| LocatorHealing.FindInMetadataText | server/services/locatorHealingService.js:35-47 | a text search returns the first element whose lower-cased text contains the locator without `text=`, quotes and case |
| LocatorHealing.FindInMetadataSound | server/services/locatorHealingService.js:17-122 | whatever is found is an element of the metadata; a text hit matches the text needle; an `id` hit comes from a `#id` locator naming that element's id; attribute hits need a `css`, `playwright` or `selenium` type |
| LocatorHealing.AttributeSearchSound | server/services/locatorHealingService.js:50-115 | an attribute hit is an element of the list, and an `id` hit comes from a `#id` locator naming that id |
| LocatorHealing.EscapedHead | server/services/locatorHealingService.js:224 | an escaped text never begins with a bare quote |
| LocatorHealing.UnescapeEscape | server/services/locatorHealingService.js:224 | reading `\"` back as `"` recovers the escaped text |
| LocatorHealing.UnframeFramed | server/services/locatorHealingService.js:224-229 | a value placed in a locator template can always be read back out of it |
| LocatorHealing.GenerateTextLocator | server/services/locatorHealingService.js:221-233 | a text locator exists exactly when the text is truthy and the type is `playwright` or `selenium` |
| LocatorHealing.SeleniumTextLocatorIgnoresText | server/services/locatorHealingService.js:229 | as written, the Selenium template lacks the `${}` and gives `Save` and `Cancel` the same locator |
| LocatorHealing.GenerateTextLocatorIntended | server/services/locatorHealingService.js:221-233 | as evidently intended, with the same null cases |
| LocatorHealing.TextLocatorRoundTrip | server/services/locatorHealingService.js:221-233 | the intended text locator carries its text: reading it back gives the text |
| LocatorHealing.TextLocatorAgrees | server/services/locatorHealingService.js:226-229 | the Playwright branch as written is the intended one; the Selenium branch always yields the one fixed locator |
| LocatorHealing.GenerateAttributeLocator | server/services/locatorHealingService.js:242-268 | an attribute locator exists exactly when attribute and value are truthy and the type is `playwright` or `selenium` |
| LocatorHealing.AttributeLocatorFacts | server/services/locatorHealingService.js:242-268 | the value can be read back out of the locator; Playwright `id` and `class` become `#v` and `.v` |
| LocatorHealing.HighestRankFirst | server/services/locatorHealingService.js:408-416 | after the sort, `[0]` is a found element of the highest rank |
| LocatorHealing.CollectCurrentDomMatches | server/services/locatorHealingService.js:281-405 | the pushes collect exactly the text, attribute and old-element hits, in order |
| LocatorHealing.FindElementInCurrentDom | server/services/locatorHealingService.js:276-420 | nothing without a DOM or characteristics; nothing otherwise only when nothing was collected; else a collected element no other outranks |
| LocatorHealing.CurrentDomMatchesFacts | server/services/locatorHealingService.js:281-405 | each collected text hit has no attribute and rank 0 and carries the DOM's start tag; each attribute hit names an attribute and value the DOM holds |
| LocatorHealing.UniqueScoresHigher | server/services/locatorHealingService.js:438-543 | for each method a unique match scores at least ten points above a non-unique one |
| LocatorHealing.FirstToken | server/services/locatorHealingService.js:531 | `split(/\s+/)[0]` is the longest prefix without white space |
| LocatorHealing.AttrStrategy | server/services/locatorHealingService.js:438-506 | an attribute method gives at most one strategy, scored by its count, and one exactly when the value is truthy and the type known |
| LocatorHealing.TextStrategy | server/services/locatorHealingService.js:509-525 | the text method gives at most one strategy, and one exactly when the element has a text and the type is known |
| LocatorHealing.AppendWellScored | server/services/locatorHealingService.js:434-545 | appending a later method's strategy keeps the list in method order and scored by counts |
| LocatorHealing.OptimalLocatorsFacts | server/services/locatorHealingService.js:429-546 | the candidates are in method order, each scored by its own count; an `id` candidate exactly when the start tag has an id and the type is known; a text one exactly when the element has text; none for an unknown type |
| LocatorHealing.SixPieces | server/services/locatorHealingService.js:434-545 | the six pushes in order make a well-scored list holding `id` and text exactly when their pieces do |
| LocatorHealing.PieceHasMethod | server/services/locatorHealingService.js:434-545 | a non-empty piece uses exactly its own method |
| LocatorHealing.HasMethodConcat | server/services/locatorHealingService.js:434-545 | a concatenation uses a method exactly when one of its parts does |
| LocatorHealing.GenerateOptimalLocators | server/services/locatorHealingService.js:429-546 | no element gives no candidates; otherwise the candidates are the six pushes in order |
| LocatorHealing.Hits | server/services/locatorHealingService.js:660-682 | the hits are at most as many as the snapshots |
| LocatorHealing.HitsEmpty | server/services/locatorHealingService.js:660-684 | there are no hits exactly when no snapshot search found anything |
| LocatorHealing.CollectSnapshotMatches | server/services/locatorHealingService.js:660-682 | the loop keeps exactly the hits, and none exactly when no search found anything |
| LocatorHealing.SortByConfidence | server/services/locatorHealingService.js:752-753 | the sort by descending confidence keeps the same strategies (a permutation), orders them by descending confidence, and its head is the earliest strategy of highest confidence |
| LocatorHealing.FallbackStrategies | server/services/locatorHealingService.js:708-744 | without a current DOM, the strategies are a text one at 70 exactly when the element has text, and an attribute one at 85 for `id` or 75 otherwise exactly when it has attribute and value |
| LocatorHealing.HasMethodAtMostOne | server/services/locatorHealingService.js:708-744 | a list of at most one strategy uses a method exactly when its strategy does |
| LocatorHealing.HealLocator | server/services/locatorHealingService.js:558-803 | missing locator or URL, no snapshot and no DOM, and nothing found each fail with their error; a success returns as `allStrategies` the pushed strategies sorted by descending confidence (a permutation) and picks their head, the earliest of highest confidence, from the fallback set without a current DOM and from the ranked candidates of a current-DOM match with one, capping the confidence at 100 there |
| LocatorHealing.HealWithoutCurrentDom | server/services/locatorHealingService.js:708-765 | no strategy fails with its error; otherwise the result is the fallback strategies sorted by descending confidence, and the pick is their head: the earliest strategy of highest confidence, scored 70, 75 or 85 |
| LocatorHealing.HealInCurrentDom | server/services/locatorHealingService.js:778-803 | no candidate fails with its error; otherwise the result is the ranked candidates sorted by descending confidence, each keeping its method's score, and the pick is their head with its confidence capped at 100 |
| LocatorHealing.SortedHeadIsBest | server/services/locatorHealingService.js:752-761 | a result built from the head of a list sorted by descending confidence names a strategy of that list that none outscores |
| LocatorHealing.PermutedScores | server/services/locatorHealingService.js:788 | reordering well-scored strategies keeps each one's score for its method |
| LocatorHealing.SortedKeepsScores | server/services/locatorHealingService.js:778-788 | the sorted current-DOM candidates keep the scores their methods were given |
| LocatorHealing.FallbackPrefersId | server/services/locatorHealingService.js:715-761 | with text and an `id` and no current DOM, the text strategy pushed first (70) ends up second and the `id` strategy (85) is picked |
| ObjectRepository.DetectTypeExact | src/renderer/utils/objectRepository.js:306-350 | `detectType` gives each type exactly when the trimmed selector has that type's prefix and no earlier one; anything else, and a falsy selector, is `css` |
| ObjectRepository.NormalizeExplicit | src/renderer/utils/objectRepository.js:358-378 | priority 0, a trimmed value, the type passed when there is one, and a prefix stripped only for the type passed explicitly |
| ObjectRepository.NormalizeDetected | src/renderer/utils/objectRepository.js:358-378 | without a type nothing is stripped: the value is the trimmed selector, and normalising it again keeps it |
| ObjectRepository.NormalizeDetectedValue | src/renderer/utils/objectRepository.js:358-378 | without a type the value is the trimmed selector |
| ObjectRepository.ParseSelectors | src/renderer/utils/objectRepository.js:195-205 | falsy input and invalid JSON give `[]`, an array passes through, and valid JSON text gives its parse |
| ObjectRepository.CreateSelector | src/renderer/utils/objectRepository.js:263-269 | the selector carries the type and value passed and priority 0 when none is passed |
| ObjectRepository.FindType | src/renderer/utils/objectRepository.js:246 | `find` returns the first selector of the type, or none when no selector has it |
| ObjectRepository.BestOfFacts | src/renderer/utils/objectRepository.js:245-253 | over a list sorted by priority, the first preferred type present gives its lowest-priority selector; with none present, the first of the list |
| ObjectRepository.GetBestSelectorFacts | src/renderer/utils/objectRepository.js:227-254 | `''` without selectors; else the lowest-priority selector of the framework's first preferred type present, or, when none is present, the first selector of least priority, as the stable sort leaves it first |
| ObjectRepository.SameMembers | src/renderer/utils/objectRepository.js:234 | sorting does not change which types are present nor which selector is lowest of its type |
| ObjectRepository.CreatedSelectorIsBest | src/renderer/utils/objectRepository.js:227-269 | a single created selector is the best one for any framework |
| ObjectRepository.BestOfSingle | src/renderer/utils/objectRepository.js:245-253 | with one selector, the choice is that selector |
| ObjectRepository.LastWithId | src/renderer/utils/objectRepository.js:85-90 | the node stored for an id is an object with that id (the last one, as `Map.set` overwrites) |
| ObjectRepository.BuildTree | src/renderer/utils/objectRepository.js:75-108 | a non-array gives an empty forest; otherwise a node per id, the roots are the objects whose `parent_id` is falsy or unknown in input order, and each node's children are the objects naming it as parent in input order |
| ObjectRepository.RootIdsMembers | src/renderer/utils/objectRepository.js:93-105 | the roots are exactly the objects that are roots |
| ObjectRepository.ChildIdsMembers | src/renderer/utils/objectRepository.js:93-105 | a node's children are exactly the objects naming it as parent |
| ObjectRepository.EveryObjectPlaced | src/renderer/utils/objectRepository.js:93-105 | every object is a root or a child of an existing parent |
| RecorderActions.SerialOf | src/renderer/recorder/recorder-actions.js:14 | the serial defaults to 1 and is never 0 |
| RecorderActions.BuildManualActionEntryFacts | src/renderer/recorder/recorder-actions.js:12-33 | no entry exactly for a missing or empty path or a `get_attribute` without a trimmed attribute name; otherwise the entry keeps type, path, clock time and serial (1 by default) and the last path item's frame; `extract_text` and `get_attribute` get the given result name or the numbered default, and other types neither |
| RecorderActions.AddManualAction | src/renderer/recorder/recorder-actions.js:38-45 | with an entry, the new list is the old one with the entry appended; without one, nothing |
| RecorderActions.WellScoredSnoc | src/renderer/recorder/recorder-actions.js:702-713 | appending a selector entry scored 100 or 80 after entries scored 80 keeps the list well scored |
| RecorderActions.PathSelectorsFacts | src/renderer/recorder/recorder-actions.js:702-713 | the selector list scores the last path item 100 and the others 80, is empty exactly when no item has a selector, and ends with the last item's entry when it has one |
| RecorderActions.InteractionRecordFacts | src/renderer/recorder/recorder-actions.js:720-750 | the record has the interaction type, version 2, the path's selectors as candidates, the last selector as primary, the last item's frame, and the value when it is truthy, none otherwise |
| RecorderActions.WaitRecordFacts | src/renderer/recorder/recorder-actions.js:571-597 | a plain wait has no candidates and waits the given time, or 1000 ms when none is given |
| RecorderActions.Append | src/renderer/recorder/recorder-actions.js:662-669 | the record, normalised when asked, is pushed onto the events and the timeline selects it |
| RecorderActions.AddInteractionAction | src/renderer/recorder/recorder-actions.js:684-770 | nothing changes exactly for a missing or empty path or a path without selectors; otherwise the interaction record is appended |
| RecorderActions.AddWaitAction | src/renderer/recorder/recorder-actions.js:556-679 | `wait` always appends a wait record; `waitForElement` with a path that has selectors appends an element wait; anything else changes nothing |
| RecorderAi.KeySourceOf | src/renderer/recorder/recorder-ai.js:25-32 | a key source exists exactly when one of `id`, `manual.id`, `timestamp`, `createdAt` is truthy |
| RecorderAi.AiStateKey | src/renderer/recorder/recorder-ai.js:25-32 | no key exactly for a missing event or one without any of the four fields |
| RecorderAi.AiStateKeyInjective | src/renderer/recorder/recorder-ai.js:27-30 | equal keys come from the same field with the same printed value |
| RecorderAi.InitialState | src/renderer/recorder/recorder-ai.js:41-46 | a new state is `loaded` exactly when the event has AI candidates, `idle` otherwise, without error |
| RecorderAi.MergeFacts | src/renderer/recorder/recorder-ai.js:58-59 | `{ ...prev, ...patch }` takes each field from the patch when present and from `prev` otherwise; merging twice or an empty patch changes nothing more |
| RecorderAi.AiSuggestions.constructor | src/renderer/recorder/recorder-ai.js:20 | the state map starts empty |
| RecorderAi.AiSuggestions.GetState | src/renderer/recorder/recorder-ai.js:37-50 | without a key, `idle` and no change; with a stored state, that state and no change; otherwise the initial state, stored under the key |
| RecorderAi.AiSuggestions.SetState | src/renderer/recorder/recorder-ai.js:55-62 | without a key, nothing; otherwise the stored (or idle) state merged with the patch, stored under the key and returned |
| RecorderAi.SelectorTextTrimmed | src/renderer/recorder/recorder-ai.js:212 | the selector text is trimmed |
| RecorderAi.KindOf | src/renderer/recorder/recorder-ai.js:219 | every normalised candidate has a type |
| RecorderAi.ReasonOf | src/renderer/recorder/recorder-ai.js:220 | every normalised candidate has a reason |
| RecorderAi.Filled | src/renderer/recorder/recorder-ai.js:218-235 | the trimmed selector, its type and reason are set, and the source is `ai` |
| RecorderAi.NormalizeOne | src/renderer/recorder/recorder-ai.js:218-243 | as `Filled`; a non-text candidate loses `matchMode` and `textValue`, a text one gets a match mode |
| RecorderAi.NormalizeOneClean | src/renderer/recorder/recorder-ai.js:211-243 | a non-empty trimmed selector yields a clean AI candidate carrying it |
| RecorderAi.NormalizedFrom | src/renderer/recorder/recorder-ai.js:209-245 | the map-and-filter never lengthens the list |
| RecorderAi.Kept | src/renderer/recorder/recorder-ai.js:211-217 | one candidate yields at most one |
| RecorderAi.NormalizedFromFacts | src/renderer/recorder/recorder-ai.js:208-245 | every kept candidate is clean and not seen before, and no two share a selector |
| RecorderAi.AiCandidatesFacts | src/renderer/recorder/recorder-ai.js:206-247 | at most 12 candidates, each clean, with pairwise different selectors |
| RecorderAi.FirstFreshKept | src/renderer/recorder/recorder-ai.js:211-243 | a first candidate with a non-blank selector is kept, normalised, at the head |
| RecorderAi.NormalizeAiCandidates | src/renderer/recorder/recorder-ai.js:206-247 | the method computes the normalised candidates |
| RecorderConditional.CreateConditionalActionState | src/renderer/recorder/recorder-conditional.js:17-37 | the fresh state is at step 0 with every field unset and step index -1 |
| RecorderConditional.StartsWithContains | src/renderer/recorder/recorder-conditional.js:65-69 | the `includes` test is implied by the `startsWith` tests after it |
| RecorderConditional.ValidateBySelectorMeans | src/renderer/recorder/recorder-conditional.js:45-76 | a child is accepted exactly when its XPath equals the parent's or extends it by `/` or `[`, or its selector equals the parent's or extends it by `.locator(` or `[` |
| RecorderConditional.ValidateBySelectorAccepts | src/renderer/recorder/recorder-conditional.js:47-56 | an XPath one step below the parent's is accepted, and so is the parent itself |
| RecorderConditional.AncestorIsParentCheck | src/renderer/recorder/recorder-conditional.js:135-168 | the ancestor check is the parent check with the roles swapped |
| RecorderConditional.LastSlashBelow | src/renderer/recorder/recorder-conditional.js:91 | the scan finds the last `/` before its bound, or none |
| RecorderConditional.XPathParentMatches | src/renderer/recorder/recorder-conditional.js:91 | `/^(.+)\/[^\/]+$/` matches exactly when some split fits, and then captures the text before that split |
| RecorderConditional.LocatorSplitBelow | src/renderer/recorder/recorder-conditional.js:112 | the scan finds the last position where `.locator(…)` closes the selector, or none |
| RecorderConditional.LocatorParent | src/renderer/recorder/recorder-conditional.js:112 | `/^(.+)\.locator\([^)]+\)$/` matches exactly when some split fits, and captures the text before the last one |
| RecorderConditional.SiblingRelationFacts | src/renderer/recorder/recorder-conditional.js:84-127 | the sibling check is symmetric, and the XPath half holds exactly when both XPaths have the same non-empty parent |
| RecorderConditional.SiblingsUnderSameParent | src/renderer/recorder/recorder-conditional.js:86-102 | two XPaths one step below the same parent are siblings |
| RecorderConditional.SpliceIndex | src/renderer/recorder/recorder-conditional.js:296-298 | `splice` clamps the index to the list, counting a negative one from the end |
| RecorderConditional.SpliceFacts | src/renderer/recorder/recorder-conditional.js:298 | `splice(i, 0, x)` inserts `x` at the clamped index and keeps every other entry in order |
| RecorderConditional.PathEntryFacts | src/renderer/recorder/recorder-conditional.js:203-213 | a path item without a selector gives no entry; otherwise its selector, scored 100 when last and 80 otherwise |
| RecorderConditional.Present | src/renderer/recorder/recorder-conditional.js:214 | `filter(Boolean)` never lengthens the list |
| RecorderConditional.PresentFacts | src/renderer/recorder/recorder-conditional.js:214 | the filter is empty exactly when every entry is missing, keeps only entries of the list, and keeps a present last entry last |
| RecorderConditional.PathEntries | src/renderer/recorder/recorder-conditional.js:203-213 | one entry or gap per path item |
| RecorderConditional.PathSelectorsFacts | src/renderer/recorder/recorder-conditional.js:203-214 | the selectors are empty exactly when no path item has one; each is truthy and scored 80 or 100; a 100 is the last item's; a last item with a selector gives the last entry |
| RecorderConditional.PathSelectorsEmpty | src/renderer/recorder/recorder-conditional.js:203-218 | the selector list is empty exactly when no path item has a selector |
| RecorderConditional.PathSelectorsScores | src/renderer/recorder/recorder-conditional.js:203-213 | every entry is truthy and scored 80 or 100, and a 100 is the last item's |
| RecorderConditional.PathSelectorsLast | src/renderer/recorder/recorder-conditional.js:203-220 | a last item with a selector gives the last entry |
| RecorderConditional.AddAssertionAfterStepFacts | src/renderer/recorder/recorder-conditional.js:184-311 | no selectors exactly for a non-empty path without any; an added assertion is spliced in after the step (clamped), keeping the other events in order, with the last selector as primary; without a path it has no candidates and `verifyTitle`/`verifyUrl` default to the page title/URL |
| RecorderConditional.AddConditionalActionAfterStepFacts | src/renderer/recorder/recorder-conditional.js:325-459 | the record is appended for step -1 and inserted after the step otherwise, with the others kept in order; it has one candidate, scored 100, exactly when there is a condition element |
| RecorderConditional.TargetAndDescriptionFacts | src/renderer/recorder/recorder-conditional.js:341-388 | a relative action's description ends with its target, which starts with the relation label; a conditional action targets the condition element; a loop has a target exactly with a loop selector; other types have neither |
| RecorderCore.Default | src/renderer/recorder/recorder-core.js:97-128 | `if (x === undefined) x = d`: an undefined field takes the default, any other value (null included) stays |
| RecorderCore.NormalizedFacts | src/renderer/recorder/recorder-core.js:89-131 | a falsy version becomes 2 and a set one stays; missing metadata becomes `{ schemaVersion: version }`; page and `wrapInTry` get defaults, a frame is added for an iframe; flow actions get `click`/`single` and null condition fields; other fields and other actions are untouched |
| RecorderCore.NormalizedIdempotent | src/renderer/recorder/recorder-core.js:89-131 | normalising a normalised record changes nothing |
| RecorderCore.NormalizeEventRecord | src/renderer/recorder/recorder-core.js:89-131 | the record is updated in place to its normalised form; a missing event is left alone |
| RecorderCore.NormalizeAll | src/renderer/recorder/recorder-core.js:229-231 | an array maps to its normalised records one for one; anything else gives `[]` |
| RecorderCore.SelectedIndex | src/renderer/recorder/recorder-core.js:274-279 | the kept index when selection is preserved and still in range; else the last when asked and there are events; else -1 |
| RecorderCore.DeleteButtonAfterSync | src/renderer/recorder/recorder-core.js:274-302 | after a sync the delete button is disabled exactly when nothing is selected |
| RecorderCore.NextEntry | src/renderer/recorder/recorder-core.js:238-252 | a `loading` state is kept; otherwise an event with AI candidates is `loaded` without error; an event with neither is `idle` |
| RecorderCore.HasKeySnoc | src/renderer/recorder/recorder-core.js:235-237 | a key occurs in the events exactly when it occurs before the last or is the last one's |
| RecorderCore.AiStatesForKeys | src/renderer/recorder/recorder-core.js:234-257 | the rebuilt map has an entry exactly for each key some event has |
| RecorderCore.AiStatesForLastWins | src/renderer/recorder/recorder-core.js:235-253 | a key's entry is decided by the last event with that key |
| RecorderCore.LoadingKept | src/renderer/recorder/recorder-core.js:240-241 | a `loading` state whose key is still present survives the sync unchanged |
| RecorderCore.LastIndexWithKey | src/renderer/recorder/recorder-core.js:235-253 | every key an event has has a last event carrying it |
| RecorderCore.RebuildAiStates | src/renderer/recorder/recorder-core.js:234-253 | the loop builds exactly the rebuilt map |
| RecorderCore.Recorder.constructor | src/renderer/recorder/recorder-core.js:416-418 | a new recorder is not recording, has no events and no selection |
| RecorderCore.Recorder.SyncTimelineFromEvents | src/renderer/recorder/recorder-core.js:209-330 | the events become the normalised ones, the selection follows the selection rule, the AI map is rebuilt (from empty when reset), and the recording flag is untouched |
| RecorderCore.Recorder.StartRecording | src/renderer/recorder/recorder-core.js:334-480 | when already recording nothing changes; otherwise the events and selection are cleared, and recording stays on, with the start signal sent, exactly when the socket is open and the send does not fail |
| RecorderCore.Recorder.StopRecording | src/renderer/recorder/recorder-core.js:488-516 | recording ends; the stop signal goes out exactly when it was recording with an open socket, the code is saved exactly when it was recording with an update function; events and selection stay |
| RecorderReplay.MaxTime | src/renderer/recorder/recorder-replay.js:192-200 | the running maximum is at least 0 and at least every event's timestamp |
| RecorderReplay.EventEntries | src/renderer/recorder/recorder-replay.js:194-207 | one entry per event |
| RecorderReplay.EventEntriesAt | src/renderer/recorder/recorder-replay.js:195-206 | the i-th event gets its timestamp (0 when not a number) and sequence i |
| RecorderReplay.ManualEntriesFacts | src/renderer/recorder/recorder-replay.js:210-220 | one entry per manual action that is an object, numbered from the next sequence, timed by `createdAt` or the maximum plus 100 per sequence; every such action is present |
| RecorderReplay.TimelineFacts | src/renderer/recorder/recorder-replay.js:189-229 | the timeline is ordered by time then sequence and holds exactly every event entry and every manual action, manual ones numbered after the events |
| RecorderReplay.BuildActionTimeline | src/renderer/recorder/recorder-replay.js:189-229 | the method builds exactly that timeline |
| RecorderReplay.ConvertManualActionToEvent | src/renderer/recorder/recorder-replay.js:234-243 | no event exactly for a missing action; otherwise its type or `click`, and the last path item as target when the path is non-empty |
| RecorderReplay.Queue | src/renderer/recorder/recorder-replay.js:251-260 | one queued item per timeline entry |
| RecorderReplay.QueueAt | src/renderer/recorder/recorder-replay.js:251-260 | the i-th item is the i-th entry's event or converted manual action |
| RecorderReplay.BuildReplayQueue | src/renderer/recorder/recorder-replay.js:248-262 | the queue is the converted timeline |
| RecorderReplay.QueueLength | src/renderer/recorder/recorder-replay.js:248-262 | the queue holds one item per event plus one per manual action object |
| RecorderReplay.ReplayQueueFacts | src/renderer/recorder/recorder-replay.js:248-262 | the queue's length and each item, in timeline order |
| RecorderReplay.SessionId | src/renderer/recorder/recorder-replay.js:308 | `replay-${Date.now()}` is truthy |
| RecorderReplay.Replayer.constructor | src/renderer/recorder/recorder-replay.js:13-23 | the state starts idle |
| RecorderReplay.Replayer.Reset | src/renderer/recorder/recorder-replay.js:28-46 | the state returns to idle with both timers cleared |
| RecorderReplay.Replayer.FinishReplay | src/renderer/recorder/recorder-replay.js:67-73 | the state returns to idle, and the completion is logged exactly when a replay was running |
| RecorderReplay.Replayer.AbortReplay | src/renderer/recorder/recorder-replay.js:78-84 | the state returns to idle with the given reason or the default message |
| RecorderReplay.Replayer.ScheduleNextStep | src/renderer/recorder/recorder-replay.js:51-62 | while running a timer is set for `max(0, delay)`; otherwise nothing; nothing else changes |
| RecorderReplay.Replayer.SendReplayStep | src/renderer/recorder/recorder-replay.js:89-135 | skipped when not running or pending; finished past the last event; aborted without a session or an open socket; otherwise the current event goes out, the step is pending and the navigation guard is cleared |
| RecorderReplay.Replayer.TimerFires | src/renderer/recorder/recorder-replay.js:56-60 | the scheduled timer clears itself and sends the next step |
| RecorderReplay.Replayer.ResponseTimeout | src/renderer/recorder/recorder-replay.js:121-131 | a step still pending after the timeout is skipped: finished after the last event, else the next step is scheduled |
| RecorderReplay.Replayer.HandleReplayStepResult | src/renderer/recorder/recorder-replay.js:140-184 | a result for another step is ignored; a failure aborts with its reason or `step failed`; success past the last event finishes; otherwise the index advances and either a navigation is awaited under a guard or the next step is scheduled |
| RecorderReplay.Replayer.NavigationTimeout | src/renderer/recorder/recorder-replay.js:172-177 | the navigation guard firing aborts the replay as too slow |
| RecorderReplay.Replayer.StartReplay | src/renderer/recorder/recorder-replay.js:267-329 | refused while running, with nothing to replay, without a start URL or without a connection, changing nothing; otherwise the queue is loaded at index 0 under a fresh session |
| RecorderSelection.TypeOf | src/renderer/recorder/recorder-selection.js:270 | a candidate's type is its own when set, else the one inferred from its selector |
| RecorderSelection.TypedFacts | src/renderer/recorder/recorder-selection.js:718-721 | giving a candidate its type keeps its type and selector and is idempotent |
| RecorderSelection.PathArray | src/renderer/recorder/recorder-selection.js:264-281 | the path is never longer than the stack |
| RecorderSelection.PathArrayFacts | src/renderer/recorder/recorder-selection.js:264-281 | the path holds one item per node with a selected candidate, in stack order, each built from its node |
| RecorderSelection.PathArraySnoc | src/renderer/recorder/recorder-selection.js:264-281 | pushing a node extends the path by that node's item exactly when it has a selection |
| RecorderSelection.DropHash | src/renderer/recorder/recorder-selection.js:306 | `replace(/^#/, '')` removes at most one leading `#` |
| RecorderSelection.PreviewLineMentions | src/renderer/recorder/recorder-selection.js:298-328 | every preview line mentions the selector, without its leading `#` |
| RecorderSelection.PreviewLinesFacts | src/renderer/recorder/recorder-selection.js:286-333 | no lines exactly for an empty path or a last item without selector; otherwise one line, naming the last selector for a supported framework and language, else the count line |
| RecorderSelection.TypedCandidates | src/renderer/recorder/recorder-selection.js:718-721 | one typed candidate per received selector, in order; none when the message has none |
| RecorderSelection.SelectionWorkflow.constructor | src/renderer/recorder/recorder-selection.js:98-126 | the workflow starts inactive and idle with an empty stack |
| RecorderSelection.SelectionWorkflow.Reset | src/renderer/recorder/recorder-selection.js:98-126 | everything is cleared except the pending step index |
| RecorderSelection.SelectionWorkflow.CurrentNode | src/renderer/recorder/recorder-selection.js:131-134 | the current node is the top of the stack, and absent exactly when the stack is empty |
| RecorderSelection.SelectionWorkflow.Path | src/renderer/recorder/recorder-selection.js:264-281 | the path has one item per selected node |
| RecorderSelection.SelectionWorkflow.Start | src/renderer/recorder/recorder-selection.js:439-464 | the workflow becomes active and waits for the root with a fresh stack |
| RecorderSelection.SelectionWorkflow.Cancel | src/renderer/recorder/recorder-selection.js:469-494 | the cancel message goes out exactly when the workflow was active or not idle; the state is cleared |
| RecorderSelection.SelectionWorkflow.PushPickedNode | src/renderer/recorder/recorder-selection.js:806-814 | a pick not claimed by a pending action is pushed as a node with its typed candidates and no selection, staged `root` for the first and `child` after (unless the message names the stage); the workflow is active and waits for a candidate; the path is unchanged |
| RecorderSelection.Dispatched | src/renderer/recorder/recorder-selection.js:723-805 | a claimed pick calls `addAssertionAfterStep` exactly for a `verify...` action, not a cancelled `verifyText` prompt, with a pending step index and that handler, and then clears the step index; otherwise `addVerifyAction` exactly when that handler is given; `addWaitAction` exactly for a non-verify action; each with the first candidate's path, a verify call with the action and `verifyText`'s entered or element text; a cancelled prompt calls nothing and clears the step index; nothing else changes it |
| RecorderSelection.SelectionWorkflow.DispatchPending | src/renderer/recorder/recorder-selection.js:723-805 | the handler call made and the step index left are those `Dispatched` gives for the pending action; the action is cleared, and the workflow is cancelled exactly when that handler is given |
| RecorderSelection.SelectionWorkflow.HandlePicked | src/renderer/recorder/recorder-selection.js:687-814 | a pick is dispatched exactly when a truthy pending action and a candidate exist and the action starts with `verify` or is `waitForElement` with its handler, and then the call made and the step index left are `Dispatched`'s; any other pick, such as one under a pending `click`, is pushed as a node, with no call and the step index kept |
| RecorderSelection.PickedNode | src/renderer/recorder/recorder-selection.js:807-812 | the node carries the element, the typed candidates and no choice, staged `root` exactly when the stack was empty unless the message names the stage |
| RecorderSelection.ElementText | src/renderer/recorder/recorder-selection.js:740 | the element's text when truthy, else the first candidate's text, else empty |
| RecorderSelection.VerifyValue | src/renderer/recorder/recorder-selection.js:736-753 | `verifyText` takes the entered text, or the element's text when the entry is empty; every other check has no value |
| RecorderSelection.SelectionWorkflow.ApplyCandidateToNode | src/renderer/recorder/recorder-selection.js:362-394 | without a current node nothing changes; otherwise that node's selection becomes the typed candidate, the workflow waits for an action, and for the top node the path gains that item at its end |
| RecorderSelection.FirstPath | src/renderer/recorder/recorder-selection.js:593-640 | the one-item path from the first candidate's selector and type |
| RecorderSelection.SimpleSelection.constructor | src/renderer/recorder/recorder-selection.js:499-559 | the simple selection starts cleared |
| RecorderSelection.SimpleSelection.Clear | src/renderer/recorder/recorder-selection.js:665-682 | the simple selection is cleared |
| RecorderSelection.SimpleSelection.Start | src/renderer/recorder/recorder-selection.js:499-559 | the callback, action and step index are stored and it becomes active; a running workflow is cancelled (and only then is its cancel sent) |
| RecorderSelection.SimpleSelection.StartReplied | src/renderer/recorder/recorder-selection.js:543-557 | a refused start with a reason clears the selection; any other reply changes nothing |
| RecorderSelection.SimpleSelection.HandlePicked | src/renderer/recorder/recorder-selection.js:564-660 | the callback runs exactly when active with a callback and at least one candidate, with the first candidate's path and the stored action and step; once active with a callback the state is cleared; the pick is cancelled unless it was handled without candidates |
| RecorderSelection.SimpleSelection.Cancel | src/renderer/recorder/recorder-selection.js:665-682 | the cancel is sent exactly when active, and then the state is cleared |
| RecorderSelection.PickedPathPreviews | src/renderer/recorder/recorder-selection.js:286-333 | a picked path has a preview exactly when the first candidate has a selector |
| RecorderSelectors.GetTargetPositionInfoFacts | src/renderer/recorder/recorder-selectors.js:22-52 | no event gives no position; a position has an index of at least 1, a lower-case tag, and the node's own index when that is at least 1 |
| RecorderSelectors.SelectorLikelyStableExamples | src/renderer/recorder/recorder-selectors.js:57-65 | a missing or empty selector is not stable; an id and a `data-` attribute selector are |
| RecorderSelectors.RunStartFacts | src/renderer/recorder/recorder-selectors.js:73 | the last run of non-combinator characters starts after a combinator or at the start |
| RecorderSelectors.SplitPseudo | src/renderer/recorder/recorder-selectors.js:76-78 | the base and the pseudo part rejoin to the last part; the base has no `:`; the pseudo part is empty or starts with `:` |
| RecorderSelectors.LastCompoundJoin | src/renderer/recorder/recorder-selectors.js:73-81 | the prefix, base and pseudo part rejoin to the selector, split at the last run |
| RecorderSelectors.LastCompoundRun | src/renderer/recorder/recorder-selectors.js:73-81 | the last compound has no combinator and the prefix ends in one or is empty |
| RecorderSelectors.AppendNthToSelectorNone | src/renderer/recorder/recorder-selectors.js:69-83 | no result for a missing or blank selector or one that already has an `nth-`; a result only otherwise |
| RecorderSelectors.AppendNthOnce | src/renderer/recorder/recorder-selectors.js:72 | a selector that got an `nth-of-type` cannot get a second one |
| RecorderSelectors.RefinedUnspaced | src/renderer/recorder/recorder-selectors.js:79-81 | the rewritten selector is still trimmed |
| RecorderSelectors.NthLabelKept | src/renderer/recorder/recorder-selectors.js:107-115 | the nth label is never filtered out as a match-count note |
| RecorderSelectors.DropCountParts | src/renderer/recorder/recorder-selectors.js:108 | exactly the reason parts that do not mention a match count are kept |
| RecorderSelectors.NthReasonFacts | src/renderer/recorder/recorder-selectors.js:105-135 | the new reason holds the nth label, every kept part and nothing else, and no match-count note |
| RecorderSelectors.EnforceNthFacts | src/renderer/recorder/recorder-selectors.js:88-143 | XPath candidates, no position or no need leave the candidate as it is; a change marks it unique with one match and the index applied and touches nothing else; a changed selector is the appended one and never for text |
| RecorderSelectors.EnforceNthOnce | src/renderer/recorder/recorder-selectors.js:72 | applying the nth rule to a rewritten selector changes nothing more |
| RecorderSelectors.Range | src/renderer/recorder/recorder-selectors.js:172-177 | `0 .. n-1` in order |
| RecorderSelectors.RegisterFacts | src/renderer/recorder/recorder-selectors.js:179-196 | registering keeps the indices aligned with the list and adds the entry exactly when it has a selector |
| RecorderSelectors.Derive | src/renderer/recorder/recorder-selectors.js:225 | each candidate's nth-rule result, one for one (the same copy is made again at line 271) |
| RecorderSelectors.RewriteAll | src/renderer/recorder/recorder-selectors.js:270-281 | each candidate is replaced by its rewritten form, one for one |
| RecorderSelectors.Assign | src/renderer/recorder/recorder-selectors.js:198-287 | the groups are those the whole list yields, and the list is rewritten in place |
| RecorderSelectors.AssignAt | src/renderer/recorder/recorder-selectors.js:200-286 | one candidate's step: the groups advance by its entries and only its slot is rewritten |
| RecorderSelectors.BuildSelectorTabGroups | src/renderer/recorder/recorder-selectors.js:148-293 | both lists are rewritten and the groups are those of the base list then the AI list (the rewritten base when both are the same array) |
| RecorderSelectors.RegisterUniqueEntry | src/renderer/recorder/recorder-selectors.js:179-188 | registering a valid unique entry keeps the group well indexed, valid and growing |
| RecorderSelectors.RegisterRepeatEntry | src/renderer/recorder/recorder-selectors.js:190-196 | registering a valid repeat entry keeps the group well indexed and valid |
| RecorderSelectors.WithDerivedKeeps | src/renderer/recorder/recorder-selectors.js:225-229 | adding a derived entry keeps the repeat group and every unique entry |
| RecorderSelectors.StepKeepsInvariant | src/renderer/recorder/recorder-selectors.js:200-286 | one candidate's step keeps the group invariant |
| RecorderSelectors.AssignAllInvariant | src/renderer/recorder/recorder-selectors.js:198-287 | the invariant holds after any prefix of the list |
| RecorderSelectors.AssignedListsFacts | src/renderer/recorder/recorder-selectors.js:198-287 | repeat entries are raw copies of non-unique candidates with more than one match; unique entries are the candidate or its nth-rule result, unique with one match; every candidate unique at source is in the unique group; a candidate without a selector yields no entry; a candidate marked `__derived` or `__autoDerived` counts as processed |
| RecorderSelectors.GroupCountIsListSize | src/renderer/recorder/recorder-selectors.js:298-303 | a group's count is the size of its base and AI lists |
| RecorderUi.NormalizeTimelineSelectorValueFacts | src/renderer/recorder/recorder-ui.js:28-34 | empty exactly for a missing, blank or label value; otherwise the trimmed value, which is no label |
| RecorderUi.NormalizeTimelineSelectorValueIdempotent | src/renderer/recorder/recorder-ui.js:28-34 | normalising twice is normalising once |
| RecorderUi.FirstShownCandidate | src/renderer/recorder/recorder-ui.js:46 | the first candidate whose selector normalises to something, with none before it |
| RecorderUi.FirstUsable | src/renderer/recorder/recorder-ui.js:43-56 | the first usable source, normalised; empty exactly when none is usable |
| RecorderUi.ResolveTimelineSelectorPrecedence | src/renderer/recorder/recorder-ui.js:41-61 | the first usable of primary, candidate, XPath, text and raw selector wins; only then the lower-cased tag; no event gives `''` |
| RecorderUi.FirstUsableCons | src/renderer/recorder/recorder-ui.js:43-56 | a usable head wins, else the rest decides |
| RecorderUi.ResolvedFromSourceIsClean | src/renderer/recorder/recorder-ui.js:41-56 | a value shown from a source is non-empty, trimmed and no label |
| RecorderUi.FormatSelectorTypeLabelFacts | src/renderer/recorder/recorder-ui.js:68-97 | every label ends in the label word, normalises to nothing, and ignores the case of the type |
| RecorderUi.TrimKeepsSuffix | src/renderer/recorder/recorder-ui.js:30-32 | trimming keeps a suffix without white space |
| RecorderUi.GetActionIcon | src/renderer/recorder/recorder-ui.js:104-128 | the table's icon for a known action, else the bullet |
| RecorderUi.FormatActionLabel | src/renderer/recorder/recorder-ui.js:135-159 | the table's label for a known action, else the action itself |
| RecorderUi.ActionTablesAgree | src/renderer/recorder/recorder-ui.js:104-159 | both tables know the same actions; an action has its own icon exactly when it has its own label |
| RecorderUi.ActionLabelAliases | src/renderer/recorder/recorder-ui.js:135-159 | `input` and `type` share a label, as do `goto`, `navigate` and `open` |
| RecorderUi.FormatTargetInfo | src/renderer/recorder/recorder-ui.js:166-173 | nothing exactly when there is no target or it has no id, class or tag; otherwise non-empty text |
| RecorderUi.FormatTargetInfoPrecedence | src/renderer/recorder/recorder-ui.js:166-173 | `#id` first; else `.` and the first class name; else the lower-case tag |
| RecorderUi.GetCodeMirrorMode | src/renderer/recorder/recorder-ui.js:242-251 | the mode is one of Python, TypeScript or JavaScript |
| RecorderUi.GetCodeMirrorModeFacts | src/renderer/recorder/recorder-ui.js:242-251 | an explicit language wins over the selected one; Python and its class style map to Python; no language gives JavaScript |
| RecordingSteps.EventAction | src/main/main.js:3781-3791 | the event's `type`, else its `action`, `eventType` or `name`, else `unknown`; never empty |
| RecordingSteps.KeywordAction | src/main/main.js:3795-3819 | `input` becomes `type`, `navigate` and `goto` become `open`, `assert` becomes a `verify` keyword (`verifyText` unless the assertion maps to another); other actions are kept |
| RecordingSteps.IdSelector | src/main/main.js:3837 | an id selector starts with exactly one added `#` |
| RecordingSteps.SelectorsTarget | src/main/main.js:3836-3848 | nothing exactly when no selector field is set; otherwise a non-empty selector, the id first, then css |
| RecordingSteps.ClassChainOfBlank | src/main/main.js:3869-3871 | the class chain is empty exactly when the class name is all white space |
| RecordingSteps.FieldsTarget | src/main/main.js:3865-3881 | a selector built from the target's own fields is non-empty |
| RecordingSteps.ResolveTarget | src/main/main.js:3833-3882 | the selectors object wins, then the first candidate with a selector, then the first selector of the list, then the target's fields |
| RecordingSteps.BlankClassNameStopsSearch | src/main/main.js:3868-3872 | a blank class name ends the search without a target, even when tag, text or XPath are set |
| RecordingSteps.Prefix | src/main/main.js:3890 | `substring(0, n)` is a prefix of at most n characters |
| RecordingSteps.DescriptionParts | src/main/main.js:3887-3891 | the description parts are non-empty, and none exist exactly when tag, id, text and class are all unset |
| RecordingSteps.TargetDescription | src/main/main.js:3887-3894 | a description exactly when one of tag, id, text or class is set, and then non-empty |
| RecordingSteps.EventUrl | src/main/main.js:3948 | the event URL is non-empty when present |
| RecordingSteps.NavigateUrl | src/main/main.js:3914 | the navigation URL is non-empty when present |
| RecordingSteps.StepTarget | src/main/main.js:3821-3884 | with a target object the step's action is the keyword action and its target the resolved selector, or none |
| RecordingSteps.NavigateStep | src/main/main.js:3911-3918 | a navigation without target, selector or XPath becomes `open` of the URL with no value |
| RecordingSteps.WaitDefaults | src/main/main.js:3922-3930 | wait steps get the condition or `visible` and the timeout or 5000; other steps get neither |
| RecordingSteps.VerifyCarries | src/main/main.js:3933-3944 | verify steps carry the assertion and the expected value; other steps carry neither |
| RecordingSteps.DescriptionNotesUrl | src/main/main.js:3946-3955 | a page URL other than the target is appended to the description as `url:`; otherwise the description is the target's |
| RecordingSteps.UrlNoteFacts | src/main/main.js:3946-3955 | the URL note keeps the target and appends `url:` exactly when the URL differs from it |
| RecordingSteps.BlocksKeepDescription | src/main/main.js:3921-3944 | the wait and verify blocks leave the description alone |
| RecordingSteps.ConvertEvents | src/main/main.js:3975-3977 | one step per event, each its conversion |
| RecordingSteps.SetIfPresent | src/main/main.js:3821-3944 | an optional step field is written exactly when present, and the others are kept |
| RecordingSteps.StoredFields | src/main/main.js:4005-4007 | the stored object holds exactly the step's fields |
| RecordingSteps.ReadFields | src/main/main.js:5881 | an object holding the step's fields reads back as that step |
| RecordingSteps.StepJsonRoundTrip | src/main/main.js:5881-5895 | a step stored as JSON reads back as the same step |
| RecordingSteps.StoredSteps | src/main/main.js:5878-5889 | the stored column parses back to the stored array |
| RecordingSteps.StepsJson | src/main/main.js:4006 | one JSON object per step, in order |
| RecordingSteps.StepsReadBack | src/main/main.js:4004-4007 | every stored step reads back as itself |
| RecordingSteps.RemoveAt | src/main/main.js:5992 | `splice(i, 1)` removes exactly item i, keeps the order of the others and their multiset |
| RecordingSteps.DeleteUndoesSave | src/main/main.js:5892 | deleting the last saved step restores the earlier list (the delete is the splice at line 5992) |
| RecordingSteps.ValidateRecording | src/main/main.js:3966-3972 | an unsupported type exactly when it is not `recording_complete`; missing data exactly when the type fits but the id or events are missing |
| RecordingSteps.StepStore.constructor | src/main/main.js:3963 | the store holds the given steps columns |
| RecordingSteps.StepStore.ProcessRecordingData | src/main/main.js:3963-4018 | invalid data fails and changes nothing; otherwise the events are converted one for one and stored as the test case's steps when it exists |
| RecordingSteps.StepStore.SaveEventStep | src/main/main.js:5863-5928 | missing arguments and an unknown test case fail exactly in their cases and change nothing; otherwise the converted step is appended, its index is the old length, and it reads back |
| RecordingSteps.StepStore.DeleteTcStep | src/main/main.js:5962-6011 | missing arguments, an unknown test case and an index out of range fail exactly in their cases and change nothing; otherwise that step alone is removed and the count left is returned |
| SelectorCandidates.Distinct | src/renderer/utils/selectorUtils.js:1238 | `Array.from(new Set(classes))` has no repeats and the same members |
| SelectorCandidates.FilterNonEmptyKeepsDistinct | src/renderer/utils/selectorUtils.js:1238 | filtering out empty names keeps the list free of repeats |
| SelectorCandidates.FilterNonEmptyComplete | src/renderer/utils/selectorUtils.js:1238 | every non-empty name survives the filter |
| SelectorCandidates.UniqueClasses | src/renderer/utils/selectorUtils.js:1238 | at most the class limit of distinct non-empty classes from the input |
| SelectorCandidates.UniqueClassesComplete | src/renderer/utils/selectorUtils.js:1238 | within the limit, every non-empty class is kept |
| SelectorCandidates.Position | src/renderer/utils/selectorUtils.js:1243-1244 | the index of a class in the list, or -1 exactly when absent |
| SelectorCandidates.PositionOfDistinct | src/renderer/utils/selectorUtils.js:1243-1244 | in a list without repeats the index is the position |
| SelectorCandidates.AscendingSnoc | src/renderer/utils/selectorUtils.js:1245 | pushing a later class keeps a combination in list order |
| SelectorCandidates.ExtendsStep | src/renderer/utils/selectorUtils.js:1244-1247 | a combination built after pushing class i extends the current one with class i |
| SelectorCandidates.PushedStep | src/renderer/utils/selectorUtils.js:1244-1248 | one loop turn keeps the loop invariant |
| SelectorCandidates.Backtrack | src/renderer/utils/selectorUtils.js:1240-1250 | it only appends, never beyond the maximum, combinations that extend the current one, each longer than it after the first, none twice |
| SelectorCandidates.BuildClassCombinationLists | src/renderer/utils/selectorUtils.js:1232-1253 | at most the maximum number of combinations, each of 1 to `limit` distinct classes in list order, no combination twice |
| SelectorCandidates.NewKeyKeepsDistinct | src/renderer/utils/selectorUtils.js:1807-1809 | a new key keeps the map's keys distinct |
| SelectorCandidates.SeenStepInvariant | src/renderer/utils/selectorUtils.js:1797-1834 | one candidate's turn keeps the map invariant |
| SelectorCandidates.SeenAfterInvariant | src/renderer/utils/selectorUtils.js:1797-1834 | the invariant holds after any prefix |
| SelectorCandidates.DeduplicateCandidates | src/renderer/utils/selectorUtils.js:1794-1837 | the loop ends with the map's values, keys matching |
| SelectorCandidates.SurvivorsFromInput | src/renderer/utils/selectorUtils.js:1794-1837 | every survivor is an input candidate with a non-empty key |
| SelectorCandidates.SurvivorsDistinctKeys | src/renderer/utils/selectorUtils.js:1794-1837 | no two survivors share a key |
| SelectorCandidates.SurvivorsCover | src/renderer/utils/selectorUtils.js:1794-1837 | every input candidate with a key has a survivor with that key and at least its score |
| SelectorCandidates.SurvivorsFacts | src/renderer/utils/selectorUtils.js:1794-1837 | survivors come from the input, have distinct keys, and cover every key with the best score |
| SelectorCandidates.DeduplicateCandidatesSurvivors | src/renderer/utils/selectorUtils.js:1776-1837 | the same facts for the dedup key of `normalizeSelectorForDedup` |
| SelectorCandidates.CompareFacts | src/renderer/utils/selectorUtils.js:1915-1923 | the comparator is antisymmetric, zero exactly on equal rank, and transitive |
| SelectorCandidates.Insert | src/renderer/utils/selectorUtils.js:1915 | insertion adds exactly the candidate |
| SelectorCandidates.InsertSorted | src/renderer/utils/selectorUtils.js:1915 | insertion keeps a sorted list sorted |
| SelectorCandidates.SortedCons | src/renderer/utils/selectorUtils.js:1915 | a head no greater than the rest keeps the list sorted |
| SelectorCandidates.SortCandidatesPermutes | src/renderer/utils/selectorUtils.js:1914-1924 | the sorted list is a permutation of the input |
| SelectorCandidates.SortCandidatesSorted | src/renderer/utils/selectorUtils.js:1914-1924 | unique first, then relative, then higher score |
| SelectorCandidates.SortCandidatesUniqueFirst | src/renderer/utils/selectorUtils.js:1916-1918 | no non-unique candidate precedes a unique one |
| SelectorCandidates.OfRankCons | src/renderer/utils/selectorUtils.js:1915 | the candidates of one rank, split at the head |
| SelectorCandidates.InsertOfRank | src/renderer/utils/selectorUtils.js:1915 | insertion puts a candidate before those of its own rank |
| SelectorCandidates.SortCandidatesStable | src/renderer/utils/selectorUtils.js:1914-1924 | candidates of equal rank keep their input order, as the stable `Array.prototype.sort` does |
| SelectorUtils.EscapeQuote | src/renderer/utils/selectorUtils.js:25 | escaping keeps the ends of the text, and the result never starts with a bare quote |
| SelectorUtils.UnescapeQuote | src/renderer/utils/selectorUtils.js:25 | unescaping never lengthens, and text without backslashes is left alone |
| SelectorUtils.EscapeQuoteAbsent | src/renderer/utils/selectorUtils.js:25 | escaping adds only backslashes and quotes |
| SelectorUtils.UnescapeEscapeQuote | src/renderer/utils/selectorUtils.js:25 | unescaping undoes escaping for every text |
| SelectorUtils.EscapeAttributeValue | src/renderer/utils/selectorUtils.js:24-26 | a missing value escapes to `''` |
| SelectorUtils.EscapeAttributeTextClean | src/renderer/utils/selectorUtils.js:25 | no backspace or form feed survives |
| SelectorUtils.EscapeAttributeTextRoundTrip | src/renderer/utils/selectorUtils.js:24-26 | a trimmed value without backspace or form feed is recovered from its escaped form |
| SelectorUtils.Wrap | src/renderer/utils/selectorUtils.js:38 | one quoted piece per piece |
| SelectorUtils.ParseXPathLiteral | src/renderer/utils/selectorUtils.js:36-45 | a parsed literal consumes at least one character |
| SelectorUtils.EvalArgsStep | src/renderer/utils/selectorUtils.js:38-39 | a literal and `, ` put the literal's value in front of the rest |
| SelectorUtils.QuotedLiteral | src/renderer/utils/selectorUtils.js:41-44 | a literal whose body lacks its quote parses to the body |
| SelectorUtils.EvalArgsLiteralStep | src/renderer/utils/selectorUtils.js:38-39 | a quoted piece followed by `, ` contributes its body |
| SelectorUtils.EvalWrappedStep | src/renderer/utils/selectorUtils.js:38 | a quoted piece and the quoted-quote separator contribute the piece and a `"` |
| SelectorUtils.EvalWrappedArgs | src/renderer/utils/selectorUtils.js:38 | the corrected `concat` arguments evaluate to the pieces joined by `"` |
| SelectorUtils.EscapeXPathLiteralSound | src/renderer/utils/selectorUtils.js:36-45 | the corrected XPath literal evaluates back to the value, for every value |
| SelectorUtils.EscapeXPathLiteralAsWrittenBreaks | src/renderer/utils/selectorUtils.js:37-39 | for every value with both quote kinds the `concat` as written does not evaluate |
| SelectorUtils.AsWrittenArgsStuck | src/renderer/utils/selectorUtils.js:38 | the separator `, """, ` leaves an empty literal followed by `"` |
| SelectorUtils.EvalConcat | src/renderer/utils/selectorUtils.js:39 | a `concat(...)` evaluates to its argument list's value |
| SelectorUtils.CollapseSpaces | src/renderer/utils/selectorUtils.js:48 | white-space runs become single spaces |
| SelectorUtils.ConsSingleSpaced | src/renderer/utils/selectorUtils.js:48 | a leading character keeps single spacing unless it makes a pair |
| SelectorUtils.NormalizeText | src/renderer/utils/selectorUtils.js:47-49 | the text has no white-space pair and no white space at either end |
| SelectorUtils.SingleSpacedInfix | src/renderer/utils/selectorUtils.js:48 | a slice of a single-spaced text is single-spaced |
| SelectorUtils.SingleSpacedTrim | src/renderer/utils/selectorUtils.js:48 | trimming keeps single spacing |
| SelectorUtils.NormalizeStringIsNormalized | src/renderer/utils/selectorUtils.js:47-49 | the result is single-spaced and trimmed |
| SelectorUtils.CollapseSingleSpaced | src/renderer/utils/selectorUtils.js:48 | collapsing leaves single-spaced text alone |
| SelectorUtils.NormalizeStringIdempotent | src/renderer/utils/selectorUtils.js:47-49 | normalising twice is normalising once |
| SelectorUtils.InferSelectorType | src/renderer/utils/selectorUtils.js:358-385 | the type follows the trimmed selector's decision list, css by default and for missing input |
| SelectorUtils.InferSelectorTypeKnown | src/renderer/utils/selectorUtils.js:358-385 | the type is one of the seven known kinds |
| SelectorUtils.InferSelectorTypeOfTrimmed | src/renderer/utils/selectorUtils.js:360 | trimming first does not change the type |
| SelectorUtils.InferSelectorTypeMarkers | src/renderer/utils/selectorUtils.js:361-370 | a leading XPath or text marker decides the type alone |
| SelectorUtils.SelectorPrefix | src/renderer/utils/selectorUtils.js:393-401 | a `css=`, `xpath=` or `text=` prefix gives its type and length |
| SelectorUtils.StripOuterQuotes | src/renderer/utils/selectorUtils.js:405 | one quote at each end is removed |
| SelectorUtils.ParseSelectorForMatching | src/renderer/utils/selectorUtils.js:390-409 | a prefix is cut and decides the type; otherwise the given or inferred type; text values lose their quotes |
| SelectorUtils.ParsePrefixOverridesType | src/renderer/utils/selectorUtils.js:393-398 | a `css=` or `xpath=` prefix wins over the type asked for |
| SelectorUtils.ParseQuotedText | src/renderer/utils/selectorUtils.js:404-406 | a quoted text selector yields exactly the text between the quotes |
| SelectorUtils.ValidateSelector | src/renderer/utils/selectorUtils.js:545-559 | invalid exactly for a missing or empty selector or an empty parsed value; otherwise valid with the parsed type and value |
| SelectorUtils.BarePrefixParsesEmpty | src/renderer/utils/selectorUtils.js:390-409 | a bare prefix parses to the empty value |
| SelectorUtils.ValidateRejectsBarePrefix | src/renderer/utils/selectorUtils.js:545-559 | `css=` and the other bare prefixes are rejected |
| SelectorUtils.ValidateAcceptsPlain | src/renderer/utils/selectorUtils.js:545-559 | a non-empty plain selector is accepted unchanged |
| SelectorUtils.StripSelectorPrefix | src/renderer/utils/selectorUtils.js:1779-1786 | at most one known prefix is removed |
| SelectorUtils.DedupKey | src/renderer/utils/selectorUtils.js:1776-1789 | the key is the selector without prefix, trimmed and lower-cased; missing gives `''` |
| SelectorUtils.DedupKeyIgnoresCssPrefix | src/renderer/utils/selectorUtils.js:1779-1780 | `css=` does not tell two selectors apart |
| SnapshotScheduler.MaskSegments | server/services/domSnapshotScheduler.js:64-69 | the segments with each dynamic one replaced by `*` |
| SnapshotScheduler.HasDynamicPartIff | server/services/domSnapshotScheduler.js:51-59 | the check holds exactly for a dynamic segment or a non-trivial query |
| SnapshotScheduler.AnalyzeURLPatternDynamic | server/services/domSnapshotScheduler.js:40-91 | a parsed URL is dynamic exactly when a segment is all digits or a UUID or there is a query; its normalised URL is the helpers' |
| SnapshotScheduler.AnalyzeURLPatternUnparsed | server/services/domSnapshotScheduler.js:83-90 | an unparsable URL is static with the normalised URL as pattern |
| SnapshotScheduler.PatternSegments | server/services/domSnapshotScheduler.js:50-75 | the pattern keeps the segment count and changes only the dynamic segments |
| SnapshotScheduler.MatchURLPatternSymmetric | server/services/domSnapshotScheduler.js:99-122 | matching is symmetric, as written and as intended |
| SnapshotScheduler.MatchURLPatternStatic | server/services/domSnapshotScheduler.js:103-121 | equal normalised URLs match; a static page matches nothing else |
| SnapshotScheduler.MaskSegmentsMatch | server/services/domSnapshotScheduler.js:114-117 | masked segments agree where the originals differ only in dynamic parts |
| SnapshotScheduler.MatchURLPatternSameShape | server/services/domSnapshotScheduler.js:109-118 | record pages of the same shape match, as intended |
| SnapshotScheduler.SplitAbsolutePath | server/services/domSnapshotScheduler.js:111 | an absolute path splits into an empty first segment and more |
| SnapshotScheduler.PatternIsBarePath | server/services/domSnapshotScheduler.js:64-74 | without a query, a dynamic page's pattern is a bare path |
| SnapshotScheduler.MatchURLPatternAsWrittenThrows | server/services/domSnapshotScheduler.js:111-112 | two record pages without a query make the function as written throw, while the intended one matches |
| SnapshotScheduler.GetPeriodNumberBlocks | server/services/domSnapshotScheduler.js:178-186 | the period counts whole 15-day blocks back from now, and both versions agree on past dates |
| SnapshotScheduler.GetPeriodNumberFuture | server/services/domSnapshotScheduler.js:182 | a future date makes the function as written throw; the intended one gives 0 |
| SnapshotScheduler.DaysInMonth | src/renderer/utils/domSnapshot.js:79 | the month's last day, 28 to 31, February 29 in leap years |
| SnapshotScheduler.GetCurrentPeriodContainsDate | src/renderer/utils/domSnapshot.js:72-91 | the half-month starts on the 1st or 16th, ends on the 15th or the month's last day, and contains the date |
| SnapshotScheduler.ExpiredBefore | server/services/domSnapshotScheduler.js:429-438 | the expired positions before n |
| SnapshotScheduler.DeletedIndices | server/services/domSnapshotScheduler.js:429-478 | the positions the cleanup deletes |
| SnapshotScheduler.NewPeriodStep | server/services/domSnapshotScheduler.js:466-467 | a period's first snapshot becomes its entry |
| SnapshotScheduler.ReplaceStep | server/services/domSnapshotScheduler.js:469-472 | a later snapshot displaces the entry, which is deleted |
| SnapshotScheduler.KeepStep | server/services/domSnapshotScheduler.js:473-475 | a snapshot no later than the entry is deleted |
| SnapshotScheduler.GroupComplete | server/services/domSnapshotScheduler.js:453-478 | within a URL group, the deleted ones are exactly the superseded snapshots |
| SnapshotScheduler.DeletedIndicesSplit | server/services/domSnapshotScheduler.js:429-478 | deleted positions are the expired ones plus each group's losers |
| SnapshotScheduler.MarkExpired | server/services/domSnapshotScheduler.js:429-438 | the first loop collects the ids of the expired snapshots in order |
| SnapshotScheduler.GroupsCover | server/services/domSnapshotScheduler.js:441-450 | every snapshot not skipped has its URL among the groups |
| SnapshotScheduler.GroupByUrl | server/services/domSnapshotScheduler.js:441-450 | the groups hold exactly the unmarked positions by URL, in order |
| SnapshotScheduler.PeriodPassStep | server/services/domSnapshotScheduler.js:456-477 | one step of the period pass, in each of its three branches |
| SnapshotScheduler.KeepLatestPerPeriod | server/services/domSnapshotScheduler.js:454-477 | the period map keeps the latest snapshot of each period and every displaced or rejected one is marked |
| SnapshotScheduler.GroupRound | server/services/domSnapshotScheduler.js:453-478 | a group's pass adds exactly its losers |
| SnapshotScheduler.SelectSnapshotsToDelete | server/services/domSnapshotScheduler.js:422-481 | the ids marked for deletion are exactly the expired and superseded snapshots' |
| SnapshotScheduler.ConsideredNotExpired | server/services/domSnapshotScheduler.js:441-464 | the grouping pass never sees an expired snapshot, so its `MAX_PERIODS` test never fires |
| SnapshotScheduler.SurvivorIsLatest | server/services/domSnapshotScheduler.js:466-476 | only the latest snapshot of a URL and period can survive |
| SnapshotScheduler.AtMostOneSurvivor | server/services/domSnapshotScheduler.js:466-476 | of two snapshots of one URL and period, at least one is deleted |
| SnapshotScheduler.Best | server/services/domSnapshotScheduler.js:466-476 | the winner of a URL and period bucket |
| SnapshotScheduler.OneSurvivorPerBucket | server/services/domSnapshotScheduler.js:453-478 | each URL and period with a considered snapshot keeps exactly one |
| SnapshotScheduler.DeletedIdsIff | server/services/domSnapshotScheduler.js:411-499 | with distinct ids, a row is deleted exactly when expired or beaten by another row of its URL and period |
| UrlNormalize.OriginAndPath | src/renderer/utils/urlFilter.js:79 | origin and path carry no `?` or `#` |
| UrlNormalize.RemoveQueryParamsDropsQuery | src/renderer/utils/urlFilter.js:74-85 | falsy input comes back as is; otherwise no `?`, and on a parse failure the prefix up to the first `?` |
| UrlNormalize.RemoveQueryParamsKeepsUnparsed | src/renderer/utils/urlFilter.js:81-83 | an unparsable URL without `?` comes back unchanged |
| UrlNormalize.RemoveQueryParamsFallbackIdempotent | src/renderer/utils/codeGenerator.js:83-98 | removing the query twice removes nothing more (the code generator's `normalizeUrl` is the same function as `removeQueryParams`) |
| UrlNormalize.NormalizeURLAgrees | server/services/domSnapshotScheduler.js:20-32 | the snapshot `normalizeURL` agrees with `removeQueryParams` except on falsy input (the renderer's `normalizeURL` in `src/renderer/utils/domSnapshot.js`, lines 15-27, is the same function) |
| UrlNormalize.ShouldFilterIgnoresCase | src/renderer/utils/urlFilter.js:11-22 | the intermediate-page filter ignores case |
| UrlNormalize.ShouldFilterContaining | src/renderer/utils/urlFilter.js:11-22 | a URL containing a filtered URL is filtered |
| UrlNormalize.NormalizeUrlPyDropsQuery | scripts/test_utils.py:9-19 | falsy input comes back as is; otherwise no query, no fragment when parsed, and the prefix before `?` on failure |
| UrlNormalize.NormalizeUrlPySchemeless | scripts/test_utils.py:15 | a URL without a scheme comes back starting with `://` |
| UrlNormalize.NormalizeUrlPyStripsQuery | scripts/test_utils.py:9-19 | `scheme://netloc/path?query` comes back as `scheme://netloc/path` |
| CodeModifier.LocatorSearch | server/services/codeModifier.js:70-72 | a hit found by the scan lies in the scanned range and closes the locator call there |
| CodeModifier.LocatorFind | server/services/codeModifier.js:70-72 | a hit lies inside the opening quote's run and closes the locator call |
| CodeModifier.LocatorMatchAt | server/services/codeModifier.js:70-72 | a locator match starts after the call's opening quote and ends after the old text and its closing quote |
| CodeModifier.FindElementMatchAt | server/services/codeModifier.js:78 | a `find_element` match spans exactly the quoted old text |
| CodeModifier.MatchAt | server/services/codeModifier.js:68-79 | a match starts at or after the position and covers the old text |
| CodeModifier.Tests | server/services/codeModifier.js:94 | one `test` outcome per pattern, each the pattern's match |
| KeywordValidator.UnknownKeywordInvalid | src/renderer/utils/keywordValidator.js:32-37 | a step whose action names no keyword is invalid |
| KeywordValidator.TargetOnlyValid | src/renderer/utils/keywordValidator.js:22-67 | a known keyword that takes only a target is valid when the target is given |
| KeywordValidator.ExemptAreKeywords | src/renderer/utils/keywordValidator.js:178-180 | every name exempt from lower-casing is a keyword |
| ActionTimeline.Insert | src/renderer/utils/codeGenerator.js:286-289 | insertion adds one entry |

## Left out

- `KeywordLibrary.GetKeyword`: `KEYWORDS[name]` also finds inherited `Object.prototype` members, so names such as `constructor` or `toString` are truthy in the source. For those names `validateStep` and `generateKeywordCode` read fields the member does not have and throw. The model treats every name outside the keyword table as unknown.
- `KeywordLibrary.GenerateCodeFromSteps`: the optional `findPageObjectByUrl` callback is not modelled. That is the asynchronous lookup of a page object for `goto`/`open` steps in `src/renderer/utils/keywordLibrary.js` at lines 344-361 and 443-464. The model is the generator called without it, where that branch never runs.
- `JsStrings.Lower`: `toLowerCase` is modelled on ASCII letters only. The source lower-cases all of Unicode.
- The WHATWG URL parser (`new URL`) is a parameter of the JavaScript members that use it. So is running a regular expression on a whole URL or HTML document. Python's `urllib.parse.urlsplit`/`urlparse`, as `normalize_url` uses them, is written out in `UrlNormalize` (`StripLeading`, `SplitScheme`, `SplitNetloc`, `StripParams`, `UrlSplit`).
- `UrlNormalize.UrlSplit`: only the `ValueError` for an unbalanced `[` or `]` in the network location is modelled. Two other `ValueError`s are not. `_check_bracketed_netloc` rejects a bracketed host that is not a valid IPv6 or IPvFuture address. `_checknetloc` rejects a non-ASCII network location whose NFKC form gains one of `/?#@:`. For such inputs, for example `http://[abc]/p#f`, `normalize_url` falls back to the text before the first `?`, which is the whole input here. The model instead returns scheme, network location and path, so it drops the `#f` fragment.
- The clock (`Date.now`, `new Date`) is a parameter, in milliseconds since the epoch. Invalid dates (`NaN`) are not modelled.
- The random name of the screenshot variable in a Playwright-Python image check is a parameter.
- `resolveSelectorPosition` (`src/renderer/utils/codeGenerator.js`) returns `null` for every event. The `.nth(…)` forms it would enable therefore never appear and are not modelled.
- `KeywordValidator.NormalizeStep`: `String(step.value)` is modelled for string values only. Numbers and booleans are not given a text form.
- Persistence is not modelled: the SQL queries, the database, gzip compression and hashing. The rows a query returns are a parameter. `processRecordingData` saving the generated script (`src/main/main.js`, lines 4052-4089) is not part of this model.
- `RecordingSteps.StepStore.ProcessRecordingData`: the failure of the update query after validation is not modelled.
- `LocatorHealing.HealLocator`: fetching the recent snapshots (database, gzip, limit 5) is a parameter. So is the HTML regular-expression branch of `findElementInSnapshot` (`server/services/locatorHealingService.js`, lines 126-205). The metadata branch is modelled. The `isMetadata` flag (lines 663-666) is folded into `snapshotResults` along with each snapshot's search outcome. So the choice between the metadata and HTML branches is not modelled, nor is the rejection of the whole call when a stored `metadata` string is not valid JSON: `JSON.parse` there is outside any `try`.
- `ObjectRoutes.BuildTree`, `TestCaseRoutes.BuildTree` and `TcTree.BuildTree` carry a `fuel` bound. Running out of fuel yields `None`, which stands for the source's unbounded recursion on a cyclic parent chain. The route handlers themselves are I/O.
- `RecorderConditional.AddConditionalActionAfterStep` returns the record as built. The source returns `normalizeEventRecord(eventRecord)`, which fills in the fields the record lacks, such as the schema version. The model also leaves out the call to `saveEventAsStep`, which persists the step, and the timeline and code refresh, which are panel I/O.
- Table lookups in the JavaScript source also find inherited `Object.prototype` members, such as `constructor` or `toString`. The model looks only in the table's own entries. This concerns `RecordingSteps.KeywordAction` (the action-to-keyword table in `src/main/main.js`, lines 3795-3819), the icon and label tables of `RecorderUi.GetActionIcon`, `RecorderUi.ActionLabel` and `RecorderUi.FormatActionLabel`, and the relation and action labels of `RecorderConditional.RelationLabel` and `RecorderConditional.ActionLabel`. For those names the source yields a function where the model yields the fallback.
- `DomAnalyzer.FindSiblingElement`: an omitted direction and a `null` one are both `None`, and the model reads both as `next`. In the source the parameter default applies only to an omitted argument, so a `null` direction looks at preceding siblings.
- `KeywordLibrary.SeleniumWrap`: `String.prototype.replace` reads `$&`, `` $` ``, `$'` and `$$` in its replacement text. The model inserts the replacement literally, so it differs from the source for a test name containing `$`.
- The `periodNum >= MAX_PERIODS` branch of the retention selection (`server/services/domSnapshotScheduler.js`, line 460) is not modelled. It never fires, because the grouping pass never considers an expired snapshot, as `SnapshotScheduler.ConsideredNotExpired` proves.
- `domSnapshotScheduler.js` exports `shouldSaveSnapshot` (line 644), a name it never defines, so loading that module throws. Its functions are modelled one by one, as if the module loaded.
- `RecordingSteps.StepStore.DeleteTcStep`: a `null` step index compares and splices as 0, which is what JavaScript does with `null`.
- `PageObjectLookup`: a `url_patterns` column that parses to a non-array JSON value is not modelled.
- The live-DOM functions of `selectorUtils.js` are not part of this model: match counting, unique CSS paths, XPath computation, candidate collection and uniqueness enrichment. They need a browser document.
- `appendTimelineItem` and `handleElementHover` of `recorder-ui.js`, and the other DOM builders, are not part of this model.
- Console logging, alerts, the IPC/WebSocket/CDP plumbing, the Electron wrappers around the object repository, timers and debounces are left out. The replay's timers and timeouts are methods the environment calls (`TimerFires`, `ResponseTimeout`, `NavigationTimeout`).

## Findings

In each row below, the model's operations keep the behaviour the code has as written. The corrected member beside each one states and proves the behaviour the authors evidently intended.

| source | as written | input that shows it | evidently intended | confidence | as-written member | corrected member |
|---|---|---|---|---|---|---|
| server/services/codeModifier.js:115 | `filter(Boolean)` drops an empty before- or after-context when the window is joined back | code ending in a newline (eleven lines before it), failing line 1, nothing to replace | the code comes back unchanged when nothing is replaced | not executed | CodeModifier.RewriteAsWrittenDropsFinalNewline | CodeModifier.RewriteKeepsLinesOutsideWindow |
| src/renderer/utils/keywordValidator.js:178-180 | every action outside a four-name list is lower-cased | a step with action `verifyElementPresent` | camelCase keyword names keep their case, so the step stays valid | not executed | KeywordValidator.CamelCaseKeywordLostAsWritten | KeywordValidator.CamelCaseKeywordKept |
| src/renderer/utils/keywordLibrary.js:497 | only `target` and `value` are passed, but the `open`/`goto` template reads `url` | a step `open` with target `https://a.test` | the step opens its target (or value), normalised to carry an http scheme | not executed | KeywordLibrary.OpenStepLine | KeywordLibrary.OpenStepIntended |
| server/services/locatorHealingService.js:438 | the unanchored `id=` pattern also matches inside `data-testid=` | the start tag `<b data-testid="s">` | only a real `id` attribute is read | not executed | LocatorHealing.IdFoundInsideTestId | LocatorHealing.AttrValueExactFacts |
| server/services/locatorHealingService.js:229 | the Selenium template writes `{escapedText}` in a plain template string, not `${escapedText}` | the texts `Save` and `Cancel` get the same locator | the locator holds the escaped text | not executed | LocatorHealing.SeleniumTextLocatorIgnoresText | LocatorHealing.TextLocatorRoundTrip |
| src/renderer/utils/codeGenerator.js:1233-1234 | single mode hands a `loopAction` event to the conditional builder, which accepts only `conditionalAction` | a loop action in single mode with a condition element | the action is written once, as a conditional action | not executed | FlowActions.LoopSingleIsEmpty | FlowActions.LoopSingleIsConditional |
| src/renderer/utils/codeGenerator.js:392 | the value is escaped at line 392 and again at lines 438 and 442 | a `verifyText` step expecting the text `"` | the generated assertion expects the text itself | not executed | CodeEmitter.ExpectedLiteralAsWrittenMisreads | CodeEmitter.ExpectedLiteralDenotes |
| src/renderer/utils/selectorUtils.js:38 | parts are joined with `, """, `, which is not a valid XPath separator | the value `a"'` | `concat(…)` evaluates to the value | not executed | SelectorUtils.EscapeXPathLiteralAsWrittenBreaks | SelectorUtils.EscapeXPathLiteralSound |
| server/services/domSnapshotScheduler.js:111-112 | `new URL` is applied to a pattern URL that is only a path, and throws | `https://shop.test/product/1` against `https://shop.test/product/2` | two pages with the same dynamic path shape match | not executed | SnapshotScheduler.MatchURLPatternAsWrittenThrows | SnapshotScheduler.MatchURLPatternSameShape |
| server/services/domSnapshotScheduler.js:182 | `daysDiff` is a `const`, so assigning 0 to it throws | any snapshot date later than now | a future date falls in period 0 | not executed | SnapshotScheduler.GetPeriodNumberFuture | SnapshotScheduler.GetPeriodNumberBlocks |
