/**
 * The DOM-snapshot scheduler: URL patterns for dynamic pages, 15-day period
 * numbers, the calendar half-month of the snapshot helper, and the choice
 * of snapshots the retention cleanup deletes.
 *
 * Clocks are parameters (milliseconds since the epoch); `new URL(...)` is a
 * parameter `parse` returning `None` where the constructor throws.
 */
module SnapshotScheduler {
  import opened JsStrings
  import opened UrlNormalize

  /** A JavaScript evaluation: a value, or an exception thrown. */
  datatype Completion<T> = Normal(value: T) | Throws

  // ---------------------------------------------------------------------
  // URL patterns
  // ---------------------------------------------------------------------

  predicate IsHexDigit(c: char) { IsDigit(c) || 'a' <= c <= 'f' || 'A' <= c <= 'F' }

  /** `/^[0-9a-f]{8}-[0-9a-f]{4}-[0-9a-f]{4}-[0-9a-f]{4}-[0-9a-f]{12}$/i`. */
  predicate IsUuid(s: string)
  {
    |s| == 36 &&
    forall k :: 0 <= k < 36 ==>
      if k == 8 || k == 13 || k == 18 || k == 23 then s[k] == '-' else IsHexDigit(s[k])
  }

  /** A path segment that names one record: all digits (`/^\d+$/`) or a UUID. */
  predicate IsDynamicSegment(part: string) { AllDigits(part) || IsUuid(part) }

  /** The `some` callback of `analyzeURLPattern` over the path segments. */
  predicate HasDynamicPart(parts: seq<string>, search: string)
  {
    exists k :: 0 <= k < |parts| && (IsDynamicSegment(parts[k]) || |search| > 1)
  }

  /** The path segments with every dynamic one replaced by `*`. */
  function MaskSegments(parts: seq<string>): (r: seq<string>)
    ensures |r| == |parts|
    ensures forall k :: 0 <= k < |parts| ==> r[k] == (if IsDynamicSegment(parts[k]) then "*" else parts[k])
  {
    if parts == [] then []
    else [if IsDynamicSegment(parts[0]) then "*" else parts[0]] + MaskSegments(parts[1..])
  }

  /** The result object of `analyzeURLPattern`; `patternUrl` is missing for falsy input. */
  datatype PatternInfo = PatternInfo(normalizedUrl: string, patternUrl: JsStr, isDynamic: bool)

  /** `analyzeURLPattern(url)`, given what `new URL(url)` produced. */
  function AnalyzeURLPattern(url: JsStr, parsed: Option<WebUrl>): (r: PatternInfo)
  {
    if !Truthy(url) then PatternInfo("", None, false)
    else if parsed.Some? then
      var u := parsed.value;
      var parts := Split(u.pathname, '/');
      var dynamic := HasDynamicPart(parts, u.search);
      var masked := Join(MaskSegments(parts), "/");
      var patternUrl := if !dynamic then OriginAndPath(u)
                        else if u.search != "" then u.protocol + "//" + u.host + masked
                        else masked;
      PatternInfo(OriginAndPath(u), Some(patternUrl), dynamic)
    else PatternInfo(BeforeFirst(url.value, '?'), Some(BeforeFirst(url.value, '?')), false)
  }

  /** The `some` callback holds when a segment is dynamic or the query is longer than `?`. */
  lemma HasDynamicPartIff(parts: seq<string>, search: string)
    requires |parts| >= 1
    ensures HasDynamicPart(parts, search) <==>
      (exists k :: 0 <= k < |parts| && IsDynamicSegment(parts[k])) || |search| > 1
  {
    if |search| > 1 {
      assert IsDynamicSegment(parts[0]) || |search| > 1;
    }
  }

  /**
   * A parsed URL is dynamic exactly when a path segment is all digits or a
   * UUID, or the query is non-empty; the normalised URL is the one the
   * snapshot helpers compute.
   */
  lemma AnalyzeURLPatternDynamic(url: string, u: WebUrl)
    requires url != ""
    ensures AnalyzeURLPattern(Some(url), Some(u)).isDynamic <==>
      (exists k :: 0 <= k < |Split(u.pathname, '/')| && IsDynamicSegment(Split(u.pathname, '/')[k])) || |u.search| > 1
    ensures AnalyzeURLPattern(Some(url), Some(u)).normalizedUrl == NormalizeURL(Some(url), Some(u))
  {
    HasDynamicPartIff(Split(u.pathname, '/'), u.search);
    assert AnalyzeURLPattern(Some(url), Some(u)).isDynamic == HasDynamicPart(Split(u.pathname, '/'), u.search);
  }

  /** A URL that does not parse is never dynamic, and its pattern is the normalised URL. */
  lemma AnalyzeURLPatternUnparsed(url: string)
    requires url != ""
    ensures var r := AnalyzeURLPattern(Some(url), None);
      !r.isDynamic && r.patternUrl == Some(r.normalizedUrl) && r.normalizedUrl == NormalizeURL(Some(url), None)
  {
  }

  lemma MaskKeepsOthers(parts: seq<string>, k: nat)
    requires k < |parts| && !IsDynamicSegment(parts[k])
    ensures MaskSegments(parts)[k] == parts[k]
  {
  }

  /** The pattern keeps the number of path segments and changes exactly the dynamic ones. */
  lemma PatternSegments(url: string, u: WebUrl)
    requires url != "" && AnalyzeURLPattern(Some(url), Some(u)).isDynamic
    ensures var parts := Split(u.pathname, '/');
      var masked := MaskSegments(parts);
      |masked| == |parts| &&
      (forall k :: 0 <= k < |parts| ==> (masked[k] != parts[k] <==> IsDynamicSegment(parts[k]) && parts[k] != "*")) &&
      AnalyzeURLPattern(Some(url), Some(u)).patternUrl ==
        Some(if u.search != "" then u.protocol + "//" + u.host + Join(masked, "/") else Join(masked, "/"))
  {
  }

  /** The path segments of a pattern URL, when `new URL(pattern)` succeeds. */
  function PatternPathParts(pattern: string, parse: string -> Option<WebUrl>): Completion<seq<string>>
  {
    if parse(pattern).Some? then Normal(Split(parse(pattern).value.pathname, '/')) else Throws
  }

  /** Segment-wise agreement, `*` matching anything. */
  predicate SegmentsMatch(a: seq<string>, b: seq<string>)
  {
    |a| == |b| && forall k :: 0 <= k < |a| ==> a[k] == b[k] || a[k] == "*" || b[k] == "*"
  }

  /**
   * `matchURLPattern(targetUrl, snapshotUrl)` as written: the pattern URLs of
   * two dynamic pages are parsed again, which throws when a pattern URL is a
   * bare path.
   */
  function MatchURLPatternAsWritten(target: JsStr, snapshot: JsStr, parse: string -> Option<WebUrl>): Completion<bool>
  {
    var t := AnalyzeURLPattern(target, if Truthy(target) then parse(target.value) else None);
    var s := AnalyzeURLPattern(snapshot, if Truthy(snapshot) then parse(snapshot.value) else None);
    if t.normalizedUrl == s.normalizedUrl then Normal(true)
    else if t.isDynamic && s.isDynamic then
      match PatternPathParts(t.patternUrl.value, parse)
      case Throws => Throws
      case Normal(tp) =>
        match PatternPathParts(s.patternUrl.value, parse)
        case Throws => Throws
        case Normal(sp) => Normal(SegmentsMatch(tp, sp))
    else Normal(false)
  }

  /** The masked path segments of a dynamic page, as `new URL(patternUrl).pathname.split('/')` means them. */
  function MaskedParts(url: JsStr, parse: string -> Option<WebUrl>): seq<string>
  {
    if Truthy(url) && parse(url.value).Some? then MaskSegments(Split(parse(url.value).value.pathname, '/')) else []
  }

  /**
   * `matchURLPattern` as intended: two dynamic pages match when their masked
   * path segments agree, whether or not the URLs carry a query.
   */
  function MatchURLPattern(target: JsStr, snapshot: JsStr, parse: string -> Option<WebUrl>): bool
  {
    var t := AnalyzeURLPattern(target, if Truthy(target) then parse(target.value) else None);
    var s := AnalyzeURLPattern(snapshot, if Truthy(snapshot) then parse(snapshot.value) else None);
    t.normalizedUrl == s.normalizedUrl ||
    (t.isDynamic && s.isDynamic && SegmentsMatch(MaskedParts(target, parse), MaskedParts(snapshot, parse)))
  }

  /** Matching is symmetric, as written (outcome and exception alike) and as intended. */
  lemma MatchURLPatternSymmetric(a: JsStr, b: JsStr, parse: string -> Option<WebUrl>)
    ensures MatchURLPatternAsWritten(a, b, parse) == MatchURLPatternAsWritten(b, a, parse)
    ensures MatchURLPattern(a, b, parse) == MatchURLPattern(b, a, parse)
  {
  }

  /** Equal normalised URLs always match, and a page that is not dynamic matches nothing else. */
  lemma MatchURLPatternStatic(a: JsStr, b: JsStr, parse: string -> Option<WebUrl>)
    ensures var t := AnalyzeURLPattern(a, if Truthy(a) then parse(a.value) else None);
      var s := AnalyzeURLPattern(b, if Truthy(b) then parse(b.value) else None);
      (t.normalizedUrl == s.normalizedUrl ==> MatchURLPattern(a, b, parse) && MatchURLPatternAsWritten(a, b, parse) == Normal(true)) &&
      (t.normalizedUrl != s.normalizedUrl && !t.isDynamic ==> !MatchURLPattern(a, b, parse) && MatchURLPatternAsWritten(a, b, parse) == Normal(false))
  {
  }

  /** Masking makes segment lists that differ only in dynamic segments agree. */
  lemma MaskSegmentsMatch(pa: seq<string>, pb: seq<string>)
    requires |pa| == |pb|
    requires forall k :: 0 <= k < |pa| ==> pa[k] == pb[k] || (IsDynamicSegment(pa[k]) && IsDynamicSegment(pb[k]))
    ensures SegmentsMatch(MaskSegments(pa), MaskSegments(pb))
  {
  }

  lemma DynamicBySegment(url: string, u: WebUrl)
    requires url != ""
    requires var p := Split(u.pathname, '/'); exists k :: 0 <= k < |p| && IsDynamicSegment(p[k])
    ensures AnalyzeURLPattern(Some(url), Some(u)).isDynamic
  {
    AnalyzeURLPatternDynamic(url, u);
  }

  /** Two pages whose paths differ only in record segments match. */
  lemma MatchURLPatternSameShape(a: string, b: string, ua: WebUrl, ub: WebUrl, parse: string -> Option<WebUrl>)
    requires a != "" && b != "" && parse(a) == Some(ua) && parse(b) == Some(ub)
    requires var pa := Split(ua.pathname, '/'); var pb := Split(ub.pathname, '/');
      |pa| == |pb| && (exists k :: 0 <= k < |pa| && IsDynamicSegment(pa[k])) &&
      forall k :: 0 <= k < |pa| ==> pa[k] == pb[k] || (IsDynamicSegment(pa[k]) && IsDynamicSegment(pb[k]))
    ensures MatchURLPattern(Some(a), Some(b), parse)
  {
    var pa := Split(ua.pathname, '/');
    var pb := Split(ub.pathname, '/');
    var k :| 0 <= k < |pa| && IsDynamicSegment(pa[k]);
    assert IsDynamicSegment(pb[k]);
    DynamicBySegment(a, ua);
    DynamicBySegment(b, ub);
    MaskSegmentsMatch(pa, pb);
    assert MaskedParts(Some(a), parse) == MaskSegments(pa);
    assert MaskedParts(Some(b), parse) == MaskSegments(pb);
  }

  /** A path that does not start with a scheme: what `new URL` rejects without a base. */
  ghost predicate ParseRejectsPaths(parse: string -> Option<WebUrl>)
  {
    forall p :: |p| >= 1 && p[0] == '/' ==> parse(p).None?
  }

  lemma JoinStartsWithEmpty(parts: seq<string>)
    requires |parts| >= 2 && parts[0] == ""
    ensures |Join(parts, "/")| >= 1 && Join(parts, "/")[0] == '/'
  {
    assert Join(parts, "/") == parts[0] + "/" + Join(parts[1..], "/");
  }

  /** An absolute path splits into an empty first segment and at least one more. */
  lemma SplitAbsolutePath(path: string)
    requires |path| >= 1 && path[0] == '/'
    ensures |Split(path, '/')| >= 2 && Split(path, '/')[0] == ""
  {
    assert [] + path == path;
    IndexOfFirstSeparator([], path, '/');
  }

  /** Without a query, the pattern of a dynamic page is a bare path, starting with `/`. */
  lemma PatternIsBarePath(url: string, u: WebUrl)
    requires url != "" && AnalyzeURLPattern(Some(url), Some(u)).isDynamic
    requires u.search == "" && |u.pathname| >= 1 && u.pathname[0] == '/'
    ensures var p := AnalyzeURLPattern(Some(url), Some(u)).patternUrl.value; |p| >= 1 && p[0] == '/'
  {
    var parts := Split(u.pathname, '/');
    SplitAbsolutePath(u.pathname);
    var masked := MaskSegments(parts);
    assert masked[0] == "";
    JoinStartsWithEmpty(masked);
  }

  /**
   * Two record pages without a query, e.g. `https://shop.test/product/1` and
   * `https://shop.test/product/2`, make the function as written throw where
   * the intended one reports a match.
   */
  lemma MatchURLPatternAsWrittenThrows(a: string, b: string, ua: WebUrl, ub: WebUrl, parse: string -> Option<WebUrl>)
    requires ParseRejectsPaths(parse)
    requires a != "" && b != "" && parse(a) == Some(ua) && parse(b) == Some(ub)
    requires ua.search == "" && |ua.pathname| >= 1 && ua.pathname[0] == '/'
    requires OriginAndPath(ua) != OriginAndPath(ub)
    requires var pa := Split(ua.pathname, '/'); var pb := Split(ub.pathname, '/');
      |pa| == |pb| && (exists k :: 0 <= k < |pa| && IsDynamicSegment(pa[k])) &&
      forall k :: 0 <= k < |pa| ==> pa[k] == pb[k] || (IsDynamicSegment(pa[k]) && IsDynamicSegment(pb[k]))
    ensures MatchURLPatternAsWritten(Some(a), Some(b), parse) == Throws
    ensures MatchURLPattern(Some(a), Some(b), parse)
  {
    MatchURLPatternSameShape(a, b, ua, ub, parse);
    var t := AnalyzeURLPattern(Some(a), Some(ua));
    var s := AnalyzeURLPattern(Some(b), Some(ub));
    assert t.isDynamic && s.isDynamic;
    PatternIsBarePath(a, ua);
    assert PatternPathParts(t.patternUrl.value, parse) == Throws;
  }

  // ---------------------------------------------------------------------
  // Periods
  // ---------------------------------------------------------------------

  const DayMs: int := 1000 * 60 * 60 * 24
  /** SNAPSHOT_INTERVAL_DAYS, RETENTION_DAYS and MAX_PERIODS. */
  const SnapshotIntervalDays: int := 15
  const RetentionDays: int := 45
  const MaxPeriods: int := 3

  /** `Math.floor((now - date) / (1000 * 60 * 60 * 24))`; Dafny's `/` by a positive divisor is the floor. */
  function DaysSince(now: int, date: int): int
  {
    (now - date) / DayMs
  }

  /** `getPeriodNumber(date)` as written: a future date reassigns a `const` and throws. */
  function GetPeriodNumberAsWritten(date: int, now: int): Completion<int>
  {
    var daysDiff := DaysSince(now, date);
    if daysDiff < 0 then Throws else Normal(daysDiff / SnapshotIntervalDays)
  }

  /** `getPeriodNumber(date)` as intended: a future date counts as today. */
  function GetPeriodNumber(date: int, now: int): (r: nat)
  {
    var daysDiff := DaysSince(now, date);
    (if daysDiff < 0 then 0 else daysDiff) / SnapshotIntervalDays
  }

  /** The period number counts whole 15-day blocks back from now. */
  lemma GetPeriodNumberBlocks(date: int, now: int)
    requires date <= now
    ensures var p := GetPeriodNumber(date, now);
      GetPeriodNumberAsWritten(date, now) == Normal(p) &&
      p * SnapshotIntervalDays * DayMs <= now - date < (p + 1) * SnapshotIntervalDays * DayMs
  {
    var d := DaysSince(now, date);
    assert d * DayMs <= now - date < (d + 1) * DayMs;
    var p := d / SnapshotIntervalDays;
    assert p * SnapshotIntervalDays <= d < (p + 1) * SnapshotIntervalDays;
    assert p * SnapshotIntervalDays * DayMs <= d * DayMs;
    assert (d + 1) * DayMs <= (p + 1) * SnapshotIntervalDays * DayMs;
  }

  /** Any date in the future makes the function as written throw; the intended one gives period 0. */
  lemma GetPeriodNumberFuture(date: int, now: int)
    requires date > now
    ensures GetPeriodNumberAsWritten(date, now) == Throws
    ensures GetPeriodNumber(date, now) == 0
  {
    assert DaysSince(now, date) < 0;
  }

  /** A calendar date as `getDate()`, `getMonth()` (0-based) and `getFullYear()` report it. */
  datatype CalendarDate = CalendarDate(year: int, month: int, day: int)

  predicate IsLeapYear(year: int) { year % 4 == 0 && (year % 100 != 0 || year % 400 == 0) }

  /** `new Date(year, month + 1, 0).getDate()`: the last day of the 0-based `month`. */
  function DaysInMonth(year: int, month: int): (r: int)
    requires 0 <= month < 12
    ensures 28 <= r <= 31
  {
    if month == 1 then (if IsLeapYear(year) then 29 else 28)
    else if month == 3 || month == 5 || month == 8 || month == 10 then 30
    else 31
  }

  predicate ValidDate(d: CalendarDate) { 0 <= d.month < 12 && 1 <= d.day <= DaysInMonth(d.year, d.month) }

  datatype PeriodInfo = PeriodInfo(periodStart: int, periodEnd: int, periodStartDate: CalendarDate,
                                   periodEndDate: CalendarDate, isInPeriod: bool)

  /** `getCurrentPeriod(date)` of the snapshot helper. */
  function GetCurrentPeriod(date: CalendarDate): (r: PeriodInfo)
    requires 0 <= date.month < 12
  {
    var periodStart := if date.day <= 15 then 1 else 16;
    var periodEnd := if date.day <= 15 then 15 else DaysInMonth(date.year, date.month);
    PeriodInfo(periodStart, periodEnd, CalendarDate(date.year, date.month, periodStart),
               CalendarDate(date.year, date.month, periodEnd), true)
  }

  /**
   * The half-month of a date: it starts on the 1st or the 16th, ends on the
   * 15th or the last day of the month, and contains the date.
   */
  lemma GetCurrentPeriodContainsDate(date: CalendarDate)
    requires ValidDate(date)
    ensures var r := GetCurrentPeriod(date);
      (r.periodStart == 1 <==> date.day <= 15) && (r.periodStart == 16 <==> date.day > 15) &&
      (r.periodEnd == 15 <==> date.day <= 15) &&
      (date.day > 15 ==> r.periodEnd == DaysInMonth(date.year, date.month)) &&
      r.periodStart <= date.day <= r.periodEnd && ValidDate(r.periodStartDate) && ValidDate(r.periodEndDate) &&
      r.isInPeriod
  {
  }

  // ---------------------------------------------------------------------
  // Retention cleanup
  // ---------------------------------------------------------------------

  /** A stored snapshot row as the cleanup reads it. */
  datatype Snapshot = Snapshot(id: int, normalizedUrl: string, capturedAt: int)

  /** The period number the cleanup computes inline (no exception here: `periodNum` is not reassigned). */
  function PeriodNum(now: int, date: int): int
  {
    DaysSince(now, date) / SnapshotIntervalDays
  }

  /** Past the last kept period or older than the retention window. */
  predicate Expired(now: int, s: Snapshot)
  {
    PeriodNum(now, s.capturedAt) >= MaxPeriods || DaysSince(now, s.capturedAt) >= RetentionDays
  }

  ghost function IdSet(xs: seq<int>): set<int> { set x | x in xs }

  ghost predicate InRange(ss: seq<Snapshot>, ks: set<nat>) { forall k :: k in ks ==> k < |ss| }

  /** The ids of the snapshots at the given positions. */
  ghost function IdsOf(ss: seq<Snapshot>, ks: set<nat>): set<int>
    requires InRange(ss, ks)
  {
    set k | k in ks :: ss[k].id
  }

  /** Positions before `n` holding an expired snapshot. */
  ghost function ExpiredBefore(ss: seq<Snapshot>, now: int, n: nat): (r: set<nat>)
    requires n <= |ss|
    ensures InRange(ss, r)
  {
    set k: nat | k < n && Expired(now, ss[k])
  }

  /** A snapshot the grouping phase looks at: its id is not already marked for deletion. */
  ghost predicate Considered(ss: seq<Snapshot>, now: int, k: nat)
    requires k < |ss|
  {
    ss[k].id !in IdsOf(ss, ExpiredBefore(ss, now, |ss|))
  }

  function Period(ss: seq<Snapshot>, now: int, k: nat): int
    requires k < |ss|
  {
    PeriodNum(now, ss[k].capturedAt)
  }

  /**
   * Snapshot `j` wins over snapshot `k` of the same bucket: captured later,
   * or at the same time and met first (a tie keeps the earlier row).
   */
  predicate Beats(ss: seq<Snapshot>, j: nat, k: nat)
    requires j < |ss| && k < |ss|
  {
    ss[j].capturedAt > ss[k].capturedAt || (ss[j].capturedAt == ss[k].capturedAt && j < k)
  }

  /** Another considered snapshot of the same URL and period wins over `k`. */
  ghost predicate Superseded(ss: seq<Snapshot>, now: int, k: nat)
    requires k < |ss|
  {
    exists j: nat :: j < |ss| && Considered(ss, now, j) && ss[j].normalizedUrl == ss[k].normalizedUrl &&
      Period(ss, now, j) == Period(ss, now, k) && Beats(ss, j, k)
  }

  /** The positions whose snapshots the cleanup deletes. */
  ghost function DeletedIndices(ss: seq<Snapshot>, now: int): (r: set<nat>)
    ensures InRange(ss, r)
  {
    set k: nat | k < |ss| && (Expired(now, ss[k]) || (Considered(ss, now, k) && Superseded(ss, now, k)))
  }

  ghost function DeletedIds(ss: seq<Snapshot>, now: int): set<int>
  {
    IdsOf(ss, DeletedIndices(ss, now))
  }

  /** The positions before `n` of considered snapshots with URL `u`, in order (`urlGroups[u]`). */
  function Members(ss: seq<Snapshot>, skip: set<int>, u: string, n: nat): seq<nat>
    requires n <= |ss|
  {
    if n == 0 then []
    else Members(ss, skip, u, n - 1) + (if ss[n - 1].id !in skip && ss[n - 1].normalizedUrl == u then [n - 1] else [])
  }

  ghost predicate Increasing(ms: seq<nat>) { forall a, b :: 0 <= a < b < |ms| ==> ms[a] < ms[b] }

  lemma {:induction false} MembersFacts(ss: seq<Snapshot>, skip: set<int>, u: string, n: nat)
    requires n <= |ss|
    ensures forall x: nat :: x in Members(ss, skip, u, n) <==> x < n && ss[x].id !in skip && ss[x].normalizedUrl == u
    ensures Increasing(Members(ss, skip, u, n))
  {
    if n > 0 {
      MembersFacts(ss, skip, u, n - 1);
      var prev := Members(ss, skip, u, n - 1);
      var ms := Members(ss, skip, u, n);
      forall a | 0 <= a < |prev|
        ensures prev[a] < n - 1
      {
        assert prev[a] in prev;
      }
      assert forall a :: 0 <= a < |prev| ==> ms[a] == prev[a];
    }
  }

  /** Some earlier member of the same period wins over `x`. */
  ghost predicate Loses(ss: seq<Snapshot>, now: int, pre: seq<nat>, x: nat)
  {
    exists y :: y in pre && y < |ss| && x < |ss| && Period(ss, now, y) == Period(ss, now, x) && Beats(ss, y, x)
  }

  ghost function LoserIdx(ss: seq<Snapshot>, now: int, pre: seq<nat>): set<nat>
  {
    set x | x in pre && Loses(ss, now, pre, x)
  }

  /** `periodMap` after a prefix of one URL group: the winner of each period seen so far. */
  ghost predicate WinnerMap(ss: seq<Snapshot>, now: int, pre: seq<nat>, pm: map<int, nat>)
  {
    (forall y :: y in pre ==> y < |ss|) &&
    (forall p :: p in pm ==> pm[p] in pre && Period(ss, now, pm[p]) == p) &&
    (forall p, y :: p in pm && y in pre && Period(ss, now, y) == p ==> !Beats(ss, y, pm[p])) &&
    (forall y :: y in pre ==> Period(ss, now, y) in pm)
  }

  /** The first snapshot of a period becomes its entry and loses to nobody. */
  lemma NewPeriodStep(ss: seq<Snapshot>, now: int, pre: seq<nat>, pm: map<int, nat>, x: nat)
    requires WinnerMap(ss, now, pre, pm) && x < |ss| && (forall y :: y in pre ==> y < x)
    requires Period(ss, now, x) !in pm
    ensures WinnerMap(ss, now, pre + [x], pm[Period(ss, now, x) := x])
    ensures LoserIdx(ss, now, pre + [x]) == LoserIdx(ss, now, pre)
  {
    forall z | z in pre + [x]
      ensures Loses(ss, now, pre + [x], z) <==> z in pre && Loses(ss, now, pre, z)
    {
      if Loses(ss, now, pre + [x], z) {
        var y :| y in pre + [x] && y < |ss| && z < |ss| && Period(ss, now, y) == Period(ss, now, z) && Beats(ss, y, z);
        assert y in pre && z in pre;
      }
    }
  }

  /** A later snapshot displaces the entry of its period, which becomes a loser. */
  lemma ReplaceStep(ss: seq<Snapshot>, now: int, pre: seq<nat>, pm: map<int, nat>, x: nat)
    requires WinnerMap(ss, now, pre, pm) && x < |ss| && (forall y :: y in pre ==> y < x)
    requires Period(ss, now, x) in pm && ss[x].capturedAt > ss[pm[Period(ss, now, x)]].capturedAt
    ensures WinnerMap(ss, now, pre + [x], pm[Period(ss, now, x) := x])
    ensures LoserIdx(ss, now, pre + [x]) == LoserIdx(ss, now, pre) + {pm[Period(ss, now, x)]}
  {
    var p := Period(ss, now, x);
    var e := pm[p];
    assert Loses(ss, now, pre + [x], e);
    forall z | z in pre + [x]
      ensures Loses(ss, now, pre + [x], z) <==> z == e || (z in pre && Loses(ss, now, pre, z))
    {
      if z in pre && z != e && Period(ss, now, z) == p {
        assert !Beats(ss, z, e);
        assert Beats(ss, e, z);
      }
      if Loses(ss, now, pre + [x], z) && z != e {
        var y :| y in pre + [x] && y < |ss| && z < |ss| && Period(ss, now, y) == Period(ss, now, z) && Beats(ss, y, z);
        if y == x {
          assert z in pre && Period(ss, now, z) == p;
        }
      }
    }
  }

  /** A snapshot no later than the entry of its period loses to it. */
  lemma KeepStep(ss: seq<Snapshot>, now: int, pre: seq<nat>, pm: map<int, nat>, x: nat)
    requires WinnerMap(ss, now, pre, pm) && x < |ss| && (forall y :: y in pre ==> y < x)
    requires Period(ss, now, x) in pm && ss[x].capturedAt <= ss[pm[Period(ss, now, x)]].capturedAt
    ensures WinnerMap(ss, now, pre + [x], pm)
    ensures LoserIdx(ss, now, pre + [x]) == LoserIdx(ss, now, pre) + {x}
  {
    var p := Period(ss, now, x);
    var e := pm[p];
    assert Beats(ss, e, x);
    assert Loses(ss, now, pre + [x], x);
    forall z | z in pre + [x]
      ensures Loses(ss, now, pre + [x], z) <==> z == x || (z in pre && Loses(ss, now, pre, z))
    {
      if z in pre && z != e && Period(ss, now, z) == p {
        assert !Beats(ss, z, e);
        assert Beats(ss, e, z);
      }
      if Loses(ss, now, pre + [x], z) && z != x {
        var y :| y in pre + [x] && y < |ss| && z < |ss| && Period(ss, now, y) == Period(ss, now, z) && Beats(ss, y, z);
        if y == x {
          assert z in pre && Period(ss, now, z) == p;
        }
      }
    }
  }

  /** The considered losers among the snapshots of the URLs in `us`. */
  ghost function GroupLosers(ss: seq<Snapshot>, now: int, us: seq<string>): (r: set<nat>)
    ensures InRange(ss, r)
  {
    set k: nat | k < |ss| && Considered(ss, now, k) && ss[k].normalizedUrl in us && Superseded(ss, now, k)
  }

  /** Within the whole group of a URL, the local losers are exactly its superseded snapshots. */
  lemma GroupComplete(ss: seq<Snapshot>, now: int, u: string)
    ensures var ms := Members(ss, IdsOf(ss, ExpiredBefore(ss, now, |ss|)), u, |ss|);
      LoserIdx(ss, now, ms) == GroupLosers(ss, now, [u])
  {
    var skip := IdsOf(ss, ExpiredBefore(ss, now, |ss|));
    var ms := Members(ss, skip, u, |ss|);
    MembersFacts(ss, skip, u, |ss|);
    forall k: nat | k < |ss| && Considered(ss, now, k) && ss[k].normalizedUrl == u && Superseded(ss, now, k)
      ensures Loses(ss, now, ms, k)
    {
      var j: nat :| j < |ss| && Considered(ss, now, j) && ss[j].normalizedUrl == ss[k].normalizedUrl &&
        Period(ss, now, j) == Period(ss, now, k) && Beats(ss, j, k);
      assert j in ms;
    }
    forall k | k in ms && Loses(ss, now, ms, k)
      ensures Superseded(ss, now, k)
    {
      var y :| y in ms && y < |ss| && k < |ss| && Period(ss, now, y) == Period(ss, now, k) && Beats(ss, y, k);
      assert Considered(ss, now, y);
    }
  }

  lemma GroupLosersSnoc(ss: seq<Snapshot>, now: int, us: seq<string>, u: string)
    ensures GroupLosers(ss, now, us + [u]) == GroupLosers(ss, now, us) + GroupLosers(ss, now, [u])
  {
  }

  lemma IdsOfAdd(ss: seq<Snapshot>, ks: set<nat>, k: nat)
    requires InRange(ss, ks) && k < |ss|
    ensures InRange(ss, ks + {k}) && IdsOf(ss, ks + {k}) == IdsOf(ss, ks) + {ss[k].id}
  {
  }

  lemma IdSetSnoc(xs: seq<int>, x: int)
    ensures IdSet(xs + [x]) == IdSet(xs) + {x}
  {
  }

  lemma ExpiredBeforeStep(ss: seq<Snapshot>, now: int, n: nat)
    requires n < |ss|
    ensures ExpiredBefore(ss, now, n + 1) == ExpiredBefore(ss, now, n) + (if Expired(now, ss[n]) then {n} else {})
  {
  }

  /** The positions deleted: the expired ones and the considered losers of every URL group. */
  lemma DeletedIndicesSplit(ss: seq<Snapshot>, now: int, urls: seq<string>)
    requires forall k: nat :: k < |ss| && Considered(ss, now, k) ==> ss[k].normalizedUrl in urls
    ensures DeletedIndices(ss, now) == ExpiredBefore(ss, now, |ss|) + GroupLosers(ss, now, urls)
  {
  }

  lemma IdsOfUnion(ss: seq<Snapshot>, a: set<nat>, b: set<nat>)
    requires InRange(ss, a) && InRange(ss, b)
    ensures InRange(ss, a + b) && IdsOf(ss, a + b) == IdsOf(ss, a) + IdsOf(ss, b)
  {
  }

  /** The first pass of the cleanup: the ids of the expired snapshots, in order. */
  method MarkExpired(ss: seq<Snapshot>, now: int) returns (toDelete: seq<int>)
    ensures IdSet(toDelete) == IdsOf(ss, ExpiredBefore(ss, now, |ss|))
  {
    toDelete := [];
    ghost var del: set<nat> := {};
    for i := 0 to |ss|
      invariant del == ExpiredBefore(ss, now, i)
      invariant IdSet(toDelete) == IdsOf(ss, del)
    {
      var daysDiff := DaysSince(now, ss[i].capturedAt);
      var periodNum := daysDiff / SnapshotIntervalDays;
      ExpiredBeforeStep(ss, now, i);
      if periodNum >= MaxPeriods || daysDiff >= RetentionDays {
        IdSetSnoc(toDelete, ss[i].id);
        IdsOfAdd(ss, del, i);
        toDelete := toDelete + [ss[i].id];
        del := del + {i};
      }
    }
  }

  /** `urlGroups` after the first `i` snapshots; `urls` lists its keys. */
  ghost predicate GroupsAt(ss: seq<Snapshot>, skip: set<int>, i: nat, urls: seq<string>, groups: map<string, seq<nat>>)
  {
    i <= |ss| &&
    (forall u :: u in groups <==> u in urls) &&
    (forall u :: u in groups ==> groups[u] == Members(ss, skip, u, i)) &&
    (forall u :: u !in groups ==> Members(ss, skip, u, i) == [])
  }

  lemma GroupsStep(ss: seq<Snapshot>, skip: set<int>, i: nat, urls: seq<string>, groups: map<string, seq<nat>>)
    requires i < |ss| && GroupsAt(ss, skip, i, urls, groups)
    ensures var url := ss[i].normalizedUrl;
      (ss[i].id in skip ==> GroupsAt(ss, skip, i + 1, urls, groups)) &&
      (ss[i].id !in skip && url in groups ==> GroupsAt(ss, skip, i + 1, urls, groups[url := groups[url] + [i]])) &&
      (ss[i].id !in skip && url !in groups ==> GroupsAt(ss, skip, i + 1, urls + [url], groups[url := [] + [i]]))
  {
  }

  /** Every snapshot not skipped has its URL among the group keys. */
  lemma GroupsCover(ss: seq<Snapshot>, skip: set<int>, urls: seq<string>, groups: map<string, seq<nat>>)
    requires GroupsAt(ss, skip, |ss|, urls, groups)
    ensures forall k: nat :: k < |ss| && ss[k].id !in skip ==> ss[k].normalizedUrl in urls
  {
    forall k: nat | k < |ss| && ss[k].id !in skip
      ensures ss[k].normalizedUrl in urls
    {
      MembersFacts(ss, skip, ss[k].normalizedUrl, |ss|);
      assert k in Members(ss, skip, ss[k].normalizedUrl, |ss|);
    }
  }

  /** The second pass: `urlGroups`, the positions of the snapshots not yet marked, by URL. */
  method GroupByUrl(ss: seq<Snapshot>, toDelete: seq<int>) returns (urls: seq<string>, groups: map<string, seq<nat>>)
    ensures forall u :: u in groups <==> u in urls
    ensures forall u :: u in groups ==> groups[u] == Members(ss, IdSet(toDelete), u, |ss|)
    ensures forall k: nat :: k < |ss| && ss[k].id !in IdSet(toDelete) ==> ss[k].normalizedUrl in urls
  {
    ghost var skip := IdSet(toDelete);
    urls := [];
    groups := map[];
    for i := 0 to |ss|
      invariant GroupsAt(ss, skip, i, urls, groups)
    {
      GroupsStep(ss, skip, i, urls, groups);
      if ss[i].id in toDelete {
        continue;
      }
      var url := ss[i].normalizedUrl;
      if url !in groups {
        urls := urls + [url];
        groups := groups[url := []];
      }
      groups := groups[url := groups[url] + [i]];
    }
    GroupsCover(ss, skip, urls, groups);
  }

  /** After the first `m` members of a group: the losers so far and the map of winners. */
  ghost predicate PeriodPass(ss: seq<Snapshot>, now: int, ms: seq<nat>, m: nat, pm: map<int, nat>, del: set<nat>)
  {
    m <= |ms| && InRange(ss, del) && del == LoserIdx(ss, now, ms[..m]) && WinnerMap(ss, now, ms[..m], pm)
  }

  /** One step of the group pass, for each of its three branches. */
  lemma PeriodPassStep(ss: seq<Snapshot>, now: int, ms: seq<nat>, m: nat, pm: map<int, nat>, del: set<nat>)
    requires (forall y :: y in ms ==> y < |ss|) && Increasing(ms) && m < |ms| && ms[m] < |ss|
    requires PeriodPass(ss, now, ms, m, pm, del)
    ensures var x := ms[m]; var p := Period(ss, now, x);
      (p !in pm ==> PeriodPass(ss, now, ms, m + 1, pm[p := x], del)) &&
      (p in pm && ss[x].capturedAt > ss[pm[p]].capturedAt ==>
        pm[p] < |ss| && PeriodPass(ss, now, ms, m + 1, pm[p := x], del + {pm[p]})) &&
      (p in pm && ss[x].capturedAt <= ss[pm[p]].capturedAt ==> PeriodPass(ss, now, ms, m + 1, pm, del + {x}))
  {
    var x := ms[m];
    assert ms[..m + 1] == ms[..m] + [x];
    forall y | y in ms[..m]
      ensures y < x
    {
      var a :| 0 <= a < m && ms[a] == y;
    }
    var p := Period(ss, now, x);
    if p !in pm {
      NewPeriodStep(ss, now, ms[..m], pm, x);
    } else if ss[x].capturedAt > ss[pm[p]].capturedAt {
      ReplaceStep(ss, now, ms[..m], pm, x);
    } else {
      KeepStep(ss, now, ms[..m], pm, x);
    }
  }

  /**
   * The third pass over one URL group: `periodMap` keeps the latest snapshot
   * of each period, and every snapshot it displaces or rejects is marked.
   */
  method KeepLatestPerPeriod(ss: seq<Snapshot>, now: int, ms: seq<nat>, toDelete: seq<int>) returns (r: seq<int>)
    requires (forall y :: y in ms ==> y < |ss|) && Increasing(ms)
    ensures InRange(ss, LoserIdx(ss, now, ms)) && IdSet(r) == IdSet(toDelete) + IdsOf(ss, LoserIdx(ss, now, ms))
  {
    r := toDelete;
    ghost var del: set<nat> := {};
    var periodMap: map<int, nat> := map[];
    for m := 0 to |ms|
      invariant PeriodPass(ss, now, ms, m, periodMap, del)
      invariant IdSet(r) == IdSet(toDelete) + IdsOf(ss, del)
    {
      var x := ms[m];
      assert x in ms;
      PeriodPassStep(ss, now, ms, m, periodMap, del);
      var periodNum := PeriodNum(now, ss[x].capturedAt);
      if periodNum !in periodMap {
        periodMap := periodMap[periodNum := x];
      } else {
        var existing := periodMap[periodNum];
        if ss[x].capturedAt > ss[existing].capturedAt {
          IdSetSnoc(r, ss[existing].id);
          IdsOfAdd(ss, del, existing);
          r := r + [ss[existing].id];
          del := del + {existing};
          periodMap := periodMap[periodNum := x];
        } else {
          IdSetSnoc(r, ss[x].id);
          IdsOfAdd(ss, del, x);
          r := r + [ss[x].id];
          del := del + {x};
        }
      }
    }
    assert ms[..|ms|] == ms;
  }

  /** Processing the group of `u` adds exactly the considered losers with URL `u`. */
  lemma GroupRound(ss: seq<Snapshot>, now: int, us: seq<string>, u: string, before: set<int>, after: set<int>)
    requires InRange(ss, ExpiredBefore(ss, now, |ss|) + GroupLosers(ss, now, us))
    requires before == IdsOf(ss, ExpiredBefore(ss, now, |ss|) + GroupLosers(ss, now, us))
    requires var ms := Members(ss, IdsOf(ss, ExpiredBefore(ss, now, |ss|)), u, |ss|);
      InRange(ss, LoserIdx(ss, now, ms)) && after == before + IdsOf(ss, LoserIdx(ss, now, ms))
    ensures InRange(ss, ExpiredBefore(ss, now, |ss|) + GroupLosers(ss, now, us + [u]))
    ensures after == IdsOf(ss, ExpiredBefore(ss, now, |ss|) + GroupLosers(ss, now, us + [u]))
  {
    GroupComplete(ss, now, u);
    GroupLosersSnoc(ss, now, us, u);
    IdsOfUnion(ss, ExpiredBefore(ss, now, |ss|) + GroupLosers(ss, now, us), GroupLosers(ss, now, [u]));
    assert ExpiredBefore(ss, now, |ss|) + GroupLosers(ss, now, us + [u]) ==
      ExpiredBefore(ss, now, |ss|) + GroupLosers(ss, now, us) + GroupLosers(ss, now, [u]);
  }

  /**
   * The retention selection of `cleanupExpiredSnapshots`: the ids of the
   * snapshots it deletes (with repetitions, before `new Set`), given the rows
   * still unexpired in the database and the current time.
   */
  method SelectSnapshotsToDelete(ss: seq<Snapshot>, now: int) returns (toDelete: seq<int>)
    ensures IdSet(toDelete) == DeletedIds(ss, now)
  {
    toDelete := MarkExpired(ss, now);
    ghost var expired := ExpiredBefore(ss, now, |ss|);
    var urls, groups := GroupByUrl(ss, toDelete);
    ghost var skip := IdSet(toDelete);
    for g := 0 to |urls|
      invariant InRange(ss, expired + GroupLosers(ss, now, urls[..g]))
      invariant IdSet(toDelete) == IdsOf(ss, expired + GroupLosers(ss, now, urls[..g]))
    {
      var url := urls[g];
      MembersFacts(ss, skip, url, |ss|);
      ghost var before := IdSet(toDelete);
      toDelete := KeepLatestPerPeriod(ss, now, groups[url], toDelete);
      GroupRound(ss, now, urls[..g], url, before, IdSet(toDelete));
      TakeSnoc(urls, g);
    }
    assert urls[..|urls|] == urls;
    DeletedIndicesSplit(ss, now, urls);
  }

  // Properties of the retention selection

  /**
   * An expired snapshot is never considered by the grouping pass, so the
   * `periodNum >= MAX_PERIODS` test of the third pass never fires.
   */
  lemma ConsideredNotExpired(ss: seq<Snapshot>, now: int, k: nat)
    requires k < |ss|
    ensures Expired(now, ss[k]) ==> !Considered(ss, now, k)
    ensures PeriodNum(now, ss[k].capturedAt) >= MaxPeriods ==> !Considered(ss, now, k)
  {
    if Expired(now, ss[k]) {
      assert k in ExpiredBefore(ss, now, |ss|);
    }
  }

  /** Same URL and same period. */
  predicate SameBucket(ss: seq<Snapshot>, now: int, j: nat, k: nat)
    requires j < |ss| && k < |ss|
  {
    ss[j].normalizedUrl == ss[k].normalizedUrl && Period(ss, now, j) == Period(ss, now, k)
  }

  /**
   * A snapshot is superseded when a considered one of its bucket was captured
   * later: only the latest of a bucket can survive.
   */
  lemma SurvivorIsLatest(ss: seq<Snapshot>, now: int, k: nat, j: nat)
    requires k < |ss| && j < |ss| && Considered(ss, now, j) && SameBucket(ss, now, j, k)
    requires ss[j].capturedAt > ss[k].capturedAt
    ensures Superseded(ss, now, k)
  {
    assert Beats(ss, j, k);
  }

  /** Of two different considered snapshots of one bucket, at least one is superseded. */
  lemma AtMostOneSurvivor(ss: seq<Snapshot>, now: int, k1: nat, k2: nat)
    requires k1 < |ss| && k2 < |ss| && Considered(ss, now, k1) && Considered(ss, now, k2)
    requires SameBucket(ss, now, k1, k2) && k1 != k2
    ensures Superseded(ss, now, k1) || Superseded(ss, now, k2)
  {
    if Beats(ss, k1, k2) {
      assert Superseded(ss, now, k2);
    } else {
      assert Superseded(ss, now, k1);
    }
  }

  lemma BeatsTransitive(ss: seq<Snapshot>, a: nat, b: nat, c: nat)
    requires a < |ss| && b < |ss| && c < |ss| && Beats(ss, a, b) && Beats(ss, b, c)
    ensures Beats(ss, a, c)
  {
  }

  /** The winner of `k`'s bucket among the positions before `n` and `k` itself. */
  ghost function Best(ss: seq<Snapshot>, now: int, k: nat, n: nat): (w: nat)
    requires k < |ss| && n <= |ss| && Considered(ss, now, k)
    ensures w < |ss| && Considered(ss, now, w) && SameBucket(ss, now, w, k)
    ensures forall j: nat :: j < n && Considered(ss, now, j) && SameBucket(ss, now, j, k) ==> !Beats(ss, j, w)
  {
    if n == 0 then k
    else
      var b := Best(ss, now, k, n - 1);
      if Considered(ss, now, n - 1) && SameBucket(ss, now, n - 1, k) && Beats(ss, n - 1, b) then
        BestStep(ss, now, k, n - 1, b);
        n - 1
      else b
  }

  lemma BestStep(ss: seq<Snapshot>, now: int, k: nat, m: nat, b: nat)
    requires k < |ss| && m < |ss| && b < |ss| && Beats(ss, m, b)
    requires forall j: nat :: j < m && Considered(ss, now, j) && SameBucket(ss, now, j, k) ==> !Beats(ss, j, b)
    ensures forall j: nat :: j < m + 1 && Considered(ss, now, j) && SameBucket(ss, now, j, k) ==> !Beats(ss, j, m)
  {
    forall j: nat | j < m + 1 && Considered(ss, now, j) && SameBucket(ss, now, j, k)
      ensures !Beats(ss, j, m)
    {
      if j < m && Beats(ss, j, m) {
        BeatsTransitive(ss, j, m, b);
      }
    }
  }

  /** Every bucket with a considered snapshot keeps exactly one of them. */
  lemma OneSurvivorPerBucket(ss: seq<Snapshot>, now: int, k: nat)
    requires k < |ss| && Considered(ss, now, k)
    ensures var w := Best(ss, now, k, |ss|); SameBucket(ss, now, w, k) && Considered(ss, now, w) && !Superseded(ss, now, w)
    ensures forall j: nat :: j < |ss| && Considered(ss, now, j) && SameBucket(ss, now, j, k) && !Superseded(ss, now, j) ==>
      j == Best(ss, now, k, |ss|)
  {
    var w := Best(ss, now, k, |ss|);
    forall j: nat | j < |ss| && Considered(ss, now, j) && SameBucket(ss, now, j, k) && !Superseded(ss, now, j)
      ensures j == w
    {
      if j != w {
        AtMostOneSurvivor(ss, now, j, w);
      }
    }
  }

  /**
   * With distinct ids (the table's primary key), a row is deleted exactly
   * when it is expired or another row of its URL and period wins over it.
   */
  lemma DeletedIdsIff(ss: seq<Snapshot>, now: int, k: nat)
    requires k < |ss|
    requires forall a, b :: 0 <= a < |ss| && 0 <= b < |ss| && ss[a].id == ss[b].id ==> a == b
    ensures ss[k].id in DeletedIds(ss, now) <==> Expired(now, ss[k]) || Superseded(ss, now, k)
    ensures !Expired(now, ss[k]) ==> Considered(ss, now, k)
  {
    if ss[k].id in DeletedIds(ss, now) {
      var a :| a in DeletedIndices(ss, now) && ss[a].id == ss[k].id;
    } else {
      assert k !in DeletedIndices(ss, now);
    }
  }
}
