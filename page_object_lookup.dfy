/**
 * `api-find-page-object-by-url` in `src/main/main.js`: the first active
 * page object of a project one of whose URL patterns matches a URL. A
 * pattern matches when it is the URL itself, when it starts with `/` and
 * the URL's path starts with it, or when it is `regex:` followed by a
 * regular expression the URL matches. Parsing the URL and running regular
 * expressions are not modelled: the URL's path (`None` when `new URL`
 * throws) and the outcome of each regular expression on the URL (false
 * when it does not compile) are parameters.
 */
module PageObjectLookup {
  import opened JsStrings

  /**
   * The `url_patterns` column: falsy, a text `JSON.parse` rejects, or an
   * array of patterns.
   */
  datatype UrlPatterns = NoPatterns | Unparseable | Patterns(list: seq<string>)

  /** A row of `page_objects`, as far as the lookup reads it. */
  datatype PageObject = PageObject(id: int, name: string, urlPatterns: UrlPatterns)

  /** One pattern against the URL. */
  predicate PatternMatches(url: string, path: Option<string>, regexMatches: string -> bool, pattern: string)
  {
    || url == pattern
    || (StartsWith(pattern, "/") && path.Some? && (path.value == pattern || StartsWith(path.value, pattern)))
    || (StartsWith(pattern, "regex:") && regexMatches(pattern[6..]))
  }

  /** The patterns the loop visits: none for a falsy column or one `JSON.parse` rejects. */
  function PatternList(po: PageObject): seq<string>
  {
    if po.urlPatterns.Patterns? then po.urlPatterns.list else []
  }

  /** Some pattern of the page object matches the URL. */
  predicate Matches(url: string, path: Option<string>, regexMatches: string -> bool, po: PageObject)
  {
    exists k :: 0 <= k < |PatternList(po)| && PatternMatches(url, path, regexMatches, PatternList(po)[k])
  }

  /** Whether some pattern of `patterns` matches: the inner `for` loop. */
  method AnyPatternMatches(url: string, path: Option<string>, regexMatches: string -> bool, patterns: seq<string>) returns (found: bool)
    ensures found <==> exists k :: 0 <= k < |patterns| && PatternMatches(url, path, regexMatches, patterns[k])
  {
    var k := 0;
    while k < |patterns|
      invariant 0 <= k <= |patterns|
      invariant forall m :: 0 <= m < k ==> !PatternMatches(url, path, regexMatches, patterns[m])
    {
      var pattern := patterns[k];
      if url == pattern {
        return true;
      }
      if StartsWith(pattern, "/") && path.Some? && (path.value == pattern || StartsWith(path.value, pattern)) {
        return true;
      }
      if StartsWith(pattern, "regex:") && regexMatches(pattern[6..]) {
        return true;
      }
      k := k + 1;
    }
    return false;
  }

  /**
   * The outer `for` loop: the first page object, in the order the query
   * returns them, with a matching pattern; `None` when there is none.
   */
  method FindPageObjectByUrl(pageObjects: seq<PageObject>, url: string, path: Option<string>, regexMatches: string -> bool)
    returns (r: Option<PageObject>)
    ensures r.Some? ==> exists i ::
      && 0 <= i < |pageObjects| && pageObjects[i] == r.value
      && Matches(url, path, regexMatches, pageObjects[i])
      && forall j :: 0 <= j < i ==> !Matches(url, path, regexMatches, pageObjects[j])
    ensures r.None? <==> forall j :: 0 <= j < |pageObjects| ==> !Matches(url, path, regexMatches, pageObjects[j])
  {
    var i := 0;
    while i < |pageObjects|
      invariant 0 <= i <= |pageObjects|
      invariant forall j :: 0 <= j < i ==> !Matches(url, path, regexMatches, pageObjects[j])
    {
      var po := pageObjects[i];
      if !po.urlPatterns.Unparseable? {
        var found := AnyPatternMatches(url, path, regexMatches, PatternList(po));
        if found {
          return Some(po);
        }
      }
      i := i + 1;
    }
    return None;
  }
}
