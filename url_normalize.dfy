/**
 * The URL normalisers of the recorder, the code generator, the snapshot
 * service and the Python test helper, and the filter for intermediate
 * (login, redirect, token ...) pages.
 *
 * The JavaScript normalisers parse with the WHATWG `URL` constructor; the
 * model takes the parse result as a parameter (`None` when the constructor
 * throws). The Python helper's `urllib.parse.urlparse` is written out.
 */
module UrlNormalize {
  import opened JsStrings

  // ---------------------------------------------------------------------
  // WHATWG URL records (JavaScript)
  // ---------------------------------------------------------------------

  /** The components of a parsed `URL` object that the normalisers read. */
  datatype UrlRecord = UrlRecord(protocol: string, host: string, pathname: string, search: string)
  {
    /** What the URL standard guarantees of these components. */
    predicate Valid()
    {
      |protocol| >= 1 && protocol[|protocol| - 1] == ':' &&
      '?' !in protocol && '#' !in protocol && '/' !in protocol &&
      '?' !in host && '#' !in host && '/' !in host &&
      '?' !in pathname && '#' !in pathname &&
      (search == "" || search[0] == '?')
    }
  }

  type WebUrl = u: UrlRecord | u.Valid() witness UrlRecord("http:", "", "/", "")

  /** `${u.protocol}//${u.host}${u.pathname}`. */
  function OriginAndPath(u: WebUrl): (r: string)
    ensures '?' !in r && '#' !in r
  {
    u.protocol + "//" + u.host + u.pathname
  }

  /**
   * `removeQueryParams(url)`, given what `new URL(url)` produced. The code
   * generator's `normalizeUrl` is the same function.
   */
  function RemoveQueryParams(url: JsStr, parsed: Option<WebUrl>): (r: JsStr)
  {
    if !Truthy(url) then url
    else if parsed.Some? then Some(OriginAndPath(parsed.value))
    else Some(BeforeFirst(url.value, '?'))
  }

  /** `normalizeURL(url)` of the snapshot helpers: `''` for a missing or empty URL. */
  function NormalizeURL(url: JsStr, parsed: Option<WebUrl>): (r: string)
  {
    if !Truthy(url) then ""
    else if parsed.Some? then OriginAndPath(parsed.value)
    else BeforeFirst(url.value, '?')
  }

  /**
   * `removeQueryParams` returns a falsy URL as it is and otherwise a string
   * without `?`; when parsing fails that string is the longest prefix of the
   * input before the first `?`.
   */
  lemma RemoveQueryParamsDropsQuery(url: JsStr, parsed: Option<WebUrl>)
    ensures !Truthy(url) ==> RemoveQueryParams(url, parsed) == url
    ensures Truthy(url) ==> RemoveQueryParams(url, parsed).Some? && '?' !in RemoveQueryParams(url, parsed).value
    ensures Truthy(url) && parsed.Some? ==> '#' !in RemoveQueryParams(url, parsed).value
    ensures Truthy(url) && parsed.None? ==>
      var r := RemoveQueryParams(url, parsed).value;
      StartsWith(url.value, r) && (r == url.value || url.value[|r|] == '?')
  {
  }

  /** A URL without `?` that does not parse comes back unchanged. */
  lemma RemoveQueryParamsKeepsUnparsed(url: string)
    requires '?' !in url
    ensures RemoveQueryParams(Some(url), None) == Some(url)
  {
  }

  /** Removing the query twice removes nothing more. */
  lemma RemoveQueryParamsFallbackIdempotent(url: JsStr)
    ensures RemoveQueryParams(RemoveQueryParams(url, None), None) == RemoveQueryParams(url, None)
  {
  }

  /** The snapshot helpers' `normalizeURL` agrees with `removeQueryParams` except on falsy input. */
  lemma NormalizeURLAgrees(url: JsStr, parsed: Option<WebUrl>)
    ensures !Truthy(url) ==> NormalizeURL(url, parsed) == ""
    ensures Truthy(url) ==> Some(NormalizeURL(url, parsed)) == RemoveQueryParams(url, parsed)
  {
  }

  // ---------------------------------------------------------------------
  // Intermediate pages
  // ---------------------------------------------------------------------

  /** The patterns of `shouldFilterIntermediateUrl`, all lower case. */
  const IntermediatePatterns: seq<string> := [
    "loginproc", "logoutproc", "redirect", "processing", "intermediate",
    "callback", "verify",
    "token", "oauth", "handshake", "sso", "saml",
    "loading", "wait", "waiting", "transit",
    "session", "signin", "signout", "logout", "jump"]

  /** `shouldFilterIntermediateUrl(url)`. */
  predicate ShouldFilterIntermediateUrl(url: JsStr)
  {
    Truthy(url) && exists k :: 0 <= k < |IntermediatePatterns| && Contains(Lower(url.value), IntermediatePatterns[k])
  }

  function UpperChar(c: char): char
  {
    if 'a' <= c <= 'z' then (c as int - 32) as char else c
  }

  lemma {:induction false} LowerOfUpper(s: string)
    ensures Lower(Upper(s)) == Lower(s)
  {
    if s != [] {
      LowerOfUpper(s[1..]);
      assert Upper(s) == [UpperChar(s[0])] + Upper(s[1..]);
      assert LowerChar(UpperChar(s[0])) == LowerChar(s[0]);
      assert Lower(Upper(s)) == [LowerChar(UpperChar(s[0]))] + Lower(Upper(s[1..]));
    }
  }

  /** The filter ignores letter case. */
  lemma ShouldFilterIgnoresCase(url: string)
    ensures ShouldFilterIntermediateUrl(Some(Upper(url))) == ShouldFilterIntermediateUrl(Some(url))
  {
    LowerOfUpper(url);
  }

  lemma {:induction false} LowerSlice(s: string, i: nat, j: nat)
    requires i <= j <= |s|
    ensures Lower(s)[i..j] == Lower(s[i..j])
  {
    var l := Lower(s);
    var m := Lower(s[i..j]);
    forall k | 0 <= k < j - i
      ensures l[i..j][k] == m[k]
    {
      assert s[i..j][k] == s[i + k];
    }
  }

  lemma LowerOccurs(outer: string, url: string, at: nat)
    requires OccursAt(outer, url, at)
    ensures OccursAt(Lower(outer), Lower(url), at)
  {
    LowerSlice(outer, at, at + |url|);
  }

  lemma OccursWithin(a: string, b: string, p: string, i: nat, j: nat)
    requires OccursAt(a, b, i) && OccursAt(b, p, j)
    ensures OccursAt(a, p, i + j)
  {
    forall k | 0 <= k < |p|
      ensures a[i + j + k] == p[k]
    {
      assert b[j + k] == p[k];
      assert a[i + (j + k)] == b[j + k];
    }
  }

  /** A URL that contains a filtered URL is itself filtered. */
  lemma ShouldFilterContaining(url: string, outer: string, at: nat)
    requires OccursAt(outer, url, at)
    requires ShouldFilterIntermediateUrl(Some(url))
    ensures ShouldFilterIntermediateUrl(Some(outer))
  {
    var k :| 0 <= k < |IntermediatePatterns| && Contains(Lower(url), IntermediatePatterns[k]);
    var p := IntermediatePatterns[k];
    var i :| 0 <= i <= |Lower(url)| && OccursAt(Lower(url), p, i);
    LowerOccurs(outer, url, at);
    OccursWithin(Lower(outer), Lower(url), p, at, i);
  }

  // ---------------------------------------------------------------------
  // urllib.parse (Python 3.12), as used by normalize_url
  // ---------------------------------------------------------------------

  /** `_WHATWG_C0_CONTROL_OR_SPACE`: the characters `urlsplit` strips from the left. */
  predicate IsC0OrSpace(c: char) { c <= ' ' }

  /** `url.lstrip(_WHATWG_C0_CONTROL_OR_SPACE)`. */
  function StripLeading(s: string): (r: string)
    ensures |r| <= |s| && r == s[|s| - |r|..]
    ensures r == [] || !IsC0OrSpace(r[0])
  {
    if s != [] && IsC0OrSpace(s[0]) then StripLeading(s[1..]) else s
  }

  /** Removal of `_UNSAFE_URL_BYTES_TO_REMOVE` (tab, carriage return, line feed). */
  function RemoveUnsafe(s: string): string
  {
    RemoveChar(RemoveChar(RemoveChar(s, '\t'), '\r'), '\n')
  }

  predicate IsAsciiLetter(c: char) { 'a' <= c <= 'z' || 'A' <= c <= 'Z' }

  /** `scheme_chars`. */
  predicate IsSchemeChar(c: char) { IsAsciiLetter(c) || IsDigit(c) || c == '+' || c == '-' || c == '.' }

  /** The text before the first `:` is a scheme. */
  predicate HasScheme(u: string)
  {
    var i := IndexOfChar(u, ':');
    i > 0 && IsAsciiLetter(u[0]) && forall k :: 0 <= k < i ==> IsSchemeChar(u[k])
  }

  /** `_splitnetloc(url, 2)`: the end of the network location. */
  function NetlocEnd(u: string, from: nat): (e: nat)
    requires from <= |u|
    ensures from <= e <= |u|
    ensures forall k :: from <= k < e ==> u[k] != '/' && u[k] != '?' && u[k] != '#'
    ensures e == |u| || u[e] == '/' || u[e] == '?' || u[e] == '#'
    decreases |u| - from
  {
    if from == |u| || u[from] == '/' || u[from] == '?' || u[from] == '#' then from else NetlocEnd(u, from + 1)
  }

  /** The scheme (lower-cased) and the rest, split at the first `:` when what precedes it is a scheme. */
  function SplitScheme(u: string): (r: (string, string))
    ensures '?' !in r.0 && '#' !in r.0
    ensures !HasScheme(u) ==> r == ("", u)
  {
    if HasScheme(u) then
      var i := IndexOfChar(u, ':');
      var l := Lower(u[..i]);
      assert forall k :: 0 <= k < i ==> l[k] == LowerChar(u[k]) && IsSchemeChar(u[k]);
      (l, u[i + 1..])
    else ("", u)
  }

  /** The network location after a leading `//`, and the rest. */
  function SplitNetloc(u: string): (r: (string, string))
    ensures '?' !in r.0 && '#' !in r.0 && '/' !in r.0
  {
    if |u| >= 2 && u[..2] == "//" then (u[2..NetlocEnd(u, 2)], u[NetlocEnd(u, 2)..]) else ("", u)
  }

  /** The path: what precedes the fragment and the query. */
  function PathOf(u: string): (r: string)
    ensures '?' !in r && '#' !in r
  {
    var beforeFragment := BeforeFirst(u, '#');
    var r := BeforeFirst(beforeFragment, '?');
    assert forall k :: 0 <= k < |r| ==> r[k] == beforeFragment[k];
    r
  }

  /** The five components `urlsplit` returns. */
  datatype SplitUrl = SplitUrl(scheme: string, netloc: string, path: string, query: string, fragment: string)

  /** `urlsplit(url)`, or `None` where it raises `ValueError` (an unbalanced `[` or `]` in the netloc). */
  function UrlSplit(url: string): (r: Option<SplitUrl>)
  {
    var (scheme, u1) := SplitScheme(RemoveUnsafe(StripLeading(url)));
    var (netloc, u2) := SplitNetloc(u1);
    if ('[' in netloc) != (']' in netloc) then None
    else
      var u3 := BeforeFirst(u2, '#');
      var fragment := if '#' in u2 then u2[|u3| + 1..] else "";
      var query := if '?' in u3 then u3[|PathOf(u2)| + 1..] else "";
      Some(SplitUrl(scheme, netloc, PathOf(u2), query, fragment))
  }

  /** `uses_params`: the schemes whose last path segment may carry `;params`. */
  const UsesParams: seq<string> := ["", "ftp", "hdl", "prospero", "http", "imap", "https", "shttp",
                                    "rtsp", "rtsps", "rtspu", "sip", "sips", "mms", "sftp", "tel"]

  /** The index of the last `c` in `s`, or -1. */
  function LastIndexOfChar(s: string, c: char): (r: int)
    ensures -1 <= r < |s|
    ensures r >= 0 ==> s[r] == c && c !in s[r + 1..]
    ensures r == -1 <==> c !in s
  {
    if s == [] then -1
    else if s[|s| - 1] == c then |s| - 1
    else
      assert s[..|s| - 1] + [s[|s| - 1]] == s;
      var k := LastIndexOfChar(s[..|s| - 1], c);
      assert k >= 0 ==> s[k + 1..] == s[..|s| - 1][k + 1..] + [s[|s| - 1]];
      k
  }

  /** `_splitparams(path)[0]`: the path without the `;params` of its last segment. */
  function StripParams(path: string): (r: string)
    requires ';' in path
    ensures StartsWith(path, r)
  {
    if '/' in path then
      var j := LastIndexOfChar(path, '/');
      var k := IndexOfChar(path[j..], ';');
      if k < 0 then path else path[..j + k]
    else path[..IndexOfChar(path, ';')]
  }

  /** The path `urlparse` reports. */
  function ParsedPath(s: SplitUrl): (r: string)
    ensures StartsWith(s.path, r)
  {
    if s.scheme in UsesParams && ';' in s.path then StripParams(s.path) else s.path
  }

  /** `normalize_url(url)` of the Python test helper. */
  function NormalizeUrlPy(url: Option<string>): (r: Option<string>)
  {
    if url.None? || url.value == "" then url
    else match UrlSplit(url.value)
      case Some(p) => Some(p.scheme + "://" + p.netloc + ParsedPath(p))
      case None => Some(BeforeFirst(url.value, '?'))
  }

  lemma PrefixAvoids(s: string, p: string, c: char)
    requires StartsWith(s, p) && c !in s
    ensures c !in p
  {
    assert forall k :: 0 <= k < |p| ==> p[k] == s[k];
  }

  /** The components of a successful split carry neither `?` nor `#` where the result uses them. */
  lemma SplitComponentsClean(url: string)
    requires UrlSplit(url).Some?
    ensures var p := UrlSplit(url).value;
      '?' !in p.scheme && '#' !in p.scheme && '?' !in p.netloc && '#' !in p.netloc &&
      '?' !in p.path && '#' !in p.path
  {
  }

  /**
   * `normalize_url` returns a falsy URL unchanged and otherwise a string
   * without the query; when the URL parses, without the fragment too.
   */
  lemma NormalizeUrlPyDropsQuery(url: Option<string>)
    ensures url.None? || url.value == "" ==> NormalizeUrlPy(url) == url
    ensures url.Some? && url.value != "" ==> NormalizeUrlPy(url).Some? && '?' !in NormalizeUrlPy(url).value
    ensures url.Some? && url.value != "" && UrlSplit(url.value).Some? ==> '#' !in NormalizeUrlPy(url).value
    ensures url.Some? && url.value != "" && UrlSplit(url.value).None? ==>
      NormalizeUrlPy(url) == Some(BeforeFirst(url.value, '?'))
  {
    if url.Some? && url.value != "" && UrlSplit(url.value).Some? {
      var p := UrlSplit(url.value).value;
      SplitComponentsClean(url.value);
      PrefixAvoids(p.path, ParsedPath(p), '?');
      PrefixAvoids(p.path, ParsedPath(p), '#');
    }
  }

  lemma StripLeadingAvoids(s: string, c: char)
    requires c !in s
    ensures c !in StripLeading(s)
  {
  }

  lemma RemoveUnsafeAvoids(s: string)
    requires ':' !in s
    ensures ':' !in RemoveUnsafe(s)
  {
    RemoveCharAbsent(s, '\t', ':');
    RemoveCharAbsent(RemoveChar(s, '\t'), '\r', ':');
    RemoveCharAbsent(RemoveChar(RemoveChar(s, '\t'), '\r'), '\n', ':');
  }

  /** A URL with no `:` has no scheme, so the result starts with `://`. */
  lemma NormalizeUrlPySchemeless(url: string)
    requires url != "" && ':' !in url && UrlSplit(url).Some?
    ensures StartsWith(NormalizeUrlPy(Some(url)).value, "://")
  {
    NoColonNoScheme(url);
    UrlSplitScheme(url);
    var p := UrlSplit(url).value;
    NormalizeUrlPyOfSplit(url, p);
    EmptySchemeShape(p.scheme, p.netloc, ParsedPath(p));
  }

  lemma EmptySchemeShape(scheme: string, netloc: string, path: string)
    requires scheme == ""
    ensures StartsWith(scheme + "://" + netloc + path, "://")
  {
    assert (scheme + "://" + netloc + path)[..3] == "://";
  }

  lemma NormalizeUrlPyOfSplit(url: string, p: SplitUrl)
    requires url != "" && UrlSplit(url) == Some(p)
    ensures NormalizeUrlPy(Some(url)) == Some(p.scheme + "://" + p.netloc + ParsedPath(p))
  {
  }

  lemma UrlSplitScheme(url: string)
    requires UrlSplit(url).Some?
    ensures UrlSplit(url).value.scheme == SplitScheme(RemoveUnsafe(StripLeading(url))).0
  {
  }

  lemma NoColonNoScheme(url: string)
    requires ':' !in url
    ensures SplitScheme(RemoveUnsafe(StripLeading(url))).0 == ""
  {
    StripLeadingAvoids(url, ':');
    RemoveUnsafeAvoids(StripLeading(url));
  }

  lemma BeforeFirstAppend(a: string, b: string, c: char)
    requires c !in a
    ensures BeforeFirst(a + b, c) == a + BeforeFirst(b, c)
  {
    var k := IndexOfChar(b, c);
    var ab := a + b;
    if k < 0 {
      assert c !in ab;
    } else {
      assert ab[|a| + k] == c;
      var j := IndexOfChar(ab, c);
      assert ab[..|a| + k] == a + b[..k];
      assert j == |a| + k;
    }
  }

  /** The last index at or after `from` where `_splitnetloc` stops. */
  lemma NetlocEndAt(u: string, from: nat, e: nat)
    requires from <= e <= |u|
    requires forall k :: from <= k < e ==> u[k] != '/' && u[k] != '?' && u[k] != '#'
    requires e == |u| || u[e] == '/' || u[e] == '?' || u[e] == '#'
    ensures NetlocEnd(u, from) == e
    decreases e - from
  {
    if from < e {
      NetlocEndAt(u, from + 1, e);
    }
  }

  /** No tab, carriage return or line feed. */
  predicate NoUnsafe(s: string) { '\t' !in s && '\r' !in s && '\n' !in s }

  /** A scheme as written in lower case: a letter, then letters, digits, `+`, `-` or `.`. */
  predicate LowerScheme(s: string)
  {
    |s| >= 1 && 'a' <= s[0] <= 'z' && forall k :: 0 <= k < |s| ==> IsSchemeChar(s[k]) && !('A' <= s[k] <= 'Z')
  }

  lemma SchemeFound(s: string, rest: string)
    requires LowerScheme(s)
    ensures HasScheme(s + ":" + rest) && IndexOfChar(s + ":" + rest, ':') == |s|
    ensures SplitScheme(s + ":" + rest) == (s, rest)
  {
    var u := s + ":" + rest;
    assert ':' !in s;
    assert u[|s|] == ':';
    var i := IndexOfChar(u, ':');
    assert u[..i] == s;
    assert forall k :: 0 <= k < |s| ==> LowerChar(s[k]) == s[k];
    assert Lower(u[..i]) == s;
    assert u[i + 1..] == rest;
  }

  lemma PreparedUnchanged(url: string)
    requires NoUnsafe(url) && url != [] && !IsC0OrSpace(url[0])
    ensures RemoveUnsafe(StripLeading(url)) == url
  {
  }

  lemma NetlocOf(netloc: string, u2: string)
    requires forall k :: 0 <= k < |netloc| ==> netloc[k] !in "/?#[]"
    requires u2 == [] || u2[0] == '/' || u2[0] == '?'
    ensures SplitNetloc("//" + netloc + u2) == (netloc, u2)
    ensures '[' !in netloc && ']' !in netloc
  {
    var rest := "//" + netloc + u2;
    NetlocEndAt(rest, 2, 2 + |netloc|);
    assert rest[2..2 + |netloc|] == netloc;
    assert rest[2 + |netloc|..] == u2;
  }

  lemma PathOfQuery(path: string, query: string)
    requires '?' !in path && '#' !in path
    ensures PathOf(path + "?" + query) == path
  {
    assert path + "?" + query == path + ("?" + query);
    BeforeFirstAppend(path, "?" + query, '#');
    BeforeFirstAppend("?", query, '#');
    assert BeforeFirst(path + "?" + query, '#') == path + ("?" + BeforeFirst(query, '#'));
    BeforeFirstAppend(path, "?" + BeforeFirst(query, '#'), '?');
  }

  /**
   * On a URL written `scheme://netloc/path?query`, with a lower-case scheme,
   * no brackets in the netloc and no `;` in the path, `normalize_url` gives
   * back exactly `scheme://netloc/path`.
   */
  lemma NormalizeUrlPyStripsQuery(scheme: string, netloc: string, path: string, query: string)
    requires LowerScheme(scheme)
    requires forall k :: 0 <= k < |netloc| ==> netloc[k] !in "/?#[]"
    requires path == "" || path[0] == '/'
    requires '?' !in path && '#' !in path && ';' !in path
    requires NoUnsafe(netloc) && NoUnsafe(path) && NoUnsafe(query)
    ensures NormalizeUrlPy(Some(scheme + "://" + netloc + path + "?" + query)) ==
      Some(scheme + "://" + netloc + path)
  {
    var url := scheme + "://" + netloc + path + "?" + query;
    UrlShape(scheme, netloc, path, query);
    UrlSplitParts(scheme, netloc, path, query);
  }

  lemma UrlShape(scheme: string, netloc: string, path: string, query: string)
    requires LowerScheme(scheme)
    requires NoUnsafe(netloc) && NoUnsafe(path) && NoUnsafe(query)
    ensures scheme + "://" + netloc + path + "?" + query == scheme + ":" + ("//" + netloc + (path + "?" + query))
    ensures NoUnsafe(scheme + ":" + ("//" + netloc + (path + "?" + query)))
  {
    assert NoUnsafe(scheme) by {
      assert forall k :: 0 <= k < |scheme| ==> IsSchemeChar(scheme[k]);
    }
  }

  lemma UrlSplitParts(scheme: string, netloc: string, path: string, query: string)
    requires LowerScheme(scheme)
    requires forall k :: 0 <= k < |netloc| ==> netloc[k] !in "/?#[]"
    requires path == "" || path[0] == '/'
    requires '?' !in path && '#' !in path
    requires NoUnsafe(scheme + ":" + ("//" + netloc + (path + "?" + query)))
    ensures var r := UrlSplit(scheme + ":" + ("//" + netloc + (path + "?" + query)));
      r.Some? && r.value.scheme == scheme && r.value.netloc == netloc && r.value.path == path
  {
    var u2 := path + "?" + query;
    var rest := "//" + netloc + u2;
    PreparedUnchanged(scheme + ":" + rest);
    SchemeFound(scheme, rest);
    NetlocOf(netloc, u2);
    PathOfQuery(path, query);
  }
}
