/**
 * The pure string helpers of the selector toolkit (src/renderer/utils/selectorUtils.js):
 * attribute and XPath escaping, text normalisation, selector type inference,
 * prefix parsing, validation and the key used to spot duplicate candidates.
 */
module SelectorUtils {
  import opened JsStrings

  // ---------------------------------------------------------------------
  // Escaping a quote with a backslash, and undoing it
  // ---------------------------------------------------------------------

  /** `s.replace(/q/g, '\\q')`: every `q` gets a backslash in front. */
  function EscapeQuote(s: string, q: char): (r: string)
    requires q != '\\'
    ensures |s| > 0 ==> |r| > 0 && (r[0] == s[0] || r[0] == '\\') && r[|r| - 1] == s[|s| - 1]
    ensures |s| == 0 ==> r == []
    ensures r == [] || r[0] != q
  {
    if s == [] then []
    else (if s[0] == q then ['\\', q] else [s[0]]) + EscapeQuote(s[1..], q)
  }

  /** `s.replace(/\\q/g, 'q')`: every backslash-quote pair, scanned left to right, becomes the quote. */
  function UnescapeQuote(s: string, q: char): (r: string)
    ensures |r| <= |s|
    ensures '\\' !in s ==> r == s
  {
    if |s| >= 2 && s[0] == '\\' && s[1] == q then [q] + UnescapeQuote(s[2..], q)
    else if s == [] then []
    else [s[0]] + UnescapeQuote(s[1..], q)
  }

  /** Escaping adds only backslashes and copies of the quote. */
  lemma {:induction false} EscapeQuoteAbsent(s: string, q: char, c: char)
    requires q != '\\' && c != q && c != '\\' && c !in s
    ensures c !in EscapeQuote(s, q)
  {
    if s != [] {
      EscapeQuoteAbsent(s[1..], q, c);
    }
  }

  /** Unescaping undoes escaping, whatever backslashes and quotes the input already holds. */
  lemma {:induction false} UnescapeEscapeQuote(s: string, q: char)
    requires q != '\\'
    ensures UnescapeQuote(EscapeQuote(s, q), q) == s
  {
    if s != [] {
      var rest := EscapeQuote(s[1..], q);
      UnescapeEscapeQuote(s[1..], q);
      if s[0] == q {
        assert EscapeQuote(s, q) == ['\\', q] + rest;
        UnescapePair(rest, q);
      } else {
        assert EscapeQuote(s, q) == [s[0]] + rest;
        UnescapeCons(s[0], rest, q);
      }
    }
  }

  lemma UnescapePair(rest: string, q: char)
    ensures UnescapeQuote(['\\', q] + rest, q) == [q] + UnescapeQuote(rest, q)
  {
    assert (['\\', q] + rest)[2..] == rest;
  }

  lemma UnescapeCons(c: char, rest: string, q: char)
    requires c != '\\' || rest == [] || rest[0] != q
    ensures UnescapeQuote([c] + rest, q) == [c] + UnescapeQuote(rest, q)
  {
    assert ([c] + rest)[1..] == rest;
  }

  // ---------------------------------------------------------------------
  // escapeAttributeValue
  // ---------------------------------------------------------------------

  /**
   * `(value || "")` with every `"` backslash-escaped, every backspace and
   * form feed removed, and surrounding white space trimmed.
   */
  function EscapeAttributeValue(value: JsStr): (r: string)
    ensures !Truthy(value) ==> r == ""
  {
    EscapeAttributeText(OrEmpty(value))
  }

  /** The escaping of `escapeAttributeValue` on a present string. */
  function EscapeAttributeText(s: string): (r: string)
  {
    Trim(RemoveChar(RemoveChar(EscapeQuote(s, '"'), '\U{0008}'), '\U{000C}'))
  }

  /** The escaped value holds no backspace or form feed. */
  lemma EscapeAttributeTextClean(s: string)
    ensures '\U{0008}' !in EscapeAttributeText(s) && '\U{000C}' !in EscapeAttributeText(s)
  {
    var stripped := RemoveChar(RemoveChar(EscapeQuote(s, '"'), '\U{0008}'), '\U{000C}');
    RemoveCharAbsent(RemoveChar(EscapeQuote(s, '"'), '\U{0008}'), '\U{000C}', '\U{0008}');
    var k := TrimSlice(stripped);
    var r := EscapeAttributeText(s);
    forall i | 0 <= i < |r| ensures r[i] != '\U{0008}' && r[i] != '\U{000C}' {
      assert r[i] == stripped[k + i];
    }
  }

  /**
   * A value that needs no trimming and holds no backspace or form feed is
   * recovered exactly by undoing the quote escaping.
   */
  lemma EscapeAttributeTextRoundTrip(v: string)
    requires '\U{0008}' !in v && '\U{000C}' !in v
    requires v == [] || (!IsJsSpace(v[0]) && !IsJsSpace(v[|v| - 1]))
    ensures UnescapeQuote(EscapeAttributeText(v), '"') == v
  {
    var escaped := EscapeQuote(v, '"');
    EscapeQuoteAbsent(v, '"', '\U{0008}');
    EscapeQuoteAbsent(v, '"', '\U{000C}');
    assert RemoveChar(RemoveChar(escaped, '\U{0008}'), '\U{000C}') == escaped;
    TrimOfUnspaced(escaped);
    UnescapeEscapeQuote(v, '"');
  }

  // ---------------------------------------------------------------------
  // escapeXPathLiteral and an evaluator for the XPath it produces
  // ---------------------------------------------------------------------

  /** Each piece in double quotes. */
  function Wrap(parts: seq<string>): (r: seq<string>)
    ensures |r| == |parts|
  {
    if parts == [] then [] else ["\"" + parts[0] + "\""] + Wrap(parts[1..])
  }

  /** The separator placed between the quoted pieces of a `concat(...)`: a literal `"` in single quotes. */
  const QuoteArgSeparator: string := ", '\"', "

  /**
   * An XPath 1.0 expression whose string value is `value`: a double-quoted
   * literal when `value` has no `"`, a single-quoted one when it has `"` but
   * no `'`, and otherwise a `concat` of the `"`-free pieces with a quoted
   * `"` between each pair.
   */
  function EscapeXPathLiteral(value: string): (r: string)
  {
    if '"' in value && '\'' in value then
      "concat(" + Join(Wrap(Split(value, '"')), QuoteArgSeparator) + ")"
    else if '"' in value then "'" + value + "'"
    else "\"" + value + "\""
  }

  /** The `concat` branch as the source writes it: the pieces are joined with `, """, `. */
  function EscapeXPathLiteralAsWritten(value: string): (r: string)
  {
    if '"' in value && '\'' in value then
      "concat(" + Join(Wrap(Split(value, '"')), ", \"\"\", ") + ")"
    else if '"' in value then "'" + value + "'"
    else "\"" + value + "\""
  }

  /** A quoted XPath string literal at the start of `s`: its value and what follows it. */
  function ParseXPathLiteral(s: string): (r: Option<(string, string)>)
    ensures r.Some? ==> |r.value.1| < |s|
  {
    if |s| >= 1 && IsQuote(s[0]) then
      var k := IndexOfChar(s[1..], s[0]);
      if k < 0 then None else Some((s[1..k + 1], s[k + 2..]))
    else None
  }

  /** `v` in front of an optional string. */
  function Prepend(v: string, o: Option<string>): Option<string>
  {
    if o.Some? then Some(v + o.value) else None
  }

  /** The concatenated value of a list of string literals separated by `, `. */
  function EvalXPathArgs(s: string): (r: Option<string>)
    decreases |s|
  {
    match ParseXPathLiteral(s)
    case None => None
    case Some((v, rest)) =>
      if rest == [] then Some(v)
      else if StartsWith(rest, ", ") then Prepend(v, EvalXPathArgs(rest[2..]))
      else None
  }

  /** One literal followed by `, ` and more arguments. */
  lemma EvalArgsStep(s: string, v: string, rest: string)
    requires ParseXPathLiteral(s) == Some((v, rest)) && StartsWith(rest, ", ")
    ensures EvalXPathArgs(s) == Prepend(v, EvalXPathArgs(rest[2..]))
  {
  }

  /** One literal followed by something other than `, ` or the end. */
  lemma EvalArgsStuck(s: string, v: string, rest: string)
    requires ParseXPathLiteral(s) == Some((v, rest)) && rest != [] && rest[0] != ','
    ensures EvalXPathArgs(s) == None
  {
    assert !StartsWith(rest, ", ") by {
      if |rest| >= 2 { assert rest[..2][0] == rest[0]; }
    }
  }

  /** The string value of an XPath string literal or of a `concat` of string literals. */
  function EvalXPathString(e: string): (r: Option<string>)
  {
    if |e| >= 8 && StartsWith(e, "concat(") && e[|e| - 1] == ')' then EvalXPathArgs(e[7..|e| - 1])
    else match ParseXPathLiteral(e)
      case Some((v, rest)) => if rest == [] then Some(v) else None
      case None => None
  }

  /** A literal whose body holds no copy of its quote parses to that body. */
  lemma QuotedLiteral(q: char, body: string, rest: string)
    requires IsQuote(q) && q !in body
    ensures ParseXPathLiteral([q] + body + [q] + rest) == Some((body, rest))
  {
    var s := [q] + body + [q] + rest;
    LiteralSlices(q, body, rest);
    IndexOfFirstSeparator(body, [q] + rest, q);
    ParseLiteralAt(s, |body|);
  }

  lemma LiteralSlices(q: char, body: string, rest: string)
    ensures var s := [q] + body + [q] + rest;
      s[0] == q && s[1..] == body + ([q] + rest) && s[1..|body| + 1] == body && s[|body| + 2..] == rest
  {
  }

  lemma ParseLiteralAt(s: string, k: nat)
    requires |s| >= 1 && IsQuote(s[0]) && IndexOfChar(s[1..], s[0]) == k
    ensures ParseXPathLiteral(s) == Some((s[1..k + 1], s[k + 2..]))
  {
  }

  /** A quoted literal followed by `, ` contributes its body in front of the value of the rest. */
  lemma EvalArgsLiteralStep(q: char, body: string, more: string)
    requires IsQuote(q) && q !in body
    ensures EvalXPathArgs([q] + body + [q] + (", " + more)) == Prepend(body, EvalXPathArgs(more))
  {
    var rest := ", " + more;
    QuotedLiteral(q, body, rest);
    assert rest[..2] == ", " && rest[2..] == more;
    EvalArgsStep([q] + body + [q] + rest, body, rest);
  }

  /** One quoted piece followed by the quoted-quote separator contributes the piece and a `"`. */
  lemma EvalWrappedStep(p: string, tail: string)
    requires '"' !in p
    ensures EvalXPathArgs(['"'] + p + ['"'] + (", " + (['\''] + "\"" + ['\''] + (", " + tail))))
      == Prepend(p + "\"", EvalXPathArgs(tail))
  {
    EvalArgsLiteralStep('"', p, ['\''] + "\"" + ['\''] + (", " + tail));
    EvalArgsLiteralStep('\'', "\"", tail);
    var x := EvalXPathArgs(tail);
    if x.Some? {
      assert p + ("\"" + x.value) == p + "\"" + x.value;
    }
  }

  /** The arguments of the corrected `concat` evaluate to the pieces joined with `"`. */
  lemma {:induction false} EvalWrappedArgs(parts: seq<string>)
    requires |parts| >= 1
    requires forall i :: 0 <= i < |parts| ==> '"' !in parts[i]
    ensures EvalXPathArgs(Join(Wrap(parts), QuoteArgSeparator)) == Some(Join(parts, "\""))
    decreases |parts|
  {
    var p := parts[0];
    if |parts| == 1 {
      QuotedLiteral('"', p, []);
      assert "\"" + p + "\"" == ['"'] + p + ['"'] + [];
    } else {
      var tail := Join(Wrap(parts[1..]), QuoteArgSeparator);
      assert Wrap(parts)[1..] == Wrap(parts[1..]);
      assert Join(Wrap(parts), QuoteArgSeparator) == "\"" + p + "\"" + QuoteArgSeparator + tail;
      assert "\"" + p + "\"" + QuoteArgSeparator + tail
        == ['"'] + p + ['"'] + (", " + (['\''] + "\"" + ['\''] + (", " + tail)));
      EvalWrappedArgs(parts[1..]);
      EvalWrappedStep(p, tail);
      assert Join(parts, "\"") == p + "\"" + Join(parts[1..], "\"");
    }
  }

  /** The XPath produced for any value evaluates back to that value. */
  lemma EscapeXPathLiteralSound(value: string)
    ensures EvalXPathString(EscapeXPathLiteral(value)) == Some(value)
  {
    var e := EscapeXPathLiteral(value);
    if '"' in value && '\'' in value {
      var parts := Split(value, '"');
      var j := Join(Wrap(parts), QuoteArgSeparator);
      assert e == "concat(" + j + ")";
      EvalWrappedArgs(parts);
      EvalConcat(j);
      JoinSplit(value, '"');
    } else if '"' in value {
      QuotedLiteral('\'', value, []);
      assert e == ['\''] + value + ['\''] + [];
    } else {
      QuotedLiteral('"', value, []);
      assert e == ['"'] + value + ['"'] + [];
    }
  }

  /**
   * For every value holding both quote kinds, the source's `concat` does not
   * evaluate: with `a"'` it produces `concat("a", """, "'")`, where the
   * empty literal `""` is followed by `"` instead of `, ` or the end.
   */
  lemma EscapeXPathLiteralAsWrittenBreaks(value: string)
    requires '"' in value && '\'' in value
    ensures EvalXPathString(EscapeXPathLiteralAsWritten(value)) == None
    ensures EvalXPathString(EscapeXPathLiteral(value)) == Some(value)
  {
    var parts := Split(value, '"');
    assert |parts| >= 2;
    var p := parts[0];
    var tail := Join(Wrap(parts[1..]), ", \"\"\", ");
    assert Wrap(parts)[1..] == Wrap(parts[1..]);
    var j := Join(Wrap(parts), ", \"\"\", ");
    assert j == "\"" + p + "\"" + ", \"\"\", " + tail;
    AsWrittenArgsStuck(p, tail);
    assert EscapeXPathLiteralAsWritten(value) == "concat(" + j + ")";
    EvalConcat(j);
    EscapeXPathLiteralSound(value);
  }

  /** After the first quoted piece, the source's separator `, """, ` leaves `""` followed by `"`: no value. */
  lemma AsWrittenArgsStuck(p: string, tail: string)
    requires '"' !in p
    ensures EvalXPathArgs("\"" + p + "\"" + ", \"\"\", " + tail) == None
  {
    var r3 := "\", " + tail;
    var r2 := ['"'] + "" + ['"'] + r3;
    var r1 := ", " + r2;
    var j := "\"" + p + "\"" + ", \"\"\", " + tail;
    assert j == ['"'] + p + ['"'] + r1;
    QuotedLiteral('"', p, r1);
    assert r1[..2] == ", " && r1[2..] == r2;
    EvalArgsStep(j, p, r1);
    QuotedLiteral('"', "", r3);
    assert r3[0] == '"';
    EvalArgsStuck(r2, "", r3);
  }

  /** A `concat(...)` evaluates to the value of its argument list. */
  lemma EvalConcat(args: string)
    requires args != []
    ensures EvalXPathString("concat(" + args + ")") == EvalXPathArgs(args)
  {
    var e := "concat(" + args + ")";
    assert e[..7] == "concat(";
    assert e[7..|e| - 1] == args;
  }

  // ---------------------------------------------------------------------
  // normalizeText
  // ---------------------------------------------------------------------

  /** Two spaces side by side at index `i`. */
  predicate SpacePairAt(s: string, i: int)
  {
    0 <= i && i + 1 < |s| && s[i] == ' ' && s[i + 1] == ' '
  }

  /** Every white-space character is a plain space and no two spaces are adjacent. */
  predicate SingleSpaced(s: string)
  {
    (forall i :: 0 <= i < |s| && IsJsSpace(s[i]) ==> s[i] == ' ')
    && (forall i :: 0 <= i < |s| ==> !SpacePairAt(s, i))
  }

  /** `s.replace(/\s+/g, " ")`: each maximal run of white space becomes one space. */
  function CollapseSpaces(s: string): (r: string)
    ensures SingleSpaced(r)
    ensures |s| > 0 ==> |r| > 0 && r[0] == (if IsJsSpace(s[0]) then ' ' else s[0])
    decreases |s|
  {
    if s == [] then []
    else if IsJsSpace(s[0]) then
      var t := TrimStart(s);
      assert t == TrimStart(s[1..]);
      var r := CollapseSpaces(t);
      ConsSingleSpaced(' ', r);
      [' '] + r
    else
      var r := CollapseSpaces(s[1..]);
      ConsSingleSpaced(s[0], r);
      [s[0]] + r
  }

  /** Putting a character in front keeps a string single-spaced unless it makes a white-space pair. */
  lemma ConsSingleSpaced(c: char, t: string)
    requires SingleSpaced(t)
    requires IsJsSpace(c) ==> c == ' ' && (t == [] || t[0] != ' ')
    ensures SingleSpaced([c] + t)
  {
    var s := [c] + t;
    forall i | 0 <= i < |s| ensures !SpacePairAt(s, i) {
      if i >= 1 {
        assert !SpacePairAt(t, i - 1);
      }
    }
  }

  /** `normalizeText`: white-space runs collapsed to one space, then trimmed. */
  function NormalizeText(text: JsStr): (r: string)
    ensures !Truthy(text) ==> r == ""
  {
    NormalizeString(OrEmpty(text))
  }

  /** The normalisation of `normalizeText` on a present string. */
  function NormalizeString(s: string): (r: string)
  {
    Trim(CollapseSpaces(s))
  }

  /** A normalised text: single-spaced, with no white space at either end. */
  predicate NormalizedText(s: string)
  {
    SingleSpaced(s) && (s == [] || (!IsJsSpace(s[0]) && !IsJsSpace(s[|s| - 1])))
  }

  /** A piece of a single-spaced string, copied from offset `a`, is single-spaced. */
  lemma SingleSpacedInfix(s: string, t: string, a: nat)
    requires SingleSpaced(s) && a + |t| <= |s|
    requires forall i :: 0 <= i < |t| ==> t[i] == s[a + i]
    ensures SingleSpaced(t)
  {
    forall i | 0 <= i < |t| ensures !SpacePairAt(t, i) {
      assert !SpacePairAt(s, a + i);
    }
  }

  /** Trimming keeps a string single-spaced. */
  lemma SingleSpacedTrim(s: string)
    requires SingleSpaced(s)
    ensures SingleSpaced(Trim(s))
  {
    var k := TrimSlice(s);
    SingleSpacedInfix(s, Trim(s), k);
  }

  /** normalizeText yields a normalised text. */
  lemma NormalizeStringIsNormalized(s: string)
    ensures NormalizedText(NormalizeString(s))
  {
    SingleSpacedTrim(CollapseSpaces(s));
  }

  /** A single-spaced string is left as it is by the collapsing step. */
  lemma {:induction false} CollapseSingleSpaced(s: string)
    requires SingleSpaced(s)
    ensures CollapseSpaces(s) == s
    decreases |s|
  {
    if s != [] {
      var rest := s[1..];
      SingleSpacedInfix(s, rest, 1);
      CollapseSingleSpaced(rest);
      CollapseSingleSpacedHead(s);
      assert s == [s[0]] + rest;
    }
  }

  /** One step of the collapse on a single-spaced string: its first character, then the collapse of the rest. */
  lemma CollapseSingleSpacedHead(s: string)
    requires SingleSpaced(s) && s != []
    ensures CollapseSpaces(s) == [s[0]] + CollapseSpaces(s[1..])
  {
    if IsJsSpace(s[0]) {
      var rest := s[1..];
      assert s[0] == ' ';
      if rest != [] {
        assert !SpacePairAt(s, 0);
        assert !IsJsSpace(rest[0]);
      }
      assert TrimStart(s) == rest;
    }
  }

  /** normalizeText is idempotent: a normalised text is its own normal form. */
  lemma NormalizeStringIdempotent(s: string)
    ensures NormalizeString(NormalizeString(s)) == NormalizeString(s)
  {
    var n := NormalizeString(s);
    NormalizeStringIsNormalized(s);
    CollapseSingleSpaced(n);
    TrimOfUnspaced(n);
  }

  // ---------------------------------------------------------------------
  // inferSelectorType, parseSelectorForMatching, validateSelector
  // ---------------------------------------------------------------------

  predicate IsAsciiLetter(c: char) { 'a' <= c <= 'z' || 'A' <= c <= 'Z' }

  /** `/^[a-z][a-z0-9-]*$/i`: a bare tag name. */
  predicate IsTagName(t: string)
  {
    |t| >= 1 && IsAsciiLetter(t[0])
    && forall i :: 1 <= i < |t| ==> IsAsciiLetter(t[i]) || IsDigit(t[i]) || t[i] == '-'
  }

  const SelectorTypes: set<string> := {"xpath", "text", "id", "class", "attribute", "tag", "css"}

  /**
   * The selector kind, judged on the trimmed selector in the order
   * xpath, text, id, class, attribute, tag, with css as the default
   * (also for a missing or empty selector).
   */
  function InferSelectorType(selector: JsStr): (r: string)
    ensures !Truthy(selector) ==> r == "css"
  {
    if !Truthy(selector) then "css" else InferTrimmedType(Trim(selector.value))
  }

  /** The decision list of `inferSelectorType`, applied to the trimmed selector `t`. */
  function InferTrimmedType(t: string): (r: string)
    ensures t == "" ==> r == "css"
  {
      if StartsWith(t, "xpath=") then "xpath"
      else if StartsWith(t, "//") || StartsWith(t, "(") || StartsWith(t, "/") then "xpath"
      else if StartsWith(t, "text=") then "text"
      else if StartsWith(t, "#") then "id"
      else if StartsWith(t, ".") && ' ' !in t then "class"
      else if '[' in t && ']' in t then "attribute"
      else if IsTagName(t) then "tag"
      else "css"
  }

  /** Every selector gets one of the seven known types. */
  lemma InferSelectorTypeKnown(selector: JsStr)
    ensures InferSelectorType(selector) in SelectorTypes
  {
    if Truthy(selector) {
      InferTrimmedTypeKnown(Trim(selector.value));
    }
  }

  lemma InferTrimmedTypeKnown(t: string)
    ensures InferTrimmedType(t) in SelectorTypes
  {
  }

  /** The type depends only on the trimmed selector: trimming first changes nothing. */
  lemma InferSelectorTypeOfTrimmed(s: string)
    ensures InferSelectorType(Some(Trim(s))) == InferSelectorType(Some(s))
  {
    TrimIdempotent(s);
  }

  /** A selector that begins with one of the listed XPath or text markers is typed by that marker alone. */
  lemma InferSelectorTypeMarkers(s: string)
    requires s == Trim(s)
    ensures StartsWith(s, "/") || StartsWith(s, "(") || StartsWith(s, "xpath=") ==> InferSelectorType(Some(s)) == "xpath"
    ensures StartsWith(s, "text=") ==> InferSelectorType(Some(s)) == "text"
    ensures StartsWith(s, "#") ==> InferSelectorType(Some(s)) == "id"
    ensures IsTagName(s) ==> InferSelectorType(Some(s)) == "tag"
  {
    TrimmedTypeMarkers(s);
    if IsTagName(s) {
      TrimmedTypeOfTag(s);
    }
    InferSelectorTypeIsTrimmedType(s);
  }

  lemma InferSelectorTypeIsTrimmedType(s: string)
    requires s == Trim(s)
    ensures InferSelectorType(Some(s)) == InferTrimmedType(s)
  {
  }

  lemma TrimmedTypeMarkers(t: string)
    ensures StartsWith(t, "/") || StartsWith(t, "(") || StartsWith(t, "xpath=") ==> InferTrimmedType(t) == "xpath"
    ensures StartsWith(t, "text=") ==> InferTrimmedType(t) == "text"
    ensures StartsWith(t, "#") ==> InferTrimmedType(t) == "id"
  {
    if StartsWith(t, "text=") {
      assert t[0] == 't';
    }
  }

  lemma TrimmedTypeOfTag(t: string)
    requires IsTagName(t)
    ensures InferTrimmedType(t) == "tag"
  {
    assert IsAsciiLetter(t[0]);
    if |t| > 5 { assert IsAsciiLetter(t[5]) || IsDigit(t[5]) || t[5] == '-'; }
    if |t| > 4 { assert IsAsciiLetter(t[4]) || IsDigit(t[4]) || t[4] == '-'; }
    forall i | 0 <= i < |t| ensures t[i] != '[' {
      if i >= 1 { assert IsAsciiLetter(t[i]) || IsDigit(t[i]) || t[i] == '-'; }
    }
  }

  /** `css=`, `xpath=` or `text=` at the start of a selector: the type it forces and its length. */
  function SelectorPrefix(s: string): (r: Option<(string, nat)>)
    ensures r.Some? ==> r.value.1 <= |s| && StartsWith(s, r.value.0 + "=") && r.value.1 == |r.value.0| + 1
  {
    if StartsWith(s, "css=") then Some(("css", 4))
    else if StartsWith(s, "xpath=") then Some(("xpath", 6))
    else if StartsWith(s, "text=") then Some(("text", 5))
    else None
  }

  /** `/^['"]|['"]$/g`: one leading and one trailing quote removed. */
  function StripOuterQuotes(v: string): (r: string)
    ensures |r| <= |v|
  {
    var a := if |v| >= 1 && IsQuote(v[0]) then v[1..] else v;
    if |a| >= 1 && IsQuote(a[|a| - 1]) then a[..|a| - 1] else a
  }

  datatype ParsedSelector = ParsedSelector(selType: JsStr, value: string)

  /**
   * `parseSelectorForMatching`: a `css=`/`xpath=`/`text=` prefix is removed
   * and decides the type; otherwise the explicit type, else the inferred
   * one. Text values lose one surrounding quote on each side and their
   * backslash-escaped quotes.
   */
  function ParseSelectorForMatching(selector: JsStr, explicitType: JsStr): (r: ParsedSelector)
    ensures !Truthy(selector) ==> r.value == ""
    ensures Truthy(selector) ==> r.selType.Some?
  {
    if !Truthy(selector) then ParsedSelector(if Truthy(explicitType) then explicitType else None, "")
    else
      var s := selector.value;
      var t0 := if Truthy(explicitType) then explicitType.value else InferSelectorType(selector);
      var pre := SelectorPrefix(s);
      var t := if pre.Some? then pre.value.0 else t0;
      var v := if pre.Some? then s[pre.value.1..] else s;
      if t == "text" then
        ParsedSelector(Some(t), UnescapeQuote(UnescapeQuote(StripOuterQuotes(v), '"'), '\''))
      else ParsedSelector(Some(t), v)
  }

  /** A `css=` or `xpath=` prefix decides the type and is cut from the value, whatever type was asked for. */
  lemma ParsePrefixOverridesType(s: string, explicitType: JsStr)
    ensures StartsWith(s, "css=") ==> ParseSelectorForMatching(Some(s), explicitType) == ParsedSelector(Some("css"), s[4..])
    ensures StartsWith(s, "xpath=") ==> ParseSelectorForMatching(Some(s), explicitType) == ParsedSelector(Some("xpath"), s[6..])
    ensures StartsWith(s, "text=") ==> ParseSelectorForMatching(Some(s), explicitType).selType == Some("text")
  {
    if StartsWith(s, "xpath=") {
      assert s[0] == 'x';
    }
    if StartsWith(s, "text=") {
      assert s[0] == 't';
    }
  }

  /** A quoted text selector without backslashes yields exactly the text between the quotes. */
  lemma ParseQuotedText(body: string, q: char, explicitType: JsStr)
    requires IsQuote(q) && '\\' !in body
    ensures ParseSelectorForMatching(Some("text=" + [q] + body + [q]), explicitType)
      == ParsedSelector(Some("text"), body)
  {
    var s := "text=" + [q] + body + [q];
    assert StartsWith(s, "text=");
    assert !StartsWith(s, "css=") by { assert s[0] == 't'; }
    assert !StartsWith(s, "xpath=") by { assert s[0] == 't'; }
    var v := s[5..];
    assert v == [q] + body + [q];
    assert v[1..] == body + [q];
    assert (body + [q])[..|body|] == body;
    assert StripOuterQuotes(v) == body;
  }

  datatype Validation = Invalid(error: string) | Valid(selType: string, value: string)

  /**
   * `validateSelector`: invalid for a missing or empty selector and for one
   * whose value is empty once its prefix is removed; otherwise valid with
   * the parsed type and value.
   */
  function ValidateSelector(selector: JsStr, selType: JsStr): (r: Validation)
    ensures !Truthy(selector) ==> r.Invalid?
    ensures r.Valid? ==> r.value != ""
  {
    if !Truthy(selector) then Invalid("셀렉터가 없습니다")
    else
      var inferred := if Truthy(selType) then selType.value else InferSelectorType(selector);
      var parsed := ParseSelectorForMatching(selector, Some(inferred));
      if parsed.value == "" then Invalid("셀렉터 값이 비어있습니다")
      else Valid(parsed.selType.value, parsed.value)
  }

  /** A selector that is nothing but a prefix parses to the empty value, whatever type is asked for. */
  lemma BarePrefixParsesEmpty(s: string, explicitType: JsStr)
    requires SelectorPrefix(s).Some? && SelectorPrefix(s).value.1 == |s|
    ensures ParseSelectorForMatching(Some(s), explicitType).value == ""
  {
    assert s[|s|..] == "";
  }

  /** A bare prefix such as `css=` is rejected. */
  lemma ValidateRejectsBarePrefix(selType: JsStr)
    ensures ValidateSelector(Some("css="), selType).Invalid?
    ensures ValidateSelector(Some("xpath="), selType).Invalid?
    ensures ValidateSelector(Some("text="), selType).Invalid?
  {
    var c := "css=";
    var x := "xpath=";
    var t := "text=";
    assert SelectorPrefix(c) == Some(("css", 4));
    assert SelectorPrefix(x) == Some(("xpath", 6)) by { assert x[0] != c[0]; }
    assert SelectorPrefix(t) == Some(("text", 5)) by { assert t[0] != c[0] && t[0] != x[0]; }
    BarePrefixParsesEmpty(c, Some(if Truthy(selType) then selType.value else InferSelectorType(Some(c))));
    BarePrefixParsesEmpty(x, Some(if Truthy(selType) then selType.value else InferSelectorType(Some(x))));
    BarePrefixParsesEmpty(t, Some(if Truthy(selType) then selType.value else InferSelectorType(Some(t))));
  }

  /** Any other non-empty, unprefixed, non-text selector is accepted unchanged. */
  lemma ValidateAcceptsPlain(s: string, selType: JsStr)
    requires s != "" && SelectorPrefix(s).None?
    requires OrElse(selType, Some(InferSelectorType(Some(s)))) != Some("text")
    ensures ValidateSelector(Some(s), selType) == Valid(OrEmpty(OrElse(selType, Some(InferSelectorType(Some(s))))), s)
  {
  }

  // ---------------------------------------------------------------------
  // normalizeSelectorForDedup
  // ---------------------------------------------------------------------

  /** `s` with a `css=`, `xpath=` or `text=` prefix removed. */
  function StripSelectorPrefix(s: string): (r: string)
    ensures |r| <= |s|
  {
    match SelectorPrefix(s)
    case Some((_, n)) => s[n..]
    case None => s
  }

  lemma LowerKeepsEnds(s: string)
    requires s == [] || (!IsJsSpace(s[0]) && !IsJsSpace(s[|s| - 1]))
    ensures var l := Lower(s); l == [] || (!IsJsSpace(l[0]) && !IsJsSpace(l[|l| - 1]))
  {
  }

  /**
   * The comparison key of a selector: prefix removed, trimmed and lower-cased.
   * A missing or empty selector has the empty key.
   */
  function DedupKey(selector: JsStr): (r: string)
    ensures !Truthy(selector) ==> r == ""
    ensures forall i :: 0 <= i < |r| ==> !('A' <= r[i] <= 'Z')
    ensures r == [] || (!IsJsSpace(r[0]) && !IsJsSpace(r[|r| - 1]))
  {
    if !Truthy(selector) then ""
    else
      var t := Trim(StripSelectorPrefix(selector.value));
      LowerKeepsEnds(t);
      Lower(t)
  }

  /** A `css=` prefix does not tell two selectors apart. */
  lemma DedupKeyIgnoresCssPrefix(s: string)
    requires SelectorPrefix(s).None?
    ensures DedupKey(Some("css=" + s)) == DedupKey(Some(s))
  {
    var c := "css=" + s;
    assert StartsWith(c, "css=");
    assert c[4..] == s;
  }
}
