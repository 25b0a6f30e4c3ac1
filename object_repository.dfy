/**
 * The object repository helpers of the renderer (`objectRepository.js`):
 * the page/element tree built from the flat object list, the selectors
 * stored with an object and the choice of the best one for a framework,
 * and the selector-type detection and normalisation of `SelectorUtils`.
 */
module ObjectRepository {
  import opened JsStrings
  import opened KeySort

  // ---------------------------------------------------------------------
  // Selector types
  // ---------------------------------------------------------------------

  /** `SELECTOR_TYPES`. */
  datatype SelectorType = Css | XPath | Id | Class | Name | Tag | LinkText | PartialLinkText

  function TypeName(t: SelectorType): string
  {
    match t
    case Css => "css"
    case XPath => "xpath"
    case Id => "id"
    case Class => "class"
    case Name => "name"
    case Tag => "tag"
    case LinkText => "linkText"
    case PartialLinkText => "partialLinkText"
  }

  /** `SelectorUtils.detectType(selector)`. */
  function DetectType(selector: JsStr): SelectorType
  {
    if !Truthy(selector) then Css
    else
      var t := Trim(selector.value);
      if StartsWith(t, "#") then Id
      else if StartsWith(t, ".") then Class
      else if StartsWith(t, "//") || StartsWith(t, "/") then XPath
      else if StartsWith(t, "name=") then Name
      else if StartsWith(t, "link=") then LinkText
      else if StartsWith(t, "partialLink=") then PartialLinkText
      else if StartsWith(t, "tag=") then Tag
      else Css
  }

  /** The first character of a prefix decides it. */
  lemma StartsWithFirst(t: string, p: string)
    requires p != "" && StartsWith(t, p)
    ensures t != "" && t[0] == p[0]
  {
    assert t[..|p|][0] == t[0];
  }

  /**
   * Each type is detected exactly for its prefix of the trimmed selector;
   * the prefixes exclude each other, so the order of the tests matters
   * only for `/`, which `//` also starts with.
   */
  lemma DetectTypeExact(selector: JsStr)
    ensures var t := Trim(OrEmpty(selector));
      && (DetectType(selector) == Id <==> Truthy(selector) && StartsWith(t, "#"))
      && (DetectType(selector) == Class <==> Truthy(selector) && StartsWith(t, "."))
      && (DetectType(selector) == XPath <==> Truthy(selector) && StartsWith(t, "/"))
      && (DetectType(selector) == Name <==> Truthy(selector) && StartsWith(t, "name="))
      && (DetectType(selector) == LinkText <==> Truthy(selector) && StartsWith(t, "link="))
      && (DetectType(selector) == PartialLinkText <==> Truthy(selector) && StartsWith(t, "partialLink="))
      && (DetectType(selector) == Tag <==> Truthy(selector) && StartsWith(t, "tag="))
  {
    var t := Trim(OrEmpty(selector));
    PrefixesByFirst(t);
  }

  /** Each recognised prefix starts with its own character, and `//` also starts with `/`. */
  lemma PrefixesByFirst(t: string)
    ensures StartsWith(t, "//") ==> StartsWith(t, "/")
    ensures StartsWith(t, "#") ==> t[0] == '#'
    ensures StartsWith(t, ".") ==> t[0] == '.'
    ensures StartsWith(t, "/") ==> t[0] == '/'
    ensures StartsWith(t, "name=") ==> t[0] == 'n'
    ensures StartsWith(t, "link=") ==> t[0] == 'l'
    ensures StartsWith(t, "partialLink=") ==> t[0] == 'p'
    ensures StartsWith(t, "tag=") ==> t[0] == 't'
  {
    if StartsWith(t, "//") { StartsWithFirst(t, "//"); assert t[..1] == "/"; }
    if StartsWith(t, "#") { StartsWithFirst(t, "#"); }
    if StartsWith(t, ".") { StartsWithFirst(t, "."); }
    if StartsWith(t, "/") { StartsWithFirst(t, "/"); }
    if StartsWith(t, "name=") { StartsWithFirst(t, "name="); }
    if StartsWith(t, "link=") { StartsWithFirst(t, "link="); }
    if StartsWith(t, "partialLink=") { StartsWithFirst(t, "partialLink="); }
    if StartsWith(t, "tag=") { StartsWithFirst(t, "tag="); }
  }

  /** What `SelectorUtils.normalize` returns. */
  datatype NormalizedSelector = NormalizedSelector(kind: string, value: string, priority: int)

  /** The prefix `normalize` strips for an explicitly given type, or `""`. */
  function StrippedPrefix(kind: JsStr): string
  {
    if kind == Some("name") then "name="
    else if kind == Some("linkText") then "link="
    else if kind == Some("partialLinkText") then "partialLink="
    else if kind == Some("tag") then "tag="
    else ""
  }

  /** `SelectorUtils.normalize(selector, type)` for a string `selector`. */
  function Normalize(selector: string, kind: JsStr): (r: NormalizedSelector)
  {
    NormalizedSelector(NormalizedKind(selector, kind), Trim(Unprefixed(selector, kind)), 0)
  }

  /** `type || this.detectType(selector)`. */
  function NormalizedKind(selector: string, kind: JsStr): string
  {
    if Truthy(kind) then kind.value else TypeName(DetectType(Some(selector)))
  }

  /** The selector without the prefix of an explicitly given type. */
  function Unprefixed(selector: string, kind: JsStr): string
  {
    var p := StrippedPrefix(kind);
    if p != "" && StartsWith(selector, p) then selector[|p|..] else selector
  }

  /**
   * The value is trimmed and the priority is 0; a given type is kept as it
   * is, and the prefix is stripped only when the matching type is given.
   */
  lemma NormalizeExplicit(selector: string, kind: JsStr)
    ensures var r := Normalize(selector, kind);
      && r.priority == 0 && Trim(r.value) == r.value
      && (Truthy(kind) ==> r.kind == kind.value)
      && (kind == Some("name") && StartsWith(selector, "name=") ==> r.value == Trim(selector[5..]))
      && (kind == Some("partialLinkText") && StartsWith(selector, "partialLink=") ==> r.value == Trim(selector[12..]))
      && (StrippedPrefix(kind) == "" ==> r.value == Trim(selector))
  {
    if kind == Some("name") && StartsWith(selector, "name=") {
      assert Unprefixed(selector, kind) == selector[5..];
    }
    if kind == Some("partialLinkText") && StartsWith(selector, "partialLink=") {
      assert Unprefixed(selector, kind) == selector[12..];
    }
    if StrippedPrefix(kind) == "" {
      assert Unprefixed(selector, kind) == selector;
    }
    TrimIdempotent(Unprefixed(selector, kind));
  }

  /**
   * Without a type, the type is detected and no prefix is stripped, even a
   * `name=` one; normalising the result again changes nothing.
   */
  lemma NormalizeDetected(selector: string)
    ensures var r := Normalize(selector, None);
      && r.value == Trim(selector)
      && Normalize(r.value, None).value == r.value
  {
    NormalizeDetectedValue(selector);
    NormalizeDetectedValue(Trim(selector));
    TrimIdempotent(selector);
  }

  /** Without a type, the normalised value is the trimmed selector. */
  lemma NormalizeDetectedValue(selector: string)
    ensures Normalize(selector, None).value == Trim(selector)
  {
    assert StrippedPrefix(None) == "";
  }

  // ---------------------------------------------------------------------
  // Stored selectors
  // ---------------------------------------------------------------------

  /** A stored selector `{ type, value, priority }`. */
  datatype ObjSelector = ObjSelector(kind: JsStr, value: JsStr, priority: Option<int>)

  /** `s.priority || 0`. */
  function Priority(s: ObjSelector): int
  {
    if s.priority.Some? then s.priority.value else 0
  }

  /**
   * An object's `selectors` field: JSON text (with the outcome of parsing
   * it: the array, or `None` when the text is not valid JSON), an array, or
   * a falsy value.
   */
  datatype SelectorsField = JsonText(parsed: Option<seq<ObjSelector>>) | Array(items: seq<ObjSelector>) | Falsy

  /** `ObjectRepository.parseSelectors(selectorsJson)`. */
  function ParseSelectors(field: SelectorsField): (r: seq<ObjSelector>)
    ensures field.Falsy? || field == JsonText(None) ==> r == []
    ensures field.Array? ==> r == field.items
    ensures field.JsonText? && field.parsed.Some? ==> r == field.parsed.value
  {
    match field
    case JsonText(parsed) => if parsed.Some? then parsed.value else []
    case Array(items) => items
    case Falsy => []
  }

  /** `ObjectRepository.createSelector(type, value, priority = 0)`. */
  function CreateSelector(kind: JsStr, value: JsStr, priority: Option<int>): (r: ObjSelector)
    ensures r.kind == kind && r.value == value
    ensures Priority(r) == if priority.Some? then priority.value else 0
  {
    ObjSelector(kind, value, Some(if priority.Some? then priority.value else 0))
  }

  /** `[...selectors].sort((a, b) => (a.priority || 0) - (b.priority || 0))`. */
  function SortByPriority(xs: seq<ObjSelector>): seq<ObjSelector>
  {
    SortByKey(xs, Priority)
  }

  /** `preferredTypes[framework] || preferredTypes.playwright`. */
  function PreferredTypes(framework: JsStr): seq<SelectorType>
  {
    if framework == Some("selenium") then [Id, Css, XPath] else [Css, XPath, Id]
  }

  /** `sorted.find(s => s.type === type)` from index `from`, as an index or -1. */
  function FindType(xs: seq<ObjSelector>, t: SelectorType, from: nat): (r: int)
    ensures r == -1 || (from <= r < |xs| && xs[r].kind == Some(TypeName(t)))
    ensures r == -1 ==> forall i :: from <= i < |xs| ==> xs[i].kind != Some(TypeName(t))
    ensures r >= 0 ==> forall i :: from <= i < r ==> xs[i].kind != Some(TypeName(t))
    decreases |xs| - from
  {
    if from >= |xs| then -1
    else if xs[from].kind == Some(TypeName(t)) then from
    else FindType(xs, t, from + 1)
  }

  /** The loop over the preferred types from the `k`-th on. */
  function BestOf(sorted: seq<ObjSelector>, prefs: seq<SelectorType>, k: nat): JsStr
    requires |sorted| > 0
    decreases |prefs| - k
  {
    if k >= |prefs| then sorted[0].value
    else
      var i := FindType(sorted, prefs[k], 0);
      if i >= 0 then sorted[i].value else BestOf(sorted, prefs, k + 1)
  }

  /** `ObjectRepository.getBestSelector(object, framework)`. */
  function GetBestSelector(selectors: SelectorsField, framework: JsStr): JsStr
  {
    var xs := ParseSelectors(selectors);
    if |xs| == 0 then Some("") else BestOf(SortByPriority(xs), PreferredTypes(framework), 0)
  }

  /** Some stored selector has type `t`. */
  predicate HasType(xs: seq<ObjSelector>, t: SelectorType)
  {
    exists e :: e in xs && e.kind == Some(TypeName(t))
  }

  /** `e` has the lowest priority among the entries of `xs` of its type. */
  predicate LowestOfItsType(e: ObjSelector, xs: seq<ObjSelector>)
  {
    e in xs && forall e2 :: e2 in xs && e2.kind == e.kind ==> Priority(e) <= Priority(e2)
  }

  /** The loop picks the lowest-priority entry of the first preferred type present, else the first entry. */
  lemma {:induction false} BestOfFacts(sorted: seq<ObjSelector>, prefs: seq<SelectorType>, k: nat)
    requires |sorted| > 0 && SortedByKey(sorted, Priority)
    ensures var r := BestOf(sorted, prefs, k);
      && (forall m :: k <= m < |prefs| && HasType(sorted, prefs[m]) && (forall j :: k <= j < m ==> !HasType(sorted, prefs[j])) ==>
            exists e :: LowestOfItsType(e, sorted) && e.kind == Some(TypeName(prefs[m])) && r == e.value)
      && ((forall j :: k <= j < |prefs| ==> !HasType(sorted, prefs[j])) ==> r == sorted[0].value)
    decreases |prefs| - k
  {
    if k < |prefs| {
      var i := FindType(sorted, prefs[k], 0);
      if i >= 0 {
        var e := sorted[i];
        forall e2 | e2 in sorted && e2.kind == e.kind ensures Priority(e) <= Priority(e2) {
          var j :| 0 <= j < |sorted| && sorted[j] == e2;
          assert i <= j;
        }
        assert LowestOfItsType(e, sorted);
        assert HasType(sorted, prefs[k]);
      } else {
        assert !HasType(sorted, prefs[k]);
        BestOfFacts(sorted, prefs, k + 1);
      }
    }
  }

  /**
   * `getBestSelector` returns `''` without selectors; otherwise the value
   * of a lowest-priority selector of the first preferred type present, and
   * when no preferred type is present the value of the first
   * lowest-priority selector, which the stable sort puts first.
   */
  lemma GetBestSelectorFacts(selectors: SelectorsField, framework: JsStr)
    ensures var xs := ParseSelectors(selectors);
      var prefs := PreferredTypes(framework);
      var r := GetBestSelector(selectors, framework);
      && (xs == [] ==> r == Some(""))
      && (forall m :: 0 <= m < |prefs| && HasType(xs, prefs[m]) && (forall j :: 0 <= j < m ==> !HasType(xs, prefs[j])) ==>
            exists e :: LowestOfItsType(e, xs) && e.kind == Some(TypeName(prefs[m])) && r == e.value)
      && (xs != [] && (forall j :: 0 <= j < |prefs| ==> !HasType(xs, prefs[j])) ==>
            exists i :: 0 <= i < |xs| && r == xs[i].value
              && (forall j :: 0 <= j < |xs| ==> Priority(xs[i]) <= Priority(xs[j]))
              && (forall j :: 0 <= j < i ==> Priority(xs[j]) > Priority(xs[i])))
  {
    var xs := ParseSelectors(selectors);
    if xs != [] {
      var sorted := SortByPriority(xs);
      SortByKeyFacts(xs, Priority);
      var first := SortedHeadIsFirstLeast(xs, Priority);
      SameMembers(sorted, xs);
      BestOfFacts(sorted, PreferredTypes(framework), 0);
    }
  }

  /** Two lists with the same entries agree on which types they hold and on which entries are lowest. */
  lemma SameMembers(a: seq<ObjSelector>, b: seq<ObjSelector>)
    requires multiset(a) == multiset(b)
    ensures forall t :: HasType(a, t) == HasType(b, t)
    ensures forall e :: LowestOfItsType(e, a) == LowestOfItsType(e, b)
  {
    forall e ensures e in a <==> e in b {
      assert e in a <==> e in multiset(a);
      assert e in b <==> e in multiset(b);
    }
  }

  /** A selector created on its own is the best one, for any framework. */
  lemma CreatedSelectorIsBest(kind: JsStr, value: JsStr, priority: Option<int>, framework: JsStr)
    ensures GetBestSelector(Array([CreateSelector(kind, value, priority)]), framework) == value
  {
    var xs := [CreateSelector(kind, value, priority)];
    var prefs := PreferredTypes(framework);
    SortSingleton(xs[0], Priority);
    BestOfSingle(xs, prefs, 0);
  }

  /** With one entry, the loop returns its value whatever it finds. */
  lemma {:induction false} BestOfSingle(xs: seq<ObjSelector>, prefs: seq<SelectorType>, k: nat)
    requires |xs| == 1
    ensures BestOf(xs, prefs, k) == xs[0].value
    decreases |prefs| - k
  {
    if k < |prefs| && FindType(xs, prefs[k], 0) < 0 {
      BestOfSingle(xs, prefs, k + 1);
    }
  }

  // ---------------------------------------------------------------------
  // The object tree
  // ---------------------------------------------------------------------

  /** A repository object: a page or an element, with its parent's id. */
  datatype RepoObject = RepoObject(id: int, parentId: Option<int>, name: string, kind: string, selectors: SelectorsField)

  /** `obj.parent_id` is truthy (`null`, a missing value and `0` are falsy). */
  predicate HasParentId(o: RepoObject)
  {
    o.parentId.Some? && o.parentId.value != 0
  }

  /** Some object of the first `n` has id `id`. */
  predicate HasId(objs: seq<RepoObject>, id: int)
  {
    exists i :: 0 <= i < |objs| && objs[i].id == id
  }

  /** An object is a root when it names no parent, or a parent no object has. */
  predicate IsRoot(o: RepoObject, objs: seq<RepoObject>)
  {
    !HasParentId(o) || !HasId(objs, o.parentId.value)
  }

  /**
   * The tree `buildTree` returns, by reference: the node of each id (the
   * last object with that id wins the map), the ids of the root nodes, and
   * the ids pushed into each node's `children`.
   */
  datatype Forest = Forest(nodes: map<int, RepoObject>, roots: seq<int>, children: map<int, seq<int>>)

  /** The ids of the root objects among the first `n`, in input order. */
  function RootIds(objs: seq<RepoObject>, n: nat): (r: seq<int>)
    requires n <= |objs|
  {
    if n == 0 then []
    else RootIds(objs, n - 1) + (if IsRoot(objs[n - 1], objs) then [objs[n - 1].id] else [])
  }

  /** The ids of the objects among the first `n` whose parent is `p`, in input order. */
  function ChildIds(objs: seq<RepoObject>, n: nat, p: int): (r: seq<int>)
    requires n <= |objs|
  {
    if n == 0 then []
    else
      var o := objs[n - 1];
      ChildIds(objs, n - 1, p) + (if HasParentId(o) && o.parentId.value == p then [o.id] else [])
  }

  /** The last of the first `n` objects with id `id`. */
  function LastWithId(objs: seq<RepoObject>, n: nat, id: int): (r: RepoObject)
    requires n <= |objs| && HasId(objs[..n], id)
    ensures r in objs && r.id == id
  {
    var o := objs[n - 1];
    if o.id == id then o
    else
      assert HasId(objs[..n - 1], id) by {
        var i :| 0 <= i < n && objs[..n][i].id == id;
        assert objs[..n - 1][i].id == id;
      }
      LastWithId(objs, n - 1, id)
  }

  /** `ObjectRepository.buildTree(objects)`; a non-array gives an empty tree. */
  method BuildTree(objects: Option<seq<RepoObject>>) returns (forest: Forest)
    ensures objects.None? ==> forest == Forest(map[], [], map[])
    ensures objects.Some? ==>
      var objs := objects.value;
      && (forall id :: id in forest.nodes <==> HasId(objs, id))
      && (forall id :: id in forest.nodes ==> forest.nodes[id] == LastWithId(objs, |objs|, id))
      && forest.children.Keys == forest.nodes.Keys
      && forest.roots == RootIds(objs, |objs|)
      && (forall p :: p in forest.children ==> forest.children[p] == ChildIds(objs, |objs|, p))
  {
    if objects.None? {
      return Forest(map[], [], map[]);
    }
    var objs := objects.value;
    var nodes: map<int, RepoObject> := map[];
    var children: map<int, seq<int>> := map[];
    for i := 0 to |objs|
      invariant forall id :: id in nodes <==> HasId(objs[..i], id)
      invariant forall id :: id in nodes ==> nodes[id] == LastWithId(objs, i, id)
      invariant children.Keys == nodes.Keys
      invariant forall p :: p in children ==> children[p] == []
    {
      var o := objs[i];
      assert objs[..i + 1][i] == o;
      forall id | HasId(objs[..i], id) ensures HasId(objs[..i + 1], id) {
        var j :| 0 <= j < i && objs[..i][j].id == id;
        assert objs[..i + 1][j].id == id;
      }
      forall id | HasId(objs[..i + 1], id) && id != o.id ensures HasId(objs[..i], id) {
        var j :| 0 <= j < i + 1 && objs[..i + 1][j].id == id;
        assert objs[..i][j].id == id;
      }
      nodes := nodes[o.id := o];
      children := children[o.id := []];
    }
    assert objs[..|objs|] == objs;
    var roots: seq<int> := [];
    for i := 0 to |objs|
      invariant children.Keys == nodes.Keys
      invariant roots == RootIds(objs, i)
      invariant forall p :: p in children ==> children[p] == ChildIds(objs, i, p)
    {
      var o := objs[i];
      if o.parentId.Some? && o.parentId.value != 0 {
        var p := o.parentId.value;
        if p in children {
          children := children[p := children[p] + [o.id]];
        } else {
          roots := roots + [o.id];
        }
      } else {
        roots := roots + [o.id];
      }
    }
    forest := Forest(nodes, roots, children);
  }

  /** An object is listed among the roots exactly when it is a root. */
  lemma {:induction false} RootIdsMembers(objs: seq<RepoObject>, n: nat)
    requires n <= |objs|
    ensures forall i :: 0 <= i < n && IsRoot(objs[i], objs) ==> objs[i].id in RootIds(objs, n)
    ensures forall x :: x in RootIds(objs, n) ==> exists i :: 0 <= i < n && objs[i].id == x && IsRoot(objs[i], objs)
  {
    if n > 0 {
      RootIdsMembers(objs, n - 1);
    }
  }

  /** The children of `p` are exactly the objects naming `p` as their parent, in input order. */
  lemma {:induction false} ChildIdsMembers(objs: seq<RepoObject>, n: nat, p: int)
    requires n <= |objs|
    ensures forall i :: 0 <= i < n && HasParentId(objs[i]) && objs[i].parentId.value == p ==> objs[i].id in ChildIds(objs, n, p)
    ensures forall x :: x in ChildIds(objs, n, p) ==>
      exists i :: 0 <= i < n && objs[i].id == x && HasParentId(objs[i]) && objs[i].parentId.value == p
  {
    if n > 0 {
      ChildIdsMembers(objs, n - 1, p);
    }
  }

  /**
   * Every object is placed: a root is listed among the roots, any other
   * object among the children of its parent, whose node exists.
   */
  lemma EveryObjectPlaced(objs: seq<RepoObject>, i: nat)
    requires i < |objs|
    ensures IsRoot(objs[i], objs) ==> objs[i].id in RootIds(objs, |objs|)
    ensures !IsRoot(objs[i], objs) ==>
      HasId(objs, objs[i].parentId.value) && objs[i].id in ChildIds(objs, |objs|, objs[i].parentId.value)
  {
    RootIdsMembers(objs, |objs|);
    if HasParentId(objs[i]) {
      ChildIdsMembers(objs, |objs|, objs[i].parentId.value);
    }
  }
}
