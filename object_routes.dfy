/**
 * The object-repository routes of the server (`server/routes/objects.js`):
 * the page/element tree returned for a project, and the checks on the body
 * of a new object.
 * The SQL queries are not modelled: the rows they return are a parameter.
 * `buildTree` recurses once per level of the parent chain; the model bounds
 * that recursion by a `fuel` argument and yields `None` when it runs out,
 * which is what a cyclic parent chain does to the source (it recurses
 * without end).
 */
module ObjectRoutes {
  import opened JsStrings
  import opened JsonValues
  import opened KeySort

  /** A row of `objects`, as far as the tree reads it. */
  datatype ObjectRow = ObjectRow(
    id: int,
    parent: ParentRef,
    name: JsStr,
    description: JsStr,
    kind: JsStr,
    priority: int,
    selectors: StoredText)

  /** A tree node; `children` is set only when there are some. */
  datatype ObjectNode = ObjectNode(
    id: int,
    name: JsStr,
    description: JsStr,
    kind: JsStr,
    priority: int,
    selectors: Json,
    children: Option<seq<ObjectNode>>)

  /** The `parent_id` the tree filters on. */
  function ParentOf(row: ObjectRow): ParentRef
  {
    row.parent
  }

  /** The sort key `a.priority - b.priority`. */
  function Priority(n: ObjectNode): int
  {
    n.priority
  }

  /** Every node of `nodes` comes from a row with parent `parent`. */
  ghost predicate Placed(nodes: seq<ObjectNode>, items: seq<ObjectRow>, parent: ParentRef)
  {
    forall n :: n in nodes ==> exists row :: row in items && row.parent == parent && n.id == row.id
  }

  /**
   * `node` is the node the `map` callback builds for `row`: the copied
   * fields, the parsed selectors (`[]` when missing or not valid JSON), and
   * as children the tree built under `row` with `fuel`, left unset when it
   * is empty.
   */
  ghost predicate Built(node: ObjectNode, row: ObjectRow, items: seq<ObjectRow>, fuel: nat)
    decreases fuel, 1, 1
  {
    && node.id == row.id && node.name == row.name && node.description == row.description
    && node.kind == row.kind && node.priority == row.priority
    && node.selectors == ParseStored(row.selectors)
    && var sub := BuildTree(items, ParentId(row.id), fuel);
       sub.Some? && node.children == (if sub.value == [] then None else Some(sub.value))
  }

  /** `buildTree(items, parentId)`. */
  function BuildTree(items: seq<ObjectRow>, parent: ParentRef, fuel: nat): (r: Option<seq<ObjectNode>>)
    ensures r.Some? ==> Placed(r.value, items, parent)
    decreases fuel, 1, 0
  {
    if fuel == 0 then None
    else
      var level := Level(items, ParentOf, parent);
      var nodes := BuildNodes(items, level, fuel - 1);
      if nodes.None? then None
      else
        LevelMembers(items, ParentOf, parent);
        SortKeepsMembers(nodes.value, Priority);
        assert forall n :: n in SortByKey(nodes.value, Priority) ==> n in nodes.value;
        Some(SortByKey(nodes.value, Priority))
  }

  /** The `map` over one level, before the sort. */
  function BuildNodes(items: seq<ObjectRow>, level: seq<ObjectRow>, fuel: nat): (r: Option<seq<ObjectNode>>)
    ensures r.Some? ==> |r.value| == |level| && forall i :: 0 <= i < |level| ==> Built(r.value[i], level[i], items, fuel)
    decreases fuel, 2, |level|
  {
    if level == [] then Some([])
    else
      var front := BuildNodes(items, level[..|level| - 1], fuel);
      var row := level[|level| - 1];
      var children := BuildTree(items, ParentId(row.id), fuel);
      if front.None? || children.None? then None
      else
        var node := ObjectNode(
          row.id, row.name, row.description, row.kind, row.priority, ParseStored(row.selectors),
          if children.value == [] then None else Some(children.value));
        Some(front.value + [node])
  }

  /**
   * The nodes of a level are the rows whose `parent_id` is exactly the
   * parent asked for (with `null`, exactly the rows whose `parent_id` is
   * `null`), one node per row, sorted by `priority`; each node is built
   * from its row.
   */
  lemma BuildTreeFacts(items: seq<ObjectRow>, parent: ParentRef, fuel: nat)
    requires BuildTree(items, parent, fuel).Some?
    ensures var nodes := BuildTree(items, parent, fuel).value;
      && |nodes| == |Level(items, ParentOf, parent)|
      && SortedByKey(nodes, Priority)
      && (forall n :: n in nodes ==> exists row :: row in items && row.parent == parent && Built(n, row, items, fuel - 1))
      && (forall row :: row in items && row.parent == parent ==> exists n :: n in nodes && Built(n, row, items, fuel - 1))
  {
    var level := Level(items, ParentOf, parent);
    var built := BuildNodes(items, level, fuel - 1).value;
    assert BuildTree(items, parent, fuel).value == SortByKey(built, Priority);
    LevelMembers(items, ParentOf, parent);
    SortedLevel(items, parent, level, built, fuel - 1);
  }

  /** `BuildTreeFacts` for the sorted `map` of a level. */
  lemma SortedLevel(items: seq<ObjectRow>, parent: ParentRef, level: seq<ObjectRow>, built: seq<ObjectNode>, sub: nat)
    requires forall row :: row in level <==> row in items && row.parent == parent
    requires |built| == |level| && forall i :: 0 <= i < |level| ==> Built(built[i], level[i], items, sub)
    ensures var nodes := SortByKey(built, Priority);
      && |nodes| == |level|
      && SortedByKey(nodes, Priority)
      && (forall n :: n in nodes ==> exists row :: row in items && row.parent == parent && Built(n, row, items, sub))
      && (forall row :: row in items && row.parent == parent ==> exists n :: n in nodes && Built(n, row, items, sub))
  {
    var nodes := SortByKey(built, Priority);
    SortByKeyFacts(built, Priority);
    SortKeepsMembers(built, Priority);
    assert |nodes| == |multiset(nodes)| == |multiset(built)| == |built|;
    forall n | n in nodes ensures exists row :: row in items && row.parent == parent && Built(n, row, items, sub) {
      var i :| 0 <= i < |built| && built[i] == n;
      assert level[i] in level;
    }
    forall row | row in items && row.parent == parent ensures exists n :: n in nodes && Built(n, row, items, sub) {
      var i :| 0 <= i < |level| && level[i] == row;
      assert built[i] in built;
    }
  }

  /** The children of a built node are unset exactly when no row names the node as parent. */
  lemma BuiltChildrenUnset(node: ObjectNode, row: ObjectRow, items: seq<ObjectRow>, fuel: nat)
    requires Built(node, row, items, fuel)
    ensures fuel > 0
    ensures node.children.None? <==> forall r :: r in items ==> r.parent != ParentId(row.id)
  {
    var sub := BuildTree(items, ParentId(row.id), fuel);
    assert sub.Some? && node.children == (if sub.value == [] then None else Some(sub.value));
    BuildTreeLength(items, ParentId(row.id), fuel);
    LevelEmpty(items, ParentOf, ParentId(row.id));
  }

  /** A level of the tree has one node per row of that level. */
  lemma BuildTreeLength(items: seq<ObjectRow>, parent: ParentRef, fuel: nat)
    requires BuildTree(items, parent, fuel).Some?
    ensures |BuildTree(items, parent, fuel).value| == |Level(items, ParentOf, parent)|
  {
    BuildTreeFacts(items, parent, fuel);
  }

  /**
   * The children of a built node, when set, are the whole next level: one
   * child per row naming the node as parent, sorted by `priority`. Each
   * child is itself built from its row, so the lemma applies again to it,
   * at every depth of the tree.
   */
  lemma BuiltChildren(node: ObjectNode, row: ObjectRow, items: seq<ObjectRow>, fuel: nat)
    requires Built(node, row, items, fuel) && node.children.Some?
    ensures fuel > 0
    ensures var kids := node.children.value;
      && |kids| == |Level(items, ParentOf, ParentId(row.id))|
      && SortedByKey(kids, Priority)
      && (forall n :: n in kids ==> exists r :: r in items && r.parent == ParentId(row.id) && Built(n, r, items, fuel - 1))
      && (forall r :: r in items && r.parent == ParentId(row.id) ==> exists n :: n in kids && Built(n, r, items, fuel - 1))
  {
    var sub := BuildTree(items, ParentId(row.id), fuel);
    assert sub.Some? && node.children == Some(sub.value);
    BuildTreeFacts(items, ParentId(row.id), fuel);
  }

  /** Why `POST /` rejects a new object. */
  datatype PostError = MissingProjectOrName | NoSelectors

  /** The fields of the request body the checks read; a missing one is `None`. */
  datatype ObjectBody = ObjectBody(projectId: Option<Json>, name: Option<Json>, selectors: Option<Json>)

  /** `Array.isArray(selectors) && selectors.length > 0`. */
  predicate NonEmptyArray(v: Option<Json>)
  {
    v.Some? && v.value.JArr? && v.value.items != []
  }

  /** The checks of `POST /` before the insert; `None` lets the body through. */
  function ValidatePost(body: ObjectBody): (r: Option<PostError>)
    ensures r == Some(MissingProjectOrName) <==> !JsonTruthy(body.projectId) || !JsonTruthy(body.name)
    ensures r == Some(NoSelectors) <==> JsonTruthy(body.projectId) && JsonTruthy(body.name) && !NonEmptyArray(body.selectors)
  {
    if !JsonTruthy(body.projectId) || !JsonTruthy(body.name) then Some(MissingProjectOrName)
    else if !JsonTruthy(body.selectors) || !body.selectors.value.JArr? || body.selectors.value.items == [] then Some(NoSelectors)
    else None
  }

  /** An accepted body has a project, a name and at least one selector in an array. */
  lemma AcceptedPost(body: ObjectBody)
    requires ValidatePost(body).None?
    ensures JsonTruthy(body.projectId) && JsonTruthy(body.name)
    ensures body.selectors.Some? && body.selectors.value.JArr? && |body.selectors.value.items| >= 1
  {
  }
}
