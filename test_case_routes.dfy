/**
 * The test-case routes of the server (`server/routes/testCases.js`): the
 * folder/test-case tree returned for a project, and the checks on the body
 * of a new test case.
 * The SQL queries are not modelled: the rows they return and the set of
 * test-case ids with an active script are parameters. `buildTree` recurses
 * once per level of the parent chain; the model bounds that recursion by a
 * `fuel` argument and yields `None` when it runs out, which is what a
 * cyclic parent chain does to the source (it recurses without end).
 */
module TestCaseRoutes {
  import opened JsStrings
  import opened JsonValues
  import opened KeySort

  /** A row of `test_cases`, as far as the tree reads it. */
  datatype TestCaseRow = TestCaseRow(
    id: int,
    parent: ParentRef,
    name: JsStr,
    description: JsStr,
    kind: JsStr,
    status: JsStr,
    orderIndex: int,
    steps: StoredText,
    tags: StoredText)

  /**
   * A tree node; `steps` and `tags` are set on test cases only, and
   * `children` only when there are some.
   */
  datatype TestCaseNode = TestCaseNode(
    id: int,
    name: JsStr,
    description: JsStr,
    kind: JsStr,
    status: JsStr,
    hasScript: bool,
    orderIndex: int,
    steps: Option<Json>,
    tags: Option<Json>,
    children: Option<seq<TestCaseNode>>)

  /** The `parent_id` the tree filters on. */
  function ParentOf(row: TestCaseRow): ParentRef
  {
    row.parent
  }

  /** The sort key `a.order_index - b.order_index`. */
  function OrderIndex(n: TestCaseNode): int
  {
    n.orderIndex
  }

  /** Every node of `nodes` comes from a row with parent `parent`. */
  ghost predicate Placed(nodes: seq<TestCaseNode>, items: seq<TestCaseRow>, parent: ParentRef)
  {
    forall n :: n in nodes ==> exists row :: row in items && row.parent == parent && n.id == row.id
  }

  /**
   * `node` is the node the `map` callback builds for `row`: the copied
   * fields, the script flag, the parsed steps and tags of a test case, and
   * as children the tree built under `row` with `fuel`, left unset
   * when it is empty.
   */
  ghost predicate Built(node: TestCaseNode, row: TestCaseRow, items: seq<TestCaseRow>, scripts: set<int>, fuel: nat)
    decreases fuel, 1, 1
  {
    && node.id == row.id && node.name == row.name && node.description == row.description
    && node.kind == row.kind && node.status == row.status && node.orderIndex == row.orderIndex
    && node.hasScript == (row.id in scripts)
    && (node.steps.Some? <==> row.kind == Some("test_case"))
    && (node.steps.Some? ==> node.steps.value == ParseStored(row.steps) && node.tags == Some(ParseStored(row.tags)))
    && (row.kind != Some("test_case") ==> node.tags.None?)
    && var sub := BuildTree(items, ParentId(row.id), scripts, fuel);
       sub.Some? && node.children == (if sub.value == [] then None else Some(sub.value))
  }

  /** `buildTree(items, parentId, scriptsMap)`. */
  function BuildTree(items: seq<TestCaseRow>, parent: ParentRef, scripts: set<int>, fuel: nat): (r: Option<seq<TestCaseNode>>)
    ensures r.Some? ==> Placed(r.value, items, parent)
    decreases fuel, 1, 0
  {
    if fuel == 0 then None
    else
      var level := Level(items, ParentOf, parent);
      var nodes := BuildNodes(items, level, scripts, fuel - 1);
      if nodes.None? then None
      else
        LevelMembers(items, ParentOf, parent);
        SortKeepsMembers(nodes.value, OrderIndex);
        assert forall n :: n in SortByKey(nodes.value, OrderIndex) ==> n in nodes.value;
        Some(SortByKey(nodes.value, OrderIndex))
  }

  /** The `map` over one level, before the sort. */
  function BuildNodes(items: seq<TestCaseRow>, level: seq<TestCaseRow>, scripts: set<int>, fuel: nat): (r: Option<seq<TestCaseNode>>)
    ensures r.Some? ==> |r.value| == |level| && forall i :: 0 <= i < |level| ==> Built(r.value[i], level[i], items, scripts, fuel)
    decreases fuel, 2, |level|
  {
    if level == [] then Some([])
    else
      var front := BuildNodes(items, level[..|level| - 1], scripts, fuel);
      var row := level[|level| - 1];
      var children := BuildTree(items, ParentId(row.id), scripts, fuel);
      if front.None? || children.None? then None
      else
        var isCase := row.kind == Some("test_case");
        var node := TestCaseNode(
          row.id, row.name, row.description, row.kind, row.status, row.id in scripts, row.orderIndex,
          if isCase then Some(ParseStored(row.steps)) else None,
          if isCase then Some(ParseStored(row.tags)) else None,
          if children.value == [] then None else Some(children.value));
        Some(front.value + [node])
  }

  /**
   * The nodes of a level are the rows whose `parent_id` is exactly the
   * parent asked for (so with `null`, exactly the rows whose `parent_id` is
   * `null`, not those where it is missing), one node per row, sorted by
   * `order_index`; each node is built from its row.
   */
  lemma BuildTreeFacts(items: seq<TestCaseRow>, parent: ParentRef, scripts: set<int>, fuel: nat)
    requires BuildTree(items, parent, scripts, fuel).Some?
    ensures var nodes := BuildTree(items, parent, scripts, fuel).value;
      && |nodes| == |Level(items, ParentOf, parent)|
      && SortedByKey(nodes, OrderIndex)
      && (forall n :: n in nodes ==> exists row :: row in items && row.parent == parent && Built(n, row, items, scripts, fuel - 1))
      && (forall row :: row in items && row.parent == parent ==> exists n :: n in nodes && Built(n, row, items, scripts, fuel - 1))
  {
    var level := Level(items, ParentOf, parent);
    var built := BuildNodes(items, level, scripts, fuel - 1).value;
    assert BuildTree(items, parent, scripts, fuel).value == SortByKey(built, OrderIndex);
    LevelMembers(items, ParentOf, parent);
    SortedLevel(items, parent, scripts, level, built, fuel - 1);
  }

  /** `BuildTreeFacts` for the sorted `map` of a level. */
  lemma SortedLevel(items: seq<TestCaseRow>, parent: ParentRef, scripts: set<int>, level: seq<TestCaseRow>, built: seq<TestCaseNode>, sub: nat)
    requires forall row :: row in level <==> row in items && row.parent == parent
    requires |built| == |level| && forall i :: 0 <= i < |level| ==> Built(built[i], level[i], items, scripts, sub)
    ensures var nodes := SortByKey(built, OrderIndex);
      && |nodes| == |level|
      && SortedByKey(nodes, OrderIndex)
      && (forall n :: n in nodes ==> exists row :: row in items && row.parent == parent && Built(n, row, items, scripts, sub))
      && (forall row :: row in items && row.parent == parent ==> exists n :: n in nodes && Built(n, row, items, scripts, sub))
  {
    var nodes := SortByKey(built, OrderIndex);
    SortByKeyFacts(built, OrderIndex);
    SortKeepsMembers(built, OrderIndex);
    assert |nodes| == |multiset(nodes)| == |multiset(built)| == |built|;
    forall n | n in nodes ensures exists row :: row in items && row.parent == parent && Built(n, row, items, scripts, sub) {
      var i :| 0 <= i < |built| && built[i] == n;
      assert level[i] in level;
    }
    forall row | row in items && row.parent == parent ensures exists n :: n in nodes && Built(n, row, items, scripts, sub) {
      var i :| 0 <= i < |level| && level[i] == row;
      assert built[i] in built;
    }
  }
  /** The children of a built node are unset exactly when no row names the node as parent. */
  lemma BuiltChildrenUnset(node: TestCaseNode, row: TestCaseRow, items: seq<TestCaseRow>, scripts: set<int>, fuel: nat)
    requires Built(node, row, items, scripts, fuel)
    ensures fuel > 0
    ensures node.children.None? <==> forall r :: r in items ==> r.parent != ParentId(row.id)
  {
    var sub := BuildTree(items, ParentId(row.id), scripts, fuel);
    assert sub.Some? && node.children == (if sub.value == [] then None else Some(sub.value));
    BuildTreeLength(items, ParentId(row.id), scripts, fuel);
    LevelEmpty(items, ParentOf, ParentId(row.id));
  }

  /** A level of the tree has one node per row of that level. */
  lemma BuildTreeLength(items: seq<TestCaseRow>, parent: ParentRef, scripts: set<int>, fuel: nat)
    requires BuildTree(items, parent, scripts, fuel).Some?
    ensures |BuildTree(items, parent, scripts, fuel).value| == |Level(items, ParentOf, parent)|
  {
    BuildTreeFacts(items, parent, scripts, fuel);
  }

  /**
   * The children of a built node, when set, are the whole next level: one
   * child per row naming the node as parent, sorted by `order_index`. Each
   * child is itself built from its row, so the lemma applies again to it,
   * at every depth of the tree.
   */
  lemma BuiltChildren(node: TestCaseNode, row: TestCaseRow, items: seq<TestCaseRow>, scripts: set<int>, fuel: nat)
    requires Built(node, row, items, scripts, fuel) && node.children.Some?
    ensures fuel > 0
    ensures var kids := node.children.value;
      && |kids| == |Level(items, ParentOf, ParentId(row.id))|
      && SortedByKey(kids, OrderIndex)
      && (forall n :: n in kids ==> exists r :: r in items && r.parent == ParentId(row.id) && Built(n, r, items, scripts, fuel - 1))
      && (forall r :: r in items && r.parent == ParentId(row.id) ==> exists n :: n in kids && Built(n, r, items, scripts, fuel - 1))
  {
    var sub := BuildTree(items, ParentId(row.id), scripts, fuel);
    assert sub.Some? && node.children == Some(sub.value);
    BuildTreeFacts(items, ParentId(row.id), scripts, fuel);
  }


  /** Why `POST /` rejects a new test case. */
  datatype PostError = MissingProjectOrName | MissingSteps

  /** The fields of the request body the checks read; a missing one is `None`. */
  datatype TestCaseBody = TestCaseBody(projectId: Option<Json>, name: Option<Json>, kind: Option<Json>, steps: Option<Json>)

  /** The checks of `POST /` before the insert; `None` lets the body through. */
  function ValidatePost(body: TestCaseBody): (r: Option<PostError>)
    ensures r == Some(MissingProjectOrName) <==> !JsonTruthy(body.projectId) || !JsonTruthy(body.name)
    ensures r == Some(MissingSteps) <==> JsonTruthy(body.projectId) && JsonTruthy(body.name) && body.kind == Some(JStr("test_case")) && !JsonTruthy(body.steps)
  {
    if !JsonTruthy(body.projectId) || !JsonTruthy(body.name) then Some(MissingProjectOrName)
    else if body.kind == Some(JStr("test_case")) && !JsonTruthy(body.steps) then Some(MissingSteps)
    else None
  }

  /**
   * An accepted body has a project and a name, and a test case among them
   * has steps; a folder needs none.
   */
  lemma AcceptedPost(body: TestCaseBody)
    requires ValidatePost(body).None?
    ensures JsonTruthy(body.projectId) && JsonTruthy(body.name)
    ensures body.kind == Some(JStr("test_case")) ==> JsonTruthy(body.steps)
  {
  }
}
