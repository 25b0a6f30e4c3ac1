/**
 * The test-case tree of the Electron main process (`buildTree` in
 * `src/main/main.js`), built from the rows of the local `test_cases` table.
 * Unlike the server's tree it carries the project-wide test-case number and
 * orders siblings by it: numbered nodes first, by number, then the others
 * by `order_index` and then by id. The SQL queries are not modelled: the
 * rows and the set of test-case ids with a script are parameters. As in the
 * server's tree, the recursion is bounded by `fuel` and yields `None` when
 * it runs out, which is what a cyclic parent chain does to the source.
 */
module TcTree {
  import opened JsStrings
  import opened JsonValues
  import opened KeySort

  /** A row of the local `test_cases` table, as far as the tree reads it. */
  datatype TcRow = TcRow(
    id: int,
    parent: ParentRef,
    name: JsStr,
    description: JsStr,
    kind: JsStr,
    status: JsStr,
    orderIndex: int,
    tcNumber: Option<int>,
    steps: StoredText,
    tags: StoredText)

  /**
   * A tree node; `steps` and `tags` are set on test cases only, and
   * `children` only when there are some.
   */
  datatype TcNode = TcNode(
    id: int,
    name: JsStr,
    description: JsStr,
    kind: JsStr,
    status: JsStr,
    hasScript: bool,
    orderIndex: int,
    tcNumber: Option<int>,
    steps: Option<Json>,
    tags: Option<Json>,
    children: Option<seq<TcNode>>)

  /** The `parent_id` the tree filters on. */
  function ParentOf(row: TcRow): ParentRef
  {
    row.parent
  }

  /** A truthy test-case number: present and not 0. */
  predicate Numbered(n: Option<int>)
  {
    n.Some? && n.value != 0
  }

  /**
   * `item.tc_number || null`, replaced by the id for a test case without
   * one: every test case gets a number, a folder keeps its own or none.
   */
  function NodeNumber(row: TcRow): (r: Option<int>)
    ensures row.kind == Some("test_case") ==> r.Some?
    ensures Numbered(row.tcNumber) ==> r == row.tcNumber
    ensures !Numbered(row.tcNumber) && row.kind == Some("test_case") ==> r == Some(row.id)
    ensures r.Some? ==> Numbered(row.tcNumber) || row.kind == Some("test_case")
  {
    if Numbered(row.tcNumber) then row.tcNumber
    else if row.kind == Some("test_case") then Some(row.id)
    else None
  }

  /**
   * The sort comparator, as `compare(a, b) <= 0`: two numbered nodes by
   * number, a numbered node before an unnumbered one, and two unnumbered
   * nodes by `order_index` and then by id.
   */
  predicate TcBefore(a: TcNode, b: TcNode)
  {
    if Numbered(a.tcNumber) && Numbered(b.tcNumber) then a.tcNumber.value <= b.tcNumber.value
    else if Numbered(a.tcNumber) then true
    else if Numbered(b.tcNumber) then false
    else if a.orderIndex != b.orderIndex then a.orderIndex <= b.orderIndex
    else a.id <= b.id
  }

  /** The comparator is consistent: total and transitive. */
  lemma TcBeforeIsPreorder()
    ensures TotalPreorder(TcBefore)
  {
    forall a: TcNode, b: TcNode, c: TcNode | TcBefore(a, b) && TcBefore(b, c) ensures TcBefore(a, c) {
      if !Numbered(a.tcNumber) {
        assert !Numbered(b.tcNumber) && !Numbered(c.tcNumber);
      }
    }
  }

  /** Every node of `nodes` comes from a row with parent `parent`. */
  ghost predicate Placed(nodes: seq<TcNode>, items: seq<TcRow>, parent: ParentRef)
  {
    forall n :: n in nodes ==> exists row :: row in items && row.parent == parent && n.id == row.id
  }

  /**
   * `node` is the node the `map` callback builds for `row`: the copied
   * fields, the script flag, the number, the parsed steps and tags of a
   * test case, and as children the tree built
   * under `row` with `fuel`, left unset when it is empty.
   */
  ghost predicate Built(node: TcNode, row: TcRow, items: seq<TcRow>, scripts: set<int>, fuel: nat)
    decreases fuel, 1, 1
  {
    && node.id == row.id && node.name == row.name && node.description == row.description
    && node.kind == row.kind && node.status == row.status && node.orderIndex == row.orderIndex
    && node.hasScript == (row.id in scripts)
    && node.tcNumber == NodeNumber(row)
    && (node.steps.Some? <==> row.kind == Some("test_case"))
    && (node.steps.Some? ==> node.steps.value == ParseStored(row.steps) && node.tags == Some(ParseStored(row.tags)))
    && (row.kind != Some("test_case") ==> node.tags.None?)
    && var sub := BuildTree(items, ParentId(row.id), scripts, fuel);
       sub.Some? && node.children == (if sub.value == [] then None else Some(sub.value))
  }

  /** `buildTree(items, parentId, scriptsMap)`. */
  function BuildTree(items: seq<TcRow>, parent: ParentRef, scripts: set<int>, fuel: nat): (r: Option<seq<TcNode>>)
    ensures r.Some? ==> Placed(r.value, items, parent)
    decreases fuel, 1, 0
  {
    if fuel == 0 then None
    else
      var level := Level(items, ParentOf, parent);
      var nodes := BuildNodes(items, level, scripts, fuel - 1);
      if nodes.None? then None
      else
        LevelMembers(items, ParentOf, parent);
        TcBeforeIsPreorder();
        SortByMembers(nodes.value, TcBefore);
        assert forall n :: n in SortBy(nodes.value, TcBefore) ==> n in nodes.value;
        Some(SortBy(nodes.value, TcBefore))
  }

  /** The `map` over one level, before the sort. */
  function BuildNodes(items: seq<TcRow>, level: seq<TcRow>, scripts: set<int>, fuel: nat): (r: Option<seq<TcNode>>)
    ensures r.Some? ==> |r.value| == |level| && forall i :: 0 <= i < |level| ==> Built(r.value[i], level[i], items, scripts, fuel)
    decreases fuel, 2, |level|
  {
    if level == [] then Some([])
    else
      var front := BuildNodes(items, level[..|level| - 1], scripts, fuel);
      var row := level[|level| - 1];
      var children := BuildTree(items, ParentId(row.id), scripts, fuel);
      if front.None? || children.None? then None
      else
        var isCase := row.kind == Some("test_case");
        var node := TcNode(
          row.id, row.name, row.description, row.kind, row.status, row.id in scripts, row.orderIndex, NodeNumber(row),
          if isCase then Some(ParseStored(row.steps)) else None,
          if isCase then Some(ParseStored(row.tags)) else None,
          if children.value == [] then None else Some(children.value));
        Some(front.value + [node])
  }

  /**
   * The nodes of a level are the rows whose `parent_id` is exactly the
   * parent asked for, one node per row, each built from its row, and in
   * the comparator's order.
   */
  lemma BuildTreeFacts(items: seq<TcRow>, parent: ParentRef, scripts: set<int>, fuel: nat)
    requires BuildTree(items, parent, scripts, fuel).Some?
    ensures var nodes := BuildTree(items, parent, scripts, fuel).value;
      && |nodes| == |Level(items, ParentOf, parent)|
      && SortedBy(nodes, TcBefore)
      && (forall n :: n in nodes ==> exists row :: row in items && row.parent == parent && Built(n, row, items, scripts, fuel - 1))
      && (forall row :: row in items && row.parent == parent ==> exists n :: n in nodes && Built(n, row, items, scripts, fuel - 1))
  {
    var level := Level(items, ParentOf, parent);
    var built := BuildNodes(items, level, scripts, fuel - 1).value;
    assert BuildTree(items, parent, scripts, fuel).value == SortBy(built, TcBefore);
    LevelMembers(items, ParentOf, parent);
    SortedLevel(items, parent, scripts, level, built, fuel - 1);
  }

  /** `BuildTreeFacts` for the sorted `map` of a level. */
  lemma SortedLevel(items: seq<TcRow>, parent: ParentRef, scripts: set<int>, level: seq<TcRow>, built: seq<TcNode>, sub: nat)
    requires forall row :: row in level <==> row in items && row.parent == parent
    requires |built| == |level| && forall i :: 0 <= i < |level| ==> Built(built[i], level[i], items, scripts, sub)
    ensures var nodes := SortBy(built, TcBefore);
      && |nodes| == |level|
      && SortedBy(nodes, TcBefore)
      && (forall n :: n in nodes ==> exists row :: row in items && row.parent == parent && Built(n, row, items, scripts, sub))
      && (forall row :: row in items && row.parent == parent ==> exists n :: n in nodes && Built(n, row, items, scripts, sub))
  {
    var nodes := SortBy(built, TcBefore);
    TcBeforeIsPreorder();
    SortByFacts(built, TcBefore);
    SortByMembers(built, TcBefore);
    forall n | n in nodes ensures exists row :: row in items && row.parent == parent && Built(n, row, items, scripts, sub) {
      var i :| 0 <= i < |built| && built[i] == n;
      assert level[i] in level;
    }
    forall row | row in items && row.parent == parent ensures exists n :: n in nodes && Built(n, row, items, scripts, sub) {
      var i :| 0 <= i < |level| && level[i] == row;
      assert built[i] in built;
    }
  }
  /** The children of a built node are unset exactly when no row names the node as parent. */
  lemma BuiltChildrenUnset(node: TcNode, row: TcRow, items: seq<TcRow>, scripts: set<int>, fuel: nat)
    requires Built(node, row, items, scripts, fuel)
    ensures fuel > 0
    ensures node.children.None? <==> forall r :: r in items ==> r.parent != ParentId(row.id)
  {
    var sub := BuildTree(items, ParentId(row.id), scripts, fuel);
    assert sub.Some? && node.children == (if sub.value == [] then None else Some(sub.value));
    BuildTreeLength(items, ParentId(row.id), scripts, fuel);
    LevelEmpty(items, ParentOf, ParentId(row.id));
  }

  /** A level of the tree has one node per row of that level. */
  lemma BuildTreeLength(items: seq<TcRow>, parent: ParentRef, scripts: set<int>, fuel: nat)
    requires BuildTree(items, parent, scripts, fuel).Some?
    ensures |BuildTree(items, parent, scripts, fuel).value| == |Level(items, ParentOf, parent)|
  {
    BuildTreeFacts(items, parent, scripts, fuel);
  }

  /**
   * The children of a built node, when set, are the whole next level: one
   * child per row naming the node as parent, in the comparator's order. Each
   * child is itself built from its row, so the lemma applies again to it,
   * at every depth of the tree.
   */
  lemma BuiltChildren(node: TcNode, row: TcRow, items: seq<TcRow>, scripts: set<int>, fuel: nat)
    requires Built(node, row, items, scripts, fuel) && node.children.Some?
    ensures fuel > 0
    ensures var kids := node.children.value;
      && |kids| == |Level(items, ParentOf, ParentId(row.id))|
      && SortedBy(kids, TcBefore)
      && (forall n :: n in kids ==> exists r :: r in items && r.parent == ParentId(row.id) && Built(n, r, items, scripts, fuel - 1))
      && (forall r :: r in items && r.parent == ParentId(row.id) ==> exists n :: n in kids && Built(n, r, items, scripts, fuel - 1))
  {
    var sub := BuildTree(items, ParentId(row.id), scripts, fuel);
    assert sub.Some? && node.children == Some(sub.value);
    BuildTreeFacts(items, ParentId(row.id), scripts, fuel);
  }


  /**
   * In a level sorted by the comparator, numbered nodes come before
   * unnumbered ones and are ascending by number, and unnumbered ones are
   * ascending by `order_index` and then by id.
   */
  lemma SiblingOrder(nodes: seq<TcNode>)
    requires SortedBy(nodes, TcBefore)
    ensures forall i, j :: 0 <= i < j < |nodes| && Numbered(nodes[j].tcNumber) ==>
      Numbered(nodes[i].tcNumber) && nodes[i].tcNumber.value <= nodes[j].tcNumber.value
    ensures forall i, j :: 0 <= i < j < |nodes| && !Numbered(nodes[i].tcNumber) ==>
      && !Numbered(nodes[j].tcNumber)
      && (nodes[i].orderIndex < nodes[j].orderIndex || (nodes[i].orderIndex == nodes[j].orderIndex && nodes[i].id <= nodes[j].id))
  {
    forall i, j | 0 <= i < j < |nodes|
      ensures Numbered(nodes[j].tcNumber) ==> Numbered(nodes[i].tcNumber) && nodes[i].tcNumber.value <= nodes[j].tcNumber.value
      ensures !Numbered(nodes[i].tcNumber) ==> !Numbered(nodes[j].tcNumber)
      ensures !Numbered(nodes[i].tcNumber) ==>
        nodes[i].orderIndex < nodes[j].orderIndex || (nodes[i].orderIndex == nodes[j].orderIndex && nodes[i].id <= nodes[j].id)
    {
      assert TcBefore(nodes[i], nodes[j]);
    }
  }
}
