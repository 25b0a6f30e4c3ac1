/**
 * JSON values as the server's route handlers see them: request bodies,
 * and the TEXT columns that hold JSON and are parsed back when a tree is
 * built. `JSON.parse` itself is not modelled: a stored text carries the
 * outcome of parsing it.
 */
module JsonValues {
  import opened JsStrings

  /** A JSON value; numbers are integers. */
  datatype Json =
    | JNull
    | JBool(b: bool)
    | JNum(n: int)
    | JStr(s: string)
    | JArr(items: seq<Json>)
    | JObj(fields: map<string, Json>)

  /** JavaScript truthiness of a property that may be missing (`None`). */
  predicate JsonTruthy(v: Option<Json>)
  {
    v.Some? &&
    match v.value
    case JNull => false
    case JBool(b) => b
    case JNum(n) => n != 0
    case JStr(s) => s != ""
    case JArr(_) => true
    case JObj(_) => true
  }

  /**
   * A TEXT column holding JSON: a falsy value (`NULL` or the empty text), or
   * a non-empty text with the outcome of `JSON.parse` on it (`None` when it
   * throws).
   */
  datatype StoredText = NoText | Text(parsed: Option<Json>)

  /** `try { field ? JSON.parse(field) : [] } catch { [] }`. */
  function ParseStored(t: StoredText): (r: Json)
    ensures t.NoText? || t == Text(None) ==> r == JArr([])
    ensures t.Text? && t.parsed.Some? ==> r == t.parsed.value
  {
    match t
    case NoText => JArr([])
    case Text(parsed) => if parsed.Some? then parsed.value else JArr([])
  }

  /**
   * The `parent_id` of a row: SQL `NULL`, a missing property, or an id.
   * Only `NULL` makes a row a root, since the filter compares with `===`.
   */
  datatype ParentRef = Null | Missing | ParentId(id: int)

  /** `items.filter(item => item.parent_id === parentId)`, for rows whose parent is `parentOf`. */
  function Level<R>(items: seq<R>, parentOf: R -> ParentRef, parent: ParentRef): seq<R>
  {
    if items == [] then []
    else Level(items[..|items| - 1], parentOf, parent) + (if parentOf(items[|items| - 1]) == parent then [items[|items| - 1]] else [])
  }

  /** A level holds exactly the rows with that parent. */
  lemma {:induction false} LevelMembers<R>(items: seq<R>, parentOf: R -> ParentRef, parent: ParentRef)
    ensures forall row :: row in Level(items, parentOf, parent) <==> row in items && parentOf(row) == parent
  {
    if items != [] {
      LevelMembers(items[..|items| - 1], parentOf, parent);
      assert items == items[..|items| - 1] + [items[|items| - 1]];
    }
  }

  /** A level is empty exactly when no row has that parent. */
  lemma LevelEmpty<R>(items: seq<R>, parentOf: R -> ParentRef, parent: ParentRef)
    ensures Level(items, parentOf, parent) == [] <==> forall row :: row in items ==> parentOf(row) != parent
  {
    LevelMembers(items, parentOf, parent);
    var level := Level(items, parentOf, parent);
    if level != [] {
      assert level[0] in level;
    }
  }
}
