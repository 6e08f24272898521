/** JSON values as encoding/json decodes them, and path lookup. */
module JsonValue {
  import opened Wrappers

  datatype Json =
    | JNull
    | JBool(b: bool)
    | JNum(n: real)
    | JStr(s: string)
    | JArr(items: seq<Json>)
    | JObj(fields: map<string, Json>)

  predicate Composite(j: Json) {
    j.JArr? || j.JObj?
  }

  /** Same JSON type. */
  predicate SameKind(a: Json, b: Json) {
    || (a.JNull? && b.JNull?)
    || (a.JBool? && b.JBool?)
    || (a.JNum? && b.JNum?)
    || (a.JStr? && b.JStr?)
    || (a.JArr? && b.JArr?)
    || (a.JObj? && b.JObj?)
  }

  /** The value a path of object keys leads to; absent is not the same as a stored null. */
  function Lookup(node: Json, path: seq<string>): Option<Json> {
    if path == [] then Some(node)
    else if node.JObj? && path[0] in node.fields then Lookup(node.fields[path[0]], path[1..])
    else None
  }
}
