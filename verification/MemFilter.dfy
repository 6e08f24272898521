/** The filter grammar and its direct evaluator: db/memdb/filter.go. */
module MemFilter {
  import opened Wrappers
  import opened Strings
  import opened JsonValue

  const OP_EQ := "$eq"
  const OP_NE := "$ne"
  const OP_IN := "$in"
  const OP_NIN := "$nin"
  const OP_GT := "$gt"
  const OP_GTE := "$gte"
  const OP_LT := "$lt"
  const OP_LTE := "$lte"
  const OP_EXISTS := "$exists"
  const OP_AND := "$and"
  const OP_OR := "$or"

  predicate Ordering(op: string) {
    op == OP_GT || op == OP_GTE || op == OP_LT || op == OP_LTE
  }

  /** What an ordering operator accepts of a three-way comparison. */
  predicate Accepts(op: string, order: int) {
    if op == OP_GT then order > 0
    else if op == OP_GTE then order >= 0
    else if op == OP_LT then order < 0
    else order <= 0
  }

  /** Three-way comparison of two scalars of one kind; anything else does not compare. */
  function Compare(a: Json, b: Json): Option<int> {
    match (a, b)
    case (JNum(x), JNum(y)) => Some(if x < y then -1 else if x > y then 1 else 0)
    case (JStr(x), JStr(y)) => Some(if x == y then 0 else if Less(x, y) then -1 else 1)
    case (JBool(x), JBool(y)) => Some(if x == y then 0 else if y then -1 else 1)
    case _ => None
  }

  /** Equality with Mongo's null rule: null matches a stored null and an absent key. */
  predicate EqualTo(stored: Option<Json>, operand: Json) {
    if operand.JNull? then stored.None? || stored.value.JNull?
    else stored.Some? && Compare(stored.value, operand) == Some(0)
  }

  /** list(): what $in and $nin iterate over. */
  function ListOf(operand: Json): seq<Json> {
    if operand.JArr? then operand.items else []
  }

  predicate OperatorHolds(stored: Option<Json>, op: string, operand: Json) {
    if op == OP_EQ then EqualTo(stored, operand)
    else if op == OP_NE then !EqualTo(stored, operand)
    else if op == OP_IN then exists c | c in ListOf(operand) :: EqualTo(stored, c)
    else if op == OP_NIN then forall c | c in ListOf(operand) :: !EqualTo(stored, c)
    else if Ordering(op) then
      stored.Some? && Compare(stored.value, operand).Some?
      && Accepts(op, Compare(stored.value, operand).value)
    else if op == OP_EXISTS then stored.Some? == (operand == JBool(true))
    else false
  }

  /** A condition is an operator object when any of its keys starts with a dollar. */
  predicate IsOperators(condition: Json) {
    condition.JObj? && exists k | k in condition.fields :: HasPrefix(k, "$")
  }

  predicate FieldMatches(doc: Json, path: string, condition: Json) {
    var stored := Lookup(doc, Split(path));
    if IsOperators(condition)
    then forall op | op in condition.fields :: OperatorHolds(stored, op, condition.fields[op])
    else EqualTo(stored, condition)
  }

  predicate Matches(doc: Json, where: Json)
    requires where.JObj?
    decreases where, 1
  {
    forall key | key in where.fields :: ClauseMatches(doc, key, where.fields[key])
  }

  /** One entry of a filter. Branches that are not filters are skipped, as branches() does. */
  predicate ClauseMatches(doc: Json, key: string, condition: Json)
    decreases condition, 2
  {
    if key == OP_AND then
      condition.JArr? ==>
        forall b | b in condition.items && b.JObj? :: Matches(doc, b)
    else if key == OP_OR then
      && condition.JArr?
      && exists b | b in condition.items && b.JObj? :: Matches(doc, b)
    else !HasPrefix(key, "$") && FieldMatches(doc, key, condition)
  }

  // ---------- the loops of the source ----------

  /** lookup(): walk one segment at a time with a moving node. */
  method Find(doc: Json, path: string) returns (found: Option<Json>)
    ensures found == Lookup(doc, Split(path))
  {
    var segments := Split(path);
    var node := doc;
    for i := 0 to |segments|
      invariant Lookup(doc, segments) == Lookup(node, segments[i..])
    {
      assert segments[i..][1..] == segments[i + 1..];
      if !node.JObj? || segments[i] !in node.fields {
        return None;
      }
      node := node.fields[segments[i]];
    }
    return Some(node);
  }

  method EvaluateField(doc: Json, path: string, condition: Json) returns (ok: bool)
    ensures ok == FieldMatches(doc, path, condition)
  {
    var stored := Find(doc, path);
    if !IsOperators(condition) {
      return EqualTo(stored, condition);
    }
    var rest := condition.fields.Keys;
    while rest != {}
      invariant rest <= condition.fields.Keys
      invariant forall op | op in condition.fields.Keys - rest :: OperatorHolds(stored, op, condition.fields[op])
      decreases |rest|
    {
      var op :| op in rest;
      if !OperatorHolds(stored, op, condition.fields[op]) {
        return false;
      }
      rest := rest - {op};
    }
    return true;
  }

  /** matches(): the keys of a filter in whatever order the map yields them. */
  method Evaluate(doc: Json, where: Json) returns (ok: bool)
    requires where.JObj?
    ensures ok == Matches(doc, where)
    decreases where
  {
    var rest := where.fields.Keys;
    while rest != {}
      invariant rest <= where.fields.Keys
      invariant forall key | key in where.fields.Keys - rest :: ClauseMatches(doc, key, where.fields[key])
      decreases |rest|
    {
      var key :| key in rest;
      var condition := where.fields[key];
      if key == OP_AND {
        if condition.JArr? {
          for i := 0 to |condition.items|
            invariant forall j | 0 <= j < i && condition.items[j].JObj? :: Matches(doc, condition.items[j])
          {
            if condition.items[i].JObj? {
              var branch := Evaluate(doc, condition.items[i]);
              if !branch {
                return false;
              }
            }
          }
        }
      } else if key == OP_OR {
        var hit := false;
        if condition.JArr? {
          for i := 0 to |condition.items|
            invariant hit <==> exists j | 0 <= j < i && condition.items[j].JObj? :: Matches(doc, condition.items[j])
          {
            if condition.items[i].JObj? {
              hit := Evaluate(doc, condition.items[i]);
              if hit {
                break;
              }
            }
          }
        }
        if !hit {
          return false;
        }
      } else {
        if HasPrefix(key, "$") {
          return false;
        }
        var field := EvaluateField(doc, key, condition);
        if !field {
          return false;
        }
      }
      rest := rest - {key};
    }
    return true;
  }
}
