/** What each operator of the filter grammar means, kind by kind: db/memdb/filter.go. */
module Operators {
  import opened Wrappers
  import opened Strings
  import opened JsonValue
  import opened MemFilter

  /** The six comparisons in terms of one order: the operand is equal, the stored value is below, above. */
  predicate Compares(stored: Json, operand: Json, equal: bool, below: bool, above: bool) {
    && (OperatorHolds(Some(stored), "$eq", operand) <==> equal)
    && (OperatorHolds(Some(stored), "$ne", operand) <==> !equal)
    && (OperatorHolds(Some(stored), "$lt", operand) <==> below)
    && (OperatorHolds(Some(stored), "$lte", operand) <==> below || equal)
    && (OperatorHolds(Some(stored), "$gt", operand) <==> above)
    && (OperatorHolds(Some(stored), "$gte", operand) <==> above || equal)
  }

  lemma NumbersCompare(x: real, y: real)
    ensures Compares(JNum(x), JNum(y), x == y, x < y, x > y)
  {
  }

  /** Strings compare byte by byte, and exactly one of the three holds. */
  lemma StringsCompare(a: string, b: string)
    ensures Compares(JStr(a), JStr(b), a == b, Less(a, b), Less(b, a))
  {
    LessTrichotomy(a, b);
  }

  lemma BooleansCompare(a: bool, b: bool)
    ensures Compares(JBool(a), JBool(b), a == b, !a && b, a && !b)
  {
  }

  /** Values of two kinds, and whole objects and arrays, are never equal and never ordered. */
  lemma KindsApart(stored: Json, operand: Json)
    requires !operand.JNull? && (!SameKind(stored, operand) || Composite(stored))
    ensures Compares(stored, operand, false, false, false)
  {
  }

  /** Null equals a stored null and an absent key, and orders with nothing. */
  lemma NullRule(stored: Option<Json>)
    ensures OperatorHolds(stored, "$eq", JNull) <==> stored == None || stored == Some(JNull)
    ensures OperatorHolds(stored, "$ne", JNull) <==> stored != None && stored != Some(JNull)
    ensures forall op | op in {"$lt", "$lte", "$gt", "$gte"} :: !OperatorHolds(stored, op, JNull)
  {
  }

  /** An absent key equals nothing but null, differs from everything else, and is never ordered. */
  lemma AbsentRule(operand: Json)
    requires !operand.JNull?
    ensures !OperatorHolds(None, "$eq", operand) && OperatorHolds(None, "$ne", operand)
    ensures forall op | op in {"$lt", "$lte", "$gt", "$gte"} :: !OperatorHolds(None, op, operand)
  {
  }

  /** $in is some $eq, $nin is none; over what is no list $in never holds and $nin always does. */
  lemma ListRule(stored: Option<Json>, operand: Json)
    ensures OperatorHolds(stored, "$in", operand)
       <==> operand.JArr? && exists w | w in operand.items :: OperatorHolds(stored, "$eq", w)
    ensures OperatorHolds(stored, "$nin", operand) <==> !OperatorHolds(stored, "$in", operand)
  {
    if operand.JArr? {
      forall w | w in operand.items ensures OperatorHolds(stored, "$eq", w) <==> EqualTo(stored, w) {
      }
    }
  }

  /** $exists true asks for the key, a stored null included; anything else asks for its absence. */
  lemma ExistsRule(stored: Option<Json>, operand: Json)
    ensures OperatorHolds(stored, "$exists", operand) <==> ((operand == JBool(true)) <==> stored != None)
  {
  }

  /** A path holding a value is $eq; one operator is that operator, at the path split at dots. */
  lemma FieldRule(doc: Json, path: string, operand: Json)
    requires !HasPrefix(path, "$")
    ensures !IsOperators(operand) ==>
              (Matches(doc, JObj(map[path := operand])) <==> OperatorHolds(Lookup(doc, Split(path)), "$eq", operand))
    ensures forall op | HasPrefix(op, "$") ::
              Matches(doc, JObj(map[path := JObj(map[op := operand])]))
              <==> OperatorHolds(Lookup(doc, Split(path)), op, operand)
  {
    assert JObj(map[path := operand]).fields[path] == operand;
    forall op | HasPrefix(op, "$")
      ensures Matches(doc, JObj(map[path := JObj(map[op := operand])]))
         <==> OperatorHolds(Lookup(doc, Split(path)), op, operand)
    {
      OneOperator(doc, path, op, operand);
    }
  }

  lemma OneOperator(doc: Json, path: string, op: string, operand: Json)
    requires !HasPrefix(path, "$") && HasPrefix(op, "$")
    ensures Matches(doc, JObj(map[path := JObj(map[op := operand])]))
       <==> OperatorHolds(Lookup(doc, Split(path)), op, operand)
  {
    var condition := JObj(map[op := operand]);
    assert op in condition.fields && IsOperators(condition);
    assert JObj(map[path := condition]).fields[path] == condition;
  }

  /** $and is every branch and $or is some branch; an empty $and holds, an empty $or does not. */
  lemma BranchRule(doc: Json, branches: seq<Json>)
    requires forall b | b in branches :: b.JObj?
    ensures Matches(doc, JObj(map["$and" := JArr(branches)])) <==> forall b | b in branches :: Matches(doc, b)
    ensures Matches(doc, JObj(map["$or" := JArr(branches)])) <==> exists b | b in branches :: Matches(doc, b)
  {
    var all, any := JObj(map["$and" := JArr(branches)]), JObj(map["$or" := JArr(branches)]);
    assert all.fields["$and"] == JArr(branches) && any.fields["$or"] == JArr(branches);
  }

  /** The keys of a filter are and-ed. */
  lemma KeysRule(doc: Json, a: map<string, Json>, b: map<string, Json>)
    requires a.Keys !! b.Keys
    ensures Matches(doc, JObj(a + b)) <==> Matches(doc, JObj(a)) && Matches(doc, JObj(b))
  {
    assert forall k | k in a :: (a + b)[k] == a[k];
    assert forall k | k in b :: (a + b)[k] == b[k];
    assert forall k | k in a + b :: k in a || k in b;
  }
}
