/** Which filters compile: the grammar of db/db.go, and the two compilers against it. */
module Grammar {
  import opened Wrappers
  import opened Strings
  import opened JsonValue
  import opened MemFilter
  import opened Sql
  import opened Clause

  // ---------- the grammar ----------

  const FIELD_OPERATORS := {"$eq", "$ne", "$in", "$nin", "$gt", "$gte", "$lt", "$lte", "$exists"}

  predicate Dollar(key: string) {
    key != "" && key[0] == '$'
  }

  /** A path is the id, or identifiers joined by dots. */
  predicate PathSpelled(path: string) {
    path == "id" || forall s | s in Split(path) :: Identifier(s)
  }

  /** One of the nine operators; a list for $in and $nin, in SQLite one of scalars. */
  predicate OperatorSpelled(d: Dialect, op: string, operand: Json) {
    && op in FIELD_OPERATORS
    && (op == "$in" || op == "$nin" ==>
          operand.JArr? && (d.Sqlite? ==> forall v | v in operand.items :: !v.JArr? && !v.JObj?))
  }

  /** A condition with a dollar key holds operators only; any other is a value. */
  predicate ConditionSpelled(d: Dialect, condition: Json) {
    condition.JObj? && (exists k | k in condition.fields :: Dollar(k)) ==>
      forall op | op in condition.fields :: OperatorSpelled(d, op, condition.fields[op])
  }

  predicate Spelled(d: Dialect, where: Json)
    requires where.JObj?
    decreases where, 1
  {
    forall key | key in where.fields :: KeySpelled(d, key, where.fields[key])
  }

  /** $and and $or take lists of filters; no other key has a dollar. */
  predicate KeySpelled(d: Dialect, key: string, value: Json)
    decreases value, 2
  {
    if key == "$and" || key == "$or" then
      value.JArr? && forall b | b in value.items :: b.JObj? && Spelled(d, b)
    else !Dollar(key) && PathSpelled(key) && ConditionSpelled(d, value)
  }

  /** What an error names is no part of the grammar. */
  predicate Blamed(d: Dialect, e: Error) {
    match e
    case BadIdentifier(s) => !Identifier(s)
    case UnsupportedOperator(op) => op !in FIELD_OPERATORS
    case UnsupportedKey(key) => Dollar(key) && key != "$and" && key != "$or"
    case ListExpected(op) => op == "$in" || op == "$nin"
    case ScalarsOnly(op) => d.Sqlite? && (op == "$in" || op == "$nin")
    case _ => true
  }

  /** SQLite's grammar is the narrower one. */
  lemma {:induction false} SpelledInBoth(where: Json)
    requires where.JObj? && Spelled(Sqlite, where)
    ensures Spelled(Postgres, where)
    decreases where, 1
  {
    forall key | key in where.fields ensures KeySpelled(Postgres, key, where.fields[key]) {
      KeySpelledInBoth(key, where.fields[key]);
    }
  }

  lemma {:induction false} KeySpelledInBoth(key: string, value: Json)
    requires KeySpelled(Sqlite, key, value)
    ensures KeySpelled(Postgres, key, value)
    decreases value, 2
  {
    if key == "$and" || key == "$or" {
      forall b | b in value.items ensures Spelled(Postgres, b) {
        SpelledInBoth(b);
      }
    } else if value.JObj? {
      forall op | op in value.fields && OperatorSpelled(Sqlite, op, value.fields[op])
        ensures OperatorSpelled(Postgres, op, value.fields[op])
      {
      }
    }
  }

  // ---------- the compilers ----------

  lemma {:induction false} FirstBadExact(segments: seq<string>)
    ensures FirstBad(segments).None? <==> forall s | s in segments :: Identifier(s)
    ensures FirstBad(segments).Some? ==> !Identifier(FirstBad(segments).value)
  {
    if segments != [] {
      FirstBadExact(segments[1..]);
      assert forall s :: s in segments <==> s == segments[0] || s in segments[1..];
    }
  }

  lemma TargetExact(d: Dialect, promoted: map<string, Column>, path: string)
    ensures TargetOf(promoted, path).Ok? <==> PathSpelled(path)
    ensures TargetOf(promoted, path).Err? ==> Blamed(d, TargetOf(promoted, path).error)
  {
    FirstBadExact(Split(path));
  }

  lemma OperatorExact(d: Dialect, t: Target, op: string, operand: Json)
    ensures OperatorClause(d, t, op, operand).Ok? <==> OperatorSpelled(d, op, operand)
    ensures OperatorClause(d, t, op, operand).Err? ==> Blamed(d, OperatorClause(d, t, op, operand).error)
  {
    if op == OP_IN || op == OP_NIN {
      MembershipExact(d, t, op, operand);
    }
  }

  lemma MembershipExact(d: Dialect, t: Target, op: string, operand: Json)
    requires op == "$in" || op == "$nin"
    ensures Membership(d, t, op, operand).Ok? <==> OperatorSpelled(d, op, operand)
    ensures Membership(d, t, op, operand).Err? ==> Blamed(d, Membership(d, t, op, operand).error)
  {
  }

  lemma {:induction false} OperatorsExact(d: Dialect, t: Target, condition: Json, ops: seq<string>)
    requires condition.JObj? && forall op | op in ops :: op in condition.fields
    ensures OperatorClauses(d, t, condition, ops).Ok?
       <==> forall op | op in ops :: OperatorSpelled(d, op, condition.fields[op])
    ensures OperatorClauses(d, t, condition, ops).Err? ==> Blamed(d, OperatorClauses(d, t, condition, ops).error)
  {
    if ops != [] {
      OperatorExact(d, t, ops[0], condition.fields[ops[0]]);
      OperatorsExact(d, t, condition, ops[1..]);
      assert forall op :: op in ops <==> op == ops[0] || op in ops[1..];
    }
  }

  lemma DollarIs(key: string)
    ensures HasPrefix(key, "$") <==> Dollar(key)
  {
  }

  lemma OperatorsAre(condition: Json)
    ensures IsOperators(condition) <==> condition.JObj? && exists k | k in condition.fields :: Dollar(k)
  {
    if condition.JObj? {
      forall k | k in condition.fields ensures HasPrefix(k, "$") <==> Dollar(k) {
        DollarIs(k);
      }
    }
  }

  lemma FieldExact(d: Dialect, promoted: map<string, Column>, path: string, condition: Json)
    ensures FieldClause(d, promoted, path, condition).Ok? <==> PathSpelled(path) && ConditionSpelled(d, condition)
    ensures FieldClause(d, promoted, path, condition).Err? ==>
              Blamed(d, FieldClause(d, promoted, path, condition).error)
  {
    TargetExact(d, promoted, path);
    OperatorsAre(condition);
    if TargetOf(promoted, path).Ok? && IsOperators(condition) {
      OperatorsExact(d, TargetOf(promoted, path).value, condition, Sorted(condition.fields.Keys));
    }
  }

  /**
   * A filter compiles if and only if it is in the grammar, at every depth, in both dialects and
   * whatever is promoted; and what an error names is not in it.
   */
  lemma {:induction false} CompilesExact(d: Dialect, promoted: map<string, Column>, where: Json)
    requires where.JObj?
    ensures Compiled(d, promoted, where).Ok? <==> Spelled(d, where)
    ensures Compiled(d, promoted, where).Err? ==> Blamed(d, Compiled(d, promoted, where).error)
    decreases where, 4, 0
  {
    if where.fields != map[] {
      ClausesExact(d, promoted, where, Sorted(where.fields.Keys));
    }
  }

  lemma {:induction false} ClausesExact(d: Dialect, promoted: map<string, Column>, where: Json, keys: seq<string>)
    requires where.JObj? && forall key | key in keys :: key in where.fields
    ensures Clauses(d, promoted, where, keys).Ok? <==> forall key | key in keys :: KeySpelled(d, key, where.fields[key])
    ensures Clauses(d, promoted, where, keys).Err? ==> Blamed(d, Clauses(d, promoted, where, keys).error)
    decreases where, 3, |keys|
  {
    if keys != [] {
      KeyExact(d, promoted, keys[0], where.fields[keys[0]]);
      ClausesExact(d, promoted, where, keys[1..]);
      assert forall k :: k in keys <==> k == keys[0] || k in keys[1..];
    }
  }

  lemma {:induction false} KeyExact(d: Dialect, promoted: map<string, Column>, key: string, value: Json)
    ensures KeyClause(d, promoted, key, value).Ok? <==> KeySpelled(d, key, value)
    ensures KeyClause(d, promoted, key, value).Err? ==> Blamed(d, KeyClause(d, promoted, key, value).error)
    decreases value, 5, 0
  {
    if key == OP_AND || key == OP_OR {
      if value.JArr? && forall b | b in value.items :: b.JObj? {
        BranchesExact(d, promoted, value.items);
      }
    } else {
      DollarIs(key);
      FieldExact(d, promoted, key, value);
    }
  }

  lemma {:induction false} BranchesExact(d: Dialect, promoted: map<string, Column>, branches: seq<Json>)
    requires forall b | b in branches :: b.JObj?
    ensures BranchClauses(d, promoted, branches).Ok? <==> forall b | b in branches :: Spelled(d, b)
    ensures BranchClauses(d, promoted, branches).Err? ==> Blamed(d, BranchClauses(d, promoted, branches).error)
    decreases branches, 6, 0
  {
    if branches != [] {
      CompilesExact(d, promoted, branches[0]);
      BranchesExact(d, promoted, branches[1..]);
      assert forall b :: b in branches <==> b == branches[0] || b in branches[1..];
    }
  }
}
