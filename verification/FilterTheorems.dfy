/** The promises of the filter grammar across the three backends. */
module FilterTheorems {
  import opened Wrappers
  import opened Strings
  import opened JsonValue
  import opened MemFilter
  import opened Sql
  import opened Clause
  import opened Grammar
  import opened FilterMeaning

  /**
   * A whole statement: the clause's parameters follow whatever the statement bound before it
   * (the SET clause of a bulk update) and precede whatever comes after (LIMIT, OFFSET). The
   * engine binds the placeholders, and the row is selected exactly when the evaluator accepts it.
   */
  lemma StatementSelects(s: Site, where: Json, before: seq<Param>, after: seq<Param>)
    requires s.Ready() && where.JObj? && Spelled(s.d, where) && FilterFits(s, where)
    ensures Compiled(s.d, s.promoted, where).Ok?
    ensures
      var c := Compiled(s.d, s.promoted, where).value;
      var clause := Number(s.d, c, |before| + 1);
      var bound := Bind(before + clause.1 + after, clause.0, if s.d.Sqlite? then |before| else 0);
      && bound.0 == c
      && (s.d.Sqlite? ==> bound.1 == |before| + |clause.1|)
      && (s.Truth(bound.0).True? <==> Matches(s.Doc(), where))
  {
    CompilesExact(s.d, s.promoted, where);
    var c := Compiled(s.d, s.promoted, where).value;
    var clause := Number(s.d, c, |before| + 1);
    assert (before + clause.1 + after)[|before|..|before| + |clause.1|] == clause.1;
    BindNumber(s.d, c, before + clause.1 + after, |before| + 1, if s.d.Sqlite? then |before| else 0);
    CompiledAgrees(s, where, c);
  }

  // ---------- one condition for every backend ----------

  /** The stored value and a scalar operand have one type; null is absence. */
  predicate Typed(promoted: map<string, Column>, doc: Json, path: string, operand: Json) {
    var stored := Lookup(doc, Split(path));
    && !Composite(operand)
    && (path == "id" ==> operand.JNull? || operand.JStr?)
    && (path != "id" && path in promoted ==> ColumnFits(promoted[path].typ, stored, operand))
    && (stored.None? || stored.value.JNull? || operand.JNull? || SameKind(stored.value, operand))
  }

  predicate OperatorTyped(promoted: map<string, Column>, doc: Json, path: string, op: string, operand: Json) {
    if op == OP_EXISTS then path != "id"
    else if op == OP_IN || op == OP_NIN then
      operand.JArr? ==> forall w | w in operand.items :: Typed(promoted, doc, path, w)
    else if Ordering(op) then
      && Typed(promoted, doc, path, operand)
      && !operand.JNull?
      && Lookup(doc, Split(path)) != Some(JNull)
    else Typed(promoted, doc, path, operand)
  }

  predicate FilterTyped(promoted: map<string, Column>, doc: Json, where: Json)
    requires where.JObj?
    decreases where, 1
  {
    forall key | key in where.fields :: KeyTyped(promoted, doc, key, where.fields[key])
  }

  predicate KeyTyped(promoted: map<string, Column>, doc: Json, key: string, condition: Json)
    decreases condition, 2
  {
    if key == OP_AND || key == OP_OR then
      condition.JArr? ==> forall b | b in condition.items && b.JObj? :: FilterTyped(promoted, doc, b)
    else if IsOperators(condition) then
      forall op | op in condition.fields :: OperatorTyped(promoted, doc, key, op, condition.fields[op])
    else Typed(promoted, doc, key, condition)
  }

  /** What the typing condition lets through: any operator on an absent key or a value of the operand's kind. */
  lemma SameKindIsTyped(promoted: map<string, Column>, doc: Json, path: string, op: string, operand: Json)
    requires path != "id" && path !in promoted && op in {"$eq", "$ne", "$gt", "$gte", "$lt", "$lte"}
    requires !operand.JNull? && !operand.JArr? && !operand.JObj?
    requires Lookup(doc, Split(path)).None? || SameKind(Lookup(doc, Split(path)).value, operand)
    ensures OperatorTyped(promoted, doc, path, op, operand)
  {
  }

  lemma TypedOperatorFits(s: Site, path: string, op: string, operand: Json)
    requires s.row.doc.JObj? && OperatorTyped(s.promoted, s.Doc(), path, op, operand)
    requires path == "id" ==> s.At(path).Some? && s.At(path).value.JStr?
    ensures OperatorFits(s, path, op, operand)
  {
  }

  lemma {:induction false} TypedFits(s: Site, where: Json)
    requires s.Ready() && where.JObj? && FilterTyped(s.promoted, s.Doc(), where)
    ensures FilterFits(s, where)
    decreases where, 1
  {
    forall key | key in where.fields ensures KeyFits(s, key, where.fields[key]) {
      TypedKeyFits(s, key, where.fields[key]);
    }
  }

  lemma {:induction false} TypedKeyFits(s: Site, key: string, condition: Json)
    requires s.Ready() && KeyTyped(s.promoted, s.Doc(), key, condition)
    ensures KeyFits(s, key, condition)
    decreases condition, 2
  {
    if key == OP_AND || key == OP_OR {
      if condition.JArr? {
        forall b | b in condition.items && b.JObj? ensures FilterFits(s, b) {
          TypedFits(s, b);
        }
      }
    } else if IsOperators(condition) {
      LookupPublic(s.row, key);
      forall op | op in condition.fields ensures OperatorFits(s, key, op, condition.fields[op]) {
        TypedOperatorFits(s, key, op, condition.fields[op]);
      }
    }
  }

  /** The rows a backend's clause selects. */
  ghost function Selected(d: Dialect, table: Table, rows: set<Row>, c: Closed): set<Row> {
    set r | r in rows && Holds(d, table, r, c).True?
  }

  /** One filter of the grammar, three backends, the same set of documents. */
  lemma SelectionsAgree(promoted: map<string, Column>, table: Table, rows: set<Row>, where: Json)
    requires where.JObj? && Spelled(Sqlite, where) && table.Serves(promoted)
    requires forall r | r in rows ::
               r.doc.JObj? && "id" !in r.doc.fields && FilterTyped(promoted, Public(r), where)
    ensures Compiled(Postgres, promoted, where).Ok? && Compiled(Sqlite, promoted, where).Ok?
    ensures
      var pg, lite := Compiled(Postgres, promoted, where).value, Compiled(Sqlite, promoted, where).value;
      && Selected(Postgres, table, rows, pg) == (set r | r in rows && r.doc.JObj? && Matches(Public(r), where))
      && Selected(Sqlite, table, rows, lite) == Selected(Postgres, table, rows, pg)
  {
    SpelledInBoth(where);
    CompilesExact(Postgres, promoted, where);
    CompilesExact(Sqlite, promoted, where);
    var pg, lite := Compiled(Postgres, promoted, where).value, Compiled(Sqlite, promoted, where).value;
    forall r | r in rows
      ensures Holds(Postgres, table, r, pg).True? <==> Matches(Public(r), where)
      ensures Holds(Sqlite, table, r, lite).True? <==> Matches(Public(r), where)
    {
      var inPg, inLite := Site(Postgres, promoted, table, r), Site(Sqlite, promoted, table, r);
      TypedFits(inPg, where);
      TypedFits(inLite, where);
      CompiledAgrees(inPg, where, pg);
      CompiledAgrees(inLite, where, lite);
    }
  }

  // ---------- the conditions are exact ----------

  /** On a document path an ordering operator agrees with the evaluator if and only if it fits. */
  lemma OrderingExact(s: Site, path: string, t: Target, op: string, w: Json)
    requires s.Ready() && TargetOf(s.promoted, path) == Ok(t) && !t.isColumn
    requires Ordering(op) && !Composite(w)
    ensures
      var agrees := s.Truth(Ordered(op, t.expr, Bound(s.d, t, w))).True? <==> OperatorHolds(s.At(path), op, w);
      agrees <==> OrderingFits(s, path, op, w)
  {
    TargetSees(s, path, t);
    OrderingPair(s, t, s.At(path), s.Text(path), s.Value(t.expr), w);
    OrderingMeans(s.At(path), op, w);
  }

  lemma OrderingMeans(stored: Option<Json>, op: string, w: Json)
    requires Ordering(op)
    ensures OperatorHolds(stored, op, w) <==>
            stored.Some? && Compare(stored.value, w).Some? && Accepts(op, Compare(stored.value, w).value)
  {
  }

  /** On a document path equality with a scalar agrees if and only if it fits. */
  lemma EqualityExact(s: Site, path: string, t: Target, w: Json)
    requires s.Ready() && TargetOf(s.promoted, path) == Ok(t) && !t.isColumn
    requires !Composite(w)
    ensures
      var agrees := s.Truth(Equality(s.d, t, w)).True? <==> EqualTo(s.At(path), w);
      agrees <==> EqualityFits(s, path, w)
  {
    TargetSees(s, path, t);
    if w.JNull? {
      NullAgrees(s, t, s.At(path), s.Text(path));
    }
  }

  /** Storage strips the id from the document, so $exists on id is always wrong in SQL. */
  lemma ExistsOnId(s: Site, t: Target, operand: Json, c: Closed)
    requires s.Ready() && TargetOf(s.promoted, "id") == Ok(t)
    requires OperatorClause(s.d, t, OP_EXISTS, operand) == Ok(c)
    ensures s.Truth(c).True? <==> !OperatorHolds(s.At("id"), OP_EXISTS, operand)
  {
    LookupPublic(s.row, "id");
  }

  /**
   * A whole-value comparison, which the evaluator never matches. Postgres compares the documents.
   * SQLite compares the text the row keeps with the operand's minified encoding.
   */
  lemma CompositeEquality(s: Site, path: string, t: Target, w: Json)
    requires s.Ready() && TargetOf(s.promoted, path) == Ok(t) && !t.isColumn && Composite(w)
    ensures !EqualTo(s.At(path), w)
    ensures
      var holds := s.Truth(Equality(s.d, t, w)).True?;
      holds <==> if s.d.Postgres? then s.At(path) == Some(w)
                 else s.At(path).Some? && s.Text(path) == s.table.encoded(w)
  {
    LookupPublic(s.row, path);
  }

  /**
   * When both texts can be read back, SQLite's comparison is the document comparison narrowed by
   * key order: it finds the operand only where the row keeps it in the encoder's own order.
   */
  lemma CompositeKeyOrder(s: Site, path: string, t: Target, w: Json, read: string -> Json)
    requires s.Ready() && TargetOf(s.promoted, path) == Ok(t) && !t.isColumn && Composite(w)
    requires s.d.Sqlite? && read(s.table.encoded(w)) == w
    requires s.At(path).Some? ==> read(s.Text(path)) == s.At(path).value
    ensures s.Truth(Equality(s.d, t, w)).True? <==>
            s.At(path) == Some(w) && s.Text(path) == s.table.encoded(w)
  {
    CompositeEquality(s, path, t, w);
  }

  // ---------- rows the backends disagree on ----------

  function OneField(path: string, j: Json): Json {
    JObj(map[path := j])
  }

  /** A stored null is below every number for jsonb, and below nothing for the evaluator. */
  lemma NullBelowNumber(s: Site)
    requires s == Site(Postgres, map[], s.table, Row("1", OneField("n", JNull)))
    ensures
      var where := OneField("n", OneField(OP_LT, JNum(5.0)));
      !Matches(s.Doc(), where)
      && s.Truth(Ordered(OP_LT, Path(["n"]), Operand(Encoded(JNum(5.0)), true))).True?
  {
    var where := OneField("n", OneField(OP_LT, JNum(5.0)));
    SplitPlain("n");
    LookupPublic(s.row, "n");
    assert Lookup(s.row.doc, ["n"]) == Lookup(JNull, ["n"][1..]);
    assert OP_LT in where.fields["n"].fields && HasPrefix(OP_LT, "$");
    OrderingMeans(Some(JNull), OP_LT, JNum(5.0));
    assert !FieldMatches(s.Doc(), "n", where.fields["n"]);
    assert !ClauseMatches(s.Doc(), "n", where.fields["n"]);
  }

  /** A stored true is 1 for SQLite. */
  lemma TrueIsOne(s: Site)
    requires s == Site(Sqlite, map[], s.table, Row("1", OneField("b", JBool(true))))
    ensures
      var where := OneField("b", JNum(1.0));
      !Matches(s.Doc(), where)
      && s.Truth(Equal(Path(["b"]), Operand(Value(JNum(1.0)), false))).True?
  {
    var where := OneField("b", JNum(1.0));
    SplitPlain("b");
    LookupPublic(s.row, "b");
    assert Lookup(s.row.doc, ["b"]) == Lookup(JBool(true), ["b"][1..]);
    assert !FieldMatches(s.Doc(), "b", where.fields["b"]);
    assert !ClauseMatches(s.Doc(), "b", where.fields["b"]);
  }

  /** In SQLite a stored object is its text, and its brace is above every letter. */
  lemma ObjectAboveText(s: Site)
    requires s == Site(Sqlite, map[], s.table, Row("1", OneField("x", OneField("a", JNum(1.0)))))
    requires s.Text("x") == "{\"a\":1}"
    ensures
      var where := OneField("x", OneField(OP_GT, JStr("foo")));
      !Matches(s.Doc(), where)
      && s.Truth(Ordered(OP_GT, Path(["x"]), Operand(Value(JStr("foo")), false))).True?
  {
    var stored := OneField("a", JNum(1.0));
    var where := OneField("x", OneField(OP_GT, JStr("foo")));
    SplitPlain("x");
    LookupPublic(s.row, "x");
    assert Lookup(s.row.doc, ["x"]) == Lookup(stored, ["x"][1..]);
    assert OP_GT in where.fields["x"].fields && HasPrefix(OP_GT, "$");
    OrderingMeans(Some(stored), OP_GT, JStr("foo"));
    assert !FieldMatches(s.Doc(), "x", where.fields["x"]);
    assert !ClauseMatches(s.Doc(), "x", where.fields["x"]);
  }
}
