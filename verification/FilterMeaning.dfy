/**
 * The compilers preserve meaning: on well-typed data a compiled clause is TRUE in SQL's
 * three-valued logic exactly for the rows whose document the evaluator accepts.
 */
module FilterMeaning {
  import opened Wrappers
  import opened Strings
  import opened JsonValue
  import opened MemFilter
  import opened Sql
  import opened Clause

  /** One row of one table under one dialect: everything a clause's truth depends on. */
  datatype Site = Site(d: Dialect, promoted: map<string, Column>, table: Table, row: Row) {
    ghost predicate Ready() {
      row.doc.JObj? && "id" !in row.doc.fields && table.Serves(promoted)
    }

    function Doc(): Json
      requires row.doc.JObj?
    {
      Public(row)
    }

    /** The document's value at a filter path. */
    function At(path: string): Option<Json>
      requires row.doc.JObj?
    {
      Lookup(Doc(), Split(path))
    }

    /** The text SQLite has for the value at a filter path. */
    function Text(path: string): string {
      table.kept(row, Split(path))
    }

    function Value(e: Expr): SqlValue {
      Eval(d, table, row, e)
    }

    function Operand(o: Operand): SqlValue {
      EvalOperand(d, table, o)
    }

    function Operands(os: seq<Operand>): (vs: seq<SqlValue>)
      ensures |vs| == |os| && forall i | 0 <= i < |os| :: vs[i] == Operand(os[i])
    {
      EvalOperands(d, table, os)
    }

    function Truth(c: Closed): Tri {
      Holds(d, table, row, c)
    }

    predicate All(parts: seq<Closed>) {
      HoldsAll(d, table, row, parts).True?
    }

    predicate Any(parts: seq<Closed>) {
      HoldsAny(d, table, row, parts).True?
    }
  }

  // ---------- where the backends agree ----------

  /** A column's stored value and operand are of the column's own type. */
  predicate ColumnFits(typ: Type, stored: Option<Json>, operand: Json) {
    && (stored.None? || stored.value.JNull? || Fits(typ, stored.value))
    && (operand.JNull? || Fits(typ, operand))
  }

  /** SQLite keeps two values apart once booleans are numbers and an object or array is its text. */
  predicate SqliteTellsApart(stored: Json, text: string, operand: Json) {
    if Composite(stored) then operand != JStr(text)
    else SameKind(stored, operand) || Affine(stored) != Affine(operand)
  }

  /** Equality with this operand means the same in the backend and in the evaluator. */
  predicate EqualityFits(s: Site, path: string, operand: Json)
    requires s.row.doc.JObj?
  {
    var stored := s.At(path);
    && !Composite(operand)
    && if path == "id" then operand.JNull? || operand.JStr?
       else if path in s.promoted then ColumnFits(s.promoted[path].typ, stored, operand)
       else
         (s.d.Sqlite? && stored.Some? && !operand.JNull?) ==>
           SqliteTellsApart(stored.value, s.Text(path), operand)
  }

  /**
   * How a backend orders two document values that the evaluator does not compare. Postgres goes
   * by type. In SQLite a number or boolean is below any text, a boolean is 0 or 1 beside a number,
   * and an object or array is its text.
   */
  function CrossOrder(d: Dialect, stored: Json, text: string, operand: Json): int {
    if d.Postgres? then JsonbRank(stored) - JsonbRank(operand)
    else
      var left := if Composite(stored) then JStr(text) else Affine(stored);
      var right := Affine(operand);
      if Compare(left, right).Some? then Compare(left, right).value
      else if left.JNum? then -1
      else 1
  }

  /**
   * An ordering operator means the same on a document path: the two values compare, or the
   * backend's order across types happens to refuse, or SQLite sees NULL.
   */
  predicate OrderingFits(s: Site, path: string, op: string, operand: Json)
    requires s.row.doc.JObj?
  {
    var stored := s.At(path);
    && !Composite(operand)
    && if path == "id" then operand.JNull? || operand.JStr?
       else if path in s.promoted then ColumnFits(s.promoted[path].typ, stored, operand)
       else
         || stored.None? || Compare(stored.value, operand).Some?
         || (s.d.Sqlite? && (stored.value.JNull? || operand.JNull?))
         || !Accepts(op, CrossOrder(s.d, stored.value, s.Text(path), operand))
  }

  predicate OperatorFits(s: Site, path: string, op: string, operand: Json)
    requires s.row.doc.JObj?
  {
    if op == OP_EXISTS then path != "id"
    else if op == OP_IN || op == OP_NIN then
      operand.JArr? ==> forall w | w in operand.items :: EqualityFits(s, path, w)
    else if Ordering(op) then OrderingFits(s, path, op, operand)
    else EqualityFits(s, path, operand)
  }

  predicate FieldFits(s: Site, path: string, condition: Json)
    requires s.row.doc.JObj?
  {
    if IsOperators(condition)
    then forall op | op in condition.fields :: OperatorFits(s, path, op, condition.fields[op])
    else EqualityFits(s, path, condition)
  }

  predicate FilterFits(s: Site, where: Json)
    requires s.row.doc.JObj? && where.JObj?
    decreases where, 1
  {
    forall key | key in where.fields :: KeyFits(s, key, where.fields[key])
  }

  predicate KeyFits(s: Site, key: string, condition: Json)
    requires s.row.doc.JObj?
    decreases condition, 2
  {
    if key == OP_AND || key == OP_OR then
      condition.JArr? ==>
        forall b | b in condition.items && b.JObj? :: FilterFits(s, b)
    else HasPrefix(key, "$") || FieldFits(s, key, condition)
  }

  // ---------- routing ----------

  lemma {:induction false} SplitSingle(path: string)
    requires |Split(path)| == 1
    ensures Split(path) == [path]
  {
    if path != "" && path[0] != '.' {
      SplitSingle(path[1..]);
      assert path == [path[0]] + path[1..];
    }
  }

  /** Lifting the id into the document changes no path but id itself. */
  lemma LookupPublic(row: Row, path: string)
    requires row.doc.JObj? && "id" !in row.doc.fields
    ensures path != "id" ==> Lookup(Public(row), Split(path)) == Lookup(row.doc, Split(path))
    ensures path == "id" ==> Lookup(Public(row), Split(path)) == Some(JStr(row.id))
  {
    var segments := Split(path);
    var lifted := Public(row);
    if path == "id" {
      SplitPlain(path);
      assert Lookup(lifted.fields["id"], segments[1..]) == Some(lifted.fields["id"]);
    } else if segments[0] == "id" {
      if |segments| == 1 { SplitSingle(path); }
      assert Lookup(lifted, segments) == Lookup(JStr(row.id), segments[1..]);
    }
  }

  /** How the target's expression sees the document value: a typed scalar or a JSON value. */
  predicate Sees(d: Dialect, isColumn: bool, stored: Option<Json>, text: string, x: SqlValue) {
    x == if stored.None? then Null
         else if d.Postgres? && !isColumn then Document(stored.value)
         else Stored(d, stored.value, text)
  }

  /** The row's value at a path as each dialect's expression sees it. */
  lemma TargetSees(s: Site, path: string, t: Target)
    requires s.Ready() && TargetOf(s.promoted, path) == Ok(t)
    ensures Sees(s.d, t.isColumn, s.At(path), s.Text(path), s.Value(t.expr))
    ensures t.isColumn <==> path == "id" || path in s.promoted
    ensures path == "id" ==> s.At(path) == Some(JStr(s.row.id))
    ensures path != "id" ==> s.Value(Raw(t.segments)).Null? == s.At(path).None?
  {
    LookupPublic(s.row, path);
  }

  // ---------- leaves ----------

  /** What fitting means for a pair of values, whatever path they came from. */
  predicate PairFits(d: Dialect, isColumn: bool, stored: Option<Json>, text: string, w: Json) {
    && !Composite(w)
    && (isColumn ==> exists typ :: ColumnFits(typ, stored, w))
    && ((d.Sqlite? && !isColumn && stored.Some? && !w.JNull?) ==>
          SqliteTellsApart(stored.value, text, w))
  }

  lemma EqualityPair(s: Site, path: string, t: Target, w: Json)
    requires s.Ready() && TargetOf(s.promoted, path) == Ok(t)
    requires EqualityFits(s, path, w)
    ensures PairFits(s.d, t.isColumn, s.At(path), s.Text(path), w)
  {
    TargetSees(s, path, t);
    if t.isColumn {
      assert ColumnFits(if path == "id" then Text else s.promoted[path].typ, s.At(path), w);
    }
  }

  /** Equality with a non-null operand. */
  lemma EqualityAgrees(s: Site, t: Target, stored: Option<Json>, text: string, x: SqlValue, w: Json)
    requires Sees(s.d, t.isColumn, stored, text, x)
    requires PairFits(s.d, t.isColumn, stored, text, w) && !w.JNull?
    ensures !s.Operand(Bound(s.d, t, w)).Null?
    ensures !x.Null? && Same(x, s.Operand(Bound(s.d, t, w))) <==> EqualTo(stored, w)
  {
  }

  /** The null rule: TRUE or FALSE, never NULL, and TRUE for a stored null and an absent key. */
  lemma NullAgrees(s: Site, t: Target, stored: Option<Json>, text: string)
    requires Sees(s.d, t.isColumn, stored, text, s.Value(t.expr))
    requires t.isColumn || s.d.Sqlite? || t.expr.Path?
    ensures s.Truth(NullMatch(s.d, t)) == Truth(EqualTo(stored, JNull))
    ensures s.Truth(NullMismatch(s.d, t)) == Truth(!EqualTo(stored, JNull))
    ensures s.Value(t.expr).Null? ==> EqualTo(stored, JNull)
  {
    if s.d.Postgres? && !t.isColumn {
      HoldsPair(s, IsNull(t.expr), IsJsonNull(t.expr));
    }
  }

  lemma HoldsOne(s: Site, parts: seq<Closed>)
    requires |parts| == 1
    ensures HoldsAll(s.d, s.table, s.row, parts) == s.Truth(parts[0])
    ensures HoldsAny(s.d, s.table, s.row, parts) == s.Truth(parts[0])
  {
    var rest := parts[1..];
    assert rest == [];
    assert HoldsAll(s.d, s.table, s.row, rest) == True && HoldsAny(s.d, s.table, s.row, rest) == False;
  }

  lemma HoldsCons(s: Site, parts: seq<Closed>)
    requires parts != []
    ensures s.All(parts) <==> s.Truth(parts[0]).True? && s.All(parts[1..])
    ensures s.Any(parts) <==> s.Truth(parts[0]).True? || s.Any(parts[1..])
  {
  }

  lemma HoldsPair(s: Site, a: Closed, b: Closed)
    ensures s.Truth(Or([a, b])) == TriOr(s.Truth(a), s.Truth(b))
    ensures s.Truth(And([a, b])) == TriAnd(s.Truth(a), s.Truth(b))
  {
    var parts := [a, b];
    assert parts[1..] == [b];
    HoldsOne(s, parts[1..]);
    assert HoldsAny(s.d, s.table, s.row, parts) == TriOr(s.Truth(a), HoldsAny(s.d, s.table, s.row, parts[1..]));
    assert HoldsAll(s.d, s.table, s.row, parts) == TriAnd(s.Truth(a), HoldsAll(s.d, s.table, s.row, parts[1..]));
  }

  /** Joining parts, or dropping the join around a single part, keeps the truth. */
  lemma JoinAgrees(s: Site, parts: seq<Closed>)
    requires parts != []
    ensures s.Truth(JoinAnd(parts)).True? <==> s.All(parts)
    ensures s.Truth(JoinOr(parts)).True? <==> s.Any(parts)
  {
    if |parts| == 1 {
      HoldsOne(s, parts);
    }
  }

  lemma {:induction false} NonNullsAre(values: seq<Json>)
    ensures forall w :: w in NonNulls(values) <==> w in values && !w.JNull?
  {
    if values != [] {
      NonNullsAre(values[1..]);
      assert forall w :: w in values <==> w == values[0] || w in values[1..];
    }
  }

  /** x IN (operands) over the non-null operands of a list. */
  lemma InListAgrees(s: Site, t: Target, stored: Option<Json>, text: string, x: SqlValue, values: seq<Json>)
    requires Sees(s.d, t.isColumn, stored, text, x)
    requires forall w | w in values :: PairFits(s.d, t.isColumn, stored, text, w)
    ensures
      var bound := BoundAll(s.d, t, NonNulls(values));
      var found := TriIn(x, s.Operands(bound));
      && (found.True? <==> exists w :: w in values && !w.JNull? && EqualTo(stored, w))
      && (found.Unknown? <==> x.Null? && bound != [])
  {
    var some := NonNulls(values);
    var ys := s.Operands(BoundAll(s.d, t, some));
    NonNullsAre(values);
    forall i | 0 <= i < |some|
      ensures !ys[i].Null? && (!x.Null? && x == ys[i] <==> EqualTo(stored, some[i]))
    {
      assert some[i] in some;
      EqualityAgrees(s, t, stored, text, x, some[i]);
    }
    InMeaning(x, ys);
    if exists w :: w in values && !w.JNull? && EqualTo(stored, w) {
      var w :| w in values && !w.JNull? && EqualTo(stored, w);
      assert w in some;
      var i :| 0 <= i < |some| && some[i] == w;
      assert ys[i] in ys;
    }
    if !x.Null? && x in ys {
      var i :| 0 <= i < |ys| && ys[i] == x;
      assert some[i] in some;
    }
  }

  /** The truth of a $in clause from that of its pieces. */
  lemma InTruth(s: Site, t: Target, operand: Json, c: Closed, isNull: bool)
    requires Membership(s.d, t, OP_IN, operand) == Ok(c)
    requires s.Truth(NullMatch(s.d, t)) == Truth(isNull)
    ensures
      var found := TriIn(s.Value(t.expr), s.Operands(BoundAll(s.d, t, NonNulls(operand.items))));
      s.Truth(c).True? <==> found.True? || (JNull in operand.items && isNull)
  {
    var bound := BoundAll(s.d, t, NonNulls(operand.items));
    var isIn := InList(t.expr, bound);
    if bound != [] && JNull in operand.items {
      assert [isIn] + [NullMatch(s.d, t)] == [isIn, NullMatch(s.d, t)];
      assert c == Or([isIn, NullMatch(s.d, t)]);
      HoldsPair(s, isIn, NullMatch(s.d, t));
    }
  }

  /** The truth of a $nin clause from that of its pieces: absence is let in unless null is excluded. */
  lemma NinTruth(s: Site, t: Target, operand: Json, c: Closed, isNull: bool)
    requires Membership(s.d, t, OP_NIN, operand) == Ok(c)
    requires s.Truth(NullMismatch(s.d, t)) == Truth(!isNull)
    requires s.Value(t.expr).Null? ==> isNull
    requires
      var bound := BoundAll(s.d, t, NonNulls(operand.items));
      TriIn(s.Value(t.expr), s.Operands(bound)).Unknown? <==> s.Value(t.expr).Null? && bound != []
    ensures
      var found := TriIn(s.Value(t.expr), s.Operands(BoundAll(s.d, t, NonNulls(operand.items))));
      s.Truth(c).True? <==> !(found.True? || (JNull in operand.items && isNull))
  {
    var bound := BoundAll(s.d, t, NonNulls(operand.items));
    var notIn := NotInList(t.expr, bound);
    if bound != [] && JNull in operand.items {
      assert [notIn] + [NullMismatch(s.d, t)] == [notIn, NullMismatch(s.d, t)];
      assert c == And([notIn, NullMismatch(s.d, t)]);
      HoldsPair(s, notIn, NullMismatch(s.d, t));
    } else if bound != [] {
      assert c == Or([IsNull(t.expr), notIn]);
      HoldsPair(s, IsNull(t.expr), notIn);
    }
  }

  lemma MembershipAgrees(s: Site, t: Target, stored: Option<Json>, text: string, op: string, operand: Json,
                         c: Closed)
    requires Sees(s.d, t.isColumn, stored, text, s.Value(t.expr))
    requires t.isColumn || s.d.Sqlite? || t.expr.Path?
    requires (op == OP_IN || op == OP_NIN) && Membership(s.d, t, op, operand) == Ok(c)
    requires forall w | w in operand.items :: PairFits(s.d, t.isColumn, stored, text, w)
    ensures s.Truth(c).True? <==> ((op == OP_IN) <==> exists w :: w in operand.items && EqualTo(stored, w))
  {
    InListAgrees(s, t, stored, text, s.Value(t.expr), operand.items);
    NullAgrees(s, t, stored, text);
    if op == OP_IN {
      InTruth(s, t, operand, c, EqualTo(stored, JNull));
    } else {
      NinTruth(s, t, operand, c, EqualTo(stored, JNull));
    }
  }

  lemma OrderingAgrees(s: Site, path: string, t: Target, op: string, w: Json)
    requires s.Ready() && TargetOf(s.promoted, path) == Ok(t) && Ordering(op)
    requires OrderingFits(s, path, op, w)
    ensures
      var stored := s.At(path);
      s.Truth(Ordered(op, t.expr, Bound(s.d, t, w))).True? <==>
        stored.Some? && Compare(stored.value, w).Some? && Accepts(op, Compare(stored.value, w).value)
  {
    TargetSees(s, path, t);
    if t.isColumn {
      assert ColumnFits(if path == "id" then Text else s.promoted[path].typ, s.At(path), w);
    }
    OrderingPair(s, t, s.At(path), s.Text(path), s.Value(t.expr), w);
  }

  /** SQL's comparison of what the two sides evaluate to. */
  lemma OrderingPair(s: Site, t: Target, stored: Option<Json>, text: string, x: SqlValue, w: Json)
    requires Sees(s.d, t.isColumn, stored, text, x) && !Composite(w)
    requires t.isColumn ==> exists typ :: ColumnFits(typ, stored, w)
    ensures
      var y := s.Operand(Bound(s.d, t, w));
      && (stored.None? ==> x.Null?)
      && (stored.Some? && Compare(stored.value, w).Some? ==>
            !x.Null? && !y.Null? && Order(s.d, x, y) == Compare(stored.value, w).value)
      && (stored.Some? && Compare(stored.value, w).None? ==>
            if t.isColumn || (s.d.Sqlite? && (stored.value.JNull? || w.JNull?)) then x.Null? || y.Null?
            else !x.Null? && !y.Null? && Order(s.d, x, y) == CrossOrder(s.d, stored.value, text, w))
  {
  }

  lemma EqualityOperator(s: Site, path: string, t: Target, op: string, w: Json, c: Closed)
    requires s.Ready() && TargetOf(s.promoted, path) == Ok(t)
    requires EqualityFits(s, path, w)
    requires c == if op == OP_EQ then Equality(s.d, t, w)
                  else if w.JNull? then NullMismatch(s.d, t)
                  else Distinct(t.expr, Bound(s.d, t, w))
    ensures s.Truth(c).True? <==> (op == OP_EQ <==> EqualTo(s.At(path), w))
  {
    TargetSees(s, path, t);
    EqualityPair(s, path, t, w);
    if w.JNull? {
      NullAgrees(s, t, s.At(path), s.Text(path));
    } else {
      EqualityAgrees(s, t, s.At(path), s.Text(path), s.Value(t.expr), w);
    }
  }

  lemma OperatorAgrees(s: Site, path: string, t: Target, op: string, operand: Json, c: Closed)
    requires s.Ready() && TargetOf(s.promoted, path) == Ok(t)
    requires OperatorClause(s.d, t, op, operand) == Ok(c)
    requires OperatorFits(s, path, op, operand)
    ensures s.Truth(c).True? <==> OperatorHolds(s.At(path), op, operand)
  {
    if op == OP_EQ || op == OP_NE {
      EqualityOperator(s, path, t, op, operand, c);
    } else if op == OP_IN || op == OP_NIN {
      TargetSees(s, path, t);
      forall w | w in operand.items ensures PairFits(s.d, t.isColumn, s.At(path), s.Text(path), w) {
        EqualityPair(s, path, t, w);
      }
      MembershipAgrees(s, t, s.At(path), s.Text(path), op, operand, c);
    } else if Ordering(op) {
      OrderingAgrees(s, path, t, op, operand);
    } else {
      TargetSees(s, path, t);
    }
  }

  // ---------- the tree ----------

  lemma {:induction false} OperatorsAgree(s: Site, path: string, t: Target, condition: Json, ops: seq<string>,
                                          parts: seq<Closed>)
    requires s.Ready() && TargetOf(s.promoted, path) == Ok(t)
    requires condition.JObj? && forall op | op in ops :: op in condition.fields
    requires forall op | op in ops :: OperatorFits(s, path, op, condition.fields[op])
    requires OperatorClauses(s.d, t, condition, ops) == Ok(parts)
    ensures s.All(parts) <==> forall op | op in ops :: OperatorHolds(s.At(path), op, condition.fields[op])
  {
    if ops != [] {
      OperatorAgrees(s, path, t, ops[0], condition.fields[ops[0]], parts[0]);
      OperatorsAgree(s, path, t, condition, ops[1..], parts[1..]);
      HoldsCons(s, parts);
      assert forall op :: op in ops <==> op == ops[0] || op in ops[1..];
    }
  }

  lemma FieldAgrees(s: Site, path: string, condition: Json, c: Closed)
    requires s.Ready() && FieldClause(s.d, s.promoted, path, condition) == Ok(c)
    requires FieldFits(s, path, condition)
    ensures s.Truth(c).True? <==> FieldMatches(s.Doc(), path, condition)
  {
    var t := TargetOf(s.promoted, path).value;
    if IsOperators(condition) {
      var ops := Sorted(condition.fields.Keys);
      var parts := OperatorClauses(s.d, t, condition, ops).value;
      OperatorsAgree(s, path, t, condition, ops, parts);
      JoinAgrees(s, parts);
    } else {
      EqualityOperator(s, path, t, OP_EQ, condition, c);
    }
  }

  /**
   * Compiler correctness. For every filter that compiles, every table layout and every row on
   * which the filter's leaves fit, the clause selects the row exactly when the evaluator does.
   */
  lemma {:induction false} CompiledAgrees(s: Site, where: Json, c: Closed)
    requires s.Ready() && where.JObj? && Compiled(s.d, s.promoted, where) == Ok(c)
    requires FilterFits(s, where)
    ensures s.Truth(c).True? <==> Matches(s.Doc(), where)
    decreases where, 4, 0
  {
    if where.fields != map[] {
      var keys := Sorted(where.fields.Keys);
      var parts := Clauses(s.d, s.promoted, where, keys).value;
      ClausesAgree(s, where, keys, parts);
      JoinAgrees(s, parts);
    }
  }

  lemma {:induction false} ClausesAgree(s: Site, where: Json, keys: seq<string>, parts: seq<Closed>)
    requires s.Ready() && where.JObj? && forall key | key in keys :: key in where.fields
    requires Clauses(s.d, s.promoted, where, keys) == Ok(parts)
    requires FilterFits(s, where)
    ensures s.All(parts) <==> forall key | key in keys :: ClauseMatches(s.Doc(), key, where.fields[key])
    decreases where, 3, |keys|
  {
    if keys != [] {
      var key, value := keys[0], where.fields[keys[0]];
      assert KeyFits(s, key, value);
      KeyAgrees(s, key, value, parts[0]);
      ClausesAgree(s, where, keys[1..], parts[1..]);
      HoldsCons(s, parts);
      assert forall k :: k in keys <==> k == key || k in keys[1..];
    }
  }

  lemma {:induction false} KeyAgrees(s: Site, key: string, value: Json, c: Closed)
    requires s.Ready() && KeyClause(s.d, s.promoted, key, value) == Ok(c)
    requires KeyFits(s, key, value)
    ensures s.Truth(c).True? <==> ClauseMatches(s.Doc(), key, value)
    decreases value, 5, 0
  {
    if key == OP_AND || key == OP_OR {
      if value.items != [] {
        var parts := BranchClauses(s.d, s.promoted, value.items).value;
        BranchesAgree(s, value.items, parts);
        JoinAgrees(s, parts);
      }
    } else {
      FieldAgrees(s, key, value, c);
    }
  }

  lemma {:induction false} BranchesAgree(s: Site, branches: seq<Json>, parts: seq<Closed>)
    requires s.Ready() && forall b | b in branches :: b.JObj?
    requires forall b | b in branches :: FilterFits(s, b)
    requires BranchClauses(s.d, s.promoted, branches) == Ok(parts)
    ensures s.All(parts) <==> forall b | b in branches :: Matches(s.Doc(), b)
    ensures s.Any(parts) <==> exists b | b in branches :: Matches(s.Doc(), b)
    decreases branches, 6, 0
  {
    if branches != [] {
      CompiledAgrees(s, branches[0], parts[0]);
      BranchesAgree(s, branches[1..], parts[1..]);
      HoldsCons(s, parts);
      assert forall b :: b in branches <==> b == branches[0] || b in branches[1..];
    }
  }
}
