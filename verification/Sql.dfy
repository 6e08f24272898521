/**
 * WHERE clauses as the two SQL backends build them, over any representation R of an operand
 * reference, and their three-valued meaning in each dialect.
 */
module Sql {
  import opened Strings
  import opened JsonValue
  import opened MemFilter

  datatype Dialect = Postgres | Sqlite

  // ---------- the table ----------

  datatype Type = Text | Bigint | Numeric | Boolean

  datatype Column = Column(name: string, segments: seq<string>, typ: Type)

  /** A stored row: the id lives in the primary key, not in doc. */
  datatype Row = Row(id: string, doc: Json)

  /**
   * What a clause reads besides the row: the generated columns, and how SQLite writes JSON as
   * text. kept(row, path) is the text a row keeps at a path, with the key order it was stored in;
   * encoded(j) is the minified encoding of an operand.
   */
  datatype Table = Table(columns: map<string, Column>, kept: (Row, seq<string>) -> string,
                         encoded: Json -> string)
  {
    /** Each promoted path has its own generated column, under the name the compiler will use. */
    predicate Serves(promoted: map<string, Column>) {
      forall p | p in promoted ::
        && promoted[p].segments == Split(p)
        && promoted[p].name in columns
        && columns[promoted[p].name] == promoted[p]
    }
  }

  /** The document a caller sees for a row: the id lifted back into the JSON. */
  function Public(row: Row): Json
    requires row.doc.JObj?
  {
    JObj(row.doc.fields["id" := JStr(row.id)])
  }

  // ---------- the clause ----------

  datatype Expr =
    | Id                                // id
    | Col(name: string)                 // "name"
    | Path(segments: seq<string>)       // doc->'a'->'b' in Postgres, doc->>'$.a.b' in SQLite
    | Raw(segments: seq<string>)        // doc->'a'->'b' in Postgres; in SQLite doc->'$.a.b', or
                                        // json_type(doc, '$.a.b') where only absence is asked

  datatype Sql<R> =
    | Const(b: bool)                    // TRUE / FALSE, 1 / 0
    | IsNull(e: Expr)
    | NotNull(e: Expr)
    | IsJsonNull(e: Expr)               // e = 'null'::jsonb
    | Equal(e: Expr, r: R)
    | Ordered(op: string, e: Expr, r: R)
    | Distinct(e: Expr, r: R)           // IS DISTINCT FROM / IS NOT
    | InList(e: Expr, rs: seq<R>)
    | NotInList(e: Expr, rs: seq<R>)
    | And(parts: seq<Sql<R>>)
    | Or(parts: seq<Sql<R>>)
    | Not(p: Sql<R>)

  // ---------- values ----------

  /** What is bound to a placeholder: a Go value, or the text of its JSON encoding. */
  datatype Param = Value(j: Json) | Encoded(j: Json)

  /** A bound operand in place: the parameter and whether the clause casts it (::jsonb, json(?)). */
  datatype Operand = Operand(param: Param, cast: bool)

  datatype SqlValue = Null | Scalar(j: Json) | Document(j: Json)

  /** The stored kind a generated column of this type represents without conversion. */
  predicate Fits(typ: Type, j: Json) {
    match typ
    case Text => j.JStr?
    case Bigint => j.JNum? && j.n == j.n.Floor as real
    case Numeric => j.JNum?
    case Boolean => j.JBool?
  }

  /** SQLite keeps booleans as 0 and 1, on the stored side and on the bound side. */
  function Affine(j: Json): Json {
    if j.JBool? then JNum(if j.b then 1.0 else 0.0) else j
  }

  /** A typed extraction: in SQLite an object or array comes out as its text. */
  function Stored(d: Dialect, j: Json, text: string): SqlValue {
    if j.JNull? then Null
    else if d.Postgres? then if Composite(j) then Document(j) else Scalar(j)
    else if Composite(j) then Scalar(JStr(text))
    else Scalar(Affine(j))
  }

  function Eval(d: Dialect, table: Table, row: Row, e: Expr): SqlValue {
    match e
    case Id => Scalar(JStr(row.id))
    case Col(name) =>
      if name !in table.columns then Null
      else
        var segments := table.columns[name].segments;
        var v := Lookup(row.doc, segments);
        if v.None? then Null else Stored(d, v.value, table.kept(row, segments))
    case Path(segments) =>
      var v := Lookup(row.doc, segments);
      if v.None? then Null
      else if d.Postgres? then Document(v.value)
      else Stored(d, v.value, table.kept(row, segments))
    case Raw(segments) =>
      var v := Lookup(row.doc, segments);
      if v.None? then Null
      else if d.Postgres? then Document(v.value)
      else Scalar(JStr(table.kept(row, segments)))
  }

  function EvalOperand(d: Dialect, table: Table, o: Operand): SqlValue {
    match o.param
    case Value(j) => if o.cast || j.JNull? || Composite(j) then Null else Scalar(j)
    case Encoded(j) =>
      if !o.cast then Null
      else if d.Postgres? then Document(j)
      else Scalar(JStr(table.encoded(j)))
  }

  // ---------- three-valued logic ----------

  datatype Tri = True | False | Unknown

  function Truth(b: bool): Tri {
    if b then True else False
  }

  function TriNot(a: Tri): Tri {
    match a
    case True => False
    case False => True
    case Unknown => Unknown
  }

  function TriAnd(a: Tri, b: Tri): Tri {
    if a.False? || b.False? then False
    else if a.True? && b.True? then True
    else Unknown
  }

  function TriOr(a: Tri, b: Tri): Tri {
    TriNot(TriAnd(TriNot(a), TriNot(b)))
  }

  /** The order jsonb puts between values of different types; an empty array sorts first. */
  function JsonbRank(j: Json): int {
    match j
    case JNull => 0
    case JStr(_) => 1
    case JNum(_) => 2
    case JBool(_) => 3
    case JArr(items) => if items == [] then -1 else 4
    case JObj(_) => 5
  }

  /** The order of SQLite's storage classes: numbers before text. */
  function ClassRank(v: SqlValue): int {
    if v.Scalar? && v.j.JNum? then 0 else 1
  }

  /** x = y for two non-null SQL values. */
  predicate Same(x: SqlValue, y: SqlValue) {
    x == y
  }

  /**
   * Three-way order of two non-null SQL values. SQLite compares texts byte by byte, a composite's
   * text included. Two jsonb composites of one type are left in the order 0: no operand that an
   * ordering operator agrees on is a composite.
   */
  function Order(d: Dialect, x: SqlValue, y: SqlValue): int
    requires !x.Null? && !y.Null?
  {
    if Compare(x.j, y.j).Some? && x.Document? == y.Document? then Compare(x.j, y.j).value
    else if d.Postgres? then JsonbRank(x.j) - JsonbRank(y.j)
    else ClassRank(x) - ClassRank(y)
  }

  function TriEqual(x: SqlValue, y: SqlValue): Tri {
    if x.Null? || y.Null? then Unknown else Truth(Same(x, y))
  }

  function TriIn(x: SqlValue, ys: seq<SqlValue>): Tri {
    if ys == [] then False else TriOr(TriEqual(x, ys[0]), TriIn(x, ys[1..]))
  }

  function EvalOperands(d: Dialect, table: Table, rs: seq<Operand>): (vs: seq<SqlValue>)
    ensures |vs| == |rs|
    ensures forall i | 0 <= i < |rs| :: vs[i] == EvalOperand(d, table, rs[i])
  {
    seq(|rs|, i requires 0 <= i < |rs| => EvalOperand(d, table, rs[i]))
  }

  /** The truth value of a clause whose operands are in place, for one row. */
  function Holds(d: Dialect, table: Table, row: Row, clause: Sql<Operand>): Tri
    decreases clause, 0
  {
    match clause
    case Const(b) => Truth(b)
    case IsNull(e) => Truth(Eval(d, table, row, e).Null?)
    case NotNull(e) => Truth(!Eval(d, table, row, e).Null?)
    case IsJsonNull(e) => TriEqual(Eval(d, table, row, e), Document(JNull))
    case Equal(e, r) => TriEqual(Eval(d, table, row, e), EvalOperand(d, table, r))
    case Ordered(op, e, r) =>
      var x, y := Eval(d, table, row, e), EvalOperand(d, table, r);
      if x.Null? || y.Null? then Unknown else Truth(Accepts(op, Order(d, x, y)))
    case Distinct(e, r) =>
      var x, y := Eval(d, table, row, e), EvalOperand(d, table, r);
      Truth(if x.Null? || y.Null? then x.Null? != y.Null? else !Same(x, y))
    case InList(e, rs) => TriIn(Eval(d, table, row, e), EvalOperands(d, table, rs))
    case NotInList(e, rs) => TriNot(TriIn(Eval(d, table, row, e), EvalOperands(d, table, rs)))
    case And(parts) => HoldsAll(d, table, row, parts)
    case Or(parts) => HoldsAny(d, table, row, parts)
    case Not(p) => TriNot(Holds(d, table, row, p))
  }

  function HoldsAll(d: Dialect, table: Table, row: Row, parts: seq<Sql<Operand>>): Tri
    decreases parts, 1
  {
    if parts == [] then True
    else TriAnd(Holds(d, table, row, parts[0]), HoldsAll(d, table, row, parts[1..]))
  }

  function HoldsAny(d: Dialect, table: Table, row: Row, parts: seq<Sql<Operand>>): Tri
    decreases parts, 1
  {
    if parts == [] then False
    else TriOr(Holds(d, table, row, parts[0]), HoldsAny(d, table, row, parts[1..]))
  }

  // ---------- laws of the logic ----------

  lemma {:induction false} AllTrue(d: Dialect, table: Table, row: Row, parts: seq<Sql<Operand>>)
    ensures HoldsAll(d, table, row, parts).True?
       <==> forall p | p in parts :: Holds(d, table, row, p).True?
  {
    if parts != [] {
      AllTrue(d, table, row, parts[1..]);
      assert HoldsAll(d, table, row, parts).True?
        <==> Holds(d, table, row, parts[0]).True? && HoldsAll(d, table, row, parts[1..]).True?;
      assert forall p :: p in parts <==> p == parts[0] || p in parts[1..];
    }
  }

  lemma {:induction false} AnyTrue(d: Dialect, table: Table, row: Row, parts: seq<Sql<Operand>>)
    ensures HoldsAny(d, table, row, parts).True?
       <==> exists p | p in parts :: Holds(d, table, row, p).True?
  {
    if parts != [] {
      AnyTrue(d, table, row, parts[1..]);
      assert HoldsAny(d, table, row, parts).True?
        <==> Holds(d, table, row, parts[0]).True? || HoldsAny(d, table, row, parts[1..]).True?;
      assert forall p :: p in parts <==> p == parts[0] || p in parts[1..];
    }
  }

  /** x IN (ys) over non-null ys: TRUE on a member, FALSE on none, NULL when x is NULL. */
  lemma {:induction false} InMeaning(x: SqlValue, ys: seq<SqlValue>)
    requires forall y | y in ys :: !y.Null?
    ensures TriIn(x, ys).True? <==> !x.Null? && x in ys
    ensures TriIn(x, ys).Unknown? <==> x.Null? && ys != []
  {
    if ys != [] {
      InMeaning(x, ys[1..]);
      assert ys == [ys[0]] + ys[1..];
    }
  }
}
