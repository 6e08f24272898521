/**
 * What a filter compiles to, with the operands written in place, and the numbering of those
 * operands as bound parameters: db/pg/compile.go and db/sqlite/compile.go.
 */
module Clause {
  import opened Wrappers
  import opened Strings
  import opened JsonValue
  import opened MemFilter
  import opened Sql

  datatype Error =
    | BadIdentifier(segment: string)
    | UnsupportedOperator(op: string)
    | UnsupportedKey(key: string)
    | ListExpected(op: string)
    | FiltersExpected
    | BranchNotFilter
    | ScalarsOnly(op: string)

  datatype Target = Target(expr: Expr, isColumn: bool, segments: seq<string>)

  type Closed = Sql<Operand>

  // ---------- routing ----------

  function FirstBad(segments: seq<string>): Option<string> {
    if segments == [] then None
    else if !Identifier(segments[0]) then Some(segments[0])
    else FirstBad(segments[1..])
  }

  /** id, a promoted column, or the document. */
  function TargetOf(promoted: map<string, Column>, path: string): Result<Target, Error> {
    if path == "id" then Ok(Target(Id, true, ["id"]))
    else
      var segments := Split(path);
      match FirstBad(segments)
      case Some(bad) => Err(BadIdentifier(bad))
      case None =>
        if path in promoted then Ok(Target(Col(promoted[path].name), true, segments))
        else Ok(Target(Path(segments), false, segments))
  }

  // ---------- leaves ----------

  /** Postgres: a column takes the value, a jsonb expression its encoding, cast. SQLite: the value. */
  function Bound(d: Dialect, t: Target, v: Json): Operand {
    if d.Sqlite? then Operand(Value(Affine(v)), false)
    else if t.isColumn then Operand(Value(v), false)
    else Operand(Encoded(v), true)
  }

  function NullMatch<R>(d: Dialect, t: Target): Sql<R> {
    if d.Sqlite? || t.isColumn then IsNull(t.expr)
    else Or([IsNull(t.expr), IsJsonNull(t.expr)])
  }

  function NullMismatch<R>(d: Dialect, t: Target): Sql<R> {
    if d.Sqlite? then NotNull(t.expr) else Not(NullMatch(d, t))
  }

  function Equality(d: Dialect, t: Target, v: Json): Closed {
    if v.JNull? then NullMatch(d, t)
    else if d.Sqlite? && Composite(v) then Equal(Raw(t.segments), Operand(Encoded(v), true))
    else Equal(t.expr, Bound(d, t, v))
  }

  function NonNulls(values: seq<Json>): seq<Json> {
    if values == [] then []
    else if values[0].JNull? then NonNulls(values[1..])
    else [values[0]] + NonNulls(values[1..])
  }

  function BoundAll(d: Dialect, t: Target, values: seq<Json>): (bound: seq<Operand>)
    ensures |bound| == |values|
    ensures forall i | 0 <= i < |values| :: bound[i] == Bound(d, t, values[i])
  {
    if values == [] then [] else [Bound(d, t, values[0])] + BoundAll(d, t, values[1..])
  }

  function JoinAnd<R>(parts: seq<Sql<R>>): Sql<R>
    requires parts != []
  {
    if |parts| == 1 then parts[0] else And(parts)
  }

  function JoinOr<R>(parts: seq<Sql<R>>): Sql<R>
    requires parts != []
  {
    if |parts| == 1 then parts[0] else Or(parts)
  }

  function Membership(d: Dialect, t: Target, op: string, operand: Json): Result<Closed, Error> {
    if !operand.JArr? then Err(ListExpected(op))
    else if d.Sqlite? && exists v | v in operand.items :: Composite(v) then Err(ScalarsOnly(op))
    else
      var bound := BoundAll(d, t, NonNulls(operand.items));
      var hasNull := JNull in operand.items;
      if op == OP_IN then
        var parts := (if bound != [] then [InList(t.expr, bound)] else [])
                     + (if hasNull then [NullMatch(d, t)] else []);
        Ok(if parts == [] then Const(false) else JoinOr(parts))
      else
        var notIn := NotInList(t.expr, bound);
        var parts := (if bound == [] then []
                      else if hasNull then [notIn]
                      else [Or([IsNull(t.expr), notIn])])
                     + (if hasNull then [NullMismatch(d, t)] else []);
        Ok(if parts == [] then Const(true) else JoinAnd(parts))
  }

  function OperatorClause(d: Dialect, t: Target, op: string, operand: Json): Result<Closed, Error> {
    if op == OP_EQ then Ok(Equality(d, t, operand))
    else if op == OP_NE then
      Ok(if operand.JNull? then NullMismatch(d, t) else Distinct(t.expr, Bound(d, t, operand)))
    else if op == OP_IN || op == OP_NIN then Membership(d, t, op, operand)
    else if Ordering(op) then Ok(Ordered(op, t.expr, Bound(d, t, operand)))
    else if op == OP_EXISTS then
      Ok(if operand == JBool(true) then NotNull(Raw(t.segments)) else IsNull(Raw(t.segments)))
    else Err(UnsupportedOperator(op))
  }

  /** A clause in front of others; the first error wins. */
  function Cons(c: Result<Closed, Error>, rest: Result<seq<Closed>, Error>): Result<seq<Closed>, Error> {
    if c.Err? then Err(c.error) else if rest.Err? then Err(rest.error) else Ok([c.value] + rest.value)
  }

  function OperatorClauses(d: Dialect, t: Target, condition: Json, ops: seq<string>): (r: Result<seq<Closed>, Error>)
    requires condition.JObj? && forall op | op in ops :: op in condition.fields
    ensures r.Ok? ==> |r.value| == |ops|
  {
    if ops == [] then Ok([])
    else Cons(OperatorClause(d, t, ops[0], condition.fields[ops[0]]), OperatorClauses(d, t, condition, ops[1..]))
  }

  function FieldClause(d: Dialect, promoted: map<string, Column>, path: string, condition: Json): Result<Closed, Error>
  {
    match TargetOf(promoted, path)
    case Err(e) => Err(e)
    case Ok(t) =>
      if !IsOperators(condition) then Ok(Equality(d, t, condition))
      else
        match OperatorClauses(d, t, condition, Sorted(condition.fields.Keys))
        case Err(e) => Err(e)
        case Ok(parts) =>
          assert parts != [] by {
            var k :| k in condition.fields && HasPrefix(k, "$");
            assert k in Sorted(condition.fields.Keys);
          }
          Ok(JoinAnd(parts))
  }

  // ---------- the tree ----------

  function Compiled(d: Dialect, promoted: map<string, Column>, where: Json): Result<Closed, Error>
    requires where.JObj?
    decreases where, 4, 0
  {
    if where.fields == map[] then Ok(Const(true))
    else
      match Clauses(d, promoted, where, Sorted(where.fields.Keys))
      case Err(e) => Err(e)
      case Ok(parts) => Ok(JoinAnd(parts))
  }

  function Clauses(d: Dialect, promoted: map<string, Column>, where: Json, keys: seq<string>)
    : (r: Result<seq<Closed>, Error>)
    requires where.JObj? && forall key | key in keys :: key in where.fields
    ensures r.Ok? ==> |r.value| == |keys|
    decreases where, 3, |keys|
  {
    if keys == [] then Ok([])
    else Cons(KeyClause(d, promoted, keys[0], where.fields[keys[0]]), Clauses(d, promoted, where, keys[1..]))
  }

  function KeyClause(d: Dialect, promoted: map<string, Column>, key: string, value: Json): Result<Closed, Error>
    decreases value, 5, 0
  {
    if key == OP_AND || key == OP_OR then
      if !value.JArr? then Err(FiltersExpected)
      else if exists b | b in value.items :: !b.JObj? then Err(BranchNotFilter)
      else if value.items == [] then Ok(Const(key == OP_AND))
      else
        match BranchClauses(d, promoted, value.items)
        case Err(e) => Err(e)
        case Ok(parts) => Ok(if key == OP_AND then JoinAnd(parts) else JoinOr(parts))
    else if HasPrefix(key, "$") then Err(UnsupportedKey(key))
    else FieldClause(d, promoted, key, value)
  }

  function BranchClauses(d: Dialect, promoted: map<string, Column>, branches: seq<Json>)
    : (r: Result<seq<Closed>, Error>)
    requires forall b | b in branches :: b.JObj?
    ensures r.Ok? ==> |r.value| == |branches|
    decreases branches, 6, 0
  {
    if branches == [] then Ok([])
    else Cons(Compiled(d, promoted, branches[0]), BranchClauses(d, promoted, branches[1..]))
  }

  // ---------- parameters ----------

  /** A placeholder: $n in Postgres, the next ? in SQLite; cast says ::jsonb or json(). */
  datatype Ref = Dollar(n: nat, cast: bool) | Mark(cast: bool)

  function RefAt(d: Dialect, next: nat, cast: bool): Ref {
    if d.Postgres? then Dollar(next, cast) else Mark(cast)
  }

  function NumberRefs(d: Dialect, rs: seq<Operand>, next: nat): (r: (seq<Ref>, seq<Param>))
    ensures |r.1| == |rs|
  {
    if rs == [] then ([], [])
    else
      var rest := NumberRefs(d, rs[1..], next + 1);
      ([RefAt(d, next, rs[0].cast)] + rest.0, [rs[0].param] + rest.1)
  }

  /** Pull the operands out left to right, numbering from next. */
  function Number(d: Dialect, c: Closed, next: nat): (r: (Sql<Ref>, seq<Param>))
    decreases c, 0
  {
    match c
    case Const(b) => (Const(b), [])
    case IsNull(e) => (IsNull(e), [])
    case NotNull(e) => (NotNull(e), [])
    case IsJsonNull(e) => (IsJsonNull(e), [])
    case Equal(e, o) => (Equal(e, RefAt(d, next, o.cast)), [o.param])
    case Ordered(op, e, o) => (Ordered(op, e, RefAt(d, next, o.cast)), [o.param])
    case Distinct(e, o) => (Distinct(e, RefAt(d, next, o.cast)), [o.param])
    case InList(e, os) => var r := NumberRefs(d, os, next); (InList(e, r.0), r.1)
    case NotInList(e, os) => var r := NumberRefs(d, os, next); (NotInList(e, r.0), r.1)
    case And(parts) => var r := NumberAll(d, parts, next); (And(r.0), r.1)
    case Or(parts) => var r := NumberAll(d, parts, next); (Or(r.0), r.1)
    case Not(p) => var r := Number(d, p, next); (Not(r.0), r.1)
  }

  function NumberAll(d: Dialect, parts: seq<Closed>, next: nat): (r: (seq<Sql<Ref>>, seq<Param>))
    ensures |r.0| == |parts|
    decreases parts, 1
  {
    if parts == [] then ([], [])
    else
      var head := Number(d, parts[0], next);
      var rest := NumberAll(d, parts[1..], next + |head.1|);
      ([head.0] + rest.0, head.1 + rest.1)
  }

  // ---------- what the engine binds ----------

  function BindRef(params: seq<Param>, r: Ref, at: nat): (o: (Operand, nat)) {
    match r
    case Dollar(n, cast) =>
      (Operand(if 1 <= n <= |params| then params[n - 1] else Value(JNull), cast), at)
    case Mark(cast) =>
      (Operand(if at < |params| then params[at] else Value(JNull), cast), at + 1)
  }

  function BindRefs(params: seq<Param>, rs: seq<Ref>, at: nat): (seq<Operand>, nat) {
    if rs == [] then ([], at)
    else
      var head := BindRef(params, rs[0], at);
      var rest := BindRefs(params, rs[1..], head.1);
      ([head.0] + rest.0, rest.1)
  }

  /** $n takes the n-th parameter; the k-th ? from the left takes the k-th; at counts the ? seen. */
  function Bind(params: seq<Param>, c: Sql<Ref>, at: nat): (Closed, nat)
    decreases c, 0
  {
    match c
    case Const(b) => (Const(b), at)
    case IsNull(e) => (IsNull(e), at)
    case NotNull(e) => (NotNull(e), at)
    case IsJsonNull(e) => (IsJsonNull(e), at)
    case Equal(e, r) => var o := BindRef(params, r, at); (Equal(e, o.0), o.1)
    case Ordered(op, e, r) => var o := BindRef(params, r, at); (Ordered(op, e, o.0), o.1)
    case Distinct(e, r) => var o := BindRef(params, r, at); (Distinct(e, o.0), o.1)
    case InList(e, rs) => var o := BindRefs(params, rs, at); (InList(e, o.0), o.1)
    case NotInList(e, rs) => var o := BindRefs(params, rs, at); (NotInList(e, o.0), o.1)
    case And(parts) => var o := BindAll(params, parts, at); (And(o.0), o.1)
    case Or(parts) => var o := BindAll(params, parts, at); (Or(o.0), o.1)
    case Not(p) => var o := Bind(params, p, at); (Not(o.0), o.1)
  }

  function BindAll(params: seq<Param>, parts: seq<Sql<Ref>>, at: nat): (seq<Closed>, nat)
    decreases parts, 1
  {
    if parts == [] then ([], at)
    else
      var head := Bind(params, parts[0], at);
      var rest := BindAll(params, parts[1..], head.1);
      ([head.0] + rest.0, rest.1)
  }

  /** Where binding resumes after n operands. */
  function Past(d: Dialect, at: nat, n: nat): nat {
    if d.Sqlite? then at + n else at
  }

  predicate Slice(params: seq<Param>, at: nat, part: seq<Param>) {
    at + |part| <= |params| && params[at..at + |part|] == part
  }

  lemma SliceSplit(params: seq<Param>, at: nat, a: seq<Param>, b: seq<Param>)
    requires Slice(params, at, a + b)
    ensures Slice(params, at, a) && Slice(params, at + |a|, b)
  {
    assert a == (a + b)[..|a|] && b == (a + b)[|a|..];
    assert params[at..at + |a|] == params[at..at + |a + b|][..|a|];
    assert params[at + |a|..at + |a| + |b|] == params[at..at + |a + b|][|a|..];
  }

  lemma SliceOne(params: seq<Param>, at: nat, p: Param)
    requires Slice(params, at, [p])
    ensures params[at] == p
  {
    assert params[at..at + 1][0] == params[at];
  }

  lemma {:induction false} BindNumberRefs(d: Dialect, os: seq<Operand>, params: seq<Param>, next: nat, at: nat)
    requires next >= 1 && (d.Sqlite? ==> at == next - 1)
    requires Slice(params, next - 1, NumberRefs(d, os, next).1)
    ensures BindRefs(params, NumberRefs(d, os, next).0, at) == (os, Past(d, at, |os|))
  {
    if os != [] {
      var rest := NumberRefs(d, os[1..], next + 1);
      SliceSplit(params, next - 1, [os[0].param], rest.1);
      SliceOne(params, next - 1, os[0].param);
      BindNumberRefs(d, os[1..], params, next + 1, Past(d, at, 1));
      assert NumberRefs(d, os, next).0[1..] == rest.0;
      assert os == [os[0]] + os[1..];
    }
  }

  /**
   * Binding undoes numbering, at any offset and inside any longer parameter list: every $n names
   * the operand it was pushed for, and the k-th ? takes the k-th parameter.
   */
  lemma {:induction false} BindNumber(d: Dialect, c: Closed, params: seq<Param>, next: nat, at: nat)
    requires next >= 1 && (d.Sqlite? ==> at == next - 1)
    requires Slice(params, next - 1, Number(d, c, next).1)
    ensures Bind(params, Number(d, c, next).0, at) == (c, Past(d, at, |Number(d, c, next).1|))
    decreases c, 0
  {
    match c
    case InList(_, os) => BindNumberRefs(d, os, params, next, at);
    case NotInList(_, os) => BindNumberRefs(d, os, params, next, at);
    case And(parts) => BindNumberAll(d, parts, params, next, at);
    case Or(parts) => BindNumberAll(d, parts, params, next, at);
    case Not(p) => BindNumber(d, p, params, next, at);
    case Equal(_, o) => SliceOne(params, next - 1, o.param);
    case Ordered(_, _, o) => SliceOne(params, next - 1, o.param);
    case Distinct(_, o) => SliceOne(params, next - 1, o.param);
    case Const(_) | IsNull(_) | NotNull(_) | IsJsonNull(_) =>
  }

  lemma {:induction false} BindNumberAll(d: Dialect, parts: seq<Closed>, params: seq<Param>, next: nat, at: nat)
    requires next >= 1 && (d.Sqlite? ==> at == next - 1)
    requires Slice(params, next - 1, NumberAll(d, parts, next).1)
    ensures BindAll(params, NumberAll(d, parts, next).0, at) == (parts, Past(d, at, |NumberAll(d, parts, next).1|))
    decreases parts, 1
  {
    if parts != [] {
      var head := Number(d, parts[0], next);
      var rest := NumberAll(d, parts[1..], next + |head.1|);
      SliceSplit(params, next - 1, head.1, rest.1);
      BindNumber(d, parts[0], params, next, at);
      BindNumberAll(d, parts[1..], params, next + |head.1|, Past(d, at, |head.1|));
      assert NumberAll(d, parts, next).0[1..] == rest.0;
      assert parts == [parts[0]] + parts[1..];
    }
  }
}
