/**
 * The stateful compilers of db/pg/compile.go and db/sqlite/compile.go: they push parameters as
 * they go. Every method is proved to emit the numbered form of the closed clause.
 */
module Compiler {
  import opened Wrappers
  import opened Sequences
  import opened Strings
  import opened JsonValue
  import opened MemFilter
  import opened Sql
  import opened Clause
  import opened Grammar

  type Text = Sql<Ref>

  /** r and the parameters pushed since before are the numbering of c; an error pushes at will. */
  ghost predicate Emits(d: Dialect, next: nat, before: seq<Param>, after: seq<Param>, c: Result<Closed, Error>,
                        r: Result<Text, Error>)
  {
    match c
    case Err(e) => r == Err(e) && before <= after
    case Ok(closed) =>
      && r == Ok(Number(d, closed, next).0)
      && after == before + Number(d, closed, next).1
  }

  // ---------- numbering grows at the right end ----------

  lemma NumberAllOne(d: Dialect, c: Closed, next: nat)
    ensures
      var one := Number(d, c, next);
      NumberAll(d, [c], next).0 == [one.0] && NumberAll(d, [c], next).1 == one.1
  {
    assert [c][1..] == [];
    assert NumberAll(d, [c][1..], next + |Number(d, c, next).1|) == ([], []);
  }

  lemma NumberAllCons(d: Dialect, parts: seq<Closed>, next: nat)
    requires parts != []
    ensures
      var head := Number(d, parts[0], next);
      var rest := NumberAll(d, parts[1..], next + |head.1|);
      NumberAll(d, parts, next).0 == [head.0] + rest.0 && NumberAll(d, parts, next).1 == head.1 + rest.1
  {
  }

  /** What numbering one more clause at the right end gives. */
  ghost predicate Snoc(d: Dialect, parts: seq<Closed>, c: Closed, next: nat) {
    var init := NumberAll(d, parts, next);
    var last := Number(d, c, next + |init.1|);
    var both := NumberAll(d, parts + [c], next);
    both.0 == init.0 + [last.0] && both.1 == init.1 + last.1
  }

  lemma SnocCons(d: Dialect, parts: seq<Closed>, c: Closed, next: nat)
    requires parts != [] && Snoc(d, parts[1..], c, next + |Number(d, parts[0], next).1|)
    ensures Snoc(d, parts, c, next)
  {
    var head := Number(d, parts[0], next);
    var rest := NumberAll(d, parts[1..], next + |head.1|);
    var last := Number(d, c, next + |head.1| + |rest.1|);
    NumberAllCons(d, parts, next);
    assert (parts + [c])[0] == parts[0] && (parts + [c])[1..] == parts[1..] + [c];
    NumberAllCons(d, parts + [c], next);
    AppendAssociates([head.0], rest.0, [last.0]);
    AppendAssociates(head.1, rest.1, last.1);
  }

  lemma {:induction false} NumberAllSnoc(d: Dialect, parts: seq<Closed>, c: Closed, next: nat)
    ensures
      var init := NumberAll(d, parts, next);
      var last := Number(d, c, next + |init.1|);
      var both := NumberAll(d, parts + [c], next);
      both.0 == init.0 + [last.0] && both.1 == init.1 + last.1
  {
    if parts == [] {
      assert parts + [c] == [c];
      NumberAllOne(d, c, next);
    } else {
      NumberAllSnoc(d, parts[1..], c, next + |Number(d, parts[0], next).1|);
      SnocCons(d, parts, c, next);
    }
  }

  lemma {:induction false} NumberRefsSnoc(d: Dialect, os: seq<Operand>, o: Operand, next: nat)
    ensures
      var init := NumberRefs(d, os, next);
      var both := NumberRefs(d, os + [o], next);
      both.0 == init.0 + [RefAt(d, next + |os|, o.cast)] && both.1 == init.1 + [o.param]
  {
    if os == [] {
      assert os + [o] == [o] && [o][1..] == [];
    } else {
      NumberRefsSnoc(d, os[1..], o, next + 1);
      assert (os + [o])[1..] == os[1..] + [o];
      var rest := NumberRefs(d, os[1..], next + 1);
      var first, last := RefAt(d, next, os[0].cast), RefAt(d, next + |os|, o.cast);
      assert [first] + (rest.0 + [last]) == [first] + rest.0 + [last];
      assert [os[0].param] + (rest.1 + [o.param]) == [os[0].param] + rest.1 + [o.param];
    }
  }

  lemma {:induction false} NonNullsSnoc(values: seq<Json>, v: Json)
    ensures NonNulls(values + [v]) == NonNulls(values) + if v.JNull? then [] else [v]
  {
    if values != [] {
      NonNullsSnoc(values[1..], v);
      assert (values + [v])[1..] == values[1..] + [v];
    }
  }

  lemma {:induction false} BoundAllSnoc(d: Dialect, t: Target, values: seq<Json>, v: Json)
    ensures BoundAll(d, t, values + [v]) == BoundAll(d, t, values) + [Bound(d, t, v)]
  {
    if values != [] {
      BoundAllSnoc(d, t, values[1..], v);
      assert (values + [v])[1..] == values[1..] + [v];
    }
  }

  lemma NumberNullMatch(d: Dialect, t: Target, next: nat)
    ensures Number(d, NullMatch(d, t), next) == (NullMatch(d, t), [])
    ensures Number(d, NullMismatch(d, t), next) == (NullMismatch(d, t), [])
  {
    if d.Postgres? && !t.isColumn {
      NumberPair(d, IsNull(t.expr), IsJsonNull(t.expr), next);
    }
  }

  lemma NumberPair(d: Dialect, a: Closed, b: Closed, next: nat)
    ensures
      var x := Number(d, a, next);
      var y := Number(d, b, next + |x.1|);
      var both := NumberAll(d, [a, b], next);
      both.0 == [x.0, y.0] && both.1 == x.1 + y.1
  {
    NumberAllSnoc(d, [], a, next);
    NumberAllSnoc(d, [a], b, next);
    assert [] + [a] == [a] && [a] + [b] == [a, b];
    var x := Number(d, a, next);
    var one := NumberAll(d, [a], next);
    assert one.0 == [x.0] && one.1 == x.1;
  }

  lemma NumberJoin(d: Dialect, parts: seq<Closed>, next: nat)
    requires parts != []
    ensures Number(d, JoinAnd(parts), next).0 == JoinAnd(NumberAll(d, parts, next).0)
    ensures Number(d, JoinAnd(parts), next).1 == NumberAll(d, parts, next).1
    ensures Number(d, JoinOr(parts), next).0 == JoinOr(NumberAll(d, parts, next).0)
    ensures Number(d, JoinOr(parts), next).1 == NumberAll(d, parts, next).1
  {
    if |parts| == 1 {
      NumberAllSnoc(d, [], parts[0], next);
      assert parts == [] + [parts[0]];
      var x := Number(d, parts[0], next);
      var one := NumberAll(d, parts, next);
      assert one.0 == [x.0] && one.1 == x.1;
    }
  }

  /** One more value of a $in or $nin list adds one parameter, or none for null. */
  lemma MembershipStep(d: Dialect, t: Target, values: seq<Json>, v: Json, next: nat)
    ensures
      var init := NumberRefs(d, BoundAll(d, t, NonNulls(values)), next);
      var both := NumberRefs(d, BoundAll(d, t, NonNulls(values + [v])), next);
      if v.JNull? then both == init
      else
        && both.0 == init.0 + [RefAt(d, next + |init.1|, Bound(d, t, v).cast)]
        && both.1 == init.1 + [Bound(d, t, v).param]
  {
    NonNullsSnoc(values, v);
    if v.JNull? {
      assert NonNulls(values) + [] == NonNulls(values);
    } else {
      BoundAllSnoc(d, t, NonNulls(values), v);
      NumberRefsSnoc(d, BoundAll(d, t, NonNulls(values)), Bound(d, t, v), next);
    }
  }

  // ---------- one turn of a compiling loop ----------

  /** What the remaining keys, operators or branches add to the parts already done. */
  ghost function Prepend(done: seq<Closed>, rest: Result<seq<Closed>, Error>): Result<seq<Closed>, Error> {
    match rest
    case Err(e) => Err(e)
    case Ok(parts) => Ok(done + parts)
  }

  /** A loop has compiled done into parts and pushed their parameters; rest is still to come. */
  ghost predicate Progress(d: Dialect, next: nat, before: seq<Param>, after: seq<Param>, done: seq<Closed>,
                           parts: seq<Text>, all: Result<seq<Closed>, Error>, rest: Result<seq<Closed>, Error>)
  {
    && |parts| == |done|
    && parts == NumberAll(d, done, next).0
    && after == before + NumberAll(d, done, next).1
    && all == Prepend(done, rest)
  }

  lemma ProgressBegins(d: Dialect, next: nat, before: seq<Param>, all: Result<seq<Closed>, Error>)
    ensures Progress(d, next, before, before, [], [], all, all)
  {
    if all.Ok? {
      assert [] + all.value == all.value;
    }
  }

  lemma ProgressSteps(d: Dialect, next: nat, before: seq<Param>, mid: seq<Param>, after: seq<Param>,
                      done: seq<Closed>, parts: seq<Text>, all: Result<seq<Closed>, Error>, c: Result<Closed, Error>,
                      rest: Result<seq<Closed>, Error>, r: Result<Text, Error>)
    requires Progress(d, next, before, mid, done, parts, all, Cons(c, rest))
    requires next <= next + |mid| - |before| && Emits(d, next + |mid| - |before|, mid, after, c, r)
    ensures c.Err? ==> r == Err(c.error) && all == Err(c.error) && before <= after
    ensures c.Ok? ==> r.Ok? && Progress(d, next, before, after, done + [c.value], parts + [r.value], all, rest)
  {
    if c.Ok? {
      NumberAllSnoc(d, done, c.value, next);
      var sofar := NumberAll(d, done, next).1;
      var added := Number(d, c.value, next + |sofar|).1;
      assert before + sofar + added == before + (sofar + added);
      if rest.Ok? {
        assert done + ([c.value] + rest.value) == done + [c.value] + rest.value;
      }
    }
  }

  lemma ProgressEnds(d: Dialect, next: nat, before: seq<Param>, after: seq<Param>, done: seq<Closed>,
                     parts: seq<Text>, all: Result<seq<Closed>, Error>)
    requires Progress(d, next, before, after, done, parts, all, Ok([])) && done != []
    ensures all == Ok(done)
    ensures Emits(d, next, before, after, Ok(JoinAnd(done)), Ok(JoinAnd(parts)))
    ensures Emits(d, next, before, after, Ok(JoinOr(done)), Ok(JoinOr(parts)))
  {
    assert done + [] == done;
    NumberJoin(d, done, next);
  }

  /** The non-null values so far have been pushed, and refs names them. */
  ghost predicate BoundSoFar(d: Dialect, t: Target, values: seq<Json>, next: nat, before: seq<Param>,
                             after: seq<Param>, refs: seq<Ref>)
  {
    var n := NumberRefs(d, BoundAll(d, t, NonNulls(values)), next);
    refs == n.0 && after == before + n.1
  }

  lemma BoundOneMore(d: Dialect, t: Target, values: seq<Json>, v: Json, next: nat, before: seq<Param>,
                     after: seq<Param>, refs: seq<Ref>)
    requires |before| <= |after| && BoundSoFar(d, t, values, next, before, after, refs)
    ensures
      if v.JNull? then BoundSoFar(d, t, values + [v], next, before, after, refs)
      else BoundSoFar(d, t, values + [v], next, before, after + [Bound(d, t, v).param],
                      refs + [RefAt(d, next + |after| - |before|, Bound(d, t, v).cast)])
  {
    MembershipStep(d, t, values, v, next);
    AppendAssociates(before, NumberRefs(d, BoundAll(d, t, NonNulls(values)), next).1, [Bound(d, t, v).param]);
  }

  class Compiler {
    const d: Dialect
    const promoted: map<string, Column>
    const start: nat
    var params: seq<Param>

    constructor (d: Dialect, promoted: map<string, Column>, start: nat)
      ensures this.d == d && this.promoted == promoted && this.start == start && params == []
    {
      this.d := d;
      this.promoted := promoted;
      this.start := start;
      params := [];
    }

    /** push(): the placeholder of the parameter just appended. */
    method Push(value: Param, cast: bool) returns (r: Ref)
      modifies this`params
      ensures params == old(params) + [value]
      ensures r == RefAt(d, start + |old(params)|, cast)
    {
      params := params + [value];
      r := if d.Postgres? then Dollar(start + |params| - 1, cast) else Mark(cast);
    }

    /** value() in Postgres, push() with its boolean conversion in SQLite. */
    method PushValue(t: Target, v: Json) returns (r: Ref)
      modifies this`params
      ensures params == old(params) + [Bound(d, t, v).param]
      ensures r == RefAt(d, start + |old(params)|, Bound(d, t, v).cast)
    {
      if d.Sqlite? {
        r := Push(Value(Affine(v)), false);
      } else if t.isColumn {
        r := Push(Value(v), false);
      } else {
        r := Push(Encoded(v), true);
      }
    }

    method CompileEquality(t: Target, v: Json) returns (r: Result<Text, Error>)
      modifies this`params
      ensures Emits(d, start + |old(params)|, old(params), params, Ok(Equality(d, t, v)), r)
    {
      if v.JNull? {
        NumberNullMatch(d, t, start + |params|);
        return Ok(NullMatch(d, t));
      }
      if d.Sqlite? && Composite(v) {
        var whole := Push(Encoded(v), true);
        return Ok(Equal(Raw(t.segments), whole));
      }
      var bound := PushValue(t, v);
      return Ok(Equal(t.expr, bound));
    }

    /** The loop of membership(): bind every non-null value, note whether null was among them. */
    method BindMembers(t: Target, op: string, values: seq<Json>) returns (r: Result<(seq<Ref>, bool), Error>)
      modifies this`params
      ensures old(params) <= params
      ensures r.Err? <==> d.Sqlite? && exists v | v in values :: Composite(v)
      ensures r.Err? ==> r.error == ScalarsOnly(op)
      ensures r.Ok? ==>
                var n := NumberRefs(d, BoundAll(d, t, NonNulls(values)), start + |old(params)|);
                r.value == (n.0, JNull in values) && params == old(params) + n.1
    {
      var refs: seq<Ref> := [];
      var hasNull := false;
      ghost var next := start + |params|;
      for i := 0 to |values|
        invariant d.Sqlite? ==> forall v | v in values[..i] :: !Composite(v)
        invariant hasNull <==> JNull in values[..i]
        invariant |old(params)| <= |params| && BoundSoFar(d, t, values[..i], next, old(params), params, refs)
      {
        var v := values[i];
        assert values[..i + 1] == values[..i] + [v];
        BoundOneMore(d, t, values[..i], v, next, old(params), params, refs);
        if v.JNull? {
          hasNull := true;
        } else {
          if d.Sqlite? && Composite(v) {
            assert v in values;
            return Err(ScalarsOnly(op));
          }
          var bound := PushValue(t, v);
          refs := refs + [bound];
        }
      }
      assert values[..|values|] == values;
      return Ok((refs, hasNull));
    }

    method CompileMembership(t: Target, op: string, operand: Json) returns (r: Result<Text, Error>)
      modifies this`params
      ensures Emits(d, start + |old(params)|, old(params), params, Membership(d, t, op, operand), r)
    {
      if !operand.JArr? {
        return Err(ListExpected(op));
      }
      ghost var next := start + |params|;
      var bound := BindMembers(t, op, operand.items);
      if bound.Err? {
        return Err(bound.error);
      }
      MembershipNumbers(d, t, op, operand, next);
      return Ok(AssembleMembership(d, t, op == OP_IN, bound.value.0, bound.value.1));
    }

    method CompileOperator(t: Target, op: string, operand: Json) returns (r: Result<Text, Error>)
      modifies this`params
      ensures Emits(d, start + |old(params)|, old(params), params, OperatorClause(d, t, op, operand), r)
      ensures r.Ok? <==> OperatorSpelled(d, op, operand)
    {
      OperatorExact(d, t, op, operand);
      if op == OP_EQ {
        r := CompileEquality(t, operand);
      } else if op == OP_NE {
        if operand.JNull? {
          NumberNullMatch(d, t, start + |params|);
          return Ok(NullMismatch(d, t));
        }
        var bound := PushValue(t, operand);
        return Ok(Distinct(t.expr, bound));
      } else if op == OP_IN || op == OP_NIN {
        r := CompileMembership(t, op, operand);
      } else if Ordering(op) {
        var bound := PushValue(t, operand);
        return Ok(Ordered(op, t.expr, bound));
      } else if op == OP_EXISTS {
        return Ok(if operand == JBool(true) then NotNull(Raw(t.segments)) else IsNull(Raw(t.segments)));
      } else {
        return Err(UnsupportedOperator(op));
      }
    }

    method CompileOperators(t: Target, condition: Json, ops: seq<string>) returns (r: Result<Text, Error>)
      requires condition.JObj? && ops != [] && forall op | op in ops :: op in condition.fields
      modifies this`params
      ensures
        var closed := OperatorClauses(d, t, condition, ops);
        Emits(d, start + |old(params)|, old(params), params,
              if closed.Err? then Err(closed.error) else Ok(JoinAnd(closed.value)), r)
    {
      var parts: seq<Text> := [];
      ghost var done: seq<Closed> := [];
      ghost var next := start + |params|;
      ghost var all := OperatorClauses(d, t, condition, ops);
      ProgressBegins(d, next, params, all);
      assert ops[0..] == ops;
      for i := 0 to |ops|
        invariant |done| == i
        invariant Progress(d, next, old(params), params, done, parts, all, OperatorClauses(d, t, condition, ops[i..]))
      {
        ghost var mid := params;
        ghost var c := OperatorClause(d, t, ops[i], condition.fields[ops[i]]);
        ghost var rest := OperatorClauses(d, t, condition, ops[i + 1..]);
        assert ops[i..][1..] == ops[i + 1..];
        var part := CompileOperator(t, ops[i], condition.fields[ops[i]]);
        ProgressSteps(d, next, old(params), mid, params, done, parts, all, c, rest, part);
        if part.Err? {
          return Err(part.error);
        }
        done := done + [c.value];
        parts := parts + [part.value];
      }
      ProgressEnds(d, next, old(params), params, done, parts, all);
      return Ok(JoinAnd(parts));
    }

    method CompileField(path: string, condition: Json) returns (r: Result<Text, Error>)
      modifies this`params
      ensures Emits(d, start + |old(params)|, old(params), params, FieldClause(d, promoted, path, condition), r)
    {
      var target := TargetOf(promoted, path);
      if target.Err? {
        r := Err(target.error);
      } else if IsOperators(condition) {
        OperatorsNonEmpty(condition);
        r := CompileOperators(target.value, condition, Sorted(condition.fields.Keys));
      } else {
        r := CompileEquality(target.value, condition);
      }
    }

    method CompileKey(key: string, value: Json) returns (r: Result<Text, Error>)
      modifies this`params
      ensures Emits(d, start + |old(params)|, old(params), params, KeyClause(d, promoted, key, value), r)
      decreases value, 6
    {
      if key == OP_AND || key == OP_OR {
        if !value.JArr? {
          return Err(FiltersExpected);
        }
        if exists b | b in value.items :: !b.JObj? {
          return Err(BranchNotFilter);
        }
        if value.items == [] {
          return Ok(Const(key == OP_AND));
        }
        r := CompileBranches(value.items, key == OP_AND);
        return;
      }
      if HasPrefix(key, "$") {
        return Err(UnsupportedKey(key));
      }
      r := CompileField(key, value);
    }

    /** The branches of a $and or an $or, one after another, then joined. */
    method CompileBranches(branches: seq<Json>, isAnd: bool) returns (r: Result<Text, Error>)
      requires branches != [] && forall b | b in branches :: b.JObj?
      modifies this`params
      ensures
        var all := BranchClauses(d, promoted, branches);
        Emits(d, start + |old(params)|, old(params), params,
              if all.Err? then Err(all.error) else Ok(if isAnd then JoinAnd(all.value) else JoinOr(all.value)), r)
      decreases branches, 5
    {
      var texts: seq<Text> := [];
      ghost var done: seq<Closed> := [];
      ghost var next := start + |params|;
      ghost var all := BranchClauses(d, promoted, branches);
      ProgressBegins(d, next, params, all);
      assert branches[0..] == branches;
      for i := 0 to |branches|
        invariant |done| == i
        invariant Progress(d, next, old(params), params, done, texts, all, BranchClauses(d, promoted, branches[i..]))
      {
        var text, c := CompileBranch(branches, i, old(params), done, texts, all);
        if text.Err? {
          return Err(text.error);
        }
        done := done + [c];
        texts := texts + [text.value];
      }
      ProgressEnds(d, next, old(params), params, done, texts, all);
      return Ok(if isAnd then JoinAnd(texts) else JoinOr(texts));
    }

    /** One turn of that loop. */
    method CompileBranch(branches: seq<Json>, i: nat, ghost before: seq<Param>, ghost done: seq<Closed>,
                         ghost texts: seq<Text>, ghost all: Result<seq<Closed>, Error>)
      returns (text: Result<Text, Error>, ghost c: Closed)
      requires i < |branches| && (forall b | b in branches :: b.JObj?) && |before| <= |params|
      requires Progress(d, start + |before|, before, params, done, texts, all,
                        BranchClauses(d, promoted, branches[i..]))
      modifies this`params
      ensures text.Err? ==> all == Err(text.error) && before <= params
      ensures text.Ok? ==>
        |before| <= |params| && Progress(d, start + |before|, before, params, done + [c], texts + [text.value], all,
                                         BranchClauses(d, promoted, branches[i + 1..]))
      decreases branches, 4
    {
      ghost var mid, closed := params, Compiled(d, promoted, branches[i]);
      assert branches[i..][1..] == branches[i + 1..];
      text := Compile(branches[i]);
      ProgressSteps(d, start + |before|, before, mid, params, done, texts, all, closed,
                    BranchClauses(d, promoted, branches[i + 1..]), text);
      c := if closed.Ok? then closed.value else Const(true);
    }

    method Compile(where: Json) returns (r: Result<Text, Error>)
      requires where.JObj?
      modifies this`params
      ensures Emits(d, start + |old(params)|, old(params), params, Compiled(d, promoted, where), r)
      ensures r.Ok? <==> Spelled(d, where)
      decreases where, 4
    {
      CompilesExact(d, promoted, where);
      if where.fields == map[] {
        return Ok(Const(true));
      }
      r := CompileKeys(where, Sorted(where.fields.Keys));
    }

    /** The keys of a filter, in sorted order, and-ed. */
    method CompileKeys(where: Json, keys: seq<string>) returns (r: Result<Text, Error>)
      requires where.JObj? && keys != [] && forall k | k in keys :: k in where.fields
      modifies this`params
      ensures
        var all := Clauses(d, promoted, where, keys);
        Emits(d, start + |old(params)|, old(params), params,
              if all.Err? then Err(all.error) else Ok(JoinAnd(all.value)), r)
      decreases where, 3
    {
      var parts: seq<Text> := [];
      ghost var done: seq<Closed> := [];
      ghost var next := start + |params|;
      ghost var all := Clauses(d, promoted, where, keys);
      ProgressBegins(d, next, params, all);
      assert keys[0..] == keys;
      for i := 0 to |keys|
        invariant |done| == i
        invariant Progress(d, next, old(params), params, done, parts, all, Clauses(d, promoted, where, keys[i..]))
      {
        var part, c := CompileOneKey(where, keys, i, old(params), done, parts, all);
        if part.Err? {
          return Err(part.error);
        }
        done := done + [c];
        parts := parts + [part.value];
      }
      ProgressEnds(d, next, old(params), params, done, parts, all);
      return Ok(JoinAnd(parts));
    }

    /** One turn of that loop. */
    method CompileOneKey(where: Json, keys: seq<string>, i: nat, ghost before: seq<Param>, ghost done: seq<Closed>,
                         ghost parts: seq<Text>, ghost all: Result<seq<Closed>, Error>)
      returns (part: Result<Text, Error>, ghost c: Closed)
      requires where.JObj? && i < |keys| && (forall k | k in keys :: k in where.fields) && |before| <= |params|
      requires Progress(d, start + |before|, before, params, done, parts, all, Clauses(d, promoted, where, keys[i..]))
      modifies this`params
      ensures part.Err? ==> all == Err(part.error) && before <= params
      ensures part.Ok? ==>
        |before| <= |params| && Progress(d, start + |before|, before, params, done + [c], parts + [part.value], all,
                                         Clauses(d, promoted, where, keys[i + 1..]))
      decreases where, 2
    {
      ghost var mid, closed := params, KeyClause(d, promoted, keys[i], where.fields[keys[i]]);
      assert keys[i..][1..] == keys[i + 1..];
      part := CompileKey(keys[i], where.fields[keys[i]]);
      ProgressSteps(d, start + |before|, before, mid, params, done, parts, all, closed,
                    Clauses(d, promoted, where, keys[i + 1..]), part);
      c := if closed.Ok? then closed.value else Const(true);
    }
  }

  /** The pieces of a membership test put together, over any operand representation. */
  function AssembleMembership<R>(d: Dialect, t: Target, isIn: bool, bound: seq<R>, hasNull: bool): Sql<R> {
    if isIn then
      var parts := (if bound != [] then [InList(t.expr, bound)] else [])
                   + (if hasNull then [NullMatch(d, t)] else []);
      if parts == [] then Const(false) else JoinOr(parts)
    else
      var notIn := NotInList(t.expr, bound);
      var parts := (if bound == [] then []
                    else if hasNull then [notIn]
                    else [Or([IsNull(t.expr), notIn])])
                   + (if hasNull then [NullMismatch(d, t)] else []);
      if parts == [] then Const(true) else JoinAnd(parts)
  }

  lemma MembershipNumbers(d: Dialect, t: Target, op: string, operand: Json, next: nat)
    requires operand.JArr? && !(d.Sqlite? && exists v | v in operand.items :: Composite(v))
    ensures
      var bound := BoundAll(d, t, NonNulls(operand.items));
      var refs := NumberRefs(d, bound, next);
      var both := Number(d, Membership(d, t, op, operand).value, next);
      both.0 == AssembleMembership(d, t, op == OP_IN, refs.0, JNull in operand.items) && both.1 == refs.1
  {
    var bound := BoundAll(d, t, NonNulls(operand.items));
    AssemblyNumbers(d, t, op == OP_IN, bound, JNull in operand.items, next);
    assert Membership(d, t, op, operand).value == AssembleMembership(d, t, op == OP_IN, bound, JNull in operand.items);
  }

  lemma AssemblyNumbers(d: Dialect, t: Target, isIn: bool, bound: seq<Operand>, hasNull: bool, next: nat)
    ensures
      var refs := NumberRefs(d, bound, next);
      var both := Number(d, AssembleMembership(d, t, isIn, bound, hasNull), next);
      both.0 == AssembleMembership(d, t, isIn, refs.0, hasNull) && both.1 == refs.1
  {
    if isIn {
      InNumbers(d, t, bound, hasNull, next);
    } else {
      NinNumbers(d, t, bound, hasNull, next);
    }
  }

  /** A list with null: the clause or the null test. */
  lemma InNullNumbers(d: Dialect, t: Target, bound: seq<Operand>, next: nat)
    requires bound != []
    ensures
      var refs := NumberRefs(d, bound, next);
      var both := Number(d, Or([InList(t.expr, bound), NullMatch(d, t)]), next);
      both.0 == Or([InList(t.expr, refs.0), NullMatch(d, t)]) && both.1 == refs.1
  {
    var refs := NumberRefs(d, bound, next);
    NumberNullMatch(d, t, next + |refs.1|);
    NumberPair(d, InList(t.expr, bound), NullMatch(d, t), next);
  }

  lemma AssembledIn<R>(d: Dialect, t: Target, bound: seq<R>, hasNull: bool)
    requires bound != []
    ensures AssembleMembership(d, t, true, bound, hasNull)
         == if hasNull then Or([InList(t.expr, bound), NullMatch(d, t)]) else InList(t.expr, bound)
  {
    assert [InList(t.expr, bound)] + [NullMatch(d, t)] == [InList(t.expr, bound), NullMatch(d, t)];
  }

  lemma InNumbers(d: Dialect, t: Target, bound: seq<Operand>, hasNull: bool, next: nat)
    ensures
      var refs := NumberRefs(d, bound, next);
      var both := Number(d, AssembleMembership(d, t, true, bound, hasNull), next);
      both.0 == AssembleMembership(d, t, true, refs.0, hasNull) && both.1 == refs.1
  {
    if bound == [] {
      NumberNullMatch(d, t, next);
    } else {
      AssembledIn(d, t, bound, hasNull);
      AssembledIn(d, t, NumberRefs(d, bound, next).0, hasNull);
      if hasNull {
        InNullNumbers(d, t, bound, next);
      }
    }
  }

  /** A list that excludes null: the clause and the null test, joined by AND. */
  lemma NinNullNumbers(d: Dialect, t: Target, bound: seq<Operand>, next: nat)
    requires bound != []
    ensures
      var refs := NumberRefs(d, bound, next);
      var both := Number(d, And([NotInList(t.expr, bound), NullMismatch(d, t)]), next);
      both.0 == And([NotInList(t.expr, refs.0), NullMismatch(d, t)]) && both.1 == refs.1
  {
    var refs := NumberRefs(d, bound, next);
    NumberNullMatch(d, t, next + |refs.1|);
    NumberPair(d, NotInList(t.expr, bound), NullMismatch(d, t), next);
  }

  /** A list without null: absence is let in beside the clause. */
  lemma NinAbsentNumbers(d: Dialect, t: Target, bound: seq<Operand>, next: nat)
    requires bound != []
    ensures
      var refs := NumberRefs(d, bound, next);
      var both := Number(d, Or([IsNull(t.expr), NotInList(t.expr, bound)]), next);
      both.0 == Or([IsNull(t.expr), NotInList(t.expr, refs.0)]) && both.1 == refs.1
  {
    NumberPair(d, IsNull(t.expr), NotInList(t.expr, bound), next);
  }

  lemma AssembledNin<R>(d: Dialect, t: Target, bound: seq<R>, hasNull: bool)
    requires bound != []
    ensures AssembleMembership(d, t, false, bound, hasNull)
         == if hasNull then And([NotInList(t.expr, bound), NullMismatch(d, t)])
            else Or([IsNull(t.expr), NotInList(t.expr, bound)])
  {
    assert [NotInList(t.expr, bound)] + [NullMismatch(d, t)] == [NotInList(t.expr, bound), NullMismatch(d, t)];
  }

  lemma NinNumbers(d: Dialect, t: Target, bound: seq<Operand>, hasNull: bool, next: nat)
    ensures
      var refs := NumberRefs(d, bound, next);
      var both := Number(d, AssembleMembership(d, t, false, bound, hasNull), next);
      both.0 == AssembleMembership(d, t, false, refs.0, hasNull) && both.1 == refs.1
  {
    if bound == [] {
      NumberNullMatch(d, t, next);
    } else {
      AssembledNin(d, t, bound, hasNull);
      AssembledNin(d, t, NumberRefs(d, bound, next).0, hasNull);
      if hasNull {
        NinNullNumbers(d, t, bound, next);
      } else {
        NinAbsentNumbers(d, t, bound, next);
      }
    }
  }

  lemma OperatorsNonEmpty(condition: Json)
    requires IsOperators(condition)
    ensures Sorted(condition.fields.Keys) != []
  {
    var k :| k in condition.fields && HasPrefix(k, "$");
    assert k in Sorted(condition.fields.Keys);
  }

  /** compileWhere(): a clause and its parameters, numbered from start. */
  method CompileWhere(d: Dialect, where: Json, promoted: map<string, Column>, start: nat)
    returns (r: Result<(Text, seq<Param>), Error>)
    requires where.JObj?
    ensures
      var c := Compiled(d, promoted, where);
      r == if c.Err? then Err(c.error) else Ok(Number(d, c.value, start))
    ensures r.Ok? <==> Spelled(d, where)
    ensures r.Err? ==> Blamed(d, r.error)
  {
    CompilesExact(d, promoted, where);
    var c := new Compiler(d, promoted, start);
    var text := c.Compile(where);
    if text.Err? {
      return Err(text.error);
    }
    ghost var n := Number(d, Compiled(d, promoted, where).value, start);
    assert [] + n.1 == n.1;
    return Ok((text.value, c.params));
  }
}
