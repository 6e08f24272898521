/**
 * The SET expressions of the two SQL backends (setExpr in db/pg/backend.go and
 * db/sqlite/backend.go) against memdb's apply.
 */
module SqlUpdate {
  import opened Wrappers
  import opened Strings
  import opened JsonValue
  import opened DeepSet
  import opened Diff
  import opened DiffPaths
  import opened Update
  import opened Merge

  // ---------- Postgres ----------

  /** jsonb_set with a one-element path on an object, create_missing true. */
  function JsonbSet(target: Json, key: string, value: Json): (r: Json)
    requires target.JObj?
    ensures r.JObj?
  {
    JObj(target.fields[key := value])
  }

  /** howl_jsonb_deep_set, as the plpgsql body has it; a NULL target is None. */
  function HowlDeepSet(target: Option<Json>, path: seq<string>, value: Json): (r: Json)
    requires path != [] && (target.Some? ==> target.value.JObj?)
    ensures r.JObj?
    decreases |path|
  {
    var whole := if target.Some? then target.value else JObj(map[]);
    if |path| == 1 then JsonbSet(whole, path[0], value)
    else
      var below := if target.Some? then Get(target.value.fields, path[0]) else None;
      var child := if below.Some? && below.value.JObj? then below.value else JObj(map[]);
      JsonbSet(whole, path[0], HowlDeepSet(Option.Some(child), path[1..], value))
  }

  /** The plpgsql function is memdb's set. */
  lemma {:induction false} HowlDeepSetIsSet(node: Json, path: seq<string>, value: Json)
    requires node.JObj? && path != []
    ensures HowlDeepSet(Option.Some(node), path, value) == Set(node, path, value)
    decreases |path|
  {
    if |path| > 1 {
      HowlDeepSetIsSet(Child(node, path[0]), path[1..], value);
    }
  }

  /** The expression Postgres is sent: deep-sets naming their $n, then removals, then the bump. */
  datatype PgExpr =
    | Doc
    | DeepSet(inner: PgExpr, path: seq<string>, n: nat)
    | Remove(inner: PgExpr, path: seq<string>)
    | Bump(inner: PgExpr)

  /** A segment that an array literal reads as SQL NULL. */
  predicate NullWord(s: string) {
    && |s| == 4 && s[0] in "nN" && s[1] in "uU" && s[2] in "lL" && s[3] in "lL"
  }

  /** The segments inside '{...}' are the segments of the path: jsonb_set refuses a NULL one. */
  predicate Literal(path: seq<string>) {
    forall s | s in path :: !NullWord(s)
  }

  /**
   * #- fails on the way down at a NULL segment, and at an array, whose index an identifier is not.
   * Any other value, and a missing key, end the walk quietly.
   */
  predicate WalkFails(node: Json, path: seq<string>)
    requires path != []
    decreases |path|
  {
    || NullWord(path[0])
    || node.JArr?
    || (|path| > 1 && node.JObj? && path[0] in node.fields && WalkFails(node.fields[path[0]], path[1..]))
  }

  /** On an empty document #- does nothing, whatever the path. */
  predicate RemovalFails(doc: Json, path: seq<string>)
    requires doc.JObj? && path != []
  {
    doc.fields != map[] && WalkFails(doc, path)
  }

  /** The value of the expression for a stored row, None when the statement fails. */
  function EvalPg(e: PgExpr, row: Json, params: seq<Json>): (r: Option<Json>)
    requires row.JObj?
    ensures r.Some? ==> r.value.JObj?
  {
    match e
    case Doc => Option.Some(row)
    case DeepSet(inner, path, n) =>
      var target := EvalPg(inner, row, params);
      if target.None? || path == [] || !Literal(path) || !(1 <= n <= |params|) then None
      else Option.Some(HowlDeepSet(target, path, params[n - 1]))
    case Remove(inner, path) =>
      var target := EvalPg(inner, row, params);
      if target.None? || path == [] || RemovalFails(target.value, path) then None
      else Option.Some(Unset(target.value, path))
    case Bump(inner) =>
      // (doc->>'version')::bigint + 1 reads the row as it was before the update
      var target := EvalPg(inner, row, params);
      if target.None? || !IntegralVersion(row) then None
      else Option.Some(JsonbSet(target.value, VERSION_PATH, JNum(VersionOf(row).value + 1.0)))
  }

  predicate IntegralVersion(doc: Json)
    requires doc.JObj?
  {
    VersionOf(doc).Some? && VersionOf(doc).value == VersionOf(doc).value.Floor as real
  }

  predicate GoodPath(path: string) {
    forall s | s in Split(path) :: Identifier(s)
  }

  predicate AllGood(paths: seq<string>) {
    forall p | p in paths :: GoodPath(p)
  }

  /** The chain of deep-sets over the listed paths, the i-th naming parameter base + i. */
  function PgSets(keys: seq<string>, base: nat): PgExpr {
    if keys == [] then Doc
    else DeepSet(PgSets(keys[..|keys| - 1], base), Split(keys[|keys| - 1]), base + |keys|)
  }

  function PgRemoves(e: PgExpr, names: seq<string>): PgExpr {
    if names == [] then e
    else Remove(PgRemoves(e, names[..|names| - 1]), Split(names[|names| - 1]))
  }

  function ValuesOf(paths: map<string, Json>, keys: seq<string>): (values: seq<Json>)
    requires forall p | p in keys :: p in paths
    ensures |values| == |keys|
    ensures forall i | 0 <= i < |keys| :: values[i] == paths[keys[i]]
  {
    seq(|keys|, i requires 0 <= i < |keys| => paths[keys[i]])
  }

  function PgExprOf(paths: map<string, Json>, o: Options, base: nat): PgExpr {
    var chain := PgRemoves(PgSets(Sorted(paths.Keys), base), o.unset);
    if o.noBump then chain else Bump(chain)
  }

  /** setExpr for Postgres: encoded values are appended to params as the expression names them. */
  method PgSetExpr(paths: map<string, Json>, o: Options, params: seq<Json>) returns (r: Option<(PgExpr, seq<Json>)>)
    ensures r.Some? <==> Accepted(paths, o)
    ensures r.Some? ==>
              && r.value.0 == PgExprOf(paths, o, |params|)
              && r.value.1 == params + ValuesOf(paths, Sorted(paths.Keys))
  {
    var sets := PgSetChain(paths, Sorted(paths.Keys), params);
    if sets.None? {
      return None;
    }
    var chain := PgRemovals(sets.value.0, o.unset);
    if chain.None? {
      return None;
    }
    return Option.Some((if o.noBump then chain.value else Bump(chain.value), sets.value.1));
  }

  /** One deep-set a path, each naming the parameter it was pushed as. */
  method PgSetChain(paths: map<string, Json>, keys: seq<string>, params: seq<Json>)
    returns (r: Option<(PgExpr, seq<Json>)>)
    requires forall p | p in keys :: p in paths
    ensures r.Some? <==> AllGood(keys)
    ensures r.Some? ==> r.value.0 == PgSets(keys, |params|) && r.value.1 == params + ValuesOf(paths, keys)
  {
    var e, bound := Doc, params;
    for i := 0 to |keys|
      invariant AllGood(keys[..i]) && forall p | p in keys[..i] :: p in paths
      invariant bound == params + ValuesOf(paths, keys[..i]) && e == PgSets(keys[..i], |params|)
    {
      var p := keys[i];
      assert p in keys && keys[..i + 1] == keys[..i] + [p] && keys[..i + 1][..i] == keys[..i];
      if !GoodPath(p) {
        return None;
      }
      bound := bound + [paths[p]];
      e := DeepSet(e, Split(p), |bound|);
    }
    assert keys[..|keys|] == keys;
    return Option.Some((e, bound));
  }

  method PgRemovals(e: PgExpr, names: seq<string>) returns (r: Option<PgExpr>)
    ensures r == if AllGood(names) then Option.Some(PgRemoves(e, names)) else None
  {
    var chain := e;
    for i := 0 to |names|
      invariant AllGood(names[..i]) && chain == PgRemoves(e, names[..i])
    {
      var p := names[i];
      assert p in names && names[..i + 1] == names[..i] + [p] && names[..i + 1][..i] == names[..i];
      if !GoodPath(p) {
        return None;
      }
      chain := Remove(chain, Split(p));
    }
    assert names[..|names|] == names;
    return Option.Some(chain);
  }

  predicate AllLiteral(paths: seq<string>) {
    forall p | p in paths :: Literal(Split(p))
  }

  /** Every $n of the chain names the value of its path, wherever the values start and whatever follows. */
  lemma {:induction false} EvalPgSets(paths: map<string, Json>, keys: seq<string>, row: Json, before: seq<Json>,
                                      after: seq<Json>)
    requires row.JObj? && forall p | p in keys :: p in paths
    ensures EvalPg(PgSets(keys, |before|), row, before + ValuesOf(paths, keys) + after)
         == if AllLiteral(keys) then Option.Some(SetAll(row, paths, keys)) else None
    decreases |keys|
  {
    if keys != [] {
      var n := |keys| - 1;
      var last := keys[n];
      assert keys == keys[..n] + [last];
      assert before + ValuesOf(paths, keys) + after == before + ValuesOf(paths, keys[..n]) + ([paths[last]] + after);
      EvalPgSets(paths, keys[..n], row, before, [paths[last]] + after);
      SetAllSnoc(row, paths, keys[..n], last);
      HowlDeepSetIsSet(SetAll(row, paths, keys[..n]), Split(last), paths[last]);
    }
  }

  /** No removal, when its turn comes, walks into an array or a NULL segment. */
  predicate RemovalsRun(doc: Json, names: seq<string>)
    requires doc.JObj?
    decreases |names|
  {
    names == [] ||
    var init, last := names[..|names| - 1], names[|names| - 1];
    RemovalsRun(doc, init) && !RemovalFails(UnsetAll(doc, init), Split(last))
  }

  lemma {:induction false} EvalPgRemoves(e: PgExpr, names: seq<string>, row: Json, params: seq<Json>)
    requires row.JObj?
    ensures
      var doc := EvalPg(e, row, params);
      EvalPg(PgRemoves(e, names), row, params)
      == if doc.Some? && RemovalsRun(doc.value, names) then Option.Some(UnsetAll(doc.value, names)) else None
    decreases |names|
  {
    if names != [] {
      var n := |names| - 1;
      assert names == names[..n] + [names[n]];
      EvalPgRemoves(e, names[..n], row, params);
      if EvalPg(e, row, params).Some? {
        UnsetAllSnoc(EvalPg(e, row, params).value, names[..n], names[n]);
      }
    }
  }

  /** The statement runs on this row. */
  predicate PgRuns(row: Json, paths: map<string, Json>, o: Options)
    requires row.JObj?
  {
    && AllLiteral(Sorted(paths.Keys))
    && RemovalsRun(SetAll(row, paths, Sorted(paths.Keys)), o.unset)
    && (o.noBump || IntegralVersion(row))
  }

  /** The Postgres statement's expression, evaluated with its parameters inside a longer list. */
  lemma PgExprMeans(paths: map<string, Json>, o: Options, row: Json, before: seq<Json>, after: seq<Json>)
    requires row.JObj?
    ensures EvalPg(PgExprOf(paths, o, |before|), row, before + ValuesOf(paths, Sorted(paths.Keys)) + after)
         == if PgRuns(row, paths, o) then Option.Some(PgApply(row, paths, o)) else None
  {
    var keys := Sorted(paths.Keys);
    var params := before + ValuesOf(paths, keys) + after;
    EvalPgSets(paths, keys, row, before, after);
    EvalPgRemoves(PgSets(keys, |before|), o.unset, row, params);
    EvalPgBump(PgRemoves(PgSets(keys, |before|), o.unset), row, params, o);
  }

  /** The bump, when there is one, on whatever the chain before it gives. */
  lemma EvalPgBump(e: PgExpr, row: Json, params: seq<Json>, o: Options)
    requires row.JObj?
    ensures
      var body := EvalPg(e, row, params);
      EvalPg(if o.noBump then e else Bump(e), row, params)
      == if body.Some? && (o.noBump || IntegralVersion(row)) then Option.Some(BumpFrom(body.value, row, o)) else None
  {
  }

  /** setExpr of either backend accepts the update: every segment is an identifier. */
  predicate Accepted(paths: map<string, Json>, o: Options) {
    AllGood(Sorted(paths.Keys)) && AllGood(o.unset)
  }

  /**
   * The whole UPDATE on a row it matches: what it stores, None when setExpr refuses a path or the
   * statement fails. before and after are the parameters around the ones setExpr binds.
   */
  function PgUpdate(row: Json, paths: map<string, Json>, o: Options, before: seq<Json>, after: seq<Json>)
    : (r: Option<Json>)
    requires row.JObj?
    ensures r.Some? ==> r.value.JObj?
  {
    if !Accepted(paths, o) then None
    else EvalPg(PgExprOf(paths, o, |before|), row, before + ValuesOf(paths, Sorted(paths.Keys)) + after)
  }

  /** What the Postgres statement leaves: sets in key order, removals, and the old version plus one. */
  function PgApply(row: Json, paths: map<string, Json>, o: Options): Json
    requires row.JObj?
  {
    BumpFrom(UnsetAll(SetAll(row, paths, Sorted(paths.Keys)), o.unset), row, o)
  }

  /** The version written is the row's as it was before the update, plus one. */
  function BumpFrom(body: Json, row: Json, o: Options): (r: Json)
    requires body.JObj? && row.JObj?
    ensures r.JObj?
  {
    if o.noBump || VersionOf(row).None? then body
    else JsonbSet(body, VERSION_PATH, JNum(VersionOf(row).value + 1.0))
  }

  /** Reading the version before or after the sets is the same when they spare it. */
  lemma BumpsAgree(body: Json, row: Json, o: Options)
    requires body.JObj? && row.JObj? && VersionOf(body) == VersionOf(row) && (!o.noBump ==> VersionOf(row).Some?)
    ensures BumpFrom(body, row, o) == if o.noBump then body else Bumped(body)
  {
  }

  lemma {:induction false} UnsetAllSnoc(doc: Json, names: seq<string>, name: string)
    requires doc.JObj?
    ensures UnsetAll(doc, names + [name]) == Unset(UnsetAll(doc, names), Split(name))
    decreases |names|
  {
    if names == [] {
      assert names + [name] == [name] && [name][1..] == [];
      assert UnsetAll(Unset(doc, Split(name)), []) == Unset(doc, Split(name));
    } else {
      assert (names + [name])[1..] == names[1..] + [name];
      UnsetAllSnoc(Unset(doc, Split(names[0])), names[1..], name);
    }
  }

  // ---------- the version ----------

  /** A path that stays away from the version. */
  predicate SparesVersion(path: string) {
    Split(path)[0] != VERSION_PATH
  }

  lemma {:induction false} SetAllVersion(doc: Json, paths: map<string, Json>, order: seq<string>)
    requires doc.JObj? && forall p | p in order :: p in paths && SparesVersion(p)
    ensures VersionOf(SetAll(doc, paths, order)) == VersionOf(doc)
    decreases |order|
  {
    if order != [] {
      SetAllVersion(Set(doc, Split(order[0]), paths[order[0]]), paths, order[1..]);
    }
  }

  lemma UnsetOneVersion(doc: Json, path: seq<string>)
    requires doc.JObj? && path != [] && path[0] != VERSION_PATH
    ensures VersionOf(Unset(doc, path)) == VersionOf(doc)
  {
  }

  lemma {:induction false} UnsetAllVersion(doc: Json, names: seq<string>)
    requires doc.JObj? && forall p | p in names :: SparesVersion(p)
    ensures VersionOf(UnsetAll(doc, names)) == VersionOf(doc)
    decreases |names|
  {
    if names != [] {
      assert names[0] in names;
      UnsetOneVersion(doc, Split(names[0]));
      UnsetAllVersion(Unset(doc, Split(names[0])), names[1..]);
    }
  }

  /** No path is above another, and sets and removals stay away from the version. */
  ghost predicate Spares(paths: map<string, Json>, o: Options) {
    && PrefixFree(paths.Keys)
    && (forall p | p in paths.Keys :: SparesVersion(p))
    && (forall p | p in o.unset :: SparesVersion(p))
  }

  ghost predicate WellFormedUpdate(doc: Json, paths: map<string, Json>, o: Options)
    requires doc.JObj?
  {
    Spares(paths, o) && (!o.noBump ==> VersionOf(doc).Some?)
  }

  /** memdb's loop in any order and Postgres's sorted chain of deep-sets leave the same document. */
  lemma PgApplies(doc: Json, paths: map<string, Json>, order: seq<string>, o: Options)
    requires doc.JObj? && Lists(order, paths.Keys) && WellFormedUpdate(doc, paths, o)
    ensures PgApply(doc, paths, o) == Apply(doc, paths, order, o)
  {
    var sorted := Sorted(paths.Keys);
    SortedDistinct(paths.Keys);
    OrderIrrelevant(doc, paths, paths.Keys, order, sorted);
    SetAllVersion(doc, paths, sorted);
    UnsetAllVersion(SetAll(doc, paths, sorted), o.unset);
    BumpsAgree(UnsetAll(SetAll(doc, paths, sorted), o.unset), doc, o);
  }

  /**
   * Postgres stores memdb's document or nothing. It stores it if and only if every segment is an
   * identifier, no set path has a segment that reads as NULL, no removal walks into such a segment
   * or an array, and there is a whole version to count from.
   */
  lemma PostgresApplies(doc: Json, paths: map<string, Json>, order: seq<string>, o: Options,
                        before: seq<Json>, after: seq<Json>)
    requires doc.JObj? && Lists(order, paths.Keys) && Spares(paths, o)
    requires !o.noBump ==> NumericVersion(doc)
    ensures
      PgUpdate(doc, paths, o, before, after)
      == if Accepted(paths, o) && PgRuns(doc, paths, o) then Option.Some(Apply(doc, paths, order, o)) else None
  {
    PgExprMeans(paths, o, doc, before, after);
    if PgRuns(doc, paths, o) {
      PgApplies(doc, paths, order, o);
    }
  }

  // ---------- SQLite ----------

  /** The listed paths are pairwise incomparable. */
  ghost predicate Apart(keys: seq<string>) {
    forall i, j | 0 <= i < |keys| && 0 <= j < |keys| && i != j :: Incomparable(Split(keys[i]), Split(keys[j]))
  }

  /** The non-null paths, and the null ones, of a sorted key list. */
  function ByNull(paths: map<string, Json>, keys: seq<string>, isNull: bool): (r: seq<string>)
    requires forall p | p in keys :: p in paths
    ensures forall p :: p in r <==> p in keys && paths[p].JNull? == isNull
  {
    if keys == [] then []
    else
      var last := keys[|keys| - 1];
      assert keys == keys[..|keys| - 1] + [last];
      ByNull(paths, keys[..|keys| - 1], isNull) + if paths[last].JNull? == isNull then [last] else []
  }

  lemma {:induction false} ByNullDistinct(paths: map<string, Json>, keys: seq<string>, isNull: bool)
    requires forall p | p in keys :: p in paths
    requires forall i, j | 0 <= i < j < |keys| :: keys[i] != keys[j]
    ensures forall i, j | 0 <= i < j < |ByNull(paths, keys, isNull)| ::
              ByNull(paths, keys, isNull)[i] != ByNull(paths, keys, isNull)[j]
  {
    if keys != [] {
      var n := |keys| - 1;
      ByNullDistinct(paths, keys[..n], isNull);
      assert keys[n] !in keys[..n];
      assert forall i | 0 <= i < |ByNull(paths, keys[..n], isNull)| :: ByNull(paths, keys[..n], isNull)[i] in keys[..n];
    }
  }

  /** The tree nest() builds: encoded values at the leaves, maps above them. */
  datatype Nest = Leaf(value: Json) | Branch(children: map<string, Nest>)

  function Inner(node: map<string, Nest>, key: string): map<string, Nest> {
    if key in node && node[key].Branch? then node[key].children else map[]
  }

  /** nest(): hang a value at a path; a value already hung above it gives way to a fresh map. */
  function Hang(node: map<string, Nest>, path: seq<string>, value: Json): map<string, Nest>
    requires path != []
    decreases |path|
  {
    node[path[0] := if |path| == 1 then Leaf(value) else Branch(Hang(Inner(node, path[0]), path[1..], value))]
  }

  /** json.Marshal of the tree. */
  function Marshalled(n: Nest): (r: Json)
    ensures n.Branch? ==> r.JObj?
  {
    match n
    case Leaf(value) => value
    case Branch(children) => JObj(map k | k in children :: Marshalled(children[k]))
  }

  function HangAll(paths: map<string, Json>, keys: seq<string>): map<string, Nest>
    requires forall p | p in keys :: p in paths
  {
    if keys == [] then map[]
    else
      var last := keys[|keys| - 1];
      Hang(HangAll(paths, keys[..|keys| - 1]), Split(last), paths[last])
  }

  /** The merge document: the listed paths hung in turn. */
  function Nested(paths: map<string, Json>, keys: seq<string>): (r: Json)
    requires forall p | p in keys :: p in paths
    ensures r.JObj?
  {
    Marshalled(Branch(HangAll(paths, keys)))
  }

  /** No value hangs above the path. */
  predicate Clear(node: map<string, Nest>, path: seq<string>)
    requires path != []
    decreases |path|
  {
    |path| > 1 && path[0] in node ==> node[path[0]].Branch? && Clear(node[path[0]].children, path[1..])
  }

  lemma {:induction false} HangIsSet(node: map<string, Nest>, path: seq<string>, value: Json)
    requires path != [] && Clear(node, path)
    ensures Marshalled(Branch(Hang(node, path, value))) == Set(Marshalled(Branch(node)), path, value)
    decreases |path|
  {
    SetIs(Marshalled(Branch(node)), path, value);
    if |path| == 1 {
      MarshalledUpdate(node, path[0], Leaf(value));
    } else {
      HangIsSet(Inner(node, path[0]), path[1..], value);
      assert Child(Marshalled(Branch(node)), path[0]) == Marshalled(Branch(Inner(node, path[0])));
      MarshalledUpdate(node, path[0], Branch(Hang(Inner(node, path[0]), path[1..], value)));
    }
  }

  lemma MarshalledUpdate(node: map<string, Nest>, key: string, n: Nest)
    ensures Marshalled(Branch(node[key := n])) == JObj(Marshalled(Branch(node)).fields[key := Marshalled(n)])
  {
    var a, b := Marshalled(Branch(node[key := n])).fields, Marshalled(Branch(node)).fields[key := Marshalled(n)];
    assert a.Keys == b.Keys;
    assert forall k | k in a :: a[k] == b[k];
  }

  lemma HangAllSnoc(paths: map<string, Json>, keys: seq<string>, key: string)
    requires key in paths && forall p | p in keys :: p in paths
    ensures forall p | p in keys + [key] :: p in paths
    ensures HangAll(paths, keys + [key]) == Hang(HangAll(paths, keys), Split(key), paths[key])
  {
    assert (keys + [key])[..|keys|] == keys;
  }

  lemma {:induction false} HangClear(node: map<string, Nest>, path: seq<string>, value: Json, other: seq<string>)
    requires path != [] && other != [] && Incomparable(path, other) && Clear(node, other)
    ensures Clear(Hang(node, path, value), other)
    decreases |path|
  {
    if path[0] == other[0] {
      IncomparableTails(path, other);
      HangClear(Inner(node, path[0]), path[1..], value, other[1..]);
    }
  }

  lemma {:induction false} HangAllClear(paths: map<string, Json>, keys: seq<string>, other: seq<string>)
    requires other != [] && forall p | p in keys :: p in paths && Incomparable(Split(p), other)
    ensures Clear(HangAll(paths, keys), other)
    decreases |keys|
  {
    if keys != [] {
      var init, last := keys[..|keys| - 1], keys[|keys| - 1];
      HangAllClear(paths, init, other);
      HangClear(HangAll(paths, init), Split(last), paths[last], other);
    }
  }

  lemma {:induction false} HangFree(node: map<string, Nest>, path: seq<string>, value: Json, other: seq<string>)
    requires path != [] && other != [] && Incomparable(path, other) && FreeAt(Marshalled(Branch(node)), other)
    ensures FreeAt(Marshalled(Branch(Hang(node, path, value))), other)
    decreases |path|
  {
    var hung := if |path| == 1 then Leaf(value) else Branch(Hang(Inner(node, path[0]), path[1..], value));
    MarshalledUpdate(node, path[0], hung);
    if path[0] == other[0] {
      IncomparableTails(path, other);
      HangFree(Inner(node, path[0]), path[1..], value, other[1..]);
    }
  }

  /** The merge document holds nothing at, above or below a path that all of its paths go past. */
  lemma {:induction false} HangAllFree(paths: map<string, Json>, keys: seq<string>, other: seq<string>)
    requires other != [] && forall p | p in keys :: p in paths && Incomparable(Split(p), other)
    ensures FreeAt(Nested(paths, keys), other)
    decreases |keys|
  {
    if keys != [] {
      var init, last := keys[..|keys| - 1], keys[|keys| - 1];
      HangAllFree(paths, init, other);
      HangFree(HangAll(paths, init), Split(last), paths[last], other);
    }
  }

  /** Where no path is above another, the merge document is the paths set into an empty one. */
  lemma {:induction false} NestedIsSets(paths: map<string, Json>, keys: seq<string>)
    requires (forall p | p in keys :: p in paths) && Apart(keys)
    ensures Nested(paths, keys) == SetAll(JObj(map[]), paths, keys)
    decreases |keys|
  {
    if keys != [] {
      var n := |keys| - 1;
      var init, last := keys[..n], keys[n];
      assert keys == init + [last];
      forall p | p in init ensures Incomparable(Split(p), Split(last)) {
        var i :| 0 <= i < n && init[i] == p;
        assert keys[i] == p;
      }
      NestedIsSets(paths, init);
      HangAllClear(paths, init, Split(last));
      HangIsSet(HangAll(paths, init), Split(last), paths[last]);
      SetAllSnoc(JObj(map[]), paths, init, last);
    }
  }

  function SetNulls(doc: Json, keys: seq<string>): (r: Json)
    requires doc.JObj?
    ensures r.JObj?
    decreases |keys|
  {
    if keys == [] then doc else SetNulls(JsonSet(doc, Split(keys[0]), JNull), keys[1..])
  }

  /** The expression SQLite is sent: one json_patch of one ?, then nulls, removals and the bump. */
  datatype LiteExpr =
    | Patch
    | SetNull(inner: LiteExpr, path: seq<string>)
    | RemoveAt(inner: LiteExpr, path: seq<string>)
    | BumpRow(inner: LiteExpr)

  function EvalLite(e: LiteExpr, row: Json, merge: Json): (r: Option<Json>)
    requires row.JObj? && merge.JObj?
    ensures r.Some? ==> r.value.JObj?
  {
    match e
    case Patch => Option.Some(MergePatch(Option.Some(row), merge))
    case SetNull(inner, path) =>
      var target := EvalLite(inner, row, merge);
      if target.None? || path == [] then None else Option.Some(JsonSet(target.value, path, JNull))
    case RemoveAt(inner, path) =>
      var target := EvalLite(inner, row, merge);
      if target.None? || path == [] then None else Option.Some(Unset(target.value, path))
    case BumpRow(inner) =>
      // (doc->>'$.version') + 1 reads the row as it was before the update, and NULL + 1 is NULL
      var target := EvalLite(inner, row, merge);
      if target.None? || !NumericVersion(row) then None
      else Option.Some(JsonbSet(target.value, VERSION_PATH, NextVersion(row)))
  }

  /** The stored version is a number, null or absent: no text that SQLite would cast. */
  predicate NumericVersion(row: Json)
    requires row.JObj?
  {
    VERSION_PATH in row.fields ==> row.fields[VERSION_PATH].JNum? || row.fields[VERSION_PATH].JNull?
  }

  function NextVersion(row: Json): Json
    requires row.JObj?
  {
    if VersionOf(row).Some? then JNum(VersionOf(row).value + 1.0) else JNull
  }

  /** What the SQLite statement leaves. */
  function LiteApply(row: Json, paths: map<string, Json>, o: Options): (r: Json)
    requires row.JObj?
    ensures r.JObj?
  {
    var body := UnsetAll(LiteSets(row, paths), o.unset);
    if o.noBump then body else JsonbSet(body, VERSION_PATH, NextVersion(row))
  }

  /** The merge and the nulls after it. */
  function LiteSets(row: Json, paths: map<string, Json>): (r: Json)
    requires row.JObj?
    ensures r.JObj?
  {
    var keys := Sorted(paths.Keys);
    SetNulls(MergePatch(Option.Some(row), Nested(paths, ByNull(paths, keys, false))), ByNull(paths, keys, true))
  }

  function LiteNulls(keys: seq<string>): LiteExpr {
    if keys == [] then Patch
    else SetNull(LiteNulls(keys[..|keys| - 1]), Split(keys[|keys| - 1]))
  }

  function LiteRemoves(e: LiteExpr, names: seq<string>): LiteExpr {
    if names == [] then e
    else RemoveAt(LiteRemoves(e, names[..|names| - 1]), Split(names[|names| - 1]))
  }

  function LiteExprOf(paths: map<string, Json>, o: Options): LiteExpr {
    var chain := LiteRemoves(LiteNulls(ByNull(paths, Sorted(paths.Keys), true)), o.unset);
    if o.noBump then chain else BumpRow(chain)
  }

  /** The first loop of setExpr: nest the values, set the nulls aside. */
  method NestPaths(paths: map<string, Json>) returns (r: Option<(Json, seq<string>)>)
    ensures r.Some? <==> AllGood(ByNull(paths, Sorted(paths.Keys), false))
    ensures r.Some? ==>
              && r.value.0 == Nested(paths, ByNull(paths, Sorted(paths.Keys), false))
              && r.value.1 == ByNull(paths, Sorted(paths.Keys), true)
  {
    var keys := Sorted(paths.Keys);
    var merge: map<string, Nest> := map[];
    var nulls: seq<string> := [];
    ghost var leaves: seq<string> := [];
    for i := 0 to |keys|
      invariant forall p | p in keys[..i] :: p in paths
      invariant leaves == ByNull(paths, keys[..i], false) && nulls == ByNull(paths, keys[..i], true)
      invariant merge == HangAll(paths, leaves) && AllGood(leaves)
    {
      var p := keys[i];
      ByNullTurn(paths, keys, i);
      if paths[p].JNull? {
        nulls := nulls + [p];
      } else {
        if !GoodPath(p) {
          ByNullMember(paths, keys, p);
          return None;
        }
        HangAllSnoc(paths, leaves, p);
        merge := Hang(merge, Split(p), paths[p]);
        leaves := leaves + [p];
      }
    }
    assert keys[..|keys|] == keys;
    return Option.Some((Marshalled(Branch(merge)), nulls));
  }

  lemma ByNullTurn(paths: map<string, Json>, keys: seq<string>, i: nat)
    requires i < |keys| && forall p | p in keys :: p in paths
    ensures keys[i] in paths && forall p | p in keys[..i + 1] :: p in paths
    ensures forall p | p in keys[..i] :: p in paths
    ensures ByNull(paths, keys[..i + 1], false)
         == ByNull(paths, keys[..i], false) + if paths[keys[i]].JNull? then [] else [keys[i]]
    ensures ByNull(paths, keys[..i + 1], true)
         == ByNull(paths, keys[..i], true) + if paths[keys[i]].JNull? then [keys[i]] else []
  {
    assert keys[..i + 1] == keys[..i] + [keys[i]] && keys[..i + 1][..i] == keys[..i];
    assert forall p | p in keys[..i + 1] :: p in keys;
  }

  lemma ByNullMember(paths: map<string, Json>, keys: seq<string>, p: string)
    requires p in keys && (forall q | q in keys :: q in paths) && !paths[p].JNull? && !GoodPath(p)
    ensures !AllGood(ByNull(paths, keys, false))
  {
    assert p in ByNull(paths, keys, false);
  }

  /** setExpr for SQLite: the expression and its single parameter. */
  method LiteSetExpr(paths: map<string, Json>, o: Options) returns (r: Option<(LiteExpr, Json)>)
    ensures r.Some? <==> Accepted(paths, o)
    ensures r.Some? ==> r.value == (LiteExprOf(paths, o), Nested(paths, ByNull(paths, Sorted(paths.Keys), false)))
  {
    var nested := NestPaths(paths);
    if nested.None? {
      return None;
    }
    var e := LiteNullChain(nested.value.1);
    if e.None? {
      return None;
    }
    var chain := LiteRemovals(e.value, o.unset);
    if chain.None? {
      return None;
    }
    return Option.Some((if o.noBump then chain.value else BumpRow(chain.value), nested.value.0));
  }

  method LiteNullChain(nulls: seq<string>) returns (r: Option<LiteExpr>)
    ensures r == if AllGood(nulls) then Option.Some(LiteNulls(nulls)) else None
  {
    var e := Patch;
    for i := 0 to |nulls|
      invariant AllGood(nulls[..i]) && e == LiteNulls(nulls[..i])
    {
      var p := nulls[i];
      assert p in nulls && nulls[..i + 1] == nulls[..i] + [p] && nulls[..i + 1][..i] == nulls[..i];
      if !GoodPath(p) {
        return None;
      }
      e := SetNull(e, Split(p));
    }
    assert nulls[..|nulls|] == nulls;
    return Option.Some(e);
  }

  method LiteRemovals(e: LiteExpr, names: seq<string>) returns (r: Option<LiteExpr>)
    ensures r == if AllGood(names) then Option.Some(LiteRemoves(e, names)) else None
  {
    var chain := e;
    for i := 0 to |names|
      invariant AllGood(names[..i]) && chain == LiteRemoves(e, names[..i])
    {
      var p := names[i];
      assert p in names && names[..i + 1] == names[..i] + [p] && names[..i + 1][..i] == names[..i];
      if !GoodPath(p) {
        return None;
      }
      chain := RemoveAt(chain, Split(p));
    }
    assert names[..|names|] == names;
    return Option.Some(chain);
  }

  lemma {:induction false} EvalLiteNulls(keys: seq<string>, row: Json, merge: Json)
    requires row.JObj? && merge.JObj?
    ensures EvalLite(LiteNulls(keys), row, merge) == Option.Some(SetNulls(MergePatch(Option.Some(row), merge), keys))
    decreases |keys|
  {
    if keys != [] {
      var n := |keys| - 1;
      assert keys == keys[..n] + [keys[n]];
      EvalLiteNulls(keys[..n], row, merge);
      SetNullsSnoc(MergePatch(Option.Some(row), merge), keys[..n], keys[n]);
    }
  }

  lemma {:induction false} EvalLiteRemoves(e: LiteExpr, names: seq<string>, row: Json, merge: Json)
    requires row.JObj? && merge.JObj? && EvalLite(e, row, merge).Some?
    ensures EvalLite(LiteRemoves(e, names), row, merge) == Option.Some(UnsetAll(EvalLite(e, row, merge).value, names))
    decreases |names|
  {
    if names != [] {
      var n := |names| - 1;
      assert names == names[..n] + [names[n]];
      EvalLiteRemoves(e, names[..n], row, merge);
      UnsetAllSnoc(EvalLite(e, row, merge).value, names[..n], names[n]);
    }
  }

  /** The whole UPDATE on a row it matches: what it stores, None when setExpr refuses a path. */
  function LiteUpdate(row: Json, paths: map<string, Json>, o: Options): (r: Option<Json>)
    requires row.JObj?
    ensures r.Some? ==> r.value.JObj?
  {
    if !Accepted(paths, o) then None
    else EvalLite(LiteExprOf(paths, o), row, Nested(paths, ByNull(paths, Sorted(paths.Keys), false)))
  }

  /** The SQLite statement's expression, evaluated. */
  lemma LiteExprMeans(paths: map<string, Json>, o: Options, row: Json)
    requires row.JObj? && (!o.noBump ==> NumericVersion(row))
    ensures EvalLite(LiteExprOf(paths, o), row, Nested(paths, ByNull(paths, Sorted(paths.Keys), false)))
         == Option.Some(LiteApply(row, paths, o))
    ensures LiteUpdate(row, paths, o) == if Accepted(paths, o) then Option.Some(LiteApply(row, paths, o)) else None
  {
    var keys := Sorted(paths.Keys);
    var merge := Nested(paths, ByNull(paths, keys, false));
    EvalLiteNulls(ByNull(paths, keys, true), row, merge);
    EvalLiteRemoves(LiteNulls(ByNull(paths, keys, true)), o.unset, row, merge);
  }

  lemma {:induction false} SetNullsSnoc(doc: Json, keys: seq<string>, key: string)
    requires doc.JObj?
    ensures SetNulls(doc, keys + [key]) == JsonSet(SetNulls(doc, keys), Split(key), JNull)
    decreases |keys|
  {
    if keys == [] {
      assert keys + [key] == [key] && [key][1..] == [];
      assert SetNulls(JsonSet(doc, Split(key), JNull), []) == JsonSet(doc, Split(key), JNull);
    } else {
      assert (keys + [key])[1..] == keys[1..] + [key];
      SetNullsSnoc(JsonSet(doc, Split(keys[0]), JNull), keys[1..], key);
    }
  }

  // ---------- when SQLite's merge is the deep-set ----------

  /** Every value about to be merged would leave exactly itself at its path. */
  ghost predicate AllAbsorbed(doc: Json, paths: map<string, Json>, keys: seq<string>)
    requires doc.JObj? && forall p | p in keys :: p in paths
  {
    forall p | p in keys :: Absorbs(Lookup(doc, Split(p)), paths[p])
  }

  lemma {:induction false} NestedFree(paths: map<string, Json>, patch: Json, keys: seq<string>, other: seq<string>)
    requires patch.JObj? && other != [] && (forall p | p in keys :: p in paths) && FreeAt(patch, other)
    requires forall p | p in keys :: Incomparable(Split(p), other)
    ensures FreeAt(SetAll(patch, paths, keys), other)
    decreases |keys|
  {
    if keys != [] {
      FreeAfter(patch, Split(keys[0]), paths[keys[0]], other);
      NestedFree(paths, Set(patch, Split(keys[0]), paths[keys[0]]), keys[1..], other);
    }
  }

  /** One merge of the nested document is the chain of deep-sets, when every value is absorbed. */
  lemma {:induction false} MergeIsSets(doc: Json, paths: map<string, Json>, keys: seq<string>)
    requires doc.JObj? && (forall p | p in keys :: p in paths && !paths[p].JNull?) && Apart(keys)
    requires AllAbsorbed(doc, paths, keys)
    ensures MergePatch(Option.Some(doc), Nested(paths, keys)) == SetAll(doc, paths, keys)
    decreases |keys|
  {
    if keys == [] {
      MergeNothing(Option.Some(doc));
    } else {
      var n := |keys| - 1;
      var init, last := keys[..n], keys[n];
      assert keys == init + [last] && last in keys;
      assert forall p | p in init :: p in keys;
      MergeIsSets(doc, paths, init);
      NestedIsSets(paths, init);
      NestedIsSets(paths, keys);
      SetAllSnoc(JObj(map[]), paths, init, last);
      SetAllSnoc(doc, paths, init, last);
      NestedFree(paths, JObj(map[]), init, Split(last));
      MergeStep(Option.Some(doc), Nested(paths, init), Split(last), paths[last]);
    }
  }

  lemma {:induction false} LookupSetAll(doc: Json, paths: map<string, Json>, keys: seq<string>, i: nat)
    requires doc.JObj? && (forall p | p in keys :: p in paths) && Apart(keys) && i < |keys|
    ensures Lookup(SetAll(doc, paths, keys), Split(keys[i])) == Option.Some(paths[keys[i]])
    decreases |keys|
  {
    var n := |keys| - 1;
    var init, last := keys[..n], keys[n];
    assert keys == init + [last];
    SetAllSnoc(doc, paths, init, last);
    if i == n {
      LookupSet(SetAll(doc, paths, init), Split(last), paths[last]);
    } else {
      LookupSetAll(doc, paths, init, i);
      LookupSetOther(SetAll(doc, paths, init), Split(last), paths[last], Split(keys[i]));
    }
  }

  /** What the merge alone leaves at each path it sets. */
  lemma MergedAt(doc: Json, paths: map<string, Json>, keys: seq<string>, i: nat)
    requires doc.JObj? && (forall p | p in keys :: p in paths && !paths[p].JNull?) && Apart(keys) && i < |keys|
    ensures Lookup(MergePatch(Option.Some(doc), Nested(paths, keys)), Split(keys[i]))
         == Option.Some(MergePatch(Lookup(doc, Split(keys[i])), paths[keys[i]]))
  {
    NestedIsSets(paths, keys);
    LookupSetAll(JObj(map[]), paths, keys, i);
    assert keys[i] in keys;
    MergeLookup(Option.Some(doc), Nested(paths, keys), Split(keys[i]));
  }

  /** The merge is the chain of deep-sets if and only if every value is absorbed. */
  lemma MergeExact(doc: Json, paths: map<string, Json>, keys: seq<string>)
    requires doc.JObj? && (forall p | p in keys :: p in paths && !paths[p].JNull?) && Apart(keys)
    ensures MergePatch(Option.Some(doc), Nested(paths, keys)) == SetAll(doc, paths, keys)
       <==> AllAbsorbed(doc, paths, keys)
  {
    if AllAbsorbed(doc, paths, keys) {
      MergeIsSets(doc, paths, keys);
    }
    if MergePatch(Option.Some(doc), Nested(paths, keys)) == SetAll(doc, paths, keys) {
      forall p | p in keys ensures Absorbs(Lookup(doc, Split(p)), paths[p]) {
        var i :| 0 <= i < |keys| && keys[i] == p;
        MergedAt(doc, paths, keys, i);
        LookupSetAll(doc, paths, keys, i);
        AbsorbsExact(Lookup(doc, Split(p)), paths[p]);
      }
    }
  }
}
