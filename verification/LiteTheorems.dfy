/** SQLite's update against memdb's: when one merge and its null sets leave the same document, exactly. */
module LiteTheorems {
  import opened Wrappers
  import opened Strings
  import opened JsonValue
  import opened DeepSet
  import opened Diff
  import opened DiffPaths
  import opened Update
  import opened Merge
  import opened SqlUpdate

  // ---------- what later steps leave alone ----------

  lemma {:induction false} LookupJsonSetOther(node: Json, path: seq<string>, value: Json, other: seq<string>)
    requires node.JObj? && path != [] && other != [] && Incomparable(path, other)
    ensures Lookup(JsonSet(node, path, value), other) == Lookup(node, other)
    decreases |path|
  {
    if path[0] == other[0] {
      IncomparableTails(path, other);
      if path[0] !in node.fields {
        LookupJsonSetOther(JObj(map[]), path[1..], value, other[1..]);
        LookupScalar(JObj(map[]), other[1..]);
      } else if node.fields[path[0]].JObj? {
        LookupJsonSetOther(node.fields[path[0]], path[1..], value, other[1..]);
      }
    }
  }

  lemma {:induction false} LookupSetNulls(doc: Json, nulls: seq<string>, other: seq<string>)
    requires doc.JObj? && other != [] && forall p | p in nulls :: Incomparable(Split(p), other)
    ensures Lookup(SetNulls(doc, nulls), other) == Lookup(doc, other)
    decreases |nulls|
  {
    if nulls != [] {
      LookupJsonSetOther(doc, Split(nulls[0]), JNull, other);
      LookupSetNulls(JsonSet(doc, Split(nulls[0]), JNull), nulls[1..], other);
    }
  }

  lemma {:induction false} SetAllAppend(doc: Json, paths: map<string, Json>, a: seq<string>, b: seq<string>)
    requires doc.JObj? && (forall p | p in a :: p in paths) && forall p | p in b :: p in paths
    ensures forall p | p in a + b :: p in paths
    ensures SetAll(doc, paths, a + b) == SetAll(SetAll(doc, paths, a), paths, b)
    decreases |a|
  {
    if a == [] {
      assert a + b == b;
    } else {
      assert (a + b)[1..] == a[1..] + b;
      SetAllAppend(Set(doc, Split(a[0]), paths[a[0]]), paths, a[1..], b);
    }
  }

  /** json_set of nulls is the deep-set of nulls where no parent blocks. */
  lemma {:induction false} NullsAreSets(doc: Json, paths: map<string, Json>, nulls: seq<string>)
    requires doc.JObj? && (forall p | p in nulls :: p in paths && paths[p].JNull? && !Blocked(doc, Split(p)))
    requires Apart(nulls)
    ensures SetNulls(doc, nulls) == SetAll(doc, paths, nulls)
    decreases |nulls|
  {
    if nulls != [] {
      var p := nulls[0];
      JsonSetExact(doc, Split(p), JNull);
      var next := Set(doc, Split(p), JNull);
      forall q | q in nulls[1..] ensures !Blocked(next, Split(q)) {
        var i :| 0 <= i < |nulls[1..]| && nulls[1..][i] == q;
        assert q == nulls[i + 1] && q in nulls;
        assert Incomparable(Split(nulls[0]), Split(nulls[i + 1]));
        SetUnblocked(doc, Split(p), JNull, Split(q));
      }
      assert Apart(nulls[1..]);
      NullsAreSets(next, paths, nulls[1..]);
    }
  }

  /** The value paths and the null paths together list every path once, pairwise apart. */
  lemma LeavesAndNulls(paths: map<string, Json>)
    requires PrefixFree(paths.Keys)
    ensures
      var leaves, nulls := ByNull(paths, Sorted(paths.Keys), false), ByNull(paths, Sorted(paths.Keys), true);
      && Lists(leaves + nulls, paths.Keys) && Apart(leaves) && Apart(nulls)
      && (forall p, q | p in leaves && q in nulls :: Incomparable(Split(p), Split(q)))
  {
    var keys := Sorted(paths.Keys);
    var leaves, nulls := ByNull(paths, keys, false), ByNull(paths, keys, true);
    SortedDistinct(paths.Keys);
    ByNullDistinct(paths, keys, false);
    ByNullDistinct(paths, keys, true);
    forall i, j | 0 <= i < j < |leaves + nulls| ensures (leaves + nulls)[i] != (leaves + nulls)[j] {
      assert i < |leaves| <= j ==> leaves[i] in leaves && nulls[j - |leaves|] in nulls;
    }
    ApartFrom(paths, leaves);
    ApartFrom(paths, nulls);
  }

  lemma ApartFrom(paths: map<string, Json>, list: seq<string>)
    requires PrefixFree(paths.Keys) && (forall p | p in list :: p in paths)
    requires forall i, j | 0 <= i < j < |list| :: list[i] != list[j]
    ensures Apart(list)
  {
    forall i, j | 0 <= i < |list| && 0 <= j < |list| && i != j
      ensures Incomparable(Split(list[i]), Split(list[j]))
    {
      assert list[i] in list && list[j] in list;
      assert i < j ==> list[i] != list[j];
      assert j < i ==> list[j] != list[i];
    }
  }

  ghost predicate Separate(paths: map<string, Json>, o: Options) {
    forall p, q | p in paths && q in o.unset :: Incomparable(Split(p), Split(q))
  }

  function LeavesOf(paths: map<string, Json>): (leaves: seq<string>)
    ensures forall p :: p in leaves <==> p in paths && !paths[p].JNull?
  {
    ByNull(paths, Sorted(paths.Keys), false)
  }

  function NullsOf(paths: map<string, Json>): (nulls: seq<string>)
    ensures forall p :: p in nulls <==> p in paths && paths[p].JNull?
  {
    ByNull(paths, Sorted(paths.Keys), true)
  }

  /** The document after the merge, before the null sets. */
  function MergedDoc(doc: Json, paths: map<string, Json>): (r: Json)
    requires doc.JObj?
    ensures r.JObj?
  {
    MergePatch(Option.Some(doc), Nested(paths, LeavesOf(paths)))
  }

  // ---------- null paths below a parent that is not an object ----------

  /** A set makes the objects above its path, and leaves the rest of the tree standing. */
  lemma {:induction false} SetReaches(node: Json, path: seq<string>, value: Json, spot: seq<string>)
    requires node.JObj? && path != [] && spot != [] && !(path <= spot)
    ensures Lookup(Set(node, path, value), spot).Some? <==> spot <= path || Lookup(node, spot).Some?
  {
    if spot <= path {
      LookupSet(node, path, value);
      assert path == spot + path[|spot|..];
      LookupPrefix(Set(node, path, value), spot, path[|spot|..]);
    } else {
      LookupSetOther(node, path, value, spot);
    }
  }

  lemma {:induction false} LookupPrefix(node: Json, path: seq<string>, rest: seq<string>)
    requires Lookup(node, path + rest).Some?
    ensures Lookup(node, path).Some?
    decreases |path|
  {
    if path != [] {
      assert (path + rest)[1..] == path[1..] + rest;
      LookupPrefix(node.fields[path[0]], path[1..], rest);
    }
  }

  /** The merge document has a member at a spot exactly when some path goes there or below. */
  lemma {:induction false} SetAllReaches(paths: map<string, Json>, keys: seq<string>, spot: seq<string>)
    requires spot != [] && forall p | p in keys :: p in paths && !(Split(p) <= spot)
    ensures Lookup(SetAll(JObj(map[]), paths, keys), spot).Some? <==> exists p :: p in keys && spot <= Split(p)
    decreases |keys|
  {
    if keys != [] {
      var n := |keys| - 1;
      var init, last := keys[..n], keys[n];
      assert keys == init + [last];
      assert forall p :: p in keys <==> p in init || p == last;
      SetAllReaches(paths, init, spot);
      SetAllSnoc(JObj(map[]), paths, init, last);
      SetReaches(SetAll(JObj(map[]), paths, init), Split(last), paths[last], spot);
    }
  }

  /** A value is merged at or below the parent that blocks the path. */
  ghost predicate Unblocks(doc: Json, paths: map<string, Json>, p: string)
    requires doc.JObj? && Blocked(doc, Split(p))
  {
    exists l :: l in paths && !paths[l].JNull? && Blocker(doc, Split(p)) <= Split(l)
  }

  /** The merge document is built beside every null path, never on it. */
  lemma NestedBeside(paths: map<string, Json>, p: string)
    requires PrefixFree(paths.Keys) && p in paths && paths[p].JNull?
    ensures Apart(LeavesOf(paths)) && FreeAt(Nested(paths, LeavesOf(paths)), Split(p))
    ensures forall l | l in LeavesOf(paths) :: Incomparable(Split(l), Split(p))
  {
    LeavesAndNulls(paths);
    NestedIsSets(paths, LeavesOf(paths));
    NestedFree(paths, JObj(map[]), LeavesOf(paths), Split(p));
  }

  lemma NestedReaches(doc: Json, paths: map<string, Json>, p: string)
    requires doc.JObj? && PrefixFree(paths.Keys) && p in paths && paths[p].JNull? && Blocked(doc, Split(p))
    ensures Lookup(Nested(paths, LeavesOf(paths)), Blocker(doc, Split(p))).Some? <==> Unblocks(doc, paths, p)
  {
    var leaves, spot := LeavesOf(paths), Blocker(doc, Split(p));
    NestedBeside(paths, p);
    NestedIsSets(paths, leaves);
    forall l | l in leaves ensures !(Split(l) <= spot) {
      assert Incomparable(Split(l), Split(p));
    }
    SetAllReaches(paths, leaves, spot);
  }

  /** A null path finds its parents after the merge exactly when they were objects or were merged into. */
  lemma MergedBlocked(doc: Json, paths: map<string, Json>, p: string)
    requires doc.JObj? && PrefixFree(paths.Keys) && p in paths && paths[p].JNull?
    ensures Blocked(MergedDoc(doc, paths), Split(p)) <==> Blocked(doc, Split(p)) && !Unblocks(doc, paths, p)
  {
    NestedBeside(paths, p);
    MergeBlocked(Option.Some(doc), Nested(paths, LeavesOf(paths)), Split(p));
    if Blocked(doc, Split(p)) {
      NestedReaches(doc, paths, p);
    }
  }

  lemma {:induction false} SetNullsBlocked(doc: Json, nulls: seq<string>, other: seq<string>)
    requires doc.JObj? && other != [] && Blocked(doc, other)
    requires forall q | q in nulls :: Split(q) == other || Incomparable(Split(q), other)
    ensures Blocked(SetNulls(doc, nulls), other)
    decreases |nulls|
  {
    if nulls != [] {
      JsonSetKeepsBlocked(doc, Split(nulls[0]), JNull, other);
      SetNullsBlocked(JsonSet(doc, Split(nulls[0]), JNull), nulls[1..], other);
    }
  }

  /** A null path that is still blocked after the merge stores nothing. */
  lemma NullLost(doc: Json, paths: map<string, Json>, o: Options, p: string)
    requires doc.JObj? && Spares(paths, o) && Separate(paths, o)
    requires p in paths && paths[p].JNull? && Blocked(MergedDoc(doc, paths), Split(p))
    ensures Lookup(LiteApply(doc, paths, o), Split(p)).None?
  {
    var merged, nulls := MergedDoc(doc, paths), NullsOf(paths);
    forall q | q in nulls ensures Split(q) == Split(p) || Incomparable(Split(q), Split(p)) {
      assert q != p ==> Incomparable(Split(q), Split(p));
    }
    SetNullsBlocked(merged, nulls, Split(p));
    BlockedLookup(SetNulls(merged, nulls), Split(p));
    LookupUnsetAll(SetNulls(merged, nulls), o.unset, Split(p));
    assert SparesVersion(p);
    LookupBump(UnsetAll(LiteSets(doc, paths), o.unset), doc, o, Split(p));
  }

  // ---------- the whole update ----------

  /** The sets alone, merged and json_set, against the deep-sets in any order. */
  lemma LiteSetsAgree(doc: Json, paths: map<string, Json>, order: seq<string>)
    requires doc.JObj? && Lists(order, paths.Keys) && PrefixFree(paths.Keys)
    requires forall p | p in paths && paths[p].JNull? :: !Blocked(MergedDoc(doc, paths), Split(p))
    requires AllAbsorbed(doc, paths, LeavesOf(paths))
    ensures LiteSets(doc, paths) == SetAll(doc, paths, order)
  {
    var leaves, nulls := LeavesOf(paths), NullsOf(paths);
    LeavesAndNulls(paths);
    MergeExact(doc, paths, leaves);
    NullsAreSets(MergedDoc(doc, paths), paths, nulls);
    SetAllAppend(doc, paths, leaves, nulls);
    OrderIrrelevant(doc, paths, paths.Keys, order, leaves + nulls);
  }

  lemma LookupBump(body: Json, row: Json, o: Options, other: seq<string>)
    requires body.JObj? && row.JObj? && other != [] && other[0] != VERSION_PATH
    ensures Lookup(Bumped(body), other) == Lookup(body, other)
    ensures Lookup(JsonbSet(body, VERSION_PATH, NextVersion(row)), other) == Lookup(body, other)
  {
  }

  /** Nothing after the sets disturbs a set path. */
  lemma LaterSteps(doc: Json, nulls: seq<string>, names: seq<string>, p: seq<string>)
    requires doc.JObj? && p != [] && p[0] != VERSION_PATH
    requires forall q | q in nulls :: Incomparable(p, Split(q))
    requires forall q | q in names :: Incomparable(p, Split(q))
    ensures Lookup(UnsetAll(SetNulls(doc, nulls), names), p) == Lookup(doc, p)
    ensures Lookup(UnsetAll(doc, names), p) == Lookup(doc, p)
  {
    LookupSetNulls(doc, nulls, p);
    LookupUnsetAll(SetNulls(doc, nulls), names, p);
    LookupUnsetAll(doc, names, p);
  }

  /** What the merge and the null sets leave at a path the merge writes. */
  lemma LiteLeafSets(doc: Json, paths: map<string, Json>, p: string)
    requires doc.JObj? && PrefixFree(paths.Keys) && p in paths && !paths[p].JNull?
    ensures Lookup(LiteSets(doc, paths), Split(p))
         == Option.Some(MergePatch(Lookup(doc, Split(p)), paths[p]))
  {
    var leaves := LeavesOf(paths);
    LeavesAndNulls(paths);
    assert p in leaves;
    var i :| 0 <= i < |leaves| && leaves[i] == p;
    MergedAt(doc, paths, leaves, i);
    LookupSetNulls(MergedDoc(doc, paths), NullsOf(paths), Split(p));
  }

  /** What the SQLite statement leaves at a path it merges a value into. */
  lemma LiteLeaf(doc: Json, paths: map<string, Json>, o: Options, p: string)
    requires doc.JObj? && Spares(paths, o) && Separate(paths, o)
    requires p in paths && !paths[p].JNull?
    ensures Lookup(LiteApply(doc, paths, o), Split(p))
         == Option.Some(MergePatch(Lookup(doc, Split(p)), paths[p]))
  {
    LiteLeafSets(doc, paths, p);
    LookupUnsetAll(LiteSets(doc, paths), o.unset, Split(p));
    assert SparesVersion(p);
    LookupBump(UnsetAll(LiteSets(doc, paths), o.unset), doc, o, Split(p));
  }

  /** What memdb leaves at a path it sets. */
  lemma AppliedLeaf(doc: Json, paths: map<string, Json>, order: seq<string>, o: Options, p: string)
    requires doc.JObj? && Spares(paths, o) && Separate(paths, o)
    requires Lists(order, paths.Keys) && p in paths
    ensures Lookup(Apply(doc, paths, order, o), Split(p)) == Option.Some(paths[p])
  {
    ApartFrom(paths, order);
    assert p in order;
    var i :| 0 <= i < |order| && order[i] == p;
    LookupSetAll(doc, paths, order, i);
    assert SparesVersion(p);
    LaterSteps(SetAll(doc, paths, order), [], o.unset, Split(p));
    LookupBump(UnsetAll(SetAll(doc, paths, order), o.unset), doc, o, Split(p));
  }

  /** The bump reads the version before the sets in SQLite, after them in memdb: the same one. */
  lemma BumpsMeet(body: Json, row: Json)
    requires body.JObj? && row.JObj? && VersionOf(body) == VersionOf(row) && VersionOf(row).Some?
    ensures JsonbSet(body, VERSION_PATH, NextVersion(row)) == Bumped(body)
  {
  }

  lemma SqliteAgrees(doc: Json, paths: map<string, Json>, order: seq<string>, o: Options)
    requires doc.JObj? && Lists(order, paths.Keys) && WellFormedUpdate(doc, paths, o)
    requires LiteSets(doc, paths) == SetAll(doc, paths, order)
    ensures LiteApply(doc, paths, o) == Apply(doc, paths, order, o)
  {
    if !o.noBump {
      SetAllVersion(doc, paths, order);
      UnsetAllVersion(SetAll(doc, paths, order), o.unset);
      BumpsMeet(UnsetAll(SetAll(doc, paths, order), o.unset), doc);
    }
  }

  /** What the two engines write as the version when none is stored: null, and one. */
  lemma VersionLost(doc: Json, paths: map<string, Json>, order: seq<string>, o: Options)
    requires doc.JObj? && Lists(order, paths.Keys) && !o.noBump
    requires NumericVersion(doc) && VersionOf(doc).None?
    ensures LiteApply(doc, paths, o) != Apply(doc, paths, order, o)
  {
    assert LiteApply(doc, paths, o).fields[VERSION_PATH] == JNull;
    assert Apply(doc, paths, order, o).fields[VERSION_PATH].JNum?;
  }

  /** The values are stored as given, and no null is dropped below a parent that is not an object. */
  ghost predicate SetsFit(doc: Json, paths: map<string, Json>)
    requires doc.JObj?
  {
    && (forall p | p in paths && !paths[p].JNull? :: Absorbs(Lookup(doc, Split(p)), paths[p]))
    && (forall p | p in paths && paths[p].JNull? && Blocked(doc, Split(p)) :: Unblocks(doc, paths, p))
  }

  /** What the accepted statement leaves is memdb's document exactly under these conditions. */
  lemma AppliesExact(doc: Json, paths: map<string, Json>, order: seq<string>, o: Options)
    requires doc.JObj? && Lists(order, paths.Keys) && Spares(paths, o) && Separate(paths, o)
    requires !o.noBump ==> NumericVersion(doc)
    ensures LiteApply(doc, paths, o) == Apply(doc, paths, order, o)
       <==> SetsFit(doc, paths) && (o.noBump || VersionOf(doc).Some?)
  {
    if !o.noBump && VersionOf(doc).None? {
      VersionLost(doc, paths, order, o);
    } else if SetsFit(doc, paths) {
      forall p | p in paths && paths[p].JNull? ensures !Blocked(MergedDoc(doc, paths), Split(p)) {
        MergedBlocked(doc, paths, p);
      }
      LiteSetsAgree(doc, paths, order);
      SqliteAgrees(doc, paths, order, o);
    } else if LiteApply(doc, paths, o) == Apply(doc, paths, order, o) {
      SetsMustFit(doc, paths, order, o);
    }
  }

  /**
   * SQLite's merge, null sets, removals and bump store the document memdb leaves if and only if
   * every segment is an identifier, every value written is absorbed by what was stored at its
   * path, every null path below a stored non-object has a value merged into that parent, and a
   * version is stored to count from. A segment that is no identifier stores nothing.
   */
  lemma SqliteExact(doc: Json, paths: map<string, Json>, order: seq<string>, o: Options)
    requires doc.JObj? && Lists(order, paths.Keys) && Spares(paths, o) && Separate(paths, o)
    requires !o.noBump ==> NumericVersion(doc)
    ensures LiteUpdate(doc, paths, o).Some? <==> Accepted(paths, o)
    ensures LiteUpdate(doc, paths, o) == Option.Some(Apply(doc, paths, order, o))
       <==> Accepted(paths, o) && SetsFit(doc, paths) && (o.noBump || VersionOf(doc).Some?)
  {
    LiteExprMeans(paths, o, doc);
    AppliesExact(doc, paths, order, o);
  }

  lemma SetsMustFit(doc: Json, paths: map<string, Json>, order: seq<string>, o: Options)
    requires doc.JObj? && Lists(order, paths.Keys) && Spares(paths, o) && Separate(paths, o)
    requires LiteApply(doc, paths, o) == Apply(doc, paths, order, o)
    ensures SetsFit(doc, paths)
  {
    forall p | p in paths && !paths[p].JNull? ensures Absorbs(Lookup(doc, Split(p)), paths[p]) {
      LiteLeaf(doc, paths, o, p);
      AppliedLeaf(doc, paths, order, o, p);
      AbsorbsExact(Lookup(doc, Split(p)), paths[p]);
    }
    forall p | p in paths && paths[p].JNull? && Blocked(doc, Split(p)) ensures Unblocks(doc, paths, p) {
      MergedBlocked(doc, paths, p);
      AppliedLeaf(doc, paths, order, o, p);
      if Blocked(MergedDoc(doc, paths), Split(p)) {
        NullLost(doc, paths, o, p);
      }
    }
  }

  lemma FitUnblocked(doc: Json, paths: map<string, Json>)
    requires doc.JObj? && forall p | p in paths && paths[p].JNull? :: !Blocked(doc, Split(p))
    ensures SetsFit(doc, paths) <==>
            forall p | p in paths && !paths[p].JNull? :: Absorbs(Lookup(doc, Split(p)), paths[p])
  {
  }

  /** Where no stored parent blocks a null path, the segments and the values written decide. */
  lemma SqliteUnblocked(doc: Json, paths: map<string, Json>, order: seq<string>, o: Options)
    requires doc.JObj? && Lists(order, paths.Keys) && WellFormedUpdate(doc, paths, o) && Separate(paths, o)
    requires forall p | p in paths && paths[p].JNull? :: !Blocked(doc, Split(p))
    ensures LiteUpdate(doc, paths, o) == Option.Some(Apply(doc, paths, order, o))
       <==> && Accepted(paths, o)
            && forall p | p in paths && !paths[p].JNull? :: Absorbs(Lookup(doc, Split(p)), paths[p])
  {
    FitUnblocked(doc, paths);
    SqliteExact(doc, paths, order, o);
  }

  /** Values that are not objects are always absorbed, so on identifiers SQLite is right on them. */
  lemma SqliteScalars(doc: Json, paths: map<string, Json>, order: seq<string>, o: Options)
    requires doc.JObj? && Lists(order, paths.Keys) && WellFormedUpdate(doc, paths, o) && Separate(paths, o)
    requires forall p | p in paths && paths[p].JNull? :: !Blocked(doc, Split(p))
    requires forall p | p in paths :: !paths[p].JObj?
    ensures LiteUpdate(doc, paths, o)
         == if Accepted(paths, o) then Option.Some(Apply(doc, paths, order, o)) else None
  {
    SqliteExact(doc, paths, order, o);
    SqliteUnblocked(doc, paths, order, o);
  }
}
