/** A diff sent to the three engines: one document, and exactly when. */
module UpdateTheorems {
  import opened Wrappers
  import opened Strings
  import opened JsonValue
  import opened DeepSet
  import opened Diff
  import opened DiffPaths
  import opened DiffDots
  import opened Update
  import opened Merge
  import opened SqlUpdate
  import opened LiteTheorems

  // ---------- a diff through each engine ----------

  /** The parents of a path diff emits are objects in the stored document. */
  lemma {:induction false} ChangeUnblocked(key: string, before: Option<Json>, after: Json, node: Json)
    requires node.JObj? && Get(node.fields, key) == before
    ensures forall e | e in Change(key, before, after) :: !Blocked(node, e.path)
    decreases after, 1, 0
  {
    if before != Option.Some(after) && before.Some? && before.value.JObj? && after.JObj?
       && before.value.fields.Keys <= after.fields.Keys
    {
      var keys := Sorted(after.fields.Keys);
      var inside := Changes(before.value, after, keys);
      ChangesUnblocked(before.value, after, keys);
      forall e | e in Change(key, before, after) ensures !Blocked(node, e.path) {
        var i :| 0 <= i < |inside| && Below(key, inside)[i] == e;
        assert inside[i] in inside;
        assert e.path[1..] == inside[i].path;
      }
    }
  }

  lemma {:induction false} ChangesUnblocked(before: Json, after: Json, keys: seq<string>)
    requires before.JObj? && after.JObj? && forall k | k in keys :: k in after.fields
    ensures forall e | e in Changes(before, after, keys) :: !Blocked(before, e.path)
    decreases after, 0, |keys|
  {
    if keys != [] {
      ChangeUnblocked(keys[0], Get(before.fields, keys[0]), after.fields[keys[0]], before);
      ChangesUnblocked(before, after, keys[1..]);
    }
  }

  lemma DiffWellFormed(before: Json, after: Json, declared: set<string>, o: Options)
    requires before.JObj? && after.JObj? && DotFree(before, after, declared)
    requires Lists(o.unset, Removed(before, after, declared))
    requires VERSION_PATH in after.fields
    ensures Spares(DiffSet(before, after), o) && Separate(DiffSet(before, after), o)
    ensures forall p | p in DiffSet(before, after) :: !Blocked(before, Split(p))
  {
    var sets := DiffSet(before, after);
    DiffSetFree(before, after);
    var entries := TopChanges(before, after);
    ChangesPaths(before, after, Sorted(Compared(after)));
    ChangesUnblocked(before, after, Sorted(Compared(after)));
    forall p | p in sets ensures SparesVersion(p) && !Blocked(before, Split(p)) {
      assert p in PathsOf(entries);
      var i :| 0 <= i < |entries| && p == PathsOf(entries)[i];
      assert entries[i] in entries;
      SplitDotted(entries[i].path);
    }
    forall q | q in o.unset ensures SparesVersion(q) {
      SplitPlain(q);
    }
    forall p, q | p in sets && q in o.unset ensures Incomparable(Split(p), Split(q)) {
      RemovalsApart(before, after, declared, p, q);
    }
  }

  /** The document a patch must leave: the new one, with the stored version moved on by one. */
  function Patched(before: Json, after: Json, declared: set<string>): Json
    requires before.JObj? && after.JObj?
  {
    Bumped(Expected(before, after, declared))
  }

  /** Every path diff sets and every name it removes is made of segments of this kind. */
  ghost predicate EmittedIn(before: Json, after: Json, declared: set<string>, kind: string -> bool)
    requires before.JObj? && after.JObj?
  {
    && (forall e, s | e in TopChanges(before, after) && s in e.path :: kind(s))
    && (forall n | n in Removed(before, after, declared) :: kind(n))
  }

  /** An identifier that is not one of the spellings of NULL. */
  predicate PgIdentifier(s: string) {
    Identifier(s) && !NullWord(s)
  }

  lemma IdentifierPlain(s: string)
    requires Identifier(s)
    ensures Plain(s)
  {
  }

  /** The three kinds of segment, each one narrower: dot-free, an identifier, an identifier other than NULL. */
  lemma KindsNest(before: Json, after: Json, declared: set<string>)
    requires before.JObj? && after.JObj?
    ensures EmittedIn(before, after, declared, Plain) <==> DotFree(before, after, declared)
    ensures EmittedIn(before, after, declared, Identifier) ==> DotFree(before, after, declared)
    ensures EmittedIn(before, after, declared, PgIdentifier) ==> EmittedIn(before, after, declared, Identifier)
  {
    forall s | Identifier(s) ensures Plain(s) {
      IdentifierPlain(s);
    }
    if EmittedIn(before, after, declared, PgIdentifier) {
      forall e, s | e in TopChanges(before, after) && s in e.path ensures Identifier(s) {
        assert PgIdentifier(s);
      }
      forall n | n in Removed(before, after, declared) ensures Identifier(n) {
        assert PgIdentifier(n);
      }
    }
  }

  lemma PgKind(before: Json, after: Json, declared: set<string>)
    requires before.JObj? && after.JObj? && EmittedIn(before, after, declared, Identifier)
    ensures EmittedIn(before, after, declared, PgIdentifier) <==>
            && (forall e | e in TopChanges(before, after) :: Literal(e.path))
            && (forall n | n in Removed(before, after, declared) :: !NullWord(n))
  {
    if EmittedIn(before, after, declared, PgIdentifier) {
      forall e, s | e in TopChanges(before, after) && s in e.path ensures !NullWord(s) {
        assert PgIdentifier(s);
      }
      forall n | n in Removed(before, after, declared) ensures !NullWord(n) {
        assert PgIdentifier(n);
      }
    }
  }

  // ---------- when a key has a dot ----------

  /** No engine reaches the spot, so none leaves the patched document. */
  lemma SpotInEngines(before: Json, after: Json, declared: set<string>, sets: map<string, Json>, order: seq<string>,
                      o: Options, spot: seq<string>)
    requires before.JObj? && after.JObj? && Lost(before, after, declared, sets, spot)
    requires Lists(order, sets.Keys) && Lists(o.unset, Removed(before, after, declared))
    ensures Lookup(Apply(before, sets, order, o), spot) == Lookup(before, spot)
    ensures Lookup(PgApply(before, sets, o), spot) == Lookup(before, spot)
  {
    var sorted := Sorted(sets.Keys);
    LookupSetAllOther(before, sets, order, spot);
    LookupSetAllOther(before, sets, sorted, spot);
    LookupUnsetAll(SetAll(before, sets, order), o.unset, spot);
    LookupUnsetAll(SetAll(before, sets, sorted), o.unset, spot);
    LookupBump(UnsetAll(SetAll(before, sets, order), o.unset), before, o, spot);
  }

  lemma SpotInSqlite(before: Json, after: Json, declared: set<string>, sets: map<string, Json>, o: Options,
                     spot: seq<string>)
    requires before.JObj? && after.JObj? && Lost(before, after, declared, sets, spot)
    requires Lists(o.unset, Removed(before, after, declared))
    ensures Lookup(LiteApply(before, sets, o), spot) == Lookup(before, spot)
  {
    var merged := MergedDoc(before, sets);
    HangAllFree(sets, LeavesOf(sets), spot);
    MergeMisses(Option.Some(before), Nested(sets, LeavesOf(sets)), spot);
    LookupSetNulls(merged, NullsOf(sets), spot);
    LookupUnsetAll(LiteSets(before, sets), o.unset, spot);
    LookupBump(UnsetAll(LiteSets(before, sets), o.unset), before, o, spot);
  }

  lemma SpotInPatched(before: Json, after: Json, declared: set<string>, sets: map<string, Json>, spot: seq<string>)
    requires before.JObj? && after.JObj? && Lost(before, after, declared, sets, spot)
    ensures Lookup(Patched(before, after, declared), spot) != Lookup(before, spot)
  {
    LookupBump(Expected(before, after, declared), before, Options(0, false, []), spot);
  }

  lemma DottedInEngines(before: Json, after: Json, declared: set<string>, sets: map<string, Json>, order: seq<string>,
                        o: Options)
    requires before.JObj? && after.JObj? && Emitted(sets, before, after) && !DotFree(before, after, declared)
    requires Lists(order, sets.Keys) && Lists(o.unset, Removed(before, after, declared))
    ensures Apply(before, sets, order, o) != Patched(before, after, declared)
    ensures PgApply(before, sets, o) != Patched(before, after, declared)
    ensures LiteApply(before, sets, o) != Patched(before, after, declared)
  {
    var spot := LostSpot(before, after, declared, sets);
    SpotInEngines(before, after, declared, sets, order, o, spot);
    SpotInSqlite(before, after, declared, sets, o, spot);
    SpotInPatched(before, after, declared, sets, spot);
  }

  // ---------- when none has ----------

  /** Splitting what diff joined gives its segments, so setExpr looks at those. */
  lemma EmittedPaths(before: Json, after: Json, declared: set<string>, p: string)
    requires before.JObj? && after.JObj? && DotFree(before, after, declared) && p in DiffSet(before, after)
    ensures exists e :: e in TopChanges(before, after) && e.path == Split(p)
  {
    var entries := TopChanges(before, after);
    DiffSetFree(before, after);
    assert p in PathsOf(entries);
    var i :| 0 <= i < |entries| && p == PathsOf(entries)[i];
    assert entries[i] in entries;
    SplitDotted(entries[i].path);
  }

  lemma AcceptedIs(before: Json, after: Json, declared: set<string>, o: Options)
    requires before.JObj? && after.JObj? && DotFree(before, after, declared)
    requires Lists(o.unset, Removed(before, after, declared))
    ensures Accepted(DiffSet(before, after), o) <==> EmittedIn(before, after, declared, Identifier)
  {
    var sets, entries := DiffSet(before, after), TopChanges(before, after);
    DiffSetFree(before, after);
    if Accepted(sets, o) {
      forall e, s | e in entries && s in e.path ensures Identifier(s) {
        SplitDotted(e.path);
        assert Dotted(e.path) in Sorted(sets.Keys);
      }
      forall n | n in Removed(before, after, declared) ensures Identifier(n) {
        SplitPlain(n);
        assert n in o.unset && n in Split(n);
      }
    }
    if EmittedIn(before, after, declared, Identifier) {
      forall p | p in Sorted(sets.Keys) ensures GoodPath(p) {
        EmittedPaths(before, after, declared, p);
      }
      forall n | n in o.unset ensures GoodPath(n) {
        SplitPlain(n);
      }
    }
  }

  lemma LiteralIs(before: Json, after: Json, declared: set<string>)
    requires before.JObj? && after.JObj? && DotFree(before, after, declared)
    ensures AllLiteral(Sorted(DiffSet(before, after).Keys)) <==>
            forall e | e in TopChanges(before, after) :: Literal(e.path)
  {
    var sets, entries := DiffSet(before, after), TopChanges(before, after);
    DiffSetFree(before, after);
    if AllLiteral(Sorted(sets.Keys)) {
      forall e | e in entries ensures Literal(e.path) {
        SplitDotted(e.path);
        assert Dotted(e.path) in Sorted(sets.Keys);
      }
    }
    if forall e | e in entries :: Literal(e.path) {
      forall p | p in Sorted(sets.Keys) ensures Literal(Split(p)) {
        EmittedPaths(before, after, declared, p);
      }
    }
  }

  /** Top-level removals from a document that keeps some other key fail only on a NULL name. */
  lemma {:induction false} RemovalsRunPlain(doc: Json, names: seq<string>, kept: string)
    requires doc.JObj? && kept in doc.fields && forall n | n in names :: Plain(n) && n != kept
    ensures RemovalsRun(doc, names) <==> forall n | n in names :: !NullWord(n)
    ensures kept in UnsetAll(doc, names).fields
    decreases |names|
  {
    UnsetAllRemoves(doc, names);
    if names != [] {
      var init, last := names[..|names| - 1], names[|names| - 1];
      assert names == init + [last];
      RemovalsRunPlain(doc, init, kept);
      SplitPlain(last);
    }
  }

  lemma {:induction false} SetAllKeeps(doc: Json, sets: map<string, Json>, order: seq<string>)
    requires doc.JObj? && forall p | p in order :: p in sets
    ensures doc.fields.Keys <= SetAll(doc, sets, order).fields.Keys
    decreases |order|
  {
    if order != [] {
      var p := Split(order[0]);
      SetIs(doc, p, sets[order[0]]);
      SetAllKeeps(Set(doc, p, sets[order[0]]), sets, order[1..]);
    }
  }

  lemma PgRunsIs(before: Json, after: Json, declared: set<string>, o: Options)
    requires before.JObj? && after.JObj? && DotFree(before, after, declared) && !o.noBump
    requires Lists(o.unset, Removed(before, after, declared))
    requires VERSION_PATH in after.fields && VersionOf(before).Some?
    ensures Accepted(DiffSet(before, after), o) && PgRuns(before, DiffSet(before, after), o) <==>
            EmittedIn(before, after, declared, PgIdentifier) && IntegralVersion(before)
  {
    var sorted := Sorted(DiffSet(before, after).Keys);
    KindsNest(before, after, declared);
    AcceptedIs(before, after, declared, o);
    if EmittedIn(before, after, declared, Identifier) {
      PgKind(before, after, declared);
    }
    LiteralIs(before, after, declared);
    SetAllKeeps(before, DiffSet(before, after), sorted);
    RemovalsRunPlain(SetAll(before, DiffSet(before, after), sorted), o.unset, VERSION_PATH);
  }

  lemma PlainInEngines(before: Json, after: Json, declared: set<string>, order: seq<string>, o: Options,
                       left: seq<Json>, right: seq<Json>)
    requires before.JObj? && after.JObj? && DotFree(before, after, declared)
    requires VERSION_PATH in after.fields && VersionOf(before).Some?
    requires Lists(order, DiffSet(before, after).Keys) && !o.noBump
    requires Lists(o.unset, Removed(before, after, declared))
    ensures Apply(before, DiffSet(before, after), order, o) == Patched(before, after, declared)
    ensures PgUpdate(before, DiffSet(before, after), o, left, right) == Option.Some(Patched(before, after, declared))
       <==> EmittedIn(before, after, declared, PgIdentifier) && IntegralVersion(before)
    ensures LiteUpdate(before, DiffSet(before, after), o) == Option.Some(Patched(before, after, declared))
       <==> && EmittedIn(before, after, declared, Identifier)
            && forall p | p in DiffSet(before, after) && !DiffSet(before, after)[p].JNull? ::
                 Absorbs(Lookup(before, Split(p)), DiffSet(before, after)[p])
  {
    var sets := DiffSet(before, after);
    DiffApplies(before, after, declared, order, o.unset);
    DiffWellFormed(before, after, declared, o);
    AcceptedIs(before, after, declared, o);
    PgRunsIs(before, after, declared, o);
    PostgresApplies(before, sets, order, o, left, right);
    SqliteUnblocked(before, sets, order, o);
  }

  /** Every value diff writes is stored by a merge as it is. */
  ghost predicate WrittenAbsorbed(before: Json, sets: map<string, Json>) {
    forall p | p in sets && !sets[p].JNull? :: Absorbs(Lookup(before, Split(p)), sets[p])
  }

  /**
   * A diff sent to the engines, for every two documents, every map its loops may leave and every
   * order. memdb leaves the patched document if and only if no emitted segment has a dot; Postgres
   * stores it if and only if every emitted segment is an identifier other than NULL and the stored
   * version is whole; SQLite stores it if and only if every one is an identifier and every value
   * written is absorbed.
   */
  lemma DiffThroughEngines(before: Json, after: Json, declared: set<string>, sets: map<string, Json>,
                           order: seq<string>, o: Options, left: seq<Json>, right: seq<Json>)
    requires before.JObj? && after.JObj? && Emitted(sets, before, after)
    requires VERSION_PATH in after.fields && VersionOf(before).Some?
    requires Lists(order, sets.Keys) && Lists(o.unset, Removed(before, after, declared)) && !o.noBump
    ensures Apply(before, sets, order, o) == Patched(before, after, declared)
       <==> EmittedIn(before, after, declared, Plain)
    ensures PgUpdate(before, sets, o, left, right) == Option.Some(Patched(before, after, declared))
       <==> EmittedIn(before, after, declared, PgIdentifier) && IntegralVersion(before)
    ensures LiteUpdate(before, sets, o) == Option.Some(Patched(before, after, declared))
       <==> EmittedIn(before, after, declared, Identifier) && WrittenAbsorbed(before, sets)
  {
    KindsNest(before, after, declared);
    if DotFree(before, after, declared) {
      EmittedIs(sets, before, after);
      PlainInEngines(before, after, declared, order, o, left, right);
    } else {
      DottedInEngines(before, after, declared, sets, order, o);
      PgExprMeans(sets, o, before, left, right);
      LiteExprMeans(sets, o, before);
    }
  }

  /** The smallest refusal: a key with a hyphen, which memdb writes and neither setExpr takes. */
  lemma HyphenIsRefused(before: Json, after: Json, o: Options, left: seq<Json>, right: seq<Json>)
    requires before == JObj(map["version" := JNum(1.0), "x-y" := JNum(4.0)])
    requires after == JObj(map["version" := JNum(1.0), "x-y" := JNum(5.0)])
    requires o == Options(1, false, [])
    ensures DiffSet(before, after) == map["x-y" := JNum(5.0)]
    ensures Apply(before, map["x-y" := JNum(5.0)], ["x-y"], o)
         == JObj(map["version" := JNum(2.0), "x-y" := JNum(5.0)])
    ensures PgUpdate(before, map["x-y" := JNum(5.0)], o, left, right).None?
    ensures LiteUpdate(before, map["x-y" := JNum(5.0)], o).None?
  {
    HyphenEmitted(before, after);
    HyphenApplied(before, o);
    HyphenBad(map["x-y" := JNum(5.0)], o);
  }

  lemma HyphenEmitted(before: Json, after: Json)
    requires before == JObj(map["version" := JNum(1.0), "x-y" := JNum(4.0)])
    requires after == JObj(map["version" := JNum(1.0), "x-y" := JNum(5.0)])
    ensures DiffSet(before, after) == map["x-y" := JNum(5.0)]
  {
    var keys := Sorted(Compared(after));
    assert Compared(after) == {"x-y"};
    assert keys == ["x-y"] by { assert keys[0] in keys; }
    assert keys[1..] == [];
    var e := Entry(["x-y"], JNum(5.0));
    assert TopChanges(before, after) == [e];
    assert [e][..0] == [];
  }

  lemma HyphenBad(paths: map<string, Json>, o: Options)
    requires "x-y" in paths
    ensures !Accepted(paths, o)
  {
    assert "x-y"[1] == '-';
    assert '-' in "x-y";
    SplitPlain("x-y");
    assert "x-y" in Sorted(paths.Keys) && "x-y" in Split("x-y");
  }

  lemma HyphenApplied(before: Json, o: Options)
    requires before == JObj(map["version" := JNum(1.0), "x-y" := JNum(4.0)]) && o == Options(1, false, [])
    ensures Apply(before, map["x-y" := JNum(5.0)], ["x-y"], o)
         == JObj(map["version" := JNum(2.0), "x-y" := JNum(5.0)])
  {
    SplitPlain("x-y");
    assert ["x-y"][1..] == [];
    var body := Set(before, ["x-y"], JNum(5.0));
    assert body.fields == map["version" := JNum(1.0), "x-y" := JNum(5.0)];
    assert Bumped(body).fields == map["version" := JNum(2.0), "x-y" := JNum(5.0)];
  }

  /** A key whose value is not changed member by member is emitted whole. */
  lemma WholeEmitted(before: Json, after: Json, declared: set<string>, key: string)
    requires before.JObj? && after.JObj? && DotFree(before, after, declared)
    requires key in Compared(after)
    requires Change(key, Get(before.fields, key), after.fields[key]) == [Entry([key], after.fields[key])]
    ensures key in DiffSet(before, after) && DiffSet(before, after)[key] == after.fields[key]
    ensures Split(key) == [key]
  {
    var e := Entry([key], after.fields[key]);
    var changes := Change(key, Get(before.fields, key), after.fields[key]);
    assert changes[0] == e && e in changes;
    ChangesMembers(before, after, Sorted(Compared(after)), e);
    DiffSetFree(before, after);
    assert e in TopChanges(before, after);
    SplitDotted(e.path);
  }

  lemma MergedMember(doc: Json, paths: map<string, Json>, o: Options, key: string)
    requires doc.JObj? && Spares(paths, o) && Separate(paths, o)
    requires key in paths && !paths[key].JNull? && Split(key) == [key]
    ensures Lookup(LiteApply(doc, paths, o), [key]) == Option.Some(MergePatch(Get(doc.fields, key), paths[key]))
  {
    LiteLeaf(doc, paths, o, key);
    assert Lookup(doc, [key]) == Get(doc.fields, key);
  }

  /** What SQLite stores under a key emitted whole: a merge of the old value with the new. */
  lemma WholeMerged(before: Json, after: Json, declared: set<string>, o: Options, key: string)
    requires before.JObj? && after.JObj? && DotFree(before, after, declared)
    requires VERSION_PATH in after.fields && VersionOf(before).Some?
    requires Lists(o.unset, Removed(before, after, declared))
    requires key in Compared(after) && after.fields[key].JObj?
    requires Change(key, Get(before.fields, key), after.fields[key]) == [Entry([key], after.fields[key])]
    ensures Lookup(LiteApply(before, DiffSet(before, after), o), [key])
         == Option.Some(MergePatch(Get(before.fields, key), after.fields[key]))
  {
    WholeEmitted(before, after, declared, key);
    DiffWellFormed(before, after, declared, o);
    MergedMember(before, DiffSet(before, after), o, key);
  }

  /** SQLite takes a diff of identifiers, and stores what its statement leaves. */
  lemma LiteStores(before: Json, after: Json, declared: set<string>, o: Options)
    requires before.JObj? && after.JObj? && DotFree(before, after, declared) && VersionOf(before).Some?
    requires Lists(o.unset, Removed(before, after, declared))
    ensures
      LiteUpdate(before, DiffSet(before, after), o)
      == if EmittedIn(before, after, declared, Identifier)
         then Option.Some(LiteApply(before, DiffSet(before, after), o)) else None
  {
    LiteExprMeans(DiffSet(before, after), o, before);
    AcceptedIs(before, after, declared, o);
  }

  lemma PatchedMember(before: Json, after: Json, declared: set<string>, key: string, member: string)
    requires before.JObj? && after.JObj? && key in Compared(after) && after.fields[key].JObj?
    ensures Lookup(Patched(before, after, declared), [key, member]) == Get(after.fields[key].fields, member)
  {
    LookupMember(Patched(before, after, declared), key, member);
  }

  lemma LookupMember(doc: Json, key: string, member: string)
    requires Lookup(doc, [key]).Some? && Lookup(doc, [key]).value.JObj?
    ensures Lookup(doc, [key, member]) == Get(Lookup(doc, [key]).value.fields, member)
  {
    assert [key][1..] == [] && [key, member][1..] == [member] && [member][1..] == [];
    var child := doc.fields[key];
    assert Lookup(doc, [key]) == Lookup(child, []);
    assert member in child.fields ==> Lookup(child, [member]) == Lookup(child.fields[member], []);
  }

  /**
   * A patch that drops a member of a nested object: diff writes the object whole to remove it,
   * and SQLite's merge, when it accepts the keys, puts the member back.
   */
  lemma MergeKeepsDroppedMember(before: Json, after: Json, declared: set<string>, o: Options,
                                key: string, member: string)
    requires before.JObj? && after.JObj? && DotFree(before, after, declared)
    requires VERSION_PATH in after.fields && VersionOf(before).Some?
    requires Lists(o.unset, Removed(before, after, declared))
    requires key in Compared(after) && after.fields[key].JObj? && key in before.fields && before.fields[key].JObj?
    requires member in before.fields[key].fields && member !in after.fields[key].fields
    ensures Lookup(Patched(before, after, declared), [key, member]).None?
    ensures
      var stored := LiteUpdate(before, DiffSet(before, after), o);
      && (stored.Some? <==> EmittedIn(before, after, declared, Identifier))
      && (stored.Some? ==> Lookup(stored.value, [key, member]) == Option.Some(before.fields[key].fields[member]))
  {
    WholeMerged(before, after, declared, o, key);
    LiteStores(before, after, declared, o);
    var stored := LiteUpdate(before, DiffSet(before, after), o);
    if stored.Some? {
      LookupMember(stored.value, key, member);
    }
    PatchedMember(before, after, declared, key, member);
  }

  /** A patch that adds an object with a null member: SQLite's merge drops the member. */
  lemma MergeDropsNullMember(before: Json, after: Json, declared: set<string>, o: Options,
                             key: string, member: string)
    requires before.JObj? && after.JObj? && DotFree(before, after, declared)
    requires VERSION_PATH in after.fields && VersionOf(before).Some?
    requires Lists(o.unset, Removed(before, after, declared))
    requires key in Compared(after) && after.fields[key].JObj?
    requires key in before.fields ==> !before.fields[key].JObj?
    requires Get(after.fields[key].fields, member) == Option.Some(JNull)
    ensures Lookup(Patched(before, after, declared), [key, member]) == Option.Some(JNull)
    ensures
      var stored := LiteUpdate(before, DiffSet(before, after), o);
      && (stored.Some? <==> EmittedIn(before, after, declared, Identifier))
      && (stored.Some? ==> Lookup(stored.value, [key, member]).None?)
  {
    WholeMerged(before, after, declared, o, key);
    LiteStores(before, after, declared, o);
    var stored := LiteUpdate(before, DiffSet(before, after), o);
    if stored.Some? {
      LookupMember(stored.value, key, member);
    }
    PatchedMember(before, after, declared, key, member);
  }
}
