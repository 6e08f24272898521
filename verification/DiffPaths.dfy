/**
 * diff() itself: the loops of db/json.go filling a map of dotted paths, and what applying that
 * map does to the stored document.
 */
module DiffPaths {
  import opened Strings
  import opened JsonValue
  import opened DeepSet
  import opened Diff

  // ---------- entries as a map of dotted paths ----------

  function PathsOf(entries: seq<Entry>): (order: seq<string>)
    ensures |order| == |entries|
    ensures forall i | 0 <= i < |order| :: order[i] == Dotted(entries[i].path)
  {
    seq(|entries|, i requires 0 <= i < |entries| => Dotted(entries[i].path))
  }

  function DottedMap(entries: seq<Entry>): map<string, Json> {
    if entries == [] then map[]
    else
      var e := entries[|entries| - 1];
      DottedMap(entries[..|entries| - 1])[Dotted(e.path) := e.value]
  }

  lemma {:induction false} DottedMapKeys(entries: seq<Entry>)
    ensures DottedMap(entries).Keys == set p | p in PathsOf(entries)
  {
    if entries != [] {
      var n := |entries| - 1;
      DottedMapKeys(entries[..n]);
      assert PathsOf(entries) == PathsOf(entries[..n]) + [Dotted(entries[n].path)];
    }
  }

  /** No segment has a dot: the dotted path splits back into the segments. */
  ghost predicate PlainPath(path: seq<string>) {
    forall s | s in path :: Plain(s)
  }

  ghost predicate PlainEntries(entries: seq<Entry>) {
    forall e | e in entries :: PlainPath(e.path)
  }

  lemma PathsApart(entries: seq<Entry>)
    requires Free(entries) && PlainEntries(entries)
    ensures forall i, j | 0 <= i < |entries| && 0 <= j < |entries| && i != j ::
              Incomparable(Split(PathsOf(entries)[i]), Split(PathsOf(entries)[j]))
  {
    forall i, j | 0 <= i < |entries| && 0 <= j < |entries| && i != j
      ensures Incomparable(Split(PathsOf(entries)[i]), Split(PathsOf(entries)[j]))
    {
      assert entries[i] in entries && entries[j] in entries;
      SplitDotted(entries[i].path);
      SplitDotted(entries[j].path);
      if i < j {
        assert Incomparable(entries[i].path, entries[j].path);
      } else {
        assert Incomparable(entries[j].path, entries[i].path);
      }
    }
  }

  /** Prefix-free plain entries become a map with one key each, in the same order. */
  lemma DottedMapHolds(entries: seq<Entry>)
    requires Free(entries) && PlainEntries(entries)
    ensures forall e | e in entries ::
              Dotted(e.path) in DottedMap(entries) && DottedMap(entries)[Dotted(e.path)] == e.value
    ensures PrefixFree(DottedMap(entries).Keys)
    ensures Lists(PathsOf(entries), DottedMap(entries).Keys)
  {
    var order := PathsOf(entries);
    DottedMapKeys(entries);
    PathsApart(entries);
    forall i, j | 0 <= i < j < |order| ensures order[i] != order[j] {
      assert Incomparable(Split(order[i]), Split(order[j]));
    }
    DottedMapValues(entries);
    forall p, q | p in order && q in order && p != q ensures Incomparable(Split(p), Split(q)) {
      var i :| 0 <= i < |order| && order[i] == p;
      var j :| 0 <= j < |order| && order[j] == q;
    }
  }

  lemma {:induction false} DottedMapValues(entries: seq<Entry>)
    requires forall i, j | 0 <= i < j < |entries| :: PathsOf(entries)[i] != PathsOf(entries)[j]
    ensures forall e | e in entries ::
              Dotted(e.path) in DottedMap(entries) && DottedMap(entries)[Dotted(e.path)] == e.value
  {
    if entries != [] {
      var n := |entries| - 1;
      var init := entries[..n];
      assert forall i | 0 <= i < n :: PathsOf(init)[i] == PathsOf(entries)[i];
      DottedMapValues(init);
      forall e | e in entries
        ensures Dotted(e.path) in DottedMap(entries) && DottedMap(entries)[Dotted(e.path)] == e.value
      {
        var i :| 0 <= i < |entries| && entries[i] == e;
        assert PathsOf(entries)[i] == Dotted(e.path) && PathsOf(entries)[n] == Dotted(entries[n].path);
        if i < n { assert init[i] in init; }
      }
    }
  }

  /** Applying the dotted map in the order of the entries is applying the entries. */
  lemma {:induction false} SetAllEntries(doc: Json, sets: map<string, Json>, entries: seq<Entry>)
    requires doc.JObj? && PlainEntries(entries)
    requires forall e | e in entries :: Dotted(e.path) in sets && sets[Dotted(e.path)] == e.value
    ensures forall p | p in PathsOf(entries) :: p in sets
    ensures SetAll(doc, sets, PathsOf(entries)) == SetEntries(doc, entries)
    decreases |entries|
  {
    var order := PathsOf(entries);
    forall p | p in order ensures p in sets {
      var i :| 0 <= i < |order| && order[i] == p;
      assert entries[i] in entries;
    }
    if entries != [] {
      SplitDotted(entries[0].path);
      SetAllEntries(Set(doc, entries[0].path, entries[0].value), sets, entries[1..]);
      assert order[1..] == PathsOf(entries[1..]);
    }
  }

  // ---------- what diff produces ----------

  /** The paths diff sets, in one fixed order; the map below forgets the order. */
  function TopChanges(before: Json, after: Json): seq<Entry>
    requires before.JObj? && after.JObj?
  {
    Changes(before, after, Sorted(Compared(after)))
  }

  function DiffSet(before: Json, after: Json): map<string, Json>
    requires before.JObj? && after.JObj?
  {
    DottedMap(TopChanges(before, after))
  }

  /**
   * A map filled from the entries in some order. Two entries meet in one dotted path only when a
   * key has a dot, and then the later write stays.
   */
  ghost predicate Filled(sets: map<string, Json>, entries: set<Entry>) {
    && (forall e | e in entries :: Dotted(e.path) in sets)
    && (forall p | p in sets :: exists e :: e in entries && Dotted(e.path) == p && e.value == sets[p])
  }

  ghost function EntrySet(entries: seq<Entry>): set<Entry> {
    set e | e in entries
  }

  /** A map diff may return for the two documents, whatever order its loops run in. */
  ghost predicate Emitted(sets: map<string, Json>, before: Json, after: Json)
    requires before.JObj? && after.JObj?
  {
    Filled(sets, EntrySet(TopChanges(before, after)))
  }

  /** Neither a changed path nor a dropped declared key has a dot inside a key. */
  ghost predicate DotFree(before: Json, after: Json, declared: set<string>)
    requires before.JObj? && after.JObj?
  {
    PlainEntries(TopChanges(before, after)) && forall n | n in Removed(before, after, declared) :: Plain(n)
  }

  /** Without dots every order of the loops returns the one map. */
  lemma EmittedIs(sets: map<string, Json>, before: Json, after: Json)
    requires before.JObj? && after.JObj? && Emitted(sets, before, after)
    requires PlainEntries(TopChanges(before, after))
    ensures sets == DiffSet(before, after)
  {
    var entries := TopChanges(before, after);
    DiffSetFree(before, after);
    forall p | p in sets ensures p in DiffSet(before, after) && DiffSet(before, after)[p] == sets[p] {
      var e :| e in EntrySet(entries) && Dotted(e.path) == p && e.value == sets[p];
      assert e in entries;
    }
    forall p | p in DiffSet(before, after) ensures p in sets {
      assert p in PathsOf(entries);
      var i :| 0 <= i < |entries| && PathsOf(entries)[i] == p;
      assert entries[i] in EntrySet(entries);
    }
  }

  /** Remove the top-level names in the given order. */
  function UnsetAll(doc: Json, names: seq<string>): (r: Json)
    requires doc.JObj?
    ensures r.JObj?
    decreases |names|
  {
    if names == [] then doc else UnsetAll(Unset(doc, Split(names[0])), names[1..])
  }

  lemma {:induction false} UnsetAllRemoves(doc: Json, names: seq<string>)
    requires doc.JObj? && forall n | n in names :: Plain(n)
    ensures UnsetAll(doc, names) == JObj(doc.fields - set n | n in names)
    decreases |names|
  {
    if names == [] {
      assert doc.fields - (set n | n in names) == doc.fields;
    } else {
      SplitPlain(names[0]);
      UnsetAllRemoves(Unset(doc, [names[0]]), names[1..]);
      assert names == [names[0]] + names[1..];
      assert doc.fields - {names[0]} - (set n | n in names[1..]) == doc.fields - set n | n in names;
    }
  }

  lemma {:induction false} LookupUnsetAll(doc: Json, names: seq<string>, other: seq<string>)
    requires doc.JObj? && other != [] && forall p | p in names :: Incomparable(Split(p), other)
    ensures Lookup(UnsetAll(doc, names), other) == Lookup(doc, other)
    decreases |names|
  {
    if names != [] {
      LookupUnsetOther(doc, Split(names[0]), other);
      LookupUnsetAll(Unset(doc, Split(names[0])), names[1..], other);
    }
  }

  /**
   * diff is right where no key it touches has a dot. Whatever order its sets and removals are
   * applied in, the stored document becomes the new one at every nesting level, id and version
   * keep their stored values, exactly the dropped declared keys go, and every orphan key survives.
   */
  lemma DiffApplies(before: Json, after: Json, declared: set<string>, order: seq<string>, removals: seq<string>)
    requires before.JObj? && after.JObj? && DotFree(before, after, declared)
    requires Lists(order, DiffSet(before, after).Keys) && Lists(removals, Removed(before, after, declared))
    ensures UnsetAll(SetAll(before, DiffSet(before, after), order), removals)
         == Expected(before, after, declared)
  {
    var keys := Sorted(Compared(after));
    var entries, sets := TopChanges(before, after), DiffSet(before, after);
    DiffSetFree(before, after);
    SetAllEntries(before, sets, entries);
    OrderIrrelevant(before, sets, sets.Keys, order, PathsOf(entries));
    SortedDistinct(Compared(after));
    ChangesApply(before, before, after, keys);
    UnsetAllRemoves(Updated(before, after, keys), removals);
    ExpectedIs(before, after, declared, keys, removals);
  }

  lemma ExpectedIs(before: Json, after: Json, declared: set<string>, keys: seq<string>, removals: seq<string>)
    requires before.JObj? && after.JObj? && forall k :: k in keys <==> k in Compared(after)
    requires forall n :: n in removals <==> n in Removed(before, after, declared)
    ensures JObj(Updated(before, after, keys).fields - set n | n in removals) == Expected(before, after, declared)
  {
    assert (set n | n in removals) == Removed(before, after, declared);
    assert Updated(before, after, keys).fields - Removed(before, after, declared)
        == Expected(before, after, declared).fields;
  }

  /** Plain emitted paths are pairwise prefix-free, and the map lists them all. */
  lemma DiffSetFree(before: Json, after: Json)
    requires before.JObj? && after.JObj? && PlainEntries(TopChanges(before, after))
    ensures
      var entries, sets := TopChanges(before, after), DiffSet(before, after);
      && Free(entries) && PrefixFree(sets.Keys)
      && (forall e | e in entries :: Dotted(e.path) in sets && sets[Dotted(e.path)] == e.value)
      && Lists(PathsOf(entries), sets.Keys)
  {
    var keys := Sorted(Compared(after));
    SortedDistinct(Compared(after));
    ChangesFree(before, after, keys);
    DottedMapHolds(TopChanges(before, after));
  }

  /** A removal never overlaps a set. */
  lemma RemovalsApart(before: Json, after: Json, declared: set<string>, path: string, name: string)
    requires before.JObj? && after.JObj? && DotFree(before, after, declared)
    requires path in DiffSet(before, after) && name in Removed(before, after, declared)
    ensures Incomparable(Split(path), Split(name))
  {
    DiffSetFree(before, after);
    ChangesPaths(before, after, Sorted(Compared(after)));
    var e :| e in TopChanges(before, after) && path == Dotted(e.path);
    SplitDotted(e.path);
    SplitPlain(name);
    assert e.path[0] in after.fields && name !in after.fields;
  }
}
