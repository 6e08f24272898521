/** The loops of diff and diffObject in db/json.go, over maps in whatever order they iterate. */
module DiffLoops {
  import opened Wrappers
  import opened Strings
  import opened JsonValue
  import opened DeepSet
  import opened Diff
  import opened DiffPaths

  // ---------- the entries the loops have to write ----------

  ghost function Under(parent: seq<string>, e: Entry): Entry {
    Entry(parent + e.path, e.value)
  }

  /** The entries one key below a parent calls for. */
  ghost function KeyEntries(parent: seq<string>, key: string, before: Option<Json>, after: Json): set<Entry> {
    set e | e in Change(key, before, after) :: Under(parent, e)
  }

  /** The entries a set of keys calls for. */
  ghost function AllEntries(parent: seq<string>, before: Json, after: Json, keys: set<string>): set<Entry>
    requires before.JObj? && after.JObj? && keys <= after.fields.Keys
  {
    set k, e | k in keys && e in Change(k, Get(before.fields, k), after.fields[k]) :: Under(parent, e)
  }

  lemma AllEntriesTurn(parent: seq<string>, before: Json, after: Json, keys: set<string>, key: string)
    requires before.JObj? && after.JObj? && keys + {key} <= after.fields.Keys
    ensures AllEntries(parent, before, after, keys + {key})
         == AllEntries(parent, before, after, keys)
            + KeyEntries(parent, key, Get(before.fields, key), after.fields[key])
  {
  }

  /** One turn of the loop over members: what is written grows by one key's entries. */
  lemma MembersTurn(parent: seq<string>, before: Json, after: Json, seen: set<string>, key: string,
                    done: set<Entry>)
    requires before.JObj? && after.JObj? && seen + {key} <= after.fields.Keys
    ensures done + AllEntries(parent, before, after, seen + {key})
         == done + AllEntries(parent, before, after, seen)
            + KeyEntries(parent, key, Get(before.fields, key), after.fields[key])
  {
    AllEntriesTurn(parent, before, after, seen, key);
  }

  /** An object that changed and lost no key calls for what its members call for. */
  lemma NestedEntries(parent: seq<string>, key: string, before: Json, after: Json)
    requires before.JObj? && after.JObj? && before != after && before.fields.Keys <= after.fields.Keys
    ensures KeyEntries(parent, key, Option.Some(before), after)
         == AllEntries(parent + [key], before, after, after.fields.Keys)
  {
    var keys := Sorted(after.fields.Keys);
    var inside := Changes(before, after, keys);
    var below := Change(key, Option.Some(before), after);
    forall x | x in KeyEntries(parent, key, Option.Some(before), after)
      ensures x in AllEntries(parent + [key], before, after, after.fields.Keys)
    {
      var e :| e in below && x == Under(parent, e);
      var i :| 0 <= i < |inside| && below[i] == e;
      assert inside[i] in inside;
      ChangesMembers(before, after, keys, inside[i]);
      PathBelow(parent, key, inside[i]);
    }
    forall x | x in AllEntries(parent + [key], before, after, after.fields.Keys)
      ensures x in KeyEntries(parent, key, Option.Some(before), after)
    {
      var k, e :| k in after.fields && e in Change(k, Get(before.fields, k), after.fields[k])
                  && x == Under(parent + [key], e);
      ChangesMembers(before, after, keys, e);
      var i :| 0 <= i < |inside| && inside[i] == e;
      PathBelow(parent, key, e);
      assert below[i] in below;
    }
  }

  lemma PathBelow(parent: seq<string>, key: string, e: Entry)
    ensures Under(parent + [key], e) == Under(parent, Entry([key] + e.path, e.value))
  {
    assert parent + [key] + e.path == parent + ([key] + e.path);
  }

  /** The top level's entries are the ones diff emits. */
  lemma TopEntries(before: Json, after: Json)
    requires before.JObj? && after.JObj?
    ensures AllEntries([], before, after, Compared(after)) == EntrySet(TopChanges(before, after))
  {
    var keys := Sorted(Compared(after));
    forall x | x in AllEntries([], before, after, Compared(after))
      ensures x in EntrySet(TopChanges(before, after))
    {
      var k, e :| k in Compared(after) && e in Change(k, Get(before.fields, k), after.fields[k])
                  && x == Under([], e);
      assert [] + e.path == e.path;
      ChangesMembers(before, after, keys, e);
    }
    forall x | x in EntrySet(TopChanges(before, after))
      ensures x in AllEntries([], before, after, Compared(after))
    {
      ChangesMembers(before, after, keys, x);
      assert [] + x.path == x.path;
      assert x == Under([], x);
    }
  }

  lemma WholeEntry(parent: seq<string>, key: string, before: Option<Json>, after: Json)
    requires Change(key, before, after) == [Entry([key], after)]
    ensures KeyEntries(parent, key, before, after) == {Entry(parent + [key], after)}
  {
    assert Under(parent, Entry([key], after)) == Entry(parent + [key], after);
  }

  /** One more write keeps the map filled, whichever entry it overwrites. */
  lemma FilledWrite(sets: map<string, Json>, done: set<Entry>, e: Entry)
    requires Filled(sets, done)
    ensures Filled(sets[Dotted(e.path) := e.value], done + {e})
  {
    var next := sets[Dotted(e.path) := e.value];
    forall p | p in next ensures exists f :: f in done + {e} && Dotted(f.path) == p && f.value == next[p] {
      if p == Dotted(e.path) {
        assert e in done + {e};
      } else {
        var f :| f in done && Dotted(f.path) == p && f.value == sets[p];
        assert f in done + {e};
      }
    }
  }

  lemma DottedSnoc(prefix: seq<string>, key: string)
    requires prefix != []
    ensures Dotted(prefix + [key]) == Dotted(prefix) + "." + key
  {
    assert (prefix + [key])[..|prefix|] == prefix;
  }

  // ---------- the loops ----------

  /** One key: nothing when it is unchanged, recurse into an object on both sides, or set it whole. */
  method DiffKey(ghost parent: seq<string>, path: string, key: string, before: Option<Json>, after: Json,
                 found: map<string, Json>, ghost done: set<Entry>)
    returns (sets: map<string, Json>)
    requires path == Dotted(parent + [key]) && Filled(found, done)
    ensures Filled(sets, done + KeyEntries(parent, key, before, after))
    decreases after, 2
  {
    if before == Option.Some(after) {
      assert KeyEntries(parent, key, before, after) == {};
      assert done + {} == done;
      return found;
    }
    if before.Some? && before.value.JObj? && after.JObj? {
      sets := DiffObject(parent, path, key, before.value, after, found, done);
      return;
    }
    WholeEntry(parent, key, before, after);
    FilledWrite(found, done, Entry(parent + [key], after));
    return found[path := after];
  }

  /** diffObject(): rewrite the object whole when it lost a key, otherwise go key by key. */
  method DiffObject(ghost parent: seq<string>, prefix: string, ghost key: string, before: Json, after: Json,
                    found: map<string, Json>, ghost done: set<Entry>)
    returns (sets: map<string, Json>)
    requires before.JObj? && after.JObj? && before != after
    requires prefix == Dotted(parent + [key]) && Filled(found, done)
    ensures Filled(sets, done + KeyEntries(parent, key, Option.Some(before), after))
    decreases after, 1
  {
    if exists k | k in before.fields :: k !in after.fields {
      WholeEntry(parent, key, Option.Some(before), after);
      FilledWrite(found, done, Entry(parent + [key], after));
      return found[prefix := after];
    }
    sets := DiffMembers(parent + [key], prefix, before, after, found, done);
    NestedEntries(parent, key, before, after);
  }

  /** Every member of the new object, in the order the range takes. */
  method DiffMembers(ghost here: seq<string>, prefix: string, before: Json, after: Json,
                     found: map<string, Json>, ghost done: set<Entry>)
    returns (sets: map<string, Json>)
    requires before.JObj? && after.JObj? && here != []
    requires prefix == Dotted(here) && Filled(found, done)
    ensures Filled(sets, done + AllEntries(here, before, after, after.fields.Keys))
    decreases after, 0
  {
    sets := found;
    var rest := after.fields.Keys;
    ghost var seen: set<string> := {};
    assert done + AllEntries(here, before, after, {}) == done;
    while rest != {}
      invariant rest <= after.fields.Keys && seen == after.fields.Keys - rest
      invariant Filled(sets, done + AllEntries(here, before, after, seen))
      decreases |rest|
    {
      var k :| k in rest;
      ghost var written := done + AllEntries(here, before, after, seen);
      DottedSnoc(here, k);
      sets := DiffKey(here, prefix + "." + k, k, Get(before.fields, k), after.fields[k], sets, written);
      MembersTurn(here, before, after, seen, k, done);
      rest, seen := rest - {k}, seen + {k};
    }
    assert seen == after.fields.Keys;
  }

  /**
   * The first loop of diff. Its map holds every emitted path with an emitted value; without dots
   * in the changed keys it is the one map DiffSet, in every order of the loops.
   */
  method DiffTop(before: Json, after: Json) returns (sets: map<string, Json>)
    requires before.JObj? && after.JObj?
    ensures Emitted(sets, before, after)
    ensures PlainEntries(TopChanges(before, after)) ==> sets == DiffSet(before, after)
  {
    sets := map[];
    var rest := after.fields.Keys;
    while rest != {}
      invariant rest <= after.fields.Keys
      invariant Filled(sets, AllEntries([], before, after, Compared(after) - rest))
      decreases |rest|
    {
      var key :| key in rest;
      ghost var seen := Compared(after) - rest;
      rest := rest - {key};
      if key == ID_PATH || key == VERSION_PATH {
        assert Compared(after) - rest == seen;
        continue;
      }
      ghost var written := AllEntries([], before, after, seen);
      assert [] + [key] == [key];
      sets := DiffKey([], key, key, Get(before.fields, key), after.fields[key], sets, written);
      AllEntriesTurn([], before, after, seen, key);
      assert Compared(after) - rest == seen + {key};
    }
    assert Compared(after) - rest == Compared(after);
    TopEntries(before, after);
    if PlainEntries(TopChanges(before, after)) {
      EmittedIs(sets, before, after);
    }
  }

  /** The second loop of diff: the declared keys that went away. */
  method DiffRemovals(before: Json, after: Json, declared: set<string>) returns (unset: seq<string>)
    requires before.JObj? && after.JObj?
    ensures Lists(unset, Removed(before, after, declared))
  {
    unset := [];
    var rest := before.fields.Keys;
    while rest != {}
      invariant rest <= before.fields.Keys
      invariant Lists(unset, Removed(before, after, declared) - rest)
      decreases |rest|
    {
      var key :| key in rest;
      if key !in after.fields && key in declared {
        unset := unset + [key];
      }
      rest := rest - {key};
    }
    assert Removed(before, after, declared) - rest == Removed(before, after, declared);
  }

  /** diff(): the paths to set and the declared keys to remove; only objects can be compared. */
  method ComputeDiff(before: Json, after: Json, declared: set<string>)
    returns (r: Option<(map<string, Json>, seq<string>)>)
    ensures r.None? <==> !before.JObj? || !after.JObj?
    ensures r.Some? ==> Emitted(r.value.0, before, after)
    ensures r.Some? ==> Lists(r.value.1, Removed(before, after, declared))
    ensures r.Some? && PlainEntries(TopChanges(before, after)) ==> r.value.0 == DiffSet(before, after)
  {
    if !before.JObj? || !after.JObj? {
      return None;
    }
    var sets := DiffTop(before, after);
    var unset := DiffRemovals(before, after, declared);
    return Option.Some((sets, unset));
  }
}
