/** The dotted paths that turn one document into another: db/json.go. */
module Diff {
  import opened Wrappers
  import opened Strings
  import opened JsonValue
  import opened DeepSet

  const ID_PATH := "id"
  const VERSION_PATH := "version"

  type Path = p: seq<string> | p != [] witness [""]

  /** One path to set, as segments. */
  datatype Entry = Entry(path: Path, value: Json)

  function Get(fields: map<string, Json>, key: string): Option<Json> {
    if key in fields then Option.Some(fields[key]) else None
  }

  function Below(key: string, entries: seq<Entry>): (r: seq<Entry>)
    ensures |r| == |entries|
    ensures forall i | 0 <= i < |r| :: r[i] == Entry([key] + entries[i].path, entries[i].value)
  {
    seq(|entries|, i requires 0 <= i < |entries| => Entry([key] + entries[i].path, entries[i].value))
  }

  /**
   * What has to be set for one key: nothing when equal, the whole value when either side is not
   * an object or the object lost a key, and otherwise the changes inside the object.
   */
  function Change(key: string, before: Option<Json>, after: Json): seq<Entry>
    decreases after, 1, 0
  {
    if before == Option.Some(after) then []
    else if before.Some? && before.value.JObj? && after.JObj? && before.value.fields.Keys <= after.fields.Keys then
      Below(key, Changes(before.value, after, Sorted(after.fields.Keys)))
    else [Entry([key], after)]
  }

  function Changes(before: Json, after: Json, keys: seq<string>): seq<Entry>
    requires before.JObj? && after.JObj? && forall k | k in keys :: k in after.fields
    decreases after, 0, |keys|
  {
    if keys == [] then []
    else Change(keys[0], Get(before.fields, keys[0]), after.fields[keys[0]]) + Changes(before, after, keys[1..])
  }

  lemma {:induction false} ChangesMembers(before: Json, after: Json, keys: seq<string>, e: Entry)
    requires before.JObj? && after.JObj? && forall k | k in keys :: k in after.fields
    ensures e in Changes(before, after, keys)
       <==> exists k :: k in keys && e in Change(k, Get(before.fields, k), after.fields[k])
    decreases |keys|
  {
    if keys != [] {
      ChangesMembers(before, after, keys[1..], e);
      assert forall k :: k in keys <==> k == keys[0] || k in keys[1..];
    }
  }

  /** The keys diff compares: id and version belong to storage. */
  function Compared(after: Json): set<string>
    requires after.JObj?
  {
    after.fields.Keys - {ID_PATH, VERSION_PATH}
  }

  /** The declared keys the new document dropped. Undeclared stored keys are orphans and stay. */
  function Removed(before: Json, after: Json, declared: set<string>): set<string>
    requires before.JObj? && after.JObj?
  {
    (before.fields.Keys - after.fields.Keys) * declared
  }

  /** The document a patch is meant to leave behind. */
  function Expected(before: Json, after: Json, declared: set<string>): Json
    requires before.JObj? && after.JObj?
  {
    JObj(map k | k in before.fields.Keys + Compared(after) && k !in Removed(before, after, declared) ::
           if k in Compared(after) then after.fields[k] else before.fields[k])
  }

  /**
   * What a patch is meant to leave, key by key: the new value of every key but id and version; a
   * declared key the new document has not is gone; anything else, orphans included, stays.
   */
  lemma ExpectedMeans(before: Json, after: Json, declared: set<string>, k: string)
    requires before.JObj? && after.JObj?
    ensures Get(Expected(before, after, declared).fields, k)
         == if k in after.fields && k != "id" && k != "version" then Option.Some(after.fields[k])
            else if k in declared && k !in after.fields then None
            else Get(before.fields, k)
  {
  }

  // ---------- applying the entries ----------

  function SetEntries(doc: Json, entries: seq<Entry>): (r: Json)
    requires doc.JObj?
    ensures r.JObj?
    decreases |entries|
  {
    if entries == [] then doc else SetEntries(Set(doc, entries[0].path, entries[0].value), entries[1..])
  }

  lemma {:induction false} SetEntriesAppend(doc: Json, a: seq<Entry>, b: seq<Entry>)
    requires doc.JObj?
    ensures SetEntries(doc, a + b) == SetEntries(SetEntries(doc, a), b)
    decreases |a|
  {
    if a == [] {
      assert a + b == b;
    } else {
      SetEntriesAppend(Set(doc, a[0].path, a[0].value), a[1..], b);
      assert (a + b)[1..] == a[1..] + b;
    }
  }

  /** Entries below one key change only that key's object. */
  lemma {:induction false} SetBelowKey(doc: Json, key: string, entries: seq<Entry>)
    requires doc.JObj? && key in doc.fields && doc.fields[key].JObj?
    ensures SetEntries(doc, Below(key, entries)) == JObj(doc.fields[key := SetEntries(doc.fields[key], entries)])
    decreases |entries|
  {
    var below := Below(key, entries);
    if entries == [] {
      assert doc.fields[key := doc.fields[key]] == doc.fields;
    } else {
      var e := entries[0];
      var inner := Set(doc.fields[key], e.path, e.value);
      var next := JObj(doc.fields[key := inner]);
      assert below[0].path[1..] == e.path;
      assert Set(doc, below[0].path, e.value) == next;
      assert below[1..] == Below(key, entries[1..]);
      SetBelowKey(next, key, entries[1..]);
      assert doc.fields[key := inner][key := SetEntries(inner, entries[1..])]
          == doc.fields[key := SetEntries(inner, entries[1..])];
    }
  }

  lemma {:induction false} ChangePaths(key: string, before: Option<Json>, after: Json)
    ensures forall e | e in Change(key, before, after) :: e.path[0] == key
  {
  }

  lemma {:induction false} ChangesPaths(before: Json, after: Json, keys: seq<string>)
    requires before.JObj? && after.JObj? && forall k | k in keys :: k in after.fields
    ensures forall e | e in Changes(before, after, keys) :: e.path[0] in keys
    decreases |keys|
  {
    if keys != [] {
      ChangePaths(keys[0], Get(before.fields, keys[0]), after.fields[keys[0]]);
      ChangesPaths(before, after, keys[1..]);
    }
  }

  lemma SortedDistinct(keys: set<string>)
    ensures forall i, j | 0 <= i < j < |Sorted(keys)| :: Sorted(keys)[i] != Sorted(keys)[j]
  {
    SortedAscends(keys);
    forall i, j | 0 <= i < j < |Sorted(keys)| ensures Sorted(keys)[i] != Sorted(keys)[j] {
      LessTrichotomy(Sorted(keys)[i], Sorted(keys)[j]);
    }
  }

  /** doc with the listed keys taken from after. */
  function Updated(doc: Json, after: Json, keys: seq<string>): (r: Json)
    requires doc.JObj? && after.JObj? && forall k | k in keys :: k in after.fields
  {
    JObj(doc.fields + map k | k in keys :: after.fields[k])
  }

  lemma UpdatedCons(doc: Json, after: Json, keys: seq<string>)
    requires doc.JObj? && after.JObj? && keys != [] && forall k | k in keys :: k in after.fields
    ensures Updated(JObj(doc.fields[keys[0] := after.fields[keys[0]]]), after, keys[1..]) == Updated(doc, after, keys)
  {
    var next := JObj(doc.fields[keys[0] := after.fields[keys[0]]]);
    assert keys == [keys[0]] + keys[1..];
    assert Updated(next, after, keys[1..]).fields == Updated(doc, after, keys).fields;
  }

  /** Taking every key from after gives after when nothing else was there. */
  lemma UpdatedWhole(doc: Json, after: Json, keys: seq<string>)
    requires doc.JObj? && after.JObj? && forall k :: k in keys <==> k in after.fields
    requires doc.fields.Keys <= after.fields.Keys
    ensures Updated(doc, after, keys) == after
  {
    assert Updated(doc, after, keys).fields == after.fields;
  }

  lemma SetOne(doc: Json, key: string, value: Json)
    requires doc.JObj?
    ensures SetEntries(doc, [Entry([key], value)]) == JObj(doc.fields[key := value])
  {
    var e := Entry([key], value);
    assert [e][1..] == [];
    assert SetEntries(Set(doc, e.path, e.value), [e][1..]) == Set(doc, e.path, e.value);
  }

  /** Applying one key's changes puts the new value under the key. */
  lemma {:induction false} ChangeApplies(doc: Json, key: string, before: Option<Json>, after: Json)
    requires doc.JObj? && Get(doc.fields, key) == before
    ensures SetEntries(doc, Change(key, before, after)) == JObj(doc.fields[key := after])
    decreases after, 1, 0
  {
    if before == Option.Some(after) {
      assert doc.fields[key := after] == doc.fields;
    } else if before.Some? && before.value.JObj? && after.JObj? && before.value.fields.Keys <= after.fields.Keys {
      var keys := Sorted(after.fields.Keys);
      var inside := Changes(before.value, after, keys);
      SortedDistinct(after.fields.Keys);
      ChangesApply(before.value, before.value, after, keys);
      UpdatedWhole(before.value, after, keys);
      SetBelowKey(doc, key, inside);
      assert Change(key, before, after) == Below(key, inside);
    } else {
      SetOne(doc, key, after);
      assert Change(key, before, after) == [Entry([key], after)];
    }
  }

  lemma {:induction false} ChangesApply(doc: Json, before: Json, after: Json, keys: seq<string>)
    requires doc.JObj? && before.JObj? && after.JObj? && forall k | k in keys :: k in after.fields
    requires forall i, j | 0 <= i < j < |keys| :: keys[i] != keys[j]
    requires forall k | k in keys :: Get(doc.fields, k) == Get(before.fields, k)
    ensures SetEntries(doc, Changes(before, after, keys)) == Updated(doc, after, keys)
    decreases after, 0, |keys|
  {
    if keys == [] {
      assert Updated(doc, after, keys).fields == doc.fields;
    } else {
      var k := keys[0];
      var head := Change(k, Get(before.fields, k), after.fields[k]);
      var rest := Changes(before, after, keys[1..]);
      var next := JObj(doc.fields[k := after.fields[k]]);
      ChangeApplies(doc, k, Get(before.fields, k), after.fields[k]);
      TailAgrees(doc, before, k, after.fields[k], keys);
      ChangesApply(next, before, after, keys[1..]);
      SetEntriesAppend(doc, head, rest);
      assert Changes(before, after, keys) == head + rest;
      UpdatedCons(doc, after, keys);
    }
  }

  lemma TailAgrees(doc: Json, before: Json, key: string, value: Json, keys: seq<string>)
    requires doc.JObj? && before.JObj? && keys != [] && keys[0] == key
    requires forall i, j | 0 <= i < j < |keys| :: keys[i] != keys[j]
    requires forall k | k in keys :: Get(doc.fields, k) == Get(before.fields, k)
    ensures forall k | k in keys[1..] :: Get(doc.fields[key := value], k) == Get(before.fields, k)
  {
    assert forall x | x in keys[1..] :: x in keys && x != key;
  }

  // ---------- the paths are prefix-free ----------

  ghost predicate Free(entries: seq<Entry>) {
    forall i, j | 0 <= i < j < |entries| :: Incomparable(entries[i].path, entries[j].path)
  }

  lemma FreeBelow(key: string, entries: seq<Entry>)
    requires Free(entries)
    ensures Free(Below(key, entries))
  {
    var below := Below(key, entries);
    forall i, j | 0 <= i < j < |below| ensures Incomparable(below[i].path, below[j].path) {
      IncomparableBelow(key, entries[i].path, entries[j].path);
    }
  }

  lemma PrefixBelow(key: string, p: seq<string>, q: seq<string>)
    requires [key] + p <= [key] + q
    ensures p <= q
  {
    assert forall i | 0 <= i < |p| :: p[i] == ([key] + p)[i + 1] == ([key] + q)[i + 1] == q[i];
  }

  lemma IncomparableBelow(key: string, p: seq<string>, q: seq<string>)
    requires Incomparable(p, q)
    ensures Incomparable([key] + p, [key] + q)
  {
    if [key] + p <= [key] + q { PrefixBelow(key, p, q); }
    if [key] + q <= [key] + p { PrefixBelow(key, q, p); }
  }

  lemma FreeAppend(a: seq<Entry>, b: seq<Entry>)
    requires Free(a) && Free(b)
    requires forall x, y | x in a && y in b :: Incomparable(x.path, y.path)
    ensures Free(a + b)
  {
    forall i, j | 0 <= i < j < |a + b| ensures Incomparable((a + b)[i].path, (a + b)[j].path) {
      if i < |a| <= j {
        assert a[i] in a && b[j - |a|] in b;
      }
    }
  }

  lemma {:induction false} ChangeFree(key: string, before: Option<Json>, after: Json)
    ensures Free(Change(key, before, after))
    decreases after, 1, 0
  {
    if before.Some? && before.value.JObj? && after.JObj? && before.value.fields.Keys <= after.fields.Keys {
      var keys := Sorted(after.fields.Keys);
      SortedDistinct(after.fields.Keys);
      ChangesFree(before.value, after, keys);
      FreeBelow(key, Changes(before.value, after, keys));
    }
  }

  /** The paths diff emits are pairwise prefix-free, at every nesting level. */
  lemma {:induction false} ChangesFree(before: Json, after: Json, keys: seq<string>)
    requires before.JObj? && after.JObj? && forall k | k in keys :: k in after.fields
    requires forall i, j | 0 <= i < j < |keys| :: keys[i] != keys[j]
    ensures Free(Changes(before, after, keys))
    decreases after, 0, |keys|
  {
    if keys != [] {
      var k := keys[0];
      var head := Change(k, Get(before.fields, k), after.fields[k]);
      var rest := Changes(before, after, keys[1..]);
      ChangeFree(k, Get(before.fields, k), after.fields[k]);
      ChangesFree(before, after, keys[1..]);
      ChangePaths(k, Get(before.fields, k), after.fields[k]);
      ChangesPaths(before, after, keys[1..]);
      forall x, y | x in head && y in rest ensures Incomparable(x.path, y.path) {
        assert x.path[0] == k && y.path[0] in keys[1..] && y.path[0] != k;
      }
      FreeAppend(head, rest);
    }
  }
}
