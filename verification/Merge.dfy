/**
 * JSON Merge Patch (section 2 of RFC 7386) and SQLite's json_set, and exactly when they do what
 * a deep-set does.
 */
module Merge {
  import opened Wrappers
  import opened JsonValue
  import opened DeepSet
  import opened Diff

  /** The members of a merge target: none unless it is an object. */
  function Members(target: Option<Json>): map<string, Json> {
    if target.Some? && target.value.JObj? then target.value.fields else map[]
  }

  /** Section 2 of RFC 7386: a null member removes, an object member merges, anything else replaces. */
  function MergePatch(target: Option<Json>, patch: Json): (r: Json)
    ensures patch.JObj? ==> r.JObj?
    decreases patch
  {
    if !patch.JObj? then patch
    else
      var base := Members(target);
      JObj(map k | k in base.Keys + patch.fields.Keys && !(k in patch.fields && patch.fields[k].JNull?) ::
             if k in patch.fields then MergePatch(Get(base, k), patch.fields[k]) else base[k])
  }

  /** json_set(): missing parents are created, a parent that is not an object is left alone. */
  function JsonSet(node: Json, path: seq<string>, value: Json): (r: Json)
    requires node.JObj? && path != []
    ensures r.JObj?
    decreases |path|
  {
    if |path| == 1 then JObj(node.fields[path[0] := value])
    else if path[0] !in node.fields then JObj(node.fields[path[0] := JsonSet(JObj(map[]), path[1..], value)])
    else if node.fields[path[0]].JObj? then
      JObj(node.fields[path[0] := JsonSet(node.fields[path[0]], path[1..], value)])
    else node
  }

  /** Some parent on the path exists and is not an object. */
  predicate Blocked(node: Json, path: seq<string>)
    requires node.JObj? && path != []
    decreases |path|
  {
    && |path| > 1
    && path[0] in node.fields
    && (!node.fields[path[0]].JObj? || Blocked(node.fields[path[0]], path[1..]))
  }

  lemma {:induction false} JsonSetExact(node: Json, path: seq<string>, value: Json)
    requires node.JObj? && path != []
    ensures JsonSet(node, path, value) == Set(node, path, value) <==> !Blocked(node, path)
    decreases |path|
  {
    if |path| > 1 {
      var a, b := JsonSet(node, path, value), Set(node, path, value);
      JsonSetExact(Child(node, path[0]), path[1..], value);
      assert b.fields[path[0]] == Set(Child(node, path[0]), path[1..], value);
      if path[0] in node.fields && !node.fields[path[0]].JObj? {
        assert a.fields[path[0]] != b.fields[path[0]];
      } else {
        assert a.fields[path[0]] == JsonSet(Child(node, path[0]), path[1..], value);
        if path[0] !in node.fields { EmptyUnblocked(path[1..]); }
      }
    }
  }

  lemma EmptyUnblocked(path: seq<string>)
    requires path != []
    ensures !Blocked(JObj(map[]), path)
  {
  }

  /** The shortest parent on the path that is not an object. */
  function Blocker(node: Json, path: seq<string>): (b: seq<string>)
    requires node.JObj? && path != [] && Blocked(node, path)
    ensures b != [] && b < path
    decreases |path|
  {
    if !node.fields[path[0]].JObj? then [path[0]]
    else [path[0]] + Blocker(node.fields[path[0]], path[1..])
  }

  lemma {:induction false} BlockedLookup(node: Json, path: seq<string>)
    requires node.JObj? && path != [] && Blocked(node, path)
    ensures Lookup(node, path).None?
    decreases |path|
  {
    if node.fields[path[0]].JObj? {
      BlockedLookup(node.fields[path[0]], path[1..]);
    }
  }

  /** json_set puts nothing above its own path, so a blocked path stays blocked. */
  lemma {:induction false} JsonSetKeepsBlocked(node: Json, path: seq<string>, value: Json, other: seq<string>)
    requires node.JObj? && path != [] && other != [] && Blocked(node, other)
    requires path == other || Incomparable(path, other)
    ensures Blocked(JsonSet(node, path, value), other)
    decreases |path|
  {
    if path[0] == other[0] && node.fields[path[0]].JObj? {
      if path != other {
        IncomparableTails(path, other);
      }
      JsonSetKeepsBlocked(node.fields[path[0]], path[1..], value, other[1..]);
    }
  }

  /** A set at an incomparable path blocks nothing. */
  lemma {:induction false} SetUnblocked(node: Json, path: seq<string>, value: Json, other: seq<string>)
    requires node.JObj? && path != [] && other != [] && Incomparable(path, other) && !Blocked(node, other)
    ensures !Blocked(Set(node, path, value), other)
    decreases |path|
  {
    if path[0] == other[0] {
      IncomparableTails(path, other);
      if path[0] !in node.fields || !node.fields[path[0]].JObj? { EmptyUnblocked(other[1..]); }
      SetUnblocked(Child(node, path[0]), path[1..], value, other[1..]);
    }
  }

  // ---------- when merging a value is replacing by it ----------

  /**
   * Merging v over old leaves exactly v: v is no object, or it has no null member, covers every
   * member of an old object, and absorbs member by member.
   */
  predicate Absorbs(stored: Option<Json>, v: Json)
    decreases v
  {
    v.JObj? ==>
      && Members(stored).Keys <= v.fields.Keys
      && forall k | k in v.fields :: !v.fields[k].JNull? && Absorbs(Get(Members(stored), k), v.fields[k])
  }

  lemma {:induction false} AbsorbsExact(stored: Option<Json>, v: Json)
    ensures MergePatch(stored, v) == v <==> Absorbs(stored, v)
    decreases v
  {
    if v.JObj? {
      var base := Members(stored);
      var r := MergePatch(stored, v);
      forall k | k in v.fields
        ensures MergePatch(Get(base, k), v.fields[k]) == v.fields[k] <==> Absorbs(Get(base, k), v.fields[k])
      {
        AbsorbsExact(Get(base, k), v.fields[k]);
      }
      assert forall k | k in base && k !in v.fields :: k in r.fields;
      if Absorbs(stored, v) {
        assert r.fields.Keys == v.fields.Keys;
        assert r.fields == v.fields;
      }
      if r == v {
        forall k | k in v.fields ensures !v.fields[k].JNull? && Absorbs(Get(base, k), v.fields[k]) {
          assert k in r.fields;
        }
      }
    }
  }

  /** The path is still free in a patch being nested: nothing was put at it, above it or below it. */
  predicate FreeAt(patch: Json, path: seq<string>)
    requires patch.JObj? && path != []
    decreases |path|
  {
    path[0] in patch.fields ==> |path| > 1 && patch.fields[path[0]].JObj? && FreeAt(patch.fields[path[0]], path[1..])
  }

  lemma {:induction false} FreeAfter(patch: Json, path: seq<string>, value: Json, other: seq<string>)
    requires patch.JObj? && path != [] && other != [] && Incomparable(path, other) && FreeAt(patch, other)
    ensures FreeAt(Set(patch, path, value), other)
    decreases |path|
  {
    if path[0] == other[0] {
      IncomparableTails(path, other);
      FreeAfter(Child(patch, path[0]), path[1..], value, other[1..]);
    }
  }

  function LookupIn(target: Option<Json>, path: seq<string>): Option<Json> {
    if target.None? then None else Lookup(target.value, path)
  }

  lemma MergeNothing(target: Option<Json>)
    ensures MergePatch(target, JObj(map[])) == if target.Some? && target.value.JObj? then target.value else JObj(map[])
  {
    var base := Members(target);
    assert MergePatch(target, JObj(map[])).fields == base;
  }

  lemma LookupInStep(target: Option<Json>, path: seq<string>)
    requires path != []
    ensures LookupIn(target, path) == LookupIn(Get(Members(target), path[0]), path[1..])
  {
  }

  /** Replacing one member of a patch replaces what the merge leaves under that key. */
  lemma MergeOneKey(target: Option<Json>, patch: Json, key: string, value: Json)
    requires patch.JObj? && !value.JNull?
    ensures MergePatch(target, JObj(patch.fields[key := value]))
         == JObj(MergePatch(target, patch).fields[key := MergePatch(Get(Members(target), key), value)])
  {
    var a := MergePatch(target, JObj(patch.fields[key := value]));
    var b := MergePatch(target, patch).fields[key := MergePatch(Get(Members(target), key), value)];
    assert a.fields.Keys == b.Keys;
    assert a.fields == b;
  }

  /** Nesting one more absorbed value in the patch is one more deep-set on the document. */
  lemma {:induction false} MergeStep(target: Option<Json>, patch: Json, path: seq<string>, value: Json)
    requires patch.JObj? && path != [] && !value.JNull? && FreeAt(patch, path)
    requires Absorbs(LookupIn(target, path), value)
    ensures MergePatch(target, Set(patch, path, value)) == Set(MergePatch(target, patch), path, value)
    decreases |path|
  {
    var key := path[0];
    var stored := Get(Members(target), key);
    var merged := MergePatch(target, patch);
    LookupInStep(target, path);
    SetIs(patch, path, value);
    SetIs(merged, path, value);
    MergeOneKey(target, patch, key, Under(patch, path, value));
    if |path| == 1 {
      AbsorbsExact(stored, value);
    } else {
      MergeStep(stored, Child(patch, key), path[1..], value);
      MergeChild(target, patch, key);
    }
  }

  /** Below a key that holds no value in the patch, merging goes on in the child. */
  lemma MergeChild(target: Option<Json>, patch: Json, key: string)
    requires patch.JObj? && (key in patch.fields ==> patch.fields[key].JObj?)
    ensures Child(MergePatch(target, patch), key) == MergePatch(Get(Members(target), key), Child(patch, key))
  {
    if key !in patch.fields {
      MergeNothing(Get(Members(target), key));
    }
  }

  /** What a merge leaves at a path the patch sets. */
  lemma {:induction false} MergeLookup(target: Option<Json>, patch: Json, path: seq<string>)
    requires patch.JObj? && path != [] && Lookup(patch, path).Some? && !Lookup(patch, path).value.JNull?
    ensures Lookup(MergePatch(target, patch), path)
         == Option.Some(MergePatch(LookupIn(target, path), Lookup(patch, path).value))
    decreases |path|
  {
    var key := path[0];
    var next := patch.fields[key];
    var merged := MergePatch(target, patch);
    LookupInStep(target, path);
    assert Lookup(patch, path) == Lookup(next, path[1..]);
    if |path| == 1 {
      assert path[1..] == [];
    } else {
      MergeLookup(Get(Members(target), key), next, path[1..]);
    }
    assert key in merged.fields && Lookup(merged, path) == Lookup(merged.fields[key], path[1..]);
  }

  /** Below a blocked parent a merge frees the path exactly when the patch reaches into that parent. */
  lemma {:induction false} MergeBlocked(target: Option<Json>, patch: Json, path: seq<string>)
    requires patch.JObj? && path != [] && FreeAt(patch, path)
    ensures Blocked(MergePatch(target, patch), path)
       <==> && target.Some? && target.value.JObj? && Blocked(target.value, path)
            && Lookup(patch, Blocker(target.value, path)).None?
    decreases |path|
  {
    var key := path[0];
    var below := Get(Members(target), key);
    var merged := MergePatch(target, patch);
    if |path| > 1 && key in patch.fields {
      MergeBlocked(below, patch.fields[key], path[1..]);
      assert merged.fields[key] == MergePatch(below, patch.fields[key]);
      if below.Some? && below.value.JObj? && Blocked(below.value, path[1..]) {
        var b := Blocker(below.value, path[1..]);
        assert ([key] + b)[1..] == b;
      } else if below.Some? && !below.value.JObj? {
        assert [key][1..] == [];
      }
    }
  }

  /** A merge leaves what is beside everything its patch holds. */
  lemma {:induction false} MergeMisses(target: Option<Json>, patch: Json, path: seq<string>)
    requires patch.JObj? && path != [] && FreeAt(patch, path)
    ensures Lookup(MergePatch(target, patch), path) == LookupIn(target, path)
    decreases |path|
  {
    var key := path[0];
    var merged := MergePatch(target, patch);
    LookupInStep(target, path);
    if key in patch.fields {
      MergeMisses(Get(Members(target), key), patch.fields[key], path[1..]);
      assert merged.fields[key] == MergePatch(Get(Members(target), key), patch.fields[key]);
    } else {
      assert Get(merged.fields, key) == Get(Members(target), key);
    }
  }
}
