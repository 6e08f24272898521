/**
 * A dot inside a key: diff joins keys with dots and the backends split at dots, so such a change
 * is written somewhere else. Exactly when that loses it, in every order of the loops.
 */
module DiffDots {
  import opened Wrappers
  import opened Strings
  import opened JsonValue
  import opened DeepSet
  import opened Diff
  import opened DiffPaths

  /** The first segment with a dot, or the length of the path. */
  function FirstDot(path: seq<string>): (i: nat)
    ensures i <= |path| && (forall s | s in path[..i] :: Plain(s)) && (i < |path| ==> !Plain(path[i]))
  {
    if path == [] || !Plain(path[0]) then 0
    else
      var i := FirstDot(path[1..]);
      assert path[..i + 1] == [path[0]] + path[1..][..i];
      i + 1
  }

  lemma FirstDotPlain(path: seq<string>)
    ensures FirstDot(path) == |path| <==> PlainPath(path)
  {
    assert path[..|path|] == path;
  }

  /** An entry with a dotted segment, no other entry having one nearer the root. */
  ghost predicate Shallowest(entries: seq<Entry>, e: Entry) {
    && e in entries && FirstDot(e.path) < |e.path|
    && forall f | f in entries && FirstDot(f.path) < |f.path| :: FirstDot(e.path) <= FirstDot(f.path)
  }

  lemma {:induction false} ShallowestExists(entries: seq<Entry>) returns (e: Entry)
    requires exists f :: f in entries && FirstDot(f.path) < |f.path|
    ensures Shallowest(entries, e)
  {
    var head, tail := entries[0], entries[1..];
    assert forall f :: f in entries <==> f == head || f in tail;
    if exists f :: f in tail && FirstDot(f.path) < |f.path| {
      e := ShallowestExists(tail);
      if FirstDot(head.path) < |head.path| && FirstDot(head.path) < FirstDot(e.path) {
        e := head;
      }
    } else {
      e := head;
    }
  }

  /** Where the dotted key itself stands. */
  function Spot(e: Entry): (spot: seq<string>)
    requires FirstDot(e.path) < |e.path|
    ensures spot != [] && spot <= e.path
  {
    e.path[..FirstDot(e.path) + 1]
  }

  lemma FreeMeans(entries: seq<Entry>, e: Entry, f: Entry)
    requires Free(entries) && e in entries && f in entries && e != f
    ensures Incomparable(e.path, f.path)
  {
    var i :| 0 <= i < |entries| && entries[i] == e;
    var j :| 0 <= j < |entries| && entries[j] == f;
    assert i < j ==> Incomparable(entries[i].path, entries[j].path);
    assert j < i ==> Incomparable(entries[j].path, entries[i].path);
  }

  /** Segments that come out of a split hold no segment with a dot. */
  lemma NotWithin(written: seq<string>, spot: seq<string>, i: nat)
    requires i < |spot| && !Plain(spot[i]) && forall s | s in written :: Plain(s)
    ensures !(spot <= written)
  {
    if i < |written| {
      assert written[i] in written;
    }
  }

  lemma PrefixTransitive(a: seq<string>, b: seq<string>, c: seq<string>)
    requires b <= c && !(a <= c)
    ensures !(a <= b)
  {
  }

  /** No write lands at, above or below the shallowest dotted key. */
  lemma SpotMissed(entries: seq<Entry>, e: Entry, f: Entry)
    requires Free(entries) && Shallowest(entries, e) && f in entries
    ensures Incomparable(Split(Dotted(f.path)), Spot(e))
  {
    NotWithin(Split(Dotted(f.path)), Spot(e), FirstDot(e.path));
    if FirstDot(f.path) < |f.path| {
      SplitDots(f.path, FirstDot(f.path));
    } else {
      FirstDotPlain(f.path);
      FirstDotPlain(e.path);
      SplitDotted(f.path);
      FreeMeans(entries, e, f);
      PrefixTransitive(f.path, Spot(e), e.path);
    }
  }

  // ---------- an emitted path is where the documents differ ----------

  lemma {:induction false} ChangeDiffers(x: Json, y: Json, key: string, before: Option<Json>, after: Json)
    requires x.JObj? && y.JObj? && Get(x.fields, key) == before && Get(y.fields, key) == Option.Some(after)
    ensures forall e | e in Change(key, before, after) :: Lookup(x, e.path) != Lookup(y, e.path)
    decreases after, 1, 0
  {
    forall e | e in Change(key, before, after) ensures Lookup(x, e.path) != Lookup(y, e.path) {
      if before.Some? && before.value.JObj? && after.JObj? && before.value.fields.Keys <= after.fields.Keys {
        var keys := Sorted(after.fields.Keys);
        var inside := Changes(before.value, after, keys);
        ChangesDiffer(before.value, after, keys);
        var i :| 0 <= i < |inside| && Below(key, inside)[i] == e;
        assert inside[i] in inside && e.path[1..] == inside[i].path;
      } else {
        assert e.path == [key] && [key][1..] == [];
      }
    }
  }

  lemma {:induction false} ChangesDiffer(before: Json, after: Json, keys: seq<string>)
    requires before.JObj? && after.JObj? && forall k | k in keys :: k in after.fields
    ensures forall e | e in Changes(before, after, keys) :: Lookup(before, e.path) != Lookup(after, e.path)
    decreases after, 0, |keys|
  {
    if keys != [] {
      ChangeDiffers(before, after, keys[0], Get(before.fields, keys[0]), after.fields[keys[0]]);
      ChangesDiffer(before, after, keys[1..]);
    }
  }

  /** A write that has to be made whole: the value differs, and one object has not just grown or changed inside. */
  predicate Needed(stored: Option<Json>, value: Json) {
    && stored != Option.Some(value)
    && !(stored.Some? && stored.value.JObj? && value.JObj?
         && forall k | k in stored.value.fields :: k in value.fields)
  }

  lemma {:induction false} ChangeNeeded(x: Json, y: Json, key: string, before: Option<Json>, after: Json)
    requires x.JObj? && y.JObj? && Get(x.fields, key) == before && Get(y.fields, key) == Option.Some(after)
    ensures forall e | e in Change(key, before, after) ::
              Lookup(y, e.path) == Option.Some(e.value) && Needed(Lookup(x, e.path), e.value)
    decreases after, 1, 0
  {
    forall e | e in Change(key, before, after)
      ensures Lookup(y, e.path) == Option.Some(e.value) && Needed(Lookup(x, e.path), e.value)
    {
      if before.Some? && before.value.JObj? && after.JObj? && before.value.fields.Keys <= after.fields.Keys {
        var keys := Sorted(after.fields.Keys);
        var inside := Changes(before.value, after, keys);
        ChangesNeeded(before.value, after, keys);
        var i :| 0 <= i < |inside| && Below(key, inside)[i] == e;
        assert inside[i] in inside && e.path[1..] == inside[i].path;
      } else {
        assert e.path == [key] && [key][1..] == [];
      }
    }
  }

  lemma {:induction false} ChangesNeeded(before: Json, after: Json, keys: seq<string>)
    requires before.JObj? && after.JObj? && forall k | k in keys :: k in after.fields
    ensures forall e | e in Changes(before, after, keys) ::
              Lookup(after, e.path) == Option.Some(e.value) && Needed(Lookup(before, e.path), e.value)
    decreases after, 0, |keys|
  {
    if keys != [] {
      ChangeNeeded(before, after, keys[0], Get(before.fields, keys[0]), after.fields[keys[0]]);
      ChangesNeeded(before, after, keys[1..]);
    }
  }

  lemma {:induction false} SameKeysEmitNothing(before: Json, after: Json, keys: seq<string>)
    requires before.JObj? && after.JObj? && forall k | k in keys :: k in after.fields
    requires forall k | k in keys :: Get(before.fields, k) == Option.Some(after.fields[k])
    ensures Changes(before, after, keys) == []
    decreases |keys|
  {
    if keys != [] {
      SameKeysEmitNothing(before, after, keys[1..]);
    }
  }

  /**
   * diff writes only what changed: every set carries the new document's value to a place that had
   * another, and a whole object only where there was none or one that lost a key. A patch that
   * changed nothing sets nothing.
   */
  lemma WritesOnlyChanges(before: Json, after: Json)
    requires before.JObj? && after.JObj?
    ensures forall e | e in TopChanges(before, after) ::
              Lookup(after, e.path) == Option.Some(e.value) && Needed(Lookup(before, e.path), e.value)
    ensures (forall k | k in after.fields && k != "id" && k != "version" ::
               Get(before.fields, k) == Option.Some(after.fields[k])) ==> TopChanges(before, after) == []
  {
    ChangesNeeded(before, after, Sorted(Compared(after)));
    if forall k | k in after.fields && k != "id" && k != "version" ::
         Get(before.fields, k) == Option.Some(after.fields[k]) {
      SameKeysEmitNothing(before, after, Sorted(Compared(after)));
    }
  }

  /** Documents that agree at a path agree below it. */
  lemma {:induction false} LookupBelow(x: Json, path: seq<string>, rest: seq<string>)
    ensures Lookup(x, path + rest) ==
            if Lookup(x, path).None? then None else Lookup(Lookup(x, path).value, rest)
    decreases |path|
  {
    if path == [] {
      assert path + rest == rest;
    } else {
      assert (path + rest)[1..] == path[1..] + rest;
      if x.JObj? && path[0] in x.fields {
        LookupBelow(x.fields[path[0]], path[1..], rest);
      }
    }
  }

  /** The documents differ at every prefix of an emitted path. */
  lemma SpotDiffers(before: Json, after: Json, e: Entry)
    requires before.JObj? && after.JObj? && e in TopChanges(before, after) && FirstDot(e.path) < |e.path|
    ensures Lookup(before, Spot(e)) != Lookup(after, Spot(e))
  {
    var spot := Spot(e);
    var rest := e.path[|spot|..];
    assert e.path == spot + rest;
    ChangesDiffer(before, after, Sorted(Compared(after)));
    LookupBelow(before, spot, rest);
    LookupBelow(after, spot, rest);
  }

  // ---------- what stays behind ----------

  /** Every one of the paths goes past the spot. */
  ghost predicate Beside(spot: seq<string>, paths: set<string>) {
    forall p | p in paths :: Incomparable(Split(p), spot)
  }

  /** A place the update never comes near, where the stored document is not the expected one. */
  ghost predicate Lost(before: Json, after: Json, declared: set<string>, sets: map<string, Json>, spot: seq<string>)
    requires before.JObj? && after.JObj?
  {
    && spot != [] && spot[0] != VERSION_PATH
    && Beside(spot, sets.Keys) && Beside(spot, Removed(before, after, declared))
    && Lookup(before, spot) != Lookup(Expected(before, after, declared), spot)
  }

  /** Splitting never names a key with a dot. */
  lemma DottedBeside(path: string, name: string)
    requires !Plain(name)
    ensures Incomparable(Split(path), [name])
  {
    NotWithin(Split(path), [name], 0);
    assert Split(path)[0] in Split(path);
  }

  /** A dropped name with a dot stays. */
  lemma RemovalIsLost(before: Json, after: Json, declared: set<string>, sets: map<string, Json>, name: string)
    requires before.JObj? && after.JObj? && name in Removed(before, after, declared) && !Plain(name)
    ensures Lost(before, after, declared, sets, [name])
  {
    forall p | p in sets.Keys + Removed(before, after, declared) ensures Incomparable(Split(p), [name]) {
      DottedBeside(p, name);
    }
    assert name in before.fields && name !in Expected(before, after, declared).fields;
    assert Lookup(before, [name]) == Lookup(before.fields[name], [name][1..]);
  }

  lemma SpotBeside(before: Json, after: Json, e: Entry, sets: map<string, Json>)
    requires before.JObj? && after.JObj? && Emitted(sets, before, after)
    requires Shallowest(TopChanges(before, after), e)
    ensures Beside(Spot(e), sets.Keys) && Spot(e)[0] in Compared(after)
  {
    var entries, keys := TopChanges(before, after), Sorted(Compared(after));
    SortedDistinct(Compared(after));
    ChangesFree(before, after, keys);
    ChangesPaths(before, after, keys);
    forall p | p in sets ensures Incomparable(Split(p), Spot(e)) {
      var f :| f in EntrySet(entries) && Dotted(f.path) == p && f.value == sets[p];
      SpotMissed(entries, e, f);
    }
  }

  lemma SpotExpected(before: Json, after: Json, declared: set<string>, spot: seq<string>)
    requires before.JObj? && after.JObj? && spot != [] && spot[0] in Compared(after)
    ensures Lookup(Expected(before, after, declared), spot) == Lookup(after, spot)
  {
  }

  /** A changed key with a dot keeps its old value. */
  lemma ChangeIsLost(before: Json, after: Json, declared: set<string>, sets: map<string, Json>, e: Entry)
    requires before.JObj? && after.JObj? && Emitted(sets, before, after)
    requires Shallowest(TopChanges(before, after), e)
    requires forall n | n in Removed(before, after, declared) :: Plain(n)
    ensures Lost(before, after, declared, sets, Spot(e))
  {
    SpotBeside(before, after, e, sets);
    forall n | n in Removed(before, after, declared) ensures Incomparable(Split(n), Spot(e)) {
      SplitPlain(n);
      assert n != Spot(e)[0];
    }
    SpotDiffers(before, after, e);
    SpotExpected(before, after, declared, Spot(e));
  }

  /** A dot in a changed or dropped key always loses something. */
  lemma LostSpot(before: Json, after: Json, declared: set<string>, sets: map<string, Json>)
    returns (spot: seq<string>)
    requires before.JObj? && after.JObj? && Emitted(sets, before, after)
    requires !DotFree(before, after, declared)
    ensures Lost(before, after, declared, sets, spot)
  {
    if exists n :: n in Removed(before, after, declared) && !Plain(n) {
      var n :| n in Removed(before, after, declared) && !Plain(n);
      RemovalIsLost(before, after, declared, sets, n);
      spot := [n];
    } else {
      var entries := TopChanges(before, after);
      var f :| f in entries && !PlainPath(f.path);
      FirstDotPlain(f.path);
      var e := ShallowestExists(entries);
      ChangeIsLost(before, after, declared, sets, e);
      spot := Spot(e);
    }
  }

  /**
   * For every pair of documents, every map the loops of diff may leave and every order of
   * application: the stored document becomes the expected one if and only if no path diff sets
   * and no name it removes has a dot inside a key.
   */
  lemma DiffExact(before: Json, after: Json, declared: set<string>, sets: map<string, Json>,
                  order: seq<string>, removals: seq<string>)
    requires before.JObj? && after.JObj? && Emitted(sets, before, after)
    requires Lists(order, sets.Keys) && Lists(removals, Removed(before, after, declared))
    ensures UnsetAll(SetAll(before, sets, order), removals) == Expected(before, after, declared)
       <==> DotFree(before, after, declared)
  {
    if DotFree(before, after, declared) {
      EmittedIs(sets, before, after);
      DiffApplies(before, after, declared, order, removals);
    } else {
      var spot := LostSpot(before, after, declared, sets);
      LookupSetAllOther(before, sets, order, spot);
      LookupUnsetAll(SetAll(before, sets, order), removals, spot);
    }
  }

  /** The smallest loss: one changed key with a dot. The new value goes under "a" instead. */
  lemma DottedKeyIsLost(before: Json, after: Json)
    requires before == JObj(map["a.b" := JNum(1.0)]) && after == JObj(map["a.b" := JNum(2.0)])
    ensures TopChanges(before, after) == [Entry(["a.b"], JNum(2.0))]
    ensures Set(before, Split(Dotted(["a.b"])), JNum(2.0))
         == JObj(map["a.b" := JNum(1.0), "a" := JObj(map["b" := JNum(2.0)])])
  {
    var keys := Sorted(Compared(after));
    assert Compared(after) == {"a.b"};
    assert keys == ["a.b"] by { assert keys[0] in keys; }
    assert keys[1..] == [];
    SetDotted(before);
  }

  lemma SetDotted(before: Json)
    requires before == JObj(map["a.b" := JNum(1.0)])
    ensures Set(before, Split("a.b"), JNum(2.0))
         == JObj(map["a.b" := JNum(1.0), "a" := JObj(map["b" := JNum(2.0)])])
  {
    SplitJoined("a", "b");
    SplitPlain("a");
    SplitPlain("b");
    assert "a" + "." + "b" == "a.b";
    assert Split("a.b") == ["a", "b"] && ["a", "b"][1..] == ["b"];
    var b := JObj(map["b" := JNum(2.0)]);
    assert Set(JObj(map[]), ["b"], JNum(2.0)) == b;
    assert before.fields["a" := b] == map["a.b" := JNum(1.0), "a" := b];
  }
}
