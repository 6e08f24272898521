/**
 * Setting and removing values at dotted paths of a document, as memdb does it in process, and
 * why the order of the sets does not matter when no path is a prefix of another.
 */
module DeepSet {
  import opened Wrappers
  import opened Strings
  import opened JsonValue

  /** The object under a key, or a fresh one when the key is absent or holds something else. */
  function Child(node: Json, key: string): (child: Json)
    requires node.JObj?
    ensures child.JObj?
  {
    if key in node.fields && node.fields[key].JObj? then node.fields[key] else JObj(map[])
  }

  /** set(): missing and non-object parents are created on the way. */
  function Set(node: Json, path: seq<string>, value: Json): (r: Json)
    requires node.JObj? && path != []
    ensures r.JObj?
    decreases |path|
  {
    if |path| == 1 then JObj(node.fields[path[0] := value])
    else JObj(node.fields[path[0] := Set(Child(node, path[0]), path[1..], value)])
  }

  /** unset(): nothing happens when a parent is missing. */
  function Unset(node: Json, path: seq<string>): (r: Json)
    requires node.JObj? && path != []
    ensures r.JObj?
    decreases |path|
  {
    if |path| == 1 then JObj(node.fields - {path[0]})
    else if path[0] in node.fields && node.fields[path[0]].JObj? then
      JObj(node.fields[path[0] := Unset(node.fields[path[0]], path[1..])])
    else node
  }

  predicate Incomparable(p: seq<string>, q: seq<string>) {
    !(p <= q) && !(q <= p)
  }

  lemma IncomparableTails(p: seq<string>, q: seq<string>)
    requires p != [] && q != [] && p[0] == q[0] && Incomparable(p, q)
    ensures |p| > 1 && |q| > 1 && Incomparable(p[1..], q[1..])
  {
    assert p == [p[0]] + p[1..] && q == [q[0]] + q[1..];
  }

  /** After a removal nothing is found at the path or below it. */
  lemma {:induction false} LookupUnset(node: Json, path: seq<string>, below: seq<string>)
    requires node.JObj? && path != []
    ensures Lookup(Unset(node, path), path + below) == None
    decreases |path|
  {
    var whole := path + below;
    assert whole[0] == path[0] && whole[1..] == path[1..] + below;
    if |path| > 1 && path[0] in node.fields && node.fields[path[0]].JObj? {
      LookupUnset(node.fields[path[0]], path[1..], below);
    } else if |path| > 1 && path[0] in node.fields {
      assert Lookup(node.fields[path[0]], whole[1..]) == None;
    }
  }

  /** The value a set leaves under the first key of its path. */
  function Under(node: Json, path: seq<string>, value: Json): Json
    requires node.JObj? && path != []
  {
    if |path| == 1 then value else Set(Child(node, path[0]), path[1..], value)
  }

  lemma SetIs(node: Json, path: seq<string>, value: Json)
    requires node.JObj? && path != []
    ensures Set(node, path, value) == JObj(node.fields[path[0] := Under(node, path, value)])
  {
  }

  lemma UnderDepends(a: Json, b: Json, path: seq<string>, value: Json)
    requires a.JObj? && b.JObj? && path != [] && Child(a, path[0]) == Child(b, path[0])
    ensures Under(a, path, value) == Under(b, path, value)
  {
  }

  /** Two sets at paths that are not prefixes of one another commute. */
  lemma {:induction false} SetsCommute(node: Json, p: seq<string>, v: Json, q: seq<string>, w: Json)
    requires node.JObj? && p != [] && q != [] && Incomparable(p, q)
    ensures Set(Set(node, p, v), q, w) == Set(Set(node, q, w), p, v)
    decreases |p|
  {
    if p[0] == q[0] {
      IncomparableTails(p, q);
      SetsCommute(Child(node, p[0]), p[1..], v, q[1..], w);
      SetTwiceBelow(node, p, v, q, w);
      SetTwiceBelow(node, q, w, p, v);
    } else {
      SetTwiceApart(node, p, v, q, w);
      SetTwiceApart(node, q, w, p, v);
      MapUpdatesCommute(node.fields, p[0], Under(node, p, v), q[0], Under(node, q, w));
    }
  }

  lemma MapUpdatesCommute(m: map<string, Json>, k: string, x: Json, l: string, y: Json)
    requires k != l
    ensures m[k := x][l := y] == m[l := y][k := x]
  {
  }

  lemma SetTwiceBelow(node: Json, p: seq<string>, v: Json, q: seq<string>, w: Json)
    requires node.JObj? && |p| > 1 && |q| > 1 && p[0] == q[0]
    ensures Set(Set(node, p, v), q, w) ==
            JObj(node.fields[p[0] := Set(Set(Child(node, p[0]), p[1..], v), q[1..], w)])
  {
    var below := Set(Child(node, p[0]), p[1..], v);
    var once := JObj(node.fields[p[0] := below]);
    assert Child(once, q[0]) == below;
    assert node.fields[p[0] := below][q[0] := Set(below, q[1..], w)] == node.fields[p[0] := Set(below, q[1..], w)];
  }

  lemma SetTwiceApart(node: Json, p: seq<string>, v: Json, q: seq<string>, w: Json)
    requires node.JObj? && p != [] && q != [] && p[0] != q[0]
    ensures Set(Set(node, p, v), q, w) == JObj(node.fields[p[0] := Under(node, p, v)][q[0] := Under(node, q, w)])
  {
    var once := Set(node, p, v);
    SetIs(node, p, v);
    SetIs(once, q, w);
    UnderDepends(once, node, q, w);
  }

  /** What was set is what is found. */
  lemma {:induction false} LookupSet(node: Json, path: seq<string>, value: Json)
    requires node.JObj? && path != []
    ensures Lookup(Set(node, path, value), path) == Option.Some(value)
    decreases |path|
  {
    if |path| > 1 {
      LookupSet(Child(node, path[0]), path[1..], value);
    }
  }

  /** A set leaves every incomparable path as it was. */
  lemma {:induction false} LookupSetOther(node: Json, path: seq<string>, value: Json, other: seq<string>)
    requires node.JObj? && path != [] && other != [] && Incomparable(path, other)
    ensures Lookup(Set(node, path, value), other) == Lookup(node, other)
    decreases |path|
  {
    if path[0] == other[0] {
      IncomparableTails(path, other);
      LookupSetOther(Child(node, path[0]), path[1..], value, other[1..]);
      if path[0] !in node.fields || !node.fields[path[0]].JObj? {
        LookupScalar(JObj(map[]), other[1..]);
        if path[0] in node.fields { LookupScalar(node.fields[path[0]], other[1..]); }
      }
    }
  }

  lemma {:induction false} LookupUnsetOther(node: Json, path: seq<string>, other: seq<string>)
    requires node.JObj? && path != [] && other != [] && Incomparable(path, other)
    ensures Lookup(Unset(node, path), other) == Lookup(node, other)
    decreases |path|
  {
    if path[0] == other[0] {
      IncomparableTails(path, other);
      if path[0] in node.fields && node.fields[path[0]].JObj? {
        LookupUnsetOther(node.fields[path[0]], path[1..], other[1..]);
      }
    }
  }

  lemma LookupScalar(node: Json, path: seq<string>)
    requires path != [] && (!node.JObj? || node.fields == map[])
    ensures Lookup(node, path).None?
  {
  }

  // ---------- sets applied one after another ----------

  /** Apply the sets of a map in the given order of its dotted paths. */
  function SetAll(doc: Json, sets: map<string, Json>, order: seq<string>): (r: Json)
    requires doc.JObj? && forall p | p in order :: p in sets
    ensures r.JObj?
    decreases |order|
  {
    if order == [] then doc
    else SetAll(Set(doc, Split(order[0]), sets[order[0]]), sets, order[1..])
  }

  lemma {:induction false} LookupSetAllOther(doc: Json, paths: map<string, Json>, keys: seq<string>, other: seq<string>)
    requires doc.JObj? && other != [] && (forall p | p in keys :: p in paths && Incomparable(Split(p), other))
    ensures Lookup(SetAll(doc, paths, keys), other) == Lookup(doc, other)
    decreases |keys|
  {
    if keys != [] {
      LookupSetOther(doc, Split(keys[0]), paths[keys[0]], other);
      LookupSetAllOther(Set(doc, Split(keys[0]), paths[keys[0]]), paths, keys[1..], other);
    }
  }

  /** No path of the set is a prefix of another. */
  ghost predicate PrefixFree(paths: set<string>) {
    forall p, q | p in paths && q in paths && p != q :: Incomparable(Split(p), Split(q))
  }

  /** order lists the paths once each. */
  ghost predicate Lists(order: seq<string>, paths: set<string>) {
    && (forall p :: p in order <==> p in paths)
    && forall i, j | 0 <= i < j < |order| :: order[i] != order[j]
  }

  /** A set can be moved to the front over incomparable ones. */
  lemma {:induction false} MoveFirst(doc: Json, sets: map<string, Json>, before: seq<string>, p: string,
                                     after: seq<string>)
    requires doc.JObj? && p in sets && (forall q | q in before + after :: q in sets)
    requires forall q | q in before :: Incomparable(Split(p), Split(q))
    ensures forall q | q in before + [p] + after :: q in sets
    ensures SetAll(doc, sets, before + [p] + after) == SetAll(Set(doc, Split(p), sets[p]), sets, before + after)
    decreases |before|
  {
    if before == [] {
      assert before + [p] + after == [p] + after && before + after == after;
    } else {
      var q := before[0];
      var next := Set(doc, Split(q), sets[q]);
      SetsCommute(doc, Split(p), sets[p], Split(q), sets[q]);
      assert forall x | x in before[1..] + after :: x in before + after;
      MoveFirst(next, sets, before[1..], p, after);
      assert (before + [p] + after)[1..] == before[1..] + [p] + after;
      assert (before + after)[1..] == before[1..] + after;
      assert forall x | x in before + [p] + after :: x in before + after || x == p;
    }
  }

  /** With prefix-free paths every order of application gives one document. */
  lemma {:induction false} OrderIrrelevant(doc: Json, sets: map<string, Json>, paths: set<string>, a: seq<string>,
                                           b: seq<string>)
    requires doc.JObj? && paths <= sets.Keys && PrefixFree(paths)
    requires Lists(a, paths) && Lists(b, paths)
    ensures SetAll(doc, sets, a) == SetAll(doc, sets, b)
    decreases |a|
  {
    if a != [] {
      var p := a[0];
      assert p in b;
      var i :| 0 <= i < |b| && b[i] == p;
      var before, after := b[..i], b[i + 1..];
      assert b == before + [p] + after;
      forall q | q in before ensures Incomparable(Split(p), Split(q)) {
        assert q in b && q != p;
      }
      forall q | q in before + after ensures q in sets {
        assert q in b;
      }
      MoveFirst(doc, sets, before, p, after);
      ListsTail(a, before, p, after, paths);
      OrderIrrelevant(Set(doc, Split(p), sets[p]), sets, paths - {p}, a[1..], before + after);
    }
  }

  lemma ListsTail(a: seq<string>, before: seq<string>, p: string, after: seq<string>, paths: set<string>)
    requires a != [] && a[0] == p && Lists(a, paths) && Lists(before + [p] + after, paths)
    ensures Lists(a[1..], paths - {p}) && Lists(before + after, paths - {p})
  {
    var b := before + [p] + after;
    var n := |before|;
    assert b[n] == p;
    assert a == [p] + a[1..];
    assert forall x :: x in b <==> x in before + after || x == p;
    assert forall j | 0 <= j < n :: (before + after)[j] == b[j];
    assert forall j | n <= j < |before + after| :: (before + after)[j] == b[j + 1];
  }
}
