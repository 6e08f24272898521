/**
 * What one update does to a document: memdb's apply, the reference the SQL backends are held to.
 */
module Update {
  import opened Wrappers
  import opened Strings
  import opened JsonValue
  import opened MemFilter
  import opened DeepSet
  import opened Diff
  import opened DiffPaths

  /** expected is the optimistic lock, zero for none. */
  datatype Options = Options(expected: int, noBump: bool, unset: seq<string>)

  /** number(): a decoded JSON number, and nothing else. */
  function Number(j: Json): Option<real> {
    if j.JNum? then Option.Some(j.n) else None
  }

  function VersionOf(doc: Json): Option<real>
    requires doc.JObj?
  {
    if VERSION_PATH in doc.fields then Number(doc.fields[VERSION_PATH]) else None
  }

  /** int64(f): truncation toward zero. */
  function Truncated(x: real): int {
    if x >= 0.0 then x.Floor else -((-x).Floor)
  }

  /** The optimistic lock: no check, or the stored version is the expected one. */
  predicate LockHolds(doc: Json, o: Options)
    requires doc.JObj?
  {
    o.expected != 0 ==> VersionOf(doc).Some? && Truncated(VersionOf(doc).value) == o.expected
  }

  /** The lock on a whole version: none, or the very one. */
  lemma LockIsVersion(doc: Json, version: int, o: Options)
    requires doc.JObj? && VersionOf(doc) == Option.Some(version as real)
    ensures LockHolds(doc, o) <==> o.expected == 0 || o.expected == version
  {
    assert version >= 0 ==> (version as real).Floor == version;
    assert version < 0 ==> (-(version as real)).Floor == -version;
  }

  function Bumped(doc: Json): (r: Json)
    requires doc.JObj?
    ensures r.JObj?
  {
    var current := if VersionOf(doc).Some? then VersionOf(doc).value else 0.0;
    JObj(doc.fields[VERSION_PATH := JNum(current + 1.0)])
  }

  /** apply(): the sets in some order, then the removals, then the bump. */
  function Apply(doc: Json, paths: map<string, Json>, order: seq<string>, o: Options): (r: Json)
    requires doc.JObj? && forall p | p in order :: p in paths
    ensures r.JObj?
  {
    var unset := UnsetAll(SetAll(doc, paths, order), o.unset);
    if o.noBump then unset else Bumped(unset)
  }

  /** Every order a range over the paths can take leaves the same document. */
  lemma ApplyOrder(doc: Json, paths: map<string, Json>, a: seq<string>, b: seq<string>, o: Options)
    requires doc.JObj? && PrefixFree(paths.Keys) && Lists(a, paths.Keys) && Lists(b, paths.Keys)
    ensures Apply(doc, paths, a, o) == Apply(doc, paths, b, o)
  {
    OrderIrrelevant(doc, paths, paths.Keys, a, b);
  }

  ghost predicate Applied(before: Json, after: Json, paths: map<string, Json>, o: Options)
    requires before.JObj?
  {
    exists order :: Lists(order, paths.Keys) && after == Apply(before, paths, order, o)
  }

  /** db/memdb's collection: documents by id. */
  class MemBackend {
    var docs: map<string, Json>

    ghost predicate Valid()
      reads this
    {
      forall id | id in docs :: docs[id].JObj?
    }

    constructor ()
      ensures Valid() && docs == map[]
    {
      docs := map[];
    }

    method Insert(id: string, doc: Json) returns (ok: bool)
      requires Valid()
      modifies this
      ensures Valid() && ok == doc.JObj?
      ensures docs == if ok then old(docs)[id := JObj(doc.fields["id" := JStr(id)])] else old(docs)
    {
      ok := doc.JObj?;
      if ok {
        docs := docs[id := JObj(doc.fields["id" := JStr(id)])];
      }
    }

    /** The loop of apply() over the paths, in the order the map yields them. */
    method ApplyTo(doc: Json, paths: map<string, Json>, o: Options) returns (r: Json)
      requires doc.JObj?
      ensures Applied(doc, r, paths, o) && r.JObj?
    {
      r := doc;
      ghost var order: seq<string> := [];
      var rest := paths.Keys;
      while rest != {}
        invariant rest <= paths.Keys && r.JObj?
        invariant Lists(order, paths.Keys - rest)
        invariant r == SetAll(doc, paths, order)
        decreases |rest|
      {
        var p :| p in rest;
        r := Set(r, Split(p), paths[p]);
        SetAllSnoc(doc, paths, order, p);
        order := order + [p];
        rest := rest - {p};
      }
      assert paths.Keys - rest == paths.Keys;
      ghost var body := r;
      for i := 0 to |o.unset|
        invariant r.JObj? && UnsetAll(body, o.unset) == UnsetAll(r, o.unset[i..])
      {
        assert o.unset[i..][1..] == o.unset[i + 1..];
        r := Unset(r, Split(o.unset[i]));
      }
      if !o.noBump {
        r := Bumped(r);
      }
      assert r == Apply(doc, paths, order, o);
    }

    /** One document, atomically with the version check; no match and a lost lock are one answer. */
    method UpdatePaths(id: string, paths: map<string, Json>, o: Options) returns (r: Option<Json>)
      requires Valid()
      modifies this
      ensures Valid()
      ensures r.Some? <==> id in old(docs) && LockHolds(old(docs)[id], o)
      ensures r.None? ==> docs == old(docs)
      ensures r.Some? ==> Applied(old(docs)[id], r.value, paths, o) && docs == old(docs)[id := r.value]
    {
      if id !in docs || !LockHolds(docs[id], o) {
        return None;
      }
      var doc := ApplyTo(docs[id], paths, o);
      docs := docs[id := doc];
      return Option.Some(doc);
    }

    /** One turn of the bulk loop: change a document the filter matches, keep any other. */
    method UpdateIfMatch(id: string, where: Json, paths: map<string, Json>, o: Options,
                         ghost before: map<string, Json>, ghost done: set<string>, ghost hits: set<string>)
      returns (hit: bool)
      requires Bulk(before, docs, done, hits, where, paths, o) && id in docs && id !in done
      modifies this
      ensures Bulk(before, docs, done + {id}, if hit then hits + {id} else hits, where, paths, o)
    {
      var doc := docs[id];
      hit := Evaluate(doc, where);
      if hit {
        doc := ApplyTo(doc, paths, o);
      }
      BulkTurn(before, docs, done, hits, id, doc, hit, where, paths, o);
      docs := docs[id := doc];
    }

    /** The same paths on every match of a filter; n counts the matches, which are exactly hits. */
    method UpdatePathsWhere(where: Json, paths: map<string, Json>, o: Options)
      returns (n: nat, ghost hits: set<string>)
      requires Valid() && where.JObj?
      modifies this
      ensures Valid() && docs.Keys == old(docs).Keys
      ensures n == |hits| && hits <= docs.Keys
      ensures forall id | id in docs :: BulkStep(old(docs)[id], docs[id], id in hits, where, paths, o)
    {
      n, hits := 0, {};
      ghost var before := docs;
      var rest := docs.Keys;
      while rest != {}
        invariant rest <= before.Keys && n == |hits|
        invariant Bulk(before, docs, before.Keys - rest, hits, where, paths, o)
        decreases |rest|
      {
        var id :| id in rest;
        ghost var done := before.Keys - rest;
        var hit := UpdateIfMatch(id, where, paths, o, before, done, hits);
        OneDone(before.Keys, rest, id);
        rest := rest - {id};
        if hit {
          n, hits := n + 1, hits + {id};
        }
      }
      assert before.Keys - rest == before.Keys;
    }
  }

  lemma OneDone(all: set<string>, rest: set<string>, id: string)
    requires rest <= all && id in rest
    ensures all - (rest - {id}) == all - rest + {id}
  {
  }

  /** The bulk loop so far: the documents done are changed or kept as the filter says, no other is. */
  ghost predicate Bulk(before: map<string, Json>, now: map<string, Json>, done: set<string>, hits: set<string>,
                       where: Json, paths: map<string, Json>, o: Options)
  {
    && where.JObj? && now.Keys == before.Keys && hits <= done <= before.Keys
    && (forall id | id in before :: before[id].JObj? && now[id].JObj?)
    && (forall id | id in before && id !in done :: now[id] == before[id])
    && (forall id | id in done :: BulkStep(before[id], now[id], id in hits, where, paths, o))
  }

  lemma BulkTurn(before: map<string, Json>, now: map<string, Json>, done: set<string>, hits: set<string>,
                 id: string, doc: Json, hit: bool, where: Json, paths: map<string, Json>, o: Options)
    requires Bulk(before, now, done, hits, where, paths, o) && id in before && id !in done && doc.JObj?
    requires BulkStep(before[id], doc, hit, where, paths, o)
    ensures Bulk(before, now[id := doc], done + {id}, if hit then hits + {id} else hits, where, paths, o)
  {
  }

  /** What a bulk write does to one document. */
  ghost predicate BulkStep(before: Json, after: Json, hit: bool, where: Json, paths: map<string, Json>, o: Options)
    requires before.JObj? && where.JObj?
  {
    && hit == Matches(before, where)
    && if hit then Applied(before, after, paths, o) else after == before
  }

  lemma {:induction false} SetAllSnoc(doc: Json, paths: map<string, Json>, order: seq<string>, p: string)
    requires doc.JObj? && p in paths && forall q | q in order :: q in paths
    ensures forall q | q in order + [p] :: q in paths
    ensures SetAll(doc, paths, order + [p]) == Set(SetAll(doc, paths, order), Split(p), paths[p])
    decreases |order|
  {
    if order == [] {
      assert order + [p] == [p] && [p][1..] == [];
      assert SetAll(Set(doc, Split(p), paths[p]), paths, []) == Set(doc, Split(p), paths[p]);
    } else {
      assert (order + [p])[1..] == order[1..] + [p];
      SetAllSnoc(Set(doc, Split(order[0]), paths[order[0]]), paths, order[1..], p);
    }
  }
}
