/**
 * The envelope of a stored document and what a patch does to its soft-delete marks:
 * db/doc.go and the patch loop of db/service.go.
 */
module Envelope {
  import opened Wrappers
  import opened Strings
  import opened JsonValue
  import opened DeepSet
  import opened Diff
  import opened DiffPaths
  import opened Update
  import opened SqlUpdate
  import opened LiteTheorems
  import opened UpdateTheorems

  const META_PATH := "meta"
  const CREATED_AT := "created_at"
  const CREATED_BY := "created_by"
  const UPDATED_AT := "updated_at"
  const UPDATED_BY := "updated_by"
  const DELETED_AT := "deleted_at"
  const DELETED_BY := "deleted_by"

  const META_KEYS := {CREATED_AT, CREATED_BY, UPDATED_AT, UPDATED_BY, DELETED_AT, DELETED_BY}

  /** A member of meta as the Go struct decodes it: absent and null are the zero value. */
  function MetaField(doc: Json, key: string, zero: Json): Json
    requires doc.JObj?
  {
    if META_PATH in doc.fields && doc.fields[META_PATH].JObj? && key in doc.fields[META_PATH].fields
       && !doc.fields[META_PATH].fields[key].JNull?
    then doc.fields[META_PATH].fields[key]
    else zero
  }

  /** The envelope a patch writes back: the one it read, with the update stamped. */
  function StampedMeta(doc: Json, now: int, actor: string): (m: Json)
    requires doc.JObj?
    ensures m.JObj? && m.fields.Keys == META_KEYS
  {
    JObj(map[
      CREATED_AT := MetaField(doc, CREATED_AT, JNum(0.0)),
      CREATED_BY := MetaField(doc, CREATED_BY, JStr("")),
      UPDATED_AT := JNum(now as real),
      UPDATED_BY := JStr(actor),
      DELETED_AT := MetaField(doc, DELETED_AT, JNull),
      DELETED_BY := MetaField(doc, DELETED_BY, JNull)])
  }

  /** The candidate document: the caller's edit under the store's own envelope. */
  function Stamped(snapshot: Json, edited: Json, now: int, actor: string): (r: Json)
    requires snapshot.JObj? && edited.JObj?
    ensures r.JObj?
  {
    JObj(edited.fields
         [ID_PATH := if ID_PATH in snapshot.fields then snapshot.fields[ID_PATH] else JStr("")]
         [VERSION_PATH := if VersionOf(snapshot).Some? then JNum(VersionOf(snapshot).value) else JNum(0.0)]
         [META_PATH := StampedMeta(snapshot, now, actor)])
  }

  /** meta holds the six envelope keys and nothing else. */
  predicate SixKeys(doc: Json) {
    && doc.JObj? && META_PATH in doc.fields && doc.fields[META_PATH].JObj?
    && doc.fields[META_PATH].fields.Keys == META_KEYS
  }

  const DELETED_AT_PATH := [META_PATH, DELETED_AT]
  const DELETED_BY_PATH := [META_PATH, DELETED_BY]

  /** A soft delete's two sets. */
  function Marked(doc: Json, at: Json, who: Json): (r: Json)
    requires doc.JObj?
    ensures r.JObj?
  {
    Set(Set(doc, DELETED_AT_PATH, at), DELETED_BY_PATH, who)
  }

  // ---------- the paths of a patch avoid the marks ----------

  predicate AvoidsMarks(path: seq<string>) {
    Incomparable(path, DELETED_AT_PATH) && Incomparable(path, DELETED_BY_PATH)
  }

  /** Inside meta, an unchanged member emits nothing and a changed one stays below its own key. */
  lemma MetaChangesAvoid(before: Json, after: Json, keys: seq<string>, key: string)
    requires before.JObj? && after.JObj? && forall k | k in keys :: k in after.fields
    requires key in after.fields && Get(before.fields, key) == Option.Some(after.fields[key])
    ensures forall e | e in Changes(before, after, keys) :: e.path[0] != key
    decreases |keys|
  {
    if keys != [] {
      MetaChangesAvoid(before, after, keys[1..], key);
      ChangePaths(keys[0], Get(before.fields, keys[0]), after.fields[keys[0]]);
      if keys[0] == key {
        assert Change(key, Get(before.fields, key), after.fields[key]) == [];
      }
    }
  }

  lemma BelowMetaAvoids(inner: seq<string>)
    requires inner != [] && inner[0] != DELETED_AT && inner[0] != DELETED_BY
    ensures AvoidsMarks([META_PATH] + inner)
  {
    var path := [META_PATH] + inner;
    assert path[1] == inner[0];
    assert DELETED_AT_PATH[1] == DELETED_AT && DELETED_BY_PATH[1] == DELETED_BY;
  }

  lemma OtherKeyAvoids(path: seq<string>)
    requires path != [] && path[0] != META_PATH
    ensures AvoidsMarks(path)
  {
    assert DELETED_AT_PATH[0] == META_PATH && DELETED_BY_PATH[0] == META_PATH;
  }

  /** The stamp repeats the stored marks. */
  lemma StampRepeatsMarks(doc: Json, now: int, actor: string)
    requires SixKeys(doc)
    ensures
      var meta, next := doc.fields[META_PATH], StampedMeta(doc, now, actor);
      && Get(meta.fields, DELETED_AT) == Option.Some(next.fields[DELETED_AT])
      && Get(meta.fields, DELETED_BY) == Option.Some(next.fields[DELETED_BY])
  {
    assert DELETED_AT in META_KEYS && DELETED_BY in META_KEYS;
  }

  /** Two metas that agree on the marks: the changes between them stay off the marks. */
  lemma MetaAvoids(meta: Json, next: Json)
    requires meta.JObj? && next.JObj? && meta.fields.Keys <= next.fields.Keys
    requires DELETED_AT in next.fields && Get(meta.fields, DELETED_AT) == Option.Some(next.fields[DELETED_AT])
    requires DELETED_BY in next.fields && Get(meta.fields, DELETED_BY) == Option.Some(next.fields[DELETED_BY])
    ensures forall e | e in Change(META_PATH, Option.Some(meta), next) :: AvoidsMarks(e.path)
  {
    if meta != next {
      var keys := Sorted(next.fields.Keys);
      var inside := Changes(meta, next, keys);
      MetaChangesAvoid(meta, next, keys, DELETED_AT);
      MetaChangesAvoid(meta, next, keys, DELETED_BY);
      forall e | e in Below(META_PATH, inside) ensures AvoidsMarks(e.path) {
        var i :| 0 <= i < |inside| && Below(META_PATH, inside)[i] == e;
        assert inside[i] in inside;
        BelowMetaAvoids(inside[i].path);
      }
    }
  }

  lemma {:induction false} ListedChangesAvoid(snapshot: Json, edited: Json, now: int, actor: string, keys: seq<string>)
    requires SixKeys(snapshot) && edited.JObj?
    requires forall k | k in keys :: k in Stamped(snapshot, edited, now, actor).fields
    ensures forall e | e in Changes(snapshot, Stamped(snapshot, edited, now, actor), keys) :: AvoidsMarks(e.path)
    decreases |keys|
  {
    if keys != [] {
      var next := Stamped(snapshot, edited, now, actor);
      var k := keys[0];
      ListedChangesAvoid(snapshot, edited, now, actor, keys[1..]);
      ChangePaths(k, Get(snapshot.fields, k), next.fields[k]);
      if k == META_PATH {
        StampRepeatsMarks(snapshot, now, actor);
        MetaAvoids(snapshot.fields[META_PATH], StampedMeta(snapshot, now, actor));
      } else {
        forall e | e in Change(k, Get(snapshot.fields, k), next.fields[k]) ensures AvoidsMarks(e.path) {
          OtherKeyAvoids(e.path);
        }
      }
    }
  }

  // ---------- keys with a dot that would split into the envelope ----------

  /** The path starts at a key of the caller's own. */
  predicate OutsideEnvelope(path: seq<string>)
    requires path != []
  {
    path[0] != ID_PATH && path[0] != VERSION_PATH && path[0] != META_PATH
  }

  /** Every emitted path and removed name that has a dot inside a key splits outside the envelope. */
  ghost predicate EnvelopeSafe(before: Json, after: Json, declared: set<string>)
    requires before.JObj? && after.JObj?
  {
    && (forall e | e in TopChanges(before, after) :: PlainPath(e.path) || OutsideEnvelope(Split(Dotted(e.path))))
    && (forall n | n in Removed(before, after, declared) :: Plain(n) || OutsideEnvelope(Split(n)))
  }

  /** A patch that touches no dotted key is always safe. */
  lemma DotFreeIsSafe(before: Json, after: Json, declared: set<string>)
    requires before.JObj? && after.JObj? && DotFree(before, after, declared)
    ensures EnvelopeSafe(before, after, declared)
  {
  }

  /** A path an update may set: not the id, not the version, and in meta only envelope members. */
  predicate AllowedPath(path: string) {
    var p := Split(path);
    && p[0] != ID_PATH && p[0] != VERSION_PATH
    && (p[0] == META_PATH ==> |p| == 2 && p[1] in META_KEYS)
  }

  /** A stamped member is the stored one, or a scalar. */
  lemma StampedMember(doc: Json, now: int, actor: string, key: string)
    requires SixKeys(doc) && key in META_KEYS
    ensures
      var meta, next := doc.fields[META_PATH], StampedMeta(doc, now, actor);
      next.fields[key] == meta.fields[key] || !next.fields[key].JObj?
  {
  }

  /** Members that change into no object are set whole. */
  lemma {:induction false} ChangesShort(before: Json, after: Json, keys: seq<string>)
    requires before.JObj? && after.JObj? && forall k | k in keys :: k in after.fields
    requires forall k | k in keys :: Get(before.fields, k) == Option.Some(after.fields[k]) || !after.fields[k].JObj?
    ensures forall e | e in Changes(before, after, keys) :: |e.path| == 1 && e.path[0] in keys
    decreases |keys|
  {
    if keys != [] {
      ChangesShort(before, after, keys[1..]);
      var head := Change(keys[0], Get(before.fields, keys[0]), after.fields[keys[0]]);
      assert head == [] || head == [Entry([keys[0]], after.fields[keys[0]])];
    }
  }

  lemma MetaMembersShort(doc: Json, now: int, actor: string)
    requires SixKeys(doc)
    ensures
      var meta, next := doc.fields[META_PATH], StampedMeta(doc, now, actor);
      forall e | e in Changes(meta, next, Sorted(next.fields.Keys)) :: |e.path| == 1 && e.path[0] in META_KEYS
  {
    var meta, next := doc.fields[META_PATH], StampedMeta(doc, now, actor);
    var keys := Sorted(next.fields.Keys);
    forall k | k in keys ensures Get(meta.fields, k) == Option.Some(next.fields[k]) || !next.fields[k].JObj? {
      StampedMember(doc, now, actor, k);
    }
    ChangesShort(meta, next, keys);
  }

  lemma BelowShort(key: string, entries: seq<Entry>, keys: set<string>, e: Entry)
    requires e in Below(key, entries) && forall x | x in entries :: |x.path| == 1 && x.path[0] in keys
    ensures |e.path| == 2 && e.path[0] == key && e.path[1] in keys
  {
    var i :| 0 <= i < |entries| && Below(key, entries)[i] == e;
    assert entries[i] in entries;
  }

  lemma MetaEntriesShort(doc: Json, now: int, actor: string, e: Entry)
    requires SixKeys(doc) && e in Change(META_PATH, Get(doc.fields, META_PATH), StampedMeta(doc, now, actor))
    ensures |e.path| == 2 && e.path[0] == META_PATH && e.path[1] in META_KEYS
  {
    var meta, next := doc.fields[META_PATH], StampedMeta(doc, now, actor);
    MetaMembersShort(doc, now, actor);
    BelowShort(META_PATH, Changes(meta, next, Sorted(next.fields.Keys)), META_KEYS, e);
  }

  /** A path the patch sets stays off the id, the version and the marks. */
  lemma EntryAllowed(snapshot: Json, edited: Json, now: int, actor: string, e: Entry)
    requires SixKeys(snapshot) && edited.JObj? && PlainPath(e.path)
    requires e in TopChanges(snapshot, Stamped(snapshot, edited, now, actor))
    ensures Split(Dotted(e.path)) == e.path && AllowedPath(Dotted(e.path)) && AvoidsMarks(e.path)
  {
    var next := Stamped(snapshot, edited, now, actor);
    var keys := Sorted(Compared(next));
    SplitDotted(e.path);
    ListedChangesAvoid(snapshot, edited, now, actor, keys);
    ChangesMembers(snapshot, next, keys, e);
    var k :| k in keys && e in Change(k, Get(snapshot.fields, k), next.fields[k]);
    ChangePaths(k, Get(snapshot.fields, k), next.fields[k]);
    if k == META_PATH {
      MetaEntriesShort(snapshot, now, actor, e);
    }
  }

  lemma EmittedAllowed(snapshot: Json, edited: Json, now: int, actor: string, declared: set<string>,
                       sets: map<string, Json>, p: string)
    requires SixKeys(snapshot) && edited.JObj? && p in sets
    requires Emitted(sets, snapshot, Stamped(snapshot, edited, now, actor))
    requires EnvelopeSafe(snapshot, Stamped(snapshot, edited, now, actor), declared)
    ensures AllowedPath(p) && AvoidsMarks(Split(p))
  {
    var entries := TopChanges(snapshot, Stamped(snapshot, edited, now, actor));
    var e :| e in EntrySet(entries) && Dotted(e.path) == p && e.value == sets[p];
    if PlainPath(e.path) {
      EntryAllowed(snapshot, edited, now, actor, e);
    } else {
      OtherKeyAvoids(Split(p));
    }
  }

  lemma RemovedOutside(snapshot: Json, edited: Json, now: int, actor: string, declared: set<string>, n: string)
    requires snapshot.JObj? && edited.JObj?
    requires n in Removed(snapshot, Stamped(snapshot, edited, now, actor), declared)
    requires EnvelopeSafe(snapshot, Stamped(snapshot, edited, now, actor), declared)
    ensures OutsideEnvelope(Split(n))
  {
    if Plain(n) {
      SplitPlain(n);
    }
  }

  // ---------- marks commute with the patch ----------

  lemma {:induction false} SetAllCommutes(doc: Json, sets: map<string, Json>, order: seq<string>, path: Path,
                                          value: Json)
    requires doc.JObj? && forall p | p in order :: p in sets && Incomparable(Split(p), path)
    ensures SetAll(Set(doc, path, value), sets, order) == Set(SetAll(doc, sets, order), path, value)
    decreases |order|
  {
    if order != [] {
      var p := Split(order[0]);
      SetsCommute(doc, p, sets[order[0]], path, value);
      SetAllCommutes(Set(doc, p, sets[order[0]]), sets, order[1..], path, value);
    }
  }

  /** A removal changes its own top-level key and no other. */
  lemma UnsetIs(doc: Json, q: Path)
    requires doc.JObj?
    ensures forall k | k != q[0] :: Get(Unset(doc, q).fields, k) == Get(doc.fields, k)
  {
  }

  lemma UnsetDepends(a: Json, b: Json, q: Path)
    requires a.JObj? && b.JObj? && Get(a.fields, q[0]) == Get(b.fields, q[0])
    ensures Get(Unset(a, q).fields, q[0]) == Get(Unset(b, q).fields, q[0])
  {
  }

  lemma UnsetOneCommutes(doc: Json, q: Path, path: Path, value: Json)
    requires doc.JObj? && q[0] != path[0]
    ensures Unset(Set(doc, path, value), q) == Set(Unset(doc, q), path, value)
  {
    var with, without := Set(doc, path, value), Unset(doc, q);
    SetIs(doc, path, value);
    SetIs(without, path, value);
    UnsetIs(doc, q);
    UnsetIs(with, q);
    UnsetDepends(with, doc, q);
    ChildAgrees(doc, without, path[0]);
    UnderDepends(doc, without, path, value);
    SameMembers(Unset(with, q), Set(without, path, value), doc, q[0], path[0]);
  }

  lemma ChildAgrees(a: Json, b: Json, key: string)
    requires a.JObj? && b.JObj? && Get(a.fields, key) == Get(b.fields, key)
    ensures Child(a, key) == Child(b, key)
  {
  }

  lemma SameMembers(a: Json, b: Json, doc: Json, x: string, y: string)
    requires a.JObj? && b.JObj? && doc.JObj?
    requires Get(a.fields, x) == Get(b.fields, x) && Get(a.fields, y) == Get(b.fields, y)
    requires forall k | k != x && k != y :: Get(a.fields, k) == Get(doc.fields, k) == Get(b.fields, k)
    ensures a == b
  {
    forall k ensures Get(a.fields, k) == Get(b.fields, k) {}
    assert forall k :: k in a.fields <==> Get(a.fields, k).Some?;
    assert forall k :: k in b.fields <==> Get(b.fields, k).Some?;
    assert a.fields.Keys == b.fields.Keys;
    assert forall k | k in a.fields :: a.fields[k] == Get(a.fields, k).value == b.fields[k];
    assert a.fields == b.fields;
  }

  lemma {:induction false} UnsetAllCommutes(doc: Json, names: seq<string>, path: Path, value: Json)
    requires doc.JObj? && forall n | n in names :: Split(n)[0] != path[0]
    ensures UnsetAll(Set(doc, path, value), names) == Set(UnsetAll(doc, names), path, value)
    decreases |names|
  {
    if names != [] {
      UnsetOneCommutes(doc, Split(names[0]), path, value);
      UnsetAllCommutes(Unset(doc, Split(names[0])), names[1..], path, value);
    }
  }

  lemma BumpCommutes(doc: Json, path: Path, value: Json)
    requires doc.JObj? && path[0] != VERSION_PATH
    ensures Bumped(Set(doc, path, value)) == Set(Bumped(doc), path, value)
  {
    var bumped := Bumped(doc);
    SetIs(doc, path, value);
    SetIs(bumped, path, value);
    UnderDepends(doc, bumped, path, value);
    assert Bumped(Set(doc, path, value)).fields == Set(bumped, path, value).fields;
  }

  /** One mark set before an update is the same mark set after it. */
  lemma MarkCommutes(doc: Json, sets: map<string, Json>, order: seq<string>, o: Options, mark: Path, value: Json)
    requires doc.JObj? && mark[0] == META_PATH
    requires forall p | p in order :: p in sets && Incomparable(Split(p), mark)
    requires forall n | n in o.unset :: Split(n)[0] != META_PATH
    ensures Apply(Set(doc, mark, value), sets, order, o) == Set(Apply(doc, sets, order, o), mark, value)
  {
    SetAllCommutes(doc, sets, order, mark, value);
    UnsetAllCommutes(SetAll(doc, sets, order), o.unset, mark, value);
    BumpCommutes(UnsetAll(SetAll(doc, sets, order), o.unset), mark, value);
  }

  /**
   * A soft delete that lands between a patch's read and its write is not undone by the patch. What
   * the patch leaves is what it would have left without the delete, under the delete's marks.
   */
  lemma PatchKeepsMarks(snapshot: Json, edited: Json, now: int, actor: string, declared: set<string>, at: Json,
                        who: Json, sets: map<string, Json>, order: seq<string>, o: Options)
    requires SixKeys(snapshot) && edited.JObj?
    requires Emitted(sets, snapshot, Stamped(snapshot, edited, now, actor))
    requires EnvelopeSafe(snapshot, Stamped(snapshot, edited, now, actor), declared)
    requires Lists(order, sets.Keys)
    requires Lists(o.unset, Removed(snapshot, Stamped(snapshot, edited, now, actor), declared))
    ensures Apply(Marked(snapshot, at, who), sets, order, o) == Marked(Apply(snapshot, sets, order, o), at, who)
  {
    forall p | p in order ensures AvoidsMarks(Split(p)) {
      EmittedAllowed(snapshot, edited, now, actor, declared, sets, p);
    }
    forall n | n in o.unset ensures Split(n)[0] != META_PATH {
      RemovedOutside(snapshot, edited, now, actor, declared, n);
    }
    MarkCommutes(Set(snapshot, DELETED_AT_PATH, at), sets, order, o, DELETED_BY_PATH, who);
    MarkCommutes(snapshot, sets, order, o, DELETED_AT_PATH, at);
  }

  // ---------- exactly when a delete survives ----------

  /** meta.deleted_at is absent or null: the document a patch may read. */
  predicate Active(doc: Json)
    requires doc.JObj?
  {
    MetaField(doc, DELETED_AT, JNull) == JNull
  }

  /** The stored meta has deleted_at and no key the envelope does not know. */
  predicate MarkIsKept(doc: Json)
    requires doc.JObj?
  {
    && META_PATH in doc.fields && doc.fields[META_PATH].JObj?
    && DELETED_AT in doc.fields[META_PATH].fields
    && doc.fields[META_PATH].fields.Keys <= META_KEYS
  }

  /** With deleted_at stored and no foreign key, every emitted path is off the mark. */
  lemma KeptMarkAvoided(snapshot: Json, next: Json, now: int, actor: string, keys: seq<string>)
    requires snapshot.JObj? && MarkIsKept(snapshot) && next.JObj? && forall k | k in keys :: k in next.fields
    requires META_PATH in next.fields && next.fields[META_PATH] == StampedMeta(snapshot, now, actor)
    ensures forall e | e in Changes(snapshot, next, keys) :: Incomparable(e.path, DELETED_AT_PATH)
    decreases |keys|
  {
    if keys != [] {
      var k := keys[0];
      KeptMarkAvoided(snapshot, next, now, actor, keys[1..]);
      ChangePaths(k, Get(snapshot.fields, k), next.fields[k]);
      if k == META_PATH {
        KeptMetaAvoided(snapshot.fields[META_PATH], next.fields[META_PATH]);
      } else {
        forall e | e in Change(k, Get(snapshot.fields, k), next.fields[k])
          ensures Incomparable(e.path, DELETED_AT_PATH)
        {
          OtherKeyAvoids(e.path);
        }
      }
    }
  }

  lemma KeptMetaAvoided(meta: Json, next: Json)
    requires meta.JObj? && next.JObj? && meta.fields.Keys <= next.fields.Keys
    requires DELETED_AT in next.fields && Get(meta.fields, DELETED_AT) == Option.Some(next.fields[DELETED_AT])
    ensures forall e | e in Change(META_PATH, Option.Some(meta), next) :: Incomparable(e.path, DELETED_AT_PATH)
  {
    if meta != next {
      var keys := Sorted(next.fields.Keys);
      var inside := Changes(meta, next, keys);
      MetaChangesAvoid(meta, next, keys, DELETED_AT);
      forall e | e in Below(META_PATH, inside) ensures Incomparable(e.path, DELETED_AT_PATH) {
        var i :| 0 <= i < |inside| && Below(META_PATH, inside)[i] == e;
        assert inside[i] in inside;
        assert e.path[1] == inside[i].path[0] && DELETED_AT_PATH[1] == DELETED_AT;
      }
    }
  }

  /** An entry that writes null over the mark: the whole meta, or the missing member. */
  predicate Overwrites(e: Entry, stamped: Json) {
    e == Entry([META_PATH], stamped) || e == Entry(DELETED_AT_PATH, JNull)
  }

  lemma LostInMeta(before: Option<Json>, stamped: Json) returns (e: Entry)
    requires stamped.JObj? && stamped.fields.Keys == META_KEYS && stamped.fields[DELETED_AT] == JNull
    requires !(before.Some? && before.value.JObj? && DELETED_AT in before.value.fields
               && before.value.fields.Keys <= META_KEYS)
    ensures e in Change(META_PATH, before, stamped) && Overwrites(e, stamped)
  {
    if before.Some? && before.value.JObj? && before.value.fields.Keys <= META_KEYS {
      LostMember(before.value, stamped);
      e := Entry(DELETED_AT_PATH, JNull);
    } else {
      e := Entry([META_PATH], stamped);
      assert Change(META_PATH, before, stamped) == [e];
    }
  }

  lemma LostMarkWritten(snapshot: Json, next: Json, stamped: Json, keys: seq<string>) returns (e: Entry)
    requires snapshot.JObj? && !MarkIsKept(snapshot) && next.JObj?
    requires META_PATH in keys && forall k | k in keys :: k in next.fields
    requires next.fields[META_PATH] == stamped
    requires stamped.JObj? && stamped.fields.Keys == META_KEYS && stamped.fields[DELETED_AT] == JNull
    ensures e in Changes(snapshot, next, keys) && Overwrites(e, stamped)
    decreases |keys|
  {
    if keys[0] == META_PATH {
      e := LostInMeta(Get(snapshot.fields, META_PATH), stamped);
    } else {
      e := LostMarkWritten(snapshot, next, stamped, keys[1..]);
    }
  }

  lemma LostMember(meta: Json, stamped: Json)
    requires meta.JObj? && stamped.JObj? && meta.fields.Keys <= stamped.fields.Keys
    requires DELETED_AT !in meta.fields && DELETED_AT in stamped.fields && stamped.fields[DELETED_AT] == JNull
    ensures Entry(DELETED_AT_PATH, JNull) in Change(META_PATH, Option.Some(meta), stamped)
  {
    var keys := Sorted(stamped.fields.Keys);
    var inside := Changes(meta, stamped, keys);
    NewMember(meta, stamped, keys, DELETED_AT);
    var i :| 0 <= i < |inside| && inside[i] == Entry([DELETED_AT], JNull);
    assert Below(META_PATH, inside)[i] == Entry([META_PATH] + [DELETED_AT], JNull);
    assert [META_PATH] + [DELETED_AT] == DELETED_AT_PATH;
  }

  lemma {:induction false} NewMember(before: Json, after: Json, keys: seq<string>, key: string)
    requires before.JObj? && after.JObj? && key in keys && forall k | k in keys :: k in after.fields
    requires key !in before.fields
    ensures Entry([key], after.fields[key]) in Changes(before, after, keys)
    decreases |keys|
  {
    var head := Change(keys[0], Get(before.fields, keys[0]), after.fields[keys[0]]);
    if keys[0] == key {
      assert head == [Entry([key], after.fields[key])];
      assert Entry([key], after.fields[key]) in head;
    } else {
      NewMember(before, after, keys[1..], key);
    }
  }

  lemma MarkedLookup(doc: Json, at: Json, who: Json)
    requires doc.JObj?
    ensures Lookup(Marked(doc, at, who), DELETED_AT_PATH) == Option.Some(at)
    ensures VersionOf(Marked(doc, at, who)) == VersionOf(doc)
  {
    LookupSet(doc, DELETED_AT_PATH, at);
    assert DELETED_AT_PATH[1] == DELETED_AT && DELETED_BY_PATH[1] == DELETED_BY;
    assert Incomparable(DELETED_BY_PATH, DELETED_AT_PATH);
    LookupSetOther(Set(doc, DELETED_AT_PATH, at), DELETED_BY_PATH, who, DELETED_AT_PATH);
  }

  /**
   * For every stored document a patch can read: a soft delete that commits between the read and
   * the write survives the patch if and only if the stored meta has a deleted_at member and no
   * member outside the envelope.
   */
  lemma DeleteSurvivesExact(snapshot: Json, edited: Json, now: int, actor: string, declared: set<string>, at: Json,
                            who: Json, order: seq<string>, o: Options)
    requires snapshot.JObj? && edited.JObj? && Active(snapshot) && at.JNum?
    requires DotFree(snapshot, Stamped(snapshot, edited, now, actor), declared) && !o.noBump
    requires Lists(order, DiffSet(snapshot, Stamped(snapshot, edited, now, actor)).Keys)
    requires Lists(o.unset, Removed(snapshot, Stamped(snapshot, edited, now, actor), declared))
    ensures
      var next := Stamped(snapshot, edited, now, actor);
      var left := Apply(Marked(snapshot, at, who), DiffSet(snapshot, next), order, o);
      Lookup(left, DELETED_AT_PATH) == Option.Some(at) <==> MarkIsKept(snapshot)
  {
    var next := Stamped(snapshot, edited, now, actor);
    var marked := Marked(snapshot, at, who);
    DiffWellFormed(snapshot, next, declared, o);
    MarkedLookup(snapshot, at, who);
    if MarkIsKept(snapshot) {
      MarkStays(snapshot, next, now, actor, declared, marked, order, o);
    } else {
      MarkGoes(snapshot, next, now, actor, marked, order, o);
    }
  }

  /** No set of the patch touches the mark. */
  lemma SetsMissMark(snapshot: Json, next: Json, now: int, actor: string, marked: Json, order: seq<string>)
    requires snapshot.JObj? && MarkIsKept(snapshot) && next.JObj? && marked.JObj?
    requires PlainEntries(TopChanges(snapshot, next))
    requires META_PATH in next.fields && next.fields[META_PATH] == StampedMeta(snapshot, now, actor)
    requires Lists(order, DiffSet(snapshot, next).Keys)
    ensures Lookup(SetAll(marked, DiffSet(snapshot, next), order), DELETED_AT_PATH)
         == Lookup(marked, DELETED_AT_PATH)
  {
    var entries := TopChanges(snapshot, next);
    DiffSetFree(snapshot, next);
    KeptMarkAvoided(snapshot, next, now, actor, Sorted(Compared(next)));
    forall p | p in order ensures Incomparable(Split(p), DELETED_AT_PATH) {
      assert p in PathsOf(entries);
      var i :| 0 <= i < |entries| && PathsOf(entries)[i] == p;
      assert entries[i] in entries;
      SplitDotted(entries[i].path);
    }
    LookupSetAllOther(marked, DiffSet(snapshot, next), order, DELETED_AT_PATH);
  }

  /** Neither removals outside meta nor the bump touch the mark. */
  lemma RemovalsMissMark(doc: Json, names: seq<string>)
    requires doc.JObj? && forall n | n in names :: Plain(n) && n != META_PATH
    ensures Lookup(Bumped(UnsetAll(doc, names)), DELETED_AT_PATH) == Lookup(doc, DELETED_AT_PATH)
    ensures Lookup(UnsetAll(doc, names), DELETED_AT_PATH) == Lookup(doc, DELETED_AT_PATH)
  {
    forall n | n in names ensures Incomparable(Split(n), DELETED_AT_PATH) {
      SplitPlain(n);
      OtherKeyAvoids([n]);
    }
    LookupUnsetAll(doc, names, DELETED_AT_PATH);
  }

  lemma MarkStays(snapshot: Json, next: Json, now: int, actor: string, declared: set<string>, marked: Json,
                  order: seq<string>, o: Options)
    requires snapshot.JObj? && MarkIsKept(snapshot) && next.JObj? && marked.JObj?
    requires DotFree(snapshot, next, declared)
    requires META_PATH in next.fields && next.fields[META_PATH] == StampedMeta(snapshot, now, actor)
    requires Lists(order, DiffSet(snapshot, next).Keys)
    requires Lists(o.unset, Removed(snapshot, next, declared))
    ensures Lookup(Apply(marked, DiffSet(snapshot, next), order, o), DELETED_AT_PATH)
         == Lookup(marked, DELETED_AT_PATH)
  {
    SetsMissMark(snapshot, next, now, actor, marked, order);
    RemovalsMissMark(SetAll(marked, DiffSet(snapshot, next), order), o.unset);
  }

  lemma MarkGoes(snapshot: Json, next: Json, now: int, actor: string, marked: Json, order: seq<string>, o: Options)
    requires snapshot.JObj? && Active(snapshot) && !MarkIsKept(snapshot) && next.JObj? && marked.JObj?
    requires PlainEntries(TopChanges(snapshot, next))
    requires META_PATH in next.fields && next.fields[META_PATH] == StampedMeta(snapshot, now, actor)
    requires Lists(order, DiffSet(snapshot, next).Keys)
    requires Spares(DiffSet(snapshot, next), o) && Separate(DiffSet(snapshot, next), o)
    ensures Lookup(Apply(marked, DiffSet(snapshot, next), order, o), DELETED_AT_PATH) == Option.Some(JNull)
  {
    var sets := DiffSet(snapshot, next);
    var stamped := StampedMeta(snapshot, now, actor);
    DiffSetFree(snapshot, next);
    assert stamped.fields[DELETED_AT] == JNull;
    var e := LostMarkWritten(snapshot, next, stamped, Sorted(Compared(next)));
    SplitDotted(e.path);
    AppliedLeaf(marked, sets, order, o, Dotted(e.path));
    Overwritten(Apply(marked, sets, order, o), e, stamped);
  }

  lemma Overwritten(left: Json, e: Entry, stamped: Json)
    requires left.JObj? && Overwrites(e, stamped) && Lookup(left, e.path) == Option.Some(e.value)
    requires stamped.JObj? && DELETED_AT in stamped.fields && stamped.fields[DELETED_AT] == JNull
    ensures Lookup(left, DELETED_AT_PATH) == Option.Some(JNull)
  {
    if e.path == [META_PATH] {
      LookupThrough(left, META_PATH, DELETED_AT, stamped);
    }
  }

  lemma LookupThrough(doc: Json, outer: string, inner: string, value: Json)
    requires doc.JObj? && value.JObj? && inner in value.fields && Lookup(doc, [outer]) == Option.Some(value)
    ensures Lookup(doc, [outer, inner]) == Option.Some(value.fields[inner])
  {
    assert [outer][1..] == [] && [outer, inner][1..] == [inner] && [inner][1..] == [];
    assert outer in doc.fields && doc.fields[outer] == value;
    assert Lookup(value, [inner]) == Lookup(value.fields[inner], []);
  }
}
