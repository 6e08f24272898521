/** What comes of a patch, over whole runs: its edit in the row, a conflict, or not found. */
module PatchOutcomes {
  import opened Wrappers
  import opened Strings
  import opened JsonValue
  import opened DeepSet
  import opened Diff
  import opened DiffPaths
  import opened Update
  import opened UpdateTheorems
  import opened Envelope
  import opened PatchProtocol
  import opened PatchTheorems

  // ---------- the edit is in the row ----------

  /** A key of the caller's own document. */
  predicate Own(key: string) {
    key != "id" && key != "version" && key != "meta"
  }

  /** What a member of the stored meta decodes to. */
  function Decoded(doc: Json, member: string, zero: Json): Json {
    var found := Lookup(doc, ["meta", member]);
    if found.None? || found.value.JNull? then zero else found.value
  }

  /**
   * The document holds the edit: every key of it, no declared key it dropped, every undeclared key
   * as it was read; and the envelope it was read with, but for who updated it and when.
   */
  ghost predicate Carries(declared: set<string>, snapshot: Json, edited: Json, now: int, actor: string, doc: Json)
    requires snapshot.JObj? && edited.JObj?
  {
    && doc.JObj?
    && (forall k | k in edited.fields && Own(k) :: Get(doc.fields, k) == Option.Some(edited.fields[k]))
    && (forall k | k !in edited.fields && Own(k) && k in declared :: k !in doc.fields)
    && (forall k | k !in edited.fields && Own(k) && k !in declared :: Get(doc.fields, k) == Get(snapshot.fields, k))
    && Get(doc.fields, "id") == Get(snapshot.fields, "id")
    && Lookup(doc, ["meta", "created_at"]) == Option.Some(Decoded(snapshot, "created_at", JNum(0.0)))
    && Lookup(doc, ["meta", "created_by"]) == Option.Some(Decoded(snapshot, "created_by", JStr("")))
    && Lookup(doc, ["meta", "updated_at"]) == Option.Some(JNum(now as real))
    && Lookup(doc, ["meta", "updated_by"]) == Option.Some(JStr(actor))
  }

  /** A lookup inside meta. */
  lemma LookupMeta(doc: Json, member: string)
    requires doc.JObj? && "meta" in doc.fields && doc.fields["meta"].JObj?
    ensures Lookup(doc, ["meta", member]) == Get(doc.fields["meta"].fields, member)
  {
    assert ["meta", member][1..] == [member] && [member][1..] == [];
    var meta := doc.fields["meta"];
    if member in meta.fields {
      assert Lookup(meta, [member]) == Lookup(meta.fields[member], []);
    }
  }

  lemma PatchedMeta(snapshot: Json, edited: Json, now: int, actor: string, declared: set<string>)
    requires SixKeys(snapshot) && edited.JObj?
    ensures
      var doc := Patched(snapshot, Stamped(snapshot, edited, now, actor), declared);
      && Lookup(doc, ["meta", "created_at"]) == Option.Some(Decoded(snapshot, "created_at", JNum(0.0)))
      && Lookup(doc, ["meta", "created_by"]) == Option.Some(Decoded(snapshot, "created_by", JStr("")))
      && Lookup(doc, ["meta", "updated_at"]) == Option.Some(JNum(now as real))
      && Lookup(doc, ["meta", "updated_by"]) == Option.Some(JStr(actor))
  {
    var doc := Patched(snapshot, Stamped(snapshot, edited, now, actor), declared);
    assert doc.fields["meta"] == StampedMeta(snapshot, now, actor);
    LookupMeta(doc, "created_at");
    LookupMeta(doc, "created_by");
    LookupMeta(doc, "updated_at");
    LookupMeta(doc, "updated_by");
    LookupMeta(snapshot, "created_at");
    LookupMeta(snapshot, "created_by");
  }

  lemma PatchedOwn(snapshot: Json, edited: Json, now: int, actor: string, declared: set<string>, k: string)
    requires snapshot.JObj? && edited.JObj?
    ensures
      var doc := Patched(snapshot, Stamped(snapshot, edited, now, actor), declared);
      && (Own(k) && k in edited.fields ==> Get(doc.fields, k) == Option.Some(edited.fields[k]))
      && (Own(k) && k !in edited.fields && k in declared ==> k !in doc.fields)
      && (Own(k) && k !in edited.fields && k !in declared ==> Get(doc.fields, k) == Get(snapshot.fields, k))
      && Get(doc.fields, "id") == Get(snapshot.fields, "id")
  {
  }

  lemma PatchedCarries(snapshot: Json, edited: Json, now: int, actor: string, declared: set<string>)
    requires SixKeys(snapshot) && edited.JObj?
    ensures Carries(declared, snapshot, edited, now, actor,
                    Patched(snapshot, Stamped(snapshot, edited, now, actor), declared))
  {
    PatchedMeta(snapshot, edited, now, actor, declared);
    forall k: string {
      PatchedOwn(snapshot, edited, now, actor, declared, k);
    }
  }

  /** What a soft delete writes: its two members of meta, and nothing else. */
  lemma MarkedMeans(doc: Json, at: Json, who: Json)
    requires SixKeys(doc)
    ensures SixKeys(Marked(doc, at, who))
    ensures
      var r := Marked(doc, at, who);
      && Lookup(r, ["meta", "deleted_at"]) == Option.Some(at)
      && Lookup(r, ["meta", "deleted_by"]) == Option.Some(who)
      && (forall k | k != "meta" :: Get(r.fields, k) == Get(doc.fields, k))
      && (forall k | k != "deleted_at" && k != "deleted_by" :: Lookup(r, ["meta", k]) == Lookup(doc, ["meta", k]))
  {
    MarkedIs(doc, at, who);
    var r := Marked(doc, at, who);
    assert r.fields["meta"].fields.Keys == META_KEYS;
    LookupMeta(r, "deleted_at");
    LookupMeta(r, "deleted_by");
    forall k | k != "deleted_at" && k != "deleted_by" ensures Lookup(r, ["meta", k]) == Lookup(doc, ["meta", k]) {
      LookupMeta(r, k);
      LookupMeta(doc, k);
    }
  }

  lemma MarkedCarries(declared: set<string>, snapshot: Json, edited: Json, now: int, actor: string, doc: Json,
                      at: Json, who: Json)
    requires snapshot.JObj? && edited.JObj? && SixKeys(doc) && Carries(declared, snapshot, edited, now, actor, doc)
    ensures Carries(declared, snapshot, edited, now, actor, Marked(doc, at, who))
  {
    MarkedMeans(doc, at, who);
    var r := Marked(doc, at, who);
    forall k | k !in edited.fields && Own(k) && k in declared ensures k !in r.fields {
      assert Get(r.fields, k) == Get(doc.fields, k);
    }
  }

  /** A landed patch without dots carries its edit. */
  lemma LandedCarries(c: Config, snapshot: Json, edited: Json, now: int, actor: string, before: Json, after: Json)
    requires SixKeys(snapshot) && edited.JObj? && OnlyMarked(snapshot, before)
    requires Lands(c, snapshot, Stamped(snapshot, edited, now, actor), before, after)
    requires DotFree(snapshot, Stamped(snapshot, edited, now, actor), c.declared)
    ensures Carries(c.declared, snapshot, edited, now, actor, after)
  {
    var next := Stamped(snapshot, edited, now, actor);
    var left := Patched(snapshot, next, c.declared);
    PatchedCarries(snapshot, edited, now, actor, c.declared);
    if before != snapshot {
      var at, who :| before == Marked(snapshot, at, who);
      assert left.fields["meta"] == StampedMeta(snapshot, now, actor);
      MarkedCarries(c.declared, snapshot, edited, now, actor, left, at, who);
      LandedMarked(c, snapshot, next, before, after, at, who);
    } else {
      LandedPlain(c, snapshot, next, after);
    }
  }

  lemma LandedPlain(c: Config, snapshot: Json, next: Json, after: Json)
    requires snapshot.JObj? && next.JObj? && Lands(c, snapshot, next, snapshot, after)
    requires DotFree(snapshot, next, c.declared)
    ensures after == Patched(snapshot, next, c.declared)
  {
  }

  lemma LandedMarked(c: Config, snapshot: Json, next: Json, before: Json, after: Json, at: Json, who: Json)
    requires snapshot.JObj? && next.JObj? && Lands(c, snapshot, next, before, after)
    requires DotFree(snapshot, next, c.declared) && before == Marked(snapshot, at, who)
    ensures after == Marked(Patched(snapshot, next, c.declared), at, who)
  {
  }

  /**
   * In every run, whatever the other writers do: a patch that commits and changes or drops no dotted
   * key leaves its edit of the document it read in the row, every undeclared key as it was, and the
   * envelope but for the update stamp and the version, which is one on.
   */
  lemma PatchCarriesEdit(c: Config, created: Json, states: seq<State>, events: seq<Event>, n: nat)
    requires c.Ok() && Run(c, created, states, events) && n < |events|
    requires events[n].TryWrite? && |states[n + 1].log| > |states[n].log|
    ensures
      var s, s', t := states[n], states[n + 1], events[n].t;
      && t in c.jobs && t in s.threads && s.threads[t].Holding? && s.threads[t].snapshot.JObj?
      && s'.row.Some? && |s'.log| == |s.log| + 1 && s'.log[|s.log|].PatchWrite? && s'.log[|s.log|].next.JObj?
      && var snapshot, edit := s.threads[t].snapshot, c.jobs[t].edit(s.threads[t].snapshot);
      && edit.Some? && edit.value.JObj? && AtVersion(snapshot, 1 + Bumps(s.log))
      && AtVersion(s'.row.value, 2 + Bumps(s.log))
      && (DotFree(snapshot, s'.log[|s.log|].next, c.declared) ==>
            Carries(c.declared, snapshot, edit.value, events[n].now, c.jobs[t].actor, s'.row.value))
  {
    var s, s', e := states[n], states[n + 1], events[n];
    assert Step(c, s, s', e);
    RunInv(c, created, states, events, n);
    var edited, w := CommitShape(c, s, s', e.t, e.now, e.sets, e.order, e.unset);
    assert SnapshotOk(s, s.threads[e.t].snapshot);
    CommitLegal(c, s, e.t, e.now, e.sets, e.order, e.unset, edited, w);
    if DotFree(w.snapshot, w.next, c.declared) {
      LandedCarries(c, w.snapshot, edited, e.now, c.jobs[e.t].actor, w.before, w.after);
    }
  }

  // ---------- when it commits, and when it gives up ----------

  /** An edit that was not refused, on the document its thread read. */
  ghost predicate Edits(c: Config, s: State, t: Tid) {
    && t in c.jobs && t in s.threads && s.threads[t].Holding? && s.threads[t].snapshot.JObj?
    && c.jobs[t].edit(s.threads[t].snapshot).Some?
  }

  /** The lock a patch takes, by versions. */
  lemma LockByCount(row: Json, snapshot: Json, unset: seq<string>, v: nat, now: nat)
    requires AtVersion(row, now) && AtVersion(snapshot, v) && v > 0
    ensures LockHolds(row, PatchOptions(snapshot, unset)) <==> now == v
  {
    assert Truncated(v as real) == v && Truncated(now as real) == now;
  }

  /**
   * In every run a patch that read at one moment and writes at another commits if and only if the row
   * is there and no bumping write came between, however many soft deletes did.
   */
  lemma LockExact(c: Config, created: Json, states: seq<State>, events: seq<Event>, m: nat, n: nat, t: Tid)
    requires c.Ok() && Run(c, created, states, events) && m < n < |events|
    requires events[m] == Read(t) && t in states[m + 1].threads && t in states[n].threads
    requires states[n].threads[t] == states[m + 1].threads[t] && Edits(c, states[n], t)
    requires events[n].TryWrite? && events[n].t == t
    ensures |states[n + 1].log| > |states[n].log|
       <==> states[n].row.Some? && Bumps(states[n].log) == Bumps(states[m].log)
  {
    var s, e := states[n], events[n];
    assert Step(c, states[m], states[m + 1], events[m]) && Step(c, s, states[n + 1], e);
    RunInv(c, created, states, events, m);
    RunInv(c, created, states, events, n);
    assert states[m].row.Some? && s.threads[t].snapshot == states[m].row.value;
    if s.row.Some? {
      LockByCount(s.row.value, s.threads[t].snapshot, e.unset, 1 + Bumps(states[m].log), 1 + Bumps(s.log));
    }
  }

  /** How often a thread has tried to write. */
  function Tries(events: seq<Event>, t: Tid): nat {
    if events == [] then 0
    else
      var e := events[|events| - 1];
      Tries(events[..|events| - 1], t) + if e.TryWrite? && e.t == t then 1 else 0
  }

  /** What a thread's state says of its tries. */
  predicate Counted(pc: Pc, tries: nat) {
    match pc
    case Reading(attempt) => attempt == tries < 3
    case Holding(attempt, _) => attempt == tries < 3
    case Finished(outcome) => outcome == Conflict ==> tries == 3
  }

  lemma OtherCounts(c: Config, s: State, s': State, e: Event, t: Tid, tries: nat)
    requires Step(c, s, s', e) && t in s.threads && Counted(s.threads[t], tries) && !(e.TryWrite? && e.t == t)
    ensures t in s'.threads && Counted(s'.threads[t], tries)
  {
  }

  lemma TryCounts(c: Config, s: State, s': State, t: Tid, now: int, sets: map<string, Json>, order: seq<string>,
                  unset: seq<string>, tries: nat)
    requires TryWriteStep(c, s, s', t, now, sets, order, unset) && Counted(s.threads[t], tries)
    ensures t in s'.threads && Counted(s'.threads[t], tries + 1)
  {
  }

  lemma StepCounts(c: Config, s: State, s': State, e: Event, t: Tid, tries: nat)
    requires Step(c, s, s', e) && t in s.threads && Counted(s.threads[t], tries)
    ensures t in s'.threads && Counted(s'.threads[t], tries + if e.TryWrite? && e.t == t then 1 else 0)
  {
    if e.TryWrite? && e.t == t {
      TryCounts(c, s, s', t, e.now, e.sets, e.order, e.unset, tries);
    } else {
      OtherCounts(c, s, s', e, t, tries);
    }
  }

  lemma {:induction false} TriesCounted(c: Config, created: Json, states: seq<State>, events: seq<Event>, n: nat,
                                        t: Tid)
    requires Run(c, created, states, events) && n < |states| && t in c.jobs
    ensures t in states[n].threads && Counted(states[n].threads[t], Tries(events[..n], t))
  {
    if n > 0 {
      TriesCounted(c, created, states, events, n - 1, t);
      assert events[..n][..n - 1] == events[..n - 1] && events[..n][n - 1] == events[n - 1];
      StepCounts(c, states[n - 1], states[n], events[n - 1], t, Tries(events[..n - 1], t));
    }
  }

  /** A conflict is three tries, none of which committed; a patch still under way has made fewer. */
  lemma ConflictIsThree(c: Config, created: Json, states: seq<State>, events: seq<Event>, n: nat, t: Tid)
    requires c.Ok() && Run(c, created, states, events) && n < |states| && t in c.jobs
    ensures t in states[n].threads
    ensures states[n].threads[t] == Finished(Conflict) ==>
              Tries(events[..n], t) == 3 && CommitsOf(states[n].log, t) == []
    ensures !states[n].threads[t].Finished? ==> Tries(events[..n], t) < 3
  {
    TriesCounted(c, created, states, events, n, t);
    RunInv(c, created, states, events, n);
    assert Accounted(states[n], t);
  }

  // ---------- deleted documents are not found ----------

  /** The row is gone or carries a mark. */
  ghost predicate Hidden(s: State) {
    s.row.Some? ==> s.row.value.JObj? && MetaField(s.row.value, DELETED_AT, JNull) != JNull
  }

  /** Nothing that could lift the mark. */
  predicate KeepsHidden(e: Event) {
    !e.Overwrite? && (e.SoftDelete? ==> e.at != JNull)
  }

  lemma MarkedField(doc: Json, at: Json, who: Json)
    requires SixKeys(doc)
    ensures MetaField(Marked(doc, at, who), DELETED_AT, JNull) == at
  {
    MarkedMeans(doc, at, who);
    MetaFieldIs(Marked(doc, at, who), DELETED_AT);
  }

  lemma StepHidden(c: Config, created: Json, s: State, s': State, e: Event)
    requires c.Ok() && Inv(c, created, s) && Step(c, s, s', e) && KeepsHidden(e)
    requires Hidden(s) || e.SoftDelete?
    ensures Hidden(s')
  {
    match e
    case SoftDelete(at, who) => MarkedField(s.row.value, at, who);
    case TryWrite(t, now, sets, order, unset) =>
      if |s'.log| > |s.log| {
        CommitKeepsMarks(c, created, s, s', t, now, sets, order, unset);
      }
    case _ =>
  }

  lemma {:induction false} StaysHidden(c: Config, created: Json, states: seq<State>, events: seq<Event>, m: nat, n: nat)
    requires c.Ok() && Run(c, created, states, events) && m < n < |states|
    requires events[m].SoftDelete? && forall k | m <= k < n :: KeepsHidden(events[k])
    ensures Hidden(states[n])
    decreases n
  {
    if n > m + 1 {
      StaysHidden(c, created, states, events, m, n - 1);
    }
    RunInv(c, created, states, events, n - 1);
    assert Step(c, states[n - 1], states[n], events[n - 1]);
    StepHidden(c, created, states[n - 1], states[n], events[n - 1]);
  }

  /**
   * In every run, from a soft delete until a restore or a bulk write: a patch that does not ask for
   * deleted documents finds none, whatever patches commit between.
   */
  lemma DeletedIsNotFound(c: Config, created: Json, states: seq<State>, events: seq<Event>, m: nat, n: nat, t: Tid)
    requires c.Ok() && Run(c, created, states, events) && m < n < |events|
    requires events[m].SoftDelete? && forall k | m <= k < n :: KeepsHidden(events[k])
    requires events[n] == Read(t) && t in c.jobs && !c.jobs[t].deleted
    ensures t in states[n + 1].threads && states[n + 1].threads[t] == Finished(NotFound)
  {
    StaysHidden(c, created, states, events, m, n);
    assert Step(c, states[n], states[n + 1], events[n]);
  }

  /** A read finds the row when it is there and has no mark, or the patch asked for deleted ones. */
  lemma ReadFinds(c: Config, created: Json, states: seq<State>, events: seq<Event>, n: nat, t: Tid)
    requires c.Ok() && Run(c, created, states, events) && n < |events| && events[n] == Read(t)
    ensures t in c.jobs && t in states[n].threads && states[n].threads[t].Reading? && t in states[n + 1].threads
    ensures
      var s := states[n];
      var mark := if s.row.Some? then Lookup(s.row.value, ["meta", "deleted_at"]) else None;
      states[n + 1].threads[t]
      == if s.row.Some? && (c.jobs[t].deleted || mark.None? || mark.value.JNull?)
         then Holding(s.threads[t].attempt, s.row.value) else Finished(NotFound)
  {
    assert Step(c, states[n], states[n + 1], events[n]);
    RunInv(c, created, states, events, n);
    if states[n].row.Some? {
      MetaFieldIs(states[n].row.value, DELETED_AT);
    }
  }
}
