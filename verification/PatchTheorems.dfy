/** Every run of concurrent writers on one document is a serial history. */
module PatchTheorems {
  import opened Wrappers
  import opened Strings
  import opened JsonValue
  import opened DeepSet
  import opened Diff
  import opened DiffPaths
  import opened Update
  import opened LiteTheorems
  import opened UpdateTheorems
  import opened Envelope
  import opened PatchProtocol

  // ---------- documents stay in good order ----------

  /** A set inside meta at a known member keeps the six keys. */
  lemma SetMetaMember(doc: Json, key: string, value: Json)
    requires SixKeys(doc) && key in META_KEYS
    ensures SixKeys(Set(doc, [META_PATH, key], value))
    ensures VersionOf(Set(doc, [META_PATH, key], value)) == VersionOf(doc)
  {
    var path := [META_PATH, key];
    assert path[1..] == [key];
    var meta := doc.fields[META_PATH];
    assert Set(meta, [key], value) == JObj(meta.fields[key := value]);
    assert meta.fields[key := value].Keys == META_KEYS + {key} == META_KEYS;
    assert Set(doc, path, value) == JObj(doc.fields[META_PATH := JObj(meta.fields[key := value])]);
  }

  lemma MarkedGood(doc: Json, version: nat, at: Json, who: Json)
    requires Good(doc, version)
    ensures Good(Marked(doc, at, who), version)
  {
    var once := Set(doc, DELETED_AT_PATH, at);
    assert DELETED_AT in META_KEYS && DELETED_BY in META_KEYS;
    SetMetaMember(doc, DELETED_AT, at);
    SetMetaMember(once, DELETED_BY, who);
  }

  lemma SetAllowed(doc: Json, version: nat, path: string, value: Json)
    requires Good(doc, version) && AllowedPath(path)
    ensures Good(Set(doc, Split(path), value), version)
  {
    var p := Split(path);
    if p[0] == META_PATH {
      assert p == [META_PATH, p[1]];
      SetMetaMember(doc, p[1], value);
    } else {
      SetIs(doc, p, value);
    }
  }

  lemma {:induction false} SetAllAllowed(doc: Json, version: nat, paths: map<string, Json>, order: seq<string>)
    requires Good(doc, version) && forall p | p in order :: p in paths && AllowedPath(p)
    ensures Good(SetAll(doc, paths, order), version)
    decreases |order|
  {
    if order != [] {
      SetAllowed(doc, version, order[0], paths[order[0]]);
      SetAllAllowed(Set(doc, Split(order[0]), paths[order[0]]), version, paths, order[1..]);
    }
  }

  lemma BumpedGood(doc: Json, version: nat)
    requires Good(doc, version)
    ensures Good(Bumped(doc), version + 1)
  {
  }

  lemma OverwriteGood(doc: Json, version: nat, paths: map<string, Json>, order: seq<string>)
    requires Good(doc, version) && Lists(order, paths.Keys)
    requires forall p | p in paths :: AllowedPath(p)
    ensures Good(Apply(doc, paths, order, Options(0, false, [])), version + 1)
  {
    SetAllAllowed(doc, version, paths, order);
    BumpedGood(SetAll(doc, paths, order), version);
  }

  /** Removals outside the envelope keep the document in good order. */
  lemma {:induction false} UnsetAllGood(doc: Json, version: nat, names: seq<string>)
    requires Good(doc, version) && forall n | n in names :: OutsideEnvelope(Split(n))
    ensures Good(UnsetAll(doc, names), version)
    decreases |names|
  {
    if names != [] {
      var q := Split(names[0]);
      UnsetIs(doc, q);
      assert Get(Unset(doc, q).fields, META_PATH) == Get(doc.fields, META_PATH);
      assert Get(Unset(doc, q).fields, VERSION_PATH) == Get(doc.fields, VERSION_PATH);
      UnsetAllGood(Unset(doc, q), version, names[1..]);
    }
  }

  /** What a patch leaves on a document in good order is in good order, one version on. */
  lemma PatchGood(doc: Json, version: nat, snapshot: Json, edited: Json, now: int, actor: string,
                  declared: set<string>, sets: map<string, Json>, order: seq<string>, o: Options)
    requires Good(doc, version) && SixKeys(snapshot) && edited.JObj? && !o.noBump
    requires Emitted(sets, snapshot, Stamped(snapshot, edited, now, actor))
    requires EnvelopeSafe(snapshot, Stamped(snapshot, edited, now, actor), declared)
    requires Lists(order, sets.Keys)
    requires Lists(o.unset, Removed(snapshot, Stamped(snapshot, edited, now, actor), declared))
    ensures Good(Apply(doc, sets, order, o), version + 1)
  {
    forall p | p in order ensures AllowedPath(p) {
      EmittedAllowed(snapshot, edited, now, actor, declared, sets, p);
    }
    forall n | n in o.unset ensures OutsideEnvelope(Split(n)) {
      RemovedOutside(snapshot, edited, now, actor, declared, n);
    }
    SetAllAllowed(doc, version, sets, order);
    UnsetAllGood(SetAll(doc, sets, order), version, o.unset);
    BumpedGood(UnsetAll(SetAll(doc, sets, order), o.unset), version);
  }

  lemma MarkedTwice(doc: Json, at: Json, who: Json, at2: Json, who2: Json)
    requires SixKeys(doc)
    ensures Marked(Marked(doc, at, who), at2, who2) == Marked(doc, at2, who2)
  {
    MarkedIs(doc, at, who);
    MarkedIs(doc, at2, who2);
    var once := Marked(doc, at, who);
    assert DELETED_AT in META_KEYS && DELETED_BY in META_KEYS;
    SetMetaMember(doc, DELETED_AT, at);
    SetMetaMember(Set(doc, DELETED_AT_PATH, at), DELETED_BY, who);
    MarkedIs(once, at2, who2);
    var meta := doc.fields[META_PATH].fields;
    assert meta[DELETED_AT := at][DELETED_BY := who][DELETED_AT := at2][DELETED_BY := who2]
        == meta[DELETED_AT := at2][DELETED_BY := who2];
    var m1, m2 := JObj(meta[DELETED_AT := at][DELETED_BY := who]), JObj(meta[DELETED_AT := at2][DELETED_BY := who2]);
    assert doc.fields[META_PATH := m1][META_PATH := m2] == doc.fields[META_PATH := m2];
  }

  lemma MarkedIs(doc: Json, at: Json, who: Json)
    requires SixKeys(doc)
    ensures
      var meta := doc.fields[META_PATH].fields;
      Marked(doc, at, who) == JObj(doc.fields[META_PATH := JObj(meta[DELETED_AT := at][DELETED_BY := who])])
  {
    var meta := doc.fields[META_PATH];
    var m1 := JObj(meta.fields[DELETED_AT := at]);
    var m2 := JObj(meta.fields[DELETED_AT := at][DELETED_BY := who]);
    assert DELETED_AT_PATH[1..] == [DELETED_AT] && DELETED_BY_PATH[1..] == [DELETED_BY];
    assert Set(meta, [DELETED_AT], at) == m1 && Set(m1, [DELETED_BY], who) == m2;
    var once := Set(doc, DELETED_AT_PATH, at);
    assert once == JObj(doc.fields[META_PATH := m1]);
    assert Set(once, DELETED_BY_PATH, who) == JObj(once.fields[META_PATH := m2]);
    assert doc.fields[META_PATH := m1][META_PATH := m2] == doc.fields[META_PATH := m2];
  }

  lemma OnlyMarkedAgain(snapshot: Json, doc: Json, at: Json, who: Json)
    requires SixKeys(snapshot) && doc.JObj? && OnlyMarked(snapshot, doc)
    ensures OnlyMarked(snapshot, Marked(doc, at, who))
  {
    if doc != snapshot {
      var a, w :| doc == Marked(snapshot, a, w);
      MarkedTwice(snapshot, a, w, at, who);
    }
  }

  // ---------- the log grows by legal writes ----------

  lemma LogSnoc(log: seq<Write>, w: Write)
    ensures (log + [w])[..|log + [w]| - 1] == log
    ensures Bumps(log + [w]) == Bumps(log) + if Bumping(w) then 1 else 0
    ensures forall t: Tid ::
              CommitsOf(log + [w], t) == CommitsOf(log, t) + if w.PatchWrite? && w.t == t then [w] else []
  {
    assert (log + [w])[..|log + [w]| - 1] == log;
  }

  lemma SerialSnoc(c: Config, created: Json, log: seq<Write>, last: Json, w: Write)
    requires Serial(c, created, log, last) && Legal(c, w) && w.before == last
    requires AtVersion(w.after, 1 + Bumps(log + [w]))
    ensures Serial(c, created, log + [w], w.after)
  {
    assert (log + [w])[..|log + [w]| - 1] == log;
  }

  /** A commit that keeps the threads: everything the invariant says about them still holds. */
  lemma WriteKeeps(c: Config, created: Json, s: State, s': State, w: Write, last: Json)
    requires Inv(c, created, s) && s.row.Some?
    requires !w.PatchWrite? && w.before == s.row.value && w.after.JObj?
    requires s' == State(Option.Some(w.after), s.threads, s.log + [w])
    requires Legal(c, w) && Good(w.after, 1 + Bumps(s'.log))
    requires w.DeleteWrite? ==> w.after == Marked(w.before, w.at, w.who)
    requires Serial(c, created, s.log, last) && s.row.value == last
    ensures Inv(c, created, s')
  {
    LogSnoc(s.log, w);
    SerialSnoc(c, created, s.log, last, w);
    forall t | t in s'.threads ensures Accounted(s', t) {
      assert Accounted(s, t);
      assert CommitsOf(s'.log, t) == CommitsOf(s.log, t) + [];
    }
    forall t | t in s'.threads && s'.threads[t].Holding? ensures SnapshotOk(s', s'.threads[t].snapshot) {
      var snapshot := s.threads[t].snapshot;
      var v: nat :| 1 <= v <= 1 + Bumps(s.log) && Good(snapshot, v)
                    && (v == 1 + Bumps(s.log) && s.row.Some? ==> OnlyMarked(snapshot, s.row.value));
      if w.DeleteWrite? && v == 1 + Bumps(s.log) {
        OnlyMarkedAgain(snapshot, s.row.value, w.at, w.who);
      }
      assert v == 1 + Bumps(s'.log) ==> OnlyMarked(snapshot, s'.row.value);
    }
  }

  lemma SoftDeleteKeeps(c: Config, created: Json, s: State, s': State, at: Json, who: Json)
    requires Inv(c, created, s) && SoftDeleteStep(s, s', at, who)
    ensures Inv(c, created, s')
  {
    var doc := s.row.value;
    var w := DeleteWrite(at, who, doc, Marked(doc, at, who));
    LogSnoc(s.log, w);
    MarkedGood(doc, 1 + Bumps(s.log), at, who);
    var last :| Serial(c, created, s.log, last) && (s.row.Some? ==> s.row.value == last);
    WriteKeeps(c, created, s, s', w, last);
  }

  lemma OverwriteKeeps(c: Config, created: Json, s: State, s': State, paths: map<string, Json>, order: seq<string>)
    requires Inv(c, created, s) && OverwriteStep(s, s', paths, order)
    ensures Inv(c, created, s')
  {
    var doc := s.row.value;
    var w := BumpingWrite(paths, order, doc, Apply(doc, paths, order, Options(0, false, [])));
    LogSnoc(s.log, w);
    OverwriteGood(doc, 1 + Bumps(s.log), paths, order);
    var last :| Serial(c, created, s.log, last) && (s.row.Some? ==> s.row.value == last);
    WriteKeeps(c, created, s, s', w, last);
  }

  lemma ReadKeeps(c: Config, created: Json, s: State, s': State, t: Tid)
    requires Inv(c, created, s) && ReadStep(c, s, s', t)
    ensures Inv(c, created, s')
  {
    forall u | u in s'.threads ensures Accounted(s', u) {
      assert Accounted(s, u);
    }
    forall u | u in s'.threads && s'.threads[u].Holding? ensures SnapshotOk(s', s'.threads[u].snapshot) {
      if u == t {
        assert Good(s.row.value, 1 + Bumps(s.log));
      } else {
        assert SnapshotOk(s, s.threads[u].snapshot);
      }
    }
  }

  // ---------- the patch's write ----------

  /** The lock held: the row is the snapshot, soft deletes aside. */
  lemma LockMeansUnchanged(s: State, snapshot: Json, unset: seq<string>)
    requires snapshot.JObj? && SnapshotOk(s, snapshot) && s.row.Some? && Good(s.row.value, 1 + Bumps(s.log))
    requires LockHolds(s.row.value, PatchOptions(snapshot, unset))
    ensures OnlyMarked(snapshot, s.row.value) && Good(snapshot, 1 + Bumps(s.log))
  {
    var v: nat :| 1 <= v <= 1 + Bumps(s.log) && Good(snapshot, v)
                  && (v == 1 + Bumps(s.log) && s.row.Some? ==> OnlyMarked(snapshot, s.row.value));
    assert Truncated(v as real) == v && Truncated((1 + Bumps(s.log)) as real) == 1 + Bumps(s.log);
  }

  /** The diff on its own snapshot is the caller's edit exactly when no key it touches has a dot. */
  lemma EditExact(snapshot: Json, next: Json, declared: set<string>, sets: map<string, Json>, order: seq<string>,
                  o: Options)
    requires snapshot.JObj? && next.JObj? && Emitted(sets, snapshot, next) && !o.noBump
    requires Lists(order, sets.Keys) && Lists(o.unset, Removed(snapshot, next, declared))
    ensures Apply(snapshot, sets, order, o) == Patched(snapshot, next, declared) <==> DotFree(snapshot, next, declared)
  {
    if DotFree(snapshot, next, declared) {
      EmittedIs(sets, snapshot, next);
      DiffApplies(snapshot, next, declared, order, o.unset);
    } else {
      DottedInEngines(snapshot, next, declared, sets, order, o);
    }
  }

  /** What a landed patch leaves: its diff on the snapshot, under the row's soft-delete marks. */
  lemma PatchLands(c: Config, snapshot: Json, doc: Json, version: nat, edited: Json, now: int, actor: string,
                   sets: map<string, Json>, order: seq<string>, o: Options)
    requires Good(snapshot, version) && edited.JObj? && !o.noBump
    requires OnlyMarked(snapshot, doc) && Good(doc, version)
    requires Emitted(sets, snapshot, Stamped(snapshot, edited, now, actor)) && Lists(order, sets.Keys)
    requires EnvelopeSafe(snapshot, Stamped(snapshot, edited, now, actor), c.declared)
    requires Lists(o.unset, Removed(snapshot, Stamped(snapshot, edited, now, actor), c.declared))
    ensures Lands(c, snapshot, Stamped(snapshot, edited, now, actor), doc, Apply(doc, sets, order, o))
    ensures Good(Apply(doc, sets, order, o), version + 1)
  {
    var next := Stamped(snapshot, edited, now, actor);
    var after := Apply(doc, sets, order, o);
    PatchGood(doc, version, snapshot, edited, now, actor, c.declared, sets, order, o);
    EditExact(snapshot, next, c.declared, sets, order, o);
    forall at, who | doc == Marked(snapshot, at, who)
      ensures after == Marked(Apply(snapshot, sets, order, o), at, who)
    {
      PatchKeepsMarks(snapshot, edited, now, actor, c.declared, at, who, sets, order, o);
    }
    assert LandsAs(c, snapshot, next, doc, after, sets, order, o);
  }

  /** The facts about a commit that do not depend on the other threads. */
  ghost predicate Commits(c: Config, s: State, t: Tid, now: int, sets: map<string, Json>, order: seq<string>,
                          unset: seq<string>, edited: Json, w: Write)
  {
    && t in c.jobs && t in s.threads && s.threads[t].Holding? && s.threads[t].snapshot.JObj?
    && s.row.Some? && s.row.value.JObj? && LockHolds(s.row.value, PatchOptions(s.threads[t].snapshot, unset))
    && edited.JObj? && c.jobs[t].edit(s.threads[t].snapshot) == Option.Some(edited)
    && var snapshot := s.threads[t].snapshot;
    var next := Stamped(snapshot, edited, now, c.jobs[t].actor);
    && EnvelopeSafe(snapshot, next, c.declared)
    && Emitted(sets, snapshot, next) && Lists(order, sets.Keys)
    && Lists(unset, Removed(snapshot, next, c.declared))
    && w == PatchWrite(t, snapshot, next, s.row.value,
                       Apply(s.row.value, sets, order, PatchOptions(snapshot, unset)))
  }

  lemma LegalPatch(c: Config, w: Write, edited: Json, now: int)
    requires w.PatchWrite? && w.t in c.jobs && w.snapshot.JObj? && w.next.JObj? && w.before.JObj? && w.after.JObj?
    requires edited.JObj? && c.jobs[w.t].edit(w.snapshot) == Option.Some(edited)
    requires w.next == Stamped(w.snapshot, edited, now, c.jobs[w.t].actor)
    requires OnlyMarked(w.snapshot, w.before) && Lands(c, w.snapshot, w.next, w.before, w.after)
    ensures Legal(c, w)
  {
    assert Produced(c, w.t, w.snapshot, w.next);
  }

  /** A commit's log entry is legal and leaves the document in good order, one version on. */
  lemma CommitLegal(c: Config, s: State, t: Tid, now: int, sets: map<string, Json>, order: seq<string>,
                    unset: seq<string>, edited: Json, w: Write)
    requires Commits(c, s, t, now, sets, order, unset, edited, w)
    requires SnapshotOk(s, s.threads[t].snapshot) && Good(s.row.value, 1 + Bumps(s.log))
    ensures Legal(c, w) && Good(w.after, 2 + Bumps(s.log))
    ensures Good(w.snapshot, 1 + Bumps(s.log))
  {
    var snapshot, doc, actor := s.threads[t].snapshot, s.row.value, c.jobs[t].actor;
    LockMeansUnchanged(s, snapshot, unset);
    PatchLands(c, snapshot, doc, 1 + Bumps(s.log), edited, now, actor, sets, order,
               PatchOptions(snapshot, unset));
    LegalPatch(c, w, edited, now);
  }

  lemma CommitKeeps(c: Config, created: Json, s: State, s': State, t: Tid, w: Write)
    requires Inv(c, created, s) && t in s.threads && s.threads[t].Holding?
    requires w.PatchWrite? && w.t == t && s.row.Some? && w.before == s.row.value
    requires s' == State(Option.Some(w.after), s.threads[t := Finished(Stored(w.after))], s.log + [w])
    requires Serial(c, created, s'.log, s'.row.value) && Good(s'.row.value, 1 + Bumps(s'.log))
    ensures Inv(c, created, s')
  {
    CommitThreads(s, s', t, w);
    assert Serial(c, created, s'.log, s'.row.value);
  }

  lemma RowIsLast(c: Config, created: Json, s: State)
    requires Inv(c, created, s) && s.row.Some?
    ensures Serial(c, created, s.log, s.row.value)
  {
  }

  /** What a successful write step commits. */
  lemma CommitShape(c: Config, s: State, s': State, t: Tid, now: int, sets: map<string, Json>, order: seq<string>,
                    unset: seq<string>)
    returns (edited: Json, w: Write)
    requires c.Ok() && TryWriteStep(c, s, s', t, now, sets, order, unset)
    requires c.jobs[t].edit(s.threads[t].snapshot).Some?
    requires s.row.Some? && s.row.value.JObj? && LockHolds(s.row.value, PatchOptions(s.threads[t].snapshot, unset))
    ensures Commits(c, s, t, now, sets, order, unset, edited, w)
    ensures s' == State(Option.Some(w.after), s.threads[t := Finished(Stored(w.after))], s.log + [w])
  {
    var snapshot := s.threads[t].snapshot;
    edited := c.jobs[t].edit(snapshot).value;
    var next := Stamped(snapshot, edited, now, c.jobs[t].actor);
    w := PatchWrite(t, snapshot, next, s.row.value,
                    Apply(s.row.value, sets, order, PatchOptions(snapshot, unset)));
  }

  lemma LogGrows(c: Config, created: Json, log: seq<Write>, last: Json, w: Write)
    requires Serial(c, created, log, last) && Legal(c, w) && w.before == last && w.PatchWrite?
    requires Good(w.after, 2 + Bumps(log))
    ensures Serial(c, created, log + [w], w.after) && Bumps(log + [w]) == Bumps(log) + 1
  {
    assert (log + [w])[..|log + [w]| - 1] == log;
    SerialSnoc(c, created, log, last, w);
  }

  lemma CommitThreads(s: State, s': State, t: Tid, w: Write)
    requires w.PatchWrite? && w.t == t && t in s.threads && s.threads[t].Holding?
    requires forall u | u in s.threads :: Accounted(s, u)
    requires forall u | u in s.threads && s.threads[u].Holding? :: SnapshotOk(s, s.threads[u].snapshot)
    requires s' == State(Option.Some(w.after), s.threads[t := Finished(Stored(w.after))], s.log + [w])
    ensures s'.threads.Keys == s.threads.Keys
    ensures forall u | u in s'.threads :: Accounted(s', u)
    ensures forall u | u in s'.threads && s'.threads[u].Holding? :: SnapshotOk(s', s'.threads[u].snapshot)
  {
    LogSnoc(s.log, w);
    forall u | u in s'.threads ensures Accounted(s', u) {
      assert Accounted(s, u);
      assert CommitsOf(s'.log, u) == CommitsOf(s.log, u) + if u == t then [w] else [];
    }
    forall u | u in s'.threads && s'.threads[u].Holding? ensures SnapshotOk(s', s'.threads[u].snapshot) {
      var snapshot := s.threads[u].snapshot;
      var v: nat :| 1 <= v <= 1 + Bumps(s.log) && Good(snapshot, v)
                    && (v == 1 + Bumps(s.log) && s.row.Some? ==> OnlyMarked(snapshot, s.row.value));
      assert v < 1 + Bumps(s'.log);
    }
  }

  /** A refused edit, a lost lock or a vanished row writes nothing. */
  lemma NoCommitKeeps(c: Config, created: Json, s: State, s': State, t: Tid, pc: Pc)
    requires Inv(c, created, s) && t in s.threads && s.threads[t].Holding?
    requires s' == s.(threads := s.threads[t := pc])
    requires pc.Reading? || (pc.Finished? && !pc.outcome.Stored?)
    ensures Inv(c, created, s')
  {
    forall u | u in s'.threads ensures Accounted(s', u) {
      assert Accounted(s, u);
    }
    forall u | u in s'.threads && s'.threads[u].Holding? ensures SnapshotOk(s', s'.threads[u].snapshot) {
      assert SnapshotOk(s, s.threads[u].snapshot);
    }
  }

  lemma TryWriteKeeps(c: Config, created: Json, s: State, s': State, t: Tid, now: int, sets: map<string, Json>,
                      order: seq<string>, unset: seq<string>)
    requires c.Ok() && Inv(c, created, s) && TryWriteStep(c, s, s', t, now, sets, order, unset)
    ensures Inv(c, created, s')
  {
    var snapshot := s.threads[t].snapshot;
    if c.jobs[t].edit(snapshot).None? {
      NoCommitKeeps(c, created, s, s', t, Finished(Refused));
    } else if s.row.Some? && s.row.value.JObj? && LockHolds(s.row.value, PatchOptions(snapshot, unset)) {
      var edited, w := CommitShape(c, s, s', t, now, sets, order, unset);
      CommitLegal(c, s, t, now, sets, order, unset, edited, w);
      RowIsLast(c, created, s);
      LogGrows(c, created, s.log, w.before, w);
      CommitKeeps(c, created, s, s', t, w);
    } else {
      NoCommitKeeps(c, created, s, s', t, s'.threads[t]);
    }
  }

  // ---------- the theorems ----------

  lemma InitInv(c: Config, s: State, created: Json)
    requires Init(c, s, created)
    ensures Inv(c, created, s)
  {
    assert Serial(c, created, s.log, created);
  }

  lemma StepInv(c: Config, created: Json, s: State, s': State, e: Event)
    requires c.Ok() && Inv(c, created, s) && Step(c, s, s', e)
    ensures Inv(c, created, s')
  {
    match e
    case Read(t) => ReadKeeps(c, created, s, s', t);
    case TryWrite(t, now, sets, order, unset) => TryWriteKeeps(c, created, s, s', t, now, sets, order, unset);
    case Fails(t) => NoCommitKeeps(c, created, s, s', t, Finished(Refused));
    case SoftDelete(at, who) => SoftDeleteKeeps(c, created, s, s', at, who);
    case Overwrite(paths, order) => OverwriteKeeps(c, created, s, s', paths, order);
    case HardDelete => HardDeleteKeeps(c, created, s, s');
  }

  lemma HardDeleteKeeps(c: Config, created: Json, s: State, s': State)
    requires Inv(c, created, s) && s' == s.(row := None)
    ensures Inv(c, created, s')
  {
    forall u | u in s'.threads ensures Accounted(s', u) {
      assert Accounted(s, u);
    }
    forall u | u in s'.threads && s'.threads[u].Holding? ensures SnapshotOk(s', s'.threads[u].snapshot) {
      assert SnapshotOk(s, s.threads[u].snapshot);
    }
  }

  lemma {:induction false} RunInv(c: Config, created: Json, states: seq<State>, events: seq<Event>, n: nat)
    requires c.Ok() && Run(c, created, states, events) && n < |states|
    ensures Inv(c, created, states[n])
  {
    if n == 0 {
      InitInv(c, states[0], created);
    } else {
      RunInv(c, created, states, events, n - 1);
      StepInv(c, created, states[n - 1], states[n], events[n - 1]);
    }
  }

  /**
   * Over every interleaving: the committed writes form a serial history from the created
   * document, each successful patch being its diff applied to the document the previous write
   * left, and its edit exactly when no key it touched has a dot; the version is one plus the
   * number of bumping writes; and a patch that returned a document committed exactly once while
   * one that ended any other way wrote nothing.
   */
  lemma PatchesSerialize(c: Config, created: Json, states: seq<State>, events: seq<Event>, n: nat)
    requires c.Ok() && Run(c, created, states, events) && n < |states|
    ensures
      var s := states[n];
      && (exists last :: Serial(c, created, s.log, last) && (s.row.Some? ==> s.row.value == last))
      && (s.row.Some? ==> AtVersion(s.row.value, 1 + Bumps(s.log)))
      && (forall t | t in s.threads && s.threads[t].Finished? ::
            var outcome, own := s.threads[t].outcome, CommitsOf(s.log, t);
            if outcome.Stored? then |own| == 1 && own[0].after == outcome.doc else own == [])
  {
    RunInv(c, created, states, events, n);
    forall t | t in states[n].threads ensures Accounted(states[n], t) {}
  }

  /** In no run does a patch undo a soft delete: what was marked before its write is marked after. */
  lemma PatchesKeepDeletes(c: Config, created: Json, states: seq<State>, events: seq<Event>, n: nat)
    requires c.Ok() && Run(c, created, states, events) && n < |events|
    requires events[n].TryWrite? && |states[n + 1].log| > |states[n].log|
    ensures
      var s, s' := states[n], states[n + 1];
      && s.row.Some? && s'.row.Some? && s.row.value.JObj? && s'.row.value.JObj?
      && MetaField(s'.row.value, DELETED_AT, JNull) == MetaField(s.row.value, DELETED_AT, JNull)
      && MetaField(s'.row.value, DELETED_BY, JNull) == MetaField(s.row.value, DELETED_BY, JNull)
  {
    var s, s' := states[n], states[n + 1];
    assert Step(c, s, s', events[n]);
    RunInv(c, created, states, events, n);
    var e := events[n];
    CommitKeepsMarks(c, created, s, s', e.t, e.now, e.sets, e.order, e.unset);
  }

  lemma CommitKeepsMarks(c: Config, created: Json, s: State, s': State, t: Tid, now: int, sets: map<string, Json>,
                         order: seq<string>, unset: seq<string>)
    requires c.Ok() && Inv(c, created, s) && TryWriteStep(c, s, s', t, now, sets, order, unset)
    requires |s'.log| > |s.log|
    ensures s.row.Some? && s'.row.Some? && s.row.value.JObj? && s'.row.value.JObj?
    ensures MetaField(s'.row.value, DELETED_AT, JNull) == MetaField(s.row.value, DELETED_AT, JNull)
    ensures MetaField(s'.row.value, DELETED_BY, JNull) == MetaField(s.row.value, DELETED_BY, JNull)
  {
    var edited, w := CommitShape(c, s, s', t, now, sets, order, unset);
    var snapshot := s.threads[t].snapshot;
    assert SnapshotOk(s, snapshot);
    WriteKeepsMarks(s.row.value, snapshot, edited, now, c.jobs[t].actor, c.declared, sets, order,
                    PatchOptions(snapshot, unset));
  }

  /** A patch's sets, removals and bump never come near the marks. */
  lemma WriteKeepsMarks(doc: Json, snapshot: Json, edited: Json, now: int, actor: string, declared: set<string>,
                        sets: map<string, Json>, order: seq<string>, o: Options)
    requires doc.JObj? && SixKeys(snapshot) && edited.JObj?
    requires Emitted(sets, snapshot, Stamped(snapshot, edited, now, actor)) && Lists(order, sets.Keys)
    requires EnvelopeSafe(snapshot, Stamped(snapshot, edited, now, actor), declared)
    requires Lists(o.unset, Removed(snapshot, Stamped(snapshot, edited, now, actor), declared))
    ensures MetaField(Apply(doc, sets, order, o), DELETED_AT, JNull) == MetaField(doc, DELETED_AT, JNull)
    ensures MetaField(Apply(doc, sets, order, o), DELETED_BY, JNull) == MetaField(doc, DELETED_BY, JNull)
  {
    forall p | p in order ensures AvoidsMarks(Split(p)) {
      EmittedAllowed(snapshot, edited, now, actor, declared, sets, p);
    }
    forall n | n in o.unset ensures AvoidsMarks(Split(n)) {
      RemovedOutside(snapshot, edited, now, actor, declared, n);
      OtherKeyAvoids(Split(n));
    }
    MarkUntouched(doc, sets, order, o, DELETED_AT);
    MarkUntouched(doc, sets, order, o, DELETED_BY);
  }

  lemma MarkUntouched(doc: Json, sets: map<string, Json>, order: seq<string>, o: Options, key: string)
    requires doc.JObj? && forall p | p in order :: p in sets && Incomparable(Split(p), [META_PATH, key])
    requires forall n | n in o.unset :: Incomparable(Split(n), [META_PATH, key])
    ensures MetaField(Apply(doc, sets, order, o), key, JNull) == MetaField(doc, key, JNull)
  {
    var mark := [META_PATH, key];
    var left := UnsetAll(SetAll(doc, sets, order), o.unset);
    LookupSetAllOther(doc, sets, order, mark);
    LookupUnsetAll(SetAll(doc, sets, order), o.unset, mark);
    LookupBump(left, doc, o, mark);
    MetaFieldIs(doc, key);
    MetaFieldIs(Apply(doc, sets, order, o), key);
  }

  /** A member of meta is what the path finds, null standing for absence. */
  lemma MetaFieldIs(doc: Json, key: string)
    requires doc.JObj?
    ensures
      var found := Lookup(doc, [META_PATH, key]);
      MetaField(doc, key, JNull) == if found.Some? then found.value else JNull
  {
    assert [META_PATH, key][1..] == [key] && [key][1..] == [];
    if META_PATH in doc.fields && doc.fields[META_PATH].JObj? && key in doc.fields[META_PATH].fields {
      assert Lookup(doc.fields[META_PATH], [key]) == Lookup(doc.fields[META_PATH].fields[key], []);
    }
  }
}
