/**
 * One document under concurrent writers: the optimistic lock, its retries, and the writes that do
 * not take it. Reads and writes of db/service.go are separate atomic steps of the backend, in any
 * interleaving.
 */
module PatchProtocol {
  import opened Wrappers
  import opened JsonValue
  import opened DeepSet
  import opened Diff
  import opened DiffPaths
  import opened Update
  import opened UpdateTheorems
  import opened Envelope

  const PATCH_ATTEMPTS := 3

  type Tid = nat

  /** One call of Patch: the caller's edit (None when it or the validator refuses) and its options. */
  datatype Job = Job(edit: Json -> Option<Json>, actor: string, deleted: bool)

  datatype Config = Config(declared: set<string>, jobs: map<Tid, Job>) {
    /** Edits produce objects, and no dotted key they touch splits into the envelope. */
    ghost predicate Ok() {
      forall t, doc: Json, now | t in jobs && doc.JObj? && jobs[t].edit(doc).Some? ::
        && jobs[t].edit(doc).value.JObj?
        && EnvelopeSafe(doc, Stamped(doc, jobs[t].edit(doc).value, now, jobs[t].actor), declared)
    }
  }

  datatype Outcome = Stored(doc: Json) | Conflict | NotFound | Refused

  datatype Pc =
    | Reading(attempt: nat)
    | Holding(attempt: nat, snapshot: Json)
    | Finished(outcome: Outcome)

  /** What was committed, in commit order. */
  datatype Write =
    | PatchWrite(t: Tid, snapshot: Json, next: Json, before: Json, after: Json)
    | BumpingWrite(paths: map<string, Json>, order: seq<string>, before: Json, after: Json)
    | DeleteWrite(at: Json, who: Json, before: Json, after: Json)

  datatype State = State(row: Option<Json>, threads: map<Tid, Pc>, log: seq<Write>)

  predicate Bumping(w: Write) {
    !w.DeleteWrite?
  }

  function Bumps(log: seq<Write>): nat {
    if log == [] then 0
    else Bumps(log[..|log| - 1]) + if Bumping(log[|log| - 1]) then 1 else 0
  }

  // ---------- the steps ----------

  ghost predicate Init(c: Config, s: State, created: Json) {
    && Good(created, 1)
    && s.row == Option.Some(created) && s.log == []
    && s.threads.Keys == c.jobs.Keys && forall t | t in s.threads :: s.threads[t] == Reading(0)
  }

  datatype Event =
    | Read(t: Tid)
    | TryWrite(t: Tid, now: int, sets: map<string, Json>, order: seq<string>, unset: seq<string>)
    | Fails(t: Tid)
    | SoftDelete(at: Json, who: Json)
    | Overwrite(paths: map<string, Json>, order: seq<string>)
    | HardDelete

  /** find_one with the soft-delete filter, unless the job asked for deleted documents. */
  ghost predicate ReadStep(c: Config, s: State, s': State, t: Tid) {
    && t in s.threads && t in c.jobs && s.threads[t].Reading?
    && s'.row == s.row && s'.log == s.log
    && s'.threads == s.threads[t :=
         if s.row.Some? && s.row.value.JObj? && (c.jobs[t].deleted || Active(s.row.value))
         then Holding(s.threads[t].attempt, s.row.value)
         else Finished(NotFound)]
  }

  function PatchOptions(snapshot: Json, unset: seq<string>): Options
    requires snapshot.JObj?
  {
    Options(if VersionOf(snapshot).Some? then Truncated(VersionOf(snapshot).value) else 0, false, unset)
  }

  /** Edit, stamp, diff and UpdatePaths; a refused edit ends the patch, a lost lock retries it. */
  ghost predicate TryWriteStep(c: Config, s: State, s': State, t: Tid, now: int, sets: map<string, Json>,
                               order: seq<string>, unset: seq<string>)
  {
    && t in s.threads && t in c.jobs && s.threads[t].Holding? && s.threads[t].snapshot.JObj?
    && var snapshot, job := s.threads[t].snapshot, c.jobs[t];
    match job.edit(snapshot)
    case None => s' == s.(threads := s.threads[t := Finished(Refused)])
    case Some(edited) =>
      && edited.JObj?
      && var next := Stamped(snapshot, edited, now, job.actor);
      var o := PatchOptions(snapshot, unset);
      && Emitted(sets, snapshot, next) && Lists(order, sets.Keys)
      && Lists(unset, Removed(snapshot, next, c.declared))
      && if s.row.Some? && s.row.value.JObj? && LockHolds(s.row.value, o) then
           var doc := Apply(s.row.value, sets, order, o);
           s' == State(Option.Some(doc), s.threads[t := Finished(Stored(doc))],
                       s.log + [PatchWrite(t, snapshot, next, s.row.value, doc)])
         else
           s' == s.(threads := s.threads[t :=
                      if s.threads[t].attempt + 1 < PATCH_ATTEMPTS then Reading(s.threads[t].attempt + 1)
                      else Finished(Conflict)])
  }

  /** The backend refuses the update or the statement fails: the patch ends and nothing is stored. */
  ghost predicate FailStep(s: State, s': State, t: Tid) {
    t in s.threads && s.threads[t].Holding? && s' == s.(threads := s.threads[t := Finished(Refused)])
  }

  /** The write of a soft delete, singly or in bulk: no lock, no bump. */
  ghost predicate SoftDeleteStep(s: State, s': State, at: Json, who: Json) {
    && s.row.Some? && s.row.value.JObj?
    && var doc := Marked(s.row.value, at, who);
    s' == State(Option.Some(doc), s.threads, s.log + [DeleteWrite(at, who, s.row.value, doc)])
  }

  /** Restore and bulk patches: fixed values, no lock, version bumped. */
  ghost predicate OverwriteStep(s: State, s': State, paths: map<string, Json>, order: seq<string>) {
    && s.row.Some? && s.row.value.JObj?
    && Lists(order, paths.Keys)
    && (forall p | p in paths :: AllowedPath(p))
    && var doc := Apply(s.row.value, paths, order, Options(0, false, []));
    s' == State(Option.Some(doc), s.threads, s.log + [BumpingWrite(paths, order, s.row.value, doc)])
  }

  ghost predicate Step(c: Config, s: State, s': State, e: Event) {
    match e
    case Read(t) => ReadStep(c, s, s', t)
    case TryWrite(t, now, sets, order, unset) => TryWriteStep(c, s, s', t, now, sets, order, unset)
    case Fails(t) => FailStep(s, s', t)
    case SoftDelete(at, who) => SoftDeleteStep(s, s', at, who)
    case Overwrite(paths, order) => OverwriteStep(s, s', paths, order)
    case HardDelete => s.row.Some? && s' == s.(row := None)
  }

  ghost predicate Run(c: Config, created: Json, states: seq<State>, events: seq<Event>) {
    && |states| == |events| + 1 && Init(c, states[0], created)
    && forall i | 0 <= i < |events| :: Step(c, states[i], states[i + 1], events[i])
  }

  // ---------- what every run keeps ----------

  /** Later soft deletes aside, the document is the snapshot. */
  ghost predicate OnlyMarked(snapshot: Json, doc: Json)
    requires snapshot.JObj?
  {
    doc == snapshot || exists at, who :: doc == Marked(snapshot, at, who)
  }

  predicate AtVersion(doc: Json, version: nat) {
    doc.JObj? && VersionOf(doc).Some? && VersionOf(doc).value == version as real
  }

  /** A stored document in good order at a version. */
  ghost predicate Good(doc: Json, version: nat) {
    SixKeys(doc) && AtVersion(doc, version)
  }

  /** next is the job's edit of the snapshot under the store's envelope. */
  ghost predicate Produced(c: Config, t: Tid, snapshot: Json, next: Json)
    requires t in c.jobs && snapshot.JObj?
  {
    exists now: int, edited: Json :: edited.JObj? && c.jobs[t].edit(snapshot) == Option.Some(edited)
                                     && next == Stamped(snapshot, edited, now, c.jobs[t].actor)
  }

  /**
   * What a landed patch leaves: the diff applied to the snapshot, which is the caller's edit exactly
   * when no key it touches has a dot, under whatever marks the document had gained.
   */
  ghost predicate LandsAs(c: Config, snapshot: Json, next: Json, before: Json, after: Json,
                          sets: map<string, Json>, order: seq<string>, o: Options)
    requires snapshot.JObj? && next.JObj?
  {
    && Emitted(sets, snapshot, next) && Lists(order, sets.Keys)
    && Lists(o.unset, Removed(snapshot, next, c.declared)) && !o.noBump
    && var left := Apply(snapshot, sets, order, o);
    && (left == Patched(snapshot, next, c.declared) <==> DotFree(snapshot, next, c.declared))
    && (before == snapshot ==> after == left)
    && (forall at, who | before == Marked(snapshot, at, who) :: after == Marked(left, at, who))
  }

  ghost predicate Lands(c: Config, snapshot: Json, next: Json, before: Json, after: Json)
    requires snapshot.JObj? && next.JObj?
  {
    exists sets, order, o :: LandsAs(c, snapshot, next, before, after, sets, order, o)
  }

  /** One committed write did what it had to, on the document it found. */
  ghost predicate Legal(c: Config, w: Write) {
    && w.before.JObj? && w.after.JObj?
    && match w
       case PatchWrite(t, snapshot, next, before, after) =>
         && t in c.jobs && snapshot.JObj? && next.JObj? && OnlyMarked(snapshot, before)
         && Produced(c, t, snapshot, next) && Lands(c, snapshot, next, before, after)
       case BumpingWrite(paths, order, before, after) =>
         Lists(order, paths.Keys) && after == Apply(before, paths, order, Options(0, false, []))
       case DeleteWrite(at, who, before, after) => after == Marked(before, at, who)
  }

  /** The log is a serial history from the created document to the last one, versions included. */
  ghost predicate Serial(c: Config, created: Json, log: seq<Write>, last: Json) {
    if log == [] then last == created
    else
      var w := log[|log| - 1];
      && Legal(c, w) && w.after == last
      && AtVersion(last, 1 + Bumps(log))
      && Serial(c, created, log[..|log| - 1], w.before)
  }

  /** The writes a thread committed. */
  function CommitsOf(log: seq<Write>, t: Tid): (own: seq<Write>) {
    if log == [] then []
    else
      var last := log[|log| - 1];
      CommitsOf(log[..|log| - 1], t) + if last.PatchWrite? && last.t == t then [last] else []
  }

  /** A finished patch committed once, with the document it returned, or not at all. */
  ghost predicate Accounted(s: State, t: Tid)
    requires t in s.threads
  {
    var own := CommitsOf(s.log, t);
    match s.threads[t]
    case Finished(Stored(doc)) => |own| == 1 && own[0].after == doc
    case _ => own == []
  }

  ghost predicate SnapshotOk(s: State, snapshot: Json) {
    exists v: nat :: 1 <= v <= 1 + Bumps(s.log) && Good(snapshot, v)
      && (v == 1 + Bumps(s.log) && s.row.Some? ==> OnlyMarked(snapshot, s.row.value))
  }

  ghost predicate Inv(c: Config, created: Json, s: State) {
    && s.threads.Keys == c.jobs.Keys
    && (s.row.Some? ==> Good(s.row.value, 1 + Bumps(s.log)))
    && (exists last :: Serial(c, created, s.log, last) && (s.row.Some? ==> s.row.value == last))
    && (forall t | t in s.threads :: Accounted(s, t))
    && (forall t | t in s.threads && s.threads[t].Holding? :: SnapshotOk(s, s.threads[t].snapshot))
  }
}
