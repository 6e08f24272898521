/**
 * The query cache of db/service.go as atomic steps of many processes: two version counters read
 * one after the other, late stores, joined flights, evictions, and writes that retire keys either
 * by the shared counter or, when that fails, by the process's own.
 */
module CacheProtocol {
  import opened Wrappers
  import opened JsonValue

  type Tid = nat
  type Pid = nat
  type StoreId = nat

  type Db = map<string, Json>

  /** What a cached read asks: a document by id, or a find or a count by its digest. */
  datatype Query = Get(id: string) | Find(digest: string) | Count(digest: string)

  /** The cache key: the store it lives in, both counters, and the question. */
  datatype Key = Key(store: StoreId, shared: nat, local: nat, query: Query)

  /**
   * home gives the process a call runs in, store the cache a process uses, versioned the stores
   * whose adapter keeps a shared version. Several processes may use one store.
   */
  datatype Config = Config(answer: (Db, Query) -> Json, home: map<Tid, Pid>, store: map<Pid, StoreId>,
                           versioned: set<StoreId>)
  {
    ghost predicate Ok() {
      forall t | t in home :: home[t] in store
    }

    function StoreOf(t: Tid): StoreId
      requires t in home && home[t] in store
    {
      store[home[t]]
    }
  }

  datatype Pc =
    // a read
    | Ready(query: Query)
    | Versioned(query: Query, shared: nat)
    | Keyed(key: Key)
    | Uncached(query: Query)
    | Loading(key: Key)
    | Loaded(key: Key, value: Json)
    | Kept(key: Key, result: Option<Json>)
    | Waiting(key: Key, leader: Tid)
    | Alone(key: Key)
    | Fetched(key: Key, value: Json)
    | Answered(query: Query, result: Option<Json>)
    // a write
    | Writing
    | Committed(index: nat)
    | Missed(index: nat)
    | Written(index: nat, bumped: bool)

  /**
   * history holds every state the backend has been in; a write's index is the state it made.
   * bumps and falls list the writes that moved a counter, so that each counter is a length: the
   * shared version of a store is |bumps[store]|, the local one of a process is |falls[process]|.
   */
  datatype World = World(history: seq<Db>, bumps: map<StoreId, seq<nat>>, falls: map<Pid, seq<nat>>)

  datatype State = State(
    world: World,
    cache: map<Key, Json>,
    flights: map<(Pid, Key), Tid>,
    threads: map<Tid, Pc>)

  // ---------- the steps ----------

  ghost predicate Init(c: Config, s: State) {
    && |s.world.history| > 0
    && (forall p | p in c.store :: p in s.world.falls && c.store[p] in s.world.bumps)
    && (forall p | p in s.world.falls :: s.world.falls[p] == [])
    && (forall st | st in s.world.bumps :: s.world.bumps[st] == [])
    && s.cache == map[] && s.flights == map[]
    && s.threads.Keys == c.home.Keys
    && forall t | t in s.threads :: s.threads[t].Ready? || s.threads[t].Writing?
  }

  /** Steps that find the key, or answer without the flight. */
  datatype Lookup = ReadShared | ReadUnreadable | ReadLocal | Hit | ReadUncached | UncachedFails

  /** Steps of a miss: leading a flight, or following one. */
  datatype Miss = Lead | Join | Load | LoadFails | Keep | TooLarge | Publish | Follow | GiveUp

  /** Steps of a miss inside a batch of ids: no flight is led or joined, and the row is stored late. */
  datatype Lone = Start | Fetch | FetchFails | StoreLate | LeaveOut

  /** Steps of a write: commit, then bump; a failed bump may or may not have moved the counter. */
  datatype Write = Commit(db: Db) | Bump | BumpFails(applied: bool) | FallBack

  datatype Event =
    | Looks(t: Tid, lookup: Lookup)
    | Misses(t: Tid, miss: Miss)
    | Batches(t: Tid, lone: Lone)
    | Writes(t: Tid, write: Write)
    | Drop(key: Key)

  predicate Counted(c: Config, w: World, t: Tid) {
    t in c.home && c.home[t] in c.store && c.home[t] in w.falls && c.StoreOf(t) in w.bumps
  }

  function Latest(w: World): Db
    requires w.history != []
  {
    w.history[|w.history| - 1]
  }

  function Bumped(w: World, store: StoreId, index: nat): World
    requires store in w.bumps
  {
    w.(bumps := w.bumps[store := w.bumps[store] + [index]])
  }

  function Fallen(w: World, p: Pid, index: nat): World
    requires p in w.falls
  {
    w.(falls := w.falls[p := w.falls[p] + [index]])
  }

  function Moved(s: State, t: Tid, pc: Pc): State {
    s.(threads := s.threads[t := pc])
  }

  ghost predicate LookupStep(c: Config, s: State, s': State, t: Tid, e: Lookup)
    requires t in s.threads && Counted(c, s.world, t)
  {
    var pc, store := s.threads[t], c.StoreOf(t);
    match e
    case ReadShared => pc.Ready? && s' == Moved(s, t, Versioned(pc.query, |s.world.bumps[store]|))
    case ReadUnreadable => pc.Ready? && store in c.versioned && s' == Moved(s, t, Uncached(pc.query))
    case ReadLocal =>
      pc.Versioned? && s' == Moved(s, t, Keyed(Key(store, pc.shared, |s.world.falls[c.home[t]]|, pc.query)))
    case Hit => pc.Keyed? && pc.key in s.cache && s' == Moved(s, t, Answered(pc.key.query, Some(s.cache[pc.key])))
    case ReadUncached =>
      && pc.Uncached? && s.world.history != []
      && s' == Moved(s, t, Answered(pc.query, Some(c.answer(Latest(s.world), pc.query))))
    case UncachedFails => pc.Uncached? && s' == Moved(s, t, Answered(pc.query, None))
  }

  ghost predicate MissStep(c: Config, s: State, s': State, t: Tid, e: Miss)
    requires t in s.threads && Counted(c, s.world, t)
  {
    var pc, p := s.threads[t], c.home[t];
    match e
    case Lead =>
      && pc.Keyed? && (p, pc.key) !in s.flights
      && s' == Moved(s.(flights := s.flights[(p, pc.key) := t]), t, Loading(pc.key))
    case Join => pc.Keyed? && (p, pc.key) in s.flights && s' == Moved(s, t, Waiting(pc.key, s.flights[(p, pc.key)]))
    case Load =>
      && pc.Loading? && s.world.history != []
      && s' == Moved(s, t, Loaded(pc.key, c.answer(Latest(s.world), pc.key.query)))
    case LoadFails => pc.Loading? && s' == Moved(s, t, Kept(pc.key, None))
    case Keep => pc.Loaded? && s' == Moved(s.(cache := s.cache[pc.key := pc.value]), t, Kept(pc.key, Some(pc.value)))
    case TooLarge => pc.Loaded? && s' == Moved(s, t, Kept(pc.key, Some(pc.value)))
    case Publish =>
      pc.Kept? && s' == Moved(s.(flights := s.flights - {(p, pc.key)}), t, Answered(pc.key.query, pc.result))
    case Follow =>
      && pc.Waiting? && pc.leader in s.threads && s.threads[pc.leader].Answered?
      && s' == Moved(s, t, Answered(pc.key.query, s.threads[pc.leader].result))
    case GiveUp => pc.Waiting? && s' == Moved(s, t, Answered(pc.key.query, None))
  }

  /**
   * One id of GetMany. The batch reads its counters once and its missing rows in one query; here
   * each id has its own steps, which can fall together.
   */
  ghost predicate LoneStep(c: Config, s: State, s': State, t: Tid, e: Lone)
    requires t in s.threads && Counted(c, s.world, t)
  {
    var pc := s.threads[t];
    match e
    case Start => pc.Keyed? && pc.key.query.Get? && s' == Moved(s, t, Alone(pc.key))
    case Fetch =>
      && pc.Alone? && s.world.history != []
      && s' == Moved(s, t, Fetched(pc.key, c.answer(Latest(s.world), pc.key.query)))
    case FetchFails => pc.Alone? && s' == Moved(s, t, Answered(pc.key.query, None))
    case StoreLate =>
      && pc.Fetched?
      && s' == Moved(s.(cache := s.cache[pc.key := pc.value]), t, Answered(pc.key.query, Some(pc.value)))
    case LeaveOut => pc.Fetched? && s' == Moved(s, t, Answered(pc.key.query, Some(pc.value)))
  }

  ghost predicate WriteStep(c: Config, s: State, s': State, t: Tid, e: Write)
    requires t in s.threads && Counted(c, s.world, t)
  {
    var pc, w, store := s.threads[t], s.world, c.StoreOf(t);
    match e
    case Commit(db) =>
      pc.Writing? && s' == Moved(s.(world := w.(history := w.history + [db])), t, Committed(|w.history|))
    case Bump =>
      && pc.Committed? && store in c.versioned
      && s' == Moved(s.(world := Bumped(w, store, pc.index)), t, Written(pc.index, true))
    case BumpFails(applied) =>
      && pc.Committed? && (applied ==> store in c.versioned)
      && s' == Moved(if applied then s.(world := Bumped(w, store, pc.index)) else s, t, Missed(pc.index))
    case FallBack =>
      pc.Missed? && s' == Moved(s.(world := Fallen(w, c.home[t], pc.index)), t, Written(pc.index, false))
  }

  ghost predicate Step(c: Config, s: State, s': State, e: Event) {
    if e.Drop? then s' == s.(cache := s.cache - {e.key})
    else
      && e.t in s.threads && Counted(c, s.world, e.t)
      && match e
         case Looks(t, lookup) => LookupStep(c, s, s', t, lookup)
         case Misses(t, miss) => MissStep(c, s, s', t, miss)
         case Batches(t, lone) => LoneStep(c, s, s', t, lone)
         case Writes(t, write) => WriteStep(c, s, s', t, write)
  }

  ghost predicate Run(c: Config, states: seq<State>, events: seq<Event>) {
    && |states| == |events| + 1 && c.Ok() && Init(c, states[0])
    && forall i | 0 <= i < |events| :: Step(c, states[i], states[i + 1], events[i])
  }

  // ---------- what every run keeps ----------

  /** The newest of a list of writes. */
  function Newest(writes: seq<nat>): (m: nat)
    ensures forall w | w in writes :: w <= m
    ensures m == 0 || m in writes
  {
    if writes == [] then 0
    else
      var rest := Newest(writes[..|writes| - 1]);
      assert writes == writes[..|writes| - 1] + [writes[|writes| - 1]];
      if writes[|writes| - 1] > rest then writes[|writes| - 1] else rest
  }

  /** The key's counters are ones that process p has seen. */
  ghost predicate Reached(c: Config, w: World, key: Key, p: Pid) {
    && p in c.store && c.store[p] == key.store && p in w.falls && key.store in w.bumps
    && key.shared <= |w.bumps[key.store]| && key.local <= |w.falls[p]|
  }

  /** The oldest backend state an entry under this key may come from, if process p made it. */
  function Floor(w: World, key: Key, p: Pid): nat
    requires key.store in w.bumps && p in w.falls
    requires key.shared <= |w.bumps[key.store]| && key.local <= |w.falls[p]|
  {
    Newest(w.bumps[key.store][..key.shared] + w.falls[p][..key.local])
  }

  /** The value answers the query in some backend state no older than a floor. */
  ghost predicate From(c: Config, w: World, query: Query, value: Json, floor: nat) {
    exists i :: floor <= i < |w.history| && value == c.answer(w.history[i], query)
  }

  /** A value under a key: made by some process on the key's store, no older than its floor. */
  ghost predicate Fresh(c: Config, w: World, key: Key, value: Json, p: Pid) {
    Reached(c, w, key, p) && From(c, w, key.query, value, Floor(w, key, p))
  }

  /** The writes behind a counter have been committed. */
  ghost predicate Behind(writes: seq<nat>, n: nat) {
    forall i | i in writes :: i < n
  }

  ghost predicate CountersOk(c: Config, w: World) {
    && |w.history| > 0
    && (forall p | p in c.store :: p in w.falls && c.store[p] in w.bumps)
    && (forall st | st in w.bumps :: Behind(w.bumps[st], |w.history|))
    && (forall p | p in w.falls :: Behind(w.falls[p], |w.history|))
  }

  ghost predicate EntryOk(c: Config, w: World, key: Key, value: Json) {
    exists p :: Fresh(c, w, key, value, p)
  }

  ghost predicate CacheOk(c: Config, w: World, cache: map<Key, Json>) {
    forall key | key in cache :: EntryOk(c, w, key, cache[key])
  }

  /** A result is absent or fresh. */
  ghost predicate ResultOk(c: Config, w: World, key: Key, result: Option<Json>, p: Pid) {
    result.Some? ==> Fresh(c, w, key, result.value, p)
  }

  /** What the counters say of a thread. */
  ghost predicate PcOk(c: Config, w: World, t: Tid, pc: Pc)
    requires Counted(c, w, t)
  {
    var p := c.home[t];
    match pc
    case Versioned(_, shared) => shared <= |w.bumps[c.StoreOf(t)]|
    case Keyed(key) => Reached(c, w, key, p)
    case Loading(key) => Reached(c, w, key, p)
    case Loaded(key, value) => Fresh(c, w, key, value, p)
    case Kept(key, result) => Reached(c, w, key, p) && ResultOk(c, w, key, result, p)
    case Waiting(key, leader) => Reached(c, w, key, p)
    case Alone(key) => Reached(c, w, key, p)
    case Fetched(key, value) => Fresh(c, w, key, value, p)
    case Committed(i) => i < |w.history|
    case Missed(i) => i < |w.history|
    case Written(i, bumped) => i < |w.history| && if bumped then i in w.bumps[c.StoreOf(t)] else i in w.falls[p]
    case _ => true
  }

  /** A thread with this pc leads, or led, a flight on the key in process p. */
  ghost predicate Leads(c: Config, w: World, pc: Pc, key: Key, p: Pid) {
    match pc
    case Loading(k) => k == key
    case Loaded(k, _) => k == key
    case Kept(k, _) => k == key
    case Answered(q, result) => q == key.query && ResultOk(c, w, key, result, p)
    case _ => false
  }

  ghost predicate LeaderOk(c: Config, s: State, leader: Tid, key: Key, p: Pid) {
    leader in s.threads && leader in c.home && c.home[leader] == p && Leads(c, s.world, s.threads[leader], key, p)
  }

  ghost predicate FlightsOk(c: Config, s: State) {
    forall f | f in s.flights :: LeaderOk(c, s, s.flights[f], f.1, f.0) && !s.threads[s.flights[f]].Answered?
  }

  ghost predicate ThreadOk(c: Config, s: State, t: Tid)
    requires t in s.threads
  {
    && Counted(c, s.world, t) && PcOk(c, s.world, t, s.threads[t])
    && (s.threads[t].Waiting? ==> LeaderOk(c, s, s.threads[t].leader, s.threads[t].key, c.home[t]))
  }

  ghost predicate Inv(c: Config, s: State) {
    && CountersOk(c, s.world) && CacheOk(c, s.world, s.cache) && FlightsOk(c, s)
    && forall t | t in s.threads :: ThreadOk(c, s, t)
  }
}
