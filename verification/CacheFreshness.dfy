/** Freshness across a whole run, and the run in which the fallback counter is not enough. */
module CacheFreshness {
  import opened Wrappers
  import opened JsonValue
  import opened CacheProtocol
  import opened CacheTheorems

  // ---------- a read that starts now never looks behind now ----------

  /** The key's counters are no older than a moment's. */
  ghost predicate Later(c: Config, base: World, key: Key, t: Tid)
    requires Counted(c, base, t)
  {
    key.store == c.StoreOf(t) && |base.bumps[key.store]| <= key.shared && |base.falls[c.home[t]]| <= key.local
  }

  ghost predicate AnsweredSince(c: Config, base: World, w: World, t: Tid, query: Query, value: Json)
    requires Counted(c, base, t)
  {
    exists key, maker :: Later(c, base, key, t) && key.query == query && Fresh(c, w, key, value, maker)
  }

  /** A thread that was ready at that moment: its counters, its key and its answer are all since. */
  ghost predicate Since(c: Config, base: World, w: World, t: Tid, query: Query, pc: Pc)
    requires Counted(c, base, t)
  {
    match pc
    case Ready(q) => q == query
    case Uncached(q) => q == query
    case Versioned(q, shared) => q == query && |base.bumps[c.StoreOf(t)]| <= shared
    case Keyed(key) => key.query == query && Later(c, base, key, t)
    case Loading(key) => key.query == query && Later(c, base, key, t)
    case Loaded(key, _) => key.query == query && Later(c, base, key, t)
    case Kept(key, _) => key.query == query && Later(c, base, key, t)
    case Waiting(key, _) => key.query == query && Later(c, base, key, t)
    case Alone(key) => key.query == query && Later(c, base, key, t)
    case Fetched(key, _) => key.query == query && Later(c, base, key, t)
    case Answered(q, result) => q == query && (result.Some? ==> AnsweredSince(c, base, w, t, query, result.value))
    case _ => false
  }

  lemma SinceGrows(c: Config, base: World, w: World, w': World, t: Tid, query: Query, pc: Pc)
    requires Counted(c, base, t) && Grows(w, w') && Since(c, base, w, t, query, pc)
    ensures Since(c, base, w', t, query, pc)
  {
    if pc.Answered? && pc.result.Some? {
      var key, maker :| Later(c, base, key, t) && key.query == query && Fresh(c, w, key, pc.result.value, maker);
      FreshGrows(c, w, w', key, pc.result.value, maker);
    }
  }

  lemma LookupSince(c: Config, base: World, s: State, s': State, t: Tid, query: Query, e: Lookup)
    requires Inv(c, s) && t in s.threads && Counted(c, s.world, t) && LookupStep(c, s, s', t, e)
    requires Counted(c, base, t) && Grows(base, s.world) && Since(c, base, s.world, t, query, s.threads[t])
    ensures Since(c, base, s'.world, t, query, s'.threads[t])
  {
    if e.Hit? {
      var key := s.threads[t].key;
      assert EntryOk(c, s.world, key, s.cache[key]);
    } else if e.ReadUncached? {
      var store, p := c.StoreOf(t), c.home[t];
      var key := Key(store, |s.world.bumps[store]|, |s.world.falls[p]|, query);
      ReadNowIsFresh(c, s.world, key, p);
      assert Later(c, base, key, t);
    }
  }

  lemma MissSince(c: Config, base: World, s: State, s': State, t: Tid, query: Query, e: Miss)
    requires Inv(c, s) && t in s.threads && Counted(c, s.world, t) && MissStep(c, s, s', t, e)
    requires Counted(c, base, t) && Since(c, base, s.world, t, query, s.threads[t])
    ensures Since(c, base, s'.world, t, query, s'.threads[t])
  {
    assert ThreadOk(c, s, t);
    if e.Follow? && s'.threads[t].result.Some? {
      var key := s.threads[t].key;
      assert LeaderOk(c, s, s.threads[t].leader, key, c.home[t]);
      assert Fresh(c, s.world, key, s'.threads[t].result.value, c.home[t]);
    }
  }

  lemma LoneSince(c: Config, base: World, s: State, s': State, t: Tid, query: Query, e: Lone)
    requires Inv(c, s) && t in s.threads && Counted(c, s.world, t) && LoneStep(c, s, s', t, e)
    requires Counted(c, base, t) && Since(c, base, s.world, t, query, s.threads[t])
    ensures Since(c, base, s'.world, t, query, s'.threads[t])
  {
    assert ThreadOk(c, s, t);
  }

  /** A thread in the middle of a write reads nothing. */
  lemma WriterReadsNothing(c: Config, base: World, s: State, s': State, t: Tid, query: Query, e: Write)
    requires t in s.threads && Counted(c, s.world, t) && Counted(c, base, t)
    requires Since(c, base, s.world, t, query, s.threads[t])
    ensures !WriteStep(c, s, s', t, e)
  {
  }

  lemma OwnSince(c: Config, base: World, s: State, s': State, e: Event, t: Tid, query: Query)
    requires Inv(c, s) && Step(c, s, s', e) && t in s.threads && !e.Drop? && e.t == t
    requires Counted(c, base, t) && Grows(base, s.world) && Since(c, base, s.world, t, query, s.threads[t])
    ensures t in s'.threads && Since(c, base, s'.world, t, query, s'.threads[t])
  {
    match e
    case Looks(_, lookup) => LookupSince(c, base, s, s', t, query, lookup);
    case Misses(_, miss) => MissSince(c, base, s, s', t, query, miss);
    case Batches(_, lone) => LoneSince(c, base, s, s', t, query, lone);
    case Writes(_, write) => WriterReadsNothing(c, base, s, s', t, query, write);
  }

  lemma StepSince(c: Config, base: World, s: State, s': State, e: Event, t: Tid, query: Query)
    requires Inv(c, s) && Step(c, s, s', e) && t in s.threads
    requires Counted(c, base, t) && Grows(base, s.world) && Since(c, base, s.world, t, query, s.threads[t])
    ensures t in s'.threads && Since(c, base, s'.world, t, query, s'.threads[t]) && Grows(base, s'.world)
  {
    StepGrows(c, s, s', e);
    if !e.Drop? && e.t == t {
      OwnSince(c, base, s, s', e, t, query);
    } else {
      SinceGrows(c, base, s.world, s'.world, t, query, s.threads[t]);
    }
  }

  lemma StepGrows(c: Config, s: State, s': State, e: Event)
    requires Inv(c, s) && Step(c, s, s', e)
    ensures Grows(s.world, s'.world)
    ensures e.Drop? || forall u | u in s.threads && u != e.t :: u in s'.threads && s'.threads[u] == s.threads[u]
    ensures e.Drop? ==> s'.threads == s.threads
    ensures s'.threads.Keys == s.threads.Keys
  {
    match e
    case Looks(t, lookup) => LookupMoves(c, s, s', t, lookup);
    case Misses(t, miss) => MissMoves(c, s, s', t, miss);
    case Batches(t, lone) => LoneMoves(c, s, s', t, lone);
    case Writes(t, write) => WriteMoves(c, s, s', t, write);
    case Drop(_) =>
  }

  lemma RunStep(c: Config, states: seq<State>, events: seq<Event>, k: nat)
    requires Run(c, states, events) && k < |events|
    ensures Step(c, states[k], states[k + 1], events[k])
  {
  }

  /** At the moment itself a ready thread has looked at nothing. */
  lemma SinceNow(c: Config, s: State, t: Tid, query: Query)
    requires Inv(c, s) && t in s.threads && s.threads[t] == Ready(query)
    ensures Counted(c, s.world, t) && Since(c, s.world, s.world, t, query, s.threads[t])
  {
    assert ThreadOk(c, s, t);
  }

  lemma OneMoreStep(c: Config, base: World, states: seq<State>, events: seq<Event>, k: nat, t: Tid, query: Query)
    requires Run(c, states, events) && k < |events| && t in states[k].threads
    requires Counted(c, base, t) && Grows(base, states[k].world)
    requires Since(c, base, states[k].world, t, query, states[k].threads[t])
    ensures t in states[k + 1].threads && Grows(base, states[k + 1].world)
    ensures Since(c, base, states[k + 1].world, t, query, states[k + 1].threads[t])
  {
    RunInv(c, states, events, k);
    RunStep(c, states, events, k);
    StepSince(c, base, states[k], states[k + 1], events[k], t, query);
  }

  lemma {:induction false} RunSince(c: Config, states: seq<State>, events: seq<Event>, m: nat, n: nat, t: Tid,
                                    query: Query)
    requires Run(c, states, events) && m <= n < |states|
    requires t in states[m].threads && states[m].threads[t] == Ready(query)
    ensures Counted(c, states[m].world, t) && Grows(states[m].world, states[n].world)
    ensures t in states[n].threads && Since(c, states[m].world, states[n].world, t, query, states[n].threads[t])
    decreases n - m
  {
    if m == n {
      RunInv(c, states, events, m);
      SinceNow(c, states[m], t, query);
    } else {
      var k: nat := n - 1;
      RunSince(c, states, events, m, k, t, query);
      OneMoreStep(c, states[m].world, states, events, k, t, query);
    }
  }

  // ---------- the theorems ----------

  /** The floor of a key covers every write its counters have passed. */
  lemma FloorCovers(c: Config, base: World, w: World, key: Key, maker: Pid, i: nat)
    requires Reached(c, w, key, maker) && Grows(base, w)
    requires (key.store in base.bumps && i in base.bumps[key.store] && |base.bumps[key.store]| <= key.shared)
          || (maker in base.falls && i in base.falls[maker] && |base.falls[maker]| <= key.local)
    ensures i <= Floor(w, key, maker)
  {
    var bumps, falls := w.bumps[key.store], w.falls[maker];
    assert i in bumps[..key.shared] + falls[..key.local] by {
      if key.store in base.bumps && i in base.bumps[key.store] && |base.bumps[key.store]| <= key.shared {
        assert base.bumps[key.store] <= bumps[..key.shared];
        assert i in bumps[..key.shared];
      } else {
        assert base.falls[maker] <= falls[..key.local];
        assert i in falls[..key.local];
      }
    }
  }

  lemma FromLower(c: Config, w: World, query: Query, value: Json, floor: nat, lower: nat)
    requires From(c, w, query, value, floor) && lower <= floor
    ensures From(c, w, query, value, lower)
  {
    var i :| floor <= i < |w.history| && value == c.answer(w.history[i], query);
  }

  /**
   * Across processes: a read that starts after a write's bump succeeded answers from a backend
   * state that includes the write, whatever hits, joined flights, late stores and evictions come
   * between, as long as the two processes use the same store.
   */
  lemma ReadsSeeBumpedWrites(c: Config, states: seq<State>, events: seq<Event>, m: nat, n: nat, t: Tid, u: Tid,
                             query: Query, index: nat, value: Json)
    requires Run(c, states, events) && m <= n < |states|
    requires t in states[m].threads && states[m].threads[t] == Ready(query)
    requires u in states[m].threads && states[m].threads[u] == Written(index, true)
    requires Counted(c, states[m].world, t) && Counted(c, states[m].world, u) && c.StoreOf(t) == c.StoreOf(u)
    requires t in states[n].threads && states[n].threads[t] == Answered(query, Some(value))
    ensures From(c, states[n].world, query, value, index)
  {
    var base, w := states[m].world, states[n].world;
    RunInv(c, states, events, m);
    assert ThreadOk(c, states[m], u);
    RunSince(c, states, events, m, n, t, query);
    var key, maker :| Later(c, base, key, t) && key.query == query && Fresh(c, w, key, value, maker);
    FloorCovers(c, base, w, key, maker, index);
    FromLower(c, w, query, value, Floor(w, key, maker), index);
  }

  /** No process but p has ever fallen back among those that use p's store. */
  ghost predicate SoleFaller(c: Config, w: World, p: Pid)
    requires p in c.store
  {
    forall q | q in c.store && q != p && c.store[q] == c.store[p] :: q in w.falls && w.falls[q] == []
  }

  /**
   * Within a process: a read that starts after a write fell back to the local counter includes the
   * write, when no other process on the same store has fallen back by the time it answers.
   */
  lemma ReadsSeeOwnFallback(c: Config, states: seq<State>, events: seq<Event>, m: nat, n: nat, t: Tid, u: Tid,
                            query: Query, index: nat, value: Json)
    requires Run(c, states, events) && m <= n < |states|
    requires t in states[m].threads && states[m].threads[t] == Ready(query)
    requires u in states[m].threads && states[m].threads[u] == Written(index, false)
    requires Counted(c, states[m].world, t) && u in c.home && c.home[t] == c.home[u]
    requires SoleFaller(c, states[n].world, c.home[t])
    requires t in states[n].threads && states[n].threads[t] == Answered(query, Some(value))
    ensures From(c, states[n].world, query, value, index)
  {
    var base, w, p := states[m].world, states[n].world, c.home[t];
    RunInv(c, states, events, m);
    assert ThreadOk(c, states[m], u);
    RunSince(c, states, events, m, n, t, query);
    var key, maker :| Later(c, base, key, t) && key.query == query && Fresh(c, w, key, value, maker);
    assert index in base.falls[p];
    assert maker == p;
    FloorCovers(c, base, w, key, maker, index);
    FromLower(c, w, query, value, Floor(w, key, maker), index);
  }

  // ---------- why the fallback needs a sole faller ----------

  lemma RunSnoc(c: Config, states: seq<State>, events: seq<Event>, s: State, e: Event)
    requires Run(c, states, events) && Step(c, states[|states| - 1], s, e)
    ensures Run(c, states + [s], events + [e])
  {
    var longer, all := states + [s], events + [e];
    forall i | 0 <= i < |all| ensures Step(c, longer[i], longer[i + 1], all[i]) {
      if i < |events| {
        assert Step(c, states[i], states[i + 1], events[i]);
      }
    }
  }

  /** A write whose bump fails: three steps, one more local count. */
  lemma FallsBack(c: Config, states: seq<State>, events: seq<Event>, t: Tid, db: Db)
    returns (ss: seq<State>, es: seq<Event>)
    requires Run(c, states, events)
    requires var s := states[|states| - 1]; t in s.threads && Counted(c, s.world, t) && s.threads[t] == Writing
    ensures Run(c, ss, es) && states < ss
    ensures
      var s, s', p := states[|states| - 1], ss[|ss| - 1], c.home[t];
      && s'.world == s.world.(history := s.world.history + [db],
                              falls := s.world.falls[p := s.world.falls[p] + [|s.world.history|]])
      && s'.cache == s.cache && s'.flights == s.flights
      && s'.threads == s.threads[t := Written(|s.world.history|, false)]
  {
    var s, p := states[|states| - 1], c.home[t];
    var n := |s.world.history|;
    var s1 := Moved(s.(world := s.world.(history := s.world.history + [db])), t, Committed(n));
    RunSnoc(c, states, events, s1, Writes(t, Commit(db)));
    var s2 := Moved(s1, t, Missed(n));
    RunSnoc(c, states + [s1], events + [Writes(t, Commit(db))], s2, Writes(t, BumpFails(false)));
    var s3 := Moved(s2.(world := Fallen(s2.world, p, n)), t, Written(n, false));
    ss := states + [s1] + [s2] + [s3];
    es := events + [Writes(t, Commit(db))] + [Writes(t, BumpFails(false))] + [Writes(t, FallBack)];
    RunSnoc(c, states + [s1] + [s2], events + [Writes(t, Commit(db))] + [Writes(t, BumpFails(false))], s3,
            Writes(t, FallBack));
    assert s3.threads == s.threads[t := Written(n, false)];
  }

  function KeyNow(c: Config, s: State, t: Tid, query: Query): Key
    requires Counted(c, s.world, t)
  {
    Key(c.StoreOf(t), |s.world.bumps[c.StoreOf(t)]|, |s.world.falls[c.home[t]]|, query)
  }

  /** The two counters are read with nothing in between. */
  lemma TakesKey(c: Config, states: seq<State>, events: seq<Event>, t: Tid, query: Query)
    returns (ss: seq<State>, es: seq<Event>)
    requires Run(c, states, events)
    requires var s := states[|states| - 1]; t in s.threads && Counted(c, s.world, t) && s.threads[t] == Ready(query)
    ensures Run(c, ss, es) && states < ss
    ensures var s := states[|states| - 1]; ss[|ss| - 1] == Moved(s, t, Keyed(KeyNow(c, s, t, query)))
  {
    var s := states[|states| - 1];
    var s1 := Moved(s, t, Versioned(query, |s.world.bumps[c.StoreOf(t)]|));
    RunSnoc(c, states, events, s1, Looks(t, ReadShared));
    var s2 := Moved(s1, t, Keyed(KeyNow(c, s, t, query)));
    ss, es := states + [s1] + [s2], events + [Looks(t, ReadShared)] + [Looks(t, ReadLocal)];
    RunSnoc(c, states + [s1], events + [Looks(t, ReadShared)], s2, Looks(t, ReadLocal));
    assert s2.threads == s.threads[t := Keyed(KeyNow(c, s, t, query))];
  }

  /** A miss that leads, loads and keeps its answer. */
  lemma Fills(c: Config, states: seq<State>, events: seq<Event>, t: Tid, key: Key)
    returns (ss: seq<State>, es: seq<Event>)
    requires Run(c, states, events)
    requires
      var s := states[|states| - 1];
      && t in s.threads && Counted(c, s.world, t) && s.threads[t] == Keyed(key)
      && (c.home[t], key) !in s.flights && s.world.history != []
    ensures Run(c, ss, es) && states < ss
    ensures
      var s, s' := states[|states| - 1], ss[|ss| - 1];
      && s'.world == s.world && s'.cache == s.cache[key := c.answer(Latest(s.world), key.query)]
      && s'.threads == s.threads[t := Kept(key, Some(c.answer(Latest(s.world), key.query)))]
  {
    var s := states[|states| - 1];
    var value := c.answer(Latest(s.world), key.query);
    var s1 := Moved(s.(flights := s.flights[(c.home[t], key) := t]), t, Loading(key));
    RunSnoc(c, states, events, s1, Misses(t, Lead));
    var s2 := Moved(s1, t, Loaded(key, value));
    RunSnoc(c, states + [s1], events + [Misses(t, Lead)], s2, Misses(t, Load));
    var s3 := Moved(s2.(cache := s2.cache[key := value]), t, Kept(key, Some(value)));
    ss := states + [s1] + [s2] + [s3];
    es := events + [Misses(t, Lead)] + [Misses(t, Load)] + [Misses(t, Keep)];
    RunSnoc(c, states + [s1] + [s2], events + [Misses(t, Lead)] + [Misses(t, Load)], s3, Misses(t, Keep));
    assert s3.threads == s.threads[t := Kept(key, Some(value))];
  }

  /**
   * The promise that the local counter retires the writing process's keys fails in every
   * configuration where two processes share a store: when both fall back, their counters meet on
   * one key, and the second process reads the first one's entry after its own write.
   */
  lemma FallbackCountersMeet(c: Config, start: State, w0: Tid, r0: Tid, w1: Tid, r1: Tid, query: Query, db0: Db,
                             db1: Db)
    returns (states: seq<State>, events: seq<Event>, m: nat, index: nat, value: Json)
    requires c.Ok() && Init(c, start) && start.threads.Keys == c.home.Keys
    requires w0 in c.home && r0 in c.home && w1 in c.home && r1 in c.home && r0 != r1 && w0 != w1
    requires c.home[w0] == c.home[r0] != c.home[w1] == c.home[r1] && c.StoreOf(w0) == c.StoreOf(w1)
    requires start.threads[w0] == start.threads[w1] == Writing
    requires start.threads[r0] == start.threads[r1] == Ready(query)
    requires c.answer(db0, query) != c.answer(db1, query)
    ensures Run(c, states, events) && states[0] == start && m < |states|
    ensures r1 in states[m].threads && states[m].threads[r1] == Ready(query)
    ensures w1 in states[m].threads && states[m].threads[w1] == Written(index, false)
    ensures
      var last := states[|states| - 1];
      && r1 in last.threads && last.threads[r1] == Answered(query, Some(value))
      && !From(c, last.world, query, value, index)
  {
    var ss, es := FillsFirst(c, start, w0, r0, query, db0);
    var filled := ss[|ss| - 1];
    var key := Key(c.StoreOf(w0), 0, 1, query);
    value := c.answer(db0, query);
    ss, es := FallsBack(c, ss, es, w1, db1);
    m, index := |ss| - 1, |filled.world.history|;
    states, events := TakesKey(c, ss, es, r1, query);
    var s := states[|states| - 1];
    assert s.threads[r1] == Keyed(key) && s.cache[key] == value;
    var hit := Moved(s, r1, Answered(query, Some(value)));
    RunSnoc(c, states, events, hit, Looks(r1, Hit));
    states, events := states + [hit], events + [Looks(r1, Hit)];
    assert hit.world.history[index] == db1;
  }

  /** The first process falls back and then caches an answer under its first local count. */
  lemma FillsFirst(c: Config, start: State, w0: Tid, r0: Tid, query: Query, db0: Db)
    returns (ss: seq<State>, es: seq<Event>)
    requires c.Ok() && Init(c, start) && w0 in c.home && r0 in c.home && c.home[w0] == c.home[r0]
    requires start.threads[w0] == Writing && start.threads[r0] == Ready(query)
    ensures Run(c, ss, es) && [start] <= ss
    ensures
      var s, key := ss[|ss| - 1], Key(c.StoreOf(w0), 0, 1, query);
      && s.world.bumps == start.world.bumps && s.world.falls.Keys == start.world.falls.Keys
      && (forall p | p in start.world.falls && p != c.home[w0] :: s.world.falls[p] == [])
      && key in s.cache && s.cache[key] == c.answer(db0, query)
      && s.threads.Keys == start.threads.Keys
      && forall t | t in start.threads && t != w0 && t != r0 :: s.threads[t] == start.threads[t]
  {
    assert Run(c, [start], []);
    ss, es := FallsBack(c, [start], [], w0, db0);
    ss, es := TakesKey(c, ss, es, r0, query);
    ss, es := Fills(c, ss, es, r0, ss[|ss| - 1].threads[r0].key);
  }

  // ---------- exactly which configurations keep the fallback's promise ----------

  /**
   * A stale own read: t starts after u, in the same process, fell back for its write, and answers
   * from no state that includes the write.
   */
  ghost predicate OwnStale(c: Config, states: seq<State>, events: seq<Event>, m: nat, t: Tid, u: Tid,
                           query: Query, index: nat, value: Json)
  {
    && Run(c, states, events) && m < |states|
    && t in states[m].threads && states[m].threads[t] == Ready(query)
    && u in states[m].threads && states[m].threads[u] == Written(index, false)
    && t in c.home && u in c.home && c.home[t] == c.home[u]
    && var last := states[|states| - 1];
    t in last.threads && last.threads[t] == Answered(query, Some(value)) && !From(c, last.world, query, value, index)
  }

  ghost predicate OwnFallbackFresh(c: Config) {
    forall states, events, m, t, u, query, index, value ::
      !OwnStale(c, states, events, m, t, u, query, index, value)
  }

  /** No store serves two processes. */
  predicate Unshared(c: Config) {
    forall p, q | p in c.store && q in c.store && p != q :: c.store[p] != c.store[q]
  }

  /** The process has a thread to write with and one to read with. */
  ghost predicate Staffed(c: Config, p: Pid, w: Tid, r: Tid) {
    w in c.home && r in c.home && w != r && c.home[w] == p && c.home[r] == p
  }

  /** Some query tells two backend states apart, and every process can write and read. */
  ghost predicate Able(c: Config) {
    && c.Ok()
    && (exists query, db0, db1 :: c.answer(db0, query) != c.answer(db1, query))
    && forall p | p in c.store :: exists w, r :: Staffed(c, p, w, r)
  }

  lemma UnsharedIsFresh(c: Config, states: seq<State>, events: seq<Event>, m: nat, t: Tid, u: Tid,
                        query: Query, index: nat, value: Json)
    requires Unshared(c)
    ensures !OwnStale(c, states, events, m, t, u, query, index, value)
  {
    if OwnStale(c, states, events, m, t, u, query, index, value) {
      RunInv(c, states, events, m);
      assert ThreadOk(c, states[m], t);
      assert SoleFaller(c, states[|states| - 1].world, c.home[t]);
      ReadsSeeOwnFallback(c, states, events, m, |states| - 1, t, u, query, index, value);
    }
  }

  /** A first state: two writers about to write, everybody else about to ask. */
  ghost function StartWith(c: Config, w0: Tid, w1: Tid, query: Query): State {
    State(World([map[]], map p | p in c.store :: c.store[p] := [], map p | p in c.store :: []),
          map[], map[], map t | t in c.home :: if t == w0 || t == w1 then Writing else Ready(query))
  }

  lemma StartIsInit(c: Config, w0: Tid, w1: Tid, query: Query)
    ensures Init(c, StartWith(c, w0, w1, query))
  {
  }

  lemma StaffGoesStale(c: Config, w0: Tid, r0: Tid, w1: Tid, r1: Tid, query: Query, db0: Db, db1: Db)
    requires c.Ok() && w0 in c.home && w1 in c.home && c.home[w0] != c.home[w1]
    requires Staffed(c, c.home[w0], w0, r0) && Staffed(c, c.home[w1], w1, r1)
    requires c.StoreOf(w0) == c.StoreOf(w1) && c.answer(db0, query) != c.answer(db1, query)
    ensures !OwnFallbackFresh(c)
  {
    var start := StartWith(c, w0, w1, query);
    StartIsInit(c, w0, w1, query);
    var states, events, m, index, value := FallbackCountersMeet(c, start, w0, r0, w1, r1, query, db0, db1);
    assert OwnStale(c, states, events, m, r1, w1, query, index, value);
  }

  lemma SharedGoesStale(c: Config, p: Pid, q: Pid)
    requires Able(c) && p in c.store && q in c.store && p != q && c.store[p] == c.store[q]
    ensures !OwnFallbackFresh(c)
  {
    var query, db0, db1 :| c.answer(db0, query) != c.answer(db1, query);
    var w0, r0 :| Staffed(c, p, w0, r0);
    var w1, r1 :| Staffed(c, q, w1, r1);
    StaffGoesStale(c, w0, r0, w1, r1, query, db0, db1);
  }

  /**
   * The promise of the local counter, configuration by configuration: in every run, a read that
   * starts after its own process fell back sees the write, if and only if no two processes share
   * a store.
   */
  lemma OwnFallbackExact(c: Config)
    requires Able(c)
    ensures OwnFallbackFresh(c) <==> Unshared(c)
  {
    if Unshared(c) {
      forall states, events, m, t, u, query, index, value
        ensures !OwnStale(c, states, events, m, t, u, query, index, value)
      {
        UnsharedIsFresh(c, states, events, m, t, u, query, index, value);
      }
    } else {
      var p, q :| p in c.store && q in c.store && p != q && c.store[p] == c.store[q];
      SharedGoesStale(c, p, q);
    }
  }
}
