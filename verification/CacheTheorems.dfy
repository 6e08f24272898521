/** Every read that starts after a write finished answers from a state that includes the write. */
module CacheTheorems {
  import opened JsonValue
  import opened CacheProtocol

  // ---------- counters and history only grow ----------

  ghost predicate Grows(w: World, w': World) {
    && w.history <= w'.history
    && w.bumps.Keys == w'.bumps.Keys && w.falls.Keys == w'.falls.Keys
    && (forall st | st in w.bumps :: w.bumps[st] <= w'.bumps[st])
    && (forall p | p in w.falls :: w.falls[p] <= w'.falls[p])
  }

  lemma FromGrows(c: Config, w: World, w': World, query: Query, value: Json, floor: nat)
    requires w.history <= w'.history && From(c, w, query, value, floor)
    ensures From(c, w', query, value, floor)
  {
    var i :| floor <= i < |w.history| && value == c.answer(w.history[i], query);
    assert w'.history[i] == w.history[i];
  }

  lemma ReachedGrows(c: Config, w: World, w': World, key: Key, p: Pid)
    requires Grows(w, w') && Reached(c, w, key, p)
    ensures Reached(c, w', key, p) && Floor(w', key, p) == Floor(w, key, p)
  {
    assert w'.bumps[key.store][..key.shared] == w.bumps[key.store][..key.shared];
    assert w'.falls[p][..key.local] == w.falls[p][..key.local];
  }

  lemma FreshGrows(c: Config, w: World, w': World, key: Key, value: Json, p: Pid)
    requires Grows(w, w') && Fresh(c, w, key, value, p)
    ensures Fresh(c, w', key, value, p)
  {
    ReachedGrows(c, w, w', key, p);
    FromGrows(c, w, w', key.query, value, Floor(w, key, p));
  }

  /** A value read from the backend now is fresh under every key reached so far. */
  lemma ReadNowIsFresh(c: Config, w: World, key: Key, p: Pid)
    requires CountersOk(c, w) && Reached(c, w, key, p)
    ensures Fresh(c, w, key, c.answer(Latest(w), key.query), p)
  {
    var floor := Floor(w, key, p);
    var bumps, falls := w.bumps[key.store], w.falls[p];
    if floor > 0 {
      assert floor in bumps[..key.shared] || floor in falls[..key.local];
      assert floor in bumps || floor in falls;
      assert Behind(bumps, |w.history|) && Behind(falls, |w.history|);
    }
    assert w.history[|w.history| - 1] == Latest(w);
  }

  // ---------- one thread's step ----------

  /** What a step of thread t leaves, whatever the step was. */
  ghost predicate Moves(c: Config, s: State, s': State, t: Tid) {
    && Grows(s.world, s'.world) && CountersOk(c, s'.world)
    && t in s.threads && s'.threads.Keys == s.threads.Keys
    && (forall u | u in s.threads && u != t :: s'.threads[u] == s.threads[u])
    && Counted(c, s'.world, t) && PcOk(c, s'.world, t, s'.threads[t])
    && LeadsOn(c, s, s', t)
    && (s'.threads[t].Waiting? ==> LeaderOk(c, s, s'.threads[t].leader, s'.threads[t].key, c.home[t]))
    && (s'.threads[t].Answered? ==> forall f | f in s'.flights :: s'.flights[f] != t)
    && (forall f | f in s'.flights :: (f in s.flights && s'.flights[f] == s.flights[f])
                                   || (s'.flights[f] == t && LeaderOk(c, s', t, f.1, f.0)))
    && (forall key | key in s'.cache :: (key in s.cache && s'.cache[key] == s.cache[key])
                                     || EntryOk(c, s'.world, key, s'.cache[key]))
  }

  /** A leader that moves still leads, or has answered with what it loaded. */
  ghost predicate LeadsOn(c: Config, s: State, s': State, t: Tid)
    requires t in s.threads && t in s'.threads
  {
    forall key, p :: t in c.home && c.home[t] == p && Leads(c, s.world, s.threads[t], key, p)
                     ==> Leads(c, s'.world, s'.threads[t], key, p)
  }

  lemma LeaderKeeps(c: Config, s: State, s': State, t: Tid, leader: Tid, key: Key, p: Pid)
    requires Moves(c, s, s', t) && LeaderOk(c, s, leader, key, p)
    ensures LeaderOk(c, s', leader, key, p)
  {
    if leader != t {
      LeadsGrows(c, s.world, s'.world, s.threads[leader], key, p);
    }
  }

  lemma LeadsGrows(c: Config, w: World, w': World, pc: Pc, key: Key, p: Pid)
    requires Grows(w, w') && Leads(c, w, pc, key, p)
    ensures Leads(c, w', pc, key, p)
  {
    if pc.Answered? && pc.result.Some? {
      FreshGrows(c, w, w', key, pc.result.value, p);
    }
  }

  lemma PcGrows(c: Config, w: World, w': World, t: Tid, pc: Pc)
    requires Grows(w, w') && Counted(c, w, t) && PcOk(c, w, t, pc)
    ensures Counted(c, w', t) && PcOk(c, w', t, pc)
  {
    var p := c.home[t];
    match pc
    case Keyed(key) => ReachedGrows(c, w, w', key, p);
    case Loading(key) => ReachedGrows(c, w, w', key, p);
    case Loaded(key, value) => FreshGrows(c, w, w', key, value, p);
    case Kept(key, result) =>
      ReachedGrows(c, w, w', key, p);
      if result.Some? { FreshGrows(c, w, w', key, result.value, p); }
    case Waiting(key, _) => ReachedGrows(c, w, w', key, p);
    case Alone(key) => ReachedGrows(c, w, w', key, p);
    case Fetched(key, value) => FreshGrows(c, w, w', key, value, p);
    case _ =>
  }

  lemma MovesKeepCache(c: Config, s: State, s': State, t: Tid)
    requires CacheOk(c, s.world, s.cache) && Moves(c, s, s', t)
    ensures CacheOk(c, s'.world, s'.cache)
  {
    forall key | key in s'.cache ensures EntryOk(c, s'.world, key, s'.cache[key]) {
      if key in s.cache && s'.cache[key] == s.cache[key] {
        assert EntryOk(c, s.world, key, s.cache[key]);
        var p :| Fresh(c, s.world, key, s.cache[key], p);
        FreshGrows(c, s.world, s'.world, key, s.cache[key], p);
      }
    }
  }

  lemma MovesKeepFlights(c: Config, s: State, s': State, t: Tid)
    requires FlightsOk(c, s) && Moves(c, s, s', t)
    ensures FlightsOk(c, s')
  {
    forall f | f in s'.flights
      ensures LeaderOk(c, s', s'.flights[f], f.1, f.0) && !s'.threads[s'.flights[f]].Answered?
    {
      if f in s.flights && s'.flights[f] == s.flights[f] {
        LeaderKeeps(c, s, s', t, s.flights[f], f.1, f.0);
      }
    }
  }

  lemma MovesInv(c: Config, s: State, s': State, t: Tid)
    requires Inv(c, s) && Moves(c, s, s', t)
    ensures Inv(c, s')
  {
    MovesKeepCache(c, s, s', t);
    MovesKeepFlights(c, s, s', t);
    forall u | u in s'.threads ensures ThreadOk(c, s', u) {
      assert ThreadOk(c, s, u);
      if u != t {
        PcGrows(c, s.world, s'.world, u, s.threads[u]);
      }
      if s'.threads[u].Waiting? {
        LeaderKeeps(c, s, s', t, s'.threads[u].leader, s'.threads[u].key, c.home[u]);
      }
    }
  }

  // ---------- every step is one ----------

  /** A step that changes only the thread's own place. */
  lemma OnlyMoves(c: Config, s: State, s': State, t: Tid, pc: Pc)
    requires Inv(c, s) && t in s.threads && Counted(c, s.world, t) && s' == Moved(s, t, pc)
    requires PcOk(c, s.world, t, pc) && LeadsOn(c, s, s', t)
    requires pc.Waiting? ==> LeaderOk(c, s, pc.leader, pc.key, c.home[t])
    requires pc.Answered? ==> forall f | f in s.flights :: s.flights[f] != t
    ensures Moves(c, s, s', t)
  {
  }

  lemma LookupMoves(c: Config, s: State, s': State, t: Tid, e: Lookup)
    requires Inv(c, s) && t in s.threads && Counted(c, s.world, t) && LookupStep(c, s, s', t, e)
    ensures Moves(c, s, s', t)
  {
    assert ThreadOk(c, s, t);
    NotInFlight(c, s, t);
    OnlyMoves(c, s, s', t, s'.threads[t]);
  }

  /** A thread that does not lead is in no flight. */
  lemma NotInFlight(c: Config, s: State, t: Tid)
    requires FlightsOk(c, s) && t in s.threads
    requires !s.threads[t].Loading? && !s.threads[t].Loaded? && !s.threads[t].Kept?
    ensures forall f | f in s.flights :: s.flights[f] != t
  {
    forall f | f in s.flights ensures s.flights[f] != t {
      assert LeaderOk(c, s, s.flights[f], f.1, f.0);
    }
  }

  /** A thread about to publish is in one flight, its own. */
  lemma LeadsOnly(c: Config, s: State, t: Tid)
    requires FlightsOk(c, s) && t in s.threads && t in c.home && s.threads[t].Kept?
    ensures forall f | f in s.flights && s.flights[f] == t :: f == (c.home[t], s.threads[t].key)
  {
    forall f | f in s.flights && s.flights[f] == t ensures f == (c.home[t], s.threads[t].key) {
      assert LeaderOk(c, s, s.flights[f], f.1, f.0);
    }
  }

  /** A thread that registers leads. */
  lemma LeadMoves(c: Config, s: State, s': State, t: Tid)
    requires Inv(c, s) && t in s.threads && Counted(c, s.world, t) && MissStep(c, s, s', t, Lead)
    ensures Moves(c, s, s', t)
  {
    assert ThreadOk(c, s, t);
  }

  /** A leader leaves with its result, and its flight goes. */
  lemma PublishMoves(c: Config, s: State, s': State, t: Tid)
    requires Inv(c, s) && t in s.threads && Counted(c, s.world, t) && MissStep(c, s, s', t, Publish)
    ensures Moves(c, s, s', t)
  {
    assert ThreadOk(c, s, t);
    LeadsOnly(c, s, t);
  }

  /** A leader's step on the way to its result. */
  lemma LoadMoves(c: Config, s: State, s': State, t: Tid, e: Miss)
    requires Inv(c, s) && t in s.threads && Counted(c, s.world, t) && MissStep(c, s, s', t, e)
    requires e.Load? || e.LoadFails? || e.TooLarge?
    ensures Moves(c, s, s', t)
  {
    assert ThreadOk(c, s, t);
    if e.Load? {
      ReadNowIsFresh(c, s.world, s.threads[t].key, c.home[t]);
    }
    OnlyMoves(c, s, s', t, s'.threads[t]);
  }

  lemma KeepMoves(c: Config, s: State, s': State, t: Tid)
    requires Inv(c, s) && t in s.threads && Counted(c, s.world, t) && MissStep(c, s, s', t, Keep)
    ensures Moves(c, s, s', t)
  {
    assert ThreadOk(c, s, t);
    assert EntryOk(c, s.world, s.threads[t].key, s.threads[t].value);
  }

  lemma FollowMoves(c: Config, s: State, s': State, t: Tid, e: Miss)
    requires Inv(c, s) && t in s.threads && Counted(c, s.world, t) && MissStep(c, s, s', t, e)
    requires e.Join? || e.Follow? || e.GiveUp?
    ensures Moves(c, s, s', t)
  {
    assert ThreadOk(c, s, t);
    NotInFlight(c, s, t);
    if e.Join? {
      var f := (c.home[t], s.threads[t].key);
      assert LeaderOk(c, s, s.flights[f], f.1, f.0);
    }
    OnlyMoves(c, s, s', t, s'.threads[t]);
  }

  lemma MissMoves(c: Config, s: State, s': State, t: Tid, e: Miss)
    requires Inv(c, s) && t in s.threads && Counted(c, s.world, t) && MissStep(c, s, s', t, e)
    ensures Moves(c, s, s', t)
  {
    if e.Lead? {
      LeadMoves(c, s, s', t);
    } else if e.Publish? {
      PublishMoves(c, s, s', t);
    } else if e.Keep? {
      KeepMoves(c, s, s', t);
    } else if e.Load? || e.LoadFails? || e.TooLarge? {
      LoadMoves(c, s, s', t, e);
    } else {
      FollowMoves(c, s, s', t, e);
    }
  }

  /** A late store beside any flight: the entry is fresh for its key, whoever else loads that key. */
  lemma StoreLateMoves(c: Config, s: State, s': State, t: Tid)
    requires Inv(c, s) && t in s.threads && Counted(c, s.world, t) && LoneStep(c, s, s', t, StoreLate)
    ensures Moves(c, s, s', t)
  {
    var key, value := s.threads[t].key, s.threads[t].value;
    assert ThreadOk(c, s, t);
    NotInFlight(c, s, t);
    assert EntryOk(c, s.world, key, value);
    var left := Moved(s, t, s'.threads[t]);
    OnlyMoves(c, s, left, t, s'.threads[t]);
    StoreMoves(c, s, left, s', t, key, value);
  }

  /** A fresh entry put into the cache besides. */
  lemma StoreMoves(c: Config, s: State, left: State, s': State, t: Tid, key: Key, value: Json)
    requires Moves(c, s, left, t) && EntryOk(c, s.world, key, value)
    requires left.world == s.world && left.cache == s.cache && s' == left.(cache := s.cache[key := value])
    ensures Moves(c, s, s', t)
  {
  }

  lemma LoneMoves(c: Config, s: State, s': State, t: Tid, e: Lone)
    requires Inv(c, s) && t in s.threads && Counted(c, s.world, t) && LoneStep(c, s, s', t, e)
    ensures Moves(c, s, s', t)
  {
    if e.StoreLate? {
      StoreLateMoves(c, s, s', t);
    } else {
      assert ThreadOk(c, s, t);
      NotInFlight(c, s, t);
      if e.Fetch? {
        ReadNowIsFresh(c, s.world, s.threads[t].key, c.home[t]);
      }
      OnlyMoves(c, s, s', t, s'.threads[t]);
    }
  }

  lemma BehindMore(writes: seq<nat>, i: nat, n: nat)
    requires Behind(writes, n) && i < n
    ensures Behind(writes + [i], n)
  {
  }

  /** Moving a counter behind committed writes. */
  lemma WorldMoves(c: Config, w: World, w': World, t: Tid, i: nat)
    requires CountersOk(c, w) && Counted(c, w, t) && i < |w.history|
    requires w' == Bumped(w, c.StoreOf(t), i) || w' == Fallen(w, c.home[t], i)
    ensures Grows(w, w') && CountersOk(c, w') && Counted(c, w', t)
  {
    BehindMore(w.bumps[c.StoreOf(t)], i, |w.history|);
    BehindMore(w.falls[c.home[t]], i, |w.history|);
  }

  lemma CommitMoves(c: Config, w: World, w': World, db: Db)
    requires CountersOk(c, w) && w' == w.(history := w.history + [db])
    ensures Grows(w, w') && CountersOk(c, w')
  {
    forall st | st in w.bumps ensures Behind(w'.bumps[st], |w'.history|) {
      assert Behind(w.bumps[st], |w.history|);
    }
    forall p | p in w.falls ensures Behind(w'.falls[p], |w'.history|) {
      assert Behind(w.falls[p], |w.history|);
    }
  }

  /** A writer's step leaves the cache and the flights. */
  lemma WriterMoves(c: Config, s: State, s': State, t: Tid, pc: Pc)
    requires t in s.threads && s' == Moved(s.(world := s'.world), t, pc)
    requires Grows(s.world, s'.world) && CountersOk(c, s'.world) && Counted(c, s'.world, t)
    requires s.threads[t].Writing? || s.threads[t].Committed? || s.threads[t].Missed?
    requires pc.Committed? || pc.Missed? || pc.Written?
    requires PcOk(c, s'.world, t, pc)
    ensures Moves(c, s, s', t)
  {
  }

  lemma CommitKeeps(c: Config, s: State, s': State, t: Tid, db: Db)
    requires Inv(c, s) && t in s.threads && Counted(c, s.world, t) && WriteStep(c, s, s', t, Commit(db))
    ensures Moves(c, s, s', t)
  {
    CommitMoves(c, s.world, s'.world, db);
    WriterMoves(c, s, s', t, s'.threads[t]);
  }

  lemma BumpKeeps(c: Config, s: State, s': State, t: Tid)
    requires Inv(c, s) && t in s.threads && Counted(c, s.world, t) && WriteStep(c, s, s', t, Bump)
    ensures Moves(c, s, s', t)
  {
    assert ThreadOk(c, s, t);
    WorldMoves(c, s.world, s'.world, t, s.threads[t].index);
    WriterMoves(c, s, s', t, s'.threads[t]);
  }

  lemma BumpFailsKeeps(c: Config, s: State, s': State, t: Tid, applied: bool)
    requires Inv(c, s) && t in s.threads && Counted(c, s.world, t) && WriteStep(c, s, s', t, BumpFails(applied))
    ensures Moves(c, s, s', t)
  {
    assert ThreadOk(c, s, t);
    if applied {
      WorldMoves(c, s.world, s'.world, t, s.threads[t].index);
    }
    WriterMoves(c, s, s', t, s'.threads[t]);
  }

  lemma FallBackKeeps(c: Config, s: State, s': State, t: Tid)
    requires Inv(c, s) && t in s.threads && Counted(c, s.world, t) && WriteStep(c, s, s', t, FallBack)
    ensures Moves(c, s, s', t)
  {
    assert ThreadOk(c, s, t);
    WorldMoves(c, s.world, s'.world, t, s.threads[t].index);
    WriterMoves(c, s, s', t, s'.threads[t]);
  }

  lemma WriteMoves(c: Config, s: State, s': State, t: Tid, e: Write)
    requires Inv(c, s) && t in s.threads && Counted(c, s.world, t) && WriteStep(c, s, s', t, e)
    ensures Moves(c, s, s', t)
  {
    match e
    case Commit(db) => CommitKeeps(c, s, s', t, db);
    case Bump => BumpKeeps(c, s, s', t);
    case BumpFails(applied) => BumpFailsKeeps(c, s, s', t, applied);
    case FallBack => FallBackKeeps(c, s, s', t);
  }

  lemma StepInv(c: Config, s: State, s': State, e: Event)
    requires Inv(c, s) && Step(c, s, s', e)
    ensures Inv(c, s')
  {
    match e
    case Looks(t, lookup) =>
      LookupMoves(c, s, s', t, lookup);
      MovesInv(c, s, s', t);
    case Misses(t, miss) =>
      MissMoves(c, s, s', t, miss);
      MovesInv(c, s, s', t);
    case Batches(t, lone) =>
      LoneMoves(c, s, s', t, lone);
      MovesInv(c, s, s', t);
    case Writes(t, write) =>
      WriteMoves(c, s, s', t, write);
      MovesInv(c, s, s', t);
    case Drop(key) =>
      forall u | u in s'.threads ensures ThreadOk(c, s', u) {
        assert ThreadOk(c, s, u);
      }
  }

  lemma {:induction false} RunInv(c: Config, states: seq<State>, events: seq<Event>, n: nat)
    requires Run(c, states, events) && n < |states|
    ensures Inv(c, states[n])
  {
    if n > 0 {
      RunInv(c, states, events, n - 1);
      StepInv(c, states[n - 1], states[n], events[n - 1]);
    }
  }
}
