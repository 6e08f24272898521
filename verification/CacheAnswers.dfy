/** What a cached read answers: the value it loaded or followed, and nothing only for a reason. */
module CacheAnswers {
  import opened Wrappers
  import opened JsonValue
  import opened CacheProtocol
  import opened CacheTheorems

  // ---------- what was loaded is what is answered ----------

  /** The thread holds this value for this key, on its way to the caller or there. */
  predicate Carries(pc: Pc, key: Key, value: Json) {
    || pc == Loaded(key, value)
    || pc == Kept(key, Some(value))
    || pc == Fetched(key, value)
    || pc == Answered(key.query, Some(value))
  }

  lemma LookupCarries(c: Config, s: State, s': State, t: Tid, e: Lookup, u: Tid, key: Key, value: Json)
    requires t in s.threads && Counted(c, s.world, t) && LookupStep(c, s, s', t, e)
    requires u in s.threads && Carries(s.threads[u], key, value)
    ensures u in s'.threads && Carries(s'.threads[u], key, value)
  {
  }

  lemma MissCarries(c: Config, s: State, s': State, t: Tid, e: Miss, u: Tid, key: Key, value: Json)
    requires t in s.threads && Counted(c, s.world, t) && MissStep(c, s, s', t, e)
    requires u in s.threads && Carries(s.threads[u], key, value)
    ensures u in s'.threads && Carries(s'.threads[u], key, value)
  {
  }

  lemma LoneCarries(c: Config, s: State, s': State, t: Tid, e: Lone, u: Tid, key: Key, value: Json)
    requires t in s.threads && Counted(c, s.world, t) && LoneStep(c, s, s', t, e)
    requires u in s.threads && Carries(s.threads[u], key, value)
    ensures u in s'.threads && Carries(s'.threads[u], key, value)
  {
  }

  lemma WriteCarries(c: Config, s: State, s': State, t: Tid, e: Write, u: Tid, key: Key, value: Json)
    requires t in s.threads && Counted(c, s.world, t) && WriteStep(c, s, s', t, e)
    requires u in s.threads && Carries(s.threads[u], key, value)
    ensures u in s'.threads && Carries(s'.threads[u], key, value)
  {
  }

  lemma CarriesOn(c: Config, s: State, s': State, e: Event, u: Tid, key: Key, value: Json)
    requires Step(c, s, s', e) && u in s.threads && Carries(s.threads[u], key, value)
    ensures u in s'.threads && Carries(s'.threads[u], key, value)
  {
    match e
    case Looks(t, lookup) => LookupCarries(c, s, s', t, lookup, u, key, value);
    case Misses(t, miss) => MissCarries(c, s, s', t, miss, u, key, value);
    case Batches(t, lone) => LoneCarries(c, s, s', t, lone, u, key, value);
    case Writes(t, write) => WriteCarries(c, s, s', t, write, u, key, value);
    case Drop(_) =>
  }

  lemma {:induction false} CarriedOn(c: Config, states: seq<State>, events: seq<Event>, m: nat, n: nat, t: Tid,
                                     key: Key, value: Json)
    requires Run(c, states, events) && m <= n < |states|
    requires t in states[m].threads && Carries(states[m].threads[t], key, value)
    ensures t in states[n].threads && Carries(states[n].threads[t], key, value)
    decreases n - m
  {
    if m < n {
      CarriedOn(c, states, events, m, n - 1, t, key, value);
      CarriesOn(c, states[n - 1], states[n], events[n - 1], t, key, value);
    }
  }

  /** A load, a batch's fetch or an uncached read that succeeds. */
  predicate LoadsAt(e: Event, t: Tid) {
    e == Misses(t, Load) || e == Batches(t, Fetch) || e == Looks(t, ReadUncached)
  }

  /** A load, a fetch or an uncached read that fails. */
  predicate FailsAt(e: Event, t: Tid) {
    e == Misses(t, LoadFails) || e == Batches(t, FetchFails) || e == Looks(t, UncachedFails)
  }

  /** The key a thread loads; an uncached read has none, and any with its question will do. */
  function KeyOf(pc: Pc): Key {
    match pc
    case Loading(key) => key
    case Alone(key) => key
    case Uncached(query) => Key(0, 0, 0, query)
    case _ => Key(0, 0, 0, Find(""))
  }

  /**
   * In every run a read that loaded, leading a flight, alone in a batch or past the cache, answers
   * what the backend said at that moment, whether or not the entry could be kept.
   */
  lemma LoadedIsAnswered(c: Config, states: seq<State>, events: seq<Event>, m: nat, n: nat, t: Tid)
    requires Run(c, states, events) && m < n < |states| && LoadsAt(events[m], t)
    requires t in states[n].threads && states[n].threads[t].Answered?
    ensures states[m].world.history != []
    ensures
      var r := states[n].threads[t];
      r.result == Some(c.answer(Latest(states[m].world), r.query))
  {
    var s := states[m];
    assert Step(c, s, states[m + 1], events[m]);
    var key := KeyOf(s.threads[t]);
    CarriedOn(c, states, events, m + 1, n, t, key, c.answer(Latest(s.world), key.query));
  }

  /** A follower answers what its leader loaded. */
  lemma FollowedIsAnswered(c: Config, states: seq<State>, events: seq<Event>, j: nat, i: nat, n: nat, t: Tid)
    requires Run(c, states, events) && j < i < n < |states|
    requires events[i] == Misses(t, Follow) && t in states[i].threads && states[i].threads[t].Waiting?
    requires LoadsAt(events[j], states[i].threads[t].leader)
    requires t in states[n].threads && states[n].threads[t].Answered?
    ensures states[j].world.history != []
    ensures
      var r := states[n].threads[t];
      r.result == Some(c.answer(Latest(states[j].world), r.query))
  {
    var s, key, u := states[i], states[i].threads[t].key, states[i].threads[t].leader;
    assert Step(c, s, states[i + 1], events[i]);
    LoadedIsAnswered(c, states, events, j, i, u);
    RunInv(c, states, events, i);
    assert ThreadOk(c, s, t) && LeaderOk(c, s, u, key, c.home[t]);
    var value := c.answer(Latest(states[j].world), key.query);
    assert Carries(states[i + 1].threads[t], key, value);
    CarriedOn(c, states, events, i + 1, n, t, key, value);
  }

  // ---------- an answer without a value has a reason ----------

  /** Where a thread stands says whether it has led, and a leader without a value has failed. */
  predicate Trail(past: seq<Event>, pc: Pc, t: Tid) {
    var led := Misses(t, Lead) in past;
    match pc
    case Loading(_) => led
    case Loaded(_, _) => led
    case Kept(_, result) => led && (result.None? ==> Misses(t, LoadFails) in past)
    case Waiting(_, u) => !led && Misses(u, Lead) in past
    case Answered(_, result) => led && result.None? ==> Misses(t, LoadFails) in past
    case _ => !led
  }

  ghost predicate Trails(past: seq<Event>, s: State) {
    && (forall f | f in s.flights :: Misses(s.flights[f], Lead) in past)
    && forall t | t in s.threads :: Trail(past, s.threads[t], t)
  }

  lemma TrailLater(past: seq<Event>, pc: Pc, t: Tid, e: Event)
    requires Trail(past, pc, t) && e != Misses(t, Lead)
    ensures Trail(past + [e], pc, t)
  {
    assert Misses(t, Lead) in past + [e] <==> Misses(t, Lead) in past;
  }

  lemma TrailMiss(c: Config, past: seq<Event>, s: State, s': State, t: Tid, e: Miss)
    requires Trails(past, s) && t in s.threads && Counted(c, s.world, t) && MissStep(c, s, s', t, e)
    ensures Trail(past + [Misses(t, e)], s'.threads[t], t)
  {
    assert Trail(past, s.threads[t], t);
    assert Misses(t, e) in past + [Misses(t, e)];
    if e != Lead {
      assert Misses(t, Lead) in past + [Misses(t, e)] <==> Misses(t, Lead) in past;
    }
  }

  lemma TrailLookup(c: Config, past: seq<Event>, s: State, s': State, t: Tid, e: Lookup)
    requires Trails(past, s) && t in s.threads && Counted(c, s.world, t) && LookupStep(c, s, s', t, e)
    ensures Trail(past + [Looks(t, e)], s'.threads[t], t)
  {
    assert Trail(past, s.threads[t], t);
    assert Misses(t, Lead) in past + [Looks(t, e)] <==> Misses(t, Lead) in past;
  }

  lemma TrailLone(c: Config, past: seq<Event>, s: State, s': State, t: Tid, e: Lone)
    requires Trails(past, s) && t in s.threads && Counted(c, s.world, t) && LoneStep(c, s, s', t, e)
    ensures Trail(past + [Batches(t, e)], s'.threads[t], t)
  {
    assert Trail(past, s.threads[t], t);
    assert Misses(t, Lead) in past + [Batches(t, e)] <==> Misses(t, Lead) in past;
  }

  lemma TrailWrite(c: Config, past: seq<Event>, s: State, s': State, t: Tid, e: Write)
    requires Trails(past, s) && t in s.threads && Counted(c, s.world, t) && WriteStep(c, s, s', t, e)
    ensures Trail(past + [Writes(t, e)], s'.threads[t], t)
  {
    assert Trail(past, s.threads[t], t);
    assert Misses(t, Lead) in past + [Writes(t, e)] <==> Misses(t, Lead) in past;
  }

  /** What a step leaves alone: other threads, and the flights but for the leader's own. */
  ghost predicate Touches(s: State, s': State, t: Tid, e: Event) {
    && s'.threads.Keys == s.threads.Keys
    && (forall u | u in s.threads && u != t :: s'.threads[u] == s.threads[u])
    && forall f | f in s'.flights ::
         (f in s.flights && s'.flights[f] == s.flights[f]) || e == Misses(s'.flights[f], Lead)
  }

  lemma MissTouches(c: Config, s: State, s': State, t: Tid, e: Miss)
    requires t in s.threads && Counted(c, s.world, t) && MissStep(c, s, s', t, e)
    ensures Touches(s, s', t, Misses(t, e))
  {
  }

  lemma StepTouches(c: Config, s: State, s': State, e: Event)
    requires Step(c, s, s', e) && !e.Drop?
    ensures Touches(s, s', e.t, e)
  {
    if e.Misses? {
      MissTouches(c, s, s', e.t, e.miss);
    }
  }

  lemma StepTrails(c: Config, past: seq<Event>, s: State, s': State, e: Event)
    requires Trails(past, s) && Step(c, s, s', e)
    ensures Trails(past + [e], s')
  {
    if !e.Drop? {
      StepTouches(c, s, s', e);
    }
    forall u | u in s'.threads ensures Trail(past + [e], s'.threads[u], u) {
      if e.Drop? || u != e.t {
        TrailLater(past, s.threads[u], u, e);
      } else {
        match e
        case Looks(t, lookup) => TrailLookup(c, past, s, s', t, lookup);
        case Misses(t, miss) => TrailMiss(c, past, s, s', t, miss);
        case Batches(t, lone) => TrailLone(c, past, s, s', t, lone);
        case Writes(t, write) => TrailWrite(c, past, s, s', t, write);
      }
    }
  }

  lemma {:induction false} RunTrails(c: Config, states: seq<State>, events: seq<Event>, n: nat)
    requires Run(c, states, events) && n < |states|
    ensures Trails(events[..n], states[n])
  {
    if n > 0 {
      RunTrails(c, states, events, n - 1);
      StepTrails(c, events[..n - 1], states[n - 1], states[n], events[n - 1]);
      assert events[..n] == events[..n - 1] + [events[n - 1]];
    }
  }

  /** Why a read may come back without a value: it failed, gave up, or its leader's load failed. */
  ghost predicate Excused(states: seq<State>, events: seq<Event>, n: nat, t: Tid)
    requires n <= |events| <= |states|
  {
    || (exists i | 0 <= i < n :: FailsAt(events[i], t))
    || Misses(t, GiveUp) in events[..n]
    || exists i | 0 <= i < n ::
         events[i] == Misses(t, Follow) && t in states[i].threads && states[i].threads[t].Waiting?
         && Misses(states[i].threads[t].leader, LoadFails) in events[..i]
  }

  lemma ExcusedLater(states: seq<State>, events: seq<Event>, n: nat, t: Tid)
    requires n < |events| <= |states| && Excused(states, events, n, t)
    ensures Excused(states, events, n + 1, t)
  {
    assert events[..n + 1] == events[..n] + [events[n]];
  }

  lemma NoneAt(c: Config, states: seq<State>, events: seq<Event>, k: nat, t: Tid)
    requires Run(c, states, events) && k < |events| && t in states[k].threads && t in states[k + 1].threads
    requires states[k + 1].threads[t].Answered? && states[k + 1].threads[t].result.None?
    requires states[k].threads[t] != states[k + 1].threads[t]
    ensures Excused(states, events, k + 1, t)
  {
    var s, e := states[k], events[k];
    assert Step(c, s, states[k + 1], e);
    if !e.Drop? {
      StepTouches(c, s, states[k + 1], e);
    }
    RunTrails(c, states, events, k);
    assert Trail(events[..k], s.threads[t], t);
    assert events[..k + 1] == events[..k] + [e];
    NoneStep(c, s, states[k + 1], e, t);
    if e == Misses(t, Follow) {
      assert Trail(events[..k], s.threads[s.threads[t].leader], s.threads[t].leader);
    } else if e == Misses(t, Publish) {
      var i :| 0 <= i < k && events[i] == Misses(t, LoadFails);
      assert FailsAt(events[i], t);
    }
  }

  /** The steps that can end a read without a value. */
  lemma NoneStep(c: Config, s: State, s': State, e: Event, t: Tid)
    requires Step(c, s, s', e) && t in s.threads && t in s'.threads && !e.Drop? && e.t == t
    requires s'.threads[t].Answered? && s'.threads[t].result.None?
    ensures e in {Misses(t, Publish), Misses(t, Follow), Misses(t, GiveUp), Batches(t, FetchFails),
                  Looks(t, UncachedFails)}
    ensures e == Misses(t, Publish) ==> s.threads[t].Kept? && s.threads[t].result.None?
    ensures e == Misses(t, Follow) ==>
      && s.threads[t].Waiting? && s.threads[t].leader in s.threads
      && s.threads[s.threads[t].leader].Answered? && s.threads[s.threads[t].leader].result.None?
  {
  }

  /**
   * In every run a read that ends without a value had its own load, fetch or uncached read fail, gave
   * up waiting, or followed a leader whose load had failed. Any other read answers a value.
   */
  lemma {:induction false} NoneHasAReason(c: Config, states: seq<State>, events: seq<Event>, n: nat, t: Tid)
    requires Run(c, states, events) && n < |states| && t in states[n].threads
    requires states[n].threads[t].Answered? && states[n].threads[t].result.None?
    ensures Excused(states, events, n, t)
  {
    if n > 0 {
      var k := n - 1;
      assert Step(c, states[k], states[n], events[k]);
      if !events[k].Drop? {
        StepTouches(c, states[k], states[n], events[k]);
      }
      if states[k].threads[t] == states[n].threads[t] {
        NoneHasAReason(c, states, events, k, t);
        ExcusedLater(states, events, k, t);
      } else {
        NoneAt(c, states, events, k, t);
      }
    }
  }

  // ---------- what is kept is there ----------

  /** An entry a read stored stays under its key until the cache drops it. */
  lemma {:induction false} KeptUntilDropped(c: Config, states: seq<State>, events: seq<Event>, m: nat, n: nat, t: Tid)
    requires Run(c, states, events) && m < n < |states|
    requires events[m] == Misses(t, Keep) || events[m] == Batches(t, StoreLate)
    requires t in states[m].threads && (states[m].threads[t].Loaded? || states[m].threads[t].Fetched?)
    requires forall i | m < i < n :: events[i] != Drop(states[m].threads[t].key)
    ensures states[m].threads[t].key in states[n].cache
    decreases n
  {
    var key := states[m].threads[t].key;
    assert Step(c, states[n - 1], states[n], events[n - 1]);
    if n > m + 1 {
      KeptUntilDropped(c, states, events, m, n - 1, t);
      StoredStays(c, states[n - 1], states[n], events[n - 1], key);
    }
  }

  lemma StoredStays(c: Config, s: State, s': State, e: Event, key: Key)
    requires Step(c, s, s', e) && key in s.cache && e != Drop(key)
    ensures key in s'.cache
  {
  }
}
