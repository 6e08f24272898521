/**
 * db/flight.go: concurrent misses on one key collapse into one load. Every section under the
 * mutex, every write to the call record and every channel operation is one atomic step.
 */
module Flight {
  import opened Wrappers

  type Tid = nat
  type CallId = nat

  datatype Loaded = Value(value: int) | Failed(error: int)

  /** The record a leader publishes through: its result, and whether its channel is closed. */
  datatype Call = Call(key: string, leader: Tid, result: Option<Loaded>, closed: bool)

  datatype Pc =
    | Calling(key: string)
    | Leading(call: CallId)
    | Holding(call: CallId, result: Loaded)
    | Assigned(call: CallId, result: Loaded)
    | Removed(call: CallId, result: Loaded)
    | Waiting(call: CallId)
    | Led(call: CallId, result: Loaded)
    | Followed(call: CallId, result: Loaded)
    | Cancelled(call: CallId)

  /** calls is the map under the mutex; heap holds every record ever made. */
  datatype State = State(calls: map<string, CallId>, heap: seq<Call>, threads: map<Tid, Pc>)

  datatype Event =
    | Enter(t: Tid)
    | Load(t: Tid, result: Loaded)
    | Assign(t: Tid)
    | Remove(t: Tid)
    | Close(t: Tid)
    | Wake(t: Tid)
    | Cancel(t: Tid)

  ghost predicate Init(s: State) {
    s.calls == map[] && s.heap == [] && forall t | t in s.threads :: s.threads[t].Calling?
  }

  /** Look the key up under the mutex: join the call that is there, or register a new one. */
  ghost predicate EnterStep(s: State, s': State, t: Tid) {
    && t in s.threads && s.threads[t].Calling?
    && var key := s.threads[t].key;
    if key in s.calls then s' == s.(threads := s.threads[t := Waiting(s.calls[key])])
    else s' == State(s.calls[key := |s.heap|], s.heap + [Call(key, t, None, false)], s.threads[t := Leading(|s.heap|)])
  }

  ghost predicate LoadStep(s: State, s': State, t: Tid, result: Loaded) {
    && t in s.threads && s.threads[t].Leading?
    && s' == s.(threads := s.threads[t := Holding(s.threads[t].call, result)])
  }

  ghost predicate AssignStep(s: State, s': State, t: Tid) {
    && t in s.threads && s.threads[t].Holding? && s.threads[t].call < |s.heap|
    && var pc := s.threads[t];
    s' == s.(heap := s.heap[pc.call := s.heap[pc.call].(result := Some(pc.result))],
             threads := s.threads[t := Assigned(pc.call, pc.result)])
  }

  /** Delete whatever the map holds under the key. */
  ghost predicate RemoveStep(s: State, s': State, t: Tid) {
    && t in s.threads && s.threads[t].Assigned? && s.threads[t].call < |s.heap|
    && var pc := s.threads[t];
    s' == s.(calls := s.calls - {s.heap[pc.call].key}, threads := s.threads[t := Removed(pc.call, pc.result)])
  }

  ghost predicate CloseStep(s: State, s': State, t: Tid) {
    && t in s.threads && s.threads[t].Removed? && s.threads[t].call < |s.heap|
    && var pc := s.threads[t];
    s' == s.(heap := s.heap[pc.call := s.heap[pc.call].(closed := true)],
             threads := s.threads[t := Led(pc.call, pc.result)])
  }

  /** A closed channel hands over what the record holds. */
  ghost predicate WakeStep(s: State, s': State, t: Tid) {
    && t in s.threads && s.threads[t].Waiting? && s.threads[t].call < |s.heap|
    && var call := s.heap[s.threads[t].call];
    && call.closed && call.result.Some?
    && s' == s.(threads := s.threads[t := Followed(s.threads[t].call, call.result.value)])
  }

  ghost predicate CancelStep(s: State, s': State, t: Tid) {
    && t in s.threads && s.threads[t].Waiting?
    && s' == s.(threads := s.threads[t := Cancelled(s.threads[t].call)])
  }

  ghost predicate Step(s: State, s': State, e: Event) {
    match e
    case Enter(t) => EnterStep(s, s', t)
    case Load(t, result) => LoadStep(s, s', t, result)
    case Assign(t) => AssignStep(s, s', t)
    case Remove(t) => RemoveStep(s, s', t)
    case Close(t) => CloseStep(s, s', t)
    case Wake(t) => WakeStep(s, s', t)
    case Cancel(t) => CancelStep(s, s', t)
  }

  ghost predicate Run(states: seq<State>, events: seq<Event>) {
    && |states| == |events| + 1 && Init(states[0])
    && forall i | 0 <= i < |events| :: Step(states[i], states[i + 1], events[i])
  }

  // ---------- what every run keeps ----------

  predicate Leads(pc: Pc) {
    pc.Leading? || pc.Holding? || pc.Assigned? || pc.Removed? || pc.Led?
  }

  /** The leader still has its call in the map. */
  predicate Registered(pc: Pc) {
    pc.Leading? || pc.Holding? || pc.Assigned?
  }

  /** A leader's record says exactly how far the leader has come. */
  ghost predicate RecordOk(s: State, id: CallId)
    requires id < |s.heap|
  {
    var call := s.heap[id];
    && call.leader in s.threads && Leads(s.threads[call.leader]) && s.threads[call.leader].call == id
    && var pc := s.threads[call.leader];
    && (call.closed <==> pc.Led?)
    && (call.result.Some? <==> pc.Assigned? || pc.Removed? || pc.Led?)
    && (call.result.Some? ==> call.result.value == pc.result)
    && (Registered(pc) ==> call.key in s.calls && s.calls[call.key] == id)
  }

  ghost predicate PcOk(s: State, t: Tid, pc: Pc) {
    match pc
    case Calling(_) => true
    case Waiting(id) => id < |s.heap|
    case Cancelled(id) => id < |s.heap|
    case Followed(id, result) => id < |s.heap| && s.heap[id].closed && s.heap[id].result == Some(result)
    case _ => pc.call < |s.heap| && s.heap[pc.call].leader == t
  }

  ghost predicate EntryOk(s: State, key: string)
    requires key in s.calls
  {
    var id := s.calls[key];
    && id < |s.heap| && s.heap[id].key == key && s.heap[id].leader in s.threads
    && Registered(s.threads[s.heap[id].leader])
  }

  ghost predicate Inv(s: State) {
    && (forall id: CallId | id < |s.heap| :: RecordOk(s, id))
    && (forall t | t in s.threads :: PcOk(s, t, s.threads[t]))
    && (forall key | key in s.calls :: EntryOk(s, key))
  }

  lemma EnterKeeps(s: State, s': State, t: Tid)
    requires Inv(s) && EnterStep(s, s', t)
    ensures Inv(s')
  {
    forall id: CallId | id < |s'.heap| ensures RecordOk(s', id) {
      if id < |s.heap| { assert RecordOk(s, id); }
    }
    forall u | u in s'.threads ensures PcOk(s', u, s'.threads[u]) {
      assert PcOk(s, u, s.threads[u]);
      if s.threads[t].key in s.calls { assert EntryOk(s, s.threads[t].key); }
    }
    forall key | key in s'.calls ensures EntryOk(s', key) {
      if key in s.calls { assert EntryOk(s, key); }
    }
  }

  /** A leader's step: its own record and its own entry move, the rest stay. */
  lemma LeaderKeeps(s: State, s': State, t: Tid)
    requires Inv(s) && t in s.threads && Leads(s.threads[t]) && !s.threads[t].Led?
    requires (exists r :: LoadStep(s, s', t, r)) || AssignStep(s, s', t) || RemoveStep(s, s', t) || CloseStep(s, s', t)
    ensures Inv(s')
  {
    var mine := s.threads[t].call;
    assert PcOk(s, t, s.threads[t]) && RecordOk(s, mine);
    forall id: CallId | id < |s'.heap| ensures RecordOk(s', id) {
      assert RecordOk(s, id);
    }
    forall u | u in s'.threads ensures PcOk(s', u, s'.threads[u]) {
      assert PcOk(s, u, s.threads[u]);
    }
    forall key | key in s'.calls ensures EntryOk(s', key) {
      assert EntryOk(s, key) && RecordOk(s, s.calls[key]);
    }
  }

  lemma FollowerKeeps(s: State, s': State, t: Tid)
    requires Inv(s) && (WakeStep(s, s', t) || CancelStep(s, s', t))
    ensures Inv(s')
  {
    assert PcOk(s, t, s.threads[t]);
    forall id: CallId | id < |s'.heap| ensures RecordOk(s', id) {
      assert RecordOk(s, id);
    }
    forall u | u in s'.threads ensures PcOk(s', u, s'.threads[u]) {
      assert PcOk(s, u, s.threads[u]);
    }
    forall key | key in s'.calls ensures EntryOk(s', key) {
      assert EntryOk(s, key);
    }
  }

  lemma StepInv(s: State, s': State, e: Event)
    requires Inv(s) && Step(s, s', e)
    ensures Inv(s')
  {
    match e
    case Enter(t) => EnterKeeps(s, s', t);
    case Load(t, result) => LeaderKeeps(s, s', t);
    case Wake(t) => FollowerKeeps(s, s', t);
    case Cancel(t) => FollowerKeeps(s, s', t);
    case _ => LeaderKeeps(s, s', e.t);
  }

  lemma {:induction false} RunInv(states: seq<State>, events: seq<Event>, n: nat)
    requires Run(states, events) && n < |states|
    ensures Inv(states[n])
  {
    if n > 0 {
      RunInv(states, events, n - 1);
      StepInv(states[n - 1], states[n], events[n - 1]);
    }
  }

  // ---------- the theorems ----------

  /** In no reachable state do two threads lead one key before their call leaves the map. */
  lemma OneLeaderPerKey(states: seq<State>, events: seq<Event>, n: nat, t: Tid, u: Tid)
    requires Run(states, events) && n < |states|
    requires t in states[n].threads && u in states[n].threads
    requires Registered(states[n].threads[t]) && Registered(states[n].threads[u])
    requires states[n].threads[t].call < |states[n].heap| && states[n].threads[u].call < |states[n].heap|
    requires states[n].heap[states[n].threads[t].call].key == states[n].heap[states[n].threads[u].call].key
    ensures t == u
  {
    var s := states[n];
    RunInv(states, events, n);
    assert PcOk(s, t, s.threads[t]) && PcOk(s, u, s.threads[u]);
    assert RecordOk(s, s.threads[t].call) && RecordOk(s, s.threads[u].call);
  }

  /** Every follower that was answered has what the leader it joined returned. */
  lemma FollowersAgree(states: seq<State>, events: seq<Event>, n: nat, t: Tid)
    requires Run(states, events) && n < |states| && t in states[n].threads && states[n].threads[t].Followed?
    ensures
      var s, pc := states[n], states[n].threads[t];
      && pc.call < |s.heap| && s.heap[pc.call].leader in s.threads
      && s.threads[s.heap[pc.call].leader] == Led(pc.call, pc.result)
  {
    RunInv(states, events, n);
    assert PcOk(states[n], t, states[n].threads[t]);
    assert RecordOk(states[n], states[n].threads[t].call);
  }

  /** A thread past its load holds what that load returned. */
  predicate FromLoad(past: seq<Event>, t: Tid, pc: Pc) {
    pc.Holding? || pc.Assigned? || pc.Removed? || pc.Led? ==> Load(t, pc.result) in past
  }

  lemma {:induction false} LeaderReturnsLoad(states: seq<State>, events: seq<Event>, n: nat, t: Tid)
    requires Run(states, events) && n < |states| && t in states[n].threads
    ensures FromLoad(events[..n], t, states[n].threads[t])
  {
    if n > 0 {
      var e := events[n - 1];
      assert Step(states[n - 1], states[n], e);
      LeaderReturnsLoad(states, events, n - 1, t);
      assert events[..n] == events[..n - 1] + [e];
    }
  }

  /** What a caller gets, leading or following, is what the load of its call's leader returned. */
  lemma AnswerWasLoaded(states: seq<State>, events: seq<Event>, n: nat, t: Tid)
    requires Run(states, events) && n < |states| && t in states[n].threads
    requires states[n].threads[t].Led? || states[n].threads[t].Followed?
    ensures
      var s, pc := states[n], states[n].threads[t];
      && pc.call < |s.heap| && (pc.Led? ==> s.heap[pc.call].leader == t)
      && Load(s.heap[pc.call].leader, pc.result) in events[..n]
  {
    RunInv(states, events, n);
    assert PcOk(states[n], t, states[n].threads[t]);
    if states[n].threads[t].Followed? {
      FollowersAgree(states, events, n, t);
    }
    LeaderReturnsLoad(states, events, n, states[n].heap[states[n].threads[t].call].leader);
  }

  /** A thread is on a call for this key. */
  predicate OnKey(s: State, t: Tid, key: string) {
    && t in s.threads && !s.threads[t].Calling?
    && s.threads[t].call < |s.heap| && s.heap[s.threads[t].call].key == key
  }

  lemma StaysOnKey(s: State, s': State, e: Event, t: Tid, key: string)
    requires Step(s, s', e) && OnKey(s, t, key)
    ensures OnKey(s', t, key)
  {
  }

  /** From the moment it entered, a caller is on a call for the key it asked for. */
  lemma {:induction false} CallsItsKey(states: seq<State>, events: seq<Event>, m: nat, n: nat, t: Tid)
    requires Run(states, events) && m < n < |states| && events[m] == Enter(t)
    ensures t in states[m].threads && states[m].threads[t].Calling?
    ensures OnKey(states[n], t, states[m].threads[t].key)
    decreases n
  {
    assert Step(states[m], states[m + 1], events[m]);
    if n == m + 1 {
      RunInv(states, events, m);
      if states[m].threads[t].key in states[m].calls {
        assert EntryOk(states[m], states[m].threads[t].key);
      }
    } else {
      CallsItsKey(states, events, m, n - 1, t);
      assert Step(states[n - 1], states[n], events[n - 1]);
      StaysOnKey(states[n - 1], states[n], events[n - 1], t, states[m].threads[t].key);
    }
  }

  predicate Done(pc: Pc) {
    pc.Led? || pc.Followed? || pc.Cancelled?
  }

  lemma OpenCallHasLeader(s: State)
    requires Inv(s)
    ensures s.calls == map[] || exists t :: t in s.threads && Registered(s.threads[t])
  {
    if key :| key in s.calls {
      assert EntryOk(s, key);
    }
  }

  /** When every call has returned the map is empty. */
  lemma NothingLeftBehind(states: seq<State>, events: seq<Event>, n: nat)
    requires Run(states, events) && n < |states|
    requires forall t | t in states[n].threads :: Done(states[n].threads[t]) || states[n].threads[t].Calling?
    ensures states[n].calls == map[]
  {
    RunInv(states, events, n);
    OpenCallHasLeader(states[n]);
  }

  /** A step some thread can take without being cancelled, if any call is still open. */
  function NextEvent(s: State, t: Tid, result: Loaded): Event
    requires t in s.threads
  {
    match s.threads[t]
    case Calling(_) => Enter(t)
    case Leading(_) => Load(t, result)
    case Holding(_, _) => Assign(t)
    case Assigned(_, _) => Remove(t)
    case Removed(_, _) => Close(t)
    case _ => Wake(t)
  }

  /** Who a thread depends on: itself, or the leader of the open call it waits for. */
  function Mover(s: State, t: Tid): Tid
    requires t in s.threads
  {
    var pc := s.threads[t];
    if pc.Waiting? && pc.call < |s.heap| && !s.heap[pc.call].closed then s.heap[pc.call].leader else t
  }

  /**
   * No follower waits for a channel nobody will close: whatever a thread that has not returned
   * depends on can take its next step now, with any result the load brings.
   */
  lemma NobodyIsStuck(states: seq<State>, events: seq<Event>, n: nat, t: Tid, result: Loaded) returns (s': State)
    requires Run(states, events) && n < |states| && t in states[n].threads && !Done(states[n].threads[t])
    ensures Mover(states[n], t) in states[n].threads
    ensures Step(states[n], s', NextEvent(states[n], Mover(states[n], t), result))
  {
    var s := states[n];
    RunInv(states, events, n);
    assert PcOk(s, t, s.threads[t]);
    if s.threads[t].Waiting? {
      assert RecordOk(s, s.threads[t].call);
    }
    s' := StepOf(s, Mover(s, t), result);
  }

  lemma StepOf(s: State, t: Tid, result: Loaded) returns (s': State)
    requires Inv(s) && t in s.threads && !Done(s.threads[t])
    requires s.threads[t].Waiting? ==> s.threads[t].call < |s.heap| && s.heap[s.threads[t].call].closed
    ensures Step(s, s', NextEvent(s, t, result))
  {
    var pc := s.threads[t];
    assert PcOk(s, t, pc);
    match pc
    case Calling(key) =>
      if key in s.calls {
        s' := s.(threads := s.threads[t := Waiting(s.calls[key])]);
      } else {
        s' := State(s.calls[key := |s.heap|], s.heap + [Call(key, t, None, false)], s.threads[t := Leading(|s.heap|)]);
      }
    case Leading(id) => s' := s.(threads := s.threads[t := Holding(id, result)]);
    case Holding(id, r) =>
      s' := s.(heap := s.heap[id := s.heap[id].(result := Some(r))], threads := s.threads[t := Assigned(id, r)]);
    case Assigned(id, r) => s' := s.(calls := s.calls - {s.heap[id].key}, threads := s.threads[t := Removed(id, r)]);
    case Removed(id, r) =>
      s' := s.(heap := s.heap[id := s.heap[id].(closed := true)], threads := s.threads[t := Led(id, r)]);
    case Waiting(id) =>
      assert RecordOk(s, id);
      s' := s.(threads := s.threads[t := Followed(id, s.heap[id].result.value)]);
    case _ =>
  }

  /** How many steps a thread has left at most. */
  function Left(pc: Pc): nat {
    match pc
    case Calling(_) => 5
    case Leading(_) => 4
    case Holding(_, _) => 3
    case Assigned(_, _) => 2
    case Removed(_, _) => 1
    case Waiting(_) => 1
    case _ => 0
  }

  function Total(threads: map<Tid, Pc>, order: seq<Tid>): nat
    requires forall t | t in order :: t in threads
  {
    if order == [] then 0 else Left(threads[order[0]]) + Total(threads, order[1..])
  }

  /** One thread's step lowers the total. */
  lemma {:induction false} TotalFalls(before: map<Tid, Pc>, after: map<Tid, Pc>, order: seq<Tid>, t: Tid)
    requires forall u | u in order :: u in before && u in after
    requires t in before && t in after && Left(after[t]) < Left(before[t])
    requires forall u | u in order && u != t :: after[u] == before[u]
    ensures Total(after, order) <= Total(before, order)
    ensures t in order ==> Total(after, order) < Total(before, order)
  {
    if order != [] {
      TotalFalls(before, after, order[1..], t);
    }
  }

  /** Every run is over after at most five steps a thread, so no call waits for ever. */
  lemma {:induction false} RunsAreShort(states: seq<State>, events: seq<Event>, n: nat, order: seq<Tid>)
    requires Run(states, events) && n < |states|
    requires forall t | t in states[0].threads :: t in order
    requires forall t | t in order :: t in states[0].threads
    ensures states[n].threads.Keys == states[0].threads.Keys
    ensures n + Total(states[n].threads, order) <= 5 * |order|
  {
    if n == 0 {
      TotalAtStart(states[0].threads, order);
    } else {
      RunsAreShort(states, events, n - 1, order);
      assert Step(states[n - 1], states[n], events[n - 1]);
      TotalFalls(states[n - 1].threads, states[n].threads, order, events[n - 1].t);
    }
  }

  lemma {:induction false} TotalAtStart(threads: map<Tid, Pc>, order: seq<Tid>)
    requires forall t | t in order :: t in threads && threads[t].Calling?
    ensures Total(threads, order) == 5 * |order|
  {
    if order != [] {
      TotalAtStart(threads, order[1..]);
    }
  }
}
