/** The package state of core/signal/signal.go and the operations that change it in place. */
module SignalLoop {
  import opened Wrappers
  import opened Sequences
  import opened SignalGraph
  import opened SignalTheorems
  import opened SignalHandlers
  import opened SignalRuns

  function Members(s: seq<Eff>): set<Eff> {
    set e | e in s
  }

  predicate Once(s: seq<Eff>) {
    forall i, j | 0 <= i < j < |s| :: s[i] != s[j]
  }

  lemma OnceSnoc(s: seq<Eff>, e: Eff)
    requires Once(s) && e !in s
    ensures Once(s + [e]) && Members(s + [e]) == Members(s) + {e}
  {
  }

  lemma NoMembers(s: seq<Eff>)
    ensures s == [] <==> Members(s) == {}
  {
    if s != [] {
      assert s[0] in Members(s);
    }
  }

  lemma OnceWithout(s: seq<Eff>, i: nat)
    requires Once(s) && i < |s|
    ensures Once(s[..i] + s[i + 1..]) && Members(s[..i] + s[i + 1..]) == Members(s) - {s[i]}
  {
    var rest := s[..i] + s[i + 1..];
    forall e ensures e in Members(rest) <==> e in Members(s) && e != s[i] {
      if e in s && e != s[i] {
        var j :| 0 <= j < |s| && s[j] == e;
        assert rest[if j < i then j else j - 1] == e;
      }
    }
  }

  lemma OneMore(all: set<Eff>, left: set<Eff>, e: Eff, out: set<Eff>)
    requires e in left && left <= all
    ensures (all - (left - {e})) - out == ((all - left) - out) + ({e} - out)
  {
  }

  lemma LowestIs(es: set<Eff>, e: Eff)
    requires IsLowest(es, e)
    ensures es != {} && Lowest(es) == e
  {
  }

  /** A drain of start has run these effects and still owes what drains g. */
  ghost predicate Draining(c: Code, start: Graph, g: Graph, low: nat, last: nat, ran: seq<Eff>) {
    && c.Ok() && Sound(c, start, last) && Inv(c, g, {}) && Above(g, low) && Numbered(g, last)
    && Flushed(c, start, 0, last).0 == Flushed(c, g, low, last).0
    && Flushed(c, start, 0, last).1 == ran + Flushed(c, g, low, last).1
  }

  lemma DrainStarts(c: Code, g: Graph, last: nat)
    requires c.Ok() && Sound(c, g, last)
    ensures Draining(c, g, g, 0, last, [])
  {
    assert [] + Flushed(c, g, 0, last).1 == Flushed(c, g, 0, last).1;
  }

  /** One more turn of the flush, on the record. */
  lemma DrainTurns(c: Code, start: Graph, g: Graph, low: nat, last: nat, ran: seq<Eff>)
    requires Draining(c, start, g, low, last, ran) && g.pending != {}
    ensures
      var e := Lowest(g.pending);
      low < e <= last && Draining(c, start, Turn(c, g), e, last, ran + [e])
  {
    var e := Lowest(g.pending);
    TurnKeeps(c, g);
    AppendAssociates(ran, [e], Flushed(c, Turn(c, g), e, last).1);
  }

  lemma DrainEnds(c: Code, start: Graph, g: Graph, low: nat, last: nat, ran: seq<Eff>)
    requires Draining(c, start, g, low, last, ran) && g.pending == {}
    ensures Drains(c, start, g, ran, last) && Sound(c, g, last)
  {
    DrainKeeps(c, start, last);
    assert ran + [] == ran;
  }

  /** The run is where it should be: what is left of it leads to the target, and nobody waits if it is a first run. */
  ghost predicate OnCourse(c: Code, g: Graph, e: Eff, h: seq<int>, target: Graph, alone: bool) {
    && Running(c, g, e, h) && c.Bounded() && Exec(c, g, e, h) == target
    && (alone ==> g.pending == {} && Numbered(g, e))
  }

  lemma Started(c: Code, g: Graph, g': Graph, e: Eff, alone: bool)
    requires c.Ok() && Inv(c, g, {e}) && e in g.deps && e !in g.pending && e !in g.stopped && g' == Detach(g, e)
    requires alone ==> g.pending == {} && Numbered(g, e)
    ensures OnCourse(c, g', e, [], Run(c, g, e), alone)
  {
    DetachKeeps(c, g, e);
  }

  lemma ReadDone(c: Code, g: Graph, g': Graph, e: Eff, h: seq<int>, s: Sig, seen: int, target: Graph, alone: bool)
    requires c.Ok() && OnCourse(c, g, e, h, target, alone) && c.next(e, h) == Read(s) && s in g.vals && s in g.subs
    requires g' == Subscribe(g, e, s) && seen == g.vals[s]
    ensures OnCourse(c, g', e, h + [seen], target, alone)
  {
    ReadKeeps(c, g, e, h);
  }

  lemma ReadReady(c: Code, g: Graph, e: Eff, h: seq<int>, target: Graph, alone: bool)
    requires c.Ok() && OnCourse(c, g, e, h, target, alone) && c.next(e, h).Read?
    ensures c.next(e, h).s in g.vals && c.next(e, h).s in g.subs && e in g.deps
  {
  }

  lemma PeekDone(c: Code, g: Graph, e: Eff, h: seq<int>, s: Sig, target: Graph, alone: bool)
    requires c.Ok() && OnCourse(c, g, e, h, target, alone) && c.next(e, h) == Peek(s)
    ensures s in g.vals && OnCourse(c, g, e, h + [g.vals[s]], target, alone)
  {
    PeekKeeps(c, g, e, h);
  }

  lemma WriteDone(c: Code, g: Graph, g': Graph, e: Eff, h: seq<int>, s: Sig, v: int, target: Graph, alone: bool)
    requires c.Ok() && OnCourse(c, g, e, h, target, alone) && c.next(e, h) == Write(s, v) && s in g.vals && s in g.subs
    requires g' == Assign(c, g, s, v)
    ensures OnCourse(c, g', e, h + [0], target, alone)
  {
    WriteKeeps(c, g, e, h);
  }

  lemma Finished(c: Code, g: Graph, g': Graph, e: Eff, h: seq<int>, target: Graph, alone: bool)
    requires OnCourse(c, g, e, h, target, alone) && c.next(e, h).Halt? && g' == g.(history := g.history[e := h])
    ensures g' == target && (alone ==> g'.pending == {})
  {
  }

  lemma SoundHere(c: Code, g: Graph, here: Graph, last: nat)
    requires Sound(c, g, last) && here == g
    ensures Sound(c, here, last)
  {
  }

  /** All that a new effect's first run needs. */
  lemma FirstRunReady(c: Code, g: Graph, e: Eff, last: nat)
    requires c.Ok() && Sound(c, g, last) && Known(c, g, e) && e == last + 1
    ensures Addable(c, g, e) && Inv(c, Added(g, e), {e}) && Numbered(Added(g, e), e) && e !in g.pending
    ensures Sound(c, Run(c, Added(g, e), e), e)
  {
    AddedKeeps(c, g, e, last);
    FirstRunKeeps(c, g, e, last);
  }

  class Signals {
    const c: Code
    var vals: map<Sig, int>
    var subs: map<Sig, set<Eff>>
    var deps: map<Eff, seq<Sig>>
    var pending: seq<Eff>
    var queued: set<Eff>
    var stopped: set<Eff>
    var current: Option<Eff>
    var depth: nat
    var nextID: nat
    ghost var history: map<Eff, seq<int>>

    ghost function Value(): Graph
      reads this`vals, this`subs, this`deps, this`pending, this`stopped, this`history
    {
      Graph(vals, subs, deps, Members(pending), stopped, history)
    }

    /** A queued flag is set exactly for the effects in the queue, each there once. */
    ghost predicate QueueOk()
      reads this`pending, this`queued
    {
      queued == Members(pending) && Once(pending)
    }

    /** Between operations nothing runs, and nothing is queued unless a Batch is open. */
    ghost predicate Valid()
      reads this
    {
      && QueueOk() && Sound(c, Value(), nextID) && current == None
      && (depth == 0 ==> pending == [])
    }

    constructor (code: Code, start: map<Sig, int>)
      requires code.Ok()
      ensures c == code && vals == start && Valid() && depth == 0 && nextID == 0 && deps == map[] && pending == []
    {
      c, vals, subs := code, start, map s | s in start :: {};
      deps, history, pending, queued, stopped := map[], map[], [], {}, {};
      current, depth, nextID := None, 0, 0;
    }

    /** Reads the value and subscribes the running computation, if there is one. */
    method Get(s: Sig) returns (v: int)
      requires s in vals && s in subs && (current.Some? ==> current.value in deps)
      modifies this`subs, this`deps
      ensures Value() == if current.Some? then Subscribe(old(Value()), current.value, s) else old(Value())
      ensures v == vals[s]
    {
      if current.Some? {
        var e := current.value;
        if e !in subs[s] {
          subs := subs[s := subs[s] + {e}];
          deps := deps[e := deps[e] + [s]];
        }
      }
      v := vals[s];
    }

    /** One reader joins the queue unless it is there or has stopped. */
    method QueueOne(e: Eff)
      requires QueueOk()
      modifies this`pending, this`queued
      ensures QueueOk() && Members(pending) == old(Members(pending)) + ({e} - stopped)
    {
      if e !in queued && e !in stopped {
        OnceSnoc(pending, e);
        queued := queued + {e};
        pending := pending + [e];
      }
    }

    /** The readers of a signal, in whatever order they come. */
    method Queue(woken: set<Eff>)
      requires QueueOk()
      modifies this`pending, this`queued
      ensures QueueOk() && Members(pending) == old(Members(pending)) + (woken - stopped)
    {
      var readers := woken;
      ghost var before := Members(pending);
      while readers != {}
        invariant QueueOk() && readers <= woken
        invariant Members(pending) == before + ((woken - readers) - stopped)
        decreases |readers|
      {
        var e :| e in readers;
        QueueOne(e);
        OneMore(woken, readers, e, stopped);
        readers := readers - {e};
      }
      assert woken - {} == woken;
    }

    /** Set up to its flush: store the value and wake the readers, unless the test says the same. */
    method Store(s: Sig, v: int)
      requires s in vals && s in subs && QueueOk()
      modifies this`vals, this`pending, this`queued
      ensures Value() == Assign(c, old(Value()), s, v) && QueueOk()
    {
      if c.same(s, vals[s], v) {
        return;
      }
      vals := vals[s := v];
      Queue(subs[s]);
    }

    /** The detach half of run(): the effect leaves the signals it read last time. */
    method DetachAll(e: Eff)
      requires e in deps && forall s | s in deps[e] :: s in subs
      modifies this`subs, this`deps
      ensures Value() == Detach(old(Value()), e)
    {
      var mine, i := deps[e], 0;
      while i < |mine|
        invariant i <= |mine| && deps == old(deps) && subs.Keys == old(subs).Keys
        invariant forall s | s in subs :: subs[s] == if s in mine[..i] then old(subs)[s] - {e} else old(subs)[s]
      {
        var d := mine[i];
        assert d in old(deps)[e] && d in subs;
        assert mine[..i + 1] == mine[..i] + [d];
        subs := subs[d := subs[d] - {e}];
        i := i + 1;
      }
      assert mine[..i] == mine;
      deps := deps[e := []];
    }

    /** What every step of a body keeps while effect e runs. */
    ghost predicate InRun(e: Eff, h: seq<int>, target: Graph)
      reads this
    {
      QueueOk() && current == Some(e) && OnCourse(c, Value(), e, h, target, depth == 0)
    }

    method ActRead(e: Eff, h: seq<int>, ghost target: Graph) returns (seen: int)
      requires c.Ok() && InRun(e, h, target) && c.next(e, h).Read?
      modifies this`subs, this`deps
      ensures InRun(e, h + [seen], target)
    {
      var s := c.next(e, h).s;
      ghost var before := Value();
      ReadReady(c, before, e, h, target, depth == 0);
      seen := Get(s);
      assert QueueOk();
      ReadDone(c, before, Value(), e, h, s, seen, target, depth == 0);
    }

    /** A Set made in a body finds the depth raised, or nothing queued: its flush returns at once. */
    method ActWrite(e: Eff, h: seq<int>, ghost target: Graph)
      requires c.Ok() && InRun(e, h, target) && c.next(e, h).Write?
      modifies this`vals, this`pending, this`queued
      ensures InRun(e, h + [0], target)
    {
      var s, v := c.next(e, h).s, c.next(e, h).v;
      ghost var before := Value();
      Store(s, v);
      WriteDone(c, before, Value(), e, h, s, v, target, depth == 0);
    }

    method ActPeek(e: Eff, h: seq<int>, ghost target: Graph) returns (seen: int)
      requires c.Ok() && InRun(e, h, target) && c.next(e, h).Peek?
      ensures InRun(e, h + [seen], target)
    {
      PeekDone(c, Value(), e, h, c.next(e, h).s, target, depth == 0);
      seen := vals[c.next(e, h).s];
    }

    /** The body, action by action, until it halts. */
    method ActAll(e: Eff, ghost target: Graph)
      requires c.Ok() && InRun(e, [], target)
      modifies this`vals, this`subs, this`deps, this`pending, this`queued, this`history
      ensures Value() == target && QueueOk() && (depth == 0 ==> pending == [])
    {
      var h := [];
      while !c.next(e, h).Halt?
        invariant InRun(e, h, target)
        decreases c.bound(e) - |h|
      {
        var seen := 0;
        if c.next(e, h).Read? {
          seen := ActRead(e, h, target);
        } else if c.next(e, h).Peek? {
          seen := ActPeek(e, h, target);
        } else {
          ActWrite(e, h, target);
        }
        h := h + [seen];
      }
      Finish(e, h, target);
    }

    /** A run starts: the old edges go, and the effect is the one reads subscribe. */
    method Begin(e: Eff, ghost g: Graph)
      requires c.Ok() && QueueOk() && Value() == g && Inv(c, g, {e}) && e in deps && e !in pending && e !in stopped
      requires depth > 0 || (pending == [] && Numbered(g, e))
      modifies this`subs, this`deps, this`current
      ensures InRun(e, [], Run(c, g, e))
    {
      NoMembers(pending);
      DetachAll(e);
      current := Some(e);
      Started(c, g, Value(), e, depth == 0);
    }

    /** The body of a live effect, and its new edges; the current effect is put back. */
    method RunLive(e: Eff, ghost g: Graph, ghost target: Graph)
      requires c.Ok() && QueueOk() && Value() == g && Inv(c, g, {e}) && e in deps && e !in pending && e !in stopped
      requires target == Run(c, g, e)
      requires depth > 0 || (pending == [] && Numbered(g, e))
      modifies this`vals, this`subs, this`deps, this`pending, this`queued, this`current, this`history
      ensures Value() == target && QueueOk() && current == old(current)
      ensures depth == 0 ==> pending == []
    {
      var prev := current;
      Begin(e, g);
      ActAll(e, target);
      current := prev;
    }

    method Finish(e: Eff, h: seq<int>, ghost target: Graph)
      requires c.Ok() && InRun(e, h, target) && c.next(e, h).Halt?
      modifies this`history
      ensures Value() == target && QueueOk() && (depth == 0 ==> pending == [])
    {
      ghost var before := Value();
      history := history[e := h];
      Finished(c, before, Value(), e, h, target, depth == 0);
      NoMembers(pending);
    }

    /** run(): nothing for a stopped effect; otherwise detach, become the current one, and act. */
    method RunEffect(e: Eff, ghost g: Graph)
      requires c.Ok() && QueueOk() && Value() == g && Inv(c, g, {e}) && e in deps && e !in pending
      requires depth > 0 || (pending == [] && Numbered(g, e))
      modifies this`vals, this`subs, this`deps, this`pending, this`queued, this`current, this`history
      ensures Value() == Run(c, g, e) && QueueOk() && current == old(current)
      ensures depth == 0 ==> pending == []
    {
      if e !in stopped {
        RunLive(e, g, Run(c, g, e));
      }
    }

    /** The head of the sorted queue leaves it. */
    method PopLowest() returns (e: Eff)
      requires QueueOk() && pending != []
      modifies this`pending, this`queued
      ensures QueueOk() && old(Members(pending)) != {} && e == Lowest(old(Members(pending)))
      ensures Members(pending) == old(Members(pending)) - {e}
    {
      var at, i := 0, 1;
      while i < |pending|
        invariant at < |pending| && i <= |pending| && forall j | 0 <= j < i :: pending[at] <= pending[j]
      {
        if pending[i] < pending[at] {
          at := i;
        }
        i := i + 1;
      }
      e := pending[at];
      OnceWithout(pending, at);
      assert e in Members(pending);
      LowestIs(Members(pending), e);
      pending := pending[..at] + pending[at + 1..];
      queued := queued - {e};
    }

    /** The lowest id leaves the queue, its run still owed. */
    method Pop(ghost g: Graph) returns (e: Eff)
      requires c.Ok() && QueueOk() && Value() == g && Inv(c, g, {}) && pending != []
      modifies this`pending, this`queued
      ensures QueueOk() && g.pending != {} && e == Lowest(g.pending) && Value() == Popped(g, e)
      ensures e in deps && e !in pending && Inv(c, Popped(g, e), {e})
    {
      NoMembers(pending);
      e := PopLowest();
      PoppedKeeps(c, g, e);
    }

    /** The run of a popped effect, at depth one. */
    method RunPopped(e: Eff, ghost g: Graph)
      requires c.Ok() && QueueOk() && Value() == g && Inv(c, g, {e}) && e in deps && e !in pending
      modifies this`vals, this`subs, this`deps, this`pending, this`queued, this`current, this`history, this`depth
      ensures QueueOk() && current == old(current) && depth == old(depth) && Value() == Run(c, g, e)
    {
      depth := depth + 1;
      RunEffect(e, g);
      depth := depth - 1;
    }

    /** One turn of the drain: pop, and run. */
    method TakeTurn(ghost g: Graph) returns (e: Eff)
      requires c.Ok() && QueueOk() && Value() == g && Inv(c, g, {}) && pending != []
      modifies this`vals, this`subs, this`deps, this`pending, this`queued, this`current, this`history, this`depth
      ensures QueueOk() && current == old(current) && depth == old(depth)
      ensures g.pending != {} && e == Lowest(g.pending) && Value() == Turn(c, g)
    {
      e := Pop(g);
      RunPopped(e, Popped(g, e));
    }

    /** One turn of a drain, on its record. */
    method DrainOne(ghost start: Graph, ghost g: Graph, ghost low: nat, ghost ran: seq<Eff>) returns (e: Eff)
      requires QueueOk() && Value() == g && pending != [] && Draining(c, start, g, low, nextID, ran)
      modifies this`vals, this`subs, this`deps, this`pending, this`queued, this`current, this`history, this`depth
      ensures QueueOk() && current == old(current) && depth == old(depth)
      ensures low < e <= nextID && Draining(c, start, Value(), e, nextID, ran + [e])
    {
      e := TakeTurn(g);
      DrainTurns(c, start, g, low, nextID, ran);
    }

    /** Drains the queue, lowest id first, unless a Batch or another flush is open. */
    method Flush() returns (ran: seq<Eff>)
      requires c.Ok() && QueueOk() && Sound(c, Value(), nextID)
      modifies this`vals, this`subs, this`deps, this`pending, this`queued, this`current, this`history, this`depth
      ensures QueueOk() && current == old(current) && depth == old(depth)
      ensures Sound(c, Value(), nextID)
      ensures depth > 0 ==> Value() == old(Value()) && ran == []
      ensures depth == 0 ==> pending == [] && Drains(c, old(Value()), Value(), ran, nextID)
    {
      ran := [];
      ghost var low: nat := 0;
      ghost var start := Value();
      DrainStarts(c, start, nextID);
      while depth == 0 && |pending| > 0
        invariant QueueOk() && current == old(current) && depth == old(depth)
        invariant Draining(c, start, Value(), low, nextID, ran)
        invariant depth > 0 ==> Value() == start && ran == []
        decreases if depth == 0 then nextID - low else 0, |pending|
      {
        var e := DrainOne(start, Value(), low, ran);
        ran := ran + [e];
        low := e;
      }
      NoMembers(pending);
      if depth == 0 {
        DrainEnds(c, start, Value(), low, nextID, ran);
      }
    }

    /** Set: store, wake, and drain unless deferred. */
    method Set(s: Sig, v: int) returns (ran: seq<Eff>)
      requires c.Ok() && Valid() && s in vals && Input(c, Value(), s)
      modifies this`vals, this`subs, this`deps, this`pending, this`queued, this`current, this`history, this`depth
      ensures Valid() && depth == old(depth) && current == old(current)
      ensures depth > 0 ==> ran == [] && Value() == Assign(c, old(Value()), s, v)
      ensures depth == 0 ==> Drains(c, Assign(c, old(Value()), s, v), Value(), ran, nextID)
      ensures depth == 0 && c.same(s, old(vals)[s], v) ==> Value() == old(Value()) && ran == []
    {
      AssignOutside(c, Value(), s, v, nextID);
      NoMembers(pending);
      Store(s, v);
      ran := Flush();
    }

    /** Between the deeds of a program with d batches open around it. */
    ghost predicate Between(t: Handler, h: seq<int>, d: nat)
      reads this
    {
      c.Ok() && Valid() && Proper(c, Value(), t) && depth == d + Opened(t, h)
    }

    /** A write of the program. */
    method DoPut(t: Handler, h: seq<int>, ghost d: nat)
      requires Between(t, h, d) && t.next(h).Put?
      modifies this`vals, this`subs, this`deps, this`pending, this`queued, this`current, this`history, this`depth
      ensures Valid() && depth == old(depth)
      ensures Value() == SignalHandlers.Step(c, old(Value()), nextID, t, h, d)
    {
      var _ := Set(t.next(h).s, t.next(h).v);
    }

    /** The end of an inner batch. */
    method DoClose(t: Handler, h: seq<int>, ghost d: nat)
      requires Between(t, h, d) && t.next(h).Close?
      modifies this`vals, this`subs, this`deps, this`pending, this`queued, this`current, this`history, this`depth
      ensures Valid() && depth == old(depth) - 1
      ensures Value() == SignalHandlers.Step(c, old(Value()), nextID, t, h, d)
    {
      var _ := Release(Value());
    }

    /** One deed of a program that runs outside any effect. */
    method Do(t: Handler, h: seq<int>, ghost d: nat) returns (seen: int)
      requires Between(t, h, d) && !t.next(h).Return?
      modifies this`vals, this`subs, this`deps, this`pending, this`queued, this`current, this`history, this`depth
      ensures seen == Seen(old(Value()), t.next(h))
      ensures Value() == SignalHandlers.Step(c, old(Value()), nextID, t, h, d)
      ensures Between(t, h + [seen], d)
    {
      var a := t.next(h);
      ghost var before := Value();
      seen := 0;
      OpenedNat(c, Value(), t, h);
      if a.Look? {
        seen := Get(a.s);
      } else if a.Put? {
        DoPut(t, h, d);
      } else if a.Open? {
        Hold(before);
      } else {
        DoClose(t, h, d);
      }
      OpenedSnoc(t, h, seen);
      ProperStays(c, before, Value(), t);
    }

    /** A program outside any effect, run to its end. */
    method Perform(t: Handler, ghost g: Graph, ghost d: nat, ghost target: Graph)
      requires c.Ok() && Valid() && Value() == g && Proper(c, g, t)
      requires depth == d && target == Handled(c, g, nextID, t, [], d)
      modifies this`vals, this`subs, this`deps, this`pending, this`queued, this`current, this`history, this`depth
      ensures Valid() && depth == old(depth) && Value() == target
      ensures Performs(c, nextID, t, d, g, target)
    {
      HandledIsPerformed(c, g, nextID, t, d);
      var h: seq<int> := [];
      while !t.next(h).Return?
        invariant Between(t, h, d) && Handled(c, Value(), nextID, t, h, d) == target
        decreases t.bound - |h|
      {
        var seen := Do(t, h, d);
        h := h + [seen];
      }
    }

    /**
     * Batch: the body runs with the queue held back, whatever it reads, writes or batches inside,
     * and the queue is drained once at the end of the outermost one.
     */
    method Batch(t: Handler, ghost g: Graph, ghost target: Graph) returns (ran: seq<Eff>)
      requires c.Ok() && Valid() && Value() == g && Proper(c, g, t)
      requires target == Handled(c, g, nextID, t, [], depth + 1)
      modifies this`vals, this`subs, this`deps, this`pending, this`queued, this`current, this`history, this`depth
      ensures Valid() && depth == old(depth)
      ensures depth > 0 ==> ran == [] && Value() == target
      ensures depth == 0 ==> Drains(c, target, Value(), ran, nextID)
      ensures Performs(c, nextID, t, old(depth) + 1, g, target)
    {
      HoldAndPerform(t, g, depth + 1, target);
      ran := Release(target);
    }

    /** The body of a Batch: from its start on nothing drains. */
    method HoldAndPerform(t: Handler, ghost g: Graph, ghost d: nat, ghost target: Graph)
      requires c.Ok() && Valid() && Value() == g && Proper(c, g, t)
      requires depth + 1 == d && target == Handled(c, g, nextID, t, [], d)
      modifies this`vals, this`subs, this`deps, this`pending, this`queued, this`current, this`history, this`depth
      ensures Valid() && depth == old(depth) + 1 && Value() == target
      ensures Performs(c, nextID, t, d, g, target)
    {
      Hold(g);
      Perform(t, g, d, target);
    }

    /** The start of a Batch: from here on nothing drains. */
    method Hold(ghost g: Graph)
      requires Valid() && Value() == g
      modifies this`depth
      ensures Valid() && depth == old(depth) + 1 && Value() == g
    {
      depth := depth + 1;
    }

    /** The end of a Batch: the queue drains when it was the outermost. */
    method Release(ghost g: Graph) returns (ran: seq<Eff>)
      requires c.Ok() && Valid() && Value() == g && depth > 0
      modifies this`vals, this`subs, this`deps, this`pending, this`queued, this`current, this`history, this`depth
      ensures Valid() && depth == old(depth) - 1
      ensures depth > 0 ==> ran == [] && Value() == g
      ensures depth == 0 ==> Drains(c, g, Value(), ran, nextID)
    {
      depth := depth - 1;
      ran := Flush();
    }

    /** The next id, for an effect with no edges yet. */
    method Register(ghost g: Graph) returns (e: Eff)
      requires QueueOk() && Value() == g
      modifies this`deps, this`history, this`nextID
      ensures e == nextID == old(nextID) + 1 && Value() == Added(g, e)
    {
      nextID := nextID + 1;
      e := nextID;
      deps, history := deps[e := []], history[e := []];
    }

    /** The run Effect makes before it returns. */
    method FirstRun(e: Eff, ghost g: Graph, ghost last: nat)
      requires c.Ok() && Sound(c, g, last) && Known(c, g, e) && e == last + 1 == nextID
      requires QueueOk() && Value() == Added(g, e) && current == None && (depth == 0 ==> pending == [])
      modifies this`vals, this`subs, this`deps, this`pending, this`queued, this`current, this`history
      ensures Valid() && Addable(c, g, e) && Value() == Run(c, Added(g, e), e)
    {
      FirstRunReady(c, g, e, last);
      assert e !in Members(pending);
      RunEffect(e, Added(g, e));
      SoundHere(c, Run(c, Added(g, e), e), Value(), nextID);
    }

    /** Effect: a new id, and a first run. */
    method Effect(ghost g: Graph) returns (e: Eff)
      requires c.Ok() && Valid() && Value() == g && Known(c, g, nextID + 1)
      modifies this`vals, this`subs, this`deps, this`pending, this`queued, this`current, this`history, this`nextID
      ensures Valid() && depth == old(depth) && e == nextID == old(nextID) + 1
      ensures Addable(c, g, e) && Value() == Run(c, Added(g, e), e)
    {
      ghost var last := nextID;
      SoundHere(c, Value(), g, last);
      e := Register(g);
      FirstRun(e, g, last);
    }

    /** stop: the effect never runs again, and no signal wakes it. */
    method Stop(e: Eff)
      requires c.Ok() && Valid() && e in deps
      modifies this`subs, this`deps, this`stopped
      ensures Valid() && Value() == Stopped(old(Value()), e)
    {
      ghost var after := Stopped(Value(), e);
      StoppedSound(c, Value(), e, nextID);
      stopped := stopped + {e};
      DetachAll(e);
      SoundHere(c, after, Value(), nextID);
    }

    /** One cleanup of a scope. */
    method Clean(cleanup: Cleanup)
      requires c.Ok() && Valid() && Fit(c, Value(), cleanup)
      modifies this`vals, this`subs, this`deps, this`pending, this`queued, this`current, this`history, this`depth
      modifies this`stopped
      ensures Valid() && depth == old(depth)
      ensures Value() == Cleaned(c, old(Value()), nextID, cleanup, depth)
    {
      if cleanup.Stops? {
        Stop(cleanup.e);
      } else {
        Perform(cleanup.t, Value(), depth, Handled(c, Value(), nextID, cleanup.t, [], depth));
      }
    }

    /** Disposing a scope runs what it registered, last first. */
    method Dispose(cleanups: seq<Cleanup>)
      requires c.Ok() && Valid() && forall x | x in cleanups :: Fit(c, Value(), x)
      modifies this`vals, this`subs, this`deps, this`pending, this`queued, this`current, this`history, this`depth
      modifies this`stopped
      ensures Valid() && depth == old(depth)
      ensures Value() == CleanedAll(c, old(Value()), nextID, cleanups, depth)
    {
      ghost var before := Value();
      var i: nat := |cleanups|;
      while i > 0
        invariant i <= |cleanups| && Valid() && depth == old(depth)
        invariant Value() == CleanedAll(c, before, nextID, cleanups[i..], depth)
      {
        i := i - 1;
        assert cleanups[i..][0] == cleanups[i] && cleanups[i..][1..] == cleanups[i + 1..];
        FitStays(c, before, Value(), cleanups[i]);
        Clean(cleanups[i]);
      }
      assert cleanups[0..] == cleanups;
    }
  }
}
