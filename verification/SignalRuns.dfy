/**
 * What programs over the signals see: each read and peek is the value the signal has at that
 * moment, counted from the writes made so far, and what runs runs for a reason.
 */
module SignalRuns {
  import opened Wrappers
  import opened SignalGraph
  import opened SignalTheorems
  import opened SignalHandlers

  /** A signal after one write, to it or to another: the value put, unless the test says the same. */
  function Written1(c: Code, s: Sig, was: int, to: Sig, v: int): int {
    if to == s && !c.same(s, was, v) then v else was
  }

  lemma AssignPuts(c: Code, g: Graph, to: Sig, v: int, s: Sig)
    requires to in g.vals && to in g.subs && s in g.vals
    ensures s in Assign(c, g, to, v).vals && Assign(c, g, to, v).vals[s] == Written1(c, s, g.vals[s], to, v)
  {
  }

  /** A write queues exactly the live effects that depend on the signal, and none when nothing changed. */
  lemma AssignQueues(c: Code, g: Graph, s: Sig, v: int, f: Eff)
    requires EdgesOk(g) && s in g.vals && s in g.subs && f in g.deps
    ensures f in Assign(c, g, s, v).pending
       <==> f in g.pending || (!c.same(s, g.vals[s], v) && s in g.deps[f] && f !in g.stopped)
  {
  }

  // ---------- the run of an effect ----------

  /** A signal's value after an effect's body has seen h, from the value it started with. */
  function ValueIn(c: Code, e: Eff, h: seq<int>, s: Sig, start: int): int {
    if h == [] then start
    else
      var before := h[..|h| - 1];
      var was, a := ValueIn(c, e, before, s, start), c.next(e, before);
      if a.Write? then Written1(c, s, was, a.s, a.v) else was
  }

  lemma ValueInSnoc(c: Code, e: Eff, h: seq<int>, x: int, s: Sig, start: int)
    ensures
      var was, a := ValueIn(c, e, h, s, start), c.next(e, h);
      ValueIn(c, e, h + [x], s, start) == if a.Write? then Written1(c, s, was, a.s, a.v) else was
  {
    assert (h + [x])[..|h + [x]| - 1] == h;
  }

  /** What the body saw so far is what was there. */
  ghost predicate Saw(c: Code, e: Eff, h: seq<int>, start: map<Sig, int>) {
    forall i | 0 <= i < |h| :: SawAt(c, e, h, start, i)
  }

  ghost predicate SawAt(c: Code, e: Eff, h: seq<int>, start: map<Sig, int>, i: nat)
    requires i < |h|
  {
    match c.next(e, h[..i])
    case Read(s) => s in start && h[i] == ValueIn(c, e, h[..i], s, start[s])
    case Peek(s) => s in start && h[i] == ValueIn(c, e, h[..i], s, start[s])
    case Write(_, _) => true
    case Halt => false
  }

  /** The signals hold what the body's writes so far left. */
  ghost predicate Holds(c: Code, e: Eff, h: seq<int>, start: map<Sig, int>, vals: map<Sig, int>) {
    vals.Keys == start.Keys && forall s | s in start :: vals[s] == ValueIn(c, e, h, s, start[s])
  }

  lemma SawOne(c: Code, e: Eff, h: seq<int>, x: int, start: map<Sig, int>)
    requires Saw(c, e, h, start) && SawAt(c, e, h + [x], start, |h|)
    ensures Saw(c, e, h + [x], start)
  {
    forall i | 0 <= i < |h + [x]| ensures SawAt(c, e, h + [x], start, i) {
      if i < |h| {
        assert SawAt(c, e, h, start, i);
        assert (h + [x])[..i] == h[..i] && (h + [x])[i] == h[i];
      }
    }
  }

  lemma ReadSaw(c: Code, g: Graph, e: Eff, h: seq<int>, start: map<Sig, int>)
    requires Holds(c, e, h, start, g.vals) && Saw(c, e, h, start)
    requires (c.next(e, h).Read? || c.next(e, h).Peek?) && c.next(e, h).s in g.vals
    ensures
      var longer := h + [g.vals[c.next(e, h).s]];
      Saw(c, e, longer, start) && Holds(c, e, longer, start, g.vals)
  {
    var x := g.vals[c.next(e, h).s];
    assert (h + [x])[..|h|] == h;
    SawOne(c, e, h, x, start);
    forall s | s in start ensures g.vals[s] == ValueIn(c, e, h + [x], s, start[s]) {
      ValueInSnoc(c, e, h, x, s, start[s]);
    }
  }

  lemma WriteSaw(c: Code, g: Graph, e: Eff, h: seq<int>, start: map<Sig, int>)
    requires Holds(c, e, h, start, g.vals) && Saw(c, e, h, start)
    requires c.next(e, h).Write? && c.next(e, h).s in g.vals && c.next(e, h).s in g.subs
    ensures
      var a := c.next(e, h);
      Saw(c, e, h + [0], start) && Holds(c, e, h + [0], start, Assign(c, g, a.s, a.v).vals)
  {
    var a := c.next(e, h);
    assert (h + [0])[..|h|] == h;
    SawOne(c, e, h, 0, start);
    forall s | s in start
      ensures s in Assign(c, g, a.s, a.v).vals
      ensures Assign(c, g, a.s, a.v).vals[s] == ValueIn(c, e, h + [0], s, start[s])
    {
      AssignPuts(c, g, a.s, a.v, s);
      ValueInSnoc(c, e, h, 0, s, start[s]);
    }
  }

  lemma {:induction false} ExecSaw(c: Code, g: Graph, e: Eff, h: seq<int>, start: map<Sig, int>)
    requires c.Bounded() && Covers(c, g) && e in g.deps
    requires Holds(c, e, h, start, g.vals) && Saw(c, e, h, start)
    ensures
      var r := Exec(c, g, e, h);
      e in r.history && c.next(e, r.history[e]).Halt?
      && Saw(c, e, r.history[e], start) && Holds(c, e, r.history[e], start, r.vals)
    decreases if |h| < c.bound(e) then c.bound(e) - |h| else 0
  {
    match c.next(e, h)
    case Halt =>
    case Read(s) =>
      ReadSaw(c, g, e, h, start);
      ExecSaw(c, Subscribe(g, e, s), e, h + [g.vals[s]], start);
    case Peek(s) =>
      ReadSaw(c, g, e, h, start);
      ExecSaw(c, g, e, h + [g.vals[s]], start);
    case Write(s, v) =>
      WriteSaw(c, g, e, h, start);
      ExecSaw(c, Assign(c, g, s, v), e, h + [0], start);
  }

  /**
   * A run of a live effect goes to the end of its body; each read and each peek saw the value the
   * signal had at that moment, its own writes counted; and the signals are left as its writes say.
   */
  lemma RunSees(c: Code, g: Graph, e: Eff)
    requires c.Bounded() && Covers(c, g) && e in g.deps && e !in g.stopped
    ensures
      var r := Run(c, g, e);
      e in r.history && c.next(e, r.history[e]).Halt?
      && Saw(c, e, r.history[e], g.vals) && Holds(c, e, r.history[e], g.vals, r.vals)
  {
    CoversAfter(c, g, Detach(g, e));
    ExecSaw(c, Detach(g, e), e, [], g.vals);
  }

  // ---------- why an effect runs ----------

  /** The first may write what the second may read. */
  ghost predicate Wakes(c: Code, w: Eff, f: Eff) {
    exists s :: s in c.mayWrite(w) && s in c.mayRead(f)
  }

  /** One write of a body queues only effects it may wake. */
  lemma AssignWakesReaders(c: Code, g: Graph, w: Eff, s: Sig, v: int)
    requires EdgesOk(g) && DepsOk(c, g) && s in g.vals && s in g.subs && s in c.mayWrite(w)
    ensures forall f | f in Assign(c, g, s, v).pending :: f in g.pending || Wakes(c, w, f)
  {
    forall f | f in Assign(c, g, s, v).pending && f !in g.pending ensures Wakes(c, w, f) {
      assert f in g.subs[s] && s in g.deps[f];
    }
  }

  /** The edges as a body's reads and writes keep them. */
  ghost predicate Wired(c: Code, g: Graph) {
    Covers(c, g) && EdgesOk(g) && DepsOk(c, g)
  }

  lemma SubscribeDeps(c: Code, g: Graph, e: Eff, h: seq<int>)
    requires c.Bounded() && Wired(c, g) && e in g.deps && e !in g.stopped && c.next(e, h).Read?
    ensures
      var r := Subscribe(g, e, c.next(e, h).s);
      Wired(c, r) && r.pending == g.pending && r.stopped == g.stopped && e in r.deps
  {
    SubscribeEdges(g, e, c.next(e, h).s);
    CoversAfter(c, g, Subscribe(g, e, c.next(e, h).s));
  }

  lemma WriteWakes(c: Code, g: Graph, e: Eff, h: seq<int>)
    requires c.Bounded() && Wired(c, g) && e in g.deps && e !in g.stopped && c.next(e, h).Write?
    ensures
      var r := Assign(c, g, c.next(e, h).s, c.next(e, h).v);
      && Wired(c, r) && r.stopped == g.stopped && e in r.deps
      && forall f | f in r.pending :: f in g.pending || Wakes(c, e, f)
  {
    var s, v := c.next(e, h).s, c.next(e, h).v;
    AssignEdges(c, g, s, v);
    AssignCovers(c, g, s, v);
    AssignWakesReaders(c, g, e, s, v);
  }

  /** What is left of a run after one action: the graph and what the body has seen. */
  function Acted(c: Code, g: Graph, e: Eff, h: seq<int>): (r: (Graph, seq<int>))
    requires Covers(c, g) && e in g.deps && !c.next(e, h).Halt?
  {
    match c.next(e, h)
    case Read(s) => (Subscribe(g, e, s), h + [g.vals[s]])
    case Peek(s) => (g, h + [g.vals[s]])
    case Write(s, v) => (Assign(c, g, s, v), h + [0])
  }

  lemma ActedWakes(c: Code, g: Graph, e: Eff, h: seq<int>)
    requires c.Bounded() && Wired(c, g) && e in g.deps && e !in g.stopped && !c.next(e, h).Halt?
    ensures
      var (g', h') := Acted(c, g, e, h);
      && Wired(c, g') && g'.stopped == g.stopped && e in g'.deps && |h'| == |h| + 1
      && Exec(c, g', e, h') == Exec(c, g, e, h)
      && forall f | f in g'.pending :: f in g.pending || Wakes(c, e, f)
  {
    match c.next(e, h)
    case Read(s) => SubscribeDeps(c, g, e, h);
    case Peek(s) =>
    case Write(s, v) => WriteWakes(c, g, e, h);
  }

  lemma {:induction false} ExecWakes(c: Code, g: Graph, e: Eff, h: seq<int>)
    requires c.Bounded() && Wired(c, g) && e in g.deps && e !in g.stopped
    ensures forall f | f in Exec(c, g, e, h).pending :: f in g.pending || Wakes(c, e, f)
    decreases if |h| < c.bound(e) then c.bound(e) - |h| else 0
  {
    if !c.next(e, h).Halt? {
      var (next, longer) := Acted(c, g, e, h);
      ActedWakes(c, g, e, h);
      ExecWakes(c, next, e, longer);
    }
  }

  lemma TurnWakes(c: Code, g: Graph)
    requires c.Ok() && Inv(c, g, {}) && g.pending != {}
    ensures forall f | f in Turn(c, g).pending :: f in g.pending || Wakes(c, Lowest(g.pending), f)
  {
    var e := Lowest(g.pending);
    PoppedKeeps(c, g, e);
    if e !in g.stopped {
      DetachKeeps(c, Popped(g, e), e);
      ExecWakes(c, Detach(Popped(g, e), e), e, []);
    }
  }

  /** Nothing runs without a cause: what a flush pops was queued, or may read what an earlier one may write. */
  lemma {:induction false} FlushCauses(c: Code, g: Graph, low: nat, last: nat, f: Eff)
    requires c.Ok() && Inv(c, g, {}) && Above(g, low) && Numbered(g, last)
    requires f in Flushed(c, g, low, last).1
    ensures f in g.pending || exists w :: w in Flushed(c, g, low, last).1 && w < f && Wakes(c, w, f)
    decreases last - low
  {
    var e := Lowest(g.pending);
    TurnKeeps(c, g);
    TurnWakes(c, g);
    var rest := Flushed(c, Turn(c, g), e, last).1;
    if f != e {
      FlushCauses(c, Turn(c, g), e, last, f);
      if f in Turn(c, g).pending && f !in g.pending {
        assert e in Flushed(c, g, low, last).1 && Wakes(c, e, f);
      } else if f !in Turn(c, g).pending {
        var w :| w in rest && w < f && Wakes(c, w, f);
        assert w in Flushed(c, g, low, last).1;
      }
    }
  }

  // ---------- programs outside any effect ----------

  /** Between deeds the queue drains when no batch is open, and waits otherwise. */
  ghost predicate Calms(c: Code, g: Graph, g': Graph, last: nat, open: int) {
    if open > 0 then g' == g else exists ran :: Drains(c, g, g', ran, last)
  }

  /** One deed: what the program is told, and the graph it leaves, with so many batches open before it. */
  ghost predicate Deed1(c: Code, last: nat, a: Deed, x: int, g: Graph, g': Graph, open: int) {
    match a
    case Look(s) => s in g.vals && x == g.vals[s] && g' == g
    case Put(s, v) => s in g.vals && s in g.subs && Calms(c, Assign(c, g, s, v), g', last, open)
    case Open => g' == g
    case Close => Calms(c, g, g', last, open - 1)
    case Return => false
  }

  /** The program goes on after h through these graphs, told these values, base batches around it. */
  ghost predicate Deeds(c: Code, last: nat, t: Handler, h: seq<int>, base: nat, told: seq<int>, gs: seq<Graph>) {
    |gs| == |told| + 1 && forall i | 0 <= i < |told| :: DeedAt(c, last, t, h, base, told, gs, i)
  }

  ghost predicate DeedAt(c: Code, last: nat, t: Handler, h: seq<int>, base: nat, told: seq<int>, gs: seq<Graph>,
                         i: nat)
    requires i < |told| && |gs| == |told| + 1
  {
    Deed1(c, last, t.next(h + told[..i]), told[i], gs[i], gs[i + 1], base + Opened(t, h + told[..i]))
  }

  /** The program runs to its end from one graph to another. */
  ghost predicate Performs(c: Code, last: nat, t: Handler, base: nat, g: Graph, g': Graph) {
    exists told, gs :: PerformsAs(c, last, t, [], base, g, g', told, gs)
  }

  ghost predicate PerformsAs(c: Code, last: nat, t: Handler, h: seq<int>, base: nat, g: Graph, g': Graph,
                             told: seq<int>, gs: seq<Graph>)
  {
    Deeds(c, last, t, h, base, told, gs) && gs[0] == g && gs[|told|] == g' && t.next(h + told).Return?
  }

  lemma StepIsDeed(c: Code, g: Graph, last: nat, t: Handler, h: seq<int>, base: nat)
    requires c.Ok() && Sound(c, g, last) && Proper(c, g, t) && !t.next(h).Return?
    ensures Deed1(c, last, t.next(h), Seen(g, t.next(h)), g, SignalHandlers.Step(c, g, last, t, h, base),
                  base + Opened(t, h))
  {
    OpenedNat(c, g, t, h);
    var a := t.next(h);
    if a.Put? {
      AssignOutside(c, g, a.s, a.v, last);
      QuietCalms(c, Assign(c, g, a.s, a.v), last, base + Opened(t, h));
    } else if a.Close? {
      QuietCalms(c, g, last, base + Opened(t, h) - 1);
    }
  }

  lemma QuietCalms(c: Code, g: Graph, last: nat, open: nat)
    requires c.Ok() && Sound(c, g, last)
    ensures Calms(c, g, Quiet(c, g, last, open), last, open)
  {
    DrainKeeps(c, g, last);
  }

  lemma DeedLater(c: Code, last: nat, t: Handler, h: seq<int>, base: nat, x: int, g: Graph, told: seq<int>,
                  gs: seq<Graph>, k: nat)
    requires Deeds(c, last, t, h + [x], base, told, gs) && k < |told|
    ensures DeedAt(c, last, t, h, base, [x] + told, [g] + gs, k + 1)
  {
    var all, graphs := [x] + told, [g] + gs;
    assert all[..k + 1] == [x] + told[..k] && h + all[..k + 1] == h + [x] + told[..k];
    assert graphs[k + 1] == gs[k] && graphs[k + 2] == gs[k + 1];
    assert DeedAt(c, last, t, h + [x], base, told, gs, k);
  }

  lemma DeedsCons(c: Code, last: nat, t: Handler, h: seq<int>, base: nat, x: int, g: Graph, told: seq<int>,
                  gs: seq<Graph>)
    requires Deeds(c, last, t, h + [x], base, told, gs)
    requires Deed1(c, last, t.next(h), x, g, gs[0], base + Opened(t, h))
    ensures Deeds(c, last, t, h, base, [x] + told, [g] + gs)
  {
    forall i | 0 <= i < |[x] + told| ensures DeedAt(c, last, t, h, base, [x] + told, [g] + gs, i) {
      if i > 0 {
        DeedLater(c, last, t, h, base, x, g, told, gs, i - 1);
      } else {
        assert h + ([x] + told)[..0] == h;
      }
    }
  }

  /** The specified graph is the one such a run ends in. */
  lemma {:induction false} HandledPerforms(c: Code, g: Graph, last: nat, t: Handler, h: seq<int>, base: nat)
    returns (told: seq<int>, gs: seq<Graph>)
    requires c.Ok() && Sound(c, g, last) && Proper(c, g, t)
    ensures PerformsAs(c, last, t, h, base, g, Handled(c, g, last, t, h, base), told, gs)
    decreases if |h| < t.bound then t.bound - |h| else 0
  {
    if t.next(h).Return? {
      told, gs := [], [g];
      assert h + [] == h;
    } else {
      var next, x := SignalHandlers.Step(c, g, last, t, h, base), Seen(g, t.next(h));
      ProperStays(c, g, next, t);
      StepIsDeed(c, g, last, t, h, base);
      var more, after := HandledPerforms(c, next, last, t, h + [x], base);
      DeedsCons(c, last, t, h, base, x, g, more, after);
      told, gs := [x] + more, [g] + after;
      assert h + told == h + [x] + more;
    }
  }

  lemma HandledIsPerformed(c: Code, g: Graph, last: nat, t: Handler, base: nat)
    requires c.Ok() && Sound(c, g, last) && Proper(c, g, t)
    ensures Performs(c, last, t, base, g, Handled(c, g, last, t, [], base))
  {
    var told, gs := HandledPerforms(c, g, last, t, [], base);
  }

  // ---------- what a program sees ----------

  /** A signal's value after the program has been told h, by its own puts. */
  function ValueAt(c: Code, t: Handler, h: seq<int>, s: Sig, start: int): int {
    if h == [] then start
    else
      var before := h[..|h| - 1];
      var was, a := ValueAt(c, t, before, s, start), t.next(before);
      if a.Put? then Written1(c, s, was, a.s, a.v) else was
  }

  lemma ValueAtSnoc(c: Code, t: Handler, h: seq<int>, x: int, s: Sig, start: int)
    ensures
      var was, a := ValueAt(c, t, h, s, start), t.next(h);
      ValueAt(c, t, h + [x], s, start) == if a.Put? then Written1(c, s, was, a.s, a.v) else was
  {
    assert (h + [x])[..|h + [x]| - 1] == h;
  }

  /** No effect may write the signal. */
  ghost predicate Unwritten(c: Code, s: Sig) {
    forall e :: s !in c.mayWrite(e)
  }

  lemma TurnSpares(c: Code, g: Graph, s: Sig)
    requires c.Ok() && Inv(c, g, {}) && g.pending != {} && s in g.vals && Unwritten(c, s)
    ensures s in Turn(c, g).vals && Turn(c, g).vals[s] == g.vals[s]
  {
    var e := Lowest(g.pending);
    CoversAfter(c, g, Popped(g, e));
    if e !in g.stopped {
      CoversAfter(c, g, Detach(Popped(g, e), e));
      ExecLeaves(c, Detach(Popped(g, e), e), e, [], s);
    }
  }

  lemma {:induction false} FlushSpares(c: Code, g: Graph, low: nat, last: nat, s: Sig)
    requires c.Ok() && Inv(c, g, {}) && Above(g, low) && Numbered(g, last) && s in g.vals && Unwritten(c, s)
    ensures s in Flushed(c, g, low, last).0.vals && Flushed(c, g, low, last).0.vals[s] == g.vals[s]
    decreases last - low
  {
    if g.pending != {} {
      TurnKeeps(c, g);
      TurnSpares(c, g, s);
      FlushSpares(c, Turn(c, g), Lowest(g.pending), last, s);
    }
  }

  lemma CalmsSpares(c: Code, g: Graph, g': Graph, last: nat, open: int, s: Sig)
    requires Calms(c, g, g', last, open) && s in g.vals && (open > 0 || Unwritten(c, s))
    ensures s in g'.vals && g'.vals[s] == g.vals[s]
  {
    if open <= 0 {
      FlushSpares(c, g, 0, last, s);
    }
  }

  lemma DeedPuts(c: Code, last: nat, t: Handler, h: seq<int>, x: int, g: Graph, g': Graph, open: int, s: Sig,
                 start: int)
    requires Deed1(c, last, t.next(h), x, g, g', open) && s in g.vals
    requires (open > 0 && (t.next(h).Close? ==> open > 1)) || Unwritten(c, s)
    requires g.vals[s] == ValueAt(c, t, h, s, start)
    ensures s in g'.vals && g'.vals[s] == ValueAt(c, t, h + [x], s, start)
  {
    ValueAtSnoc(c, t, h, x, s, start);
    var a := t.next(h);
    if a.Put? {
      AssignPuts(c, g, a.s, a.v, s);
      CalmsSpares(c, Assign(c, g, a.s, a.v), g', last, open, s);
    } else if a.Close? {
      CalmsSpares(c, g, g', last, open - 1, s);
    }
  }

  /**
   * A program sees its own puts. Inside a batch, and anywhere on a signal no effect writes, the
   * signal holds at every moment what the program's puts so far left of its value at the start.
   */
  lemma {:induction false} HoldsItsPuts(c: Code, last: nat, t: Handler, base: nat, told: seq<int>, gs: seq<Graph>,
                                        s: Sig, i: nat)
    requires Deeds(c, last, t, [], base, told, gs) && Proper(c, gs[0], t) && i <= |told|
    requires s in gs[0].vals && (base > 0 || Unwritten(c, s))
    ensures s in gs[i].vals && gs[i].vals[s] == ValueAt(c, t, told[..i], s, gs[0].vals[s])
    decreases i
  {
    if i > 0 {
      HoldsItsPuts(c, last, t, base, told, gs, s, i - 1);
      var h := told[..i - 1];
      assert [] + h == h && told[..i] == h + [told[i - 1]];
      assert DeedAt(c, last, t, [], base, told, gs, i - 1);
      OpenedNat(c, gs[0], t, h);
      DeedPuts(c, last, t, h, told[i - 1], gs[i - 1], gs[i], base + Opened(t, h), s, gs[0].vals[s]);
    } else {
      assert told[..0] == [];
    }
  }

  /**
   * A handler that looks at a signal is told the value it has at that moment. Inside a batch, or
   * when no effect writes the signal, that is the last value the handler put that changed it, and
   * before any such put the value at the start.
   */
  lemma LooksSee(c: Code, last: nat, t: Handler, base: nat, told: seq<int>, gs: seq<Graph>, i: nat)
    requires Deeds(c, last, t, [], base, told, gs) && Proper(c, gs[0], t)
    requires i < |told| && t.next(told[..i]).Look?
    ensures
      var s := t.next(told[..i]).s;
      && s in gs[i].vals && told[i] == gs[i].vals[s]
      && (s in gs[0].vals && (base > 0 || Unwritten(c, s)) ==>
            told[i] == ValueAt(c, t, told[..i], s, gs[0].vals[s]))
  {
    var s := t.next(told[..i]).s;
    assert [] + told[..i] == told[..i];
    assert DeedAt(c, last, t, [], base, told, gs, i);
    if s in gs[0].vals && (base > 0 || Unwritten(c, s)) {
      HoldsItsPuts(c, last, t, base, told, gs, s, i);
    }
  }

  /** A put between two moments that changed the signal, and none to it since: the later look sees it. */
  lemma {:induction false} LastPutStands(c: Code, t: Handler, told: seq<int>, s: Sig, start: int, j: nat, i: nat)
    requires j < i <= |told| && t.next(told[..j]).Put? && t.next(told[..j]).s == s
    requires !c.same(s, ValueAt(c, t, told[..j], s, start), t.next(told[..j]).v)
    requires forall k | j < k < i :: !(t.next(told[..k]).Put? && t.next(told[..k]).s == s)
    ensures ValueAt(c, t, told[..i], s, start) == t.next(told[..j]).v
    decreases i
  {
    var k := i - 1;
    assert told[..i] == told[..k] + [told[k]];
    ValueAtSnoc(c, t, told[..k], told[k], s, start);
    if j < k {
      LastPutStands(c, t, told, s, start, j, k);
    }
  }

  lemma {:induction false} NoPutYet(c: Code, t: Handler, told: seq<int>, s: Sig, start: int, i: nat)
    requires i <= |told| && forall k | 0 <= k < i :: !(t.next(told[..k]).Put? && t.next(told[..k]).s == s)
    ensures ValueAt(c, t, told[..i], s, start) == start
    decreases i
  {
    if i > 0 {
      assert told[..i] == told[..i - 1] + [told[i - 1]];
      ValueAtSnoc(c, t, told[..i - 1], told[i - 1], s, start);
      NoPutYet(c, t, told, s, start, i - 1);
    }
  }
}
