/** One flush of the reactive graph: order, termination, and what is true once it is quiet. */
module SignalTheorems {
  import opened Wrappers
  import opened SignalGraph

  /** Effect e is in the middle of its run and has seen h, all of it current. */
  ghost predicate Running(c: Code, g: Graph, e: Eff, h: seq<int>) {
    && Inv(c, g, {e}) && e in g.deps && e !in g.stopped && e !in g.pending && Current(c, g, e, h)
  }

  lemma SawSnoc(c: Code, g: Graph, e: Eff, h: seq<int>, x: int)
    requires e in g.deps && (forall i | 0 <= i < |h| :: SawCurrent(c, g, e, h, i))
    requires SawCurrent(c, g, e, h + [x], |h|)
    ensures forall i | 0 <= i < |h + [x]| :: SawCurrent(c, g, e, h + [x], i)
  {
    forall i | 0 <= i < |h + [x]| ensures SawCurrent(c, g, e, h + [x], i) {
      if i < |h| {
        assert SawCurrent(c, g, e, h, i);
        assert (h + [x])[..i] == h[..i] && (h + [x])[i] == h[i];
      }
    }
  }

  lemma WrittenSnoc(c: Code, e: Eff, h: seq<int>, x: int)
    ensures Written(c, e, h + [x]) == if c.next(e, h).Write? then Some(c.next(e, h).v) else Written(c, e, h)
  {
    assert (h + [x])[..|h + [x]| - 1] == h;
  }

  /** What an effect saw stays current while its dependencies and their values do. */
  lemma CurrentStays(c: Code, g: Graph, g': Graph, e: Eff, h: seq<int>)
    requires e in g.deps && e in g'.deps && Current(c, g, e, h)
    requires forall s | s in g.deps[e] :: s in g'.deps[e]
    requires forall s | s in g.deps[e] && s in g.vals :: s in g'.vals && g'.vals[s] == g.vals[s]
    requires c.output(e).Some? && c.output(e).value in g.vals ==>
      c.output(e).value in g'.vals && g'.vals[c.output(e).value] == g.vals[c.output(e).value]
    ensures Current(c, g', e, h)
  {
    forall i | 0 <= i < |h| ensures SawCurrent(c, g', e, h, i) {
      assert SawCurrent(c, g, e, h, i);
    }
  }

  // ---------- reading ----------

  lemma NoRepeatsSnoc(deps: seq<Sig>, s: Sig)
    requires NoRepeats(deps) && s !in deps
    ensures NoRepeats(deps + [s])
  {
  }

  lemma SubscribeEdges(g: Graph, e: Eff, s: Sig)
    requires EdgesOk(g) && s in g.subs && e in g.deps && e !in g.stopped
    ensures EdgesOk(Subscribe(g, e, s)) && s in Subscribe(g, e, s).deps[e]
  {
    if e !in g.subs[s] {
      NoRepeatsSnoc(g.deps[e], s);
    }
  }

  lemma SubscribeSettled(c: Code, g: Graph, e: Eff, s: Sig)
    requires Settled(c, g, {e}) && s in g.subs && e in g.deps
    ensures Settled(c, Subscribe(g, e, s), {e})
  {
    var g' := Subscribe(g, e, s);
    forall f | f in g'.deps && f in g'.history && f !in g'.stopped && f !in g'.pending && f != e
      ensures UpToDate(c, g', f)
    {
      assert UpToDate(c, g, f);
      CurrentStays(c, g, g', f, g.history[f]);
    }
  }

  lemma ReadKeeps(c: Code, g: Graph, e: Eff, h: seq<int>)
    requires c.Ok() && Running(c, g, e, h) && c.next(e, h).Read?
    ensures
      var s := c.next(e, h).s;
      s in g.subs && Running(c, Subscribe(g, e, s), e, h + [g.vals[s]])
  {
    var s := c.next(e, h).s;
    var g' := Subscribe(g, e, s);
    var longer := h + [g.vals[s]];
    SubscribeEdges(g, e, s);
    SubscribeSettled(c, g, e, s);
    CoversAfter(c, g, g');
    CurrentStays(c, g, g', e, h);
    assert longer[..|h|] == h;
    SawSnoc(c, g', e, h, g.vals[s]);
    WrittenSnoc(c, e, h, g.vals[s]);
  }

  lemma PeekKeeps(c: Code, g: Graph, e: Eff, h: seq<int>)
    requires c.Ok() && Running(c, g, e, h) && c.next(e, h).Peek?
    ensures c.next(e, h).s in g.vals && Running(c, g, e, h + [g.vals[c.next(e, h).s]])
  {
    var x := g.vals[c.next(e, h).s];
    assert (h + [x])[..|h|] == h;
    SawSnoc(c, g, e, h, x);
    WrittenSnoc(c, e, h, x);
  }

  // ---------- writing ----------

  /** A write moves no edge. */
  lemma AssignEdges(c: Code, g: Graph, s: Sig, v: int)
    requires EdgesOk(g) && s in g.vals && s in g.subs
    ensures EdgesOk(Assign(c, g, s, v))
  {
    var g' := Assign(c, g, s, v);
    assert g'.subs == g.subs && g'.deps == g.deps && g'.stopped == g.stopped;
    assert g'.pending <= g.deps.Keys;
  }

  lemma AssignCovers(c: Code, g: Graph, s: Sig, v: int)
    requires Covers(c, g) && DepsOk(c, g) && s in g.vals
    ensures Covers(c, Assign(c, g, s, v)) && DepsOk(c, Assign(c, g, s, v))
  {
    CoversAfter(c, g, Assign(c, g, s, v));
  }

  /** A write leaves alone every effect it does not wake. */
  lemma AssignSettled(c: Code, g: Graph, s: Sig, v: int, except: set<Eff>)
    requires Inv(c, g, except) && s in g.vals
    requires forall f | f in g.deps && f !in except :: c.output(f) != Some(s)
    ensures Inv(c, Assign(c, g, s, v), except)
  {
    AssignEdges(c, g, s, v);
    AssignCovers(c, g, s, v);
    if !c.same(s, g.vals[s], v) {
      AssignWakes(c, g, s, v, except);
    }
  }

  lemma AssignWakes(c: Code, g: Graph, s: Sig, v: int, except: set<Eff>)
    requires Inv(c, g, except) && s in g.vals && !c.same(s, g.vals[s], v)
    requires forall f | f in g.deps && f !in except :: c.output(f) != Some(s)
    ensures Settled(c, Assign(c, g, s, v), except)
  {
    var g' := Assign(c, g, s, v);
    forall f | f in g'.deps && f in g'.history && f !in g'.stopped && f !in g'.pending && f !in except
      ensures UpToDate(c, g', f)
    {
      NotWoken(c, g, s, v, except, f);
    }
  }

  lemma NotWoken(c: Code, g: Graph, s: Sig, v: int, except: set<Eff>, f: Eff)
    requires Inv(c, g, except) && s in g.vals && f in g.deps && f !in g.stopped && f !in except
    requires !c.same(s, g.vals[s], v) && f !in Assign(c, g, s, v).pending && c.output(f) != Some(s)
    ensures UpToDate(c, Assign(c, g, s, v), f)
  {
    assert UpToDate(c, g, f);
    assert f !in g.subs[s];
    CurrentStays(c, g, Assign(c, g, s, v), f, g.history[f]);
  }

  lemma WriteKeeps(c: Code, g: Graph, e: Eff, h: seq<int>)
    requires c.Ok() && Running(c, g, e, h) && c.next(e, h).Write?
    ensures
      var s, v := c.next(e, h).s, c.next(e, h).v;
      && s in g.vals && Running(c, Assign(c, g, s, v), e, h + [0])
      && forall f | f in Assign(c, g, s, v).pending :: f in g.pending || e < f
  {
    var s, v := c.next(e, h).s, c.next(e, h).v;
    var g' := Assign(c, g, s, v);
    AssignSettled(c, g, s, v, {e});
    forall f | f in g.subs[s] ensures e < f {
      assert s in g.deps[f] && s in c.mayRead(f) && s in c.mayWrite(e);
    }
    assert s !in g.deps[e];
    OutputFollows(c, g, g', e, h, s, v);
  }

  /** The history stays current across the effect's own write, which is now its last. */
  lemma OutputFollows(c: Code, g: Graph, g': Graph, e: Eff, h: seq<int>, s: Sig, v: int)
    requires c.Ok() && e in g.deps && s in g.vals && s in g.subs && Current(c, g, e, h) && s !in g.deps[e]
    requires c.next(e, h) == Write(s, v) && g' == Assign(c, g, s, v)
    ensures Current(c, g', e, h + [0])
  {
    forall i | 0 <= i < |h| ensures SawCurrent(c, g', e, h, i) {
      assert SawCurrent(c, g, e, h, i);
    }
    assert (h + [0])[..|h|] == h;
    SawSnoc(c, g', e, h, 0);
    WrittenSnoc(c, e, h, 0);
    assert s in c.mayWrite(e);
  }

  // ---------- a whole run ----------

  lemma HaltKeeps(c: Code, g: Graph, e: Eff, h: seq<int>)
    requires c.Ok() && Running(c, g, e, h) && c.next(e, h).Halt?
    ensures Inv(c, g.(history := g.history[e := h]), {})
  {
    var g' := g.(history := g.history[e := h]);
    CoversAfter(c, g, g');
    CurrentStays(c, g, g', e, h);
    forall f | f in g'.deps && f in g'.history && f !in g'.stopped && f !in g'.pending ensures UpToDate(c, g', f) {
      if f != e {
        assert UpToDate(c, g, f);
        CurrentStays(c, g, g', f, g.history[f]);
      }
    }
  }

  /** A run ends up to date, and wakes only effects created later. */
  lemma {:induction false} ExecKeeps(c: Code, g: Graph, e: Eff, h: seq<int>)
    requires c.Ok() && Running(c, g, e, h)
    ensures Inv(c, Exec(c, g, e, h), {})
    ensures forall f | f in Exec(c, g, e, h).pending :: f in g.pending || e < f
    decreases if |h| < c.bound(e) then c.bound(e) - |h| else 0
  {
    match c.next(e, h)
    case Halt => HaltKeeps(c, g, e, h);
    case Read(s) =>
      ReadKeeps(c, g, e, h);
      ExecKeeps(c, Subscribe(g, e, s), e, h + [g.vals[s]]);
    case Peek(s) =>
      PeekKeeps(c, g, e, h);
      ExecKeeps(c, g, e, h + [g.vals[s]]);
    case Write(s, v) =>
      WriteKeeps(c, g, e, h);
      ExecKeeps(c, Assign(c, g, s, v), e, h + [0]);
  }

  lemma DetachEdges(g: Graph, e: Eff)
    requires EdgesOk(g) && e in g.deps
    ensures EdgesOk(Detach(g, e))
    ensures forall s | s in Detach(g, e).subs :: e !in Detach(g, e).subs[s]
  {
    var g' := Detach(g, e);
    forall s, f | s in g'.subs && f in g'.subs[s] ensures f in g'.deps && s in g'.deps[f] {
      assert f in g.subs[s] && f != e;
    }
    forall f, s | f in g'.deps && s in g'.deps[f] ensures s in g'.subs && f in g'.subs[s] {
      assert s in g.deps[f] && f != e;
    }
  }

  lemma DetachKeeps(c: Code, g: Graph, e: Eff)
    requires c.Ok() && Inv(c, g, {e}) && e in g.deps && e !in g.stopped && e !in g.pending
    ensures Running(c, Detach(g, e), e, [])
  {
    var g' := Detach(g, e);
    DetachEdges(g, e);
    CoversAfter(c, g, g');
    forall f | f in g'.deps && f in g'.history && f !in g'.stopped && f !in g'.pending && f != e
      ensures UpToDate(c, g', f)
    {
      assert UpToDate(c, g, f);
      CurrentStays(c, g, g', f, g.history[f]);
    }
  }

  lemma RunKeeps(c: Code, g: Graph, e: Eff)
    requires c.Ok() && Inv(c, g, {e}) && e in g.deps && e !in g.pending
    ensures Inv(c, Run(c, g, e), {})
    ensures forall f | f in Run(c, g, e).pending :: f in g.pending || e < f
  {
    if e !in g.stopped {
      DetachKeeps(c, g, e);
      ExecKeeps(c, Detach(g, e), e, []);
    }
  }

  // ---------- the flush ----------

  /** Nothing at or below a point is queued. */
  ghost predicate Above(g: Graph, low: nat) {
    forall e | e in g.pending :: low < e
  }

  /** Ids run up to the last one given. */
  ghost predicate Numbered(g: Graph, last: nat) {
    forall e | e in g.deps :: e <= last
  }

  function Popped(g: Graph, e: Eff): Graph {
    g.(pending := g.pending - {e})
  }

  lemma PoppedKeeps(c: Code, g: Graph, e: Eff)
    requires Inv(c, g, {}) && e in g.pending
    ensures Inv(c, Popped(g, e), {e})
  {
    var g' := Popped(g, e);
    CoversAfter(c, g, g');
    forall f | f in g'.deps && f in g'.history && f !in g'.stopped && f !in g'.pending && f != e
      ensures UpToDate(c, g', f)
    {
      assert UpToDate(c, g, f);
      CurrentStays(c, g, g', f, g.history[f]);
    }
  }

  /** One turn of the loop: the lowest queued effect leaves the queue and runs. */
  function Turn(c: Code, g: Graph): (r: Graph)
    requires c.Bounded() && Covers(c, g) && g.pending != {} && g.pending <= g.deps.Keys
  {
    var e := Lowest(g.pending);
    CoversAfter(c, g, Popped(g, e));
    Run(c, Popped(g, e), e)
  }

  lemma TurnKeeps(c: Code, g: Graph)
    requires c.Ok() && Inv(c, g, {}) && g.pending != {}
    ensures
      var e, r := Lowest(g.pending), Turn(c, g);
      Inv(c, r, {}) && Above(r, e) && r.vals.Keys == g.vals.Keys && r.deps.Keys == g.deps.Keys && r.stopped == g.stopped
  {
    var e := Lowest(g.pending);
    PoppedKeeps(c, g, e);
    RunKeeps(c, Popped(g, e), e);
  }

  /** The flush, turn by turn: the state it leaves and the effects it popped, in order. */
  ghost function Flushed(c: Code, g: Graph, low: nat, last: nat): (r: (Graph, seq<Eff>))
    requires c.Ok() && Inv(c, g, {}) && Above(g, low) && Numbered(g, last)
    decreases last - low
  {
    if g.pending == {} then (g, [])
    else
      var e := Lowest(g.pending);
      TurnKeeps(c, g);
      var rest := Flushed(c, Turn(c, g), e, last);
      (rest.0, [e] + rest.1)
  }

  predicate Increasing(es: seq<Eff>, low: nat) {
    es == [] || (low < es[0] && Increasing(es[1..], es[0]))
  }

  lemma IncreasingApart(es: seq<Eff>, low: nat, i: nat, j: nat)
    requires Increasing(es, low) && i < j < |es|
    ensures low < es[i] < es[j]
  {
    if i > 0 {
      IncreasingApart(es[1..], es[0], i - 1, j - 1);
    } else if j > 1 {
      IncreasingApart(es[1..], es[0], 0, j - 1);
    }
  }

  /**
   * One flush pops effects in strictly increasing creation order, so each at most once; it leaves
   * nothing queued and every live effect up to date.
   */
  lemma {:induction false} FlushSettles(c: Code, g: Graph, low: nat, last: nat)
    requires c.Ok() && Inv(c, g, {}) && Above(g, low) && Numbered(g, last)
    ensures
      var (r, ran) := Flushed(c, g, low, last);
      Inv(c, r, {}) && r.pending == {} && Increasing(ran, low)
    decreases last - low
  {
    if g.pending != {} {
      var e := Lowest(g.pending);
      TurnKeeps(c, g);
      FlushSettles(c, Turn(c, g), e, last);
      var rest := Flushed(c, Turn(c, g), e, last).1;
      assert ([e] + rest)[1..] == rest;
    }
  }

  // ---------- computed values ----------

  /** The body neither peeks nor depends on anything it does not track. */
  ghost predicate Tracked(c: Code, e: Eff) {
    forall h :: !c.next(e, h).Peek?
  }

  /** The history of the body when every read sees these values. */
  function Replay(c: Code, e: Eff, vals: map<Sig, int>, h: seq<int>): (r: seq<int>)
    requires c.Bounded()
    decreases if |h| < c.bound(e) then c.bound(e) - |h| else 0
  {
    match c.next(e, h)
    case Halt => h
    case Write(_, _) => Replay(c, e, vals, h + [0])
    case Read(s) => Replay(c, e, vals, h + [if s in vals then vals[s] else 0])
    case Peek(s) => Replay(c, e, vals, h + [if s in vals then vals[s] else 0])
  }

  /** The value a computed body gives as a function of the signals alone. */
  function Computed(c: Code, e: Eff, vals: map<Sig, int>): Option<int>
    requires c.Bounded()
  {
    Written(c, e, Replay(c, e, vals, []))
  }

  lemma {:induction false} ReplayIsHistory(c: Code, g: Graph, e: Eff, n: nat)
    requires c.Ok() && e in g.deps && e in g.history && UpToDate(c, g, e) && Tracked(c, e) && n <= |g.history[e]|
    ensures Replay(c, e, g.vals, g.history[e][..n]) == g.history[e]
    decreases |g.history[e]| - n
  {
    var h := g.history[e];
    if n == |h| {
      assert h[..n] == h;
    } else {
      assert SawCurrent(c, g, e, h, n);
      assert h[..n + 1] == h[..n] + [h[n]];
      ReplayIsHistory(c, g, e, n + 1);
      assert c.next(e, h[..n]).Read? || c.next(e, h[..n]).Write?;
    }
  }

  /**
   * At quiescence a live computed value equals its function of the current signals, however its
   * dependencies changed from run to run.
   */
  lemma ComputedIsCurrent(c: Code, g: Graph, e: Eff, out: Sig)
    requires c.Ok() && Inv(c, g, {}) && e in g.deps && e !in g.pending && e !in g.stopped
    requires Tracked(c, e) && c.output(e) == Some(out) && Computed(c, e, g.vals).Some?
    ensures out in g.vals && Some(g.vals[out]) == Computed(c, e, g.vals)
  {
    assert UpToDate(c, g, e);
    assert g.history[e][..0] == [];
    ReplayIsHistory(c, g, e, 0);
  }

  /**
   * No effect sees a stale derived value: when the flush pops an effect, every live computed value
   * created before it already equals its function of the current signals.
   */
  lemma PoppedSeesCurrent(c: Code, g: Graph, e: Eff, d: Eff, out: Sig)
    requires c.Ok() && Inv(c, g, {}) && g.pending != {} && e == Lowest(g.pending)
    requires d in g.deps && d < e && d !in g.stopped && Tracked(c, d) && c.output(d) == Some(out)
    requires Computed(c, d, g.vals).Some?
    ensures out in g.vals && Some(g.vals[out]) == Computed(c, d, g.vals)
  {
    ComputedIsCurrent(c, g, d, out);
  }

  /** Exec changes only what the body may write. */
  lemma {:induction false} ExecLeaves(c: Code, g: Graph, e: Eff, h: seq<int>, s: Sig)
    requires c.Bounded() && Covers(c, g) && e in g.deps && s in g.vals && s !in c.mayWrite(e)
    ensures s in Exec(c, g, e, h).vals && Exec(c, g, e, h).vals[s] == g.vals[s]
    decreases if |h| < c.bound(e) then c.bound(e) - |h| else 0
  {
    match c.next(e, h)
    case Halt =>
    case Read(r) => ExecLeaves(c, Subscribe(g, e, r), e, h + [g.vals[r]], s);
    case Peek(r) => ExecLeaves(c, g, e, h + [g.vals[r]], s);
    case Write(w, v) => ExecLeaves(c, Assign(c, g, w, v), e, h + [0], s);
  }

  /** One turn leaves what an earlier effect may read. */
  lemma TurnLeaves(c: Code, g: Graph, low: nat, last: nat, e: Eff, s: Sig)
    requires c.Ok() && Inv(c, g, {}) && Above(g, low) && Numbered(g, last) && g.pending != {}
    requires e <= low && s in c.mayRead(e) && s in g.vals
    ensures s in Turn(c, g).vals && Turn(c, g).vals[s] == g.vals[s]
  {
    var w := Lowest(g.pending);
    TurnKeeps(c, g);
    assert s !in c.mayWrite(w);
    if w !in g.stopped {
      ExecLeaves(c, Detach(Popped(g, w), w), w, [], s);
    }
  }

  /** Nor do they go stale later: nothing the rest of the flush runs writes what e may read. */
  lemma {:induction false} FlushLeaves(c: Code, g: Graph, low: nat, last: nat, e: Eff, s: Sig)
    requires c.Ok() && Inv(c, g, {}) && Above(g, low) && Numbered(g, last)
    requires e <= low && s in c.mayRead(e) && s in g.vals
    ensures s in Flushed(c, g, low, last).0.vals && Flushed(c, g, low, last).0.vals[s] == g.vals[s]
    decreases last - low
  {
    if g.pending != {} {
      TurnKeeps(c, g);
      TurnLeaves(c, g, low, last, e, s);
      FlushLeaves(c, Turn(c, g), Lowest(g.pending), last, e, s);
    }
  }

  // ---------- between operations ----------

  /** A graph between operations: the invariant, with every id in use between 1 and the last. */
  ghost predicate Sound(c: Code, g: Graph, last: nat) {
    Inv(c, g, {}) && Numbered(g, last) && Above(g, 0) && 0 !in g.deps
  }

  /** No computed value owns the signal, so anyone may set it. */
  ghost predicate Input(c: Code, g: Graph, s: Sig) {
    forall e | e in g.deps :: c.output(e) != Some(s)
  }

  /** r and ran are what draining the graph's queue leaves, and nothing is queued afterwards. */
  ghost predicate Drains(c: Code, g: Graph, r: Graph, ran: seq<Eff>, last: nat) {
    && c.Ok() && Sound(c, g, last) && r == Flushed(c, g, 0, last).0 && ran == Flushed(c, g, 0, last).1
    && r.pending == {} && Increasing(ran, 0)
  }

  /** Draining keeps the graph sound, and empties the queue in creation order. */
  lemma DrainKeeps(c: Code, g: Graph, last: nat)
    requires c.Ok() && Sound(c, g, last)
    ensures
      var (r, ran) := Flushed(c, g, 0, last);
      Sound(c, r, last) && Drains(c, g, r, ran, last)
  {
    FlushSettles(c, g, 0, last);
    FlushFrame(c, g, 0, last);
  }

  lemma {:induction false} FlushFrame(c: Code, g: Graph, low: nat, last: nat)
    requires c.Ok() && Inv(c, g, {}) && Above(g, low) && Numbered(g, last)
    ensures
      var r := Flushed(c, g, low, last).0;
      r.deps.Keys == g.deps.Keys && r.vals.Keys == g.vals.Keys && r.stopped == g.stopped
    decreases last - low
  {
    if g.pending != {} {
      TurnKeeps(c, g);
      FlushFrame(c, Turn(c, g), Lowest(g.pending), last);
    }
  }

  lemma AssignOutside(c: Code, g: Graph, s: Sig, v: int, last: nat)
    requires c.Ok() && Sound(c, g, last) && s in g.vals && Input(c, g, s)
    ensures s in g.subs && Sound(c, Assign(c, g, s, v), last)
  {
    AssignSettled(c, g, s, v, {});
    WokenAbove(c, g, s, v);
  }

  lemma WokenAbove(c: Code, g: Graph, s: Sig, v: int)
    requires EdgesOk(g) && Above(g, 0) && 0 !in g.deps && s in g.vals && s in g.subs
    ensures Above(Assign(c, g, s, v), 0)
  {
    forall f | f in Assign(c, g, s, v).pending ensures 0 < f {
      assert f in g.pending || f in g.subs[s];
    }
  }

  /** A new effect's body mentions signals that exist. */
  ghost predicate Known(c: Code, g: Graph, e: Eff) {
    (forall h :: c.next(e, h).Halt? || c.next(e, h).s in g.vals) && (c.output(e).Some? ==> c.output(e).value in g.vals)
  }

  function Added(g: Graph, e: Eff): Graph {
    g.(deps := g.deps[e := []], history := g.history[e := []])
  }

  ghost predicate Addable(c: Code, g: Graph, e: Eff) {
    c.Ok() && Covers(c, Added(g, e)) && e in Added(g, e).deps
  }

  lemma AddedCovers(c: Code, g: Graph, e: Eff)
    requires c.Ok() && Covers(c, g) && Known(c, g, e) && e !in g.deps
    ensures Addable(c, g, e)
  {
    var g' := Added(g, e);
    forall f, h | f in g'.deps ensures c.next(f, h).Halt? || c.next(f, h).s in g'.vals {
      assert f in g.deps || f == e;
    }
  }

  lemma AddedSettled(c: Code, g: Graph, e: Eff)
    requires Settled(c, g, {}) && e !in g.deps
    ensures Settled(c, Added(g, e), {e})
  {
    var g' := Added(g, e);
    forall f | f in g'.deps && f in g'.history && f !in g'.stopped && f !in g'.pending && f != e
      ensures UpToDate(c, g', f)
    {
      assert UpToDate(c, g, f);
      CurrentStays(c, g, g', f, g.history[f]);
    }
  }

  lemma AddedEdges(c: Code, g: Graph, e: Eff)
    requires EdgesOk(g) && DepsOk(c, g) && e !in g.deps
    ensures EdgesOk(Added(g, e)) && DepsOk(c, Added(g, e)) && e !in g.pending
  {
  }

  /** A new effect reads nothing yet, and only it has still to run. */
  lemma AddedKeeps(c: Code, g: Graph, e: Eff, last: nat)
    requires c.Ok() && Sound(c, g, last) && Known(c, g, e) && e == last + 1
    ensures Addable(c, g, e) && Inv(c, Added(g, e), {e}) && Numbered(Added(g, e), e) && e !in g.pending
    ensures Above(Added(g, e), 0)
  {
    assert e !in g.deps;
    AddedCovers(c, g, e);
    AddedEdges(c, g, e);
    AddedSettled(c, g, e);
  }

  /** The first run leaves the graph sound. */
  lemma FirstRunKeeps(c: Code, g: Graph, e: Eff, last: nat)
    requires c.Ok() && Sound(c, g, last) && Known(c, g, e) && e == last + 1
    ensures Addable(c, g, e) && Sound(c, Run(c, Added(g, e), e), e)
  {
    AddedKeeps(c, g, e, last);
    RunKeeps(c, Added(g, e), e);
  }

  function Stopped(g: Graph, e: Eff): Graph
    requires e in g.deps
  {
    Detach(g, e).(stopped := g.stopped + {e})
  }

  lemma StoppedEdges(c: Code, g: Graph, e: Eff)
    requires EdgesOk(g) && DepsOk(c, g) && e in g.deps
    ensures EdgesOk(Stopped(g, e)) && DepsOk(c, Stopped(g, e))
    ensures forall s | s in Stopped(g, e).subs :: e !in Stopped(g, e).subs[s]
  {
    DetachEdges(g, e);
  }

  lemma StoppedSettled(c: Code, g: Graph, e: Eff)
    requires Settled(c, g, {}) && e in g.deps
    ensures Settled(c, Stopped(g, e), {})
  {
    var g' := Stopped(g, e);
    forall f | f in g'.deps && f in g'.history && f !in g'.stopped && f !in g'.pending ensures UpToDate(c, g', f) {
      assert UpToDate(c, g, f);
      CurrentStays(c, g, g', f, g.history[f]);
    }
  }

  lemma StoppedKeeps(c: Code, g: Graph, e: Eff)
    requires Inv(c, g, {}) && e in g.deps
    ensures Inv(c, Stopped(g, e), {}) && forall s | s in Stopped(g, e).subs :: e !in Stopped(g, e).subs[s]
    ensures Stopped(g, e).deps.Keys == g.deps.Keys && Stopped(g, e).pending == g.pending
  {
    CoversAfter(c, g, Stopped(g, e));
    StoppedEdges(c, g, e);
    StoppedSettled(c, g, e);
  }

  lemma StoppedSound(c: Code, g: Graph, e: Eff, last: nat)
    requires Sound(c, g, last) && e in g.deps
    ensures Sound(c, Stopped(g, e), last) && forall s | s in Stopped(g, e).subs :: e !in Stopped(g, e).subs[s]
  {
    StoppedKeeps(c, g, e);
  }
}
