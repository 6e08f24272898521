/**
 * The reactive graph of core/signal/signal.go as a value: signals, effects, the two-way
 * dependency edges between them, and the queue. An effect's body is any deterministic program of
 * reads, peeks and writes.
 */
module SignalGraph {
  import opened Wrappers

  type Sig = nat
  type Eff = nat

  datatype Action = Read(s: Sig) | Peek(s: Sig) | Write(s: Sig, v: int) | Halt

  /**
   * What is fixed: the body of each effect as its next action after the values it has seen, a
   * bound on its length, the equality test of each signal (never true for one that always
   * notifies), the signals each body may read or write, and the output of each computed value.
   */
  datatype Code = Code(
    next: (Eff, seq<int>) -> Action,
    bound: Eff -> nat,
    same: (Sig, int, int) -> bool,
    mayRead: Eff -> set<Sig>,
    mayWrite: Eff -> set<Sig>,
    output: Eff -> Option<Sig>)
  {
    /** Bodies end, and stay within what they may read and write. */
    ghost predicate Bounded() {
      && (forall e, h :: |h| >= bound(e) ==> next(e, h) == Halt)
      && (forall e, h :: next(e, h).Read? ==> next(e, h).s in mayRead(e))
      && (forall e, h :: next(e, h).Write? ==> next(e, h).s in mayWrite(e))
    }

    /** Every effect writes only signals whose readers were created after it. */
    ghost predicate Ordered() {
      forall w, e, s :: s in mayWrite(w) && s in mayRead(e) ==> w < e
    }

    /** A computed value's output has no other writer, and its equality test means equality. */
    ghost predicate Derived() {
      forall e, s :: output(e) == Some(s) ==>
        mayWrite(e) == {s} && (forall w :: w != e ==> s !in mayWrite(w)) && (forall a, b :: same(s, a, b) ==> a == b)
    }

    ghost predicate Ok() {
      Bounded() && Ordered() && Derived()
    }
  }

  /** history holds, for each effect, the values its last run saw, action by action. */
  datatype Graph = Graph(
    vals: map<Sig, int>,
    subs: map<Sig, set<Eff>>,
    deps: map<Eff, seq<Sig>>,
    pending: set<Eff>,
    stopped: set<Eff>,
    history: map<Eff, seq<int>>)

  // ---------- the operations ----------

  /** Get: the running effect subscribes, once. */
  function Subscribe(g: Graph, e: Eff, s: Sig): Graph
    requires s in g.subs && e in g.deps
  {
    if e in g.subs[s] then g
    else g.(subs := g.subs[s := g.subs[s] + {e}], deps := g.deps[e := g.deps[e] + [s]])
  }

  /** Set, up to the flush: nothing when the test says the same, else store and queue the readers. */
  function Assign(c: Code, g: Graph, s: Sig, v: int): Graph
    requires s in g.vals && s in g.subs
  {
    if c.same(s, g.vals[s], v) then g
    else g.(vals := g.vals[s := v], pending := g.pending + (g.subs[s] - g.stopped))
  }

  /** Detach: the effect leaves every signal it depended on. */
  function Detach(g: Graph, e: Eff): Graph
    requires e in g.deps
  {
    g.(subs := map s | s in g.subs :: if s in g.deps[e] then g.subs[s] - {e} else g.subs[s],
       deps := g.deps[e := []])
  }

  /** Signals and effects the bodies mention exist. */
  ghost predicate Covers(c: Code, g: Graph) {
    && g.vals.Keys == g.subs.Keys && g.deps.Keys == g.history.Keys
    && (forall e, h | e in g.deps :: c.next(e, h).Halt? || c.next(e, h).s in g.vals)
    && (forall e | e in g.deps :: c.output(e).Some? ==> c.output(e).value in g.vals)
  }

  lemma CoversAfter(c: Code, g: Graph, g': Graph)
    requires Covers(c, g) && g'.vals.Keys == g.vals.Keys && g'.subs.Keys == g.subs.Keys
    requires g'.deps.Keys == g.deps.Keys && g'.history.Keys == g.history.Keys
    ensures Covers(c, g')
  {
  }

  /** The rest of effect e's run, after it has seen h. */
  function Exec(c: Code, g: Graph, e: Eff, h: seq<int>): (r: Graph)
    requires c.Bounded() && Covers(c, g) && e in g.deps
    ensures Covers(c, r) && r.vals.Keys == g.vals.Keys && r.deps.Keys == g.deps.Keys && r.stopped == g.stopped
    decreases if |h| < c.bound(e) then c.bound(e) - |h| else 0
  {
    var a := c.next(e, h);
    if a.Halt? then g.(history := g.history[e := h])
    else if a.Read? then Exec(c, Subscribe(g, e, a.s), e, h + [g.vals[a.s]])
    else if a.Peek? then Exec(c, g, e, h + [g.vals[a.s]])
    else Exec(c, Assign(c, g, a.s, a.v), e, h + [0])
  }

  /** run(): nothing for a stopped effect, otherwise detach and execute. */
  function Run(c: Code, g: Graph, e: Eff): (r: Graph)
    requires c.Bounded() && Covers(c, g) && e in g.deps
    ensures Covers(c, r) && r.vals.Keys == g.vals.Keys && r.deps.Keys == g.deps.Keys && r.stopped == g.stopped
  {
    if e in g.stopped then g else Exec(c, Detach(g, e), e, [])
  }

  function Lowest(es: set<Eff>): (m: Eff)
    requires es != {}
    ensures IsLowest(es, m)
  {
    LowestExists(es);
    var m :| IsLowest(es, m);
    m
  }

  predicate IsLowest(es: set<Eff>, m: Eff) {
    m in es && forall e | e in es :: m <= e
  }

  lemma {:induction false} LowestExists(es: set<Eff>)
    requires es != {}
    ensures exists m :: IsLowest(es, m)
    decreases |es|
  {
    var x :| x in es;
    var rest := es - {x};
    if rest == {} {
      assert es == {x};
      assert IsLowest(es, x);
    } else {
      LowestExists(rest);
      var m :| IsLowest(rest, m);
      LowerOf(es, x, m);
    }
  }

  lemma LowerOf(es: set<Eff>, x: Eff, m: Eff)
    requires x in es && IsLowest(es - {x}, m)
    ensures IsLowest(es, if x < m then x else m)
  {
    forall e | e in es ensures (if x < m then x else m) <= e {
      assert e == x || e in es - {x};
    }
  }

  // ---------- what holds between operations ----------

  /** The edges are two-way and without repeats; the queue holds effects that exist. */
  ghost predicate EdgesOk(g: Graph) {
    && (forall s, e | s in g.subs && e in g.subs[s] :: e in g.deps && s in g.deps[e])
    && (forall e, s | e in g.deps && s in g.deps[e] :: s in g.subs && e in g.subs[s])
    && (forall e | e in g.deps :: NoRepeats(g.deps[e]))
    && (forall e | e in g.deps && e in g.stopped :: g.deps[e] == [])
    && g.pending <= g.deps.Keys
  }

  predicate NoRepeats(s: seq<Sig>) {
    forall i, j | 0 <= i < j < |s| :: s[i] != s[j]
  }

  /** The value the last write in this history gave a computed value's output. */
  function Written(c: Code, e: Eff, h: seq<int>): Option<int> {
    if h == [] then None
    else
      var a := c.next(e, h[..|h| - 1]);
      if a.Write? then Some(a.v) else Written(c, e, h[..|h| - 1])
  }

  /** What an effect saw is what is there: every tracked read, and its own output. */
  ghost predicate Current(c: Code, g: Graph, e: Eff, h: seq<int>)
    requires e in g.deps
  {
    && (forall i | 0 <= i < |h| :: SawCurrent(c, g, e, h, i))
    && (c.output(e).Some? && Written(c, e, h).Some? ==>
          c.output(e).value in g.vals && g.vals[c.output(e).value] == Written(c, e, h).value)
  }

  ghost predicate SawCurrent(c: Code, g: Graph, e: Eff, h: seq<int>, i: nat)
    requires e in g.deps && i < |h|
  {
    match c.next(e, h[..i])
    case Read(s) => s in g.vals && h[i] == g.vals[s] && s in g.deps[e]
    case Write(_, _) => h[i] == 0
    case Peek(_) => true
    case Halt => false
  }

  /** The effect's last run is complete and what it saw is current. */
  ghost predicate UpToDate(c: Code, g: Graph, e: Eff)
    requires e in g.deps && e in g.history
  {
    c.next(e, g.history[e]).Halt? && Current(c, g, e, g.history[e])
  }

  /** Every live effect outside the queue, except perhaps one, is up to date. */
  ghost predicate Settled(c: Code, g: Graph, except: set<Eff>) {
    forall e | e in g.deps && e in g.history && e !in g.stopped && e !in g.pending && e !in except :: UpToDate(c, g, e)
  }

  /** Dependencies stay within what a body may read. */
  ghost predicate DepsOk(c: Code, g: Graph) {
    forall e, s | e in g.deps && s in g.deps[e] :: s in c.mayRead(e)
  }

  ghost predicate Inv(c: Code, g: Graph, except: set<Eff>) {
    Covers(c, g) && EdgesOk(g) && DepsOk(c, g) && Settled(c, g, except)
  }
}
