/**
 * Code outside any effect: an event handler, the body of a Batch, a cleanup of a scope. It reads
 * and writes signals and opens batches, as a deterministic program of what it has seen.
 */
module SignalHandlers {
  import opened SignalGraph
  import opened SignalTheorems

  /** What the program does next. Outside an effect a Get subscribes nobody, just as a Peek. */
  datatype Deed = Look(s: Sig) | Put(s: Sig, v: int) | Open | Close | Return

  datatype Handler = Handler(next: seq<int> -> Deed, bound: nat)

  /** The inner batches the program has open after it has seen h. */
  function Opened(t: Handler, h: seq<int>): int {
    if h == [] then 0
    else
      var before := h[..|h| - 1];
      Opened(t, before) + if t.next(before).Open? then 1 else if t.next(before).Close? then -1 else 0
  }

  lemma OpenedSnoc(t: Handler, h: seq<int>, x: int)
    ensures Opened(t, h + [x]) == Opened(t, h) + if t.next(h).Open? then 1 else if t.next(h).Close? then -1 else 0
  {
    assert (h + [x])[..|h + [x]| - 1] == h;
  }

  /** The program ends, its batches nest, and it writes no computed value's output. */
  ghost predicate Proper(c: Code, g: Graph, t: Handler) {
    && (forall h :: |h| >= t.bound ==> t.next(h).Return?)
    && (forall h {:trigger Opened(t, h)} :: t.next(h).Return? ==> Opened(t, h) == 0)
    && (forall h {:trigger Opened(t, h)} :: t.next(h).Close? ==> Opened(t, h) > 0)
    && (forall h :: t.next(h).Look? ==> t.next(h).s in g.vals)
    && (forall h :: t.next(h).Put? ==> t.next(h).s in g.vals && Input(c, g, t.next(h).s))
  }

  lemma ProperStays(c: Code, g: Graph, g': Graph, t: Handler)
    requires Proper(c, g, t) && g'.vals.Keys == g.vals.Keys && g'.deps.Keys == g.deps.Keys
    ensures Proper(c, g', t)
  {
  }

  lemma {:induction false} OpenedNat(c: Code, g: Graph, t: Handler, h: seq<int>)
    requires Proper(c, g, t)
    ensures Opened(t, h) >= 0
    decreases |h|
  {
    if h != [] {
      OpenedNat(c, g, t, h[..|h| - 1]);
    }
  }

  /** What two graphs share when only effects ran in between. */
  predicate SameFrame(g: Graph, g': Graph) {
    g'.vals.Keys == g.vals.Keys && g'.deps.Keys == g.deps.Keys && g'.stopped == g.stopped
  }

  /** flush(): the queue drains unless a batch is open. */
  ghost function Quiet(c: Code, g: Graph, last: nat, open: nat): (r: Graph)
    requires c.Ok() && Sound(c, g, last)
    ensures Sound(c, r, last) && SameFrame(g, r)
  {
    DrainKeeps(c, g, last);
    FlushFrame(c, g, 0, last);
    if open == 0 then Flushed(c, g, 0, last).0 else g
  }

  /** Set: store and wake, then flush. */
  ghost function PutDown(c: Code, g: Graph, last: nat, s: Sig, v: int, open: nat): (r: Graph)
    requires c.Ok() && Sound(c, g, last) && s in g.vals && Input(c, g, s)
    ensures Sound(c, r, last) && SameFrame(g, r)
  {
    AssignOutside(c, g, s, v, last);
    Quiet(c, Assign(c, g, s, v), last, open)
  }

  /** The graph after one deed, with base batches open around the program. */
  ghost function Step(c: Code, g: Graph, last: nat, t: Handler, h: seq<int>, base: nat): (r: Graph)
    requires c.Ok() && Sound(c, g, last) && Proper(c, g, t)
    ensures Sound(c, r, last) && SameFrame(g, r)
  {
    OpenedNat(c, g, t, h);
    var a := t.next(h);
    if a.Put? then PutDown(c, g, last, a.s, a.v, base + Opened(t, h))
    else if a.Close? then Quiet(c, g, last, base + Opened(t, h) - 1)
    else g
  }

  /** What the program sees of one deed: the value it looked at. */
  function Seen(g: Graph, a: Deed): int
    requires a.Look? ==> a.s in g.vals
  {
    if a.Look? then g.vals[a.s] else 0
  }

  /** The rest of the program, after it has seen h. */
  ghost function Handled(c: Code, g: Graph, last: nat, t: Handler, h: seq<int>, base: nat): (r: Graph)
    requires c.Ok() && Sound(c, g, last) && Proper(c, g, t)
    ensures Sound(c, r, last) && SameFrame(g, r)
    decreases if |h| < t.bound then t.bound - |h| else 0
  {
    if t.next(h).Return? then g
    else
      var next := Step(c, g, last, t, h, base);
      ProperStays(c, g, next, t);
      Handled(c, next, last, t, h + [Seen(g, t.next(h))], base)
  }

  lemma StepDefers(c: Code, g: Graph, last: nat, t: Handler, h: seq<int>, base: nat)
    requires c.Ok() && Sound(c, g, last) && Proper(c, g, t) && base > 0
    ensures
      var r := Step(c, g, last, t, h, base);
      r.deps == g.deps && r.subs == g.subs && r.history == g.history && g.pending <= r.pending
  {
    OpenedNat(c, g, t, h);
  }

  /** Inside a batch no effect runs: values change and the queue grows, the edges and what ran stay. */
  lemma {:induction false} BatchDefers(c: Code, g: Graph, last: nat, t: Handler, h: seq<int>, base: nat)
    requires c.Ok() && Sound(c, g, last) && Proper(c, g, t) && base > 0
    ensures
      var r := Handled(c, g, last, t, h, base);
      r.deps == g.deps && r.subs == g.subs && r.history == g.history && g.pending <= r.pending
    decreases if |h| < t.bound then t.bound - |h| else 0
  {
    if !t.next(h).Return? {
      StepDefers(c, g, last, t, h, base);
      var next := Step(c, g, last, t, h, base);
      ProperStays(c, g, next, t);
      BatchDefers(c, next, last, t, h + [Seen(g, t.next(h))], base);
    }
  }

  // ---------- the cleanups of a scope ----------

  /** What a scope releases: an effect, or whatever function was registered. */
  datatype Cleanup = Stops(e: Eff) | Calls(t: Handler)

  ghost predicate Fit(c: Code, g: Graph, cleanup: Cleanup) {
    if cleanup.Stops? then cleanup.e in g.deps else Proper(c, g, cleanup.t)
  }

  lemma FitStays(c: Code, g: Graph, g': Graph, cleanup: Cleanup)
    requires Fit(c, g, cleanup) && g'.vals.Keys == g.vals.Keys && g'.deps.Keys == g.deps.Keys
    ensures Fit(c, g', cleanup)
  {
  }

  ghost function Cleaned(c: Code, g: Graph, last: nat, cleanup: Cleanup, base: nat): (r: Graph)
    requires c.Ok() && Sound(c, g, last) && Fit(c, g, cleanup)
    ensures Sound(c, r, last) && r.vals.Keys == g.vals.Keys && r.deps.Keys == g.deps.Keys
    ensures r.stopped == g.stopped + if cleanup.Stops? then {cleanup.e} else {}
  {
    if cleanup.Stops? then
      StoppedSound(c, g, cleanup.e, last);
      Stopped(g, cleanup.e)
    else Handled(c, g, last, cleanup.t, [], base)
  }

  /** The cleanups from the last to the first. */
  ghost function CleanedAll(c: Code, g: Graph, last: nat, cleanups: seq<Cleanup>, base: nat): (r: Graph)
    requires c.Ok() && Sound(c, g, last) && forall x | x in cleanups :: Fit(c, g, x)
    ensures Sound(c, r, last) && r.vals.Keys == g.vals.Keys && r.deps.Keys == g.deps.Keys
  {
    if cleanups == [] then g
    else
      var rest := CleanedAll(c, g, last, cleanups[1..], base);
      FitStays(c, g, rest, cleanups[0]);
      Cleaned(c, rest, last, cleanups[0], base)
  }

  lemma FitAfter(c: Code, g: Graph, last: nat, cleanups: seq<Cleanup>, x: Cleanup, base: nat)
    requires c.Ok() && Sound(c, g, last) && Fit(c, g, x) && forall y | y in cleanups :: Fit(c, g, y)
    ensures forall y | y in cleanups :: Fit(c, Cleaned(c, g, last, x, base), y)
    ensures forall y | y in cleanups + [x] :: Fit(c, g, y)
  {
    forall y | y in cleanups ensures Fit(c, Cleaned(c, g, last, x, base), y) {
      FitStays(c, g, Cleaned(c, g, last, x, base), y);
    }
  }

  lemma CleanedCons(c: Code, g: Graph, last: nat, x: Cleanup, rest: seq<Cleanup>, base: nat)
    requires c.Ok() && Sound(c, g, last) && forall y | y in [x] + rest :: Fit(c, g, y)
    ensures forall y | y in rest :: Fit(c, g, y)
    ensures Fit(c, CleanedAll(c, g, last, rest, base), x)
    ensures CleanedAll(c, g, last, [x] + rest, base)
         == Cleaned(c, CleanedAll(c, g, last, rest, base), last, x, base)
  {
    assert ([x] + rest)[1..] == rest && x in [x] + rest;
    assert forall y | y in rest :: y in [x] + rest;
    FitStays(c, g, CleanedAll(c, g, last, rest, base), x);
  }

  lemma CleanedOne(c: Code, g: Graph, last: nat, x: Cleanup, base: nat)
    requires c.Ok() && Sound(c, g, last) && Fit(c, g, x)
    ensures CleanedAll(c, g, last, [x], base) == Cleaned(c, g, last, x, base)
  {
    assert [x][1..] == [];
  }

  /** The last cleanup registered goes first. */
  lemma {:induction false} LastGoesFirst(c: Code, g: Graph, last: nat, cleanups: seq<Cleanup>, x: Cleanup, base: nat)
    requires c.Ok() && Sound(c, g, last) && Fit(c, g, x) && forall y | y in cleanups :: Fit(c, g, y)
    ensures forall y | y in cleanups :: Fit(c, Cleaned(c, g, last, x, base), y)
    ensures forall y | y in cleanups + [x] :: Fit(c, g, y)
    ensures CleanedAll(c, g, last, cleanups + [x], base)
         == CleanedAll(c, Cleaned(c, g, last, x, base), last, cleanups, base)
    decreases |cleanups|
  {
    FitAfter(c, g, last, cleanups, x, base);
    if cleanups == [] {
      assert [] + [x] == [x];
      CleanedOne(c, g, last, x, base);
    } else {
      var head, tail := cleanups[0], cleanups[1..];
      assert cleanups == [head] + tail && cleanups + [x] == [head] + (tail + [x]);
      LastGoesFirst(c, g, last, tail, x, base);
      CleanedCons(c, g, last, head, tail + [x], base);
      CleanedCons(c, Cleaned(c, g, last, x, base), last, head, tail, base);
    }
  }

  /** A stopped effect has no dependencies, so no signal holds it. */
  lemma StoppedIsOut(g: Graph, e: Eff)
    requires EdgesOk(g) && e in g.stopped
    ensures forall s | s in g.subs :: e !in g.subs[s]
  {
  }

  /**
   * Whatever a scope owned is stopped for good and no signal holds any of it, whatever functions
   * ran between the stops and whatever effects those woke.
   */
  lemma {:induction false} DisposedIsGone(c: Code, g: Graph, last: nat, cleanups: seq<Cleanup>, base: nat)
    requires c.Ok() && Sound(c, g, last) && forall x | x in cleanups :: Fit(c, g, x)
    ensures
      var r := CleanedAll(c, g, last, cleanups, base);
      && (forall e :: e in r.stopped <==> Stops(e) in cleanups || e in g.stopped)
      && (forall e, s | Stops(e) in cleanups && s in r.subs :: e !in r.subs[s])
  {
    var r := CleanedAll(c, g, last, cleanups, base);
    if cleanups != [] {
      DisposedIsGone(c, g, last, cleanups[1..], base);
      assert forall x :: x in cleanups <==> x == cleanups[0] || x in cleanups[1..];
    }
    forall e, s | Stops(e) in cleanups && s in r.subs ensures e !in r.subs[s] {
      StoppedIsOut(r, e);
    }
  }
}
