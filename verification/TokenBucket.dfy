/** The token bucket of core/mw/ratelimit.go, in seconds and tokens as real numbers. */
module TokenBucket {
  import opened Wrappers

  /** A limit: requests per window, and how many may come at once. */
  datatype Rate = Rate(requests: nat, window: real, burst: nat) {
    /** What RateLimit.Handler lets through to a limiter. */
    predicate Valid() {
      requests > 0 && window > 0.0
    }

    function Burst(): (b: real)
      requires Valid()
      ensures b >= 1.0
    {
      if burst > 0 then burst as real else requests as real
    }

    function PerSecond(): (p: real)
      requires Valid()
      ensures p > 0.0
    {
      requests as real / window
    }
  }

  /** One key's allowance: tokens as of an instant, tokens a second, and the most it holds. */
  datatype Bucket = Bucket(n: real, last: real, rate: real, burst: real)

  datatype Decision = Decision(ok: bool, remaining: nat, retry: real, reset: real)

  function Min(a: real, b: real): real {
    if a <= b then a else b
  }

  /** What an interval earns; negative when the stamps come out of order. */
  function Earned(p: real, from: real, to: real): real {
    to * p - from * p
  }

  /** The tokens there are when a call arrives, before it takes one. */
  function Tokens(b: Option<Bucket>, burst: real, p: real, now: real): (n: real)
    ensures n <= burst
  {
    if b.None? then burst else Min(burst, b.value.n + Earned(p, b.value.last, now))
  }

  function Taken(b: Option<Bucket>, burst: real, p: real, now: real): (r: Bucket)
    ensures r.n <= burst
  {
    var n := Tokens(b, burst, p, now);
    Bucket(if n >= 1.0 then n - 1.0 else n, now, p, burst)
  }

  predicate Grants(b: Option<Bucket>, burst: real, p: real, now: real) {
    Tokens(b, burst, p, now) >= 1.0
  }

  function Seconds(f: real): (s: real)
    ensures s >= 0.0
  {
    if f <= 0.0 then 0.0 else f
  }

  /** What the caller is told, from the tokens before and after. */
  function Decide(n: real, left: real, burst: real, p: real): (d: Decision)
    requires p > 0.0
  {
    Decision(n >= 1.0, if left >= 0.0 && n >= 1.0 then left.Floor else 0,
             if n >= 1.0 then 0.0 else Seconds((1.0 - n) / p), Seconds((burst - left) / p))
  }

  /** One call of Take on the key's bucket. */
  function Take(b: Option<Bucket>, burst: real, p: real, now: real): (Bucket, Decision)
    requires p > 0.0
  {
    (Taken(b, burst, p, now), Decide(Tokens(b, burst, p, now), Taken(b, burst, p, now).n, burst, p))
  }

  /** A take says OK exactly when there is a whole token, and then pays one; otherwise it pays nothing. */
  lemma OkIsGranted(b: Option<Bucket>, burst: real, p: real, now: real)
    requires p > 0.0
    ensures
      var (after, d) := Take(b, burst, p, now);
      && (d.ok <==> Tokens(b, burst, p, now) >= 1.0)
      && after.n == Tokens(b, burst, p, now) - (if d.ok then 1.0 else 0.0)
      && (d.ok ==> d.retry == 0.0) && (!d.ok ==> d.remaining == 0)
  {
  }

  // ---------- over any window ----------

  /** The bucket after a run of takes that reached the lock in this order, with these stamps. */
  function AfterAll(b: Bucket, burst: real, p: real, stamps: seq<real>): Bucket {
    if stamps == [] then b
    else Taken(Some(AfterAll(b, burst, p, stamps[..|stamps| - 1])), burst, p, stamps[|stamps| - 1])
  }

  /** Whether the last take of the run was granted. */
  predicate Granted(b: Bucket, burst: real, p: real, stamps: seq<real>)
    requires stamps != []
  {
    Grants(Some(AfterAll(b, burst, p, stamps[..|stamps| - 1])), burst, p, stamps[|stamps| - 1])
  }

  /** How many of the run were granted. */
  function Count(b: Bucket, burst: real, p: real, stamps: seq<real>): nat {
    if stamps == [] then 0
    else Count(b, burst, p, stamps[..|stamps| - 1]) + if Granted(b, burst, p, stamps) then 1 else 0
  }

  /** Tokens, less all that time has earned. */
  function Balance(b: Bucket, p: real): real {
    b.n - b.last * p
  }

  lemma TakeConserves(b: Bucket, burst: real, p: real, now: real)
    ensures Balance(Taken(Some(b), burst, p, now), p) + (if Grants(Some(b), burst, p, now) then 1.0 else 0.0)
         <= Balance(b, p)
  {
  }

  /** The balance never grows, and every grant takes one token from it. */
  lemma {:induction false} Conserved(b: Bucket, burst: real, p: real, stamps: seq<real>)
    ensures Balance(AfterAll(b, burst, p, stamps), p) + Count(b, burst, p, stamps) as real <= Balance(b, p)
  {
    if stamps != [] {
      var k := |stamps| - 1;
      Conserved(b, burst, p, stamps[..k]);
      TakeConserves(AfterAll(b, burst, p, stamps[..k]), burst, p, stamps[k]);
    }
  }

  /**
   * The bound over any window, whatever order the stamps come in: from a take granted at s to a
   * take granted at t, both counted, at most burst + rate * (t - s) requests are granted.
   */
  lemma WindowBound(b: Option<Bucket>, burst: real, p: real, s: real, between: seq<real>, t: real)
    requires Grants(b, burst, p, s) && Granted(Taken(b, burst, p, s), burst, p, between + [t])
    ensures 1.0 + Count(Taken(b, burst, p, s), burst, p, between + [t]) as real <= burst + p * (t - s)
  {
    var first := Taken(b, burst, p, s);
    FirstOf(b, burst, p, s);
    RunBound(first, burst, p, between, t);
  }

  lemma FirstOf(b: Option<Bucket>, burst: real, p: real, s: real)
    requires Grants(b, burst, p, s)
    ensures Taken(b, burst, p, s).last == s && Taken(b, burst, p, s).n <= burst - 1.0
  {
  }

  lemma RunBound(first: Bucket, burst: real, p: real, between: seq<real>, t: real)
    requires first.n <= burst - 1.0 && Granted(first, burst, p, between + [t])
    ensures 1.0 + Count(first, burst, p, between + [t]) as real <= burst + p * (t - first.last)
  {
    var run := between + [t];
    Conserved(first, burst, p, run);
    LastOf(first, burst, p, between, t);
    Telescope(burst, p, first, AfterAll(first, burst, p, run), Count(first, burst, p, run) as real);
  }

  /** A run that ends in a grant leaves no debt. */
  lemma LastOf(b: Bucket, burst: real, p: real, between: seq<real>, t: real)
    requires Granted(b, burst, p, between + [t])
    ensures AfterAll(b, burst, p, between + [t]).last == t && AfterAll(b, burst, p, between + [t]).n >= 0.0
  {
    assert (between + [t])[..|between|] == between;
  }

  lemma Telescope(burst: real, p: real, first: Bucket, last: Bucket, count: real)
    requires Balance(last, p) + count <= Balance(first, p) && last.n >= 0.0 && first.n <= burst - 1.0
    ensures 1.0 + count <= burst + p * (last.last - first.last)
  {
    Spread(p, first.last, last.last);
  }

  lemma Spread(p: real, s: real, t: real)
    ensures p * (t - s) == t * p - s * p
  {
  }

  // ---------- Retry, Remaining and Reset ----------

  lemma AtLeast(d: real, need: real, p: real)
    requires p > 0.0
    ensures d >= need / p <==> d * p >= need
  {
    var q := need / p;
    assert q * p == need;
    assert (d - q) * p == d * p - need;
  }

  /** A refused caller that waits d with nobody else taking is granted if and only if d >= Retry. */
  lemma RetryIsExact(b: Option<Bucket>, burst: real, p: real, now: real, d: real)
    requires p > 0.0 && burst >= 1.0 && d >= 0.0 && !Grants(b, burst, p, now)
    ensures Grants(Some(Taken(b, burst, p, now)), burst, p, now + d) <==> d >= Take(b, burst, p, now).1.retry
  {
    var n := Tokens(b, burst, p, now);
    AtLeast(d, 1.0 - n, p);
    Spread(p, now, now + d);
    assert (now + d) - now == d;
    Retries(n, p);
  }

  lemma Retries(n: real, p: real)
    requires p > 0.0 && n < 1.0
    ensures Seconds((1.0 - n) / p) == (1.0 - n) / p
  {
    assert ((1.0 - n) / p) * p == 1.0 - n;
    AtLeast(0.0, 1.0 - n, p);
  }

  /** The same stamp, so many times. */
  function Same(now: real, k: nat): (s: seq<real>)
    ensures |s| == k
  {
    if k == 0 then [] else Same(now, k - 1) + [now]
  }

  lemma SameLast(now: real, k: nat)
    requires k > 0
    ensures Same(now, k)[k - 1] == now && Same(now, k)[..k - 1] == Same(now, k - 1)
  {
  }

  lemma TakenNow(b: Bucket, burst: real, p: real)
    requires 1.0 <= b.n <= burst
    ensures Taken(Some(b), burst, p, b.last) == Bucket(b.n - 1.0, b.last, p, burst) && Grants(Some(b), burst, p, b.last)
  {
  }

  lemma AfterOneMore(b: Bucket, burst: real, p: real, stamps: seq<real>)
    requires stamps != []
    ensures
      var before, now := AfterAll(b, burst, p, stamps[..|stamps| - 1]), stamps[|stamps| - 1];
      && AfterAll(b, burst, p, stamps) == Taken(Some(before), burst, p, now)
      && Count(b, burst, p, stamps)
         == Count(b, burst, p, stamps[..|stamps| - 1]) + if Grants(Some(before), burst, p, now) then 1 else 0
  {
  }

  /** At one instant each grant takes exactly one token. */
  lemma {:induction false} SameInstant(b: Bucket, burst: real, p: real, k: nat)
    requires 0.0 <= b.n <= burst && k <= b.n.Floor
    ensures
      var after := AfterAll(b, burst, p, Same(b.last, k));
      after.n == b.n - k as real && after.last == b.last
    ensures Count(b, burst, p, Same(b.last, k)) == k
  {
    if k > 0 {
      SameInstant(b, burst, p, k - 1);
      SameLast(b.last, k);
      AfterOneMore(b, burst, p, Same(b.last, k));
      TakenNow(AfterAll(b, burst, p, Same(b.last, k - 1)), burst, p);
    }
  }

  /** Exactly Remaining further takes succeed at the same instant, and the next one does not. */
  lemma RemainingIsExact(b: Option<Bucket>, burst: real, p: real, now: real)
    requires p > 0.0 && Grants(b, burst, p, now)
    ensures
      var (after, d) := Take(b, burst, p, now);
      && Count(after, burst, p, Same(now, d.remaining)) == d.remaining
      && !Granted(after, burst, p, Same(now, d.remaining + 1))
  {
    var after := Taken(b, burst, p, now);
    var k := after.n.Floor;
    SameInstant(after, burst, p, k);
    SameLast(now, k + 1);
  }

  /** Reset is when the bucket is full again, and no sooner. */
  lemma ResetIsExact(b: Option<Bucket>, burst: real, p: real, now: real, d: real)
    requires p > 0.0 && d >= 0.0
    ensures
      var (after, decision) := Take(b, burst, p, now);
      Tokens(Some(after), burst, p, now + d) == burst <==> d >= decision.reset
  {
    var left := Taken(b, burst, p, now).n;
    AtLeast(d, burst - left, p);
    AtLeast(0.0, burst - left, p);
    Spread(p, now, now + d);
    assert (now + d) - now == d;
  }

  // ---------- what a configured rate gives ----------

  /** How many calls a rate lets through at once: its burst, or its requests when none is set. */
  function AtOnce(r: Rate): nat {
    if r.burst > 0 then r.burst else r.requests
  }

  /** With k whole tokens left, k more calls are granted at that instant and the next is not. */
  lemma WholeTokens(b: Bucket, burst: real, p: real, k: nat)
    requires b.n == k as real && b.n <= burst
    ensures Count(b, burst, p, Same(b.last, k)) == k && !Granted(b, burst, p, Same(b.last, k + 1))
  {
    assert b.n.Floor == k;
    SameInstant(b, burst, p, k);
    SameLast(b.last, k + 1);
    EmptyRefuses(AfterAll(b, burst, p, Same(b.last, k)), burst, p);
  }

  lemma EmptyRefuses(b: Bucket, burst: real, p: real)
    requires b.n < 1.0
    ensures !Grants(Some(b), burst, p, b.last)
  {
    assert Earned(p, b.last, b.last) == 0.0;
  }

  /** A key first seen is granted exactly that many calls at one instant. */
  lemma NewKeyIsGrantedBurst(r: Rate, now: real)
    requires r.requests > 0 && r.window > 0.0
    ensures Grants(None, r.Burst(), r.PerSecond(), now)
    ensures
      var first := Taken(None, r.Burst(), r.PerSecond(), now);
      && Count(first, r.Burst(), r.PerSecond(), Same(now, AtOnce(r) - 1)) == AtOnce(r) - 1
      && !Granted(first, r.Burst(), r.PerSecond(), Same(now, AtOnce(r)))
  {
    WholeTokens(Taken(None, r.Burst(), r.PerSecond(), now), r.Burst(), r.PerSecond(), AtOnce(r) - 1);
  }

  lemma PerSecondIs(r: Rate)
    requires r.requests > 0 && r.window > 0.0
    ensures r.PerSecond() * r.window == r.requests as real
  {
  }

  lemma Swapped(p: real, d: real, q: real, w: real)
    requires p * w == q
    ensures (p * d) * w == q * d
  {
    assert (p * d) * w == (p * w) * d;
  }

  lemma Scaled(x: real, y: real, w: real)
    requires w > 0.0 && x <= y
    ensures x * w <= y * w
  {
    assert (y - x) * w >= 0.0;
  }

  /** A window earns exactly the requests of the rate. */
  lemma WindowEarnsRequests(r: Rate, start: real)
    requires r.requests > 0 && r.window > 0.0
    ensures Earned(r.PerSecond(), start, start + r.window) == r.requests as real
  {
    PerSecondIs(r);
    EarnedOver(r.PerSecond(), start, r.window);
  }

  lemma EarnedOver(p: real, start: real, d: real)
    ensures Earned(p, start, start + d) == p * d
  {
    assert (start + d) * p == start * p + d * p;
  }

  /** So many grants beyond the burst, over an interval, keep to requests per window. */
  predicate KeepsTo(over: real, requests: real, window: real, interval: real) {
    over * window <= requests * interval
  }

  lemma InRequests(over: real, p: real, q: real, w: real, d: real)
    requires w > 0.0 && p * w == q && over <= p * d
    ensures KeepsTo(over, q, w, d)
  {
    Scaled(over, p * d, w);
    Swapped(p, d, q, w);
  }

  /** All the grants from the one at s to the one at t. */
  function AllGranted(b: Option<Bucket>, burst: real, p: real, s: real, between: seq<real>, t: real): real {
    1.0 + Count(Taken(b, burst, p, s), burst, p, between + [t]) as real
  }

  lemma GrantedBound(b: Option<Bucket>, burst: real, p: real, s: real, between: seq<real>, t: real) returns (g: real)
    requires Grants(b, burst, p, s) && Granted(Taken(b, burst, p, s), burst, p, between + [t])
    ensures g == AllGranted(b, burst, p, s, between, t) && g <= burst + p * (t - s)
  {
    WindowBound(b, burst, p, s, between, t);
    g := AllGranted(b, burst, p, s, between, t);
  }

  /** Over any window the grants, the burst aside, keep to requests per window. */
  lemma RateBound(b: Option<Bucket>, r: Rate, s: real, between: seq<real>, t: real)
    requires r.requests > 0 && r.window > 0.0
    requires Grants(b, r.Burst(), r.PerSecond(), s)
    requires Granted(Taken(b, r.Burst(), r.PerSecond(), s), r.Burst(), r.PerSecond(), between + [t])
    ensures KeepsTo(AllGranted(b, r.Burst(), r.PerSecond(), s, between, t) - AtOnce(r) as real, r.requests as real,
                    r.window, t - s)
  {
    var g := GrantedBound(b, r.Burst(), r.PerSecond(), s, between, t);
    PerSecondIs(r);
    InRequests(g - r.Burst(), r.PerSecond(), r.requests as real, r.window, t - s);
  }
}
