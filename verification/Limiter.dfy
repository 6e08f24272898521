/** The limiter of core/mw/ratelimit.go: its buckets, their recency, and making room. */
module Limiter {
  import opened Wrappers
  import opened Recency
  import opened TokenBucket

  /** How many of the oldest buckets eviction looks at. */
  const SCAN: nat := 8

  /** The bucket would refuse a request at this instant. */
  predicate Refuses(b: Bucket, now: real) {
    Min(b.burst, b.n + Earned(b.rate, b.last, now)) < 1.0
  }

  ghost predicate Indexed(order: seq<string>, index: map<string, Bucket>) {
    Once(order) && forall k :: k in index <==> k in order
  }

  /** The bucket that goes: the oldest of the last few that is not refusing, or else the oldest. */
  ghost predicate IsVictim(order: seq<string>, index: map<string, Bucket>, now: real, victim: string)
    requires Indexed(order, index)
  {
    exists j :: 0 <= j < |order| && |order| - SCAN <= j && victim == order[j]
      && (forall i | j < i < |order| :: Refuses(index[order[i]], now))
      && (Refuses(index[victim], now) ==>
            j == |order| - 1 && forall i | 0 <= i < |order| && |order| - SCAN <= i :: Refuses(index[order[i]], now))
  }

  /** Refusing is what the bucket's own next take would do. */
  lemma RefusesIs(b: Bucket, now: real)
    ensures Refuses(b, now) <==> !Grants(Some(b), b.burst, b.rate, now)
  {
  }

  /** A caller being refused is evicted only when the eight oldest all are, and then the oldest goes. */
  lemma VictimIsNotRefused(order: seq<string>, index: map<string, Bucket>, now: real, victim: string)
    requires Indexed(order, index) && IsVictim(order, index, now, victim)
    ensures victim in index && victim in order[if |order| > 8 then |order| - 8 else 0..]
    ensures !Grants(Some(index[victim]), index[victim].burst, index[victim].rate, now) ==>
              && victim == order[|order| - 1]
              && forall i | 0 <= i < |order| && |order| - 8 <= i ::
                   !Grants(Some(index[order[i]]), index[order[i]].burst, index[order[i]].rate, now)
  {
    var j :| 0 <= j < |order| && |order| - SCAN <= j && victim == order[j]
      && (forall i | j < i < |order| :: Refuses(index[order[i]], now))
      && (Refuses(index[victim], now) ==>
            j == |order| - 1 && forall i | 0 <= i < |order| && |order| - SCAN <= i :: Refuses(index[order[i]], now));
    var from := if |order| > 8 then |order| - 8 else 0;
    assert order[from..][j - from] == victim;
    RefusesIs(index[victim], now);
    forall i | 0 <= i < |order| && |order| - 8 <= i && Refuses(index[order[i]], now)
      ensures !Grants(Some(index[order[i]]), index[order[i]].burst, index[order[i]].rate, now)
    {
      RefusesIs(index[order[i]], now);
    }
  }

  /** One eviction: a victim leaves the list and the index. */
  ghost predicate Evicted(order: seq<string>, index: map<string, Bucket>, now: real, order': seq<string>,
                          index': map<string, Bucket>)
    requires Indexed(order, index)
  {
    exists victim :: victim in order && IsVictim(order, index, now, victim)
                     && index' == index - {victim} && order' == Unlinked(order, victim)
  }

  lemma {:induction false} CountKeys(order: seq<string>, keys: set<string>)
    requires Once(order) && forall k :: k in keys <==> k in order
    ensures |keys| == |order|
  {
    if order == [] {
      assert keys == {};
    } else {
      CountKeys(order[1..], keys - {order[0]});
    }
  }

  class Buckets {
    const max: nat
    var index: map<string, Bucket>
    var order: seq<string>

    ghost predicate Valid()
      reads this
    {
      max > 0 && Indexed(order, index) && |order| <= max
    }

    constructor (size: int)
      ensures Valid() && index == map[] && order == [] && max == if size <= 0 then 20000 else size
    {
      max := if size <= 0 then 20000 else size;
      index, order := map[], [];
    }

    /** Walks back from the oldest, up to eight of them. */
    method FindVictim(now: real) returns (victim: string)
      requires Indexed(order, index) && order != []
      ensures victim in order && IsVictim(order, index, now, victim)
    {
      var n := |order|;
      victim := order[n - 1];
      var i: nat := 0;
      while i < n && i < SCAN
        invariant i <= n && i <= SCAN && victim == order[n - 1]
        invariant forall j | n - i <= j < n :: Refuses(index[order[j]], now)
      {
        var at := n - 1 - i;
        if !Refuses(index[order[at]], now) {
          victim := order[at];
          assert IsVictim(order, index, now, victim);
          return;
        }
        i := i + 1;
      }
      assert order[n - 1] == victim;
    }

    /** While there is no room, a victim goes. */
    method Evict(now: real)
      requires Valid() && |order| == max
      modifies this
      ensures Indexed(order, index) && |order| == max - 1
      ensures Evicted(old(order), old(index), now, order, index)
    {
      CountKeys(order, index.Keys);
      while |index| >= max
        invariant Indexed(order, index) && (|order| == max || |order| == max - 1) && |index| == |order|
        invariant |order| == max ==> index == old(index) && order == old(order)
        invariant |order| < max ==> Evicted(old(order), old(index), now, order, index)
        decreases |index|
      {
        var victim := FindVictim(now);
        order, index := Unlinked(order, victim), index - {victim};
        CountKeys(order, index.Keys);
      }
    }

    /** The key's bucket, if it has one. */
    ghost function Held(key: string): Option<Bucket>
      reads this
    {
      if key in index then Some(index[key]) else None
    }

    /**
     * Take: the key's bucket is brought up to now and pays one token if it can. A new key starts
     * full; when the limiter is full, room is made first, so a newcomer never evicts itself.
     */
    method Take(key: string, r: Rate, now: real) returns (d: Decision)
      requires Valid() && r.Valid()
      modifies this
      ensures Valid()
      ensures d == TokenBucket.Take(old(Held(key)), r.Burst(), r.PerSecond(), now).1
      ensures Held(key) == Some(Taken(old(Held(key)), r.Burst(), r.PerSecond(), now))
      ensures order != [] && (key in old(index) || |old(order)| < max ==>
        index == old(index)[key := index[key]] && order == [key] + Unlinked(old(order), key))
      ensures key !in old(index) && |old(order)| == max ==>
        order[0] == key && Evicted(old(order), old(index), now, order[1..], index - {key})
    {
      var burst, p := r.Burst(), r.PerSecond();
      var n: real;
      if key in index {
        var b := index[key];
        n := Min(burst, b.n + Earned(p, b.last, now));
        order := [key] + Unlinked(order, key);
        OnceFront(key, order[1..]);
      } else {
        CountKeys(order, index.Keys);
        if |index| >= max {
          Evict(now);
        }
        n := burst;
        OnceFront(key, order);
        order := [key] + order;
      }
      var left := n;
      if n >= 1.0 {
        left := n - 1.0;
      }
      index := index[key := Bucket(left, now, p, burst)];
      d := Decide(n, left, burst, p);
    }
  }
}
