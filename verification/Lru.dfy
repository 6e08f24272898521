/** core/cache/cache.go: the in-process LRU, and what any history of calls leaves in it. */
module Lru {
  import opened Wrappers

  datatype Entry = Entry(key: string, value: string, expires: int)

  /** One call as it takes effect under the mutex; a Del of many keys is many of these. */
  datatype Op = Get(key: string, now: int) | Set(key: string, value: string, expires: int) | Del(key: string)

  function KeysOf(es: seq<Entry>): set<string> {
    set e | e in es :: e.key
  }

  /** No key twice. */
  predicate Distinct(es: seq<Entry>) {
    es == [] || (es[0].key !in KeysOf(es[1..]) && Distinct(es[1..]))
  }

  function Find(es: seq<Entry>, key: string): (r: Option<Entry>)
    ensures r.Some? ==> r.value in es && r.value.key == key
    ensures r.Some? <==> key in KeysOf(es)
  {
    if es == [] then None
    else if es[0].key == key then Some(es[0])
    else Find(es[1..], key)
  }

  function Drop(es: seq<Entry>, key: string): (r: seq<Entry>)
    ensures forall e :: e in r <==> e in es && e.key != key
    ensures Distinct(es) ==> Distinct(r)
    ensures |r| <= |es| && (key !in KeysOf(es) ==> r == es)
  {
    if es == [] then []
    else if es[0].key == key then Drop(es[1..], key)
    else [es[0]] + Drop(es[1..], key)
  }

  function Trim(es: seq<Entry>, max: nat): seq<Entry> {
    if |es| > max then es[..max] else es
  }

  /** The entries, most recently used first, after one more call. */
  function Next(max: nat, es: seq<Entry>, op: Op): seq<Entry> {
    match op
    case Get(key, now) =>
      (match Find(es, key)
       case None => es
       case Some(e) => if now > e.expires then Drop(es, key) else [e] + Drop(es, key))
    case Set(key, value, expires) => Trim([Entry(key, value, expires)] + Drop(es, key), max)
    case Del(key) => Drop(es, key)
  }

  function After(max: nat, history: seq<Op>): seq<Entry> {
    if history == [] then []
    else Next(max, After(max, history[..|history| - 1]), history[|history| - 1])
  }

  // ---------- what the caller asked for ----------

  /** The last value set under the key, unless it was deleted or found expired since. */
  function Last(history: seq<Op>, key: string): Option<Entry> {
    if history == [] then None
    else
      var before, op := Last(history[..|history| - 1], key), history[|history| - 1];
      if op.key != key then before
      else
        match op
        case Set(_, value, expires) => Some(Entry(key, value, expires))
        case Del(_) => None
        case Get(_, now) => if before.Some? && now > before.value.expires then None else before
  }

  /** The call uses the key: it sets it, or finds it. */
  predicate Touches(max: nat, history: seq<Op>, op: Op) {
    op.Set? || (op.Get? && var e := Find(After(max, history), op.key); e.Some? && op.now <= e.value.expires)
  }

  /** The other keys used since the key's own last use. */
  function Since(max: nat, history: seq<Op>, key: string): set<string> {
    if history == [] then {}
    else
      var h, op := history[..|history| - 1], history[|history| - 1];
      if !Touches(max, h, op) then Since(max, h, key)
      else if op.key == key then {}
      else Since(max, h, key) + {op.key}
  }

  // ---------- lemmas ----------

  lemma KeysHead(e: Entry, es: seq<Entry>)
    ensures KeysOf([e] + es) == {e.key} + KeysOf(es)
  {
    assert forall x :: x in [e] + es <==> x == e || x in es;
  }

  lemma DistinctHead(e: Entry, es: seq<Entry>)
    requires Distinct(es) && e.key !in KeysOf(es)
    ensures Distinct([e] + es)
  {
    assert ([e] + es)[1..] == es;
  }

  lemma {:induction false} DistinctPrefix(es: seq<Entry>, n: nat)
    requires Distinct(es) && n <= |es|
    ensures Distinct(es[..n])
  {
    if n > 0 {
      DistinctPrefix(es[1..], n - 1);
      assert es[..n][1..] == es[1..][..n - 1];
      assert forall e | e in es[1..][..n - 1] :: e in es[1..];
    }
  }

  /** In every history no key is held twice and there are never more than max entries. */
  lemma {:induction false} AlwaysWithin(max: nat, history: seq<Op>)
    ensures Distinct(After(max, history)) && |After(max, history)| <= max
  {
    if history != [] {
      var h, op := history[..|history| - 1], history[|history| - 1];
      var es := After(max, h);
      AlwaysWithin(max, h);
      if !op.Del? {
        var e := if op.Get? then (if Find(es, op.key).Some? then Find(es, op.key).value else Entry(op.key, "", 0))
                 else Entry(op.key, op.value, op.expires);
        DistinctHead(e, Drop(es, op.key));
        if op.Set? && |[e] + Drop(es, op.key)| > max {
          DistinctPrefix([e] + Drop(es, op.key), max);
        }
        if op.Get? && Find(es, op.key).Some? {
          DropShorter(es, op.key);
        }
      }
    }
  }

  lemma {:induction false} DropShorter(es: seq<Entry>, key: string)
    requires key in KeysOf(es)
    ensures |Drop(es, key)| < |es|
  {
    if es[0].key != key {
      DropShorter(es[1..], key);
    }
  }

  // ---------- the recency stack ----------

  /** The keys in front of a key. */
  function Ahead(es: seq<Entry>, key: string): set<string> {
    if es == [] || es[0].key == key then {} else {es[0].key} + Ahead(es[1..], key)
  }

  lemma AheadHead(e: Entry, es: seq<Entry>, key: string)
    ensures Ahead([e] + es, key) == if e.key == key then {} else {e.key} + Ahead(es, key)
    ensures Find([e] + es, key) == if e.key == key then Some(e) else Find(es, key)
  {
    assert ([e] + es)[1..] == es;
  }

  lemma {:induction false} DropAhead(es: seq<Entry>, gone: string, key: string)
    requires gone != key && key in KeysOf(es)
    ensures Ahead(Drop(es, gone), key) == Ahead(es, key) - {gone}
    ensures Find(Drop(es, gone), key) == Find(es, key)
  {
    AheadHead(es[0], Drop(es[1..], gone), key);
    if es[0].key != key {
      DropAhead(es[1..], gone, key);
      LessOne(es[0].key, Ahead(es[1..], key), gone);
    }
  }

  lemma LessOne(x: string, rest: set<string>, gone: string)
    ensures ({x} + rest) - {gone} == if x == gone then rest - {gone} else {x} + (rest - {gone})
  {
  }

  /** A key that a trim leaves in place keeps its place; one it removes had that many keys in front. */
  lemma {:induction false} TrimAhead(es: seq<Entry>, n: nat, key: string)
    requires Distinct(es) && key in KeysOf(es) && n <= |es|
    ensures key in KeysOf(es[..n]) ==> Ahead(es[..n], key) == Ahead(es, key) && Find(es[..n], key) == Find(es, key)
    ensures key in KeysOf(es[..n]) ==> |Ahead(es, key)| < n
    ensures key !in KeysOf(es[..n]) ==> |Ahead(es, key)| >= n
  {
    if n > 0 && es[0].key != key {
      TrimAhead(es[1..], n - 1, key);
      assert es[..n] == [es[0]] + es[1..][..n - 1];
      AheadHead(es[0], es[1..][..n - 1], key);
      KeysHead(es[0], es[1..][..n - 1]);
      AheadInside(es[1..], key);
      assert es[0].key !in Ahead(es[1..], key);
      assert |Ahead(es, key)| == 1 + |Ahead(es[1..], key)|;
    } else if n > 0 {
      assert es[..n][0] == es[0];
    }
  }

  lemma {:induction false} AheadInside(es: seq<Entry>, key: string)
    ensures Ahead(es, key) <= KeysOf(es)
  {
    if es != [] && es[0].key != key {
      AheadInside(es[1..], key);
    }
  }

  /** What a history leaves of one key. */
  ghost predicate Tells(max: nat, history: seq<Op>, key: string) {
    var es, last := After(max, history), Last(history, key);
    && (key in KeysOf(es) ==> last == Find(es, key) && Ahead(es, key) <= Since(max, history, key))
    && (key !in KeysOf(es) && last.Some? ==> |Since(max, history, key)| >= max)
  }

  lemma Grown(small: set<string>, big: set<string>, n: nat)
    requires small <= big && |small| >= n
    ensures |big| >= n
  {
    assert big == small + (big - small);
  }

  /** A call on another key. */
  lemma OtherTells(max: nat, h: seq<Op>, op: Op, key: string)
    requires max > 0 && op.key != key && Tells(max, h, key) && Distinct(After(max, h)) && |After(max, h)| <= max
    ensures Tells(max, h + [op], key)
  {
    var es := After(max, h);
    assert (h + [op])[..|h|] == h;
    assert Last(h + [op], key) == Last(h, key);
    var since := Since(max, h, key);
    assert Since(max, h + [op], key) == since + if Touches(max, h, op) then {op.key} else {};
    if key !in KeysOf(es) {
      Absent(max, es, op, key);
      if Last(h, key).Some? {
        Grown(since, Since(max, h + [op], key), max);
      }
    } else {
      DropAhead(es, op.key, key);
      match op
      case Get(_, now) =>
        if Find(es, op.key).Some? {
          AheadHead(Find(es, op.key).value, Drop(es, op.key), key);
        }
      case Del(_) =>
      case Set(_, value, expires) =>
        var e := Entry(op.key, value, expires);
        var grown := [e] + Drop(es, op.key);
        AheadHead(e, Drop(es, op.key), key);
        DistinctHead(e, Drop(es, op.key));
        if |grown| > max {
          TrimAhead(grown, max, key);
          if key !in KeysOf(grown[..max]) {
            Grown(Ahead(grown, key), Since(max, h + [op], key), max);
          }
        }
    }
  }

  lemma Absent(max: nat, es: seq<Entry>, op: Op, key: string)
    requires op.key != key && key !in KeysOf(es)
    ensures key !in KeysOf(Next(max, es, op))
  {
    var r := Next(max, es, op);
    forall e | e in r ensures e.key != key {
      if op.Set? {
        assert e in [Entry(op.key, op.value, op.expires)] + Drop(es, op.key);
      }
    }
  }

  /** A call on the key itself. */
  lemma OwnTells(max: nat, h: seq<Op>, op: Op)
    requires max > 0 && Tells(max, h, op.key) && Distinct(After(max, h)) && |After(max, h)| <= max
    ensures Tells(max, h + [op], op.key)
  {
    var es, key := After(max, h), op.key;
    assert (h + [op])[..|h|] == h;
    match op
    case Get(_, now) =>
      if Find(es, key).Some? {
        AheadHead(Find(es, key).value, Drop(es, key), key);
      }
    case Del(_) =>
    case Set(_, value, expires) =>
      var e := Entry(key, value, expires);
      var grown := [e] + Drop(es, key);
      AheadHead(e, Drop(es, key), key);
      assert Next(max, es, op)[0] == e;
  }

  /**
   * Over every history: a key that is held has the last value set for it, and a key whose value
   * was neither deleted nor found expired is missing only if at least max distinct other keys have
   * been used since its own last use.
   */
  lemma {:induction false} HistoryTells(max: nat, history: seq<Op>, key: string)
    requires max > 0
    ensures Tells(max, history, key)
  {
    if history != [] {
      var h, op := history[..|history| - 1], history[|history| - 1];
      HistoryTells(max, h, key);
      AlwaysWithin(max, h);
      assert history == h + [op];
      if op.key == key {
        OwnTells(max, h, op);
      } else {
        OtherTells(max, h, op, key);
      }
    }
  }

  // ---------- without deletes and expiry the stack is exact ----------

  /** No Del, and no Get that finds its entry expired. */
  predicate Quiet(max: nat, history: seq<Op>) {
    history == [] ||
    (var h, op := history[..|history| - 1], history[|history| - 1];
     Quiet(max, h) && !op.Del? && (op.Get? && Find(After(max, h), op.key).Some? ==> Touches(max, h, op)))
  }

  lemma {:induction false} AheadIsSince(max: nat, history: seq<Op>, key: string)
    requires max > 0 && Quiet(max, history) && key in KeysOf(After(max, history))
    ensures Ahead(After(max, history), key) == Since(max, history, key)
  {
    var h, op := history[..|history| - 1], history[|history| - 1];
    var es := After(max, h);
    AlwaysWithin(max, h);
    if op.key != key {
      if key !in KeysOf(es) {
        Absent(max, es, op, key);
      } else {
        AheadIsSince(max, h, key);
        OtherExact(max, es, op, key);
      }
    } else {
      OwnExact(max, es, op);
    }
  }

  lemma OtherExact(max: nat, es: seq<Entry>, op: Op, key: string)
    requires max > 0 && Distinct(es) && op.key != key && !op.Del?
    requires key in KeysOf(es) && key in KeysOf(Next(max, es, op))
    requires op.Get? && Find(es, op.key).Some? ==> op.now <= Find(es, op.key).value.expires
    ensures Ahead(Next(max, es, op), key)
         == Ahead(es, key) + if op.Set? || Find(es, op.key).Some? then {op.key} else {}
  {
    if op.Set? {
      SetExact(max, es, Entry(op.key, op.value, op.expires), key);
    } else if Find(es, op.key).Some? {
      DropAhead(es, op.key, key);
      AheadHead(Find(es, op.key).value, Drop(es, op.key), key);
    }
  }

  lemma TrimKeeps(es: seq<Entry>, max: nat, key: string)
    requires Distinct(es) && key in KeysOf(es) && key in KeysOf(Trim(es, max))
    ensures Ahead(Trim(es, max), key) == Ahead(es, key)
  {
    if |es| > max {
      TrimAhead(es, max, key);
    }
  }

  lemma SetExact(max: nat, es: seq<Entry>, e: Entry, key: string)
    requires Distinct(es) && e.key != key && key in KeysOf(es) && key in KeysOf(Trim([e] + Drop(es, e.key), max))
    ensures Ahead(Trim([e] + Drop(es, e.key), max), key) == Ahead(es, key) + {e.key}
  {
    var rest := Drop(es, e.key);
    DropAhead(es, e.key, key);
    AheadHead(e, rest, key);
    DistinctHead(e, rest);
    TrimKeeps([e] + rest, max, key);
  }

  lemma OwnExact(max: nat, es: seq<Entry>, op: Op)
    requires max > 0 && !op.Del? && op.key in KeysOf(Next(max, es, op))
    requires op.Get? && Find(es, op.key).Some? ==> op.now <= Find(es, op.key).value.expires
    ensures Ahead(Next(max, es, op), op.key) == {} && (op.Set? || Find(es, op.key).Some?)
  {
  }

  /** Then a key is held if and only if it was set and fewer than max other keys were used since. */
  lemma RecencyStack(max: nat, history: seq<Op>, key: string)
    requires max > 0 && Quiet(max, history)
    ensures key in KeysOf(After(max, history)) <==> Last(history, key).Some? && |Since(max, history, key)| < max
  {
    HistoryTells(max, history, key);
    AlwaysWithin(max, history);
    var es := After(max, history);
    if key in KeysOf(es) {
      AheadIsSince(max, history, key);
      assert es[..|es|] == es;
      TrimAhead(es, |es|, key);
    }
  }
}
