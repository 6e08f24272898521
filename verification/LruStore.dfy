/** The index and the recency list of core/cache/cache.go, changed in place. */
module LruStore {
  import opened Wrappers
  import opened Lru
  import opened Recency

  /** The entries behind a list of keys. */
  function Listed(order: seq<string>, index: map<string, Entry>): (es: seq<Entry>)
    requires forall k | k in order :: k in index && index[k].key == k
    ensures |es| == |order| && forall i | 0 <= i < |es| :: es[i] == index[order[i]]
  {
    if order == [] then [] else [index[order[0]]] + Listed(order[1..], index)
  }

  lemma {:induction false} ListedDrop(order: seq<string>, index: map<string, Entry>, index': map<string, Entry>,
                                      key: string)
    requires forall k | k in order :: k in index && index[k].key == k
    requires forall k | k in order && k != key :: k in index' && index'[k] == index[k]
    ensures Listed(Unlinked(order, key), index') == Drop(Listed(order, index), key)
  {
    if order != [] {
      ListedDrop(order[1..], index, index', key);
      assert Listed(order, index)[1..] == Listed(order[1..], index);
      var rest := Unlinked(order[1..], key);
      if order[0] != key {
        assert ([order[0]] + rest)[1..] == rest;
      }
    }
  }

  lemma {:induction false} ListedFind(order: seq<string>, index: map<string, Entry>, key: string)
    requires forall k | k in order :: k in index && index[k].key == k
    ensures Find(Listed(order, index), key) == if key in order then Some(index[key]) else None
  {
    if order != [] {
      ListedFind(order[1..], index, key);
      assert Listed(order, index)[1..] == Listed(order[1..], index);
    }
  }

  lemma ListedFront(key: string, order: seq<string>, index: map<string, Entry>)
    requires key in index && index[key].key == key && forall k | k in order :: k in index && index[k].key == k
    ensures Listed([key] + order, index) == [index[key]] + Listed(order, index)
  {
    assert ([key] + order)[1..] == order;
  }

  class Store {
    const max: nat
    var index: map<string, Entry>
    var order: seq<string>

    /** The index and the list hold the same keys once each, never more than max. */
    ghost predicate Valid()
      reads this
    {
      && max > 0 && Linked(order, index) && |order| <= max
    }

    ghost function Entries(): seq<Entry>
      requires Linked(order, index)
      reads this
    {
      Listed(order, index)
    }

    constructor (size: int)
      ensures Valid() && Entries() == [] && max == if size <= 0 then 1000 else size
    {
      max := if size <= 0 then 1000 else size;
      index, order := map[], [];
    }

    /** drop: out of the list and out of the index. */
    method DropKey(key: string)
      requires Linked(order, index) && key in index
      modifies this
      ensures Linked(order, index) && |order| == |old(order)| - 1 && order == Unlinked(old(order), key)
      ensures Entries() == Drop(old(Entries()), key)
    {
      ListedDrop(order, index, index - {key}, key);
      order, index := Unlinked(order, key), index - {key};
    }

    /** MoveToFront of the element the index holds. */
    method MoveToFront(key: string)
      requires Linked(order, index) && key in index
      modifies this`order
      ensures Linked(order, index) && |order| == |old(order)|
      ensures Entries() == [index[key]] + Drop(old(Entries()), key)
    {
      var rest := Unlinked(order, key);
      ListedDrop(order, index, index, key);
      ListedFront(key, rest, index);
      OnceFront(key, rest);
      order := [key] + rest;
    }

    method Get(key: string, now: int) returns (value: Option<string>)
      requires Valid()
      modifies this
      ensures Valid() && Entries() == Next(max, old(Entries()), Op.Get(key, now))
      ensures
        var found := Find(old(Entries()), key);
        value == if found.Some? && now <= found.value.expires then Some(found.value.value) else None
    {
      ListedFind(order, index, key);
      if key !in index {
        return None;
      }
      var e := index[key];
      if now > e.expires {
        DropKey(key);
        return None;
      }
      MoveToFront(key);
      value := Some(e.value);
    }

    method Set(key: string, value: string, expires: int)
      requires Valid()
      modifies this
      ensures Valid() && Entries() == Next(max, old(Entries()), Op.Set(key, value, expires))
    {
      var e := Entry(key, value, expires);
      if key in index {
        ListedDrop(order, index, index[key := e], key);
        index := index[key := e];
        ListedDrop(order, index, index, key);
        MoveToFront(key);
        return;
      }
      ListedDrop(order, index, index[key := e], key);
      ListedFront(key, order, index[key := e]);
      OnceFront(key, order);
      index, order := index[key := e], [key] + order;
      Shrink();
    }

    /** While the list is too long its last element is dropped. */
    method Shrink()
      requires max > 0 && Linked(order, index)
      modifies this
      ensures Valid() && Entries() == Trim(old(Entries()), max)
    {
      ghost var whole := Entries();
      assert whole[..|order|] == whole;
      while |order| > max
        invariant Linked(order, index) && (|order| <= |whole| && Entries() == whole[..|order|])
        invariant |order| >= max || |order| == |whole|
        decreases |order|
      {
        DropBack();
      }
    }

    /** The least recently used entry goes. */
    method DropBack()
      requires Linked(order, index) && order != []
      modifies this
      ensures Linked(order, index) && |order| == |old(order)| - 1
      ensures Entries() == old(Entries())[..|order|]
    {
      DropLast(order, index);
      DropKey(order[|order| - 1]);
    }

    method DelOne(key: string)
      requires Valid()
      modifies this
      ensures Valid() && Entries() == Drop(old(Entries()), key)
    {
      ListedFind(order, index, key);
      if key in index {
        DropKey(key);
      }
    }

    /** Del of several keys, one after another. */
    method Del(keys: seq<string>)
      requires Valid()
      modifies this
      ensures Valid() && Entries() == DropAll(old(Entries()), keys)
    {
      ghost var start := Entries();
      var i := 0;
      while i < |keys|
        invariant i <= |keys| && Valid() && Entries() == DropAll(start, keys[..i])
      {
        DropAllNext(start, keys, i);
        DelOne(keys[i]);
        i := i + 1;
      }
      assert keys[..i] == keys;
    }
  }

  ghost predicate Linked(order: seq<string>, index: map<string, Entry>) {
    && Once(order) && (forall k :: k in index <==> k in order)
    && forall k | k in order :: k in index && index[k].key == k
  }

  function DropAll(es: seq<Entry>, keys: seq<string>): seq<Entry> {
    if keys == [] then es else Drop(DropAll(es, keys[..|keys| - 1]), keys[|keys| - 1])
  }

  lemma DropAllNext(es: seq<Entry>, keys: seq<string>, i: nat)
    requires i < |keys|
    ensures DropAll(es, keys[..i + 1]) == Drop(DropAll(es, keys[..i]), keys[i])
  {
    assert keys[..i + 1][..i] == keys[..i];
  }

  lemma DropLast(order: seq<string>, index: map<string, Entry>)
    requires Linked(order, index) && order != []
    ensures Drop(Listed(order, index), order[|order| - 1]) == Listed(order, index)[..|order| - 1]
  {
    OnceInit(order);
    ListedDrop(order, index, index, order[|order| - 1]);
    ListedInit(order, index);
  }

  lemma ListedInit(order: seq<string>, index: map<string, Entry>)
    requires order != [] && forall k | k in order :: k in index && index[k].key == k
    ensures Listed(order[..|order| - 1], index) == Listed(order, index)[..|order| - 1]
  {
  }
}
