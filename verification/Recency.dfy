/** A recency list of keys: the most recently used first, each once. */
module Recency {
  predicate Once(order: seq<string>) {
    order == [] || (order[0] !in order[1..] && Once(order[1..]))
  }

  function Unlinked(order: seq<string>, key: string): (r: seq<string>)
    ensures forall k :: k in r <==> k in order && k != key
    ensures Once(order) ==> Once(r)
    ensures key !in order ==> r == order
    ensures Once(order) && key in order ==> |r| == |order| - 1
  {
    if order == [] then []
    else if order[0] == key then Unlinked(order[1..], key)
    else [order[0]] + Unlinked(order[1..], key)
  }

  lemma OnceFront(key: string, order: seq<string>)
    requires Once(order) && key !in order
    ensures Once([key] + order)
  {
    assert ([key] + order)[1..] == order;
  }

  /** Taking the last key off the list. */
  lemma {:induction false} OnceInit(order: seq<string>)
    requires Once(order) && order != []
    ensures Once(order[..|order| - 1]) && order[|order| - 1] !in order[..|order| - 1]
    ensures Unlinked(order, order[|order| - 1]) == order[..|order| - 1]
  {
    var n := |order| - 1;
    if n > 0 {
      OnceInit(order[1..]);
      assert order[1..][..n - 1] == order[..n][1..] && order[1..][n - 1] == order[n];
      assert order[..n] == [order[0]] + order[1..][..n - 1];
    }
  }
}
