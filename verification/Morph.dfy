/**
 * Keyed reconciliation of core/runtime/app.js: what morphing an existing child list into the
 * incoming one leaves, node by node. A node's id stands for the identity of a DOM object.
 */
module Morph {
  import opened Wrappers

  datatype Kind = Element(tag: string) | Text | Comment

  datatype Node = Node(id: nat, kind: Kind, attrs: map<string, string>, value: string, kids: seq<Node>)

  const DATA_KEY := "data-key"
  const ID_ATTR := "id"
  const DATA_LEAVING := "data-leaving"
  const DATA_ENTERING := "data-entering"
  const ANIMATE_ROWS := "data-animate-rows"

  /** data-key, or else the id attribute; an empty one is none. */
  function KeyOf(n: Node): Option<string> {
    if !n.kind.Element? then None
    else if DATA_KEY in n.attrs && n.attrs[DATA_KEY] != "" then Some(n.attrs[DATA_KEY])
    else if ID_ATTR in n.attrs && n.attrs[ID_ATTR] != "" then Some(n.attrs[ID_ATTR])
    else None
  }

  predicate Leaving(n: Node) {
    n.kind.Element? && DATA_LEAVING in n.attrs
  }

  function Entered(n: Node, animate: bool): Node {
    if animate && n.kind.Element? then n.(attrs := n.attrs[DATA_ENTERING := ""]) else n
  }

  function Left(n: Node): Node {
    n.(attrs := n.attrs[DATA_LEAVING := ""])
  }

  /** Where the first node with this key that is not on its way out stands. */
  function FindKey(rest: seq<Node>, key: string): (r: Option<nat>)
    ensures r.Some? ==> r.value < |rest| && !Leaving(rest[r.value]) && KeyOf(rest[r.value]) == Some(key)
    ensures forall i | 0 <= i < (if r.Some? then r.value else |rest|) :: Leaving(rest[i]) || KeyOf(rest[i]) != Some(key)
  {
    if rest == [] then None
    else if !Leaving(rest[0]) && KeyOf(rest[0]) == Some(key) then Some(0)
    else
      var r := FindKey(rest[1..], key);
      if r.Some? then Some(r.value + 1) else None
  }

  /**
   * The old node an incoming one is matched with: by key while that key's first node is still
   * open, otherwise the node at the cursor when neither has a key and their kinds agree.
   */
  function Match(rest: seq<Node>, open: set<string>, n: Node): (r: Option<nat>)
    ensures r.Some? ==> r.value < |rest|
  {
    if KeyOf(n).Some? then
      if KeyOf(n).value in open then FindKey(rest, KeyOf(n).value) else None
    else if rest != [] && KeyOf(rest[0]) == None && rest[0].kind == n.kind then Some(0)
    else None
  }

  function Without<T>(s: seq<T>, i: nat): (r: seq<T>)
    requires i < |s|
    ensures |r| == |s| - 1
  {
    s[..i] + s[i + 1..]
  }

  function Spent(open: set<string>, n: Node): set<string> {
    if KeyOf(n).Some? then open - {KeyOf(n).value} else open
  }

  /** What the old nodes from the cursor on become. */
  function Walk(rest: seq<Node>, open: set<string>, incoming: seq<Node>, animate: bool): seq<Node>
    decreases incoming, |rest|
  {
    if incoming == [] then Sweep(rest, animate)
    else if rest != [] && Leaving(rest[0]) then [rest[0]] + Walk(rest[1..], open, incoming, animate)
    else
      var n := incoming[0];
      match Match(rest, open, n)
      case None => [Entered(n, animate)] + Walk(rest, Spent(open, n), incoming[1..], animate)
      case Some(i) => [Morphed(rest[i], n)] + Walk(Without(rest, i), Spent(open, n), incoming[1..], animate)
  }

  /** What was not wanted goes, or fades. */
  function Sweep(rest: seq<Node>, animate: bool): seq<Node> {
    if rest == [] then []
    else if Leaving(rest[0]) then [rest[0]] + Sweep(rest[1..], animate)
    else if animate && rest[0].kind.Element? then [Left(rest[0])] + Sweep(rest[1..], animate)
    else Sweep(rest[1..], animate)
  }

  /** A matched node keeps its identity and its kind; the markup's attributes and children move in. */
  function Morphed(was: Node, n: Node): Node
    decreases n, 0
  {
    if !was.kind.Element? then was.(value := n.value)
    else
      was.(attrs := n.attrs,
           kids := Walk(was.kids, Keys(was.kids), n.kids, ANIMATE_ROWS in n.attrs))
  }

  /** The keys of the nodes that are not on their way out. */
  function Keys(ns: seq<Node>): (r: set<string>)
    ensures forall k | k in r :: FindKey(ns, k).Some?
  {
    if ns == [] then {}
    else if !Leaving(ns[0]) && KeyOf(ns[0]).Some? then {KeyOf(ns[0]).value} + Keys(ns[1..])
    else Keys(ns[1..])
  }

  // ---------- what the reader sees ----------

  function Visible(ns: seq<Node>): (r: seq<Node>) {
    if ns == [] then []
    else if Leaving(ns[0]) then Visible(ns[1..])
    else [ns[0]] + Visible(ns[1..])
  }

  /** The markup holds no node that is on its way out. */
  predicate Settled(ns: seq<Node>) {
    forall n | n in ns :: !Leaving(n) && Settled(n.kids)
  }

  /** The same markup apart from the entering marker; tags compared or not. */
  predicate Like(n: Node, m: Node, tags: bool)
    decreases m, 0
  {
    && n.kind.Element? == m.kind.Element? && (tags || !n.kind.Element? ==> n.kind == m.kind)
    && if n.kind.Element? then
         n.attrs - {DATA_ENTERING} == m.attrs - {DATA_ENTERING} && Alike(Visible(n.kids), m.kids, tags)
       else n.value == m.value
  }

  predicate Alike(ns: seq<Node>, ms: seq<Node>, tags: bool)
    decreases ms, 1
  {
    |ns| == |ms| && (ms != [] ==> Like(ns[0], ms[0], tags) && Alike(ns[1..], ms[1..], tags))
  }

  lemma VisibleHead(n: Node, ns: seq<Node>)
    ensures Visible([n] + ns) == (if Leaving(n) then [] else [n]) + Visible(ns)
  {
    assert ([n] + ns)[1..] == ns;
  }

  lemma {:induction false} SweptUnseen(rest: seq<Node>, animate: bool)
    ensures Visible(Sweep(rest, animate)) == []
  {
    if rest != [] {
      SweptUnseen(rest[1..], animate);
      VisibleHead(rest[0], Sweep(rest[1..], animate));
      VisibleHead(Left(rest[0]), Sweep(rest[1..], animate));
    }
  }

  lemma {:induction false} SettledSeen(ns: seq<Node>)
    requires Settled(ns)
    ensures Visible(ns) == ns
  {
    if ns != [] {
      assert ns[0] in ns;
      assert forall n | n in ns[1..] :: n in ns;
      SettledSeen(ns[1..]);
    }
  }

  lemma {:induction false} AlikeItself(ns: seq<Node>, tags: bool)
    requires Settled(ns)
    ensures Alike(ns, ns, tags)
    decreases ns, 1
  {
    if ns != [] {
      assert ns[0] in ns;
      assert forall n | n in ns[1..] :: n in ns;
      LikeItself(ns[0], false, tags);
      AlikeItself(ns[1..], tags);
    }
  }

  lemma {:induction false} LikeItself(n: Node, animate: bool, tags: bool)
    requires Settled(n.kids) && !Leaving(n)
    ensures Like(Entered(n, animate), n, tags) && !Leaving(Entered(n, animate))
    ensures Like(n, n, tags)
    decreases n, 0
  {
    assert Entered(n, animate).kids == n.kids;
    SettledSeen(n.kids);
    AlikeItself(n.kids, tags);
  }

  lemma AlikeHead(x: Node, xs: seq<Node>, ms: seq<Node>, tags: bool)
    requires ms != []
    ensures Alike([x] + xs, ms, tags) <==> Like(x, ms[0], tags) && Alike(xs, ms[1..], tags)
  {
    assert ([x] + xs)[1..] == xs;
  }

  // ---------- the pairs the walk makes ----------

  /** Every pair the walk matches has one tag, at every depth. */
  predicate Agree(rest: seq<Node>, open: set<string>, incoming: seq<Node>)
    decreases incoming, |rest|
  {
    if incoming == [] then true
    else if rest != [] && Leaving(rest[0]) then Agree(rest[1..], open, incoming)
    else
      var n := incoming[0];
      match Match(rest, open, n)
      case None => Agree(rest, Spent(open, n), incoming[1..])
      case Some(i) =>
        && rest[i].kind == n.kind && AgreeInside(rest[i], n)
        && Agree(Without(rest, i), Spent(open, n), incoming[1..])
  }

  predicate AgreeInside(was: Node, n: Node)
    decreases n, 0
  {
    was.kind.Element? ==> Agree(was.kids, Keys(was.kids), n.kids)
  }

  lemma MatchKind(rest: seq<Node>, open: set<string>, n: Node)
    requires Match(rest, open, n).Some?
    ensures
      var was := rest[Match(rest, open, n).value];
      was.kind.Element? == n.kind.Element? && (!n.kind.Element? ==> was.kind == n.kind)
  {
  }

  /** A matched node shows the incoming markup, tag apart; with the tag exactly when it agrees. */
  lemma {:induction false} MorphedShows(was: Node, n: Node)
    requires Settled(n.kids) && !Leaving(n)
    requires was.kind.Element? == n.kind.Element? && (!n.kind.Element? ==> was.kind == n.kind)
    ensures Like(Morphed(was, n), n, false) && !Leaving(Morphed(was, n))
    ensures Like(Morphed(was, n), n, true) <==> was.kind == n.kind && AgreeInside(was, n)
    decreases n, 0
  {
    if was.kind.Element? {
      WalkShows(was.kids, Keys(was.kids), n.kids, ANIMATE_ROWS in n.attrs);
    }
  }

  /**
   * Whatever the old children were, what a reader sees afterwards is the incoming markup: the same
   * nodes in the same order with the same attributes and text at every depth, tags apart. The tags
   * are the incoming ones too if and only if every pair matched by key has one tag.
   */
  lemma {:induction false} WalkShows(rest: seq<Node>, open: set<string>, incoming: seq<Node>, animate: bool)
    requires Settled(incoming)
    ensures Alike(Visible(Walk(rest, open, incoming, animate)), incoming, false)
    ensures Alike(Visible(Walk(rest, open, incoming, animate)), incoming, true) <==> Agree(rest, open, incoming)
    decreases incoming, |rest|
  {
    if incoming == [] {
      SweptUnseen(rest, animate);
    } else if rest != [] && Leaving(rest[0]) {
      WalkShows(rest[1..], open, incoming, animate);
      VisibleHead(rest[0], Walk(rest[1..], open, incoming, animate));
    } else {
      var n := incoming[0];
      assert n in incoming;
      assert forall m | m in incoming[1..] :: m in incoming;
      match Match(rest, open, n)
      case None =>
        var tail := Walk(rest, Spent(open, n), incoming[1..], animate);
        WalkShows(rest, Spent(open, n), incoming[1..], animate);
        LikeItself(n, animate, false);
        LikeItself(n, animate, true);
        VisibleHead(Entered(n, animate), tail);
        AlikeHead(Entered(n, animate), Visible(tail), incoming, false);
        AlikeHead(Entered(n, animate), Visible(tail), incoming, true);
      case Some(i) =>
        var tail := Walk(Without(rest, i), Spent(open, n), incoming[1..], animate);
        WalkShows(Without(rest, i), Spent(open, n), incoming[1..], animate);
        MatchKind(rest, open, n);
        MorphedShows(rest[i], n);
        VisibleHead(Morphed(rest[i], n), tail);
        AlikeHead(Morphed(rest[i], n), Visible(tail), incoming, false);
        AlikeHead(Morphed(rest[i], n), Visible(tail), incoming, true);
    }
  }

  /** Among siblings, and below every pair of one kind, equal keys mean equal tags. */
  predicate KeysNameTags(olds: seq<Node>, incoming: seq<Node>)
    decreases incoming
  {
    forall o, n | o in olds && n in incoming && !Leaving(o) ::
      && (KeyOf(o).Some? && KeyOf(o) == KeyOf(n) ==> o.kind == n.kind)
      && (o.kind.Element? && o.kind == n.kind ==> KeysNameTags(o.kids, n.kids))
  }

  lemma {:induction false} KeysNameTagsAgree(rest: seq<Node>, open: set<string>, incoming: seq<Node>)
    requires KeysNameTags(rest, incoming)
    ensures Agree(rest, open, incoming)
    decreases incoming, |rest|
  {
    if incoming != [] {
      assert forall m | m in incoming[1..] :: m in incoming;
      if rest != [] && Leaving(rest[0]) {
        assert forall o | o in rest[1..] :: o in rest;
        KeysNameTagsAgree(rest[1..], open, incoming);
      } else {
        var n := incoming[0];
        assert n in incoming;
        match Match(rest, open, n)
        case None => KeysNameTagsAgree(rest, Spent(open, n), incoming[1..]);
        case Some(i) =>
          assert rest[i] in rest;
          assert forall o | o in Without(rest, i) :: o in rest;
          KeysNameTagsAgree(Without(rest, i), Spent(open, n), incoming[1..]);
          if rest[i].kind.Element? {
            KeysNameTagsAgree(rest[i].kids, Keys(rest[i].kids), n.kids);
          }
      }
    }
  }
}
