/** Identity, conservation and the fading nodes under keyed reconciliation. */
module MorphTheorems {
  import opened Wrappers
  import opened Morph

  // ---------- keyed nodes keep their identity ----------

  lemma WithoutTail<T>(s: seq<T>, i: nat)
    requires 0 < i < |s|
    ensures Without(s, i) == [s[0]] + Without(s[1..], i - 1)
  {
  }

  lemma FindKeyHead(n: Node, ns: seq<Node>, key: string)
    requires Leaving(n) || KeyOf(n) != Some(key)
    requires FindKey(ns, key).Some?
    ensures FindKey([n] + ns, key) == Some(FindKey(ns, key).value + 1)
  {
    assert ([n] + ns)[1..] == ns;
  }

  lemma FindKeyFirst(n: Node, ns: seq<Node>, key: string)
    requires !Leaving(n) && KeyOf(n) == Some(key)
    ensures FindKey([n] + ns, key) == Some(0)
  {
    assert ([n] + ns)[0] == n;
  }

  /** Taking another node out leaves the key's first node where it was. */
  lemma {:induction false} FindKeyWithout(rest: seq<Node>, i: nat, key: string)
    requires i < |rest| && KeyOf(rest[i]) != Some(key) && FindKey(rest, key).Some?
    ensures FindKey(Without(rest, i), key).Some?
    ensures Without(rest, i)[FindKey(Without(rest, i), key).value] == rest[FindKey(rest, key).value]
  {
    if i == 0 {
      assert Without(rest, 0) == rest[1..];
    } else {
      WithoutTail(rest, i);
      if Leaving(rest[0]) || KeyOf(rest[0]) != Some(key) {
        FindKeyWithout(rest[1..], i - 1, key);
        FindKeyHead(rest[0], Without(rest[1..], i - 1), key);
      } else {
        FindKeyFirst(rest[0], Without(rest[1..], i - 1), key);
      }
    }
  }

  lemma SeenAt(x: Node, xs: seq<Node>, i: nat)
    requires !Leaving(x)
    ensures Visible([x] + xs)[0] == x
    ensures i < |Visible(xs)| ==> Visible([x] + xs)[i + 1] == Visible(xs)[i]
  {
    VisibleHead(x, xs);
  }

  /** The visible node at a position of the walk has the identity of the first old node with the key. */
  ghost predicate TakenOver(rest: seq<Node>, open: set<string>, incoming: seq<Node>, animate: bool,
                            i: nat, key: string)
    requires FindKey(rest, key).Some?
  {
    var seen := Visible(Walk(rest, open, incoming, animate));
    i < |seen| && seen[i].id == rest[FindKey(rest, key).value].id
  }

  /** A leaving node at the head is passed. */
  lemma LeaverKeepsIdentity(rest: seq<Node>, open: set<string>, incoming: seq<Node>, animate: bool,
                            i: nat, key: string)
    requires incoming != [] && rest != [] && Leaving(rest[0]) && FindKey(rest, key).Some?
    requires FindKey(rest[1..], key).Some? && TakenOver(rest[1..], open, incoming, animate, i, key)
    ensures TakenOver(rest, open, incoming, animate, i, key)
  {
    VisibleHead(rest[0], Walk(rest[1..], open, incoming, animate));
  }

  /** An incoming node without a match is inserted, and the rest of the markup goes on with what was left. */
  lemma NewKeepsIdentity(rest: seq<Node>, open: set<string>, incoming: seq<Node>, animate: bool,
                         i: nat, key: string)
    requires incoming != [] && (rest != [] ==> !Leaving(rest[0])) && Settled(incoming)
    requires Match(rest, open, incoming[0]).None? && i > 0 && FindKey(rest, key).Some?
    requires TakenOver(rest, Spent(open, incoming[0]), incoming[1..], animate, i - 1, key)
    ensures TakenOver(rest, open, incoming, animate, i, key)
  {
    var n := incoming[0];
    assert n in incoming;
    LikeItself(n, animate, true);
    SeenAt(Entered(n, animate), Walk(rest, Spent(open, n), incoming[1..], animate), i - 1);
  }

  /** The match of the incoming node itself shows at the front. */
  lemma MatchShowsFirst(rest: seq<Node>, open: set<string>, incoming: seq<Node>, animate: bool)
    requires incoming != [] && (rest != [] ==> !Leaving(rest[0])) && Settled(incoming)
    requires Match(rest, open, incoming[0]).Some?
    ensures
      var seen := Visible(Walk(rest, open, incoming, animate));
      var m := Match(rest, open, incoming[0]).value;
      |seen| > 0 && seen[0].id == rest[m].id
  {
    var n, m := incoming[0], Match(rest, open, incoming[0]).value;
    assert n in incoming;
    MatchKind(rest, open, n);
    MorphedShows(rest[m], n);
    SeenAt(Morphed(rest[m], n), Walk(Without(rest, m), Spent(open, n), incoming[1..], animate), 0);
  }

  /** The match of a node without the key leaves the key's first node in the list. */
  lemma MatchSpares(rest: seq<Node>, open: set<string>, n: Node, key: string)
    requires Match(rest, open, n).Some? && KeyOf(n) != Some(key) && FindKey(rest, key).Some?
    ensures KeyOf(rest[Match(rest, open, n).value]) != Some(key)
    ensures FindKey(Without(rest, Match(rest, open, n).value), key).Some?
  {
    MatchKind(rest, open, n);
    FindKeyWithout(rest, Match(rest, open, n).value, key);
  }

  /** Another node's match is taken out from under the key. */
  lemma MatchKeepsIdentity(rest: seq<Node>, open: set<string>, incoming: seq<Node>, animate: bool,
                           i: nat, key: string)
    requires incoming != [] && (rest != [] ==> !Leaving(rest[0])) && Settled(incoming) && i > 0
    requires Match(rest, open, incoming[0]).Some? && FindKey(rest, key).Some?
    requires KeyOf(rest[Match(rest, open, incoming[0]).value]) != Some(key)
    requires FindKey(Without(rest, Match(rest, open, incoming[0]).value), key).Some?
    requires TakenOver(Without(rest, Match(rest, open, incoming[0]).value), Spent(open, incoming[0]), incoming[1..],
                       animate, i - 1, key)
    ensures TakenOver(rest, open, incoming, animate, i, key)
  {
    var n, m := incoming[0], Match(rest, open, incoming[0]).value;
    assert n in incoming;
    MatchKind(rest, open, n);
    MorphedShows(rest[m], n);
    FindKeyWithout(rest, m, key);
    SeenAt(Morphed(rest[m], n), Walk(Without(rest, m), Spent(open, n), incoming[1..], animate), i - 1);
  }

  lemma {:induction false} KeyedTaken(rest: seq<Node>, open: set<string>, incoming: seq<Node>, animate: bool,
                                      i: nat, key: string)
    requires Settled(incoming) && i < |incoming| && KeyOf(incoming[i]) == Some(key)
    requires forall j | 0 <= j < i :: KeyOf(incoming[j]) != Some(key)
    requires key in open && FindKey(rest, key).Some?
    ensures TakenOver(rest, open, incoming, animate, i, key)
    decreases incoming, |rest|
  {
    if rest != [] && Leaving(rest[0]) {
      KeyedTaken(rest[1..], open, incoming, animate, i, key);
      LeaverKeepsIdentity(rest, open, incoming, animate, i, key);
    } else {
      var n := incoming[0];
      assert forall m | m in incoming[1..] :: m in incoming;
      if i == 0 {
        MatchShowsFirst(rest, open, incoming, animate);
      } else if Match(rest, open, n).None? {
        KeyedTaken(rest, Spent(open, n), incoming[1..], animate, i - 1, key);
        NewKeepsIdentity(rest, open, incoming, animate, i, key);
      } else {
        var m := Match(rest, open, n).value;
        MatchSpares(rest, open, n, key);
        KeyedTaken(Without(rest, m), Spent(open, n), incoming[1..], animate, i - 1, key);
        MatchKeepsIdentity(rest, open, incoming, animate, i, key);
      }
    }
  }

  /** What names a row: data-key, or id where data-key is absent or empty. */
  predicate Named(n: Node, name: string) {
    && n.kind.Element? && name != ""
    && if "data-key" in n.attrs && n.attrs["data-key"] != "" then n.attrs["data-key"] == name
       else "id" in n.attrs && n.attrs["id"] == name
  }

  ghost predicate Nameless(n: Node) {
    forall name :: !Named(n, name)
  }

  /** An element already on its way out. */
  predicate Fading(n: Node) {
    n.kind.Element? && "data-leaving" in n.attrs
  }

  lemma NamedIs(n: Node, name: string)
    ensures Named(n, name) <==> KeyOf(n) == Some(name)
  {
  }

  lemma NamelessIs(n: Node)
    ensures Nameless(n) <==> KeyOf(n) == None
  {
    if KeyOf(n).Some? {
      NamedIs(n, KeyOf(n).value);
    } else {
      forall name ensures !Named(n, name) {
        NamedIs(n, name);
      }
    }
  }

  lemma {:induction false} KeysHold(olds: seq<Node>, o: nat, key: string)
    requires o < |olds| && !Leaving(olds[o]) && KeyOf(olds[o]) == Some(key)
    ensures key in Keys(olds)
  {
    if o > 0 {
      KeysHold(olds[1..], o - 1, key);
    }
  }

  /** The first incoming element with this name. */
  predicate FirstNamed(ns: seq<Node>, i: nat, name: string) {
    i < |ns| && Named(ns[i], name) && forall j | 0 <= j < i :: !Named(ns[j], name)
  }

  /** The first old element with this name that is not on its way out. */
  predicate FirstOpen(ns: seq<Node>, o: nat, name: string) {
    && o < |ns| && Named(ns[o], name) && !Fading(ns[o])
    && forall p | 0 <= p < o :: !Named(ns[p], name) || Fading(ns[p])
  }

  lemma FirstOpenIs(ns: seq<Node>, o: nat, name: string)
    ensures FirstOpen(ns, o, name) <==> FindKey(ns, name) == Some(o)
  {
    forall p | 0 <= p < |ns| ensures Named(ns[p], name) <==> KeyOf(ns[p]) == Some(name) {
      NamedIs(ns[p], name);
    }
  }

  lemma FirstNamedIs(ns: seq<Node>, i: nat, name: string)
    requires FirstNamed(ns, i, name)
    ensures KeyOf(ns[i]) == Some(name) && forall j | 0 <= j < i :: KeyOf(ns[j]) != Some(name)
  {
    NamedIs(ns[i], name);
    forall j | 0 <= j < i ensures KeyOf(ns[j]) != Some(name) {
      NamedIs(ns[j], name);
    }
  }

  /**
   * The first incoming element with a data-key, or with an id where it has no data-key, takes over
   * the first old element with that name that is not on its way out: the same object, wherever in
   * the list it stood.
   */
  lemma KeyedKeepsIdentity(olds: seq<Node>, incoming: seq<Node>, animate: bool, o: nat, i: nat, name: string)
    requires Settled(incoming) && FirstNamed(incoming, i, name)
    requires FirstOpen(olds, o, name)
    ensures
      var seen := Visible(Walk(olds, Keys(olds), incoming, animate));
      i < |seen| && seen[i].id == olds[o].id
  {
    FirstNamedIs(incoming, i, name);
    FirstOpenIs(olds, o, name);
    KeysHold(olds, o, name);
    KeyedTaken(olds, Keys(olds), incoming, animate, i, name);
  }

  // ---------- nodes without a name, and new ones ----------

  /** Up to here old and new nodes pair off in place: no names, nothing fading, one kind each. */
  ghost predicate PairOff(olds: seq<Node>, incoming: seq<Node>, i: nat) {
    && i < |olds| && i < |incoming|
    && forall j | 0 <= j <= i ::
         Nameless(olds[j]) && Nameless(incoming[j]) && !Fading(olds[j]) && olds[j].kind == incoming[j].kind
  }

  /** A pair at the front: the old node shows first, and the rest of the lists go on. */
  lemma PairStep(rest: seq<Node>, open: set<string>, incoming: seq<Node>, animate: bool)
    requires Settled(incoming) && rest != [] && incoming != []
    requires KeyOf(rest[0]) == KeyOf(incoming[0]) == None && !Leaving(rest[0]) && rest[0].kind == incoming[0].kind
    ensures
      var seen := Visible(Walk(rest, open, incoming, animate));
      seen != [] && seen[0].id == rest[0].id && seen[1..] == Visible(Walk(rest[1..], open, incoming[1..], animate))
  {
    var n := incoming[0];
    assert n in incoming;
    assert Match(rest, open, n) == Some(0) && Without(rest, 0) == rest[1..] && Spent(open, n) == open;
    MorphedShows(rest[0], n);
    VisibleHead(Morphed(rest[0], n), Walk(rest[1..], open, incoming[1..], animate));
  }

  lemma PairTail(olds: seq<Node>, incoming: seq<Node>, i: nat)
    requires PairOff(olds, incoming, i)
    ensures KeyOf(olds[0]) == KeyOf(incoming[0]) == None && !Leaving(olds[0]) && olds[0].kind == incoming[0].kind
    ensures i > 0 ==> PairOff(olds[1..], incoming[1..], i - 1)
  {
    NamelessIs(olds[0]);
    NamelessIs(incoming[0]);
  }

  lemma {:induction false} PairedTaken(rest: seq<Node>, open: set<string>, incoming: seq<Node>, animate: bool, i: nat)
    requires Settled(incoming) && PairOff(rest, incoming, i)
    ensures
      var seen := Visible(Walk(rest, open, incoming, animate));
      i < |seen| && seen[i].id == rest[i].id
    decreases i
  {
    PairTail(rest, incoming, i);
    PairStep(rest, open, incoming, animate);
    if i > 0 {
      assert forall m | m in incoming[1..] :: m in incoming;
      PairedTaken(rest[1..], open, incoming[1..], animate, i - 1);
    }
  }

  /** Elements without data-key and id, and text, are reused in place, by tag. */
  lemma UnnamedReused(olds: seq<Node>, incoming: seq<Node>, animate: bool, i: nat)
    requires Settled(incoming) && PairOff(olds, incoming, i)
    ensures
      var seen := Visible(Walk(olds, Keys(olds), incoming, animate));
      i < |seen| && seen[i].id == olds[i].id
  {
    PairedTaken(olds, Keys(olds), incoming, animate, i);
  }

  /** The visible node at a position is the incoming one, marked as entering when rows animate. */
  ghost predicate Inserted(rest: seq<Node>, open: set<string>, incoming: seq<Node>, animate: bool, i: nat, n: Node) {
    var seen := Visible(Walk(rest, open, incoming, animate));
    i < |seen| && seen[i] == if animate then n.(attrs := n.attrs["data-entering" := ""]) else n
  }

  lemma FindKeyNowhere(rest: seq<Node>, m: nat, key: string)
    requires m < |rest| && FindKey(rest, key).None?
    ensures FindKey(Without(rest, m), key).None?
  {
  }

  lemma {:induction false} NewInserted(rest: seq<Node>, open: set<string>, incoming: seq<Node>, animate: bool,
                                       i: nat, key: string)
    requires Settled(incoming) && i < |incoming| && KeyOf(incoming[i]) == Some(key)
    requires FindKey(rest, key).None?
    ensures Inserted(rest, open, incoming, animate, i, incoming[i])
    decreases incoming, |rest|
  {
    if rest != [] && Leaving(rest[0]) {
      NewInserted(rest[1..], open, incoming, animate, i, key);
      VisibleHead(rest[0], Walk(rest[1..], open, incoming, animate));
    } else {
      var n := incoming[0];
      assert forall m | m in incoming[1..] :: m in incoming;
      if Match(rest, open, n).None? {
        NewInFront(rest, open, incoming, animate);
        if i > 0 {
          NewInserted(rest, Spent(open, n), incoming[1..], animate, i - 1, key);
        }
      } else {
        NewBehind(rest, open, incoming, animate, i, key);
        NewInserted(Without(rest, Match(rest, open, n).value), Spent(open, n), incoming[1..], animate, i - 1, key);
      }
    }
  }

  lemma NewInFront(rest: seq<Node>, open: set<string>, incoming: seq<Node>, animate: bool)
    requires Settled(incoming) && incoming != [] && (rest != [] ==> !Leaving(rest[0]))
    requires Match(rest, open, incoming[0]).None?
    ensures
      var n := incoming[0];
      Visible(Walk(rest, open, incoming, animate))
      == [Entered(n, animate)] + Visible(Walk(rest, Spent(open, n), incoming[1..], animate))
  {
    var n := incoming[0];
    assert n in incoming;
    LikeItself(n, animate, true);
    VisibleHead(Entered(n, animate), Walk(rest, Spent(open, n), incoming[1..], animate));
  }

  /** A matched node in front of a new one. */
  lemma NewBehind(rest: seq<Node>, open: set<string>, incoming: seq<Node>, animate: bool, i: nat, key: string)
    requires Settled(incoming) && i < |incoming| && KeyOf(incoming[i]) == Some(key) && FindKey(rest, key).None?
    requires (rest != [] ==> !Leaving(rest[0])) && Match(rest, open, incoming[0]).Some?
    ensures
      var n, m := incoming[0], Match(rest, open, incoming[0]).value;
      var tail := Walk(Without(rest, m), Spent(open, n), incoming[1..], animate);
      && i > 0 && FindKey(Without(rest, m), key).None?
      && Visible(Walk(rest, open, incoming, animate)) == [Morphed(rest[m], n)] + Visible(tail)
  {
    var n, m := incoming[0], Match(rest, open, incoming[0]).value;
    assert n in incoming;
    FindKeyNowhere(rest, m, key);
    MatchKind(rest, open, n);
    MorphedShows(rest[m], n);
    VisibleHead(Morphed(rest[m], n), Walk(Without(rest, m), Spent(open, n), incoming[1..], animate));
  }

  /** A row whose name no old row has comes in as the markup's own node, entering when rows animate. */
  lemma NewRowsEnter(olds: seq<Node>, incoming: seq<Node>, animate: bool, i: nat, name: string)
    requires Settled(incoming) && i < |incoming| && Named(incoming[i], name)
    requires forall o | o in olds :: !Named(o, name) || Fading(o)
    ensures Inserted(olds, Keys(olds), incoming, animate, i, incoming[i])
  {
    NamedIs(incoming[i], name);
    forall o | o in olds ensures Leaving(o) || KeyOf(o) != Some(name) {
      NamedIs(o, name);
    }
    NewInserted(olds, Keys(olds), incoming, animate, i, name);
  }

  // ---------- no node is duplicated ----------

  /** Every node of a list of trees, counted. */
  function Ids(ns: seq<Node>): multiset<nat>
    decreases ns, 1
  {
    if ns == [] then multiset{} else IdsOf(ns[0]) + Ids(ns[1..])
  }

  function IdsOf(n: Node): multiset<nat>
    decreases n, 0
  {
    multiset{n.id} + Ids(n.kids)
  }

  lemma IdsHead(n: Node, ns: seq<Node>)
    ensures Ids([n] + ns) == IdsOf(n) + Ids(ns)
  {
    assert ([n] + ns)[1..] == ns;
  }

  lemma {:induction false} IdsWithout(ns: seq<Node>, i: nat)
    requires i < |ns|
    ensures Ids(ns) == IdsOf(ns[i]) + Ids(Without(ns, i))
  {
    if i == 0 {
      assert Without(ns, 0) == ns[1..];
    } else {
      IdsWithout(ns[1..], i - 1);
      WithoutTail(ns, i);
      IdsHead(ns[0], Without(ns[1..], i - 1));
    }
  }

  lemma {:induction false} SweepIds(rest: seq<Node>, animate: bool)
    ensures Ids(Sweep(rest, animate)) <= Ids(rest)
  {
    if rest != [] {
      var tail := Sweep(rest[1..], animate);
      SweepIds(rest[1..], animate);
      IdsHead(rest[0], tail);
      IdsHead(Left(rest[0]), tail);
      assert Left(rest[0]).id == rest[0].id && Left(rest[0]).kids == rest[0].kids;
    }
  }

  lemma {:induction false} MorphedIds(was: Node, n: Node)
    ensures IdsOf(Morphed(was, n)) <= IdsOf(was) + IdsOf(n)
    decreases n, 0
  {
    if was.kind.Element? {
      WalkIds(was.kids, Keys(was.kids), n.kids, ANIMATE_ROWS in n.attrs);
    }
  }

  /** At every depth together, a node comes out no more often than it went in. */
  lemma {:induction false} WalkIds(rest: seq<Node>, open: set<string>, incoming: seq<Node>, animate: bool)
    ensures Ids(Walk(rest, open, incoming, animate)) <= Ids(rest) + Ids(incoming)
    decreases incoming, |rest|
  {
    if incoming == [] {
      SweepIds(rest, animate);
    } else if rest != [] && Leaving(rest[0]) {
      WalkIds(rest[1..], open, incoming, animate);
      IdsHead(rest[0], Walk(rest[1..], open, incoming, animate));
    } else {
      var n := incoming[0];
      match Match(rest, open, n)
      case None =>
        WalkIds(rest, Spent(open, n), incoming[1..], animate);
        IdsHead(Entered(n, animate), Walk(rest, Spent(open, n), incoming[1..], animate));
        assert Entered(n, animate).id == n.id && Entered(n, animate).kids == n.kids;
      case Some(i) =>
        WalkIds(Without(rest, i), Spent(open, n), incoming[1..], animate);
        IdsHead(Morphed(rest[i], n), Walk(Without(rest, i), Spent(open, n), incoming[1..], animate));
        MorphedIds(rest[i], n);
        IdsWithout(rest, i);
    }
  }

  // ---------- nodes on their way out ----------

  function Leavers(ns: seq<Node>): seq<Node> {
    if ns == [] then []
    else if Leaving(ns[0]) then [ns[0]] + Leavers(ns[1..])
    else Leavers(ns[1..])
  }

  lemma LeaversHead(n: Node, ns: seq<Node>)
    ensures Leavers([n] + ns) == (if Leaving(n) then [n] else []) + Leavers(ns)
  {
    assert ([n] + ns)[1..] == ns;
  }

  lemma {:induction false} LeaversWithout(ns: seq<Node>, i: nat)
    requires i < |ns| && !Leaving(ns[i])
    ensures Leavers(Without(ns, i)) == Leavers(ns)
  {
    if i == 0 {
      assert Without(ns, 0) == ns[1..];
    } else {
      LeaversWithout(ns[1..], i - 1);
      WithoutTail(ns, i);
      LeaversHead(ns[0], Without(ns[1..], i - 1));
    }
  }

  lemma {:induction false} SweepLeavers(rest: seq<Node>)
    ensures Leavers(Sweep(rest, false)) == Leavers(rest)
  {
    if rest != [] {
      SweepLeavers(rest[1..]);
      LeaversHead(rest[0], Sweep(rest[1..], false));
    }
  }

  /** Without row animation the nodes already on their way out stay, untouched and in order, and no other is added. */
  lemma {:induction false} LeaversUntouched(rest: seq<Node>, open: set<string>, incoming: seq<Node>)
    requires Settled(incoming)
    ensures Leavers(Walk(rest, open, incoming, false)) == Leavers(rest)
    decreases incoming, |rest|
  {
    if incoming == [] {
      SweepLeavers(rest);
    } else if rest != [] && Leaving(rest[0]) {
      LeaversUntouched(rest[1..], open, incoming);
      LeaversHead(rest[0], Walk(rest[1..], open, incoming, false));
    } else {
      var n := incoming[0];
      assert n in incoming;
      assert forall m | m in incoming[1..] :: m in incoming;
      match Match(rest, open, n)
      case None =>
        LeaversUntouched(rest, Spent(open, n), incoming[1..]);
        LeaversHead(n, Walk(rest, Spent(open, n), incoming[1..], false));
      case Some(i) =>
        LeaversUntouched(Without(rest, i), Spent(open, n), incoming[1..]);
        MatchKind(rest, open, n);
        MorphedShows(rest[i], n);
        LeaversHead(Morphed(rest[i], n), Walk(Without(rest, i), Spent(open, n), incoming[1..], false));
        LeaversWithout(rest, i);
    }
  }

  /** With row animation no element vanishes at once: every old element is still in the list. */
  lemma {:induction false} AnimatedElementsStay(rest: seq<Node>, open: set<string>, incoming: seq<Node>, o: Node)
    requires o in rest && o.kind.Element?
    ensures exists r :: r in Walk(rest, open, incoming, true) && r.id == o.id
    decreases incoming, |rest|
  {
    if incoming == [] {
      SweptStays(rest, o);
    } else if rest != [] && Leaving(rest[0]) {
      if o != rest[0] {
        AnimatedElementsStay(rest[1..], open, incoming, o);
      } else {
        assert rest[0] in Walk(rest, open, incoming, true);
      }
    } else {
      var n := incoming[0];
      match Match(rest, open, n)
      case None => AnimatedElementsStay(rest, Spent(open, n), incoming[1..], o);
      case Some(i) =>
        if o == rest[i] {
          assert Morphed(rest[i], n) in Walk(rest, open, incoming, true);
        } else {
          assert o in Without(rest, i);
          AnimatedElementsStay(Without(rest, i), Spent(open, n), incoming[1..], o);
        }
    }
  }

  lemma {:induction false} SweptStays(rest: seq<Node>, o: Node)
    requires o in rest && o.kind.Element?
    ensures exists r :: r in Sweep(rest, true) && r.id == o.id
  {
    if o == rest[0] {
      assert (if Leaving(o) then o else Left(o)) in Sweep(rest, true);
    } else {
      SweptStays(rest[1..], o);
    }
  }

  /**
   * When equal keys mean equal tags among siblings, at every depth the walk pairs, the visible
   * children end up equal to the markup in order, tag, attributes and text.
   */
  lemma MorphShowsMarkup(olds: seq<Node>, incoming: seq<Node>, animate: bool)
    requires Settled(incoming) && KeysNameTags(olds, incoming)
    ensures Alike(Visible(Walk(olds, Keys(olds), incoming, animate)), incoming, true)
  {
    KeysNameTagsAgree(olds, Keys(olds), incoming);
    WalkShows(olds, Keys(olds), incoming, animate);
  }
}
