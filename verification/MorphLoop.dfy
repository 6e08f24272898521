/** The cursor algorithm itself: morphChildren and morphNode of core/runtime/app.js. */
module MorphLoop {
  import opened Wrappers
  import opened Sequences
  import opened Morph
  import opened MorphTheorems

  /** Siblings are different objects. */
  predicate Distinct(ns: seq<Node>) {
    forall i, j | 0 <= i < j < |ns| :: ns[i].id != ns[j].id
  }

  /** At every depth. */
  predicate DistinctBelow(ns: seq<Node>) {
    Distinct(ns) && forall n | n in ns :: DistinctBelow(n.kids)
  }

  /** keyed holds, for each key still open, the first node at or after the cursor that has it. */
  ghost predicate KeyedOk(keyed: map<string, nat>, rest: seq<Node>) {
    forall k | k in keyed :: FindKey(rest, k).Some? && rest[FindKey(rest, k).value].id == keyed[k]
  }

  lemma FindKeyOne(n: Node, key: string)
    ensures FindKey([n], key) == if !Leaving(n) && KeyOf(n) == Some(key) then Some(0) else None
  {
    assert [n][1..] == [];
  }

  lemma {:induction false} FindKeySnoc(ns: seq<Node>, n: Node, key: string)
    ensures FindKey(ns + [n], key) == if FindKey(ns, key).Some? then FindKey(ns, key)
                                      else if !Leaving(n) && KeyOf(n) == Some(key) then Some(|ns|) else None
  {
    if ns == [] {
      assert ns + [n] == [n];
      FindKeyOne(n, key);
    } else {
      assert (ns + [n])[1..] == ns[1..] + [n] && (ns + [n])[0] == ns[0];
      FindKeySnoc(ns[1..], n, key);
    }
  }

  lemma KeysSnoc(ns: seq<Node>, n: Node)
    ensures Keys(ns + [n]) == Keys(ns) + if !Leaving(n) && KeyOf(n).Some? then {KeyOf(n).value} else {}
  {
    if ns == [] {
      assert ns + [n] == [n];
    } else {
      assert (ns + [n])[1..] == ns[1..] + [n];
      KeysSnoc(ns[1..], n);
    }
  }

  lemma {:induction false} FindKeyNone(ns: seq<Node>, key: string)
    ensures FindKey(ns, key).Some? <==> key in Keys(ns)
  {
    if ns != [] {
      FindKeyNone(ns[1..], key);
    }
  }

  /** One more node: its key joins the map unless the key is there. */
  lemma KeyedSnoc(keyed: map<string, nat>, ns: seq<Node>, n: Node)
    requires keyed.Keys == Keys(ns) && KeyedOk(keyed, ns)
    ensures
      var isNew := !Leaving(n) && KeyOf(n).Some? && KeyOf(n).value !in keyed;
      var longer := if isNew then keyed[KeyOf(n).value := n.id] else keyed;
      longer.Keys == Keys(ns + [n]) && KeyedOk(longer, ns + [n])
  {
    KeysSnoc(ns, n);
    forall k | k in keyed ensures FindKey(ns + [n], k) == FindKey(ns, k) {
      FindKeySnoc(ns, n, k);
    }
    if KeyOf(n).Some? {
      FindKeySnoc(ns, n, KeyOf(n).value);
      FindKeyNone(ns, KeyOf(n).value);
    }
  }

  /** The map has the first element with this name, or there is none. */
  ghost predicate HasFirst(keyed: map<string, nat>, kids: seq<Node>, name: string) {
    if name in keyed then exists o: nat :: FirstOpen(kids, o, name) && keyed[name] == kids[o].id
    else forall o: nat :: !FirstOpen(kids, o, name)
  }

  lemma KeyedNames(keyed: map<string, nat>, kids: seq<Node>, name: string)
    requires keyed.Keys == Keys(kids) && KeyedOk(keyed, kids)
    ensures HasFirst(keyed, kids, name)
  {
    FindKeyNone(kids, name);
    if name in keyed {
      FirstOpenIs(kids, FindKey(kids, name).value, name);
    } else {
      forall o: nat ensures !FirstOpen(kids, o, name) {
        FirstOpenIs(kids, o, name);
      }
    }
  }

  /** The first element of every name, by name. */
  method CollectKeys(kids: seq<Node>) returns (keyed: map<string, nat>)
    ensures keyed.Keys == Keys(kids) && KeyedOk(keyed, kids)
    ensures forall name :: HasFirst(keyed, kids, name)
  {
    keyed := map[];
    var i := 0;
    while i < |kids|
      invariant i <= |kids| && keyed.Keys == Keys(kids[..i]) && KeyedOk(keyed, kids[..i])
    {
      var c := kids[i];
      assert kids[..i + 1] == kids[..i] + [c];
      KeyedSnoc(keyed, kids[..i], c);
      if !Leaving(c) {
        var k := KeyOf(c);
        if k.Some? && k.value !in keyed {
          keyed := keyed[k.value := c.id];
        }
      }
      i := i + 1;
    }
    assert kids[..i] == kids;
    forall name ensures HasFirst(keyed, kids, name) {
      KeyedNames(keyed, kids, name);
    }
  }

  // ---------- the cursor ----------

  lemma Split(kids: seq<Node>, cursor: nat)
    requires cursor < |kids|
    ensures kids[cursor..] == [kids[cursor]] + kids[cursor + 1..]
    ensures kids[..cursor + 1] == kids[..cursor] + [kids[cursor]]
    ensures kids[cursor..][1..] == kids[cursor + 1..]
  {
  }

  lemma WalkMatch(rest: seq<Node>, open: set<string>, incoming: seq<Node>, animate: bool, j: nat)
    requires incoming != [] && rest != [] && !Leaving(rest[0]) && Match(rest, open, incoming[0]) == Some(j)
    ensures Walk(rest, open, incoming, animate)
         == [Morphed(rest[j], incoming[0])] + Walk(Without(rest, j), Spent(open, incoming[0]), incoming[1..], animate)
  {
  }

  lemma WalkInsert(rest: seq<Node>, open: set<string>, incoming: seq<Node>, animate: bool)
    requires incoming != [] && (rest != [] ==> !Leaving(rest[0])) && Match(rest, open, incoming[0]).None?
    ensures Walk(rest, open, incoming, animate)
         == [Entered(incoming[0], animate)] + Walk(rest, Spent(open, incoming[0]), incoming[1..], animate)
  {
  }

  /** One more node on its way out is passed. */
  lemma WalkSkips(kids: seq<Node>, cursor: nat, open: set<string>, incoming: seq<Node>, animate: bool)
    requires cursor < |kids| && Leaving(kids[cursor]) && incoming != []
    ensures kids[..cursor + 1] + Walk(kids[cursor + 1..], open, incoming, animate)
         == kids[..cursor] + Walk(kids[cursor..], open, incoming, animate)
  {
    Split(kids, cursor);
    AppendAssociates(kids[..cursor], [kids[cursor]], Walk(kids[cursor + 1..], open, incoming, animate));
  }

  lemma SkipOne(rest: seq<Node>, keyed: map<string, nat>)
    requires rest != [] && Leaving(rest[0]) && KeyedOk(keyed, rest)
    ensures KeyedOk(keyed, rest[1..])
  {
  }

  /** Past the nodes on their way out; what the walk makes of the rest stays. */
  method SkipLeaving(kids: seq<Node>, cursor: nat, ghost keyed: map<string, nat>, ghost incoming: seq<Node>,
                     ghost animate: bool)
    returns (next: nat)
    requires cursor <= |kids| && incoming != [] && KeyedOk(keyed, kids[cursor..])
    ensures cursor <= next <= |kids| && (next < |kids| ==> !Leaving(kids[next]))
    ensures KeyedOk(keyed, kids[next..])
    ensures kids[..next] + Walk(kids[next..], keyed.Keys, incoming, animate)
         == kids[..cursor] + Walk(kids[cursor..], keyed.Keys, incoming, animate)
  {
    next := cursor;
    while next < |kids| && Leaving(kids[next])
      invariant cursor <= next <= |kids| && KeyedOk(keyed, kids[next..])
      invariant kids[..next] + Walk(kids[next..], keyed.Keys, incoming, animate)
             == kids[..cursor] + Walk(kids[cursor..], keyed.Keys, incoming, animate)
    {
      Split(kids, next);
      SkipOne(kids[next..], keyed);
      WalkSkips(kids, next, keyed.Keys, incoming, animate);
      next := next + 1;
    }
  }

  /** The object with this identity, from the cursor on. */
  method Locate(kids: seq<Node>, cursor: nat, id: nat) returns (at: nat)
    requires cursor <= |kids| && exists j :: cursor <= j < |kids| && kids[j].id == id
    ensures cursor <= at < |kids| && kids[at].id == id
  {
    at := cursor;
    while kids[at].id != id
      invariant cursor <= at < |kids| && exists j :: at <= j < |kids| && kids[j].id == id
      decreases |kids| - at
    {
      at := at + 1;
    }
  }

  /** The node the map holds for a key is the first one with that key. */
  method LocateKey(kids: seq<Node>, cursor: nat, keyed: map<string, nat>, key: string) returns (at: nat)
    requires cursor <= |kids| && KeyedOk(keyed, kids[cursor..]) && Distinct(kids[cursor..]) && key in keyed
    ensures cursor <= at < |kids| && FindKey(kids[cursor..], key) == Some(at - cursor)
  {
    ghost var rest := kids[cursor..];
    ghost var j := FindKey(rest, key).value;
    assert kids[cursor + j] == rest[j];
    at := Locate(kids, cursor, keyed[key]);
    assert rest[at - cursor] == kids[at];
  }

  /** The match of one incoming node, as a position; its key is taken out of the map. */
  method FindMatch(kids: seq<Node>, cursor: nat, keyed: map<string, nat>, n: Node)
    returns (at: Option<nat>, keyed': map<string, nat>)
    requires cursor <= |kids| && KeyedOk(keyed, kids[cursor..]) && Distinct(kids[cursor..])
    requires cursor < |kids| ==> !Leaving(kids[cursor])
    ensures at.None? ==> Match(kids[cursor..], keyed.Keys, n).None?
    ensures at.Some? ==> cursor <= at.value < |kids| && Match(kids[cursor..], keyed.Keys, n) == Some(at.value - cursor)
    ensures keyed' == keyed - (if KeyOf(n).Some? then {KeyOf(n).value} else {}) && keyed'.Keys == Spent(keyed.Keys, n)
  {
    var k := KeyOf(n);
    at, keyed' := None, keyed;
    SpentKeys(keyed, n);
    if k.Some? {
      if k.value in keyed {
        var found := LocateKey(kids, cursor, keyed, k.value);
        at, keyed' := Some(found), keyed - {k.value};
      }
    } else {
      CursorMatch(kids, cursor, keyed.Keys, n);
      if cursor < |kids| && KeyOf(kids[cursor]) == None && kids[cursor].kind == n.kind {
        at := Some(cursor);
      }
    }
  }

  lemma SpentKeys(keyed: map<string, nat>, n: Node)
    ensures
      var less := keyed - (if KeyOf(n).Some? then {KeyOf(n).value} else {});
      less.Keys == Spent(keyed.Keys, n) && (KeyOf(n).None? || KeyOf(n).value !in keyed ==> less == keyed)
  {
  }

  lemma CursorMatch(kids: seq<Node>, cursor: nat, open: set<string>, n: Node)
    requires cursor <= |kids| && KeyOf(n).None?
    ensures Match(kids[cursor..], open, n) ==
            if cursor < |kids| && KeyOf(kids[cursor]) == None && kids[cursor].kind == n.kind then Some(0) else None
  {
  }

  /** insertBefore(match, cursor): what the match became stands at the cursor, the others keep their order. */
  function Moved(kids: seq<Node>, cursor: nat, at: nat, r: Node): (moved: seq<Node>)
    requires cursor <= at < |kids|
    ensures |moved| == |kids| && moved[..cursor + 1] == kids[..cursor] + [r]
    ensures moved[cursor + 1..] == Without(kids[cursor..], at - cursor)
  {
    if at == cursor then kids[cursor := r]
    else kids[..cursor] + [r] + kids[cursor..at] + kids[at + 1..]
  }

  lemma MatchKeeps(rest: seq<Node>, keyed: map<string, nat>, keyed': map<string, nat>, n: Node, j: nat)
    requires KeyedOk(keyed, rest) && Match(rest, keyed.Keys, n) == Some(j)
    requires keyed' == keyed - (if KeyOf(n).Some? then {KeyOf(n).value} else {})
    ensures KeyedOk(keyed', Without(rest, j))
  {
    forall k | k in keyed'
      ensures FindKey(Without(rest, j), k).Some? && Without(rest, j)[FindKey(Without(rest, j), k).value].id == keyed'[k]
    {
      FindKeyWithout(rest, j, k);
    }
  }

  lemma DistinctIdsWithout(rest: seq<Node>, j: nat)
    requires Distinct(rest) && j < |rest|
    ensures Distinct(Without(rest, j))
  {
    var less := Without(rest, j);
    forall x, y | 0 <= x < y < |less| ensures less[x].id != less[y].id {
      assert less[x] == rest[if x < j then x else x + 1] && less[y] == rest[if y < j then y else y + 1];
    }
  }

  lemma DistinctWithout(rest: seq<Node>, j: nat)
    requires DistinctBelow(rest) && j < |rest|
    ensures DistinctBelow(Without(rest, j)) && DistinctBelow(rest[j].kids)
  {
    var less := Without(rest, j);
    assert rest[j] in rest;
    forall n | n in less ensures n in rest && DistinctBelow(n.kids) {
      assert n in rest;
    }
    DistinctIdsWithout(rest, j);
  }

  /** What the loop needs of a match: the rest keeps its promises, and so do the children inside. */
  lemma PairKeeps(kids: seq<Node>, next: nat, at: nat, keyed: map<string, nat>, keyed': map<string, nat>, n: Node)
    requires next <= at < |kids| && KeyedOk(keyed, kids[next..]) && DistinctBelow(kids[next..])
    requires Match(kids[next..], keyed.Keys, n) == Some(at - next)
    requires keyed' == keyed - (if KeyOf(n).Some? then {KeyOf(n).value} else {})
    ensures KeyedOk(keyed', Without(kids[next..], at - next)) && DistinctBelow(Without(kids[next..], at - next))
    ensures DistinctBelow(kids[at].kids)
  {
    MatchKeeps(kids[next..], keyed, keyed', n, at - next);
    DistinctWithout(kids[next..], at - next);
    assert kids[next..][at - next] == kids[at];
  }

  lemma DistinctFrom(kids: seq<Node>, cursor: nat, next: nat)
    requires cursor <= next <= |kids| && DistinctBelow(kids[cursor..])
    ensures DistinctBelow(kids[next..])
  {
    assert kids[next..] == kids[cursor..][next - cursor..];
    assert forall n | n in kids[next..] :: n in kids[cursor..];
  }

  /** The attributes that are not in the markup go, the rest are set. */
  method SyncAttributes(was: map<string, string>, markup: map<string, string>) returns (attrs: map<string, string>)
    ensures attrs == markup
  {
    attrs := was;
    var names := was.Keys;
    while names != {}
      invariant names <= attrs.Keys
      invariant forall a | a in attrs :: a in names || a in markup
      decreases |names|
    {
      var a :| a in names;
      names := names - {a};
      if a !in markup {
        attrs := attrs - {a};
      }
    }
    var todo := markup.Keys;
    while todo != {}
      invariant todo <= markup.Keys && attrs.Keys <= markup.Keys
      invariant forall a | a in markup && a !in todo :: a in attrs && attrs[a] == markup[a]
      decreases |todo|
    {
      var a :| a in todo;
      todo := todo - {a};
      if a !in attrs || attrs[a] != markup[a] {
        attrs := attrs[a := markup[a]];
      }
    }
  }

  method MorphNode(was: Node, n: Node) returns (r: Node)
    requires DistinctBelow(was.kids)
    ensures r == Morphed(was, n)
    decreases n, 1
  {
    if !was.kind.Element? {
      r := was;
      if r.value != n.value {
        r := r.(value := n.value);
      }
      return;
    }
    var attrs := SyncAttributes(was.attrs, n.attrs);
    var kids := MorphChildren(was.kids, n.kids, ANIMATE_ROWS in attrs);
    r := was.(attrs := attrs, kids := kids);
  }

  /** What is still at or after the cursor was not wanted. */
  method SweepRest(start: seq<Node>, from: nat, animate: bool) returns (kids: seq<Node>)
    requires from <= |start|
    ensures kids == start[..from] + Sweep(start[from..], animate)
  {
    kids := start;
    var cursor: nat := from;
    while cursor < |kids|
      invariant cursor <= |kids|
      invariant kids[..cursor] + Sweep(kids[cursor..], animate) == start[..from] + Sweep(start[from..], animate)
      decreases |kids| - cursor
    {
      Split(kids, cursor);
      ghost var before, rest := kids, kids[cursor + 1..];
      if Leaving(kids[cursor]) {
        cursor := cursor + 1;
      } else if animate && kids[cursor].kind.Element? {
        kids := kids[cursor := Left(kids[cursor])];
        assert kids[..cursor + 1] == before[..cursor] + [Left(before[cursor])] && kids[cursor + 1..] == rest;
        cursor := cursor + 1;
      } else {
        kids := kids[..cursor] + kids[cursor + 1..];
        assert kids[..cursor] == before[..cursor] && kids[cursor..] == rest;
      }
    }
  }

  /** morphChildren: the list the cursor algorithm leaves is the walk of the old list. */
  method MorphChildren(old0: seq<Node>, incoming: seq<Node>, animate: bool) returns (kids: seq<Node>)
    requires DistinctBelow(old0)
    ensures kids == Walk(old0, Keys(old0), incoming, animate)
    decreases incoming, 0
  {
    var keyed := CollectKeys(old0);
    kids := old0;
    var cursor: nat, i: nat := 0, 0;
    assert kids[0..] == kids && incoming[0..] == incoming;
    while i < |incoming|
      invariant i <= |incoming| && cursor <= |kids|
      invariant KeyedOk(keyed, kids[cursor..]) && DistinctBelow(kids[cursor..])
      invariant kids[..cursor] + Walk(kids[cursor..], keyed.Keys, incoming[i..], animate)
             == Walk(old0, Keys(old0), incoming, animate)
    {
      assert incoming[i..][0] == incoming[i] && incoming[i..][1..] == incoming[i + 1..];
      kids, cursor, keyed := Reconcile(kids, cursor, keyed, incoming[i], incoming[i..], animate);
      i := i + 1;
    }
    assert incoming[i..] == [];
    kids := SweepRest(kids, cursor, animate);
  }

  lemma StillKeyed(keyed: map<string, nat>, fewer: map<string, nat>, rest: seq<Node>, same: seq<Node>)
    requires KeyedOk(keyed, rest) && DistinctBelow(rest) && same == rest
    requires forall k | k in fewer :: k in keyed && fewer[k] == keyed[k]
    ensures KeyedOk(fewer, same) && DistinctBelow(same)
  {
  }

  /** One incoming node: skip what is leaving, find its match, and put the node at the cursor. */
  method Reconcile(start: seq<Node>, from: nat, keyed: map<string, nat>, n: Node, ghost incoming: seq<Node>,
                   animate: bool)
    returns (kids: seq<Node>, cursor: nat, keyed': map<string, nat>)
    requires from <= |start| && KeyedOk(keyed, start[from..]) && DistinctBelow(start[from..])
    requires incoming != [] && incoming[0] == n
    ensures cursor <= |kids| && KeyedOk(keyed', kids[cursor..]) && DistinctBelow(kids[cursor..])
    ensures kids[..cursor] + Walk(kids[cursor..], keyed'.Keys, incoming[1..], animate)
         == start[..from] + Walk(start[from..], keyed.Keys, incoming, animate)
    decreases n, 3
  {
    var next := SkipLeaving(start, from, keyed, incoming, animate);
    DistinctFrom(start, from, next);
    var at: Option<nat>;
    at, keyed' := FindMatch(start, next, keyed, n);
    if at.None? {
      kids, cursor := TakeNew(start, next, keyed, keyed', n, incoming, animate);
    } else {
      kids, cursor := TakeMatch(start, next, at.value, keyed, keyed', n, incoming, animate);
    }
  }

  /** A match is morphed where it stands and then put at the cursor. */
  method TakeMatch(start: seq<Node>, next: nat, at: nat, ghost keyed: map<string, nat>,
                   ghost keyed': map<string, nat>, n: Node,
                   ghost incoming: seq<Node>, ghost animate: bool)
    returns (kids: seq<Node>, cursor: nat)
    requires next <= at < |start| && KeyedOk(keyed, start[next..]) && DistinctBelow(start[next..])
    requires !Leaving(start[next]) && Match(start[next..], keyed.Keys, n) == Some(at - next)
    requires keyed' == keyed - (if KeyOf(n).Some? then {KeyOf(n).value} else {}) && incoming != [] && incoming[0] == n
    ensures cursor <= |kids| && KeyedOk(keyed', kids[cursor..]) && DistinctBelow(kids[cursor..])
    ensures kids[..cursor] + Walk(kids[cursor..], Spent(keyed.Keys, n), incoming[1..], animate)
         == start[..next] + Walk(start[next..], keyed.Keys, incoming, animate)
    decreases n, 2
  {
    PairKeeps(start, next, at, keyed, keyed', n);
    var r := MorphNode(start[at], n);
    kids, cursor := PlaceMatch(start, next, at, r, keyed.Keys, incoming, animate);
    StillKeyed(keyed', keyed', Without(start[next..], at - next), kids[cursor..]);
  }

  /** A node of the markup that matches nothing. */
  method TakeNew(start: seq<Node>, next: nat, ghost keyed: map<string, nat>,
                 ghost keyed': map<string, nat>, n: Node,
                 ghost incoming: seq<Node>, animate: bool)
    returns (kids: seq<Node>, cursor: nat)
    requires next <= |start| && KeyedOk(keyed, start[next..]) && DistinctBelow(start[next..])
    requires (next < |start| ==> !Leaving(start[next])) && Match(start[next..], keyed.Keys, n).None?
    requires keyed' == keyed - (if KeyOf(n).Some? then {KeyOf(n).value} else {}) && incoming != [] && incoming[0] == n
    ensures cursor <= |kids| && KeyedOk(keyed', kids[cursor..]) && DistinctBelow(kids[cursor..])
    ensures kids[..cursor] + Walk(kids[cursor..], Spent(keyed.Keys, n), incoming[1..], animate)
         == start[..next] + Walk(start[next..], keyed.Keys, incoming, animate)
  {
    kids, cursor := InsertIncoming(start, next, keyed.Keys, n, incoming, animate);
    StillKeyed(keyed, keyed', start[next..], kids[cursor..]);
  }

  /** No match: the markup's own node goes in before the cursor. */
  method InsertIncoming(kids: seq<Node>, cursor: nat, ghost open: set<string>, n: Node, ghost incoming: seq<Node>,
                        animate: bool)
    returns (kids': seq<Node>, cursor': nat)
    requires cursor <= |kids| && incoming != [] && incoming[0] == n && (cursor < |kids| ==> !Leaving(kids[cursor]))
    requires Match(kids[cursor..], open, n).None?
    ensures cursor' <= |kids'| && kids'[cursor'..] == kids[cursor..]
    ensures kids'[..cursor'] + Walk(kids'[cursor'..], Spent(open, incoming[0]), incoming[1..], animate)
         == kids[..cursor] + Walk(kids[cursor..], open, incoming, animate)
  {
    var node := Entered(n, animate);
    kids', cursor' := kids[..cursor] + [node] + kids[cursor..], cursor + 1;
    assert kids'[..cursor'] == kids[..cursor] + [node] && kids'[cursor'..] == kids[cursor..];
    WalkInsert(kids[cursor..], open, incoming, animate);
    AppendAssociates(kids[..cursor], [node], Walk(kids[cursor..], Spent(open, n), incoming[1..], animate));
  }

  /** A match is moved in front of the cursor unless it is the cursor, and holds what it became. */
  method PlaceMatch(kids: seq<Node>, cursor: nat, at: nat, r: Node, ghost open: set<string>,
                    ghost incoming: seq<Node>, ghost animate: bool)
    returns (kids': seq<Node>, cursor': nat)
    requires cursor <= at < |kids| && incoming != [] && !Leaving(kids[cursor])
    requires Match(kids[cursor..], open, incoming[0]) == Some(at - cursor) && r == Morphed(kids[at], incoming[0])
    ensures cursor' <= |kids'| && kids'[cursor'..] == Without(kids[cursor..], at - cursor)
    ensures kids'[..cursor'] + Walk(kids'[cursor'..], Spent(open, incoming[0]), incoming[1..], animate)
         == kids[..cursor] + Walk(kids[cursor..], open, incoming, animate)
  {
    kids', cursor' := Moved(kids, cursor, at, r), cursor + 1;
    WalkMatch(kids[cursor..], open, incoming, animate, at - cursor);
    AppendAssociates(kids[..cursor], [r],
                     Walk(Without(kids[cursor..], at - cursor), Spent(open, incoming[0]), incoming[1..], animate));
  }
}
