/** Byte-wise string order, the sorted key list of a map, and dotted document paths. */
module Strings {

  // ---------- strings.Compare ----------

  predicate Less(a: string, b: string) {
    if b == "" then false
    else if a == "" then true
    else if a[0] != b[0] then a[0] < b[0]
    else Less(a[1..], b[1..])
  }

  predicate AtMost(a: string, b: string) {
    a == b || Less(a, b)
  }

  lemma {:induction false} LessTransitive(a: string, b: string, c: string)
    requires Less(a, b) && Less(b, c)
    ensures Less(a, c)
  {
    if a != "" && a[0] == b[0] == c[0] {
      LessTransitive(a[1..], b[1..], c[1..]);
    }
  }

  lemma {:induction false} LessTrichotomy(a: string, b: string)
    ensures Less(a, b) || Less(b, a) || a == b
    ensures !(Less(a, b) && Less(b, a))
    ensures !Less(a, a)
  {
    if a != "" && b != "" {
      LessTrichotomy(a[1..], b[1..]);
      assert a == [a[0]] + a[1..] && b == [b[0]] + b[1..];
    }
    if a != "" {
      LessTrichotomy(a[1..], a[1..]);
    }
  }

  // ---------- sortedKeys ----------

  predicate IsLeast(k: string, keys: set<string>) {
    k in keys && forall j | j in keys :: AtMost(k, j)
  }

  lemma LeastWith(x: string, y: string, rest: set<string>)
    requires IsLeast(y, rest) && x !in rest
    ensures IsLeast(if Less(x, y) then x else y, rest + {x})
  {
    LessTrichotomy(x, y);
    if Less(x, y) {
      forall j | j in rest ensures AtMost(x, j) {
        if j != y { LessTransitive(x, y, j); }
      }
    }
  }

  lemma LeastExists(keys: set<string>) returns (k: string)
    requires keys != {}
    ensures IsLeast(k, keys)
  {
    var x :| x in keys;
    if keys == {x} {
      k := x;
    } else {
      var y := LeastExists(keys - {x});
      LeastWith(x, y, keys - {x});
      assert keys - {x} + {x} == keys;
      k := if Less(x, y) then x else y;
    }
  }

  lemma LeastUnique(a: string, b: string, keys: set<string>)
    requires IsLeast(a, keys) && IsLeast(b, keys)
    ensures a == b
  {
    LessTrichotomy(a, b);
  }

  function Least(keys: set<string>): (k: string)
    requires keys != {}
    ensures IsLeast(k, keys)
  {
    LeastChoice(keys);
    var k :| k in keys && IsLeast(k, keys);
    k
  }

  lemma LeastChoice(keys: set<string>)
    requires keys != {}
    ensures exists k :: k in keys && IsLeast(k, keys)
    ensures forall a, b | IsLeast(a, keys) && IsLeast(b, keys) :: a == b
  {
    var k := LeastExists(keys);
    forall a, b | IsLeast(a, keys) && IsLeast(b, keys) ensures a == b {
      LeastUnique(a, b, keys);
    }
  }

  /** sortedKeys(): the keys of a map, each once, in ascending order (SortedAscends). */
  function Sorted(keys: set<string>): (list: seq<string>)
    ensures |list| == |keys|
    ensures forall k :: k in list <==> k in keys
  {
    if keys == {} then []
    else
      var k := Least(keys);
      [k] + Sorted(keys - {k})
  }

  lemma {:induction false} SortedAscends(keys: set<string>)
    ensures forall i, j | 0 <= i < j < |Sorted(keys)| :: Less(Sorted(keys)[i], Sorted(keys)[j])
  {
    if keys != {} {
      var k := Least(keys);
      var rest := Sorted(keys - {k});
      SortedAscends(keys - {k});
      assert forall i | 0 <= i < |rest| :: rest[i] in rest && Less(k, rest[i]);
    }
  }

  // ---------- dotted paths ----------

  predicate HasPrefix(s: string, p: string) {
    p <= s
  }

  /** No dot: such a key is one segment of a path. */
  predicate Plain(s: string) {
    '.' !in s
  }

  /** strings.Split(path, "."): never empty, and segments carry no dot. */
  function Split(path: string): (segments: seq<string>)
    ensures segments != []
    ensures forall s | s in segments :: Plain(s)
  {
    if path == "" then [""]
    else if path[0] == '.' then [""] + Split(path[1..])
    else
      var rest := Split(path[1..]);
      assert rest[0] in rest && forall s | s in rest[1..] :: s in rest;
      [[path[0]] + rest[0]] + rest[1..]
  }

  /** segments joined by dots, the way diff builds prefix + "." + key. */
  function Dotted(segments: seq<string>): string
    requires segments != []
  {
    if |segments| == 1 then segments[0]
    else Dotted(segments[..|segments| - 1]) + "." + segments[|segments| - 1]
  }

  lemma {:induction false} SplitPlain(s: string)
    requires Plain(s)
    ensures Split(s) == [s]
  {
    if s != "" {
      SplitPlain(s[1..]);
      assert s == [s[0]] + s[1..];
    }
  }

  /** A string with a dot splits in two at least. */
  lemma {:induction false} SplitCount(s: string)
    requires !Plain(s)
    ensures |Split(s)| >= 2
  {
    if s[0] != '.' {
      assert s == [s[0]] + s[1..];
      SplitCount(s[1..]);
    }
  }

  /** One more character in front: a dot opens a segment, any other joins the first one. */
  function Opened(c: char, segments: seq<string>): seq<string>
    requires segments != []
  {
    if c == '.' then [""] + segments else [[c] + segments[0]] + segments[1..]
  }

  lemma SplitCons(path: string)
    requires path != ""
    ensures Split(path) == Opened(path[0], Split(path[1..]))
  {
  }

  lemma OpenedAppend(c: char, segments: seq<string>, more: seq<string>)
    requires segments != []
    ensures Opened(c, segments + more) == Opened(c, segments) + more
  {
    assert c != '.' ==> (segments + more)[1..] == segments[1..] + more;
  }

  /** Splitting two strings joined by a dot is splitting each of them. */
  lemma {:induction false} SplitJoined(a: string, b: string)
    ensures Split(a + "." + b) == Split(a) + Split(b)
  {
    var whole := a + "." + b;
    SplitCons(whole);
    if a == "" {
      assert whole[1..] == b;
    } else {
      SplitJoined(a[1..], b);
      assert whole[1..] == a[1..] + "." + b;
      SplitCons(a);
      OpenedAppend(a[0], Split(a[1..]), Split(b));
    }
  }

  /** Appending ".key" to a path appends one segment, whatever the path is. */
  lemma SplitSnoc(path: string, key: string)
    requires Plain(key)
    ensures Split(path + "." + key) == Split(path) + [key]
  {
    SplitJoined(path, key);
    SplitPlain(key);
  }

  /** Splitting what diff joined gives the segments back. */
  lemma {:induction false} SplitDotted(segments: seq<string>)
    requires segments != [] && forall s | s in segments :: Plain(s)
    ensures Split(Dotted(segments)) == segments
  {
    if |segments| == 1 {
      SplitPlain(segments[0]);
    } else {
      var n := |segments| - 1;
      SplitDotted(segments[..n]);
      SplitSnoc(Dotted(segments[..n]), segments[n]);
      assert segments == segments[..n] + [segments[n]];
    }
  }

  /** The first dotted segment splits into two at least; the segments before it stay as they are. */
  lemma {:induction false} SplitDots(segments: seq<string>, i: nat)
    requires i < |segments| && !Plain(segments[i]) && forall s | s in segments[..i] :: Plain(s)
    ensures |Split(Dotted(segments))| >= i + 2 && Split(Dotted(segments))[..i] == segments[..i]
    decreases |segments|
  {
    var n := |segments| - 1;
    if n == 0 {
      SplitCount(segments[0]);
    } else {
      var init := segments[..n];
      SplitJoined(Dotted(init), segments[n]);
      if i == n {
        SplitDotted(init);
        SplitCount(segments[n]);
      } else {
        assert init[..i] == segments[..i];
        SplitDots(init, i);
      }
    }
  }

  /** assertIdent's expression: a letter or underscore, then letters, digits, underscores. */
  predicate Identifier(s: string) {
    s != "" && !Digit(s[0]) && forall c | c in s :: Letter(c) || Digit(c) || c == '_'
  }

  predicate Letter(c: char) {
    'a' <= c <= 'z' || 'A' <= c <= 'Z'
  }

  predicate Digit(c: char) {
    '0' <= c <= '9'
  }
}
