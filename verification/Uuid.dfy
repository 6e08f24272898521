/** db/uuid.go: the monotonic clock behind ids, and the 36 characters of a version 7 UUID. */
module Uuid {
  import opened Strings

  type Byte = b: nat | b < 256

  /** Ids a millisecond can carry before the next one is borrowed. */
  const SEQ_LIMIT := 0x1000

  datatype Tick = Tick(millis: int, count: nat)

  /** tick: a later wall clock starts a new millisecond; otherwise the counter moves, or borrows. */
  function Next(t: Tick, now: int): (r: Tick)
    requires t.count < SEQ_LIMIT
    ensures r.count < SEQ_LIMIT && Before(t, r)
  {
    if now > t.millis then Tick(now, 0)
    else if t.count >= SEQ_LIMIT - 1 then Tick(t.millis + 1, 0)
    else Tick(t.millis, t.count + 1)
  }

  predicate Before(a: Tick, b: Tick) {
    a.millis < b.millis || (a.millis == b.millis && a.count < b.count)
  }

  // ---------- the sixteen bytes ----------

  /** The low bytes of a number, the most significant first. */
  function BigEndian(n: nat, size: nat): (b: seq<Byte>)
    ensures |b| == size
  {
    if size == 0 then [] else BigEndian(n / 256, size - 1) + [n % 256]
  }

  /** Version 7 in the high nibble of byte 6, the variant in the top two bits of byte 8. */
  function Layout(t: Tick, random: seq<Byte>): (b: seq<Byte>)
    requires t.millis >= 0 && t.count < SEQ_LIMIT && |random| == 16
    ensures |b| == 16
  {
    Head(t) + [0x80 + random[8] % 64] + random[9..]
  }

  function Head(t: Tick): (b: seq<Byte>)
    requires t.millis >= 0 && t.count < SEQ_LIMIT
    ensures |b| == 8
  {
    BigEndian(t.millis, 6) + [0x70 + t.count / 256, t.count % 256]
  }

  // ---------- the string ----------

  function Digit(n: nat): (c: char)
    requires n < 16
  {
    if n < 10 then '0' + n as char else 'a' + (n - 10) as char
  }

  function Hex(b: Byte): (s: string)
    ensures |s| == 2
  {
    [Digit(b / 16), Digit(b % 16)]
  }

  function Dash(i: nat): string {
    if i == 4 || i == 6 || i == 8 || i == 10 then "-" else ""
  }

  /** The canonical form from byte i on. */
  function Form(b: seq<Byte>, i: nat): string
    requires i <= |b|
    decreases |b| - i
  {
    if i == |b| then "" else Dash(i) + Hex(b[i]) + Form(b, i + 1)
  }

  // ---------- order ----------

  /** The sequences agree up to a place where the first is smaller. */
  predicate SmallerAt(a: seq<Byte>, b: seq<Byte>, k: nat) {
    k < |a| && k < |b| && a[..k] == b[..k] && a[k] < b[k]
  }

  lemma {:induction false} BigEndianOrder(m: nat, n: nat, size: nat) returns (k: nat)
    requires m < n && n < Power256(size)
    ensures k < size && SmallerAt(BigEndian(m, size), BigEndian(n, size), k)
  {
    if m / 256 == n / 256 {
      k := size - 1;
      assert BigEndian(m, size)[..k] == BigEndian(m / 256, k) && BigEndian(n, size)[..k] == BigEndian(n / 256, k);
    } else {
      k := BigEndianOrder(m / 256, n / 256, size - 1);
      var a, b := BigEndian(m / 256, size - 1), BigEndian(n / 256, size - 1);
      assert BigEndian(m, size)[..k] == a[..k] && BigEndian(n, size)[..k] == b[..k];
    }
  }

  function Power256(n: nat): nat {
    if n == 0 then 1 else 256 * Power256(n - 1)
  }

  const MILLIS_LIMIT := 0x1_0000_0000_0000

  lemma LimitIs()
    ensures Power256(6) == MILLIS_LIMIT
  {
    assert Power256(2) == 65536;
    assert Power256(4) == 65536 * 65536;
  }

  lemma HeadOrder(a: Tick, b: Tick) returns (k: nat)
    requires 0 <= a.millis && b.millis < MILLIS_LIMIT && a.count < SEQ_LIMIT && b.count < SEQ_LIMIT && Before(a, b)
    ensures k < 8 && SmallerAt(Head(a), Head(b), k)
  {
    if a.millis < b.millis {
      LimitIs();
      k := BigEndianOrder(a.millis, b.millis, 6);
      assert Head(a)[..k] == BigEndian(a.millis, 6)[..k] && Head(b)[..k] == BigEndian(b.millis, 6)[..k];
    } else {
      k := if a.count / 256 < b.count / 256 then 6 else 7;
    }
  }

  lemma HexOrder(a: Byte, b: Byte, s: string, t: string)
    requires a < b
    ensures Less(Hex(a) + s, Hex(b) + t)
  {
    var x, y := Hex(a) + s, Hex(b) + t;
    assert x[1..] == [Digit(a % 16)] + s && y[1..] == [Digit(b % 16)] + t;
  }

  lemma {:induction false} LessAfter(p: string, s: string, t: string)
    requires Less(s, t)
    ensures Less(p + s, p + t)
  {
    if p == "" {
      assert p + s == s && p + t == t;
    } else {
      LessAfter(p[1..], s, t);
      assert (p + s)[1..] == p[1..] + s && (p + t)[1..] == p[1..] + t;
    }
  }

  lemma {:induction false} FormOrder(a: seq<Byte>, b: seq<Byte>, i: nat, k: nat)
    requires |a| == |b| && i <= k && SmallerAt(a, b, k)
    ensures Less(Form(a, i), Form(b, i))
    decreases k - i
  {
    if i == k {
      HexOrder(a[i], b[i], Form(a, i + 1), Form(b, i + 1));
      LessAfter(Dash(i), Hex(a[i]) + Form(a, i + 1), Hex(b[i]) + Form(b, i + 1));
      assert Dash(i) + Hex(a[i]) + Form(a, i + 1) == Dash(i) + (Hex(a[i]) + Form(a, i + 1));
      assert Dash(i) + Hex(b[i]) + Form(b, i + 1) == Dash(i) + (Hex(b[i]) + Form(b, i + 1));
    } else {
      FormOrder(a, b, i + 1, k);
      assert a[..k][i] == b[..k][i];
      LessAfter(Dash(i) + Hex(a[i]), Form(a, i + 1), Form(b, i + 1));
    }
  }

  /** A later tick gives a later string, whatever the random bits. */
  lemma LaterTickLaterId(a: Tick, b: Tick, ra: seq<Byte>, rb: seq<Byte>)
    requires 0 <= a.millis && 0 <= b.millis < MILLIS_LIMIT && a.count < SEQ_LIMIT && b.count < SEQ_LIMIT && Before(a, b)
    requires |ra| == 16 && |rb| == 16
    ensures Less(Form(Layout(a, ra), 0), Form(Layout(b, rb), 0))
  {
    var k := HeadOrder(a, b);
    assert Layout(a, ra)[..k] == Head(a)[..k] && Layout(b, rb)[..k] == Head(b)[..k];
    FormOrder(Layout(a, ra), Layout(b, rb), 0, k);
  }

  // ---------- any run of ids ----------

  /** The ticks of a run, one for each reading of the wall clock. */
  function Ticks(start: Tick, clock: seq<int>): (ts: seq<Tick>)
    requires start.count < SEQ_LIMIT
    ensures |ts| == |clock| && forall t | t in ts :: t.count < SEQ_LIMIT
  {
    if clock == [] then []
    else
      var before := Ticks(start, clock[..|clock| - 1]);
      before + [Next(if before == [] then start else before[|before| - 1], clock[|clock| - 1])]
  }

  lemma {:induction false} TicksAscend(start: Tick, clock: seq<int>, i: nat, j: nat)
    requires start.count < SEQ_LIMIT && i < j < |clock|
    ensures Before(Ticks(start, clock)[i], Ticks(start, clock)[j])
  {
    var n := |clock| - 1;
    var before := Ticks(start, clock[..n]);
    if j < n {
      TicksAscend(start, clock[..n], i, j);
    } else if i < n - 1 {
      TicksAscend(start, clock[..n], i, n - 1);
      BeforeTransitive(before[i], before[n - 1], Ticks(start, clock)[n]);
    }
  }

  lemma BeforeTransitive(a: Tick, b: Tick, c: Tick)
    requires Before(a, b) && Before(b, c)
    ensures Before(a, c)
  {
  }

  lemma {:induction false} TicksFrom(start: Tick, clock: seq<int>, i: nat)
    requires start.count < SEQ_LIMIT && i < |clock|
    ensures Before(start, Ticks(start, clock)[i])
  {
    var n := |clock| - 1;
    if i < n {
      TicksFrom(start, clock[..n], i);
    } else if n > 0 {
      TicksFrom(start, clock[..n], n - 1);
      BeforeTransitive(start, Ticks(start, clock[..n])[n - 1], Ticks(start, clock)[n]);
    }
  }

  function Id(t: Tick, random: seq<Byte>): string
    requires t.millis >= 0 && t.count < SEQ_LIMIT && |random| == 16
  {
    Form(Layout(t, random), 0)
  }

  lemma TicksOk(clock: seq<int>, i: nat)
    requires i < |clock|
    ensures Ticks(Tick(0, 0), clock)[i].millis >= 0 && Ticks(Tick(0, 0), clock)[i].count < SEQ_LIMIT
  {
    TicksFrom(Tick(0, 0), clock, i);
    assert Ticks(Tick(0, 0), clock)[i] in Ticks(Tick(0, 0), clock);
  }

  /**
   * For any readings of the wall clock, backwards ones and bursts included, ids issued in tick
   * order are strictly increasing as strings while milliseconds stay below 2^48.
   */
  lemma IdsAscend(clock: seq<int>, i: nat, ri: seq<Byte>, j: nat, rj: seq<Byte>)
    requires i < j < |clock| && |ri| == 16 && |rj| == 16
    requires Ticks(Tick(0, 0), clock)[j].millis < MILLIS_LIMIT
    ensures
      var ts := Ticks(Tick(0, 0), clock);
      && 0 <= ts[i].millis && 0 <= ts[j].millis && ts[i].count < SEQ_LIMIT && ts[j].count < SEQ_LIMIT
      && Less(Id(ts[i], ri), Id(ts[j], rj))
  {
    TicksOk(clock, i);
    TicksOk(clock, j);
    TicksAscend(Tick(0, 0), clock, i, j);
    LaterTickLaterId(Ticks(Tick(0, 0), clock)[i], Ticks(Tick(0, 0), clock)[j], ri, rj);
  }

  // ---------- the bits ----------

  lemma FormIs(b: seq<Byte>)
    requires |b| == 16
    ensures
      var s := Form(b, 0);
      && |s| == 36 && s[8] == s[13] == s[18] == s[23] == '-'
      && s[14] == Digit(b[6] / 16) && s[19] == Digit(b[8] / 16)
  {
    FormTail(b, 11);
    assert |Form(b, 11)| == 10;
    assert Form(b, 10) == "-" + Hex(b[10]) + Form(b, 11);
    assert Form(b, 9) == "" + Hex(b[9]) + Form(b, 10);
    assert Form(b, 8) == "-" + Hex(b[8]) + Form(b, 9);
    assert Form(b, 7) == "" + Hex(b[7]) + Form(b, 8);
    assert Form(b, 6) == "-" + Hex(b[6]) + Form(b, 7);
    assert Form(b, 5) == "" + Hex(b[5]) + Form(b, 6);
    assert Form(b, 4) == "-" + Hex(b[4]) + Form(b, 5);
    FormHead(b, 4);
  }

  /** After the last dash there are only digits. */
  lemma {:induction false} FormTail(b: seq<Byte>, i: nat)
    requires |b| == 16 && 11 <= i <= 16
    ensures |Form(b, i)| == 2 * (16 - i)
    decreases 16 - i
  {
    if i < 16 {
      FormTail(b, i + 1);
    }
  }

  /** Before the first dash there are eight. */
  lemma FormHead(b: seq<Byte>, i: nat)
    requires |b| == 16 && i == 4
    ensures Form(b, 0) == Hex(b[0]) + Hex(b[1]) + Hex(b[2]) + Hex(b[3]) + Form(b, 4)
  {
    assert Form(b, 3) == "" + Hex(b[3]) + Form(b, 4);
    assert Form(b, 2) == "" + Hex(b[2]) + Form(b, 3);
    assert Form(b, 1) == "" + Hex(b[1]) + Form(b, 2);
    assert Form(b, 0) == "" + Hex(b[0]) + Form(b, 1);
  }

  /** Version 7 and the variant bits stand where RFC 9562 puts them, whatever the random bits. */
  lemma VersionAndVariant(t: Tick, random: seq<Byte>)
    requires t.millis >= 0 && t.count < SEQ_LIMIT && |random| == 16
    ensures
      var s := Id(t, random);
      |s| == 36 && s[14] == '7' && s[19] in {'8', '9', 'a', 'b'} && s[8] == s[13] == s[18] == s[23] == '-'
  {
    var b := Layout(t, random);
    FormIs(b);
    assert b[6] == 0x70 + t.count / 256 && b[8] == 0x80 + random[8] % 64;
  }

  // ---------- the timestamp ----------

  /** A tick's place in the order of all ticks. */
  function Place(t: Tick): int {
    t.millis * 4096 + t.count
  }

  /**
   * The clock's rule: a later reading becomes the timestamp, with the counter at zero; any other
   * takes the next place, which borrows a millisecond only after 4096 ids.
   */
  lemma TickFollowsClock(t: Tick, now: int)
    requires t.count < SEQ_LIMIT
    ensures now > t.millis ==> Next(t, now) == Tick(now, 0)
    ensures now <= t.millis ==> Place(Next(t, now)) == Place(t) + 1
  {
  }

  lemma PlaceKeepsUp(t: Tick, now: int, latest: int, issued: nat)
    requires t.count < SEQ_LIMIT && now <= latest && Place(t) <= latest * 4096 + issued
    ensures now <= Next(t, now).millis && Place(Next(t, now)) <= latest * 4096 + issued + 1
  {
    TickFollowsClock(t, now);
  }

  /** No id is stamped before its reading, nor ahead of every reading by more than the ids issued need. */
  lemma {:induction false} StampKeepsUp(clock: seq<int>, i: nat, latest: nat)
    requires i < |clock| && forall j | 0 <= j <= i :: clock[j] <= latest
    ensures
      var t := Ticks(Tick(0, 0), clock)[i];
      clock[i] <= t.millis && Place(t) <= latest * 4096 + i + 1
    decreases |clock|
  {
    var n := |clock| - 1;
    var before := Ticks(Tick(0, 0), clock[..n]);
    if i < n {
      StampKeepsUp(clock[..n], i, latest);
      assert Ticks(Tick(0, 0), clock)[i] == before[i];
    } else if n == 0 {
      PlaceKeepsUp(Tick(0, 0), clock[0], latest, 0);
    } else {
      assert before[n - 1] in before;
      StampKeepsUp(clock[..n], n - 1, latest);
      assert Ticks(Tick(0, 0), clock)[i] == Next(before[n - 1], clock[n]);
      PlaceKeepsUp(before[n - 1], clock[n], latest, n);
    }
  }

  /** A number read from bytes, the most significant first. */
  function FromBytes(b: seq<Byte>): nat {
    if b == [] then 0 else 256 * FromBytes(b[..|b| - 1]) + b[|b| - 1]
  }

  lemma {:induction false} BigEndianReads(n: nat, size: nat)
    requires n < Power256(size)
    ensures FromBytes(BigEndian(n, size)) == n
  {
    if size > 0 {
      BigEndianReads(n / 256, size - 1);
      assert BigEndian(n, size)[..size - 1] == BigEndian(n / 256, size - 1);
    }
  }

  /** The fields of RFC 9562, section 5.7, read back: 48 bits of time, the counter, and the random rest. */
  lemma LayoutReads(t: Tick, random: seq<Byte>)
    requires 0 <= t.millis < 0x1_0000_0000_0000 && t.count < SEQ_LIMIT && |random| == 16
    ensures
      var b := Layout(t, random);
      && FromBytes(b[..6]) == t.millis && b[6] / 16 == 7 && (b[6] as int % 16) * 256 + b[7] as int == t.count
      && b[8] / 64 == 2 && b[8] % 64 == random[8] % 64 && b[9..] == random[9..]
  {
    LimitIs();
    BigEndianReads(t.millis, 6);
    assert Layout(t, random)[..6] == BigEndian(t.millis, 6);
  }

  lemma DigitIs(n: nat)
    requires n < 16
    ensures Digit(n) == "0123456789abcdef"[n]
  {
  }
}
