/** The package clock of db/uuid.go and NewID, which fills fixed arrays. */
module UuidClock {
  import opened Uuid
  import opened Sequences

  /** hex.Encode of some bytes. */
  function HexOf(b: seq<Byte>): (s: string)
    ensures |s| == 2 * |b|
  {
    if b == [] then "" else Hex(b[0]) + HexOf(b[1..])
  }

  lemma {:induction false} HexSnoc(b: seq<Byte>, x: Byte)
    ensures HexOf(b + [x]) == HexOf(b) + Hex(x)
  {
    if b == [] {
      assert [] + [x] == [x] && [x][1..] == [];
    } else {
      HexSnoc(b[1..], x);
      assert (b + [x])[1..] == b[1..] + [x];
      AppendAssociates(Hex(b[0]), HexOf(b[1..]), Hex(x));
    }
  }

  lemma {:induction false} FormSplits(b: seq<Byte>, lo: nat, hi: nat)
    requires lo <= hi <= |b| && forall i | lo <= i < hi :: Dash(i) == ""
    ensures Form(b, lo) == HexOf(b[lo..hi]) + Form(b, hi)
    decreases hi - lo
  {
    if lo == hi {
      assert b[lo..hi] == [];
    } else {
      FormSplits(b, lo + 1, hi);
      assert b[lo..hi][1..] == b[lo + 1..hi];
      FormStep(b, lo);
      AppendAssociates(Hex(b[lo]), HexOf(b[lo + 1..hi]), Form(b, hi));
    }
  }

  lemma FormStep(b: seq<Byte>, i: nat)
    requires i < |b|
    ensures Form(b, i) == Dash(i) + (Hex(b[i]) + Form(b, i + 1))
    ensures Dash(i) == "" ==> Form(b, i) == Hex(b[i]) + Form(b, i + 1)
  {
    AppendAssociates(Dash(i), Hex(b[i]), Form(b, i + 1));
  }

  /** A dashed group: the dash, its digits, and the rest. */
  lemma FormGroup(b: seq<Byte>, lo: nat, hi: nat)
    requires lo < hi <= |b| && Dash(lo) == "-" && forall i | lo < i < hi :: Dash(i) == ""
    ensures Form(b, lo) == "-" + (HexOf(b[lo..hi]) + Form(b, hi))
  {
    FormSplits(b, lo + 1, hi);
    FormStep(b, lo);
    assert b[lo..hi][1..] == b[lo + 1..hi];
    AppendAssociates(Hex(b[lo]), HexOf(b[lo + 1..hi]), Form(b, hi));
  }

  /** The five groups of the canonical form. */
  lemma FormIsGroups(b: seq<Byte>)
    requires |b| == 16
    ensures Form(b, 0) == HexOf(b[0..4]) + ("-" + (HexOf(b[4..6]) + ("-" + (HexOf(b[6..8])
                          + ("-" + (HexOf(b[8..10]) + ("-" + (HexOf(b[10..16]) + ""))))))))
  {
    FormSplits(b, 0, 4);
    FormGroup(b, 4, 6);
    FormIsLateGroups(b);
  }

  lemma FormIsLateGroups(b: seq<Byte>)
    requires |b| == 16
    ensures Form(b, 6) == "-" + (HexOf(b[6..8]) + ("-" + (HexOf(b[8..10]) + ("-" + (HexOf(b[10..16]) + "")))))
  {
    FormGroup(b, 6, 8);
    FormGroup(b, 8, 10);
    FormGroup(b, 10, 16);
  }

  lemma GroupsJoin(g0: string, g1: string, g2: string, g3: string, g4: string)
    ensures g0 + "-" + g1 + "-" + g2 + "-" + g3 + "-" + g4
         == g0 + ("-" + (g1 + ("-" + (g2 + ("-" + (g3 + ("-" + (g4 + ""))))))))
  {
  }

  /** hex.Encode(out[at:], b[lo:hi]): two digits a byte after what is already there. */
  method HexEncode(out: array<char>, at: nat, b: array<Byte>, lo: nat, hi: nat)
    requires lo <= hi <= b.Length && at + 2 * (hi - lo) <= out.Length
    modifies out
    ensures out[..at + 2 * (hi - lo)] == old(out[..at]) + HexOf(b[lo..hi])
  {
    var i := lo;
    assert b[lo..lo] == [];
    while i < hi
      invariant lo <= i <= hi && out[..at + 2 * (i - lo)] == old(out[..at]) + HexOf(b[lo..i])
    {
      HexSnoc(b[lo..i], b[i]);
      assert b[lo..i + 1] == b[lo..i] + [b[i]];
      PutHex(out, at + 2 * (i - lo), b[i]);
      i := i + 1;
    }
  }

  /** The two digits of one byte. */
  method PutHex(out: array<char>, k: nat, x: Byte)
    requires k + 2 <= out.Length
    modifies out
    ensures out[..k + 2] == old(out[..k]) + Hex(x)
  {
    ghost var before := out[..k];
    out[k], out[k + 1] := Uuid.Digit(x / 16), Uuid.Digit(x % 16);
    assert out[..k + 2] == before + Hex(x);
  }

  /** A group and the dash after it. */
  method Group(out: array<char>, at: nat, b: array<Byte>, lo: nat, hi: nat)
    requires lo <= hi <= b.Length && at + 2 * (hi - lo) < out.Length
    modifies out
    ensures out[..at + 2 * (hi - lo) + 1] == old(out[..at]) + HexOf(b[lo..hi]) + "-"
  {
    HexEncode(out, at, b, lo, hi);
    var end := at + 2 * (hi - lo);
    ghost var before := out[..end];
    out[end] := '-';
    assert out[..end + 1] == before + "-";
  }

  /** copy and PutUint64: the low six bytes of the milliseconds. */
  method PutMillis(b: array<Byte>, millis: nat)
    requires b.Length == 16
    modifies b
    ensures b[..6] == BigEndian(millis, 6) && b[6..] == old(b[6..])
  {
    var i, rest := 6, millis;
    ghost var tail := b[6..];
    while i > 0
      invariant 0 <= i <= 6 && b[6..] == tail && BigEndian(millis, 6) == BigEndian(rest, i) + b[i..6]
    {
      i := i - 1;
      b[i] := rest % 256;
      assert b[i..6] == [b[i]] + b[i + 1..6];
      rest := rest / 256;
    }
    assert b[0..6] == b[..6];
  }

  class Clock {
    var millis: int
    var count: nat

    ghost predicate Valid()
      reads this
    {
      count < SEQ_LIMIT
    }

    ghost function Now(): Tick
      reads this
    {
      Tick(millis, count)
    }

    constructor ()
      ensures Valid() && Now() == Tick(0, 0)
    {
      millis, count := 0, 0;
    }

    method Advance(now: int) returns (ms: int, n: nat)
      requires Valid()
      modifies this
      ensures Valid() && Now() == Next(old(Now()), now) && ms == millis && n == count
    {
      if now > millis {
        millis, count := now, 0;
      } else if count >= 0x0fff {
        millis, count := millis + 1, 0;
      } else {
        count := count + 1;
      }
      return millis, count;
    }

    /** Sixteen random bytes, then the clock over the first eight and the variant over the ninth. */
    method Bytes(random: seq<Byte>, now: int) returns (b: array<Byte>)
      requires Valid() && millis >= 0 && |random| == 16
      modifies this
      ensures Valid() && Now() == Next(old(Now()), now) && fresh(b)
      ensures millis >= 0 && b[..] == Layout(Now(), random)
    {
      b := new Byte[16](i requires 0 <= i < 16 => random[i]);
      assert b[..] == random;
      var ms, n := Advance(now);
      PutMillis(b, ms);
      b[6] := 0x70 + n / 256;
      b[7] := n % 256;
      b[8] := 0x80 + b[8] % 64;
      assert b[..] == b[..6] + [b[6], b[7], b[8]] + b[9..];
      assert b[9..] == random[9..];
    }

    method NewID(random: seq<Byte>, now: int) returns (id: string)
      requires Valid() && millis >= 0 && |random| == 16
      modifies this
      ensures Valid() && Now() == Next(old(Now()), now) && millis >= 0 && id == Id(Now(), random)
    {
      var b := Bytes(random, now);
      var out := new char[36];
      Group(out, 0, b, 0, 4);
      Group(out, 9, b, 4, 6);
      Group(out, 14, b, 6, 8);
      Group(out, 19, b, 8, 10);
      HexEncode(out, 24, b, 10, 16);
      id := out[..];
      Canonical(b[..], id, out[..36]);
    }
  }

  lemma Canonical(b: seq<Byte>, id: string, written: string)
    requires |b| == 16 && id == written
    requires written == "" + HexOf(b[0..4]) + "-" + HexOf(b[4..6]) + "-" + HexOf(b[6..8]) + "-"
                        + HexOf(b[8..10]) + "-" + HexOf(b[10..16])
    ensures id == Form(b, 0)
  {
    FormIsGroups(b);
    GroupsJoin(HexOf(b[0..4]), HexOf(b[4..6]), HexOf(b[6..8]), HexOf(b[8..10]), HexOf(b[10..16]));
  }
}
