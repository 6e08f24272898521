/**
 * The run-length coding of Apple's icon planes in core/cmd/howl/package.go, and the decoder its
 * comment describes.
 */
module PackBits {
  import opened Wrappers
  import opened Sequences

  type Byte = b: nat | b < 256

  const MAX_RUN := 130
  const MAX_LITERAL := 128
  const REPEAT := 0x80

  function Times(b: Byte, n: nat): (r: seq<Byte>)
    ensures |r| == n && forall i | 0 <= i < n :: r[i] == b
  {
    seq(n, _ => b)
  }

  /** Bytes a header says follow it. */
  function Payload(header: Byte): (n: nat)
    ensures 1 <= n <= MAX_LITERAL
  {
    if header >= REPEAT then 1 else header + 1
  }

  /** What a header and its payload stand for: a repeat of 3 to 130, or a literal of 1 to 128. */
  function Expanded(header: Byte, payload: seq<Byte>): (r: seq<Byte>)
    requires |payload| == Payload(header)
    ensures |r| == if header >= REPEAT then header - REPEAT + 3 else |payload|
  {
    if header >= REPEAT then Times(payload[0], header - REPEAT + 3) else payload
  }

  function Decode(code: seq<Byte>): Option<seq<Byte>> {
    if code == [] then Some([])
    else if |code| < 1 + Payload(code[0]) then None
    else
      var rest := Decode(code[1 + Payload(code[0])..]);
      if rest.None? then None else Some(Expanded(code[0], code[1..1 + Payload(code[0])]) + rest.value)
  }

  /** The decoder a reader of several planes needs: n bytes out, and what is left of the code. */
  function DecodeN(code: seq<Byte>, n: nat): Option<(seq<Byte>, seq<Byte>)>
    decreases |code|
  {
    if n == 0 then Some(([], code))
    else if code == [] || |code| < 1 + Payload(code[0]) then None
    else
      var chunk := Expanded(code[0], code[1..1 + Payload(code[0])]);
      if |chunk| > n then None
      else
        var rest := DecodeN(code[1 + Payload(code[0])..], n - |chunk|);
        if rest.None? then None else Some((chunk + rest.value.0, rest.value.1))
  }

  /** One header and its payload. */
  function Chunk(header: Byte, payload: seq<Byte>): (r: seq<Byte>)
    requires |payload| == Payload(header)
    ensures r != [] && r[0] == header && |r| == 1 + Payload(header) && r[1..] == payload
  {
    [header] + payload
  }

  lemma ChunkThen(header: Byte, payload: seq<Byte>, rest: seq<Byte>)
    requires |payload| == Payload(header)
    ensures
      var all, k := Chunk(header, payload) + rest, 1 + Payload(header);
      |all| >= k && all[0] == header && all[1..k] == payload && all[k..] == rest
  {
  }

  lemma DecodeHead(header: Byte, payload: seq<Byte>, rest: seq<Byte>)
    requires |payload| == Payload(header)
    ensures Decode(Chunk(header, payload) + rest)
         == if Decode(rest).None? then None else Some(Expanded(header, payload) + Decode(rest).value)
  {
    ChunkThen(header, payload, rest);
  }

  lemma DecodeNHead(header: Byte, payload: seq<Byte>, rest: seq<Byte>, n: nat)
    requires |payload| == Payload(header) && n >= |Expanded(header, payload)|
    ensures
      var more := DecodeN(rest, n - |Expanded(header, payload)|);
      DecodeN(Chunk(header, payload) + rest, n)
        == if more.None? then None else Some((Expanded(header, payload) + more.value.0, more.value.1))
  {
    ChunkThen(header, payload, rest);
  }

  lemma Peel(code: seq<Byte>) returns (header: Byte, payload: seq<Byte>, rest: seq<Byte>)
    requires code != [] && Decode(code).Some?
    ensures |payload| == Payload(header) && code == Chunk(header, payload) + rest && |rest| < |code|
    ensures Decode(rest).Some? && Decode(code).value == Expanded(header, payload) + Decode(rest).value
  {
    header := code[0];
    payload, rest := code[1..1 + Payload(header)], code[1 + Payload(header)..];
  }

  lemma DecodeOne(header: Byte, payload: seq<Byte>)
    requires |payload| == Payload(header)
    ensures Decode(Chunk(header, payload)) == Some(Expanded(header, payload))
  {
    assert Chunk(header, payload) + [] == Chunk(header, payload);
    DecodeHead(header, payload, []);
    assert Expanded(header, payload) + [] == Expanded(header, payload);
  }

  lemma {:induction false} DecodeSnoc(code: seq<Byte>, header: Byte, payload: seq<Byte>)
    requires Decode(code).Some? && |payload| == Payload(header)
    ensures Decode(code + Chunk(header, payload)) == Some(Decode(code).value + Expanded(header, payload))
    decreases |code|
  {
    if code == [] {
      assert [] + Chunk(header, payload) == Chunk(header, payload);
      DecodeOne(header, payload);
      assert [] + Expanded(header, payload) == Expanded(header, payload);
    } else {
      var h, p, rest := Peel(code);
      DecodeSnoc(rest, header, payload);
      AppendAssociates(Chunk(h, p), rest, Chunk(header, payload));
      DecodeHead(h, p, rest + Chunk(header, payload));
      AppendAssociates(Expanded(h, p), Decode(rest).value, Expanded(header, payload));
    }
  }

  /** n bytes were read, these, and this is left. */
  predicate Reads(code: seq<Byte>, n: nat, bytes: seq<Byte>, rest: seq<Byte>) {
    var r := DecodeN(code, n);
    r.Some? && r.value.0 == bytes && r.value.1 == rest
  }

  /** The coding delimits itself: what follows it does not matter. */
  lemma {:induction false} DecodeThenTail(code: seq<Byte>, tail: seq<Byte>)
    requires Decode(code).Some?
    ensures Reads(code + tail, |Decode(code).value|, Decode(code).value, tail)
    decreases |code|
  {
    if code == [] {
      assert code + tail == tail;
    } else {
      var h, p, rest := Peel(code);
      DecodeThenTail(rest, tail);
      AppendAssociates(Chunk(h, p), rest, tail);
      DecodeNHead(h, p, rest + tail, |Decode(code).value|);
    }
  }

  /** A run of three starts here. */
  predicate TripleAt(data: seq<Byte>, i: nat) {
    i + 2 < |data| && data[i] == data[i + 1] == data[i + 2]
  }

  /** How long the run at i is, capped. */
  method RunAt(data: seq<Byte>, i: nat) returns (run: nat)
    requires i < |data|
    ensures 1 <= run <= MAX_RUN && i + run <= |data| && data[i..i + run] == Times(data[i], run)
    ensures TripleAt(data, i) <==> run >= 3
    ensures run == 130 || i + run == |data| || data[i + run] != data[i]
  {
    run := 1;
    while i + run < |data| && data[i + run] == data[i] && run < MAX_RUN
      invariant 1 <= run <= MAX_RUN && i + run <= |data|
      invariant forall j | i <= j < i + run :: data[j] == data[i]
    {
      run := run + 1;
    }
  }

  /** The end of the literal at start: the first triple after it, the length cap, or the data's end. */
  method LiteralEnd(data: seq<Byte>, start: nat) returns (i: nat)
    requires start < |data| && !TripleAt(data, start)
    ensures start < i <= |data| && i - start <= MAX_LITERAL
    ensures i - start < MAX_LITERAL ==> i == |data| || TripleAt(data, i)
  {
    i := start;
    while i < |data| && i - start < MAX_LITERAL
      invariant start <= i <= |data| && i - start <= MAX_LITERAL && (i == start ==> !TripleAt(data, i))
    {
      if TripleAt(data, i) {
        break;
      }
      i := i + 1;
    }
  }

  /** Bytes of code allowed for the first i bytes; one more after a literal that was cut short. */
  function Allowed(i: nat, short: bool): nat {
    i + if short then (i + 127) / 128 else i / 128
  }

  /** What the coder has written for the first i bytes. */
  ghost predicate Coded(data: seq<Byte>, i: nat, out: seq<Byte>, short: bool) {
    && i <= |data| && Decode(out) == Some(data[..i]) && |out| <= Allowed(i, short)
    && (short ==> i == |data| || TripleAt(data, i))
  }

  /** A run of three to 130 bytes as two. */
  method PutRun(data: seq<Byte>, i: nat, out: seq<Byte>, run: nat, ghost short: bool) returns (more: seq<Byte>)
    requires Coded(data, i, out, short) && 3 <= run <= MAX_RUN
    requires i + run <= |data| && data[i..i + run] == Times(data[i], run)
    ensures Coded(data, i + run, more, false) && |more| == |out| + 2
  {
    assert data[..i + run] == data[..i] + data[i..i + run];
    DecodeNext(out, REPEAT + (run - 3), [data[i]], data[..i], data[..i + run]);
    more := out + [REPEAT + (run - 3), data[i]];
    assert more == out + Chunk(REPEAT + (run - 3), [data[i]]);
  }

  lemma LiteralFits(start: nat, i: nat)
    requires start < i && i - start <= MAX_LITERAL
    ensures Allowed(start, false) + 1 + (i - start) <= Allowed(i, i - start < MAX_LITERAL)
  {
  }

  /** One more chunk decodes to what came before and its own bytes. */
  lemma DecodeNext(code: seq<Byte>, header: Byte, payload: seq<Byte>, before: seq<Byte>, all: seq<Byte>)
    requires Decode(code) == Some(before) && |payload| == Payload(header)
    requires all == before + Expanded(header, payload)
    ensures Decode(code + Chunk(header, payload)) == Some(all)
  {
    DecodeSnoc(code, header, payload);
  }

  lemma LiteralExpands(data: seq<Byte>, start: nat, i: nat)
    requires start < i <= |data| && i - start <= MAX_LITERAL
    ensures data[..i] == data[..start] + Expanded(i - start - 1, data[start..i])
  {
    assert Expanded(i - start - 1, data[start..i]) == data[start..i];
  }

  lemma LiteralDecodes(data: seq<Byte>, start: nat, i: nat, out: seq<Byte>)
    requires start < i <= |data| && i - start <= MAX_LITERAL && Decode(out) == Some(data[..start])
    ensures Decode(out + Chunk(i - start - 1, data[start..i])) == Some(data[..i])
  {
    LiteralExpands(data, start, i);
    DecodeNext(out, i - start - 1, data[start..i], data[..start], data[..i]);
  }

  lemma LiteralCoded(data: seq<Byte>, start: nat, i: nat, out: seq<Byte>)
    requires Coded(data, start, out, false) && start < i <= |data| && i - start <= MAX_LITERAL
    requires i - start < MAX_LITERAL ==> i == |data| || TripleAt(data, i)
    ensures Coded(data, i, out + Chunk(i - start - 1, data[start..i]), i - start < MAX_LITERAL)
  {
    LiteralDecodes(data, start, i, out);
    LiteralFits(start, i);
  }

  /** One to 128 bytes behind their count. */
  method PutLiteral(data: seq<Byte>, start: nat, i: nat, out: seq<Byte>) returns (more: seq<Byte>)
    requires Coded(data, start, out, false) && start < i <= |data| && i - start <= MAX_LITERAL
    requires i - start < MAX_LITERAL ==> i == |data| || TripleAt(data, i)
    ensures Coded(data, i, more, i - start < MAX_LITERAL) && |more| == |out| + 1 + (i - start)
  {
    var literal := data[start..i];
    LiteralCoded(data, start, i, out);
    assert [i - start - 1] + literal == Chunk(i - start - 1, literal);
    more := out + ([i - start - 1] + literal);
  }

  predicate Uniform(data: seq<Byte>) {
    forall j, k | 0 <= j < |data| && 0 <= k < |data| :: data[j] == data[k]
  }

  /** Two bytes for each full run so far, and at the end at most three for the rest. */
  predicate Shrunk(i: nat, n: nat, size: nat) {
    (i % 130 == 0 && size == 2 * (i / 130)) || (i == n && size <= 2 * (n / 130) + 3)
  }

  /** One chunk: the run that starts here, or else a literal. */
  method PutNext(data: seq<Byte>, start: nat, out: seq<Byte>, ghost short: bool)
    returns (more: seq<Byte>, i: nat, ghost cut: bool)
    requires Coded(data, start, out, short) && start < |data|
    ensures start < i && Coded(data, i, more, cut)
    ensures Uniform(data) && Shrunk(start, |data|, |out|) ==> Shrunk(i, |data|, |more|)
  {
    var run := RunAt(data, start);
    if run >= 3 {
      more := PutRun(data, start, out, run, short);
      i, cut := start + run, false;
    } else {
      i := LiteralEnd(data, start);
      more := PutLiteral(data, start, i, out);
      cut := i - start < MAX_LITERAL;
    }
  }

  /**
   * packBits: the code decodes to the data, and is never longer than the data by more than one
   * byte in every 128. One byte over and over takes two bytes for every 130.
   */
  method Pack(data: seq<Byte>) returns (out: seq<Byte>)
    ensures Decode(out) == Some(data)
    ensures |out| <= |data| + (|data| + 127) / 128
    ensures Uniform(data) ==> |out| <= 2 * (|data| / 130) + 3
  {
    out := [];
    var i: nat := 0;
    ghost var short := false;
    while i < |data|
      invariant Coded(data, i, out, short)
      invariant Uniform(data) ==> Shrunk(i, |data|, |out|)
      decreases |data| - i
    {
      out, i, short := PutNext(data, i, out, short);
    }
    assert data[..i] == data;
  }

  // ---------- four planes ----------

  const MAGIC: seq<Byte> := [0x41, 0x52, 0x47, 0x42]

  /** One channel of straight RGBA pixels. */
  function Plane(pix: seq<Byte>, channel: nat, n: nat): (r: seq<Byte>)
    requires channel < 4 && |pix| >= 4 * n
    ensures |r| == n
  {
    seq(n, i requires 0 <= i < n => pix[4 * i + channel])
  }

  /** The reader: the magic, then alpha, red, green and blue, n bytes each, and nothing more. */
  function DecodeARGB(code: seq<Byte>, n: nat): Option<(seq<Byte>, seq<Byte>, seq<Byte>, seq<Byte>)> {
    if |code| < 4 || code[..4] != MAGIC then None
    else
      var a := DecodeN(code[4..], n);
      if a.None? then None else
      var r := DecodeN(a.value.1, n);
      if r.None? then None else
      var g := DecodeN(r.value.1, n);
      if g.None? then None else
      var b := DecodeN(g.value.1, n);
      if b.None? || b.value.1 != [] then None
      else Some((a.value.0, r.value.0, g.value.0, b.value.0))
  }

  /** encodeARGB: four planes coded one after the other read back as the four channels. */
  method EncodeARGB(pix: seq<Byte>, n: nat) returns (out: seq<Byte>)
    requires |pix| == 4 * n
    ensures DecodeARGB(out, n).Some? && out[..4] == [0x41, 0x52, 0x47, 0x42]
    ensures
      var planes := DecodeARGB(out, n).value;
      && planes.0 == Plane(pix, 3, n) && planes.1 == Plane(pix, 0, n)
      && planes.2 == Plane(pix, 1, n) && planes.3 == Plane(pix, 2, n)
  {
    var a, r, g, b: seq<Byte> := [], [], [], [];
    var i: nat := 0;
    while i < n
      invariant i <= n && a == Plane(pix, 3, i) && r == Plane(pix, 0, i)
      invariant g == Plane(pix, 1, i) && b == Plane(pix, 2, i)
    {
      a := a + [pix[4 * i + 3]];
      r := r + [pix[4 * i]];
      g := g + [pix[4 * i + 1]];
      b := b + [pix[4 * i + 2]];
      i := i + 1;
    }
    out := Join(a, r, g, b);
  }

  method Join(a: seq<Byte>, r: seq<Byte>, g: seq<Byte>, b: seq<Byte>) returns (out: seq<Byte>)
    requires |a| == |r| == |g| == |b|
    ensures
      var planes := DecodeARGB(out, |a|);
      planes.Some? && planes.value.0 == a && planes.value.1 == r && planes.value.2 == g && planes.value.3 == b
  {
    var pa := Pack(a);
    var pr := Pack(r);
    var pg := Pack(g);
    var pb := Pack(b);
    out := MAGIC + pa + pr + pg + pb;
    JoinReads(pa, pr, pg, pb, |a|);
  }

  lemma AfterMagic(pa: seq<Byte>, pr: seq<Byte>, pg: seq<Byte>, pb: seq<Byte>)
    ensures
      var out := MAGIC + pa + pr + pg + pb;
      |out| >= 4 && out[..4] == MAGIC && out[4..] == pa + (pr + (pg + pb))
  {
  }

  lemma JoinReads(pa: seq<Byte>, pr: seq<Byte>, pg: seq<Byte>, pb: seq<Byte>, n: nat)
    requires Decode(pa).Some? && Decode(pr).Some? && Decode(pg).Some? && Decode(pb).Some?
    requires |Decode(pa).value| == |Decode(pr).value| == |Decode(pg).value| == |Decode(pb).value| == n
    ensures
      var planes := DecodeARGB(MAGIC + pa + pr + pg + pb, n);
      && planes.Some? && planes.value.0 == Decode(pa).value && planes.value.1 == Decode(pr).value
      && planes.value.2 == Decode(pg).value && planes.value.3 == Decode(pb).value
  {
    AfterMagic(pa, pr, pg, pb);
    DecodeThenTail(pa, pr + (pg + pb));
    DecodeThenTail(pr, pg + pb);
    DecodeThenTail(pg, pb);
    DecodeThenTail(pb, []);
    assert pb + [] == pb;
  }
}
