/** The rules for interpreting an event stream: section 9.2.6 of the WHATWG HTML standard. */
module EventStream {
  import opened Wrappers
  import opened Sequences

  const CR := '\r'
  const LF := '\n'
  const NUL := '\0'

  // ---------- lines ----------

  /** Where the first line ends. */
  function EndOfLine(s: string): (n: nat)
    ensures n <= |s| && (n < |s| ==> s[n] == CR || s[n] == LF)
    ensures CR !in s[..n] && LF !in s[..n]
  {
    if s == "" || s[0] == CR || s[0] == LF then 0
    else
      assert s[..1 + EndOfLine(s[1..])] == [s[0]] + s[1..][..EndOfLine(s[1..])];
      1 + EndOfLine(s[1..])
  }

  /** The lines that have ended, by CR LF, LF or CR. */
  function Lines(s: string): (ls: seq<string>)
    ensures forall l | l in ls :: CR !in l && LF !in l
    decreases |s|
  {
    var n := EndOfLine(s);
    if n == |s| then []
    else [s[..n]] + Lines(s[if s[n] == CR && n + 1 < |s| && s[n + 1] == LF then n + 2 else n + 1..])
  }

  // ---------- fields ----------

  function Colon(l: string): (n: nat)
    ensures n <= |l|
  {
    if l == "" || l[0] == ':' then 0 else 1 + Colon(l[1..])
  }

  function FieldOf(l: string): string {
    l[..Colon(l)]
  }

  /** What follows the colon, less one leading space. */
  function ValueOf(l: string): (v: string)
    ensures forall c | c in v :: c in l
  {
    var n := Colon(l);
    if n == |l| then ""
    else if n + 1 < |l| && l[n + 1] == ' ' then l[n + 2..]
    else l[n + 1..]
  }

  predicate IsDigit(c: char) {
    '0' <= c <= '9'
  }

  function Number(s: string): nat
    requires forall c | c in s :: IsDigit(c)
  {
    if s == "" then 0
    else
      assert (forall c | c in s[..|s| - 1] :: c in s) && IsDigit(s[|s| - 1]);
      10 * Number(s[..|s| - 1]) + (s[|s| - 1] as nat - '0' as nat)
  }

  // ---------- the parser ----------

  /** data, event type and last event id buffers, and the reconnection time last set. */
  datatype Parser = Parser(data: string, kind: string, lastId: string, retry: Option<nat>)

  datatype Received = Received(kind: string, data: string, lastId: string)

  function Field(p: Parser, field: string, value: string): Parser {
    if field == "event" then p.(kind := value)
    else if field == "data" then p.(data := p.data + value + [LF])
    else if field == "id" then (if NUL in value then p else p.(lastId := value))
    else if field == "retry" then
      (if value != "" && forall c | c in value :: IsDigit(c) then p.(retry := Some(Number(value))) else p)
    else p
  }

  /** The blank line: with no data the buffers are cleared, otherwise an event goes out. */
  function Dispatch(p: Parser): (r: (Parser, seq<Received>)) {
    var clear := p.(data := "", kind := "");
    if p.data == "" then (clear, [])
    else
      var data := if p.data[|p.data| - 1] == LF then p.data[..|p.data| - 1] else p.data;
      (clear, [Received(if p.kind == "" then "message" else p.kind, data, p.lastId)])
  }

  /** One line: blank, a comment, or a field. */
  function Line(p: Parser, l: string): (r: (Parser, seq<Received>)) {
    if l == "" then Dispatch(p)
    else if l[0] == ':' then (p, [])
    else (Field(p, FieldOf(l), ValueOf(l)), [])
  }

  /** The state after some lines. */
  function After(p: Parser, ls: seq<string>): Parser
    decreases |ls|
  {
    if ls == [] then p else After(Line(p, ls[0]).0, ls[1..])
  }

  /** The events some lines deliver. */
  function Feed(p: Parser, ls: seq<string>): seq<Received>
    decreases |ls|
  {
    if ls == [] then [] else Line(p, ls[0]).1 + Feed(Line(p, ls[0]).0, ls[1..])
  }

  const FRESH := Parser("", "", "", None)

  /** What a whole stream delivers. */
  function Interpret(stream: string): seq<Received> {
    Feed(FRESH, Lines(stream))
  }

  // ---------- what no parser can deliver ----------

  predicate OneLine(s: string) {
    CR !in s && LF !in s
  }

  predicate Deliverable(r: Received) {
    CR !in r.data && OneLine(r.kind) && OneLine(r.lastId) && NUL !in r.lastId
  }

  predicate Clean(p: Parser) {
    CR !in p.data && OneLine(p.kind) && OneLine(p.lastId) && NUL !in p.lastId
  }

  lemma FieldStaysClean(p: Parser, l: string)
    requires Clean(p) && OneLine(l)
    ensures Clean(Field(p, FieldOf(l), ValueOf(l)))
  {
    assert OneLine(ValueOf(l));
  }

  /** No carriage return reaches an event's data, and no line break its type or id. */
  lemma {:induction false} FeedDeliverable(p: Parser, ls: seq<string>)
    requires Clean(p) && forall l | l in ls :: OneLine(l)
    ensures forall r | r in Feed(p, ls) :: Deliverable(r)
    decreases |ls|
  {
    if ls != [] {
      assert ls[0] in ls;
      LineDeliverable(p, ls[0]);
      FeedDeliverable(Line(p, ls[0]).0, ls[1..]);
    }
  }

  lemma LineDeliverable(p: Parser, l: string)
    requires Clean(p) && OneLine(l)
    ensures Clean(Line(p, l).0) && forall r | r in Line(p, l).1 :: Deliverable(r)
  {
    if l != "" && l[0] != ':' {
      FieldStaysClean(p, l);
    }
  }

  lemma InterpretDeliverable(stream: string)
    ensures forall r | r in Interpret(stream) :: Deliverable(r)
  {
    FeedDeliverable(FRESH, Lines(stream));
  }

  lemma FeedHead(p: Parser, l: string, ls: seq<string>)
    ensures After(p, [l] + ls) == After(Line(p, l).0, ls)
    ensures Feed(p, [l] + ls) == Line(p, l).1 + Feed(Line(p, l).0, ls)
  {
    assert ([l] + ls)[1..] == ls;
  }

  lemma {:induction false} FeedAppend(p: Parser, a: seq<string>, b: seq<string>)
    ensures After(p, a + b) == After(After(p, a), b)
    ensures Feed(p, a + b) == Feed(p, a) + Feed(After(p, a), b)
    decreases |a|
  {
    if a == [] {
      assert a + b == b;
    } else {
      var p1 := Line(p, a[0]).0;
      FeedAppend(p1, a[1..], b);
      FeedHead(p, a[0], a[1..] + b);
      assert a + b == [a[0]] + (a[1..] + b);
      AppendAssociates(Line(p, a[0]).1, Feed(p1, a[1..]), Feed(After(p1, a[1..]), b));
    }
  }

  /** A line ended by LF, then the rest. */
  lemma {:induction false} LinesHead(l: string, rest: string)
    requires OneLine(l)
    ensures Lines(l + [LF] + rest) == [l] + Lines(rest)
  {
    var s := l + [LF] + rest;
    EndAt(l, rest);
    assert s[..|l|] == l && s[|l| + 1..] == rest;
  }

  lemma {:induction false} EndAt(l: string, rest: string)
    requires OneLine(l)
    ensures EndOfLine(l + [LF] + rest) == |l|
  {
    if l != "" {
      EndAt(l[1..], rest);
      assert (l + [LF] + rest)[1..] == l[1..] + [LF] + rest;
    }
  }
}
