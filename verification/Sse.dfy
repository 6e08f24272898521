/** core/sse/event.go: frames on the wire, read back by the standard's own rules. */
module Sse {
  import opened Wrappers
  import opened Sequences
  import opened EventStream

  /** Retry is a duration in nanoseconds. */
  datatype Event = Event(data: string, name: string, id: string, retry: int)

  const MILLISECOND := 1_000_000

  // ---------- strings.Split and strconv.FormatInt ----------

  function SplitLF(s: string): (ls: seq<string>)
    ensures ls != [] && forall l | l in ls :: LF !in l
    ensures CR !in s ==> forall l | l in ls :: CR !in l
  {
    if s == "" then [""]
    else if s[0] == LF then [""] + SplitLF(s[1..])
    else
      var rest := SplitLF(s[1..]);
      assert rest[0] in rest;
      [[s[0]] + rest[0]] + rest[1..]
  }

  function Digits(n: nat): (s: string)
    ensures s != "" && forall c | c in s :: IsDigit(c)
  {
    if n < 10 then [('0' as nat + n) as char] else Digits(n / 10) + [('0' as nat + n % 10) as char]
  }

  lemma {:induction false} DigitsRead(n: nat)
    ensures Number(Digits(n)) == n
  {
    if n < 10 {
      assert Digits(n)[..0] == "";
    } else {
      DigitsRead(n / 10);
      assert Digits(n)[..|Digits(n)| - 1] == Digits(n / 10);
    }
  }

  // ---------- the frame ----------

  /** Lines as they go out. */
  function Wire(ls: seq<string>): string {
    if ls == [] then "" else Wire(ls[..|ls| - 1]) + ls[|ls| - 1] + [LF]
  }

  function DataLines(ls: seq<string>): (r: seq<string>)
    ensures |r| == |ls| && forall i | 0 <= i < |ls| :: r[i] == "data: " + ls[i]
  {
    if ls == [] then [] else DataLines(ls[..|ls| - 1]) + ["data: " + ls[|ls| - 1]]
  }

  function HeadLines(e: Event): seq<string> {
    (if e.id != "" then ["id: " + e.id] else [])
    + (if e.name != "" then ["event: " + e.name] else [])
    + (if e.retry > 0 then ["retry: " + Digits(e.retry / MILLISECOND)] else [])
  }

  /** The lines of one frame: its fields, one data line for each line of data, and the blank one. */
  function FrameLines(e: Event): seq<string> {
    HeadLines(e) + DataLines(SplitLF(e.data)) + [""]
  }

  lemma WireSnoc(ls: seq<string>, l: string)
    ensures Wire(ls + [l]) == Wire(ls) + l + [LF]
  {
    assert (ls + [l])[..|ls|] == ls;
  }

  /** The fields before the data. */
  method Head(e: Event) returns (b: string)
    ensures b == Wire(HeadLines(e))
  {
    b := "";
    ghost var ls: seq<string> := [];
    if e.id != "" {
      WireSnoc(ls, "id: " + e.id);
      b, ls := b + ("id: " + e.id) + [LF], ls + ["id: " + e.id];
    }
    if e.name != "" {
      WireSnoc(ls, "event: " + e.name);
      b, ls := b + ("event: " + e.name) + [LF], ls + ["event: " + e.name];
    }
    if e.retry > 0 {
      var line := "retry: " + Digits(e.retry / MILLISECOND);
      WireSnoc(ls, line);
      b, ls := b + line + [LF], ls + [line];
    }
  }

  /** Frame: the header fields, a line for each line of data, and the empty line that dispatches them. */
  method Frame(e: Event) returns (b: string)
    ensures b == Wire(FrameLines(e))
  {
    b := Head(e);
    ghost var head := HeadLines(e);
    var lines, i := SplitLF(e.data), 0;
    assert head + DataLines(lines[..0]) == head;
    while i < |lines|
      invariant i <= |lines| && b == Wire(head + DataLines(lines[..i]))
    {
      OneMoreLine(head, lines, i);
      b := b + ("data: " + lines[i]) + [LF];
      i := i + 1;
    }
    assert lines[..i] == lines;
    WireSnoc(head + DataLines(lines), "");
    b := b + "" + [LF];
  }

  lemma OneMoreLine(head: seq<string>, lines: seq<string>, i: nat)
    requires i < |lines|
    ensures Wire(head + DataLines(lines[..i + 1])) == Wire(head + DataLines(lines[..i])) + ("data: " + lines[i]) + [LF]
  {
    var line := "data: " + lines[i];
    WireSnoc(head + DataLines(lines[..i]), line);
    assert lines[..i + 1][..i] == lines[..i];
    assert head + DataLines(lines[..i + 1]) == head + DataLines(lines[..i]) + [line];
  }

  // ---------- lines survive the wire ----------

  lemma {:induction false} LinesOfWire(ls: seq<string>, rest: string)
    requires forall l | l in ls :: OneLine(l)
    ensures Lines(Wire(ls) + rest) == ls + Lines(rest)
    decreases |ls|
  {
    if ls == [] {
      assert Wire(ls) + rest == rest && [] + Lines(rest) == Lines(rest);
    } else {
      var before, last := ls[..|ls| - 1], ls[|ls| - 1];
      assert last in ls && forall l | l in before :: l in ls;
      LinesOfWire(before, last + [LF] + rest);
      LinesHead(last, rest);
      WireLast(Wire(before), last, rest);
      AppendAssociates(before, [last], Lines(rest));
      assert before + [last] == ls;
    }
  }

  lemma WireLast(before: string, l: string, rest: string)
    ensures before + l + [LF] + rest == before + (l + [LF] + rest)
  {
  }

  /** What a client can be sent: no carriage return in the data, one-line name and id, no NUL in the id. */
  predicate Sendable(e: Event) {
    CR !in e.data && OneLine(e.name) && OneLine(e.id) && NUL !in e.id
  }

  lemma FrameIsLines(e: Event)
    requires Sendable(e)
    ensures forall l | l in FrameLines(e) :: OneLine(l)
  {
    HeadIsLines(e);
    var ls := SplitLF(e.data);
    forall l | l in DataLines(ls) ensures OneLine(l) {
      var i :| 0 <= i < |ls| && DataLines(ls)[i] == l;
      assert ls[i] in ls;
    }
  }

  lemma HeadIsLines(e: Event)
    requires OneLine(e.name) && OneLine(e.id)
    ensures forall l | l in HeadLines(e) :: OneLine(l)
  {
    assert !IsDigit(CR) && !IsDigit(LF);
    assert OneLine("id: " + e.id) && OneLine("event: " + e.name);
    if e.retry > 0 {
      assert OneLine("retry: " + Digits(e.retry / MILLISECOND));
    }
  }

  // ---------- fields ----------

  lemma {:induction false} ColonAfter(name: string, rest: string)
    requires ':' !in name
    ensures Colon(name + ":" + rest) == |name|
  {
    if name != "" {
      ColonAfter(name[1..], rest);
      assert (name + ":" + rest)[1..] == name[1..] + ":" + rest;
    }
  }

  /** A field line is read as its name and its value. */
  lemma FieldRead(p: Parser, name: string, value: string)
    requires name != "" && ':' !in name
    ensures Line(p, name + ": " + value).0 == Field(p, name, value) && Line(p, name + ": " + value).1 == []
  {
    var l := name + ": " + value;
    assert l == name + ":" + (" " + value);
    ColonAfter(name, " " + value);
    assert l[|name|] == ':' && l[|name| + 1] == ' ' && l[..|name|] == name && l[|name| + 2..] == value;
  }

  lemma DataFeed(p: Parser, line: string)
    ensures After(p, ["data: " + line]) == p.(data := p.data + line + [LF]) && Feed(p, ["data: " + line]) == []
  {
    OneField(p, "data", line);
    assert |"data"| != |"event"| && "data" + ": " == "data: ";
  }

  lemma Grown(data: string, before: string, line: string)
    ensures (data + before) + line + [LF] == data + (before + line + [LF])
  {
  }

  /** The data buffer after the data lines: each with its line feed. */
  lemma {:induction false} DataFeeds(p: Parser, ls: seq<string>)
    ensures After(p, DataLines(ls)) == p.(data := p.data + Wire(ls)) && Feed(p, DataLines(ls)) == []
  {
    if ls == [] {
      assert p.data + "" == p.data;
    } else {
      var n := |ls| - 1;
      var before := Wire(ls[..n]);
      DataFeeds(p, ls[..n]);
      FeedAppend(p, DataLines(ls[..n]), ["data: " + ls[n]]);
      DataFeed(p.(data := p.data + before), ls[n]);
      Grown(p.data, before, ls[n]);
    }
  }

  lemma {:induction false} SplitJoins(s: string)
    ensures Wire(SplitLF(s)) == s + [LF]
  {
    if s == "" {
      WireSnoc([], "");
      assert [] + [""] == [""];
    } else {
      var rest := SplitLF(s[1..]);
      SplitJoins(s[1..]);
      HeadBack(s);
      if s[0] == LF {
        WireFront("", rest);
        assert "" + [LF] + Wire(rest) == [LF] + Wire(rest);
      } else {
        WireLonger(s[0], rest);
      }
    }
  }

  /** One more character at the front of the first line. */
  lemma WireLonger(c: char, ls: seq<string>)
    requires ls != []
    ensures Wire([[c] + ls[0]] + ls[1..]) == [c] + Wire(ls)
  {
    WireFront([c] + ls[0], ls[1..]);
    WireFront(ls[0], ls[1..]);
    assert ls == [ls[0]] + ls[1..];
    Longer(c, ls[0], Wire(ls[1..]));
  }

  lemma Longer(c: char, first: string, tail: string)
    ensures ([c] + first) + [LF] + tail == [c] + (first + [LF] + tail)
  {
  }

  lemma HeadBack(s: string)
    requires s != ""
    ensures s + [LF] == [s[0]] + (s[1..] + [LF])
  {
  }

  lemma {:induction false} WireFront(l: string, ls: seq<string>)
    ensures Wire([l] + ls) == l + [LF] + Wire(ls)
  {
    if ls == [] {
      assert [l] + ls == [] + [l];
      WireSnoc([], l);
    } else {
      var n := |ls| - 1;
      WireFront(l, ls[..n]);
      assert [l] + ls == ([l] + ls[..n]) + [ls[n]];
      WireSnoc([l] + ls[..n], ls[n]);
    }
  }

  /** Between frames the data and event type buffers are empty. */
  predicate Between(p: Parser) {
    p.data == "" && p.kind == ""
  }

  function LastId(e: Event, before: string): string {
    if e.id != "" then e.id else before
  }

  /** What the client's handler is given for this event. */
  function Seen(e: Event, before: string): Received {
    Received(if e.name == "" then "message" else e.name, e.data, LastId(e, before))
  }

  function Read(p: Parser, e: Event): Parser {
    p.(lastId := LastId(e, p.lastId), retry := if e.retry > 0 then Some(e.retry / MILLISECOND) else p.retry)
  }

  lemma HeadFeeds(p: Parser, e: Event)
    requires Between(p) && Sendable(e)
    ensures After(p, HeadLines(e)) == Read(p, e).(kind := e.name) && Feed(p, HeadLines(e)) == []
  {
    var ids := if e.id != "" then ["id: " + e.id] else [];
    var names := if e.name != "" then ["event: " + e.name] else [];
    var p1 := p.(lastId := LastId(e, p.lastId));
    IdFeeds(p, e);
    NameFeeds(p1, e);
    RetryFeeds(p1.(kind := e.name), e);
    FeedAppend(p, ids, names);
    FeedAppend(p, ids + names, if e.retry > 0 then ["retry: " + Digits(e.retry / MILLISECOND)] else []);
  }

  lemma IdFeeds(p: Parser, e: Event)
    requires Sendable(e)
    ensures
      var ls := if e.id != "" then ["id: " + e.id] else [];
      After(p, ls) == p.(lastId := LastId(e, p.lastId)) && Feed(p, ls) == []
  {
    if e.id != "" {
      OneField(p, "id", e.id);
      assert |"id"| != |"event"| && |"id"| != |"data"| && "id" + ": " == "id: ";
    }
  }

  lemma NameFeeds(p: Parser, e: Event)
    requires p.kind == ""
    ensures
      var ls := if e.name != "" then ["event: " + e.name] else [];
      After(p, ls) == p.(kind := e.name) && Feed(p, ls) == []
  {
    if e.name != "" {
      OneField(p, "event", e.name);
      assert "event" + ": " == "event: ";
    }
  }

  lemma OneField(p: Parser, name: string, value: string)
    requires name != "" && ':' !in name
    ensures After(p, [name + ": " + value]) == Field(p, name, value) && Feed(p, [name + ": " + value]) == []
  {
    var l := name + ": " + value;
    FieldRead(p, name, value);
    FeedHead(p, l, []);
    assert [l] + [] == [l];
  }

  lemma RetryFeeds(p: Parser, e: Event)
    ensures
      var ls := if e.retry > 0 then ["retry: " + Digits(e.retry / MILLISECOND)] else [];
      && After(p, ls) == p.(retry := if e.retry > 0 then Some(e.retry / MILLISECOND) else p.retry)
      && Feed(p, ls) == []
  {
    if e.retry > 0 {
      var d := Digits(e.retry / MILLISECOND);
      DigitsRead(e.retry / MILLISECOND);
      OneField(p, "retry", d);
      assert "retry"[0] != "event"[0] && |"retry"| != |"data"| && |"retry"| != |"id"| && "retry" + ": " == "retry: ";
    }
  }

  /** One frame, read between frames, delivers its event and nothing else. */
  lemma FrameFeeds(p: Parser, e: Event)
    requires Between(p) && Sendable(e)
    ensures After(p, FrameLines(e)) == Read(p, e)
    ensures Feed(p, FrameLines(e)) == [Seen(e, p.lastId)]
  {
    var head, data := HeadLines(e), DataLines(SplitLF(e.data));
    var p1 := Read(p, e).(kind := e.name);
    var p2 := p1.(data := e.data + [LF]);
    HeadFeeds(p, e);
    DataFeeds(p1, SplitLF(e.data));
    SplitJoins(e.data);
    assert p1.data + (e.data + [LF]) == e.data + [LF];
    FeedAppend(p, head, data);
    FeedAppend(p, head + data, [""]);
    Delivers(p2, e.data);
    assert [] + [Seen(e, p.lastId)] == [Seen(e, p.lastId)];
  }

  /**
   * What a client makes of one frame, field by field: the data as given, the name or "message", the
   * id or the last one, and the reconnection time in whole milliseconds.
   */
  lemma FrameDelivers(p: Parser, e: Event)
    requires p.data == "" && p.kind == "" && Sendable(e)
    ensures Feed(p, FrameLines(e))
         == [Received(if e.name == "" then "message" else e.name, e.data, if e.id != "" then e.id else p.lastId)]
    ensures After(p, FrameLines(e)).retry == if e.retry > 0 then Some(e.retry / 1_000_000) else p.retry
    ensures After(p, FrameLines(e)).lastId == if e.id != "" then e.id else p.lastId
  {
    FrameFeeds(p, e);
  }

  lemma Delivers(p: Parser, data: string)
    requires p.data == data + [LF]
    ensures After(p, [""]) == p.(data := "", kind := "")
    ensures Feed(p, [""]) == [Received(if p.kind == "" then "message" else p.kind, data, p.lastId)]
  {
    FeedHead(p, "", []);
    assert [""] + [] == [""];
    assert p.data[..|p.data| - 1] == data;
  }

  // ---------- whole streams ----------

  function Stream(es: seq<Event>): string {
    if es == [] then "" else Wire(FrameLines(es[0])) + Stream(es[1..])
  }

  function Expected(es: seq<Event>, lastId: string): seq<Received> {
    if es == [] then [] else [Seen(es[0], lastId)] + Expected(es[1..], LastId(es[0], lastId))
  }

  lemma {:induction false} StreamFeeds(p: Parser, es: seq<Event>)
    requires Between(p) && forall e | e in es :: Sendable(e)
    ensures Feed(p, Lines(Stream(es))) == Expected(es, p.lastId)
    decreases |es|
  {
    if es != [] {
      assert es[0] in es;
      FrameIsLines(es[0]);
      LinesOfWire(FrameLines(es[0]), Stream(es[1..]));
      FrameFeeds(p, es[0]);
      FeedAppend(p, FrameLines(es[0]), Lines(Stream(es[1..])));
      StreamFeeds(Read(p, es[0]), es[1..]);
    }
  }

  lemma {:induction false} ExpectedNeeds(es: seq<Event>, lastId: string)
    requires forall r | r in Expected(es, lastId) :: Deliverable(r)
    ensures forall e | e in es :: Sendable(e)
    decreases |es|
  {
    if es != [] {
      assert Expected(es, lastId)[0] == Seen(es[0], lastId);
      assert Seen(es[0], lastId) in Expected(es, lastId);
      assert forall r | r in Expected(es[1..], LastId(es[0], lastId)) :: r in Expected(es, lastId);
      ExpectedNeeds(es[1..], LastId(es[0], lastId));
    }
  }

  /**
   * For every list of events: reading the concatenated frames delivers exactly those events, in
   * order, if and only if no data has a carriage return, no name or id has a line break, and no id
   * has a NUL.
   */
  lemma StreamRoundTrip(es: seq<Event>)
    ensures Interpret(Stream(es)) == Expected(es, "") <==> forall e | e in es :: Sendable(e)
  {
    if forall e | e in es :: Sendable(e) {
      StreamFeeds(FRESH, es);
    }
    if Interpret(Stream(es)) == Expected(es, "") {
      InterpretDeliverable(Stream(es));
      ExpectedNeeds(es, "");
    }
  }
}
