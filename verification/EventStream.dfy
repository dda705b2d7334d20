/** Server-sent events: the client's parser, and what the encoder writes.

    The parser is that of sections 9.2.5 and 9.2.6 of the HTML Living Standard, on bytes:
    a line ends with CRLF, LF or CR, and lines are interpreted as fields or comments. */
module EventStream {
  // ----- the parser

  /** What the client observes. */
  datatype Item =
    | Message(name: string, data: string, lastId: string)
    | Reconnection(ms: nat)

  /** The line read so far and whether it follows a CR, the three buffers, and what has
      been observed. */
  datatype Client = Client(line: string, afterCr: bool, data: string, name: string, lastId: string, items: seq<Item>)

  function Connected(): Client {
    Client("", false, "", "", "", [])
  }

  predicate Digit(c: char) { '0' <= c <= '9' }

  predicate Digits(s: string) { s != "" && forall i :: 0 <= i < |s| ==> Digit(s[i]) }

  function Number(s: string): nat
    requires forall i :: 0 <= i < |s| ==> Digit(s[i])
  {
    if s == "" then 0
    else
      assert Digit(s[|s| - 1]);
      Number(s[..|s| - 1]) * 10 + (s[|s| - 1] as int - '0' as int)
  }

  function Field(k: Client, field: string, value: string): Client {
    if field == "event" then k.(name := value)
    else if field == "data" then k.(data := k.data + value + "\n")
    else if field == "id" then if '\0' in value then k else k.(lastId := value)
    else if field == "retry" then
      if Digits(value) then k.(items := k.items + [Reconnection(Number(value))]) else k
    else k
  }

  function Dispatch(k: Client): Client {
    if k.data == "" then k.(name := "")
    else
      var data := if k.data[|k.data| - 1] == '\n' then k.data[..|k.data| - 1] else k.data;
      k.(data := "", name := "",
         items := k.items + [Message(if k.name == "" then "message" else k.name, data, k.lastId)])
  }

  /** Where c first occurs in s, or the length of s. */
  function Find(s: string, c: char): (i: nat)
    ensures i <= |s| && c !in s[..i] && (i < |s| ==> s[i] == c)
  {
    if s == "" || s[0] == c then 0 else Find(s[1..], c) + 1
  }

  function Interpret(k: Client, line: string): Client {
    if line == "" then Dispatch(k)
    else if line[0] == ':' then k
    else
      var i := Find(line, ':');
      if i == |line| then Field(k, line, "")
      else
        var value := line[i + 1..];
        Field(k, line[..i], if value != "" && value[0] == ' ' then value[1..] else value)
  }

  function Feed1(k: Client, c: char): Client {
    if c == '\n' && k.afterCr then k.(afterCr := false)
    else if c == '\n' || c == '\r' then Interpret(k.(line := "", afterCr := c == '\r'), k.line)
    else k.(line := k.line + [c], afterCr := false)
  }

  function Feed(k: Client, s: string): Client
    decreases |s|
  {
    if s == "" then k else Feed(Feed1(k, s[0]), s[1..])
  }

  lemma {:induction false} FeedAppend(k: Client, a: string, b: string)
    ensures Feed(k, a + b) == Feed(Feed(k, a), b)
    decreases |a|
  {
    if a == "" {
      assert a + b == b;
    } else {
      assert (a + b)[0] == a[0] && (a + b)[1..] == a[1..] + b;
      FeedAppend(Feed1(k, a[0]), a[1..], b);
    }
  }

  predicate NoBreak(s: string) { '\r' !in s && '\n' !in s }

  lemma {:induction false} FeedText(k: Client, s: string)
    requires NoBreak(s)
    ensures Feed(k, s) == if s == "" then k else k.(line := k.line + s, afterCr := false)
    decreases |s|
  {
    if s != "" {
      assert s[0] in s;
      assert forall c :: c in s[1..] ==> c in s;
      FeedText(Feed1(k, s[0]), s[1..]);
      assert k.line + [s[0]] + s[1..] == k.line + s;
    }
  }

  /** A line on its own, after a line break that was not a CR. */
  lemma FeedLine(k: Client, s: string)
    requires NoBreak(s) && k.line == "" && !k.afterCr
    ensures Feed(k, s + "\n") == Interpret(k, s)
  {
    FeedAppend(k, s, "\n");
    FeedText(k, s);
    var k' := Feed(k, s);
    assert "" + s == s;
    assert "\n"[1..] == "";
    assert k'.(line := "", afterCr := false) == k;
  }

  lemma FeedField(k: Client, field: string, value: string)
    requires NoBreak(field) && NoBreak(value) && field != "" && ':' !in field && k.line == "" && !k.afterCr
    ensures Feed(k, field + ": " + value + "\n") == Field(k, field, value)
  {
    var line := field + ": " + value;
    FeedLine(k, line);
    assert field[0] in field;
    assert line[|field|] == ':' && line[..|field|] == field;
    FindIs(line, ':', |field|);
    assert line[|field| + 1..] == " " + value;
    assert (" " + value)[1..] == value;
  }

  lemma {:induction false} FindIs(s: string, c: char, i: nat)
    requires i < |s| && s[i] == c && c !in s[..i]
    ensures Find(s, c) == i
  {
    if i > 0 {
      assert s[0] in s[..i];
      assert s[1..][..i - 1] == s[..i][1..];
      FindIs(s[1..], c, i - 1);
    }
  }

  // ----- what is sent

  /** Retry is in nanoseconds. */
  datatype Event = Event(id: string, name: string, data: string, retry: int)

  /** Go's Milliseconds truncates toward zero. */
  function Milliseconds(retry: int): int {
    if retry >= 0 then retry / 1_000_000 else -(-retry / 1_000_000)
  }

  /** The retry that is written is the number of whole milliseconds in it; less than one, or
      a negative retry, is not written. */
  lemma WholeMilliseconds(retry: int, ms: int)
    requires ms >= 0
    ensures retry >= 0 ==> (Milliseconds(retry) == ms <==> 1_000_000 * ms <= retry < 1_000_000 * (ms + 1))
    ensures Milliseconds(retry) > 0 <==> retry >= 1_000_000
    ensures RetryLine(retry) == "" <==> retry < 1_000_000
  {
    if Milliseconds(retry) > 0 {
      DecimalReadsBack(Milliseconds(retry));
    }
  }

  function Decimal(n: nat): string {
    if n < 10 then [DigitOf(n)] else Decimal(n / 10) + [DigitOf(n % 10)]
  }

  function DigitOf(d: nat): char
    requires d < 10
  {
    '0' + d as char
  }

  lemma {:induction false} DecimalReadsBack(n: nat)
    ensures Digits(Decimal(n)) && NoBreak(Decimal(n)) && Number(Decimal(n)) == n
  {
    if n < 10 {
      assert Decimal(n)[..0] == "";
    } else {
      DecimalReadsBack(n / 10);
      assert Decimal(n)[..|Decimal(n)| - 1] == Decimal(n / 10);
    }
  }

  /** Where the first line of data ends, and where the next one starts. */
  function LineEnd(data: string): (i: nat)
    ensures i <= |data| && NoBreak(data[..i]) && (i < |data| ==> data[i] == '\r' || data[i] == '\n')
  {
    if data == "" || data[0] == '\r' || data[0] == '\n' then 0 else LineEnd(data[1..]) + 1
  }

  function NextLine(data: string, i: nat): (j: nat)
    requires i < |data|
    ensures i < j <= |data|
  {
    if data[i] == '\r' && i + 1 < |data| && data[i + 1] == '\n' then i + 2 else i + 1
  }

  /** What follows the first line. */
  function Rest(data: string): string
    requires LineEnd(data) < |data|
    ensures |Rest(data)| < |data|
  {
    data[NextLine(data, LineEnd(data))..]
  }

  function DataLines(data: string): string
    decreases |data|
  {
    var i := LineEnd(data);
    "data: " + data[..i] + "\n" + if i == |data| then "" else DataLines(Rest(data))
  }

  function FieldLine(field: string, value: string): string {
    if value == "" then "" else field + ": " + value + "\n"
  }

  function RetryLine(retry: int): string {
    if Milliseconds(retry) > 0 then FieldLine("retry", Decimal(Milliseconds(retry))) else ""
  }

  /** The frame of one event. */
  function Encoded(e: Event): string {
    FieldLine("id", e.id) + FieldLine("event", e.name) + RetryLine(e.retry) + DataLines(e.data) + "\n"
  }

  /** What Send accepts. */
  predicate Sendable(e: Event) {
    NoBreak(e.id) && '\0' !in e.id && NoBreak(e.name)
  }

  // ----- what comes back

  /** data with each of CRLF, CR and LF turned into LF. */
  function Normalised(data: string): string
    decreases |data|
  {
    if data == "" then ""
    else if data[0] == '\r' then "\n" + Normalised(if |data| > 1 && data[1] == '\n' then data[2..] else data[1..])
    else [data[0]] + Normalised(data[1..])
  }

  lemma {:induction false} NormalisedLine(data: string)
    ensures Normalised(data) ==
      data[..LineEnd(data)] + if LineEnd(data) == |data| then "" else "\n" + Normalised(Rest(data))
    decreases |data|
  {
    var i := LineEnd(data);
    if i > 0 {
      hide Rest, LineEnd;
      NormalisedLine(data[1..]);
      LaterBreak(data);
      if i < |data| {
        assert [data[0]] + (data[1..][..i - 1] + ("\n" + Normalised(Rest(data))))
            == ([data[0]] + data[1..][..i - 1]) + ("\n" + Normalised(Rest(data)));
      }
    } else if data != "" {
      assert data[..0] == "";
      FirstBreak(data);
    }
  }

  lemma LaterBreak(data: string)
    requires LineEnd(data) > 0
    ensures data[0] != '\r' && data[0] != '\n' && LineEnd(data[1..]) == LineEnd(data) - 1
    ensures data[..LineEnd(data)] == [data[0]] + data[1..][..LineEnd(data) - 1]
    ensures LineEnd(data) < |data| ==> Rest(data[1..]) == Rest(data)
  {
    var i, tail := LineEnd(data), data[1..];
    assert LineEnd(tail) == i - 1;
    hide LineEnd, NextLine;
    TakeTail(data, i);
    if i < |data| {
      SameNext(data, i);
      DropTail(data, NextLine(data, i));
    }
  }

  lemma SameNext(data: string, i: nat)
    requires 0 < i < |data|
    ensures NextLine(data[1..], i - 1) == NextLine(data, i) - 1
  {
  }

  lemma TakeTail(s: string, i: nat)
    requires 0 < i <= |s|
    ensures s[..i] == [s[0]] + s[1..][..i - 1]
  {
  }

  lemma DropTail(s: string, j: nat)
    requires 0 < j <= |s|
    ensures s[1..][j - 1..] == s[j..]
  {
  }

  lemma FirstBreak(data: string)
    requires data != "" && LineEnd(data) == 0
    ensures Normalised(data) == "\n" + Normalised(Rest(data))
  {
    if data[0] == '\r' && |data| > 1 && data[1] == '\n' {
      assert Rest(data) == data[2..];
    } else {
      assert Rest(data) == data[1..];
    }
  }

  lemma {:induction false} FeedData(k: Client, data: string)
    requires k.line == "" && !k.afterCr
    ensures Feed(k, DataLines(data)) == k.(data := k.data + Normalised(data) + "\n")
    decreases |data|
  {
    hide Feed, Normalised, LineEnd;
    var i := LineEnd(data);
    var first := "data: " + data[..i] + "\n";
    FeedDataLine(k, data[..i]);
    NormalisedLine(data);
    if i == |data| {
      assert DataLines(data) == first && Normalised(data) == data[..i];
    } else {
      assert DataLines(data) == first + DataLines(Rest(data));
      FeedAppend(k, first, DataLines(Rest(data)));
      FeedData(Feed(k, first), Rest(data));
      OneMoreLine(k.data, data[..i], Normalised(Rest(data)));
    }
  }

  lemma FeedDataLine(k: Client, line: string)
    requires k.line == "" && !k.afterCr && NoBreak(line)
    ensures Feed(k, "data: " + line + "\n") == k.(data := k.data + line + "\n")
  {
    FeedField(k, "data", line);
    assert "data" + ": " == "data: ";
  }

  lemma OneMoreLine(before: string, line: string, rest: string)
    ensures before + line + "\n" + rest + "\n" == before + (line + ("\n" + rest)) + "\n"
  {
  }

  /** What a client with this last event id should observe of an event. */
  function Observed(e: Event, lastId: string): seq<Item> {
    (if Milliseconds(e.retry) > 0 then [Reconnection(Milliseconds(e.retry))] else [])
    + [Message(if e.name == "" then "message" else e.name, Normalised(e.data), LastId(e, lastId))]
  }

  /** An id stays in force until another one is sent. */
  function LastId(e: Event, lastId: string): string {
    if e.id == "" then lastId else e.id
  }

  /** Between frames: no line begun, no event pending. */
  predicate Between(k: Client) {
    k.line == "" && !k.afterCr && k.data == "" && k.name == ""
  }

  /** One event comes back as it was sent. */
  lemma EventComesBack(k: Client, e: Event)
    requires Between(k) && Sendable(e)
    ensures Feed(k, Encoded(e)) == k.(lastId := LastId(e, k.lastId), items := k.items + Observed(e, k.lastId))
  {
    var id, name, retry, data :=
      FieldLine("id", e.id), FieldLine("event", e.name), RetryLine(e.retry), DataLines(e.data);
    var k1 := FeedId(k, e.id);
    var k2 := FeedName(k1, e.name);
    var k3 := FeedRetry(k2, e.retry);
    FeedData(k3, e.data);
    var k4 := Feed(k3, data);
    FeedLine(k4, "");
    assert "" + "\n" == "\n";
    FeedAppend(k, id, name);
    FeedAppend(k, id + name, retry);
    FeedAppend(k, id + name + retry, data);
    FeedAppend(k, id + name + retry + data, "\n");
    DispatchData(k4, Normalised(e.data));
    assert Feed(k, Encoded(e)) == Dispatch(k4);
    assert k.items + (k3.items[|k.items|..] +
                      [Message(if e.name == "" then "message" else e.name, Normalised(e.data), LastId(e, k.lastId))])
        == k.items + Observed(e, k.lastId);
  }

  lemma DispatchData(k: Client, data: string)
    requires k.data == data + "\n"
    ensures Dispatch(k) == k.(data := "", name := "",
      items := k.items + [Message(if k.name == "" then "message" else k.name, data, k.lastId)])
  {
    assert k.data[..|k.data| - 1] == data;
  }

  lemma FeedId(k: Client, id: string) returns (k': Client)
    requires k.line == "" && !k.afterCr && NoBreak(id) && '\0' !in id
    ensures k' == Feed(k, FieldLine("id", id)) == k.(lastId := if id == "" then k.lastId else id)
  {
    k' := Feed(k, FieldLine("id", id));
    if id != "" {
      FeedField(k, "id", id);
    }
  }

  lemma FeedName(k: Client, name: string) returns (k': Client)
    requires k.line == "" && !k.afterCr && k.name == "" && NoBreak(name)
    ensures k' == Feed(k, FieldLine("event", name)) == k.(name := name)
  {
    k' := Feed(k, FieldLine("event", name));
    if name != "" {
      FeedField(k, "event", name);
    }
  }

  lemma FeedRetry(k: Client, retry: int) returns (k': Client)
    requires k.line == "" && !k.afterCr
    ensures k' == Feed(k, RetryLine(retry))
    ensures k' == k.(items := k.items + if Milliseconds(retry) > 0 then [Reconnection(Milliseconds(retry))] else [])
  {
    k' := Feed(k, RetryLine(retry));
    if Milliseconds(retry) > 0 {
      DecimalReadsBack(Milliseconds(retry));
      FeedField(k, "retry", Decimal(Milliseconds(retry)));
    }
  }

  // ----- a whole stream

  datatype Frame = Sent(event: Event) | Heartbeat

  const COMMENT := ":\n\n"

  function Bytes(f: Frame): string {
    if f.Sent? then Encoded(f.event) else COMMENT
  }

  function Stream(frames: seq<Frame>): string {
    if frames == [] then "" else Stream(frames[..|frames| - 1]) + Bytes(frames[|frames| - 1])
  }

  predicate AllSendable(frames: seq<Frame>) {
    forall i :: 0 <= i < |frames| && frames[i].Sent? ==> Sendable(frames[i].event)
  }

  function LastIdAfter(frames: seq<Frame>): string {
    if frames == [] then ""
    else
      var f := frames[|frames| - 1];
      var before := LastIdAfter(frames[..|frames| - 1]);
      if f.Sent? then LastId(f.event, before) else before
  }

  /** What the client should observe of the frames: each event in order, and nothing of
      a heartbeat. */
  function ObservedAll(frames: seq<Frame>): seq<Item> {
    if frames == [] then []
    else
      var before := frames[..|frames| - 1];
      var f := frames[|frames| - 1];
      ObservedAll(before) + if f.Sent? then Observed(f.event, LastIdAfter(before)) else []
  }

  /** A heartbeat dispatches nothing and disturbs nothing. */
  lemma HeartbeatIsSilent(k: Client)
    requires Between(k)
    ensures Feed(k, COMMENT) == k
  {
    assert COMMENT == (":" + "\n") + ("" + "\n");
    FeedAppend(k, ":" + "\n", "" + "\n");
    FeedLine(k, ":");
    FeedLine(k, "");
  }

  /** Any accepted sends, interleaved in any way with heartbeats, come back as exactly
      those events in that order. */
  lemma {:induction false} StreamComesBack(frames: seq<Frame>)
    requires AllSendable(frames)
    ensures Feed(Connected(), Stream(frames)) ==
      Connected().(lastId := LastIdAfter(frames), items := ObservedAll(frames))
  {
    if frames != [] {
      var before, f := frames[..|frames| - 1], frames[|frames| - 1];
      StreamComesBack(before);
      FeedAppend(Connected(), Stream(before), Bytes(f));
      var k := Feed(Connected(), Stream(before));
      if f.Sent? {
        EventComesBack(k, f.event);
      } else {
        HeartbeatIsSilent(k);
      }
    }
  }

  /** What has been observed stays observed. */
  lemma {:induction false} ItemsOnlyGrow(k: Client, s: string)
    ensures k.items <= Feed(k, s).items
    decreases |s|
  {
    if s != "" {
      ItemsOnlyGrow(Feed1(k, s[0]), s[1..]);
    }
  }

  /** A stream cut off anywhere delivers a prefix of its events, each of them whole. */
  lemma CutOffStream(frames: seq<Frame>, received: string)
    requires AllSendable(frames) && received <= Stream(frames)
    ensures Feed(Connected(), received).items <= ObservedAll(frames)
  {
    StreamComesBack(frames);
    assert Stream(frames) == received + Stream(frames)[|received|..];
    FeedAppend(Connected(), received, Stream(frames)[|received|..]);
    ItemsOnlyGrow(Feed(Connected(), received), Stream(frames)[|received|..]);
  }

  // ----- what is refused

  /** No stream of bytes can carry such an id or name. */
  predicate Carried(k: Client) {
    && NoBreak(k.line) && NoBreak(k.name) && NoBreak(k.lastId) && '\0' !in k.lastId
    && forall i :: 0 <= i < |k.items| && k.items[i].Message? ==>
         NoBreak(k.items[i].name) && NoBreak(k.items[i].lastId) && '\0' !in k.items[i].lastId
  }

  lemma {:induction false} FeedCarries(k: Client, s: string)
    requires Carried(k)
    ensures Carried(Feed(k, s))
    decreases |s|
  {
    if s != "" {
      Feed1Carries(k, s[0]);
      FeedCarries(Feed1(k, s[0]), s[1..]);
    }
  }

  lemma Feed1Carries(k: Client, c: char)
    requires Carried(k)
    ensures Carried(Feed1(k, c))
  {
    if c == '\n' || c == '\r' {
      InterpretCarries(k.(line := "", afterCr := c == '\r'), k.line);
    }
  }

  lemma InterpretCarries(k: Client, line: string)
    requires Carried(k) && NoBreak(line)
    ensures Carried(Interpret(k, line))
  {
    hide Find, Field, Dispatch;
    DispatchCarries(k);
    var i := Find(line, ':');
    FieldCarries(k, line, "");
    if i < |line| {
      var value := line[i + 1..];
      assert forall c :: c in value ==> c in line;
      FieldCarries(k, line[..i], value);
      if value != "" {
        assert forall c :: c in value[1..] ==> c in value;
        FieldCarries(k, line[..i], value[1..]);
      }
    }
  }

  lemma DispatchCarries(k: Client)
    requires Carried(k)
    ensures Carried(Dispatch(k))
  {
  }

  lemma FieldCarries(k: Client, field: string, value: string)
    requires Carried(k) && NoBreak(value)
    ensures Carried(Field(k, field, value))
  {
  }

  /** Send refuses exactly the events that would not come back. */
  lemma RefusedExactly(k: Client, e: Event)
    requires Between(k) && Carried(k)
    ensures Feed(k, Encoded(e)).items == k.items + Observed(e, k.lastId) <==> Sendable(e)
  {
    if Sendable(e) {
      EventComesBack(k, e);
    } else {
      FeedCarries(k, Encoded(e));
      var o := Observed(e, k.lastId);
      var m := o[|o| - 1];
      assert (k.items + o)[|k.items| + |o| - 1] == m;
      NotCarried(e, k.lastId);
    }
  }

  lemma NotCarried(e: Event, lastId: string)
    requires !Sendable(e)
    ensures var o := Observed(e, lastId);
      var m := o[|o| - 1]; m.Message? && !(NoBreak(m.name) && NoBreak(m.lastId) && '\0' !in m.lastId)
  {
  }
}
