/** A streamed response: the buffered writer under it, and what each call writes. Every
    call here is one critical section of the stream's mutex. */
module StreamWriters {
  import opened EventStream

  /** The response's buffered writer. Errors are sticky: once the client has gone nothing
      more is sent. How much it takes before that is not known to the writer. */
  class Writer {
    const takes: nat           // the bytes the client will take
    const size: nat            // the buffer's size
    var sent: string
    var buffered: string
    var failed: bool
    ghost var offered: string  // everything written, in order

    ghost predicate Valid()
      reads this
    {
      && |sent| <= takes
      && (if failed then sent <= offered else sent + buffered == offered)
    }

    constructor (takes: nat, size: nat)
      ensures Valid() && offered == "" && !failed
    {
      this.takes, this.size, sent, buffered, failed, offered := takes, size, "", "", false, "";
    }

    method Push()
      requires Valid() && !failed
      modifies this`sent, this`buffered, this`failed
      ensures Valid() && buffered == "" && (!failed ==> sent == offered)
      ensures failed <==> |offered| > takes
    {
      if |sent| + |buffered| <= takes {
        sent := sent + buffered;
      } else {
        sent := sent + buffered[..takes - |sent|];
        failed := true;
        assert sent <= offered;
      }
      buffered := "";
    }

    method WriteString(s: string)
      requires Valid()
      modifies this
      ensures Valid() && offered == old(offered) + s && (old(failed) ==> failed && sent == old(sent))
      ensures failed && !old(failed) ==> |offered| > takes
    {
      offered := offered + s;
      if !failed {
        buffered := buffered + s;
        assert sent + buffered == offered;
        if |buffered| > size {
          Push();
        }
      }
    }

    /** Reports any earlier failure too. */
    method Flush() returns (ok: bool)
      requires Valid()
      modifies this`sent, this`buffered, this`failed
      ensures Valid() && ok == !failed && (ok ==> sent == offered) && (old(failed) ==> failed && sent == old(sent))
      ensures failed && !old(failed) ==> |offered| > takes
    {
      if !failed {
        Push();
      }
      ok := !failed;
    }
  }

  datatype Error = StreamClosed | InvalidEvent | WriteFailed

  datatype Result = Ok | Err(error: Error)

  class Stream {
    const w: Writer
    var done: bool
    var cancelled: bool

    ghost predicate Valid()
      reads this, w
    {
      w.Valid()
    }

    constructor (w: Writer)
      requires w.Valid()
      ensures Valid() && this.w == w && !done && !cancelled
    {
      this.w, done, cancelled := w, false, false;
    }

    /** Cancels the stream's context when a write has failed. */
    method Fail(ok: bool) returns (r: Result)
      modifies this`cancelled
      ensures cancelled == (old(cancelled) || !ok) && r == if ok then Ok else Err(WriteFailed)
    {
      if !ok {
        cancelled := true;
      }
      r := if ok then Ok else Err(WriteFailed);
    }

    /** Buffers v, unless the stream is retired: then the writer is not touched. */
    method WriteString(v: string) returns (r: Result)
      requires Valid()
      modifies this`cancelled, w
      ensures Valid()
      ensures done ==> r == Err(StreamClosed) && unchanged(this, w)
      ensures !done ==> w.offered == old(w.offered) + v && r == (if w.failed then Err(WriteFailed) else Ok)
      ensures !done ==> cancelled == (old(cancelled) || w.failed)
    {
      if done {
        return Err(StreamClosed);
      }
      w.WriteString(v);
      r := Fail(!w.failed);
    }

    method Flush() returns (r: Result)
      requires Valid()
      modifies this`cancelled, w
      ensures Valid()
      ensures done ==> r == Err(StreamClosed) && unchanged(this, w)
      ensures !done ==> w.offered == old(w.offered) && r == (if w.failed then Err(WriteFailed) else Ok)
      ensures !done ==> cancelled == (old(cancelled) || w.failed) && (r.Ok? ==> w.sent == w.offered)
    {
      if done {
        return Err(StreamClosed);
      }
      var ok := w.Flush();
      r := Fail(ok);
    }

    /** Writes one event and flushes it: exactly its frame, all of it sent when Send reports
        no error. An event that would break the framing is refused, and nothing is written;
        a retired stream's writer is not touched. */
    method Send(e: Event) returns (r: Result)
      requires Valid()
      modifies this`cancelled, w
      ensures Valid()
      ensures !Sendable(e) || done ==>
        r == Err(if Sendable(e) then StreamClosed else InvalidEvent) && unchanged(this, w)
      ensures Sendable(e) && !done ==>
        && w.offered == old(w.offered) + Encoded(e)
        && r == (if w.failed then Err(WriteFailed) else Ok)
        && cancelled == (old(cancelled) || w.failed)
        && (r.Ok? ==> w.sent == w.offered)
    {
      hide Encoded, FieldLine, RetryLine, DataLines, Writer.Valid;
      if '\r' in e.id || '\n' in e.id || '\0' in e.id || '\r' in e.name || '\n' in e.name {
        return Err(InvalidEvent);
      }
      if done {
        return Err(StreamClosed);
      }
      WriteField("id", e.id);
      WriteField("event", e.name);
      WriteRetry(e.retry);
      WriteData(e.data);
      w.WriteString("\n");
      WholeFrame(old(w.offered), e);
      var ok := w.Flush();
      r := Fail(ok);
    }

    method WriteField(field: string, value: string)
      requires Valid()
      modifies w
      ensures Valid() && w.offered == old(w.offered) + FieldLine(field, value)
    {
      hide Writer.Valid;
      if value != "" {
        w.WriteString(field + ": ");
        w.WriteString(value);
        w.WriteString("\n");
        WholeLine(old(w.offered), field + ": ", value);
      }
    }

    /** Digit by digit. */
    method WriteRetry(retry: int)
      requires Valid()
      modifies w
      ensures Valid() && w.offered == old(w.offered) + RetryLine(retry)
    {
      hide Writer.Valid, Decimal;
      var ms := Milliseconds(retry);
      if ms > 0 {
        ghost var start := w.offered;
        var digits := Decimal(ms);
        DecimalReadsBack(ms);
        w.WriteString("retry: ");
        for i := 0 to |digits|
          invariant Valid() && w.offered == start + "retry: " + digits[..i]
        {
          w.WriteString([digits[i]]);
          assert digits[..i + 1] == digits[..i] + [digits[i]];
        }
        assert digits[..|digits|] == digits;
        w.WriteString("\n");
        WholeLine(start, "retry: ", digits);
        assert "retry" + ": " == "retry: " && digits != "";
      }
    }

    /** One data line per line of the data, and one for no data. */
    method WriteData(all: string)
      requires Valid()
      modifies w
      ensures Valid() && w.offered == old(w.offered) + DataLines(all)
    {
      hide Writer.Valid, DataLines, LineEnd, NextLine;
      var data := all;
      while true
        invariant Valid() && w.offered + DataLines(data) == old(w.offered) + DataLines(all)
        decreases |data|
      {
        var i := IndexBreak(data);
        ghost var before := w.offered;
        WriteDataLine(data[..i]);
        LineOfData(before, data);
        if i == |data| {
          assert w.offered + "" == w.offered;
          return;
        }
        if data[i] == '\r' && i + 1 < |data| && data[i + 1] == '\n' {
          i := i + 1;
        }
        SkipBreak(data);
        data := data[i + 1..];
      }
    }

    method WriteDataLine(line: string)
      requires Valid()
      modifies w
      ensures Valid() && w.offered == old(w.offered) + ("data: " + line + "\n")
    {
      hide Writer.Valid;
      w.WriteString("data: ");
      w.WriteString(line);
      w.WriteString("\n");
      WholeLine(old(w.offered), "data: ", line);
    }

    /** One beat of the heartbeat: a comment, flushed. It is not asked whether the stream is
        done, and need not be: the stream is retired only after the heartbeat has stopped. */
    method Beat() returns (stop: bool)
      requires Valid()
      modifies this`cancelled, w
      ensures Valid() && w.offered == old(w.offered) + COMMENT
      ensures stop == w.failed && cancelled == (old(cancelled) || w.failed) && (!stop ==> w.sent == w.offered)
    {
      w.WriteString(":\n\n");
      var ok := w.Flush();
      if !ok {
        cancelled := true;
      }
      stop := !ok;
    }

    /** What the body-writer function does last. */
    method Retire()
      requires Valid()
      modifies this`done, w
      ensures Valid() && done && w.offered == old(w.offered) && (!w.failed ==> w.sent == w.offered)
    {
      var ok := w.Flush();
      done := true;
    }
  }

  lemma WholeFrame(start: string, e: Event)
    ensures start + FieldLine("id", e.id) + FieldLine("event", e.name) + RetryLine(e.retry) + DataLines(e.data) + "\n"
         == start + Encoded(e)
  {
    hide FieldLine, RetryLine, DataLines;
  }

  lemma WholeLine(start: string, prefix: string, value: string)
    ensures start + prefix + value + "\n" == start + (prefix + value + "\n")
  {
  }

  lemma LineOfData(start: string, data: string)
    ensures var i := LineEnd(data);
      start + ("data: " + data[..i] + "\n") + (if i == |data| then "" else DataLines(Rest(data))) ==
        start + DataLines(data)
  {
    var i := LineEnd(data);
    hide LineEnd, Rest;
    if i == |data| {
      assert DataLines(data) == "data: " + data[..i] + "\n" + "";
    }
  }

  lemma SkipBreak(data: string)
    requires LineEnd(data) < |data|
    ensures var i := LineEnd(data);
      Rest(data) == if data[i] == '\r' && i + 1 < |data| && data[i + 1] == '\n' then data[i + 2..] else data[i + 1..]
  {
  }

  /** The index of the first CR or LF, or the length. */
  method IndexBreak(data: string) returns (i: nat)
    ensures i == LineEnd(data)
  {
    i := 0;
    while i < |data| && data[i] != '\r' && data[i] != '\n'
      invariant i <= |data| && LineEnd(data) == i + LineEnd(data[i..])
    {
      assert data[i..][1..] == data[i + 1..];
      i := i + 1;
    }
    assert LineEnd(data[i..]) == 0;
  }

  /** What a client of a stream of events has received, whenever it stops listening, is a
      prefix of the events sent, each of them whole. */
  lemma ClientSees(w: Writer, frames: seq<Frame>)
    requires w.Valid() && AllSendable(frames) && w.offered == EventStream.Stream(frames)
    ensures Feed(Connected(), w.sent).items <= ObservedAll(frames)
    ensures !w.failed && w.buffered == "" ==> Feed(Connected(), w.sent).items == ObservedAll(frames)
  {
    CutOffStream(frames, w.sent);
    StreamComesBack(frames);
    if !w.failed && w.buffered == "" {
      assert w.sent == w.offered;
    }
  }
}
