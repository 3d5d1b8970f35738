/** The incremental decoder of src/adapters/sse.rs, proved against the whole-stream
    reading of SseSpec for every way of cutting the stream into chunks. */
module SseDecoding {
  import opened Common
  import opened SseSpec
  import Utf8

  class SseDecoder {
    var line: Bytes
    var data: Bytes
    var event: Bytes
    var hasData: bool
    var firstLine: bool
    var afterCr: bool
    const limit: nat
    /** All bytes read so far. */
    ghost var consumed: Bytes

    /** The fields hold exactly what the spec says a reader of `consumed` must remember,
        never more than `limit` bytes of it. */
    ghost predicate Valid()
      reads this
    {
      && line == Tail(consumed)
      && afterCr == EndsWithCr(consumed)
      && firstLine == (Lines(consumed) == [])
      && Holds(Open(consumed))
      && Faultless(consumed, limit)
      && |line| + |data| + |event| <= limit
      && |line| + |data| + |event| == Retained(consumed)
    }

    /** `data` and `event` describe the unfinished block. */
    ghost predicate Holds(block: seq<Bytes>)
      reads this`data, this`event, this`hasData
    {
      && data == Buffer(DataValues(block))
      && event == Kind(block)
      && hasData == (DataValues(block) != [])
    }

    /** SseDecoder::new refuses a zero limit before it builds the decoder. */
    constructor (limit: nat)
      requires limit > 0
      ensures Valid() && consumed == [] && this.limit == limit
    {
      line, data, event := [], [], [];
      hasData, firstLine, afterCr := false, true, false;
      this.limit := limit;
      consumed := [];
    }

    /** The closed line is a blank line, a comment or a field of the open block. The last
        size check can only fire when the three buffers already exceed the limit. */
    method EndLine(ghost block: seq<Bytes>) returns (r: Result<Option<Event>, Error>)
      requires Holds(block)
      modifies this`line, this`data, this`event, this`hasData, this`firstLine
      ensures line == [] && !firstLine
      ensures r == Err(InvalidUtf8) <==> !Utf8.Valid(Text(old(line), old(firstLine)))
      ensures r.Err? && r.error != InvalidUtf8 ==>
                r.error == SizeLimit && old(|line| + |data| + |event|) > limit
      ensures r.Ok? ==>
                var text := Text(old(line), old(firstLine));
                if text == [] then Emitted(r.value) == Dispatch(block) && Holds([])
                else r.value == None && Holds(block + [text])
      ensures r.Ok? ==> |data| + |event| <= old(|line| + |data| + |event|)
    {
      hide DataValues, Buffer, Kind, JoinLf, Utf8.Valid;
      EmptyBlock();
      var text := if firstLine && BOM <= line then line[3..] else line;
      line := [];
      firstLine := false;
      if !Utf8.Valid(text) {
        return Err(InvalidUtf8);
      }
      if text == [] {
        if !hasData {
          event := [];
          return Ok(None);
        }
        BufferIsJoin(DataValues(block));
        hasData := false;
        data := data[..|data| - 1];
        var kind := if event == [] then MESSAGE else event;
        event := [];
        var payload := data;
        data := [];
        return Ok(Some(Event(kind, payload)));
      }
      BlockAppend(block, text);
      if text[0] == COLON {
        return Ok(None);
      }
      var field, value := FieldName(text), FieldValue(text);
      if field == EVENT {
        event := value;
      } else if field == DATA {
        if |data| + |value| + 1 + |event| > limit {
          return Err(SizeLimit);
        }
        data := data + value + [LF];
        hasData := true;
      }
      return Ok(None);
    }

    /** One byte of the loop of next_event. */
    method Step(byte: Byte) returns (r: Result<Option<Event>, Error>)
      requires Valid()
      modifies this
      ensures r.Ok? ==>
                && Valid()
                && consumed == old(consumed) + [byte]
                && Events(consumed) == Events(old(consumed)) + Emitted(r.value)
      ensures r.Err? ==>
                consumed == old(consumed) && Faultless(consumed, limit) && Fault(consumed, byte, limit) == Some(r.error)
    {
      hide Lines, Tail, Events, Open, Buffer, DataValues, Kind, Faultless, Dispatch, Utf8.Valid;
      ghost var before := consumed;
      LinesAppend(before, byte);
      FaultlessAppend(before, byte, limit);
      if !Closes(before, byte) {
        LineStays(before, byte);
      }
      assert before + [byte] != [] && (before + [byte])[|before|] == byte;
      if afterCr {
        afterCr := false;
        if byte == LF {
          consumed := before + [byte];
          return Ok(None);
        }
      }
      if byte == LF || byte == CR {
        LineCloses(before, byte);
        afterCr := byte == CR;
        r := EndLine(Open(before));
        if r.Ok? {
          consumed := before + [byte];
        }
        return;
      }
      if |line| + |data| + |event| >= limit {
        return Err(SizeLimit);
      }
      line := line + [byte];
      consumed := before + [byte];
      return Ok(None);
    }

    /** Reads on from `start` to the end of the first event in `input`, or to the end of
        `input`. `next` is where the caller's slice now begins. */
    method NextEvent(input: Bytes, start: nat) returns (r: Result<Option<Event>, Error>, next: nat)
      requires Valid() && start <= |input|
      modifies this
      ensures start <= next <= |input|
      ensures r.Ok? ==>
                && Valid()
                && consumed == old(consumed) + input[start..next]
                && Events(consumed) == Events(old(consumed)) + Emitted(r.value)
                && (if r.value.None? then next == |input| else start < next)
      ensures r.Err? ==>
                && start < next
                && consumed == old(consumed) + input[start..next - 1]
                && Faultless(consumed, limit)
                && Events(consumed) == Events(old(consumed))
                && Fault(consumed, input[next - 1], limit) == Some(r.error)
    {
      hide Events, Faultless, Fault, Valid;
      next := start;
      while next < |input|
        invariant start <= next <= |input|
        invariant Valid()
        invariant consumed == old(consumed) + input[start..next]
        invariant Events(consumed) == Events(old(consumed))
      {
        assert input[start..next + 1] == input[start..next] + [input[next]];
        r := Step(input[next]);
        next := next + 1;
        if r.Err? || r.value.Some? {
          return;
        }
      }
      return Ok(None), next;
    }

    /** A stream ends well exactly when no line and no block is left open. */
    method Finish() returns (r: Result<(), Error>)
      requires Valid()
      ensures r.Ok? <==> Complete(consumed)
      ensures Faultless(consumed, limit)
      ensures r.Err? ==> r.error == InvalidEventOrder
    {
      if hasData || line != [] || event != [] {
        return Err(InvalidEventOrder);
      }
      return Ok(());
    }
  }

  /** SseDecoder::new. */
  method NewDecoder(limit: nat) returns (r: Result<SseDecoder, Error>)
    ensures r.Err? <==> limit == 0
    ensures r.Err? ==> r.error == SizeLimit
    ensures r.Ok? ==> fresh(r.value) && r.value.Valid() && r.value.consumed == [] && r.value.limit == limit
  {
    if limit == 0 {
      return Err(SizeLimit);
    }
    var decoder := new SseDecoder(limit);
    return Ok(decoder);
  }

  /** In every reachable state the buffers stay within the limit, and the flag says exactly
      that the data buffer ends in the LF that a dispatch removes. */
  lemma MemoryIsBounded(decoder: SseDecoder)
    requires decoder.Valid()
    ensures |decoder.line| + |decoder.data| + |decoder.event| <= decoder.limit
    ensures decoder.hasData <==> decoder.data != []
    ensures decoder.hasData ==> decoder.data[|decoder.data| - 1] == LF
  {
    hide Open, Faultless, Tail, Lines, Retained, Kind;
    BufferIsJoin(DataValues(Open(decoder.consumed)));
  }

  /** Neither a line nor a block is left open at the end of `s`. */
  predicate Complete(s: Bytes) {
    Tail(s) == [] && DataValues(Open(s)) == [] && Kind(Open(s)) == []
  }

  function Text(line: Bytes, first: bool): Bytes {
    if first then StripBom(line) else line
  }

  function Emitted(event: Option<Event>): seq<Event> {
    if event.Some? then [event.value] else []
  }

  /** The inner loop over one chunk: events are taken one by one until the chunk is
      used up or faulty. */
  method DrainChunk(decoder: SseDecoder, chunk: Bytes)
    returns (events: seq<Event>, fault: Option<Error>, ghost used: nat)
    requires decoder.Valid()
    modifies decoder
    ensures used <= |chunk| && decoder.consumed == old(decoder.consumed) + chunk[..used]
    ensures Events(decoder.consumed) == Events(old(decoder.consumed)) + events
    ensures fault == None ==> used == |chunk| && decoder.Valid()
    ensures fault.Some? ==>
              used < |chunk| && Faultless(decoder.consumed, decoder.limit)
              && Fault(decoder.consumed, chunk[used], decoder.limit) == fault
  {
    hide *;
    events := [];
    var next := 0;
    ghost var start := decoder.consumed;
    while true
      invariant decoder.Valid() && next <= |chunk|
      invariant decoder.consumed == start + chunk[..next]
      invariant Events(decoder.consumed) == Events(start) + events
      decreases |chunk| - next
    {
      ghost var done := next;
      var r;
      r, next := decoder.NextEvent(chunk, next);
      if r.Err? {
        assert chunk[..done] + chunk[done..next - 1] == chunk[..next - 1];
        return events, Some(r.error), next - 1;
      }
      assert chunk[..done] + chunk[done..next] == chunk[..next];
      events := events + Emitted(r.value);
      if r.value.None? {
        return events, None, next;
      }
    }
  }

  /** The read loop of the managed stream: every chunk is drained before the next is
      taken, and the first fault ends the run. However the stream is cut, the outcome
      is that of the whole stream. */
  method Drain(chunks: seq<Bytes>, limit: nat)
    returns (events: seq<Event>, fault: Option<Error>, finished: bool)
    requires limit > 0
    ensures Decodes(Flatten(chunks), limit, events, fault)
    ensures finished <==> fault == None && Complete(Flatten(chunks))
  {
    assert Events([]) == [];
    assert chunks[0..] == chunks;
    ghost var stream := Flatten(chunks);
    hide *;
    var decoder := new SseDecoder(limit);
    events := [];
    var k := 0;
    while k < |chunks|
      invariant k <= |chunks|
      invariant decoder.Valid() && fresh(decoder) && decoder.limit == limit
      invariant decoder.consumed + Flatten(chunks[k..]) == stream
      invariant events == Events(decoder.consumed)
    {
      ghost var start := decoder.consumed;
      var more, failed, used := DrainChunk(decoder, chunks[k]);
      events := events + more;
      FlattenFrom(chunks, k);
      if failed.Some? {
        CutChunk(start, chunks[k], used, Flatten(chunks[k + 1..]));
        DecodesTo(stream, limit, decoder.consumed, chunks[k][used],
                  chunks[k][used + 1..] + Flatten(chunks[k + 1..]));
        return events, failed, false;
      }
      AppendChunk(start, chunks[k], Flatten(chunks[k + 1..]));
      k := k + 1;
    }
    FlattenFrom(chunks, |chunks|);
    assert decoder.consumed + [] == decoder.consumed == stream;
    var end := decoder.Finish();
    DecodesAll(stream, limit);
    return events, None, end.Ok?;
  }

  lemma CutChunk(start: Bytes, chunk: Bytes, used: nat, later: Bytes)
    requires used < |chunk|
    ensures start + (chunk + later) == start + chunk[..used] + [chunk[used]] + (chunk[used + 1..] + later)
  {
  }

  lemma AppendChunk(start: Bytes, chunk: Bytes, later: Bytes)
    ensures start + (chunk + later) == start + chunk[..|chunk|] + later
  {
  }

  lemma FlattenFrom(chunks: seq<Bytes>, k: nat)
    requires k <= |chunks|
    ensures Flatten(chunks[k..]) == if k < |chunks| then chunks[k] + Flatten(chunks[k + 1..]) else []
  {
  }

  lemma DecodesAll(s: Bytes, limit: nat)
    ensures Faultless(s, limit) ==> Decodes(s, limit, Events(s), None)
  {
  }
}
