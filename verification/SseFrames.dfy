/** The frames that the managed stream prints (src/proxy_managed.rs, numbered) and the
    proof that the decoder reads them back. */
module SseFrames {
  import opened Common
  import opened SseSpec
  import SseDecoding
  import Utf8

  /** A frame's type line and JSON text. */
  datatype Frame = Frame(kind: Bytes, json: Bytes)

  const EVENT_PREFIX: Bytes := EVENT + [COLON, SPACE]
  const DATA_PREFIX: Bytes := DATA + [COLON, SPACE]

  function EventLine(f: Frame): Bytes { EVENT_PREFIX + f.kind }
  function DataLine(f: Frame): Bytes { DATA_PREFIX + f.json }

  function Print(f: Frame): Bytes {
    EventLine(f) + [LF] + DataLine(f) + [LF] + [LF]
  }

  function PrintAll(frames: seq<Frame>): Bytes {
    if frames == [] then [] else PrintAll(frames[..|frames| - 1]) + Print(frames[|frames| - 1])
  }

  /** serde_json escapes control characters, so JSON text has no line terminator. */
  predicate Printable(f: Frame) {
    f.kind != [] && NoEol(f.kind) && NoEol(f.json) && Utf8.Valid(f.kind) && Utf8.Valid(f.json)
  }

  predicate AllPrintable(frames: seq<Frame>) {
    forall i :: 0 <= i < |frames| ==> Printable(frames[i])
  }

  /** The smallest limit under which a decoder can read the frame. */
  function Need(f: Frame): nat {
    var header, body := |EventLine(f)|, |f.kind| + |DataLine(f)|;
    if header < body then body else header
  }

  predicate AllFit(frames: seq<Frame>, limit: nat) {
    forall i :: 0 <= i < |frames| ==> Need(frames[i]) <= limit
  }

  function Expected(frames: seq<Frame>): seq<Event> {
    seq(|frames|, i requires 0 <= i < |frames| => Event(frames[i].kind, frames[i].json))
  }

  /** Between two frames: no open line, no open block. */
  predicate AtRest(s: Bytes) {
    Tail(s) == [] && Open(s) == [] && !EndsWithCr(s)
  }

  // ----- Reading a line -----

  lemma {:induction false} PushText(s: Bytes, u: Bytes)
    requires NoEol(u)
    ensures Lines(s + u) == Lines(s) && Tail(s + u) == Tail(s) + u
    ensures Events(s + u) == Events(s) && Open(s + u) == Open(s)
    decreases |u|
  {
    hide Lines, Tail, Events, Open;
    if u == [] {
      assert s + u == s && Tail(s) + u == Tail(s);
    } else {
      var v, b := u[..|u| - 1], u[|u| - 1];
      assert u == v + [b] && s + u == (s + v) + [b];
      PushText(s, v);
      LinesAppend(s + v, b);
      LineStays(s + v, b);
      assert Tail(s) + u == Tail(s) + v + [b];
    }
  }

  /** A text can be pushed without a fault exactly when it fits beside what is kept. */
  lemma {:induction false} PushFaults(s: Bytes, u: Bytes, limit: nat)
    requires NoEol(u) && Faultless(s, limit)
    ensures Faultless(s + u, limit) <==> u == [] || Retained(s) + |u| <= limit
    decreases |u|
  {
    hide Faultless, Lines, Tail, Events, Open, Buffer, DataValues, Kind;
    if u == [] {
      assert s + u == s;
    } else {
      var v, b := u[..|u| - 1], u[|u| - 1];
      assert u == v + [b] && s + u == (s + v) + [b];
      PushFaults(s, v, limit);
      PushText(s, v);
      if Faultless(s + v, limit) {
        FaultlessAppend(s + v, b, limit);
      } else {
        FaultlessPrefix(s + v, b, limit);
      }
    }
  }

  lemma FaultlessPrefix(s: Bytes, b: Byte, limit: nat)
    requires !Faultless(s, limit)
    ensures !Faultless(s + [b], limit)
  {
    var i :| 0 <= i < |s| && Fault(s[..i], s[i], limit) != None;
    assert (s + [b])[..i] == s[..i] && (s + [b])[i] == s[i];
  }

  /** From rest, a non-empty line that does not open with a byte order mark. */
  lemma ReadLine(s: Bytes, u: Bytes, limit: nat)
    requires Tail(s) == [] && !EndsWithCr(s)
    requires NoEol(u) && u != [] && u[0] != BOM[0] && Utf8.Valid(u)
    ensures var t := s + u + [LF];
            Tail(t) == [] && !EndsWithCr(t) && Events(t) == Events(s) && Open(t) == Open(s) + [u]
    ensures Faultless(s, limit) ==>
              (Faultless(s + u + [LF], limit) <==> Retained(s) + |u| <= limit)
    ensures !Faultless(s, limit) ==> !Faultless(s + u + [LF], limit)
  {
    hide Faultless, Lines, Tail, Events, Open, Utf8.Valid;
    PushText(s, u);
    var r := s + u;
    assert r[|r| - 1] == u[|u| - 1];
    assert [] + u == u;
    assert ClosingText(r) == u;
    LineCloses(r, LF);
    assert (r + [LF])[|r|] == LF;
    if Faultless(s, limit) {
      PushFaults(s, u, limit);
    } else {
      FaultlessLonger(s, u, limit);
    }
    if Faultless(r, limit) {
      FaultlessAppend(r, LF, limit);
    } else {
      FaultlessPrefix(r, LF, limit);
    }
  }

  lemma {:induction false} FaultlessLonger(s: Bytes, u: Bytes, limit: nat)
    requires !Faultless(s, limit)
    ensures !Faultless(s + u, limit)
    decreases |u|
  {
    if u == [] {
      assert s + u == s;
    } else {
      var v, b := u[..|u| - 1], u[|u| - 1];
      assert s + u == (s + v) + [b];
      FaultlessLonger(s, v, limit);
      FaultlessPrefix(s + v, b, limit);
    }
  }

  /** The blank line behind a frame. */
  lemma ReadBlank(s: Bytes, limit: nat)
    requires Tail(s) == [] && !EndsWithCr(s)
    ensures var t := s + [LF];
            AtRest(t) && Events(t) == Events(s) + Dispatch(Open(s))
    ensures Faultless(s + [LF], limit) <==> Faultless(s, limit)
  {
    hide Faultless, Lines, Tail, Events, Open, Dispatch;
    LineCloses(s, LF);
    assert ClosingText(s) == [];
    assert (s + [LF])[|s|] == LF;
    if Faultless(s, limit) {
      FaultlessAppend(s, LF, limit);
    } else {
      FaultlessPrefix(s, LF, limit);
    }
  }

  // ----- Reading a frame -----

  lemma FieldOf(name: Bytes, value: Bytes)
    requires name == EVENT || name == DATA
    ensures FieldName(name + [COLON, SPACE] + value) == name
    ensures FieldValue(name + [COLON, SPACE] + value) == value
  {
    var line := name + [COLON, SPACE] + value;
    assert line[|name|] == COLON && line[|name| + 1] == SPACE;
    assert forall i :: 0 <= i < |name| ==> line[i] == name[i] != COLON;
    ColonUnique(line, |name|);
    assert line[|name| + 2..] == value;
  }

  lemma ColonUnique(line: Bytes, c: nat)
    requires c < |line| && line[c] == COLON && forall i :: 0 <= i < c ==> line[i] != COLON
    ensures ColonAt(line) == c
  {
  }

  lemma FrameBlock(f: Frame)
    requires f.kind != []
    ensures Dispatch([EventLine(f), DataLine(f)]) == [Event(f.kind, f.json)]
    ensures Kind([EventLine(f)]) == f.kind && DataValues([EventLine(f)]) == []
  {
    hide FieldName, FieldValue;
    var header, block := [EventLine(f)], [EventLine(f), DataLine(f)];
    FieldOf(EVENT, f.kind);
    FieldOf(DATA, f.json);
    assert [] + header == header && header + [DataLine(f)] == block;
    assert block[..1] == header && header[..0] == [];
    assert |EVENT| != |DATA|;
    assert DataValues(header) == [] && DataValues(block) == [f.json];
    assert Kind(header) == f.kind && Kind(block) == f.kind;
    assert JoinLf([f.json]) == f.json;
  }

  lemma LinesPrintable(f: Frame)
    requires Printable(f)
    ensures NoEol(EventLine(f)) && NoEol(DataLine(f))
    ensures Utf8.Valid(EventLine(f)) && Utf8.Valid(DataLine(f))
  {
    Utf8.AsciiPrefix(EVENT_PREFIX, f.kind);
    Utf8.AsciiPrefix(DATA_PREFIX, f.json);
  }

  /** One printed frame adds exactly its own event, and needs exactly `Need(f)` bytes. */
  lemma ReadFrame(s: Bytes, f: Frame, limit: nat)
    requires AtRest(s) && Printable(f)
    ensures AtRest(s + Print(f)) && Events(s + Print(f)) == Events(s) + [Event(f.kind, f.json)]
    ensures Faultless(s + Print(f), limit) <==> Faultless(s, limit) && Need(f) <= limit
  {
    hide Faultless, Lines, Tail, Events, Open, Dispatch, Utf8.Valid, DataValues, Kind, NoEol;
    LinesPrintable(f);
    FrameBlock(f);
    var t := s + EventLine(f) + [LF];
    ReadLine(s, EventLine(f), limit);
    assert [] + [EventLine(f)] == [EventLine(f)];
    var u := t + DataLine(f) + [LF];
    ReadLine(t, DataLine(f), limit);
    assert [EventLine(f)] + [DataLine(f)] == [EventLine(f), DataLine(f)];
    ReadBlank(u, limit);
    assert s + Print(f) == u + [LF];
    RetainedAtRest(s);
    RetainedAfterHeader(t, f);
  }

  lemma RetainedAtRest(s: Bytes)
    requires AtRest(s)
    ensures Retained(s) == 0
  {
    EmptyBlock();
  }

  lemma RetainedAfterHeader(t: Bytes, f: Frame)
    requires Tail(t) == [] && Open(t) == [EventLine(f)] && f.kind != []
    ensures Retained(t) == |f.kind|
  {
    hide Tail, Open;
    FrameBlock(f);
    EmptyBlock();
  }

  /** Decoding undoes printing: for any frames, the printed stream reads back as those
      frames, ends complete, and is free of faults exactly when every frame fits. */
  lemma {:induction false} PrintedFramesRead(frames: seq<Frame>, limit: nat)
    requires AllPrintable(frames)
    ensures AtRest(PrintAll(frames)) && SseDecoding.Complete(PrintAll(frames))
    ensures Events(PrintAll(frames)) == Expected(frames)
    ensures Faultless(PrintAll(frames), limit) <==> AllFit(frames, limit)
  {
    hide Events, Open, Tail, Need, Printable, Faultless, Print, SseDecoding.Complete, AtRest, AllFit, Expected;
    if frames == [] {
      NoFrames(frames, limit);
    } else {
      var n := |frames| - 1;
      var before, f := frames[..n], frames[n];
      PrintedFramesRead(before, limit);
      ReadFrame(PrintAll(before), f, limit);
      ExpectedSplit(frames);
      FitsSplit(frames, limit);
    }
    RestIsComplete(PrintAll(frames));
  }

  lemma NoFrames(frames: seq<Frame>, limit: nat)
    requires frames == []
    ensures AtRest([]) && Events([]) == Expected(frames) && Faultless([], limit) && AllFit(frames, limit)
  {
    NothingLeft();
  }

  lemma RestIsComplete(s: Bytes)
    ensures AtRest(s) ==> SseDecoding.Complete(s)
  {
    EmptyBlock();
  }

  lemma ExpectedSplit(frames: seq<Frame>)
    requires frames != []
    ensures var n := |frames| - 1;
            Expected(frames) == Expected(frames[..n]) + [Event(frames[n].kind, frames[n].json)]
  {
  }

  lemma FitsSplit(frames: seq<Frame>, limit: nat)
    requires frames != []
    ensures AllFit(frames, limit) <==>
              AllFit(frames[..|frames| - 1], limit) && Need(frames[|frames| - 1]) <= limit
  {
  }

  /** Whatever the chunking, the decoder's outcome on printed frames: SseDecoding.Drain
      promises `Decodes` for the concatenation of its chunks. */
  lemma PrintedFramesDecode(frames: seq<Frame>, limit: nat, events: seq<Event>, fault: Option<Error>)
    requires AllPrintable(frames) && Decodes(PrintAll(frames), limit, events, fault)
    ensures fault == None <==> AllFit(frames, limit)
    ensures fault == None ==> events == Expected(frames)
  {
    PrintedFramesRead(frames, limit);
    DecodesFaultless(PrintAll(frames), limit, events, fault);
  }

  /** The round trip as a reader sees it: however the printed stream is cut, draining it gives
      the frames back and ends cleanly, exactly when each frame fits. */
  method DrainPrinted(frames: seq<Frame>, chunks: seq<Bytes>, limit: nat)
    returns (events: seq<Event>, fault: Option<Error>, finished: bool)
    requires limit > 0 && AllPrintable(frames) && Flatten(chunks) == PrintAll(frames)
    ensures finished <==> AllFit(frames, limit)
    ensures finished ==> fault == None && events == Expected(frames)
  {
    hide *;
    events, fault, finished := SseDecoding.Drain(chunks, limit);
    PrintedFramesDecode(frames, limit, events, fault);
    PrintedFramesRead(frames, limit);
  }

  lemma DecodesFaultless(s: Bytes, limit: nat, events: seq<Event>, fault: Option<Error>)
    requires Decodes(s, limit, events, fault)
    ensures fault == None <==> Faultless(s, limit)
    ensures fault == None ==> events == Events(s)
  {
  }
}
