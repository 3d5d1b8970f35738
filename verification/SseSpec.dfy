/** Server-sent events read as section 9.2.6 of the WHATWG HTML Standard describes them:
    the whole byte stream is cut into lines, the lines into blocks, and every block
    that carries data is one event. */
module SseSpec {
  import opened Common
  import Utf8

  const CR: Byte := 13
  const LF: Byte := 10
  const COLON: Byte := 58
  const SPACE: Byte := 32
  const EVENT: Bytes := [101, 118, 101, 110, 116]
  const DATA: Bytes := [100, 97, 116, 97]
  const MESSAGE: Bytes := [109, 101, 115, 115, 97, 103, 101]
  const BOM: Bytes := [0xEF, 0xBB, 0xBF]

  datatype Event = Event(kind: Bytes, data: Bytes)

  datatype Error = SizeLimit | InvalidUtf8 | InvalidEventOrder

  // ----- Lines -----

  predicate IsEol(b: Byte) {
    b == CR || b == LF
  }

  predicate NoEol(s: Bytes) {
    forall i :: 0 <= i < |s| ==> !IsEol(s[i])
  }

  /** Index of the first line terminator, or |s|. */
  function EolAt(s: Bytes): (e: nat)
    ensures e <= |s|
    ensures e < |s| ==> IsEol(s[e])
    ensures forall i :: 0 <= i < e ==> !IsEol(s[i])
  {
    if s == [] || IsEol(s[0]) then 0 else 1 + EolAt(s[1..])
  }

  /** CRLF counts as one terminator. */
  function AfterEol(s: Bytes, e: nat): (n: nat)
    requires e < |s|
    ensures e < n <= |s|
  {
    if s[e] == CR && e + 1 < |s| && s[e + 1] == LF then e + 2 else e + 1
  }

  /** The terminated lines of `s`. */
  function Lines(s: Bytes): seq<Bytes>
    decreases |s|
  {
    var e := EolAt(s);
    if e == |s| then [] else [s[..e]] + Lines(s[AfterEol(s, e)..])
  }

  /** What follows the last terminator. */
  function Tail(s: Bytes): Bytes
    decreases |s|
  {
    var e := EolAt(s);
    if e == |s| then s else Tail(s[AfterEol(s, e)..])
  }

  predicate EndsWithCr(s: Bytes) {
    s != [] && s[|s| - 1] == CR
  }

  function StripBom(line: Bytes): Bytes {
    if BOM <= line then line[3..] else line
  }

  /** The text of every line: only the first may open with a byte order mark. */
  function Texts(lines: seq<Bytes>): seq<Bytes> {
    if lines == [] then [] else [StripBom(lines[0])] + lines[1..]
  }

  // ----- Fields -----

  function ColonAt(line: Bytes): (c: nat)
    ensures c <= |line|
    ensures c < |line| ==> line[c] == COLON
    ensures forall i :: 0 <= i < c ==> line[i] != COLON
  {
    if line == [] || line[0] == COLON then 0 else 1 + ColonAt(line[1..])
  }

  function FieldName(line: Bytes): Bytes {
    line[..ColonAt(line)]
  }

  /** The value after the colon, without one leading space. */
  function FieldValue(line: Bytes): (v: Bytes)
    ensures |FieldName(line)| + |v| <= |line|
  {
    var c := ColonAt(line);
    var raw := if c < |line| then line[c + 1..] else [];
    if raw != [] && raw[0] == SPACE then raw[1..] else raw
  }

  // ----- Blocks -----

  function BlankAt(texts: seq<Bytes>): (k: nat)
    ensures k <= |texts|
    ensures k < |texts| ==> texts[k] == []
    ensures forall i :: 0 <= i < k ==> texts[i] != []
  {
    if texts == [] || texts[0] == [] then 0 else 1 + BlankAt(texts[1..])
  }

  /** The runs of lines that a blank line closes. */
  function Blocks(texts: seq<Bytes>): seq<seq<Bytes>> {
    var k := BlankAt(texts);
    if k == |texts| then [] else [texts[..k]] + Blocks(texts[k + 1..])
  }

  /** The lines behind the last blank line. */
  function OpenBlock(texts: seq<Bytes>): seq<Bytes> {
    var k := BlankAt(texts);
    if k == |texts| then texts else OpenBlock(texts[k + 1..])
  }

  function DataValues(block: seq<Bytes>): seq<Bytes> {
    if block == [] then []
    else
      var last := block[|block| - 1];
      DataValues(block[..|block| - 1])
      + if FieldName(last) == DATA then [FieldValue(last)] else []
  }

  /** The last event field wins. */
  function Kind(block: seq<Bytes>): Bytes {
    if block == [] then []
    else
      var last := block[|block| - 1];
      if FieldName(last) == EVENT then FieldValue(last) else Kind(block[..|block| - 1])
  }

  function JoinLf(values: seq<Bytes>): Bytes {
    if values == [] then []
    else if |values| == 1 then values[0]
    else values[0] + [LF] + JoinLf(values[1..])
  }

  function Dispatch(block: seq<Bytes>): seq<Event> {
    if DataValues(block) == [] then []
    else [Event(if Kind(block) == [] then MESSAGE else Kind(block), JoinLf(DataValues(block)))]
  }

  function DispatchAll(blocks: seq<seq<Bytes>>): seq<Event> {
    if blocks == [] then [] else Dispatch(blocks[0]) + DispatchAll(blocks[1..])
  }

  /** The events of a byte stream. */
  function Events(s: Bytes): seq<Event> {
    DispatchAll(Blocks(Texts(Lines(s))))
  }

  function Open(s: Bytes): seq<Bytes> {
    OpenBlock(Texts(Lines(s)))
  }

  // ----- What a bounded reader may keep -----

  function Buffer(values: seq<Bytes>): Bytes {
    if values == [] then [] else Buffer(values[..|values| - 1]) + values[|values| - 1] + [LF]
  }

  /** Bytes that a reader of `s` has to remember. */
  function Retained(s: Bytes): nat {
    |Tail(s)| + |Buffer(DataValues(Open(s)))| + |Kind(Open(s))|
  }

  /** The text of the line that a terminator behind `s` would close. */
  function ClosingText(s: Bytes): Bytes {
    if Lines(s) == [] then StripBom(Tail(s)) else Tail(s)
  }

  /** The error that byte `b` causes behind `s`. */
  function Fault(s: Bytes, b: Byte, limit: nat): Option<Error> {
    if IsEol(b) && !Closes(s, b) then None
    else if IsEol(b) then (if Utf8.Valid(ClosingText(s)) then None else Some(InvalidUtf8))
    else if Retained(s) >= limit then Some(SizeLimit)
    else None
  }

  predicate Faultless(s: Bytes, limit: nat) {
    forall i :: 0 <= i < |s| ==> Fault(s[..i], s[i], limit) == None
  }

  /** Events up to the first fault, and that fault. */
  ghost predicate Decodes(s: Bytes, limit: nat, events: seq<Event>, fault: Option<Error>) {
    match fault
    case None => Faultless(s, limit) && events == Events(s)
    case Some(_) =>
      exists i :: 0 <= i < |s| && Faultless(s[..i], limit) && events == Events(s[..i])
                  && Fault(s[..i], s[i], limit) == fault
  }

  /** A stream and a limit admit only one outcome. */
  lemma DecodesUnique(s: Bytes, limit: nat, e1: seq<Event>, f1: Option<Error>,
                      e2: seq<Event>, f2: Option<Error>)
    requires Decodes(s, limit, e1, f1) && Decodes(s, limit, e2, f2)
    ensures e1 == e2 && f1 == f2
  {
    hide Fault, Events;
    if f1.Some? && f2.Some? {
      var i :| 0 <= i < |s| && Faultless(s[..i], limit) && e1 == Events(s[..i])
               && Fault(s[..i], s[i], limit) == f1;
      var j :| 0 <= j < |s| && Faultless(s[..j], limit) && e2 == Events(s[..j])
               && Fault(s[..j], s[j], limit) == f2;
      if i < j {
        FaultlessAt(s, limit, i, j);
      } else if j < i {
        FaultlessAt(s, limit, j, i);
      }
    }
  }

  lemma DecodesTo(s: Bytes, limit: nat, prefix: Bytes, b: Byte, rest: Bytes)
    requires s == prefix + [b] + rest
    requires Faultless(prefix, limit) && Fault(prefix, b, limit).Some?
    ensures Decodes(s, limit, Events(prefix), Fault(prefix, b, limit))
  {
    assert s[..|prefix|] == prefix && s[|prefix|] == b;
  }

  lemma FaultlessAt(s: Bytes, limit: nat, i: nat, j: nat)
    requires i < j <= |s| && Faultless(s[..j], limit)
    ensures Fault(s[..i], s[i], limit) == None
  {
    assert s[..j][..i] == s[..i] && s[..j][i] == s[i];
  }

  // ----- One byte more -----

  /** Does `b` behind `s` close a line? The LF of a CRLF does not. */
  predicate Closes(s: Bytes, b: Byte) {
    IsEol(b) && !(b == LF && EndsWithCr(s))
  }

  /** `later` and `rest'` are `lines` and `rest` after one byte more. */
  predicate Grown(closes: bool, b: Byte, lines: seq<Bytes>, rest: Bytes, later: seq<Bytes>, rest': Bytes) {
    if closes then later == lines + [rest] && rest' == []
    else later == lines && rest' == if IsEol(b) then [] else rest + [b]
  }

  predicate GrowsBy(s: Bytes, b: Byte) {
    Grown(Closes(s, b), b, Lines(s), Tail(s), Lines(s + [b]), Tail(s + [b]))
  }

  lemma EolAppend(s: Bytes, b: Byte)
    ensures EolAt(s + [b]) == if EolAt(s) < |s| || IsEol(b) then EolAt(s) else |s| + 1
  {
    var t, e := s + [b], EolAt(s);
    assert forall i :: 0 <= i < |s| ==> t[i] == s[i];
    assert t[|s|] == b;
  }

  lemma FirstLineCloses(s: Bytes, b: Byte)
    requires EolAt(s) == |s| && IsEol(b)
    ensures Lines(s + [b]) == [s] && Tail(s + [b]) == []
  {
    hide Lines, Tail, EolAt;
    var t := s + [b];
    EolAppend(s, b);
    Unfold(t, |s|, |s| + 1);
    assert t[..|s|] == s && t[|s| + 1..] == [];
    NothingLeft();
  }

  lemma GrowsInFirstLine(s: Bytes, b: Byte)
    requires EolAt(s) == |s|
    ensures GrowsBy(s, b)
  {
    hide Lines, Tail, EolAt;
    OneLine(s);
    NoCr(s);
    if IsEol(b) {
      FirstLineCloses(s, b);
      assert [] + [s] == [s];
    } else {
      EolAppend(s, b);
      OneLine(s + [b]);
    }
  }

  lemma OneLine(s: Bytes)
    requires EolAt(s) == |s|
    ensures Lines(s) == [] && Tail(s) == s
  {
  }

  lemma NoCr(s: Bytes)
    requires EolAt(s) == |s|
    ensures !EndsWithCr(s)
  {
  }

  lemma NothingLeft()
    ensures Lines([]) == [] && Tail([]) == [] && Events([]) == []
  {
  }

  lemma Unfold(s: Bytes, e: nat, n: nat)
    requires e == EolAt(s) < |s| && n == AfterEol(s, e)
    ensures Lines(s) == [s[..e]] + Lines(s[n..]) && Tail(s) == Tail(s[n..])
  {
  }

  lemma GrownBehind(h: Bytes, closes: bool, b: Byte, lines: seq<Bytes>, rest: Bytes,
                    later: seq<Bytes>, rest': Bytes)
    requires Grown(closes, b, lines, rest, later, rest')
    ensures Grown(closes, b, [h] + lines, rest, [h] + later, rest')
  {
    if closes {
      assert [h] + later == [h] + lines + [rest];
    }
  }

  lemma {:induction false} LinesAppend(s: Bytes, b: Byte)
    ensures GrowsBy(s, b)
    decreases |s|
  {
    hide Lines, Tail, EolAt;
    var t, e := s + [b], EolAt(s);
    if e == |s| {
      GrowsInFirstLine(s, b);
    } else {
      var n, m := AfterEol(s, e), AfterEol(t, e);
      var r := s[n..];
      EolAppend(s, b);
      assert t[..e] == s[..e];
      Unfold(s, e, n);
      Unfold(t, e, m);
      if m == n {
        LinesAppend(r, b);
        assert t[n..] == r + [b];
        SameClosing(s, b, n);
        GrownBehind(s[..e], Closes(r, b), b, Lines(r), Tail(r), Lines(r + [b]), Tail(r + [b]));
      } else {
        assert r == [] && t[m..] == [];
        NothingLeft();
      }
    }
  }

  lemma SameClosing(s: Bytes, b: Byte, n: nat)
    requires n <= |s| && (n < |s| || (b == LF ==> !EndsWithCr(s)))
    ensures Closes(s[n..], b) == Closes(s, b)
  {
    if n < |s| {
      assert s[n..][|s| - n - 1] == s[|s| - 1];
    }
  }

  predicate BlockGrown(text: Bytes, blocks: seq<seq<Bytes>>, open: seq<Bytes>,
                       later: seq<seq<Bytes>>, open': seq<Bytes>) {
    if text == [] then later == blocks + [open] && open' == []
    else later == blocks && open' == open + [text]
  }

  lemma {:induction false} UnfoldBlocks(texts: seq<Bytes>, k: nat)
    requires k == BlankAt(texts) < |texts|
    ensures Blocks(texts) == [texts[..k]] + Blocks(texts[k + 1..])
    ensures OpenBlock(texts) == OpenBlock(texts[k + 1..])
  {
    hide BlankAt;
  }

  lemma BlockGrownBehind(h: seq<Bytes>, text: Bytes, blocks: seq<seq<Bytes>>, open: seq<Bytes>,
                         later: seq<seq<Bytes>>, open': seq<Bytes>)
    requires BlockGrown(text, blocks, open, later, open')
    ensures BlockGrown(text, [h] + blocks, open, [h] + later, open')
  {
    if text == [] {
      assert [h] + later == [h] + blocks + [open];
    }
  }

  lemma {:induction false} BlocksAppend(texts: seq<Bytes>, text: Bytes)
    ensures BlockGrown(text, Blocks(texts), OpenBlock(texts),
                       Blocks(texts + [text]), OpenBlock(texts + [text]))
  {
    var k := BlankAt(texts);
    var more := texts + [text];
    BlankAppend(texts, text);
    if k == |texts| {
      if text == [] {
        assert more[..k] == texts && more[k + 1..] == [];
      }
    } else {
      var rest := texts[k + 1..];
      assert more[..k] == texts[..k] && more[k + 1..] == rest + [text];
      BlocksAppend(rest, text);
      BlockGrownBehind(texts[..k], text, Blocks(rest), OpenBlock(rest),
                       Blocks(rest + [text]), OpenBlock(rest + [text]));
      UnfoldBlocks(texts, k);
      UnfoldBlocks(more, k);
    }
  }

  lemma BlankAppend(texts: seq<Bytes>, text: Bytes)
    ensures BlankAt(texts + [text])
            == if BlankAt(texts) < |texts| || text == [] then BlankAt(texts) else |texts| + 1
  {
    var more, k := texts + [text], BlankAt(texts);
    assert forall i :: 0 <= i < |texts| ==> more[i] == texts[i];
    assert more[|texts|] == text;
  }

  lemma {:induction false} DispatchAllAppend(blocks: seq<seq<Bytes>>, block: seq<Bytes>)
    ensures DispatchAll(blocks + [block]) == DispatchAll(blocks) + Dispatch(block)
  {
    hide Dispatch;
    if blocks == [] {
      assert blocks + [block] == [block];
    } else {
      var more := blocks + [block];
      assert more[1..] == blocks[1..] + [block] && more[0] == blocks[0];
      DispatchAllAppend(blocks[1..], block);
      assert DispatchAll(more) == Dispatch(blocks[0]) + DispatchAll(more[1..]);
    }
  }

  /** How the events and the open block grow when a line is closed. */
  lemma LineCloses(s: Bytes, b: Byte)
    requires Closes(s, b)
    ensures Tail(s + [b]) == [] && Lines(s + [b]) != []
    ensures ClosingText(s) == [] ==> Events(s + [b]) == Events(s) + Dispatch(Open(s)) && Open(s + [b]) == []
    ensures ClosingText(s) != [] ==> Events(s + [b]) == Events(s) && Open(s + [b]) == Open(s) + [ClosingText(s)]
  {
    hide Lines, Tail, DispatchAll, Blocks, OpenBlock, Dispatch;
    LinesAppend(s, b);
    var texts := Texts(Lines(s));
    assert Texts(Lines(s + [b])) == texts + [ClosingText(s)];
    BlocksAppend(texts, ClosingText(s));
    DispatchAllAppend(Blocks(texts), OpenBlock(texts));
  }

  lemma LineStays(s: Bytes, b: Byte)
    requires !Closes(s, b)
    ensures Events(s + [b]) == Events(s) && Open(s + [b]) == Open(s)
    ensures IsEol(b) ==> Tail(s) == []
  {
    hide Lines, Tail, DispatchAll, Blocks, OpenBlock;
    LinesAppend(s, b);
    if IsEol(b) {
      var n := |s| - 1;
      assert s == s[..n] + [CR];
      LinesAppend(s[..n], CR);
    }
  }

  /** The data buffer is non-empty exactly when there is data, and then it ends in the one
      LF that an event does not include. */
  lemma {:induction false} BufferIsJoin(values: seq<Bytes>)
    ensures values == [] <==> Buffer(values) == []
    ensures values != [] ==> Buffer(values) == JoinLf(values) + [LF]
  {
    if values == [] {
    } else if |values| == 1 {
      assert values[..0] == [] && values == [values[0]];
    } else {
      BufferIsJoin(values[..|values| - 1]);
      JoinAppend(values[..|values| - 1], values[|values| - 1]);
      assert values == values[..|values| - 1] + [values[|values| - 1]];
    }
  }

  lemma {:induction false} JoinAppend(values: seq<Bytes>, v: Bytes)
    requires values != []
    ensures JoinLf(values + [v]) == JoinLf(values) + [LF] + v
  {
    if |values| == 1 {
      assert values + [v] == [values[0], v];
    } else {
      assert (values + [v])[1..] == values[1..] + [v];
      JoinAppend(values[1..], v);
    }
  }

  lemma EmptyBlock()
    ensures DataValues([]) == [] && Buffer(DataValues([])) == [] && Kind([]) == []
  {
  }

  lemma BufferAppend(values: seq<Bytes>, v: Bytes)
    ensures Buffer(values + [v]) == Buffer(values) + (v + [LF])
  {
    assert (values + [v])[..|values|] == values;
  }

  /** One line more in the open block. */
  lemma BlockAppend(block: seq<Bytes>, text: Bytes)
    ensures Buffer(DataValues(block + [text]))
            == Buffer(DataValues(block)) + if FieldName(text) == DATA then FieldValue(text) + [LF] else []
    ensures DataValues(block + [text]) == [] <==> DataValues(block) == [] && FieldName(text) != DATA
    ensures Kind(block + [text]) == if FieldName(text) == EVENT then FieldValue(text) else Kind(block)
  {
    assert (block + [text])[..|block|] == block;
    if FieldName(text) == DATA {
      BufferAppend(DataValues(block), FieldValue(text));
    } else {
      assert DataValues(block + [text]) == DataValues(block);
    }
  }

  lemma FaultlessAppend(s: Bytes, b: Byte, limit: nat)
    requires Faultless(s, limit)
    ensures Faultless(s + [b], limit) <==> Fault(s, b, limit) == None
  {
    var t := s + [b];
    assert t[..|s|] == s;
    forall i | 0 <= i < |s| ensures t[..i] == s[..i] && t[i] == s[i] {}
  }
}
