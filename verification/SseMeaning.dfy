/** What a block of a server-sent event stream means, byte by byte: the field lines of section
    9.2.6 of the WHATWG HTML Standard, written out, under each of the three line terminators. */
module SseMeaning {
  import opened Common
  import opened SseSpec
  import SseDecoding
  import SseFrames
  import Utf8

  /** A line of a block: a data field, an event field, a field of another name, a comment, or a
      bare name without a colon. */
  datatype Field = Data(value: Bytes) | Type(value: Bytes) | Unknown(name: Bytes, value: Bytes) | Comment(text: Bytes)
                 | BareData | BareType

  /** "data: ", "event: " and so on, as bytes. */
  function Written(f: Field): Bytes {
    match f
    case Data(value) => [100, 97, 116, 97, 58, 32] + value
    case Type(value) => [101, 118, 101, 110, 116, 58, 32] + value
    case Unknown(name, value) => name + [58, 32] + value
    case Comment(text) => [58] + text
    case BareData => [100, 97, 116, 97]
    case BareType => [101, 118, 101, 110, 116]
  }

  predicate Terminator(eol: Bytes) {
    eol == [10] || eol == [13] || eol == [13, 10]
  }

  predicate OneLine(text: Bytes) {
    (forall i :: 0 <= i < |text| ==> text[i] != 10 && text[i] != 13) && Utf8.Valid(text)
  }

  predicate WellFormed(f: Field) {
    match f
    case Data(value) => OneLine(value)
    case Type(value) => OneLine(value)
    case Unknown(name, value) =>
      && name != [] && (forall i :: 0 <= i < |name| ==> name[i] < 128 && name[i] != 58)
      && name != [100, 97, 116, 97] && name != [101, 118, 101, 110, 116]
      && OneLine(name) && OneLine(value)
    case Comment(text) => OneLine(text)
    case _ => true
  }

  /** The lines of a block, each with the same terminator. */
  function Block(fields: seq<Field>, eol: Bytes): Bytes {
    if fields == [] then [] else Block(fields[..|fields| - 1], eol) + Written(fields[|fields| - 1]) + eol
  }

  // ----- What the fields say -----

  predicate CarriesData(f: Field) {
    f.Data? || f.BareData?
  }

  function ValueOf(f: Field): Bytes {
    if f.Data? || f.Type? then f.value else []
  }

  /** The values of the data fields, a line feed between them. */
  function DataOf(fields: seq<Field>): Option<Bytes> {
    if fields == [] then None
    else
      var before, last := DataOf(fields[..|fields| - 1]), fields[|fields| - 1];
      if !CarriesData(last) then before
      else Some((if before.Some? then before.value + [10] else []) + ValueOf(last))
  }

  /** The last event field, or "message" if there is none or it is empty. */
  function TypeOf(fields: seq<Field>): Bytes {
    var type_ := LastType(fields);
    if type_ == [] then [109, 101, 115, 115, 97, 103, 101] else type_
  }

  function LastType(fields: seq<Field>): Bytes {
    if fields == [] then []
    else
      var last := fields[|fields| - 1];
      if last.Type? || last.BareType? then ValueOf(last) else LastType(fields[..|fields| - 1])
  }

  // ----- Lines -----

  lemma WrittenIsOneLine(f: Field)
    requires WellFormed(f)
    ensures Written(f) != [] && NoEol(Written(f)) && Utf8.Valid(Written(f)) && Written(f)[0] != BOM[0]
  {
    hide Utf8.Valid;
    match f
    case Data(value) => Utf8.AsciiPrefix([100, 97, 116, 97, 58, 32], value);
    case Type(value) => Utf8.AsciiPrefix([101, 118, 101, 110, 116, 58, 32], value);
    case Unknown(name, value) => Utf8.AsciiPrefix(name + [58, 32], value);
    case Comment(text) => Utf8.AsciiPrefix([58], text);
    case BareData => AsciiIsValid([100, 97, 116, 97]);
    case BareType => AsciiIsValid([101, 118, 101, 110, 116]);
  }

  lemma AsciiIsValid(s: Bytes)
    requires Utf8.Ascii(s)
    ensures Utf8.Valid(s)
  {
    Utf8.AsciiPrefix(s, []);
    assert s + [] == s;
  }

  lemma NameAt(line: Bytes, c: nat)
    requires c <= |line| && (c < |line| ==> line[c] == COLON) && forall i :: 0 <= i < c ==> line[i] != COLON
    ensures ColonAt(line) == c
  {
  }

  lemma NamedField(name: Bytes, value: Bytes)
    requires forall i :: 0 <= i < |name| ==> name[i] != COLON
    ensures FieldName(name + [58, 32] + value) == name && FieldValue(name + [58, 32] + value) == value
  {
    var line := name + [58, 32] + value;
    NameAt(line, |name|);
    assert line[..|name|] == name && line[|name| + 1..][1..] == value;
  }

  lemma BareField(name: Bytes)
    requires forall i :: 0 <= i < |name| ==> name[i] != COLON
    ensures FieldName(name) == name && FieldValue(name) == []
  {
    NameAt(name, |name|);
    assert name[..|name|] == name;
  }

  lemma CommentField(text: Bytes)
    ensures FieldName([58] + text) == []
  {
    NameAt([58] + text, 0);
  }

  /** Name and value of a written line, as the reader takes them apart. */
  lemma TakenApart(f: Field)
    requires WellFormed(f)
    ensures FieldName(Written(f)) == DATA <==> CarriesData(f)
    ensures FieldName(Written(f)) == EVENT <==> f.Type? || f.BareType?
    ensures CarriesData(f) || f.Type? || f.BareType? ==> FieldValue(Written(f)) == ValueOf(f)
  {
    hide Utf8.Valid, OneLine, FieldName, FieldValue;
    match f
    case Data(value) =>
      NamedField(DATA, value);
      assert Written(f) == DATA + [58, 32] + value;
    case Type(value) =>
      NamedField(EVENT, value);
      assert Written(f) == EVENT + [58, 32] + value;
    case Unknown(name, value) => NamedField(name, value);
    case Comment(text) => CommentField(text);
    case BareData => BareField(DATA);
    case BareType => BareField(EVENT);
  }

  function WrittenLines(fields: seq<Field>): seq<Bytes> {
    if fields == [] then [] else WrittenLines(fields[..|fields| - 1]) + [Written(fields[|fields| - 1])]
  }

  lemma {:induction false} KindOfLines(fields: seq<Field>)
    requires forall i :: 0 <= i < |fields| ==> WellFormed(fields[i])
    ensures Kind(WrittenLines(fields)) == LastType(fields)
  {
    hide Written, FieldName, FieldValue, WellFormed;
    if fields != [] {
      var front, last := fields[..|fields| - 1], fields[|fields| - 1];
      KindOfLines(front);
      TakenApart(last);
      assert WrittenLines(fields)[..|WrittenLines(fields)| - 1] == WrittenLines(front);
    }
  }

  lemma {:induction false} DataOfLines(fields: seq<Field>)
    requires forall i :: 0 <= i < |fields| ==> WellFormed(fields[i])
    ensures var values := DataValues(WrittenLines(fields));
            DataOf(fields) == if values == [] then None else Some(JoinLf(values))
  {
    hide Written, FieldName, FieldValue, WellFormed;
    if fields != [] {
      var front, last := fields[..|fields| - 1], fields[|fields| - 1];
      DataOfLines(front);
      TakenApart(last);
      var lines := WrittenLines(fields);
      assert lines[..|lines| - 1] == WrittenLines(front) && lines[|lines| - 1] == Written(last);
      var values := DataValues(WrittenLines(front));
      if CarriesData(last) {
        var value := ValueOf(last);
        assert DataValues(lines) == values + [value];
        if values != [] {
          JoinAppend(values, value);
        } else {
          assert values + [value] == [value] && [] + value == value;
        }
      } else {
        assert DataValues(lines) == values + [] == values;
      }
    }
  }

  // ----- Streams -----

  /** Nothing of a line or block is open. */
  predicate Idle(s: Bytes) {
    Tail(s) == [] && Open(s) == []
  }

  lemma ReadTerminated(s: Bytes, u: Bytes, eol: Bytes)
    requires Tail(s) == [] && NoEol(u) && u != [] && u[0] != BOM[0] && Terminator(eol)
    ensures var t := s + u + eol;
            Tail(t) == [] && Events(t) == Events(s) && Open(t) == Open(s) + [u] && (EndsWithCr(t) <==> eol == [13])
  {
    hide Lines, Tail, Events, Open;
    SseFrames.PushText(s, u);
    var r := s + u;
    assert r[|r| - 1] == u[|u| - 1] && [] + u == u;
    assert ClosingText(r) == u;
    LineCloses(r, eol[0]);
    var t := r + [eol[0]];
    assert t[|r|] == eol[0];
    if eol == [13, 10] {
      LineStays(t, 10);
      LinesAppend(t, 10);
      assert (t + [10])[|t|] == 10 && r + eol == t + [10];
    } else {
      assert eol == [eol[0]];
    }
  }

  lemma {:induction false} ReadLines(s: Bytes, fields: seq<Field>, eol: Bytes)
    requires Idle(s) && Terminator(eol) && forall i :: 0 <= i < |fields| ==> WellFormed(fields[i])
    ensures var t := s + Block(fields, eol);
            Tail(t) == [] && Events(t) == Events(s) && Open(t) == WrittenLines(fields)
    ensures fields != [] ==> (EndsWithCr(s + Block(fields, eol)) <==> eol == [13])
  {
    hide Lines, Tail, Events, Open, Written, WellFormed, NoEol, EndsWithCr, Utf8.Valid;
    if fields == [] {
      assert s + Block(fields, eol) == s;
    } else {
      var front, last := fields[..|fields| - 1], fields[|fields| - 1];
      ReadLines(s, front, eol);
      WrittenIsOneLine(last);
      var t := s + Block(front, eol);
      ReadTerminated(t, Written(last), eol);
      assert t + Written(last) + eol == s + Block(fields, eol);
    }
  }

  lemma ReadEnd(s: Bytes, eol: Bytes)
    requires Tail(s) == [] && Terminator(eol) && (eol == [10] ==> !EndsWithCr(s))
    ensures Idle(s + eol) && Events(s + eol) == Events(s) + Dispatch(Open(s))
  {
    hide Lines, Tail, Events, Open, Dispatch;
    assert ClosingText(s) == [];
    LineCloses(s, eol[0]);
    var t := s + [eol[0]];
    assert t[|s|] == eol[0];
    if eol == [13, 10] {
      LineStays(t, 10);
      LinesAppend(t, 10);
      assert s + eol == t + [10];
    } else {
      assert eol == [eol[0]];
    }
  }

  /** A block with data adds one event: its data values with a line feed between them, under the
      last type it names, or "message" without one. A block without data adds nothing. Comments and
      other fields make no difference, and neither does the terminator. */
  lemma BlockMeans(s: Bytes, fields: seq<Field>, eol: Bytes)
    requires Idle(s) && Terminator(eol) && fields != [] && forall i :: 0 <= i < |fields| ==> WellFormed(fields[i])
    ensures Idle(s + Block(fields, eol) + eol)
    ensures Events(s + Block(fields, eol) + eol)
            == Events(s) + if DataOf(fields).Some? then [Event(TypeOf(fields), DataOf(fields).value)] else []
  {
    hide Lines, Tail, Events, Open, WellFormed, Kind, DataValues, JoinLf, WrittenLines, LastType, DataOf;
    ReadLines(s, fields, eol);
    ReadEnd(s + Block(fields, eol), eol);
    KindOfLines(fields);
    DataOfLines(fields);
  }

  // ----- The plain cases, written out -----

  /** A chunk without an event line is a "message". */
  lemma DefaultType(s: Bytes, v: Bytes)
    requires Idle(s) && !EndsWithCr(s) && OneLine(v)
    ensures Events(s + [100, 97, 116, 97, 58, 32] + v + [10, 10])
            == Events(s) + [Event([109, 101, 115, 115, 97, 103, 101], v)]
  {
    hide Events, Idle, OneLine, Written, DataOf, LastType, Block, EndsWithCr;
    var f := Data(v);
    BlockMeans(s, [f], [10]);
    SaidByOne(f);
    WrittenAs([], v);
    assert s + [100, 97, 116, 97, 58, 32] + v + [10, 10] == s + Block([f], [10]) + [10];
  }

  lemma SaidByOne(f: Field)
    requires f.Data?
    ensures Block([f], [10]) == Written(f) + [10] && DataOf([f]) == Some(f.value) && LastType([f]) == []
  {
    hide Written;
    assert [f][..0] == [] && [] + f.value == f.value && [] + Written(f) == Written(f);
  }

  /** So is a chunk whose last event line is empty, whatever was named before. */
  lemma EmptyTypeIsDefault(s: Bytes, k: Bytes, v: Bytes)
    requires Idle(s) && !EndsWithCr(s) && OneLine(k) && OneLine(v)
    ensures Events(s + ([101, 118, 101, 110, 116, 58, 32] + k + [10]) + ([101, 118, 101, 110, 116, 58, 32] + [10])
                     + ([100, 97, 116, 97, 58, 32] + v + [10]) + [10])
            == Events(s) + [Event([109, 101, 115, 115, 97, 103, 101], v)]
  {
    hide Events, Idle, OneLine, Written, DataOf, LastType, Block;
    var a, b, c := Type(k), Type([]), Data(v);
    NothingIsOneLine();
    var fields := [a, b, c];
    BlockMeans(s, fields, [10]);
    BlockOfThree(a, b, c);
    SaidByThree(a, b, c);
    WrittenAs(k, v);
    assert s + (Written(a) + [10]) + (Written(b) + [10]) + (Written(c) + [10]) + [10] == s + Block(fields, [10]) + [10];
  }

  lemma WrittenAs(k: Bytes, v: Bytes)
    ensures Written(Type(k)) == [101, 118, 101, 110, 116, 58, 32] + k
    ensures Written(Type([])) == [101, 118, 101, 110, 116, 58, 32]
    ensures Written(Data(v)) == [100, 97, 116, 97, 58, 32] + v
  {
    assert [101, 118, 101, 110, 116, 58, 32] + [] == [101, 118, 101, 110, 116, 58, 32];
  }

  lemma SaidByThree(a: Field, b: Field, c: Field)
    requires a.Type? && b == Type([]) && c.Data?
    ensures DataOf([a, b, c]) == Some(c.value) && LastType([a, b, c]) == []
  {
    var fields := [a, b, c];
    assert fields[..2] == [a, b] && [a, b][..1] == [a] && [a][..0] == [];
    assert DataOf([a]) == None && DataOf([a, b]) == None && [] + c.value == c.value;
    assert LastType([a, b]) == [];
  }

  lemma NothingIsOneLine()
    ensures OneLine([])
  {
  }

  lemma BlockOfThree(a: Field, b: Field, c: Field)
    ensures Block([a, b, c], [10]) == (Written(a) + [10]) + (Written(b) + [10]) + (Written(c) + [10])
  {
    hide Written;
    assert [a, b, c][..2] == [a, b] && [a, b][..1] == [a] && [a][..0] == [];
    assert Block([a], [10]) == [] + Written(a) + [10];
  }

  lemma MarkedText(u: Bytes)
    requires NoEol(u) && u != []
    ensures var marked := [0xEF, 0xBB, 0xBF] + u;
            NoEol(marked) && StripBom(marked) == u && !EndsWithCr(marked)
  {
    var marked := [0xEF, 0xBB, 0xBF] + u;
    assert marked[3..] == u && marked[|marked| - 1] == u[|u| - 1];
  }

  lemma MarkedLine(u: Bytes)
    requires NoEol(u) && u != []
    ensures var t := [0xEF, 0xBB, 0xBF] + u + [10];
            Tail(t) == [] && Events(t) == [] && Open(t) == [u] && !EndsWithCr(t)
  {
    var marked := [0xEF, 0xBB, 0xBF] + u;
    MarkedText(u);
    hide Lines, Tail, Events, Open, StripBom, NoEol;
    NothingLeft();
    NothingOpen();
    SseFrames.PushText([], marked);
    assert [] + marked == marked;
    LineCloses(marked, 10);
    assert (marked + [10])[|marked|] == 10 && [] + [u] == [u];
  }

  /** A byte order mark before the first line is skipped. */
  lemma MarkIsSkipped(v: Bytes)
    requires OneLine(v)
    ensures Events([0xEF, 0xBB, 0xBF] + [100, 97, 116, 97, 58, 32] + v + [10, 10])
            == [Event([109, 101, 115, 115, 97, 103, 101], v)]
  {
    hide Tail, Events, Open, Dispatch, Utf8.Valid, NoEol, EndsWithCr, OneLine;
    var f := Data(v);
    WrittenIsOneLine(f);
    MarkedLine(Written(f));
    var t := [0xEF, 0xBB, 0xBF] + Written(f) + [10];
    ReadEnd(t, [10]);
    DispatchesOne(f);
    assert [0xEF, 0xBB, 0xBF] + [100, 97, 116, 97, 58, 32] + v + [10, 10] == t + [10];
    assert [] + Dispatch([Written(f)]) == Dispatch([Written(f)]);
  }

  lemma NothingOpen()
    ensures Open([]) == []
  {
    NothingLeft();
  }

  lemma DispatchesOne(f: Field)
    requires f.Data? && WellFormed(f)
    ensures Dispatch([Written(f)]) == [Event([109, 101, 115, 115, 97, 103, 101], f.value)]
  {
    hide Written, Utf8.Valid, FieldName, FieldValue;
    TakenApart(f);
    var line := [Written(f)];
    assert line[..0] == [] && line[0] == Written(f);
    assert DataValues(line) == [] + [f.value] == [f.value] && Kind(line) == [];
  }

  // ----- How a stream may end -----

  /** A stream may end behind the lines of a block exactly if they name neither data nor a type. */
  lemma EndsWellIff(s: Bytes, fields: seq<Field>, eol: Bytes)
    requires Idle(s) && Terminator(eol) && forall i :: 0 <= i < |fields| ==> WellFormed(fields[i])
    ensures SseDecoding.Complete(s + Block(fields, eol)) <==> DataOf(fields) == None && LastType(fields) == []
  {
    hide Lines, Tail, Events, Open, WellFormed, Kind, DataValues, JoinLf, WrittenLines, LastType, DataOf, Block;
    ReadLines(s, fields, eol);
    KindOfLines(fields);
    DataOfLines(fields);
  }

  /** It may not end inside a line. */
  lemma NotInsideLine(s: Bytes, u: Bytes)
    requires Idle(s) && NoEol(u) && u != []
    ensures !SseDecoding.Complete(s + u)
  {
    hide Lines, Tail, Events, Open;
    SseFrames.PushText(s, u);
    assert [] + u == u;
  }

  /** A line that is not UTF-8 is a fault of the byte that ends it. */
  lemma MalformedLineFaults(s: Bytes, u: Bytes, limit: nat, eol: Byte)
    requires Idle(s) && NoEol(u) && u != [] && u[0] != 0xEF && (eol == 10 || eol == 13) && !Utf8.Valid(u)
    ensures Fault(s + u, eol, limit) == Some(InvalidUtf8)
  {
    hide Lines, Tail, Events, Open, Utf8.Valid;
    SseFrames.PushText(s, u);
    var r := s + u;
    assert [] + u == u && r[|r| - 1] == u[|u| - 1];
  }
}
