/** The Messages encoder (src/adapters/messages.rs): adjacent roles are merged, every tool
    call is answered in the next user message, and content keeps its order. */
module Messages {
  import opened Common
  import opened Conversation

  datatype Block =
    | TextBlock(text: string)
    | ImageBlock(url: string)
    | ToolUse(id: string, name: string, input: string)
    | Result(id: string, text: string)
    | OpaqueBlock(payload: string)

  datatype Speaker = ByUser | ByAssistant

  datatype Msg = Msg(role: Speaker, content: seq<Block>)

  datatype Instruction = Instruction(role: Role, position: nat, content: seq<Block>)

  type Native = seq<Block>

  const HTTPS := "https://"

  function PartBlock(part: Part): Option<Block> {
    match part
    case TextPart(text) => Some(TextBlock(text))
    case ImagePart(url, detail) => if detail.None? && HTTPS <= url then Some(ImageBlock(url)) else None
    case ExtensionPart => None
  }

  function PartBlocks(parts: seq<Part>): Option<seq<Block>> {
    if parts == [] then Some([])
    else
      var before, last := PartBlocks(parts[..|parts| - 1]), PartBlock(parts[|parts| - 1]);
      if before.None? || last.None? then None else Some(before.value + [last.value])
  }

  function Blocks(content: Content): Option<seq<Block>> {
    match content
    case Text(text) => Some([TextBlock(text)])
    case Parts(parts) => PartBlocks(parts)
  }

  /** push_message: adjacent equal roles are one message. */
  function Push(messages: seq<Msg>, role: Speaker, blocks: seq<Block>): seq<Msg> {
    if messages != [] && messages[|messages| - 1].role == role
    then messages[|messages| - 1 := Msg(role, messages[|messages| - 1].content + blocks)]
    else messages + [Msg(role, blocks)]
  }

  datatype State = State(messages: seq<Msg>, pending: Pending, envelope: seq<Instruction>)

  predicate LastIs(messages: seq<Msg>, role: Speaker) {
    messages != [] && messages[|messages| - 1].role == role
  }

  /** One piece of the walk. `bridge`: instructions may be carried in an envelope. */
  function Apply(st: State, piece: Piece<Native>, bridge: bool): Common.Result<State, Error> {
    match piece
    case Span(calls, native, inBounds) =>
      if native.None? then Err(ContinuityMismatch)
      else if !inBounds || st.pending != map[] then Err(InvalidToolMapping)
      else Ok(st.(pending := Opened(st.pending, calls, true), messages := Push(st.messages, ByAssistant, native.value)))
    case Trailing(native) =>
      if native.None? then Err(ContinuityMismatch)
      else Ok(st.(messages := Push(st.messages, ByAssistant, native.value)))
    case Single(position, item) =>
      match item
      case Message(role, content) =>
        var blocks := Blocks(content);
        if role == System || role == Developer then
          if !bridge || st.messages != [] || blocks.None?
             || exists i :: 0 <= i < |blocks.value| && !blocks.value[i].TextBlock?
          then Err(Unsupported)
          else Ok(st.(envelope := st.envelope + [Instruction(role, position, blocks.value)]))
        else if st.pending != map[] && (role != Role.Assistant || !LastIs(st.messages, ByAssistant))
        then Err(InvalidToolMapping)
        else if blocks.None? then Err(Unsupported)
        else Ok(st.(messages := Push(st.messages, if role == Role.User then ByUser else ByAssistant, blocks.value)))
      case ToolCall(id, lowered) =>
        if lowered.None? then Err(InvalidCall)
        else if LastIs(st.messages, ByUser) && st.pending != map[] then Err(InvalidToolMapping)
        else Ok(st.(pending := st.pending[id := false],
                    messages := Push(st.messages, ByAssistant,
                      [ToolUse(id, lowered.value.name, lowered.value.arguments)])))
      case ToolResult(id, lowers, text) =>
        if id !in st.pending then Err(InvalidToolMapping)
        else if (!st.pending[id] && !lowers) || text.None? then Err(InvalidResult)
        else Ok(st.(pending := st.pending - {id}, messages := Push(st.messages, ByUser, [Result(id, text.value)])))
      case OtherItem => Err(Unsupported)
  }

  /** The walk over the pieces, up to the first error. */
  function Run(st: State, pieces: seq<Piece<Native>>, bridge: bool): Common.Result<State, Error>
    decreases |pieces|
  {
    if pieces == [] then Ok(st)
    else
      var next := Apply(st, pieces[0], bridge);
      if next.Err? then next else Run(next.value, pieces[1..], bridge)
  }

  const START := State([], map[], [])

  /** The final check: a conversation, and no call left open. */
  function Finish(st: State): Common.Result<State, Error> {
    if st.messages == [] || st.pending != map[] then Err(InvalidToolMapping) else Ok(st)
  }

  function Encoding(input: Input, segments: map<nat, Segment<Native>>, bridge: bool): Common.Result<State, Error> {
    var r := match input
      case NoInput => Ok(START)
      case TextInput(text) => Ok(State(Push([], ByUser, [TextBlock(text)]), map[], []))
      case Items(items) => Run(START, Pieces(items, segments, 0), bridge);
    if r.Err? then r else Finish(r.value)
  }

  lemma RunStep(st: State, piece: Piece<Native>, rest: seq<Piece<Native>>, bridge: bool)
    ensures Run(st, [piece] + rest, bridge)
            == if Apply(st, piece, bridge).Err? then Apply(st, piece, bridge)
               else Run(Apply(st, piece, bridge).value, rest, bridge)
  {
    hide Apply;
    assert ([piece] + rest)[1..] == rest;
  }

  /** A replay span: its calls become pending, its native blocks are the assistant's. */
  method EncodeSpan(st: State, items: seq<Item>, position: nat, segment: Segment<Native>)
    returns (r: Common.Result<State, Error>)
    requires position <= |items|
    ensures r == Apply(st, SpanAt(items, position, segment), false)
  {
    hide CallIds, Opened, Push;
    if segment.native.None? {
      return Err(ContinuityMismatch);
    }
    if segment.end < position || segment.end > |items| || st.pending != map[] {
      return Err(InvalidToolMapping);
    }
    var pending := OpenCalls(st.pending, items[position..segment.end]);
    return Ok(State(Push(st.messages, ByAssistant, segment.native.value), pending, st.envelope));
  }

  lemma SpansIgnoreBridge(st: State, calls: seq<string>, native: Option<Native>, inBounds: bool, bridge: bool)
    ensures Apply(st, Span(calls, native, inBounds), bridge) == Apply(st, Span(calls, native, inBounds), false)
    ensures Apply(st, Span(calls, native, inBounds), bridge).Ok? ==> inBounds
  {
  }

  /** One item outside the spans. */
  method EncodeItem(st: State, item: Item, position: nat, bridge: bool) returns (r: Common.Result<State, Error>)
    ensures r == Apply(st, Single(position, item), bridge)
  {
    hide Blocks, Push;
    var messages, pending, envelope := st.messages, st.pending, st.envelope;
    match item {
      case Message(role, content) =>
        if role == System || role == Developer {
          if !bridge || messages != [] {
            return Err(Unsupported);
          }
          var blocks := Blocks(content);
          if blocks.None? || exists i :: 0 <= i < |blocks.value| && !blocks.value[i].TextBlock? {
            return Err(Unsupported);
          }
          envelope := envelope + [Instruction(role, position, blocks.value)];
        } else {
          if pending != map[] && (role != Role.Assistant || !LastIs(messages, ByAssistant)) {
            return Err(InvalidToolMapping);
          }
          var blocks := Blocks(content);
          if blocks.None? {
            return Err(Unsupported);
          }
          messages := Push(messages, if role == Role.User then ByUser else ByAssistant, blocks.value);
        }
      case ToolCall(id, lowered) =>
        if lowered.None? {
          return Err(InvalidCall);
        }
        if LastIs(messages, ByUser) && pending != map[] {
          return Err(InvalidToolMapping);
        }
        pending := pending[id := false];
        messages := Push(messages, ByAssistant, [ToolUse(id, lowered.value.name, lowered.value.arguments)]);
      case ToolResult(id, lowers, text) =>
        if id !in pending {
          return Err(InvalidToolMapping);
        }
        var replayed := pending[id];
        pending := pending - {id};
        if (!replayed && !lowers) || text.None? {
          return Err(InvalidResult);
        }
        messages := Push(messages, ByUser, [Result(id, text.value)]);
      case OtherItem =>
        return Err(Unsupported);
    }
    return Ok(State(messages, pending, envelope));
  }

  /** The item/replay/pending loop of encode_with_history. */
  method EncodeItems(items: seq<Item>, segments: map<nat, Segment<Native>>, bridge: bool)
    returns (r: Common.Result<State, Error>)
    ensures r == Run(START, Pieces(items, segments, 0), bridge)
  {
    hide Run, Apply, Pieces, SpanAt;
    var st := START;
    var position := 0;
    while position < |items|
      invariant position <= |items|
      invariant Run(st, Pieces(items, segments, position), bridge) == Run(START, Pieces(items, segments, 0), bridge)
    {
      AtPosition(items, segments, position);
      if position in segments {
        var segment := segments[position];
        ghost var span := SpanAt(items, position, segment);
        RunStep(st, span, Pieces(items, segments, position)[1..], bridge);
        SpansIgnoreBridge(st, span.calls, span.native, span.inBounds, bridge);
        r := EncodeSpan(st, items, position, segment);
        if r.Err? {
          return;
        }
        st := r.value;
        if segment.end > position {
          position := segment.end;
          continue;
        }
      }
      RunStep(st, Single(position, items[position]), Pieces(items, segments, position + 1), bridge);
      r := EncodeItem(st, items[position], position, bridge);
      if r.Err? {
        return;
      }
      st := r.value;
      position := position + 1;
    }
    AtEnd(items, segments);
    RunEnd(st, bridge);
    if |items| in segments {
      var native := segments[|items|].native;
      TailApplies(st, native, bridge);
      if native.None? {
        return Err(ContinuityMismatch);
      }
      st := st.(messages := Push(st.messages, ByAssistant, native.value));
    }
    return Ok(st);
  }

  lemma RunEnd(st: State, bridge: bool)
    ensures Run(st, [], bridge) == Ok(st)
  {
  }

  lemma TailApplies(st: State, native: Option<Native>, bridge: bool)
    ensures Run(st, [Trailing(native)], bridge)
            == if native.None? then Err(ContinuityMismatch)
               else Ok(st.(messages := Push(st.messages, ByAssistant, native.value)))
  {
    RunStep(st, Trailing(native), [], bridge);
    assert [Trailing(native)] + [] == [Trailing(native)];
  }

  /** Source order: walk, then refuse an empty conversation and open calls. */
  method Encode(input: Input, segments: map<nat, Segment<Native>>, bridge: bool)
    returns (r: Common.Result<State, Error>)
    ensures r == Encoding(input, segments, bridge)
  {
    match input {
      case NoInput => r := Ok(START);
      case TextInput(text) =>
        r := Ok(State(Push([], ByUser, [TextBlock(text)]), map[], []));
      case Items(items) =>
        r := EncodeItems(items, segments, bridge);
        if r.Err? {
          return;
        }
    }
    if r.value.messages == [] || r.value.pending != map[] {
      return Err(InvalidToolMapping);
    }
  }
}
