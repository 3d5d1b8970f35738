/** The Chat Completions encoder (src/adapters/chat.rs): calls join the assistant message
    before them, and every assistant message with calls is followed at once by one tool
    message for each of them. */
module Chat {
  import opened Common
  import opened Conversation

  datatype ChatPart = TextPiece(text: string) | ImageUrl(url: string, detail: Option<string>)

  /** `Recorded` is the text of the instruction envelope: the request's own instructions, if any,
      and then those of the items. */
  datatype ChatContent =
    | Words(text: string)
    | Pieced(parts: seq<ChatPart>)
    | Recorded(request: Option<string>, instructions: seq<Instruction>)

  /** An assistant message speaks an item, native provider state, or only calls tools. */
  datatype Speech = FromItem(content: ChatContent) | FromNative(payload: string) | Silence

  datatype Call = Call(id: string, name: string, arguments: string)

  datatype Msg =
    | Said(role: Role, content: ChatContent)
    | Spoke(speech: Speech, calls: seq<Call>)
    | Answer(id: string, text: string)

  datatype Instruction = Instruction(role: Role, position: nat, content: ChatContent)

  datatype Dialect = DeepSeek | OpenRouter

  /** Native replay of this format: an assistant message of some dialect. */
  datatype Native = Native(dialect: Dialect, payload: string, calls: seq<Call>)

  /** `bridge`: instructions are carried in an envelope; `hierarchy`: the request ranks them. */
  datatype Config = Config(bridge: bool, dialect: Option<Dialect>, hierarchy: bool)

  function PartOf(part: Part, role: Role): Option<ChatPart> {
    match part
    case TextPart(text) => Some(TextPiece(text))
    case ImagePart(url, detail) =>
      if role == User && "https://" <= url && (detail.None? || detail.value in {"auto", "low", "high"})
      then Some(ImageUrl(url, detail)) else None
    case ExtensionPart => None
  }

  function PartsOf(parts: seq<Part>, role: Role): Option<seq<ChatPart>> {
    if parts == [] then Some([])
    else
      var before, last := PartsOf(parts[..|parts| - 1], role), PartOf(parts[|parts| - 1], role);
      if before.None? || last.None? then None else Some(before.value + [last.value])
  }

  function ContentOf(content: Content, role: Role): Option<ChatContent> {
    match content
    case Text(text) => Some(Words(text))
    case Parts(parts) =>
      var list := PartsOf(parts, role);
      if list.None? then None else Some(Pieced(list.value))
  }

  datatype State = State(messages: seq<Msg>, pending: Pending, instructions: seq<Instruction>)

  predicate EndsInAnswer(messages: seq<Msg>) {
    messages != [] && messages[|messages| - 1].Answer?
  }

  /** A call joins an assistant message that is last, otherwise it starts one. */
  function AddCall(messages: seq<Msg>, call: Call): seq<Msg> {
    var n := |messages| - 1;
    if messages != [] && messages[n].Spoke?
    then messages[n := Spoke(messages[n].speech, messages[n].calls + [call])]
    else messages + [Spoke(Silence, [call])]
  }

  function Utterance(role: Role, content: ChatContent): Msg {
    if role == Assistant then Spoke(FromItem(content), []) else Said(role, content)
  }

  function Apply(st: State, piece: Piece<Native>, config: Config): Result<State, Error> {
    match piece
    case Span(calls, native, inBounds) =>
      if native.None? || Some(native.value.dialect) != config.dialect || !inBounds || st.pending != map[]
      then Err(ContinuityMismatch)
      else Ok(st.(pending := Opened(st.pending, calls, true),
                  messages := st.messages + [Spoke(FromNative(native.value.payload), native.value.calls)]))
    case Trailing(native) =>
      if native.None? || Some(native.value.dialect) != config.dialect then Err(ContinuityMismatch)
      else Ok(st.(messages := st.messages + [Spoke(FromNative(native.value.payload), native.value.calls)]))
    case Single(position, item) =>
      match item
      case Message(role, content) =>
        var said := ContentOf(content, role);
        if config.bridge && (role == System || role == Developer) then
          if st.messages != [] || said.None? then Err(Unsupported)
          else Ok(st.(instructions := st.instructions + [Instruction(role, position, said.value)]))
        else if st.pending != map[] then Err(InvalidToolMapping)
        else if said.None? then Err(Unsupported)
        else Ok(st.(messages := st.messages + [Utterance(role, said.value)]))
      case ToolCall(id, lowered) =>
        if EndsInAnswer(st.messages) && st.pending != map[] then Err(InvalidToolMapping)
        else if lowered.None? then Err(InvalidCall)
        else Ok(st.(messages := AddCall(st.messages, Call(id, lowered.value.name, lowered.value.arguments)),
                    pending := st.pending[id := false]))
      case ToolResult(id, lowers, text) =>
        if id !in st.pending then Err(InvalidToolMapping)
        else if (!st.pending[id] && !lowers) || text.None? then Err(InvalidResult)
        else Ok(st.(pending := st.pending - {id}, messages := st.messages + [Answer(id, text.value)]))
      case OtherItem => Err(Unsupported)
  }

  /** The walk over the pieces, up to the first error. */
  function Run(st: State, pieces: seq<Piece<Native>>, config: Config): Result<State, Error>
    decreases |pieces|
  {
    if pieces == [] then Ok(st)
    else
      var next := Apply(st, pieces[0], config);
      if next.Err? then next else Run(next.value, pieces[1..], config)
  }

  /** Request instructions open the conversation unless the bridge carries them. */
  function Start(instructions: Option<string>, config: Config): State {
    State(if !config.bridge && instructions.Some? then [Said(System, Words(instructions.value))] else [], map[], [])
  }

  /** A dialect without ranked instructions needs the envelope for them. */
  predicate CanRank(config: Config) {
    config.dialect == Some(DeepSeek) && config.hierarchy ==> config.bridge
  }

  /** The bridge puts one system message with all instruction records before the conversation. */
  function Prefaced(st: State, instructions: Option<string>, config: Config): State {
    if config.bridge then st.(messages := [Said(System, Recorded(instructions, st.instructions))] + st.messages) else st
  }

  /** The walk alone. */
  function Walked(input: Input, instructions: Option<string>, segments: map<nat, Segment<Native>>, config: Config)
    : Result<State, Error>
  {
    var start := Start(instructions, config);
    match input
    case NoInput => Ok(start)
    case TextInput(text) => Ok(start.(messages := start.messages + [Said(User, Words(text))]))
    case Items(items) => Run(start, Pieces(items, segments, 0), config)
  }

  function Encoding(input: Input, instructions: Option<string>, segments: map<nat, Segment<Native>>, config: Config)
    : Result<State, Error>
  {
    var r := Walked(input, instructions, segments, config);
    if !CanRank(config) then Err(Unsupported)
    else if r.Err? then r
    else if r.value.messages == [] || r.value.pending != map[] then Err(InvalidToolMapping)
    else Ok(Prefaced(r.value, instructions, config))
  }

  // ----- The encoder -----

  lemma RunStep(st: State, piece: Piece<Native>, rest: seq<Piece<Native>>, config: Config)
    ensures Run(st, [piece] + rest, config)
            == if Apply(st, piece, config).Err? then Apply(st, piece, config)
               else Run(Apply(st, piece, config).value, rest, config)
  {
    hide Apply;
    assert ([piece] + rest)[1..] == rest;
  }

  lemma RunEnd(st: State, config: Config)
    ensures Run(st, [], config) == Ok(st)
  {
  }

  method EncodeSpan(st: State, items: seq<Item>, position: nat, segment: Segment<Native>, config: Config)
    returns (r: Result<State, Error>)
    requires position <= |items|
    ensures r == Apply(st, SpanAt(items, position, segment), config)
    ensures r.Ok? ==> position <= segment.end <= |items|
  {
    hide CallIds, Opened;
    if segment.native.None? {
      return Err(ContinuityMismatch);
    }
    var native := segment.native.value;
    if Some(native.dialect) != config.dialect || segment.end < position || segment.end > |items|
      || st.pending != map[] {
      return Err(ContinuityMismatch);
    }
    var pending := OpenCalls(st.pending, items[position..segment.end]);
    return Ok(State(st.messages + [Spoke(FromNative(native.payload), native.calls)], pending, st.instructions));
  }

  method EncodeItem(st: State, item: Item, position: nat, config: Config) returns (r: Result<State, Error>)
    ensures r == Apply(st, Single(position, item), config)
  {
    hide ContentOf;
    var messages, pending, instructions := st.messages, st.pending, st.instructions;
    match item {
      case Message(role, content) =>
        if config.bridge && (role == System || role == Developer) {
          if messages != [] {
            return Err(Unsupported);
          }
          var said := ContentOf(content, role);
          if said.None? {
            return Err(Unsupported);
          }
          instructions := instructions + [Instruction(role, position, said.value)];
        } else {
          if pending != map[] {
            return Err(InvalidToolMapping);
          }
          var said := ContentOf(content, role);
          if said.None? {
            return Err(Unsupported);
          }
          messages := messages + [Utterance(role, said.value)];
        }
      case ToolCall(id, lowered) =>
        if EndsInAnswer(messages) && pending != map[] {
          return Err(InvalidToolMapping);
        }
        if lowered.None? {
          return Err(InvalidCall);
        }
        var call := Call(id, lowered.value.name, lowered.value.arguments);
        var n := |messages| - 1;
        if messages != [] && messages[n].Spoke? {
          messages := messages[n := Spoke(messages[n].speech, messages[n].calls + [call])];
        } else {
          messages := messages + [Spoke(Silence, [call])];
        }
        pending := pending[id := false];
      case ToolResult(id, lowers, text) =>
        if id !in pending {
          return Err(InvalidToolMapping);
        }
        var replayed := pending[id];
        pending := pending - {id};
        if (!replayed && !lowers) || text.None? {
          return Err(InvalidResult);
        }
        messages := messages + [Answer(id, text.value)];
      case OtherItem =>
        return Err(Unsupported);
    }
    return Ok(State(messages, pending, instructions));
  }

  /** The item/replay/pending loop of encode_with_history. */
  method EncodeItems(start: State, items: seq<Item>, segments: map<nat, Segment<Native>>, config: Config)
    returns (r: Result<State, Error>)
    ensures r == Run(start, Pieces(items, segments, 0), config)
  {
    hide Run, Apply, Pieces, SpanAt;
    var st := start;
    var position := 0;
    while position < |items|
      invariant position <= |items|
      invariant Run(st, Pieces(items, segments, position), config) == Run(start, Pieces(items, segments, 0), config)
    {
      AtPosition(items, segments, position);
      if position in segments {
        var segment := segments[position];
        RunStep(st, SpanAt(items, position, segment), Pieces(items, segments, position)[1..], config);
        r := EncodeSpan(st, items, position, segment, config);
        if r.Err? {
          return;
        }
        st := r.value;
        if segment.end > position {
          position := segment.end;
          continue;
        }
      }
      RunStep(st, Single(position, items[position]), Pieces(items, segments, position + 1), config);
      r := EncodeItem(st, items[position], position, config);
      if r.Err? {
        return;
      }
      st := r.value;
      position := position + 1;
    }
    AtEnd(items, segments);
    RunEnd(st, config);
    if |items| in segments {
      var native := segments[|items|].native;
      TailApplies(st, native, config);
      if native.None? || Some(native.value.dialect) != config.dialect {
        return Err(ContinuityMismatch);
      }
      st := st.(messages := st.messages + [Spoke(FromNative(native.value.payload), native.value.calls)]);
    }
    return Ok(st);
  }

  lemma TailApplies(st: State, native: Option<Native>, config: Config)
    ensures Run(st, [Trailing(native)], config)
            == if native.None? || Some(native.value.dialect) != config.dialect then Err(ContinuityMismatch)
               else Ok(st.(messages := st.messages + [Spoke(FromNative(native.value.payload), native.value.calls)]))
  {
    RunStep(st, Trailing(native), [], config);
    assert [Trailing(native)] + [] == [Trailing(native)];
  }

  method Encode(input: Input, instructions: Option<string>, segments: map<nat, Segment<Native>>, config: Config)
    returns (r: Result<State, Error>)
    ensures r == Encoding(input, instructions, segments, config)
  {
    if config.dialect == Some(DeepSeek) && config.hierarchy && !config.bridge {
      return Err(Unsupported);
    }
    var start := Start(instructions, config);
    match input {
      case NoInput => r := Ok(start);
      case TextInput(text) => r := Ok(start.(messages := start.messages + [Said(User, Words(text))]));
      case Items(items) =>
        r := EncodeItems(start, items, segments, config);
        if r.Err? {
          return;
        }
    }
    if r.value.messages == [] || r.value.pending != map[] {
      return Err(InvalidToolMapping);
    }
    if config.bridge {
      var preface := Said(System, Recorded(instructions, r.value.instructions));
      r := Ok(r.value.(messages := [preface] + r.value.messages));
    }
  }
}
