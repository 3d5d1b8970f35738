/** What every successful Chat Completions encoding guarantees to the provider. */
module ChatProtocol {
  import opened Common
  import opened Conversation
  import opened Chat

  function CallIdsOf(calls: seq<Call>): (ids: seq<string>)
    ensures |ids| == |calls|
  {
    seq(|calls|, i requires 0 <= i < |calls| => calls[i].id)
  }

  predicate OnlyAnswers(messages: seq<Msg>) {
    forall i :: 0 <= i < |messages| ==> messages[i].Answer?
  }

  function AnswerIds(messages: seq<Msg>): (ids: seq<string>)
    requires OnlyAnswers(messages)
    ensures |ids| == |messages|
  {
    seq(|messages|, i requires 0 <= i < |messages| => messages[i].id)
  }

  /** A message with calls, then exactly one answer for each of them. */
  predicate AnsweredBlock(calls: seq<Call>, answers: seq<Msg>) {
    Distinct(CallIdsOf(calls)) && OnlyAnswers(answers) && multiset(AnswerIds(answers)) == multiset(CallIdsOf(calls))
  }

  /** The provider's grammar: a conversation is a sequence of plain messages and of assistant
      messages, each followed at once by the answers to its calls and by no other answer. */
  predicate Protocol(messages: seq<Msg>)
    decreases |messages|
  {
    messages == [] ||
    match messages[0]
    case Said(_, _) => Protocol(messages[1..])
    case Answer(_, _) => false
    case Spoke(_, calls) =>
      var n := |calls| + 1;
      n <= |messages| && AnsweredBlock(calls, messages[1..n]) && Protocol(messages[n..])
  }

  lemma {:induction false} ProtocolAppend(a: seq<Msg>, b: seq<Msg>)
    requires Protocol(a) && Protocol(b)
    ensures Protocol(a + b)
    decreases |a|
  {
    hide AnsweredBlock;
    if a == [] {
      assert a + b == b;
    } else {
      var n := if a[0].Spoke? then |a[0].calls| + 1 else 1;
      assert (a + b)[n..] == a[n..] + b && (a + b)[1..n] == a[1..n];
      ProtocolAppend(a[n..], b);
    }
  }

  /** The last message that is not an answer, with `answers` behind it. */
  predicate Tail(messages: seq<Msg>, before: seq<Msg>, last: Msg, answers: seq<Msg>) {
    messages == before + [last] + answers && !last.Answer? && OnlyAnswers(answers) && Protocol(before)
  }

  /** `open` calls of the last assistant message still wait. */
  ghost predicate Underway(messages: seq<Msg>, open: set<string>) {
    (messages == [] && open == {})
    || exists before, last, answers :: UnderwayAs(messages, before, last, answers, open)
  }

  predicate UnderwayAs(messages: seq<Msg>, before: seq<Msg>, last: Msg, answers: seq<Msg>, open: set<string>) {
    && Tail(messages, before, last, answers)
    && match last
       case Said(_, _) => answers == [] && open == {}
       case Answer(_, _) => false
       case Spoke(_, calls) =>
         Distinct(CallIdsOf(calls)) && multiset(AnswerIds(answers)) + multiset(open) == multiset(CallIdsOf(calls))
  }

  lemma UnderwayEnds(messages: seq<Msg>)
    requires Underway(messages, {})
    ensures Protocol(messages)
  {
    hide Distinct;
    if messages != [] {
      var before, last, answers :| UnderwayAs(messages, before, last, answers, {});
      var block := [last] + answers;
      assert messages == before + block;
      BlockComplete(last, answers);
      ProtocolAppend(before, block);
    }
  }

  lemma BlockComplete(last: Msg, answers: seq<Msg>)
    requires OnlyAnswers(answers) && !last.Answer?
    requires last.Said? ==> answers == []
    requires last.Spoke? ==>
               Distinct(CallIdsOf(last.calls))
               && multiset(AnswerIds(answers)) + multiset({}) == multiset(CallIdsOf(last.calls))
    ensures Protocol([last] + answers)
  {
    hide Distinct;
    var block := [last] + answers;
    if last.Said? {
      assert block[1..] == [];
    } else {
      SameSize(AnswerIds(answers), CallIdsOf(last.calls));
      var n := |last.calls| + 1;
      assert block[1..n] == answers && block[n..] == [];
    }
  }

  lemma SameSize(a: seq<string>, b: seq<string>)
    requires multiset(a) + multiset({}) == multiset(b)
    ensures |a| == |b| && multiset(a) == multiset(b)
  {
    assert |multiset(a)| == |a| && |multiset(b)| == |b|;
    assert multiset(a) + multiset({}) == multiset(a);
  }

  // ----- Pushing -----

  /** A plain message, once nothing is open. */
  lemma PushSaid(messages: seq<Msg>, m: Msg)
    requires Underway(messages, {}) && m.Said?
    ensures Underway(messages + [m], {})
  {
    hide Protocol, AnswerIds;
    UnderwayEnds(messages);
    assert messages + [m] == messages + [m] + [];
    assert UnderwayAs(messages + [m], messages, m, [], {});
  }

  /** A new assistant message with fresh calls, once nothing is open. */
  lemma PushSpoke(messages: seq<Msg>, m: Msg)
    requires Underway(messages, {}) && m.Spoke? && Distinct(CallIdsOf(m.calls))
    ensures Underway(messages + [m], Ids(CallIdsOf(m.calls)))
  {
    hide Protocol, Distinct, CallIdsOf, Ids;
    UnderwayEnds(messages);
    RepeatFree(CallIdsOf(m.calls));
    assert messages + [m] == messages + [m] + [];
    NoAnswers();
    var ids := CallIdsOf(m.calls);
    assert multiset(AnswerIds([])) + multiset(Ids(ids)) == multiset(ids);
    assert UnderwayAs(messages + [m], messages, m, [], Ids(ids));
  }

  lemma NoAnswers()
    ensures OnlyAnswers([]) && AnswerIds([]) == []
  {
  }

  lemma CallsNext(calls: seq<Call>, call: Call)
    ensures CallIdsOf(calls + [call]) == CallIdsOf(calls) + [call.id]
  {
  }

  lemma AnswersNext(answers: seq<Msg>, id: string, text: string)
    requires OnlyAnswers(answers)
    ensures OnlyAnswers(answers + [Answer(id, text)])
            && AnswerIds(answers + [Answer(id, text)]) == AnswerIds(answers) + [id]
  {
  }

  /** A further call for the assistant message that is last. */
  lemma JoinCall(messages: seq<Msg>, open: set<string>, call: Call)
    requires Underway(messages, open) && messages != [] && messages[|messages| - 1].Spoke? && call.id !in open
    ensures Underway(AddCall(messages, call), open + {call.id})
  {
    hide Protocol, CallIdsOf, AnswerIds, Distinct;
    var n := |messages| - 1;
    var before, last, answers :| UnderwayAs(messages, before, last, answers, open);
    LastIsAnswer(messages, before, last, answers);
    NoAnswers();
    var ids := CallIdsOf(last.calls);
    CallsNext(last.calls, call);
    FreshId(ids, open, call.id);
    var m := Spoke(last.speech, last.calls + [call]);
    assert messages[n := m] == before + [m] + [];
    assert multiset(AnswerIds([])) + multiset(open + {call.id}) == multiset(open + {call.id});
    assert UnderwayAs(messages[n := m], before, m, [], open + {call.id});
  }

  lemma LastIsAnswer(messages: seq<Msg>, before: seq<Msg>, last: Msg, answers: seq<Msg>)
    requires messages == before + [last] + answers && OnlyAnswers(answers) && !last.Answer?
    ensures messages[|messages| - 1].Answer? <==> answers != []
    ensures answers == [] ==> messages[|messages| - 1] == last && |before| == |messages| - 1
  {
    if answers != [] {
      assert messages[|messages| - 1] == answers[|answers| - 1];
    }
  }

  lemma FreshId(ids: seq<string>, open: set<string>, id: string)
    requires Distinct(ids) && multiset([]) + multiset(open) == multiset(ids) && id !in open
    ensures Distinct(ids + [id]) && multiset(ids + [id]) == multiset(open + {id})
  {
    forall i | 0 <= i < |ids| ensures ids[i] != id {
      assert ids[i] in multiset(ids);
    }
    assert multiset(ids + [id]) == multiset(ids) + multiset{id};
    assert multiset(open + {id}) == multiset(open) + multiset{id};
  }

  /** A call, whatever message is last. */
  lemma PushCall(messages: seq<Msg>, open: set<string>, call: Call)
    requires Underway(messages, open) && call.id !in open && (EndsInAnswer(messages) ==> open == {})
    ensures Underway(AddCall(messages, call), open + {call.id})
  {
    if messages != [] && messages[|messages| - 1].Spoke? {
      JoinCall(messages, open, call);
    } else {
      NothingOpen(messages, open);
      OneCall(call);
      PushSpoke(messages, Spoke(Silence, [call]));
      assert {} + {call.id} == {call.id};
    }
  }

  lemma OneCall(call: Call)
    ensures Distinct(CallIdsOf([call])) && Ids(CallIdsOf([call])) == {call.id}
  {
    assert CallIdsOf([call]) == [call.id] && [call.id][0] == call.id;
  }

  /** Only an assistant message or its answers can leave calls open. */
  lemma NothingOpen(messages: seq<Msg>, open: set<string>)
    requires Underway(messages, open) && (messages != [] ==> !messages[|messages| - 1].Spoke?)
    requires EndsInAnswer(messages) ==> open == {}
    ensures open == {}
  {
    hide Protocol;
    if messages != [] && !EndsInAnswer(messages) {
      var before, last, answers :| UnderwayAs(messages, before, last, answers, open);
      LastIsAnswer(messages, before, last, answers);
    }
  }

  /** The answer to an open call. */
  lemma PushAnswer(messages: seq<Msg>, open: set<string>, id: string, text: string)
    requires Underway(messages, open) && id in open
    ensures Underway(messages + [Answer(id, text)], open - {id})
  {
    hide Protocol, CallIdsOf, AnswerIds, Distinct;
    var before, last, answers :| UnderwayAs(messages, before, last, answers, open);
    AnswersNext(answers, id, text);
    var more := answers + [Answer(id, text)];
    assert messages + [Answer(id, text)] == before + [last] + more;
    TakeOut(open, id);
    assert multiset(AnswerIds(answers) + [id]) == multiset(AnswerIds(answers)) + multiset{id};
    assert UnderwayAs(messages + [Answer(id, text)], before, last, more, open - {id});
  }

  // ----- The walk -----

  /** Native calls repeat the public calls of their span. */
  predicate NativeMatches(piece: Piece<Chat.Native>) {
    match piece
    case Span(calls, native, _) =>
      native.Some? ==> Distinct(CallIdsOf(native.value.calls)) && Ids(CallIdsOf(native.value.calls)) == Ids(calls)
    case Trailing(native) => native.Some? ==> native.value.calls == []
    case Single(_, _) => true
  }

  predicate AllMatch(pieces: seq<Piece<Chat.Native>>) {
    forall i :: 0 <= i < |pieces| ==> NativeMatches(pieces[i])
  }

  lemma StepUnderway(st: State, piece: Piece<Chat.Native>, config: Config)
    requires Underway(st.messages, st.pending.Keys) && NativeMatches(piece) && !piece.Trailing?
             && Apply(st, piece, config).Ok?
    requires forall i :: 0 <= i < |CallsOf(piece)| ==> CallsOf(piece)[i] !in st.pending
    ensures var after := Apply(st, piece, config).value;
            Underway(after.messages, after.pending.Keys)
  {
    hide Underway, CallIdsOf, Distinct, Ids, Opened, ContentOf, AddCall;
    var after := Apply(st, piece, config).value;
    var none: set<string> := {};
    if piece.Span? {
      assert st.pending.Keys == none;
      PushSpoke(st.messages, Spoke(FromNative(piece.native.value.payload), piece.native.value.calls));
      assert after.pending.Keys == Ids(piece.calls);
    } else {
      match piece.item
      case Message(role, content) =>
        if !(config.bridge && (role == System || role == Developer)) {
          assert st.pending.Keys == none;
          UtteranceUnderway(st.messages, role, ContentOf(content, role).value);
        }
      case ToolCall(id, lowered) =>
        assert CallsOf(piece)[0] == id && after.pending.Keys == st.pending.Keys + {id};
        PushCall(st.messages, st.pending.Keys, Call(id, lowered.value.name, lowered.value.arguments));
      case ToolResult(id, _, text) =>
        assert after.pending.Keys == st.pending.Keys - {id};
        PushAnswer(st.messages, st.pending.Keys, id, text.value);
    }
  }

  lemma UtteranceUnderway(messages: seq<Msg>, role: Role, content: ChatContent)
    requires Underway(messages, {})
    ensures Underway(messages + [Utterance(role, content)], {})
  {
    hide Underway;
    if role == Assistant {
      NoCalls();
      PushSpoke(messages, Utterance(role, content));
    } else {
      PushSaid(messages, Utterance(role, content));
    }
  }

  lemma NoCalls()
    ensures CallIdsOf([]) == [] && Distinct(CallIdsOf([])) && Ids(CallIdsOf([])) == {}
  {
  }

  lemma {:induction false} RunObeysProtocol(st: State, pieces: seq<Piece<Chat.Native>>, config: Config)
    requires Underway(st.messages, st.pending.Keys) && AllMatch(pieces) && TrailingLast(pieces)
             && NoReissue(st.pending, pieces)
    requires Run(st, pieces, config).Ok? && Run(st, pieces, config).value.pending == map[]
    ensures Protocol(Run(st, pieces, config).value.messages)
    decreases |pieces|
  {
    hide Underway, Protocol;
    if pieces == [] {
      var none: set<string> := {};
      assert st.pending.Keys == none;
      UnderwayEnds(st.messages);
    } else if pieces[0].Trailing? {
      TrailingObeysProtocol(st, pieces, config);
    } else {
      hide NativeMatches, Apply;
      StepUnderway(st, pieces[0], config);
      PendingFollows(st, pieces[0], config);
      RunObeysProtocol(Apply(st, pieces[0], config).value, pieces[1..], config);
    }
  }

  lemma TrailingObeysProtocol(st: State, pieces: seq<Piece<Chat.Native>>, config: Config)
    requires Underway(st.messages, st.pending.Keys) && AllMatch(pieces) && TrailingLast(pieces)
    requires pieces != [] && pieces[0].Trailing?
    requires Run(st, pieces, config).Ok? && Run(st, pieces, config).value.pending == map[]
    ensures Protocol(Run(st, pieces, config).value.messages)
  {
    var native := pieces[0].native;
    assert NativeMatches(pieces[0]) && pieces == [Trailing(native)];
    hide Underway, Protocol, Run, CallIdsOf, Ids, Distinct;
    TailApplies(st, native, config);
    var none: set<string> := {};
    assert st.pending.Keys == none;
    NoCalls();
    var m := Spoke(FromNative(native.value.payload), []);
    PushSpoke(st.messages, m);
    UnderwayEnds(st.messages + [m]);
  }

  lemma PendingFollows(st: State, piece: Piece<Chat.Native>, config: Config)
    requires Apply(st, piece, config).Ok?
    ensures Apply(st, piece, config).value.pending == PendingAfter(st.pending, piece)
  {
    hide ContentOf, AddCall, Opened;
  }

  lemma StartUnderway(instructions: Option<string>, config: Config)
    ensures Underway(Start(instructions, config).messages, {})
  {
    if !config.bridge && instructions.Some? {
      PushSaid([], Said(System, Words(instructions.value)));
      assert [] + [Said(System, Words(instructions.value))] == [Said(System, Words(instructions.value))];
    }
  }

  /** For distinct call ids and spans whose native calls match, every encoding that
      succeeds obeys the provider's grammar. */
  lemma EncodingObeysProtocol(items: seq<Item>, instructions: Option<string>,
                              segments: map<nat, Segment<Chat.Native>>, config: Config)
    requires Distinct(CallIds(items)) && AllMatch(Pieces(items, segments, 0))
    ensures Encoding(Items(items), instructions, segments, config).Ok? ==>
              Protocol(Encoding(Items(items), instructions, segments, config).value.messages)
  {
    hide Run, Pieces, Protocol, NativeMatches, CallIds, AllCalls, NoReissue, Underway;
    var pieces, start := Pieces(items, segments, 0), Start(instructions, config);
    if Encoding(Items(items), instructions, segments, config).Ok? {
      WalkKeepsCalls(items, segments, 0);
      assert items[0..] == items;
      PrefixOfDistinct(AllCalls(pieces), CallIds(items));
      var none: set<string> := {};
      assert start.pending.Keys == none;
      DistinctCallsAreNotReissued(start.pending, pieces);
      PiecesEndWithTrailing(items, segments, 0);
      StartUnderway(instructions, config);
      RunObeysProtocol(start, pieces, config);
      PrefaceObeysProtocol(Run(start, pieces, config).value, instructions, config);
    }
  }

  lemma PrefaceObeysProtocol(st: State, instructions: Option<string>, config: Config)
    requires Protocol(st.messages)
    ensures Protocol(Prefaced(st, instructions, config).messages)
  {
    if config.bridge {
      var messages := Prefaced(st, instructions, config).messages;
      assert messages[1..] == st.messages;
    }
  }

  // ----- Content order -----

  /** What a message says, in order: its own content, then its calls. */
  datatype Unit =
    | Text(role: Role, content: ChatContent)
    | Native(payload: string)
    | Asks(call: Call)
    | Answers(id: string, text: string)

  function Asked(calls: seq<Call>): seq<Unit> {
    seq(|calls|, i requires 0 <= i < |calls| => Asks(calls[i]))
  }

  function UnitsOf(m: Msg): seq<Unit> {
    match m
    case Said(role, content) => [Unit.Text(role, content)]
    case Answer(id, text) => [Answers(id, text)]
    case Spoke(speech, calls) =>
      match speech
      case FromItem(content) => [Unit.Text(Assistant, content)] + Asked(calls)
      case FromNative(payload) => [Unit.Native(payload)] + Asked(calls)
      case Silence => Asked(calls)
  }

  function Flat(messages: seq<Msg>): seq<Unit> {
    if messages == [] then [] else Flat(messages[..|messages| - 1]) + UnitsOf(messages[|messages| - 1])
  }

  /** The parts this provider takes: text, and remote images of the user with a known detail. */
  predicate SendablePart(part: Part, role: Role) {
    || part.TextPart?
    || (part.ImagePart? && role == User && "https://" <= part.url
        && part.detail in {None, Some("auto"), Some("low"), Some("high")})
  }

  predicate SendableContent(role: Role, content: Content) {
    content.Text? || forall i :: 0 <= i < |content.parts| ==> SendablePart(content.parts[i], role)
  }

  function ShownPart(part: Part): ChatPart
    requires !part.ExtensionPart?
  {
    if part.TextPart? then TextPiece(part.text) else ImageUrl(part.url, part.detail)
  }

  /** A text as it is, parts one by one in order. */
  function ShownContent(role: Role, content: Content): ChatContent
    requires SendableContent(role, content)
  {
    if content.Text? then Words(content.text)
    else Pieced(seq(|content.parts|, i requires 0 <= i < |content.parts| =>
      assert SendablePart(content.parts[i], role); ShownPart(content.parts[i])))
  }

  /** Content is sent exactly if every part of it can be, part by part. */
  lemma ContentByPart(content: Content, role: Role)
    ensures ContentOf(content, role).Some? <==> SendableContent(role, content)
    ensures ContentOf(content, role).Some? ==> ContentOf(content, role).value == ShownContent(role, content)
  {
    if content.Parts? {
      PartsByPart(content.parts, role);
    }
  }

  lemma {:induction false} PartsByPart(parts: seq<Part>, role: Role)
    ensures PartsOf(parts, role).Some? <==> forall i :: 0 <= i < |parts| ==> SendablePart(parts[i], role)
    ensures PartsOf(parts, role).Some? ==>
              && |PartsOf(parts, role).value| == |parts|
              && forall i :: 0 <= i < |parts| ==>
                   SendablePart(parts[i], role) && PartsOf(parts, role).value[i] == ShownPart(parts[i])
  {
    if parts != [] {
      PartsByPart(parts[..|parts| - 1], role);
    }
  }

  /** What a piece contributes, whatever stands around it. */
  function Translation(piece: Piece<Chat.Native>, config: Config): seq<Unit> {
    match piece
    case Span(_, native, _) =>
      if native.Some? then [Unit.Native(native.value.payload)] + Asked(native.value.calls) else []
    case Trailing(native) =>
      if native.Some? then [Unit.Native(native.value.payload)] + Asked(native.value.calls) else []
    case Single(_, item) =>
      match item
      case Message(role, content) =>
        if (config.bridge && (role == System || role == Developer)) || !SendableContent(role, content) then []
        else [Unit.Text(role, ShownContent(role, content))]
      case ToolCall(id, lowered) =>
        if lowered.None? then [] else [Asks(Call(id, lowered.value.name, lowered.value.arguments))]
      case ToolResult(id, _, text) => if text.None? then [] else [Answers(id, text.value)]
      case OtherItem => []
  }

  function Translations(pieces: seq<Piece<Chat.Native>>, config: Config): seq<Unit> {
    if pieces == [] then [] else Translation(pieces[0], config) + Translations(pieces[1..], config)
  }

  lemma FlatNext(messages: seq<Msg>, m: Msg)
    ensures Flat(messages + [m]) == Flat(messages) + UnitsOf(m)
  {
    hide UnitsOf;
    assert (messages + [m])[..|messages|] == messages;
  }

  lemma FlatCall(messages: seq<Msg>, call: Call)
    ensures Flat(AddCall(messages, call)) == Flat(messages) + [Asks(call)]
  {
    hide Flat, UnitsOf;
    var n := |messages| - 1;
    if messages != [] && messages[n].Spoke? {
      var m := Spoke(messages[n].speech, messages[n].calls + [call]);
      assert messages == messages[..n] + [messages[n]] && AddCall(messages, call) == messages[..n] + [m];
      FlatNext(messages[..n], messages[n]);
      FlatNext(messages[..n], m);
      UnitsJoin(messages[n].speech, messages[n].calls, call);
    } else {
      FlatNext(messages, Spoke(Silence, [call]));
      OnlyAsks(call);
    }
  }

  lemma UnitsJoin(speech: Speech, calls: seq<Call>, call: Call)
    ensures UnitsOf(Spoke(speech, calls + [call])) == UnitsOf(Spoke(speech, calls)) + [Asks(call)]
  {
    assert Asked(calls + [call]) == Asked(calls) + [Asks(call)];
  }

  lemma OnlyAsks(call: Call)
    ensures UnitsOf(Spoke(Silence, [call])) == [Asks(call)]
  {
    assert Asked([call]) == [Asks(call)];
  }

  lemma ApplyTranslates(st: State, piece: Piece<Chat.Native>, config: Config)
    requires Apply(st, piece, config).Ok?
    ensures Flat(Apply(st, piece, config).value.messages) == Flat(st.messages) + Translation(piece, config)
  {
    hide Flat, AddCall, ContentOf, Asked, Opened, SendableContent, ShownContent;
    match piece
    case Span(_, native, _) => FlatNext(st.messages, Spoke(FromNative(native.value.payload), native.value.calls));
    case Trailing(native) => FlatNext(st.messages, Spoke(FromNative(native.value.payload), native.value.calls));
    case Single(_, item) =>
      match item
      case Message(role, content) =>
        if config.bridge && (role == System || role == Developer) {
          assert Flat(st.messages) + [] == Flat(st.messages);
        } else {
          ContentByPart(content, role);
          SaysOnlyThis(role, ContentOf(content, role).value);
          FlatNext(st.messages, Utterance(role, ContentOf(content, role).value));
        }
      case ToolCall(id, lowered) =>
        FlatCall(st.messages, Call(id, lowered.value.name, lowered.value.arguments));
      case ToolResult(id, _, text) => FlatNext(st.messages, Answer(id, text.value));
  }

  lemma SaysOnlyThis(role: Role, content: ChatContent)
    ensures UnitsOf(Utterance(role, content)) == [Unit.Text(role, content)]
  {
    assert Asked([]) == [];
  }

  /** The encoded content is the translation of the pieces, in order. */
  lemma {:induction false} EncodingKeepsOrder(st: State, pieces: seq<Piece<Chat.Native>>, config: Config)
    requires Run(st, pieces, config).Ok?
    ensures Flat(Run(st, pieces, config).value.messages) == Flat(st.messages) + Translations(pieces, config)
    decreases |pieces|
  {
    hide Apply, Flat, Translation;
    if pieces == [] {
      assert Flat(st.messages) + [] == Flat(st.messages);
    } else {
      ApplyTranslates(st, pieces[0], config);
      EncodingKeepsOrder(Apply(st, pieces[0], config).value, pieces[1..], config);
      assert Flat(st.messages) + Translation(pieces[0], config) + Translations(pieces[1..], config)
             == Flat(st.messages) + Translations(pieces, config);
    }
  }

  /** What stands before the translated items: the envelope, or the request's own instructions. */
  function Opening(records: seq<Instruction>, instructions: Option<string>, config: Config): seq<Unit> {
    if config.bridge then [Unit.Text(System, Recorded(instructions, records))]
    else if instructions.Some? then [Unit.Text(System, Words(instructions.value))]
    else []
  }

  /** The instruction records of the items, as the envelope carries them. */
  function Records(pieces: seq<Piece<Chat.Native>>): seq<Instruction> {
    if pieces == [] then []
    else
      (match pieces[0]
       case Single(position, Message(role, content)) =>
         if (role == System || role == Developer) && SendableContent(role, content)
         then [Instruction(role, position, ShownContent(role, content))] else []
       case _ => [])
      + Records(pieces[1..])
  }

  lemma {:induction false} EnvelopeKeepsOrder(st: State, pieces: seq<Piece<Chat.Native>>, config: Config)
    requires config.bridge && Run(st, pieces, config).Ok?
    ensures Run(st, pieces, config).value.instructions == st.instructions + Records(pieces)
    decreases |pieces|
  {
    hide ContentOf, AddCall, Opened, SendableContent, ShownContent;
    if pieces != [] {
      if pieces[0].Single? && pieces[0].item.Message? {
        ContentByPart(pieces[0].item.content, pieces[0].item.role);
      }
      EnvelopeKeepsOrder(Apply(st, pieces[0], config).value, pieces[1..], config);
    }
  }

  /** A whole encoding, flattened: what opens it, then the translation of every piece in order;
      with the bridge, every instruction of the items is in the envelope, in order. */
  lemma EncodedConversation(items: seq<Item>, instructions: Option<string>, segments: map<nat, Segment<Chat.Native>>,
                            config: Config)
    requires Encoding(Items(items), instructions, segments, config).Ok?
    ensures var pieces := Pieces(items, segments, 0);
            Flat(Encoding(Items(items), instructions, segments, config).value.messages)
            == Opening(Records(pieces), instructions, config) + Translations(pieces, config)
  {
    hide Run, Pieces, Translations, Flat, Records, Asked;
    var pieces, start := Pieces(items, segments, 0), Start(instructions, config);
    var st := Run(start, pieces, config).value;
    EncodingKeepsOrder(start, pieces, config);
    NothingSaid();
    if config.bridge {
      EnvelopeKeepsOrder(start, pieces, config);
      FlatBehind(Said(System, Recorded(instructions, st.instructions)), st.messages);
      assert [] + Records(pieces) == Records(pieces)
        && [] + Translations(pieces, config) == Translations(pieces, config);
    } else if instructions.Some? {
      var m := Said(System, Words(instructions.value));
      FlatBehind(m, []);
      assert [m] + [] == [m] && UnitsOf(m) + [] == UnitsOf(m);
    }
  }

  lemma NothingSaid()
    ensures Flat([]) == []
  {
  }

  lemma {:induction false} FlatBehind(m: Msg, messages: seq<Msg>)
    ensures Flat([m] + messages) == UnitsOf(m) + Flat(messages)
    decreases |messages|
  {
    hide UnitsOf;
    if messages == [] {
      assert [m] + messages == [m] && [m][..0] == [];
    } else {
      var n := |messages| - 1;
      FlatBehind(m, messages[..n]);
      assert ([m] + messages)[..n + 1] == [m] + messages[..n];
    }
  }

  /** A text is one user message behind what opens the conversation; nothing at all is refused,
      unless instructions are given as a message of their own. */
  lemma EncodedText(text: string, instructions: Option<string>, segments: map<nat, Segment<Chat.Native>>,
                    config: Config)
    requires CanRank(config)
    ensures var r := Encoding(TextInput(text), instructions, segments, config);
            r.Ok? && Flat(r.value.messages) == Opening([], instructions, config) + [Unit.Text(User, Words(text))]
    ensures Encoding(NoInput, instructions, segments, config).Ok? <==> !config.bridge && instructions.Some?
  {
    hide Flat;
    NothingSaid();
    var m := Said(User, Words(text));
    FlatNext([], m);
    assert [] + [m] == [m];
    if config.bridge {
      FlatBehind(Said(System, Recorded(instructions, [])), [m]);
    } else if instructions.Some? {
      var opening := Said(System, Words(instructions.value));
      FlatNext([], opening);
      assert [] + [opening] == [opening];
      FlatNext([opening], m);
    }
  }

  // ----- Conversations that are taken -----

  lemma FineApplies(st: State, answered: bool, piece: Piece<Chat.Native>, config: Config)
    requires st.pending != map[] && EndsInAnswer(st.messages) ==> answered
    requires Fine(st.pending, answered, piece, (role, content) => SendableContent(role, content),
                  (native: Chat.Native) => Some(native.dialect) == config.dialect)
    ensures Apply(st, piece, config).Ok?
    ensures var after := Apply(st, piece, config).value;
            && after.pending == PendingAfter(st.pending, piece) && after.messages != []
            && (EndsInAnswer(after.messages) && after.pending != map[] ==> IsResult(piece))
  {
    hide ContentOf, SendableContent, Opened;
    if piece.Single? && piece.item.Message? {
      ContentByPart(piece.item.content, piece.item.role);
    }
  }

  lemma {:induction false} FineRunEncodes(st: State, answered: bool, pieces: seq<Piece<Chat.Native>>, config: Config)
    requires st.pending != map[] && EndsInAnswer(st.messages) ==> answered
    requires FineRun(st.pending, answered, pieces, (role, content) => SendableContent(role, content),
                     (native: Chat.Native) => Some(native.dialect) == config.dialect)
    ensures Run(st, pieces, config).Ok? && Run(st, pieces, config).value.pending == PendingEnd(st.pending, pieces)
    ensures pieces != [] || st.messages != [] ==> Run(st, pieces, config).value.messages != []
    decreases |pieces|
  {
    hide Apply, Fine, PendingAfter, SendableContent;
    if pieces != [] {
      FineApplies(st, answered, pieces[0], config);
      FineRunEncodes(Apply(st, pieces[0], config).value, IsResult(pieces[0]), pieces[1..], config);
    }
  }

  /** Any conversation of speech that can be sent and of calls with their answers is encoded. */
  lemma RoundsEncode(rounds: seq<Round>, instructions: Option<string>, config: Config)
    requires Spoken(rounds) != [] && CanRank(config)
    requires forall i :: 0 <= i < |rounds| ==> GoodRound(rounds[i], (role, content) => SendableContent(role, content))
    ensures Encoding(Items(Spoken(rounds)), instructions, map[], config).Ok?
  {
    hide Run, Pieces, FineRun, PendingEnd, Spoken, GoodRound, Walk;
    var items, start := Spoken(rounds), Start(instructions, config);
    RoundsAreFine<Chat.Native>(rounds, false, 0, (role, content) => SendableContent(role, content),
                               (native: Chat.Native) => Some(native.dialect) == config.dialect);
    WalkIsPieces<Chat.Native>(items, 0);
    assert items[0..] == items;
    FineRunEncodes(start, false, Pieces(items, map[], 0), config);
    WalkNext<Chat.Native>(items, 0);
  }

  // ----- Exactly what is refused -----

  /** A step succeeds exactly under these conditions: a span in bounds, of this dialect, with no call
      waiting; instructions through the bridge before anything is said; other speech that can be sent
      where no call waits; a call that lowers, not between the answers to others; and the result of a
      waiting call that lowers, unless the call was replayed. */
  lemma AppliesIff(st: State, piece: Piece<Chat.Native>, config: Config)
    ensures piece.Span? ==>
              (Apply(st, piece, config).Ok?
               <==> && piece.native.Some? && Some(piece.native.value.dialect) == config.dialect && piece.inBounds
                    && st.pending == map[])
    ensures piece.Trailing? ==>
              (Apply(st, piece, config).Ok?
               <==> piece.native.Some? && Some(piece.native.value.dialect) == config.dialect)
    ensures piece.Single? && piece.item.Message? ==>
              (Apply(st, piece, config).Ok?
               <==> && SendableContent(piece.item.role, piece.item.content)
                    && (if config.bridge && piece.item.role in {System, Developer} then st.messages == []
                        else st.pending == map[]))
    ensures piece.Single? && piece.item.ToolCall? ==>
              (Apply(st, piece, config).Ok?
               <==> && piece.item.lowered.Some?
                    && (st.pending == map[] || st.messages == [] || !st.messages[|st.messages| - 1].Answer?))
    ensures piece.Single? && piece.item.ToolResult? ==>
              (Apply(st, piece, config).Ok?
               <==> && piece.item.id in st.pending && piece.item.text.Some?
                    && (st.pending[piece.item.id] || piece.item.lowers))
    ensures piece.Single? && piece.item.OtherItem? ==> Apply(st, piece, config).Err?
  {
    hide ContentOf, AddCall, Opened, SendableContent;
    if piece.Single? && piece.item.Message? {
      ContentByPart(piece.item.content, piece.item.role);
    }
  }

  /** DeepSeek takes ranked instructions only through the envelope. */
  lemma RankingNeedsEnvelope(input: Input, instructions: Option<string>, segments: map<nat, Segment<Chat.Native>>,
                             config: Config)
    requires config.dialect == Some(DeepSeek) && config.hierarchy && !config.bridge
    ensures Encoding(input, instructions, segments, config) == Err(Unsupported)
  {
  }
}
