/** What every successful Messages encoding guarantees to the provider. */
module MessagesProtocol {
  import opened Common
  import opened Conversation
  import opened Messages

  function Uses(blocks: seq<Block>): seq<string> {
    if blocks == [] then []
    else
      var last := blocks[|blocks| - 1];
      Uses(blocks[..|blocks| - 1]) + if last.ToolUse? then [last.id] else []
  }

  function Results(blocks: seq<Block>): seq<string> {
    if blocks == [] then []
    else
      var last := blocks[|blocks| - 1];
      Results(blocks[..|blocks| - 1]) + if last.Result? then [last.id] else []
  }

  /** Tool results open the message. */
  predicate ResultsFirst(blocks: seq<Block>) {
    forall i, j :: 0 <= i < j < |blocks| && blocks[j].Result? ==> blocks[i].Result?
  }

  predicate OnlyResults(blocks: seq<Block>) {
    forall i :: 0 <= i < |blocks| ==> blocks[i].Result?
  }

  /** The calls that message `i` has to answer. */
  function Asked(messages: seq<Msg>, i: nat): multiset<string>
    requires i < |messages|
  {
    if i == 0 then multiset{} else multiset(Uses(messages[i - 1].content))
  }

  /** The shape of one message. */
  predicate SoundMessage(m: Msg) {
    if m.role == ByUser then Uses(m.content) == [] && ResultsFirst(m.content)
    else Results(m.content) == [] && Distinct(Uses(m.content))
  }

  predicate Alternates(messages: seq<Msg>) {
    forall i {:trigger messages[i]} :: 0 < i < |messages| ==> messages[i].role != messages[i - 1].role
  }

  predicate Answers(messages: seq<Msg>, i: nat)
    requires i < |messages|
  {
    messages[i].role == ByUser ==> multiset(Results(messages[i].content)) == Asked(messages, i)
  }

  /** The provider's tool protocol: roles alternate, and the tool results that open a user
      message are exactly the calls of the assistant message before it, each once. */
  predicate Protocol(messages: seq<Msg>) {
    && Alternates(messages)
    && (forall i :: 0 <= i < |messages| ==> SoundMessage(messages[i]) && Answers(messages, i))
    && (messages != [] && messages[|messages| - 1].role == ByAssistant ==> Uses(messages[|messages| - 1].content) == [])
  }

  /** The same during the walk, when `open` calls still wait. */
  predicate Underway(messages: seq<Msg>, open: set<string>) {
    && Alternates(messages)
    && (forall i :: 0 <= i < |messages| ==> SoundMessage(messages[i]))
    && (forall i :: 0 <= i < |messages| - 1 ==> Answers(messages, i))
    && LastUnderway(messages, open)
  }

  predicate LastUnderway(messages: seq<Msg>, open: set<string>) {
    if messages == [] then open == {}
    else
      var n := |messages| - 1;
      var last := messages[n];
      if last.role == ByAssistant then multiset(Uses(last.content)) == multiset(open)
      else
        && multiset(Results(last.content)) + multiset(open) == Asked(messages, n)
        && (open != {} ==> OnlyResults(last.content))
  }

  lemma UnderwayEnds(messages: seq<Msg>)
    requires Underway(messages, {})
    ensures Protocol(messages)
  {
    hide Uses, Results;
    if messages != [] {
      NothingAsked(Uses(messages[|messages| - 1].content));
    }
  }

  lemma NothingAsked(ids: seq<string>)
    ensures multiset(ids) == multiset{} ==> ids == []
  {
    if ids != [] {
      assert ids[0] in multiset(ids);
    }
  }

  // ----- Blocks -----

  lemma {:induction false} UsesAppend(a: seq<Block>, b: seq<Block>)
    ensures Uses(a + b) == Uses(a) + Uses(b) && Results(a + b) == Results(a) + Results(b)
    decreases |b|
  {
    if b == [] {
      assert a + b == a;
    } else {
      var n := |b| - 1;
      assert (a + b)[..|a + b| - 1] == a + b[..n] && (a + b)[|a + b| - 1] == b[n];
      UsesAppend(a, b[..n]);
    }
  }

  lemma OneBlock(block: Block)
    ensures Uses([block]) == if block.ToolUse? then [block.id] else []
    ensures Results([block]) == if block.Result? then [block.id] else []
  {
    assert [block][..0] == [];
  }

  /** Neither calls nor results. */
  predicate Prose(blocks: seq<Block>) {
    forall i :: 0 <= i < |blocks| ==> !blocks[i].ToolUse? && !blocks[i].Result?
  }

  lemma {:induction false} ProseAsksNothing(blocks: seq<Block>)
    requires Prose(blocks)
    ensures Uses(blocks) == [] && Results(blocks) == []
  {
    if blocks != [] {
      ProseAsksNothing(blocks[..|blocks| - 1]);
    }
  }

  lemma {:induction false} PartsAreProse(parts: seq<Part>)
    ensures PartBlocks(parts).Some? ==> Prose(PartBlocks(parts).value)
  {
    if parts != [] {
      PartsAreProse(parts[..|parts| - 1]);
    }
  }

  lemma ContentIsProse(content: Content)
    ensures Blocks(content).Some? ==> Prose(Blocks(content).value)
  {
    if content.Parts? {
      PartsAreProse(content.parts);
    }
  }

  // ----- Pushing -----

  lemma DistinctJoin(a: seq<string>, b: seq<string>, open: set<string>)
    requires Distinct(a) && Distinct(b) && multiset(a) == multiset(open) && forall i :: 0 <= i < |b| ==> b[i] !in open
    ensures Distinct(a + b) && multiset(a + b) == multiset(open + Ids(b))
  {
    forall i, j | 0 <= i < j < |a + b| ensures (a + b)[i] != (a + b)[j] {
      if i < |a| <= j {
        assert a[i] in multiset(a);
      }
    }
    RepeatFree(b);
    assert multiset(a + b) == multiset(a) + multiset(b);
    assert open !! Ids(b);
  }

  predicate Fresh(ids: seq<string>, open: set<string>) {
    Distinct(ids) && forall i :: 0 <= i < |ids| ==> ids[i] !in open
  }

  lemma FreshParts(ids: seq<string>, open: set<string>)
    requires Fresh(ids, open)
    ensures Distinct(ids) && forall i :: 0 <= i < |ids| ==> ids[i] !in open
  {
  }

  /** The last message grows. */
  lemma ReplaceLast(messages: seq<Msg>, open: set<string>, m: Msg, open': set<string>)
    requires messages != [] && Underway(messages, open) && m.role == messages[|messages| - 1].role && SoundMessage(m)
    requires LastUnderway(messages[|messages| - 1 := m], open')
    ensures Underway(messages[|messages| - 1 := m], open')
  {
    hide LastUnderway, SoundMessage, Answers;
    var n := |messages| - 1;
    var after := messages[n := m];
    forall i | 0 <= i < n ensures Answers(after, i) { AnswersSame(messages, after, i); }
    forall i {:trigger after[i]} | 0 < i < |after| ensures after[i].role != after[i - 1].role {
      assert messages[i].role != messages[i - 1].role;
    }
  }

  lemma AnswersSame(a: seq<Msg>, b: seq<Msg>, i: nat)
    requires i < |a| && i < |b| && a[i] == b[i] && (i > 0 ==> a[i - 1] == b[i - 1])
    ensures Answers(a, i) == Answers(b, i)
  {
  }

  /** A message of the other role follows, with nothing left to answer before it. */
  lemma AddMessage(messages: seq<Msg>, open: set<string>, m: Msg, open': set<string>)
    requires Underway(messages, open) && !LastIs(messages, m.role) && SoundMessage(m)
    requires messages == [] || Answers(messages, |messages| - 1)
    requires LastUnderway(messages + [m], open')
    ensures Underway(messages + [m], open')
  {
    hide LastUnderway, SoundMessage, Answers;
    var after := messages + [m];
    forall i | 0 <= i < |messages| ensures Answers(after, i) { AnswersSame(messages, after, i); }
    forall i {:trigger after[i]} | 0 < i < |after| ensures after[i].role != after[i - 1].role {
      if i < |messages| { assert messages[i].role != messages[i - 1].role; }
    }
  }

  lemma LastAnswers(messages: seq<Msg>)
    requires LastUnderway(messages, {}) && messages != []
    ensures Answers(messages, |messages| - 1)
  {
    hide Uses, Results;
    var last := messages[|messages| - 1];
    if last.role == ByUser {
      var none: set<string> := {};
      assert multiset(Results(last.content)) + multiset(none) == multiset(Results(last.content));
    }
  }

  /** More blocks for an assistant message that is still being written. */
  lemma ExtendAssistant(messages: seq<Msg>, open: set<string>, blocks: seq<Block>)
    requires Underway(messages, open) && LastIs(messages, ByAssistant)
    requires Results(blocks) == [] && Fresh(Uses(blocks), open)
    ensures Underway(Push(messages, ByAssistant, blocks), open + Ids(Uses(blocks)))
  {
    hide Uses, Results, Distinct, Fresh, Ids;
    var n := |messages| - 1;
    var prior := messages[n].content;
    var m := Msg(ByAssistant, prior + blocks);
    assert SoundMessage(messages[n]);
    UsesAppend(prior, blocks);
    FreshParts(Uses(blocks), open);
    DistinctJoin(Uses(prior), Uses(blocks), open);
    assert Results(m.content) == [] + [];
    ReplaceLast(messages, open, m, open + Ids(Uses(blocks)));
  }

  /** A new assistant message, once every earlier call is answered. */
  lemma NewAssistant(messages: seq<Msg>, blocks: seq<Block>)
    requires Underway(messages, {}) && !LastIs(messages, ByAssistant)
    requires Results(blocks) == [] && Distinct(Uses(blocks))
    ensures Underway(Push(messages, ByAssistant, blocks), Ids(Uses(blocks)))
  {
    hide Uses, Results, Distinct, Ids;
    RepeatFree(Uses(blocks));
    if messages != [] {
      LastAnswers(messages);
    }
    AddMessage(messages, {}, Msg(ByAssistant, blocks), Ids(Uses(blocks)));
  }

  lemma PushAssistant(messages: seq<Msg>, open: set<string>, blocks: seq<Block>)
    requires Underway(messages, open) && (open == {} || LastIs(messages, ByAssistant))
    requires Results(blocks) == [] && Fresh(Uses(blocks), open)
    ensures Underway(Push(messages, ByAssistant, blocks), open + Ids(Uses(blocks)))
  {
    hide Underway, Uses, Results, Push, Ids;
    if LastIs(messages, ByAssistant) {
      ExtendAssistant(messages, open, blocks);
    } else {
      NewAssistant(messages, blocks);
      assert {} + Ids(Uses(blocks)) == Ids(Uses(blocks));
    }
  }

  /** The first result of a call opens a user message. */
  lemma FirstResult(messages: seq<Msg>, open: set<string>, id: string, text: string)
    requires Underway(messages, open) && id in open && LastIs(messages, ByAssistant)
    ensures Underway(Push(messages, ByUser, [Result(id, text)]), open - {id})
  {
    hide Uses, Results;
    var blocks := [Result(id, text)];
    var m := Msg(ByUser, blocks);
    OneBlock(blocks[0]);
    TakeOut(open, id);
    assert multiset(Results(blocks)) == multiset{id};
    assert (messages + [m])[|messages| - 1] == messages[|messages| - 1];
    AddMessage(messages, open, m, open - {id});
  }

  /** Further results stand behind the results before them. */
  lemma NextResult(messages: seq<Msg>, open: set<string>, id: string, text: string)
    requires Underway(messages, open) && id in open && LastIs(messages, ByUser)
    ensures Underway(Push(messages, ByUser, [Result(id, text)]), open - {id})
  {
    hide Uses, Results;
    var n := |messages| - 1;
    var prior, blocks := messages[n].content, [Result(id, text)];
    var m := Msg(ByUser, prior + blocks);
    assert SoundMessage(messages[n]);
    UsesAppend(prior, blocks);
    OneBlock(blocks[0]);
    TakeOut(open, id);
    assert Uses(m.content) == [] + [];
    assert multiset(Results(m.content)) == multiset(Results(prior)) + multiset{id};
    assert OnlyResults(m.content);
    assert Asked(messages[n := m], n) == Asked(messages, n);
    ReplaceLast(messages, open, m, open - {id});
  }

  lemma PushResult(messages: seq<Msg>, open: set<string>, id: string, text: string)
    requires Underway(messages, open) && id in open
    ensures Underway(Push(messages, ByUser, [Result(id, text)]), open - {id})
  {
    hide Push, Uses, Results;
    if LastIs(messages, ByAssistant) {
      FirstResult(messages, open, id, text);
    } else {
      assert messages != [];
      NextResult(messages, open, id, text);
    }
  }

  lemma ProseBehind(prior: seq<Block>, blocks: seq<Block>)
    requires Prose(blocks) && ResultsFirst(prior)
    ensures Uses(prior + blocks) == Uses(prior) && Results(prior + blocks) == Results(prior)
            && ResultsFirst(prior + blocks)
  {
    hide Uses, Results;
    UsesAppend(prior, blocks);
    ProseAsksNothing(blocks);
    assert Results(prior) + [] == Results(prior) && Uses(prior) + [] == Uses(prior);
  }

  lemma ExtendUser(messages: seq<Msg>, blocks: seq<Block>)
    requires Underway(messages, {}) && Prose(blocks) && LastIs(messages, ByUser)
    ensures Underway(Push(messages, ByUser, blocks), {})
  {
    hide Uses, Results, ResultsFirst, Prose;
    var n := |messages| - 1;
    var prior := messages[n].content;
    var m := Msg(ByUser, prior + blocks);
    assert SoundMessage(messages[n]);
    ProseBehind(prior, blocks);
    assert Asked(messages[n := m], n) == Asked(messages, n);
    ReplaceLast(messages, {}, m, {});
  }

  lemma NewUser(messages: seq<Msg>, blocks: seq<Block>)
    requires Underway(messages, {}) && Prose(blocks) && !LastIs(messages, ByUser)
    ensures Underway(Push(messages, ByUser, blocks), {})
  {
    hide Uses, Results;
    ProseAsksNothing(blocks);
    var m := Msg(ByUser, blocks);
    if messages != [] {
      LastAnswers(messages);
      NothingAsked(Uses(messages[|messages| - 1].content));
      assert (messages + [m])[|messages| - 1] == messages[|messages| - 1];
    }
    AddMessage(messages, {}, m, {});
  }

  /** User content, once every call is answered. */
  lemma PushUser(messages: seq<Msg>, blocks: seq<Block>)
    requires Underway(messages, {}) && Prose(blocks)
    ensures Underway(Push(messages, ByUser, blocks), {})
  {
    hide Underway, Push, Prose;
    if LastIs(messages, ByUser) {
      ExtendUser(messages, blocks);
    } else {
      NewUser(messages, blocks);
    }
  }

  // ----- The walk -----

  /** Native blocks repeat the public calls of their span and hold no results. */
  predicate NativeMatches(piece: Piece<Native>) {
    match piece
    case Span(calls, native, _) =>
      native.Some? ==>
        && Results(native.value) == [] && Distinct(Uses(native.value))
        && Ids(Uses(native.value)) == Ids(calls)
    case Trailing(native) => native.Some? ==> Results(native.value) == [] && Uses(native.value) == []
    case Single(_, _) => true
  }

  predicate AllMatch(pieces: seq<Piece<Native>>) {
    forall i :: 0 <= i < |pieces| ==> NativeMatches(pieces[i])
  }

  lemma ApplySpan(st: State, piece: Piece<Native>, bridge: bool)
    requires piece.Span? && Underway(st.messages, st.pending.Keys) && NativeMatches(piece)
             && Apply(st, piece, bridge).Ok?
    ensures var after := Apply(st, piece, bridge).value;
            Underway(after.messages, after.pending.Keys)
  {
    hide Underway, Uses, Results, Push, Opened, Distinct, Ids;
    var blocks := piece.native.value;
    assert st.pending.Keys == {};
    FreshStart(Uses(blocks));
    PushAssistant(st.messages, {}, blocks);
  }

  lemma FreshStart(ids: seq<string>)
    requires Distinct(ids)
    ensures Fresh(ids, {})
  {
  }

  lemma ApplyMessage(st: State, piece: Piece<Native>, bridge: bool)
    requires piece.Single? && piece.item.Message? && Underway(st.messages, st.pending.Keys)
             && Apply(st, piece, bridge).Ok?
    ensures var after := Apply(st, piece, bridge).value;
            Underway(after.messages, after.pending.Keys)
  {
    hide Underway, Uses, Results, Push, Ids, Blocks, Prose, Fresh;
    var role, content := piece.item.role, piece.item.content;
    ContentIsProse(content);
    if role == Role.User {
      assert st.pending.Keys == {};
      PushUser(st.messages, Blocks(content).value);
    } else if role == Role.Assistant {
      var blocks := Blocks(content).value;
      ProseAsksNothing(blocks);
      NothingFresh(st.pending.Keys);
      PushAssistant(st.messages, st.pending.Keys, blocks);
    }
  }

  lemma NothingFresh(open: set<string>)
    ensures Fresh([], open) && open + Ids([]) == open
  {
  }

  lemma ApplyTool(st: State, piece: Piece<Native>, bridge: bool)
    requires piece.Single? && !piece.item.Message? && Underway(st.messages, st.pending.Keys)
             && Apply(st, piece, bridge).Ok?
    requires piece.item.ToolCall? ==> piece.item.id !in st.pending
    ensures var after := Apply(st, piece, bridge).value;
            Underway(after.messages, after.pending.Keys)
  {
    hide Underway, Uses, Results, Push, Ids, Fresh;
    var after := Apply(st, piece, bridge).value;
    match piece.item
    case ToolCall(id, lowered) =>
      var use := ToolUse(id, lowered.value.name, lowered.value.arguments);
      OneBlock(use);
      OneFresh(id, st.pending.Keys);
      assert after.pending.Keys == st.pending.Keys + {id};
      CallsWhilePending(st.messages, st.pending.Keys);
      PushAssistant(st.messages, st.pending.Keys, [use]);
    case ToolResult(id, _, text) =>
      assert after.pending.Keys == st.pending.Keys - {id};
      PushResult(st.messages, st.pending.Keys, id, text.value);
  }

  /** Open calls imply messages. */
  lemma CallsWhilePending(messages: seq<Msg>, open: set<string>)
    requires Underway(messages, open)
    ensures open != {} ==> messages != []
  {
  }

  lemma OneFresh(id: string, open: set<string>)
    ensures Ids([id]) == {id} && (id !in open ==> Fresh([id], open))
  {
    assert [id][0] == id;
  }

  lemma StepUnderway(st: State, piece: Piece<Native>, bridge: bool)
    requires Underway(st.messages, st.pending.Keys) && NativeMatches(piece) && !piece.Trailing?
             && Apply(st, piece, bridge).Ok?
    requires forall i :: 0 <= i < |CallsOf(piece)| ==> CallsOf(piece)[i] !in st.pending
    ensures var after := Apply(st, piece, bridge).value;
            Underway(after.messages, after.pending.Keys)
  {
    hide Underway, NativeMatches, Apply;
    if piece.Span? {
      ApplySpan(st, piece, bridge);
    } else if piece.item.Message? {
      ApplyMessage(st, piece, bridge);
    } else {
      assert piece.item.ToolCall? ==> CallsOf(piece)[0] == piece.item.id;
      ApplyTool(st, piece, bridge);
    }
  }

  lemma {:induction false} RunObeysProtocol(st: State, pieces: seq<Piece<Native>>, bridge: bool)
    requires Underway(st.messages, st.pending.Keys) && AllMatch(pieces) && TrailingLast(pieces)
             && NoReissue(st.pending, pieces)
    requires Run(st, pieces, bridge).Ok? && Run(st, pieces, bridge).value.pending == map[]
    ensures Protocol(Run(st, pieces, bridge).value.messages)
    decreases |pieces|
  {
    if pieces == [] {
      UnderwayEnds(st.messages);
    } else if pieces[0].Trailing? {
      TrailingObeysProtocol(st, pieces, bridge);
    } else {
      hide Underway, Protocol, NativeMatches, Apply;
      StepUnderway(st, pieces[0], bridge);
      PendingFollows(st, pieces[0], bridge);
      RunObeysProtocol(Apply(st, pieces[0], bridge).value, pieces[1..], bridge);
    }
  }

  lemma TrailingObeysProtocol(st: State, pieces: seq<Piece<Native>>, bridge: bool)
    requires Underway(st.messages, st.pending.Keys) && AllMatch(pieces) && TrailingLast(pieces)
    requires pieces != [] && pieces[0].Trailing?
    requires Run(st, pieces, bridge).Ok? && Run(st, pieces, bridge).value.pending == map[]
    ensures Protocol(Run(st, pieces, bridge).value.messages)
  {
    var native := pieces[0].native;
    assert NativeMatches(pieces[0]) && pieces == [Trailing(native)];
    hide Underway, Protocol, Uses, Results, Push, Ids, Fresh, Run;
    TailApplies(st, native, bridge);
    var none: set<string> := {};
    assert st.pending.Keys == none;
    NothingFresh(none);
    PushAssistant(st.messages, none, native.value);
    UnderwayEnds(Push(st.messages, ByAssistant, native.value));
  }

  // ----- Distinct call ids -----

  lemma PendingFollows(st: State, piece: Piece<Native>, bridge: bool)
    requires Apply(st, piece, bridge).Ok?
    ensures Apply(st, piece, bridge).value.pending == PendingAfter(st.pending, piece)
  {
    hide Push, Blocks, Opened;
  }

  /** For distinct call ids and spans whose native calls match, every encoding that
      succeeds obeys the provider's protocol. */
  lemma EncodingObeysProtocol(items: seq<Item>, segments: map<nat, Segment<Native>>, bridge: bool)
    requires Distinct(CallIds(items)) && AllMatch(Pieces(items, segments, 0))
    ensures Encoding(Items(items), segments, bridge).Ok? ==>
              Protocol(Encoding(Items(items), segments, bridge).value.messages)
  {
    hide Run, Pieces, Protocol, NativeMatches, CallIds, AllCalls, NoReissue;
    var pieces := Pieces(items, segments, 0);
    if Encoding(Items(items), segments, bridge).Ok? {
      WalkKeepsCalls(items, segments, 0);
      assert items[0..] == items;
      PrefixOfDistinct(AllCalls(pieces), CallIds(items));
      DistinctCallsAreNotReissued(START.pending, pieces);
      PiecesEndWithTrailing(items, segments, 0);
      RunObeysProtocol(START, pieces, bridge);
    }
  }

  // ----- Content order -----

  /** Blocks with their speaker, in order. */
  function Spoken(role: Speaker, blocks: seq<Block>): seq<(Speaker, Block)> {
    seq(|blocks|, i requires 0 <= i < |blocks| => (role, blocks[i]))
  }

  function Flat(messages: seq<Msg>): seq<(Speaker, Block)> {
    if messages == [] then []
    else
      var last := messages[|messages| - 1];
      Flat(messages[..|messages| - 1]) + Spoken(last.role, last.content)
  }

  /** The parts this provider takes: text, and remote images without a detail. */
  predicate SendablePart(part: Part) {
    part.TextPart? || (part.ImagePart? && part.detail == None && "https://" <= part.url)
  }

  predicate SendableContent(content: Content) {
    content.Text? || forall i :: 0 <= i < |content.parts| ==> SendablePart(content.parts[i])
  }

  function ShownPart(part: Part): Block
    requires SendablePart(part)
  {
    if part.TextPart? then TextBlock(part.text) else ImageBlock(part.url)
  }

  /** One block per part, in order; a text is one block. */
  function ShownContent(content: Content): seq<Block>
    requires SendableContent(content)
  {
    match content
    case Text(text) => [TextBlock(text)]
    case Parts(parts) => seq(|parts|, i requires 0 <= i < |parts| => ShownPart(parts[i]))
  }

  /** Content is sent exactly if every part of it can be, part by part. */
  lemma ContentByPart(content: Content)
    ensures Blocks(content).Some? <==> SendableContent(content)
    ensures Blocks(content).Some? ==> Blocks(content).value == ShownContent(content)
  {
    match content
    case Text(text) =>
    case Parts(parts) => PartsByPart(parts);
  }

  lemma {:induction false} PartsByPart(parts: seq<Part>)
    ensures PartBlocks(parts).Some? <==> forall i :: 0 <= i < |parts| ==> SendablePart(parts[i])
    ensures PartBlocks(parts).Some? ==>
              && |PartBlocks(parts).value| == |parts|
              && forall i :: 0 <= i < |parts| ==>
                   SendablePart(parts[i]) && PartBlocks(parts).value[i] == ShownPart(parts[i])
  {
    if parts != [] {
      PartsByPart(parts[..|parts| - 1]);
    }
  }

  /** What a piece contributes, whatever stands around it. */
  function Translation(piece: Piece<Native>): seq<(Speaker, Block)> {
    match piece
    case Span(_, native, _) => if native.Some? then Spoken(ByAssistant, native.value) else []
    case Trailing(native) => if native.Some? then Spoken(ByAssistant, native.value) else []
    case Single(_, item) =>
      match item
      case Message(role, content) =>
        if role == System || role == Developer || !SendableContent(content) then []
        else Spoken(if role == Role.User then ByUser else ByAssistant, ShownContent(content))
      case ToolCall(id, lowered) =>
        if lowered.None? then [] else Spoken(ByAssistant, [ToolUse(id, lowered.value.name, lowered.value.arguments)])
      case ToolResult(id, _, text) => if text.None? then [] else Spoken(ByUser, [Result(id, text.value)])
      case OtherItem => []
  }

  function Translations(pieces: seq<Piece<Native>>): seq<(Speaker, Block)> {
    if pieces == [] then [] else Translation(pieces[0]) + Translations(pieces[1..])
  }

  lemma FlatPush(messages: seq<Msg>, role: Speaker, blocks: seq<Block>)
    ensures Flat(Push(messages, role, blocks)) == Flat(messages) + Spoken(role, blocks)
  {
    var after := Push(messages, role, blocks);
    var n := |after| - 1;
    if LastIs(messages, role) {
      assert after[..n] == messages[..n];
      assert Spoken(role, messages[n].content + blocks) == Spoken(role, messages[n].content) + Spoken(role, blocks);
    } else {
      assert after[..n] == messages;
    }
  }

  lemma ApplyTranslates(st: State, piece: Piece<Native>, bridge: bool)
    requires Apply(st, piece, bridge).Ok?
    ensures Flat(Apply(st, piece, bridge).value.messages) == Flat(st.messages) + Translation(piece)
  {
    hide Flat, Push, Blocks, Spoken, Opened, SendableContent, ShownContent;
    match piece
    case Span(_, native, _) => FlatPush(st.messages, ByAssistant, native.value);
    case Trailing(native) => FlatPush(st.messages, ByAssistant, native.value);
    case Single(_, item) =>
      match item
      case Message(role, content) =>
        if role == Role.User || role == Role.Assistant {
          ContentByPart(content);
          FlatPush(st.messages, if role == Role.User then ByUser else ByAssistant, Blocks(content).value);
        } else {
          assert Flat(st.messages) + [] == Flat(st.messages);
        }
      case ToolCall(id, lowered) =>
        FlatPush(st.messages, ByAssistant, [ToolUse(id, lowered.value.name, lowered.value.arguments)]);
      case ToolResult(id, _, text) => FlatPush(st.messages, ByUser, [Result(id, text.value)]);
  }

  /** The encoded blocks are the translations of the pieces, in order: nothing is lost,
      reordered or said by another speaker, and spans appear as their native blocks. */
  lemma {:induction false} EncodingKeepsOrder(st: State, pieces: seq<Piece<Native>>, bridge: bool)
    requires Run(st, pieces, bridge).Ok?
    ensures Flat(Run(st, pieces, bridge).value.messages) == Flat(st.messages) + Translations(pieces)
    decreases |pieces|
  {
    hide Apply, Flat, Translation;
    if pieces == [] {
      assert Flat(st.messages) + [] == Flat(st.messages);
    } else {
      ApplyTranslates(st, pieces[0], bridge);
      EncodingKeepsOrder(Apply(st, pieces[0], bridge).value, pieces[1..], bridge);
      assert Flat(st.messages) + Translation(pieces[0]) + Translations(pieces[1..])
             == Flat(st.messages) + Translations(pieces);
    }
  }

  /** The instructions of the items, as the envelope carries them. */
  function Instructions(pieces: seq<Piece<Native>>): seq<Instruction> {
    if pieces == [] then []
    else
      (match pieces[0]
       case Single(position, Message(role, content)) =>
         if (role == System || role == Developer) && SendableContent(content)
         then [Instruction(role, position, ShownContent(content))] else []
       case _ => [])
      + Instructions(pieces[1..])
  }

  /** The envelope holds every instruction of the items, with role, position and text, in order. */
  lemma {:induction false} EnvelopeKeepsOrder(st: State, pieces: seq<Piece<Native>>, bridge: bool)
    requires Run(st, pieces, bridge).Ok?
    ensures Run(st, pieces, bridge).value.envelope == st.envelope + Instructions(pieces)
    decreases |pieces|
  {
    hide Push, Opened, Blocks, SendableContent, ShownContent;
    if pieces != [] {
      EnvelopeKeepsOrder(Apply(st, pieces[0], bridge).value, pieces[1..], bridge);
      if pieces[0].Single? && pieces[0].item.Message? {
        ContentByPart(pieces[0].item.content);
      }
    }
  }

  /** A whole encoding, flattened, is the translation of its pieces, with their instructions. */
  lemma EncodedConversation(items: seq<Item>, segments: map<nat, Segment<Native>>, bridge: bool)
    requires Encoding(Items(items), segments, bridge).Ok?
    ensures var st, pieces := Encoding(Items(items), segments, bridge).value, Pieces(items, segments, 0);
            Flat(st.messages) == Translations(pieces) && st.envelope == Instructions(pieces)
  {
    hide Run, Pieces, Translations, Instructions;
    var pieces := Pieces(items, segments, 0);
    EncodingKeepsOrder(START, pieces, bridge);
    EnvelopeKeepsOrder(START, pieces, bridge);
    assert [] + Translations(pieces) == Translations(pieces) && [] + Instructions(pieces) == Instructions(pieces);
  }

  /** A text is one user message, and nothing at all is refused. */
  lemma EncodedText(text: string, segments: map<nat, Segment<Native>>, bridge: bool)
    ensures Encoding(TextInput(text), segments, bridge) == Ok(State([Msg(ByUser, [TextBlock(text)])], map[], []))
    ensures Encoding(NoInput, segments, bridge).Err?
  {
    hide Run, Pieces;
    var m := Msg(ByUser, [TextBlock(text)]);
    assert Push([], ByUser, [TextBlock(text)]) == [] + [m] == [m];
  }

  // ----- Conversations that are taken -----

  lemma FineApplies(st: State, answered: bool, piece: Piece<Native>, bridge: bool)
    requires st.pending != map[] && LastIs(st.messages, ByUser) ==> answered
    requires Fine(st.pending, answered, piece, (role, content) => SendableContent(content), native => true)
    ensures Apply(st, piece, bridge).Ok?
    ensures var after := Apply(st, piece, bridge).value;
            && after.pending == PendingAfter(st.pending, piece) && after.messages != []
            && (LastIs(after.messages, ByUser) && after.pending != map[] ==> IsResult(piece))
  {
    hide Blocks, SendableContent, Opened;
    if piece.Single? && piece.item.Message? {
      ContentByPart(piece.item.content);
    }
  }

  lemma {:induction false} FineRunEncodes(st: State, answered: bool, pieces: seq<Piece<Native>>, bridge: bool)
    requires st.pending != map[] && LastIs(st.messages, ByUser) ==> answered
    requires FineRun(st.pending, answered, pieces, (role, content) => SendableContent(content), native => true)
    ensures Run(st, pieces, bridge).Ok? && Run(st, pieces, bridge).value.pending == PendingEnd(st.pending, pieces)
    ensures pieces != [] || st.messages != [] ==> Run(st, pieces, bridge).value.messages != []
    decreases |pieces|
  {
    hide Apply, Fine, PendingAfter, SendableContent;
    if pieces != [] {
      FineApplies(st, answered, pieces[0], bridge);
      FineRunEncodes(Apply(st, pieces[0], bridge).value, IsResult(pieces[0]), pieces[1..], bridge);
    }
  }

  /** Any conversation of speech that can be sent and of calls with their answers is encoded. */
  lemma RoundsEncode(rounds: seq<Round>, bridge: bool)
    requires Conversation.Spoken(rounds) != []
    requires forall i :: 0 <= i < |rounds| ==> GoodRound(rounds[i], (role, content) => SendableContent(content))
    ensures Encoding(Items(Conversation.Spoken(rounds)), map[], bridge).Ok?
  {
    hide Run, Pieces, FineRun, PendingEnd, Conversation.Spoken, GoodRound, Walk;
    var items := Conversation.Spoken(rounds);
    RoundsAreFine<Native>(rounds, false, 0, (role, content) => SendableContent(content), native => true);
    WalkIsPieces<Native>(items, 0);
    assert items[0..] == items;
    FineRunEncodes(START, false, Pieces(items, map[], 0), bridge);
    WalkNext<Native>(items, 0);
  }

  // ----- Exactly what is refused -----

  /** A step succeeds exactly under these conditions: a span in bounds, of this format, with no call
      waiting; instructions as text, through the bridge, before anything is said; speech that can be
      sent where no call waits, or by the assistant behind itself; a call that lowers, not between the
      results of others; and the result of a waiting call that lowers, unless the call was replayed. */
  lemma AppliesIff(st: State, piece: Piece<Native>, bridge: bool)
    ensures piece.Span? ==>
              (Apply(st, piece, bridge).Ok? <==> piece.native.Some? && piece.inBounds && st.pending == map[])
    ensures piece.Trailing? ==> (Apply(st, piece, bridge).Ok? <==> piece.native.Some?)
    ensures piece.Single? && piece.item.Message? && piece.item.role in {System, Developer} ==>
              (Apply(st, piece, bridge).Ok?
               <==> && bridge && st.messages == []
                    && (piece.item.content.Parts? ==>
                          forall i :: 0 <= i < |piece.item.content.parts| ==> piece.item.content.parts[i].TextPart?))
    ensures piece.Single? && piece.item.Message? && piece.item.role in {User, Assistant} ==>
              (Apply(st, piece, bridge).Ok?
               <==> && SendableContent(piece.item.content)
                    && (st.pending == map[]
                        || (piece.item.role == Assistant && st.messages != []
                            && st.messages[|st.messages| - 1].role == ByAssistant)))
    ensures piece.Single? && piece.item.ToolCall? ==>
              (Apply(st, piece, bridge).Ok?
               <==> && piece.item.lowered.Some?
                    && (st.pending == map[] || st.messages == [] || st.messages[|st.messages| - 1].role == ByAssistant))
    ensures piece.Single? && piece.item.ToolResult? ==>
              (Apply(st, piece, bridge).Ok?
               <==> && piece.item.id in st.pending && piece.item.text.Some?
                    && (st.pending[piece.item.id] || piece.item.lowers))
    ensures piece.Single? && piece.item.OtherItem? ==> Apply(st, piece, bridge).Err?
  {
    hide Blocks, Push, Opened;
    if piece.Single? && piece.item.Message? {
      ContentByPart(piece.item.content);
      if Blocks(piece.item.content).Some? && piece.item.content.Parts? {
        var blocks, parts := Blocks(piece.item.content).value, piece.item.content.parts;
        assert forall i :: 0 <= i < |parts| ==> (blocks[i].TextBlock? <==> parts[i].TextPart?);
      }
    }
  }
}
