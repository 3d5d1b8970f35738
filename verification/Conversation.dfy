/** The flat item list of a request and the replay spans of a verified history, as both
    provider encoders walk over them. */
module Conversation {
  import opened Common

  datatype Role = System | Developer | User | Assistant

  datatype Part =
    | TextPart(text: string)
    | ImagePart(url: string, detail: Option<string>)
    | ExtensionPart

  datatype Content = Text(text: string) | Parts(parts: seq<Part>)

  /** A lowered tool call: the provider's tool name and a JSON object as text. */
  datatype Lowered = Lowered(name: string, arguments: string)

  datatype Item =
    | Message(role: Role, content: Content)
    | ToolCall(id: string, lowered: Option<Lowered>)
    | ToolResult(id: string, lowers: bool, text: Option<string>)
    | OtherItem

  datatype Error = Unsupported | InvalidToolMapping | ContinuityMismatch | InvalidCall | InvalidResult

  datatype Input = NoInput | TextInput(text: string) | Items(items: seq<Item>)

  /** A span of public items that stands for native provider state; `native` is absent when
      the state belongs to another provider format. */
  datatype Segment<N> = Segment(end: nat, native: Option<N>)

  /** What the walk meets, in order. */
  datatype Piece<N> =
    | Span(calls: seq<string>, native: Option<N>, inBounds: bool)
    | Single(position: nat, item: Item)
    | Trailing(native: Option<N>)

  function CallIds(items: seq<Item>): seq<string> {
    if items == [] then []
    else
      var last := items[|items| - 1];
      CallIds(items[..|items| - 1]) + if last.ToolCall? then [last.id] else []
  }

  /** The walk from `position` on: a span replaces its items, an empty span stands before
      the next item, and a span at the very end closes the walk. */
  function Pieces<N>(items: seq<Item>, segments: map<nat, Segment<N>>, position: nat): seq<Piece<N>>
    requires position <= |items|
    decreases |items| - position
  {
    if position == |items| then
      if position in segments then [Trailing(segments[position].native)] else []
    else if position in segments then
      var s := segments[position];
      if s.end < position || s.end > |items| then [Span([], s.native, false)]
      else if s.end > position then
        [Span(CallIds(items[position..s.end]), s.native, true)] + Pieces(items, segments, s.end)
      else
        [Span([], s.native, true), Single(position, items[position])] + Pieces(items, segments, position + 1)
    else
      [Single(position, items[position])] + Pieces(items, segments, position + 1)
  }

  /** Calls that wait for a result; the flag marks calls of replayed spans. */
  type Pending = map<string, bool>

  function Opened(pending: Pending, ids: seq<string>, replayed: bool): (p: Pending)
    ensures p.Keys == pending.Keys + Ids(ids)
  {
    if ids == [] then pending
    else Opened(pending, ids[..|ids| - 1], replayed)[ids[|ids| - 1] := replayed]
  }

  function Ids(ids: seq<string>): set<string> {
    set i | 0 <= i < |ids| :: ids[i]
  }

  lemma OpenedNext(pending: Pending, ids: seq<string>, id: string, replayed: bool)
    ensures Opened(pending, ids + [id], replayed) == Opened(pending, ids, replayed)[id := replayed]
  {
    assert (ids + [id])[..|ids|] == ids;
  }

  lemma CallIdsNext(items: seq<Item>, k: nat)
    requires k < |items|
    ensures CallIds(items[..k + 1]) == CallIds(items[..k]) + if items[k].ToolCall? then [items[k].id] else []
  {
    assert items[..k + 1][..k] == items[..k];
  }

  /** The inner loop over the items of a span. */
  method OpenCalls(pending: Pending, items: seq<Item>) returns (after: Pending)
    ensures after == Opened(pending, CallIds(items), true)
  {
    after := pending;
    assert CallIds(items[..0]) == [] && Opened(pending, [], true) == pending;
    hide CallIds, Opened;
    for k := 0 to |items|
      invariant after == Opened(pending, CallIds(items[..k]), true)
    {
      CallIdsNext(items, k);
      if items[k].ToolCall? {
        OpenedNext(pending, CallIds(items[..k]), items[k].id, true);
        after := after[items[k].id := true];
      } else {
        assert CallIds(items[..k]) + [] == CallIds(items[..k]);
      }
    }
    assert items[..|items|] == items;
  }

  function SpanAt<N>(items: seq<Item>, position: nat, segment: Segment<N>): Piece<N>
    requires position <= |items|
  {
    var bounds := position <= segment.end <= |items|;
    Span(if bounds then CallIds(items[position..segment.end]) else [], segment.native, bounds)
  }

  lemma AtEnd<N>(items: seq<Item>, segments: map<nat, Segment<N>>)
    ensures Pieces(items, segments, |items|) == if |items| in segments then [Trailing(segments[|items|].native)] else []
  {
  }

  lemma AtPosition<N>(items: seq<Item>, segments: map<nat, Segment<N>>, position: nat)
    requires position < |items|
    ensures var pieces, single := Pieces(items, segments, position),
                                  [Single(position, items[position])] + Pieces(items, segments, position + 1);
            if position !in segments then pieces == single
            else
              var s := segments[position];
              && pieces == [SpanAt(items, position, s)] + pieces[1..]
              && SpanAt(items, position, s).Span?
              && SpanAt(items, position, s).inBounds == (position <= s.end <= |items|)
              && (position < s.end <= |items| ==> pieces[1..] == Pieces(items, segments, s.end))
              && (s.end == position ==> pieces[1..] == single)
  {
    if position in segments {
      var s := segments[position];
      if s.end == position {
        assert items[position..s.end] == [];
      }
    }
  }

  lemma IdsNext(ids: seq<string>, id: string)
    ensures Ids(ids + [id]) == Ids(ids) + {id}
  {
    var more := ids + [id];
    assert more[|ids|] == id && forall i :: 0 <= i < |ids| ==> more[i] == ids[i];
  }

  lemma {:induction false} RepeatFree(ids: seq<string>)
    requires Distinct(ids)
    ensures multiset(ids) == multiset(Ids(ids))
  {
    if ids != [] {
      var init, last := ids[..|ids| - 1], ids[|ids| - 1];
      RepeatFree(init);
      assert ids == init + [last];
      assert last !in Ids(init);
      IdsNext(init, last);
      assert multiset(ids) == multiset(init) + multiset{last};
      assert multiset(Ids(init) + {last}) == multiset(Ids(init)) + multiset{last};
    }
  }

  lemma TakeOut(open: set<string>, id: string)
    requires id in open
    ensures multiset(open) == multiset{id} + multiset(open - {id})
  {
  }

  /** The walk meets a trailing span only at its end. */
  predicate TrailingLast<N>(pieces: seq<Piece<N>>) {
    forall i :: 0 <= i < |pieces| - 1 ==> !pieces[i].Trailing?
  }

  function CallsOf<N>(piece: Piece<N>): seq<string> {
    match piece
    case Span(calls, _, _) => calls
    case Single(_, item) => if item.ToolCall? then [item.id] else []
    case Trailing(_) => []
  }

  lemma {:induction false} PiecesEndWithTrailing<N>(items: seq<Item>, segments: map<nat, Segment<N>>, position: nat)
    requires position <= |items|
    ensures TrailingLast(Pieces(items, segments, position))
    decreases |items| - position
  {
    hide CallIds;
    if position < |items| {
      PiecesEndWithTrailing(items, segments, position + 1);
      if position in segments && position < segments[position].end <= |items| {
        PiecesEndWithTrailing(items, segments, segments[position].end);
      }
    }
  }

  function AllCalls<N>(pieces: seq<Piece<N>>): seq<string> {
    if pieces == [] then [] else CallsOf(pieces[0]) + AllCalls(pieces[1..])
  }

  lemma IdsAppend(a: seq<string>, b: seq<string>)
    ensures Ids(a + b) == Ids(a) + Ids(b)
    ensures Distinct(a + b) ==> Distinct(b) && Ids(a) !! Ids(b)
  {
    assert forall i :: 0 <= i < |a| ==> (a + b)[i] == a[i];
    assert forall i :: 0 <= i < |b| ==> (a + b)[|a| + i] == b[i];
  }

  lemma {:induction false} CallIdsAppend(a: seq<Item>, b: seq<Item>)
    ensures CallIds(a + b) == CallIds(a) + CallIds(b)
    decreases |b|
  {
    if b == [] {
      assert a + b == a;
    } else {
      var n := |b| - 1;
      assert (a + b)[..|a + b| - 1] == a + b[..n] && (a + b)[|a + b| - 1] == b[n];
      CallIdsAppend(a, b[..n]);
    }
  }

  /** The walk meets the calls of the items in their order. */
  lemma {:induction false} WalkKeepsCalls<N>(items: seq<Item>, segments: map<nat, Segment<N>>, position: nat)
    requires position <= |items|
    ensures AllCalls(Pieces(items, segments, position)) <= CallIds(items[position..])
    decreases |items| - position
  {
    if position == |items| {
      assert AllCalls(Pieces(items, segments, position)) == [];
    } else {
      hide CallIds, AllCalls, Pieces;
      var end := if position in segments && position < segments[position].end <= |items|
                 then segments[position].end else position + 1;
      var head, rest := items[position..end], items[end..];
      WalkKeepsCalls(items, segments, end);
      assert items[position..] == head + rest;
      CallIdsAppend(head, rest);
      PrefixBehind(CallIds(head), AllCalls(Pieces(items, segments, end)), CallIds(rest));
      AllCallsOfWalk(items, segments, position);
      if end == position + 1 {
        assert head == [items[position]];
        OneItem(items[position]);
      }
    }
  }

  lemma PrefixBehind(head: seq<string>, a: seq<string>, b: seq<string>)
    requires a <= b
    ensures head + a <= head + b
  {
  }

  lemma OneItem(item: Item)
    ensures CallIds([item]) == if item.ToolCall? then [item.id] else []
  {
    assert [item][..0] == [];
  }

  lemma AllCallsOfWalk<N>(items: seq<Item>, segments: map<nat, Segment<N>>, position: nat)
    requires position < |items|
    ensures var all, single := AllCalls(Pieces(items, segments, position)),
                               (if items[position].ToolCall? then [items[position].id] else [])
                                 + AllCalls(Pieces(items, segments, position + 1));
            if position !in segments || segments[position].end == position then all == single
            else if position < segments[position].end <= |items| then
              all == CallIds(items[position..segments[position].end])
                + AllCalls(Pieces(items, segments, segments[position].end))
            else all == []
  {
    hide CallIds;
    var pieces := Pieces(items, segments, position);
    var next := Single(position, items[position]);
    if position !in segments {
      assert pieces[0] == next && pieces[1..] == Pieces(items, segments, position + 1);
    } else if segments[position].end == position {
      assert pieces[1..] == [next] + Pieces(items, segments, position + 1);
      assert pieces[1..][1..] == Pieces(items, segments, position + 1);
    } else if position < segments[position].end <= |items| {
      assert pieces[1..] == Pieces(items, segments, segments[position].end);
    } else {
      assert pieces[1..] == [];
    }
  }

  lemma PrefixOfDistinct(a: seq<string>, b: seq<string>)
    requires a <= b && Distinct(b)
    ensures Distinct(a)
  {
  }

  // ----- Distinct call ids -----

  /** The calls that wait once a piece is taken. */
  function PendingAfter<N>(pending: Pending, piece: Piece<N>): Pending {
    match piece
    case Span(calls, _, _) => Opened(pending, calls, true)
    case Trailing(_) => pending
    case Single(_, item) =>
      match item
      case ToolCall(id, _) => pending[id := false]
      case ToolResult(id, _, _) => pending - {id}
      case _ => pending
  }

  /** No call is issued again while it still waits for its result. */
  predicate NoReissue<N>(pending: Pending, pieces: seq<Piece<N>>)
    decreases |pieces|
  {
    pieces != [] ==>
      && (forall i :: 0 <= i < |CallsOf(pieces[0])| ==> CallsOf(pieces[0])[i] !in pending)
      && NoReissue(PendingAfter(pending, pieces[0]), pieces[1..])
  }

  lemma CallsOpened<N>(pending: Pending, piece: Piece<N>)
    ensures PendingAfter(pending, piece).Keys <= pending.Keys + Ids(CallsOf(piece))
  {
    if piece.Single? && piece.item.ToolCall? {
      assert CallsOf(piece)[0] == piece.item.id;
    }
  }

  lemma {:induction false} DistinctCallsAreNotReissued<N>(pending: Pending, pieces: seq<Piece<N>>)
    requires Distinct(AllCalls(pieces)) && pending.Keys !! Ids(AllCalls(pieces))
    ensures NoReissue(pending, pieces)
    decreases |pieces|
  {
    hide PendingAfter, CallsOf;
    if pieces != [] {
      var now, later := CallsOf(pieces[0]), AllCalls(pieces[1..]);
      CallsOpened(pending, pieces[0]);
      IdsAppend(now, later);
      DistinctCallsAreNotReissued(PendingAfter(pending, pieces[0]), pieces[1..]);
      assert forall i :: 0 <= i < |now| ==> now[i] in Ids(now);
    }
  }

  // ----- Conversations that every encoder takes -----

  /** Can the content be sent for this role? */
  type Sendable = (Role, Content) -> bool

  /** The piece fits behind calls that wait: speech and replayed spans only where none does, calls
      only before the first result, results only for waiting calls. */
  predicate Fine<N>(pending: Pending, answered: bool, piece: Piece<N>, sendable: Sendable, native: N -> bool) {
    match piece
    case Span(_, replay, inBounds) => replay.Some? && native(replay.value) && inBounds && pending == map[]
    case Trailing(replay) => replay.Some? && native(replay.value)
    case Single(_, item) =>
      match item
      case Message(role, content) => (role == User || role == Assistant) && pending == map[] && sendable(role, content)
      case ToolCall(_, lowered) => lowered.Some? && (pending == map[] || !answered)
      case ToolResult(id, lowers, text) => id in pending && (pending[id] || lowers) && text.Some?
      case OtherItem => false
  }

  predicate IsResult<N>(piece: Piece<N>) {
    piece.Single? && piece.item.ToolResult?
  }

  predicate FineRun<N>(pending: Pending, answered: bool, pieces: seq<Piece<N>>, sendable: Sendable, native: N -> bool)
    decreases |pieces|
  {
    pieces == []
    || (Fine(pending, answered, pieces[0], sendable, native)
        && FineRun(PendingAfter(pending, pieces[0]), IsResult(pieces[0]), pieces[1..], sendable, native))
  }

  /** The calls that still wait at the end. */
  function PendingEnd<N>(pending: Pending, pieces: seq<Piece<N>>): Pending
    decreases |pieces|
  {
    if pieces == [] then pending else PendingEnd(PendingAfter(pending, pieces[0]), pieces[1..])
  }

  /** A round of a conversation: someone speaks, or calls are issued together and then answered, in
      any order. */
  datatype Round = Say(role: Role, content: Content) | Ask(calls: seq<Item>, results: seq<Item>)

  function RoundItems(round: Round): seq<Item> {
    match round
    case Say(role, content) => [Message(role, content)]
    case Ask(calls, results) => calls + results
  }

  function ResultIds(results: seq<Item>): seq<string> {
    seq(|results|, i requires 0 <= i < |results| => if results[i].ToolResult? then results[i].id else "")
  }

  function IssuedIds(calls: seq<Item>): seq<string> {
    seq(|calls|, i requires 0 <= i < |calls| => if calls[i].ToolCall? then calls[i].id else "")
  }

  predicate GoodRound(round: Round, sendable: Sendable) {
    match round
    case Say(role, content) => (role == User || role == Assistant) && sendable(role, content)
    case Ask(calls, results) =>
      && (forall i :: 0 <= i < |calls| ==> calls[i].ToolCall? && calls[i].lowered.Some?)
      && (forall i :: 0 <= i < |results| ==> results[i].ToolResult? && results[i].lowers && results[i].text.Some?)
      && Distinct(ResultIds(results)) && Ids(ResultIds(results)) == Ids(IssuedIds(calls))
  }

  function Spoken(rounds: seq<Round>): seq<Item> {
    if rounds == [] then [] else RoundItems(rounds[0]) + Spoken(rounds[1..])
  }

  /** The walk over items without replayed spans. */
  function Walk<N>(items: seq<Item>, position: nat): seq<Piece<N>>
    decreases |items|
  {
    if items == [] then [] else [Single(position, items[0])] + Walk(items[1..], position + 1)
  }

  lemma {:induction false} WalkIsPieces<N>(items: seq<Item>, position: nat)
    requires position <= |items|
    ensures Pieces<N>(items, map[], position) == Walk<N>(items[position..], position)
    decreases |items| - position
  {
    if position < |items| {
      WalkIsPieces<N>(items, position + 1);
      assert items[position..][1..] == items[position + 1..];
    }
  }

  lemma FineNext<N>(pending: Pending, answered: bool, piece: Piece<N>, rest: seq<Piece<N>>, sendable: Sendable,
                    native: N -> bool)
    ensures FineRun(pending, answered, [piece] + rest, sendable, native)
            <==> Fine(pending, answered, piece, sendable, native)
                 && FineRun(PendingAfter(pending, piece), IsResult(piece), rest, sendable, native)
    ensures PendingEnd(pending, [piece] + rest) == PendingEnd(PendingAfter(pending, piece), rest)
  {
    hide Fine, PendingAfter;
    assert ([piece] + rest)[1..] == rest;
  }

  /** The results of a round, in whatever order, leave no call waiting. */
  lemma {:induction false} ResultsAreFine<N>(pending: Pending, answered: bool, results: seq<Item>, position: nat,
                                             rest: seq<Item>, sendable: Sendable, native: N -> bool)
    requires forall i :: 0 <= i < |results| ==> results[i].ToolResult? && results[i].lowers && results[i].text.Some?
    requires Distinct(ResultIds(results)) && pending.Keys == Ids(ResultIds(results))
    requires forall a, p :: FineRun(map[], a, Walk<N>(rest, p), sendable, native)
    requires forall p :: PendingEnd(map[], Walk<N>(rest, p)) == map[]
    ensures FineRun(pending, answered, Walk<N>(results + rest, position), sendable, native)
    ensures PendingEnd(pending, Walk<N>(results + rest, position)) == map[]
    decreases |results|
  {
    hide FineRun, PendingEnd, Walk;
    if results == [] {
      assert results + rest == rest && pending == map[];
    } else {
      var id, later := results[0].id, results[1..];
      FirstResult(results);
      assert (results + rest)[1..] == later + rest && (results + rest)[0] == results[0];
      WalkNext<N>(results + rest, position);
      var after := pending - {id};
      ResultsAreFine<N>(after, true, later, position + 1, rest, sendable, native);
      FineNext<N>(pending, answered, Single(position, results[0]), Walk<N>(later + rest, position + 1), sendable,
        native);
    }
  }

  lemma WalkNext<N>(items: seq<Item>, position: nat)
    requires items != []
    ensures Walk<N>(items, position) == [Single(position, items[0])] + Walk<N>(items[1..], position + 1)
  {
  }

  lemma FirstResult(results: seq<Item>)
    requires results != [] && results[0].ToolResult? && Distinct(ResultIds(results))
    ensures Distinct(ResultIds(results[1..])) && results[0].id in Ids(ResultIds(results))
    ensures Ids(ResultIds(results[1..])) == Ids(ResultIds(results)) - {results[0].id}
  {
    var ids, later := ResultIds(results), ResultIds(results[1..]);
    assert ids[0] == results[0].id && forall i :: 0 <= i < |later| ==> later[i] == ids[i + 1];
    forall x | x in Ids(ids) && x != ids[0] ensures x in Ids(later) {
      var i :| 0 <= i < |ids| && ids[i] == x;
      assert later[i - 1] == x;
    }
    forall x | x in Ids(later) ensures x in Ids(ids) && x != ids[0] {
      var i :| 0 <= i < |later| && later[i] == x;
      assert ids[i + 1] == x && ids[0] != ids[i + 1];
    }
  }

  lemma {:induction false} CallsAreFine<N>(pending: Pending, answered: bool, calls: seq<Item>, results: seq<Item>,
                                           position: nat, rest: seq<Item>, sendable: Sendable, native: N -> bool)
    requires pending == map[] || !answered
    requires forall i :: 0 <= i < |calls| ==> calls[i].ToolCall? && calls[i].lowered.Some?
    requires forall i :: 0 <= i < |results| ==> results[i].ToolResult? && results[i].lowers && results[i].text.Some?
    requires Distinct(ResultIds(results)) && pending.Keys + Ids(IssuedIds(calls)) == Ids(ResultIds(results))
    requires forall a, p :: FineRun(map[], a, Walk<N>(rest, p), sendable, native)
    requires forall p :: PendingEnd(map[], Walk<N>(rest, p)) == map[]
    ensures FineRun(pending, answered, Walk<N>(calls + results + rest, position), sendable, native)
    ensures PendingEnd(pending, Walk<N>(calls + results + rest, position)) == map[]
    decreases |calls|
  {
    hide FineRun, PendingEnd, Walk;
    var items := calls + results + rest;
    if calls == [] {
      assert items == results + rest && pending.Keys == Ids(ResultIds(results));
      ResultsAreFine<N>(pending, answered, results, position, rest, sendable, native);
    } else {
      var later := calls[1..];
      FirstCall(calls);
      assert items[1..] == later + results + rest && items[0] == calls[0];
      WalkNext<N>(items, position);
      CallsAreFine<N>(pending[calls[0].id := false], false, later, results, position + 1, rest, sendable, native);
      FineNext<N>(pending, answered, Single(position, calls[0]), Walk<N>(items[1..], position + 1), sendable, native);
    }
  }

  lemma FirstCall(calls: seq<Item>)
    requires calls != [] && calls[0].ToolCall?
    ensures Ids(IssuedIds(calls)) == {calls[0].id} + Ids(IssuedIds(calls[1..]))
  {
    var ids, later := IssuedIds(calls), IssuedIds(calls[1..]);
    assert ids[0] == calls[0].id && forall i :: 0 <= i < |later| ==> later[i] == ids[i + 1];
    forall x | x in Ids(ids) && x != ids[0] ensures x in Ids(later) {
      var i :| 0 <= i < |ids| && ids[i] == x;
      assert later[i - 1] == x;
    }
  }

  /** Rounds of speech and of calls with their answers are taken whole, from wherever they start. */
  lemma {:induction false} RoundsAreFine<N>(rounds: seq<Round>, answered: bool, position: nat, sendable: Sendable,
                                            native: N -> bool)
    requires forall i :: 0 <= i < |rounds| ==> GoodRound(rounds[i], sendable)
    ensures FineRun(map[], answered, Walk<N>(Spoken(rounds), position), sendable, native)
    ensures PendingEnd(map[], Walk<N>(Spoken(rounds), position)) == map[]
    decreases |rounds|
  {
    hide GoodRound;
    if rounds != [] {
      var rest := Spoken(rounds[1..]);
      forall a, p ensures FineRun(map[], a, Walk<N>(rest, p), sendable, native) {
        RoundsAreFine<N>(rounds[1..], a, p, sendable, native);
      }
      forall p ensures PendingEnd(map[], Walk<N>(rest, p)) == map[] {
        RoundsAreFine<N>(rounds[1..], true, p, sendable, native);
      }
      RoundIsFine<N>(rounds[0], answered, position, rest, sendable, native);
    }
  }

  lemma RoundIsFine<N>(round: Round, answered: bool, position: nat, rest: seq<Item>, sendable: Sendable,
                       native: N -> bool)
    requires GoodRound(round, sendable)
    requires forall a, p :: FineRun(map[], a, Walk<N>(rest, p), sendable, native)
    requires forall p :: PendingEnd(map[], Walk<N>(rest, p)) == map[]
    ensures FineRun(map[], answered, Walk<N>(RoundItems(round) + rest, position), sendable, native)
    ensures PendingEnd(map[], Walk<N>(RoundItems(round) + rest, position)) == map[]
  {
    hide FineRun, PendingEnd, Walk;
    match round
    case Say(role, content) =>
      var items := [Message(role, content)] + rest;
      assert items[1..] == rest;
      WalkNext<N>(items, position);
      FineNext<N>(map[], answered, Single(position, items[0]), Walk<N>(rest, position + 1), sendable, native);
    case Ask(calls, results) =>
      var none: set<string> := {};
      assert none + Ids(IssuedIds(calls)) == Ids(IssuedIds(calls));
      CallsAreFine<N>(map[], answered, calls, results, position, rest, sendable, native);
  }

  // ----- The walk covers the items -----

  /** The pieces tile the items from `position` on: single items in their places, spans over the items
      they replace, an empty span before an item, a span at the end; a span out of bounds ends it. */
  ghost predicate Tiles<N>(pieces: seq<Piece<N>>, items: seq<Item>, segments: map<nat, Segment<N>>, position: nat)
    decreases |pieces|
  {
    if pieces == [] then position == |items| && position !in segments
    else if pieces[0].Trailing? then
      position == |items| && position in segments && |pieces| == 1 && pieces[0].native == segments[position].native
    else if pieces[0].Single? then
      && position < |items| && (position in segments ==> segments[position].end == position)
      && pieces[0].position == position && pieces[0].item == items[position]
      && Tiles(pieces[1..], items, segments, position + 1)
    else
      && position < |items| && position in segments && pieces[0].native == segments[position].native
      && var end := segments[position].end;
         if !pieces[0].inBounds then (end < position || end > |items|) && |pieces| == 1
         else
           && position <= end <= |items| && pieces[0].calls == CallIds(items[position..end])
           && (if end > position then Tiles(pieces[1..], items, segments, end)
               else |pieces| > 1 && pieces[1].Single? && Tiles(pieces[1..], items, segments, position))
  }

  lemma TilesSingle<N>(rest: seq<Piece<N>>, items: seq<Item>, segments: map<nat, Segment<N>>, position: nat)
    requires position < |items| && (position in segments ==> segments[position].end == position)
    requires Tiles(rest, items, segments, position + 1)
    ensures Tiles([Single(position, items[position])] + rest, items, segments, position)
  {
    hide CallIds;
    assert ([Single(position, items[position])] + rest)[1..] == rest;
  }

  lemma TilesSpan<N>(rest: seq<Piece<N>>, items: seq<Item>, segments: map<nat, Segment<N>>, position: nat)
    requires position < |items| && position in segments
    requires var end := segments[position].end;
             if end < position || end > |items| then rest == []
             else if end > position then Tiles(rest, items, segments, end)
             else rest != [] && rest[0].Single? && Tiles(rest, items, segments, position)
    ensures Tiles([SpanAt(items, position, segments[position])] + rest, items, segments, position)
  {
    hide CallIds;
    var pieces := [SpanAt(items, position, segments[position])] + rest;
    assert pieces[1..] == rest && pieces[0] == SpanAt(items, position, segments[position]);
    assert rest != [] ==> pieces[1] == rest[0];
  }

  lemma {:induction false} PiecesTile<N>(items: seq<Item>, segments: map<nat, Segment<N>>, position: nat)
    requires position <= |items|
    ensures Tiles(Pieces(items, segments, position), items, segments, position)
    decreases |items| - position
  {
    if position == |items| {
      AtEnd(items, segments);
    } else {
      hide Tiles, Pieces, SpanAt;
      AtPosition(items, segments, position);
      var pieces := Pieces(items, segments, position);
      if position !in segments {
        PiecesTile(items, segments, position + 1);
        TilesSingle(Pieces(items, segments, position + 1), items, segments, position);
      } else {
        var end := segments[position].end;
        if position < end <= |items| {
          PiecesTile(items, segments, end);
        } else if end == position {
          PiecesTile(items, segments, position + 1);
          TilesSingle(Pieces(items, segments, position + 1), items, segments, position);
        } else {
          OutOfBounds(items, segments, position);
        }
        TilesSpan(pieces[1..], items, segments, position);
      }
    }
  }

  lemma OutOfBounds<N>(items: seq<Item>, segments: map<nat, Segment<N>>, position: nat)
    requires position < |items| && position in segments
    requires segments[position].end < position || segments[position].end > |items|
    ensures |Pieces(items, segments, position)| == 1
  {
  }

  /** The calls of items: their ids, in order, and nothing else. */
  lemma {:induction false} CallIdsMean(items: seq<Item>, id: string)
    ensures id in CallIds(items) <==> exists i :: 0 <= i < |items| && items[i].ToolCall? && items[i].id == id
  {
    if items != [] {
      CallIdsMean(items[..|items| - 1], id);
    }
  }

  /** Opening marks every call as asked, and leaves the others as they were. */
  lemma {:induction false} OpenedMeans(pending: Pending, ids: seq<string>, replayed: bool, id: string)
    ensures id in ids ==> id in Opened(pending, ids, replayed) && Opened(pending, ids, replayed)[id] == replayed
    ensures id !in ids && id in pending ==>
              id in Opened(pending, ids, replayed) && Opened(pending, ids, replayed)[id] == pending[id]
    ensures id !in ids && id !in pending ==> id !in Opened(pending, ids, replayed)
  {
    if ids != [] {
      OpenedMeans(pending, ids[..|ids| - 1], replayed, id);
    }
  }
}
