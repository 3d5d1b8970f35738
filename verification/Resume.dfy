/** Publish, then resume: what add_envelope hides in a response, history finds again. */
module Resume {
  import opened Common
  import opened Json
  import opened History

  // ----- Publishing a response -----

  /** Index of the first reasoning item, or |output|: the item that carries the token. */
  function Carrier(output: seq<Json>): (k: nat)
    ensures k <= |output| && (k < |output| ==> IsReasoning(output[k]))
    ensures forall i :: 0 <= i < k ==> !IsReasoning(output[i])
  {
    if output == [] || IsReasoning(output[0]) then 0 else 1 + Carrier(output[1..])
  }

  predicate EmptyReasoning(item: Json) {
    IsReasoning(item) && EmptySummary(item)
  }

  function Visible(output: seq<Json>): seq<Json> {
    if output == [] then []
    else
      var last := output[|output| - 1];
      Visible(output[..|output| - 1]) + if EmptyReasoning(last) then [] else [last]
  }

  /** An empty reasoning item is publishable only as the token's carrier. */
  predicate Publishable(output: seq<Json>) {
    forall i :: 0 <= i < |output| && EmptyReasoning(output[i]) ==> i == Carrier(output)
  }

  /** What the record keeps of a response. */
  function PublicOutput(output: seq<Json>): Option<seq<Json>> {
    if Publishable(output) then Some(Visible(output)) else None
  }

  function WithToken(item: Json, token: string): Json
    requires item.Obj?
  {
    Obj(item.fields[EncryptedContent := Str(token)])
  }

  function NewCarrier(id: string, token: string): Json {
    Obj(map[Type := Str(REASONING), Id := Str("rs_" + id), Summary := Arr([]), EncryptedContent := Str(token)])
  }

  function AddEnvelope(output: seq<Json>, id: string, token: string): seq<Json> {
    var k := Carrier(output);
    if k < |output| then output[k := WithToken(output[k], token)]
    else output + [NewCarrier(id, token)]
  }

  /** What the envelope is: the token stands in the first reasoning item and changes nothing else,
      or, without one, in a new item behind the output that says nothing but the token. */
  lemma EnvelopeMeans(output: seq<Json>, id: string, token: string, k: nat)
    requires k <= |output| && forall i :: 0 <= i < k ==> !IsReasoning(output[i])
    requires k < |output| ==> IsReasoning(output[k])
    ensures var published := AddEnvelope(output, id, token);
            if k < |output| then
              && |published| == |output| && (forall i :: 0 <= i < |output| && i != k ==> published[i] == output[i])
              && Get(published[k], EncryptedContent) == Some(Str(token))
              && forall key :: key != EncryptedContent ==> Get(published[k], key) == Get(output[k], key)
            else
              && published[..|output|] == output && |published| == |output| + 1
              && var item := published[|output|];
                 && Get(item, Type) == Some(Str("reasoning")) && Get(item, Id) == Some(Str("rs_" + id))
                 && Get(item, Summary) == Some(Arr([])) && Get(item, EncryptedContent) == Some(Str(token))
                 && forall key :: key !in {Type, Id, Summary, EncryptedContent} ==> Get(item, key) == None
  {
    assert Carrier(output) == k;
    hide Carrier;
  }

  /** What is recorded: the output without its one empty reasoning item, if that is the first; an
      empty reasoning item anywhere else refuses the response. */
  lemma RecordedMeans(output: seq<Json>, k: nat)
    requires k <= |output| && forall i :: 0 <= i < k ==> !IsReasoning(output[i])
    requires k < |output| ==> IsReasoning(output[k])
    ensures PublicOutput(output).Some?
            <==> forall i :: 0 <= i < |output| && i != k ==>
              !(IsReasoning(output[i]) && Get(output[i], Summary) == Some(Arr([])))
    ensures PublicOutput(output).Some? ==>
              PublicOutput(output).value
              == if k < |output| && Get(output[k], Summary) == Some(Arr([])) then output[..k] + output[k + 1..]
                 else output
  {
    hide IsReasoning, Visible;
    assert Carrier(output) == k;
    if PublicOutput(output).Some? {
      if k < |output| && EmptyReasoning(output[k]) {
        assert output == output[..k] + [output[k]] + output[k + 1..];
        VisibleAppend(output[..k], [output[k]]);
        VisibleAppend(output[..k] + [output[k]], output[k + 1..]);
        NoEmptyVisible(output[..k]);
        NoEmptyVisible(output[k + 1..]);
        OneHidden(output[k]);
      } else {
        NoEmptyVisible(output);
      }
    }
  }

  lemma OneHidden(item: Json)
    requires EmptyReasoning(item)
    ensures Visible([item]) == []
  {
    assert [item][..0] == [];
  }

  lemma {:induction false} NoEmptyVisible(items: seq<Json>)
    requires forall i :: 0 <= i < |items| ==> !EmptyReasoning(items[i])
    ensures Visible(items) == items
  {
    hide EmptyReasoning;
    if items != [] {
      NoEmptyVisible(items[..|items| - 1]);
      assert items == items[..|items| - 1] + [items[|items| - 1]];
    }
  }

  // ----- Reading sequences of items -----

  lemma ReadNothing()
    ensures AllOk([]) && Clean([]) == [] && Tokens([]) == []
  {
  }

  lemma ReadNext(items: seq<Json>, item: Json)
    requires AllOk(items) && ItemOk(item)
    ensures AllOk(items + [item])
    ensures Clean(items + [item]) == Clean(items) + CleanItem(item)
    ensures Tokens(items + [item]) == Tokens(items) + TokenOf(item)
  {
    hide CleanItem, TokenOf, ItemOk;
    assert (items + [item])[..|items|] == items;
  }

  lemma {:induction false} CleanAppend(a: seq<Json>, b: seq<Json>)
    requires AllOk(a) && AllOk(b)
    ensures AllOk(a + b) && Clean(a + b) == Clean(a) + Clean(b) && Tokens(a + b) == Tokens(a) + Tokens(b)
    decreases |b|
  {
    hide CleanItem, TokenOf, ItemOk, Clean, Tokens;
    if b == [] {
      assert a + b == a;
      ReadNothing();
    } else {
      var init, last := b[..|b| - 1], b[|b| - 1];
      CleanAppend(a, init);
      ReadNext(a + init, last);
      ReadNext(init, last);
      assert a + b == (a + init) + [last] && b == init + [last];
    }
  }

  lemma OkParts(a: seq<Json>, b: seq<Json>)
    requires AllOk(a + b)
    ensures AllOk(a) && AllOk(b)
  {
    assert forall i :: 0 <= i < |a| ==> a[i] == (a + b)[i];
    assert forall i :: 0 <= i < |b| ==> b[i] == (a + b)[|a| + i];
  }

  predicate Plain(items: seq<Json>) {
    forall i :: 0 <= i < |items| ==> !IsReasoning(items[i])
  }

  lemma PlainItem(item: Json)
    requires !IsReasoning(item)
    ensures ItemOk(item) && CleanItem(item) == [item] && TokenOf(item) == []
  {
  }

  lemma {:induction false} PlainItems(items: seq<Json>)
    requires Plain(items)
    ensures AllOk(items) && Clean(items) == items && Tokens(items) == []
  {
    hide ItemOk, CleanItem, TokenOf, IsReasoning;
    if items != [] {
      var init, last := items[..|items| - 1], items[|items| - 1];
      PlainItems(init);
      PlainItem(last);
      assert items == init + [last];
    }
  }

  /** Without empty reasoning items, cleaning works item by item. */
  lemma {:induction false} CleanAt(items: seq<Json>)
    requires AllOk(items) && forall i :: 0 <= i < |items| ==> !EmptyReasoning(items[i])
    ensures |Clean(items)| == |items| && Visible(items) == items
    ensures forall i :: 0 <= i < |items| ==> CleanItem(items[i]) == [Clean(items)[i]]
  {
    hide ItemOk, CleanItem, EmptyReasoning;
    if items != [] {
      var init, last := items[..|items| - 1], items[|items| - 1];
      CleanAt(init);
      OneClean(last);
      assert items == init + [last];
      assert forall i :: 0 <= i < |init| ==> CleanItem(items[i]) == [Clean(init)[i]];
    }
  }

  lemma OneClean(item: Json)
    requires ItemOk(item)
    ensures |CleanItem(item)| == if EmptyReasoning(item) then 0 else 1
  {
  }

  lemma {:induction false} NoTokens(items: seq<Json>)
    requires AllOk(items) && forall i :: 0 <= i < |items| ==> TokenOf(items[i]) == []
    ensures Tokens(items) == []
  {
    hide ItemOk, TokenOf;
    if items != [] {
      NoTokens(items[..|items| - 1]);
    }
  }

  // ----- One item -----

  /** Reasoning items that survive the round trip. Their recorded form keeps every field,
      while the returned form loses `content` and `encrypted_content`. */
  predicate Replayable(item: Json) {
    IsReasoning(item) ==>
      && ReasoningShape(item)
      && (!EmptySummary(item) ==> Content !in item.fields && EncryptedContent !in item.fields)
  }

  /** Cleaning an item leaves it the same up to normalization exactly when the item had
      neither of the two fields. */
  lemma CleanKeeps(item: Json)
    requires item.Obj? && Type in item.fields
    requires Passthrough in item.fields ==> item.fields[Passthrough] == Null
    ensures Normalized(WithoutPrivate(item)) == Normalized(item) <==>
              Content !in item.fields && EncryptedContent !in item.fields
  {
    var f := item.fields;
    var g := f - {EncryptedContent, Content, Passthrough};
    var nf, ng := NormalizedFields(f), NormalizedFields(g);
    assert Content !in ng && EncryptedContent !in ng;
    if Content !in f && EncryptedContent !in f {
      assert nf == ng;
    } else if Content in f {
      assert Content in nf;
    } else {
      assert EncryptedContent in nf;
    }
  }

  lemma TokenKeepsShape(item: Json, token: string)
    requires IsReasoning(item)
    ensures IsReasoning(WithToken(item, token)) && ItemOk(WithToken(item, token)) == ReasoningShape(item)
    ensures EmptySummary(WithToken(item, token)) == EmptySummary(item)
    ensures WithoutPrivate(WithToken(item, token)) == WithoutPrivate(item)
    ensures ReasoningShape(item) ==> TokenOf(WithToken(item, token)) == [token]
  {
    var more := WithToken(item, token);
    assert forall k :: k != EncryptedContent ==> Get(more, k) == Get(item, k);
    assert more.fields.Keys == item.fields.Keys + {EncryptedContent};
    assert more.fields - {EncryptedContent, Content, Passthrough}
           == item.fields - {EncryptedContent, Content, Passthrough};
  }

  // ----- One response -----

  predicate AllReplayable(output: seq<Json>) {
    forall i :: 0 <= i < |output| ==> Replayable(output[i])
  }

  /** A stretch of a response behind or before the carrier. */
  lemma StretchReads(items: seq<Json>)
    requires forall i :: 0 <= i < |items| ==> !EmptyReasoning(items[i])
    ensures AllReplayable(items) ==> AllOk(items) && Tokens(items) == []
    ensures AllReplayable(items) <==> AllOk(items) && NormalizedAll(Clean(items)) == NormalizedAll(items)
    ensures AllOk(items) ==> |Clean(items)| == |items| && Visible(items) == items
  {
    hide Clean, Tokens, ItemOk, Replayable, Normalized, EmptyReasoning, CleanItem, TokenOf;
    if AllReplayable(items) {
      forall i | 0 <= i < |items| ensures ItemOk(items[i]) && TokenOf(items[i]) == [] {
        ItemReads(items[i]);
      }
      NoTokens(items);
    }
    if AllOk(items) {
      CleanAt(items);
      forall i | 0 <= i < |items|
        ensures Replayable(items[i]) <==> Normalized(Clean(items)[i]) == Normalized(items[i])
      {
        ItemReads(items[i]);
      }
      NormalizedEqual(Clean(items), items);
    }
  }

  lemma NormalizedEqual(a: seq<Json>, b: seq<Json>)
    requires |a| == |b|
    ensures NormalizedAll(a) == NormalizedAll(b) <==> forall i :: 0 <= i < |a| ==> Normalized(a[i]) == Normalized(b[i])
  {
    if NormalizedAll(a) == NormalizedAll(b) {
      forall i | 0 <= i < |a| ensures Normalized(a[i]) == Normalized(b[i]) {
        assert NormalizedAll(a)[i] == NormalizedAll(b)[i];
      }
    }
  }

  lemma ItemReads(item: Json)
    requires !EmptyReasoning(item)
    ensures Replayable(item) ==> ItemOk(item) && TokenOf(item) == []
    ensures ItemOk(item) ==>
              (Replayable(item) <==> forall c :: CleanItem(item) == [c] ==> Normalized(c) == Normalized(item))
  {
    hide Normalized;
    if IsReasoning(item) && ReasoningShape(item) {
      CleanKeeps(item);
    }
    if ItemOk(item) {
      OneClean(item);
      assert CleanItem(item) == [CleanItem(item)[0]];
    }
  }

  /** What the host will find in a published response. */
  predicate Found(published: seq<Json>, visible: seq<Json>) {
    AllOk(published) && NormalizedAll(Clean(published)) == NormalizedAll(visible)
  }

  lemma VisibleAppend(a: seq<Json>, b: seq<Json>)
    ensures Visible(a + b) == Visible(a) + Visible(b)
    decreases |b|
  {
    hide EmptyReasoning;
    if b == [] {
      assert a + b == a;
    } else {
      var n := |b| - 1;
      assert (a + b)[..|a + b| - 1] == a + b[..n] && (a + b)[|a + b| - 1] == b[n];
      VisibleAppend(a, b[..n]);
    }
  }

  /** The carrier itself. */
  lemma CarrierReads(item: Json, token: string)
    requires IsReasoning(item)
    ensures var one := [WithToken(item, token)];
            && (AllOk(one) <==> ReasoningShape(item))
            && (AllOk(one) ==> Tokens(one) == [token] && |Clean(one)| == |Visible([item])|)
            && (Replayable(item) <==> Found(one, Visible([item])))
  {
    hide Normalized, ReasoningShape;
    var more := WithToken(item, token);
    var one := [more];
    TokenKeepsShape(item, token);
    assert one[..0] == [] && [item][..0] == [];
    assert one[0] == more && (AllOk(one) <==> ItemOk(more));
    if ReasoningShape(item) {
      ReadOne(more);
      ShapeParts(item);
      CleanKeeps(item);
      assert Visible([item]) == if EmptySummary(item) then [] else [item];
      NormalizedEqual(Clean(one), Visible([item]));
      if !EmptySummary(item) {
        assert Clean(one) == [WithoutPrivate(item)] && Clean(one)[0] == WithoutPrivate(item);
        assert Visible([item])[0] == item;
      }
    }
  }

  lemma ReadOne(item: Json)
    requires ItemOk(item)
    ensures AllOk([item]) && Clean([item]) == CleanItem(item) && Tokens([item]) == TokenOf(item)
  {
    hide ItemOk, CleanItem, TokenOf;
    assert [item][..0] == [];
    assert [] + CleanItem(item) == CleanItem(item) && [] + TokenOf(item) == TokenOf(item);
  }

  lemma ShapeParts(item: Json)
    requires IsReasoning(item) && ReasoningShape(item)
    ensures item.Obj? && Type in item.fields
    ensures Passthrough in item.fields ==> item.fields[Passthrough] == Null
  {
  }

  /** Joining what is found in parts. */
  lemma FoundAppend(p: seq<Json>, v: seq<Json>, q: seq<Json>, w: seq<Json>)
    requires AllOk(p) && AllOk(q) && |Clean(p)| == |v| && |Clean(q)| == |w|
    ensures Found(p + q, v + w) <==> Found(p, v) && Found(q, w)
  {
    hide Clean, Tokens, ItemOk, Normalized;
    CleanAppend(p, q);
    var c, d := Clean(p), Clean(q);
    NormalizedSplit(c + d, |c|);
    NormalizedSplit(v + w, |v|);
    assert (c + d)[..|c|] == c && (c + d)[|c|..] == d && (v + w)[..|v|] == v && (v + w)[|v|..] == w;
    SplitEqual(NormalizedAll(c), NormalizedAll(d), NormalizedAll(v), NormalizedAll(w));
  }

  lemma SplitEqual(a: seq<Json>, b: seq<Json>, c: seq<Json>, d: seq<Json>)
    requires |a| == |c|
    ensures a + b == c + d <==> a == c && b == d
  {
    assert (a + b)[..|a|] == a && (a + b)[|a|..] == b;
    assert (c + d)[..|c|] == c && (c + d)[|c|..] == d;
  }

  /** The published form of a publishable response is found again, up to normalization,
      exactly when all its items are replayable; then it holds the token and no other. */
  lemma PublishedReads(output: seq<Json>, id: string, token: string)
    requires Publishable(output)
    ensures var published := AddEnvelope(output, id, token);
            && (AllReplayable(output) <==> Found(published, Visible(output)))
            && (AllOk(published) ==> |Clean(published)| == |Visible(output)|
                                     && Tokens(published) != [] && Tokens(published)[0] == token)
            && (AllReplayable(output) ==> Tokens(published) == [token])
  {
    var k := Carrier(output);
    if k < |output| {
      PublishedInPlace(output, k, id, token);
    } else {
      PublishedAppended(output, id, token);
    }
  }

  lemma PublishedAppended(output: seq<Json>, id: string, token: string)
    requires Plain(output)
    ensures var published := output + [NewCarrier(id, token)];
            AllReplayable(output) && Found(published, Visible(output))
            && |Clean(published)| == |Visible(output)| && Tokens(published) == [token]
  {
    hide Clean, Tokens, Normalized;
    PlainItems(output);
    VisiblePlain(output);
    NewCarrierReads(id, token);
    CleanAppend(output, [NewCarrier(id, token)]);
    assert output + [] == output && [] + [token] == [token];
  }

  lemma NewCarrierReads(id: string, token: string)
    ensures var one := [NewCarrier(id, token)];
            AllOk(one) && Clean(one) == [] && Tokens(one) == [token]
  {
    var one := [NewCarrier(id, token)];
    assert one[..0] == [];
  }

  lemma {:induction false} VisiblePlain(items: seq<Json>)
    requires Plain(items)
    ensures Visible(items) == items
  {
    hide IsReasoning;
    if items != [] {
      VisiblePlain(items[..|items| - 1]);
    }
  }

  lemma PublishedInPlace(output: seq<Json>, k: nat, id: string, token: string)
    requires Publishable(output) && k == Carrier(output) < |output|
    ensures var published := output[k := WithToken(output[k], token)];
            && (AllReplayable(output) <==> Found(published, Visible(output)))
            && (AllOk(published) ==> |Clean(published)| == |Visible(output)|
                                     && Tokens(published) != [] && Tokens(published)[0] == token)
            && (AllReplayable(output) ==> Tokens(published) == [token])
  {
    hide Clean, Tokens, Normalized, ItemOk, Replayable, NormalizedAll, Visible, AllReplayable, EmptySummary;
    var pre, item, post := output[..k], output[k], output[k + 1..];
    var one := [WithToken(item, token)];
    var published := output[k := WithToken(item, token)];
    assert output == pre + [item] + post && published == pre + one + post;
    StretchReads(post);
    PlainItems(pre);
    VisiblePlain(pre);
    CarrierReads(item, token);
    VisibleAppend(pre, [item]);
    VisibleAppend(pre + [item], post);
    ReplayableParts(pre, item, post);
    if AllOk(published) {
      OkParts(pre + one, post);
      OkParts(pre, one);
    }
    if AllOk(one) && AllOk(post) {
      CleanAppend(pre, one);
      CleanAppend(pre + one, post);
      FoundAppend(pre, pre, one, Visible([item]));
      FoundAppend(pre + one, pre + Visible([item]), post, post);
    }
  }

  lemma ReplayableParts(pre: seq<Json>, item: Json, post: seq<Json>)
    requires Plain(pre)
    ensures AllReplayable(pre + [item] + post) <==> Replayable(item) && AllReplayable(post)
  {
    hide ReasoningShape;
    var all := pre + [item] + post;
    assert forall i :: 0 <= i < |pre| ==> all[i] == pre[i] && Replayable(pre[i]);
    assert all[|pre|] == item;
    assert forall i :: 0 <= i < |post| ==> all[|pre| + 1 + i] == post[i];
    if Replayable(item) && AllReplayable(post) {
      forall i | 0 <= i < |all| ensures Replayable(all[i]) {
        if i > |pre| { assert all[i] == post[i - |pre| - 1]; }
      }
    }
  }

  /** The comment at public_output: a second empty reasoning item gets no envelope, and
      history would reject the response. */
  lemma UnpublishableIsRejected(output: seq<Json>, id: string, token: string)
    requires forall i :: 0 <= i < |output| ==> !HasToken(output[i])
    requires PublicOutput(output) == None
    ensures !AllOk(AddEnvelope(output, id, token))
  {
    hide ReasoningShape;
    var i :| 0 <= i < |output| && EmptyReasoning(output[i]) && i != Carrier(output);
    assert AddEnvelope(output, id, token)[i] == output[i];
  }

  // ----- A conversation -----

  /** One finalized turn: the new items of its request, the decoded output, and what the
      store gave out for it. */
  datatype Turn = Turn(added: seq<Json>, output: seq<Json>, response: string, token: string, native: Native)

  function Published(t: Turn): seq<Json> {
    AddEnvelope(t.output, t.response, t.token)
  }

  /** Everything the host holds after `turns`. */
  function Transcript(turns: seq<Turn>): seq<Json> {
    if turns == [] then []
    else
      var t := turns[|turns| - 1];
      Transcript(turns[..|turns| - 1]) + t.added + Published(t)
  }

  /** Every turn was dispatched: the host added no reasoning of its own, the request could
      be scanned, and the response could be published. */
  predicate Dispatched(turns: seq<Turn>) {
    turns == [] ||
    var before, t := turns[..|turns| - 1], turns[|turns| - 1];
    Dispatched(before) && Plain(t.added) && AllOk(Transcript(before) + t.added) && Publishable(t.output)
  }

  /** The record that `responses` builds for a turn. */
  function RecordOf(before: seq<Turn>, t: Turn, digest: Digest): Replay
    requires AllOk(Transcript(before) + t.added)
  {
    var input := Clean(Transcript(before) + t.added);
    Replay(t.response, if before == [] then None else Some(before[|before| - 1].response),
           |input|, digest(Normalized(Arr(input))), t.native, Visible(t.output))
  }

  function Records(turns: seq<Turn>, digest: Digest): (r: seq<Replay>)
    requires Dispatched(turns)
    ensures |r| == |turns|
  {
    if turns == [] then []
    else
      var before, t := turns[..|turns| - 1], turns[|turns| - 1];
      Records(before, digest) + [RecordOf(before, t, digest)]
  }

  predicate DistinctResponses(turns: seq<Turn>) {
    forall i, j :: 0 <= i < j < |turns| ==> turns[i].response != turns[j].response
  }

  /** The store opens every token to its turn's record. */
  predicate Stored(turns: seq<Turn>, restore: Restore, digest: Digest)
    requires Dispatched(turns)
  {
    && DistinctResponses(turns)
    && (forall i :: 0 <= i < |turns| ==>
          turns[i].token in restore && restore[turns[i].token] == Records(turns, digest)[i])
  }

  function HeadOf(turns: seq<Turn>): Option<string> {
    if turns == [] then None else Some(turns[|turns| - 1].response)
  }

  /** Neither an empty response nor an empty request between two turns hides a turn. */
  predicate Advances(turns: seq<Turn>) {
    forall i {:trigger turns[i]} :: 0 < i < |turns| ==> Visible(turns[i - 1].output) != [] || turns[i].added != []
  }

  predicate TurnsReplayable(turns: seq<Turn>) {
    forall i :: 0 <= i < |turns| ==> AllReplayable(turns[i].output)
  }

  function TurnTokens(turns: seq<Turn>): seq<string> {
    seq(|turns|, i requires 0 <= i < |turns| => turns[i].token)
  }

  // ----- From replayable turns to acceptance -----

  /** After replayable turns the transcript scans to the tokens of the turns, and its clean
      form ends where the last record says. */
  lemma {:induction false} TranscriptReads(turns: seq<Turn>, digest: Digest)
    requires Dispatched(turns) && TurnsReplayable(turns)
    ensures AllOk(Transcript(turns))
    ensures Tokens(Transcript(turns)) == TurnTokens(turns)
    ensures turns != [] ==> |Clean(Transcript(turns))| == End(Records(turns, digest)[|turns| - 1])
  {
    hide Clean, Tokens, ItemOk, AllReplayable, AddEnvelope, Normalized, Publishable, Visible;
    ReadNothing();
    if turns != [] {
      var before, t := turns[..|turns| - 1], turns[|turns| - 1];
      TranscriptReads(before, digest);
      PlainItems(t.added);
      PublishedReads(t.output, t.response, t.token);
      CleanAppend(Transcript(before), t.added);
      CleanAppend(Transcript(before) + t.added, Published(t));
      assert TurnTokens(turns) == TurnTokens(before) + [t.token];
    }
  }

  lemma PlacedInOwnInput(before: seq<Turn>, t: Turn, digest: Digest, clean: seq<Json>)
    requires AllOk(Transcript(before) + t.added) && Found(Published(t), Visible(t.output))
    requires |Clean(Published(t))| == |Visible(t.output)|
    requires Clean(Transcript(before) + t.added) + Clean(Published(t)) <= clean
    ensures Placed(RecordOf(before, t, digest), clean, digest)
  {
    hide Clean, Normalized, NormalizedAll, Visible, AllOk;
    var input, out := Clean(Transcript(before) + t.added), Clean(Published(t));
    assert clean[..|input|] == input;
    assert clean[|input|..|input| + |out|] == (input + out)[|input|..] == out;
  }

  lemma LastRecord(turns: seq<Turn>, digest: Digest)
    requires Dispatched(turns) && turns != []
    ensures var n := |turns| - 1;
            Records(turns, digest)[n] == RecordOf(turns[..n], turns[n], digest)
  {
  }

  /** Where the next record starts, and that it starts behind the last one exactly when
      something was added in between. */
  lemma RecordStarts(before: seq<Turn>, t: Turn, digest: Digest)
    requires Dispatched(before) && TurnsReplayable(before) && Plain(t.added)
    requires AllOk(Transcript(before) + t.added) && before != []
    ensures var last, next := Records(before, digest)[|before| - 1], RecordOf(before, t, digest);
            && End(last) <= next.inputLen
            && (last.inputLen < next.inputLen <==> Visible(before[|before| - 1].output) != [] || t.added != [])
  {
    hide Clean, Tokens, ItemOk, AllReplayable, Normalized, Visible, Transcript, Records, AllOk;
    TranscriptReads(before, digest);
    PlainItems(t.added);
    CleanAppend(Transcript(before), t.added);
    LastRecord(before, digest);
  }

  lemma RecordExtends(before: seq<Turn>, t: Turn, digest: Digest, clean: seq<Json>, records: seq<Replay>)
    requires AllOk(Transcript(before) + t.added)
    requires |records| == |before|
             && forall i :: 0 <= i < |before| ==> records[i].response == before[i].response != t.response
    requires Placed(RecordOf(before, t, digest), clean, digest)
    requires before != [] ==>
               var last, next := records[|before| - 1], RecordOf(before, t, digest);
               End(last) <= next.inputLen && last.inputLen < next.inputLen
    ensures Extends(records, RecordOf(before, t, digest), clean, digest)
  {
    hide Placed, Clean, Normalized, Transcript, AllOk;
  }

  lemma {:induction false} RecordResponses(turns: seq<Turn>, digest: Digest)
    requires Dispatched(turns)
    ensures forall i :: 0 <= i < |turns| ==> Records(turns, digest)[i].response == turns[i].response
  {
    hide AllOk, Transcript, Clean, Normalized, Visible, Publishable;
    if turns != [] {
      RecordResponses(turns[..|turns| - 1], digest);
    }
  }

  lemma DispatchedParts(turns: seq<Turn>)
    requires Dispatched(turns) && turns != []
    ensures var before, t := turns[..|turns| - 1], turns[|turns| - 1];
            Dispatched(before) && Plain(t.added) && AllOk(Transcript(before) + t.added) && Publishable(t.output)
            && Transcript(turns) == Transcript(before) + t.added + Published(t)
  {
  }

  /** The clean form of a conversation, turn by turn. */
  lemma TranscriptGrows(turns: seq<Turn>)
    requires Dispatched(turns) && turns != [] && AllOk(Transcript(turns))
    ensures var before, t := turns[..|turns| - 1], turns[|turns| - 1];
            && AllOk(Transcript(before)) && AllOk(Published(t))
            && Clean(Transcript(before) + t.added) == Clean(Transcript(before)) + t.added
            && Tokens(Transcript(before) + t.added) == Tokens(Transcript(before))
            && Clean(Transcript(turns)) == Clean(Transcript(before) + t.added) + Clean(Published(t))
            && Tokens(Transcript(turns)) == Tokens(Transcript(before)) + Tokens(Published(t))
  {
    hide Clean, Tokens, AllOk, AddEnvelope, Publishable, Transcript, Dispatched, Plain;
    var before, t := turns[..|turns| - 1], turns[|turns| - 1];
    DispatchedParts(turns);
    OkParts(Transcript(before), t.added);
    OkParts(Transcript(before) + t.added, Published(t));
    PlainItems(t.added);
    CleanAppend(Transcript(before), t.added);
    CleanAppend(Transcript(before) + t.added, Published(t));
  }

  lemma LastRecordPlaced(turns: seq<Turn>, digest: Digest, clean: seq<Json>)
    requires Dispatched(turns) && TurnsReplayable(turns) && turns != []
    requires AllOk(Transcript(turns)) && Clean(Transcript(turns)) <= clean
    ensures var before, t := turns[..|turns| - 1], turns[|turns| - 1];
            && AllOk(Transcript(before)) && Clean(Transcript(before)) <= clean
            && Placed(RecordOf(before, t, digest), clean, digest)
  {
    hide Clean, Tokens, AllOk, AllReplayable, AddEnvelope, Normalized, Publishable, Visible, Placed, RecordOf,
         Transcript, Dispatched, Plain;
    var before, t := turns[..|turns| - 1], turns[|turns| - 1];
    DispatchedParts(turns);
    TranscriptGrows(turns);
    PublishedReads(t.output, t.response, t.token);
    PlacedInOwnInput(before, t, digest, clean);
  }

  /** The records of replayable, advancing turns verify against their own transcript and
      whatever the host appends to it. */
  lemma {:induction false} RecordsLink(turns: seq<Turn>, digest: Digest, clean: seq<Json>)
    requires Dispatched(turns) && TurnsReplayable(turns) && Advances(turns) && DistinctResponses(turns)
    requires AllOk(Transcript(turns)) && Clean(Transcript(turns)) <= clean
    ensures Linked(Records(turns, digest), clean, digest)
  {
    if turns == [] {
      NothingTracked(clean, digest);
    } else {
      hide Clean, Tokens, AllOk, AllReplayable, Placed, RecordOf, Transcript, Extends, Dispatched, Linked, Visible,
        Records;
      var n := |turns| - 1;
      var before := turns[..n];
      DispatchedParts(turns);
      LastRecordPlaced(turns, digest, clean);
      RecordsLink(before, digest, clean);
      LastRecordExtends(turns, digest, clean);
      LinkedNext(Records(before, digest), RecordOf(before, turns[n], digest), clean, digest);
      RecordsGrow(turns, digest);
    }
  }

  lemma RecordsGrow(turns: seq<Turn>, digest: Digest)
    requires Dispatched(turns) && turns != []
    ensures var before, t := turns[..|turns| - 1], turns[|turns| - 1];
            Records(turns, digest) == Records(before, digest) + [RecordOf(before, t, digest)]
  {
  }

  lemma LastRecordExtends(turns: seq<Turn>, digest: Digest, clean: seq<Json>)
    requires Dispatched(turns) && TurnsReplayable(turns) && Advances(turns) && DistinctResponses(turns) && turns != []
    requires AllOk(Transcript(turns[..|turns| - 1]) + turns[|turns| - 1].added)
    requires Placed(RecordOf(turns[..|turns| - 1], turns[|turns| - 1], digest), clean, digest)
    ensures var before, t := turns[..|turns| - 1], turns[|turns| - 1];
            Extends(Records(before, digest), RecordOf(before, t, digest), clean, digest)
  {
    hide Clean, Tokens, AllOk, AllReplayable, Placed, RecordOf, Transcript, Extends, Dispatched, Visible, Records;
    var n := |turns| - 1;
    var before, t := turns[..n], turns[n];
    DispatchedParts(turns);
    RecordResponses(before, digest);
    if n > 0 {
      assert before[n - 1] == turns[n - 1];
      RecordStarts(before, t, digest);
    }
    RecordExtends(before, t, digest, clean, Records(before, digest));
  }

  /** Reasoning is only ever found inside a recorded span. */
  lemma {:induction false} ReasoningInside(turns: seq<Turn>, digest: Digest, p: nat)
    requires Dispatched(turns) && AllOk(Transcript(turns))
    requires p < |Clean(Transcript(turns))| && IsReasoning(Clean(Transcript(turns))[p])
    ensures Covered(p, Records(turns, digest))
  {
    if turns == [] {
      ReadNothing();
    } else {
      hide Clean, Tokens, AllOk, AddEnvelope, Publishable, Transcript, Dispatched, Visible, IsReasoning;
      var n := |turns| - 1;
      var before, t := turns[..n], turns[n];
      DispatchedParts(turns);
      TranscriptGrows(turns);
      PublishedReads(t.output, t.response, t.token);
      LastRecord(turns, digest);
      var early := Clean(Transcript(before));
      ConcatAt(early, t.added, Clean(Published(t)), p);
      if p < |early| {
        ReasoningInside(before, digest, p);
        CoveredMore(p, turns, digest);
      } else if p >= |early| + |t.added| {
        assert Records(turns, digest)[n].inputLen <= p < End(Records(turns, digest)[n]);
      }
    }
  }

  lemma ConcatAt(a: seq<Json>, b: seq<Json>, c: seq<Json>, p: nat)
    requires p < |a + b + c|
    ensures p < |a| ==> (a + b + c)[p] == a[p]
    ensures |a| <= p < |a| + |b| ==> (a + b + c)[p] == b[p - |a|]
  {
  }

  lemma CoveredMore(p: nat, turns: seq<Turn>, digest: Digest)
    requires Dispatched(turns) && turns != [] && Covered(p, Records(turns[..|turns| - 1], digest))
    ensures Covered(p, Records(turns, digest))
  {
    hide AllOk, Transcript, Publishable, RecordOf;
    var early := Records(turns[..|turns| - 1], digest);
    var i :| 0 <= i < |early| && early[i].inputLen <= p < End(early[i]);
    assert Records(turns, digest)[i] == early[i];
  }

  lemma ChainOfTurns(turns: seq<Turn>, restore: Restore, digest: Digest)
    requires Dispatched(turns) && Stored(turns, restore, digest)
    ensures Restorable(restore, TurnTokens(turns))
    ensures Chain(restore, TurnTokens(turns)) == Records(turns, digest)
  {
    hide Dispatched, Records;
  }

  lemma AppendPlain(turns: seq<Turn>, added: seq<Json>)
    requires AllOk(Transcript(turns)) && Plain(added)
    ensures AllOk(Transcript(turns) + added)
    ensures Clean(Transcript(turns) + added) == Clean(Transcript(turns)) + added
    ensures Tokens(Transcript(turns) + added) == Tokens(Transcript(turns))
  {
    hide Clean, Tokens, AllOk, Transcript;
    PlainItems(added);
    CleanAppend(Transcript(turns), added);
  }

  /** Any number of replayable, advancing turns and then any new items: accepted, with
      exactly the recorded spans. */
  lemma ReplayableTurnsResume(turns: seq<Turn>, added: seq<Json>, restore: Restore, digest: Digest, session: Session)
    requires Dispatched(turns) && Stored(turns, restore, digest) && Plain(added)
    requires session.head == HeadOf(turns) && (turns == [] ==> session.portable == None)
    requires TurnsReplayable(turns) && Advances(turns)
    ensures Accepts(restore, digest, session, Transcript(turns) + added)
    ensures Chain(restore, Tokens(Transcript(turns) + added)) == Records(turns, digest)
  {
    hide Clean, Tokens, AllOk, Transcript, Dispatched, Linked, Visible, AllReplayable, IsReasoning, Records, Advances;
    TranscriptReads(turns, digest);
    AppendPlain(turns, added);
    ChainOfTurns(turns, restore, digest);
    var early := Clean(Transcript(turns));
    var records := Records(turns, digest);
    RecordsLink(turns, digest, early + added);
    forall p | 0 <= p < |early + added| && IsReasoning((early + added)[p]) ensures Covered(p, records) {
      if p < |early| {
        ReasoningInside(turns, digest, p);
      }
    }
    RecordResponses(turns, digest);
  }

  // ----- From acceptance to replayable turns -----

  lemma {:induction false} DispatchedFront(turns: seq<Turn>, digest: Digest)
    requires Dispatched(turns) && turns != []
    ensures var before := turns[..|turns| - 1];
            Dispatched(before) && Records(before, digest) == Records(turns, digest)[..|turns| - 1]
  {
    hide AllOk, Transcript, RecordOf, Publishable, Plain;
  }

  lemma {:induction false} DispatchedPrefix(turns: seq<Turn>, k: nat, digest: Digest)
    requires Dispatched(turns) && k <= |turns|
    ensures Dispatched(turns[..k]) && Records(turns[..k], digest) == Records(turns, digest)[..k]
  {
    hide Dispatched, Records;
    if k == |turns| {
      assert turns[..k] == turns;
    } else {
      var before := turns[..|turns| - 1];
      DispatchedFront(turns, digest);
      DispatchedPrefix(before, k, digest);
      assert before[..k] == turns[..k];
    }
  }

  lemma {:induction false} PrefixReads(turns: seq<Turn>, k: nat)
    requires Dispatched(turns) && AllOk(Transcript(turns)) && k <= |turns|
    ensures AllOk(Transcript(turns[..k]))
    ensures Clean(Transcript(turns[..k])) <= Clean(Transcript(turns))
    ensures Tokens(Transcript(turns[..k])) <= Tokens(Transcript(turns))
  {
    hide Clean, Tokens, AllOk, Transcript, Dispatched;
    if k == |turns| {
      assert turns[..k] == turns;
    } else {
      var before := turns[..|turns| - 1];
      DispatchedParts(turns);
      TranscriptGrows(turns);
      PrefixReads(before, k);
      assert before[..k] == turns[..k];
    }
  }

  /** The token of turn `k` stands at `pos`, its output behind its input. */
  ghost predicate TurnAt(turns: seq<Turn>, k: nat, digest: Digest, pos: nat)
    requires Dispatched(turns) && k < |turns|
  {
    var before, t := turns[..k], turns[k];
    && AllOk(Transcript(turns)) && AllOk(Transcript(before)) && AllOk(Transcript(before) + t.added)
    && AllOk(Published(t)) && AllOk(Transcript(turns[..k + 1]))
    && pos == |Tokens(Transcript(before))| < |Tokens(Transcript(turns[..k + 1]))| <= |Tokens(Transcript(turns))|
    && Tokens(Transcript(turns))[pos] == t.token
    && Records(turns, digest)[k] == RecordOf(before, t, digest)
    && Clean(Transcript(before) + t.added) + Clean(Published(t)) <= Clean(Transcript(turns))
    && |Clean(Published(t))| == |Visible(t.output)|
  }

  lemma TurnInTranscript(turns: seq<Turn>, k: nat, digest: Digest) returns (pos: nat)
    requires Dispatched(turns) && AllOk(Transcript(turns)) && k < |turns|
    ensures TurnAt(turns, k, digest, pos)
  {
    var before, t, upTo := turns[..k], turns[k], turns[..k + 1];
    hide Clean, Tokens, AllOk, Transcript, Dispatched, Visible, RecordOf, AddEnvelope, Records;
    PrefixReads(turns, k + 1);
    DispatchedPrefix(turns, k + 1, digest);
    assert upTo[..k] == before && upTo[k] == t;
    TranscriptGrows(upTo);
    DispatchedParts(upTo);
    PublishedReads(t.output, t.response, t.token);
    LastRecord(upTo, digest);
    pos := |Tokens(Transcript(before))|;
    assert Tokens(Transcript(upTo))[pos] == t.token;
  }

  /** The exact condition: a conversation resumes, with exactly its recorded spans, if and
      only if every recorded item is replayable and no turn is empty on both sides. */
  lemma ResumesIff(turns: seq<Turn>, added: seq<Json>, restore: Restore, digest: Digest, session: Session)
    requires Dispatched(turns) && Stored(turns, restore, digest) && Plain(added)
    requires session.head == HeadOf(turns) && (turns == [] ==> session.portable == None)
    ensures Accepts(restore, digest, session, Transcript(turns) + added) <==>
              TurnsReplayable(turns) && Advances(turns)
    ensures Accepts(restore, digest, session, Transcript(turns) + added) ==>
              Chain(restore, Tokens(Transcript(turns) + added)) == Records(turns, digest)
  {
    hide *;
    if Accepts(restore, digest, session, Transcript(turns) + added) {
      AcceptedTurnsReplayable(turns, added, restore, digest, session);
      AcceptedTurnsAdvance(turns, added, restore, digest, session);
    }
    if TurnsReplayable(turns) && Advances(turns) {
      ReplayableTurnsResume(turns, added, restore, digest, session);
    }
  }

  /** Where the output of the k-th turn starts in the clean input. */
  function StartOf(turns: seq<Turn>, k: nat): nat
    requires k < |turns|
  {
    var input := Transcript(turns[..k]) + turns[k].added;
    if AllOk(input) then |Clean(input)| else 0
  }

  lemma RecordOfTurn(turns: seq<Turn>, k: nat, digest: Digest)
    requires Dispatched(turns) && k < |turns|
    ensures var r := Records(turns, digest)[k];
            r.inputLen == StartOf(turns, k) && End(r) == StartOf(turns, k) + |Visible(turns[k].output)|
              && r.native == turns[k].native
  {
    hide Clean, AllOk, Transcript, Visible, Publishable, Plain;
    var upTo := turns[..k + 1];
    DispatchedPrefix(turns, k + 1, digest);
    assert upTo[..k] == turns[..k] && upTo[k] == turns[k];
    assert Records(upTo, digest)[k] == RecordOf(upTo[..k], upTo[k], digest);
  }

  /** A session that resumes gets back exactly one segment per turn: where its output started,
      where it ended, and its native value. */
  lemma ResumedSegments(turns: seq<Turn>, added: seq<Json>, restore: Restore, digest: Digest, session: Session)
    requires Dispatched(turns) && Stored(turns, restore, digest) && Plain(added)
    requires session.head == HeadOf(turns) && (turns == [] ==> session.portable == None)
    requires Accepts(restore, digest, session, Transcript(turns) + added)
    ensures var segments := SegmentsOf(Chain(restore, Tokens(Transcript(turns) + added)));
            && (forall k :: 0 <= k < |turns| ==>
                  && StartOf(turns, k) in segments
                  && segments[StartOf(turns, k)] == (StartOf(turns, k) + |Visible(turns[k].output)|, turns[k].native))
            && (forall p :: p in segments ==> exists k :: 0 <= k < |turns| && p == StartOf(turns, k))
            && (forall i, j :: 0 <= i < j < |turns| ==>
                  StartOf(turns, i) + |Visible(turns[i].output)| <= StartOf(turns, j))
  {
    hide *;
    ResumesIff(turns, added, restore, digest, session);
    var input := Transcript(turns) + added;
    AcceptedIsLinked(restore, digest, session, input);
    var chain := Chain(restore, Tokens(input));
    forall k | 0 <= k < |turns|
      ensures StartOf(turns, k) in SegmentsOf(chain)
      ensures SegmentsOf(chain)[StartOf(turns, k)] == (StartOf(turns, k) + |Visible(turns[k].output)|, turns[k].native)
    {
      RecordOfTurn(turns, k, digest);
      SegmentAt(chain, k, Clean(input), digest);
    }
    forall p | p in SegmentsOf(chain) ensures exists k :: 0 <= k < |turns| && p == StartOf(turns, k) {
      var k := SegmentSource(chain, p);
      RecordOfTurn(turns, k, digest);
    }
    ChainIsOrdered(chain, Clean(input), digest);
    forall i, j | 0 <= i < j < |turns| ensures StartOf(turns, i) + |Visible(turns[i].output)| <= StartOf(turns, j) {
      RecordOfTurn(turns, i, digest);
      RecordOfTurn(turns, j, digest);
    }
  }

  lemma AcceptedIsLinked(restore: Restore, digest: Digest, session: Session, input: seq<Json>)
    requires Accepts(restore, digest, session, input)
    ensures AllOk(input) && Restorable(restore, Tokens(input))
            && Linked(Chain(restore, Tokens(input)), Clean(input), digest)
  {
    hide Linked, Clean, Tokens, AllOk, Chain;
  }

  lemma AcceptedScan(turns: seq<Turn>, added: seq<Json>, restore: Restore, digest: Digest, session: Session)
    requires Dispatched(turns) && Plain(added)
    requires Accepts(restore, digest, session, Transcript(turns) + added)
    ensures AllOk(Transcript(turns)) && Restorable(restore, Tokens(Transcript(turns)))
    ensures Linked(Chain(restore, Tokens(Transcript(turns))), Clean(Transcript(turns)) + added, digest)
  {
    hide Clean, Tokens, AllOk, Transcript, Dispatched, Linked, ReasoningCovered, PortableOk;
    OkParts(Transcript(turns), added);
    AppendPlain(turns, added);
  }

  lemma FoundAgain(before: seq<Turn>, t: Turn, digest: Digest, clean: seq<Json>)
    requires AllOk(Transcript(before) + t.added) && AllOk(Published(t))
    requires |Clean(Published(t))| == |Visible(t.output)|
    requires Clean(Transcript(before) + t.added) + Clean(Published(t)) <= clean
    requires Placed(RecordOf(before, t, digest), clean, digest)
    ensures Found(Published(t), Visible(t.output))
  {
    hide Clean, AllOk, Transcript, Visible, Normalized, NormalizedAll, AddEnvelope;
    var input, out := Clean(Transcript(before) + t.added), Clean(Published(t));
    assert clean[|input|..|input| + |out|] == (input + out)[|input|..] == out;
  }

  lemma AcceptedTurnsReplayable(turns: seq<Turn>, added: seq<Json>, restore: Restore, digest: Digest, session: Session)
    requires Dispatched(turns) && Stored(turns, restore, digest) && Plain(added)
    requires Accepts(restore, digest, session, Transcript(turns) + added)
    ensures TurnsReplayable(turns)
  {
    hide Clean, Tokens, AllOk, Transcript, Dispatched, Linked, Visible, AllReplayable, Records, RecordOf, Placed,
         Accepts, AddEnvelope, Found;
    AcceptedScan(turns, added, restore, digest, session);
    var chain, clean := Chain(restore, Tokens(Transcript(turns))), Clean(Transcript(turns)) + added;
    forall k | 0 <= k < |turns| ensures AllReplayable(turns[k].output) {
      var pos := TurnInTranscript(turns, k, digest);
      RecordAt(chain, pos, clean, digest);
      FoundAgain(turns[..k], turns[k], digest, clean);
      PublishableAt(turns, k);
      PublishedReads(turns[k].output, turns[k].response, turns[k].token);
    }
  }

  lemma {:induction false} PublishableAt(turns: seq<Turn>, k: nat)
    requires Dispatched(turns) && k < |turns|
    ensures Publishable(turns[k].output) && Plain(turns[k].added)
  {
    hide AllOk, Transcript, Publishable, Plain;
    if k < |turns| - 1 {
      PublishableAt(turns[..|turns| - 1], k);
    }
  }

  lemma AcceptedTurnsAdvance(turns: seq<Turn>, added: seq<Json>, restore: Restore, digest: Digest, session: Session)
    requires Dispatched(turns) && Stored(turns, restore, digest) && Plain(added) && TurnsReplayable(turns)
    requires Accepts(restore, digest, session, Transcript(turns) + added)
    ensures Advances(turns)
  {
    hide Clean, Tokens, AllOk, Transcript, Dispatched, Linked, Visible, AllReplayable, Records, RecordOf, Placed,
      Accepts;
    AcceptedScan(turns, added, restore, digest, session);
    var chain, clean := Chain(restore, Tokens(Transcript(turns))), Clean(Transcript(turns)) + added;
    forall k {:trigger turns[k]} | 0 < k < |turns|
      ensures Visible(turns[k - 1].output) != [] || turns[k].added != []
    {
      var i := TurnInTranscript(turns, k - 1, digest);
      var j := TurnInTranscript(turns, k, digest);
      PairInOrder(chain, i, j, clean, digest);
      PublishableAt(turns, k);
      DispatchedPrefix(turns, k, digest);
      assert Records(turns[..k], digest)[k - 1] == Records(turns, digest)[k - 1];
      RecordStarts(turns[..k], turns[k], digest);
    }
  }

  // ----- What the verifier of plugin responses lets through -----

  predicate VerifiedPart(part: Json) {
    && part.Obj? && part.fields.Keys <= {Type, Text} && HasText(part, Type, "summary_text")
    && Get(part, Text).Some? && Get(part, Text).value.Str?
  }

  /** An item identifier: one to 512 characters, none of them a control character. */
  predicate Identifies(id: string) {
    0 < |id| <= 512 && forall i :: 0 <= i < |id| ==> !Control(id[i])
  }

  predicate Control(c: char) {
    c as int < 0x20 || 0x7F <= c as int < 0xA0
  }

  /** The reasoning items that a completed plugin response can hold. */
  predicate PassesVerifier(item: Json) {
    && IsReasoning(item) && item.fields.Keys <= {Id, Type, Status, Summary, EncryptedContent}
    && Id in item.fields && item.fields[Id].Str? && Identifies(item.fields[Id].s)
    && (EncryptedContent in item.fields ==> item.fields[EncryptedContent] == Null)
    && (Status in item.fields ==> item.fields[Status] == Str("completed"))
    && Summary in item.fields && item.fields[Summary].Arr?
    && forall i :: 0 <= i < |item.fields[Summary].items| ==> VerifiedPart(item.fields[Summary].items[i])
  }

  /** No status, and no encrypted content beside a summary. */
  predicate Survives(item: Json) {
    IsReasoning(item) ==> Status !in item.fields && (EmptySummary(item) || EncryptedContent !in item.fields)
  }

  lemma VerifiedPartIsSummary(part: Json)
    requires VerifiedPart(part)
    ensures SummaryPart(part)
  {
    assert part.fields.Keys == {Type, Text};
    assert |part.fields| == |part.fields.Keys|;
  }

  /** Of the items the verifier lets through, these are the ones that can be replayed. */
  lemma SurvivorsReplay(item: Json)
    requires PassesVerifier(item)
    ensures Replayable(item) <==> Survives(item)
  {
    hide VerifiedPart, SummaryPart;
    forall i | 0 <= i < |item.fields[Summary].items| ensures SummaryPart(item.fields[Summary].items[i]) {
      VerifiedPartIsSummary(item.fields[Summary].items[i]);
    }
    assert Status in item.fields ==> Status in item.fields.Keys;
    assert ReasoningShape(item) <==> Status !in item.fields;
  }

  predicate TurnsVerified(turns: seq<Turn>) {
    forall k, i :: 0 <= k < |turns| && 0 <= i < |turns[k].output| && IsReasoning(turns[k].output[i]) ==>
      PassesVerifier(turns[k].output[i])
  }

  predicate TurnsSurvive(turns: seq<Turn>) {
    forall k, i :: 0 <= k < |turns| && 0 <= i < |turns[k].output| ==> Survives(turns[k].output[i])
  }

  lemma SurvivingTurns(turns: seq<Turn>)
    requires TurnsVerified(turns)
    ensures TurnsReplayable(turns) <==> TurnsSurvive(turns)
  {
    hide PassesVerifier, Replayable, Survives;
    forall k, i | 0 <= k < |turns| && 0 <= i < |turns[k].output|
      ensures Replayable(turns[k].output[i]) <==> Survives(turns[k].output[i])
    {
      ItemSurvives(turns[k].output[i]);
    }
    forall k | 0 <= k < |turns|
      ensures AllReplayable(turns[k].output) <==> forall i :: 0 <= i < |turns[k].output| ==>
              Survives(turns[k].output[i])
    {
    }
  }

  lemma ItemSurvives(item: Json)
    requires IsReasoning(item) ==> PassesVerifier(item)
    ensures Replayable(item) <==> Survives(item)
  {
    hide PassesVerifier, EmptySummary, ReasoningShape;
    if IsReasoning(item) {
      SurvivorsReplay(item);
    }
  }

  /** The exact condition on verified responses, field by field. */
  lemma VerifiedTurnsResumeIff(turns: seq<Turn>, added: seq<Json>, restore: Restore, digest: Digest, session: Session)
    requires Dispatched(turns) && Stored(turns, restore, digest) && Plain(added)
    requires session.head == HeadOf(turns) && (turns == [] ==> session.portable == None)
    requires TurnsVerified(turns)
    ensures Accepts(restore, digest, session, Transcript(turns) + added) <==> TurnsSurvive(turns) && Advances(turns)
  {
    hide *;
    ResumesIff(turns, added, restore, digest, session);
    SurvivingTurns(turns);
  }

  // ----- Sessions that are published and recorded, and never resume -----

  const SUMMARY_TEXT: Json := Obj(map[Type := Str("summary_text"), Text := Str("s")])

  const WITH_STATUS: Json :=
    Obj(map[Type := Str(REASONING), Id := Str("rs_1"), Summary := Arr([SUMMARY_TEXT]), Status := Str("completed")])

  const WITH_NULL_TOKEN: Json :=
    Obj(map[Type := Str(REASONING), Id := Str("rs_1"), Summary := Arr([SUMMARY_TEXT]), EncryptedContent := Null])

  const QUESTION: Json :=
    Obj(map[Type := Str("message"), Role := Str("user"),
      Content := Arr([Obj(map[Type := Str("input_text"), Text := Str("q")])])])

  lemma ExamplesPass(item: Json)
    requires item == WITH_STATUS || item == WITH_NULL_TOKEN
    ensures PassesVerifier(item) && !Survives(item) && !EmptyReasoning(item)
  {
    var part := SUMMARY_TEXT;
    assert part.fields.Keys == {Type, Text} && VerifiedPart(part);
    assert item.fields[Summary] == Arr([SUMMARY_TEXT]);
    assert item.fields[Id] == Str("rs_1") && Identifies("rs_1");
    assert item.fields.Keys == {Type, Id, Summary, Status} || item.fields.Keys == {Type, Id, Summary, EncryptedContent};
  }

  /** A first turn: the user asks, and the response is one of these items. */
  function OneTurn(item: Json, native: Native): Turn {
    Turn([QUESTION], [item], "r", "t", native)
  }

  lemma OneTurnDispatched(item: Json, native: Native, digest: Digest)
    requires !EmptyReasoning(item)
    ensures var t := OneTurn(item, native);
            && Dispatched([t]) && AllOk(Transcript([]) + t.added)
            && Stored([t], map["t" := RecordOf([], t, digest)], digest)
  {
    hide EmptyReasoning, RecordOf;
    var t := OneTurn(item, native);
    assert [t][..0] == [] && Transcript([]) + t.added == [QUESTION];
    assert Plain([QUESTION]) by { assert [QUESTION][0] == QUESTION && QUESTION.fields[Type] == Str("message"); }
    PlainItems([QUESTION]);
    assert Publishable([item]) by { assert [item][0] == item; }
    assert Records([t], digest) == [RecordOf([], t, digest)];
  }

  /** The verifier passes the item, the response is published and recorded, and the host is
      refused whatever it adds. */
  lemma VerifiedItemNeverResumes(item: Json, added: seq<Json>, native: Native, digest: Digest)
    requires item == WITH_STATUS || item == WITH_NULL_TOKEN
    requires Plain(added)
    ensures PassesVerifier(item)
    ensures var t := OneTurn(item, native);
            && Dispatched([t]) && AllOk(Transcript([]) + t.added)
            && var restore := map["t" := RecordOf([], t, digest)];
               && Stored([t], restore, digest)
               && !Accepts(restore, digest, Session(Some("r"), None), Transcript([t]) + added)
  {
    hide *;
    ExamplesPass(item);
    OneTurnDispatched(item, native, digest);
    var t := OneTurn(item, native);
    OneTurnUnreplayable(item, native);
    assert HeadOf([t]) == Some("r") by { OneTurnHead(item, native); }
    ResumesIff([t], added, map["t" := RecordOf([], t, digest)], digest, Session(Some("r"), None));
  }

  lemma OneTurnHead(item: Json, native: Native)
    ensures HeadOf([OneTurn(item, native)]) == Some("r")
  {
  }

  lemma OneTurnUnreplayable(item: Json, native: Native)
    requires PassesVerifier(item) && !Survives(item)
    ensures !TurnsReplayable([OneTurn(item, native)])
  {
    hide PassesVerifier, Survives, Replayable;
    var t := OneTurn(item, native);
    SurvivorsReplay(item);
    assert [t][0] == t && t.output[0] == item;
    assert !AllReplayable(t.output);
  }

  /** A turn without new items after one without visible output ends the session for good,
      whatever the other turns hold. */
  lemma EmptyTurnEndsSession(turns: seq<Turn>, k: nat, added: seq<Json>, restore: Restore, digest: Digest,
                             session: Session)
    requires Dispatched(turns) && Stored(turns, restore, digest) && Plain(added) && session.head == HeadOf(turns)
    requires 0 < k < |turns| && Visible(turns[k - 1].output) == [] && turns[k].added == []
    ensures !Accepts(restore, digest, session, Transcript(turns) + added)
  {
    hide Accepts, Dispatched, Stored, Visible, TurnsReplayable, Transcript;
    assert turns != [];
    ResumesIff(turns, added, restore, digest, session);
    assert turns[k].added == [];
  }
}
