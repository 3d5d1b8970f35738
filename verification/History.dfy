/** Managed continuation: what a turn publishes and records, and how the next request is
    checked against the recorded chain (src/proxy_managed.rs). */
module History {
  import opened Common
  import opened Json

  /** Provider state, opaque to this module. */
  type Native = Json

  const REASONING := "reasoning"

  /** A decoded, normalized replay record. */
  datatype Replay = Replay(response: string, parent: Option<string>, inputLen: nat,
                           inputDigest: string, native: Native, output: seq<Json>)

  datatype Session = Session(head: Option<string>, portable: Option<string>)

  datatype Rejected = Rejected

  /** Sealed tokens that open to a record of this session. */
  type Restore = map<string, Replay>

  type Digest = Json -> string

  function End(r: Replay): nat {
    r.inputLen + |r.output|
  }

  // ----- Normalization -----

  function StripPart(part: Json): Json {
    if HasText(part, Type, "output_text") && Get(part, Annotations) == Some(Arr([]))
    then Obj(part.fields - {Annotations})
    else part
  }

  function NullKeys(fields: map<Key, Json>): set<Key> {
    set k | k in {Phase, Passthrough} && k in fields && fields[k] == Null
  }

  function NormalizedFields(fields: map<Key, Json>): map<Key, Json> {
    var kept := fields - {Id, Status} - NullKeys(fields);
    var typed := if Type !in kept && Role in kept then kept[Type := Str("message")] else kept;
    if Content in typed && typed[Content].Arr?
    then typed[Content := Arr(StripParts(typed[Content].items))]
    else typed
  }

  function StripParts(parts: seq<Json>): seq<Json> {
    seq(|parts|, i requires 0 <= i < |parts| => StripPart(parts[i]))
  }

  function Normalized(v: Json): Json {
    match v
    case Arr(items) => Arr(seq(|items|, i requires 0 <= i < |items| => Normalized(items[i])))
    case Obj(fields) => Obj(NormalizedFields(fields))
    case _ => v
  }

  function NormalizedAll(items: seq<Json>): seq<Json> {
    seq(|items|, i requires 0 <= i < |items| => Normalized(items[i]))
  }

  // ----- What the host may send back -----

  predicate IsReasoning(item: Json) {
    HasText(item, Type, REASONING)
  }

  function AllowedKeys(): set<Key> {
    {Type, Id, Summary, EncryptedContent, Content, Passthrough}
  }

  predicate SummaryPart(part: Json) {
    part.Obj? && |part.fields| == 2 && HasText(part, Type, "summary_text")
    && Get(part, Text).Some? && Get(part, Text).value.Str?
  }

  /** The shape of a reasoning item, apart from its token. */
  predicate ReasoningShape(item: Json) {
    && item.Obj? && item.fields.Keys <= AllowedKeys()
    && (Content in item.fields ==> item.fields[Content] in {Null, Arr([])})
    && (Passthrough in item.fields ==> item.fields[Passthrough] == Null)
    && Summary in item.fields && item.fields[Summary].Arr?
    && forall i :: 0 <= i < |item.fields[Summary].items| ==> SummaryPart(item.fields[Summary].items[i])
  }

  predicate HasToken(item: Json) {
    Get(item, EncryptedContent).Some? && Get(item, EncryptedContent) != Some(Null)
  }

  predicate EmptySummary(item: Json) {
    Get(item, Summary) == Some(Arr([]))
  }

  /** Items that pass the first loop of history. */
  predicate ItemOk(item: Json) {
    IsReasoning(item) ==>
      && ReasoningShape(item)
      && (if HasToken(item) then item.fields[EncryptedContent].Str? else !EmptySummary(item))
  }

  function WithoutPrivate(item: Json): Json
    requires item.Obj?
  {
    Obj(item.fields - {EncryptedContent, Content, Passthrough})
  }

  function CleanItem(item: Json): seq<Json>
    requires ItemOk(item)
  {
    if !IsReasoning(item) then [item]
    else if EmptySummary(item) then []
    else [WithoutPrivate(item)]
  }

  function TokenOf(item: Json): seq<string>
    requires ItemOk(item)
  {
    if IsReasoning(item) && HasToken(item) then [item.fields[EncryptedContent].s] else []
  }

  predicate AllOk(items: seq<Json>) {
    forall i :: 0 <= i < |items| ==> ItemOk(items[i])
  }

  function Clean(items: seq<Json>): seq<Json>
    requires AllOk(items)
  {
    if items == [] then [] else Clean(items[..|items| - 1]) + CleanItem(items[|items| - 1])
  }

  function Tokens(items: seq<Json>): seq<string>
    requires AllOk(items)
  {
    if items == [] then [] else Tokens(items[..|items| - 1]) + TokenOf(items[|items| - 1])
  }

  // ----- What a verified history is -----

  predicate Restorable(restore: Restore, tokens: seq<string>) {
    forall i :: 0 <= i < |tokens| ==> tokens[i] in restore
  }

  function Chain(restore: Restore, tokens: seq<string>): (chain: seq<Replay>)
    requires Restorable(restore, tokens)
    ensures |chain| == |tokens|
  {
    seq(|tokens|, i requires 0 <= i < |tokens| => restore[tokens[i]])
  }

  /** The record's input and output stand in `clean` where it says. */
  predicate Placed(r: Replay, clean: seq<Json>, digest: Digest) {
    && End(r) <= |clean|
    && digest(Normalized(Arr(clean[..r.inputLen]))) == r.inputDigest
    && NormalizedAll(clean[r.inputLen..End(r)]) == NormalizedAll(r.output)
  }

  function ResponseAt(chain: seq<Replay>, n: nat): Option<string>
    requires n <= |chain|
  {
    if n == 0 then None else Some(chain[n - 1].response)
  }

  /** The checks on one record behind `chain`: a new response id, the previous record as
      parent, the recorded place, and a span that starts later and does not overlap. */
  predicate Extends(chain: seq<Replay>, r: Replay, clean: seq<Json>, digest: Digest) {
    && (forall i :: 0 <= i < |chain| ==> chain[i].response != r.response)
    && r.parent == ResponseAt(chain, |chain|)
    && Placed(r, clean, digest)
    && (chain != [] ==> End(chain[|chain| - 1]) <= r.inputLen && chain[|chain| - 1].inputLen < r.inputLen)
  }

  /** Every record extends the records before it. */
  predicate Linked(chain: seq<Replay>, clean: seq<Json>, digest: Digest) {
    chain == []
    || (Linked(chain[..|chain| - 1], clean, digest)
        && Extends(chain[..|chain| - 1], chain[|chain| - 1], clean, digest))
  }

  predicate Covered(p: nat, chain: seq<Replay>) {
    exists i :: 0 <= i < |chain| && chain[i].inputLen <= p < End(chain[i])
  }

  /** No reasoning item outside the recorded spans. */
  predicate ReasoningCovered(clean: seq<Json>, chain: seq<Replay>) {
    forall p :: 0 <= p < |clean| && IsReasoning(clean[p]) ==> Covered(p, chain)
  }

  predicate PortableItem(item: Json) {
    && (HasText(item, Role, "system") || HasText(item, Role, "developer") || HasText(item, Role, "user"))
    && (Get(item, Type).Some? ==> HasText(item, Type, "message"))
  }

  predicate PortableMatch(item: Json, digest: Digest, expected: string) {
    HasText(item, Role, "user") && digest(Normalized(Arr([item]))) == expected
  }

  function CountMatches(items: seq<Json>, digest: Digest, expected: string): nat {
    if items == [] then 0
    else CountMatches(items[..|items| - 1], digest, expected)
         + if PortableMatch(items[|items| - 1], digest, expected) then 1 else 0
  }

  /** A fresh epoch: only instruction and user messages, the approved one exactly once. */
  predicate PortableOk(session: Session, clean: seq<Json>, digest: Digest) {
    session.head.None? && session.portable.Some? ==>
      && (forall i :: 0 <= i < |clean| ==> PortableItem(clean[i]))
      && CountMatches(clean, digest, session.portable.value) == 1
  }

  predicate Verified(restore: Restore, digest: Digest, session: Session, clean: seq<Json>, tokens: seq<string>) {
    && Restorable(restore, tokens)
    && var chain := Chain(restore, tokens);
       && Linked(chain, clean, digest)
       && ResponseAt(chain, |chain|) == session.head
       && ReasoningCovered(clean, chain)
       && PortableOk(session, clean, digest)
  }

  /** The inputs that history accepts. */
  predicate Accepts(restore: Restore, digest: Digest, session: Session, input: seq<Json>) {
    AllOk(input) && Verified(restore, digest, session, Clean(input), Tokens(input))
  }

  type Segments = map<nat, (nat, Native)>

  function SegmentsOf(chain: seq<Replay>): Segments {
    if chain == [] then map[]
    else
      var last := chain[|chain| - 1];
      SegmentsOf(chain[..|chain| - 1])[last.inputLen := (End(last), last.native)]
  }

  // ----- history -----

  /** The first loop: the items without private fields, and the tokens. */
  method ScanInput(input: seq<Json>) returns (r: Result<(seq<Json>, seq<string>), Rejected>)
    ensures r.Ok? <==> AllOk(input)
    ensures r.Ok? ==> r.value == (Clean(input), Tokens(input))
  {
    var clean: seq<Json>, tokens: seq<string> := [], [];
    var n := 0;
    while n < |input|
      invariant n <= |input| && AllOk(input[..n])
      invariant clean == Clean(input[..n]) && tokens == Tokens(input[..n])
    {
      var item := input[n];
      assert input[..n + 1][..n] == input[..n];
      if IsReasoning(item) {
        if !ReasoningShape(item) {
          return Err(Rejected);
        }
        var summary := item.fields[Summary].items;
        if HasToken(item) {
          if !item.fields[EncryptedContent].Str? {
            return Err(Rejected);
          }
          tokens := tokens + [item.fields[EncryptedContent].s];
        } else if summary == [] {
          return Err(Rejected);
        }
        if summary != [] {
          clean := clean + [WithoutPrivate(item)];
        }
      } else {
        clean := clean + [item];
      }
      n := n + 1;
    }
    assert input[..n] == input;
    return Ok((clean, tokens));
  }

  lemma {:induction false} SegmentKeys(chain: seq<Replay>, clean: seq<Json>, digest: Digest)
    requires Linked(chain, clean, digest)
    ensures chain != [] ==> chain[|chain| - 1].inputLen in SegmentsOf(chain)
    ensures forall k :: k in SegmentsOf(chain) ==> chain != [] && k <= chain[|chain| - 1].inputLen
  {
    hide Placed;
    if chain != [] {
      SegmentKeys(chain[..|chain| - 1], clean, digest);
    }
  }

  /** The loop variables summarize the records read so far. */
  predicate Tracks(chain: seq<Replay>, segments: Segments, seen: set<string>, previous: Option<string>, lastEnd: nat) {
    && segments == SegmentsOf(chain)
    && seen == (set i | 0 <= i < |chain| :: chain[i].response)
    && previous == ResponseAt(chain, |chain|)
    && lastEnd == if chain == [] then 0 else End(chain[|chain| - 1])
  }

  /** The loop's tests decide whether a record extends the chain. */
  lemma TestsDecide(chain: seq<Replay>, r: Replay, clean: seq<Json>, digest: Digest,
                    segments: Segments, seen: set<string>, previous: Option<string>, lastEnd: nat)
    requires Linked(chain, clean, digest) && Tracks(chain, segments, seen, previous, lastEnd)
    ensures Extends(chain, r, clean, digest) <==>
              r.response !in seen && r.parent == previous && r.inputLen >= lastEnd
              && Placed(r, clean, digest) && r.inputLen !in segments
  {
    hide Placed, SegmentsOf;
    SegmentKeys(chain, clean, digest);
    hide Linked;
  }

  lemma TracksNext(chain: seq<Replay>, r: Replay, segments: Segments, seen: set<string>,
                   previous: Option<string>, lastEnd: nat)
    requires Tracks(chain, segments, seen, previous, lastEnd)
    ensures Tracks(chain + [r], segments[r.inputLen := (End(r), r.native)], seen + {r.response},
                   Some(r.response), End(r))
  {
    var more := chain + [r];
    assert more[..|chain|] == chain && more[|chain|] == r;
  }

  lemma LinkedNext(chain: seq<Replay>, r: Replay, clean: seq<Json>, digest: Digest)
    requires Linked(chain, clean, digest) && Extends(chain, r, clean, digest)
    ensures Linked(chain + [r], clean, digest)
  {
    hide Extends;
    assert (chain + [r])[..|chain|] == chain;
  }

  /** The second loop: every token opens to a record that extends the chain so far. */
  method VerifyChain(restore: Restore, digest: Digest, clean: seq<Json>, tokens: seq<string>)
    returns (r: Result<(Segments, Option<string>), Rejected>)
    ensures r.Ok? <==> Restorable(restore, tokens) && Linked(Chain(restore, tokens), clean, digest)
    ensures r.Ok? ==>
              var chain := Chain(restore, tokens);
              r.value == (SegmentsOf(chain), ResponseAt(chain, |chain|))
  {
    hide Normalized, NormalizedAll, Linked, SegmentsOf, Extends;
    var segments: Segments, seen: set<string>, previous: Option<string>, lastEnd: nat := map[], {}, None, 0;
    var n := 0;
    ghost var chain: seq<Replay> := [];
    NothingTracked(clean, digest);
    while n < |tokens|
      invariant n <= |tokens| && Restorable(restore, tokens[..n])
      invariant chain == Chain(restore, tokens[..n]) && Linked(chain, clean, digest)
      invariant Tracks(chain, segments, seen, previous, lastEnd)
    {
      hide Tracks;
      if tokens[n] !in restore {
        return Err(Rejected);
      }
      var replay := restore[tokens[n]];
      TestsDecide(chain, replay, clean, digest, segments, seen, previous, lastEnd);
      ChainStep(restore, tokens, n, clean, digest);
      if replay.response in seen || replay.parent != previous {
        return Err(Rejected);
      }
      var start, end := replay.inputLen, replay.inputLen + |replay.output|;
      if start < lastEnd || end > |clean|
         || digest(Normalized(Arr(clean[..start]))) != replay.inputDigest
         || NormalizedAll(clean[start..end]) != NormalizedAll(replay.output) {
        return Err(Rejected);
      }
      if start in segments {
        return Err(Rejected);
      }
      TracksNext(chain, replay, segments, seen, previous, lastEnd);
      LinkedNext(chain, replay, clean, digest);
      segments := segments[start := (end, replay.native)];
      seen := seen + {replay.response};
      previous, lastEnd := Some(replay.response), end;
      n := n + 1;
      chain := chain + [replay];
    }
    assert tokens[..n] == tokens;
    return Ok((segments, previous));
  }

  lemma NothingTracked(clean: seq<Json>, digest: Digest)
    ensures Linked([], clean, digest) && Tracks([], map[], {}, None, 0)
  {
  }

  lemma ChainStep(restore: Restore, tokens: seq<string>, n: nat, clean: seq<Json>, digest: Digest)
    requires n < |tokens| && Restorable(restore, tokens[..n]) && tokens[n] in restore
    requires Linked(Chain(restore, tokens[..n]), clean, digest)
    ensures Restorable(restore, tokens[..n + 1])
    ensures Chain(restore, tokens[..n + 1]) == Chain(restore, tokens[..n]) + [restore[tokens[n]]]
    ensures Restorable(restore, tokens) && Linked(Chain(restore, tokens), clean, digest) ==>
              Extends(Chain(restore, tokens[..n]), restore[tokens[n]], clean, digest)
  {
    hide Placed;
    if Restorable(restore, tokens) && Linked(Chain(restore, tokens), clean, digest) {
      LinkedPrefix(Chain(restore, tokens), n + 1, clean, digest);
      var more := Chain(restore, tokens)[..n + 1];
      assert more[..n] == Chain(restore, tokens[..n]) && more[n] == restore[tokens[n]];
    }
  }

  lemma {:induction false} LinkedPrefix(chain: seq<Replay>, n: nat, clean: seq<Json>, digest: Digest)
    requires n <= |chain| && Linked(chain, clean, digest)
    ensures Linked(chain[..n], clean, digest)
  {
    hide Extends;
    if n == |chain| {
      assert chain[..n] == chain;
    } else {
      assert chain[..|chain| - 1][..n] == chain[..n];
      LinkedPrefix(chain[..|chain| - 1], n, clean, digest);
    }
  }

  predicate CoveredBy(p: nat, segments: Segments) {
    exists start :: start in segments && start <= p < segments[start].0
  }

  /** The coverage loop: the first reasoning item outside every span is refused. */
  method CheckCoverage(clean: seq<Json>, segments: Segments) returns (ok: bool)
    ensures ok <==> forall p :: 0 <= p < |clean| && IsReasoning(clean[p]) ==> CoveredBy(p, segments)
  {
    var p := 0;
    while p < |clean|
      invariant p <= |clean|
      invariant forall q :: 0 <= q < p && IsReasoning(clean[q]) ==> CoveredBy(q, segments)
    {
      if IsReasoning(clean[p]) && !CoveredBy(p, segments) {
        return false;
      }
      p := p + 1;
    }
    return true;
  }

  /** Every span of the chain is a segment. */
  lemma {:induction false} SegmentAt(chain: seq<Replay>, i: nat, clean: seq<Json>, digest: Digest)
    requires Linked(chain, clean, digest) && i < |chain|
    ensures chain[i].inputLen in SegmentsOf(chain)
    ensures SegmentsOf(chain)[chain[i].inputLen] == (End(chain[i]), chain[i].native)
  {
    hide Placed;
    var n := |chain| - 1;
    if i < n {
      SegmentKeys(chain[..n], clean, digest);
      SegmentAt(chain[..n], i, clean, digest);
    }
  }

  /** Every segment is a span of the chain. */
  lemma {:induction false} SegmentSource(chain: seq<Replay>, k: nat) returns (i: nat)
    requires k in SegmentsOf(chain)
    ensures i < |chain| && chain[i].inputLen == k && SegmentsOf(chain)[k] == (End(chain[i]), chain[i].native)
  {
    var n := |chain| - 1;
    if chain[n].inputLen == k {
      i := n;
    } else {
      i := SegmentSource(chain[..n], k);
    }
  }

  lemma CoverageAgrees(p: nat, chain: seq<Replay>, clean: seq<Json>, digest: Digest)
    requires Linked(chain, clean, digest)
    ensures CoveredBy(p, SegmentsOf(chain)) <==> Covered(p, chain)
  {
    hide Linked, SegmentsOf;
    var segments := SegmentsOf(chain);
    if start :| start in segments && start <= p < segments[start].0 {
      var i := SegmentSource(chain, start);
    }
    if i :| 0 <= i < |chain| && chain[i].inputLen <= p < End(chain[i]) {
      SegmentAt(chain, i, clean, digest);
    }
  }

  /** src/proxy_managed.rs history. A payload without an input array is refused once the
      session has a head, and passes unchanged before. */
  method VerifyHistory(restore: Restore, digest: Digest, session: Session, input: Option<seq<Json>>)
    returns (r: Result<(Option<seq<Json>>, Segments), Rejected>)
    ensures input.None? ==> r == if session.head.Some? then Err(Rejected) else Ok((None, map[]))
    ensures input.Some? ==> (r.Ok? <==> Accepts(restore, digest, session, input.value))
    ensures input.Some? && r.Ok? ==>
              r.value == (Some(Clean(input.value)), SegmentsOf(Chain(restore, Tokens(input.value))))
  {
    hide Linked, SegmentsOf, Clean, Tokens, CountMatches, Normalized, PortableItem, ItemOk;
    if input.None? {
      if session.head.Some? {
        return Err(Rejected);
      }
      return Ok((None, map[]));
    }
    var scanned := ScanInput(input.value);
    if scanned.Err? {
      return Err(Rejected);
    }
    var (clean, tokens) := scanned.value;
    var verified := VerifyChain(restore, digest, clean, tokens);
    if verified.Err? {
      return Err(Rejected);
    }
    var (segments, previous) := verified.value;
    if previous != session.head {
      return Err(Rejected);
    }
    var covered := CheckCoverage(clean, segments);
    forall p: nat { CoverageAgrees(p, Chain(restore, tokens), clean, digest); }
    if !covered {
      return Err(Rejected);
    }
    if session.head.None? && session.portable.Some? {
      if exists i :: 0 <= i < |clean| && !PortableItem(clean[i]) {
        return Err(Rejected);
      }
      if CountMatches(clean, digest, session.portable.value) != 1 {
        return Err(Rejected);
      }
    }
    return Ok((Some(clean), segments));
  }

  // ----- Soundness -----

  lemma RecordAt(chain: seq<Replay>, i: nat, clean: seq<Json>, digest: Digest)
    requires Linked(chain, clean, digest) && i < |chain|
    ensures Extends(chain[..i], chain[i], clean, digest)
    ensures chain[i].parent == ResponseAt(chain, i) && Placed(chain[i], clean, digest)
  {
    hide Placed;
    LinkedPrefix(chain, i + 1, clean, digest);
    assert chain[..i + 1][..i] == chain[..i];
  }

  lemma {:induction false} PairInOrder(chain: seq<Replay>, i: nat, j: nat, clean: seq<Json>, digest: Digest)
    requires Linked(chain, clean, digest) && i < j < |chain|
    ensures chain[i].response != chain[j].response
    ensures chain[i].inputLen < chain[j].inputLen && End(chain[i]) <= chain[j].inputLen
    decreases j
  {
    hide Placed, Linked;
    RecordAt(chain, j, clean, digest);
    assert chain[..j][i] == chain[i] && chain[..j][j - 1] == chain[j - 1];
    if i < j - 1 {
      PairInOrder(chain, i, j - 1, clean, digest);
    }
  }

  /** What acceptance says about the whole chain: its records are distinct, each has the
      one before it as parent, and the spans lie in order, apart and inside the input. */
  lemma ChainIsOrdered(chain: seq<Replay>, clean: seq<Json>, digest: Digest)
    requires Linked(chain, clean, digest)
    ensures forall i :: 0 <= i < |chain| ==>
              chain[i].parent == ResponseAt(chain, i) && Placed(chain[i], clean, digest)
    ensures forall i, j :: 0 <= i < j < |chain| ==>
              && chain[i].response != chain[j].response
              && chain[i].inputLen < chain[j].inputLen
              && End(chain[i]) <= chain[j].inputLen
  {
    hide Placed, Linked, Extends, ResponseAt;
    forall i | 0 <= i < |chain|
      ensures chain[i].parent == ResponseAt(chain, i) && Placed(chain[i], clean, digest)
    {
      RecordAt(chain, i, clean, digest);
    }
    forall i, j | 0 <= i < j < |chain|
      ensures && chain[i].response != chain[j].response
              && chain[i].inputLen < chain[j].inputLen
              && End(chain[i]) <= chain[j].inputLen
    {
      PairInOrder(chain, i, j, clean, digest);
    }
  }

  ghost predicate Injective(digest: Digest) {
    forall v, w :: digest(v) == digest(w) ==> v == w
  }

  /** The store keeps one record per response id. */
  ghost predicate OneRecordPerId(restore: Restore) {
    forall t, u :: t in restore && u in restore && restore[t].response == restore[u].response
                   ==> restore[t] == restore[u]
  }

  ghost predicate OneRecordEach(c1: seq<Replay>, c2: seq<Replay>) {
    forall i, j :: 0 <= i < |c1| && 0 <= j < |c2| && c1[i].response == c2[j].response ==> c1[i] == c2[j]
  }

  /** A head names the whole chain below it. */
  lemma {:induction false} HeadFixesChain(c1: seq<Replay>, clean1: seq<Json>,
                                          c2: seq<Replay>, clean2: seq<Json>, digest: Digest)
    requires Linked(c1, clean1, digest) && Linked(c2, clean2, digest) && OneRecordEach(c1, c2)
    requires ResponseAt(c1, |c1|) == ResponseAt(c2, |c2|)
    ensures c1 == c2
  {
    hide Placed;
    if c1 != [] {
      var n, m := |c1| - 1, |c2| - 1;
      assert c1[n] == c2[m];
      assert ResponseAt(c1[..n], n) == c1[n].parent && ResponseAt(c2[..m], m) == c2[m].parent;
      HeadFixesChain(c1[..n], clean1, c2[..m], clean2, digest);
      assert c1 == c1[..n] + [c1[n]] && c2 == c2[..m] + [c2[m]];
    }
  }

  /** Two requests accepted for one head replay the same records and, up to normalization,
      repeat the same items through the end of the last recorded turn. */
  lemma AcceptedHistoriesAgree(restore: Restore, digest: Digest, session: Session,
                               input1: seq<Json>, input2: seq<Json>)
    requires Injective(digest) && OneRecordPerId(restore) && session.head.Some?
    requires Accepts(restore, digest, session, input1) && Accepts(restore, digest, session, input2)
    ensures Chain(restore, Tokens(input1)) == Chain(restore, Tokens(input2)) != []
    ensures var chain := Chain(restore, Tokens(input1));
            var end := End(chain[|chain| - 1]);
            end <= |Clean(input1)| && end <= |Clean(input2)|
            && NormalizedAll(Clean(input1)[..end]) == NormalizedAll(Clean(input2)[..end])
  {
    hide Linked, Clean, Tokens, Placed, NormalizedAll, ReasoningCovered, PortableOk, AllOk, OneRecordPerId,
      OneRecordEach;
    var c1, c2 := Chain(restore, Tokens(input1)), Chain(restore, Tokens(input2));
    var clean1, clean2 := Clean(input1), Clean(input2);
    ChainsShareRecords(restore, Tokens(input1), Tokens(input2));
    HeadFixesChain(c1, clean1, c2, clean2, digest);
    var last := |c1| - 1;
    RecordAt(c1, last, clean1, digest);
    RecordAt(c2, last, clean2, digest);
    PlacedInside(c1[last], clean1, digest);
    PlacedInside(c1[last], clean2, digest);
    SamePlaceSamePrefix(c1[last], clean1, clean2, digest);
  }

  lemma ChainsShareRecords(restore: Restore, t1: seq<string>, t2: seq<string>)
    requires OneRecordPerId(restore) && Restorable(restore, t1) && Restorable(restore, t2)
    ensures OneRecordEach(Chain(restore, t1), Chain(restore, t2))
  {
  }

  lemma PlacedInside(r: Replay, clean: seq<Json>, digest: Digest)
    requires Placed(r, clean, digest)
    ensures End(r) <= |clean|
  {
  }

  lemma SamePlaceSamePrefix(r: Replay, clean1: seq<Json>, clean2: seq<Json>, digest: Digest)
    requires Injective(digest) && Placed(r, clean1, digest) && Placed(r, clean2, digest)
    ensures NormalizedAll(clean1[..End(r)]) == NormalizedAll(clean2[..End(r)])
  {
    var n, e := r.inputLen, End(r);
    NormalizedArray(clean1[..n]);
    NormalizedArray(clean2[..n]);
    NormalizedSplit(clean1[..e], n);
    NormalizedSplit(clean2[..e], n);
    assert clean1[..e][..n] == clean1[..n] && clean2[..e][..n] == clean2[..n];
    assert clean1[..e][n..] == clean1[n..e] && clean2[..e][n..] == clean2[n..e];
  }

  lemma NormalizedArray(items: seq<Json>)
    ensures Normalized(Arr(items)) == Arr(NormalizedAll(items))
  {
  }

  lemma NormalizedSplit(items: seq<Json>, n: nat)
    requires n <= |items|
    ensures NormalizedAll(items) == NormalizedAll(items[..n]) + NormalizedAll(items[n..])
  {
  }
}
