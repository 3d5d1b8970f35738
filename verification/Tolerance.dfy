/** Which changes a host may make to what it was shown (src/proxy_managed.rs, normalized and
    history): a relation on fields, equal to the verifier's own notion, and what acceptance
    makes of it. */
module Tolerance {
  import opened Common
  import opened Json
  import opened History

  // ----- Items that count as the same -----

  /** A field that may as well be missing when it is null. */
  function NonNull(v: Json, key: Key): Option<Json> {
    if Get(v, key) == Some(Null) then None else Get(v, key)
  }

  /** An item with a role is a message unless it says otherwise. */
  function TypeOf(v: Json): Option<Json> {
    if Get(v, Type).None? && Get(v, Role).Some? then Some(Str("message")) else Get(v, Type)
  }

  predicate OutputText(part: Json) {
    Get(part, Type) == Some(Str("output_text"))
  }

  /** Annotations of a text part, none if they are empty. */
  function Notes(part: Json): Option<Json> {
    if Get(part, Annotations) == Some(Arr([])) then None else Get(part, Annotations)
  }

  /** Content parts: empty annotations on output text make no difference. */
  ghost predicate SamePart(p: Json, q: Json) {
    || p == q
    || (OutputText(p) && OutputText(q) && Notes(p) == Notes(q)
        && forall k :: k != Annotations ==> Get(p, k) == Get(q, k))
  }

  ghost predicate SameContent(c: Option<Json>, d: Option<Json>) {
    || c == d
    || (c.Some? && d.Some? && c.value.Arr? && d.value.Arr? && |c.value.items| == |d.value.items|
        && forall i :: 0 <= i < |c.value.items| ==> SamePart(c.value.items[i], d.value.items[i]))
  }

  /** Objects: id and status never matter, a null phase or passthrough counts as missing, a
      message may leave out its type, and every other field must agree. */
  ghost predicate SameObject(a: Json, b: Json) {
    && a.Obj? && b.Obj?
    && TypeOf(a) == TypeOf(b) && SameContent(Get(a, Content), Get(b, Content))
    && NonNull(a, Phase) == NonNull(b, Phase) && NonNull(a, Passthrough) == NonNull(b, Passthrough)
    && forall k :: k !in {Id, Status, Type, Content, Phase, Passthrough} ==> Get(a, k) == Get(b, k)
  }

  ghost predicate Same(a: Json, b: Json)
    decreases a
  {
    if a.Arr? && b.Arr? then
      |a.items| == |b.items| && forall i :: 0 <= i < |a.items| ==> Same(a.items[i], b.items[i])
    else a == b || SameObject(a, b)
  }

  ghost predicate SameAll(a: seq<Json>, b: seq<Json>) {
    |a| == |b| && forall i :: 0 <= i < |a| ==> Same(a[i], b[i])
  }

  // ----- The verifier compares exactly this -----

  lemma GetAfter(part: Json, k: Key)
    requires OutputText(part)
    ensures StripPart(part).Obj?
    ensures Get(StripPart(part), k) == if k == Annotations then Notes(part) else Get(part, k)
  {
  }

  lemma ObjectsByFields(a: Json, b: Json)
    requires a.Obj? && b.Obj? && forall k :: Get(a, k) == Get(b, k)
    ensures a == b
  {
    forall k ensures k in a.fields <==> k in b.fields {
      assert Get(a, k) == Get(b, k);
    }
    forall k | k in a.fields ensures a.fields[k] == b.fields[k] {
      assert Get(a, k) == Get(b, k);
    }
    assert a.fields == b.fields;
  }

  lemma OtherPart(part: Json)
    requires !OutputText(part)
    ensures StripPart(part) == part
  {
  }

  lemma StripSame(p: Json, q: Json)
    ensures StripPart(p) == StripPart(q) <==> SamePart(p, q)
  {
    hide StripPart;
    if OutputText(p) && OutputText(q) {
      forall k ensures Get(StripPart(p), k) == (if k == Annotations then Notes(p) else Get(p, k))
               ensures Get(StripPart(q), k) == (if k == Annotations then Notes(q) else Get(q, k))
      {
        GetAfter(p, k);
        GetAfter(q, k);
      }
      if SamePart(p, q) {
        ObjectsByFields(StripPart(p), StripPart(q));
      } else {
        assert StripPart(p) != StripPart(q);
      }
    } else {
      StripKeepsType(p);
      StripKeepsType(q);
      if !OutputText(p) {
        OtherPart(p);
      }
      if !OutputText(q) {
        OtherPart(q);
      }
    }
  }

  lemma StripKeepsType(p: Json)
    ensures OutputText(StripPart(p)) <==> OutputText(p)
  {
  }

  /** The fields of a normalized object, one by one. */
  lemma NormalizedGet(fields: map<Key, Json>, k: Key)
    ensures var n, v := Obj(NormalizedFields(fields)), Obj(fields);
            Get(n, k) == if k == Id || k == Status then None
                         else if k == Phase || k == Passthrough then NonNull(v, k)
                         else if k == Type then TypeOf(v)
                         else if k == Content && Get(v, Content).Some? && Get(v, Content).value.Arr?
                         then Some(Arr(StripParts(Get(v, Content).value.items)))
                         else Get(v, k)
  {
    hide StripParts;
  }

  lemma ContentSame(c: Option<Json>, d: Option<Json>)
    ensures var strip := (o: Option<Json>) =>
              if o.Some? && o.value.Arr? then Some(Arr(StripParts(o.value.items))) else o;
            strip(c) == strip(d) <==> SameContent(c, d)
  {
    hide StripPart, SamePart;
    if c.Some? && d.Some? && c.value.Arr? && d.value.Arr? {
      var x, y := c.value.items, d.value.items;
      forall i | 0 <= i < |x| && i < |y| ensures StripPart(x[i]) == StripPart(y[i]) <==> SamePart(x[i], y[i]) {
        StripSame(x[i], y[i]);
      }
      if StripParts(x) == StripParts(y) {
        forall i | 0 <= i < |x| ensures SamePart(x[i], y[i]) {
          assert StripParts(x)[i] == StripParts(y)[i];
        }
      }
      if x == y {
        assert StripParts(x) == StripParts(y);
      }
    }
  }

  lemma ObjectsSame(a: Json, b: Json)
    requires a.Obj? && b.Obj?
    ensures Normalized(a) == Normalized(b) <==> SameObject(a, b)
  {
    hide NormalizedFields, SameContent, StripParts;
    var m, n := Obj(NormalizedFields(a.fields)), Obj(NormalizedFields(b.fields));
    assert Obj(a.fields) == a && Obj(b.fields) == b;
    ContentSame(Get(a, Content), Get(b, Content));
    if SameObject(a, b) {
      forall k ensures Get(m, k) == Get(n, k) {
        NormalizedGet(a.fields, k);
        NormalizedGet(b.fields, k);
      }
      ObjectsByFields(m, n);
    } else if m == n {
      forall k | k !in {Id, Status, Type, Content, Phase, Passthrough} ensures Get(a, k) == Get(b, k) {
        NormalizedGet(a.fields, k);
        NormalizedGet(b.fields, k);
      }
      NormalizedGet(a.fields, Type);
      NormalizedGet(b.fields, Type);
      NormalizedGet(a.fields, Content);
      NormalizedGet(b.fields, Content);
      NormalizedGet(a.fields, Phase);
      NormalizedGet(b.fields, Phase);
      NormalizedGet(a.fields, Passthrough);
      NormalizedGet(b.fields, Passthrough);
    }
  }

  /** Two values are compared as equal exactly when they are the same in this sense. */
  lemma {:induction false} NormalizedSame(a: Json, b: Json)
    ensures Normalized(a) == Normalized(b) <==> Same(a, b)
    decreases a
  {
    hide NormalizedFields, SameObject;
    if a.Arr? && b.Arr? {
      forall i | 0 <= i < |a.items| && i < |b.items|
        ensures Normalized(a.items[i]) == Normalized(b.items[i]) <==> Same(a.items[i], b.items[i])
      {
        NormalizedSame(a.items[i], b.items[i]);
      }
      ArraysSame(a.items, b.items);
    } else if a.Obj? && b.Obj? {
      ObjectsSame(a, b);
    } else {
      NotObjects(a, b);
    }
  }

  lemma NotObjects(a: Json, b: Json)
    requires !(a.Obj? && b.Obj?)
    ensures !SameObject(a, b)
  {
  }

  lemma ArraysSame(x: seq<Json>, y: seq<Json>)
    ensures Normalized(Arr(x)) == Normalized(Arr(y))
            <==> |x| == |y| && forall i :: 0 <= i < |x| ==> Normalized(x[i]) == Normalized(y[i])
  {
    NormalizedArray(x);
    NormalizedArray(y);
    hide Normalized;
    var m, n := NormalizedAll(x), NormalizedAll(y);
    assert |m| == |x| && |n| == |y|;
    assert forall i :: 0 <= i < |x| ==> m[i] == Normalized(x[i]);
    assert forall i :: 0 <= i < |y| ==> n[i] == Normalized(y[i]);
    if m == n {
      forall i | 0 <= i < |x| ensures Normalized(x[i]) == Normalized(y[i]) {
        assert m[i] == n[i];
      }
    }
  }

  // ----- Changes to a request -----

  /** Content that may as well be missing from a reasoning item. */
  function Said(v: Json): Option<Json> {
    if Get(v, Content) == Some(Null) || Get(v, Content) == Some(Arr([])) then None else Get(v, Content)
  }

  /** Reasoning items: the id never matters, null or empty content, a null passthrough and a null
      token count as missing, and every other field, status included, must agree. */
  ghost predicate SameReasoning(a: Json, b: Json) {
    && IsReasoning(a) && IsReasoning(b)
    && Said(a) == Said(b) && NonNull(a, Passthrough) == NonNull(b, Passthrough)
    && NonNull(a, EncryptedContent) == NonNull(b, EncryptedContent)
    && forall k :: k !in {Id, Content, Passthrough, EncryptedContent} ==> Get(a, k) == Get(b, k)
  }

  /** The host may send the one item for the other. */
  ghost predicate Interchangeable(a: Json, b: Json) {
    if IsReasoning(a) || IsReasoning(b) then SameReasoning(a, b) else Same(a, b)
  }

  ghost predicate InterchangeableAll(input: seq<Json>, other: seq<Json>) {
    |input| == |other| && forall i :: 0 <= i < |input| ==> Interchangeable(input[i], other[i])
  }

  lemma ShapesAgree(a: Json, b: Json)
    requires SameReasoning(a, b) && ReasoningShape(a)
    ensures ReasoningShape(b)
  {
    forall k | k in b.fields ensures k in AllowedKeys() {
      assert k !in {Id, Content, Passthrough, EncryptedContent} ==> Get(a, k) == Get(b, k);
    }
    assert Get(a, Summary) == Get(b, Summary);
  }

  lemma Symmetric(a: Json, b: Json)
    requires SameReasoning(a, b)
    ensures SameReasoning(b, a)
  {
  }

  lemma TokensAgree(a: Json, b: Json)
    requires SameReasoning(a, b)
    ensures ItemOk(a) ==> ItemOk(b) && TokenOf(a) == TokenOf(b) && EmptySummary(a) == EmptySummary(b)
  {
    hide ReasoningShape;
    if ItemOk(a) {
      ShapesAgree(a, b);
      assert Get(a, Summary) == Get(b, Summary);
    }
  }

  lemma CleanSame(a: Json, b: Json)
    requires SameReasoning(a, b) && ItemOk(a) && ItemOk(b)
    ensures Same(WithoutPrivate(a), WithoutPrivate(b))
  {
    var x, y := WithoutPrivate(a), WithoutPrivate(b);
    forall k | k !in {Id, Status, Type, Content, Phase, Passthrough} ensures Get(x, k) == Get(y, k) {
      assert k != EncryptedContent ==> Get(a, k) == Get(b, k);
    }
    assert Get(a, Type) == Get(b, Type) && Get(a, Role) == Get(b, Role) && Get(a, Phase) == Get(b, Phase);
    assert SameObject(x, y);
  }

  /** One item in place of another: the same verdict, the same token, the same clean item. */
  lemma ItemsAgree(a: Json, b: Json)
    requires Interchangeable(a, b)
    ensures ItemOk(a) <==> ItemOk(b)
    ensures ItemOk(a) ==> TokenOf(a) == TokenOf(b) && SameAll(CleanItem(a), CleanItem(b))
  {
    hide ItemOk, TokenOf, Same, SameReasoning, EmptySummary;
    if IsReasoning(a) || IsReasoning(b) {
      Symmetric(a, b);
      TokensAgree(a, b);
      TokensAgree(b, a);
      BothReasoning(a, b);
      if ItemOk(a) {
        CleanSame(a, b);
      }
    } else {
      NoReasoning(a);
      NoReasoning(b);
    }
  }

  lemma BothReasoning(a: Json, b: Json)
    requires SameReasoning(a, b)
    ensures IsReasoning(a) && IsReasoning(b) && a.Obj? && b.Obj?
  {
  }

  lemma NoReasoning(a: Json)
    requires !IsReasoning(a)
    ensures ItemOk(a) && TokenOf(a) == [] && CleanItem(a) == [a]
  {
  }

  lemma {:induction false} InputsAgree(input: seq<Json>, other: seq<Json>)
    requires InterchangeableAll(input, other)
    ensures AllOk(input) <==> AllOk(other)
    ensures AllOk(input) ==> Tokens(input) == Tokens(other) && SameAll(Clean(input), Clean(other))
    decreases |input|
  {
    hide ItemOk, TokenOf, CleanItem, Same, Interchangeable;
    if input != [] {
      var n := |input| - 1;
      InputsAgree(input[..n], other[..n]);
      ItemsAgree(input[n], other[n]);
      LastOk(input);
      LastOk(other);
      if AllOk(input) {
        SameAppend(Clean(input[..n]), Clean(other[..n]), CleanItem(input[n]), CleanItem(other[n]));
      }
    }
  }

  lemma LastOk(input: seq<Json>)
    requires input != []
    ensures AllOk(input) <==> AllOk(input[..|input| - 1]) && ItemOk(input[|input| - 1])
  {
    hide ItemOk;
  }

  lemma SameAppend(a: seq<Json>, b: seq<Json>, c: seq<Json>, d: seq<Json>)
    requires SameAll(a, b) && SameAll(c, d)
    ensures SameAll(a + c, b + d)
  {
    hide Same;
    forall i | 0 <= i < |a + c| ensures Same((a + c)[i], (b + d)[i]) {
      if i >= |a| {
        assert (a + c)[i] == c[i - |a|] && (b + d)[i] == d[i - |a|];
      }
    }
  }

  // ----- The checks on clean items -----

  lemma AllSame(c: seq<Json>, d: seq<Json>)
    ensures NormalizedAll(c) == NormalizedAll(d) <==> SameAll(c, d)
  {
    hide Same;
    NormalizedArray(c);
    NormalizedArray(d);
    ArraysSame(c, d);
    forall i | 0 <= i < |c| && i < |d| ensures Normalized(c[i]) == Normalized(d[i]) <==> Same(c[i], d[i]) {
      NormalizedSame(c[i], d[i]);
    }
  }

  lemma SameSlice(c: seq<Json>, d: seq<Json>, from: nat, to: nat)
    requires SameAll(c, d) && from <= to <= |c|
    ensures SameAll(c[from..to], d[from..to])
  {
    hide Same;
  }

  lemma PlacesAgree(r: Replay, c: seq<Json>, d: seq<Json>, digest: Digest)
    requires SameAll(c, d)
    ensures Placed(r, c, digest) <==> Placed(r, d, digest)
  {
    hide Same, Normalized, NormalizedAll, SameAll;
    if End(r) <= |c| && |c| == |d| {
      SameSlice(c, d, 0, r.inputLen);
      SameSlice(c, d, r.inputLen, End(r));
      assert c[0..r.inputLen] == c[..r.inputLen] && d[0..r.inputLen] == d[..r.inputLen];
      AllSame(c[..r.inputLen], d[..r.inputLen]);
      AllSame(c[r.inputLen..End(r)], d[r.inputLen..End(r)]);
      NormalizedArray(c[..r.inputLen]);
      NormalizedArray(d[..r.inputLen]);
    } else {
      SameLength(c, d);
    }
  }

  lemma SameLength(c: seq<Json>, d: seq<Json>)
    requires SameAll(c, d)
    ensures |c| == |d|
  {
  }

  lemma {:induction false} ChainsAgree(chain: seq<Replay>, c: seq<Json>, d: seq<Json>, digest: Digest)
    requires SameAll(c, d)
    ensures Linked(chain, c, digest) <==> Linked(chain, d, digest)
  {
    hide Placed, SameAll;
    if chain != [] {
      ChainsAgree(chain[..|chain| - 1], c, d, digest);
      PlacesAgree(chain[|chain| - 1], c, d, digest);
    }
  }

  /** Same items have the same type, role and place in an approved context. */
  lemma KindsAgree(a: Json, b: Json)
    requires Same(a, b)
    ensures IsReasoning(a) <==> IsReasoning(b)
    ensures PortableItem(a) <==> PortableItem(b)
    ensures HasText(a, Role, "user") <==> HasText(b, Role, "user")
  {
    if a != b && !a.Arr? {
      assert Get(a, Role) == Get(b, Role);
    }
  }

  lemma {:induction false} MatchesAgree(c: seq<Json>, d: seq<Json>, digest: Digest, expected: string)
    requires SameAll(c, d)
    ensures CountMatches(c, digest, expected) == CountMatches(d, digest, expected)
  {
    hide Same, Normalized;
    if c != [] {
      var n := |c| - 1;
      assert SameAll(c[..n], d[..n]);
      MatchesAgree(c[..n], d[..n], digest, expected);
      KindsAgree(c[n], d[n]);
      AllSame([c[n]], [d[n]]);
      NormalizedArray([c[n]]);
      NormalizedArray([d[n]]);
    }
  }

  lemma VerdictsAgree(restore: Restore, digest: Digest, session: Session, c: seq<Json>, d: seq<Json>,
                      tokens: seq<string>)
    requires SameAll(c, d)
    ensures Verified(restore, digest, session, c, tokens) <==> Verified(restore, digest, session, d, tokens)
  {
    hide Same, Linked, PortableItem, IsReasoning, CountMatches, Covered;
    if Restorable(restore, tokens) {
      ChainsAgree(Chain(restore, tokens), c, d, digest);
    }
    forall i | 0 <= i < |c|
      ensures (IsReasoning(c[i]) <==> IsReasoning(d[i])) && (PortableItem(c[i]) <==> PortableItem(d[i]))
    {
      KindsAgree(c[i], d[i]);
    }
    if session.portable.Some? {
      MatchesAgree(c, d, digest, session.portable.value);
    }
  }

  /** Whatever the host changes within these bounds, the verdict, the tokens and the segments are
      the same. */
  lemma ToleratedChanges(restore: Restore, digest: Digest, session: Session, input: seq<Json>, other: seq<Json>)
    requires InterchangeableAll(input, other)
    ensures Accepts(restore, digest, session, input) <==> Accepts(restore, digest, session, other)
    ensures Accepts(restore, digest, session, input) ==>
              && |Clean(input)| == |Clean(other)|
              && SegmentsOf(Chain(restore, Tokens(input))) == SegmentsOf(Chain(restore, Tokens(other)))
  {
    hide Verified, Clean, Tokens, SegmentsOf, InterchangeableAll, AllOk, Chain, SameAll;
    InputsAgree(input, other);
    if AllOk(input) {
      VerdictsAgree(restore, digest, session, Clean(input), Clean(other), Tokens(input));
      SameLength(Clean(input), Clean(other));
    }
    if Accepts(restore, digest, session, input) {
      AcceptedRestores(restore, digest, session, input);
    }
  }

  lemma AcceptedRestores(restore: Restore, digest: Digest, session: Session, input: seq<Json>)
    requires Accepts(restore, digest, session, input)
    ensures AllOk(input) && Restorable(restore, Tokens(input))
  {
    hide Linked, Clean, Tokens, AllOk;
  }

  /** Two requests accepted for one head hold the same items through the end of the last turn. */
  lemma AcceptedPrefixesSame(restore: Restore, digest: Digest, session: Session, input: seq<Json>, other: seq<Json>)
    requires Injective(digest) && OneRecordPerId(restore) && session.head.Some?
    requires Accepts(restore, digest, session, input) && Accepts(restore, digest, session, other)
    ensures var chain := Chain(restore, Tokens(input));
            && chain != []
            && var end := End(chain[|chain| - 1]);
               && end <= |Clean(input)| && end <= |Clean(other)|
               && forall p :: 0 <= p < end ==> Same(Clean(input)[p], Clean(other)[p])
  {
    hide Accepts, Clean, Tokens, Same, NormalizedAll, Injective, OneRecordPerId, AllOk, Normalized;
    AcceptedRestores(restore, digest, session, input);
    AcceptedRestores(restore, digest, session, other);
    AcceptedHistoriesAgree(restore, digest, session, input, other);
    var chain := Chain(restore, Tokens(input));
    var end := End(chain[|chain| - 1]);
    var c, d := Clean(input)[..end], Clean(other)[..end];
    AllSame(c, d);
    forall p | 0 <= p < end ensures Same(Clean(input)[p], Clean(other)[p]) {
      assert Same(c[p], d[p]);
    }
  }

  /** With a digest without collisions, no other change to the recorded prefix is accepted. */
  lemma OtherChangesAreRefused(restore: Restore, digest: Digest, session: Session, input: seq<Json>, other: seq<Json>,
                               p: nat)
    requires Injective(digest) && OneRecordPerId(restore) && session.head.Some?
    requires Accepts(restore, digest, session, input) && AllOk(other)
    requires var chain := Chain(restore, Tokens(input));
             chain != [] && p < End(chain[|chain| - 1]) && p < |Clean(input)|
    requires p >= |Clean(other)| || !Same(Clean(input)[p], Clean(other)[p])
    ensures !Accepts(restore, digest, session, other)
  {
    hide Accepts, Clean, Tokens, Same, Injective, OneRecordPerId, AllOk, Chain;
    if Accepts(restore, digest, session, other) {
      AcceptedPrefixesSame(restore, digest, session, input, other);
    }
  }

  // ----- The tolerated changes, one by one -----

  /** Adding, changing or dropping an id or a status, or a null phase or passthrough. */
  lemma FieldsMayVary(fields: map<Key, Json>, key: Key, value: Json)
    requires key == Id || key == Status || ((key == Phase || key == Passthrough) && value == Null && key !in fields)
    ensures Same(Obj(fields), Obj(fields[key := value]))
    ensures key == Id || key == Status ==> Same(Obj(fields), Obj(fields - {key}))
  {
    var a, b, c := Obj(fields), Obj(fields[key := value]), Obj(fields - {key});
    assert forall k :: k != key ==> Get(a, k) == Get(b, k) && Get(a, k) == Get(c, k);
    assert SameObject(a, b);
  }

  /** Leaving out the type of a message, or naming it. */
  lemma TypeMayBeMissing(fields: map<Key, Json>)
    requires Role in fields && Type !in fields
    ensures Same(Obj(fields), Obj(fields[Type := Str("message")]))
  {
    var a, b := Obj(fields), Obj(fields[Type := Str("message")]);
    assert forall k :: k != Type ==> Get(a, k) == Get(b, k);
    assert SameObject(a, b);
  }

  /** Empty annotations on output text. */
  lemma NotesMayBeMissing(fields: map<Key, Json>, parts: seq<Json>, i: nat)
    requires i < |parts| && OutputText(parts[i]) && Annotations !in parts[i].fields
    ensures var noted := Obj(parts[i].fields[Annotations := Arr([])]);
            Same(Obj(fields[Content := Arr(parts)]), Obj(fields[Content := Arr(parts[i := noted])]))
  {
    var part, noted := parts[i], Obj(parts[i].fields[Annotations := Arr([])]);
    assert forall k :: k != Annotations ==> Get(part, k) == Get(noted, k);
    assert SamePart(part, noted);
    var a, b := Obj(fields[Content := Arr(parts)]), Obj(fields[Content := Arr(parts[i := noted])]);
    assert forall k :: k != Content ==> Get(a, k) == Get(b, k);
    assert SameContent(Get(a, Content), Get(b, Content));
    assert SameObject(a, b);
  }

  // ----- What acceptance lets in -----

  /** No accepted reasoning item carries an unknown field, content, a passthrough or a token that is
      no text, and its summary is a list of plain texts. An item without a token has one. */
  lemma AcceptedReasoning(restore: Restore, digest: Digest, session: Session, input: seq<Json>, i: nat)
    requires Accepts(restore, digest, session, input) && i < |input| && Get(input[i], Type) == Some(Str("reasoning"))
    ensures forall k :: Get(input[i], k).Some? ==> k in {Type, Id, Summary, EncryptedContent, Content, Passthrough}
    ensures Get(input[i], Content) in {None, Some(Null), Some(Arr([]))}
    ensures Get(input[i], Passthrough) in {None, Some(Null)}
    ensures var token := Get(input[i], EncryptedContent);
            token in {None, Some(Null)} || token.value.Str?
    ensures var summary := Get(input[i], Summary);
            && summary.Some? && summary.value.Arr?
            && (summary == Some(Arr([])) ==> Get(input[i], EncryptedContent) !in {None, Some(Null)})
            && forall j :: 0 <= j < |summary.value.items| ==> PlainText(summary.value.items[j])
  {
    hide Verified, Clean, Tokens;
    var item := input[i];
    assert ItemOk(item) && IsReasoning(item);
    forall j | 0 <= j < |item.fields[Summary].items| ensures PlainText(item.fields[Summary].items[j]) {
      TwoFields(item.fields[Summary].items[j]);
    }
  }

  /** A summary text and nothing else. */
  predicate PlainText(part: Json) {
    && Get(part, Type) == Some(Str("summary_text")) && Get(part, Text).Some? && Get(part, Text).value.Str?
    && part.fields.Keys == {Type, Text}
  }

  lemma TwoFields(part: Json)
    requires SummaryPart(part)
    ensures PlainText(part)
  {
    var keys := part.fields.Keys;
    var two: set<Key> := {Type, Text};
    assert |two| == 2 && |keys| == |part.fields| == 2;
    assert keys == two + (keys - two) && |keys - two| == 0;
  }

  lemma {:induction false} CountIsOne(items: seq<Json>, digest: Digest, expected: string)
    ensures CountMatches(items, digest, expected) == 0
            <==> forall i :: 0 <= i < |items| ==> !PortableMatch(items[i], digest, expected)
    ensures CountMatches(items, digest, expected) == 1
            <==> exists i :: OnlyMatch(items, digest, expected, i)
  {
    hide PortableMatch;
    if items != [] {
      var n := |items| - 1;
      var front := items[..n];
      CountIsOne(front, digest, expected);
      if i :| OnlyMatch(front, digest, expected, i) && !PortableMatch(items[n], digest, expected) {
        assert OnlyMatch(items, digest, expected, i);
      }
      if CountMatches(front, digest, expected) == 0 && PortableMatch(items[n], digest, expected) {
        assert OnlyMatch(items, digest, expected, n);
      }
      if i :| OnlyMatch(items, digest, expected, i) && i < n {
        assert OnlyMatch(front, digest, expected, i);
      }
    }
  }

  /** The i-th item, and no other, is the approved context. */
  predicate OnlyMatch(items: seq<Json>, digest: Digest, expected: string, i: int) {
    && 0 <= i < |items| && PortableMatch(items[i], digest, expected)
    && forall j :: 0 <= j < |items| && j != i ==> !PortableMatch(items[j], digest, expected)
  }

  /** A message of the host itself: its role is one of three, and it has no other type. */
  predicate HostMessage(item: Json) {
    && Get(item, Role) in {Some(Str("system")), Some(Str("developer")), Some(Str("user"))}
    && Get(item, Type) in {None, Some(Str("message"))}
  }

  /** A session that starts from an approved context accepts exactly messages of the host, one of
      them and only one the approved user message. */
  lemma FreshEpochAccepts(restore: Restore, digest: Digest, approved: string, input: seq<Json>)
    ensures Accepts(restore, digest, Session(None, Some(approved)), input)
            <==> && (forall i :: 0 <= i < |input| ==> HostMessage(input[i]))
                 && exists i :: OnlyMatch(input, digest, approved, i)
  {
    hide Accepts, OnlyMatch;
    if Accepts(restore, digest, Session(None, Some(approved)), input) {
      FreshAccepted(restore, digest, approved, input);
    }
    if forall i :: 0 <= i < |input| ==> HostMessage(input[i]) {
      HostMessagesRead(input);
      CountIsOne(input, digest, approved);
      FreshDecided(restore, digest, approved, input);
    }
  }

  lemma {:induction false} HostMessagesRead(input: seq<Json>)
    requires forall i :: 0 <= i < |input| ==> HostMessage(input[i])
    ensures AllOk(input) && Clean(input) == input && Tokens(input) == []
  {
    hide ItemOk, TokenOf, CleanItem, HostMessage;
    if input != [] {
      var n := |input| - 1;
      HostMessagesRead(input[..n]);
      HostIsPlain(input[n]);
      NoReasoning(input[n]);
      assert input == input[..n] + [input[n]];
    }
  }

  lemma HostIsPlain(item: Json)
    requires HostMessage(item)
    ensures !IsReasoning(item) && PortableItem(item)
  {
  }

  lemma PortableIsHost(item: Json)
    requires PortableItem(item)
    ensures HostMessage(item)
  {
  }

  lemma FreshDecided(restore: Restore, digest: Digest, approved: string, input: seq<Json>)
    requires AllOk(input) && Clean(input) == input && Tokens(input) == []
    requires forall i :: 0 <= i < |input| ==> HostMessage(input[i])
    ensures Accepts(restore, digest, Session(None, Some(approved)), input)
            <==> CountMatches(input, digest, approved) == 1
  {
    hide AllOk, Clean, Tokens, CountMatches, HostMessage, IsReasoning, PortableItem;
    forall i | 0 <= i < |input| ensures !IsReasoning(input[i]) && PortableItem(input[i]) {
      HostIsPlain(input[i]);
    }
  }

  lemma FreshAccepted(restore: Restore, digest: Digest, approved: string, input: seq<Json>)
    requires Accepts(restore, digest, Session(None, Some(approved)), input)
    ensures forall i :: 0 <= i < |input| ==> HostMessage(input[i])
    ensures exists i :: OnlyMatch(input, digest, approved, i)
  {
    hide Clean, Tokens, Linked, CountMatches, OnlyMatch, PortableItem, ItemOk, HostMessage, IsReasoning;
    assert Tokens(input) == [];
    NoTokens(input);
    forall i | 0 <= i < |input| ensures HostMessage(input[i]) {
      PortableIsHost(input[i]);
    }
    CountIsOne(input, digest, approved);
  }

  /** Without a token there is no reasoning item that vanishes, and here none may stay. */
  lemma {:induction false} NoTokens(input: seq<Json>)
    requires AllOk(input) && Tokens(input) == []
    requires forall p :: 0 <= p < |Clean(input)| ==> !IsReasoning(Clean(input)[p])
    ensures Clean(input) == input
  {
    hide IsReasoning, ItemOk, TokenOf, CleanItem;
    if input != [] {
      var n := |input| - 1;
      var front, last := Clean(input[..n]), CleanItem(input[n]);
      assert forall p :: 0 <= p < |front| ==> front[p] == Clean(input)[p];
      NoTokens(input[..n]);
      KeptWithoutToken(input[n]);
      assert Clean(input)[|front|] == last[0];
      assert input == input[..n] + [input[n]];
    }
  }

  lemma KeptWithoutToken(item: Json)
    requires ItemOk(item) && TokenOf(item) == []
    ensures |CleanItem(item)| == 1
    ensures !IsReasoning(CleanItem(item)[0]) ==> CleanItem(item) == [item]
  {
  }

  /** Every reasoning item that stays in the input lies inside a segment. */
  lemma AcceptedReasoningIsCovered(restore: Restore, digest: Digest, session: Session, input: seq<Json>, p: nat)
    requires Accepts(restore, digest, session, input) && p < |Clean(input)|
    requires Get(Clean(input)[p], Type) == Some(Str("reasoning"))
    ensures var segments := SegmentsOf(Chain(restore, Tokens(input)));
            CoveredBy(p, segments)
  {
    hide Clean, Tokens, Linked, SegmentsOf;
    var chain := Chain(restore, Tokens(input));
    assert IsReasoning(Clean(input)[p]);
    assert Covered(p, chain);
    CoverageAgrees(p, chain, Clean(input), digest);
  }

  lemma NoTokenNoHead(restore: Restore, digest: Digest, session: Session, input: seq<Json>)
    requires Accepts(restore, digest, session, input)
    ensures Tokens(input) == [] <==> session.head == None
  {
    hide Clean, Tokens, Linked;
  }

  /** Every recorded turn is found again where it was recorded, item by item. */
  lemma AcceptedTurnsStand(restore: Restore, digest: Digest, session: Session, input: seq<Json>, k: nat)
    requires Accepts(restore, digest, session, input) && k < |Tokens(input)|
    ensures Tokens(input)[k] in restore
    ensures var r := restore[Tokens(input)[k]];
            && r.inputLen + |r.output| <= |Clean(input)|
            && (forall i :: 0 <= i < |r.output| ==> Same(Clean(input)[r.inputLen + i], r.output[i]))
            && r.parent == (if k == 0 then None else Some(restore[Tokens(input)[k - 1]].response))
            && (k == |Tokens(input)| - 1 ==> session.head == Some(r.response))
  {
    hide Clean, Tokens, Linked, SegmentsOf, Same, Normalized, NormalizedAll, ReasoningCovered, PortableOk;
    AcceptedRestores(restore, digest, session, input);
    var chain, clean := Chain(restore, Tokens(input)), Clean(input);
    RecordAt(chain, k, clean, digest);
    var r := chain[k];
    assert ResponseAt(chain, |chain|) == session.head && r == restore[Tokens(input)[k]];
    AllSame(clean[r.inputLen..End(r)], r.output);
    forall i | 0 <= i < |r.output| ensures Same(clean[r.inputLen + i], r.output[i]) {
      assert clean[r.inputLen..End(r)][i] == clean[r.inputLen + i];
    }
  }
}
