/** UTF-8 as section 3 of RFC 3629 defines it, and the cutting of text into
    bounded deltas (src/adapters/json.rs). */
module Utf8 {
  import opened Common

  predicate Continuation(b: Byte) {
    0x80 <= b <= 0xBF
  }

  predicate Between(lo: Byte, b: Byte, hi: Byte) {
    lo <= b <= hi
  }

  /** Width of the well-formed character that starts `s`, or 0 when there is none. */
  function Width(s: Bytes): (w: nat)
    ensures w <= |s| && w <= 4
    ensures w > 0 ==> !Continuation(s[0])
    ensures forall i :: 1 <= i < w ==> Continuation(s[i])
  {
    if s == [] then 0
    else if s[0] < 0x80 then 1
    else if |s| >= 2 && Between(0xC2, s[0], 0xDF) && Continuation(s[1]) then 2
    else if |s| >= 3 && Between(0xE0, s[0], 0xEF) && Continuation(s[2])
            && (if s[0] == 0xE0 then Between(0xA0, s[1], 0xBF)
                else if s[0] == 0xED then Between(0x80, s[1], 0x9F)
                else Continuation(s[1])) then 3
    else if |s| >= 4 && Between(0xF0, s[0], 0xF4) && Continuation(s[2]) && Continuation(s[3])
            && (if s[0] == 0xF0 then Between(0x90, s[1], 0xBF)
                else if s[0] == 0xF4 then Between(0x80, s[1], 0x8F)
                else Continuation(s[1])) then 4
    else 0
  }

  predicate Valid(s: Bytes)
    decreases |s|
  {
    s == [] || (Width(s) > 0 && Valid(s[Width(s)..]))
  }

  predicate Ascii(s: Bytes) {
    forall i :: 0 <= i < |s| ==> s[i] < 0x80
  }

  /** An ASCII prefix neither hides nor causes an encoding error behind it. */
  lemma {:induction false} AsciiPrefix(a: Bytes, s: Bytes)
    requires Ascii(a)
    ensures Valid(a + s) <==> Valid(s)
  {
    if a == [] {
      assert a + s == s;
    } else {
      assert (a + s)[1..] == a[1..] + s;
      AsciiPrefix(a[1..], s);
    }
  }

  /** Every position at which a text may be cut. */
  predicate Boundary(s: Bytes, i: nat) {
    i == 0 || i == |s| || (i < |s| && !Continuation(s[i]))
  }

  /** A later boundary lies behind the first character. */
  lemma {:induction false} BoundaryBehind(s: Bytes, i: nat)
    requires Valid(s) && 0 < i <= |s| && Boundary(s, i)
    ensures var w := Width(s);
            0 < w <= i && Valid(s[w..]) && Boundary(s[w..], i - w) && s[w..][i - w..] == s[i..]
  {
    var w := Width(s);
    assert Valid(s[w..]);
    assert i < |s| ==> s[w..][i - w] == s[i];
  }

  lemma NothingIsValid()
    ensures Valid([])
  {
  }

  lemma {:induction false} ValidBehind(s: Bytes, w: nat)
    requires w == Width(s) > 0 && Valid(s[w..])
    ensures Valid(s)
  {
    hide Width;
  }

  /** Cutting valid text at a boundary leaves two valid texts. */
  lemma {:induction false} CutIsValid(s: Bytes, i: nat)
    requires Valid(s) && i <= |s| && Boundary(s, i)
    ensures Valid(s[..i]) && Valid(s[i..])
    decreases |s|
  {
    hide Width, Valid, Boundary;
    if i == 0 {
      NothingIsValid();
      assert s[i..] == s && s[..i] == [];
    } else {
      BoundaryBehind(s, i);
      var w, tail := Width(s), s[Width(s)..];
      CutIsValid(tail, i - w);
      PrefixWidth(s, i);
      assert s[..i][w..] == tail[..i - w];
      ValidBehind(s[..i], w);
    }
  }

  lemma PrefixWidth(s: Bytes, i: nat)
    requires Width(s) <= i <= |s|
    requires Width(s) > 0
    ensures Width(s[..i]) == Width(s)
  {
  }

  /** Every character of `s` is at most `limit` bytes wide. */
  predicate Fits(s: Bytes, limit: nat)
    requires Valid(s)
    decreases |s|
  {
    s != [] ==> Width(s) <= limit && Fits(s[Width(s)..], limit)
  }

  lemma {:induction false} FourBytesFit(s: Bytes, limit: nat)
    requires Valid(s) && limit >= 4
    ensures Fits(s, limit)
    decreases |s|
  {
    if s != [] {
      FourBytesFit(s[Width(s)..], limit);
    }
  }

  /** The greatest boundary of `s` not above `end`: what the backward scan finds. */
  function LastBoundary(s: Bytes, end: nat): (i: nat)
    requires end <= |s|
    ensures i <= end && Boundary(s, i)
    ensures forall j :: i < j <= end ==> !Boundary(s, j)
  {
    if Boundary(s, end) then end else LastBoundary(s, end - 1)
  }

  function Min(a: nat, b: nat): nat {
    if a < b then a else b
  }

  /** Length of the next chunk of `s`. */
  function Cut(s: Bytes, limit: nat): nat {
    LastBoundary(s, Min(|s|, limit))
  }

  /** The next chunk is empty exactly when the next character is too wide. */
  lemma CutProgress(s: Bytes, limit: nat)
    requires Valid(s) && s != []
    ensures Cut(s, limit) > 0 <==> Width(s) <= limit
  {
    var w := Width(s);
    if w <= limit {
      assert w < |s| ==> s[w] == s[w..][0] && Width(s[w..]) > 0;
      assert Boundary(s, w);
    } else {
      assert forall j :: 1 <= j < w ==> !Boundary(s, j);
    }
  }

  lemma {:induction false} FitsNext(s: Bytes, limit: nat)
    requires Valid(s) && s != []
    ensures Valid(s[Width(s)..])
    ensures Fits(s, limit) <==> Width(s) <= limit && Fits(s[Width(s)..], limit)
  {
    hide Width;
  }

  lemma {:induction false} FitsSuffix(s: Bytes, limit: nat, i: nat)
    requires Valid(s) && i <= |s| && Boundary(s, i) && Valid(s[i..])
    ensures Fits(s, limit) ==> Fits(s[i..], limit)
    ensures i <= limit && Fits(s[i..], limit) ==> Fits(s, limit)
    decreases |s|
  {
    hide Width, Boundary, Valid, Fits;
    if i == 0 {
      assert s[i..] == s;
    } else {
      BoundaryBehind(s, i);
      FitsNext(s, limit);
      FitsSuffix(s[Width(s)..], limit, i - Width(s));
    }
  }

  /** The chunks handed out, each the longest prefix of what is left that ends on a
      boundary within the limit. */
  function Chunks(text: Bytes, limit: nat): seq<Bytes>
    requires Valid(text) && Fits(text, limit)
    decreases |text|
  {
    if text == [] then []
    else
      CutLemma(text, limit);
      [text[..Cut(text, limit)]] + Chunks(text[Cut(text, limit)..], limit)
  }

  lemma CutLemma(text: Bytes, limit: nat)
    requires Valid(text) && Fits(text, limit) && text != []
    ensures 0 < Cut(text, limit) <= limit
    ensures Valid(text[..Cut(text, limit)]) && Valid(text[Cut(text, limit)..])
    ensures Fits(text[Cut(text, limit)..], limit)
  {
    CutProgress(text, limit);
    CutIsValid(text, Cut(text, limit));
    FitsSuffix(text, limit, Cut(text, limit));
  }

  lemma ChunksStep(text: Bytes, limit: nat) returns (head: Bytes, rest: Bytes)
    requires Valid(text) && Fits(text, limit) && text != []
    ensures head + rest == text && 0 < |head| <= limit && Valid(head)
    ensures Valid(rest) && Fits(rest, limit)
    ensures Chunks(text, limit) == [head] + Chunks(rest, limit)
  {
    hide Valid, Fits;
    head, rest := text[..Cut(text, limit)], text[Cut(text, limit)..];
    CutLemma(text, limit);
  }

  /** The chunks lose nothing. */
  lemma {:induction false} ChunksFlatten(text: Bytes, limit: nat)
    requires Valid(text) && Fits(text, limit)
    ensures Flatten(Chunks(text, limit)) == text
    decreases |text|
  {
    hide Valid, Fits;
    if text != [] {
      var head, rest := ChunksStep(text, limit);
      hide Chunks;
      ChunksFlatten(rest, limit);
      FlattenCons(head, Chunks(rest, limit));
    }
  }

  /** The chunks are never empty, never too long and never split a character. */
  lemma {:induction false} ChunksBounded(text: Bytes, limit: nat)
    requires Valid(text) && Fits(text, limit)
    ensures forall c :: c in Chunks(text, limit) ==> 0 < |c| <= limit && Valid(c)
    decreases |text|
  {
    hide Valid, Fits;
    if text != [] {
      var head, rest := ChunksStep(text, limit);
      hide Chunks;
      ChunksBounded(rest, limit);
    }
  }

  /** One run of the iterator returned by event_text_chunks. */
  method EventTextChunks(text: Bytes, limit: nat) returns (chunks: seq<Bytes>)
    requires Valid(text) && Fits(text, limit)
    ensures chunks == Chunks(text, limit)
    ensures Flatten(chunks) == text
    ensures forall c :: c in chunks ==> 0 < |c| <= limit && Valid(c)
  {
    hide Valid, Fits;
    chunks := [];
    var rest := text;
    while rest != []
      invariant Valid(rest) && Fits(rest, limit)
      invariant chunks + Chunks(rest, limit) == Chunks(text, limit)
      decreases |rest|
    {
      var end: nat := Min(|rest|, limit);
      while !Boundary(rest, end)
        invariant end <= Min(|rest|, limit)
        invariant LastBoundary(rest, end) == Cut(rest, limit)
        decreases end
      {
        end := end - 1;
      }
      CutLemma(rest, limit);
      chunks := chunks + [rest[..end]];
      rest := rest[end..];
    }
    ChunksFlatten(text, limit);
    ChunksBounded(text, limit);
  }

  /** What is left of the text after `calls` calls of the iterator. */
  function Rest(text: Bytes, limit: nat, calls: nat): Bytes
    decreases calls
  {
    if calls == 0 || text == [] then text else Rest(text[Cut(text, limit)..], limit, calls - 1)
  }

  /** Without the width bound the iterator hands out empty chunks for ever: the text is
      consumed by some number of calls exactly when every character fits the limit. */
  lemma {:induction false} TerminatesIffFits(text: Bytes, limit: nat)
    requires Valid(text)
    ensures (exists n: nat :: Rest(text, limit, n) == []) <==> Fits(text, limit)
    decreases |text|
  {
    if text == [] {
      assert Rest(text, limit, 0) == [];
    } else {
      hide Valid, Width, Boundary, LastBoundary, Rest;
      var end := Cut(text, limit);
      CutProgress(text, limit);
      if end == 0 {
        assert text[end..] == text;
        forall n: nat ensures Rest(text, limit, n) == text { Stuck(text, limit, n); }
      } else {
        var rest := text[end..];
        CutIsValid(text, end);
        FitsSuffix(text, limit, end);
        TerminatesIffFits(rest, limit);
        if Fits(text, limit) {
          var n: nat :| Rest(rest, limit, n) == [];
          RestNext(text, limit, n);
        } else {
          forall n: nat ensures Rest(text, limit, n) != [] {
            RestNext(text, limit, if n == 0 then 0 else n - 1);
          }
        }
      }
    }
  }

  lemma {:induction false} RestNext(text: Bytes, limit: nat, n: nat)
    requires text != []
    ensures Rest(text, limit, n + 1) == Rest(text[Cut(text, limit)..], limit, n)
    ensures Rest(text, limit, 0) == text
  {
    hide Cut;
  }

  lemma {:induction false} Stuck(text: Bytes, limit: nat, n: nat)
    requires text != [] && Cut(text, limit) == 0
    ensures Rest(text, limit, n) == text
  {
    if n > 0 {
      assert text[0..] == text;
      Stuck(text, limit, n - 1);
    }
  }

  /** A four-byte character and a three-byte limit: the iterator never gets past it. */
  lemma ThreeBytesAreNotEnough(n: nat)
    ensures Valid([0xF0, 0x9F, 0x98, 0x80]) && Rest([0xF0, 0x9F, 0x98, 0x80], 3, n) == [0xF0, 0x9F, 0x98, 0x80]
  {
    var s: Bytes := [0xF0, 0x9F, 0x98, 0x80];
    assert Width(s) == 4;
    assert s[4..] == [];
    assert Valid(s);
    CutProgress(s, 3);
    Stuck(s, 3, n);
  }

  // ----- Valid text is encoded text -----

  /** A Unicode scalar value: no surrogate. */
  predicate Scalar(c: nat) {
    c < 0xD800 || 0xE000 <= c <= 0x10FFFF
  }

  /** The encoding of a scalar value, six bits to a continuation byte. */
  function Encoded(c: nat): Bytes
    requires Scalar(c)
  {
    if c < 0x80 then [c as Byte]
    else if c < 0x800 then [(0xC0 + c / 64) as Byte, (0x80 + c % 64) as Byte]
    else if c < 0x10000 then [(0xE0 + c / 4096) as Byte, (0x80 + c / 64 % 64) as Byte, (0x80 + c % 64) as Byte]
    else [(0xF0 + c / 262144) as Byte, (0x80 + c / 4096 % 64) as Byte, (0x80 + c / 64 % 64) as Byte,
          (0x80 + c % 64) as Byte]
  }

  function EncodedAll(text: seq<nat>): Bytes
    requires forall i :: 0 <= i < |text| ==> Scalar(text[i])
  {
    if text == [] then [] else Encoded(text[0]) + EncodedAll(text[1..])
  }

  lemma EncodedIsRead(c: nat, rest: Bytes)
    requires Scalar(c)
    ensures Width(Encoded(c) + rest) == |Encoded(c)| > 0
  {
    var s := Encoded(c) + rest;
    assert forall i :: 0 <= i < |Encoded(c)| ==> s[i] == Encoded(c)[i];
  }

  /** The scalar value of the first character. */
  function Decoded(s: Bytes): nat
    requires Width(s) > 0
  {
    var b := (i: int) requires 0 <= i < |s| => s[i] as int;
    match Width(s)
    case 1 => b(0)
    case 2 => (b(0) - 0xC0) * 64 + (b(1) - 0x80)
    case 3 => (b(0) - 0xE0) * 4096 + (b(1) - 0x80) * 64 + (b(2) - 0x80)
    case _ => (b(0) - 0xF0) * 262144 + (b(1) - 0x80) * 4096 + (b(2) - 0x80) * 64 + (b(3) - 0x80)
  }

  /** Base 64: the digits of a number are what it was put together from. */
  lemma Base64(a: nat, b: nat, c: nat, d: nat)
    requires b < 64 && c < 64 && d < 64
    ensures var n := a * 262144 + b * 4096 + c * 64 + d;
            n / 262144 == a && n / 4096 % 64 == b && n / 64 % 64 == c && n % 64 == d
  {
    var n := a * 262144 + b * 4096 + c * 64 + d;
    assert n / 64 == a * 4096 + b * 64 + c;
    assert n / 4096 == a * 64 + b;
  }

  lemma ReadsTwo(s: Bytes)
    requires Width(s) == 2
    ensures Scalar(Decoded(s)) && Encoded(Decoded(s)) == s[..2]
  {
    Base64(0, 0, s[0] as int - 0xC0, s[1] as int - 0x80);
  }

  lemma ReadsThree(s: Bytes)
    requires Width(s) == 3
    ensures Scalar(Decoded(s)) && Encoded(Decoded(s)) == s[..3]
  {
    Base64(0, s[0] as int - 0xE0, s[1] as int - 0x80, s[2] as int - 0x80);
  }

  lemma ReadsFour(s: Bytes)
    requires Width(s) == 4
    ensures Scalar(Decoded(s)) && Encoded(Decoded(s)) == s[..4]
  {
    Base64(s[0] as int - 0xF0, s[1] as int - 0x80, s[2] as int - 0x80, s[3] as int - 0x80);
  }

  lemma ReadsOne(s: Bytes)
    requires Width(s) == 1
    ensures Scalar(Decoded(s)) && Encoded(Decoded(s)) == s[..1]
  {
  }

  lemma ReadIsEncoded(s: Bytes)
    requires Width(s) > 0
    ensures Scalar(Decoded(s)) && Encoded(Decoded(s)) == s[..Width(s)]
  {
    hide Encoded, Decoded, Scalar;
    match Width(s)
    case 1 => ReadsOne(s);
    case 2 => ReadsTwo(s);
    case 3 => ReadsThree(s);
    case 4 => ReadsFour(s);
    case _ =>
  }

  /** Text is valid exactly if it is the encoding of some scalar values. */
  lemma {:induction false} ValidIffEncoded(s: Bytes)
    ensures Valid(s) <==> exists text :: IsText(text, s)
    decreases |s|
  {
    hide Width, Encoded, Scalar;
    if s == [] {
      assert IsText([], s);
    } else {
      if Valid(s) {
        ValidIffEncoded(s[Width(s)..]);
        var text :| IsText(text, s[Width(s)..]);
        ReadIsEncoded(s);
        TextLonger(Decoded(s), text, s, Width(s));
      }
      if text :| IsText(text, s) {
        TextShorter(text, s);
        ValidIffEncoded(s[Width(s)..]);
      }
    }
  }

  predicate IsText(text: seq<nat>, s: Bytes) {
    (forall i :: 0 <= i < |text| ==> Scalar(text[i])) && s == EncodedAll(text)
  }

  lemma TextLonger(c: nat, text: seq<nat>, s: Bytes, w: nat)
    requires w <= |s| && Scalar(c) && Encoded(c) == s[..w] && IsText(text, s[w..])
    ensures IsText([c] + text, s)
  {
    hide Encoded, Scalar;
    assert ([c] + text)[1..] == text && s == s[..w] + s[w..];
  }

  lemma TextShorter(text: seq<nat>, s: Bytes)
    requires s != [] && IsText(text, s)
    ensures Width(s) > 0 && IsText(text[1..], s[Width(s)..])
  {
    hide Width, Encoded, Scalar;
    var rest := EncodedAll(text[1..]);
    EncodedIsRead(text[0], rest);
    assert s[|Encoded(text[0])|..] == rest;
  }

  /** The next chunk is the longest that fits: it ends on a boundary, and no later boundary is within
      the limit. */
  lemma CutIsLongest(s: Bytes, limit: nat)
    ensures Cut(s, limit) <= limit && Cut(s, limit) <= |s|
    ensures var i := Cut(s, limit);
            i == 0 || i == |s| || !(0x80 <= s[i] <= 0xBF)
    ensures forall j :: Cut(s, limit) < j <= limit && j <= |s| ==> j < |s| && 0x80 <= s[j] <= 0xBF
  {
    forall j | Cut(s, limit) < j <= limit && j <= |s| ensures j < |s| && 0x80 <= s[j] <= 0xBF {
      assert !Boundary(s, j);
    }
  }
}
