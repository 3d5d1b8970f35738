/** Component references of the bill of materials (scripts/release_package.py): percent-quoted
    package identities and numbered system libraries, and why no two of them collide. */
module SbomRefs {
  import opened Common

  // ----- Percent quoting with no safe characters beyond the unreserved ones -----

  predicate Unreserved(b: Byte) {
    || ('A' as int <= b as int <= 'Z' as int) || ('a' as int <= b as int <= 'z' as int)
    || ('0' as int <= b as int <= '9' as int)
    || b as int == '_' as int || b as int == '.' as int || b as int == '-' as int || b as int == '~' as int
  }

  const HEX := "0123456789ABCDEF"

  function QuoteByte(b: Byte): string {
    if Unreserved(b) then [b as int as char] else ['%', HEX[b as int / 16], HEX[b as int % 16]]
  }

  function Quote(text: Bytes): string {
    if text == [] then "" else QuoteByte(text[0]) + Quote(text[1..])
  }

  function HexValue(c: char): (value: int)
    ensures 0 <= value < 16
  {
    if '0' <= c <= '9' then c as int - '0' as int
    else if 'A' <= c <= 'F' then c as int - 'A' as int + 10
    else 0
  }

  /** The bytes quoted up to the first '@', and what follows them. */
  function ReadQuoted(s: string): (Bytes, string)
    decreases |s|
  {
    if s == "" || s[0] == '@' then ([], s)
    else if s[0] == '%' && |s| >= 3 then
      var (text, rest) := ReadQuoted(s[3..]);
      ([(16 * HexValue(s[1]) + HexValue(s[2])) as Byte] + text, rest)
    else
      var (text, rest) := ReadQuoted(s[1..]);
      ([(s[0] as int % 256) as Byte] + text, rest)
  }

  lemma QuoteByteReads(b: Byte)
    requires !Unreserved(b)
    ensures 16 * HexValue(HEX[b as int / 16]) + HexValue(HEX[b as int % 16]) == b as int
  {
    HexDigit(b as int / 16);
    HexDigit(b as int % 16);
  }

  lemma HexDigit(d: nat)
    requires d < 16
    ensures HexValue(HEX[d]) == d
  {
    assert d < 8 || d >= 8;
  }

  lemma ReadsPlain(c: char, tail: string)
    requires c != '@' && c != '%' && c as int < 256
    ensures ReadQuoted([c] + tail) == ([c as int as Byte] + ReadQuoted(tail).0, ReadQuoted(tail).1)
  {
    var s := [c] + tail;
    assert s[1..] == tail && s[0] == c;
  }

  lemma ReadsEscape(high: char, low: char, tail: string)
    ensures ReadQuoted(['%', high, low] + tail)
            == ([(16 * HexValue(high) + HexValue(low)) as Byte] + ReadQuoted(tail).0, ReadQuoted(tail).1)
  {
    hide HexValue;
    var s := ['%', high, low] + tail;
    assert s[3..] == tail && s[0] == '%' && s[1] == high && s[2] == low;
  }

  lemma ReadsOne(b: Byte, tail: string)
    ensures ReadQuoted(QuoteByte(b) + tail) == ([b] + ReadQuoted(tail).0, ReadQuoted(tail).1)
  {
    hide HexValue, ReadQuoted;
    if Unreserved(b) {
      ReadsPlain(b as int as char, tail);
    } else {
      QuoteByteReads(b);
      ReadsEscape(HEX[b as int / 16], HEX[b as int % 16], tail);
    }
  }

  lemma {:induction false} QuoteReads(text: Bytes, rest: string)
    requires rest == "" || rest[0] == '@'
    ensures ReadQuoted(Quote(text) + rest) == (text, rest)
    decreases |text|
  {
    hide Unreserved, QuoteByte;
    if text == [] {
      assert Quote(text) + rest == rest;
    } else {
      QuoteReads(text[1..], rest);
      ReadsOne(text[0], Quote(text[1..]) + rest);
      assert text == [text[0]] + text[1..];
      assert Quote(text) + rest == QuoteByte(text[0]) + (Quote(text[1..]) + rest);
    }
  }

  const REF_PREFIX := "pkg:cargo/"

  function PackageRef(name: Bytes, version: Bytes): string {
    REF_PREFIX + Quote(name) + "@" + Quote(version)
  }

  function ReadPackageRef(ref: string): (Bytes, Bytes)
    requires |ref| >= 10
  {
    var (name, rest) := ReadQuoted(ref[10..]);
    (name, ReadQuoted(if rest == "" then "" else rest[1..]).0)
  }

  /** A reference can be read back, so it names one (name, version) only. */
  lemma PackageRefReads(name: Bytes, version: Bytes)
    ensures |PackageRef(name, version)| >= 10 && ReadPackageRef(PackageRef(name, version)) == (name, version)
  {
    var rest := "@" + Quote(version);
    assert PackageRef(name, version)[10..] == Quote(name) + rest;
    QuoteReads(name, rest);
    QuoteReads(version, "");
    assert rest[1..] == Quote(version) + "";
  }

  lemma PackageRefsDiffer(name: Bytes, version: Bytes, name': Bytes, version': Bytes)
    ensures PackageRef(name, version) == PackageRef(name', version') <==> name == name' && version == version'
  {
    PackageRefReads(name, version);
    PackageRefReads(name', version');
  }

  // ----- Numbered system libraries -----

  function Decimal(n: nat): string {
    (if n < 10 then "" else Decimal(n / 10)) + [('0' as int + n % 10) as char]
  }

  function ReadDecimal(s: string): int {
    if s == "" then 0 else 10 * ReadDecimal(s[..|s| - 1]) + (s[|s| - 1] as int - '0' as int)
  }

  lemma {:induction false} DecimalReads(n: nat)
    ensures ReadDecimal(Decimal(n)) == n
  {
    var head := if n < 10 then "" else Decimal(n / 10);
    assert Decimal(n)[..|head|] == head;
    if n >= 10 {
      DecimalReads(n / 10);
    }
  }

  const STD_REF := "rust-standard-library"

  function SystemRef(index: nat): string {
    "system-library-" + Decimal(index)
  }

  lemma SystemRefsDiffer(i: nat, j: nat)
    ensures SystemRef(i) == SystemRef(j) <==> i == j
  {
    DecimalReads(i);
    DecimalReads(j);
    assert SystemRef(i)[15..] == Decimal(i) && SystemRef(j)[15..] == Decimal(j);
  }

  /** The three families of references do not meet. */
  lemma FamiliesDiffer(name: Bytes, version: Bytes, index: nat)
    ensures PackageRef(name, version) != STD_REF && PackageRef(name, version) != SystemRef(index)
            && STD_REF != SystemRef(index)
  {
    assert PackageRef(name, version)[0] == 'p' && SystemRef(index)[0] == 's' && STD_REF[0] == 'r';
  }

  /** How a reference is written: letters, digits and four marks stand for themselves, every other byte
      is a percent sign and two upper-case hexadecimal digits. */
  lemma RefsAreWritten(name: Bytes, version: Bytes, b: Byte)
    ensures PackageRef(name, version) == "pkg:cargo/" + Quote(name) + "@" + Quote(version)
    ensures b as int in {45, 46, 95, 126} || 48 <= b <= 57 || 65 <= b <= 90 || 97 <= b <= 122 ==>
              Quote([b]) == [b as int as char]
    ensures !(b as int in {45, 46, 95, 126} || 48 <= b <= 57 || 65 <= b <= 90 || 97 <= b <= 122) ==>
              Quote([b]) == ['%', "0123456789ABCDEF"[b as int / 16], "0123456789ABCDEF"[b as int % 16]]
  {
    assert [b][1..] == [] && Quote([]) == "" && QuoteByte(b) + "" == QuoteByte(b);
  }
}
