/** Percent-encoding of path segments (`encodeURIComponent`, section 2.1 of
    RFC 3986 over UTF-8) and dot-segment removal (section 5.2.4 of RFC 3986). */
module UriPath {
  import opened Sequences

  type byte = n: nat | n < 256

  // ─── Encoding ───

  predicate IsUnreserved(c: char) {
    || 'A' <= c <= 'Z' || 'a' <= c <= 'z' || '0' <= c <= '9'
    || c in "-_.!~*'()"
  }

  function Utf8(c: char): seq<byte> {
    var n := c as int;
    if n < 0x80 then [n]
    else if n < 0x800 then [0xC0 + n / 64, 0x80 + n % 64]
    else if n < 0x1_0000 then [0xE0 + n / 4096, 0x80 + n / 64 % 64, 0x80 + n % 64]
    else [0xF0 + n / 262144, 0x80 + n / 4096 % 64, 0x80 + n / 64 % 64, 0x80 + n % 64]
  }

  function HexDigit(d: nat): (c: char)
    requires d < 16
    ensures HexValue(c) == Some(d)
  {
    if d < 10 then '0' + d as char else 'A' + (d - 10) as char
  }

  function HexValue(c: char): Option<nat> {
    if '0' <= c <= '9' then Some(c as int - '0' as int)
    else if 'A' <= c <= 'F' then Some(c as int - 'A' as int + 10)
    else if 'a' <= c <= 'f' then Some(c as int - 'a' as int + 10)
    else None
  }

  function Percent(b: byte): string {
    ['%', HexDigit(b / 16), HexDigit(b % 16)]
  }

  function PercentAll(bytes: seq<byte>): (r: string)
    ensures |r| == 3 * |bytes|
  {
    if bytes == [] then "" else Percent(bytes[0]) + PercentAll(bytes[1..])
  }

  function EncodeChar(c: char): (r: string)
    ensures r != ""
  {
    if IsUnreserved(c) then [c] else PercentAll(Utf8(c))
  }

  function EncodeURIComponent(s: string): string {
    if s == "" then "" else EncodeChar(s[0]) + EncodeURIComponent(s[1..])
  }

  // ─── Decoding ───

  function DecodeByte(s: string): Option<byte> {
    if |s| >= 3 && s[0] == '%' && HexValue(s[1]).Some? && HexValue(s[2]).Some?
    then Some(16 * HexValue(s[1]).value + HexValue(s[2]).value) else None
  }

  /** `k` continuation bytes appended to the bits read so far. */
  function Continue(s: string, k: nat, bits: nat): Option<nat> {
    if k == 0 then Some(bits)
    else
      var b := DecodeByte(s);
      if b.None? || !(0x80 <= b.value < 0xC0) then None
      else Continue(s[3..], k - 1, 64 * bits + (b.value - 0x80))
  }

  predicate IsScalar(n: int) {
    0 <= n < 0xD800 || 0xE000 <= n < 0x11_0000
  }

  function DecodeFrom(s: string, k: nat, first: nat, least: nat): Option<(char, nat)> {
    var n := Continue(s, k, first);
    if n.Some? && n.value >= least && IsScalar(n.value) then Some((n.value as char, 3 + 3 * k)) else None
  }

  /** The first character a text encodes, and how much text it takes up. */
  function DecodeOne(s: string): Option<(char, nat)>
    requires s != ""
  {
    if s[0] != '%' then Some((s[0], 1))
    else
      var b := DecodeByte(s);
      if b.None? then None
      else if b.value < 0x80 then Some((b.value as char, 3))
      else if 0xC0 <= b.value < 0xE0 then DecodeFrom(s[3..], 1, b.value - 0xC0, 0x80)
      else if 0xE0 <= b.value < 0xF0 then DecodeFrom(s[3..], 2, b.value - 0xE0, 0x800)
      else if 0xF0 <= b.value < 0xF8 then DecodeFrom(s[3..], 3, b.value - 0xF0, 0x1_0000)
      else None
  }

  function DecodeURIComponent(s: string): Option<string>
    decreases |s|
  {
    if s == "" then Some("")
    else
      var one := DecodeOne(s);
      if one.None? || one.value.1 > |s| || one.value.1 == 0 then None
      else
        var rest := DecodeURIComponent(s[one.value.1..]);
        if rest.None? then None else Some([one.value.0] + rest.value)
  }

  lemma DecodePercent(b: byte, rest: string)
    ensures DecodeByte(Percent(b) + rest) == Some(b)
    ensures (Percent(b) + rest)[3..] == rest
  {
  }

  lemma {:induction false} ContinueReads(bytes: seq<byte>, rest: string, bits: nat)
    requires forall i :: 0 <= i < |bytes| ==> 0x80 <= bytes[i] < 0xC0
    ensures Continue(PercentAll(bytes) + rest, |bytes|, bits) == Some(Bits(bytes, bits))
  {
    if bytes != [] {
      var s := PercentAll(bytes) + rest;
      assert s == Percent(bytes[0]) + (PercentAll(bytes[1..]) + rest);
      DecodePercent(bytes[0], PercentAll(bytes[1..]) + rest);
      ContinueReads(bytes[1..], rest, 64 * bits + (bytes[0] - 0x80));
    }
  }

  function Bits(bytes: seq<byte>, bits: nat): nat
    requires forall i :: 0 <= i < |bytes| ==> 0x80 <= bytes[i] < 0xC0
  {
    if bytes == [] then bits else Bits(bytes[1..], 64 * bits + (bytes[0] - 0x80))
  }

  lemma Bits1(a: byte, bits: nat)
    requires 0x80 <= a < 0xC0
    ensures Bits([a], bits) == 64 * bits + (a - 0x80)
  {
    assert [a][1..] == [];
  }

  lemma Bits2(a: byte, b: byte, bits: nat)
    requires 0x80 <= a < 0xC0 && 0x80 <= b < 0xC0
    ensures Bits([a, b], bits) == 4096 * bits + 64 * (a - 0x80) + (b - 0x80)
  {
    assert [a, b][1..] == [b];
    Bits1(b, 64 * bits + (a - 0x80));
  }

  lemma Bits3(a: byte, b: byte, c: byte, bits: nat)
    requires 0x80 <= a < 0xC0 && 0x80 <= b < 0xC0 && 0x80 <= c < 0xC0
    ensures Bits([a, b, c], bits) == 262144 * bits + 4096 * (a - 0x80) + 64 * (b - 0x80) + (c - 0x80)
  {
    assert [a, b, c][1..] == [b, c];
    Bits2(b, c, 64 * bits + (a - 0x80));
  }

  /** How many continuation bytes a lead byte announces, the bits it carries
      itself, and the least character that needs that many. */
  function Lead(n: nat): (nat, nat, nat)
    requires 0x80 <= n < 0x11_0000
  {
    if n < 0x800 then (1, n / 64, 0x80)
    else if n < 0x1_0000 then (2, n / 4096, 0x800)
    else (3, n / 262144, 0x1_0000)
  }

  lemma Utf8Shape(c: char)
    requires c as int >= 0x80
    ensures var (k, first, least) := Lead(c as int);
            var tail := Utf8(c)[1..];
            && |tail| == k && least <= c as int
            && (forall i :: 0 <= i < k ==> 0x80 <= tail[i] < 0xC0)
            && Bits(tail, first) == c as int
            && Utf8(c)[0] == first + (if k == 1 then 0xC0 else if k == 2 then 0xE0 else 0xF0)
            && first < (if k == 1 then 32 else if k == 2 then 16 else 8)
  {
    hide Bits;
    var n := c as int;
    Base64Digits(n);
    if n < 0x800 {
      Bits1(0x80 + n % 64, n / 64);
      assert Utf8(c)[1..] == [0x80 + n % 64];
    } else if n < 0x1_0000 {
      Bits2(0x80 + n / 64 % 64, 0x80 + n % 64, n / 4096);
      assert Utf8(c)[1..] == [0x80 + n / 64 % 64, 0x80 + n % 64];
    } else {
      Bits3(0x80 + n / 4096 % 64, 0x80 + n / 64 % 64, 0x80 + n % 64, n / 262144);
      assert Utf8(c)[1..] == [0x80 + n / 4096 % 64, 0x80 + n / 64 % 64, 0x80 + n % 64];
    }
  }

  lemma Base64Digits(n: nat)
    ensures n == 64 * (n / 64) + n % 64
    ensures n == 4096 * (n / 4096) + 64 * (n / 64 % 64) + n % 64
    ensures n == 262144 * (n / 262144) + 4096 * (n / 4096 % 64) + 64 * (n / 64 % 64) + n % 64
  {
    assert n / 64 / 64 == n / 4096;
    assert n / 4096 / 64 == n / 262144;
  }

  lemma DecodeSequence(lead: byte, tail: seq<byte>, rest: string)
    requires forall i :: 0 <= i < |tail| ==> 0x80 <= tail[i] < 0xC0
    ensures var s := Percent(lead) + (PercentAll(tail) + rest);
            && s[0] == '%' && DecodeByte(s) == Some(lead)
            && forall first :: Continue(s[3..], |tail|, first) == Some(Bits(tail, first))
  {
    DecodePercent(lead, PercentAll(tail) + rest);
    forall first ensures Continue(PercentAll(tail) + rest, |tail|, first) == Some(Bits(tail, first)) {
      ContinueReads(tail, rest, first);
    }
  }

  /** One character reads back, whatever follows it. */
  lemma DecodeEncodedChar(c: char, rest: string)
    ensures DecodeOne(EncodeChar(c) + rest) == Some((c, |EncodeChar(c)|))
  {
    hide Utf8, Percent, PercentAll, Continue, DecodeByte, Bits, Lead, IsUnreserved;
    if IsUnreserved(c) {
      PercentIsReserved(c);
      assert (EncodeChar(c) + rest)[0] == c;
    } else {
      Utf8NonEmpty(c);
      var bytes := Utf8(c);
      PercentAllHead(bytes);
      var s := EncodeChar(c) + rest;
      assert s == Percent(bytes[0]) + (PercentAll(bytes[1..]) + rest);
      if c as int >= 0x80 {
        Utf8Shape(c);
        LeadFacts(c as int);
        DecodeSequence(bytes[0], bytes[1..], rest);
      } else {
        assert bytes[1..] == [];
        DecodeSequence(bytes[0], [], rest);
      }
    }
  }

  lemma PercentIsReserved(c: char)
    requires IsUnreserved(c)
    ensures c != '%'
  {
  }

  lemma Utf8NonEmpty(c: char)
    ensures Utf8(c) != []
    ensures c as int < 0x80 ==> Utf8(c) == [c as int]
  {
  }

  lemma LeadFacts(n: nat)
    requires 0x80 <= n < 0x11_0000
    ensures Lead(n).0 in {1, 2, 3}
    ensures Lead(n).2 == if Lead(n).0 == 1 then 0x80 else if Lead(n).0 == 2 then 0x800 else 0x1_0000
  {
  }

  lemma PercentAllHead(bytes: seq<byte>)
    requires bytes != []
    ensures PercentAll(bytes) == Percent(bytes[0]) + PercentAll(bytes[1..])
  {
  }

  /** Percent-decoding undoes percent-encoding, for every string. */
  lemma {:induction false} DecodeEncoded(s: string)
    ensures DecodeURIComponent(EncodeURIComponent(s)) == Some(s)
  {
    if s != "" {
      var head, tail := EncodeChar(s[0]), EncodeURIComponent(s[1..]);
      DecodeEncodedChar(s[0], tail);
      assert (head + tail)[|head|..] == tail;
      DecodeEncoded(s[1..]);
      assert [s[0]] + s[1..] == s;
    }
  }

  const UPPER: string := "ABCDEFGHIJKLMNOPQRSTUVWXYZ"
  const LOWER: string := "abcdefghijklmnopqrstuvwxyz"
  const DIGITS: string := "0123456789"
  const MARKS: string := "-_.!~*'()"

  lemma InUpper(c: char)
    ensures c in UPPER <==> 'A' <= c <= 'Z'
  {
    if 'A' <= c <= 'Z' {
      assert UPPER[c as int - 'A' as int] == c;
    }
  }

  lemma InLower(c: char)
    ensures c in LOWER <==> 'a' <= c <= 'z'
  {
    if 'a' <= c <= 'z' {
      assert LOWER[c as int - 'a' as int] == c;
    }
  }

  lemma InDigits(c: char)
    ensures c in DIGITS <==> '0' <= c <= '9'
  {
    if '0' <= c <= '9' {
      assert DIGITS[c as int - '0' as int] == c;
    }
  }

  /** Exactly the letters, the digits and the nine marks are left as they are. */
  lemma LeftAloneExactly(c: char)
    ensures EncodeURIComponent([c]) == [c] <==> c in UPPER || c in LOWER || c in DIGITS || c in MARKS
  {
    hide PercentAll, Utf8;
    assert [c][1..] == "";
    assert EncodeURIComponent([c]) == EncodeChar(c);
    Utf8NonEmpty(c);
    InUpper(c);
    InLower(c);
    InDigits(c);
  }

  /** A hexadecimal digit reads alike in either case (section 2.1 of RFC 3986). */
  lemma HexReads(d: nat)
    requires d < 16
    ensures HexValue("0123456789ABCDEF"[d]) == Some(d) && HexValue("0123456789abcdef"[d]) == Some(d)
  {
  }

  lemma EncodeInjective(a: string, b: string)
    requires EncodeURIComponent(a) == EncodeURIComponent(b)
    ensures a == b
  {
    DecodeEncoded(a);
    DecodeEncoded(b);
  }

  lemma {:induction false} PercentAllSafe(bytes: seq<byte>)
    ensures '/' !in PercentAll(bytes)
  {
    if bytes != [] {
      PercentAllSafe(bytes[1..]);
    }
  }

  lemma {:induction false} EncodedHasNoSlash(s: string)
    ensures '/' !in EncodeURIComponent(s)
  {
    if s != "" {
      EncodedHasNoSlash(s[1..]);
      PercentAllSafe(Utf8(s[0]));
    }
  }

  // ─── Dot segments ───

  predicate IsDots(segment: string) {
    segment == "." || segment == ".."
  }

  /** Encoding neither makes nor hides a dot segment. */
  lemma EncodedDots(s: string)
    ensures IsDots(EncodeURIComponent(s)) <==> IsDots(s)
    ensures IsDots(s) ==> EncodeURIComponent(s) == s
  {
    assert "."[1..] == "" && ".."[1..] == ".";
    assert EncodeURIComponent(".") == ".";
    assert EncodeURIComponent("..") == "..";
    if EncodeURIComponent(s) == "." {
      EncodeInjective(s, ".");
    } else if EncodeURIComponent(s) == ".." {
      EncodeInjective(s, "..");
    }
  }

  /** The end of the first segment: up to the next `/` after the first character. */
  function SegmentEnd(s: string, from: nat): (k: nat)
    requires from <= |s|
    ensures from <= k <= |s|
    ensures k < |s| ==> s[k] == '/'
    ensures forall i :: from <= i < k ==> s[i] != '/'
    decreases |s| - from
  {
    if from == |s| || s[from] == '/' then from else SegmentEnd(s, from + 1)
  }

  /** The output buffer without its last segment and the `/` in front of it. */
  function DropLastSegment(s: string): (r: string)
    ensures |r| <= |s|
  {
    if s == "" then "" else if s[|s| - 1] == '/' then s[..|s| - 1] else DropLastSegment(s[..|s| - 1])
  }

  lemma {:induction false} DropsPart(front: string, part: string)
    requires '/' !in part
    ensures DropLastSegment(front + "/" + part) == front
  {
    var s := front + "/" + part;
    if part == "" {
      assert s == front + "/";
    } else {
      var n := |part| - 1;
      assert part == part[..n] + [part[n]];
      assert s[..|s| - 1] == front + "/" + part[..n] && s[|s| - 1] == part[n];
      DropsPart(front, part[..n]);
    }
  }

  /** The loop of section 5.2.4, steps A to E, over its two buffers. */
  function RemoveDots(input: string, output: string): string
    decreases |input|
  {
    if input == "" then output
    else if "../" <= input then RemoveDots(input[3..], output)
    else if "./" <= input then RemoveDots(input[2..], output)
    else if "/./" <= input then RemoveDots(input[2..], output)
    else if input == "/." then RemoveDots("/", output)
    else if "/../" <= input then RemoveDots(input[3..], DropLastSegment(output))
    else if input == "/.." then RemoveDots("/", DropLastSegment(output))
    else if IsDots(input) then output
    else
      var k := SegmentEnd(input, 1);
      RemoveDots(input[k..], output + input[..k])
  }

  /** An absolute path of the given segments. */
  function PathOf(segments: seq<string>): string {
    if segments == [] then "" else "/" + segments[0] + PathOf(segments[1..])
  }

  lemma PathCons(first: string, rest: seq<string>)
    ensures PathOf([first] + rest) == "/" + first + PathOf(rest)
  {
    assert ([first] + rest)[1..] == rest;
  }

  lemma PathOfTwo(a: string, b: string)
    ensures PathOf([a, b]) == "/" + a + "/" + b
  {
    PathCons(b, []);
    PathCons(a, [b]);
    assert [a] + [b] == [a, b] && [b] + [] == [b];
    assert "/" + b + "" == "/" + b;
    assert "/" + a + ("/" + b) == "/" + a + "/" + b;
  }

  lemma PathOfThree(a: string, b: string, c: string)
    ensures PathOf([a, b, c]) == "/" + a + "/" + b + "/" + c
  {
    hide PathOf;
    PathOfTwo(b, c);
    PathCons(a, [b, c]);
    assert [a] + [b, c] == [a, b, c];
    assert "/" + a + ("/" + b + "/" + c) == "/" + a + "/" + b + "/" + c;
  }

  lemma PathOfFour(a: string, b: string, c: string, d: string)
    ensures PathOf([a, b, c, d]) == "/" + a + "/" + b + "/" + c + "/" + d
  {
    hide PathOf;
    PathOfThree(b, c, d);
    PathCons(a, [b, c, d]);
    assert [a] + [b, c, d] == [a, b, c, d];
    assert "/" + a + ("/" + b + "/" + c + "/" + d) == "/" + a + "/" + b + "/" + c + "/" + d;
  }

  lemma PathOfFive(a: string, b: string, c: string, d: string, e: string)
    ensures PathOf([a, b, c, d, e]) == "/" + a + "/" + b + "/" + c + "/" + d + "/" + e
  {
    hide PathOf;
    PathOfFour(b, c, d, e);
    PathCons(a, [b, c, d, e]);
    assert [a] + [b, c, d, e] == [a, b, c, d, e];
    assert "/" + a + ("/" + b + "/" + c + "/" + d + "/" + e)
        == "/" + a + "/" + b + "/" + c + "/" + d + "/" + e;
  }

  lemma AssetPathJoins(id: string, part: string, slashed: string)
    requires slashed == "/" + part
    ensures "/" + "assets" + "/" + id == "/assets/" + id
    ensures "/" + "assets" + "/" + id + "/" + part == "/assets/" + id + slashed
  {
    assert "/" + "assets" + "/" == "/assets/";
    assert "/assets/" + id + "/" + part == "/assets/" + id + ("/" + part);
  }

  predicate IsSegment(s: string) {
    '/' !in s
  }

  lemma SlashStart(segments: seq<string>)
    ensures PathOf(segments) == "" || PathOf(segments)[0] == '/'
  {
  }

  lemma OrdinarySegmentMoves(segment: string, rest: string, output: string)
    requires IsSegment(segment) && !IsDots(segment)
    requires rest == "" || rest[0] == '/'
    ensures RemoveDots("/" + segment + rest, output) == RemoveDots(rest, output + ("/" + segment))
  {
    var input := "/" + segment + rest;
    var k := SegmentEnd(input, 1);
    assert forall i :: 1 <= i <= |segment| ==> input[i] == segment[i - 1] && input[i] in segment;
    assert rest != "" ==> input[|segment| + 1] == '/';
    assert k == |segment| + 1;
    assert input[..k] == "/" + segment && input[k..] == rest;
    assert input[0] == '/';
    if segment != "" {
      assert input[1] == segment[0];
    } else if rest != "" {
      assert input[1] == '/';
    }
    if |segment| == 1 && rest != "" {
      assert input[2] == '/';
    } else if |segment| >= 2 {
      assert input[2] == segment[1];
    }
    if |segment| == 2 && rest != "" {
      assert input[3] == '/';
    } else if |segment| >= 3 {
      assert input[3] == segment[2];
    }
    assert |segment| == 1 ==> segment == [segment[0]];
    assert |segment| == 2 ==> segment == [segment[0], segment[1]];
  }

  lemma DotSegmentGoes(segment: string, rest: string, output: string)
    requires IsDots(segment)
    requires rest == "" || rest[0] == '/'
    ensures var buffer := if segment == "." then output else DropLastSegment(output);
            RemoveDots("/" + segment + rest, output)
            == if rest == "" then buffer + "/" else RemoveDots(rest, buffer)
  {
    var input := "/" + segment + rest;
    var buffer := if segment == "." then output else DropLastSegment(output);
    if rest == "" {
      assert input == "/" + segment;
      OnlySlash(buffer);
      if segment == "." {
        assert input == "/.";
      } else {
        assert input == "/.." && |input| == 3 && input[0] == '/' && input[2] == '.';
        assert !("/./" <= input) && !("/../" <= input);
      }
    } else {
      assert input[|segment| + 1] == '/';
      assert input[|segment| + 1..] == rest;
      if segment == "." {
        assert input[0] == '/' && input[1] == '.' && input[2] == '/';
        assert "/./" <= input && input[2..] == rest;
      } else {
        assert input[0] == '/' && input[1] == '.' && input[2] == '.' && input[3] == '/';
        assert "/../" <= input && input[3..] == rest;
      }
    }
  }

  /** Dot segments in front of a relative path go (step A of section 5.2.4 of RFC 3986). */
  lemma LeadingDotsGo(rest: string, output: string)
    ensures RemoveDots("../" + rest, output) == RemoveDots(rest, output)
    ensures RemoveDots("./" + rest, output) == RemoveDots(rest, output)
  {
    var a, b := "../" + rest, "./" + rest;
    assert a[..3] == "../" && a[3..] == rest && b[..2] == "./" && b[2..] == rest;
    assert b[0] == '.' && b[1] == '/' && !("../" <= b) by {
      assert "../"[1] == '.';
    }
  }

  lemma OnlySlash(output: string)
    ensures RemoveDots("/", output) == output + "/"
  {
    assert SegmentEnd("/", 1) == 1;
    assert "/"[..1] == "/" && "/"[1..] == "";
  }

  ghost predicate AllSegments(segments: seq<string>) {
    forall i :: 0 <= i < |segments| ==> IsSegment(segments[i])
  }

  ghost predicate NoDots(segments: seq<string>) {
    forall i :: 0 <= i < |segments| ==> !IsDots(segments[i])
  }

  /** Ordinary segments in front of the rest of a path move to the output. */
  lemma {:induction false} PrefixMoves(segments: seq<string>, rest: string, output: string)
    requires AllSegments(segments) && NoDots(segments)
    requires rest == "" || rest[0] == '/'
    ensures RemoveDots(PathOf(segments) + rest, output) == RemoveDots(rest, output + PathOf(segments))
  {
    hide RemoveDots;
    if segments == [] {
      assert "" + rest == rest && output + "" == output;
    } else {
      var tail := PathOf(segments[1..]) + rest;
      SlashStart(segments[1..]);
      OrdinarySegmentMoves(segments[0], tail, output);
      PrefixMoves(segments[1..], rest, output + ("/" + segments[0]));
      assert PathOf(segments) + rest == "/" + segments[0] + tail;
      assert output + ("/" + segments[0]) + PathOf(segments[1..]) == output + PathOf(segments);
    }
  }

  lemma {:induction false} DotPathShrinks(segments: seq<string>, output: string)
    requires AllSegments(segments)
    ensures |RemoveDots(PathOf(segments), output)| <= |output| + |PathOf(segments)|
    ensures !NoDots(segments) ==> |RemoveDots(PathOf(segments), output)| < |output| + |PathOf(segments)|
  {
    if segments != [] {
      var rest := PathOf(segments[1..]);
      SlashStart(segments[1..]);
      if IsDots(segments[0]) {
        DotSegmentGoes(segments[0], rest, output);
        DotPathShrinks(segments[1..], if segments[0] == "." then output else DropLastSegment(output));
      } else {
        OrdinarySegmentMoves(segments[0], rest, output);
        DotPathShrinks(segments[1..], output + ("/" + segments[0]));
      }
    }
  }

  /** An absolute path survives dot-segment removal exactly when none of its
      segments is `.` or `..`. */
  lemma SurvivesExactly(segments: seq<string>)
    requires AllSegments(segments)
    ensures RemoveDots(PathOf(segments), "") == PathOf(segments) <==> NoDots(segments)
  {
    DotPathShrinks(segments, "");
    if NoDots(segments) {
      PrefixMoves(segments, "", "");
      assert PathOf(segments) + "" == PathOf(segments) && "" + PathOf(segments) == PathOf(segments);
    }
  }

  /** A path splits back into its segments. */
  lemma {:induction false} PathSplits(segments: seq<string>)
    requires AllSegments(segments)
    ensures Split(PathOf(segments), '/') == [""] + segments
  {
    if segments != [] {
      var s := PathOf(segments);
      assert s[0] == '/' && s[1..] == segments[0] + PathOf(segments[1..]);
      if |segments| == 1 {
        assert s[1..] == segments[0];
        SplitFirst(segments[0], "", '/');
        assert segments == [segments[0]];
      } else {
        var rest := PathOf(segments[1..]);
        assert rest[0] == '/';
        PathSplits(segments[1..]);
        assert Split(rest, '/') == [""] + Split(rest[1..], '/');
        assert Split(rest[1..], '/') == segments[1..] by {
          assert ([""] + Split(rest[1..], '/'))[1..] == ([""] + segments[1..])[1..];
        }
        SplitFirst(segments[0], rest[1..], '/');
        assert s[1..] == segments[0] + ['/'] + rest[1..];
        assert [segments[0]] + segments[1..] == segments;
      }
    }
  }
}
