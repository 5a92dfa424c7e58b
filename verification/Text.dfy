/** Strings as the controls treat them: JavaScript's `trim`. */
module Text {
  import opened Sequences

  /** White space and line terminators, as `String.prototype.trim` has them. */
  predicate IsSpace(c: char) {
    var n := c as int;
    || 0x09 <= n <= 0x0D || n == 0x20 || n == 0xA0 || n == 0x1680
    || 0x2000 <= n <= 0x200A || n == 0x2028 || n == 0x2029 || n == 0x202F
    || n == 0x205F || n == 0x3000 || n == 0xFEFF
  }

  /** The twenty-five characters `trim` takes off. */
  lemma SpacesExactly(c: char)
    ensures IsSpace(c) <==>
            c as int in {0x09, 0x0A, 0x0B, 0x0C, 0x0D, 0x20, 0xA0, 0x1680,
                         0x2000, 0x2001, 0x2002, 0x2003, 0x2004, 0x2005, 0x2006, 0x2007, 0x2008, 0x2009, 0x200A,
                         0x2028, 0x2029, 0x202F, 0x205F, 0x3000, 0xFEFF}
  {
  }

  function TrimStart(s: string): string {
    if s != "" && IsSpace(s[0]) then TrimStart(s[1..]) else s
  }

  function TrimEnd(s: string): string {
    if s != "" && IsSpace(s[|s| - 1]) then TrimEnd(s[..|s| - 1]) else s
  }

  function Trim(s: string): string {
    TrimEnd(TrimStart(s))
  }

  predicate IsTrimmed(s: string) {
    s == "" || (!IsSpace(s[0]) && !IsSpace(s[|s| - 1]))
  }

  lemma {:induction false} TrimStartFacts(s: string)
    ensures TrimStart(s) == "" || !IsSpace(TrimStart(s)[0])
    ensures forall c :: c in TrimStart(s) ==> c in s
  {
    if s != "" && IsSpace(s[0]) {
      TrimStartFacts(s[1..]);
    }
  }

  lemma {:induction false} TrimEndFacts(s: string)
    ensures TrimEnd(s) <= s
    ensures TrimEnd(s) == "" || !IsSpace(TrimEnd(s)[|TrimEnd(s)| - 1])
  {
    if s != "" && IsSpace(s[|s| - 1]) {
      TrimEndFacts(s[..|s| - 1]);
    }
  }

  /** Trimming gives a trimmed string, made of the string's own characters. */
  lemma TrimFacts(s: string)
    ensures IsTrimmed(Trim(s))
    ensures forall c :: c in Trim(s) ==> c in s
  {
    TrimStartFacts(s);
    TrimEndFacts(TrimStart(s));
  }

  /** A string is trimmed exactly when trimming leaves it alone. */
  lemma TrimFixesTrimmed(s: string)
    ensures Trim(s) == s <==> IsTrimmed(s)
  {
    TrimFacts(s);
  }

  lemma TrimIdempotent(s: string)
    ensures Trim(Trim(s)) == Trim(s)
  {
    TrimFacts(s);
    TrimFixesTrimmed(Trim(s));
  }

  /** `length` in UTF-16 code units. */
  function Length16(s: string): nat {
    if s == "" then 0 else (if s[0] as int < 0x1_0000 then 1 else 2) + Length16(s[1..])
  }

  /** A character outside the basic plane counts twice, any other once. */
  lemma {:induction false} Length16Adds(a: string, b: string, c: char)
    ensures Length16(a + b) == Length16(a) + Length16(b)
    ensures Length16([c]) == if c as int >= 0x1_0000 then 2 else 1
    ensures |a| <= Length16(a) <= 2 * |a|
  {
    assert [c][1..] == "";
    if a == "" {
      assert a + b == b;
    } else {
      assert (a + b)[0] == a[0] && (a + b)[1..] == a[1..] + b;
      Length16Adds(a[1..], b, c);
    }
  }

  // ─── What a text box holds ───

  predicate IsBreak(c: char) {
    c == '\n' || c == '\r'
  }

  predicate OneLine(s: string) {
    '\n' !in s && '\r' !in s
  }

  /** A text box drops line breaks from the value it is given (section 4.10.5.1.2 of
      the HTML Standard). */
  function Stripped(s: string): (r: string)
    ensures OneLine(r)
  {
    Filter((c: char) => !IsBreak(c), s)
  }

  lemma StrippedFixesOneLine(s: string)
    ensures Stripped(s) == s <==> OneLine(s)
  {
    if OneLine(s) {
      FilterAll((c: char) => !IsBreak(c), s);
    }
  }

  lemma TrimOneLine(s: string)
    requires OneLine(s)
    ensures OneLine(Trim(s))
  {
    TrimFacts(s);
  }

  /** A stripped text trims to what the text itself trims to exactly when that is on
      one line: a break between other characters is lost, one at an end is not missed. */
  lemma TrimStripped(s: string)
    ensures Trim(Stripped(s)) == Trim(s) <==> OneLine(Trim(s))
  {
    TrimOneLine(Stripped(s));
    if OneLine(Trim(s)) {
      var lead, tail := TrimParts(s);
      StripParts(lead, Trim(s), tail);
      TrimOfParts(Stripped(lead), Trim(s), Stripped(tail));
    }
  }

  ghost predicate AllSpace(s: string) {
    forall c :: c in s ==> IsSpace(c)
  }

  lemma TrimParts(s: string) returns (lead: string, tail: string)
    ensures s == lead + Trim(s) + tail && AllSpace(lead) && AllSpace(tail) && IsTrimmed(Trim(s))
  {
    lead := StartParts(s);
    tail := EndParts(TrimStart(s));
    TrimFacts(s);
    assert s == lead + (Trim(s) + tail);
  }

  lemma {:induction false} StartParts(s: string) returns (lead: string)
    ensures s == lead + TrimStart(s) && AllSpace(lead)
  {
    if s != "" && IsSpace(s[0]) {
      var rest := StartParts(s[1..]);
      lead := [s[0]] + rest;
      assert s == [s[0]] + s[1..];
    } else {
      lead := "";
    }
  }

  lemma {:induction false} EndParts(s: string) returns (tail: string)
    ensures s == TrimEnd(s) + tail && AllSpace(tail)
  {
    var n := |s| - 1;
    if s != "" && IsSpace(s[n]) {
      var rest := EndParts(s[..n]);
      tail := rest + [s[n]];
      assert s == s[..n] + [s[n]];
    } else {
      tail := "";
    }
  }

  lemma StripParts(lead: string, mid: string, tail: string)
    requires OneLine(mid)
    ensures Stripped(lead + mid + tail) == Stripped(lead) + mid + Stripped(tail)
  {
    var keep := (c: char) => !IsBreak(c);
    FilterConcat(keep, lead + mid, tail);
    FilterConcat(keep, lead, mid);
    StrippedFixesOneLine(mid);
  }

  lemma TrimOfParts(lead: string, mid: string, tail: string)
    requires AllSpace(lead) && AllSpace(tail) && IsTrimmed(mid)
    ensures Trim(lead + mid + tail) == mid
  {
    StartOfParts(lead, mid + tail);
    assert lead + mid + tail == lead + (mid + tail);
    if mid == "" {
      assert mid + tail == tail;
      StartOfParts(tail, "");
      assert tail + "" == tail;
    } else {
      EndOfParts(mid, tail);
    }
  }

  lemma {:induction false} StartOfParts(lead: string, rest: string)
    requires AllSpace(lead)
    ensures TrimStart(lead + rest) == TrimStart(rest)
  {
    if lead == "" {
      assert lead + rest == rest;
    } else {
      assert (lead + rest)[1..] == lead[1..] + rest;
      StartOfParts(lead[1..], rest);
    }
  }

  lemma {:induction false} EndOfParts(mid: string, tail: string)
    requires AllSpace(tail) && mid != "" && !IsSpace(mid[|mid| - 1])
    ensures TrimEnd(mid + tail) == mid
  {
    if tail == "" {
      assert mid + tail == mid;
    } else {
      var n := |tail| - 1;
      assert (mid + tail)[..|mid + tail| - 1] == mid + tail[..n];
      EndOfParts(mid, tail[..n]);
    }
  }
}
