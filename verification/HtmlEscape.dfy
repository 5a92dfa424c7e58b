/** `escHtml`: five replacement passes over a string, and what undoes them. */
module HtmlEscape {
  import opened Sequences

  /** `s.replace(/c/g, rep)`. */
  function ReplaceAll(s: string, c: char, rep: string): string {
    if s == "" then "" else (if s[0] == c then rep else [s[0]]) + ReplaceAll(s[1..], c, rep)
  }

  function FivePasses(s: string): string {
    var s1 := ReplaceAll(s, '&', "&amp;");
    var s2 := ReplaceAll(s1, '<', "&lt;");
    var s3 := ReplaceAll(s2, '>', "&gt;");
    var s4 := ReplaceAll(s3, '"', "&quot;");
    ReplaceAll(s4, '\'', "&#39;")
  }

  function EscHtml(str: Option<string>): string {
    FivePasses(if str.Some? then str.value else "")
  }

  /** The entity of one character. */
  function Entity(c: char): string {
    match c
    case '&' => "&amp;"
    case '<' => "&lt;"
    case '>' => "&gt;"
    case '"' => "&quot;"
    case '\'' => "&#39;"
    case _ => [c]
  }

  /** Every character replaced by its entity at once. */
  function Substitute(s: string): string {
    if s == "" then "" else Entity(s[0]) + Substitute(s[1..])
  }

  lemma {:induction false} ReplaceConcat(a: string, b: string, c: char, rep: string)
    ensures ReplaceAll(a + b, c, rep) == ReplaceAll(a, c, rep) + ReplaceAll(b, c, rep)
  {
    if a == "" {
      assert a + b == b;
    } else {
      assert (a + b)[0] == a[0] && (a + b)[1..] == a[1..] + b;
      ReplaceConcat(a[1..], b, c, rep);
    }
  }

  lemma {:induction false} ReplaceAbsent(s: string, c: char, rep: string)
    requires c !in s
    ensures ReplaceAll(s, c, rep) == s
  {
    if s != "" {
      ReplaceAbsent(s[1..], c, rep);
      assert [s[0]] + s[1..] == s;
    }
  }

  lemma FivePassesConcat(a: string, b: string)
    ensures FivePasses(a + b) == FivePasses(a) + FivePasses(b)
  {
    var a1, b1 := ReplaceAll(a, '&', "&amp;"), ReplaceAll(b, '&', "&amp;");
    var a2, b2 := ReplaceAll(a1, '<', "&lt;"), ReplaceAll(b1, '<', "&lt;");
    var a3, b3 := ReplaceAll(a2, '>', "&gt;"), ReplaceAll(b2, '>', "&gt;");
    var a4, b4 := ReplaceAll(a3, '"', "&quot;"), ReplaceAll(b3, '"', "&quot;");
    ReplaceConcat(a, b, '&', "&amp;");
    ReplaceConcat(a1, b1, '<', "&lt;");
    ReplaceConcat(a2, b2, '>', "&gt;");
    ReplaceConcat(a3, b3, '"', "&quot;");
    ReplaceConcat(a4, b4, '\'', "&#39;");
  }

  lemma ReplaceSingle(c: char, rep: string)
    ensures ReplaceAll([c], c, rep) == rep
  {
    assert [c][1..] == "";
    assert rep + "" == rep;
  }

  /** The passes turn one character into its entity: no pass touches what an
      earlier one wrote. */
  lemma FivePassesOnOne(c: char)
    ensures FivePasses([c]) == Entity(c)
  {
    hide ReplaceAll;
    var e := Entity(c);
    OnePass(c, '&', "&amp;", [c]);
    OnePass(c, '<', "&lt;", if c == '&' then e else [c]);
    OnePass(c, '>', "&gt;", if c in "&<" then e else [c]);
    OnePass(c, '"', "&quot;", if c in "&<>" then e else [c]);
    OnePass(c, '\'', "&#39;", if c in "&<>\"" then e else [c]);
  }

  /** A pass for `d` over what the earlier passes made of `c`. */
  lemma OnePass(c: char, d: char, rep: string, s: string)
    requires s == [c] || (s == Entity(c) && d !in s)
    ensures ReplaceAll(s, d, rep) == if s == [c] && c == d then rep else s
  {
    if s == [c] && c == d {
      ReplaceSingle(c, rep);
    } else {
      ReplaceAbsent(s, d, rep);
    }
  }

  /** The five sequential passes equal one simultaneous substitution. */
  lemma {:induction false} PassesAreSimultaneous(s: string)
    ensures EscHtml(Some(s)) == Substitute(s)
  {
    if s != "" {
      PassesAreSimultaneous(s[1..]);
      FivePassesConcat([s[0]], s[1..]);
      FivePassesOnOne(s[0]);
      assert [s[0]] + s[1..] == s;
    }
  }

  /** No raw markup character survives, for any input. */
  lemma NoMarkupSurvives(str: Option<string>)
    ensures var e := EscHtml(str);
            '<' !in e && '>' !in e && '"' !in e && '\'' !in e
    ensures EscHtml(None) == ""
  {
    var s := if str.Some? then str.value else "";
    PassesAreSimultaneous(s);
    SubstituteIsClean(s);
  }

  lemma {:induction false} SubstituteIsClean(s: string)
    ensures var e := Substitute(s);
            '<' !in e && '>' !in e && '"' !in e && '\'' !in e
  {
    if s != "" {
      SubstituteIsClean(s[1..]);
    }
  }

  // ─── Decoding ───

  /** What a browser reads at the start of a text: the character and how much
      text it takes up. */
  function ReadOne(s: string): (char, nat)
    requires s != ""
    ensures 1 <= ReadOne(s).1 <= |s|
  {
    if "&amp;" <= s then ('&', 5)
    else if "&lt;" <= s then ('<', 4)
    else if "&gt;" <= s then ('>', 4)
    else if "&quot;" <= s then ('"', 6)
    else if "&#39;" <= s then ('\'', 5)
    else (s[0], 1)
  }

  function Decode(s: string): string {
    if s == "" then ""
    else
      var (c, n) := ReadOne(s);
      [c] + Decode(s[n..])
  }

  lemma ReadEntity(c: char, rest: string)
    ensures Entity(c) + rest != ""
    ensures ReadOne(Entity(c) + rest) == (c, |Entity(c)|)
    ensures (Entity(c) + rest)[|Entity(c)|..] == rest
  {
    var s := Entity(c) + rest;
    assert s[..|Entity(c)|] == Entity(c);
    assert s[0] == Entity(c)[0];
    if |Entity(c)| > 1 {
      assert s[1] == Entity(c)[1] && s[2] == Entity(c)[2];
    }
  }

  /** Decoding the five entities recovers the input. */
  lemma {:induction false} DecodeEscaped(s: string)
    ensures Decode(EscHtml(Some(s))) == s
  {
    PassesAreSimultaneous(s);
    if s != "" {
      ReadEntity(s[0], Substitute(s[1..]));
      PassesAreSimultaneous(s[1..]);
      DecodeEscaped(s[1..]);
      assert [s[0]] + s[1..] == s;
    }
  }

  /** Escaping twice is not escaping once: it leaves exactly the texts without any
      of the five characters alone. */
  lemma {:induction false} EscapeFixesExactlyPlain(s: string)
    ensures EscHtml(Some(s)) == s
       <==> '&' !in s && '<' !in s && '>' !in s && '"' !in s && '\'' !in s
  {
    PassesAreSimultaneous(s);
    SubstituteGrows(s);
  }

  lemma {:induction false} SubstituteGrows(s: string)
    ensures |Substitute(s)| >= |s|
    ensures if '&' !in s && '<' !in s && '>' !in s && '"' !in s && '\'' !in s
            then Substitute(s) == s else |Substitute(s)| > |s|
  {
    if s != "" {
      hide Entity;
      SubstituteGrows(s[1..]);
      EntityGrows(s[0]);
      assert [s[0]] + s[1..] == s;
    }
  }

  lemma EntityGrows(c: char)
    ensures if c in "&<>\"'" then |Entity(c)| > 1 else Entity(c) == [c]
  {
  }
}
