/** The text grammars of the structured filters: comma-separated tags and
    comma-separated `key=value` pairs. */
module FilterGrammar {
  import opened Sequences
  import opened Text

  // ─── Tags ───

  predicate NonEmpty(s: string) {
    s != ""
  }

  function TrimAll(parts: seq<string>): seq<string> {
    Map(Trim, parts)
  }

  /** Each trimmed, non-empty part once, in the order of first occurrence. */
  function ParseTags(raw: string): seq<string> {
    FirstOccurrences(Filter(NonEmpty, TrimAll(Split(raw, ','))), {})
  }

  method ParseTagsFilter(raw: string) returns (out: seq<string>)
    ensures out == ParseTags(raw)
  {
    hide FirstOccurrences, Filter, TrimAll, Split;
    out := [];
    var seen: set<string> := {};
    var parts := Split(raw, ',');
    var i := 0;
    while i < |parts|
      invariant 0 <= i <= |parts|
      invariant out + TagsOf(parts[i..], seen) == ParseTags(raw)
    {
      var t := Trim(parts[i]);
      TagsOfHead(parts[i..], seen);
      assert parts[i..][0] == parts[i] && parts[i..][1..] == parts[i + 1..];
      if !(t == "" || t in seen) {
        assert out + ([t] + TagsOf(parts[i + 1..], seen + {t})) == (out + [t]) + TagsOf(parts[i + 1..], seen + {t});
        seen := seen + {t};
        out := out + [t];
      }
      i := i + 1;
    }
    assert parts[i..] == [];
    TagsOfNone(seen);
  }

  lemma TagsOfNone(seen: set<string>)
    ensures TagsOf([], seen) == []
  {
  }

  function TagsOf(parts: seq<string>, seen: set<string>): seq<string> {
    FirstOccurrences(Filter(NonEmpty, TrimAll(parts)), seen)
  }

  lemma TagsOfHead(parts: seq<string>, seen: set<string>)
    requires parts != []
    ensures var t := Trim(parts[0]);
            TagsOf(parts, seen) ==
            if t == "" || t in seen then TagsOf(parts[1..], seen) else [t] + TagsOf(parts[1..], seen + {t})
  {
    var t, rest := Trim(parts[0]), TrimAll(parts[1..]);
    assert TrimAll(parts) == [t] + rest;
    FilterCons(NonEmpty, t, rest);
    if t != "" {
      assert ([t] + Filter(NonEmpty, rest))[1..] == Filter(NonEmpty, rest);
    }
  }

  /** One more part adds its trimmed text at the end, unless that is blank or was there:
      with nothing for no parts, this says what every list of parts reads as. */
  lemma TagsOfSnoc(parts: seq<string>, part: string)
    ensures TagsOf([], {}) == []
    ensures var tags := TagsOf(parts, {});
            TagsOf(parts + [part], {})
            == tags + (if Trim(part) == "" || Trim(part) in tags then [] else [Trim(part)])
  {
    hide Trim;
    var kept := Filter(NonEmpty, TrimAll(parts));
    assert TrimAll(parts + [part]) == TrimAll(parts) + [Trim(part)];
    FilterConcat(NonEmpty, TrimAll(parts), [Trim(part)]);
    FilterOne(Trim(part));
    FirstOccurrencesFacts(kept, {});
    if Trim(part) == "" {
      assert kept + [] == kept;
      assert TagsOf(parts, {}) + [] == TagsOf(parts, {});
    } else {
      FirstOccurrencesSnoc(kept, Trim(part), {});
    }
  }

  lemma FilterOne(s: string)
    ensures Filter(NonEmpty, [s]) == if s == "" then [] else [s]
  {
    assert [s][1..] == [];
  }

  /** What parsing gives: distinct, non-empty, trimmed tags without a comma, and
      exactly the ones some part of the text trims to. */
  lemma ParsedTagsFacts(raw: string)
    ensures var tags := ParseTags(raw);
            && Distinct(tags)
            && (forall t :: t in tags ==> t != "" && IsTrimmed(t) && ',' !in t)
            && (forall t :: t in tags <==> t != "" && exists p :: p in Split(raw, ',') && Trim(p) == t)
  {
    var parts := Split(raw, ',');
    var kept := Filter(NonEmpty, TrimAll(parts));
    FirstOccurrencesFacts(kept, {});
    SplitPartsLackSeparator(raw, ',');
    forall t | t in kept ensures t != "" && exists p :: p in parts && Trim(p) == t {
      var i :| 0 <= i < |kept| && kept[i] == t;
      assert t in TrimAll(parts);
      var j :| 0 <= j < |parts| && TrimAll(parts)[j] == t;
      assert parts[j] in parts;
    }
    forall t | t != "" && exists p :: p in parts && Trim(p) == t ensures t in kept {
      var p :| p in parts && Trim(p) == t;
      var j :| 0 <= j < |parts| && parts[j] == p;
      assert TrimAll(parts)[j] == t;
    }
    forall t | t in ParseTags(raw) ensures IsTrimmed(t) && ',' !in t {
      var p :| p in parts && Trim(p) == t;
      TrimFacts(p);
    }
  }

  ghost predicate IsCleanTagList(tags: seq<string>) {
    Distinct(tags) && forall t :: t in tags ==> t != "" && IsTrimmed(t) && ',' !in t
  }

  lemma TrimAllTrimmed(parts: seq<string>)
    requires forall p :: p in parts ==> IsTrimmed(p)
    ensures TrimAll(parts) == parts
  {
    forall i | 0 <= i < |parts| ensures TrimAll(parts)[i] == parts[i] {
      assert parts[i] in parts;
      TrimFixesTrimmed(parts[i]);
    }
  }

  /** A clean tag list is read back from its comma-join. */
  lemma CleanTagsRoundTrip(tags: seq<string>)
    requires IsCleanTagList(tags)
    ensures ParseTags(Join(tags, ',')) == tags
  {
    if tags == [] {
      assert Split("", ',') == [""];
      assert TrimAll([""]) == [""];
    } else {
      SplitJoin(tags, ',');
      TrimAllTrimmed(tags);
      FilterAll(NonEmpty, tags);
      FirstOccurrencesOfDistinct(tags, {});
    }
  }

  /** The request and the URL agree with the box: parsing the comma-join of what
      any text parsed to gives that again. */
  lemma TagsReparse(raw: string)
    ensures ParseTags(Join(ParseTags(raw), ',')) == ParseTags(raw)
  {
    ParsedTagsFacts(raw);
    CleanTagsRoundTrip(ParseTags(raw));
  }

  // ─── Metadata pairs ───

  datatype Pair = Pair(key: string, value: string)

  /** `indexOf`: the first place of `c`, or the length when there is none. */
  function FirstIndex(s: string, c: char): (i: nat)
    ensures i <= |s|
    ensures i < |s| ==> s[i] == c
    ensures forall j :: 0 <= j < i ==> s[j] != c
  {
    if s == "" || s[0] == c then 0 else 1 + FirstIndex(s[1..], c)
  }

  /** The pair a part reads as: only the first `=` splits it, a blank key is none. */
  function ParsePair(part: string): Option<Pair> {
    var eq := FirstIndex(part, '=');
    if eq == |part| then None
    else
      var key := Trim(part[..eq]);
      if key == "" then None else Some(Pair(key, Trim(part[eq + 1..])))
  }

  /** The first pair of every key not in `seen`, in order. */
  function PairsOf(parts: seq<string>, seen: set<string>): seq<Pair> {
    if parts == [] then []
    else
      var p := ParsePair(parts[0]);
      if p.None? || p.value.key in seen then PairsOf(parts[1..], seen)
      else [p.value] + PairsOf(parts[1..], seen + {p.value.key})
  }

  function ParseMetadata(raw: string): seq<Pair> {
    PairsOf(Split(raw, ','), {})
  }

  method ParseMetadataFilter(raw: string) returns (out: seq<Pair>)
    ensures out == ParseMetadata(raw)
  {
    out := [];
    var seen: set<string> := {};
    var parts := Split(raw, ',');
    var i := 0;
    while i < |parts|
      invariant 0 <= i <= |parts|
      invariant out + PairsOf(parts[i..], seen) == PairsOf(parts, {})
    {
      var part := parts[i];
      assert parts[i..][0] == part && parts[i..][1..] == parts[i + 1..];
      var eq := FirstIndex(part, '=');
      if eq < |part| {
        var key := Trim(part[..eq]);
        if !(key == "" || key in seen) {
          seen := seen + {key};
          var pair := Pair(key, Trim(part[eq + 1..]));
          assert out + ([pair] + PairsOf(parts[i + 1..], seen)) == (out + [pair]) + PairsOf(parts[i + 1..], seen);
          out := out + [pair];
        }
      }
      i := i + 1;
    }
    assert parts[i..] == [];
  }

  function PrintPair(p: Pair): string {
    p.key + "=" + p.value
  }

  predicate IsCleanPair(p: Pair) {
    && p.key != "" && IsTrimmed(p.key) && '=' !in p.key && ',' !in p.key
    && IsTrimmed(p.value) && ',' !in p.value
  }

  /** Clean pairs, one per key. */
  predicate IsCleanPairList(pairs: seq<Pair>) {
    && (forall i, j :: 0 <= i < j < |pairs| ==> pairs[i].key != pairs[j].key)
    && (forall i :: 0 <= i < |pairs| ==> IsCleanPair(pairs[i]))
  }

  lemma FirstIndexConcat(a: string, b: string, c: char)
    requires c !in a
    ensures FirstIndex(a + [c] + b, c) == |a|
  {
    var s := a + [c] + b;
    assert s[|a|] == c;
    assert forall j :: 0 <= j < |a| ==> s[j] == a[j];
  }

  /** A clean pair reads back from its printed form, whatever `=` its value holds. */
  lemma CleanPairRoundTrip(p: Pair)
    requires IsCleanPair(p)
    ensures ParsePair(PrintPair(p)) == Some(p)
    ensures ',' !in PrintPair(p)
  {
    var s := PrintPair(p);
    FirstIndexConcat(p.key, p.value, '=');
    assert s[..|p.key|] == p.key && s[|p.key| + 1..] == p.value;
    TrimFixesTrimmed(p.key);
    TrimFixesTrimmed(p.value);
  }

  /** What reading a part gives is clean, for parts of a comma split. */
  lemma ParsedPairClean(part: string)
    requires ',' !in part && ParsePair(part).Some?
    ensures IsCleanPair(ParsePair(part).value)
  {
    var eq := FirstIndex(part, '=');
    TrimFacts(part[..eq]);
    TrimFacts(part[eq + 1..]);
  }

  lemma CleanCons(p: Pair, pairs: seq<Pair>)
    requires IsCleanPair(p) && IsCleanPairList(pairs)
    requires forall i :: 0 <= i < |pairs| ==> pairs[i].key != p.key
    ensures IsCleanPairList([p] + pairs)
  {
  }

  lemma CleanTail(pairs: seq<Pair>)
    requires pairs != [] && IsCleanPairList(pairs)
    ensures IsCleanPair(pairs[0]) && IsCleanPairList(pairs[1..])
    ensures forall i :: 0 <= i < |pairs[1..]| ==> pairs[1..][i].key != pairs[0].key
  {
  }

  ghost predicate KeysOutside(pairs: seq<Pair>, seen: set<string>) {
    forall i :: 0 <= i < |pairs| ==> pairs[i].key !in seen
  }

  lemma {:induction false} PairsOfClean(parts: seq<string>, seen: set<string>)
    requires forall p :: p in parts ==> ',' !in p
    ensures IsCleanPairList(PairsOf(parts, seen))
    ensures KeysOutside(PairsOf(parts, seen), seen)
  {
    hide IsCleanPairList, ParsePair;
    if parts == [] {
      assert IsCleanPairList([]) by { NoPairs(); }
    } else {
      var p := ParsePair(parts[0]);
      assert parts[0] in parts;
      if p.None? || p.value.key in seen {
        PairsOfClean(parts[1..], seen);
      } else {
        var rest := PairsOf(parts[1..], seen + {p.value.key});
        PairsOfClean(parts[1..], seen + {p.value.key});
        ParsedPairClean(parts[0]);
        CleanCons(p.value, rest);
      }
    }
  }

  lemma NoPairs()
    ensures IsCleanPairList([])
  {
  }

  lemma {:induction false} PairsOfPrinted(pairs: seq<Pair>, seen: set<string>)
    requires IsCleanPairList(pairs) && KeysOutside(pairs, seen)
    ensures PairsOf(Map(PrintPair, pairs), seen) == pairs
  {
    hide IsCleanPairList, ParsePair, PrintPair;
    if pairs != [] {
      CleanTail(pairs);
      CleanPairRoundTrip(pairs[0]);
      assert Map(PrintPair, pairs) == [PrintPair(pairs[0])] + Map(PrintPair, pairs[1..]);
      PairsOfPrinted(pairs[1..], seen + {pairs[0].key});
      assert pairs == [pairs[0]] + pairs[1..];
    }
  }

  lemma CleanPairsRoundTrip(pairs: seq<Pair>)
    requires IsCleanPairList(pairs)
    ensures ParseMetadata(Join(Map(PrintPair, pairs), ',')) == pairs
  {
    if pairs == [] {
      assert Split("", ',') == [""];
      assert [""][1..] == [];
    } else {
      var printed := Map(PrintPair, pairs);
      forall p | p in printed ensures ',' !in p {
        var i :| 0 <= i < |printed| && printed[i] == p;
        CleanPairRoundTrip(pairs[i]);
      }
      SplitJoin(printed, ',');
      PairsOfPrinted(pairs, {});
    }
  }

  /** The same for metadata: printing the pairs any text parsed to as `key=value`
      and joining them with commas parses to the same pairs. */
  lemma MetadataReparse(raw: string)
    ensures ParseMetadata(Join(Map(PrintPair, ParseMetadata(raw)), ',')) == ParseMetadata(raw)
    ensures IsCleanPairList(ParseMetadata(raw))
  {
    SplitPartsLackSeparator(raw, ',');
    PairsOfClean(Split(raw, ','), {});
    CleanPairsRoundTrip(ParseMetadata(raw));
  }

  /** Only the first `=` splits a part; without one, or with a blank key, it is none. */
  lemma PairReads(key: string, value: string)
    requires '=' !in key
    ensures ParsePair(key) == None
    ensures ParsePair(key + "=" + value) == if Trim(key) == "" then None else Some(Pair(Trim(key), Trim(value)))
  {
    var s := key + ['='] + value;
    FirstIndexConcat(key, value, '=');
    assert key + "=" + value == s;
    assert s[..|key|] == key && s[|key| + 1..] == value;
    assert FirstIndex(key, '=') == |key|;
  }

  ghost predicate HasKey(pairs: seq<Pair>, key: string) {
    exists i :: 0 <= i < |pairs| && pairs[i].key == key
  }

  lemma {:induction false} PairsOfSnoc(parts: seq<string>, part: string, seen: set<string>)
    ensures PairsOf([], seen) == []
    ensures var pairs, p := PairsOf(parts, seen), ParsePair(part);
            PairsOf(parts + [part], seen)
            == pairs + (if p.None? || p.value.key in seen || HasKey(pairs, p.value.key) then [] else [p.value])
  {
    hide ParsePair;
    if parts == [] {
      assert parts + [part] == [part] && [part][1..] == [];
    } else {
      assert (parts + [part])[0] == parts[0] && (parts + [part])[1..] == parts[1..] + [part];
      var p := ParsePair(parts[0]);
      if p.None? || p.value.key in seen {
        PairsOfSnoc(parts[1..], part, seen);
      } else {
        var rest := PairsOf(parts[1..], seen + {p.value.key});
        PairsOfSnoc(parts[1..], part, seen + {p.value.key});
        HasKeyCons(p.value, rest);
      }
    }
  }

  lemma HasKeyCons(p: Pair, pairs: seq<Pair>)
    ensures forall key :: HasKey([p] + pairs, key) <==> key == p.key || HasKey(pairs, key)
  {
    forall key ensures HasKey([p] + pairs, key) <==> key == p.key || HasKey(pairs, key) {
      assert ([p] + pairs)[0] == p;
      assert forall i :: 0 <= i < |pairs| ==> ([p] + pairs)[i + 1] == pairs[i];
    }
  }

  /** One more part adds the pair it reads as at the end, unless its key was there: the
      first pair of a key wins. */
  lemma MetadataSnoc(parts: seq<string>, part: string)
    ensures var pairs, p := PairsOf(parts, {}), ParsePair(part);
            PairsOf(parts + [part], {})
            == pairs + (if p.None? || HasKey(pairs, p.value.key) then [] else [p.value])
  {
    PairsOfSnoc(parts, part, {});
  }

  /** The text is read part by part: the parts are what lies between its commas. */
  lemma TextReads(parts: seq<string>)
    requires parts != [] && forall p :: p in parts ==> ',' !in p
    ensures ParseTags(Join(parts, ',')) == TagsOf(parts, {})
    ensures ParseMetadata(Join(parts, ',')) == PairsOf(parts, {})
  {
    SplitJoin(parts, ',');
  }
}
