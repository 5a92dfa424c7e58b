/** Editing a collection's metadata: rows to draft, draft to the smallest PATCH
    body, and the body applied by a server that replaces each field it is sent. */
module CollectionEdit {
  import opened Sequences
  import opened Text
  import opened Signature
  import FilterGrammar

  /** A JSON value, object fields in their order; two values print alike exactly
      when they are equal. */
  datatype Json =
    | Null
    | Bool(b: bool)
    | Number(numeral: string)
    | String(s: string)
    | Array(items: seq<Json>)
    | Object(fields: seq<(string, Json)>)

  type Custom = map<string, Json>

  datatype Collection = Collection(id: string, name: string, members: seq<string>,
                                   description: Option<string>, tags: Option<seq<string>>, custom: Option<Custom>)

  // ─── What a text area holds ───

  /** A text area reads every line break back as a line feed (section 4.10.11 of the
      HTML Standard). */
  function LineFeeds(s: string): string {
    if s == "" then ""
    else if s[0] != '\r' then [s[0]] + LineFeeds(s[1..])
    else "\n" + LineFeeds(if |s| > 1 && s[1] == '\n' then s[2..] else s[1..])
  }

  lemma {:induction false} LineFeedsFacts(s: string)
    ensures '\r' !in LineFeeds(s)
    ensures LineFeeds(s) == s <==> '\r' !in s
  {
    if s != "" {
      if s[0] != '\r' {
        LineFeedsFacts(s[1..]);
        assert s == [s[0]] + s[1..];
      } else {
        LineFeedsFacts(if |s| > 1 && s[1] == '\n' then s[2..] else s[1..]);
      }
    }
  }

  /** Lines stay lines: a carriage return, with or without its line feed, reads back as
      one line feed, and nothing else changes. */
  lemma {:induction false} LinesStay(line: string, rest: string)
    requires '\r' !in line
    ensures LineFeeds(line + rest) == line + LineFeeds(rest)
    ensures LineFeeds("\r\n" + rest) == "\n" + LineFeeds(rest)
    ensures (rest == "" || rest[0] != '\n') ==> LineFeeds("\r" + rest) == "\n" + LineFeeds(rest)
  {
    assert ("\r\n" + rest)[2..] == rest && ("\r" + rest)[1..] == rest;
    if line == "" {
      assert line + rest == rest;
    } else {
      assert (line + rest)[0] == line[0] && (line + rest)[1..] == line[1..] + rest;
      LinesStay(line[1..], rest);
      assert line == [line[0]] + line[1..];
    }
  }

  // ─── Reading ───

  function ReadTags(c: Collection): seq<string> {
    if c.tags.Some? then c.tags.value else []
  }

  function ReadDescription(c: Collection): string {
    if c.description.Some? then c.description.value else ""
  }

  function ReadCustom(c: Collection): Custom {
    if c.custom.Some? then c.custom.value else map[]
  }

  /** A custom row of the form: what its boxes hold, and what they were filled with. */
  datatype Row = Row(key: string, value: string, originalKey: string, originalValue: string)

  /** The text a value is shown as; `text` is `JSON.stringify`. */
  function Shown(text: Json -> string, v: Json): string {
    if v.String? then v.s else text(v)
  }

  /** The row a field opens as: the boxes hold what boxes can hold, the originals
      are kept beside them as they are. */
  function OpeningRow(text: Json -> string, key: string, v: Json): Row {
    Row(Stripped(key), Stripped(Shown(text, v)), key, Shown(text, v))
  }

  /** The rows the form opens with, for the object's keys in their order. */
  function OpeningRows(text: Json -> string, custom: Custom, keys: seq<string>): (rows: seq<Row>)
    requires forall k :: k in keys ==> k in custom
    ensures |rows| == |keys|
  {
    if keys == [] then []
    else [OpeningRow(text, keys[0], custom[keys[0]])] + OpeningRows(text, custom, keys[1..])
  }

  ghost predicate Enumerates(keys: seq<string>, custom: Custom) {
    Distinct(keys) && forall k :: k in keys <==> k in custom
  }

  // ─── Rows to draft ───

  function NormalTags(rows: seq<string>): seq<string> {
    FilterGrammar.TagsOf(rows, {})
  }

  method NormaliseTagRows(rows: seq<string>) returns (out: seq<string>)
    ensures out == NormalTags(rows)
  {
    hide FirstOccurrences, Filter, Map, FilterGrammar.TagsOf;
    out := [];
    var seen: set<string> := {};
    var i := 0;
    while i < |rows|
      invariant 0 <= i <= |rows|
      invariant out + FilterGrammar.TagsOf(rows[i..], seen) == NormalTags(rows)
    {
      var tag := Trim(rows[i]);
      FilterGrammar.TagsOfHead(rows[i..], seen);
      assert rows[i..][0] == rows[i] && rows[i..][1..] == rows[i + 1..];
      if tag != "" && tag !in seen {
        assert out + ([tag] + FilterGrammar.TagsOf(rows[i + 1..], seen + {tag}))
            == (out + [tag]) + FilterGrammar.TagsOf(rows[i + 1..], seen + {tag});
        seen := seen + {tag};
        out := out + [tag];
      }
      i := i + 1;
    }
    assert rows[i..] == [];
    FilterGrammar.TagsOfNone(seen);
  }

  /** What the rows come to: distinct trimmed tags, exactly the non-empty texts some row
      trims to, each where it first occurs; rows that are such tags already are kept. */
  lemma NormalTagsExactly(rows: seq<string>)
    ensures Distinct(NormalTags(rows))
    ensures forall t :: t in NormalTags(rows) <==> t != "" && exists i :: 0 <= i < |rows| && Trim(rows[i]) == t
    ensures Distinct(rows) && (forall i :: 0 <= i < |rows| ==> rows[i] != "" && IsTrimmed(rows[i])) ==>
              NormalTags(rows) == rows
  {
    hide Trim;
    var trimmed := Map(Trim, rows);
    var kept := Filter(FilterGrammar.NonEmpty, trimmed);
    FirstOccurrencesFacts(kept, {});
    forall t ensures t in NormalTags(rows) <==> t != "" && exists i :: 0 <= i < |rows| && Trim(rows[i]) == t {
      if t != "" && exists i :: 0 <= i < |rows| && Trim(rows[i]) == t {
        var i :| 0 <= i < |rows| && Trim(rows[i]) == t;
        assert trimmed[i] == t && t in kept;
      }
      if t in kept {
        var j :| 0 <= j < |kept| && kept[j] == t;
        var i :| 0 <= i < |trimmed| && trimmed[i] == t;
      }
    }
    if Distinct(rows) && forall i :: 0 <= i < |rows| ==> rows[i] != "" && IsTrimmed(rows[i]) {
      FilterGrammar.TrimAllTrimmed(rows);
      FilterAll(FilterGrammar.NonEmpty, rows);
      FirstOccurrencesOfDistinct(rows, {});
    }
  }

  lemma NormalTagsSnoc(rows: seq<string>, row: string)
    ensures NormalTags([]) == []
    ensures NormalTags(rows + [row])
         == NormalTags(rows) + (if Trim(row) == "" || Trim(row) in NormalTags(rows) then [] else [Trim(row)])
  {
    FilterGrammar.TagsOfSnoc(rows, row);
  }

  predicate Untouched(r: Row) {
    Trim(r.originalKey) == Trim(r.key) && r.originalValue == r.value
  }

  /** What a row saves: the stored value when it was not retyped and is not a
      string, the typed text otherwise. */
  function RowValue(r: Row, current: Custom): Json {
    var key := Trim(r.key);
    if Untouched(r) && key in current && !current[key].String? then current[key] else String(r.value)
  }

  datatype Converted = Converted(custom: Custom, duplicateKey: Option<string>)

  function Convert(rows: seq<Row>, current: Custom, sofar: Converted): Converted {
    if rows == [] then sofar
    else
      var key := Trim(rows[0].key);
      if key == "" then Convert(rows[1..], current, sofar)
      else
        Convert(rows[1..], current,
                Converted(sofar.custom[key := RowValue(rows[0], current)],
                          if key in sofar.custom && sofar.duplicateKey.None? then Some(key)
                          else sofar.duplicateKey))
  }

  const NOTHING: Converted := Converted(map[], None)

  method CustomPairsToObject(rows: seq<Row>, current: Custom) returns (r: Converted)
    ensures r == Convert(rows, current, NOTHING)
  {
    var custom: Custom := map[];
    var duplicateKey: Option<string> := None;
    var i := 0;
    while i < |rows|
      invariant 0 <= i <= |rows|
      invariant Convert(rows[i..], current, Converted(custom, duplicateKey)) == Convert(rows, current, NOTHING)
    {
      assert rows[i..][0] == rows[i] && rows[i..][1..] == rows[i + 1..];
      var key := Trim(rows[i].key);
      if key != "" {
        if key in custom && duplicateKey.None? {
          duplicateKey := Some(key);
        }
        custom := custom[key := RowValue(rows[i], current)];
      }
      i := i + 1;
    }
    return Converted(custom, duplicateKey);
  }

  /** No two rows name the same field. */
  ghost predicate KeysUnique(rows: seq<Row>) {
    forall i, j :: 0 <= i < j < |rows| && Trim(rows[i].key) != "" ==> Trim(rows[i].key) != Trim(rows[j].key)
  }

  /** `r` is what `rows` make of `sofar`: no duplicate exactly when every row
      names a field of its own, and then one field per named row, holding that
      row's value, beside what was there. */
  ghost predicate OneFieldPerRow(rows: seq<Row>, current: Custom, sofar: Custom, r: Converted) {
    && (r.duplicateKey.None? <==>
          KeysUnique(rows) && forall i :: 0 <= i < |rows| ==> Trim(rows[i].key) !in sofar.Keys - {""})
    && (r.duplicateKey.None? ==>
          && (forall i :: 0 <= i < |rows| && Trim(rows[i].key) != "" ==>
                Trim(rows[i].key) in r.custom && r.custom[Trim(rows[i].key)] == RowValue(rows[i], current))
          && (forall k :: k in sofar ==> k in r.custom && r.custom[k] == sofar[k])
          && (forall k :: k in r.custom ==>
                k in sofar || exists i :: 0 <= i < |rows| && k == Trim(rows[i].key) && k != ""))
  }

  lemma {:induction false} ConvertFacts(rows: seq<Row>, current: Custom, sofar: Converted)
    requires sofar.duplicateKey.None?
    ensures OneFieldPerRow(rows, current, sofar.custom, Convert(rows, current, sofar))
    decreases |rows|
  {
    hide Trim, RowValue;
    if rows != [] {
      var key := Trim(rows[0].key);
      if key == "" {
        ConvertFacts(rows[1..], current, sofar);
        ConvertSkip(rows, current, sofar);
      } else {
        var next := Converted(sofar.custom[key := RowValue(rows[0], current)],
                              if key in sofar.custom then Some(key) else None);
        if key in sofar.custom {
          ConvertKeepsDuplicate(rows[1..], current, next);
        } else {
          ConvertFacts(rows[1..], current, next);
          ConvertNamed(rows, current, sofar.custom, Convert(rows[1..], current, next));
        }
      }
    }
  }

  lemma ConvertNamed(rows: seq<Row>, current: Custom, sofar: Custom, r: Converted)
    requires rows != [] && Trim(rows[0].key) != "" && Trim(rows[0].key) !in sofar
    requires OneFieldPerRow(rows[1..], current, sofar[Trim(rows[0].key) := RowValue(rows[0], current)], r)
    ensures OneFieldPerRow(rows, current, sofar, r)
  {
    hide Trim, RowValue;
    assert forall i :: 1 <= i < |rows| ==> rows[i] == rows[1..][i - 1];
  }

  /** A reported duplicate is a field that two rows name, the first such. */
  lemma DuplicateIsShared(rows: seq<Row>, current: Custom, n: nat)
    requires n < |rows| && KeysUnique(rows[..n]) && Trim(rows[n].key) != ""
    requires exists i :: 0 <= i < n && Trim(rows[i].key) == Trim(rows[n].key)
    ensures Convert(rows, current, NOTHING).duplicateKey == Some(Trim(rows[n].key))
  {
    hide Trim, RowValue;
    var front, back := rows[..n], rows[n..];
    var r := Convert(front, current, NOTHING);
    assert rows == front + back;
    ConvertConcat(front, back, current, NOTHING);
    ConvertFacts(front, current, NOTHING);
    var i :| 0 <= i < n && Trim(rows[i].key) == Trim(rows[n].key);
    assert front[i] == rows[i];
    assert back[0] == rows[n];
    ConvertKeepsDuplicate(back[1..], current, Converted(r.custom[Trim(rows[n].key) := RowValue(rows[n], current)],
                                                        Some(Trim(rows[n].key))));
  }

  lemma {:induction false} ConvertConcat(a: seq<Row>, b: seq<Row>, current: Custom, sofar: Converted)
    ensures Convert(a + b, current, sofar) == Convert(b, current, Convert(a, current, sofar))
    decreases |a|
  {
    if a == [] {
      assert a + b == b;
    } else {
      hide Trim, RowValue;
      assert (a + b)[0] == a[0] && (a + b)[1..] == a[1..] + b;
      var key := Trim(a[0].key);
      ConvertConcat(a[1..], b, current,
        if key == "" then sofar
        else Converted(sofar.custom[key := RowValue(a[0], current)],
                       if key in sofar.custom && sofar.duplicateKey.None? then Some(key) else sofar.duplicateKey));
    }
  }

  lemma ConvertSkip(rows: seq<Row>, current: Custom, sofar: Converted)
    requires rows != [] && Trim(rows[0].key) == ""
    ensures Convert(rows, current, sofar) == Convert(rows[1..], current, sofar)
    ensures forall i :: 1 <= i < |rows| ==> rows[i] == rows[1..][i - 1]
    ensures KeysUnique(rows) <==> KeysUnique(rows[1..])
  {
  }

  lemma {:induction false} ConvertKeepsDuplicate(rows: seq<Row>, current: Custom, sofar: Converted)
    requires sofar.duplicateKey.Some?
    ensures Convert(rows, current, sofar).duplicateKey == sofar.duplicateKey
    decreases |rows|
  {
    if rows != [] {
      var key := Trim(rows[0].key);
      ConvertKeepsDuplicate(rows[1..], current,
        if key == "" then sofar else sofar.(custom := sofar.custom[key := RowValue(rows[0], current)]));
    }
  }

  // ─── Draft to body ───

  datatype Draft = Draft(description: Option<string>, tags: Option<seq<string>>, custom: Option<Custom>)

  /** The PATCH body: an absent field is left alone by the server. There is no
      field for the name or the members. */
  datatype Body = Body(description: Option<string>, tags: Option<seq<string>>, custom: Option<Custom>)

  const EMPTY: Body := Body(None, None, None)

  method SameStringArray(a: seq<string>, b: seq<string>) returns (same: bool)
    ensures same <==> a == b
  {
    if |a| != |b| { return false; }
    for i := 0 to |a|
      invariant forall j :: 0 <= j < i ==> a[j] == b[j]
    {
      if a[i] != b[i] { return false; }
    }
    return true;
  }

  method SameObject(a: Custom, b: Custom) returns (same: bool)
    ensures same <==> a == b
  {
    hide SortedKeys;
    var ka, kb := SortedKeys(a.Keys), SortedKeys(b.Keys);
    var keysSame := SameStringArray(ka, kb);
    if !keysSame {
      assert a.Keys != b.Keys;
      return false;
    }
    assert forall k :: k in ka <==> k in a && k in b;
    for i := 0 to |ka|
      invariant forall j :: 0 <= j < i ==> ka[j] in a && ka[j] in b && a[ka[j]] == b[ka[j]]
    {
      assert ka[i] in ka;
      if a[ka[i]] != b[ka[i]] { return false; }
    }
    SameFields(a, b, ka);
    return true;
  }

  function Changed<T(==)>(next: Option<T>, now: T): Option<T> {
    if next.Some? && next.value != now then next else None
  }

  function Normal(d: Draft): Draft {
    d.(tags := if d.tags.Some? then Some(NormalTags(d.tags.value)) else None)
  }

  /** The smallest body: each drafted field, normalised, that differs from the
      collection's. */
  function PatchBody(c: Collection, d: Draft): Body {
    Body(Changed(d.description, ReadDescription(c)),
         Changed(Normal(d).tags, ReadTags(c)),
         Changed(d.custom, ReadCustom(c)))
  }

  method CollectionEditPatchBody(c: Collection, d: Draft) returns (body: Body)
    ensures body == PatchBody(c, d)
  {
    body := EMPTY;
    if d.description.Some? {
      if d.description.value != ReadDescription(c) {
        body := body.(description := d.description);
      }
    }
    if d.tags.Some? {
      var next := NormaliseTagRows(d.tags.value);
      var same := SameStringArray(next, ReadTags(c));
      if !same {
        body := body.(tags := Some(next));
      }
    }
    if d.custom.Some? {
      var same := SameObject(d.custom.value, ReadCustom(c));
      if !same {
        body := body.(custom := d.custom);
      }
    }
  }

  // ─── The server, and what the body achieves ───

  /** Every present field replaces the stored one wholesale. */
  function Patched(c: Collection, b: Body): Collection {
    c.(description := if b.description.Some? then b.description else c.description,
       tags := if b.tags.Some? then b.tags else c.tags,
       custom := if b.custom.Some? then b.custom else c.custom)
  }

  /** The saved collection reads as the normalised draft where the draft says
      anything and as before where it does not: its tags are the distinct non-empty
      texts the drafted rows trim to, and the rows themselves if they are that already.
      Its id, name and members stay. */
  lemma PatchAchievesDraft(c: Collection, d: Draft)
    ensures var r := Patched(c, PatchBody(c, d));
            && ReadDescription(r) == (if d.description.Some? then d.description.value else ReadDescription(c))
            && ReadTags(r) == (if d.tags.Some? then NormalTags(d.tags.value) else ReadTags(c))
            && ReadCustom(r) == (if d.custom.Some? then d.custom.value else ReadCustom(c))
            && r.id == c.id && r.name == c.name && r.members == c.members
            && (d.tags.Some? ==>
                  var rows := d.tags.value;
                  && Distinct(ReadTags(r))
                  && (forall t :: t in ReadTags(r) <==> t != "" && exists i :: 0 <= i < |rows| && Trim(rows[i]) == t)
                  && (Distinct(rows) && (forall i :: 0 <= i < |rows| ==> rows[i] != "" && IsTrimmed(rows[i])) ==>
                        ReadTags(r) == rows))
  {
    hide NormalTags, Trim;
    if d.tags.Some? {
      NormalTagsExactly(d.tags.value);
    }
  }

  /** An absent field reads as an empty one. */
  lemma AbsentReadsEmpty(c: Collection)
    ensures ReadDescription(c.(description := None)) == "" && ReadTags(c.(tags := None)) == []
    ensures ReadCustom(c.(custom := None)) == map[]
  {
  }

  /** No smaller body does: any body with that outcome carries every field this
      one carries, with the same value. */
  lemma PatchIsSmallest(c: Collection, d: Draft, other: Body)
    requires var r, s := Patched(c, PatchBody(c, d)), Patched(c, other);
             ReadDescription(r) == ReadDescription(s) && ReadTags(r) == ReadTags(s) && ReadCustom(r) == ReadCustom(s)
    ensures var b := PatchBody(c, d);
            && (b.description.Some? ==> other.description == b.description)
            && (b.tags.Some? ==> other.tags == b.tags)
            && (b.custom.Some? ==> other.custom == b.custom)
  {
  }

  /** The body is empty exactly when saving would change nothing that is read. */
  lemma EmptyExactly(c: Collection, d: Draft)
    ensures PatchBody(c, d) == EMPTY
       <==> && (d.description.Some? ==> d.description.value == ReadDescription(c))
            && (d.tags.Some? ==> NormalTags(d.tags.value) == ReadTags(c))
            && (d.custom.Some? ==> d.custom.value == ReadCustom(c))
  {
  }

  // ─── The form, opened and saved ───

  datatype Form = Form(description: string, tagRows: seq<string>, customRows: seq<Row>)

  /** What pressing Save comes to. */
  datatype Outcome = DuplicateKey | NothingToSave | Send(body: Body)

  function FormDraft(c: Collection, f: Form): Draft {
    Draft(Some(f.description), Some(NormalTags(f.tagRows)),
          Some(Convert(f.customRows, ReadCustom(c), NOTHING).custom))
  }

  function Save(c: Collection, f: Form): Outcome {
    if Convert(f.customRows, ReadCustom(c), NOTHING).duplicateKey.Some? then DuplicateKey
    else if PatchBody(c, FormDraft(c, f)) == EMPTY then NothingToSave
    else Send(PatchBody(c, FormDraft(c, f)))
  }

  /** Saving is refused exactly when two rows name the same field. */
  lemma RefusedExactly(c: Collection, f: Form)
    ensures Save(c, f) == DuplicateKey <==> !KeysUnique(f.customRows)
  {
    hide Convert, PatchBody, Trim;
    ConvertFacts(f.customRows, ReadCustom(c), NOTHING);
  }

  /** The collection once the form was saved. */
  function Saved(c: Collection, f: Form): Collection {
    if Save(c, f).Send? then Patched(c, Save(c, f).body) else c
  }

  /** The form as it opens; an empty list opens with one blank row. */
  function Opened(text: Json -> string, c: Collection, keys: seq<string>): Form
    requires forall k :: k in keys ==> k in ReadCustom(c)
  {
    Form(LineFeeds(ReadDescription(c)),
         if ReadTags(c) == [] then [""] else Map(Stripped, ReadTags(c)),
         if keys == [] then [Row("", "", "", "")] else OpeningRows(text, ReadCustom(c), keys))
  }

  /** What a form can hold, opened or edited. */
  ghost predicate IsBoxed(f: Form) {
    && '\r' !in f.description
    && (forall i :: 0 <= i < |f.tagRows| ==> OneLine(f.tagRows[i]))
    && (forall i :: 0 <= i < |f.customRows| ==> OneLine(f.customRows[i].key) && OneLine(f.customRows[i].value))
  }

  predicate CanonicalKey(k: string) {
    k != "" && IsTrimmed(k) && OneLine(k)
  }

  /** Stored as this form would store it. */
  ghost predicate Canonical(text: Json -> string, c: Collection) {
    && '\r' !in ReadDescription(c)
    && NormalTags(ReadTags(c)) == ReadTags(c) && (forall t :: t in ReadTags(c) ==> OneLine(t))
    && (forall k :: k in ReadCustom(c) ==> CanonicalKey(k) && OneLine(Shown(text, ReadCustom(c)[k])))
  }

  lemma NormalTagsIdempotent(rows: seq<string>)
    ensures NormalTags(NormalTags(rows)) == NormalTags(rows)
    ensures NormalTags([""]) == []
  {
    var trimmed := Map(Trim, rows);
    var kept := Filter(FilterGrammar.NonEmpty, trimmed);
    var tags := NormalTags(rows);
    FirstOccurrencesFacts(kept, {});
    forall i | 0 <= i < |tags| ensures tags[i] != "" && IsTrimmed(tags[i]) {
      assert tags[i] in kept;
      var j :| 0 <= j < |kept| && kept[j] == tags[i];
      var n :| 0 <= n < |trimmed| && trimmed[n] == kept[j];
      TrimFacts(rows[n]);
    }
    FilterGrammar.TrimAllTrimmed(tags);
    FilterAll(FilterGrammar.NonEmpty, tags);
    FirstOccurrencesOfDistinct(tags, {});
    assert Trim("") == "";
    assert Map(Trim, [""]) == [""];
  }

  lemma {:induction false} OpeningRowsFacts(text: Json -> string, custom: Custom, keys: seq<string>)
    requires forall k :: k in keys ==> k in custom
    ensures forall i :: 0 <= i < |keys| ==>
              OpeningRows(text, custom, keys)[i] == OpeningRow(text, keys[i], custom[keys[i]])
  {
    if keys != [] {
      hide OpeningRow;
      OpeningRowsFacts(text, custom, keys[1..]);
    }
  }

  lemma OpenedIsBoxed(text: Json -> string, c: Collection, keys: seq<string>)
    requires forall k :: k in keys ==> k in ReadCustom(c)
    ensures IsBoxed(Opened(text, c, keys))
  {
    LineFeedsFacts(ReadDescription(c));
    OpeningRowsFacts(text, ReadCustom(c), keys);
  }

  /** A row nobody retyped saves the stored value, whatever its type, exactly when
      the box could hold its text; a line break in it is silently lost. */
  lemma UntouchedKeepsExactly(text: Json -> string, current: Custom, key: string)
    requires key in current && CanonicalKey(key)
    ensures var r := OpeningRow(text, key, current[key]);
            && Trim(r.key) == key
            && (RowValue(r, current) == current[key] <==> OneLine(Shown(text, current[key])))
            && (!OneLine(Shown(text, current[key])) ==>
                  RowValue(r, current) == String(Stripped(Shown(text, current[key]))))
  {
    hide Stripped, Trim;
    StrippedFixesOneLine(key);
    TrimFixesTrimmed(key);
    StrippedFixesOneLine(Shown(text, current[key]));
  }

  /** Rows naming distinct fields become one field each. */
  lemma NamedRowsConvert(rows: seq<Row>, current: Custom, keys: seq<string>)
    requires |rows| == |keys| && Distinct(keys)
    requires forall i :: 0 <= i < |keys| ==> Trim(rows[i].key) == keys[i] && keys[i] != ""
    ensures var r := Convert(rows, current, NOTHING);
            && r.duplicateKey.None?
            && (forall k :: k in r.custom <==> k in keys)
            && (forall i :: 0 <= i < |keys| ==> keys[i] in r.custom && r.custom[keys[i]] == RowValue(rows[i], current))
  {
    hide Convert, RowValue, Trim;
    ConvertFacts(rows, current, NOTHING);
    assert KeysUnique(rows);
    var r := Convert(rows, current, NOTHING);
    forall k ensures k in r.custom <==> k in keys {
      if k in keys {
        var i :| 0 <= i < |keys| && keys[i] == k;
        assert Trim(rows[i].key) == k;
      }
    }
  }

  lemma BlankRowConverts(current: Custom)
    ensures Convert([Row("", "", "", "")], current, NOTHING) == NOTHING
  {
    assert Trim("") == "";
    assert [Row("", "", "", "")][1..] == [];
  }

  lemma OpenedRowsNamed(text: Json -> string, custom: Custom, keys: seq<string>)
    requires Enumerates(keys, custom)
    requires forall k :: k in custom ==> CanonicalKey(k)
    ensures var rows := OpeningRows(text, custom, keys);
            forall i :: 0 <= i < |keys| ==>
              && Trim(rows[i].key) == keys[i] && keys[i] != ""
              && (RowValue(rows[i], custom) == custom[keys[i]] <==> OneLine(Shown(text, custom[keys[i]])))
  {
    hide RowValue, Trim, Shown, OpeningRow, OneLine;
    OpeningRowsFacts(text, custom, keys);
    forall i | 0 <= i < |keys|
      ensures var rows := OpeningRows(text, custom, keys);
              && Trim(rows[i].key) == keys[i] && keys[i] != ""
              && (RowValue(rows[i], custom) == custom[keys[i]] <==> OneLine(Shown(text, custom[keys[i]])))
    {
      assert keys[i] in keys;
      UntouchedKeepsExactly(text, custom, keys[i]);
    }
  }

  lemma OpenedConverts(text: Json -> string, c: Collection, keys: seq<string>)
    requires Enumerates(keys, ReadCustom(c))
    requires forall k :: k in ReadCustom(c) ==> CanonicalKey(k)
    ensures var r := Convert(Opened(text, c, keys).customRows, ReadCustom(c), NOTHING);
            r == Converted(ReadCustom(c), None)
            <==> forall k :: k in ReadCustom(c) ==> OneLine(Shown(text, ReadCustom(c)[k]))
  {
    hide Convert, RowValue, Trim, OpeningRows, OneLine, Shown;
    var custom := ReadCustom(c);
    if keys == [] {
      BlankRowConverts(custom);
      assert custom == map[];
    } else {
      var rows := OpeningRows(text, custom, keys);
      OpenedRowsNamed(text, custom, keys);
      NamedRowsConvert(rows, custom, keys);
      if forall k :: k in custom ==> OneLine(Shown(text, custom[k])) {
        forall i | 0 <= i < |keys| ensures RowValue(rows[i], custom) == custom[keys[i]] {
          assert keys[i] in keys;
        }
        SameFields(Convert(rows, custom, NOTHING).custom, custom, keys);
      } else {
        var k :| k in custom && !OneLine(Shown(text, custom[k]));
        var i :| 0 <= i < |keys| && keys[i] == k;
        assert RowValue(rows[i], custom) != custom[k];
      }
    }
  }

  lemma SameFields(a: Custom, b: Custom, keys: seq<string>)
    requires forall k :: k in a <==> k in keys
    requires forall k :: k in b <==> k in keys
    requires forall i :: 0 <= i < |keys| ==> a[keys[i]] == b[keys[i]]
    ensures a == b
  {
    forall k | k in a ensures a[k] == b[k] {
      var i :| 0 <= i < |keys| && keys[i] == k;
    }
  }

  /** Opening a collection and saving unedited sends nothing exactly when the
      collection is stored as this form would store it: no carriage return in the
      description, trimmed distinct one-line tags, trimmed one-line keys, and every
      custom value shown on one line. */
  lemma UneditedSendsNothingExactly(text: Json -> string, c: Collection, keys: seq<string>)
    requires Enumerates(keys, ReadCustom(c))
    ensures Save(c, Opened(text, c, keys)) == NothingToSave <==> Canonical(text, c)
  {
    hide Convert, OpeningRows, NormalTags, LineFeeds, OneLine, Shown;
    var f := Opened(text, c, keys);
    OpenedIsBoxed(text, c, keys);
    LineFeedsFacts(ReadDescription(c));
    OpenedTags(c);
    NormalTagsIdempotent(f.tagRows);
    EmptyExactly(c, FormDraft(c, f));
    if forall k :: k in ReadCustom(c) ==> CanonicalKey(k) {
      OpenedConverts(text, c, keys);
    } else {
      ConvertedKeysAreCanonical(f.customRows, ReadCustom(c));
    }
  }

  /** The tags read back unchanged exactly when they are normal and on one line each. */
  lemma OpenedTags(c: Collection)
    ensures var tags := ReadTags(c);
            var rows := if tags == [] then [""] else Map(Stripped, tags);
            NormalTags(rows) == tags <==> NormalTags(tags) == tags && forall t :: t in tags ==> OneLine(t)
  {
    hide NormalTags, OneLine, Stripped;
    var tags := ReadTags(c);
    var rows := if tags == [] then [""] else Map(Stripped, tags);
    NormalTagsIdempotent(tags);
    NormalTagsIdempotent(rows);
    NormalTagsOfNone();
    if tags != [] {
      NormalTagsOneLine(rows);
      if forall t :: t in tags ==> OneLine(t) {
        forall i | 0 <= i < |tags| ensures rows[i] == tags[i] {
          StrippedFixesOneLine(tags[i]);
        }
        assert rows == tags;
      }
    }
  }

  lemma NormalTagsOneLine(rows: seq<string>)
    requires forall i :: 0 <= i < |rows| ==> OneLine(rows[i])
    ensures forall t :: t in NormalTags(rows) ==> OneLine(t)
  {
    hide OneLine;
    var trimmed := Map(Trim, rows);
    var kept := Filter(FilterGrammar.NonEmpty, trimmed);
    FirstOccurrencesFacts(kept, {});
    forall t | t in NormalTags(rows) ensures OneLine(t) {
      var j :| 0 <= j < |kept| && kept[j] == t;
      var n :| 0 <= n < |trimmed| && trimmed[n] == kept[j];
      TrimOneLine(rows[n]);
    }
  }

  lemma NormalTagsOfNone()
    ensures NormalTags([]) == []
  {
  }

  lemma ConvertedKeysAreCanonical(rows: seq<Row>, current: Custom)
    requires forall i :: 0 <= i < |rows| ==> OneLine(rows[i].key)
    ensures Convert(rows, current, NOTHING).duplicateKey.None? ==>
              forall k :: k in Convert(rows, current, NOTHING).custom ==> CanonicalKey(k)
  {
    hide OneLine;
    ConvertFacts(rows, current, NOTHING);
    forall i | 0 <= i < |rows| ensures IsTrimmed(Trim(rows[i].key)) && OneLine(Trim(rows[i].key)) {
      TrimFacts(rows[i].key);
      TrimOneLine(rows[i].key);
    }
  }

  /** `JSON.stringify` puts no line break into the text of a value. */
  ghost predicate WritesOneLine(text: Json -> string) {
    forall v: Json :: !v.String? ==> OneLine(text(v))
  }

  lemma ConvertedShowsOneLine(text: Json -> string, rows: seq<Row>, current: Custom)
    requires WritesOneLine(text)
    requires forall i :: 0 <= i < |rows| ==> OneLine(rows[i].value)
    ensures Convert(rows, current, NOTHING).duplicateKey.None? ==>
              var custom := Convert(rows, current, NOTHING).custom;
              forall k :: k in custom ==> OneLine(Shown(text, custom[k]))
  {
    hide OneLine, Trim;
    ConvertFacts(rows, current, NOTHING);
    forall i | 0 <= i < |rows| ensures OneLine(Shown(text, RowValue(rows[i], current))) {
      assert OneLine(rows[i].value);
    }
  }

  /** Whatever was edited: re-opening the saved collection and saving it unedited
      sends nothing, non-string custom values included. */
  lemma ReopenedSavesNothing(text: Json -> string, c: Collection, f: Form, keys: seq<string>)
    requires WritesOneLine(text) && IsBoxed(f)
    requires !Save(c, f).DuplicateKey?
    requires Enumerates(keys, ReadCustom(Saved(c, f)))
    ensures Save(Saved(c, f), Opened(text, Saved(c, f), keys)) == NothingToSave
  {
    hide Convert, NormalTags, OneLine, Shown, Opened;
    var d := FormDraft(c, f);
    PatchAchievesDraft(c, d);
    EmptyExactly(c, d);
    NormalTagsIdempotent(f.tagRows);
    NormalTagsOneLine(f.tagRows);
    ConvertedKeysAreCanonical(f.customRows, ReadCustom(c));
    ConvertedShowsOneLine(text, f.customRows, ReadCustom(c));
    var r := Saved(c, f);
    assert ReadDescription(r) == f.description && ReadTags(r) == NormalTags(f.tagRows);
    assert ReadCustom(r) == Convert(f.customRows, ReadCustom(c), NOTHING).custom;
    assert Canonical(text, r);
    UneditedSendsNothingExactly(text, r, keys);
  }

  /** Retyping one row changes that field, to the typed text, and leaves every other
      field alone exactly if its shown text has no line break to lose. */
  lemma RetypedRowChangesOnlyItself(text: Json -> string, c: Collection, keys: seq<string>, n: nat, typed: string)
    requires Enumerates(keys, ReadCustom(c)) && n < |keys|
    requires forall k :: k in ReadCustom(c) ==> CanonicalKey(k)
    requires typed != Shown(text, ReadCustom(c)[keys[n]])
    ensures var custom, rows := ReadCustom(c), Opened(text, c, keys).customRows;
            var r := Convert(rows[n := rows[n].(value := typed)], custom, NOTHING);
            && r.duplicateKey.None? && r.custom.Keys == custom.Keys
            && r.custom[keys[n]] == String(typed)
            && (forall k :: k in custom && k != keys[n] ==>
                  (r.custom[k] == custom[k] <==> OneLine(Shown(text, custom[k]))))
  {
    hide Convert, RowValue, Trim, OpeningRows, Shown, OneLine;
    var custom := ReadCustom(c);
    var before := OpeningRows(text, custom, keys);
    var rows := before[n := before[n].(value := typed)];
    OpenedRowsNamed(text, custom, keys);
    OpeningRowsFacts(text, custom, keys);
    RetypedSavesText(rows[n], custom);
    NamedRowsConvert(rows, custom, keys);
    assert keys[n] in keys;
    var r := Convert(rows, custom, NOTHING);
    forall k | k in custom && k != keys[n] ensures r.custom[k] == custom[k] <==> OneLine(Shown(text, custom[k])) {
      var i :| 0 <= i < |keys| && keys[i] == k;
      assert rows[i] == before[i];
    }
  }

  /** A row that was retyped, or renamed, or whose field is none of the stored ones,
      saves its text as a string. */
  lemma RetypedSavesText(r: Row, current: Custom)
    requires r.value != r.originalValue || Trim(r.originalKey) != Trim(r.key) || Trim(r.key) !in current
    ensures RowValue(r, current) == String(r.value)
  {
  }
}
