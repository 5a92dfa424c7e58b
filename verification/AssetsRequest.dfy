/** The request the assets table makes for a state: the search tier when any text
    filter is set, the list tier otherwise; and what a shared link reproduces. */
module AssetsRequest {
  import opened Sequences
  import opened Text
  import opened PagerStore
  import opened Signature
  import opened FilterGrammar

  /** The exact filters both tiers take. */
  datatype Exact = Exact(status: string, from: string, to: string)

  datatype Request =
    | Search(q: string, page: nat, size: nat, tags: seq<string>, metadata: seq<Pair>, exact: Exact)
    | List(limit: nat, offset: nat, exact: Exact)

  function RequestOf(v: View): Request
    requires v.pageSize >= 1
  {
    var q := Trim(Get(v.filters, "q"));
    var tags, metadata := ParseTags(Get(v.filters, "tags")), ParseMetadata(Get(v.filters, "meta"));
    var exact := Exact(Get(v.filters, "status"), Get(v.filters, "from"), Get(v.filters, "to"));
    if q != "" || tags != [] || metadata != []
    then Search(q, SearchPage(v.offset, v.pageSize), v.pageSize, tags, metadata, exact)
    else List(v.pageSize, v.offset, exact)
  }

  // ─── What goes over the wire ───

  /** The path asked for and its query parameters, in order. */
  datatype Sent = Sent(path: string, params: seq<(string, string)>)

  /** A number as its decimal digits. */
  function Digits(n: nat): string {
    if n < 10 then [n as char + '0'] else Digits(n / 10) + [(n % 10) as char + '0']
  }

  function Number(s: string): int {
    if s == "" then 0 else 10 * Number(s[..|s| - 1]) + (s[|s| - 1] as int - '0' as int)
  }

  lemma {:induction false} DigitsRead(n: nat)
    ensures Number(Digits(n)) == n && Digits(n) != ""
  {
    if n < 10 {
      assert Digits(n)[..0] == "";
    } else {
      DigitsRead(n / 10);
      assert Digits(n)[..|Digits(n)| - 1] == Digits(n / 10);
    }
  }

  function IfSet(name: string, value: string): seq<(string, string)> {
    if value == "" then [] else [(name, value)]
  }

  function MetaParam(p: Pair): (string, string) {
    ("metadata." + p.key, p.value)
  }

  function ExactParams(e: Exact): seq<(string, string)> {
    IfSet("status", e.status) + IfSet("from", e.from) + IfSet("to", e.to)
  }

  function SentOf(r: Request): Sent {
    match r
    case Search(q, page, size, tags, metadata, exact) =>
      Sent("/search", IfSet("q", q) + [("page", Digits(page)), ("pageSize", Digits(size))]
                      + IfSet("tags", Join(tags, ',')) + Map(MetaParam, metadata) + ExactParams(exact))
    case List(limit, offset, exact) =>
      Sent("/assets", [("limit", Digits(limit)), ("offset", Digits(offset))] + ExactParams(exact))
  }

  predicate Has(params: seq<(string, string)>, name: string) {
    exists i :: 0 <= i < |params| && params[i].0 == name
  }

  /** `URLSearchParams.set`: the first entry of the name takes the value and the
      others go; without one the entry is appended. */
  function SetParam(params: seq<(string, string)>, name: string, value: string): seq<(string, string)> {
    if params == [] then [(name, value)]
    else if params[0].0 == name
    then [(name, value)] + Filter((e: (string, string)) => e.0 != name, params[1..])
    else [params[0]] + SetParam(params[1..], name, value)
  }

  lemma {:induction false} SetAppends(params: seq<(string, string)>, name: string, value: string)
    requires !Has(params, name)
    ensures SetParam(params, name, value) == params + [(name, value)]
  {
    if params != [] {
      assert params[0].0 != name;
      assert forall i :: 0 <= i < |params[1..]| ==> params[1..][i] == params[i + 1];
      SetAppends(params[1..], name, value);
    }
  }

  /** `set` leaves one entry of the name, with the value, and all others as they were. */
  lemma {:induction false} SetParamExactly(params: seq<(string, string)>, name: string, value: string)
    ensures Filter((e: (string, string)) => e.0 == name, SetParam(params, name, value)) == [(name, value)]
    ensures Filter((e: (string, string)) => e.0 != name, SetParam(params, name, value))
         == Filter((e: (string, string)) => e.0 != name, params)
  {
    var mine, others := (e: (string, string)) => e.0 == name, (e: (string, string)) => e.0 != name;
    hide Filter;
    FilterOfOne(mine, (name, value));
    FilterOfOne(others, (name, value));
    if params == [] {
      FilterNothing(others);
    } else {
      var rest := Filter(others, params[1..]);
      assert params == [params[0]] + params[1..];
      FilterCons(others, params[0], params[1..]);
      if params[0].0 == name {
        FilterCons(mine, (name, value), rest);
        FilterCons(others, (name, value), rest);
        AllKept(others, params[1..]);
        FilterAll(others, rest);
        FilterNone(mine, rest);
      } else {
        SetParamExactly(params[1..], name, value);
        FilterCons(mine, params[0], SetParam(params[1..], name, value));
        FilterCons(others, params[0], SetParam(params[1..], name, value));
      }
    }
  }

  lemma FilterOfOne<T>(keep: T -> bool, x: T)
    ensures Filter(keep, [x]) == if keep(x) then [x] else []
  {
    assert [x][1..] == [];
  }

  lemma FilterNothing<T>(keep: T -> bool)
    ensures Filter(keep, []) == []
  {
  }

  lemma AllKept<T>(keep: T -> bool, s: seq<T>)
    ensures forall x :: x in Filter(keep, s) ==> keep(x)
  {
  }

  method SetIfSet(params: seq<(string, string)>, name: string, value: string)
      returns (out: seq<(string, string)>)
    requires !Has(params, name)
    ensures out == params + IfSet(name, value)
  {
    out := params;
    if value != "" {
      SetAppends(params, name, value);
      out := SetParam(params, name, value);
    }
  }

  /** `fetchAssetsPage` up to its request. */
  method BuildRequest(v: View) returns (sent: Sent)
    requires v.pageSize >= 1
    ensures sent == SentOf(RequestOf(v))
  {
    hide ParseTags, ParseMetadata, Trim, Get, SentOf, SearchPage, ParamsOfSearch, ParamsOfList;
    var q := Trim(Get(v.filters, "q"));
    var exact := Exact(Get(v.filters, "status"), Get(v.filters, "from"), Get(v.filters, "to"));
    var tags := ParseTagsFilter(Get(v.filters, "tags"));
    var metadata := ParseMetadataFilter(Get(v.filters, "meta"));
    if q != "" || tags != [] || metadata != [] {
      var params := SetSearch(q, SearchPage(v.offset, v.pageSize), v.pageSize, v.filters, tags, metadata);
      sent := SetExact("/search", params, exact);
    } else {
      var params := SetList(v.pageSize, v.offset);
      sent := SetExact("/assets", params, exact);
    }
    SentInParts(RequestOf(v));
  }

  function ParamsOfSearch(q: string, page: nat, size: nat, tags: seq<string>, metadata: seq<Pair>)
      : seq<(string, string)>
  {
    IfSet("q", q) + [("page", Digits(page)), ("pageSize", Digits(size))]
    + IfSet("tags", Join(tags, ',')) + Map(MetaParam, metadata)
  }

  function ParamsOfList(limit: nat, offset: nat): seq<(string, string)> {
    [("limit", Digits(limit)), ("offset", Digits(offset))]
  }

  lemma SentInParts(r: Request)
    ensures SentOf(r) ==
            match r
            case Search(q, page, size, tags, metadata, exact) =>
              Sent("/search", ParamsOfSearch(q, page, size, tags, metadata) + ExactParams(exact))
            case List(limit, offset, exact) => Sent("/assets", ParamsOfList(limit, offset) + ExactParams(exact))
  {
  }

  method SetList(limit: nat, offset: nat) returns (params: seq<(string, string)>)
    ensures params == ParamsOfList(limit, offset)
    ensures !Has(params, "status") && !Has(params, "from") && !Has(params, "to")
  {
    hide Digits, SetParam;
    params := [];
    SetAppends(params, "limit", Digits(limit));
    params := SetParam(params, "limit", Digits(limit));
    SetAppends(params, "offset", Digits(offset));
    params := SetParam(params, "offset", Digits(offset));
  }

  method SetSearch(q: string, page: nat, size: nat, filters: map<string, string>, tags: seq<string>,
                   metadata: seq<Pair>)
      returns (params: seq<(string, string)>)
    requires tags == ParseTags(Get(filters, "tags")) && metadata == ParseMetadata(Get(filters, "meta"))
    ensures params == ParamsOfSearch(q, page, size, tags, metadata)
    ensures !Has(params, "status") && !Has(params, "from") && !Has(params, "to")
  {
    hide Digits, SetParam, Join, ParseTags, ParseMetadata, Map, MetaParam;
    params := [];
    params := SetIfSet(params, "q", q);
    SetAppends(params, "page", Digits(page));
    params := SetParam(params, "page", Digits(page));
    SetAppends(params, "pageSize", Digits(size));
    params := SetParam(params, "pageSize", Digits(size));
    TagsJoinSet(Get(filters, "tags"));
    if tags != [] {
      SetAppends(params, "tags", Join(tags, ','));
      params := SetParam(params, "tags", Join(tags, ','));
    }
    ghost var front := params;
    params := SetMetadata(params, Get(filters, "meta"), metadata);
    NoMetaName(metadata, "status");
    NoMetaName(metadata, "from");
    NoMetaName(metadata, "to");
    HasConcat(front, Map(MetaParam, metadata), "status");
    HasConcat(front, Map(MetaParam, metadata), "from");
    HasConcat(front, Map(MetaParam, metadata), "to");
  }

  lemma HasConcat(a: seq<(string, string)>, b: seq<(string, string)>, name: string)
    ensures Has(a + b, name) ==> Has(a, name) || Has(b, name)
  {
    if Has(a + b, name) {
      var i :| 0 <= i < |a + b| && (a + b)[i].0 == name;
      if i < |a| {
        assert a[i].0 == name;
      } else {
        assert b[i - |a|].0 == name;
      }
    }
  }

  method SetExact(path: string, params: seq<(string, string)>, e: Exact) returns (sent: Sent)
    requires !Has(params, "status") && !Has(params, "from") && !Has(params, "to")
    ensures sent == Sent(path, params + ExactParams(e))
  {
    var out := SetIfSet(params, "status", e.status);
    out := SetIfSet(out, "from", e.from);
    out := SetIfSet(out, "to", e.to);
    return Sent(path, out);
  }

  method SetMetadata(params: seq<(string, string)>, raw: string, metadata: seq<Pair>)
      returns (out: seq<(string, string)>)
    requires metadata == ParseMetadata(raw)
    requires forall i :: 0 <= i < |params| ==> params[i].0 in ["q", "page", "pageSize", "tags"]
    ensures out == params + Map(MetaParam, metadata)
  {
    hide ParseMetadata, SetParam, Has, MetaParam, IsCleanPairList;
    MetadataReparse(raw);
    out := params;
    var i := 0;
    while i < |metadata|
      invariant 0 <= i <= |metadata|
      invariant out == params + Map(MetaParam, metadata[..i])
    {
      var entry := MetaParam(metadata[i]);
      NameIsNew(params, metadata, i);
      SetAppends(out, entry.0, entry.1);
      out := SetParam(out, entry.0, entry.1);
      assert metadata[..i + 1] == metadata[..i] + [metadata[i]];
      i := i + 1;
    }
    assert metadata[..i] == metadata;
  }

  /** The name of a pair is neither one of the request's own nor that of an earlier pair. */
  lemma NameIsNew(params: seq<(string, string)>, metadata: seq<Pair>, i: nat)
    requires i < |metadata| && IsCleanPairList(metadata)
    requires forall j :: 0 <= j < |params| ==> params[j].0 in ["q", "page", "pageSize", "tags"]
    ensures !Has(params + Map(MetaParam, metadata[..i]), MetaParam(metadata[i]).0)
  {
    var out, name := params + Map(MetaParam, metadata[..i]), MetaParam(metadata[i]).0;
    forall j | 0 <= j < |out| ensures out[j].0 != name {
      if j < |params| {
        assert out[j] == params[j] && name[0] == 'm';
      } else {
        var other := metadata[j - |params|];
        assert out[j] == MetaParam(other);
        assert out[j].0[9..] == other.key && name[9..] == metadata[i].key;
      }
    }
  }

  lemma NoMetaName(metadata: seq<Pair>, name: string)
    requires name != "" && name[0] != 'm'
    ensures !Has(Map(MetaParam, metadata), name)
  {
    forall i | 0 <= i < |metadata| ensures Map(MetaParam, metadata)[i].0 != name {
      assert Map(MetaParam, metadata)[i].0[0] == 'm';
    }
  }

  lemma TagsJoinSet(raw: string)
    ensures Join(ParseTags(raw), ',') == "" <==> ParseTags(raw) == []
  {
    hide ParseTags, Join;
    TagsReparse(raw);
    ParsedTagsFacts(raw);
    JoinNone();
    ParseNone();
  }

  lemma JoinNone()
    ensures Join<char>([], ',') == ""
  {
  }

  lemma ParseNone()
    ensures ParseTags("") == []
  {
    assert Split("", ',') == [""];
    assert TrimAll([""]) == [""];
  }

  // ─── Reading it back ───

  /** The value under a name, if any. */
  function ValueOf(params: seq<(string, string)>, name: string): string {
    if params == [] then "" else if params[0].0 == name then params[0].1 else ValueOf(params[1..], name)
  }

  lemma {:induction false} ValueOfConcat(a: seq<(string, string)>, b: seq<(string, string)>, name: string)
    ensures ValueOf(a + b, name) == if Has(a, name) then ValueOf(a, name) else ValueOf(b, name)
  {
    if a == [] {
      assert a + b == b;
    } else {
      assert (a + b)[1..] == a[1..] + b;
      ValueOfConcat(a[1..], b, name);
      if a[0].0 != name {
        assert Has(a, name) <==> Has(a[1..], name) by {
          assert forall i :: 0 <= i < |a[1..]| ==> a[1..][i] == a[i + 1];
        }
      }
    }
  }

  lemma IfSetReads(name: string, value: string, rest: seq<(string, string)>, other: string)
    ensures ValueOf(IfSet(name, value) + rest, other)
         == if other == name && value != "" then value else ValueOf(rest, other)
  {
    ValueOfConcat(IfSet(name, value), rest, other);
    assert value != "" ==> IfSet(name, value)[0] == (name, value);
  }

  lemma ExactReads(e: Exact)
    ensures ValueOf(ExactParams(e), "status") == e.status
    ensures ValueOf(ExactParams(e), "from") == e.from
    ensures ValueOf(ExactParams(e), "to") == e.to
    ensures forall name :: name !in {"status", "from", "to"} ==> ValueOf(ExactParams(e), name) == ""
  {
    hide ValueOf, IfSet;
    var last := IfSet("to", e.to) + [];
    assert ExactParams(e) == IfSet("status", e.status) + (IfSet("from", e.from) + last);
    NoValue();
    forall name
      ensures ValueOf(ExactParams(e), name) ==
              if name == "status" then e.status else if name == "from" then e.from
              else if name == "to" then e.to else ""
    {
      IfSetReads("status", e.status, IfSet("from", e.from) + last, name);
      IfSetReads("from", e.from, last, name);
      IfSetReads("to", e.to, [], name);
    }
  }

  lemma NoValue()
    ensures forall name :: ValueOf([], name) == ""
  {
  }

  lemma PairReads(a: string, x: string, b: string, y: string, rest: seq<(string, string)>, name: string)
    requires a != b
    ensures ValueOf([(a, x), (b, y)] + rest, name)
         == if name == a then x else if name == b then y else ValueOf(rest, name)
  {
    var all := [(a, x), (b, y)] + rest;
    assert all[1..] == [(b, y)] + rest && all[1..][1..] == rest;
  }

  predicate IsMeta(e: (string, string)) {
    "metadata." <= e.0
  }

  lemma MetaOnly(params: seq<(string, string)>)
    requires forall e :: e in params ==> e.0 != "" && e.0[0] != 'm'
    ensures Filter(IsMeta, params) == []
  {
    forall e | e in params ensures !IsMeta(e) {
      assert "metadata."[0] == 'm';
    }
    FilterNone(IsMeta, params);
  }

  /** Everything a search holds can be read back from what is sent for it. */
  lemma SearchReads(r: Request)
    requires r.Search?
    ensures var params := SentOf(r).params;
            && ValueOf(params, "q") == r.q && ValueOf(params, "tags") == Join(r.tags, ',')
            && ValueOf(params, "page") == Digits(r.page) && ValueOf(params, "pageSize") == Digits(r.size)
            && ValueOf(params, "status") == r.exact.status && ValueOf(params, "from") == r.exact.from
            && ValueOf(params, "to") == r.exact.to
            && Filter(IsMeta, params) == Map(MetaParam, r.metadata)
  {
    hide ValueOf, Digits, Join, IfSet, ExactParams, Map, MetaParam;
    var numbers := [("page", Digits(r.page)), ("pageSize", Digits(r.size))];
    var metas, exact := Map(MetaParam, r.metadata), ExactParams(r.exact);
    var rest := IfSet("tags", Join(r.tags, ',')) + (metas + exact);
    var params := SentOf(r).params;
    assert params == IfSet("q", r.q) + (numbers + rest);
    ExactReads(r.exact);
    forall name | name in {"q", "tags", "page", "pageSize", "status", "from", "to"}
      ensures ValueOf(params, name) ==
              if name == "q" && r.q != "" then r.q
              else if name == "page" then Digits(r.page) else if name == "pageSize" then Digits(r.size)
              else if name == "tags" && Join(r.tags, ',') != "" then Join(r.tags, ',')
              else ValueOf(exact, name)
    {
      IfSetReads("q", r.q, numbers + rest, name);
      PairReads("page", Digits(r.page), "pageSize", Digits(r.size), rest, name);
      IfSetReads("tags", Join(r.tags, ','), metas + exact, name);
      ValueOfConcat(metas, exact, name);
      NoMetaName(r.metadata, name);
    }
    MetasRead(r);
  }

  lemma MetasRead(r: Request)
    requires r.Search?
    ensures Filter(IsMeta, SentOf(r).params) == Map(MetaParam, r.metadata)
  {
    hide Digits, Join, Filter, Map, MetaParam;
    var front := IfSet("q", r.q) + [("page", Digits(r.page)), ("pageSize", Digits(r.size))]
                 + IfSet("tags", Join(r.tags, ','));
    var metas, exact := Map(MetaParam, r.metadata), ExactParams(r.exact);
    assert SentOf(r).params == front + metas + exact;
    FilterConcat(IsMeta, front + metas, exact);
    FilterConcat(IsMeta, front, metas);
    MetaOnly(front);
    MetaOnly(exact);
    MetaAll(r.metadata);
    assert [] + metas + [] == metas;
  }

  lemma MetaAll(metadata: seq<Pair>)
    ensures Filter(IsMeta, Map(MetaParam, metadata)) == Map(MetaParam, metadata)
  {
    var metas := Map(MetaParam, metadata);
    forall e | e in metas ensures IsMeta(e) {
      var i :| 0 <= i < |metas| && metas[i] == e;
      assert "metadata." <= MetaParam(metadata[i]).0;
    }
    FilterAll(IsMeta, metas);
  }

  lemma ListReads(r: Request)
    requires r.List?
    ensures var params := SentOf(r).params;
            && ValueOf(params, "limit") == Digits(r.limit) && ValueOf(params, "offset") == Digits(r.offset)
            && ValueOf(params, "status") == r.exact.status && ValueOf(params, "from") == r.exact.from
            && ValueOf(params, "to") == r.exact.to
  {
    hide ValueOf, Digits, ExactParams;
    ExactReads(r.exact);
    forall name | name in {"limit", "offset", "status", "from", "to"}
      ensures ValueOf(SentOf(r).params, name) ==
              if name == "limit" then Digits(r.limit) else if name == "offset" then Digits(r.offset)
              else ValueOf(ExactParams(r.exact), name)
    {
      PairReads("limit", Digits(r.limit), "offset", Digits(r.offset), ExactParams(r.exact), name);
    }
  }

  /** So two requests that send the same are the same. */
  lemma SentDetermines(r: Request, s: Request)
    requires SentOf(r) == SentOf(s)
    requires r.Search? ==> IsCleanTagList(r.tags)
    requires s.Search? ==> IsCleanTagList(s.tags)
    ensures r == s
  {
    assert SentOf(r).path[1] == (if r.Search? then 's' else 'a');
    assert SentOf(s).path[1] == (if s.Search? then 's' else 'a');
    if r.Search? {
      SearchReads(r);
      SearchReads(s);
      hide SentOf, ValueOf, Digits, Join, Map, IsCleanTagList;
      DigitsRead(r.page);
      DigitsRead(s.page);
      DigitsRead(r.size);
      DigitsRead(s.size);
      CleanTagsRoundTrip(r.tags);
      CleanTagsRoundTrip(s.tags);
      MetaParamsDetermine(r.metadata, s.metadata);
    } else {
      ListReads(r);
      ListReads(s);
      hide SentOf, ValueOf, Digits;
      DigitsRead(r.limit);
      DigitsRead(s.limit);
      DigitsRead(r.offset);
      DigitsRead(s.offset);
    }
  }

  lemma MetaParamsDetermine(a: seq<Pair>, b: seq<Pair>)
    requires Map(MetaParam, a) == Map(MetaParam, b)
    ensures a == b
  {
    assert |a| == |Map(MetaParam, a)| == |b|;
    forall i | 0 <= i < |a| ensures a[i] == b[i] {
      assert MetaParam(a[i]) == Map(MetaParam, a)[i] == MetaParam(b[i]);
      assert MetaParam(a[i]).0[9..] == a[i].key && MetaParam(b[i]).0[9..] == b[i].key;
    }
  }

  /** Nothing the controls hold is dropped on the way and nothing else is sent: two
      states on a page boundary send the same request exactly when they agree on the
      trimmed search text, the parsed tags and pairs, the exact filters and the window. */
  lemma RequestCarriesExactly(a: View, b: View)
    requires a.pageSize >= 1 && b.pageSize >= 1
    requires a.offset % a.pageSize == 0 && b.offset % b.pageSize == 0
    ensures SentOf(RequestOf(a)) == SentOf(RequestOf(b)) <==>
            && Trim(Get(a.filters, "q")) == Trim(Get(b.filters, "q"))
            && ParseTags(Get(a.filters, "tags")) == ParseTags(Get(b.filters, "tags"))
            && ParseMetadata(Get(a.filters, "meta")) == ParseMetadata(Get(b.filters, "meta"))
            && (forall name :: name in ["status", "from", "to"] ==> Get(a.filters, name) == Get(b.filters, name))
            && a.offset == b.offset && a.pageSize == b.pageSize
  {
    hide ParseTags, ParseMetadata, Trim, Get, SentOf, IsCleanTagList;
    var j, k := a.offset / a.pageSize, b.offset / b.pageSize;
    assert a.offset == j * a.pageSize && b.offset == k * b.pageSize;
    var names := ["status", "from", "to"];
    assert names[0] in names && names[1] in names && names[2] in names;
    ParsedTagsAreClean(Get(a.filters, "tags"));
    ParsedTagsAreClean(Get(b.filters, "tags"));
    if SentOf(RequestOf(a)) == SentOf(RequestOf(b)) {
      SentDetermines(RequestOf(a), RequestOf(b));
    }
  }

  lemma ParsedTagsAreClean(raw: string)
    ensures IsCleanTagList(ParseTags(raw))
  {
    hide ParseTags;
    ParsedTagsFacts(raw);
  }

  /** Each control's value goes out under its own name: the search tier is asked exactly
      when there is a search text, a tag or a pair, and then gets those; both tiers get
      the three exact filters, and each its own two numbers. */
  lemma RequestSends(v: View)
    requires v.pageSize >= 1
    ensures var sent := SentOf(RequestOf(v));
            var text := Trim(Get(v.filters, "q")) != "" || ParseTags(Get(v.filters, "tags")) != []
                        || ParseMetadata(Get(v.filters, "meta")) != [];
            && sent.path == (if text then "/search" else "/assets")
            && ValueOf(sent.params, "status") == Get(v.filters, "status")
            && ValueOf(sent.params, "from") == Get(v.filters, "from")
            && ValueOf(sent.params, "to") == Get(v.filters, "to")
            && (text ==>
                  && ValueOf(sent.params, "q") == Trim(Get(v.filters, "q"))
                  && ValueOf(sent.params, "tags") == Join(ParseTags(Get(v.filters, "tags")), ',')
                  && Filter(IsMeta, sent.params) == Map(MetaParam, ParseMetadata(Get(v.filters, "meta")))
                  && Number(ValueOf(sent.params, "pageSize")) == v.pageSize
                  && Number(ValueOf(sent.params, "page")) == SearchPage(v.offset, v.pageSize))
            && (!text ==>
                  && Number(ValueOf(sent.params, "limit")) == v.pageSize
                  && Number(ValueOf(sent.params, "offset")) == v.offset)
  {
    hide ParseTags, ParseMetadata, Trim, Get, SentOf, ValueOf, Digits, Number, Join, Map, IsMeta, SearchPage;
    var r := RequestOf(v);
    SentInParts(r);
    if r.Search? {
      SearchReads(r);
      DigitsRead(r.page);
      DigitsRead(r.size);
    } else {
      ListReads(r);
      DigitsRead(r.limit);
      DigitsRead(r.offset);
    }
  }

  // ─── The rows, and the shared link ───

  /** The rows of the backend's ordered matches a request is answered with. */
  function RowsOf<T>(r: Request, matches: seq<T>): seq<T>
    requires r.Search? ==> r.page >= 1
  {
    match r
    case Search(_, page, size, _, _, _) => Window(matches, (page - 1) * size, size)
    case List(limit, offset, _) => Window(matches, offset, limit)
  }

  /** Whichever tier is asked, the rows are the window the store is on. */
  lemma RowsAreTheWindow<T>(v: View, matches: seq<T>)
    requires v.pageSize >= 1 && v.offset % v.pageSize == 0
    ensures RowsOf(RequestOf(v), matches) == Window(matches, v.offset, v.pageSize)
  {
    hide ParseTags, ParseMetadata, Trim, Window;
    var k := v.offset / v.pageSize;
    assert v.offset == k * v.pageSize;
    assert SearchPage(v.offset, v.pageSize) - 1 == k;
  }

  /** The same in every state a run of the store can reach. */
  lemma TiersAgreeOnTheWindow<T>(s: State, ops: seq<Op>, matches: seq<T>)
    requires OnPageBoundary(s)
    ensures var v := ViewOf(ApplyAll(s, ops));
            && v.pageSize == s.pageSize
            && RowsOf(RequestOf(v), matches) == Window(matches, v.offset, v.pageSize)
  {
    hide RequestOf, RowsOf, Window, ApplyAll;
    OffsetOverRuns(s, ops);
    RowsAreTheWindow(ViewOf(ApplyAll(s, ops)), matches);
  }

  /** A name in the link only if there is text for it. */
  function WithText(filters: map<string, string>, name: string, text: string): map<string, string> {
    if text == "" then filters - {name} else filters[name := text]
  }

  lemma GetWithText(filters: map<string, string>, name: string, text: string)
    ensures Get(WithText(filters, name, text), name) == text
    ensures forall other :: other != name ==> Get(WithText(filters, name, text), other) == Get(filters, other)
  {
  }

  /** The state a shared link opens: the structured filters as the joins of what
      they parsed to, everything else as it was, on the first page. */
  function Reopened(v: View): View {
    var tagsText := Join(ParseTags(Get(v.filters, "tags")), ',');
    var metaText := Join(Map(PrintPair, ParseMetadata(Get(v.filters, "meta"))), ',');
    v.(filters := WithText(WithText(v.filters, "tags", tagsText), "meta", metaText), offset := 0)
  }

  lemma ReopenedReads(v: View)
    ensures var f := Reopened(v).filters;
            && ParseTags(Get(f, "tags")) == ParseTags(Get(v.filters, "tags"))
            && ParseMetadata(Get(f, "meta")) == ParseMetadata(Get(v.filters, "meta"))
            && (forall name :: name != "tags" && name != "meta" ==> Get(f, name) == Get(v.filters, name))
  {
    hide ParseTags, ParseMetadata, Join, Map;
    var tags, meta := Get(v.filters, "tags"), Get(v.filters, "meta");
    TagsReparse(tags);
    MetadataReparse(meta);
    GetWithText(v.filters, "tags", Join(ParseTags(tags), ','));
    GetWithText(WithText(v.filters, "tags", Join(ParseTags(tags), ',')), "meta",
                Join(Map(PrintPair, ParseMetadata(meta)), ','));
  }

  /** A link reproduces the request it was made from exactly from the first page:
      the filters always survive, the page does not. */
  lemma LinkReproducesExactly(v: View)
    requires v.pageSize >= 1 && v.offset % v.pageSize == 0
    ensures RequestOf(Reopened(v)) == RequestOf(v.(offset := 0))
    ensures RequestOf(Reopened(v)) == RequestOf(v) <==> v.offset == 0
    ensures Get(Reopened(v).filters, "tags") == Join(ParseTags(Get(v.filters, "tags")), ',')
    ensures Get(Reopened(v).filters, "meta") == Join(Map(PrintPair, ParseMetadata(Get(v.filters, "meta"))), ',')
  {
    hide ParseTags, ParseMetadata, Trim, Join, Map;
    ReopenedReads(v);
    var k := v.offset / v.pageSize;
    assert v.offset == k * v.pageSize;
    assert SearchPage(0, v.pageSize) == 1;
  }
}
