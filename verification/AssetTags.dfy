/** The tag panel: what it accepts, how it addresses a tag, and which requests it
    ever sends. */
module AssetTags {
  import opened Sequences
  import opened Text
  import opened UriPath

  const TAG_MAX_LENGTH: nat := 128
  const TAGS_MAX_TOTAL: nat := 128

  predicate IsReservedTag(tag: string) {
    IsDots(tag)
  }

  datatype Reason = Empty | TooLong | Reserved | Duplicate | ListFull

  datatype Check = Accepted(value: string) | Refused(value: string, reason: Reason)

  function NormaliseTagInput(raw: string, current: seq<string>): Check {
    var value := Trim(raw);
    if Length16(value) < 1 then Refused(value, Empty)
    else if Length16(value) > TAG_MAX_LENGTH then Refused(value, TooLong)
    else if IsReservedTag(value) then Refused(value, Reserved)
    else if value in current then Refused(value, Duplicate)
    else if |current| >= TAGS_MAX_TOTAL then Refused(value, ListFull)
    else Accepted(value)
  }

  /** Exactly the trimmed, non-empty, addressable, new tags of bounded length are
      accepted while the list has room, as typed but for surrounding space; so an
      accepted tag keeps the list one of distinct tags within the bound. */
  lemma AcceptsExactly(raw: string, current: seq<string>)
    ensures NormaliseTagInput(raw, current).Accepted?
       <==> && Trim(raw) != "" && Length16(Trim(raw)) <= TAG_MAX_LENGTH && !IsReservedTag(Trim(raw))
            && Trim(raw) !in current && |current| < TAGS_MAX_TOTAL
    ensures NormaliseTagInput(raw, current).value == Trim(raw)
    ensures NormaliseTagInput(Trim(raw), current) == NormaliseTagInput(raw, current)
    ensures NormaliseTagInput(raw, current).Accepted? && Distinct(current) ==>
              Distinct(current + [Trim(raw)]) && |current + [Trim(raw)]| <= TAGS_MAX_TOTAL
  {
    TrimIdempotent(raw);
    assert Trim(raw) != "" ==> Length16(Trim(raw)) >= 1;
  }

  function TagsPath(assetId: string): string {
    "/assets/" + EncodeURIComponent(assetId) + "/tags"
  }

  function TagPath(assetId: string, tag: string): string {
    TagsPath(assetId) + "/" + EncodeURIComponent(tag)
  }

  // ─── The path of a tag ───

  function TagSegments(assetId: string, tag: string): seq<string> {
    ["assets", EncodeURIComponent(assetId), "tags", EncodeURIComponent(tag)]
  }

  lemma TagSegmentsFacts(assetId: string, tag: string)
    ensures AllSegments(TagSegments(assetId, tag))
    ensures PathOf(TagSegments(assetId, tag)) == TagPath(assetId, tag)
    ensures NoDots(TagSegments(assetId, tag)) <==> !IsReservedTag(assetId) && !IsReservedTag(tag)
  {
    hide PathOf, EncodeURIComponent;
    var id, t := EncodeURIComponent(assetId), EncodeURIComponent(tag);
    EncodedHasNoSlash(assetId);
    EncodedHasNoSlash(tag);
    EncodedDots(assetId);
    EncodedDots(tag);
    PathOfFour("assets", id, "tags", t);
    AssetPathJoins(id, "tags", "/tags");
    var segments := TagSegments(assetId, tag);
    assert segments == ["assets", id, "tags", t];
    assert NoDots(segments) <==>
           !IsDots(segments[0]) && !IsDots(segments[1]) && !IsDots(segments[2]) && !IsDots(segments[3]);
  }

  /** The path survives dot-segment removal exactly for the values that are not
      reserved, and always splits back, decoded, into the asset and the tag. */
  lemma TagPathAddresses(assetId: string, tag: string)
    ensures RemoveDots(TagPath(assetId, tag), "") == TagPath(assetId, tag)
       <==> !IsReservedTag(assetId) && !IsReservedTag(tag)
    ensures var parts := Split(TagPath(assetId, tag), '/');
            && |parts| == 5 && parts[0] == "" && parts[1] == "assets" && parts[3] == "tags"
            && DecodeURIComponent(parts[2]) == Some(assetId)
            && DecodeURIComponent(parts[4]) == Some(tag)
  {
    TagSegmentsFacts(assetId, tag);
    SurvivesExactly(TagSegments(assetId, tag));
    PathSplits(TagSegments(assetId, tag));
    DecodeEncoded(assetId);
    DecodeEncoded(tag);
  }

  /** Distinct tags, and distinct assets, have distinct paths. */
  lemma TagPathInjective(a: string, s: string, b: string, t: string)
    requires TagPath(a, s) == TagPath(b, t)
    ensures a == b && s == t
  {
    TagPathAddresses(a, s);
    TagPathAddresses(b, t);
  }

  /** Where a removal of a reserved tag would really go: the tag collection for
      `.`, the asset itself for `..`. */
  lemma ReservedTagLandsElsewhere(assetId: string)
    requires !IsReservedTag(assetId)
    ensures RemoveDots(TagPath(assetId, "."), "") == TagsPath(assetId) + "/"
    ensures RemoveDots(TagPath(assetId, ".."), "") == "/assets/" + EncodeURIComponent(assetId) + "/"
  {
    hide EncodeURIComponent, RemoveDots;
    DotTagGoes(assetId, ".");
    DotTagGoes(assetId, "..");
    DropsPart("/assets/" + EncodeURIComponent(assetId), "tags");
    assert "/assets/" + EncodeURIComponent(assetId) + "/" + "tags" == TagsPath(assetId) by {
      AssetPathJoins(EncodeURIComponent(assetId), "tags", "/tags");
    }
  }

  lemma DotTagGoes(assetId: string, dots: string)
    requires !IsReservedTag(assetId) && IsDots(dots)
    ensures RemoveDots(TagPath(assetId, dots), "")
         == (if dots == "." then TagsPath(assetId) else DropLastSegment(TagsPath(assetId))) + "/"
  {
    hide EncodeURIComponent, RemoveDots, DropLastSegment, PathOf;
    var id := EncodeURIComponent(assetId);
    EncodedDots(dots);
    EncodedDots(assetId);
    EncodedHasNoSlash(assetId);
    var three := ["assets", id, "tags"];
    var last := "/" + dots + "";
    PathOfThree("assets", id, "tags");
    AssetPathJoins(id, "tags", "/tags");
    assert PathOf(three) == TagsPath(assetId);
    assert TagPath(assetId, dots) == PathOf(three) + last;
    PrefixMoves(three, last, "");
    assert "" + PathOf(three) == PathOf(three);
    DotSegmentGoes(dots, "", PathOf(three));
  }

  // ─── The panel ───

  datatype Request =
    | Post(path: string, tags: seq<string>)
    | Delete(path: string)
    | Get(path: string)

  datatype Model = Model(assetId: string, current: seq<string>, canChange: bool, sent: seq<Request>)

  /** `Failed` is a mutation's failure; `reread` is what the re-read came to, for
      the statuses that trigger one. */
  datatype Event =
    | Add(raw: string)
    | Remove(tag: string)
    | Answered(tags: seq<string>)
    | Failed(status: int, reread: Option<seq<string>>)
    | Refresh(reread: Option<seq<string>>)

  function ReadTags(tags: seq<string>): seq<string> {
    Filter((t: string) => t != "", tags)
  }

  predicate Rereads(status: int) {
    status == 404 || status == 400 || status == 422
  }

  function Reread(m: Model, tags: Option<seq<string>>): Model {
    m.(sent := m.sent + [Get("/assets/" + EncodeURIComponent(m.assetId))],
       current := if tags.Some? then ReadTags(tags.value) else m.current)
  }

  function Step(m: Model, ev: Event): Model {
    match ev
    case Add(raw) =>
      var check := NormaliseTagInput(raw, m.current);
      if m.canChange && check.Accepted?
      then m.(sent := m.sent + [Post(TagsPath(m.assetId), [check.value])]) else m
    case Remove(tag) =>
      if tag != "" && m.canChange && !IsReservedTag(tag)
      then m.(sent := m.sent + [Delete(TagPath(m.assetId, tag))]) else m
    case Answered(tags) => m.(current := ReadTags(tags))
    case Failed(status, reread) =>
      var told := if Rereads(status) then Reread(m, reread) else m;
      if status == 403 then told.(canChange := false) else told
    case Refresh(reread) => Reread(m, reread)
  }

  function Run(m: Model, evs: seq<Event>): Model
    decreases |evs|
  {
    if evs == [] then m else Run(Step(m, evs[0]), evs[1..])
  }

  class TagsPanel {
    const assetId: string
    var current: seq<string>
    var canChange: bool
    ghost var sent: seq<Request>

    ghost function Observed(): Model
      reads this
    {
      Model(assetId, current, canChange, sent)
    }

    constructor (assetId: string, tags: seq<string>, canChange: bool)
      ensures Observed() == Model(assetId, ReadTags(tags), canChange, [])
    {
      this.assetId, this.current, this.canChange := assetId, ReadTags(tags), canChange;
      sent := [];
    }

    method Add(raw: string)
      modifies this
      ensures Observed() == Step(old(Observed()), Event.Add(raw))
    {
      if !canChange { return; }
      var check := NormaliseTagInput(raw, current);
      if check.Refused? { return; }
      sent := sent + [Post(TagsPath(assetId), [check.value])];
    }

    method Remove(tag: string)
      modifies this
      ensures Observed() == Step(old(Observed()), Event.Remove(tag))
    {
      if tag == "" { return; }
      if !canChange { return; }
      if IsReservedTag(tag) { return; }
      sent := sent + [Delete(TagPath(assetId, tag))];
    }

    method Adopt(tags: seq<string>)
      modifies this
      ensures Observed() == Step(old(Observed()), Answered(tags))
    {
      current := ReadTags(tags);
    }

    method Refresh(reread: Option<seq<string>>)
      modifies this
      ensures Observed() == Step(old(Observed()), Event.Refresh(reread))
    {
      sent := sent + [Get("/assets/" + EncodeURIComponent(assetId))];
      if reread.Some? {
        current := ReadTags(reread.value);
      }
    }

    method HandleFailure(status: int, reread: Option<seq<string>>)
      modifies this
      ensures Observed() == Step(old(Observed()), Failed(status, reread))
    {
      if Rereads(status) {
        Refresh(reread);
      }
      if status == 403 {
        canChange := false;
      }
    }
  }

  /** The request reaches the resource it was meant for, and carries a tag that
      can be removed again. */
  ghost predicate WellAddressed(assetId: string, r: Request) {
    match r
    case Post(path, tags) =>
      && RemoveDots(path, "") == path == TagsPath(assetId)
      && |tags| == 1 && !IsReservedTag(tags[0]) && tags[0] != "" && IsTrimmed(tags[0])
      && Length16(tags[0]) <= TAG_MAX_LENGTH
      && RemoveDots(TagPath(assetId, tags[0]), "") == TagPath(assetId, tags[0])
    case Delete(path) =>
      RemoveDots(path, "") == path
      && exists tag :: tag != "" && !IsReservedTag(tag) && path == TagPath(assetId, tag)
    case Get(path) => RemoveDots(path, "") == path
  }

  lemma TagsPathSurvives(assetId: string)
    requires !IsReservedTag(assetId)
    ensures RemoveDots(TagsPath(assetId), "") == TagsPath(assetId)
    ensures RemoveDots("/assets/" + EncodeURIComponent(assetId), "") == "/assets/" + EncodeURIComponent(assetId)
  {
    hide PathOf, EncodeURIComponent, RemoveDots;
    EncodedHasNoSlash(assetId);
    EncodedDots(assetId);
    var id := EncodeURIComponent(assetId);
    AssetPathJoins(id, "tags", "/tags");
    PathOfThree("assets", id, "tags");
    SurvivesExactly(["assets", id, "tags"]);
    PathOfTwo("assets", id);
    SurvivesExactly(["assets", id]);
  }

  lemma StepSendsWell(m: Model, ev: Event)
    requires !IsReservedTag(m.assetId)
    requires forall r :: r in m.sent ==> WellAddressed(m.assetId, r)
    ensures var n := Step(m, ev);
            n.assetId == m.assetId && forall r :: r in n.sent ==> WellAddressed(m.assetId, r)
  {
    TagsPathSurvives(m.assetId);
    match ev
    case Add(raw) =>
      TrimFacts(raw);
      AcceptsExactly(raw, m.current);
      TagPathAddresses(m.assetId, Trim(raw));
    case Remove(tag) =>
      TagPathAddresses(m.assetId, tag);
    case Answered(_) =>
    case Failed(_, _) =>
    case Refresh(_) =>
  }

  /** Over any run the panel sends no add and no remove for a reserved tag, and
      every request it sends reaches the resource it was meant for. */
  lemma {:induction false} EveryRequestReachesItsTag(m: Model, evs: seq<Event>)
    requires !IsReservedTag(m.assetId)
    requires forall r :: r in m.sent ==> WellAddressed(m.assetId, r)
    ensures forall r :: r in Run(m, evs).sent ==> WellAddressed(m.assetId, r)
    decreases |evs|
  {
    if evs != [] {
      StepSendsWell(m, evs[0]);
      EveryRequestReachesItsTag(Step(m, evs[0]), evs[1..]);
    }
  }

  /** What the server answers with is shown without its blank entries, in its order. */
  lemma ReadTagsExactly(tags: seq<string>, tag: string)
    ensures tag in ReadTags(tags) <==> tag in tags && tag != ""
    ensures ReadTags(tags + [tag]) == ReadTags(tags) + (if tag == "" then [] else [tag])
    ensures ReadTags([]) == []
  {
    FilterConcat((t: string) => t != "", tags, [tag]);
    assert [tag][1..] == [];
  }

  /** What each event sends and changes: an add of an acceptable tag one POST of it, a
      removal of a tag that can be addressed one DELETE, while the controls are live; a
      failure with 404, 400 or 422 one re-read, and with 403 the end of the controls. */
  lemma StepsExactly(m: Model, ev: Event)
    ensures var n := Step(m, ev);
            var asset := Get("/assets/" + EncodeURIComponent(m.assetId));
            n.sent == m.sent +
              match ev
              case Add(raw) =>
                if m.canChange && Trim(raw) != "" && Length16(Trim(raw)) <= 128 && Trim(raw) !in {".", ".."}
                   && Trim(raw) !in m.current && |m.current| < 128
                then [Post(TagsPath(m.assetId), [Trim(raw)])] else []
              case Remove(tag) =>
                if m.canChange && tag !in {"", ".", ".."} then [Delete(TagPath(m.assetId, tag))] else []
              case Answered(_) => []
              case Failed(status, _) => if status in {400, 404, 422} then [asset] else []
              case Refresh(_) => [asset]
    ensures Step(m, ev).canChange == (m.canChange && !(ev.Failed? && ev.status == 403))
  {
    hide EncodeURIComponent, TagPath, TagsPath, ReadTags, Trim;
    if ev.Add? {
      AcceptsExactly(ev.raw, m.current);
    }
    assert m.sent + [] == m.sent;
  }

  /** The list the server last answered with, in a run that began with `now`. */
  function LastAnswer(now: seq<string>, evs: seq<Event>): seq<string>
    decreases |evs|
  {
    if evs == [] then now
    else
      var n := |evs| - 1;
      match evs[n]
      case Answered(tags) => ReadTags(tags)
      case Refresh(Some(tags)) => ReadTags(tags)
      case Failed(status, Some(tags)) =>
        if Rereads(status) then ReadTags(tags) else LastAnswer(now, evs[..n])
      case _ => LastAnswer(now, evs[..n])
  }

  lemma {:induction false} RunSnoc(m: Model, evs: seq<Event>, ev: Event)
    ensures Run(m, evs + [ev]) == Step(Run(m, evs), ev)
    decreases |evs|
  {
    if evs == [] {
      assert [ev][1..] == [];
      assert [] + [ev] == [ev];
    } else {
      assert (evs + [ev])[0] == evs[0] && (evs + [ev])[1..] == evs[1..] + [ev];
      RunSnoc(Step(m, evs[0]), evs[1..], ev);
    }
  }

  /** The list is never edited locally: over any run it is the server's last answer. */
  lemma {:induction false} ListIsTheLastAnswer(m: Model, evs: seq<Event>)
    ensures Run(m, evs).current == LastAnswer(m.current, evs)
    decreases |evs|
  {
    hide NormaliseTagInput, TagPath, TagsPath, EncodeURIComponent, ReadTags;
    if evs != [] {
      var n := |evs| - 1;
      assert evs == evs[..n] + [evs[n]];
      RunSnoc(m, evs[..n], evs[n]);
      ListIsTheLastAnswer(m, evs[..n]);
    }
  }

  function Mutations(sent: seq<Request>): seq<Request> {
    Filter((r: Request) => !r.Get?, sent)
  }

  /** Once a 403 has retired the controls nothing brings them back: whatever is
      clicked or answered afterwards, no further add or remove is sent. */
  lemma {:induction false} ForbiddenIsForever(m: Model, evs: seq<Event>)
    requires !m.canChange
    ensures !Run(m, evs).canChange
    ensures Mutations(Run(m, evs).sent) == Mutations(m.sent)
    decreases |evs|
  {
    if evs != [] {
      RetiredStep(m, evs[0]);
      ForbiddenIsForever(Step(m, evs[0]), evs[1..]);
    }
  }

  lemma RetiredStep(m: Model, ev: Event)
    requires !m.canChange
    ensures !Step(m, ev).canChange
    ensures Mutations(Step(m, ev).sent) == Mutations(m.sent)
  {
    hide NormaliseTagInput, TagPath, EncodeURIComponent;
    var get := Get("/assets/" + EncodeURIComponent(m.assetId));
    var mutates := (r: Request) => !r.Get?;
    FilterConcat(mutates, m.sent, [get]);
    assert Filter(mutates, [get]) == [];
    assert Mutations(m.sent) + [] == Mutations(m.sent);
  }

  lemma RetiredAfter403(m: Model, before: seq<Event>, reread: Option<seq<string>>, after: seq<Event>)
    ensures var n := Step(Run(m, before), Failed(403, reread));
            Mutations(Run(n, after).sent) == Mutations(n.sent) && !Run(n, after).canChange
  {
    ForbiddenIsForever(Step(Run(m, before), Failed(403, reread)), after);
  }
}
