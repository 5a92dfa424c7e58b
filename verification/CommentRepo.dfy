/** The in-memory comment repository: comments kept by id in insertion order,
    listed per asset by creation time and id, and handed out as copies. */
module CommentRepo {
  import opened Sequences
  import opened Ordering

  datatype Record = Record(id: string, assetId: string, body: string, createdAt: string)

  /** The listing's comparator: creation time first, id to break ties. */
  predicate ListedBefore(a: Record, b: Record) {
    if a.createdAt == b.createdAt then LexLe(a.id, b.id) else LexLe(a.createdAt, b.createdAt)
  }

  lemma ListedBeforePreorder()
    ensures TotalPreorder(ListedBefore)
  {
    forall a: Record, b: Record ensures ListedBefore(a, b) || ListedBefore(b, a) {
      LexTotal(a.createdAt, b.createdAt);
      LexTotal(a.id, b.id);
    }
    forall a: Record, b: Record, c: Record | ListedBefore(a, b) && ListedBefore(b, c) ensures ListedBefore(a, c) {
      if a.createdAt == b.createdAt == c.createdAt {
        LexTransitive(a.id, b.id, c.id);
      } else {
        LexTotal(a.createdAt, b.createdAt);
        LexTotal(b.createdAt, c.createdAt);
        LexTransitive(a.createdAt, b.createdAt, c.createdAt);
        if a.createdAt == c.createdAt {
          LexAntisymmetric(a.createdAt, b.createdAt);
        }
      }
    }
  }

  function OfAsset(contents: seq<Record>, assetId: string): seq<Record> {
    Filter((r: Record) => r.assetId == assetId, contents)
  }

  function Listing(contents: seq<Record>, assetId: string): seq<Record> {
    StableSort(ListedBefore, OfAsset(contents, assetId))
  }

  // ─── The repository itself ───

  class Comment {
    var id: string
    var assetId: string
    var body: string
    var createdAt: string

    function Value(): Record
      reads this
    {
      Record(id, assetId, body, createdAt)
    }

    constructor (r: Record)
      ensures Value() == r
    {
      id, assetId, body, createdAt := r.id, r.assetId, r.body, r.createdAt;
    }
  }

  function Values(comments: seq<Comment>): (r: seq<Record>)
    reads comments
    ensures |r| == |comments| && forall i :: 0 <= i < |comments| ==> r[i] == comments[i].Value()
  {
    if comments == [] then [] else [comments[0].Value()] + Values(comments[1..])
  }

  lemma {:induction false} ValuesAppend(comments: seq<Comment>, c: Comment)
    ensures Values(comments + [c]) == Values(comments) + [c.Value()]
  {
    if comments != [] {
      assert (comments + [c])[1..] == comments[1..] + [c];
      ValuesAppend(comments[1..], c);
    } else {
      assert [c][1..] == [];
    }
  }

  class InMemoryCommentRepository {
    var stored: seq<Comment>   // the map's values, in insertion order
    ghost var ids: set<string>

    ghost predicate Valid()
      reads this, stored
    {
      forall i :: 0 <= i < |stored| ==> stored[i].id in ids
    }

    ghost function Contents(): seq<Record>
      reads this, stored
    {
      Values(stored)
    }

    constructor ()
      ensures Valid() && Contents() == [] && stored == [] && ids == {}
    {
      stored, ids := [], {};
    }

    /** `id` and `now` are the minted ULID and the clock. */
    method Create(id: string, now: string, assetId: string, body: string) returns (copy: Comment)
      requires Valid() && id !in ids
      modifies this
      ensures Valid() && ids == old(ids) + {id}
      ensures |stored| == |old(stored)| + 1 && stored[..|old(stored)|] == old(stored) && fresh(stored[|old(stored)|])
      ensures Contents() == old(Contents()) + [Record(id, assetId, body, now)]
      ensures fresh(copy) && copy !in stored && copy.Value() == Record(id, assetId, body, now)
    {
      hide Values;
      var comment := new Comment(Record(id, assetId, body, now));
      ValuesAppend(stored, comment);
      stored := stored + [comment];
      ids := ids + {id};
      copy := new Comment(comment.Value());
    }

    method Pick(assetId: string) returns (picked: seq<Record>)
      ensures picked == OfAsset(Contents(), assetId)
    {
      ghost var contents := Contents();
      picked := [];
      var i := 0;
      while i < |stored|
        invariant 0 <= i <= |stored|
        invariant picked == OfAsset(contents[..i], assetId)
      {
        PickStep(contents, i, assetId);
        if stored[i].assetId == assetId {
          picked := picked + [stored[i].Value()];
        }
        i := i + 1;
      }
      assert contents[..i] == contents;
    }

    /** The asset's comments, oldest first, as copies nobody else holds. */
    method ListByAsset(assetId: string) returns (list: seq<Comment>)
      requires Valid()
      ensures fresh(list)
      ensures Values(list) == Listing(Contents(), assetId)
    {
      var picked := Pick(assetId);
      var sorted := StableSort(ListedBefore, picked);
      list := Clones(sorted);
    }
  }

  lemma PickStep(contents: seq<Record>, i: nat, assetId: string)
    requires i < |contents|
    ensures OfAsset(contents[..i + 1], assetId)
         == OfAsset(contents[..i], assetId) + (if contents[i].assetId == assetId then [contents[i]] else [])
  {
    assert contents[..i + 1] == contents[..i] + [contents[i]];
    FilterConcat((r: Record) => r.assetId == assetId, contents[..i], [contents[i]]);
  }

  method Clones(records: seq<Record>) returns (list: seq<Comment>)
    ensures fresh(list)
    ensures Values(list) == records
  {
    list := [];
    var i := 0;
    while i < |records|
      invariant 0 <= i <= |records| && |list| == i
      invariant fresh(list)
      invariant forall j :: 0 <= j < i ==> list[j].Value() == records[j]
    {
      var copy := new Comment(records[i]);
      list := list + [copy];
      i := i + 1;
    }
    assert Values(list) == records;
  }

  /** Overwriting a returned copy does not change any later listing. */
  method CopiesAreDetached(repo: InMemoryCommentRepository, assetId: string, other: string, n: nat, scribble: Record)
      returns (first: seq<Comment>, later: seq<Comment>)
    requires repo.Valid()
    ensures repo.Valid() && repo.Contents() == old(repo.Contents())
    ensures Values(later) == Listing(repo.Contents(), other)
    ensures n < |first| ==> first[n].Value() == scribble
  {
    first := repo.ListByAsset(assetId);
    if n < |first| {
      first[n].id, first[n].assetId := scribble.id, scribble.assetId;
      first[n].body, first[n].createdAt := scribble.body, scribble.createdAt;
    }
    later := repo.ListByAsset(other);
  }

  // ─── The listing and the order of insertion ───

  /** What is listed: exactly the asset's comments, as often as they were created, by
      creation time and then by id. */
  lemma ListingExactly(contents: seq<Record>, assetId: string)
    ensures var r := Listing(contents, assetId);
            && (forall c :: c in r <==> c in contents && c.assetId == assetId)
            && (forall c: Record :: c.assetId == assetId ==> multiset(r)[c] == multiset(contents)[c])
            && (forall i, j :: 0 <= i < j < |r| ==>
                  && LexLe(r[i].createdAt, r[j].createdAt)
                  && (r[i].createdAt == r[j].createdAt ==> LexLe(r[i].id, r[j].id)))
  {
    hide LexLe;
    ListedBeforePreorder();
    StableSortFacts(ListedBefore, OfAsset(contents, assetId));
    var r, mine := Listing(contents, assetId), OfAsset(contents, assetId);
    assert forall c :: c in r <==> c in multiset(r);
    assert forall c :: c in mine <==> c in multiset(mine);
    forall c: Record | c.assetId == assetId ensures multiset(mine)[c] == multiset(contents)[c] {
      CountKept(contents, (x: Record) => x.assetId == assetId, c);
    }
    forall i, j | 0 <= i < j < |r| ensures LexLe(r[i].createdAt, r[j].createdAt) {
      assert ListedBefore(r[i], r[j]);
      LexTotal(r[i].createdAt, r[i].createdAt);
    }
  }

  lemma {:induction false} CountKept(s: seq<Record>, keep: Record -> bool, c: Record)
    requires keep(c)
    ensures multiset(Filter(keep, s))[c] == multiset(s)[c]
  {
    if s != [] {
      hide Filter;
      CountKept(s[1..], keep, c);
      assert s == [s[0]] + s[1..];
      FilterCons(keep, s[0], s[1..]);
      assert multiset(s) == multiset{s[0]} + multiset(s[1..]);
    } else {
      FilterAll(keep, s);
    }
  }

  /** The listing is the asset's comments in the order they were created exactly
      when those come in comparator order. */
  lemma InsertionOrderExactly(contents: seq<Record>, assetId: string)
    ensures Listing(contents, assetId) == OfAsset(contents, assetId)
       <==> Sorted(ListedBefore, OfAsset(contents, assetId))
  {
    ListedBeforePreorder();
    SortFixesExactlySorted(ListedBefore, OfAsset(contents, assetId));
  }

  /** The clock never ran backwards and every id was above the ones before it. */
  ghost predicate Chronological(contents: seq<Record>) {
    forall i, j :: 0 <= i < j < |contents| ==>
      LexLe(contents[i].createdAt, contents[j].createdAt) && LexLt(contents[i].id, contents[j].id)
  }

  lemma ChronologicalIsSorted(contents: seq<Record>)
    requires Chronological(contents)
    ensures Sorted(ListedBefore, contents)
  {
  }

  lemma {:induction false} SortedFilter(contents: seq<Record>, assetId: string)
    requires Sorted(ListedBefore, contents)
    ensures Sorted(ListedBefore, OfAsset(contents, assetId))
  {
    if contents != [] {
      SortedFilter(contents[1..], assetId);
      var rest := OfAsset(contents[1..], assetId);
      forall i | 0 <= i < |rest| ensures ListedBefore(contents[0], rest[i]) {
        assert rest[i] in contents[1..];
      }
    }
  }

  /** With such a clock and such ids, listing an asset gives its comments in the
      order they were created. */
  lemma ListingIsInsertionOrder(contents: seq<Record>, assetId: string)
    requires Chronological(contents)
    ensures Listing(contents, assetId) == OfAsset(contents, assetId)
  {
    ChronologicalIsSorted(contents);
    SortedFilter(contents, assetId);
    InsertionOrderExactly(contents, assetId);
  }

  /** Each create then appends one entry to its own asset's listing, and in every
      case leaves every other asset's listing alone. */
  lemma CreateAppends(contents: seq<Record>, c: Record, other: string)
    requires other != c.assetId
    ensures Listing(contents + [c], other) == Listing(contents, other)
    ensures Chronological(contents + [c]) ==>
              Listing(contents + [c], c.assetId) == Listing(contents, c.assetId) + [c]
  {
    FilterConcat((r: Record) => r.assetId == other, contents, [c]);
    FilterConcat((r: Record) => r.assetId == c.assetId, contents, [c]);
    assert Filter((r: Record) => r.assetId == other, [c]) == [];
    assert OfAsset(contents, other) + [] == OfAsset(contents, other);
    if Chronological(contents + [c]) {
      assert forall i :: 0 <= i < |contents| ==> (contents + [c])[i] == contents[i];
      assert Chronological(contents);
      ListingIsInsertionOrder(contents + [c], c.assetId);
      ListingIsInsertionOrder(contents, c.assetId);
    }
  }

  /** Whatever the clock does, a create adds exactly its own comment to its
      asset's listing, and what was listed keeps its relative order. */
  lemma CreateAddsOne(contents: seq<Record>, c: Record)
    ensures multiset(Listing(contents + [c], c.assetId)) == multiset(Listing(contents, c.assetId)) + multiset{c}
    ensures c !in contents ==>
              Filter((r: Record) => r != c, Listing(contents + [c], c.assetId)) == Listing(contents, c.assetId)
  {
    var mine := OfAsset(contents, c.assetId);
    FilterConcat((r: Record) => r.assetId == c.assetId, contents, [c]);
    assert OfAsset(contents + [c], c.assetId) == mine + [c];
    ListedBeforePreorder();
    StableSortFacts(ListedBefore, mine);
    StableSortFacts(ListedBefore, mine + [c]);
    if c !in contents {
      var keep := (r: Record) => r != c;
      SortFilterCommute(ListedBefore, keep, mine + [c]);
      FilterConcat(keep, mine, [c]);
      FilterAll(keep, mine);
      assert Filter(keep, [c]) == [];
      assert mine + [] == mine;
    }
  }
}
