/** The comment drafts: a map bounded by dropping the least recently written entry. */
module CommentDrafts {
  import opened Sequences

  const DRAFTS_MAX: nat := 20

  datatype Draft = Draft(text: string, selStart: Option<nat>, selEnd: Option<nat>, focused: bool)

  const NO_DRAFT: Draft := Draft("", None, None, false)

  /** An entry of the recency list, oldest write first. */
  datatype Entry = Entry(key: string, draft: Draft)

  // ─── The recency list ───

  predicate IsKept(d: Draft) {
    d.text != "" || d.focused
  }

  function Without(l: seq<Entry>, key: string): seq<Entry> {
    Filter((e: Entry) => e.key != key, l)
  }

  function Newest(l: seq<Entry>, n: nat): seq<Entry> {
    if |l| <= n then l else l[|l| - n..]
  }

  function Touched(l: seq<Entry>, key: string, d: Draft): seq<Entry> {
    if IsKept(d) then Without(l, key) + [Entry(key, d)] else Without(l, key)
  }

  /** One write: the entry moves to the end, an empty unfocused draft is dropped,
      and only the newest entries stay. */
  function Write(l: seq<Entry>, key: string, d: Draft): seq<Entry> {
    Newest(Touched(l, key, d), DRAFTS_MAX)
  }

  function Lookup(l: seq<Entry>, key: string): Draft {
    if l == [] then NO_DRAFT else if l[0].key == key then l[0].draft else Lookup(l[1..], key)
  }

  /** Writes, and the clear that follows an accepted comment. */
  datatype Event = SetDraft(key: string, draft: Draft) | Accepted(key: string)

  function Step(l: seq<Entry>, ev: Event): seq<Entry> {
    match ev
    case SetDraft(key, d) => Write(l, key, d)
    case Accepted(key) => Without(l, key)
  }

  function Run(l: seq<Entry>, evs: seq<Event>): seq<Entry>
    decreases |evs|
  {
    if evs == [] then l else Run(Step(l, evs[0]), evs[1..])
  }

  ghost predicate DistinctKeys(l: seq<Entry>) {
    forall i, j :: 0 <= i < j < |l| ==> l[i].key != l[j].key
  }

  function InOrder(keys: seq<string>, records: map<string, Draft>): (l: seq<Entry>)
    requires forall i :: 0 <= i < |keys| ==> keys[i] in records
    ensures |l| == |keys|
    ensures forall i :: 0 <= i < |keys| ==> l[i] == Entry(keys[i], records[keys[i]])
  {
    if keys == [] then [] else [Entry(keys[0], records[keys[0]])] + InOrder(keys[1..], records)
  }

  // ─── The map itself ───

  /** A JavaScript `Map` of drafts: iteration goes by first insertion. */
  class DraftMap {
    var keys: seq<string>
    var records: map<string, Draft>

    ghost predicate Valid()
      reads this
    {
      && Distinct(keys)
      && (forall k :: k in keys <==> k in records)
    }

    /** The entries in iteration order. */
    ghost function Entries(): (l: seq<Entry>)
      requires Valid()
      reads this
      ensures |l| == |keys| && DistinctKeys(l)
    {
      InOrder(keys, records)
    }

    constructor ()
      ensures Valid() && Entries() == []
    {
      keys, records := [], map[];
    }

    method DeleteKey(key: string)
      requires Valid()
      modifies this
      ensures Valid() && Entries() == Without(old(Entries()), key) && key !in records
    {
      ghost var before := Entries();
      KeysWithout(before, keys, key);
      FilterDistinct((k: string) => k != key, keys);
      keys := Filter((k: string) => k != key, keys);
      records := records - {key};
      assert forall k :: k in keys <==> k in records;
      EntriesByIndex(Without(before, key), Entries());
    }

    /** `set` of a key that is not there. */
    method InsertNew(key: string, d: Draft)
      requires Valid() && key !in records
      modifies this
      ensures Valid() && Entries() == old(Entries()) + [Entry(key, d)]
    {
      assert key !in keys;
      keys := keys + [key];
      records := records[key := d];
      assert forall i :: 0 <= i < |keys| - 1 ==> keys[i] != key;
    }

    /** Drop the oldest entries until the map is within its bound. */
    method Evict()
      requires Valid()
      modifies this
      ensures Valid() && Entries() == Newest(old(Entries()), DRAFTS_MAX)
    {
      hide Without, InOrder;
      ghost var full := Entries();
      while |keys| > DRAFTS_MAX
        invariant Valid() && |keys| <= |full|
        invariant Entries() == full[|full| - |keys|..]
        invariant |full| > DRAFTS_MAX ==> |keys| >= DRAFTS_MAX
        invariant |full| <= DRAFTS_MAX ==> |keys| == |full|
        decreases |keys|
      {
        var oldest := keys[0];
        ghost var l := Entries();
        assert l[0] == Entry(oldest, records[oldest]);
        DropsHead(l);
        DeleteKey(oldest);
        assert Entries() == l[1..];
      }
    }

    method SetDraft(key: string, d: Draft)
      requires Valid()
      requires |keys| <= DRAFTS_MAX
      modifies this
      ensures Valid() && |keys| <= DRAFTS_MAX
      ensures Entries() == Write(old(Entries()), key, d)
    {
      hide InOrder, Without;
      if d.text == "" && !d.focused {
        DeleteKey(key);
        WithoutShrinks(old(Entries()), key);
        return;
      }
      DeleteKey(key);
      InsertNew(key, d);
      Evict();
    }

    method DeleteDraft(key: string)
      requires Valid()
      modifies this
      ensures Valid() && Entries() == Without(old(Entries()), key)
    {
      DeleteKey(key);
    }

    method PeekDraft(key: string) returns (text: string)
      requires Valid()
      ensures text == Lookup(Entries(), key).text
    {
      LookupByKey(Entries(), key);
      if key in records {
        assert key in keys;
        ghost var i :| 0 <= i < |keys| && keys[i] == key;
        assert Entries()[i] == Entry(key, records[key]);
        text := records[key].text;
      } else {
        assert forall i :: 0 <= i < |keys| ==> keys[i] != key;
        text := "";
      }
    }

    method Replay(evs: seq<Event>)
      requires Valid() && |keys| <= DRAFTS_MAX
      modifies this
      ensures Valid() && |keys| <= DRAFTS_MAX
      ensures Entries() == Run(old(Entries()), evs)
    {
      var i := 0;
      while i < |evs|
        invariant 0 <= i <= |evs|
        invariant Valid() && |keys| <= DRAFTS_MAX
        invariant Run(Entries(), evs[i..]) == Run(old(Entries()), evs)
      {
        assert evs[i..][0] == evs[i] && evs[i..][1..] == evs[i + 1..];
        match evs[i] {
          case SetDraft(key, d) => SetDraft(key, d);
          case Accepted(key) => DeleteDraft(key);
        }
        i := i + 1;
      }
    }
  }

  lemma WithoutShrinks(l: seq<Entry>, key: string)
    ensures |Without(l, key)| <= |l|
  {
  }

  lemma EntriesByIndex(a: seq<Entry>, b: seq<Entry>)
    requires |a| == |b| && forall i :: 0 <= i < |a| ==> a[i] == b[i]
    ensures a == b
  {
  }

  lemma {:induction false} KeysWithout(l: seq<Entry>, keys: seq<string>, key: string)
    requires |l| == |keys| && forall i :: 0 <= i < |l| ==> l[i].key == keys[i]
    ensures var ks := Filter((k: string) => k != key, keys);
            && |Without(l, key)| == |ks|
            && forall i :: 0 <= i < |ks| ==> Without(l, key)[i].key == ks[i] && Without(l, key)[i] in l
  {
    if l != [] {
      KeysWithout(l[1..], keys[1..], key);
    }
  }

  lemma DropsHead(l: seq<Entry>)
    requires l != [] && DistinctKeys(l)
    ensures Without(l, l[0].key) == l[1..]
  {
    assert forall e :: e in l[1..] ==> e.key != l[0].key;
    FilterAll((e: Entry) => e.key != l[0].key, l[1..]);
    assert [] + l[1..] == l[1..];
  }

  lemma {:induction false} LookupByKey(l: seq<Entry>, key: string)
    requires DistinctKeys(l)
    ensures forall i :: 0 <= i < |l| && l[i].key == key ==> Lookup(l, key) == l[i].draft
    ensures (forall i :: 0 <= i < |l| ==> l[i].key != key) ==> Lookup(l, key) == NO_DRAFT
  {
    if l != [] {
      LookupByKey(l[1..], key);
    }
  }

  // ─── What survives ───

  predicate Has(l: seq<Entry>, key: string) {
    exists i :: 0 <= i < |l| && l[i].key == key
  }

  lemma {:induction false} WithoutFacts(l: seq<Entry>, key: string)
    requires DistinctKeys(l)
    ensures DistinctKeys(Without(l, key)) && !Has(Without(l, key), key)
    ensures forall e :: e in Without(l, key) <==> e in l && e.key != key
  {
    if l != [] {
      WithoutFacts(l[1..], key);
      assert forall e :: e in l <==> e == l[0] || e in l[1..];
    }
  }

  ghost predicate Bounded(l: seq<Entry>) {
    |l| <= DRAFTS_MAX && DistinctKeys(l) && forall e :: e in l ==> IsKept(e.draft)
  }

  lemma StepKeepsBounded(l: seq<Entry>, ev: Event)
    requires DistinctKeys(l) && forall e :: e in l ==> IsKept(e.draft)
    requires ev.Accepted? ==> |l| <= DRAFTS_MAX
    ensures Bounded(Step(l, ev))
  {
    hide Without;
    var w := Without(l, ev.key);
    WithoutShrinks(l, ev.key);
    WithoutFacts(l, ev.key);
    assert forall e :: e in w ==> IsKept(e.draft);
    if ev.SetDraft? && IsKept(ev.draft) {
      AppendedIsDistinct(w, Entry(ev.key, ev.draft));
    }
  }

  lemma AppendedIsDistinct(w: seq<Entry>, e: Entry)
    requires DistinctKeys(w) && !Has(w, e.key)
    ensures DistinctKeys(w + [e])
  {
  }

  /** After any writes and clears there are at most twenty entries, one per key,
      and none of them is an empty unfocused draft. */
  lemma {:induction false} AlwaysBounded(l: seq<Entry>, evs: seq<Event>)
    requires Bounded(l)
    ensures Bounded(Run(l, evs))
    decreases |evs|
  {
    if evs != [] {
      StepKeepsBounded(l, evs[0]);
      AlwaysBounded(Step(l, evs[0]), evs[1..]);
    }
  }

  /** The key just written survives, as the last entry, with what was written. */
  lemma JustWrittenSurvives(l: seq<Entry>, key: string, d: Draft)
    requires DistinctKeys(l) && IsKept(d)
    ensures var w := Write(l, key, d);
            w != [] && w[|w| - 1] == Entry(key, d) && Lookup(w, key) == d
  {
    WithoutFacts(l, key);
    var w := Write(l, key, d);
    var t := Touched(l, key, d);
    assert DistinctKeys(t) by {
      assert forall i :: 0 <= i < |Without(l, key)| ==> Without(l, key)[i] in Without(l, key);
    }
    LookupByKey(w, key);
  }

  /** A draft without text and without the focus leaves nothing behind; one with either
      is kept. */
  lemma WriteExactly(l: seq<Entry>, key: string, d: Draft)
    requires DistinctKeys(l)
    ensures d.text == "" && !d.focused ==> !Has(Write(l, key, d), key) && Lookup(Write(l, key, d), key) == NO_DRAFT
    ensures d.text != "" || d.focused ==> Lookup(Write(l, key, d), key) == d
  {
    if IsKept(d) {
      JustWrittenSurvives(l, key, d);
    } else {
      hide Without, Lookup;
      WithoutFacts(l, key);
      LookupByKey(Write(l, key, d), key);
    }
  }

  /** Every other draft that is kept reads as before, and none goes while there is room. */
  lemma WriteLeavesOthers(l: seq<Entry>, key: string, d: Draft, other: string)
    requires Bounded(l) && other != key
    ensures Has(Write(l, key, d), other) ==> Lookup(Write(l, key, d), other) == Lookup(l, other)
    ensures |Without(l, key)| < DRAFTS_MAX ==> (Has(Write(l, key, d), other) <==> Has(l, other))
  {
    hide Without, Lookup, Newest;
    var w, n := Without(l, key), Write(l, key, d);
    WithoutFacts(l, key);
    StepKeepsBounded(l, SetDraft(key, d));
    WrittenFrom(w, key, d, n);
    if Has(n, other) {
      var i :| 0 <= i < |n| && n[i].key == other;
      var j :| 0 <= j < |l| && l[j] == n[i];
      LookupByKey(l, other);
      LookupByKey(n, other);
    }
    if |w| < DRAFTS_MAX && Has(l, other) {
      var j :| 0 <= j < |l| && l[j].key == other;
      assert l[j] in n;
    }
  }

  /** What is left after a write: the other entries and the new one, all while there is room. */
  lemma WrittenFrom(w: seq<Entry>, key: string, d: Draft, n: seq<Entry>)
    requires n == Newest(if IsKept(d) then w + [Entry(key, d)] else w, DRAFTS_MAX)
    ensures forall e :: e in n ==> e in w || e == Entry(key, d)
    ensures |w| < DRAFTS_MAX ==> forall e :: e in w ==> e in n
  {
  }

  /** The map without a bound. */
  function Unbounded(l: seq<Entry>, evs: seq<Event>): seq<Entry>
    decreases |evs|
  {
    if evs == [] then l
    else
      var next := match evs[0]
                  case SetDraft(key, d) => Touched(l, key, d)
                  case Accepted(key) => Without(l, key);
      Unbounded(next, evs[1..])
  }

  predicate IsSuffix(s: seq<Entry>, l: seq<Entry>) {
    |s| <= |l| && s == l[|l| - |s|..]
  }

  lemma WithoutSuffix(s: seq<Entry>, l: seq<Entry>, key: string)
    requires IsSuffix(s, l)
    ensures IsSuffix(Without(s, key), Without(l, key))
  {
    var front := l[..|l| - |s|];
    assert l == front + s;
    FilterConcat((e: Entry) => e.key != key, front, s);
  }

  /** The bounded map is always the most recently written end of the unbounded
      one: what it drops is older than everything it keeps. */
  lemma {:induction false} OnlyTheOldestGo(s: seq<Entry>, l: seq<Entry>, evs: seq<Event>)
    requires IsSuffix(s, l)
    ensures IsSuffix(Run(s, evs), Unbounded(l, evs))
    decreases |evs|
  {
    if evs != [] {
      WithoutSuffix(s, l, evs[0].key);
      match evs[0] {
        case SetDraft(key, d) =>
          assert IsSuffix(Touched(s, key, d), Touched(l, key, d));
          assert IsSuffix(Write(s, key, d), Touched(l, key, d));
          OnlyTheOldestGo(Write(s, key, d), Touched(l, key, d), evs[1..]);
        case Accepted(key) =>
          OnlyTheOldestGo(Without(s, key), Without(l, key), evs[1..]);
      }
    }
  }

  lemma RecencyListAgrees(evs: seq<Event>)
    ensures Bounded(Run([], evs)) && IsSuffix(Run([], evs), Unbounded([], evs))
  {
    AlwaysBounded([], evs);
    OnlyTheOldestGo([], [], evs);
  }

  /** The keys written by a run. */
  function Written(evs: seq<Event>): set<string> {
    if evs == [] then {}
    else (if evs[0].SetDraft? then {evs[0].key} else {}) + Written(evs[1..])
  }

  /** `key` is at place `n` with `d`, and every entry behind it was written since
      by one of `later`. */
  ghost predicate HeldAt(l: seq<Entry>, n: nat, key: string, d: Draft, later: set<string>) {
    && n < |l| && l[n] == Entry(key, d) && DistinctKeys(l)
    && (forall i :: n < i < |l| ==> l[i].key in later)
  }

  /** A draft outlives every run that neither touches it nor writes twenty others:
      fewer than twenty distinct other keys written since cannot push it out. */
  lemma DraftSurvives(l: seq<Entry>, key: string, d: Draft, evs: seq<Event>)
    requires Bounded(l) && IsKept(d)
    requires forall ev :: ev in evs ==> ev.key != key
    requires |Written(evs)| < DRAFTS_MAX
    ensures Lookup(Run(Write(l, key, d), evs), key) == d
  {
    JustWrittenSurvives(l, key, d);
    StepKeepsBounded(l, SetDraft(key, d));
    var w := Write(l, key, d);
    assert HeldAt(w, |w| - 1, key, d, {});
    assert {} + Written(evs) == Written(evs);
    HeldThrough(w, |w| - 1, key, d, {}, evs);
  }

  lemma KeysBehind(l: seq<Entry>, n: nat, later: set<string>)
    requires n <= |l| && DistinctKeys(l)
    requires forall i :: n <= i < |l| ==> l[i].key in later
    ensures |l| - n <= |later|
    decreases |l| - n
  {
    if n < |l| {
      var rest := later - {l[n].key};
      KeysBehind(l, n + 1, rest);
    }
  }

  lemma {:induction false} HeldThrough(l: seq<Entry>, n: nat, key: string, d: Draft, later: set<string>,
                                       evs: seq<Event>)
    requires Bounded(l) && HeldAt(l, n, key, d, later) && key !in later
    requires forall ev :: ev in evs ==> ev.key != key
    requires |later + Written(evs)| < DRAFTS_MAX
    ensures Lookup(Run(l, evs), key) == d
    decreases |evs|
  {
    if evs == [] {
      LookupByKey(l, key);
    } else {
      var ev := evs[0];
      var now := later + (if ev.SetDraft? then {ev.key} else {});
      assert ev in evs;
      assert now + Written(evs[1..]) == later + Written(evs);
      SubsetSmaller(now, later + Written(evs));
      StepKeepsBounded(l, ev);
      var k := HeldStep(l, n, key, d, later, ev);
      HeldThrough(Step(l, ev), k, key, d, now, evs[1..]);
    }
  }

  lemma SubsetSmaller(a: set<string>, b: set<string>)
    requires a <= b
    ensures |a| <= |b|
  {
    assert b == a + (b - a);
    assert |a + (b - a)| == |a| + |b - a|;
  }

  lemma HeldStep(l: seq<Entry>, n: nat, key: string, d: Draft, later: set<string>, ev: Event) returns (k: nat)
    requires Bounded(l) && HeldAt(l, n, key, d, later) && ev.key != key
    requires |later + (if ev.SetDraft? then {ev.key} else {})| < DRAFTS_MAX
    ensures HeldAt(Step(l, ev), k, key, d, later + (if ev.SetDraft? then {ev.key} else {}))
  {
    hide Without;
    var w := Without(l, ev.key);
    var now := later + (if ev.SetDraft? then {ev.key} else {});
    WithoutFacts(l, ev.key);
    k := HeldWithout(l, n, key, d, later, ev.key);
    if ev.SetDraft? {
      var t := Touched(l, ev.key, ev.draft);
      assert forall i :: 0 <= i < |w| ==> w[i] in w && w[i].key != ev.key;
      assert HeldAt(t, k, key, d, now);
      KeysBehind(t, k + 1, now);
      if |t| > DRAFTS_MAX {
        k := k - (|t| - DRAFTS_MAX);
      }
    }
  }

  lemma HeldWithout(l: seq<Entry>, n: nat, key: string, d: Draft, later: set<string>, gone: string) returns (k: nat)
    requires HeldAt(l, n, key, d, later) && gone != key
    ensures HeldAt(Without(l, gone), k, key, d, later)
  {
    var keep := (e: Entry) => e.key != gone;
    var front, back := l[..n], l[n + 1..];
    assert l == front + ([l[n]] + back);
    FilterConcat(keep, front, [l[n]] + back);
    FilterCons(keep, l[n], back);
    k := |Filter(keep, front)|;
    WithoutFacts(l, gone);
    var w := Without(l, gone);
    assert w == Filter(keep, front) + ([l[n]] + Filter(keep, back));
    forall i | k < i < |w| ensures w[i].key in later {
      assert w[i] == Filter(keep, back)[i - k - 1];
      assert w[i] in back;
    }
  }
}
