/** The order JavaScript's `<` puts on strings, and stable sorting under a key. */
module Ordering {
  import opened Sequences

  /** Lexicographic comparison by character code. */
  predicate LexLe(a: string, b: string) {
    if a == [] then true
    else if b == [] then false
    else if a[0] == b[0] then LexLe(a[1..], b[1..])
    else a[0] < b[0]
  }

  lemma {:induction false} LexSharedPrefix(p: string, a: string, b: string)
    ensures LexLe(p + a, p + b) <==> LexLe(a, b)
  {
    if p == "" {
      assert p + a == a && p + b == b;
    } else {
      assert (p + a)[1..] == p[1..] + a && (p + b)[1..] == p[1..] + b;
      LexSharedPrefix(p[1..], a, b);
    }
  }

  /** The first character that differs decides; without one the shorter comes first. */
  lemma LexDecidedByFirstDifference(p: string, x: char, y: char, a: string, b: string)
    ensures LexLe(p, p + a)
    ensures a != "" ==> !LexLe(p + a, p)
    ensures x != y ==> (LexLe(p + ([x] + a), p + ([y] + b)) <==> x < y)
  {
    LexSharedPrefix(p, "", a);
    LexSharedPrefix(p, a, "");
    LexSharedPrefix(p, [x] + a, [y] + b);
    assert p + "" == p;
  }

  predicate LexLt(a: string, b: string) {
    LexLe(a, b) && a != b
  }

  lemma {:induction false} LexTotal(a: string, b: string)
    ensures LexLe(a, b) || LexLe(b, a)
    ensures LexLe(a, a)
  {
    if a != [] {
      LexTotal(a[1..], if b != [] then b[1..] else []);
    }
  }

  lemma {:induction false} LexAntisymmetric(a: string, b: string)
    requires LexLe(a, b) && LexLe(b, a)
    ensures a == b
  {
    if a != [] && b != [] {
      LexAntisymmetric(a[1..], b[1..]);
      assert a == [a[0]] + a[1..] && b == [b[0]] + b[1..];
    }
  }

  lemma {:induction false} LexTransitive(a: string, b: string, c: string)
    requires LexLe(a, b) && LexLe(b, c)
    ensures LexLe(a, c)
  {
    if a != [] && b != [] && c != [] && a[0] == b[0] == c[0] {
      LexTransitive(a[1..], b[1..], c[1..]);
    }
  }

  ghost predicate TotalPreorder<T(!new)>(le: (T, T) -> bool) {
    && (forall x, y :: le(x, y) || le(y, x))
    && (forall x, y, z :: le(x, y) && le(y, z) ==> le(x, z))
  }

  ghost predicate Sorted<T>(le: (T, T) -> bool, s: seq<T>) {
    forall i, j :: 0 <= i < j < |s| ==> le(s[i], s[j])
  }

  /** Put `x` in front of the first element it is not above. */
  function Insert<T>(le: (T, T) -> bool, x: T, s: seq<T>): seq<T> {
    if s == [] then [x]
    else if le(x, s[0]) then [x] + s
    else [s[0]] + Insert(le, x, s[1..])
  }

  /** A stable sort: elements `le` ranks equal keep their input order. */
  function StableSort<T>(le: (T, T) -> bool, s: seq<T>): seq<T> {
    if s == [] then [] else Insert(le, s[0], StableSort(le, s[1..]))
  }

  lemma {:induction false} InsertMembers<T>(le: (T, T) -> bool, x: T, s: seq<T>)
    ensures multiset(Insert(le, x, s)) == multiset(s) + multiset{x}
  {
    if s != [] {
      InsertMembers(le, x, s[1..]);
      assert s == [s[0]] + s[1..];
    }
  }

  lemma PrependSorted<T>(le: (T, T) -> bool, h: T, s: seq<T>)
    requires Sorted(le, s) && forall y :: y in s ==> le(h, y)
    ensures Sorted(le, [h] + s)
  {
  }

  /** Inserting under `le` keeps a list in the order `below`, if `below` refines
      what `le` decides about `x`. */
  lemma {:induction false} InsertKeepsOrder<T>(le: (T, T) -> bool, below: (T, T) -> bool, x: T, s: seq<T>)
    requires Sorted(below, s)
    requires forall e :: e in s && !le(x, e) ==> below(e, x)
    requires forall h, e :: h in s && e in s && le(x, h) && (e == h || below(h, e)) ==> below(x, e)
    ensures Sorted(below, Insert(le, x, s))
  {
    if s == [] {
    } else if le(x, s[0]) {
      assert forall e :: e in s ==> e == s[0] || below(s[0], e);
      PrependSorted(below, x, s);
    } else {
      InsertKeepsOrder(le, below, x, s[1..]);
      InsertMembers(le, x, s[1..]);
      forall e | e in s[1..] ensures below(s[0], e) {
        var i :| 0 <= i < |s[1..]| && s[1..][i] == e;
        assert below(s[0], s[i + 1]);
      }
      assert s[0] in s && below(s[0], x);
      forall y | y in Insert(le, x, s[1..]) ensures below(s[0], y) {
        assert y in multiset(Insert(le, x, s[1..]));
        assert y == x || y in s[1..];
      }
      PrependSorted(below, s[0], Insert(le, x, s[1..]));
    }
  }

  lemma InsertFacts<T(!new)>(le: (T, T) -> bool, x: T, s: seq<T>)
    requires TotalPreorder(le)
    requires Sorted(le, s)
    ensures Sorted(le, Insert(le, x, s))
    ensures multiset(Insert(le, x, s)) == multiset(s) + multiset{x}
  {
    InsertMembers(le, x, s);
    InsertKeepsOrder(le, le, x, s);
  }

  /** The sort orders its input and is a permutation of it. */
  lemma {:induction false} StableSortFacts<T(!new)>(le: (T, T) -> bool, s: seq<T>)
    requires TotalPreorder(le)
    ensures Sorted(le, StableSort(le, s))
    ensures multiset(StableSort(le, s)) == multiset(s)
    ensures |StableSort(le, s)| == |s|
  {
    hide Insert;
    if s != [] {
      StableSortFacts(le, s[1..]);
      InsertFacts(le, s[0], StableSort(le, s[1..]));
      assert s == [s[0]] + s[1..];
    }
    assert |multiset(StableSort(le, s))| == |multiset(s)|;
  }

  /** The sort leaves a list alone exactly when the list is in order already. */
  lemma {:induction false} SortFixesExactlySorted<T(!new)>(le: (T, T) -> bool, s: seq<T>)
    requires TotalPreorder(le)
    ensures StableSort(le, s) == s <==> Sorted(le, s)
  {
    StableSortFacts(le, s);
    if Sorted(le, s) && s != [] {
      SortFixesExactlySorted(le, s[1..]);
      assert |s| > 1 ==> le(s[0], s[1..][0]);
    }
  }

  lemma {:induction false} InsertCons<T>(le: (T, T) -> bool, x: T, y: T, s: seq<T>)
    requires !le(x, y)
    ensures Insert(le, x, [y] + s) == [y] + Insert(le, x, s)
  {
    assert ([y] + s)[1..] == s;
  }

  /** Every element is at least `x`, so `x` goes to the front. */
  lemma {:induction false} InsertFront<T>(le: (T, T) -> bool, x: T, s: seq<T>)
    requires forall y :: y in s ==> le(x, y)
    ensures Insert(le, x, s) == [x] + s
  {
  }

  lemma AtFrontFilter<T(!new)>(le: (T, T) -> bool, keep: T -> bool, x: T, s: seq<T>)
    requires forall y :: y in s ==> le(x, y)
    ensures Filter(keep, [x] + s)
         == if keep(x) then Insert(le, x, Filter(keep, s)) else Filter(keep, s)
  {
    FilterCons(keep, x, s);
    InsertFront(le, x, Filter(keep, s));
  }

  lemma BelowHead<T(!new)>(le: (T, T) -> bool, x: T, s: seq<T>)
    requires TotalPreorder(le) && Sorted(le, s)
    requires s != [] && le(x, s[0])
    ensures forall y :: y in s ==> le(x, y)
  {
  }

  /** One step of the induction: `x` goes somewhere behind `h`. */
  lemma PastHeadFilter<T(!new)>(le: (T, T) -> bool, keep: T -> bool, x: T, h: T, s: seq<T>)
    requires !le(x, h)
    requires Filter(keep, Insert(le, x, s))
          == if keep(x) then Insert(le, x, Filter(keep, s)) else Filter(keep, s)
    ensures Filter(keep, [h] + Insert(le, x, s))
         == if keep(x) then Insert(le, x, Filter(keep, [h] + s)) else Filter(keep, [h] + s)
  {
    var f, g := Filter(keep, s), Insert(le, x, s);
    FilterCons(keep, h, g);
    FilterCons(keep, h, s);
    InsertCons(le, x, h, f);
  }

  lemma {:induction false} InsertFilter<T(!new)>(le: (T, T) -> bool, keep: T -> bool, x: T, s: seq<T>)
    requires TotalPreorder(le)
    requires Sorted(le, s)
    ensures Filter(keep, Insert(le, x, s))
         == if keep(x) then Insert(le, x, Filter(keep, s)) else Filter(keep, s)
  {
    if s == [] {
    } else if le(x, s[0]) {
      BelowHead(le, x, s);
      AtFrontFilter(le, keep, x, s);
    } else {
      InsertFilter(le, keep, x, s[1..]);
      PastHeadFilter(le, keep, x, s[0], s[1..]);
      assert s == [s[0]] + s[1..];
    }
  }

  /** Filtering and stable sorting commute. */
  lemma {:induction false} SortFilterCommute<T(!new)>(le: (T, T) -> bool, keep: T -> bool, s: seq<T>)
    requires TotalPreorder(le)
    ensures Filter(keep, StableSort(le, s)) == StableSort(le, Filter(keep, s))
  {
    if s != [] {
      var rest := Filter(keep, s[1..]);
      SortFilterCommute(le, keep, s[1..]);
      StableSortFacts(le, s[1..]);
      InsertFilter(le, keep, s[0], StableSort(le, s[1..]));
      if keep(s[0]) {
        assert ([s[0]] + rest)[1..] == rest;
      } else {
        assert [] + rest == rest;
      }
    }
  }

  lemma SameHead<T(!new)>(lt: (T, T) -> bool, a: seq<T>, b: seq<T>)
    requires forall x, y :: lt(x, y) ==> !lt(y, x)
    requires Sorted(lt, a) && Sorted(lt, b)
    requires a != [] && b != [] && multiset(a) == multiset(b)
    ensures a[0] == b[0]
  {
    assert a[0] in multiset(b) && b[0] in multiset(a);
    var i :| 0 <= i < |b| && b[i] == a[0];
    var j :| 0 <= j < |a| && a[j] == b[0];
    assert i == 0;
  }

  lemma TailMembers<T>(s: seq<T>)
    requires s != []
    ensures multiset(s[1..]) == multiset(s) - multiset{s[0]}
    ensures s == [s[0]] + s[1..]
  {
    assert s == [s[0]] + s[1..];
  }

  /** Strictly increasing lists with the same members are the same list. */
  lemma {:induction false} SortedUnique<T(!new)>(lt: (T, T) -> bool, a: seq<T>, b: seq<T>)
    requires forall x, y :: lt(x, y) ==> !lt(y, x)
    requires Sorted(lt, a) && Sorted(lt, b)
    requires multiset(a) == multiset(b)
    ensures a == b
  {
    if a == [] {
      assert |multiset(b)| == 0;
    } else {
      assert |multiset(a)| == |multiset(b)|;
      SameHead(lt, a, b);
      TailMembers(a);
      TailMembers(b);
      SortedUnique(lt, a[1..], b[1..]);
    }
  }
}
