/** Finite sequences as the panels use them: filtering, first-occurrence
    de-duplication, and splitting and joining on a separator. */
module Sequences {

  datatype Option<+T> = None | Some(value: T)

  /** The elements of `s` that satisfy `keep`, in order. */
  function Filter<T>(keep: T -> bool, s: seq<T>): (r: seq<T>)
    ensures forall i :: 0 <= i < |r| ==> r[i] in s && keep(r[i])
    ensures forall i :: 0 <= i < |s| && keep(s[i]) ==> s[i] in r
    ensures |r| <= |s|
  {
    if s == [] then []
    else (if keep(s[0]) then [s[0]] else []) + Filter(keep, s[1..])
  }

  function Map<T, U>(f: T -> U, s: seq<T>): (r: seq<U>)
    ensures |r| == |s| && forall i :: 0 <= i < |s| ==> r[i] == f(s[i])
  {
    if s == [] then [] else [f(s[0])] + Map(f, s[1..])
  }

  ghost predicate Distinct<T(!new)>(s: seq<T>) {
    forall i, j :: 0 <= i < j < |s| ==> s[i] != s[j]
  }

  lemma {:induction false} FilterCons<T>(keep: T -> bool, x: T, s: seq<T>)
    ensures Filter(keep, [x] + s) == if keep(x) then [x] + Filter(keep, s) else Filter(keep, s)
  {
    assert ([x] + s)[1..] == s;
    assert [] + Filter(keep, s) == Filter(keep, s);
  }

  lemma {:induction false} FilterConcat<T>(keep: T -> bool, a: seq<T>, b: seq<T>)
    ensures Filter(keep, a + b) == Filter(keep, a) + Filter(keep, b)
  {
    if a == [] {
      assert a + b == b;
    } else {
      assert (a + b)[0] == a[0] && (a + b)[1..] == a[1..] + b;
      FilterConcat(keep, a[1..], b);
    }
  }

  lemma {:induction false} FilterAll<T>(keep: T -> bool, s: seq<T>)
    requires forall x :: x in s ==> keep(x)
    ensures Filter(keep, s) == s
  {
    if s != [] {
      FilterAll(keep, s[1..]);
    }
  }

  lemma {:induction false} FilterNone<T>(keep: T -> bool, s: seq<T>)
    requires forall x :: x in s ==> !keep(x)
    ensures Filter(keep, s) == []
  {
    if s != [] {
      FilterNone(keep, s[1..]);
    }
  }

  lemma {:induction false} FilterDistinct<T(!new)>(keep: T -> bool, s: seq<T>)
    requires Distinct(s)
    ensures Distinct(Filter(keep, s))
  {
    if s != [] {
      FilterDistinct(keep, s[1..]);
    }
  }

  /** The first occurrence of every element of `s`, in order, leaving out what
      is already in `seen`. */
  function FirstOccurrences<T(==)>(s: seq<T>, seen: set<T>): seq<T> {
    if s == [] then []
    else if s[0] in seen then FirstOccurrences(s[1..], seen)
    else [s[0]] + FirstOccurrences(s[1..], seen + {s[0]})
  }

  lemma {:induction false} FirstOccurrencesFacts<T(!new)>(s: seq<T>, seen: set<T>)
    ensures forall x :: x in FirstOccurrences(s, seen) <==> x in s && x !in seen
    ensures Distinct(FirstOccurrences(s, seen))
  {
    if s != [] {
      FirstOccurrencesFacts(s[1..], if s[0] in seen then seen else seen + {s[0]});
    }
  }

  lemma {:induction false} FirstOccurrencesOfDistinct<T(!new)>(s: seq<T>, seen: set<T>)
    requires Distinct(s)
    requires forall x :: x in s ==> x !in seen
    ensures FirstOccurrences(s, seen) == s
  {
    if s != [] {
      FirstOccurrencesOfDistinct(s[1..], seen + {s[0]});
    }
  }

  lemma {:induction false} FirstOccurrencesSnoc<T>(s: seq<T>, x: T, seen: set<T>)
    ensures FirstOccurrences(s + [x], seen)
         == FirstOccurrences(s, seen) + (if x in s || x in seen then [] else [x])
  {
    if s == [] {
      assert s + [x] == [x];
    } else {
      assert (s + [x])[0] == s[0] && (s + [x])[1..] == s[1..] + [x];
      FirstOccurrencesSnoc(s[1..], x, if s[0] in seen then seen else seen + {s[0]});
    }
  }

  /** `s.split(sep)` for a one-character separator: always at least one part. */
  function Split<T(==)>(s: seq<T>, sep: T): (parts: seq<seq<T>>)
    ensures |parts| >= 1
  {
    if s == [] then [[]]
    else
      var rest := Split(s[1..], sep);
      if s[0] == sep then [[]] + rest
      else [[s[0]] + rest[0]] + rest[1..]
  }

  /** `parts.join(sep)`. */
  function Join<T>(parts: seq<seq<T>>, sep: T): seq<T> {
    if parts == [] then []
    else if |parts| == 1 then parts[0]
    else parts[0] + [sep] + Join(parts[1..], sep)
  }

  lemma {:induction false} SplitPartsLackSeparator<T>(s: seq<T>, sep: T)
    ensures forall p :: p in Split(s, sep) ==> sep !in p
  {
    if s != [] {
      SplitPartsLackSeparator(s[1..], sep);
      var rest := Split(s[1..], sep);
      assert rest[0] in rest;
      assert forall p :: p in rest[1..] ==> p in rest;
    }
  }

  lemma {:induction false} SplitFirst<T>(p: seq<T>, rest: seq<T>, sep: T)
    requires sep !in p
    ensures Split(p + [sep] + rest, sep) == [p] + Split(rest, sep)
    ensures Split(p, sep) == [p]
  {
    if p == [] {
      assert p + [sep] + rest == [sep] + rest;
      assert ([sep] + rest)[1..] == rest;
    } else {
      var s := p + [sep] + rest;
      assert s[0] == p[0] && s[1..] == p[1..] + [sep] + rest;
      SplitFirst(p[1..], rest, sep);
      assert [p[0]] + p[1..] == p;
    }
  }

  /** Splitting undoes joining when no part holds the separator. */
  lemma {:induction false} SplitJoin<T>(parts: seq<seq<T>>, sep: T)
    requires parts != []
    requires forall p :: p in parts ==> sep !in p
    ensures Split(Join(parts, sep), sep) == parts
  {
    if |parts| == 1 {
      SplitFirst(parts[0], [], sep);
      assert parts == [parts[0]];
    } else {
      SplitFirst(parts[0], Join(parts[1..], sep), sep);
      SplitJoin(parts[1..], sep);
      assert parts == [parts[0]] + parts[1..];
    }
  }
}
