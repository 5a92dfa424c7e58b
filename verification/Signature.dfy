/** `stateSignature`: the text that tells one request from another. The JSON
    printing of the tuple is left out; the tuple itself is compared. */
module Signature {
  import opened Sequences
  import opened Ordering
  import opened PagerStore

  /** What decides which request the assets table makes. */
  datatype View = View(sort: Sort, filters: map<string, string>, offset: nat, pageSize: nat)

  function ViewOf(s: State): View {
    View(s.sort, s.filters, s.offset, s.pageSize)
  }

  datatype Printed = Printed(columnKey: Option<string>, direction: Direction,
                             filters: seq<(string, string)>, offset: nat, pageSize: nat)

  lemma LeastExists(keys: set<string>)
    requires keys != {}
    ensures exists k :: k in keys && forall j :: j in keys ==> LexLe(k, j)
  {
    hide LexLe;
    var x :| x in keys;
    if keys == {x} {
      LexTotal(x, x);
    } else {
      assert keys - {x} != {};
      LeastExists(keys - {x});
      var k :| k in keys - {x} && forall j :: j in keys - {x} ==> LexLe(k, j);
      LexTotal(k, x);
      LexTotal(x, x);
      forall j | j in keys ensures LexLe(if LexLe(k, x) then k else x, j) {
        if !LexLe(k, x) && j != x {
          LexTransitive(x, k, j);
        }
      }
    }
  }

  /** `Object.keys(filters).sort()`. */
  function SortedKeys(keys: set<string>): (r: seq<string>)
    ensures forall k :: k in r <==> k in keys
    ensures |r| == |keys|
  {
    if keys == {} then []
    else
      LeastExists(keys);
      assert forall a, b :: LexLe(a, b) && LexLe(b, a) ==> a == b by {
        forall a, b | LexLe(a, b) && LexLe(b, a) ensures a == b { LexAntisymmetric(a, b); }
      }
      var k :| k in keys && forall j :: j in keys ==> LexLe(k, j);
      [k] + SortedKeys(keys - {k})
  }

  /** Sorted means sorted: the printed keys come in increasing order. */
  lemma {:induction false} SortedKeysSorted(keys: set<string>)
    ensures forall i, j :: 0 <= i < j < |SortedKeys(keys)| ==> LexLt(SortedKeys(keys)[i], SortedKeys(keys)[j])
  {
    if keys != {} {
      var r := SortedKeys(keys);
      assert r == [r[0]] + SortedKeys(keys - {r[0]});
      SortedKeysSorted(keys - {r[0]});
    }
  }

  /** An empty column key prints like an absent one. */
  function NormalKey(key: Option<string>): Option<string> {
    if key == Some("") then None else key
  }

  function StateSignature(v: View): Printed {
    var keys := SortedKeys(v.filters.Keys);
    Printed(NormalKey(v.sort.columnKey), v.sort.direction,
            seq(|keys|, i requires 0 <= i < |keys| =>
              assert keys[i] in v.filters.Keys; (keys[i], v.filters[keys[i]])),
            v.offset, v.pageSize)
  }

  /** The same column, or none in either. */
  predicate SameColumn(a: Option<string>, b: Option<string>) {
    a == b || (a in {None, Some("")} && b in {None, Some("")})
  }

  predicate SameRequest(a: View, b: View) {
    && SameColumn(a.sort.columnKey, b.sort.columnKey) && a.sort.direction == b.sort.direction
    && a.filters == b.filters && a.offset == b.offset && a.pageSize == b.pageSize
  }

  /** Two states print alike exactly when they ask for the same request, by whatever
      route their filters were reached: direction, filters, offset and page size are
      equal, and so are the columns unless there is none in either. */
  lemma SignatureFaithful(a: View, b: View)
    ensures StateSignature(a) == StateSignature(b) <==> SameRequest(a, b)
    ensures StateSignature(a) == StateSignature(b) <==>
            && a.sort.direction == b.sort.direction
            && a.filters == b.filters && a.offset == b.offset && a.pageSize == b.pageSize
            && (a.sort.columnKey == b.sort.columnKey
                || (a.sort.columnKey in {None, Some("")} && b.sort.columnKey in {None, Some("")}))
  {
    hide SortedKeys;
    if StateSignature(a) == StateSignature(b) {
      SameFiltersPrinted(a, b);
    }
  }

  lemma SameFiltersPrinted(a: View, b: View)
    requires StateSignature(a).filters == StateSignature(b).filters
    ensures a.filters == b.filters
  {
    hide StateSignature;
    FiltersPrinted(a);
    FiltersPrinted(b);
    forall k | k in a.filters ensures k in b.filters && a.filters[k] == b.filters[k] {
      assert (k, a.filters[k]) in StateSignature(b).filters;
    }
    forall k | k in b.filters ensures k in a.filters {
      assert (k, b.filters[k]) in StateSignature(a).filters;
    }
  }

  lemma FiltersPrinted(v: View)
    ensures forall k :: k in v.filters ==> (k, v.filters[k]) in StateSignature(v).filters
    ensures forall p :: p in StateSignature(v).filters ==> p.0 in v.filters && v.filters[p.0] == p.1
  {
    var keys := SortedKeys(v.filters.Keys);
    forall k | k in v.filters ensures (k, v.filters[k]) in StateSignature(v).filters {
      assert k in keys;
      var i :| 0 <= i < |keys| && keys[i] == k;
      assert StateSignature(v).filters[i] == (k, v.filters[k]);
    }
  }
}
