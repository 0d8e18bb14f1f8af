/** Sorting by a string key in byte order; with distinct keys there is only one result, whatever the algorithm. */
module Ordering {
  import opened Text

  predicate Ascending<T>(s: seq<T>, key: T -> string) {
    forall i, j :: 0 <= i < j < |s| ==> Less(key(s[i]), key(s[j]))
  }

  predicate DistinctKeys<T>(s: seq<T>, key: T -> string) {
    forall i, j :: 0 <= i < j < |s| ==> key(s[i]) != key(s[j])
  }

  function Insert<T>(x: T, sorted: seq<T>, key: T -> string): seq<T> {
    if sorted == [] || Less(key(x), key(sorted[0])) then [x] + sorted else [sorted[0]] + Insert(x, sorted[1..], key)
  }

  function SortBy<T>(s: seq<T>, key: T -> string): seq<T> {
    if s == [] then [] else Insert(s[|s| - 1], SortBy(s[..|s| - 1], key), key)
  }

  lemma {:induction false} InsertAscends<T>(x: T, sorted: seq<T>, key: T -> string)
    requires Ascending(sorted, key) && forall y :: y in sorted ==> key(y) != key(x)
    ensures Ascending(Insert(x, sorted, key), key) && multiset(Insert(x, sorted, key)) == multiset(sorted) + multiset{x}
  {
    if sorted == [] {
    } else if Less(key(x), key(sorted[0])) {
      forall j | 0 < j < |sorted| ensures Less(key(x), key(sorted[j])) {
        LessTransitive(key(x), key(sorted[0]), key(sorted[j]));
      }
    } else {
      LessTotal(key(x), key(sorted[0]));
      var rest := sorted[1..];
      assert sorted == [sorted[0]] + rest;
      InsertAscends(x, rest, key);
      var inserted := Insert(x, rest, key);
      forall j | 0 <= j < |inserted| ensures Less(key(sorted[0]), key(inserted[j])) {
        assert inserted[j] in multiset(inserted);
        assert inserted[j] == x || inserted[j] in rest;
      }
    }
  }

  lemma {:induction false} SortByAscends<T>(s: seq<T>, key: T -> string)
    requires DistinctKeys(s, key)
    ensures Ascending(SortBy(s, key), key) && multiset(SortBy(s, key)) == multiset(s)
  {
    if s != [] {
      var before, last := s[..|s| - 1], s[|s| - 1];
      SortByAscends(before, key);
      assert s == before + [last];
      forall y | y in SortBy(before, key) ensures key(y) != key(last) {
        assert y in multiset(before);
      }
      InsertAscends(last, SortBy(before, key), key);
    }
  }

  lemma AscendingKeysAreDistinct<T>(s: seq<T>, key: T -> string, i: nat, j: nat)
    requires Ascending(s, key) && i < |s| && j < |s| && key(s[i]) == key(s[j])
    ensures i == j
  {
    if i < j {
      LessIrreflexive(key(s[i]));
    } else if j < i {
      LessIrreflexive(key(s[j]));
    }
  }

  lemma SameFirst<T>(a: seq<T>, b: seq<T>, key: T -> string)
    requires Ascending(a, key) && Ascending(b, key) && multiset(a) == multiset(b) && a != [] && b != []
    ensures a[0] == b[0]
  {
    hide Text.Less;
    assert a[0] in multiset(b) && b[0] in multiset(a);
    var i :| 0 <= i < |b| && b[i] == a[0];
    var j :| 0 <= j < |a| && a[j] == b[0];
    if i > 0 && j > 0 {
      LessAsymmetric(key(b[0]), key(b[i]));
    }
  }

  lemma TailMultiset<T>(s: seq<T>)
    requires s != []
    ensures multiset(s[1..]) == multiset(s) - multiset{s[0]}
  {
    assert s == [s[0]] + s[1..];
  }

  lemma TailAscends<T>(s: seq<T>, key: T -> string)
    requires Ascending(s, key) && s != []
    ensures Ascending(s[1..], key)
  {
    hide Text.Less;
  }

  /** There is one ascending order: any sort gives it, stable or not. */
  lemma {:induction false} AscendingIsUnique<T>(a: seq<T>, b: seq<T>, key: T -> string)
    requires Ascending(a, key) && Ascending(b, key) && multiset(a) == multiset(b)
    ensures a == b
  {
    hide Ascending;
    assert |a| == |multiset(a)| == |b|;
    if a != [] {
      SameFirst(a, b, key);
      TailMultiset(a);
      TailMultiset(b);
      TailAscends(a, key);
      TailAscends(b, key);
      AscendingIsUnique(a[1..], b[1..], key);
      assert a == [a[0]] + a[1..] && b == [b[0]] + b[1..];
    }
  }
}
