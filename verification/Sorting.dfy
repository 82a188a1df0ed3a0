/**
 The one sort behind every ordered query: a stable insertion sort by a strict order.
 Keys that are pairwise distinct make the result unique, so that it does not depend on
 how ties are broken by the database or by the sort itself.
 */
module Sorting {

  ghost predicate StrictOrder<T(!new)>(less: (T, T) -> bool) {
    && (forall x :: !less(x, x))
    && (forall x, y, z :: less(x, y) && less(y, z) ==> less(x, z))
  }

  /** Any two positions hold elements that the order tells apart. */
  ghost predicate Distinguished<T>(less: (T, T) -> bool, s: seq<T>) {
    forall i, j :: 0 <= i < j < |s| ==> less(s[i], s[j]) || less(s[j], s[i])
  }

  ghost predicate StrictlySorted<T>(less: (T, T) -> bool, s: seq<T>) {
    forall i, j :: 0 <= i < j < |s| ==> less(s[i], s[j])
  }

  ghost predicate SameElements<T(!new)>(a: seq<T>, b: seq<T>) {
    forall x :: x in a <==> x in b
  }

  function Insert<T>(less: (T, T) -> bool, x: T, s: seq<T>): seq<T> {
    if s == [] || !less(s[0], x) then [x] + s else [s[0]] + Insert(less, x, s[1..])
  }

  function Sort<T>(less: (T, T) -> bool, s: seq<T>): seq<T> {
    if s == [] then [] else Insert(less, s[0], Sort(less, s[1..]))
  }

  lemma {:induction false} InsertMultiset<T>(less: (T, T) -> bool, x: T, s: seq<T>)
    ensures multiset(Insert(less, x, s)) == multiset{x} + multiset(s)
    ensures |Insert(less, x, s)| == |s| + 1
  {
    if s != [] && less(s[0], x) {
      InsertMultiset(less, x, s[1..]);
      assert s == [s[0]] + s[1..];
    }
  }

  lemma {:induction false} SortMultiset<T>(less: (T, T) -> bool, s: seq<T>)
    ensures multiset(Sort(less, s)) == multiset(s)
    ensures |Sort(less, s)| == |s|
  {
    if s != [] {
      SortMultiset(less, s[1..]);
      InsertMultiset(less, s[0], Sort(less, s[1..]));
      assert s == [s[0]] + s[1..];
    }
  }

  lemma SortElements<T(!new)>(less: (T, T) -> bool, s: seq<T>)
    ensures SameElements(Sort(less, s), s)
  {
    SortMultiset(less, s);
    forall x ensures x in Sort(less, s) <==> x in s {
      assert x in s <==> multiset(s)[x] > 0;
      assert x in Sort(less, s) <==> multiset(Sort(less, s))[x] > 0;
    }
  }

  lemma {:induction false} InsertStrict<T(!new)>(less: (T, T) -> bool, x: T, s: seq<T>)
    requires StrictOrder(less) && StrictlySorted(less, s)
    requires forall y :: y in s ==> less(x, y) || less(y, x)
    ensures StrictlySorted(less, Insert(less, x, s))
  {
    if s != [] {
      assert s[0] in s;
      if less(s[0], x) {
        InsertStrict(less, x, s[1..]);
        var rest := Insert(less, x, s[1..]);
        InsertMultiset(less, x, s[1..]);
        forall j | 0 <= j < |rest| ensures less(s[0], rest[j]) {
          assert rest[j] in multiset(rest);
          assert rest[j] == x || rest[j] in s[1..];
        }
      } else {
        forall j | 0 <= j < |s| ensures less(x, s[j]) {
          assert less(x, s[0]);
          assert j > 0 ==> less(s[0], s[j]);
        }
      }
    }
  }

  lemma {:induction false} SortStrict<T(!new)>(less: (T, T) -> bool, s: seq<T>)
    requires StrictOrder(less) && Distinguished(less, s)
    ensures StrictlySorted(less, Sort(less, s))
  {
    if s != [] {
      SortStrict(less, s[1..]);
      SortElements(less, s[1..]);
      forall y | y in Sort(less, s[1..]) ensures less(s[0], y) || less(y, s[0]) {
        assert y in s[1..];
      }
      InsertStrict(less, s[0], Sort(less, s[1..]));
    }
  }

  /** A strictly sorted list is determined by its elements. */
  lemma {:induction false} StrictUnique<T(!new)>(less: (T, T) -> bool, a: seq<T>, b: seq<T>)
    requires StrictOrder(less) && StrictlySorted(less, a) && StrictlySorted(less, b)
    requires SameElements(a, b)
    ensures a == b
  {
    assert |a| > 0 ==> a[0] in b;
    assert |b| > 0 ==> b[0] in a;
    if a != [] {
      var x, y := a[0], b[0];
      var j :| 0 <= j < |b| && b[j] == x;
      var k :| 0 <= k < |a| && a[k] == y;
      assert x == y || less(y, x);
      assert x == y || less(x, y);
      assert !less(x, x);
      forall x ensures x in a[1..] <==> x in b[1..] {
        assert a == [a[0]] + a[1..] && b == [b[0]] + b[1..];
        if x in a[1..] { assert less(a[0], x); assert x in b; }
        if x in b[1..] { assert less(b[0], x); assert x in a; }
      }
      StrictUnique(less, a[1..], b[1..]);
    }
  }

  /** Two sorts of lists with the same elements agree, however the lists were ordered. */
  lemma SortUnique<T(!new)>(less: (T, T) -> bool, s: seq<T>, sorted: seq<T>)
    requires StrictOrder(less) && Distinguished(less, s)
    requires StrictlySorted(less, sorted) && SameElements(s, sorted)
    ensures Sort(less, s) == sorted
  {
    SortStrict(less, s);
    SortElements(less, s);
    StrictUnique(less, Sort(less, s), sorted);
  }
}
