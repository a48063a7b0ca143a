/**
 Sorting and "latest per key" indexes. The application sorts a slice in place with an
 unstable library sort and then keeps the first item it meets for every key.
 */
module Ordering {

  /** What Go's sort functions demand of a comparator. */
  ghost predicate StrictWeak<T(!new)>(less: (T, T) -> bool) {
    && (forall x :: !less(x, x))
    && (forall x, y, z :: less(x, y) && less(y, z) ==> less(x, z))
    && (forall x, y, z :: !less(x, y) && !less(y, z) ==> !less(x, z))
  }

  /** What Go's sort functions promise about their result, apart from its being a permutation. */
  ghost predicate Ordered<T>(less: (T, T) -> bool, s: seq<T>) {
    forall i, j | 0 <= i < j < |s| :: !less(s[j], s[i])
  }

  /** No two positions of `s` tie. */
  ghost predicate Distinguishes<T>(less: (T, T) -> bool, s: seq<T>) {
    forall i, j | 0 <= i < j < |s| :: less(s[i], s[j]) || less(s[j], s[i])
  }

  function Insert<T>(less: (T, T) -> bool, x: T, s: seq<T>): (r: seq<T>)
    ensures multiset(r) == multiset(s) + multiset{x}
  {
    if s == [] || !less(s[0], x) then [x] + s
    else
      assert s == [s[0]] + s[1..];
      [s[0]] + Insert(less, x, s[1..])
  }

  /** Reference sort: insertion, one element at a time. */
  function Sort<T>(less: (T, T) -> bool, s: seq<T>): (r: seq<T>)
    ensures multiset(r) == multiset(s)
  {
    if s == [] then []
    else
      assert s == [s[0]] + s[1..];
      Insert(less, s[0], Sort(less, s[1..]))
  }

  lemma {:induction false} InsertOrders<T(!new)>(less: (T, T) -> bool, x: T, s: seq<T>)
    requires StrictWeak(less) && Ordered(less, s)
    ensures Ordered(less, Insert(less, x, s))
  {
    if s == [] {
    } else if less(s[0], x) {
      InsertOrders(less, x, s[1..]);
      var rest := Insert(less, x, s[1..]);
      forall y | y in rest ensures !less(y, s[0]) {
        assert y in multiset(rest);
        assert y == x || y in multiset(s[1..]);
      }
    } else {
      forall y | y in s ensures !less(y, x) {
        assert !less(s[0], x);
      }
    }
  }

  lemma {:induction false} SortOrders<T(!new)>(less: (T, T) -> bool, s: seq<T>)
    requires StrictWeak(less)
    ensures Ordered(less, Sort(less, s))
  {
    if s == [] {
    } else {
      SortOrders(less, s[1..]);
      InsertOrders(less, s[0], Sort(less, s[1..]));
    }
  }

  /** A permutation of a tie-free sequence is tie-free. */
  lemma DistinguishesPermutes<T(!new)>(less: (T, T) -> bool, a: seq<T>, b: seq<T>)
    requires Distinguishes(less, a) && multiset(a) == multiset(b)
    ensures Distinguishes(less, b)
  {
    forall i, j | 0 <= i < j < |b| ensures less(b[i], b[j]) || less(b[j], b[i]) {
      if b[i] == b[j] {
        assert b == b[..i] + [b[i]] + b[i + 1..j] + [b[j]] + b[j + 1..];
        assert multiset(a)[b[i]] >= 2;
        OccursTwice(a, b[i]);
      } else {
        assert b[i] in multiset(a) && b[j] in multiset(a);
      }
    }
  }

  lemma {:induction false} OccursTwice<T>(a: seq<T>, x: T)
    requires multiset(a)[x] >= 2
    ensures exists i, j :: 0 <= i < j < |a| && a[i] == x && a[j] == x
  {
    assert a == [a[0]] + a[1..];
    if a[0] == x {
      assert x in multiset(a[1..]);
      var j :| 0 <= j < |a[1..]| && a[1..][j] == x;
      assert a[0] == x && a[j + 1] == x;
    } else {
      OccursTwice(a[1..], x);
      var i, j :| 0 <= i < j < |a[1..]| && a[1..][i] == x && a[1..][j] == x;
      assert a[i + 1] == x && a[j + 1] == x;
    }
  }

  lemma HeadsAgree<T>(less: (T, T) -> bool, a: seq<T>, b: seq<T>)
    requires multiset(a) == multiset(b) && a != [] && b != []
    requires Ordered(less, a) && Ordered(less, b) && Distinguishes(less, a)
    ensures a[0] == b[0]
  {
    assert b[0] in multiset(a) && a[0] in multiset(b);
    var i :| 0 <= i < |a| && a[i] == b[0];
    var j :| 0 <= j < |b| && b[j] == a[0];
    if i != 0 && j != 0 {
      assert false;
    }
  }

  lemma TailOrdered<T>(less: (T, T) -> bool, a: seq<T>)
    requires a != [] && Ordered(less, a)
    ensures Ordered(less, a[1..])
  {
    forall i, j | 0 <= i < j < |a[1..]| ensures !less(a[1..][j], a[1..][i]) {
      assert !less(a[j + 1], a[i + 1]);
    }
  }

  lemma TailDistinguishes<T>(less: (T, T) -> bool, a: seq<T>)
    requires a != [] && Distinguishes(less, a)
    ensures Distinguishes(less, a[1..])
  {
    forall i, j | 0 <= i < j < |a[1..]| ensures less(a[1..][i], a[1..][j]) || less(a[1..][j], a[1..][i]) {
      assert less(a[i + 1], a[j + 1]) || less(a[j + 1], a[i + 1]);
    }
  }

  lemma TailsPermute<T>(a: seq<T>, b: seq<T>)
    requires a != [] && b != [] && a[0] == b[0] && multiset(a) == multiset(b)
    ensures multiset(a[1..]) == multiset(b[1..])
  {
    assert a == [a[0]] + a[1..] && b == [b[0]] + b[1..];
    assert multiset(a[1..]) == multiset(a) - multiset{a[0]};
    assert multiset(b[1..]) == multiset(b) - multiset{b[0]};
  }

  /** Without ties there is only one ordered permutation, so it does not matter which sort is used. */
  lemma {:induction false} OrderedUnique<T>(less: (T, T) -> bool, a: seq<T>, b: seq<T>)
    requires multiset(a) == multiset(b)
    requires Ordered(less, a) && Ordered(less, b) && Distinguishes(less, a)
    ensures a == b
  {
    assert |multiset(a)| == |a| && |multiset(b)| == |b|;
    if a == [] {
    } else {
      HeadsAgree(less, a, b);
      TailsPermute(a, b);
      TailOrdered(less, a);
      TailOrdered(less, b);
      TailDistinguishes(less, a);
      OrderedUnique(less, a[1..], b[1..]);
      assert a == [a[0]] + a[1..] && b == [b[0]] + b[1..];
    }
  }

  /** Two listings of the same tie-free items sort to the same sequence. */
  lemma SortPermutes<T(!new)>(less: (T, T) -> bool, a: seq<T>, b: seq<T>)
    requires StrictWeak(less) && multiset(a) == multiset(b) && Distinguishes(less, a)
    ensures Sort(less, a) == Sort(less, b)
  {
    SortOrders(less, a);
    SortOrders(less, b);
    DistinguishesPermutes(less, a, Sort(less, a));
    OrderedUnique(less, Sort(less, a), Sort(less, b));
  }

  /** The library's in-place sort; its contract says nothing about the order of ties. */
  method SortSlice<T(!new)>(items: array<T>, less: (T, T) -> bool)
    requires StrictWeak(less)
    modifies items
    ensures Ordered(less, items[..]) && multiset(items[..]) == multiset(old(items[..]))
  {
    var sorted := Sort(less, items[..]);
    SortOrders(less, items[..]);
    assert |multiset(sorted)| == |sorted| && |multiset(items[..])| == items.Length;
    forall i | 0 <= i < items.Length {
      items[i] := sorted[i];
    }
    assert items[..] == sorted;
  }

  /** Copies a tie-free slice and sorts the copy. */
  method SortedCopy<T(!new)>(items: seq<T>, less: (T, T) -> bool) returns (sorted: seq<T>)
    requires StrictWeak(less) && Distinguishes(less, items)
    ensures sorted == Sort(less, items)
  {
    var copy := new T[|items|](i requires 0 <= i < |items| => items[i]);
    assert copy[..] == items;
    SortSlice(copy, less);
    sorted := copy[..];
    SortOrders(less, items);
    DistinguishesPermutes(less, items, sorted);
    OrderedUnique(less, sorted, Sort(less, items));
  }

  /** `latest` holds, for exactly the keys of `items`, an item that no other item of that key beats. */
  ghost predicate IsLatestIndex<T, K>(latest: map<K, T>, newer: (T, T) -> bool, key: T -> K, items: seq<T>) {
    && (forall x | x in items :: key(x) in latest)
    && (forall k | k in latest :: latest[k] in items && key(latest[k]) == k)
    && (forall k, x | k in latest && x in items && key(x) == k :: !newer(x, latest[k]))
  }

  /** Reference definition: a running maximum per key, in listing order, without sorting. */
  function LatestOf<T, K(==)>(newer: (T, T) -> bool, key: T -> K, items: seq<T>): map<K, T> {
    if items == [] then map[]
    else
      var x := items[|items| - 1];
      var rest := LatestOf(newer, key, items[..|items| - 1]);
      if key(x) in rest && !newer(x, rest[key(x)]) then rest else rest[key(x) := x]
  }

  lemma {:induction false} LatestOfIsIndex<T(!new), K(!new)>(newer: (T, T) -> bool, key: T -> K, items: seq<T>)
    requires StrictWeak(newer)
    ensures IsLatestIndex(LatestOf(newer, key, items), newer, key, items)
  {
    if items == [] {
    } else {
      var init := items[..|items| - 1];
      LatestOfIsIndex(newer, key, init);
      assert items == init + [items[|items| - 1]];
    }
  }

  /** Two indexes of the same tie-free items agree on every key of the first. */
  lemma LatestIndexIncluded<T(!new), K(!new)>(m: map<K, T>, n: map<K, T>, newer: (T, T) -> bool, key: T -> K,
                                              a: seq<T>, b: seq<T>)
    requires Distinguishes(newer, a) && forall x :: x in a <==> x in b
    requires IsLatestIndex(m, newer, key, a) && IsLatestIndex(n, newer, key, b)
    ensures forall k | k in m :: k in n && n[k] == m[k]
  {
    forall k | k in m ensures k in n && n[k] == m[k] {
      assert key(m[k]) in n;
      var i :| 0 <= i < |a| && a[i] == m[k];
      var j :| 0 <= j < |a| && a[j] == n[k];
      assert !newer(n[k], m[k]) && !newer(m[k], n[k]);
      assert i == j;
    }
  }

  lemma SameMembers<T>(a: seq<T>, b: seq<T>)
    requires multiset(a) == multiset(b)
    ensures forall x :: x in a <==> x in b
  {
    assert forall x :: x in a <==> x in multiset(a);
    assert forall x :: x in b <==> x in multiset(b);
  }

  /** Without ties the index is a function of the set of items, whatever order they are listed in. */
  lemma LatestIndexUnique<T(!new), K(!new)>(m: map<K, T>, n: map<K, T>, newer: (T, T) -> bool, key: T -> K, a: seq<T>,
                                            b: seq<T>)
    requires Distinguishes(newer, a) && multiset(a) == multiset(b)
    requires IsLatestIndex(m, newer, key, a) && IsLatestIndex(n, newer, key, b)
    ensures m == n
  {
    SameMembers(a, b);
    DistinguishesPermutes(newer, a, b);
    LatestIndexIncluded(m, n, newer, key, a, b);
    LatestIndexIncluded(n, m, newer, key, b, a);
  }

  /**
   Sorts the slice in place, newest first, and keeps the first item of every key: the shape of
   both latestDatabaseExecutionByCheck and latestDatabaseConnectionTestByReference.
   */
  method LatestByKey<T(!new), K(==, !new)>(items: array<T>, newer: (T, T) -> bool, key: T -> K)
      returns (latest: map<K, T>)
    requires StrictWeak(newer)
    modifies items
    ensures Ordered(newer, items[..]) && multiset(items[..]) == multiset(old(items[..]))
    ensures IsLatestIndex(latest, newer, key, old(items[..]))
    ensures Distinguishes(newer, old(items[..])) ==>
              items[..] == Sort(newer, old(items[..]))
                && latest == LatestOf(newer, key, old(items[..])) == LatestOf(newer, key, items[..])
  {
    ghost var before := items[..];
    SortSlice(items, newer);
    latest := map[];
    for i := 0 to items.Length
      invariant IsLatestIndex(latest, newer, key, items[..i])
    {
      ghost var seen := latest;
      assert items[..i + 1] == items[..i] + [items[i]];
      if key(items[i]) !in latest {
        latest := latest[key(items[i]) := items[i]];
      } else {
        var k := key(items[i]);
        ghost var j :| 0 <= j < i && items[j] == latest[k];
        assert !newer(items[..][i], items[..][j]);
      }
    }
    assert items[..items.Length] == items[..];
    assert forall x :: x in before <==> x in multiset(before);
    assert forall x :: x in items[..] <==> x in multiset(items[..]);
    if Distinguishes(newer, before) {
      LatestOfIsIndex(newer, key, before);
      LatestOfIsIndex(newer, key, items[..]);
      LatestIndexUnique(LatestOf(newer, key, before), LatestOf(newer, key, items[..]), newer, key, before, items[..]);
      LatestIndexUnique(latest, LatestOf(newer, key, before), newer, key, before, before);
      SortOrders(newer, before);
      DistinguishesPermutes(newer, before, items[..]);
      OrderedUnique(newer, items[..], Sort(newer, before));
    }
  }

  /** The items of `s` that satisfy `keep`, in order. */
  function Filter<T(!new)>(keep: T -> bool, s: seq<T>): (r: seq<T>)
    ensures forall x :: x in r <==> x in s && keep(x)
  {
    if s == [] then []
    else
      var rest := Filter(keep, s[..|s| - 1]);
      if keep(s[|s| - 1]) then rest + [s[|s| - 1]] else rest
  }

  lemma FilterStep<T(!new)>(keep: T -> bool, s: seq<T>, x: T)
    ensures Filter(keep, s + [x]) == Filter(keep, s) + if keep(x) then [x] else []
  {
    assert (s + [x])[..|s|] == s;
  }

  /** Filtering commutes with permuting: the multiplicity of an item is all or nothing. */
  lemma {:induction false} FilterMultiplicity<T(!new)>(keep: T -> bool, s: seq<T>)
    ensures forall x :: multiset(Filter(keep, s))[x] == if keep(x) then multiset(s)[x] else 0
  {
    if s == [] {
    } else {
      FilterMultiplicity(keep, s[..|s| - 1]);
      assert s == s[..|s| - 1] + [s[|s| - 1]];
    }
  }

  lemma FilterPermutes<T(!new)>(keep: T -> bool, a: seq<T>, b: seq<T>)
    requires multiset(a) == multiset(b)
    ensures multiset(Filter(keep, a)) == multiset(Filter(keep, b))
  {
    FilterMultiplicity(keep, a);
    FilterMultiplicity(keep, b);
  }

  lemma {:induction false} FilterDistinguishes<T(!new)>(less: (T, T) -> bool, keep: T -> bool, s: seq<T>)
    requires Distinguishes(less, s)
    ensures Distinguishes(less, Filter(keep, s))
  {
    if s == [] {
    } else {
      var init := s[..|s| - 1];
      FilterDistinguishes(less, keep, init);
      var r := Filter(keep, init);
      forall i | 0 <= i < |r| ensures less(r[i], s[|s| - 1]) || less(s[|s| - 1], r[i]) {
        assert r[i] in init;
        var k :| 0 <= k < |init| && init[k] == r[i];
        assert s[k] == r[i];
      }
    }
  }

  lemma SortFilterMembers<T(!new)>(less: (T, T) -> bool, keep: T -> bool, items: seq<T>)
    ensures forall x :: x in Sort(less, Filter(keep, items)) <==> x in items && keep(x)
  {
    var kept := Filter(keep, items);
    forall x ensures x in Sort(less, kept) <==> x in items && keep(x) {
      assert x in Sort(less, kept) <==> x in multiset(Sort(less, kept));
      assert x in kept <==> x in multiset(kept);
    }
  }

  /** A selection loop: walks a slice and appends the items it keeps. */
  method Select<T(!new)>(items: seq<T>, keep: T -> bool) returns (kept: seq<T>)
    ensures kept == Filter(keep, items)
  {
    kept := [];
    for i := 0 to |items|
      invariant kept == Filter(keep, items[..i])
    {
      assert items[..i + 1][..i] == items[..i];
      if keep(items[i]) {
        kept := kept + [items[i]];
      }
    }
    assert items[..|items|] == items;
  }
}
