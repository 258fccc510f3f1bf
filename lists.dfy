/**
 * The iterator adaptors the core chains together (`filter`, `cartesian_product`,
 * `find`, `sorted_by`), as functions on sequences with the facts the
 * negotiation and dispatch proofs need about them.
 */
module Lists {
  import opened Wrappers

  /** `Iterator::map`. */
  function Map<A, B>(s: seq<A>, f: A -> B): (r: seq<B>)
    ensures |r| == |s| && forall i :: 0 <= i < |s| ==> r[i] == f(s[i])
  {
    seq(|s|, i requires 0 <= i < |s| => f(s[i]))
  }

  /** `Iterator::filter`: the elements satisfying `p`, in their original order. */
  function Filter<T(==)>(s: seq<T>, p: T -> bool): (r: seq<T>)
    ensures |r| <= |s|
    ensures forall i :: 0 <= i < |r| ==> r[i] in s && p(r[i])
    ensures forall i :: 0 <= i < |s| && p(s[i]) ==> s[i] in r
  {
    if s == [] then []
    else (if p(s[0]) then [s[0]] else []) + Filter(s[1..], p)
  }

  /** Filtering by a property every element has changes nothing. */
  lemma {:induction false} FilterKeepsAll<T>(s: seq<T>, p: T -> bool)
    requires forall i :: 0 <= i < |s| ==> p(s[i])
    ensures Filter(s, p) == s
  {
    if s != [] {
      FilterKeepsAll(s[1..], p);
    }
  }

  /** One step of `Filter`. */
  lemma FilterCons<T>(x: T, s: seq<T>, p: T -> bool)
    ensures Filter([x] + s, p) == (if p(x) then [x] else []) + Filter(s, p)
  {
    assert ([x] + s)[1..] == s;
  }

  /** Filtering a concatenation filters each part. */
  lemma {:induction false} FilterAppend<T>(s: seq<T>, t: seq<T>, p: T -> bool)
    ensures Filter(s + t, p) == Filter(s, p) + Filter(t, p)
  {
    if s != [] {
      FilterAppend(s[1..], t, p);
      assert (s + t)[1..] == s[1..] + t;
    } else {
      assert s + t == t;
    }
  }

  /** The pairs of `x` with each of `ys`, in order. */
  function Row<A, B>(x: A, ys: seq<B>): (r: seq<(A, B)>)
    ensures |r| == |ys|
    ensures forall j :: 0 <= j < |ys| ==> r[j] == (x, ys[j])
  {
    seq(|ys|, j requires 0 <= j < |ys| => (x, ys[j]))
  }

  /** `Itertools::cartesian_product`: every pair, first-component-major. */
  function Product<A, B>(xs: seq<A>, ys: seq<B>): seq<(A, B)> {
    if xs == [] then [] else Row(xs[0], ys) + Product(xs[1..], ys)
  }

  /** `Iterator::find`: the first element satisfying `p`. */
  function FindFirst<T>(s: seq<T>, p: T -> bool): (r: Option<T>)
    ensures r.None? <==> forall i :: 0 <= i < |s| ==> !p(s[i])
  {
    if s == [] then None
    else if p(s[0]) then Some(s[0])
    else FindFirst(s[1..], p)
  }

  lemma {:induction false} FindFirstAppend<T>(a: seq<T>, b: seq<T>, p: T -> bool)
    ensures FindFirst(a + b, p) == if FindFirst(a, p).Some? then FindFirst(a, p) else FindFirst(b, p)
  {
    if a != [] {
      assert (a + b)[1..] == a[1..] + b;
      FindFirstAppend(a[1..], b, p);
    } else {
      assert a + b == b;
    }
  }

  /** The match found in a row is the first matching column. */
  lemma {:induction false} FindFirstInRow<A, B>(x: A, ys: seq<B>, p: ((A, B)) -> bool) returns (j: nat)
    requires FindFirst(Row(x, ys), p).Some?
    ensures j < |ys| && FindFirst(Row(x, ys), p).value == (x, ys[j]) && p((x, ys[j]))
    ensures forall j' :: 0 <= j' < j ==> !p((x, ys[j']))
  {
    if p((x, ys[0])) {
      j := 0;
    } else {
      assert Row(x, ys)[1..] == Row(x, ys[1..]);
      var j1 := FindFirstInRow(x, ys[1..], p);
      j := j1 + 1;
      forall j' | 0 <= j' < j ensures !p((x, ys[j'])) {
        if j' > 0 { assert ys[j'] == ys[1..][j' - 1]; }
      }
    }
  }

  /** No pair of a cartesian product matches exactly when `find` comes back empty. */
  lemma {:induction false} FindFirstInProductNone<A, B>(xs: seq<A>, ys: seq<B>, p: ((A, B)) -> bool)
    ensures FindFirst(Product(xs, ys), p).None? <==>
      forall i, j :: 0 <= i < |xs| && 0 <= j < |ys| ==> !p((xs[i], ys[j]))
  {
    if xs != [] {
      FindFirstAppend(Row(xs[0], ys), Product(xs[1..], ys), p);
      FindFirstInProductNone(xs[1..], ys, p);
      if FindFirst(Row(xs[0], ys), p).None? && FindFirst(Product(xs[1..], ys), p).None? {
        forall i, j | 0 <= i < |xs| && 0 <= j < |ys| ensures !p((xs[i], ys[j])) {
          if i > 0 { assert xs[i] == xs[1..][i - 1]; }
          else { assert Row(xs[0], ys)[j] == (xs[0], ys[j]); }
        }
      } else if FindFirst(Row(xs[0], ys), p).Some? {
        var j := FindFirstInRow(xs[0], ys, p);
      } else {
        assert exists i, j :: 0 <= i < |xs[1..]| && 0 <= j < |ys| && p((xs[1..][i], ys[j]));
        var i, j :| 0 <= i < |xs[1..]| && 0 <= j < |ys| && p((xs[1..][i], ys[j]));
        assert xs[i + 1] == xs[1..][i];
      }
    }
  }

  /**
   * A pair found in a cartesian product is the first matching pair in
   * row-major order: no earlier row holds a match, and no earlier column of
   * its own row does.
   */
  lemma {:induction false} FindFirstInProduct<A, B>(xs: seq<A>, ys: seq<B>, p: ((A, B)) -> bool)
    returns (i: nat, j: nat)
    requires FindFirst(Product(xs, ys), p).Some?
    ensures i < |xs| && j < |ys|
    ensures FindFirst(Product(xs, ys), p).value == (xs[i], ys[j]) && p((xs[i], ys[j]))
    ensures forall i', j' :: 0 <= i' < i && 0 <= j' < |ys| ==> !p((xs[i'], ys[j']))
    ensures forall j' :: 0 <= j' < j ==> !p((xs[i], ys[j']))
  {
    FindFirstAppend(Row(xs[0], ys), Product(xs[1..], ys), p);
    if FindFirst(Row(xs[0], ys), p).Some? {
      i := 0;
      j := FindFirstInRow(xs[0], ys, p);
    } else {
      var i1;
      i1, j := FindFirstInProduct(xs[1..], ys, p);
      i := i1 + 1;
      assert xs[i] == xs[1..][i1];
      forall i', j' | 0 <= i' < i && 0 <= j' < |ys| ensures !p((xs[i'], ys[j'])) {
        if i' > 0 { assert xs[i'] == xs[1..][i' - 1]; }
        else { assert Row(xs[0], ys)[j'] == (xs[0], ys[j']); }
      }
    }
  }

  /** Inserts `x` before the first element whose key is not below its own. */
  function Insert<T>(x: T, s: seq<T>, key: T -> int): seq<T> {
    if s == [] || key(x) <= key(s[0]) then [x] + s
    else [s[0]] + Insert(x, s[1..], key)
  }

  /**
   * A stable sort by ascending `key`: `sorted_by` with a comparator that
   * compares keys. The result of a stable sort is unique, so the algorithm
   * (insertion here, merge sort in the library) does not matter.
   */
  function SortBy<T>(s: seq<T>, key: T -> int): seq<T> {
    if s == [] then [] else Insert(s[0], SortBy(s[1..], key), key)
  }

  ghost predicate SortedBy<T>(s: seq<T>, key: T -> int) {
    forall i, j :: 0 <= i < j < |s| ==> key(s[i]) <= key(s[j])
  }

  /** The elements whose key is `k`, in order. */
  function KeyFilter<T>(s: seq<T>, key: T -> int, k: int): seq<T> {
    if s == [] then []
    else (if key(s[0]) == k then [s[0]] else []) + KeyFilter(s[1..], key, k)
  }

  lemma {:induction false} InsertMultiset<T>(x: T, s: seq<T>, key: T -> int)
    ensures |Insert(x, s, key)| == |s| + 1
    ensures multiset(Insert(x, s, key)) == multiset{x} + multiset(s)
  {
    if s != [] && key(x) > key(s[0]) {
      InsertMultiset(x, s[1..], key);
      assert s == [s[0]] + s[1..];
    }
  }

  lemma {:induction false} InsertLowerBound<T>(x: T, s: seq<T>, key: T -> int, b: int)
    requires key(x) >= b && forall i :: 0 <= i < |s| ==> key(s[i]) >= b
    ensures forall i :: 0 <= i < |Insert(x, s, key)| ==> key(Insert(x, s, key)[i]) >= b
  {
    if s != [] && key(x) > key(s[0]) {
      InsertLowerBound(x, s[1..], key, b);
    }
  }

  lemma {:induction false} InsertSorted<T>(x: T, s: seq<T>, key: T -> int)
    requires SortedBy(s, key)
    ensures SortedBy(Insert(x, s, key), key)
  {
    if s != [] && key(x) > key(s[0]) {
      InsertSorted(x, s[1..], key);
      InsertLowerBound(x, s[1..], key, key(s[0]));
    }
  }

  lemma {:induction false} InsertKeyFilter<T>(x: T, s: seq<T>, key: T -> int, k: int)
    ensures KeyFilter(Insert(x, s, key), key, k)
            == (if key(x) == k then [x] else []) + KeyFilter(s, key, k)
  {
    var r := Insert(x, s, key);
    if s == [] || key(x) <= key(s[0]) {
      assert r[1..] == s;
    } else {
      InsertKeyFilter(x, s[1..], key, k);
      assert r[1..] == Insert(x, s[1..], key);
    }
  }

  /**
   * `SortBy` orders by key, keeps every element with its multiplicity, and is
   * stable: the elements sharing a key keep their input order.
   */
  lemma {:induction false} SortByFacts<T>(s: seq<T>, key: T -> int)
    ensures |SortBy(s, key)| == |s|
    ensures SortedBy(SortBy(s, key), key)
    ensures multiset(SortBy(s, key)) == multiset(s)
    ensures forall k :: KeyFilter(SortBy(s, key), key, k) == KeyFilter(s, key, k)
  {
    if s != [] {
      SortByFacts(s[1..], key);
      InsertMultiset(s[0], SortBy(s[1..], key), key);
      InsertSorted(s[0], SortBy(s[1..], key), key);
      assert s == [s[0]] + s[1..];
      forall k ensures KeyFilter(SortBy(s, key), key, k) == KeyFilter(s, key, k) {
        InsertKeyFilter(s[0], SortBy(s[1..], key), key, k);
      }
    }
  }

  /** Sorting keeps every element, so a property all elements lack stays absent. */
  lemma SortByNone<T>(s: seq<T>, key: T -> int, p: T -> bool)
    requires forall i :: 0 <= i < |s| ==> !p(s[i])
    ensures forall i :: 0 <= i < |SortBy(s, key)| ==> !p(SortBy(s, key)[i])
  {
    SortByFacts(s, key);
    var out := SortBy(s, key);
    forall i | 0 <= i < |out| ensures !p(out[i]) {
      assert out[i] in multiset(s);
      var k :| 0 <= k < |s| && s[k] == out[i];
    }
  }

  /** Filtering by a property no element has leaves nothing. */
  lemma FilterNone<T>(s: seq<T>, p: T -> bool)
    requires forall i :: 0 <= i < |s| ==> !p(s[i])
    ensures Filter(s, p) == []
  {
    if Filter(s, p) != [] {
      var k :| 0 <= k < |s| && s[k] == Filter(s, p)[0];
    }
  }

  /** Index of the first element whose key is the least. */
  function FirstMinIndex<T>(s: seq<T>, key: T -> int): (i: nat)
    requires |s| > 0
    ensures i < |s|
    ensures forall j :: 0 <= j < |s| ==> key(s[i]) <= key(s[j])
    ensures forall j :: 0 <= j < i ==> key(s[j]) > key(s[i])
  {
    if |s| == 1 then 0
    else
      var j := 1 + FirstMinIndex(s[1..], key);
      assert s[j] == s[1..][j - 1];
      if key(s[0]) <= key(s[j]) then 0 else j
  }

  lemma FirstMinIndexUnique<T>(s: seq<T>, key: T -> int, i: nat)
    requires i < |s|
    requires forall j :: 0 <= j < |s| ==> key(s[i]) <= key(s[j])
    requires forall j :: 0 <= j < i ==> key(s[j]) > key(s[i])
    ensures FirstMinIndex(s, key) == i
  {
  }

  /** The first least element of `a + b` is `a`'s unless `b` holds a strictly smaller key. */
  lemma FirstMinAppend<T>(a: seq<T>, b: seq<T>, key: T -> int)
    requires |a| > 0 && |b| > 0
    ensures (a + b)[FirstMinIndex(a + b, key)]
            == if key(a[FirstMinIndex(a, key)]) <= key(b[FirstMinIndex(b, key)])
               then a[FirstMinIndex(a, key)] else b[FirstMinIndex(b, key)]
  {
    var ia, ib := FirstMinIndex(a, key), FirstMinIndex(b, key);
    var s := a + b;
    assert forall j :: 0 <= j < |a| ==> s[j] == a[j];
    assert forall j :: |a| <= j < |s| ==> s[j] == b[j - |a|];
    if key(a[ia]) <= key(b[ib]) {
      FirstMinIndexUnique(s, key, ia);
    } else {
      FirstMinIndexUnique(s, key, |a| + ib);
    }
  }

  /** The head of a stable sort is the first element carrying the least key. */
  lemma {:induction false} SortByHead<T>(s: seq<T>, key: T -> int)
    requires |s| > 0
    ensures |SortBy(s, key)| == |s|
    ensures SortBy(s, key)[0] == s[FirstMinIndex(s, key)]
  {
    SortByFacts(s, key);
    if |s| > 1 {
      SortByHead(s[1..], key);
      SortByFacts(s[1..], key);
      var j := 1 + FirstMinIndex(s[1..], key);
      assert s[j] == s[1..][j - 1];
    }
  }

  predicate Distinct<T(==)>(s: seq<T>) {
    forall i, j :: 0 <= i < j < |s| ==> s[i] != s[j]
  }

  /** The elements of `s` not in `seen`, each at its first occurrence. */
  function UniqueAfter<T(==)>(s: seq<T>, seen: set<T>): (r: seq<T>)
    ensures forall i :: 0 <= i < |r| ==> r[i] in s && r[i] !in seen
    ensures forall i :: 0 <= i < |s| && s[i] !in seen ==> s[i] in r
    ensures Distinct(r)
  {
    if s == [] then []
    else if s[0] in seen then UniqueAfter(s[1..], seen)
    else [s[0]] + UniqueAfter(s[1..], seen + {s[0]})
  }

  /** `Itertools::unique`: each element once, at its first occurrence. */
  function Unique<T(==)>(s: seq<T>): (r: seq<T>)
    ensures forall i :: 0 <= i < |r| ==> r[i] in s
    ensures forall i :: 0 <= i < |s| ==> s[i] in r
    ensures Distinct(r)
  {
    UniqueAfter(s, {})
  }

  /**
   * An independent reading of `unique`: walking from the end, an element is
   * kept exactly when it does not occur earlier.
   */
  function FirstOccurrences<T(==)>(s: seq<T>): seq<T> {
    if s == [] then []
    else
      var init, last := s[..|s| - 1], s[|s| - 1];
      FirstOccurrences(init) + (if last in init then [] else [last])
  }

  lemma {:induction false} UniqueAfterSnoc<T>(s: seq<T>, x: T, seen: set<T>)
    ensures UniqueAfter(s + [x], seen) == UniqueAfter(s, seen) + (if x in seen || x in s then [] else [x])
  {
    if s != [] {
      assert (s + [x])[0] == s[0] && (s + [x])[1..] == s[1..] + [x];
      assert x in s <==> x == s[0] || x in s[1..];
      if s[0] in seen {
        UniqueAfterSnoc(s[1..], x, seen);
      } else {
        UniqueAfterSnoc(s[1..], x, seen + {s[0]});
      }
    }
  }

  /** `unique` keeps exactly the first occurrences, in their order. */
  lemma {:induction false} UniqueIsFirstOccurrences<T>(s: seq<T>)
    ensures Unique(s) == FirstOccurrences(s)
    decreases |s|
  {
    if s != [] {
      var init := s[..|s| - 1];
      assert s == init + [s[|s| - 1]];
      UniqueAfterSnoc(init, s[|s| - 1], {});
      UniqueIsFirstOccurrences(init);
    }
  }

  /** With nothing seen yet and no repeats, nothing is dropped. */
  lemma {:induction false} UniqueAfterDistinct<T>(s: seq<T>, seen: set<T>)
    requires Distinct(s)
    requires forall x :: x in s ==> x !in seen
    ensures UniqueAfter(s, seen) == s
  {
    if s != [] {
      assert forall x :: x in s[1..] ==> x != s[0] && x !in seen + {s[0]} by {
        forall x | x in s[1..]
          ensures x != s[0] && x !in seen + {s[0]}
        {
          var k :| 1 <= k < |s| && s[k] == x;
        }
      }
      UniqueAfterDistinct(s[1..], seen + {s[0]});
    }
  }

  /** A list without repeats is its own `unique`. */
  lemma UniqueOfDistinct<T>(s: seq<T>)
    requires Distinct(s)
    ensures Unique(s) == s
  {
    UniqueAfterDistinct(s, {});
  }

  /** The first element always survives `unique`. */
  lemma UniqueHead<T>(s: seq<T>)
    requires |s| > 0
    ensures |Unique(s)| > 0 && Unique(s)[0] == s[0]
  {
  }
}

