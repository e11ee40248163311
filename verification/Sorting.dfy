/** What sorting in place and truncating promise, whatever order the elements arrived in. */
module Sorting {
  /** A strict weak order: asymmetric, and incomparable elements are interchangeable. */
  ghost predicate StrictWeak<T(!new)>(less: (T, T) -> bool) {
    && (forall x, y :: less(x, y) ==> !less(y, x))
    && (forall x, y, z {:trigger less(x, y), less(y, z)} :: less(x, z) ==> less(x, y) || less(y, z))
  }

  ghost predicate Sorted<T>(s: seq<T>, less: (T, T) -> bool) {
    forall i, j :: 0 <= i < j < |s| ==> !less(s[j], s[i])
  }

  /** Sorted but for the j-th element, which may still belong further down. */
  ghost predicate SortedBut<T>(s: seq<T>, j: nat, less: (T, T) -> bool) {
    forall p, q :: 0 <= p < q < |s| && q != j ==> !less(s[q], s[p])
  }

  lemma SwapDown<T(!new)>(s: seq<T>, j: nat, less: (T, T) -> bool)
    requires StrictWeak(less) && 0 < j < |s| && SortedBut(s, j, less) && less(s[j], s[j - 1])
    ensures SortedBut(s[j := s[j - 1]][j - 1 := s[j]], j - 1, less)
  {
    assert !less(s[j - 1], s[j]);
  }

  /** Once the j-th element is in place too, all are. */
  lemma InPlace<T(!new)>(s: seq<T>, j: nat, less: (T, T) -> bool)
    requires StrictWeak(less) && j < |s| && SortedBut(s, j, less)
    requires j == 0 || !less(s[j], s[j - 1])
    ensures Sorted(s, less)
  {
    forall p | 0 <= p < j ensures !less(s[j], s[p]) {
      if p < j - 1 { assert !less(s[j - 1], s[p]) && !less(s[j], s[j - 1]); }
    }
  }

  /** Moves a[i] down to its place in the sorted stretch before it. */
  method Insert<T(!new)>(a: array<T>, i: nat, less: (T, T) -> bool)
    requires StrictWeak(less) && i < a.Length && Sorted(a[..i], less)
    modifies a
    ensures multiset(a[..]) == multiset(old(a[..])) && Sorted(a[..i + 1], less)
  {
    var j := i;
    assert SortedBut(a[..i + 1], j, less);
    hide StrictWeak, SortedBut, Sorted;
    while j > 0 && less(a[j], a[j - 1])
      invariant 0 <= j <= i
      invariant multiset(a[..]) == multiset(old(a[..]))
      invariant SortedBut(a[..i + 1], j, less)
    {
      ghost var s := a[..i + 1];
      SwapDown(s, j, less);
      a[j - 1], a[j] := a[j], a[j - 1];
      assert a[..i + 1] == s[j := s[j - 1]][j - 1 := s[j]];
      j := j - 1;
    }
    InPlace(a[..i + 1], j, less);
  }

  /** Sorts in place by `less`; equal elements may end in any order. */
  method SortSlice<T(!new)>(a: array<T>, less: (T, T) -> bool)
    requires StrictWeak(less)
    modifies a
    ensures multiset(a[..]) == multiset(old(a[..]))
    ensures Sorted(a[..], less)
  {
    for i := 0 to a.Length
      invariant multiset(a[..]) == multiset(old(a[..]))
      invariant Sorted(a[..i], less)
    {
      Insert(a, i, less);
    }
    assert a[..a.Length] == a[..];
  }

  /** Every list has a sorted rearrangement. */
  lemma {:induction false} SortedExists<T(!new)>(s: seq<T>, less: (T, T) -> bool) returns (t: seq<T>)
    requires StrictWeak(less)
    ensures multiset(t) == multiset(s) && Sorted(t, less)
  {
    if s == [] {
      t := [];
    } else {
      var rest := SortedExists(s[1..], less);
      t := InsertionExists(s[0], rest, less);
      assert s == [s[0]] + s[1..];
    }
  }

  lemma {:induction false} InsertionExists<T(!new)>(x: T, s: seq<T>, less: (T, T) -> bool) returns (t: seq<T>)
    requires StrictWeak(less) && Sorted(s, less)
    ensures multiset(t) == multiset{x} + multiset(s) && Sorted(t, less)
  {
    if s == [] || !less(s[0], x) {
      t := [x] + s;
    } else {
      var rest := InsertionExists(x, s[1..], less);
      t := [s[0]] + rest;
      assert s == [s[0]] + s[1..];
      forall y | y in rest ensures !less(y, s[0]) {
        assert y in multiset(rest);
      }
    }
  }

  lemma TailBag<T>(s: seq<T>)
    requires s != []
    ensures multiset(s[1..]) == multiset(s) - multiset{s[0]}
  {
    assert s == [s[0]] + s[1..];
  }

  /** Where no two different elements are incomparable, the sorted order of a multiset is unique. */
  lemma {:induction false} SortedUnique<T(!new)>(a: seq<T>, b: seq<T>, less: (T, T) -> bool)
    requires StrictWeak(less) && multiset(a) == multiset(b) && Sorted(a, less) && Sorted(b, less)
    requires forall x, y :: x in a && y in a && !less(x, y) && !less(y, x) ==> x == y
    ensures a == b
  {
    assert |a| == |multiset(a)| == |multiset(b)| == |b|;
    if a != [] {
      assert a[0] in multiset(b) by { assert a[0] in multiset(a); }
      assert b[0] in multiset(a) by { assert b[0] in multiset(b); }
      assert a[0] == b[0];
      TailBag(a);
      TailBag(b);
      assert a == [a[0]] + a[1..] && b == [b[0]] + b[1..];
      SortedUnique(a[1..], b[1..], less);
    }
  }

  // ---- strings ------------------------------------------------------------------------------

  /** Go's string order: by code point, a proper prefix first. */
  predicate Before(a: string, b: string) {
    b != "" && (a == "" || a[0] < b[0] || (a[0] == b[0] && Before(a[1..], b[1..])))
  }

  lemma {:induction false} BeforeAsymmetric(a: string, b: string)
    requires Before(a, b)
    ensures !Before(b, a)
  {
    if a != "" && a[0] == b[0] {
      BeforeAsymmetric(a[1..], b[1..]);
    }
  }

  lemma {:induction false} BeforeCotransitive(a: string, b: string, c: string)
    requires Before(a, c)
    ensures Before(a, b) || Before(b, c)
  {
    if a != "" && b != "" && a[0] == c[0] && b[0] == a[0] {
      BeforeCotransitive(a[1..], b[1..], c[1..]);
    }
  }

  lemma {:induction false} BeforeTotal(a: string, b: string)
    requires !Before(a, b) && !Before(b, a)
    ensures a == b
  {
    if a != "" && b != "" {
      BeforeTotal(a[1..], b[1..]);
      assert a == [a[0]] + a[1..] && b == [b[0]] + b[1..];
    }
  }

  /** In plain terms: where the strings first differ the smaller character decides, and a proper prefix comes
      first. */
  ghost predicate DecidedAt(a: string, b: string, k: nat) {
    && k <= |a| && k < |b| && a[..k] == b[..k]
    && (k == |a| || a[k] < b[k])
  }

  lemma {:induction false} BeforeIff(a: string, b: string)
    ensures Before(a, b) <==> exists k: nat :: DecidedAt(a, b, k)
  {
    if a == "" || b == "" || a[0] != b[0] {
      assert b != "" && (a == "" || a[0] < b[0]) ==> DecidedAt(a, b, 0);
      assert forall k: nat :: 0 < k <= |a| && k < |b| ==> a[..k][0] == a[0] && b[..k][0] == b[0];
    } else {
      BeforeIff(a[1..], b[1..]);
      forall k: nat ensures DecidedAt(a[1..], b[1..], k) <==> DecidedAt(a, b, k + 1) {
        if k + 1 <= |a| && k + 1 < |b| {
          assert a[..k + 1] == [a[0]] + a[1..][..k] && b[..k + 1] == [b[0]] + b[1..][..k];
        }
      }
      assert !DecidedAt(a, b, 0);
      if k: nat :| DecidedAt(a, b, k) { assert DecidedAt(a[1..], b[1..], k - 1); }
      if k: nat :| DecidedAt(a[1..], b[1..], k) { assert DecidedAt(a, b, k + 1); }
    }
  }

  // ---- the first n of a ranking ------------------------------------------------------------------

  predicate Ranked<T>(s: seq<T>, key: T -> int) {
    forall i, j :: 0 <= i < j < |s| ==> key(s[i]) >= key(s[j])
  }

  /** `top` is a right answer to "the n largest of `all` by key, largest first". */
  ghost predicate IsTop<T(!new)>(all: multiset<T>, n: nat, key: T -> int, top: seq<T>) {
    && |top| == (if |all| < n then |all| else n)
    && Ranked(top, key)
    && multiset(top) <= all
    && forall x, y :: x in all - multiset(top) && y in top ==> key(x) <= key(y)
  }

  lemma SplitBag<T>(s: seq<T>, m: nat)
    requires m <= |s|
    ensures multiset(s) == multiset(s[..m]) + multiset(s[m..])
  {
    assert s == s[..m] + s[m..];
  }

  lemma RankedAcross<T>(key: T -> int, s: seq<T>, m: nat, x: T, y: T)
    requires Ranked(s, key) && m <= |s| && x in s[m..] && y in s[..m]
    ensures key(x) <= key(y)
  {
    var i :| 0 <= i < m && s[i] == y;
    var j :| 0 <= j < |s| - m && s[m..][j] == x;
    assert s[m + j] == x;
  }

  /** Truncating a ranking gives the top. */
  lemma TruncatedIsTop<T(!new)>(all: multiset<T>, n: nat, key: T -> int, ranking: seq<T>)
    requires multiset(ranking) == all && Ranked(ranking, key)
    ensures IsTop(all, n, key, if |ranking| > n then ranking[..n] else ranking)
  {
    var m := if |ranking| > n then n else |ranking|;
    var top, rest := ranking[..m], ranking[m..];
    assert |ranking| == |all| && Ranked(top, key);
    SplitBag(ranking, m);
    hide Ranked;
    forall x, y | x in all - multiset(top) && y in top ensures key(x) <= key(y) {
      assert x in multiset(rest);
      RankedAcross(key, ranking, m, x, y);
    }
    assert m == |ranking| ==> top == ranking;
  }

  /** A part as large as the whole misses nothing. */
  lemma WholeBag<T>(all: multiset<T>, part: seq<T>, x: T)
    requires multiset(part) <= all && |part| == |all|
    ensures x in all ==> x in part
  {
    assert all == multiset(part) + (all - multiset(part));
    assert |all| == |multiset(part)| + |all - multiset(part)|;
  }

  /** What is not on the top is no larger than anything on it, and the top is full. */
  lemma TopCovers<T(!new)>(all: multiset<T>, n: nat, key: T -> int, top: seq<T>, x: T)
    requires IsTop(all, n, key, top) && x in all && x !in top
    ensures |top| == n && forall y :: y in top ==> key(x) <= key(y)
  {
    assert x !in multiset(top) && x in all - multiset(top);
    if |top| < n { WholeBag(all, top, x); }
  }

  lemma SubsetSmaller<T>(a: multiset<T>, b: multiset<T>)
    requires a <= b
    ensures |a| <= |b|
  {
    assert b == a + (b - a);
  }

  /** What beats the k-th place stands before it. */
  lemma BeatsKth<T>(key: T -> int, t: seq<T>, k: nat, x: T)
    requires Ranked(t, key) && k < |t| && key(x) > key(t[k])
    ensures multiset(t[..k])[x] == multiset(t)[x]
  {
    assert t == t[..k] + t[k..];
    forall j | 0 <= j < |t[k..]| ensures t[k..][j] != x {
      assert t[k..][j] == t[k + j];
    }
  }

  /** A top keeps every copy of what beats one of its elements. */
  lemma KeepsWhatBeats<T(!new)>(all: multiset<T>, n: nat, key: T -> int, top: seq<T>, k: nat, x: T)
    requires IsTop(all, n, key, top) && k < |top| && key(x) > key(top[k])
    ensures all[x] <= multiset(top)[x]
  {
    assert top[k] in top;
    assert x in all - multiset(top) <==> all[x] > multiset(top)[x];
  }

  lemma PrefixCounts<T>(s: seq<T>, m: nat, x: T)
    requires m <= |s|
    ensures multiset(s[..m])[x] <= multiset(s)[x]
  {
    assert s == s[..m] + s[m..];
  }

  lemma TopIsWithin<T(!new)>(all: multiset<T>, n: nat, key: T -> int, top: seq<T>, i: nat, k: nat, x: T)
    requires IsTop(all, n, key, top) && i <= k < |top|
    ensures Ranked(top, key) && key(top[i]) >= key(top[k]) && multiset(top)[x] <= all[x]
  {
  }

  /** Whatever stands among the first k + 1 of u, all beating t's k-th, stands before t's k-th. */
  lemma ReachesEarly<T(!new)>(all: multiset<T>, n: nat, key: T -> int, t: seq<T>, u: seq<T>, k: nat, i: nat)
    requires IsTop(all, n, key, t) && IsTop(all, n, key, u) && i <= k < |t| && k < |u|
    requires key(t[k]) < key(u[k])
    ensures multiset(u[..k + 1])[u[i]] <= multiset(t[..k])[u[i]]
  {
    hide IsTop, Ranked;
    TopIsWithin(all, n, key, t, 0, k, u[i]);
    TopIsWithin(all, n, key, u, i, k, u[i]);
    BeatsKth(key, t, k, u[i]);
    KeepsWhatBeats(all, n, key, t, k, u[i]);
    PrefixCounts(u, k + 1, u[i]);
  }

  /** The k-th value of a top is at least the k-th value of any other: more than k elements reach the
      latter, and only k places before the k-th could hold them. */
  lemma KthAtLeast<T(!new)>(all: multiset<T>, n: nat, key: T -> int, t: seq<T>, u: seq<T>, k: nat)
    requires IsTop(all, n, key, t) && IsTop(all, n, key, u) && k < |t|
    ensures key(t[k]) >= key(u[k])
  {
    assert |t| == |u|;
    hide IsTop;
    var reach := multiset(u[..k + 1]);
    if key(t[k]) < key(u[k]) {
      forall x | x in reach ensures reach[x] <= multiset(t[..k])[x] {
        var i :| 0 <= i <= k && u[i] == x;
        ReachesEarly(all, n, key, t, u, k, i);
      }
      SubsetSmaller(reach, multiset(t[..k]));
    }
  }

  /** All right answers rank the same values, whatever ties they broke. */
  lemma TopValuesUnique<T(!new)>(all: multiset<T>, n: nat, key: T -> int, t: seq<T>, u: seq<T>)
    requires IsTop(all, n, key, t) && IsTop(all, n, key, u)
    ensures |t| == |u| && forall k :: 0 <= k < |t| ==> key(t[k]) == key(u[k])
  {
    forall k | 0 <= k < |t| ensures key(t[k]) == key(u[k]) {
      KthAtLeast(all, n, key, t, u, k);
      KthAtLeast(all, n, key, u, t, k);
    }
  }
}
