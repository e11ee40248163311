/** Sums, images and concatenations of lists, and why they do not depend on the lists' order. */
module Bags {
  function Sum<T>(key: T -> int, s: seq<T>): int {
    if s == [] then 0 else key(s[0]) + Sum(key, s[1..])
  }

  function Map<A, B>(f: A -> B, s: seq<A>): (r: seq<B>)
    ensures |r| == |s| && forall i :: 0 <= i < |s| ==> r[i] == f(s[i])
  {
    seq(|s|, i requires 0 <= i < |s| => f(s[i]))
  }

  function Flat<A, B>(f: A -> seq<B>, s: seq<A>): seq<B> {
    if s == [] then [] else f(s[0]) + Flat(f, s[1..])
  }

  lemma {:induction false} SumConcat<T>(key: T -> int, s: seq<T>, t: seq<T>)
    ensures Sum(key, s + t) == Sum(key, s) + Sum(key, t)
  {
    if s == [] {
      assert s + t == t;
    } else {
      SumConcat(key, s[1..], t);
      assert (s + t)[1..] == s[1..] + t;
    }
  }

  lemma {:induction false} FlatConcat<A, B>(f: A -> seq<B>, s: seq<A>, t: seq<A>)
    ensures Flat(f, s + t) == Flat(f, s) + Flat(f, t)
  {
    if s == [] {
      assert s + t == t;
    } else {
      FlatConcat(f, s[1..], t);
      assert (s + t)[1..] == s[1..] + t;
      assert Flat(f, s + t) == f(s[0]) + (Flat(f, s[1..]) + Flat(f, t));
    }
  }

  lemma SumNext<T>(key: T -> int, s: seq<T>, i: nat)
    requires i < |s|
    ensures Sum(key, s[..i + 1]) == Sum(key, s[..i]) + key(s[i])
  {
    assert s[..i + 1] == s[..i] + [s[i]];
    SumConcat(key, s[..i], [s[i]]);
  }

  lemma FlatNext<A, B>(f: A -> seq<B>, s: seq<A>, i: nat)
    requires i < |s|
    ensures Flat(f, s[..i + 1]) == Flat(f, s[..i]) + f(s[i])
  {
    assert s[..i + 1] == s[..i] + [s[i]];
    FlatConcat(f, s[..i], [s[i]]);
    assert Flat(f, [s[i]]) == f(s[i]);
  }

  lemma {:induction false} SumMap<A, B>(f: A -> B, key: A -> int, image: B -> int, s: seq<A>)
    requires forall x :: x in s ==> image(f(x)) == key(x)
    ensures Sum(image, Map(f, s)) == Sum(key, s)
  {
    if s != [] {
      SumMap(f, key, image, s[1..]);
      assert Map(f, s)[1..] == Map(f, s[1..]);
    }
  }

  lemma {:induction false} FlatElements<A, B>(f: A -> seq<B>, s: seq<A>, x: B)
    ensures x in Flat(f, s) <==> exists i :: 0 <= i < |s| && x in f(s[i])
  {
    if s != [] {
      FlatElements(f, s[1..], x);
      if i :| 0 <= i < |s[1..]| && x in f(s[1..][i]) { assert x in f(s[i + 1]); }
      if i :| 0 <= i < |s| && x in f(s[i]) { assert i > 0 ==> s[1..][i - 1] == s[i]; }
    }
  }

  lemma Without<T>(s: seq<T>, i: nat)
    requires i < |s|
    ensures multiset(s[..i] + s[i + 1..]) == multiset(s) - multiset{s[i]}
    ensures s == s[..i] + ([s[i]] + s[i + 1..])
  {
    assert s == s[..i] + ([s[i]] + s[i + 1..]);
  }

  lemma WithoutFirst<T>(s: seq<T>)
    requires s != []
    ensures multiset(s[1..]) == multiset(s) - multiset{s[0]}
  {
    assert s == [s[0]] + s[1..];
  }

  lemma Find<T>(a: seq<T>, b: seq<T>) returns (i: nat)
    requires multiset(a) == multiset(b) && a != []
    ensures i < |b| && b[i] == a[0]
  {
    assert a[0] in multiset(b) by { assert a[0] in multiset(a); }
    i :| 0 <= i < |b| && b[i] == a[0];
  }

  /** The first element of a list stands somewhere in any reordering of it; dropping both leaves
      reorderings. */
  lemma Pull<T>(a: seq<T>, b: seq<T>) returns (i: nat)
    requires multiset(a) == multiset(b) && a != []
    ensures i < |b| && b == b[..i] + ([a[0]] + b[i + 1..])
    ensures multiset(a[1..]) == multiset(b[..i] + b[i + 1..])
  {
    i := Find(a, b);
    WithoutFirst(a);
    Without(b, i);
  }

  lemma {:induction false} SumPermutation<T>(key: T -> int, a: seq<T>, b: seq<T>)
    requires multiset(a) == multiset(b)
    ensures Sum(key, a) == Sum(key, b)
  {
    assert |a| == |multiset(a)| == |multiset(b)| == |b|;
    if a != [] {
      var i := Pull(a, b);
      SumPermutation(key, a[1..], b[..i] + b[i + 1..]);
      SumConcat(key, b[..i], b[i + 1..]);
      SumConcat(key, b[..i], [a[0]] + b[i + 1..]);
    }
  }

  lemma {:induction false} FlatPermutation<A, B>(f: A -> seq<B>, a: seq<A>, b: seq<A>)
    requires multiset(a) == multiset(b)
    ensures multiset(Flat(f, a)) == multiset(Flat(f, b))
  {
    assert |a| == |multiset(a)| == |multiset(b)| == |b|;
    if a != [] {
      var i := Pull(a, b);
      FlatPermutation(f, a[1..], b[..i] + b[i + 1..]);
      FlatConcat(f, b[..i], b[i + 1..]);
      FlatConcat(f, b[..i], [a[0]] + b[i + 1..]);
    }
  }

  lemma {:induction false} MapIsFlat<A, B>(f: A -> B, s: seq<A>)
    ensures Map(f, s) == Flat(x => [f(x)], s)
  {
    if s != [] {
      MapIsFlat(f, s[1..]);
      assert Map(f, s) == [f(s[0])] + Map(f, s[1..]);
    }
  }

  lemma MapPermutation<A, B>(f: A -> B, a: seq<A>, b: seq<A>)
    requires multiset(a) == multiset(b)
    ensures multiset(Map(f, a)) == multiset(Map(f, b))
  {
    MapIsFlat(f, a);
    MapIsFlat(f, b);
    FlatPermutation(x => [f(x)], a, b);
  }
}
