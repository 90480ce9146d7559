/** Sorting under a strict order. Insertion sort stands for the library's sort: by
    `ChainUnique` every sort of distinct comparable elements returns the same sequence. */
module Sorting {
  import opened Basics

  ghost predicate Transitive<T(!new)>(less: (T, T) -> bool) {
    forall x, y, z :: less(x, y) && less(y, z) ==> less(x, z)
  }

  ghost predicate Irreflexive<T(!new)>(less: (T, T) -> bool) {
    forall x :: !less(x, x)
  }

  // Every two elements at different places are ordered one way or the other.
  predicate Comparable<T>(less: (T, T) -> bool, s: seq<T>) {
    forall i, j | 0 <= i < j < |s| :: less(s[i], s[j]) || less(s[j], s[i])
  }

  predicate Chain<T>(less: (T, T) -> bool, s: seq<T>) {
    forall i, j | 0 <= i < j < |s| :: less(s[i], s[j])
  }

  function Insert<T>(less: (T, T) -> bool, s: seq<T>, x: T): seq<T> {
    if s == [] then [x]
    else if less(x, s[0]) then [x] + s
    else [s[0]] + Insert(less, s[1..], x)
  }

  function Sort<T>(less: (T, T) -> bool, s: seq<T>): seq<T> {
    if s == [] then [] else Insert(less, Sort(less, s[..|s| - 1]), s[|s| - 1])
  }

  lemma {:induction false} InsertFacts<T(!new)>(less: (T, T) -> bool, s: seq<T>, x: T)
    requires Transitive(less) && Chain(less, s)
    requires forall y | y in s :: less(x, y) || less(y, x)
    ensures multiset(Insert(less, s, x)) == multiset(s) + multiset{x}
    ensures Chain(less, Insert(less, s, x))
  {
    if s == [] {
    } else if less(x, s[0]) {
    } else {
      var rest := Insert(less, s[1..], x);
      InsertFacts(less, s[1..], x);
      assert s == [s[0]] + s[1..];
      forall j | 0 <= j < |rest|
        ensures less(s[0], rest[j])
      {
        assert rest[j] in multiset(rest);
        assert rest[j] == x || rest[j] in s[1..];
      }
    }
  }

  lemma {:induction false} SortFacts<T(!new)>(less: (T, T) -> bool, s: seq<T>)
    requires Transitive(less) && Comparable(less, s)
    ensures Chain(less, Sort(less, s)) && multiset(Sort(less, s)) == multiset(s)
    ensures |Sort(less, s)| == |s| && forall x :: x in Sort(less, s) <==> x in s
  {
    if s != [] {
      var front, last := s[..|s| - 1], s[|s| - 1];
      assert s == front + [last];
      SortFacts(less, front);
      InsertFacts(less, Sort(less, front), last);
    }
    assert |multiset(s)| == |s| && |multiset(Sort(less, s))| == |Sort(less, s)|;
    assert forall x :: x in s <==> x in multiset(s);
    assert forall x :: x in Sort(less, s) <==> x in multiset(Sort(less, s));
  }

  // The elements of a chain determine it.
  lemma {:induction false} ChainUnique<T(!new)>(less: (T, T) -> bool, s: seq<T>, t: seq<T>)
    requires Transitive(less) && Irreflexive(less) && Chain(less, s) && Chain(less, t)
    requires forall x :: x in s <==> x in t
    ensures s == t
  {
    if t != [] {
      assert t[0] in s;
    }
    if s != [] {
      assert s[0] in t;
      ChainHead(less, s, t);
      assert s == [s[0]] + s[1..] && t == [t[0]] + t[1..];
      forall x
        ensures x in s[1..] <==> x in t[1..]
      {
        assert x in s[1..] <==> x in s && x != s[0];
        assert x in t[1..] <==> x in t && x != t[0];
      }
      ChainUnique(less, s[1..], t[1..]);
    }
  }

  lemma ChainHead<T(!new)>(less: (T, T) -> bool, s: seq<T>, t: seq<T>)
    requires Transitive(less) && Irreflexive(less) && Chain(less, s) && Chain(less, t) && s != [] && t != []
    requires forall x :: x in s <==> x in t
    ensures s[0] == t[0]
  {
    assert s[0] in t && t[0] in s;
    assert forall k | 0 < k < |s| :: less(s[0], s[k]);
    assert forall k | 0 < k < |t| :: less(t[0], t[k]);
  }

  // ------------------------------------------------ orders with ties

  // No element stands before a smaller one.
  predicate Ordered<T>(less: (T, T) -> bool, s: seq<T>) {
    forall i, j | 0 <= i < j < |s| :: !less(s[j], s[i])
  }

  // Ties are transitive: `less` is the order of some key.
  ghost predicate Weak<T(!new)>(less: (T, T) -> bool) {
    && (forall x, y :: less(x, y) ==> !less(y, x))
    && (forall x, y, z :: !less(y, x) && !less(z, y) ==> !less(z, x))
  }

  lemma {:induction false} InsertOrdered<T(!new)>(less: (T, T) -> bool, s: seq<T>, x: T)
    requires Weak(less) && Ordered(less, s)
    ensures multiset(Insert(less, s, x)) == multiset(s) + multiset{x} && Ordered(less, Insert(less, s, x))
  {
    if s != [] {
      assert s == [s[0]] + s[1..];
      if less(x, s[0]) {
        var all := [x] + s;
        forall j | 0 < j < |all|
          ensures !less(all[j], x)
        {
          assert !less(s[0], x) && (j > 1 ==> !less(s[j - 1], s[0]));
        }
      } else {
        var rest := Insert(less, s[1..], x);
        InsertOrdered(less, s[1..], x);
        forall j | 0 <= j < |rest|
          ensures !less(rest[j], s[0])
        {
          assert rest[j] in multiset(rest);
          assert rest[j] == x || rest[j] in s[1..];
        }
      }
    }
  }

  lemma {:induction false} SortOrdered<T(!new)>(less: (T, T) -> bool, s: seq<T>)
    requires Weak(less)
    ensures Ordered(less, Sort(less, s)) && multiset(Sort(less, s)) == multiset(s)
  {
    if s != [] {
      var front, last := s[..|s| - 1], s[|s| - 1];
      assert s == front + [last];
      SortOrdered(less, front);
      InsertOrdered(less, Sort(less, front), last);
    }
  }
}
