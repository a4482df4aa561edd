/** Generic sequence helpers: filtering, concatenating per-element results
    and removing duplicates. */
module Seqs {

  /** No element occurs twice. */
  predicate NoDups<T(==,!new)>(xs: seq<T>) {
    forall i, j :: 0 <= i < j < |xs| ==> xs[i] != xs[j]
  }

  /** Without duplicates, an element occurs once if present at all. */
  lemma {:induction false} NoDupsMultiplicity<T(!new)>(xs: seq<T>, x: T)
    requires NoDups(xs)
    ensures multiset(xs)[x] == if x in xs then 1 else 0
  {
    if xs != [] {
      assert xs == [xs[0]] + xs[1..];
      assert NoDups(xs[1..]) by {
        forall i, j | 0 <= i < j < |xs[1..]| ensures xs[1..][i] != xs[1..][j] {
          assert xs[1..][i] == xs[i + 1] && xs[1..][j] == xs[j + 1];
        }
      }
      NoDupsMultiplicity(xs[1..], x);
    }
  }

  /** The elements of `xs` that `keep` accepts, in their original order.
      Each kept element occurs as often as in `xs`; the others not at all. */
  function Filter<T(==,!new)>(xs: seq<T>, keep: T -> bool): (r: seq<T>)
    ensures |r| <= |xs|
    ensures forall x :: x in r <==> x in xs && keep(x)
    ensures NoDups(xs) ==> NoDups(r)
  {
    if xs == [] then []
    else
      var rest := Filter(xs[1..], keep);
      assert forall x :: x in xs <==> x == xs[0] || x in xs[1..];
      assert NoDups(xs) ==> NoDups(xs[1..]) && xs[0] !in xs[1..];
      if keep(xs[0]) then [xs[0]] + rest else rest
  }

  /** Two duplicate-free sequences with the same elements are permutations
      of each other. */
  lemma DistinctSameElements<T(!new)>(a: seq<T>, b: seq<T>)
    requires NoDups(a) && NoDups(b)
    requires forall x :: x in a <==> x in b
    ensures multiset(a) == multiset(b)
  {
    forall x ensures multiset(a)[x] == multiset(b)[x] {
      NoDupsMultiplicity(a, x);
      NoDupsMultiplicity(b, x);
    }
  }

  /** Filtering a sequence that lists every value keeps exactly the
      accepted values, each once when the list has no duplicates. */
  lemma FilterOfAll<T(!new)>(xs: seq<T>, keep: T -> bool)
    requires forall x: T :: x in xs
    ensures forall x :: x in Filter(xs, keep) <==> keep(x)
  {
  }

  /** Each kept element occurs in the filtered sequence as often as in the
      original; the others not at all. */
  lemma {:induction false} FilterMultiplicity<T(!new)>(xs: seq<T>, keep: T -> bool, x: T)
    ensures multiset(Filter(xs, keep))[x] == if keep(x) then multiset(xs)[x] else 0
  {
    if xs != [] {
      FilterMultiplicity(xs[1..], keep, x);
      assert xs == [xs[0]] + xs[1..];
      assert multiset(xs) == multiset{xs[0]} + multiset(xs[1..]);
      if keep(xs[0]) {
        var rest := Filter(xs[1..], keep);
        assert multiset([xs[0]] + rest) == multiset{xs[0]} + multiset(rest);
      }
    }
  }

  /** Filtering a concatenation filters each part. */
  lemma {:induction false} FilterAppend<T(!new)>(a: seq<T>, b: seq<T>, keep: T -> bool)
    ensures Filter(a + b, keep) == Filter(a, keep) + Filter(b, keep)
  {
    if a != [] {
      assert (a + b)[0] == a[0] && (a + b)[1..] == a[1..] + b;
      FilterAppend(a[1..], b, keep);
      if keep(a[0]) {
        assert [a[0]] + (Filter(a[1..], keep) + Filter(b, keep)) == ([a[0]] + Filter(a[1..], keep)) + Filter(b, keep);
      }
    } else {
      assert a + b == b;
    }
  }

  /** How many elements of `xs` satisfy `p`, counted with repeats. */
  function Count<T>(xs: seq<T>, p: T -> bool): (n: nat)
    ensures n <= |xs|
  {
    if xs == [] then 0 else (if p(xs[0]) then 1 else 0) + Count(xs[1..], p)
  }

  /** Filtering keeps exactly the counted elements. */
  lemma {:induction false} FilterCount<T(!new)>(xs: seq<T>, p: T -> bool)
    ensures |Filter(xs, p)| == Count(xs, p)
  {
    if xs != [] {
      FilterCount(xs[1..], p);
    }
  }

  /** `f` applied to every element of `xs`, the results concatenated. */
  function FlatMap<T, U(!new)>(xs: seq<T>, f: T -> seq<U>): (r: seq<U>)
    ensures forall y :: y in r <==> exists i :: 0 <= i < |xs| && y in f(xs[i])
  {
    if xs == [] then []
    else
      var rest := FlatMap(xs[1..], f);
      assert forall i :: 1 <= i < |xs| ==> xs[1..][i - 1] == xs[i];
      f(xs[0]) + rest
  }

  /** When each element contributes at most `n` results, `FlatMap` yields at
      most `n` per element. */
  lemma {:induction false} FlatMapBound<T, U(!new)>(xs: seq<T>, f: T -> seq<U>, n: nat)
    requires forall i :: 0 <= i < |xs| ==> |f(xs[i])| <= n
    ensures |FlatMap(xs, f)| <= n * |xs|
  {
    if xs != [] {
      FlatMapBound(xs[1..], f, n);
    }
  }

  /** The first occurrence of each element, in order (the model of
      `list(set(xs))`, whose order Python leaves unspecified). */
  function Dedup<T(==,!new)>(xs: seq<T>): (r: seq<T>)
    ensures NoDups(r)
    ensures forall x :: x in r <==> x in xs
    ensures |r| <= |xs|
    decreases |xs|
  {
    if xs == [] then []
    else
      var rest := Dedup(xs[..|xs| - 1]);
      var last := xs[|xs| - 1];
      assert xs == xs[..|xs| - 1] + [last];
      if last in rest then rest else rest + [last]
  }
}
