/** Listings of sets: what a loop over a Go map or a BPF map iterator sees, in an order nobody controls. */
module Listing {
  function Elements<T>(xs: seq<T>): set<T> {
    set x | x in xs
  }

  ghost predicate Distinct<T>(xs: seq<T>) {
    forall i, j :: 0 <= i < j < |xs| ==> xs[i] != xs[j]
  }

  /** A listing of a set: every element once, in some order. */
  ghost predicate Lists<T>(xs: seq<T>, s: set<T>) {
    Elements(xs) == s && Distinct(xs)
  }

  lemma {:induction false} ListLength<T>(xs: seq<T>, s: set<T>)
    requires Lists(xs, s)
    ensures |xs| == |s|
  {
    if xs != [] {
      var last := xs[|xs| - 1];
      var front := xs[..|xs| - 1];
      ElementsAppend(front, last);
      assert xs == front + [last];
      assert last !in front;
      ListLength(front, s - {last});
    }
  }

  lemma ElementsAppend<T>(xs: seq<T>, x: T)
    ensures Elements(xs + [x]) == Elements(xs) + {x}
  {
    assert forall y :: y in xs + [x] <==> y in xs || y == x;
  }

  lemma ListsNothing<T>()
    ensures Lists<T>([], {})
  {
  }

  lemma ListsAppend<T>(xs: seq<T>, s: set<T>, x: T)
    requires Lists(xs, s) && x !in s
    ensures Lists(xs + [x], s + {x})
  {
    ElementsAppend(xs, x);
  }

  /** Appending the next element of a listing extends the prefix's elements by it. */
  lemma ElementsPrefix<T>(xs: seq<T>, i: nat)
    requires i < |xs|
    ensures Elements(xs[..i + 1]) == Elements(xs[..i]) + {xs[i]}
  {
    assert xs[..i + 1] == xs[..i] + [xs[i]];
    ElementsAppend(xs[..i], xs[i]);
  }

  method ListSet<T(==)>(s: set<T>) returns (xs: seq<T>)
    ensures Lists(xs, s)
  {
    xs := [];
    var rest := s;
    while rest != {}
      invariant rest <= s && Lists(xs, s - rest)
      decreases rest
    {
      var x :| x in rest;
      rest := rest - {x};
      ElementsAppend(xs, x);
      xs := xs + [x];
    }
  }

  // --- Filtered lists -----------------------------------------------------------------

  function Filter<T>(xs: seq<T>, p: T -> bool): seq<T> {
    if xs == [] then [] else Filter(xs[..|xs| - 1], p) + if p(xs[|xs| - 1]) then [xs[|xs| - 1]] else []
  }

  lemma FilterOneMore<T>(xs: seq<T>, x: T, p: T -> bool)
    ensures Filter(xs + [x], p) == if p(x) then Filter(xs, p) + [x] else Filter(xs, p)
  {
    assert (xs + [x])[..|xs|] == xs;
    assert Filter(xs, p) + [] == Filter(xs, p);
  }

  lemma {:induction false} FilterCounts<T>(xs: seq<T>, p: T -> bool, x: T)
    ensures multiset(Filter(xs, p))[x] == if p(x) then multiset(xs)[x] else 0
  {
    if xs != [] {
      FilterCounts(xs[..|xs| - 1], p, x);
      assert xs == xs[..|xs| - 1] + [xs[|xs| - 1]];
    }
  }

  /** Filtering permuted lists gives permuted lists. */
  lemma FilterPermuted<T(!new)>(xs: seq<T>, ys: seq<T>, p: T -> bool)
    requires multiset(xs) == multiset(ys)
    ensures multiset(Filter(xs, p)) == multiset(Filter(ys, p))
  {
    forall x ensures multiset(Filter(xs, p))[x] == multiset(Filter(ys, p))[x] {
      FilterCounts(xs, p, x);
      FilterCounts(ys, p, x);
    }
  }

  lemma PermutedLength<T>(xs: seq<T>, ys: seq<T>)
    requires multiset(xs) == multiset(ys)
    ensures |xs| == |ys| && forall x :: x in xs <==> x in ys
  {
    assert |multiset(xs)| == |xs| && |multiset(ys)| == |ys|;
    assert forall x :: x in xs <==> x in multiset(xs);
    assert forall x :: x in ys <==> x in multiset(ys);
  }

  lemma {:induction false} FilterKeeps<T>(xs: seq<T>, p: T -> bool)
    ensures forall x :: x in Filter(xs, p) <==> x in xs && p(x)
  {
    if xs != [] {
      FilterKeeps(xs[..|xs| - 1], p);
      assert xs == xs[..|xs| - 1] + [xs[|xs| - 1]];
    }
  }

  lemma FilterAlike<T(!new)>(xs: seq<T>, ys: seq<T>, p: T -> bool)
    requires multiset(xs) == multiset(ys)
    ensures multiset(Filter(xs, p)) == multiset(Filter(ys, p)) && |Filter(xs, p)| == |Filter(ys, p)|
  {
    FilterPermuted(xs, ys, p);
    PermutedLength(Filter(xs, p), Filter(ys, p));
  }
}
