/** Strict orders and sorting: a strictly sorted sequence is determined by the set of its elements. */
module Order {
  import opened Listing

  /** The lexicographic order of strings, by character code. */
  predicate TextLess(a: string, b: string) {
    if b == "" then false
    else if a == "" then true
    else if a[0] != b[0] then a[0] < b[0]
    else TextLess(a[1..], b[1..])
  }

  lemma {:induction false} TextLessTransitive(a: string, b: string, c: string)
    requires TextLess(a, b) && TextLess(b, c)
    ensures TextLess(a, c)
  {
    if a != "" && a[0] == b[0] && b[0] == c[0] {
      TextLessTransitive(a[1..], b[1..], c[1..]);
    }
  }

  lemma {:induction false} TextLessTotal(a: string, b: string)
    ensures TextLess(a, b) || TextLess(b, a) || a == b
    ensures !(TextLess(a, b) && TextLess(b, a))
    ensures !TextLess(a, a)
  {
    if a != "" {
      if b != "" && a[0] == b[0] {
        TextLessTotal(a[1..], b[1..]);
        assert a == [a[0]] + a[1..] && b == [b[0]] + b[1..];
      }
      TextLessTotal(a[1..], a[1..]);
    }
  }

  /** One text is before another when they agree up to some place, and there it ends or has the smaller character. */
  lemma {:induction false} TextLessIff(a: string, b: string)
    ensures TextLess(a, b) <==> exists k :: DiffersAt(a, b, k) && (k == |a| || a[k] < b[k])
  {
    if b != "" && a != "" && a[0] == b[0] {
      TextLessIff(a[1..], b[1..]);
      if k :| DiffersAt(a[1..], b[1..], k) && (k == |a[1..]| || a[1..][k] < b[1..][k]) {
        assert a[..k + 1] == [a[0]] + a[1..][..k] && b[..k + 1] == [b[0]] + b[1..][..k];
        assert DiffersAt(a, b, k + 1);
      }
      if k :| DiffersAt(a, b, k) && (k == |a| || a[k] < b[k]) {
        assert k > 0;
        assert a[1..][..k - 1] == a[..k][1..] && b[1..][..k - 1] == b[..k][1..];
        assert DiffersAt(a[1..], b[1..], k - 1);
      }
    } else if a == "" && b != "" {
      assert DiffersAt(a, b, 0);
    } else if a != "" && b != "" {
      assert a[0] < b[0] ==> DiffersAt(a, b, 0);
      forall k | DiffersAt(a, b, k) ensures k == 0 {
        if k > 0 { SameHead(a, b, k); }
      }
    }
  }

  lemma SameHead(a: string, b: string, k: int)
    requires DiffersAt(a, b, k) && k > 0
    ensures a[0] == b[0]
  {
    assert a[..k][0] == b[..k][0];
  }

  /** The texts agree before place k, where the second has a character. */
  ghost predicate DiffersAt(a: string, b: string, k: int) {
    0 <= k <= |a| && k < |b| && a[..k] == b[..k]
  }

  ghost predicate StrictTotal<T(!new)>(less: (T, T) -> bool) {
    && (forall x :: !less(x, x))
    && (forall x, y, z :: less(x, y) && less(y, z) ==> less(x, z))
    && (forall x, y :: less(x, y) || less(y, x) || x == y)
  }

  lemma TextLessStrictTotal()
    ensures StrictTotal(TextLess)
  {
    forall x: string, y: string ensures (TextLess(x, y) || TextLess(y, x) || x == y) && !TextLess(x, x) {
      TextLessTotal(x, y);
    }
    forall x: string, y: string, z: string | TextLess(x, y) && TextLess(y, z) ensures TextLess(x, z) {
      TextLessTransitive(x, y, z);
    }
  }

  /** Comparing texts first and something else among equal texts stays transitive. */
  lemma TextThenTransitive(a: string, b: string, c: string, ab: bool, bc: bool, ac: bool)
    requires if a != b then TextLess(a, b) else ab
    requires if b != c then TextLess(b, c) else bc
    requires a == b == c && ab && bc ==> ac
    ensures if a != c then TextLess(a, c) else ac
  {
    hide TextLess;
    if a != b && b != c { TextLessTransitive(a, b, c); }
    TextLessTotal(a, b);
  }

  ghost predicate Ascending<T>(less: (T, T) -> bool, xs: seq<T>) {
    forall i, j :: 0 <= i < j < |xs| ==> less(xs[i], xs[j])
  }

  /** A strictly ascending sequence is determined by its elements. */
  lemma {:induction false} AscendingIsUnique<T(!new)>(less: (T, T) -> bool, xs: seq<T>, ys: seq<T>)
    requires StrictTotal(less) && Ascending(less, xs) && Ascending(less, ys) && Elements(xs) == Elements(ys)
    ensures xs == ys
  {
    if xs == [] {
      assert forall i :: 0 <= i < |ys| ==> ys[i] in Elements(ys);
    } else {
      assert xs[0] in Elements(ys);
      assert ys[0] in Elements(xs);
      var i :| 0 <= i < |ys| && ys[i] == xs[0];
      var j :| 0 <= j < |xs| && xs[j] == ys[0];
      assert xs[0] == ys[0];
      TailElements(less, xs);
      TailElements(less, ys);
      AscendingIsUnique(less, xs[1..], ys[1..]);
    }
  }

  lemma TailElements<T(!new)>(less: (T, T) -> bool, xs: seq<T>)
    requires StrictTotal(less) && Ascending(less, xs) && xs != []
    ensures Elements(xs[1..]) == Elements(xs) - {xs[0]}
  {
    assert forall x :: x in xs <==> x == xs[0] || x in xs[1..];
    assert xs[0] !in xs[1..];
  }

  lemma AscendingIsDistinct<T(!new)>(less: (T, T) -> bool, xs: seq<T>)
    requires StrictTotal(less) && Ascending(less, xs)
    ensures Distinct(xs)
  {
  }

  ghost predicate Least<T(!new)>(less: (T, T) -> bool, s: set<T>, m: T) {
    m in s && forall y :: y in s ==> y == m || less(m, y)
  }

  lemma {:induction false} LeastExists<T(!new)>(less: (T, T) -> bool, s: set<T>)
    requires StrictTotal(less) && s != {}
    ensures exists m :: Least(less, s, m)
  {
    var x :| x in s;
    if s == {x} {
      assert Least(less, s, x);
    } else {
      LeastExists(less, s - {x});
      var n :| Least(less, s - {x}, n);
      if less(x, n) {
        assert forall y :: y in s && y != x && y != n ==> y in s - {x} && less(n, y) && less(x, y);
        assert Least(less, s, x);
      } else {
        assert Least(less, s, n);
      }
    }
  }

  /** The elements of a set in ascending order. */
  ghost function Ordered<T(!new)>(less: (T, T) -> bool, s: set<T>): (r: seq<T>)
    requires StrictTotal(less)
    ensures Ascending(less, r) && Elements(r) == s
  {
    if s == {} then []
    else
      LeastExists(less, s);
      var m :| Least(less, s, m);
      var rest := Ordered(less, s - {m});
      assert forall y :: y in rest ==> y in Elements(rest);
      assert forall y :: y in [m] + rest <==> y == m || y in Elements(rest);
      [m] + rest
  }

  /** sort.Slice and sorted() on a listing without duplicates: the elements in ascending order. */
  method Sort<T(!new,==)>(less: (T, T) -> bool, xs: seq<T>) returns (ys: seq<T>)
    requires StrictTotal(less) && Distinct(xs)
    ensures Ascending(less, ys) && Elements(ys) == Elements(xs)
  {
    ys := [];
    var i := 0;
    while i < |xs|
      invariant 0 <= i <= |xs|
      invariant Ascending(less, ys) && Elements(ys) == Elements(xs[..i])
    {
      ElementsPrefix(xs, i);
      assert xs[i] !in xs[..i];
      assert xs[i] !in ys by { assert xs[i] in ys <==> xs[i] in Elements(ys); }
      ys := Insert(less, ys, xs[i]);
      i := i + 1;
    }
    assert xs[..i] == xs;
  }

  method Insert<T(!new,==)>(less: (T, T) -> bool, xs: seq<T>, x: T) returns (ys: seq<T>)
    requires StrictTotal(less) && Ascending(less, xs) && x !in xs
    ensures Ascending(less, ys) && Elements(ys) == Elements(xs) + {x}
  {
    var i := 0;
    while i < |xs| && less(xs[i], x)
      invariant 0 <= i <= |xs|
      invariant forall j :: 0 <= j < i ==> less(xs[j], x)
    {
      i := i + 1;
    }
    ys := xs[..i] + [x] + xs[i..];
    AboveRest(less, xs, x, i);
    Spliced(less, xs, x, i);
    SplicedElements(xs, x, i);
  }

  lemma AboveRest<T(!new)>(less: (T, T) -> bool, xs: seq<T>, x: T, i: nat)
    requires StrictTotal(less) && Ascending(less, xs) && x !in xs && i <= |xs| && (i < |xs| ==> !less(xs[i], x))
    ensures forall j :: i <= j < |xs| ==> less(x, xs[j])
  {
    if i < |xs| {
      assert xs[i] in xs;
      assert less(x, xs[i]);
    }
  }

  lemma Spliced<T>(less: (T, T) -> bool, xs: seq<T>, x: T, i: nat)
    requires Ascending(less, xs) && i <= |xs|
    requires (forall j :: 0 <= j < i ==> less(xs[j], x)) && (forall j :: i <= j < |xs| ==> less(x, xs[j]))
    ensures Ascending(less, xs[..i] + [x] + xs[i..])
  {
    var ys := xs[..i] + [x] + xs[i..];
    assert forall j :: 0 <= j < |ys| ==> ys[j] == if j < i then xs[j] else if j == i then x else xs[j - 1];
  }

  lemma SplicedElements<T>(xs: seq<T>, x: T, i: nat)
    requires i <= |xs|
    ensures Elements(xs[..i] + [x] + xs[i..]) == Elements(xs) + {x}
  {
    assert xs == xs[..i] + xs[i..];
    assert forall y :: y in xs[..i] + [x] + xs[i..] <==> y in xs[..i] || y == x || y in xs[i..];
    assert forall y :: y in xs <==> y in xs[..i] || y in xs[i..];
  }
}
