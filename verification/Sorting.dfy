/** The order in which Go compares strings, and the contract of its sorting calls.

    `sort.Slice`, `sort.SliceStable` and `sort.Strings` are library calls. What their callers
    may rely on is the contract of `SortBy`: a permutation in which no element is less than an
    earlier one. It does not promise how ties are broken, because `sort.Slice` does not; `SortStable`
    keeps them in order, as `sort.SliceStable` does. */
module Sorting {

  /** Byte-wise string comparison, Go's `<`: a proper prefix is smaller. */
  predicate StringLess(a: string, b: string) {
    if b == "" then false
    else if a == "" then true
    else a[0] < b[0] || (a[0] == b[0] && StringLess(a[1..], b[1..]))
  }

  /** Go's `a < b` is a strict total order. */
  lemma {:induction false} StringLessTotal(a: string, b: string)
    ensures StringLess(a, b) ==> !StringLess(b, a)
    ensures !StringLess(a, b) && !StringLess(b, a) ==> a == b
  {
    if a != "" && b != "" {
      StringLessTotal(a[1..], b[1..]);
      assert a == [a[0]] + a[1..] && b == [b[0]] + b[1..];
    }
  }

  lemma {:induction false} StringLessBetween(a: string, b: string, c: string)
    requires StringLess(a, c)
    ensures StringLess(a, b) || StringLess(b, c)
  {
    if a != "" && b != "" && a[0] == b[0] == c[0] {
      StringLessBetween(a[1..], b[1..], c[1..]);
    }
  }

  /** A strict weak order, which is what the sorting calls ask of their comparison. */
  ghost predicate WeakOrder<T(!new)>(less: (T, T) -> bool) {
    && (forall a, b :: less(a, b) ==> !less(b, a))
    && (forall a, b, c :: less(a, c) ==> less(a, b) || less(b, c))
  }

  lemma StringLessIsWeakOrder()
    ensures WeakOrder(StringLess)
  {
    forall a, b | StringLess(a, b) ensures !StringLess(b, a) { StringLessTotal(a, b); }
    forall a, b, c | StringLess(a, c) ensures StringLess(a, b) || StringLess(b, c) {
      StringLessBetween(a, b, c);
    }
  }

  ghost predicate Sorted<T>(s: seq<T>, less: (T, T) -> bool) {
    forall i, j :: 0 <= i < j < |s| ==> !less(s[j], s[i])
  }

  /** A list shared out in two stays shared out in two when one more element goes to either side. */
  lemma OneMoreOfEither<T>(a: seq<T>, b: seq<T>, s: seq<T>, x: T)
    requires multiset(a) + multiset(b) == multiset(s)
    ensures multiset(a + [x]) + multiset(b) == multiset(s + [x])
    ensures multiset(a) + multiset(b + [x]) == multiset(s + [x])
  {
    assert multiset(a + [x]) == multiset(a) + multiset{x};
    assert multiset(b + [x]) == multiset(b) + multiset{x};
    assert multiset(s + [x]) == multiset(s) + multiset{x};
  }

  lemma BeyondIsNotLess<T(!new)>(less: (T, T) -> bool, x: T, y: T, z: T)
    requires WeakOrder(less) && less(x, y) && !less(z, y)
    ensures !less(z, x)
  {
    assert less(z, x) ==> less(z, y) || less(y, x);
  }

  /** The calls compare different elements, and there the comparison is this order. */
  ghost predicate OrdersLike<T(!new)>(xs: seq<T>, less: (T, T) -> bool, order: (T, T) -> bool) {
    && WeakOrder(order)
    && forall i, j :: 0 <= i < |xs| && 0 <= j < |xs| && i != j ==> less(xs[i], xs[j]) == order(xs[i], xs[j])
  }

  /** Where `x` goes in a list: before the first element it is less than. */
  method Position<T(!new)>(s: seq<T>, x: T, less: (T, T) -> bool) returns (k: nat)
    ensures k <= |s|
    ensures forall i :: 0 <= i < k ==> !less(x, s[i])
    ensures k < |s| ==> less(x, s[k])
  {
    k := 0;
    while k < |s| && !less(x, s[k])
      invariant k <= |s|
      invariant forall i :: 0 <= i < k ==> !less(x, s[i])
    {
      k := k + 1;
    }
  }

  /** Inserting there keeps a list sorted by an order the comparison with `x` agrees with. */
  lemma InsertedSorted<T(!new)>(s: seq<T>, k: nat, x: T, less: (T, T) -> bool, order: (T, T) -> bool)
    requires k <= |s| && WeakOrder(order) && Sorted(s, order)
    requires forall y :: y in s ==> less(x, y) == order(x, y)
    requires forall i :: 0 <= i < k ==> !less(x, s[i])
    requires k < |s| ==> less(x, s[k])
    ensures Sorted(s[..k] + [x] + s[k..], order)
  {
    forall i | k <= i < |s| ensures !order(s[i], x) {
      assert s[k] in s;
      BeyondIsNotLess(order, x, s[k], s[i]);
    }
    forall i | 0 <= i < k ensures !order(x, s[i]) { assert s[i] in s; }
  }

  lemma InsertedMultiset<T>(s: seq<T>, k: nat, x: T)
    requires k <= |s|
    ensures multiset(s[..k] + [x] + s[k..]) == multiset(s) + multiset{x}
  {
    assert s == s[..k] + s[k..];
  }

  /** With a comparison that is no order, nothing but the elements can be relied on. */
  method SortWith<T(!new)>(xs: seq<T>, less: (T, T) -> bool, order: (T, T) -> bool) returns (out: seq<T>)
    ensures multiset(out) == multiset(xs)
    ensures OrdersLike(xs, less, order) ==> Sorted(out, order)
  {
    ghost var ordered := OrdersLike(xs, less, order);
    out := [];
    for n := 0 to |xs|
      invariant multiset(out) == multiset(xs[..n])
      invariant ordered ==> Sorted(out, order)
    {
      forall y | y in out && ordered ensures less(xs[n], y) == order(xs[n], y) {
        assert y in multiset(out) && y in multiset(xs[..n]);
        var j :| 0 <= j < n && xs[..n][j] == y;
        assert xs[j] == y;
      }
      var k := Position(out, xs[n], less);
      if ordered { InsertedSorted(out, k, xs[n], less, order); }
      InsertedMultiset(out, k, xs[n]);
      assert xs[..n + 1] == xs[..n] + [xs[n]];
      out := out[..k] + [xs[n]] + out[k..];
    }
    assert xs[..|xs|] == xs;
  }

  method SortBy<T(!new)>(xs: seq<T>, less: (T, T) -> bool) returns (out: seq<T>)
    requires WeakOrder(less)
    ensures multiset(out) == multiset(xs)
    ensures Sorted(out, less)
  {
    out := SortWith(xs, less, less);
  }

  /** The elements that stand equal with `x`, in order. */
  function Ties<T>(s: seq<T>, x: T, less: (T, T) -> bool): seq<T> {
    if s == [] then []
    else Ties(s[..|s| - 1], x, less) + if less(s[|s| - 1], x) || less(x, s[|s| - 1]) then [] else [s[|s| - 1]]
  }

  lemma {:induction false} TiesConcat<T>(a: seq<T>, b: seq<T>, x: T, less: (T, T) -> bool)
    ensures Ties(a + b, x, less) == Ties(a, x, less) + Ties(b, x, less)
    decreases |b|
  {
    if b == [] {
      assert a + b == a;
    } else {
      assert (a + b)[..|a + b| - 1] == a + b[..|b| - 1];
      TiesConcat(a, b[..|b| - 1], x, less);
    }
  }

  lemma {:induction false} NoTies<T>(s: seq<T>, x: T, less: (T, T) -> bool)
    requires forall i :: 0 <= i < |s| ==> less(x, s[i])
    ensures Ties(s, x, less) == []
  {
    if s != [] { NoTies(s[..|s| - 1], x, less); }
  }

  /** Nothing that stands equal with `y` changes places when `x` goes where no tie of its own follows. */
  lemma {:induction false} InsertedStable<T>(a: seq<T>, b: seq<T>, x: T, less: (T, T) -> bool, y: T)
    requires !less(x, y) && !less(y, x) ==> Ties(b, y, less) == []
    ensures Ties(a + [x] + b, y, less) == Ties(a + b, y, less) + Ties([x], y, less)
  {
    assert Ties([x], y, less) == if less(x, y) || less(y, x) then [] else [x] by { assert [x][..0] == []; }
    TiesConcat(a, b, y, less);
    TiesConcat(a + [x], b, y, less);
    TiesConcat(a, [x], y, less);
  }

  lemma NoTiesBeyond<T(!new)>(s: seq<T>, k: nat, x: T, less: (T, T) -> bool, y: T)
    requires k <= |s| && WeakOrder(less) && Sorted(s, less)
    requires k < |s| ==> less(x, s[k])
    requires !less(x, y) && !less(y, x)
    ensures Ties(s[k..], y, less) == []
  {
    forall i | k <= i < |s| ensures less(y, s[i]) {
      assert i > k ==> !less(s[i], s[k]);
      TiesArePassed(less, x, y, s[k], s[i]);
    }
    NoTies(s[k..], y, less);
  }

  /** What is less than `u` stands before everything from `u` on, and so does what it is equal to. */
  lemma TiesArePassed<T(!new)>(less: (T, T) -> bool, x: T, y: T, u: T, v: T)
    requires WeakOrder(less) && less(x, u) && !less(x, y) && (v == u || !less(v, u))
    ensures less(y, v)
  {
    assert less(x, v);
  }

  /** `sort.SliceStable`: elements that stand equal keep their order. */
  method SortStable<T(!new)>(xs: seq<T>, less: (T, T) -> bool) returns (out: seq<T>)
    requires WeakOrder(less)
    ensures multiset(out) == multiset(xs) && Sorted(out, less)
    ensures forall y :: Ties(out, y, less) == Ties(xs, y, less)
  {
    out := [];
    for n := 0 to |xs|
      invariant multiset(out) == multiset(xs[..n]) && Sorted(out, less)
      invariant forall y :: Ties(out, y, less) == Ties(xs[..n], y, less)
    {
      var k := Position(out, xs[n], less);
      assert xs[..n + 1] == xs[..n] + [xs[n]];
      InsertedSorted(out, k, xs[n], less, less);
      InsertedMultiset(out, k, xs[n]);
      forall y ensures Ties(out[..k] + [xs[n]] + out[k..], y, less) == Ties(xs[..n + 1], y, less) {
        if !less(xs[n], y) && !less(y, xs[n]) { NoTiesBeyond(out, k, xs[n], less, y); }
        assert out == out[..k] + out[k..];
        InsertedStable(out[..k], out[k..], xs[n], less, y);
        TiesConcat(xs[..n], [xs[n]], y, less);
      }
      out := out[..k] + [xs[n]] + out[k..];
    }
    assert xs[..|xs|] == xs;
  }

  /** Two sorted arrangements of the same elements are equal when the comparison tells any two
      different elements apart. This is what makes a decision independent of input order. */
  lemma {:induction false} SortedUnique<T(!new)>(a: seq<T>, b: seq<T>, less: (T, T) -> bool)
    requires multiset(a) == multiset(b)
    requires Sorted(a, less) && Sorted(b, less)
    requires forall x, y :: x in a && y in a && !less(x, y) && !less(y, x) ==> x == y
    ensures a == b
  {
    assert |multiset(a)| == |a| && |multiset(b)| == |b|;
    if a != [] {
      assert a[0] == b[0] by { HeadsMeet(a, b, less); }
      WithoutHead(a);
      WithoutHead(b);
      SortedUnique(a[1..], b[1..], less);
    }
  }

  lemma WithoutHead<T>(s: seq<T>)
    requires s != []
    ensures s == [s[0]] + s[1..] && multiset(s[1..]) == multiset(s) - multiset{s[0]}
    ensures forall x :: x in s[1..] ==> x in s
  {
    assert s == [s[0]] + s[1..];
  }

  lemma HeadsMeet<T(!new)>(a: seq<T>, b: seq<T>, less: (T, T) -> bool)
    requires multiset(a) == multiset(b) && a != [] && b != []
    requires Sorted(a, less) && Sorted(b, less)
    requires forall x, y :: x in a && y in a && !less(x, y) && !less(y, x) ==> x == y
    ensures a[0] == b[0]
  {
    assert a[0] in multiset(b) && b[0] in multiset(a);
    var i :| 0 <= i < |b| && b[i] == a[0];
    var j :| 0 <= j < |a| && a[j] == b[0];
    if i > 0 && j > 0 {
      assert !less(b[i], b[0]) && !less(a[j], a[0]);
    }
  }

  /** The elements of a list, forgetting order and repetition. */
  ghost function Elements<T>(s: seq<T>): set<T> { set x | x in s }

  ghost predicate Distinct<T>(s: seq<T>) {
    forall i, j :: 0 <= i < j < |s| ==> s[i] != s[j]
  }

  ghost predicate Increasing(names: seq<string>) {
    forall i, j :: 0 <= i < j < |names| ==> StringLess(names[i], names[j])
  }

  /** The keys of a map, sorted: ranging over a map gives them in no particular order. */
  method SortedNames(names: set<string>) returns (sorted: seq<string>)
    ensures Elements(sorted) == names && Increasing(sorted)
  {
    var keys: seq<string> := [];
    var left := names;
    while left != {}
      invariant left <= names && (forall t :: t in keys <==> t in names && t !in left)
      invariant Distinct(keys)
      decreases |left|
    {
      var t :| t in left;
      keys := keys + [t];
      left := left - {t};
    }
    StringLessIsWeakOrder();
    sorted := SortBy(keys, StringLess);
    SortedDistinct(keys, sorted);
  }

  lemma SortedDistinct(keys: seq<string>, sorted: seq<string>)
    requires Distinct(keys) && multiset(keys) == multiset(sorted) && Sorted(sorted, StringLess)
    ensures Elements(sorted) == Elements(keys) && Increasing(sorted)
  {
    forall t ensures t in sorted <==> t in keys { assert t in multiset(sorted) <==> t in multiset(keys); }
    forall i, j | 0 <= i < j < |sorted| ensures StringLess(sorted[i], sorted[j]) {
      if sorted[i] == sorted[j] { TwiceInMultiset(sorted, i, j); OnceEach(keys, sorted[i]); }
      StringLessTotal(sorted[i], sorted[j]);
    }
  }

  lemma TwiceInMultiset<T>(s: seq<T>, i: nat, j: nat)
    requires i < j < |s| && s[i] == s[j]
    ensures multiset(s)[s[i]] >= 2
  {
    assert s == s[..i] + [s[i]] + s[i + 1..j] + [s[j]] + s[j + 1..];
  }

  lemma {:induction false} OnceEach<T>(s: seq<T>, x: T)
    requires Distinct(s)
    ensures multiset(s)[x] <= 1
    ensures x !in s ==> multiset(s)[x] == 0
  {
    if s != [] {
      OnceEach(s[1..], x);
      assert s == [s[0]] + s[1..];
    }
  }
}
