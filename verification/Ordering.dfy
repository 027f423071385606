/** Comparing sequences place by place, and the insertion sort that stands for `Array.prototype.sort`. */
module Ordering {
  import opened Common

  // ---- sequences compared by a number for each element ----

  predicate LessBy<T>(rank: T -> int, a: seq<T>, b: seq<T>) {
    if a == [] || b == [] then b != []
    else rank(a[0]) < rank(b[0]) || (rank(a[0]) == rank(b[0]) && LessBy(rank, a[1..], b[1..]))
  }

  ghost predicate Injective<T(!new)>(rank: T -> int) {
    forall x, y :: rank(x) == rank(y) ==> x == y
  }

  lemma {:induction false} LessByTotal<T(!new)>(rank: T -> int, a: seq<T>, b: seq<T>)
    requires Injective(rank)
    ensures !(LessBy(rank, a, b) && LessBy(rank, b, a))
    ensures LessBy(rank, a, b) || LessBy(rank, b, a) || a == b
    decreases |a| + |b|
  {
    if a != [] && b != [] {
      LessByTotal(rank, a[1..], b[1..]);
      if a[0] == b[0] && a[1..] == b[1..] {
        assert a == [a[0]] + a[1..] && b == [b[0]] + b[1..];
      }
    }
  }

  lemma {:induction false} LessByTransitive<T(!new)>(rank: T -> int, a: seq<T>, b: seq<T>, c: seq<T>)
    requires LessBy(rank, a, b) && LessBy(rank, b, c)
    ensures LessBy(rank, a, c)
  {
    if a != [] && rank(a[0]) == rank(b[0]) && rank(b[0]) == rank(c[0]) {
      LessByTransitive(rank, a[1..], b[1..], c[1..]);
    }
  }

  // ---- sorting ----

  ghost predicate Preorder<T(!new)>(atMost: (T, T) -> bool) {
    && (forall a, b :: atMost(a, b) || atMost(b, a))
    && (forall a, b, c :: atMost(a, b) && atMost(b, c) ==> atMost(a, c))
  }

  ghost predicate SortedBy<T>(atMost: (T, T) -> bool, xs: seq<T>) {
    forall i, j | 0 <= i < j < |xs| :: atMost(xs[i], xs[j])
  }

  /** A stable sort places each element before those it is not above. */
  function InsertBy<T>(atMost: (T, T) -> bool, x: T, xs: seq<T>): seq<T> {
    if xs == [] || atMost(x, xs[0]) then [x] + xs else [xs[0]] + InsertBy(atMost, x, xs[1..])
  }

  function SortBy<T>(atMost: (T, T) -> bool, xs: seq<T>): seq<T> {
    if xs == [] then [] else InsertBy(atMost, xs[0], SortBy(atMost, xs[1..]))
  }

  lemma {:induction false} InsertSorts<T(!new)>(atMost: (T, T) -> bool, x: T, xs: seq<T>)
    requires Preorder(atMost) && SortedBy(atMost, xs)
    ensures multiset(InsertBy(atMost, x, xs)) == multiset(xs) + multiset{x}
    ensures SortedBy(atMost, InsertBy(atMost, x, xs))
  {
    if xs != [] && !atMost(x, xs[0]) {
      var rest := xs[1..];
      assert xs == [xs[0]] + rest;
      InsertSorts(atMost, x, rest);
      var placed := InsertBy(atMost, x, rest);
      forall y | y in placed ensures atMost(xs[0], y) {
        assert y in multiset(placed);
        if y != x { assert y in multiset(rest); assert y in rest; }
      }
    }
  }

  lemma {:induction false} SortSorts<T(!new)>(atMost: (T, T) -> bool, xs: seq<T>)
    requires Preorder(atMost)
    ensures multiset(SortBy(atMost, xs)) == multiset(xs) && SortedBy(atMost, SortBy(atMost, xs))
  {
    if xs != [] {
      SortSorts(atMost, xs[1..]);
      InsertSorts(atMost, xs[0], SortBy(atMost, xs[1..]));
      assert xs == [xs[0]] + xs[1..];
    }
  }

  lemma {:induction false} SortOfSorted<T>(atMost: (T, T) -> bool, xs: seq<T>)
    requires SortedBy(atMost, xs)
    ensures SortBy(atMost, xs) == xs
  {
    if xs != [] {
      SortOfSorted(atMost, xs[1..]);
      assert xs == [xs[0]] + xs[1..];
    }
  }

  // ---- what the multiset decides ----

  lemma SameElements<T>(a: seq<T>, b: seq<T>)
    requires multiset(a) == multiset(b)
    ensures |a| == |b| && forall x :: x in a <==> x in b
  {
    assert |a| == |multiset(a)| && |b| == |multiset(b)|;
    forall x ensures x in a <==> x in b {
      assert x in multiset(a) <==> x in multiset(b);
    }
  }

  lemma {:induction false} OnceIn<T>(xs: seq<T>, x: T)
    requires NoDup(xs)
    ensures multiset(xs)[x] <= 1
  {
    if xs != [] {
      assert xs == [xs[0]] + xs[1..];
      OnceIn(xs[1..], x);
      if xs[0] == x {
        assert x !in xs[1..];
        assert x !in multiset(xs[1..]);
      }
    }
  }

  lemma TwiceIn<T>(xs: seq<T>, i: nat, j: nat)
    requires i < j < |xs| && xs[i] == xs[j]
    ensures multiset(xs)[xs[i]] >= 2
  {
    assert xs == xs[..j] + xs[j..];
    assert xs[i] in multiset(xs[..j]) by { assert xs[..j][i] == xs[i]; }
    assert xs[j] in multiset(xs[j..]) by { assert xs[j..][0] == xs[j]; }
  }

  /** Being without repetitions is a property of the multiset, so sorting keeps it. */
  lemma NoDupOfMultiset<T>(a: seq<T>, b: seq<T>)
    requires multiset(a) == multiset(b) && NoDup(a)
    ensures NoDup(b)
  {
    forall i, j | 0 <= i < j < |b| ensures b[i] != b[j] {
      if b[i] == b[j] {
        TwiceIn(b, i, j);
        OnceIn(a, b[i]);
      }
    }
  }
}
