/** Sums and counts over the elements of a sequence that are kept by a test, and sizes of sets. */
module Bags {
  function Sum<T>(xs: seq<T>, weight: T -> nat): nat {
    if xs == [] then 0 else Sum(xs[..|xs| - 1], weight) + weight(xs[|xs| - 1])
  }

  function Unit<T(==)>(x: T, keep: T -> bool, y: T): nat {
    if keep(x) && x == y then 1 else 0
  }

  /** How often the kept element y occurs. */
  function Count<T(==)>(xs: seq<T>, keep: T -> bool, y: T): nat {
    if xs == [] then 0 else Count(xs[..|xs| - 1], keep, y) + Unit(xs[|xs| - 1], keep, y)
  }

  /** The kept elements of a are among those of b, repetitions counted. */
  ghost predicate Within<T(!new)>(a: seq<T>, b: seq<T>, keep: T -> bool) {
    forall y :: Count(a, keep, y) <= Count(b, keep, y)
  }

  lemma {:induction false} Counted<T>(xs: seq<T>, keep: T -> bool, y: T)
    ensures Count(xs, keep, y) > 0 <==> y in xs && keep(y)
  {
    if xs == [] {
    } else {
      var n := |xs| - 1;
      Counted(xs[..n], keep, y);
      assert xs == xs[..n] + [xs[n]];
    }
  }

  lemma {:induction false} CountConcat<T>(a: seq<T>, b: seq<T>, keep: T -> bool, y: T)
    ensures Count(a + b, keep, y) == Count(a, keep, y) + Count(b, keep, y)
  {
    if b == [] {
      assert a + b == a;
    } else {
      var n := |b| - 1;
      CountConcat(a, b[..n], keep, y);
      assert (a + b)[..|a + b| - 1] == a + b[..n];
    }
  }

  lemma CountAround<T>(a: seq<T>, x: T, b: seq<T>, keep: T -> bool, y: T)
    ensures Count(a + [x] + b, keep, y) == Count(a + b, keep, y) + Unit(x, keep, y)
  {
    CountConcat(a + [x], b, keep, y);
    CountConcat(a, [x], keep, y);
    CountConcat(a, b, keep, y);
  }

  lemma WithinAround<T(!new)>(a: seq<T>, x: T, b: seq<T>, keep: T -> bool)
    ensures Within(a + b, a + [x] + b, keep)
  {
    forall y
      ensures Count(a + b, keep, y) <= Count(a + [x] + b, keep, y)
    {
      CountAround(a, x, b, keep, y);
    }
  }

  lemma {:induction false} SumConcat<T>(a: seq<T>, b: seq<T>, weight: T -> nat)
    ensures Sum(a + b, weight) == Sum(a, weight) + Sum(b, weight)
  {
    if b == [] {
      assert a + b == a;
    } else {
      var n := |b| - 1;
      SumConcat(a, b[..n], weight);
      assert (a + b)[..|a + b| - 1] == a + b[..n];
    }
  }

  lemma SumAround<T>(a: seq<T>, x: T, b: seq<T>, weight: T -> nat)
    ensures Sum(a + [x] + b, weight) == Sum(a + b, weight) + weight(x)
  {
    SumConcat(a + [x], b, weight);
    SumConcat(a, [x], weight);
    SumConcat(a, b, weight);
  }

  /** Taking one occurrence out of both sides. */
  lemma WithinRest<T(!new)>(a: seq<T>, b: seq<T>, keep: T -> bool, k: nat)
    requires a != [] && k < |b| && b[k] == a[|a| - 1] && Within(a, b, keep)
    ensures Within(a[..|a| - 1], b[..k] + b[k + 1..], keep)
  {
    assert b == b[..k] + [b[k]] + b[k + 1..];
    var a', b' := a[..|a| - 1], b[..k] + b[k + 1..];
    forall y
      ensures Count(a', keep, y) <= Count(b', keep, y)
    {
      assert Count(a, keep, y) <= Count(b, keep, y);
      CountAround(b[..k], b[k], b[k + 1..], keep, y);
    }
  }

  lemma WithinButLast<T(!new)>(a: seq<T>, b: seq<T>, keep: T -> bool)
    requires a != [] && Within(a, b, keep)
    ensures Within(a[..|a| - 1], b, keep)
  {
    var a' := a[..|a| - 1];
    forall y
      ensures Count(a', keep, y) <= Count(b, keep, y)
    {
      assert Count(a, keep, y) <= Count(b, keep, y);
    }
  }

  lemma {:induction false} SumMonotone<T(!new)>(a: seq<T>, b: seq<T>, weight: T -> nat, keep: T -> bool)
    requires forall x :: x in a && !keep(x) ==> weight(x) == 0
    requires Within(a, b, keep)
    ensures Sum(a, weight) <= Sum(b, weight)
    decreases |a|
  {
    if a == [] {
    } else {
      var n := |a| - 1;
      var x := a[n];
      if !keep(x) {
        WithinButLast(a, b, keep);
        SumMonotone(a[..n], b, weight, keep);
      } else {
        Counted(a, keep, x);
        Counted(b, keep, x);
        var k :| 0 <= k < |b| && b[k] == x;
        WithinRest(a, b, keep, k);
        SumMonotone(a[..n], b[..k] + b[k + 1..], weight, keep);
        assert b == b[..k] + [x] + b[k + 1..];
        SumAround(b[..k], x, b[k + 1..], weight);
      }
    }
  }

  lemma {:induction false} CountOfMultiset<T>(xs: seq<T>, keep: T -> bool, y: T)
    ensures Count(xs, keep, y) == if keep(y) then multiset(xs)[y] else 0
  {
    if xs == [] {
    } else {
      var n := |xs| - 1;
      CountOfMultiset(xs[..n], keep, y);
      assert xs == xs[..n] + [xs[n]];
    }
  }

  lemma WithinPermutation<T(!new)>(a: seq<T>, b: seq<T>, keep: T -> bool)
    requires multiset(a) == multiset(b)
    ensures Within(a, b, keep)
  {
    forall y
      ensures Count(a, keep, y) <= Count(b, keep, y)
    {
      CountOfMultiset(a, keep, y);
      CountOfMultiset(b, keep, y);
    }
  }

  lemma {:induction false} SumAtLeast<T>(xs: seq<T>, x: T, weight: T -> nat)
    requires x in xs
    ensures Sum(xs, weight) >= weight(x)
  {
    var n := |xs| - 1;
    if xs[n] != x {
      assert xs == xs[..n] + [xs[n]];
      SumAtLeast(xs[..n], x, weight);
    }
  }

  lemma {:induction false} SumOfZeros<T>(xs: seq<T>, weight: T -> nat)
    requires forall x :: x in xs ==> weight(x) == 0
    ensures Sum(xs, weight) == 0
  {
    if xs == [] {
    } else {
      SumOfZeros(xs[..|xs| - 1], weight);
    }
  }

  lemma {:induction false} SumOfSame<S, T>(xs: seq<S>, ys: seq<T>, f: S -> nat, g: T -> nat)
    requires |xs| == |ys| && forall i :: 0 <= i < |xs| ==> f(xs[i]) == g(ys[i])
    ensures Sum(xs, f) == Sum(ys, g)
  {
    if xs == [] {
    } else {
      var n := |xs| - 1;
      SumOfSame(xs[..n], ys[..n], f, g);
    }
  }

  lemma {:induction false} SumPointwise<S, T>(xs: seq<S>, ys: seq<T>, f: S -> nat, g: T -> nat)
    requires |xs| == |ys| && forall i :: 0 <= i < |xs| ==> f(xs[i]) <= g(ys[i])
    ensures Sum(xs, f) <= Sum(ys, g)
  {
    if xs == [] {
    } else {
      var n := |xs| - 1;
      SumPointwise(xs[..n], ys[..n], f, g);
    }
  }

  lemma SubsetSize<T>(a: set<T>, b: set<T>)
    requires a <= b
    ensures |a| <= |b|
  {
    assert b == a + (b - a);
  }
}
