/** Stable insertion, for the lists that the program sorts. */
module Sorting {
  /** Behind every element that x does not go before. */
  function Inserted<T>(s: seq<T>, x: T, before: (T, T) -> bool): seq<T> {
    if s == [] || !before(x, s[|s| - 1]) then s + [x]
    else Inserted(s[..|s| - 1], x, before) + [s[|s| - 1]]
  }

  function Sorted<T>(s: seq<T>, before: (T, T) -> bool): seq<T> {
    if s == [] then [] else Inserted(Sorted(s[..|s| - 1], before), s[|s| - 1], before)
  }

  ghost predicate Order<T(!new)>(before: (T, T) -> bool) {
    && (forall a, b :: before(a, b) ==> !before(b, a))
    && (forall a, b, c :: !before(b, a) && !before(c, b) ==> !before(c, a))
  }

  /** Nothing goes before an element that precedes it. */
  ghost predicate Ordered<T>(s: seq<T>, before: (T, T) -> bool) {
    forall i, j :: 0 <= i < j < |s| ==> !before(s[j], s[i])
  }

  lemma {:induction false} InsertedMembers<T>(s: seq<T>, x: T, before: (T, T) -> bool)
    ensures multiset(Inserted(s, x, before)) == multiset(s) + multiset{x}
    ensures |Inserted(s, x, before)| == |s| + 1
  {
    if s == [] || !before(x, s[|s| - 1]) {
    } else {
      InsertedMembers(s[..|s| - 1], x, before);
      assert s == s[..|s| - 1] + [s[|s| - 1]];
    }
  }

  lemma InsertedHas<T>(s: seq<T>, x: T, before: (T, T) -> bool)
    ensures forall y :: y in Inserted(s, x, before) <==> y in s || y == x
  {
    InsertedMembers(s, x, before);
    assert forall y :: y in Inserted(s, x, before) <==> y in multiset(Inserted(s, x, before));
    assert forall y :: y in s <==> y in multiset(s);
  }

  predicate Distinct<T(==)>(s: seq<T>) {
    forall i, j :: 0 <= i < j < |s| ==> s[i] != s[j]
  }

  lemma DistinctWithLast<T>(t: seq<T>, last: T)
    requires Distinct(t) && last !in t
    ensures Distinct(t + [last])
  {
    assert forall i :: 0 <= i < |t| ==> t[i] in t;
  }

  /** A new element keeps the elements distinct. */
  lemma {:induction false} DistinctInserted<T>(s: seq<T>, x: T, before: (T, T) -> bool)
    requires x !in s && Distinct(s)
    ensures Distinct(Inserted(s, x, before))
  {
    if s == [] || !before(x, s[|s| - 1]) {
      DistinctWithLast(s, x);
    } else {
      var n := |s| - 1;
      DistinctInserted(s[..n], x, before);
      InsertedHas(s[..n], x, before);
      assert s[n] in s;
      DistinctWithLast(Inserted(s[..n], x, before), s[n]);
    }
  }

  lemma {:induction false} InsertedOrdered<T(!new)>(s: seq<T>, x: T, before: (T, T) -> bool)
    requires Order(before) && Ordered(s, before)
    ensures Ordered(Inserted(s, x, before), before)
  {
    if s == [] || !before(x, s[|s| - 1]) {
      LastIsGreatest(s, x, before);
    } else {
      var n := |s| - 1;
      var t := Inserted(s[..n], x, before);
      InsertedOrdered(s[..n], x, before);
      InsertedHas(s[..n], x, before);
      forall i | 0 <= i < |t|
        ensures !before(s[n], t[i])
      {
        assert t[i] in t;
      }
    }
  }

  lemma LastIsGreatest<T(!new)>(s: seq<T>, x: T, before: (T, T) -> bool)
    requires Order(before) && Ordered(s, before) && (s == [] || !before(x, s[|s| - 1]))
    ensures forall i :: 0 <= i < |s| ==> !before(x, s[i])
  {
    forall i | 0 <= i < |s|
      ensures !before(x, s[i])
    {
      if i < |s| - 1 {
        assert !before(s[|s| - 1], s[i]);
      }
    }
  }

  lemma {:induction false} SortedSorts<T(!new)>(s: seq<T>, before: (T, T) -> bool)
    requires Order(before)
    ensures multiset(Sorted(s, before)) == multiset(s)
    ensures Ordered(Sorted(s, before), before)
  {
    if s == [] {
    } else {
      var rest, x := s[..|s| - 1], s[|s| - 1];
      SortedSorts(rest, before);
      InsertedMembers(Sorted(rest, before), x, before);
      InsertedOrdered(Sorted(rest, before), x, before);
      assert s == rest + [x];
    }
  }
}
