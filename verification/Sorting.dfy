/** Stable sorting of sequences, and filtering.

The scripts call Python's `list.sort` and `sorted`, which are stable.  `Sort` is the
reference: insertion from the left, each new element going after everything that may
precede it.
 */
module Sorting {

  ghost predicate TotalPreorder<T(!new)>(leq: (T, T) -> bool) {
    && (forall a, b :: leq(a, b) || leq(b, a))
    && (forall a, b, c :: leq(a, b) && leq(b, c) ==> leq(a, c))
  }

  ghost predicate Ordered<T>(s: seq<T>, leq: (T, T) -> bool) {
    forall i, j :: 0 <= i < j < |s| ==> leq(s[i], s[j])
  }

  /** Every element of `a` may precede `x`. */
  ghost predicate AllBefore<T>(a: seq<T>, x: T, leq: (T, T) -> bool) {
    forall i :: 0 <= i < |a| ==> leq(a[i], x)
  }

  /** The last element of `a` may precede every element of `b`. */
  ghost predicate EndsBefore<T>(a: seq<T>, b: seq<T>, leq: (T, T) -> bool) {
    a != [] ==> forall j :: 0 <= j < |b| ==> leq(a[|a| - 1], b[j])
  }

  function InsertLast<T>(s: seq<T>, x: T, leq: (T, T) -> bool): (r: seq<T>)
    ensures |r| == |s| + 1
  {
    if s == [] then [x]
    else
      var n := |s| - 1;
      if leq(s[n], x) then s + [x] else InsertLast(s[..n], x, leq) + [s[n]]
  }

  function Sort<T>(s: seq<T>, leq: (T, T) -> bool): (r: seq<T>)
    ensures |r| == |s|
  {
    if s == [] then []
    else InsertLast(Sort(s[..|s| - 1], leq), s[|s| - 1], leq)
  }

  function Filter<T>(s: seq<T>, p: T -> bool): (r: seq<T>)
    ensures |r| <= |s|
  {
    if s == [] then []
    else
      var f := Filter(s[..|s| - 1], p);
      if p(s[|s| - 1]) then f + [s[|s| - 1]] else f
  }

  // ---- Sort is a permutation that sorts ----

  lemma {:induction false} InsertPermutes<T>(s: seq<T>, x: T, leq: (T, T) -> bool)
    ensures multiset(InsertLast(s, x, leq)) == multiset(s) + multiset{x}
  {
    if s == [] {
    } else {
      var n := |s| - 1;
      assert s == s[..n] + [s[n]];
      InsertPermutes(s[..n], x, leq);
    }
  }

  lemma {:induction false} SortPermutes<T>(s: seq<T>, leq: (T, T) -> bool)
    ensures multiset(Sort(s, leq)) == multiset(s)
  {
    if s == [] {
    } else {
      var n := |s| - 1;
      assert s == s[..n] + [s[n]];
      SortPermutes(s[..n], leq);
      InsertPermutes(Sort(s[..n], leq), s[n], leq);
    }
  }

  lemma SortMembers<T>(s: seq<T>, leq: (T, T) -> bool)
    ensures forall x <- s :: x in Sort(s, leq)
    ensures forall x <- Sort(s, leq) :: x in s
  {
    SortPermutes(s, leq);
    assert forall x <- s :: x in multiset(s);
    assert forall x <- Sort(s, leq) :: x in multiset(Sort(s, leq));
  }

  lemma OrderedSnoc<T>(s: seq<T>, x: T, leq: (T, T) -> bool)
    requires Ordered(s, leq) && forall y <- s :: leq(y, x)
    ensures Ordered(s + [x], leq)
  {
  }

  lemma InsertMembers<T>(s: seq<T>, x: T, leq: (T, T) -> bool)
    ensures forall y <- InsertLast(s, x, leq) :: y in s || y == x
  {
    InsertPermutes(s, x, leq);
    forall y | y in InsertLast(s, x, leq) ensures y in s || y == x {
      assert y in multiset(InsertLast(s, x, leq));
    }
  }

  lemma {:induction false} InsertKeepsOrder<T(!new)>(s: seq<T>, x: T, leq: (T, T) -> bool)
    requires TotalPreorder(leq) && Ordered(s, leq)
    ensures Ordered(InsertLast(s, x, leq), leq)
  {
    if s == [] {
    } else {
      var n := |s| - 1;
      forall y | y in s[..n] ensures leq(y, s[n]) {
        var i :| 0 <= i < n && s[i] == y;
      }
      if leq(s[n], x) {
        OrderedSnoc(s, x, leq);
      } else {
        InsertKeepsOrder(s[..n], x, leq);
        InsertMembers(s[..n], x, leq);
        OrderedSnoc(InsertLast(s[..n], x, leq), s[n], leq);
      }
    }
  }

  lemma {:induction false} SortOrders<T(!new)>(s: seq<T>, leq: (T, T) -> bool)
    requires TotalPreorder(leq)
    ensures Ordered(Sort(s, leq), leq)
  {
    if s == [] {
    } else {
      SortOrders(s[..|s| - 1], leq);
      InsertKeepsOrder(Sort(s[..|s| - 1], leq), s[|s| - 1], leq);
    }
  }

  lemma SortSnoc<T>(s: seq<T>, x: T, leq: (T, T) -> bool)
    ensures Sort(s + [x], leq) == InsertLast(Sort(s, leq), x, leq)
  {
    assert (s + [x])[..|s|] == s;
  }

  lemma {:induction false} SortOfOrdered<T>(s: seq<T>, leq: (T, T) -> bool)
    requires Ordered(s, leq)
    ensures Sort(s, leq) == s
  {
    if |s| == 0 {
    } else {
      var n := |s| - 1;
      SortOfOrdered(s[..n], leq);
      assert s == s[..n] + [s[n]];
      if n > 0 {
        assert leq(s[n - 1], s[n]);
      }
    }
  }

  // ---- Filter ----

  lemma FilterSnoc<T>(s: seq<T>, x: T, p: T -> bool)
    ensures Filter(s + [x], p) == if p(x) then Filter(s, p) + [x] else Filter(s, p)
  {
    assert (s + [x])[..|s|] == s;
  }

  lemma {:induction false} FilterMembers<T>(s: seq<T>, p: T -> bool)
    ensures forall x <- Filter(s, p) :: x in s && p(x)
    ensures forall x <- s :: p(x) ==> x in Filter(s, p)
  {
    if s == [] {
    } else {
      FilterMembers(s[..|s| - 1], p);
      assert s == s[..|s| - 1] + [s[|s| - 1]];
    }
  }

  /** Filtering keeps every copy of what passes and none of the rest. */
  lemma {:induction false} FilterCounts<T>(s: seq<T>, p: T -> bool, x: T)
    ensures multiset(Filter(s, p))[x] == if p(x) then multiset(s)[x] else 0
  {
    if s == [] {
    } else {
      var init, y := s[..|s| - 1], s[|s| - 1];
      FilterCounts(init, p, x);
      assert s == init + [y];
      FilterSnoc(init, y, p);
    }
  }

  lemma {:induction false} FilterKeepsOrder<T(!new)>(s: seq<T>, leq: (T, T) -> bool, p: T -> bool)
    requires Ordered(s, leq)
    ensures Ordered(Filter(s, p), leq)
  {
    if s == [] {
    } else {
      var init, y := s[..|s| - 1], s[|s| - 1];
      OrderedInit(s, leq);
      FilterKeepsOrder(init, leq, p);
      FilterMembers(init, p);
      forall z | z in Filter(init, p) ensures leq(z, y) {
        var k :| 0 <= k < |init| && init[k] == z;
      }
      if p(y) {
        OrderedSnoc(Filter(init, p), y, leq);
      }
    }
  }

  lemma FilterConcatStep<T>(a: seq<T>, c: seq<T>, x: T, p: T -> bool)
    requires Filter(a + c, p) == Filter(a, p) + Filter(c, p)
    ensures Filter(a + (c + [x]), p) == Filter(a, p) + Filter(c + [x], p)
  {
    Assoc(a, c, [x]);
    FilterSnoc(a + c, x, p);
    FilterSnoc(c, x, p);
  }

  lemma {:induction false} FilterConcat<T>(a: seq<T>, b: seq<T>, p: T -> bool)
    ensures Filter(a + b, p) == Filter(a, p) + Filter(b, p)
  {
    if b == [] {
      assert a + b == a;
    } else {
      var n := |b| - 1;
      FilterConcat(a, b[..n], p);
      FilterConcatStep(a, b[..n], b[n], p);
      assert b[..n] + [b[n]] == b;
    }
  }

  lemma {:induction false} FilterNone<T>(s: seq<T>, p: T -> bool)
    requires forall i :: 0 <= i < |s| ==> !p(s[i])
    ensures Filter(s, p) == []
  {
    if s == [] {
    } else {
      FilterNone(s[..|s| - 1], p);
    }
  }

  lemma FilterBetween<T>(a: seq<T>, b: seq<T>, c: seq<T>, p: T -> bool)
    requires Filter(a, p) == [] && Filter(c, p) == []
    ensures Filter(a + b + c, p) == Filter(b, p)
  {
    FilterConcat(a + b, c, p);
    FilterConcat(a, b, p);
  }

  // ---- Filtering commutes with sorting; this includes stability ----

  lemma InsertAtEnd<T>(s: seq<T>, x: T, leq: (T, T) -> bool)
    requires s != [] ==> leq(s[|s| - 1], x)
    ensures InsertLast(s, x, leq) == s + [x]
  {
  }

  lemma InsertBeforeLast<T>(s: seq<T>, x: T, y: T, leq: (T, T) -> bool)
    requires !leq(y, x)
    ensures InsertLast(s + [y], x, leq) == InsertLast(s, x, leq) + [y]
  {
    assert (s + [y])[..|s|] == s;
  }

  lemma LastKeptBefore<T(!new)>(s: seq<T>, x: T, leq: (T, T) -> bool, p: T -> bool)
    requires TotalPreorder(leq) && Ordered(s, leq)
    requires s != [] && leq(s[|s| - 1], x)
    ensures var f := Filter(s, p); f != [] ==> leq(f[|f| - 1], x)
  {
    var f := Filter(s, p);
    if f != [] {
      FilterMembers(s, p);
      assert f[|f| - 1] in f;
      var k :| 0 <= k < |s| && s[k] == f[|f| - 1];
      assert k == |s| - 1 || leq(s[k], s[|s| - 1]);
    }
  }

  lemma FilterBeforeLast<T>(t: seq<T>, x: T, y: T, leq: (T, T) -> bool, p: T -> bool)
    requires !leq(y, x)
    requires Filter(InsertLast(t, x, leq), p) == if p(x) then InsertLast(Filter(t, p), x, leq) else Filter(t, p)
    ensures Filter(InsertLast(t + [y], x, leq), p)
         == if p(x) then InsertLast(Filter(t + [y], p), x, leq) else Filter(t + [y], p)
  {
    InsertBeforeLast(t, x, y, leq);
    FilterSnoc(InsertLast(t, x, leq), y, p);
    FilterSnoc(t, y, p);
    InsertBeforeLast(Filter(t, p), x, y, leq);
  }

  lemma FilterAtEnd<T>(s: seq<T>, x: T, leq: (T, T) -> bool, p: T -> bool)
    requires s != [] ==> leq(s[|s| - 1], x)
    requires var f := Filter(s, p); f != [] ==> leq(f[|f| - 1], x)
    ensures Filter(InsertLast(s, x, leq), p) == if p(x) then InsertLast(Filter(s, p), x, leq) else Filter(s, p)
  {
    InsertAtEnd(s, x, leq);
    FilterSnoc(s, x, p);
    InsertAtEnd(Filter(s, p), x, leq);
  }

  lemma {:induction false} InsertThenFilter<T(!new)>(s: seq<T>, x: T, leq: (T, T) -> bool, p: T -> bool)
    requires TotalPreorder(leq) && Ordered(s, leq)
    ensures Filter(InsertLast(s, x, leq), p) == if p(x) then InsertLast(Filter(s, p), x, leq) else Filter(s, p)
  {
    if s == [] {
      FilterAtEnd(s, x, leq, p);
    } else {
      var n := |s| - 1;
      if leq(s[n], x) {
        LastKeptBefore(s, x, leq, p);
        FilterAtEnd(s, x, leq, p);
      } else {
        InsertThenFilter(s[..n], x, leq, p);
        FilterBeforeLast(s[..n], x, s[n], leq, p);
        assert s == s[..n] + [s[n]];
      }
    }
  }

  /** Sorting then filtering is filtering then sorting.  Taking for `p` the elements
      equivalent to a given one, this says that `Sort` is stable. */
  lemma {:induction false} SortThenFilter<T(!new)>(s: seq<T>, leq: (T, T) -> bool, p: T -> bool)
    requires TotalPreorder(leq)
    ensures Filter(Sort(s, leq), p) == Sort(Filter(s, p), leq)
  {
    if s == [] {
    } else {
      var n := |s| - 1;
      var t, x := s[..n], s[n];
      assert s == t + [x];
      SortThenFilter(t, leq, p);
      SortOrders(t, leq);
      calc {
        Filter(Sort(s, leq), p);
        Filter(InsertLast(Sort(t, leq), x, leq), p);
        { InsertThenFilter(Sort(t, leq), x, leq, p); }
        if p(x) then InsertLast(Sort(Filter(t, p), leq), x, leq) else Sort(Filter(t, p), leq);
        { SortSnoc(Filter(t, p), x, leq); FilterSnoc(t, x, p); }
        Sort(Filter(s, p), leq);
      }
    }
  }

  // ---- Sorting in pieces ----

  lemma {:induction false} InsertAfterPrefix<T>(a: seq<T>, b: seq<T>, x: T, leq: (T, T) -> bool)
    requires AllBefore(a, x, leq)
    ensures InsertLast(a + b, x, leq) == a + InsertLast(b, x, leq)
  {
    if b == [] {
      assert a + b == a;
      InsertAtEnd(a, x, leq);
    } else {
      var n := |b| - 1;
      assert a + b == (a + b[..n]) + [b[n]];
      if leq(b[n], x) {
        InsertAtEnd(a + b, x, leq);
      } else {
        InsertAfterPrefix(a, b[..n], x, leq);
        InsertBeforeLast(a + b[..n], x, b[n], leq);
      }
    }
  }

  lemma AllUpTo<T(!new)>(a: seq<T>, x: T, leq: (T, T) -> bool)
    requires TotalPreorder(leq) && Ordered(a, leq)
    requires a != [] ==> leq(a[|a| - 1], x)
    ensures AllBefore(a, x, leq)
  {
    forall i | 0 <= i < |a| ensures leq(a[i], x) {
      assert i == |a| - 1 || leq(a[i], a[|a| - 1]);
    }
  }

  lemma SortPrefixStep<T>(a: seq<T>, c: seq<T>, x: T, leq: (T, T) -> bool)
    requires Sort(a + c, leq) == a + Sort(c, leq) && AllBefore(a, x, leq)
    ensures Sort(a + (c + [x]), leq) == a + Sort(c + [x], leq)
  {
    Assoc(a, c, [x]);
    SortSnoc(a + c, x, leq);
    SortSnoc(c, x, leq);
    InsertAfterPrefix(a, Sort(c, leq), x, leq);
  }

  lemma {:induction false} SortAfterAll<T>(a: seq<T>, b: seq<T>, leq: (T, T) -> bool)
    requires Sort(a, leq) == a && forall j :: 0 <= j < |b| ==> AllBefore(a, b[j], leq)
    ensures Sort(a + b, leq) == a + Sort(b, leq)
  {
    if b == [] {
      assert a + b == a;
    } else {
      var n := |b| - 1;
      SortAfterAll(a, b[..n], leq);
      SortPrefixStep(a, b[..n], b[n], leq);
      assert b == b[..n] + [b[n]];
    }
  }

  /** A sorted prefix that precedes all the rest can be split off before sorting. */
  lemma SortAfterPrefix<T(!new)>(a: seq<T>, b: seq<T>, leq: (T, T) -> bool)
    requires TotalPreorder(leq) && Ordered(a, leq) && EndsBefore(a, b, leq)
    ensures Sort(a + b, leq) == a + Sort(b, leq)
  {
    SortOfOrdered(a, leq);
    forall j | 0 <= j < |b| ensures AllBefore(a, b[j], leq) {
      AllUpTo(a, b[j], leq);
    }
    SortAfterAll(a, b, leq);
  }

  lemma SortSameSnoc<T>(u: seq<T>, v: seq<T>, x: T, leq: (T, T) -> bool)
    requires Sort(u, leq) == Sort(v, leq)
    ensures Sort(u + [x], leq) == Sort(v + [x], leq)
  {
    SortSnoc(u, x, leq);
    SortSnoc(v, x, leq);
  }

  lemma Assoc<T>(a: seq<T>, b: seq<T>, c: seq<T>)
    ensures a + (b + c) == (a + b) + c
  {
  }

  /** Sorting a prefix first changes nothing. */
  lemma {:induction false} SortPrefixFirst<T(!new)>(a: seq<T>, b: seq<T>, leq: (T, T) -> bool)
    requires TotalPreorder(leq)
    ensures Sort(Sort(a, leq) + b, leq) == Sort(a + b, leq)
  {
    SortOrders(a, leq);
    SortOfOrdered(Sort(a, leq), leq);
    SortSameConcat(Sort(a, leq), a, b, leq);
  }

  lemma SortSameStep<T>(u: seq<T>, v: seq<T>, c: seq<T>, x: T, leq: (T, T) -> bool)
    requires Sort(u + c, leq) == Sort(v + c, leq)
    ensures Sort(u + (c + [x]), leq) == Sort(v + (c + [x]), leq)
  {
    SortSameSnoc(u + c, v + c, x, leq);
    Assoc(u, c, [x]);
    Assoc(v, c, [x]);
  }

  lemma {:induction false} SortSameConcat<T>(u: seq<T>, v: seq<T>, b: seq<T>, leq: (T, T) -> bool)
    requires Sort(u, leq) == Sort(v, leq)
    ensures Sort(u + b, leq) == Sort(v + b, leq)
  {
    if b == [] {
      assert u + b == u && v + b == v;
    } else {
      var n := |b| - 1;
      SortSameConcat(u, v, b[..n], leq);
      SortSameStep(u, v, b[..n], b[n], leq);
      assert b == b[..n] + [b[n]];
    }
  }

  // ---- Uniqueness ----

  ghost predicate Antisymmetric<T(!new)>(leq: (T, T) -> bool) {
    forall a, b :: leq(a, b) && leq(b, a) ==> a == b
  }

  lemma LastIsGreatest<T>(s: seq<T>, x: T, leq: (T, T) -> bool)
    requires Ordered(s, leq) && x in s
    ensures x == s[|s| - 1] || leq(x, s[|s| - 1])
  {
    var k :| 0 <= k < |s| && s[k] == x;
  }

  lemma SameLast<T(!new)>(a: seq<T>, b: seq<T>, leq: (T, T) -> bool)
    requires Antisymmetric(leq) && Ordered(a, leq) && Ordered(b, leq)
    requires multiset(a) == multiset(b) && a != [] && b != []
    ensures a[|a| - 1] == b[|b| - 1]
  {
    var x, y := a[|a| - 1], b[|b| - 1];
    assert x in multiset(a) && y in multiset(b);
    LastIsGreatest(b, x, leq);
    LastIsGreatest(a, y, leq);
  }

  lemma WithoutLast<T>(s: seq<T>)
    requires s != []
    ensures multiset(s[..|s| - 1]) == multiset(s) - multiset{s[|s| - 1]}
  {
    assert s == s[..|s| - 1] + [s[|s| - 1]];
  }

  lemma PeelLast<T>(a: seq<T>, b: seq<T>)
    requires a != [] && b != [] && multiset(a) == multiset(b) && a[|a| - 1] == b[|b| - 1]
    ensures multiset(a[..|a| - 1]) == multiset(b[..|b| - 1])
  {
    WithoutLast(a);
    WithoutLast(b);
  }

  lemma SameSize<T>(a: seq<T>, b: seq<T>)
    requires multiset(a) == multiset(b)
    ensures |a| == |b|
  {
    assert |a| == |multiset(a)| && |b| == |multiset(b)|;
  }

  lemma OrderedInit<T>(s: seq<T>, leq: (T, T) -> bool)
    requires Ordered(s, leq) && s != []
    ensures Ordered(s[..|s| - 1], leq)
  {
  }

  /** There is only one way to sort distinct keys. */
  lemma {:induction false} OrderedUnique<T(!new)>(a: seq<T>, b: seq<T>, leq: (T, T) -> bool)
    requires Antisymmetric(leq) && Ordered(a, leq) && Ordered(b, leq) && multiset(a) == multiset(b)
    ensures a == b
  {
    SameSize(a, b);
    if a == [] {
    } else {
      var n := |a| - 1;
      SameLast(a, b, leq);
      PeelLast(a, b);
      OrderedInit(a, leq);
      OrderedInit(b, leq);
      OrderedUnique(a[..n], b[..n], leq);
      assert a == a[..n] + [a[n]];
      assert b == b[..n] + [b[n]];
    }
  }
}
