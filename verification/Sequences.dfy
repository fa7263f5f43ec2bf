/** Library operations the service relies on: optional values, `filter`, and the
    stable sort of Python's `list.sort` / `sorted` and of SQL's `ORDER BY`. */
module Sequences {

  datatype Option<+T> = None | Some(value: T)

  function Min(a: int, b: int): int { if a <= b then a else b }

  function Max(a: int, b: int): int { if a <= b then b else a }

  function Filter<T(!new)>(s: seq<T>, p: T -> bool): (r: seq<T>)
    ensures |r| <= |s|
    ensures forall x :: x in r <==> x in s && p(x)
  {
    if s == [] then []
    else if p(s[0]) then [s[0]] + Filter(s[1..], p)
    else Filter(s[1..], p)
  }

  lemma FilterConcat<T(!new)>(a: seq<T>, b: seq<T>, p: T -> bool)
    ensures Filter(a + b, p) == Filter(a, p) + Filter(b, p)
  {
    if a == [] {
      assert a + b == b;
    } else {
      assert (a + b)[1..] == a[1..] + b;
      FilterConcat(a[1..], b, p);
    }
  }

  lemma FilterAll<T(!new)>(s: seq<T>, p: T -> bool)
    requires forall x :: x in s ==> p(x)
    ensures Filter(s, p) == s
  {
  }

  lemma FilterNone<T(!new)>(s: seq<T>, p: T -> bool)
    requires forall x :: x in s ==> !p(x)
    ensures Filter(s, p) == []
  {
  }

  predicate Distinct<T(==)>(s: seq<T>) {
    forall i, j :: 0 <= i < j < |s| ==> s[i] != s[j]
  }

  lemma Regroup<T>(a: seq<T>, b: seq<T>, c: seq<T>)
    ensures a + (b + c) == (a + b) + c
  {
  }

  /** `list.remove` and `del`: without the first occurrence of `x`. */
  function Remove<T(==)>(s: seq<T>, x: T): seq<T> {
    if s == [] then [] else if s[0] == x then s[1..] else [s[0]] + Remove(s[1..], x)
  }

  lemma {:induction false} RemoveAt<T>(s: seq<T>, i: nat)
    requires i < |s| && forall j :: 0 <= j < i ==> s[j] != s[i]
    ensures Remove(s, s[i]) == s[..i] + s[i + 1..]
  {
    if i > 0 {
      RemoveAt(s[1..], i - 1);
      assert s[1..][..i - 1] + s[1..][i..] == s[1..i] + s[i + 1..];
      assert s[..i] == [s[0]] + s[1..i];
    }
  }

  lemma {:induction false} RemoveConcat<T>(a: seq<T>, b: seq<T>, x: T)
    ensures Remove(a + b, x) == if x in a then Remove(a, x) + b else a + Remove(b, x)
  {
    if a == [] {
      assert a + b == b;
    } else {
      assert (a + b)[0] == a[0] && (a + b)[1..] == a[1..] + b;
      if a[0] != x {
        RemoveConcat(a[1..], b, x);
        assert x in a <==> x in a[1..];
        Regroup([a[0]], Remove(a[1..], x), b);
        Regroup([a[0]], a[1..], Remove(b, x));
        assert a == [a[0]] + a[1..];
      }
    }
  }

  lemma {:induction false} RemoveAbsent<T>(s: seq<T>, x: T)
    requires x !in s
    ensures Remove(s, x) == s
  {
    if s != [] {
      RemoveAbsent(s[1..], x);
    }
  }

  // ---------------------------------------------------------------- sorting

  /** A total preorder: what a sort key gives. */
  ghost predicate TotalPreorder<T(!new)>(leq: (T, T) -> bool) {
    && (forall x, y :: leq(x, y) || leq(y, x))
    && (forall x, y, z :: leq(x, y) && leq(y, z) ==> leq(x, z))
  }

  ghost predicate Antisymmetric<T(!new)>(leq: (T, T) -> bool) {
    forall x, y :: leq(x, y) && leq(y, x) ==> x == y
  }

  ghost predicate Sorted<T>(s: seq<T>, leq: (T, T) -> bool) {
    forall i, j :: 0 <= i < j < |s| ==> leq(s[i], s[j])
  }

  /** Inserts `x` before the first element that is not strictly smaller. */
  function Insert<T>(x: T, s: seq<T>, leq: (T, T) -> bool): seq<T> {
    if s == [] || leq(x, s[0]) then [x] + s else [s[0]] + Insert(x, s[1..], leq)
  }

  /** Stable: elements with equal keys keep their order. */
  function Sort<T>(s: seq<T>, leq: (T, T) -> bool): seq<T> {
    if s == [] then [] else Insert(s[0], Sort(s[1..], leq), leq)
  }

  lemma InsertMultiset<T(!new)>(x: T, s: seq<T>, leq: (T, T) -> bool)
    ensures multiset(Insert(x, s, leq)) == multiset([x] + s)
  {
    if s != [] && !leq(x, s[0]) {
      InsertMultiset(x, s[1..], leq);
      assert s == [s[0]] + s[1..];
    }
  }

  lemma SortMultiset<T(!new)>(s: seq<T>, leq: (T, T) -> bool)
    ensures multiset(Sort(s, leq)) == multiset(s)
    ensures |Sort(s, leq)| == |s|
    ensures forall x :: x in Sort(s, leq) <==> x in s
  {
    if s != [] {
      SortMultiset(s[1..], leq);
      InsertMultiset(s[0], Sort(s[1..], leq), leq);
      assert s == [s[0]] + s[1..];
    }
    SameMultisetSameElements(Sort(s, leq), s);
  }

  lemma SameMultisetSameElements<T(!new)>(a: seq<T>, b: seq<T>)
    requires multiset(a) == multiset(b)
    ensures |a| == |b|
    ensures forall x :: x in a <==> x in b
  {
    assert |a| == |multiset(a)| == |multiset(b)| == |b|;
    forall x
      ensures x in a <==> x in b
    {
      assert x in a <==> x in multiset(a);
      assert x in b <==> x in multiset(b);
    }
  }

  lemma InsertSorted<T(!new)>(x: T, s: seq<T>, leq: (T, T) -> bool)
    requires TotalPreorder(leq) && Sorted(s, leq)
    ensures Sorted(Insert(x, s, leq), leq)
  {
    if s != [] {
      if !leq(x, s[0]) {
        InsertSorted(x, s[1..], leq);
        InsertMultiset(x, s[1..], leq);
        SameMultisetSameElements(Insert(x, s[1..], leq), [x] + s[1..]);
        var r := Insert(x, s[1..], leq);
        forall j | 0 <= j < |r|
          ensures leq(s[0], r[j])
        {
          assert r[j] in [x] + s[1..];
        }
      }
    }
  }

  lemma SortSorted<T(!new)>(s: seq<T>, leq: (T, T) -> bool)
    requires TotalPreorder(leq)
    ensures Sorted(Sort(s, leq), leq)
  {
    if s != [] {
      SortSorted(s[1..], leq);
      InsertSorted(s[0], Sort(s[1..], leq), leq);
    }
  }

  /** The sort of an already sorted list is the list itself. */
  lemma SortOfSorted<T(!new)>(s: seq<T>, leq: (T, T) -> bool)
    requires Sorted(s, leq)
    ensures Sort(s, leq) == s
  {
    if s != [] {
      SortOfSorted(s[1..], leq);
    }
  }

  lemma InsertBelowAll<T(!new)>(x: T, s: seq<T>, leq: (T, T) -> bool)
    requires forall y :: y in s ==> leq(x, y)
    ensures Insert(x, s, leq) == [x] + s
  {
  }

  lemma {:induction false} InsertFilter<T(!new)>(x: T, s: seq<T>, leq: (T, T) -> bool, p: T -> bool)
    requires TotalPreorder(leq) && Sorted(s, leq)
    ensures Filter(Insert(x, s, leq), p)
         == if p(x) then Insert(x, Filter(s, p), leq) else Filter(s, p)
  {
    if s == [] {
    } else if leq(x, s[0]) {
      assert ([x] + s)[1..] == s;
      if p(x) {
        forall y | y in Filter(s, p)
          ensures leq(x, y)
        {
          var k :| 0 <= k < |s| && s[k] == y;
        }
        InsertBelowAll(x, Filter(s, p), leq);
      }
    } else {
      var r := Insert(x, s[1..], leq);
      InsertFilter(x, s[1..], leq, p);
      assert ([s[0]] + r)[1..] == r;
      assert Filter([s[0]] + r, p) == if p(s[0]) then [s[0]] + Filter(r, p) else Filter(r, p);
      if p(s[0]) {
        var f := Filter(s[1..], p);
        assert ([s[0]] + f)[1..] == f;
        assert Insert(x, [s[0]] + f, leq) == [s[0]] + Insert(x, f, leq);
      }
    }
  }

  /** A stable sort commutes with deleting elements. */
  lemma {:induction false} SortFilter<T(!new)>(s: seq<T>, leq: (T, T) -> bool, p: T -> bool)
    requires TotalPreorder(leq)
    ensures Sort(Filter(s, p), leq) == Filter(Sort(s, leq), p)
  {
    if s != [] {
      SortFilter(s[1..], leq, p);
      SortSorted(s[1..], leq);
      InsertFilter(s[0], Sort(s[1..], leq), leq, p);
      if p(s[0]) {
        var f := Filter(s[1..], p);
        assert ([s[0]] + f)[1..] == f;
        assert Sort([s[0]] + f, leq) == Insert(s[0], Sort(f, leq), leq);
      }
    }
  }

  lemma TailMultiset<T>(a: seq<T>)
    requires a != []
    ensures multiset(a[1..]) == multiset(a) - multiset{a[0]}
  {
    assert a == [a[0]] + a[1..];
  }

  /** No two different elements of `s` have equal keys. */
  ghost predicate AntisymmetricOn<T>(s: seq<T>, leq: (T, T) -> bool) {
    forall x, y :: x in s && y in s && leq(x, y) && leq(y, x) ==> x == y
  }

  /** Under an antisymmetric order a sorted arrangement is unique. */
  lemma SortedUnique<T(!new)>(a: seq<T>, b: seq<T>, leq: (T, T) -> bool)
    requires TotalPreorder(leq) && AntisymmetricOn(a, leq)
    requires Sorted(a, leq) && Sorted(b, leq) && multiset(a) == multiset(b)
    ensures a == b
  {
    SameMultisetSameElements(a, b);
    if a != [] {
      assert a[0] in b && b[0] in a;
      assert a[0] == b[0];
      TailMultiset(a);
      TailMultiset(b);
      SortedUnique(a[1..], b[1..], leq);
    }
  }

  /** Sorting forgets the order of its input. */
  lemma SortPermutation<T(!new)>(a: seq<T>, b: seq<T>, leq: (T, T) -> bool)
    requires TotalPreorder(leq) && AntisymmetricOn(a, leq)
    requires multiset(a) == multiset(b)
    ensures Sort(a, leq) == Sort(b, leq)
  {
    SortMultiset(a, leq);
    SortMultiset(b, leq);
    SortSorted(a, leq);
    SortSorted(b, leq);
    SortedUnique(Sort(a, leq), Sort(b, leq), leq);
  }
}
