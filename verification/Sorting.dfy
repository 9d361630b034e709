/**
 Sorting as the program uses it: the stable `Array.prototype.sort`, and `ORDER BY` over the rows of a
 table. A comparator is given as `less(a, b)`, meaning that it returns a negative number for (a, b).
 */
module Sorting {

  /** What a comparator must satisfy for a sort to mean anything. */
  ghost predicate WeakOrder<T(!new)>(less: (T, T) -> bool) {
    && (forall a, b :: less(a, b) ==> !less(b, a))
    && (forall a, b, c :: less(a, c) ==> less(a, b) || less(b, c))
  }

  ghost predicate Sorted<T>(s: seq<T>, less: (T, T) -> bool) {
    forall i, j :: 0 <= i < j < |s| ==> !less(s[j], s[i])
  }

  ghost predicate StrictlySorted<T>(s: seq<T>, less: (T, T) -> bool) {
    forall i, j :: 0 <= i < j < |s| ==> less(s[i], s[j])
  }

  /** `x` goes after every element that is not greater than it: equal elements keep their order. */
  function Insert<T>(s: seq<T>, x: T, less: (T, T) -> bool): (r: seq<T>)
    ensures multiset(r) == multiset(s) + multiset{x}
    ensures |r| == |s| + 1
  {
    if s == [] || !less(x, s[|s| - 1]) then
      s + [x]
    else
      var last := |s| - 1;
      assert s == s[..last] + [s[last]];
      Insert(s[..last], x, less) + [s[last]]
  }

  function Sort<T>(s: seq<T>, less: (T, T) -> bool): (r: seq<T>)
    ensures multiset(r) == multiset(s)
    ensures |r| == |s|
  {
    if s == [] then
      []
    else
      var last := |s| - 1;
      assert s == s[..last] + [s[last]];
      Insert(Sort(s[..last], less), s[last], less)
  }

  lemma SameElements<T>(s: seq<T>, t: seq<T>)
    requires multiset(s) == multiset(t)
    ensures forall x :: x in s <==> x in t
  {
    forall x
      ensures x in s <==> x in t
    {
      assert x in s <==> x in multiset(s);
      assert x in t <==> x in multiset(t);
    }
  }

  lemma {:induction false} InsertSorts<T(!new)>(s: seq<T>, x: T, less: (T, T) -> bool)
    requires WeakOrder(less) && Sorted(s, less)
    ensures Sorted(Insert(s, x, less), less)
  {
    if s != [] && less(x, s[|s| - 1]) {
      var last := |s| - 1;
      InsertSorts(s[..last], x, less);
      var r := Insert(s[..last], x, less);
      assert multiset(r) == multiset(s[..last] + [x]);
      SameElements(r, s[..last] + [x]);
      forall i | 0 <= i < |r|
        ensures !less(s[last], r[i])
      {
        assert r[i] in s[..last] + [x];
      }
    }
  }

  lemma {:induction false} SortSorts<T(!new)>(s: seq<T>, less: (T, T) -> bool)
    requires WeakOrder(less)
    ensures Sorted(Sort(s, less), less)
    ensures forall x :: x in s <==> x in Sort(s, less)
  {
    SameElements(s, Sort(s, less));
    if s != [] {
      var last := |s| - 1;
      SortSorts(s[..last], less);
      InsertSorts(Sort(s[..last], less), s[last], less);
    }
  }

  lemma Transitive<T(!new)>(less: (T, T) -> bool, a: T, b: T, c: T)
    requires WeakOrder(less) && less(a, b) && less(b, c)
    ensures less(a, c)
  {
  }

  lemma {:induction false} InsertIsStrict<T(!new)>(s: seq<T>, x: T, less: (T, T) -> bool)
    requires WeakOrder(less) && StrictlySorted(s, less)
    requires forall y :: y in s ==> less(x, y) || less(y, x)
    ensures StrictlySorted(Insert(s, x, less), less)
  {
    hide WeakOrder;
    if s != [] {
      var last := |s| - 1;
      if less(x, s[last]) {
        InsertIsStrict(s[..last], x, less);
        var r := Insert(s[..last], x, less);
        SameElements(r, s[..last] + [x]);
        forall i | 0 <= i < |r|
          ensures less(r[i], s[last])
        {
          assert r[i] in s[..last] + [x];
        }
      } else {
        assert s[last] in s;
        forall i | 0 <= i < last
          ensures less(s[i], x)
        {
          Transitive(less, s[i], s[last], x);
        }
      }
    }
  }

  /** Sorting elements no two of which compare equal leaves no ties. */
  lemma {:induction false} SortIsStrict<T(!new)>(s: seq<T>, less: (T, T) -> bool)
    requires WeakOrder(less)
    requires forall i, j :: 0 <= i < j < |s| ==> less(s[i], s[j]) || less(s[j], s[i])
    ensures StrictlySorted(Sort(s, less), less)
    ensures forall x :: x in s <==> x in Sort(s, less)
  {
    SameElements(s, Sort(s, less));
    if s != [] {
      var last := |s| - 1;
      SortIsStrict(s[..last], less);
      InsertIsStrict(Sort(s[..last], less), s[last], less);
    }
  }

  /** A strictly sorted list is determined by its elements. */
  lemma {:induction false} StrictlySortedUnique<T(!new)>(a: seq<T>, b: seq<T>, less: (T, T) -> bool)
    requires WeakOrder(less) && StrictlySorted(a, less) && StrictlySorted(b, less)
    requires forall x :: x in a <==> x in b
    ensures a == b
  {
    if a == [] {
      assert forall i :: 0 <= i < |b| ==> b[i] in b;
    } else {
      assert a[0] in b && b[0] in a;
      assert a[0] == b[0];
      forall x
        ensures x in a[1..] <==> x in b[1..]
      {
        assert x in a <==> x == a[0] || x in a[1..];
        assert x in b <==> x == b[0] || x in b[1..];
        assert x in a[1..] ==> less(a[0], x);
        assert x in b[1..] ==> less(b[0], x);
      }
      StrictlySortedUnique(a[1..], b[1..], less);
    }
  }

  /** A list whose front is fixed by sorting, and whose last element goes last, is fixed by sorting. */
  lemma {:induction false} SortFixesAppend<T(!new)>(s: seq<T>, less: (T, T) -> bool)
    requires s != [] && Sort(s[..|s| - 1], less) == s[..|s| - 1]
    requires |s| > 1 ==> !less(s[|s| - 1], s[|s| - 2])
    ensures Sort(s, less) == s
  {
    var n := |s| - 1;
    assert Insert(s[..n], s[n], less) == s[..n] + [s[n]];
  }

  /** Strictly ordered within `s`: what a unique key gives the rows of a table. */
  ghost predicate TotalOn<T(!new)>(s: set<T>, less: (T, T) -> bool) {
    && WeakOrder(less)
    && forall x, y :: x in s && y in s ==> x == y || less(x, y) || less(y, x)
  }

  lemma LeastStep<T(!new)>(less: (T, T) -> bool, z: T, x: T, y: T)
    requires WeakOrder(less)
    requires x != z && (less(x, z) || less(z, x))
    requires y == z || y == x || less(x, y)
    requires y != if less(z, x) then z else x
    ensures less(if less(z, x) then z else x, y)
  {
  }

  lemma {:induction false} LeastExists<T(!new)>(s: set<T>, less: (T, T) -> bool)
    requires s != {} && TotalOn(s, less)
    ensures exists x :: x in s && forall y :: y in s && y != x ==> less(x, y)
  {
    var z :| z in s;
    var rest := s - {z};
    assert forall y :: y in s ==> y == z || y in rest;
    if rest != {} {
      LeastExists(rest, less);
      var x :| x in rest && forall y :: y in rest && y != x ==> less(x, y);
      var m := if less(z, x) then z else x;
      forall y | y in s && y != m
        ensures less(m, y)
      {
        LeastStep(less, z, x, y);
      }
    }
  }

  /** `ORDER BY`: the rows of `s` in the order of `less`. */
  function Ordered<T(!new,==)>(s: set<T>, less: (T, T) -> bool): (r: seq<T>)
    requires TotalOn(s, less)
    ensures StrictlySorted(r, less)
    ensures forall x :: x in r <==> x in s
  {
    if s == {} then
      []
    else
      LeastExists(s, less);
      var x :| x in s && forall y :: y in s && y != x ==> less(x, y);
      [x] + Ordered(s - {x}, less)
  }
}
