/** Python's stable `sorted`, as insertion sort over a total preorder. */
module Sorting {

  function Insert<T>(x: T, s: seq<T>, leq: (T, T) -> bool): (r: seq<T>)
    ensures |r| == |s| + 1
  {
    if s == [] || leq(x, s[0]) then [x] + s else [s[0]] + Insert(x, s[1..], leq)
  }

  function Sort<T>(s: seq<T>, leq: (T, T) -> bool): (r: seq<T>)
    ensures |r| == |s|
  {
    if s == [] then [] else Insert(s[0], Sort(s[1..], leq), leq)
  }

  ghost predicate Preorder<T(!new)>(leq: (T, T) -> bool) {
    (forall x, y :: leq(x, y) || leq(y, x)) && (forall x, y, z :: leq(x, y) && leq(y, z) ==> leq(x, z))
  }

  ghost predicate Sorted<T>(s: seq<T>, leq: (T, T) -> bool) {
    forall i, j :: 0 <= i < j < |s| ==> leq(s[i], s[j])
  }

  lemma MultisetWithout<T>(s: seq<T>, j: nat)
    requires j < |s|
    ensures multiset(s[..j] + s[j + 1..]) == multiset(s) - multiset{s[j]}
    ensures j == 0 ==> s[1..] == s[..j] + s[j + 1..]
  {
    assert s == s[..j] + [s[j]] + s[j + 1..];
  }

  lemma MultisetTail<T>(s: seq<T>)
    requires s != []
    ensures multiset(s[1..]) == multiset(s) - multiset{s[0]}
  {
    assert s == [s[0]] + s[1..];
  }

  lemma MultisetSize<T>(s: seq<T>, t: seq<T>)
    requires multiset(s) == multiset(t)
    ensures |s| == |t|
  {
    assert |s| == |multiset(s)| == |multiset(t)| == |t|;
  }

  lemma {:induction false} InsertPermutes<T>(x: T, s: seq<T>, leq: (T, T) -> bool)
    ensures multiset(Insert(x, s, leq)) == multiset([x] + s)
  {
    if s != [] && !leq(x, s[0]) {
      InsertPermutes(x, s[1..], leq);
      assert s == [s[0]] + s[1..];
    }
  }

  lemma {:induction false} SortPermutes<T>(s: seq<T>, leq: (T, T) -> bool)
    ensures multiset(Sort(s, leq)) == multiset(s)
  {
    if s != [] {
      SortPermutes(s[1..], leq);
      InsertPermutes(s[0], Sort(s[1..], leq), leq);
      assert s == [s[0]] + s[1..];
    }
  }

  lemma {:induction false} InsertSorted<T(!new)>(x: T, s: seq<T>, leq: (T, T) -> bool)
    requires Preorder(leq) && Sorted(s, leq)
    ensures Sorted(Insert(x, s, leq), leq)
  {
    if s != [] && !leq(x, s[0]) {
      InsertSorted(x, s[1..], leq);
      InsertMembers(x, s[1..], leq);
      var r := Insert(x, s[1..], leq);
      hide Insert;
      forall j | 0 <= j < |r|
        ensures leq(s[0], r[j])
      {
        assert r[j] == x || r[j] in s[1..];
      }
      assert Sorted([s[0]] + r, leq);
    }
  }

  lemma InsertMembers<T>(x: T, s: seq<T>, leq: (T, T) -> bool)
    ensures forall y :: y in Insert(x, s, leq) ==> y == x || y in s
  {
    InsertPermutes(x, s, leq);
    hide Insert;
    forall y | y in Insert(x, s, leq)
      ensures y == x || y in s
    {
      assert y in multiset([x] + s);
    }
  }

  lemma {:induction false} SortSorted<T(!new)>(s: seq<T>, leq: (T, T) -> bool)
    requires Preorder(leq)
    ensures Sorted(Sort(s, leq), leq)
  {
    if s != [] {
      SortSorted(s[1..], leq);
      InsertSorted(s[0], Sort(s[1..], leq), leq);
    }
  }

  ghost predicate Antisymmetric<T(!new)>(leq: (T, T) -> bool) {
    forall x, y :: leq(x, y) && leq(y, x) ==> x == y
  }

  ghost predicate Reflexive<T(!new)>(leq: (T, T) -> bool) {
    forall x :: leq(x, x)
  }

  /** With ties only between equals, sorted order is determined by the elements alone. */
  lemma {:induction false} SortedUnique<T(!new)>(s: seq<T>, t: seq<T>, leq: (T, T) -> bool)
    requires Sorted(s, leq) && Sorted(t, leq) && multiset(s) == multiset(t)
    requires Antisymmetric(leq) && Reflexive(leq)
    ensures s == t
  {
    hide *;
    MultisetSize(s, t);
    if s != [] {
      FirstIsLeast(s, t, leq);
      FirstIsLeast(t, s, leq);
      SameElement(s[0], t[0], leq);
      MultisetTail(s);
      MultisetTail(t);
      SortedTail(s, leq);
      SortedTail(t, leq);
      SortedUnique(s[1..], t[1..], leq);
      assert s == [s[0]] + s[1..] && t == [t[0]] + t[1..];
    }
  }

  lemma SameElement<T(!new)>(x: T, y: T, leq: (T, T) -> bool)
    requires Antisymmetric(leq) && leq(x, y) && leq(y, x)
    ensures x == y
  {
  }

  lemma SortedTail<T>(s: seq<T>, leq: (T, T) -> bool)
    requires s != [] && Sorted(s, leq)
    ensures Sorted(s[1..], leq)
  {
  }

  lemma FirstIsLeast<T(!new)>(s: seq<T>, t: seq<T>, leq: (T, T) -> bool)
    requires Sorted(s, leq) && multiset(s) == multiset(t) && s != [] && t != []
    requires Reflexive(leq)
    ensures leq(s[0], t[0])
  {
    assert t[0] in multiset(s);
    var j :| 0 <= j < |s| && s[j] == t[0];
  }

  lemma SortIsCanonical<T(!new)>(s: seq<T>, t: seq<T>, leq: (T, T) -> bool)
    requires Preorder(leq) && Antisymmetric(leq) && multiset(s) == multiset(t)
    ensures Sort(s, leq) == Sort(t, leq)
  {
    SortPermutes(s, leq);
    SortPermutes(t, leq);
    SortSorted(s, leq);
    SortSorted(t, leq);
    assert Reflexive(leq);
    SortedUnique(Sort(s, leq), Sort(t, leq), leq);
  }

  function Filter<T>(s: seq<T>, p: T -> bool): seq<T> {
    if s == [] then [] else (if p(s[0]) then [s[0]] else []) + Filter(s[1..], p)
  }

  lemma FilterCons<T>(x: T, s: seq<T>, p: T -> bool)
    ensures Filter([x] + s, p) == (if p(x) then [x] else []) + Filter(s, p)
  {
    assert ([x] + s)[1..] == s;
  }

  lemma {:induction false} InsertKeepsTies<T>(x: T, s: seq<T>, leq: (T, T) -> bool, p: T -> bool)
    requires p(x) ==> forall i :: 0 <= i < |s| && p(s[i]) ==> leq(x, s[i])
    ensures Filter(Insert(x, s, leq), p) == (if p(x) then [x] else []) + Filter(s, p)
  {
    hide Filter;
    FilterCons(x, s, p);
    if s != [] && !leq(x, s[0]) {
      InsertKeepsTies(x, s[1..], leq, p);
      FilterCons(s[0], s[1..], p);
      FilterCons(s[0], Insert(x, s[1..], leq), p);
      assert s == [s[0]] + s[1..];
    }
  }

  /** Sorting is stable: elements that tie keep the order they came in. */
  lemma {:induction false} SortIsStable<T>(s: seq<T>, leq: (T, T) -> bool, p: T -> bool)
    requires forall i, j :: 0 <= i < |s| && 0 <= j < |s| && p(s[i]) && p(s[j]) ==> leq(s[i], s[j])
    ensures Filter(Sort(s, leq), p) == Filter(s, p)
  {
    if s != [] {
      SortIsStable(s[1..], leq, p);
      SortPermutes(s[1..], leq);
      var r := Sort(s[1..], leq);
      forall i | 0 <= i < |r| && p(r[i]) && p(s[0])
        ensures leq(s[0], r[i])
      {
        assert r[i] in multiset(s[1..]);
        var j :| 0 <= j < |s[1..]| && s[1..][j] == r[i];
        assert s[j + 1] == r[i];
      }
      InsertKeepsTies(s[0], r, leq, p);
    }
  }
}
