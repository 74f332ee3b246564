/** A stable insertion sort by any relation that is a total preorder on the list. */
module Sorting {

  ghost predicate PreorderOn<T(!new)>(s: seq<T>, before: (T, T) -> bool) {
    && (forall a, b :: a in s && b in s ==> before(a, b) || before(b, a))
    && (forall a, b, c :: a in s && b in s && c in s && before(a, b) && before(b, c) ==> before(a, c))
  }

  ghost predicate SortedBy<T(!new)>(s: seq<T>, before: (T, T) -> bool) {
    forall i, j :: 0 <= i < j < |s| ==> before(s[i], s[j])
  }

  function Insert<T>(x: T, s: seq<T>, before: (T, T) -> bool): seq<T> {
    if s == [] then [x]
    else if before(s[|s| - 1], x) then s + [x]
    else Insert(x, s[..|s| - 1], before) + [s[|s| - 1]]
  }

  function Sort<T>(s: seq<T>, before: (T, T) -> bool): seq<T> {
    if s == [] then [] else Insert(s[|s| - 1], Sort(s[..|s| - 1], before), before)
  }

  lemma SameMembers<T>(s: seq<T>, t: seq<T>)
    requires multiset(s) == multiset(t)
    ensures forall x :: x in s <==> x in t
  {
    forall x ensures x in s <==> x in t {
      assert x in s <==> x in multiset(s);
      assert x in t <==> x in multiset(t);
    }
  }

  lemma {:induction false} InsertKeeps<T>(x: T, s: seq<T>, before: (T, T) -> bool)
    ensures multiset(Insert(x, s, before)) == multiset(s) + multiset{x}
  {
    if s != [] {
      InsertKeeps(x, s[..|s| - 1], before);
      assert s == s[..|s| - 1] + [s[|s| - 1]];
    }
  }

  lemma Appended<T(!new)>(s: seq<T>, x: T, before: (T, T) -> bool)
    requires SortedBy(s, before) && forall y :: y in s ==> before(y, x)
    ensures SortedBy(s + [x], before)
  {
  }

  lemma LastIsGreatest<T(!new)>(s: seq<T>, before: (T, T) -> bool)
    requires SortedBy(s, before) && s != []
    ensures var last := s[|s| - 1]; forall y :: y in s[..|s| - 1] ==> before(y, last)
  {
  }

  lemma PartIsPreorder<T(!new)>(part: seq<T>, s: seq<T>, before: (T, T) -> bool)
    requires PreorderOn(s, before) && forall y :: y in part ==> y in s
    ensures PreorderOn(part, before)
  {
  }

  lemma {:induction false} InsertSorted<T(!new)>(x: T, s: seq<T>, before: (T, T) -> bool)
    requires PreorderOn(s + [x], before) && SortedBy(s, before)
    ensures SortedBy(Insert(x, s, before), before)
  {
    if s != [] {
      hide SortedBy;
      var last, front := s[|s| - 1], s[..|s| - 1];
      assert s == front + [last];
      LastIsGreatest(s, before);
      if before(last, x) {
        forall y | y in s ensures before(y, x) {
          assert y in s + [x] && x in s + [x] && last in s + [x];
        }
        Appended(s, x, before);
      } else {
        PartIsPreorder(front + [x], s + [x], before);
        PrefixIsSorted(s, before);
        InsertSorted(x, front, before);
        InsertKeeps(x, front, before);
        var r := Insert(x, front, before);
        SameMembers(r, front + [x]);
        forall y | y in r ensures before(y, last) {
          assert y in front + [x] && x in s + [x] && last in s + [x];
        }
        Appended(r, last, before);
      }
    }
  }

  lemma PrefixIsSorted<T(!new)>(s: seq<T>, before: (T, T) -> bool)
    requires SortedBy(s, before) && s != []
    ensures SortedBy(s[..|s| - 1], before)
  {
  }

  lemma {:induction false} SortSorts<T(!new)>(s: seq<T>, before: (T, T) -> bool)
    requires PreorderOn(s, before)
    ensures SortedBy(Sort(s, before), before)
    ensures multiset(Sort(s, before)) == multiset(s)
  {
    if s != [] {
      var last, front := s[|s| - 1], s[..|s| - 1];
      assert s == front + [last];
      PartIsPreorder(front, s, before);
      SortSorts(front, before);
      var t := Sort(front, before);
      SameMembers(t, front);
      assert forall y :: y in t + [last] ==> y in s;
      InsertSorted(last, t, before);
      InsertKeeps(last, t, before);
    }
  }

  lemma {:induction false} SortKeeps<T>(s: seq<T>, before: (T, T) -> bool)
    ensures multiset(Sort(s, before)) == multiset(s)
  {
    if s != [] {
      var last, front := s[|s| - 1], s[..|s| - 1];
      assert s == front + [last];
      SortKeeps(front, before);
      InsertKeeps(last, Sort(front, before), before);
    }
  }

  lemma {:induction false} InsertLength<T>(x: T, s: seq<T>, before: (T, T) -> bool)
    ensures |Insert(x, s, before)| == |s| + 1
  {
    if s != [] {
      InsertLength(x, s[..|s| - 1], before);
    }
  }

  lemma {:induction false} SortLength<T>(s: seq<T>, before: (T, T) -> bool)
    ensures |Sort(s, before)| == |s|
  {
    if s != [] {
      SortLength(s[..|s| - 1], before);
      InsertLength(s[|s| - 1], Sort(s[..|s| - 1], before), before);
    }
  }
}
