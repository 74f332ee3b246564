/** strset: a set of C strings that is walked in strcmp order. */
module Strset {
  import opened Strings

  ghost predicate Ascending(s: seq<string>) {
    forall i, j :: 0 <= i < j < |s| ==> Less(s[i], s[j])
  }

  lemma AscendingDistinct(s: seq<string>)
    requires Ascending(s)
    ensures forall i, j :: 0 <= i < j < |s| ==> s[i] != s[j]
  {
    forall i, j | 0 <= i < j < |s| ensures s[i] != s[j] {
      LessIrreflexive(s[i]);
    }
  }

  function RemoveAt<T>(s: seq<T>, i: nat): seq<T>
    requires i < |s|
  {
    s[..i] + s[i + 1..]
  }

  lemma RemoveAtMembers(s: seq<string>, i: nat)
    requires Ascending(s) && i < |s|
    ensures Ascending(RemoveAt(s, i))
    ensures forall x :: x in RemoveAt(s, i) <==> x in s && x != s[i]
  {
    AscendingDistinct(s);
    var r := RemoveAt(s, i);
    assert forall k :: 0 <= k < |r| ==> r[k] == if k < i then s[k] else s[k + 1];
    forall x | x in s && x != s[i] ensures x in r {
      var k :| 0 <= k < |s| && s[k] == x;
      assert r[if k < i then k else k - 1] == x;
    }
  }

  class StringSet {
    var strings: seq<string>
    var walking: nat

    ghost predicate Valid()
      reads this
    {
      Ascending(strings)
    }

    constructor ()
      ensures Valid() && strings == [] && walking == 0
    {
      strings, walking := [], 0;
    }

    /** The place of a string in the order, and whether it is there. */
    method Find(str: string) returns (found: bool, where: nat)
      requires Valid()
      ensures where <= |strings| && (found <==> str in strings)
      ensures found ==> where < |strings| && strings[where] == str
      ensures !found ==> (forall i :: 0 <= i < where ==> Less(strings[i], str))
      ensures !found ==> (forall i :: where <= i < |strings| ==> Less(str, strings[i]))
    {
      where := 0;
      while where < |strings| && Less(strings[where], str)
        invariant where <= |strings|
        invariant forall i :: 0 <= i < where ==> Less(strings[i], str)
      {
        where := where + 1;
      }
      LessIrreflexive(str);
      if where < |strings| {
        LessTotal(strings[where], str);
        found := strings[where] == str;
        forall i | where < i < |strings| && Less(str, strings[where]) ensures Less(str, strings[i]) {
          LessTransitive(str, strings[where], strings[i]);
        }
      } else {
        found := false;
      }
    }

    /** strset_add: fails on a duplicate when duplicates are not ignored. */
    method Add(str: string, ignoreDuplicates: bool) returns (ok: bool)
      requires Valid()
      modifies this`strings
      ensures Valid()
      ensures ok <==> ignoreDuplicates || str !in old(strings)
      ensures forall x :: x in strings <==> x in old(strings) || x == str
    {
      var found, where := Find(str);
      if found {
        return ignoreDuplicates;
      }
      strings := strings[..where] + [str] + strings[where..];
      return true;
    }

    /** strset_remove: never during a walk; fails on a missing string when that is not ignored. */
    method Remove(str: string, ignoreMissing: bool) returns (ok: bool)
      requires Valid() && walking == 0
      modifies this`strings
      ensures Valid()
      ensures ok <==> ignoreMissing || str in old(strings)
      ensures forall x :: x in strings <==> x in old(strings) && x != str
    {
      var found, where := Find(str);
      if !found {
        return ignoreMissing;
      }
      RemoveAtMembers(strings, where);
      strings := RemoveAt(strings, where);
      return true;
    }

    /** strset_contains */
    method Contains(str: string) returns (yes: bool)
      requires Valid()
      ensures yes <==> str in strings
    {
      var where;
      yes, where := Find(str);
    }
  }
}
