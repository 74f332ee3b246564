/** strlist: a growable array of C strings whose backing store always ends in a NULL pointer. */
module Strlist {

  datatype Slot = Null | Str(text: string)

  const GROW_COUNT := 32

  class StringList {
    var strings: array<Slot>
    var capacity: nat

    ghost predicate Valid()
      reads this, strings
    {
      strings.Length == capacity + 1 && strings[capacity] == Null
    }

    /** The list holds exactly these strings, contiguous from index 0. */
    ghost predicate Holds(xs: seq<string>)
      reads this, strings
    {
      && Valid()
      && |xs| <= capacity
      && (forall i :: 0 <= i < |xs| ==> strings[i] == Str(xs[i]))
      && (forall i :: |xs| <= i <= capacity ==> strings[i] == Null)
    }

    constructor (n: nat)
      ensures Holds([]) && capacity == n && fresh(strings)
    {
      capacity := n;
      strings := new Slot[n + 1](i => Null);
    }

    /** strlist_grow_by */
    method GrowBy(more: nat)
      requires Valid()
      modifies this
      ensures Valid() && capacity == old(capacity) + more
      ensures more == 0 ==> strings == old(strings)
      ensures more > 0 ==> fresh(strings)
      ensures forall i :: 0 <= i < old(capacity) ==> strings[i] == old(strings[i])
      ensures forall i :: old(capacity) <= i <= capacity ==> strings[i] == Null
    {
      if more == 0 {
        return;
      }
      var copy := new Slot[capacity + more + 1](i => Null);
      for i := 0 to capacity
        invariant strings == old(strings) && capacity == old(capacity)
        invariant forall k :: 0 <= k < i ==> copy[k] == strings[k]
        invariant forall k :: i <= k < copy.Length ==> copy[k] == Null
        invariant forall k :: 0 <= k < strings.Length ==> strings[k] == old(strings[k])
      {
        copy[i] := strings[i];
      }
      strings := copy;
      capacity := capacity + more;
    }

    /** strlist_set */
    method Set(idx: nat, str: string)
      requires Valid()
      modifies this, strings
      ensures Valid() && (strings == old(strings) || fresh(strings))
      ensures capacity == if idx < old(capacity) then old(capacity) else idx + 1 + GROW_COUNT
      ensures strings[idx] == Str(str)
      ensures forall i :: 0 <= i < old(capacity) && i != idx ==> strings[i] == old(strings[i])
      ensures forall i :: old(capacity) <= i <= capacity && i != idx ==> strings[i] == Null
    {
      if idx >= capacity {
        GrowBy(idx - capacity + 1 + GROW_COUNT);
      }
      strings[idx] := Str(str);
    }

    /** strlist_first_empty: grows once when every element is taken. */
    method FirstEmpty() returns (idx: nat)
      requires Valid()
      modifies this
      ensures Valid() && (strings == old(strings) || fresh(strings))
      ensures idx < capacity && strings[idx] == Null && forall i :: 0 <= i < idx ==> strings[i] != Null
      ensures capacity >= old(capacity)
      ensures forall i :: 0 <= i < old(capacity) ==> strings[i] == old(strings[i])
      ensures forall i :: old(capacity) <= i <= capacity ==> strings[i] == Null
    {
      idx := 0;
      while idx < capacity
        invariant idx <= capacity
        invariant forall i :: 0 <= i < idx ==> strings[i] != Null
      {
        if strings[idx] == Null {
          return;
        }
        idx := idx + 1;
      }
      GrowBy(GROW_COUNT);
    }

    /** strlist_set_tail */
    method SetTail(str: string, ghost xs: seq<string>)
      requires Holds(xs)
      modifies this, strings
      ensures Holds(xs + [str]) && (strings == old(strings) || fresh(strings))
    {
      var idx := FirstEmpty();
      assert strings[|xs|] == Null;
      assert idx >= |xs|;
      Set(idx, str);
    }

    /** strlist_set on an index in use. */
    method Replace(idx: nat, str: string, ghost xs: seq<string>)
      requires Holds(xs) && idx < |xs|
      modifies this, strings
      ensures Holds(xs[idx := str]) && (strings == old(strings) || fresh(strings))
    {
      Set(idx, str);
    }

    /** strlist_get: NULL past the capacity. */
    function Get(idx: nat): Slot
      requires Valid()
      reads this, strings
    {
      if idx >= capacity then Null else strings[idx]
    }

    /** strlist_contig_count: the first empty index, or the capacity; of a list without gaps, its length. */
    method ContigCount() returns (n: nat)
      requires Valid()
      ensures n <= capacity && strings[n] == Null && forall i :: 0 <= i < n ==> strings[i] != Null
      ensures forall xs :: Holds(xs) ==> n == |xs|
    {
      n := 0;
      while n < capacity
        invariant n <= capacity && forall i :: 0 <= i < n ==> strings[i] != Null
      {
        if strings[n] == Null {
          NoGaps(n);
          return;
        }
        n := n + 1;
      }
      NoGaps(n);
    }

    lemma NoGaps(n: nat)
      requires Valid() && n <= capacity && strings[n] == Null && forall i :: 0 <= i < n ==> strings[i] != Null
      ensures forall xs :: Holds(xs) ==> n == |xs|
    {
      forall xs | Holds(xs) ensures n == |xs| {
        assert strings[|xs|] == Null;
      }
    }
  }
}
