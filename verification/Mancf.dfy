/** mancf: puts manual sections in one total order that respects a table of importance rules,
 *  breaking ties lexicographically.
 */
module Mancf {
  import opened Strings
  import opened Strset
  import opened Strlist
  import opened Fnmatch

  datatype Order = Order(more: string, less: string)

  const MANORDERS: seq<Order> := [
    Order("1m", "1b"),
    Order("8*", "1b"),
    Order("8*", "[2-7]*"),
    Order("3c", "3?*"),
    Order("3socket", "3xnet"),
    Order("3socket", "3head")
  ]

  // ---- the relation and the greedy choice ----

  predicate SomeRule(orders: seq<Order>, section: string, other: string) {
    exists i :: 0 <= i < |orders| && Applies(orders[i], section, other)
  }

  predicate Applies(order: Order, section: string, other: string) {
    Match(order.more, section) && Match(order.less, other)
  }

  predicate MoreImportant(orders: seq<Order>, section: string, other: string) {
    section != other && SomeRule(orders, section, other)
  }

  /** Some section of the list is more important. */
  predicate Blocked(orders: seq<Order>, sections: seq<string>, section: string) {
    exists i :: 0 <= i < |sections| && MoreImportant(orders, sections[i], section)
  }

  /** The index of the first unblocked section, or |sections|. */
  function FirstFree(orders: seq<Order>, sections: seq<string>, i: nat): (k: nat)
    requires i <= |sections|
    ensures i <= k <= |sections|
    ensures forall j :: i <= j < k ==> Blocked(orders, sections, sections[j])
    ensures k < |sections| ==> !Blocked(orders, sections, sections[k])
    decreases |sections| - i
  {
    if i == |sections| || !Blocked(orders, sections, sections[i]) then i else FirstFree(orders, sections, i + 1)
  }

  datatype Result = Sorted(sections: seq<string>) | Cycle

  /** What main computes from the sections still in the set. */
  function GreedyOrder(orders: seq<Order>, sections: seq<string>): Result
    decreases |sections|
  {
    if sections == [] then Sorted([])
    else
      var k := FirstFree(orders, sections, 0);
      if k == |sections| then Cycle
      else
        match GreedyOrder(orders, RemoveAt(sections, k))
        case Cycle => Cycle
        case Sorted(rest) => Sorted([sections[k]] + rest)
  }

  // ---- the program ----

  class ManCf {
    const sections: StringSet
    const output: StringList

    constructor (names: StringSet)
      requires names.Valid()
      ensures sections == names
      ensures output.Holds([]) && fresh(output) && fresh(output.strings)
    {
      sections := names;
      output := new StringList(0);
    }

    /** section_is_more_important: scans the table for a rule matching both names. */
    static method SectionIsMoreImportant(orders: seq<Order>, section: string, other: string) returns (yes: bool)
      ensures yes <==> MoreImportant(orders, section, other)
    {
      if section == other {
        return false;
      }
      for i := 0 to |orders|
        invariant forall k :: 0 <= k < i ==> !Applies(orders[k], section, other)
      {
        if Match(orders[i].more, section) && Match(orders[i].less, other) {
          assert Applies(orders[i], section, other);
          return true;
        }
      }
      return false;
    }

    /** The nested walk with section_sort_walk_blocked_check, which stops at the first blocker. */
    method BlockedCheck(orders: seq<Order>, sect: string) returns (blocked: bool)
      modifies sections`walking
      ensures sections.walking == old(sections.walking)
      ensures blocked <==> Blocked(orders, sections.strings, sect)
    {
      sections.walking := sections.walking + 1;
      blocked := false;
      var i := 0;
      while i < |sections.strings| && !blocked
        invariant i <= |sections.strings| && sections.walking == old(sections.walking) + 1
        invariant !blocked ==> forall k :: 0 <= k < i ==> !MoreImportant(orders, sections.strings[k], sect)
        invariant blocked ==> Blocked(orders, sections.strings, sect)
        decreases |sections.strings| - i, !blocked
      {
        blocked := SectionIsMoreImportant(orders, sections.strings[i], sect);
        i := i + 1;
      }
      sections.walking := sections.walking - 1;
    }

    /** One walk with section_sort_walk: the first unblocked section is appended to the output and
     *  removed from the set, which ends the walk. */
    method SortWalk(orders: seq<Order>, ghost done: seq<string>) returns (madeProgress: bool)
      requires sections.Valid() && output.Holds(done)
      requires sections.walking == 0
      modifies sections, output, output.strings
      ensures sections.Valid() && sections.walking == 0
      ensures output.strings == old(output.strings) || fresh(output.strings)
      ensures var k := FirstFree(orders, old(sections.strings), 0);
        && (madeProgress <==> k < |old(sections.strings)|)
        && (madeProgress ==>
            && sections.strings == RemoveAt(old(sections.strings), k)
            && output.Holds(done + [old(sections.strings)[k]]))
        && (!madeProgress ==> sections.strings == old(sections.strings) && output.Holds(done))
    {
      ghost var before := sections.strings;
      sections.walking := sections.walking + 1;
      madeProgress := false;
      var cur := 0;
      while cur < |sections.strings|
        invariant sections.strings == before && sections.walking == 1
        invariant cur <= |before|
        invariant FirstFree(orders, before, 0) == FirstFree(orders, before, cur)
        invariant output.Holds(done) && output.strings == old(output.strings)
      {
        var sect := sections.strings[cur];
        var blocked := BlockedCheck(orders, sect);
        if !blocked {
          output.SetTail(sect, done);
          RemoveAtMembers(sections.strings, cur);
          sections.strings := RemoveAt(sections.strings, cur);
          madeProgress := true;
          break;
        }
        cur := cur + 1;
      }
      sections.walking := sections.walking - 1;
    }

    /** The outer loop of main: walks until the set is empty, or gives up when a walk finds nothing. */
    method Sort(orders: seq<Order>) returns (cycle: bool, ghost order: seq<string>)
      requires sections.Valid() && output.Holds([])
      requires sections.walking == 0
      modifies sections, output, output.strings
      ensures cycle <==> GreedyOrder(orders, old(sections.strings)) == Cycle
      ensures !cycle ==> GreedyOrder(orders, old(sections.strings)) == Sorted(order) && output.Holds(order)
    {
      order := [];
      while |sections.strings| > 0
        invariant sections.Valid() && sections.walking == 0
        invariant output.Holds(order)
        invariant output.strings == old(output.strings) || fresh(output.strings)
        invariant GreedyOrder(orders, old(sections.strings)) == Prepend(order, GreedyOrder(orders, sections.strings))
        decreases |sections.strings|
      {
        ghost var k := FirstFree(orders, sections.strings, 0);
        ghost var next := if k < |sections.strings| then [sections.strings[k]] else [];
        var madeProgress := SortWalk(orders, order);
        if !madeProgress {
          return true, order;
        }
        PrependTwice(order, next, GreedyOrder(orders, sections.strings));
        order := order + next;
      }
      assert order + [] == order;
      return false, order;
    }
  }

  function Prepend(front: seq<string>, r: Result): Result {
    match r
    case Cycle => Cycle
    case Sorted(rest) => Sorted(front + rest)
  }

  lemma PrependTwice(a: seq<string>, b: seq<string>, r: Result)
    ensures Prepend(a, Prepend(b, r)) == Prepend(a + b, r)
  {
    if r.Sorted? {
      assert a + (b + r.sections) == (a + b) + r.sections;
    }
  }

  // ---- what the order is ----

  ghost predicate Distinct(s: seq<string>) {
    forall i, j :: 0 <= i < j < |s| ==> s[i] != s[j]
  }

  /** A permutation of the sections that puts no section before a more important one. */
  ghost predicate LinearExtension(orders: seq<Order>, order: seq<string>, sections: seq<string>) {
    && Distinct(order)
    && (forall x :: x in order <==> x in sections)
    && (forall i, j :: 0 <= i < j < |order| ==> !MoreImportant(orders, order[j], order[i]))
  }

  predicate LexBefore(a: seq<string>, b: seq<string>) {
    if a == [] || b == [] then false
    else Less(a[0], b[0]) || (a[0] == b[0] && LexBefore(a[1..], b[1..]))
  }

  lemma RemoveKeepsExtension(orders: seq<Order>, order: seq<string>, sections: seq<string>, i: nat, k: nat)
    requires Ascending(sections) && LinearExtension(orders, order, sections)
    requires i < |order| && k < |sections| && order[i] == sections[k]
    ensures LinearExtension(orders, RemoveAt(order, i), RemoveAt(sections, k))
  {
    var r := RemoveAt(order, i);
    RemoveAtMembers(sections, k);
    assert forall m :: 0 <= m < |r| ==> r[m] == if m < i then order[m] else order[m + 1];
    forall x ensures x in r <==> x in order && x != order[i] {
      if x in order && x != order[i] {
        var m :| 0 <= m < |order| && order[m] == x;
        assert r[if m < i then m else m - 1] == x;
      }
    }
  }

  /** The first element of any linear extension is unblocked, so the greedy choice is no later. */
  lemma FirstIsFree(orders: seq<Order>, order: seq<string>, sections: seq<string>)
    requires Ascending(sections) && LinearExtension(orders, order, sections) && sections != []
    ensures order != []
    ensures var k := FirstFree(orders, sections, 0);
      k < |sections| && (sections[k] == order[0] || Less(sections[k], order[0]))
  {
    assert sections[0] in order;
    assert order[0] in sections;
    var m :| 0 <= m < |sections| && sections[m] == order[0];
    forall b | 0 <= b < |sections| ensures !MoreImportant(orders, sections[b], order[0]) {
      assert sections[b] in order;
      var j :| 0 <= j < |order| && order[j] == sections[b];
    }
    assert FirstFree(orders, sections, 0) <= m;
  }

  lemma FirstIsMember(s: seq<string>)
    ensures s != [] ==> s[0] in s
  {
  }

  /** The output is a linear extension, and comes before every other one; and the walk gives up
   *  exactly when there is none. */
  lemma {:induction false} GreedyIsLeast(orders: seq<Order>, sections: seq<string>, order: seq<string>)
    requires Ascending(sections) && LinearExtension(orders, order, sections)
    ensures var r := GreedyOrder(orders, sections);
      r.Sorted? && (r.sections == order || LexBefore(r.sections, order))
    decreases |sections|
  {
    if sections == [] {
      FirstIsMember(order);
    } else {
      FirstIsFree(orders, order, sections);
      var k := FirstFree(orders, sections, 0);
      var x := sections[k];
      assert x in order;
      var i :| 0 <= i < |order| && order[i] == x;
      RemoveAtMembers(sections, k);
      RemoveKeepsExtension(orders, order, sections, i, k);
      GreedyIsLeast(orders, RemoveAt(sections, k), RemoveAt(order, i));
      if x == order[0] {
        assert i == 0;
        assert order == [x] + order[1..];
        assert RemoveAt(order, 0) == order[1..];
      }
    }
  }

  lemma {:induction false} GreedyIsExtension(orders: seq<Order>, sections: seq<string>)
    requires Ascending(sections) && GreedyOrder(orders, sections).Sorted?
    ensures LinearExtension(orders, GreedyOrder(orders, sections).sections, sections)
    decreases |sections|
  {
    if sections != [] {
      var k := FirstFree(orders, sections, 0);
      RemoveAtMembers(sections, k);
      GreedyIsExtension(orders, RemoveAt(sections, k));
      var rest := GreedyOrder(orders, RemoveAt(sections, k)).sections;
      var order := [sections[k]] + rest;
      forall x ensures x in order <==> x in sections {}
      forall j | 0 < j < |order| ensures !MoreImportant(orders, order[j], order[0]) && order[j] != order[0] {
        assert order[j] in rest;
        assert order[j] in sections;
      }
    }
  }

  /** For any table: the sections come out in the lexicographically least order that respects every
   *  rule, and the "cycle" exit is taken exactly when no order respects them all. */
  lemma GreedyIsLeastExtension(orders: seq<Order>, sections: seq<string>)
    requires Ascending(sections)
    ensures GreedyOrder(orders, sections) == Cycle <==> !exists order :: LinearExtension(orders, order, sections)
    ensures forall out :: GreedyOrder(orders, sections) == Sorted(out) ==>
      LinearExtension(orders, out, sections)
      && forall order :: LinearExtension(orders, order, sections) ==> out == order || LexBefore(out, order)
  {
    forall order | LinearExtension(orders, order, sections)
      ensures var r := GreedyOrder(orders, sections);
        r.Sorted? && (r.sections == order || LexBefore(r.sections, order))
    {
      GreedyIsLeast(orders, sections, order);
    }
    if GreedyOrder(orders, sections).Sorted? {
      GreedyIsExtension(orders, sections);
    }
  }

  // ---- the shipped table has no cycle ----

  /** A level that every rule of the shipped table strictly increases. */
  function Level(s: string): nat {
    if (s != [] && s[0] == '8') || s == "1m" then 0
    else if s == "1b" || s == "3c" then 1
    else if s == "3socket" then 2
    else 3
  }

  lemma ShippedRules(a: string, b: string)
    requires SomeRule(MANORDERS, a, b)
    ensures (Match("1m", a) && Match("1b", b)) || (Match("8*", a) && Match("1b", b))
      || (Match("8*", a) && Match("[2-7]*", b))
      || (Match("3c", a) && Match("3?*", b)) || (Match("3socket", a) && (Match("3xnet", b) || Match("3head", b)))
  {
    var i :| 0 <= i < |MANORDERS| && Applies(MANORDERS[i], a, b);
    assert i == 0 || i == 1 || i == 2 || i == 3 || i == 4 || i == 5;
  }

  lemma ShippedRulesDescend(a: string, b: string)
    requires MoreImportant(MANORDERS, a, b)
    ensures Level(a) < Level(b)
  {
    ShippedRules(a, b);
    MatchEight(a);
    MatchTwoToSeven(b);
    MatchThree(b);
    MatchName("1m", a);
    MatchName("1b", b);
    MatchName("3c", a);
    MatchName("3socket", a);
    MatchName("3xnet", b);
    MatchName("3head", b);
  }

  lemma MatchName(name: string, s: string)
    requires name in ["1m", "1b", "3c", "3socket", "3xnet", "3head"]
    ensures Match(name, s) <==> name == s
  {
    MatchLiteral(name, s);
  }

  lemma MatchTwoToSeven(s: string)
    ensures Match("[2-7]*", s) <==> s != [] && '2' <= s[0] <= '7'
  {
    assert "[2-7]*" == ['[', '2', '-', '7', ']', '*'];
    MatchRangeStar('2', '7', s);
  }

  lemma MatchThree(s: string)
    ensures Match("3?*", s) <==> |s| >= 2 && s[0] == '3'
  {
    assert "3?*" == ['3'] + "?*";
    MatchPlainAnyStar('3', s);
  }

  lemma MatchEight(s: string)
    ensures Match("8*", s) <==> s != [] && s[0] == '8'
  {
    assert "8*" == ['8'] + "*";
    MatchPlainStar('8', s);
  }

  lemma {:induction false} LeastLevel(sections: seq<string>) returns (m: nat)
    requires sections != []
    ensures m < |sections| && forall i :: 0 <= i < |sections| ==> Level(sections[m]) <= Level(sections[i])
  {
    if |sections| == 1 {
      m := 0;
    } else {
      m := LeastLevel(sections[..|sections| - 1]);
      if Level(sections[|sections| - 1]) < Level(sections[m]) {
        m := |sections| - 1;
      }
    }
  }

  /** With the shipped table the "cycle" exit is unreachable, whatever the sections are. */
  lemma {:induction false} ShippedTableHasNoCycle(sections: seq<string>)
    ensures GreedyOrder(MANORDERS, sections).Sorted?
    decreases |sections|
  {
    if sections != [] {
      var m := LeastLevel(sections);
      if Blocked(MANORDERS, sections, sections[m]) {
        var b :| 0 <= b < |sections| && MoreImportant(MANORDERS, sections[b], sections[m]);
        ShippedRulesDescend(sections[b], sections[m]);
      }
      assert FirstFree(MANORDERS, sections, 0) <= m;
      ShippedTableHasNoCycle(RemoveAt(sections, FirstFree(MANORDERS, sections, 0)));
    }
  }
}
