/** Shell pattern matching as fnmatch does it with no flags: '*', '?', bracket expressions with
 *  ranges, and backslash escapes.
 */
module Fnmatch {

  /** The index of the ']' that closes a bracket expression opened at 0, or |pat| if there is none. */
  function CloseOf(pat: string, i: nat): (k: nat)
    requires i <= |pat|
    ensures i <= k <= |pat| && (k < |pat| ==> pat[k] == ']')
    decreases |pat| - i
  {
    if i == |pat| || pat[i] == ']' then i else CloseOf(pat, i + 1)
  }

  /** Whether c is in the list between the brackets. */
  predicate InBracket(set_: string, c: char) {
    if set_ == [] then false
    else if |set_| >= 3 && set_[1] == '-' then set_[0] <= c <= set_[2] || InBracket(set_[3..], c)
    else set_[0] == c || InBracket(set_[1..], c)
  }

  /** A ']' that comes first in the list is an ordinary character. */
  function ListStart(pat: string): nat {
    if |pat| > 1 && pat[1] == '!' then 2 else 1
  }

  predicate Match(pat: string, s: string)
    decreases |pat| + |s|
  {
    if pat == [] then s == []
    else if pat[0] == '*' then Match(pat[1..], s) || (s != [] && Match(pat, s[1..]))
    else if s == [] then false
    else if pat[0] == '?' then Match(pat[1..], s[1..])
    else if pat[0] == '\\' && |pat| > 1 then pat[1] == s[0] && Match(pat[2..], s[1..])
    else if pat[0] == '[' && ListStart(pat) < |pat| && CloseOf(pat, ListStart(pat) + 1) < |pat| then
      var start := ListStart(pat);
      var end := CloseOf(pat, start + 1);
      (InBracket(pat[start..end], s[0]) != (start == 2)) && Match(pat[end + 1..], s[1..])
    else pat[0] == s[0] && Match(pat[1..], s[1..])
  }

  // ---- the shapes the ordering table uses ----

  predicate Plain(c: char) {
    c != '*' && c != '?' && c != '[' && c != '\\'
  }

  lemma {:induction false} MatchLiteral(pat: string, s: string)
    requires forall i :: 0 <= i < |pat| ==> Plain(pat[i])
    ensures Match(pat, s) <==> pat == s
  {
    if pat != [] && s != [] {
      assert Plain(pat[0]);
      MatchLiteral(pat[1..], s[1..]);
      assert pat == [pat[0]] + pat[1..] && s == [s[0]] + s[1..];
    }
  }

  lemma {:induction false} MatchStar(s: string)
    ensures Match("*", s)
  {
    if s != [] { MatchStar(s[1..]); }
  }

  lemma MatchPlainStar(c: char, s: string)
    requires Plain(c)
    ensures Match([c] + "*", s) <==> s != [] && s[0] == c
  {
    if s != [] {
      assert ([c] + "*")[1..] == "*";
      MatchStar(s[1..]);
    }
  }

  lemma MatchPlainAnyStar(c: char, s: string)
    requires Plain(c)
    ensures Match([c] + "?*", s) <==> |s| >= 2 && s[0] == c
  {
    assert ([c] + "?*")[1..] == "?*";
    if s != [] {
      assert "?*"[1..] == "*";
      if |s| >= 2 { MatchStar(s[2..]); assert s[1..][1..] == s[2..]; }
    }
  }

  lemma MatchRangeStar(lo: char, hi: char, s: string)
    requires lo != '!' && lo != ']' && hi != ']'
    ensures Match(['[', lo, '-', hi, ']', '*'], s) <==> s != [] && lo <= s[0] <= hi
  {
    var pat := ['[', lo, '-', hi, ']', '*'];
    if s != [] {
      assert CloseOf(pat, 4) == 4;
      assert CloseOf(pat, 3) == 4;
      assert CloseOf(pat, 2) == 4;
      assert pat[1..4] == [lo, '-', hi];
      assert [lo, '-', hi][3..] == [];
      assert InBracket([lo, '-', hi], s[0]) <==> lo <= s[0] <= hi;
      assert pat[5..] == "*";
      MatchStar(s[1..]);
      assert Match(pat, s) <==> InBracket(pat[1..4], s[0]);
    }
  }
}
