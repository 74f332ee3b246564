/** Numbers in text, as strtoul reads them and printf writes them. */
module Numerals {

  const DIGITS := "0123456789abcdef"

  /** The value of a digit in any base up to 36; -1 for other characters. */
  function DigitValue(c: char): int {
    if '0' <= c <= '9' then c as int - '0' as int
    else if 'a' <= c <= 'z' then c as int - 'a' as int + 10
    else if 'A' <= c <= 'Z' then c as int - 'A' as int + 10
    else -1
  }

  predicate IsDigit(c: char, base: nat) {
    0 <= DigitValue(c) < base
  }

  /** isspace */
  predicate IsBlank(c: char) {
    c == ' ' || 9 <= c as int <= 13
  }

  function SkipBlanks(s: string): (t: string)
    ensures |t| <= |s| && (t == "" || !IsBlank(t[0]))
  {
    if s != "" && IsBlank(s[0]) then SkipBlanks(s[1..]) else s
  }

  /** The number that the leading digits continue, and what follows them. */
  function ReadDigits(s: string, base: nat, acc: nat): (nat, string) {
    if s != "" && IsDigit(s[0], base) then ReadDigits(s[1..], base, acc * base + DigitValue(s[0])) else (acc, s)
  }

  predicate HasHexPrefix(s: string) {
    |s| > 2 && s[0] == '0' && (s[1] == 'x' || s[1] == 'X') && IsDigit(s[2], 16)
  }

  datatype Number = Number(value: nat, rest: string)

  /** strtoul(s, &rest, base), where max is ULONG_MAX: a number too large is read as max, a minus
   *  sign negates modulo max + 1, and without any digit nothing is consumed. */
  function Strtoul(s: string, base: nat, max: nat): Number {
    var t := SkipBlanks(s);
    var signed := t != "" && (t[0] == '-' || t[0] == '+');
    var u := if signed then t[1..] else t;
    var v := if base == 16 && HasHexPrefix(u) then u[2..] else u;
    if v == "" || !IsDigit(v[0], base) then Number(0, s) else
    var (n, rest) := ReadDigits(v, base, 0);
    if n > max then Number(max, rest)
    else Number(if signed && t[0] == '-' then (max + 1 - n) % (max + 1) else n, rest)
  }

  predicate IsBase(base: nat) {
    base == 10 || base == 16
  }

  /** n without its last digit */
  function Higher(n: nat, base: nat): nat
    requires IsBase(base)
  {
    if base == 16 then n / 16 else n / 10
  }

  function LastDigit(n: nat, base: nat): (d: nat)
    requires IsBase(base)
    ensures d < base
  {
    if base == 16 then n % 16 else n % 10
  }

  /** %u and %x */
  function Text(n: nat, base: nat): string
    requires IsBase(base)
  {
    if n < base then [DIGITS[n]] else Text(Higher(n, base), base) + [DIGITS[LastDigit(n, base)]]
  }

  /** s with zeros in front, up to the given width */
  function ZeroPadded(s: string, width: nat): string
    decreases width - |s|
  {
    if |s| >= width then s else ZeroPadded("0" + s, width)
  }

  predicate AllDigits(s: string, base: nat) {
    s != "" && forall i :: 0 <= i < |s| ==> IsDigit(s[i], base)
  }

  lemma DigitReads(d: nat)
    requires d < 16
    ensures DigitValue(DIGITS[d]) == d
  {
  }

  lemma {:induction false} TextIsDigits(n: nat, base: nat)
    requires IsBase(base)
    ensures AllDigits(Text(n, base), base)
  {
    if n < base {
      DigitReads(n);
    } else {
      TextIsDigits(Higher(n, base), base);
      DigitReads(LastDigit(n, base));
    }
  }

  lemma ReadOne(c: char, rest: string, base: nat, acc: nat)
    requires IsDigit(c, base)
    ensures ReadDigits([c] + rest, base, acc) == ReadDigits(rest, base, acc * base + DigitValue(c))
  {
    assert ([c] + rest)[1..] == rest;
  }

  /** Reading the digits of n is having read n. */
  lemma {:induction false} TextReads(n: nat, base: nat, rest: string)
    requires IsBase(base)
    ensures ReadDigits(Text(n, base) + rest, base, 0) == ReadDigits(rest, base, n)
  {
    if n < base {
      DigitReads(n);
      ReadOne(DIGITS[n], rest, base, 0);
    } else {
      var q, last := Higher(n, base), [DIGITS[LastDigit(n, base)]];
      assert (Text(q, base) + last) + rest == Text(q, base) + (last + rest);
      TextReads(q, base, last + rest);
      LastDigitReads(n, base, rest);
    }
  }

  lemma LastDigitReads(n: nat, base: nat, rest: string)
    requires IsBase(base)
    ensures ReadDigits([DIGITS[LastDigit(n, base)]] + rest, base, Higher(n, base)) == ReadDigits(rest, base, n)
  {
    DigitReads(LastDigit(n, base));
    ReadOne(DIGITS[LastDigit(n, base)], rest, base, Higher(n, base));
  }

  lemma {:induction false} PaddingReads(s: string, width: nat, base: nat, rest: string)
    requires IsBase(base) && AllDigits(s, base)
    ensures AllDigits(ZeroPadded(s, width), base)
    ensures ReadDigits(ZeroPadded(s, width) + rest, base, 0) == ReadDigits(s + rest, base, 0)
    decreases width - |s|
  {
    if |s| < width {
      PaddingReads("0" + s, width, base, rest);
      assert ("0" + s) + rest == "0" + (s + rest);
      ReadOne('0', s + rest, base, 0);
    }
  }

  lemma DigitIsPlain(c: char, base: nat)
    requires base <= 16 && IsDigit(c, base)
    ensures !IsBlank(c) && c != '-' && c != '+' && c != 'x' && c != 'X' && c != ' ' && c != '\0'
  {
  }

  /** strtoul reads back a number that fits, wherever a space follows it. */
  lemma NumberReads(digits: string, n: nat, base: nat, max: nat, rest: string)
    requires IsBase(base) && AllDigits(digits, base) && n <= max
    requires rest != "" && rest[0] == ' '
    requires ReadDigits(digits + rest, base, 0) == (n, rest)
    ensures Strtoul(digits + rest, base, max) == Number(n, rest)
  {
    var s := digits + rest;
    DigitIsPlain(s[0], base);
    if |digits| > 1 {
      DigitIsPlain(s[1], base);
    }
  }

  lemma DecimalReads(n: nat, max: nat, rest: string)
    requires n <= max && rest != "" && rest[0] == ' '
    ensures Strtoul(Text(n, 10) + rest, 10, max) == Number(n, rest)
  {
    TextIsDigits(n, 10);
    TextReads(n, 10, rest);
    NumberReads(Text(n, 10), n, 10, max, rest);
  }

  lemma HexReads(n: nat, width: nat, max: nat, rest: string)
    requires n <= max && rest != "" && rest[0] == ' '
    ensures Strtoul(ZeroPadded(Text(n, 16), width) + rest, 16, max) == Number(n, rest)
  {
    TextIsDigits(n, 16);
    TextReads(n, 16, rest);
    PaddingReads(Text(n, 16), width, 16, rest);
    NumberReads(ZeroPadded(Text(n, 16), width), n, 16, max, rest);
  }
}
