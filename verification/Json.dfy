/** The subset of JSON that the parser reads, as a grammar by recursive descent, and the name-value
 *  lists it stands for. See sections 4 to 7 of RFC 8259; escapes of characters by number are read in
 *  decimal, fractions and exponents are refused, and what follows the root is not looked at.
 */
module Json {
  import opened Numerals

  /** A value in a name-value list; a null is a boolean without a value. */
  datatype Nv = NvString(text: string) | NvBool(value: bool) | NvNull | NvInt(number: int) | NvUint(count: nat)
    | NvList(entries: map<string, Nv>)

  const MARKER_ARRAY := ".__json_array"

  /** An array is a list that is keyed by index and marked. */
  function Decoration(entries: map<string, Nv>, length: nat): map<string, Nv> {
    entries[MARKER_ARRAY := NvNull]["length" := NvUint(length)]
  }

  function Decorated(entries: map<string, Nv>, length: nat): Nv {
    NvList(Decoration(entries, length))
  }

  function IndexKey(i: nat): string {
    Text(i, 10)
  }

  /** The next character: the terminator at the end */
  function Head(s: string): char {
    if s == "" then '\0' else s[0]
  }

  function Tail(s: string): string {
    if s == "" then "" else s[1..]
  }

  predicate IsLower(c: char) {
    'a' <= c <= 'z'
  }

  predicate IsDecimal(c: char) {
    '0' <= c <= '9'
  }

  // ---- strings ----

  /** A character read, and what follows it */
  datatype Read<T> = Bad | Good(value: T, rest: string)

  /** atoi of a short text: blanks, a sign, digits, and anything after them */
  function Atoi(s: string): int {
    var t := SkipBlanks(s);
    var u := if Head(t) == '-' || Head(t) == '+' then t[1..] else t;
    var n: int := ReadDigits(u, 10, 0).0;
    if Head(t) == '-' then -n else n
  }

  /** \u with four characters, none of them the terminator, read as a decimal number */
  function UnicodeEscape(s: string): Read<char> {
    if |s| < 4 || '\0' in s[..4] then Bad else
    var res := Atoi(s[..4]);
    if res > 127 then Bad else Good((res % 256) as char, s[4..])
  }

  /** The code point that four hexadecimal digits stand for (section 7 of RFC 8259) */
  function CodePoint(digits: string): nat {
    ReadDigits(digits, 16, 0).0
  }

  predicate Hexadecimal(digits: string) {
    forall i :: 0 <= i < |digits| ==> IsDigit(digits[i], 16)
  }

  /** Once the number so far is below what it should be, or not zero before another digit, it stays below. */
  lemma {:induction false} DecimalFallsBehind(digits: string, a: nat, b: nat)
    requires Hexadecimal(digits) && (a < b || (a == b && a > 0 && digits != ""))
    ensures ReadDigits(digits, 10, a).0 < ReadDigits(digits, 16, b).0
    decreases |digits|
  {
    if digits != "" {
      var d := DigitValue(digits[0]);
      assert IsDigit(digits[0], 16);
      DecimalFallsBehind(digits[1..], a, b * 16 + d);
      if d < 10 {
        DecimalFallsBehind(digits[1..], a * 10 + d, b * 16 + d);
      } else {
        assert ReadDigits(digits, 10, a) == (a, digits);
        NotSmaller(digits[1..], b * 16 + d);
      }
    }
  }

  lemma {:induction false} NotSmaller(digits: string, b: nat)
    requires Hexadecimal(digits)
    ensures ReadDigits(digits, 16, b).0 >= b
  {
    if digits != "" {
      assert IsDigit(digits[0], 16);
      NotSmaller(digits[1..], b * 16 + DigitValue(digits[0]));
    }
  }

  /** Hexadecimal digits read in decimal give the same number exactly when only the last is not zero, and
   *  it is decimal. */
  lemma {:induction false} DecimalIsHexadecimal(digits: string)
    requires Hexadecimal(digits) && digits != ""
    ensures ReadDigits(digits, 10, 0).0 == CodePoint(digits) <==>
      (forall i :: 0 <= i < |digits| - 1 ==> digits[i] == '0') && IsDecimal(digits[|digits| - 1])
  {
    var d, rest := DigitValue(digits[0]), digits[1..];
    assert IsDigit(digits[0], 16);
    if d >= 10 {
      NotSmaller(rest, d);
    } else if rest != "" {
      if d > 0 {
        DecimalFallsBehind(rest, d, d);
        assert digits[0] != '0';
      } else {
        DecimalIsHexadecimal(rest);
        assert forall i :: 0 < i < |digits| ==> digits[i] == rest[i - 1];
      }
    }
  }

  lemma AtoiOfDigits(digits: string)
    requires Hexadecimal(digits)
    ensures Atoi(digits) == ReadDigits(digits, 10, 0).0
  {
    assert digits != "" ==> IsDigit(digits[0], 16);
  }

  /** An escape by number gives the character that its hexadecimal digits stand for exactly when the first
   *  three are zero and the last is a decimal digit. */
  lemma EscapeIsCodePoint(s: string)
    requires |s| >= 4 && Hexadecimal(s[..4])
    ensures (UnicodeEscape(s).Good? && UnicodeEscape(s).value as int == CodePoint(s[..4]))
       <==> (forall i :: 0 <= i < 3 ==> s[i] == '0') && IsDecimal(s[3])
  {
    var digits := s[..4];
    AtoiOfDigits(digits);
    DecimalIsHexadecimal(digits);
    assert forall i :: 0 <= i < 4 ==> digits[i] == s[i] && IsDigit(digits[i], 16);
    hide Atoi, CodePoint, ReadDigits;
    if (forall i :: 0 <= i < 3 ==> s[i] == '0') && IsDecimal(s[3]) {
      SmallCodePoint(digits);
    }
  }

  lemma SmallCodePoint(digits: string)
    requires |digits| == 4 && (forall i :: 0 <= i < 3 ==> digits[i] == '0') && IsDecimal(digits[3])
    ensures CodePoint(digits) < 10
  {
    var one, two, three := digits[1..], digits[1..][1..], digits[1..][1..][1..];
    assert one[0] == digits[1] && two[0] == digits[2] && three == [digits[3]] && three[1..] == "";
    assert ReadDigits(digits, 16, 0) == ReadDigits(one, 16, 0) == ReadDigits(two, 16, 0) == ReadDigits(three, 16, 0);
    assert ReadDigits(three, 16, 0) == ReadDigits(three[1..], 16, DigitValue(digits[3]));
  }

  function Escape(s: string): Read<char> {
    match Head(s)
    case '\0' => Bad
    case 'u' => UnicodeEscape(s[1..])
    case '"' => Good('"', s[1..])
    case '\\' => Good('\\', s[1..])
    case '/' => Good('/', s[1..])
    case 'b' => Good(8 as char, s[1..])
    case 'f' => Good(12 as char, s[1..])
    case 'n' => Good('\n', s[1..])
    case 'r' => Good('\r', s[1..])
    case 't' => Good('\t', s[1..])
    case _ => Bad
  }

  lemma EscapeShrinks(s: string)
    ensures Escape(s).Good? ==> |Escape(s).rest| < |s|
  {
  }

  function Prepend(c: char, r: Read<string>): Read<string> {
    if r.Bad? then Bad else Good([c] + r.value, r.rest)
  }

  /** The characters up to the closing quote */
  function Characters(s: string): (r: Read<string>)
    ensures r.Good? ==> |r.rest| < |s|
    decreases |s|
  {
    if Head(s) == '\0' then Bad
    else if s[0] == '"' then Good("", s[1..])
    else if s[0] == '\\' then
      var e := Escape(s[1..]);
      if e.Bad? then Bad else EscapeShrinks(s[1..]); Prepend(e.value, Characters(e.rest))
    else Prepend(s[0], Characters(s[1..]))
  }

  /** strdup: a C string ends at its first terminator. */
  function UpToNul(s: string): string {
    if Head(s) == '\0' then "" else [s[0]] + UpToNul(s[1..])
  }

  // ---- barewords and numbers ----

  function LowerPrefix(s: string): (w: string)
    ensures |w| <= |s|
  {
    if IsLower(Head(s)) then [s[0]] + LowerPrefix(s[1..]) else ""
  }

  function DigitPrefix(s: string): (w: string)
    ensures |w| <= |s|
  {
    if IsDecimal(Head(s)) then [s[0]] + DigitPrefix(s[1..]) else ""
  }

  /** A 32-bit signed value, wrapped around */
  function Wrap32(n: int): int {
    (n + 0x8000_0000) % 0x1_0000_0000 - 0x8000_0000
  }

  // ---- the grammar ----

  datatype Parsed = Fail | Done(value: Nv, rest: string)

  function StringValue(s: string): (r: Parsed)
    ensures r.Done? ==> |r.rest| < |s|
  {
    var c := Characters(s);
    if c.Bad? then Fail else Done(NvString(UpToNul(c.value)), c.rest)
  }

  function Bareword(s: string): (r: Parsed)
    ensures r.Done? ==> |r.rest| < |s|
  {
    var w := LowerPrefix(s);
    if w == "true" then Done(NvBool(true), s[|w|..])
    else if w == "false" then Done(NvBool(false), s[|w|..])
    else if w == "null" then Done(NvNull, s[|w|..])
    else Fail
  }

  function Number(s: string): (r: Parsed)
    ensures r.Done? ==> |r.rest| < |s|
  {
    var u := if Head(s) == '-' then s[1..] else s;
    var digits := DigitPrefix(u);
    var rest := u[|digits|..];
    if digits == "" || Head(rest) == '.' || Head(rest) == 'e' || Head(rest) == 'E' then Fail else
    var t := Wrap32(ReadDigits(digits, 10, 0).0);
    Done(NvInt(if Head(s) == '-' then Wrap32(-t) else t), rest)
  }

  function Value(s: string): (r: Parsed)
    ensures r.Done? ==> |r.rest| < |s|
    decreases |s|, 0
  {
    var t := SkipBlanks(s);
    var c := Head(t);
    if c == '"' then StringValue(t[1..])
    else if c == '{' then Object(t[1..])
    else if c == '[' then Array(t[1..])
    else if IsLower(c) then Bareword(t)
    else if c == '-' || IsDecimal(c) then Number(t)
    else Fail
  }

  /** An object after its opening brace */
  function Object(s: string): (r: Parsed)
    ensures r.Done? ==> |r.rest| < |s|
    decreases |s|, 0
  {
    var t := SkipBlanks(s);
    if Head(t) == '}' then Done(NvList(map[]), t[1..])
    else if Head(t) == '"' then Members(t[1..], map[])
    else Fail
  }

  /** Members after an opening quote, added to those read before */
  function Members(s: string, m: map<string, Nv>): (r: Parsed)
    ensures r.Done? ==> |r.rest| < |s|
    decreases |s|, 0
  {
    var key := Characters(s);
    if key.Bad? then Fail else AfterKey(key.rest, m, UpToNul(key.value))
  }

  function AfterKey(s: string, m: map<string, Nv>, key: string): (r: Parsed)
    ensures r.Done? ==> |r.rest| < |s|
    decreases |s|, 0
  {
    var t := SkipBlanks(s);
    if Head(t) != ':' then Fail else
    var v := Value(t[1..]);
    if v.Fail? then Fail else AfterMember(v.rest, m[key := v.value])
  }

  function AfterMember(s: string, m: map<string, Nv>): (r: Parsed)
    ensures r.Done? ==> |r.rest| < |s|
    decreases |s|, 0
  {
    var t := SkipBlanks(s);
    if Head(t) == '}' then Done(NvList(m), t[1..])
    else if Head(t) == ',' then
      var u := SkipBlanks(t[1..]);
      if Head(u) == '"' then Members(u[1..], m) else Fail
    else Fail
  }

  /** An array after its opening bracket */
  function Array(s: string): (r: Parsed)
    ensures r.Done? ==> |r.rest| < |s|
    decreases |s|, 2
  {
    var t := SkipBlanks(s);
    if Head(t) == ']' then Done(Decorated(map[], 0), t[1..]) else Elements(t, map[], 0)
  }

  /** Elements from the one at index i on, added to those read before */
  function Elements(s: string, m: map<string, Nv>, i: nat): (r: Parsed)
    ensures r.Done? ==> |r.rest| < |s|
    decreases |s|, 1
  {
    var v := Value(s);
    if v.Fail? then Fail else AfterElement(v.rest, m[IndexKey(i) := v.value], i + 1)
  }

  function AfterElement(s: string, m: map<string, Nv>, i: nat): (r: Parsed)
    ensures r.Done? ==> |r.rest| < |s|
    decreases |s|, 0
  {
    var t := SkipBlanks(s);
    if Head(t) == ']' then Done(Decorated(m, i), t[1..])
    else if Head(t) == ',' then Elements(t[1..], m, i)
    else Fail
  }

  /** The root: an object or an array */
  function Root(s: string): Parsed {
    var t := SkipBlanks(s);
    if Head(t) == '{' then Object(t[1..])
    else if Head(t) == '[' then Array(t[1..])
    else Fail
  }
}
