/** Characters as bytes and machine words as numbers. */
module Words {

  const TWO32: nat := 0x1_0000_0000

  function Nibble(n: int): bv8
    requires 0 <= n < 16
  {
    match n
    case 0 => 0 case 1 => 1 case 2 => 2 case 3 => 3 case 4 => 4 case 5 => 5 case 6 => 6 case 7 => 7
    case 8 => 8 case 9 => 9 case 10 => 10 case 11 => 11 case 12 => 12 case 13 => 13 case 14 => 14 case _ => 15
  }

  function Join(high: bv8, low: bv8): bv8 {
    (high << 4) | low
  }

  /** The low eight bits of a character. */
  function ByteOf(c: char): bv8 {
    Join(Nibble(c as int / 16 % 16), Nibble(c as int % 16))
  }

  function BytesOf(s: string): (b: seq<bv8>)
    ensures |b| == |s| && forall i :: 0 <= i < |s| ==> b[i] == ByteOf(s[i])
  {
    seq(|s|, i requires 0 <= i < |s| => ByteOf(s[i]))
  }

  function ValueOf(w: bv32): (n: nat)
    ensures n < TWO32
  {
    w as nat
  }

  /** n modulo 2^32, the value that fits a 32-bit word */
  function Low32(n: nat): (r: nat)
    ensures r < TWO32 && (n < TWO32 <==> r == n)
  {
    if n < TWO32 then n else Low32(n - TWO32)
  }

  function WordOf(n: nat): bv32
    requires n < TWO32
  {
    n as bv32
  }

  lemma NibbleIsInjective(m: int, n: int)
    requires 0 <= m < 16 && 0 <= n < 16 && Nibble(m) == Nibble(n)
    ensures m == n
  {
  }

  lemma NibbleFits(n: int)
    requires 0 <= n < 16
    ensures Nibble(n) < 16
  {
  }

  lemma JoinIsInjective(a: bv8, b: bv8, c: bv8, d: bv8)
    requires a < 16 && b < 16 && c < 16 && d < 16 && Join(a, b) == Join(c, d)
    ensures a == c && b == d
  {
  }

  lemma ByteIsInjective(c: char, d: char)
    requires c as int < 256 && d as int < 256 && ByteOf(c) == ByteOf(d)
    ensures c == d
  {
    var m, n := c as int, d as int;
    NibbleFits(m / 16 % 16);
    NibbleFits(m % 16);
    NibbleFits(n / 16 % 16);
    NibbleFits(n % 16);
    JoinIsInjective(Nibble(m / 16 % 16), Nibble(m % 16), Nibble(n / 16 % 16), Nibble(n % 16));
    NibbleIsInjective(m / 16 % 16, n / 16 % 16);
    NibbleIsInjective(m % 16, n % 16);
  }

  lemma ValueInverts(w: bv32)
    ensures WordOf(ValueOf(w)) == w
  {
  }

  lemma ValueIsInjective(v: bv32, w: bv32)
    requires ValueOf(v) == ValueOf(w)
    ensures v == w
  {
    ValueInverts(v);
    ValueInverts(w);
  }

  /** A string of 8-bit characters without NULs. */
  predicate CText(s: string) {
    forall i :: 0 <= i < |s| ==> 0 < s[i] as int < 256
  }

  lemma BytesAreInjective(a: string, b: string)
    requires CText(a) && CText(b) && BytesOf(a) == BytesOf(b)
    ensures a == b
  {
    forall i | 0 <= i < |a| ensures a[i] == b[i] {
      assert BytesOf(a)[i] == BytesOf(b)[i];
      ByteIsInjective(a[i], b[i]);
    }
  }
}
