/** base64: section 4 of RFC 4648, with the decoder's handling of characters outside the alphabet.
 *  Bytes are numbers below 256; text is characters.
 */
module Base64 {
  import opened Dynstr
  import opened Sequences

  type Byte = b: int | 0 <= b < 256

  const UPPER := "ABCDEFGHIJKLMNOPQRSTUVWXYZ"
  const LOWER := "abcdefghijklmnopqrstuvwxyz"
  const REST := "0123456789+/"

  /** base64[i] */
  function Letter(i: int): char
    requires 0 <= i < 64
  {
    if i < 26 then UPPER[i] else if i < 52 then LOWER[i - 26] else REST[i - 52]
  }

  /** The characters of one group: c holds three bytes, n of them from the input. */
  function Quad(c: int, n: int): string
    requires 0 <= c < 0x1000000
  {
    [ Letter(c / 0x40000),
      Letter(c / 0x1000 % 64),
      if n < 2 then '=' else Letter(c / 64 % 64),
      if n < 3 then '=' else Letter(c % 64) ]
  }

  function Pack(a: int, b: int, c: int): int {
    a * 0x10000 + b * 0x100 + c
  }

  /** The text of the first group of the input. */
  function FirstQuad(x: seq<Byte>): string
    requires x != []
  {
    if |x| == 1 then Quad(Pack(x[0], 0, 0), 1)
    else if |x| == 2 then Quad(Pack(x[0], x[1], 0), 2)
    else Quad(Pack(x[0], x[1], x[2]), 3)
  }

  /** The input after its first group. */
  function RestOf(x: seq<Byte>): (r: seq<Byte>)
    requires x != []
    ensures |r| < |x|
  {
    if |x| <= 3 then [] else x[3..]
  }

  function EncodeText(x: seq<Byte>): string
    decreases |x|
  {
    if x == [] then "" else FirstQuad(x) + EncodeText(RestOf(x))
  }

  lemma QuadIsText(c: int, n: int)
    requires 0 <= c < 0x1000000
    ensures NulFree(Quad(c, n)) && |Quad(c, n)| == 4 && Quad(c, n)[0] != ' '
  {
    LetterDecodes(c / 0x40000);
    LetterDecodes(c / 0x1000 % 64);
    LetterDecodes(c / 64 % 64);
    LetterDecodes(c % 64);
  }

  lemma FirstQuadIsText(x: seq<Byte>)
    requires x != []
    ensures NulFree(FirstQuad(x)) && |FirstQuad(x)| == 4 && FirstQuad(x)[0] != ' '
  {
    if |x| == 1 { QuadIsText(Pack(x[0], 0, 0), 1); }
    else if |x| == 2 { QuadIsText(Pack(x[0], x[1], 0), 2); }
    else { QuadIsText(Pack(x[0], x[1], x[2]), 3); }
  }

  /** The loop body up to the append: i has moved past three input positions, present or not. */
  method NextGroup(input: seq<Byte>, start: nat) returns (tmp: string, i: nat)
    requires start < |input|
    ensures i == start + 3 && tmp == FirstQuad(input[start..])
  {
    i := start;
    var b0: int, b1: int, b2: int := input[i], 0, 0;
    i := i + 1;
    if i < |input| {
      b1 := input[i];
    }
    i := i + 1;
    if i < |input| {
      b2 := input[i];
    }
    i := i + 1;
    var c := Pack(b0, b1, b2);
    tmp := [Letter(c / 0x40000), Letter(c / 0x1000 % 64),
            if i > |input| + 1 then '=' else Letter(c / 64 % 64),
            if i > |input| then '=' else Letter(c % 64)];
  }

  /** base64_encode */
  method Encode(input: seq<Byte>, output: DynStr)
    requires output.Valid()
    modifies output, output.data
    ensures output.Valid() && output.data != null && (output.data == old(output.data) || fresh(output.data))
    ensures output.Text() == old(output.Text()) + EncodeText(input)
  {
    output.AppendShort("");
    var i := 0;
    ghost var done := "";
    while i < |input|
      invariant output.Valid() && output.data != null && (output.data == old(output.data) || fresh(output.data))
      invariant output.Text() == old(output.Text()) + done
      invariant EncodeText(input) == done + EncodeText(From(input, i))
      decreases |input| - i
    {
      FirstQuadIsText(input[i..]);
      ghost var start := i;
      var tmp;
      tmp, i := NextGroup(input, i);
      assert From(input, i) == RestOf(input[start..]);
      Assoc(done, tmp, EncodeText(From(input, i)));
      Assoc(old(output.Text()), done, tmp);
      output.Extend(tmp);
      done := done + tmp;
    }
  }

  function From(x: seq<Byte>, i: nat): seq<Byte> {
    if i <= |x| then x[i..] else []
  }

  // ---- decoding ----

  function DecodeOne(c: char): int {
    if 'A' <= c <= 'Z' then c as int - 'A' as int
    else if 'a' <= c <= 'z' then c as int - 'a' as int + 26
    else if '0' <= c <= '9' then c as int - '0' as int + 52
    else if c == '+' then 62
    else if c == '/' then 63
    else if c == '=' then -1
    else -2
  }

  /** hi | lo truncated to a byte, where hi has no bit that lo has unless lo is negative. */
  function OrByte(hi: int, lo: int): Byte {
    if lo < 0 then lo % 256 else (hi + lo) % 256
  }

  /** The three bytes of a group, from the four decoded characters. */
  function GroupBytes(t0: int, t1: int, t2: int, t3: int): seq<Byte> {
    [ OrByte(t0 * 4, t1 / 16),
      if t2 != -1 then OrByte(t1 % 16 * 16, t2 / 4) else 0,
      if t3 != -1 then OrByte(t2 % 4 * 64, t3) else 0 ]
  }

  /** Fillers stand only at the end of a group, and are at most two. */
  predicate BadFiller(t0: int, t1: int, t2: int, t3: int) {
    t0 == -1 || t1 == -1 || (t2 == -1 && t3 != -1)
  }

  /** A byte buffer read as a C string: up to its first NUL. */
  function CString(b: seq<Byte>): (s: string)
    ensures NulFree(s)
  {
    if b == [] || b[0] == 0 then "" else [b[0] as char] + CString(b[1..])
  }

  /** Whether a group of four characters is accepted, and the text it adds. */
  function Group(c0: char, c1: char, c2: char, c3: char): (bool, string) {
    var t0, t1, t2, t3 := DecodeOne(c0), DecodeOne(c1), DecodeOne(c2), DecodeOne(c3);
    if BadFiller(t0, t1, t2, t3) then (false, "") else (true, CString(GroupBytes(t0, t1, t2, t3)))
  }

  /** What the decoder appends before it stops, and whether it went through every group. */
  function DecodeGroups(s: string): (bool, string) {
    if |s| < 4 then (true, "") else
    var g := Group(s[0], s[1], s[2], s[3]);
    if !g.0 then (false, "") else Prepend(g.1, DecodeGroups(s[4..]))
  }

  /** What the decoder appends, and whether it accepts the text. */
  function DecodeText(s: string): (bool, string) {
    if |s| % 4 != 0 then (false, "") else DecodeGroups(s)
  }

  function Prepend(front: string, r: (bool, string)): (bool, string) {
    (r.0, front + r.1)
  }

  lemma NoPrefix(s: string)
    ensures DecodeGroups(s) == Prepend("", DecodeGroups(s[0..]))
  {
    assert s[0..] == s && "" + DecodeGroups(s).1 == DecodeGroups(s).1;
  }

  /** One step of decoding at i, after the text done. */
  lemma DecodeStep(s: string, i: nat, done: string)
    requires i + 4 <= |s|
    requires DecodeGroups(s) == Prepend(done, DecodeGroups(s[i..]))
    ensures var g := Group(s[i], s[i + 1], s[i + 2], s[i + 3]);
            DecodeGroups(s) == if g.0 then Prepend(done + g.1, DecodeGroups(s[i + 4..])) else (false, done)
  {
    var g := Group(s[i], s[i + 1], s[i + 2], s[i + 3]);
    assert s[i..][4..] == s[i + 4..];
    Assoc(done, g.1, DecodeGroups(s[i + 4..]).1);
    assert done + "" == done;
  }

  /** The check of one group, and the bytes it stands for. */
  method DecodeGroup(c0: char, c1: char, c2: char, c3: char) returns (ok: bool, buf: seq<Byte>)
    ensures ok == Group(c0, c1, c2, c3).0
    ensures ok ==> CString(buf) == Group(c0, c1, c2, c3).1
  {
    var t0, t1, t2, t3 := DecodeOne(c0), DecodeOne(c1), DecodeOne(c2), DecodeOne(c3);
    if t0 == -1 || t1 == -1 {
      return false, [];
    }
    if t2 == -1 && t3 != -1 {
      return false, [];
    }
    return true, GroupBytes(t0, t1, t2, t3);
  }

  /** The loop over whole groups */
  method DecodeAll(input: string, output: DynStr) returns (ok: bool)
    requires output.Valid() && output.data != null && |input| % 4 == 0
    modifies output, output.data
    ensures output.Valid() && output.data != null && (output.data == old(output.data) || fresh(output.data))
    ensures ok == DecodeGroups(input).0 && output.Text() == old(output.Text()) + DecodeGroups(input).1
  {
    var i := 0;
    ghost var done, groups, left := "", |input| / 4, |input| / 4;
    NoPrefix(input);
    while i < |input|
      invariant left >= 0 && i == 4 * (groups - left) && |input| == 4 * groups && i <= |input|
      invariant output.Valid() && output.data != null && (output.data == old(output.data) || fresh(output.data))
      invariant output.Text() == old(output.Text()) + done
      invariant DecodeGroups(input) == Prepend(done, DecodeGroups(input[i..]))
    {
      DecodeStep(input, i, done);
      var fine, buf := DecodeGroup(input[i], input[i + 1], input[i + 2], input[i + 3]);
      if !fine {
        return false;
      }
      Assoc(old(output.Text()), done, CString(buf));
      output.Extend(CString(buf));
      done := done + CString(buf);
      i := i + 4;
      left := left - 1;
    }
    return true;
  }

  /** base64_decode */
  method Decode(input: string, output: DynStr) returns (ok: bool)
    requires output.Valid()
    modifies output, output.data
    ensures output.Valid() && output.data != null && (output.data == old(output.data) || fresh(output.data))
    ensures ok == DecodeText(input).0 && output.Text() == old(output.Text()) + DecodeText(input).1
  {
    hide DecodeGroups;
    output.AppendShort("");
    if |input| % 4 != 0 {
      return false;
    }
    ok := DecodeAll(input, output);
  }

  // ---- the round trip ----

  lemma LetterDecodes(i: int)
    requires 0 <= i < 64
    ensures DecodeOne(Letter(i)) == i && Letter(i) != '\0' && Letter(i) != ' '
  {
    if i < 26 { UpperIs(i); } else if i < 52 { LowerIs(i - 26); } else { RestIs(i - 52); }
  }

  lemma UpperIs(i: int)
    requires 0 <= i < 26
    ensures UPPER[i] as int == 'A' as int + i
  {
  }

  lemma LowerIs(i: int)
    requires 0 <= i < 26
    ensures LOWER[i] as int == 'a' as int + i
  {
  }

  lemma RestIs(i: int)
    requires 0 <= i < 12
    ensures DecodeOne(REST[i]) == i + 52 && REST[i] != '\0' && REST[i] != ' '
  {
  }

  ghost predicate Nonzero(x: seq<Byte>) {
    forall i :: 0 <= i < |x| ==> x[i] != 0
  }

  function Chars(x: seq<Byte>): (s: string)
    ensures |s| == |x| && forall i :: 0 <= i < |x| ==> s[i] == x[i] as char
  {
    seq(|x|, i requires 0 <= i < |x| => x[i] as char)
  }

  lemma Divide(w: int, q: int, r: int, d: int)
    requires w == q * d + r && 0 <= r < d
    ensures w / d == q && w % d == r
  {
    var e := w / d - q;
    assert e * d == r - w % d && -d < r - w % d < d;
    SmallMultiple(e, d);
  }

  lemma SmallMultiple(e: int, d: int)
    requires -d < e * d < d
    ensures e == 0
  {
  }

  /** The four six-bit parts of a group. */
  lemma Sextets(a: Byte, b: Byte, c: Byte)
    ensures Pack(a, b, c) / 0x40000 == a / 4
    ensures Pack(a, b, c) / 0x1000 % 64 == a % 4 * 16 + b / 16
    ensures Pack(a, b, c) / 64 % 64 == b % 16 * 4 + c / 64
    ensures Pack(a, b, c) % 64 == c % 64
  {
    var w := Pack(a, b, c);
    Divide(w, a / 4, a % 4 * 0x10000 + b * 0x100 + c, 0x40000);
    Divide(w, a * 16 + b / 16, b % 16 * 0x100 + c, 0x1000);
    Divide(a * 16 + b / 16, a / 4, a % 4 * 16 + b / 16, 64);
    Divide(w, a * 0x400 + b * 4 + c / 64, c % 64, 64);
    Divide(a * 0x400 + b * 4 + c / 64, a * 16 + b / 16, b % 16 * 4 + c / 64, 64);
  }

  lemma FirstByte(a: Byte, b: Byte)
    ensures OrByte(a / 4 * 4, (a % 4 * 16 + b / 16) / 16) == a
  {
    Divide(a % 4 * 16 + b / 16, a % 4, b / 16, 16);
  }

  lemma SecondByte(a: Byte, b: Byte, c: Byte)
    ensures OrByte((a % 4 * 16 + b / 16) % 16 * 16, (b % 16 * 4 + c / 64) / 4) == b
  {
    Divide(a % 4 * 16 + b / 16, a % 4, b / 16, 16);
    Divide(b % 16 * 4 + c / 64, b % 16, c / 64, 4);
  }

  lemma ThirdByte(b: Byte, c: Byte)
    ensures OrByte((b % 16 * 4 + c / 64) % 4 * 64, c % 64) == c
  {
    Divide(b % 16 * 4 + c / 64, b % 16, c / 64, 4);
  }

  /** The parts of a group give its three bytes back. */
  lemma GroupInverts(a: Byte, b: Byte, c: Byte)
    ensures GroupBytes(a / 4, a % 4 * 16 + b / 16, b % 16 * 4 + c / 64, c % 64) == [a, b, c]
    ensures c == 0 ==> GroupBytes(a / 4, a % 4 * 16 + b / 16, b % 16 * 4, -1) == [a, b, 0]
    ensures b == 0 ==> GroupBytes(a / 4, a % 4 * 16, -1, -1) == [a, 0, 0]
  {
    FirstByte(a, b);
    SecondByte(a, b, c);
    ThirdByte(b, c);
  }

  lemma CStringOf(a: Byte, b: Byte, c: Byte)
    requires a != 0
    ensures CString([a, b, c]) == if b == 0 then Chars([a]) else if c == 0 then Chars([a, b]) else Chars([a, b, c])
  {
    assert [a, b, c][1..] == [b, c] && [b, c][1..] == [c] && [c][1..] == [];
    assert CString([c]) == if c == 0 then "" else [c as char];
    assert CString([b, c]) == if b == 0 then "" else [b as char] + CString([c]);
  }

  lemma PackFits(a: Byte, b: Byte, c: Byte)
    ensures 0 <= Pack(a, b, c) < 0x1000000
  {
  }

  /** A group made from three bytes, n of them from the input, decodes to them. */
  lemma GroupDecodes(a: Byte, b: Byte, c: Byte, n: int)
    requires 1 <= n <= 3 && (n < 2 ==> b == 0) && (n < 3 ==> c == 0)
    ensures Yields(Quad(Pack(a, b, c), n), CString([a, b, c]))
  {
    hide Letter, Pack, GroupBytes, CString;
    var w := Pack(a, b, c);
    PackFits(a, b, c);
    Sextets(a, b, c);
    LetterDecodes(w / 0x40000);
    LetterDecodes(w / 0x1000 % 64);
    LetterDecodes(w / 64 % 64);
    LetterDecodes(w % 64);
    GroupInverts(a, b, c);
  }

  lemma OneByte(x: seq<Byte>)
    requires |x| == 1 && x[0] != 0
    ensures Quad(Pack(x[0], 0, 0), 1) == FirstQuad(x)
    ensures CString([x[0], 0, 0]) == Chars(x)
  {
    CStringOf(x[0], 0, 0);
    assert x == [x[0]];
  }

  lemma TwoBytes(x: seq<Byte>)
    requires |x| == 2 && x[0] != 0 && x[1] != 0
    ensures Quad(Pack(x[0], x[1], 0), 2) == FirstQuad(x)
    ensures CString([x[0], x[1], 0]) == Chars(x)
  {
    CStringOf(x[0], x[1], 0);
    assert x == [x[0], x[1]];
  }

  lemma ThreeBytes(x: seq<Byte>)
    requires |x| >= 3 && x[0] != 0 && x[1] != 0 && x[2] != 0
    ensures Quad(Pack(x[0], x[1], x[2]), 3) == FirstQuad(x)
    ensures CString([x[0], x[1], x[2]]) == Chars(x[..3])
  {
    CStringOf(x[0], x[1], x[2]);
    assert x[..3] == [x[0], x[1], x[2]];
  }

  /** Whether a group of four decodes to the text t. */
  predicate Yields(q: string, t: string) {
    |q| == 4 && Group(q[0], q[1], q[2], q[3]) == (true, t)
  }

  /** What decoding the first group gives back, when no input byte is NUL. */
  lemma FirstQuadDecodes(x: seq<Byte>)
    requires x != [] && Nonzero(x)
    ensures Yields(FirstQuad(x), Chars(if |x| <= 3 then x else x[..3]))
  {
    if |x| == 1 {
      GroupDecodes(x[0], 0, 0, 1);
      OneByte(x);
    } else if |x| == 2 {
      GroupDecodes(x[0], x[1], 0, 2);
      TwoBytes(x);
    } else {
      GroupDecodes(x[0], x[1], x[2], 3);
      ThreeBytes(x);
      assert |x| == 3 ==> x[..3] == x;
    }
  }

  lemma GroupThenRest(q: string, t: string, rest: string)
    requires Yields(q, t)
    ensures DecodeGroups(q + rest) == Prepend(t, DecodeGroups(rest))
  {
    assert (q + rest)[4..] == rest;
  }

  /** The encoded text is a C string that does not begin with a space. */
  lemma {:induction false} EncodedIsText(x: seq<Byte>)
    ensures var e := EncodeText(x); NulFree(e) && (e == "" || e[0] != ' ')
    decreases |x|
  {
    if x != [] {
      FirstQuadIsText(x);
      EncodedIsText(RestOf(x));
    }
  }

  lemma GroupCount(n: nat, r: nat)
    requires n > 0 && r == if n <= 3 then 0 else n - 3
    ensures 4 + 4 * ((r + 2) / 3) == 4 * ((n + 2) / 3)
  {
  }

  lemma {:induction false} EncodedLength(x: seq<Byte>)
    ensures |EncodeText(x)| == 4 * ((|x| + 2) / 3)
    decreases |x|
  {
    if x != [] {
      FirstQuadIsText(x);
      EncodedLength(RestOf(x));
      GroupCount(|x|, |RestOf(x)|);
    }
  }

  /** Decoding inverts encoding, for every byte string without NULs. */
  lemma {:induction false} GroupsRoundTrip(x: seq<Byte>)
    requires Nonzero(x)
    ensures DecodeGroups(EncodeText(x)) == (true, Chars(x))
    decreases |x|
  {
    if x != [] {
      var rest := RestOf(x);
      GroupsRoundTrip(rest);
      FirstQuadDecodes(x);
      GroupThenRest(FirstQuad(x), Chars(if |x| <= 3 then x else x[..3]), EncodeText(rest));
      assert Chars(x) == Chars(if |x| <= 3 then x else x[..3]) + Chars(rest);
    }
  }

  lemma FourTimes(n: nat)
    ensures 4 * n % 4 == 0
  {
  }

  lemma {:induction false} DecodedIsText(s: string)
    ensures NulFree(DecodeGroups(s).1)
  {
    if |s| >= 4 {
      DecodedIsText(s[4..]);
    }
  }

  /** Encoding and decoding give the input back exactly when it holds no NUL. */
  lemma RoundTrip(x: seq<Byte>)
    ensures DecodeText(EncodeText(x)) == (true, Chars(x)) <==> Nonzero(x)
  {
    EncodedLength(x);
    FourTimes((|x| + 2) / 3);
    if Nonzero(x) {
      GroupsRoundTrip(x);
    } else {
      DecodedIsText(EncodeText(x));
      var i :| 0 <= i < |x| && x[i] == 0;
      assert Chars(x)[i] == '\0';
    }
  }
}
