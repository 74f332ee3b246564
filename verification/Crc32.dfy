/** crc32: the table-driven checksum equals bit-at-a-time division by the reflected polynomial
 *  0xEDB88320 (section 8 of RFC 1952), and it notices every change confined to four bytes.
 */
module Crc32 {
  import opened Folding

  // ---- the table, in rows of sixteen entries ----

  function Row0(j: bv8): bv32 {
    match j
    case 0 => 0x00000000 case 1 => 0x77073096 case 2 => 0xee0e612c case 3 => 0x990951ba
    case 4 => 0x076dc419 case 5 => 0x706af48f case 6 => 0xe963a535 case 7 => 0x9e6495a3
    case 8 => 0x0edb8832 case 9 => 0x79dcb8a4 case 10 => 0xe0d5e91e case 11 => 0x97d2d988
    case 12 => 0x09b64c2b case 13 => 0x7eb17cbd case 14 => 0xe7b82d07 case _ => 0x90bf1d91
  }

  function Row1(j: bv8): bv32 {
    match j
    case 0 => 0x1db71064 case 1 => 0x6ab020f2 case 2 => 0xf3b97148 case 3 => 0x84be41de
    case 4 => 0x1adad47d case 5 => 0x6ddde4eb case 6 => 0xf4d4b551 case 7 => 0x83d385c7
    case 8 => 0x136c9856 case 9 => 0x646ba8c0 case 10 => 0xfd62f97a case 11 => 0x8a65c9ec
    case 12 => 0x14015c4f case 13 => 0x63066cd9 case 14 => 0xfa0f3d63 case _ => 0x8d080df5
  }

  function Row2(j: bv8): bv32 {
    match j
    case 0 => 0x3b6e20c8 case 1 => 0x4c69105e case 2 => 0xd56041e4 case 3 => 0xa2677172
    case 4 => 0x3c03e4d1 case 5 => 0x4b04d447 case 6 => 0xd20d85fd case 7 => 0xa50ab56b
    case 8 => 0x35b5a8fa case 9 => 0x42b2986c case 10 => 0xdbbbc9d6 case 11 => 0xacbcf940
    case 12 => 0x32d86ce3 case 13 => 0x45df5c75 case 14 => 0xdcd60dcf case _ => 0xabd13d59
  }

  function Row3(j: bv8): bv32 {
    match j
    case 0 => 0x26d930ac case 1 => 0x51de003a case 2 => 0xc8d75180 case 3 => 0xbfd06116
    case 4 => 0x21b4f4b5 case 5 => 0x56b3c423 case 6 => 0xcfba9599 case 7 => 0xb8bda50f
    case 8 => 0x2802b89e case 9 => 0x5f058808 case 10 => 0xc60cd9b2 case 11 => 0xb10be924
    case 12 => 0x2f6f7c87 case 13 => 0x58684c11 case 14 => 0xc1611dab case _ => 0xb6662d3d
  }

  function Row4(j: bv8): bv32 {
    match j
    case 0 => 0x76dc4190 case 1 => 0x01db7106 case 2 => 0x98d220bc case 3 => 0xefd5102a
    case 4 => 0x71b18589 case 5 => 0x06b6b51f case 6 => 0x9fbfe4a5 case 7 => 0xe8b8d433
    case 8 => 0x7807c9a2 case 9 => 0x0f00f934 case 10 => 0x9609a88e case 11 => 0xe10e9818
    case 12 => 0x7f6a0dbb case 13 => 0x086d3d2d case 14 => 0x91646c97 case _ => 0xe6635c01
  }

  function Row5(j: bv8): bv32 {
    match j
    case 0 => 0x6b6b51f4 case 1 => 0x1c6c6162 case 2 => 0x856530d8 case 3 => 0xf262004e
    case 4 => 0x6c0695ed case 5 => 0x1b01a57b case 6 => 0x8208f4c1 case 7 => 0xf50fc457
    case 8 => 0x65b0d9c6 case 9 => 0x12b7e950 case 10 => 0x8bbeb8ea case 11 => 0xfcb9887c
    case 12 => 0x62dd1ddf case 13 => 0x15da2d49 case 14 => 0x8cd37cf3 case _ => 0xfbd44c65
  }

  function Row6(j: bv8): bv32 {
    match j
    case 0 => 0x4db26158 case 1 => 0x3ab551ce case 2 => 0xa3bc0074 case 3 => 0xd4bb30e2
    case 4 => 0x4adfa541 case 5 => 0x3dd895d7 case 6 => 0xa4d1c46d case 7 => 0xd3d6f4fb
    case 8 => 0x4369e96a case 9 => 0x346ed9fc case 10 => 0xad678846 case 11 => 0xda60b8d0
    case 12 => 0x44042d73 case 13 => 0x33031de5 case 14 => 0xaa0a4c5f case _ => 0xdd0d7cc9
  }

  function Row7(j: bv8): bv32 {
    match j
    case 0 => 0x5005713c case 1 => 0x270241aa case 2 => 0xbe0b1010 case 3 => 0xc90c2086
    case 4 => 0x5768b525 case 5 => 0x206f85b3 case 6 => 0xb966d409 case 7 => 0xce61e49f
    case 8 => 0x5edef90e case 9 => 0x29d9c998 case 10 => 0xb0d09822 case 11 => 0xc7d7a8b4
    case 12 => 0x59b33d17 case 13 => 0x2eb40d81 case 14 => 0xb7bd5c3b case _ => 0xc0ba6cad
  }

  function Row8(j: bv8): bv32 {
    match j
    case 0 => 0xedb88320 case 1 => 0x9abfb3b6 case 2 => 0x03b6e20c case 3 => 0x74b1d29a
    case 4 => 0xead54739 case 5 => 0x9dd277af case 6 => 0x04db2615 case 7 => 0x73dc1683
    case 8 => 0xe3630b12 case 9 => 0x94643b84 case 10 => 0x0d6d6a3e case 11 => 0x7a6a5aa8
    case 12 => 0xe40ecf0b case 13 => 0x9309ff9d case 14 => 0x0a00ae27 case _ => 0x7d079eb1
  }

  function Row9(j: bv8): bv32 {
    match j
    case 0 => 0xf00f9344 case 1 => 0x8708a3d2 case 2 => 0x1e01f268 case 3 => 0x6906c2fe
    case 4 => 0xf762575d case 5 => 0x806567cb case 6 => 0x196c3671 case 7 => 0x6e6b06e7
    case 8 => 0xfed41b76 case 9 => 0x89d32be0 case 10 => 0x10da7a5a case 11 => 0x67dd4acc
    case 12 => 0xf9b9df6f case 13 => 0x8ebeeff9 case 14 => 0x17b7be43 case _ => 0x60b08ed5
  }

  function RowA(j: bv8): bv32 {
    match j
    case 0 => 0xd6d6a3e8 case 1 => 0xa1d1937e case 2 => 0x38d8c2c4 case 3 => 0x4fdff252
    case 4 => 0xd1bb67f1 case 5 => 0xa6bc5767 case 6 => 0x3fb506dd case 7 => 0x48b2364b
    case 8 => 0xd80d2bda case 9 => 0xaf0a1b4c case 10 => 0x36034af6 case 11 => 0x41047a60
    case 12 => 0xdf60efc3 case 13 => 0xa867df55 case 14 => 0x316e8eef case _ => 0x4669be79
  }

  function RowB(j: bv8): bv32 {
    match j
    case 0 => 0xcb61b38c case 1 => 0xbc66831a case 2 => 0x256fd2a0 case 3 => 0x5268e236
    case 4 => 0xcc0c7795 case 5 => 0xbb0b4703 case 6 => 0x220216b9 case 7 => 0x5505262f
    case 8 => 0xc5ba3bbe case 9 => 0xb2bd0b28 case 10 => 0x2bb45a92 case 11 => 0x5cb36a04
    case 12 => 0xc2d7ffa7 case 13 => 0xb5d0cf31 case 14 => 0x2cd99e8b case _ => 0x5bdeae1d
  }

  function RowC(j: bv8): bv32 {
    match j
    case 0 => 0x9b64c2b0 case 1 => 0xec63f226 case 2 => 0x756aa39c case 3 => 0x026d930a
    case 4 => 0x9c0906a9 case 5 => 0xeb0e363f case 6 => 0x72076785 case 7 => 0x05005713
    case 8 => 0x95bf4a82 case 9 => 0xe2b87a14 case 10 => 0x7bb12bae case 11 => 0x0cb61b38
    case 12 => 0x92d28e9b case 13 => 0xe5d5be0d case 14 => 0x7cdcefb7 case _ => 0x0bdbdf21
  }

  function RowD(j: bv8): bv32 {
    match j
    case 0 => 0x86d3d2d4 case 1 => 0xf1d4e242 case 2 => 0x68ddb3f8 case 3 => 0x1fda836e
    case 4 => 0x81be16cd case 5 => 0xf6b9265b case 6 => 0x6fb077e1 case 7 => 0x18b74777
    case 8 => 0x88085ae6 case 9 => 0xff0f6a70 case 10 => 0x66063bca case 11 => 0x11010b5c
    case 12 => 0x8f659eff case 13 => 0xf862ae69 case 14 => 0x616bffd3 case _ => 0x166ccf45
  }

  function RowE(j: bv8): bv32 {
    match j
    case 0 => 0xa00ae278 case 1 => 0xd70dd2ee case 2 => 0x4e048354 case 3 => 0x3903b3c2
    case 4 => 0xa7672661 case 5 => 0xd06016f7 case 6 => 0x4969474d case 7 => 0x3e6e77db
    case 8 => 0xaed16a4a case 9 => 0xd9d65adc case 10 => 0x40df0b66 case 11 => 0x37d83bf0
    case 12 => 0xa9bcae53 case 13 => 0xdebb9ec5 case 14 => 0x47b2cf7f case _ => 0x30b5ffe9
  }

  function RowF(j: bv8): bv32 {
    match j
    case 0 => 0xbdbdf21c case 1 => 0xcabac28a case 2 => 0x53b39330 case 3 => 0x24b4a3a6
    case 4 => 0xbad03605 case 5 => 0xcdd70693 case 6 => 0x54de5729 case 7 => 0x23d967bf
    case 8 => 0xb3667a2e case 9 => 0xc4614ab8 case 10 => 0x5d681b02 case 11 => 0x2a6f2b94
    case 12 => 0xb40bbe37 case 13 => 0xc30c8ea1 case 14 => 0x5a05df1b case _ => 0x2d02ef8d
  }

  function FirstRows(row: bv8, j: bv8): bv32 {
    if row == 0x0 then Row0(j)
    else if row == 0x1 then Row1(j)
    else if row == 0x2 then Row2(j)
    else if row == 0x3 then Row3(j)
    else if row == 0x4 then Row4(j)
    else if row == 0x5 then Row5(j)
    else if row == 0x6 then Row6(j)
    else Row7(j)
  }

  function LastRows(row: bv8, j: bv8): bv32 {
    if row == 0x8 then Row8(j)
    else if row == 0x9 then Row9(j)
    else if row == 0xa then RowA(j)
    else if row == 0xb then RowB(j)
    else if row == 0xc then RowC(j)
    else if row == 0xd then RowD(j)
    else if row == 0xe then RowE(j)
    else RowF(j)
  }

  function Row(row: bv8, j: bv8): bv32 {
    if row < 8 then FirstRows(row, j) else LastRows(row, j)
  }

  /** crc32_table[i] */
  function Entry(i: bv8): bv32 {
    Row(i >> 4, i & 0xf)
  }

  /** crc32_calc */
  method Crc32Calc(bytes: seq<bv8>) returns (crc: bv32)
    ensures crc == Checksum(bytes)
  {
    crc := 0xffffffff;
    for i := 0 to |bytes|
      invariant Register(bytes, 0xffffffff) == Register(bytes[i..], crc)
    {
      var b := bytes[i];
      assert bytes[i..][0] == b && bytes[i..][1..] == bytes[i + 1..];
      TableStep(crc, b);
      crc := TableLookup(crc, b);
    }
    RegisterIsDivision(bytes, 0xffffffff);
    crc := crc ^ 0xffffffff;
  }

  /** The loop body. */
  function TableLookup(crc: bv32, b: bv8): bv32 {
    Xor(Entry(Index(crc, b)), High(crc))
  }

  /** (crc ^ b) & 0xff */
  function Index(crc: bv32, b: bv8): bv8 {
    ((crc ^ (b as bv32)) & 0xff) as bv8
  }

  function High(c: bv32): bv32 { c >> 8 }

  // ---- bit-at-a-time division ----

  function Xor(a: bv32, b: bv32): bv32 { a ^ b }

  predicate Low(w: bv32) { w & 1 == 1 }

  function Half(w: bv32): bv32 { w >> 1 }

  /** Subtracts the polynomial when a bit fell out. */
  function Reduce(fell: bool, h: bv32): bv32 {
    if fell then h ^ 0xEDB88320 else h
  }

  /** Multiplies the register by x. */
  function Shift(c: bv32): bv32 {
    Reduce(Low(c), Half(c))
  }

  /** One step of the division: the next message bit is added to the bit that falls out. */
  function DivideBit(c: bv32, bit: bool): bv32 {
    Reduce(Low(c) != bit, Half(c))
  }

  /** The bits of a byte, least significant first. */
  function ByteBits(b: bv8): seq<bool> {
    Outputs(b as bv32, 8, Low, Half)
  }

  /** The remainder of a bit string, from a preset register. */
  function Divide(bits: seq<bool>, c: bv32): bv32 {
    Fold(bits, c, DivideBit)
  }

  /** The checksum by definition: the remainder of the bit string, with the register preset to
   *  ones and complemented at the end. */
  function Checksum(bytes: seq<bv8>): bv32 {
    Divide(Concat(bytes, ByteBits), 0xffffffff) ^ 0xffffffff
  }

  // ---- the same, a byte at a time ----

  function Eight(x: bv32): bv32 {
    Iterate(Shift, x, 8)
  }

  function ByteStep(c: bv32, b: bv8): bv32 {
    Eight(Xor(c, b as bv32))
  }

  function Register(bytes: seq<bv8>, c: bv32): bv32 {
    Fold(bytes, c, ByteStep)
  }

  function Shift8(c: bv32): bv32 {
    Shift(Shift(Shift(Shift(Shift(Shift(Shift(Shift(c))))))))
  }

  lemma EightShifts(c: bv32)
    ensures Iterate(Shift, c, 8) == Shift8(c)
  {
  }

  // ---- the division is linear ----

  lemma HalfXor(a: bv32, b: bv32)
    ensures Half(Xor(a, b)) == Xor(Half(a), Half(b))
  {
  }

  lemma LowXor(a: bv32, b: bv32)
    ensures Low(Xor(a, b)) <==> (Low(a) != Low(b))
  {
  }

  lemma ReduceBoth(a: bv32, b: bv32)
    ensures Xor(Reduce(true, a), Reduce(true, b)) == Reduce(false, Xor(a, b))
  {
  }

  lemma ReduceLeft(a: bv32, b: bv32)
    ensures Xor(Reduce(true, a), Reduce(false, b)) == Reduce(true, Xor(a, b))
  {
  }

  lemma ReduceRight(a: bv32, b: bv32)
    ensures Xor(Reduce(false, a), Reduce(true, b)) == Reduce(true, Xor(a, b))
  {
  }

  lemma ReduceXor(x: bool, y: bool, a: bv32, b: bv32)
    ensures Xor(Reduce(x, a), Reduce(y, b)) == Reduce(x != y, Xor(a, b))
  {
    if x && y { ReduceBoth(a, b); } else if x { ReduceLeft(a, b); } else if y { ReduceRight(a, b); } else {}
  }

  lemma ReduceOne(x: bool, a: bv32, b: bv32)
    ensures Xor(Reduce(x, a), b) == Reduce(x, Xor(a, b))
  {
  }

  lemma ShiftLinear(a: bv32, b: bv32)
    ensures Shift(Xor(a, b)) == Xor(Shift(a), Shift(b))
  {
    HalfXor(a, b);
    LowXor(a, b);
    ReduceXor(Low(a), Low(b), Half(a), Half(b));
  }

  /** Dividing in the low bit of w now, or xoring all of w in and shifting, comes to the same. */
  lemma DivideOne(c: bv32, w: bv32)
    ensures Xor(DivideBit(c, Low(w)), Half(w)) == Shift(Xor(c, w))
  {
    HalfXor(c, w);
    LowXor(c, w);
    ReduceOne(Low(c) != Low(w), Half(c), Half(w));
  }

  lemma DivideAny()
    ensures forall c, w :: Xor(DivideBit(c, Low(w)), Half(w)) == Shift(Xor(c, w))
  {
    forall c, w ensures Xor(DivideBit(c, Low(w)), Half(w)) == Shift(Xor(c, w)) {
      DivideOne(c, w);
    }
  }

  // ---- bytes against bits ----

  lemma HalfByte(w: bv32)
    requires w < 0x100
    ensures Iterate(Half, w, 8) == 0
  {
  }

  lemma XorZero(c: bv32)
    ensures Xor(c, 0) == c
  {
  }

  lemma ByteFits(b: bv8)
    ensures (b as bv32) < 0x100
  {
  }

  lemma FeedByte(c: bv32, w: bv32)
    ensures Xor(Fold(Outputs(w, 8, Low, Half), c, DivideBit), Iterate(Half, w, 8)) == Iterate(Shift, Xor(c, w), 8)
  {
    DivideAny();
    FeedBits(c, w, 8, Low, Half, DivideBit, Shift, Xor);
  }

  lemma DivideByte(c: bv32, b: bv8)
    ensures Fold(ByteBits(b), c, DivideBit) == ByteStep(c, b)
  {
    FeedByte(c, b as bv32);
    ByteFits(b);
    HalfByte(b as bv32);
    XorZero(Fold(ByteBits(b), c, DivideBit));
  }

  /** Working on bytes is working on their bits. */
  lemma RegisterIsDivision(bytes: seq<bv8>, c: bv32)
    ensures Register(bytes, c) == Divide(Concat(bytes, ByteBits), c)
  {
    forall c, b ensures Fold(ByteBits(b), c, DivideBit) == ByteStep(c, b) {
      DivideByte(c, b);
    }
    FoldPieces(bytes, c, ByteBits, DivideBit, ByteStep);
  }

  // ---- the table against bytes ----

  /** Bits above the lowest byte only move down. */
  lemma HighBitsMoveDown(h: bv32)
    requires h & 0xff == 0
    ensures Shift8(h) == High(h)
  {
  }

  function Upper(x: bv32): bv32 { x & 0xffffff00 }

  lemma SplitLowByte(x: bv32)
    ensures Xor(x & 0xff, Upper(x)) == x
    ensures Upper(x) & 0xff == 0 && High(Upper(x)) == High(x)
  {
  }

  lemma IndexIsLowByte(c: bv32, b: bv8)
    ensures Index(c, b) as bv32 == Xor(c, b as bv32) & 0xff
    ensures High(Xor(c, b as bv32)) == High(c)
  {
  }

  lemma EightLinear(a: bv32, b: bv32)
    ensures Iterate(Shift, Xor(a, b), 8) == Xor(Iterate(Shift, a, 8), Iterate(Shift, b, 8))
  {
    forall a, b ensures Shift(Xor(a, b)) == Xor(Shift(a), Shift(b)) {
      ShiftLinear(a, b);
    }
    IterateLinear(Shift, Xor, a, b, 8);
  }

  // ---- the table against the division ----

  function Pick(on: bool, w: bv32): bv32 {
    if on then w else 0
  }

  function Sum4(a: bv32, b: bv32, c: bv32, d: bv32): bv32 {
    Xor(Xor(a, b), Xor(c, d))
  }

  /** The low and the high four bits of an index, each with the word that stands for it */
  function LowSum(i: bv8, a: bv32, b: bv32, c: bv32, d: bv32): bv32 {
    Sum4(Pick(i & 0x01 != 0, a), Pick(i & 0x02 != 0, b), Pick(i & 0x04 != 0, c), Pick(i & 0x08 != 0, d))
  }

  function HighSum(i: bv8, a: bv32, b: bv32, c: bv32, d: bv32): bv32 {
    Sum4(Pick(i & 0x10 != 0, a), Pick(i & 0x20 != 0, b), Pick(i & 0x40 != 0, c), Pick(i & 0x80 != 0, d))
  }

  lemma IndexIsSum(i: bv8)
    ensures i as bv32 == Xor(LowSum(i, 0x01, 0x02, 0x04, 0x08), HighSum(i, 0x10, 0x20, 0x40, 0x80))
  {
    assert i as bv32 == Widen(i);
    hide Widen, Xor, Pick, Bits4, Sum4;
    Nibbles(i);
    WidenXor(Bits4(i, 0x01, 0x02, 0x04, 0x08), Bits4(i, 0x10, 0x20, 0x40, 0x80));
    Widen4(i, 0x01, 0x02, 0x04, 0x08);
    Widen4(i, 0x10, 0x20, 0x40, 0x80);
    LowPicks(i);
    HighPicks(i);
  }

  function Widen(i: bv8): bv32 { i as bv32 }

  function Bits4(i: bv8, a: bv8, b: bv8, c: bv8, d: bv8): bv8 {
    ((i & a) ^ (i & b)) ^ ((i & c) ^ (i & d))
  }

  lemma WidenXor(a: bv8, b: bv8)
    ensures Widen(a ^ b) == Xor(Widen(a), Widen(b))
  {
  }

  lemma Widen4(i: bv8, a: bv8, b: bv8, c: bv8, d: bv8)
    ensures Widen(Bits4(i, a, b, c, d)) == Sum4(Widen(i & a), Widen(i & b), Widen(i & c), Widen(i & d))
  {
    hide Widen, Xor;
    WidenXor((i & a) ^ (i & b), (i & c) ^ (i & d));
    WidenXor(i & a, i & b);
    WidenXor(i & c, i & d);
  }

  lemma LowPicks(i: bv8)
    ensures Widen(i & 0x01) == Pick(i & 0x01 != 0, 0x01) && Widen(i & 0x02) == Pick(i & 0x02 != 0, 0x02)
    ensures Widen(i & 0x04) == Pick(i & 0x04 != 0, 0x04) && Widen(i & 0x08) == Pick(i & 0x08 != 0, 0x08)
  {
  }

  lemma HighPicks(i: bv8)
    ensures Widen(i & 0x10) == Pick(i & 0x10 != 0, 0x10) && Widen(i & 0x20) == Pick(i & 0x20 != 0, 0x20)
    ensures Widen(i & 0x40) == Pick(i & 0x40 != 0, 0x40) && Widen(i & 0x80) == Pick(i & 0x80 != 0, 0x80)
  {
  }

  lemma Nibbles(i: bv8)
    ensures i == Bits4(i, 0x01, 0x02, 0x04, 0x08) ^ Bits4(i, 0x10, 0x20, 0x40, 0x80)
  {
  }

  /** The entries of the powers of two. */
  lemma LowPowers()
    ensures Shift8(0) == 0 && Shift8(0x01) == 0x77073096 && Shift8(0x02) == 0xee0e612c
    ensures Shift8(0x04) == 0x076dc419 && Shift8(0x08) == 0x0edb8832
  {
  }

  lemma HighPowers()
    ensures Shift8(0x10) == 0x1db71064 && Shift8(0x20) == 0x3b6e20c8
    ensures Shift8(0x40) == 0x76dc4190 && Shift8(0x80) == 0xedb88320
  {
  }

  lemma Shift8Linear(a: bv32, b: bv32)
    ensures Shift8(Xor(a, b)) == Xor(Shift8(a), Shift8(b))
  {
    hide Shift, Xor;
    EightShifts(a);
    EightShifts(b);
    EightShifts(Xor(a, b));
    EightLinear(a, b);
  }

  lemma Shift8Sum4(a: bv32, b: bv32, c: bv32, d: bv32)
    ensures Shift8(Sum4(a, b, c, d)) == Sum4(Shift8(a), Shift8(b), Shift8(c), Shift8(d))
  {
    hide Shift8, Xor;
    Shift8Linear(Xor(a, b), Xor(c, d));
    Shift8Linear(a, b);
    Shift8Linear(c, d);
  }

  lemma IndexShifted(i: bv8)
    ensures Shift8(i as bv32) ==
      Xor(LowSum(i, 0x77073096, 0xee0e612c, 0x076dc419, 0x0edb8832),
          HighSum(i, 0x1db71064, 0x3b6e20c8, 0x76dc4190, 0xedb88320))
  {
    hide Shift8, Xor, Sum4;
    IndexIsSum(i);
    Shift8Linear(LowSum(i, 0x01, 0x02, 0x04, 0x08), HighSum(i, 0x10, 0x20, 0x40, 0x80));
    Shift8Sum4(Pick(i & 0x01 != 0, 0x01), Pick(i & 0x02 != 0, 0x02),
               Pick(i & 0x04 != 0, 0x04), Pick(i & 0x08 != 0, 0x08));
    Shift8Sum4(Pick(i & 0x10 != 0, 0x10), Pick(i & 0x20 != 0, 0x20),
               Pick(i & 0x40 != 0, 0x40), Pick(i & 0x80 != 0, 0x80));
    LowPowers();
    HighPowers();
  }

  lemma FirstRow(j: bv8)
    requires j < 16
    ensures Row0(j) == LowSum(j, 0x77073096, 0xee0e612c, 0x076dc419, 0x0edb8832)
  {
  }

  lemma CheckRow0(j: bv8)
    ensures Row0(j) == Xor(Row0(0), Row0(j))
  {
  }

  lemma CheckRow1(j: bv8)
    requires j < 16
    ensures Row1(j) == Xor(Row1(0), Row0(j))
  {
  }

  lemma CheckRow2(j: bv8)
    requires j < 16
    ensures Row2(j) == Xor(Row2(0), Row0(j))
  {
  }

  lemma CheckRow3(j: bv8)
    requires j < 16
    ensures Row3(j) == Xor(Row3(0), Row0(j))
  {
  }

  lemma CheckRow4(j: bv8)
    requires j < 16
    ensures Row4(j) == Xor(Row4(0), Row0(j))
  {
  }

  lemma CheckRow5(j: bv8)
    requires j < 16
    ensures Row5(j) == Xor(Row5(0), Row0(j))
  {
  }

  lemma CheckRow6(j: bv8)
    requires j < 16
    ensures Row6(j) == Xor(Row6(0), Row0(j))
  {
  }

  lemma CheckRow7(j: bv8)
    requires j < 16
    ensures Row7(j) == Xor(Row7(0), Row0(j))
  {
  }

  lemma CheckRow8(j: bv8)
    requires j < 16
    ensures Row8(j) == Xor(Row8(0), Row0(j))
  {
  }

  lemma CheckRow9(j: bv8)
    requires j < 16
    ensures Row9(j) == Xor(Row9(0), Row0(j))
  {
  }

  lemma CheckRowA(j: bv8)
    requires j < 16
    ensures RowA(j) == Xor(RowA(0), Row0(j))
  {
  }

  lemma CheckRowB(j: bv8)
    requires j < 16
    ensures RowB(j) == Xor(RowB(0), Row0(j))
  {
  }

  lemma CheckRowC(j: bv8)
    requires j < 16
    ensures RowC(j) == Xor(RowC(0), Row0(j))
  {
  }

  lemma CheckRowD(j: bv8)
    requires j < 16
    ensures RowD(j) == Xor(RowD(0), Row0(j))
  {
  }

  lemma CheckRowE(j: bv8)
    requires j < 16
    ensures RowE(j) == Xor(RowE(0), Row0(j))
  {
  }

  lemma CheckRowF(j: bv8)
    requires j < 16
    ensures RowF(j) == Xor(RowF(0), Row0(j))
  {
  }

  lemma FirstRowsInOrder(j: bv8)
    ensures Row(0x0, j) == Row0(j) && Row(0x1, j) == Row1(j) && Row(0x2, j) == Row2(j) && Row(0x3, j) == Row3(j)
    ensures Row(0x4, j) == Row4(j) && Row(0x5, j) == Row5(j) && Row(0x6, j) == Row6(j) && Row(0x7, j) == Row7(j)
  {
    hide Row0, Row1, Row2, Row3, Row4, Row5, Row6, Row7, Row8, Row9, RowA, RowB, RowC, RowD, RowE, RowF;
  }

  lemma LastRowsInOrder(j: bv8)
    ensures Row(0x8, j) == Row8(j) && Row(0x9, j) == Row9(j) && Row(0xa, j) == RowA(j) && Row(0xb, j) == RowB(j)
    ensures Row(0xc, j) == RowC(j) && Row(0xd, j) == RowD(j) && Row(0xe, j) == RowE(j) && Row(0xf, j) == RowF(j)
  {
    hide Row0, Row1, Row2, Row3, Row4, Row5, Row6, Row7, Row8, Row9, RowA, RowB, RowC, RowD, RowE, RowF;
  }

  /** The rows differ by their first entries only. */
  lemma RowByHead(row: bv8, j: bv8)
    requires row < 16 && j < 16
    ensures Row(row, j) == Xor(Row(row, 0), Row0(j))
  {
    hide Row, Xor;
    hide Row0, Row1, Row2, Row3, Row4, Row5, Row6, Row7, Row8, Row9, RowA, RowB, RowC, RowD, RowE, RowF;
    FirstRowsInOrder(0);
    FirstRowsInOrder(j);
    LastRowsInOrder(0);
    LastRowsInOrder(j);
    if row == 0x0 { CheckRow0(j); }
    else if row == 0x1 { CheckRow1(j); }
    else if row == 0x2 { CheckRow2(j); }
    else if row == 0x3 { CheckRow3(j); }
    else if row == 0x4 { CheckRow4(j); }
    else if row == 0x5 { CheckRow5(j); }
    else if row == 0x6 { CheckRow6(j); }
    else if row == 0x7 { CheckRow7(j); }
    else if row == 0x8 { CheckRow8(j); }
    else if row == 0x9 { CheckRow9(j); }
    else if row == 0xa { CheckRowA(j); }
    else if row == 0xb { CheckRowB(j); }
    else if row == 0xc { CheckRowC(j); }
    else if row == 0xd { CheckRowD(j); }
    else if row == 0xe { CheckRowE(j); }
    else if row == 0xf { CheckRowF(j); }
  }

  lemma HeadIsSum(i: bv8)
    ensures Row(i >> 4, 0) == HighSum(i, 0x1db71064, 0x3b6e20c8, 0x76dc4190, 0xedb88320)
  {
  }

  lemma LowNibble(i: bv8)
    ensures i >> 4 < 16 && i & 0xf < 16
    ensures LowSum(i & 0xf, 0x77073096, 0xee0e612c, 0x076dc419, 0x0edb8832)
            == LowSum(i, 0x77073096, 0xee0e612c, 0x076dc419, 0x0edb8832)
  {
  }

  /** Every entry of the table is eight division steps of its index. */
  lemma EntryIsShift8(i: bv8)
    ensures Entry(i) == Shift8(i as bv32)
  {
    hide Row, Shift8, Row0, LowSum, HighSum, Xor;
    LowNibble(i);
    IndexShifted(i);
    RowByHead(i >> 4, i & 0xf);
    HeadIsSum(i);
    FirstRow(i & 0xf);
    XorSwaps(Row(i >> 4, 0), Row0(i & 0xf));
  }

  lemma XorSwaps(a: bv32, b: bv32)
    ensures Xor(a, b) == Xor(b, a)
  {
  }

  lemma EightShiftsOfEntry(i: bv8)
    ensures Iterate(Shift, i as bv32, 8) == Entry(i)
  {
    EntryIsShift8(i);
    EightShifts(i as bv32);
  }

  lemma EightShiftsOfUpper(x: bv32)
    ensures Iterate(Shift, Upper(x), 8) == High(x)
  {
    SplitLowByte(x);
    HighBitsMoveDown(Upper(x));
    EightShifts(Upper(x));
  }

  /** The loop body is eight division steps with the byte xored in. */
  lemma TableStep(c: bv32, b: bv8)
    ensures TableLookup(c, b) == ByteStep(c, b)
  {
    var x, i := Xor(c, b as bv32), Index(c, b);
    IndexIsLowByte(c, b);
    SplitLowByte(x);
    EightLinear(i as bv32, Upper(x));
    EightShiftsOfEntry(i);
    EightShiftsOfUpper(x);
  }

  // ---- burst errors ----

  lemma ShiftInjective(a: bv32, b: bv32)
    requires Shift(a) == Shift(b)
    ensures a == b
  {
  }

  lemma XorCancels(a: bv32, b: bv32, x: bv32)
    requires Xor(a, x) == Xor(b, x)
    ensures a == b
  {
  }

  lemma EightInjective(a: bv32, b: bv32)
    requires Eight(a) == Eight(b)
    ensures a == b
  {
    forall a, b | Shift(a) == Shift(b) ensures a == b {
      ShiftInjective(a, b);
    }
    IterateInjective(Shift, a, b, 8);
  }

  /** Equal bytes do not make different registers equal. */
  lemma ByteStepInjective(c: bv32, d: bv32, b: bv8)
    requires ByteStep(c, b) == ByteStep(d, b)
    ensures c == d
  {
    EightInjective(Xor(c, b as bv32), Xor(d, b as bv32));
    XorCancels(c, d, b as bv32);
  }

  /** A byte shifted up by 8k bits. */
  function At(b: bv8, k: int): bv32 {
    if k == 0 then b as bv32 else if k == 1 then (b as bv32) << 8
    else if k == 2 then (b as bv32) << 16 else (b as bv32) << 24
  }

  lemma AtIsHigh(b: bv8, k: int)
    requires 0 < k < 4
    ensures At(b, k) & 0xff == 0 && High(At(b, k)) == At(b, k - 1)
  {
    if k == 1 {} else if k == 2 {} else {}
  }

  /** Xoring a byte in after eight shifts is xoring it in, one place higher, before them. */
  lemma XorAhead(c: bv32, b: bv8, k: int)
    requires 0 < k < 4
    ensures Xor(Eight(c), At(b, k - 1)) == Eight(Xor(c, At(b, k)))
  {
    EightLinear(c, At(b, k));
    AtIsHigh(b, k);
    HighBitsMoveDown(At(b, k));
    EightShifts(At(b, k));
  }

  /** The k-th byte of a word, lowest first. */
  function Byte(x: bv32, k: int): bv8 {
    if k == 0 then (x & 0xff) as bv8 else if k == 1 then ((x >> 8) & 0xff) as bv8
    else if k == 2 then ((x >> 16) & 0xff) as bv8 else ((x >> 24) & 0xff) as bv8
  }

  lemma ByteOfXor(a: bv32, b: bv32, k: int)
    ensures Byte(Xor(a, b), k) == Plus(Byte(a, k), Byte(b, k))
  {
    if k == 0 {} else if k == 1 {} else if k == 2 {} else {}
  }

  lemma ByteOfAt(b: bv8, j: int, k: int)
    requires 0 <= j < 4 && 0 <= k < 4
    ensures Byte(At(b, j), k) == if j == k then b else 0
  {
    if j == 0 {} else if j == 1 {} else if j == 2 {} else {}
  }

  function Plus(a: bv8, b: bv8): bv8 { a ^ b }

  lemma PlusLaws()
    ensures forall a :: Plus(a, 0) == a
    ensures forall c, a, b :: Plus(c, a) == Plus(c, b) ==> a == b
  {
  }

  lemma ByteLaws()
    ensures forall a, b, k | 0 <= k < 4 :: Byte(Xor(a, b), k) == Plus(Byte(a, k), Byte(b, k))
    ensures forall b, j, k | 0 <= j < 4 && 0 <= k < 4 :: Byte(At(b, j), k) == if j == k then b else 0
  {
    forall a, b, k | 0 <= k < 4 ensures Byte(Xor(a, b), k) == Plus(Byte(a, k), Byte(b, k)) {
      ByteOfXor(a, b, k);
    }
    forall b, j, k | 0 <= j < 4 && 0 <= k < 4 ensures Byte(At(b, j), k) == if j == k then b else 0 {
      ByteOfAt(b, j, k);
    }
  }

  lemma ByteStepIsMove()
    ensures forall c, b :: ByteStep(c, b) == Eight(Xor(c, At(b, 0)))
    ensures forall c, b, k: int, j: int ::
      0 < k < 4 && j == k - 1 ==> Xor(Eight(c), At(b, j)) == Eight(Xor(c, At(b, k)))
  {
    forall c, b, k: int, j: int | 0 < k < 4 && j == k - 1 ensures Xor(Eight(c), At(b, j)) == Eight(Xor(c, At(b, k))) {
      XorAhead(c, b, k);
    }
  }

  /** From one register, different four-byte windows lead to different registers. */
  lemma WindowsDiffer(c: bv32, w: seq<bv8>, v: seq<bv8>)
    requires |w| == |v| == 4 && Fold(w, c, ByteStep) == Fold(v, c, ByteStep)
    ensures w == v
  {
    ByteStepIsMove();
    FourSteps(c, w, ByteStep, Eight, Xor, At);
    FourSteps(c, v, ByteStep, Eight, Xor, At);
    FourMovesInjective(WithWord(c, w, Xor, At), WithWord(c, v, Xor, At));
    ByteLaws();
    PlusLaws();
    WordInjective(c, w, v, Xor, At, Byte, Plus, 0);
  }

  lemma FourMovesInjective(x: bv32, y: bv32)
    requires Eight(Eight(Eight(Eight(x)))) == Eight(Eight(Eight(Eight(y))))
    ensures x == y
  {
    EightInjective(Eight(Eight(Eight(x))), Eight(Eight(Eight(y))));
    EightInjective(Eight(Eight(x)), Eight(Eight(y)));
    EightInjective(Eight(x), Eight(y));
    EightInjective(x, y);
  }

  lemma RegisterNoticesWindows()
    ensures Injective(ByteStep) && WindowInjective(ByteStep)
  {
    forall c, d, b | ByteStep(c, b) == ByteStep(d, b) ensures c == d {
      ByteStepInjective(c, d, b);
    }
    forall c, w, v | |w| == |v| == 4 && Fold(w, c, ByteStep) == Fold(v, c, ByteStep) ensures w == v {
      WindowsDiffer(c, w, v);
    }
  }

  /** Two equal-length byte strings that differ only within four consecutive bytes have different
   *  checksums. */
  lemma BurstDetected(a: seq<bv8>, b: seq<bv8>, i: nat)
    requires DifferInWindow(a, b, i) && a != b
    ensures Checksum(a) != Checksum(b)
  {
    if Checksum(a) == Checksum(b) {
      EqualRegisters(a, b);
      RegisterNoticesWindows();
      WindowDetected(a, b, i, 0xffffffff, ByteStep, 0);
    }
  }

  lemma EqualRegisters(a: seq<bv8>, b: seq<bv8>)
    requires Checksum(a) == Checksum(b)
    ensures Fold(a, 0xffffffff, ByteStep) == Fold(b, 0xffffffff, ByteStep)
  {
    RegisterIsDivision(a, 0xffffffff);
    RegisterIsDivision(b, 0xffffffff);
    XorCancels(Register(a, 0xffffffff), Register(b, 0xffffffff), 0xffffffff);
  }
}
