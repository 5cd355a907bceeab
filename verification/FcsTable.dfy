/** The frame check table of common/rtmp_wep.c, entry by entry, against the bitwise CRC-32 of the
    reflected polynomial 0xEDB88320. */
module FcsTable {
  // The entry of a row of 16 selected by the low half of the index.

  function PickWord(x: bv8, v0: bv32, v1: bv32, v2: bv32, v3: bv32, v4: bv32, v5: bv32, v6: bv32, v7: bv32,
                    v8: bv32, v9: bv32, va: bv32, vb: bv32, vc: bv32, vd: bv32, ve: bv32, vf: bv32): bv32
  {
    var lo := x & 0x0f;
    if lo < 8 then
      if lo < 4 then (if lo < 2 then (if lo < 1 then v0 else v1) else if lo < 3 then v2 else v3)
      else if lo < 6 then (if lo < 5 then v4 else v5)
      else if lo < 7 then v6 else v7
    else
      if lo < 12 then (if lo < 10 then (if lo < 9 then v8 else v9) else if lo < 11 then va else vb)
      else if lo < 14 then (if lo < 13 then vc else vd)
      else if lo < 15 then ve else vf
  }

  /** FCSTAB_32 */
  function FcsTab(x: bv8): bv32 {
    match x >> 4
    case 0 => PickWord(x,
      0x00000000, 0x77073096, 0xee0e612c, 0x990951ba, 0x076dc419, 0x706af48f, 0xe963a535, 0x9e6495a3,
      0x0edb8832, 0x79dcb8a4, 0xe0d5e91e, 0x97d2d988, 0x09b64c2b, 0x7eb17cbd, 0xe7b82d07, 0x90bf1d91)
    case 1 => PickWord(x,
      0x1db71064, 0x6ab020f2, 0xf3b97148, 0x84be41de, 0x1adad47d, 0x6ddde4eb, 0xf4d4b551, 0x83d385c7,
      0x136c9856, 0x646ba8c0, 0xfd62f97a, 0x8a65c9ec, 0x14015c4f, 0x63066cd9, 0xfa0f3d63, 0x8d080df5)
    case 2 => PickWord(x,
      0x3b6e20c8, 0x4c69105e, 0xd56041e4, 0xa2677172, 0x3c03e4d1, 0x4b04d447, 0xd20d85fd, 0xa50ab56b,
      0x35b5a8fa, 0x42b2986c, 0xdbbbc9d6, 0xacbcf940, 0x32d86ce3, 0x45df5c75, 0xdcd60dcf, 0xabd13d59)
    case 3 => PickWord(x,
      0x26d930ac, 0x51de003a, 0xc8d75180, 0xbfd06116, 0x21b4f4b5, 0x56b3c423, 0xcfba9599, 0xb8bda50f,
      0x2802b89e, 0x5f058808, 0xc60cd9b2, 0xb10be924, 0x2f6f7c87, 0x58684c11, 0xc1611dab, 0xb6662d3d)
    case 4 => PickWord(x,
      0x76dc4190, 0x01db7106, 0x98d220bc, 0xefd5102a, 0x71b18589, 0x06b6b51f, 0x9fbfe4a5, 0xe8b8d433,
      0x7807c9a2, 0x0f00f934, 0x9609a88e, 0xe10e9818, 0x7f6a0dbb, 0x086d3d2d, 0x91646c97, 0xe6635c01)
    case 5 => PickWord(x,
      0x6b6b51f4, 0x1c6c6162, 0x856530d8, 0xf262004e, 0x6c0695ed, 0x1b01a57b, 0x8208f4c1, 0xf50fc457,
      0x65b0d9c6, 0x12b7e950, 0x8bbeb8ea, 0xfcb9887c, 0x62dd1ddf, 0x15da2d49, 0x8cd37cf3, 0xfbd44c65)
    case 6 => PickWord(x,
      0x4db26158, 0x3ab551ce, 0xa3bc0074, 0xd4bb30e2, 0x4adfa541, 0x3dd895d7, 0xa4d1c46d, 0xd3d6f4fb,
      0x4369e96a, 0x346ed9fc, 0xad678846, 0xda60b8d0, 0x44042d73, 0x33031de5, 0xaa0a4c5f, 0xdd0d7cc9)
    case 7 => PickWord(x,
      0x5005713c, 0x270241aa, 0xbe0b1010, 0xc90c2086, 0x5768b525, 0x206f85b3, 0xb966d409, 0xce61e49f,
      0x5edef90e, 0x29d9c998, 0xb0d09822, 0xc7d7a8b4, 0x59b33d17, 0x2eb40d81, 0xb7bd5c3b, 0xc0ba6cad)
    case 8 => PickWord(x,
      0xedb88320, 0x9abfb3b6, 0x03b6e20c, 0x74b1d29a, 0xead54739, 0x9dd277af, 0x04db2615, 0x73dc1683,
      0xe3630b12, 0x94643b84, 0x0d6d6a3e, 0x7a6a5aa8, 0xe40ecf0b, 0x9309ff9d, 0x0a00ae27, 0x7d079eb1)
    case 9 => PickWord(x,
      0xf00f9344, 0x8708a3d2, 0x1e01f268, 0x6906c2fe, 0xf762575d, 0x806567cb, 0x196c3671, 0x6e6b06e7,
      0xfed41b76, 0x89d32be0, 0x10da7a5a, 0x67dd4acc, 0xf9b9df6f, 0x8ebeeff9, 0x17b7be43, 0x60b08ed5)
    case 10 => PickWord(x,
      0xd6d6a3e8, 0xa1d1937e, 0x38d8c2c4, 0x4fdff252, 0xd1bb67f1, 0xa6bc5767, 0x3fb506dd, 0x48b2364b,
      0xd80d2bda, 0xaf0a1b4c, 0x36034af6, 0x41047a60, 0xdf60efc3, 0xa867df55, 0x316e8eef, 0x4669be79)
    case 11 => PickWord(x,
      0xcb61b38c, 0xbc66831a, 0x256fd2a0, 0x5268e236, 0xcc0c7795, 0xbb0b4703, 0x220216b9, 0x5505262f,
      0xc5ba3bbe, 0xb2bd0b28, 0x2bb45a92, 0x5cb36a04, 0xc2d7ffa7, 0xb5d0cf31, 0x2cd99e8b, 0x5bdeae1d)
    case 12 => PickWord(x,
      0x9b64c2b0, 0xec63f226, 0x756aa39c, 0x026d930a, 0x9c0906a9, 0xeb0e363f, 0x72076785, 0x05005713,
      0x95bf4a82, 0xe2b87a14, 0x7bb12bae, 0x0cb61b38, 0x92d28e9b, 0xe5d5be0d, 0x7cdcefb7, 0x0bdbdf21)
    case 13 => PickWord(x,
      0x86d3d2d4, 0xf1d4e242, 0x68ddb3f8, 0x1fda836e, 0x81be16cd, 0xf6b9265b, 0x6fb077e1, 0x18b74777,
      0x88085ae6, 0xff0f6a70, 0x66063bca, 0x11010b5c, 0x8f659eff, 0xf862ae69, 0x616bffd3, 0x166ccf45)
    case 14 => PickWord(x,
      0xa00ae278, 0xd70dd2ee, 0x4e048354, 0x3903b3c2, 0xa7672661, 0xd06016f7, 0x4969474d, 0x3e6e77db,
      0xaed16a4a, 0xd9d65adc, 0x40df0b66, 0x37d83bf0, 0xa9bcae53, 0xdebb9ec5, 0x47b2cf7f, 0x30b5ffe9)
    case _ => PickWord(x,
      0xbdbdf21c, 0xcabac28a, 0x53b39330, 0x24b4a3a6, 0xbad03605, 0xcdd70693, 0x54de5729, 0x23d967bf,
      0xb3667a2e, 0xc4614ab8, 0x5d681b02, 0x2a6f2b94, 0xb40bbe37, 0xc30c8ea1, 0x5a05df1b, 0x2d02ef8d)
  }

  /** One bit of the reflected CRC. */
  function BitStep(s: bv32): bv32 { XorWord(Half(s), Feedback(s)) }

  function XorWord(a: bv32, b: bv32): bv32 { a ^ b }

  function Half(s: bv32): bv32 { s >> 1 }

  function Feedback(s: bv32): bv32 { if s & 1 == 1 then 0xedb8_8320 else 0 }

  /** Eight bits of it. */
  function ByteStep(s: bv32): bv32 {
    BitStep(BitStep(BitStep(BitStep(BitStep(BitStep(BitStep(BitStep(s))))))))
  }

  predicate EntryOk(x: bv8) { FcsTab(x) == ByteStep(x as bv32) }

  lemma Row0(lo: bv4) ensures EntryOk(0x00 | (lo as bv8)) {}

  lemma Row1(lo: bv4) ensures EntryOk(0x10 | (lo as bv8)) {}

  lemma Row2(lo: bv4) ensures EntryOk(0x20 | (lo as bv8)) {}

  lemma Row3(lo: bv4) ensures EntryOk(0x30 | (lo as bv8)) {}

  lemma Row4(lo: bv4) ensures EntryOk(0x40 | (lo as bv8)) {}

  lemma Row5(lo: bv4) ensures EntryOk(0x50 | (lo as bv8)) {}

  lemma Row6(lo: bv4) ensures EntryOk(0x60 | (lo as bv8)) {}

  lemma Row7(lo: bv4) ensures EntryOk(0x70 | (lo as bv8)) {}

  lemma Row8(lo: bv4) ensures EntryOk(0x80 | (lo as bv8)) {}

  lemma Row9(lo: bv4) ensures EntryOk(0x90 | (lo as bv8)) {}

  lemma RowA(lo: bv4) ensures EntryOk(0xa0 | (lo as bv8)) {}

  lemma RowB(lo: bv4) ensures EntryOk(0xb0 | (lo as bv8)) {}

  lemma RowC(lo: bv4) ensures EntryOk(0xc0 | (lo as bv8)) {}

  lemma RowD(lo: bv4) ensures EntryOk(0xd0 | (lo as bv8)) {}

  lemma RowE(lo: bv4) ensures EntryOk(0xe0 | (lo as bv8)) {}

  lemma RowF(lo: bv4) ensures EntryOk(0xf0 | (lo as bv8)) {}

  lemma Halves(x: bv8)
    ensures x == ((x >> 4) << 4) | (((x & 0x0f) as bv4) as bv8)
  {
  }

  /** Every entry of the table is eight bit steps of its index. */
  lemma TableOk(x: bv8)
    ensures EntryOk(x)
  {
    hide EntryOk;
    Halves(x);
    var lo := (x & 0x0f) as bv4;
    match x >> 4
    case 0 => Row0(lo);
    case 1 => Row1(lo);
    case 2 => Row2(lo);
    case 3 => Row3(lo);
    case 4 => Row4(lo);
    case 5 => Row5(lo);
    case 6 => Row6(lo);
    case 7 => Row7(lo);
    case 8 => Row8(lo);
    case 9 => Row9(lo);
    case 10 => RowA(lo);
    case 11 => RowB(lo);
    case 12 => RowC(lo);
    case 13 => RowD(lo);
    case 14 => RowE(lo);
    case _ => RowF(lo);
  }

  // Both steps are linear.

  lemma HalfXor(a: bv32, b: bv32)
    ensures Half(XorWord(a, b)) == XorWord(Half(a), Half(b))
  {
  }

  lemma LowXor(a: bv32, b: bv32)
    ensures (a ^ b) & 1 == (a & 1) ^ (b & 1)
    ensures (a & 1 == 0 || a & 1 == 1) && (b & 1 == 0 || b & 1 == 1)
  {
  }

  lemma FeedbackXor(a: bv32, b: bv32)
    ensures Feedback(XorWord(a, b)) == XorWord(Feedback(a), Feedback(b))
  {
    LowXor(a, b);
  }

  lemma Regroup(a: bv32, b: bv32, c: bv32, d: bv32)
    ensures XorWord(XorWord(a, b), XorWord(c, d)) == XorWord(XorWord(a, c), XorWord(b, d))
  {
    hide XorWord;
    var x := XorWord(c, d);
    WordAssoc(a, b, x);
    WordAssoc(b, c, d);
    WordComm(b, c);
    WordAssoc(c, b, d);
    WordAssoc(a, c, XorWord(b, d));
  }

  lemma WordComm(a: bv32, b: bv32)
    ensures XorWord(a, b) == XorWord(b, a)
  {
  }

  lemma WordAssoc(a: bv32, b: bv32, c: bv32)
    ensures XorWord(XorWord(a, b), c) == XorWord(a, XorWord(b, c))
  {
  }

  lemma BitXor(a: bv32, b: bv32)
    ensures BitStep(XorWord(a, b)) == XorWord(BitStep(a), BitStep(b))
  {
    hide XorWord, Half, Feedback;
    HalfXor(a, b);
    FeedbackXor(a, b);
    Regroup(Half(a), Half(b), Feedback(a), Feedback(b));
  }

  lemma ByteXor(a: bv32, b: bv32)
    ensures ByteStep(XorWord(a, b)) == XorWord(ByteStep(a), ByteStep(b))
  {
    hide XorWord, BitStep;
    var a1, b1 := BitStep(a), BitStep(b);
    BitXor(a, b);
    var a2, b2 := BitStep(a1), BitStep(b1);
    BitXor(a1, b1);
    var a3, b3 := BitStep(a2), BitStep(b2);
    BitXor(a2, b2);
    var a4, b4 := BitStep(a3), BitStep(b3);
    BitXor(a3, b3);
    var a5, b5 := BitStep(a4), BitStep(b4);
    BitXor(a4, b4);
    var a6, b6 := BitStep(a5), BitStep(b5);
    BitXor(a5, b5);
    var a7, b7 := BitStep(a6), BitStep(b6);
    BitXor(a6, b6);
    BitXor(a7, b7);
  }

  lemma ShiftOut(h: bv32)
    requires h & 0xff == 0
    ensures ByteStep(h) == h >> 8
  {
  }

  lemma SplitByte(f: bv32, c: bv8)
    ensures XorWord(f, c as bv32) == XorWord(f & 0xffff_ff00, (((f ^ (c as bv32)) & 0xff) as bv8) as bv32)
    ensures (f & 0xffff_ff00) & 0xff == 0 && (f & 0xffff_ff00) >> 8 == f >> 8
  {
  }

  /** One iteration of RTMP_CALC_FCS32. */
  function TableStep(f: bv32, c: bv8): bv32 { XorWord(f >> 8, FcsTab(((f ^ (c as bv32)) & 0xff) as bv8)) }

  /** The table step is eight bit steps of the register with the byte xored in. */
  lemma TableStepIs(f: bv32, c: bv8)
    ensures TableStep(f, c) == ByteStep(XorWord(f, c as bv32))
  {
    hide XorWord, ByteStep, FcsTab;
    var x := ((f ^ (c as bv32)) & 0xff) as bv8;
    var h := f & 0xffff_ff00;
    TableOk(x);
    SplitByte(f, c);
    ByteXor(h, x as bv32);
    ShiftOut(h);
  }

  /** RTMP_CALC_FCS32 */
  method CalcFcs32(fcs: bv32, cp: seq<bv8>) returns (f: bv32)
    ensures f == Crc32(fcs, cp)
  {
    hide ByteStep, TableStep, XorWord;
    f := fcs;
    for i := 0 to |cp|
      invariant f == Crc32(fcs, cp[..i])
    {
      TableStepIs(f, cp[i]);
      assert cp[..i + 1][..i] == cp[..i];
      f := TableStep(f, cp[i]);
    }
    assert cp[..|cp|] == cp;
  }

  /** The bitwise CRC of a run of bytes. */
  function Crc32(f: bv32, b: seq<bv8>): bv32 {
    if b == [] then f else ByteStep(XorWord(Crc32(f, b[..|b| - 1]), b[|b| - 1] as bv32))
  }

  lemma {:induction false} CrcAppend(f: bv32, a: seq<bv8>, b: seq<bv8>)
    ensures Crc32(f, a + b) == Crc32(Crc32(f, a), b)
    decreases |b|
  {
    hide ByteStep, XorWord;
    if b == [] {
      assert a + b == a;
    } else {
      CrcAppend(f, a, b[..|b| - 1]);
      assert (a + b)[..|a + b| - 1] == a + b[..|b| - 1];
    }
  }
}
