/** The T-table implementation of common/md5.c, on 32-bit words. */
module AesTtable {
  import opened AesTables
  import opened Aes
  import AesBytewise

  // ------------------------------------------------------------- words

  // (uint8)(w >> 24), (uint8)(w >> 16), (uint8)(w >> 8) and (uint8)(w)

  function Byte0(w: bv32): bv8 { (w >> 24) as bv8 }

  function Byte1(w: bv32): bv8 { ((w >> 16) & 0xff) as bv8 }

  function Byte2(w: bv32): bv8 { ((w >> 8) & 0xff) as bv8 }

  function Byte3(w: bv32): bv8 { (w & 0xff) as bv8 }

  function Pack(a: bv8, b: bv8, c: bv8, d: bv8): bv32 {
    ((a as bv32) << 24) | ((b as bv32) << 16) | ((c as bv32) << 8) | (d as bv32)
  }

  /** GET_UINT32 of the column's four bytes. */
  function Word(c: Col): bv32 { Pack(c.r0, c.r1, c.r2, c.r3) }

  /** PUT_UINT32, as a column. */
  function Split(w: bv32): Col { Col(Byte0(w), Byte1(w), Byte2(w), Byte3(w)) }

  function XorW(a: bv32, b: bv32): bv32 { a ^ b }

  lemma PackBytes(a: bv8, b: bv8, c: bv8, d: bv8)
    ensures Byte0(Pack(a, b, c, d)) == a && Byte1(Pack(a, b, c, d)) == b
    ensures Byte2(Pack(a, b, c, d)) == c && Byte3(Pack(a, b, c, d)) == d
  {
  }

  lemma SplitWord(c: Col)
    ensures Split(Word(c)) == c
  {
    hide Byte0, Byte1, Byte2, Byte3, Pack;
    PackBytes(c.r0, c.r1, c.r2, c.r3);
  }

  lemma XorByte0(a: bv32, b: bv32)
    ensures Byte0(XorW(a, b)) == Xor(Byte0(a), Byte0(b))
  {
  }

  lemma XorByte1(a: bv32, b: bv32)
    ensures Byte1(XorW(a, b)) == Xor(Byte1(a), Byte1(b))
  {
  }

  lemma XorByte2(a: bv32, b: bv32)
    ensures Byte2(XorW(a, b)) == Xor(Byte2(a), Byte2(b))
  {
  }

  lemma XorByte3(a: bv32, b: bv32)
    ensures Byte3(XorW(a, b)) == Xor(Byte3(a), Byte3(b))
  {
  }

  lemma SplitXor(a: bv32, b: bv32)
    ensures Split(XorW(a, b)) == XorCol(Split(a), Split(b))
  {
    hide Byte0, Byte1, Byte2, Byte3, XorW, Xor;
    XorByte0(a, b);
    XorByte1(a, b);
    XorByte2(a, b);
    XorByte3(a, b);
  }

  // FT0..FT3: the V macro permutes the four bytes of an entry.

  function FT0(x: bv8): bv32 { var q := FT(x); Word(Col(q.a, q.b, q.c, q.d)) }

  function FT1(x: bv8): bv32 { var q := FT(x); Word(Col(q.d, q.a, q.b, q.c)) }

  function FT2(x: bv8): bv32 { var q := FT(x); Word(Col(q.c, q.d, q.a, q.b)) }

  function FT3(x: bv8): bv32 { var q := FT(x); Word(Col(q.b, q.c, q.d, q.a)) }

  // ------------------------------------------------------------- one word of a round

  /** The four columns a T-table word can be. */
  function Spread(s: bv8): Col { Col(Xtime(s), s, s, Times3(s)) }

  lemma TableColumn(x: bv8)
    ensures var c := Spread(SboxTable(x));
            Split(FT0(x)) == c && Split(FT1(x)) == Col(c.r3, c.r0, c.r1, c.r2) &&
            Split(FT2(x)) == Col(c.r2, c.r3, c.r0, c.r1) && Split(FT3(x)) == Col(c.r1, c.r2, c.r3, c.r0)
  {
    hide FT, SboxTable, Split, Word, Xtime;
    TablesOk(x);
    var q := FT(x);
    SplitWord(Col(q.a, q.b, q.c, q.d));
    SplitWord(Col(q.d, q.a, q.b, q.c));
    SplitWord(Col(q.c, q.d, q.a, q.b));
    SplitWord(Col(q.b, q.c, q.d, q.a));
  }

  lemma KeyLast(k: bv8, a: bv8, b: bv8, c: bv8, d: bv8)
    ensures Xor(Xor(Xor(Xor(k, a), b), c), d) == Xor(Sum4(a, b, c, d), k)
  {
  }

  lemma FiveWords(k: bv32, a: bv32, b: bv32, c: bv32, d: bv32)
    ensures Split(XorW(XorW(XorW(XorW(k, a), b), c), d))
         == XorCol(XorCol(XorCol(XorCol(Split(k), Split(a)), Split(b)), Split(c)), Split(d))
  {
    hide Split, XorW, XorCol;
    SplitXor(k, a);
    SplitXor(XorW(k, a), b);
    SplitXor(XorW(XorW(k, a), b), c);
    SplitXor(XorW(XorW(XorW(k, a), b), c), d);
  }

  lemma ColumnKeyLast(k: Col, a: Col, b: Col, c: Col, d: Col)
    ensures XorCol(XorCol(XorCol(XorCol(k, a), b), c), d)
         == Col(Xor(Sum4(a.r0, b.r0, c.r0, d.r0), k.r0), Xor(Sum4(a.r1, b.r1, c.r1, d.r1), k.r1),
                Xor(Sum4(a.r2, b.r2, c.r2, d.r2), k.r2), Xor(Sum4(a.r3, b.r3, c.r3, d.r3), k.r3))
  {
    hide Xor, Sum4;
    KeyLast(k.r0, a.r0, b.r0, c.r0, d.r0);
    KeyLast(k.r1, a.r1, b.r1, c.r1, d.r1);
    KeyLast(k.r2, a.r2, b.r2, c.r2, d.r2);
    KeyLast(k.r3, a.r3, b.r3, c.r3, d.r3);
  }

  /** One line of AES_FROUND: a mixed, shifted and substituted column plus its key word. */
  function RoundWord(rk: bv32, y0: bv32, y1: bv32, y2: bv32, y3: bv32): bv32 {
    XorW(XorW(XorW(XorW(rk, FT0(Byte0(y0))), FT1(Byte1(y1))), FT2(Byte2(y2))), FT3(Byte3(y3)))
  }

  /** The column of ShiftRows whose rows come from these four columns. */
  function Diagonal(a: Col, b: Col, c: Col, d: Col): Col { Col(a.r0, b.r1, c.r2, d.r3) }

  lemma RoundWordIs(rk: bv32, y0: bv32, y1: bv32, y2: bv32, y3: bv32)
    ensures Split(RoundWord(rk, y0, y1, y2, y3))
         == XorCol(MixColumn(SubCol(Diagonal(Split(y0), Split(y1), Split(y2), Split(y3)))), Split(rk))
  {
    hide FT0, FT1, FT2, FT3, SboxTable, Xtime, XorW, Xor, Byte0, Byte1, Byte2, Byte3, Sum4, Times3;
    var x0, x1, x2, x3 := Byte0(y0), Byte1(y1), Byte2(y2), Byte3(y3);
    FiveWords(rk, FT0(x0), FT1(x1), FT2(x2), FT3(x3));
    TableColumn(x0);
    TableColumn(x1);
    TableColumn(x2);
    TableColumn(x3);
    ColumnKeyLast(Split(rk), Split(FT0(x0)), Split(FT1(x1)), Split(FT2(x2)), Split(FT3(x3)));
  }

  function Shl24(f: bv32): bv32 { f << 24 }

  function Shl16(f: bv32): bv32 { f << 16 }

  function Shl8(f: bv32): bv32 { f << 8 }

  /** One line of the last round. */
  function FinalWord(rk: bv32, y0: bv32, y1: bv32, y2: bv32, y3: bv32): bv32 {
    XorW(XorW(XorW(XorW(rk, Shl24(FSb(Byte0(y0)))), Shl16(FSb(Byte1(y1)))), Shl8(FSb(Byte2(y2)))), FSb(Byte3(y3)))
  }

  lemma ShiftedByte(f: bv32, s: bv8)
    requires f == s as bv32
    ensures Shl24(f) == Pack(s, 0, 0, 0) && Shl16(f) == Pack(0, s, 0, 0)
    ensures Shl8(f) == Pack(0, 0, s, 0) && f == Pack(0, 0, 0, s)
  {
  }

  lemma SumZeros(s: bv8)
    ensures Sum4(s, 0, 0, 0) == s && Sum4(0, s, 0, 0) == s && Sum4(0, 0, s, 0) == s && Sum4(0, 0, 0, s) == s
  {
  }

  lemma ShiftedSbox(x: bv8)
    ensures Split(Shl24(FSb(x))) == Col(SboxTable(x), 0, 0, 0) && Split(Shl16(FSb(x))) == Col(0, SboxTable(x), 0, 0)
    ensures Split(Shl8(FSb(x))) == Col(0, 0, SboxTable(x), 0) && Split(FSb(x)) == Col(0, 0, 0, SboxTable(x))
  {
    hide Shl24, Shl16, Shl8, FSb, SboxTable, Split, Pack;
    TablesOk(x);
    var s := SboxTable(x);
    ShiftedByte(FSb(x), s);
    SplitWord(Col(s, 0, 0, 0));
    SplitWord(Col(0, s, 0, 0));
    SplitWord(Col(0, 0, s, 0));
    SplitWord(Col(0, 0, 0, s));
  }

  lemma FinalWordIs(rk: bv32, y0: bv32, y1: bv32, y2: bv32, y3: bv32)
    ensures Split(FinalWord(rk, y0, y1, y2, y3))
         == XorCol(SubCol(Diagonal(Split(y0), Split(y1), Split(y2), Split(y3))), Split(rk))
  {
    hide Shl24, Shl16, Shl8, FSb, SboxTable, XorW, Xor, Byte0, Byte1, Byte2, Byte3, Sum4;
    var x0, x1, x2, x3 := Byte0(y0), Byte1(y1), Byte2(y2), Byte3(y3);
    FiveWords(rk, Shl24(FSb(x0)), Shl16(FSb(x1)), Shl8(FSb(x2)), FSb(x3));
    ShiftedSbox(x0);
    ShiftedSbox(x1);
    ShiftedSbox(x2);
    ShiftedSbox(x3);
    ColumnKeyLast(Split(rk), Split(Shl24(FSb(x0))), Split(Shl16(FSb(x1))), Split(Shl8(FSb(x2))), Split(FSb(x3)));
    SumZeros(SboxTable(x0));
    SumZeros(SboxTable(x1));
    SumZeros(SboxTable(x2));
    SumZeros(SboxTable(x3));
  }

  // ------------------------------------------------------------- the key schedule

  /** RK[4], from RK[0], RK[3] and RCON. */
  function ScheduleWord(k0: bv32, k3: bv32, rcon: bv32): bv32 {
    XorW(XorW(XorW(XorW(XorW(k0, rcon), Shl24(FSb(Byte1(k3)))), Shl16(FSb(Byte2(k3)))), Shl8(FSb(Byte3(k3)))),
      FSb(Byte0(k3)))
  }

  lemma RconFirst(a: Col, t: Col, rcon: bv8)
    ensures var c := Col(rcon, 0, 0, 0); XorCol(t, XorCol(a, c)) == XorCol(a, XorCol(t, c))
  {
  }

  lemma ScheduleWordIs(k0: bv32, k3: bv32, rcon: bv8)
    ensures Split(ScheduleWord(k0, k3, Pack(rcon, 0, 0, 0)))
         == XorCol(Split(k0), XorCol(SubCol(RotWord(Split(k3))), Col(rcon, 0, 0, 0)))
  {
    hide Shl24, Shl16, Shl8, FSb, SboxTable, XorW, XorCol, Byte0, Byte1, Byte2, Byte3, Pack;
    var rc := Pack(rcon, 0, 0, 0);
    var x0, x1, x2, x3 := Byte1(k3), Byte2(k3), Byte3(k3), Byte0(k3);
    var t := Pack(x0, x1, x2, x3);
    SplitWord(Col(x0, x1, x2, x3));
    FinalWordIs(XorW(k0, rc), t, t, t, t);
    SplitWord(Col(rcon, 0, 0, 0));
    SplitXor(k0, rc);
    RconFirst(Split(k0), SubCol(RotWord(Split(k3))), rcon);
  }

  /** The state four words stand for. */
  function FromWords(a: bv32, b: bv32, c: bv32, d: bv32): State { State(Split(a), Split(b), Split(c), Split(d)) }

  function KeyAt(rk: seq<bv32>, i: nat): State
    requires i + 4 <= |rk|
  {
    FromWords(rk[i], rk[i + 1], rk[i + 2], rk[i + 3])
  }

  function RconWord(i: nat): bv32
    requires i < 10
  {
    [0x0100_0000, 0x0200_0000, 0x0400_0000, 0x0800_0000, 0x1000_0000,
     0x2000_0000, 0x4000_0000, 0x8000_0000, 0x1B00_0000, 0x3600_0000][i]
  }

  lemma RconWordIs(i: nat)
    requires i < 10
    ensures RconWord(i) == Pack(Rcon(i + 1), 0, 0, 0)
  {
    var b: bv8 := [0x01, 0x02, 0x04, 0x08, 0x10, 0x20, 0x40, 0x80, 0x1b, 0x36][i];
    AesBytewise.RconTable(i, b);
    assert RconWord(i) == Pack(b, 0, 0, 0) by { hide Rcon; }
  }

  /** GET_UINT32(n, b, i) */
  function GetWord(b: seq<bv8>, i: nat): bv32
    requires i + 4 <= |b|
  {
    Word(ColAt(b, i))
  }

  lemma GetWords(b: seq<bv8>)
    requires |b| == 16
    ensures FromWords(GetWord(b, 0), GetWord(b, 4), GetWord(b, 8), GetWord(b, 12)) == FromBytes(b)
  {
    hide Split, Word, ColAt;
    SplitWord(ColAt(b, 0));
    SplitWord(ColAt(b, 4));
    SplitWord(ColAt(b, 8));
    SplitWord(ColAt(b, 12));
  }

  lemma KeyWords(rk: seq<bv32>, i: nat, rcon: bv8)
    requires i + 8 <= |rk|
    requires rk[i + 4] == ScheduleWord(rk[i], rk[i + 3], Pack(rcon, 0, 0, 0))
    requires rk[i + 5] == XorW(rk[i + 1], rk[i + 4]) && rk[i + 6] == XorW(rk[i + 2], rk[i + 5])
    requires rk[i + 7] == XorW(rk[i + 3], rk[i + 6])
    ensures KeyAt(rk, i + 4) == NextKey(KeyAt(rk, i), rcon)
  {
    hide Split, ScheduleWord, XorCol, XorW, SubCol, Pack;
    ScheduleWordIs(rk[i], rk[i + 3], rcon);
    SplitXor(rk[i + 1], rk[i + 4]);
    SplitXor(rk[i + 2], rk[i + 5]);
    SplitXor(rk[i + 3], rk[i + 6]);
  }

  lemma AddWords(a: State, x0: bv32, x1: bv32, x2: bv32, x3: bv32, rk: seq<bv32>)
    requires |rk| >= 4 && a == FromWords(x0, x1, x2, x3)
    ensures FromWords(XorW(x0, rk[0]), XorW(x1, rk[1]), XorW(x2, rk[2]), XorW(x3, rk[3]))
            == AddRoundKey(a, KeyAt(rk, 0))
  {
    hide Split, XorW, XorCol;
    SplitXor(x0, rk[0]);
    SplitXor(x1, rk[1]);
    SplitXor(x2, rk[2]);
    SplitXor(x3, rk[3]);
  }

  class AesContext {
    var erk: array<bv32>
    var nr: nat

    /** The encryption round keys are the key expansion of k. */
    ghost predicate Scheduled(k: State)
      reads this, erk
    {
      && erk.Length == 64 && nr == 10
      && forall j {:trigger RoundKey(k, j)} :: 0 <= j <= 10 ==> KeyAt(erk[..], 4 * j) == RoundKey(k, j)
    }

    constructor ()
      ensures erk.Length == 64 && fresh(erk)
    {
      erk := new bv32[64];
      nr := 0;
    }

    /** RK[4..8] from RK[0..4], RK being erk + at. */
    method Schedule(at: nat, i: nat)
      requires erk.Length == 64 && i < 10 && at == 4 * i
      modifies erk
      ensures KeyAt(erk[..], at + 4) == NextKey(KeyAt(erk[..], at), Rcon(i + 1))
      ensures erk[..at + 4] == old(erk[..at + 4])
    {
      hide XorW, ScheduleWord, KeyAt, RconWord, NextKey, Rcon, Pack;
      erk[at + 4] := ScheduleWord(erk[at], erk[at + 3], RconWord(i));
      erk[at + 5] := XorW(erk[at + 1], erk[at + 4]);
      erk[at + 6] := XorW(erk[at + 2], erk[at + 5]);
      erk[at + 7] := XorW(erk[at + 3], erk[at + 6]);
      RconWordIs(i);
      KeyWords(erk[..], at, Rcon(i + 1));
    }

    /** rtmp_aes_set_key with nbits == 128. */
    method SetKey128(key: array<bv8>)
      requires key.Length == 16 && erk.Length == 64
      modifies this`nr, erk
      ensures Scheduled(FromBytes(key[..]))
    {
      hide GetWord, FromBytes, FromWords, NextKey, Rcon;
      ghost var k := FromBytes(key[..]);
      nr := 10;
      for i := 0 to 4
        invariant nr == 10
        invariant forall j :: 0 <= j < i ==> erk[j] == GetWord(key[..], 4 * j)
      {
        erk[i] := GetWord(key[..], 4 * i);
      }
      GetWords(key[..]);
      for i := 0 to 10
        invariant nr == 10
        invariant forall j {:trigger RoundKey(k, j)} :: 0 <= j <= i ==> KeyAt(erk[..], 4 * j) == RoundKey(k, j)
      {
        ghost var before := erk[..];
        Schedule(4 * i, i);
        ghost var rk := erk[..];
        assert forall j :: 0 <= j < 4 * i + 4 ==> rk[j] == rk[..4 * i + 4][j] == before[..4 * i + 4][j] == before[j];
        assert RoundKey(k, i + 1) == NextKey(RoundKey(k, i), Rcon(i + 1));
      }
    }

    /** AES_FROUND with RK at `at`. */
    method Fround(at: nat, y0: bv32, y1: bv32, y2: bv32, y3: bv32) returns (x0: bv32, x1: bv32, x2: bv32, x3: bv32)
      requires at + 4 <= erk.Length
      ensures FromWords(x0, x1, x2, x3) == Round(FromWords(y0, y1, y2, y3), KeyAt(erk[..], at))
    {
      hide RoundWord, Split, MixColumn, SubCol, XorCol;
      x0 := RoundWord(erk[at], y0, y1, y2, y3);
      x1 := RoundWord(erk[at + 1], y1, y2, y3, y0);
      x2 := RoundWord(erk[at + 2], y2, y3, y0, y1);
      x3 := RoundWord(erk[at + 3], y3, y0, y1, y2);
      RoundWordIs(erk[at], y0, y1, y2, y3);
      RoundWordIs(erk[at + 1], y1, y2, y3, y0);
      RoundWordIs(erk[at + 2], y2, y3, y0, y1);
      RoundWordIs(erk[at + 3], y3, y0, y1, y2);
      ShiftedColumns(FromWords(y0, y1, y2, y3));
    }

    /** A round on the reached state is the next state. */
    lemma RoundsStep(k: State, s: State, n: nat)
      requires Scheduled(k) && n < 9
      ensures Rounds(k, s, n + 1) == Round(Rounds(k, s, n), KeyAt(erk[..], 4 * (n + 1)))
    {
      assert KeyAt(erk[..], 4 * (n + 1)) == RoundKey(k, n + 1);
    }

    /** The last round, with RK at 40. */
    method LastRound(y0: bv32, y1: bv32, y2: bv32, y3: bv32) returns (x0: bv32, x1: bv32, x2: bv32, x3: bv32)
      requires erk.Length == 64
      ensures FromWords(x0, x1, x2, x3) == AddRoundKey(ShiftRows(SubBytes(FromWords(y0, y1, y2, y3))),
              KeyAt(erk[..], 40))
    {
      hide FinalWord, Split, SubCol, XorCol;
      x0 := FinalWord(erk[40], y0, y1, y2, y3);
      x1 := FinalWord(erk[41], y1, y2, y3, y0);
      x2 := FinalWord(erk[42], y2, y3, y0, y1);
      x3 := FinalWord(erk[43], y3, y0, y1, y2);
      FinalWordIs(erk[40], y0, y1, y2, y3);
      FinalWordIs(erk[41], y1, y2, y3, y0);
      FinalWordIs(erk[42], y2, y3, y0, y1);
      FinalWordIs(erk[43], y3, y0, y1, y2);
      ShiftedColumns(FromWords(y0, y1, y2, y3));
    }

    /** The first key addition and the nine full rounds. */
    method FullRounds(input: seq<bv8>, ghost k: State) returns (y0: bv32, y1: bv32, y2: bv32, y3: bv32)
      requires |input| == 16 && Scheduled(k)
      ensures FromWords(y0, y1, y2, y3) == Rounds(k, FromBytes(input), 9)
    {
      hide GetWord, XorW, FromWords, FromBytes, KeyAt, Round, AddRoundKey, RoundKey, Rounds;
      ghost var s := FromBytes(input);
      var x0, x1, x2, x3;
      y0, y1, y2, y3 := GetWord(input, 0), GetWord(input, 4), GetWord(input, 8), GetWord(input, 12);
      GetWords(input);
      AddWords(s, y0, y1, y2, y3, erk[..]);
      x0, x1, x2, x3 := XorW(y0, erk[0]), XorW(y1, erk[1]), XorW(y2, erk[2]), XorW(y3, erk[3]);
      FirstKey(k, s);
      y0, y1, y2, y3 := Fround(4, x0, x1, x2, x3);
      RoundsStep(k, s, 0);
      x0, x1, x2, x3 := Fround(8, y0, y1, y2, y3);
      RoundsStep(k, s, 1);
      y0, y1, y2, y3 := Fround(12, x0, x1, x2, x3);
      RoundsStep(k, s, 2);
      x0, x1, x2, x3 := Fround(16, y0, y1, y2, y3);
      RoundsStep(k, s, 3);
      y0, y1, y2, y3 := Fround(20, x0, x1, x2, x3);
      RoundsStep(k, s, 4);
      x0, x1, x2, x3 := Fround(24, y0, y1, y2, y3);
      RoundsStep(k, s, 5);
      y0, y1, y2, y3 := Fround(28, x0, x1, x2, x3);
      RoundsStep(k, s, 6);
      x0, x1, x2, x3 := Fround(32, y0, y1, y2, y3);
      RoundsStep(k, s, 7);
      y0, y1, y2, y3 := Fround(36, x0, x1, x2, x3);
      RoundsStep(k, s, 8);
    }

    lemma FirstKey(k: State, s: State)
      requires Scheduled(k)
      ensures Rounds(k, s, 0) == AddRoundKey(s, KeyAt(erk[..], 0))
    {
      assert KeyAt(erk[..], 4 * 0) == RoundKey(k, 0);
    }

    /** rtmp_aes_encrypt after a 128-bit rtmp_aes_set_key; the output may be the input. */
    method Encrypt(input: array<bv8>, output: array<bv8>, ghost k: State)
      requires input.Length == output.Length == 16 && Scheduled(k)
      modifies output
      ensures FromBytes(output[..]) == Cipher(k, old(FromBytes(input[..])))
      ensures Scheduled(k)
    {
      hide FromWords, Rounds, AddRoundKey, ShiftRows, SubBytes, KeyAt, RoundKey, FromBytes;
      var y0, y1, y2, y3 := FullRounds(input[..], k);
      var x0, x1, x2, x3 := LastRound(y0, y1, y2, y3);
      assert KeyAt(erk[..], 4 * 10) == RoundKey(k, 10);
      PutWord(x0, output, 0);
      PutWord(x1, output, 4);
      PutWord(x2, output, 8);
      PutWord(x3, output, 12);
      PutWords(x0, x1, x2, x3, output[..]);
    }
  }

  /** PUT_UINT32(n, b, i) */
  method PutWord(n: bv32, b: array<bv8>, i: nat)
    requires i + 4 <= b.Length
    modifies b
    ensures ColAt(b[..], i) == Split(n)
    ensures forall j :: 0 <= j < b.Length && !(i <= j < i + 4) ==> b[j] == old(b[j])
  {
    hide Byte0, Byte1, Byte2, Byte3;
    b[i] := Byte0(n);
    b[i + 1] := Byte1(n);
    b[i + 2] := Byte2(n);
    b[i + 3] := Byte3(n);
  }

  lemma PutWords(a: bv32, b: bv32, c: bv32, d: bv32, o: seq<bv8>)
    requires |o| == 16 && ColAt(o, 0) == Split(a) && ColAt(o, 4) == Split(b)
    requires ColAt(o, 8) == Split(c) && ColAt(o, 12) == Split(d)
    ensures FromBytes(o) == FromWords(a, b, c, d)
  {
    hide Split, ColAt;
  }

  /** Substituting a shifted column is shifting the substituted columns. */
  lemma ShiftedColumns(s: State)
    ensures ShiftRows(SubBytes(s))
         == State(SubCol(Diagonal(s.c0, s.c1, s.c2, s.c3)), SubCol(Diagonal(s.c1, s.c2, s.c3, s.c0)),
                  SubCol(Diagonal(s.c2, s.c3, s.c0, s.c1)), SubCol(Diagonal(s.c3, s.c0, s.c1, s.c2)))
  {
    hide SboxTable;
  }

  /** The two implementations, run on the same key and block, leave the same sixteen bytes: those of
      Cipher. */
  method SameCiphertext(key: array<bv8>, block: array<bv8>) returns (tables: seq<bv8>, bytewise: seq<bv8>)
    requires key.Length == block.Length == 16
    ensures tables == bytewise == ToBytes(Cipher(FromBytes(key[..]), FromBytes(block[..])))
  {
    hide FromBytes, ToBytes, Cipher;
    ghost var k, d := FromBytes(key[..]), FromBytes(block[..]);
    var ctx := new AesContext();
    ctx.SetKey128(key);
    var out1, out2 := new bv8[16], new bv8[16];
    ctx.Encrypt(block, out1, k);
    AesBytewise.Encrypt(key, block, out2);
    tables, bytewise := out1[..], out2[..];
    BytesRoundTrip(tables, Cipher(k, d));
    BytesRoundTrip(bytewise, Cipher(k, d));
  }
}
