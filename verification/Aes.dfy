/** AES-128 encryption as section 5 of FIPS 197 defines it, over columns of four bytes. */
module Aes {
  import opened AesTables

  datatype Col = Col(r0: bv8, r1: bv8, r2: bv8, r3: bv8)

  datatype State = State(c0: Col, c1: Col, c2: Col, c3: Col)

  function XorCol(a: Col, b: Col): Col {
    Col(Xor(a.r0, b.r0), Xor(a.r1, b.r1), Xor(a.r2, b.r2), Xor(a.r3, b.r3))
  }

  function AddRoundKey(a: State, k: State): State {
    State(XorCol(a.c0, k.c0), XorCol(a.c1, k.c1), XorCol(a.c2, k.c2), XorCol(a.c3, k.c3))
  }

  function SubCol(c: Col): Col {
    Col(SboxTable(c.r0), SboxTable(c.r1), SboxTable(c.r2), SboxTable(c.r3))
  }

  function SubBytes(s: State): State {
    State(SubCol(s.c0), SubCol(s.c1), SubCol(s.c2), SubCol(s.c3))
  }

  /** Row r is rotated left by r columns. */
  function ShiftRows(s: State): State {
    State(Col(s.c0.r0, s.c1.r1, s.c2.r2, s.c3.r3), Col(s.c1.r0, s.c2.r1, s.c3.r2, s.c0.r3),
          Col(s.c2.r0, s.c3.r1, s.c0.r2, s.c1.r3), Col(s.c3.r0, s.c0.r1, s.c1.r2, s.c2.r3))
  }

  function Times3(b: bv8): bv8 { Xor(Xtime(b), b) }

  function Sum4(a: bv8, b: bv8, c: bv8, d: bv8): bv8 { Xor(Xor(Xor(a, b), c), d) }

  /** Multiplication by {03}x^3 + {01}x^2 + {01}x + {02}. */
  function MixColumn(c: Col): Col {
    Col(Sum4(Xtime(c.r0), Times3(c.r1), c.r2, c.r3),
        Sum4(c.r0, Xtime(c.r1), Times3(c.r2), c.r3),
        Sum4(c.r0, c.r1, Xtime(c.r2), Times3(c.r3)),
        Sum4(Times3(c.r0), c.r1, c.r2, Xtime(c.r3)))
  }

  function MixColumns(s: State): State {
    State(MixColumn(s.c0), MixColumn(s.c1), MixColumn(s.c2), MixColumn(s.c3))
  }

  /** Rcon[i] of section 5.2: x^(i-1). */
  function Rcon(i: nat): bv8
    requires i > 0
  {
    if i == 1 then 0x01 else Xtime(Rcon(i - 1))
  }

  function RotWord(c: Col): Col { Col(c.r1, c.r2, c.r3, c.r0) }

  /** Four consecutive words of the key expansion from the four before them. */
  function NextKey(k: State, rcon: bv8): State {
    var c0 := XorCol(k.c0, XorCol(SubCol(RotWord(k.c3)), Col(rcon, 0, 0, 0)));
    var c1 := XorCol(k.c1, c0);
    var c2 := XorCol(k.c2, c1);
    State(c0, c1, c2, XorCol(k.c3, c2))
  }

  function RoundKey(k: State, n: nat): State {
    if n == 0 then k else NextKey(RoundKey(k, n - 1), Rcon(n))
  }

  function Round(s: State, k: State): State {
    AddRoundKey(MixColumns(ShiftRows(SubBytes(s))), k)
  }

  /** The state after the initial key addition and n full rounds. */
  function Rounds(k: State, s: State, n: nat): State {
    if n == 0 then AddRoundKey(s, k) else Round(Rounds(k, s, n - 1), RoundKey(k, n))
  }

  /** Cipher() for ten rounds. */
  function Cipher(k: State, s: State): State {
    AddRoundKey(ShiftRows(SubBytes(Rounds(k, s, 9))), RoundKey(k, 10))
  }

  // ------------------------------------------------------------- bytes

  function ColAt(b: seq<bv8>, i: nat): Col
    requires i + 4 <= |b|
  {
    Col(b[i], b[i + 1], b[i + 2], b[i + 3])
  }

  function FromBytes(b: seq<bv8>): State
    requires |b| == 16
  {
    State(ColAt(b, 0), ColAt(b, 4), ColAt(b, 8), ColAt(b, 12))
  }

  function ColBytes(c: Col): seq<bv8> { [c.r0, c.r1, c.r2, c.r3] }

  function ToBytes(s: State): (b: seq<bv8>)
    ensures |b| == 16
  {
    ColBytes(s.c0) + ColBytes(s.c1) + ColBytes(s.c2) + ColBytes(s.c3)
  }

  lemma BytesRoundTrip(b: seq<bv8>, s: State)
    requires |b| == 16
    ensures FromBytes(ToBytes(s)) == s
    ensures ToBytes(FromBytes(b)) == b
  {
  }
}

/** The byte-wise implementation of common/rtmp_tkip.c. */
module AesBytewise {
  import opened AesTables
  import opened Aes

  predicate IsRcon(round: nat, b: bv8) {
    b == match round
         case 0 => 0x01 case 1 => 0x02 case 2 => 0x04 case 3 => 0x08 case 4 => 0x10 case 5 => 0x20
         case 6 => 0x40 case 7 => 0x80 case 8 => 0x1b case _ => 0x36
  }

  /** rcon_table is Rcon, for the ten rounds that use it. */
  lemma RconTable(round: nat, b: bv8)
    requires round < 10 && IsRcon(round, b)
    ensures b == Rcon(round + 1)
  {
    assert Rcon(1) == 0x01;
    assert Rcon(2) == 0x02;
    assert Rcon(3) == 0x04;
    assert Rcon(4) == 0x08;
    assert Rcon(5) == 0x10;
    assert Rcon(6) == 0x20;
    assert Rcon(7) == 0x40;
    assert Rcon(8) == 0x80;
    assert Rcon(9) == 0x1b;
    assert Rcon(10) == 0x36;
  }

  lemma XorColAt(a: seq<bv8>, b: seq<bv8>, o: seq<bv8>, i: nat)
    requires |a| == |b| == |o| && i + 4 <= |o| && forall j :: i <= j < i + 4 ==> o[j] == Xor(a[j], b[j])
    ensures ColAt(o, i) == XorCol(ColAt(a, i), ColAt(b, i))
  {
    hide Xor;
  }

  lemma XorPointwise(a: seq<bv8>, b: seq<bv8>, o: seq<bv8>)
    requires |a| == |b| == |o| == 16 && forall j :: 0 <= j < 16 ==> o[j] == Xor(a[j], b[j])
    ensures FromBytes(o) == AddRoundKey(FromBytes(a), FromBytes(b))
  {
    hide ColAt, XorCol, Xor;
    XorColAt(a, b, o, 0);
    XorColAt(a, b, o, 4);
    XorColAt(a, b, o, 8);
    XorColAt(a, b, o, 12);
  }

  lemma SubPointwise(a: seq<bv8>, o: seq<bv8>)
    requires |a| == |o| == 16 && forall j :: 0 <= j < 16 ==> o[j] == SboxTable(a[j])
    ensures FromBytes(o) == SubBytes(FromBytes(a))
  {
    hide SboxTable;
  }

  /** xor_128; the output may be one of the inputs. */
  method Xor128(a: array<bv8>, b: array<bv8>, out: array<bv8>)
    requires a.Length == b.Length == out.Length == 16
    modifies out
    ensures FromBytes(out[..]) == AddRoundKey(old(FromBytes(a[..])), old(FromBytes(b[..])))
  {
    hide AddRoundKey, FromBytes, Xor;
    ghost var x, y := a[..], b[..];
    for i := 0 to 16
      invariant forall j :: 0 <= j < i ==> out[j] == Xor(x[j], y[j])
      invariant forall j :: i <= j < 16 ==> a[j] == x[j] && b[j] == y[j]
    {
      out[i] := Xor(a[i], b[i]);
    }
    XorPointwise(x, y, out[..]);
  }

  /** byte_sub */
  method ByteSub(inp: array<bv8>, out: array<bv8>)
    requires inp.Length == out.Length == 16 && inp != out
    modifies out
    ensures FromBytes(out[..]) == SubBytes(FromBytes(inp[..]))
  {
    hide SubBytes, FromBytes, SboxTable;
    for i := 0 to 16
      invariant forall j :: 0 <= j < i ==> out[j] == SboxTable(inp[j])
    {
      out[i] := SboxTable(inp[i]);
    }
    SubPointwise(inp[..], out[..]);
  }

  /** shift_row */
  method ShiftRow(inp: array<bv8>, out: array<bv8>)
    requires inp.Length == out.Length == 16 && inp != out
    modifies out
    ensures FromBytes(out[..]) == ShiftRows(FromBytes(inp[..]))
  {
    out[0], out[1], out[2], out[3] := inp[0], inp[5], inp[10], inp[15];
    out[4], out[5], out[6], out[7] := inp[4], inp[9], inp[14], inp[3];
    out[8], out[9], out[10], out[11] := inp[8], inp[13], inp[2], inp[7];
    out[12], out[13], out[14], out[15] := inp[12], inp[1], inp[6], inp[11];
  }

  /** Doubling as mix_column does it: mask, shift, and add 0x1b if the top bit was set. */
  function TopMark(b: bv8): bv8 { if b & 0x80 == 0x80 then 0x1b else 0x00 }

  function Masked(b: bv8): bv8 { b & 0x7f }

  function Shifted(b: bv8): bv8 { b << 1 }

  function CarryIn(b: bv8): bv8 { if b & 0x80 == 0x80 then 0x01 else 0x00 }

  lemma DoublingIsXtime(b: bv8)
    ensures Xor(TopMark(b), Shifted(Masked(b))) == Xtime(b)
    ensures CarryIn(Masked(b)) == 0 && Shifted(Masked(b)) & 0xfe == Shifted(Masked(b))
    ensures Shifted(Masked(b)) | 0 == Shifted(Masked(b))
  {
  }

  function Xor4(a: seq<bv8>, b: seq<bv8>): (o: seq<bv8>)
    requires |a| == |b| == 4
    ensures |o| == 4
  {
    [Xor(a[0], b[0]), Xor(a[1], b[1]), Xor(a[2], b[2]), Xor(a[3], b[3])]
  }

  /** One output byte of mix_column, from the doubled and plain bytes it combines. */
  function Mixed(d: bv8, e: bv8, a: bv8, b: bv8, c: bv8): bv8 {
    Xor(Xor(d, Xor(a, e)), Xor(b, c))
  }

  lemma MixedSum(d: bv8, e: bv8, a: bv8, b: bv8, c: bv8)
    ensures Sum4(d, Xor(e, a), b, c) == Mixed(d, e, a, b, c)
    ensures Sum4(c, d, Xor(e, a), b) == Mixed(d, e, a, b, c)
    ensures Sum4(b, c, d, Xor(e, a)) == Mixed(d, e, a, b, c)
    ensures Sum4(Xor(e, a), b, c, d) == Mixed(d, e, a, b, c)
  {
    hide Xor;
    var m := Xor(a, e);
    XorComm(e, a);
    XorComm(b, c);
    XorAssoc(Xor(d, m), b, c);
    XorAssoc(c, d, m);
    XorComm(c, Xor(d, m));
    XorAssoc(Xor(d, m), c, b);
    XorAssoc(Xor(b, c), d, m);
    XorComm(Xor(b, c), Xor(d, m));
    XorAssoc(m, b, c);
    XorComm(Xor(m, Xor(b, c)), d);
    XorAssoc(d, m, Xor(b, c));
  }

  lemma MixedIsMixColumn(c: Col)
    ensures
      var d0, d1, d2, d3 := Xtime(c.r0), Xtime(c.r1), Xtime(c.r2), Xtime(c.r3);
      MixColumn(c) == Col(Mixed(d0, d1, c.r1, c.r2, c.r3), Mixed(d1, d2, c.r2, c.r3, c.r0),
                          Mixed(d2, d3, c.r3, c.r0, c.r1), Mixed(d3, d0, c.r0, c.r1, c.r2))
  {
    hide Xtime, Xor, Sum4, Mixed;
    var d0, d1, d2, d3 := Xtime(c.r0), Xtime(c.r1), Xtime(c.r2), Xtime(c.r3);
    MixedSum(d0, d1, c.r1, c.r2, c.r3);
    MixedSum(d1, d2, c.r2, c.r3, c.r0);
    MixedSum(d2, d3, c.r3, c.r0, c.r1);
    MixedSum(d3, d0, c.r0, c.r1, c.r2);
  }

  /** mix_column on the four bytes at `off`. */
  method MixColumnAt(inp: array<bv8>, out: array<bv8>, off: nat)
    requires inp.Length == out.Length && off + 4 <= inp.Length && inp != out
    modifies out
    ensures ColAt(out[..], off) == MixColumn(ColAt(inp[..], off))
    ensures forall j :: 0 <= j < out.Length && !(off <= j < off + 4) ==> out[j] == old(out[j])
  {
    hide MixColumn, Xor4, TopMark, Masked, Shifted;
    var a := inp[off..off + 4];
    var add1b: seq<bv8>, andf7: seq<bv8> := [0, 0, 0, 0], [0, 0, 0, 0];
    for i := 0 to 4
      invariant |add1b| == |andf7| == 4
      invariant forall j :: 0 <= j < i ==> add1b[j] == TopMark(a[j])
      invariant forall j :: 0 <= j < i ==> andf7[j] == Masked(a[j])
    {
      add1b := add1b[i := TopMark(a[i])];
      andf7 := andf7[i := Masked(a[i])];
    }
    var swapHalfs := [a[2], a[3], a[0], a[1]];
    var rotl := [a[3], a[0], a[1], a[2]];
    andf7 := ShiftLeft(andf7, a);
    var add1bf7 := Xor4(add1b, andf7);
    var r := Xor4(a, add1bf7);
    var rotr := [r[1], r[2], r[3], r[0]];
    var o := Xor4(Xor4(add1bf7, rotr), Xor4(swapHalfs, rotl));
    out[off], out[off + 1], out[off + 2], out[off + 3] := o[0], o[1], o[2], o[3];
    ColumnMixed(a, add1b, andf7, o);
    assert ColAt(out[..], off) == ColAt(o, 0) && ColAt(inp[..], off) == ColAt(a, 0);
  }

  /** The byte-wise left shift of mix_column: no bit crosses a byte, because the top bits are masked. */
  method ShiftLeft(masked: seq<bv8>, a: seq<bv8>) returns (s: seq<bv8>)
    requires |masked| == |a| == 4 && forall j :: 0 <= j < 4 ==> masked[j] == Masked(a[j])
    ensures |s| == 4 && forall j :: 0 <= j < 4 ==> s[j] == Shifted(Masked(a[j]))
  {
    hide Masked, Shifted, CarryIn;
    s := masked;
    var i := 3;
    while i > 0
      invariant 0 <= i <= 3 && |s| == 4
      invariant forall j :: 0 <= j <= i ==> s[j] == Masked(a[j])
      invariant forall j :: i < j < 4 ==> s[j] == Shifted(Masked(a[j]))
    {
      DoublingIsXtime(a[i - 1]);
      DoublingIsXtime(a[i]);
      s := s[i := Shifted(s[i]) | CarryIn(s[i - 1])];
      i := i - 1;
    }
    DoublingIsXtime(a[0]);
    s := s[0 := Shifted(s[0]) & 0xfe];
  }

  lemma ColumnMixed(a: seq<bv8>, add1b: seq<bv8>, andf7: seq<bv8>, o: seq<bv8>)
    requires |a| == |add1b| == |andf7| == 4
    requires forall j :: 0 <= j < 4 ==> add1b[j] == TopMark(a[j]) && andf7[j] == Shifted(Masked(a[j]))
    requires var d := Xor4(add1b, andf7);
      o == Xor4(Xor4(d, [Xor4(a, d)[1], Xor4(a, d)[2], Xor4(a, d)[3], Xor4(a, d)[0]]),
                Xor4([a[2], a[3], a[0], a[1]], [a[3], a[0], a[1], a[2]]))
    ensures ColAt(o, 0) == MixColumn(ColAt(a, 0))
  {
    hide TopMark, Shifted, Masked, Xtime, MixColumn, Xor;
    DoublingIsXtime(a[0]);
    DoublingIsXtime(a[1]);
    DoublingIsXtime(a[2]);
    DoublingIsXtime(a[3]);
    MixedIsMixColumn(ColAt(a, 0));
  }

  // ------------------------------------------------------------- key schedule and cipher

  /** xor_32 of four bytes onto the four bytes at `off`. */
  method Xor32At(key: array<bv8>, off: nat, b: seq<bv8>)
    requires off + 4 <= key.Length && |b| == 4
    modifies key
    ensures ColAt(key[..], off) == XorCol(old(ColAt(key[..], off)), ColAt(b, 0))
    ensures forall j :: 0 <= j < key.Length && !(off <= j < off + 4) ==> key[j] == old(key[j])
  {
    hide Xor;
    for i := 0 to 4
      invariant forall j :: off <= j < off + i ==> key[j] == Xor(old(key[j]), b[j - off])
      invariant forall j :: off + i <= j < key.Length || 0 <= j < off ==> key[j] == old(key[j])
    {
      key[off + i] := Xor(key[off + i], b[i]);
    }
  }

  lemma XorRcon(a: Col, t: Col, rcon: bv8)
    ensures XorCol(XorCol(a, t), Col(rcon, 0, 0, 0)) == XorCol(a, XorCol(t, Col(rcon, 0, 0, 0)))
  {
    hide Xor;
    XorAssoc(a.r0, t.r0, rcon);
    XorAssoc(a.r1, t.r1, 0);
    XorAssoc(a.r2, t.r2, 0);
    XorAssoc(a.r3, t.r3, 0);
  }

  method XorHead(key: array<bv8>, rcon: bv8)
    requires key.Length == 16
    modifies key
    ensures ColAt(key[..], 0) == XorCol(old(ColAt(key[..], 0)), Col(rcon, 0, 0, 0))
    ensures forall j :: 4 <= j < 16 ==> key[j] == old(key[j])
  {
    hide Xor;
    XorZero(key[1]);
    XorZero(key[2]);
    XorZero(key[3]);
    key[0] := Xor(key[0], rcon);
  }

  /** next_key with its round constant. */
  method NextKeyInPlace(key: array<bv8>, rcon: bv8)
    requires key.Length == 16
    modifies key
    ensures FromBytes(key[..]) == NextKey(old(FromBytes(key[..])), rcon)
  {
    hide XorCol, SboxTable, Xor;
    ghost var k := FromBytes(key[..]);
    var sboxKey := [SboxTable(key[13]), SboxTable(key[14]), SboxTable(key[15]), SboxTable(key[12])];
    assert ColAt(sboxKey, 0) == SubCol(RotWord(k.c3));
    Xor32At(key, 0, sboxKey);
    XorHead(key, rcon);
    XorRcon(k.c0, ColAt(sboxKey, 0), rcon);
    ghost var n := NextKey(k, rcon);
    assert ColAt(key[..], 0) == n.c0;
    ChainKey(key, 4, k.c1);
    ChainKey(key, 8, k.c2);
    ChainKey(key, 12, k.c3);
  }

  /** xor_32(&key[off], &key[off-4], &key[off]) */
  method ChainKey(key: array<bv8>, off: nat, ghost c: Col)
    requires key.Length == 16 && 4 <= off <= 12 && ColAt(key[..], off) == c
    modifies key
    ensures ColAt(key[..], off) == XorCol(c, ColAt(key[..], off - 4))
    ensures forall j :: 0 <= j < 16 && !(off <= j < off + 4) ==> key[j] == old(key[j])
  {
    hide XorCol;
    var b := key[off - 4..off];
    assert ColAt(b, 0) == ColAt(key[..], off - 4);
    Xor32At(key, off, b);
  }

  method RconFor(round: nat) returns (b: bv8)
    requires round < 10
    ensures b == Rcon(round + 1)
  {
    var rcons: seq<bv8> := [0x01, 0x02, 0x04, 0x08, 0x10, 0x20, 0x40, 0x80, 0x1b, 0x36, 0x36, 0x36];
    b := rcons[round];
    RconTable(round, b);
  }

  /** aes128k128d */
  method Encrypt(key: array<bv8>, data: array<bv8>, ciphertext: array<bv8>)
    requires key.Length == data.Length == ciphertext.Length == 16
    modifies ciphertext
    ensures FromBytes(ciphertext[..]) == Cipher(old(FromBytes(key[..])), old(FromBytes(data[..])))
  {
    hide FromBytes, AddRoundKey, SubBytes, ShiftRows, MixColumns, NextKey, Rcon;
    ghost var k, d := FromBytes(key[..]), FromBytes(data[..]);
    var ia, ib, roundKey := new bv8[16], new bv8[16], new bv8[16];
    for i := 0 to 16
      invariant forall j :: 0 <= j < i ==> roundKey[j] == key[j]
      invariant key[..] == old(key[..]) && data[..] == old(data[..])
    {
      roundKey[i] := key[i];
    }
    assert roundKey[..] == key[..];
    for round := 0 to 11
      invariant round < 11 ==> FromBytes(roundKey[..]) == RoundKey(k, round)
      invariant round == 0 ==> data[..] == old(data[..])
      invariant 0 < round < 11 ==> FromBytes(ciphertext[..]) == Rounds(k, d, round - 1)
      invariant round == 11 ==> FromBytes(ciphertext[..]) == Cipher(k, d)
    {
      if round == 0 {
        Xor128(data, roundKey, ciphertext);
        var rcon := RconFor(round);
        NextKeyInPlace(roundKey, rcon);
      } else if round == 10 {
        ByteSub(ciphertext, ia);
        ShiftRow(ia, ib);
        Xor128(ib, roundKey, ciphertext);
      } else {
        ByteSub(ciphertext, ia);
        ShiftRow(ia, ib);
        MixAll(ib, ia);
        Xor128(ia, roundKey, ciphertext);
        var rcon := RconFor(round);
        NextKeyInPlace(roundKey, rcon);
      }
    }
  }

  /** The four mix_column calls of a round. */
  method MixAll(inp: array<bv8>, out: array<bv8>)
    requires inp.Length == out.Length == 16 && inp != out
    modifies out
    ensures FromBytes(out[..]) == MixColumns(FromBytes(inp[..]))
  {
    hide MixColumn;
    MixColumnAt(inp, out, 0);
    MixColumnAt(inp, out, 4);
    MixColumnAt(inp, out, 8);
    MixColumnAt(inp, out, 12);
  }
}
