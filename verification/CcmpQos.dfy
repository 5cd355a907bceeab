/** When RTMPSoftDecryptAES opens a QoS frame as RFC 3610 prescribes. The code does not count the QoS
    control field, and reads the priority from a byte that its own plaintext overwrites. */
module CcmpQos {
  import opened Aes
  import opened AesInjective
  import opened BlockCipher
  import opened Ccm
  import opened Ccmp

  /** Two priorities give different bytes in every whole block. */
  lemma StreamsDiffer(e: Block, f: Bytes, h: nat, len: nat, q: bv8, r: bv8, i: nat)
    requires Keeps16(e) && Injective(e) && 24 <= h && h + 16 + len <= |f| && q != r && 16 * i + 16 <= len
    ensures Stream(e, f, h, len, q)[16 * i..16 * i + 16] != Stream(e, f, h, len, r)[16 * i..16 * i + 16]
  {
    hide PacketNumber, Reversed6, XorBytes, Ctr, Two;
    var pn, c := PacketNumber(f, h), f[h + 8..h + 8 + len];
    var x, y := CounterBlock(Nonce(f, h, q, pn), i + 1), CounterBlock(Nonce(f, h, r, pn), i + 1);
    CtrPiece(e, Nonce(f, h, q, pn), c, i, 16);
    CtrPiece(e, Nonce(f, h, r, pn), c, i, 16);
    XorBytesTwice(e(x)[..16], c[16 * i..16 * i + 16]);
    XorBytesTwice(e(y)[..16], c[16 * i..16 * i + 16]);
    assert x[1] == q && y[1] == r;
    assert e(x)[..16] == e(x) && e(y)[..16] == e(y);
  }

  /** The message is that of counter mode under a priority exactly if both priorities read are that
      one. */
  lemma MessageIff(e: Block, f: Bytes, qc: bool, h: nat, len: nat, q: bv8)
    requires Keeps16(e) && Injective(e) && 24 <= h && h + 16 + len <= |f| && len >= 32
    ensures Plain(e, f, qc, h, len) == Stream(e, f, h, len, q) <==>
            QosNibble(f, qc, h) == q && Later(e, f, qc, h, len) == q
  {
    hide Stream, QosNibble, Later, Keeps16, Injective, Plain;
    FirstBlock(e, f, qc, h, len, q);
    PlainPiece(e, f, qc, h, len, 1, 16);
    if Later(e, f, qc, h, len) != q {
      StreamsDiffer(e, f, h, len, Later(e, f, qc, h, len), q, 1);
    } else if QosNibble(f, qc, h) == q {
      PlainOne(e, f, qc, h, len, q);
    }
  }

  /** One whole block is enough for the first of them. */
  lemma FirstBlock(e: Block, f: Bytes, qc: bool, h: nat, len: nat, q: bv8)
    requires Keeps16(e) && Injective(e) && 24 <= h && h + 16 + len <= |f| && len >= 16
    ensures Plain(e, f, qc, h, len) == Stream(e, f, h, len, q) ==> QosNibble(f, qc, h) == q
  {
    hide Stream, QosNibble, Later, Keeps16, Injective, Plain;
    PlainPiece(e, f, qc, h, len, 0, 16);
    if QosNibble(f, qc, h) != q {
      StreamsDiffer(e, f, h, len, QosNibble(f, qc, h), q, 0);
    }
  }

  lemma PlainOne(e: Block, f: Bytes, qc: bool, h: nat, len: nat, q: bv8)
    requires Keeps16(e) && 24 <= h && h + 16 + len <= |f|
    requires QosNibble(f, qc, h) == q && Later(e, f, qc, h, len) == q
    ensures Plain(e, f, qc, h, len) == Stream(e, f, h, len, q)
  {
    hide Stream, QosNibble, Later, Keeps16;
  }

  /** Under the priority in the frame: exactly if the plaintext's first byte repeats it. */
  lemma OwnPriorityIff(e: Block, f: Bytes, qc: bool, h: nat, len: nat)
    requires Keeps16(e) && Injective(e) && 24 <= h && h + 16 + len <= |f| && len >= 32
    ensures var q := QosNibble(f, qc, h);
            Plain(e, f, qc, h, len) == Stream(e, f, h, len, q) <==> Later(e, f, qc, h, len) == q
  {
    hide Stream, QosNibble, Later, Keeps16, Injective, Plain;
    MessageIff(e, f, qc, h, len, QosNibble(f, qc, h));
  }

  lemma MessageOf(e: Block, f: Bytes, a4: bool, qc: bool, h: nat, len: nat, d: Bytes, ok: bool)
    requires Keeps16(e) && h == (if a4 then 30 else 24) && h + 16 + len <= |f| && Opens(e, f, a4, qc, h, len, d, ok)
    requires OpensCcm(e, f, h, len, d, ok)
    ensures Plain(e, f, qc, h, len) == Stream(e, f, h, len, 0)
  {
    hide Plain, Ctr, Received, Expected, Seal, Keeps16, PacketNumber;
    assert d[h..h + len] == Plain(e, f, qc, h, len);
    assert d[h..h + len] == Stream(e, f, h, len, 0);
  }

  /** Decryption is that of RFC 3610 exactly if both priorities are zero, for messages of two blocks and
      more. */
  lemma CcmIff(e: Block, f: Bytes, a4: bool, qc: bool, h: nat, len: nat, d: Bytes, ok: bool)
    requires Keeps16(e) && Injective(e) && h == (if a4 then 30 else 24) && h + 16 + len <= |f| && len >= 32
    requires Opens(e, f, a4, qc, h, len, d, ok)
    ensures OpensCcm(e, f, h, len, d, ok) <==> QosNibble(f, qc, h) == 0 && Later(e, f, qc, h, len) == 0
  {
    hide Opens, OpensCcm, Plain, Stream, Later, QosNibble, Keeps16, Injective;
    if OpensCcm(e, f, h, len, d, ok) {
      MessageOf(e, f, a4, qc, h, len, d, ok);
      MessageIff(e, f, qc, h, len, 0);
    }
    if QosNibble(f, qc, h) == 0 && Later(e, f, qc, h, len) == 0 {
      OpensAsCcm(e, f, a4, qc, h, len, d, ok);
    }
  }

  /** A frame with a whole block and a priority other than zero is never opened as RFC 3610 prescribes. */
  lemma NeverCcm(e: Block, f: Bytes, a4: bool, qc: bool, h: nat, len: nat, d: Bytes, ok: bool)
    requires Keeps16(e) && Injective(e) && h == (if a4 then 30 else 24) && h + 16 + len <= |f| && len >= 16
    requires Opens(e, f, a4, qc, h, len, d, ok) && QosNibble(f, qc, h) != 0
    ensures !OpensCcm(e, f, h, len, d, ok)
  {
    hide Opens, OpensCcm, Plain, Stream, QosNibble, Keeps16, Injective;
    if OpensCcm(e, f, h, len, d, ok) {
      MessageOf(e, f, a4, qc, h, len, d, ok);
      FirstBlock(e, f, qc, h, len, 0);
    }
  }

  /** Shorter messages can agree by chance. Without a message, whatever the priorities: behind every
      header there is a tag that both refuse. */
  lemma EmptyMayAgree(e: Block, header: Bytes, a4: bool, qc: bool, h: nat)
    requires Keeps16(e) && h == (if a4 then 30 else 24) && |header| == h + 8
    ensures exists u: Bytes :: |u| == 8 && var f := header + u;
              Opens(e, f, a4, qc, h, 0, WithProtected(f), false) && OpensCcm(e, f, h, 0, WithProtected(f), false)
  {
    var zero := header + seq(8, _ => 0);
    var pn := PacketNumber(zero, h);
    var q := QosNibble(zero, qc, h);
    var v := Mask(e, Nonce(zero, h, q, pn), Expected(e, WithProtected(zero), a4, qc, h, 0, pn));
    var w := Seal(e, Nonce(zero, h, 0, pn), Aad(WithProtected(zero), h), []);
    var u := Third(v, w);
    BothRefuse(e, header, a4, qc, h, u, v, w);
  }

  /** Eight bytes other than two given ones. */
  lemma Third(v: Bytes, w: Bytes) returns (u: Bytes)
    ensures |u| == 8 && u != v && u != w
  {
    var a, b, c: Bytes := [0, 0, 0, 0, 0, 0, 0, 0], [1, 0, 0, 0, 0, 0, 0, 0], [2, 0, 0, 0, 0, 0, 0, 0];
    assert a[0] != b[0] && b[0] != c[0] && a[0] != c[0];
    u := if a != v && a != w then a else if b != v && b != w then b else c;
  }

  lemma BothRefuse(e: Block, header: Bytes, a4: bool, qc: bool, h: nat, u: Bytes, v: Bytes, w: Bytes)
    requires Keeps16(e) && h == (if a4 then 30 else 24) && |header| == h + 8 && |u| == 8
    requires var z := header + seq(8, _ => 0); var pn := PacketNumber(z, h);
             && v == Mask(e, Nonce(z, h, QosNibble(z, qc, h), pn), Expected(e, WithProtected(z), a4, qc, h, 0, pn))
             && w == Seal(e, Nonce(z, h, 0, pn), Aad(WithProtected(z), h), [])
    requires u != v && u != w
    ensures var f := header + u;
            Opens(e, f, a4, qc, h, 0, WithProtected(f), false) && OpensCcm(e, f, h, 0, WithProtected(f), false)
  {
    var f, z := header + u, header + seq(8, _ => 0);
    var pn := PacketNumber(z, h);
    SameHeader(f, z, qc, h);
    SameExpected(e, f, z, a4, qc, h, pn);
    hide Ctr, Tag, Mask, Expected, Seal, Aad, Nonce, QosNibble, PacketNumber, Keeps16, WithProtected;
    RefusedByCode(e, f, a4, qc, h, u);
    RefusedByCcm(e, f, h, u);
  }

  /** The tag does not enter into the tag computed. */
  lemma SameExpected(e: Block, f: Bytes, z: Bytes, a4: bool, qc: bool, h: nat, pn: Bytes)
    requires Keeps16(e) && h == (if a4 then 30 else 24) && |f| == |z| == h + 16 && f[..h + 8] == z[..h + 8] && |pn| == 6
    ensures Expected(e, WithProtected(f), a4, qc, h, 0, pn) == Expected(e, WithProtected(z), a4, qc, h, 0, pn)
    ensures forall q: bv8 :: Nonce(f, h, q, pn) == Nonce(z, h, q, pn)
    ensures Aad(WithProtected(f), h) == Aad(WithProtected(z), h)
  {
    hide CbcMac, Two, Padded, QosNibble, MutedFc, Keeps16, Reversed6, Aad;
    SameHeader(f, z, qc, h);
    var g, y := WithProtected(f), WithProtected(z);
    assert g[..h + 8] == y[..h + 8];
    SameHeader(g, y, qc, h);
    AadSame(g, y, h);
    SameBlocks(g, y, a4, qc, h);
    SameSlice(f, z, 10, 16);
    SameSlice(g, y, 10, 16);
    assert g[h..h + 0] == y[h..h + 0] == [];
  }

  lemma SameBlocks(g: Bytes, y: Bytes, a4: bool, qc: bool, h: nat)
    requires h == (if a4 then 30 else 24) && |g| == |y| == h + 16 && QosNibble(g, qc, h) == QosNibble(y, qc, h)
    requires forall j :: 0 <= j < h + 8 ==> g[j] == y[j]
    ensures MicHeader1(g, h) == MicHeader1(y, h) && MicHeader2(g, a4, qc, h) == MicHeader2(y, a4, qc, h)
  {
    hide QosNibble, Two;
    SameSlice(g, y, 4, 16);
    SameSlice(g, y, 16, 22);
    if a4 {
      SameSlice(g, y, 24, 30);
    }
  }

  lemma RefusedByCode(e: Block, f: Bytes, a4: bool, qc: bool, h: nat, u: Bytes)
    requires Keeps16(e) && h == (if a4 then 30 else 24) && |f| == h + 16 && u == f[h + 8..]
    requires var pn := PacketNumber(f, h);
             u != Mask(e, Nonce(f, h, QosNibble(f, qc, h), pn), Expected(e, WithProtected(f), a4, qc, h, 0, pn))
    ensures Opens(e, f, a4, qc, h, 0, WithProtected(f), false)
  {
    hide Stream, Nonce, Expected, PacketNumber, QosNibble, CounterBlock;
    var pn := PacketNumber(f, h);
    var nonce := Nonce(f, h, QosNibble(f, qc, h), pn);
    assert f[h + 8..h + 16] == u;
    XorBytesTwice(u, e(CounterBlock(nonce, 0))[..8]);
    assert Plain(e, f, qc, h, 0) == [];
    assert WithProtected(f) == WithProtected(f)[..h] + [] + f[h..];
  }

  lemma RefusedByCcm(e: Block, f: Bytes, h: nat, u: Bytes)
    requires Keeps16(e) && (h == 24 || h == 30) && |f| == h + 16 && u == f[h + 8..]
    requires u != Seal(e, Nonce(f, h, 0, PacketNumber(f, h)), Aad(WithProtected(f), h), [])
    ensures OpensCcm(e, f, h, 0, WithProtected(f), false)
  {
    hide Nonce, Seal, Aad, PacketNumber, Keeps16;
    var nonce := Nonce(f, h, 0, PacketNumber(f, h));
    assert Ctr(e, nonce, f[h + 8..h + 8 + 0]) == [];
    assert f[h + 8..h + 16] == u;
    assert WithProtected(f) == WithProtected(f)[..h] + [] + f[h..];
  }

  lemma SameHeader(f: Bytes, z: Bytes, qc: bool, h: nat)
    requires (h == 24 || h == 30) && |f| == |z| == h + 16 && f[..h + 8] == z[..h + 8]
    ensures PacketNumber(f, h) == PacketNumber(z, h) && QosNibble(f, qc, h) == QosNibble(z, qc, h)
    ensures forall j :: 0 <= j < h + 8 ==> f[j] == z[j]
  {
    assert forall j :: 0 <= j < h + 8 ==> f[j] == f[..h + 8][j] == z[j];
  }

  /** The same of the routine itself, with AES-128: for every key and every frame. */
  lemma DecryptedIff(f: Bytes, cnt: nat, keyLen: nat, key: Bytes, d: Bytes, ok: bool)
    requires |f| >= 2 && |key| == 16 && keyLen != 0 && HeaderLen(f[1]) + 48 <= cnt <= |f|
    requires Decrypted(f, cnt, keyLen, key, d, ok)
    ensures var e, h := Cipher16(key), HeaderLen(f[1]);
            var len := cnt - h - 16;
            OpensCcm(e, f, h, len, d, ok) <==>
            !HasQos(f[0]) || (f[h] & 0x0f == 0 && Later(e, f, true, h, len) == 0)
  {
    hide Opens, OpensCcm, Later, HasQos, HasA4, Aes128, FromBytes, Keeps16, Injective;
    Aes128Injective(FromBytes(key));
    var e, h := Cipher16(key), HeaderLen(f[1]);
    if HasQos(f[0]) {
      CcmIff(e, f, HasA4(f[1]), true, h, cnt - h - 16, d, ok);
    }
  }

  /** A QoS frame with a priority and a whole block is not opened as RFC 3610 prescribes, under any key. */
  lemma QosFrameFails(f: Bytes, cnt: nat, keyLen: nat, key: Bytes, d: Bytes, ok: bool)
    requires |f| >= 2 && |key| == 16 && keyLen != 0 && HeaderLen(f[1]) + 32 <= cnt <= |f|
    requires Decrypted(f, cnt, keyLen, key, d, ok) && HasQos(f[0]) && f[HeaderLen(f[1])] & 0x0f != 0
    ensures !OpensCcm(Cipher16(key), f, HeaderLen(f[1]), cnt - HeaderLen(f[1]) - 16, d, ok)
  {
    hide Opens, OpensCcm, HasQos, HasA4, Aes128, FromBytes, Keeps16, Injective;
    Aes128Injective(FromBytes(key));
    var h := HeaderLen(f[1]);
    NeverCcm(Cipher16(key), f, HasA4(f[1]), true, h, cnt - h - 16, d, ok);
  }
}
