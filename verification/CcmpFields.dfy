/** The fields of a protected frame as they enter counter and tag, in terms of the frame's own bytes. */
module CcmpFields {
  import opened BlockCipher
  import opened Ccm
  import opened Ccmp

  lemma Value2(a: bv8, b: bv8)
    ensures Value([a, b]) == 256 * a as int + b as int
  {
    ValueSnoc([], a);
    ValueSnoc([a], b);
    assert [] + [a] == [a] && [a] + [b] == [a, b];
  }

  lemma Value6(a: bv8, b: bv8, c: bv8, d: bv8, e: bv8, f: bv8)
    ensures Value([a, b, c, d, e, f])
            == f as int + 0x100 * e as int + 0x1_0000 * d as int + 0x100_0000 * c as int
               + 0x1_0000_0000 * b as int + 0x100_0000_0000 * a as int
  {
    hide Value;
    Value2(a, b);
    ValueSnoc([a, b], c);
    ValueSnoc([a, b, c], d);
    ValueSnoc([a, b, c, d], e);
    ValueSnoc([a, b, c, d, e], f);
    assert [a, b] + [c] == [a, b, c] && [a, b, c] + [d] == [a, b, c, d] && [a, b, c, d] + [e] == [a, b, c, d, e];
    assert [a, b, c, d, e] + [f] == [a, b, c, d, e, f];
    Horner(a as int, b as int, c as int, d as int, e as int, f as int);
  }

  lemma Horner(a: int, b: int, c: int, d: int, e: int, f: int)
    ensures 256 * (256 * (256 * (256 * (256 * a + b) + c) + d) + e) + f
            == f + 0x100 * e + 0x1_0000 * d + 0x100_0000 * c + 0x1_0000_0000 * b + 0x100_0000_0000 * a
  {
  }

  /** The length and counter fields are the number modulo 2^16, highest byte first. */
  lemma TwoIs(n: nat)
    ensures Value(Two(n)) == n % 0x1_0000
  {
    hide Value, ToByte;
    Value2(Two(n)[0], Two(n)[1]);
    ByteBack(n / 256 % 256);
    ByteBack(n % 256);
    LowHalf(n);
  }

  lemma LowHalf(n: nat)
    ensures 256 * (n / 256 % 256) + n % 256 == n % 0x1_0000
  {
  }

  // ------------------------------------------------------------- the nonce

  /** Little-endian in the CCMP header, with a reserved and a key-id byte after the lower two. */
  function PacketNumberOf(f: Bytes, h: nat): nat
    requires h + 8 <= |f|
  {
    f[h] as int + 0x100 * f[h + 1] as int + 0x1_0000 * f[h + 4] as int + 0x100_0000 * f[h + 5] as int
    + 0x1_0000_0000 * f[h + 6] as int + 0x100_0000_0000 * f[h + 7] as int
  }

  /** The nonce is priority, transmitter address and packet number, highest byte first. */
  lemma NonceIs(f: Bytes, h: nat, q: bv8)
    requires 24 <= h && h + 8 <= |f|
    ensures var n := Nonce(f, h, q, PacketNumber(f, h));
            n[0] == q && n[1..7] == f[10..16] && Value(n[7..]) == PacketNumberOf(f, h)
  {
    var n := Nonce(f, h, q, PacketNumber(f, h));
    assert n[7..] == [f[h + 7], f[h + 6], f[h + 5], f[h + 4], f[h + 1], f[h]];
    Value6(f[h + 7], f[h + 6], f[h + 5], f[h + 4], f[h + 1], f[h]);
  }

  /** The block the code encrypts for counter c: flags 1, priority, address, packet number, counter. */
  lemma CounterIs(f: Bytes, qc: bool, h: nat, c: nat)
    requires 24 <= h && h + 8 <= |f|
    ensures var b := CtrPreload(f, qc, h, PacketNumber(f, h), c);
            && b[0] == 0x01 && b[1] == (if qc then f[h] & 0x0f else 0) && b[2..8] == f[10..16]
            && Value(b[8..14]) == PacketNumberOf(f, h) && Value(b[14..]) == c % 0x1_0000
  {
    hide Two;
    var b := CtrPreload(f, qc, h, PacketNumber(f, h), c);
    assert b[8..14] == [f[h + 7], f[h + 6], f[h + 5], f[h + 4], f[h + 1], f[h]];
    Value6(f[h + 7], f[h + 6], f[h + 5], f[h + 4], f[h + 1], f[h]);
    assert b[14..] == Two(c);
    TwoIs(c);
  }

  /** The block the code starts the MIC with: flags 0x59, and the length in place of the counter. */
  lemma MicIvIs(f: Bytes, qc: bool, h: nat, len: nat)
    requires 24 <= h && h + 8 <= |f|
    ensures var b := MicIv(f, qc, h, PacketNumber(f, h), len);
            && b[0] == 0x59 && b[1] == (if qc then f[h] & 0x0f else 0) && b[2..8] == f[10..16]
            && Value(b[8..14]) == PacketNumberOf(f, h) && Value(b[14..]) == len % 0x1_0000
  {
    hide Two;
    var b := MicIv(f, qc, h, PacketNumber(f, h), len);
    assert b[8..14] == [f[h + 7], f[h + 6], f[h + 5], f[h + 4], f[h + 1], f[h]];
    Value6(f[h + 7], f[h + 6], f[h + 5], f[h + 4], f[h + 1], f[h]);
    assert b[14..] == Two(len);
    TwoIs(len);
  }

  /** Two frames share a nonce exactly if they have the same transmitter and packet number (and are given the
      same priority). */
  lemma NonceInjective(f: Bytes, g: Bytes, h: nat, q: bv8, r: bv8)
    requires 24 <= h && h + 8 <= |f| && h + 8 <= |g|
    ensures Nonce(f, h, q, PacketNumber(f, h)) == Nonce(g, h, r, PacketNumber(g, h)) <==>
            q == r && f[10..16] == g[10..16] && PacketNumberOf(f, h) == PacketNumberOf(g, h)
  {
    var m, n := Nonce(f, h, q, PacketNumber(f, h)), Nonce(g, h, r, PacketNumber(g, h));
    NonceIs(f, h, q);
    NonceIs(g, h, r);
    if m[7..] != n[7..] && PacketNumberOf(f, h) == PacketNumberOf(g, h) {
      ValueInjective(m[7..], n[7..]);
    }
    assert m == [m[0]] + m[1..7] + m[7..] && n == [n[0]] + n[1..7] + n[7..];
  }

  lemma {:induction false} ValueInjective(a: Bytes, b: Bytes)
    requires |a| == |b| && Value(a) == Value(b)
    ensures a == b
  {
    if a == [] {
    } else {
      var i := |a| - 1;
      LastDigit(Value(a[..i]), Value(b[..i]), a[i] as int, b[i] as int);
      ValueInjective(a[..i], b[..i]);
      SameByte(a[i], b[i]);
      assert a == a[..i] + [a[i]] && b == b[..i] + [b[i]];
    }
  }

  lemma LastDigit(x: nat, y: nat, c: nat, d: nat)
    requires 256 * x + c == 256 * y + d && c < 256 && d < 256
    ensures x == y && c == d
  {
  }

  lemma SameByte(a: bv8, b: bv8)
    requires a as int == b as int
    ensures a == b
  {
  }

  // ------------------------------------------------------------- the additional data

  /** The frame control bits that count: all but the lower two of the subtype's three upper bits (CF poll and
      CF ack), and in the second byte all but retry, power management and more data. */
  predicate SameControl(f: Bytes, g: Bytes)
    requires |f| >= 2 && |g| >= 2
  {
    f[0] | 0x30 == g[0] | 0x30 && f[1] | 0x38 == g[1] | 0x38
  }

  lemma MutedBits(a: bv8, b: bv8)
    ensures a & 0xcf == b & 0xcf <==> a | 0x30 == b | 0x30
    ensures a & 0xc7 == b & 0xc7 <==> a | 0x38 == b | 0x38
    ensures a & 0x0f == b & 0x0f <==> a | 0xf0 == b | 0xf0
  {
  }

  /** The additional data of two frames agree exactly if their frame control agrees in the bits that count,
      their addresses are the same, and so are their fragment numbers: duration and sequence number do not
      enter. */
  lemma AadIff(f: Bytes, g: Bytes, h: nat)
    requires (h == 24 || h == 30) && h <= |f| && h <= |g|
    ensures Aad(f, h) == Aad(g, h) <==>
            && SameControl(f, g) && f[4..16] == g[4..16] && f[16..22] == g[16..22]
            && f[22] | 0xf0 == g[22] | 0xf0 && f[24..h] == g[24..h]
  {
    hide Aad;
    AadParts(f, h);
    AadParts(g, h);
    MutedBits(f[0], g[0]);
    MutedBits(f[1], g[1]);
    MutedBits(f[22], g[22]);
    Parts(Aad(f, h), Aad(g, h));
  }

  lemma Parts(a: Bytes, b: Bytes)
    requires |a| == |b| >= 22
    ensures a == b <==> a[0] == b[0] && a[1] == b[1] && a[2..14] == b[2..14] && a[14..20] == b[14..20] &&
                        a[20] == b[20] && a[21] == b[21] && a[22..] == b[22..]
  {
    assert a == [a[0], a[1]] + a[2..14] + a[14..20] + [a[20], a[21]] + a[22..];
    assert b == [b[0], b[1]] + b[2..14] + b[14..20] + [b[20], b[21]] + b[22..];
  }

  lemma AadParts(f: Bytes, h: nat)
    requires (h == 24 || h == 30) && h <= |f|
    ensures var a := Aad(f, h);
            && a[0] == f[0] & 0xcf && a[1] == f[1] & 0xc7 && a[2..14] == f[4..16] && a[14..20] == f[16..22]
            && a[20] == f[22] & 0x0f && a[21] == 0 && a[22..] == f[24..h]
  {
  }

  // ------------------------------------------------------------- flags

  /** Four addresses exactly with both distribution-system bits; QoS exactly for the subtypes 10xx; the key id
      is the top two bits. */
  lemma FlagsAre(b: bv8)
    ensures HasA4(b) <==> b & 0x03 == 0x03
    ensures HasQos(b) <==> b & 0xc0 == 0x80
    ensures HeaderLen(b) == if b & 0x03 == 0x03 then 30 else 24
  {
  }

  lemma KeyIdIs(b: bv8)
    ensures KeyId(b) == b as int / 64
  {
    var x := b >> 6;
    assert x == 0 || x == 1 || x == 2 || x == 3;
    assert x == 0 ==> b < 64;
    assert x == 1 ==> 64 <= b < 128;
    assert x == 2 ==> 128 <= b < 192;
    assert x == 3 ==> 192 <= b;
  }
}
