/** Counter with CBC-MAC, sections 2.2 and 2.3 of RFC 3610, for an 8-byte tag and a 2-byte length
    field. */
module Ccm {
  import opened AesTables
  import opened BlockCipher

  /** Two bytes of a number, high byte first. */
  function Two(n: nat): (b: Bytes)
    ensures |b| == 2
  {
    [ToByte(n / 256 % 256), ToByte(n % 256)]
  }

  /** A_i */
  function CounterBlock(nonce: Bytes, i: nat): (b: Bytes)
    requires |nonce| == 13
    ensures |b| == 16
  {
    [0x01] + nonce + Two(i)
  }

  /** Encryption with the key stream S_1, S_2, ...; its own inverse. */
  ghost function Ctr(e: Block, nonce: Bytes, d: Bytes): (c: Bytes)
    requires Keeps16(e) && |nonce| == 13
    ensures |c| == |d|
  {
    seq(|d|, k requires 0 <= k < |d| => Xor(d[k], e(CounterBlock(nonce, k / 16 + 1))[k % 16]))
  }

  lemma CtrTwice(e: Block, nonce: Bytes, d: Bytes)
    requires Keeps16(e) && |nonce| == 13
    ensures Ctr(e, nonce, Ctr(e, nonce, d)) == d
  {
    hide Xor, CounterBlock;
    forall k | 0 <= k < |d|
      ensures Ctr(e, nonce, Ctr(e, nonce, d))[k] == d[k]
    {
      XorTwice(d[k], e(CounterBlock(nonce, k / 16 + 1))[k % 16]);
    }
  }

  /** CBC-MAC from x over whole 16-byte blocks. */
  ghost function CbcMac(e: Block, x: Bytes, b: Bytes): (y: Bytes)
    requires Keeps16(e) && |x| == 16
    ensures |y| == 16
    decreases |b|
  {
    if |b| < 16 then x else CbcMac(e, e(XorBytes(x, b[..16])), b[16..])
  }

  lemma {:induction false} MacAppend(e: Block, x: Bytes, a: Bytes, b: Bytes)
    requires Keeps16(e) && |x| == 16 && |a| % 16 == 0
    ensures CbcMac(e, x, a + b) == CbcMac(e, CbcMac(e, x, a), b)
    decreases |a|
  {
    hide XorBytes;
    if a == [] {
      assert a + b == b;
    } else {
      assert (a + b)[..16] == a[..16] && (a + b)[16..] == a[16..] + b;
      MacAppend(e, e(XorBytes(x, a[..16])), a[16..], b);
    }
  }

  lemma MacOne(e: Block, x: Bytes, b: Bytes)
    requires Keeps16(e) && |x| == |b| == 16
    ensures CbcMac(e, x, b) == e(XorBytes(x, b))
  {
    hide XorBytes;
    assert b[..16] == b && b[16..] == [];
    assert CbcMac(e, e(XorBytes(x, b)), []) == e(XorBytes(x, b));
  }

  /** Zero bytes up to a multiple of 16. */
  function Padded(m: Bytes): (p: Bytes)
    ensures |p| % 16 == 0
  {
    m + seq((16 - |m| % 16) % 16, _ => 0)
  }

  /** T: the first eight bytes of the CBC-MAC over B_0, the length and additional data, the message. */
  ghost function Tag(e: Block, nonce: Bytes, aad: Bytes, m: Bytes): (t: Bytes)
    requires Keeps16(e) && |nonce| == 13
    ensures |t| == 8
  {
    var first := [0x59] + nonce + Two(|m|);
    CbcMac(e, e(first), Padded(Two(|aad|) + aad) + Padded(m))[..8]
  }

  /** U: a tag under S_0; its own inverse. */
  ghost function Mask(e: Block, nonce: Bytes, t: Bytes): (u: Bytes)
    requires Keeps16(e) && |nonce| == 13 && |t| == 8
    ensures |u| == 8
  {
    XorBytes(t, e(CounterBlock(nonce, 0))[..8])
  }

  /** The encrypted message followed by the encrypted tag. */
  ghost function Seal(e: Block, nonce: Bytes, aad: Bytes, m: Bytes): (c: Bytes)
    requires Keeps16(e) && |nonce| == 13
    ensures |c| == |m| + 8
  {
    Ctr(e, nonce, m) + Mask(e, nonce, Tag(e, nonce, aad, m))
  }

  /** A body carries its message's tag exactly when it is the sealed form of that message. */
  lemma OpenExact(e: Block, nonce: Bytes, aad: Bytes, c: Bytes, u: Bytes)
    requires Keeps16(e) && |nonce| == 13 && |u| == 8
    ensures var m := Ctr(e, nonce, c);
            Mask(e, nonce, u) == Tag(e, nonce, aad, m) <==> c + u == Seal(e, nonce, aad, m)
  {
    hide Ctr, Tag, CounterBlock;
    var m := Ctr(e, nonce, c);
    var t := Tag(e, nonce, aad, m);
    CtrTwice(e, nonce, c);
    XorBytesTwice(t, e(CounterBlock(nonce, 0))[..8]);
    XorBytesTwice(u, e(CounterBlock(nonce, 0))[..8]);
    if c + u == Seal(e, nonce, aad, m) {
      assert u == (c + u)[|c|..] == Mask(e, nonce, t);
    }
  }

  /** Opening the sealed form of m gives m. */
  lemma SealedOpens(e: Block, nonce: Bytes, aad: Bytes, m: Bytes)
    requires Keeps16(e) && |nonce| == 13
    ensures Ctr(e, nonce, Seal(e, nonce, aad, m)[..|m|]) == m
  {
    hide Ctr, Tag;
    assert Seal(e, nonce, aad, m)[..|m|] == Ctr(e, nonce, m);
    CtrTwice(e, nonce, m);
  }
}

/** RTMPSoftDecryptAES of common/rtmp_tkip.c. */
module Ccmp {
  import opened Aes
  import AesBytewise
  import opened AesTables
  import opened BlockCipher
  import opened Ccm
  import opened Sequences

  // ------------------------------------------------------------- fields of the frame

  /** from_ds & to_ds */
  predicate HasA4(fc1: bv8) { ((fc1 & 2) >> 1) & (fc1 & 1) == 1 }

  /** The subtypes 8 to 11. */
  predicate HasQos(fc0: bv8) {
    var s := (fc0 >> 4) & 0x0f;
    s == 0x08 || s == 0x09 || s == 0x0a || s == 0x0b
  }

  /** HeaderLen: a QoS control field is not counted. */
  function HeaderLen(fc1: bv8): nat { if HasA4(fc1) then 30 else 24 }

  function PacketNumber(f: Bytes, h: nat): (pn: Bytes)
    requires h + 8 <= |f|
    ensures |pn| == 6
  {
    [f[h], f[h + 1], f[h + 4], f[h + 5], f[h + 6], f[h + 7]]
  }

  function Reversed6(pn: Bytes): (r: Bytes)
    requires |pn| == 6
    ensures |r| == 6
  {
    [pn[5], pn[4], pn[3], pn[2], pn[1], pn[0]]
  }

  function QosNibble(f: Bytes, qc: bool, h: nat): bv8
    requires h < |f|
  {
    if qc then f[h] & 0x0f else 0
  }

  /** construct_ctr_preload; the QoS byte is the one right after the header of length h. */
  function CtrPreload(f: Bytes, qc: bool, h: nat, pn: Bytes, c: nat): (b: Bytes)
    requires 24 <= h < |f| && |pn| == 6
    ensures |b| == 16
  {
    [0x01, QosNibble(f, qc, h)] + f[10..16] + Reversed6(pn) + Two(c)
  }

  /** construct_mic_iv */
  function MicIv(f: Bytes, qc: bool, h: nat, pn: Bytes, len: nat): (b: Bytes)
    requires 24 <= h < |f| && |pn| == 6
    ensures |b| == 16
  {
    [0x59, QosNibble(f, qc, h)] + f[10..16] + Reversed6(pn) + Two(len)
  }

  function MutedFc(f: Bytes): (b: Bytes)
    requires |f| >= 2
    ensures |b| == 2
  {
    [f[0] & 0xcf, f[1] & 0xc7]
  }

  /** construct_mic_header1 */
  function MicHeader1(f: Bytes, h: nat): (b: Bytes)
    requires 24 <= h < |f|
    ensures |b| == 16
  {
    Two(h - 2) + MutedFc(f) + f[4..16]
  }

  /** construct_mic_header2 */
  function MicHeader2(f: Bytes, a4: bool, qc: bool, h: nat): (b: Bytes)
    requires h < |f| && h == if a4 then 30 else 24
    ensures |b| == 16
  {
    f[16..22] + [f[22] & 0x0f, 0] +
    (if a4 then f[24..30] + [QosNibble(f, qc, h), 0] else [QosNibble(f, qc, h), 0, 0, 0, 0, 0, 0, 0])
  }

  // ------------------------------------------------------------- what the standard calls them

  /** A priority, the transmitter address, the packet number from its highest byte. */
  function Nonce(f: Bytes, h: nat, q: bv8, pn: Bytes): (n: Bytes)
    requires 24 <= h <= |f| && |pn| == 6
    ensures |n| == 13
  {
    [q] + f[10..16] + Reversed6(pn)
  }

  /** The muted frame control field, the addresses and the fragment number. */
  function Aad(f: Bytes, h: nat): (a: Bytes)
    requires |f| >= h && (h == 24 || h == 30)
    ensures |a| == h - 2
  {
    MutedFc(f) + f[4..16] + f[16..22] + [f[22] & 0x0f, 0] + f[24..h]
  }

  /** The two header blocks are the padded length and additional data, if the QoS nibble is zero, as
      it is for a frame that is not a QoS frame. */
  lemma HeaderBlocks(f: Bytes, a4: bool, qc: bool, h: nat)
    requires h < |f| && h == (if a4 then 30 else 24) && QosNibble(f, qc, h) == 0
    ensures Padded(Two(h - 2) + Aad(f, h)) == MicHeader1(f, h) + MicHeader2(f, a4, qc, h)
  {
    hide Two, MutedFc, Padded, QosNibble;
    var x := Two(h - 2) + Aad(f, h);
    PaddedBy(x, if a4 then 2 else 8);
    if a4 {
      FourAddresses(f, qc);
    } else {
      ThreeAddresses(f, qc);
    }
  }

  lemma PaddedBy(x: Bytes, n: nat)
    requires (|x| + n) % 16 == 0 && n < 16
    ensures Padded(x) == x + seq(n, _ => 0)
  {
  }

  lemma FourAddresses(f: Bytes, qc: bool)
    requires |f| > 30 && QosNibble(f, qc, 30) == 0
    ensures Two(28) + Aad(f, 30) + seq(2, _ => 0) == MicHeader1(f, 30) + MicHeader2(f, true, qc, 30)
  {
    hide Two, MutedFc, QosNibble;
  }

  lemma ThreeAddresses(f: Bytes, qc: bool)
    requires |f| > 24 && QosNibble(f, qc, 24) == 0
    ensures Two(22) + Aad(f, 24) + seq(8, _ => 0) == MicHeader1(f, 24) + MicHeader2(f, false, qc, 24)
  {
    hide Two, MutedFc, QosNibble;
  }

  /** aes128k128d */
  method Encrypt(key: array<bv8>, block: Bytes) returns (out: Bytes)
    requires key.Length == 16 && |block| == 16
    ensures out == Aes128(FromBytes(key[..]))(block) && |out| == 16
  {
    hide FromBytes, Cipher, ToBytes;
    var data, o := new bv8[16], new bv8[16];
    Copy(data, 0, block);
    assert data[..] == block;
    AesBytewise.Encrypt(key, data, o);
    out := o[..];
    BytesRoundTrip(out, Cipher(FromBytes(key[..]), FromBytes(block)));
  }

  // ------------------------------------------------------------- the payload

  lemma CtrPiece(e: Block, nonce: Bytes, c: Bytes, i: nat, n: nat)
    requires Keeps16(e) && |nonce| == 13 && n <= 16 && 16 * i + n <= |c|
    ensures Ctr(e, nonce, c)[16 * i..16 * i + n] == XorBytes(e(CounterBlock(nonce, i + 1))[..n], c[16 * i..16 * i + n])
  {
    hide Xor, CounterBlock;
    var out := e(CounterBlock(nonce, i + 1));
    forall j | 0 <= j < n
      ensures Ctr(e, nonce, c)[16 * i + j] == Xor(out[j], c[16 * i + j])
    {
      assert (16 * i + j) / 16 == i && (16 * i + j) % 16 == j;
      XorComm(c[16 * i + j], out[j]);
    }
  }

  /** The bytes before h and from h + len on are those of f. */
  ghost predicate Outside(data: Bytes, f: Bytes, h: nat, len: nat) {
    |data| == |f| && forall j :: 0 <= j < |f| && !(h <= j < h + len) ==> data[j] == f[j]
  }

  ghost function Cipher16(key: Bytes): (e: Block)
    requires |key| == 16
    ensures Keeps16(e)
  {
    Aes128Keeps(FromBytes(key));
    Aes128(FromBytes(key))
  }

  /** The payload of len bytes behind the CCMP header of f in counter mode under priority q. */
  ghost function Stream(e: Block, f: Bytes, h: nat, len: nat, q: bv8): (p: Bytes)
    requires Keeps16(e) && 24 <= h && h + 16 + len <= |f|
    ensures |p| == len
  {
    Ctr(e, Nonce(f, h, q, PacketNumber(f, h)), f[h + 8..h + 8 + len])
  }

  /** The priority after the first block: the plaintext has then replaced the byte it is read from. */
  ghost function Later(e: Block, f: Bytes, qc: bool, h: nat, len: nat): bv8
    requires Keeps16(e) && 24 <= h && h + 16 + len <= |f|
  {
    var q := QosNibble(f, qc, h);
    if qc && len > 0 then Stream(e, f, h, len, q)[0] & 0x0f else q
  }

  /** The decrypted payload: the first block under the priority in the frame, the rest under the later
      one. They differ only in QoS frames. */
  ghost function Plain(e: Block, f: Bytes, qc: bool, h: nat, len: nat): (p: Bytes)
    requires Keeps16(e) && 24 <= h && h + 16 + len <= |f|
    ensures |p| == len
  {
    var n := if len < 16 then len else 16;
    Stream(e, f, h, len, QosNibble(f, qc, h))[..n] + Stream(e, f, h, len, Later(e, f, qc, h, len))[n..]
  }

  /** The tag that follows the payload of f, decrypted. */
  ghost function Received(e: Block, f: Bytes, qc: bool, h: nat, len: nat): (t: Bytes)
    requires Keeps16(e) && 24 <= h && h + 16 + len <= |f|
    ensures |t| == 8
  {
    Mask(e, Nonce(f, h, Later(e, f, qc, h, len), PacketNumber(f, h)), f[h + 8 + len..h + 16 + len])
  }

  /** The tag of a frame whose decrypted payload follows its header: CBC-MAC over the header blocks
      and the payload. */
  ghost function Expected(e: Block, d: Bytes, a4: bool, qc: bool, h: nat, len: nat, pn: Bytes): (t: Bytes)
    requires Keeps16(e) && h == (if a4 then 30 else 24) && h + 16 + len <= |d| && |pn| == 6
    ensures |t| == 8
  {
    var first := [0x59] + Nonce(d, h, QosNibble(d, qc, h), pn) + Two(len);
    CbcMac(e, e(first), MicHeader1(d, h) + MicHeader2(d, a4, qc, h) + Padded(d[h..h + len]))[..8]
  }

  /** While the payload is being decrypted, the priority read is that of the next block. */
  lemma LaterRead(e: Block, f: Bytes, qc: bool, h: nat, len: nat, d: Bytes, k: nat)
    requires Keeps16(e) && 24 <= h && h + 16 + len <= |f| && k <= len && Outside(d, f, h, k)
    requires d[h..h + k] == Plain(e, f, qc, h, len)[..k]
    ensures k > 0 || len == 0 ==> QosNibble(d, qc, h) == Later(e, f, qc, h, len)
    ensures k == 0 ==> QosNibble(d, qc, h) == QosNibble(f, qc, h)
  {
    hide Stream;
    if k > 0 {
      assert d[h] == d[h..h + k][0] == Plain(e, f, qc, h, len)[..k][0];
    }
  }

  /** The priority of the i-th block. */
  ghost function Priority(e: Block, f: Bytes, qc: bool, h: nat, len: nat, i: nat): bv8
    requires Keeps16(e) && 24 <= h && h + 16 + len <= |f|
  {
    if i == 0 then QosNibble(f, qc, h) else Later(e, f, qc, h, len)
  }

  lemma PriorityRead(e: Block, f: Bytes, qc: bool, h: nat, len: nat, d: Bytes, i: nat)
    requires Keeps16(e) && 24 <= h && h + 16 + len <= |f| && 16 * i < len && Outside(d, f, h, 16 * i)
    requires d[h..h + 16 * i] == Plain(e, f, qc, h, len)[..16 * i]
    ensures QosNibble(d, qc, h) == Priority(e, f, qc, h, len, i)
  {
    hide Plain, Later, QosNibble, Outside, Keeps16;
    LaterRead(e, f, qc, h, len, d, 16 * i);
  }

  lemma PlainPiece(e: Block, f: Bytes, qc: bool, h: nat, len: nat, i: nat, n: nat)
    requires Keeps16(e) && 24 <= h && h + 16 + len <= |f| && 16 * i + n <= len && n <= 16
    ensures var q := Priority(e, f, qc, h, len, i);
            Plain(e, f, qc, h, len)[16 * i..16 * i + n] == Stream(e, f, h, len, q)[16 * i..16 * i + n]
  {
    hide Stream, QosNibble, Later;
    var p, q := Plain(e, f, qc, h, len), Priority(e, f, qc, h, len, i);
    var s := Stream(e, f, h, len, q);
    assert i == 0 ==> forall j :: 0 <= j < n ==> p[j] == s[j];
    assert i > 0 ==> forall j :: 16 <= j < len ==> p[j] == s[j];
    SameSlice(p, s, 16 * i, 16 * i + n);
  }

  /** One block: n bytes at h + 8 + 16 * i are decrypted to eight bytes earlier. */
  method DecryptBlock(data: array<bv8>, h: nat, i: nat, n: nat, len: nat, qc: bool, pn: Bytes, key: array<bv8>,
      ghost f: Bytes)
    requires key.Length == 16 && data != key && 24 <= h && 16 * i + n <= len && n <= 16 && h + 16 + len <= data.Length
    requires |f| == data.Length && pn == PacketNumber(f, h) && Outside(data[..], f, h, 16 * i)
    requires QosNibble(data[..], qc, h) == Priority(Cipher16(key[..]), f, qc, h, len, i)
    modifies data
    ensures Outside(data[..], f, h, 16 * i + n)
    ensures data[h..h + 16 * i] == old(data[h..h + 16 * i])
    ensures data[h + 16 * i..h + 16 * i + n] == Plain(Cipher16(key[..]), f, qc, h, len)[16 * i..16 * i + n]
  {
    hide FromBytes, Aes128, Ctr, XorBytes, Two, Reversed6, PacketNumber, QosNibble, Priority, Plain, Outside;
    ghost var e, d := Cipher16(key[..]), data[..];
    ghost var q := Priority(e, f, qc, h, len, i);
    var ctr := CtrPreload(data[..], qc, h, pn, i + 1);
    Ahead(d, f, h, len, i, n);
    assert ctr == CounterBlock(Nonce(f, h, q, pn), i + 1);
    var out := Encrypt(key, ctr);
    CipherIs(key[..]);
    var at := h + 8 + 16 * i;
    var chain := XorBytes(out[..n], data[at..at + n]);
    CtrPiece(e, Nonce(f, h, q, pn), f[h + 8..h + 8 + len], i, n);
    PlainPiece(e, f, qc, h, len, i, n);
    Copy(data, at - 8, chain);
    Behind(d, data[..], f, h, 16 * i, n);
  }

  /** What is still to be decrypted is as received. */
  lemma Ahead(d: Bytes, f: Bytes, h: nat, len: nat, i: nat, n: nat)
    requires 24 <= h && 16 * i + n <= len && h + 16 + len <= |f| && Outside(d, f, h, 16 * i)
    ensures d[10..16] == f[10..16]
    ensures var at := h + 8 + 16 * i; d[at..at + n] == f[h + 8..h + 8 + len][16 * i..16 * i + n]
  {
    var at := h + 8 + 16 * i;
    SliceOfSlice(f, h + 8, h + 8 + len, 16 * i, 16 * i + n);
    SameSlice(d, f, at, at + n);
    SameSlice(d, f, 10, 16);
  }

  lemma SameSlice(a: Bytes, b: Bytes, lo: nat, hi: nat)
    requires lo <= hi <= |a| && hi <= |b| && forall j :: lo <= j < hi ==> a[j] == b[j]
    ensures a[lo..hi] == b[lo..hi]
  {
  }

  /** Writing n bytes at h + k extends the part written. */
  lemma Behind(was: Bytes, d: Bytes, f: Bytes, h: nat, k: nat, n: nat)
    requires Outside(was, f, h, k) && |d| == |f| && h + k + n <= |f|
    requires forall j :: 0 <= j < |d| && !(h + k <= j < h + k + n) ==> d[j] == was[j]
    ensures Outside(d, f, h, k + n) && d[h..h + k] == was[h..h + k]
  {
    SameSlice(d, was, h, h + k);
  }

  /** The loop over whole blocks and the short last block. */
  method DecryptPayload(data: array<bv8>, h: nat, len: nat, qc: bool, pn: Bytes, key: array<bv8>)
    requires key.Length == 16 && data != key && 24 <= h && h + 16 + len <= data.Length
    requires pn == PacketNumber(data[..], h)
    modifies data
    ensures Outside(data[..], old(data[..]), h, len)
    ensures data[h..h + len] == Plain(Cipher16(key[..]), old(data[..]), qc, h, len)
  {
    hide Plain, Cipher16, Later, QosNibble, Priority, PacketNumber, Keeps16, Outside;
    OutsideSelf(data[..], h);
    ghost var f := data[..];
    ghost var e := Cipher16(key[..]);
    ghost var p := Plain(e, f, qc, h, len);
    var blocks := len / 16;
    for i := 0 to blocks
      invariant Outside(data[..], f, h, 16 * i)
      invariant data[h..h + 16 * i] == p[..16 * i]
    {
      PriorityRead(e, f, qc, h, len, data[..], i);
      DecryptBlock(data, h, i, 16, len, qc, pn, key, f);
      Extend(data[..], p, h, 16 * i, 16);
    }
    var rest := len % 16;
    if rest > 0 {
      PriorityRead(e, f, qc, h, len, data[..], blocks);
      DecryptBlock(data, h, blocks, rest, len, qc, pn, key, f);
      Extend(data[..], p, h, 16 * blocks, rest);
    }
    assert 16 * blocks + rest == len && p[..len] == p;
  }

  lemma OutsideSelf(f: Bytes, h: nat)
    ensures Outside(f, f, h, 0)
  {
  }

  lemma Extend(d: Bytes, p: Bytes, h: nat, k: nat, n: nat)
    requires k + n <= |p| && h + k + n <= |d| && d[h..h + k] == p[..k] && d[h + k..h + k + n] == p[k..k + n]
    ensures d[h..h + k + n] == p[..k + n]
  {
    SliceJoin(d, h, h + k, h + k + n);
    SliceJoin(p, 0, k, k + n);
  }

  /** The received tag, decrypted with counter 0. */
  method TrailMic(data: array<bv8>, h: nat, len: nat, qc: bool, pn: Bytes, key: array<bv8>,
      ghost f: Bytes) returns (t: Bytes)
    requires key.Length == 16 && 24 <= h && h + 16 + len <= data.Length && |f| == data.Length
    requires pn == PacketNumber(f, h) && Outside(data[..], f, h, len)
    requires data[h..h + len] == Plain(Cipher16(key[..]), f, qc, h, len)
    ensures |t| == 8 && t == Received(Cipher16(key[..]), f, qc, h, len)
  {
    hide FromBytes, Aes128, Two, Reversed6, PacketNumber, Xor, Keeps16, Plain, Later, QosNibble;
    var ctr := CtrPreload(data[..], qc, h, pn, 0);
    assert data[10..16] == f[10..16];
    ghost var e := Cipher16(key[..]);
    assert Plain(e, f, qc, h, len)[..len] == Plain(e, f, qc, h, len);
    LaterRead(e, f, qc, h, len, data[..], len);
    assert ctr == CounterBlock(Nonce(f, h, Later(e, f, qc, h, len), pn), 0);
    var out := Encrypt(key, ctr);
    var at := h + 8 + len;
    assert data[at..at + 8] == f[at..at + 8];
    t := XorBytes(out[..8], data[at..at + 8]);
    XorBytesComm(out[..8], f[at..at + 8]);
  }

  lemma XorBytesComm(a: Bytes, b: Bytes)
    requires |a| == |b|
    ensures XorBytes(a, b) == XorBytes(b, a)
  {
    hide Xor;
    forall k | 0 <= k < |a|
      ensures Xor(a[k], b[k]) == Xor(b[k], a[k])
    {
      XorComm(a[k], b[k]);
    }
  }

  // ------------------------------------------------------------- the MIC

  /** Xor a block in, and encrypt. */
  method Absorb(key: array<bv8>, x: Bytes, b: Bytes, ghost x0: Bytes, ghost done: Bytes) returns (y: Bytes)
    requires key.Length == 16 && |x| == |b| == |x0| == 16 && |done| % 16 == 0
    requires x == CbcMac(Cipher16(key[..]), x0, done)
    ensures y == CbcMac(Cipher16(key[..]), x0, done + b) && |y| == 16
  {
    hide FromBytes, Aes128, XorBytes, CbcMac, Keeps16;
    y := Encrypt(key, XorBytes(x, b));
    MacOne(Cipher16(key[..]), x, b);
    MacAppend(Cipher16(key[..]), x0, done, b);
  }

  lemma MacNothing(e: Block, x: Bytes)
    requires Keeps16(e) && |x| == 16
    ensures CbcMac(e, x, []) == x
  {
  }

  /** The MIC over the initial block, the two header blocks and the payload at h. */
  method ComputeMic(d: Bytes, h: nat, len: nat, a4: bool, qc: bool, pn: Bytes, key: array<bv8>) returns (mic: Bytes)
    requires key.Length == 16 && h == (if a4 then 30 else 24) && h + 16 + len <= |d| && |pn| == 6
    ensures |mic| == 8 && mic == Expected(Cipher16(key[..]), d, a4, qc, h, len, pn)
  {
    hide Cipher16, Aes128, CbcMac, Two, MicHeader1, MicHeader2, Padded, FromBytes, Keeps16, QosNibble;
    ghost var e := Cipher16(key[..]);
    var x0 := Encrypt(key, MicIv(d, qc, h, pn, len));
    CipherIs(key[..]);
    MacNothing(e, x0);
    ghost var hs := MicHeader1(d, h) + MicHeader2(d, a4, qc, h);
    var x := Absorb(key, x0, MicHeader1(d, h), x0, []);
    assert [] + MicHeader1(d, h) == MicHeader1(d, h);
    x := Absorb(key, x, MicHeader2(d, a4, qc, h), x0, MicHeader1(d, h));
    x := AbsorbPayload(d[h..h + len], key, x, x0, hs);
    mic := x[..8];
    assert MicIv(d, qc, h, pn, len) == [0x59] + Nonce(d, h, QosNibble(d, qc, h), pn) + Two(len);
  }

  lemma CipherIs(key: Bytes)
    requires |key| == 16
    ensures Cipher16(key) == Aes128(FromBytes(key))
  {
  }

  method AbsorbPayload(p: Bytes, key: array<bv8>, x: Bytes, ghost x0: Bytes, ghost hs: Bytes) returns (y: Bytes)
    requires key.Length == 16 && |x| == |x0| == 16 && |hs| % 16 == 0 && x == CbcMac(Cipher16(key[..]), x0, hs)
    ensures |y| == 16 && y == CbcMac(Cipher16(key[..]), x0, hs + Padded(p))
  {
    hide Cipher16, CbcMac, Keeps16;
    var blocks, rest := |p| / 16, |p| % 16;
    y := x;
    assert hs + p[..0] == hs;
    for i := 0 to blocks
      invariant |y| == 16 && y == CbcMac(Cipher16(key[..]), x0, hs + p[..16 * i])
    {
      y := Absorb(key, y, p[16 * i..16 * i + 16], x0, hs + p[..16 * i]);
      assert hs + p[..16 * i] + p[16 * i..16 * i + 16] == hs + p[..16 * (i + 1)];
    }
    ghost var done := p[..16 * blocks];
    if rest > 0 {
      var padded := p[16 * blocks..] + seq(16 - rest, _ => 0);
      y := Absorb(key, y, padded, x0, hs + done);
      assert Padded(p) == done + padded;
      assert hs + done + padded == hs + Padded(p);
    } else {
      assert Padded(p) == p == done;
    }
  }

  // ------------------------------------------------------------- the whole frame

  function KeyId(b: bv8): (k: nat)
    ensures k < 4
  {
    KeyIdBound(b);
    (b >> 6) as int
  }

  lemma KeyIdBound(b: bv8)
    ensures 0 <= (b >> 6) as int < 4
  {
    var x := b >> 6;
    assert x == 0 || x == 1 || x == 2 || x == 3;
  }

  /** The frame with the protected bit forced on. */
  function WithProtected(f: Bytes): (g: Bytes)
    requires |f| >= 24
    ensures |g| == |f|
  {
    f[1 := f[1] | 0x40]
  }

  /** What decryption does to a frame f with a4 and qc: it becomes d, with the message in place of the
      CCMP header and onwards, and the verdict is whether the received tag is the one computed. */
  ghost predicate Opens(e: Block, f: Bytes, a4: bool, qc: bool, h: nat, len: nat, d: Bytes, ok: bool)
    requires Keeps16(e) && h == (if a4 then 30 else 24) && h + 16 + len <= |f|
  {
    && d == WithProtected(f)[..h] + Plain(e, f, qc, h, len) + f[h + len..]
    && (ok <==> Received(e, f, qc, h, len) == Expected(e, d, a4, qc, h, len, PacketNumber(f, h)))
  }

  /** Decryption as RFC 3610 has it, under priority 0: the message is that of counter mode, and the
      verdict is whether the body was the sealed form of the message. */
  ghost predicate OpensCcm(e: Block, f: Bytes, h: nat, len: nat, d: Bytes, ok: bool)
    requires Keeps16(e) && (h == 24 || h == 30) && h + 16 + len <= |f|
  {
    var nonce := Nonce(f, h, 0, PacketNumber(f, h));
    var m := Ctr(e, nonce, f[h + 8..h + 8 + len]);
    d == WithProtected(f)[..h] + m + f[h + len..] &&
    (ok <==> f[h + 8..h + 16 + len] == Seal(e, nonce, Aad(WithProtected(f), h), m))
  }

  /** A frame whose two priorities are zero is opened as RFC 3610 prescribes; so is every frame that
      is not a QoS frame. */
  lemma OpensAsCcm(e: Block, f: Bytes, a4: bool, qc: bool, h: nat, len: nat, d: Bytes, ok: bool)
    requires Keeps16(e) && h == (if a4 then 30 else 24) && h + 16 + len <= |f| && Opens(e, f, a4, qc, h, len, d, ok)
    requires !qc || (QosNibble(f, qc, h) == 0 && Later(e, f, qc, h, len) == 0)
    ensures OpensCcm(e, f, h, len, d, ok)
  {
    hide Tag, Mask, Seal, PacketNumber, Reversed6, MutedFc, Keeps16, Ctr, Expected;
    var g, pn := WithProtected(f), PacketNumber(f, h);
    var nonce := Nonce(f, h, 0, pn);
    var c, u := f[h + 8..h + 8 + len], f[h + 8 + len..h + 16 + len];
    var m := Ctr(e, nonce, c);
    assert Plain(e, f, qc, h, len) == m;
    assert c + u == f[h + 8..h + 16 + len];
    OpenExact(e, nonce, Aad(g, h), c, u);
    assert d[..h] == g[..h] && d[h..h + len] == m;
    AadSame(d, g, h);
    NibbleOf(e, f, qc, h, len, d);
    ExpectedIsTag(e, d, a4, qc, h, len, pn);
    assert Nonce(d, h, 0, pn) == nonce by {
      assert d[10..16] == d[..h][10..16] == g[..h][10..16] == f[10..16];
    }
  }

  /** The priority read when the MIC is computed is the later one. */
  lemma NibbleOf(e: Block, f: Bytes, qc: bool, h: nat, len: nat, d: Bytes)
    requires Keeps16(e) && 24 <= h && h + 16 + len <= |f|
    requires d == WithProtected(f)[..h] + Plain(e, f, qc, h, len) + f[h + len..]
    ensures QosNibble(d, qc, h) == Later(e, f, qc, h, len)
  {
    hide Stream, Keeps16;
    assert len > 0 ==> d[h] == Plain(e, f, qc, h, len)[0];
  }

  /** The MIC under priority 0 is the tag of RFC 3610. */
  lemma ExpectedIsTag(e: Block, d: Bytes, a4: bool, qc: bool, h: nat, len: nat, pn: Bytes)
    requires Keeps16(e) && h == (if a4 then 30 else 24) && h + 16 + len <= |d| && |pn| == 6
    requires QosNibble(d, qc, h) == 0
    ensures Expected(e, d, a4, qc, h, len, pn) == Tag(e, Nonce(d, h, 0, pn), Aad(d, h), d[h..h + len])
  {
    hide CbcMac, Two, MicHeader1, MicHeader2, Padded, Aad, Keeps16, QosNibble, Nonce;
    HeaderBlocks(d, a4, qc, h);
  }

  lemma OpensWhen(e: Block, f: Bytes, a4: bool, qc: bool, h: nat, len: nat, d: Bytes, trail: Bytes, mic: Bytes)
    requires Keeps16(e) && h == (if a4 then 30 else 24) && h + 16 + len <= |f| && |d| == |f|
    requires Outside(d, WithProtected(f), h, len) && d[h..h + len] == Plain(e, f, qc, h, len)
    requires trail == Received(e, f, qc, h, len) && mic == Expected(e, d, a4, qc, h, len, PacketNumber(f, h))
    ensures Opens(e, f, a4, qc, h, len, d, mic == trail)
  {
    hide Plain, Received, Expected, PacketNumber, Keeps16;
    assert d == WithProtected(f)[..h] + Plain(e, f, qc, h, len) + f[h + len..];
  }

  lemma AadSame(d: Bytes, g: Bytes, h: nat)
    requires (h == 24 || h == 30) && h <= |g| && h <= |d| && d[..h] == g[..h]
    ensures Aad(d, h) == Aad(g, h)
  {
    assert forall i :: 0 <= i < h ==> d[i] == d[..h][i] == g[i];
    assert d[4..16] == g[4..16] && d[16..22] == g[16..22] && d[24..h] == g[24..h];
  }

  /** The group key a frame is encrypted with. */
  function KeySlot(f: Bytes): (k: nat)
    requires |f| >= 2 && HeaderLen(f[1]) + 4 <= |f|
    ensures k < 4
  {
    KeyId(f[HeaderLen(f[1]) + 3])
  }

  /** What becomes of a frame f of cnt bytes, and the verdict. Without a key nothing happens. A frame that
      is not a QoS frame is opened as RFC 3610 prescribes. */
  ghost predicate Decrypted(f: Bytes, cnt: nat, keyLen: nat, key: Bytes, d: Bytes, ok: bool)
    requires |f| >= 2 && |key| == 16 && (keyLen != 0 ==> HeaderLen(f[1]) + 16 <= cnt <= |f|)
  {
    if keyLen == 0 then !ok && d == f
    else
      var e, a4, qc, h := Cipher16(key), HasA4(f[1]), HasQos(f[0]), HeaderLen(f[1]);
      && Opens(e, f, a4, qc, h, cnt - h - 16, d, ok)
      && (!qc ==> OpensCcm(e, f, h, cnt - h - 16, d, ok))
  }

  /** RTMPSoftDecryptAES on a frame of cnt bytes. */
  method SoftDecrypt(data: array<bv8>, cnt: nat, keyLens: seq<nat>, keys: seq<array<bv8>>) returns (ok: bool)
    requires data.Length >= 2 && HeaderLen(data[1]) + 4 <= data.Length && |keyLens| == |keys| == 4
    requires keyLens[KeySlot(data[..])] != 0 ==> HeaderLen(data[1]) + 16 <= cnt <= data.Length
    requires forall i :: 0 <= i < 4 ==> keys[i].Length == 16 && keys[i] != data
    modifies data
    ensures var k := KeySlot(old(data[..]));
            Decrypted(old(data[..]), cnt, keyLens[k], keys[k][..], data[..], ok)
  {
    hide HasA4, HasQos, KeyId, Cipher16, Opens, OpensCcm;
    ghost var f := data[..];
    var a4, qc := HasA4(data[1]), HasQos(data[0]);
    var h := HeaderLen(data[1]);
    var k := KeyId(data[h + 3]);
    if keyLens[k] == 0 {
      return false;
    }
    ok := OpenFrame(data, h, cnt - h - 16, a4, qc, keys[k]);
    if !qc {
      OpensAsCcm(Cipher16(keys[k][..]), f, a4, qc, h, cnt - h - 16, data[..], ok);
    }
  }

  /** Everything after the key has been found. */
  method OpenFrame(data: array<bv8>, h: nat, len: nat, a4: bool, qc: bool, key: array<bv8>) returns (ok: bool)
    requires key.Length == 16 && key != data && h == (if a4 then 30 else 24) && h + 16 + len <= data.Length
    modifies data
    ensures Opens(Cipher16(key[..]), old(data[..]), a4, qc, h, len, data[..], ok)
  {
    hide Plain, Received, Expected, Cipher16, Opens, PacketNumber, Keeps16;
    ghost var f := data[..];
    var pn := PacketNumber(data[..], h);
    DecryptPayload(data, h, len, qc, pn, key);
    var trail := TrailMic(data, h, len, qc, pn, key, f);
    ghost var m := data[h..h + len];
    data[1] := data[1] | 0x40;
    assert data[h..h + len] == m;
    var mic := ComputeMic(data[..], h, len, a4, qc, pn, key);
    ok := mic == trail;
    OpensWhen(Cipher16(key[..]), f, a4, qc, h, len, data[..], trail, mic);
  }

  /** A frame sealed as RFC 3610 prescribes is accepted, and its message recovered. */
  lemma SealedAccepted(e: Block, f: Bytes, h: nat, m: Bytes, d: Bytes, ok: bool)
    requires Keeps16(e) && (h == 24 || h == 30) && h + 16 + |m| <= |f|
    requires f[h + 8..h + 16 + |m|] == Seal(e, Nonce(f, h, 0, PacketNumber(f, h)), Aad(WithProtected(f), h), m)
    requires OpensCcm(e, f, h, |m|, d, ok)
    ensures ok && d[h..h + |m|] == m
  {
    hide Nonce, Aad, Tag, Ctr, Keeps16, PacketNumber;
    var nonce, aad := Nonce(f, h, 0, PacketNumber(f, h)), Aad(WithProtected(f), h);
    SealedOpens(e, nonce, aad, m);
    assert f[h + 8..h + 8 + |m|] == f[h + 8..h + 16 + |m|][..|m|];
  }
}
