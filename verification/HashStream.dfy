/** The Merkle-Damgard framing shared by the MD5 and SHA-1 code of common/md5.c. The block
    transform is a parameter. */
module HashSpec {
  import opened Modular

  type Word = x: int | 0 <= x < 0x1_0000_0000

  /** Buf and a 64-byte block to the new Buf. */
  type Transform = (seq<Word>, seq<Byte>) -> seq<Word>

  /** The transform iterated over consecutive 64-byte blocks; a short tail is ignored. */
  ghost function Blocks(f: Transform, s: seq<Word>, m: seq<Byte>): seq<Word>
    decreases |m|
  {
    if |m| < 64 then s else Blocks(f, f(s, m[..64]), m[64..])
  }

  lemma {:induction false} BlocksAppend(f: Transform, s: seq<Word>, m: seq<Byte>, b: seq<Byte>)
    requires |m| % 64 == 0 && |b| == 64
    ensures Blocks(f, s, m + b) == f(Blocks(f, s, m), b)
    decreases |m|
  {
    if m == [] {
      assert m + b == b && b[..64] == b && b[64..] == [];
      assert Blocks(f, f(s, b), []) == f(s, b);
    } else {
      assert (m + b)[..64] == m[..64] && (m + b)[64..] == m[64..] + b;
      BlocksAppend(f, f(s, m[..64]), m[64..], b);
    }
  }

  /** The longest prefix made of whole blocks. */
  function Whole(n: nat): (w: nat)
    ensures w <= n && w % 64 == 0 && n - w == n % 64
  {
    n - n % 64
  }

  /** Eight bytes of a number, least significant first. */
  function LowFirst(v: nat): seq<Byte> {
    [v % 256, v / 0x100 % 256, v / 0x1_0000 % 256, v / 0x100_0000 % 256, v / 0x1_0000_0000 % 256,
     v / 0x100_0000_0000 % 256, v / 0x1_0000_0000_0000 % 256, v / 0x100_0000_0000_0000 % 256]
  }

  /** Eight bytes of a number, most significant first. */
  function HighFirst(v: nat): seq<Byte> {
    var l := LowFirst(v);
    [l[7], l[6], l[5], l[4], l[3], l[2], l[1], l[0]]
  }

  /** A 1 bit, zeros up to 56 modulo 64, and the length field. */
  function Padded(m: seq<Byte>, length: seq<Byte>): (p: seq<Byte>)
    requires |length| == 8
    ensures |p| % 64 == 0 && m < p
  {
    m + [0x80] + seq((119 - |m| % 64) % 64, _ => 0) + length
  }

  /** The message, a single 1 bit, as few zeros as make whole blocks, and the length at the end. */
  lemma PaddedIs(m: seq<Byte>, length: seq<Byte>)
    requires |length| == 8
    ensures var p := Padded(m, length);
            && |p| % 64 == 0 && |m| + 9 <= |p| < |m| + 73 && p[..|m|] == m && p[|m|] == 128
            && (forall i :: |m| < i < |p| - 8 ==> p[i] == 0) && p[|p| - 8..] == length
  {
  }

  /** The message digest state of section 3 of RFC 1321: the bit count modulo 2^64, low byte first. */
  ghost function Md5(f: Transform, init: seq<Word>, m: seq<Byte>): seq<Word> {
    Blocks(f, init, Padded(m, LowFirst(8 * |m| % 0x1_0000_0000_0000_0000)))
  }

  /** The message digest state of sections 4 and 6.1 of RFC 3174: the bit count, high byte first. */
  ghost function Sha1(f: Transform, init: seq<Word>, m: seq<Byte>): seq<Word> {
    Blocks(f, init, Padded(m, HighFirst(8 * |m|)))
  }

  // The bytes of a 32-bit word.

  function Low4(w: Word): seq<Byte> { [w % 256, w / 0x100 % 256, w / 0x1_0000 % 256, w / 0x100_0000 % 256] }

  function High4(w: Word): seq<Byte> { [w / 0x100_0000 % 256, w / 0x1_0000 % 256, w / 0x100 % 256, w % 256] }

  lemma LengthLowFirst(lo: Word, hi: Word)
    ensures LowFirst(lo + 0x1_0000_0000 * hi) == Low4(lo) + Low4(hi)
  {
    SplitLow(lo, hi);
    SplitHigh(lo, hi);
  }

  lemma LengthHighFirst(lo: Word, hi: Word)
    ensures HighFirst(lo + 0x1_0000_0000 * hi) == High4(hi) + High4(lo)
  {
    SplitLow(lo, hi);
    SplitHigh(lo, hi);
  }

  lemma SplitLow(lo: Word, hi: Word)
    ensures var v := lo + 0x1_0000_0000 * hi;
            v % 256 == lo % 256 && v / 0x100 % 256 == lo / 0x100 % 256 &&
            v / 0x1_0000 % 256 == lo / 0x1_0000 % 256 && v / 0x100_0000 % 256 == lo / 0x100_0000 % 256
  {
    LowByte(lo, 0x100_0000 * hi);
    SplitAt8(lo, hi);
    LowByte(lo / 0x100, 0x1_0000 * hi);
    SplitAt16(lo, hi);
    LowByte(lo / 0x1_0000, 0x100 * hi);
    SplitAt24(lo, hi);
    LowByte(lo / 0x100_0000, hi);
  }

  lemma LowByte(x: nat, q: nat)
    ensures (x + 256 * q) % 256 == x % 256
  {
  }

  lemma SplitAt8(lo: Word, hi: Word)
    ensures (lo + 0x1_0000_0000 * hi) / 0x100 == lo / 0x100 + 256 * (0x1_0000 * hi)
  {
  }

  lemma SplitAt16(lo: Word, hi: Word)
    ensures (lo + 0x1_0000_0000 * hi) / 0x1_0000 == lo / 0x1_0000 + 256 * (0x100 * hi)
  {
  }

  lemma SplitAt24(lo: Word, hi: Word)
    ensures (lo + 0x1_0000_0000 * hi) / 0x100_0000 == lo / 0x100_0000 + 256 * hi
  {
  }

  lemma SplitHigh(lo: Word, hi: Word)
    ensures var v := lo + 0x1_0000_0000 * hi;
            v / 0x1_0000_0000 == hi && v / 0x100_0000_0000 == hi / 0x100 &&
            v / 0x1_0000_0000_0000 == hi / 0x1_0000 && v / 0x100_0000_0000_0000 == hi / 0x100_0000
  {
  }

  /** The bytes of consecutive words. */
  function Encode(ws: seq<Word>, bytes: Word -> seq<Byte>): seq<Byte> {
    if ws == [] then [] else bytes(ws[0]) + Encode(ws[1..], bytes)
  }

  /** Byte 4 * i + j of the encoding is byte j of word i. */
  lemma {:induction false} EncodeAt(ws: seq<Word>, bytes: Word -> seq<Byte>, i: nat, j: nat)
    requires i < |ws| && j < 4 && forall w: Word {:trigger bytes(w)} :: |bytes(w)| == 4
    ensures |Encode(ws, bytes)| == 4 * |ws| && Encode(ws, bytes)[4 * i + j] == bytes(ws[i])[j]
    decreases |ws|
  {
    if |ws| == 1 {
      assert ws[1..] == [];
    } else {
      EncodeAt(ws[1..], bytes, if i == 0 then 0 else i - 1, j);
    }
  }

  function Weigh(a: int, b: int, c: int, d: int): int { a + 0x100 * b + 0x1_0000 * c + 0x100_0000 * d }

  /** A word is its bytes, low byte first and high byte first. */
  lemma WordBytes(w: Word)
    ensures var l, h := Low4(w), High4(w);
            w == Weigh(l[0], l[1], l[2], l[3]) && h == [l[3], l[2], l[1], l[0]]
  {
  }

  /** In an MD5 digest each word of the state stands low byte first. */
  lemma LowByteFirst(ws: seq<Word>, i: nat)
    requires i < |ws|
    ensures var d := Encode(ws, Low4);
            |d| == 4 * |ws| && ws[i] == Weigh(d[4 * i], d[4 * i + 1], d[4 * i + 2], d[4 * i + 3])
  {
    hide Low4, Weigh;
    LowSize();
    EncodeAt(ws, Low4, i, 0);
    EncodeAt(ws, Low4, i, 1);
    EncodeAt(ws, Low4, i, 2);
    EncodeAt(ws, Low4, i, 3);
    WordBytes(ws[i]);
  }

  lemma LowSize()
    ensures forall w: Word {:trigger Low4(w)} :: |Low4(w)| == 4
    ensures forall w: Word {:trigger High4(w)} :: |High4(w)| == 4
  {
  }

  /** In a SHA-1 digest each word of the state stands high byte first. */
  lemma HighByteFirst(ws: seq<Word>, i: nat)
    requires i < |ws|
    ensures var d := Encode(ws, High4);
            |d| == 4 * |ws| && ws[i] == Weigh(d[4 * i + 3], d[4 * i + 2], d[4 * i + 1], d[4 * i])
  {
    hide Low4, High4, Weigh;
    LowSize();
    EncodeAt(ws, High4, i, 0);
    EncodeAt(ws, High4, i, 1);
    EncodeAt(ws, High4, i, 2);
    EncodeAt(ws, High4, i, 3);
    WordBytes(ws[i]);
  }

  /** The eight bytes of a length below 2^64 are its value, low byte first and high byte first. */
  lemma LengthBytes(v: nat)
    requires v < 0x1_0000_0000_0000_0000
    ensures var l := LowFirst(v);
            && v == Weigh(l[0], l[1], l[2], l[3]) + 0x1_0000_0000 * Weigh(l[4], l[5], l[6], l[7])
            && HighFirst(v) == [l[7], l[6], l[5], l[4], l[3], l[2], l[1], l[0]]
  {
    hide Weigh;
    var lo, hi := v % 0x1_0000_0000, v / 0x1_0000_0000;
    LengthLowFirst(lo, hi);
    WordBytes(lo);
    WordBytes(hi);
  }

  // ------------------------------------------------------------- the two-word bit count

  ghost predicate Counts(lo: Word, hi: Word, n: nat) {
    lo + 0x1_0000_0000 * hi == 8 * n % 0x1_0000_0000_0000_0000
  }

  lemma Remainder(lo: Word, hi: Word, n: nat)
    requires Counts(lo, hi, n)
    ensures lo / 8 % 64 == n % 64
  {
    var q := 8 * n / 0x1_0000_0000_0000_0000;
    assert 8 * n == lo + 0x1_0000_0000 * hi + 0x1_0000_0000_0000_0000 * q;
    RemainderOf(lo, n, 0x80_0000 * hi + 0x80_0000_0000_0000 * q);
  }

  lemma RemainderOf(lo: nat, n: nat, q: nat)
    requires 8 * n == lo + 512 * q
    ensures lo / 8 % 64 == n % 64
  {
    assert lo / 8 == n - 64 * q;
  }

  /** LenInBitCount[0] after adding len bytes, and the carry the code detects. */
  function AddLow(lo: Word, len: Word): Word { (lo + len * 8 % 0x1_0000_0000) % 0x1_0000_0000 }

  function Carry(lo: Word, len: Word): Word { if AddLow(lo, len) < lo then 1 else 0 }

  /** LenInBitCount[1], before its own truncation. */
  function AddHigh(lo: Word, hi: Word, len: Word): nat { hi + Carry(lo, len) + len / 0x2000_0000 }

  lemma AddExact(lo: Word, hi: Word, len: Word)
    ensures AddLow(lo, len) + 0x1_0000_0000 * AddHigh(lo, hi, len) == lo + 0x1_0000_0000 * hi + 8 * len
    ensures AddHigh(lo, hi, len) <= hi + 8
  {
    var low := len * 8 % 0x1_0000_0000;
    assert len * 8 == low + 0x1_0000_0000 * (len / 0x2000_0000);
    if lo + low < 0x1_0000_0000 {
      assert AddLow(lo, len) == lo + low;
    } else {
      assert AddLow(lo, len) == lo + low - 0x1_0000_0000;
    }
  }

  lemma AddModulo(lo: Word, hi: Word, len: Word, n: nat)
    requires Counts(lo, hi, n)
    ensures Counts(AddLow(lo, len), AddHigh(lo, hi, len) % 0x1_0000_0000, n + len)
  {
    AddExact(lo, hi, len);
    hide AddLow, AddHigh;
    var l, h := AddLow(lo, len), AddHigh(lo, hi, len);
    var q, p := 8 * n / 0x1_0000_0000_0000_0000, h / 0x1_0000_0000;
    assert 8 * n == lo + 0x1_0000_0000 * hi + 0x1_0000_0000_0000_0000 * q;
    assert h == h % 0x1_0000_0000 + 0x1_0000_0000 * p;
    Modulo64(8 * (n + len), l + 0x1_0000_0000 * (h % 0x1_0000_0000), q + p);
  }

  lemma Modulo64(a: nat, b: nat, q: nat)
    requires a == b + 0x1_0000_0000_0000_0000 * q && b < 0x1_0000_0000_0000_0000
    ensures a % 0x1_0000_0000_0000_0000 == b
  {
  }

  /** SHAUpdate's overflow test is exact: the new high word is below the old one precisely when the
      message is 2^64 bits or longer. */
  lemma OverflowTest(lo: Word, hi: Word, len: Word, n: nat)
    requires lo + 0x1_0000_0000 * hi == 8 * n
    ensures AddHigh(lo, hi, len) % 0x1_0000_0000 < hi <==> 8 * (n + len) >= 0x1_0000_0000_0000_0000
    ensures 8 * (n + len) < 0x1_0000_0000_0000_0000 ==>
              AddLow(lo, len) + 0x1_0000_0000 * (AddHigh(lo, hi, len) % 0x1_0000_0000) == 8 * (n + len)
  {
    AddExact(lo, hi, len);
    hide AddHigh;
    var h := AddHigh(lo, hi, len);
    if h < 0x1_0000_0000 {
      assert h % 0x1_0000_0000 == h;
    } else {
      assert h % 0x1_0000_0000 == h - 0x1_0000_0000;
    }
  }

  /** The guard (temp + LenInBytes) < 64 is computed modulo 2^32: it sends an update to the
      buffering branch exactly when the bytes fit the block or the sum wraps. */
  lemma GuardWraps(r: nat, len: Word)
    requires 0 < r < 64
    ensures (r + len) % 0x1_0000_0000 < 64 <==> r + len < 64 || r + len >= 0x1_0000_0000
  {
  }
}

/** MD5_CTX and SHA_CTX. */
module HashContext {
  import opened HashSpec
  import opened Modular
  import opened Sequences

  /** What a context holds after absorbing m: the transform of its whole blocks, and its tail. */
  ghost predicate Held(f: Transform, init: seq<Word>, buf: seq<Word>, input: seq<Byte>, m: seq<Byte>) {
    |input| >= 64 && buf == Blocks(f, init, m[..Whole(|m|)]) && input[..|m| % 64] == m[Whole(|m|)..]
  }

  lemma HeldShort(f: Transform, init: seq<Word>, buf: seq<Word>, input: seq<Byte>, m: seq<Byte>, d: seq<Byte>,
      after: seq<Byte>)
    requires Held(f, init, buf, input, m) && |m| % 64 + |d| < 64
    requires |after| == |input| && after[..|m| % 64] == input[..|m| % 64] && after[|m| % 64..|m| % 64 + |d|] == d
    ensures Held(f, init, buf, after, m + d)
  {
    var r, w := |m| % 64, Whole(|m|);
    assert Whole(|m + d|) == w && |m + d| % 64 == r + |d|;
    assert (m + d)[..w] == m[..w] && (m + d)[w..] == m[w..] + d;
    assert after[..r + |d|] == after[..r] + after[r..r + |d|];
  }

  lemma HeldFull(f: Transform, init: seq<Word>, buf: seq<Word>, input: seq<Byte>, m: seq<Byte>, d: seq<Byte>)
    requires Held(f, init, buf, input, m) && |m| % 64 + |d| == 64
    ensures |m + d| % 64 == 0
    ensures Blocks(f, init, m + d) == f(buf, input[..|m| % 64] + d)
  {
    var w := Whole(|m|);
    assert m + d == m[..w] + (m[w..] + d);
    BlocksAppend(f, init, m[..w], m[w..] + d);
  }

  lemma HeldTail(f: Transform, init: seq<Word>, buf: seq<Word>, input: seq<Byte>, m: seq<Byte>, d: seq<Byte>)
    requires |m| % 64 == 0 && |d| < 64 <= |input| && buf == Blocks(f, init, m) && input[..|d|] == d
    ensures Held(f, init, buf, input, m + d)
  {
    assert Whole(|m + d|) == |m| && (m + d)[..|m|] == m && (m + d)[|m|..] == d;
  }

  /** The part MD5Update and SHAUpdate share: top up the buffered block, transform the whole blocks
      of the data, buffer the rest. */
  method Absorb(f: Transform, buf: seq<Word>, input: array<Byte>, r: nat, data: seq<Byte>, ghost init: seq<Word>,
      ghost m: seq<Byte>)
    returns (b: seq<Word>)
    requires input.Length >= 64 && Held(f, init, buf, input[..], m) && r == |m| % 64
    requires |data| < 0x1_0000_0000 && (r == 0 || r + |data| < 0x1_0000_0000)
    modifies input
    ensures Held(f, init, b, input[..], m + data)
  {
    hide Blocks;
    var p := 0;
    b := buf;
    if r != 0 {
      if (r + |data|) % 0x1_0000_0000 < 64 {
        ghost var before := input[..];
        Copy(input, r, data);
        assert input[..r] == before[..r];
        HeldShort(f, init, buf, before, m, data, input[..]);
        return;
      }
      p := 64 - r;
      ghost var before := input[..];
      Copy(input, r, data[..p]);
      HeldFull(f, init, buf, before, m, data[..p]);
      assert input[..64] == before[..r] + data[..p];
      b := f(b, input[..64]);
    } else {
      assert m[..Whole(|m|)] == m && m + data[..0] == m;
    }
    b, p := AbsorbBlocks(f, b, input, data, p, init, m);
    Copy(input, 0, data[p..]);
    assert input[..][..|data[p..]|] == data[p..];
    HeldTail(f, init, b, input[..], m + data[..p], data[p..]);
    assert m + data[..p] + data[p..] == m + data;
  }

  method AbsorbBlocks(f: Transform, buf: seq<Word>, input: array<Byte>, data: seq<Byte>, start: nat,
      ghost init: seq<Word>, ghost m: seq<Byte>)
    returns (b: seq<Word>, p: nat)
    requires input.Length >= 64 && start <= |data| && (|m| + start) % 64 == 0
    requires buf == Blocks(f, init, m + data[..start])
    modifies input
    ensures p <= |data| < p + 64 && (|m| + p) % 64 == 0 && b == Blocks(f, init, m + data[..p])
  {
    hide Blocks;
    b, p := buf, start;
    var times := (|data| - p) / 64;
    for i := times downto 0
      invariant p <= |data| && (|m| + p) % 64 == 0 && 64 * i <= |data| - p < 64 * i + 64
      invariant b == Blocks(f, init, m + data[..p])
    {
      Copy(input, 0, data[p..p + 64]);
      assert input[..64] == data[p..p + 64];
      OneMoreBlock(f, init, m, data, p);
      b := f(b, input[..64]);
      p := p + 64;
    }
  }

  lemma OneMoreBlock(f: Transform, init: seq<Word>, m: seq<Byte>, data: seq<Byte>, p: nat)
    requires p + 64 <= |data| && (|m| + p) % 64 == 0
    ensures Blocks(f, init, m + data[..p + 64]) == f(Blocks(f, init, m + data[..p]), data[p..p + 64])
    ensures (|m| + (p + 64)) % 64 == 0
  {
    hide Blocks;
    BlocksAppend(f, init, m + data[..p], data[p..p + 64]);
    assert m + data[..p] + data[p..p + 64] == m + data[..p + 64];
  }

  // ------------------------------------------------------------- padding

  /** NdisZeroMemory of [from, to). */
  method Zero(a: array<Byte>, from: nat, to: nat)
    requires from <= to <= a.Length
    modifies a
    ensures forall j :: from <= j < to ==> a[j] == 0
    ensures forall j :: 0 <= j < a.Length && !(from <= j < to) ==> a[j] == old(a[j])
  {
    for i := from to to
      invariant forall j :: from <= j < i ==> a[j] == 0
      invariant forall j :: 0 <= j < a.Length && !(from <= j < i) ==> a[j] == old(a[j])
    {
      a[i] := 0;
    }
  }

  lemma OneBlock(f: Transform, init: seq<Word>, buf: seq<Word>, input: seq<Byte>, m: seq<Byte>, x: seq<Byte>,
      length: seq<Byte>)
    requires Held(f, init, buf, input, m) && |m| % 64 < 56 && |length| == 8 && |x| == 56
    requires x == input[..|m| % 64] + [0x80] + seq(55 - |m| % 64, _ => 0)
    ensures Blocks(f, init, Padded(m, length)) == f(buf, x + length)
  {
    hide Blocks;
    var d := [0x80] + seq(55 - |m| % 64, _ => 0) + length;
    assert Padded(m, length) == m + d;
    HeldFull(f, init, buf, input, m, d);
    assert input[..|m| % 64] + d == x + length;
  }

  lemma TwoBlocks(f: Transform, init: seq<Word>, buf: seq<Word>, input: seq<Byte>, m: seq<Byte>, x: seq<Byte>,
      length: seq<Byte>)
    requires Held(f, init, buf, input, m) && |m| % 64 >= 56 && |length| == 8
    requires x == input[..|m| % 64] + [0x80] + seq(63 - |m| % 64, _ => 0)
    ensures Blocks(f, init, Padded(m, length)) == f(f(buf, x), seq(56, _ => 0) + length)
  {
    hide Blocks;
    var d := [0x80] + seq(63 - |m| % 64, _ => 0);
    var e := seq(56, _ => 0) + length;
    assert Padded(m, length) == m + d + e;
    HeldFull(f, init, buf, input, m, d);
    assert input[..|m| % 64] + d == x;
    BlocksAppend(f, init, m + d, e);
  }

  /** Everything MD5Final and SHAFinal do before they store the length: afterwards one transform of
      the first 56 bytes and any length field finishes the padded message. */
  method Pad(f: Transform, buf: seq<Word>, input: array<Byte>, r: nat, ghost init: seq<Word>, ghost m: seq<Byte>)
    returns (b: seq<Word>)
    requires input.Length >= 64 && Held(f, init, buf, input[..], m) && r == |m| % 64
    modifies input
    ensures forall length: seq<Byte> | |length| == 8 :: Blocks(f, init, Padded(m, length)) == f(b, input[..56] + length)
  {
    hide Blocks, Padded, Held;
    ghost var before := input[..];
    b := buf;
    input[r] := 0x80;
    if r < 56 {
      Zero(input, r + 1, 56);
      ghost var x := input[..56];
      assert x == before[..r] + [0x80] + seq(55 - r, _ => 0);
      forall length: seq<Byte> | |length| == 8
        ensures Blocks(f, init, Padded(m, length)) == f(b, x + length)
      {
        OneBlock(f, init, buf, before, m, x, length);
      }
    } else {
      Zero(input, r + 1, 64);
      ghost var x := input[..64];
      assert x == before[..r] + [0x80] + seq(63 - r, _ => 0);
      b := f(b, input[..64]);
      Zero(input, 0, 56);
      assert input[..56] == seq(56, _ => 0);
      forall length: seq<Byte> | |length| == 8
        ensures Blocks(f, init, Padded(m, length)) == f(b, seq(56, _ => 0) + length)
      {
        TwoBlocks(f, init, buf, before, m, x, length);
      }
    }
  }

  const MD5_INIT: seq<Word> := [0x67452301, 0xefcdab89, 0x98badcfe, 0x10325476]

  const SHA_INIT: seq<Word> := [0x67452301, 0xefcdab89, 0x98badcfe, 0x10325476, 0xc3d2e1f0]

  lemma EncodeFour(w: seq<Word>)
    requires |w| == 4
    ensures Encode(w, Low4) == Low4(w[0]) + Low4(w[1]) + Low4(w[2]) + Low4(w[3])
  {
    hide Low4;
    assert w[1..][0] == w[1] && w[1..][1..] == w[2..] && w[2..][1..] == w[3..] && w[3..][1..] == [];
    assert Encode(w[3..], Low4) == Low4(w[3]) + [];
    assert Encode(w[2..], Low4) == Low4(w[2]) + Encode(w[3..], Low4);
    assert Encode(w[1..], Low4) == Low4(w[1]) + Encode(w[2..], Low4);
  }

  lemma LowWords()
    ensures Low4(0x67452301) == [0x01, 0x23, 0x45, 0x67] && Low4(0xefcdab89) == [0x89, 0xab, 0xcd, 0xef]
    ensures Low4(0x98badcfe) == [0xfe, 0xdc, 0xba, 0x98] && Low4(0x10325476) == [0x76, 0x54, 0x32, 0x10]
  {
  }

  /** The initial states as bytes: section 3.3 of RFC 1321 low byte first, and the same four words with one
      more in section 6.1 of RFC 3174, high byte first. */
  lemma InitialStates()
    ensures Encode(MD5_INIT, Low4) == [0x01, 0x23, 0x45, 0x67, 0x89, 0xab, 0xcd, 0xef,
                                       0xfe, 0xdc, 0xba, 0x98, 0x76, 0x54, 0x32, 0x10]
    ensures SHA_INIT == MD5_INIT + [0xc3d2e1f0] && High4(0xc3d2e1f0) == [0xc3, 0xd2, 0xe1, 0xf0]
  {
    EncodeFour(MD5_INIT);
    LowWords();
  }

  class Md5Context {
    const transform: Transform
    const input: array<Byte>
    var buf: seq<Word>
    var lo: Word
    var hi: Word

    /** The context has absorbed exactly m, of any length. */
    ghost predicate Absorbed(m: seq<Byte>)
      reads this, input
    {
      input.Length == 64 && Counts(lo, hi, |m|) && Held(transform, MD5_INIT, buf, input[..], m)
    }

    /** MD5Init */
    constructor (f: Transform)
      ensures Absorbed([]) && transform == f && fresh(input)
    {
      transform := f;
      input := new Byte[64];
      buf := MD5_INIT;
      lo, hi := 0, 0;
    }

    /** MD5Update. A partly filled block and a length within 63 of 2^32 make the guard wrap; the
        precondition is that this does not happen. */
    method Update(data: seq<Byte>, ghost m: seq<Byte>)
      requires Absorbed(m) && |data| < 0x1_0000_0000 && (|m| % 64 == 0 || |m| % 64 + |data| < 0x1_0000_0000)
      modifies this, input
      ensures Absorbed(m + data)
    {
      hide Counts, AddHigh, AddLow, Held;
      Remainder(lo, hi, |m|);
      AddModulo(lo, hi, |data|, |m|);
      assert |m + data| == |m| + |data|;
      var temp := lo;
      AddInSteps(lo, hi, |data|);
      lo := (lo + |data| * 8 % 0x1_0000_0000) % 0x1_0000_0000;
      if lo < temp {
        hi := (hi + 1) % 0x1_0000_0000;
      }
      hi := (hi + |data| / 0x2000_0000) % 0x1_0000_0000;
      buf := Absorb(transform, buf, input, temp / 8 % 64, data, MD5_INIT, m);
    }

    /** MD5Final */
    method Final(ghost m: seq<Byte>) returns (digest: seq<Byte>)
      requires Absorbed(m)
      modifies this, input
      ensures digest == Encode(Md5(transform, MD5_INIT, m), Low4)
    {
      hide Held, Blocks, LowFirst;
      Remainder(lo, hi, |m|);
      buf := Pad(transform, buf, input, lo / 8 % 64, MD5_INIT, m);
      ghost var x := input[..56];
      Copy(input, 56, Low4(lo) + Low4(hi));
      LengthLowFirst(lo, hi);
      assert input[..64] == x + (Low4(lo) + Low4(hi));
      buf := transform(buf, input[..64]);
      digest := Encode(buf, Low4);
    }
  }

  /** The statements that update the two counters, against AddLow and AddHigh. */
  lemma AddInSteps(lo: Word, hi: Word, len: Word)
    ensures var l := (lo + len * 8 % 0x1_0000_0000) % 0x1_0000_0000;
            var h := if l < lo then (hi + 1) % 0x1_0000_0000 else hi;
            l == AddLow(lo, len) && (h + len / 0x2000_0000) % 0x1_0000_0000 == AddHigh(lo, hi, len) % 0x1_0000_0000
  {
  }

  class ShaContext {
    const transform: Transform
    const input: array<Byte>
    var buf: seq<Word>
    var lo: Word
    var hi: Word

    /** The context has absorbed exactly m, of less than 2^64 bits. */
    ghost predicate Absorbed(m: seq<Byte>)
      reads this, input
    {
      input.Length == 80 && lo + 0x1_0000_0000 * hi == 8 * |m| && Held(transform, SHA_INIT, buf, input[..], m)
    }

    /** SHAInit */
    constructor (f: Transform)
      ensures Absorbed([]) && transform == f && fresh(input)
    {
      transform := f;
      input := new Byte[80];
      buf := SHA_INIT;
      lo, hi := 0, 0;
    }

    /** SHAUpdate: refuses exactly the data that would take the message to 2^64 bits. A refusal has
        already changed the counters, and nothing else. */
    method Update(data: seq<Byte>, ghost m: seq<Byte>) returns (err: Byte)
      requires Absorbed(m) && |data| < 0x1_0000_0000 && (|m| % 64 == 0 || |m| % 64 + |data| < 0x1_0000_0000)
      modifies this, input
      ensures err == if 8 * (|m| + |data|) < 0x1_0000_0000_0000_0000 then 0 else 1
      ensures err == 0 ==> Absorbed(m + data)
      ensures err == 1 ==> buf == old(buf) && input[..] == old(input[..]) && Counts(lo, hi, |m| + |data|)
    {
      hide AddHigh, AddLow, Held, Counts;
      RemainderExact(lo, hi, |m|);
      OverflowTest(lo, hi, |data|, |m|);
      CountsExact(lo, hi, |m|);
      AddModulo(lo, hi, |data|, |m|);
      assert |m + data| == |m| + |data|;
      AddInSteps(lo, hi, |data|);
      var temp1, temp2 := lo, hi;
      lo := (lo + |data| * 8 % 0x1_0000_0000) % 0x1_0000_0000;
      if lo < temp1 {
        hi := (hi + 1) % 0x1_0000_0000;
      }
      hi := (hi + |data| / 0x2000_0000) % 0x1_0000_0000;
      if hi < temp2 {
        return 1;
      }
      buf := Absorb(transform, buf, input, temp1 / 8 % 64, data, SHA_INIT, m);
      return 0;
    }

    /** SHAFinal */
    method Final(ghost m: seq<Byte>) returns (digest: seq<Byte>)
      requires Absorbed(m)
      modifies this, input
      ensures digest == Encode(Sha1(transform, SHA_INIT, m), High4)
    {
      hide Held, Blocks, HighFirst;
      RemainderExact(lo, hi, |m|);
      buf := Pad(transform, buf, input, lo / 8 % 64, SHA_INIT, m);
      ghost var x := input[..56];
      Copy(input, 56, High4(hi) + High4(lo));
      LengthHighFirst(lo, hi);
      assert input[..64] == x + (High4(hi) + High4(lo));
      buf := transform(buf, input[..64]);
      digest := Encode(buf, High4);
    }
  }

  lemma CountsExact(lo: Word, hi: Word, n: nat)
    requires lo + 0x1_0000_0000 * hi == 8 * n
    ensures Counts(lo, hi, n)
  {
  }

  lemma RemainderExact(lo: Word, hi: Word, n: nat)
    requires lo + 0x1_0000_0000 * hi == 8 * n
    ensures lo / 8 % 64 == n % 64
  {
    CountsExact(lo, hi, n);
    Remainder(lo, hi, n);
  }

  // ------------------------------------------------------------- every way of splitting a message

  /** No update of the run makes the guard wrap; true of any run whose updates are below 2^32 - 63. */
  ghost predicate Acceptable(chunks: seq<seq<Byte>>) {
    forall i :: 0 <= i < |chunks| ==>
      |chunks[i]| < 0x1_0000_0000 &&
      (|Concat(chunks[..i])| % 64 == 0 || |Concat(chunks[..i])| % 64 + |chunks[i]| < 0x1_0000_0000)
  }

  lemma NoChunk(chunks: seq<seq<Byte>>)
    ensures Concat(chunks[..0]) == []
  {
  }

  /** MD5Init, any run of MD5Update and MD5Final give the digest of the concatenation. */
  method Md5Stream(f: Transform, chunks: seq<seq<Byte>>) returns (digest: seq<Byte>)
    requires Acceptable(chunks)
    ensures digest == Encode(Md5(f, MD5_INIT, Concat(chunks)), Low4)
  {
    hide Concat, Md5, Md5Context.Absorbed;
    var ctx := new Md5Context(f);
    NoChunk(chunks);
    for i := 0 to |chunks|
      invariant ctx.Absorbed(Concat(chunks[..i])) && fresh(ctx) && fresh(ctx.input) && ctx.transform == f
    {
      ConcatNext(chunks, i);
      ctx.Update(chunks[i], Concat(chunks[..i]));
    }
    assert chunks[..|chunks|] == chunks;
    digest := ctx.Final(Concat(chunks));
  }

  /** SHAInit, any run of SHAUpdate and SHAFinal: every update succeeds, and the digest is that of
      the concatenation, if and only if the message is shorter than 2^64 bits. */
  method ShaStream(f: Transform, chunks: seq<seq<Byte>>) returns (ok: bool, digest: seq<Byte>)
    requires Acceptable(chunks)
    ensures ok <==> 8 * |Concat(chunks)| < 0x1_0000_0000_0000_0000
    ensures ok ==> digest == Encode(Sha1(f, SHA_INIT, Concat(chunks)), High4)
  {
    hide Concat, Sha1, Held, Counts;
    var ctx := new ShaContext(f);
    digest := [];
    NoChunk(chunks);
    for i := 0 to |chunks|
      invariant ctx.Absorbed(Concat(chunks[..i])) && fresh(ctx) && fresh(ctx.input) && ctx.transform == f
    {
      ConcatNext(chunks, i);
      ConcatPrefix(chunks, i + 1);
      var err := ctx.Update(chunks[i], Concat(chunks[..i]));
      if err != 0 {
        return false, digest;
      }
    }
    assert chunks[..|chunks|] == chunks;
    ok := true;
    digest := ctx.Final(Concat(chunks));
  }
}
