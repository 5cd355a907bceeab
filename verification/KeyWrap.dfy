/** The AES key wrap of sections 2.2.1 and 2.2.2 of RFC 3394, in its index-based form, over a block
    cipher given as a function on 16-byte blocks. */
module KeyWrapSpec {
  import opened AesTables
  import opened BlockCipher

  /** The registers A and R[1..n], R as one run of bytes. */
  datatype Regs = Regs(a: Bytes, r: Bytes)

  predicate Shaped(s: Regs, n: nat) { |s.a| == 8 && |s.r| == 8 * n }

  function HalfAt(r: Bytes, i: nat): (h: Bytes)
    requires 8 * i + 8 <= |r|
    ensures |h| == 8
  {
    r[8 * i..8 * i + 8]
  }

  function PutHalf(r: Bytes, i: nat, h: Bytes): (q: Bytes)
    requires 8 * i + 8 <= |r| && |h| == 8
    ensures |q| == |r|
  {
    r[..8 * i] + h + r[8 * i + 8..]
  }

  lemma HalfOfPut(r: Bytes, i: nat, h: Bytes)
    requires 8 * i + 8 <= |r| && |h| == 8
    ensures HalfAt(PutHalf(r, i, h), i) == h
    ensures PutHalf(PutHalf(r, i, h), i, HalfAt(r, i)) == r
  {
  }

  /** A 64-bit number, highest byte first. */
  function CountBytes(t: nat): (b: Bytes)
    ensures |b| == 8
  {
    [ToByte(t / 0x100_0000_0000_0000 % 256), ToByte(t / 0x1_0000_0000_0000 % 256),
     ToByte(t / 0x100_0000_0000 % 256), ToByte(t / 0x1_0000_0000 % 256), ToByte(t / 0x100_0000 % 256),
     ToByte(t / 0x1_0000 % 256), ToByte(t / 0x100 % 256), ToByte(t % 256)]
  }

  /** The step count enters as a 64-bit number, highest byte first. */
  lemma CountIs(t: nat)
    requires t < 0x1_0000_0000_0000_0000
    ensures Value(CountBytes(t)) == t
  {
    hide Value, ToByte;
    var b := CountBytes(t);
    Halved(t);
    NoDigits();
    assert b[..0] == [] && b[..8] == b;
    Digit(b, 0, t / 0x100_0000_0000_0000);
    Digit(b, 1, t / 0x1_0000_0000_0000);
    Digit(b, 2, t / 0x100_0000_0000);
    Digit(b, 3, t / 0x1_0000_0000);
    Digit(b, 4, t / 0x100_0000);
    Digit(b, 5, t / 0x1_0000);
    Digit(b, 6, t / 0x100);
    Digit(b, 7, t);
  }

  /** A prefix that stands for t / 256 and the low byte of t stand for t. */
  lemma Digit(b: Bytes, k: nat, t: nat)
    requires k < |b| && Value(b[..k]) == t / 256 && b[k] == ToByte(t % 256)
    ensures Value(b[..k + 1]) == t
  {
    hide Value, ToByte;
    ValueSnoc(b[..k], b[k]);
    ByteBack(t % 256);
    assert b[..k + 1] == b[..k] + [b[k]];
  }

  lemma NoDigits()
    ensures Value([]) == 0
  {
  }

  lemma Halved(t: nat)
    ensures t / 0x100 / 256 == t / 0x1_0000 && t / 0x1_0000 / 256 == t / 0x100_0000
    ensures t / 0x100_0000 / 256 == t / 0x1_0000_0000 && t / 0x1_0000_0000 / 256 == t / 0x100_0000_0000
    ensures t / 0x100_0000_0000 / 256 == t / 0x1_0000_0000_0000
    ensures t / 0x1_0000_0000_0000 / 256 == t / 0x100_0000_0000_0000
  {
  }

  lemma SmallBytes(t: nat)
    requires t < 256
    ensures CountBytes(t) == [0, 0, 0, 0, 0, 0, 0, ToByte(t)]
  {
    hide ToByte;
    ZeroByte();
  }

  /** A count below 256 touches the last byte only. */
  lemma SmallCount(a: Bytes, t: nat)
    requires |a| == 8 && t < 256
    ensures XorBytes(a, CountBytes(t)) == a[7 := Xor(a[7], ToByte(t))]
  {
    hide Xor, CountBytes, ToByte;
    SmallBytes(t);
    forall k | 0 <= k < 7
      ensures XorBytes(a, CountBytes(t))[k] == a[k]
    {
      XorZero(a[k]);
    }
  }

  // ------------------------------------------------------------- steps

  /** Step t of the wrap, on register R[i + 1]. */
  ghost function MixOne(e: Block, s: Regs, i: nat, t: nat): (q: Regs)
    requires |s.a| == 8 && 8 * i + 8 <= |s.r| && |e(s.a + HalfAt(s.r, i))| == 16
    ensures |q.a| == 8 && |q.r| == |s.r|
  {
    var b := e(s.a + HalfAt(s.r, i));
    Regs(XorBytes(b[..8], CountBytes(t)), PutHalf(s.r, i, b[8..]))
  }

  /** The same step of the unwrap. */
  ghost function UnmixOne(d: Block, s: Regs, i: nat, t: nat): (q: Regs)
    requires |s.a| == 8 && 8 * i + 8 <= |s.r| && |d(XorBytes(s.a, CountBytes(t)) + HalfAt(s.r, i))| == 16
    ensures |q.a| == 8 && |q.r| == |s.r|
  {
    var b := d(XorBytes(s.a, CountBytes(t)) + HalfAt(s.r, i));
    Regs(b[..8], PutHalf(s.r, i, b[8..]))
  }

  lemma UnmixMix(e: Block, d: Block, s: Regs, i: nat, t: nat)
    requires |s.a| == 8 && 8 * i + 8 <= |s.r| && Undoes(d, e)
    ensures var q := MixOne(e, s, i, t); d(XorBytes(q.a, CountBytes(t)) + HalfAt(q.r, i)) == s.a + HalfAt(s.r, i)
    ensures UnmixOne(d, MixOne(e, s, i, t), i, t) == s
  {
    hide XorBytes, CountBytes, HalfAt, PutHalf;
    var h := HalfAt(s.r, i);
    var b := e(s.a + h);
    var q := MixOne(e, s, i, t);
    XorBytesTwice(b[..8], CountBytes(t));
    HalfOfPut(s.r, i, b[8..]);
    assert b[..8] + b[8..] == b;
    assert (s.a + h)[..8] == s.a && (s.a + h)[8..] == h;
  }

  lemma MixUnmix(e: Block, d: Block, s: Regs, i: nat, t: nat)
    requires |s.a| == 8 && 8 * i + 8 <= |s.r| && Undoes(e, d)
    ensures var q := UnmixOne(d, s, i, t); e(q.a + HalfAt(q.r, i)) == XorBytes(s.a, CountBytes(t)) + HalfAt(s.r, i)
    ensures MixOne(e, UnmixOne(d, s, i, t), i, t) == s
  {
    hide XorBytes, CountBytes, HalfAt, PutHalf;
    var h, x := HalfAt(s.r, i), XorBytes(s.a, CountBytes(t));
    var b := d(x + h);
    XorBytesTwice(s.a, CountBytes(t));
    HalfOfPut(s.r, i, b[8..]);
    assert b[..8] + b[8..] == b;
    assert (x + h)[..8] == x && (x + h)[8..] == h;
  }

  /** The first t steps of the wrap: step t works on register (t - 1) % n + 1. */
  ghost function Mix(e: Block, s: Regs, n: nat, t: nat): (q: Regs)
    requires n > 0 && Shaped(s, n) && Keeps16(e)
    ensures Shaped(q, n)
  {
    if t == 0 then s else MixOne(e, Mix(e, s, n, t - 1), (t - 1) % n, t)
  }

  /** The steps t, t - 1, ..., 1 of the unwrap. */
  ghost function Unmix(d: Block, s: Regs, n: nat, t: nat): (q: Regs)
    requires n > 0 && Shaped(s, n) && Keeps16(d)
    ensures Shaped(q, n)
    decreases t
  {
    if t == 0 then s else Unmix(d, UnmixOne(d, s, (t - 1) % n, t), n, t - 1)
  }

  lemma {:induction false} UnmixInverts(e: Block, d: Block, s: Regs, n: nat, t: nat)
    requires n > 0 && Shaped(s, n) && Keeps16(d) && Undoes(d, e)
    ensures Unmix(d, Mix(e, s, n, t), n, t) == s
  {
    hide MixOne, UnmixOne;
    if t > 0 {
      UnmixMix(e, d, Mix(e, s, n, t - 1), (t - 1) % n, t);
      UnmixInverts(e, d, s, n, t - 1);
    }
  }

  lemma {:induction false} MixInverts(e: Block, d: Block, s: Regs, n: nat, t: nat)
    requires n > 0 && Shaped(s, n) && Keeps16(e) && Undoes(e, d)
    ensures Mix(e, Unmix(d, s, n, t), n, t) == s
    decreases t
  {
    hide MixOne, UnmixOne;
    if t > 0 {
      var u := UnmixOne(d, s, (t - 1) % n, t);
      MixInverts(e, d, u, n, t - 1);
      MixUnmix(e, d, s, (t - 1) % n, t);
    }
  }

  // ------------------------------------------------------------- wrap and unwrap

  const IV: Bytes := [0xa6, 0xa6, 0xa6, 0xa6, 0xa6, 0xa6, 0xa6, 0xa6]

  ghost function Wrap(e: Block, p: Bytes, n: nat): (c: Bytes)
    requires |p| == 8 * n && Keeps16(e)
    ensures |c| == 8 * n + 8
  {
    if n == 0 then IV
    else
      var s := Mix(e, Regs(IV, p), n, 6 * n);
      s.a + s.r
  }

  /** A and the registers after the 6n steps; the unwrap of RFC 3394 succeeds when A is IV. */
  ghost function Unwrap(d: Block, c: Bytes, n: nat): (s: Regs)
    requires |c| == 8 * n + 8 && Keeps16(d)
    ensures |s.a| == 8 && |s.r| == 8 * n
  {
    if n == 0 then Regs(c, [])
    else Unmix(d, Regs(c[..8], c[8..]), n, 6 * n)
  }

  /** Unwrap inverts wrap, and returns A to its initial value. */
  lemma UnwrapWrap(e: Block, d: Block, p: Bytes, n: nat)
    requires |p| == 8 * n && Keeps16(e) && Keeps16(d) && Undoes(d, e)
    ensures Unwrap(d, Wrap(e, p, n), n) == Regs(IV, p)
  {
    hide Mix, Unmix;
    if n > 0 {
      var s := Mix(e, Regs(IV, p), n, 6 * n);
      assert (s.a + s.r)[..8] == s.a && (s.a + s.r)[8..] == s.r;
      UnmixInverts(e, d, Regs(IV, p), n, 6 * n);
    }
  }

  /** The initial value comes back exactly for the ciphertexts that are a wrap of something. */
  lemma WrapImage(e: Block, d: Block, c: Bytes, n: nat)
    requires |c| == 8 * n + 8 && Keeps16(e) && Keeps16(d) && Undoes(d, e) && Undoes(e, d)
    ensures Unwrap(d, c, n).a == IV <==> exists p: Bytes {:trigger Wrap(e, p, n)} :: |p| == 8 * n && Wrap(e, p, n) == c
  {
    hide Mix, Unmix;
    var s := Unwrap(d, c, n);
    if s.a == IV {
      if n > 0 {
        MixInverts(e, d, Regs(c[..8], c[8..]), n, 6 * n);
      }
      assert Wrap(e, s.r, n) == c;
    }
    forall p: Bytes | |p| == 8 * n && Wrap(e, p, n) == c
      ensures s.a == IV
    {
      UnwrapWrap(e, d, p, n);
    }
  }
}

/** AES_GTK_KEY_WRAP and AES_GTK_KEY_UNWRAP of common/cmm_wpa.c. */
module KeyWrap {
  import opened Aes
  import opened AesTables
  import opened AesTtable
  import opened BlockCipher
  import opened KeyWrapSpec
  import opened Modular
  import opened Options
  import opened Sequences

  ghost function View(a: array<bv8>, r: array<bv8>, from: nat, n: nat): (s: Regs)
    requires a.Length == 8 && from + 8 * n <= r.Length
    reads a, r
    ensures Shaped(s, n)
  {
    Regs(a[..], r[from..from + 8 * n])
  }

  lemma CopyIsPut(r: Bytes, q: Bytes, from: nat, n: nat, i: nat, h: Bytes)
    requires from + 8 * n <= |r| == |q| && i < n && |h| == 8 && q[from + 8 * i..from + 8 * i + 8] == h
    requires forall j :: 0 <= j < |r| && !(from + 8 * i <= j < from + 8 * i + 8) ==> q[j] == r[j]
    ensures q[from..from + 8 * n] == PutHalf(r[from..from + 8 * n], i, h)
  {
    var x, y := q[from..from + 8 * n], PutHalf(r[from..from + 8 * n], i, h);
    forall j | 0 <= j < 8 * n
      ensures x[j] == y[j]
    {
      if 8 * i <= j < 8 * i + 8 {
        assert h[j - 8 * i] == q[from + 8 * i..from + 8 * i + 8][j - 8 * i];
      }
    }
  }

  lemma HalfIs(r: Bytes, from: nat, n: nat, i: nat)
    requires from + 8 * n <= |r| && i < n
    ensures r[from + 8 * i..from + 8 * i + 8] == HalfAt(r[from..from + 8 * n], i)
  {
    SliceOfSlice(r, from, from + 8 * n, 8 * i, 8 * i + 8);
  }

  /** Block encryption of the two halves. */
  method EncryptHalves(ctx: AesContext, a: seq<bv8>, h: seq<bv8>, ghost k: State) returns (bout: array<bv8>)
    requires ctx.Scheduled(k) && |a| == |h| == 8
    ensures fresh(bout) && bout.Length == 16 && bout[..] == Aes128(k)(a + h)
  {
    hide Cipher, ToBytes, FromBytes;
    var bin := new bv8[16];
    bout := new bv8[16];
    Copy(bin, 0, a);
    Copy(bin, 8, h);
    assert bin[..] == a + h;
    ctx.Encrypt(bin, bout, k);
    BytesRoundTrip(bout[..], Cipher(k, FromBytes(a + h)));
  }

  /** Storing the two halves of BOUT: into A, and into half i of R from `from` on. */
  method Store(a: array<bv8>, r: array<bv8>, from: nat, n: nat, i: nat, bout: seq<bv8>)
    requires |bout| == 16 && a.Length == 8 && a != r && from + 8 * n <= r.Length && i < n
    modifies a, r
    ensures a[..] == bout[..8]
    ensures r[from..from + 8 * n] == PutHalf(old(r[from..from + 8 * n]), i, bout[8..])
    ensures forall j :: from + 8 * n <= j < r.Length ==> r[j] == old(r[j])
  {
    hide PutHalf;
    ghost var was := r[..];
    Copy(a, 0, bout[..8]);
    assert a[..] == a[0..0 + 8];
    Copy(r, from + 8 * i, bout[8..]);
    CopyIsPut(was, r[..], from, n, i, bout[8..]);
    assert r[..][from..from + 8 * n] == r[from..from + 8 * n] && was[from..from + 8 * n] == old(r[from..from + 8 * n]);
  }

  /** The body of the key-mix loop: step t, on the half of R at 8 * i. */
  method WrapStep(ctx: AesContext, a: array<bv8>, r: array<bv8>, i: nat, t: nat, n: nat, ghost k: State)
    requires ctx.Scheduled(k) && a.Length == 8 && a != r && 8 + 8 * n <= r.Length && 1 <= i <= n && t < 256
    modifies a, r
    ensures Keeps16(Aes128(k)) && View(a, r, 8, n) == MixOne(Aes128(k), old(View(a, r, 8, n)), i - 1, t)
  {
    hide XorBytes, CountBytes, PutHalf, ToByte, Xor, Aes128, AesContext.Scheduled;
    Aes128Keeps(k);
    ghost var s := View(a, r, 8, n);
    ghost var was := r[..];
    HalfIs(was, 8, n, i - 1);
    var bout := EncryptHalves(ctx, a[..], r[8 * i..8 * i + 8], k);
    ghost var b := bout[..];
    SmallCount(b[..8], t);
    Store(a, r, 8, n, i - 1, bout[..]);
    a[7] := Xor(bout[7], ToByte(t));
    assert a[..] == b[..8][7 := Xor(b[7], ToByte(t))];
  }

  /** The step counter of round j, register i: below 256, and the register it names is i. */
  lemma StepNumber(n: nat, j: nat, i: nat)
    requires 1 <= i <= n < 32 && j < 6
    ensures n * j + i < 256 && (n * j + i - 1) % n == i - 1
  {
    assert n * j <= n * 5;
    assert n * j + i - 1 == n * j + (i - 1);
    RemainderIs(n, j, i - 1);
  }

  lemma MixUnfold(e: Block, s: Regs, n: nat, t: nat, i: nat)
    requires n > 0 && Shaped(s, n) && Keeps16(e) && t > 0 && (t - 1) % n == i && i < n
    ensures Mix(e, s, n, t) == MixOne(e, Mix(e, s, n, t - 1), i, t)
  {
    hide MixOne;
  }

  /** One pass of the key-mix loop over the registers; base is n * j. */
  method WrapRound(ctx: AesContext, a: array<bv8>, r: array<bv8>, j: nat, n: nat, base: nat, ghost k: State,
      ghost s: Regs)
    requires ctx.Scheduled(k) && a.Length == 8 && a != r && 8 + 8 * n <= r.Length && 1 <= n < 32 && j < 6
    requires base == n * j
    requires Keeps16(Aes128(k)) && Shaped(s, n) && View(a, r, 8, n) == Mix(Aes128(k), s, n, base)
    modifies a, r
    ensures View(a, r, 8, n) == Mix(Aes128(k), s, n, base + n)
  {
    hide MixOne, Mix, Aes128, AesContext.Scheduled, Keeps16, View;
    for i := 1 to n + 1
      invariant ctx.Scheduled(k)
      invariant View(a, r, 8, n) == Mix(Aes128(k), s, n, base + (i - 1))
    {
      StepNumber(n, j, i);
      MixUnfold(Aes128(k), s, n, base + i, i - 1);
      WrapStep(ctx, a, r, i, (base + i) % 256, n, k);
    }
  }

  /** The wrap under a 16-byte AES key. */
  ghost function AesWrap(key: Bytes, p: Bytes, n: nat): (c: Bytes)
    requires |key| == 16 && |p| == 8 * n
    ensures |c| == 8 * n + 8
  {
    Aes128Keeps(FromBytes(key));
    KeyWrapSpec.Wrap(Aes128(FromBytes(key)), p, n)
  }

  /** Key set-up, the initial A and R, and the six passes. */
  method MixAll(key: array<bv8>, p: seq<bv8>, n: nat) returns (a: array<bv8>, r: array<bv8>)
    requires key.Length == 16 && |p| == 8 * n && n < 32
    ensures fresh(a) && fresh(r) && a.Length == 8 && r.Length == 512
    ensures a[..] + r[8..8 + 8 * n] == AesWrap(key[..], p, n)
  {
    hide FromBytes, Aes128, AesContext.Scheduled, MixOne;
    ghost var k := FromBytes(key[..]);
    Aes128Keeps(k);
    var ctx := new AesContext();
    ctx.SetKey128(key);
    a := new bv8[8](_ => 0xa6);
    r := new bv8[512];
    Copy(r, 8, p);
    ghost var s := Regs(IV, p);
    assert a[..] == IV;
    if n > 0 {
      RunRounds(ctx, a, r, n, k, s);
    } else {
      assert a[..] + r[8..8] == a[..];
    }
  }

  method RunRounds(ctx: AesContext, a: array<bv8>, r: array<bv8>, n: nat, ghost k: State, ghost s: Regs)
    requires ctx.Scheduled(k) && a.Length == 8 && a != r && 8 + 8 * n <= r.Length && 1 <= n < 32
    requires Keeps16(Aes128(k)) && Shaped(s, n) && View(a, r, 8, n) == s
    modifies a, r
    ensures View(a, r, 8, n) == Mix(Aes128(k), s, n, 6 * n)
  {
    hide MixOne, Aes128, AesContext.Scheduled, Keeps16, View;
    for j := 0 to 6
      invariant ctx.Scheduled(k) && n * (j + 1) == n * j + n
      invariant View(a, r, 8, n) == Mix(Aes128(k), s, n, n * j)
    {
      WrapRound(ctx, a, r, j, n, n * j, k, s);
    }
  }

  /** AES_GTK_KEY_WRAP: the wrap of the whole 8-byte halves of the first pLen bytes. */
  method Wrap(key: array<bv8>, plaintext: seq<bv8>, pLen: nat, ciphertext: array<bv8>)
    requires key.Length == 16 && pLen < 256 && pLen <= |plaintext| && 8 * (pLen / 8) + 8 <= ciphertext.Length
    modifies ciphertext
    ensures var n := pLen / 8; ciphertext[..8 * n + 8] == AesWrap(old(key[..]), plaintext[..8 * n], n)
    ensures forall i :: 8 * (pLen / 8) + 8 <= i < ciphertext.Length ==> ciphertext[i] == old(ciphertext[i])
  {
    hide AesWrap;
    var n := pLen / 8;
    var a, r := MixAll(key, plaintext[..8 * n], n);
    ghost var c := a[..] + r[8..8 + 8 * n];
    Copy(ciphertext, 0, a[..]);
    Copy(ciphertext, 8, r[8..8 * n + 8]);
    assert ciphertext[..8 * n + 8] == c;
  }

  /** BIN of the unwrap: A with the counter in its last byte, then a half. */
  method JoinHalves(a: seq<bv8>, h: seq<bv8>, t: nat) returns (bin: array<bv8>)
    requires |a| == |h| == 8 && t < 256
    ensures fresh(bin) && bin[..] == XorBytes(a, CountBytes(t)) + h
  {
    hide XorBytes, CountBytes, ToByte, Xor;
    SmallCount(a, t);
    bin := new bv8[16];
    Copy(bin, 0, a);
    bin[7] := Xor(a[7], ToByte(t));
    Copy(bin, 8, h);
    assert bin[..8] == a[7 := Xor(a[7], ToByte(t))];
  }

  /** The body of the unwrap loop: step t undone, on the half of R at 8 * (i - 1). */
  method UnwrapStep(decrypt: Block, a: array<bv8>, r: array<bv8>, i: nat, t: nat, n: nat)
    requires Keeps16(decrypt) && a.Length == 8 && a != r && 8 * n <= r.Length && 1 <= i <= n && t < 256
    modifies a, r
    ensures View(a, r, 0, n) == UnmixOne(decrypt, old(View(a, r, 0, n)), i - 1, t)
    ensures forall j :: 8 * n <= j < r.Length ==> r[j] == old(r[j])
  {
    hide XorBytes, CountBytes, PutHalf, ToByte, Xor;
    ghost var s, was := View(a, r, 0, n), r[..];
    HalfIs(was, 0, n, i - 1);
    var bin := JoinHalves(a[..], r[8 * (i - 1)..8 * (i - 1) + 8], t);
    var bout := decrypt(bin[..]);
    Store(a, r, 0, n, i - 1, bout);
  }

  lemma UnmixUnfold(d: Block, s: Regs, n: nat, t: nat, i: nat)
    requires n > 0 && Shaped(s, n) && Keeps16(d) && t > 0 && (t - 1) % n == i && i < n
    ensures Unmix(d, s, n, t) == Unmix(d, UnmixOne(d, s, i, t), n, t - 1)
  {
    hide UnmixOne;
  }

  /** One pass of the unwrap loop, from the last register to the first; base is n * j. */
  method UnwrapRound(decrypt: Block, a: array<bv8>, r: array<bv8>, j: nat, n: nat, base: nat, ghost s: Regs)
    requires Keeps16(decrypt) && a.Length == 8 && a != r && 8 * n <= r.Length && 1 <= n < 32 && j < 6 && base == n * j
    requires Unmix(decrypt, View(a, r, 0, n), n, base + n) == s
    modifies a, r
    ensures Unmix(decrypt, View(a, r, 0, n), n, base) == s
    ensures forall x :: 8 * n <= x < r.Length ==> r[x] == old(r[x])
  {
    hide UnmixOne, Unmix, Keeps16, View;
    for i := n downto 0
      invariant Unmix(decrypt, View(a, r, 0, n), n, base + i) == s
      invariant forall x :: 8 * n <= x < r.Length ==> r[x] == old(r[x])
    {
      StepNumber(n, j, i + 1);
      UnmixUnfold(decrypt, View(a, r, 0, n), n, base + i + 1, i);
      UnwrapStep(decrypt, a, r, i + 1, (base + i + 1) % 256, n);
    }
  }

  /** AES_GTK_KEY_UNWRAP, given the block decryption of its key and the 512 bytes os_alloc_mem hands
      out for R, if any. The final A, which the code does not look at, is returned for the
      specification only. The last eight of the cLen bytes stored are what R held when allocated. */
  method Unwrap(decrypt: Block, plaintext: array<bv8>, cLen: nat, ciphertext: seq<bv8>, memory: Option<Bytes>)
    returns (ghost a: Bytes)
    requires Keeps16(decrypt) && cLen < 256 && cLen <= |ciphertext| && 8 <= |ciphertext| && cLen <= plaintext.Length
    requires memory.Some? ==> |memory.value| == 512
    modifies plaintext
    ensures memory.None? ==> plaintext[..] == old(plaintext[..])
    ensures memory.Some? && cLen < 8 ==> plaintext[..cLen] == memory.value[..cLen]
    ensures memory.Some? && cLen >= 8 ==>
              var n := cLen / 8 - 1;
              Regs(a, plaintext[..8 * n]) == KeyWrapSpec.Unwrap(decrypt, ciphertext[..8 * n + 8], n) &&
              plaintext[8 * n..cLen - 8] == ciphertext[8 * n + 8..cLen] &&
              plaintext[cLen - 8..cLen] == memory.value[cLen - 8..cLen]
    ensures forall i :: cLen <= i < plaintext.Length ==> plaintext[i] == old(plaintext[i])
  {
    hide KeyWrapSpec.Unwrap, Keeps16;
    a := [];
    if memory.None? {
      return;
    }
    var r := new bv8[512](i requires 0 <= i < 512 => memory.value[i]);
    assert r[..] == memory.value;
    a := UnmixAll(decrypt, r, cLen, ciphertext);
    Copy(plaintext, 0, r[..cLen]);
    assert plaintext[..cLen] == r[..cLen];
    if cLen >= 8 {
      ghost var n := cLen / 8 - 1;
      SameSlices(plaintext[..], r[..], cLen, n);
    }
  }

  lemma SameSlices(p: Bytes, r: Bytes, len: nat, n: nat)
    requires len <= |p| && len <= |r| && p[..len] == r[..len] && 8 * n <= len - 8
    ensures p[..8 * n] == r[..8 * n] && p[8 * n..len - 8] == r[8 * n..len - 8] && p[len - 8..len] == r[len - 8..len]
  {
    assert forall i :: 0 <= i < len ==> p[i] == p[..len][i] == r[..len][i] == r[i];
  }

  method UnmixAll(decrypt: Block, r: array<bv8>, cLen: nat, ciphertext: seq<bv8>) returns (ghost a: Bytes)
    requires Keeps16(decrypt) && r.Length == 512 && cLen < 256 && cLen <= |ciphertext| && 8 <= |ciphertext|
    modifies r
    ensures cLen >= 8 ==>
              var n := cLen / 8 - 1;
              Regs(a, r[..8 * n]) == KeyWrapSpec.Unwrap(decrypt, ciphertext[..8 * n + 8], n) &&
              r[8 * n..cLen - 8] == ciphertext[8 * n + 8..cLen] && r[cLen - 8..cLen] == old(r[cLen - 8..cLen])
    ensures cLen < 8 ==> r[..] == old(r[..])
  {
    hide UnmixOne, Keeps16;
    var areg := new bv8[8];
    Copy(areg, 0, ciphertext[..8]);
    assert areg[..] == ciphertext[..8];
    if cLen >= 8 {
      Copy(r, 0, ciphertext[8..cLen]);
      var n := cLen / 8 - 1;
      ghost var c := ciphertext[..8 * n + 8];
      assert r[0..0 + 8 * n] == ciphertext[8..cLen][..8 * n] == c[8..] && c[..8] == areg[..];
      assert r[8 * n..cLen - 8] == ciphertext[8 * n + 8..cLen] && r[cLen - 8..cLen] == old(r[cLen - 8..cLen]);
      if n > 0 {
        ghost var was := r[..];
        UnrunRounds(decrypt, areg, r, n);
        assert r[8 * n..cLen - 8] == was[8 * n..cLen - 8] && r[cLen - 8..cLen] == was[cLen - 8..cLen];
      }
      assert r[0..0 + 8 * n] == r[..8 * n];
    }
    a := areg[..];
  }

  lemma UnmixNone(d: Block, s: Regs, n: nat)
    requires n > 0 && Shaped(s, n) && Keeps16(d)
    ensures Unmix(d, s, n, n * 0) == s
  {
  }

  method UnrunRounds(decrypt: Block, a: array<bv8>, r: array<bv8>, n: nat)
    requires Keeps16(decrypt) && a.Length == 8 && a != r && 8 * n <= r.Length && 1 <= n < 32
    modifies a, r
    ensures View(a, r, 0, n) == Unmix(decrypt, old(View(a, r, 0, n)), n, 6 * n)
    ensures forall x :: 8 * n <= x < r.Length ==> r[x] == old(r[x])
  {
    hide UnmixOne, Unmix, Keeps16, View;
    ghost var s := Unmix(decrypt, View(a, r, 0, n), n, n * 6);
    for j := 6 downto 0
      invariant n * (j + 1) == n * j + n
      invariant Unmix(decrypt, View(a, r, 0, n), n, n * j) == s
      invariant forall x :: 8 * n <= x < r.Length ==> r[x] == old(r[x])
    {
      UnwrapRound(decrypt, a, r, j, n, n * j, s);
    }
    UnmixNone(decrypt, View(a, r, 0, n), n);
  }

  /** Wrapping and unwrapping under the same key: the plaintext comes back and A is the initial value,
      for every whole number of halves up to 240 bytes, given only that block decryption undoes block
      encryption. */
  method WrapThenUnwrap(key: array<bv8>, p: seq<bv8>, decrypt: Block, memory: Bytes) returns (q: seq<bv8>,
      ghost a: Bytes)
    requires key.Length == 16 && |p| % 8 == 0 && |p| <= 240 && |memory| == 512
    requires Keeps16(decrypt) && Undoes(decrypt, Aes128(FromBytes(key[..])))
    ensures q == p && a == IV
  {
    hide FromBytes, Aes128, KeyWrapSpec.Wrap, KeyWrapSpec.Unwrap, Undoes, Keeps16;
    var n := |p| / 8;
    var c, out := new bv8[|p| + 8], new bv8[|p| + 8];
    assert p[..8 * n] == p;
    Wrap(key, p, |p|, c);
    a := Unwrap(decrypt, out, |p| + 8, c[..], Some(memory));
    q := out[..|p|];
    Aes128Keeps(FromBytes(key[..]));
    UnwrapWrap(Aes128(FromBytes(key[..])), decrypt, p, n);
    assert c[..][..8 * n + 8] == c[..8 * n + 8];
  }
}
